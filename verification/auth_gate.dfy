/** The bearer-token gate that guards the mutating event routes: it reads
    the `Authorization` header, which must be shaped like `Bearer <token>`,
    and either rejects the request with 401 or lets it through carrying the
    user id decoded from the token. The shape is stricter than the
    `"Bearer" 1*SP b64token` of section 2.1 of RFC 6750 in one way (exactly
    one space, so `Bearer  t` is refused) and looser in another (any
    space-free token reaches the verifier, not just b64token characters).
    Token verification itself (signature, expiry, secret) is a parameter. */
module AuthGate {
  import opened Wrappers
  import opened StringSplit

  type UserId = string

  /** The four ways the gate refuses a request, in the order it checks. */
  datatype GateError = NotProvided | BadFormat | Malformed | InvalidToken

  function Message(e: GateError): string {
    match e
    case NotProvided => "Token não fornecido."
    case BadFormat => "Erro no formato do token."
    case Malformed => "Token malformatado."
    case InvalidToken => "Token inválido."
  }

  /** Either a 401 response is written, or `next` runs once with `userId`
      attached to the request and nothing written. */
  datatype GateResult = Reject(status: int, reason: GateError) | Proceed(userId: UserId)

  /** The token verifier: the decoded `userId` of a valid token, None for a
      token that fails verification. */
  type Verifier = string -> Option<UserId>

  const Scheme: string := "Bearer"

  /** Case folding of a case-insensitive, non-Unicode JavaScript regular
      expression, as far as it can affect a match against the ASCII pattern
      `Bearer`: ASCII lower-case letters fold to upper case, and no other
      character folds onto an ASCII letter. */
  function FoldCase(c: char): char {
    if 'a' <= c <= 'z' then (c as int - 32) as char else c
  }

  /** `/^Bearer$/i.test(s)`: the anchors force the whole string to match,
      position by position, up to case folding. */
  predicate SchemeMatches(s: string) {
    |s| == |Scheme| && forall i :: 0 <= i < |s| ==> FoldCase(s[i]) == FoldCase(Scheme[i])
  }

  function LowerAscii(c: char): char {
    if 'A' <= c <= 'Z' then (c as int + 32) as char else c
  }

  function Lower(s: string): (r: string)
    ensures |r| == |s|
    ensures forall i :: 0 <= i < |s| ==> r[i] == LowerAscii(s[i])
  {
    if |s| == 0 then "" else [LowerAscii(s[0])] + Lower(s[1..])
  }

  /** The scheme is accepted iff it spells "bearer" in any mix of upper
      and lower case ASCII letters. */
  lemma SchemeMatchesIff(s: string)
    ensures SchemeMatches(s) <==> Lower(s) == "bearer"
  {
  }

  /** The syntactic part of the gate: the header is present and non-empty,
      cuts into exactly two parts at its spaces, and the first part is the
      scheme. */
  predicate WellFormed(header: Option<string>) {
    && header.Some? && header.value != ""
    && |Split(header.value, ' ')| == 2
    && SchemeMatches(Split(header.value, ' ')[0])
  }

  /** The token part of a well-formed header. */
  function TokenOf(header: Option<string>): string
    requires WellFormed(header)
  {
    Split(header.value, ' ')[1]
  }

  /** The middleware: missing header, then part count, then scheme, then
      the verifier, each failure a 401 with its own message. */
  function Authenticate(header: Option<string>, verify: Verifier): (r: GateResult)
    ensures r.Reject? ==> r.status == 401
    ensures r.Reject? && r.reason == NotProvided <==> header.None? || header.value == ""
    ensures r.Reject? && r.reason == BadFormat <==>
      header.Some? && header.value != "" && Count(header.value, ' ') != 1
    ensures r.Reject? && r.reason == Malformed <==>
      header.Some? && header.value != "" && Count(header.value, ' ') == 1
      && !SchemeMatches(Split(header.value, ' ')[0])
    ensures r.Proceed? ==>
      && WellFormed(header)
      && header.value == Split(header.value, ' ')[0] + " " + TokenOf(header)
      && ' ' !in TokenOf(header)
      && verify(TokenOf(header)) == Some(r.userId)
    ensures r.Reject? && r.reason == InvalidToken <==>
      WellFormed(header) && verify(TokenOf(header)).None?
  {
    if header.None? || header.value == "" then
      Reject(401, NotProvided)
    else
      var parts := Split(header.value, ' ');
      SplitJoin(header.value, ' ');
      TwoPartsIff(header.value, ' ');
      if |parts| != 2 then
        Reject(401, BadFormat)
      else if !SchemeMatches(parts[0]) then
        Reject(401, Malformed)
      else
        match verify(parts[1])
        case None => Reject(401, InvalidToken)
        case Some(uid) => Proceed(uid)
  }

  /** The verifier is consulted last: a header that fails a syntactic
      check is rejected the same way whatever the verifier would say. */
  lemma VerifierOnlyAfterSyntax(header: Option<string>, v1: Verifier, v2: Verifier)
    requires !WellFormed(header)
    ensures Authenticate(header, v1) == Authenticate(header, v2)
    ensures Authenticate(header, v1).Reject?
  {
  }

  /** Once the header is well formed, the verdict on its token alone
      decides: `next` runs with exactly the decoded user id, or the request
      is refused as an invalid token. */
  lemma VerdictFollowsVerifier(header: Option<string>, verify: Verifier)
    requires WellFormed(header)
    ensures verify(TokenOf(header)).Some? ==>
      Authenticate(header, verify) == Proceed(verify(TokenOf(header)).value)
    ensures verify(TokenOf(header)).None? ==>
      Authenticate(header, verify) == Reject(401, InvalidToken)
  {
  }

  /** Every header of the shape `<scheme> <token>` with a space-free token
      and a scheme that is "Bearer" up to case passes the syntactic checks,
      and the verifier's verdict on exactly that token decides. */
  lemma {:induction false} BearerHeaderReachesVerifier(scheme: string, token: string, verify: Verifier)
    requires SchemeMatches(scheme)
    requires ' ' !in token
    ensures WellFormed(Some(scheme + " " + token))
    ensures TokenOf(Some(scheme + " " + token)) == token
    ensures Authenticate(Some(scheme + " " + token), verify) ==
      (match verify(token)
       case Some(uid) => Proceed(uid)
       case None => Reject(401, InvalidToken))
  {
    assert ' ' !in scheme by {
      forall i | 0 <= i < |scheme| ensures scheme[i] != ' ' {
        assert FoldCase(scheme[i]) == FoldCase(Scheme[i]);
      }
    }
    var parts := [scheme, token];
    assert NoSep(parts, ' ');
    assert Join(parts[1..], ' ') == token;
    assert Join(parts, ' ') == scheme + " " + token;
    JoinSplit(parts, ' ');
  }

  /** A header with a single space whose first part is not "Bearer" up to
      case is refused as malformed, whatever the token. */
  lemma {:induction false} OtherSchemeMalformed(scheme: string, token: string, verify: Verifier)
    requires ' ' !in scheme && ' ' !in token
    requires !SchemeMatches(scheme)
    ensures Authenticate(Some(scheme + " " + token), verify) == Reject(401, Malformed)
  {
    var parts := [scheme, token];
    assert NoSep(parts, ' ');
    assert Join(parts[1..], ' ') == token;
    assert Join(parts, ' ') == scheme + " " + token;
    JoinSplit(parts, ' ');
  }

  /** Two spaces between scheme and token make three parts, and a bare
      scheme makes one: both are format errors, not scheme errors. */
  lemma ExtraOrMissingSpaceRejected(verify: Verifier)
    ensures Authenticate(Some("Bearer  t"), verify) == Reject(401, BadFormat)
    ensures Authenticate(Some("Bearer"), verify) == Reject(401, BadFormat)
    ensures Authenticate(Some("Bearer t "), verify) == Reject(401, BadFormat)
  {
  }
}
