/** JavaScript values as they reach the request handlers: the parsed JSON
    request body, with JavaScript's truthiness and the `undefined` that a
    destructuring of a missing key produces. */
module JsValues {

  /** A JSON value as produced by the body parser, plus `undefined` for a key
      the body does not carry. Numbers are kept as reals: a JSON number is
      never NaN, and -0 equals 0 here exactly as it is falsy in JavaScript. */
  datatype JsVal =
    | Undefined
    | Null
    | Bool(b: bool)
    | Num(n: real)
    | Str(s: string)
    | Arr(elems: seq<JsVal>)
    | Obj(fields: map<string, JsVal>)

  /** JavaScript's ToBoolean: the falsy values are undefined, null, false,
      zero and the empty string; every array and object is truthy, even an
      empty one. */
  predicate Truthy(v: JsVal) {
    match v
    case Undefined => false
    case Null => false
    case Bool(b) => b
    case Num(n) => n != 0.0
    case Str(s) => s != ""
    case Arr(_) => true
    case Obj(_) => true
  }

  /** A request body: the JSON object the body parser leaves in `req.body`. */
  type Body = map<string, JsVal>

  /** `const { key } = body`: a missing key reads as `undefined`. */
  function Field(body: Body, key: string): JsVal {
    if key in body then body[key] else Undefined
  }

  /** The values JavaScript treats as false are exactly the five listed;
      this pins down which request fields the handlers treat as absent. */
  lemma FalsyValues(v: JsVal)
    ensures !Truthy(v) <==>
      v == Undefined || v == Null || v == Bool(false) || v == Num(0.0) || v == Str("")
  {
  }
}
