# event-api: the bearer-token gate and the event handlers in Dafny

This project models the decision logic of a small event-management REST API.

- **The authentication middleware.** It reads the `Authorization` header, which must be shaped like `Bearer <token>`. The middleware checks, in a fixed order:
  1. the header is present and non-empty;
  2. splitting it on a single space gives exactly two parts;
  3. the first part is `Bearer`, ignoring case.

  Only after these checks is the token verified. A request that passes continues with the decoded user id attached. Every other request gets a 401 with its own message.

  This shape differs from the `"Bearer" 1*SP b64token` grammar of section 2.1 of RFC 6750 in two ways. It is stricter: exactly one space is allowed, so `Bearer  t` is refused. It is looser: any token without a space reaches the verifier, not only b64token characters.
- **The event controller.** It has create, list, fetch, update and delete over events that users own. The update builds a sparse patch that keeps only the *truthy* body fields. Only the creator of an event may update or delete it. The delete has no explicit existence check: on a missing event, reading `creatorId` from `null` throws, and the catch answers 404.

The relational store is an immutable `map<EventId, Event>`. Every handler is a pure function from (store, authenticated caller, request) to (response, store afterwards).

Some results come from code outside the model, so they enter as parameters:
- token verification is a `Verifier`, `string -> Option<UserId>`;
- `new Date(...)` is a `DateParser`, `JsVal -> Option<Timestamp>`;
- the store's answer to a write is a parameter of the handler that writes:
  - `newId` for create: the id the store gives the row, or None when it refuses the row;
  - `writeOk` for update;
  - `deleteOk` for delete.

JavaScript values in the request body are a `JsVal` datatype. `Truthy` is JavaScript's ToBoolean on those values.

Files:
- `wrappers.dfy`: `Option` and `Result`.
- `js_values.dfy`: `JsVal`, `Truthy`, and body field access. A missing key reads as `undefined`.
- `split.dfy`: `String.prototype.split` with a one-character separator, with its round trips.
- `auth_gate.dfy`: the middleware.
- `events.dfy`: the data model and the five handlers.
- `event_laws.dfy`: lemmas that relate the handlers to each other.
- `routes.dfy`: the protected routes, each one the gate followed by its handler.

Four behaviours of the code are worth stating plainly:
- The header is cut at every single space. So `Bearer  t` (two spaces) has three parts and is a format error. Given the string `Bearer t ` (trailing space), the middleware answers with a format error too. Over HTTP that string never reaches it, because Node strips the spaces around a header value (see "## Left out").
- Create passes `new Date(date)` straight to the store, with no date check of its own. The model treats an Invalid Date as one more way the store refuses the row, so it is a 400 like any other refusal.
- Delete has no existence check. A missing event and a store-refused delete both answer 404 with the same message.
- The routes file also wires `registerForEvent`, which the controller does not export. Express refuses that `undefined` handler when the module loads, so as written no event route is mounted. The `Routes` members model the three protected routes as they would run without that line (see "## Left out").

## Model

| member | source | states |
|---|---|---|
| JsValues.FalsyValues | src/controllers/eventController.js:68-71 | The values the `if (field)` tests treat as absent are exactly undefined, null, false, 0 and the empty string. |
| StringSplit.SplitJoin | src/middlewares/authMiddleware.js:11 | `split(" ")` gives one more part than the header has spaces. No part contains a space. Joining the parts with spaces gives back the header. |
| StringSplit.JoinSplit | src/middlewares/authMiddleware.js:11 | The converse round trip: space-free parts joined with single spaces split back into exactly those parts. |
| StringSplit.TwoPartsIff | src/middlewares/authMiddleware.js:11-14 | The part count is 2 exactly when the header holds exactly one space. The two parts are then the text before it and the text after it. |
| AuthGate.SchemeMatchesIff | src/middlewares/authMiddleware.js:16-19 | `/^Bearer$/i` accepts a scheme exactly when it lower-cases to "bearer". |
| AuthGate.Authenticate | src/middlewares/authMiddleware.js:3-29 | Every refusal is a 401. "Token não fornecido." comes exactly when the header is absent or empty. The format error comes exactly when a non-empty header does not hold exactly one space. "Token malformatado." comes exactly when there is one space and the scheme is not Bearer up to case. "Token inválido." comes exactly when the header is well formed and the verifier rejects the token. On success the request proceeds with the verifier's user id for the token after the single space. |
| AuthGate.VerifierOnlyAfterSyntax | src/middlewares/authMiddleware.js:6-21 | A header that fails a syntactic check gets the same refusal whatever the verifier would say, so the verifier is consulted only after all the checks pass. |
| AuthGate.VerdictFollowsVerifier | src/middlewares/authMiddleware.js:21-27 | For a well-formed header, the verifier's answer on the token alone decides. A valid token proceeds with exactly its decoded user id. An invalid token is refused as invalid and sets no user id. |
| AuthGate.BearerHeaderReachesVerifier | src/middlewares/authMiddleware.js:11-27 | Any header `<scheme> <token>` with a space-free token and a scheme equal to Bearer up to case is well formed. Its outcome is the verifier's answer on that token. |
| AuthGate.OtherSchemeMalformed | src/middlewares/authMiddleware.js:16-19 | A header with one space and any other scheme is refused as "Token malformatado.", whatever the token. |
| AuthGate.ExtraOrMissingSpaceRejected | src/middlewares/authMiddleware.js:11-14 | As the middleware's input string, `Bearer  t`, `Bearer` and `Bearer t ` are format errors, not scheme errors. Over HTTP, `Bearer t ` is stripped to `Bearer t` before the middleware sees it (see "## Left out"). |
| Events.CreateEvent | src/controllers/eventController.js:5-23 | A 201 comes exactly when the store assigns a fresh id and the date parses. The created event takes the four body fields, the parsed date and the caller as creator, and it is added under its id. Every other outcome is a 400 "Não foi possível criar o evento." with the store unchanged. |
| Events.GetAllEvents | src/controllers/eventController.js:26-31 | A 200 list with one entry per stored event. Every stored event appears, nothing else appears, and no id appears twice. |
| Events.GetEventById | src/controllers/eventController.js:34-44 | A 404 "Evento não encontrado." comes exactly when the id is not stored. For every stored id the answer is a 200 with the stored event. |
| Events.BuildPatch | src/controllers/eventController.js:64-78 | A truthy date that does not parse fails with "Formato de data inválido.". Otherwise the patch's keys are exactly the updatable fields with truthy body values. Each present field carries the body's value, and the date is present already parsed. |
| Events.ApplyPatch | src/controllers/eventController.js:87-90 | The update keeps the id and the creator. Every field in the patch takes the patch's value. Every field not in the patch keeps its old value. |
| Events.UpdateEvent | src/controllers/eventController.js:47-99 | Error precedence: a missing id gives 404, then a non-creator gives 403, both whatever the body holds. Then a bad date gives 400 exactly when the date is truthy and unparsable. Then "nothing to update" gives 400 exactly when no updatable field is truthy. Then a store refusal gives 500. A 200 comes exactly when the creator sends at least one truthy field, the date is falsy or parses, and the store accepts. Only a 200 changes the store, and then only that id changes, to the patched event. The set of ids never changes. |
| Events.DeleteEvent | src/controllers/eventController.js:102-122 | A missing id gives 404 through the caught null read. A non-creator gives 403. A store-refused delete by the creator gives the same 404 message as a missing id. A 204 comes exactly when the creator deletes and the store accepts. Then exactly that id is removed. Every other outcome leaves the store unchanged. |
| EventLaws.CreateThenGet | src/controllers/eventController.js:5-44 | After a successful create, fetching the new id returns the created event, owned by the caller. The set of ids grows by exactly that id. |
| EventLaws.CreateIgnoresOtherKeys | src/controllers/eventController.js:6-7 | A body key other than the four event fields, `creatorId` included, does not change what create does. |
| EventLaws.UpdateIgnoresOtherKeys | src/controllers/eventController.js:65-78 | A body key other than the four event fields, `creatorId` included, does not change what update does. |
| EventLaws.UpdateKeepsOwnership | src/controllers/eventController.js:58-90 | No update changes any event's id or creator. |
| EventLaws.UpdateThenGet | src/controllers/eventController.js:65-92 | After a successful update, a fetch returns the patched event. Each truthy field carries the body's value, with the date parsed. Each falsy field is as before. |
| EventLaws.UpdateIdempotent | src/controllers/eventController.js:65-92 | Repeating a successful update leaves the store as it is and answers with the same event. |
| EventLaws.FalsyBodyNothingToUpdate | src/controllers/eventController.js:81-85 | For the creator, an empty body, or one whose fields are "", null, false and 0, gives 400 "Nenhum dado fornecido para atualização." and no change. |
| EventLaws.MutationGuards | src/controllers/eventController.js:52-121 | Another user's update and delete both give 403, whatever the body holds. On a missing id both give 404, but with different answers: update checks existence explicitly, and delete reaches its catch. None of these cases changes the store. |
| EventLaws.DeleteThenGet | src/controllers/eventController.js:107-121 | After a successful delete, fetching the id gives 404. A second delete takes the null-read path to 404. Every other event is untouched. |
| Routes.PostEvent | src/routes/eventRoutes.js:11 | A request whose header is well formed and whose token verifies gets exactly what create answers, with the decoded user id as creator. Every other request gets the gate's 401 with the gate's own message for its reason, and no change. |
| Routes.PutEvent | src/routes/eventRoutes.js:12 | A request whose header is well formed and whose token verifies gets exactly what update answers, with the decoded user id as caller. Every request the gate refuses gets the gate's 401 with the gate's own message for its reason, and no change. The store changes only when the token decodes to the event's creator. |
| Routes.DeleteEventRoute | src/routes/eventRoutes.js:13 | A request whose header is well formed and whose token verifies gets exactly what delete answers, with the decoded user id as caller. Every request the gate refuses gets the gate's 401 with the gate's own message for its reason, and no change. An event disappears only when the token decodes to its creator, and then it is the only one removed. |

## Left out

- src/controllers/authController.js (register and login) is not modelled. It only wraps bcrypt hashing and comparison, `jwt.sign` and a Prisma lookup, and maps their failures to 400, 401, 404 and 500.
- `registerForEvent` is not modelled. src/routes/eventRoutes.js:14 passes `eventController.registerForEvent`, but the controller never exports such a handler, so that value is `undefined`. Express throws when it is given a non-function handler, so loading the routes module fails. As written, none of the event routes is ever mounted. The `Routes` members model the wiring of lines 11-13 as it would run without line 14.
- AuthGate.Authenticate accepts any header string. Over HTTP, the middleware sees the header value only after Node's HTTP parser has stripped the leading and trailing spaces and tabs. So `Bearer t ` arrives as `Bearer t` and reaches the verifier. `Bearer ` arrives as `Bearer`, a format error, so the verifier never sees an empty token. A header of only spaces arrives as `""` and gets "Token não fornecido.". The trailing-space cases of `AuthGate.ExtraOrMissingSpaceRejected` arise only when the middleware function is called directly.
- Token verification is not modelled. Signature, expiry and the `JWT_SECRET` lookup are the `Verifier` parameter.
- A valid token whose payload has no `userId` (which would attach `undefined`) is not modelled. The `Verifier` always yields a user id.
- Date parsing is the `DateParser` parameter. The `Date` format grammar, floating-point epochs and `isNaN` are not modelled.
- Prisma is not modelled. The store is an in-memory map.
- Store refusals of a write are oracle parameters: `newId`, `writeOk` and `deleteOk`. Prisma's own validation of field types, such as a non-string title, is folded into them, without saying which values it refuses.
- Failing reads are not modelled. `findUnique` and `findMany` always answer. A failed read lands in the catch, which answers 500 in update and 404 in delete. In the two read handlers the rejection is unhandled.
- The `include` joins of the creator's name and email in the two read handlers are not modelled. The stored event is returned as it is.
- The list order of `getAllEvents` is left open. `Events.GetAllEvents` chooses the order nondeterministically.
- AuthGate.FoldCase folds only ASCII letters. JavaScript folds other letters too, but in a non-Unicode regular expression no other character folds onto an ASCII letter, so which schemes match `Bearer` is unaffected.
- Strings are sequences of Unicode scalar values, not UTF-16 code units. Splitting on a space is unaffected, but lone surrogates cannot be represented.
- JSON numbers are reals, so `Infinity` cannot be represented. `JSON.parse` produces it for an overflowing literal such as `1e400`. It is truthy, like every non-zero number, so no handler decision changes. JSON carries no NaN, and -0 is falsy like 0.
- Express, CORS, dotenv, `express.json`, the listen call and the `console.error` logging are not modelled. The request body is always an object.
- Concurrency is not modelled. Each request sees one store value, so races between concurrent updates, where the last write wins, cannot be expressed.
