/** The protected event routes: the bearer-token gate runs first, and only
    a request it lets through reaches the handler, with the decoded user id
    as the caller. The read routes are public and call the handlers
    directly. */
module Routes {
  import opened Wrappers
  import opened JsValues
  import opened AuthGate
  import opened Events

  /** The response the gate writes when it refuses; the store is untouched. */
  function Refused(g: GateResult, store: Store): (h: Handled)
    requires g.Reject?
  {
    Handled(Error(g.status, AuthGate.Message(g.reason)), store)
  }

  /** POST /events behind the gate: a request whose bearer token verifies
      reaches the handler with the decoded user id as creator; any other
      request gets the gate's 401 with the gate's own message. */
  function PostEvent(store: Store, header: Option<string>, verify: Verifier, body: Body,
                     parseDate: DateParser, newId: Option<EventId>): (h: Handled)
    ensures !WellFormed(header) ==> h.store == store && h.response.Error? && h.response.status == 401
    ensures h.response.Json? ==>
      && h.response.payload.OneEvent?
      && WellFormed(header)
      && verify(TokenOf(header)) == Some(h.response.payload.event.creatorId)
    ensures h.store != store ==> h.response.Json?
    ensures !WellFormed(header) || verify(TokenOf(header)).None? ==>
      h.response.Error? && h.response.status == 401 && h.store == store
    ensures WellFormed(header) && verify(TokenOf(header)).Some? ==>
      h == CreateEvent(store, verify(TokenOf(header)).value, body, parseDate, newId)
    ensures Authenticate(header, verify).Reject? ==>
      h == Handled(Error(401, AuthGate.Message(Authenticate(header, verify).reason)), store)
  {
    match Authenticate(header, verify)
    case Reject(_, _) => Refused(Authenticate(header, verify), store)
    case Proceed(uid) => CreateEvent(store, uid, body, parseDate, newId)
  }

  /** PUT /events/:id behind the gate: a request whose bearer token
      verifies reaches the handler with the decoded user id, and the store
      changes only for a valid bearer token of the event's creator. */
  function PutEvent(store: Store, header: Option<string>, verify: Verifier, id: EventId, body: Body,
                    parseDate: DateParser, writeOk: bool): (h: Handled)
    ensures !WellFormed(header) ==> h.store == store && h.response.Error? && h.response.status == 401
    ensures header.None? ==> h == Handled(Error(401, AuthGate.Message(NotProvided)), store)
    ensures h.store != store ==>
      WellFormed(header) && id in store && verify(TokenOf(header)) == Some(store[id].creatorId)
    ensures h.store.Keys == store.Keys
    ensures WellFormed(header) && verify(TokenOf(header)).Some? ==>
      h == UpdateEvent(store, verify(TokenOf(header)).value, id, body, parseDate, writeOk)
    ensures Authenticate(header, verify).Reject? ==>
      h == Handled(Error(401, AuthGate.Message(Authenticate(header, verify).reason)), store)
  {
    match Authenticate(header, verify)
    case Reject(_, _) => Refused(Authenticate(header, verify), store)
    case Proceed(uid) => UpdateEvent(store, uid, id, body, parseDate, writeOk)
  }

  /** DELETE /events/:id behind the gate: a request whose bearer token
      verifies reaches the handler with the decoded user id; an event
      disappears only for a valid bearer token of its creator, and then it
      is the only one that does. */
  function DeleteEventRoute(store: Store, header: Option<string>, verify: Verifier, id: EventId,
                            deleteOk: bool): (h: Handled)
    ensures !WellFormed(header) ==> h.store == store && h.response.Error? && h.response.status == 401
    ensures header.None? ==> h == Handled(Error(401, AuthGate.Message(NotProvided)), store)
    ensures h.store != store ==>
      && WellFormed(header) && id in store && verify(TokenOf(header)) == Some(store[id].creatorId)
      && h.store == store - {id}
    ensures WellFormed(header) && verify(TokenOf(header)).Some? ==>
      h == DeleteEvent(store, verify(TokenOf(header)).value, id, deleteOk)
    ensures Authenticate(header, verify).Reject? ==>
      h == Handled(Error(401, AuthGate.Message(Authenticate(header, verify).reason)), store)
  {
    match Authenticate(header, verify)
    case Reject(_, _) => Refused(Authenticate(header, verify), store)
    case Proceed(uid) => DeleteEvent(store, uid, id, deleteOk)
  }
}
