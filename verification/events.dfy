/** The event handlers: create, list, fetch, update and delete over an event
    store. The relational store is an immutable map from event id to event;
    every handler is a pure function from the store, the authenticated
    caller and the request to a response and the store afterwards. Where the
    store itself may refuse a write, the handler takes the store's answer as
    a parameter. `new Date(...)` is the parameter `parseDate`. */
module Events {
  import opened Wrappers
  import opened JsValues
  import AuthGate

  type UserId = AuthGate.UserId
  type EventId = string

  /** Milliseconds since the epoch of a valid `Date`. */
  type Timestamp = int

  /** `new Date(v)`: the timestamp it denotes, or None for an Invalid Date. */
  type DateParser = JsVal -> Option<Timestamp>

  datatype Event = Event(
    id: EventId,
    title: JsVal,
    description: JsVal,
    date: Timestamp,
    location: JsVal,
    creatorId: UserId)

  type Store = map<EventId, Event>

  /** Each stored event carries its own key as its id. */
  predicate Valid(store: Store) {
    forall k :: k in store ==> store[k].id == k
  }

  datatype Payload = OneEvent(event: Event) | EventList(events: seq<Event>)

  /** A JSON body with a status, an `{ error }` body with a status, or the
      empty 204 answer. */
  datatype Response = Json(status: int, payload: Payload) | Error(status: int, message: string) | NoContent

  /** What a handler leaves behind: the response written and the store. */
  datatype Handled = Handled(response: Response, store: Store)

  const CreateFailed: string := "Não foi possível criar o evento."
  const NotFound: string := "Evento não encontrado."
  const NotOwnerUpdate: string := "Você não tem permissão para editar este evento."
  const InvalidDate: string := "Formato de data inválido."
  const NothingToUpdate: string := "Nenhum dado fornecido para atualização."
  const UpdateFailed: string := "Erro interno do servidor ao atualizar o evento."
  const NotOwnerDelete: string := "Você não tem permissão para deletar este evento."
  const DeleteFailed: string := "Evento não encontrado ou erro ao deletar."

  /** `findUnique({ where: { id } })`: the event, or null. */
  function Lookup(store: Store, id: EventId): Option<Event> {
    if id in store then Some(store[id]) else None
  }

  // ---------------------------------------------------------------- create

  /** POST /events. The four fields come from the body and the creator is
      the authenticated caller; any other key of the body is ignored.
      `newId` is the store's answer to the insert: the id it gives the
      new row, or None when it refuses the row. An Invalid Date and an id
      already taken are refusals too. Every refusal is a 400. */
  function CreateEvent(store: Store, caller: UserId, body: Body, parseDate: DateParser,
                       newId: Option<EventId>): (h: Handled)
    ensures h.response.Json? <==>
      newId.Some? && newId.value !in store && parseDate(Field(body, "date")).Some?
    ensures !h.response.Json? ==> h == Handled(Error(400, CreateFailed), store)
    ensures h.response.Json? ==>
      && h.response.status == 201
      && h.response.payload.OneEvent?
      && var e := h.response.payload.event;
      && e.id == newId.value
      && e.creatorId == caller
      && e.title == Field(body, "title")
      && e.description == Field(body, "description")
      && e.location == Field(body, "location")
      && parseDate(Field(body, "date")) == Some(e.date)
      && h.store == store[e.id := e]
    ensures Valid(store) ==> Valid(h.store)
  {
    var when := parseDate(Field(body, "date"));
    if newId.None? || newId.value in store || when.None? then
      Handled(Error(400, CreateFailed), store)
    else
      var e := Event(newId.value, Field(body, "title"), Field(body, "description"),
                     when.value, Field(body, "location"), caller);
      Handled(Json(201, OneEvent(e)), store[e.id := e])
  }

  // ---------------------------------------------------------------- read

  /** GET /events: every stored event, each once, in whatever order the
      store hands them out. */
  method GetAllEvents(store: Store) returns (r: Response)
    ensures r.Json? && r.status == 200 && r.payload.EventList?
    ensures |r.payload.events| == |store|
    ensures forall i :: 0 <= i < |r.payload.events| ==> r.payload.events[i] in store.Values
    ensures forall k :: k in store ==> store[k] in r.payload.events
    ensures Valid(store) ==>
      forall i, j :: 0 <= i < j < |r.payload.events| ==>
        r.payload.events[i].id != r.payload.events[j].id
  {
    var pending := store.Keys;
    var listed: seq<Event> := [];
    ghost var keys: seq<EventId> := [];
    while pending != {}
      invariant pending <= store.Keys
      invariant |keys| == |listed|
      invariant forall i :: 0 <= i < |keys| ==> keys[i] in store && listed[i] == store[keys[i]]
      invariant forall i :: 0 <= i < |keys| ==> keys[i] !in pending
      invariant forall i, j :: 0 <= i < j < |keys| ==> keys[i] != keys[j]
      invariant forall k :: k in store && k !in pending ==> k in keys
      invariant |listed| + |pending| == |store|
      decreases |pending|
    {
      var k :| k in pending;
      listed := listed + [store[k]];
      keys := keys + [k];
      pending := pending - {k};
    }
    forall k | k in store ensures store[k] in listed {
      var i :| 0 <= i < |keys| && keys[i] == k;
      assert listed[i] == store[k];
    }
    r := Json(200, EventList(listed));
  }

  /** GET /events/:id: the stored event, or 404. */
  function GetEventById(store: Store, id: EventId): (r: Response)
    ensures r.Error? <==> id !in store
    ensures r.Error? ==> r == Error(404, NotFound)
    ensures id in store ==> r == Json(200, OneEvent(store[id]))
  {
    match Lookup(store, id)
    case None => Error(404, NotFound)
    case Some(e) => Json(200, OneEvent(e))
  }

  // ---------------------------------------------------------------- update

  /** The sparse update built from a request body: a field is present iff
      the body's value for it is truthy; the date is present already
      converted. */
  datatype Patch = Patch(
    title: Option<JsVal>,
    description: Option<JsVal>,
    location: Option<JsVal>,
    date: Option<Timestamp>)

  const UpdatableFields: set<string> := {"title", "description", "location", "date"}

  /** `Object.keys(dataToUpdate)`, as a set. */
  function Keys(p: Patch): set<string> {
    (if p.title.Some? then {"title"} else {})
    + (if p.description.Some? then {"description"} else {})
    + (if p.location.Some? then {"location"} else {})
    + (if p.date.Some? then {"date"} else {})
  }

  /** The body's updatable fields whose values are truthy. */
  function TruthyFields(body: Body): set<string> {
    set k | k in UpdatableFields && Truthy(Field(body, k))
  }

  function KeepTruthy(v: JsVal): Option<JsVal> {
    if Truthy(v) then Some(v) else None
  }

  /** The date check of the update: a truthy date that does not parse
      stops the whole update. */
  predicate BadDate(body: Body, parseDate: DateParser) {
    Truthy(Field(body, "date")) && parseDate(Field(body, "date")).None?
  }

  /** Build `dataToUpdate`. A falsy value, the empty string included, is
      treated as not supplied. */
  function BuildPatch(body: Body, parseDate: DateParser): (r: Result<Patch, string>)
    ensures r.Err? <==> BadDate(body, parseDate)
    ensures r.Err? ==> r.error == InvalidDate
    ensures r.Ok? ==> Keys(r.value) == TruthyFields(body)
    ensures r.Ok? && r.value.title.Some? ==> r.value.title.value == Field(body, "title")
    ensures r.Ok? && r.value.description.Some? ==>
      r.value.description.value == Field(body, "description")
    ensures r.Ok? && r.value.location.Some? ==> r.value.location.value == Field(body, "location")
    ensures r.Ok? && r.value.date.Some? ==> parseDate(Field(body, "date")) == r.value.date
  {
    var date := Field(body, "date");
    if Truthy(date) && parseDate(date).None? then
      Err(InvalidDate)
    else
      var p := Patch(KeepTruthy(Field(body, "title")), KeepTruthy(Field(body, "description")),
                     KeepTruthy(Field(body, "location")),
                     if Truthy(date) then parseDate(date) else None);
      assert Keys(p) == TruthyFields(body) by {
        assert forall k :: k in TruthyFields(body) <==>
          (k == "title" && Truthy(Field(body, "title")))
          || (k == "description" && Truthy(Field(body, "description")))
          || (k == "location" && Truthy(Field(body, "location")))
          || (k == "date" && Truthy(Field(body, "date")));
      }
      Ok(p)
  }

  /** `prisma.event.update` with the patch: patched fields take the new
      value, every other field keeps its old one. */
  function ApplyPatch(e: Event, p: Patch): (r: Event)
    ensures r.id == e.id && r.creatorId == e.creatorId
    ensures "title" !in Keys(p) ==> r.title == e.title
    ensures "description" !in Keys(p) ==> r.description == e.description
    ensures "location" !in Keys(p) ==> r.location == e.location
    ensures "date" !in Keys(p) ==> r.date == e.date
    ensures p.title.Some? ==> r.title == p.title.value
    ensures p.description.Some? ==> r.description == p.description.value
    ensures p.location.Some? ==> r.location == p.location.value
    ensures p.date.Some? ==> r.date == p.date.value
  {
    e.(title := p.title.GetOr(e.title),
       description := p.description.GetOr(e.description),
       location := p.location.GetOr(e.location),
       date := p.date.GetOr(e.date))
  }

  /** PUT /events/:id. Checks, in order: the event exists (404), the caller
      created it (403), the date parses (400), something is to be updated
      (400); then writes. `writeOk` is the store's answer to the write;
      a refusal lands in the handler's catch as a 500. */
  function UpdateEvent(store: Store, caller: UserId, id: EventId, body: Body,
                       parseDate: DateParser, writeOk: bool): (h: Handled)
    ensures id !in store ==> h == Handled(Error(404, NotFound), store)
    ensures id in store && store[id].creatorId != caller ==>
      h == Handled(Error(403, NotOwnerUpdate), store)
    ensures h.response == Error(400, InvalidDate) <==>
      id in store && store[id].creatorId == caller && BadDate(body, parseDate)
    ensures h.response == Error(400, NothingToUpdate) <==>
      id in store && store[id].creatorId == caller && TruthyFields(body) == {}
    ensures h.response == Error(500, UpdateFailed) <==>
      id in store && store[id].creatorId == caller && !BadDate(body, parseDate)
      && TruthyFields(body) != {} && !writeOk
    ensures !h.response.Json? ==> h.store == store
    ensures h.response.Json? <==>
      id in store && store[id].creatorId == caller && !BadDate(body, parseDate)
      && TruthyFields(body) != {} && writeOk
    ensures h.response.Json? ==>
      && id in store && store[id].creatorId == caller && writeOk
      && BuildPatch(body, parseDate).Ok?
      && Keys(BuildPatch(body, parseDate).value) != {}
      && h.response == Json(200, OneEvent(ApplyPatch(store[id], BuildPatch(body, parseDate).value)))
      && h.store == store[id := h.response.payload.event]
    ensures h.store.Keys == store.Keys
    ensures forall k :: k in store && k != id ==> h.store[k] == store[k]
    ensures Valid(store) ==> Valid(h.store)
  {
    match Lookup(store, id)
    case None => Handled(Error(404, NotFound), store)
    case Some(e) =>
      if e.creatorId != caller then
        Handled(Error(403, NotOwnerUpdate), store)
      else
        match BuildPatch(body, parseDate)
        case Err(msg) =>
          assert "date" in TruthyFields(body);
          Handled(Error(400, msg), store)
        case Ok(p) =>
          if Keys(p) == {} then
            Handled(Error(400, NothingToUpdate), store)
          else if !writeOk then
            Handled(Error(500, UpdateFailed), store)
          else
            var e' := ApplyPatch(e, p);
            Handled(Json(200, OneEvent(e')), store[id := e'])
  }

  // ---------------------------------------------------------------- delete

  /** Reading `creatorId` off the lookup result: on null the read throws,
      shown here as None. */
  function CreatorOf(found: Option<Event>): Option<UserId> {
    match found
    case None => None
    case Some(e) => Some(e.creatorId)
  }

  /** DELETE /events/:id. There is no explicit existence check: a missing
      event makes the ownership check throw, and the catch answers 404.
      `deleteOk` is the store's answer to the delete; a refusal lands in
      the same catch. */
  function DeleteEvent(store: Store, caller: UserId, id: EventId, deleteOk: bool): (h: Handled)
    ensures id !in store ==> h == Handled(Error(404, DeleteFailed), store)
    ensures id in store && store[id].creatorId != caller ==>
      h == Handled(Error(403, NotOwnerDelete), store)
    ensures id in store && store[id].creatorId == caller && !deleteOk ==>
      h == Handled(Error(404, DeleteFailed), store)
    ensures h.response == NoContent <==> id in store && store[id].creatorId == caller && deleteOk
    ensures h.response == NoContent ==> h.store == store - {id}
    ensures h.response != NoContent ==> h.store == store
    ensures Valid(store) ==> Valid(h.store)
  {
    match CreatorOf(Lookup(store, id))
    case None => Handled(Error(404, DeleteFailed), store)
    case Some(owner) =>
      if owner != caller then
        Handled(Error(403, NotOwnerDelete), store)
      else if !deleteOk then
        Handled(Error(404, DeleteFailed), store)
      else
        Handled(NoContent, store - {id})
  }
}
