/** Laws relating the event handlers to each other: what a successful
    create, update or delete looks like to a later read, which parts of the
    request a handler ignores, and who may change what. */
module EventLaws {
  import opened Wrappers
  import opened JsValues
  import opened Events

  /** A created event is stored under its new id, owned by the caller, and
      the next fetch of that id returns it. */
  lemma CreateThenGet(store: Store, caller: UserId, body: Body, parseDate: DateParser,
                      newId: Option<EventId>)
    requires CreateEvent(store, caller, body, parseDate, newId).response.Json?
    ensures var h := CreateEvent(store, caller, body, parseDate, newId);
      && newId.Some?
      && GetEventById(h.store, newId.value) == Json(200, h.response.payload)
      && h.response.payload.event.creatorId == caller
      && h.store.Keys == store.Keys + {newId.value}
  {
  }

  /** The creator is the caller whatever the body says: a `creatorId` key,
      or any other key besides the four event fields, changes nothing. */
  lemma CreateIgnoresOtherKeys(store: Store, caller: UserId, body: Body, key: string, v: JsVal,
                               parseDate: DateParser, newId: Option<EventId>)
    requires key !in UpdatableFields
    ensures CreateEvent(store, caller, body[key := v], parseDate, newId)
         == CreateEvent(store, caller, body, parseDate, newId)
  {
  }

  /** Likewise for an update: no extra key, `creatorId` or `id` included,
      reaches the store. */
  lemma UpdateIgnoresOtherKeys(store: Store, caller: UserId, id: EventId, body: Body, key: string,
                               v: JsVal, parseDate: DateParser, writeOk: bool)
    requires key !in UpdatableFields
    ensures UpdateEvent(store, caller, id, body[key := v], parseDate, writeOk)
         == UpdateEvent(store, caller, id, body, parseDate, writeOk)
  {
  }

  /** An update never moves an event to another id and never changes who
      created any event. */
  lemma UpdateKeepsOwnership(store: Store, caller: UserId, id: EventId, body: Body,
                             parseDate: DateParser, writeOk: bool)
    ensures var h := UpdateEvent(store, caller, id, body, parseDate, writeOk);
      forall k :: k in store ==>
        h.store[k].creatorId == store[k].creatorId && h.store[k].id == store[k].id
  {
  }

  /** After a successful update the fetch returns the patched event: the
      truthy fields carry the body's values (the date parsed), and every
      other field is as before. */
  lemma UpdateThenGet(store: Store, caller: UserId, id: EventId, body: Body,
                      parseDate: DateParser, writeOk: bool)
    requires UpdateEvent(store, caller, id, body, parseDate, writeOk).response.Json?
    ensures var h := UpdateEvent(store, caller, id, body, parseDate, writeOk);
      && id in store
      && GetEventById(h.store, id) == h.response
      && var e := h.response.payload.event;
      && (if Truthy(Field(body, "title")) then e.title == Field(body, "title")
          else e.title == store[id].title)
      && (if Truthy(Field(body, "description")) then e.description == Field(body, "description")
          else e.description == store[id].description)
      && (if Truthy(Field(body, "location")) then e.location == Field(body, "location")
          else e.location == store[id].location)
      && (if Truthy(Field(body, "date")) then parseDate(Field(body, "date")) == Some(e.date)
          else e.date == store[id].date)
  {
  }

  /** Repeating a successful update changes nothing further and answers
      with the same event. */
  lemma UpdateIdempotent(store: Store, caller: UserId, id: EventId, body: Body,
                         parseDate: DateParser, writeOk: bool)
    requires UpdateEvent(store, caller, id, body, parseDate, writeOk).response.Json?
    ensures var h := UpdateEvent(store, caller, id, body, parseDate, writeOk);
      UpdateEvent(h.store, caller, id, body, parseDate, writeOk) == h
  {
  }

  /** A body without a single truthy updatable field, the empty body or one
      whose fields are all empty strings, null or false included, is
      refused as nothing to update and changes nothing. */
  lemma FalsyBodyNothingToUpdate(store: Store, caller: UserId, id: EventId,
                                 parseDate: DateParser, writeOk: bool)
    requires id in store && store[id].creatorId == caller
    ensures UpdateEvent(store, caller, id, map[], parseDate, writeOk)
         == Handled(Error(400, NothingToUpdate), store)
    ensures var falsy := map["title" := Str(""), "description" := Null, "location" := Bool(false),
                             "date" := Num(0.0)];
      UpdateEvent(store, caller, id, falsy, parseDate, writeOk)
         == Handled(Error(400, NothingToUpdate), store)
  {
  }

  /** A deleted event is gone: fetching it is a 404, and deleting it again
      takes the null-dereference path to a 404. */
  lemma DeleteThenGet(store: Store, caller: UserId, id: EventId, deleteOk: bool, again: bool)
    requires DeleteEvent(store, caller, id, deleteOk).response == NoContent
    ensures var h := DeleteEvent(store, caller, id, deleteOk);
      && GetEventById(h.store, id) == Error(404, NotFound)
      && DeleteEvent(h.store, caller, id, again) == Handled(Error(404, DeleteFailed), h.store)
      && forall k :: k in store && k != id ==> k in h.store && h.store[k] == store[k]
  {
  }

  /** The guards of update and delete, side by side. Ownership comes before
      any look at the body: someone other than the creator is refused with
      403 by both, even with an invalid date or an empty body. On a missing
      id both answer 404, but update checks existence explicitly while
      delete reaches its catch, so the two answers differ. Neither guard
      touches the store. */
  lemma MutationGuards(store: Store, caller: UserId, id: EventId, body: Body,
                       parseDate: DateParser, writeOk: bool, deleteOk: bool)
    ensures id in store && store[id].creatorId != caller ==>
      && UpdateEvent(store, caller, id, body, parseDate, writeOk)
         == Handled(Error(403, NotOwnerUpdate), store)
      && DeleteEvent(store, caller, id, deleteOk) == Handled(Error(403, NotOwnerDelete), store)
    ensures id !in store ==>
      && UpdateEvent(store, caller, id, body, parseDate, writeOk).response.status == 404
      && DeleteEvent(store, caller, id, deleteOk).response.status == 404
      && UpdateEvent(store, caller, id, body, parseDate, writeOk).store == store
      && DeleteEvent(store, caller, id, deleteOk).store == store
      && UpdateEvent(store, caller, id, body, parseDate, writeOk).response
         != DeleteEvent(store, caller, id, deleteOk).response
  {
  }
}
