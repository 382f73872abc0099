/** The `/gallery/:_id?` router (route/route-gallery.js). Every verb first
    passes the bearer gate: a request without an authenticated caller is
    denied before its handler runs. PUT and DELETE then check, in order,
    that a path id is present, that the gallery exists (DELETE only; PUT on
    a missing gallery sends no response) and that the caller owns it. */
module GalleryRoute {
  import opened Http
  import opened Store

  /** The domain fields of a gallery. */
  datatype GalleryFields = GalleryFields(name: Option<string>, description: Option<string>)

  type Gallery = Record<GalleryFields>

  /** A parsed JSON request body; a field the client did not send is None. */
  datatype GalleryBody = GalleryBody(name: Option<string>, description: Option<string>, userId: Option<UserId>)

  /** `gallery.set(req.body)`: each field present in the body overwrites the
      stored one, `userId` included; the id never changes. */
  function Merge(g: Gallery, body: GalleryBody): (r: Gallery)
    ensures r.id == g.id
    ensures r.fields.name == (if body.name.Some? then body.name else g.fields.name)
    ensures r.fields.description == (if body.description.Some? then body.description else g.fields.description)
    ensures r.userId == (if body.userId.Some? then body.userId.value else g.userId)
  {
    var name := if body.name.Some? then body.name else g.fields.name;
    var description := if body.description.Some? then body.description else g.fields.description;
    var owner := if body.userId.Some? then body.userId.value else g.userId;
    Record(g.id, owner, GalleryFields(name, description))
  }

  /** POST: the body's `userId` is overwritten with the caller's id and a
      new gallery is stored under `newId`. */
  function PostStep(store: seq<Gallery>, newId: Id, caller: Option<UserId>, body: GalleryBody): (s: Step<GalleryFields>)
    ensures caller.None? ==> s == Step(Denied(), store)
    ensures caller.Some? ==>
      && s.response.Response? && s.response.status == 201 && s.response.body.Json?
      && s.store == store + [s.response.body.record]
    ensures caller.Some? ==>
      var g := s.response.body.record;
      && g.id == newId
      && g.userId == caller.value
      && g.fields == GalleryFields(body.name, body.description)
  {
    if caller.None? then Step(Denied(), store)
    else
      var g := Record(newId, caller.value, GalleryFields(body.name, body.description));
      Step(Response(201, Json(g)), store + [g])
  }

  /** GET: with a path id, the gallery stored under it or null; without,
      the ids of all galleries. */
  function GetResponse(store: seq<Gallery>, caller: Option<UserId>, pathId: Option<Id>): (r: Response<Gallery>)
    ensures caller.None? ==> r == Denied()
    ensures caller.Some? ==> r.Response? && r.status == 200
    ensures caller.Some? && pathId.None? ==>
      && r.body.JsonIds?
      && |r.body.ids| == |store|
      && forall k :: 0 <= k < |store| ==> r.body.ids[k] == store[k].id
    ensures caller.Some? && pathId.Some? ==>
      && (r.body.JsonNull? <==> !Stored(store, pathId.value))
      && (!r.body.JsonNull? ==> r.body.Json? && r.body.record.id == pathId.value && r.body.record in store)
  {
    if caller.None? then Denied()
    else if pathId.Some? then
      match Find(store, pathId.value)
      case Some(g) => Response(200, Json(g))
      case None => Response(200, JsonNull)
    else Response(200, JsonIds(Ids(store)))
  }

  /** PUT: a missing path id or a caller who does not own the gallery is
      denied; a missing gallery gets no response; the owner's body is
      merged into the gallery. */
  function PutStep(store: seq<Gallery>, caller: Option<UserId>, pathId: Option<Id>, body: GalleryBody): (s: Step<GalleryFields>)
    requires UniqueIds(store)
    ensures caller.None? || pathId.None? ==> s == Step(Denied(), store)
    ensures s.response == NoContent() || s.response == Denied() || s.response == NoResponse
    ensures s.response != NoContent() ==> s.store == store
    ensures s.response == NoResponse <==> caller.Some? && pathId.Some? && !Stored(store, pathId.value)
    ensures s.response == NoContent() <==> caller.Some? && pathId.Some? && Owns(store, caller.value, pathId.value)
  {
    if caller.None? || pathId.None? then Step(Denied(), store)
    else
      match Find(store, pathId.value)
      case None => Step(NoResponse, store)
      case Some(g) =>
        if caller.value != g.userId then Step(Denied(), store)
        else Step(NoContent(), Replace(store, g.id, Merge(g, body)))
  }

  /** DELETE: a missing path id, a missing gallery and a caller who does not
      own the gallery all get the same denial; the owner's gallery is
      removed. */
  function DeleteStep(store: seq<Gallery>, caller: Option<UserId>, pathId: Option<Id>): (s: Step<GalleryFields>)
    requires UniqueIds(store)
    ensures caller.None? || pathId.None? ==> s == Step(Denied(), store)
    ensures s.response == NoContent() || s.response == Denied()
    ensures s.response == Denied() ==> s.store == store
    ensures caller.Some? && pathId.Some? && !Stored(store, pathId.value) ==> s == Step(Denied(), store)
    ensures s.response == NoContent() <==> caller.Some? && pathId.Some? && Owns(store, caller.value, pathId.value)
  {
    if caller.None? || pathId.None? then Step(Denied(), store)
    else
      match Find(store, pathId.value)
      case None => Step(Denied(), store)
      case Some(g) =>
        if caller.value != g.userId then Step(Denied(), store)
        else Step(NoContent(), Remove(store, g.id))
  }

  /** The owner's PUT replaces exactly that gallery, in place, by the
      merge of the gallery and the body. */
  lemma PutByOwner(store: seq<Gallery>, k: nat, body: GalleryBody)
    requires UniqueIds(store) && k < |store|
    ensures PutStep(store, Some(store[k].userId), Some(store[k].id), body)
         == Step(NoContent(), store[k := Merge(store[k], body)])
  {
    FindAt(store, k);
    ReplaceAt(store, k, Merge(store[k], body));
  }

  /** PUT never changes which ids are stored, nor their order. */
  lemma PutKeepsIds(store: seq<Gallery>, caller: Option<UserId>, pathId: Option<Id>, body: GalleryBody)
    requires UniqueIds(store)
    ensures Ids(PutStep(store, caller, pathId, body).store) == Ids(store)
  {
    var s := PutStep(store, caller, pathId, body);
    if s.response == NoContent() {
      var k :| 0 <= k < |store| && store[k].id == pathId.value && store[k].userId == caller.value;
      PutByOwner(store, k, body);
      IdsReplaceAt(store, k, Merge(store[k], body));
    }
  }

  /** A PUT body carrying another `userId` hands the gallery to that user:
      afterwards the new user owns it and the former owner's DELETE is
      denied. */
  lemma PutTransfersOwnership(store: seq<Gallery>, k: nat, body: GalleryBody, u: UserId)
    requires UniqueIds(store) && k < |store|
    requires body.userId == Some(u) && u != store[k].userId
    ensures var after := PutStep(store, Some(store[k].userId), Some(store[k].id), body).store;
      && UniqueIds(after)
      && Owns(after, u, store[k].id)
      && DeleteStep(after, Some(store[k].userId), Some(store[k].id)).response == Denied()
  {
    var g := Merge(store[k], body);
    PutByOwner(store, k, body);
    IdsReplaceAt(store, k, g);
    UniqueSameIds(store, store[k := g]);
    FindAt(store[k := g], k);
  }

  /** After the owner's PUT, a GET by id (by any authenticated caller)
      returns the merged gallery, so it shows the new name. */
  lemma PutThenGet(store: seq<Gallery>, k: nat, body: GalleryBody, reader: UserId)
    requires UniqueIds(store) && k < |store|
    ensures var after := PutStep(store, Some(store[k].userId), Some(store[k].id), body).store;
      && GetResponse(after, Some(reader), Some(store[k].id)) == Response(200, Json(Merge(store[k], body)))
      && (body.name.Some? ==> GetResponse(after, Some(reader), Some(store[k].id)).body.record.fields.name == body.name)
  {
    FindAt(store, k);
    FindAfterReplace(store, store[k].id, Merge(store[k], body), store[k].id);
  }

  /** The owner's DELETE answers 204 and removes what is stored under
      that id. */
  lemma DeleteByOwnerRemoves(store: seq<Gallery>, k: nat)
    requires UniqueIds(store) && k < |store|
    ensures DeleteStep(store, Some(store[k].userId), Some(store[k].id))
         == Step(NoContent(), Remove(store, store[k].id))
  {
    FindAt(store, k);
  }

  /** The owner's DELETE removes exactly that gallery and keeps the others
      in order. */
  lemma DeleteByOwner(store: seq<Gallery>, k: nat)
    requires UniqueIds(store) && k < |store|
    ensures DeleteStep(store, Some(store[k].userId), Some(store[k].id))
         == Step(NoContent(), store[..k] + store[k + 1..])
  {
    DeleteByOwnerRemoves(store, k);
    RemoveAt(store, k);
  }

  /** After the owner's DELETE, a GET by that id returns null and a GET by
      any other id returns what it returned before. */
  lemma DeleteThenGet(store: seq<Gallery>, k: nat, reader: UserId, other: Id)
    requires UniqueIds(store) && k < |store| && other != store[k].id
    ensures var after := DeleteStep(store, Some(store[k].userId), Some(store[k].id)).store;
      && GetResponse(after, Some(reader), Some(store[k].id)) == Response(200, JsonNull)
      && GetResponse(after, Some(reader), Some(other)) == GetResponse(store, Some(reader), Some(other))
  {
    DeleteByOwnerRemoves(store, k);
    FindAfterRemove(store, store[k].id, store[k].id);
    FindAfterRemove(store, store[k].id, other);
  }

  /** One request to the router, as the bearer middleware and the path
      parser hand it over. */
  datatype Request =
    | PostGallery(caller: Option<UserId>, body: GalleryBody)
    | GetGallery(caller: Option<UserId>, pathId: Option<Id>)
    | PutGallery(caller: Option<UserId>, pathId: Option<Id>, body: GalleryBody)
    | DeleteGallery(caller: Option<UserId>, pathId: Option<Id>)

  /** The gallery collection and the id the next created gallery gets. */
  datatype State = State(galleries: seq<Gallery>, nextId: Id)

  /** Dispatches a request to its verb's handler. */
  function Handle(st: State, req: Request): (out: (Response<Gallery>, State))
    requires WellFormed(st.galleries, st.nextId)
    ensures WellFormed(out.1.galleries, out.1.nextId)
    ensures out.1.nextId >= st.nextId
    ensures req.caller.None? ==> out == (Denied(), st)
    ensures req.GetGallery? ==> out.1 == st
  {
    match req
    case PostGallery(caller, body) =>
      var s := PostStep(st.galleries, st.nextId, caller, body);
      (s.response, State(s.store, if caller.Some? then st.nextId + 1 else st.nextId))
    case GetGallery(caller, pathId) =>
      (GetResponse(st.galleries, caller, pathId), st)
    case PutGallery(caller, pathId, body) =>
      var s := PutStep(st.galleries, caller, pathId, body);
      PutKeepsIds(st.galleries, caller, pathId, body);
      WellFormedSameIds(st.galleries, s.store, st.nextId);
      (s.response, State(s.store, st.nextId))
    case DeleteGallery(caller, pathId) =>
      var s := DeleteStep(st.galleries, caller, pathId);
      if pathId.Some? then
        RemoveKeepsWellFormed(st.galleries, pathId.value, st.nextId);
        (s.response, State(s.store, st.nextId))
      else
        (s.response, State(s.store, st.nextId))
  }

  /** The state after handling a sequence of requests one after another. */
  function Run(st: State, reqs: seq<Request>): (r: State)
    requires WellFormed(st.galleries, st.nextId)
    ensures WellFormed(r.galleries, r.nextId)
    decreases |reqs|
  {
    if reqs == [] then st else Run(Handle(st, reqs[0]).1, reqs[1..])
  }

  /** A PUT not authenticated as a gallery's owner leaves that gallery in
      the store, unchanged. */
  lemma PutKeepsOthers(store: seq<Gallery>, caller: Option<UserId>, pathId: Option<Id>, body: GalleryBody, j: nat)
    requires UniqueIds(store) && j < |store|
    requires caller != Some(store[j].userId)
    ensures store[j] in PutStep(store, caller, pathId, body).store
  {
    if PutStep(store, caller, pathId, body).response == NoContent() {
      var k :| 0 <= k < |store| && store[k].id == pathId.value && store[k].userId == caller.value;
      PutByOwner(store, k, body);
      assert store[k := Merge(store[k], body)][j] == store[j];
    }
  }

  /** A DELETE not authenticated as a gallery's owner leaves that gallery in
      the store. */
  lemma DeleteKeepsOthers(store: seq<Gallery>, caller: Option<UserId>, pathId: Option<Id>, j: nat)
    requires UniqueIds(store) && j < |store|
    requires caller != Some(store[j].userId)
    ensures store[j] in DeleteStep(store, caller, pathId).store
  {
    if DeleteStep(store, caller, pathId).response == NoContent() {
      var k :| 0 <= k < |store| && store[k].id == pathId.value && store[k].userId == caller.value;
      DeleteByOwnerRemoves(store, k);
      RemoveKeeps(store, store[k].id);
      assert store[j].id != store[k].id;
    }
  }

  /** A request not authenticated as a gallery's owner leaves that gallery
      in the store, unchanged. */
  lemma HandleKeepsOthers(st: State, req: Request, g: Gallery)
    requires WellFormed(st.galleries, st.nextId) && g in st.galleries
    requires req.caller != Some(g.userId)
    ensures g in Handle(st, req).1.galleries
  {
    var j :| 0 <= j < |st.galleries| && st.galleries[j] == g;
    match req
    case PostGallery(caller, body) =>
    case GetGallery(caller, pathId) =>
    case PutGallery(caller, pathId, body) =>
      PutKeepsOthers(st.galleries, caller, pathId, body, j);
    case DeleteGallery(caller, pathId) =>
      DeleteKeepsOthers(st.galleries, caller, pathId, j);
  }

  /** Only the owner can change or remove a gallery: over any sequence of
      requests none of which is authenticated as its owner, the gallery
      stays in the store exactly as it was. */
  lemma {:induction false} OnlyOwnerMutates(st: State, reqs: seq<Request>, g: Gallery)
    requires WellFormed(st.galleries, st.nextId) && g in st.galleries
    requires forall k :: 0 <= k < |reqs| ==> reqs[k].caller != Some(g.userId)
    ensures g in Run(st, reqs).galleries
    decreases |reqs|
  {
    if reqs != [] {
      HandleKeepsOthers(st, reqs[0], g);
      OnlyOwnerMutates(Handle(st, reqs[0]).1, reqs[1..], g);
    }
  }

  /** The router's state: the gallery collection, in insertion order, and
      the id generator of the store. */
  class GalleryRouter {
    var galleries: seq<Gallery>
    var nextId: Id

    ghost predicate Valid()
      reads this
    {
      WellFormed(galleries, nextId)
    }

    constructor ()
      ensures Valid() && galleries == []
    {
      galleries := [];
      nextId := 0;
    }

    /** POST /gallery */
    method Post(caller: Option<UserId>, body: GalleryBody) returns (resp: Response<Gallery>)
      requires Valid()
      modifies this
      ensures Valid()
      ensures Step(resp, galleries) == PostStep(old(galleries), old(nextId), caller, body)
      ensures nextId == if caller.Some? then old(nextId) + 1 else old(nextId)
    {
      if caller.None? {
        return Denied();
      }
      var stamped := body.(userId := caller);
      var g := Record(nextId, stamped.userId.value, GalleryFields(stamped.name, stamped.description));
      galleries := galleries + [g];
      nextId := nextId + 1;
      resp := Response(201, Json(g));
    }

    /** PUT /gallery/:_id */
    method Put(caller: Option<UserId>, pathId: Option<Id>, body: GalleryBody) returns (resp: Response<Gallery>)
      requires Valid()
      modifies this
      ensures Valid() && nextId == old(nextId)
      ensures Step(resp, galleries) == PutStep(old(galleries), caller, pathId, body)
    {
      if caller.None? || pathId.None? {
        return Denied();
      }
      var found := Find(galleries, pathId.value);
      if found.None? {
        return NoResponse;
      }
      var g := found.value;
      if caller.value != g.userId {
        return Denied();
      }
      ghost var before := galleries;
      galleries := Replace(galleries, g.id, Merge(g, body));
      resp := NoContent();
      PutKeepsIds(before, caller, pathId, body);
      WellFormedSameIds(before, galleries, nextId);
    }

    /** DELETE /gallery/:_id */
    method Delete(caller: Option<UserId>, pathId: Option<Id>) returns (resp: Response<Gallery>)
      requires Valid()
      modifies this
      ensures Valid() && nextId == old(nextId)
      ensures Step(resp, galleries) == DeleteStep(old(galleries), caller, pathId)
    {
      if caller.None? || pathId.None? {
        return Denied();
      }
      var found := Find(galleries, pathId.value);
      if found.None? {
        return Denied();
      }
      var g := found.value;
      if caller.value != g.userId {
        return Denied();
      }
      RemoveKeepsWellFormed(galleries, g.id, nextId);
      galleries := Remove(galleries, g.id);
      resp := NoContent();
    }
  }
}
