/** The photo routes (route/route-photo.js): `/photos/me` lists the ids of
    the caller's photos, GET `/photo/:_id?` lists all ids or fetches one
    photo with no ownership check, and POST `/photo` stores the photo that
    the upload step produced. Every route sits behind the bearer gate. */
module PhotoRoute {
  import opened Http
  import opened Store

  /** The domain fields of a photo. */
  datatype PhotoFields = PhotoFields(name: string, desc: string, imageURI: string, galleryId: Id)

  type Photo = Record<PhotoFields>

  /** What `Photo.upload(req)` resolves with: the data `new Photo(data)` is
      built from, owner included. */
  datatype Upload = Upload(userId: UserId, fields: PhotoFields)

  /** GET /photos/me: the ids of the photos whose `userId` is the caller's. */
  function MineResponse(photos: seq<Photo>, caller: Option<UserId>): (r: Response<Photo>)
    ensures caller.None? ==> r == Denied()
    ensures caller.Some? ==> r.Response? && r.status == 200 && r.body.JsonIds?
    ensures caller.Some? ==> forall id ::
      id in r.body.ids <==> exists j :: 0 <= j < |photos| && photos[j].id == id && photos[j].userId == caller.value
  {
    if caller.None? then Denied()
    else
      var mine := OwnedBy(photos, caller.value);
      assert forall id :: id in Ids(mine) ==> exists j :: 0 <= j < |photos| && photos[j].id == id && photos[j].userId == caller.value by {
        forall id | id in Ids(mine)
          ensures exists j :: 0 <= j < |photos| && photos[j].id == id && photos[j].userId == caller.value
        {
          var k :| 0 <= k < |mine| && Ids(mine)[k] == id;
          assert mine[k] in photos;
        }
      }
      assert forall j :: 0 <= j < |photos| && photos[j].userId == caller.value ==> photos[j].id in Ids(mine) by {
        forall j | 0 <= j < |photos| && photos[j].userId == caller.value
          ensures photos[j].id in Ids(mine)
        {
          assert photos[j] in mine;
          var k :| 0 <= k < |mine| && mine[k] == photos[j];
          assert Ids(mine)[k] == photos[j].id;
        }
      }
      Response(200, JsonIds(Ids(mine)))
  }

  /** The `/photos/me` list follows store order: storing one more photo adds
      its id at the end of its owner's list and nowhere else. */
  lemma MineAfterAppend(photos: seq<Photo>, p: Photo, user: UserId)
    ensures MineResponse(photos + [p], Some(user)).body.ids
         == MineResponse(photos, Some(user)).body.ids + (if p.userId == user then [p.id] else [])
  {
    OwnedByConcat(photos, [p], user);
    assert OwnedBy([p], user) == if p.userId == user then [p] else [];
    IdsConcat(OwnedBy(photos, user), OwnedBy([p], user));
  }

  /** GET /photo/:_id?: with a path id, the stored photo or null to every
      authenticated caller, owner or not; without, the ids of all photos. */
  function GetResponse(photos: seq<Photo>, caller: Option<UserId>, pathId: Option<Id>): (r: Response<Photo>)
    ensures caller.None? ==> r == Denied()
    ensures caller.Some? ==> r.Response? && r.status == 200
    ensures caller.Some? && pathId.None? ==>
      && r.body.JsonIds?
      && |r.body.ids| == |photos|
      && forall k :: 0 <= k < |photos| ==> r.body.ids[k] == photos[k].id
    ensures caller.Some? && pathId.Some? ==>
      && (r.body.Json? <==> Stored(photos, pathId.value))
      && (r.body.Json? ==> r.body.record.id == pathId.value && r.body.record in photos)
      && (!r.body.Json? ==> r.body.JsonNull?)
  {
    if caller.None? then Denied()
    else if pathId.Some? then
      match Find(photos, pathId.value)
      case Some(p) => Response(200, Json(p))
      case None => Response(200, JsonNull)
    else Response(200, JsonIds(Ids(photos)))
  }

  /** POST /photo: the uploaded photo is stored under `newId` and returned;
      an upload that fails leaves the request without a response. */
  function PostStep(photos: seq<Photo>, newId: Id, caller: Option<UserId>, upload: Option<Upload>): (s: Step<PhotoFields>)
    ensures caller.None? ==> s == Step(Denied(), photos)
    ensures caller.Some? && upload.None? ==> s == Step(NoResponse, photos)
    ensures caller.Some? && upload.Some? ==>
      && s.response.Response? && s.response.status == 201 && s.response.body.Json?
      && s.store == photos + [s.response.body.record]
      && s.response.body.record.id == newId
      && s.response.body.record.userId == upload.value.userId
      && s.response.body.record.fields == upload.value.fields
  {
    if caller.None? then Step(Denied(), photos)
    else if upload.None? then Step(NoResponse, photos)
    else
      var p := Record(newId, upload.value.userId, upload.value.fields);
      Step(Response(201, Json(p)), photos + [p])
  }

  /** One request to the photo routes. `upload` is the outcome of
      `Photo.upload`, None when it fails. */
  datatype Request =
    | ListMine(caller: Option<UserId>)
    | GetPhoto(caller: Option<UserId>, pathId: Option<Id>)
    | PostPhoto(caller: Option<UserId>, upload: Option<Upload>)

  /** The photo collection and the id the next stored photo gets. */
  datatype State = State(photos: seq<Photo>, nextId: Id)

  /** Dispatches a request to its route's handler. */
  function Handle(st: State, req: Request): (out: (Response<Photo>, State))
    ensures WellFormed(st.photos, st.nextId) ==> WellFormed(out.1.photos, out.1.nextId)
    ensures out.1.nextId >= st.nextId
    ensures req.caller.None? ==> out == (Denied(), st)
    ensures !req.PostPhoto? ==> out.1 == st
  {
    match req
    case ListMine(caller) => (MineResponse(st.photos, caller), st)
    case GetPhoto(caller, pathId) => (GetResponse(st.photos, caller, pathId), st)
    case PostPhoto(caller, upload) =>
      var s := PostStep(st.photos, st.nextId, caller, upload);
      (s.response, State(s.store, if caller.Some? && upload.Some? then st.nextId + 1 else st.nextId))
  }

  /** The state after handling a sequence of requests one after another. */
  function Run(st: State, reqs: seq<Request>): (r: State)
    ensures WellFormed(st.photos, st.nextId) ==> WellFormed(r.photos, r.nextId)
    decreases |reqs|
  {
    if reqs == [] then st else Run(Handle(st, reqs[0]).1, reqs[1..])
  }

  /** No photo route updates or removes a photo: over any sequence of
      requests the store only grows at its end, and the photos stored
      before are still there, in place. */
  lemma {:induction false} StoreOnlyGrows(st: State, reqs: seq<Request>)
    ensures st.photos <= Run(st, reqs).photos
    decreases |reqs|
  {
    if reqs != [] {
      var next := Handle(st, reqs[0]).1;
      assert st.photos <= next.photos;
      StoreOnlyGrows(next, reqs[1..]);
    }
  }

  /** The router's state: the photo collection, in insertion order, and
      the id generator of the store. */
  class PhotoRouter {
    var photos: seq<Photo>
    var nextId: Id

    ghost predicate Valid()
      reads this
    {
      WellFormed(photos, nextId)
    }

    constructor ()
      ensures Valid() && photos == []
    {
      photos := [];
      nextId := 0;
    }

    /** POST /photo */
    method Post(caller: Option<UserId>, upload: Option<Upload>) returns (resp: Response<Photo>)
      requires Valid()
      modifies this
      ensures Valid()
      ensures Step(resp, photos) == PostStep(old(photos), old(nextId), caller, upload)
      ensures nextId == if resp.Response? && resp.status == 201 then old(nextId) + 1 else old(nextId)
    {
      if caller.None? {
        return Denied();
      }
      if upload.None? {
        return NoResponse;
      }
      var p := Record(nextId, upload.value.userId, upload.value.fields);
      photos := photos + [p];
      nextId := nextId + 1;
      resp := Response(201, Json(p));
    }
  }
}
