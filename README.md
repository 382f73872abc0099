# Gallery and photo routers: access control and stored records

This project models how the two resource routers of the photo-sharing
backend control access. It covers what the `/gallery/:_id?` and the
`/photo/:_id?` plus `/photos/me` endpoints let each caller do, and what
happens to the stored galleries and photos.

Each request is one sequential step. It takes the store and the request, and
it gives back a response and the new store. The parts of a request are:

- the caller. This is `Option<UserId>`. `None` means the bearer middleware
  rejected the request.
- the optional path id.
- the parsed body. For POST `/photo`, this is the result of the upload step
  instead.

The stores are sequences of records in insertion order. Each record holds an
id, the owning account's `userId`, and its domain fields.

Files:

- `http.dfy` (module `Http`) holds `Option`, identifiers, and the response
  shapes. It also holds the single denial response: 401 with
  "Authorization Failed" (route/route-gallery.js:9).
- `store.dfy` (module `Store`) holds the document store operations that both
  routers use:
  - `findById` as `Find`;
  - `find({userId})` as `OwnedBy`;
  - the `_id` projection as `Ids`;
  - `set(...).save()` on one document as `Replace`;
  - `remove()` as `Remove`.
- `gallery.dfy` (module `GalleryRoute`) models each verb as a step function
  (`PostStep`, `GetResponse`, `PutStep`, `DeleteStep`). The class
  `GalleryRouter` holds the gallery collection and has one state-changing
  method per mutating verb, and each method is proved against its step
  function. The module also has `Handle` and `Run`, which process a sequence
  of requests, and the lemma that only the owner can change a gallery.
- `photo.dfy` (module `PhotoRoute`) models the reads (`MineResponse`,
  `GetResponse`) as functions over the photo sequence and POST as `PostStep`.
  The class `PhotoRouter` has a `Post` method that appends to the collection.
  The module also has the lemma that the photo store only grows at its end.

Two behaviours of the code are worth stating up front:

- PUT passes the whole body to `gallery.set` (route/route-gallery.js:38), so a
  body with a `userId` changes the gallery's owner. `GalleryRoute.Merge`
  models this, and `GalleryRoute.PutTransfersOwnership` proves the
  consequence: the new user owns the gallery, and the former owner's DELETE
  is denied.
- DELETE of a missing gallery gets the same 401 as a non-owner
  (route/route-gallery.js:47). PUT of a missing gallery dereferences `null`
  inside the promise (route/route-gallery.js:35-37) and sends no response.
  The model returns `NoResponse` for that case.

## Model

| member | source | states |
|---|---|---|
| `Http.DeniedMentionsAuthorization` | route/route-gallery.js:9 | every denial is a 401 whose body contains the word "Authorization" |
| `Store.Ids` | route/route-gallery.js:28 | the id list has one entry per stored record, in store order, and entry k is the id of record k |
| `Store.Find` | route/route-gallery.js:35 | `findById` returns a stored record with the requested id, and it returns None exactly when no stored record has that id |
| `Store.FindAt` | route/route-gallery.js:45-47 | when ids are unique, looking up a stored record's id returns exactly that record |
| `Store.Replace` | route/route-gallery.js:38 | saving one changed document replaces every record with that id and leaves all other positions as they were |
| `Store.Remove` | route/route-gallery.js:49 | removal never lengthens the store and keeps no record with the removed id |
| `Store.RemoveKeeps` | route/route-gallery.js:49 | removal adds no record and keeps every record whose id differs from the removed one |
| `Store.RemoveKeepsUnique` | route/route-gallery.js:49 | removal keeps ids unique |
| `Store.RemoveAt` | route/route-gallery.js:49-50 | when ids are unique, removing record k's id takes out position k and keeps the rest in order |
| `Store.FindAfterRemove` | route/route-gallery.js:20-31 | after a removal, `findById` of the removed id finds nothing and of every other id returns what it returned before |
| `Store.FindAfterReplace` | route/route-gallery.js:35-38 | after saving a changed document, `findById` of its id returns the new version and of every other id returns what it returned before |
| `Store.OwnedBy` | route/route-photo.js:16 | `find({userId})` returns exactly the stored records whose owner is that user |
| `Store.OwnedByConcat` | route/route-photo.js:16-17 | the owner filter keeps store order, so filtering a concatenation gives the concatenation of the filtered parts |
| `GalleryRoute.Merge` | route/route-gallery.js:38 | `gallery.set(body)` overwrites each field the body carries (including `userId`), keeps the others, and never changes the id |
| `GalleryRoute.PostStep` | route/route-gallery.js:13-18 | an unauthenticated POST is denied and changes nothing; otherwise POST appends a new gallery, answers 201 with it, stamps its `userId` with the caller's id whatever the body said, and takes name and description from the body |
| `GalleryRoute.GetResponse` | route/route-gallery.js:20-31 | unauthenticated callers are denied; without an id the answer is 200 with all gallery ids in store order; with an id it is the gallery stored under that id, or null exactly when no gallery has it |
| `GalleryRoute.PutStep` | route/route-gallery.js:33-41 | an unauthenticated caller or a missing path id is denied before any lookup; the response is 204, the denial, or nothing (exactly when the gallery is missing); it is 204 exactly when the caller owns the gallery; every other outcome leaves the store unchanged |
| `GalleryRoute.DeleteStep` | route/route-gallery.js:43-52 | an unauthenticated caller or a missing path id is denied; a missing gallery gets the same denial, with the store unchanged, as a non-owner; the response is 204 exactly when the caller owns the gallery; a denial leaves the store unchanged |
| `GalleryRoute.PutByOwner` | route/route-gallery.js:37-39 | the owner's PUT answers 204 and replaces exactly that gallery, in place, by its merge with the body |
| `GalleryRoute.PutKeepsIds` | route/route-gallery.js:33-41 | no PUT, whoever sends it, adds, removes or reorders a gallery id |
| `GalleryRoute.PutTransfersOwnership` | route/route-gallery.js:37-38 | the owner's PUT with a body naming another `userId` makes that user the gallery's owner, and afterwards the former owner's DELETE is denied |
| `GalleryRoute.PutThenGet` | __test__/integration/route-gallery.test.js:107-125 | after the owner's PUT, a GET by that id from any authenticated caller returns the merged gallery, so it shows the new name |
| `GalleryRoute.DeleteByOwnerRemoves` | route/route-gallery.js:45-50 | the owner's DELETE answers 204 and its new store is the old one with that id removed |
| `GalleryRoute.DeleteByOwner` | route/route-gallery.js:47-50 | the owner's DELETE answers 204 and removes exactly that gallery, keeping the others in order |
| `GalleryRoute.DeleteThenGet` | __test__/integration/route-gallery.test.js:157-174 | after the owner's DELETE, a GET by that id returns null, and a GET by any other id returns what it returned before |
| `GalleryRoute.Handle` | route/route-gallery.js:12-52 | dispatching a request keeps ids unique and fresh; an unauthenticated request of any verb gets the denial and leaves the state unchanged; GET never changes the state |
| `GalleryRoute.Run` | route/route-gallery.js:11-53 | handling any sequence of requests keeps the store's ids unique and below the next id |
| `GalleryRoute.PutKeepsOthers` | route/route-gallery.js:35-39 | a PUT not authenticated as a gallery's owner leaves that gallery in the store, unchanged |
| `GalleryRoute.DeleteKeepsOthers` | route/route-gallery.js:45-50 | a DELETE not authenticated as a gallery's owner leaves that gallery in the store |
| `GalleryRoute.HandleKeepsOthers` | route/route-gallery.js:37-48 | a request not authenticated as a gallery's owner leaves that gallery in the store, unchanged |
| `GalleryRoute.OnlyOwnerMutates` | route/route-gallery.js:33-52 | over any sequence of requests, none authenticated as a gallery's owner, that gallery stays in the store exactly as it was |
| `GalleryRoute.GalleryRouter.Post` | route/route-gallery.js:13-18 | writes the caller's id into the body, appends the gallery, advances the id generator, keeps the store invariant, and matches `PostStep` |
| `GalleryRoute.GalleryRouter.Put` | route/route-gallery.js:33-41 | runs the gate and id checks, gives no response when the lookup finds nothing (the source dereferences null), then runs the owner check, then updates in place; it matches `PutStep` and keeps the store invariant |
| `GalleryRoute.GalleryRouter.Delete` | route/route-gallery.js:43-52 | runs the gate, id, existence and owner checks in source order, then removes; it matches `DeleteStep` and keeps the store invariant |
| `PhotoRoute.MineResponse` | route/route-photo.js:15-19 | an unauthenticated caller is denied; otherwise the answer is 200 with a list whose members are exactly the ids of the photos the caller owns |
| `PhotoRoute.MineAfterAppend` | route/route-photo.js:16-17 | the `/photos/me` list is in store order: storing a photo adds its id at the end of its owner's list and changes no other user's list |
| `PhotoRoute.GetResponse` | route/route-photo.js:28-37 | unauthenticated callers are denied; without an id the answer is 200 with all photo ids in store order; with an id, every authenticated caller (owner or not) gets the stored photo, or null exactly when it is absent |
| `PhotoRoute.PostStep` | route/route-photo.js:22-26 | an unauthenticated POST is denied and a rejection of `Photo.upload` gets no response, and both leave the store unchanged; otherwise exactly one photo built from the upload result is appended and returned with 201 |
| `PhotoRoute.Handle` | route/route-photo.js:14-38 | an unauthenticated request to any photo route gets the denial and changes nothing; only POST changes the state; ids stay unique |
| `PhotoRoute.Run` | route/route-photo.js:14-38 | handling any sequence of photo requests keeps the store's ids unique and below the next id |
| `PhotoRoute.StoreOnlyGrows` | route/route-photo.js:21-37 | no photo route updates or removes a photo: over any sequence of requests, the earlier store is a prefix of the later one |
| `PhotoRoute.PhotoRouter.Post` | route/route-photo.js:22-26 | appends the uploaded photo, advances the id generator only on 201, keeps the store invariant, and matches `PostStep` |

## Left out

- The bearer middleware (token parsing and verification, account lookup) and
  password hashing are not part of this model. Their outcome is the request's
  `caller`, and `None` stands for every way they can reject a request.
- The error handler's internals are not part of this model. Every failure,
  including one from the bearer middleware, becomes the same 401 with
  "Authorization Failed".
- `Photo.upload` and the content store behind `imageURI` are file and network
  I/O through code that is not part of this model. What `Photo.upload`
  resolves with is an opaque `Upload` record. `None` stands for a rejection of
  `Photo.upload` (route/route-photo.js:23). The promise chain at lines 23-25
  has no `catch`, so that request gets no response.
- The multer middleware `upload.single('image')` (route/route-photo.js:22)
  runs before the handler. When it fails, it passes the error to Express's
  error chain, and the handler never runs. That case is not modelled.
- The upload record includes the photo's `userId`. The route passes what
  `Photo.upload` resolves with, unchanged, to `new Photo(data)`
  (route/route-photo.js:23-24), so the owner comes from there. `Photo.upload`
  and the photo schema are not part of this model, so the photo fields are
  only the ones the routes and tests name.
- Mongoose persistence is modelled as a sequence in insertion order. Its
  ObjectId generation is modelled as a counter. Its schema validation is not
  modelled, so a `save()` that fails validation is not modelled. A `save()` or
  `remove()` failure would reject a promise that has no handler and would send
  no response. That case is not modelled.
- A path id that is not a well-formed ObjectId makes `findById` reject, and no
  response is sent. This is not modelled, because path ids are numbers here.
- A request body that sets a field to `null`, or that carries `_id`, is not
  modelled. Body fields are either present or absent.
- Express routing, body parsing, debug logging and the body text of a 204
  response are not modelled.
- Promise chaining, asynchronous completion, and concurrent requests are not
  modelled. Each request is one atomic step.
- The store invariant is modelled, but its cause is not. The PUT and DELETE
  step functions require that ids in the store are unique. Mongo's `_id`
  index guarantees this, and each router's `Valid()` preserves it.
