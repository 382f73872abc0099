/** The document store behind both routers, as a sequence of records in
    insertion order. `Find` is `findById`, `OwnedBy` is `find({userId})`,
    `Ids` is the `.map(doc => doc._id)` projection, `Replace` is a
    `set(...).save()` of one document and `Remove` is its `remove()`. */
module Store {
  import opened Http

  /** A stored document: its id, the account that owns it, and its
      domain fields. */
  datatype Record<D> = Record(id: Id, userId: UserId, fields: D)

  /** One handled request: the response sent and the store afterwards. */
  datatype Step<D> = Step(response: Response<Record<D>>, store: seq<Record<D>>)

  /** No two documents share an id. */
  ghost predicate UniqueIds<D>(s: seq<Record<D>>)
  {
    forall i, j :: 0 <= i < |s| && 0 <= j < |s| && s[i].id == s[j].id ==> i == j
  }

  /** The store invariant: ids are unique and all below the next id the
      store will hand out. */
  ghost predicate WellFormed<D>(s: seq<Record<D>>, nextId: Id)
  {
    UniqueIds(s) && forall k :: 0 <= k < |s| ==> s[k].id < nextId
  }

  /** Some document is stored under `id`. */
  ghost predicate Stored<D>(s: seq<Record<D>>, id: Id)
  {
    exists k :: 0 <= k < |s| && s[k].id == id
  }

  /** The document stored under `id` is owned by `user`. */
  ghost predicate Owns<D>(s: seq<Record<D>>, user: UserId, id: Id)
  {
    exists k :: 0 <= k < |s| && s[k].id == id && s[k].userId == user
  }

  /** The store invariant depends on the ids alone. */
  lemma WellFormedSameIds<D>(a: seq<Record<D>>, b: seq<Record<D>>, nextId: Id)
    requires WellFormed(a, nextId) && Ids(a) == Ids(b)
    ensures WellFormed(b, nextId)
  {
    assert forall k :: 0 <= k < |b| ==> b[k].id == Ids(b)[k] == a[k].id;
  }

  /** Uniqueness of ids depends on the id list alone. */
  lemma UniqueSameIds<D>(a: seq<Record<D>>, b: seq<Record<D>>)
    requires UniqueIds(a) && Ids(a) == Ids(b)
    ensures UniqueIds(b)
  {
    assert forall k :: 0 <= k < |b| ==> b[k].id == Ids(b)[k] == a[k].id;
  }

  /** The ids of the documents, one per document, in store order. */
  function Ids<D>(s: seq<Record<D>>): (r: seq<Id>)
    ensures |r| == |s|
    ensures forall k :: 0 <= k < |s| ==> r[k] == s[k].id
  {
    if s == [] then [] else [s[0].id] + Ids(s[1..])
  }

  /** `findById`: the document with the given id, or None. */
  function Find<D>(s: seq<Record<D>>, id: Id): (r: Option<Record<D>>)
    ensures r.Some? ==> r.value.id == id && exists k :: 0 <= k < |s| && s[k] == r.value
    ensures r.None? <==> !Stored(s, id)
  {
    if s == [] then None
    else if s[0].id == id then Some(s[0])
    else
      var r := Find(s[1..], id);
      assert r.Some? ==> exists k :: 0 <= k < |s| && s[k] == r.value by {
        if r.Some? {
          var k :| 0 <= k < |s[1..]| && s[1..][k] == r.value;
          assert s[k + 1] == r.value;
        }
      }
      assert Stored(s, id) ==> Stored(s[1..], id) by {
        if Stored(s, id) {
          var k :| 0 <= k < |s| && s[k].id == id;
          assert s[1..][k - 1].id == id;
        }
      }
      r
  }

  /** The tail of a store with unique ids has unique ids, none of which
      is the head's. */
  lemma UniqueTail<D>(s: seq<Record<D>>)
    requires UniqueIds(s) && s != []
    ensures UniqueIds(s[1..])
    ensures forall j :: 1 <= j < |s| ==> s[j].id != s[0].id
  {
    forall i, j | 0 <= i < |s| - 1 && 0 <= j < |s| - 1 && s[1..][i].id == s[1..][j].id
      ensures i == j
    {
      assert s[i + 1].id == s[j + 1].id;
    }
  }

  /** In a store with unique ids, `Find` returns exactly the document
      stored under that id. */
  lemma {:induction false} FindAt<D>(s: seq<Record<D>>, k: nat)
    requires UniqueIds(s) && k < |s|
    ensures Find(s, s[k].id) == Some(s[k])
  {
    if k > 0 {
      UniqueTail(s);
      assert s[1..][k - 1] == s[k];
      FindAt(s[1..], k - 1);
    }
  }

  /** The document with the given id replaced by `rec`; every other
      document stays as it was, in place. */
  function Replace<D>(s: seq<Record<D>>, id: Id, rec: Record<D>): (r: seq<Record<D>>)
    ensures |r| == |s|
    ensures forall k :: 0 <= k < |s| ==> r[k] == if s[k].id == id then rec else s[k]
  {
    if s == [] then []
    else [if s[0].id == id then rec else s[0]] + Replace(s[1..], id, rec)
  }

  /** Replacing one document by another with the same id keeps the id list. */
  lemma IdsReplaceAt<D>(s: seq<Record<D>>, k: nat, rec: Record<D>)
    requires k < |s| && rec.id == s[k].id
    ensures Ids(s[k := rec]) == Ids(s)
  {
    assert forall i :: 0 <= i < |s| ==> Ids(s[k := rec])[i] == Ids(s)[i];
  }

  /** After a replacement, `findById` of the replaced id returns the new
      document (if the id was stored), and of any other id what it returned
      before. */
  lemma {:induction false} FindAfterReplace<D>(s: seq<Record<D>>, id: Id, rec: Record<D>, other: Id)
    requires rec.id == id
    ensures Find(Replace(s, id, rec), other)
         == if other == id && Find(s, id).Some? then Some(rec) else Find(s, other)
  {
    if s != [] {
      var rest := Replace(s[1..], id, rec);
      assert Replace(s, id, rec)[1..] == rest;
      FindAfterReplace(s[1..], id, rec, other);
    }
  }

  /** With unique ids, replacing the document under `s[k].id` changes
      position `k` and nothing else. */
  lemma ReplaceAt<D>(s: seq<Record<D>>, k: nat, rec: Record<D>)
    requires UniqueIds(s) && k < |s|
    ensures Replace(s, s[k].id, rec) == s[k := rec]
  {
  }

  /** The store without the document(s) stored under `id`; the others keep
      their order. */
  function Remove<D>(s: seq<Record<D>>, id: Id): (r: seq<Record<D>>)
    ensures |r| <= |s|
    ensures forall k :: 0 <= k < |r| ==> r[k].id != id
  {
    if s == [] then []
    else if s[0].id == id then Remove(s[1..], id)
    else [s[0]] + Remove(s[1..], id)
  }

  /** With unique ids, removing the document under `s[k].id` takes out
      position `k` and nothing else. */
  lemma {:induction false} RemoveAt<D>(s: seq<Record<D>>, k: nat)
    requires UniqueIds(s) && k < |s|
    ensures Remove(s, s[k].id) == s[..k] + s[k + 1..]
  {
    if k == 0 {
      RemoveHead(s);
    } else {
      UniqueTail(s);
      var tail, id := s[1..], s[k].id;
      assert tail[k - 1] == s[k];
      RemoveAt(tail, k - 1);
      assert tail[..k - 1] == s[1..k] && tail[k..] == s[k + 1..];
      calc {
        Remove(s, id);
        [s[0]] + Remove(tail, id);
        [s[0]] + (s[1..k] + s[k + 1..]);
        ([s[0]] + s[1..k]) + s[k + 1..];
        { assert [s[0]] + s[1..k] == s[..k]; }
        s[..k] + s[k + 1..];
      }
    }
  }

  /** With unique ids, removing the first document's id takes out the
      first document and nothing else. */
  lemma RemoveHead<D>(s: seq<Record<D>>)
    requires UniqueIds(s) && s != []
    ensures Remove(s, s[0].id) == s[1..]
  {
    UniqueTail(s);
    RemoveNone(s[1..], s[0].id);
  }

  /** Removal adds nothing and keeps every document with a different id. */
  lemma {:induction false} RemoveKeeps<D>(s: seq<Record<D>>, id: Id)
    ensures forall k :: 0 <= k < |Remove(s, id)| ==> Remove(s, id)[k] in s
    ensures forall k :: 0 <= k < |s| && s[k].id != id ==> s[k] in Remove(s, id)
  {
    if s != [] {
      var rest := Remove(s[1..], id);
      RemoveKeeps(s[1..], id);
      assert forall k :: 1 <= k < |s| ==> s[k] == s[1..][k - 1];
      if s[0].id != id {
        assert Remove(s, id) == [s[0]] + rest;
      }
    }
  }

  /** After a removal, `findById` of the removed id finds nothing, and of
      any other id returns what it returned before. */
  lemma {:induction false} FindAfterRemove<D>(s: seq<Record<D>>, id: Id, other: Id)
    ensures Find(Remove(s, id), other) == if other == id then None else Find(s, other)
  {
    if s != [] {
      var rest := Remove(s[1..], id);
      FindAfterRemove(s[1..], id, other);
      if s[0].id != id {
        assert ([s[0]] + rest)[1..] == rest;
      }
    }
  }

  /** Removal keeps ids unique. */
  lemma {:induction false} RemoveKeepsUnique<D>(s: seq<Record<D>>, id: Id)
    requires UniqueIds(s)
    ensures UniqueIds(Remove(s, id))
  {
    if s != [] {
      UniqueTail(s);
      RemoveKeepsUnique(s[1..], id);
      RemoveKeeps(s[1..], id);
      var rest := Remove(s[1..], id);
      if s[0].id != id {
        forall k | 0 <= k < |rest|
          ensures rest[k].id != s[0].id
        {
          assert rest[k] in s[1..];
        }
        assert Remove(s, id) == [s[0]] + rest;
      }
    }
  }

  /** Removal keeps the store invariant. */
  lemma RemoveKeepsWellFormed<D>(s: seq<Record<D>>, id: Id, nextId: Id)
    requires WellFormed(s, nextId)
    ensures WellFormed(Remove(s, id), nextId)
  {
    RemoveKeepsUnique(s, id);
    RemoveKeeps(s, id);
  }

  /** Removing an id that is not stored leaves the store as it is. */
  lemma {:induction false} RemoveNone<D>(s: seq<Record<D>>, id: Id)
    requires forall j :: 0 <= j < |s| ==> s[j].id != id
    ensures Remove(s, id) == s
  {
    if s != [] {
      RemoveNone(s[1..], id);
    }
  }

  /** `find({userId})`: the documents owned by `user`, in store order. */
  function OwnedBy<D>(s: seq<Record<D>>, user: UserId): (r: seq<Record<D>>)
    ensures |r| <= |s|
    ensures forall k :: 0 <= k < |r| ==> r[k] in s && r[k].userId == user
    ensures forall k :: 0 <= k < |s| && s[k].userId == user ==> s[k] in r
  {
    if s == [] then []
    else if s[0].userId == user then [s[0]] + OwnedBy(s[1..], user)
    else OwnedBy(s[1..], user)
  }

  /** The owner filter keeps store order: filtering two stretches of the
      store and concatenating is filtering their concatenation. */
  lemma {:induction false} OwnedByConcat<D>(a: seq<Record<D>>, b: seq<Record<D>>, user: UserId)
    ensures OwnedBy(a + b, user) == OwnedBy(a, user) + OwnedBy(b, user)
  {
    if a != [] {
      assert (a + b)[0] == a[0];
      assert (a + b)[1..] == a[1..] + b;
      OwnedByConcat(a[1..], b, user);
      var head := if a[0].userId == user then [a[0]] else [];
      assert OwnedBy(a, user) == head + OwnedBy(a[1..], user);
      assert OwnedBy(a + b, user) == head + OwnedBy(a[1..] + b, user);
    } else {
      assert a + b == b;
    }
  }

  /** Projecting ids distributes over concatenation. */
  lemma IdsConcat<D>(a: seq<Record<D>>, b: seq<Record<D>>)
    ensures Ids(a + b) == Ids(a) + Ids(b)
  {
  }
}
