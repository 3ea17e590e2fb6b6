/** The reference in-memory store: a map from bucket id to snapshot with a
    lookup, an insert-if-absent and a replace-if-revision-matches. */
module Memory {
  import opened Types

  /** The outcome of a conditional write: the map afterwards and the error
      the store returns (None for success). */
  datatype Write = Write(store: map<string, BucketCtx>, err: Option<StoreError>)

  /** Every snapshot is filed under its own id. */
  ghost predicate Keyed(m: map<string, BucketCtx>) {
    forall id :: id in m ==> m[id].id == id
  }

  /** What Get answers for `id`. */
  function Lookup(m: map<string, BucketCtx>, id: string): Result<BucketCtx, StoreError> {
    if id in m then Success(m[id]) else Failure(NotFound)
  }

  /** Create: insert `b` under its id only when that id is absent. */
  function Created(m: map<string, BucketCtx>, b: BucketCtx): (w: Write)
    ensures w.err.None? <==> b.id !in m
    ensures w.err.Some? ==> w.err.value == AlreadyExist && w.store == m
    ensures w.store.Keys == m.Keys + {b.id}
    ensures b.id in w.store && w.store[b.id] == (if b.id in m then m[b.id] else b)
    ensures forall id :: id in m ==> id in w.store && w.store[id] == m[id]
    ensures Keyed(m) ==> Keyed(w.store)
  {
    if b.id in m then Write(m, Some(AlreadyExist)) else Write(m[b.id := b], None)
  }

  /** Update: replace the entry for `b.id` only when it exists and carries
      the same revision as `b`. */
  function Updated(m: map<string, BucketCtx>, b: BucketCtx): (w: Write)
    ensures w.err.None? <==> b.id in m && m[b.id].revision == b.revision
    ensures b.id !in m ==> w.err == Some(NotFound)
    ensures b.id in m && m[b.id].revision != b.revision ==> w.err == Some(RevisionMismatch)
    ensures w.store.Keys == m.Keys
    ensures w.err.Some? ==> w.store == m
    ensures w.err.None? ==> w.store[b.id] == b
    ensures forall id :: id in m ==> w.store[id].revision == m[id].revision
    ensures forall id :: id in m && id != b.id ==> w.store[id] == m[id]
    ensures Keyed(m) ==> Keyed(w.store)
  {
    if b.id !in m then Write(m, Some(NotFound))
    else if m[b.id].revision != b.revision then Write(m, Some(RevisionMismatch))
    else Write(m[b.id := b], None)
  }

  /** The map after a sequence of Updates, each applied whether or not the
      previous ones succeeded. */
  function UpdatedAll(m: map<string, BucketCtx>, bs: seq<BucketCtx>): map<string, BucketCtx>
    decreases |bs|
  {
    if bs == [] then m else UpdatedAll(Updated(m, bs[0]).store, bs[1..])
  }

  /** However many Updates run, the key set and every stored revision stay
      what Create put there: the revision is a fixed creation-time token. */
  lemma {:induction false} UpdatesKeepKeysAndRevisions(m: map<string, BucketCtx>, bs: seq<BucketCtx>)
    ensures UpdatedAll(m, bs).Keys == m.Keys
    ensures forall id :: id in m ==> UpdatedAll(m, bs)[id].revision == m[id].revision
    decreases |bs|
  {
    if bs != [] {
      UpdatesKeepKeysAndRevisions(Updated(m, bs[0]).store, bs[1..]);
    }
  }

  /** Create followed by Get of the same id returns what was created, and no
      other id changes. */
  lemma CreateThenGet(m: map<string, BucketCtx>, b: BucketCtx)
    requires b.id !in m
    ensures Created(m, b).err == None
    ensures Lookup(Created(m, b).store, b.id) == Success(b)
    ensures forall id :: id != b.id ==> Lookup(Created(m, b).store, id) == Lookup(m, id)
  {
  }

  /** Two Updates carrying the stored revision both succeed and the second
      one's snapshot is what remains (last writer wins). */
  lemma LastWriterWins(m: map<string, BucketCtx>, b1: BucketCtx, b2: BucketCtx)
    requires b1.id == b2.id && b1.id in m
    requires b1.revision == m[b1.id].revision && b2.revision == b1.revision
    ensures Updated(m, b1).err == None
    ensures Updated(Updated(m, b1).store, b2).err == None
    ensures Updated(Updated(m, b1).store, b2).store == m[b2.id := b2]
  {
  }

  class MemoryStore {
    var store: map<string, BucketCtx>

    ghost predicate Valid()
      reads this
    {
      Keyed(store)
    }

    /** NewMemoryStore: an empty map. */
    constructor ()
      ensures store == map[] && Valid()
    {
      store := map[];
    }

    method Get(id: string) returns (b: BucketCtx, err: Option<StoreError>)
      ensures id in store ==> b == store[id] && err == None
      ensures id !in store ==> b == ZeroCtx && err == Some(NotFound)
      ensures Lookup(store, id) == if err.None? then Success(b) else Failure(err.value)
      ensures Valid() && err.None? ==> b.id == id
    {
      if id !in store {
        return ZeroCtx, Some(NotFound);
      }
      b, err := store[id], None;
    }

    method Create(bucket: BucketCtx) returns (err: Option<StoreError>)
      modifies this
      ensures store == Created(old(store), bucket).store
      ensures err == Created(old(store), bucket).err
      ensures old(Valid()) ==> Valid()
    {
      if bucket.id in store {
        return Some(AlreadyExist);
      }
      store := store[bucket.id := bucket];
      err := None;
    }

    method Update(bucket: BucketCtx) returns (err: Option<StoreError>)
      modifies this
      ensures store == Updated(old(store), bucket).store
      ensures err == Updated(old(store), bucket).err
      ensures old(Valid()) ==> Valid()
    {
      if bucket.id !in store {
        return Some(NotFound);
      }
      var v := store[bucket.id];
      if v.revision != bucket.revision {
        return Some(RevisionMismatch);
      }
      store := store[bucket.id := bucket];
      err := None;
    }
  }
}
