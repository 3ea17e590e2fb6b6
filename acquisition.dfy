/** Limiter.Bucket: turning a key into a handle, by reading the key's
    snapshot from the store or creating a fresh one. */
module Acquisition {
  import opened Types
  import opened Memory
  import opened RateLimiter
  import Buckets

  /** The snapshot a key starts with: first revision, nothing consumed, the
      window opening at `now`. */
  function FreshCtx(id: string, now: Time): BucketCtx {
    BucketCtx(id, 1, now, 0, ZeroTime)
  }

  /** The snapshot (or error) acquisition ends with, for any store: `got` is
      Get's answer and `created` is Create's, consulted only when Get
      reported the id missing. */
  function Acquired(id: string, now: Time, got: Result<BucketCtx, StoreError>,
                    created: Option<StoreError>): (r: Result<BucketCtx, StoreError>)
    ensures got.Success? ==> r == got
    ensures got.Failure? && got.error != NotFound ==> r == got
    ensures got == Failure(NotFound) && created == Some(AlreadyExist) ==>
      r == Failure(RevisionMismatch)
    ensures got == Failure(NotFound) && created != Some(AlreadyExist) ==>
      r == Success(FreshCtx(id, now))
    ensures r.Failure? ==> r.error != NotFound
  {
    match got
    case Success(b) => Success(b)
    case Failure(NotFound) =>
      if created == Some(AlreadyExist) then Failure(RevisionMismatch)
      else Success(FreshCtx(id, now))
    case Failure(e) => Failure(e)
  }

  /** The write acquisition makes to the in-memory map `m`: a Create of the
      fresh snapshot when `id` is missing, nothing otherwise. */
  function AcquireWrite(m: map<string, BucketCtx>, id: string, now: Time): Write {
    if Lookup(m, id) == Failure(NotFound) then Created(m, FreshCtx(id, now))
    else Write(m, None)
  }

  /** Limiter.Bucket: the handle for key `v`, bound to `l`. */
  method Bucket<T>(l: Limiter<T>, v: T, now: Time) returns (b: Buckets.Bucket?<T>, err: Option<StoreError>)
    modifies l.store
    ensures var id := BucketId(l, v);
      var w := AcquireWrite(old(l.store.store), id, now);
      var r := Acquired(id, now, Lookup(old(l.store.store), id), w.err);
      && l.store.store == w.store
      && (r.Success? ==> err == None && b != null && fresh(b) && b.l == l && b.ctx == r.value)
      && (r.Failure? ==> err == Some(r.error) && b == null)
  {
    var id := l.prefix + ":" + l.hashFunc(v);
    var snapshot, gerr := l.store.Get(id);
    if gerr.Some? {
      if gerr.value != NotFound {
        return null, gerr;
      }

      var newB := FreshCtx(id, now);

      var cerr := l.store.Create(newB);
      if cerr == Some(AlreadyExist) {
        return null, Some(RevisionMismatch);
      }
      snapshot := newB;
    }

    b := new Buckets.Bucket(l, snapshot);
    err := None;
  }

  /** On the in-memory store acquisition always succeeds: a present id
      yields exactly the stored snapshot and leaves the map alone; a
      missing id yields the fresh snapshot, now stored under that id. */
  lemma AcquireFromMemory(m: map<string, BucketCtx>, id: string, now: Time)
    ensures var r := Acquired(id, now, Lookup(m, id), AcquireWrite(m, id, now).err);
      && (id in m ==> r == Success(m[id]) && AcquireWrite(m, id, now).store == m)
      && (id !in m ==>
            && r == Success(BucketCtx(id, 1, now, 0, ZeroTime))
            && AcquireWrite(m, id, now).store == m[id := FreshCtx(id, now)])
  {
  }

  /** Acquiring the same key twice in a row reads back what the first call
      created: no second Create, no error. */
  lemma AcquireTwice(m: map<string, BucketCtx>, id: string, now1: Time, now2: Time)
    requires id !in m
    ensures var m1 := AcquireWrite(m, id, now1).store;
      && AcquireWrite(m1, id, now2).store == m1
      && Acquired(id, now2, Lookup(m1, id), AcquireWrite(m1, id, now2).err) == Success(FreshCtx(id, now1))
  {
  }

  /** Two handles loaded from the same stored snapshot, both admitted: both
      writes succeed, because the revision never advances, and the store
      keeps only the second handle's snapshot, so the first admission is
      lost from the stored count. */
  lemma RacingHandlesBothPersist<T>(l: Limiter<T>, m: map<string, BucketCtx>, id: string, t1: Time, t2: Time)
    requires Keyed(m) && id in m
    requires Buckets.Transition(l, m[id], t1).verdict.Admitted?
    requires Buckets.Transition(l, m[id], t2).verdict.Admitted?
    ensures var s1 := Buckets.Transition(l, m[id], t1).ctx;
      var s2 := Buckets.Transition(l, m[id], t2).ctx;
      var w1 := Updated(m, s1);
      var w2 := Updated(w1.store, s2);
      && w1.err == None && w2.err == None
      && w2.store == m[id := s2]
      && w2.store[id].consumedTokenCount == Buckets.Rollover(l.resetAfter, m[id], t2).consumedTokenCount + 1
  {
  }

  /** On the in-memory store every failed write of an admitted Consume
      reads as a stale handle: the id is gone, or its stored revision
      differs from the handle's. */
  lemma MemoryPersistFailsAsStale<T>(l: Limiter<T>, m: map<string, BucketCtx>, c: BucketCtx, now: Time)
    requires Buckets.Transition(l, c, now).verdict.Admitted?
    ensures var e := Buckets.PersistError(Updated(m, Buckets.Transition(l, c, now).ctx).err);
      && (e.None? <==> c.id in m && m[c.id].revision == c.revision)
      && (e.Some? ==> e == Some(Buckets.StoreFailed(RevisionMismatch)))
  {
  }
}
