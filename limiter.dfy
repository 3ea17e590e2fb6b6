/** The limiter's configuration: the options a caller passes, the checks
    that construction runs on them, and the bucket id a key maps to. */
module RateLimiter {
  import opened Types
  import opened Memory

  /** A validated, immutable configuration; `prefix` is the label that
      namespaces every bucket id. */
  datatype Limiter<!T> = Limiter(
    prefix: string,
    hashFunc: T -> string,
    resetAfter: Duration,
    backOffs: seq<Duration>,
    store: MemoryStore,
    limit: int)

  /** What a caller asks for; a nil hash function or store is `None` / `null`. */
  datatype LimiterOption<!T> = LimiterOption(
    prefix: string,
    limit: int,
    resetAfter: Duration,
    hashFunc: Option<T -> string>,
    store: MemoryStore?,
    backOffs: seq<Duration>)

  /** One error per check, in the order the checks run. */
  datatype ConfigError =
    | EmptyPrefix
    | NegativeLimit
    | NonPositiveResetAfter
    | NilHashFunc
    | BackOffsNotBelowLimit
    | NilStore

  /** The configuration is usable: the conjunction of every check. */
  predicate Acceptable<T>(o: LimiterOption<T>) {
    && o.prefix != ""
    && o.limit >= 1
    && o.resetAfter > 0
    && o.hashFunc.Some?
    && |o.backOffs| < o.limit
    && o.store != null
  }

  function New<T>(o: LimiterOption<T>): (r: Result<Limiter<T>, ConfigError>)
    ensures r.Success? <==> Acceptable(o)
    ensures r.Success? ==>
      && r.value.prefix == o.prefix
      && r.value.limit == o.limit
      && r.value.resetAfter == o.resetAfter
      && r.value.hashFunc == o.hashFunc.value
      && r.value.store == o.store
      && r.value.backOffs == o.backOffs
    ensures r == Failure(EmptyPrefix) <==> o.prefix == ""
    ensures r == Failure(NegativeLimit) <==> o.prefix != "" && o.limit < 0
    ensures r == Failure(NonPositiveResetAfter) <==>
      o.prefix != "" && o.limit >= 0 && o.resetAfter <= 0
    ensures r == Failure(NilHashFunc) <==>
      o.prefix != "" && o.limit >= 0 && o.resetAfter > 0 && o.hashFunc.None?
    ensures r == Failure(BackOffsNotBelowLimit) <==>
      o.prefix != "" && o.limit >= 0 && o.resetAfter > 0 && o.hashFunc.Some? && |o.backOffs| >= o.limit
    ensures r == Failure(NilStore) <==>
      o.prefix != "" && o.limit >= 0 && o.resetAfter > 0 && o.hashFunc.Some? && |o.backOffs| < o.limit
      && o.store == null
  {
    if o.prefix == "" then Failure(EmptyPrefix)
    else if o.limit < 0 then Failure(NegativeLimit)
    else if o.resetAfter <= 0 then Failure(NonPositiveResetAfter)
    else if o.hashFunc.None? then Failure(NilHashFunc)
    else if |o.backOffs| >= o.limit then Failure(BackOffsNotBelowLimit)
    else if o.store == null then Failure(NilStore)
    else Success(Limiter(o.prefix, o.hashFunc.value, o.resetAfter, o.backOffs, o.store, o.limit))
  }

  /** A limit of zero is always refused: no back-off list is shorter than
      zero entries, so the back-off check fires even when an empty list is
      given. */
  lemma ZeroLimitRejected<T>(o: LimiterOption<T>)
    requires o.limit == 0
    ensures New(o).Failure?
    ensures o.prefix != "" && o.resetAfter > 0 && o.hashFunc.Some? ==>
      New(o) == Failure(BackOffsNotBelowLimit)
  {
  }

  /** A limiter that New returns allows at least one token per window and
      has fewer back-off entries than tokens. */
  lemma NewLimiterBounds<T>(o: LimiterOption<T>)
    requires New(o).Success?
    ensures New(o).value.limit >= 1
    ensures |New(o).value.backOffs| < New(o).value.limit
    ensures New(o).value.resetAfter > 0
  {
  }

  /** The identity hash, for limiters keyed by strings. */
  function String(s: string): (r: string)
    ensures |r| == |s| && forall i :: 0 <= i < |s| ==> r[i] == s[i]
  {
    s
  }

  /** The id under which the key `v` is stored. */
  function BucketId<T>(l: Limiter<T>, v: T): (id: string)
    ensures |id| == |l.prefix| + 1 + |l.hashFunc(v)|
    ensures id[..|l.prefix|] == l.prefix
    ensures id[|l.prefix|] == ':'
    ensures id[|l.prefix| + 1..] == l.hashFunc(v)
  {
    l.prefix + ":" + l.hashFunc(v)
  }

  /** Under one label, two keys share a bucket exactly when they hash alike. */
  lemma BucketIdInjective<T>(l: Limiter<T>, v: T, w: T)
    ensures BucketId(l, v) == BucketId(l, w) <==> l.hashFunc(v) == l.hashFunc(w)
  {
  }

  /** With the identity hash, distinct string keys get distinct buckets. */
  lemma StringKeysDistinct(l: Limiter<string>, v: string, w: string)
    requires l.hashFunc == String
    ensures BucketId(l, v) == l.prefix + ":" + v
    ensures BucketId(l, v) == BucketId(l, w) <==> v == w
  {
  }
}
