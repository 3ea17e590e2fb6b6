/** One key's handle and its consumption algorithm: lazy window rollover,
    hard cap, back-off spacing, admission and the conditional write. */
module Buckets {
  import opened Types
  import opened Memory
  import opened RateLimiter

  /** The decision Consume reaches before touching the store. */
  datatype Verdict = Rejected(info: RateLimitError) | Admitted

  /** The snapshot after one Consume and the decision taken. */
  datatype Step = Step(ctx: BucketCtx, verdict: Verdict)

  /** What Consume returns besides success: a rejection, or a store failure. */
  datatype ConsumeError = RateLimited(info: RateLimitError) | StoreFailed(err: StoreError)

  /** The instant the snapshot's window ends. */
  function ResetAt(resetAfter: Duration, c: BucketCtx): Time {
    c.lastResetAt + resetAfter
  }

  /** The window has ended strictly before `now`. */
  predicate Expired(resetAfter: Duration, c: BucketCtx, now: Time) {
    ResetAt(resetAfter, c) < now
  }

  /** Lazy rollover: an ended window starts afresh at `now`. */
  function Rollover(resetAfter: Duration, c: BucketCtx, now: Time): (r: BucketCtx)
    ensures r.id == c.id && r.revision == c.revision
    ensures resetAfter >= 0 ==> !Expired(resetAfter, r, now)
    ensures resetAfter >= 0 ==> r.lastResetAt >= c.lastResetAt
    ensures r != c ==> r.consumedTokenCount == 0 && r.lastConsumedAt == ZeroTime
  {
    if Expired(resetAfter, c, now) then
      c.(consumedTokenCount := 0, lastResetAt := now, lastConsumedAt := ZeroTime)
    else
      c
  }

  /** The back-off entry used after `count` tokens: the count-th one, or the
      last one once the schedule is exhausted. */
  function BackOffIndex(count: int, n: int): (i: int)
    requires n > 0 && count > 0
    ensures 0 <= i < n
    ensures i == if count - 1 < n - 1 then count - 1 else n - 1
  {
    if count > n then n - 1 else count - 1
  }

  /** The earliest next admission that back-off allows, never later than
      the end of the window. */
  function BackOffTryAfter(resetAfter: Duration, backOffs: seq<Duration>, c: BucketCtx): (t: Time)
    requires |backOffs| > 0 && c.consumedTokenCount > 0
    ensures t <= ResetAt(resetAfter, c)
    ensures t <= c.lastConsumedAt + backOffs[BackOffIndex(c.consumedTokenCount, |backOffs|)]
    ensures t == ResetAt(resetAfter, c)
         || t == c.lastConsumedAt + backOffs[BackOffIndex(c.consumedTokenCount, |backOffs|)]
  {
    var tryAfter := c.lastConsumedAt + backOffs[BackOffIndex(c.consumedTokenCount, |backOffs|)];
    var resetAt := ResetAt(resetAfter, c);
    if resetAt < tryAfter then resetAt else tryAfter
  }

  /** Back-off applies: a schedule is configured and a token was spent. */
  predicate BackingOff(backOffs: seq<Duration>, c: BucketCtx) {
    |backOffs| > 0 && c.consumedTokenCount > 0
  }

  /** The cap and back-off checks on an already rolled-over snapshot. */
  function Check<T>(l: Limiter<T>, c: BucketCtx, now: Time): Verdict {
    var resetAt := ResetAt(l.resetAfter, c);
    if c.consumedTokenCount >= l.limit then
      Rejected(RateLimitError(0, resetAt, resetAt))
    else if BackingOff(l.backOffs, c) && BackOffTryAfter(l.resetAfter, l.backOffs, c) > now then
      Rejected(RateLimitError(l.limit - c.consumedTokenCount, resetAt,
                              BackOffTryAfter(l.resetAfter, l.backOffs, c)))
    else
      Admitted
  }

  /** The admit step: one more token, consumed at `now`. */
  function Admit(c: BucketCtx, now: Time): BucketCtx {
    c.(consumedTokenCount := c.consumedTokenCount + 1, lastConsumedAt := now)
  }

  /** One Consume on the snapshot `c` at `now`, before the write. */
  function Transition<T>(l: Limiter<T>, c: BucketCtx, now: Time): (s: Step)
    ensures s.ctx.id == c.id && s.ctx.revision == c.revision
    ensures s.verdict.Rejected? ==> s.ctx == Rollover(l.resetAfter, c, now)
    ensures s.verdict.Admitted? ==>
      && Rollover(l.resetAfter, c, now).consumedTokenCount < l.limit
      && s.ctx.consumedTokenCount == Rollover(l.resetAfter, c, now).consumedTokenCount + 1
      && s.ctx.consumedTokenCount <= l.limit
      && s.ctx.lastConsumedAt == now
      && s.ctx.lastResetAt == Rollover(l.resetAfter, c, now).lastResetAt
  {
    var r := Rollover(l.resetAfter, c, now);
    match Check(l, r, now)
    case Rejected(e) => Step(r, Rejected(e))
    case Admitted => Step(Admit(r, now), Admitted)
  }

  /** How a failed write reads to the caller: a missing record means the
      handle is stale; any other store error passes through. */
  function PersistError(e: Option<StoreError>): (r: Option<ConsumeError>)
    ensures e.None? <==> r.None?
    ensures e == Some(NotFound) ==> r == Some(StoreFailed(RevisionMismatch))
    ensures e.Some? && e.value != NotFound ==> r == Some(StoreFailed(e.value))
    ensures r.Some? ==> r.value.StoreFailed? && r.value.err != NotFound
  {
    match e
    case None => None
    case Some(NotFound) => Some(StoreFailed(RevisionMismatch))
    case Some(other) => Some(StoreFailed(other))
  }

  /** Rollover happens exactly when the window ended strictly before `now`;
      at the exact end of the window nothing resets. */
  lemma RolloverExactly(resetAfter: Duration, c: BucketCtx, now: Time)
    ensures Expired(resetAfter, c, now) ==>
      Rollover(resetAfter, c, now) ==
        BucketCtx(c.id, c.revision, now, 0, ZeroTime)
    ensures !Expired(resetAfter, c, now) ==> Rollover(resetAfter, c, now) == c
    ensures now == ResetAt(resetAfter, c) ==> Rollover(resetAfter, c, now) == c
  {
  }

  /** A full window is refused with nothing remaining, retry at the window's
      end, and the snapshot changed only by rollover. */
  lemma CapRejects<T>(l: Limiter<T>, c: BucketCtx, now: Time)
    requires Rollover(l.resetAfter, c, now).consumedTokenCount >= l.limit
    ensures var r := Rollover(l.resetAfter, c, now);
      Transition(l, c, now) ==
        Step(r, Rejected(RateLimitError(0, ResetAt(l.resetAfter, r), ResetAt(l.resetAfter, r))))
  {
  }

  /** Every rejection carries a retry time no later than the window's end
      and no earlier than `now`; a back-off rejection (something remains)
      has as retry time the last consumption plus the selected delay,
      clamped to the window's end, strictly after `now`; nothing remains only
      when the window is full. */
  lemma RejectionBounds<T>(l: Limiter<T>, c: BucketCtx, now: Time)
    requires l.resetAfter >= 0
    requires Transition(l, c, now).verdict.Rejected?
    ensures var e := Transition(l, c, now).verdict.info;
      var r := Rollover(l.resetAfter, c, now);
      && e.resetAt == ResetAt(l.resetAfter, r)
      && now <= e.tryAfter <= e.resetAt
      && e.remaining >= 0
      && (e.remaining == 0 <==> r.consumedTokenCount >= l.limit)
      && (e.remaining > 0 ==>
            && e.remaining == l.limit - r.consumedTokenCount && now < e.tryAfter
            && BackingOff(l.backOffs, r)
            && e.tryAfter == BackOffTryAfter(l.resetAfter, l.backOffs, r))
  {
  }

  /** Admission decided by the checks, in both directions: the window has
      room, and either back-off does not apply or its (clamped) retry time
      has been reached; a retry time equal to `now` admits. */
  lemma AdmittedExactly<T>(l: Limiter<T>, c: BucketCtx, now: Time)
    ensures var r := Rollover(l.resetAfter, c, now);
      Transition(l, c, now).verdict.Admitted? <==>
        && r.consumedTokenCount < l.limit
        && (BackingOff(l.backOffs, r) ==> BackOffTryAfter(l.resetAfter, l.backOffs, r) <= now)
  {
  }

  /** A handle whose count is within the limit keeps it within the limit. */
  lemma CountStaysWithinLimit<T>(l: Limiter<T>, c: BucketCtx, now: Time)
    requires 0 <= c.consumedTokenCount <= l.limit
    ensures 0 <= Transition(l, c, now).ctx.consumedTokenCount <= l.limit
  {
  }

  /** The snapshot and the number of admissions after Consume runs at each
      of `times` in turn on one handle. */
  function Run<T>(l: Limiter<T>, c: BucketCtx, times: seq<Time>): (BucketCtx, nat)
    decreases |times|
  {
    if times == [] then (c, 0)
    else
      var s := Transition(l, c, times[0]);
      var (last, n) := Run(l, s.ctx, times[1..]);
      (last, n + if s.verdict.Admitted? then 1 else 0)
  }

  /** Within one window (no call comes after the window's end, so nothing
      rolls over) a handle admits at most `limit` minus what it had already
      spent, and its count records every admission. */
  lemma {:induction false} AdmissionsWithinWindow<T>(l: Limiter<T>, c: BucketCtx, times: seq<Time>)
    requires forall i :: 0 <= i < |times| ==> times[i] <= ResetAt(l.resetAfter, c)
    ensures Run(l, c, times).0.lastResetAt == c.lastResetAt
    ensures Run(l, c, times).0.consumedTokenCount == c.consumedTokenCount + Run(l, c, times).1
    ensures Run(l, c, times).1 <= if c.consumedTokenCount < l.limit then l.limit - c.consumedTokenCount else 0
    decreases |times|
  {
    if times != [] {
      var s := Transition(l, c, times[0]);
      assert Rollover(l.resetAfter, c, times[0]) == c;
      assert ResetAt(l.resetAfter, s.ctx) == ResetAt(l.resetAfter, c);
      AdmissionsWithinWindow(l, s.ctx, times[1..]);
    }
  }

  /** Over any run, however many windows it spans, a handle that starts
      within the limit ends within it. */
  lemma {:induction false} RunStaysWithinLimit<T>(l: Limiter<T>, c: BucketCtx, times: seq<Time>)
    requires 0 <= c.consumedTokenCount <= l.limit
    ensures 0 <= Run(l, c, times).0.consumedTokenCount <= l.limit
    decreases |times|
  {
    if times != [] {
      CountStaysWithinLimit(l, c, times[0]);
      RunStaysWithinLimit(l, Transition(l, c, times[0]).ctx, times[1..]);
    }
  }

  /** The schedule [100ms, 200ms] with limit 5: the second token waits
      100ms after the first, the third 200ms after the second, the fourth
      and fifth 200ms again (the schedule is exhausted and its last entry
      repeats), and a full window refuses with nothing remaining. */
  lemma BackOffSchedule<T>(l: Limiter<T>, c: BucketCtx, t: Time)
    requires l.limit == 5 && l.backOffs == [100000000, 200000000]
    requires l.resetAfter == 3600000000000
    requires c.lastResetAt == t && c.consumedTokenCount == 0
    ensures var s1 := Transition(l, c, t + 1);
      && s1.verdict.Admitted?
      && Transition(l, s1.ctx, t + 1 + 99999999).verdict.Rejected?
      && Transition(l, s1.ctx, t + 1 + 99999999).verdict.info.tryAfter == t + 1 + 100000000
      && Transition(l, s1.ctx, t + 1 + 100000000).verdict.Admitted?
    ensures var c2 := c.(consumedTokenCount := 2, lastConsumedAt := t + 10);
      && Transition(l, c2, t + 10 + 199999999).verdict.Rejected?
      && Transition(l, c2, t + 10 + 200000000).verdict.Admitted?
    ensures var c3 := c.(consumedTokenCount := 3, lastConsumedAt := t + 10);
      && Transition(l, c3, t + 10 + 199999999).verdict.Rejected?
      && Transition(l, c3, t + 10 + 200000000).verdict.Admitted?
    ensures var c4 := c.(consumedTokenCount := 4, lastConsumedAt := t + 10);
      && Transition(l, c4, t + 10 + 199999999).verdict.Rejected?
      && Transition(l, c4, t + 10 + 200000000).verdict.Admitted?
    ensures forall now :: t <= now <= ResetAt(l.resetAfter, c) ==>
      Transition(l, c.(consumedTokenCount := 5), now).verdict == Rejected(RateLimitError(0, t + 3600000000000, t + 3600000000000))
  {
  }

  /** The handle Limiter.Bucket returns: one key's snapshot, bound to the
      limiter whose policy and store it uses. */
  class Bucket<!T> {
    const l: Limiter<T>
    var ctx: BucketCtx

    constructor (l: Limiter<T>, ctx: BucketCtx)
      ensures this.l == l && this.ctx == ctx
    {
      this.l := l;
      this.ctx := ctx;
    }

    /** A copy of the current snapshot. */
    method Ctx() returns (c: BucketCtx)
      ensures c == ctx
    {
      c := ctx;
    }

    /** Takes one token at `now`, or says why not. The snapshot keeps the
        rollover on a rejection and the increment on an admission even when
        the write fails; only an admission writes to the store. */
    method Consume(now: Time) returns (err: Option<ConsumeError>)
      modifies this, l.store
      ensures var s := Transition(l, old(ctx), now);
        && ctx == s.ctx
        && (s.verdict.Rejected? ==>
              err == Some(RateLimited(s.verdict.info)) && l.store.store == old(l.store.store))
        && (s.verdict.Admitted? ==>
              var w := Updated(old(l.store.store), s.ctx);
              l.store.store == w.store && err == PersistError(w.err))
    {
      if ctx.lastResetAt + l.resetAfter < now {
        ctx := ctx.(consumedTokenCount := 0, lastResetAt := now, lastConsumedAt := ZeroTime);
      }

      if ctx.consumedTokenCount >= l.limit {
        var tryAfter := ctx.lastResetAt + l.resetAfter;
        return Some(RateLimited(RateLimitError(0, tryAfter, tryAfter)));
      }

      var backoffLen := |l.backOffs|;
      if backoffLen > 0 && ctx.consumedTokenCount > 0 {
        var i := ctx.consumedTokenCount - 1;
        if ctx.consumedTokenCount > backoffLen {
          i := backoffLen - 1;
        }
        var d := l.backOffs[i];

        var tryAfter := ctx.lastConsumedAt + d;
        var resetAt := ctx.lastResetAt + l.resetAfter;
        if resetAt < tryAfter {
          tryAfter := resetAt;
        }
        if tryAfter > now {
          return Some(RateLimited(RateLimitError(l.limit - ctx.consumedTokenCount, resetAt, tryAfter)));
        }
      }

      ctx := ctx.(consumedTokenCount := ctx.consumedTokenCount + 1, lastConsumedAt := now);

      var e := l.store.Update(ctx);
      err := PersistError(e);
    }
  }
}
