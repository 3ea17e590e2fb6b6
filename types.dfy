/** Records shared by the rate limiter: instants and durations, the persisted
    bucket snapshot, the store's error sentinels and the rate-limit rejection. */
module Types {

  datatype Option<+T> = None | Some(value: T)

  datatype Result<+R, +E> = Success(value: R) | Failure(error: E)

  /** An instant, in nanoseconds relative to the Unix epoch. */
  type Time = int

  /** A span of time in nanoseconds, as Go's time.Duration counts it. */
  type Duration = int

  /** Go's zero time value (January 1 of year 1, UTC), which the limiter uses
      as "never consumed". */
  const ZeroTime: Time := -62135596800 * 1000000000

  /** The persisted state of one rate-limited key. */
  datatype BucketCtx = BucketCtx(
    id: string,
    revision: int,
    lastResetAt: Time,
    consumedTokenCount: int,
    lastConsumedAt: Time)

  /** Go's zero value of the snapshot record, which a failed Get returns. */
  const ZeroCtx: BucketCtx := BucketCtx("", 0, ZeroTime, 0, ZeroTime)

  /** The store's error sentinels; `Backend` is any other failure a store
      reports (a timeout, a lost connection), carried unchanged. */
  datatype StoreError = RevisionMismatch | NotFound | AlreadyExist | Backend(message: string)

  /** A rejection: how many tokens remain in the window, when the window
      resets and when the next attempt may succeed. */
  datatype RateLimitError = RateLimitError(remaining: int, resetAt: Time, tryAfter: Time)
}
