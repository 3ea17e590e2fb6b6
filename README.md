# Rate limiter core in Dafny

This project models the decision procedure of a generic, pluggable-backend
rate limiter and the optimistic-concurrency store it writes through. A
limiter holds a label, a per-window token limit, a window length
(`resetAfter`), a back-off schedule, a key-to-string hash and a store. For a
key it hands out a bucket handle: it reads the key's snapshot from the store,
or creates a fresh one. `Consume` on a handle then runs four steps:

- a lazy window rollover;
- a hard cap;
- a back-off check, indexed by the number of tokens already spent and clamped
  to the window's end;
- admission, followed by one conditional write to the store.

The in-memory store is a map from id to snapshot. It has a lookup, an
insert-if-absent and a replace-if-the-revision-matches.

Files and modules:

- `types.dfy` (`Types`): instants and durations as integer nanoseconds; Go's
  zero time as the constant `ZeroTime` ("never consumed"); the snapshot
  `BucketCtx`; the store's error sentinels; the `RateLimitError` record.
- `memory.dfy` (`Memory`): the class `MemoryStore` over a
  `map<string, BucketCtx>`. Each method is proved against a pure function:
  `Lookup`, `Created` or `Updated`.
- `limiter.dfy` (`RateLimiter`): the `Limiter` record, construction (`New`),
  the identity hash `String` and the bucket id.
- `bucket.dfy` (`Buckets`): the class `Bucket` with `Ctx` and `Consume`.
  `Consume` is written step by step as in the source and proved against the
  pure `Transition` (rollover, cap, back-off, admit) and `PersistError`
  (translation of the write's error).
- `acquisition.dfy` (`Acquisition`): `Limiter.Bucket` as the method `Bucket`.
  It is proved against `Acquired`, which gives the outcome for any store's
  answers to Get and Create.

`now` is a parameter wherever the source reads the clock.

Where a reader might expect other behaviour, the model follows the code:

- Rollover uses a strict "before": at `now == lastResetAt + resetAfter` nothing
  resets (`Buckets.RolloverExactly`).
- One might expect a limit of 0 to deny every call; this code rejects it at
  construction. The back-off length is checked with `>= limit`, and `0 >= 0`
  (`RateLimiter.ZeroLimitRejected`).
- When acquisition's Create fails with an error other than "already exists",
  that error is swallowed. The handle wraps the unpersisted fresh snapshot
  (`Acquisition.Acquired`).
- `Update` never advances the stored revision. So two handles loaded from the
  same snapshot can both persist, and the second write erases the first
  admission from the stored count (`Acquisition.RacingHandlesBothPersist`).
  One might expect only one of two racing handles to persist; with this
  code both do.

## Model

| member | source | states |
|---|---|---|
| `Memory.MemoryStore.constructor` | memory.go:13-18 | A new store holds the empty map, and every entry is filed under its own id. |
| `Memory.MemoryStore.Get` | memory.go:22-31 | A present id returns the stored snapshot and no error. An absent id returns the zero snapshot and NotFound. The answer is `Lookup` of the map, and on a keyed store a returned snapshot carries the requested id. The map is not changed. |
| `Memory.MemoryStore.Create` | memory.go:33-44 | The new map and the error are exactly those of `Created` on the old map. Keying by id is preserved. |
| `Memory.MemoryStore.Update` | memory.go:46-61 | The new map and the error are exactly those of `Updated` on the old map. Keying by id is preserved. |
| `Memory.Created` | memory.go:33-44 | Succeeds exactly when the id is absent. Otherwise it returns AlreadyExist and the map is unchanged. Keys grow by exactly the bucket's id, and no existing entry is ever overwritten. |
| `Memory.Updated` | memory.go:46-61 | Succeeds exactly when the id is present with an equal revision. An absent id gives NotFound and a different revision gives RevisionMismatch, both with the map unchanged. The key set and every stored revision are never changed, and other ids are untouched. |
| `Memory.UpdatesKeepKeysAndRevisions` | memory.go:55-60 | Over any sequence of Updates, the key set and every stored revision stay what Create stored. |
| `Memory.CreateThenGet` | memory.go:22-44 | A successful Create followed by a lookup of its id returns the created snapshot. Lookups of other ids are unchanged. |
| `Memory.LastWriterWins` | memory.go:55-60 | Two Updates carrying the stored revision both succeed, and the second snapshot is what remains. |
| `RateLimiter.New` | limiter.go:30-58 | Succeeds exactly when every check passes (limit at least 1). On success, every limiter field equals its option. Each error is returned exactly when its check fails and all earlier checks pass, in source order: label, limit, resetAfter, hash, back-off length, store. |
| `RateLimiter.ZeroLimitRejected` | limiter.go:34-45 | `limit == 0` is always rejected. With label, window and hash valid, it is rejected by the back-off length check. |
| `RateLimiter.NewLimiterBounds` | limiter.go:30-57 | A constructed limiter has `limit >= 1`, fewer back-off entries than the limit, and a positive window. |
| `RateLimiter.String` | limiter.go:91-93 | The identity hash: the result equals its argument, character by character. |
| `RateLimiter.BucketId` | limiter.go:61 | The id is the label, then `':'`, then the key's hash, at those exact positions. |
| `RateLimiter.BucketIdInjective` | limiter.go:61 | Under one limiter, two keys share an id exactly when their hashes are equal. |
| `RateLimiter.StringKeysDistinct` | limiter.go:61 | With the identity hash, the id is `label + ":" + key`, and distinct keys get distinct ids. |
| `Buckets.Rollover` | bucket.go:36-40 | Id and revision are kept. For a non-negative window (which `New` guarantees), after rollover the window has not ended at `now`, and `lastResetAt` never moves backwards. Any change resets the count to 0 and `lastConsumedAt` to unset. |
| `Buckets.RolloverExactly` | bucket.go:36-40 | Rollover happens exactly when the window ended strictly before `now`. At equality the snapshot is unchanged. |
| `Buckets.BackOffIndex` | bucket.go:51-57 | The index is `min(count - 1, len - 1)` and lies in `[0, len - 1]`. |
| `Buckets.BackOffTryAfter` | bucket.go:57-63 | The retry time is the earlier of "last consumption plus the selected delay" and the window's end. |
| `Buckets.Transition` | bucket.go:34-74 | Id and revision never change. A rejection changes the snapshot only by rollover. An admission had count below the limit, adds exactly one token (so the count stays at most the limit), sets `lastConsumedAt` to `now` and keeps the window start. |
| `Buckets.PersistError` | bucket.go:76-82 | Success gives no error. NotFound becomes RevisionMismatch, and every other store error passes through unchanged. |
| `Buckets.CapRejects` | bucket.go:42-49 | A full window is rejected with remaining 0, and ResetAt = TryAfter = window end. The snapshot keeps only the rollover. |
| `Buckets.RejectionBounds` | bucket.go:42-70 | For a non-negative window (which `New` guarantees), every rejection has `now <= TryAfter <= ResetAt` and remaining at least 0. Remaining is 0 exactly for a full window. A back-off rejection has remaining = limit - count, at least 1, and TryAfter equal to `BackOffTryAfter` (last consumption plus the selected delay, clamped to the window's end), strictly after `now`. |
| `Buckets.AdmittedExactly` | bucket.go:42-74 | Admission happens exactly when the count is below the limit and, if back-off applies, its clamped retry time is at most `now`. |
| `Buckets.CountStaysWithinLimit` | bucket.go:42-74 | A count within `[0, limit]` stays within it after one Consume. |
| `Buckets.AdmissionsWithinWindow` | bucket.go:36-74 | Over any run of Consume calls with no rollover, the window start is unchanged. The count grows by exactly the number admitted, and that number is at most the tokens left. |
| `Buckets.RunStaysWithinLimit` | bucket.go:36-74 | Over any run, across windows, a count within `[0, limit]` stays within it. |
| `Buckets.BackOffSchedule` | bucket.go:51-70 | Schedule [100ms, 200ms] with limit 5: the 2nd token waits 100ms, the 3rd waits 200ms, the 4th and 5th wait 200ms again (the last entry repeats), a wait that ends exactly at `now` admits, and a full window always refuses with remaining 0. |
| `Buckets.Bucket.constructor` | limiter.go:84-88 | The handle wraps the given limiter and snapshot. |
| `Buckets.Bucket.Ctx` | bucket.go:24-28 | Returns a copy of the handle's snapshot. |
| `Buckets.Bucket.Consume` | bucket.go:30-83 | The new snapshot is `Transition`'s. A rejection returns the rate-limit record and leaves the store unchanged. An admission makes exactly one Update with the new snapshot and returns its translated error; the in-memory increment is kept even when the Update fails. |
| `Acquisition.Acquired` | limiter.go:62-82 | A Get success gives the stored snapshot, and a Get error other than NotFound passes through unchanged. After NotFound, a Create AlreadyExist gives RevisionMismatch, and any other Create outcome gives the fresh snapshot. NotFound never surfaces. |
| `Acquisition.Bucket` | limiter.go:60-89 | The id is `label:hash(v)`. Create is attempted only after NotFound. The store changes only by that Create. The result is a fresh handle on `Acquired`'s snapshot, or `Acquired`'s error and no handle. |
| `Acquisition.AcquireFromMemory` | limiter.go:62-82 | On the in-memory store a present id yields exactly the stored snapshot and leaves the map unchanged. An absent id yields revision 1, count 0, unset `lastConsumedAt` and `lastResetAt = now`, stored under the id. |
| `Acquisition.AcquireTwice` | limiter.go:62-82 | A second acquisition of a key just created reads back that snapshot. It makes no second Create and returns no error. |
| `Acquisition.RacingHandlesBothPersist` | memory.go:55-60 | Two handles loaded from the same stored snapshot and both admitted both write successfully. The store ends with the second handle's count, so the first admission is lost. |
| `Acquisition.MemoryPersistFailsAsStale` | bucket.go:73-82 | On the in-memory store an admitted Consume persists exactly when the id is stored with the handle's revision. Otherwise the caller sees RevisionMismatch. |

## Left out

- Mutexes in the bucket handle and the in-memory store. Calls are modelled one at a time. A race between handles appears only as two snapshots written in turn.
- `context.Context` parameters. They are passed through and never inspected.
- The wall clock (`time.Now`). It is the `now` parameter. The monotonic-clock reading that Go's times carry is not modelled.
- `RateLimitError.Error()`. It formats a string from the wall clock; only the record's fields are kept.
- JSON field tags on the snapshot, and any networked backend.
- The `Store` interface: the limiter is bound to the in-memory store. Another backend's answers, including its own errors (`Backend`), appear only as arguments of `Acquisition.Acquired` and `Buckets.PersistError`. With the in-memory store, acquisition's Create never fails, so the branches for a failed Create are reachable only with a concurrent writer.
- `errors.Is` unwrapping: a store error is one of the three sentinels or an opaque `Backend` error. A wrapped sentinel is not modelled.
- Integer widths: counts, instants and durations are unbounded integers. Go's 64-bit `int` and `time.Duration` overflow, and the saturation in `time.Time.Add`, are not modelled.
- Sharing of the back-off slice: in Go, `New` keeps the caller's `BackOffs` slice itself, so the caller can still change a live limiter's delays through it. The model's limiter keeps its own copy as a sequence.
- Passing nil as the `*LimiterOption` argument of `New`. In Go that panics; the model takes the options by value.
- The label field is named `prefix` in the model, because `label` is a reserved word in Dafny.
