# RaycastJobBatch in Dafny

A model of `RaycastJobBatch`, a Unity helper that runs a large batch of
raycasts as one job. The batch owns two index-aligned native buffers,
`commands` (the ray queries the caller fills in) and `results` (the hits the
engine writes). It also owns the handle of the job last scheduled over them.
Its public surface is the constructor, the `Length` getter and setter,
`Schedule`, `Complete`, `CopyResults` and `Dispose`.

The parallel work belongs to Unity. From the caller's side, the batch is a
sequential state machine: each buffer is created with a length or released,
and the handle is idle (the default handle) or pending (a scheduled job that
has not been joined). The model has two modules.

- `BatchLifecycle` (`lifecycle.dfy`) holds that state as a value,
  `BatchState`. It has one transition function per operation and the
  protocol's properties as lemmas. Four pieces of ghost bookkeeping make
  the rules checkable:
  - the warning log of debug builds;
  - whether some job was orphaned: `Schedule` overwrote its handle before
    it was joined, so nothing joins it afterwards;
  - whether a buffer was ever released while a job had not been joined;
  - the number of native allocations made and not yet released. It exceeds
    the number of created buffers exactly when a buffer has leaked.

  The lemmas cover idempotence of `Complete`, `Dispose` and the setter, and
  reallocation of a mismatched pair. Over any sequence of calls, the getter
  never reports a mismatch and no allocation leaks: the setter releases the
  old pair before it allocates the new one. `Dispose` and the setter always join the job
  the handle holds before they release anything. A buffer can still be
  released under a running job, but only under one orphaned by a second
  `Schedule`, and that is exactly when the debug warning
  "Scheduling when job is not complete" has been logged. So join before
  free holds for every run that logs no such warning.
  `ScheduleTwiceThenDisposeReleasesUnderJob` shows the hazard on the
  sequence `Schedule`, `Schedule`, `Dispose`.
- `RaycastJobs` (`raycast_job_batch.dfy`) holds the class
  `RaycastJobBatch`. Its buffers are arrays, each with an `IsCreated` flag.
  Its handle is `Idle | Pending(writes)`: a pending job carries the hits it
  will write, and `Complete` makes them visible. Each method is proved to
  follow its `BatchLifecycle` transition. Its contract also says what
  happens to the buffers' contents and which objects are reallocated. The
  engine is a parameter `raycast` of `Schedule`, and `RaycastAll` states
  what a job computes: hit `i` answers command `i`.

Three behaviours of the code shape the model:

- A length mismatch is not a fatal error. The getter returns -1, and setting
  any non-negative length then reallocates both buffers.
- The misuse warnings depend on the `DEBUG` build flag. They are recorded in
  a ghost log.
- A disposed batch is reallocated by the setter only when the new length
  differs from the length the released buffers report. That length is taken
  to be 0 here, because `RaycastJobBatch` itself never shows it. So
  `Length = 0` after `Dispose` leaves both buffers released
  (`SetLengthZeroAfterDisposeKeepsReleased`).

## Model

| member | source | states |
|---|---|---|
| `BatchLifecycle.LengthOf` | RaycastJobBatch.cs:22-29 | The getter is never below -1. It is non-negative exactly when both buffers report the same length, and it is then that common length. |
| `BatchLifecycle.Constructed` | RaycastJobBatch.cs:46-52 | After construction with `n`, both buffers are created and the getter reads `n`. Exactly two allocations are alive. No job is pending or orphaned, and nothing is logged. |
| `BatchLifecycle.LengthSet` | RaycastJobBatch.cs:30-38 | After the setter, the getter reads back `value`. An equal value leaves the state unchanged. A different value leaves both buffers created with `value` elements and the handle idle. It first releases every created buffer and then allocates two: the live count drops by the created buffers and rises by 2. Warnings and orphaned jobs are kept. A release is flagged exactly when the value differs, a job is orphaned and a buffer was still created. |
| `BatchLifecycle.Scheduled` | RaycastJobBatch.cs:59-65 | Scheduling leaves a job pending. It logs one warning exactly when a job was already pending, and that job becomes orphaned. Buffers and allocations are untouched. |
| `BatchLifecycle.Completed` | RaycastJobBatch.cs:67-71 | Complete always leaves the handle idle and changes nothing else: an orphaned job stays orphaned. With no job pending it changes nothing at all. |
| `BatchLifecycle.ResultsCopied` | RaycastJobBatch.cs:73-83 | Copying out logs one warning exactly when a job is pending. It changes nothing else. |
| `BatchLifecycle.CommandsReleased` | RaycastJobBatch.cs:88 | Releasing the commands buffer needs it created. Afterwards it is released and one allocation fewer is alive. The release is flagged exactly when a job is pending or orphaned. |
| `BatchLifecycle.ResultsReleased` | RaycastJobBatch.cs:89 | Releasing the results buffer needs it created. Afterwards it is released and one allocation fewer is alive. The release is flagged exactly when a job is pending or orphaned. |
| `BatchLifecycle.Disposed` | RaycastJobBatch.cs:85-90 | After Dispose, both buffers are released and no job is pending. One allocation per buffer that was created is freed. A release is flagged exactly when a job is orphaned and a buffer was still created. The pending job never causes one, because the join comes before any release. |
| `BatchLifecycle.CompleteIsIdempotent` | RaycastJobBatch.cs:67-71 | Completing twice is the same as completing once. |
| `BatchLifecycle.DisposeIsIdempotent` | RaycastJobBatch.cs:85-90 | Disposing twice is the same as disposing once: the second call releases nothing. |
| `BatchLifecycle.SetLengthIsIdempotent` | RaycastJobBatch.cs:32 | Setting the same length twice: the second call is a no-op. |
| `BatchLifecycle.MismatchAlwaysReallocates` | RaycastJobBatch.cs:28-37 | On a pair of buffers whose lengths differ, setting any non-negative length creates both buffers anew with that length. |
| `BatchLifecycle.SetLengthZeroAfterDisposeKeepsReleased` | RaycastJobBatch.cs:32-34 | If a released buffer reports 0, then setting the length to 0 after Dispose changes nothing and the buffers stay released. |
| `BatchLifecycle.SetLengthReallocatesWithoutLeak` | RaycastJobBatch.cs:32-36 | On a batch without leaks, setting a different length ends with exactly two live allocations and keeps the protocol invariant: the old pair is freed before the new one is made. |
| `BatchLifecycle.StepKeepsConsistent` | RaycastJobBatch.cs:30-90 | Every admitted call keeps the protocol invariant. A job is orphaned exactly when the scheduling warning has been logged. A release under a running job implies an orphaned job. A pending job runs over two created buffers of one length. The live allocations are exactly the created buffers. |
| `BatchLifecycle.RunKeepsConsistent` | RaycastJobBatch.cs:30-90 | Any sequence of admitted calls keeps the protocol invariant. |
| `BatchLifecycle.RunKeepsLengthsAgreed` | RaycastJobBatch.cs:22-90 | Once the two lengths agree, any sequence of admitted calls keeps them in agreement. |
| `BatchLifecycle.ConstructedBatchJoinsBeforeFree` | RaycastJobBatch.cs:46-90 | Starting from construction, after any admitted calls the getter does not report -1, and the live allocations are exactly the created buffers, at most two: nothing leaks. A buffer has been released under a running job only if the scheduling warning was logged. Without that warning, no job is orphaned and no such release happened. |
| `BatchLifecycle.ScheduleTwiceThenDisposeReleasesUnderJob` | RaycastJobBatch.cs:59-90 | From construction, `Schedule`, `Schedule`, `Dispose` is admitted. It logs exactly one scheduling warning and releases the buffers while the first job may still run. |
| `RaycastJobs.RaycastAll` | RaycastJobBatch.cs:64 | A batched raycast job yields one hit per command, and hit `i` is the engine's answer to command `i`. |
| `RaycastJobs.Resize` | RaycastJobBatch.cs:80 | Resizing the caller's array gives a fresh array of the new length that keeps the old leading elements. |
| `RaycastJobs.RaycastJobBatch.Length` | RaycastJobBatch.cs:22-29 | The getter agrees with `LengthOf` on the batch's state. It is non-negative exactly when both buffers report one length. |
| `RaycastJobs.RaycastJobBatch.constructor` | RaycastJobBatch.cs:46-52 | A new batch follows `Constructed`. Both arrays are fresh, and the handle is the default one. |
| `RaycastJobs.RaycastJobBatch.SetLength` | RaycastJobBatch.cs:30-38 | The setter follows `LengthSet`, and the getter reads back `value`. An equal value changes no field and no result slot. A different value installs two fresh arrays of `value` elements with an idle handle and exactly two live allocations. A job that was pending was joined first: the old result array holds its writes. |
| `RaycastJobs.RaycastJobBatch.Schedule` | RaycastJobBatch.cs:59-65 | Scheduling follows `Scheduled`. The new handle replaces the old one and carries `RaycastAll` of the commands as they are now. |
| `RaycastJobs.RaycastJobBatch.Complete` | RaycastJobBatch.cs:67-71 | Completing follows `Completed`, and the handle becomes idle. After a pending job, the result slots equal that job's writes. With no job pending, nothing changes. |
| `RaycastJobs.RaycastJobBatch.CopyResults` | RaycastJobBatch.cs:73-83 | Copying out follows `ResultsCopied`. The returned array is never the result buffer itself, and it has the results' length, and element `i` equals result `i`. It is the caller's array when the lengths already match, and otherwise a fresh one, leaving the caller's array untouched. The results are not changed. |
| `RaycastJobs.RaycastJobBatch.ReleaseCommands` | RaycastJobBatch.cs:88 | Releasing the commands follows `CommandsReleased`, freeing one allocation. |
| `RaycastJobs.RaycastJobBatch.ReleaseResults` | RaycastJobBatch.cs:89 | Releasing the results follows `ResultsReleased`, freeing one allocation. |
| `RaycastJobs.RaycastJobBatch.Dispose` | RaycastJobBatch.cs:85-90 | Dispose follows `Disposed`. It keeps the same arrays, leaves the handle idle and no allocation alive. A job that was pending was joined before the release: the result slots hold its writes. With no job pending the result slots are untouched. |
| `RaycastJobs.CastRays` | RaycastJobBatch.cs:30-90 | Start from an empty batch and set the length to the number of rays. Fill command `i` with ray `i`, schedule, complete and copy into an empty array. The array then holds one hit per ray, and hit `i` is the engine's answer to ray `i`. Disposing twice afterwards is safe. |

## Left out

- The job system's internals are not modelled: how `RaycastCommand.ScheduleBatch`, `JobHandle.Complete` and `IsCompleted` work, and the chunking by `minCommandsPerJob`. A job is abstracted as the hits it writes, and they become visible at the join.
- `dependsOn` is not modelled. Chaining after another job only orders completion; it does not change what is written.
- Intermediate buffer states are not modelled. A job that finished in the background but was not joined still counts as pending, so the model warns where Unity's `IsCompleted` might already be true. Partial writes before the join are not modelled either: `CopyResults` during a pending job copies the slots as they stood before the job.
- When a second job is scheduled over a pending one, the first is recorded as orphaned and is never joined. For the contents, the model keeps only the newer job's writes. What overlapping jobs do to the buffers is up to the engine.
- `RaycastJobs.RaycastJobBatch.Schedule` requires two created buffers of one length. What the engine does with released or mismatched buffers is not part of this model.
- `BatchLifecycle.Scheduled` requires two created buffers of one length, for the same reason, and so does the `Schedule` case of `Admits`.
- `RaycastJobs.RaycastJobBatch.CopyResults` requires the results buffer to be created. Copying after `Dispose` is not modelled: the batch does not guard it, and what the released native array then does is up to Unity. The caller's array is never null in the model, so the null reference thrown when a null array's length is read is not modelled either.
- `BatchLifecycle.ResultsCopied` requires the results buffer to be created, for the same reason. A copy with a null caller array is not modelled.
- Raycast geometry and the floating-point contents of `RaycastCommand` and `RaycastHit` are not modelled. Elements are opaque values.
- The zero-initialisation of a fresh command buffer is not stated. Fresh command and result slots both hold unspecified values.
- Allocator kinds, allocation failure, and the exception the native array constructor raises for a negative length are left out. The constructor requires `length >= 0`.
- `RaycastJobs.RaycastJobBatch.SetLength` requires `value >= 0` unless `value` equals the current length, since only then does it skip the native array constructor. For a negative `value` that differs from `Length`, the code first runs `Dispose` (joining the job and releasing both buffers) and only then does the constructor throw; that disposed-then-throwing path is not modelled.
- `BatchLifecycle.LengthSet` has the same requirement on `value`, for the same reason.
- `RaycastJobs.RaycastJobBatch.CopyResults` requires the caller's array to be a different object from the result buffer. In C# the two have different types, so they can never be the same object.
- The length a released native array reports is not visible from `RaycastJobBatch`. It is taken to be 0.
- C# struct copy semantics are not modelled: a copy shares the native arrays but not the handle. The model has a single owning object. The default struct value, whose buffers were never created, is not modelled either.
- Logging is kept only as a ghost warning log, and the `DEBUG` condition is not modelled. Release builds log nothing.
