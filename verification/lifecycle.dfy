/**
 * The lifecycle of a raycast job batch as its caller sees it.
 *
 * Each of the two native buffers (commands and results) is either created
 * with a length or released; the job handle is either idle (the default
 * handle) or pending (a scheduled job not yet joined); debug builds log a
 * warning on two kinds of misuse.  Every public operation of RaycastJobBatch
 * is one transition of this state, and the class in module RaycastJobs is
 * proved to follow these transitions exactly.
 *
 * Four pieces of ghost bookkeeping make the protocol checkable: the
 * warning log; whether some job was orphaned, that is, its handle was
 * overwritten by a later `Schedule` before it was joined (nothing ever joins
 * it afterwards); whether a buffer was ever released while a job had not
 * been joined, which frees memory the engine may still write; and the number
 * of native allocations made and not yet released, which exceeds the number
 * of created buffers exactly when a buffer has leaked.
 */
module BatchLifecycle {

  /** One native buffer: created with a length, or released. */
  datatype Buffer = Released | Created(length: nat)

  /** The two diagnostics the batch logs in debug builds. */
  datatype Warning = SchedulingWhenNotComplete | CopyingWhenNotComplete

  /** The state of one batch, as far as the protocol is concerned. */
  datatype BatchState = BatchState(
    commands: Buffer,
    results: Buffer,
    pending: bool,
    orphaned: bool,
    warnings: seq<Warning>,
    releasedUnderJob: bool,
    live: int)

  /** How many of the two buffers are created. */
  function CreatedCount(s: BatchState): nat
  {
    (if s.commands.Created? then 1 else 0) + (if s.results.Created? then 1 else 0)
  }

  /**
   * The length a buffer reports.  What a released NativeArray reports is not
   * visible from the batch; this model takes it to be 0.
   */
  function ReportedLength(b: Buffer): nat
  {
    if b.Created? then b.length else 0
  }

  /** The `Length` getter: the common length of the buffers, or -1 when they differ. */
  function LengthOf(s: BatchState): (n: int)
    ensures n >= -1
    ensures n >= 0 <==> ReportedLength(s.commands) == ReportedLength(s.results)
    ensures n >= 0 ==> n == ReportedLength(s.commands) && n == ReportedLength(s.results)
  {
    var numCommands := ReportedLength(s.commands);
    var numResults := ReportedLength(s.results);
    if numCommands == numResults then numCommands else -1
  }

  /** The constructor: both buffers created with `length`, default handle, nothing logged. */
  function Constructed(length: nat): (s: BatchState)
    ensures LengthOf(s) == length
    ensures s.commands.Created? && s.results.Created? && !s.pending
    ensures !s.orphaned && s.warnings == [] && !s.releasedUnderJob
    ensures s.live == 2
  {
    BatchState(Created(length), Created(length), false, false, [], false, 2)
  }

  /**
   * `Complete`: joins the job the handle holds, if any, and resets the handle
   * to the default one.  An orphaned job is not joined.
   */
  function Completed(s: BatchState): (r: BatchState)
    ensures !r.pending
    ensures r.commands == s.commands && r.results == s.results
    ensures r.orphaned == s.orphaned
    ensures r.warnings == s.warnings && r.releasedUnderJob == s.releasedUnderJob
    ensures r.live == s.live
    ensures !s.pending ==> r == s
  {
    s.(pending := false)
  }

  /**
   * `commands.Dispose()`: only legal on a created buffer; noted when a job
   * has not been joined, whether it is pending or orphaned.
   */
  function CommandsReleased(s: BatchState): (r: BatchState)
    requires s.commands.Created?
    ensures r.commands == Released && r.results == s.results
    ensures r.pending == s.pending && r.orphaned == s.orphaned && r.warnings == s.warnings
    ensures r.releasedUnderJob <==> s.releasedUnderJob || s.pending || s.orphaned
    ensures r.live == s.live - 1
  {
    s.(commands := Released, releasedUnderJob := s.releasedUnderJob || s.pending || s.orphaned,
       live := s.live - 1)
  }

  /**
   * `results.Dispose()`: only legal on a created buffer; noted when a job
   * has not been joined, whether it is pending or orphaned.
   */
  function ResultsReleased(s: BatchState): (r: BatchState)
    requires s.results.Created?
    ensures r.results == Released && r.commands == s.commands
    ensures r.pending == s.pending && r.orphaned == s.orphaned && r.warnings == s.warnings
    ensures r.releasedUnderJob <==> s.releasedUnderJob || s.pending || s.orphaned
    ensures r.live == s.live - 1
  {
    s.(results := Released, releasedUnderJob := s.releasedUnderJob || s.pending || s.orphaned,
       live := s.live - 1)
  }

  /**
   * `Dispose`: complete first, then release each buffer that is still created.
   * Because the join comes first, the job the handle holds is never running
   * when a buffer is released; only an orphaned job can be.
   */
  function Disposed(s: BatchState): (r: BatchState)
    ensures r.commands == Released && r.results == Released && !r.pending
    ensures r.orphaned == s.orphaned && r.warnings == s.warnings
    ensures r.releasedUnderJob <==>
      s.releasedUnderJob || (s.orphaned && (s.commands.Created? || s.results.Created?))
    ensures !s.orphaned ==> r.releasedUnderJob == s.releasedUnderJob
    ensures r.live == s.live - CreatedCount(s)
    ensures LengthOf(r) == 0
  {
    var idle := Completed(s);
    var afterCommands := if idle.commands.Created? then CommandsReleased(idle) else idle;
    if afterCommands.results.Created? then ResultsReleased(afterCommands) else afterCommands
  }

  /**
   * The `Length` setter: nothing happens when `value` is the current length;
   * otherwise the batch is disposed (joining the job, then releasing every
   * created buffer) and both buffers are allocated anew with `value`
   * elements.  A negative `value` is only legal when it equals the current
   * length (the -1 of a mismatched pair): any other reaches the NativeArray
   * constructor, which rejects it.
   */
  function LengthSet(s: BatchState, value: int): (r: BatchState)
    requires value >= 0 || value == LengthOf(s)
    ensures LengthOf(r) == value
    ensures LengthOf(s) == value ==> r == s
    ensures LengthOf(s) != value ==>
      value >= 0 && r.commands == Created(value) && r.results == Created(value) && !r.pending
    ensures LengthOf(s) != value ==> r.live == s.live - CreatedCount(s) + 2
    ensures r.orphaned == s.orphaned && r.warnings == s.warnings
    ensures r.releasedUnderJob <==>
      s.releasedUnderJob || (LengthOf(s) != value && s.orphaned && CreatedCount(s) > 0)
  {
    if LengthOf(s) == value then s
    else
      var disposed := Disposed(s);
      disposed.(commands := Created(value), results := Created(value), live := disposed.live + 2)
  }

  /**
   * `Schedule`: a warning when the current job is not complete, then the new
   * job replaces the handle.  The new job does not wait for the old one, and
   * the old one is no longer reachable: it becomes orphaned.  The engine
   * needs two created buffers of one length.
   */
  function Scheduled(s: BatchState): (r: BatchState)
    requires s.commands.Created? && s.commands == s.results
    ensures r.pending
    ensures r.orphaned <==> s.orphaned || s.pending
    ensures r.warnings == s.warnings + (if s.pending then [SchedulingWhenNotComplete] else [])
    ensures r.commands == s.commands && r.results == s.results
    ensures r.releasedUnderJob == s.releasedUnderJob && r.live == s.live
  {
    var logged := if s.pending then s.warnings + [SchedulingWhenNotComplete] else s.warnings;
    s.(pending := true, orphaned := s.orphaned || s.pending, warnings := logged)
  }

  /** `CopyResults`: a warning when the current job is not complete; nothing else changes. */
  function ResultsCopied(s: BatchState): (r: BatchState)
    requires s.results.Created?
    ensures r.warnings == s.warnings + (if s.pending then [CopyingWhenNotComplete] else [])
    ensures r == s.(warnings := r.warnings)
  {
    if s.pending then s.(warnings := s.warnings + [CopyingWhenNotComplete]) else s
  }

  /* ---------------------------------------------------------------------- */
  /* Properties of single transitions                                        */
  /* ---------------------------------------------------------------------- */

  /** Calling `Complete` twice is the same as calling it once. */
  lemma CompleteIsIdempotent(s: BatchState)
    ensures Completed(Completed(s)) == Completed(s)
  {
  }

  /** Calling `Dispose` twice is the same as calling it once: the second call releases nothing. */
  lemma DisposeIsIdempotent(s: BatchState)
    ensures Disposed(Disposed(s)) == Disposed(s)
  {
  }

  /** Setting the same length twice: the second call is a no-op. */
  lemma SetLengthIsIdempotent(s: BatchState, value: int)
    requires value >= 0 || value == LengthOf(s)
    ensures LengthSet(LengthSet(s, value), value) == LengthSet(s, value)
  {
  }

  /**
   * Because the getter reports -1 for a mismatched pair, setting any
   * non-negative length on such a pair reallocates both buffers and so
   * restores equal lengths.
   */
  lemma MismatchAlwaysReallocates(s: BatchState, value: nat)
    requires ReportedLength(s.commands) != ReportedLength(s.results)
    ensures LengthSet(s, value).commands == Created(value)
    ensures LengthSet(s, value).results == Created(value)
  {
  }

  /**
   * Under the length a released buffer is taken to report, setting the
   * length to 0 after `Dispose` is a no-op and leaves both buffers released.
   */
  lemma SetLengthZeroAfterDisposeKeepsReleased(s: BatchState)
    ensures LengthSet(Disposed(s), 0) == Disposed(s)
    ensures LengthSet(Disposed(s), 0).commands == Released
  {
  }

  /* ---------------------------------------------------------------------- */
  /* Sequences of calls through the public surface                          */
  /* ---------------------------------------------------------------------- */

  /** One call of the public surface after construction. */
  datatype Call = SetLength(value: int) | Schedule | Complete | CopyResults | Dispose

  /** What each call demands of the batch it is made on. */
  predicate Admits(s: BatchState, c: Call)
  {
    match c
    case SetLength(value) => value >= 0 || value == LengthOf(s)
    case Schedule => s.commands.Created? && s.commands == s.results
    case Complete => true
    case CopyResults => s.results.Created?
    case Dispose => true
  }

  function Step(s: BatchState, c: Call): BatchState
    requires Admits(s, c)
  {
    match c
    case SetLength(value) => LengthSet(s, value)
    case Schedule => Scheduled(s)
    case Complete => Completed(s)
    case CopyResults => ResultsCopied(s)
    case Dispose => Disposed(s)
  }

  /** Every call of `calls`, made in order from `s`, is admitted where it is made. */
  predicate AdmitsAll(s: BatchState, calls: seq<Call>)
    decreases |calls|
  {
    calls == [] || (Admits(s, calls[0]) && AdmitsAll(Step(s, calls[0]), calls[1..]))
  }

  function Run(s: BatchState, calls: seq<Call>): BatchState
    requires AdmitsAll(s, calls)
    decreases |calls|
  {
    if calls == [] then s else Run(Step(s, calls[0]), calls[1..])
  }

  /**
   * The protocol invariant.  A job is orphaned exactly when the debug
   * warning about scheduling over an unfinished job has been logged; a
   * buffer has been released under a running job only if some job was
   * orphaned; a pending job runs over two created buffers of one length;
   * and every live native allocation is a created buffer, so none has leaked.
   */
  ghost predicate Consistent(s: BatchState)
  {
    && (s.orphaned <==> SchedulingWhenNotComplete in s.warnings)
    && (s.releasedUnderJob ==> s.orphaned)
    && (s.pending ==> s.commands.Created? && s.commands == s.results)
    && s.live == CreatedCount(s)
  }

  /**
   * The setter frees before it allocates: on a batch without leaks, a
   * reallocation ends with exactly the two new buffers alive.
   */
  lemma SetLengthReallocatesWithoutLeak(s: BatchState, value: int)
    requires Consistent(s) && (value >= 0 || value == LengthOf(s))
    requires LengthOf(s) != value
    ensures LengthSet(s, value).live == 2
    ensures Consistent(LengthSet(s, value))
  {
  }

  /** Each admitted call keeps the protocol invariant. */
  lemma StepKeepsConsistent(s: BatchState, c: Call)
    requires Consistent(s) && Admits(s, c)
    ensures Consistent(Step(s, c))
  {
  }

  /** Any sequence of admitted calls keeps the protocol invariant. */
  lemma {:induction false} RunKeepsConsistent(s: BatchState, calls: seq<Call>)
    requires Consistent(s) && AdmitsAll(s, calls)
    ensures Consistent(Run(s, calls))
    decreases |calls|
  {
    if calls != [] {
      StepKeepsConsistent(s, calls[0]);
      RunKeepsConsistent(Step(s, calls[0]), calls[1..]);
    }
  }

  /** Once the lengths agree, no sequence of admitted calls makes them disagree. */
  lemma {:induction false} RunKeepsLengthsAgreed(s: BatchState, calls: seq<Call>)
    requires LengthOf(s) >= 0 && AdmitsAll(s, calls)
    ensures LengthOf(Run(s, calls)) >= 0
    decreases |calls|
  {
    if calls != [] {
      RunKeepsLengthsAgreed(Step(s, calls[0]), calls[1..]);
    }
  }

  /**
   * From construction, whatever admitted calls follow: the getter never
   * reports a mismatch, no native allocation leaks (at most the two
   * created buffers are alive), and a buffer is released under a job that
   * may still run only if the debug warning about scheduling over an
   * unfinished job was logged (join before free holds for every run without
   * it).
   */
  lemma ConstructedBatchJoinsBeforeFree(length: nat, calls: seq<Call>)
    requires AdmitsAll(Constructed(length), calls)
    ensures LengthOf(Run(Constructed(length), calls)) >= 0
    ensures Run(Constructed(length), calls).live == CreatedCount(Run(Constructed(length), calls)) <= 2
    ensures Run(Constructed(length), calls).releasedUnderJob ==>
      SchedulingWhenNotComplete in Run(Constructed(length), calls).warnings
    ensures SchedulingWhenNotComplete !in Run(Constructed(length), calls).warnings ==>
      !Run(Constructed(length), calls).orphaned && !Run(Constructed(length), calls).releasedUnderJob
  {
    RunKeepsConsistent(Constructed(length), calls);
    RunKeepsLengthsAgreed(Constructed(length), calls);
  }

  /**
   * The hazard the warning announces: scheduling twice and then disposing
   * joins only the second job, and releases both buffers while the first
   * may still be running.
   */
  lemma ScheduleTwiceThenDisposeReleasesUnderJob(length: nat)
    ensures AdmitsAll(Constructed(length), [Schedule, Schedule, Dispose])
    ensures Run(Constructed(length), [Schedule, Schedule, Dispose]).releasedUnderJob
    ensures Run(Constructed(length), [Schedule, Schedule, Dispose]).warnings == [SchedulingWhenNotComplete]
  {
  }
}
