/**
 * RaycastJobBatch: a batch of raycasts scheduled as one job.  It owns two
 * index-aligned native buffers, `commands` (the queries the caller fills in)
 * and `results` (the hits the engine writes), and the handle of the job that
 * was last scheduled over them.
 *
 * The parallel work belongs to the engine.  From the caller's side the batch
 * is a sequential state machine, and every method here is proved to follow
 * the matching transition of module BatchLifecycle, while its own contract
 * says what happens to the buffers' contents.
 */
module RaycastJobs {
  import opened BatchLifecycle

  /** The geometry of one query (origin, direction, distance, layer mask): engine data. */
  type RayGeometry(0)

  /** One element of the command buffer; the model never looks inside it. */
  datatype RaycastCommand = RaycastCommand(geometry: RayGeometry)

  /** What the engine reports for one query (hit flag, point, normal, distance, collider). */
  type HitRecord(0)

  /** One element of the result buffer; the model never looks inside it. */
  datatype RaycastHit = RaycastHit(record: HitRecord)

  /**
   * A job handle.  The default handle is `Idle`; a scheduled job that has not
   * been joined is `Pending`, carrying the hits that job writes into the
   * result buffer, which become readable once it is joined.
   */
  datatype JobHandle = Idle | Pending(writes: seq<RaycastHit>)

  /**
   * What a batched raycast job computes: hit `i` is the engine's answer to
   * command `i`.  The engine itself is the parameter `raycast`.
   */
  function RaycastAll(raycast: RaycastCommand -> RaycastHit, commands: seq<RaycastCommand>): (hits: seq<RaycastHit>)
    ensures |hits| == |commands|
    ensures forall i :: 0 <= i < |commands| ==> hits[i] == raycast(commands[i])
  {
    if commands == [] then []
    else [raycast(commands[0])] + RaycastAll(raycast, commands[1..])
  }

  /**
   * `System.Array.Resize` when the length changes: a new array of
   * `newLength` elements that starts with the old array's elements.
   */
  method Resize(a: array<RaycastHit>, newLength: nat) returns (b: array<RaycastHit>)
    ensures fresh(b) && b.Length == newLength
    ensures forall i :: 0 <= i < a.Length && i < newLength ==> b[i] == a[i]
  {
    b := new RaycastHit[newLength];
    forall i | 0 <= i < a.Length && i < newLength {
      b[i] := a[i];
    }
  }

  class RaycastJobBatch {
    var commands: array<RaycastCommand>
    var results: array<RaycastHit>
    /** `commands.IsCreated` */
    var commandsCreated: bool
    /** `results.IsCreated` */
    var resultsCreated: bool
    var handle: JobHandle
    /** The warnings logged so far (debug builds). */
    ghost var warnings: seq<Warning>
    /** Whether a job's handle was ever overwritten before the job was joined. */
    ghost var orphaned: bool
    /** Whether a buffer was ever released while a job had not been joined. */
    ghost var releasedUnderJob: bool
    /** The native allocations made by this batch and not yet released. */
    ghost var live: int

    /** The state of this batch as the protocol sees it. */
    ghost function Lifecycle(): BatchState
      reads this
    {
      BatchState(
        if commandsCreated then Created(commands.Length) else Released,
        if resultsCreated then Created(results.Length) else Released,
        handle.Pending?,
        orphaned,
        warnings,
        releasedUnderJob,
        live)
    }

    /** The protocol invariant, and a pending job writes exactly one hit per result slot. */
    ghost predicate Valid()
      reads this
    {
      && Consistent(Lifecycle())
      && (handle.Pending? ==> |handle.writes| == results.Length)
    }

    /** The `Length` getter: the common length of both buffers, or -1 when they differ. */
    function Length(): (n: int)
      reads this
      ensures n == LengthOf(Lifecycle())
      ensures n >= 0 <==> ReportedLength(Lifecycle().commands) == ReportedLength(Lifecycle().results)
    {
      var numCommands := if commandsCreated then commands.Length else 0;
      var numResults := if resultsCreated then results.Length else 0;
      if numCommands == numResults then numCommands else -1
    }

    /** Both buffers created with `length` elements; the handle is the default one. */
    constructor (length: int)
      requires length >= 0
      ensures Valid()
      ensures Lifecycle() == Constructed(length)
      ensures fresh(commands) && fresh(results) && handle == Idle
    {
      commands := new RaycastCommand[length];
      commandsCreated := true;
      results := new RaycastHit[length];
      resultsCreated := true;
      live := 2;
      handle := Idle;
      orphaned := false;
      warnings := [];
      releasedUnderJob := false;
    }

    /**
     * The `Length` setter.  When `value` is the current length nothing
     * changes.  Otherwise the batch is disposed (which joins the job first,
     * so the old results hold its writes, and then releases both old
     * buffers) and two fresh buffers of `value` elements take their place.
     */
    method SetLength(value: int)
      requires Valid()
      requires value >= 0 || value == Length()
      modifies this, results
      ensures Valid()
      ensures Lifecycle() == LengthSet(old(Lifecycle()), value)
      ensures Length() == value
      ensures old(Length()) == value ==> unchanged(this) && unchanged(results)
      ensures old(Length()) != value ==>
        fresh(commands) && fresh(results) && handle == Idle
        && commandsCreated && resultsCreated
        && commands.Length == value && results.Length == value
      ensures old(Length()) != value && old(handle).Pending? ==> old(results)[..] == old(handle).writes
      ensures old(Length()) != value ==> live == 2
    {
      if Length() != value {
        Dispose();
        commands := new RaycastCommand[value];
        commandsCreated := true;
        live := live + 1;
        results := new RaycastHit[value];
        resultsCreated := true;
        live := live + 1;
      }
    }

    /**
     * Schedule one job that casts every command into its result slot.  A
     * warning is logged when the current job is not complete; the new job's
     * handle then replaces the old one.  `minCommandsPerJob` only tunes how
     * the engine splits the work.
     */
    method Schedule(raycast: RaycastCommand -> RaycastHit, minCommandsPerJob: int := 32)
      requires Valid()
      requires commandsCreated && resultsCreated && commands.Length == results.Length
      modifies this`handle, this`orphaned, this`warnings
      ensures Valid()
      ensures Lifecycle() == Scheduled(old(Lifecycle()))
      ensures handle == Pending(RaycastAll(raycast, commands[..]))
    {
      if handle.Pending? {
        warnings := warnings + [SchedulingWhenNotComplete];
        orphaned := true;
      }
      handle := Pending(RaycastAll(raycast, commands[..]));
    }

    /**
     * Wait for the job and reset the handle to the default one.  After a
     * pending job, every result slot holds what that job wrote; when no job
     * is pending, nothing changes.
     */
    method Complete()
      requires Valid()
      modifies this`handle, results
      ensures Valid()
      ensures Lifecycle() == Completed(old(Lifecycle()))
      ensures handle == Idle
      ensures old(handle).Pending? ==> results[..] == old(handle).writes
      ensures !old(handle).Pending? ==> unchanged(this) && unchanged(results)
    {
      if handle.Pending? {
        var writes := handle.writes;
        forall i | 0 <= i < results.Length {
          results[i] := writes[i];
        }
      }
      handle := Idle;
    }

    /**
     * Copy the result buffer into the caller's array, given back as `copy`.
     * The array is replaced by a resized one only when its length differs.
     * A warning is logged when the current job is not complete; the copy is
     * made anyway, of the slots as they stand.
     */
    method CopyResults(destination: array<RaycastHit>) returns (copy: array<RaycastHit>)
      requires Valid() && resultsCreated
      requires destination != results
      modifies this`warnings, destination
      ensures Valid()
      ensures Lifecycle() == ResultsCopied(old(Lifecycle()))
      ensures copy != results
      ensures copy.Length == results.Length
      ensures forall i :: 0 <= i < results.Length ==> copy[i] == results[i]
      ensures results[..] == old(results[..])
      ensures destination.Length == results.Length ==> copy == destination
      ensures destination.Length != results.Length ==> fresh(copy) && unchanged(destination)
    {
      if handle.Pending? {
        warnings := warnings + [CopyingWhenNotComplete];
      }
      copy := destination;
      if destination.Length != results.Length {
        copy := Resize(destination, results.Length);
      }
      forall i | 0 <= i < results.Length {
        copy[i] := results[i];
      }
    }

    /** `commands.Dispose()`, which the native array allows only once. */
    method ReleaseCommands()
      requires commandsCreated
      modifies this`commandsCreated, this`releasedUnderJob, this`live
      ensures Lifecycle() == CommandsReleased(old(Lifecycle()))
    {
      commandsCreated := false;
      live := live - 1;
      releasedUnderJob := releasedUnderJob || handle.Pending? || orphaned;
    }

    /** `results.Dispose()`, which the native array allows only once. */
    method ReleaseResults()
      requires resultsCreated
      modifies this`resultsCreated, this`releasedUnderJob, this`live
      ensures Lifecycle() == ResultsReleased(old(Lifecycle()))
    {
      resultsCreated := false;
      live := live - 1;
      releasedUnderJob := releasedUnderJob || handle.Pending? || orphaned;
    }

    /**
     * Complete the job, then release each buffer that is still created:
     * the job the handle holds has written every result slot before the
     * buffers go.  Calling it again is a no-op.
     */
    method Dispose()
      requires Valid()
      modifies this, results
      ensures Valid()
      ensures Lifecycle() == Disposed(old(Lifecycle()))
      ensures commands == old(commands) && results == old(results) && handle == Idle
      ensures old(handle).Pending? ==> results[..] == old(handle).writes
      ensures !old(handle).Pending? ==> unchanged(results)
      ensures live == 0
    {
      Complete();
      if commandsCreated {
        ReleaseCommands();
      }
      if resultsCreated {
        ReleaseResults();
      }
    }
  }

  /**
   * A whole round: an empty batch is grown to one command per ray, filled
   * with `rays` in order, scheduled, completed and copied into an empty
   * array; then it is disposed twice.  Hit `i` of the copy is the engine's
   * answer to ray `i`.
   */
  method CastRays(raycast: RaycastCommand -> RaycastHit, rays: seq<RaycastCommand>) returns (hits: array<RaycastHit>)
    ensures hits.Length == |rays|
    ensures forall i :: 0 <= i < |rays| ==> hits[i] == raycast(rays[i])
  {
    var batch := new RaycastJobBatch(0);
    batch.SetLength(|rays|);
    for i := 0 to |rays|
      modifies batch.commands
      invariant forall j :: 0 <= j < i ==> batch.commands[j] == rays[j]
    {
      batch.commands[i] := rays[i];
    }
    assert batch.commands[..] == rays;
    batch.Schedule(raycast);
    batch.Complete();
    var empty := new RaycastHit[0];
    hits := batch.CopyResults(empty);
    batch.Dispose();
    batch.Dispose();
    assert !batch.commandsCreated && !batch.resultsCreated && !batch.releasedUnderJob;
  }
}
