/** `reset_offline` of src/agent_state/store.rs: a generation swap that survives a crash at any of its steps. */
module Reset {
  import opened Base
  import opened Records
  import opened Protocol
  import opened Regions
  import opened Opening

  predicate ValidMeta(m: StateMeta) {
    match m.status
    case Ready => m.target.None?
    case Resetting => m.target.Some? && m.target.value != m.generation
  }

  /** Ready names no target; resetting names another generation as its target. */
  ghost predicate SoundMeta(m: StateMeta) {
    (m.status == Ready && m.target == None) || (m.status == Resetting && m.target.Some? && m.target != Some(m.generation))
  }

  lemma ValidMetaIsSound(m: StateMeta)
    ensures ValidMeta(m) <==> SoundMeta(m)
  {
  }

  /** Nothing is running and nothing is being dispatched. */
  predicate Quiescent(d: Disk) {
    && (forall id :: id in d.runs ==> !d.runs[id].Active())
    && (forall id :: id in d.operations ==> !d.operations[id].InFlight())
  }

  /** Every run is resolved or ended, and every operation was settled one way or another. */
  ghost predicate NothingGoesOn(d: Disk) {
    && (forall id :: id in d.runs ==> d.runs[id].outcome == Completed || d.runs[id].phase == Ended)
    && (forall id :: id in d.operations ==> d.operations[id].state != Prepared && d.operations[id].state != DispatchStarted)
  }

  lemma QuiescentIsNothing(d: Disk)
    ensures Quiescent(d) <==> NothingGoesOn(d)
  {
    assert forall id :: id in d.runs ==> (d.runs[id].Active() <==> !(d.runs[id].outcome == Completed || d.runs[id].phase == Ended));
    assert forall id :: id in d.operations ==>
        (d.operations[id].InFlight() <==> !(d.operations[id].state != Prepared && d.operations[id].state != DispatchStarted));
  }

  function Emptied(g: Generation): Disk {
    Disk(StateMeta(Ready, g, None), map[], map[], map[], map[])
  }

  /** The call goes ahead; `drawn` is the random generation it would use for a fresh reset. */
  ghost predicate Resets(c: Codec, d: Disk, expected: Generation, drawn: Generation) {
    && ValidMeta(d.meta)
    && d.meta.generation == expected
    && (d.meta.status == Ready ==> Listable(c, d) && Quiescent(d) && drawn != expected)
  }

  /** The generation it installs: the one an earlier attempt chose, or the one just drawn. */
  function Goal(d: Disk, drawn: Generation): Generation {
    if d.meta.target.Some? then d.meta.target.value else drawn
  }

  /** Why `ensure_reset_quiescent` refuses: runs are listed before any is asked about, operations are asked about as they are visited. */
  ghost predicate NotQuiescent(c: Codec, d: Disk, e: StoreError) {
    if |d.runs| > RUN_STORE_MAX_RECORDS || !RunsReadable(c, d) then RunsRefused(c, d, e)
    else if exists id :: id in d.runs && d.runs[id].Active() then e == RecoveryNotAllowed
    else OperationsRefused(c, d, e) || (e == RecoveryNotAllowed && exists id :: id in d.operations && d.operations[id].InFlight())
  }

  /** Why the call refuses, check by check. */
  ghost predicate Refusal(c: Codec, d: Disk, expected: Generation, drawn: Generation, e: StoreError) {
    if !ValidMeta(d.meta) then e == Corrupt
    else if d.meta.generation != expected then e == StalePrecondition
    else d.meta.status == Ready && if Listable(c, d) && Quiescent(d) then e == Invalid && drawn == expected else NotQuiescent(c, d, e)
  }

  // ---------------------------------------------------------------- crash points

  predicate PartOf<K(==), V(==)>(part: map<K, V>, whole: map<K, V>) {
    forall k :: k in part ==> k in whole && part[k] == whole[k]
  }

  /** The marker names the target, and some of the old contents may be gone. */
  ghost predicate Marked(origin: Disk, target: Generation, d: Disk) {
    && d.meta == StateMeta(Resetting, origin.meta.generation, Some(target))
    && PartOf(d.runs, origin.runs) && PartOf(d.operations, origin.operations)
    && PartOf(d.prompts, origin.prompts) && PartOf(d.artifacts, origin.artifacts)
  }

  /** Where a reset of `origin` towards `target` can be when the machine stops. */
  ghost predicate CrashPoint(origin: Disk, target: Generation, d: Disk) {
    d == origin || Marked(origin, target, d) || d == Emptied(target)
  }

  /** One attempt that may be interrupted anywhere: it is refused, or leaves a crash point on the way to its goal. */
  ghost predicate Attempt(c: Codec, d: Disk, expected: Generation, drawn: Generation, d': Disk) {
    if Resets(c, d, expected, drawn) then CrashPoint(d, Goal(d, drawn), d') else d' == d
  }

  /** The reset of `origin` towards `target` began. */
  ghost predicate Reached(origin: Disk, target: Generation, d: Disk) {
    Marked(origin, target, d) || d == Emptied(target)
  }

  /** Crash points of a resumed reset are crash points of the first. */
  lemma CrashPointsCompose(origin: Disk, target: Generation, middle: Disk, d: Disk)
    requires Marked(origin, target, middle) && CrashPoint(middle, target, d)
    ensures Reached(origin, target, d)
  {
    if Marked(middle, target, d) {
      assert PartOf(d.runs, origin.runs);
    }
  }

  /** A retry with the old generation resumes the reset that began, and is stale once that is complete. */
  lemma RetryResumes(c: Codec, origin: Disk, target: Generation, d: Disk, drawn: Generation)
    requires target != origin.meta.generation && Reached(origin, target, d)
    ensures Resets(c, d, origin.meta.generation, drawn) <==> Marked(origin, target, d)
    ensures Marked(origin, target, d) ==> Goal(d, drawn) == target
  {
  }

  lemma AttemptKeepsTarget(c: Codec, origin: Disk, target: Generation, d: Disk, drawn: Generation, d': Disk)
    requires target != origin.meta.generation && Reached(origin, target, d)
    requires Attempt(c, d, origin.meta.generation, drawn, d')
    ensures Reached(origin, target, d')
    ensures d == Emptied(target) ==> d' == Emptied(target)
  {
    hide Resets, PartOf;
    RetryResumes(c, origin, target, d, drawn);
    if Marked(origin, target, d) {
      CrashPointsCompose(origin, target, d, d');
    }
  }

  /** Attempts one after the other, each interrupted somewhere, `drawn[i]` being what attempt i would draw. */
  ghost predicate Attempts(c: Codec, expected: Generation, drawn: seq<Generation>, stops: seq<Disk>) {
    |stops| == |drawn| + 1 && forall i :: 0 <= i < |drawn| ==> Attempt(c, stops[i], expected, drawn[i], stops[i + 1])
  }

  /**
   * However many attempts are interrupted, the first marker decides: from then on the directory is on its way
   * to that one target, and once it has arrived no further attempt touches it.
   */
  lemma {:induction false} FirstMarkerDecides(c: Codec, origin: Disk, target: Generation, drawn: seq<Generation>, stops: seq<Disk>, i: nat, j: nat)
    requires target != origin.meta.generation && Attempts(c, origin.meta.generation, drawn, stops)
    requires i <= j < |stops| && Reached(origin, target, stops[i])
    ensures Reached(origin, target, stops[j])
    ensures stops[i] == Emptied(target) ==> stops[j] == Emptied(target)
    ensures j < |drawn| && Resets(c, stops[j], origin.meta.generation, drawn[j]) ==> Goal(stops[j], drawn[j]) == target
    decreases j - i
  {
    hide Resets, Attempt, Marked;
    if i < j {
      FirstMarkerDecides(c, origin, target, drawn, stops, i, j - 1);
      AttemptKeepsTarget(c, origin, target, stops[j - 1], drawn[j - 1], stops[j]);
    }
    if j < |drawn| {
      RetryResumes(c, origin, target, stops[j], drawn[j]);
      EmptiedIsStale(c, target, origin.meta.generation, drawn[j]);
    }
  }

  lemma EmptiedIsStale(c: Codec, target: Generation, expected: Generation, drawn: Generation)
    requires target != expected
    ensures !Resets(c, Emptied(target), expected, drawn)
  {
  }

  /** From a ready directory, whatever the interruptions: nothing happened yet, or one drawn target is being installed or is. */
  lemma {:induction false} EveryStopIsCrashPoint(c: Codec, drawn: seq<Generation>, stops: seq<Disk>, j: nat) returns (target: Option<Generation>)
    requires j < |stops| && Attempts(c, stops[0].meta.generation, drawn, stops)
    requires ValidMeta(stops[0].meta) && stops[0].meta.status == Ready
    ensures target.None? ==> stops[j] == stops[0]
    ensures target.Some? ==>
              && target.value in drawn && target.value != stops[0].meta.generation
              && Resets(c, stops[0], stops[0].meta.generation, target.value)
              && Reached(stops[0], target.value, stops[j])
  {
    hide Marked, Listable, Quiescent;
    target := None;
    if j > 0 {
      target := EveryStopIsCrashPoint(c, drawn, stops, j - 1);
      assert Attempt(c, stops[j - 1], stops[0].meta.generation, drawn[j - 1], stops[j]);
      if target.Some? {
        AttemptKeepsTarget(c, stops[0], target.value, stops[j - 1], drawn[j - 1], stops[j]);
      } else if stops[j] != stops[0] {
        target := Some(drawn[j - 1]);
      }
    }
  }

  /** A directory on its way is refused by opening; one that arrived opens, empty. */
  lemma OnlyFinishedOpens(c: Codec, origin: Disk, target: Generation, d: Disk)
    requires Reached(origin, target, d)
    ensures Opens(c, d) <==> d == Emptied(target)
    ensures d != Emptied(target) ==> forall e :: OpenRefused(c, d, e) <==> e == StateUninitialized
    ensures d == Emptied(target) ==> BaseInv(c, d)
  {
    hide PartOf, RunsInv, OperationsInv, PromptsInv, BodiesInv;
    GenesisIsRecoverable(c, target);
    if d == Emptied(target) {
      assert d == Genesis(target).disk;
      assert StagedIds(d.operations) == {} && Cleaned(d) == d;
    }
  }

  class StateDirectory {
    const codec: Codec
    var disk: Disk

    /** Every state the directory was in after one of its durable steps. */
    ghost var trace: seq<Disk>

    constructor (codec: Codec, disk: Disk)
      ensures this.codec == codec && this.disk == disk && trace == [disk]
    {
      this.codec := codec;
      this.disk := disk;
      trace := [disk];
    }

    method Durable(next: Disk)
      modifies this
      ensures disk == next && trace == old(trace) + [next]
    {
      disk := next;
      trace := trace + [next];
    }

    /** `ensure_reset_quiescent`. */
    method EnsureResetQuiescent() returns (r: Result<()>)
      ensures r.Ok? <==> Listable(codec, disk) && Quiescent(disk)
      ensures r.Err? ==> NotQuiescent(codec, disk, r.error)
      ensures r == Err(RecoveryNotAllowed) ==> !Quiescent(disk)
    {
      hide RunsReadable, OperationsReadable, RunsRefused, OperationsRefused;
      ReadingRefusals(codec, disk, RecoveryNotAllowed);
      var listed := ListRuns(codec, disk);
      if listed.Err? {
        return listed;
      }
      if exists id :: id in disk.runs && disk.runs[id].Active() {
        return Err(RecoveryNotAllowed);
      }
      r := VisitOperations(codec, disk, (o: OperationRecord) => if o.InFlight() then Some(RecoveryNotAllowed) else None);
    }

    /**
     * Reset the directory: refused for a cause that is there, with nothing written, or carried through. Every
     * state a crash could leave behind on the way is a crash point of one reset to one target.
     */
    method ResetOffline(expected: Generation, drawn: Generation) returns (r: Result<Generation>)
      modifies this
      ensures r.Ok? <==> Resets(codec, old(disk), expected, drawn)
      ensures r.Err? ==> Refusal(codec, old(disk), expected, drawn, r.error) && disk == old(disk) && trace == old(trace)
      ensures r.Ok? ==> r.value == Goal(old(disk), drawn) && disk == Emptied(r.value)
      // nothing is thrown away while anything goes on; an attempt that left its marker is resumed towards its own target
      ensures r.Ok? ==>
                && old(disk).meta.generation == expected
                && (old(disk).meta.status == Ready ==> NothingGoesOn(old(disk)) && r.value == drawn && drawn != expected)
                && (old(disk).meta.status == Resetting ==> old(disk).meta.target == Some(r.value))
                && disk.meta == StateMeta(Ready, r.value, None)
                && disk.runs == map[] && disk.operations == map[] && disk.prompts == map[] && disk.artifacts == map[]
      ensures r == Err(RecoveryNotAllowed) ==> !NothingGoesOn(old(disk))
      ensures if SoundMeta(old(disk).meta) then r.Err? && r.error == Corrupt ==> old(disk).meta.generation == expected else r == Err(Corrupt)
      ensures |old(trace)| <= |trace| && trace[..|old(trace)|] == old(trace)
      ensures r.Ok? ==> forall i :: |old(trace)| <= i < |trace| ==> CrashPoint(old(disk), r.value, trace[i])
    {
      hide NotQuiescent, Quiescent, PartOf, Listable, NothingGoesOn;
      QuiescentIsNothing(disk);
      ValidMetaIsSound(disk.meta);
      if !ValidMeta(disk.meta) {
        return Err(Corrupt);
      }
      if disk.meta.generation != expected {
        return Err(StalePrecondition);
      }
      ghost var origin := disk;
      PartRefl(origin);
      if disk.meta.status == Ready {
        var quiescent := EnsureResetQuiescent();
        if quiescent.Err? {
          return Err(quiescent.error);
        }
        if drawn == expected {
          return Err(Invalid);
        }
        Durable(disk.(meta := StateMeta(Resetting, disk.meta.generation, Some(drawn))));
      }
      var target := disk.meta.target.value;
      ClearAll(origin, target);
      Durable(disk.(meta := StateMeta(Ready, target, None)));
      r := Ok(target);
    }

    /** Remove every file, one at a time, region by region. */
    method ClearAll(ghost origin: Disk, ghost target: Generation)
      requires Marked(origin, target, disk)
      modifies this
      ensures Marked(origin, target, disk)
      ensures disk.runs == map[] && disk.operations == map[] && disk.prompts == map[] && disk.artifacts == map[]
      ensures |old(trace)| <= |trace| && trace[..|old(trace)|] == old(trace)
      ensures forall i :: |old(trace)| <= i < |trace| ==> Marked(origin, target, trace[i])
    {
      hide Marked, OneGone;
      while Files(disk) > 0
        invariant Marked(origin, target, disk)
        invariant |old(trace)| <= |trace| && trace[..|old(trace)|] == old(trace)
        invariant forall i :: |old(trace)| <= i < |trace| ==> Marked(origin, target, trace[i])
        decreases Files(disk)
      {
        ghost var before := disk;
        RemoveOne();
        StillMarked(origin, target, before, disk);
      }
    }

    method RemoveOne()
      requires Files(disk) > 0
      modifies this
      ensures OneGone(old(disk), disk) && Files(disk) < Files(old(disk))
      ensures trace == old(trace) + [disk]
    {
      if disk.runs != map[] {
        var id :| id in disk.runs;
        OneFewer(disk.runs, id);
        Durable(disk.(runs := disk.runs - {id}));
      } else if disk.operations != map[] {
        var id :| id in disk.operations;
        OneFewer(disk.operations, id);
        Durable(disk.(operations := disk.operations - {id}));
      } else if disk.prompts != map[] {
        var id :| id in disk.prompts;
        OneFewer(disk.prompts, id);
        Durable(disk.(prompts := disk.prompts - {id}));
      } else {
        var id :| id in disk.artifacts;
        OneFewer(disk.artifacts, id);
        Durable(disk.(artifacts := disk.artifacts - {id}));
      }
    }
  }

  function Files(d: Disk): nat {
    |d.runs| + |d.operations| + |d.prompts| + |d.artifacts|
  }

  ghost predicate OneGone(d: Disk, d': Disk) {
    && d'.meta == d.meta
    && PartOf(d'.runs, d.runs) && PartOf(d'.operations, d.operations) && PartOf(d'.prompts, d.prompts) && PartOf(d'.artifacts, d.artifacts)
  }

  lemma StillMarked(origin: Disk, target: Generation, d: Disk, d': Disk)
    requires Marked(origin, target, d) && OneGone(d, d')
    ensures Marked(origin, target, d')
  {
  }

  lemma OneFewer<K, V>(m: map<K, V>, k: K)
    requires k in m
    ensures |m - {k}| < |m|
  {
    assert m.Keys == (m - {k}).Keys + {k};
  }

  lemma PartRefl(d: Disk)
    ensures PartOf(d.runs, d.runs) && PartOf(d.operations, d.operations) && PartOf(d.prompts, d.prompts) && PartOf(d.artifacts, d.artifacts)
  {
  }
}
