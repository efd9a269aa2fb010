/** src/agent_state/store.rs: guarded, counted, atomic writes to the state directory. */
module Store {
  import opened Base
  import opened Records
  import opened Guards
  import opened Reducer
  import opened Framing
  import opened Regions
  import opened Protocol
  import opened Dispatch
  import opened Retention
  import opened Artifacts
  import opened Verdicts
  import opened Validity
  import opened Opening
  import opened Outcomes
  import opened Restart

  /** Stands where a replacement needs no hook to be recorded. */
  const NO_CAUSE: Observation := Observation([], [], [], SessionStart, None, None, None, None, None, 0)

  lemma OneMoreGone<V>(m: map<RunId, V>, gone: set<RunId>, done: set<RunId>, id: RunId)
    requires id in gone - done
    ensures m - done - {id} == m - (done + {id})
    ensures |gone - (done + {id})| < |gone - done|
  {
    assert gone - (done + {id}) == gone - done - {id};
  }

  class AgentStateStore {
    const codec: Codec
    var disk: Disk
    var runCapacity: RegionCapacity
    var operationCapacity: RegionCapacity

    /** Every durable write that made the directory what it is. */
    ghost var journal: History

    /** The handle before its directory was checked; `history` is how the directory came to be. */
    constructor Attach(codec: Codec, disk: Disk, ghost history: History)
      ensures this.codec == codec && this.disk == disk && journal == history
      ensures runCapacity == RegionCapacity(0, 0) && operationCapacity == RegionCapacity(0, 0)
    {
      this.codec := codec;
      this.disk := disk;
      journal := history;
      runCapacity := RegionCapacity(0, 0);
      operationCapacity := RegionCapacity(0, 0);
    }

    /** The cached counters are the true record counts and byte sums. */
    ghost predicate Counted()
      reads this
    {
      && runCapacity == RegionCapacity(|disk.runs|, TotalSize(disk.runs, codec.runSize))
      && operationCapacity == RegionCapacity(|disk.operations|, TotalSize(disk.operations, codec.operationSize))
    }

    lemma CountedWhenEmpty()
      requires disk.runs == map[] && disk.operations == map[]
      requires runCapacity == RegionCapacity(0, 0) && operationCapacity == RegionCapacity(0, 0)
      ensures Counted()
    {
    }

    ghost function Past(): World
      reads this
    {
      Replay(journal)
    }

    /** Every run ever created here, also the removed ones. */
    ghost function Births(): map<RunId, Birth>
      reads this
    {
      Past().births
    }

    ghost predicate Valid()
      reads this
    {
      && Tied()
      && Counted()
      && RunsStored(codec, disk.meta.generation, disk.runs)
      && OperationsStored(codec, disk.meta.generation, disk.operations)
    }

    ghost predicate Tied()
      reads this
    {
      Past().disk == disk
    }

    lemma TiedWhenValid()
      requires Valid()
      ensures Replay(journal).disk == disk
    {
    }

    lemma OperationIsOk(id: OperationId)
      requires Valid() && BaseSound() && id in disk.operations
      ensures OperationOk(disk.meta.generation, id, disk.operations[id])
    {
      hide RunsStored, OperationsStored, RunsInv, ValidOperation, ValidRun, Rank;
      BaseHistoryKeeps(codec, journal);
    }

    lemma RunIsOk(id: RunId)
      requires Valid() && BaseSound() && id in disk.runs
      ensures RunOk(codec, disk.meta.generation, id, disk.runs[id])
    {
      hide RunsStored, OperationsStored, OperationsInv, ValidOperation, ValidRun, EventsUnique, TurnsUnique, SequencesUnique, ActiveNewest, DistinctEvents;
      BaseHistoryKeeps(codec, journal);
    }

    /** What the run indexes rest on. */
    lemma RunsAreDistinct()
      requires Valid() && BaseSound()
      ensures EventsUnique(disk.runs) && TurnsUnique(disk.runs) && SequencesUnique(disk.runs) && ActiveNewest(disk.runs)
      ensures |disk.runs| <= RUN_STORE_MAX_RECORDS
      ensures forall id :: id in disk.runs ==>
                && disk.runs[id].runId == id && DistinctEvents(disk.runs[id])
                && |disk.runs[id].evidence.events| <= RUN_EVENT_REFERENCE_MAX_COUNT
    {
      hide EventsUnique, TurnsUnique, SequencesUnique, ActiveNewest, DistinctEvents, OperationsInv, PromptsInv, BodiesInv,
           ValidEvent, ValidArtifact, ValidResolution, RunsStored, OperationsStored, BaseHistory, Replay;
      BaseHistoryKeeps(codec, journal);
    }

    lemma OperationsAreDistinct()
      requires Valid() && BaseSound()
      ensures FenceUnique(disk.operations)
      ensures forall id :: id in disk.operations ==> disk.operations[id].operationId == id
    {
      hide FenceUnique, RunsInv, PromptsInv, BodiesInv, ValidOperation, RunsStored, OperationsStored, BaseHistory, Replay, Rank;
      BaseHistoryKeeps(codec, journal);
    }

    /** A lawful directory passes every check of opening. */
    lemma SoundIsOpenable()
      requires Valid() && BaseSound()
      ensures Opens(codec, disk)
    {
      hide RunsStored, OperationsStored, Counted, BaseHistory, RunsReadable, OperationsReadable, OnlyStaged, OnlyReferenced, BodiesExact, StagedIds;
      LawfulIsReadable(codec, journal, disk);
      CleanedIsExact(codec, journal, disk);
    }

    lemma IsKeyed()
      requires Valid()
      ensures Keyed(disk)
    {
    }

    lemma OperationsAreValid()
      requires Valid()
      ensures forall id :: id in disk.operations ==> ValidOperation(disk.operations[id])
    {
      hide ValidOperation;
    }

    lemma OperationsAreStored()
      requires Valid()
      ensures OperationsStored(codec, disk.meta.generation, disk.operations)
    {
    }

    lemma RunIsSound(id: RunId)
      requires Valid() && id in disk.runs
      ensures disk.runs[id].runId == id && disk.runs[id].updatedAt >= 0
    {
      assert ValidRun(codec, disk.runs[id]);
    }

    lemma PreparedIsUnlinked(id: OperationId)
      requires Valid() && BaseSound() && id in disk.operations && disk.operations[id].state == Prepared
      ensures LinkSound() ==> Unlinked(disk.runs, id)
    {
      hide RunsStored, OperationsStored, Counted;
      if LinkSound() {
        LinkHistoryKeeps(codec, journal);
        UncreditedWhenPrepared(Past(), id);
      }
    }

    /** On a link-sound directory a stored run's claim can always be confirmed, unless the store is full. */
    lemma CreditIsHeld(run: RunRecord, at: int)
      requires Valid() && BaseSound() && RunStored(disk, run) && run.operationId.Some?
      ensures LinkSound() ==>
                && run.operationId.value in disk.operations
                && var o := disk.operations[run.operationId.value];
                   && (o.state == PromptConfirmed ==> o.runId == Some(run.runId) && o.binding == FromAgent(run.binding))
                   && (o.state != PromptConfirmed && at >= 0 ==>
                         && ConfirmedBy(o, run, at).Some?
                         && (OperationVerdict(codec, disk, ConfirmedBy(o, run, at).value).Err? ==>
                               OperationVerdict(codec, disk, ConfirmedBy(o, run, at).value).error == Capacity))
    {
      hide RunsStored, OperationsStored, Counted, ValidOperation, ValidRun, OperationReplacement,
           ConfirmedBy, OperationVerdict, BaseHistory, LinkHistory, LinkInv, Replay;
      if LinkSound() {
        LinkHistoryKeeps(codec, journal);
        RunIsOk(run.runId);
        ClaimMatches(Past(), run.runId);
        var o := disk.operations[run.operationId.value];
        OperationIsOk(o.operationId);
        if o.state != PromptConfirmed && at >= 0 {
          ConfirmationIsAccepted(codec, disk.meta.generation, o, run, at);
          OnlyCapacityRefuses(codec, disk, ConfirmedBy(o, run, at).value);
        }
      }
    }

    ghost predicate BaseSound()
      reads this
    {
      BaseHistory(codec, journal)
    }

    ghost predicate LinkSound()
      reads this
    {
      LinkHistory(journal)
    }

    /** One atomic change of the directory: after a crash it either happened or it did not. */
    method Durable(x: Write)
      requires Tied()
      modifies this`disk, this`journal
      ensures Tied()
      ensures disk == PerformOn(old(disk), x)
      ensures journal == After(old(journal), x)
    {
      disk := PerformOn(disk, x);
      journal := After(journal, x);
    }

    /** The checks of `save_run`, and the counters the write would leave. */
    method AdmitRun(r: RunRecord) returns (result: Result<()>, next: RegionCapacity)
      requires Valid()
      ensures result == RunVerdict(codec, disk, r)
      ensures result.Ok? && !RunStored(disk, r) ==>
                && next == RegionCapacity(|disk.runs[r.runId := r]|, TotalSize(disk.runs[r.runId := r], codec.runSize))
                && RunsStored(codec, disk.meta.generation, disk.runs[r.runId := r])
    {
      next := runCapacity;
      if !ValidRun(codec, r) || r.generation != disk.meta.generation {
        return Err(Invalid), next;
      }
      if r.runId in disk.runs {
        if disk.runs[r.runId] == r {
          return Ok(()), next;
        }
        if !RunReplacement(disk.runs[r.runId], r) {
          return Err(Conflict), next;
        }
      }
      if codec.runSize(r) > RUN_RECORD_MAX_BYTES {
        return Err(Capacity), next;
      }
      var replaced := if r.runId in disk.runs then Some(codec.runSize(disk.runs[r.runId])) else None;
      var room := NextCapacity(runCapacity, replaced, codec.runSize(r), RUN_STORE_MAX_RECORDS, RUN_STORE_MAX_BYTES);
      CountersDecide(disk.runs, codec.runSize, r.runId, r, RUN_STORE_MAX_RECORDS, RUN_STORE_MAX_BYTES);
      if room.None? {
        return Err(Capacity), next;
      }
      StoredAfterRun(codec, disk.meta.generation, disk.runs, r);
      return Ok(()), room.value;
    }

    /** `cause` is only recorded: the hook a new run is saved for. */
    method SaveRun(r: RunRecord, cause: Observation) returns (result: Result<()>)
      requires Valid()
      modifies this`disk, this`runCapacity, this`journal
      ensures Valid()
      ensures result == RunVerdict(codec, old(disk), r)
      ensures result == Err(Invalid) <==> !SoundRun(codec, r) || r.generation != old(disk.meta.generation)
      ensures result == Err(Conflict) <==>
                && SoundRun(codec, r) && r.generation == old(disk.meta.generation)
                && r.runId in old(disk.runs) && old(disk.runs)[r.runId] != r && !MayReplaceRun(old(disk.runs)[r.runId], r)
      ensures result.Err? || RunStored(old(disk), r) ==> disk == old(disk) && journal == old(journal)
      ensures result.Ok? && !RunStored(old(disk), r) ==>
                && disk.runs == old(disk.runs)[r.runId := r] && SameElseRuns(old(disk), disk)
                && journal == After(old(journal), RunWrite(old(disk), r, cause))
    {
      hide ValidRun, RunReplacement, PerformOn, RunVerdict, RunsFit, OperationsFit, ValidOperation, SoundRun, MayReplaceRun;
      ValidRunIsSound(codec, r);
      OnlyReplacementConflicts(codec, disk, r);
      if r.runId in disk.runs {
        RunMayBeReplaced(disk.runs[r.runId], r);
      }
      OnlyInvalidIsInvalid(codec, disk, r);
      var next;
      result, next := AdmitRun(r);
      if result.Ok? && !RunStored(disk, r) {
        RunWriteEffect(disk, r, cause);
        Durable(RunWrite(disk, r, cause));
        runCapacity := next;
      }
    }

    method AdmitOperation(o: OperationRecord) returns (result: Result<()>, next: RegionCapacity)
      requires Valid()
      ensures result == OperationVerdict(codec, disk, o)
      ensures result.Ok? && !OperationStored(disk, o) ==>
                && next == RegionCapacity(|disk.operations[o.operationId := o]|,
                                          TotalSize(disk.operations[o.operationId := o], codec.operationSize))
                && OperationsStored(codec, disk.meta.generation, disk.operations[o.operationId := o])
    {
      next := operationCapacity;
      if !ValidOperation(o) || o.generation != disk.meta.generation {
        return Err(Invalid), next;
      }
      if o.operationId in disk.operations {
        if disk.operations[o.operationId] == o {
          return Ok(()), next;
        }
        if !OperationReplacement(disk.operations[o.operationId], o) {
          return Err(Conflict), next;
        }
      }
      if codec.operationSize(o) > OPERATION_RECORD_MAX_BYTES {
        return Err(Capacity), next;
      }
      var replaced := if o.operationId in disk.operations then Some(codec.operationSize(disk.operations[o.operationId])) else None;
      var room := NextCapacity(operationCapacity, replaced, codec.operationSize(o),
                               OPERATION_STORE_MAX_RECORDS, OPERATION_STORE_MAX_BYTES);
      CountersDecide(disk.operations, codec.operationSize, o.operationId, o,
                     OPERATION_STORE_MAX_RECORDS, OPERATION_STORE_MAX_BYTES);
      if room.None? {
        return Err(Capacity), next;
      }
      StoredAfterOperation(codec, disk.meta.generation, disk.operations, o);
      return Ok(()), room.value;
    }

    method SaveOperation(o: OperationRecord) returns (result: Result<()>)
      requires Valid()
      modifies this`disk, this`operationCapacity, this`journal
      ensures Valid()
      ensures result == OperationVerdict(codec, old(disk), o)
      ensures result == Err(Invalid) <==> !SoundOperation(o) || o.generation != old(disk.meta.generation)
      ensures result == Err(Conflict) <==>
                && SoundOperation(o) && o.generation == old(disk.meta.generation)
                && o.operationId in old(disk.operations) && old(disk.operations)[o.operationId] != o
                && !MayReplaceOperation(old(disk.operations)[o.operationId], o)
      ensures result.Err? || OperationStored(old(disk), o) ==> disk == old(disk) && journal == old(journal)
      ensures result.Ok? && !OperationStored(old(disk), o) ==>
                && disk.operations == old(disk.operations)[o.operationId := o] && SameElseOperations(old(disk), disk)
                && journal == After(old(journal), OperationWrite(old(disk), o))
    {
      hide ValidRun, OperationReplacement, PerformOn, OperationVerdict, RunsFit, OperationsFit, ValidOperation, SoundOperation, MayReplaceOperation;
      ValidOperationIsSound(o);
      OnlyReplacementConflictsOperation(codec, disk, o);
      if o.operationId in disk.operations {
        OperationMayBeReplaced(disk.operations[o.operationId], o);
      }
      OnlyInvalidIsInvalidOperation(codec, disk, o);
      var next;
      result, next := AdmitOperation(o);
      if result.Ok? && !OperationStored(disk, o) {
        OperationWriteEffect(disk, o);
        Durable(OperationWrite(disk, o));
        operationCapacity := next;
      }
    }

    method StageBody(id: OperationId, body: Text) returns (result: Result<()>)
      requires Valid()
      modifies this`disk, this`journal
      ensures Valid()
      ensures result == StageVerdict(old(disk), id, body)
      ensures result.Err? || id in old(disk.prompts) ==> disk == old(disk) && journal == old(journal)
      ensures result.Ok? ==> disk.prompts == old(disk.prompts)[id := body] && SameElsePrompts(old(disk), disk)
      ensures result.Ok? && id !in old(disk.prompts) ==> journal == After(old(journal), StagePrompt(id, body))
    {
      if |body| > PROMPT_BODY_MAX_BYTES {
        return Err(Capacity);
      }
      if id in disk.prompts {
        return if disk.prompts[id] == body then Ok(()) else Err(Conflict);
      }
      var usage := ScanRegion(disk.prompts, TextSize, PROMPT_STORE_MAX_RECORDS);
      if usage.Err? {
        return Err(usage.error);
      }
      var next := NextCapacity(usage.value, None, |body|, PROMPT_STORE_MAX_RECORDS, PROMPT_STORE_MAX_BYTES);
      if next.None? {
        return Err(Capacity);
      }
      Durable(StagePrompt(id, body));
      result := Ok(());
    }

    method DeletePrompt(id: OperationId)
      requires Valid()
      modifies this`disk, this`journal
      ensures Valid()
      ensures id in old(disk.prompts) ==>
                && disk.prompts == old(disk.prompts) - {id} && SameElsePrompts(old(disk), disk)
                && journal == After(old(journal), DropPrompt(id))
      ensures id !in old(disk.prompts) ==> disk == old(disk) && journal == old(journal)
    {
      if id in disk.prompts {
        Durable(DropPrompt(id));
      }
    }

    // ---------------------------------------------------------------- response artifacts

    /** The record stops naming the body before the body is deleted. */
    method ExpireArtifact(id: RunId) returns (result: Result<()>)
      requires Valid() && BaseSound()
      modifies this`disk, this`runCapacity, this`journal
      ensures Valid() && BaseSound()
      ensures LinkSound() <==> old(LinkSound())
      ensures SameElseResponses(old(disk), disk)
      ensures Step(result, disk) == ExpireOutcome(codec, old(disk), id)
      ensures result.Err? ==> disk == old(disk) && result.error == if id in old(disk.runs) then Capacity else NotFound
      ensures result.Ok? ==> id in old(disk.runs)
      ensures result.Ok? && old(disk.runs)[id].artifact.Some? && old(disk.runs)[id].artifact.value.stored != Expired ==>
                && disk.runs == old(disk.runs)[id := Expire(old(disk.runs)[id])]
                && GivenUpAs(old(disk.runs)[id], disk.runs[id])
                && disk.artifacts == if old(disk.runs)[id].HasBody() then old(disk.artifacts) - {id} else old(disk.artifacts)
      ensures id in old(disk.runs) && (old(disk.runs)[id].artifact.None? || old(disk.runs)[id].artifact.value.stored == Expired) ==>
                disk == old(disk)
    {
      hide Valid, BaseHistory, LinkHistory, Replay, RunVerdict, Successor, PerformOn;
      if id !in disk.runs {
        return Err(NotFound);
      }
      var run := disk.runs[id];
      if run.artifact.None? || run.artifact.value.stored == Expired {
        return Ok(());
      }
      TiedWhenValid();
      ExpiryIsLawful(codec, journal, disk, id);
      ReplaceExtends(codec, journal, disk, Expire(run));
      var saved := SaveRun(Expire(run), NO_CAUSE);
      if saved.Err? {
        return Err(saved.error);
      }
      if run.artifact.value.fileName.Some? {
        DeleteBody(run.artifact.value.fileName.value);
      }
      result := Ok(());
    }

    /** Remove a body no run names any more. */
    method DeleteBody(id: RunId)
      requires Valid() && BaseSound()
      requires id in disk.runs ==> !disk.runs[id].HasBody()
      modifies this`disk, this`journal
      ensures Valid() && BaseSound()
      ensures LinkSound() <==> old(LinkSound())
      ensures disk.artifacts == old(disk.artifacts) - {id} && SameElseArtifacts(old(disk), disk)
      ensures Births() == old(Births())
    {
      hide BaseHistory, LinkHistory, Replay, RunsStored, OperationsStored, TotalSize, RunRecord.HasBody;
      if id in disk.artifacts {
        BodyExtends(codec, journal, disk, DropBody(id));
        Durable(DropBody(id));
      } else {
        assert disk.artifacts - {id} == disk.artifacts;
      }
    }

    /** One look at the artifact directory: is there room for the target's new body? */
    method RoomForBody(target: RunId, size: nat) returns (room: bool)
      ensures room <==> HasRoom(disk.artifacts, target, size)
    {
      var usage := ScanRegion(disk.artifacts, TextSize, ARTIFACT_STORE_MAX_FILES);
      room := usage.Ok? && NextCapacity(usage.value, FileSize(disk.artifacts, target), size, 
                                        ARTIFACT_STORE_MAX_FILES, ARTIFACT_STORE_MAX_BYTES).Some?;
    }

    method FirstEvictable(target: RunId) returns (k: Option<RunId>)
      requires Valid()
      ensures k.None? <==> Evictable(disk.runs, target) == {}
      ensures k.Some? ==>
                && k.value in Evictable(disk.runs, target)
                && (forall j :: j in Evictable(disk.runs, target) ==> j == k.value || Before(disk.runs, k.value, j))
                && disk.runs[k.value].HasBody() && disk.runs[k.value].artifact.value.stored != Expired
                && disk.runs[k.value].runId == k.value
    {
      hide Valid;
      var candidates := Evictable(disk.runs, target);
      if candidates == {} {
        return None;
      }
      var first := FirstExists(disk.runs, candidates);
      var id :| id in candidates && forall j :: j in candidates ==> j == id || Before(disk.runs, id, j);
      BodyOfEvictable(target, id);
      k := Some(id);
    }

    /**
     * Evict bodies, earliest resolution first, until the target's new body fits. Every round
     * expires one more run that has a body, so the loop ends; the target itself is never touched.
     */
    method EnsureArtifactCapacity(target: RunId, size: nat) returns (result: Result<()>, ghost gone: set<RunId>)
      requires Valid() && BaseSound()
      modifies this`disk, this`runCapacity, this`journal
      ensures Valid() && BaseSound()
      ensures LinkSound() <==> old(LinkSound())
      ensures SameElseResponses(old(disk), disk)
      ensures EvictedPrefix(old(disk.runs), old(disk.artifacts), target, size, gone)
      ensures disk.runs == ExpireAll(old(disk.runs), gone) && disk.artifacts == old(disk.artifacts) - gone
      ensures result.Ok? ==> HasRoom(disk.artifacts, target, size) && BodyFits(disk.artifacts, target, size)
      ensures result.Err? ==> result.error == Capacity && !HasRoom(disk.artifacts, target, size) && EvictionStuck(codec, disk, target)
      ensures result.Err? ==> !BodyFits(disk.artifacts, target, size)
      // run by run: nothing is given up without need, and on success nothing else stays than what can
      ensures GivenUpForRoom(old(disk.runs), old(disk.artifacts), target, size, gone)
      ensures result.Ok? ==> KeptAboveRoom(old(disk.runs), old(disk.artifacts), target, size, gone)
      ensures forall id :: id in gone && id in old(disk.runs) ==> GivenUpAs(old(disk.runs)[id], disk.runs[id])
      ensures (result.Ok?, disk) == EvictFrom(codec, old(disk), target, size)
    {
      hide Valid, BaseHistory, LinkHistory, Replay, HasRoom, Before, Expire, BaseSound, LinkSound, ExpireAll, EarlierThan, EvictFrom,
           ExpireOutcome, FirstEvicted, RunVerdict, BodyFits, GivenUpForRoom, KeptAboveRoom, GivenUpAs;
      gone := {};
      ghost var runs, bodies := disk.runs, disk.artifacts;
      NothingEvicted(runs, bodies, target, size);
      while true
        invariant Valid() && BaseSound()
        invariant LinkSound() <==> old(LinkSound())
        invariant SameElseResponses(old(disk), disk)
        invariant EvictedPrefix(runs, bodies, target, size, gone)
        invariant disk.runs == ExpireAll(runs, gone) && disk.artifacts == bodies - gone
        invariant EvictFrom(codec, old(disk), target, size) == EvictFrom(codec, disk, target, size)
        decreases |Evictable(disk.runs, target)|
      {
        EvictableAfter(runs, target, gone);
        EvictEnds(codec, disk, target, size);
        EvictedInFields(runs, bodies, target, size, gone);
        RoomIsFit(disk.artifacts, target, size);
        AllGivenUp(runs, gone);
        var room := RoomForBody(target, size);
        if room {
          return Ok(()), gone;
        }
        var next := FirstEvictable(target);
        if next.None? {
          return Err(Capacity), gone;
        }
        var k := next.value;
        EvictUnfolds(codec, disk, target, size, k);
        StuckOnFirst(codec, disk, target, k);
        EvictOneMore(runs, bodies, target, size, gone, k);
        result := ExpireArtifact(k);
        if result.Err? {
          return result, gone;
        }
        gone := gone + {k};
        EvictableAfter(runs, target, gone);
        FewerLeft(Evictable(runs, target), gone - {k}, k);
      }
    }

    lemma BodyOfEvictable(target: RunId, k: RunId)
      requires Valid() && k in Evictable(disk.runs, target)
      ensures disk.runs[k].HasBody() && disk.runs[k].artifact.value.stored != Expired && disk.runs[k].runId == k
    {
      assert ValidRun(codec, disk.runs[k]);
    }

    /** How the runs look after bodies were evicted for the target's sake. */
    ghost predicate Evicted(before: Disk, target: RunId, gone: set<RunId>)
      reads this
    {
      && SameElseResponses(before, disk)
      && gone <= Evictable(before.runs, target)
      && disk.runs == ExpireAll(before.runs, gone)
    }

    method StoreArtifactCandidate(id: RunId, response: Response, source: Text, at: int)
      returns (result: Result<Artifact>, ghost gone: set<RunId>, ghost kept: bool)
      requires Valid() && BaseSound()
      modifies this`disk, this`runCapacity, this`journal
      ensures Valid() && BaseSound()
      ensures LinkSound() <==> old(LinkSound())
      ensures Step(result, disk) == CandidateOutcome(codec, old(disk), id, response, source, at)
      ensures result.Err? ==> Evicted(old(disk), id, gone)
      ensures id in old(disk.runs) && old(disk.runs)[id].outcome == Unresolved ==> result == Err(Invalid) && disk == old(disk)
      // an artifact whose body is stored or was given up is final, whatever is offered later
      ensures id in old(disk.runs) && old(disk.runs)[id].artifact.Some? && old(disk.runs)[id].artifact.value.stored != Unavailable ==>
                && disk == old(disk)
                && (result.Ok? ==> result.value == old(disk.runs)[id].artifact.value)
      ensures result.Ok? ==> id in old(disk.runs)
      ensures result.Ok? && (old(disk.runs)[id].artifact.None? || old(disk.runs)[id].artifact.value.stored == Unavailable) ==>
                && Receptive(old(disk.runs)[id], response)
                && ResponseKept(old(disk), disk, id, response, source, at, gone, kept)
                && disk.runs[id].artifact == Some(result.value)
                && ResponseStored(old(disk), disk, id, response, source, at, gone, kept)
                && (!kept ==> EvictionStuck(codec, old(disk).(runs := ExpireAll(old(disk.runs), gone)), id))
      ensures result.Ok? ==> result.value.originalDigest == response.originalDigest && result.value.originalBytes == response.originalBytes
      ensures result.Ok? ==> id in disk.runs && disk.runs[id].artifact == Some(result.value)
      // what is acceptable at all, and what conflicts
      ensures !AcceptableResponse(codec, response) ==> result == Err(Invalid) && disk == old(disk)
      ensures (AcceptableResponse(codec, response) && id in old(disk.runs) && old(disk.runs)[id].outcome == Completed
               && old(disk.runs)[id].artifact.Some?) ==>
                var known := old(disk.runs)[id].artifact.value;
                (result == Err(Conflict) && disk == old(disk) && (known.originalDigest != response.originalDigest || known.originalBytes != response.originalBytes))
                || (known.originalDigest == response.originalDigest && known.originalBytes == response.originalBytes
                    && (known.stored != Unavailable ==> result == Ok(known)))
      ensures SameElseResponses(old(disk), disk)
    {
      hide Valid, BaseHistory, LinkHistory, Replay, Metadata, ValidArtifact, KeepOutcome, EvictionStuck, HasRoom, EvictedPrefix, ResponseStored,
           AcceptableResponse, Decodes, Consistent, ResponseKept;
      DecodesIsAcceptable(codec, response);
      gone, kept := {}, false;
      NothingEvicted(disk.runs, disk.artifacts, id, 0);
      NoneExpired(disk.runs, id);
      if !Decodes(codec, response) || !Consistent(response) {
        return Err(Invalid), gone, kept;
      }
      if id !in disk.runs {
        return Err(NotFound), gone, kept;
      }
      var run := disk.runs[id];
      if run.outcome != Completed {
        return Err(Invalid), gone, kept;
      }
      if run.artifact.Some? {
        if run.artifact.value.originalDigest != response.originalDigest || run.artifact.value.originalBytes != response.originalBytes {
          return Err(Conflict), gone, kept;
        }
        if run.artifact.value.stored != Unavailable {
          return Ok(run.artifact.value), gone, kept;
        }
      }
      result, gone, kept := KeepResponse(id, response, source, at);
      if result.Ok? {
        KeptIsStored(old(disk), disk, id, response, source, at, gone, kept);
      }
    }

    /** The body is written before the record names it; a refused record leaves an orphan for the next open. */
    method KeepResponse(id: RunId, response: Response, source: Text, at: int)
      returns (result: Result<Artifact>, ghost gone: set<RunId>, ghost kept: bool)
      requires Valid() && BaseSound() && id in disk.runs && disk.runs[id].outcome == Completed
      requires Receptive(disk.runs[id], response) && Decodes(codec, response) && Consistent(response)
      modifies this`disk, this`runCapacity, this`journal
      ensures Valid() && BaseSound()
      ensures LinkSound() <==> old(LinkSound())
      ensures gone <= Evictable(old(disk.runs), id)
      ensures Step(result, disk) == KeepOutcome(codec, old(disk), id, response, source, at)
      ensures result.Err? ==> disk.runs == ExpireAll(old(disk.runs), gone)
      ensures result.Ok? ==> ResponseKept(old(disk), disk, id, response, source, at, gone, kept) && disk.runs[id].artifact == Some(result.value)
      ensures !kept ==> EvictionStuck(codec, old(disk).(runs := ExpireAll(old(disk.runs), gone)), id)
      ensures SameElseResponses(old(disk), disk)
    {
      hide Valid, BaseHistory, LinkHistory, Replay, Metadata, ValidArtifact, EvictedPrefix, HasRoom, Receptive, Consistent,
           Successor, RunVerdict, RunReplacement, Expire, EvictFrom, EvictionStuck, BodyFits, GivenUpForRoom, KeptAboveRoom, GivenUpAs;
      var run := disk.runs[id];
      NoBodyYet(id, response);
      var room;
      room, gone := EnsureArtifactCapacity(id, |response.body.value|);
      TargetIsKept(old(disk.runs), old(disk.artifacts), id, |response.body.value|, gone);
      kept := room.Ok?;
      StuckOnRuns(codec, disk, old(disk).(runs := disk.runs), id);
      if room.Ok? {
        WriteBody(id, response.body.value);
      }
      var metadata := Metadata(run, response, source, at, room.Ok?);
      var next := WithArtifact(run, metadata, at);
      if !ValidArtifact(metadata) || next.None? {
        return Err(Invalid), gone, kept;
      }
      TiedWhenValid();
      ResponseIsLawful(codec, journal, disk, id, response, source, at, room.Ok?);
      ReplaceExtends(codec, journal, disk, next.value);
      var saved := SaveRun(next.value, NO_CAUSE);
      result := if saved.Ok? then Ok(metadata) else Err(saved.error);
    }

    lemma NoBodyYet(id: RunId, response: Response)
      requires Valid() && id in disk.runs && Receptive(disk.runs[id], response)
      ensures !disk.runs[id].HasBody()
    {
      assert ValidRun(codec, disk.runs[id]);
    }

    method WriteBody(id: RunId, body: Text)
      requires Valid() && BaseSound()
      requires id in disk.runs ==> !disk.runs[id].HasBody()
      modifies this`disk, this`journal
      ensures Valid() && BaseSound()
      ensures LinkSound() <==> old(LinkSound())
      ensures disk.artifacts == old(disk.artifacts)[id := body] && SameElseArtifacts(old(disk), disk)
    {
      hide BaseHistory, LinkHistory, Replay, RunsStored, OperationsStored;
      TiedWhenValid();
      BodyExtends(codec, journal, disk, PutBody(id, body));
      Durable(PutBody(id, body));
    }

    /** Every body a run still names can be read back, and is the one its digest was taken of. */
    method ReadArtifact(id: RunId) returns (r: Result<Text>)
      requires Valid() && BaseSound()
      ensures r.Ok? <==> id in disk.runs && disk.runs[id].HasBody()
      ensures r.Ok? ==> BodyMatches(codec, disk.runs[id].artifact.value, r.value)
      ensures r.Err? ==> r.error != Corrupt
    {
      hide Valid, BaseHistory, BodyMatches, ValidArtifact;
      if id !in disk.runs {
        return Err(NotFound);
      }
      var run := disk.runs[id];
      BodyIsReadable(id);
      if run.artifact.None? || run.artifact.value.stored == Unavailable {
        return Err(ArtifactUnavailable);
      }
      if run.artifact.value.stored == Expired {
        return Err(ArtifactExpired);
      }
      if !BodyMatches(codec, run.artifact.value, disk.artifacts[id]) {
        return Err(Corrupt);
      }
      r := Ok(disk.artifacts[id]);
    }

    lemma BodyIsReadable(id: RunId)
      requires Valid() && BaseSound() && id in disk.runs
      ensures disk.runs[id].HasBody() <==>
                disk.runs[id].artifact.Some? && (disk.runs[id].artifact.value.stored == Complete || disk.runs[id].artifact.value.stored == Truncated)
      ensures disk.runs[id].HasBody() ==> id in disk.artifacts && BodyMatches(codec, disk.runs[id].artifact.value, disk.artifacts[id])
    {
      hide RunsStored, OperationsStored, Counted, BaseHistory, OperationsInv, PromptsInv, EventsUnique, TurnsUnique, SequencesUnique, ActiveNewest,
           BodyMatches, DistinctEvents, ValidEvidence;
      BaseHistoryKeeps(codec, journal);
      assert BodyPresent(codec, disk.runs[id], disk.artifacts);
    }

    // ---------------------------------------------------------------- retention

    /** Delete the records of ended runs one by one. The counters are only adjusted afterwards. */
    method DropRuns(gone: set<RunId>)
      requires Tied() && BaseSound()
      requires gone <= disk.runs.Keys && forall id :: id in gone ==> !disk.runs[id].Active()
      modifies this`disk, this`journal
      ensures Tied() && BaseSound()
      ensures LinkSound() <==> old(LinkSound()) && forall id :: id in gone ==> ClaimSettled(old(disk.runs)[id], old(disk.operations))
      ensures disk.runs == old(disk.runs) - gone && SameElseRuns(old(disk), disk)
      ensures Births() == old(Births())
    {
      hide Tied, BaseSound, LinkSound, ClaimSettled, Births;
      var done: set<RunId> := {};
      while gone - done != {}
        invariant done <= gone && Tied() && BaseSound()
        invariant LinkSound() <==> old(LinkSound()) && forall id :: id in done ==> ClaimSettled(old(disk.runs)[id], old(disk.operations))
        invariant disk.runs == old(disk.runs) - done && SameElseRuns(old(disk), disk)
        invariant Births() == old(Births())
        decreases |gone - done|
      {
        var id :| id in gone - done;
        DropOne(id);
        OneMoreGone(old(disk.runs), gone, done, id);
        done := done + {id};
      }
      assert done == gone;
    }

    method DropOne(id: RunId)
      requires Tied() && BaseSound() && id in disk.runs && !disk.runs[id].Active()
      modifies this`disk, this`journal
      ensures Tied() && BaseSound()
      ensures LinkSound() <==> old(LinkSound()) && ClaimSettled(old(disk.runs)[id], old(disk.operations))
      ensures disk.runs == old(disk.runs) - {id} && SameElseRuns(old(disk), disk)
      ensures Births() == old(Births())
    {
      hide BaseHistory, LinkHistory, Replay, ClaimSettled;
      DropExtends(codec, journal, disk, id);
      Durable(DropRun(id));
    }

    method DeleteBodies(gone: set<RunId>)
      requires Valid() && BaseSound() && gone !! disk.runs.Keys
      modifies this`disk, this`journal
      ensures Valid() && BaseSound()
      ensures LinkSound() <==> old(LinkSound())
      ensures disk.artifacts == old(disk.artifacts) - gone && SameElseArtifacts(old(disk), disk)
      ensures Births() == old(Births())
    {
      hide Valid, BaseSound, LinkSound, Births;
      var done: set<RunId> := {};
      while gone - done != {}
        invariant done <= gone && Valid() && BaseSound()
        invariant LinkSound() <==> old(LinkSound())
        invariant disk.artifacts == old(disk.artifacts) - done && SameElseArtifacts(old(disk), disk)
        invariant Births() == old(Births())
        decreases |gone - done|
      {
        var id :| id in gone - done;
        DeleteBody(id);
        OneMoreGone(old(disk.artifacts), gone, done, id);
        done := done + {id};
      }
      assert done == gone;
    }

    /** Records first, bodies last: a crash in between leaves orphan bodies, never a dangling reference. */
    method RemoveRuns(gone: set<RunId>)
      requires Valid() && BaseSound()
      requires gone <= disk.runs.Keys && forall id :: id in gone ==> !disk.runs[id].Active()
      modifies this`disk, this`runCapacity, this`journal
      ensures Valid() && BaseSound()
      ensures LinkSound() <==> old(LinkSound()) && forall id :: id in gone ==> ClaimSettled(old(disk.runs)[id], old(disk.operations))
      ensures disk.runs == old(disk.runs) - gone && SameElseResponses(old(disk), disk)
      ensures disk.artifacts == old(disk.artifacts) - (set id | id in gone && old(disk.runs)[id].HasBody())
      ensures Births() == old(Births())
    {
      hide Valid, BaseSound, LinkSound, ClaimSettled, Births;
      var bodies := set id | id in gone && disk.runs[id].HasBody();
      DropAndRecount(gone);
      DeleteBodies(bodies);
    }

    method DropAndRecount(gone: set<RunId>)
      requires Valid() && BaseSound()
      requires gone <= disk.runs.Keys && forall id :: id in gone ==> !disk.runs[id].Active()
      modifies this`disk, this`runCapacity, this`journal
      ensures Valid() && BaseSound()
      ensures LinkSound() <==> old(LinkSound()) && forall id :: id in gone ==> ClaimSettled(old(disk.runs)[id], old(disk.operations))
      ensures disk.runs == old(disk.runs) - gone && SameElseRuns(old(disk), disk)
      ensures Births() == old(Births())
    {
      hide BaseHistory, LinkHistory, Replay, RunsStored, OperationsStored, ClaimSettled, UsageWithout, TotalSize;
      var left := CountDown(codec, disk.runs, runCapacity, gone);
      DropRuns(gone);
      runCapacity := left;
      CountedAfter(old(disk.runs), gone);
      StoredFromBase(codec, journal, disk);
    }

    lemma CountedAfter(runs: Runs, gone: set<RunId>)
      requires runCapacity == UsageWithout(codec, runs, gone) && disk.runs == runs - gone
      ensures runCapacity == RegionCapacity(|disk.runs|, TotalSize(disk.runs, codec.runSize))
    {
    }

    method CollectRunRetention(now: int, protected: set<RunId>, reserve: Reserve, incoming: Option<PaneInstance>)
      returns (result: Result<set<RunId>>)
      requires Valid() && BaseSound()
      modifies this`disk, this`runCapacity, this`journal
      ensures Valid() && BaseSound()
      ensures result.Err? ==> disk == old(disk) && journal == old(journal)
      ensures result.Err? <==>
                || now < 0 || reserve.records > RUN_STORE_MAX_RECORDS || reserve.bytes > RUN_STORE_MAX_BYTES
                || |protected| > RUN_STORE_MAX_RECORDS || !Fits(codec, old(disk.runs), Removable(old(disk.runs), protected), reserve)
      ensures result.Err? ==>
                result.error == if now < 0 || reserve.records > RUN_STORE_MAX_RECORDS || reserve.bytes > RUN_STORE_MAX_BYTES then Invalid
                                else Capacity
      ensures result == Err(Capacity) ==> |protected| > 2048 || NoRoomAtAll(codec, old(disk.runs), protected, reserve)
      ensures NoRoomAtAll(codec, old(disk.runs), protected, reserve) ==> result.Err?
      ensures result.Ok? ==> GoneForCause(codec, old(disk.runs), protected, now, incoming, reserve, result.value)
      ensures result.Ok? ==>
                && Removes(codec, old(disk.runs), protected, now, incoming, reserve, result.value)
                && disk.runs == old(disk.runs) - result.value && SameElseResponses(old(disk), disk)
                && disk.artifacts == old(disk.artifacts) - (set id | id in result.value && old(disk.runs)[id].HasBody())
      ensures LinkSound() <==> old(LinkSound()) && (result.Ok? ==> forall id :: id in result.value ==> ClaimSettled(old(disk.runs)[id], old(disk.operations)))
      ensures Births() == old(Births())
    {
      hide BaseHistory, LinkHistory, Replay, RunsStored, OperationsStored, TotalSize, Fits, Stale, GoneForCause, NoRoomAtAll;
      NoRoomIsNoFit(codec, disk.runs, protected, reserve);
      result := PlanRetention(codec, disk.runs, runCapacity, now, protected, reserve, incoming);
      if result.Ok? {
        RemovedForCause(codec, disk.runs, protected, now, incoming, reserve, result.value);
        RemoveRuns(result.value);
      }
    }

    // ---------------------------------------------------------------- opening

    /** Delete what no record refers to; a directory made by lawful writes stays lawful. */
    method DropOrphanPrompts()
      requires Tied()
      modifies this`disk, this`journal
      ensures Tied() && SameElsePrompts(old(disk), disk)
      ensures disk.prompts == OnlyStaged(old(disk.operations), old(disk.prompts))
      ensures old(BaseSound()) ==> BaseSound() && (LinkSound() <==> old(LinkSound()))
    {
      hide BaseHistory, LinkHistory, Replay;
      var left := disk.prompts.Keys;
      while left != {}
        invariant Tied() && SameElsePrompts(old(disk), disk)
        invariant left <= disk.prompts.Keys
        invariant forall id :: id in disk.prompts && id !in left ==> Staged(disk.operations, id)
        invariant forall id :: id in disk.prompts ==> id in old(disk.prompts) && disk.prompts[id] == old(disk.prompts)[id]
        invariant forall id :: id in old(disk.prompts) && Staged(disk.operations, id) ==> id in disk.prompts
        invariant old(BaseSound()) ==> BaseSound() && (LinkSound() <==> old(LinkSound()))
        decreases left
      {
        var id :| id in left;
        if !Staged(disk.operations, id) {
          DropOrphanPrompt(id);
        }
        left := left - {id};
      }
    }

    method DropOrphanPrompt(id: OperationId)
      requires Tied() && !Staged(disk.operations, id)
      modifies this`disk, this`journal
      ensures Tied() && SameElsePrompts(old(disk), disk)
      ensures disk.prompts == old(disk.prompts) - {id}
      ensures old(BaseSound()) ==> BaseSound() && (LinkSound() <==> old(LinkSound()))
    {
      hide BaseHistory, LinkHistory, Replay;
      if BaseSound() {
        UnstagingExtends(codec, journal, disk, id);
      }
      Durable(DropPrompt(id));
    }

    method DropOrphanBodies()
      requires Tied()
      modifies this`disk, this`journal
      ensures Tied() && SameElseArtifacts(old(disk), disk)
      ensures disk.artifacts == OnlyReferenced(old(disk.runs), old(disk.artifacts))
      ensures old(BaseSound()) ==> BaseSound() && (LinkSound() <==> old(LinkSound()))
    {
      hide BaseHistory, LinkHistory, Replay;
      var left := disk.artifacts.Keys;
      while left != {}
        invariant Tied() && SameElseArtifacts(old(disk), disk)
        invariant left <= disk.artifacts.Keys
        invariant forall id :: id in disk.artifacts && id !in left ==> Referenced(disk.runs, id)
        invariant forall id :: id in disk.artifacts ==> id in old(disk.artifacts) && disk.artifacts[id] == old(disk.artifacts)[id]
        invariant forall id :: id in old(disk.artifacts) && Referenced(disk.runs, id) ==> id in disk.artifacts
        invariant old(BaseSound()) ==> BaseSound() && (LinkSound() <==> old(LinkSound()))
        decreases left
      {
        var id :| id in left;
        if !Referenced(disk.runs, id) {
          DropOrphanBody(id);
        }
        left := left - {id};
      }
    }

    method DropOrphanBody(id: RunId)
      requires Tied() && !Referenced(disk.runs, id)
      modifies this`disk, this`journal
      ensures Tied() && SameElseArtifacts(old(disk), disk)
      ensures disk.artifacts == old(disk.artifacts) - {id}
      ensures old(BaseSound()) ==> BaseSound() && (LinkSound() <==> old(LinkSound()))
    {
      hide BaseHistory, LinkHistory, Replay;
      if BaseSound() {
        OrphanIsUnnamed(codec, journal, disk, id);
        BodyExtends(codec, journal, disk, DropBody(id));
      }
      Durable(DropBody(id));
    }

    /**
     * `open_or_initialize` on an existing directory, however it came to be: accepted, or refused for
     * exactly this reason. A directory that lawful writes produced is never refused.
     */
    method Open() returns (result: Result<()>)
      requires Tied()
      modifies this
      ensures Tied()
      ensures result.Ok? <==> Opens(codec, old(disk))
      ensures result.Err? ==> OpenRefused(codec, old(disk), result.error)
      ensures disk == if Cleans(codec, old(disk)) then Cleaned(old(disk)) else old(disk)
      ensures result.Ok? ==> BodiesExact(codec, disk) && BodiesMatch(codec, disk)
      ensures result.Ok? && RunsFit(codec, disk.runs) && OperationsFit(codec, disk.operations) ==> Valid()
      ensures old(BaseSound()) ==> result.Ok? && Valid() && BaseSound() && (LinkSound() <==> old(LinkSound()))
    {
      hide BaseHistory, LinkHistory, Replay, RunsReadable, OperationsReadable, BodiesExact, RunsStored, OperationsStored, OnlyStaged,
           OnlyReferenced, RunsFit, OperationsFit, TotalSize;
      if BaseSound() {
        LawfulIsReadable(codec, journal, disk);
      }
      ReadableIsStored(codec, disk);
      if disk.meta.status != Ready {
        return Err(StateUninitialized);
      }
      var listed := ListRuns(codec, disk);
      if listed.Err? {
        return listed;
      }
      var visited := VisitOperations(codec, disk, (o: OperationRecord) => None);
      if visited.Err? {
        return visited;
      }
      if |StagedIds(disk.operations)| > PROMPT_STORE_MAX_RECORDS {
        return Err(Corrupt);
      }
      DropOrphanPrompts();
      DropOrphanBodies();
      if BaseSound() {
        CleanIsExact(codec, journal, disk, old(disk));
        StoredFromBase(codec, journal, disk);
      }
      ExactBodiesMatch(codec, disk);
      if !BodiesExact(codec, disk) {
        return Err(Corrupt);
      }
      result := CountRegions();
    }

    /** The counters start from one scan of each record directory. */
    method CountRegions() returns (result: Result<()>)
      requires |disk.runs| <= RUN_STORE_MAX_RECORDS && |disk.operations| <= OPERATION_STORE_MAX_RECORDS
      modifies this`runCapacity, this`operationCapacity
      ensures result == Ok(()) && Counted()
    {
      hide TotalSize;
      var runUsage := ScanRegion(disk.runs, codec.runSize, RUN_STORE_MAX_RECORDS);
      var operationUsage := ScanRegion(disk.operations, codec.operationSize, OPERATION_STORE_MAX_RECORDS);
      if runUsage.Err? || operationUsage.Err? {
        return Err(Capacity);
      }
      runCapacity, operationCapacity := runUsage.value, operationUsage.value;
      result := Ok(());
    }
  }
}
