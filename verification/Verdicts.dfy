/** When src/agent_state/store.rs accepts a record, and that every accepted record is a lawful write. */
module Verdicts {
  import opened Base
  import opened Records
  import opened Guards
  import opened Reducer
  import opened Framing
  import opened Regions
  import opened Protocol
  import opened Dispatch
  import opened Artifacts

  // ---------------------------------------------------------------- verdicts of the save operations

  /** What every stored record satisfies, whoever saved it. */
  ghost predicate RunsStored(c: Codec, g: Generation, runs: Runs) {
    && (forall id :: id in runs ==> runs[id].runId == id && runs[id].generation == g && ValidRun(c, runs[id]))
    && RunsFit(c, runs)
  }

  ghost predicate OperationsStored(c: Codec, g: Generation, operations: Operations) {
    && (forall id :: id in operations ==>
          operations[id].operationId == id && operations[id].generation == g && ValidOperation(operations[id]))
    && OperationsFit(c, operations)
  }

  lemma StoredAfterRun(c: Codec, g: Generation, runs: Runs, r: RunRecord)
    requires RunsStored(c, g, runs) && ValidRun(c, r) && r.generation == g && RunsFit(c, runs[r.runId := r])
    ensures RunsStored(c, g, runs[r.runId := r])
  {
  }

  lemma StoredAfterOperation(c: Codec, g: Generation, operations: Operations, o: OperationRecord)
    requires OperationsStored(c, g, operations) && ValidOperation(o) && o.generation == g
    requires OperationsFit(c, operations[o.operationId := o])
    ensures OperationsStored(c, g, operations[o.operationId := o])
  {
  }

  /** `save_run`: accepted, or refused for exactly this reason. */
  ghost function RunVerdict(c: Codec, d: Disk, r: RunRecord): Result<()> {
    if !ValidRun(c, r) || r.generation != d.meta.generation then Err(Invalid)
    else if RunStored(d, r) then Ok(())
    else if r.runId in d.runs && !RunReplacement(d.runs[r.runId], r) then Err(Conflict)
    else if c.runSize(r) > RUN_RECORD_MAX_BYTES || !RunsFit(c, d.runs[r.runId := r]) then Err(Capacity)
    else Ok(())
  }

  /** `save_operation`: accepted, or refused for exactly this reason. */
  ghost function OperationVerdict(c: Codec, d: Disk, o: OperationRecord): Result<()> {
    if !ValidOperation(o) || o.generation != d.meta.generation then Err(Invalid)
    else if OperationStored(d, o) then Ok(())
    else if o.operationId in d.operations && !OperationReplacement(d.operations[o.operationId], o) then Err(Conflict)
    else if c.operationSize(o) > OPERATION_RECORD_MAX_BYTES || !OperationsFit(c, d.operations[o.operationId := o]) then Err(Capacity)
    else Ok(())
  }

  lemma OnlyInvalidIsInvalid(c: Codec, d: Disk, r: RunRecord)
    ensures RunVerdict(c, d, r) == Err(Invalid) <==> !ValidRun(c, r) || r.generation != d.meta.generation
  {
    hide ValidRun, RunReplacement, RunsFit;
  }

  lemma OnlyInvalidIsInvalidOperation(c: Codec, d: Disk, o: OperationRecord)
    ensures OperationVerdict(c, d, o) == Err(Invalid) <==> !ValidOperation(o) || o.generation != d.meta.generation
  {
    hide ValidOperation, OperationReplacement, OperationsFit;
  }

  lemma OnlyReplacementConflicts(c: Codec, d: Disk, r: RunRecord)
    ensures RunVerdict(c, d, r) == Err(Conflict) <==>
              ValidRun(c, r) && r.generation == d.meta.generation && r.runId in d.runs && d.runs[r.runId] != r && !RunReplacement(d.runs[r.runId], r)
  {
    hide ValidRun, RunReplacement, RunsFit;
  }

  lemma OnlyReplacementConflictsOperation(c: Codec, d: Disk, o: OperationRecord)
    ensures OperationVerdict(c, d, o) == Err(Conflict) <==>
              && ValidOperation(o) && o.generation == d.meta.generation
              && o.operationId in d.operations && d.operations[o.operationId] != o && !OperationReplacement(d.operations[o.operationId], o)
  {
    hide ValidOperation, OperationReplacement, OperationsFit;
  }

  predicate RunStored(d: Disk, r: RunRecord) {
    r.runId in d.runs && d.runs[r.runId] == r
  }

  predicate OperationStored(d: Disk, o: OperationRecord) {
    o.operationId in d.operations && d.operations[o.operationId] == o
  }

  function RunWrite(d: Disk, r: RunRecord, cause: Observation): Write {
    if r.runId in d.runs then ReplaceRun(r) else CreateRun(r, cause)
  }

  function OperationWrite(d: Disk, o: OperationRecord): Write {
    if o.operationId in d.operations then ReplaceOperation(o) else CreateOperation(o)
  }

  lemma RunWriteEffect(d: Disk, r: RunRecord, cause: Observation)
    ensures var d' := PerformOn(d, RunWrite(d, r, cause));
      d'.runs == d.runs[r.runId := r] && SameElseRuns(d, d')
  {
  }

  lemma OperationWriteEffect(d: Disk, o: OperationRecord)
    ensures var d' := PerformOn(d, OperationWrite(d, o));
      d'.operations == d.operations[o.operationId := o] && SameElseOperations(d, d')
  {
  }

  // ---------------------------------------------------------------- accepted saves are lawful writes

  /** An accepted change of a stored operation extends a lawful history. */
  lemma AdvanceExtends(c: Codec, h: History, d: Disk, o: OperationRecord)
    requires BaseHistory(c, h) && Replay(h).disk == d
    requires o.operationId in d.operations && !OperationStored(d, o)
    requires o.runId.Some? ==> o.state == PromptConfirmed
    ensures OperationVerdict(c, d, o).Ok? ==>
              && OperationWrite(d, o) == ReplaceOperation(o)
              && BaseHistory(c, After(h, ReplaceOperation(o)))
              && (LinkHistory(After(h, ReplaceOperation(o))) <==> LinkHistory(h) && LinkLawful(Replay(h), ReplaceOperation(o)))
  {
    hide ValidOperation, OperationReplacement, OperationsFit, LinkLawful, BaseInv, LinkInv;
    if OperationVerdict(c, d, o).Ok? {
      assert LawfulAdvance(c, d, o);
    }
  }

  lemma AdvanceIsReplacement(c: Codec, d: Disk, o: OperationRecord)
    requires o.operationId in d.operations && !OperationStored(d, o) && OperationVerdict(c, d, o).Ok?
    ensures OperationReplacement(d.operations[o.operationId], o)
    ensures TargetOf(o.binding) == TargetOf(d.operations[o.operationId].binding)
    ensures d.operations[o.operationId].state != PromptConfirmed
  {
    ReplacementAdvances(d.operations[o.operationId], o);
  }

  /** A valid replacement that the guard accepts can only be refused for lack of room. */
  lemma OnlyCapacityRefuses(c: Codec, d: Disk, o: OperationRecord)
    requires ValidOperation(o) && o.generation == d.meta.generation
    requires o.operationId in d.operations && OperationReplacement(d.operations[o.operationId], o)
    ensures OperationVerdict(c, d, o).Err? ==> OperationVerdict(c, d, o).error == Capacity
  {
    hide ValidOperation, OperationReplacement;
  }

  /** There is room to replace `n` more operations by records within the record limit. */
  ghost predicate RoomFor(c: Codec, operations: Operations, n: nat) {
    TotalSize(operations, c.operationSize) + OPERATION_RECORD_MAX_BYTES * n <= OPERATION_STORE_MAX_BYTES
  }

  lemma RoomShrinks(c: Codec, operations: Operations, n: nat)
    ensures n > 0 && RoomFor(c, operations, n) ==> RoomFor(c, operations, n - 1)
  {
  }

  /** With room for one, a replacement within the record limit is never refused for capacity, and uses up at most that room. */
  lemma RoomIsEnough(c: Codec, d: Disk, o: OperationRecord, n: nat)
    requires OperationsStored(c, d.meta.generation, d.operations) && o.operationId in d.operations
    requires n > 0 && RoomFor(c, d.operations, n) && c.operationSize(o) <= OPERATION_RECORD_MAX_BYTES
    ensures OperationVerdict(c, d, o) != Err(Capacity)
    ensures RoomFor(c, d.operations[o.operationId := o], n - 1)
  {
    hide ValidOperation, OperationReplacement, TotalSize;
    CountAfterPut(d.operations, o.operationId, o);
    TotalAfterPut(d.operations, c.operationSize, o.operationId, o);
  }

  /** A next value of a stored run that keeps references distinct, activity ended and its body in place. */
  ghost predicate Successor(c: Codec, d: Disk, r: RunRecord) {
    && r.runId in d.runs
    && DistinctEvents(r)
    && (r.Active() ==> d.runs[r.runId].Active())
    && EventsFresh(d.runs, r)
    && BodyPresent(c, r, d.artifacts)
  }

  /** A new value of a stored run that is a proper successor whenever `save_run` accepts it. */
  ghost predicate Admissible(c: Codec, d: Disk, r: RunRecord) {
    r.runId in d.runs && !RunStored(d, r) && (RunVerdict(c, d, r).Ok? ==> Successor(c, d, r))
  }

  lemma ReplaceExtends(c: Codec, h: History, d: Disk, r: RunRecord)
    requires BaseHistory(c, h) && Replay(h).disk == d && Admissible(c, d, r)
    ensures RunVerdict(c, d, r).Ok? ==>
              && (r.Active() ==> d.runs[r.runId].Active())
              && RunReplacement(d.runs[r.runId], r)
              && BaseHistory(c, After(h, ReplaceRun(r)))
              && (LinkHistory(After(h, ReplaceRun(r))) <==> LinkHistory(h))
    ensures Replay(After(h, ReplaceRun(r))).births == Replay(h).births
  {
    hide ValidRun, RunReplacement, RunsFit, BaseInv, LinkInv, EventsFresh, BodyPresent, DistinctEvents;
    if RunVerdict(c, d, r).Ok? {
      assert LawfulReplace(c, d, r);
    }
  }

  /** A run that may be added: nothing about it is taken, and its binding has nothing newer or still active. */
  ghost predicate Newcomer(runs: Runs, r: RunRecord, cause: Observation) {
    && r.runId !in runs
    && DistinctEvents(r)
    && BornOf(r, cause)
    && r.artifact.None?
    && EventsFresh(runs, r)
    && (forall id :: id in runs && TurnOf(r).Some? ==> TurnOf(runs[id]) != TurnOf(r))
    && (forall id :: id in runs && runs[id].binding == r.binding ==> runs[id].runSeq < r.runSeq && !runs[id].Active())
  }

  lemma CreateExtends(c: Codec, h: History, d: Disk, r: RunRecord, cause: Observation)
    requires BaseHistory(c, h) && Replay(h).disk == d && Newcomer(d.runs, r, cause) && r.runId !in Replay(h).births
    ensures RunVerdict(c, d, r).Ok? ==>
              && RunWrite(d, r, cause) == CreateRun(r, cause)
              && BaseHistory(c, After(h, CreateRun(r, cause)))
              && (LinkHistory(After(h, CreateRun(r, cause))) <==> LinkHistory(h) && LinkLawful(Replay(h), CreateRun(r, cause)))
  {
    hide ValidRun, RunReplacement, RunsFit, BaseInv, LinkInv, EventsFresh, DistinctEvents, BornOf, LinkLawful;
    if RunVerdict(c, d, r).Ok? {
      assert LawfulCreate(c, d, r, cause);
    }
  }

  lemma OnlyCapacityRefusesRun(c: Codec, d: Disk, r: RunRecord)
    requires ValidRun(c, r) && r.generation == d.meta.generation
    requires r.runId in d.runs && RunReplacement(d.runs[r.runId], r)
    ensures RunVerdict(c, d, r).Err? ==> RunVerdict(c, d, r).error == Capacity
  {
    hide ValidRun, RunReplacement, RunsFit;
  }

  /** A new record is refused for capacity only over the record limit, or when the region would overflow. */
  lemma OnlyFullRefusesNew(c: Codec, d: Disk, r: RunRecord)
    ensures RunVerdict(c, d, r) == Err(Capacity) ==>
              c.runSize(r) > RUN_RECORD_MAX_BYTES || !RunsFit(c, d.runs[r.runId := r])
  {
    hide ValidRun, RunReplacement, RunsFit;
  }

  lemma InvalidIsRefused(c: Codec, d: Disk, r: RunRecord)
    requires !ValidRun(c, r)
    ensures RunVerdict(c, d, r) == Err(Invalid)
  {
    hide ValidRun;
  }

  lemma KeepsFresh(runs: Runs, r: RunRecord)
    requires EventsUnique(runs) && r.runId in runs && r.evidence == runs[r.runId].evidence
    ensures EventsFresh(runs, r)
  {
    assert forall e :: r.HasEvent(e) <==> runs[r.runId].HasEvent(e);
  }

  lemma ExpiryIsLawful(c: Codec, h: History, d: Disk, id: RunId)
    requires BaseHistory(c, h) && Replay(h).disk == d && id in d.runs
    requires d.runs[id].artifact.Some? && d.runs[id].artifact.value.stored != Expired
    ensures Expire(d.runs[id]).runId == id && d.runs[id].runId == id
    ensures Successor(c, d, Expire(d.runs[id])) && !RunStored(d, Expire(d.runs[id]))
    ensures RunVerdict(c, d, Expire(d.runs[id])).Err? ==> RunVerdict(c, d, Expire(d.runs[id])).error == Capacity
    ensures d.runs[id].artifact.value.fileName.Some? ==> d.runs[id].artifact.value.fileName.value == id
  {
    hide OperationsInv, PromptsInv, RunsFit, LinkInv, RunVerdict, EventsFresh, ActiveNewest, SequencesUnique, TurnsUnique, EventsUnique;
    BaseHistoryKeeps(c, h);
    var run := d.runs[id];
    ExpiryIsAccepted(c, run);
    KeepsEvents(run, Expire(run));
    KeepsFresh(d.runs, Expire(run));
    OnlyCapacityRefusesRun(c, d, Expire(run));
  }

  lemma ResponseIsLawful(c: Codec, h: History, d: Disk, id: RunId, response: Response, source: Text, at: int, kept: bool)
    requires BaseHistory(c, h) && Replay(h).disk == d && id in d.runs
    requires d.runs[id].outcome == Completed && Receptive(d.runs[id], response) && Decodes(c, response) && Consistent(response)
    requires ValidArtifact(Metadata(d.runs[id], response, source, at, kept))
    requires WithArtifact(d.runs[id], Metadata(d.runs[id], response, source, at, kept), at).Some?
    requires kept ==> id in d.artifacts && d.artifacts[id] == response.body.value
    ensures var run' := WithArtifact(d.runs[id], Metadata(d.runs[id], response, source, at, kept), at).value;
      && run'.runId == id && Successor(c, d, run') && !RunStored(d, run')
      && (RunVerdict(c, d, run').Err? ==> RunVerdict(c, d, run').error == Capacity)
  {
    hide OperationsInv, PromptsInv, RunsFit, LinkInv, RunVerdict, EventsFresh, ActiveNewest, SequencesUnique, TurnsUnique, EventsUnique,
         BodyMatches, ValidRun, DistinctEvents, RunReplacement, ValidArtifact, Receptive, Decodes, Consistent, BodiesInv, LinkHistory;
    BaseHistoryKeeps(c, h);
    var run := d.runs[id];
    var run' := WithArtifact(run, Metadata(run, response, source, at, kept), at).value;
    ResponseIsAccepted(c, run, response, source, at, kept);
    KeepsEvents(run, run');
    KeepsFresh(d.runs, run');
    OnlyCapacityRefusesRun(c, d, run');
  }

  /** The operation the run claims, if any, is already confirmed. */
  predicate ClaimSettled(r: RunRecord, operations: Operations) {
    r.operationId.Some? ==> r.operationId.value in operations && operations[r.operationId.value].state == PromptConfirmed
  }

  lemma DropExtends(c: Codec, h: History, d: Disk, id: RunId)
    requires BaseHistory(c, h) && Replay(h).disk == d && id in d.runs && !d.runs[id].Active()
    ensures BaseHistory(c, After(h, DropRun(id)))
    ensures LinkHistory(After(h, DropRun(id))) <==> LinkHistory(h) && ClaimSettled(d.runs[id], d.operations)
    ensures Replay(After(h, DropRun(id))).births == Replay(h).births
  {
    hide BaseInv, LinkInv;
  }

  lemma StoredFromBase(c: Codec, h: History, d: Disk)
    requires BaseHistory(c, h) && Replay(h).disk == d
    ensures RunsStored(c, d.meta.generation, d.runs) && OperationsStored(c, d.meta.generation, d.operations)
  {
    hide ValidRun, ValidOperation, RunsFit, OperationsFit, BaseHistory, DistinctEvents, Rank, EventsUnique, TurnsUnique, SequencesUnique,
         ActiveNewest, FenceUnique, PromptsInv, BodiesInv;
    BaseHistoryKeeps(c, h);
  }

  lemma PrepareExtends(c: Codec, h: History, d: Disk, o: OperationRecord)
    requires BaseHistory(c, h) && Replay(h).disk == d
    requires o.operationId !in d.operations && o.state == Prepared && o.revision == 1 && Fingerprinted(o)
    requires o.operationId in d.prompts && PromptMatches(c, o, d.prompts[o.operationId])
    requires FenceFree(d.operations, TargetOf(o.binding))
    ensures OperationVerdict(c, d, o).Ok? ==>
              && OperationWrite(d, o) == CreateOperation(o)
              && BaseHistory(c, After(h, CreateOperation(o)))
              && (LinkHistory(h) <==> LinkHistory(After(h, CreateOperation(o))))
  {
    hide OperationReplacement, OperationsFit, BaseInv, LinkInv, PromptMatches, FenceFree, Fingerprinted;
    if OperationVerdict(c, d, o).Ok? {
      assert OperationOk(d.meta.generation, o.operationId, o);
      assert LawfulPrepare(c, d, o);
    }
  }

  lemma BodyExtends(c: Codec, h: History, d: Disk, x: Write)
    requires BaseHistory(c, h) && Replay(h).disk == d
    requires x.PutBody? || x.DropBody?
    requires BaseLawful(c, d, x)
    ensures BaseHistory(c, After(h, x))
    ensures LinkHistory(h) <==> LinkHistory(After(h, x))
    ensures Replay(After(h, x)).births == Replay(h).births
  {
    hide BaseInv, LinkInv;
  }

  /** The cached counters decide exactly whether the record still fits. */
  lemma CountersDecide<K, V>(m: map<K, V>, size: V -> nat, k: K, v: V, recordLimit: nat, byteLimit: nat)
    requires byteLimit < U64_MAX && |m| <= recordLimit
    ensures var next := NextCapacity(RegionCapacity(|m|, TotalSize(m, size)),
                                     if k in m then Some(size(m[k])) else None, size(v), recordLimit, byteLimit);
      && (next.Some? <==> |m[k := v]| <= recordLimit && TotalSize(m[k := v], size) <= byteLimit)
      && (next.Some? ==> next.value == RegionCapacity(|m[k := v]|, TotalSize(m[k := v], size)))
  {
    CountAfterPut(m, k, v);
    TotalAfterPut(m, size, k, v);
  }

  /** `directory_usage`: one scan, in whatever order the directory lists its entries, given up beyond the record limit. */
  method ScanRegion<K(==), V>(m: map<K, V>, size: V -> nat, limit: nat) returns (usage: Result<RegionCapacity>)
    ensures usage == if |m| > limit then Err(Capacity) else Ok(RegionCapacity(|m|, TotalSize(m, size)))
  {
    var left := m;
    var records, bytes := 0, 0;
    while left != map[]
      invariant records + |left| == |m| && records <= limit
      invariant bytes + TotalSize(left, size) == TotalSize(m, size)
      decreases |left|
    {
      var k :| k in left;
      TotalWithout(left, size, k);
      ghost var before := left;
      records := records + 1;
      assert before.Keys == (before - {k}).Keys + {k};
      if records > limit {
        return Err(Capacity);
      }
      bytes := bytes + size(left[k]);
      left := left - {k};
    }
    usage := Ok(RegionCapacity(records, bytes));
  }

  /** The run now records the response, its body is stored if it was kept, and only evicted runs lost theirs. */
  ghost predicate ResponseKept(before: Disk, after: Disk, id: RunId, response: Response, source: Text, at: int, gone: set<RunId>, kept: bool) {
    && id in before.runs && id in after.runs
    && response.body.Some?
    && EvictedPrefix(before.runs, before.artifacts, id, |response.body.value|, gone)
    && (kept <==> HasRoom(before.artifacts - gone, id, |response.body.value|))
    && WithArtifact(before.runs[id], Metadata(before.runs[id], response, source, at, kept), at) == Some(after.runs[id])
    && after.runs == ExpireAll(before.runs, gone)[id := after.runs[id]]
    && (kept ==> after.artifacts == (before.artifacts - gone)[id := response.body.value])
    && (!kept ==> after.artifacts == before.artifacts - gone)
  }

  /** The same, in the fields of the records: what was recorded, which bodies went for it, and whether its own was written. */
  ghost predicate ResponseStored(before: Disk, after: Disk, id: RunId, response: Response, source: Text, at: int, gone: set<RunId>, kept: bool) {
    && id in before.runs && id in after.runs && response.body.Some?
    && var size := |response.body.value|;
       && RecordsAs(before.runs[id], after.runs[id], response, source, at, kept)
       && GivenUpForRoom(before.runs, before.artifacts, id, size, gone)
       && (kept ==> KeptAboveRoom(before.runs, before.artifacts, id, size, gone))
       && (kept <==> BodyFits(before.artifacts - gone, id, size))
  }

  lemma KeptIsStored(before: Disk, after: Disk, id: RunId, response: Response, source: Text, at: int, gone: set<RunId>, kept: bool)
    requires ResponseKept(before, after, id, response, source, at, gone, kept)
    ensures ResponseStored(before, after, id, response, source, at, gone, kept)
    ensures id in after.runs && after.runs[id].artifact.Some?
    ensures after.runs[id].artifact.value.originalDigest == response.originalDigest && after.runs[id].artifact.value.originalBytes == response.originalBytes
  {
    hide EvictedPrefix, HasRoom, BodyFits, GivenUpForRoom, KeptAboveRoom, Metadata;
    EvictedInFields(before.runs, before.artifacts, id, |response.body.value|, gone);
    RoomIsFit(before.artifacts - gone, id, |response.body.value|);
    MetadataRecords(before.runs[id], after.runs[id], response, source, at, kept);
  }
}
