/** What opening a directory checks and cleans up (src/agent_state/store.rs). */
module Opening {
  import opened Base
  import opened Records
  import opened Guards
  import opened Reducer
  import opened Framing
  import opened Regions
  import opened Protocol
  import opened Verdicts

  predicate Staged(operations: Operations, id: OperationId) {
    id in operations && operations[id].StagingRequired()
  }

  predicate Referenced(runs: Runs, id: RunId) {
    exists k :: k in runs && runs[k].HasBody() && runs[k].artifact.value.fileName.value == id
  }

  function StagedIds(operations: Operations): set<OperationId> {
    set id | id in operations && operations[id].StagingRequired()
  }

  function OnlyStaged(operations: Operations, prompts: map<OperationId, Text>): map<OperationId, Text> {
    map id | id in prompts && Staged(operations, id) :: prompts[id]
  }

  function OnlyReferenced(runs: Runs, bodies: map<RunId, Text>): map<RunId, Text> {
    map id | id in bodies && Referenced(runs, id) :: bodies[id]
  }

  /** What reading a run record file runs into: too long to be one, not valid, or named after another run. */
  function RunFault(c: Codec, g: Generation, id: RunId, r: RunRecord): Option<StoreError> {
    if c.runSize(r) > RUN_RECORD_MAX_BYTES then Some(Corrupt)
    else if !ValidRun(c, r) || r.generation != g then Some(Invalid)
    else if r.runId != id then Some(Corrupt)
    else None
  }

  function OperationFault(c: Codec, g: Generation, id: OperationId, o: OperationRecord): Option<StoreError> {
    if c.operationSize(o) > OPERATION_RECORD_MAX_BYTES then Some(Corrupt)
    else if !ValidOperation(o) || o.generation != g then Some(Invalid)
    else if o.operationId != id then Some(Corrupt)
    else None
  }

  /** A record that can be read: at most 16 KiB, valid, of this generation, and under its own name. */
  ghost predicate RunReads(c: Codec, g: Generation, id: RunId, r: RunRecord) {
    c.runSize(r) <= 16_384 && ValidRun(c, r) && r.generation == g && r.runId == id
  }

  ghost predicate RunRefusedWith(c: Codec, g: Generation, id: RunId, r: RunRecord, e: StoreError) {
    || (c.runSize(r) > 16_384 && e == Corrupt)
    || (c.runSize(r) <= 16_384 && !(ValidRun(c, r) && r.generation == g) && e == Invalid)
    || (c.runSize(r) <= 16_384 && ValidRun(c, r) && r.generation == g && r.runId != id && e == Corrupt)
  }

  lemma RunFaultMeans(c: Codec, g: Generation, id: RunId, r: RunRecord)
    ensures RunFault(c, g, id, r).None? <==> RunReads(c, g, id, r)
    ensures forall e :: RunFault(c, g, id, r) == Some(e) <==> RunRefusedWith(c, g, id, r, e)
  {
    hide ValidRun;
  }

  /** At most 4 KiB, valid, of this generation, and under its own name. */
  ghost predicate OperationReads(c: Codec, g: Generation, id: OperationId, o: OperationRecord) {
    c.operationSize(o) <= 4096 && ValidOperation(o) && o.generation == g && o.operationId == id
  }

  ghost predicate OperationRefusedWith(c: Codec, g: Generation, id: OperationId, o: OperationRecord, e: StoreError) {
    || (c.operationSize(o) > 4096 && e == Corrupt)
    || (c.operationSize(o) <= 4096 && !(ValidOperation(o) && o.generation == g) && e == Invalid)
    || (c.operationSize(o) <= 4096 && ValidOperation(o) && o.generation == g && o.operationId != id && e == Corrupt)
  }

  lemma OperationFaultMeans(c: Codec, g: Generation, id: OperationId, o: OperationRecord)
    ensures OperationFault(c, g, id, o).None? <==> OperationReads(c, g, id, o)
    ensures forall e :: OperationFault(c, g, id, o) == Some(e) <==> OperationRefusedWith(c, g, id, o, e)
  {
    hide ValidOperation;
  }

  ghost predicate RunsReadable(c: Codec, d: Disk) {
    forall id :: id in d.runs ==> RunReads(c, d.meta.generation, id, d.runs[id])
  }

  ghost predicate OperationsReadable(c: Codec, d: Disk) {
    forall id :: id in d.operations ==> OperationReads(c, d.meta.generation, id, d.operations[id])
  }

  /** Both record directories can be listed and read. */
  ghost predicate Listable(c: Codec, d: Disk) {
    && |d.runs| <= RUN_STORE_MAX_RECORDS && RunsReadable(c, d)
    && |d.operations| <= OPERATION_STORE_MAX_RECORDS && OperationsReadable(c, d)
  }

  /** `list_runs` counts first, then reads in order of name: the first faulty record decides. */
  ghost predicate RunsRefused(c: Codec, d: Disk, e: StoreError) {
    if |d.runs| > RUN_STORE_MAX_RECORDS then e == Capacity
    else exists id :: id in d.runs && RunRefusedWith(c, d.meta.generation, id, d.runs[id], e)
                      && forall k :: k in d.runs && k < id ==> RunReads(c, d.meta.generation, k, d.runs[k])
  }

  /** `for_each_operation` counts and reads in one pass, in the order the directory is listed: some faulty record decides, or the count. */
  ghost predicate OperationsRefused(c: Codec, d: Disk, e: StoreError) {
    || (e == Capacity && |d.operations| > OPERATION_STORE_MAX_RECORDS)
    || exists id :: id in d.operations && OperationRefusedWith(c, d.meta.generation, id, d.operations[id], e)
  }

  /** Prompts and bodies are exactly those some record refers to, and each matches its record. */
  predicate BodiesExact(c: Codec, d: Disk) {
    && d.prompts.Keys == StagedIds(d.operations)
    && (forall id :: id in d.prompts ==> id in d.operations && PromptMatches(c, d.operations[id], d.prompts[id]))
    && (forall id :: id in d.artifacts ==> id in d.runs && d.runs[id].HasBody())
    && (forall id :: id in d.runs && d.runs[id].HasBody() ==> id in d.artifacts && BodyMatches(c, d.runs[id].artifact.value, d.artifacts[id]))
  }

  /**
   * The same, in the fields of the records: a prompt for each operation not yet confirmed or settled, with the
   * digest of its request and at most 64 KiB; a body for each run that names one, of the recorded length and digest.
   */
  ghost predicate BodiesMatch(c: Codec, d: Disk) {
    && (forall id :: id in d.prompts <==> id in d.operations && (d.operations[id].state == Prepared || d.operations[id].state == DispatchStarted))
    && (forall id :: id in d.prompts && id in d.operations ==>
          && |d.prompts[id]| <= 65_536 && c.isUtf8(d.prompts[id])
          && d.operations[id].promptDigest == Sha256(Ascii("vde-tmux:prompt:v1") + [0] + d.prompts[id]))
    && (forall id :: id in d.artifacts <==> id in d.runs && d.runs[id].artifact.Some? && d.runs[id].artifact.value.fileName.Some?)
    && (forall id :: id in d.artifacts && id in d.runs && d.runs[id].artifact.Some? ==>
          && |d.artifacts[id]| <= 524_288 && c.isUtf8(d.artifacts[id])
          && d.runs[id].artifact.value.storedBytes == |d.artifacts[id]|
          && d.runs[id].artifact.value.storedDigest == Some(Sha256(d.artifacts[id])))
  }

  lemma PromptIsOne(c: Codec, o: OperationRecord, body: Text)
    ensures PromptMatches(c, o, body) <==>
              |body| <= 65_536 && c.isUtf8(body) && o.promptDigest == Sha256(Ascii("vde-tmux:prompt:v1") + [0] + body)
  {
  }

  lemma ExactBodiesMatch(c: Codec, d: Disk)
    ensures BodiesExact(c, d) <==> BodiesMatch(c, d)
  {
    hide PromptMatches;
    forall id | id in d.prompts && id in d.operations
      ensures PromptMatches(c, d.operations[id], d.prompts[id]) <==>
                && |d.prompts[id]| <= 65_536 && c.isUtf8(d.prompts[id])
                && d.operations[id].promptDigest == Sha256(Ascii("vde-tmux:prompt:v1") + [0] + d.prompts[id])
    {
      PromptIsOne(c, d.operations[id], d.prompts[id]);
    }
  }

  /** The record checks all pass, so the clean-up is reached. */
  ghost predicate Cleans(c: Codec, d: Disk) {
    d.meta.status == Ready && Listable(c, d) && |StagedIds(d.operations)| <= PROMPT_STORE_MAX_RECORDS
  }

  /** The directory without orphan prompts and bodies. */
  function Cleaned(d: Disk): Disk {
    d.(prompts := OnlyStaged(d.operations, d.prompts), artifacts := OnlyReferenced(d.runs, d.artifacts))
  }

  /** The store's checks of opening all pass. */
  ghost predicate Opens(c: Codec, d: Disk) {
    Cleans(c, d) && BodiesExact(c, Cleaned(d))
  }

  /** Why the store refuses to open, check by check: runs before operations, records before bodies. */
  ghost predicate OpenRefused(c: Codec, d: Disk, e: StoreError) {
    if d.meta.status != Ready then e == StateUninitialized
    else if |d.runs| > RUN_STORE_MAX_RECORDS || !RunsReadable(c, d) then RunsRefused(c, d, e)
    else if |d.operations| > OPERATION_STORE_MAX_RECORDS || !OperationsReadable(c, d) then OperationsRefused(c, d, e)
    else e == Corrupt && (|StagedIds(d.operations)| > PROMPT_STORE_MAX_RECORDS || !BodiesExact(c, Cleaned(d)))
  }

  /** Reading never refuses for what a record says. */
  lemma ReadingRefusals(c: Codec, d: Disk, e: StoreError)
    ensures RunsRefused(c, d, e) || OperationsRefused(c, d, e) ==> e == Capacity || e == Corrupt || e == Invalid
  {
    hide ValidRun, ValidOperation;
  }

  lemma RunsRefusedOnce(c: Codec, d: Disk, e: StoreError, f: StoreError)
    requires RunsRefused(c, d, e) && RunsRefused(c, d, f)
    ensures e == f
  {
    hide ValidRun;
    if |d.runs| <= RUN_STORE_MAX_RECORDS {
      var i :| i in d.runs && RunRefusedWith(c, d.meta.generation, i, d.runs[i], e)
               && forall k :: k in d.runs && k < i ==> RunReads(c, d.meta.generation, k, d.runs[k]);
      var j :| j in d.runs && RunRefusedWith(c, d.meta.generation, j, d.runs[j], f)
               && forall k :: k in d.runs && k < j ==> RunReads(c, d.meta.generation, k, d.runs[k]);
      assert !RunReads(c, d.meta.generation, i, d.runs[i]) && !RunReads(c, d.meta.generation, j, d.runs[j]);
      assert i == j;
    }
  }

  /** A directory that is refused is refused for one reason, except that the order of listing decides among faulty operations. */
  lemma RefusalIsDetermined(c: Codec, d: Disk, e: StoreError, f: StoreError)
    requires OpenRefused(c, d, e) && OpenRefused(c, d, f)
    ensures e == f || (OperationsRefused(c, d, e) && OperationsRefused(c, d, f))
  {
    hide RunsReadable, OperationsReadable, BodiesExact, StagedIds, OnlyStaged, OnlyReferenced, RunsRefused, OperationsRefused;
    if RunsRefused(c, d, e) && RunsRefused(c, d, f) {
      RunsRefusedOnce(c, d, e, f);
    }
  }

  /** `list_runs`. */
  method ListRuns(c: Codec, d: Disk) returns (r: Result<()>)
    ensures r.Ok? <==> |d.runs| <= RUN_STORE_MAX_RECORDS && RunsReadable(c, d)
    ensures r.Err? ==> RunsRefused(c, d, r.error)
  {
    hide RunFault, RunReads, RunRefusedWith;
    if |d.runs| > RUN_STORE_MAX_RECORDS {
      return Err(Capacity);
    }
    var left := d.runs.Keys;
    while left != {}
      invariant left <= d.runs.Keys
      invariant forall id :: id in d.runs && id !in left ==>
                  RunReads(c, d.meta.generation, id, d.runs[id]) && forall k :: k in left ==> id < k
      decreases left
    {
      ghost var least := LeastExists(left);
      var id :| id in left && forall k :: k in left ==> id <= k;
      RunFaultMeans(c, d.meta.generation, id, d.runs[id]);
      var fault := RunFault(c, d.meta.generation, id, d.runs[id]);
      if fault.Some? {
        return Err(fault.value);
      }
      left := left - {id};
    }
    r := Ok(());
  }

  /** `for_each_operation`: `visit` says what the visitor refuses a record for. */
  method VisitOperations(c: Codec, d: Disk, visit: OperationRecord -> Option<StoreError>) returns (r: Result<()>)
    ensures r.Ok? <==> |d.operations| <= OPERATION_STORE_MAX_RECORDS && OperationsReadable(c, d)
                       && forall id :: id in d.operations ==> visit(d.operations[id]).None?
    ensures r.Err? ==> OperationsRefused(c, d, r.error) || exists id :: id in d.operations && visit(d.operations[id]) == Some(r.error)
  {
    hide OperationFault, OperationReads, OperationRefusedWith;
    var left := d.operations.Keys;
    var records := 0;
    while left != {}
      invariant left <= d.operations.Keys && records + |left| == |d.operations| && records <= OPERATION_STORE_MAX_RECORDS
      invariant forall id :: id in d.operations && id !in left ==>
                  OperationReads(c, d.meta.generation, id, d.operations[id]) && visit(d.operations[id]).None?
      decreases left
    {
      var id :| id in left;
      records := records + 1;
      if records > OPERATION_STORE_MAX_RECORDS {
        return Err(Capacity);
      }
      OperationFaultMeans(c, d.meta.generation, id, d.operations[id]);
      var fault := OperationFault(c, d.meta.generation, id, d.operations[id]);
      if fault.Some? {
        return Err(fault.value);
      }
      var refused := visit(d.operations[id]);
      if refused.Some? {
        return Err(refused.value);
      }
      left := left - {id};
    }
    r := Ok(());
  }

  lemma ReadableIsStored(c: Codec, d: Disk)
    ensures RunsReadable(c, d) && RunsFit(c, d.runs) ==> RunsStored(c, d.meta.generation, d.runs)
    ensures OperationsReadable(c, d) && OperationsFit(c, d.operations) ==> OperationsStored(c, d.meta.generation, d.operations)
  {
    hide ValidRun, ValidOperation, RunsFit, OperationsFit;
  }

  lemma UnstagingExtends(c: Codec, h: History, d: Disk, id: OperationId)
    requires BaseHistory(c, h) && Replay(h).disk == d && !Staged(d.operations, id)
    ensures BaseHistory(c, After(h, DropPrompt(id)))
    ensures LinkHistory(h) <==> LinkHistory(After(h, DropPrompt(id)))
  {
    hide BaseInv, LinkInv;
  }

  lemma OrphanIsUnnamed(c: Codec, h: History, d: Disk, id: RunId)
    requires BaseHistory(c, h) && Replay(h).disk == d && !Referenced(d.runs, id)
    ensures id in d.runs ==> !d.runs[id].HasBody()
  {
    hide BaseHistory, OperationsInv, PromptsInv, RunOk, EventsUnique, TurnsUnique, SequencesUnique, ActiveNewest, BodiesInv;
    BaseHistoryKeeps(c, h);
    if id in d.runs && d.runs[id].HasBody() {
      BodyIsOwn(c, d.meta.generation, id, d.runs[id]);
    }
  }

  lemma LawfulIsReadable(c: Codec, h: History, d: Disk)
    requires BaseHistory(c, h) && Replay(h).disk == d
    ensures d.meta.status == Ready && Listable(c, d)
    ensures |StagedIds(d.operations)| <= PROMPT_STORE_MAX_RECORDS
  {
    hide BaseHistory, ValidRun, ValidOperation, DistinctEvents, EventsUnique, TurnsUnique, SequencesUnique, ActiveNewest, FenceUnique, BodiesInv,
         PromptMatches, Rank;
    BaseHistoryKeeps(c, h);
    CardOfPart(d.prompts.Keys, StagedIds(d.operations));
  }

  lemma CleanIsExact(c: Codec, h: History, d: Disk, before: Disk)
    requires BaseHistory(c, h) && Replay(h).disk == d
    requires d.runs == before.runs && d.operations == before.operations
    requires d.prompts == OnlyStaged(before.operations, before.prompts) && d.artifacts == OnlyReferenced(before.runs, before.artifacts)
    ensures BodiesExact(c, d)
  {
    hide BaseHistory, OperationOk, RunOk, EventsUnique, TurnsUnique, SequencesUnique, ActiveNewest, FenceUnique, RunsFit, OperationsFit,
         PromptsInv, BodiesInv, OnlyStaged, OnlyReferenced, PromptMatches, BodyMatches, StagedIds;
    BaseHistoryKeeps(c, h);
    CleanPrompts(c, d.operations, d.prompts, before.prompts);
    CleanBodies(c, d.meta.generation, d.runs, d.artifacts, before.artifacts);
  }

  lemma CleanPrompts(c: Codec, operations: Operations, prompts: map<OperationId, Text>, before: map<OperationId, Text>)
    requires PromptsInv(c, operations, prompts) && prompts == OnlyStaged(operations, before)
    ensures prompts.Keys == StagedIds(operations)
    ensures forall id :: id in prompts ==> id in operations && PromptMatches(c, operations[id], prompts[id])
  {
  }

  lemma BodyIsOwn(c: Codec, g: Generation, id: RunId, r: RunRecord)
    requires RunOk(c, g, id, r) && r.HasBody()
    ensures r.runId == id && r.artifact.value.fileName == Some(id)
  {
  }

  lemma CleanBodies(c: Codec, g: Generation, runs: Runs, bodies: map<RunId, Text>, before: map<RunId, Text>)
    requires (forall id :: id in runs ==> RunOk(c, g, id, runs[id])) && BodiesInv(c, runs, bodies) && bodies == OnlyReferenced(runs, before)
    ensures forall id :: id in bodies ==> id in runs && runs[id].HasBody()
    ensures forall id :: id in runs && runs[id].HasBody() ==> id in bodies && BodyMatches(c, runs[id].artifact.value, bodies[id])
  {
    hide RunOk, BodyMatches;
    forall id | id in bodies
      ensures id in runs && runs[id].HasBody()
    {
      var k :| k in runs && runs[k].HasBody() && runs[k].artifact.value.fileName.value == id;
      BodyIsOwn(c, g, k, runs[k]);
    }
    forall id | id in runs && runs[id].HasBody()
      ensures id in bodies && BodyMatches(c, runs[id].artifact.value, bodies[id])
    {
      BodyIsOwn(c, g, id, runs[id]);
      assert BodyPresent(c, runs[id], bodies);
    }
  }

  /** Cleaning a lawful directory leaves bodies and references one to one. */
  lemma CleanedIsExact(c: Codec, h: History, d: Disk)
    requires BaseHistory(c, h) && Replay(h).disk == d
    ensures BodiesExact(c, Cleaned(d))
  {
    hide BaseHistory, OperationOk, RunOk, EventsUnique, TurnsUnique, SequencesUnique, ActiveNewest, FenceUnique, RunsFit, OperationsFit,
         PromptsInv, BodiesInv, OnlyStaged, OnlyReferenced, PromptMatches, BodyMatches, StagedIds;
    BaseHistoryKeeps(c, h);
    var e := Cleaned(d);
    StillStaged(c, d.operations, d.prompts);
    StillReferenced(c, d.meta.generation, d.runs, d.artifacts);
    CleanPrompts(c, e.operations, e.prompts, d.prompts);
    CleanBodies(c, d.meta.generation, e.runs, e.artifacts, d.artifacts);
  }

  lemma StillStaged(c: Codec, operations: Operations, prompts: map<OperationId, Text>)
    requires PromptsInv(c, operations, prompts)
    ensures PromptsInv(c, operations, OnlyStaged(operations, prompts))
  {
    CardOfPart(prompts.Keys, OnlyStaged(operations, prompts).Keys);
  }

  lemma StillReferenced(c: Codec, g: Generation, runs: Runs, bodies: map<RunId, Text>)
    requires (forall id :: id in runs ==> RunOk(c, g, id, runs[id])) && BodiesInv(c, runs, bodies)
    ensures BodiesInv(c, runs, OnlyReferenced(runs, bodies))
  {
    hide RunOk, BodyMatches;
    forall id | id in runs
      ensures BodyPresent(c, runs[id], OnlyReferenced(runs, bodies))
    {
      if runs[id].HasBody() {
        BodyIsOwn(c, g, id, runs[id]);
        assert BodyPresent(c, runs[id], bodies);
        assert Referenced(runs, id);
      }
    }
  }

  /** Replacing a run by a valid one with the same artifact keeps a directory openable. */
  lemma ReplacedIsOpenable(c: Codec, d: Disk, r: RunRecord)
    requires Opens(c, d) && r.runId in d.runs && r.artifact == d.runs[r.runId].artifact
    requires ValidRun(c, r) && r.generation == d.meta.generation && c.runSize(r) <= RUN_RECORD_MAX_BYTES
    ensures Opens(c, d.(runs := d.runs[r.runId := r]))
  {
    hide ValidRun, ValidOperation, BodiesExact, Referenced, StagedIds, OnlyStaged, OnlyReferenced, RunRecord.HasBody;
    var runs' := d.runs[r.runId := r];
    CountAfterPut(d.runs, r.runId, r);
    SameReferences(d.runs, runs');
    SameReferenced(d.runs, runs', d.artifacts);
    SameBodiesExact(c, Cleaned(d), runs');
    assert Cleaned(d.(runs := runs')) == Cleaned(d).(runs := runs');
  }

  lemma SameReferences(runs: Runs, runs': Runs)
    requires runs'.Keys == runs.Keys && forall id :: id in runs ==> runs'[id].artifact == runs[id].artifact
    ensures forall id :: Referenced(runs', id) <==> Referenced(runs, id)
    ensures forall id :: id in runs ==> (runs'[id].HasBody() <==> runs[id].HasBody())
  {
    forall id
      ensures Referenced(runs', id) <==> Referenced(runs, id)
    {
      if Referenced(runs, id) {
        var k :| k in runs && runs[k].HasBody() && runs[k].artifact.value.fileName.value == id;
        assert runs'[k].HasBody();
      }
    }
  }

  lemma SameReferenced(runs: Runs, runs': Runs, bodies: map<RunId, Text>)
    requires forall id :: Referenced(runs', id) <==> Referenced(runs, id)
    ensures OnlyReferenced(runs', bodies) == OnlyReferenced(runs, bodies)
  {
    hide Referenced;
  }

  lemma SameBodiesExact(c: Codec, d: Disk, runs': Runs)
    requires BodiesExact(c, d) && runs'.Keys == d.runs.Keys && forall id :: id in d.runs ==> runs'[id].artifact == d.runs[id].artifact
    ensures BodiesExact(c, d.(runs := runs'))
  {
    hide BodyMatches, PromptMatches, StagedIds;
  }
}
