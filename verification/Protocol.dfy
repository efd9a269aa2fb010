/**
 * The durable protocol: the state directory as a value, the nine atomic writes the
 * program makes to it, when each is lawful, and what every lawful history keeps.
 *
 * Lawfulness has two halves. The base half concerns the records themselves; the
 * runtime keeps it in every state. The link half concerns the run an operation is
 * credited with; the runtime keeps it as long as no confirmation was refused for
 * lack of room (see `Wedge`).
 */
module Protocol {
  import opened Base
  import opened Records
  import opened Guards
  import opened Reducer
  import opened Framing
  import opened Regions

  const RUN_STORE_MAX_RECORDS: nat := 2048
  const RUN_STORE_MAX_BYTES: nat := 96 * 1024 * 1024
  const OPERATION_STORE_MAX_RECORDS: nat := 65_536
  const OPERATION_STORE_MAX_BYTES: nat := 128 * 1024 * 1024
  const PROMPT_STORE_MAX_RECORDS: nat := 128
  const PROMPT_STORE_MAX_BYTES: nat := 8 * 1024 * 1024

  datatype MetaStatus = Ready | Resetting
  datatype StateMeta = StateMeta(status: MetaStatus, generation: Generation, target: Option<Generation>)

  type Runs = map<RunId, RunRecord>
  type Operations = map<OperationId, OperationRecord>

  datatype Disk = Disk(
    meta: StateMeta,
    runs: Runs,
    operations: Operations,
    prompts: map<OperationId, Text>,
    artifacts: map<RunId, Text>)

  datatype Write =
    | CreateRun(run: RunRecord, cause: Observation)
    | ReplaceRun(run: RunRecord)
    | DropRun(runId: RunId)
    | CreateOperation(operation: OperationRecord)
    | ReplaceOperation(operation: OperationRecord)
    | StagePrompt(operationId: OperationId, body: Text)
    | DropPrompt(operationId: OperationId)
    | PutBody(runId: RunId, body: Text)
    | DropBody(runId: RunId)

  /** How a run came to be: the hook, and the operation it was credited to as stored at that moment. */
  datatype Birth = Birth(run: RunRecord, cause: Observation, operation: Option<OperationRecord>)

  /** The directory together with the births of all runs ever created in it. */
  datatype World = World(disk: Disk, births: map<RunId, Birth>)

  function Genesis(g: Generation): World {
    World(Disk(StateMeta(Ready, g, None), map[], map[], map[], map[]), map[])
  }

  function CreditedOperation(d: Disk, r: RunRecord): Option<OperationRecord> {
    if r.operationId.Some? && r.operationId.value in d.operations then Some(d.operations[r.operationId.value]) else None
  }

  function PerformOn(d: Disk, x: Write): Disk {
    match x
    case CreateRun(r, _) => d.(runs := d.runs[r.runId := r])
    case ReplaceRun(r) => d.(runs := d.runs[r.runId := r])
    case DropRun(id) => d.(runs := d.runs - {id})
    case CreateOperation(o) => d.(operations := d.operations[o.operationId := o])
    case ReplaceOperation(o) => d.(operations := d.operations[o.operationId := o])
    case StagePrompt(id, body) => d.(prompts := d.prompts[id := body])
    case DropPrompt(id) => d.(prompts := d.prompts - {id})
    case PutBody(id, body) => d.(artifacts := d.artifacts[id := body])
    case DropBody(id) => d.(artifacts := d.artifacts - {id})
  }

  predicate SameElseRuns(a: Disk, b: Disk) {
    a.meta == b.meta && a.operations == b.operations && a.prompts == b.prompts && a.artifacts == b.artifacts
  }

  predicate SameElseOperations(a: Disk, b: Disk) {
    a.meta == b.meta && a.runs == b.runs && a.prompts == b.prompts && a.artifacts == b.artifacts
  }

  predicate SameElsePrompts(a: Disk, b: Disk) {
    a.meta == b.meta && a.runs == b.runs && a.operations == b.operations && a.artifacts == b.artifacts
  }

  predicate SameElseArtifacts(a: Disk, b: Disk) {
    a.meta == b.meta && a.runs == b.runs && a.operations == b.operations && a.prompts == b.prompts
  }

  predicate SameElseResponses(a: Disk, b: Disk) {
    a.meta == b.meta && a.operations == b.operations && a.prompts == b.prompts
  }

  function Perform(w: World, x: Write): World {
    World(PerformOn(w.disk, x),
          if x.CreateRun? then w.births[x.run.runId := Birth(x.run, x.cause, CreditedOperation(w.disk, x.run))]
          else w.births)
  }

  // ---------------------------------------------------------------- base invariant

  predicate RunOk(c: Codec, g: Generation, id: RunId, r: RunRecord) {
    r.runId == id && r.generation == g && ValidRun(c, r) && DistinctEvents(r) && c.runSize(r) <= RUN_RECORD_MAX_BYTES
  }

  function TurnOf(r: RunRecord): Option<TurnKey> {
    if r.turnKey.None? then None else Some(TurnKey(r.binding.agentKind, r.binding.session, r.turnKey.value))
  }

  ghost predicate EventsUnique(runs: Runs) {
    forall a, b, e :: a in runs && b in runs && runs[a].HasEvent(e) && runs[b].HasEvent(e) ==> a == b
  }

  ghost predicate TurnsUnique(runs: Runs) {
    forall a, b :: a in runs && b in runs && TurnOf(runs[a]).Some? && TurnOf(runs[a]) == TurnOf(runs[b]) ==> a == b
  }

  ghost predicate SequencesUnique(runs: Runs) {
    forall a, b :: a in runs && b in runs && runs[a].binding == runs[b].binding && runs[a].runSeq == runs[b].runSeq ==> a == b
  }

  /** An active run is the newest of its Agent Binding; so there is at most one. */
  ghost predicate ActiveNewest(runs: Runs) {
    forall a, b :: a in runs && b in runs && runs[a].Active() && runs[b].binding == runs[a].binding ==>
      runs[b].runSeq <= runs[a].runSeq
  }

  ghost predicate RunsFit(c: Codec, runs: Runs) {
    |runs| <= RUN_STORE_MAX_RECORDS && TotalSize(runs, c.runSize) <= RUN_STORE_MAX_BYTES
  }

  ghost predicate RunsInv(c: Codec, g: Generation, runs: Runs) {
    && (forall id :: id in runs ==> RunOk(c, g, id, runs[id]))
    && EventsUnique(runs)
    && TurnsUnique(runs)
    && SequencesUnique(runs)
    && ActiveNewest(runs)
    && RunsFit(c, runs)
  }

  /** The fingerprint is that of the stored request. */
  predicate Fingerprinted(o: OperationRecord) {
    o.fingerprint == RequestFingerprint(o.targetRef, o.promptDigest, o.dispatchOption)
  }

  predicate OperationOk(g: Generation, id: OperationId, o: OperationRecord) {
    && Fingerprinted(o)
    && o.operationId == id
    && o.generation == g
    && ValidOperation(o)
    && 1 <= o.revision <= Rank(o)
    && (o.runId.Some? ==> o.state == PromptConfirmed)
  }

  /** One dispatch at a time: no two fenced operations share a target. */
  ghost predicate FenceUnique(operations: Operations) {
    forall a, b ::
      (a in operations && b in operations && operations[a].Fenced() && operations[b].Fenced()
       && TargetOf(operations[a].binding) == TargetOf(operations[b].binding)) ==> a == b
  }

  ghost predicate OperationsFit(c: Codec, operations: Operations) {
    && |operations| <= OPERATION_STORE_MAX_RECORDS
    && TotalSize(operations, c.operationSize) <= OPERATION_STORE_MAX_BYTES
  }

  predicate OperationsSmall(c: Codec, operations: Operations) {
    forall id :: id in operations ==> c.operationSize(operations[id]) <= OPERATION_RECORD_MAX_BYTES
  }

  ghost predicate OperationsInv(c: Codec, g: Generation, operations: Operations) {
    && (forall id :: id in operations ==> OperationOk(g, id, operations[id]))
    && OperationsSmall(c, operations)
    && FenceUnique(operations)
    && OperationsFit(c, operations)
  }

  predicate PromptMatches(c: Codec, o: OperationRecord, body: Text) {
    |body| <= PROMPT_BODY_MAX_BYTES && c.isUtf8(body) && PromptDigest(body) == o.promptDigest
  }

  ghost predicate PromptsInv(c: Codec, operations: Operations, prompts: map<OperationId, Text>) {
    && |prompts| <= PROMPT_STORE_MAX_RECORDS
    && forall id :: id in operations && operations[id].StagingRequired() ==>
         id in prompts && PromptMatches(c, operations[id], prompts[id])
  }

  predicate BodyMatches(c: Codec, a: Artifact, body: Text) {
    && |body| <= RESPONSE_ARTIFACT_BODY_MAX_BYTES
    && c.isUtf8(body)
    && |body| == a.storedBytes
    && Some(Sha256(body)) == a.storedDigest
  }

  predicate BodyPresent(c: Codec, r: RunRecord, artifacts: map<RunId, Text>) {
    r.HasBody() ==> r.runId in artifacts && BodyMatches(c, r.artifact.value, artifacts[r.runId])
  }

  ghost predicate BodiesInv(c: Codec, runs: Runs, artifacts: map<RunId, Text>) {
    forall id :: id in runs ==> BodyPresent(c, runs[id], artifacts)
  }

  ghost predicate BaseInv(c: Codec, d: Disk) {
    && d.meta.status == Ready
    && RunsInv(c, d.meta.generation, d.runs)
    && OperationsInv(c, d.meta.generation, d.operations)
    && PromptsInv(c, d.operations, d.prompts)
    && BodiesInv(c, d.runs, d.artifacts)
  }

  // ---------------------------------------------------------------- base lawfulness

  predicate BornOf(r: RunRecord, cause: Observation) {
    && cause.CanStartRun()
    && ObservationMatches(r.binding, cause)
    && r.turnKey == cause.turnKey
    && r.createdAt == cause.observedAt
    && (r.operationId.Some? ==> cause.hook == UserPromptSubmit)
  }

  ghost predicate EventsFresh(runs: Runs, r: RunRecord) {
    forall id, e :: id in runs && id != r.runId && runs[id].HasEvent(e) ==> !r.HasEvent(e)
  }

  ghost predicate LawfulCreate(c: Codec, d: Disk, r: RunRecord, cause: Observation) {
    && r.runId !in d.runs
    && RunOk(c, d.meta.generation, r.runId, r)
    && BornOf(r, cause)
    && r.artifact.None?
    && EventsFresh(d.runs, r)
    && (forall id :: id in d.runs && TurnOf(r).Some? ==> TurnOf(d.runs[id]) != TurnOf(r))
    && (forall id :: id in d.runs && d.runs[id].binding == r.binding ==> d.runs[id].runSeq < r.runSeq && !d.runs[id].Active())
    && RunsFit(c, d.runs[r.runId := r])
  }

  ghost predicate LawfulReplace(c: Codec, d: Disk, r: RunRecord) {
    && r.runId in d.runs
    && RunOk(c, d.meta.generation, r.runId, r)
    && RunReplacement(d.runs[r.runId], r)
    && (r.Active() ==> d.runs[r.runId].Active())
    && EventsFresh(d.runs, r)
    && BodyPresent(c, r, d.artifacts)
    && RunsFit(c, d.runs[r.runId := r])
  }

  ghost predicate FenceFree(operations: Operations, key: TargetKey) {
    forall id :: id in operations && operations[id].Fenced() ==> TargetOf(operations[id].binding) != key
  }

  ghost predicate LawfulPrepare(c: Codec, d: Disk, o: OperationRecord) {
    && o.operationId !in d.operations
    && OperationOk(d.meta.generation, o.operationId, o)
    && o.state == Prepared
    && o.operationId in d.prompts
    && PromptMatches(c, o, d.prompts[o.operationId])
    && FenceFree(d.operations, TargetOf(o.binding))
    && c.operationSize(o) <= OPERATION_RECORD_MAX_BYTES
    && OperationsFit(c, d.operations[o.operationId := o])
  }

  ghost predicate LawfulAdvance(c: Codec, d: Disk, o: OperationRecord) {
    && o.operationId in d.operations
    && ValidOperation(o)
    && OperationReplacement(d.operations[o.operationId], o)
    && (o.runId.Some? ==> o.state == PromptConfirmed)
    && c.operationSize(o) <= OPERATION_RECORD_MAX_BYTES
    && OperationsFit(c, d.operations[o.operationId := o])
  }

  ghost predicate BaseLawful(c: Codec, d: Disk, x: Write) {
    match x
    case CreateRun(r, cause) => LawfulCreate(c, d, r, cause)
    case ReplaceRun(r) => LawfulReplace(c, d, r)
    case DropRun(id) => id in d.runs && !d.runs[id].Active()
    case CreateOperation(o) => LawfulPrepare(c, d, o)
    case ReplaceOperation(o) => LawfulAdvance(c, d, o)
    case StagePrompt(id, body) => id !in d.prompts && |d.prompts| < PROMPT_STORE_MAX_RECORDS
    case DropPrompt(id) => id in d.operations ==> !d.operations[id].StagingRequired()
    case PutBody(id, body) => id in d.runs ==> !d.runs[id].HasBody()
    case DropBody(id) => id in d.runs ==> !d.runs[id].HasBody()
  }

  lemma PutKeepsEvents(runs: Runs, r: RunRecord)
    requires EventsUnique(runs) && EventsFresh(runs, r)
    ensures EventsUnique(runs[r.runId := r])
  {
  }

  lemma PutKeepsTurns(runs: Runs, r: RunRecord)
    requires TurnsUnique(runs)
    requires forall id :: id in runs && id != r.runId && TurnOf(r).Some? ==> TurnOf(runs[id]) != TurnOf(r)
    ensures TurnsUnique(runs[r.runId := r])
  {
  }

  lemma PutKeepsSequences(runs: Runs, r: RunRecord)
    requires SequencesUnique(runs)
    requires forall id :: id in runs && id != r.runId && runs[id].binding == r.binding ==> runs[id].runSeq != r.runSeq
    ensures SequencesUnique(runs[r.runId := r])
  {
  }

  lemma CreateKeepsRuns(c: Codec, d: Disk, r: RunRecord, cause: Observation)
    requires RunsInv(c, d.meta.generation, d.runs) && LawfulCreate(c, d, r, cause)
    ensures RunsInv(c, d.meta.generation, d.runs[r.runId := r])
  {
    hide RunOk, RunsFit, EventsUnique, TurnsUnique, SequencesUnique, ActiveNewest, EventsFresh, BornOf, RunRecord.Active, TurnOf;
    PutKeepsEvents(d.runs, r);
    PutKeepsTurns(d.runs, r);
    PutKeepsSequences(d.runs, r);
    CreateKeepsActive(d.runs, r);
  }

  lemma CreateKeepsActive(runs: Runs, r: RunRecord)
    requires ActiveNewest(runs)
    requires forall id :: id in runs && runs[id].binding == r.binding ==> runs[id].runSeq < r.runSeq && !runs[id].Active()
    ensures ActiveNewest(runs[r.runId := r])
  {
    hide RunRecord.Active;
  }

  lemma ReplaceKeepsActive(runs: Runs, r: RunRecord)
    requires r.runId in runs && runs[r.runId].binding == r.binding && runs[r.runId].runSeq == r.runSeq
    requires r.Active() ==> runs[r.runId].Active()
    requires ActiveNewest(runs)
    ensures ActiveNewest(runs[r.runId := r])
  {
    var runs' := runs[r.runId := r];
    forall a, b | a in runs' && b in runs' && runs'[a].Active() && runs'[b].binding == runs'[a].binding
      ensures runs'[b].runSeq <= runs'[a].runSeq
    {
      assert runs[a].Active() && runs[b].binding == runs[a].binding;
    }
  }

  lemma ReplaceKeepsRuns(c: Codec, d: Disk, r: RunRecord)
    requires RunsInv(c, d.meta.generation, d.runs) && LawfulReplace(c, d, r)
    ensures RunsInv(c, d.meta.generation, d.runs[r.runId := r])
  {
    hide RunOk, RunsFit, EventsUnique, ActiveNewest, EventsFresh, RunRecord.Active, BodyPresent, EvidenceReplacement, ArtifactReplacement;
    assert TurnOf(r) == TurnOf(d.runs[r.runId]);
    PutKeepsEvents(d.runs, r);
    PutKeepsTurns(d.runs, r);
    PutKeepsSequences(d.runs, r);
    ReplaceKeepsActive(d.runs, r);
  }

  lemma DropKeepsRuns(c: Codec, d: Disk, gone: set<RunId>)
    requires RunsInv(c, d.meta.generation, d.runs)
    ensures RunsInv(c, d.meta.generation, d.runs - gone)
  {
    hide RunOk, TotalSize, EventsUnique, TurnsUnique, SequencesUnique, ActiveNewest;
    TotalOfPart(d.runs, c.runSize, gone);
    PartIsDistinct(d.runs, gone);
  }

  lemma PartIsDistinct(runs: Runs, gone: set<RunId>)
    requires EventsUnique(runs) && TurnsUnique(runs) && SequencesUnique(runs) && ActiveNewest(runs)
    ensures EventsUnique(runs - gone) && TurnsUnique(runs - gone) && SequencesUnique(runs - gone) && ActiveNewest(runs - gone)
  {
    hide RunRecord.Active, RunRecord.HasEvent, TurnOf;
  }

  lemma PrepareKeepsOperations(c: Codec, d: Disk, o: OperationRecord)
    requires OperationsInv(c, d.meta.generation, d.operations) && LawfulPrepare(c, d, o)
    ensures OperationsInv(c, d.meta.generation, d.operations[o.operationId := o])
  {
    hide OperationOk, OperationsFit, PromptMatches, OperationRecord.Fenced;
  }

  lemma AdvanceIsOk(g: Generation, old_: OperationRecord, o: OperationRecord)
    requires OperationOk(g, old_.operationId, old_) && ValidOperation(o)
    requires OperationReplacement(old_, o) && (o.runId.Some? ==> o.state == PromptConfirmed)
    ensures OperationOk(g, old_.operationId, o)
  {
    ReplacementAdvances(old_, o);
  }

  lemma AdvanceKeepsOperations(c: Codec, d: Disk, o: OperationRecord)
    requires OperationsInv(c, d.meta.generation, d.operations) && LawfulAdvance(c, d, o)
    ensures OperationsInv(c, d.meta.generation, d.operations[o.operationId := o])
  {
    hide ValidOperation, OperationReplacement, Rank, Fingerprinted, OperationsFit, OperationRecord.Fenced;
    AdvanceIsOk(d.meta.generation, d.operations[o.operationId], o);
    ReplacementAdvances(d.operations[o.operationId], o);
  }

  lemma DropCount<K, V>(m: map<K, V>, k: K)
    ensures |m - {k}| <= |m|
  {
    CardOfPart(m.Keys, (m - {k}).Keys);
  }

  lemma BodiesAfterRun(c: Codec, runs: Runs, artifacts: map<RunId, Text>, r: RunRecord)
    requires BodiesInv(c, runs, artifacts) && BodyPresent(c, r, artifacts)
    ensures BodiesInv(c, runs[r.runId := r], artifacts)
  {
  }

  lemma BodiesAfterBody(c: Codec, g: Generation, runs: Runs, artifacts: map<RunId, Text>, artifacts': map<RunId, Text>, id: RunId)
    requires forall k :: k in runs ==> RunOk(c, g, k, runs[k])
    requires BodiesInv(c, runs, artifacts) && (id in runs ==> !runs[id].HasBody())
    requires artifacts' - {id} == artifacts - {id}
    ensures BodiesInv(c, runs, artifacts')
  {
    forall k | k in runs
      ensures BodyPresent(c, runs[k], artifacts')
    {
      if runs[k].HasBody() {
        assert BodyPresent(c, runs[k], artifacts);
        assert runs[k].runId == k != id;
        assert k in artifacts - {id} && (artifacts - {id})[k] == artifacts[k];
        assert k in artifacts' - {id} && (artifacts' - {id})[k] == artifacts'[k];
      }
    }
  }

  lemma PromptsAfterOperation(c: Codec, operations: Operations, prompts: map<OperationId, Text>, o: OperationRecord)
    requires PromptsInv(c, operations, prompts)
    requires o.StagingRequired() ==> o.operationId in prompts && PromptMatches(c, o, prompts[o.operationId])
    ensures PromptsInv(c, operations[o.operationId := o], prompts)
  {
  }

  lemma PromptsAfterPrompt(c: Codec, operations: Operations, prompts: map<OperationId, Text>, prompts': map<OperationId, Text>,
                           id: OperationId)
    requires PromptsInv(c, operations, prompts) && |prompts'| <= PROMPT_STORE_MAX_RECORDS
    requires id in operations && operations[id].StagingRequired() ==> id !in prompts
    requires prompts' - {id} == prompts - {id}
    ensures PromptsInv(c, operations, prompts')
  {
    forall k | k in operations && operations[k].StagingRequired()
      ensures k in prompts' && PromptMatches(c, operations[k], prompts'[k])
    {
      assert k != id;
      assert k in prompts - {id} && (prompts - {id})[k] == prompts[k];
      assert k in prompts' - {id} && (prompts' - {id})[k] == prompts'[k];
    }
  }

  lemma RunWriteKeepsBase(c: Codec, d: Disk, x: Write)
    requires BaseInv(c, d) && BaseLawful(c, d, x)
    requires x.CreateRun? || x.ReplaceRun? || x.DropRun?
    ensures BaseInv(c, PerformOn(d, x))
  {
    hide OperationsInv, PromptsInv, RunOk, EventsUnique, TurnsUnique, SequencesUnique, ActiveNewest, RunsFit, EventsFresh, BornOf, RunReplacement, BodyMatches;
    match x {
      case CreateRun(r, cause) =>
        CreateKeepsRuns(c, d, r, cause);
        BodiesAfterRun(c, d.runs, d.artifacts, r);
      case ReplaceRun(r) =>
        ReplaceKeepsRuns(c, d, r);
        BodiesAfterRun(c, d.runs, d.artifacts, r);
      case DropRun(id) => DropKeepsRuns(c, d, {id});
    }
  }

  /** An operation that still needs its prompt keeps the one it had. */
  lemma AdvanceKeepsPrompt(c: Codec, d: Disk, o: OperationRecord)
    requires PromptsInv(c, d.operations, d.prompts) && LawfulAdvance(c, d, o)
    ensures o.StagingRequired() ==> o.operationId in d.prompts && PromptMatches(c, o, d.prompts[o.operationId])
  {
    hide ValidOperation, OperationsFit, SessionRebound;
    var was := d.operations[o.operationId];
    assert o.StagingRequired() ==> was.StagingRequired();
    assert was.StagingRequired() ==> PromptMatches(c, was, d.prompts[o.operationId]);
  }

  lemma OperationWriteKeepsBase(c: Codec, d: Disk, x: Write)
    requires BaseInv(c, d) && BaseLawful(c, d, x)
    requires x.CreateOperation? || x.ReplaceOperation?
    ensures BaseInv(c, PerformOn(d, x))
  {
    hide OperationsInv, OperationOk, OperationsFit, FenceFree, PromptsInv, PromptMatches, RunsInv, BodiesInv, ValidOperation, OperationReplacement;
    match x {
      case CreateOperation(o) =>
        PrepareKeepsOperations(c, d, o);
        PromptsAfterOperation(c, d.operations, d.prompts, o);
      case ReplaceOperation(o) =>
        AdvanceKeepsOperations(c, d, o);
        AdvanceKeepsPrompt(c, d, o);
        PromptsAfterOperation(c, d.operations, d.prompts, o);
    }
  }

  lemma StageKeepsBase(c: Codec, d: Disk, id: OperationId, body: Text)
    requires BaseInv(c, d) && BaseLawful(c, d, StagePrompt(id, body))
    ensures BaseInv(c, d.(prompts := d.prompts[id := body]))
  {
    hide RunsInv, OperationsInv, BodiesInv, PromptMatches;
    CountAfterPut(d.prompts, id, body);
    PromptsAfterPrompt(c, d.operations, d.prompts, d.prompts[id := body], id);
  }

  lemma UnstageKeepsBase(c: Codec, d: Disk, id: OperationId)
    requires BaseInv(c, d) && BaseLawful(c, d, DropPrompt(id))
    ensures BaseInv(c, d.(prompts := d.prompts - {id}))
  {
    hide RunsInv, OperationsInv, BodiesInv, PromptMatches;
    DropCount(d.prompts, id);
    PromptsAfterPrompt(c, d.operations, d.prompts, d.prompts - {id}, id);
  }

  lemma BodyWriteKeepsBase(c: Codec, d: Disk, x: Write)
    requires BaseInv(c, d) && BaseLawful(c, d, x)
    requires x.PutBody? || x.DropBody?
    ensures BaseInv(c, PerformOn(d, x))
  {
    hide OperationsInv, PromptsInv, BodiesInv, RunOk, RunRecord.HasBody, EventsUnique, TurnsUnique, SequencesUnique, ActiveNewest, RunsFit;
    match x {
      case PutBody(id, body) =>
        assert d.artifacts[id := body] - {id} == d.artifacts - {id};
        BodiesAfterBody(c, d.meta.generation, d.runs, d.artifacts, d.artifacts[id := body], id);
      case DropBody(id) =>
        assert d.artifacts - {id} - {id} == d.artifacts - {id};
        BodiesAfterBody(c, d.meta.generation, d.runs, d.artifacts, d.artifacts - {id}, id);
    }
  }

  /** Every base-lawful write keeps the base invariant. */
  lemma WriteKeepsBase(c: Codec, d: Disk, x: Write)
    requires BaseInv(c, d) && BaseLawful(c, d, x)
    ensures BaseInv(c, PerformOn(d, x))
  {
    if x.CreateRun? || x.ReplaceRun? || x.DropRun? {
      RunWriteKeepsBase(c, d, x);
    } else if x.CreateOperation? || x.ReplaceOperation? {
      OperationWriteKeepsBase(c, d, x);
    } else if x.StagePrompt? {
      StageKeepsBase(c, d, x.operationId, x.body);
    } else if x.DropPrompt? {
      UnstageKeepsBase(c, d, x.operationId);
    } else {
      BodyWriteKeepsBase(c, d, x);
    }
  }

  // ---------------------------------------------------------------- links between runs and operations

  /** What the receipt of a confirmation says: whether the prompt was seen before the deadline. */
  function BasisOf(createdAt: int, deadlineAt: int): ConfirmationBasis {
    if createdAt > deadlineAt then BindingSequenceDigest else GuardedWindowDigest
  }

  predicate ReceiptTells(o: OperationRecord, createdAt: int) {
    o.receipt.Some? && o.receipt.value.basis == Some(BasisOf(createdAt, o.deadlineAt))
  }

  /** The hook really reports the dispatched prompt, in the expected turn of the dispatched agent. */
  predicate Attests(b: Birth) {
    && b.operation.Some?
    && var sent := b.operation.value;
       && b.run.operationId == Some(sent.operationId)
       && sent.Confirmable()
       && BornOf(b.run, b.cause)
       && b.cause.hook == UserPromptSubmit
       && b.cause.promptDigest == Some(sent.promptDigest)
       && sent.updatedAt <= b.cause.observedAt
       && BindingMatches(sent.binding, b.run.binding)
       && SequenceMatches(sent, b.run.binding, b.run.runSeq)
  }

  /** The credited operation, now: confirmed by this very run, or still waiting for it unchanged. */
  predicate Credited(d: Disk, b: Birth) {
    && b.operation.Some?
    && var sent := b.operation.value;
       && sent.operationId in d.operations
       && var o := d.operations[sent.operationId];
          && SameRequest(sent, o)
          && (|| (o.state == PromptConfirmed && o.runId == Some(b.run.runId) && o.binding == FromAgent(b.run.binding)
                  && ReceiptTells(o, b.run.createdAt))
              || (o.Confirmable() && o.binding == sent.binding && b.run.runId in d.runs))
  }

  ghost predicate RunsBorn(runs: Runs, births: map<RunId, Birth>) {
    && (forall id :: id in births ==> births[id].run.runId == id)
    && (forall id :: id in runs ==> id in births && SameRunIdentity(births[id].run, runs[id]))
  }

  ghost predicate CreditsHeld(d: Disk, births: map<RunId, Birth>) {
    forall id :: id in births && births[id].run.operationId.Some? ==> Attests(births[id]) && Credited(d, births[id])
  }

  /** No operation is ever credited with two runs, even counting runs already removed. */
  ghost predicate CreditsUnique(births: map<RunId, Birth>) {
    forall a, b :: a in births && b in births && births[a].run.operationId.Some? ==>
      births[a].run.operationId == births[b].run.operationId ==> a == b
  }

  ghost predicate ConfirmedBorn(operations: Operations, births: map<RunId, Birth>) {
    forall o :: o in operations && operations[o].state == PromptConfirmed ==>
      && operations[o].runId.Some?
      && operations[o].runId.value in births
      && births[operations[o].runId.value].run.operationId == Some(o)
  }

  ghost predicate LinkInv(w: World) {
    && RunsBorn(w.disk.runs, w.births)
    && CreditsHeld(w.disk, w.births)
    && CreditsUnique(w.births)
    && ConfirmedBorn(w.disk.operations, w.births)
  }

  ghost predicate Unlinked(runs: Runs, o: OperationId) {
    forall id :: id in runs ==> runs[id].operationId != Some(o)
  }

  ghost predicate LinkLawful(w: World, x: Write) {
    match x
    case CreateRun(r, cause) =>
      && r.runId !in w.births
      && (r.operationId.Some? ==>
            && Attests(Birth(r, cause, CreditedOperation(w.disk, r)))
            && forall id :: id in w.births ==> w.births[id].run.operationId != r.operationId)
    case DropRun(id) =>
      id in w.disk.runs && w.disk.runs[id].operationId.Some? ==>
        && w.disk.runs[id].operationId.value in w.disk.operations
        && w.disk.operations[w.disk.runs[id].operationId.value].state == PromptConfirmed
    case ReplaceOperation(o) =>
      && (o.state == PromptConfirmed ==>
            && o.runId.Some?
            && o.runId.value in w.disk.runs
            && w.disk.runs[o.runId.value].operationId == Some(o.operationId)
            && o.binding == FromAgent(w.disk.runs[o.runId.value].binding)
            && ReceiptTells(o, w.disk.runs[o.runId.value].createdAt))
      && (o.state == Rejected || o.Abandoned() ==> Unlinked(w.disk.runs, o.operationId))
    case _ => true
  }

  /** No run claims an operation that was not sent yet. */
  lemma UncreditedWhenPrepared(w: World, o: OperationId)
    requires LinkInv(w) && o in w.disk.operations && w.disk.operations[o].state == Prepared
    ensures Unlinked(w.disk.runs, o)
  {
    forall id | id in w.disk.runs
      ensures w.disk.runs[id].operationId != Some(o)
    {
      assert SameRunIdentity(w.births[id].run, w.disk.runs[id]);
      assert w.disk.runs[id].operationId == Some(o) ==> Credited(w.disk, w.births[id]);
    }
  }

  /** The operation a stored run claims is confirmed by it, or still matches it. */
  lemma ClaimMatches(w: World, id: RunId)
    requires LinkInv(w) && id in w.disk.runs && w.disk.runs[id].operationId.Some?
    ensures var run := w.disk.runs[id];
      && run.operationId.value in w.disk.operations
      && var o := w.disk.operations[run.operationId.value];
         && o.operationId == run.operationId.value
         && (|| (o.state == PromptConfirmed && o.runId == Some(id) && o.binding == FromAgent(run.binding))
             || (o.Confirmable() && BindingMatches(o.binding, run.binding) && SequenceMatches(o, run.binding, run.runSeq)))
  {
    var b := w.births[id];
    assert SameRunIdentity(b.run, w.disk.runs[id]);
    assert Attests(b) && Credited(w.disk, b);
  }

  lemma CreateKeepsCredits(w: World, r: RunRecord, cause: Observation)
    requires LinkInv(w) && LinkLawful(w, CreateRun(r, cause)) && r.runId !in w.disk.runs
    ensures CreditsHeld(Perform(w, CreateRun(r, cause)).disk, Perform(w, CreateRun(r, cause)).births)
  {
    var w' := Perform(w, CreateRun(r, cause));
    forall id | id in w'.births && w'.births[id].run.operationId.Some?
      ensures Attests(w'.births[id]) && Credited(w'.disk, w'.births[id])
    {
      if id != r.runId {
        assert Attests(w.births[id]) && Credited(w.disk, w.births[id]);
      }
    }
  }

  lemma CreateRunKeepsLinks(c: Codec, w: World, r: RunRecord, cause: Observation)
    requires LinkInv(w) && LinkLawful(w, CreateRun(r, cause)) && r.runId !in w.disk.runs
    ensures LinkInv(Perform(w, CreateRun(r, cause)))
  {
    hide Attests, CreditsHeld, Credited, RunsBorn, CreditsUnique, ConfirmedBorn;
    CreateKeepsCredits(w, r, cause);
    CreateKeepsBirths(w.disk.runs, w.births, r, Birth(r, cause, CreditedOperation(w.disk, r)));
    ConfirmedStayBorn(w.disk.operations, w.births, Birth(r, cause, CreditedOperation(w.disk, r)));
  }

  lemma CreateKeepsBirths(runs: Runs, births: map<RunId, Birth>, r: RunRecord, b: Birth)
    requires RunsBorn(runs, births) && CreditsUnique(births) && b.run == r && r.runId !in births
    requires r.operationId.Some? ==> forall id :: id in births ==> births[id].run.operationId != r.operationId
    ensures RunsBorn(runs[r.runId := r], births[r.runId := b]) && CreditsUnique(births[r.runId := b])
  {
  }

  lemma ConfirmedStayBorn(operations: Operations, births: map<RunId, Birth>, b: Birth)
    requires ConfirmedBorn(operations, births) && b.run.runId !in births
    ensures ConfirmedBorn(operations, births[b.run.runId := b])
  {
  }

  lemma ReplaceRunKeepsLinks(c: Codec, w: World, r: RunRecord)
    requires LinkInv(w) && BaseLawful(c, w.disk, ReplaceRun(r))
    ensures LinkInv(Perform(w, ReplaceRun(r)))
  {
    var w' := Perform(w, ReplaceRun(r));
    forall id | id in w'.births && w'.births[id].run.operationId.Some?
      ensures Credited(w'.disk, w'.births[id])
    {
      assert Credited(w.disk, w.births[id]);
    }
  }

  lemma DropRunKeepsLinks(c: Codec, w: World, gone: RunId)
    requires LinkInv(w) && BaseLawful(c, w.disk, DropRun(gone)) && LinkLawful(w, DropRun(gone))
    ensures LinkInv(Perform(w, DropRun(gone)))
  {
    var w' := Perform(w, DropRun(gone));
    forall id | id in w'.births && w'.births[id].run.operationId.Some?
      ensures Credited(w'.disk, w'.births[id])
    {
      assert Credited(w.disk, w.births[id]);
      assert SameRunIdentity(w.births[gone].run, w.disk.runs[gone]);
    }
  }

  lemma AdvanceKeepsCredit(c: Codec, w: World, o: OperationRecord, id: RunId)
    requires LinkInv(w) && LawfulAdvance(c, w.disk, o) && LinkLawful(w, ReplaceOperation(o))
    requires id in w.births && w.births[id].run.operationId == Some(o.operationId)
    ensures Credited(PerformOn(w.disk, ReplaceOperation(o)), w.births[id])
  {
    var b := w.births[id];
    var old_ := w.disk.operations[o.operationId];
    assert Attests(b) && Credited(w.disk, b);
    ReplacementAdvances(old_, o);
    assert old_.Confirmable() && id in w.disk.runs;
    assert SameRunIdentity(b.run, w.disk.runs[id]);
    if o.state == PromptConfirmed {
      assert SameRunIdentity(w.births[o.runId.value].run, w.disk.runs[o.runId.value]);
      assert o.runId.value == id;
    } else {
      assert !Unlinked(w.disk.runs, o.operationId);
      assert o.Confirmable() && o.binding == old_.binding;
    }
  }

  lemma AdvanceKeepsCredits(c: Codec, w: World, o: OperationRecord)
    requires LinkInv(w) && LawfulAdvance(c, w.disk, o) && LinkLawful(w, ReplaceOperation(o))
    ensures CreditsHeld(PerformOn(w.disk, ReplaceOperation(o)), w.births)
  {
    hide LawfulAdvance, LinkLawful, Attests, RunsBorn, CreditsUnique, ConfirmedBorn;
    var d' := PerformOn(w.disk, ReplaceOperation(o));
    forall id | id in w.births && w.births[id].run.operationId.Some?
      ensures Attests(w.births[id]) && Credited(d', w.births[id])
    {
      assert Attests(w.births[id]) && Credited(w.disk, w.births[id]);
      if w.births[id].run.operationId == Some(o.operationId) {
        AdvanceKeepsCredit(c, w, o, id);
      } else {
        AttestedIsClaimed(w.births[id]);
      }
    }
  }

  lemma AttestedIsClaimed(b: Birth)
    requires Attests(b)
    ensures b.run.operationId == Some(b.operation.value.operationId)
  {
  }

  lemma AdvanceKeepsConfirmed(w: World, o: OperationRecord)
    requires RunsBorn(w.disk.runs, w.births) && ConfirmedBorn(w.disk.operations, w.births) && LinkLawful(w, ReplaceOperation(o))
    ensures ConfirmedBorn(w.disk.operations[o.operationId := o], w.births)
  {
    if o.state == PromptConfirmed {
      assert SameRunIdentity(w.births[o.runId.value].run, w.disk.runs[o.runId.value]);
    }
  }

  lemma AdvanceKeepsLinks(c: Codec, w: World, o: OperationRecord)
    requires LinkInv(w) && LawfulAdvance(c, w.disk, o) && LinkLawful(w, ReplaceOperation(o))
    ensures LinkInv(Perform(w, ReplaceOperation(o)))
  {
    hide LawfulAdvance, LinkLawful, RunsBorn, CreditsHeld, CreditsUnique, ConfirmedBorn;
    AdvanceKeepsCredits(c, w, o);
    AdvanceKeepsConfirmed(w, o);
  }

  lemma OtherKeepsLinks(c: Codec, w: World, x: Write)
    requires LinkInv(w) && BaseLawful(c, w.disk, x)
    requires !x.CreateRun? && !x.ReplaceRun? && !x.DropRun? && !x.ReplaceOperation?
    ensures LinkInv(Perform(w, x))
  {
    var w' := Perform(w, x);
    forall id | id in w'.births && w'.births[id].run.operationId.Some?
      ensures Credited(w'.disk, w'.births[id])
    {
      assert Credited(w.disk, w.births[id]);
    }
  }

  /** Every lawful write keeps the links. */
  lemma WriteKeepsLinks(c: Codec, w: World, x: Write)
    requires LinkInv(w) && BaseLawful(c, w.disk, x) && LinkLawful(w, x)
    ensures LinkInv(Perform(w, x))
  {
    match x {
      case CreateRun(r, cause) => CreateRunKeepsLinks(c, w, r, cause);
      case ReplaceRun(r) => ReplaceRunKeepsLinks(c, w, r);
      case DropRun(id) => DropRunKeepsLinks(c, w, id);
      case ReplaceOperation(o) => AdvanceKeepsLinks(c, w, o);
      case _ => OtherKeepsLinks(c, w, x);
    }
  }

  // ---------------------------------------------------------------- histories

  /** All durable writes since a directory was set up, newest outermost. A crash loses none of them. */
  datatype History = Opened(origin: World) | After(past: History, write: Write)

  function Replay(h: History): World {
    match h
    case Opened(origin) => origin
    case After(past, x) => Perform(Replay(past), x)
  }

  /** Every stored run was born here. */
  predicate RunsKnown(w: World) {
    forall id :: id in w.disk.runs ==> id in w.births
  }

  /** A drawn run identifier was never used before. */
  predicate FreshRun(w: World, x: Write) {
    x.CreateRun? ==> x.run.runId !in w.births
  }

  ghost predicate BaseHistory(c: Codec, h: History) {
    match h
    case Opened(origin) => BaseInv(c, origin.disk) && RunsKnown(origin)
    case After(past, x) => BaseHistory(c, past) && BaseLawful(c, Replay(past).disk, x) && FreshRun(Replay(past), x)
  }

  ghost predicate LinkHistory(h: History) {
    match h
    case Opened(origin) => LinkInv(origin)
    case After(past, x) => LinkHistory(past) && LinkLawful(Replay(past), x)
  }

  /** What had been written when h was cut off between two of its writes. */
  predicate CutOf(h: History, cut: History) {
    h == cut || (h.After? && CutOf(h.past, cut))
  }

  ghost predicate Recoverable(c: Codec, w: World) {
    BaseInv(c, w.disk) && LinkInv(w)
  }

  lemma {:induction false} BaseHistoryKeeps(c: Codec, h: History)
    requires BaseHistory(c, h)
    ensures BaseInv(c, Replay(h).disk)
  {
    if h.After? {
      BaseHistoryKeeps(c, h.past);
      WriteKeepsBase(c, Replay(h.past).disk, h.write);
    }
  }

  lemma {:induction false} LinkHistoryKeeps(c: Codec, h: History)
    requires BaseHistory(c, h) && LinkHistory(h)
    ensures LinkInv(Replay(h))
  {
    if h.After? {
      LinkHistoryKeeps(c, h.past);
      WriteKeepsLinks(c, Replay(h.past), h.write);
    }
  }

  lemma {:induction false} CutIsLawful(c: Codec, h: History, cut: History)
    requires CutOf(h, cut) && BaseHistory(c, h)
    ensures BaseHistory(c, cut)
    ensures LinkHistory(h) ==> LinkHistory(cut)
  {
    if h != cut {
      CutIsLawful(c, h.past, cut);
    }
  }

  /** The empty directory is where every history may start. */
  lemma GenesisIsRecoverable(c: Codec, g: Generation)
    ensures Recoverable(c, Genesis(g))
    ensures BaseHistory(c, Opened(Genesis(g))) && LinkHistory(Opened(Genesis(g)))
  {
    assert TotalSize<RunId, RunRecord>(map[], c.runSize) == 0;
    assert TotalSize<OperationId, OperationRecord>(map[], c.operationSize) == 0;
  }

  /** Crash safety: cut any lawful history after any of its durable writes, and the directory is recoverable. */
  lemma EveryCutIsRecoverable(c: Codec, h: History, cut: History)
    requires BaseHistory(c, h) && LinkHistory(h) && CutOf(h, cut)
    ensures Recoverable(c, Replay(cut))
  {
    CutIsLawful(c, h, cut);
    BaseHistoryKeeps(c, cut);
    LinkHistoryKeeps(c, cut);
  }

  /**
   * Attribution: whatever the history, a confirmed operation was confirmed by one run,
   * and that run was created by a user-prompt hook carrying the dispatched digest, in
   * the dispatched pane and process, in the expected turn, no earlier than the dispatch
   * and while the operation was neither settled otherwise nor abandoned.
   */
  lemma AttributionIsSound(c: Codec, h: History, o: OperationId)
    requires BaseHistory(c, h) && LinkHistory(h)
    requires o in Replay(h).disk.operations && Replay(h).disk.operations[o].state == PromptConfirmed
    ensures var w := Replay(h);
            var op := w.disk.operations[o];
            && op.runId.Some? && op.runId.value in w.births
            && var birth := w.births[op.runId.value];
               && birth.operation.Some?
               && var sent := birth.operation.value;
                  && SameRequest(sent, op)
                  && (sent.state == DispatchStarted || sent.state == DeliveryUnknown) && !sent.Abandoned()
                  && birth.cause.hook == UserPromptSubmit
                  && birth.cause.promptDigest == Some(op.promptDigest)
                  && sent.updatedAt <= birth.cause.observedAt
                  && birth.run.createdAt == birth.cause.observedAt
                  && op.binding == FromAgent(birth.run.binding)
                  && TargetOf(sent.binding) == TargetOf(op.binding)
                  && (if sent.binding.agentEpoch == op.binding.agentEpoch then
                        && birth.run.runSeq == op.expectedRunSeq
                        && (sent.binding.session.None? || sent.binding.session == op.binding.session)
                      else
                        && op.binding.agentKind == CODEX
                        && sent.binding.agentEpoch + 1 == op.binding.agentEpoch
                        && birth.run.runSeq == 1)
    ensures var w := Replay(h);
            forall id :: id in w.births && w.births[id].run.operationId == Some(o) ==>
              w.disk.operations[o].runId == Some(id)
  {
    hide BaseHistory, LinkHistory, RunsInv, OperationsInv, PromptsInv, BodiesInv;
    BaseHistoryKeeps(c, h);
    LinkHistoryKeeps(c, h);
    var w := Replay(h);
    var birth := w.births[w.disk.operations[o].runId.value];
    assert Attests(birth) && Credited(w.disk, birth);
  }

  /** Over whole histories a confirmation's receipt tells the truth about the run that confirmed it. */
  lemma ReceiptsTellTheTruth(c: Codec, h: History, o: OperationId)
    requires BaseHistory(c, h) && LinkHistory(h)
    requires o in Replay(h).disk.operations && Replay(h).disk.operations[o].state == PromptConfirmed
    ensures var w := Replay(h);
            var op := w.disk.operations[o];
            && op.runId.Some? && op.runId.value in w.births && op.receipt.Some?
            && (op.receipt.value.basis == Some(GuardedWindowDigest) <==> w.births[op.runId.value].cause.observedAt <= op.deadlineAt)
            && (op.receipt.value.basis == Some(BindingSequenceDigest) <==> w.births[op.runId.value].cause.observedAt > op.deadlineAt)
  {
    hide BaseHistory, LinkHistory, RunsInv, OperationsInv, PromptsInv, BodiesInv;
    BaseHistoryKeeps(c, h);
    LinkHistoryKeeps(c, h);
    var w := Replay(h);
    var birth := w.births[w.disk.operations[o].runId.value];
    assert Attests(birth) && Credited(w.disk, birth);
  }

  /** Dispatch exclusion and run exclusion, at every cut of every base-lawful history. */
  lemma ExclusionAtEveryCut(c: Codec, h: History, cut: History)
    requires BaseHistory(c, h) && CutOf(h, cut)
    ensures FenceUnique(Replay(cut).disk.operations)
    ensures var runs := Replay(cut).disk.runs;
            forall a, b :: a in runs && b in runs && runs[a].Active() && runs[b].Active() && runs[a].binding == runs[b].binding ==> a == b
  {
    CutIsLawful(c, h, cut);
    BaseHistoryKeeps(c, cut);
    var runs := Replay(cut).disk.runs;
    assert ActiveNewest(runs) && SequencesUnique(runs);
  }

  /** Births are never forgotten, so a removed run identifier is never used again. */
  lemma {:induction false} BornBefore(c: Codec, h: History, cut: History, id: RunId)
    requires BaseHistory(c, h) && CutOf(h, cut) && id in Replay(cut).disk.runs
    ensures id in Replay(h).births
  {
    if h == cut {
      StoredAreBorn(c, h);
    } else {
      BornBefore(c, h.past, cut, id);
    }
  }

  lemma {:induction false} StoredAreBorn(c: Codec, h: History)
    requires BaseHistory(c, h)
    ensures RunsKnown(Replay(h))
  {
    hide BaseInv, LawfulPrepare, LawfulAdvance, RunOk, EventsFresh, BodyPresent, RunsFit, RunReplacement, BornOf;
    if h.After? {
      StoredAreBorn(c, h.past);
    }
  }

  /** One write leaves a born run alone, or replaces it through the guard. */
  lemma OneWriteToRun(c: Codec, w: World, x: Write, id: RunId)
    requires BaseLawful(c, w.disk, x) && FreshRun(w, x) && id in w.births && id in Perform(w, x).disk.runs
    ensures id in w.disk.runs
    ensures var old_, new_ := w.disk.runs[id], Perform(w, x).disk.runs[id];
      new_ == old_ || (RunReplacement(old_, new_) && (new_.Active() ==> old_.Active()))
  {
    hide RunOk, RunReplacement, LawfulPrepare, LawfulAdvance, RunsFit, EventsFresh, BornOf;
  }

  /** Between two points of any history, a run that stayed on disk keeps its identity, and once ended stays ended. */
  lemma {:induction false} EndedStaysEnded(c: Codec, h: History, cut: History, id: RunId)
    requires BaseHistory(c, h) && CutOf(h, cut)
    requires id in Replay(cut).disk.runs && id in Replay(h).disk.runs
    ensures SameRunIdentity(Replay(cut).disk.runs[id], Replay(h).disk.runs[id])
    ensures !Replay(cut).disk.runs[id].Active() ==> !Replay(h).disk.runs[id].Active()
    ensures Replay(cut).disk.runs[id].resolution.Some? ==>
              Replay(h).disk.runs[id].resolution == Replay(cut).disk.runs[id].resolution
  {
    hide BaseInv, BaseLawful, EvidenceReplacement, ArtifactReplacement, RunRecord.Active;
    if h != cut {
      BornBefore(c, h.past, cut, id);
      OneWriteToRun(c, Replay(h.past), h.write, id);
      EndedStaysEnded(c, h.past, cut, id);
    }
  }
}
