/**
 * What every call of src/agent_state/store.rs and src/agent_state/runtime.rs answers, and the directory it
 * leaves, as functions of what it found. The methods compute these; the theorems about them are stated
 * elsewhere.
 */
module Outcomes {
  import opened Base
  import opened Records
  import opened Guards
  import opened Reducer
  import opened Framing
  import opened Regions
  import opened Protocol
  import opened Dispatch
  import opened Retention
  import opened Artifacts
  import opened Verdicts
  import opened RunSteps
  import opened RunIndex
  import opened Recovery

  datatype Step<+T> = Step(result: Result<T>, disk: Disk)

  const NEW_RUN_RESERVE: Reserve := Reserve(1, RUN_RECORD_MAX_BYTES)
  const PROVIDER_HOOK: Text := Ascii("provider_hook")

  /** Every limit in numbers. */
  lemma LimitsInNumbers()
    ensures RUN_STORE_MAX_RECORDS == 2048 && RUN_STORE_MAX_BYTES == 100_663_296 && RUN_RECORD_MAX_BYTES == 16_384
    ensures OPERATION_STORE_MAX_RECORDS == 65_536 && OPERATION_STORE_MAX_BYTES == 134_217_728 && OPERATION_RECORD_MAX_BYTES == 4096
    ensures PROMPT_STORE_MAX_RECORDS == 128 && PROMPT_STORE_MAX_BYTES == 8_388_608 && PROMPT_BODY_MAX_BYTES == 65_536
    ensures ARTIFACT_STORE_MAX_FILES == 4096 && ARTIFACT_STORE_MAX_BYTES == 67_108_864 && RESPONSE_ARTIFACT_BODY_MAX_BYTES == 524_288
    ensures EVENT_INDEX_LIMIT == 32_768
    ensures RUN_EVIDENCE_MAX_BYTES == 8192 && RUN_EVENT_REFERENCE_MAX_COUNT == 16 && IDENTIFIER_MAX_BYTES == 256
    ensures RUN_RETENTION_PER_PANE == 64 && RUN_RETENTION_SECONDS == 2_592_000 && NEW_RUN_RESERVE == Reserve(1, 16_384)
    ensures PROMPT_CONFIRMATION_TIMEOUT_SECONDS == 10 && PRECONDITION_SECONDS == 60
    ensures U64_MAX == 18_446_744_073_709_551_615 && U32_MAX == 4_294_967_295 && I64_MAX == 9_223_372_036_854_775_807
  {
  }

  /** The words that enter hashes and records. */
  lemma WordsInFull()
    ensures PROMPT_DOMAIN == Ascii("vde-tmux:prompt:v1") + [0] && REQUEST_DOMAIN == Ascii("vde-tmux:agent-operation-request:v1")
    ensures CODEX == Ascii("codex") && CAPACITY_ORIGIN == Ascii("capacity_auto_resume") && PROVIDER_HOOK == Ascii("provider_hook")
  {
  }

  function Done<T>(r: Result<T>): Result<()> {
    if r.Ok? then Ok(()) else Err(r.error)
  }

  // ---------------------------------------------------------------- saves

  /** `save_operation` of the next value of a stored operation, or of a new one. */
  ghost function OperationSaved(c: Codec, d: Disk, o: OperationRecord): Step<OperationRecord> {
    var verdict := OperationVerdict(c, d, o);
    if verdict.Ok? then Step(Ok(o), d.(operations := d.operations[o.operationId := o])) else Step(Err(verdict.error), d)
  }

  ghost function RunSaved(c: Codec, d: Disk, r: RunRecord): Step<RunRecord> {
    var verdict := RunVerdict(c, d, r);
    if verdict.Ok? then Step(Ok(r), d.(runs := d.runs[r.runId := r])) else Step(Err(verdict.error), d)
  }

  function WithoutPrompt(d: Disk, id: OperationId): Disk {
    d.(prompts := d.prompts - {id})
  }

  // ---------------------------------------------------------------- dispatch

  ghost function StageVerdict(d: Disk, id: OperationId, body: Text): Result<()> {
    if |body| > PROMPT_BODY_MAX_BYTES then Err(Capacity)
    else if id in d.prompts then (if d.prompts[id] == body then Ok(()) else Err(Conflict))
    else if |d.prompts| >= PROMPT_STORE_MAX_RECORDS || TotalSize(d.prompts, TextSize) + |body| > PROMPT_STORE_MAX_BYTES then Err(Capacity)
    else Ok(())
  }

  function StoreFull(e: StoreError): StoreError {
    if e == Capacity then OperationStoreFull else e
  }

  /** `prepare_operation` for a new identifier on a free target, the deadline included. */
  ghost function PrepareNew(c: Codec, d: Disk, o: OperationRecord, prompt: Text): Step<PrepareResult> {
    var id := o.operationId;
    var staged := StageVerdict(d, id, prompt);
    if staged.Err? then Step(Err(StoreFull(staged.error)), d)
    else
      var d1 := d.(prompts := d.prompts[id := prompt]);
      if o.deadlineAt > I64_MAX then Step(Err(Invalid), d1)
      else
        var verdict := OperationVerdict(c, d, o);
        if verdict.Err? then Step(Err(StoreFull(verdict.error)), WithoutPrompt(d1, id))
        else Step(Ok(Created(o)), d1.(operations := d.operations[id := o]))
  }

  /** Neither staging nor saving ever answers busy; what is over a limit is a full store, and another staged prompt a conflict. */
  lemma PrepareNewRefusals(c: Codec, d: Disk, o: OperationRecord, prompt: Text)
    ensures PrepareNew(c, d, o, prompt).result != Err(PromptDispatchBusy) && PrepareNew(c, d, o, prompt).result != Err(Capacity)
    ensures |prompt| > 65_536 ==> PrepareNew(c, d, o, prompt).result == Err(OperationStoreFull)
    ensures |prompt| <= 65_536 && o.operationId in d.prompts && d.prompts[o.operationId] != prompt ==> PrepareNew(c, d, o, prompt).result == Err(Conflict)
  {
    hide ValidOperation, OperationReplacement, OperationsFit, TotalSize;
  }

  /** `prepare_operation`: `busy` says whether the target is fenced. */
  ghost function PrepareOutcome(c: Codec, d: Disk, busy: bool, o: OperationRecord, prompt: Text): Step<PrepareResult> {
    var id := o.operationId;
    if !c.isUtf8(prompt) || o.promptDigest != PromptDigest(prompt) then Step(Err(Invalid), d)
    else if id in d.operations then
      Step(if d.operations[id].fingerprint == o.fingerprint then Ok(Existing(d.operations[id])) else Err(OperationConflict), d)
    else if busy then Step(Err(PromptDispatchBusy), d)
    else PrepareNew(c, d, o, prompt)
  }

  ghost function MarkOutcome(c: Codec, d: Disk, id: OperationId, at: int): Step<OperationRecord> {
    if id !in d.operations then Step(Err(OperationNotFound), d)
    else if d.operations[id].state != Prepared then Step(Ok(d.operations[id]), d)
    else match Started(d.operations[id], at)
         case None => Step(Err(Invalid), d)
         case Some(next) => OperationSaved(c, d, next)
  }

  ghost function SettleOutcome(c: Codec, d: Disk, id: OperationId, state: DispatchState, code: ReceiptCode, at: int): Step<OperationRecord> {
    if state != DeliveryUnknown && state != Rejected then Step(Err(Invalid), d)
    else if id !in d.operations then Step(Err(OperationNotFound), d)
    else if d.operations[id].state == state then Step(Ok(d.operations[id]), WithoutPrompt(d, id))
    else if !MaySettle(d.operations[id].state, state) then Step(Err(OperationConflict), d)
    else match SettledTo(d.operations[id], state, code, at)
         case None => Step(Err(Invalid), d)
         case Some(next) =>
           var saved := OperationSaved(c, d, next);
           if saved.result.Ok? then Step(saved.result, WithoutPrompt(saved.disk, id)) else saved
  }

  /** A retry must name the revision and the reason of the abandonment it repeats. */
  predicate RepeatsAbandon(o: OperationRecord, expected: nat, reason: Text) {
    && o.Abandoned()
    && o.revision == expected + 1
    && o.receipt.value.attribution == Some(Operator(reason))
  }

  ghost function AbandonOutcome(c: Codec, d: Disk, id: OperationId, expected: nat, reason: Text, at: int): Step<OperationRecord> {
    var receipt := AbandonReceipt(reason, at);
    if receipt.None? then Step(Err(Invalid), d)
    else if id !in d.operations then Step(Err(OperationNotFound), d)
    else
      var o := d.operations[id];
      if o.Abandoned() then
        if RepeatsAbandon(o, expected, reason) then Step(Ok(o), WithoutPrompt(d, id)) else Step(Err(OperationConflict), d)
      else if expected == 0 || o.revision != expected then Step(Err(StalePrecondition), d)
      else if o.state != DeliveryUnknown || o.runId.Some? || !Unlinked(d.runs, id) then Step(Err(OperationConflict), d)
      else match AbandonedWith(o, receipt.value, at)
           case None => Step(Err(Invalid), d)
           case Some(next) =>
             var saved := OperationSaved(c, d, next);
             if saved.result.Ok? then Step(saved.result, WithoutPrompt(saved.disk, id)) else saved
  }

  /** `confirm_linked_operation` for a stored run. */
  ghost function ConfirmOutcome(c: Codec, d: Disk, run: RunRecord, at: int): Step<Option<OperationRecord>> {
    match run.operationId
    case None => Step(Ok(None), d)
    case Some(id) =>
      if id !in d.operations then Step(Err(OperationNotFound), d)
      else if d.operations[id].state == PromptConfirmed then
        if d.operations[id].runId == Some(run.runId) then Step(Ok(Some(d.operations[id])), WithoutPrompt(d, id)) else Step(Err(Corrupt), d)
      else match ConfirmedBy(d.operations[id], run, at)
           case None => Step(Err(OperationConflict), d)
           case Some(next) =>
             var saved := OperationSaved(c, d, next);
             if saved.result.Ok? then Step(Ok(Some(next)), WithoutPrompt(saved.disk, id)) else Step(Err(saved.result.error), d)
  }

  // ---------------------------------------------------------------- bodies

  function ExpiredBodies(d: Disk, id: RunId): Bodies
    requires id in d.runs
  {
    if d.runs[id].HasBody() then d.artifacts - {d.runs[id].artifact.value.fileName.value} else d.artifacts
  }

  ghost function ExpireOutcome(c: Codec, d: Disk, id: RunId): Step<()> {
    if id !in d.runs then Step(Err(NotFound), d)
    else if d.runs[id].artifact.None? || d.runs[id].artifact.value.stored == Expired then Step(Ok(()), d)
    else
      var saved := RunSaved(c, d, Expire(d.runs[id]));
      if saved.result.Ok? then Step(Ok(()), saved.disk.(artifacts := ExpiredBodies(d, id))) else Step(Err(saved.result.error), d)
  }

  /** The run whose body goes first. */
  ghost function FirstEvicted(runs: Runs, target: RunId): (k: RunId)
    requires Evictable(runs, target) != {}
    ensures k in Evictable(runs, target) && forall j :: j in Evictable(runs, target) ==> j == k || Before(runs, k, j)
  {
    var first := FirstIn(runs, Evictable(runs, target));
    first
  }

  lemma FirstIsUnique(runs: Runs, target: RunId, k: RunId)
    requires k in Evictable(runs, target) && forall j :: j in Evictable(runs, target) ==> j == k || Before(runs, k, j)
    ensures FirstEvicted(runs, target) == k
  {
    var first := FirstEvicted(runs, target);
    assert first in Evictable(runs, target);
  }

  /** Evict until there is room, nothing is left to evict, or a record of an evicted run is refused. */
  ghost function EvictFrom(c: Codec, d: Disk, target: RunId, size: nat): (after: (bool, Disk))
    decreases |Evictable(d.runs, target)|
  {
    if HasRoom(d.artifacts, target, size) then (true, d)
    else if Evictable(d.runs, target) == {} then (false, d)
    else
      var k := FirstEvicted(d.runs, target);
      var saved := RunSaved(c, d, Expire(d.runs[k]));
      if saved.result.Err? || d.runs[k].runId != k then (false, d)
      else
        EvictionShrinks(d.runs, target, k);
        EvictFrom(c, saved.disk.(artifacts := ExpiredBodies(d, k)), target, size)
  }

  lemma EvictionShrinks(runs: Runs, target: RunId, k: RunId)
    requires k in Evictable(runs, target)
    ensures Evictable(runs[k := Expire(runs[k])], target) == Evictable(runs, target) - {k}
    ensures |Evictable(runs[k := Expire(runs[k])], target)| < |Evictable(runs, target)|
  {
    assert Evictable(runs, target) == (Evictable(runs, target) - {k}) + {k};
  }

  /** One round of the eviction. */
  lemma EvictUnfolds(c: Codec, d: Disk, target: RunId, size: nat, k: RunId)
    requires !HasRoom(d.artifacts, target, size)
    requires k in Evictable(d.runs, target) && forall j :: j in Evictable(d.runs, target) ==> j == k || Before(d.runs, k, j)
    requires d.runs[k].runId == k
    ensures ExpireOutcome(c, d, k).result.Err? ==> EvictFrom(c, d, target, size) == (false, d)
    ensures ExpireOutcome(c, d, k).result.Ok? ==> EvictFrom(c, d, target, size) == EvictFrom(c, ExpireOutcome(c, d, k).disk, target, size)
  {
    hide HasRoom, RunVerdict, Before, Expire;
    FirstIsUnique(d.runs, target, k);
  }

  lemma EvictEnds(c: Codec, d: Disk, target: RunId, size: nat)
    ensures HasRoom(d.artifacts, target, size) ==> EvictFrom(c, d, target, size) == (true, d)
    ensures !HasRoom(d.artifacts, target, size) && Evictable(d.runs, target) == {} ==> EvictFrom(c, d, target, size) == (false, d)
  {
    hide HasRoom, RunVerdict;
  }

  /** Why an eviction stopped short: nothing is left to evict, or the run store refuses the next record. */
  ghost predicate EvictionStuck(c: Codec, d: Disk, target: RunId) {
    Evictable(d.runs, target) != {} ==> RunVerdict(c, d, Expire(d.runs[FirstEvicted(d.runs, target)])) == Err(Capacity)
  }

  lemma StuckOnFirst(c: Codec, d: Disk, target: RunId, k: RunId)
    requires k in Evictable(d.runs, target) && forall j :: j in Evictable(d.runs, target) ==> j == k || Before(d.runs, k, j)
    requires d.runs[k].artifact.value.stored != Expired
    ensures ExpireOutcome(c, d, k).result == Err(Capacity) ==> EvictionStuck(c, d, target)
  {
    hide RunVerdict, Before, Expire;
    FirstIsUnique(d.runs, target, k);
  }

  /** Only the runs and the generation matter. */
  lemma StuckOnRuns(c: Codec, d: Disk, e: Disk, target: RunId)
    requires d.runs == e.runs && d.meta == e.meta
    ensures EvictionStuck(c, d, target) ==> EvictionStuck(c, e, target)
  {
  }

  /** `store_artifact_candidate` once the response is known to be acceptable. */
  ghost function KeepOutcome(c: Codec, d: Disk, id: RunId, response: Response, source: Text, at: int): Step<Artifact>
    requires id in d.runs && response.body.Some?
  {
    var (kept, d1) := EvictFrom(c, d, id, |response.body.value|);
    var d2 := if kept then d1.(artifacts := d1.artifacts[id := response.body.value]) else d1;
    var metadata := Metadata(d.runs[id], response, source, at, kept);
    var next := WithArtifact(d.runs[id], metadata, at);
    if !ValidArtifact(metadata) || next.None? then Step(Err(Invalid), d2)
    else
      var saved := RunSaved(c, d2, next.value);
      if saved.result.Ok? then Step(Ok(metadata), saved.disk) else Step(Err(saved.result.error), d2)
  }

  ghost function CandidateOutcome(c: Codec, d: Disk, id: RunId, response: Response, source: Text, at: int): Step<Artifact> {
    if !Decodes(c, response) || !Consistent(response) then Step(Err(Invalid), d)
    else if id !in d.runs then Step(Err(NotFound), d)
    else if d.runs[id].outcome != Completed then Step(Err(Invalid), d)
    else match d.runs[id].artifact
         case None => KeepOutcome(c, d, id, response, source, at)
         case Some(existing) =>
           if existing.originalDigest != response.originalDigest || existing.originalBytes != response.originalBytes then Step(Err(Conflict), d)
           else if existing.stored != Unavailable then Step(Ok(existing), d)
           else KeepOutcome(c, d, id, response, source, at)
  }

  // ---------------------------------------------------------------- runs

  /** `end_unresolved_run`. */
  ghost function EndOutcome(c: Codec, d: Disk, id: RunId, at: int): Step<RunRecord> {
    if id !in d.runs then Step(Err(RunNotFound), d)
    else if !d.runs[id].Active() then Step(Ok(d.runs[id]), d)
    else match EndedAt(d.runs[id], at)
         case None => Step(Err(Invalid), d)
         case Some(next) => RunSaved(c, d, next)
  }

  /** The pane shows a run of another binding. */
  predicate Replaced(d: Disk, panes: map<PaneInstance, RunId>, binding: AgentBinding) {
    binding.pane in panes && panes[binding.pane] in d.runs && d.runs[panes[binding.pane]].binding != binding
  }

  ghost function RetireOutcome(c: Codec, d: Disk, panes: map<PaneInstance, RunId>, binding: AgentBinding, at: int): Step<()> {
    if !Replaced(d, panes, binding) then Step(Ok(()), d)
    else
      var ended := EndOutcome(c, d, panes[binding.pane], at);
      Step(Done(ended.result), ended.disk)
  }

  function PanesAfterRetire(d: Disk, panes: map<PaneInstance, RunId>, binding: AgentBinding): map<PaneInstance, RunId> {
    if Replaced(d, panes, binding) then panes - {binding.pane} else panes
  }

  function EntryOf<K>(index: map<K, RunId>, k: K): Option<RunId> {
    if k in index then Some(index[k]) else None
  }

  /** What becomes of the binding's current run before a new one starts. */
  ghost function PreviousOutcome(c: Codec, d: Disk, previous: Option<RunId>, runSeq: nat, at: int): Step<()> {
    match previous
    case None => Step(Ok(()), d)
    case Some(id) =>
      if id in d.runs && d.runs[id].runSeq >= runSeq then Step(Err(ProviderEventConflict), d)
      else
        var ended := EndOutcome(c, d, id, at);
        Step(Done(ended.result), ended.disk)
  }

  ghost function ApplyOutcome(c: Codec, d: Disk, id: RunId, obs: Observation, resolutionId: ResolutionId): Step<RunRecord> {
    if id !in d.runs then Step(Err(RunNotFound), d)
    else match Reduce(c, d.runs[id], obs, resolutionId)
         case None => Step(Err(ProviderEventConflict), d)
         case Some((next, _)) => RunSaved(c, d, next)
  }

  ghost function RetentionOutcome(c: Codec, d: Disk, protected: set<RunId>, at: int, pane: PaneInstance): Step<set<RunId>> {
    if at < 0 then Step(Err(Invalid), d)
    else if |protected| > RUN_STORE_MAX_RECORDS || !Fits(c, d.runs, Removable(d.runs, protected), NEW_RUN_RESERVE) then Step(Err(Capacity), d)
    else
      var gone := RetentionSet(c, d.runs, protected, at, Some(pane), NEW_RUN_RESERVE);
      Step(Ok(gone), Removed(d, gone))
  }

  function Removed(d: Disk, gone: set<RunId>): Disk {
    d.(runs := d.runs - gone, artifacts := d.artifacts - set id | id in gone && id in d.runs && d.runs[id].HasBody())
  }

  ghost function EnrollOutcome(c: Codec, d: Disk, binding: AgentBinding, runSeq: nat, op: Option<OperationId>, obs: Observation, newId: RunId,
                               resolutionId: ResolutionId): Step<RunRecord>
  {
    match NewRun(c, d.meta.generation, newId, binding, runSeq, op, obs, resolutionId)
    case None => Step(Err(Invalid), d)
    case Some(run) => RunSaved(c, d, run)
  }

  /** The stored operation the hook accounts for. */
  ghost function Explained(operations: Operations, binding: AgentBinding, runSeq: nat, obs: Observation): Option<OperationId> {
    if exists id :: id in operations && Claims(operations[id], binding, runSeq, obs) then
      var id :| id in operations && Claims(operations[id], binding, runSeq, obs);
      Some(id)
    else None
  }

  ghost function StartOutcome(c: Codec, d: Disk, previous: Option<RunId>, protected: set<RunId>, binding: AgentBinding, runSeq: nat,
                              obs: Observation, newId: RunId, resolutionId: ResolutionId): Step<RunRecord>
  {
    var ended := PreviousOutcome(c, d, previous, runSeq, obs.observedAt);
    if ended.result.Err? then Step(Err(ended.result.error), ended.disk)
    else if obs.hook == UserPromptSubmit && obs.promptDigest.None? then Step(Err(Invalid), ended.disk)
    else
      var op := if obs.hook == UserPromptSubmit then Explained(d.operations, binding, runSeq, obs) else None;
      var room := RetentionOutcome(c, ended.disk, protected, obs.observedAt, binding.pane);
      if room.result.Err? then Step(Err(room.result.error), room.disk)
      else EnrollOutcome(c, room.disk, binding, runSeq, op, obs, newId, resolutionId)
  }

  /** The response part of a Stop. */
  ghost function RecordOutcome(c: Codec, d: Disk, run: RunRecord, obs: Observation): Step<RunRecord> {
    match obs.response
    case Some(response) =>
      var kept := CandidateOutcome(c, d, run.runId, response, PROVIDER_HOOK, obs.observedAt);
      if kept.result.Err? then Step(Err(kept.result.error), kept.disk)
      else if run.runId !in kept.disk.runs then Step(Err(RunNotFound), kept.disk)
      else Step(Ok(kept.disk.runs[run.runId]), kept.disk)
    case None =>
      if run.artifact.Some? then Step(Ok(run), d)
      else if run.outcome != Completed || !ValidArtifact(NoResponse(run, obs.observedAt)) then Step(Err(Invalid), d)
      else match Unanswered(run, obs.observedAt)
           case None => Step(Err(Invalid), d)
           case Some(next) => RunSaved(c, d, next)
  }

  /** `finish_provider_observation`. */
  ghost function FinishOutcome(c: Codec, d: Disk, run: RunRecord, obs: Observation): Step<RunRecord> {
    var confirmed := ConfirmOutcome(c, d, run, obs.observedAt);
    if confirmed.result.Err? then Step(Err(confirmed.result.error), confirmed.disk)
    else if obs.hook == Stop then RecordOutcome(c, confirmed.disk, run, obs)
    else Step(Ok(run), confirmed.disk)
  }

  ghost function StoredOutcome(c: Codec, d: Disk, id: RunId, obs: Observation, resolutionId: ResolutionId): Step<RunRecord> {
    var applied := ApplyOutcome(c, d, id, obs, resolutionId);
    if applied.result.Err? then applied else FinishOutcome(c, applied.disk, applied.result.value, obs)
  }

  /** A hook whose reference is not known yet. */
  ghost function FreshOutcome(c: Codec, d: Disk, turns: map<TurnKey, RunId>, current: Option<RunId>, protected: set<RunId>,
                              binding: AgentBinding, runSeq: nat, obs: Observation, newId: RunId, resolutionId: ResolutionId): Step<RunRecord>
  {
    if obs.CanStartRun() then
      if TurnKnown(obs, binding, turns) then
        StoredOutcome(c, d, turns[TurnKey(binding.agentKind, binding.session, obs.turnKey.value)], obs, resolutionId)
      else
        var started := StartOutcome(c, d, current, protected, binding, runSeq, obs, newId, resolutionId);
        if started.result.Err? then started else FinishOutcome(c, started.disk, started.result.value, obs)
    else
      var id := if obs.turnKey.Some? then EntryOf(turns, TurnKey(obs.provider, obs.session, obs.turnKey.value)) else current;
      if id.None? then Step(Err(NotFound), d) else StoredOutcome(c, d, id.value, obs, resolutionId)
  }

  /** `apply_provider_observation` of every hook but a session start, which changes nothing. */
  ghost function ObserveOutcome(c: Codec, d: Disk, events: map<Text, RunId>, turns: map<TurnKey, RunId>, current: map<AgentBinding, RunId>,
                                panes: map<PaneInstance, RunId>, binding: AgentBinding, runSeq: nat, obs: Observation, newId: RunId,
                                resolutionId: ResolutionId): Step<RunRecord>
  {
    if obs.eventRef.Some? && obs.eventRef.value in events then StoredOutcome(c, d, events[obs.eventRef.value], obs, resolutionId)
    else
      var retired := RetireOutcome(c, d, panes, binding, obs.observedAt);
      if retired.result.Err? then Step(Err(retired.result.error), retired.disk)
      else FreshOutcome(c, retired.disk, turns, EntryOf(current, binding), PanesAfterRetire(d, panes, binding).Values, binding, runSeq, obs, newId, resolutionId)
  }

  /** The run is its binding's current one, its pane shows it, and it is still open in a known turn. */
  predicate MayFail(d: Disk, current: map<AgentBinding, RunId>, panes: map<PaneInstance, RunId>, id: RunId) {
    && id in d.runs
    && var run := d.runs[id];
       && EntryOf(current, run.binding) == Some(id) && EntryOf(panes, run.binding.pane) == Some(id)
       && run.Active() && run.turnKey.Some?
  }

  /** `capacity_failure` up to the save; indexing comes after it. */
  ghost function FailOutcome(c: Codec, d: Disk, current: map<AgentBinding, RunId>, panes: map<PaneInstance, RunId>, id: RunId, at: int)
    : Step<RunRecord>
  {
    if id !in d.runs then Step(Err(RunNotFound), d)
    else if !MayFail(d, current, panes, id) then Step(Err(Invalid), d)
    else match Failed(c, d.runs[id], at)
         case None => Step(Err(Invalid), d)
         case Some(next) => RunSaved(c, d, next)
  }

  // ---------------------------------------------------------------- operator decisions

  ghost function ResolveOutcome(c: Codec, d: Disk, server: Text, id: RunId, p: Precondition, w: OperatorDecision, pane: PaneFence,
                                process: Option<ProcessIdentity>, viewport: Option<Viewport>): Step<RunRecord>
  {
    if id !in d.runs then Step(Err(RunNotFound), d)
    else
      var run := d.runs[id];
      match LookupDecision(run, w.id, w.reason)
      case Err(e) => Step(Err(e), d)
      case Ok(true) => Step(Ok(run), d)
      case Ok(false) =>
        if !ValidPrecondition(p) then Step(Err(Invalid), d)
        else if !StillHolds(p, server, run, w.at, pane, process, viewport) then Step(Err(StalePrecondition), d)
        else match OperatorCompletes(run, w)
             case None => Step(Err(Invalid), d)
             case Some(next) => RunSaved(c, d, next)
  }
}
