/** What the calls of src/agent_state/runtime.rs report, and the facts about records, indexes and claims their proofs share. */
module Upkeep {
  import opened Base
  import opened Records
  import opened Guards
  import opened Reducer
  import opened Framing
  import opened Protocol
  import opened Dispatch
  import opened Verdicts
  import opened Opening
  import opened Outcomes
  import opened Restart
  import opened Indexes
  import opened RunIndex
  import opened Regions
  import opened Retention
  import opened Artifacts
  import opened RunSteps
  import opened Recovery

  lemma StagingIsLawful(c: Codec, h: History, d: Disk, id: OperationId, body: Text)
    requires BaseHistory(c, h) && Replay(h).disk == d
    ensures id !in d.prompts && |d.prompts| < PROMPT_STORE_MAX_RECORDS ==>
              && BaseHistory(c, After(h, StagePrompt(id, body)))
              && (LinkHistory(h) <==> LinkHistory(After(h, StagePrompt(id, body))))
  {
    hide BaseInv, LinkInv;
  }

  lemma SettlingLinks(c: Codec, w: World, d: Disk, o: OperationRecord, was: OperationRecord, state: DispatchState, code: ReceiptCode, at: int)
    requires w.disk == d && SettledTo(was, state, code, at) == Some(o) && (state == DeliveryUnknown || state == Rejected)
    requires was.operationId in d.operations && d.operations[was.operationId] == was && was.state != PromptConfirmed
    ensures OperationVerdict(c, d, o).Ok? ==>
              (LinkLawful(w, ReplaceOperation(o)) <==> state != Rejected || Unlinked(d.runs, was.operationId))
    ensures SettledLinks(d.runs, d.operations) ==> Unlinked(d.runs, was.operationId)
  {
    hide ValidOperation, OperationReplacement;
    if OperationVerdict(c, d, o).Ok? {
      SettledIsNotAbandoned(was, state, code, at);
    }
  }

  lemma NewcomerIsNew(runs: Runs, run: RunRecord, cause: Observation)
    requires Newcomer(runs, run, cause)
    ensures run.runId !in runs
  {
  }

  /** The runs a step removed, and the operation the run it added is credited to. */
  ghost predicate GoneAndCredited(before: Runs, after: Runs, newId: RunId, gone: set<RunId>, credit: Option<OperationId>) {
    && gone == before.Keys - after.Keys
    && credit == if newId in after then after[newId].operationId else None
  }

  predicate SameClaims(before: Runs, after: Runs) {
    after.Keys == before.Keys && forall id :: id in before ==> after[id].operationId == before[id].operationId
  }

  lemma ArtifactsKeepClaims(before: Runs, after: Runs)
    requires OnlyArtifacts(before, after)
    ensures SameClaims(before, after)
  {
  }

  lemma NoneGone(before: Runs, after: Runs, newId: RunId)
    requires after.Keys == before.Keys && newId !in before
    ensures GoneAndCredited(before, after, newId, {}, None)
  {
  }

  lemma EnrolledAfter(before: Runs, gone: set<RunId>, run: RunRecord)
    requires gone <= before.Keys && run.runId !in before
    ensures GoneAndCredited(before, before - gone, run.runId, gone, None)
    ensures GoneAndCredited(before, (before - gone)[run.runId := run], run.runId, gone, run.operationId)
  {
  }

  lemma QuietedThenGone(before: Runs, middle: Runs, after: Runs, newId: RunId, gone: set<RunId>, credit: Option<OperationId>)
    requires Quieted(before, middle) && GoneAndCredited(middle, after, newId, gone, credit)
    ensures GoneAndCredited(before, after, newId, gone, credit)
  {
  }

  lemma CreditedThenSame(before: Runs, middle: Runs, after: Runs, newId: RunId, gone: set<RunId>, credit: Option<OperationId>)
    requires GoneAndCredited(before, middle, newId, gone, credit) && SameClaims(middle, after)
    ensures GoneAndCredited(before, after, newId, gone, credit)
  {
  }

  lemma QuietedKeys(before: Runs, after: Runs)
    requires Quieted(before, after)
    ensures after.Keys == before.Keys
    ensures forall id :: id in before ==> after[id].runSeq == before[id].runSeq && after[id].binding == before[id].binding
  {
  }

  /** What a handled hook reports back. */
  datatype ApplyResult = ApplyResult(run: Option<RunRecord>, operation: Option<OperationRecord>, disposition: Disposition, dispatched: bool)

  lemma SettledIsExcept(runs: Runs, operations: Operations, run: RunRecord)
    requires run.runId in runs && runs[run.runId] == run
    ensures SettledLinks(runs, operations) ==> SettledExcept(runs, operations, run.runId) && LinkSettled(run, operations)
  {
  }

  lemma NowSettled(runs: Runs, operations: Operations, run: RunRecord)
    requires run.runId in runs && runs[run.runId] == run && LinkSettled(run, operations)
    ensures SettledExcept(runs, operations, run.runId) ==> SettledLinks(runs, operations)
  {
  }

  /** What the pane registry knows of a pane. */
  datatype PaneView = PaneView(instance: PaneInstance, stateId: StateId, agentEpoch: nat, agent: AgentKind, session: Option<SessionId>,
                               process: Option<ProcessIdentity>, present: bool)

  predicate Live(panes: map<PaneInstance, PaneView>, b: AgentBinding) {
    && b.pane in panes
    && var p := panes[b.pane];
       && p.instance == b.pane && p.stateId == b.paneStateId && p.agentEpoch == b.agentEpoch && p.agent == b.agentKind
       && p.session == Some(b.session) && p.process == Some(b.process) && p.present
  }

  /** The registry still shows this very agent there: same state, epoch, agent, session and process, and present. */
  ghost predicate StillThere(panes: map<PaneInstance, PaneView>, b: AgentBinding) {
    && b.pane in panes && panes[b.pane].instance == b.pane && panes[b.pane].stateId == b.paneStateId && panes[b.pane].agentEpoch == b.agentEpoch
    && panes[b.pane].agent == b.agentKind && panes[b.pane].session == Some(b.session) && panes[b.pane].process == Some(b.process)
    && panes[b.pane].present
  }

  lemma LiveIsThere(panes: map<PaneInstance, PaneView>)
    ensures forall b :: Live(panes, b) <==> StillThere(panes, b)
  {
  }

  lemma ChangesAreEndings(before: Runs, after: Runs, at: int)
    requires after.Keys == before.Keys
    ensures forall id :: id in before && EndedAt(before[id], at) == Some(after[id]) ==> EndedAs(before[id], after[id], at)
    ensures forall id :: id in before ==> (after[id].Active() <==> StillOpen(after[id]))
  {
  }

  function OnlyLive(panes: map<PaneInstance, PaneView>, current: map<AgentBinding, RunId>): map<AgentBinding, RunId> {
    map b | b in current && Live(panes, b) :: current[b]
  }

  /** An active run without a live binding that `end_unresolved_run` refuses to end. */
  ghost predicate EndRefused(c: Codec, d: Disk, panes: map<PaneInstance, PaneView>, id: RunId, at: int, e: StoreError) {
    id in d.runs && d.runs[id].Active() && !Live(panes, d.runs[id].binding) && EndOutcome(c, d, id, at).result == Err(e)
  }

  /** Each current run's pane is shown, and shows a current run of that pane. */
  ghost predicate ShownExactly(runs: Runs, current: map<AgentBinding, RunId>, shown: map<PaneInstance, RunId>) {
    && (forall id :: id in current.Values ==> id in runs && runs[id].binding.pane in shown)
    && (forall p :: p in shown ==> shown[p] in current.Values && shown[p] in runs && runs[shown[p]].binding.pane == p)
  }

  /** The panes of these runs, each showing one of them. */
  ghost predicate ShownOf(runs: Runs, some: set<RunId>, shown: map<PaneInstance, RunId>) {
    && (forall id :: id in some ==> id in runs && runs[id].binding.pane in shown)
    && (forall p :: p in shown ==> shown[p] in some && shown[p] in runs && runs[shown[p]].binding.pane == p)
  }

  lemma NothingShown(runs: Runs)
    ensures ShownOf(runs, {}, map[])
  {
  }

  lemma ShownOneMore(runs: Runs, some: set<RunId>, shown: map<PaneInstance, RunId>, id: RunId)
    requires ShownOf(runs, some, shown) && id in runs
    ensures ShownOf(runs, some + {id}, shown[runs[id].binding.pane := id])
  {
  }

  lemma AllShown(runs: Runs, current: map<AgentBinding, RunId>, shown: map<PaneInstance, RunId>)
    requires ShownOf(runs, current.Values, shown)
    ensures ShownExactly(runs, current, shown) && PanesExact(runs, shown)
  {
  }

  lemma LiveStayCurrent(runs: Runs, current: map<AgentBinding, RunId>, panes: map<PaneInstance, PaneView>)
    requires CurrentExact(runs, current)
    requires forall id :: id in runs && runs[id].Active() ==> Live(panes, runs[id].binding)
    ensures CurrentExact(runs, OnlyLive(panes, current))
  {
    hide Live;
  }

  lemma NothingIndexed()
    ensures EventsExact(map[], map[]) && TurnsExact(map[], map[]) && CurrentExact(map[], map[]) && PanesExact(map[], map[])
    ensures CurrentNewest(map[], map[]) && PanesNewest(map[], map[])
  {
  }

  /** The runs scanned so far. */
  ghost predicate PartScanned(runs: Runs, scope: Runs, left: set<RunId>) {
    scope.Keys == runs.Keys - left && forall id :: id in scope ==> scope[id] == runs[id]
  }

  lemma OneScanned(c: Codec, d: Disk, scope: Runs, left: set<RunId>, id: RunId)
    requires RunsReadable(c, d) && |d.runs| <= RUN_STORE_MAX_RECORDS
    requires PartScanned(d.runs, scope, left) && id in left && left <= d.runs.Keys
    ensures id !in scope && d.runs[id].runId == id && |scope| < RUN_STORE_MAX_RECORDS
    ensures forall k :: k in scope ==> |scope[k].evidence.events| <= RUN_EVENT_REFERENCE_MAX_COUNT
    ensures |d.runs[id].evidence.events| <= RUN_EVENT_REFERENCE_MAX_COUNT
    ensures PartScanned(d.runs, scope[id := d.runs[id]], left - {id})
  {
    hide ValidRun;
    ReadableAreSmall(c, d);
    hide RunsReadable;
    CardOfPart(d.runs.Keys - {id}, scope.Keys);
    assert |d.runs.Keys - {id}| == |d.runs.Keys| - 1;
    assert |d.runs.Keys| == |d.runs| && |scope.Keys| == |scope|;
  }

  lemma ReadableAreSmall(c: Codec, d: Disk)
    requires RunsReadable(c, d)
    ensures forall k :: k in d.runs ==> d.runs[k].runId == k && |d.runs[k].evidence.events| <= RUN_EVENT_REFERENCE_MAX_COUNT
  {
    hide ValidEvent, ValidArtifact, ValidResolution, ValidAgentBinding;
  }

  /** The verdict on the next scanned run is never about room, and an accepted run keeps the indexes exact. */
  lemma ScanVerdict(runs: Runs, scope: Runs, events: map<Text, RunId>, turns: map<TurnKey, RunId>, current: map<AgentBinding, RunId>, r: RunRecord)
    requires r.runId !in scope && EventsExact(scope, events) && TurnsExact(scope, turns) && |scope| < RUN_STORE_MAX_RECORDS
    requires forall id :: id in scope ==> |scope[id].evidence.events| <= RUN_EVENT_REFERENCE_MAX_COUNT
    requires |r.evidence.events| <= RUN_EVENT_REFERENCE_MAX_COUNT
    ensures IndexVerdict(runs, events, turns, current, r).Err? ==> IndexVerdict(runs, events, turns, current, r).error == Corrupt
    ensures IndexVerdict(runs, events, turns, current, r).Ok? ==>
              EventsExact(scope[r.runId := r], EventsAfter(events, r)) && TurnsExact(scope[r.runId := r], TurnsAfter(turns, r))
  {
    hide EventsExact, TurnsExact, EventsAfter, TurnsAfter, EventsKept, CountNew, Refs, TurnOf;
    ScanHasRoom(scope, events, r);
    if IndexVerdict(runs, events, turns, current, r).Ok? {
      ScanRun(scope, events, turns, r);
    }
  }

  /** Each current entry names a stored run of its binding. */
  predicate CurrentNamesRuns(runs: Runs, current: map<AgentBinding, RunId>) {
    forall b :: b in current ==> current[b] in runs && runs[current[b]].binding == b
  }

  lemma CurrentStillNames(runs: Runs, current: map<AgentBinding, RunId>, r: RunRecord)
    requires CurrentNamesRuns(runs, current) && r.runId in runs && runs[r.runId] == r
    ensures CurrentNamesRuns(runs, CurrentAfter(runs, current, r))
  {
    hide ReplacesCurrent;
  }

  /** A scan is refused as corrupt only because two stored runs really share a reference, a turn or a sequence number. */
  lemma ClashMeansShared(runs: Runs, scope: Runs, events: map<Text, RunId>, turns: map<TurnKey, RunId>, current: map<AgentBinding, RunId>, r: RunRecord)
    requires EventsExact(scope, events) && TurnsExact(scope, turns) && CurrentNamesRuns(runs, current)
    requires r.runId in runs && runs[r.runId] == r && forall id :: id in scope ==> id in runs && runs[id] == scope[id]
    requires IndexVerdict(runs, events, turns, current, r) == Err(Corrupt)
    ensures !EventsUnique(runs) || !TurnsUnique(runs) || !SequencesUnique(runs)
  {
    hide Refs, RunRecord.HasEvent, TurnOf, CountNew;
    RefsAreEvents(r);
    if e :| e in Refs(r) && e in events && events[e] != r.runId {
      assert runs[events[e]].HasEvent(e) && runs[r.runId].HasEvent(e);
    }
  }

  lemma ExactMeansUnique(runs: Runs, events: map<Text, RunId>, turns: map<TurnKey, RunId>)
    requires EventsExact(runs, events) && TurnsExact(runs, turns)
    ensures EventsUnique(runs) && TurnsUnique(runs)
  {
    hide EventsExact, TurnsExact, EventsUnique, TurnsUnique;
    if !EventsUnique(runs) {
      NoIndexForDuplicates(runs, events);
    }
    if !TurnsUnique(runs) {
      NoIndexForSharedTurn(runs, turns);
    }
  }

  lemma NothingFenced()
    ensures FenceExact(map[], map[]) && InputsExact(map[], map[])
  {
  }

  lemma FencePart(operations: Operations, part: Operations)
    requires FenceUnique(operations) && forall id :: id in part ==> id in operations && part[id] == operations[id]
    ensures FenceUnique(part)
  {
  }

  ghost predicate StagedExactly(operations: Operations, prompts: map<OperationId, Text>) {
    prompts.Keys == StagedIds(operations)
  }

  lemma StagedAfter(operations: Operations, prompts: map<OperationId, Text>, o: OperationRecord)
    requires StagedExactly(operations, prompts) && !o.StagingRequired()
    ensures StagedExactly(operations[o.operationId := o], prompts - {o.operationId})
  {
  }

  lemma StagedWhenExact(c: Codec, d: Disk)
    ensures BodiesExact(c, d) ==>
              && StagedExactly(d.operations, d.prompts)
              && d.artifacts.Keys == set id | id in d.runs && d.runs[id].HasBody()
  {
    hide BodyMatches, PromptMatches;
  }

  lemma PreparedAreStaged(operations: Operations, prompts: map<OperationId, Text>, clock: Clock)
    requires StagedExactly(operations, prompts) && forall id :: id in operations ==> AtRest(operations[id], clock)
    ensures prompts.Keys == set id | id in operations && operations[id].state == Prepared
  {
    assert forall id :: id in operations ==> AtRest(operations[id], clock);
  }

  lemma SettledClaims(runs: Runs, operations: Operations)
    ensures SettledLinks(runs, operations) ==> forall id :: id in runs ==> ClaimSettled(runs[id], operations)
  {
    if SettledLinks(runs, operations) {
      forall id | id in runs
        ensures ClaimSettled(runs[id], operations)
      {
        assert LinkSettled(runs[id], operations);
      }
    }
  }

  lemma FenceFindsClaim(operations: Operations, fences: Fences, binding: AgentBinding, runSeq: nat, obs: Observation)
    requires FenceExact(operations, fences)
    ensures var key := TargetOf(FromAgent(binding));
      && (key in fences ==> fences[key] in operations)
      && forall id :: id in operations && Claims(operations[id], binding, runSeq, obs) ==> key in fences && fences[key] == id
  {
    hide SequenceMatches;
  }

  lemma PartKeepsAll(before: Runs, binding: AgentBinding, runSeq: nat, obs: Observation)
    requires ReferenceNew(before, obs) && TurnNew(before, binding, obs) && SequenceNew(before, binding, runSeq) && NoneActive(before, binding)
    ensures forall gone: set<RunId> ::
              var part := before - gone;
              ReferenceNew(part, obs) && TurnNew(part, binding, obs) && SequenceNew(part, binding, runSeq) && NoneActive(part, binding)
  {
    hide ReferenceNew, TurnNew, SequenceNew, NoneActive;
    forall gone: set<RunId>
      ensures var part := before - gone;
              ReferenceNew(part, obs) && TurnNew(part, binding, obs) && SequenceNew(part, binding, runSeq) && NoneActive(part, binding)
    {
      PartKeeps(before, gone, binding, runSeq, obs);
    }
  }

  /** After a successful pass there is room for any record within the record limit. */
  lemma RoomForOneMore(c: Codec, runs: Runs, protected: set<RunId>, now: int, incoming: Option<PaneInstance>, gone: set<RunId>)
    requires Removes(c, runs, protected, now, incoming, NEW_RUN_RESERVE, gone)
    ensures forall r: RunRecord :: r.runId !in runs && c.runSize(r) <= RUN_RECORD_MAX_BYTES ==> RunsFit(c, (runs - gone)[r.runId := r])
  {
    hide Removes, RunsFit;
    RetentionIsSafe(c, runs, protected, now, incoming, NEW_RUN_RESERVE, gone);
  }

  /** Abandoning an unclaimed operation touches no link. */
  /** The overdue operations in the fields of their records. */
  lemma OverdueInFields(before: Operations, after: Operations, at: int)
    requires after.Keys == before.Keys
    requires forall id :: id in before ==> after[id] == before[id] || (Overdue(before[id], at) && Some(after[id]) == TimedOut(before[id], at))
    ensures forall id :: id in before ==> (Overdue(before[id], at) <==> Due(before[id], at)) && (Overdue(after[id], at) <==> Due(after[id], at))
    ensures forall id :: id in before ==> after[id] == before[id] || (Due(before[id], at) && ExpiredAs(before[id], after[id], at))
  {
    hide Overdue, Due, ExpiredAs, TimedOut;
    forall id | id in before
      ensures Overdue(before[id], at) <==> Due(before[id], at)
      ensures Overdue(after[id], at) <==> Due(after[id], at)
      ensures after[id] == before[id] || (Due(before[id], at) && ExpiredAs(before[id], after[id], at))
    {
      TimedOutIsAs(before[id], at);
      TimedOutIsAs(after[id], at);
    }
  }

  lemma AbandonmentIsUnclaimed(c: Codec, w: World, o: OperationRecord, id: OperationId)
    requires o.operationId == id && o.state == DeliveryUnknown && Unlinked(w.disk.runs, id)
    ensures LinkLawful(w, ReplaceOperation(o))
  {
  }

  /** The record a timeout would write is within the record limit. */
  ghost predicate TimeoutFits(c: Codec, o: OperationRecord, at: int) {
    TimedOut(o, at).Some? && c.operationSize(TimedOut(o, at).value) <= OPERATION_RECORD_MAX_BYTES
  }

  /** The store has no room for what the overdue operation would become. */
  ghost predicate TimeoutRefused(c: Codec, d: Disk, id: OperationId, at: int)
    requires id in d.operations
  {
    Overdue(d.operations[id], at) && TimedOut(d.operations[id], at).Some?
    && OperationVerdict(c, d, TimedOut(d.operations[id], at).value) == Err(Capacity)
  }

  function First<A, B>(r: Result<(A, B)>): Result<A> {
    if r.Ok? then Ok(r.value.0) else Err(r.error)
  }

  lemma RemovedIs(before: Disk, after: Disk, gone: set<RunId>)
    requires forall id :: id in gone ==> id in before.runs
    requires after.runs == before.runs - gone && SameElseResponses(before, after)
    requires after.artifacts == before.artifacts - (set id | id in gone && before.runs[id].HasBody())
    ensures after == Removed(before, gone)
  {
    assert (set id | id in gone && before.runs[id].HasBody()) == set id | id in gone && id in before.runs && before.runs[id].HasBody();
  }

  lemma EnrolledClaims(runs: Runs, operations: Operations, gone: set<RunId>, op: Option<OperationId>, binding: AgentBinding, runSeq: nat,
                       obs: Observation)
    requires op.Some? ==> op.value in operations && Claims(operations[op.value], binding, runSeq, obs)
    requires forall id :: id in gone ==> id in runs
    ensures (forall id :: id in gone ==> ClaimSettled(runs[id], operations)) ==>
              (KeepsClaims(runs, operations, gone, op) <==> (op.Some? ==> Unlinked(runs - gone, op.value)))
    ensures KeepsClaims(runs, operations, gone, None) <==> forall id :: id in gone ==> ClaimSettled(runs[id], operations)
    ensures KeepsClaims(runs, operations, gone, op) ==> forall id :: id in gone ==> ClaimSettled(runs[id], operations)
  {
    hide BindingMatches, SequenceMatches, ClaimSettled, Unlinked;
    if op.Some? && forall id :: id in gone ==> ClaimSettled(runs[id], operations) {
      ClaimsOfPart(runs, operations, gone, op.value);
    }
  }

  lemma OnlySettledOrOpen(operations: Operations, op: Option<OperationId>, binding: AgentBinding, runSeq: nat, obs: Observation)
    requires op.Some? ==> op.value in operations && Claims(operations[op.value], binding, runSeq, obs)
    ensures op.Some? ==> operations[op.value].state != PromptConfirmed
  {
    hide BindingMatches, SequenceMatches;
  }

  /** With every claim settled, no step of this kind can hurt a link. */
  lemma SettledKeepsClaims(runs: Runs, operations: Operations, gone: set<RunId>, op: Option<OperationId>)
    requires op.Some? ==> op.value in operations && operations[op.value].state != PromptConfirmed
    ensures SettledLinks(runs, operations) ==> KeepsClaims(runs, operations, gone, op)
  {
    hide LinkSettled;
    SettledClaims(runs, operations);
    if op.Some? {
      SettlingKeepsSettled(runs, operations, op.value);
    }
  }

  lemma NothingClaimed(runs: Runs, operations: Operations)
    ensures KeepsClaims(runs, operations, {}, None)
  {
  }

  lemma QuietedAllClaims(before: Runs, after: Runs, operations: Operations)
    requires Quieted(before, after)
    ensures forall gone: set<RunId>, credit: Option<OperationId> ::
              KeepsClaims(before, operations, gone, credit) <==> KeepsClaims(after, operations, gone, credit)
  {
    hide Quieted, KeepsClaims;
    forall gone: set<RunId>, credit: Option<OperationId>
      ensures KeepsClaims(before, operations, gone, credit) <==> KeepsClaims(after, operations, gone, credit)
    {
      QuietedClaims(before, after, operations, gone, credit);
    }
  }

  function ResultRun(r: Result<ApplyResult>): Result<RunRecord> {
    if r.Err? then Err(r.error) else if r.value.run.Some? then Ok(r.value.run.value) else Err(RunNotFound)
  }

  lemma FailureStaysOpenable(c: Codec, d: Disk, id: RunId, at: int)
    requires id in d.runs && d.runs[id].runId == id && d.runs[id].Active() && d.runs[id].turnKey.Some? && Failed(c, d.runs[id], at).Some?
    ensures Opens(c, d) && RunVerdict(c, d, Failed(c, d.runs[id], at).value).Ok? ==>
              Opens(c, d.(runs := d.runs[id := Failed(c, d.runs[id], at).value]))
  {
    hide ValidRun, RunReplacement, RunsFit, Opens, Failed;
    FailedKeepsIdentity(c, d.runs[id], at);
    if RunStored(d, Failed(c, d.runs[id], at).value) {
      assert d.runs[id := Failed(c, d.runs[id], at).value] == d.runs;
    } else if Opens(c, d) && RunVerdict(c, d, Failed(c, d.runs[id], at).value).Ok? {
      ReplacedIsOpenable(c, d, Failed(c, d.runs[id], at).value);
    }
  }

  predicate SameButDispatch(a: Disk, b: Disk) {
    a.meta == b.meta && a.runs == b.runs && a.artifacts == b.artifacts
  }

  lemma SettlingKeepsSettled(runs: Runs, operations: Operations, id: OperationId)
    requires id in operations && operations[id].state != PromptConfirmed
    ensures SettledLinks(runs, operations) ==> Unlinked(runs, id)
  {
    assert SettledLinks(runs, operations) ==> forall k :: k in runs ==> LinkSettled(runs[k], operations);
  }

  lemma NothingConfirmed(d: Disk)
    ensures Confirming(d, d.operations) && ChangedBy(d.operations, d.operations, {})
  {
  }

  lemma AllSettled(runs: Runs, operations: Operations)
    requires forall id :: id in runs ==> LinkSettled(runs[id], operations)
    ensures SettledLinks(runs, operations)
  {
  }

  lemma InterruptedAreFenced(operations: Operations, fences: Fences, found: set<OperationId>, clock: Clock)
    requires FenceExact(operations, fences)
    requires found == set k | k in fences && fences[k] in operations && !AtRest(operations[fences[k]], clock) :: fences[k]
    ensures found == Interrupted(operations, clock)
  {
    forall id | id in Interrupted(operations, clock)
      ensures id in found
    {
      assert fences[TargetOf(operations[id].binding)] == id;
    }
  }

  /** A refused claim of an openable directory is refused for room only. */
  lemma ClaimOutcome(c: Codec, d: Disk, start: Disk, id: RunId, n: nat)
    requires Keyed(start) && start.runs == d.runs && id in d.runs && d.runs[id].operationId.Some? && Confirming(start, d.operations)
    ensures Openable(start) ==> d.runs[id].operationId.value in d.operations
  {
    hide Openable, Confirming, LinkSettled;
    if Openable(start) {
      OpenableNow(start, d.operations, id);
    }
  }

  /** Confirming the claim of a run whose operation is stored. */
  lemma ConfirmingClaim(c: Codec, d: Disk, start: Disk, id: RunId, n: nat)
    requires Keyed(start) && Keyed(d) && start.runs == d.runs && id in d.runs && d.runs[id].operationId.Some? && Confirming(start, d.operations)
    requires d.runs[id].operationId.value in d.operations && d.runs[id].updatedAt >= 0
    requires OperationOk(d.meta.generation, d.runs[id].operationId.value, d.operations[d.runs[id].operationId.value])
    requires ValidRun(c, d.runs[id]) && OperationsStored(c, d.meta.generation, d.operations)
    ensures var outcome := ConfirmOutcome(c, d, d.runs[id], d.runs[id].updatedAt);
      && (outcome.result.Ok? ==> Confirming(start, outcome.disk.operations))
      && (Openable(start) && outcome.result.Err? ==> outcome.result.error == Capacity)
      && (Openable(start) && n >= Need(start, id) && RoomFor(c, d.operations, n) && ConfirmationFits(c, start, id) ==>
            outcome.result.Ok? && RoomFor(c, outcome.disk.operations, n - Need(start, id)))
  {
    hide Confirming, RoomFor, Openable, OperationVerdict, ConfirmedBy, ValidRun, ValidOperation, OperationReplacement, OperationsStored;
    var run, o := d.runs[id], d.runs[id].operationId.value;
    ClaimNow(start, d.operations, id);
    RoomShrinks(c, d.operations, n);
    if Confirmation(start, id).Some? {
      ConfirmedWasOpen(start, id);
    }
    if d.operations[o].state == PromptConfirmed {
      if Openable(start) {
        OpenableNow(start, d.operations, id);
      }
    } else if ConfirmedBy(d.operations[o], run, run.updatedAt).Some? {
      ConfirmationPassesGuard(c, d.meta.generation, d.operations[o], run, run.updatedAt);
      var next := ConfirmedBy(d.operations[o], run, run.updatedAt).value;
      OnlyCapacityRefuses(c, d, next);
      ConfirmOneMore(start, d.operations, id, o);
      if n > 0 && RoomFor(c, d.operations, n) && ConfirmationFits(c, start, id) {
        RoomIsEnough(c, d, next, n);
      }
    } else if Openable(start) {
      OpenableNow(start, d.operations, id);
    }
  }

  /** The staged prompt is the one the new operation refers to, and nothing the guard looks at changed. */
  lemma PromptIsStaged(c: Codec, before: Disk, d: Disk, o: OperationRecord, prompt: Text)
    requires StageVerdict(before, o.operationId, prompt).Ok?
    requires d.prompts == before.prompts[o.operationId := prompt] && SameElsePrompts(before, d)
    requires c.isUtf8(prompt) && o.promptDigest == PromptDigest(prompt)
    ensures o.operationId in d.prompts && PromptMatches(c, o, d.prompts[o.operationId])
    ensures OperationVerdict(c, d, o) == OperationVerdict(c, before, o)
    ensures d == before.(prompts := before.prompts[o.operationId := prompt])
  {
    hide TotalSize, ValidOperation, OperationReplacement, OperationsFit;
  }
}
