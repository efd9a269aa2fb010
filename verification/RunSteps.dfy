/** The changes src/agent_state/runtime.rs makes to one run record, and why the store accepts each of them. */
module RunSteps {
  import opened Base
  import opened Records
  import opened Guards
  import opened Reducer
  import opened Framing
  import opened Protocol
  import opened Verdicts
  import opened RunIndex
  import opened Artifacts
  import opened Indexes

  // ---------------------------------------------------------------- ending a run

  function EndedAt(r: RunRecord, at: int): Option<RunRecord> {
    if r.revision >= U64_MAX then None
    else Some(r.(phase := Ended, revision := r.revision + 1, updatedAt := Max(r.updatedAt, at)))
  }

  /** Neither resolved nor ended. */
  ghost predicate StillOpen(r: RunRecord) {
    r.outcome == Unresolved && r.phase != Ended
  }

  /** The next value of an open run that ends without an outcome. */
  ghost predicate EndedAs(r: RunRecord, next: RunRecord, at: int) {
    next == r.(phase := Ended, revision := r.revision + 1, updatedAt := if r.updatedAt < at then at else r.updatedAt)
  }

  lemma EndedAtIsAs(r: RunRecord, at: int)
    ensures r.Active() <==> StillOpen(r)
    ensures EndedAt(r, at).Some? ==> EndedAs(r, EndedAt(r, at).value, at)
  {
  }

  lemma EndingIsAccepted(c: Codec, r: RunRecord, at: int)
    requires ValidRun(c, r) && DistinctEvents(r) && r.Active() && EndedAt(r, at).Some?
    ensures var r' := EndedAt(r, at).value;
      && ValidRun(c, r') && RunReplacement(r, r') && !r'.Active() && r'.evidence == r.evidence && r'.artifact == r.artifact
  {
    KeepsEvents(r, EndedAt(r, at).value);
  }

  /** Runs may have ended; nothing else happened to them. */
  ghost predicate Quieted(before: Runs, after: Runs) {
    && after.Keys == before.Keys
    && forall id :: id in before ==>
         after[id] == before[id] || (before[id].Active() && exists at :: EndedAt(before[id], at) == Some(after[id]))
  }

  // ---------------------------------------------------------------- operator completion

  datatype OperatorDecision = OperatorDecision(id: ResolutionId, reason: Text, actorUid: nat, actorPid: nat, at: int)

  function OperatorCompletes(r: RunRecord, w: OperatorDecision): Option<RunRecord> {
    if r.revision >= U64_MAX then None else
    var audit := OperatorAudit(w.actorUid, w.actorPid, w.reason, Sha256(w.reason), r.revision, r.revision + 1, w.at);
    Some(r.(revision := r.revision + 1, phase := Ended, outcome := Completed, updatedAt := Max(r.updatedAt, w.at),
            resolution := Some(RunResolution(w.id, OperatorCompleted, w.at, Some(audit)))))
  }

  lemma OperatorIsAccepted(c: Codec, r: RunRecord, w: OperatorDecision)
    requires ValidRun(c, r) && DistinctEvents(r) && r.outcome == Unresolved && OperatorCompletes(r, w).Some?
    requires ValidRun(c, OperatorCompletes(r, w).value)
    ensures var r' := OperatorCompletes(r, w).value;
      && RunReplacement(r, r') && !r'.Active() && r'.evidence == r.evidence && r'.artifact == r.artifact
  {
    KeepsEvents(r, OperatorCompletes(r, w).value);
  }

  // ---------------------------------------------------------------- the store takes them

  /** Same evidence, same artifact, never active again: such a change is always admissible. */
  lemma QuietChangeIsAdmissible(c: Codec, h: History, d: Disk, r: RunRecord)
    requires BaseHistory(c, h) && Replay(h).disk == d && r.runId in d.runs && !RunStored(d, r)
    requires r.evidence == d.runs[r.runId].evidence && r.artifact == d.runs[r.runId].artifact
    requires r.Active() ==> d.runs[r.runId].Active()
    ensures Successor(c, d, r)
  {
    hide OperationsInv, PromptsInv, RunsFit, RunVerdict, EventsFresh, ActiveNewest, SequencesUnique, TurnsUnique, EventsUnique,
         BodyMatches, ValidRun, DistinctEvents, LinkHistory, RunRecord.Active;
    BaseHistoryKeeps(c, h);
    KeepsEvents(d.runs[r.runId], r);
    KeepsFresh(d.runs, r);
    assert BodyPresent(c, d.runs[r.runId], d.artifacts);
  }

  lemma EndingIsAdmissible(c: Codec, h: History, d: Disk, id: RunId, at: int)
    requires BaseHistory(c, h) && Replay(h).disk == d && id in d.runs && d.runs[id].Active() && EndedAt(d.runs[id], at).Some?
    ensures var r := EndedAt(d.runs[id], at).value;
      && r.runId == id && Admissible(c, d, r) && Refs(r) == Refs(d.runs[id])
      && (RunVerdict(c, d, r).Err? ==> RunVerdict(c, d, r).error == Capacity)
  {
    hide OperationsInv, PromptsInv, RunsFit, RunVerdict, EventsFresh, ActiveNewest, SequencesUnique, TurnsUnique, EventsUnique,
         BodiesInv, ValidRun, DistinctEvents, LinkHistory, RunReplacement, Successor;
    BaseHistoryKeeps(c, h);
    var r := EndedAt(d.runs[id], at).value;
    EndingIsAccepted(c, d.runs[id], at);
    QuietChangeIsAdmissible(c, h, d, r);
    OnlyCapacityRefusesRun(c, d, r);
  }

  lemma OperatorIsAdmissible(c: Codec, h: History, d: Disk, id: RunId, w: OperatorDecision)
    requires BaseHistory(c, h) && Replay(h).disk == d && id in d.runs && d.runs[id].outcome == Unresolved
    requires OperatorCompletes(d.runs[id], w).Some? && ValidRun(c, OperatorCompletes(d.runs[id], w).value)
    ensures var r := OperatorCompletes(d.runs[id], w).value;
      && r.runId == id && Admissible(c, d, r)
      && (RunVerdict(c, d, r).Err? ==> RunVerdict(c, d, r).error == Capacity)
  {
    hide OperationsInv, PromptsInv, RunsFit, RunVerdict, EventsFresh, ActiveNewest, SequencesUnique, TurnsUnique, EventsUnique,
         BodiesInv, ValidRun, DistinctEvents, LinkHistory, RunReplacement, Successor;
    BaseHistoryKeeps(c, h);
    var r := OperatorCompletes(d.runs[id], w).value;
    OperatorIsAccepted(c, d.runs[id], w);
    QuietChangeIsAdmissible(c, h, d, r);
    OnlyCapacityRefusesRun(c, d, r);
  }

  // ---------------------------------------------------------------- provider hooks

  /** No other run holds the hook's reference. */
  ghost predicate ReferenceFree(runs: Runs, id: RunId, obs: Observation) {
    obs.CorrectnessRef().Some? ==> forall k :: k in runs && k != id ==> !runs[k].HasEvent(obs.CorrectnessRef().value)
  }

  lemma ReduceKeepsFresh(runs: Runs, r: RunRecord, ref: Option<Text>)
    requires EventsUnique(runs) && r.runId in runs
    requires forall e :: r.HasEvent(e) <==> runs[r.runId].HasEvent(e) || ref == Some(e)
    requires ref.Some? ==> forall k :: k in runs && k != r.runId ==> !runs[k].HasEvent(ref.value)
    ensures EventsFresh(runs, r)
  {
  }

  /** What a hook makes of a stored run is a proper successor whenever the store accepts it. */
  lemma ReduceIsAdmissible(c: Codec, h: History, d: Disk, id: RunId, obs: Observation, resolutionId: ResolutionId)
    requires BaseHistory(c, h) && Replay(h).disk == d && id in d.runs
    requires Reduce(c, d.runs[id], obs, resolutionId).Some? && ReferenceFree(d.runs, id, obs)
    ensures var r := Reduce(c, d.runs[id], obs, resolutionId).value.0;
      && r.runId == id && Admissible(c, d, r) && ValidRun(c, r)
      && (RunVerdict(c, d, r) == Err(Conflict) <==> Evicts(d.runs[id], obs))
      && (obs.CorrectnessRef().None? || d.runs[id].HasEvent(obs.CorrectnessRef().value) ==> Refs(r) == Refs(d.runs[id]))
  {
    hide OperationsInv, PromptsInv, RunsFit, EventsFresh, ActiveNewest, SequencesUnique, TurnsUnique, EventsUnique,
         BodyMatches, ValidRun, DistinctEvents, LinkHistory, RunReplacement, Reduce, Evicts, Changed, RefSet, Refs, RunRecord.HasEvent, BaseHistory;
    BaseHistoryKeeps(c, h);
    var old_ := d.runs[id];
    assert RunOk(c, d.meta.generation, id, old_);
    CompletedWhenResolved(c, old_);
    var r := Reduce(c, old_, obs, resolutionId).value.0;
    var how := ReduceChange(c, old_, obs, resolutionId);
    ReducerMeetsGuard(c, old_, obs, resolutionId);
    assert r.revision != old_.revision;
    if !how.Rotated? {
      ChangedEvents(old_, r, obs.CorrectnessRef(), how);
      ReduceKeepsFresh(d.runs, r, obs.CorrectnessRef());
      assert BodyPresent(c, old_, d.artifacts);
      assert Successor(c, d, r);
    }
    RefsAreEvents(old_);
    RefsAreEvents(r);
  }

  lemma OpenWhenUnresolved(c: Codec, r: RunRecord)
    requires ValidRun(c, r)
    ensures r.resolution.None? <==> r.outcome == Unresolved
  {
  }

  lemma CompletedWhenResolved(c: Codec, r: RunRecord)
    requires ValidRun(c, r)
    ensures r.resolution.Some? ==> r.outcome == Completed
  {
  }

  // ---------------------------------------------------------------- new runs

  /** No stored run holds the hook's reference yet. */
  ghost predicate ReferenceNew(runs: Runs, obs: Observation) {
    obs.CorrectnessRef().Some? ==> forall k :: k in runs ==> !runs[k].HasEvent(obs.CorrectnessRef().value)
  }

  ghost predicate TurnNew(runs: Runs, binding: AgentBinding, obs: Observation) {
    obs.turnKey.Some? ==>
      forall k :: k in runs ==> TurnOf(runs[k]) != Some(TurnKey(binding.agentKind, binding.session, obs.turnKey.value))
  }

  /** The sequence number was allocated after every earlier run of the binding. */
  ghost predicate SequenceNew(runs: Runs, binding: AgentBinding, runSeq: nat) {
    forall k :: k in runs && runs[k].binding == binding ==> runs[k].runSeq < runSeq
  }

  ghost predicate NoneActive(runs: Runs, binding: AgentBinding) {
    forall k :: k in runs && runs[k].binding == binding ==> !runs[k].Active()
  }

  lemma QuietedKeeps(before: Runs, after: Runs, binding: AgentBinding, runSeq: nat, obs: Observation)
    requires Quieted(before, after)
    ensures ReferenceNew(before, obs) ==> ReferenceNew(after, obs)
    ensures TurnNew(before, binding, obs) ==> TurnNew(after, binding, obs)
    ensures SequenceNew(before, binding, runSeq) ==> SequenceNew(after, binding, runSeq)
    ensures NoneActive(before, binding) ==> NoneActive(after, binding)
  {
    forall k | k in before
      ensures after[k].binding == before[k].binding && after[k].runSeq == before[k].runSeq && TurnOf(after[k]) == TurnOf(before[k])
      ensures after[k].evidence == before[k].evidence && (after[k].Active() ==> before[k].Active())
    {
    }
    assert forall k, e :: k in before && after[k].HasEvent(e) ==> before[k].HasEvent(e);
  }

  lemma PartKeeps(before: Runs, gone: set<RunId>, binding: AgentBinding, runSeq: nat, obs: Observation)
    ensures ReferenceNew(before, obs) ==> ReferenceNew(before - gone, obs)
    ensures TurnNew(before, binding, obs) ==> TurnNew(before - gone, binding, obs)
    ensures SequenceNew(before, binding, runSeq) ==> SequenceNew(before - gone, binding, runSeq)
    ensures NoneActive(before, binding) ==> NoneActive(before - gone, binding)
  {
  }

  /** What `new_run_from_observation` returns. */
  lemma NewRunShape(c: Codec, g: Generation, id: RunId, b: AgentBinding, runSeq: nat, op: Option<OperationId>, obs: Observation, resolutionId: ResolutionId)
    requires NewRun(c, g, id, b, runSeq, op, obs, resolutionId).Some?
    ensures var r := NewRun(c, g, id, b, runSeq, op, obs, resolutionId).value;
      && r.runId == id && r.generation == g && r.binding == b && r.runSeq == runSeq && r.operationId == op && r.artifact.None?
      && r.Active() && ValidRun(c, r) && BornOf(r, obs) && DistinctEvents(r) && r.createdAt == obs.observedAt >= 0
      && forall e :: r.HasEvent(e) ==> obs.CorrectnessRef() == Some(e)
  {
    hide ValidEvidence, ValidArtifact, ValidAgentBinding;
    var r := NewRun(c, g, id, b, runSeq, op, obs, resolutionId).value;
    var blank := BlankRun(g, id, b, runSeq, op, obs);
    if obs.hook == UserPromptSubmit {
      var how := AppendChange(blank, obs, RunCreated);
    } else {
      BlankReduces(c, blank, obs, resolutionId);
    }
  }

  /** An activity or waiting hook keeps no reference, and leaves the run it starts active. */
  lemma BlankReduces(c: Codec, blank: RunRecord, obs: Observation, resolutionId: ResolutionId)
    requires blank.evidence == EMPTY_EVIDENCE && blank.Active() && blank.resolution.None? && (obs.hook == Activity || obs.hook == WaitingHook)
    requires Reduce(c, blank, obs, resolutionId).Some?
    ensures var r := Reduce(c, blank, obs, resolutionId).value.0;
      r.evidence.events == [] && r.Active() && SameRunIdentity(blank, r) && r.artifact == blank.artifact && ValidRun(c, r)
  {
    hide ValidEvidence, ValidArtifact, ValidAgentBinding;
  }

  lemma NewRunIsNewcomer(runs: Runs, r: RunRecord, obs: Observation)
    requires r.runId !in runs && DistinctEvents(r) && BornOf(r, obs) && r.artifact.None?
    requires forall e :: r.HasEvent(e) ==> obs.CorrectnessRef() == Some(e)
    requires ReferenceNew(runs, obs) && TurnNew(runs, r.binding, obs) && SequenceNew(runs, r.binding, r.runSeq) && NoneActive(runs, r.binding)
    ensures Newcomer(runs, r, obs)
  {
  }

  /** A hook explains an operation: the prompt was dispatched there, unsettled, and this is the expected turn. */
  predicate Claims(o: OperationRecord, binding: AgentBinding, runSeq: nat, obs: Observation) {
    && o.Confirmable()
    && BindingMatches(o.binding, binding)
    && SequenceMatches(o, binding, runSeq)
    && obs.promptDigest == Some(o.promptDigest)
    && o.updatedAt <= obs.observedAt
  }

  /**
   * The same, in the fields of the record: the operation was sent and neither confirmed, rejected nor abandoned,
   * the prompt is the dispatched one, seen no earlier than the last change of the operation (the deadline plays no
   * part), on the dispatched target, in the expected turn of the same epoch or in the first of the next one of Codex.
   */
  ghost predicate AccountsFor(o: OperationRecord, binding: AgentBinding, runSeq: nat, obs: Observation) {
    && (o.state == DispatchStarted || (o.state == DeliveryUnknown && (o.receipt.None? || o.receipt.value.code != OperatorAbandoned)))
    && obs.promptDigest == Some(o.promptDigest)
    && o.updatedAt <= obs.observedAt
    && o.binding.server == binding.server && o.binding.pane == binding.pane && o.binding.paneStateId == binding.paneStateId
    && o.binding.agentKind == binding.agentKind && o.binding.process == binding.process
    && (|| (o.binding.agentEpoch == binding.agentEpoch && o.expectedRunSeq == runSeq
            && (o.binding.session.None? || o.binding.session == Some(binding.session)))
        || (binding.agentKind == Ascii("codex") && o.binding.agentEpoch + 1 == binding.agentEpoch && runSeq == 1))
  }

  lemma ClaimsAreAccounts(o: OperationRecord, binding: AgentBinding, runSeq: nat, obs: Observation)
    ensures Claims(o, binding, runSeq, obs) <==> AccountsFor(o, binding, runSeq, obs)
  {
  }

  /** Confirming keeps what made the prompt the operation's own. */
  lemma AccountedStaysSeen(sent: OperationRecord, o: OperationRecord, binding: AgentBinding, runSeq: nat, obs: Observation)
    requires AccountsFor(sent, binding, runSeq, obs) && ValidOperation(sent) && SameRequest(sent, o)
    ensures obs.promptDigest == Some(o.promptDigest) && o.createdAt <= obs.observedAt && sent.state != PromptConfirmed
  {
  }

  lemma AllClaimsAreAccounts(operations: Operations, binding: AgentBinding, runSeq: nat, obs: Observation)
    ensures forall id :: id in operations ==> (Claims(operations[id], binding, runSeq, obs) <==> AccountsFor(operations[id], binding, runSeq, obs))
  {
    hide Claims, AccountsFor;
    forall id | id in operations
      ensures Claims(operations[id], binding, runSeq, obs) <==> AccountsFor(operations[id], binding, runSeq, obs)
    {
      ClaimsAreAccounts(operations[id], binding, runSeq, obs);
    }
  }

  /** Among the runs a prompt hook starts, exactly those credited to an operation the hook explains attest its delivery. */
  lemma ClaimsAttest(o: OperationRecord, run: RunRecord, obs: Observation)
    requires BornOf(run, obs) && obs.hook == UserPromptSubmit && run.operationId == Some(o.operationId)
    ensures Claims(o, run.binding, run.runSeq, obs) <==> Attests(Birth(run, obs, Some(o)))
    ensures AccountsFor(o, run.binding, run.runSeq, obs) <==> Attests(Birth(run, obs, Some(o)))
  {
  }

  /** Crediting an unsettled operation is lawful exactly when no stored run claims it yet. */
  lemma CreditIsLawful(w: World, r: RunRecord, obs: Observation)
    requires LinkInv(w) && r.runId !in w.births && BornOf(r, obs)
    requires r.operationId.Some? ==>
               && r.operationId.value in w.disk.operations
               && w.disk.operations[r.operationId.value].operationId == r.operationId.value
               && Claims(w.disk.operations[r.operationId.value], r.binding, r.runSeq, obs)
    ensures LinkLawful(w, CreateRun(r, obs)) <==> (r.operationId.Some? ==> Unlinked(w.disk.runs, r.operationId.value))
  {
    hide BindingMatches, SequenceMatches;
    if r.operationId.Some? {
      if Unlinked(w.disk.runs, r.operationId.value) {
        forall id | id in w.births
          ensures w.births[id].run.operationId != r.operationId
        {
          Unclaimed(w, id, r.operationId.value);
        }
      } else {
        var id :| id in w.disk.runs && w.disk.runs[id].operationId == r.operationId;
        assert SameRunIdentity(w.births[id].run, w.disk.runs[id]);
      }
    }
  }

  /** An operation that may still be confirmed was never claimed by a run that is gone. */
  lemma Unclaimed(w: World, id: RunId, o: OperationId)
    requires LinkInv(w) && Unlinked(w.disk.runs, o) && id in w.births
    requires o in w.disk.operations && w.disk.operations[o].Confirmable()
    ensures w.births[id].run.operationId != Some(o)
  {
    var b := w.births[id];
    assert b.run.operationId.Some? ==> Attests(b) && Credited(w.disk, b);
    assert id in w.disk.runs ==> SameRunIdentity(b.run, w.disk.runs[id]);
  }

  /** Links survive a step exactly when every removed run's claim was settled and no claimed operation was credited again. */
  ghost predicate KeepsClaims(runs: Runs, operations: Operations, gone: set<RunId>, credit: Option<OperationId>) {
    && (forall id :: id in gone && id in runs ==> ClaimSettled(runs[id], operations))
    && (credit.Some? ==> Unlinked(runs, credit.value))
  }

  /** The new run claims nothing a removed run claimed: that claim would be unsettled. */
  lemma ClaimsOfPart(runs: Runs, operations: Operations, gone: set<RunId>, o: OperationId)
    requires o in operations && operations[o].Confirmable()
    requires forall id :: id in gone && id in runs ==> ClaimSettled(runs[id], operations)
    ensures Unlinked(runs - gone, o) <==> Unlinked(runs, o)
  {
    forall id | id in runs
      ensures runs[id].operationId == Some(o) ==> id in runs - gone
    {
    }
  }

  lemma QuietedClaims(before: Runs, after: Runs, operations: Operations, gone: set<RunId>, credit: Option<OperationId>)
    requires Quieted(before, after)
    ensures KeepsClaims(before, operations, gone, credit) <==> KeepsClaims(after, operations, gone, credit)
  {
    assert forall id :: id in before ==> after[id].operationId == before[id].operationId;
    if credit.Some? {
      assert Unlinked(before, credit.value) <==> Unlinked(after, credit.value) by {
        if Unlinked(after, credit.value) {
          forall id | id in before
            ensures before[id].operationId != credit
          {
            assert after[id].operationId != credit;
          }
        }
      }
    }
  }

  /** The number was allocated after every earlier run of the binding, or the current run already shows that it was not. */
  ghost predicate SequenceAllocated(runs: Runs, current: map<AgentBinding, RunId>, binding: AgentBinding, runSeq: nat) {
    || SequenceNew(runs, binding, runSeq)
    || (binding in current && current[binding] in runs && runs[current[binding]].runSeq >= runSeq)
  }

  // ---------------------------------------------------------------- responses

  /** Nothing but response records changed. */
  ghost predicate OnlyArtifacts(before: Runs, after: Runs) {
    after.Keys == before.Keys && forall id :: id in before ==> SameButArtifact(before[id], after[id])
  }

  lemma ExpiringOnlyArtifacts(before: Runs, target: RunId, gone: set<RunId>)
    requires gone <= Evictable(before, target)
    ensures OnlyArtifacts(before, ExpireAll(before, gone))
  {
  }

  lemma KeepingOnlyArtifacts(before: Disk, after: Disk, id: RunId, response: Response, source: Text, at: int, gone: set<RunId>, kept: bool)
    requires ResponseKept(before, after, id, response, source, at, gone, kept)
    ensures OnlyArtifacts(before.runs, after.runs)
  {
    ExpiringOnlyArtifacts(before.runs, id, gone);
  }

  lemma OnlyArtifactsIndexed(before: Runs, after: Runs, events: map<Text, RunId>, turns: map<TurnKey, RunId>,
                             current: map<AgentBinding, RunId>, panes: map<PaneInstance, RunId>)
    requires OnlyArtifacts(before, after)
    requires EventsExact(before, events) && TurnsExact(before, turns) && CurrentExact(before, current) && PanesExact(before, panes)
    ensures EventsExact(after, events) && TurnsExact(after, turns) && CurrentExact(after, current) && PanesExact(after, panes)
  {
    hide EventsExact, TurnsExact, CurrentExact, PanesExact, RefSet;
    IndexesSurvive(before, after, events, turns, current, panes);
  }

  lemma OnlyArtifactsSettled(before: Runs, after: Runs, operations: Operations)
    requires OnlyArtifacts(before, after)
    ensures SettledLinks(before, operations) <==> SettledLinks(after, operations)
  {
    assert forall id :: id in before ==> (LinkSettled(before[id], operations) <==> LinkSettled(after[id], operations));
  }

  function Unanswered(r: RunRecord, at: int): Option<RunRecord> {
    if r.revision >= U64_MAX then None else Some(r.(artifact := Some(NoResponse(r, at)), revision := r.revision + 1))
  }

  /** The next value of a completed run whose stop came without a response. */
  ghost predicate UnansweredAs(r: RunRecord, next: RunRecord, at: int) {
    next == r.(revision := r.revision + 1,
               artifact := Some(Artifact(r.runId, r.operationId, r.binding.session, r.binding.process, 0, 0, Sha256([]), None, ProviderUnknown,
                                         Unavailable, Ascii("provider_hook"), at, None)))
  }

  lemma UnansweredIsAs(r: RunRecord, at: int)
    requires Unanswered(r, at).Some?
    ensures UnansweredAs(r, Unanswered(r, at).value, at)
  {
  }

  /** The artifact describes this response. */
  ghost predicate DescribesResponse(a: Artifact, response: Response) {
    a.originalDigest == response.originalDigest && a.originalBytes == response.originalBytes
  }

  lemma UnansweredIsAdmissible(c: Codec, h: History, d: Disk, id: RunId, at: int)
    requires BaseHistory(c, h) && Replay(h).disk == d && id in d.runs && d.runs[id].artifact.None? && Unanswered(d.runs[id], at).Some?
    ensures var r := Unanswered(d.runs[id], at).value;
      && r.runId == id && Admissible(c, d, r) && Refs(r) == Refs(d.runs[id])
      && OnlyArtifacts(d.runs, d.runs[id := r])
  {
    hide OperationsInv, PromptsInv, RunsFit, RunVerdict, EventsFresh, ActiveNewest, SequencesUnique, TurnsUnique, EventsUnique,
         BodiesInv, ValidRun, DistinctEvents, LinkHistory, RunReplacement;
    BaseHistoryKeeps(c, h);
    var r := Unanswered(d.runs[id], at).value;
    KeepsEvents(d.runs[id], r);
    KeepsFresh(d.runs, r);
  }

  // ---------------------------------------------------------------- attribution of hooks

  /** The run a hook belongs to: by reference, by turn, a new one, or the binding's current one. */
  function AttributedRun(obs: Observation, binding: AgentBinding, events: map<Text, RunId>, turns: map<TurnKey, RunId>,
                         current: map<AgentBinding, RunId>, newId: RunId): Option<RunId>
  {
    if obs.eventRef.Some? && obs.eventRef.value in events then Some(events[obs.eventRef.value])
    else if obs.CanStartRun() then
      if TurnKnown(obs, binding, turns) then Some(turns[TurnKey(binding.agentKind, binding.session, obs.turnKey.value)]) else Some(newId)
    else if obs.turnKey.Some? then
      var key := TurnKey(obs.provider, obs.session, obs.turnKey.value);
      if key in turns then Some(turns[key]) else None
    else if binding in current then Some(current[binding]) else None
  }

  ghost predicate HoldsReference(r: RunRecord, e: Text) {
    exists i :: 0 <= i < |r.evidence.events| && r.evidence.events[i].eventRef == e
  }

  ghost predicate OfTurn(r: RunRecord, agent: AgentKind, session: SessionId, turn: Text) {
    r.turnKey == Some(turn) && r.binding.agentKind == agent && r.binding.session == session
  }

  /** Prompts start runs; so does the activity of a Codex turn nobody has seen the prompt of. */
  ghost predicate MayOpenRun(obs: Observation) {
    obs.hook == UserPromptSubmit || (obs.provider == Ascii("codex") && obs.turnKey.Some? && (obs.hook == Activity || obs.hook == WaitingHook))
  }

  /** Which run a hook belongs to, told from the stored runs. */
  ghost predicate BelongsTo(runs: Runs, current: map<AgentBinding, RunId>, binding: AgentBinding, obs: Observation, newId: RunId, id: RunId) {
    if obs.eventRef.Some? && exists k :: k in runs && HoldsReference(runs[k], obs.eventRef.value) then
      id in runs && HoldsReference(runs[id], obs.eventRef.value)
    else if MayOpenRun(obs) then
      if obs.turnKey.Some? && exists k :: k in runs && OfTurn(runs[k], binding.agentKind, binding.session, obs.turnKey.value) then
        id in runs && OfTurn(runs[id], binding.agentKind, binding.session, obs.turnKey.value)
      else id == newId
    else if obs.turnKey.Some? then id in runs && OfTurn(runs[id], obs.provider, obs.session, obs.turnKey.value)
    else binding in current && id == current[binding]
  }

  lemma TurnIsIndexed(runs: Runs, turns: map<TurnKey, RunId>, agent: AgentKind, session: SessionId, turn: Text)
    requires TurnsExact(runs, turns)
    ensures TurnKey(agent, session, turn) in turns <==> exists k :: k in runs && OfTurn(runs[k], agent, session, turn)
    ensures TurnKey(agent, session, turn) in turns ==>
              turns[TurnKey(agent, session, turn)] in runs && OfTurn(runs[turns[TurnKey(agent, session, turn)]], agent, session, turn)
  {
    if k :| k in runs && OfTurn(runs[k], agent, session, turn) {
      assert TurnOf(runs[k]) == Some(TurnKey(agent, session, turn));
    }
  }

  lemma AttributedBelongs(runs: Runs, events: map<Text, RunId>, turns: map<TurnKey, RunId>, current: map<AgentBinding, RunId>,
                          binding: AgentBinding, obs: Observation, newId: RunId)
    requires EventsExact(runs, events) && TurnsExact(runs, turns)
    ensures AttributedRun(obs, binding, events, turns, current, newId).Some? ==>
              BelongsTo(runs, current, binding, obs, newId, AttributedRun(obs, binding, events, turns, current, newId).value)
  {
    hide OfTurn, TurnsExact;
    if obs.turnKey.Some? {
      TurnIsIndexed(runs, turns, binding.agentKind, binding.session, obs.turnKey.value);
      TurnIsIndexed(runs, turns, obs.provider, obs.session, obs.turnKey.value);
    }
  }

  /** The stored run is what the hook makes of `base`, up to what is recorded of its response. */
  predicate AppliedTo(c: Codec, base: RunRecord, obs: Observation, resolutionId: ResolutionId, run: RunRecord) {
    Reduce(c, base, obs, resolutionId).Some? && SameButArtifact(Reduce(c, base, obs, resolutionId).value.0, run)
  }

  /** The stored run is the new run of this hook, credited to an operation if and only if the hook explains one. */
  ghost predicate BornFrom(c: Codec, g: Generation, operations: Operations, binding: AgentBinding, runSeq: nat, obs: Observation,
                          resolutionId: ResolutionId, run: RunRecord)
  {
    && NewRun(c, g, run.runId, binding, runSeq, run.operationId, obs, resolutionId).Some?
    && SameButArtifact(NewRun(c, g, run.runId, binding, runSeq, run.operationId, obs, resolutionId).value, run)
    && (run.operationId.Some? ==>
          run.operationId.value in operations && AccountsFor(operations[run.operationId.value], binding, runSeq, obs))
    && (run.operationId.None? && obs.hook == UserPromptSubmit ==>
          forall id :: id in operations ==> !AccountsFor(operations[id], binding, runSeq, obs))
  }

  /** The hook was applied to the attributed run, which may have been ended just before because its pane moved on. */
  ghost predicate Follows(c: Codec, before: Runs, obs: Observation, resolutionId: ResolutionId, run: RunRecord) {
    && run.runId in before
    && (|| AppliedTo(c, before[run.runId], obs, resolutionId, run)
        || exists at :: EndedAt(before[run.runId], at).Some? && AppliedTo(c, EndedAt(before[run.runId], at).value, obs, resolutionId, run))
  }

  lemma FollowsQuieted(c: Codec, before: Runs, after: Runs, obs: Observation, resolutionId: ResolutionId, run: RunRecord)
    requires Quieted(before, after) && run.runId in after && AppliedTo(c, after[run.runId], obs, resolutionId, run)
    ensures Follows(c, before, obs, resolutionId, run)
  {
    hide AppliedTo;
  }

  predicate TurnKnown(obs: Observation, binding: AgentBinding, turns: map<TurnKey, RunId>) {
    obs.turnKey.Some? && TurnKey(binding.agentKind, binding.session, obs.turnKey.value) in turns
  }

  lemma KnownReference(runs: Runs, events: map<Text, RunId>, obs: Observation)
    requires EventsExact(runs, events) && obs.eventRef.Some? && obs.eventRef.value in events
    ensures var id := events[obs.eventRef.value];
      && id in runs && ReferenceFree(runs, id, obs)
      && (obs.CorrectnessRef().None? || runs[id].HasEvent(obs.CorrectnessRef().value))
  {
    hide RunRecord.HasEvent;
  }

  lemma UnknownReference(runs: Runs, events: map<Text, RunId>, obs: Observation)
    requires EventsExact(runs, events)
    requires if obs.eventRef.Some? then obs.eventRef.value !in events else obs.ingress !in events
    ensures ReferenceNew(runs, obs)
    ensures forall id :: ReferenceFree(runs, id, obs)
  {
    hide RunRecord.HasEvent;
  }

  lemma TurnsDecide(runs: Runs, turns: map<TurnKey, RunId>, current: map<AgentBinding, RunId>, binding: AgentBinding, obs: Observation)
    requires TurnsExact(runs, turns) && CurrentExact(runs, current)
    ensures TurnKnown(obs, binding, turns) ==> turns[TurnKey(binding.agentKind, binding.session, obs.turnKey.value)] in runs
    ensures !TurnKnown(obs, binding, turns) ==> TurnNew(runs, binding, obs)
    ensures obs.turnKey.Some? && TurnKey(obs.provider, obs.session, obs.turnKey.value) in turns ==>
              turns[TurnKey(obs.provider, obs.session, obs.turnKey.value)] in runs
    ensures binding in current ==> current[binding] in runs
  {
  }

  /** Ending runs moves neither the event index nor the turn index. */
  lemma QuietedIndexes(before: Runs, after: Runs, events: map<Text, RunId>, events': map<Text, RunId>,
                       turns: map<TurnKey, RunId>, turns': map<TurnKey, RunId>)
    requires Quieted(before, after)
    requires EventsExact(before, events) && EventsExact(after, events') && TurnsExact(before, turns) && TurnsExact(after, turns')
    ensures events' == events && turns' == turns
  {
    hide EventsExact, TurnsExact, RunRecord.HasEvent;
    QuietedSame(before, after);
    EventsDetermined(before, after, events, events');
    TurnsDetermined(before, after, turns, turns');
  }

  lemma QuietedSame(before: Runs, after: Runs)
    requires Quieted(before, after)
    ensures after.Keys == before.Keys
    ensures forall id :: id in before ==> TurnOf(after[id]) == TurnOf(before[id])
    ensures forall id, e :: id in before ==> (after[id].HasEvent(e) <==> before[id].HasEvent(e))
  {
    forall id | id in before
      ensures TurnOf(after[id]) == TurnOf(before[id]) && after[id].evidence == before[id].evidence
    {
    }
  }

  lemma EventsDetermined(before: Runs, after: Runs, events: map<Text, RunId>, events': map<Text, RunId>)
    requires after.Keys == before.Keys && forall id, e :: id in before ==> (after[id].HasEvent(e) <==> before[id].HasEvent(e))
    requires EventsExact(before, events) && EventsExact(after, events')
    ensures events' == events
  {
    hide RunRecord.HasEvent;
    assert events'.Keys == events.Keys;
  }

  lemma TurnsDetermined(before: Runs, after: Runs, turns: map<TurnKey, RunId>, turns': map<TurnKey, RunId>)
    requires after.Keys == before.Keys && forall id :: id in before ==> TurnOf(after[id]) == TurnOf(before[id])
    requires TurnsExact(before, turns) && TurnsExact(after, turns')
    ensures turns' == turns
  {
    hide TurnOf;
    assert turns'.Keys == turns.Keys;
  }

  // ---------------------------------------------------------------- terminal provider failure

  const TERMINAL_FAILURE: Text := Ascii("terminal_failure")

  /** The digest joins session and turn with a bare colon. */
  function CapacityDigest(session: SessionId, turn: Text): Digest {
    Sha256(session + Ascii(":") + turn + Ascii(":task_complete_error"))
  }

  function CapacityRef(c: Codec, r: RunRecord): Text
    requires r.turnKey.Some?
  {
    Ascii("capacity:") + c.hex(CapacityDigest(r.binding.session, r.turnKey.value))
  }

  /** `capacity_failure` on the record; None when the revision overflows. */
  function Failed(c: Codec, r: RunRecord, at: int): Option<RunRecord>
    requires r.turnKey.Some?
  {
    var ref := CapacityRef(c, r);
    var isNew := !r.HasEvent(ref);
    var changed := isNew || r.phase != Errored;
    var added := EventReference(ref, TERMINAL_FAILURE, CapacityDigest(r.binding.session, r.turnKey.value), ProviderOverloaded,
                                TerminalFailure, 1, at, at);
    if changed && r.revision >= U64_MAX then None else
    Some(r.(phase := Errored,
            revision := if changed then r.revision + 1 else r.revision,
            updatedAt := if changed then Max(r.updatedAt, at) else r.updatedAt,
            evidence := r.evidence.(
              events := if isNew then r.evidence.events + [added] else r.evidence.events,
              firstObservedAt := if r.evidence.firstObservedAt.None? then Some(at) else r.evidence.firstObservedAt,
              lastObservedAt := Some(if r.evidence.lastObservedAt.None? then at else Max(r.evidence.lastObservedAt.value, at)))))
  }

  /**
   * The next value of a run whose provider reported a terminal failure: an error, with one reference of its own
   * for the turn, and a new revision unless both were there already.
   */
  ghost predicate FailedAs(c: Codec, r: RunRecord, next: RunRecord, at: int)
    requires r.turnKey.Some?
  {
    var digest := Sha256(r.binding.session + Ascii(":") + r.turnKey.value + Ascii(":task_complete_error"));
    var ref := Ascii("capacity:") + c.hex(digest);
    var known := exists i :: 0 <= i < |r.evidence.events| && r.evidence.events[i].eventRef == ref;
    && next == r.(phase := Errored, revision := next.revision, updatedAt := next.updatedAt, evidence := next.evidence)
    && next.evidence == r.evidence.(events := next.evidence.events, firstObservedAt := next.evidence.firstObservedAt,
                                    lastObservedAt := next.evidence.lastObservedAt)
    && next.evidence.events == (if known then r.evidence.events
                                else r.evidence.events + [EventReference(ref, Ascii("terminal_failure"), digest, ProviderOverloaded, TerminalFailure, 1, at, at)])
    && next.evidence.firstObservedAt == (if r.evidence.firstObservedAt.Some? then r.evidence.firstObservedAt else Some(at))
    && next.evidence.lastObservedAt ==
       (if r.evidence.lastObservedAt.Some? && r.evidence.lastObservedAt.value >= at then r.evidence.lastObservedAt else Some(at))
    && (if known && r.phase == Errored then next.revision == r.revision && next.updatedAt == r.updatedAt
        else next.revision == r.revision + 1 && next.updatedAt == if r.updatedAt < at then at else r.updatedAt)
  }

  lemma FailedIsAs(c: Codec, r: RunRecord, at: int)
    requires r.turnKey.Some? && Failed(c, r, at).Some?
    ensures FailedAs(c, r, Failed(c, r, at).value, at)
  {
  }

  predicate CapacityRefFree(c: Codec, runs: Runs, id: RunId)
    requires id in runs
  {
    runs[id].turnKey.Some? ==> forall k :: k in runs && k != id ==> !runs[k].HasEvent(CapacityRef(c, runs[id]))
  }

  lemma FailedKeepsIdentity(c: Codec, r: RunRecord, at: int)
    requires r.Active() && r.turnKey.Some? && Failed(c, r, at).Some?
    ensures var r' := Failed(c, r, at).value;
      SameRunIdentity(r, r') && r'.artifact == r.artifact && (r'.Active() ==> r.Active())
  {
  }

  lemma FailureEvents(c: Codec, r: RunRecord, at: int)
    requires r.turnKey.Some? && DistinctEvents(r) && Failed(c, r, at).Some?
    ensures var r' := Failed(c, r, at).value;
      DistinctEvents(r') && forall e :: r'.HasEvent(e) <==> r.HasEvent(e) || e == CapacityRef(c, r)
  {
    var r' := Failed(c, r, at).value;
    var ref := CapacityRef(c, r);
    if r.HasEvent(ref) {
      ChangedEvents(r, r', None, Same);
    } else {
      assert r'.evidence.events[..|r.evidence.events|] == r.evidence.events;
      ChangedEvents(r, r', Some(ref), Added);
    }
  }

  lemma FailureIsAdmissible(c: Codec, h: History, d: Disk, id: RunId, at: int)
    requires BaseHistory(c, h) && Replay(h).disk == d && id in d.runs && d.runs[id].Active() && d.runs[id].turnKey.Some?
    requires Failed(c, d.runs[id], at).Some? && Failed(c, d.runs[id], at).value != d.runs[id]
    requires CapacityRefFree(c, d.runs, id)
    ensures Failed(c, d.runs[id], at).value.runId == id && Admissible(c, d, Failed(c, d.runs[id], at).value)
  {
    hide OperationsInv, PromptsInv, RunsFit, RunVerdict, EventsFresh, ActiveNewest, SequencesUnique, TurnsUnique, EventsUnique,
         ValidRun, DistinctEvents, LinkHistory, RunReplacement, RunRecord.HasEvent, CapacityRef;
    BaseHistoryKeeps(c, h);
    var r := Failed(c, d.runs[id], at).value;
    FailureEvents(c, d.runs[id], at);
    ReduceKeepsFresh(d.runs, r, Some(CapacityRef(c, d.runs[id])));
    assert BodyPresent(c, d.runs[id], d.artifacts);
  }

  lemma DuplicateReference(c: Codec, runs: Runs, id: RunId, at: int)
    requires EventsUnique(runs) && id in runs && runs[id].runId == id && runs[id].turnKey.Some? && DistinctEvents(runs[id])
    requires !CapacityRefFree(c, runs, id) && Failed(c, runs[id], at).Some?
    ensures var r := Failed(c, runs[id], at).value; r.runId == id && r != runs[id] && !EventsUnique(runs[id := r])
  {
    hide RunRecord.HasEvent, CapacityRef, DistinctEvents;
    var r := Failed(c, runs[id], at).value;
    FailureEvents(c, runs[id], at);
    var ref := CapacityRef(c, runs[id]);
    var k :| k in runs && k != id && runs[k].HasEvent(ref);
    var runs' := runs[id := r];
    assert runs'[k].HasEvent(ref) && runs'[id].HasEvent(ref);
    assert !runs[id].HasEvent(ref);
  }

  /** The duplicate reference makes `index_run` answer corrupt, whatever else the indexes hold. */
  lemma DuplicateClashes(c: Codec, runs: Runs, events: map<Text, RunId>, turns: map<TurnKey, RunId>, current: map<AgentBinding, RunId>, id: RunId, at: int)
    requires EventsUnique(runs) && EventsExact(runs, events) && id in runs && runs[id].runId == id && runs[id].turnKey.Some?
    requires DistinctEvents(runs[id]) && !CapacityRefFree(c, runs, id) && Failed(c, runs[id], at).Some?
    ensures var r := Failed(c, runs[id], at).value; IndexVerdict(runs[id := r], events, turns, current, r) == Err(Corrupt)
  {
    hide RunRecord.HasEvent, CapacityRef, DistinctEvents, Refs, CountNew;
    var r := Failed(c, runs[id], at).value;
    FailureEvents(c, runs[id], at);
    RefsAreEvents(r);
    var ref := CapacityRef(c, runs[id]);
    var k :| k in runs && k != id && runs[k].HasEvent(ref);
    assert events[ref] == k && r.runId == id;
    assert ref in Refs(r) && ref in EventsKept(events, r) && EventsKept(events, r)[ref] == k;
  }

  lemma AcceptedKeepsReferences(c: Codec, d: Disk, r: RunRecord, id: RunId, e: Text)
    requires RunVerdict(c, d, r).Ok? && id in d.runs && d.runs[id].HasEvent(e)
    ensures id in d.runs[r.runId := r] && d.runs[r.runId := r][id].HasEvent(e)
  {
    hide ValidRun, RunsFit, ArtifactReplacement;
    if id == r.runId && !RunStored(d, r) {
      var i :| 0 <= i < |d.runs[id].evidence.events| && d.runs[id].evidence.events[i].eventRef == e;
      assert SameEventIdentity(d.runs[id].evidence.events[i], r.evidence.events[i]);
    }
  }

  /** Nothing the store accepts, short of removing one of the two runs, takes a shared reference away again. */
  lemma SharedReferencePersists(c: Codec, d: Disk, x: Write, a: RunId, b: RunId, e: Text)
    requires a in d.runs && b in d.runs && a != b && d.runs[a].HasEvent(e) && d.runs[b].HasEvent(e)
    requires x.CreateRun? || x.ReplaceRun? ==> RunVerdict(c, d, x.run).Ok?
    requires x != DropRun(a) && x != DropRun(b)
    ensures a in PerformOn(d, x).runs && b in PerformOn(d, x).runs
    ensures PerformOn(d, x).runs[a].HasEvent(e) && PerformOn(d, x).runs[b].HasEvent(e)
    ensures !EventsUnique(PerformOn(d, x).runs)
  {
    hide RunVerdict, RunRecord.HasEvent;
    if x.CreateRun? || x.ReplaceRun? {
      AcceptedKeepsReferences(c, d, x.run, a, e);
      AcceptedKeepsReferences(c, d, x.run, b, e);
    }
  }

  /**
   * `capacity_failure` on a run that already failed: repeating it is a no-op up to the last observation,
   * and a conflict after it, because the revision would not move.
   */
  lemma RepeatedFailure(c: Codec, d: Disk, id: RunId, at: int)
    requires id in d.runs && d.runs[id].runId == id && d.runs[id].generation == d.meta.generation && ValidRun(c, d.runs[id])
    requires d.runs[id].turnKey.Some? && d.runs[id].phase == Errored && d.runs[id].HasEvent(CapacityRef(c, d.runs[id]))
    requires d.runs[id].revision < U64_MAX && d.runs[id].evidence.lastObservedAt.Some?
    ensures Failed(c, d.runs[id], at).Some?
    ensures var again := Failed(c, d.runs[id], at).value;
      && (RunVerdict(c, d, again).Ok? <==> at <= d.runs[id].evidence.lastObservedAt.value)
      && (at <= d.runs[id].evidence.lastObservedAt.value ==> again == d.runs[id])
      && (at > d.runs[id].evidence.lastObservedAt.value ==>
            RunVerdict(c, d, again) == if ValidRun(c, again) then Err(Conflict) else Err(Invalid))
  {
    hide ValidRun, RunsFit, EvidenceReplacement, ArtifactReplacement, CapacityRef, RunRecord.HasEvent;
    FailedHasFirst(c, d.runs[id]);
  }

  lemma FailedHasFirst(c: Codec, r: RunRecord)
    requires ValidRun(c, r) && r.evidence.lastObservedAt.Some?
    ensures r.evidence.firstObservedAt.Some?
  {
  }

  /** Different turns of different sessions can share a reference: the colon does not separate the fields. */
  lemma CapacityRefsCollide(c: Codec, a: RunRecord, b: RunRecord)
    requires a.binding.session == Ascii("s:t") && a.turnKey == Some(Ascii("u"))
    requires b.binding.session == Ascii("s") && b.turnKey == Some(Ascii("t:u"))
    ensures TurnOf(a) != TurnOf(b) && CapacityRef(c, a) == CapacityRef(c, b)
  {
    assert Ascii("s:t") + Ascii(":") + Ascii("u") == Ascii("s") + Ascii(":") + Ascii("t:u");
    assert Ascii("s:t") != Ascii("s") by {
      assert |Ascii("s:t")| == 3 && |Ascii("s")| == 1;
    }
  }

  /** When two runs hold one reference there is no exact event index, so no reopening can build one. */
  lemma NoIndexForDuplicates(runs: Runs, events: map<Text, RunId>)
    requires !EventsUnique(runs)
    ensures !EventsExact(runs, events)
  {
    hide RunRecord.HasEvent, EventsExact;
    var a, b, e :| a in runs && b in runs && runs[a].HasEvent(e) && runs[b].HasEvent(e) && a != b;
    if EventsExact(runs, events) {
      ReferenceIsOwned(runs, events, a, e);
      ReferenceIsOwned(runs, events, b, e);
    }
  }

  /** When two runs hold one turn there is no exact turn index either. */
  lemma NoIndexForSharedTurn(runs: Runs, turns: map<TurnKey, RunId>)
    requires !TurnsUnique(runs)
    ensures !TurnsExact(runs, turns)
  {
    hide TurnOf;
  }

  lemma ReferenceIsOwned(runs: Runs, events: map<Text, RunId>, id: RunId, e: Text)
    requires EventsExact(runs, events) && id in runs && runs[id].HasEvent(e)
    ensures e in events && events[e] == id
  {
  }
}
