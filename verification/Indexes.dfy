/** The in-memory indexes of src/agent_state/runtime.rs, as exact images of the stored records. */
module Indexes {
  import opened Base
  import opened Records
  import opened Guards
  import opened Protocol
  import opened Dispatch

  type Fences = map<TargetKey, OperationId>
  type Inputs = map<TargetKey, map<OperationId, DispatchInput>>

  // ---------------------------------------------------------------- the dispatch fence

  /** `in_flight_by_binding` maps a target to the fenced operation there, and nothing else. */
  ghost predicate FenceExact(operations: Operations, fences: Fences) {
    && (forall id :: id in operations && operations[id].Fenced() ==>
          TargetOf(operations[id].binding) in fences && fences[TargetOf(operations[id].binding)] == id)
    && (forall k :: k in fences ==>
          fences[k] in operations && operations[fences[k]].Fenced() && TargetOf(operations[fences[k]].binding) == k)
  }

  lemma FenceDecides(operations: Operations, fences: Fences, k: TargetKey)
    requires FenceExact(operations, fences)
    ensures k in fences <==> !FenceFree(operations, k)
  {
  }

  /** An operation that blocks every other dispatch to the same agent: not yet sent, or sent and never settled. */
  ghost predicate HoldsTarget(o: OperationRecord, b: OperationBinding) {
    && (o.state == Prepared || o.state == DispatchStarted
        || (o.state == DeliveryUnknown && (o.receipt.None? || o.receipt.value.code != OperatorAbandoned)))
    && o.binding.server == b.server && o.binding.pane == b.pane && o.binding.paneStateId == b.paneStateId
    && o.binding.agentKind == b.agentKind && o.binding.process == b.process
  }

  lemma FenceMeansHeld(operations: Operations, fences: Fences, b: OperationBinding)
    requires FenceExact(operations, fences)
    ensures TargetOf(b) in fences <==> exists id :: id in operations && HoldsTarget(operations[id], b)
  {
    if id :| id in operations && HoldsTarget(operations[id], b) {
      assert operations[id].Fenced() && TargetOf(operations[id].binding) == TargetOf(b);
    }
    if TargetOf(b) in fences {
      assert HoldsTarget(operations[fences[TargetOf(b)]], b);
    }
  }

  lemma FenceAfterPrepare(operations: Operations, fences: Fences, o: OperationRecord)
    requires FenceExact(operations, fences)
    requires o.operationId !in operations && o.Fenced() && TargetOf(o.binding) !in fences
    ensures FenceExact(operations[o.operationId := o], fences[TargetOf(o.binding) := o.operationId])
  {
  }

  lemma FenceAfterHold(operations: Operations, fences: Fences, o: OperationRecord)
    requires FenceExact(operations, fences)
    requires o.operationId in operations && operations[o.operationId].Fenced() && o.Fenced()
    requires TargetOf(o.binding) == TargetOf(operations[o.operationId].binding)
    ensures FenceExact(operations[o.operationId := o], fences)
    ensures fences[TargetOf(o.binding) := o.operationId] == fences
  {
  }

  /** `release_dispatch_fence`: only the operation that holds the fence gives it up. */
  function Released(fences: Fences, o: OperationRecord): Fences {
    var k := TargetOf(o.binding);
    if k in fences && fences[k] == o.operationId then fences - {k} else fences
  }

  lemma FenceAfterRelease(operations: Operations, fences: Fences, o: OperationRecord)
    requires FenceExact(operations, fences)
    requires o.operationId in operations && !o.Fenced()
    requires TargetOf(o.binding) == TargetOf(operations[o.operationId].binding)
    ensures FenceExact(operations[o.operationId := o], Released(fences, o))
  {
  }

  /** The fence after any accepted change of a stored operation. */
  function FenceAfter(fences: Fences, o: OperationRecord): Fences {
    if o.Fenced() then fences else Released(fences, o)
  }

  lemma FenceAfterAdvance(operations: Operations, fences: Fences, o: OperationRecord)
    requires FenceExact(operations, fences)
    requires o.operationId in operations && OperationReplacement(operations[o.operationId], o)
    ensures FenceExact(operations[o.operationId := o], FenceAfter(fences, o))
    ensures o.Fenced() ==> fences[TargetOf(o.binding) := o.operationId] == fences
  {
    hide OperationReplacement, FenceExact;
    ReplacementAdvances(operations[o.operationId], o);
    if o.Fenced() {
      FenceAfterHold(operations, fences, o);
    } else {
      FenceAfterRelease(operations, fences, o);
    }
  }

  /** Releasing an operation that no longer holds a fence leaves every newer fence in place. */
  lemma StaleReleaseIsHarmless(operations: Operations, fences: Fences, o: OperationRecord)
    requires FenceExact(operations, fences)
    requires o.operationId in operations && operations[o.operationId] == o && !o.Fenced()
    ensures Released(fences, o) == fences
  {
  }

  // ---------------------------------------------------------------- dispatch inputs

  ghost predicate InputsExact(operations: Operations, inputs: Inputs) {
    && (forall id :: id in operations && InputOf(operations[id]).Some? ==>
          var k := TargetOf(operations[id].binding);
          k in inputs && id in inputs[k] && inputs[k][id] == InputOf(operations[id]).value)
    && (forall k, id :: k in inputs && id in inputs[k] ==>
          id in operations && InputOf(operations[id]).Some? && TargetOf(operations[id].binding) == k)
    && (forall k :: k in inputs ==> inputs[k] != map[])
  }

  /** `index_dispatch_input`. */
  function IndexInput(inputs: Inputs, o: OperationRecord): Inputs {
    var k := TargetOf(o.binding);
    match InputOf(o)
    case Some(input) => inputs[k := (if k in inputs then inputs[k] else map[])[o.operationId := input]]
    case None =>
      if k !in inputs then inputs else
      var rest := inputs[k] - {o.operationId};
      if rest == map[] then inputs - {k} else inputs[k := rest]
  }

  lemma InputsAfter(operations: Operations, inputs: Inputs, o: OperationRecord)
    requires InputsExact(operations, inputs)
    requires o.operationId in operations ==> TargetOf(o.binding) == TargetOf(operations[o.operationId].binding)
    ensures InputsExact(operations[o.operationId := o], IndexInput(inputs, o))
  {
    var operations' := operations[o.operationId := o];
    var inputs' := IndexInput(inputs, o);
    var key := TargetOf(o.binding);
    forall id | id in operations' && InputOf(operations'[id]).Some?
      ensures var k := TargetOf(operations'[id].binding);
              k in inputs' && id in inputs'[k] && inputs'[k][id] == InputOf(operations'[id]).value
    {
      if id != o.operationId && TargetOf(operations[id].binding) == key && InputOf(o).None? {
        assert id in inputs[key] - {o.operationId};
      }
    }
    forall k, id | k in inputs' && id in inputs'[k]
      ensures id in operations' && InputOf(operations'[id]).Some? && TargetOf(operations'[id].binding) == k
    {
      if k != key {
        assert k in inputs && id in inputs[k];
      } else if id != o.operationId {
        assert k in inputs && id in inputs[k];
      }
    }
    forall k | k in inputs'
      ensures inputs'[k] != map[]
    {
      if k == key && InputOf(o).Some? {
        assert o.operationId in inputs'[k];
      }
    }
  }

  /** An operation without evidence and without a change of evidence needs no indexing. */
  lemma InputsUnchanged(operations: Operations, inputs: Inputs, o: OperationRecord)
    requires InputsExact(operations, inputs)
    requires (o.operationId in operations && InputOf(o) == InputOf(operations[o.operationId])
              && TargetOf(o.binding) == TargetOf(operations[o.operationId].binding))
             || (o.operationId !in operations && InputOf(o).None?)
    ensures InputsExact(operations[o.operationId := o], inputs)
  {
  }

  /** Indexing an operation whose evidence is already indexed changes nothing. */
  lemma ReindexingIsIdle(operations: Operations, inputs: Inputs, o: OperationRecord)
    requires InputsExact(operations, inputs)
    requires o.operationId in operations && InputOf(o).Some? && InputOf(o) == InputOf(operations[o.operationId])
    requires TargetOf(o.binding) == TargetOf(operations[o.operationId].binding)
    ensures IndexInput(inputs, o) == inputs
  {
    var k := TargetOf(o.binding);
    assert inputs[k][o.operationId := InputOf(o).value] == inputs[k];
  }

  /** The sent operation accounts for the prompt the hook reports. */
  predicate Explains(o: OperationRecord, agent: AgentBinding, obs: Observation, automaticOnly: bool) {
    InputOf(o).Some? && InputMatches(InputOf(o).value, agent, obs, automaticOnly)
  }

  /**
   * The same, in the fields of the record: the operation was sent, and whatever became of it since, even if it was
   * abandoned or confirmed, its prompt is the one the hook reports, no earlier than the request, from the dispatched
   * target in the same epoch or the next one of Codex; automatic dispatches may be asked for alone.
   */
  ghost predicate SentPrompt(o: OperationRecord, agent: AgentBinding, obs: Observation, automaticOnly: bool) {
    && (o.state == DispatchStarted || o.state == DeliveryUnknown || o.state == PromptConfirmed)
    && obs.promptDigest == Some(o.promptDigest)
    && o.createdAt <= obs.observedAt
    && (automaticOnly ==> o.dispatchOption == Ascii("capacity_auto_resume"))
    && o.binding.server == agent.server && o.binding.pane == agent.pane && o.binding.paneStateId == agent.paneStateId
    && o.binding.agentKind == agent.agentKind && o.binding.process == agent.process
    && (|| (o.binding.agentEpoch == agent.agentEpoch && (o.binding.session.None? || o.binding.session == Some(agent.session)))
        || (agent.agentKind == Ascii("codex") && o.binding.agentEpoch + 1 == agent.agentEpoch))
  }

  lemma ExplainsIsSentPrompt(o: OperationRecord, agent: AgentBinding, obs: Observation, automaticOnly: bool)
    ensures Explains(o, agent, obs, automaticOnly) <==> SentPrompt(o, agent, obs, automaticOnly)
  {
  }

  lemma AllExplainSentPrompts(operations: Operations, agent: AgentBinding, obs: Observation, automaticOnly: bool)
    ensures (exists id :: id in operations && Explains(operations[id], agent, obs, automaticOnly))
            <==> (exists id :: id in operations && SentPrompt(operations[id], agent, obs, automaticOnly))
  {
    hide Explains, SentPrompt;
    forall id | id in operations
      ensures Explains(operations[id], agent, obs, automaticOnly) <==> SentPrompt(operations[id], agent, obs, automaticOnly)
    {
      ExplainsIsSentPrompt(operations[id], agent, obs, automaticOnly);
    }
  }

  /** The prompt that confirms an operation is that operation's own. */
  lemma ConfirmedIsSentPrompt(o: OperationRecord, agent: AgentBinding, obs: Observation)
    requires o.state == PromptConfirmed && o.binding == FromAgent(agent)
    requires obs.promptDigest == Some(o.promptDigest) && o.createdAt <= obs.observedAt
    ensures SentPrompt(o, agent, obs, false)
  {
  }

  lemma InputsDecide(operations: Operations, inputs: Inputs, agent: AgentBinding, obs: Observation, automaticOnly: bool)
    requires InputsExact(operations, inputs)
    ensures var key := TargetOf(FromAgent(agent));
      (key in inputs && exists id :: id in inputs[key] && InputMatches(inputs[key][id], agent, obs, automaticOnly))
      <==> exists id :: id in operations && Explains(operations[id], agent, obs, automaticOnly)
  {
    var key := TargetOf(FromAgent(agent));
    if id :| id in operations && Explains(operations[id], agent, obs, automaticOnly) {
      assert TargetOf(operations[id].binding) == key;
      assert inputs[key][id] == InputOf(operations[id]).value;
    }
    if key in inputs {
      forall id | id in inputs[key] && InputMatches(inputs[key][id], agent, obs, automaticOnly)
        ensures Explains(operations[id], agent, obs, automaticOnly)
      {
        assert inputs[key][id] == InputOf(operations[id]).value;
      }
    }
  }

  /** All operation indexes after an accepted change of a stored operation. */
  lemma AdvanceReindexes(operations: Operations, fences: Fences, inputs: Inputs, o: OperationRecord)
    requires FenceExact(operations, fences) && InputsExact(operations, inputs)
    requires o.operationId in operations && OperationReplacement(operations[o.operationId], o)
    ensures FenceExact(operations[o.operationId := o], FenceAfter(fences, o))
    ensures InputsExact(operations[o.operationId := o], IndexInput(inputs, o))
    ensures InputOf(o).Some? && InputOf(o) == InputOf(operations[o.operationId]) ==> IndexInput(inputs, o) == inputs
  {
    hide FenceExact, InputsExact, FenceAfter, IndexInput, OperationReplacement;
    ReplacementAdvances(operations[o.operationId], o);
    FenceAfterAdvance(operations, fences, o);
    InputsAfter(operations, inputs, o);
    if InputOf(o).Some? && InputOf(o) == InputOf(operations[o.operationId]) {
      ReindexingIsIdle(operations, inputs, o);
    }
  }

  lemma OverdueAreFenced(operations: Operations, fences: Fences, found: set<OperationId>, at: int)
    requires FenceExact(operations, fences)
    requires found == set k | k in fences && fences[k] in operations && Overdue(operations[fences[k]], at) :: fences[k]
    ensures forall id :: id in operations && Overdue(operations[id], at) ==> id in found
  {
    forall id | id in operations && Overdue(operations[id], at)
      ensures id in found
    {
      assert fences[TargetOf(operations[id].binding)] == id;
    }
  }

  // ---------------------------------------------------------------- rebuilding

  /** One step of the scan over operations, whatever the order. */
  lemma ScanOperation(operations: Operations, fences: Fences, inputs: Inputs, o: OperationRecord)
    requires o.operationId !in operations && FenceExact(operations, fences) && InputsExact(operations, inputs)
    requires FenceUnique(operations[o.operationId := o])
    ensures FenceExact(operations[o.operationId := o], if o.Fenced() then fences[TargetOf(o.binding) := o.operationId] else fences)
    ensures InputsExact(operations[o.operationId := o], if InputOf(o).Some? then IndexInput(inputs, o) else inputs)
  {
    hide InputsExact, IndexInput;
    if InputOf(o).Some? {
      InputsAfter(operations, inputs, o);
    } else {
      InputsUnchanged(operations, inputs, o);
    }
    ScanFence(operations, fences, o);
  }

  lemma ScanFence(operations: Operations, fences: Fences, o: OperationRecord)
    requires o.operationId !in operations && FenceExact(operations, fences) && FenceUnique(operations[o.operationId := o])
    ensures FenceExact(operations[o.operationId := o], if o.Fenced() then fences[TargetOf(o.binding) := o.operationId] else fences)
  {
    if o.Fenced() {
      var key, after := TargetOf(o.binding), operations[o.operationId := o];
      assert after[o.operationId] == o && forall id :: id in operations ==> after[id] == operations[id];
      assert key !in fences;
      FenceAfterPrepare(operations, fences, o);
    }
  }

  // ---------------------------------------------------------------- run indexes

  ghost predicate EventsExact(runs: Runs, events: map<Text, RunId>) {
    && (forall id, e :: id in runs && runs[id].HasEvent(e) ==> e in events && events[e] == id)
    && (forall e :: e in events ==> events[e] in runs && runs[events[e]].HasEvent(e))
  }

  ghost predicate TurnsExact(runs: Runs, turns: map<TurnKey, RunId>) {
    && (forall id :: id in runs && TurnOf(runs[id]).Some? ==>
          TurnOf(runs[id]).value in turns && turns[TurnOf(runs[id]).value] == id)
    && (forall t :: t in turns ==> turns[t] in runs && TurnOf(runs[turns[t]]) == Some(t))
  }

  /** Every entry names a stored run of its binding, and an active run is its binding's current run. */
  ghost predicate CurrentExact(runs: Runs, current: map<AgentBinding, RunId>) {
    && (forall b :: b in current ==> current[b] in runs && runs[current[b]].binding == b)
    && (forall id :: id in runs && runs[id].Active() ==> runs[id].binding in current && current[runs[id].binding] == id)
  }

  ghost predicate PanesExact(runs: Runs, panes: map<PaneInstance, RunId>) {
    forall p :: p in panes ==> panes[p] in runs && runs[panes[p]].binding.pane == p
  }

  /** The operation the run is credited to, if any, is confirmed and points back at it. */
  predicate LinkSettled(r: RunRecord, operations: Operations) {
    r.operationId.Some? ==>
      && r.operationId.value in operations
      && operations[r.operationId.value].state == PromptConfirmed
      && operations[r.operationId.value].runId == Some(r.runId)
  }

  /** At rest every credited operation is confirmed, and points back at the run. */
  ghost predicate SettledLinks(runs: Runs, operations: Operations) {
    forall id :: id in runs ==> LinkSettled(runs[id], operations)
  }

  /** The one run whose claim may still be open is the one just created. */
  ghost predicate SettledExcept(runs: Runs, operations: Operations, open: RunId) {
    forall id :: id in runs && id != open ==> LinkSettled(runs[id], operations)
  }

  lemma SettledAfterCreate(runs: Runs, operations: Operations, r: RunRecord)
    requires SettledLinks(runs, operations)
    ensures SettledExcept(runs[r.runId := r], operations, r.runId)
  {
  }

  lemma SettledAfterAdvance(runs: Runs, operations: Operations, o: OperationRecord)
    requires o.operationId in operations ==> operations[o.operationId].state != PromptConfirmed
    ensures SettledLinks(runs, operations) ==> SettledLinks(runs, operations[o.operationId := o])
    ensures forall r :: LinkSettled(r, operations) ==> LinkSettled(r, operations[o.operationId := o])
  {
  }

  lemma SettledAfterRemoval(runs: Runs, operations: Operations, gone: set<RunId>)
    ensures SettledLinks(runs, operations) ==> SettledLinks(runs - gone, operations)
  {
  }

  lemma SettledAfterReplace(runs: Runs, operations: Operations, r: RunRecord)
    requires r.runId in runs && SameRunIdentity(runs[r.runId], r)
    ensures SettledLinks(runs, operations) <==> SettledLinks(runs[r.runId := r], operations)
  {
    assert LinkSettled(r, operations) <==> LinkSettled(runs[r.runId], operations);
    if SettledLinks(runs[r.runId := r], operations) {
      forall id | id in runs
        ensures LinkSettled(runs[id], operations)
      {
        assert LinkSettled(runs[r.runId := r][id], operations);
      }
    }
  }

  lemma SettledAfterOther(runs: Runs, operations: Operations, o: OperationRecord)
    requires SettledLinks(runs, operations)
    requires o.operationId in operations ==> operations[o.operationId].state != PromptConfirmed
    ensures SettledLinks(runs, operations[o.operationId := o])
  {
  }
}
