/** The replacement guards of src/agent_state/store.rs: what one stored record may become. */
module Guards {
  import opened Base
  import opened Records

  // ---------------------------------------------------------------- runs

  predicate SameEventIdentity(old_: EventReference, new_: EventReference) {
    && old_.eventRef == new_.eventRef
    && old_.ingress == new_.ingress
    && old_.payload == new_.payload
    && old_.disposition == new_.disposition
    && old_.receipt == new_.receipt
    && old_.firstObservedAt == new_.firstObservedAt
    && old_.count <= new_.count
    && old_.lastObservedAt <= new_.lastObservedAt
  }

  /** References are compared position by position. */
  predicate EvidenceReplacement(existing: Evidence, next: Evidence) {
    && existing.activityCount <= next.activityCount
    && existing.permissionCount <= next.permissionCount
    && existing.userInputCount <= next.userInputCount
    && existing.processAbsenceCount <= next.processAbsenceCount
    && existing.terminalStillCount <= next.terminalStillCount
    && |existing.events| <= |next.events|
    && forall i :: 0 <= i < |existing.events| ==> SameEventIdentity(existing.events[i], next.events[i])
  }

  predicate CompletenessAdvances(existing: StoreCompleteness, next: StoreCompleteness) {
    || existing == next
    || (existing == Unavailable && (next == Complete || next == Truncated))
    || (existing != Expired && next == Expired)
  }

  predicate ArtifactReplacement(existing: Option<Artifact>, next: Option<Artifact>) {
    existing.Some? ==>
      && next.Some?
      && existing.value.originalDigest == next.value.originalDigest
      && existing.value.originalBytes == next.value.originalBytes
      && existing.value.runId == next.value.runId
      && existing.value.operationId == next.value.operationId
      && CompletenessAdvances(existing.value.stored, next.value.stored)
  }

  predicate SameRunIdentity(existing: RunRecord, next: RunRecord) {
    && existing.generation == next.generation
    && existing.runId == next.runId
    && existing.runSeq == next.runSeq
    && existing.binding == next.binding
    && existing.turnKey == next.turnKey
    && existing.operationId == next.operationId
    && existing.createdAt == next.createdAt
  }

  predicate RunReplacement(existing: RunRecord, next: RunRecord) {
    && SameRunIdentity(existing, next)
    && next.revision == SaturatingNext(existing.revision)
    && existing.updatedAt <= next.updatedAt
    && (existing.outcome == Completed ==> next.outcome == Completed)
    && (existing.resolution.Some? ==> next.resolution == existing.resolution)
    && EvidenceReplacement(existing.evidence, next.evidence)
    && ArtifactReplacement(existing.artifact, next.artifact)
  }

  // ---------------------------------------------------------------- operations

  predicate SessionRebound(existing: OperationRecord, next: OperationRecord) {
    && next.binding.session.Some?
    && (existing.state == DispatchStarted || existing.state == DeliveryUnknown)
    && next.state == PromptConfirmed
    && TargetOf(existing.binding) == TargetOf(next.binding)
    && (|| (existing.binding.session.None? && existing.binding.agentEpoch == next.binding.agentEpoch)
        || (existing.binding.agentKind == CODEX && existing.binding.agentEpoch + 1 == next.binding.agentEpoch))
    && existing.paneVersion.stateId == next.paneVersion.stateId
    && existing.paneVersion.revision == next.paneVersion.revision
    && next.paneVersion.agentEpoch == next.binding.agentEpoch
  }

  predicate SameRequest(existing: OperationRecord, next: OperationRecord) {
    && existing.generation == next.generation
    && existing.operationId == next.operationId
    && existing.fingerprint == next.fingerprint
    && existing.targetRef == next.targetRef
    && existing.promptDigest == next.promptDigest
    && existing.dispatchOption == next.dispatchOption
    && existing.expectedRun == next.expectedRun
    && existing.expectedRunSeq == next.expectedRunSeq
    && existing.deadlineAt == next.deadlineAt
    && existing.createdAt == next.createdAt
  }

  predicate Abandonment(existing: OperationRecord, next: OperationRecord) {
    existing.state == DeliveryUnknown && !existing.Abandoned() && next.Abandoned()
  }

  predicate Transition(existing: OperationRecord, next: OperationRecord) {
    && !existing.Abandoned()
    && (|| Abandonment(existing, next)
        || (existing.state == Prepared && (next.state == DispatchStarted || next.state == Rejected))
        || (existing.state == DispatchStarted
            && (next.state == PromptConfirmed || next.state == DeliveryUnknown || next.state == Rejected))
        || (existing.state == DeliveryUnknown && next.state == PromptConfirmed))
  }

  predicate OperationReplacement(existing: OperationRecord, next: OperationRecord) {
    && SameRequest(existing, next)
    && (existing.binding != next.binding ==> SessionRebound(existing, next))
    && (existing.paneVersion != next.paneVersion ==> SessionRebound(existing, next))
    && next.revision == SaturatingNext(existing.revision)
    && existing.updatedAt <= next.updatedAt
    && Transition(existing, next)
    && (existing.runId.Some? ==> next.runId == existing.runId)
    && (existing.receipt.Some? && existing.receipt != next.receipt ==>
          || Abandonment(existing, next)
          || (existing.state == DeliveryUnknown && next.state == PromptConfirmed))
  }

  // ---------------------------------------------------------------- the operation lifecycle

  /** Prepared < DispatchStarted < DeliveryUnknown < {Confirmed, Rejected, Abandoned}. */
  function Rank(o: OperationRecord): (r: nat)
    ensures 1 <= r <= 4
  {
    if o.Abandoned() then 4
    else match o.state
         case Prepared => 1
         case DispatchStarted => 2
         case DeliveryUnknown => 3
         case PromptConfirmed => 4
         case Rejected => 4
  }

  predicate Terminal(o: OperationRecord) {
    o.state == PromptConfirmed || o.state == Rejected || o.Abandoned()
  }

  /** Successive stored values of one operation, the first one as `prepare_operation` writes it. */
  predicate Lifetime(chain: seq<OperationRecord>) {
    && |chain| > 0
    && chain[0].state == Prepared
    && chain[0].revision == 1
    && (forall i :: 0 <= i < |chain| ==> ValidOperation(chain[i]))
    && forall i :: 0 < i < |chain| ==> OperationReplacement(chain[i - 1], chain[i])
  }

  /** No accepted replacement keeps or lowers the rank, moves the fence, or touches the request. */
  lemma ReplacementAdvances(existing: OperationRecord, next: OperationRecord)
    requires OperationReplacement(existing, next)
    ensures Rank(existing) < Rank(next)
    ensures !Terminal(existing)
    ensures TargetOf(next.binding) == TargetOf(existing.binding)
    ensures next.Fenced() ==> existing.Fenced()
    ensures existing.Fenced()
  {
  }

  lemma {:induction false} LifetimeRanks(chain: seq<OperationRecord>, i: nat)
    requires Lifetime(chain) && i < |chain|
    ensures chain[i].revision == i + 1 <= Rank(chain[i])
    ensures TargetOf(chain[i].binding) == TargetOf(chain[0].binding)
    ensures SameRequest(chain[0], chain[i])
  {
    if i > 0 {
      LifetimeRanks(chain, i - 1);
      ReplacementAdvances(chain[i - 1], chain[i]);
    }
  }

  lemma {:induction false} LifetimeIncreases(chain: seq<OperationRecord>, i: nat, j: nat)
    requires Lifetime(chain) && i < j < |chain|
    ensures Rank(chain[i]) < Rank(chain[j])
    ensures chain[i].updatedAt <= chain[j].updatedAt
    ensures chain[i].runId.Some? ==> chain[j].runId == chain[i].runId
    ensures chain[i].binding != chain[j].binding ==> chain[j].state == PromptConfirmed
    decreases j
  {
    ReplacementAdvances(chain[j - 1], chain[j]);
    if i < j - 1 {
      LifetimeIncreases(chain, i, j - 1);
    }
  }

  /**
   * Over its whole life an operation is stored at most four times, is marked
   * dispatch-started at most once, and nothing follows a terminal value: so
   * Confirmed, Rejected and Abandoned exclude each other and are final.
   */
  lemma OperationLifetime(chain: seq<OperationRecord>)
    requires Lifetime(chain)
    ensures |chain| <= 4
    ensures forall i :: 0 <= i < |chain| ==> chain[i].revision == i + 1
    ensures forall i :: 0 <= i < |chain| ==> SameRequest(chain[0], chain[i])
    ensures forall i, j :: 0 <= i < j < |chain| ==> Rank(chain[i]) < Rank(chain[j]) && chain[i].updatedAt <= chain[j].updatedAt
    ensures forall i, j :: 0 <= i < j < |chain| && chain[i].binding != chain[j].binding ==> chain[j].state == PromptConfirmed
    ensures forall i, j :: 0 <= i < j < |chain| ==> chain[i].state != DispatchStarted || chain[j].state != DispatchStarted
    ensures forall i :: 0 <= i < |chain| && Terminal(chain[i]) ==> i == |chain| - 1
  {
    forall i | 0 <= i < |chain|
      ensures chain[i].revision == i + 1 <= Rank(chain[i]) && SameRequest(chain[0], chain[i])
    {
      LifetimeRanks(chain, i);
    }
    forall i, j | 0 <= i < j < |chain|
      ensures Rank(chain[i]) < Rank(chain[j]) && chain[i].updatedAt <= chain[j].updatedAt
      ensures chain[i].binding != chain[j].binding ==> chain[j].state == PromptConfirmed
    {
      LifetimeIncreases(chain, i, j);
    }
    var last := |chain| - 1;
    assert chain[last].revision <= Rank(chain[last]);
  }

  // ---------------------------------------------------------------- one resolution per run

  predicate RunHistory(chain: seq<RunRecord>) {
    && |chain| > 0
    && forall i :: 0 < i < |chain| ==> RunReplacement(chain[i - 1], chain[i])
  }

  /**
   * Every later stored value of a run keeps its identity, its resolution once it has
   * one, its completion, and a revision that moves until it saturates.
   */
  lemma {:induction false} RunHistoryMonotone(chain: seq<RunRecord>, i: nat, j: nat)
    requires RunHistory(chain) && i <= j < |chain|
    ensures SameRunIdentity(chain[i], chain[j])
    ensures chain[i].resolution.Some? ==> chain[j].resolution == chain[i].resolution
    ensures chain[i].outcome == Completed ==> chain[j].outcome == Completed
    ensures chain[i].revision <= chain[j].revision
    ensures i < j && chain[i].revision < U64_MAX ==> chain[i].revision < chain[j].revision
    ensures chain[i].updatedAt <= chain[j].updatedAt
    ensures chain[i].evidence.activityCount <= chain[j].evidence.activityCount
    ensures chain[i].evidence.permissionCount <= chain[j].evidence.permissionCount
    ensures chain[i].evidence.userInputCount <= chain[j].evidence.userInputCount
    ensures chain[i].evidence.processAbsenceCount <= chain[j].evidence.processAbsenceCount
    ensures chain[i].evidence.terminalStillCount <= chain[j].evidence.terminalStillCount
    ensures chain[i].artifact.Some? ==>
              && chain[j].artifact.Some?
              && chain[j].artifact.value.originalDigest == chain[i].artifact.value.originalDigest
              && (chain[i].artifact.value.stored == Expired ==> chain[j].artifact.value.stored == Expired)
              && (chain[i].artifact.value.stored != Unavailable ==> chain[j].artifact.value.stored in {chain[i].artifact.value.stored, Expired})
    ensures |chain[i].evidence.events| <= |chain[j].evidence.events|
    ensures forall k :: 0 <= k < |chain[i].evidence.events| ==>
              SameEventIdentity(chain[i].evidence.events[k], chain[j].evidence.events[k])
    decreases j - i
  {
    if i < j {
      RunHistoryMonotone(chain, i, j - 1);
      assert RunReplacement(chain[j - 1], chain[j]);
      assert forall k :: 0 <= k < |chain[j - 1].evidence.events| ==>
          SameEventIdentity(chain[j - 1].evidence.events[k], chain[j].evidence.events[k]);
    }
  }
}
