/** The durable records of src/agent_state/model.rs and their validity rules. */
module Records {
  import opened Base

  const RUN_RECORD_MAX_BYTES: nat := 16 * 1024
  const RUN_EVIDENCE_MAX_BYTES: nat := 8 * 1024
  const RUN_EVENT_REFERENCE_MAX_COUNT: nat := 16
  const OPERATION_RECORD_MAX_BYTES: nat := 4 * 1024
  const PROMPT_BODY_MAX_BYTES: nat := 65_536
  const RESPONSE_ARTIFACT_BODY_MAX_BYTES: nat := 512 * 1024

  /** A random 32-digit hexadecimal identifier; text order is numeric order. */
  type RunId = nat
  type Generation = nat
  type ResolutionId = Text
  type OperationId = Text
  type StateId = Text
  type SessionId = Text
  type AgentKind = Text

  const CODEX: AgentKind := Ascii("codex")

  /** What the encodings decide: sizes of records, UTF-8 validity, and the printed form of a digest. */
  datatype Codec = Codec(
    runSize: RunRecord -> nat,
    operationSize: OperationRecord -> nat,
    evidenceSize: Evidence -> nat,
    isUtf8: Text -> bool,
    hex: Digest -> Text)

  datatype ServerIdentity = ServerIdentity(pid: nat, startTime: int)
  datatype PaneInstance = PaneInstance(paneId: Text, panePid: nat)
  datatype ProcessIdentity = ProcessIdentity(pid: nat, startToken: Text)
  datatype StateVersion = StateVersion(stateId: StateId, agentEpoch: nat, revision: nat)
  datatype RunProjection = RunProjection(runId: RunId, runSeq: nat, runRevision: nat)

  datatype AgentBinding = AgentBinding(
    server: ServerIdentity,
    pane: PaneInstance,
    paneStateId: StateId,
    agentEpoch: nat,
    agentKind: AgentKind,
    session: SessionId,
    process: ProcessIdentity)

  datatype OperationBinding = OperationBinding(
    server: ServerIdentity,
    pane: PaneInstance,
    paneStateId: StateId,
    agentEpoch: nat,
    agentKind: AgentKind,
    session: Option<SessionId>,
    process: ProcessIdentity)

  function FromAgent(b: AgentBinding): OperationBinding {
    OperationBinding(b.server, b.pane, b.paneStateId, b.agentEpoch, b.agentKind, Some(b.session), b.process)
  }

  predicate ValidPane(p: PaneInstance) {
    && |p.paneId| >= 2
    && p.paneId[0] == 0x25
    && (forall i :: 1 <= i < |p.paneId| ==> 0x30 <= p.paneId[i] <= 0x39)
    && p.panePid != 0
  }

  predicate ValidProcess(p: ProcessIdentity) {
    && p.pid != 0
    && !Blank(p.startToken)
    && |p.startToken| <= IDENTIFIER_MAX_BYTES
    && (forall i :: 0 <= i < |p.startToken| ==> p.startToken[i] != 10 && p.startToken[i] != 13)
  }

  predicate ValidServer(s: ServerIdentity) {
    s.pid != 0 && s.startTime >= 0
  }

  predicate ValidAgentBinding(b: AgentBinding) {
    ValidServer(b.server) && ValidPane(b.pane) && b.agentEpoch != 0 && ValidProcess(b.process)
  }

  predicate ValidOperationBinding(b: OperationBinding) {
    ValidServer(b.server) && ValidPane(b.pane) && b.agentEpoch != 0 && ValidProcess(b.process)
  }

  // ---------------------------------------------------------------- runs

  datatype ExecutionPhase = Running | Waiting | Errored | Ended
  datatype SemanticOutcome = Unresolved | Completed
  datatype ResolutionKind = ProviderCompleted | OperatorCompleted

  datatype OperatorAudit = OperatorAudit(
    actorUid: nat,
    actorPid: nat,
    reason: Text,
    reasonDigest: Digest,
    preRevision: nat,
    postRevision: nat,
    observedAt: int)

  datatype RunResolution = RunResolution(
    resolutionId: ResolutionId,
    kind: ResolutionKind,
    resolvedAt: int,
    audit: Option<OperatorAudit>)

  /** Why a reference was appended; `prompt_updated` is the replaceable one. */
  datatype EventDisposition = RunCreated | PromptUpdated | HookApplied | ProviderOverloaded

  datatype EventReceipt = RunRevision(revision: nat) | TerminalFailure

  datatype EventReference = EventReference(
    eventRef: Text,
    ingress: Text,
    payload: Digest,
    disposition: EventDisposition,
    receipt: EventReceipt,
    count: nat,
    firstObservedAt: int,
    lastObservedAt: int)

  datatype Evidence = Evidence(
    events: seq<EventReference>,
    activityCount: nat,
    permissionCount: nat,
    userInputCount: nat,
    processAbsenceCount: nat,
    terminalStillCount: nat,
    firstObservedAt: Option<int>,
    lastObservedAt: Option<int>)

  const EMPTY_EVIDENCE: Evidence := Evidence([], 0, 0, 0, 0, 0, None, None)

  datatype ProviderCompleteness = ProviderComplete | ProviderUnknown
  datatype StoreCompleteness = Complete | Truncated | Unavailable | Expired

  /** `fileName` is the run whose response file the metadata names, if any. */
  datatype Artifact = Artifact(
    runId: RunId,
    operationId: Option<OperationId>,
    session: SessionId,
    process: ProcessIdentity,
    originalBytes: nat,
    storedBytes: nat,
    originalDigest: Digest,
    storedDigest: Option<Digest>,
    provider: ProviderCompleteness,
    stored: StoreCompleteness,
    source: Text,
    observedAt: int,
    fileName: Option<RunId>)

  datatype RunRecord = RunRecord(
    generation: Generation,
    runId: RunId,
    runSeq: nat,
    revision: nat,
    binding: AgentBinding,
    turnKey: Option<Text>,
    operationId: Option<OperationId>,
    phase: ExecutionPhase,
    outcome: SemanticOutcome,
    evidence: Evidence,
    resolution: Option<RunResolution>,
    artifact: Option<Artifact>,
    createdAt: int,
    updatedAt: int)
  {
    predicate Active() {
      outcome == Unresolved && phase != Ended
    }

    predicate HasEvent(e: Text) {
      exists i :: 0 <= i < |evidence.events| && evidence.events[i].eventRef == e
    }

    /** The run names a response file. */
    predicate HasBody() {
      artifact.Some? && artifact.value.fileName.Some?
    }
  }

  predicate ValidAudit(a: OperatorAudit) {
    && RequiredText(a.reason, 1024)
    && a.reasonDigest == Sha256(a.reason)
    && a.actorPid != 0
    && a.postRevision == SaturatingNext(a.preRevision)
    && a.observedAt >= 0
  }

  predicate ValidResolution(r: RunResolution) {
    && r.resolvedAt >= 0
    && match r.kind
       case ProviderCompleted => r.audit.None?
       case OperatorCompleted => r.audit.Some? && ValidAudit(r.audit.value)
  }

  predicate ValidEvent(e: EventReference) {
    && RequiredText(e.eventRef, IDENTIFIER_MAX_BYTES)
    && RequiredText(e.ingress, IDENTIFIER_MAX_BYTES)
    && e.count != 0
    && 0 <= e.firstObservedAt <= e.lastObservedAt
  }

  predicate ValidEvidence(c: Codec, e: Evidence) {
    && |e.events| <= RUN_EVENT_REFERENCE_MAX_COUNT
    && (forall i :: 0 <= i < |e.events| ==> ValidEvent(e.events[i]))
    && e.firstObservedAt.Some? == e.lastObservedAt.Some?
    && (e.firstObservedAt.Some? ==> 0 <= e.firstObservedAt.value <= e.lastObservedAt.value)
    && c.evidenceSize(e) <= RUN_EVIDENCE_MAX_BYTES
  }

  predicate ValidArtifact(a: Artifact) {
    && ValidProcess(a.process)
    && RequiredText(a.source, IDENTIFIER_MAX_BYTES)
    && a.observedAt >= 0
    && match a.stored
       case Complete =>
         && a.fileName == Some(a.runId)
         && a.storedBytes <= RESPONSE_ARTIFACT_BODY_MAX_BYTES
         && a.storedBytes == a.originalBytes
         && a.storedDigest == Some(a.originalDigest)
       case Truncated =>
         && a.fileName == Some(a.runId)
         && a.storedBytes <= RESPONSE_ARTIFACT_BODY_MAX_BYTES
         && a.storedBytes < a.originalBytes
         && a.storedDigest.Some?
       case Unavailable =>
         && a.fileName.None?
         && (if a.storedDigest.None? then a.storedBytes == 0
             else a.storedBytes <= RESPONSE_ARTIFACT_BODY_MAX_BYTES && a.storedBytes <= a.originalBytes)
       case Expired => a.fileName.None?
  }

  predicate ValidRun(c: Codec, r: RunRecord) {
    && ValidAgentBinding(r.binding)
    && r.runSeq != 0
    && 0 <= r.createdAt <= r.updatedAt
    && (r.turnKey.Some? ==> RequiredText(r.turnKey.value, IDENTIFIER_MAX_BYTES))
    && ValidEvidence(c, r.evidence)
    && (match r.resolution
        case None => r.outcome == Unresolved
        case Some(resolution) => r.phase == Ended && r.outcome == Completed && ValidResolution(resolution))
    && (r.artifact.Some? ==>
          && ValidArtifact(r.artifact.value)
          && r.artifact.value.runId == r.runId
          && r.artifact.value.operationId == r.operationId
          && r.outcome == Completed)
  }

  // ---------------------------------------------------------------- operations

  datatype DispatchState = Prepared | DispatchStarted | PromptConfirmed | DeliveryUnknown | Rejected

  datatype ReceiptCode = OperatorAbandoned | OtherCode(text: Text)
  datatype ConfirmationBasis = BindingSequenceDigest | GuardedWindowDigest
  datatype Attribution = Operator(reason: Text) | NonExclusive

  datatype Receipt = Receipt(
    code: ReceiptCode,
    observedAt: int,
    basis: Option<ConfirmationBasis>,
    attribution: Option<Attribution>)

  predicate ValidReceipt(r: Receipt) {
    && (r.code.OtherCode? ==> RequiredText(r.code.text, IDENTIFIER_MAX_BYTES))
    && r.observedAt >= 0
    && (r.attribution.Some? && r.attribution.value.Operator? ==>
          RequiredText(Ascii("operator:") + r.attribution.value.reason, IDENTIFIER_MAX_BYTES))
  }

  datatype OperationRecord = OperationRecord(
    generation: Generation,
    operationId: OperationId,
    revision: nat,
    fingerprint: Digest,
    targetRef: Text,
    promptDigest: Digest,
    dispatchOption: Text,
    binding: OperationBinding,
    paneVersion: StateVersion,
    expectedRun: Option<RunProjection>,
    expectedRunSeq: nat,
    deadlineAt: int,
    state: DispatchState,
    runId: Option<RunId>,
    receipt: Option<Receipt>,
    createdAt: int,
    updatedAt: int)
  {
    predicate Abandoned() {
      state == DeliveryUnknown && receipt.Some? && receipt.value.code == OperatorAbandoned
    }

    predicate Fenced() {
      (state == Prepared || state == DispatchStarted || state == DeliveryUnknown) && !Abandoned()
    }

    predicate InFlight() {
      state == Prepared || state == DispatchStarted
    }

    predicate StagingRequired() {
      state == Prepared || state == DispatchStarted
    }

    /** A run may still be credited with this dispatch. */
    predicate Confirmable() {
      (state == DispatchStarted || state == DeliveryUnknown) && !Abandoned()
    }
  }

  predicate ValidProjection(p: RunProjection) {
    p.runSeq != 0 && p.runRevision != 0
  }

  predicate ValidOperation(o: OperationRecord) {
    && ValidOperationBinding(o.binding)
    && o.paneVersion.stateId == o.binding.paneStateId
    && o.paneVersion.agentEpoch == o.binding.agentEpoch
    && (o.expectedRun.Some? ==> ValidProjection(o.expectedRun.value))
    && RequiredText(o.targetRef, IDENTIFIER_MAX_BYTES)
    && RequiredText(o.dispatchOption, IDENTIFIER_MAX_BYTES)
    && o.expectedRunSeq != 0
    && 0 <= o.createdAt <= o.updatedAt
    && o.createdAt <= o.deadlineAt
    && (match o.state
        case Prepared => o.runId.None? && o.receipt.None?
        case DispatchStarted => o.runId.None? && o.receipt.None?
        case PromptConfirmed => o.runId.Some? && o.receipt.Some? && ValidReceipt(o.receipt.value)
        case DeliveryUnknown => o.receipt.Some? && ValidReceipt(o.receipt.value)
        case Rejected => o.receipt.Some? && ValidReceipt(o.receipt.value))
    && (o.receipt.Some? && o.receipt.value.code == OperatorAbandoned ==>
          && o.Abandoned()
          && o.runId.None?
          && o.receipt.value.basis.None?
          && o.receipt.value.attribution.Some?
          && o.receipt.value.attribution.value.Operator?
          && !Blank(o.receipt.value.attribution.value.reason))
    && (o.binding.session.None? ==> o.binding.agentKind == CODEX && o.state != PromptConfirmed)
  }

  // ---------------------------------------------------------------- keys and matching

  /** The dispatch target: the hashed tuple excludes the session and the epoch. */
  datatype TargetKey = TargetKey(
    server: ServerIdentity,
    pane: PaneInstance,
    paneStateId: StateId,
    agentKind: AgentKind,
    process: ProcessIdentity)

  function TargetOf(b: OperationBinding): TargetKey {
    TargetKey(b.server, b.pane, b.paneStateId, b.agentKind, b.process)
  }

  datatype TurnKey = TurnKey(agentKind: AgentKind, session: SessionId, turn: Text)

  predicate BindingMatches(operation: OperationBinding, agent: AgentBinding) {
    && TargetOf(operation) == TargetOf(FromAgent(agent))
    && if operation.agentEpoch == agent.agentEpoch then
         operation.session.None? || operation.session.value == agent.session
       else
         operation.agentKind == CODEX && operation.agentEpoch + 1 == agent.agentEpoch
  }

  predicate SequenceMatches(operation: OperationRecord, agent: AgentBinding, runSeq: nat) {
    if operation.binding.agentEpoch == agent.agentEpoch then
      operation.expectedRunSeq == runSeq
    else
      && operation.binding.agentKind == CODEX
      && operation.binding.agentEpoch + 1 == agent.agentEpoch
      && runSeq == 1
  }

  // ---------------------------------------------------------------- provider observations

  datatype HookKind = SessionStart | UserPromptSubmit | Activity | WaitingHook | Stop

  /** `body` is None when the transported body does not decode. */
  datatype Response = Response(
    originalBytes: nat,
    originalDigest: Digest,
    storedBytes: nat,
    storedDigest: Digest,
    body: Option<Text>,
    truncated: bool,
    provider: ProviderCompleteness)

  /** `payload` is None when the observation's payload text is not a SHA-256 digest. */
  datatype Observation = Observation(
    ingress: Text,
    provider: AgentKind,
    session: SessionId,
    hook: HookKind,
    turnKey: Option<Text>,
    eventRef: Option<Text>,
    payload: Option<Digest>,
    promptDigest: Option<Digest>,
    response: Option<Response>,
    observedAt: int)
  {
    predicate CanStartRun() {
      hook == UserPromptSubmit
      || (provider == CODEX && turnKey.Some? && (hook == Activity || hook == WaitingHook))
    }

    /** The reference kept as evidence; only prompts and stops keep one. */
    function CorrectnessRef(): Option<Text> {
      if hook == UserPromptSubmit || hook == Stop then
        Some(if eventRef.Some? then eventRef.value else ingress)
      else
        None
    }
  }
}
