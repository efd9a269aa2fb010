/** Operator completion of src/agent_state/runtime.rs: a compare-and-set on one stored run. */
module Recovery {
  import opened Base
  import opened Records
  import opened Guards
  import opened Protocol
  import opened RunSteps

  const VIEWPORT_FINGERPRINT_CONVENTION_VERSION: nat := 1
  const PRECONDITION_SECONDS: nat := 60

  datatype RunRef = RunRef(server: Text, generation: Generation, runId: RunId)
  datatype PaneLifecycle = WaitingPane | OtherLifecycle(text: Text)
  datatype PaneFence = PaneFence(stateId: StateId, revision: nat, currentRun: RunProjection, lifecycle: PaneLifecycle, subagents: nat)
  datatype Viewport = Viewport(convention: nat, width: nat, height: nat, digest: Digest)
  datatype ProcessExpectation =
    | ExactAbsent
    | ReplacedBy(process: ProcessIdentity)
    | ExactPresentStable(process: ProcessIdentity)

  /** What an operator saw; the digest of the evidence is represented by the evidence itself. */
  datatype Precondition = Precondition(
    runRef: RunRef,
    binding: AgentBinding,
    runRevision: nat,
    evidence: Evidence,
    pane: PaneFence,
    viewport: Option<Viewport>,
    expectation: ProcessExpectation,
    issuedAt: int,
    expiresAt: int)

  predicate ValidPaneFence(p: PaneFence) {
    ValidProjection(p.currentRun) && p.revision != 0 && p.subagents == 0 && !p.lifecycle.WaitingPane?
  }

  predicate ValidPrecondition(p: Precondition) {
    && ValidAgentBinding(p.binding)
    && ValidPaneFence(p.pane)
    && (!p.expectation.ExactAbsent? ==> ValidProcess(p.expectation.process))
    && p.pane.stateId == p.binding.paneStateId
    && (p.expectation.ExactPresentStable? <==> p.viewport.Some?)
    && (p.viewport.Some? ==>
          && p.viewport.value.convention == VIEWPORT_FINGERPRINT_CONVENTION_VERSION
          && p.viewport.value.width != 0 && p.viewport.value.height != 0)
    && p.runRevision != 0
    && p.issuedAt >= 0
    && p.expiresAt == Min(p.issuedAt + PRECONDITION_SECONDS, I64_MAX)
  }

  /** The precondition describes exactly this stored value of the run. */
  predicate Describes(p: Precondition, server: Text, run: RunRecord) {
    && p.runRef == RunRef(server, run.generation, run.runId)
    && p.binding == run.binding
    && p.runRevision == run.revision
    && p.evidence == run.evidence
    && p.pane.currentRun == RunProjection(run.runId, run.runSeq, run.revision)
  }

  predicate ProcessAsExpected(p: Precondition, run: RunRecord, process: Option<ProcessIdentity>, viewport: Option<Viewport>) {
    match p.expectation
    case ExactAbsent => process.None? && viewport.None?
    case ReplacedBy(expected) => process == Some(expected) && viewport.None? && expected != run.binding.process
    case ExactPresentStable(expected) =>
      process == Some(expected) && expected == run.binding.process && viewport.Some? && viewport == p.viewport
  }

  /** The fresh observations agree with what the operator saw, and in time. */
  predicate StillHolds(p: Precondition, server: Text, run: RunRecord, at: int, pane: PaneFence, process: Option<ProcessIdentity>,
                       viewport: Option<Viewport>)
  {
    Describes(p, server, run) && p.issuedAt <= at <= p.expiresAt && pane == p.pane && ProcessAsExpected(p, run, process, viewport)
  }

  /**
   * The same, in the fields of what was seen and what is there: the very value of the run, the very pane, no
   * more than the precondition's lifetime later, and the process gone, replaced by the expected one, or unchanged
   * on an unchanged screen.
   */
  ghost predicate NothingChanged(p: Precondition, server: Text, run: RunRecord, at: int, pane: PaneFence, process: Option<ProcessIdentity>,
                                 viewport: Option<Viewport>)
  {
    && p.runRef.server == server && p.runRef.generation == run.generation && p.runRef.runId == run.runId
    && p.binding == run.binding && p.runRevision == run.revision && p.evidence == run.evidence
    && p.pane.currentRun.runId == run.runId && p.pane.currentRun.runSeq == run.runSeq && p.pane.currentRun.runRevision == run.revision
    && p.issuedAt <= at && at <= p.expiresAt
    && pane == p.pane
    && (p.expectation.ExactAbsent? ==> process == None && viewport == None)
    && (p.expectation.ReplacedBy? ==>
          process == Some(p.expectation.process) && p.expectation.process != run.binding.process && viewport == None)
    && (p.expectation.ExactPresentStable? ==>
          process == Some(p.expectation.process) && p.expectation.process == run.binding.process && viewport.Some? && viewport == p.viewport)
  }

  lemma StillHoldsIsUnchanged(p: Precondition, server: Text, run: RunRecord, at: int, pane: PaneFence, process: Option<ProcessIdentity>,
                              viewport: Option<Viewport>)
    ensures StillHolds(p, server, run, at, pane, process, viewport) <==> NothingChanged(p, server, run, at, pane, process, viewport)
  {
  }

  /** A precondition the program may act on: valid for a minute, on a pane that is busy with nothing else and waits for nobody. */
  ghost predicate ActsOn(p: Precondition) {
    && 0 <= p.issuedAt && p.expiresAt == (if p.issuedAt + 60 <= 0x7FFF_FFFF_FFFF_FFFF then p.issuedAt + 60 else 0x7FFF_FFFF_FFFF_FFFF)
    && p.runRevision > 0 && p.pane.revision > 0 && p.pane.subagents == 0 && p.pane.lifecycle != WaitingPane
    && p.pane.stateId == p.binding.paneStateId
    && (p.viewport.Some? <==> p.expectation.ExactPresentStable?)
    && (p.viewport.Some? ==> p.viewport.value.convention == 1 && p.viewport.value.width > 0 && p.viewport.value.height > 0)
  }

  lemma ValidActsOn(p: Precondition)
    requires ValidPrecondition(p)
    ensures ActsOn(p)
  {
    hide ValidAgentBinding, ValidProcess;
  }

  /** What an operator's decision makes of the run: completed, with the whole decision on record. */
  ghost predicate CompletedByOperator(run: RunRecord, next: RunRecord, w: OperatorDecision) {
    next == run.(phase := Ended, outcome := Completed, revision := run.revision + 1,
                 updatedAt := if run.updatedAt < w.at then w.at else run.updatedAt,
                 resolution := Some(RunResolution(w.id, ResolutionKind.OperatorCompleted, w.at,
                                                  Some(OperatorAudit(w.actorUid, w.actorPid, w.reason, Sha256(w.reason), run.revision, run.revision + 1, w.at)))))
  }

  lemma OperatorCompletesIs(run: RunRecord, w: OperatorDecision)
    requires OperatorCompletes(run, w).Some?
    ensures CompletedByOperator(run, OperatorCompletes(run, w).value, w)
  {
  }

  /** The same decision was already recorded. */
  predicate SameDecision(resolution: RunResolution, id: ResolutionId, reason: Text) {
    && resolution.resolutionId == id
    && resolution.kind == OperatorCompleted
    && resolution.audit.Some?
    && resolution.audit.value.reasonDigest == Sha256(reason)
  }

  /** `lookup_operator_completion` on a stored run: already done, open, or taken by another decision. */
  function LookupDecision(run: RunRecord, id: ResolutionId, reason: Text): Result<bool> {
    match run.resolution
    case None => Ok(false)
    case Some(resolution) =>
      if SameDecision(resolution, id, reason) then Ok(true)
      else if resolution.resolutionId == id then Err(ResolutionConflict)
      else Err(RunAlreadyResolved)
  }

  /** Between two points of any history a run's revision moves with every stored change, until it saturates. */
  lemma {:induction false} RevisionMoves(c: Codec, h: History, cut: History, id: RunId)
    requires BaseHistory(c, h) && CutOf(h, cut)
    requires id in Replay(cut).disk.runs && id in Replay(h).disk.runs
    ensures Replay(cut).disk.runs[id].revision <= Replay(h).disk.runs[id].revision
    ensures Replay(cut).disk.runs[id].revision == Replay(h).disk.runs[id].revision < U64_MAX ==>
              Replay(h).disk.runs[id] == Replay(cut).disk.runs[id]
  {
    hide BaseInv, BaseLawful, EvidenceReplacement, ArtifactReplacement, SameRunIdentity;
    if h != cut {
      BornBefore(c, h.past, cut, id);
      OneWriteToRun(c, Replay(h.past), h.write, id);
      RevisionMoves(c, h.past, cut, id);
    }
  }

  /**
   * Compare-and-set over whole histories: whatever was stored about the run after the
   * precondition was issued makes it stale, and a run that has been resolved, by the
   * provider or by an operator, keeps that one resolution for good.
   */
  lemma PreconditionGoesStale(c: Codec, h: History, cut: History, id: RunId, p: Precondition, server: Text)
    requires BaseHistory(c, h) && CutOf(h, cut)
    requires id in Replay(cut).disk.runs && id in Replay(h).disk.runs
    requires Describes(p, server, Replay(cut).disk.runs[id])
    ensures Describes(p, server, Replay(h).disk.runs[id]) && p.runRevision < U64_MAX ==>
              Replay(h).disk.runs[id] == Replay(cut).disk.runs[id]
    ensures p.runRevision == U64_MAX ==> forall w :: OperatorCompletes(Replay(h).disk.runs[id], w).None?
    ensures Replay(cut).disk.runs[id].resolution.Some? ==> Replay(h).disk.runs[id].resolution == Replay(cut).disk.runs[id].resolution
  {
    hide BaseHistory, BaseInv;
    RevisionMoves(c, h, cut, id);
    EndedStaysEnded(c, h, cut, id);
  }
}
