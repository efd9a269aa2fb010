/** What every record that is ever stored satisfies, and what it may replace, written out check by check (src/agent_state/model.rs, store.rs). */
module Validity {
  import opened Base
  import opened Records
  import opened Guards

  /** Not empty, not too long, and without the control characters of ASCII and Latin-1. */
  ghost predicate PlainText(t: Text, limit: nat) {
    && 1 <= |t| <= limit
    && forall i :: 0 <= i < |t| ==>
         && 0x20 <= t[i] != 0x7F
         && (t[i] == 0xC2 && i + 1 < |t| ==> t[i + 1] < 0x80 || 0x9F < t[i + 1])
  }

  ghost predicate HasInk(t: Text) {
    exists i :: 0 <= i < |t| && t[i] != 0x20 && (t[i] < 9 || 13 < t[i])
  }

  ghost predicate SoundPlace(server: ServerIdentity, pane: PaneInstance, epoch: nat, process: ProcessIdentity) {
    && server.pid > 0 && server.startTime >= 0
    && pane.panePid > 0 && |pane.paneId| >= 2 && pane.paneId[0] == 0x25 && (forall i :: 1 <= i < |pane.paneId| ==> 0x30 <= pane.paneId[i] <= 0x39)
    && epoch > 0
    && process.pid > 0 && HasInk(process.startToken) && |process.startToken| <= 256
    && (forall i :: 0 <= i < |process.startToken| ==> process.startToken[i] != 0x0A && process.startToken[i] != 0x0D)
  }

  ghost predicate SoundReference(e: EventReference) {
    PlainText(e.eventRef, 256) && PlainText(e.ingress, 256) && e.count >= 1 && 0 <= e.firstObservedAt <= e.lastObservedAt
  }

  ghost predicate SoundEvidence(c: Codec, e: Evidence) {
    && |e.events| <= 16 && (forall i :: 0 <= i < |e.events| ==> SoundReference(e.events[i]))
    && (e.firstObservedAt.Some? <==> e.lastObservedAt.Some?)
    && (e.firstObservedAt.Some? ==> 0 <= e.firstObservedAt.value <= e.lastObservedAt.value)
    && c.evidenceSize(e) <= 8192
  }

  /** Only an operator's decision carries an audit, and the audit is complete. */
  ghost predicate SoundResolution(r: RunResolution) {
    && r.resolvedAt >= 0
    && (r.kind == ProviderCompleted ==> r.audit == None)
    && (r.kind == ResolutionKind.OperatorCompleted ==>
          && r.audit.Some?
          && var a := r.audit.value;
             && PlainText(a.reason, 1024) && a.reasonDigest == Sha256(a.reason) && a.actorPid > 0 && a.observedAt >= 0
             && a.postRevision == if a.preRevision < 0xFFFF_FFFF_FFFF_FFFF then a.preRevision + 1 else a.preRevision)
  }

  /** A body is named exactly while it is stored, whole or cut short. */
  ghost predicate SoundArtifact(a: Artifact) {
    && a.process.pid > 0 && HasInk(a.process.startToken) && |a.process.startToken| <= 256
    && (forall i :: 0 <= i < |a.process.startToken| ==> a.process.startToken[i] != 0x0A && a.process.startToken[i] != 0x0D)
    && PlainText(a.source, 256) && a.observedAt >= 0
    && a.fileName == (if a.stored == Complete || a.stored == Truncated then Some(a.runId) else None)
    && (a.stored == Complete ==> a.storedBytes == a.originalBytes <= 524_288 && a.storedDigest == Some(a.originalDigest))
    && (a.stored == Truncated ==> a.storedBytes < a.originalBytes && a.storedBytes <= 524_288 && a.storedDigest.Some?)
    && (a.stored == Unavailable ==>
          if a.storedDigest == None then a.storedBytes == 0 else a.storedBytes <= 524_288 && a.storedBytes <= a.originalBytes)
  }

  /** Resolved exactly when completed, and then ended; only a completed run has an artifact, and it is its own. */
  ghost predicate SoundRun(c: Codec, r: RunRecord) {
    && SoundPlace(r.binding.server, r.binding.pane, r.binding.agentEpoch, r.binding.process)
    && r.runSeq >= 1 && 0 <= r.createdAt <= r.updatedAt
    && (r.turnKey.Some? ==> PlainText(r.turnKey.value, 256))
    && SoundEvidence(c, r.evidence)
    && (r.resolution.None? ==> r.outcome == Unresolved)
    && (r.resolution.Some? ==> r.outcome == Completed && r.phase == Ended && SoundResolution(r.resolution.value))
    && (r.artifact.Some? ==>
          r.outcome == Completed && r.artifact.value.runId == r.runId && r.artifact.value.operationId == r.operationId && SoundArtifact(r.artifact.value))
  }

  ghost predicate SoundReceipt(r: Receipt) {
    && (r.code != OperatorAbandoned ==> PlainText(r.code.text, 256))
    && r.observedAt >= 0
    && (forall reason :: r.attribution == Some(Operator(reason)) ==> PlainText(Ascii("operator:") + reason, 256))
  }

  /** State, run and receipt go together; an abandonment is an operator's, with a reason; only Codex may have no session yet, and not once confirmed. */
  ghost predicate SoundOperation(o: OperationRecord) {
    && SoundPlace(o.binding.server, o.binding.pane, o.binding.agentEpoch, o.binding.process)
    && o.paneVersion.stateId == o.binding.paneStateId && o.paneVersion.agentEpoch == o.binding.agentEpoch
    && (o.expectedRun.Some? ==> o.expectedRun.value.runSeq >= 1 && o.expectedRun.value.runRevision >= 1)
    && PlainText(o.targetRef, 256) && PlainText(o.dispatchOption, 256)
    && o.expectedRunSeq >= 1 && 0 <= o.createdAt <= o.updatedAt && o.createdAt <= o.deadlineAt
    && (o.state == Prepared || o.state == DispatchStarted ==> o.runId == None && o.receipt == None)
    && (o.state == PromptConfirmed ==> o.runId.Some?)
    && (o.state == PromptConfirmed || o.state == DeliveryUnknown || o.state == Rejected ==> o.receipt.Some? && SoundReceipt(o.receipt.value))
    && (o.receipt.Some? && o.receipt.value.code == OperatorAbandoned ==>
          && o.state == DeliveryUnknown && o.runId == None && o.receipt.value.basis == None
          && exists reason :: o.receipt.value.attribution == Some(Operator(reason)) && HasInk(reason))
    && (o.binding.session == None ==> o.binding.agentKind == Ascii("codex") && o.state != PromptConfirmed)
  }

  /** Counters and references only grow; references keep their place, and only their deliveries are counted up. */
  ghost predicate MayReplaceEvidence(was: Evidence, next: Evidence) {
    && was.activityCount <= next.activityCount && was.permissionCount <= next.permissionCount && was.userInputCount <= next.userInputCount
    && was.processAbsenceCount <= next.processAbsenceCount && was.terminalStillCount <= next.terminalStillCount
    && |was.events| <= |next.events|
    && forall i :: 0 <= i < |was.events| ==>
         && next.events[i] == was.events[i].(count := next.events[i].count, lastObservedAt := next.events[i].lastObservedAt)
         && was.events[i].count <= next.events[i].count && was.events[i].lastObservedAt <= next.events[i].lastObservedAt
  }

  /** An artifact stays, of the same response; a missing body may arrive, and any body may expire. */
  ghost predicate MayReplaceArtifact(was: Artifact, next: Artifact) {
    && was.originalDigest == next.originalDigest && was.originalBytes == next.originalBytes
    && was.runId == next.runId && was.operationId == next.operationId
    && (next.stored == was.stored || next.stored == Expired || (was.stored == Unavailable && next.stored != Unavailable))
  }

  /** A run keeps what it is, its resolution and its completion. */
  ghost predicate MayReplaceRun(was: RunRecord, next: RunRecord) {
    && was.generation == next.generation && was.runId == next.runId && was.runSeq == next.runSeq && was.binding == next.binding
    && was.turnKey == next.turnKey && was.operationId == next.operationId && was.createdAt == next.createdAt
    && next.revision == (if was.revision < 0xFFFF_FFFF_FFFF_FFFF then was.revision + 1 else was.revision)
    && was.updatedAt <= next.updatedAt
    && (was.outcome == Completed ==> next.outcome == Completed)
    && (was.resolution.Some? ==> next.resolution == was.resolution)
    && MayReplaceEvidence(was.evidence, next.evidence)
    && (was.artifact.Some? ==> next.artifact.Some? && MayReplaceArtifact(was.artifact.value, next.artifact.value))
  }

  ghost predicate IsAbandoned(o: OperationRecord) {
    o.state == DeliveryUnknown && o.receipt.Some? && o.receipt.value.code == OperatorAbandoned
  }

  /** The agent an operation was dispatched to may only be told apart better, by the confirmation: its session, or the next epoch of Codex. */
  ghost predicate MayRebind(was: OperationRecord, next: OperationRecord) {
    && next.state == PromptConfirmed && (was.state == DispatchStarted || was.state == DeliveryUnknown)
    && next.binding.session.Some?
    && was.binding.server == next.binding.server && was.binding.pane == next.binding.pane && was.binding.paneStateId == next.binding.paneStateId
    && was.binding.agentKind == next.binding.agentKind && was.binding.process == next.binding.process
    && (|| (was.binding.session.None? && was.binding.agentEpoch == next.binding.agentEpoch)
        || (was.binding.agentKind == Ascii("codex") && was.binding.agentEpoch + 1 == next.binding.agentEpoch))
    && next.paneVersion == was.paneVersion.(agentEpoch := next.binding.agentEpoch)
  }

  /** Prepared is sent or rejected; sent is confirmed, unknown or rejected; unknown is confirmed or abandoned; nothing follows. */
  ghost predicate MayFollow(was: OperationRecord, next: OperationRecord) {
    || (was.state == Prepared && next.state == DispatchStarted)
    || (was.state == Prepared && next.state == Rejected)
    || (was.state == DispatchStarted && next.state == PromptConfirmed)
    || (was.state == DispatchStarted && next.state == DeliveryUnknown)
    || (was.state == DispatchStarted && next.state == Rejected)
    || (was.state == DeliveryUnknown && !IsAbandoned(was) && next.state == PromptConfirmed)
    || (was.state == DeliveryUnknown && !IsAbandoned(was) && IsAbandoned(next))
  }

  ghost predicate MayReplaceOperation(was: OperationRecord, next: OperationRecord) {
    && was.generation == next.generation && was.operationId == next.operationId && was.fingerprint == next.fingerprint
    && was.targetRef == next.targetRef && was.promptDigest == next.promptDigest && was.dispatchOption == next.dispatchOption
    && was.expectedRun == next.expectedRun && was.expectedRunSeq == next.expectedRunSeq
    && was.deadlineAt == next.deadlineAt && was.createdAt == next.createdAt
    && next.revision == (if was.revision < 0xFFFF_FFFF_FFFF_FFFF then was.revision + 1 else was.revision)
    && was.updatedAt <= next.updatedAt
    && MayFollow(was, next)
    && (was.binding != next.binding || was.paneVersion != next.paneVersion ==> MayRebind(was, next))
    && (was.runId.Some? ==> next.runId == was.runId)
    && (was.receipt.Some? && next.receipt != was.receipt ==> was.state == DeliveryUnknown && (next.state == PromptConfirmed || IsAbandoned(next)))
  }

  // ---------------------------------------------------------------- the checks of the model are these

  lemma TextIsPlain(t: Text, limit: nat)
    ensures RequiredText(t, limit) <==> PlainText(t, limit)
  {
    forall i | 0 <= i < |t|
      ensures ControlAt(t, i) <==> !(0x20 <= t[i] != 0x7F && (t[i] == 0xC2 && i + 1 < |t| ==> t[i + 1] < 0x80 || 0x9F < t[i + 1]))
    {
    }
    if RequiredText(t, limit) {
      forall i | 0 <= i < |t|
        ensures 0x20 <= t[i] != 0x7F && (t[i] == 0xC2 && i + 1 < |t| ==> t[i + 1] < 0x80 || 0x9F < t[i + 1])
      {
        assert !ControlAt(t, i);
      }
    }
  }

  lemma InkIsNotBlank(t: Text)
    ensures HasInk(t) <==> !Blank(t)
  {
  }

  lemma PlaceIsSound(server: ServerIdentity, pane: PaneInstance, epoch: nat, process: ProcessIdentity)
    ensures ValidServer(server) && ValidPane(pane) && epoch != 0 && ValidProcess(process) <==> SoundPlace(server, pane, epoch, process)
  {
    hide Blank, HasInk;
    InkIsNotBlank(process.startToken);
  }

  lemma EvidenceIsSound(c: Codec, e: Evidence)
    ensures ValidEvidence(c, e) <==> SoundEvidence(c, e)
  {
    hide RequiredText, PlainText;
    forall i | 0 <= i < |e.events|
      ensures ValidEvent(e.events[i]) <==> SoundReference(e.events[i])
    {
      TextIsPlain(e.events[i].eventRef, 256);
      TextIsPlain(e.events[i].ingress, 256);
    }
  }

  lemma ResolutionIsSound(r: RunResolution)
    ensures ValidResolution(r) <==> SoundResolution(r)
  {
    hide RequiredText, PlainText;
    if r.audit.Some? {
      TextIsPlain(r.audit.value.reason, 1024);
    }
  }

  lemma ArtifactIsSound(a: Artifact)
    ensures ValidArtifact(a) <==> SoundArtifact(a)
  {
    hide RequiredText, PlainText, Blank, HasInk;
    TextIsPlain(a.source, 256);
    InkIsNotBlank(a.process.startToken);
  }

  lemma ValidRunIsSound(c: Codec, r: RunRecord)
    ensures ValidRun(c, r) <==> SoundRun(c, r)
  {
    hide RequiredText, PlainText, ValidEvidence, SoundEvidence, ValidResolution, SoundResolution, ValidArtifact, SoundArtifact, ValidServer, ValidPane,
         ValidProcess, SoundPlace;
    PlaceIsSound(r.binding.server, r.binding.pane, r.binding.agentEpoch, r.binding.process);
    EvidenceIsSound(c, r.evidence);
    if r.turnKey.Some? {
      TextIsPlain(r.turnKey.value, 256);
    }
    if r.resolution.Some? {
      ResolutionIsSound(r.resolution.value);
    }
    if r.artifact.Some? {
      ArtifactIsSound(r.artifact.value);
    }
  }

  lemma ReceiptIsSound(r: Receipt)
    ensures ValidReceipt(r) <==> SoundReceipt(r)
  {
    hide RequiredText, PlainText;
    if r.code.OtherCode? {
      TextIsPlain(r.code.text, 256);
    }
    if r.attribution.Some? && r.attribution.value.Operator? {
      TextIsPlain(Ascii("operator:") + r.attribution.value.reason, 256);
    }
  }

  lemma ValidOperationIsSound(o: OperationRecord)
    ensures ValidOperation(o) <==> SoundOperation(o)
  {
    hide RequiredText, PlainText, Blank, HasInk, ValidServer, ValidPane, ValidProcess, SoundPlace, ValidReceipt, SoundReceipt;
    PlaceIsSound(o.binding.server, o.binding.pane, o.binding.agentEpoch, o.binding.process);
    TextIsPlain(o.targetRef, 256);
    TextIsPlain(o.dispatchOption, 256);
    if o.receipt.Some? {
      ReceiptIsSound(o.receipt.value);
      if o.receipt.value.attribution.Some? && o.receipt.value.attribution.value.Operator? {
        InkIsNotBlank(o.receipt.value.attribution.value.reason);
      }
    }
  }

  lemma EvidenceMayBeReplaced(was: Evidence, next: Evidence)
    ensures EvidenceReplacement(was, next) <==> MayReplaceEvidence(was, next)
  {
    forall i | 0 <= i < |was.events| && i < |next.events|
      ensures SameEventIdentity(was.events[i], next.events[i]) <==>
                && next.events[i] == was.events[i].(count := next.events[i].count, lastObservedAt := next.events[i].lastObservedAt)
                && was.events[i].count <= next.events[i].count && was.events[i].lastObservedAt <= next.events[i].lastObservedAt
    {
    }
  }

  lemma RunMayBeReplaced(was: RunRecord, next: RunRecord)
    ensures RunReplacement(was, next) <==> MayReplaceRun(was, next)
  {
    hide EvidenceReplacement, MayReplaceEvidence;
    EvidenceMayBeReplaced(was.evidence, next.evidence);
  }

  lemma OperationMayBeReplaced(was: OperationRecord, next: OperationRecord)
    ensures OperationReplacement(was, next) <==> MayReplaceOperation(was, next)
  {
  }
}
