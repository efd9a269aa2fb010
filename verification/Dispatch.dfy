/** The changes src/agent_state/runtime.rs makes to one operation record. */
module Dispatch {
  import opened Base
  import opened Records
  import opened Guards
  import opened Framing
  import opened Protocol

  const PROMPT_CONFIRMATION_TIMEOUT_SECONDS: nat := 10
  const CAPACITY_ORIGIN: Text := Ascii("capacity_auto_resume")
  const PROMPT_CONFIRMED: ReceiptCode := OtherCode(Ascii("prompt_confirmed"))
  const PREPARED_TIMEOUT: ReceiptCode := OtherCode(Ascii("prepared_dispatch_timeout"))
  const CONFIRMATION_TIMEOUT: ReceiptCode := OtherCode(Ascii("prompt_confirmation_timeout"))
  const PREPARED_TIMEOUT_AFTER_RESTART: ReceiptCode := OtherCode(Ascii("prepared_dispatch_timeout_after_restart"))
  const RESTARTED_DURING_DISPATCH: ReceiptCode := OtherCode(Ascii("daemon_restarted_during_dispatch"))

  datatype PrepareResult = Existing(operation: OperationRecord) | Created(operation: OperationRecord)

  /** The record `prepare_operation` writes first. */
  function NewOperation(g: Generation, id: OperationId, targetRef: Text, promptDigest: Digest, option: Text,
                        binding: OperationBinding, paneVersion: StateVersion, expectedRun: Option<RunProjection>,
                        expectedRunSeq: nat, at: int): OperationRecord
  {
    OperationRecord(g, id, 1, RequestFingerprint(targetRef, promptDigest, option), targetRef, promptDigest, option, binding,
                    paneVersion, expectedRun, expectedRunSeq, at + PROMPT_CONFIRMATION_TIMEOUT_SECONDS, Prepared, None, None, at, at)
  }

  /** The next value of an operation, in this state and with this receipt, and nothing else changed. */
  ghost predicate NextValue(o: OperationRecord, next: OperationRecord, state: DispatchState, receipt: Option<Receipt>, at: int) {
    next == o.(state := state, receipt := receipt, revision := o.revision + 1, updatedAt := if o.updatedAt < at then at else o.updatedAt)
  }

  /** A settlement with this code, and nothing known of the confirmation. */
  ghost predicate SettledAs(o: OperationRecord, next: OperationRecord, state: DispatchState, code: string, at: int) {
    NextValue(o, next, state, Some(Receipt(OtherCode(Ascii(code)), at, None, None)), at)
  }

  /** The next value of an operation that this run confirms: it takes over the run's binding, and its receipt tells whether the run met the deadline. */
  ghost predicate ConfirmedAs(o: OperationRecord, next: OperationRecord, run: RunRecord, at: int) {
    var b := run.binding;
    var bound := OperationBinding(b.server, b.pane, b.paneStateId, b.agentEpoch, b.agentKind, Some(b.session), b.process);
    && next.state == PromptConfirmed
    && next.runId == Some(run.runId)
    && next.binding == bound
    && next.paneVersion == (if o.binding == bound then o.paneVersion else StateVersion(b.paneStateId, b.agentEpoch, o.paneVersion.revision))
    && next.receipt == Some(Receipt(OtherCode(Ascii("prompt_confirmed")), at,
                                    Some(if run.createdAt <= o.deadlineAt then GuardedWindowDigest else BindingSequenceDigest), Some(NonExclusive)))
    && next.revision == o.revision + 1
    && next.updatedAt == (if o.updatedAt < at then at else o.updatedAt)
    && SameRequest(o, next)
  }

  /** What a request is first stored as: prepared, with ten seconds to be confirmed. */
  ghost predicate RequestedAs(o: OperationRecord, g: Generation, id: OperationId, targetRef: Text, prompt: Text, option: Text, binding: OperationBinding,
                              paneVersion: StateVersion, expectedRun: Option<RunProjection>, expectedRunSeq: nat, at: int) {
    && o.generation == g && o.operationId == id && o.revision == 1 && o.state == Prepared
    && o.targetRef == targetRef && o.dispatchOption == option && o.promptDigest == PromptDigest(prompt)
    && o.fingerprint == RequestFingerprint(targetRef, PromptDigest(prompt), option)
    && o.binding == binding && o.paneVersion == paneVersion && o.expectedRun == expectedRun && o.expectedRunSeq == expectedRunSeq
    && o.deadlineAt == at + 10 && o.createdAt == at && o.updatedAt == at
    && o.runId == None && o.receipt == None
  }

  /** In flight, and its time is up. */
  ghost predicate Due(o: OperationRecord, at: int) {
    (o.state == Prepared || o.state == DispatchStarted) && o.deadlineAt <= at
  }

  /** What becomes of an operation whose time is up: never sent, or sent with an unknown outcome. */
  ghost predicate ExpiredAs(o: OperationRecord, next: OperationRecord, at: int) {
    if o.state == Prepared then SettledAs(o, next, Rejected, "prepared_dispatch_timeout", at)
    else SettledAs(o, next, DeliveryUnknown, "prompt_confirmation_timeout", at)
  }

  lemma TimedOutIsAs(o: OperationRecord, at: int)
    ensures Overdue(o, at) <==> Due(o, at)
    ensures Overdue(o, at) && TimedOut(o, at).Some? ==> ExpiredAs(o, TimedOut(o, at).value, at)
  {
  }

  /** A reason an operator may give: not blank, at most 247 bytes, without control characters. */
  ghost predicate GoodReason(reason: Text) {
    && 1 <= |reason| <= 247
    && (exists i :: 0 <= i < |reason| && reason[i] != 0x20 && (reason[i] < 9 || 13 < reason[i]))
    && forall i :: 0 <= i < |reason| ==> !ControlAt(reason, i)
  }

  lemma ReasonsAreGood(reason: Text, at: int)
    ensures AbandonReceipt(reason, at).Some? <==> GoodReason(reason) && at >= 0
  {
    var whole := Ascii("operator:") + reason;
    PrintableIsText("operator:", IDENTIFIER_MAX_BYTES);
    if GoodReason(reason) {
      forall i | 0 <= i < |whole|
        ensures !ControlAt(whole, i)
      {
        if i < 9 {
          assert whole[i] == Ascii("operator:")[i] && !ControlAt(Ascii("operator:"), i);
          assert 0x20 <= whole[i] < 0x7F;
        } else {
          assert whole[i] == reason[i - 9] && !ControlAt(reason, i - 9);
          assert i + 1 < |whole| ==> whole[i + 1] == reason[i - 8];
        }
      }
    }
  }

  /** An operator's decision that an unknown delivery will never be confirmed. */
  ghost predicate AbandonedAs(o: OperationRecord, next: OperationRecord, reason: Text, at: int) {
    && o.state == DeliveryUnknown && (o.receipt.None? || o.receipt.value.code != OperatorAbandoned) && o.runId == None
    && NextValue(o, next, DeliveryUnknown, Some(Receipt(OperatorAbandoned, at, None, Some(Operator(reason)))), at)
  }

  lemma ConfirmedByIsAs(o: OperationRecord, run: RunRecord, at: int)
    requires ConfirmedBy(o, run, at).Some?
    ensures ConfirmedAs(o, ConfirmedBy(o, run, at).value, run, at)
  {
    hide BindingMatches, SequenceMatches;
  }

  function AdvanceRevision(o: OperationRecord, at: int): Option<OperationRecord> {
    if o.revision >= U64_MAX then None else Some(o.(revision := o.revision + 1, updatedAt := Max(o.updatedAt, at)))
  }

  function Started(o: OperationRecord, at: int): Option<OperationRecord> {
    AdvanceRevision(o.(state := DispatchStarted), at)
  }

  predicate MaySettle(from: DispatchState, to: DispatchState) {
    (from == Prepared && to == Rejected) || (from == DispatchStarted && (to == DeliveryUnknown || to == Rejected))
  }

  function SettledTo(o: OperationRecord, state: DispatchState, code: ReceiptCode, at: int): Option<OperationRecord> {
    AdvanceRevision(o.(state := state, receipt := Some(Receipt(code, at, None, None))), at)
  }

  /** No settlement code passes for an operator's decision. */
  lemma SettledIsNotAbandoned(o: OperationRecord, state: DispatchState, code: ReceiptCode, at: int)
    requires SettledTo(o, state, code, at).Some? && ValidOperation(SettledTo(o, state, code, at).value)
    ensures !SettledTo(o, state, code, at).value.Abandoned()
  {
  }

  /** Marking a prepared operation always passes the guard. */
  lemma StartIsAccepted(g: Generation, o: OperationRecord, at: int)
    requires OperationOk(g, o.operationId, o) && o.state == Prepared
    ensures Started(o, at).Some?
    ensures ValidOperation(Started(o, at).value) && OperationReplacement(o, Started(o, at).value)
  {
    hide RequiredText, ValidOperationBinding, Fingerprinted;
  }

  predicate SoundCode(code: ReceiptCode, at: int) {
    code.OtherCode? && RequiredText(code.text, IDENTIFIER_MAX_BYTES) && at >= 0
  }

  /** A permitted settlement with a printable code always passes the guard. */
  lemma SettlementIsAccepted(g: Generation, o: OperationRecord, state: DispatchState, code: ReceiptCode, at: int)
    requires OperationOk(g, o.operationId, o) && MaySettle(o.state, state) && SoundCode(code, at)
    ensures SettledTo(o, state, code, at).Some?
    ensures var o' := SettledTo(o, state, code, at).value;
      ValidOperation(o') && OperationReplacement(o, o')
  {
  }

  lemma SettledShape(o: OperationRecord, state: DispatchState, code: ReceiptCode, at: int)
    requires SettledTo(o, state, code, at).Some? && (state == DeliveryUnknown || state == Rejected) && o.state != state
    ensures var next := SettledTo(o, state, code, at).value;
      && NextValue(o, next, state, Some(Receipt(code, at, None, None)), at)
      && next != o && next.state == state && next.operationId == o.operationId && next.runId == o.runId && !next.StagingRequired()
  {
  }

  lemma SettledKeepsId(o: OperationRecord, state: DispatchState, code: ReceiptCode, at: int)
    requires SettledTo(o, state, code, at).Some?
    ensures SettledTo(o, state, code, at).value.operationId == o.operationId
  {
  }

  predicate Overdue(o: OperationRecord, at: int) {
    o.InFlight() && o.deadlineAt <= at
  }

  function TimeoutState(o: OperationRecord): DispatchState {
    if o.state == Prepared then Rejected else DeliveryUnknown
  }

  function TimeoutCode(o: OperationRecord): ReceiptCode {
    if o.state == Prepared then PREPARED_TIMEOUT else CONFIRMATION_TIMEOUT
  }

  /** What an expired operation becomes: never sent, or sent with an unknown outcome. */
  function TimedOut(o: OperationRecord, at: int): Option<OperationRecord> {
    SettledTo(o, TimeoutState(o), TimeoutCode(o), at)
  }

  function OverdueIds(operations: Operations, at: int): set<OperationId> {
    set id | id in operations && Overdue(operations[id], at)
  }

  lemma TimeoutIsSound(o: OperationRecord, at: int)
    requires ValidOperation(o) && Overdue(o, at)
    ensures MaySettle(o.state, TimeoutState(o)) && SoundCode(TimeoutCode(o), at)
    ensures TimedOut(o, at).Some? ==> !Overdue(TimedOut(o, at).value, at)
  {
    CodesAreTexts();
  }

  function AbandonReceipt(reason: Text, at: int): Option<Receipt> {
    var receipt := Receipt(OperatorAbandoned, at, None, Some(Operator(reason)));
    if Blank(reason) || !RequiredText(reason, IDENTIFIER_MAX_BYTES - 9) || !ValidReceipt(receipt) then None
    else Some(receipt)
  }

  function AbandonedWith(o: OperationRecord, receipt: Receipt, at: int): Option<OperationRecord> {
    AdvanceRevision(o.(receipt := Some(receipt)), at)
  }

  /** Abandoning an unsettled, unlinked operation always passes the guard. */
  lemma AbandonmentIsAccepted(g: Generation, o: OperationRecord, reason: Text, at: int)
    requires OperationOk(g, o.operationId, o) && o.state == DeliveryUnknown && !o.Abandoned() && o.runId.None?
    requires AbandonReceipt(reason, at).Some?
    ensures AbandonedWith(o, AbandonReceipt(reason, at).value, at).Some?
    ensures var o' := AbandonedWith(o, AbandonReceipt(reason, at).value, at).value;
      ValidOperation(o') && OperationReplacement(o, o') && o'.Abandoned()
  {
    hide RequiredText, Blank, ValidOperationBinding, Fingerprinted;
  }

  /** `confirm_linked_operation` on the record: None when it refuses with a conflict or overflows. */
  function ConfirmedBy(o: OperationRecord, run: RunRecord, at: int): Option<OperationRecord> {
    var bound := FromAgent(run.binding);
    if !o.Confirmable() then None
    else if o.binding != bound
            && (!BindingMatches(o.binding, run.binding) || !SequenceMatches(o, run.binding, run.runSeq)) then None
    else
      var rebound := if o.binding == bound then o
                     else o.(binding := bound,
                             paneVersion := StateVersion(run.binding.paneStateId, run.binding.agentEpoch, o.paneVersion.revision));
      var basis := BasisOf(run.createdAt, o.deadlineAt);
      AdvanceRevision(rebound.(state := PromptConfirmed,
                               runId := Some(run.runId),
                               receipt := Some(Receipt(PROMPT_CONFIRMED, at, Some(basis), Some(NonExclusive)))), at)
  }

  lemma PromptConfirmedIsText()
    ensures RequiredText(PROMPT_CONFIRMED.text, IDENTIFIER_MAX_BYTES)
  {
    hide RequiredText;
    PrintableIsText("prompt_confirmed", IDENTIFIER_MAX_BYTES);
  }

  lemma PreparedTimeoutIsText()
    ensures RequiredText(PREPARED_TIMEOUT.text, IDENTIFIER_MAX_BYTES)
  {
    hide RequiredText;
    PrintableIsText("prepared_dispatch_timeout", IDENTIFIER_MAX_BYTES);
  }

  lemma ConfirmationTimeoutIsText()
    ensures RequiredText(CONFIRMATION_TIMEOUT.text, IDENTIFIER_MAX_BYTES)
  {
    hide RequiredText;
    PrintableIsText("prompt_confirmation_timeout", IDENTIFIER_MAX_BYTES);
  }

  lemma RestartTimeoutIsText()
    ensures RequiredText(PREPARED_TIMEOUT_AFTER_RESTART.text, IDENTIFIER_MAX_BYTES)
  {
    hide RequiredText;
    PrintableIsText("prepared_dispatch_timeout_after_restart", IDENTIFIER_MAX_BYTES);
  }

  lemma RestartedIsText()
    ensures RequiredText(RESTARTED_DURING_DISPATCH.text, IDENTIFIER_MAX_BYTES)
  {
    hide RequiredText;
    PrintableIsText("daemon_restarted_during_dispatch", IDENTIFIER_MAX_BYTES);
  }

  lemma CodesAreTexts()
    ensures RequiredText(PROMPT_CONFIRMED.text, IDENTIFIER_MAX_BYTES)
    ensures RequiredText(PREPARED_TIMEOUT.text, IDENTIFIER_MAX_BYTES)
    ensures RequiredText(CONFIRMATION_TIMEOUT.text, IDENTIFIER_MAX_BYTES)
    ensures RequiredText(PREPARED_TIMEOUT_AFTER_RESTART.text, IDENTIFIER_MAX_BYTES)
    ensures RequiredText(RESTARTED_DURING_DISPATCH.text, IDENTIFIER_MAX_BYTES)
  {
    hide *;
    PromptConfirmedIsText();
    PreparedTimeoutIsText();
    ConfirmationTimeoutIsText();
    RestartTimeoutIsText();
    RestartedIsText();
  }

  /** Whatever the runtime's own check lets through, the store's guard accepts, and the dispatch target is unchanged. */
  lemma ConfirmationPassesGuard(c: Codec, g: Generation, o: OperationRecord, run: RunRecord, at: int)
    requires OperationOk(g, o.operationId, o) && ValidRun(c, run) && at >= 0 && ConfirmedBy(o, run, at).Some?
    ensures var o' := ConfirmedBy(o, run, at).value;
      && ValidOperation(o')
      && OperationReplacement(o, o')
      && SameRequest(o, o')
      && o'.state == PromptConfirmed
      && o'.runId == Some(run.runId)
      && o'.binding == FromAgent(run.binding)
      && ReceiptTells(o', run.createdAt)
      && TargetOf(o'.binding) == TargetOf(o.binding)
  {
    hide RequiredText, ValidEvidence, ValidArtifact, ValidResolution, Fingerprinted;
    CodesAreTexts();
    var o' := ConfirmedBy(o, run, at).value;
    assert ValidOperation(o');
  }

  /**
   * Confirmation never gets stuck: once a run was credited to an operation, confirming
   * passes the runtime's own check and the store's guard, also when the session was
   * pending or Codex moved on to the next epoch, and the dispatch target is unchanged.
   */
  lemma ConfirmationIsAccepted(c: Codec, g: Generation, o: OperationRecord, run: RunRecord, at: int)
    requires OperationOk(g, o.operationId, o) && o.Confirmable()
    requires ValidRun(c, run)
    requires BindingMatches(o.binding, run.binding) && SequenceMatches(o, run.binding, run.runSeq)
    requires at >= 0
    ensures ConfirmedBy(o, run, at).Some?
    ensures var o' := ConfirmedBy(o, run, at).value;
      && ValidOperation(o')
      && OperationReplacement(o, o')
      && SameRequest(o, o')
      && o'.state == PromptConfirmed
      && o'.runId == Some(run.runId)
      && o'.binding == FromAgent(run.binding)
      && TargetOf(o'.binding) == TargetOf(o.binding)
  {
    hide ValidOperation, ValidRun, OperationReplacement, Fingerprinted, BindingMatches, SequenceMatches;
    assert ConfirmedBy(o, run, at).Some?;
    ConfirmationPassesGuard(c, g, o, run, at);
  }

  /** Conversely, whatever is confirmed was unsettled and matched the run; taking over another binding needs the expected sequence too. */
  lemma ConfirmationNeedsMatch(o: OperationRecord, run: RunRecord, at: int)
    requires ConfirmedBy(o, run, at).Some?
    ensures o.Confirmable()
    ensures TargetOf(o.binding) == TargetOf(FromAgent(run.binding))
    ensures BindingMatches(o.binding, run.binding)
    ensures o.binding != FromAgent(run.binding) ==> SequenceMatches(o, run.binding, run.runSeq)
  {
  }

  // ---------------------------------------------------------------- dispatch input evidence

  /** What classifies a later prompt hook as dispatched input; independent of fence and credit. */
  datatype DispatchInput = DispatchInput(binding: OperationBinding, digest: Digest, automatic: bool, createdAt: int)

  function InputOf(o: OperationRecord): Option<DispatchInput> {
    if o.state == DispatchStarted || o.state == DeliveryUnknown || o.state == PromptConfirmed then
      Some(DispatchInput(o.binding, o.promptDigest, o.dispatchOption == CAPACITY_ORIGIN, o.createdAt))
    else
      None
  }

  predicate InputMatches(i: DispatchInput, agent: AgentBinding, obs: Observation, automaticOnly: bool) {
    && (!automaticOnly || i.automatic)
    && BindingMatches(i.binding, agent)
    && obs.promptDigest == Some(i.digest)
    && i.createdAt <= obs.observedAt
  }
}
