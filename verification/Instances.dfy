/**
 * Concrete runs of the program that show where a property fails. Every directory here is reached from an empty
 * one by the calls named beside it. A confirmed record that would exceed 4 KiB leaves a claim open; the
 * failing steps then go wrong where the general lemmas of `Wedge`, `RunSteps` and `Reducer` say they do.
 */
module Instances {
  import opened Base
  import opened Records
  import opened Guards
  import opened Reducer
  import opened Framing
  import opened Encoding
  import opened Regions
  import opened Protocol
  import opened Dispatch
  import opened Verdicts
  import opened Indexes
  import opened RunSteps
  import opened Outcomes
  import opened Restart
  import opened Wedge

  const PROMPT: Text := [0x68, 0x69]
  const DISPATCH: OperationId := Repeat(0x64, 64)
  const STATE: StateId := Repeat(0x30, 32)
  const INGRESS: Text := Repeat(0x30, 32)

  /** Every text is within its own limit of 256 bytes; in JSON a quotation mark takes two, the token's control character six. */
  const QUOTES: Text := Repeat(0x22, 256)
  const TOKEN: Text := Repeat(0x01, 256)

  const AGENT: AgentBinding :=
    AgentBinding(ServerIdentity(7, 100), PaneInstance([0x25, 0x31], 42), STATE, 1, CODEX, QUOTES, ProcessIdentity(43, TOKEN))
  const NEXT_EPOCH: AgentBinding := AGENT.(agentEpoch := 2)
  const REFUSAL: ReceiptCode := OtherCode(Repeat(0x65, 13))

  function PromptHook(ref: byte, at: int): Observation {
    Observation(INGRESS, CODEX, QUOTES, UserPromptSubmit, None, Some([ref]), Some(Sha256([ref])), Some(PromptDigest(PROMPT)), None, at)
  }

  const PREPARED: OperationRecord :=
    NewOperation(5, DISPATCH, QUOTES, PromptDigest(PROMPT), QUOTES, FromAgent(AGENT), StateVersion(STATE, 1, 3), None, 1, 20)
  const SENT: OperationRecord := PREPARED.(state := DispatchStarted, revision := 2, updatedAt := 21)
  const REJECTED: OperationRecord := SENT.(state := Rejected, receipt := Some(Receipt(REFUSAL, 23, None, None)), revision := 3, updatedAt := 23)

  function FirstRun(id: RunId, b: AgentBinding, ref: byte, at: int): RunRecord {
    BlankRun(5, id, b, 1, Some(DISPATCH), PromptHook(ref, at)).(
      evidence := EMPTY_EVIDENCE.(events := [EventReference([ref], INGRESS, Sha256([ref]), RunCreated, RunRevision(1), 1, at, at)],
                                  firstObservedAt := Some(at), lastObservedAt := Some(at)))
  }

  const CLAIMANT: RunRecord := FirstRun(9, AGENT, 0x70, 22)
  const SECOND: RunRecord := FirstRun(10, NEXT_EPOCH, 0x71, 24)
  const ENDED: RunRecord := CLAIMANT.(phase := Ended, revision := 2, updatedAt := 24)

  // ---------------------------------------------------------------- the directories

  const EMPTY: Disk := Disk(StateMeta(Ready, 5, None), map[], map[], map[], map[])
  const AFTER_STAGE: Disk := EMPTY.(prompts := map[DISPATCH := PROMPT])
  const AFTER_PREPARE: Disk := AFTER_STAGE.(operations := map[DISPATCH := PREPARED])
  const AFTER_MARK: Disk := AFTER_STAGE.(operations := map[DISPATCH := SENT])
  const AFTER_HOOK: Disk := AFTER_MARK.(runs := map[9 := CLAIMANT])
  const AFTER_REJECTION: Disk := AFTER_HOOK.(operations := map[DISPATCH := REJECTED], prompts := map[])
  const AFTER_RETIRE: Disk := AFTER_HOOK.(runs := map[9 := ENDED])
  const AFTER_SECOND: Disk := AFTER_HOOK.(runs := map[9 := ENDED, 10 := SECOND])

  const STAGED: History := After(Opened(Genesis(5)), StagePrompt(DISPATCH, PROMPT))
  const REQUESTED: History := After(STAGED, CreateOperation(PREPARED))
  const MARKED: History := After(REQUESTED, ReplaceOperation(SENT))
  const CREDITED: History := After(MARKED, CreateRun(CLAIMANT, PromptHook(0x70, 22)))
  const REFUSED: History := After(After(CREDITED, ReplaceOperation(REJECTED)), DropPrompt(DISPATCH))
  const RECREDITED: History := After(After(CREDITED, ReplaceRun(ENDED)), CreateRun(SECOND, PromptHook(0x71, 24)))

  lemma MarkedReplays()
    ensures Replay(STAGED) == World(AFTER_STAGE, map[])
    ensures Replay(REQUESTED) == World(AFTER_PREPARE, map[])
    ensures Replay(MARKED) == World(AFTER_MARK, map[])
  {
    hide PREPARED, SENT, PROMPT, DISPATCH;
    Keys();
    assert Replay(STAGED) == World(AFTER_STAGE, map[]);
    assert AFTER_STAGE.operations[DISPATCH := PREPARED] == AFTER_PREPARE.operations;
    assert AFTER_PREPARE.operations[DISPATCH := SENT] == AFTER_MARK.operations;
  }

  lemma CreditedReplays()
    ensures Replay(CREDITED) == World(AFTER_HOOK, map[9 := Birth(CLAIMANT, PromptHook(0x70, 22), Some(SENT))])
  {
    hide PREPARED, SENT, CLAIMANT, PROMPT, DISPATCH, PromptHook, MARKED;
    Keys();
    MarkedReplays();
    assert AFTER_MARK.runs[9 := CLAIMANT] == AFTER_HOOK.runs;
  }

  lemma RefusedReplays()
    ensures Replay(REFUSED).disk == AFTER_REJECTION
  {
    hide REJECTED, SENT, CLAIMANT, PROMPT, DISPATCH, CREDITED;
    Keys();
    CreditedReplays();
    assert AFTER_HOOK.operations[DISPATCH := REJECTED] == AFTER_REJECTION.operations;
    assert AFTER_HOOK.prompts - {DISPATCH} == map[];
  }

  lemma RecreditedReplays()
    ensures Replay(After(CREDITED, ReplaceRun(ENDED))) == World(AFTER_RETIRE, Replay(CREDITED).births)
    ensures Replay(RECREDITED).disk == AFTER_SECOND
  {
    hide SENT, CLAIMANT, SECOND, ENDED, PROMPT, DISPATCH, CREDITED, PromptHook;
    Keys();
    CreditedReplays();
    assert AFTER_HOOK.runs[9 := ENDED] == AFTER_RETIRE.runs;
    assert AFTER_RETIRE.runs[10 := SECOND] == AFTER_SECOND.runs;
  }

  lemma Keys()
    ensures PREPARED.operationId == SENT.operationId == REJECTED.operationId == DISPATCH
    ensures CLAIMANT.runId == ENDED.runId == 9 && SECOND.runId == 10
    ensures CLAIMANT.operationId == ENDED.operationId == SECOND.operationId == Some(DISPATCH)
  {
    hide PROMPT, DISPATCH, AGENT;
  }

  // ---------------------------------------------------------------- every record is a valid one

  lemma Texts()
    ensures RequiredText(QUOTES, IDENTIFIER_MAX_BYTES) && RequiredText(INGRESS, IDENTIFIER_MAX_BYTES)
    ensures RequiredText(REFUSAL.text, IDENTIFIER_MAX_BYTES)
    ensures RequiredText([0x70], IDENTIFIER_MAX_BYTES) && RequiredText([0x71], IDENTIFIER_MAX_BYTES)
  {
    RepeatIsText(0x22, 256, IDENTIFIER_MAX_BYTES);
    RepeatIsText(0x30, 32, IDENTIFIER_MAX_BYTES);
    RepeatIsText(0x65, 13, IDENTIFIER_MAX_BYTES);
  }

  lemma AgentIsValid()
    ensures ValidAgentBinding(AGENT) && ValidAgentBinding(NEXT_EPOCH) && ValidOperationBinding(FromAgent(AGENT))
  {
    assert TOKEN[0] == 0x01;
  }

  lemma TextSizes()
    ensures Quoted(QUOTES) == 512 && Quoted(TOKEN) == 1536 && Quoted(DISPATCH) == 64 && Quoted(INGRESS) == 32 && Quoted(REFUSAL.text) == 13
    ensures forall b: byte :: Quoted([b]) <= 6
  {
    hide Quoted, Repeat;
    QuotedRepeat(0x22, 256);
    QuotedRepeat(0x01, 256);
    QuotedRepeat(0x64, 64);
    QuotedRepeat(0x30, 32);
    QuotedRepeat(0x65, 13);
    forall b: byte
      ensures Quoted([b]) <= 6
    {
      QuotedOne(b);
    }
  }

  /** The JSON of each record: below 4 KiB before the confirmation, and after the rejection. */
  lemma Sizes()
    ensures JSON.operationSize(PREPARED) == 3987 && JSON.operationSize(SENT) == 3995 && JSON.operationSize(REJECTED) == 4076
    ensures JSON.isUtf8(PROMPT)
  {
    hide Quoted, Repeat, PromptDigest, QUOTES, TOKEN, DISPATCH, STATE, INGRESS;
    TextSizes();
  }

  lemma RunSizes(r: RunRecord)
    requires |r.evidence.events| <= RUN_EVENT_REFERENCE_MAX_COUNT && r.turnKey.None? && r.operationId == Some(DISPATCH)
    requires r.binding.session == QUOTES && r.binding.process.startToken == TOKEN
    requires forall i :: 0 <= i < |r.evidence.events| ==> |r.evidence.events[i].eventRef| == 1 && r.evidence.events[i].ingress == INGRESS
    ensures JSON.runSize(r) <= RUN_RECORD_MAX_BYTES && JSON.evidenceSize(r.evidence) <= RUN_EVIDENCE_MAX_BYTES
  {
    hide Quoted, Repeat, PromptDigest, QUOTES, TOKEN, DISPATCH, STATE, INGRESS;
    TextSizes();
    forall i | 0 <= i < |r.evidence.events|
      ensures Quoted(r.evidence.events[i].eventRef) + Quoted(r.evidence.events[i].ingress) <= 100
    {
      assert r.evidence.events[i].eventRef == [r.evidence.events[i].eventRef[0]];
    }
    EventsAreShort(r.evidence.events, 100);
  }

  lemma FirstRunSizes()
    ensures JSON.runSize(CLAIMANT) <= RUN_RECORD_MAX_BYTES && JSON.runSize(ENDED) <= RUN_RECORD_MAX_BYTES && JSON.runSize(SECOND) <= RUN_RECORD_MAX_BYTES
    ensures JSON.evidenceSize(CLAIMANT.evidence) <= RUN_EVIDENCE_MAX_BYTES && JSON.evidenceSize(ENDED.evidence) <= RUN_EVIDENCE_MAX_BYTES
    ensures JSON.evidenceSize(SECOND.evidence) <= RUN_EVIDENCE_MAX_BYTES
  {
    hide JSON, Quoted, Repeat, PromptDigest, QUOTES, TOKEN, DISPATCH, STATE, INGRESS;
    RunSizes(CLAIMANT);
    RunSizes(ENDED);
    RunSizes(SECOND);
  }

  lemma OperationsAreOk()
    ensures OperationOk(5, DISPATCH, PREPARED) && OperationOk(5, DISPATCH, SENT) && OperationOk(5, DISPATCH, REJECTED)
    ensures Started(PREPARED, 21) == Some(SENT) && SettledTo(SENT, Rejected, REFUSAL, 23) == Some(REJECTED)
    ensures OperationReplacement(PREPARED, SENT) && OperationReplacement(SENT, REJECTED)
    ensures ValidOperation(PREPARED) && ValidOperation(SENT) && ValidOperation(REJECTED)
  {
    hide RequiredText, ValidOperationBinding, PromptDigest, QUOTES, TOKEN, STATE, JSON, Quoted, Repeat, DISPATCH, INGRESS;
    Texts();
    AgentIsValid();
  }

  lemma RunsAreOk()
    ensures RunOk(JSON, 5, 9, CLAIMANT) && RunOk(JSON, 5, 9, ENDED) && RunOk(JSON, 5, 10, SECOND)
    ensures EndedAt(CLAIMANT, 24) == Some(ENDED) && RunReplacement(CLAIMANT, ENDED)
  {
    hide RequiredText, ValidAgentBinding, PromptDigest, JSON, QUOTES, TOKEN, INGRESS, DISPATCH, Quoted, Repeat, STATE;
    Texts();
    FirstRunSizes();
    AgentIsValid();
  }

  lemma HooksStartThem()
    ensures NewRun(JSON, 5, 9, AGENT, 1, Some(DISPATCH), PromptHook(0x70, 22), []) == Some(CLAIMANT)
    ensures NewRun(JSON, 5, 10, NEXT_EPOCH, 1, Some(DISPATCH), PromptHook(0x71, 24), []) == Some(SECOND)
  {
    hide PromptDigest, ValidRun, DistinctEvents, JSON, Quoted, Repeat, QUOTES, TOKEN, DISPATCH, INGRESS, STATE;
    RunsAreOk();
    assert forall r: EventReference :: [] + [r] == [r];
  }

  lemma BothHooksClaim()
    ensures Claims(SENT, AGENT, 1, PromptHook(0x70, 22)) && Claims(SENT, NEXT_EPOCH, 1, PromptHook(0x71, 24))
  {
    hide PromptDigest, JSON, Quoted, Repeat, QUOTES, TOKEN, DISPATCH, INGRESS, STATE;
  }

  // ---------------------------------------------------------------- the histories are ones the program writes

  lemma StageIsLawful()
    ensures BaseHistory(JSON, STAGED) && LinkHistory(STAGED) && Replay(STAGED).disk == AFTER_STAGE
  {
    hide BaseInv, LinkInv, JSON, Quoted, Repeat, QUOTES, TOKEN, DISPATCH, INGRESS, STATE;
    GenesisIsRecoverable(JSON, 5);
  }

  lemma PrepareIsLawful()
    ensures LawfulPrepare(JSON, AFTER_STAGE, PREPARED)
  {
    hide OperationOk, JSON, Quoted, Repeat, QUOTES, TOKEN, DISPATCH, INGRESS, STATE;
    OperationsAreOk();
    Sizes();
    OneFits(DISPATCH, PREPARED, JSON.operationSize);
    assert map[][DISPATCH := PREPARED] == map[DISPATCH := PREPARED];
  }

  lemma MarkIsLawful()
    ensures LawfulAdvance(JSON, AFTER_PREPARE, SENT)
  {
    hide OperationOk, OperationReplacement, ValidOperation, JSON, Quoted, Repeat, QUOTES, TOKEN, DISPATCH, INGRESS, STATE;
    OperationsAreOk();
    Sizes();
    OneFits(DISPATCH, SENT, JSON.operationSize);
    assert map[DISPATCH := PREPARED][DISPATCH := SENT] == map[DISPATCH := SENT];
  }

  lemma HookIsLawful()
    ensures LawfulCreate(JSON, AFTER_MARK, CLAIMANT, PromptHook(0x70, 22))
  {
    hide RunOk, JSON, Quoted, Repeat, QUOTES, TOKEN, DISPATCH, INGRESS, STATE;
    RunsAreOk();
    FirstRunSizes();
    OneFits(9 as RunId, CLAIMANT, JSON.runSize);
    assert map[][9 := CLAIMANT] == map[9 := CLAIMANT];
  }

  lemma OneMore(h: History, d: Disk, x: Write)
    requires BaseHistory(JSON, h) && Replay(h).disk == d && BaseLawful(JSON, d, x) && FreshRun(Replay(h), x)
    ensures BaseHistory(JSON, After(h, x))
  {
  }

  lemma SentIsOpen()
    ensures SENT.state == DispatchStarted && SENT.Confirmable() && !SENT.Abandoned() && PREPARED.state == Prepared && SENT.operationId == DISPATCH
  {
  }

  lemma MarkedIsLawful()
    ensures BaseHistory(JSON, MARKED) && LinkHistory(MARKED)
  {
    hide BaseInv, LinkInv, LawfulPrepare, LawfulAdvance, PREPARED, SENT, Replay, STAGED, BaseHistory, JSON, Quoted, Repeat, QUOTES, TOKEN, DISPATCH,
         INGRESS, STATE;
    StageIsLawful();
    PrepareIsLawful();
    MarkIsLawful();
    SentIsOpen();
    MarkedReplays();
    OneMore(STAGED, AFTER_STAGE, CreateOperation(PREPARED));
    OneMore(REQUESTED, AFTER_PREPARE, ReplaceOperation(SENT));
  }

  lemma CreditedIsLawful()
    ensures BaseHistory(JSON, CREDITED) && LinkHistory(CREDITED)
  {
    hide BaseInv, LinkInv, LawfulCreate, SENT, CLAIMANT, Replay, MARKED, BaseHistory, Attests, JSON, Quoted, Repeat, QUOTES, TOKEN, DISPATCH,
         INGRESS, STATE;
    MarkedIsLawful();
    MarkedReplays();
    HookIsLawful();
    HookAttests();
    OneMore(MARKED, AFTER_MARK, CreateRun(CLAIMANT, PromptHook(0x70, 22)));
  }

  lemma HookAttests()
    ensures CreditedOperation(AFTER_MARK, CLAIMANT) == Some(SENT)
    ensures Attests(Birth(CLAIMANT, PromptHook(0x70, 22), Some(SENT)))
  {
    hide PromptDigest, JSON, Quoted, Repeat, QUOTES, TOKEN, DISPATCH, INGRESS, STATE;
    BothHooksClaim();
  }

  // ---------------------------------------------------------------- a claim lost by rejection

  lemma PrepareSucceeds()
    ensures PrepareOutcome(JSON, EMPTY, false, PREPARED, PROMPT) == Step(Ok(Created(PREPARED)), AFTER_PREPARE)
  {
    hide ValidOperation, PromptDigest, JSON, Quoted, Repeat, QUOTES, TOKEN, DISPATCH, INGRESS, STATE;
    OperationsAreOk();
    Sizes();
    OneFits(DISPATCH, PREPARED, JSON.operationSize);
    assert map[][DISPATCH := PREPARED] == map[DISPATCH := PREPARED];
    assert map[][DISPATCH := PROMPT] == map[DISPATCH := PROMPT];
  }

  lemma MarkSucceeds()
    ensures MarkOutcome(JSON, AFTER_PREPARE, DISPATCH, 21) == Step(Ok(SENT), AFTER_MARK)
  {
    hide ValidOperation, PromptDigest, OperationReplacement, JSON, Quoted, Repeat, QUOTES, TOKEN, DISPATCH, INGRESS, STATE;
    OperationsAreOk();
    Sizes();
    OneFits(DISPATCH, SENT, JSON.operationSize);
    assert map[DISPATCH := PREPARED][DISPATCH := SENT] == map[DISPATCH := SENT];
  }

  lemma HookSucceeds()
    ensures EnrollOutcome(JSON, AFTER_MARK, AGENT, 1, Some(DISPATCH), PromptHook(0x70, 22), 9, []) == Step(Ok(CLAIMANT), AFTER_HOOK)
  {
    hide ValidRun, PromptDigest, NewRun, JSON, Quoted, Repeat, QUOTES, TOKEN, DISPATCH, INGRESS, STATE;
    RunsAreOk();
    HooksStartThem();
    FirstRunSizes();
    OneFits(9 as RunId, CLAIMANT, JSON.runSize);
    assert map[][9 := CLAIMANT] == map[9 := CLAIMANT];
  }

  lemma FirstRunMatches()
    ensures BindingMatches(SENT.binding, CLAIMANT.binding) && SequenceMatches(SENT, CLAIMANT.binding, CLAIMANT.runSeq) && SENT.Confirmable()
  {
    hide PromptDigest, JSON, Quoted, Repeat, QUOTES, TOKEN, DISPATCH, INGRESS, STATE;
  }

  lemma ConfirmedSize()
    ensures ConfirmedBy(SENT, CLAIMANT, 22).Some? ==> JSON.operationSize(ConfirmedBy(SENT, CLAIMANT, 22).value) > OPERATION_RECORD_MAX_BYTES
  {
    hide PromptDigest, PROMPT, BindingMatches, SequenceMatches, Quoted, Repeat, QUOTES, TOKEN, DISPATCH, INGRESS, STATE;
    TextSizes();
  }

  lemma ConfirmationIsTooLong()
    ensures ConfirmOutcome(JSON, AFTER_HOOK, CLAIMANT, 22) == Step(Err(Capacity), AFTER_HOOK)
  {
    hide ValidOperation, OperationReplacement, PromptDigest, ValidRun, DistinctEvents, Claims, JSON, Quoted, Repeat, QUOTES, TOKEN, DISPATCH,
         INGRESS, STATE;
    OperationsAreOk();
    RunsAreOk();
    FirstRunMatches();
    ConfirmationIsAccepted(JSON, 5, SENT, CLAIMANT, 22);
    ConfirmedSize();
  }

  lemma RejectionSucceeds()
    ensures SettleOutcome(JSON, AFTER_HOOK, DISPATCH, Rejected, REFUSAL, 23) == Step(Ok(REJECTED), AFTER_REJECTION)
  {
    hide ValidOperation, PromptDigest, OperationReplacement, JSON, Quoted, Repeat, QUOTES, TOKEN, DISPATCH, INGRESS, STATE;
    OperationsAreOk();
    Sizes();
    OneFits(DISPATCH, REJECTED, JSON.operationSize);
    assert AFTER_HOOK.operations[DISPATCH := REJECTED] == AFTER_REJECTION.operations;
    assert AFTER_HOOK.prompts - {DISPATCH} == map[];
  }

  lemma RefusedIsLawful()
    ensures BaseHistory(JSON, REFUSED)
  {
    hide BaseInv, LinkInv, LinkHistory, LawfulAdvance, SENT, REJECTED, CLAIMANT, Replay, CREDITED, BaseHistory, JSON, Quoted, Repeat, QUOTES, TOKEN,
         DISPATCH, INGRESS, STATE;
    CreditedIsLawful();
    CreditedReplays();
    RejectionIsLawful();
    OneMore(CREDITED, AFTER_HOOK, ReplaceOperation(REJECTED));
    RejectedReplays();
    OneMore(After(CREDITED, ReplaceOperation(REJECTED)), AFTER_HOOK.(operations := map[DISPATCH := REJECTED]), DropPrompt(DISPATCH));
  }

  lemma RejectionIsLawful()
    ensures LawfulAdvance(JSON, AFTER_HOOK, REJECTED) && REJECTED.operationId == DISPATCH && !REJECTED.StagingRequired()
  {
    hide OperationOk, OperationReplacement, ValidOperation, PromptDigest, JSON, Quoted, Repeat, QUOTES, TOKEN, DISPATCH, INGRESS, STATE;
    OperationsAreOk();
    Sizes();
    OneFits(DISPATCH, REJECTED, JSON.operationSize);
    assert AFTER_HOOK.operations[DISPATCH := REJECTED] == AFTER_REJECTION.operations;
  }

  lemma RejectedReplays()
    ensures Replay(After(CREDITED, ReplaceOperation(REJECTED))).disk == AFTER_HOOK.(operations := map[DISPATCH := REJECTED])
  {
    hide REJECTED, SENT, CLAIMANT, PROMPT, DISPATCH, CREDITED, JSON, Quoted, Repeat, QUOTES, TOKEN, INGRESS, STATE;
    Keys();
    CreditedReplays();
    assert AFTER_HOOK.operations[DISPATCH := REJECTED] == AFTER_REJECTION.operations;
  }

  lemma RejectedNeedsNothing(clock: Clock)
    ensures AtRest(REJECTED, clock) && JSON.operationSize(REJECTED) == 4076
    ensures !LinkSettled(CLAIMANT, AFTER_REJECTION.operations) && Confirmation(AFTER_REJECTION, 9) == None
  {
    hide PromptDigest, PROMPT, JSON, Quoted, Repeat, QUOTES, TOKEN, DISPATCH, INGRESS, STATE;
    Sizes();
  }

  lemma RejectedLeavesOneClaim(clock: Clock)
    ensures OpenClaims(AFTER_REJECTION) == {9} && Interrupted(AFTER_REJECTION.operations, clock) == {}
  {
    hide REJECTED, CLAIMANT, LinkSettled, AtRest, JSON, DISPATCH;
    RejectedNeedsNothing(clock);
  }

  lemma RejectedFits(clock: Clock)
    ensures RoomFor(JSON, AFTER_REJECTION.operations, 1) && ConfirmationFits(JSON, AFTER_REJECTION, 9)
  {
    hide REJECTED, CLAIMANT, Confirmation, JSON, DISPATCH, TotalSize;
    RejectedNeedsNothing(clock);
    OneFits(DISPATCH, REJECTED, JSON.operationSize);
  }

  lemma RejectedHasRoom(clock: Clock)
    ensures RestartRoom(JSON, AFTER_REJECTION, clock)
  {
    hide REJECTED, CLAIMANT, RestartFits, OpenClaims, Interrupted, JSON, DISPATCH, RoomFor, ConfirmationFits;
    RejectedLeavesOneClaim(clock);
    RejectedFits(clock);
  }

  lemma RejectedIsLost()
    ensures Lost(AFTER_REJECTION, 9)
  {
  }

  /**
   * Prepare, send, and let the hook be seen; the confirmation does not fit, the sender reports a rejection.
   * Every call but the confirmation succeeds, the directory is base-lawful throughout and has room for a
   * restart, and yet it could be opened before the rejection and never can be after it.
   */
  lemma RejectionInstance(clock: Clock)
    ensures PrepareOutcome(JSON, EMPTY, false, PREPARED, PROMPT) == Step(Ok(Created(PREPARED)), AFTER_PREPARE)
    ensures MarkOutcome(JSON, AFTER_PREPARE, DISPATCH, 21) == Step(Ok(SENT), AFTER_MARK)
    ensures EnrollOutcome(JSON, AFTER_MARK, AGENT, 1, Some(DISPATCH), PromptHook(0x70, 22), 9, []) == Step(Ok(CLAIMANT), AFTER_HOOK)
    ensures ConfirmOutcome(JSON, AFTER_HOOK, CLAIMANT, 22) == Step(Err(Capacity), AFTER_HOOK)
    ensures SettleOutcome(JSON, AFTER_HOOK, DISPATCH, Rejected, REFUSAL, 23) == Step(Ok(REJECTED), AFTER_REJECTION)
    ensures BaseHistory(JSON, CREDITED) && LinkHistory(CREDITED) && Replay(CREDITED).disk == AFTER_HOOK && Openable(AFTER_HOOK)
    ensures BaseHistory(JSON, REFUSED) && Replay(REFUSED).disk == AFTER_REJECTION
    ensures RestartRoom(JSON, AFTER_REJECTION, clock) && !Openable(AFTER_REJECTION)
  {
    hide *;
    PrepareSucceeds();
    MarkSucceeds();
    HookSucceeds();
    ConfirmationIsTooLong();
    RejectionSucceeds();
    CreditedIsLawful();
    CreditedReplays();
    SoundIsConfirmable(JSON, CREDITED, AFTER_HOOK);
    RefusedIsLawful();
    RefusedReplays();
    RejectedHasRoom(clock);
    RejectedIsLost();
    LostBlocksOpening(AFTER_REJECTION, 9);
  }

  // ---------------------------------------------------------------- an operation credited twice

  lemma RetireSucceeds()
    ensures RetireOutcome(JSON, AFTER_HOOK, map[AGENT.pane := 9], NEXT_EPOCH, 24) == Step(Ok(()), AFTER_RETIRE)
  {
    hide ValidRun, RunReplacement, PromptDigest, JSON, Quoted, Repeat, QUOTES, TOKEN, DISPATCH, INGRESS, STATE;
    RunsAreOk();
    FirstRunSizes();
    OneFits(9 as RunId, ENDED, JSON.runSize);
    assert AFTER_HOOK.runs[9 := ENDED] == AFTER_RETIRE.runs;
  }

  lemma SecondHookSucceeds()
    ensures Explained(AFTER_RETIRE.operations, NEXT_EPOCH, 1, PromptHook(0x71, 24)) == Some(DISPATCH)
    ensures EnrollOutcome(JSON, AFTER_RETIRE, NEXT_EPOCH, 1, Some(DISPATCH), PromptHook(0x71, 24), 10, []) == Step(Ok(SECOND), AFTER_SECOND)
  {
    hide ValidRun, PromptDigest, NewRun, Claims, JSON, Quoted, Repeat, QUOTES, TOKEN, DISPATCH, INGRESS, STATE;
    RunsAreOk();
    HooksStartThem();
    BothHooksClaim();
    assert DISPATCH in AFTER_RETIRE.operations && AFTER_RETIRE.operations[DISPATCH] == SENT;
    FirstRunSizes();
    TwoFit(9 as RunId, ENDED, 10, SECOND, JSON.runSize);
    assert AFTER_RETIRE.runs[10 := SECOND] == AFTER_SECOND.runs;
  }

  lemma RetireIsLawful()
    ensures LawfulReplace(JSON, AFTER_HOOK, ENDED)
  {
    hide RunOk, RunReplacement, JSON, Quoted, Repeat, QUOTES, TOKEN, DISPATCH, INGRESS, STATE;
    RunsAreOk();
    FirstRunSizes();
    OneFits(9 as RunId, ENDED, JSON.runSize);
    assert AFTER_HOOK.runs[9 := ENDED] == AFTER_RETIRE.runs;
  }

  lemma SecondIsLawful()
    ensures LawfulCreate(JSON, AFTER_RETIRE, SECOND, PromptHook(0x71, 24))
  {
    hide RunOk, PromptDigest, JSON, Quoted, Repeat, QUOTES, TOKEN, DISPATCH, INGRESS, STATE;
    RunsAreOk();
    FirstRunSizes();
    TwoFit(9 as RunId, ENDED, 10, SECOND, JSON.runSize);
    assert AFTER_RETIRE.runs[10 := SECOND] == AFTER_SECOND.runs;
  }

  lemma RecreditedIsLawful()
    ensures BaseHistory(JSON, RECREDITED)
  {
    hide BaseInv, LinkInv, LinkHistory, LawfulCreate, LawfulReplace, SENT, ENDED, SECOND, CLAIMANT, Replay, CREDITED, BaseHistory, JSON, Quoted,
         Repeat, QUOTES, TOKEN, DISPATCH, INGRESS, STATE;
    CreditedIsLawful();
    CreditedReplays();
    RecreditedReplays();
    RetireIsLawful();
    SecondIsLawful();
    Keys();
    OneMore(CREDITED, AFTER_HOOK, ReplaceRun(ENDED));
    OneMore(After(CREDITED, ReplaceRun(ENDED)), AFTER_RETIRE, CreateRun(SECOND, PromptHook(0x71, 24)));
  }

  lemma ClaimedTwice()
    ensures !ClaimsDistinct(AFTER_SECOND.runs) && !LinkHistory(RECREDITED)
  {
    hide CLAIMANT, ENDED, SECOND, SENT, CREDITED, Attests, PromptHook, JSON, Quoted, Repeat, QUOTES, TOKEN, DISPATCH, INGRESS, STATE;
    Keys();
    CreditedReplays();
    RecreditedReplays();
    assert AFTER_SECOND.runs[9].operationId == AFTER_SECOND.runs[10].operationId;
  }

  /**
   * Prepare, send, and let the hook be seen; the confirmation does not fit, so the operation stays open. When
   * Codex moves on to its next epoch, the same prompt is explained by the same operation again, and the
   * directory can no longer be opened: at most one of the two claims can ever be confirmed.
   */
  lemma SecondCreditInstance()
    ensures BaseHistory(JSON, CREDITED) && LinkHistory(CREDITED) && Replay(CREDITED).disk == AFTER_HOOK && Openable(AFTER_HOOK)
    ensures ConfirmOutcome(JSON, AFTER_HOOK, CLAIMANT, 22) == Step(Err(Capacity), AFTER_HOOK)
    ensures RetireOutcome(JSON, AFTER_HOOK, map[AGENT.pane := 9], NEXT_EPOCH, 24) == Step(Ok(()), AFTER_RETIRE)
    ensures Explained(AFTER_RETIRE.operations, NEXT_EPOCH, 1, PromptHook(0x71, 24)) == Some(DISPATCH)
    ensures EnrollOutcome(JSON, AFTER_RETIRE, NEXT_EPOCH, 1, Some(DISPATCH), PromptHook(0x71, 24), 10, []) == Step(Ok(SECOND), AFTER_SECOND)
    ensures BaseHistory(JSON, RECREDITED) && Replay(RECREDITED).disk == AFTER_SECOND
    ensures !LinkHistory(RECREDITED) && !Openable(AFTER_SECOND)
  {
    hide *;
    CreditedIsLawful();
    CreditedReplays();
    SoundIsConfirmable(JSON, CREDITED, AFTER_HOOK);
    ConfirmationIsTooLong();
    RetireSucceeds();
    SecondHookSucceeds();
    RecreditedIsLawful();
    RecreditedReplays();
    ClaimedTwice();
    DoubleClaimBlocksOpening(AFTER_SECOND);
  }

  // ---------------------------------------------------------------- a reference that cannot be given up

  /** Sixteen references, the second of which only updated the prompt. */
  function FullEvidence(): Evidence {
    EMPTY_EVIDENCE.(events := seq(RUN_EVENT_REFERENCE_MAX_COUNT, i requires 0 <= i < RUN_EVENT_REFERENCE_MAX_COUNT =>
                                EventReference([(0x40 + i) as byte], INGRESS, Sha256([]),
                                               if i == 1 then PromptUpdated else HookApplied, RunRevision(1), 1, 22, 22)),
                    firstObservedAt := Some(22), lastObservedAt := Some(22))
  }

  const CROWDED: RunRecord := CLAIMANT.(evidence := FullEvidence())

  lemma CrowdedIsOk()
    ensures RunOk(JSON, 5, 9, CROWDED) && Evicts(CROWDED, PromptHook(0x71, 24))
    ensures FindReplaceable(CROWDED.evidence.events) == 1
  {
    hide PromptDigest, ValidAgentBinding, JSON, Quoted, Repeat, QUOTES, TOKEN, DISPATCH, INGRESS, STATE;
    AgentIsValid();
    Texts();
    RunSizes(CROWDED);
    assert FindReplaceable(CROWDED.evidence.events) <= 1 by {
      assert CROWDED.evidence.events[1].disposition == PromptUpdated;
    }
  }

  /** What the hook makes of it: the second reference is gone, the new one comes last. */
  const ROTATED: RunRecord :=
    CROWDED.(evidence := CROWDED.evidence.(
               events := CROWDED.evidence.events[..1] + CROWDED.evidence.events[2..]
                         + [EventReference([0x71], INGRESS, Sha256([0x71]), PromptUpdated, RunRevision(1), 1, 24, 24)],
               lastObservedAt := Some(24)),
             updatedAt := 24, revision := 2)

  lemma RotatedIsValid()
    ensures ValidRun(JSON, ROTATED)
  {
    hide PromptDigest, ValidAgentBinding, FindReplaceable, JSON, Quoted, Repeat, QUOTES, TOKEN, DISPATCH, INGRESS, STATE;
    Texts();
    AgentIsValid();
    CrowdedIsOk();
    forall i | 0 <= i < |ROTATED.evidence.events|
      ensures ValidEvent(ROTATED.evidence.events[i])
      ensures |ROTATED.evidence.events[i].eventRef| == 1 && ROTATED.evidence.events[i].ingress == INGRESS
    {
      assert i < 15 ==> ROTATED.evidence.events[i] == CROWDED.evidence.events[if i < 1 then i else i + 1];
    }
    RunSizes(ROTATED);
  }

  lemma CrowdedReduces()
    ensures Reduce(JSON, CROWDED, PromptHook(0x71, 24), []) == Some((ROTATED, Applied))
  {
    hide PromptDigest, ValidRun, FullEvidence, FindReplaceable, FindEvent, JSON, Quoted, Repeat, QUOTES, TOKEN, DISPATCH, INGRESS, STATE;
    CrowdedIsOk();
    RotatedIsValid();
    assert FindEvent(CROWDED.evidence.events, [0x71]) == 16;
  }

  /** The reducer gives that reference up for a new prompt, and the store refuses the result. */
  lemma RotationInstance()
    ensures RunOk(JSON, 5, 9, CROWDED) && Evicts(CROWDED, PromptHook(0x71, 24))
    ensures Reduce(JSON, CROWDED, PromptHook(0x71, 24), []) == Some((ROTATED, Applied))
    ensures !RunReplacement(CROWDED, ROTATED)
  {
    hide Reduce, RunReplacement, Evicts, CROWDED, ROTATED, ValidRun, DistinctEvents, PromptHook, JSON, Quoted, Repeat, QUOTES, TOKEN, DISPATCH,
         INGRESS, STATE;
    CrowdedIsOk();
    CrowdedReduces();
    ReducerMeetsGuard(JSON, CROWDED, PromptHook(0x71, 24), []);
  }
}
