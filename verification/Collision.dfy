/**
 * Two sessions of Codex whose terminal failures share a reference, call by call from an empty directory: the
 * second `capacity_failure` stores its record, indexing it answers corrupt, and so does every later opening.
 */
module Collision {
  import opened Base
  import opened Records
  import opened Guards
  import opened Reducer
  import opened Framing
  import opened Encoding
  import opened Regions
  import opened Protocol
  import opened Verdicts
  import opened Opening
  import opened Outcomes
  import opened Indexes
  import opened RunIndex
  import opened RunSteps

  const TOKEN: Text := Ascii("4711")
  const STATE: StateId := Repeat(0x30, 32)
  const INGRESS: Text := Repeat(0x30, 32)

  function Agent(pane: byte, session: SessionId): AgentBinding {
    AgentBinding(ServerIdentity(7, 100), PaneInstance([0x25, pane], 42), STATE, 1, CODEX, session, ProcessIdentity(43, TOKEN))
  }

  function Hook(session: SessionId, turn: Text, ref: byte, at: int): Observation {
    Observation(INGRESS, CODEX, session, UserPromptSubmit, Some(turn), Some([ref]), Some(Sha256([ref])), Some(PromptDigest([ref])), None, at)
  }

  const LEFT_AGENT: AgentBinding := Agent(0x31, Ascii("s:t"))
  const RIGHT_AGENT: AgentBinding := Agent(0x32, Ascii("s"))
  const LEFT_HOOK: Observation := Hook(Ascii("s:t"), Ascii("u"), 0x70, 20)
  const RIGHT_HOOK: Observation := Hook(Ascii("s"), Ascii("t:u"), 0x71, 30)

  function Begun(id: RunId, b: AgentBinding, obs: Observation, ref: byte): RunRecord {
    BlankRun(5, id, b, 1, None, obs).(
      evidence := EMPTY_EVIDENCE.(events := [EventReference([ref], INGRESS, Sha256([ref]), RunCreated, RunRevision(1), 1, obs.observedAt, obs.observedAt)],
                                  firstObservedAt := Some(obs.observedAt), lastObservedAt := Some(obs.observedAt)))
  }

  const LEFT: RunRecord := Begun(1, LEFT_AGENT, LEFT_HOOK, 0x70)
  const RIGHT: RunRecord := Begun(2, RIGHT_AGENT, RIGHT_HOOK, 0x71)
  const LEFT_FAILED: RunRecord := Failed(JSON, LEFT, 25).value
  const RIGHT_FAILED: RunRecord := Failed(JSON, RIGHT, 35).value

  const EMPTY: Disk := Disk(StateMeta(Ready, 5, None), map[], map[], map[], map[])
  const AFTER_LEFT: Disk := EMPTY.(runs := map[1 := LEFT])
  const AFTER_LEFT_FAILURE: Disk := EMPTY.(runs := map[1 := LEFT_FAILED])
  const AFTER_RIGHT: Disk := EMPTY.(runs := map[1 := LEFT_FAILED, 2 := RIGHT])
  const AFTER_RIGHT_FAILURE: Disk := EMPTY.(runs := map[1 := LEFT_FAILED, 2 := RIGHT_FAILED])

  // ---------------------------------------------------------------- texts

  predicate Plain(t: Text) {
    forall i :: 0 <= i < |t| ==> 0x20 <= t[i] < 0x7F
  }

  lemma PlainIsText(t: Text)
    requires Plain(t) && 0 < |t| <= IDENTIFIER_MAX_BYTES
    ensures RequiredText(t, IDENTIFIER_MAX_BYTES)
  {
  }

  lemma PlainAscii(s: string)
    requires Printable(s)
    ensures Plain(Ascii(s)) && |Ascii(s)| == |s|
  {
    forall i | 0 <= i < |s|
      ensures 0x20 <= Ascii(s)[i] < 0x7F
    {
      assert Ascii(s)[i] == (s[i] as int % 256) as byte;
    }
  }

  lemma PlainConcat(a: Text, b: Text)
    requires Plain(a) && Plain(b)
    ensures Plain(a + b) && |a + b| == |a| + |b|
  {
  }

  lemma CapacityRefIsText(r: RunRecord, session: string, turn: string)
    requires Printable(session) && Printable(turn) && |session| <= 3 && |turn| <= 3
    requires r.binding.session == Ascii(session) && r.turnKey == Some(Ascii(turn))
    ensures Plain(CapacityRef(JSON, r)) && 30 <= |CapacityRef(JSON, r)| <= 36
  {
    hide Plain, Ascii, Printable;
    PlainAscii(session);
    PlainAscii(turn);
    PrintableParts();
    PlainAscii(":");
    PlainAscii(":task_complete_error");
    PlainAscii("capacity:");
    PlainConcat(Ascii(session), Ascii(":"));
    PlainConcat(Ascii(session) + Ascii(":"), Ascii(turn));
    PlainConcat(Ascii(session) + Ascii(":") + Ascii(turn), Ascii(":task_complete_error"));
    PlainConcat(Ascii("capacity:"), Ascii(session) + Ascii(":") + Ascii(turn) + Ascii(":task_complete_error"));
  }

  lemma PrintableParts()
    ensures Printable(":") && Printable(":task_complete_error") && Printable("capacity:") && Printable("terminal_failure")
    ensures Printable("s:t") && Printable("u") && Printable("s") && Printable("t:u") && Printable("4711")
  {
  }

  lemma Texts()
    ensures RequiredText(Ascii("u"), IDENTIFIER_MAX_BYTES) && RequiredText(Ascii("t:u"), IDENTIFIER_MAX_BYTES)
    ensures RequiredText(INGRESS, IDENTIFIER_MAX_BYTES) && RequiredText(TERMINAL_FAILURE, IDENTIFIER_MAX_BYTES)
    ensures RequiredText([0x70], IDENTIFIER_MAX_BYTES) && RequiredText([0x71], IDENTIFIER_MAX_BYTES)
    ensures Plain(TOKEN) && |TOKEN| == 4 && |INGRESS| == 32 && |TERMINAL_FAILURE| == 16
    ensures |Ascii("s:t")| == |Ascii("t:u")| == 3 && |Ascii("s")| == |Ascii("u")| == 1
  {
    hide Ascii, Printable, RequiredText;
    PrintableParts();
    PlainAscii("s:t");
    PlainAscii("s");
    PlainAscii("u");
    PlainAscii("t:u");
    PlainAscii("4711");
    PlainAscii("terminal_failure");
    PlainIsText(Ascii("u"));
    PlainIsText(Ascii("t:u"));
    PlainIsText(TERMINAL_FAILURE);
    PlainIsText([0x70]);
    PlainIsText([0x71]);
    RepeatIsText(0x30, 32, IDENTIFIER_MAX_BYTES);
  }

  lemma AgentsAreValid()
    ensures ValidAgentBinding(LEFT_AGENT) && ValidAgentBinding(RIGHT_AGENT)
  {
    Texts();
    assert TOKEN[0] == 0x34;
  }

  /** A run with short texts and at most two short references is far from the limits. */
  lemma ShortIsSmall(r: RunRecord)
    requires |r.evidence.events| <= 2 && |r.binding.session| <= 3 && r.binding.process.startToken == TOKEN && r.operationId.None?
    requires r.turnKey.Some? ==> |r.turnKey.value| <= 3
    requires forall i :: 0 <= i < |r.evidence.events| ==> |r.evidence.events[i].eventRef| <= 36 && |r.evidence.events[i].ingress| <= 32
    ensures JSON.runSize(r) <= RUN_RECORD_MAX_BYTES && JSON.evidenceSize(r.evidence) <= RUN_EVIDENCE_MAX_BYTES
  {
    hide Quoted, TOKEN;
    Texts();
    forall i | 0 <= i < |r.evidence.events|
      ensures Quoted(r.evidence.events[i].eventRef) + Quoted(r.evidence.events[i].ingress) <= 500
    {
      QuotedBound(r.evidence.events[i].eventRef);
      QuotedBound(r.evidence.events[i].ingress);
    }
    EventsAreShort(r.evidence.events, 500);
    QuotedBound(r.binding.session);
    QuotedBound(TOKEN);
    if r.turnKey.Some? {
      QuotedBound(r.turnKey.value);
    }
  }

  // ---------------------------------------------------------------- the records

  lemma BegunAreOk()
    ensures RunOk(JSON, 5, 1, LEFT) && RunOk(JSON, 5, 2, RIGHT)
  {
    hide RequiredText, ValidAgentBinding, PromptDigest, JSON, INGRESS, TOKEN, STATE, Ascii;
    Texts();
    AgentsAreValid();
    ShortIsSmall(LEFT);
    ShortIsSmall(RIGHT);
  }

  lemma HooksBegin()
    ensures NewRun(JSON, 5, 1, LEFT_AGENT, 1, None, LEFT_HOOK, []) == Some(LEFT)
    ensures NewRun(JSON, 5, 2, RIGHT_AGENT, 1, None, RIGHT_HOOK, []) == Some(RIGHT)
  {
    hide PromptDigest, ValidRun, DistinctEvents, JSON, INGRESS, TOKEN, STATE, Ascii;
    BegunAreOk();
    assert forall r: EventReference :: [] + [r] == [r];
  }

  /** One reference, and it is not the capacity reference. */
  lemma FailedShape(r: RunRecord, at: int)
    requires |r.evidence.events| == 1 && |r.evidence.events[0].eventRef| == 1 && r.turnKey.Some? && r.revision == 1 && |CapacityRef(JSON, r)| >= 30
    ensures !r.HasEvent(CapacityRef(JSON, r)) && Failed(JSON, r, at).Some?
    ensures var f := Failed(JSON, r, at).value;
      && f.evidence.events == [r.evidence.events[0], f.evidence.events[1]]
      && f.evidence.events[1].eventRef == CapacityRef(JSON, r) && f.evidence.events[1].ingress == TERMINAL_FAILURE
      && f.evidence.events[1].count == 1 && f.evidence.events[1].firstObservedAt == f.evidence.events[1].lastObservedAt == at
  {
    hide CapacityRef;
  }

  lemma FailedIsOk(id: RunId, r: RunRecord, session: string, turn: string, at: int)
    requires RunOk(JSON, 5, id, r) && r.Active() && r.artifact.None? && r.operationId.None? && at >= r.updatedAt && at >= 0 && r.revision == 1
    requires |r.evidence.events| == 1 && |r.evidence.events[0].eventRef| == 1 && |r.evidence.events[0].ingress| <= 32
    requires r.binding.process.startToken == TOKEN && r.evidence.lastObservedAt.Some?
    requires Printable(session) && Printable(turn) && |session| <= 3 && |turn| <= 3
    requires r.binding.session == Ascii(session) && r.turnKey == Some(Ascii(turn))
    ensures Failed(JSON, r, at).Some?
    ensures var f := Failed(JSON, r, at).value; RunOk(JSON, 5, id, f) && RunReplacement(r, f) && f.Active() && f.artifact.None?
  {
    hide RequiredText, ValidAgentBinding, JSON, INGRESS, TOKEN, STATE, Ascii, CapacityRef, Plain, Printable;
    Texts();
    CapacityRefIsText(r, session, turn);
    PlainAscii(session);
    PlainAscii(turn);
    PlainIsText(CapacityRef(JSON, r));
    FailedShape(r, at);
    var f := Failed(JSON, r, at).value;
    FailureEvents(JSON, r, at);
    ShortIsSmall(f);
  }

  lemma BothFail()
    ensures RunOk(JSON, 5, 1, LEFT_FAILED) && RunReplacement(LEFT, LEFT_FAILED) && LEFT_FAILED.Active() && LEFT_FAILED.artifact.None?
    ensures RunOk(JSON, 5, 2, RIGHT_FAILED) && RunReplacement(RIGHT, RIGHT_FAILED) && RIGHT_FAILED.Active() && RIGHT_FAILED.artifact.None?
    ensures Failed(JSON, LEFT, 25) == Some(LEFT_FAILED) && Failed(JSON, RIGHT, 35) == Some(RIGHT_FAILED)
  {
    hide RunOk, RunReplacement, JSON, INGRESS, TOKEN, STATE, Ascii, CapacityRef, Plain, PromptDigest;
    BegunAreOk();
    Texts();
    PrintableParts();
    FailedIsOk(1, LEFT, "s:t", "u", 25);
    FailedIsOk(2, RIGHT, "s", "t:u", 35);
  }

  lemma Identities()
    ensures LEFT.runId == LEFT_FAILED.runId == 1 && RIGHT.runId == RIGHT_FAILED.runId == 2
    ensures LEFT.binding == LEFT_FAILED.binding == LEFT_AGENT && RIGHT.binding == RIGHT_FAILED.binding == RIGHT_AGENT
    ensures LEFT_AGENT.pane != RIGHT_AGENT.pane
    ensures LEFT.Active() && RIGHT.Active() && LEFT.generation == LEFT_FAILED.generation == RIGHT.generation == RIGHT_FAILED.generation == 5
    ensures LEFT.turnKey.Some? && RIGHT.turnKey.Some? && LEFT.artifact.None? && RIGHT.artifact.None?
    ensures LEFT.operationId.None? && LEFT_FAILED.operationId.None? && RIGHT.operationId.None?
  {
    hide JSON, CapacityRef, Ascii, PromptDigest, INGRESS, TOKEN, STATE;
  }

  lemma SharedTexts()
    ensures CapacityRef(JSON, LEFT) == CapacityRef(JSON, RIGHT) && TurnOf(LEFT) != TurnOf(RIGHT)
    ensures |CapacityRef(JSON, LEFT)| >= 30
    ensures forall e :: LEFT.HasEvent(e) <==> e == [0x70]
    ensures forall e :: RIGHT.HasEvent(e) <==> e == [0x71]
    ensures forall e :: LEFT_FAILED.HasEvent(e) <==> e == [0x70] || e == CapacityRef(JSON, LEFT)
    ensures forall e :: RIGHT_FAILED.HasEvent(e) <==> e == [0x71] || e == CapacityRef(JSON, RIGHT)
    ensures TurnOf(LEFT_FAILED) == TurnOf(LEFT)
  {
    hide JSON, Ascii, CapacityRef, INGRESS, TOKEN, STATE, PromptDigest, Failed, Plain, Printable, ValidRun;
    PrintableParts();
    CapacityRefIsText(LEFT, "s:t", "u");
    CapacityRefsCollide(JSON, LEFT, RIGHT);
    BegunAreOk();
    BothFail();
    OneReference(LEFT, 0x70);
    OneReference(RIGHT, 0x71);
    FailureEvents(JSON, LEFT, 25);
    FailureEvents(JSON, RIGHT, 35);
  }

  lemma OneReference(r: RunRecord, ref: byte)
    requires |r.evidence.events| == 1 && r.evidence.events[0].eventRef == [ref]
    ensures forall e :: r.HasEvent(e) <==> e == [ref]
  {
    forall e
      ensures r.HasEvent(e) <==> e == [ref]
    {
      assert r.evidence.events[0].eventRef == [ref];
    }
  }

  // ---------------------------------------------------------------- the calls

  lemma Fit(a: RunRecord, b: RunRecord)
    requires JSON.runSize(a) <= RUN_RECORD_MAX_BYTES && JSON.runSize(b) <= RUN_RECORD_MAX_BYTES
    ensures RunsFit(JSON, map[1 := a]) && RunsFit(JSON, map[1 := a, 2 := b])
  {
    hide JSON;
    OneFits(1 as RunId, a, JSON.runSize);
    TwoFit(1 as RunId, a, 2, b, JSON.runSize);
  }

  lemma LeftBegins()
    ensures EnrollOutcome(JSON, EMPTY, LEFT_AGENT, 1, None, LEFT_HOOK, 1, []) == Step(Ok(LEFT), AFTER_LEFT)
  {
    hide JSON, NewRun, ValidRun, DistinctEvents, LEFT, LEFT_AGENT, LEFT_HOOK, RunsFit;
    HooksBegin();
    BegunAreOk();
    Identities();
    Fit(LEFT, LEFT);
    assert map[][1 := LEFT] == map[1 := LEFT];
  }

  lemma LeftFails()
    ensures FailOutcome(JSON, AFTER_LEFT, map[LEFT_AGENT := 1], map[LEFT_AGENT.pane := 1], 1, 25) == Step(Ok(LEFT_FAILED), AFTER_LEFT_FAILURE)
  {
    hide JSON, ValidRun, DistinctEvents, LEFT, LEFT_FAILED, LEFT_AGENT, RunsFit, RunReplacement, Failed;
    BothFail();
    Identities();
    BegunAreOk();
    Fit(LEFT_FAILED, LEFT);
    assert AFTER_LEFT.runs[1 := LEFT_FAILED] == AFTER_LEFT_FAILURE.runs;
  }

  lemma RightBegins()
    ensures EnrollOutcome(JSON, AFTER_LEFT_FAILURE, RIGHT_AGENT, 1, None, RIGHT_HOOK, 2, []) == Step(Ok(RIGHT), AFTER_RIGHT)
  {
    hide JSON, NewRun, ValidRun, DistinctEvents, LEFT_FAILED, RIGHT, RIGHT_AGENT, RIGHT_HOOK, RunsFit;
    HooksBegin();
    BegunAreOk();
    BothFail();
    Identities();
    Fit(LEFT_FAILED, RIGHT);
    assert AFTER_LEFT_FAILURE.runs[2 := RIGHT] == AFTER_RIGHT.runs;
  }

  lemma RightFails()
    ensures FailOutcome(JSON, AFTER_RIGHT, map[LEFT_AGENT := 1, RIGHT_AGENT := 2], map[LEFT_AGENT.pane := 1, RIGHT_AGENT.pane := 2], 2, 35)
            == Step(Ok(RIGHT_FAILED), AFTER_RIGHT_FAILURE)
  {
    hide JSON, ValidRun, DistinctEvents, LEFT_FAILED, RIGHT, RIGHT_FAILED, LEFT_AGENT, RIGHT_AGENT, RunsFit, RunReplacement, Failed;
    BothFail();
    BegunAreOk();
    Identities();
    Fit(LEFT_FAILED, RIGHT_FAILED);
    assert AFTER_RIGHT.runs[2 := RIGHT_FAILED] == AFTER_RIGHT_FAILURE.runs;
  }

  // ---------------------------------------------------------------- the histories

  const BEFORE: History :=
    After(After(After(Opened(Genesis(5)), CreateRun(LEFT, LEFT_HOOK)), ReplaceRun(LEFT_FAILED)), CreateRun(RIGHT, RIGHT_HOOK))

  lemma LeftIsLawful()
    ensures LawfulCreate(JSON, EMPTY, LEFT, LEFT_HOOK) && LawfulReplace(JSON, AFTER_LEFT, LEFT_FAILED)
  {
    hide JSON, ValidRun, DistinctEvents, RunsFit, RunReplacement, LEFT_FAILED, PromptDigest, INGRESS, TOKEN, STATE, Ascii;
    BegunAreOk();
    BothFail();
    Identities();
    Fit(LEFT, LEFT);
    Fit(LEFT_FAILED, LEFT);
    assert map[][1 := LEFT] == map[1 := LEFT];
    assert AFTER_LEFT.runs[1 := LEFT_FAILED] == AFTER_LEFT_FAILURE.runs;
  }

  lemma RightIsLawful()
    ensures LawfulCreate(JSON, AFTER_LEFT_FAILURE, RIGHT, RIGHT_HOOK)
  {
    hide JSON, ValidRun, DistinctEvents, RunsFit, LEFT, LEFT_FAILED, PromptDigest, INGRESS, TOKEN, STATE, Ascii, RunRecord.HasEvent, TurnOf, CapacityRef;
    BegunAreOk();
    BothFail();
    Identities();
    SharedTexts();
    Fit(LEFT_FAILED, RIGHT);
    assert AFTER_LEFT_FAILURE.runs[2 := RIGHT] == AFTER_RIGHT.runs;
  }

  lemma BeforeIsLawful()
    ensures BaseHistory(JSON, BEFORE) && Replay(BEFORE).disk == AFTER_RIGHT
  {
    hide JSON, LEFT, LEFT_FAILED, RIGHT, LEFT_HOOK, RIGHT_HOOK, LawfulCreate, LawfulReplace, BaseInv;
    Identities();
    LeftIsLawful();
    RightIsLawful();
    GenesisIsRecoverable(JSON, 5);
    assert map[][1 := LEFT] == map[1 := LEFT];
    var first := After(Opened(Genesis(5)), CreateRun(LEFT, LEFT_HOOK));
    assert BaseHistory(JSON, first) && Replay(first).disk == AFTER_LEFT;
    assert AFTER_LEFT.runs[1 := LEFT_FAILED] == AFTER_LEFT_FAILURE.runs;
    var second := After(first, ReplaceRun(LEFT_FAILED));
    assert BaseHistory(JSON, second) && Replay(second).disk == AFTER_LEFT_FAILURE;
    assert AFTER_LEFT_FAILURE.runs[2 := RIGHT] == AFTER_RIGHT.runs;
  }

  lemma StoredIsReadable()
    ensures Opens(JSON, AFTER_RIGHT_FAILURE)
  {
    hide JSON, ValidRun, DistinctEvents, LEFT_FAILED, RIGHT_FAILED, TotalSize;
    BothFail();
    Fit(LEFT_FAILED, RIGHT_FAILED);
    var d := AFTER_RIGHT_FAILURE;
    assert StagedIds(d.operations) == {} && Cleaned(d) == d;
  }

  lemma IndexingFails(events: map<Text, RunId>, turns: map<TurnKey, RunId>, current: map<AgentBinding, RunId>)
    requires EventsExact(AFTER_RIGHT.runs, events)
    ensures IndexVerdict(AFTER_RIGHT_FAILURE.runs, events, turns, current, RIGHT_FAILED) == Err(Corrupt)
    ensures !EventsUnique(AFTER_RIGHT_FAILURE.runs)
  {
    hide JSON, LEFT_FAILED, RIGHT, RIGHT_FAILED, EventsExact, EventsUnique, IndexVerdict, Failed, CapacityRef, RunRecord.HasEvent, DistinctEvents,
         BaseHistory, BEFORE, ValidRun;
    BeforeIsLawful();
    BaseHistoryKeeps(JSON, BEFORE);
    Identities();
    SharedTexts();
    BegunAreOk();
    BothFail();
    assert AFTER_RIGHT.runs[1].HasEvent(CapacityRef(JSON, AFTER_RIGHT.runs[2]));
    assert !CapacityRefFree(JSON, AFTER_RIGHT.runs, 2);
    DuplicateClashes(JSON, AFTER_RIGHT.runs, events, turns, current, 2, 35);
    DuplicateReference(JSON, AFTER_RIGHT.runs, 2, 35);
    assert AFTER_RIGHT.runs[2 := RIGHT_FAILED] == AFTER_RIGHT_FAILURE.runs;
  }

  /**
   * Session "s:t" fails in turn "u", then session "s" in turn "t:u". Every call succeeds up to the last save;
   * the history is base-lawful up to there; then, whatever exact index the runtime holds, indexing the second
   * failure answers corrupt, and the directory passes every check of opening but the one across runs.
   */
  lemma CollisionInstance(events: map<Text, RunId>, turns: map<TurnKey, RunId>, current: map<AgentBinding, RunId>)
    requires EventsExact(AFTER_RIGHT.runs, events)
    ensures EnrollOutcome(JSON, EMPTY, LEFT_AGENT, 1, None, LEFT_HOOK, 1, []) == Step(Ok(LEFT), AFTER_LEFT)
    ensures FailOutcome(JSON, AFTER_LEFT, map[LEFT_AGENT := 1], map[LEFT_AGENT.pane := 1], 1, 25) == Step(Ok(LEFT_FAILED), AFTER_LEFT_FAILURE)
    ensures EnrollOutcome(JSON, AFTER_LEFT_FAILURE, RIGHT_AGENT, 1, None, RIGHT_HOOK, 2, []) == Step(Ok(RIGHT), AFTER_RIGHT)
    ensures BaseHistory(JSON, BEFORE) && Replay(BEFORE).disk == AFTER_RIGHT
    ensures FailOutcome(JSON, AFTER_RIGHT, map[LEFT_AGENT := 1, RIGHT_AGENT := 2], map[LEFT_AGENT.pane := 1, RIGHT_AGENT.pane := 2], 2, 35)
            == Step(Ok(RIGHT_FAILED), AFTER_RIGHT_FAILURE)
    ensures IndexVerdict(AFTER_RIGHT_FAILURE.runs, events, turns, current, RIGHT_FAILED) == Err(Corrupt)
    ensures Opens(JSON, AFTER_RIGHT_FAILURE) && !EventsUnique(AFTER_RIGHT_FAILURE.runs)
  {
    hide *;
    LeftBegins();
    LeftFails();
    RightBegins();
    BeforeIsLawful();
    RightFails();
    IndexingFails(events, turns, current);
    StoredIsReadable();
  }
}
