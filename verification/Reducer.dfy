/** src/agent_state/reducer.rs: how one provider hook changes one run. */
module Reducer {
  import opened Base
  import opened Records
  import opened Guards

  datatype Disposition = Applied | Duplicate | EvidenceOnly

  /** Each reference of the run occurs once. */
  predicate DistinctEvents(r: RunRecord) {
    forall i, j :: 0 <= i < j < |r.evidence.events| ==> r.evidence.events[i].eventRef != r.evidence.events[j].eventRef
  }

  predicate ObservationMatches(b: AgentBinding, obs: Observation) {
    b.agentKind == obs.provider && b.session == obs.session
  }

  predicate SameTurn(r: RunRecord, obs: Observation) {
    r.turnKey.Some? && obs.turnKey.Some? ==> r.turnKey == obs.turnKey
  }

  function FindEvent(events: seq<EventReference>, e: Text): (i: nat)
    ensures i <= |events|
    ensures i < |events| ==> events[i].eventRef == e
    ensures forall k :: 0 <= k < i ==> events[k].eventRef != e
  {
    if |events| == 0 || events[0].eventRef == e then 0 else
    var i := 1 + FindEvent(events[1..], e);
    assert forall k :: 0 < k < i ==> events[k] == events[1..][k - 1];
    i
  }

  /** The first reference the reducer may give up: one that only updated the prompt. */
  function FindReplaceable(events: seq<EventReference>): (i: nat)
    ensures i <= |events|
    ensures i < |events| ==> events[i].disposition == PromptUpdated
    ensures forall k :: 0 <= k < i ==> events[k].disposition != PromptUpdated
  {
    if |events| == 0 || events[0].disposition == PromptUpdated then 0 else
    var i := 1 + FindReplaceable(events[1..]);
    assert forall k :: 0 < k < i ==> events[k] == events[1..][k - 1];
    i
  }

  /** The references left after making room for one more, or None when there is no room. */
  function MakeRoom(events: seq<EventReference>): (r: Option<seq<EventReference>>)
    ensures |events| < RUN_EVENT_REFERENCE_MAX_COUNT ==> r == Some(events)
  {
    if |events| < RUN_EVENT_REFERENCE_MAX_COUNT then Some(events) else
    var i := FindReplaceable(events);
    if i < |events| then Some(events[..i] + events[i + 1..]) else None
  }

  function Observed(e: Evidence, at: int): Evidence {
    e.(firstObservedAt := Some(if e.firstObservedAt.None? then at else Min(e.firstObservedAt.value, at)),
       lastObservedAt := Some(if e.lastObservedAt.None? then at else Max(e.lastObservedAt.value, at)))
  }

  function AppendReference(r: RunRecord, obs: Observation, why: EventDisposition): Option<RunRecord> {
    match obs.CorrectnessRef()
    case None => Some(r.(evidence := Observed(r.evidence, obs.observedAt)))
    case Some(e) =>
      match MakeRoom(r.evidence.events)
      case None => None
      case Some(kept) =>
        if obs.payload.None? then None else
        var added := EventReference(e, obs.ingress, obs.payload.value, why, RunRevision(r.revision), 1,
                                    obs.observedAt, obs.observedAt);
        Some(r.(evidence := Observed(r.evidence.(events := kept + [added]), obs.observedAt)))
  }

  /** A retry of a reference the run already holds, at index i. */
  function Retry(c: Codec, r: RunRecord, obs: Observation, i: nat): Option<RunRecord>
    requires i < |r.evidence.events|
  {
    var e := r.evidence.events[i];
    if obs.payload != Some(e.payload) || e.count >= U32_MAX || r.revision >= U64_MAX then None else
    var e' := e.(count := e.count + 1, lastObservedAt := Max(e.lastObservedAt, obs.observedAt));
    var r' := r.(evidence := r.evidence.(events := r.evidence.events[i := e']),
                 updatedAt := Max(r.updatedAt, obs.observedAt),
                 revision := r.revision + 1);
    if ValidRun(c, r') then Some(r') else None
  }

  /** The hook's own effect, before its reference is appended. */
  function HookEffect(r: RunRecord, obs: Observation, resolutionId: ResolutionId): Option<RunRecord> {
    match obs.hook
    case SessionStart => None
    case UserPromptSubmit => Some(r)
    case Activity =>
      if r.evidence.activityCount >= U64_MAX then None
      else Some(r.(evidence := r.evidence.(activityCount := r.evidence.activityCount + 1),
                   phase := if r.Active() then Running else r.phase))
    case WaitingHook =>
      if r.evidence.permissionCount >= U64_MAX then None
      else Some(r.(evidence := r.evidence.(permissionCount := r.evidence.permissionCount + 1),
                   phase := if r.Active() then Waiting else r.phase))
    case Stop =>
      if r.outcome == Completed then Some(r)
      else Some(r.(phase := Ended, outcome := Completed,
                   resolution := Some(RunResolution(resolutionId, ProviderCompleted, obs.observedAt, None))))
  }

  function NewEvidence(c: Codec, r: RunRecord, obs: Observation, resolutionId: ResolutionId): Option<RunRecord> {
    match HookEffect(r, obs, resolutionId)
    case None => None
    case Some(r1) =>
      match AppendReference(r1, obs, if obs.hook == UserPromptSubmit then PromptUpdated else HookApplied)
      case None => None
      case Some(r2) =>
        if r2.revision >= U64_MAX then None else
        var r3 := r2.(updatedAt := Max(r2.updatedAt, obs.observedAt), revision := r2.revision + 1);
        if ValidRun(c, r3) then Some(r3) else None
  }

  /** `apply_observation`; `resolutionId` is the random identifier a Stop would draw. */
  function Reduce(c: Codec, r: RunRecord, obs: Observation, resolutionId: ResolutionId)
    : Option<(RunRecord, Disposition)>
  {
    if !ObservationMatches(r.binding, obs) || !SameTurn(r, obs) then None else
    var at := if obs.CorrectnessRef().None? then |r.evidence.events|
              else FindEvent(r.evidence.events, obs.CorrectnessRef().value);
    if at < |r.evidence.events| then
      match Retry(c, r, obs, at)
      case None => None
      case Some(r') => Some((r', Duplicate))
    else
      match NewEvidence(c, r, obs, resolutionId)
      case None => None
      case Some(r') => Some((r', Applied))
  }

  function BlankRun(g: Generation, id: RunId, b: AgentBinding, runSeq: nat, op: Option<OperationId>, obs: Observation)
    : RunRecord
  {
    RunRecord(g, id, runSeq, 1, b, obs.turnKey, op, Running, Unresolved, EMPTY_EVIDENCE, None, None,
              obs.observedAt, obs.observedAt)
  }

  /** `new_run_from_observation`; `id` and `resolutionId` are the random identifiers it draws. */
  function NewRun(c: Codec, g: Generation, id: RunId, b: AgentBinding, runSeq: nat, op: Option<OperationId>,
                  obs: Observation, resolutionId: ResolutionId): Option<RunRecord>
  {
    if !obs.CanStartRun() || (op.Some? && obs.hook != UserPromptSubmit) || !ObservationMatches(b, obs) then None else
    var blank := BlankRun(g, id, b, runSeq, op, obs);
    if obs.hook == UserPromptSubmit then
      match AppendReference(blank, obs, RunCreated)
      case None => None
      case Some(r) => if ValidRun(c, r) then Some(r) else None
    else
      match Reduce(c, blank, obs, resolutionId)
      case None => None
      case Some((r, _)) => Some(r)
  }

  // ---------------------------------------------------------------- in-place form

  /** `append_provider_reference`, step by step on the record it is given. */
  method AppendProviderReference(r: RunRecord, obs: Observation, why: EventDisposition)
    returns (done: bool, r': RunRecord)
    ensures done ==> AppendReference(r, obs, why) == Some(r')
    ensures !done ==> AppendReference(r, obs, why) == None
  {
    r' := r;
    var reference := obs.CorrectnessRef();
    if reference.Some? {
      var events := r'.evidence.events;
      if |events| >= RUN_EVENT_REFERENCE_MAX_COUNT {
        var i := 0;
        while i < |events| && events[i].disposition != PromptUpdated
          invariant i <= |events|
          invariant forall k :: 0 <= k < i ==> events[k].disposition != PromptUpdated
        {
          i := i + 1;
        }
        assert i == FindReplaceable(events);
        if i == |events| {
          return false, r';
        }
        events := events[..i] + events[i + 1..];
      }
      if obs.payload.None? {
        return false, r';
      }
      events := events + [EventReference(reference.value, obs.ingress, obs.payload.value, why,
                                         RunRevision(r'.revision), 1, obs.observedAt, obs.observedAt)];
      r' := r'.(evidence := r'.evidence.(events := events));
    }
    r' := r'.(evidence := Observed(r'.evidence, obs.observedAt));
    done := true;
  }

  /** `apply_observation`, step by step on the record it is given. */
  method ApplyObservation(c: Codec, r: RunRecord, obs: Observation, resolutionId: ResolutionId)
    returns (applied: Option<Disposition>, r': RunRecord)
    ensures applied.Some? ==> Reduce(c, r, obs, resolutionId) == Some((r', applied.value))
    ensures applied.None? ==> Reduce(c, r, obs, resolutionId) == None
  {
    r' := r;
    if !ObservationMatches(r'.binding, obs) || !SameTurn(r', obs) {
      return None, r';
    }
    var reference := obs.CorrectnessRef();
    if reference.Some? {
      var events := r'.evidence.events;
      var i := 0;
      while i < |events| && events[i].eventRef != reference.value
        invariant i <= |events|
        invariant forall k :: 0 <= k < i ==> events[k].eventRef != reference.value
      {
        i := i + 1;
      }
      assert i == FindEvent(events, reference.value);
      if i < |events| {
        if obs.payload != Some(events[i].payload) || events[i].count >= U32_MAX || r'.revision >= U64_MAX {
          return None, r';
        }
        var retried := events[i].(count := events[i].count + 1,
                                  lastObservedAt := Max(events[i].lastObservedAt, obs.observedAt));
        r' := r'.(evidence := r'.evidence.(events := events[i := retried]));
        r' := r'.(updatedAt := Max(r'.updatedAt, obs.observedAt));
        r' := r'.(revision := r'.revision + 1);
        applied := if ValidRun(c, r') then Some(Duplicate) else None;
        return;
      }
    }
    match obs.hook {
      case SessionStart => return None, r';
      case UserPromptSubmit =>
      case Activity =>
        if r'.evidence.activityCount >= U64_MAX { return None, r'; }
        var wasActive := r'.Active();
        r' := r'.(evidence := r'.evidence.(activityCount := r'.evidence.activityCount + 1));
        if wasActive { r' := r'.(phase := Running); }
      case WaitingHook =>
        if r'.evidence.permissionCount >= U64_MAX { return None, r'; }
        var wasActive := r'.Active();
        r' := r'.(evidence := r'.evidence.(permissionCount := r'.evidence.permissionCount + 1));
        if wasActive { r' := r'.(phase := Waiting); }
      case Stop =>
        if r'.outcome == Unresolved {
          r' := r'.(phase := Ended);
          r' := r'.(outcome := Completed);
          r' := r'.(resolution := Some(RunResolution(resolutionId, ProviderCompleted, obs.observedAt, None)));
        }
    }
    assert HookEffect(r, obs, resolutionId) == Some(r');
    var done;
    done, r' := AppendProviderReference(r', obs, if obs.hook == UserPromptSubmit then PromptUpdated else HookApplied);
    if !done || r'.revision >= U64_MAX {
      return None, r';
    }
    r' := r'.(updatedAt := Max(r'.updatedAt, obs.observedAt));
    r' := r'.(revision := r'.revision + 1);
    applied := if ValidRun(c, r') then Some(Applied) else None;
  }

  // ---------------------------------------------------------------- reducer against store guard

  /** The hook needs a seventeenth reference slot, so one reference is given up for it. */
  predicate Evicts(r: RunRecord, obs: Observation) {
    && obs.CorrectnessRef().Some?
    && |r.evidence.events| >= RUN_EVENT_REFERENCE_MAX_COUNT
    && !r.HasEvent(obs.CorrectnessRef().value)
  }

  /** How the reference list changed. */
  datatype EventChange = Same | Retried(at: nat) | Added | Rotated(at: nat)

  predicate Changed(old_: seq<EventReference>, new_: seq<EventReference>, ref: Option<Text>, how: EventChange) {
    match how
    case Same => new_ == old_
    case Retried(i) =>
      && i < |old_| == |new_| && new_ == old_[i := new_[i]]
      && SameEventIdentity(old_[i], new_[i]) && ref == Some(old_[i].eventRef)
    case Added => |new_| == |old_| + 1 && new_[..|old_|] == old_ && ref == Some(new_[|old_|].eventRef)
    case Rotated(i) =>
      && i < |old_| == |new_| && new_[..|old_| - 1] == old_[..i] + old_[i + 1..]
      && ref == Some(new_[|old_| - 1].eventRef)
  }

  lemma AppendChange(r: RunRecord, obs: Observation, why: EventDisposition) returns (how: EventChange)
    requires AppendReference(r, obs, why).Some?
    ensures var r' := AppendReference(r, obs, why).value;
      && Changed(r.evidence.events, r'.evidence.events, obs.CorrectnessRef(), how)
      && r' == r.(evidence := r'.evidence)
      && r'.evidence.(events := r.evidence.events) == Observed(r.evidence, obs.observedAt)
    ensures how.Same? <==> obs.CorrectnessRef().None?
    ensures how.Rotated? <==> obs.CorrectnessRef().Some? && |r.evidence.events| >= RUN_EVENT_REFERENCE_MAX_COUNT
    ensures !how.Retried?
  {
    var events := r.evidence.events;
    var events' := AppendReference(r, obs, why).value.evidence.events;
    if obs.CorrectnessRef().None? {
      return Same;
    } else if |events| < RUN_EVENT_REFERENCE_MAX_COUNT {
      assert events'[..|events|] == events;
      return Added;
    } else {
      var i := FindReplaceable(events);
      assert events'[..|events| - 1] == events[..i] + events[i + 1..];
      return Rotated(i);
    }
  }

  /** Everything one hook can do to a run, in one place. */
  predicate Reduced(r: RunRecord, obs: Observation, r': RunRecord, d: Disposition, how: EventChange) {
    && Changed(r.evidence.events, r'.evidence.events, obs.CorrectnessRef(), how)
    && (how.Rotated? <==> Evicts(r, obs))
    && (how.Same? <==> obs.CorrectnessRef().None?)
    && (how.Added? || how.Rotated? ==> !r.HasEvent(obs.CorrectnessRef().value))
    && (how.Retried? <==> d == Duplicate)
    && d != EvidenceOnly
    && SameRunIdentity(r, r')
    && r'.revision == r.revision + 1 <= U64_MAX
    && r.updatedAt <= r'.updatedAt
    && r'.artifact == r.artifact
    && (r'.Active() ==> r.Active())
    && (r.resolution.Some? ==> r'.resolution == r.resolution && r'.outcome == r.outcome)
    && (obs.hook == Stop && d == Applied ==> r'.outcome == Completed)
    && r.evidence.activityCount <= r'.evidence.activityCount
    && r.evidence.permissionCount <= r'.evidence.permissionCount
    && r.evidence.userInputCount == r'.evidence.userInputCount
    && r.evidence.processAbsenceCount == r'.evidence.processAbsenceCount
    && r.evidence.terminalStillCount == r'.evidence.terminalStillCount
  }

  lemma HookChange(r: RunRecord, obs: Observation, resolutionId: ResolutionId)
    requires HookEffect(r, obs, resolutionId).Some?
    requires r.resolution.Some? ==> r.outcome == Completed
    ensures var r' := HookEffect(r, obs, resolutionId).value;
      && SameRunIdentity(r, r')
      && r'.evidence.events == r.evidence.events
      && r'.revision == r.revision && r'.updatedAt == r.updatedAt && r'.artifact == r.artifact
      && (r'.Active() ==> r.Active())
      && (r.resolution.Some? ==> r'.resolution == r.resolution && r'.outcome == r.outcome)
      && (obs.hook == Stop ==> r'.outcome == Completed)
      && r.evidence.activityCount <= r'.evidence.activityCount
      && r.evidence.permissionCount <= r'.evidence.permissionCount
      && r.evidence.userInputCount == r'.evidence.userInputCount
      && r.evidence.processAbsenceCount == r'.evidence.processAbsenceCount
      && r.evidence.terminalStillCount == r'.evidence.terminalStillCount
  {
  }

  lemma NewEvidenceChange(c: Codec, r: RunRecord, obs: Observation, resolutionId: ResolutionId)
    returns (how: EventChange)
    requires r.resolution.Some? ==> r.outcome == Completed
    requires NewEvidence(c, r, obs, resolutionId).Some?
    requires obs.CorrectnessRef().Some? ==> !r.HasEvent(obs.CorrectnessRef().value)
    ensures Reduced(r, obs, NewEvidence(c, r, obs, resolutionId).value, Applied, how)
    ensures ValidRun(c, NewEvidence(c, r, obs, resolutionId).value)
  {
    HookChange(r, obs, resolutionId);
    var r1 := HookEffect(r, obs, resolutionId).value;
    var why := if obs.hook == UserPromptSubmit then PromptUpdated else HookApplied;
    how := AppendChange(r1, obs, why);
    var r2 := AppendReference(r1, obs, why).value;
    var r3 := r2.(updatedAt := Max(r2.updatedAt, obs.observedAt), revision := r2.revision + 1);
    assert NewEvidence(c, r, obs, resolutionId) == Some(r3);
    assert r3.Active() == r1.Active();
  }

  lemma RetryChange(c: Codec, r: RunRecord, obs: Observation, i: nat)
    requires i < |r.evidence.events| && obs.CorrectnessRef() == Some(r.evidence.events[i].eventRef)
    requires Retry(c, r, obs, i).Some?
    ensures Reduced(r, obs, Retry(c, r, obs, i).value, Duplicate, Retried(i))
    ensures ValidRun(c, Retry(c, r, obs, i).value)
  {
    assert r.HasEvent(r.evidence.events[i].eventRef);
  }

  lemma ReduceChange(c: Codec, r: RunRecord, obs: Observation, resolutionId: ResolutionId) returns (how: EventChange)
    requires r.resolution.Some? ==> r.outcome == Completed
    requires Reduce(c, r, obs, resolutionId).Some?
    ensures var (r', d) := Reduce(c, r, obs, resolutionId).value; Reduced(r, obs, r', d, how) && ValidRun(c, r')
  {
    var at := if obs.CorrectnessRef().None? then |r.evidence.events|
              else FindEvent(r.evidence.events, obs.CorrectnessRef().value);
    if at < |r.evidence.events| {
      RetryChange(c, r, obs, at);
      how := Retried(at);
    } else {
      how := NewEvidenceChange(c, r, obs, resolutionId);
    }
  }

  lemma GuardOnEvents(old_: Evidence, new_: Evidence, ref: Option<Text>, how: EventChange)
    requires Changed(old_.events, new_.events, ref, how)
    requires forall i, j :: 0 <= i < j < |old_.events| ==> old_.events[i].eventRef != old_.events[j].eventRef
    requires how.Rotated? ==> forall i :: 0 <= i < |old_.events| ==> Some(old_.events[i].eventRef) != ref
    requires old_.activityCount <= new_.activityCount && old_.permissionCount <= new_.permissionCount
    requires old_.userInputCount == new_.userInputCount && old_.processAbsenceCount == new_.processAbsenceCount
    requires old_.terminalStillCount == new_.terminalStillCount
    ensures EvidenceReplacement(old_, new_) <==> !how.Rotated?
  {
    match how {
      case Same =>
      case Retried(i) =>
      case Added =>
        assert forall k :: 0 <= k < |old_.events| ==> new_.events[k] == new_.events[..|old_.events|][k];
      case Rotated(i) =>
        var last := |old_.events| - 1;
        assert i < last ==> new_.events[i] == new_.events[..last][i] == old_.events[i + 1];
        assert !SameEventIdentity(old_.events[i], new_.events[i]);
    }
  }

  /**
   * The record the reducer makes of a stored run is accepted by the store's guard
   * exactly when no reference was given up: the rotation at the sixteen-reference
   * cap is computed but can never be persisted.
   */
  lemma ReducerMeetsGuard(c: Codec, r: RunRecord, obs: Observation, resolutionId: ResolutionId)
    requires ValidRun(c, r) && DistinctEvents(r)
    requires Reduce(c, r, obs, resolutionId).Some?
    ensures RunReplacement(r, Reduce(c, r, obs, resolutionId).value.0) <==> !Evicts(r, obs)
  {
    var r' := Reduce(c, r, obs, resolutionId).value.0;
    var how := ReduceChange(c, r, obs, resolutionId);
    forall i | 0 <= i < |r.evidence.events| && how.Rotated?
      ensures Some(r.evidence.events[i].eventRef) != obs.CorrectnessRef()
    {
      assert r.HasEvent(r.evidence.events[i].eventRef);
    }
    GuardOnEvents(r.evidence, r'.evidence, obs.CorrectnessRef(), how);
  }

  /** The references after a change that gave none up: the old ones, plus at most the hook's own. */
  lemma ChangedEvents(r: RunRecord, r': RunRecord, ref: Option<Text>, how: EventChange)
    requires Changed(r.evidence.events, r'.evidence.events, ref, how) && !how.Rotated?
    requires how.Same? ==> ref.None?
    requires how.Added? ==> !r.HasEvent(ref.value)
    requires DistinctEvents(r)
    ensures DistinctEvents(r')
    ensures forall e :: r'.HasEvent(e) <==> r.HasEvent(e) || ref == Some(e)
  {
    var old_ := r.evidence.events;
    var new_ := r'.evidence.events;
    assert forall k :: 0 <= k < |old_| && how.Added? ==> new_[k] == new_[..|old_|][k];
    assert forall k :: 0 <= k < |old_| ==> new_[k].eventRef == old_[k].eventRef;
    forall e
      ensures r'.HasEvent(e) <==> r.HasEvent(e) || ref == Some(e)
    {
      if r.HasEvent(e) {
        var k :| 0 <= k < |old_| && old_[k].eventRef == e;
        assert new_[k].eventRef == e;
      }
      if how.Added? && ref == Some(e) {
        assert new_[|old_|].eventRef == e;
      }
    }
    forall i, j | 0 <= i < j < |new_|
      ensures new_[i].eventRef != new_[j].eventRef
    {
      assert r.HasEvent(old_[i].eventRef);
    }
  }

  /** What each hook means for a run it is newly applied to. */
  lemma HookMeaning(c: Codec, r: RunRecord, obs: Observation, resolutionId: ResolutionId)
    requires ValidRun(c, r) && Reduce(c, r, obs, resolutionId).Some? && Reduce(c, r, obs, resolutionId).value.1 == Applied
    ensures var r' := Reduce(c, r, obs, resolutionId).value.0;
      && (!r.Active() && obs.hook != Stop ==> r'.phase == r.phase && r'.outcome == r.outcome)
      && (r.Active() && obs.hook == Activity ==> r'.phase == Running)
      && (r.Active() && obs.hook == WaitingHook ==> r'.phase == Waiting)
      && r'.evidence.activityCount == r.evidence.activityCount + (if obs.hook == Activity then 1 else 0)
      && r'.evidence.permissionCount == r.evidence.permissionCount + (if obs.hook == WaitingHook then 1 else 0)
      && (obs.hook == Stop && r.resolution.None? ==>
            r'.phase == Ended && r'.resolution == Some(RunResolution(resolutionId, ProviderCompleted, obs.observedAt, None)))
      && r'.evidence.lastObservedAt ==
         (if r.evidence.lastObservedAt.Some? && r.evidence.lastObservedAt.value > obs.observedAt then r.evidence.lastObservedAt else Some(obs.observedAt))
      && r'.evidence.firstObservedAt ==
         (if r.evidence.firstObservedAt.Some? && r.evidence.firstObservedAt.value < obs.observedAt then r.evidence.firstObservedAt else Some(obs.observedAt))
      && (obs.CorrectnessRef().Some? ==>
            && |r'.evidence.events| > 0
            && var last := r'.evidence.events[|r'.evidence.events| - 1];
               && last.eventRef == obs.CorrectnessRef().value && Some(last.payload) == obs.payload
               && (last.disposition == PromptUpdated <==> obs.hook == UserPromptSubmit))
  {
    hide ValidEvidence, ValidArtifact, ValidAgentBinding, ValidResolution;
  }

  /** The reference a hook is remembered by: only prompts and stops are. */
  ghost function Remembered(obs: Observation): Option<Text> {
    if obs.hook != UserPromptSubmit && obs.hook != Stop then None
    else if obs.eventRef.Some? then obs.eventRef else Some(obs.ingress)
  }

  /**
   * What each hook leaves among the references: a prompt or a stop that is known already only counts one more
   * delivery of it, a new one comes last with this run's revision, and any other hook leaves none.
   */
  lemma HookReference(c: Codec, r: RunRecord, obs: Observation, resolutionId: ResolutionId)
    requires ValidRun(c, r) && DistinctEvents(r) && Reduce(c, r, obs, resolutionId).Some?
    ensures var (r', d) := Reduce(c, r, obs, resolutionId).value;
      && r'.revision == r.revision + 1 && r'.updatedAt == (if r.updatedAt < obs.observedAt then obs.observedAt else r.updatedAt)
      && (Remembered(obs).None? ==> d == Applied && r'.evidence.events == r.evidence.events)
      && (Remembered(obs).Some? && r.HasEvent(Remembered(obs).value) ==>
            && d == Duplicate
            && r' == r.(revision := r'.revision, updatedAt := r'.updatedAt, evidence := r.evidence.(events := r'.evidence.events))
            && |r'.evidence.events| == |r.evidence.events|
            && forall i :: 0 <= i < |r.evidence.events| ==>
                 var e, e' := r.evidence.events[i], r'.evidence.events[i];
                 if Some(e.eventRef) == Remembered(obs) then
                   && obs.payload == Some(e.payload)
                   && e' == e.(count := e.count + 1, lastObservedAt := if e.lastObservedAt < obs.observedAt then obs.observedAt else e.lastObservedAt)
                 else e' == e)
      && (Remembered(obs).Some? && !r.HasEvent(Remembered(obs).value) ==>
            && d == Applied && obs.payload.Some? && |r'.evidence.events| > 0
            && r'.evidence.events[|r'.evidence.events| - 1] ==
               EventReference(Remembered(obs).value, obs.ingress, obs.payload.value, if obs.hook == UserPromptSubmit then PromptUpdated else HookApplied,
                              RunRevision(r.revision), 1, obs.observedAt, obs.observedAt)
            && (|r.evidence.events| < 16 ==> r'.evidence.events[..|r'.evidence.events| - 1] == r.evidence.events))
  {
    hide ValidEvidence, ValidArtifact, ValidAgentBinding, ValidResolution;
    assert Remembered(obs) == obs.CorrectnessRef();
    if Remembered(obs).Some? {
      var at := FindEvent(r.evidence.events, Remembered(obs).value);
      if at < |r.evidence.events| {
        assert r.HasEvent(Remembered(obs).value);
        RetryChange(c, r, obs, at);
      }
    }
  }

  /** A hook of another agent, session or turn, the start of a session, and a known reference with another payload are refused. */
  lemma HookRefusals(c: Codec, r: RunRecord, obs: Observation, resolutionId: ResolutionId)
    requires DistinctEvents(r)
    requires || obs.provider != r.binding.agentKind || obs.session != r.binding.session
             || (r.turnKey.Some? && obs.turnKey.Some? && r.turnKey.value != obs.turnKey.value)
             || (obs.hook == SessionStart)
             || (Remembered(obs).Some? && exists i :: 0 <= i < |r.evidence.events| && r.evidence.events[i].eventRef == Remembered(obs).value
                                                      && obs.payload != Some(r.evidence.events[i].payload))
    ensures Reduce(c, r, obs, resolutionId).None?
  {
    assert Remembered(obs) == obs.CorrectnessRef();
  }

  /** What starts a run, and what the new run is. */
  lemma HookStarts(c: Codec, g: Generation, id: RunId, b: AgentBinding, runSeq: nat, op: Option<OperationId>, obs: Observation, resolutionId: ResolutionId)
    requires NewRun(c, g, id, b, runSeq, op, obs, resolutionId).Some?
    ensures obs.hook == UserPromptSubmit || (obs.provider == Ascii("codex") && obs.turnKey.Some? && op.None? && (obs.hook == Activity || obs.hook == WaitingHook))
    ensures b.agentKind == obs.provider && b.session == obs.session
    ensures var r := NewRun(c, g, id, b, runSeq, op, obs, resolutionId).value;
      && r.turnKey == obs.turnKey && r.outcome == Unresolved && r.phase == (if obs.hook == WaitingHook then Waiting else Running)
      && r.revision == (if obs.hook == UserPromptSubmit then 1 else 2)
      && (obs.hook == UserPromptSubmit ==>
            && obs.payload.Some?
            && r.evidence.events == [EventReference(if obs.eventRef.Some? then obs.eventRef.value else obs.ingress, obs.ingress, obs.payload.value,
                                                    RunCreated, RunRevision(1), 1, obs.observedAt, obs.observedAt)])
      && (obs.hook != UserPromptSubmit ==> r.evidence.events == [])
  {
    hide ValidEvidence, ValidArtifact, ValidAgentBinding, ValidResolution;
    assert forall e: EventReference :: [] + [e] == [e];
  }
}
