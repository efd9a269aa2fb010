/** `index_run` of src/agent_state/runtime.rs: what indexing one run does to the run indexes. */
module RunIndex {
  import opened Base
  import opened Records
  import opened Guards
  import opened Reducer
  import opened Regions
  import opened Protocol
  import opened Indexes

  const EVENT_INDEX_LIMIT: nat := RUN_STORE_MAX_RECORDS * RUN_EVENT_REFERENCE_MAX_COUNT

  function RefSet(refs: seq<EventReference>): set<Text> {
    set i | 0 <= i < |refs| :: refs[i].eventRef
  }

  lemma RefSetStep(refs: seq<EventReference>)
    requires refs != []
    ensures RefSet(refs) == RefSet(refs[..|refs| - 1]) + {refs[|refs| - 1].eventRef}
  {
    var front := refs[..|refs| - 1];
    assert forall i :: 0 <= i < |front| ==> front[i] == refs[i];
    forall e | e in RefSet(refs)
      ensures e in RefSet(front) + {refs[|refs| - 1].eventRef}
    {
      var i :| 0 <= i < |refs| && refs[i].eventRef == e;
      assert i < |front| ==> front[i].eventRef == e;
    }
  }

  function Refs(r: RunRecord): set<Text> {
    RefSet(r.evidence.events)
  }

  lemma RefsAreEvents(r: RunRecord)
    ensures forall e :: e in Refs(r) <==> r.HasEvent(e)
  {
  }

  // ---------------------------------------------------------------- the new index values

  /** References the run no longer holds are forgotten first. */
  function EventsKept(events: map<Text, RunId>, r: RunRecord): map<Text, RunId> {
    map e | e in events && (events[e] != r.runId || e in Refs(r)) :: events[e]
  }

  function EventsAfter(events: map<Text, RunId>, r: RunRecord): map<Text, RunId> {
    EventsKept(events, r) + map e | e in Refs(r) :: r.runId
  }

  function TurnsAfter(turns: map<TurnKey, RunId>, r: RunRecord): map<TurnKey, RunId> {
    if TurnOf(r).None? then turns else turns[TurnOf(r).value := r.runId]
  }

  predicate ReplacesCurrent(runs: Runs, current: map<AgentBinding, RunId>, r: RunRecord) {
    || r.binding !in current
    || current[r.binding] !in runs
    || current[r.binding] == r.runId
    || runs[current[r.binding]].runSeq < r.runSeq
  }

  function CurrentAfter(runs: Runs, current: map<AgentBinding, RunId>, r: RunRecord): map<AgentBinding, RunId> {
    if ReplacesCurrent(runs, current, r) then current[r.binding := r.runId] else current
  }

  /** The order that decides a pane's current run: epoch, sequence, last update, identifier. */
  predicate NotLater(a: RunRecord, b: RunRecord) {
    || a.binding.agentEpoch < b.binding.agentEpoch
    || (a.binding.agentEpoch == b.binding.agentEpoch
        && (|| a.runSeq < b.runSeq
            || (a.runSeq == b.runSeq
                && (a.updatedAt < b.updatedAt || (a.updatedAt == b.updatedAt && a.runId <= b.runId)))))
  }

  predicate ReplacesPane(runs: Runs, panes: map<PaneInstance, RunId>, r: RunRecord) {
    r.binding.pane !in panes || panes[r.binding.pane] !in runs || NotLater(runs[panes[r.binding.pane]], r)
  }

  function PanesAfter(runs: Runs, current: map<AgentBinding, RunId>, panes: map<PaneInstance, RunId>, r: RunRecord)
    : map<PaneInstance, RunId>
  {
    if ReplacesCurrent(runs, current, r) && ReplacesPane(runs, panes, r) then panes[r.binding.pane := r.runId] else panes
  }

  /** A run takes over as its binding's current one unless another run of it, numbered at least as high, is. */
  ghost predicate TakesOver(runs: Runs, current: map<AgentBinding, RunId>, r: RunRecord) {
    r.binding in current && current[r.binding] in runs && current[r.binding] != r.runId ==> runs[current[r.binding]].runSeq < r.runSeq
  }

  /** Then its pane shows it unless it shows a run of a later epoch, or of the same one with a later number, update or identifier. */
  ghost predicate ShowsUp(runs: Runs, panes: map<PaneInstance, RunId>, r: RunRecord) {
    r.binding.pane in panes && panes[r.binding.pane] in runs ==>
      var shown := runs[panes[r.binding.pane]];
      || shown.binding.agentEpoch < r.binding.agentEpoch
      || (shown.binding.agentEpoch == r.binding.agentEpoch
          && (|| shown.runSeq < r.runSeq
              || (shown.runSeq == r.runSeq && (shown.updatedAt < r.updatedAt || (shown.updatedAt == r.updatedAt && shown.runId <= r.runId)))))
  }

  lemma AfterInFields(runs: Runs, current: map<AgentBinding, RunId>, panes: map<PaneInstance, RunId>, r: RunRecord)
    ensures CurrentAfter(runs, current, r) == if TakesOver(runs, current, r) then current[r.binding := r.runId] else current
    ensures PanesAfter(runs, current, panes, r) ==
            if TakesOver(runs, current, r) && ShowsUp(runs, panes, r) then panes[r.binding.pane := r.runId] else panes
  {
  }

  // ---------------------------------------------------------------- exactness is kept

  /** The indexes know `scope`: part of the stored runs, with at most this run in an earlier version. */
  ghost predicate InScope(runs: Runs, scope: Runs, r: RunRecord) {
    && r.runId in runs && runs[r.runId] == r
    && (forall id :: id in scope ==> id in runs && (id != r.runId ==> scope[id] == runs[id]))
    && (r.runId in scope ==> SameRunIdentity(scope[r.runId], r) && (r.Active() ==> scope[r.runId].Active()))
  }

  lemma ScopeAfterSave(runs: Runs, r: RunRecord)
    requires r.runId in runs ==> SameRunIdentity(runs[r.runId], r) && (r.Active() ==> runs[r.runId].Active())
    ensures InScope(runs[r.runId := r], runs, r)
    ensures runs[r.runId := r] == runs[r.runId := r][r.runId := r]
  {
  }

  lemma OneReplaced(runs: Runs, r: RunRecord, events: map<Text, RunId>, turns: map<TurnKey, RunId>,
                    current: map<AgentBinding, RunId>, panes: map<PaneInstance, RunId>)
    requires EventsExact(runs, events) && TurnsExact(runs, turns) && CurrentExact(runs, current) && PanesExact(runs, panes)
    requires r.runId in runs && SameRunIdentity(runs[r.runId], r) && Refs(r) == Refs(runs[r.runId])
    requires r.Active() ==> runs[r.runId].Active()
    ensures EventsExact(runs[r.runId := r], events) && TurnsExact(runs[r.runId := r], turns)
    ensures CurrentExact(runs[r.runId := r], current) && PanesExact(runs[r.runId := r], panes)
  {
    hide EventsExact, TurnsExact, CurrentExact, PanesExact, Refs;
    IndexesSurvive(runs, runs[r.runId := r], events, turns, current, panes);
  }

  lemma ScopeIsStored(runs: Runs, scope: Runs, r: RunRecord)
    requires InScope(runs, scope, r)
    ensures r.runId in runs && runs[r.runId] == r
  {
  }

  /** In a directory without clashes the references of a run are nobody else's. */
  lemma ReferencesAreOwn(runs: Runs, scope: Runs, events: map<Text, RunId>, r: RunRecord, e: Text)
    requires InScope(runs, scope, r) && EventsUnique(runs) && EventsExact(scope, events) && r.HasEvent(e)
    ensures e in events ==> events[e] == r.runId
    ensures forall id :: id in scope && scope[id].HasEvent(e) ==> id == r.runId
  {
    hide RunRecord.HasEvent;
    assert runs[r.runId].HasEvent(e);
    if e in events {
      assert scope[events[e]].HasEvent(e);
    }
  }

  lemma EventsStillHeld(runs: Runs, scope: Runs, events: map<Text, RunId>, r: RunRecord, id: RunId, e: Text)
    requires InScope(runs, scope, r) && EventsUnique(runs) && EventsExact(scope, events)
    requires id in scope[r.runId := r] && scope[r.runId := r][id].HasEvent(e)
    ensures e in EventsAfter(events, r) && EventsAfter(events, r)[e] == id
  {
    hide Refs, RunRecord.HasEvent;
    RefsAreEvents(r);
    if id != r.runId && r.HasEvent(e) {
      ReferencesAreOwn(runs, scope, events, r, e);
    }
  }

  lemma EventsReindexed(runs: Runs, scope: Runs, events: map<Text, RunId>, r: RunRecord)
    requires InScope(runs, scope, r) && EventsUnique(runs) && EventsExact(scope, events)
    ensures EventsExact(scope[r.runId := r], EventsAfter(events, r))
    ensures forall e :: e in Refs(r) && e in EventsKept(events, r) ==> EventsKept(events, r)[e] == r.runId
  {
    hide Refs, RunRecord.HasEvent, InScope, EventsUnique;
    RefsAreEvents(r);
    forall e | e in Refs(r) && e in EventsKept(events, r)
      ensures EventsKept(events, r)[e] == r.runId
    {
      ReferencesAreOwn(runs, scope, events, r, e);
    }
    var scope' := scope[r.runId := r];
    forall id, e | id in scope' && scope'[id].HasEvent(e)
      ensures e in EventsAfter(events, r) && EventsAfter(events, r)[e] == id
    {
      EventsStillHeld(runs, scope, events, r, id, e);
    }
  }

  lemma TurnsReindexed(runs: Runs, scope: Runs, turns: map<TurnKey, RunId>, r: RunRecord)
    requires InScope(runs, scope, r) && TurnsUnique(runs) && TurnsExact(scope, turns)
    ensures TurnsExact(scope[r.runId := r], TurnsAfter(turns, r))
    ensures TurnOf(r).Some? && TurnOf(r).value in turns ==> turns[TurnOf(r).value] == r.runId
  {
    assert r.runId in scope ==> TurnOf(scope[r.runId]) == TurnOf(r);
    var scope' := scope[r.runId := r];
    forall id | id in scope' && TurnOf(scope'[id]).Some?
      ensures TurnOf(scope'[id]).value in TurnsAfter(turns, r) && TurnsAfter(turns, r)[TurnOf(scope'[id]).value] == id
    {
      if id != r.runId {
        assert TurnOf(runs[id]) == TurnOf(scope'[id]);
      }
    }
  }

  lemma CurrentReindexed(runs: Runs, scope: Runs, current: map<AgentBinding, RunId>, r: RunRecord)
    requires InScope(runs, scope, r) && SequencesUnique(runs) && ActiveNewest(runs) && CurrentExact(scope, current)
    ensures CurrentExact(scope[r.runId := r], CurrentAfter(runs, current, r))
    ensures r.binding in current && runs[current[r.binding]].runSeq == r.runSeq ==> current[r.binding] == r.runId
  {
    hide RunRecord.Active;
    var scope' := scope[r.runId := r];
    var current' := CurrentAfter(runs, current, r);
    if r.binding in current {
      var other := current[r.binding];
      assert runs[other].binding == r.binding;
    }
    forall id | id in scope' && scope'[id].Active()
      ensures scope'[id].binding in current' && current'[scope'[id].binding] == id
    {
      assert runs[id].Active();
      if id != r.runId {
        assert scope[id].Active();
      }
    }
  }

  lemma PanesReindexed(runs: Runs, scope: Runs, current: map<AgentBinding, RunId>, panes: map<PaneInstance, RunId>, r: RunRecord)
    requires InScope(runs, scope, r) && PanesExact(scope, panes)
    ensures PanesExact(scope[r.runId := r], PanesAfter(runs, current, panes, r))
  {
  }

  /** Replacing a run without touching what is indexed leaves every run index exact. */
  lemma IndexesSurvive(runs: Runs, runs': Runs, events: map<Text, RunId>, turns: map<TurnKey, RunId>,
                       current: map<AgentBinding, RunId>, panes: map<PaneInstance, RunId>)
    requires EventsExact(runs, events) && TurnsExact(runs, turns) && CurrentExact(runs, current) && PanesExact(runs, panes)
    requires runs'.Keys == runs.Keys
    requires forall id :: id in runs ==>
               && SameRunIdentity(runs[id], runs'[id])
               && Refs(runs'[id]) == Refs(runs[id])
               && (runs'[id].Active() ==> runs[id].Active())
    ensures EventsExact(runs', events) && TurnsExact(runs', turns) && CurrentExact(runs', current) && PanesExact(runs', panes)
  {
    forall id | id in runs
      ensures forall e :: runs[id].HasEvent(e) <==> runs'[id].HasEvent(e)
      ensures TurnOf(runs'[id]) == TurnOf(runs[id])
    {
      RefsAreEvents(runs[id]);
      RefsAreEvents(runs'[id]);
    }
  }

  // ---------------------------------------------------------------- the global bound never bites

  lemma {:induction false} RefsCount(refs: seq<EventReference>)
    ensures |RefSet(refs)| <= |refs|
  {
    if refs != [] {
      RefsCount(refs[..|refs| - 1]);
      RefSetStep(refs);
    }
  }

  lemma {:induction false} ReferencesBounded(scope: Runs, refs: set<Text>)
    requires forall id :: id in scope ==> |scope[id].evidence.events| <= RUN_EVENT_REFERENCE_MAX_COUNT
    requires forall e :: e in refs ==> exists id :: id in scope && e in Refs(scope[id])
    ensures |refs| <= |scope| * RUN_EVENT_REFERENCE_MAX_COUNT
    decreases |scope|
  {
    if scope == map[] {
      assert refs == {};
    } else {
      var id :| id in scope;
      var mine := Refs(scope[id]);
      RefsCount(scope[id].evidence.events);
      var rest := scope - {id};
      forall e | e in refs - mine
        ensures exists k :: k in rest && e in Refs(rest[k])
      {
        var k :| k in scope && e in Refs(scope[k]);
        assert k in rest && rest[k] == scope[k];
      }
      assert scope.Keys == rest.Keys + {id};
      ReferencesBounded(rest, refs - mine);
      CardOfPart(mine, refs * mine);
      assert refs == (refs - mine) + (refs * mine);
    }
  }

  lemma EventsBounded(scope: Runs, events: map<Text, RunId>)
    requires EventsExact(scope, events) && |scope| <= RUN_STORE_MAX_RECORDS
    requires forall id :: id in scope ==> |scope[id].evidence.events| <= RUN_EVENT_REFERENCE_MAX_COUNT
    ensures |events| <= EVENT_INDEX_LIMIT
  {
    forall e | e in events
      ensures exists id :: id in scope && e in Refs(scope[id])
    {
      RefsAreEvents(scope[events[e]]);
    }
    ReferencesBounded(scope, events.Keys);
    assert |events.Keys| == |events|;
  }

  /** How many of the references are not indexed yet. */
  function CountNew(refs: seq<EventReference>, events: map<Text, RunId>): nat {
    if refs == [] then 0
    else CountNew(refs[..|refs| - 1], events) + (if refs[|refs| - 1].eventRef in events then 0 else 1)
  }

  lemma {:induction false} CountNewIsExact(refs: seq<EventReference>, events: map<Text, RunId>)
    requires forall i, j :: 0 <= i < j < |refs| ==> refs[i].eventRef != refs[j].eventRef
    ensures |events.Keys + RefSet(refs)| == |events| + CountNew(refs, events)
  {
    hide RefSet;
    if refs == [] {
      NoRefs();
      assert events.Keys + RefSet(refs) == events.Keys;
    } else {
      var front, last := refs[..|refs| - 1], refs[|refs| - 1].eventRef;
      CountNewIsExact(front, events);
      RefSetStep(refs);
      LastIsNew(refs);
      UnionOfThree(events.Keys, RefSet(front), {last});
      PlusOne(events.Keys + RefSet(front), last);
    }
  }

  lemma UnionOfThree(a: set<Text>, b: set<Text>, c: set<Text>)
    ensures a + (b + c) == a + b + c
  {
  }

  lemma NoRefs()
    ensures RefSet([]) == {}
  {
  }

  lemma LastIsNew(refs: seq<EventReference>)
    requires refs != [] && forall i, j :: 0 <= i < j < |refs| ==> refs[i].eventRef != refs[j].eventRef
    ensures refs[|refs| - 1].eventRef !in RefSet(refs[..|refs| - 1])
  {
  }

  lemma PlusOne(s: set<Text>, e: Text)
    ensures |s + {e}| == |s| + (if e in s then 0 else 1)
  {
    if e in s {
      assert s + {e} == s;
    }
  }

  lemma KeysAfter(events: map<Text, RunId>, r: RunRecord)
    ensures |EventsAfter(events, r)| == |EventsKept(events, r).Keys + RefSet(r.evidence.events)|
  {
    hide EventsKept, RefSet;
    assert EventsAfter(events, r).Keys == EventsKept(events, r).Keys + RefSet(r.evidence.events);
    assert |EventsAfter(events, r).Keys| == |EventsAfter(events, r)|;
  }

  lemma RoomForEvents(runs: Runs, scope: Runs, events: map<Text, RunId>, r: RunRecord)
    requires InScope(runs, scope, r) && |runs| <= RUN_STORE_MAX_RECORDS && DistinctEvents(r)
    requires forall id :: id in runs ==> |runs[id].evidence.events| <= RUN_EVENT_REFERENCE_MAX_COUNT
    requires EventsExact(scope[r.runId := r], EventsAfter(events, r))
    ensures |EventsKept(events, r)| + CountNew(r.evidence.events, EventsKept(events, r)) <= EVENT_INDEX_LIMIT
  {
    hide EventsExact, CountNew, RefSet, SameRunIdentity, EventsAfter, EventsKept;
    var scope' := scope[r.runId := r];
    CountNewIsExact(r.evidence.events, EventsKept(events, r));
    KeysAfter(events, r);
    CardOfPart(runs.Keys, scope'.Keys);
    EventsBounded(scope', EventsAfter(events, r));
  }

  // ---------------------------------------------------------------- forgetting removed runs

  function Retained<K>(index: map<K, RunId>, gone: set<RunId>): map<K, RunId> {
    map k | k in index && index[k] !in gone :: index[k]
  }

  lemma IndexesAfterRemoval(runs: Runs, gone: set<RunId>, events: map<Text, RunId>, turns: map<TurnKey, RunId>,
                            current: map<AgentBinding, RunId>, panes: map<PaneInstance, RunId>)
    requires EventsExact(runs, events) && TurnsExact(runs, turns) && CurrentExact(runs, current) && PanesExact(runs, panes)
    ensures EventsExact(runs - gone, Retained(events, gone)) && TurnsExact(runs - gone, Retained(turns, gone))
    ensures CurrentExact(runs - gone, Retained(current, gone)) && PanesExact(runs - gone, Retained(panes, gone))
  {
  }

  // ---------------------------------------------------------------- refusals

  /** Two runs of one binding with the same sequence, one turn of two runs, or one reference of two runs. */
  predicate Clash(runs: Runs, events: map<Text, RunId>, turns: map<TurnKey, RunId>, current: map<AgentBinding, RunId>, r: RunRecord) {
    || (r.binding in current && current[r.binding] in runs && runs[current[r.binding]].runSeq == r.runSeq && current[r.binding] != r.runId)
    || (TurnOf(r).Some? && TurnOf(r).value in turns && turns[TurnOf(r).value] != r.runId)
    || exists e :: e in Refs(r) && e in events && events[e] != r.runId
  }

  /** What `index_run` answers, on any directory and any indexes. */
  function IndexVerdict(runs: Runs, events: map<Text, RunId>, turns: map<TurnKey, RunId>, current: map<AgentBinding, RunId>, r: RunRecord): Result<()> {
    var kept := EventsKept(events, r);
    if Clash(runs, kept, turns, current, r) then Err(Corrupt)
    else if |kept| + CountNew(r.evidence.events, kept) > EVENT_INDEX_LIMIT then Err(Capacity)
    else Ok(())
  }

  /** Another run is known under its number in the binding, its turn, or one of its references. */
  ghost predicate KnownElsewhere(runs: Runs, events: map<Text, RunId>, turns: map<TurnKey, RunId>, current: map<AgentBinding, RunId>, r: RunRecord) {
    || (r.binding in current && current[r.binding] in runs && current[r.binding] != r.runId && runs[current[r.binding]].runSeq == r.runSeq)
    || (r.turnKey.Some? && TurnKey(r.binding.agentKind, r.binding.session, r.turnKey.value) in turns
        && turns[TurnKey(r.binding.agentKind, r.binding.session, r.turnKey.value)] != r.runId)
    || exists i :: 0 <= i < |r.evidence.events| && r.evidence.events[i].eventRef in events && events[r.evidence.events[i].eventRef] != r.runId
  }

  lemma CorruptIsKnownElsewhere(runs: Runs, events: map<Text, RunId>, turns: map<TurnKey, RunId>, current: map<AgentBinding, RunId>, r: RunRecord)
    ensures IndexVerdict(runs, events, turns, current, r) == Err(Corrupt) <==> KnownElsewhere(runs, events, turns, current, r)
  {
    hide CountNew;
    var kept := EventsKept(events, r);
    assert (exists e :: e in Refs(r) && e in kept && kept[e] != r.runId) <==>
           (exists i :: 0 <= i < |r.evidence.events| && r.evidence.events[i].eventRef in events && events[r.evidence.events[i].eventRef] != r.runId) by {
      if i :| 0 <= i < |r.evidence.events| && r.evidence.events[i].eventRef in events && events[r.evidence.events[i].eventRef] != r.runId {
        assert r.evidence.events[i].eventRef in Refs(r) && r.evidence.events[i].eventRef in kept;
      }
    }
  }

  lemma KeptTwice(events: map<Text, RunId>, r: RunRecord)
    ensures EventsAfter(EventsKept(events, r), r) == EventsAfter(events, r)
  {
    hide Refs;
    assert EventsKept(EventsKept(events, r), r) == EventsKept(events, r);
  }

  /** Scanning one more run without a clash keeps the event and turn indexes exact, on any directory. */
  lemma ScanRun(scope: Runs, events: map<Text, RunId>, turns: map<TurnKey, RunId>, r: RunRecord)
    requires r.runId !in scope && EventsExact(scope, events) && TurnsExact(scope, turns)
    requires forall e :: e in Refs(r) && e in EventsKept(events, r) ==> EventsKept(events, r)[e] == r.runId
    requires TurnOf(r).Some? && TurnOf(r).value in turns ==> turns[TurnOf(r).value] == r.runId
    ensures EventsExact(scope[r.runId := r], EventsAfter(events, r)) && TurnsExact(scope[r.runId := r], TurnsAfter(turns, r))
  {
    hide *;
    ScanEvents(scope, events, r);
    ScanTurns(scope, turns, r);
  }

  lemma ScanTurns(scope: Runs, turns: map<TurnKey, RunId>, r: RunRecord)
    requires r.runId !in scope && TurnsExact(scope, turns)
    requires TurnOf(r).Some? && TurnOf(r).value in turns ==> turns[TurnOf(r).value] == r.runId
    ensures TurnsExact(scope[r.runId := r], TurnsAfter(turns, r))
  {
    hide TurnOf;
    assert forall t :: t in turns ==> turns[t] != r.runId;
  }

  lemma ScanEvents(scope: Runs, events: map<Text, RunId>, r: RunRecord)
    requires r.runId !in scope && EventsExact(scope, events)
    requires forall e :: e in Refs(r) && e in EventsKept(events, r) ==> EventsKept(events, r)[e] == r.runId
    ensures EventsExact(scope[r.runId := r], EventsAfter(events, r))
    ensures EventsKept(events, r) == events
  {
    hide Refs, RunRecord.HasEvent;
    RefsAreEvents(r);
    assert forall e :: e in events ==> events[e] != r.runId;
    assert forall e :: e in Refs(r) ==> e !in events;
  }

  /** While fewer runs than the store may hold are indexed, the bound of the event index leaves room for the next one. */
  lemma ScanHasRoom(scope: Runs, events: map<Text, RunId>, r: RunRecord)
    requires r.runId !in scope && EventsExact(scope, events) && |scope| < RUN_STORE_MAX_RECORDS
    requires forall id :: id in scope ==> |scope[id].evidence.events| <= RUN_EVENT_REFERENCE_MAX_COUNT
    requires |r.evidence.events| <= RUN_EVENT_REFERENCE_MAX_COUNT
    ensures |EventsKept(events, r)| + CountNew(r.evidence.events, EventsKept(events, r)) <= EVENT_INDEX_LIMIT
  {
    KeptIsPart(events, r);
    CountNewIsSmall(r.evidence.events, EventsKept(events, r));
    hide EventsKept, CountNew;
    FewEvents(scope, events);
  }

  lemma KeptIsPart(events: map<Text, RunId>, r: RunRecord)
    ensures |EventsKept(events, r)| <= |events|
  {
    CardOfPart(events.Keys, EventsKept(events, r).Keys);
  }

  lemma {:induction false} CountNewIsSmall(refs: seq<EventReference>, events: map<Text, RunId>)
    ensures CountNew(refs, events) <= |refs|
  {
    if refs != [] {
      CountNewIsSmall(refs[..|refs| - 1], events);
    }
  }

  lemma FewEvents(scope: Runs, events: map<Text, RunId>)
    requires EventsExact(scope, events) && |scope| < RUN_STORE_MAX_RECORDS
    requires forall id :: id in scope ==> |scope[id].evidence.events| <= RUN_EVENT_REFERENCE_MAX_COUNT
    ensures |events| + RUN_EVENT_REFERENCE_MAX_COUNT <= EVENT_INDEX_LIMIT
  {
    forall e | e in events
      ensures exists id :: id in scope && e in Refs(scope[id])
    {
      RefsAreEvents(scope[events[e]]);
    }
    ReferencesBounded(scope, events.Keys);
    assert |events.Keys| == |events|;
  }

  /** All run indexes at once: exact for `scope` before, exact with the run afterwards, and nothing clashes. */
  lemma IndexingIsSound(runs: Runs, scope: Runs, events: map<Text, RunId>, turns: map<TurnKey, RunId>,
                        current: map<AgentBinding, RunId>, panes: map<PaneInstance, RunId>, r: RunRecord)
    requires InScope(runs, scope, r) && DistinctEvents(r) && |runs| <= RUN_STORE_MAX_RECORDS
    requires forall id :: id in runs ==> |runs[id].evidence.events| <= RUN_EVENT_REFERENCE_MAX_COUNT
    requires EventsUnique(runs) && TurnsUnique(runs) && SequencesUnique(runs) && ActiveNewest(runs)
    requires EventsExact(scope, events) && TurnsExact(scope, turns) && CurrentExact(scope, current) && PanesExact(scope, panes)
    ensures EventsExact(scope[r.runId := r], EventsAfter(events, r)) && TurnsExact(scope[r.runId := r], TurnsAfter(turns, r))
    ensures CurrentExact(scope[r.runId := r], CurrentAfter(runs, current, r))
    ensures PanesExact(scope[r.runId := r], PanesAfter(runs, current, panes, r))
    ensures !Clash(runs, EventsKept(events, r), turns, current, r)
    ensures |EventsKept(events, r)| + CountNew(r.evidence.events, EventsKept(events, r)) <= EVENT_INDEX_LIMIT
    ensures EventsAfter(EventsKept(events, r), r) == EventsAfter(events, r)
  {
    hide EventsUnique, TurnsUnique, SequencesUnique, ActiveNewest, EventsExact, TurnsExact, CurrentExact, PanesExact, InScope,
         CurrentAfter, PanesAfter, TurnsAfter, Refs, CountNew, DistinctEvents;
    EventsReindexed(runs, scope, events, r);
    TurnsReindexed(runs, scope, turns, r);
    CurrentReindexed(runs, scope, current, r);
    PanesReindexed(runs, scope, current, panes, r);
    RoomForEvents(runs, scope, events, r);
    assert EventsKept(EventsKept(events, r), r) == EventsKept(events, r);
  }

  // ---------------------------------------------------------------- rebuilding picks the newest runs

  ghost predicate CurrentNewest(scope: Runs, current: map<AgentBinding, RunId>) {
    && (forall b :: b in current ==> current[b] in scope && scope[current[b]].binding == b)
    && (forall id :: id in scope ==> scope[id].binding in current && scope[id].runSeq <= scope[current[scope[id].binding]].runSeq)
  }

  /** Per pane, the run with the greatest (epoch, sequence, last update, identifier). */
  ghost predicate PanesNewest(scope: Runs, panes: map<PaneInstance, RunId>) {
    && (forall p :: p in panes ==> panes[p] in scope && scope[panes[p]].binding.pane == p)
    && (forall id :: id in scope ==> scope[id].binding.pane in panes && NotLater(scope[id], scope[panes[scope[id].binding.pane]]))
  }

  /** Every pane with stored runs shows one of them, and none of the others has a later epoch, sequence, update or identifier. */
  ghost predicate ShowsLatest(runs: Runs, panes: map<PaneInstance, RunId>) {
    && (forall p :: p in panes ==> panes[p] in runs && runs[panes[p]].binding.pane == p)
    && forall id :: id in runs ==>
         var p := runs[id].binding.pane;
         && p in panes
         && var (a, b) := (runs[id], runs[panes[p]]);
            || a.binding.agentEpoch < b.binding.agentEpoch
            || (a.binding.agentEpoch == b.binding.agentEpoch && a.runSeq < b.runSeq)
            || (a.binding.agentEpoch == b.binding.agentEpoch && a.runSeq == b.runSeq && a.updatedAt < b.updatedAt)
            || (a.binding.agentEpoch == b.binding.agentEpoch && a.runSeq == b.runSeq && a.updatedAt == b.updatedAt && a.runId <= b.runId)
  }

  lemma NewestShowsLatest(runs: Runs, panes: map<PaneInstance, RunId>)
    ensures PanesNewest(runs, panes) <==> ShowsLatest(runs, panes)
  {
  }

  lemma NotLaterIsOrder(a: RunRecord, b: RunRecord, c: RunRecord)
    ensures NotLater(a, b) || NotLater(b, a)
    ensures NotLater(a, b) && NotLater(b, c) ==> NotLater(a, c)
  {
  }

  lemma CurrentNewestAfter(runs: Runs, scope: Runs, current: map<AgentBinding, RunId>, r: RunRecord)
    requires InScope(runs, scope, r) && r.runId !in scope && SequencesUnique(runs) && CurrentNewest(scope, current)
    ensures CurrentNewest(scope[r.runId := r], CurrentAfter(runs, current, r))
  {
  }

  /** After indexing the run, its pane shows a run of that pane, no earlier than the run and than what the pane showed. */
  lemma PaneShowsLatest(runs: Runs, current: map<AgentBinding, RunId>, panes: map<PaneInstance, RunId>, r: RunRecord)
    requires SequencesUnique(runs) && r.runId in runs && runs[r.runId] == r
    requires forall b :: b in current ==> current[b] in runs && runs[current[b]].binding == b
    requires r.binding in current && current[r.binding] != r.runId ==>
               r.binding.pane in panes && panes[r.binding.pane] in runs && NotLater(runs[current[r.binding]], runs[panes[r.binding.pane]])
    requires r.binding.pane in panes ==> panes[r.binding.pane] in runs
    ensures var p := r.binding.pane;
            var panes' := PanesAfter(runs, current, panes, r);
            && p in panes' && (panes'[p] == r.runId || (p in panes && panes'[p] == panes[p]))
            && NotLater(r, runs[panes'[p]])
            && (p in panes ==> NotLater(runs[panes[p]], runs[panes'[p]]))
            && panes' == panes[p := panes'[p]]
  {
    hide NotLater, SequencesUnique;
    var p := r.binding.pane;
    NotLaterIsOrder(r, r, r);
    if p in panes {
      var was := runs[panes[p]];
      NotLaterIsOrder(r, was, r);
      NotLaterIsOrder(was, was, was);
      if r.binding in current && current[r.binding] != r.runId {
        OutrankedIsEarlier(runs, current, r);
        NotLaterIsOrder(r, runs[current[r.binding]], was);
      }
    }
  }

  /** One more run, and its pane shows the later of that run and what it showed. */
  lemma NewestWithOneMore(scope: Runs, panes: map<PaneInstance, RunId>, r: RunRecord, q: RunId)
    requires r.runId !in scope && PanesNewest(scope, panes)
    requires q == r.runId || (r.binding.pane in panes && q == panes[r.binding.pane])
    requires q in scope[r.runId := r] && NotLater(r, scope[r.runId := r][q])
    requires r.binding.pane in panes ==> NotLater(scope[panes[r.binding.pane]], scope[r.runId := r][q])
    ensures PanesNewest(scope[r.runId := r], panes[r.binding.pane := q])
  {
    hide NotLater;
    forall id | id in scope && scope[id].binding.pane == r.binding.pane
      ensures NotLater(scope[id], scope[r.runId := r][q])
    {
      NotLaterIsOrder(scope[id], scope[panes[r.binding.pane]], scope[r.runId := r][q]);
    }
  }

  lemma NewestArePart(runs: Runs, scope: Runs, current: map<AgentBinding, RunId>, panes: map<PaneInstance, RunId>, r: RunRecord)
    requires InScope(runs, scope, r) && r.runId !in scope && CurrentNewest(scope, current) && PanesNewest(scope, panes)
    ensures r.runId in runs && runs[r.runId] == r
    ensures forall b :: b in current ==> current[b] in scope && current[b] in runs && runs[current[b]].binding == b
    ensures forall p :: p in panes ==> panes[p] in scope && panes[p] in runs && runs[panes[p]] == scope[panes[p]]
    ensures r.binding in current ==>
              r.binding.pane in panes && panes[r.binding.pane] in runs && NotLater(runs[current[r.binding]], runs[panes[r.binding.pane]])
  {
    hide NotLater, SameRunIdentity, RunRecord.Active;
  }

  lemma PanesNewestAfter(runs: Runs, scope: Runs, current: map<AgentBinding, RunId>, panes: map<PaneInstance, RunId>, r: RunRecord)
    requires InScope(runs, scope, r) && r.runId !in scope && SequencesUnique(runs)
    requires CurrentNewest(scope, current) && PanesNewest(scope, panes)
    ensures PanesNewest(scope[r.runId := r], PanesAfter(runs, current, panes, r))
  {
    hide NotLater, SequencesUnique, InScope, CurrentNewest, PanesNewest, PanesAfter;
    NewestArePart(runs, scope, current, panes, r);
    PaneShowsLatest(runs, current, panes, r);
    NewestWithOneMore(scope, panes, r, PanesAfter(runs, current, panes, r)[r.binding.pane]);
  }

  lemma OutrankedIsEarlier(runs: Runs, current: map<AgentBinding, RunId>, r: RunRecord)
    requires SequencesUnique(runs) && r.runId in runs && runs[r.runId] == r
    requires r.binding in current && current[r.binding] in runs && runs[current[r.binding]].binding == r.binding
    ensures !ReplacesCurrent(runs, current, r) ==> NotLater(r, runs[current[r.binding]])
  {
  }

  /** There is only one such map, so the order in which runs are listed does not matter. */
  lemma NewestIsUnique(scope: Runs, a: map<PaneInstance, RunId>, b: map<PaneInstance, RunId>)
    requires forall id :: id in scope ==> scope[id].runId == id
    requires PanesNewest(scope, a) && PanesNewest(scope, b)
    ensures a == b
  {
    forall p | p in a
      ensures p in b && a[p] == b[p]
    {
      assert NotLater(scope[a[p]], scope[b[p]]) && NotLater(scope[b[p]], scope[a[p]]);
    }
    forall p | p in b
      ensures p in a
    {
      assert scope[b[p]].binding.pane == p;
    }
  }
}
