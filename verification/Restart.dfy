/** What a restart settles (src/agent_state/runtime.rs), when it can, and which directories it can open. */
module Restart {
  import opened Base
  import opened Records
  import opened Guards
  import opened Regions
  import opened Protocol
  import opened Dispatch
  import opened Verdicts
  import opened Opening
  import opened Outcomes
  import opened Indexes

  // ---------------------------------------------------------------- interrupted dispatches

  /** What the system clock shows when the restart looks at each operation; nothing says it is monotonic. */
  type Clock = OperationId -> int

  ghost predicate Ticking(clock: Clock) {
    forall id :: clock(id) >= 0
  }

  /** Neither half-sent nor overdue. */
  predicate AtRest(o: OperationRecord, clock: Clock) {
    o.state != DispatchStarted && (o.state == Prepared ==> o.deadlineAt > clock(o.operationId))
  }

  /** An overdue prepared operation was never sent; a started one may have been. */
  function RestartSettled(o: OperationRecord, clock: Clock): Option<OperationRecord> {
    if o.state == Prepared then SettledTo(o, Rejected, PREPARED_TIMEOUT_AFTER_RESTART, clock(o.operationId))
    else SettledTo(o, DeliveryUnknown, RESTARTED_DURING_DISPATCH, clock(o.operationId))
  }

  function Interrupted(operations: Operations, clock: Clock): set<OperationId> {
    set id | id in operations && !AtRest(operations[id], clock)
  }

  ghost predicate RestartFits(c: Codec, o: OperationRecord, clock: Clock) {
    RestartSettled(o, clock).Some? && c.operationSize(RestartSettled(o, clock).value) <= OPERATION_RECORD_MAX_BYTES
  }

  /** The store refuses what the restart would make of an interrupted operation. */
  ghost predicate RestartRefused(c: Codec, d: Disk, id: OperationId, clock: Clock) {
    && id in d.operations && !AtRest(d.operations[id], clock) && RestartSettled(d.operations[id], clock).Some?
    && OperationVerdict(c, d, RestartSettled(d.operations[id], clock).value) == Err(Capacity)
  }

  lemma RestartIsSound(o: OperationRecord, clock: Clock)
    requires Ticking(clock) && !AtRest(o, clock)
    ensures var (state, code) := if o.state == Prepared then (Rejected, PREPARED_TIMEOUT_AFTER_RESTART) else (DeliveryUnknown, RESTARTED_DURING_DISPATCH);
      && MaySettle(o.state, state) && SoundCode(code, clock(o.operationId))
      && RestartSettled(o, clock) == SettledTo(o, state, code, clock(o.operationId))
    ensures RestartSettled(o, clock).Some? ==>
              AtRest(RestartSettled(o, clock).value, clock) && RestartSettled(o, clock).value.operationId == o.operationId
  {
    CodesAreTexts();
  }

  // ---------------------------------------------------------------- claims a crash left open

  /** What confirming the stored run's claim would write. */
  function Confirmation(d: Disk, id: RunId): Option<OperationRecord>
    requires id in d.runs
  {
    var run := d.runs[id];
    if run.operationId.Some? && run.operationId.value in d.operations then ConfirmedBy(d.operations[run.operationId.value], run, run.updatedAt)
    else None
  }

  /** The claim is settled, or it still can be. */
  predicate ClaimHolds(d: Disk, id: RunId)
    requires id in d.runs
  {
    LinkSettled(d.runs[id], d.operations) || Confirmation(d, id).Some?
  }

  ghost predicate ClaimsDistinct(runs: Runs) {
    forall a, b :: a in runs && b in runs && runs[a].operationId.Some? && runs[a].operationId == runs[b].operationId ==> a == b
  }

  /** Every stored claim is settled or can be confirmed, and no operation is claimed twice. */
  ghost predicate Openable(d: Disk) {
    (forall id :: id in d.runs ==> ClaimHolds(d, id)) && ClaimsDistinct(d.runs)
  }

  function OpenClaims(d: Disk): set<RunId> {
    set id | id in d.runs && !LinkSettled(d.runs[id], d.operations)
  }

  ghost predicate ConfirmationFits(c: Codec, d: Disk, id: RunId)
    requires id in d.runs
  {
    Confirmation(d, id).Some? ==> c.operationSize(Confirmation(d, id).value) <= OPERATION_RECORD_MAX_BYTES
  }

  /** Room for everything a restart may have to write: one record per open claim and per interrupted dispatch. */
  ghost predicate RestartRoom(c: Codec, d: Disk, clock: Clock) {
    && RoomFor(c, d.operations, |OpenClaims(d)| + |Interrupted(d.operations, clock)|)
    && (forall id :: id in d.runs ==> ConfirmationFits(c, d, id))
    && (forall id :: id in Interrupted(d.operations, clock) ==> RestartFits(c, d.operations[id], clock))
  }

  /** Confirming so far: each operation is as it was found, or confirmed by a run that claims it. */
  ghost predicate Confirming(d: Disk, operations: Operations) {
    && operations.Keys == d.operations.Keys
    && forall o :: o in operations ==> operations[o] == d.operations[o] || ConfirmedInstead(d, o, operations[o])
  }

  ghost predicate ConfirmedInstead(d: Disk, o: OperationId, after: OperationRecord) {
    exists k :: k in d.runs && d.runs[k].operationId == Some(o) && !LinkSettled(d.runs[k], d.operations) && Confirmation(d, k) == Some(after)
  }

  lemma ConfirmationRecord(d: Disk, id: RunId)
    requires id in d.runs && d.runs[id].runId == id && Confirmation(d, id).Some?
    requires d.operations[d.runs[id].operationId.value].operationId == d.runs[id].operationId.value
    ensures var o := Confirmation(d, id).value;
      && o.operationId == d.runs[id].operationId.value
      && o.state == PromptConfirmed && o.runId == Some(id)
      && !LinkSettled(d.runs[id], d.operations)
  {
  }

  /** One more claim confirmed. */
  lemma ConfirmOneMore(d: Disk, operations: Operations, id: RunId, o: OperationId)
    requires Confirming(d, operations) && id in d.runs && d.runs[id].operationId == Some(o) && o in operations
    requires operations[o] == d.operations[o] && Confirmation(d, id).Some? && !LinkSettled(d.runs[id], d.operations)
    ensures Confirming(d, operations[o := Confirmation(d, id).value])
  {
    hide ConfirmedBy;
    var after := operations[o := Confirmation(d, id).value];
    assert ConfirmedInstead(d, o, after[o]);
  }

  /** When all claims are settled at the end, they all held at the start, and none competed. */
  lemma SettledWasOpenable(d: Disk, operations: Operations)
    requires Confirming(d, operations) && SettledLinks(d.runs, operations)
    requires forall id :: id in d.runs ==> d.runs[id].runId == id
    requires forall o :: o in d.operations ==> d.operations[o].operationId == o
    ensures Openable(d)
  {
    hide ConfirmedBy, Confirming;
    forall id | id in d.runs
      ensures ClaimHolds(d, id)
    {
      SettledHeld(d, operations, id);
    }
    forall a, b | a in d.runs && b in d.runs && d.runs[a].operationId.Some? && d.runs[a].operationId == d.runs[b].operationId
      ensures a == b
    {
      assert LinkSettled(d.runs[a], operations) && LinkSettled(d.runs[b], operations);
    }
  }

  lemma SettledHeld(d: Disk, operations: Operations, id: RunId)
    requires Confirming(d, operations) && id in d.runs && LinkSettled(d.runs[id], operations)
    requires forall id :: id in d.runs ==> d.runs[id].runId == id
    requires forall o :: o in d.operations ==> d.operations[o].operationId == o
    ensures ClaimHolds(d, id)
  {
    var run := d.runs[id];
    if run.operationId.Some? && operations[run.operationId.value] != d.operations[run.operationId.value] {
      var o := run.operationId.value;
      var k :| k in d.runs && d.runs[k].operationId == Some(o) && !LinkSettled(d.runs[k], d.operations) && Confirmation(d, k) == Some(operations[o]);
      ConfirmationRecord(d, k);
    }
  }

  /** A link-sound directory is openable: its claims match, and none compete. */
  lemma SoundIsConfirmable(c: Codec, h: History, d: Disk)
    requires BaseHistory(c, h) && LinkHistory(h) && Replay(h).disk == d
    ensures Openable(d)
  {
    hide BaseHistory, LinkHistory, LinkInv, PromptsInv, BodiesInv, RunsFit, OperationsFit, EventsUnique, TurnsUnique, SequencesUnique, ActiveNewest,
         ValidRun, FenceUnique, Openable;
    BaseHistoryKeeps(c, h);
    LinkHistoryKeeps(c, h);
    LinkedIsOpenable(c, Replay(h));
  }

  lemma LinkedIsOpenable(c: Codec, w: World)
    requires LinkInv(w)
    requires forall id :: id in w.disk.runs ==> RunOk(c, w.disk.meta.generation, id, w.disk.runs[id])
    requires forall o :: o in w.disk.operations ==> OperationOk(w.disk.meta.generation, o, w.disk.operations[o])
    ensures Openable(w.disk)
  {
    hide RunOk, OperationOk;
    forall id | id in w.disk.runs
      ensures ClaimHolds(w.disk, id)
    {
      if w.disk.runs[id].operationId.Some? {
        LinkedHolds(c, w, id);
      }
    }
    LinkedIsDistinct(w);
  }

  lemma LinkedIsDistinct(w: World)
    requires LinkInv(w)
    ensures ClaimsDistinct(w.disk.runs)
  {
    hide CreditsHeld, ConfirmedBorn;
    forall a, b | a in w.disk.runs && b in w.disk.runs && w.disk.runs[a].operationId.Some? && w.disk.runs[a].operationId == w.disk.runs[b].operationId
      ensures a == b
    {
      assert SameRunIdentity(w.births[a].run, w.disk.runs[a]) && SameRunIdentity(w.births[b].run, w.disk.runs[b]);
    }
  }

  lemma LinkedHolds(c: Codec, w: World, id: RunId)
    requires LinkInv(w) && id in w.disk.runs && w.disk.runs[id].operationId.Some?
    requires RunOk(c, w.disk.meta.generation, id, w.disk.runs[id])
    requires w.disk.runs[id].operationId.value in w.disk.operations ==>
               OperationOk(w.disk.meta.generation, w.disk.runs[id].operationId.value, w.disk.operations[w.disk.runs[id].operationId.value])
    ensures ClaimHolds(w.disk, id)
  {
    hide LinkInv, ValidOperation, ConfirmedBy, BindingMatches, SequenceMatches;
    ClaimMatches(w, id);
    var run := w.disk.runs[id];
    var o := w.disk.operations[run.operationId.value];
    UpdatedIsNatural(c, run);
    if o.Confirmable() {
      ConfirmationIsAccepted(c, w.disk.meta.generation, o, run, run.updatedAt);
    }
  }

  lemma UpdatedIsNatural(c: Codec, r: RunRecord)
    requires ValidRun(c, r)
    ensures r.updatedAt >= 0
  {
  }

  // ---------------------------------------------------------------- one round of the restart

  /** Records are stored under their own identifiers. */
  ghost predicate Keyed(d: Disk) {
    (forall id :: id in d.runs ==> d.runs[id].runId == id) && forall o :: o in d.operations ==> d.operations[o].operationId == o
  }

  /** The first run, in order of identifier, whose claim `confirm_linked_operation` refuses. */
  ghost predicate FirstStuck(c: Codec, d: Disk, id: RunId, e: StoreError) {
    && id in d.runs
    && ConfirmOutcome(c, d, d.runs[id], d.runs[id].updatedAt).result == Err(e)
    && forall k :: k in d.runs && k < id ==> LinkSettled(d.runs[k], d.operations)
  }

  /** Only claims of runs before this one have been confirmed. */
  ghost predicate ConfirmedUpTo(d: Disk, operations: Operations, id: RunId) {
    && Confirming(d, operations)
    && forall o :: o in operations && o in d.operations && operations[o] != d.operations[o] ==> operations[o].runId.Some? && operations[o].runId.value < id
  }

  /** What changed was confirmed by one of these runs. */
  predicate ChangedBy(before: Operations, after: Operations, done: set<RunId>) {
    forall o :: o in after ==> o in before && (after[o] == before[o] || (after[o].runId.Some? && after[o].runId.value in done))
  }

  lemma ChangedByOneMore(before: Operations, middle: Operations, after: Operations, done: set<RunId>, id: RunId)
    requires ChangedBy(before, middle, done) && ChangedBy(middle, after, {id})
    ensures ChangedBy(before, after, done + {id})
  {
  }

  lemma ChangedByEarlier(d: Disk, operations: Operations, done: set<RunId>, id: RunId)
    requires Confirming(d, operations) && ChangedBy(d.operations, operations, done) && forall k :: k in done ==> k < id
    ensures ConfirmedUpTo(d, operations, id)
  {
    hide Confirming;
  }

  lemma ConfirmedIsChange(before: Operations, after: Operations, r: RunRecord)
    requires r.operationId.Some? && r.operationId.value in after && after.Keys == before.Keys && LinkSettled(r, after)
    requires after == before[r.operationId.value := after[r.operationId.value]]
    ensures ChangedBy(before, after, {r.runId})
  {
  }

  /** Some interrupted dispatches were settled, and the next one is refused for room. */
  ghost predicate SettlingStopped(c: Codec, before: Operations, d: Disk, clock: Clock) {
    exists left: set<OperationId>, id: OperationId :: Settling(before, d.operations, left, clock) && id in left && RestartRefused(c, d, id, clock)
  }

  /**
   * Why a restart of `d` stopped at `left`: it confirmed the claims in order up to the first one that cannot be
   * confirmed, or it confirmed them all and then settled dispatches until the store had no room for the next.
   */
  ghost predicate RestartStopped(c: Codec, d: Disk, left: Disk, clock: Clock, e: StoreError) {
    || (exists id :: FirstStuck(c, left, id, e) && ConfirmedUpTo(d, left.operations, id))
    || (e == Capacity
        && exists middle: Operations :: Confirming(d, middle) && SettledLinks(d.runs, middle) && SettlingStopped(c, middle, left, clock))
  }

  /** A claim that was settled at the start still is, and an operation that is not confirmed yet is as it was found. */
  lemma ClaimNow(d: Disk, operations: Operations, id: RunId)
    requires Keyed(d) && Confirming(d, operations) && id in d.runs && d.runs[id].operationId.Some? && d.runs[id].operationId.value in operations
    ensures var o := d.runs[id].operationId.value;
      && o in d.operations
      && (operations[o].state != PromptConfirmed ==> operations[o] == d.operations[o] && !LinkSettled(d.runs[id], d.operations))
      && (LinkSettled(d.runs[id], d.operations) ==> LinkSettled(d.runs[id], operations))
  {
    hide ConfirmedBy;
    var o := d.runs[id].operationId.value;
    if operations[o] != d.operations[o] {
      var k :| k in d.runs && d.runs[k].operationId == Some(o) && !LinkSettled(d.runs[k], d.operations) && Confirmation(d, k) == Some(operations[o]);
      ConfirmedWasOpen(d, k);
      ConfirmationRecord(d, k);
    }
  }

  lemma ConfirmedWasOpen(d: Disk, k: RunId)
    requires k in d.runs && Confirmation(d, k).Some?
    ensures d.operations[d.runs[k].operationId.value].state != PromptConfirmed
  {
  }

  /** On an openable directory the claim is settled by clock, or exactly what it was when found. */
  lemma OpenableNow(d: Disk, operations: Operations, id: RunId)
    requires Keyed(d) && Confirming(d, operations) && Openable(d) && id in d.runs && d.runs[id].operationId.Some?
    ensures var o := d.runs[id].operationId.value;
      && o in operations
      && (LinkSettled(d.runs[id], operations) || (operations[o] == d.operations[o] && Confirmation(d, id).Some?))
  {
    hide ConfirmedBy;
    var o := d.runs[id].operationId.value;
    assert ClaimHolds(d, id);
    if operations[o] != d.operations[o] {
      var k :| k in d.runs && d.runs[k].operationId == Some(o) && !LinkSettled(d.runs[k], d.operations) && Confirmation(d, k) == Some(operations[o]);
      assert k == id;
      ConfirmationRecord(d, k);
    } else if LinkSettled(d.runs[id], d.operations) {
      ClaimNow(d, operations, id);
    }
  }

  function Need(d: Disk, id: RunId): nat
    requires id in d.runs
  {
    if LinkSettled(d.runs[id], d.operations) then 0 else 1
  }

  /** Room still needed for the claims of `left` and for the interrupted dispatches. */
  function Needed(d: Disk, left: set<RunId>, clock: Clock): nat {
    |OpenClaims(d) * left| + |Interrupted(d.operations, clock)|
  }

  lemma NeededStep(d: Disk, left: set<RunId>, id: RunId, clock: Clock)
    requires id in left && id in d.runs
    ensures Needed(d, left, clock) == Needed(d, left - {id}, clock) + Need(d, id)
  {
    hide LinkSettled, Interrupted;
    var open := OpenClaims(d);
    if id in open {
      assert open * left == (open * (left - {id})) + {id};
    } else {
      assert open * left == open * (left - {id});
    }
  }

  lemma NeededAtStart(d: Disk, clock: Clock)
    ensures Needed(d, d.runs.Keys, clock) == |OpenClaims(d)| + |Interrupted(d.operations, clock)|
    ensures Needed(d, {}, clock) == |Interrupted(d.operations, clock)|
  {
    hide LinkSettled, Interrupted;
    assert OpenClaims(d) * d.runs.Keys == OpenClaims(d);
    assert OpenClaims(d) * {} == {};
  }

  /** What is interrupted after confirming was interrupted before, in the same record. */
  lemma InterruptedLeft(d: Disk, operations: Operations, clock: Clock)
    requires Keyed(d) && Confirming(d, operations)
    ensures Interrupted(operations, clock) <= Interrupted(d.operations, clock)
    ensures forall id :: id in Interrupted(operations, clock) ==> id in operations && id in d.operations && operations[id] == d.operations[id]
  {
    hide ConfirmedBy;
    forall id | id in Interrupted(operations, clock)
      ensures operations[id] == d.operations[id]
    {
      if operations[id] != d.operations[id] {
        var k :| k in d.runs && d.runs[k].operationId == Some(id) && !LinkSettled(d.runs[k], d.operations) && Confirmation(d, k) == Some(operations[id]);
        ConfirmationRecord(d, k);
      }
    }
  }

  /** Settling so far: what is left is as it was found, everything else is at rest. */
  ghost predicate Settling(before: Operations, operations: Operations, left: set<OperationId>, clock: Clock) {
    && operations.Keys == before.Keys
    && (forall id :: id in left ==> id in before && !AtRest(before[id], clock) && operations[id] == before[id])
    && forall id :: id in before && id !in left ==> SettledNow(before[id], operations[id], clock)
  }

  predicate SettledNow(before: OperationRecord, after: OperationRecord, clock: Clock) {
    AtRest(after, clock) && if AtRest(before, clock) then after == before else RestartSettled(before, clock) == Some(after)
  }

  lemma SettlingStart(before: Operations, clock: Clock)
    ensures Settling(before, before, Interrupted(before, clock), clock) && Interrupted(before, clock) <= before.Keys
  {
    hide AtRest, RestartSettled;
  }

  lemma StillInterrupted(before: Operations, operations: Operations, left: set<OperationId>, clock: Clock, id: OperationId)
    requires Settling(before, operations, left, clock) && id in left
    ensures id in before && id in operations && operations[id] == before[id] && !AtRest(operations[id], clock)
  {
    hide AtRest, RestartSettled;
  }

  lemma SettlingStep(before: Operations, operations: Operations, left: set<OperationId>, clock: Clock, id: OperationId, after: OperationRecord)
    requires Settling(before, operations, left, clock) && id in left && RestartSettled(before[id], clock) == Some(after) && AtRest(after, clock)
    ensures Settling(before, operations[id := after], left - {id}, clock)
  {
    hide AtRest, RestartSettled;
  }

  // ---------------------------------------------------------------- the directory after a restart

  /** What a successful restart makes of an operation: confirmed by the run that claimed it, settled if it was interrupted, or unchanged. */
  ghost predicate RestartedTo(d: Disk, clock: Clock, o: OperationId, after: OperationRecord)
    requires o in d.operations
  {
    || ConfirmedInstead(d, o, after)
    || ((forall k :: k in d.runs && d.runs[k].operationId == Some(o) ==> LinkSettled(d.runs[k], d.operations))
        && (if AtRest(d.operations[o], clock) then after == d.operations[o] else RestartSettled(d.operations[o], clock) == Some(after)))
  }

  /**
   * What a restart makes of an operation without an open claim, in the fields of the record: only a dispatch that
   * was sent and one that was prepared and is due are settled, each with its own receipt.
   */
  ghost predicate RestartedAlone(before: OperationRecord, after: OperationRecord, now: int) {
    && (before.state == DeliveryUnknown || before.state == PromptConfirmed || before.state == Rejected ==> after == before)
    && (before.state == Prepared && before.deadlineAt > now ==> after == before)
    && (before.state == Prepared && before.deadlineAt <= now ==> SettledAs(before, after, Rejected, "prepared_dispatch_timeout_after_restart", now))
    && (before.state == DispatchStarted ==> SettledAs(before, after, DeliveryUnknown, "daemon_restarted_during_dispatch", now))
  }

  /** An open claim is confirmed by the run that makes it; everything else is treated alone. */
  ghost predicate RestartedAs(d: Disk, o: OperationId, after: OperationRecord, now: int)
    requires o in d.operations
  {
    if exists k :: k in d.runs && d.runs[k].operationId == Some(o) && d.operations[o].state != PromptConfirmed
    then exists k :: k in d.runs && d.runs[k].operationId == Some(o) && ConfirmedAs(d.operations[o], after, d.runs[k], d.runs[k].updatedAt)
    else RestartedAlone(d.operations[o], after, now)
  }

  lemma SettledNowIsAlone(before: OperationRecord, after: OperationRecord, clock: Clock)
    requires SettledNow(before, after, clock)
    ensures RestartedAlone(before, after, clock(before.operationId))
  {
  }

  lemma AllSettledAlone(before: Operations, operations: Operations, clock: Clock)
    requires Settling(before, operations, {}, clock) && forall id :: id in before ==> before[id].operationId == id
    ensures operations.Keys == before.Keys && forall id :: id in before ==> RestartedAlone(before[id], operations[id], clock(id))
  {
    hide SettledNow, RestartedAlone;
    forall id | id in before
      ensures RestartedAlone(before[id], operations[id], clock(id))
    {
      SettledNowIsAlone(before[id], operations[id], clock);
    }
  }

  lemma RestartedIsAs(d: Disk, clock: Clock, o: OperationId, after: OperationRecord)
    requires o in d.operations && d.operations[o].operationId == o && RestartedTo(d, clock, o, after)
    ensures RestartedAs(d, o, after, clock(o))
  {
    hide ConfirmedBy, ConfirmedAs, SettledTo;
    if ConfirmedInstead(d, o, after) {
      var k :| k in d.runs && d.runs[k].operationId == Some(o) && !LinkSettled(d.runs[k], d.operations) && Confirmation(d, k) == Some(after);
      ConfirmedWasOpen(d, k);
      ConfirmedByIsAs(d.operations[o], d.runs[k], d.runs[k].updatedAt);
    } else {
      AloneIsAs(d.operations[o], after, clock);
      forall k | k in d.runs && d.runs[k].operationId == Some(o)
        ensures d.operations[o].state == PromptConfirmed
      {
        assert LinkSettled(d.runs[k], d.operations);
      }
    }
  }

  lemma AloneIsAs(before: OperationRecord, after: OperationRecord, clock: Clock)
    requires if AtRest(before, clock) then after == before else RestartSettled(before, clock) == Some(after)
    ensures RestartedAlone(before, after, clock(before.operationId))
  {
  }

  /** First confirm, then settle. */
  lemma ConfirmedThenSettled(d: Disk, confirmed: Operations, clock: Clock, o: OperationId, after: OperationRecord)
    requires Keyed(d) && Confirming(d, confirmed) && SettledLinks(d.runs, confirmed) && o in d.operations
    requires if AtRest(confirmed[o], clock) then after == confirmed[o] else RestartSettled(confirmed[o], clock) == Some(after)
    ensures RestartedTo(d, clock, o, after)
  {
    hide ConfirmedBy, LinkSettled;
    if confirmed[o] != d.operations[o] {
      var k :| k in d.runs && d.runs[k].operationId == Some(o) && !LinkSettled(d.runs[k], d.operations) && Confirmation(d, k) == Some(confirmed[o]);
      ConfirmationRecord(d, k);
      assert ConfirmedInstead(d, o, after);
    } else {
      forall k | k in d.runs && d.runs[k].operationId == Some(o)
        ensures LinkSettled(d.runs[k], d.operations)
      {
        assert LinkSettled(d.runs[k], confirmed);
        SameOperationSettles(d.runs[k], confirmed, d.operations, o);
      }
    }
  }

  lemma SameOperationSettles(r: RunRecord, a: Operations, b: Operations, o: OperationId)
    requires r.operationId == Some(o) && o in a && o in b && a[o] == b[o] && LinkSettled(r, a)
    ensures LinkSettled(r, b)
  {
  }
}
