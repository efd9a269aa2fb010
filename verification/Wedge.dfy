/**
 * How a directory becomes impossible to open. A restart confirms every stored claim; a claim that a refused
 * confirmation left open can be lost by rejecting its operation, or by crediting that operation a second
 * time. Neither `settle_dispatch` nor `matching_operation` of src/agent_state/runtime.rs looks for such a
 * claim; `abandon_operation` does.
 */
module Wedge {
  import opened Base
  import opened Records
  import opened Guards
  import opened Reducer
  import opened Framing
  import opened Regions
  import opened Protocol
  import opened Dispatch
  import opened Verdicts
  import opened Outcomes
  import opened Indexes
  import opened RunSteps
  import opened Restart

  // ---------------------------------------------------------------- which writes keep a directory openable

  /** The run's claim can be confirmed as its operation is stored. */
  predicate Confirmable(operations: Operations, r: RunRecord) {
    && r.operationId.Some? && r.operationId.value in operations
    && ConfirmedBy(operations[r.operationId.value], r, r.updatedAt).Some?
  }

  /** The claims of the stored runs, seen from one write. */
  ghost predicate SparesClaims(d: Disk, x: Write) {
    match x
    case CreateRun(r, _) =>
      r.operationId.Some? ==>
        && (LinkSettled(r, d.operations) || Confirmable(d.operations, r))
        && Unlinked(d.runs, r.operationId.value)
    case ReplaceOperation(o) =>
      && (o.state == Rejected || o.Abandoned() ==> Unlinked(d.runs, o.operationId))
      && (o.state == PromptConfirmed ==> forall id :: id in d.runs && d.runs[id].operationId == Some(o.operationId) ==> o.runId == Some(id))
    case _ => true
  }

  /**
   * On an openable directory a lawful write keeps it openable exactly when it credits no claimed operation
   * again, rejects or abandons no claimed operation, and confirms none for another run.
   */
  lemma WriteKeepsOpenable(c: Codec, d: Disk, x: Write)
    requires BaseInv(c, d) && BaseLawful(c, d, x) && Openable(d)
    ensures Openable(PerformOn(d, x)) <==> SparesClaims(d, x)
  {
    hide BaseInv, ConfirmedBy, RunOk, OperationOk, ValidOperation, OperationReplacement, EventsFresh, BodyPresent, RunsFit, OperationsFit, Openable;
    KeyedWhenSound(c, d);
    match x {
      case CreateRun(r, cause) => CreateSpares(d, r);
      case ReplaceRun(r) => ReplaceRunSpares(d, r);
      case DropRun(id) => DropSpares(d, id);
      case CreateOperation(o) => PrepareSpares(d, o);
      case ReplaceOperation(o) =>
        OperationSound(c, d, o.operationId);
        AdvanceSpares(c, d, o);
      case _ => OtherSpares(d, PerformOn(d, x));
    }
  }

  lemma KeyedWhenSound(c: Codec, d: Disk)
    requires BaseInv(c, d)
    ensures Keyed(d)
  {
    hide ValidRun, DistinctEvents, ValidOperation, Rank, FenceUnique, PromptsInv, BodiesInv, EventsUnique, TurnsUnique, SequencesUnique, ActiveNewest,
         RunsFit, OperationsFit;
  }

  lemma OperationSound(c: Codec, d: Disk, o: OperationId)
    requires BaseInv(c, d) && o in d.operations
    ensures OperationOk(d.meta.generation, o, d.operations[o])
  {
    hide OperationOk, RunsInv, PromptsInv, BodiesInv, FenceUnique, OperationsFit;
  }

  /** Claims hold, one by one, where runs and operations are alike. */
  lemma SameClaim(d: Disk, e: Disk, id: RunId)
    requires id in d.runs && id in e.runs && SameRunIdentity(d.runs[id], e.runs[id])
    requires d.runs[id].operationId.Some? ==>
               var o := d.runs[id].operationId.value;
               (o in d.operations <==> o in e.operations) && (o in d.operations ==> d.operations[o] == e.operations[o])
    ensures ClaimHolds(e, id) <==> ClaimHolds(d, id)
  {
  }

  lemma CreateSpares(d: Disk, r: RunRecord)
    requires Openable(d) && r.runId !in d.runs
    ensures Openable(d.(runs := d.runs[r.runId := r])) <==>
              (r.operationId.Some? ==> (LinkSettled(r, d.operations) || Confirmable(d.operations, r)) && Unlinked(d.runs, r.operationId.value))
  {
    hide ConfirmedBy, LinkSettled;
    var e := d.(runs := d.runs[r.runId := r]);
    assert e.runs[r.runId] == r;
    assert r.operationId.Some? ==> (ClaimHolds(e, r.runId) <==> LinkSettled(r, d.operations) || Confirmable(d.operations, r));
    UnclaimedSettles(r, d.operations);
    forall id | id in d.runs
      ensures ClaimHolds(e, id)
    {
      assert ClaimHolds(d, id) && e.runs[id] == d.runs[id];
      assert Confirmation(e, id) == Confirmation(d, id);
    }
    if r.operationId.Some? && Unlinked(d.runs, r.operationId.value) {
      assert ClaimsDistinct(e.runs);
    }
    if r.operationId.None? {
      assert ClaimsDistinct(e.runs);
    }
    if r.operationId.Some? && !Unlinked(d.runs, r.operationId.value) {
      var k :| k in d.runs && d.runs[k].operationId == r.operationId;
      assert e.runs[k].operationId == e.runs[r.runId].operationId && k != r.runId;
    }
  }

  lemma UnclaimedSettles(r: RunRecord, operations: Operations)
    ensures r.operationId.None? ==> LinkSettled(r, operations)
  {
  }

  lemma ReplaceRunSpares(d: Disk, r: RunRecord)
    requires Openable(d) && r.runId in d.runs && RunReplacement(d.runs[r.runId], r)
    ensures Openable(d.(runs := d.runs[r.runId := r]))
  {
    hide ConfirmedBy, LinkSettled, EvidenceReplacement, ArtifactReplacement;
    var e := d.(runs := d.runs[r.runId := r]);
    forall id | id in e.runs
      ensures ClaimHolds(e, id)
    {
      assert ClaimHolds(d, id);
      SameClaim(d, e, id);
    }
  }

  lemma DropSpares(d: Disk, gone: RunId)
    requires Openable(d)
    ensures Openable(d.(runs := d.runs - {gone}))
  {
    hide ConfirmedBy, LinkSettled;
    var e := d.(runs := d.runs - {gone});
    forall id | id in e.runs
      ensures ClaimHolds(e, id)
    {
      assert ClaimHolds(d, id) && e.runs[id] == d.runs[id];
      SameClaim(d, e, id);
    }
  }

  lemma PrepareSpares(d: Disk, o: OperationRecord)
    requires Openable(d) && o.operationId !in d.operations
    ensures Openable(d.(operations := d.operations[o.operationId := o]))
  {
    var e := d.(operations := d.operations[o.operationId := o]);
    forall id | id in e.runs
      ensures ClaimHolds(e, id)
    {
      assert ClaimHolds(d, id);
      SameClaim(d, e, id);
    }
  }

  lemma OtherSpares(d: Disk, e: Disk)
    requires Openable(d) && e.runs == d.runs && e.operations == d.operations
    ensures Openable(e)
  {
    hide ConfirmedBy, LinkSettled;
    forall id | id in e.runs
      ensures ClaimHolds(e, id)
    {
      assert ClaimHolds(d, id);
      SameClaim(d, e, id);
    }
  }

  /** What one accepted change of an operation means for a claim on it that was open. */
  lemma ClaimAfterAdvance(g: Generation, old_: OperationRecord, o: OperationRecord, r: RunRecord)
    requires OperationOk(g, old_.operationId, old_) && OperationReplacement(old_, o)
    requires ConfirmedBy(old_, r, r.updatedAt).Some?
    ensures ConfirmedBy(o, r, r.updatedAt).Some? <==> !(o.state == PromptConfirmed || o.state == Rejected || o.Abandoned())
  {
    hide ValidOperation, Fingerprinted;
  }

  lemma AdvanceSpares(c: Codec, d: Disk, o: OperationRecord)
    requires Keyed(d) && Openable(d) && o.operationId in d.operations
    requires OperationOk(d.meta.generation, o.operationId, d.operations[o.operationId]) && OperationReplacement(d.operations[o.operationId], o)
    ensures Openable(d.(operations := d.operations[o.operationId := o])) <==> SparesClaims(d, ReplaceOperation(o))
  {
    hide ConfirmedBy, OperationOk, OperationReplacement;
    var e := d.(operations := d.operations[o.operationId := o]);
    ReplacementAdvances(d.operations[o.operationId], o);
    forall id | id in d.runs
      ensures d.runs[id].operationId != Some(o.operationId) ==> ClaimHolds(e, id)
      ensures d.runs[id].operationId == Some(o.operationId) ==>
                (ClaimHolds(e, id) <==> !(o.state == Rejected || o.Abandoned()) && (o.state == PromptConfirmed ==> o.runId == Some(id)))
    {
      assert ClaimHolds(d, id);
      if d.runs[id].operationId != Some(o.operationId) {
        SameClaim(d, e, id);
      } else {
        ClaimAfterAdvance(d.meta.generation, d.operations[o.operationId], o, d.runs[id]);
      }
    }
    if SparesClaims(d, ReplaceOperation(o)) {
      assert Openable(e);
    }
  }

  /**
   * `settle_dispatch` to rejected, on a directory that could be opened: it still can be opened exactly when no
   * stored run claims the operation. Otherwise `AgentRuntime::open` answers with a conflict from then on.
   */
  lemma RejectionBlocksOpening(c: Codec, d: Disk, id: OperationId, code: ReceiptCode, at: int)
    requires BaseInv(c, d) && Openable(d) && id in d.operations && d.operations[id].state != Rejected
    requires SettleOutcome(c, d, id, Rejected, code, at).result.Ok?
    ensures Openable(SettleOutcome(c, d, id, Rejected, code, at).disk) <==> Unlinked(d.runs, id)
    ensures forall k :: k in d.runs && d.runs[k].operationId == Some(id) ==>
              ConfirmOutcome(c, SettleOutcome(c, d, id, Rejected, code, at).disk, d.runs[k], d.runs[k].updatedAt).result == Err(OperationConflict)
  {
    hide BaseInv, OperationOk, OperationReplacement, ValidOperation, Openable, OperationsFit;
    KeyedWhenSound(c, d);
    OperationSound(c, d, id);
    var next := SettledTo(d.operations[id], Rejected, code, at).value;
    SettledKeepsId(d.operations[id], Rejected, code, at);
    AdvanceSpares(c, d, next);
    var e := d.(operations := d.operations[id := next]);
    if Openable(e) {
      OtherSpares(e, SettleOutcome(c, d, id, Rejected, code, at).disk);
    }
    if Openable(SettleOutcome(c, d, id, Rejected, code, at).disk) {
      OtherSpares(SettleOutcome(c, d, id, Rejected, code, at).disk, e);
    }
  }

  /** The claim of a stored run on a settled operation that does not point back at it. */
  predicate Lost(d: Disk, id: RunId) {
    && id in d.runs && d.runs[id].operationId.Some?
    && d.runs[id].operationId.value in d.operations
    && Terminal(d.operations[d.runs[id].operationId.value])
    && !LinkSettled(d.runs[id], d.operations)
  }

  /** A lost claim makes the directory impossible to open. */
  lemma LostBlocksOpening(d: Disk, id: RunId)
    requires Lost(d, id)
    ensures !Openable(d)
  {
    assert !ClaimHolds(d, id);
  }

  /** So do two runs that claim one operation. */
  lemma DoubleClaimBlocksOpening(d: Disk)
    requires !ClaimsDistinct(d.runs)
    ensures !Openable(d)
  {
  }

  /** A lost claim makes the directory impossible to open, and no lawful write but removing the run repairs it. */
  lemma LostClaimPersists(c: Codec, d: Disk, x: Write, id: RunId)
    requires Lost(d, id) && BaseInv(c, d) && BaseLawful(c, d, x)
    ensures !Openable(d)
    ensures x != DropRun(id) ==> Lost(PerformOn(d, x), id)
  {
    hide BaseInv, RunOk, ValidOperation, EventsFresh, BodyPresent, RunsFit, OperationsFit, EvidenceReplacement, ArtifactReplacement, BornOf;
    KeyedWhenSound(c, d);
    LostBlocksOpening(d, id);
    if x.ReplaceOperation? {
      ReplacementAdvances(d.operations[x.operation.operationId], x.operation);
    }
  }
}
