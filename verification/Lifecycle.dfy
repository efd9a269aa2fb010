/** What a stored operation keeps over whole histories, crashes and restarts included. */
module Lifecycle {
  import opened Base
  import opened Records
  import opened Guards
  import opened Framing
  import opened Protocol

  /** One write leaves an operation alone, or advances it through the guard; none removes it. */
  lemma OneWriteToOperation(c: Codec, d: Disk, x: Write, id: OperationId)
    requires BaseInv(c, d) && BaseLawful(c, d, x) && id in d.operations
    ensures id in PerformOn(d, x).operations
    ensures PerformOn(d, x).operations[id] == d.operations[id] || OperationReplacement(d.operations[id], PerformOn(d, x).operations[id])
  {
    hide OperationReplacement, ValidOperation, RunsInv, PromptsInv, BodiesInv, RunOk, EventsFresh, RunsFit, OperationsFit, BornOf, RunReplacement;
  }

  /**
   * Between two points of any history an operation stays stored, keeps its request, and only moves up
   * in rank; at the same rank it is the same record, so a confirmed, rejected or abandoned operation
   * is final and a dispatch is started at most once.
   */
  lemma {:induction false} OperationNeverRegresses(c: Codec, h: History, cut: History, id: OperationId)
    requires BaseHistory(c, h) && CutOf(h, cut) && id in Replay(cut).disk.operations
    ensures id in Replay(h).disk.operations
    ensures var before, after := Replay(cut).disk.operations[id], Replay(h).disk.operations[id];
      && SameRequest(before, after)
      && TargetOf(before.binding) == TargetOf(after.binding)
      && Rank(before) <= Rank(after) <= 4
      && (Rank(before) == Rank(after) ==> after == before)
      && (Terminal(before) ==> after == before)
  {
    hide BaseInv, BaseLawful, OperationReplacement;
    if h != cut {
      OperationNeverRegresses(c, h.past, cut, id);
      BaseHistoryKeeps(c, h.past);
      OneWriteToOperation(c, Replay(h.past).disk, h.write, id);
      var old_, new_ := Replay(h.past).disk.operations[id], Replay(h).disk.operations[id];
      if new_ != old_ {
        ReplacementAdvances(old_, new_);
        ReplacementKeepsRequest(old_, new_);
      }
    }
  }

  lemma ReplacementKeepsRequest(existing: OperationRecord, next: OperationRecord)
    requires OperationReplacement(existing, next)
    ensures SameRequest(existing, next)
  {
  }

  /**
   * Request idempotence: at any later point of any history, presenting an identifier again matches the
   * stored record exactly when target, prompt digest and option are those of the original request.
   */
  lemma RepeatedRequest(c: Codec, h: History, cut: History, id: OperationId, target: Text, digest: Digest, option: Text)
    requires BaseHistory(c, h) && CutOf(h, cut) && id in Replay(cut).disk.operations
    requires Hashable(RequestFields(target, digest, option))
    requires var o := Replay(cut).disk.operations[id]; Hashable(RequestFields(o.targetRef, o.promptDigest, o.dispatchOption))
    ensures id in Replay(h).disk.operations
    ensures var original := Replay(cut).disk.operations[id];
      Replay(h).disk.operations[id].fingerprint == RequestFingerprint(target, digest, option)
      <==> original.targetRef == target && original.promptDigest == digest && original.dispatchOption == option
  {
    hide BaseInv, BaseHistory, RequestFingerprint, Hashable;
    OperationNeverRegresses(c, h, cut, id);
    StoredFingerprint(c, h, id);
    var o := Replay(h).disk.operations[id];
    FingerprintInjective(o.targetRef, o.promptDigest, o.dispatchOption, target, digest, option);
  }

  lemma StoredFingerprint(c: Codec, h: History, id: OperationId)
    requires BaseHistory(c, h) && id in Replay(h).disk.operations
    ensures Fingerprinted(Replay(h).disk.operations[id])
  {
    hide BaseHistory, RunsInv, PromptsInv, BodiesInv, ValidOperation, Rank, FenceUnique, Fingerprinted;
    BaseHistoryKeeps(c, h);
  }
}
