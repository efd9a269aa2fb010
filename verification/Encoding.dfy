/** How long the JSON of a record is: the encoding src/agent_state/store.rs writes, for the concrete runs of `Instances`. */
module Encoding {
  import opened Base
  import opened Records

  function Repeat(b: byte, n: nat): Text {
    seq(n, i => b)
  }

  /** Quotes, backslashes and five controls take two characters in a JSON string, any other control six. */
  function Escaped(b: byte): nat {
    if b == 0x22 || b == 0x5C || b in {8, 9, 10, 12, 13} then 2 else if b < 0x20 then 6 else 1
  }

  function Quoted(t: Text): nat {
    if t == [] then 0 else Escaped(t[0]) + Quoted(t[1..])
  }

  lemma {:induction false} QuotedRepeat(b: byte, n: nat)
    ensures Quoted(Repeat(b, n)) == n * Escaped(b)
  {
    if n > 0 {
      assert Repeat(b, n)[1..] == Repeat(b, n - 1);
      QuotedRepeat(b, n - 1);
    }
  }

  lemma RepeatIsText(b: byte, n: nat, limit: nat)
    requires 0x20 <= b < 0x7F && 0 < n <= limit
    ensures RequiredText(Repeat(b, n), limit)
  {
  }

  function StateJson(s: DispatchState): nat {
    match s
    case Prepared => |"prepared"|
    case DispatchStarted => |"dispatch_started"|
    case PromptConfirmed => |"prompt_confirmed"|
    case DeliveryUnknown => |"delivery_unknown"|
    case Rejected => |"rejected"|
  }

  const NULL_JSON: nat := 4
  const RANDOM_ID_JSON: nat := 34

  /** The keys and punctuation of a receipt, and its time. */
  const RECEIPT_FRAME: nat := 72

  /** The keys and punctuation of an operation, its two digests, its random identifiers, and numbers of the size used here. */
  const OPERATION_FRAME: nat := 835

  const RUN_FRAME: nat := 900
  const EVIDENCE_FRAME: nat := 180
  const REFERENCE_FRAME: nat := 300

  function ReceiptJson(r: Option<Receipt>): nat {
    match r
    case None => NULL_JSON
    case Some(receipt) =>
      RECEIPT_FRAME
      + (if receipt.code.OtherCode? then Quoted(receipt.code.text) else |"operator_abandoned"|)
      + (match receipt.basis
         case None => NULL_JSON
         case Some(BindingSequenceDigest) => |"'binding_sequence_digest'"|
         case Some(GuardedWindowDigest) => |"'guarded_window_digest'"|)
      + (match receipt.attribution
         case None => NULL_JSON
         case Some(NonExclusive) => |"'non_exclusive'"|
         case Some(Operator(reason)) => |"'operator:'"| + Quoted(reason))
  }

  function OperationJson(o: OperationRecord): nat {
    OPERATION_FRAME + StateJson(o.state)
    + Quoted(o.operationId) + Quoted(o.targetRef) + Quoted(o.dispatchOption)
    + (if o.binding.session.Some? then Quoted(o.binding.session.value) else 2)
    + Quoted(o.binding.process.startToken)
    + (if o.runId.Some? then RANDOM_ID_JSON else NULL_JSON)
    + ReceiptJson(o.receipt)
  }

  function EventsJson(events: seq<EventReference>): nat {
    if events == [] then 0
    else REFERENCE_FRAME + Quoted(events[0].eventRef) + Quoted(events[0].ingress) + EventsJson(events[1..])
  }

  function EvidenceJson(e: Evidence): nat {
    EVIDENCE_FRAME + EventsJson(e.events)
  }

  function RunJson(r: RunRecord): nat {
    RUN_FRAME + EvidenceJson(r.evidence) + Quoted(r.binding.session) + Quoted(r.binding.process.startToken)
    + (if r.turnKey.Some? then Quoted(r.turnKey.value) else 0) + (if r.operationId.Some? then Quoted(r.operationId.value) else 0)
  }

  /** A digest prints as itself: only that different ones print differently matters. */
  const JSON: Codec :=
    Codec((r: RunRecord) => RunJson(r), (o: OperationRecord) => OperationJson(o), (e: Evidence) => EvidenceJson(e), (t: Text) => true,
          (d: Digest) => d.preimage)

  lemma {:induction false} EventsAreShort(events: seq<EventReference>, limit: nat)
    requires forall i :: 0 <= i < |events| ==> Quoted(events[i].eventRef) + Quoted(events[i].ingress) <= limit
    ensures EventsJson(events) <= |events| * (REFERENCE_FRAME + limit)
  {
    hide Quoted;
    if events != [] {
      var each := REFERENCE_FRAME + limit;
      EventsAreShort(events[1..], limit);
      assert |events| * each == each + (|events| - 1) * each;
    }
  }

  lemma {:induction false} QuotedBound(t: Text)
    ensures Quoted(t) <= 6 * |t|
  {
    if t != [] {
      QuotedBound(t[1..]);
    }
  }

  lemma QuotedOne(b: byte)
    ensures Quoted([b]) == Escaped(b)
  {
    assert [b][1..] == [];
  }
}
