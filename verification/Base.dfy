/** Machine limits, texts, digests and the result types shared by every module. */
module Base {

  newtype byte = n: int | 0 <= n < 256

  /** UTF-8 encoded text, as the byte sequence the program stores and hashes. */
  type Text = seq<byte>

  const U64_MAX: nat := 0xFFFF_FFFF_FFFF_FFFF
  const U32_MAX: nat := 0xFFFF_FFFF
  const I64_MAX: nat := 0x7FFF_FFFF_FFFF_FFFF

  const IDENTIFIER_MAX_BYTES: nat := 256

  datatype Option<+T> = None | Some(value: T)

  datatype StoreError =
    | Corrupt
    | Invalid
    | Capacity
    | Conflict
    | PromptDispatchBusy
    | OperationConflict
    | OperationStoreFull
    | OperationNotFound
    | OperationGenerationReplaced
    | RunNotFound
    | RunGenerationReplaced
    | ProviderEventConflict
    | ResolutionConflict
    | RunAlreadyResolved
    | StalePrecondition
    | RecoveryNotAllowed
    | NotFound
    | ArtifactUnavailable
    | ArtifactExpired
    | StateUninitialized

  datatype Result<+T> = Ok(value: T) | Err(error: StoreError)

  /**
   * A SHA-256 digest (section 6.2 of FIPS 180-4), represented by the bytes it was
   * taken of. Two digests are equal exactly when their inputs are.
   */
  datatype Digest = Sha256(preimage: seq<byte>)

  function Max(a: int, b: int): int {
    if a < b then b else a
  }

  function Min(a: int, b: int): int {
    if a < b then a else b
  }

  function SaturatingNext(n: nat): nat {
    if n < U64_MAX then n + 1 else n
  }

  function Ascii(s: string): Text {
    seq(|s|, i requires 0 <= i < |s| => (s[i] as int % 256) as byte)
  }

  /** A C0 control, DEL, or the UTF-8 encoding of a C1 control, starting at index i. */
  predicate ControlAt(t: Text, i: nat)
    requires i < |t|
  {
    t[i] < 0x20 || t[i] == 0x7F || (t[i] == 0xC2 && i + 1 < |t| && 0x80 <= t[i + 1] <= 0x9F)
  }

  predicate RequiredText(t: Text, limit: nat) {
    0 < |t| <= limit && forall i :: 0 <= i < |t| ==> !ControlAt(t, i)
  }

  predicate Printable(s: string) {
    forall i :: 0 <= i < |s| ==> ' ' <= s[i] <= '~'
  }

  lemma PrintableIsText(s: string, limit: nat)
    requires Printable(s) && 0 < |s| <= limit
    ensures RequiredText(Ascii(s), limit)
  {
    forall i | 0 <= i < |s|
      ensures !ControlAt(Ascii(s), i)
    {
      assert Ascii(s)[i] == (s[i] as int % 256) as byte;
    }
  }

  predicate Blank(t: Text) {
    forall i :: 0 <= i < |t| ==> t[i] == 0x20 || 9 <= t[i] <= 13
  }

  /** A set of numbers has a least one. */
  lemma {:induction false} LeastExists(ids: set<nat>) returns (least: nat)
    requires ids != {}
    ensures least in ids && forall k :: k in ids ==> least <= k
    decreases |ids|
  {
    least :| least in ids;
    if ids != {least} {
      var rest := LeastExists(ids - {least});
      var first := if rest < least then rest else least;
      assert forall k :: k in ids ==> k == least || k in ids - {least};
      least := first;
    }
  }
}
