/** The length-prefixed request fingerprint of src/agent_state/runtime.rs. */
module Framing {
  import opened Base

  const LENGTH_BYTES: nat := 8

  /** The low `width` bytes of n, most significant first. */
  function BigEndian(n: nat, width: nat): (b: seq<byte>)
    ensures |b| == width
  {
    if width == 0 then [] else BigEndian(n / 256, width - 1) + [(n % 256) as byte]
  }

  function Power256(width: nat): nat {
    if width == 0 then 1 else 256 * Power256(width - 1)
  }

  lemma {:induction false} BigEndianInjective(m: nat, n: nat, width: nat)
    requires m < Power256(width) && n < Power256(width)
    requires BigEndian(m, width) == BigEndian(n, width)
    ensures m == n
  {
    if width > 0 {
      var bm, bn := BigEndian(m, width), BigEndian(n, width);
      assert bm[..width - 1] == BigEndian(m / 256, width - 1);
      assert bn[..width - 1] == BigEndian(n / 256, width - 1);
      assert bm[width - 1] == bn[width - 1];
      BigEndianInjective(m / 256, n / 256, width - 1);
    }
  }

  /** Every field preceded by its length in eight bytes. */
  function Frame(fields: seq<Text>): seq<byte> {
    if fields == [] then []
    else BigEndian(|fields[0]|, LENGTH_BYTES) + fields[0] + Frame(fields[1..])
  }

  predicate Hashable(fields: seq<Text>) {
    forall i :: 0 <= i < |fields| ==> |fields[i]| <= U64_MAX
  }

  /** Field boundaries survive hashing: no two lists of fields share a frame. */
  lemma {:induction false} FrameInjective(a: seq<Text>, b: seq<Text>)
    requires Hashable(a) && Hashable(b)
    requires Frame(a) == Frame(b)
    ensures a == b
  {
    if a != [] && b != [] {
      var fa, fb := Frame(a), Frame(b);
      assert fa[..LENGTH_BYTES] == BigEndian(|a[0]|, LENGTH_BYTES);
      assert fb[..LENGTH_BYTES] == BigEndian(|b[0]|, LENGTH_BYTES);
      assert Power256(LENGTH_BYTES) == U64_MAX + 1 by {
        assert Power256(4) == 0x1_0000_0000;
        assert Power256(8) == 256 * (256 * (256 * (256 * Power256(4))));
      }
      BigEndianInjective(|a[0]|, |b[0]|, LENGTH_BYTES);
      var end := LENGTH_BYTES + |a[0]|;
      assert fa[LENGTH_BYTES..end] == a[0] && fb[LENGTH_BYTES..end] == b[0];
      assert fa[end..] == Frame(a[1..]) && fb[end..] == Frame(b[1..]);
      FrameInjective(a[1..], b[1..]);
      assert a == [a[0]] + a[1..] && b == [b[0]] + b[1..];
    }
  }

  const REQUEST_DOMAIN: Text := Ascii("vde-tmux:agent-operation-request:v1")
  const PROMPT_DOMAIN: Text := Ascii("vde-tmux:prompt:v1") + [0]

  /** The domain-separated digest of a prompt body. */
  function PromptDigest(prompt: Text): Digest {
    Sha256(PROMPT_DOMAIN + prompt)
  }

  /** The printed form of a digest that enters another hash. */
  function DigestText(d: Digest): Text {
    d.preimage
  }

  function RequestFields(target: Text, prompt: Digest, option: Text): seq<Text> {
    [REQUEST_DOMAIN, target, DigestText(prompt), option]
  }

  function RequestFingerprint(target: Text, prompt: Digest, option: Text): Digest {
    Sha256(Frame(RequestFields(target, prompt, option)))
  }

  /** Two requests share a fingerprint exactly when target, prompt digest and option all agree. */
  lemma FingerprintInjective(t1: Text, d1: Digest, o1: Text, t2: Text, d2: Digest, o2: Text)
    requires Hashable(RequestFields(t1, d1, o1)) && Hashable(RequestFields(t2, d2, o2))
    ensures RequestFingerprint(t1, d1, o1) == RequestFingerprint(t2, d2, o2) <==> t1 == t2 && d1 == d2 && o1 == o2
  {
    if RequestFingerprint(t1, d1, o1) == RequestFingerprint(t2, d2, o2) {
      var a, b := RequestFields(t1, d1, o1), RequestFields(t2, d2, o2);
      FrameInjective(a, b);
      assert a[1] == b[1] && a[2] == b[2] && a[3] == b[3];
    }
  }
}
