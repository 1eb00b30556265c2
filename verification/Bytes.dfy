/** Machine words and little-endian byte encodings. */
module Bytes {
  import opened Bits

  const TWO32: nat := 0x1_0000_0000
  const TWO64: nat := 0x1_0000_0000_0000_0000

  type u8 = x: nat | x < 256
  type u32 = x: nat | x < TWO32
  type u64 = x: nat | x < TWO64

  /** `256^k`. */
  function Pow256(k: nat): (p: nat)
    ensures p > 0
  {
    if k == 0 then 1 else 256 * Pow256(k - 1)
  }

  /** The low `k` bytes of `x`, least significant first. */
  function Le(x: nat, k: nat): (bytes: seq<u8>)
    ensures |bytes| == k
  {
    if k == 0 then [] else [x % 256] + Le(x / 256, k - 1)
  }

  function FromLe(bytes: seq<u8>): (x: nat)
    ensures x < Pow256(|bytes|)
  {
    if bytes == [] then 0 else bytes[0] + 256 * FromLe(bytes[1..])
  }

  lemma {:induction false} FromLeOfLe(x: nat, k: nat)
    requires x < Pow256(k)
    ensures FromLe(Le(x, k)) == x
  {
    if k > 0 {
      FromLeOfLe(x / 256, k - 1);
      assert Le(x, k)[1..] == Le(x / 256, k - 1);
    }
  }

  lemma {:induction false} LeOfFromLe(bytes: seq<u8>)
    ensures Le(FromLe(bytes), |bytes|) == bytes
  {
    if bytes != [] {
      LeOfFromLe(bytes[1..]);
      assert FromLe(bytes) % 256 == bytes[0] && FromLe(bytes) / 256 == FromLe(bytes[1..]);
    }
  }

  lemma Widths()
    ensures Pow256(4) == TWO32 && Pow256(8) == TWO64
  {
    assert Pow256(4) == TWO32;
  }

  /** `from_le_bytes` of the eight, or four, bytes at `off`. */
  function Read64(data: seq<u8>, off: nat): u64
    requires off + 8 <= |data|
  {
    Widths();
    FromLe(data[off..off + 8])
  }

  function Read32(data: seq<u8>, off: nat): u32
    requires off + 4 <= |data|
  {
    Widths();
    FromLe(data[off..off + 4])
  }

  /** Records of equal width, back to back. */
  function Flatten(records: seq<seq<u8>>): seq<u8> {
    if records == [] then [] else Flatten(records[..|records| - 1]) + records[|records| - 1]
  }

  ghost predicate Uniform(records: seq<seq<u8>>, w: nat) {
    forall i :: 0 <= i < |records| ==> |records[i]| == w
  }

  lemma {:induction false} FlattenLength(records: seq<seq<u8>>, w: nat)
    requires Uniform(records, w)
    ensures |Flatten(records)| == |records| * w
  {
    if records != [] {
      FlattenLength(records[..|records| - 1], w);
      assert (|records| - 1) * w + w == |records| * w;
    }
  }

  lemma {:induction false} FlattenPrefix(records: seq<seq<u8>>, i: nat)
    requires i <= |records|
    ensures |Flatten(records[..i])| <= |Flatten(records)|
    ensures Flatten(records)[..|Flatten(records[..i])|] == Flatten(records[..i])
  {
    if i == |records| {
      assert records[..i] == records;
    } else {
      FlattenPrefix(records[..|records| - 1], i);
      assert records[..|records| - 1][..i] == records[..i];
    }
  }

  /** Record `i` sits at byte `i * w`. */
  lemma FlattenAt(records: seq<seq<u8>>, w: nat, i: nat)
    requires Uniform(records, w) && i < |records|
    ensures i * w + w <= |Flatten(records)| == |records| * w
    ensures Flatten(records)[i * w..i * w + w] == records[i]
  {
    FlattenLength(records, w);
    FlattenLength(records[..i], w);
    FlattenPrefix(records, i + 1);
    assert records[..i + 1][..i] == records[..i];
    assert Flatten(records[..i + 1]) == Flatten(records[..i]) + records[i];
    var at := i * w;
    assert |Flatten(records[..i])| == at;
    assert Flatten(records)[..at + w] == Flatten(records[..i]) + records[i];
    assert Flatten(records)[at..at + w] == Flatten(records)[..at + w][at..];
  }

  /** Xor of two 64-bit words is a 64-bit word. */
  lemma {:induction false} XorBound(a: nat, b: nat, k: nat)
    requires a < Pow2(k) && b < Pow2(k)
    ensures Xor(a, b) < Pow2(k)
  {
    if k > 0 && a + b > 0 { XorBound(a / 2, b / 2, k - 1); }
  }

  lemma Pow2Of64()
    ensures Pow2(64) == TWO64
  {
    assert Pow2(8) == 256;
    hide Pow2;
    Squared(8, 256);
    Squared(16, 0x1_0000);
    Squared(32, TWO32);
  }

  lemma Squared(k: nat, p: nat)
    requires Pow2(k) == p
    ensures Pow2(2 * k) == p * p
  {
    hide Pow2;
    Pow2Sum(k, k);
  }

  function Xor64(a: u64, b: u64): u64 {
    Pow2Of64();
    XorBound(a, b, 64);
    Xor(a, b)
  }
}
