/**
 * Byte-level encodings shared by the ledger and the contracts: bytes,
 * unsigned 128-bit integers, fixed-width little-endian serialisation
 * (`to_le_bytes`, `get_value`/`set_value` of a storage pointer) and the
 * ASCII bytes of the keywords that storage keys are built from.
 */
module Encoding {

  type byte = x: int | 0 <= x < 256

  /** 2^128: every `u128` of the source lies below it. */
  const U128_LIMIT: nat := 0x1_0000_0000_0000_0000_0000_0000_0000_0000

  type u128 = x: int | 0 <= x < U128_LIMIT

  type u64 = x: int | 0 <= x < 0x1_0000_0000_0000_0000

  function Pow2(k: nat): (r: nat)
    ensures r >= 1
  {
    if k == 0 then 1 else 2 * Pow2(k - 1)
  }

  /** 2^(a + b) == 2^a * 2^b. */
  lemma {:induction false} Pow2Add(a: nat, b: nat)
    ensures Pow2(a + b) == Pow2(a) * Pow2(b)
  {
    if b > 0 {
      Pow2Add(a, b - 1);
      assert Pow2(a + b) == 2 * Pow2(a + b - 1);
    }
  }

  lemma {:induction false} Pow2Monotone(m: nat, n: nat)
    requires m <= n
    ensures Pow2(m) <= Pow2(n)
  {
    if m < n {
      Pow2Monotone(m, n - 1);
    }
  }

  function Pow256(n: nat): (r: nat)
    ensures r >= 1
  {
    if n == 0 then 1 else 256 * Pow256(n - 1)
  }

  lemma Pow256Sixteen()
    ensures Pow256(16) == U128_LIMIT
  {
    assert Pow256(1) == 0x100;
    assert Pow256(2) == 0x1_0000;
    assert Pow256(3) == 0x100_0000;
    assert Pow256(4) == 0x1_0000_0000;
    assert Pow256(5) == 0x100_0000_0000;
    assert Pow256(6) == 0x1_0000_0000_0000;
    assert Pow256(7) == 0x100_0000_0000_0000;
    assert Pow256(8) == 0x1_0000_0000_0000_0000;
    assert Pow256(9) == 0x100_0000_0000_0000_0000;
    assert Pow256(10) == 0x1_0000_0000_0000_0000_0000;
    assert Pow256(11) == 0x100_0000_0000_0000_0000_0000;
    assert Pow256(12) == 0x1_0000_0000_0000_0000_0000_0000;
    assert Pow256(13) == 0x100_0000_0000_0000_0000_0000_0000;
    assert Pow256(14) == 0x1_0000_0000_0000_0000_0000_0000_0000;
    assert Pow256(15) == 0x100_0000_0000_0000_0000_0000_0000_0000;
  }

  lemma {:induction false} Pow256Monotone(m: nat, n: nat)
    requires m <= n
    ensures Pow256(m) <= Pow256(n)
  {
    if m < n {
      Pow256Monotone(m, n - 1);
    }
  }

  /** The `n` low-order bytes of `x`, least significant first. */
  function LeBytes(x: nat, n: nat): (r: seq<byte>)
    ensures |r| == n
  {
    if n == 0 then [] else [x % 256] + LeBytes(x / 256, n - 1)
  }

  /** The number whose little-endian bytes are `bs`. */
  function LeValue(bs: seq<byte>): (v: nat)
    ensures v < Pow256(|bs|)
  {
    if bs == [] then 0 else bs[0] + 256 * LeValue(bs[1..])
  }

  /** Decoding the `n`-byte encoding of a number that fits in `n` bytes gives it back. */
  lemma {:induction false} LeRoundTrip(x: nat, n: nat)
    requires x < Pow256(n)
    ensures LeValue(LeBytes(x, n)) == x
  {
    if n > 0 {
      var bs := LeBytes(x, n);
      assert bs[1..] == LeBytes(x / 256, n - 1);
      LeRoundTrip(x / 256, n - 1);
    }
  }

  /** Re-encoding the value of `bs` at its own width gives `bs` back. */
  lemma {:induction false} LeValueRoundTrip(bs: seq<byte>)
    ensures LeBytes(LeValue(bs), |bs|) == bs
  {
    if bs != [] {
      var v := LeValue(bs);
      assert v == bs[0] + 256 * LeValue(bs[1..]);
      assert v % 256 == bs[0] && v / 256 == LeValue(bs[1..]);
      LeValueRoundTrip(bs[1..]);
      assert bs == [bs[0]] + bs[1..];
    }
  }

  /** `u128::to_le_bytes`: exactly 16 bytes that decode back to the number. */
  function U128Bytes(x: u128): (r: seq<byte>)
    ensures |r| == 16 && LeValue(r) == x
  {
    Pow256Sixteen();
    LeRoundTrip(x, 16);
    LeBytes(x, 16)
  }

  /** Every 16 bytes are the encoding of the number they decode to. */
  lemma U128BytesOfValue(bs: seq<byte>)
    requires |bs| == 16
    ensures LeValue(bs) < U128_LIMIT && U128Bytes(LeValue(bs)) == bs
  {
    Pow256Sixteen();
    LeValueRoundTrip(bs);
  }

  /** The 16-byte encoding is one-to-one. */
  lemma U128BytesInjective(x: u128, y: u128)
    requires U128Bytes(x) == U128Bytes(y)
    ensures x == y
  {
  }

  /** The bytes of an ASCII keyword (`str::as_bytes`). */
  function Ascii(s: string): (r: seq<byte>)
    ensures |r| == |s|
  {
    seq(|s|, i requires 0 <= i < |s| => (s[i] as int) % 256)
  }
}
