/** Bytes and little-endian integers. */
module Bytes {
  type Byte = x: nat | x < 256

  const KIB64 := 0x1_0000
  const GIB4 := 0x1_0000_0000

  /** The integer of some bytes, least significant first. */
  function Value(bytes: seq<Byte>): (v: nat)
  {
    if |bytes| == 0 then 0 else bytes[0] + 256 * Value(bytes[1..])
  }

  /** The `n` bytes of an integer, least significant first. */
  function Little(v: nat, n: nat): (bytes: seq<Byte>)
    ensures |bytes| == n
  {
    if n == 0 then [] else [v % 256] + Little(v / 256, n - 1)
  }

  function Bound(n: nat): nat {
    if n == 0 then 1 else 256 * Bound(n - 1)
  }

  function Pow2(k: nat): (p: nat)
    ensures p > 0
  {
    if k == 0 then 1 else 2 * Pow2(k - 1)
  }

  lemma {:induction false} LittleValue(v: nat, n: nat)
    requires v < Bound(n)
    ensures Value(Little(v, n)) == v
  {
    if n > 0 {
      LittleValue(v / 256, n - 1);
      assert Little(v, n)[1..] == Little(v / 256, n - 1);
    }
  }

  lemma {:induction false} ValueLittle(bytes: seq<Byte>)
    ensures Value(bytes) < Bound(|bytes|) && Little(Value(bytes), |bytes|) == bytes
  {
    if |bytes| > 0 {
      ValueLittle(bytes[1..]);
      assert Value(bytes) % 256 == bytes[0] && Value(bytes) / 256 == Value(bytes[1..]);
    }
  }

  /** Each byte weighs 256 times the one before it. */
  lemma {:induction false} LastByteWeighs(bytes: seq<Byte>, b: Byte)
    ensures Value(bytes + [b]) == Value(bytes) + b * Bound(|bytes|)
  {
    if |bytes| > 0 {
      assert (bytes + [b])[1..] == bytes[1..] + [b];
      LastByteWeighs(bytes[1..], b);
      assert b * Bound(|bytes|) == 256 * (b * Bound(|bytes| - 1));
    }
  }

  lemma Bounds()
    ensures Bound(1) == 256 && Bound(2) == KIB64 && Bound(4) == GIB4 && Bound(8) == GIB4 * GIB4
  {
    assert Bound(3) == 0x100_0000 && Bound(5) == 256 * GIB4;
    assert Bound(6) == KIB64 * GIB4 && Bound(7) == 0x100_0000 * GIB4;
  }
}
