/**
 Bytes of a disk block as the kernel manipulates them: single bits of a bitmap
 byte, and the little-endian 32-bit words of an indirect block.  Also the names
 every directory has.
 */
module Bytes {
  type Byte = x: int | 0 <= x < 256

  const UINT_MAX: int := 0xFFFF_FFFF

  // ---- Names in a directory ---------------------------------------------

  const DIRSIZ := 14
  const DOT: seq<Byte> := [46]
  const DOTDOT: seq<Byte> := [46, 46]

  // ---- Bits -------------------------------------------------------------

  /** Bit k of x, the test `x & (1 << k)`. */
  predicate BitSet(x: nat, k: nat)
    decreases k
  {
    if k == 0 then x % 2 == 1 else BitSet(x / 2, k - 1)
  }

  /** `x | (1 << k)` when `on`, and `x & ~(1 << k)` otherwise. */
  function PutBit(x: nat, k: nat, on: bool): (y: nat)
    decreases k
  {
    if k == 0 then 2 * (x / 2) + (if on then 1 else 0)
    else 2 * PutBit(x / 2, k - 1, on) + x % 2
  }

  function Pow2(n: nat): (p: nat)
    ensures p > 0
  {
    if n == 0 then 1 else 2 * Pow2(n - 1)
  }

  lemma {:induction false} PutBitBound(x: nat, k: nat, on: bool, n: nat)
    requires k < n && x < Pow2(n)
    ensures PutBit(x, k, on) < Pow2(n)
    decreases k
  {
    if k > 0 {
      PutBitBound(x / 2, k - 1, on, n - 1);
    }
  }

  lemma {:induction false} PutBitGet(x: nat, k: nat, on: bool, j: nat)
    ensures BitSet(PutBit(x, k, on), j) <==> if j == k then on else BitSet(x, j)
    decreases k
  {
    var y := PutBit(x, k, on);
    if k == 0 {
      assert y / 2 == x / 2;
    } else {
      assert y / 2 == PutBit(x / 2, k - 1, on) && y % 2 == x % 2;
      if j > 0 {
        PutBitGet(x / 2, k - 1, on, j - 1);
      }
    }
  }

  lemma {:induction false} ZeroHasNoBits(k: nat)
    ensures !BitSet(0, k)
    decreases k
  {
    if k > 0 {
      ZeroHasNoBits(k - 1);
    }
  }

  lemma PutBitGetAll(x: nat, k: nat, on: bool)
    ensures forall j: nat :: BitSet(PutBit(x, k, on), j) <==> if j == k then on else BitSet(x, j)
  {
    forall j: nat
      ensures BitSet(PutBit(x, k, on), j) <==> if j == k then on else BitSet(x, j)
    {
      PutBitGet(x, k, on, j);
    }
  }

  /** The masked update of one bitmap byte stays a byte. */
  function PutByteBit(x: Byte, k: nat, on: bool): (y: Byte)
    requires k < 8
    ensures forall j: nat :: BitSet(y, j) <==> if j == k then on else BitSet(x, j)
  {
    assert Pow2(8) == 256 by {
      assert Pow2(4) == 16;
    }
    PutBitBound(x, k, on, 8);
    PutBitGetAll(x, k, on);
    PutBit(x, k, on)
  }

  // ---- 32-bit words -------------------------------------------------------

  /** The little-endian value of four bytes. */
  function Word(a: Byte, b: Byte, c: Byte, d: Byte): (v: nat)
    ensures v <= UINT_MAX
    ensures v == 0 <==> a == 0 && b == 0 && c == 0 && d == 0
  {
    a + 256 * (b + 256 * (c + 256 * d))
  }

  function WordBytes(v: nat): (s: seq<Byte>)
    requires v <= UINT_MAX
    ensures |s| == 4 && Word(s[0], s[1], s[2], s[3]) == v
  {
    var v1 := v / 256;
    var v2 := v1 / 256;
    [v % 256, v1 % 256, v2 % 256, v2 / 256]
  }
}
