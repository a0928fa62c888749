/** Bits of a free-map block, stored eight to a byte. */
module Bitmap {
  import opened Blocks

  /** Bits per block. */
  const BPB := 4096

  /** `(x & (1 << k)) != 0`. */
  predicate TestBit(x: nat, k: nat) {
    if k == 0 then x % 2 == 1 else TestBit(x / 2, k - 1)
  }

  /** `x | (1 << k)` or `x & ~(1 << k)`. */
  function AssignBit(x: nat, k: nat, v: bool): (y: nat) {
    if k == 0 then x / 2 * 2 + (if v then 1 else 0) else AssignBit(x / 2, k - 1, v) * 2 + x % 2
  }

  lemma {:induction false} AssignedBit(x: nat, k: nat, v: bool, j: nat)
    ensures TestBit(AssignBit(x, k, v), j) == if j == k then v else TestBit(x, j)
  {
    if k > 0 && j > 0 {
      AssignedBit(x / 2, k - 1, v, j - 1);
    }
  }

  function Pow2(n: nat): nat {
    if n == 0 then 1 else 2 * Pow2(n - 1)
  }

  lemma {:induction false} AssignedFits(x: nat, k: nat, v: bool, n: nat)
    requires k < n && x < Pow2(n)
    ensures AssignBit(x, k, v) < Pow2(n)
  {
    if k > 0 {
      AssignedFits(x / 2, k - 1, v, n - 1);
    }
  }

  predicate GetBit(b: Block, i: nat)
    requires i < BPB
  {
    TestBit(b[i / 8], i % 8)
  }

  /** The byte of bit i with that bit assigned. */
  function PutByte(b: Block, i: nat, v: bool): (y: Byte)
    requires i < BPB
  {
    assert Pow2(8) == 256;
    AssignedFits(b[i / 8], i % 8, v, 8);
    AssignBit(b[i / 8], i % 8, v)
  }

  function PutBit(b: Block, i: nat, v: bool): (r: Block)
    requires i < BPB
  {
    b[i / 8 := PutByte(b, i, v)]
  }

  lemma PutBitBits(b: Block, i: nat, v: bool)
    requires i < BPB
    ensures forall j :: 0 <= j < BPB ==> GetBit(PutBit(b, i, v), j) == if j == i then v else GetBit(b, j)
  {
    forall j | 0 <= j < BPB
      ensures GetBit(PutBit(b, i, v), j) == if j == i then v else GetBit(b, j)
    {
      AssignedBit(b[i / 8], i % 8, v, j % 8);
    }
  }
}
