/** The free bitmap: one bit per disk block, in the blocks from bmapstart on. */
module Bitmap {
  import opened Blocks

  const BPB: nat := BSIZE * 8

  function Pow2(w: nat): nat {
    if w == 0 then 1 else 2 * Pow2(w - 1)
  }

  /** x & (1 << k) is not zero. */
  predicate IsSet(x: nat, k: nat) {
    if k == 0 then x % 2 == 1 else IsSet(x / 2, k - 1)
  }

  /** x | (1 << k). */
  function SetBit(x: nat, k: nat): nat {
    if k == 0 then 2 * (x / 2) + 1 else 2 * SetBit(x / 2, k - 1) + x % 2
  }

  /** x & ~(1 << k). */
  function ClearBit(x: nat, k: nat): nat {
    if k == 0 then 2 * (x / 2) else 2 * ClearBit(x / 2, k - 1) + x % 2
  }

  lemma {:induction false} BitsIndependent(x: nat, k: nat, j: nat)
    ensures IsSet(SetBit(x, k), j) <==> j == k || IsSet(x, j)
    ensures IsSet(ClearBit(x, k), j) <==> j != k && IsSet(x, j)
  {
    if j > 0 && k > 0 {
      BitsIndependent(x / 2, k - 1, j - 1);
    }
  }

  lemma {:induction false} BitsBounded(x: nat, k: nat, w: nat)
    requires k < w && x < Pow2(w)
    ensures SetBit(x, k) < Pow2(w) && ClearBit(x, k) < Pow2(w)
  {
    if k > 0 {
      BitsBounded(x / 2, k - 1, w - 1);
    }
  }

  /** Bit bi of a bitmap block. */
  predicate Bit(b: Block, bi: nat)
    requires bi < BPB
  {
    IsSet(b[bi / 8], bi % 8)
  }

  /** The block after data[bi/8] |= m, or data[bi/8] &= ~m. */
  function PutBit(b: Block, bi: nat, on: bool): (c: Block)
    requires bi < BPB
    ensures forall bj :: 0 <= bj < BPB ==> (Bit(c, bj) <==> if bj == bi then on else Bit(b, bj))
  {
    var x := b[bi / 8];
    assert Pow2(8) == 256 by { Pow2Eight(); }
    BitsBounded(x, bi % 8, 8);
    var y := if on then SetBit(x, bi % 8) else ClearBit(x, bi % 8);
    PutBitAll(b, bi, on, y);
    b[bi / 8 := y]
  }

  lemma Pow2Eight()
    ensures Pow2(8) == 256
  {
    assert Pow2(4) == 16;
  }

  lemma PutBitAll(b: Block, bi: nat, on: bool, y: byte)
    requires bi < BPB && y == if on then SetBit(b[bi / 8], bi % 8) else ClearBit(b[bi / 8], bi % 8)
    ensures forall bj :: 0 <= bj < BPB ==> (Bit(b[bi / 8 := y], bj) <==> if bj == bi then on else Bit(b, bj))
  {
    forall bj | 0 <= bj < BPB ensures Bit(b[bi / 8 := y], bj) <==> if bj == bi then on else Bit(b, bj) {
      if bj / 8 == bi / 8 {
        BitsIndependent(b[bi / 8], bi % 8, bj % 8);
        assert bj % 8 == bi % 8 ==> bj == bi;
      }
    }
  }
}
