/** Disk blocks as byte sequences, and the little-endian 32-bit words the kernel keeps in them. */
module Blocks {

  const BSIZE: nat := 1024
  const U32MAX: nat := 0x1_0000_0000

  type byte = x: int | 0 <= x < 256
  type Block = b: seq<byte> | |b| == BSIZE witness seq(BSIZE, _ => 0)

  /** A disk: every block number the device has, with its contents. */
  type Disk = map<nat, Block>

  function ZeroBlock(): Block {
    seq(BSIZE, _ => 0)
  }

  /** The uint stored at word index w of a block. */
  function Word(b: Block, w: nat): nat
    requires w < BSIZE / 4
  {
    (b[4 * w] as int) + 256 * (b[4 * w + 1] as int) + 65536 * (b[4 * w + 2] as int) + 16777216 * (b[4 * w + 3] as int)
  }

  /** Store v at word index w. */
  function PutWord(b: Block, w: nat, v: nat): Block
    requires w < BSIZE / 4 && v < U32MAX
  {
    b[4 * w := v % 256]
     [4 * w + 1 := v / 256 % 256]
     [4 * w + 2 := v / 256 / 256 % 256]
     [4 * w + 3 := v / 256 / 256 / 256]
  }

  /** A stored word reads back, and storing it disturbs no other word. */
  lemma PutWordReadsBack(b: Block, w: nat, v: nat, w': nat)
    requires w < BSIZE / 4 && w' < BSIZE / 4 && v < U32MAX
    ensures Word(PutWord(b, w, v), w') == if w' == w then v else Word(b, w')
  {
    if w' == w {
      var x, y := v / 256, v / 256 / 256;
      assert v == 256 * x + v % 256 && x == 256 * y + x % 256 && y == 256 * (y / 256) + y % 256;
    }
  }

  lemma ZeroWord(w: nat)
    requires w < BSIZE / 4
    ensures Word(ZeroBlock(), w) == 0
  {
  }
}
