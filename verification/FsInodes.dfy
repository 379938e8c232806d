/** Inodes as they lie on disk, IPB to a block. */
module FsInodes {
  import opened Blocks
  import opened Bitmap
  import opened FsState
  import opened FsFiles

  const INODE_WORDS: nat := 16   // sizeof(struct dinode) / sizeof(uint)

  ghost predicate InodeFits(ip: Inode) {
    && ip.typ < 65536 && ip.major < 65536 && ip.minor < 65536 && ip.nlink < 65536 && ip.size < U32MAX
    && |ip.addrs| == NDIRECT + 1 && forall d :: 0 <= d < |ip.addrs| ==> ip.addrs[d] < U32MAX
  }

  /** The words of a struct dinode: two pairs of shorts, the size, the addresses. */
  function Words(ip: Inode): seq<nat> {
    [ip.typ + 65536 * ip.major, ip.minor + 65536 * ip.nlink, ip.size] + ip.addrs
  }

  /** The n words from word w on. */
  function WordsAt(b: Block, w: nat, n: nat): (ws: seq<nat>)
    requires w + n <= BSIZE / 4
    ensures |ws| == n && forall k :: 0 <= k < n ==> ws[k] == Word(b, w + k)
  {
    if n == 0 then [] else WordsAt(b, w, n - 1) + [Word(b, w + n - 1)]
  }

  function FromWords(ws: seq<nat>): Inode
    requires |ws| == INODE_WORDS
  {
    Inode(ws[0] % 65536, ws[0] / 65536, ws[1] % 65536, ws[1] / 65536, ws[2], ws[3..])
  }

  /** The inode read from slot x of an inode block, as ilock does. */
  function Decode(b: Block, x: nat): Inode
    requires x < IPB
  {
    FromWords(WordsAt(b, INODE_WORDS * x, INODE_WORDS))
  }

  /** Store ws[..m] in consecutive words from base on. */
  function PutWords(b: Block, base: nat, ws: seq<nat>, m: nat): Block
    requires m <= |ws| && base + |ws| <= BSIZE / 4 && forall k :: 0 <= k < |ws| ==> ws[k] < U32MAX
  {
    if m == 0 then b else PutWord(PutWords(b, base, ws, m - 1), base + m - 1, ws[m - 1])
  }

  lemma {:induction false} PutWordsAt(b: Block, base: nat, ws: seq<nat>, m: nat, w: nat)
    requires m <= |ws| && base + |ws| <= BSIZE / 4 && w < BSIZE / 4 && forall k :: 0 <= k < |ws| ==> ws[k] < U32MAX
    ensures Word(PutWords(b, base, ws, m), w) == if base <= w < base + m then ws[w - base] else Word(b, w)
  {
    if m > 0 {
      PutWordsAt(b, base, ws, m - 1, w);
      PutWordReadsBack(PutWords(b, base, ws, m - 1), base + m - 1, ws[m - 1], w);
    }
  }

  /** The inode block after iupdate stored ip in slot x. */
  function Encode(b: Block, x: nat, ip: Inode): Block
    requires x < IPB && |ip.addrs| == NDIRECT + 1 && forall k :: 0 <= k < INODE_WORDS ==> Words(ip)[k] < U32MAX
  {
    PutWords(b, INODE_WORDS * x, Words(ip), INODE_WORDS)
  }

  lemma WordsFit(ip: Inode)
    requires InodeFits(ip)
    ensures |Words(ip)| == INODE_WORDS && forall k :: 0 <= k < INODE_WORDS ==> Words(ip)[k] < U32MAX
  {
  }

  /** An inode stored by iupdate is what ilock loads, and the other inodes of the block are undisturbed. */
  lemma EncodeReadsBack(b: Block, x: nat, ip: Inode, y: nat)
    requires InodeFits(ip) && x < IPB && y < IPB && forall k :: 0 <= k < INODE_WORDS ==> Words(ip)[k] < U32MAX
    ensures Decode(Encode(b, x, ip), y) == if y == x then ip else Decode(b, y)
  {
    hide Word, PutWords;
    WordsFit(ip);
    var c, ws := Encode(b, x, ip), Words(ip);
    var l, r := WordsAt(c, INODE_WORDS * y, INODE_WORDS),
        if y == x then ws else WordsAt(b, INODE_WORDS * y, INODE_WORDS);
    forall k | 0 <= k < INODE_WORDS ensures l[k] == r[k] {
      PutWordsAt(b, INODE_WORDS * x, ws, INODE_WORDS, INODE_WORDS * y + k);
      assert l[k] == Word(c, INODE_WORDS * y + k);
    }
    assert l == r;
    assert ws[3..] == ip.addrs;
  }

  /** The inode on disk. */
  function OnDisk(sb: Super, blk: Disk, i: nat): Inode {
    Decode(At(blk, IBlock(sb, i)), i % IPB)
  }

  function Updated(sb: Super, blk: Disk, i: nat, ip: Inode): Disk
    requires |ip.addrs| == NDIRECT + 1 && forall k :: 0 <= k < INODE_WORDS ==> Words(ip)[k] < U32MAX
  {
    blk[IBlock(sb, i) := Encode(At(blk, IBlock(sb, i)), i % IPB, ip)]
  }

  lemma UpdatedOnDisk(sb: Super, blk: Disk, i: nat, ip: Inode, j: nat)
    requires InodeFits(ip) && forall k :: 0 <= k < INODE_WORDS ==> Words(ip)[k] < U32MAX
    ensures OnDisk(sb, Updated(sb, blk, i, ip), j) == if j == i then ip else OnDisk(sb, blk, j)
  {
    hide Encode, Decode;
    if j / IPB == i / IPB {
      EncodeReadsBack(At(blk, IBlock(sb, i)), i % IPB, ip, j % IPB);
      assert j % IPB == i % IPB ==> j == i;
    }
  }

  /** Writing an inode block touches no file's data, no slot and no bitmap bit. */
  lemma InodeWrite(sb: Super, blk: Disk, ino: seq<Inode>, o: Own, i: nat, x: Block)
    requires Owned(sb, blk, ino, o) && o.dead == {} && i < sb.ninodes
    ensures Owned(sb, blk[IBlock(sb, i) := x], ino, o) && SameSlots(blk, ino, blk[IBlock(sb, i) := x], ino)
    ensures forall b :: sb.nmeta <= b ==> At(blk[IBlock(sb, i) := x], b) == At(blk, b)
  {
    hide Bit;
    var k := IBlock(sb, i);
    assert BBlock(sb, 0) >= sb.bmapstart > k;
    assert k < sb.nmeta by { assert BBlock(sb, 0) < sb.nmeta; }
    UnownedWrite(sb, blk, ino, o, k, x);
    forall b | 0 <= b < sb.size ensures Used(sb, blk[k := x], b) == Used(sb, blk, b) {
      assert BBlock(sb, b) != k;
    }
    var blk' := blk[k := x];
    SlotsStillOwned(sb, blk, ino, o, blk');
    hide SlotVal, Used;
    assert Shaped(sb, blk', ino, o) && BitsOwned(sb, blk', o);
  }

  /** What leaves the data blocks alone leaves every file alone. */
  lemma FilesSame(sb: Super, blk: Disk, ino: seq<Inode>, o: Own, blk': Disk, j: nat)
    requires Owned(sb, blk, ino, o) && o.dead == {} && j < |ino| && NoHoles(blk, ino[j])
    requires forall b :: sb.nmeta <= b ==> At(blk', b) == At(blk, b)
    ensures NoHoles(blk', ino[j]) && Contents(blk', ino[j]) == Contents(blk, ino[j])
  {
    forall c: nat ensures FileBlock(blk', ino[j], c) == FileBlock(blk, ino[j], c) {
      if Addr(ino[j], NDIRECT) != 0 {
        IndirectOwned(sb, blk, ino, o, j);
      }
    }
    hide FileBlock, Owned;
    forall k: nat | k < ino[j].size ensures FileByte(blk', ino[j], k) == FileByte(blk, ino[j], k) {
      BlockOf(k, ino[j].size);
      FileBlockOwned(sb, blk, ino, o, j, k / BSIZE);
    }
  }
}
