/** A file's bytes, and what writing some of its blocks does to them and to every other file. */
module FsFiles {
  import opened Blocks
  import opened Bitmap
  import opened FsState

  function FileByte(blk: Disk, ip: Inode, k: nat): byte {
    At(blk, FileBlock(blk, ip, k / BSIZE))[k % BSIZE]
  }

  /** The file as a byte sequence. */
  function Contents(blk: Disk, ip: Inode): (c: seq<byte>)
    ensures |c| == ip.size
  {
    seq(ip.size, k requires 0 <= k < ip.size => FileByte(blk, ip, k))
  }

  /** Every block below the file's size is mapped. */
  ghost predicate NoHoles(blk: Disk, ip: Inode) {
    ip.size <= MAXFILE * BSIZE && MappedTo(blk, ip, ip.size)
  }

  ghost predicate MappedTo(blk: Disk, ip: Inode, len: nat) {
    forall bn: nat :: bn * BSIZE < len ==> FileBlock(blk, ip, bn) != 0
  }

  /** Bytes [off, off + |d|) replaced by d, the file growing if they end past it. */
  function Overlay(c: seq<byte>, off: nat, d: seq<byte>): seq<byte>
    requires off <= |c|
  {
    c[..off] + d + if off + |d| < |c| then c[off + |d|..] else []
  }

  lemma BlockOf(k: nat, len: nat)
    requires k < len
    ensures k / BSIZE * BSIZE < len
  {
  }

  // ------------------------------------------------------- growth moves nothing

  lemma GrownBlock(sb: Super, blk: Disk, ino: seq<Inode>, o: Own, blk': Disk, ino': seq<Inode>, o': Own, i: nat, j: nat,
                   bn: nat)
    requires Owned(sb, blk, ino, o) && o.dead == {} && Grown(blk, ino, o, blk', ino', o', i) && j < |ino|
    requires FileBlock(blk, ino[j], bn) != 0
    ensures FileBlock(blk', ino'[j], bn) == FileBlock(blk, ino[j], bn)
    ensures At(blk', FileBlock(blk, ino[j], bn)) == At(blk, FileBlock(blk, ino[j], bn))
  {
    var s := Slot(j, bn);
    assert IsSlot(ino, s) && SlotVal(blk, ino, s) == FileBlock(blk, ino[j], bn);
    assert SlotVal(blk', ino', s) == FileBlock(blk', ino'[j], bn);
  }

  // --------------------------------------------------------- writing a file

  /** Inode i's file has src[..tot] at off, the bytes outside [off, hi) as in the first state, and every block
      below its size and below off + tot mapped; every other file is as it was. */
  ghost predicate Progress(blk0: Disk, ino0: seq<Inode>, blk: Disk, ino: seq<Inode>, i: nat, src: seq<byte>, off: nat,
                           tot: nat, hi: nat) {
    && |ino| == |ino0| && i < |ino| && tot <= |src|
    && (forall j :: 0 <= j < |ino| && j != i ==> ino[j] == ino0[j] && SameFile(blk0, ino0[j], blk, ino[j]))
    && ino[i] == ino0[i].(addrs := ino[i].addrs)
    && (forall k: nat :: k < ino[i].size && !(off <= k < hi) ==> FileByte(blk, ino[i], k) == FileByte(blk0, ino0[i], k))
    && (forall k: nat :: off <= k < off + tot ==> FileByte(blk, ino[i], k) == src[k - off])
    && MappedTo(blk, ino[i], ino[i].size) && MappedTo(blk, ino[i], off + tot)
  }

  ghost predicate SameFile(blk: Disk, ip: Inode, blk': Disk, ip': Inode) {
    && ip' == ip && (NoHoles(blk, ip) ==> NoHoles(blk', ip'))
    && forall k: nat :: k < ip.size ==> FileByte(blk', ip', k) == FileByte(blk, ip, k)
  }

  lemma ProgressStart(blk: Disk, ino: seq<Inode>, i: nat, src: seq<byte>, off: nat)
    requires i < |ino| && NoHoles(blk, ino[i]) && off <= ino[i].size
    ensures Progress(blk, ino, blk, ino, i, src, off, 0, off)
  {
  }

  lemma GrownByte(sb: Super, blk: Disk, ino: seq<Inode>, o: Own, blk': Disk, ino': seq<Inode>, o': Own, i: nat, j: nat,
                  k: nat)
    requires Owned(sb, blk, ino, o) && o.dead == {} && Grown(blk, ino, o, blk', ino', o', i) && j < |ino|
    requires FileBlock(blk, ino[j], k / BSIZE) != 0
    ensures FileByte(blk', ino'[j], k) == FileByte(blk, ino[j], k)
  {
    hide FileBlock, Owned, Grown;
    GrownBlock(sb, blk, ino, o, blk', ino', o', i, j, k / BSIZE);
  }

  lemma GrownMapped(sb: Super, blk: Disk, ino: seq<Inode>, o: Own, blk': Disk, ino': seq<Inode>, o': Own, i: nat,
                    j: nat, len: nat)
    requires Owned(sb, blk, ino, o) && o.dead == {} && Grown(blk, ino, o, blk', ino', o', i) && j < |ino|
    requires MappedTo(blk, ino[j], len)
    ensures MappedTo(blk', ino'[j], len) && forall k: nat :: k < len ==>
            FileByte(blk', ino'[j], k) == FileByte(blk, ino[j], k)
  {
    hide FileBlock, Owned, FileByte;
    forall bn: nat | bn * BSIZE < len ensures FileBlock(blk', ino'[j], bn) != 0 {
      GrownBlock(sb, blk, ino, o, blk', ino', o', i, j, bn);
    }
    forall k: nat | k < len ensures FileByte(blk', ino'[j], k) == FileByte(blk, ino[j], k) {
      BlockOf(k, len);
      GrownByte(sb, blk, ino, o, blk', ino', o', i, j, k);
    }
  }

  /** bmap on the way keeps the progress. */
  lemma ProgressGrown(sb: Super, blk0: Disk, ino0: seq<Inode>, blk: Disk, ino: seq<Inode>, o: Own,
                      blk': Disk, ino': seq<Inode>, o': Own, i: nat, src: seq<byte>, off: nat, tot: nat)
    requires Owned(sb, blk, ino, o) && o.dead == {} && Grown(blk, ino, o, blk', ino', o', i)
    requires Progress(blk0, ino0, blk, ino, i, src, off, tot, off + tot)
    requires forall j :: 0 <= j < |ino| && j != i ==> NoHoles(blk0, ino0[j])
    ensures Progress(blk0, ino0, blk', ino', i, src, off, tot, off + tot)
  {
    hide MappedTo, Owned, FileByte, SlotVal;
    forall j | 0 <= j < |ino| && j != i ensures SameFile(blk0, ino0[j], blk', ino'[j]) {
      assert SameFile(blk0, ino0[j], blk, ino[j]);
      GrownMapped(sb, blk, ino, o, blk', ino', o', i, j, ino[j].size);
    }
    GrownMapped(sb, blk, ino, o, blk', ino', o', i, i, ino[i].size);
    GrownMapped(sb, blk, ino, o, blk', ino', o', i, i, off + tot);
  }

  /** Block contents with d stored at byte p. */
  function Patch(b: Block, p: nat, d: seq<byte>): (c: Block)
    requires p + |d| <= BSIZE
    ensures forall k :: 0 <= k < BSIZE ==> c[k] == if p <= k < p + |d| then d[k - p] else b[k]
  {
    b[..p] + d + b[p + |d|..]
  }

  /** Overwriting the block that holds file block bn changes those bytes of that file and no others. */
  lemma BytesAfter(sb: Super, blk: Disk, ino: seq<Inode>, o: Own, i: nat, bn: nat, x: Block, j: nat, k: nat)
    requires Owned(sb, blk, ino, o) && o.dead == {} && i < |ino| && j < |ino| && FileBlock(blk, ino[i], bn) != 0
    requires SameSlots(blk, ino, blk[FileBlock(blk, ino[i], bn) := x], ino)
    requires FileBlock(blk, ino[j], k / BSIZE) != 0
    ensures var blk' := blk[FileBlock(blk, ino[i], bn) := x];
            FileByte(blk', ino[j], k) == if j == i && k / BSIZE == bn then x[k % BSIZE] else FileByte(blk, ino[j], k)
  {
    var s, t := Slot(i, bn), Slot(j, k / BSIZE);
    var blk' := blk[FileBlock(blk, ino[i], bn) := x];
    assert IsSlot(ino, s) && IsSlot(ino, t);
    assert SlotVal(blk, ino, s) == FileBlock(blk, ino[i], bn) &&
           SlotVal(blk, ino, t) == FileBlock(blk, ino[j], k / BSIZE);
    assert SlotVal(blk', ino, t) == FileBlock(blk', ino[j], k / BSIZE);
    if SlotVal(blk, ino, s) == SlotVal(blk, ino, t) {
      NoSharing(sb, blk, ino, o, s, t);
    }
  }

  lemma SameBlocks(blk: Disk, ino: seq<Inode>, blk': Disk, j: nat, bn: nat)
    requires SameSlots(blk, ino, blk', ino) && j < |ino|
    ensures FileBlock(blk', ino[j], bn) == FileBlock(blk, ino[j], bn)
  {
    if bn < MAXFILE {
      var s := Slot(j, bn);
      assert IsSlot(ino, s) && SlotVal(blk', ino, s) == SlotVal(blk, ino, s);
    }
  }

  /** The file block that an owned data block is, so that it is no indirect block. */
  lemma FileBlockOwned(sb: Super, blk: Disk, ino: seq<Inode>, o: Own, i: nat, bn: nat)
    requires Owned(sb, blk, ino, o) && o.dead == {} && i < |ino| && FileBlock(blk, ino[i], bn) != 0
    ensures bn < MAXFILE && FileBlock(blk, ino[i], bn) in o.owner && o.owner[FileBlock(blk, ino[i], bn)] == Slot(i, bn)
    ensures sb.nmeta <= FileBlock(blk, ino[i], bn) < sb.size
  {
    assert IsSlot(ino, Slot(i, bn)) && SlotVal(blk, ino, Slot(i, bn)) == FileBlock(blk, ino[i], bn);
  }

  /** Storing the next m bytes in the block that holds them is progress by m. */
  lemma ProgressWrite(sb: Super, blk0: Disk, ino0: seq<Inode>, blk: Disk, ino: seq<Inode>, o: Own,
                      i: nat, src: seq<byte>, off: nat, tot: nat, m: nat)
    requires Owned(sb, blk, ino, o) && o.dead == {} && Progress(blk0, ino0, blk, ino, i, src, off, tot, off + tot)
    requires FileBlock(blk, ino[i], (off + tot) / BSIZE) != 0
    requires tot + m <= |src| && (off + tot) % BSIZE + m <= BSIZE
    requires forall j :: 0 <= j < |ino| && j != i ==> NoHoles(blk0, ino0[j])
    ensures var b := FileBlock(blk, ino[i], (off + tot) / BSIZE);
            var blk' := blk[b := Patch(At(blk, b), (off + tot) % BSIZE, src[tot..tot + m])];
            && Owned(sb, blk', ino, o) && SameSlots(blk, ino, blk', ino)
            && Progress(blk0, ino0, blk', ino, i, src, off, tot + m, off + tot + m)
  {
    var bn := (off + tot) / BSIZE;
    var b := FileBlock(blk, ino[i], bn);
    var x := Patch(At(blk, b), (off + tot) % BSIZE, src[tot..tot + m]);
    var blk' := blk[b := x];
    FileBlockOwned(sb, blk, ino, o, i, bn);
    DataWrite(sb, blk, ino, o, b, x);
    ProgressBytes(sb, blk0, ino0, blk, ino, o, i, src, off, tot, m, x, blk');
  }

  lemma OthersSame(sb: Super, blk: Disk, ino: seq<Inode>, o: Own, i: nat, bn: nat, x: Block, blk': Disk, j: nat)
    requires Owned(sb, blk, ino, o) && o.dead == {} && i < |ino| && j < |ino| && j != i &&
             FileBlock(blk, ino[i], bn) != 0
    requires blk' == blk[FileBlock(blk, ino[i], bn) := x] && SameSlots(blk, ino, blk', ino) && NoHoles(blk, ino[j])
    ensures SameFile(blk, ino[j], blk', ino[j]) && NoHoles(blk', ino[j])
  {
    forall c: nat ensures FileBlock(blk', ino[j], c) == FileBlock(blk, ino[j], c) {
      SameBlocks(blk, ino, blk', j, c);
    }
    hide FileBlock, SameSlots, Owned;
    forall k: nat | k < ino[j].size ensures FileByte(blk', ino[j], k) == FileByte(blk, ino[j], k) {
      BlockOf(k, ino[j].size);
      BytesAfter(sb, blk, ino, o, i, bn, x, j, k);
    }
  }

  lemma ProgressMapped(blk: Disk, ip: Inode, off: nat, tot: nat, m: nat, k: nat)
    requires MappedTo(blk, ip, ip.size) && MappedTo(blk, ip, off + tot) && FileBlock(blk, ip, (off + tot) / BSIZE) != 0
    requires (off + tot) % BSIZE + m <= BSIZE && (k < ip.size || k < off + tot + m)
    ensures FileBlock(blk, ip, k / BSIZE) != 0
  {
    if k < ip.size {
      BlockOf(k, ip.size);
    } else if k < off + tot {
      BlockOf(k, off + tot);
    } else {
      SameBlock(off + tot, k, m);
    }
  }

  lemma ProgressBytes(sb: Super, blk0: Disk, ino0: seq<Inode>, blk: Disk, ino: seq<Inode>, o: Own,
                      i: nat, src: seq<byte>, off: nat, tot: nat, m: nat, x: Block, blk': Disk)
    requires Owned(sb, blk, ino, o) && o.dead == {} && Progress(blk0, ino0, blk, ino, i, src, off, tot, off + tot)
    requires FileBlock(blk, ino[i], (off + tot) / BSIZE) != 0
    requires tot + m <= |src| && (off + tot) % BSIZE + m <= BSIZE
    requires forall j :: 0 <= j < |ino| && j != i ==> NoHoles(blk0, ino0[j])
    requires x == Patch(At(blk, FileBlock(blk, ino[i], (off + tot) / BSIZE)), (off + tot) % BSIZE, src[tot..tot + m])
    requires blk' == blk[FileBlock(blk, ino[i], (off + tot) / BSIZE) := x] && SameSlots(blk, ino, blk', ino)
    ensures Progress(blk0, ino0, blk', ino, i, src, off, tot + m, off + tot + m)
  {
    hide FileBlock, SameSlots, Owned, Patch;
    var cur := off + tot;
    forall j | 0 <= j < |ino| && j != i ensures SameFile(blk0, ino0[j], blk', ino[j]) {
      assert SameFile(blk0, ino0[j], blk, ino[j]);
      OthersSame(sb, blk, ino, o, i, cur / BSIZE, x, blk', j);
    }
    forall k: nat | k < ino[i].size || k < cur + m
      ensures FileByte(blk', ino[i], k) == if cur <= k < cur + m then src[k - off] else FileByte(blk, ino[i], k)
    {
      ProgressMapped(blk, ino[i], off, tot, m, k);
      PatchedByte(sb, blk, ino, o, i, src, off, tot, m, x, blk', k);
    }
    forall c: nat | c * BSIZE < ino[i].size || c * BSIZE < cur + m ensures FileBlock(blk', ino[i], c) != 0 {
      SameBlocks(blk, ino, blk', i, c);
      assert c * BSIZE / BSIZE == c;
      ProgressMapped(blk, ino[i], off, tot, m, c * BSIZE);
    }
  }

  lemma SameBlock(cur: nat, k: nat, m: nat)
    requires cur <= k < cur + m && cur % BSIZE + m <= BSIZE
    ensures k / BSIZE == cur / BSIZE && k % BSIZE == cur % BSIZE + (k - cur)
  {
  }

  lemma PatchedByte(sb: Super, blk: Disk, ino: seq<Inode>, o: Own, i: nat, src: seq<byte>, off: nat, tot: nat, m: nat,
                    x: Block, blk': Disk, k: nat)
    requires Owned(sb, blk, ino, o) && o.dead == {} && i < |ino|
    requires FileBlock(blk, ino[i], (off + tot) / BSIZE) != 0
    requires tot + m <= |src| && (off + tot) % BSIZE + m <= BSIZE
    requires x == Patch(At(blk, FileBlock(blk, ino[i], (off + tot) / BSIZE)), (off + tot) % BSIZE, src[tot..tot + m])
    requires blk' == blk[FileBlock(blk, ino[i], (off + tot) / BSIZE) := x] && SameSlots(blk, ino, blk', ino)
    requires FileBlock(blk, ino[i], k / BSIZE) != 0
    ensures FileByte(blk', ino[i], k) == if off + tot <= k < off + tot + m then src[k - off]
                                         else FileByte(blk, ino[i], k)
  {
    hide FileBlock, SameSlots, Owned;
    var cur := off + tot;
    BytesAfter(sb, blk, ino, o, i, cur / BSIZE, x, i, k);
    if cur <= k < cur + m {
      SameBlock(cur, k, m);
    } else if k / BSIZE == cur / BSIZE {
      assert !(cur % BSIZE <= k % BSIZE < cur % BSIZE + m);
    }
  }

  lemma ProgressLess(blk0: Disk, ino0: seq<Inode>, blk: Disk, ino: seq<Inode>, i: nat, src: seq<byte>, off: nat,
                     tot: nat, m: nat, hi: nat)
    requires Progress(blk0, ino0, blk, ino, i, src, off, tot + m, hi)
    ensures Progress(blk0, ino0, blk, ino, i, src, off, tot, hi)
  {
  }

  /** The size field decides no block and no byte. */
  lemma Resized(sb: Super, blk: Disk, ino: seq<Inode>, o: Own, i: nat, size: nat)
    requires Owned(sb, blk, ino, o) && i < |ino|
    ensures Owned(sb, blk, ino[i := ino[i].(size := size)], o)
  {
    var ino' := ino[i := ino[i].(size := size)];
    forall s | IsSlot(ino, s) ensures SlotVal(blk, ino', s) == SlotVal(blk, ino, s) {}
    hide SlotVal, Used;
  }

  /** What a finished write has made of the file: src[..tot] is at off, what was before it is as it was, and if nothing
      after it was touched the file is the old one overlaid with src[..tot]. */
  lemma Wrote(blk0: Disk, ino0: seq<Inode>, blk: Disk, ino: seq<Inode>, i: nat, src: seq<byte>, off: nat, tot: nat,
              hi: nat, ip: Inode)
    requires Progress(blk0, ino0, blk, ino, i, src, off, tot, hi) && off <= ino0[i].size <= MAXFILE * BSIZE &&
             off + tot <= MAXFILE * BSIZE
    requires ip == ino[i].(size := if off + tot > ino[i].size then off + tot else ino[i].size)
    ensures NoHoles(blk, ip)
    ensures Contents(blk, ip)[..off] == Contents(blk0, ino0[i])[..off] &&
            Contents(blk, ip)[off..off + tot] == src[..tot]
    ensures hi == off + tot ==> Contents(blk, ip) == Overlay(Contents(blk0, ino0[i]), off, src[..tot])
  {
    forall c: nat ensures FileBlock(blk, ip, c) == FileBlock(blk, ino[i], c) {}
    forall k: nat ensures FileByte(blk, ip, k) == FileByte(blk, ino[i], k) {}
    hide FileBlock, FileByte;
    var c0, c := Contents(blk0, ino0[i]), Contents(blk, ip);
    forall k | 0 <= k < off ensures c[k] == c0[k] {
      assert FileByte(blk, ino[i], k) == FileByte(blk0, ino0[i], k);
    }
    forall k | 0 <= k < tot ensures c[off + k] == src[k] {
      assert FileByte(blk, ino[i], off + k) == src[off + k - off];
    }
    if hi == off + tot {
      var d := Overlay(c0, off, src[..tot]);
      assert |d| == |c|;
      forall k | off + tot <= k < |c| ensures c[k] == d[k] {
        assert FileByte(blk, ino[i], k) == FileByte(blk0, ino0[i], k);
      }
      forall k | 0 <= k < |c| ensures c[k] == d[k] {
        if off <= k < off + tot {
          assert c[off + (k - off)] == src[k - off];
        }
      }
    }
  }

  lemma WroteOthers(blk0: Disk, ino0: seq<Inode>, blk: Disk, ino: seq<Inode>, i: nat, src: seq<byte>, off: nat,
                    tot: nat, hi: nat)
    requires Progress(blk0, ino0, blk, ino, i, src, off, tot, hi)
    requires forall j :: 0 <= j < |ino0| ==> NoHoles(blk0, ino0[j])
    ensures |ino| == |ino0| && ino[i] == ino0[i].(addrs := ino[i].addrs)
    ensures forall j :: 0 <= j < |ino| && j != i ==>
      ino[j] == ino0[j] && NoHoles(blk, ino[j]) && Contents(blk, ino[j]) == Contents(blk0, ino0[j])
  {
    hide FileByte, MappedTo;
    forall j | 0 <= j < |ino| && j != i
      ensures ino[j] == ino0[j] && NoHoles(blk, ino[j]) && Contents(blk, ino[j]) == Contents(blk0, ino0[j])
    {
      assert SameFile(blk0, ino0[j], blk, ino[j]);
      assert forall k :: 0 <= k < ino[j].size ==> Contents(blk, ino[j])[k] == Contents(blk0, ino0[j])[k];
    }
  }
}
