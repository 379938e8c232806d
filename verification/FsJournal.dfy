/** What one transaction log_writes of what it changes, and so what its commit leaves on disk. */
module FsJournal {
  import opened Blocks
  import opened Bitmap
  import opened FsState
  import opened FsFiles
  import opened FsInodes
  import opened FsSpace

  /** The blocks as the cache shows them, one inode, and the blocks log_written since begin_op. */
  datatype Moment = Moment(blk: Disk, ip: Inode, logged: set<nat>)

  /** From s to t every changed block was log_written, except those in loose, and none is an inode block. The blocks the
      inode had are where they were; the new ones are log_written, and of the old ones only file blocks below hi are. */
  ghost predicate Journal(sb: Super, s: Moment, t: Moment, hi: nat, loose: set<nat>) {
    && s.logged <= t.logged && t.blk.Keys == s.blk.Keys
    && (forall b :: b in t.logged ==> b in s.logged || sb.bmapstart <= b < sb.size)
    && (forall b: nat :: b < sb.bmapstart || (b !in t.logged && b !in loose) ==> At(t.blk, b) == At(s.blk, b))
    && (forall c: nat :: FileBlock(s.blk, s.ip, c) != 0 ==> FileBlock(t.blk, t.ip, c) == FileBlock(s.blk, s.ip, c))
    && (forall c: nat :: FileBlock(s.blk, s.ip, c) == 0 && FileBlock(t.blk, t.ip, c) != 0 ==>
          FileBlock(t.blk, t.ip, c) in t.logged)
    && (forall c: nat :: c >= hi && FileBlock(s.blk, s.ip, c) != 0 && FileBlock(s.blk, s.ip, c) in t.logged ==>
          FileBlock(s.blk, s.ip, c) in s.logged)
  }

  lemma JournalNone(sb: Super, s: Moment, hi: nat)
    ensures Journal(sb, s, s, hi, {})
  {
    hide FileBlock;
  }

  lemma JournalThen(sb: Super, s: Moment, t: Moment, u: Moment, hi: nat, hi': nat, loose: set<nat>)
    requires Journal(sb, s, t, hi, {}) && Journal(sb, t, u, hi', loose) && hi <= hi'
    ensures Journal(sb, s, u, hi', loose)
  {
    hide FileBlock, At;
  }

  /** A free block r goes into an empty slot of inode i; w is the indirect block if the slot is in it. */
  lemma JournalAlloc(sb: Super, blk: Disk, ino: seq<Inode>, o: Own, l: set<nat>, blk': Disk, ino': seq<Inode>,
                     l': set<nat>, s: Slot, r: nat, w: set<nat>)
    requires Owned(sb, blk, ino, o) && o.dead == {} && r < sb.size && !Used(sb, blk, r)
    requires Linked(blk, ino, blk', ino', s, r) && SlotVal(blk, ino, s) == 0
    requires w == {} || (Addr(ino[s.i], NDIRECT) != 0 && w == {Addr(ino[s.i], NDIRECT)})
    requires l' == l + {BBlock(sb, r), r} + w && blk'.Keys == blk.Keys
    requires forall b: nat :: b != BBlock(sb, r) && b != r && b !in w ==> At(blk', b) == At(blk, b)
    ensures Journal(sb, Moment(blk, ino[s.i], l), Moment(blk', ino'[s.i], l'), 0, {})
  {
    hide SlotVal, FileBlock, At, Journal, Owned;
    var z := {BBlock(sb, r), r} + w;
    forall c: nat
      ensures FileBlock(blk', ino'[s.i], c) == FileBlock(blk, ino[s.i], c) ||
              (FileBlock(blk', ino'[s.i], c) == r && FileBlock(blk, ino[s.i], c) == 0)
    {
      LinkedBlock(blk, ino, blk', ino', s, r, c);
    }
    TakenPlaces(sb, blk, ino, o, s.i, r, w);
    JournalTaken(sb, Moment(blk, ino[s.i], l), Moment(blk', ino'[s.i], l'), r, z);
  }

  /** The blocks that taking a free block changes are no inode blocks and hold no file's bytes. */
  lemma TakenPlaces(sb: Super, blk: Disk, ino: seq<Inode>, o: Own, i: nat, r: nat, w: set<nat>)
    requires Owned(sb, blk, ino, o) && o.dead == {} && r < sb.size && !Used(sb, blk, r) && i < |ino|
    requires w == {} || (Addr(ino[i], NDIRECT) != 0 && w == {Addr(ino[i], NDIRECT)})
    ensures forall b :: b in {BBlock(sb, r), r} + w ==> sb.bmapstart <= b < sb.size
    ensures forall c: nat :: FileBlock(blk, ino[i], c) != 0 ==> FileBlock(blk, ino[i], c) !in {BBlock(sb, r), r} + w
  {
    hide Used, SlotVal, FileBlock;
    assert BitsOwned(sb, blk, o) && sb.nmeta <= r && r !in o.owner;
    assert sb.bmapstart <= BBlock(sb, r) < sb.nmeta;
    if w != {} {
      IndirectOwned(sb, blk, ino, o, i);
    }
    forall c: nat | FileBlock(blk, ino[i], c) != 0 ensures FileBlock(blk, ino[i], c) !in {BBlock(sb, r), r} + w {
      FileBlockOwned(sb, blk, ino, o, i, c);
    }
  }

  lemma JournalTaken(sb: Super, s: Moment, t: Moment, r: nat, z: set<nat>)
    requires t.logged == s.logged + z && t.blk.Keys == s.blk.Keys && r in z
    requires forall b :: b in z ==> sb.bmapstart <= b < sb.size
    requires forall b: nat :: b !in z ==> At(t.blk, b) == At(s.blk, b)
    requires forall c: nat :: FileBlock(s.blk, s.ip, c) != 0 ==> FileBlock(s.blk, s.ip, c) !in z
    requires forall c: nat :: FileBlock(t.blk, t.ip, c) == FileBlock(s.blk, s.ip, c) ||
                              (FileBlock(t.blk, t.ip, c) == r && FileBlock(s.blk, s.ip, c) == 0)
    ensures Journal(sb, s, t, 0, {})
  {
    hide FileBlock, At;
  }

  lemma LinkedBlock(blk: Disk, ino: seq<Inode>, blk': Disk, ino': seq<Inode>, s: Slot, r: nat, c: nat)
    requires Linked(blk, ino, blk', ino', s, r) && SlotVal(blk, ino, s) == 0
    ensures FileBlock(blk', ino'[s.i], c) == if Slot(s.i, c) == s && c < MAXFILE then r else FileBlock(blk, ino[s.i], c)
    ensures Slot(s.i, c) == s && c < MAXFILE ==> FileBlock(blk, ino[s.i], c) == 0
  {
    if c < MAXFILE {
      assert IsSlot(ino, Slot(s.i, c)) && SlotVal(blk, ino, Slot(s.i, c)) == FileBlock(blk, ino[s.i], c);
      assert SlotVal(blk', ino', Slot(s.i, c)) == FileBlock(blk', ino'[s.i], c);
    }
  }

  /** The block of file block bn is overwritten, and log_written or not. */
  lemma JournalWrite(sb: Super, blk: Disk, ino: seq<Inode>, o: Own, l: set<nat>, i: nat, bn: nat, x: Block, done: bool)
    requires Owned(sb, blk, ino, o) && o.dead == {} && i < |ino| && FileBlock(blk, ino[i], bn) != 0
    requires SameSlots(blk, ino, blk[FileBlock(blk, ino[i], bn) := x], ino)
    ensures var addr := FileBlock(blk, ino[i], bn);
            Journal(sb, Moment(blk, ino[i], l), Moment(blk[addr := x], ino[i], l + if done then {addr} else {}),
                    if done then bn + 1 else bn, if done then {} else {addr})
  {
    hide SlotVal;
    var addr := FileBlock(blk, ino[i], bn);
    FileBlockOwned(sb, blk, ino, o, i, bn);
    assert addr in blk;
    assert sb.bmapstart <= BBlock(sb, 0) < sb.nmeta;
    forall c: nat ensures FileBlock(blk[addr := x], ino[i], c) == FileBlock(blk, ino[i], c) {
      SameBlocks(blk, ino, blk[addr := x], i, c);
    }
    hide FileBlock;
    forall c: nat | c > bn && FileBlock(blk, ino[i], c) != 0 ensures FileBlock(blk, ino[i], c) != addr {
      FileBlockOwned(sb, blk, ino, o, i, c);
    }
  }

  /** The same after what s to (blk, ino[i], l) did. */
  lemma JournalStep(sb: Super, s: Moment, blk: Disk, ino: seq<Inode>, o: Own, l: set<nat>, i: nat, bn: nat, x: Block,
                    done: bool)
    requires Owned(sb, blk, ino, o) && o.dead == {} && i < |ino| && FileBlock(blk, ino[i], bn) != 0
    requires SameSlots(blk, ino, blk[FileBlock(blk, ino[i], bn) := x], ino)
    requires Journal(sb, s, Moment(blk, ino[i], l), 0, {})
    ensures var addr := FileBlock(blk, ino[i], bn);
            && FileBlock(blk[addr := x], ino[i], bn) == addr
            && Journal(sb, s, Moment(blk[addr := x], ino[i], l + if done then {addr} else {}),
                       if done then bn + 1 else bn, if done then {} else {addr})
  {
    hide Journal, Owned, FileBlock, SameSlots;
    var addr := FileBlock(blk, ino[i], bn);
    var hi, loose, t := if done then bn + 1 else bn, if done then {} else {addr}, l + if done then {addr} else {};
    JournalWrite(sb, blk, ino, o, l, i, bn, x, done);
    JournalThen(sb, s, Moment(blk, ino[i], l), Moment(blk[addr := x], ino[i], t), 0, hi, loose);
    SameBlocks(blk, ino, blk[addr := x], i, bn);
  }

  /** How writei's loop stopped after tot of n bytes: at the end, or having changed bytes below hi of the next block
      without log_write. */
  ghost predicate Landed(sb: Super, s: Moment, t: Moment, off: nat, tot: nat, n: nat, hi: nat) {
    var bn := (off + tot) / BSIZE;
    if tot == n then
      hi == off + tot && Journal(sb, s, t, Top(off, n), {})
    else
      && (tot == 0 || (off + tot) % BSIZE == 0) && off + tot <= hi <= (bn + 1) * BSIZE &&
         FileBlock(t.blk, t.ip, bn) != 0
      && Journal(sb, s, t, bn, {FileBlock(t.blk, t.ip, bn)})
  }

  lemma LandedShort(sb: Super, s: Moment, t: Moment, u: Moment, off: nat, tot: nat, n: nat, m: nat)
    requires Journal(sb, s, t, Top(off, tot), {}) && tot < n && (tot == 0 || (off + tot) % BSIZE == 0)
    requires Top(off, tot) == (off + tot) / BSIZE && (off + tot) % BSIZE + m <= BSIZE
    requires FileBlock(u.blk, u.ip, (off + tot) / BSIZE) != 0
    requires Journal(sb, t, u, (off + tot) / BSIZE, {FileBlock(u.blk, u.ip, (off + tot) / BSIZE)})
    ensures Landed(sb, s, u, off, tot, n, off + tot + m)
  {
    hide Journal, FileBlock;
    var bn := (off + tot) / BSIZE;
    JournalThen(sb, s, t, u, bn, bn, {FileBlock(u.blk, u.ip, bn)});
    assert off + tot == bn * BSIZE + (off + tot) % BSIZE;
  }

  lemma LandedFull(sb: Super, s: Moment, t: Moment, off: nat, tot: nat)
    requires Journal(sb, s, t, Top(off, tot), {})
    ensures Landed(sb, s, t, off, tot, tot, off + tot)
  {
  }

  // ------------------------------------------------------ what commit leaves

  /** The blocks once a transaction that log_wrote l, and left the cache showing blk, is committed to blocks blk0. */
  ghost function After(blk0: Disk, blk: Disk, l: set<nat>): Disk {
    map b | b in blk :: if b in l || b !in blk0 then blk[b] else blk0[b]
  }

  /** It is what the cache shows, except that a block changed without log_write is as it was. */
  lemma LandedAfter(sb: Super, s: Moment, t: Moment, off: nat, tot: nat, n: nat, hi: nat)
    requires Landed(sb, s, t, off, tot, n, hi) && s.logged == {}
    requires tot != n ==> FileBlock(t.blk, t.ip, (off + tot) / BSIZE) in t.blk
    ensures var e, x := After(s.blk, t.blk, t.logged), FileBlock(t.blk, t.ip, (off + tot) / BSIZE);
            e == if tot == n || x in t.logged then t.blk else t.blk[x := At(s.blk, x)]
  {
    hide FileBlock;
    var e, x := After(s.blk, t.blk, t.logged), FileBlock(t.blk, t.ip, (off + tot) / BSIZE);
    assert t.blk.Keys == s.blk.Keys;
    forall b | b in t.blk && b !in t.logged && (tot == n || b != x) ensures s.blk[b] == t.blk[b] {
      assert At(t.blk, b) == At(s.blk, b);
    }
  }

  /** A file block that is new to the transaction lies past the end of the file. */
  lemma NewPastEnd(sb: Super, s: Moment, t: Moment, off: nat, tot: nat, n: nat, hi: nat, k: nat)
    requires Landed(sb, s, t, off, tot, n, hi) && s.logged == {} && tot != n && MappedTo(s.blk, s.ip, s.ip.size)
    requires FileBlock(t.blk, t.ip, (off + tot) / BSIZE) in t.logged && off + tot <= k < hi
    ensures k >= s.ip.size
  {
    hide FileBlock;
    var bn := (off + tot) / BSIZE;
    assert FileBlock(s.blk, s.ip, bn) == 0;
    assert bn * BSIZE >= s.ip.size;
  }

  /** The change without log_write undone: bytes below off + tot are as the cache shows them, later ones as they
      were. */
  lemma LooseUndone(sb: Super, blk0: Disk, ino0: seq<Inode>, blk: Disk, ino: seq<Inode>, o: Own, i: nat, src: seq<byte>,
                    off: nat, tot: nat, hi: nat, bn: nat)
    requires Owned(sb, blk, ino, o) && o.dead == {} && Progress(blk0, ino0, blk, ino, i, src, off, tot, hi)
    requires bn == (off + tot) / BSIZE && (tot == 0 || (off + tot) % BSIZE == 0) && hi <= (bn + 1) * BSIZE
    requires FileBlock(blk0, ino0[i], bn) == FileBlock(blk, ino[i], bn) != 0
    requires forall j :: 0 <= j < |ino| && j != i ==> NoHoles(blk0, ino0[j])
    ensures var x := FileBlock(blk, ino[i], bn);
            var e := blk[x := At(blk0, x)];
            && Owned(sb, e, ino, o) && SameSlots(blk, ino, e, ino)
            && Progress(blk0, ino0, e, ino, i, src, off, tot, off + tot)
  {
    hide Owned, FileBlock, SameSlots;
    var x := FileBlock(blk, ino[i], bn);
    var e := blk[x := At(blk0, x)];
    FileBlockOwned(sb, blk, ino, o, i, bn);
    NoneDead(ino, o);
    DataWrite(sb, blk, ino, o, x, At(blk0, x));
    forall j | 0 <= j < |ino| && j != i ensures SameFile(blk0, ino0[j], e, ino[j]) {
      assert SameFile(blk0, ino0[j], blk, ino[j]);
      OthersSame(sb, blk, ino, o, i, bn, At(blk0, x), e, j);
    }
    forall c: nat ensures FileBlock(e, ino[i], c) == FileBlock(blk, ino[i], c) {
      SameBlocks(blk, ino, e, i, c);
    }
    forall k: nat | k < ino[i].size || k < off + tot
      ensures FileByte(e, ino[i], k) == if k / BSIZE == bn then FileByte(blk0, ino0[i], k) else FileByte(blk, ino[i], k)
    {
      BlockOf(k, if k < ino[i].size then ino[i].size else off + tot);
      BytesAfter(sb, blk, ino, o, i, bn, At(blk0, x), i, k);
    }
    forall k: nat | off + tot <= k < hi ensures k / BSIZE == bn {}
    forall k: nat | off <= k < off + tot ensures k / BSIZE != bn {}
  }

  lemma NoneDead(ino: seq<Inode>, o: Own)
    requires o.dead == {}
    ensures NoIndirectDead(ino, o)
  {
  }

  /** Committed, a write shows the bytes it log_wrote and of the block it left half changed none that were in the
      file. */
  lemma ProgressCommitted(sb: Super, blk0: Disk, ino0: seq<Inode>, blk: Disk, ino: seq<Inode>, o: Own, l: set<nat>,
                          i: nat, src: seq<byte>, off: nat, tot: nat, hi: nat)
    requires Owned(sb, blk, ino, o) && o.dead == {} && Progress(blk0, ino0, blk, ino, i, src, off, tot, hi)
    requires forall j :: 0 <= j < |ino0| ==> NoHoles(blk0, ino0[j])
    requires Landed(sb, Moment(blk0, ino0[i], {}), Moment(blk, ino[i], l), off, tot, |src|, hi)
    ensures var e := After(blk0, blk, l);
            && Owned(sb, e, ino, o) && SameSlots(blk, ino, e, ino)
            && Progress(blk0, ino0, e, ino, i, src, off, tot, off + tot)
  {
    hide Owned, FileBlock, SameSlots, After, FileByte, MappedTo, Journal;
    var s, t, bn := Moment(blk0, ino0[i], {}), Moment(blk, ino[i], l), (off + tot) / BSIZE;
    if tot != |src| {
      FileBlockOwned(sb, blk, ino, o, i, bn);
      InDisk(sb, blk, ino, o, FileBlock(blk, ino[i], bn));
    }
    LandedAfter(sb, s, t, off, tot, |src|, hi);
    if tot == |src| || FileBlock(blk, ino[i], bn) in l {
      SameSelf(blk, ino);
      forall k: nat | k < ino[i].size && !(off <= k < off + tot)
        ensures FileByte(blk, ino[i], k) == FileByte(blk0, ino0[i], k)
      {
        if off + tot <= k < hi {
          NewPastEnd(sb, s, t, off, tot, |src|, hi, k);
        }
      }
    } else {
      LandedOld(sb, s, t, bn);
      LooseUndone(sb, blk0, ino0, blk, ino, o, i, src, off, tot, hi, bn);
    }
  }

  lemma InDisk(sb: Super, blk: Disk, ino: seq<Inode>, o: Own, b: nat)
    requires Owned(sb, blk, ino, o) && b < sb.size
    ensures b in blk
  {
  }

  lemma SameSelf(blk: Disk, ino: seq<Inode>)
    ensures SameSlots(blk, ino, blk, ino)
  {
  }

  /** A file block that is not log_written was there before. */
  lemma LandedOld(sb: Super, s: Moment, t: Moment, bn: nat)
    requires FileBlock(t.blk, t.ip, bn) != 0 && FileBlock(t.blk, t.ip, bn) !in t.logged
    requires Journal(sb, s, t, bn, {FileBlock(t.blk, t.ip, bn)})
    ensures FileBlock(s.blk, s.ip, bn) == FileBlock(t.blk, t.ip, bn)
  {
    hide FileBlock;
  }

  // ---------------------------------------------------- a disk on its own

  /** The inodes on disk are the ones in memory. */
  ghost predicate Synced(sb: Super, blk: Disk, ino: seq<Inode>) {
    forall j :: 0 <= j < |ino| ==> OnDisk(sb, blk, j) == ino[j]
  }

  /** The blocks alone hold a sound file system: what is found in them as inodes refers to each block at most once, the
      bitmap marks just the blocks referred to, and no file has holes. */
  ghost predicate Consistent(sb: Super, blk: Disk, ino: seq<Inode>, o: Own) {
    && Owned(sb, blk, ino, o) && o.dead == {} && o.pending == {} && Synced(sb, blk, ino)
    && forall j :: 0 <= j < |ino| ==> NoHoles(blk, ino[j]) && InodeFits(ino[j])
  }

  /** Blocks e hold the files of blk0, but d is written over file i at off. */
  ghost predicate Shows(blk0: Disk, ino0: seq<Inode>, e: Disk, ino: seq<Inode>, i: nat, off: nat, d: seq<byte>) {
    && |ino| == |ino0| && i < |ino|
    && (if d == [] then Contents(e, ino[i]) == Contents(blk0, ino0[i])
        else off <= ino0[i].size && Contents(e, ino[i]) == Overlay(Contents(blk0, ino0[i]), off, d))
    && forall j :: 0 <= j < |ino| && j != i ==> ino[j] == ino0[j] && Contents(e, ino[j]) == Contents(blk0, ino0[j])
  }

  /** After writei's loop: what the commit of the transaction leaves, but for the inode. */
  lemma LoopCommitted(sb: Super, blk0: Disk, ino0: seq<Inode>, blk: Disk, ino: seq<Inode>, o: Own, l: set<nat>, i: nat,
                      src: seq<byte>, off: nat, tot: nat, hi: nat, ino': seq<Inode>)
    requires Owned(sb, blk, ino, o) && o.dead == {} && Progress(blk0, ino0, blk, ino, i, src, off, tot, hi)
    requires forall j :: 0 <= j < |ino0| ==> NoHoles(blk0, ino0[j])
    requires Landed(sb, Moment(blk0, ino0[i], {}), Moment(blk, ino[i], l), off, tot, |src|, hi)
    requires off <= ino0[i].size <= MAXFILE * BSIZE && off + tot <= MAXFILE * BSIZE
    requires ino' == ino[i := ino[i].(size := if off + tot > ino[i].size then off + tot else ino[i].size)]
    ensures var e := After(blk0, blk, l);
            && Owned(sb, e, ino', o) && Shows(blk0, ino0, e, ino', i, off, src[..tot])
            && forall j :: 0 <= j < |ino'| ==> NoHoles(e, ino'[j])
  {
    hide Owned, SameSlots, FileByte, MappedTo, SameFile, After, Landed, Contents, NoHoles;
    var e := After(blk0, blk, l);
    ProgressCommitted(sb, blk0, ino0, blk, ino, o, l, i, src, off, tot, hi);
    WroteOthers(blk0, ino0, e, ino, i, src, off, tot, off + tot);
    Wrote(blk0, ino0, e, ino, i, src, off, tot, off + tot, ino'[i]);
    Resized(sb, e, ino, o, i, ino'[i].size);
  }

  /** What a transaction's commit makes of blk0: a consistent disk with d written over file i at off. */
  ghost predicate Commits(sb: Super, blk0: Disk, ino0: seq<Inode>, blk: Disk, ino: seq<Inode>, o: Own, l: set<nat>,
                          i: nat, off: nat, d: seq<byte>) {
    && blk.Keys == blk0.Keys && (forall b :: b in l ==> sb.inodestart <= b < sb.size)
    && Consistent(sb, After(blk0, blk, l), ino, o) && Shows(blk0, ino0, After(blk0, blk, l), ino, i, off, d)
  }

  lemma LandedPlaces(sb: Super, s: Moment, t: Moment, off: nat, tot: nat, n: nat, hi: nat)
    requires Landed(sb, s, t, off, tot, n, hi) && s.logged == {}
    ensures t.blk.Keys == s.blk.Keys && forall b :: b in t.logged ==> sb.bmapstart <= b < sb.size
    ensures forall b: nat :: b < sb.bmapstart ==> At(t.blk, b) == At(s.blk, b)
  {
    hide FileBlock;
  }

  /** After iupdate: the inode of file i has gone to disk too, and the others are there as they were. */
  lemma InodeCommitted(sb: Super, blk0: Disk, ino0: seq<Inode>, blk1: Disk, l1: set<nat>, blk: Disk, ino: seq<Inode>,
                       i: nat)
    requires Layout(sb) && |ino| == |ino0| == sb.ninodes && i < |ino| && blk1.Keys == blk0.Keys && IBlock(sb, i) in blk1
    requires Synced(sb, blk0, ino0) && (forall j :: 0 <= j < |ino| && j != i ==> ino[j] == ino0[j])
    requires blk == blk1[IBlock(sb, i) := At(blk, IBlock(sb, i))] && OnDisk(sb, blk, i) == ino[i]
    requires forall j: nat :: j != i ==> OnDisk(sb, blk, j) == OnDisk(sb, blk1, j)
    requires forall b: nat :: b < sb.bmapstart ==> At(blk1, b) == At(blk0, b)
    ensures After(blk0, blk, l1 + {IBlock(sb, i)}) == After(blk0, blk1, l1)[IBlock(sb, i) := At(blk, IBlock(sb, i))]
    ensures Synced(sb, After(blk0, blk, l1 + {IBlock(sb, i)}), ino) && Synced(sb, blk, ino)
  {
    hide Decode;
    var e := After(blk0, blk, l1 + {IBlock(sb, i)});
    forall j | 0 <= j < |ino| ensures OnDisk(sb, e, j) == ino[j] && OnDisk(sb, blk, j) == ino[j] {
      assert At(blk1, IBlock(sb, j)) == At(blk0, IBlock(sb, j));
      assert At(e, IBlock(sb, j)) == At(blk, IBlock(sb, j));
      assert OnDisk(sb, e, j) == OnDisk(sb, blk, j) && OnDisk(sb, blk1, j) == OnDisk(sb, blk0, j);
      assert OnDisk(sb, blk0, j) == ino0[j];
    }
  }

  /** writei as a transaction of its own: whatever it returns, its commit leaves a consistent disk on which the bytes it
      says it wrote, and nothing else, have changed. If it wrote all of src the cache agrees with that disk. */
  lemma WriteCommitted(sb: Super, blk0: Disk, ino0: seq<Inode>, blk1: Disk, ino1: seq<Inode>, o: Own, l1: set<nat>,
                       i: nat, src: seq<byte>, off: nat, tot: nat, hi: nat, blk: Disk, ino: seq<Inode>)
    requires Owned(sb, blk1, ino1, o) && o.dead == {} && o.pending == {}
    requires Progress(blk0, ino0, blk1, ino1, i, src, off, tot, hi)
    requires Landed(sb, Moment(blk0, ino0[i], {}), Moment(blk1, ino1[i], l1), off, tot, |src|, hi)
    requires Synced(sb, blk0, ino0) && forall j :: 0 <= j < |ino0| ==> NoHoles(blk0, ino0[j])
    requires off <= ino0[i].size <= MAXFILE * BSIZE && off + tot <= MAXFILE * BSIZE
    requires ino == ino1[i := ino1[i].(size := if off + tot > ino1[i].size then off + tot else ino1[i].size)]
    requires blk == blk1[IBlock(sb, i) := At(blk, IBlock(sb, i))] && OnDisk(sb, blk, i) == ino[i]
    requires forall j: nat :: j != i ==> OnDisk(sb, blk, j) == OnDisk(sb, blk1, j)
    requires forall j :: 0 <= j < |ino| ==> InodeFits(ino[j])
    ensures Commits(sb, blk0, ino0, blk, ino, o, l1 + {IBlock(sb, i)}, i, off, src[..tot]) && Synced(sb, blk, ino)
    ensures tot == |src| ==> After(blk0, blk, l1 + {IBlock(sb, i)}) == blk
  {
    hide Landed, FileByte, MappedTo, SameFile, After, Contents, NoHoles, OnDisk, InodeFits, OwnersPoint, SlotsOwned,
         BitsOwned;
    var s, t, e1, e := Moment(blk0, ino0[i], {}), Moment(blk1, ino1[i], l1), After(blk0, blk1, l1),
        After(blk0, blk, l1 + {IBlock(sb, i)});
    LandedPlaces(sb, s, t, off, tot, |src|, hi);
    LoopCommitted(sb, blk0, ino0, blk1, ino1, o, l1, i, src, off, tot, hi, ino);
    InodePlace(sb, i);
    InodeCommitted(sb, blk0, ino0, blk1, l1, blk, ino, i);
    InodeWrite(sb, e1, ino, o, i, At(blk, IBlock(sb, i)));
    forall j | 0 <= j < |ino| ensures NoHoles(e, ino[j]) && Contents(e, ino[j]) == Contents(e1, ino[j]) {
      FilesSame(sb, e1, ino, o, e, j);
    }
    if tot == |src| {
      LandedAfter(sb, s, t, off, tot, |src|, hi);
    }
  }

  lemma InodePlace(sb: Super, i: nat)
    requires Layout(sb) && i < sb.ninodes
    ensures sb.inodestart <= IBlock(sb, i) < sb.bmapstart < sb.nmeta <= sb.size
  {
    assert BBlock(sb, 0) < sb.nmeta;
  }
}
