/** Block allocation, block mapping and file contents, over the blocks as the buffer cache shows them. */
module Fs {
  import opened Blocks
  import opened Sets
  import opened Bitmap
  import opened FsState
  import opened FsFiles
  import opened FsInodes
  import opened FsSpace
  import opened FsJournal

  lemma Consecutive(c: seq<byte>, i: nat, j: nat, k: nat)
    requires i <= j <= k <= |c|
    ensures c[i..j] + c[j..k] == c[i..k]
  {
  }

  class FileSystem {
    const sb: Super
    var blk: Disk              // block contents as bread returns them
    var ino: seq<Inode>        // the inodes, as ilock loads them
    ghost var o: Own
    ghost var logged: set<nat> // blocks log_written in the current transaction

    constructor (sb: Super, blk: Disk, ino: seq<Inode>, ghost o: Own)
      ensures this.sb == sb && this.blk == blk && this.ino == ino && this.o == o && logged == {}
    {
      this.sb, this.blk, this.ino, this.o, logged := sb, blk, ino, o, {};
    }

    /** Between calls, no block is on its way into or out of a slot. */
    ghost predicate Valid()
      reads this
    {
      Owned(sb, blk, ino, o) && o.dead == {} && o.pending == {} && forall i :: 0 <= i < |ino| ==>
        |ino[i].addrs| == NDIRECT + 1
    }

    /** The inner loop of balloc: the first clear bit of one bitmap block, or none below the end. */
    static method FindBit(data: Block, limit: nat) returns (bi: nat)
      requires limit <= BPB
      ensures bi <= limit && (bi < limit ==> !Bit(data, bi)) && forall j :: 0 <= j < bi ==> Bit(data, j)
    {
      bi := 0;
      while bi < limit
        invariant bi <= limit && forall j :: 0 <= j < bi ==> Bit(data, j)
      {
        if !IsSet(data[bi / 8], bi % 8) {
          return;
        }
        bi := bi + 1;
      }
    }

    /** balloc: mark the lowest free block in use and zero it. !ok is the panic: every block is in use. */
    method Balloc() returns (ok: bool, r: nat)
      requires Owned(sb, blk, ino, o) && NoIndirectDead(ino, o)
      modifies this`blk, this`o, this`logged
      ensures Owned(sb, blk, ino, o)
      ensures ok <==> exists c :: 0 <= c < sb.size && !Used(sb, old(blk), c)
      ensures !ok ==> blk == old(blk) && o == old(o) && logged == old(logged)
      ensures ok ==> r < sb.size && !Used(sb, old(blk), r) && forall c :: 0 <= c < r ==> Used(sb, old(blk), c)
      ensures ok ==> blk == Marked(sb, old(blk), r, true)[r := ZeroBlock()] &&
                     o == old(o).(pending := old(o).pending + {r})
      ensures ok ==> logged == old(logged) + {BBlock(sb, r), r} && SameSlots(old(blk), ino, blk, ino)
    {
      hide Owned, Used, Bit, Marked, SameSlots, Layout;
      var b := 0;
      while b < sb.size
        invariant b % BPB == 0
        invariant forall c :: 0 <= c < b && c < sb.size ==> Used(sb, blk, c)
        invariant blk == old(blk) && o == old(o) && logged == old(logged)
        decreases sb.size - b
      {
        var data := At(blk, BBlock(sb, b));
        var bi := FindBit(data, if b + BPB <= sb.size then BPB else sb.size - b);
        if bi < BPB && b + bi < sb.size {
          FoundFree(sb, blk, b, bi);
          r := b + bi;
          TakeFree(r);
          return true, r;
        }
        AllUsed(sb, blk, b, bi);
        b := b + BPB;
      }
      return false, 0;
    }

    /** The rest of balloc once block r is found free: mark it and zero it. */
    method TakeFree(r: nat)
      requires Owned(sb, blk, ino, o) && NoIndirectDead(ino, o) && r < sb.size && !Used(sb, blk, r)
      modifies this`blk, this`o, this`logged
      ensures Owned(sb, blk, ino, o) && SameSlots(old(blk), ino, blk, ino)
      ensures blk == Marked(sb, old(blk), r, true)[r := ZeroBlock()] && o == old(o).(pending := old(o).pending + {r})
      ensures logged == old(logged) + {BBlock(sb, r), r}
    {
      hide Bit, SlotVal;
      MarkPending(sb, blk, ino, o, r);
      blk := Marked(sb, blk, r, true);
      o := o.(pending := o.pending + {r});
      logged := logged + {BBlock(sb, r)};   // log_write(bp)
      // bzero
      DataWrite(sb, blk, ino, o, r, ZeroBlock());
      blk := blk[r := ZeroBlock()];
      logged := logged + {r};
    }

    /** ip->addrs[d] = balloc(): d below NDIRECT is a data block, d == NDIRECT the indirect block. !ok is the panic. */
    method AllocAddr(i: nat, d: nat) returns (ok: bool, r: nat)
      requires Valid() && i < |ino| && d <= NDIRECT && ino[i].addrs[d] == 0
      modifies this
      ensures ok ==> Valid() && Grown(old(blk), old(ino), old(o), blk, ino, o, i)
      ensures ok ==> r != 0 && Linked(old(blk), old(ino), blk, ino, Slot(i, if d == NDIRECT then MAXFILE else d), r)
      ensures ok ==> logged == old(logged) + {BBlock(sb, r), r} && |ino| == |old(ino)|
      ensures ok ==> ino[i].addrs == old(ino[i].addrs)[d := r]
      ensures ok <==> |FreeBlocks(sb, old(blk))| > 0
      ensures ok ==> Took(sb, old(blk), old(ino[i]), blk, ino[i], if d == NDIRECT then MAXFILE else d)
      ensures ok ==> Journal(sb, old(Moment(blk, ino[i], logged)), Moment(blk, ino[i], logged), 0, {})
    {
      hide Bit, Used, Marked, SlotVal, FreeBlocks, Empty, Journal, Took, Grown, At, FileBlock;
      SomeFree(sb, blk);
      ok, r := Balloc();
      if ok {
        TakenGrown(sb, old(blk), ino, old(o), r, i);
        ghost var s := Slot(i, if d == NDIRECT then MAXFILE else d);
        ghost var ino' := ino[i := ino[i].(addrs := ino[i].addrs[d := r])];
        EmptySlot(blk, ino, i, d);
        if d == NDIRECT {
          LinkIndirect(blk, ino, i, r);
        } else {
          LinkDirect(blk, ino, i, d, r);
        }
        LinkSlot(sb, blk, ino, o, blk, ino', s, r);
        LinkedGrown(blk, ino, o, blk, ino', s, r);
        GrownTrans(old(blk), ino, old(o), blk, ino, o, blk, ino',
                   o.(owner := o.owner[r := s], pending := o.pending - {r}), i);
        ino := ino[i := ino[i].(addrs := ino[i].addrs[d := r])];
        o := o.(owner := o.owner[r := s], pending := o.pending - {r});
        TookSlot(sb, old(blk), old(ino), old(o), blk, ino, o, s, r);
        TakenBlocks(sb, old(blk), r);
        JournalAlloc(sb, old(blk), old(ino), old(o), old(logged), blk, ino, logged, s, r, {});
      }
    }

    /** a[j] = balloc() in inode i's indirect block, which is log_written. !ok is the panic. */
    method AllocEntry(i: nat, j: nat) returns (ok: bool, r: nat)
      requires Valid() && i < |ino| && j < NINDIRECT && Addr(ino[i], NDIRECT) != 0 &&
               FileBlock(blk, ino[i], NDIRECT + j) == 0
      modifies this
      ensures ok ==> Valid() && Grown(old(blk), old(ino), old(o), blk, ino, o, i) && ino == old(ino)
      ensures ok ==> r != 0 && Linked(old(blk), old(ino), blk, ino, Slot(i, NDIRECT + j), r)
      ensures ok ==> logged == old(logged) + {BBlock(sb, r), r, Addr(ino[i], NDIRECT)}
      ensures ok <==> |FreeBlocks(sb, old(blk))| > 0
      ensures ok ==> Took(sb, old(blk), old(ino[i]), blk, ino[i], NDIRECT + j)
      ensures ok ==> Journal(sb, old(Moment(blk, ino[i], logged)), Moment(blk, ino[i], logged), 0, {})
    {
      hide Bit, Used, Marked, PutWord, Word, FreeBlocks, Empty, Journal;
      SomeFree(sb, blk);
      ok, r := Balloc();
      if ok {
        TakenGrown(sb, old(blk), ino, old(o), r, i);
        hide SlotVal;
        ghost var s := Slot(i, NDIRECT + j);
        var ind := ino[i].addrs[NDIRECT];
        IndirectOwned(sb, blk, ino, o, i);
        LinkEntry(sb, blk, ino, o, i, j, r);
        ghost var blk1, o1 := blk, o;
        blk := blk[ind := PutWord(At(blk, ind), j, r)];
        logged := logged + {ind};   // log_write(bp)
        EntryBits(sb, blk1, ind, At(blk, ind));
        LinkSlot(sb, blk1, ino, o1, blk, ino, s, r);
        LinkedGrown(blk1, ino, o1, blk, ino, s, r);
        o := o.(owner := o.owner[r := s], pending := o.pending - {r});
        GrownTrans(old(blk), ino, old(o), blk1, ino, o1, blk, ino, o, i);
        TookSlot(sb, old(blk), old(ino), old(o), blk, ino, o, s, r);
        TakenBlocks(sb, old(blk), r);
        JournalAlloc(sb, old(blk), old(ino), old(o), old(logged), blk, ino, logged, s, r, {ind});
      }
    }

    /** bmap for a block listed in the inode. */
    method BmapDirect(i: nat, bn: nat) returns (ok: bool, addr: nat, ghost maps: set<nat>)
      requires Valid() && i < |ino| && bn < NDIRECT
      modifies this
      ensures BmapDone(i, bn, ok, addr, maps)
    {
      hide Grown, Linked, Owned, Room, Paid, Empty, FreeBlocks, Journal;
      maps := {};
      addr := ino[i].addrs[bn];
      ok := true;
      if addr == 0 {
        NeedsOne(sb, blk, ino[i], bn);
        ok, addr := AllocAddr(i, bn);
        if ok {
          AtSlot(old(blk), old(ino), blk, ino, i, bn, addr);
          maps := {BBlock(sb, addr)};
          PaidOne(sb, old(blk), old(ino[i]), blk, ino[i], bn);
        }
      } else {
        GrownRefl(blk, ino, o, i);
        PaidMapped(sb, blk, ino[i], bn);
        JournalNone(sb, Moment(blk, ino[i], logged), 0);
      }
    }

    /** bmap for a block listed in the indirect block, once that is there. */
    method BmapEntry(i: nat, bn: nat) returns (ok: bool, addr: nat, ghost maps: set<nat>)
      requires Valid() && i < |ino| && NDIRECT <= bn < MAXFILE && Addr(ino[i], NDIRECT) != 0
      modifies this
      ensures BmapDone(i, bn, ok, addr, maps)
    {
      hide Grown, Linked, Owned, Word, Room, Paid, Empty, FreeBlocks, Journal;
      maps := {};
      addr := Word(At(blk, ino[i].addrs[NDIRECT]), bn - NDIRECT);
      ok := true;
      if addr == 0 {
        NeedsOne(sb, blk, ino[i], bn);
        ok, addr := AllocEntry(i, bn - NDIRECT);
        if ok {
          AtSlot(old(blk), old(ino), blk, ino, i, bn, addr);
          maps := {BBlock(sb, addr)};
          PaidOne(sb, old(blk), old(ino[i]), blk, ino[i], bn);
        }
      } else {
        GrownRefl(blk, ino, o, i);
        PaidMapped(sb, blk, ino[i], bn);
        JournalNone(sb, Moment(blk, ino[i], logged), 0);
      }
    }

    /** What bmap has done: the block is mapped, nothing else moved; when it was mapped before, nothing changed; and
        beside the block itself and the indirect block it has log_written at most one bitmap block per allocation. */
    twostate predicate BmapDone(i: nat, bn: nat, ok: bool, addr: nat, maps: set<nat>)
      requires i < |old(ino)|
      reads this
    {
      && (ok ==>
            && Valid() && |ino| == |old(ino)| && bn < MAXFILE && addr == FileBlock(blk, ino[i], bn) != 0
            && Grown(old(blk), old(ino), old(o), blk, ino, o, i)
            && logged <= old(logged) + maps + {addr} + Pointer(ino[i])
            && |maps| <= (if old(FileBlock(blk, ino[i], bn)) == 0 then 1 else 0) +
                         (if bn >= NDIRECT && old(Addr(ino[i], NDIRECT)) == 0 then 1 else 0))
      && (bn < MAXFILE && old(FileBlock(blk, ino[i], bn)) != 0 ==>
            ok && blk == old(blk) && ino == old(ino) && o == old(o) && logged == old(logged))
      && (ok <==> bn < MAXFILE && Room(sb, old(blk), old(ino[i]), bn, bn + 1))
      && (ok ==> Paid(sb, old(blk), old(ino[i]), blk, ino[i], bn, bn + 1))
      && (ok ==> Journal(sb, old(Moment(blk, ino[i], logged)), Moment(blk, ino[i], logged), 0, {}))
    }

    /** bmap: the block that holds file block bn, allocated if there is none. !ok is a panic: bn is out of range, or
        there are fewer free blocks than the none, one or two it needs. */
    method Bmap(i: nat, bn: nat) returns (ok: bool, addr: nat, ghost maps: set<nat>)
      requires Valid() && i < |ino|
      modifies this
      ensures BmapDone(i, bn, ok, addr, maps)
    {
      hide Grown, Linked, Owned, FileBlock, Room, Paid, Empty, FreeBlocks, Journal;
      if bn < NDIRECT {
        ok, addr, maps := BmapDirect(i, bn);
      } else if bn >= MAXFILE {
        ok, addr, maps := false, 0, {};
      } else if ino[i].addrs[NDIRECT] != 0 {
        ok, addr, maps := BmapEntry(i, bn);
      } else {
        NoPointer(blk, ino[i], bn);
        NeedsTwo(sb, blk, ino[i], bn);
        ok, addr := AllocAddr(i, NDIRECT);
        maps := {};
        if ok {
          ghost var blk1, ino1, o1, logged1, map0 := blk, ino, o, logged, BBlock(sb, addr);
          StillUnmapped(sb, old(blk), old(ino[i]), blk, ino[i], bn);
          ok, addr, maps := BmapEntry(i, bn);
          if ok {
            PaidTwo(sb, old(blk), old(ino[i]), blk1, ino1[i], blk, ino[i], bn);
            GrownTrans(old(blk), old(ino), old(o), blk1, ino1, o1, blk, ino, o, i);
            PointerStays(blk1, ino1, o1, blk, ino, o, i);
            maps := maps + {map0};
            JournalThen(sb, old(Moment(blk, ino[i], logged)), Moment(blk1, ino1[i], logged1),
                        Moment(blk, ino[i], logged), 0, 0, {});
          }
        }
      }
    }

    /** The file system at rest: also no file has holes, and the inodes' fields fit their on-disk widths. */
    ghost predicate Sound()
      reads this
    {
      && Valid()
      && (forall i :: 0 <= i < |ino| ==> NoHoles(blk, ino[i]))
      && (forall i :: 0 <= i < |ino| ==> InodeFits(ino[i]))
    }

    /** readi: the bytes [off, off + n) clipped to the file, and nothing in the file system changes.
        The user's buffer takes room bytes; a copy beyond that fails the call. */
    method Readi(i: nat, off: nat, n: nat, room: nat) returns (ret: int, dst: seq<byte>)
      requires Sound() && i < |ino| && off < U32MAX && n < U32MAX
      modifies this
      ensures blk == old(blk) && ino == old(ino) && o == old(o) && logged == old(logged)
      ensures off > ino[i].size || off + n >= U32MAX ==> ret == 0 && dst == []
      ensures off <= ino[i].size && off + n < U32MAX ==>
        var len := if off + n > ino[i].size then ino[i].size - off else n;
        if len <= room then ret == len && Copied(blk, ino[i], off, len, dst) else ret == -1
    {
      hide Owned, FileBlock, NoHoles, InodeFits, Room, Paid, Grown, Chunk, Copied;
      dst := [];
      if off > ino[i].size || (off + n) % U32MAX < off {
        return 0, [];
      }
      var n' := if off + n > ino[i].size then ino[i].size - off else n;
      var tot := 0;
      ReadNone(blk, ino[i], off);
      while tot < n'
        invariant blk == old(blk) && ino == old(ino) && o == old(o) && logged == old(logged)
        invariant tot <= n' && tot <= room && Copied(blk, ino[i], off, tot, dst)
      {
        var cur := off + tot;
        MappedAt(blk, ino[i], cur);
        var ok, addr, _ := Bmap(i, cur / BSIZE);
        var m := Chunk(off, tot, n');
        if tot + m > room {
          return -1, dst;
        }
        ReadMore(blk, ino[i], off, tot, m, dst);
        dst := dst + At(blk, addr)[cur % BSIZE..cur % BSIZE + m];
        tot := tot + m;
      }
      return tot, dst;
    }

    /** iupdate: the inode on disk becomes the one in memory; no other inode and no file changes. */
    method Iupdate(i: nat)
      requires Valid() && i < |ino| && InodeFits(ino[i])
      modifies this`blk, this`logged
      ensures Valid() && SameSlots(old(blk), ino, blk, ino)
      ensures forall b :: sb.nmeta <= b ==> At(blk, b) == At(old(blk), b)
      ensures OnDisk(sb, blk, i) == ino[i] && forall j: nat :: j != i ==> OnDisk(sb, blk, j) == OnDisk(sb, old(blk), j)
      ensures logged == old(logged) + {IBlock(sb, i)} && blk == old(blk)[IBlock(sb, i) := At(blk, IBlock(sb, i))]
    {
      hide OnDisk, Encode, SlotVal;
      WordsFit(ino[i]);
      forall j: nat
        ensures OnDisk(sb, Updated(sb, blk, i, ino[i]), j) == if j == i then ino[i] else OnDisk(sb, blk, j)
      {
        UpdatedOnDisk(sb, blk, i, ino[i], j);
      }
      InodeWrite(sb, blk, ino, o, i, Encode(At(blk, IBlock(sb, i)), i % IPB, ino[i]));
      blk := blk[IBlock(sb, i) := Encode(At(blk, IBlock(sb, i)), i % IPB, ino[i])];
      logged := logged + {IBlock(sb, i)};   // log_write(bp)
      assert blk == Updated(sb, old(blk), i, ino[i]);
      assert OnDisk(sb, blk, i) == ino[i];
    }

    /** The rest of an iteration of writei's loop once the block is mapped at addr: the copy, and log_write if all of it
        could be read. A copy that fails leaves some of its bytes in the block: blk then shows them, but since the
        buffer was not log_written it may be recycled, and a later bread need not. */
    method CopyChunk(i: nat, src: seq<byte>, off: nat, tot: nat, m: nat, mapped: nat, addr: nat,
                     ghost blk0: Disk, ghost ino0: seq<Inode>, ghost s: Moment)
      returns (copied: bool)
      requires Valid() && i < |ino| && Progress(blk0, ino0, blk, ino, i, src, off, tot, off + tot)
      requires addr == FileBlock(blk, ino[i], (off + tot) / BSIZE) != 0
      requires tot + m <= |src| && (off + tot) % BSIZE + m <= BSIZE
      requires forall j :: 0 <= j < |ino| && j != i ==> NoHoles(blk0, ino0[j])
      requires Journal(sb, s, Moment(blk, ino[i], logged), 0, {})
      modifies this`blk, this`logged
      ensures Valid() && SameSlots(old(blk), ino, blk, ino) && (copied <==> tot + m <= mapped)
      ensures Progress(blk0, ino0, blk, ino, i, src, off, if copied then tot + m else tot, off + tot + m)
      ensures logged == old(logged) + if copied then {addr} else {}
      ensures FileBlock(blk, ino[i], (off + tot) / BSIZE) == addr
      ensures Journal(sb, s, Moment(blk, ino[i], logged), (off + tot) / BSIZE + (if copied then 1 else 0),
                      if copied then {} else {addr})
    {
      hide Owned, FileBlock, NoHoles, SlotVal, Progress, Patch, Journal, SameSlots;
      var cur := off + tot;
      copied := tot + m <= mapped;
      var q := m;
      if !copied {
        q :| 0 <= q <= m && (q == 0 || tot + q <= mapped);
      }
      ProgressWrite(sb, blk0, ino0, blk, ino, o, i, src, off, tot, q);
      JournalStep(sb, s, blk, ino, o, logged, i, cur / BSIZE, Patch(At(blk, addr), cur % BSIZE, src[tot..tot + q]),
                  copied);
      blk := blk[addr := Patch(At(blk, addr), cur % BSIZE, src[tot..tot + q])];
      if copied {
        logged := logged + {addr};   // log_write(bp)
      } else {
        ProgressLess(blk0, ino0, blk, ino, i, src, off, tot, q, off + tot + q);
        ProgressWider(blk0, ino0, blk, ino, i, src, off, tot, off + tot + q, off + tot + m);
      }
    }

    /** One iteration of writei's loop. !ok is a panic in bmap. The user's buffer is readable up to byte mapped. */
    method WriteStep(i: nat, src: seq<byte>, off: nat, tot: nat, mapped: nat, ghost blk0: Disk, ghost ino0: seq<Inode>)
      returns (ok: bool, copied: bool, m: nat, ghost added: set<nat>)
      requires Valid() && i < |ino| && Progress(blk0, ino0, blk, ino, i, src, off, tot, off + tot)
      requires tot < |src| && off + |src| <= MAXFILE * BSIZE
      requires forall j :: 0 <= j < |ino| && j != i ==> NoHoles(blk0, ino0[j])
      modifies this
      ensures m == Chunk(off, tot, |src|)
      ensures ok ==> Valid() && |ino| == |old(ino)| && (copied <==> tot + m <= mapped)
      ensures ok ==> Progress(blk0, ino0, blk, ino, i, src, off, if copied then tot + m else tot, off + tot + m)
      ensures ok ==> logged <= old(logged) + added + Pointer(ino[i])
      ensures ok ==> |added| <= 1 + (if old(FileBlock(blk, ino[i], (off + tot) / BSIZE)) == 0 then 1 else 0) +
                                (if old(Addr(ino[i], NDIRECT)) == 0 && Addr(ino[i], NDIRECT) != 0 then 1 else 0)
      ensures ok && old(Addr(ino[i], NDIRECT)) != 0 ==> Addr(ino[i], NDIRECT) == old(Addr(ino[i], NDIRECT))
      ensures ok <==> Room(sb, old(blk), old(ino[i]), (off + tot) / BSIZE, (off + tot) / BSIZE + 1)
      ensures ok ==> Paid(sb, old(blk), old(ino[i]), blk, ino[i], (off + tot) / BSIZE, (off + tot) / BSIZE + 1)
      ensures ok ==> FileBlock(blk, ino[i], (off + tot) / BSIZE) != 0
      ensures ok ==> Journal(sb, old(Moment(blk, ino[i], logged)), Moment(blk, ino[i], logged),
                             (off + tot) / BSIZE + (if copied then 1 else 0),
                             if copied then {} else {FileBlock(blk, ino[i], (off + tot) / BSIZE)})
    {
      hide Owned, FileBlock, NoHoles, Grown, SlotVal, Progress, Room, Paid, Journal, SameSlots, Addr, Pointer;
      BelowMaxfile(off, tot, |src|);
      ghost var maps;
      var bn, addr := (off + tot) / BSIZE, 0;
      m := Chunk(off, tot, |src|);
      copied := false;
      added := {};
      ok, addr, maps := Bmap(i, bn);
      if ok {
        added := maps + {addr};
        PointerGrown(old(blk), old(ino), old(o), blk, ino, o, i);
        if bn >= NDIRECT {
          PointerMapped(blk, ino[i], bn);
        }
        ProgressGrown(sb, blk0, ino0, old(blk), old(ino), old(o), blk, ino, o, i, src, off, tot);
        ghost var blk1 := blk;
        copied := CopyChunk(i, src, off, tot, m, mapped, addr, blk0, ino0, old(Moment(blk, ino[i], logged)));
        PaidSame(sb, old(blk), old(ino[i]), blk1, ino, o, blk, ino, i, bn, bn + 1);
      }
    }

    /** writei's loop. It stops after n bytes or at the first chunk that cannot be read. !ok is a panic: no room for the
        blocks up to there. */
    method WriteLoop(i: nat, src: seq<byte>, off: nat, mapped: nat) returns (ok: bool, tot: nat, ghost hi: nat)
      requires Sound() && i < |ino| && off <= ino[i].size && off + |src| <= MAXFILE * BSIZE
      modifies this
      ensures ok ==> Valid() && i < |ino| && tot <= |src| && tot <= mapped && (tot == |src| <==> |src| <= mapped) &&
                     (tot == |src| ==> hi == off + tot)
      ensures ok ==> Progress(old(blk), old(ino), blk, ino, i, src, off, tot, hi)
      ensures ok ==> |logged| <= |old(logged)| + LoopBound(off, |src|)
      ensures ok <==> Room(sb, old(blk), old(ino[i]), off / BSIZE, Reach(off, |src|, mapped))
      ensures ok ==> Paid(sb, old(blk), old(ino[i]), blk, ino[i], off / BSIZE, Reach(off, |src|, mapped))
      ensures ok ==> Landed(sb, old(Moment(blk, ino[i], logged)), Moment(blk, ino[i], logged), off, tot, |src|, hi)
    {
      hide Owned, FileBlock, NoHoles, InodeFits, Journal, Landed, Progress, Tallied, LoopBound, Room, Paid, Reach, Top,
           Addr, Pointer, Chunk, Next;
      ghost var t, reach := NoTally(), 0;
      tot, hi, ok := 0, off, true;
      ProgressStart(blk, ino, i, src, off);
      TallyStart(off, |src|, logged, ino[i]);
      PaidNone(sb, blk, ino[i], off / BSIZE);
      ReachStart(off);
      JournalNone(sb, Moment(blk, ino[i], logged), Top(off, 0));
      while tot < |src|
        invariant Valid() && i < |ino| && |ino| == |old(ino)| && tot <= |src| && hi == off + tot &&
                  (tot > 0 ==> tot <= mapped)
        invariant Progress(old(blk), old(ino), blk, ino, i, src, off, tot, hi)
        invariant Tallied(off, tot, |src|, old(logged), logged, ino[i], t) && reach == tot
        invariant Paid(sb, old(blk), old(ino[i]), blk, ino[i], off / BSIZE, Top(off, tot))
        invariant Journal(sb, old(Moment(blk, ino[i], logged)), Moment(blk, ino[i], logged), Top(off, tot), {})
      {
        TallyAligned(off, tot, |src|, old(logged), logged, ino[i], t);
        ReachStep(off, tot, |src|, mapped, Chunk(off, tot, |src|));
        ghost var blk1, ip1, logged1, bn := blk, ino[i], logged, (off + tot) / BSIZE;
        ghost var isNew := FileBlock(blk, ino[i], bn) == 0;
        if tot == 0 && off % BSIZE != 0 {
          FirstMapped(old(blk), old(ino), blk, ino, i, src, off, tot, hi);
        }
        var copied, m;
        ghost var added;
        ok, copied, m, added := WriteStep(i, src, off, tot, mapped, old(blk), old(ino));
        if !ok {
          PaidShort(sb, old(blk), old(ino[i]), blk1, ip1, off / BSIZE, bn, bn, bn + 1, Reach(off, |src|, mapped));
          return;
        }
        PaidThen(sb, old(blk), old(ino[i]), blk1, ip1, blk, ino[i], off / BSIZE, bn, bn, bn + 1);
        TallyStep(off, tot, |src|, old(logged), logged1, ip1, t, logged, added, ino[i], isNew, m);
        t := Next(t, added, isNew, ip1, ino[i]);
        hi, reach := off + tot + m, tot + m;
        if !copied {
          LandedShort(sb, old(Moment(blk, ino[i], logged)), Moment(blk1, ip1, logged1), Moment(blk, ino[i], logged),
                      off, tot, |src|, m);
          break;
        }
        JournalThen(sb, old(Moment(blk, ino[i], logged)), Moment(blk1, ip1, logged1), Moment(blk, ino[i], logged), bn,
                    bn + 1, {});
        tot := tot + m;
      }
      if tot == |src| {
        LandedFull(sb, old(Moment(blk, ino[i], logged)), Moment(blk, ino[i], logged), off, tot);
        ReachEnd(off, |src|, mapped);
      }
      PaidRoom(sb, old(blk), old(ino[i]), blk, ino[i], off / BSIZE, Reach(off, |src|, mapped));
      LoopCounted(off, reach, |src|, old(logged), logged, ino[i], t);
    }

    /** The end of writei: the file extends to byte end at least, and the inode goes to disk. */
    method Extend(i: nat, end: nat, ghost ino0: seq<Inode>)
      requires Valid() && i < |ino| == |ino0| && end <= MAXFILE * BSIZE && InodeFits(ino0[i])
      requires ino[i] == ino0[i].(addrs := ino[i].addrs)
      modifies this`blk, this`ino, this`logged
      ensures Valid() && ino ==
              old(ino)[i := old(ino[i]).(size := if end > old(ino[i]).size then end else old(ino[i]).size)]
      ensures InodeFits(ino[i]) && Owned(sb, old(blk), ino, o) && SameSlots(old(blk), ino, blk, ino)
      ensures forall b :: sb.nmeta <= b ==> At(blk, b) == At(old(blk), b)
      ensures OnDisk(sb, blk, i) == ino[i] && forall j: nat :: j != i ==> OnDisk(sb, blk, j) == OnDisk(sb, old(blk), j)
      ensures logged == old(logged) + {IBlock(sb, i)} && blk == old(blk)[IBlock(sb, i) := At(blk, IBlock(sb, i))]
    {
      hide Owned, OnDisk, SameSlots, At, IBlock;
      Resized(sb, blk, ino, o, i, if end > ino[i].size then end else ino[i].size);
      assert ino[i := ino[i].(size := ino[i].size)] == ino;
      if end > ino[i].size {
        ino := ino[i := ino[i].(size := end)];
      }
      AddrsFit(sb, blk, ino, o, i);
      Iupdate(i);
    }

    /** writei. A request it refuses (starting past the end, wrapping, or too long for a file) changes nothing.
        Otherwise, if all of src could be read, the file becomes the old one overlaid with src at off; in any case
        no other file or inode changes, the inode on disk is current, and the blocks log_written are within bound.
        !ok is a panic: there are fewer free blocks than empty slots among those of the blocks it gets to. If there are
        enough, exactly those slots get a block. */
    method Writei(i: nat, src: seq<byte>, off: nat, mapped: nat) returns (ok: bool, ret: int)
      requires Sound() && i < |ino| && off < U32MAX && |src| < U32MAX
      modifies this
      ensures ok ==> Sound() && |ino| == |old(ino)|
      ensures Refused(off, |src|, old(ino[i].size)) ==>
        ok && ret == -1 && blk == old(blk) && ino == old(ino) && o == old(o) && logged == old(logged)
      ensures ok && !Refused(off, |src|, old(ino[i].size)) ==>
        && 0 <= ret <= |src| && ret <= mapped && (ret == |src| <==> |src| <= mapped)
        && ino[i].size == (if off + ret > old(ino[i].size) then off + ret else old(ino[i].size))
        && Contents(blk, ino[i])[..off] == old(Contents(blk, ino[i]))[..off]
        && Contents(blk, ino[i])[off..off + ret] == src[..ret]
        && (ret == |src| ==> Contents(blk, ino[i]) == Overlay(old(Contents(blk, ino[i])), off, src))
        && OnDisk(sb, blk, i) == ino[i]
      ensures ok ==> forall j :: 0 <= j < |ino| && j != i ==>
              ino[j] == old(ino[j]) && Contents(blk, ino[j]) == old(Contents(blk, ino[j]))
      ensures ok ==> |logged| <= |old(logged)| + LoopBound(off, |src|) + 1
      ensures ok <==> Refused(off, |src|, old(ino[i].size)) ||
                      Room(sb, old(blk), old(ino[i]), off / BSIZE, Reach(off, |src|, mapped))
      ensures ok && !Refused(off, |src|, old(ino[i].size)) ==>
        Paid(sb, old(blk), old(ino[i]), blk, ino[i], off / BSIZE, Reach(off, |src|, mapped))
      ensures ok && !Refused(off, |src|, old(ino[i].size)) && old(logged) == {} && old(Synced(sb, blk, ino)) ==>
        && Commits(sb, old(blk), old(ino), blk, ino, o, logged, i, off, src[..ret]) && Synced(sb, blk, ino)
        && (ret == |src| ==> After(old(blk), blk, logged) == blk)
    {
      hide Owned, FileBlock, Progress, SameSlots, OnDisk, Contents, FileByte, MappedTo, Room, Paid, Reach, Landed,
           Commits, Synced, After, LoopBound, IBlock, At;
      if off > ino[i].size || (off + |src|) % U32MAX < off {
        return true, -1;
      }
      if (off + |src|) % U32MAX > MAXFILE * BSIZE {
        return true, -1;
      }
      var tot;
      ghost var hi;
      ok, tot, hi := WriteLoop(i, src, off, mapped);
      if !ok {
        return false, 0;
      }
      ghost var blk1, ino1, logged1 := blk, ino, logged;
      ProgressShape(old(blk), old(ino), blk, ino, i, src, off, tot, hi);
      Extend(i, off + tot, old(ino));
      WriteDone(sb, old(blk), old(ino), blk1, ino1, o, i, src, off, tot, hi, blk, ino);
      PaidResized(sb, old(blk), old(ino[i]), blk1, ino1[i], ino[i], off / BSIZE, Reach(off, |src|, mapped));
      PaidSame(sb, old(blk), old(ino[i]), blk1, ino, o, blk, ino, i, off / BSIZE, Reach(off, |src|, mapped));
      if old(logged) == {} && old(Synced(sb, blk, ino)) {
        WriteCommitted(sb, old(blk), old(ino), blk1, ino1, o, logged1, i, src, off, tot, hi, blk, ino);
      }
      return true, tot;
    }

    /** bfree of a block some slot owns: its bit is set, so the panic is not reached, and becomes clear. */
    method Bfree(b: nat) returns (ok: bool)
      requires Owned(sb, blk, ino, o) && NoIndirectDead(ino, o) && b in o.owner
      modifies this`blk, this`o, this`logged
      ensures ok && Used(sb, old(blk), b) && blk == Marked(sb, old(blk), b, false)
      ensures Owned(sb, blk, ino, o) && SameSlots(old(blk), ino, blk, ino)
      ensures o == old(o).(owner := old(o).owner - {b}, dead := old(o).dead + {old(o).owner[b]})
      ensures forall c :: sb.nmeta <= c ==> At(blk, c) == At(old(blk), c)
    {
      hide Bit, SlotVal, SameSlots;
      FreeOwned(sb, blk, ino, o, b);
      assert BBlock(sb, b) < sb.nmeta;
      if !Bit(At(blk, BBlock(sb, b)), b % BPB) {
        return false;   // freeing free block
      }
      blk := Marked(sb, blk, b, false);
      logged := logged + {BBlock(sb, b)};   // log_write(bp)
      o := o.(owner := o.owner - {b}, dead := o.dead + {o.owner[b]});
      return true;
    }

    /** One iteration of itrunc's first loop. */
    method TruncDirect(i: nat, d: nat) returns (ok: bool)
      requires Valid() && i < |ino| && d < NDIRECT
      modifies this
      ensures ok && Valid() && |ino| == |old(ino)| &&
              ino == old(ino)[i := old(ino[i]).(addrs := old(ino[i]).addrs[d := 0])]
      ensures forall c :: sb.nmeta <= c ==> At(blk, c) == At(old(blk), c)
      ensures forall b :: b in o.owner <==> b in old(o).owner && old(o).owner[b] != Slot(i, d)
      ensures forall b :: b in o.owner ==> o.owner[b] == old(o).owner[b]
    {
      hide Bit, Used, SameSlots;
      ok := true;
      assert SlotVal(blk, ino, Slot(i, d)) == ino[i].addrs[d];
      if ino[i].addrs[d] != 0 {
        ok := Bfree(ino[i].addrs[d]);
        LinkDirect(blk, ino, i, d, 0);
        UnlinkSlot(sb, blk, ino, o, blk, ino[i := ino[i].(addrs := ino[i].addrs[d := 0])], Slot(i, d));
        ino := ino[i := ino[i].(addrs := ino[i].addrs[d := 0])];
        o := o.(dead := o.dead - {Slot(i, d)});
        assert o.dead == {};
      } else {
        assert ino[i].addrs[d := 0] == ino[i].addrs;
      }
    }

    /** itrunc's second loop: free every block the indirect block lists, leaving the list as it is. */
    method TruncEntries(i: nat) returns (ok: bool)
      requires Valid() && i < |ino| && Addr(ino[i], NDIRECT) != 0
      modifies this`blk, this`o, this`logged
      ensures ok && Owned(sb, blk, ino, o) && o.pending == {} && Listed(i, NINDIRECT)
      ensures forall c :: sb.nmeta <= c ==> At(blk, c) == At(old(blk), c)
      ensures forall b :: b in o.owner <==> b in old(o).owner && !InEntries(old(o).owner[b], i, NINDIRECT)
      ensures forall b :: b in o.owner ==> o.owner[b] == old(o).owner[b]
    {
      hide Bit, Used, SameSlots, Word, Owned;
      ok := true;
      IndirectData(sb, blk, ino, o, i);
      var a := At(blk, ino[i].addrs[NDIRECT]);
      for j := 0 to NINDIRECT
        invariant ok && Owned(sb, blk, ino, o) && o.pending == {} && Listed(i, j)
        invariant forall c :: sb.nmeta <= c ==> At(blk, c) == At(old(blk), c)
        invariant forall b :: b in o.owner <==> b in old(o).owner && !InEntries(old(o).owner[b], i, j)
        invariant forall b :: b in o.owner ==> o.owner[b] == old(o).owner[b]
      {
        ghost var s := Slot(i, NDIRECT + j);
        assert SlotVal(blk, ino, s) == Word(a, j);
        EntryOwned(sb, blk, ino, o, s);
        if Word(a, j) != 0 {
          ok := Bfree(Word(a, j));
        }
        NextListed(old(o).owner, i, j, s);
      }
    }

    /** The dead slots are entries of inode i's indirect block below j, and every used one of these is dead. */
    ghost predicate Listed(i: nat, j: nat)
      requires i < |ino|
      reads this
    {
      && (forall s :: s in o.dead ==> InEntries(s, i, j))
      && (forall bn :: NDIRECT <= bn < NDIRECT + j && bn < MAXFILE && SlotVal(blk, ino, Slot(i, bn)) != 0 ==>
          Slot(i, bn) in o.dead)
    }

    lemma NextListed(owner: map<nat, Slot>, i: nat, j: nat, s: Slot)
      requires s == Slot(i, NDIRECT + j)
      ensures forall t :: InEntries(t, i, j + 1) <==> InEntries(t, i, j) || t == s
    {
    }

    /** The indirect part of itrunc. */
    method TruncIndirect(i: nat) returns (ok: bool)
      requires Valid() && i < |ino|
      modifies this
      ensures ok && Valid() && |ino| == |old(ino)| &&
              ino == old(ino)[i := old(ino[i]).(addrs := old(ino[i]).addrs[NDIRECT := 0])]
      ensures forall c :: sb.nmeta <= c ==> At(blk, c) == At(old(blk), c)
      ensures forall b :: b in o.owner <==>
              b in old(o).owner && !(old(o).owner[b].i == i && old(o).owner[b].bn >= NDIRECT)
      ensures forall b :: b in o.owner ==> o.owner[b] == old(o).owner[b]
    {
      hide Bit, Used, SameSlots, Owned, SlotVal;
      ok := true;
      if ino[i].addrs[NDIRECT] != 0 {
        PointerOwned(sb, blk, ino, o, i);
        ok := TruncEntries(i);
        ghost var blk1, o1 := blk, o;
        ok := Bfree(ino[i].addrs[NDIRECT]);
        SameListed(blk1, blk, ino, i);
        PointerCleared(blk, ino, o.dead, i);
        UnlinkDead(sb, blk, ino, o, ino[i := ino[i].(addrs := ino[i].addrs[NDIRECT := 0])]);
        ino := ino[i := ino[i].(addrs := ino[i].addrs[NDIRECT := 0])];
        o := o.(dead := {});
      } else {
        NothingIndirect(sb, blk, ino, o, i);
        assert ino[i].addrs[NDIRECT := 0] == ino[i].addrs;
      }
    }

    /** itrunc: every block of the file goes back to the bitmap, "freeing free block" is not reached, the file is
        empty, and no other file or inode changes. */
    method Itrunc(i: nat) returns (ok: bool)
      requires Sound() && i < |ino|
      modifies this
      ensures ok && Sound() && |ino| == |old(ino)| && Contents(blk, ino[i]) == []
      ensures ino[i] == old(ino[i]).(size := 0, addrs := ino[i].addrs) && forall bn :: FileBlock(blk, ino[i], bn) == 0
      ensures forall b :: b in o.owner <==> b in old(o).owner && old(o).owner[b].i != i
      ensures forall j :: 0 <= j < |ino| && j != i ==>
              ino[j] == old(ino[j]) && Contents(blk, ino[j]) == old(Contents(blk, ino[j]))
      ensures OnDisk(sb, blk, i) == ino[i]
    {
      hide Owned, Contents, OnDisk, SameSlots, FileByte, MappedTo, SlotVal;
      ok := true;
      for d := 0 to NDIRECT
        invariant ok && Valid() && |ino| == |old(ino)| && ino == old(ino)[i := old(ino[i]).(addrs := ino[i].addrs)]
        invariant forall e :: 0 <= e < d ==> ino[i].addrs[e] == 0
        invariant forall c :: sb.nmeta <= c ==> At(blk, c) == At(old(blk), c)
        invariant forall b :: b in o.owner <==> b in old(o).owner && !(old(o).owner[b].i == i && old(o).owner[b].bn < d)
        invariant forall b :: b in o.owner ==> o.owner[b] == old(o).owner[b]
      {
        ok := TruncDirect(i, d);
      }
      ok := TruncIndirect(i);
      assert forall e :: 0 <= e <= NDIRECT ==> ino[i].addrs[e] == 0;
      Resized(sb, blk, ino, o, i, 0);
      ino := ino[i := ino[i].(size := 0)];
      Iupdate(i);
      forall j | 0 <= j < |ino| && j != i
        ensures NoHoles(blk, ino[j]) && Contents(blk, ino[j]) == old(Contents(blk, ino[j]))
      {
        FilesSame(sb, old(blk), old(ino), old(o), blk, j);
      }
      EmptyFile(blk, ino[i]);
    }
  }

  /** The blocks that differ once block r is taken. */
  lemma TakenBlocks(sb: Super, blk: Disk, r: nat)
    requires BBlock(sb, r) in blk && r in blk
    ensures var blk' := Marked(sb, blk, r, true)[r := ZeroBlock()];
            blk'.Keys == blk.Keys && forall b: nat :: b != BBlock(sb, r) && b != r ==> At(blk', b) == At(blk, b)
  {
  }

  /** One free block went into slot s. */
  ghost predicate Took(sb: Super, blk: Disk, ip: Inode, blk': Disk, ip': Inode, s: nat) {
    && Empty(blk', ip') == Empty(blk, ip) - {s} && |Empty(blk', ip')| == |Empty(blk, ip)| - 1
    && |FreeBlocks(sb, blk')| == |FreeBlocks(sb, blk)| - 1
  }

  lemma TookSlot(sb: Super, blk: Disk, ino: seq<Inode>, o: Own, blk': Disk, ino': seq<Inode>, o': Own, s: Slot, r: nat)
    requires Owned(sb, blk, ino, o) && Owned(sb, blk', ino', o') && r !in o.owner && r !in o.pending && r != 0
    requires o'.owner == o.owner[r := s] && o'.pending == o.pending
    requires Linked(blk, ino, blk', ino', s, r) && SlotVal(blk, ino, s) == 0
    ensures Took(sb, blk, ino[s.i], blk', ino'[s.i], s.bn)
  {
    hide SlotVal, Used, Empty, FreeBlocks, SlotsOwned, BitsOwned;
    assert r in o'.owner;
    FreeTaken(sb, blk, ino, o, blk', ino', o', r);
    EmptyLess(blk, ino, blk', ino', s.i, s.bn, r);
  }

  /** With the new indirect block in place, file block bn needs one more. */
  lemma StillUnmapped(sb: Super, blk: Disk, ip: Inode, blk': Disk, ip': Inode, bn: nat)
    requires NDIRECT <= bn < MAXFILE && FileBlock(blk, ip, bn) == 0 && Took(sb, blk, ip, blk', ip', MAXFILE)
    requires Addr(ip', NDIRECT) != 0
    ensures Room(sb, blk', ip', bn, bn + 1) <==> |FreeBlocks(sb, blk)| >= 2
  {
    hide FreeBlocks;
    assert SlotOf(blk, ip, bn) == 0;
    assert bn in Empty(blk', ip');
    NeedsOne(sb, blk', ip', bn);
  }

  lemma EmptyFile(blk: Disk, ip: Inode)
    requires ip.size == 0 && |ip.addrs| == NDIRECT + 1 && forall e :: 0 <= e <= NDIRECT ==> ip.addrs[e] == 0
    ensures NoHoles(blk, ip) && Contents(blk, ip) == [] && forall bn :: FileBlock(blk, ip, bn) == 0
  {
  }

  lemma PointerOwned(sb: Super, blk: Disk, ino: seq<Inode>, o: Own, i: nat)
    requires Owned(sb, blk, ino, o) && o.dead == {} && i < |ino| && |ino[i].addrs| == NDIRECT + 1 &&
             ino[i].addrs[NDIRECT] != 0
    ensures ino[i].addrs[NDIRECT] in o.owner && o.owner[ino[i].addrs[NDIRECT]] == Slot(i, MAXFILE)
    ensures forall b :: b in o.owner && o.owner[b] == Slot(i, MAXFILE) ==> b == ino[i].addrs[NDIRECT]
    ensures forall b :: b in o.owner ==> o.owner[b].bn <= MAXFILE
  {
    EntryOwned(sb, blk, ino, o, Slot(i, MAXFILE));
  }

  lemma SameListed(blk: Disk, blk': Disk, ino: seq<Inode>, i: nat)
    requires SameSlots(blk, ino, blk', ino) && i < |ino|
    ensures forall bn :: NDIRECT <= bn < MAXFILE ==> SlotVal(blk', ino, Slot(i, bn)) == SlotVal(blk, ino, Slot(i, bn))
  {
    hide SlotVal;
    forall bn | NDIRECT <= bn < MAXFILE ensures SlotVal(blk', ino, Slot(i, bn)) == SlotVal(blk, ino, Slot(i, bn)) {
      assert IsSlot(ino, Slot(i, bn));
    }
  }

  lemma NothingIndirect(sb: Super, blk: Disk, ino: seq<Inode>, o: Own, i: nat)
    requires Owned(sb, blk, ino, o) && o.dead == {} && i < |ino| && Addr(ino[i], NDIRECT) == 0
    ensures forall b :: b in o.owner ==> !(o.owner[b].i == i && o.owner[b].bn >= NDIRECT)
  {
    forall b | b in o.owner ensures !(o.owner[b].i == i && o.owner[b].bn >= NDIRECT) {
      assert SlotVal(blk, ino, o.owner[b]) == b;
    }
  }

  predicate InEntries(s: Slot, i: nat, j: nat) {
    s.i == i && NDIRECT <= s.bn < NDIRECT + j
  }

  lemma IndirectData(sb: Super, blk: Disk, ino: seq<Inode>, o: Own, i: nat)
    requires Owned(sb, blk, ino, o) && o.dead == {} && i < |ino| && Addr(ino[i], NDIRECT) != 0
    ensures sb.nmeta <= Addr(ino[i], NDIRECT)
  {
    IndirectOwned(sb, blk, ino, o, i);
  }

  lemma EntryOwned(sb: Super, blk: Disk, ino: seq<Inode>, o: Own, s: Slot)
    requires Owned(sb, blk, ino, o) && IsSlot(ino, s) && s !in o.dead
    ensures SlotVal(blk, ino, s) != 0 ==> SlotVal(blk, ino, s) in o.owner && o.owner[SlotVal(blk, ino, s)] == s
    ensures forall b :: b in o.owner && o.owner[b] == s ==> b == SlotVal(blk, ino, s) != 0
  {
  }

  predicate Refused(off: nat, n: nat, size: nat) {
    off > size || off + n >= U32MAX || off + n > MAXFILE * BSIZE
  }

  lemma AddrsFit(sb: Super, blk: Disk, ino: seq<Inode>, o: Own, i: nat)
    requires Owned(sb, blk, ino, o) && o.dead == {} && i < |ino|
    ensures forall d :: 0 <= d < |ino[i].addrs| ==> ino[i].addrs[d] < U32MAX
  {
    forall d | 0 <= d < |ino[i].addrs| ensures ino[i].addrs[d] < U32MAX {
      var s := Slot(i, if d == NDIRECT then MAXFILE else d);
      assert SlotVal(blk, ino, s) == ino[i].addrs[d];
    }
  }

  // ------------------------------------------------ counting blocks written

  /** The blocks of the file that bytes [off, off + n) lie in. */
  function Spanned(off: nat, n: nat): nat {
    (off % BSIZE + n + BSIZE - 1) / BSIZE
  }

  function Ragged(off: nat, n: nat): nat {
    if off % BSIZE != 0 && n > 0 then 1 else 0
  }

  /** The most blocks writei's loop can log_write: each block, a bitmap block for each new one (the first is not new
      if the write starts inside it), the indirect block and its bitmap block. */
  function LoopBound(off: nat, n: nat): nat {
    if n == 0 then 2 else 2 * Spanned(off, n) - Ragged(off, n) + 2
  }

  /** What the loop has log_written so far: the blocks in x and the indirect block, for count blocks visited of which
      allocs were new; ptr counts the indirect block's bitmap block. */
  datatype Tally = Tally(x: set<nat>, count: nat, allocs: nat, ptr: nat)

  ghost function NoTally(): Tally {
    Tally({}, 0, 0, 0)
  }

  ghost function Next(t: Tally, added: set<nat>, isNew: bool, ip: Inode, ip': Inode): Tally {
    Tally(t.x + added, t.count + 1, t.allocs + (if isNew then 1 else 0),
          if Addr(ip, NDIRECT) == 0 && Addr(ip', NDIRECT) != 0 then 1 else t.ptr)
  }

  ghost predicate Tallied(off: nat, tot: nat, n: nat, l0: set<nat>, l: set<nat>, ip: Inode, t: Tally) {
    && l <= l0 + t.x + Pointer(ip) && |t.x| <= t.count + t.allocs + t.ptr
    && (t.ptr == 0 || (t.ptr == 1 && Addr(ip, NDIRECT) != 0))
    && Counts(off, tot, n, t.count, t.allocs)
  }

  ghost predicate Counts(off: nat, tot: nat, n: nat, count: nat, allocs: nat) {
    && (count == 0 <==> tot == 0)
    && (count > 0 ==> (off / BSIZE + count - 1) * BSIZE < off + tot <= (off / BSIZE + count) * BSIZE)
    && ((off + tot) % BSIZE == 0 || tot == n || tot == 0)
    && allocs + (if count > 0 then Ragged(off, n) else 0) <= count
  }

  lemma TallyStart(off: nat, n: nat, l: set<nat>, ip: Inode)
    ensures Tallied(off, 0, n, l, l, ip, NoTally())
  {
  }

  lemma TallyAligned(off: nat, tot: nat, n: nat, l0: set<nat>, l: set<nat>, ip: Inode, t: Tally)
    requires Tallied(off, tot, n, l0, l, ip, t) && tot < n
    ensures (off + tot) % BSIZE == 0 || tot == 0
  {
  }

  lemma CountsStep(off: nat, tot: nat, n: nat, count: nat, allocs: nat, isNew: bool, m: nat)
    requires Counts(off, tot, n, count, allocs) && tot < n && m == Chunk(off, tot, n)
    requires isNew && tot == 0 ==> off % BSIZE == 0
    ensures Counts(off, tot + m, n, count + 1, allocs + if isNew then 1 else 0)
  {
    var cur := off + tot;
    assert cur == cur / BSIZE * BSIZE + cur % BSIZE;
    assert cur / BSIZE == off / BSIZE + count;
  }

  lemma TallyStep(off: nat, tot: nat, n: nat, l0: set<nat>, l: set<nat>, ip: Inode, t: Tally, l': set<nat>,
                  added: set<nat>, ip': Inode, isNew: bool, m: nat)
    requires Tallied(off, tot, n, l0, l, ip, t) && l' <= l + added + Pointer(ip') && tot < n && m == Chunk(off, tot, n)
    requires |added| <= 1 + (if isNew then 1 else 0) +
             (if Addr(ip, NDIRECT) == 0 && Addr(ip', NDIRECT) != 0 then 1 else 0)
    requires Addr(ip, NDIRECT) != 0 ==> Addr(ip', NDIRECT) == Addr(ip, NDIRECT)
    requires isNew && tot == 0 ==> off % BSIZE == 0
    ensures Tallied(off, tot + m, n, l0, l', ip', Next(t, added, isNew, ip, ip'))
  {
    hide Counts;
    CountsStep(off, tot, n, t.count, t.allocs, isNew, m);
    SetUnion(t.x, added);
  }

  lemma LoopCounted(off: nat, tot: nat, n: nat, l0: set<nat>, l: set<nat>, ip: Inode, t: Tally)
    requires Tallied(off, tot, n, l0, l, ip, t) && tot <= n
    ensures |l| <= |l0| + LoopBound(off, n)
  {
    var p := Pointer(ip);
    SubsetSize(l, l0 + t.x + p);
    SetUnion(l0 + t.x, p);
    SetUnion(l0, t.x);
    if t.count > 0 {
      SpannedAtLeast(off, n, t.count);
    } else if n > 0 {
      SpannedAtLeast(off, n, 1);
    }
  }

  lemma SpannedAtLeast(off: nat, n: nat, count: nat)
    requires count > 0 && (off / BSIZE + count - 1) * BSIZE < off + n
    ensures count <= Spanned(off, n)
  {
    assert off == off / BSIZE * BSIZE + off % BSIZE;
    assert (count - 1) * BSIZE < off % BSIZE + n;
  }

  lemma ProgressShape(blk0: Disk, ino0: seq<Inode>, blk: Disk, ino: seq<Inode>, i: nat, src: seq<byte>, off: nat,
                      tot: nat, hi: nat)
    requires Progress(blk0, ino0, blk, ino, i, src, off, tot, hi)
    ensures |ino| == |ino0| && i < |ino| && ino[i] == ino0[i].(addrs := ino[i].addrs)
  {
  }

  /** What writei has done to the files, now that the inode is on disk. */
  lemma WriteDone(sb: Super, blk0: Disk, ino0: seq<Inode>, blk1: Disk, ino1: seq<Inode>, o: Own, i: nat, src: seq<byte>,
                  off: nat, tot: nat, hi: nat, blk: Disk, ino: seq<Inode>)
    requires Progress(blk0, ino0, blk1, ino1, i, src, off, tot, hi) && forall j :: 0 <= j < |ino0| ==>
             NoHoles(blk0, ino0[j])
    requires off <= ino0[i].size && off + tot <= MAXFILE * BSIZE
    requires ino == ino1[i := ino1[i].(size := if off + tot > ino1[i].size then off + tot else ino1[i].size)]
    requires Owned(sb, blk1, ino, o) && o.dead == {} && forall b :: sb.nmeta <= b ==> At(blk, b) == At(blk1, b)
    ensures |ino| == |ino0| && ino[i].size == (if off + tot > ino0[i].size then off + tot else ino0[i].size)
    ensures Contents(blk, ino[i])[..off] == Contents(blk0, ino0[i])[..off] &&
            Contents(blk, ino[i])[off..off + tot] == src[..tot]
    ensures hi == off + tot ==> Contents(blk, ino[i]) == Overlay(Contents(blk0, ino0[i]), off, src[..tot])
    ensures forall j :: 0 <= j < |ino| ==> NoHoles(blk, ino[j])
    ensures forall j :: 0 <= j < |ino| && j != i ==>
            ino[j] == ino0[j] && Contents(blk, ino[j]) == Contents(blk0, ino0[j])
  {
    hide Owned, FileByte, MappedTo, SameFile, Contents, At;
    WroteOthers(blk0, ino0, blk1, ino1, i, src, off, tot, hi);
    Wrote(blk0, ino0, blk1, ino1, i, src, off, tot, hi, ino[i]);
    forall j | 0 <= j < |ino| ensures NoHoles(blk, ino[j]) && Contents(blk, ino[j]) == Contents(blk1, ino[j]) {
      FilesSame(sb, blk1, ino, o, blk, j);
    }
  }

  lemma PaidResized(sb: Super, blk0: Disk, ip0: Inode, blk: Disk, ip: Inode, ip': Inode, lo: nat, hi: nat)
    requires Paid(sb, blk0, ip0, blk, ip, lo, hi) && ip'.addrs == ip.addrs
    ensures Paid(sb, blk0, ip0, blk, ip', lo, hi)
  {
    EmptyAddrs(blk, ip, ip');
  }

  lemma ReachStart(off: nat)
    ensures Top(off, 0) == off / BSIZE
  {
  }

  lemma BelowMaxfile(off: nat, tot: nat, n: nat)
    requires tot < n && off + n <= MAXFILE * BSIZE
    ensures (off + tot) / BSIZE < MAXFILE
  {
  }

  lemma SetUnion(x: set<nat>, y: set<nat>)
    ensures |x + y| <= |x| + |y|
  {
  }

  lemma FirstMapped(blk0: Disk, ino0: seq<Inode>, blk: Disk, ino: seq<Inode>, i: nat, src: seq<byte>, off: nat,
                    tot: nat, hi: nat)
    requires Progress(blk0, ino0, blk, ino, i, src, off, tot, hi) && off <= ino0[i].size && off % BSIZE != 0
    ensures FileBlock(blk, ino[i], off / BSIZE) != 0
  {
    hide FileBlock;
    assert off / BSIZE * BSIZE < off;
  }

  /** The bytes one iteration moves: to the end of the block or of the request. */
  function Chunk(off: nat, tot: nat, n: nat): (m: nat)
    requires tot < n
    ensures 1 <= m && tot + m <= n && (off + tot) % BSIZE + m <= BSIZE
    ensures (off + tot + m) % BSIZE == 0 || tot + m == n
  {
    if n - tot < BSIZE - (off + tot) % BSIZE then n - tot else BSIZE - (off + tot) % BSIZE
  }

  lemma PointerGrown(blk: Disk, ino: seq<Inode>, o: Own, blk': Disk, ino': seq<Inode>, o': Own, i: nat)
    requires Grown(blk, ino, o, blk', ino', o', i)
    ensures |ino'| == |ino| && (Addr(ino[i], NDIRECT) != 0 ==> Addr(ino'[i], NDIRECT) == Addr(ino[i], NDIRECT))
  {
    if Addr(ino[i], NDIRECT) != 0 {
      PointerStays(blk, ino, o, blk', ino', o', i);
    }
  }

  lemma PointerMapped(blk: Disk, ip: Inode, bn: nat)
    requires FileBlock(blk, ip, bn) != 0 && bn >= NDIRECT
    ensures Addr(ip, NDIRECT) != 0
  {
  }

  lemma ProgressWider(blk0: Disk, ino0: seq<Inode>, blk: Disk, ino: seq<Inode>, i: nat, src: seq<byte>, off: nat,
                      tot: nat, hi: nat, hi': nat)
    requires Progress(blk0, ino0, blk, ino, i, src, off, tot, hi) && hi <= hi'
    ensures Progress(blk0, ino0, blk, ino, i, src, off, tot, hi')
  {
  }

  lemma MappedAt(blk: Disk, ip: Inode, k: nat)
    requires NoHoles(blk, ip) && k < ip.size
    ensures FileBlock(blk, ip, k / BSIZE) != 0 && k / BSIZE < MAXFILE
  {
    BlockOf(k, ip.size);
  }

  /** A run of bytes inside one block of the file. */
  lemma ChunkRead(blk: Disk, ip: Inode, cur: nat, m: nat)
    requires cur + m <= ip.size && cur % BSIZE + m <= BSIZE
    ensures At(blk, FileBlock(blk, ip, cur / BSIZE))[cur % BSIZE..cur % BSIZE + m] == Contents(blk, ip)[cur..cur + m]
  {
    hide FileBlock;
    var l, r := At(blk, FileBlock(blk, ip, cur / BSIZE))[cur % BSIZE..cur % BSIZE + m], Contents(blk, ip)[cur..cur + m];
    forall x | 0 <= x < m ensures l[x] == r[x] {
      SameBlock(cur, cur + x, m);
      assert r[x] == FileByte(blk, ip, cur + x);
    }
  }

  /** dst is the n bytes of the file from off on. */
  ghost predicate Copied(blk: Disk, ip: Inode, off: nat, n: nat, dst: seq<byte>) {
    off + n <= ip.size && dst == Contents(blk, ip)[off..off + n]
  }

  lemma ReadNone(blk: Disk, ip: Inode, off: nat)
    requires off <= ip.size
    ensures Copied(blk, ip, off, 0, [])
  {
  }

  lemma ReadMore(blk: Disk, ip: Inode, off: nat, tot: nat, m: nat, dst: seq<byte>)
    requires off + tot + m <= ip.size && (off + tot) % BSIZE + m <= BSIZE && Copied(blk, ip, off, tot, dst)
    ensures var d := At(blk, FileBlock(blk, ip, (off + tot) / BSIZE))[(off + tot) % BSIZE..(off + tot) % BSIZE + m];
            Copied(blk, ip, off, tot + m, dst + d)
  {
    hide FileBlock, Contents;
    ChunkRead(blk, ip, off + tot, m);
    Consecutive(Contents(blk, ip), off, off + tot, off + tot + m);
  }

  lemma NoPointer(blk: Disk, ip: Inode, bn: nat)
    requires Addr(ip, NDIRECT) == 0 && bn >= NDIRECT
    ensures FileBlock(blk, ip, bn) == 0
  {
  }

  lemma PointerStays(blk: Disk, ino: seq<Inode>, o: Own, blk': Disk, ino': seq<Inode>, o': Own, i: nat)
    requires Grown(blk, ino, o, blk', ino', o', i) && Addr(ino[i], NDIRECT) != 0
    ensures Addr(ino'[i], NDIRECT) == Addr(ino[i], NDIRECT)
  {
    assert SlotVal(blk', ino', Slot(i, MAXFILE)) == SlotVal(blk, ino, Slot(i, MAXFILE));
  }

  lemma AtSlot(blk: Disk, ino: seq<Inode>, blk': Disk, ino': seq<Inode>, i: nat, bn: nat, b: nat)
    requires i < |ino| && bn < MAXFILE && Linked(blk, ino, blk', ino', Slot(i, bn), b)
    ensures FileBlock(blk', ino'[i], bn) == b
  {
    assert SlotVal(blk', ino', Slot(i, bn)) == FileBlock(blk', ino'[i], bn);
  }

  /** The indirect block of an inode, if it has one. */
  ghost function Pointer(ip: Inode): set<nat> {
    if Addr(ip, NDIRECT) == 0 then {} else {Addr(ip, NDIRECT)}
  }

  lemma EmptySlot(blk: Disk, ino: seq<Inode>, i: nat, d: nat)
    requires i < |ino| && |ino[i].addrs| == NDIRECT + 1 && d <= NDIRECT
    ensures SlotVal(blk, ino, Slot(i, if d == NDIRECT then MAXFILE else d)) == ino[i].addrs[d]
  {
  }

  /** Writing a data block changes no bitmap bit. */
  lemma EntryBits(sb: Super, blk: Disk, k: nat, x: Block)
    requires Layout(sb) && sb.nmeta <= k
    ensures forall c :: 0 <= c < sb.size ==> Used(sb, blk[k := x], c) == Used(sb, blk, c)
  {
    hide Bit;
  }

  lemma FoundFree(sb: Super, blk: Disk, b: nat, bi: nat)
    requires b % BPB == 0 && bi < BPB && !Bit(At(blk, BBlock(sb, b)), bi)
    requires forall j :: 0 <= j < bi ==> Bit(At(blk, BBlock(sb, b)), j)
    ensures !Used(sb, blk, b + bi) && forall c :: b <= c < b + bi ==> Used(sb, blk, c)
  {
    forall c | b <= c < b + bi ensures Used(sb, blk, c) {
      assert BBlock(sb, c) == BBlock(sb, b) && c % BPB == c - b;
    }
    assert BBlock(sb, b + bi) == BBlock(sb, b) && (b + bi) % BPB == bi;
  }

  lemma AllUsed(sb: Super, blk: Disk, b: nat, bi: nat)
    requires b % BPB == 0 && bi <= BPB && (bi == BPB || b + bi >= sb.size)
    requires forall j :: 0 <= j < bi ==> Bit(At(blk, BBlock(sb, b)), j)
    ensures forall c :: b <= c < b + BPB && c < sb.size ==> Used(sb, blk, c)
  {
    forall c | b <= c < b + BPB && c < sb.size ensures Used(sb, blk, c) {
      assert BBlock(sb, c) == BBlock(sb, b) && c % BPB == c - b;
    }
  }
}
