/** The file system's blocks: which inode slot refers to which block, and what a file's bytes are. */
module FsState {
  import opened Blocks
  import opened Bitmap

  const NDIRECT: nat := 12
  const NINDIRECT: nat := BSIZE / 4
  const MAXFILE: nat := NDIRECT + NINDIRECT
  const IPB: nat := 16

  /** The superblock; nmeta is the number of blocks before the first data block. */
  datatype Super = Super(size: nat, ninodes: nat, inodestart: nat, bmapstart: nat, nmeta: nat)

  function IBlock(sb: Super, i: nat): nat {
    i / IPB + sb.inodestart
  }

  function BBlock(sb: Super, b: nat): nat {
    b / BPB + sb.bmapstart
  }

  /** Inode blocks, then bitmap blocks, then data blocks. */
  ghost predicate Layout(sb: Super) {
    && 0 < sb.nmeta <= sb.size < U32MAX
    && (forall i :: 0 <= i < sb.ninodes ==> IBlock(sb, i) < sb.bmapstart)
    && (forall b :: 0 <= b < sb.size ==> BBlock(sb, b) < sb.nmeta)
  }

  datatype Inode = Inode(typ: nat, major: nat, minor: nat, nlink: nat, size: nat, addrs: seq<nat>)

  /** A block as bread shows it. */
  function At(blk: Disk, b: nat): Block {
    if b in blk then blk[b] else ZeroBlock()
  }

  /** Is block b marked in use? */
  predicate Used(sb: Super, blk: Disk, b: nat) {
    Bit(At(blk, BBlock(sb, b)), b % BPB)
  }

  // -------------------------------------------------------------- block slots

  function Addr(ip: Inode, d: nat): nat {
    if d < |ip.addrs| then ip.addrs[d] else 0
  }

  /** The block that holds bytes bn * BSIZE on of the file, or 0: what bmap finds without allocating. */
  function FileBlock(blk: Disk, ip: Inode, bn: nat): nat {
    if bn < NDIRECT then Addr(ip, bn)
    else if bn < MAXFILE && Addr(ip, NDIRECT) != 0 then Word(At(blk, Addr(ip, NDIRECT)), bn - NDIRECT)
    else 0
  }

  /** A place where a block number is stored: file block bn of inode i, or its indirect pointer when bn is MAXFILE. */
  datatype Slot = Slot(i: nat, bn: nat)

  predicate IsSlot(ino: seq<Inode>, s: Slot) {
    s.i < |ino| && s.bn <= MAXFILE
  }

  function SlotVal(blk: Disk, ino: seq<Inode>, s: Slot): nat
    requires IsSlot(ino, s)
  {
    if s.bn == MAXFILE then Addr(ino[s.i], NDIRECT) else FileBlock(blk, ino[s.i], s.bn)
  }

  /** Who owns each block in use. Slots in dead are about to be cleared and do not count; blocks in pending are
      marked in use and about to be stored in a slot. */
  datatype Own = Own(owner: map<nat, Slot>, dead: set<Slot>, pending: set<nat>)

  /** Every owned block is stored in its owner's slot. */
  ghost predicate OwnersPoint(sb: Super, blk: Disk, ino: seq<Inode>, o: Own) {
    forall b :: b in o.owner ==>
      sb.nmeta <= b < sb.size && IsSlot(ino, o.owner[b]) && o.owner[b] !in o.dead && SlotVal(blk, ino, o.owner[b]) == b
  }

  /** Every block stored in a slot is owned by that slot. */
  ghost predicate SlotsOwned(blk: Disk, ino: seq<Inode>, o: Own) {
    forall s :: IsSlot(ino, s) && s !in o.dead && SlotVal(blk, ino, s) != 0 ==>
      SlotVal(blk, ino, s) in o.owner && o.owner[SlotVal(blk, ino, s)] == s
  }

  /** A bitmap bit is set exactly for metadata, owned and pending blocks. */
  ghost predicate BitsOwned(sb: Super, blk: Disk, o: Own) {
    forall b :: 0 <= b < sb.size ==> (Used(sb, blk, b) <==> b < sb.nmeta || b in o.owner || b in o.pending)
  }

  ghost predicate Shaped(sb: Super, blk: Disk, ino: seq<Inode>, o: Own) {
    && Layout(sb) && |ino| == sb.ninodes
    && (forall b :: 0 <= b < sb.size ==> b in blk)
    && (forall i :: 0 <= i < |ino| ==> |ino[i].addrs| == NDIRECT + 1)
    && (forall b :: b in o.pending ==> sb.nmeta <= b < sb.size && b !in o.owner)
  }

  /** Block conservation. */
  ghost predicate Owned(sb: Super, blk: Disk, ino: seq<Inode>, o: Own) {
    Shaped(sb, blk, ino, o) && OwnersPoint(sb, blk, ino, o) && SlotsOwned(blk, ino, o) && BitsOwned(sb, blk, o)
  }

  /** At rest no slot is dead and no block is pending: then no two slots, of one file or of two, share a block. */
  lemma NoSharing(sb: Super, blk: Disk, ino: seq<Inode>, o: Own, s: Slot, t: Slot)
    requires Owned(sb, blk, ino, o) && o.dead == {} && IsSlot(ino, s) && IsSlot(ino, t)
    requires SlotVal(blk, ino, s) == SlotVal(blk, ino, t) != 0
    ensures s == t
  {
  }

  // --------------------------------------------- changes that move no block

  /** Changing a block that is nobody's indirect block changes no slot. */
  lemma SlotsSame(blk: Disk, ino: seq<Inode>, k: nat, x: Block, s: Slot)
    requires IsSlot(ino, s) && Addr(ino[s.i], NDIRECT) != k
    ensures SlotVal(blk[k := x], ino, s) == SlotVal(blk, ino, s)
  {
  }

  /** A live indirect block is owned, so it is neither metadata nor pending nor free. */
  lemma IndirectOwned(sb: Super, blk: Disk, ino: seq<Inode>, o: Own, i: nat)
    requires SlotsOwned(blk, ino, o) && i < |ino| && Slot(i, MAXFILE) !in o.dead && Addr(ino[i], NDIRECT) != 0
    ensures Addr(ino[i], NDIRECT) in o.owner && o.owner[Addr(ino[i], NDIRECT)] == Slot(i, MAXFILE)
  {
    assert SlotVal(blk, ino, Slot(i, MAXFILE)) == Addr(ino[i], NDIRECT);
  }

  ghost predicate NoIndirectDead(ino: seq<Inode>, o: Own) {
    forall i :: 0 <= i < |ino| ==> Slot(i, MAXFILE) !in o.dead
  }

  /** The slots are stored as before, whatever else changed. */
  ghost predicate SameSlots(blk: Disk, ino: seq<Inode>, blk': Disk, ino': seq<Inode>) {
    |ino'| == |ino| && forall s :: IsSlot(ino, s) ==> SlotVal(blk', ino', s) == SlotVal(blk, ino, s)
  }

  lemma UnownedWrite(sb: Super, blk: Disk, ino: seq<Inode>, o: Own, k: nat, x: Block)
    requires Owned(sb, blk, ino, o) && NoIndirectDead(ino, o) && k !in o.owner && k < sb.size
    ensures SameSlots(blk, ino, blk[k := x], ino)
  {
    forall s | IsSlot(ino, s) ensures SlotVal(blk[k := x], ino, s) == SlotVal(blk, ino, s) {
      if Addr(ino[s.i], NDIRECT) != 0 {
        IndirectOwned(sb, blk, ino, o, s.i);
        SlotsSame(blk, ino, k, x, s);
      }
    }
  }

  /** The bitmap after block b's bit is set or cleared. */
  function Marked(sb: Super, blk: Disk, b: nat, on: bool): Disk {
    blk[BBlock(sb, b) := PutBit(At(blk, BBlock(sb, b)), b % BPB, on)]
  }

  lemma MarkedUsed(sb: Super, blk: Disk, b: nat, on: bool, c: nat)
    ensures Used(sb, Marked(sb, blk, b, on), c) <==> if c == b then on else Used(sb, blk, c)
  {
    assert c / BPB == b / BPB && c % BPB == b % BPB ==> c == b;
  }

  /** Ownership speaks of the slots only. */
  lemma SlotsStillOwned(sb: Super, blk: Disk, ino: seq<Inode>, o: Own, blk': Disk)
    requires OwnersPoint(sb, blk, ino, o) && SlotsOwned(blk, ino, o) && SameSlots(blk, ino, blk', ino)
    ensures OwnersPoint(sb, blk', ino, o) && SlotsOwned(blk', ino, o)
  {
    hide SlotVal;
    forall b | b in o.owner ensures SlotVal(blk', ino, o.owner[b]) == SlotVal(blk, ino, o.owner[b]) {}
    forall s | IsSlot(ino, s) ensures SlotVal(blk', ino, s) == SlotVal(blk, ino, s) {}
  }

  lemma BitsMarked(sb: Super, blk: Disk, o: Own, b: nat, on: bool, o': Own)
    requires BitsOwned(sb, blk, o) && sb.nmeta <= b < sb.size
    requires forall c :: c != b ==> ((c in o'.owner || c in o'.pending) <==> (c in o.owner || c in o.pending))
    requires on <==> b in o'.owner || b in o'.pending
    ensures BitsOwned(sb, Marked(sb, blk, b, on), o')
  {
    hide Used, Marked;
    forall c | 0 <= c < sb.size
      ensures Used(sb, Marked(sb, blk, b, on), c) <==> c < sb.nmeta || c in o'.owner || c in o'.pending
    {
      MarkedUsed(sb, blk, b, on, c);
    }
  }

  /** Marking a free block in use makes it pending. */
  lemma MarkPending(sb: Super, blk: Disk, ino: seq<Inode>, o: Own, b: nat)
    requires Owned(sb, blk, ino, o) && NoIndirectDead(ino, o) && b < sb.size && !Used(sb, blk, b)
    ensures Owned(sb, Marked(sb, blk, b, true), ino, o.(pending := o.pending + {b}))
    ensures SameSlots(blk, ino, Marked(sb, blk, b, true), ino)
  {
    hide Used, SlotVal, Marked;
    MarkedSlots(sb, blk, ino, o, b, true);
    var blk', o' := Marked(sb, blk, b, true), o.(pending := o.pending + {b});
    SlotsStillOwned(sb, blk, ino, o, blk');
    MarkedKeys(sb, blk, b, true);
    assert sb.nmeta <= b && b !in o.owner;
    BitsMarked(sb, blk, o, b, true, o');
    assert Shaped(sb, blk', ino, o');
  }

  /** The bitmap holds no block numbers. */
  lemma MarkedSlots(sb: Super, blk: Disk, ino: seq<Inode>, o: Own, b: nat, on: bool)
    requires Owned(sb, blk, ino, o) && NoIndirectDead(ino, o) && b < sb.size
    ensures SameSlots(blk, ino, Marked(sb, blk, b, on), ino)
  {
    hide SlotVal, SlotsOwned, BitsOwned;
    assert BBlock(sb, b) < sb.nmeta;
    UnownedWrite(sb, blk, ino, o, BBlock(sb, b), PutBit(At(blk, BBlock(sb, b)), b % BPB, on));
  }

  lemma MarkedKeys(sb: Super, blk: Disk, b: nat, on: bool)
    ensures forall k :: k in Marked(sb, blk, b, on) <==> k in blk || k == BBlock(sb, b)
    ensures forall k :: k in blk && k != BBlock(sb, b) ==> Marked(sb, blk, b, on)[k] == blk[k]
  {
  }

  /** Rewriting a data block that no slot reads block numbers from keeps everything owned as it was. */
  lemma DataWrite(sb: Super, blk: Disk, ino: seq<Inode>, o: Own, k: nat, x: Block)
    requires Owned(sb, blk, ino, o) && NoIndirectDead(ino, o) && sb.nmeta <= k < sb.size
    requires k in o.owner ==> o.owner[k].bn != MAXFILE
    ensures Owned(sb, blk[k := x], ino, o) && SameSlots(blk, ino, blk[k := x], ino)
  {
    hide SlotVal, Used;
    DataSlots(sb, blk, ino, o, k, x);
    var blk' := blk[k := x];
    SlotsStillOwned(sb, blk, ino, o, blk');
    forall b | 0 <= b < sb.size ensures Used(sb, blk', b) <==> b < sb.nmeta || b in o.owner || b in o.pending {
      UsedElsewhere(sb, blk, b, k, x);
      assert Used(sb, blk, b) <==> b < sb.nmeta || b in o.owner || b in o.pending;
    }
    assert Shaped(sb, blk', ino, o) && BitsOwned(sb, blk', o);
  }

  lemma DataSlots(sb: Super, blk: Disk, ino: seq<Inode>, o: Own, k: nat, x: Block)
    requires Owned(sb, blk, ino, o) && NoIndirectDead(ino, o) && sb.nmeta <= k < sb.size
    requires k in o.owner ==> o.owner[k].bn != MAXFILE
    ensures SameSlots(blk, ino, blk[k := x], ino)
  {
    hide Used;
    forall s | IsSlot(ino, s) ensures SlotVal(blk[k := x], ino, s) == SlotVal(blk, ino, s) {
      if Addr(ino[s.i], NDIRECT) != 0 {
        IndirectOwned(sb, blk, ino, o, s.i);
        SlotsSame(blk, ino, k, x, s);
      }
    }
  }

  lemma UsedElsewhere(sb: Super, blk: Disk, b: nat, k: nat, x: Block)
    requires Layout(sb) && b < sb.size && sb.nmeta <= k
    ensures Used(sb, blk[k := x], b) == Used(sb, blk, b)
  {
    assert BBlock(sb, b) != k;
  }

  /** The slots after one of them, empty before, got block b; the rest are as before. */
  ghost predicate Linked(blk: Disk, ino: seq<Inode>, blk': Disk, ino': seq<Inode>, s: Slot, b: nat) {
    && |ino'| == |ino| && IsSlot(ino, s)
    && (forall t :: IsSlot(ino, t) ==> SlotVal(blk', ino', t) == if t == s then b else SlotVal(blk, ino, t))
  }

  /** Storing a pending block in an empty slot makes that slot its owner. */
  lemma LinkSlot(sb: Super, blk: Disk, ino: seq<Inode>, o: Own, blk': Disk, ino': seq<Inode>, s: Slot, b: nat)
    requires Owned(sb, blk, ino, o) && b in o.pending && IsSlot(ino, s) && SlotVal(blk, ino, s) == 0 && s !in o.dead
    requires Linked(blk, ino, blk', ino', s, b)
    requires blk'.Keys == blk.Keys && forall c :: 0 <= c < sb.size ==> Used(sb, blk', c) == Used(sb, blk, c)
    requires forall i :: 0 <= i < |ino'| ==> |ino'[i].addrs| == NDIRECT + 1
    ensures Owned(sb, blk', ino', o.(owner := o.owner[b := s], pending := o.pending - {b}))
  {
    hide SlotVal, Used;
    forall t | IsSlot(ino, t) ensures SlotVal(blk', ino', t) == if t == s then b else SlotVal(blk, ino, t) {}
  }

  /** The slots after one of them was cleared. */
  lemma UnlinkSlot(sb: Super, blk: Disk, ino: seq<Inode>, o: Own, blk': Disk, ino': seq<Inode>, s: Slot)
    requires Owned(sb, blk, ino, o) && s in o.dead && Linked(blk, ino, blk', ino', s, 0)
    requires blk'.Keys == blk.Keys && forall c :: 0 <= c < sb.size ==> Used(sb, blk', c) == Used(sb, blk, c)
    requires forall i :: 0 <= i < |ino'| ==> |ino'[i].addrs| == NDIRECT + 1
    ensures Owned(sb, blk', ino', o.(dead := o.dead - {s}))
  {
    hide SlotVal, Used;
    forall t | IsSlot(ino, t) ensures SlotVal(blk', ino', t) == if t == s then 0 else SlotVal(blk, ino, t) {}
  }

  /** Freeing an owned block makes its slot dead. */
  lemma FreeOwned(sb: Super, blk: Disk, ino: seq<Inode>, o: Own, b: nat)
    requires Owned(sb, blk, ino, o) && NoIndirectDead(ino, o) && b in o.owner
    ensures Used(sb, blk, b)
    ensures Owned(sb, Marked(sb, blk, b, false), ino, o.(owner := o.owner - {b}, dead := o.dead + {o.owner[b]}))
    ensures SameSlots(blk, ino, Marked(sb, blk, b, false), ino)
  {
    hide Used, SlotVal, Marked;
    var blk', o' := Marked(sb, blk, b, false), o.(owner := o.owner - {b}, dead := o.dead + {o.owner[b]});
    assert sb.nmeta <= b < sb.size && b !in o.pending;
    MarkedSlots(sb, blk, ino, o, b, false);
    SlotsStillOwned(sb, blk, ino, o, blk');
    MarkedKeys(sb, blk, b, false);
    BitsMarked(sb, blk, o, b, false, o');
    assert Shaped(sb, blk', ino, o');
  }

  // ----------------------------------------------------------- storing slots

  lemma LinkDirect(blk: Disk, ino: seq<Inode>, i: nat, d: nat, b: nat)
    requires i < |ino| && |ino[i].addrs| == NDIRECT + 1 && d < NDIRECT
    ensures Linked(blk, ino, blk, ino[i := ino[i].(addrs := ino[i].addrs[d := b])], Slot(i, d), b)
  {
  }

  /** A zeroed block stored as the indirect pointer brings no further slots. */
  lemma LinkIndirect(blk: Disk, ino: seq<Inode>, i: nat, b: nat)
    requires i < |ino| && |ino[i].addrs| == NDIRECT + 1 && Addr(ino[i], NDIRECT) == 0 && At(blk, b) == ZeroBlock()
    ensures Linked(blk, ino, blk, ino[i := ino[i].(addrs := ino[i].addrs[NDIRECT := b])], Slot(i, MAXFILE), b)
  {
    var ino' := ino[i := ino[i].(addrs := ino[i].addrs[NDIRECT := b])];
    forall t | IsSlot(ino, t)
      ensures SlotVal(blk, ino', t) == if t == Slot(i, MAXFILE) then b else SlotVal(blk, ino, t)
    {
      if t.i == i && NDIRECT <= t.bn < MAXFILE {
        ZeroWord(t.bn - NDIRECT);
      }
    }
  }

  /** Storing an entry in inode i's indirect block, which is nobody else's. */
  lemma LinkEntry(sb: Super, blk: Disk, ino: seq<Inode>, o: Own, i: nat, j: nat, b: nat)
    requires SlotsOwned(blk, ino, o) && NoIndirectDead(ino, o) && i < |ino| && j < NINDIRECT && b < U32MAX
    requires Addr(ino[i], NDIRECT) != 0
    ensures var ind := Addr(ino[i], NDIRECT);
            Linked(blk, ino, blk[ind := PutWord(At(blk, ind), j, b)], ino, Slot(i, NDIRECT + j), b)
  {
    var ind := Addr(ino[i], NDIRECT);
    var blk' := blk[ind := PutWord(At(blk, ind), j, b)];
    IndirectOwned(sb, blk, ino, o, i);
    hide PutWord, Word;
    forall t | IsSlot(ino, t)
      ensures SlotVal(blk', ino, t) == if t == Slot(i, NDIRECT + j) then b else SlotVal(blk, ino, t)
    {
      if Addr(ino[t.i], NDIRECT) == ind {
        IndirectOwned(sb, blk, ino, o, t.i);
        if NDIRECT <= t.bn < MAXFILE {
          PutWordReadsBack(At(blk, ind), j, b, t.bn - NDIRECT);
        }
      } else {
        SlotsSame(blk, ino, ind, blk'[ind], t);
      }
    }
  }

  // ------------------------------------------------------------------ growth

  /** Inode i may have got more blocks; nothing that was there before was moved or overwritten, except that
      i's own indirect block may have new entries. */
  ghost predicate Grown(blk: Disk, ino: seq<Inode>, o: Own, blk': Disk, ino': seq<Inode>, o': Own, i: nat) {
    && |ino'| == |ino| && i < |ino|
    && (forall j :: 0 <= j < |ino| && j != i ==> ino'[j] == ino[j])
    && ino'[i] == ino[i].(addrs := ino'[i].addrs)
    && (forall b :: b in o.owner ==> b in o'.owner && o'.owner[b] == o.owner[b])
    && (forall b :: b in o'.owner && b !in o.owner ==> o'.owner[b].i == i)
    && (forall b :: b in o.owner && o.owner[b] != Slot(i, MAXFILE) ==> At(blk', b) == At(blk, b))
    && (forall s :: IsSlot(ino, s) && SlotVal(blk, ino, s) != 0 ==> SlotVal(blk', ino', s) == SlotVal(blk, ino, s))
  }

  lemma GrownRefl(blk: Disk, ino: seq<Inode>, o: Own, i: nat)
    requires i < |ino|
    ensures Grown(blk, ino, o, blk, ino, o, i)
  {
  }

  lemma GrownTrans(blk: Disk, ino: seq<Inode>, o: Own, blk1: Disk, ino1: seq<Inode>, o1: Own, blk2: Disk,
                   ino2: seq<Inode>, o2: Own, i: nat)
    requires Grown(blk, ino, o, blk1, ino1, o1, i) && Grown(blk1, ino1, o1, blk2, ino2, o2, i)
    ensures Grown(blk, ino, o, blk2, ino2, o2, i)
  {
    hide SlotVal;
    forall s | IsSlot(ino, s) && SlotVal(blk, ino, s) != 0 ensures SlotVal(blk2, ino2, s) == SlotVal(blk, ino, s) {
      assert SlotVal(blk1, ino1, s) == SlotVal(blk, ino, s);
    }
  }

  /** Taking a free block grows nothing yet. */
  lemma TakenGrown(sb: Super, blk: Disk, ino: seq<Inode>, o: Own, r: nat, i: nat)
    requires Owned(sb, blk, ino, o) && r < sb.size && !Used(sb, blk, r) && i < |ino|
    requires SameSlots(blk, ino, Marked(sb, blk, r, true)[r := ZeroBlock()], ino)
    ensures sb.nmeta <= r && r !in o.owner
    ensures Grown(blk, ino, o, Marked(sb, blk, r, true)[r := ZeroBlock()], ino, o.(pending := o.pending + {r}), i)
    ensures At(Marked(sb, blk, r, true)[r := ZeroBlock()], r) == ZeroBlock()
  {
    var blk' := Marked(sb, blk, r, true)[r := ZeroBlock()];
    forall b | b in o.owner ensures At(blk', b) == At(blk, b) {
      assert b != r && b != BBlock(sb, r);
      assert b in blk;
    }
  }

  /** Storing a block in an empty slot of inode i is growth, when only the indirect block's contents change. */
  lemma LinkedGrown(blk: Disk, ino: seq<Inode>, o: Own, blk': Disk, ino': seq<Inode>, s: Slot, b: nat)
    requires Linked(blk, ino, blk', ino', s, b) && SlotVal(blk, ino, s) == 0 && b !in o.owner
    requires forall j :: 0 <= j < |ino| && j != s.i ==> ino'[j] == ino[j]
    requires ino'[s.i] == ino[s.i].(addrs := ino'[s.i].addrs)
    requires forall c :: c in o.owner && o.owner[c] != Slot(s.i, MAXFILE) ==> At(blk', c) == At(blk, c)
    ensures Grown(blk, ino, o, blk', ino', o.(owner := o.owner[b := s], pending := o.pending - {b}), s.i)
  {
  }

  // -------------------------------------------------------------- truncation

  /** Clearing all dead slots at once. */
  lemma UnlinkDead(sb: Super, blk: Disk, ino: seq<Inode>, o: Own, ino': seq<Inode>)
    requires Owned(sb, blk, ino, o) && |ino'| == |ino|
    requires forall t :: IsSlot(ino, t) ==> SlotVal(blk, ino', t) == if t in o.dead then 0 else SlotVal(blk, ino, t)
    requires forall i :: 0 <= i < |ino'| ==> |ino'[i].addrs| == NDIRECT + 1
    ensures Owned(sb, blk, ino', o.(dead := {}))
  {
    hide SlotVal, Used;
    forall t | IsSlot(ino, t) ensures SlotVal(blk, ino', t) == if t in o.dead then 0 else SlotVal(blk, ino, t) {}
  }

  /** Clearing the indirect pointer empties the slots in the indirect block too. */
  lemma PointerCleared(blk: Disk, ino: seq<Inode>, dead: set<Slot>, i: nat)
    requires i < |ino| && |ino[i].addrs| == NDIRECT + 1 && Slot(i, MAXFILE) in dead
    requires forall s :: s in dead ==> s.i == i && NDIRECT <= s.bn <= MAXFILE
    requires forall bn :: NDIRECT <= bn < MAXFILE && SlotVal(blk, ino, Slot(i, bn)) != 0 ==> Slot(i, bn) in dead
    ensures var ino' := ino[i := ino[i].(addrs := ino[i].addrs[NDIRECT := 0])];
            forall t :: IsSlot(ino, t) ==> SlotVal(blk, ino', t) == if t in dead then 0 else SlotVal(blk, ino, t)
  {
    var ino' := ino[i := ino[i].(addrs := ino[i].addrs[NDIRECT := 0])];
    forall t | IsSlot(ino, t) ensures SlotVal(blk, ino', t) == if t in dead then 0 else SlotVal(blk, ino, t) {
      if t.i == i && NDIRECT <= t.bn < MAXFILE && t !in dead {
        assert t == Slot(i, t.bn);
      }
    }
  }
}
