/** Room on the disk: how many free blocks an operation on a file needs, and that each block it takes fills one slot. */
module FsSpace {
  import opened Blocks
  import opened Sets
  import opened Bitmap
  import opened FsState

  ghost function FreeBlocks(sb: Super, blk: Disk): set<nat> {
    set b | 0 <= b < sb.size && !Used(sb, blk, b)
  }

  /** What slot s of an inode holds: file block s, or the indirect pointer when s is MAXFILE. */
  function SlotOf(blk: Disk, ip: Inode, s: nat): nat {
    if s == MAXFILE then Addr(ip, NDIRECT) else FileBlock(blk, ip, s)
  }

  /** The slots of an inode that hold no block. */
  ghost function Empty(blk: Disk, ip: Inode): set<nat> {
    set s | 0 <= s <= MAXFILE && SlotOf(blk, ip, s) == 0
  }

  predicate Touches(lo: nat, hi: nat, s: nat) {
    lo <= s < hi || (s == MAXFILE && lo < hi && NDIRECT < hi)
  }

  /** The slots bmap goes through for file blocks [lo, hi). */
  ghost function Touched(lo: nat, hi: nat): set<nat> {
    set s | 0 <= s <= MAXFILE && Touches(lo, hi, s)
  }

  /** There are free blocks for all the empty slots that mapping file blocks [lo, hi) goes through. */
  ghost predicate Room(sb: Super, blk: Disk, ip: Inode, lo: nat, hi: nat) {
    |Empty(blk, ip) * Touched(lo, hi)| <= |FreeBlocks(sb, blk)|
  }

  /** File blocks [lo, hi) have been mapped: exactly the slots on the way are no longer empty, and every block taken
      from the bitmap fills one of them. */
  ghost predicate Paid(sb: Super, blk: Disk, ip: Inode, blk': Disk, ip': Inode, lo: nat, hi: nat) {
    && Empty(blk', ip') == Empty(blk, ip) - Touched(lo, hi)
    && |FreeBlocks(sb, blk')| + |Empty(blk, ip)| == |FreeBlocks(sb, blk)| + |Empty(blk', ip')|
  }

  lemma Split(x: set<nat>, y: set<nat>)
    ensures |x| == |x - y| + |x * y|
  {
    assert x == (x - y) + (x * y);
  }

  lemma PaidNone(sb: Super, blk: Disk, ip: Inode, lo: nat)
    ensures Paid(sb, blk, ip, blk, ip, lo, lo) && Room(sb, blk, ip, lo, lo)
  {
    assert Touched(lo, lo) == {};
    assert Empty(blk, ip) * Touched(lo, lo) == {};
  }

  /** What was paid was there. */
  lemma PaidRoom(sb: Super, blk: Disk, ip: Inode, blk': Disk, ip': Inode, lo: nat, hi: nat)
    requires Paid(sb, blk, ip, blk', ip', lo, hi)
    ensures Room(sb, blk, ip, lo, hi)
  {
    Split(Empty(blk, ip), Touched(lo, hi));
  }

  lemma TouchedJoin(lo: nat, b: nat, m: nat, hi: nat)
    requires lo <= b <= m <= hi
    ensures Touched(lo, m) + Touched(b, hi) == Touched(lo, hi)
  {
  }

  lemma TouchedLess(lo: nat, b: nat, c: nat, hi: nat)
    requires lo <= b && c <= hi
    ensures Touched(b, c) <= Touched(lo, hi)
  {
  }

  /** Mapping one stretch and then one that starts in it or right after it. */
  lemma PaidThen(sb: Super, blk: Disk, ip: Inode, blk1: Disk, ip1: Inode, blk2: Disk, ip2: Inode, lo: nat, m: nat,
                 b: nat, hi: nat)
    requires Paid(sb, blk, ip, blk1, ip1, lo, m) && Paid(sb, blk1, ip1, blk2, ip2, b, hi) && lo <= b <= m <= hi
    ensures Paid(sb, blk, ip, blk2, ip2, lo, hi)
  {
    hide FreeBlocks, Empty, Touched;
    TouchedJoin(lo, b, m, hi);
    assert Empty(blk, ip) - Touched(lo, m) - Touched(b, hi) == Empty(blk, ip) - (Touched(lo, m) + Touched(b, hi));
  }

  /** If there is no room for what comes next, there was none for the whole. */
  lemma PaidShort(sb: Super, blk: Disk, ip: Inode, blk1: Disk, ip1: Inode, lo: nat, m: nat, b: nat, c: nat, hi: nat)
    requires Paid(sb, blk, ip, blk1, ip1, lo, m) && !Room(sb, blk1, ip1, b, c) && lo <= b && m <= hi && c <= hi
    ensures !Room(sb, blk, ip, lo, hi)
  {
    hide FreeBlocks, Empty, Touched;
    TouchedLess(lo, lo, m, hi);
    TouchedLess(lo, b, c, hi);
    var e, e1 := Empty(blk, ip), Empty(blk1, ip1);
    Split(e, Touched(lo, m));
    SubsetSize(e * Touched(lo, m) + e1 * Touched(b, c), e * Touched(lo, hi));
    assert (e * Touched(lo, m)) * (e1 * Touched(b, c)) == {};
  }

  /** The free blocks are those nobody owns. */
  lemma FreeUnowned(sb: Super, blk: Disk, ino: seq<Inode>, o: Own, b: nat)
    requires Owned(sb, blk, ino, o)
    ensures b in FreeBlocks(sb, blk) <==> sb.nmeta <= b < sb.size && b !in o.owner && b !in o.pending
  {
    hide Used, OwnersPoint, SlotsOwned;
  }

  lemma FreeSame(sb: Super, blk: Disk, ino: seq<Inode>, o: Own, blk': Disk, ino': seq<Inode>)
    requires Owned(sb, blk, ino, o) && Owned(sb, blk', ino', o)
    ensures FreeBlocks(sb, blk') == FreeBlocks(sb, blk)
  {
    hide Owned, FreeBlocks;
    forall b: nat ensures b in FreeBlocks(sb, blk') <==> b in FreeBlocks(sb, blk) {
      FreeUnowned(sb, blk, ino, o, b);
      FreeUnowned(sb, blk', ino', o, b);
    }
  }

  /** Block r went from the bitmap to slot s. */
  lemma FreeTaken(sb: Super, blk: Disk, ino: seq<Inode>, o: Own, blk': Disk, ino': seq<Inode>, o': Own, r: nat)
    requires Owned(sb, blk, ino, o) && Owned(sb, blk', ino', o') && r !in o.owner && r !in o.pending && r in o'.owner
    requires forall b :: b != r ==> (b in o'.owner <==> b in o.owner)
    requires o'.pending == o.pending && sb.nmeta <= r < sb.size
    ensures FreeBlocks(sb, blk') == FreeBlocks(sb, blk) - {r} && r in FreeBlocks(sb, blk)
    ensures |FreeBlocks(sb, blk')| == |FreeBlocks(sb, blk)| - 1
  {
    hide Owned, FreeBlocks;
    FreeUnowned(sb, blk, ino, o, r);
    forall b: nat ensures b in FreeBlocks(sb, blk') <==> b in FreeBlocks(sb, blk) - {r} {
      FreeUnowned(sb, blk, ino, o, b);
      FreeUnowned(sb, blk', ino', o', b);
    }
  }

  lemma SomeFree(sb: Super, blk: Disk)
    ensures (exists c :: 0 <= c < sb.size && !Used(sb, blk, c)) <==> FreeBlocks(sb, blk) != {}
    ensures |FreeBlocks(sb, blk)| > 0 <==> FreeBlocks(sb, blk) != {}
  {
    hide Used;
    if c :| 0 <= c < sb.size && !Used(sb, blk, c) {
      assert c in FreeBlocks(sb, blk);
    }
  }

  /** Slots read alike, empty slots alike. */
  lemma EmptySame(blk: Disk, ino: seq<Inode>, blk': Disk, ino': seq<Inode>, i: nat)
    requires SameSlots(blk, ino, blk', ino') && i < |ino|
    ensures Empty(blk', ino'[i]) == Empty(blk, ino[i])
  {
    hide FileBlock;
    forall s | 0 <= s <= MAXFILE ensures SlotOf(blk', ino'[i], s) == SlotOf(blk, ino[i], s) {
      assert SlotVal(blk', ino', Slot(i, s)) == SlotVal(blk, ino, Slot(i, s));
    }
  }

  lemma EmptyAddrs(blk: Disk, ip: Inode, ip': Inode)
    requires ip'.addrs == ip.addrs
    ensures Empty(blk, ip') == Empty(blk, ip)
  {
    forall s | 0 <= s <= MAXFILE ensures SlotOf(blk, ip', s) == SlotOf(blk, ip, s) {}
  }

  /** A slot got a block: it is no longer empty, the others are as before. */
  lemma EmptyLess(blk: Disk, ino: seq<Inode>, blk': Disk, ino': seq<Inode>, i: nat, s: nat, r: nat)
    requires i < |ino| && s <= MAXFILE && r != 0 && Linked(blk, ino, blk', ino', Slot(i, s), r)
    requires SlotVal(blk, ino, Slot(i, s)) == 0
    ensures Empty(blk', ino'[i]) == Empty(blk, ino[i]) - {s} && s in Empty(blk, ino[i])
    ensures |Empty(blk', ino'[i])| == |Empty(blk, ino[i])| - 1
  {
    hide FileBlock;
    forall t | 0 <= t <= MAXFILE ensures SlotOf(blk', ino'[i], t) == if t == s then r else SlotOf(blk, ino[i], t) {
      assert SlotVal(blk', ino', Slot(i, t)) == if t == s then r else SlotVal(blk, ino, Slot(i, t));
      assert SlotVal(blk, ino, Slot(i, t)) == SlotOf(blk, ino[i], t);
    }
    assert SlotOf(blk, ino[i], s) == 0;
  }

  // ----------------------------------------------------------- one file block

  lemma OneTouched(bn: nat)
    requires bn < MAXFILE
    ensures Touched(bn, bn + 1) == {bn} + if bn < NDIRECT then {} else {MAXFILE}
  {
  }

  /** A mapped block needs none. */
  lemma PaidMapped(sb: Super, blk: Disk, ip: Inode, bn: nat)
    requires bn < MAXFILE && FileBlock(blk, ip, bn) != 0
    ensures Paid(sb, blk, ip, blk, ip, bn, bn + 1) && Room(sb, blk, ip, bn, bn + 1)
  {
    OneTouched(bn);
    assert SlotOf(blk, ip, bn) != 0 && (bn >= NDIRECT ==> SlotOf(blk, ip, MAXFILE) != 0);
    assert Empty(blk, ip) * Touched(bn, bn + 1) == {};
  }

  /** An unmapped one needs one if its slot is in the inode or the indirect block is there, */
  lemma NeedsOne(sb: Super, blk: Disk, ip: Inode, bn: nat)
    requires bn < MAXFILE && FileBlock(blk, ip, bn) == 0 && (bn < NDIRECT || Addr(ip, NDIRECT) != 0)
    ensures Room(sb, blk, ip, bn, bn + 1) <==> |FreeBlocks(sb, blk)| >= 1
  {
    OneTouched(bn);
    assert SlotOf(blk, ip, bn) == 0 && (bn >= NDIRECT ==> SlotOf(blk, ip, MAXFILE) != 0);
    assert Empty(blk, ip) * Touched(bn, bn + 1) == {bn};
  }

  /** and two if the indirect block is missing. */
  lemma NeedsTwo(sb: Super, blk: Disk, ip: Inode, bn: nat)
    requires NDIRECT <= bn < MAXFILE && Addr(ip, NDIRECT) == 0
    ensures Room(sb, blk, ip, bn, bn + 1) <==> |FreeBlocks(sb, blk)| >= 2
  {
    OneTouched(bn);
    assert SlotOf(blk, ip, bn) == 0 && SlotOf(blk, ip, MAXFILE) == 0;
    assert Empty(blk, ip) * Touched(bn, bn + 1) == {bn, MAXFILE};
  }

  lemma PaidOne(sb: Super, blk: Disk, ip: Inode, blk': Disk, ip': Inode, bn: nat)
    requires bn < MAXFILE && (bn < NDIRECT || Addr(ip, NDIRECT) != 0)
    requires Empty(blk', ip') == Empty(blk, ip) - {bn} && |Empty(blk', ip')| == |Empty(blk, ip)| - 1
    requires |FreeBlocks(sb, blk')| == |FreeBlocks(sb, blk)| - 1
    ensures Paid(sb, blk, ip, blk', ip', bn, bn + 1)
  {
    OneTouched(bn);
    assert bn >= NDIRECT ==> SlotOf(blk, ip, MAXFILE) != 0;
    assert Empty(blk, ip) - Touched(bn, bn + 1) == Empty(blk, ip) - {bn};
  }

  lemma PaidTwo(sb: Super, blk: Disk, ip: Inode, blk1: Disk, ip1: Inode, blk2: Disk, ip2: Inode, bn: nat)
    requires NDIRECT <= bn < MAXFILE && Paid(sb, blk1, ip1, blk2, ip2, bn, bn + 1)
    requires Empty(blk1, ip1) == Empty(blk, ip) - {MAXFILE} && |Empty(blk1, ip1)| == |Empty(blk, ip)| - 1
    requires |FreeBlocks(sb, blk1)| == |FreeBlocks(sb, blk)| - 1
    ensures Paid(sb, blk, ip, blk2, ip2, bn, bn + 1)
  {
    hide Empty, FreeBlocks;
    OneTouched(bn);
  }

  /** The first file block that a write of n bytes at off does not reach when only mapped bytes can be read: the loop
      stops in the block of the first unreadable byte. */
  function Reach(off: nat, n: nat, mapped: nat): nat {
    if n == 0 then off / BSIZE else (off + if mapped < n then mapped else n - 1) / BSIZE + 1
  }

  /** How far the blocks mapped after tot bytes go. */
  function Top(off: nat, tot: nat): nat {
    if tot == 0 then off / BSIZE else (off + tot - 1) / BSIZE + 1
  }

  /** The chunk after tot bytes lies in the block at Top, which the loop is to reach. */
  lemma ReachStep(off: nat, tot: nat, n: nat, mapped: nat, m: nat)
    requires tot < n && tot + m <= n && 1 <= m && (off + tot) % BSIZE + m <= BSIZE && (tot > 0 ==> tot <= mapped)
    requires (off + tot) % BSIZE == 0 || tot == 0
    ensures Top(off, tot) == (off + tot) / BSIZE && off / BSIZE <= Top(off, tot) &&
            Top(off, tot) + 1 <= Reach(off, n, mapped)
    ensures Top(off, tot + m) == Top(off, tot) + 1
    ensures tot + m > mapped ==> Reach(off, n, mapped) == Top(off, tot + m)
  {
    var cur := off + tot;
    assert cur == cur / BSIZE * BSIZE + cur % BSIZE;
    assert (cur + m - 1) / BSIZE == cur / BSIZE;
    if tot + m > mapped {
      assert cur <= off + mapped < cur + m;
      assert (off + mapped) / BSIZE == cur / BSIZE;
    }
  }

  lemma ReachEnd(off: nat, n: nat, mapped: nat)
    requires n > 0 ==> n <= mapped
    ensures Reach(off, n, mapped) == Top(off, n)
  {
  }

  /** A change that leaves owners and slots alone leaves the account alone. */
  lemma PaidSame(sb: Super, blk0: Disk, ip0: Inode, blk: Disk, ino: seq<Inode>, o: Own, blk': Disk, ino': seq<Inode>,
                 i: nat, lo: nat, hi: nat)
    requires i < |ino| && Paid(sb, blk0, ip0, blk, ino[i], lo, hi)
    requires Owned(sb, blk, ino, o) && Owned(sb, blk', ino', o) && SameSlots(blk, ino, blk', ino')
    ensures i < |ino'| && Paid(sb, blk0, ip0, blk', ino'[i], lo, hi)
  {
    hide Owned, Empty, FreeBlocks, SlotVal;
    FreeSame(sb, blk, ino, o, blk', ino');
    EmptySame(blk, ino, blk', ino', i);
  }
}
