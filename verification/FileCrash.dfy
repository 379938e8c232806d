/** A crash anywhere in filewrite: the file layer's transactions on top of the log's commit and recovery. */
module FileCrash {
  import opened Blocks
  import opened LogDisk
  import opened Bitmap
  import opened FsState
  import opened FsFiles
  import opened FsInodes
  import opened FsJournal
  import opened File

  /** The log lies before the inodes. */
  predicate Placed(sb: Super, p: Place) {
    p.start + p.size <= sb.inodestart <= sb.bmapstart
  }

  /** Between commits the log is empty and the home blocks on disk are those of b. */
  ghost predicate Clean(d: Disk, b: Disk, p: Place) {
    d.Keys == b.Keys && Home(d, p) == Home(b, p) && LogOk(d, p) && Listed(d[p.start]) == []
  }

  /** The log header lists the blocks of l, in some order, each once. */
  ghost predicate Lists(bs: seq<nat>, l: set<nat>) {
    (forall b :: b in bs <==> b in l) && (forall i, j :: 0 <= i < j < |bs| ==> bs[i] != bs[j])
  }

  lemma {:induction false} ListsSize(bs: seq<nat>, l: set<nat>)
    requires Lists(bs, l)
    ensures |bs| == |l|
  {
    if bs == [] {
      assert l == {};
    } else {
      var n := |bs| - 1;
      assert bs == bs[..n] + [bs[n]];
      ListsSize(bs[..n], l - {bs[n]});
    }
  }

  // --------------------------------------------------- a disk but for its log

  /** What the file system finds on a disk does not depend on the log blocks. */
  lemma LogUnread(sb: Super, p: Place, e: Disk, f: Disk, ino: seq<Inode>, o: Own)
    requires Placed(sb, p) && f.Keys == e.Keys && Home(f, p) == Home(e, p) && Consistent(sb, e, ino, o)
    ensures Consistent(sb, f, ino, o) && forall j :: 0 <= j < |ino| ==> Contents(f, ino[j]) == Contents(e, ino[j])
  {
    forall b: nat | sb.inodestart <= b ensures At(f, b) == At(e, b) {
      assert b in e ==> Home(f, p)[b] == Home(e, p)[b];
    }
    hide Home, Bit, Decode, FileBlock, NoHoles, Contents, InodeFits;
    assert sb.bmapstart <= BBlock(sb, 0) < sb.nmeta;
    forall s | IsSlot(ino, s) ensures SlotVal(f, ino, s) == SlotVal(e, ino, s) {
      SlotUnread(sb, e, f, ino, o, s);
    }
    hide SlotVal;
    SlotsStillOwned(sb, e, ino, o, f);
    forall b | 0 <= b < sb.size ensures Used(sb, f, b) == Used(sb, e, b) {}
    assert BitsOwned(sb, f, o) && Shaped(sb, f, ino, o);
    forall j | 0 <= j < |ino| ensures NoHoles(f, ino[j]) && Contents(f, ino[j]) == Contents(e, ino[j]) {
      FilesSame(sb, e, ino, o, f, j);
    }
    forall j | 0 <= j < |ino| ensures OnDisk(sb, f, j) == ino[j] {
      assert OnDisk(sb, e, j) == ino[j];
    }
  }

  lemma SlotUnread(sb: Super, e: Disk, f: Disk, ino: seq<Inode>, o: Own, s: Slot)
    requires Owned(sb, e, ino, o) && o.dead == {} && IsSlot(ino, s) && forall b: nat :: sb.nmeta <= b ==>
             At(f, b) == At(e, b)
    ensures SlotVal(f, ino, s) == SlotVal(e, ino, s)
  {
    if Addr(ino[s.i], NDIRECT) != 0 {
      IndirectOwned(sb, e, ino, o, s.i);
    }
  }

  // ------------------------------------------------------------- one commit

  /** x can be logged on the disk that holds b. */
  ghost predicate Ready(sb: Super, p: Place, d: Disk, b: Disk, x: Txn, bs: seq<nat>) {
    && Placed(sb, p) && Clean(d, b, p) && x.blk.Keys == b.Keys && Lists(bs, x.logged)
    && (forall k :: k in x.logged ==> sb.inodestart <= k < sb.size) && (forall k :: 0 <= k < sb.size ==> k in b)
    && |x.logged| < p.size && |x.logged| <= HEADMAX && sb.size < U32MAX
  }

  lemma ReadyLoggable(sb: Super, p: Place, d: Disk, b: Disk, x: Txn, bs: seq<nat>)
    requires Ready(sb, p, d, b, x, bs)
    ensures Loggable(d, p, bs) && x.blk.Keys == d.Keys
    ensures LogDisk.Updated(d, x.blk, p, bs) == Home(After(b, x.blk, x.logged), p)
  {
    ListsSize(bs, x.logged);
    assert forall k :: k in d && !p.Has(k) ==> Home(d, p)[k] == Home(b, p)[k];
    forall i | 0 <= i < |bs| ensures bs[i] in d && !p.Has(bs[i]) && bs[i] < U32MAX {
      assert bs[i] in x.logged;
    }
  }

  /** The disk once the commit is over. */
  ghost function Next(d: Disk, x: Txn, p: Place, bs: seq<nat>): Disk
    requires Loggable(d, p, bs) && x.blk.Keys == d.Keys
  {
    if bs == [] then d else
      var t := CommitTrace(d, x.blk, p, bs);
      t[|t| - 1]
  }

  /** At each write of the commit the log means the blocks before the transaction or those after it. */
  lemma CommitPoint(sb: Super, p: Place, d: Disk, b: Disk, x: Txn, bs: seq<nat>, w: nat)
    requires Ready(sb, p, d, b, x, bs) && Loggable(d, p, bs) && w < |CommitTrace(d, x.blk, p, bs)|
    ensures var e := CommitTrace(d, x.blk, p, bs)[w];
            LogOk(e, p) && Recovered(e, p) == if w < |bs| then Home(b, p) else Home(After(b, x.blk, x.logged), p)
  {
    hide Home, LogDisk.Updated, After, CommitTrace, Recovered, Loggable, LogOk;
    ReadyLoggable(sb, p, d, b, x, bs);
    CommitAtomic(d, x.blk, p, bs, w);
  }

  lemma CommitOver(sb: Super, p: Place, d: Disk, b: Disk, x: Txn, bs: seq<nat>)
    requires Ready(sb, p, d, b, x, bs) && Loggable(d, p, bs)
    ensures Clean(Next(d, x, p, bs), After(b, x.blk, x.logged), p)
  {
    hide LogDisk.Updated, CommitTrace, Loggable, LogOk, Recovered;
    ReadyLoggable(sb, p, d, b, x, bs);
    if bs == [] {
      assert LogDisk.Updated(d, x.blk, p, bs) == Home(d, p);
    } else {
      CommitCompletes(d, x.blk, p, bs);
      NextKeys(d, x, p, bs);
    }
  }

  lemma NextKeys(d: Disk, x: Txn, p: Place, bs: seq<nat>)
    requires Loggable(d, p, bs) && x.blk.Keys == d.Keys && bs != []
    ensures Next(d, x, p, bs).Keys == d.Keys
  {
    CommittedOk(d, x.blk, p, bs);
    var t := CommitTrace(d, x.blk, p, bs);
    assert t[|t| - 1] == CommitAt(d, x.blk, p, bs, |t| - 1);
  }

  // ------------------------------------------------- all commits of a filewrite

  /** ds[t] is the disk when t of the transactions have been committed; between commits nothing is written to it. */
  ghost predicate Commitment(p: Place, txns: seq<Txn>, lists: seq<seq<nat>>, ds: seq<Disk>) {
    && |lists| == |txns| && |ds| == |txns| + 1
    && forall t :: 0 <= t < |txns| ==>
         Loggable(ds[t], p, lists[t]) && txns[t].blk.Keys == ds[t].Keys &&
           ds[t + 1] == Next(ds[t], txns[t], p, lists[t])
  }

  /** Every transaction fits the log, and its blocks are listed in the header. */
  ghost predicate Fits(p: Place, txns: seq<Txn>, lists: seq<seq<nat>>) {
    |lists| == |txns| &&
    forall t :: 0 <= t < |txns| ==>
           |txns[t].logged| < p.size && |txns[t].logged| <= HEADMAX && Lists(lists[t], txns[t].logged)
  }

  lemma {:induction false} StillClean(c: Call, p: Place, txns: seq<Txn>, lists: seq<seq<nat>>, ds: seq<Disk>, t: nat)
    requires c.Valid() && AllOk(c, txns) && Consistent(c.sb, c.blk, c.ino, c.o) && Placed(c.sb, p) && t <= |txns|
    requires Commitment(p, txns, lists, ds) && Fits(p, txns, lists) && Clean(ds[0], c.blk, p)
    ensures Clean(ds[t], DiskAfter(c.blk, txns[..t]), p) && DiskAfter(c.blk, txns[..t]).Keys == c.blk.Keys
    ensures t < |txns| ==> Ready(c.sb, p, ds[t], DiskAfter(c.blk, txns[..t]), txns[t], lists[t])
  {
    hide Clean, Loggable, Next, Consistent, Shows, After, Lists;
    if t > 0 {
      StillClean(c, p, txns, lists, ds, t - 1);
      var b, x := DiskAfter(c.blk, txns[..t - 1]), txns[t - 1];
      CommitOver(c.sb, p, ds[t - 1], b, x, lists[t - 1]);
      assert txns[..t][..t - 1] == txns[..t - 1] && txns[..t][t - 1] == x;
      assert DiskAfter(c.blk, txns[..t]) == After(b, x.blk, x.logged);
      AfterKeys(b, x.blk, x.logged);
    }
    if t < |txns| {
      assert TxnOk(c, txns, t);
      AllThere(c.sb, c.blk, c.ino, c.o);
    }
  }

  lemma AfterKeys(b: Disk, blk: Disk, l: set<nat>)
    ensures After(b, blk, l).Keys == blk.Keys
  {
  }

  lemma AllThere(sb: Super, blk: Disk, ino: seq<Inode>, o: Own)
    requires Consistent(sb, blk, ino, o)
    ensures sb.size < U32MAX && forall k :: 0 <= k < sb.size ==> k in blk
  {
  }

  /** Disk f holds a consistent file system: the one at the start of the call with the bytes of the first u transactions
      written over the file, and every other file as it was. */
  ghost predicate Survives(c: Call, txns: seq<Txn>, u: nat, f: Disk)
    requires c.Valid() && u <= |txns|
  {
    var ino, o, k := if u == 0 then c.ino else txns[u - 1].ino, if u == 0 then c.o else txns[u - 1].o,
        if u == 0 then 0 else txns[u - 1].done;
    && Consistent(c.sb, f, ino, o) && k <= |c.src| && Shows(c.blk, c.ino, f, ino, c.i, c.off, c.src[..k])
    && (k % c.max == 0 || k == |c.src| || k <= c.mapped < |c.src|)
  }

  lemma HomeSurvives(c: Call, p: Place, txns: seq<Txn>, u: nat, f: Disk)
    requires c.Valid() && AllOk(c, txns) && Consistent(c.sb, c.blk, c.ino, c.o) && Placed(c.sb, p) && u <= |txns|
    requires f.Keys == c.blk.Keys == DiskAfter(c.blk, txns[..u]).Keys &&
             Home(f, p) == Home(DiskAfter(c.blk, txns[..u]), p)
    ensures Survives(c, txns, u, f)
  {
    hide Consistent, Contents, Home, DiskAfter;
    if u == 0 {
      assert DiskAfter(c.blk, txns[..u]) == c.blk by { assert txns[..u] == []; NoTxns(c.blk); }
      LogUnread(c.sb, p, c.blk, f, c.ino, c.o);
    } else {
      assert TxnOk(c, txns, u - 1);
      LogUnread(c.sb, p, DiskAfter(c.blk, txns[..u]), f, txns[u - 1].ino, txns[u - 1].o);
    }
  }

  lemma NoTxns(blk: Disk)
    ensures DiskAfter(blk, []) == blk
  {
  }

  /** Where the crash may find the disk: after t commits and w writes of the next. */
  ghost function CrashPoint(p: Place, txns: seq<Txn>, lists: seq<seq<nat>>, ds: seq<Disk>, t: nat, w: nat): Disk
    requires |lists| == |txns| && |ds| == |txns| + 1 && t <= |txns|
    requires w > 0 ==> t < |txns| && Loggable(ds[t], p, lists[t]) && txns[t].blk.Keys == ds[t].Keys
    requires w > 0 ==> w <= |CommitTrace(ds[t], txns[t].blk, p, lists[t])|
  {
    if w == 0 then ds[t] else CommitTrace(ds[t], txns[t].blk, p, lists[t])[w - 1]
  }

  /** The transactions whose bytes a crash there leaves: the log header, written after the log blocks, decides. */
  function Survivors(lists: seq<seq<nat>>, t: nat, w: nat): nat {
    if w > 0 && t < |lists| && w > |lists[t]| then t + 1 else t
  }

  lemma PointMeans(c: Call, p: Place, txns: seq<Txn>, lists: seq<seq<nat>>, ds: seq<Disk>, t: nat, w: nat)
    requires c.Valid() && AllOk(c, txns) && Consistent(c.sb, c.blk, c.ino, c.o) && Placed(c.sb, p) && t <= |txns|
    requires Commitment(p, txns, lists, ds) && Fits(p, txns, lists) && Clean(ds[0], c.blk, p)
    requires w > 0 ==> t < |txns| && w <= |CommitTrace(ds[t], txns[t].blk, p, lists[t])|
    ensures var e, u := CrashPoint(p, txns, lists, ds, t, w), Survivors(lists, t, w);
            LogOk(e, p) && Recovered(e, p) == Home(DiskAfter(c.blk, txns[..u]), p)
  {
    hide Loggable, Consistent, AllOk, Fits, Home, CommitTrace;
    StillClean(c, p, txns, lists, ds, t);
    if w == 0 {
      EmptyLog(ds[t], p);
    } else {
      CommitPoint(c.sb, p, ds[t], DiskAfter(c.blk, txns[..t]), txns[t], lists[t], w - 1);
      assert txns[..t + 1][..t] == txns[..t];
    }
  }

  lemma EmptyLog(d: Disk, p: Place)
    requires LogOk(d, p) && Listed(d[p.start]) == []
    ensures Recovered(d, p) == Home(d, p)
  {
  }

  lemma SameKeys(f: Disk, b: Disk, d: Disk, p: Place)
    requires Home(f, p) == Home(b, p) && LogOk(f, p) && LogOk(d, p) && d.Keys == b.Keys
    ensures f.Keys == b.Keys
  {
    forall k ensures k in f <==> k in b {
      if p.Has(k) {
        assert k in f && k in d;
      } else {
        assert k in Home(f, p) <==> k in Home(b, p);
      }
    }
  }

  /** A crash anywhere in filewrite, with t of its transactions committed and w writes of the next commit made, and then
      any number of crashes during recovery. When recovery is done the disk holds a consistent file system: the one the
      call started with, with a whole number of pieces of src written over the file (or, if src could not all be read,
      some bytes that could be) and every other file as it was. A transaction whose commit finished is always among
      them, and one is added exactly when its header has been written. */
  lemma FilewriteCrash(c: Call, p: Place, txns: seq<Txn>, lists: seq<seq<nat>>, ds: seq<Disk>, t: nat, w: nat,
                       es: seq<Disk>)
    requires c.Valid() && AllOk(c, txns) && Consistent(c.sb, c.blk, c.ino, c.o) && Placed(c.sb, p) && t <= |txns|
    requires Commitment(p, txns, lists, ds) && Fits(p, txns, lists) && Clean(ds[0], c.blk, p)
    requires w > 0 ==> t < |txns| && w <= |CommitTrace(ds[t], txns[t].blk, p, lists[t])|
    requires |es| > 0 && es[0] == CrashPoint(p, txns, lists, ds, t, w) && CrashChain(es, p)
    ensures var last := es[|es| - 1];
            LogOk(last, p) && Survives(c, txns, Survivors(lists, t, w),
                                       RecoveryTrace(last, p)[|RecoveryTrace(last, p)| - 1])
  {
    hide Loggable, Consistent, AllOk, Fits, Home, CommitTrace, Recovered, CrashPoint, RecoveryTrace, Survives, LogOk,
         DiskAfter, CrashChain, Listed;
    var u := Survivors(lists, t, w);
    PointMeans(c, p, txns, lists, ds, t, w);
    RecoveryRestarts(es, p);
    var last := es[|es| - 1];
    var done := RecoveryTrace(last, p)[|RecoveryTrace(last, p)| - 1];
    StillClean(c, p, txns, lists, ds, u);
    SameKeys(done, DiskAfter(c.blk, txns[..u]), ds[u], p);
    HomeSurvives(c, p, txns, u, done);
  }
}
