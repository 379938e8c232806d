/** The logging layer, over the buffer cache. */
module Log {
  import opened Blocks
  import opened Sets
  import opened BufferCache
  import opened LogDisk
  import opened LogCommit

  /** Every logged block's buffer stays in the cache. */
  ghost predicate Pinned(refs: map<nat, nat>, block: seq<nat>, n: nat) {
    forall i :: 0 <= i < n && i < |block| ==> block[i] in refs && refs[block[i]] > 0
  }

  /** A block differs from the disk only if it is logged or locked. */
  ghost predicate Clean(disk: Disk, view: Disk, bs: seq<nat>, held: set<nat>) {
    forall k :: k in disk && k in view && view[k] != disk[k] ==> k in bs || k in held
  }

  lemma PinnedMore(refs: map<nat, nat>, block: seq<nat>, n: nat, k: nat)
    requires Pinned(refs, block, n) && n < |block| && k in refs
    ensures Pinned(refs[k := refs[k] + 1], block[n := k], n + 1)
  {
  }

  lemma CleanMore(disk: Disk, view: Disk, bs: seq<nat>, held: set<nat>, k: nat)
    requires Clean(disk, view, bs, held)
    ensures Clean(disk, view, bs + [k], held)
  {
  }

  class LogState {
    const p: Place            // log.start and log.size
    const logsize: nat        // LOGSIZE
    const maxop: nat          // MAXOPBLOCKS
    const bc: Cache
    var outstanding: int
    var committing: bool
    var n: nat                // log.lh.n
    var block: seq<nat>       // log.lh.block

    /** The in-memory header lists distinct home blocks, each pinned in the cache; any other modified
        block is held by whoever is modifying it. */
    ghost predicate Valid()
      reads this, bc
    {
      && Frame()
      && Pinned(bc.a.refs, block, n) && Clean(bc.disk, bc.a.view, block[..n], bc.a.held)
      && LogOk(bc.disk, p) && Listed(bc.disk[p.start]) == []
    }

    /** The part of the invariant that holds even in the middle of a commit. */
    ghost predicate Frame()
      reads this, bc
    {
      && bc.Valid()
      && logsize <= HEADMAX && |block| == logsize && n <= logsize
      && Loggable(bc.disk, p, block[..n])
    }

    /** Nobody is using the log's own blocks or a logged block, and a buffer is left over. */
    ghost predicate Quiet(spare: nat)
      requires Frame()
      reads this, bc
    {
      && (forall k :: k in bc.a.held ==> !p.Has(k) && k !in block[..n])
      && |InUse(bc.a.refs)| + spare <= bc.nbuf
    }

    /** The log variables in zero-initialised static storage, with what initlog copies from the superblock. */
    constructor (bc: Cache, p: Place, logsize: nat, maxop: nat)
      ensures this.bc == bc && this.p == p && this.logsize == logsize && this.maxop == maxop
      ensures outstanding == 0 && !committing && n == 0 && |block| == logsize
    {
      this.bc, this.p, this.logsize, this.maxop := bc, p, logsize, maxop;
      outstanding, committing, n, block := 0, false, 0, seq(logsize, _ => 0);
    }

    /** One iteration of write_log: copy logged block number tail from the cache to the log. */
    method WriteLogBlock(tail: nat)
      requires Frame() && tail < n && Quiet(1) && bc.a.refs[block[tail]] > 0
      modifies bc
      ensures bc.Valid() && bc.a.refs == old(bc.a.refs) && bc.a.held == old(bc.a.held)
      ensures bc.disk == old(bc.disk)[p.start + tail + 1 := old(bc.a.view[block[tail]])]
      ensures bc.a.view == old(bc.a.view)[p.start + tail + 1 := old(bc.a.view[block[tail]])]
      ensures bc.trace == old(bc.trace) + [bc.disk]
    {
      hide Coherent, IsRing, Permutation, InUse, Loggable, Domains;
      ghost var l, k := p.start + tail + 1, block[tail];
      LoggableAt(bc.disk, p, block[..n], tail);
      DomainsAt(bc.disk, bc.a, l);
      DomainsAt(bc.disk, bc.a, k);
      assert k in block[..n];
      var to, from := BreadPair(bc, p.start + tail + 1, block[tail]);
      Overwrite(bc, to, l, bc.bufs[from].data);
      Restored(old(bc.a.refs), l, k);
      BrelsePair(bc, from, k, to, l);
      HeldBack(old(bc.a.held), l, k);
    }

    /** write_log. */
    method WriteLog()
      requires Frame() && Quiet(1)
      requires forall i :: 0 <= i < n ==> bc.a.refs[block[i]] > 0
      modifies bc
      ensures Frame() && bc.a.refs == old(bc.a.refs) && bc.a.held == old(bc.a.held)
      ensures Loggable(old(bc.disk), p, block[..n]) && Loggable(old(bc.a.view), p, block[..n])
      ensures bc.disk == LogPhase(old(bc.disk), old(bc.a.view), p, block[..n], n)
      ensures bc.a.view == LogPhase(old(bc.a.view), old(bc.a.view), p, block[..n], n)
      ensures bc.trace == old(bc.trace) + LogTrace(old(bc.disk), old(bc.a.view), p, block[..n], n)
    {
      hide Coherent, IsRing, Permutation, InUse, Loggable, LogPhase, LogTrace, Home;
      ghost var d, v, bs := bc.disk, bc.a.view, block[..n];
      LoggableKeys(d, v, p, bs);
      LogPhaseStart(d, v, p, bs);
      LogPhaseStart(v, v, p, bs);
      for tail := 0 to n
        invariant bc.Valid() && bc.a.refs == old(bc.a.refs) && bc.a.held == old(bc.a.held)
        invariant bc.disk == LogPhase(d, v, p, bs, tail) && bc.a.view == LogPhase(v, v, p, bs, tail)
        invariant bc.trace == old(bc.trace) + LogTrace(d, v, p, bs, tail)
      {
        LoggableKeys(d, bc.disk, p, bs);
        LoggableAt(d, p, bs, tail);
        WriteLogBlock(tail);
        LogPhaseKeepsHome(v, v, p, bs, tail, bs[tail]);
        LogPhaseStep(d, v, p, bs, tail);
        LogPhaseStep(v, v, p, bs, tail);
      }
      LoggableKeys(d, bc.disk, p, bs);
    }

    /** One iteration of install_trans: copy log block number tail to its home, and unpin it unless recovering. */
    method InstallBlock(tail: nat, recovering: bool)
      requires Frame() && tail < n && Quiet(if recovering then 2 else 1)
      requires bc.a.view[p.start + tail + 1] == bc.disk[p.start + tail + 1]
      requires !recovering ==> bc.a.refs[block[tail]] > 0
      modifies bc
      ensures bc.Valid() && bc.a.held == old(bc.a.held)
      ensures bc.a.refs == if recovering then old(bc.a.refs)
                           else old(bc.a.refs)[block[tail] := old(bc.a.refs[block[tail]]) - 1]
      ensures bc.disk == old(bc.disk)[block[tail] := old(bc.a.view[p.start + tail + 1])]
      ensures bc.a.view == old(bc.a.view)[block[tail] := old(bc.a.view[p.start + tail + 1])]
      ensures bc.trace == old(bc.trace) + [bc.disk]
    {
      hide Coherent, IsRing, Permutation, InUse, Loggable, Domains;
      ghost var l, k := p.start + tail + 1, block[tail];
      LoggableAt(bc.disk, p, block[..n], tail);
      DomainsAt(bc.disk, bc.a, l);
      DomainsAt(bc.disk, bc.a, k);
      assert k in block[..n];
      var lbuf, dbuf := BreadPair(bc, p.start + tail + 1, block[tail]);
      Overwrite(bc, dbuf, k, bc.bufs[lbuf].data);
      Restored(old(bc.a.refs), l, k);
      if !recovering {
        bc.Bunpin(dbuf, k);
        RestoredLess(old(bc.a.refs), l, k);
      }
      BrelsePair(bc, lbuf, l, dbuf, k);
      HeldBack(old(bc.a.held), l, k);
    }

    /** install_trans. */
    method InstallTrans(recovering: bool)
      requires Frame() && Quiet(if recovering then 2 else 1)
      requires forall l :: p.start < l <= p.start + n ==> bc.a.view[l] == bc.disk[l]
      requires !recovering ==> forall i :: 0 <= i < n ==> bc.a.refs[block[i]] > 0
      modifies bc
      ensures Frame() && bc.a.held == old(bc.a.held)
      ensures bc.a.refs == if recovering then old(bc.a.refs) else Unpinned(old(bc.a.refs), block[..n], n)
      ensures Loggable(old(bc.disk), p, block[..n]) && Loggable(old(bc.a.view), p, block[..n])
      ensures bc.disk == Install(old(bc.disk), p, block[..n], n) &&
              bc.a.view == Install(old(bc.a.view), p, block[..n], n)
      ensures bc.trace == old(bc.trace) + InstallTrace(old(bc.disk), p, block[..n], n)
    {
      hide Coherent, IsRing, Permutation, InUse, Loggable, Install, InstallTrace, Unpinned, Installing;
      ghost var d, v, bs, r := bc.disk, bc.a.view, block[..n], bc.a.refs;
      ghost var t0 := bc.trace;
      LoggableKeys(d, v, p, bs);
      InstallingStart(d, v, r, t0, p, bs, recovering);
      for tail := 0 to n
        invariant bc.Valid() && bc.a.held == old(bc.a.held)
        invariant Installing(d, v, r, t0, p, bs, tail, recovering, bc.disk, bc.a.view, bc.a.refs, bc.trace)
      {
        ghost var d1, v1, r1, t1 := bc.disk, bc.a.view, bc.a.refs, bc.trace;
        InstallingNow(d, v, r, t0, p, bs, tail, recovering, d1, v1, r1, t1);
        InstallBlock(tail, recovering);
        InstallingNext(d, v, r, t0, p, bs, tail, recovering, d1, v1, r1, t1);
      }
      InstallingEnd(d, v, r, t0, p, bs, recovering, bc.disk, bc.a.view, bc.a.refs, bc.trace);
    }

    /** write_head: the header block on disk lists the in-memory header's blocks. */
    method WriteHead()
      requires Frame() && p.start !in bc.a.held && |InUse(bc.a.refs)| < bc.nbuf
      modifies bc
      ensures bc.Valid() && bc.a.refs == old(bc.a.refs) && bc.a.held == old(bc.a.held)
      ensures |block[..n]| <= HEADMAX && forall i :: 0 <= i < n ==> block[..n][i] < U32MAX
      ensures bc.disk == old(bc.disk)[p.start := Header(old(bc.a.view[p.start]), block[..n])]
      ensures bc.a.view == old(bc.a.view)[p.start := Header(old(bc.a.view[p.start]), block[..n])]
      ensures bc.trace == old(bc.trace) + [bc.disk]
    {
      hide Coherent, IsRing, Permutation, InUse, Header;
      var buf := bc.Bread(p.start);
      var hb := EncodeHead(bc.bufs[buf].data, block, n);
      Overwrite(bc, buf, p.start, hb);
      bc.Brelse(buf, p.start);
      assert old(bc.a.refs)[p.start := old(bc.a.refs[p.start]) + 1][p.start := old(bc.a.refs[p.start])] ==
             old(bc.a.refs);
      assert old(bc.a.held) + {p.start} - {p.start} == old(bc.a.held);
    }

    /** read_head: load the in-memory header from the header block, whose list fits. */
    method ReadHead()
      requires bc.Valid() && p.start in bc.disk && p.start !in bc.a.held && |InUse(bc.a.refs)| < bc.nbuf
      requires bc.a.view[p.start] == bc.disk[p.start] && |block| == logsize <= HEADMAX
      requires Word(bc.disk[p.start], 0) <= logsize
      modifies this`n, this`block, bc
      ensures bc.Valid() && bc.a.refs == old(bc.a.refs) && bc.a.held == old(bc.a.held) && bc.a.view == old(bc.a.view)
      ensures bc.disk == old(bc.disk) && bc.trace == old(bc.trace)
      ensures |block| == logsize && n == Word(bc.disk[p.start], 0) && block[..n] == Listed(bc.disk[p.start])
    {
      hide Coherent, IsRing, Permutation, InUse, Listed, Word;
      var buf := bc.Bread(p.start);
      var h := bc.bufs[buf].data;
      n, block := DecodeHead(h, block);
      bc.Brelse(buf, p.start);
      assert old(bc.a.refs)[p.start := old(bc.a.refs[p.start]) + 1][p.start := old(bc.a.refs[p.start])] ==
             old(bc.a.refs);
      assert old(bc.a.held) + {p.start} - {p.start} == old(bc.a.held);
    }

    /** The part of commit up to and including the first write of the header. */
    method WriteLogAndHead()
      requires Valid() && Quiet(1) && n > 0
      modifies bc
      ensures Frame() && bc.a.refs == old(bc.a.refs) && bc.a.held == old(bc.a.held)
      ensures Loggable(old(bc.disk), p, block[..n]) && Loggable(old(bc.a.view), p, block[..n])
      ensures bc.disk == Committed(old(bc.disk), old(bc.a.view), p, block[..n])
      ensures bc.a.view == Committed(old(bc.a.view), old(bc.a.view), p, block[..n])
      ensures bc.trace == old(bc.trace) + LogTrace(old(bc.disk), old(bc.a.view), p, block[..n], n) + [bc.disk]
    {
      hide Coherent, IsRing, Permutation, InUse, LogPhase, LogTrace, Header, Listed;
      ghost var d, v, bs := bc.disk, bc.a.view, block[..n];
      assert p.Has(p.start) && p.start !in bs;
      assert v[p.start] == d[p.start];
      WriteLog();
      WriteHead();
      LoggableKeys(d, bc.disk, p, bs);
    }

    /** The rest of commit: install the blocks, then erase the transaction. */
    method InstallAndClear(ghost d: Disk, ghost v: Disk, ghost bs: seq<nat>)
      requires Frame() && Quiet(1) && bs == block[..n]
      requires Loggable(d, p, bs) && Loggable(v, p, bs) && v.Keys == d.Keys && d[p.start] == v[p.start]
      requires bc.disk == Committed(d, v, p, bs) && bc.a.view == Committed(v, v, p, bs)
      requires forall i :: 0 <= i < n ==> bc.a.refs[block[i]] > 0
      modifies bc, this`n
      ensures bc.Valid() && n == 0 && bc.a.held == old(bc.a.held)
      ensures bc.disk == Finished(d, v, p, bs) && bc.a.view == Finished(v, v, p, bs)
      ensures Loggable(old(bc.disk), p, bs) &&
              bc.trace == old(bc.trace) + InstallTrace(old(bc.disk), p, bs, |bs|) + [bc.disk]
      ensures bc.a.refs == Unpinned(old(bc.a.refs), bs, |bs|)
    {
      hide Coherent, IsRing, Permutation, InUse, InstallTrace, Install, Header, Unpinned, Committed;
      CommittedLog(d, v, p, bs);
      InstallTrans(false);
      UnpinnedInUse(old(bc.a.refs), bs, n);
      n := 0;
      assert block[..n] == [] && p.Has(p.start);
      WriteHead();
    }

    /** commit. Its disk writes are exactly those of CommitTrace, and it leaves an empty log and the same
        contents in memory. */
    method Commit()
      requires Valid() && Quiet(1)
      modifies bc, this`n
      ensures Valid() && n == 0 && bc.a.held == old(bc.a.held)
      ensures Loggable(old(bc.disk), p, old(block[..n]))
      ensures bc.trace == old(bc.trace) + CommitTrace(old(bc.disk), old(bc.a.view), p, old(block[..n]))
      ensures Home(bc.a.view, p) == Home(old(bc.a.view), p)
      ensures bc.a.refs == Unpinned(old(bc.a.refs), old(block[..n]), old(n))
    {
      hide Coherent, IsRing, Permutation, InUse, LogTrace, InstallTrace, CommitTrace, Unpinned, Listed, Home,
           Committed, Finished, LogOk;
      ghost var d, v, bs := bc.disk, bc.a.view, block[..n];
      if n > 0 {
        LogClean();
        WriteLogAndHead();
        InstallAndClear(d, v, bs);
        FinishedBoth(d, v, p, bs);
        CommitTraceSplit(d, v, p, bs);
        ghost var c := Committed(d, v, p, bs);
        Regroup(old(bc.trace), LogTrace(d, v, p, bs, |bs|), [c], InstallTrace(c, p, bs, |bs|), [bc.disk]);
        NothingLogged(d, bc.disk);
      } else {
        InstallStart(d, p, bs, bc.a.refs);
      }
    }

    lemma NothingLogged(d: Disk, e: Disk)
      requires (exists bs :: Loggable(d, p, bs)) && e.Keys == d.Keys
      ensures Loggable(e, p, [])
    {
    }

    /** recover_from_log, on a freshly booted cache: its disk writes are exactly those of RecoveryTrace, and
        the home blocks become what the log on disk meant. */
    method RecoverFromLog()
      requires bc.Valid() && bc.a.view == bc.disk && bc.a.held == {} && InUse(bc.a.refs) == {} && bc.nbuf >= 2
      requires LogOk(bc.disk, p) && |block| == logsize <= HEADMAX && |Listed(bc.disk[p.start])| <= logsize
      modifies bc, this`n, this`block
      ensures Valid() && n == 0 && bc.a.held == {} && bc.a.refs == old(bc.a.refs)
      ensures bc.trace == old(bc.trace) + RecoveryTrace(old(bc.disk), p)
      ensures Home(bc.disk, p) == Recovered(old(bc.disk), p) && bc.a.view == bc.disk
    {
      hide Coherent, IsRing, Permutation, InstallTrace, Install, Header, Word, Home;
      ghost var d, bs := bc.disk, Listed(bc.disk[p.start]);
      assert p.Has(p.start);
      ReadHead();
      InstallTrans(true);
      n := 0;
      assert block[..n] == [];
      ghost var e := bc.disk;
      WriteHead();
      assert bc.disk == Cleared(e, p);
      ClearedMeansHome(e, p);
      RecoveryTraceSplit(d, p);
      ClearedHome(e);
    }

    lemma ClearedHome(e: Disk)
      requires p.start in e && p.Has(p.start)
      ensures Home(Cleared(e, p), p) == Home(e, p)
    {
    }

    /** log_write, by the holder of block k's buffer. !ok is a panic. Otherwise block k is in the header and
        pinned, and it takes a new entry exactly when it had none. */
    method LogWrite(b: nat, ghost k: nat) returns (ok: bool)
      requires Valid() && bc.Holding(b, k) && !p.Has(k) && k < U32MAX
      modifies bc, this`n, this`block
      ensures Valid() && bc.Holding(b, k) && bc.a.view == old(bc.a.view) && bc.a.held == old(bc.a.held)
      ensures bc.disk == old(bc.disk) && bc.trace == old(bc.trace)
      ensures ok <==> old(n) < logsize && old(n) < p.size - 1 && outstanding >= 1
      ensures !ok ==> n == old(n) && block == old(block) && bc.a == old(bc.a)
      ensures ok && k in old(block[..n]) ==> n == old(n) && block[..n] == old(block[..n]) && bc.a == old(bc.a)
      ensures ok && k !in old(block[..n]) ==>
        && block[..n] == old(block[..n]) + [k]
        && bc.a == old(bc.a).(refs := old(bc.a.refs)[k := old(bc.a.refs[k]) + 1])
    {
      hide Coherent, IsRing, Permutation, LogOk, Listed, Domains, Pinned, Clean, Loggable;
      if n >= logsize || n >= p.size - 1 {
        return false;  // too big a transaction
      }
      if outstanding < 1 {
        return false;  // log_write outside of trans
      }
      var i := FindBlock(block, n, bc.bufs[b].blockno);
      block := block[i := bc.bufs[b].blockno];
      if i == n {
        assert block[..n + 1] == old(block[..n]) + [k];
        AtBuffer(bc.bufs, bc.dev, bc.disk, bc.a, b);
        LoggableAppend(bc.disk, p, old(block[..n]), k);
        PinnedMore(bc.a.refs, old(block), n, k);
        CleanMore(bc.disk, bc.a.view, old(block[..n]), bc.a.held, k);
        bc.Bpin(b, k);
        n := n + 1;
      } else {
        assert block == old(block);
      }
      return true;
    }

    /** One pass of begin_op's loop, when the operations under way may still add promised entries. If it starts one, the
        header has room for what was promised and for all the new operation may add; if not (it sleeps and tries again),
        a commit is under way, or the whole budgets of the old operations and the new one would not fit. */
    method TryBegin(ghost promised: nat) returns (ok: bool)
      requires promised <= outstanding * maxop && n + promised <= logsize
      modifies this`outstanding
      ensures ok ==> outstanding == old(outstanding) + 1 && promised + maxop <= outstanding * maxop
      ensures ok ==> !committing && n + promised + maxop <= logsize
      ensures !ok ==> outstanding == old(outstanding) && (committing || n + outstanding * maxop + maxop > logsize)
    {
      assert (outstanding + 1) * maxop == outstanding * maxop + maxop;
      if committing {
        return false;
      } else if n + (outstanding + 1) * maxop > logsize {
        return false;
      } else {
        outstanding := outstanding + 1;
        return true;
      }
    }

    /** A commit finds a buffer for each log block exactly when the logged blocks and those in use elsewhere are fewer
        than NBUF: for a block that nobody uses, bget panics exactly otherwise. */
    lemma CommitBuffers(k: nat)
      requires Valid() && k in bc.disk && k in bc.a.refs && bc.a.refs[k] == 0
      ensures var elsewhere := InUse(bc.a.refs) - LoggedSet(block[..n]);
        && |InUse(bc.a.refs)| == n + |elsewhere|
        && (n + |elsewhere| >= bc.nbuf <==> k !in bc.a.at && forall c :: 0 <= c < bc.nbuf ==> bc.bufs[c].refcnt > 0)
    {
      hide Coherent, IsRing, Permutation, LogOk, Listed, Clean;
      NoBuffers(bc.bufs, bc.dev, bc.disk, bc.a, k);
      var s := LoggedSet(block[..n]);
      LoggedCount(bc.disk, p, block[..n]);
      assert s <= InUse(bc.a.refs);
      assert InUse(bc.a.refs) == s + (InUse(bc.a.refs) - s);
    }

    /** end_op: the last outstanding operation commits the group. !ok is the panic. */
    method EndOp() returns (ok: bool)
      requires Valid() && (outstanding == 1 && !committing ==> Quiet(1))
      modifies bc, this`n, this`outstanding, this`committing
      ensures Valid() && ok == !old(committing) && outstanding == old(outstanding) - 1
      ensures committing == old(committing)
      ensures Loggable(old(bc.disk), p, old(block[..n]))
      ensures bc.trace == old(bc.trace) +
        (if ok && outstanding == 0 then CommitTrace(old(bc.disk), old(bc.a.view), p, old(block[..n])) else [])
      ensures if ok && outstanding == 0 then n == 0 else n == old(n)
      ensures Home(bc.a.view, p) == Home(old(bc.a.view), p)
    {
      hide Coherent, IsRing, Permutation, InUse, Domains, LogOk, Listed, CommitTrace, Home, Pinned, Clean;
      outstanding := outstanding - 1;
      if committing {
        return false;
      }
      ok := true;
      if outstanding == 0 {
        committing := true;
        Commit();
        committing := false;
      }
    }

    lemma LogClean()
      requires Valid() && Quiet(0)
      ensures forall l :: l in bc.disk && p.Has(l) ==> bc.a.view[l] == bc.disk[l]
      ensures p.start in bc.disk && p.Has(p.start)
    {
    }
  }

  ghost function LoggedSet(bs: seq<nat>): set<nat> {
    set k | k in bs
  }

  lemma {:induction false} LoggedCount(d: Disk, p: Place, bs: seq<nat>)
    requires Loggable(d, p, bs)
    ensures |LoggedSet(bs)| == |bs|
  {
    if bs != [] {
      var rest := bs[..|bs| - 1];
      LoggedCount(d, p, rest);
      assert LoggedSet(bs) == LoggedSet(rest) + {bs[|bs| - 1]};
      assert bs[|bs| - 1] !in rest;
    } else {
      assert LoggedSet(bs) == {};
    }
  }

  /** The assignments write_head makes to the header block's data. */
  method EncodeHead(h: Block, block: seq<nat>, n: nat) returns (hb: Block)
    requires n <= |block| && n <= HEADMAX && forall i :: 0 <= i < n ==> block[..n][i] < U32MAX
    ensures hb == Header(h, block[..n])
  {
    hide Stored, PutWord;
    ghost var bs := block[..n];
    hb := PutWord(h, 0, n);
    StoredNone(hb, bs);
    for i := 0 to n
      invariant hb == Stored(PutWord(h, 0, n), bs, i)
    {
      hb := PutWord(hb, i + 1, block[i]);
      StoredNext(PutWord(h, 0, n), bs, i);
    }
  }

  /** The assignments read_head makes to the in-memory header. */
  method DecodeHead(h: Block, block: seq<nat>) returns (n: nat, block': seq<nat>)
    requires Word(h, 0) <= |block| && Word(h, 0) <= HEADMAX
    ensures n == Word(h, 0) && |block'| == |block| && block'[..n] == Listed(h)
  {
    hide Word;
    n, block' := Word(h, 0), block;
    for i := 0 to n
      invariant |block'| == |block| && forall j :: 0 <= j < i ==> block'[j] == Word(h, j + 1)
    {
      block' := block'[i := Word(h, i + 1)];
    }
  }

  lemma StoredNone(h: Block, bs: seq<nat>)
    requires |bs| <= HEADMAX && forall i :: 0 <= i < |bs| ==> bs[i] < U32MAX
    ensures Stored(h, bs, 0) == h
  {
  }

  lemma StoredNext(h: Block, bs: seq<nat>, m: nat)
    requires m < |bs| <= HEADMAX && forall i :: 0 <= i < |bs| ==> bs[i] < U32MAX
    ensures Stored(h, bs, m + 1) == PutWord(Stored(h, bs, m), m + 1, bs[m])
  {
  }

  /** The reference counts after the first i logged blocks were unpinned. */
  ghost function Unpinned(refs: map<nat, nat>, bs: seq<nat>, i: nat): (r: map<nat, nat>)
    requires i <= |bs| && forall j :: 0 <= j < |bs| ==> bs[j] in refs
    ensures r.Keys == refs.Keys
  {
    if i == 0 then refs else
      var r := Unpinned(refs, bs, i - 1);
      r[bs[i - 1] := if r[bs[i - 1]] > 0 then r[bs[i - 1]] - 1 else 0]
  }

  /** The first i logged blocks are installed. */
  ghost predicate Installing(d: Disk, v: Disk, r: map<nat, nat>, t: seq<Disk>, p: Place, bs: seq<nat>, i: nat,
                             recovering: bool, disk: Disk, view: Disk, refs: map<nat, nat>, trace: seq<Disk>) {
    && Loggable(d, p, bs) && Loggable(v, p, bs) && r.Keys == d.Keys == v.Keys && i <= |bs|
    && (forall j :: 0 <= j < |bs| ==> bs[j] in r)
    && disk == Install(d, p, bs, i) && view == Install(v, p, bs, i) && trace == t + InstallTrace(d, p, bs, i)
    && (if recovering then refs == r else refs == Unpinned(r, bs, i))
  }

  lemma InstallingStart(d: Disk, v: Disk, r: map<nat, nat>, t: seq<Disk>, p: Place, bs: seq<nat>, recovering: bool)
    requires Loggable(d, p, bs) && Loggable(v, p, bs) && r.Keys == d.Keys == v.Keys
    ensures Installing(d, v, r, t, p, bs, 0, recovering, d, v, r, t)
  {
    InstallStart(d, p, bs, r);
    InstallStart(v, p, bs, r);
  }

  lemma InstallingNow(d: Disk, v: Disk, r: map<nat, nat>, t: seq<Disk>, p: Place, bs: seq<nat>, i: nat,
                      recovering: bool, disk: Disk, view: Disk, refs: map<nat, nat>, trace: seq<Disk>)
    requires Installing(d, v, r, t, p, bs, i, recovering, disk, view, refs, trace) && i < |bs|
    requires forall l :: p.start < l <= p.start + |bs| ==> v[l] == d[l]
    requires !recovering ==> forall j :: 0 <= j < |bs| ==> r[bs[j]] > 0
    ensures Loggable(disk, p, bs) && disk.Keys == d.Keys && view.Keys == d.Keys && refs.Keys == d.Keys
    ensures view[p.start + i + 1] == disk[p.start + i + 1] && |InUse(refs)| <= |InUse(r)|
    ensures !recovering ==> refs[bs[i]] > 0
  {
    hide InUse, Install, InstallTrace;
    LoggableKeys(d, disk, p, bs);
    assert p.Has(p.start + i + 1);
    if !recovering {
      UnpinnedStep(r, d, p, bs, i);
      UnpinnedInUse(r, bs, i);
    }
  }

  lemma InstallingNext(d: Disk, v: Disk, r: map<nat, nat>, t: seq<Disk>, p: Place, bs: seq<nat>, i: nat,
                       recovering: bool, disk: Disk, view: Disk, refs: map<nat, nat>, trace: seq<Disk>)
    requires Installing(d, v, r, t, p, bs, i, recovering, disk, view, refs, trace) && i < |bs|
    requires p.start + i + 1 in view && p.start + i + 1 in disk && view[p.start + i + 1] == disk[p.start + i + 1] &&
             bs[i] in refs
    requires !recovering ==> r[bs[i]] > 0 && refs[bs[i]] > 0
    ensures var disk' := disk[bs[i] := view[p.start + i + 1]];
      Installing(d, v, r, t, p, bs, i + 1, recovering, disk', view[bs[i] := view[p.start + i + 1]],
                 if recovering then refs else refs[bs[i] := refs[bs[i]] - 1], trace + [disk'])
  {
    hide Install, InstallTrace, Unpinned;
    InstallStep(d, p, bs, i);
    InstallStep(v, p, bs, i);
    assert p.Has(p.start + i + 1);
    if !recovering {
      UnpinnedStep(r, d, p, bs, i);
    }
  }

  lemma InstallingEnd(d: Disk, v: Disk, r: map<nat, nat>, t: seq<Disk>, p: Place, bs: seq<nat>, recovering: bool,
                      disk: Disk, view: Disk, refs: map<nat, nat>, trace: seq<Disk>)
    requires Installing(d, v, r, t, p, bs, |bs|, recovering, disk, view, refs, trace)
    ensures Loggable(disk, p, bs) && disk == Install(d, p, bs, |bs|) && view == Install(v, p, bs, |bs|)
    ensures trace == t + InstallTrace(d, p, bs, |bs|) && refs == if recovering then r else Unpinned(r, bs, |bs|)
  {
    hide Install, InstallTrace;
    LoggableKeys(d, disk, p, bs);
  }

  lemma InstallStart(d: Disk, p: Place, bs: seq<nat>, refs: map<nat, nat>)
    requires Loggable(d, p, bs) && refs.Keys == d.Keys
    ensures Install(d, p, bs, 0) == d && InstallTrace(d, p, bs, 0) == []
    ensures (forall j :: 0 <= j < |bs| ==> bs[j] in refs) && Unpinned(refs, bs, 0) == refs
  {
  }

  lemma {:induction false} UnpinnedOther(refs: map<nat, nat>, d: Disk, p: Place, bs: seq<nat>, i: nat, j: nat)
    requires Loggable(d, p, bs) && refs.Keys == d.Keys && i <= j < |bs|
    ensures Unpinned(refs, bs, i)[bs[j]] == refs[bs[j]]
  {
    if i > 0 {
      UnpinnedOther(refs, d, p, bs, i - 1, j);
    }
  }

  lemma {:induction false} UnpinnedInUse(refs: map<nat, nat>, bs: seq<nat>, i: nat)
    requires i <= |bs| && forall j :: 0 <= j < |bs| ==> bs[j] in refs
    ensures |InUse(Unpinned(refs, bs, i))| <= |InUse(refs)|
  {
    if i > 0 {
      UnpinnedInUse(refs, bs, i - 1);
      SubsetSize(InUse(Unpinned(refs, bs, i)), InUse(Unpinned(refs, bs, i - 1)));
    }
  }

  lemma UnpinnedStep(refs: map<nat, nat>, d: Disk, p: Place, bs: seq<nat>, i: nat)
    requires Loggable(d, p, bs) && refs.Keys == d.Keys && i < |bs| && refs[bs[i]] > 0
    ensures Unpinned(refs, bs, i)[bs[i]] == refs[bs[i]]
    ensures Unpinned(refs, bs, i + 1) == Unpinned(refs, bs, i)[bs[i] := refs[bs[i]] - 1]
  {
    UnpinnedOther(refs, d, p, bs, i, i);
  }

  /** Two breads in a row, of different blocks. */
  method BreadPair(bc: Cache, l: nat, k: nat) returns (x: nat, y: nat)
    requires bc.Valid() && l in bc.disk && k in bc.disk && l != k && l !in bc.a.held && k !in bc.a.held
    requires |InUse(bc.a.refs)| + (if bc.a.refs[k] > 0 then 1 else 2) <= bc.nbuf
    modifies bc`bufs, bc`a
    ensures bc.Valid() && bc.Holding(x, l) && bc.Holding(y, k) && x != y
    ensures bc.bufs[x].data == bc.a.view[l] && bc.bufs[y].data == bc.a.view[k]
    ensures bc.a.view == old(bc.a.view) && bc.a.held == old(bc.a.held) + {l, k}
    ensures bc.a.refs == old(bc.a.refs)[l := old(bc.a.refs[l]) + 1][k := old(bc.a.refs[k]) + 1]
  {
    hide Coherent, IsRing, Permutation, InUse;
    x := bc.Bread(l);
    y := bc.Bread(k);
  }

  /** Store new contents in a held buffer and bwrite it. */
  method Overwrite(bc: Cache, b: nat, ghost k: nat, data: Block)
    requires bc.Valid() && bc.Holding(b, k)
    modifies bc`bufs, bc`a, bc`disk, bc`trace
    ensures bc.Valid() && bc.Holding(b, k) && bc.bufs == old(bc.bufs)[b := old(bc.bufs[b]).(data := data)]
    ensures bc.a == old(bc.a).(view := old(bc.a.view)[k := data])
    ensures bc.disk == old(bc.disk)[k := data] && bc.trace == old(bc.trace) + [bc.disk]
  {
    hide Coherent, IsRing, Permutation;
    bc.SetData(b, k, data);
    bc.Bwrite(b, k);
  }

  /** Two brelses in a row, of different buffers. */
  method BrelsePair(bc: Cache, x: nat, ghost l: nat, y: nat, ghost k: nat)
    requires bc.Valid() && bc.Holding(x, l) && bc.Holding(y, k) && l != k
    requires bc.a.refs[l] == 1 ==> bc.a.view[l] == bc.disk[l]
    requires bc.a.refs[k] == 1 ==> bc.a.view[k] == bc.disk[k]
    modifies bc`bufs, bc`a, bc`lru, bc`next, bc`prev
    ensures bc.Valid() && bc.a.view == old(bc.a.view) && bc.a.held == old(bc.a.held) - {l, k}
    ensures old(bc.a.refs[l]) > 0 && old(bc.a.refs[k]) > 0
    ensures bc.a.refs == old(bc.a.refs)[l := old(bc.a.refs[l]) - 1][k := old(bc.a.refs[k]) - 1]
  {
    hide Coherent, IsRing, Permutation;
    bc.Brelse(x, l);
    bc.Brelse(y, k);
  }

  lemma Restored(refs: map<nat, nat>, l: nat, k: nat)
    requires l in refs && k in refs && l != k
    ensures var r := refs[l := refs[l] + 1][k := refs[k] + 1];
            r[k] > 0 && r[l] > 0 && r[k := r[k] - 1][l := r[l] - 1] == refs && r[l := r[l] - 1][k := r[k] - 1] == refs
  {
  }

  /** log_write's search for the block: the first i that lists it, or n. */
  method FindBlock(block: seq<nat>, n: nat, k: nat) returns (i: nat)
    requires n < |block|
    ensures i <= n && (i < n ==> block[i] == k) && (i == n ==> k !in block[..n])
  {
    i := 0;
    while i < n
      invariant i <= n && k !in block[..i]
    {
      if block[i] == k {
        return;
      }
      i := i + 1;
    }
  }

  lemma LoggableAppend(d: Disk, p: Place, bs: seq<nat>, k: nat)
    requires Loggable(d, p, bs) && k in d && !p.Has(k) && k < U32MAX && k !in bs && |bs| < HEADMAX && |bs| + 1 < p.size
    ensures Loggable(d, p, bs + [k])
  {
  }

  lemma Regroup<T>(a: seq<T>, b: seq<T>, c: seq<T>, d: seq<T>, e: seq<T>)
    ensures a + b + c + d + e == a + (b + c + d + e)
  {
  }

  lemma HeldBack(h: set<nat>, l: nat, k: nat)
    requires l !in h && k !in h
    ensures h + {l, k} - {l, k} == h && h + {l, k} - {k, l} == h
  {
  }

  lemma RestoredLess(refs: map<nat, nat>, l: nat, k: nat)
    requires l in refs && k in refs && l != k && refs[k] > 0
    ensures var r := refs[l := refs[l] + 1][k := refs[k] + 1][k := refs[k]];
            r[l] > 0 && r[l := r[l] - 1][k := r[k] - 1] == refs[k := refs[k] - 1]
  {
  }
}
