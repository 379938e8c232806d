/** The redo log as it lies on disk: its header, what recovery makes of it, and why a crash anywhere is safe. */
module LogDisk {
  import opened Blocks

  const HEADMAX: nat := BSIZE / 4 - 1   // block numbers that fit in a header block beside the count

  /** Where the log is: header block at start, log blocks start + 1, ..., start + size - 1. */
  datatype Place = Place(start: nat, size: nat) {
    predicate Has(k: nat) {
      start <= k < start + size
    }
  }

  // ------------------------------------------------------------- the header

  /** The block numbers a header block lists. */
  function Listed(h: Block): seq<nat>
    requires Word(h, 0) <= HEADMAX
  {
    seq(Word(h, 0), i requires 0 <= i < Word(h, 0) => Word(h, i + 1))
  }

  /** The loop of write_head: store bs[..m] over the block numbers in h. */
  function Stored(h: Block, bs: seq<nat>, m: nat): Block
    requires m <= |bs| <= HEADMAX && forall i :: 0 <= i < |bs| ==> bs[i] < U32MAX
  {
    if m == 0 then h else PutWord(Stored(h, bs, m - 1), m, bs[m - 1])
  }

  /** The header block write_head leaves: the count, then the numbers; later words keep what they held. */
  function Header(h: Block, bs: seq<nat>): Block
    requires |bs| <= HEADMAX && forall i :: 0 <= i < |bs| ==> bs[i] < U32MAX
  {
    Stored(PutWord(h, 0, |bs|), bs, |bs|)
  }

  lemma {:induction false} StoredWord(h: Block, bs: seq<nat>, m: nat, w: nat)
    requires m <= |bs| <= HEADMAX && w <= HEADMAX && forall i :: 0 <= i < |bs| ==> bs[i] < U32MAX
    ensures Word(Stored(h, bs, m), w) == if 1 <= w <= m then bs[w - 1] else Word(h, w)
  {
    if m > 0 {
      StoredWord(h, bs, m - 1, w);
      PutWordReadsBack(Stored(h, bs, m - 1), m, bs[m - 1], w);
    }
  }

  /** A header reads back as the list it was written from. */
  lemma HeaderReadsBack(h: Block, bs: seq<nat>)
    requires |bs| <= HEADMAX && forall i :: 0 <= i < |bs| ==> bs[i] < U32MAX
    ensures Word(Header(h, bs), 0) == |bs| && Listed(Header(h, bs)) == bs
  {
    var p := PutWord(h, 0, |bs|);
    PutWordReadsBack(h, 0, |bs|, 0);
    StoredWord(p, bs, |bs|, 0);
    forall i | 0 <= i < |bs| ensures Word(Header(h, bs), i + 1) == bs[i] {
      StoredWord(p, bs, |bs|, i + 1);
    }
  }

  // ------------------------------------------------- the log and its meaning

  /** bs are distinct home blocks of disk d that fit in the log. */
  ghost predicate Loggable(d: Disk, p: Place, bs: seq<nat>) {
    && |bs| <= HEADMAX && |bs| < p.size
    && (forall k :: p.start <= k < p.start + p.size ==> k in d)
    && (forall i :: 0 <= i < |bs| ==> bs[i] in d && !p.Has(bs[i]) && bs[i] < U32MAX)
    && (forall i, j :: 0 <= i < j < |bs| ==> bs[i] != bs[j])
  }

  /** The header on disk lists loggable blocks. */
  ghost predicate LogOk(d: Disk, p: Place) {
    p.start in d && Word(d[p.start], 0) <= HEADMAX && Loggable(d, p, Listed(d[p.start]))
  }

  /** The blocks outside the log. */
  ghost function Home(d: Disk, p: Place): Disk {
    map k | k in d && !p.Has(k) :: d[k]
  }

  /** The disk after install_trans has copied the first i log blocks home. */
  ghost function Install(d: Disk, p: Place, bs: seq<nat>, i: nat): (e: Disk)
    requires Loggable(d, p, bs) && i <= |bs|
    ensures e.Keys == d.Keys && (forall k :: k in d && p.Has(k) ==> e[k] == d[k])
  {
    if i == 0 then d else
      var e := Install(d, p, bs, i - 1);
      e[bs[i - 1] := e[p.start + i]]
  }

  /** What the file system will find on its blocks once recovery has run: the log's meaning. */
  ghost function Recovered(d: Disk, p: Place): Disk
    requires LogOk(d, p)
  {
    var bs := Listed(d[p.start]);
    Home(Install(d, p, bs, |bs|), p)
  }

  lemma {:induction false} InstallMiss(d: Disk, p: Place, bs: seq<nat>, i: nat, k: nat)
    requires Loggable(d, p, bs) && i <= |bs| && k in d && !p.Has(k) && k !in bs[..i]
    ensures Install(d, p, bs, i)[k] == d[k]
  {
    if i > 0 {
      assert bs[..i] == bs[..i - 1] + [bs[i - 1]];
      InstallMiss(d, p, bs, i - 1, k);
    }
  }

  lemma {:induction false} InstallHit(d: Disk, p: Place, bs: seq<nat>, i: nat, j: nat)
    requires Loggable(d, p, bs) && j < i <= |bs|
    ensures Install(d, p, bs, i)[bs[j]] == d[p.start + 1 + j]
  {
    assert p.Has(p.start + i);
    if j < i - 1 {
      InstallHit(d, p, bs, i - 1, j);
    }
  }

  /** Copying a prefix home and then the whole log home again is copying the whole log home. */
  lemma InstallAgain(d: Disk, p: Place, bs: seq<nat>, i: nat)
    requires Loggable(d, p, bs) && i <= |bs|
    ensures Loggable(Install(d, p, bs, i), p, bs)
    ensures Install(Install(d, p, bs, i), p, bs, |bs|) == Install(d, p, bs, |bs|)
  {
    var e := Install(d, p, bs, i);
    var f, g := Install(e, p, bs, |bs|), Install(d, p, bs, |bs|);
    forall k | k in d ensures f[k] == g[k] {
      if k in bs {
        var j :| 0 <= j < |bs| && bs[j] == k;
        InstallHit(e, p, bs, |bs|, j);
        InstallHit(d, p, bs, |bs|, j);
        assert p.Has(p.start + 1 + j);
      } else if !p.Has(k) {
        InstallMiss(d, p, bs, i, k);
        InstallMiss(e, p, bs, |bs|, k);
        InstallMiss(d, p, bs, |bs|, k);
      }
    }
  }

  // ---------------------------------------------------------------- recovery

  /** The disk after write number i of recover_from_log: a block copied home, or at last the header cleared. */
  ghost function RecoveryAt(d: Disk, p: Place, i: nat): Disk
    requires LogOk(d, p) && i <= |Listed(d[p.start])|
  {
    var bs := Listed(d[p.start]);
    if i < |bs| then Install(d, p, bs, i + 1) else Cleared(Install(d, p, bs, |bs|), p)
  }

  /** The disk after each single-block write of recover_from_log, in order. */
  ghost function RecoveryTrace(d: Disk, p: Place): (t: seq<Disk>)
    requires LogOk(d, p)
    ensures |t| == |Listed(d[p.start])| + 1
    ensures forall i :: 0 <= i < |t| ==> t[i] == RecoveryAt(d, p, i)
  {
    var n := |Listed(d[p.start])| + 1;
    seq(n, i requires 0 <= i < n => RecoveryAt(d, p, i))
  }

  /** The header rewritten with an empty list. */
  ghost function Cleared(d: Disk, p: Place): Disk
    requires p.start in d
  {
    d[p.start := Header(d[p.start], [])]
  }

  lemma ClearedMeansHome(d: Disk, p: Place)
    requires p.start in d && p.size > 0 && forall k :: p.start <= k < p.start + p.size ==> k in d
    ensures LogOk(Cleared(d, p), p) && Listed(Cleared(d, p)[p.start]) == [] && Recovered(Cleared(d, p), p) == Home(d, p)
  {
    HeaderReadsBack(d[p.start], []);
    assert Home(Cleared(d, p), p) == Home(d, p);
  }

  lemma InstalledMeansSame(d: Disk, p: Place, i: nat)
    requires LogOk(d, p) && i <= |Listed(d[p.start])|
    ensures LogOk(Install(d, p, Listed(d[p.start]), i), p)
    ensures Recovered(Install(d, p, Listed(d[p.start]), i), p) == Recovered(d, p)
  {
    hide Install, Home, Listed, Word;
    InstallAgain(d, p, Listed(d[p.start]), i);
    assert p.Has(p.start);
  }

  /** A crash after any write of recovery leaves a log that still means the same. */
  lemma RecoveryPointSafe(d: Disk, p: Place, i: nat)
    requires LogOk(d, p) && i <= |Listed(d[p.start])|
    ensures LogOk(RecoveryAt(d, p, i), p) && Recovered(RecoveryAt(d, p, i), p) == Recovered(d, p)
  {
    hide Install, Home, Listed, Word, Cleared;
    var bs := Listed(d[p.start]);
    if i < |bs| {
      InstalledMeansSame(d, p, i + 1);
    } else {
      ClearedMeansHome(Install(d, p, bs, |bs|), p);
    }
  }

  /** Each disk of the chain is where a recovery that started from the one before it crashed. */
  ghost predicate CrashChain(ds: seq<Disk>, p: Place) {
    |ds| > 1 ==>
      && CrashChain(ds[..|ds| - 1], p)
      && LogOk(ds[|ds| - 2], p) && ds[|ds| - 1] in RecoveryTrace(ds[|ds| - 2], p)
  }

  /** Recovery may crash and restart any number of times: when it at last finishes, the home blocks are
      what the first disk's log meant, and the log is empty. */
  lemma {:induction false} RecoveryRestarts(ds: seq<Disk>, p: Place)
    requires |ds| > 0 && LogOk(ds[0], p) && CrashChain(ds, p)
    ensures var last := ds[|ds| - 1];
            && LogOk(last, p) && Recovered(last, p) == Recovered(ds[0], p)
            && var done := RecoveryTrace(last, p)[|RecoveryTrace(last, p)| - 1];
               Home(done, p) == Recovered(ds[0], p) && LogOk(done, p) && Listed(done[p.start]) == []
  {
    var last := ds[|ds| - 1];
    if |ds| > 1 {
      var init := ds[..|ds| - 1];
      RecoveryRestarts(init, p);
      var i :| 0 <= i < |RecoveryTrace(ds[|ds| - 2], p)| && RecoveryTrace(ds[|ds| - 2], p)[i] == last;
      RecoveryPointSafe(ds[|ds| - 2], p, i);
    }
    var bs := Listed(last[p.start]);
    var e := Install(last, p, bs, |bs|);
    ClearedMeansHome(e, p);
    assert Home(Cleared(e, p), p) == Home(e, p);
  }

  // ------------------------------------------------------------------ commit

  /** The disk after write_log has copied the first i modified blocks, whose contents are in v, to the log. */
  ghost function LogPhase(d: Disk, v: Disk, p: Place, bs: seq<nat>, i: nat): (e: Disk)
    requires Loggable(d, p, bs) && v.Keys == d.Keys && i <= |bs|
    ensures e.Keys == d.Keys && e[p.start] == d[p.start] && Home(e, p) == Home(d, p)
    ensures forall j :: 0 <= j < i ==> e[p.start + 1 + j] == v[bs[j]]
  {
    if i == 0 then d else
      var e := LogPhase(d, v, p, bs, i - 1);
      assert Home(e[p.start + i := v[bs[i - 1]]], p) == Home(e, p);
      e[p.start + i := v[bs[i - 1]]]
  }

  /** The disk after the first write_head of commit. */
  ghost function Committed(d: Disk, v: Disk, p: Place, bs: seq<nat>): Disk
    requires Loggable(d, p, bs) && v.Keys == d.Keys
  {
    LogPhase(d, v, p, bs, |bs|)[p.start := Header(d[p.start], bs)]
  }

  /** The disk after write number i of commit: a log block, then the header, then as in recovery. */
  ghost function CommitAt(d: Disk, v: Disk, p: Place, bs: seq<nat>, i: nat): Disk
    requires Loggable(d, p, bs) && v.Keys == d.Keys && i < 2 * |bs| + 2
  {
    CommittedOk(d, v, p, bs);
    if i < |bs| then LogPhase(d, v, p, bs, i + 1)
    else if i == |bs| then Committed(d, v, p, bs)
    else RecoveryAt(Committed(d, v, p, bs), p, i - |bs| - 1)
  }

  /** The disk after each single-block write of commit, in order; an empty transaction writes nothing. */
  ghost function CommitTrace(d: Disk, v: Disk, p: Place, bs: seq<nat>): (t: seq<Disk>)
    requires Loggable(d, p, bs) && v.Keys == d.Keys
    ensures |t| == if bs == [] then 0 else 2 * |bs| + 2
    ensures forall i :: 0 <= i < |t| ==> t[i] == CommitAt(d, v, p, bs, i)
  {
    var n := if bs == [] then 0 else 2 * |bs| + 2;
    seq(n, i requires 0 <= i < n => CommitAt(d, v, p, bs, i))
  }

  /** The home blocks with the transaction's blocks replaced by their new contents. */
  ghost function Updated(d: Disk, v: Disk, p: Place, bs: seq<nat>): Disk
    requires v.Keys == d.Keys
  {
    map k | k in d && !p.Has(k) :: if k in bs then v[k] else d[k]
  }

  /** Once the header is written, the log means the new contents. */
  lemma CommittedOk(d: Disk, v: Disk, p: Place, bs: seq<nat>)
    requires Loggable(d, p, bs) && v.Keys == d.Keys
    ensures LogOk(Committed(d, v, p, bs), p) && Listed(Committed(d, v, p, bs)[p.start]) == bs
    ensures Recovered(Committed(d, v, p, bs), p) == Updated(d, v, p, bs)
  {
    HeaderReadsBack(d[p.start], bs);
    var r, u := Recovered(Committed(d, v, p, bs), p), Updated(d, v, p, bs);
    forall k | k in d && !p.Has(k) ensures r[k] == u[k] {
      if k in bs {
        var j :| 0 <= j < |bs| && bs[j] == k;
        CommittedHit(d, v, p, bs, j);
      } else {
        CommittedMiss(d, v, p, bs, k);
      }
    }
  }

  lemma CommittedHit(d: Disk, v: Disk, p: Place, bs: seq<nat>, j: nat)
    requires Loggable(d, p, bs) && v.Keys == d.Keys && j < |bs|
    requires Loggable(Committed(d, v, p, bs), p, bs)
    ensures Install(Committed(d, v, p, bs), p, bs, |bs|)[bs[j]] == v[bs[j]]
  {
    hide Install;
    assert LogPhase(d, v, p, bs, |bs|)[p.start + 1 + j] == v[bs[j]];
    hide *;
    InstallHit(Committed(d, v, p, bs), p, bs, |bs|, j);
  }

  lemma CommittedMiss(d: Disk, v: Disk, p: Place, bs: seq<nat>, k: nat)
    requires Loggable(d, p, bs) && v.Keys == d.Keys && k in d && !p.Has(k) && k !in bs
    requires Loggable(Committed(d, v, p, bs), p, bs)
    ensures Install(Committed(d, v, p, bs), p, bs, |bs|)[k] == d[k]
  {
    hide Install;
    assert Home(LogPhase(d, v, p, bs, |bs|), p)[k] == Home(d, p)[k];
    InstallMiss(Committed(d, v, p, bs), p, bs, |bs|, k);
  }

  lemma LogPhaseMeansOld(d: Disk, v: Disk, p: Place, bs: seq<nat>, i: nat)
    requires Loggable(d, p, bs) && v.Keys == d.Keys && LogOk(d, p) && Listed(d[p.start]) == [] && i <= |bs|
    ensures LogOk(LogPhase(d, v, p, bs, i), p) && Recovered(LogPhase(d, v, p, bs, i), p) == Home(d, p)
  {
  }

  /** Crash atomicity of commit. At every crash point the log means either the old home blocks or the new
      ones; new exactly from the first write of the header on; and blocks outside the transaction never change. */
  lemma CommitAtomic(d: Disk, v: Disk, p: Place, bs: seq<nat>, i: nat)
    requires Loggable(d, p, bs) && v.Keys == d.Keys && LogOk(d, p) && Listed(d[p.start]) == []
    requires i < |CommitTrace(d, v, p, bs)|
    ensures var e := CommitTrace(d, v, p, bs)[i];
            LogOk(e, p) && Recovered(e, p) == if i < |bs| then Home(d, p) else Updated(d, v, p, bs)
  {
    hide Install, LogPhase, Home, Updated, Recovered, Committed;
    assert CommitTrace(d, v, p, bs)[i] == CommitAt(d, v, p, bs, i);
    CommittedOk(d, v, p, bs);
    if i < |bs| {
      LogPhaseMeansOld(d, v, p, bs, i + 1);
    } else if i > |bs| {
      RecoveryPointSafe(Committed(d, v, p, bs), p, i - |bs| - 1);
    }
  }

  /** After the last write of commit the new contents are home and the log is empty again. */
  lemma CommitCompletes(d: Disk, v: Disk, p: Place, bs: seq<nat>)
    requires Loggable(d, p, bs) && v.Keys == d.Keys && LogOk(d, p) && bs != []
    ensures var t := CommitTrace(d, v, p, bs);
            var done := t[|t| - 1];
            Home(done, p) == Updated(d, v, p, bs) && LogOk(done, p) && Listed(done[p.start]) == []
  {
    var c := Committed(d, v, p, bs);
    CommittedOk(d, v, p, bs);
    RecoveryRestarts([c], p);
  }
}
