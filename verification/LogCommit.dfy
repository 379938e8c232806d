/** Facts about the sequence of disks that commit and recovery write. */
module LogCommit {
  import opened Blocks
  import opened LogDisk

  /** The disk after each of the first i log-block writes. */
  ghost function LogTrace(d: Disk, v: Disk, p: Place, bs: seq<nat>, i: nat): (t: seq<Disk>)
    requires Loggable(d, p, bs) && v.Keys == d.Keys && i <= |bs|
    ensures |t| == i && forall j :: 0 <= j < i ==> t[j] == LogPhase(d, v, p, bs, j + 1)
  {
    if i == 0 then [] else LogTrace(d, v, p, bs, i - 1) + [LogPhase(d, v, p, bs, i)]
  }

  /** The disk after each of the first i home-block writes. */
  ghost function InstallTrace(d: Disk, p: Place, bs: seq<nat>, i: nat): (t: seq<Disk>)
    requires Loggable(d, p, bs) && i <= |bs|
    ensures |t| == i && forall j :: 0 <= j < i ==> t[j] == Install(d, p, bs, j + 1)
  {
    if i == 0 then [] else InstallTrace(d, p, bs, i - 1) + [Install(d, p, bs, i)]
  }

  lemma LoggableKeys(d: Disk, e: Disk, p: Place, bs: seq<nat>)
    requires Loggable(d, p, bs) && e.Keys == d.Keys
    ensures Loggable(e, p, bs)
  {
  }

  lemma LoggableAt(d: Disk, p: Place, bs: seq<nat>, i: nat)
    requires Loggable(d, p, bs) && i < |bs|
    ensures bs[i] in d && !p.Has(bs[i]) && p.Has(p.start + i + 1) && p.start + i + 1 in d
  {
  }

  lemma LogPhaseStart(d: Disk, v: Disk, p: Place, bs: seq<nat>)
    requires Loggable(d, p, bs) && v.Keys == d.Keys
    ensures LogPhase(d, v, p, bs, 0) == d && LogTrace(d, v, p, bs, 0) == []
  {
  }

  lemma LogPhaseStep(d: Disk, v: Disk, p: Place, bs: seq<nat>, i: nat)
    requires Loggable(d, p, bs) && v.Keys == d.Keys && i < |bs|
    ensures LogPhase(d, v, p, bs, i + 1) == LogPhase(d, v, p, bs, i)[p.start + i + 1 := v[bs[i]]]
    ensures LogTrace(d, v, p, bs, i + 1) == LogTrace(d, v, p, bs, i) + [LogPhase(d, v, p, bs, i + 1)]
  {
  }

  lemma LogPhaseKeepsHome(d: Disk, v: Disk, p: Place, bs: seq<nat>, i: nat, k: nat)
    requires Loggable(d, p, bs) && v.Keys == d.Keys && i <= |bs| && k in d && !p.Has(k)
    ensures LogPhase(d, v, p, bs, i)[k] == d[k]
  {
    assert Home(LogPhase(d, v, p, bs, i), p)[k] == Home(d, p)[k];
  }

  lemma InstallStep(d: Disk, p: Place, bs: seq<nat>, i: nat)
    requires Loggable(d, p, bs) && i < |bs|
    ensures p.start + i + 1 in d
    ensures Install(d, p, bs, i + 1) == Install(d, p, bs, i)[bs[i] := d[p.start + i + 1]]
    ensures InstallTrace(d, p, bs, i + 1) == InstallTrace(d, p, bs, i) + [Install(d, p, bs, i + 1)]
  {
    assert p.Has(p.start + i + 1);
  }

  /** The disk when commit is done. */
  ghost function Finished(d: Disk, v: Disk, p: Place, bs: seq<nat>): Disk
    requires Loggable(d, p, bs) && v.Keys == d.Keys
  {
    LoggableKeys(d, Committed(d, v, p, bs), p, bs);
    Cleared(Install(Committed(d, v, p, bs), p, bs, |bs|), p)
  }

  /** The writes of commit are those of write_log, write_head, install_trans and write_head, in this order. */
  lemma CommitTraceSplit(d: Disk, v: Disk, p: Place, bs: seq<nat>)
    requires Loggable(d, p, bs) && v.Keys == d.Keys && bs != []
    ensures Loggable(Committed(d, v, p, bs), p, bs)
    ensures CommitTrace(d, v, p, bs) ==
      LogTrace(d, v, p, bs, |bs|) + [Committed(d, v, p, bs)]
      + InstallTrace(Committed(d, v, p, bs), p, bs, |bs|) + [Finished(d, v, p, bs)]
  {
    hide LogTrace, InstallTrace, LogPhase, Install, Loggable, Cleared, Updated, Home, Recovered, Committed;
    var n, c := |bs|, Committed(d, v, p, bs);
    CommittedOk(d, v, p, bs);
    var t := LogTrace(d, v, p, bs, n) + [c] + InstallTrace(c, p, bs, n) + [Finished(d, v, p, bs)];
    assert |t| == 2 * n + 2;
    forall i | 0 <= i < 2 * n + 2 ensures t[i] == CommitAt(d, v, p, bs, i) {
      if i < n {
        assert t[i] == LogTrace(d, v, p, bs, n)[i];
      } else if n < i < 2 * n + 1 {
        assert t[i] == InstallTrace(c, p, bs, n)[i - n - 1];
      }
    }
  }

  /** The writes of recovery are those of install_trans and write_head. */
  lemma RecoveryTraceSplit(d: Disk, p: Place)
    requires LogOk(d, p)
    ensures var bs := Listed(d[p.start]);
            RecoveryTrace(d, p) == InstallTrace(d, p, bs, |bs|) + [Cleared(Install(d, p, bs, |bs|), p)]
  {
    hide InstallTrace, Install, Loggable, Cleared, Word;
    var bs := Listed(d[p.start]);
    var t := InstallTrace(d, p, bs, |bs|) + [Cleared(Install(d, p, bs, |bs|), p)];
    forall i | 0 <= i < |bs| + 1 ensures t[i] == RecoveryAt(d, p, i) {
      if i < |bs| {
        assert t[i] == InstallTrace(d, p, bs, |bs|)[i];
      }
    }
  }

  lemma {:induction false} LogPhaseSame(d: Disk, v: Disk, p: Place, bs: seq<nat>, i: nat, k: nat)
    requires Loggable(d, p, bs) && Loggable(v, p, bs) && v.Keys == d.Keys && i <= |bs| && k in d && d[k] == v[k]
    ensures LogPhase(d, v, p, bs, i)[k] == LogPhase(v, v, p, bs, i)[k]
  {
    hide LogPhase, Loggable;
    if i == 0 {
      LogPhaseStart(d, v, p, bs);
      LogPhaseStart(v, v, p, bs);
    } else {
      LogPhaseSame(d, v, p, bs, i - 1, k);
      LogPhaseStep(d, v, p, bs, i - 1);
      LogPhaseStep(v, v, p, bs, i - 1);
    }
  }

  lemma FinishedHome(d: Disk, v: Disk, p: Place, bs: seq<nat>)
    requires Loggable(d, p, bs) && v.Keys == d.Keys
    ensures Home(Finished(d, v, p, bs), p) == Updated(d, v, p, bs)
    ensures LogOk(Finished(d, v, p, bs), p) && Listed(Finished(d, v, p, bs)[p.start]) == []
  {
    hide Loggable, Install, LogPhase;
    CommittedOk(d, v, p, bs);
    RecoveryRestarts([Committed(d, v, p, bs)], p);
  }

  lemma FinishedLog(d: Disk, v: Disk, p: Place, bs: seq<nat>, k: nat)
    requires Loggable(d, p, bs) && v.Keys == d.Keys && k in d && p.Has(k)
    ensures Finished(d, v, p, bs)[k] ==
      if k == p.start then Header(Header(d[p.start], bs), []) else LogPhase(d, v, p, bs, |bs|)[k]
  {
    LoggableKeys(d, Committed(d, v, p, bs), p, bs);
  }

  /** If before commit memory and disk differ on no log block, then after it they differ only where they
      differed before outside the transaction; and commit changes no home block's contents in memory. */
  lemma FinishedClean(d: Disk, v: Disk, p: Place, bs: seq<nat>, k: nat)
    requires Loggable(d, p, bs) && Loggable(v, p, bs) && v.Keys == d.Keys && k in d
    requires forall l :: l in d && p.Has(l) ==> v[l] == d[l]
    ensures !p.Has(k) ==> Finished(v, v, p, bs)[k] == v[k]
    ensures p.Has(k) || k in bs || v[k] == d[k] ==> Finished(v, v, p, bs)[k] == Finished(d, v, p, bs)[k]
  {
    hide Loggable, Finished, LogPhase, LogOk, Listed;
    if p.Has(k) {
      FinishedLog(d, v, p, bs, k);
      FinishedLog(v, v, p, bs, k);
      LogPhaseSame(d, v, p, bs, |bs|, k);
    } else {
      FinishedHome(d, v, p, bs);
      FinishedHome(v, v, p, bs);
      assert k in Updated(d, v, p, bs) && k in Updated(v, v, p, bs);
    }
  }

  lemma CommittedLog(d: Disk, v: Disk, p: Place, bs: seq<nat>)
    requires Loggable(d, p, bs) && Loggable(v, p, bs) && v.Keys == d.Keys && d[p.start] == v[p.start]
    ensures var c, cv := Committed(d, v, p, bs), Committed(v, v, p, bs);
            && c.Keys == d.Keys == cv.Keys && c[p.start] == cv[p.start]
            && forall l :: p.start < l <= p.start + |bs| ==> c[l] == cv[l]
  {
    hide LogPhase;
    var e, ev := LogPhase(d, v, p, bs, |bs|), LogPhase(v, v, p, bs, |bs|);
    forall l | p.start < l <= p.start + |bs| ensures e[l] == ev[l] {
      var j := l - p.start - 1;
      assert e[p.start + 1 + j] == v[bs[j]] && ev[p.start + 1 + j] == v[bs[j]];
    }
  }

  lemma FinishedBoth(d: Disk, v: Disk, p: Place, bs: seq<nat>)
    requires Loggable(d, p, bs) && Loggable(v, p, bs) && v.Keys == d.Keys
    requires forall l :: l in d && p.Has(l) ==> v[l] == d[l]
    ensures Finished(d, v, p, bs).Keys == d.Keys == Finished(v, v, p, bs).Keys
    ensures forall k :: k in d && (p.Has(k) || k in bs || v[k] == d[k]) ==>
            Finished(v, v, p, bs)[k] == Finished(d, v, p, bs)[k]
    ensures Home(Finished(v, v, p, bs), p) == Home(v, p)
    ensures LogOk(Finished(d, v, p, bs), p) && Listed(Finished(d, v, p, bs)[p.start]) == []
  {
    hide Finished, Loggable, LogOk, Listed, LogDisk.Updated;
    FinishedKeys(d, v, p, bs);
    FinishedKeys(v, v, p, bs);
    forall k | k in d
      ensures !p.Has(k) ==> Finished(v, v, p, bs)[k] == v[k]
      ensures p.Has(k) || k in bs || v[k] == d[k] ==> Finished(v, v, p, bs)[k] == Finished(d, v, p, bs)[k]
    {
      FinishedClean(d, v, p, bs, k);
    }
    FinishedHome(d, v, p, bs);
  }

  lemma FinishedKeys(d: Disk, v: Disk, p: Place, bs: seq<nat>)
    requires Loggable(d, p, bs) && v.Keys == d.Keys
    ensures Finished(d, v, p, bs).Keys == d.Keys
  {
    LoggableKeys(d, Committed(d, v, p, bs), p, bs);
  }
}
