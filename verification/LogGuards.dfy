/** When log_write's two guards can stop an operation that stays within its reservation. */
module LogGuards {
  import opened Blocks
  import opened LogDisk
  import opened LogRuns

  /** d has an empty log, and bs are distinct blocks outside it. */
  ghost predicate Material(c: Config, d: Disk, bs: seq<nat>) {
    && Clean(d, c.p) && c.logsize <= HEADMAX
    && (forall i :: 0 <= i < |bs| ==> bs[i] in d && !c.p.Has(bs[i]) && bs[i] < U32MAX)
    && (forall i, j :: 0 <= i < j < |bs| ==> bs[i] != bs[j])
  }

  ghost predicate Starts(c: Config, ss: seq<State>, steps: seq<Step>, d: Disk) {
    IsRun(c, ss, steps) && ss[0] == Initial(d)
  }

  function Last(ss: seq<State>): State
    requires |ss| > 0
  {
    ss[|ss| - 1]
  }

  lemma Extend(c: Config, ss: seq<State>, steps: seq<Step>, d: Disk, step: Step, s: State)
    requires Starts(c, ss, steps, d) && Next(c, Last(ss), step, s)
    ensures Starts(c, ss + [s], steps + [step], d)
  {
    hide Next;
    var ts, qs := ss + [s], steps + [step];
    forall i | 0 <= i < |qs| ensures Next(c, ts[i], qs[i], ts[i + 1]) {
      if i < |steps| {
        assert Next(c, ss[i], steps[i], ss[i + 1]);
      }
    }
  }

  /** Boot from a disk with an empty log. */
  lemma Booted(c: Config, d: Disk) returns (ss: seq<State>, steps: seq<Step>)
    requires Clean(d, c.p) && c.logsize <= HEADMAX
    ensures Starts(c, ss, steps, d)
    ensures Last(ss).phase == Idle && Last(ss).disk.Keys == d.Keys && Last(ss).lh == [] && Last(ss).ops == [] &&
            Last(ss).nextId == 0
  {
    hide Install, Cleared, Loggable;
    var s0 := Initial(d);
    ss, steps := [s0], [];
    var s1 := s0.(phase := Recovering(0), base := d);
    Extend(c, ss, steps, d, Boot, s1);
    ss, steps := ss + [s1], steps + [Boot];
    RecoveryKeys(d, c.p, 0);
    var s2 := s1.(disk := RecoveryTrace(d, c.p)[0], phase := Recovering(1));
    Extend(c, ss, steps, d, DiskWrite, s2);
    ss, steps := ss + [s2], steps + [DiskWrite];
    var s3 := s2.(phase := Idle, mem := s2.disk);
    Extend(c, ss, steps, d, Done, s3);
    ss, steps := ss + [s3], steps + [Done];
  }

  /** The log is collecting, and its header lists the first m blocks. */
  ghost predicate At(s: State, d: Disk, bs: seq<nat>, m: nat) {
    m <= |bs| && s.phase == Idle && s.disk.Keys == d.Keys && s.lh == bs[..m]
  }

  lemma NotListed(c: Config, d: Disk, bs: seq<nat>, m: nat)
    requires Material(c, d, bs) && m < |bs|
    ensures bs[m] !in bs[..m] && bs[..m] + [bs[m]] == bs[..m + 1]
  {
  }

  /** Operation j, with budget left, adds one entry. */
  lemma AddOne(c: Config, d: Disk, bs: seq<nat>, ss: seq<State>, steps: seq<Step>, m: nat, j: nat)
    returns (ss': seq<State>, steps': seq<Step>)
    requires Material(c, d, bs) && Starts(c, ss, steps, d) && m < |bs| && At(Last(ss), d, bs, m)
    requires m < c.logsize && m < c.p.size - 1 && j < |Last(ss).ops| && Last(ss).ops[j].appended < c.maxop
    ensures Starts(c, ss', steps', d) && At(Last(ss'), d, bs, m + 1)
    ensures Last(ss').ops == Charged(Last(ss).ops, j, true)
  {
    var s := Last(ss);
    var step := LogWrite(j, bs[m], ZeroBlock());
    NotListed(c, d, bs, m);
    var w := Write(s.ops[j].id, bs[m], ZeroBlock());
    var s' := s.(mem := s.mem[bs[m] := ZeroBlock()], lh := Absorb(s.lh, bs[m]), ops := Charged(s.ops, j, true),
                 issued := s.issued + [w], group := s.group + [w]);
    Extend(c, ss, steps, d, step, s');
    ss', steps' := ss + [s'], steps + [step];
  }

  lemma Start(c: Config, d: Disk, bs: seq<nat>, ss: seq<State>, steps: seq<Step>, m: nat)
    returns (ss': seq<State>, steps': seq<Step>)
    requires Starts(c, ss, steps, d) && At(Last(ss), d, bs, m) && m + (|Last(ss).ops| + 1) * c.maxop <= c.logsize
    ensures Starts(c, ss', steps', d) && At(Last(ss'), d, bs, m)
    ensures Last(ss').ops == Last(ss).ops + [Op(Last(ss).nextId, 0)]
  {
    var s := Last(ss);
    var s' := s.(ops := s.ops + [Op(s.nextId, 0)], nextId := s.nextId + 1);
    Extend(c, ss, steps, d, Begin, s');
    ss', steps' := ss + [s'], steps + [Begin];
  }

  /** While one operation stays idle, short ones of one entry each fill the header up to m. */
  lemma {:induction false} FillShort(c: Config, d: Disk, bs: seq<nat>, m: nat)
    returns (ss: seq<State>, steps: seq<Step>)
    requires Material(c, d, bs) && m <= |bs| && m < c.p.size && c.maxop >= 1 && m + 2 * c.maxop <= c.logsize
    ensures Starts(c, ss, steps, d) && At(Last(ss), d, bs, m) && |Last(ss).ops| == 1 && Last(ss).ops[0].appended == 0
  {
    if m == 0 {
      ss, steps := Booted(c, d);
      ss, steps := Start(c, d, bs, ss, steps, 0);
    } else {
      ss, steps := FillShort(c, d, bs, m - 1);
      ss, steps := Start(c, d, bs, ss, steps, m - 1);
      ss, steps := AddOne(c, d, bs, ss, steps, m - 1, 1);
      var s := Last(ss);
      var s' := s.(ops := s.ops[..1] + s.ops[2..], base := s.disk);
      Extend(c, ss, steps, d, End(1), s');
      ss, steps := ss + [s'], steps + [End(1)];
    }
  }

  /** From there two operations spend their whole budgets, one after the other. */
  lemma {:induction false} FillLong(c: Config, d: Disk, bs: seq<nat>, m: nat, r: nat)
    returns (ss: seq<State>, steps: seq<Step>)
    requires Material(c, d, bs) && c.maxop >= 1 && r + 2 * c.maxop == c.logsize && r <= m <= c.logsize && m <= |bs| &&
             m < c.p.size
    ensures Starts(c, ss, steps, d) && At(Last(ss), d, bs, m) && |Last(ss).ops| == 2
    ensures Last(ss).ops[0].appended + Last(ss).ops[1].appended == m - r
    ensures Last(ss).ops[0].appended == 0 || Last(ss).ops[1].appended == c.maxop
    ensures Last(ss).ops[0].appended <= c.maxop && Last(ss).ops[1].appended <= c.maxop
  {
    if m == r {
      ss, steps := FillShort(c, d, bs, r);
      ss, steps := Start(c, d, bs, ss, steps, r);
    } else {
      ss, steps := FillLong(c, d, bs, m - 1, r);
      var j := if Last(ss).ops[1].appended < c.maxop then 1 else 0;
      ss, steps := AddOne(c, d, bs, ss, steps, m - 1, j);
    }
  }

  /** Every header length the log has room for is reached by some run within budget, with an operation
      running that could add one more unless the length is LOGSIZE. */
  lemma Reach(c: Config, d: Disk, bs: seq<nat>, m: nat) returns (ss: seq<State>, steps: seq<Step>, j: nat)
    requires Material(c, d, bs) && c.maxop >= 1 && 2 * c.maxop <= c.logsize
    requires m <= c.logsize && m <= |bs| && m < c.p.size
    ensures Starts(c, ss, steps, d) && At(Last(ss), d, bs, m) && j < |Last(ss).ops|
    ensures m < c.logsize ==> Last(ss).ops[j].appended < c.maxop
  {
    if m + 2 * c.maxop <= c.logsize {
      ss, steps := FillShort(c, d, bs, m);
      j := 0;
    } else {
      ss, steps := FillLong(c, d, bs, m, c.logsize - 2 * c.maxop);
      j := if Last(ss).ops[1].appended < c.maxop then 1 else 0;
    }
  }

  /** Some run stops a within-budget operation at log_write's guards although it adds a new block. */
  ghost predicate AppendPanics(c: Config, d: Disk) {
    exists ss, steps, j: nat, k: nat ::
      && Starts(c, ss, steps, d) && Last(ss).phase.Idle? && j < |Last(ss).ops| && Last(ss).ops[j].appended < c.maxop
      && k in Last(ss).disk && k !in Last(ss).lh && !Fits(c, Last(ss).lh)
  }

  /** The reservation keeps every new entry clear of both guards exactly when the log area has more than
      LOGSIZE blocks. An image whose log has exactly LOGSIZE blocks does not meet this. */
  lemma AppendGuardExact(c: Config, d: Disk, bs: seq<nat>)
    requires Material(c, d, bs) && c.maxop >= 1 && 2 * c.maxop <= c.logsize && |bs| >= c.p.size
    ensures AppendPanics(c, d) <==> c.p.size <= c.logsize
  {
    if AppendPanics(c, d) {
      var ss, steps, j: nat, k: nat :|
        && Starts(c, ss, steps, d) && Last(ss).phase.Idle? && j < |Last(ss).ops| && Last(ss).ops[j].appended < c.maxop
        && k in Last(ss).disk && k !in Last(ss).lh && !Fits(c, Last(ss).lh);
      AppendsFitLogsize(c, ss, steps, d, |ss| - 1, j);
    }
    if c.p.size <= c.logsize {
      var m := c.p.size - 1;
      var ss, steps, j := Reach(c, d, bs, m);
      NotListed(c, d, bs, m);
      assert bs[m] in Last(ss).disk;
    }
  }

  /** Absorption does not help at the limit: some run stops an operation that only rewrites a listed block. */
  lemma AbsorbCanPanic(c: Config, d: Disk, bs: seq<nat>) returns (ss: seq<State>, steps: seq<Step>, j: nat)
    requires Material(c, d, bs) && c.maxop >= 1 && 2 * c.maxop <= c.logsize && |bs| >= c.logsize && c.p.size >= 2
    ensures Starts(c, ss, steps, d) && j < |Last(ss).ops| && Last(ss).phase.Idle? && bs[0] in Last(ss).lh
    ensures !Fits(c, Last(ss).lh)
  {
    var m := if c.logsize < c.p.size then c.logsize else c.p.size - 1;
    ss, steps, j := Reach(c, d, bs, m);
    assert bs[..m][0] == bs[0];
  }
}
