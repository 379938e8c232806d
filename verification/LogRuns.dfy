/** Every run of the logging layer: any interleaving of begin_op, log_write and end_op by any number of
    operations, with a crash between any two disk writes and any number of reboots. */
module LogRuns {
  import opened Blocks
  import opened LogDisk

  /** The log's place on disk, LOGSIZE and MAXOPBLOCKS. */
  datatype Config = Config(p: Place, logsize: nat, maxop: nat)

  /** A running operation and how many new header entries it has added. */
  datatype Op = Op(id: nat, appended: nat)

  /** Operation op stored data in a block and log_wrote it. */
  datatype Write = Write(op: nat, block: nat, data: Block)

  /** What the log is doing: a commit or a recovery has made i of its disk writes. */
  datatype Phase = Idle | Committing(i: nat) | Down | Recovering(i: nat)

  datatype State = State(
    disk: Disk,
    mem: Disk,                 // block contents as the cache shows them
    lh: seq<nat>,              // log.lh
    ops: seq<Op>,              // outstanding operations
    phase: Phase,
    base: Disk,                // the disk when the commit or recovery began
    nextId: nat,
    // history
    issued: seq<Write>,        // every write ever made, also those a crash lost
    group: seq<Write>,         // the writes of the group being collected
    groups: seq<seq<Write>>)   // the groups whose header reached the disk

  datatype Step =
    | Begin
    | LogWrite(j: nat, k: nat, data: Block)
    | End(j: nat)
    | DiskWrite
    | Done
    | Crash
    | Boot

  function Absorb(lh: seq<nat>, k: nat): seq<nat> {
    if k in lh then lh else lh + [k]
  }

  function Charged(ops: seq<Op>, j: nat, added: bool): seq<Op>
    requires j < |ops|
  {
    if added then ops[j := ops[j].(appended := ops[j].appended + 1)] else ops
  }

  /** The two guards of log_write. */
  predicate Fits(c: Config, lh: seq<nat>) {
    |lh| < c.logsize && |lh| < c.p.size - 1
  }

  /** One disk write of a commit or of a recovery. */
  ghost predicate WriteStep(c: Config, s: State, s': State) {
    match s.phase
    case Committing(i) =>
      && Loggable(s.base, c.p, s.lh) && s.mem.Keys == s.base.Keys && i < |CommitTrace(s.base, s.mem, c.p, s.lh)|
      && s' == s.(disk := CommitTrace(s.base, s.mem, c.p, s.lh)[i], phase := Committing(i + 1),
                  groups := if i == |s.lh| then s.groups + [s.group] else s.groups,
                  group := if i == |s.lh| then [] else s.group)
    case Recovering(i) =>
      && LogOk(s.base, c.p) && i < |RecoveryTrace(s.base, c.p)|
      && s' == s.(disk := RecoveryTrace(s.base, c.p)[i], phase := Recovering(i + 1))
    case _ => false
  }

  /** A commit or a recovery has made all its writes. */
  ghost predicate DoneStep(c: Config, s: State, s': State) {
    match s.phase
    case Committing(i) =>
      && Loggable(s.base, c.p, s.lh) && s.mem.Keys == s.base.Keys && i == |CommitTrace(s.base, s.mem, c.p, s.lh)|
      && s' == s.(phase := Idle, lh := [])
    case Recovering(i) =>
      && LogOk(s.base, c.p) && i == |RecoveryTrace(s.base, c.p)|
      && s' == s.(phase := Idle, mem := s.disk)
    case _ => false
  }

  ghost predicate Next(c: Config, s: State, step: Step, s': State) {
    match step
    case Begin =>
      && s.phase.Idle? && |s.lh| + (|s.ops| + 1) * c.maxop <= c.logsize
      && s' == s.(ops := s.ops + [Op(s.nextId, 0)], nextId := s.nextId + 1)
    case LogWrite(j, k, data) =>
      && s.phase.Idle? && j < |s.ops| && k in s.disk && !c.p.Has(k) && k < U32MAX
      && (k in s.lh || s.ops[j].appended < c.maxop)       // an operation adds at most MAXOPBLOCKS entries
      && Fits(c, s.lh)                                    // otherwise log_write panics
      && var w := Write(s.ops[j].id, k, data);
         s' == s.(mem := s.mem[k := data], lh := Absorb(s.lh, k), ops := Charged(s.ops, j, k !in s.lh),
                  issued := s.issued + [w], group := s.group + [w])
    case End(j) =>
      && s.phase.Idle? && j < |s.ops|
      && s' == s.(ops := s.ops[..j] + s.ops[j + 1..],
                  phase := if |s.ops| == 1 then Committing(0) else Idle, base := s.disk)
    case DiskWrite => WriteStep(c, s, s')
    case Done => DoneStep(c, s, s')
    case Crash =>
      s' == s.(phase := Down, mem := s.disk, lh := [], ops := [], group := [])
    case Boot =>
      s.phase.Down? && s' == s.(phase := Recovering(0), base := s.disk)
  }

  /** The state of a machine about to boot from disk d. */
  function Initial(d: Disk): State {
    State(d, d, [], [], Down, d, 0, [], [], [])
  }

  ghost predicate IsRun(c: Config, ss: seq<State>, steps: seq<Step>) {
    && |ss| == |steps| + 1
    && forall i :: 0 <= i < |steps| ==> Next(c, ss[i], steps[i], ss[i + 1])
  }

  // --------------------------------------------------- what a run should mean

  /** The home blocks after a sequence of writes. */
  function Apply(h: Disk, ws: seq<Write>): Disk {
    if ws == [] then h else
      var w := ws[|ws| - 1];
      Apply(h, ws[..|ws| - 1])[w.block := w.data]
  }

  /** The home blocks after whole groups of operations. */
  function ApplyGroups(h: Disk, gs: seq<seq<Write>>): Disk {
    if gs == [] then h else Apply(ApplyGroups(h, gs[..|gs| - 1]), gs[|gs| - 1])
  }

  /** The writes that operation id made. */
  function Of(ws: seq<Write>, id: nat): seq<Write> {
    if ws == [] then [] else
      var w := ws[|ws| - 1];
      Of(ws[..|ws| - 1], id) + if w.op == id then [w] else []
  }

  // ---------------------------------------------------------- the reservation

  /** Entries the outstanding operations may still add. */
  function Unspent(c: Config, ops: seq<Op>): int {
    if ops == [] then 0 else Unspent(c, ops[..|ops| - 1]) + c.maxop - ops[|ops| - 1].appended
  }

  ghost predicate Reserved(c: Config, s: State) {
    && (forall j :: 0 <= j < |s.ops| ==> s.ops[j].appended <= c.maxop)
    && |s.lh| + Unspent(c, s.ops) <= c.logsize
  }

  lemma {:induction false} UnspentBounds(c: Config, ops: seq<Op>)
    requires forall j :: 0 <= j < |ops| ==> ops[j].appended <= c.maxop
    ensures 0 <= Unspent(c, ops) <= |ops| * c.maxop
    ensures forall j :: 0 <= j < |ops| ==> c.maxop - ops[j].appended <= Unspent(c, ops)
  {
    if ops != [] {
      UnspentBounds(c, ops[..|ops| - 1]);
      assert |ops| * c.maxop == (|ops| - 1) * c.maxop + c.maxop;
      forall j | 0 <= j < |ops| ensures c.maxop - ops[j].appended <= Unspent(c, ops) {
        if j < |ops| - 1 {
          assert ops[..|ops| - 1][j] == ops[j];
        }
      }
    }
  }

  lemma {:induction false} UnspentCharged(c: Config, ops: seq<Op>, j: nat)
    requires j < |ops|
    ensures Unspent(c, Charged(ops, j, true)) == Unspent(c, ops) - 1
  {
    var ops' := Charged(ops, j, true);
    if j == |ops| - 1 {
      assert ops'[..|ops| - 1] == ops[..|ops| - 1];
    } else {
      assert ops'[..|ops| - 1] == Charged(ops[..|ops| - 1], j, true);
      UnspentCharged(c, ops[..|ops| - 1], j);
    }
  }

  lemma {:induction false} UnspentRemoved(c: Config, ops: seq<Op>, j: nat)
    requires j < |ops|
    ensures Unspent(c, ops[..j] + ops[j + 1..]) == Unspent(c, ops) - (c.maxop - ops[j].appended)
  {
    var ops' := ops[..j] + ops[j + 1..];
    if j == |ops| - 1 {
      assert ops' == ops[..|ops| - 1];
    } else {
      var init := ops[..|ops| - 1];
      assert ops'[..|ops'| - 1] == init[..j] + init[j + 1..];
      UnspentRemoved(c, init, j);
    }
  }

  /** No step breaks the reservation: entries used plus entries still promised never exceed LOGSIZE. */
  lemma ReservedKept(c: Config, s: State, step: Step, s': State)
    requires Reserved(c, s) && Next(c, s, step, s')
    ensures Reserved(c, s')
  {
    hide WriteStep, DoneStep;
    match step
    case Begin => ReservedBegin(c, s, s');
    case LogWrite(j, k, data) =>
      UnspentCharged(c, s.ops, j);
    case End(j) =>
      UnspentRemoved(c, s.ops, j);
    case DiskWrite => WriteHistory(c, s, s');
    case Done => DoneHistory(c, s, s');
    case Crash => UnspentBounds(c, s.ops);
    case Boot =>
  }

  lemma ReservedBegin(c: Config, s: State, s': State)
    requires Reserved(c, s) && Next(c, s, Begin, s')
    ensures Reserved(c, s')
  {
    UnspentBounds(c, s.ops);
    assert s'.ops[..|s'.ops| - 1] == s.ops;
    assert (|s.ops| + 1) * c.maxop == |s.ops| * c.maxop + c.maxop;
  }

  lemma WriteHistory(c: Config, s: State, s': State)
    requires WriteStep(c, s, s')
    ensures s'.issued == s.issued && s'.nextId == s.nextId && s'.ops == s.ops &&
            s'.phase.Committing? == s.phase.Committing?
    ensures s'.lh == s.lh
    ensures (s'.groups == s.groups && s'.group == s.group) ||
            (s.phase.Committing? && s'.groups == s.groups + [s.group] && s'.group == [])
  {
  }

  lemma DoneHistory(c: Config, s: State, s': State)
    requires DoneStep(c, s, s')
    ensures s'.ops == s.ops && |s'.lh| <= |s.lh|
  {
  }

  // --------------------------------------------------------- whole operations

  /** All of operation id's writes, and no committed group, are in the open group. */
  ghost predicate Open(s: State, id: nat) {
    Of(s.issued, id) == Of(s.group, id) && forall g :: 0 <= g < |s.groups| ==> Of(s.groups[g], id) == []
  }

  /** No operation is split: a group holds all writes its operations ever made, and shares none of them. */
  ghost predicate Whole(s: State) {
    && (forall j :: 0 <= j < |s.ops| ==> s.ops[j].id < s.nextId && Open(s, s.ops[j].id))
    && (forall id :: Of(s.group, id) != [] ==> Open(s, id))
    && (forall g, id :: 0 <= g < |s.groups| && Of(s.groups[g], id) != [] ==> Of(s.issued, id) == Of(s.groups[g], id))
    && (forall g, h, id :: 0 <= g < h < |s.groups| && Of(s.groups[g], id) != [] ==> Of(s.groups[h], id) == [])
    && (forall id :: id >= s.nextId ==> Of(s.issued, id) == [] && Open(s, id))
    && (s.phase.Committing? ==> s.ops == [])
  }

  lemma OfAppend(ws: seq<Write>, w: Write, id: nat)
    ensures Of(ws + [w], id) == Of(ws, id) + if w.op == id then [w] else []
  {
    assert (ws + [w])[..|ws|] == ws;
  }

  lemma WholeLogWrite(c: Config, s: State, j: nat, k: nat, data: Block, s': State)
    requires Whole(s) && Next(c, s, LogWrite(j, k, data), s')
    ensures Whole(s')
  {
    var w := Write(s.ops[j].id, k, data);
    forall id ensures Of(s'.issued, id) == Of(s.issued, id) + (if w.op == id then [w] else [])
              ensures Of(s'.group, id) == Of(s.group, id) + (if w.op == id then [w] else [])
    {
      OfAppend(s.issued, w, id);
      OfAppend(s.group, w, id);
    }
    assert Open(s, s.ops[j].id);
    forall id | Open(s, id) ensures Open(s', id) {}
    forall i | 0 <= i < |s'.ops| ensures s'.ops[i].id == s.ops[i].id {}
  }

  lemma WholeDiskWrite(c: Config, s: State, s': State)
    requires Whole(s) && Next(c, s, DiskWrite, s')
    ensures Whole(s')
  {
    hide WriteStep;
    WriteHistory(c, s, s');
    if s'.groups != s.groups {
      var n := |s.groups|;
      forall id, g | 0 <= g < n && Of(s.groups[g], id) != [] ensures Of(s.group, id) == [] {
        assert !Open(s, id);
      }
      forall id | id >= s.nextId ensures Open(s', id) {
        assert Open(s, id);
      }
    } else {
      forall id | Open(s, id) ensures Open(s', id) {}
    }
  }

  lemma WholeKept(c: Config, s: State, step: Step, s': State)
    requires Whole(s) && Next(c, s, step, s')
    ensures Whole(s')
  {
    match step
    case LogWrite(j, k, data) => WholeLogWrite(c, s, j, k, data, s');
    case DiskWrite => WholeDiskWrite(c, s, s');
    case Begin =>
      forall id | Open(s, id) ensures Open(s', id) {}
    case End(j) =>
      forall id | Open(s, id) ensures Open(s', id) {}
    case Done =>
      forall id | Open(s, id) ensures Open(s', id) {}
    case Crash =>
      forall id | Open(s, id) && Of(s.group, id) == [] ensures Open(s', id) {}
    case Boot =>
      forall id | Open(s, id) ensures Open(s', id) {}
  }

  // ------------------------------------------------------------- durability

  /** The blocks a sequence of writes touches. */
  function Touched(ws: seq<Write>): set<nat> {
    set i | 0 <= i < |ws| :: ws[i].block
  }

  lemma {:induction false} ApplyUntouched(h: Disk, ws: seq<Write>, k: nat)
    requires k !in Touched(ws)
    ensures k in Apply(h, ws) <==> k in h
    ensures k in h ==> Apply(h, ws)[k] == h[k]
  {
    if ws != [] {
      var init := ws[..|ws| - 1];
      assert forall i :: 0 <= i < |init| ==> init[i] == ws[i];
      assert ws[|ws| - 1].block in Touched(ws);
      forall x | x in Touched(init) ensures x in Touched(ws) {
        var i :| 0 <= i < |init| && init[i].block == x;
        assert ws[i].block == x;
      }
      ApplyUntouched(h, init, k);
    }
  }

  lemma TouchedNone(ws: seq<Write>)
    ensures Touched(ws) == {} ==> ws == []
  {
    if ws != [] {
      assert ws[0].block in Touched(ws);
    }
  }

  lemma ApplyAppend(h: Disk, ws: seq<Write>, w: Write)
    ensures Apply(h, ws + [w]) == Apply(h, ws)[w.block := w.data]
    ensures Touched(ws + [w]) == Touched(ws) + {w.block}
  {
    assert (ws + [w])[..|ws|] == ws;
    var vs := ws + [w];
    forall x | x in Touched(ws) + {w.block} ensures x in Touched(vs) {
      if x == w.block {
        assert vs[|ws|].block == x;
      } else {
        var i :| 0 <= i < |ws| && ws[i].block == x;
        assert vs[i].block == x;
      }
    }
  }

  /** Memory holds the open group on top of base, and the header lists exactly the group's blocks. */
  ghost predicate Collected(c: Config, s: State, base: Disk, h0: Disk) {
    && Home(base, c.p) == ApplyGroups(h0, s.groups)
    && Home(s.mem, c.p) == Apply(Home(base, c.p), s.group)
    && Touched(s.group) == set k | k in s.lh
  }

  /** The header has been written: memory is what the committed log means. */
  ghost predicate Written(c: Config, s: State, h0: Disk)
    requires s.mem.Keys == s.base.Keys
  {
    && s.group == []
    && Updated(s.base, s.mem, c.p, s.lh) == ApplyGroups(h0, s.groups)
    && Home(s.mem, c.p) == ApplyGroups(h0, s.groups)
  }

  ghost predicate Clean(d: Disk, p: Place) {
    LogOk(d, p) && Listed(d[p.start]) == []
  }

  ghost predicate Durable(c: Config, s: State, h0: Disk) {
    && c.logsize <= HEADMAX && s.mem.Keys == s.disk.Keys == s.base.Keys
    && match s.phase
       case Idle => Clean(s.disk, c.p) && Loggable(s.disk, c.p, s.lh) && Collected(c, s, s.disk, h0)
       case Committing(i) =>
         && Clean(s.base, c.p) && Loggable(s.base, c.p, s.lh) && i <= |CommitTrace(s.base, s.mem, c.p, s.lh)|
         && s.disk == (if i == 0 then s.base else CommitTrace(s.base, s.mem, c.p, s.lh)[i - 1])
         && (if i <= |s.lh| then Collected(c, s, s.base, h0) else Written(c, s, h0))
       case Down =>
         LogOk(s.disk, c.p) && Recovered(s.disk, c.p) == ApplyGroups(h0, s.groups) && s.lh == [] && s.group == []
       case Recovering(i) =>
         && LogOk(s.base, c.p) && Recovered(s.base, c.p) == ApplyGroups(h0, s.groups) && s.lh == [] && s.group == []
         && i <= |RecoveryTrace(s.base, c.p)|
         && s.disk == (if i == 0 then s.base else RecoveryTrace(s.base, c.p)[i - 1])
  }

  /** In every phase, if the machine stopped now, recovery would find exactly the committed groups. */
  lemma DurableMeans(c: Config, s: State, h0: Disk)
    requires Durable(c, s, h0)
    ensures LogOk(s.disk, c.p) && Recovered(s.disk, c.p) == ApplyGroups(h0, s.groups)
  {
    hide CommitTrace, RecoveryTrace, Updated, Loggable, Apply, ApplyGroups, Install;
    match s.phase
    case Idle => CleanMeansHome(s.disk, c.p);
    case Committing(i) =>
      if i == 0 {
        CleanMeansHome(s.base, c.p);
      } else {
        CommitAtomic(s.base, s.mem, c.p, s.lh, i - 1);
      }
    case Down =>
    case Recovering(i) =>
      if i > 0 {
        RecoveryPointSafe(s.base, c.p, i - 1);
      }
  }

  lemma CleanMeansHome(d: Disk, p: Place)
    requires Clean(d, p)
    ensures Recovered(d, p) == Home(d, p)
  {
  }

  /** Once the header is written, the log means memory. */
  lemma CollectedUpdated(c: Config, s: State, h0: Disk)
    requires s.mem.Keys == s.base.Keys && Collected(c, s, s.base, h0)
    ensures Updated(s.base, s.mem, c.p, s.lh) == Home(s.mem, c.p) == ApplyGroups(h0, s.groups + [s.group])
  {
    var u, m := Updated(s.base, s.mem, c.p, s.lh), Home(s.mem, c.p);
    forall k | k in s.mem && !c.p.Has(k) ensures u[k] == m[k] {
      if k !in s.lh {
        ApplyUntouched(Home(s.base, c.p), s.group, k);
      }
    }
    assert (s.groups + [s.group])[..|s.groups|] == s.groups;
  }

  lemma DurableWrite(c: Config, s: State, s': State, h0: Disk)
    requires Durable(c, s, h0) && WriteStep(c, s, s')
    ensures Durable(c, s', h0)
  {
    hide Apply, ApplyGroups, Updated, Home, Recovered, Install, Loggable, LogOk, Listed, CommitTrace, RecoveryTrace;
    match s.phase
    case Committing(i) =>
      CommitKeys(s.base, s.mem, c.p, s.lh, i);
      if i == |s.lh| {
        CollectedUpdated(c, s, h0);
      }
    case Recovering(i) =>
      RecoveryKeys(s.base, c.p, i);
  }

  lemma CommitKeys(d: Disk, v: Disk, p: Place, bs: seq<nat>, i: nat)
    requires Loggable(d, p, bs) && v.Keys == d.Keys && i < |CommitTrace(d, v, p, bs)|
    ensures CommitTrace(d, v, p, bs)[i].Keys == d.Keys
  {
    assert CommitTrace(d, v, p, bs)[i] == CommitAt(d, v, p, bs, i);
    CommittedOk(d, v, p, bs);
  }

  lemma RecoveryKeys(d: Disk, p: Place, i: nat)
    requires LogOk(d, p) && i < |RecoveryTrace(d, p)|
    ensures RecoveryTrace(d, p)[i].Keys == d.Keys
  {
    assert RecoveryTrace(d, p)[i] == RecoveryAt(d, p, i);
  }

  lemma DurableDone(c: Config, s: State, s': State, h0: Disk)
    requires Durable(c, s, h0) && DoneStep(c, s, s')
    ensures Durable(c, s', h0)
  {
    hide CommitTrace, RecoveryTrace, Install, Updated;
    match s.phase
    case Committing(i) =>
      if s.lh != [] {
        CommitCompletes(s.base, s.mem, c.p, s.lh);
        CommitAtomic(s.base, s.mem, c.p, s.lh, i - 1);
        CleanMeansHome(s.disk, c.p);
      } else {
        TouchedNone(s.group);
      }
    case Recovering(i) =>
      RecoveryPointSafe(s.base, c.p, i - 1);
      RecoveryRestarts([s.base], c.p);
  }

  lemma DurableLogWrite(c: Config, s: State, j: nat, k: nat, data: Block, s': State, h0: Disk)
    requires Durable(c, s, h0) && Next(c, s, LogWrite(j, k, data), s')
    ensures Durable(c, s', h0)
  {
    hide LogOk, Listed, ApplyGroups;
    var w := Write(s.ops[j].id, k, data);
    ApplyAppend(Home(s.disk, c.p), s.group, w);
    assert Home(s'.mem, c.p) == Home(s.mem, c.p)[k := data];
    assert Loggable(s'.disk, c.p, s'.lh);
  }

  lemma DurableKept(c: Config, s: State, step: Step, s': State, h0: Disk)
    requires Durable(c, s, h0) && Next(c, s, step, s') && (s.phase.Committing? ==> s.ops == [])
    ensures Durable(c, s', h0)
  {
    match step
    case DiskWrite => DurableWrite(c, s, s', h0);
    case Done => DurableDone(c, s, s', h0);
    case LogWrite(j, k, data) => DurableLogWrite(c, s, j, k, data, s', h0);
    case Crash => DurableMeans(c, s, h0);
    case Begin =>
    case End(j) =>
    case Boot =>
  }

  // -------------------------------------------------------------- whole runs

  ghost predicate Inv(c: Config, s: State, h0: Disk) {
    Durable(c, s, h0) && Whole(s) && Reserved(c, s)
  }

  lemma InvStart(c: Config, d: Disk)
    requires LogOk(d, c.p) && c.logsize <= HEADMAX
    ensures Inv(c, Initial(d), Recovered(d, c.p))
  {
    hide LogOk, Recovered;
    var s := Initial(d);
    forall id ensures Open(s, id) {}
  }

  /** Every state of every run satisfies the invariant. */
  lemma {:induction false} RunInvariant(c: Config, ss: seq<State>, steps: seq<Step>, d: Disk, i: nat)
    requires IsRun(c, ss, steps) && ss[0] == Initial(d) && LogOk(d, c.p) && c.logsize <= HEADMAX && i < |ss|
    ensures Inv(c, ss[i], Recovered(d, c.p))
  {
    hide Durable, Whole, Reserved, LogOk, Recovered, Next;
    if i == 0 {
      InvStart(c, d);
    } else {
      RunInvariant(c, ss, steps, d, i - 1);
      var s, step, s', h0 := ss[i - 1], steps[i - 1], ss[i], Recovered(d, c.p);
      assert Next(c, s, step, s');
      CommittingAlone(s);
      DurableKept(c, s, step, s', h0);
      WholeKept(c, s, step, s');
      ReservedKept(c, s, step, s');
    }
  }

  lemma CommittingAlone(s: State)
    requires Whole(s)
    ensures s.phase.Committing? ==> s.ops == []
  {
  }

  /** Whole-run safety. Stop any run at any point, also between two disk writes: recovery yields exactly the
      committed groups on top of what the first disk meant; each group holds all the writes its operations
      ever made; and no operation runs while a commit does, so end_op never finds log.committing set. */
  lemma RunSafe(c: Config, ss: seq<State>, steps: seq<Step>, d: Disk, i: nat)
    requires IsRun(c, ss, steps) && ss[0] == Initial(d) && LogOk(d, c.p) && c.logsize <= HEADMAX && i < |ss|
    ensures LogOk(ss[i].disk, c.p) && Recovered(ss[i].disk, c.p) == ApplyGroups(Recovered(d, c.p), ss[i].groups)
    ensures forall g, id :: 0 <= g < |ss[i].groups| && Of(ss[i].groups[g], id) != [] ==>
              Of(ss[i].issued, id) == Of(ss[i].groups[g], id)
    ensures forall g, h, id :: 0 <= g < h < |ss[i].groups| && Of(ss[i].groups[g], id) != [] ==>
            Of(ss[i].groups[h], id) == []
    ensures ss[i].phase.Committing? ==> ss[i].ops == []
  {
    RunInvariant(c, ss, steps, d, i);
    DurableMeans(c, ss[i], Recovered(d, c.p));
  }

  /** Committed groups stay committed: what an earlier state would recover is a prefix of what a later one would. */
  lemma {:induction false} GroupsGrow(c: Config, ss: seq<State>, steps: seq<Step>, i: nat, j: nat)
    requires IsRun(c, ss, steps) && i <= j < |ss|
    ensures ss[i].groups <= ss[j].groups
  {
    if i < j {
      GroupsGrow(c, ss, steps, i, j - 1);
      assert Next(c, ss[j - 1], steps[j - 1], ss[j]);
    }
  }

  /** Log reservation. In every run the header plus the unspent reservations fit LOGSIZE, so an operation
      within its budget always passes the LOGSIZE guard when it adds an entry. */
  lemma AppendsFitLogsize(c: Config, ss: seq<State>, steps: seq<Step>, d: Disk, i: nat, j: nat)
    requires IsRun(c, ss, steps) && ss[0] == Initial(d) && LogOk(d, c.p) && c.logsize <= HEADMAX && i < |ss|
    requires j < |ss[i].ops| && ss[i].ops[j].appended < c.maxop
    ensures |ss[i].lh| + Unspent(c, ss[i].ops) <= c.logsize
    ensures |ss[i].lh| < c.logsize
  {
    RunInvariant(c, ss, steps, d, i);
    UnspentBounds(c, ss[i].ops);
  }
}
