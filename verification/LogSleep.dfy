/** begin_op, log_write and end_op as callers of sleep and wakeup on &log, for the condition that an operation may
    start. */
module LogSleep {
  import opened SleepWakeup

  /** What log.lock protects: lh.n, outstanding, committing; and the sizes begin_op compares with. */
  datatype LogData = LogData(n: nat, outstanding: int, committing: bool, logsize: nat, maxop: nat)

  predicate MayBegin(d: LogData) {
    !d.committing && d.n + (d.outstanding + 1) * d.maxop <= d.logsize
  }

  /** How far a process is in its calls. */
  datatype Role =
    | Idle                  // in no operation
    | Beginning             // in begin_op
    | Begun                 // counted, about to release log.lock
    | InOp                  // between begin_op and end_op
    | Writing               // in log_write
    | Written               // about to release log.lock
    | Ending                // in end_op, still counted
    | Left                  // others remain: about to call wakeup
    | Last                  // has set committing, about to release log.lock
    | Commit                // in commit
    | Emptied               // lh.n is 0 again
    | Reopening             // about to acquire log.lock to clear committing
    | Reopened              // about to call wakeup
    | Woke                  // has called wakeup

  datatype Machine = Machine(m: State<LogData>, role: seq<Role>)

  /** Call starts begin_op or end_op, or what follows the commit; Write starts log_write; Act is the next statement
      while log.lock is held, with entries added to the header if that is log_write; Empty is the end of commit
      itself. */
  datatype Move =
    | Call(p: nat)
    | Write(p: nat)
    | Act(p: nat, absorbed: bool)
    | Empty(p: nat)
    | Inner(step: Step<LogData>)

  /** Counted in log.outstanding. */
  predicate Counted(r: Role) {
    r == Begun || r == InOp || r == Writing || r == Written || r == Ending
  }

  /** Between setting and clearing log.committing. */
  predicate Commits(r: Role) {
    r == Last || r == Commit || r == Emptied || r == Reopening
  }

  predicate Resting(r: Role) {
    r == Idle || r == InOp || r == Commit || r == Emptied
  }

  predicate CanMove(s: Machine, v: Move) {
    && |s.role| == |s.m.procs|
    && match v
       case Call(p) => p < |s.role| && s.m.procs[p].pc == Outside &&
            (s.role[p] == Idle || s.role[p] == InOp || s.role[p] == Emptied)
       case Write(p) => p < |s.role| && s.m.procs[p].pc == Outside && s.role[p] == InOp
       case Act(p, _) => p < |s.role| && s.m.procs[p].pc == Inside
       case Empty(p) => p < |s.role| && s.m.procs[p].pc == Outside && s.role[p] == Commit
       case Inner(t) => (t.Go? || t.Yield? || t.Look? || t.Kill?) && Enabled(MayBegin, s.m, t)
  }

  /** end_op panics if a commit is under way. */
  predicate EndPanics(s: Machine, v: Move) {
    v.Act? && v.p < |s.role| && s.role[v.p] == Ending && s.m.d.committing
  }

  function StepOf(s: Machine, v: Move): Step<LogData>
    requires CanMove(s, v)
  {
    var d := s.m.d;
    match v
    case Inner(t) => t
    case Call(p) => Enter(p)
    case Write(p) => Enter(p)
    case Empty(_) => Other(d.(n := 0))
    case Act(p, absorbed) =>
      match s.role[p]
      case Beginning => if MayBegin(d) then Update(p, d.(outstanding := d.outstanding + 1)) else Wait(p)
      case Writing => Update(p, if absorbed then d else d.(n := d.n + 1))
      case Ending => Update(p, d.(outstanding := d.outstanding - 1, committing := d.outstanding - 1 == 0))
      case Reopening => Update(p, d.(committing := false))
      case Left => Signal(p)
      case Reopened => Signal(p)
      case _ => Unlock(p)
  }

  function RoleAfter(s: Machine, v: Move): seq<Role>
    requires CanMove(s, v)
  {
    match v
    case Inner(_) => s.role
    case Call(p) => s.role[p := if s.role[p] == Idle then Beginning else if s.role[p] == InOp then Ending
                                                                         else Reopening]
    case Write(p) => s.role[p := Writing]
    case Empty(p) => s.role[p := Emptied]
    case Act(p, _) =>
      s.role[p := match s.role[p]
                  case Beginning => if MayBegin(s.m.d) then Begun else Beginning
                  case Begun => InOp
                  case Writing => Written
                  case Written => InOp
                  case Ending => if s.m.d.outstanding - 1 == 0 then Last else Left
                  case Last => Commit
                  case Reopening => Reopened
                  case Left => Woke
                  case Reopened => Woke
                  case Woke => Idle
                  case r => r]
  }

  function Next(s: Machine, v: Move): Machine
    requires CanMove(s, v) && Enabled(MayBegin, s.m, StepOf(s, v))
  {
    Machine(Apply(MayBegin, s.m, StepOf(s, v)), RoleAfter(s, v))
  }

  /** Where a process in this role can be. */
  predicate RoleOk(s: Machine, p: nat)
    requires p < |s.role| == |s.m.procs|
  {
    var c, r := s.m.procs[p], s.role[p];
    && (Away(c.pc) <==> Resting(r))
    && (Waking(c.pc) ==> r == Woke) && (r == Woke ==> c.pc == Inside || Waking(c.pc))
    && (r == Begun || r == Written || r == Left || r == Last || r == Reopened ==> c.pc == Inside)
    && (r == Writing || r == Ending || r == Reopening ==> Coming(c.pc) || c.pc == Inside)
    && (c.owes && c.pc == Inside && MayBegin(s.m.d) ==> r == Left || r == Reopened)
  }

  /** The processes counted. */
  ghost function Ops(role: seq<Role>): set<nat> {
    set p | 0 <= p < |role| && Counted(role[p])
  }

  ghost predicate Safe(s: Machine) {
    && |s.role| == |s.m.procs| && Inv(MayBegin, s.m) && (forall p :: 0 <= p < |s.role| ==> RoleOk(s, p))
    && s.m.d.outstanding == |Ops(s.role)|
    && (s.m.d.committing ==> Ops(s.role) == {})
    && (forall p :: 0 <= p < |s.role| && Commits(s.role[p]) ==> s.m.d.committing)
    && (forall p, q :: 0 <= p < |s.role| && 0 <= q < |s.role| && Commits(s.role[p]) && Commits(s.role[q]) ==> p == q)
  }

  predicate Start(s: Machine) {
    && Init(s.m) && s.m.d.outstanding == 0 && !s.m.d.committing
    && |s.role| == |s.m.procs| && forall p :: 0 <= p < |s.role| ==> s.role[p] == Idle
  }

  /** Every statement of the calls keeps the rule, and end_op does not find a commit under way. */
  lemma Obeys(s: Machine, v: Move)
    requires Safe(s) && CanMove(s, v)
    ensures Enabled(MayBegin, s.m, StepOf(s, v)) && !EndPanics(s, v)
  {
    if v.Act? {
      assert RoleOk(s, v.p);
      if s.role[v.p] == Ending {
        assert v.p in Ops(s.role);
      }
    }
    if v.Empty? {
      assert Commits(s.role[v.p]);
    }
  }

  // ------------------------------------------------------------------------------------------------------------------
  // What every move keeps
  // ------------------------------------------------------------------------------------------------------------------

  function Mover(v: Move): nat
    requires v.Inner? ==> !v.step.Other?
  {
    match v case Inner(t) => t.p case Call(p) => p case Write(p) => p case Act(p, _) => p case Empty(p) => p
  }

  lemma DataAfter(s: Machine, v: Move)
    requires Safe(s) && CanMove(s, v) && Enabled(MayBegin, s.m, StepOf(s, v))
    ensures var t := StepOf(s, v); Next(s, v).m.d == if t.Update? || t.Other? then t.d else s.m.d
    ensures |Next(s, v).m.procs| == |s.m.procs|
  {
    hide MayBegin;
    if v.Inner? {
      InnerMoves(MayBegin, s.m, v.step);
    }
  }

  /** Only the end of an operation and of a commit can let another operation start. */
  lemma OnlyEnding(s: Machine, v: Move)
    requires Safe(s) && CanMove(s, v) && Enabled(MayBegin, s.m, StepOf(s, v)) && MayBegin(Next(s, v).m.d) &&
             !MayBegin(s.m.d)
    ensures v.Act? && (s.role[v.p] == Ending || s.role[v.p] == Reopening)
  {
    hide Inv, Apply;
    DataAfter(s, v);
    Grows(s.m.d);
  }

  lemma Grows(d: LogData)
    ensures d.n + (d.outstanding + 1) * d.maxop <= d.n + (d.outstanding + 1 + 1) * d.maxop
  {
    assert (d.outstanding + 1 + 1) * d.maxop == (d.outstanding + 1) * d.maxop + d.maxop;
  }

  lemma OthersOk(s: Machine, v: Move, q: nat)
    requires Safe(s) && CanMove(s, v) && Enabled(MayBegin, s.m, StepOf(s, v)) && q < |s.role| && q != Mover(v)
    ensures RoleOk(Next(s, v), q)
  {
    hide Inv, Apply, MayBegin;
    OthersStay(MayBegin, s.m, StepOf(s, v), q);
    assert RoleOk(s, q);
    Alone(s, v, q);
  }

  /** While a process is at a statement under log.lock, no other is. */
  lemma Alone(s: Machine, v: Move, q: nat)
    requires Safe(s) && CanMove(s, v) && Enabled(MayBegin, s.m, StepOf(s, v)) && q < |s.role| && q != Mover(v)
    ensures s.m.procs[q].pc == Inside && s.m.procs[q].owes && MayBegin(Next(s, v).m.d) ==> MayBegin(s.m.d)
  {
    hide MayBegin, Apply;
    assert Ok(MayBegin, s.m, q);
    if v.Act? {
      assert Ok(MayBegin, s.m, v.p);
    } else if MayBegin(Next(s, v).m.d) && !MayBegin(s.m.d) {
      OnlyEnding(s, v);
    }
  }

  lemma InnerOk(s: Machine, t: Step<LogData>)
    requires Safe(s) && CanMove(s, Inner(t))
    ensures RoleOk(Next(s, Inner(t)), t.p)
  {
    hide Inv, Apply, MayBegin;
    InnerMoves(MayBegin, s.m, t);
    assert RoleOk(s, t.p);
  }

  lemma CallOk(s: Machine, v: Move)
    requires Safe(s) && CanMove(s, v) && !v.Inner? && !v.Act? && Enabled(MayBegin, s.m, StepOf(s, v))
    ensures RoleOk(Next(s, v), v.p)
  {
    hide Inv, Run1, Look1, MayBegin;
    assert RoleOk(s, v.p);
  }

  lemma ActOk(s: Machine, v: Move)
    requires Safe(s) && CanMove(s, v) && v.Act? && Enabled(MayBegin, s.m, StepOf(s, v))
    ensures RoleOk(Next(s, v), v.p)
  {
    hide Inv, Apply, MayBegin;
    assert RoleOk(s, v.p);
    DataAfter(s, v);
    CallMoves(MayBegin, s.m, StepOf(s, v));
    if MayBegin(Next(s, v).m.d) && !MayBegin(s.m.d) {
      OnlyEnding(s, v);
    }
    NotWhile(s.m.d);
  }

  lemma NotWhile(d: LogData)
    ensures d.committing ==> !MayBegin(d)
    ensures !MayBegin(d.(outstanding := d.outstanding - 1, committing := true))
  {
  }

  lemma OpsMore(role: seq<Role>, p: nat, r: Role)
    requires p < |role|
    ensures Ops(role[p := r]) == (if Counted(r) then Ops(role) + {p} else Ops(role) - {p}) &&
            (p in Ops(role) <==> Counted(role[p]))
    ensures |Ops(role[p := r])| == |Ops(role)| - (if Counted(role[p]) then 1 else 0) + (if Counted(r) then 1 else 0)
  {
    var o, o' := Ops(role), Ops(role[p := r]);
    forall q: nat ensures q in o' <==> q in (if Counted(r) then o + {p} else o - {p}) {}
  }

  function One(b: bool): int {
    if b then 1 else 0
  }

  /** The counter moves with the caller's role. */
  lemma CounterMoves(s: Machine, v: Move)
    requires Safe(s) && CanMove(s, v) && Enabled(MayBegin, s.m, StepOf(s, v)) && !v.Inner?
    ensures var d', r, r' := Next(s, v).m.d, s.role[v.p], RoleAfter(s, v)[v.p];
      && RoleAfter(s, v) == s.role[v.p := r'] &&
         d'.outstanding == s.m.d.outstanding + One(Counted(r')) - One(Counted(r))
      && (d'.committing ==> d'.outstanding == 0 || (s.m.d.committing && Counted(r') == Counted(r)))
  {
    hide Inv, Apply, Enabled, Ops, MayBegin;
    DataAfter(s, v);
    assert RoleOk(s, v.p);
    NotWhile(s.m.d);
  }

  lemma CountKept(s: Machine, v: Move)
    requires Safe(s) && CanMove(s, v) && Enabled(MayBegin, s.m, StepOf(s, v))
    ensures Next(s, v).m.d.outstanding == |Ops(Next(s, v).role)|
    ensures Next(s, v).m.d.committing ==> Ops(Next(s, v).role) == {}
  {
    hide Inv, Apply, Enabled, Ops, MayBegin, RoleOk;
    if v.Inner? {
      DataAfter(s, v);
    } else {
      hide StepOf;
      CounterMoves(s, v);
      OpsMore(s.role, v.p, RoleAfter(s, v)[v.p]);
      hide RoleAfter;
    }
  }

  lemma CommitKept(s: Machine, v: Move, p: nat)
    requires Safe(s) && CanMove(s, v) && Enabled(MayBegin, s.m, StepOf(s, v)) && p < |s.role| &&
             Commits(RoleAfter(s, v)[p])
    ensures Next(s, v).m.d.committing
    ensures Commits(s.role[p]) || (v.Act? && v.p == p && s.role[p] == Ending && !s.m.d.committing)
  {
    hide Inv, Apply, MayBegin;
    DataAfter(s, v);
    Obeys(s, v);
    if !v.Inner? {
      assert RoleOk(s, v.p);
      NotWhile(s.m.d);
    }
  }

  lemma OneCommit(s: Machine, v: Move, p: nat, q: nat)
    requires Safe(s) && CanMove(s, v) && Enabled(MayBegin, s.m, StepOf(s, v)) && p < |s.role| && q < |s.role|
    requires Commits(RoleAfter(s, v)[p]) && Commits(RoleAfter(s, v)[q])
    ensures p == q
  {
    hide Inv, Apply, MayBegin, RoleAfter, Enabled, StepOf;
    CommitKept(s, v, p);
    CommitKept(s, v, q);
  }

  lemma SafeKept(s: Machine, v: Move)
    requires Safe(s) && CanMove(s, v) && Enabled(MayBegin, s.m, StepOf(s, v))
    ensures Safe(Next(s, v))
  {
    hide Inv, Apply, Enabled, RoleOk, MayBegin;
    InvKept(MayBegin, s.m, StepOf(s, v));
    DataAfter(s, v);
    CountKept(s, v);
    forall p | 0 <= p < |s.role| && Commits(RoleAfter(s, v)[p]) ensures Next(s, v).m.d.committing {
      CommitKept(s, v, p);
    }
    forall p, q | 0 <= p < |s.role| && 0 <= q < |s.role| && Commits(RoleAfter(s, v)[p]) && Commits(RoleAfter(s, v)[q])
      ensures p == q
    {
      OneCommit(s, v, p, q);
    }
    forall q | 0 <= q < |s.role| ensures RoleOk(Next(s, v), q) {
      if q != Mover(v) {
        OthersOk(s, v, q);
      } else if v.Inner? {
        InnerOk(s, v.step);
      } else if v.Act? {
        ActOk(s, v);
      } else {
        CallOk(s, v);
      }
    }
  }

  // ------------------------------------------------------------------------------------------------------------------
  // Runs
  // ------------------------------------------------------------------------------------------------------------------

  ghost predicate Reaches(s: Machine, moves: seq<Move>, s': Machine)
    decreases |moves|
  {
    if moves == [] then s' == s
    else CanMove(s, moves[0]) && Enabled(MayBegin, s.m, StepOf(s, moves[0])) &&
         Reaches(Next(s, moves[0]), moves[1..], s')
  }

  /** A run of these callers is a run of the sleep/wakeup machine. */
  lemma {:induction false} Refines(s: Machine, moves: seq<Move>, s': Machine) returns (steps: seq<Step<LogData>>)
    requires Safe(s) && Reaches(s, moves, s')
    ensures Safe(s') && Runs(MayBegin, s.m, steps, s'.m)
    decreases |moves|
  {
    hide Safe, CanMove, StepOf, RoleAfter, Enabled, Apply;
    if moves == [] {
      steps := [];
    } else {
      SafeKept(s, moves[0]);
      var rest := Refines(Next(s, moves[0]), moves[1..], s');
      steps := [StepOf(s, moves[0])] + rest;
      assert steps[1..] == rest;
    }
  }

  lemma StartSafe(s: Machine)
    requires Start(s)
    ensures Safe(s)
  {
    InitInv(MayBegin, s.m);
    assert Ops(s.role) == {};
  }

  /** In every state of every run: when log.lock is free, no commit is under way and there is room for an operation,
      nobody sleeps in begin_op; and end_op never finds a commit under way. */
  lemma BeginWakeup(s: Machine, moves: seq<Move>, s': Machine, p: nat)
    requires Start(s) && Reaches(s, moves, s') && p < |s'.role| == |s'.m.procs|
    ensures s'.m.lk == Unheld && MayBegin(s'.m.d) ==> s'.m.procs[p].st != SLEEPING && !Committed(s'.m.procs[p])
    ensures s'.role[p] == Ending ==> !s'.m.d.committing
  {
    hide Reaches, Runs, MayBegin;
    StartSafe(s);
    var steps := Refines(s, moves, s');
    if s'.m.lk == Unheld && MayBegin(s'.m.d) {
      NoLostWakeup(MayBegin, s.m, steps, s'.m, p);
    }
    assert s'.role[p] == Ending ==> p in Ops(s'.role);
  }
}
