/** Sleep locks: acquiresleep and releasesleep as callers of sleep and wakeup, for the condition that the lock is
    free. */
module Sleeplock {
  import opened SleepWakeup

  datatype Lock = Lock(locked: bool, pid: nat)

  predicate Available(d: Lock) {
    !d.locked
  }

  /** How far a process is in its calls. */
  datatype Role =
    | Idle                  // not using the lock
    | Acquiring             // in acquiresleep, lock not taken
    | Took                  // lk->locked set, about to release lk->lk
    | Holder                // between the two calls
    | Releasing             // in releasesleep, lk->locked not yet cleared
    | Cleared               // about to call wakeup
    | Woke                  // has called wakeup

  datatype Machine = Machine(m: State<Lock>, role: seq<Role>)

  /** Call starts acquiresleep or releasesleep; Act is the next statement of either while lk->lk is held; the others are
      steps of sleep, wakeup, the scheduler, the clock and kill. */
  datatype Move = Call(p: nat) | Act(p: nat) | Inner(step: Step<Lock>)

  predicate Has(r: Role) {
    r == Took || r == Holder || r == Releasing
  }

  predicate CanMove(s: Machine, v: Move) {
    && |s.role| == |s.m.procs|
    && match v
       case Call(p) => p < |s.role| && s.m.procs[p].pc == Outside && (s.role[p] == Idle || s.role[p] == Holder)
       case Act(p) => p < |s.role| && s.m.procs[p].pc == Inside
       case Inner(t) => (t.Go? || t.Yield? || t.Look? || t.Kill?) && Enabled(Available, s.m, t)
  }

  /** The step of the sleep/wakeup machine that a move is. */
  function StepOf(s: Machine, v: Move): Step<Lock>
    requires CanMove(s, v)
  {
    match v
    case Inner(t) => t
    case Call(p) => Enter(p)
    case Act(p) =>
      match s.role[p]
      case Acquiring => if s.m.d.locked then Wait(p) else Update(p, Lock(true, p))
      case Releasing => Update(p, Lock(false, 0))
      case Cleared => Signal(p)
      case _ => Unlock(p)
  }

  function RoleAfter(s: Machine, v: Move): seq<Role>
    requires CanMove(s, v)
  {
    match v
    case Inner(_) => s.role
    case Call(p) => s.role[p := if s.role[p] == Idle then Acquiring else Releasing]
    case Act(p) =>
      s.role[p := match s.role[p]
                  case Acquiring => if s.m.d.locked then Acquiring else Took
                  case Took => Holder
                  case Releasing => Cleared
                  case Cleared => Woke
                  case Woke => Idle
                  case r => r]
  }

  function Next(s: Machine, v: Move): Machine
    requires CanMove(s, v) && Enabled(Available, s.m, StepOf(s, v))
  {
    Machine(Apply(Available, s.m, StepOf(s, v)), RoleAfter(s, v))
  }

  /** Where a process in this role can be, and that a holder's lock is taken in its name. */
  predicate RoleOk(s: Machine, p: nat)
    requires p < |s.role| == |s.m.procs|
  {
    var c, r := s.m.procs[p], s.role[p];
    && (Away(c.pc) <==> r == Idle || r == Holder)
    && (Waking(c.pc) ==> r == Woke) && (r == Woke ==> c.pc == Inside || Waking(c.pc))
    && (r == Took || r == Cleared ==> c.pc == Inside)
    && (r == Releasing ==> Coming(c.pc) || c.pc == Inside)
    && (c.owes && c.pc == Inside ==> r == Cleared)
    && (Has(r) ==> s.m.d == Lock(true, p))
  }

  ghost predicate Safe(s: Machine) {
    && |s.role| == |s.m.procs| && Inv(Available, s.m)
    && (forall p :: 0 <= p < |s.role| ==> RoleOk(s, p))
    && (s.m.d.locked ==> s.m.d.pid < |s.role| && Has(s.role[s.m.d.pid]))
  }

  predicate Start(s: Machine) {
    Init(s.m) && !s.m.d.locked && |s.role| == |s.m.procs| && forall p :: 0 <= p < |s.role| ==> s.role[p] == Idle
  }

  /** Every statement of the two calls keeps the rule: it is a step of the sleep/wakeup machine. */
  lemma Obeys(s: Machine, v: Move)
    requires Safe(s) && CanMove(s, v)
    ensures Enabled(Available, s.m, StepOf(s, v))
  {
    if v.Act? {
      assert RoleOk(s, v.p);
    }
  }

  lemma OthersOk(s: Machine, v: Move, q: nat)
    requires Safe(s) && CanMove(s, v) && Enabled(Available, s.m, StepOf(s, v)) && q < |s.role|
    requires q != (match v case Inner(t) => t.p case Call(p) => p case Act(p) => p)
    ensures RoleOk(Next(s, v), q)
  {
    hide Inv, Apply;
    OthersStay(Available, s.m, StepOf(s, v), q);
    assert RoleOk(s, q);
    DataAfter(s, v);
    if v.Act? {
      assert RoleOk(s, v.p);
    }
  }

  lemma DataAfter(s: Machine, v: Move)
    requires Safe(s) && CanMove(s, v) && Enabled(Available, s.m, StepOf(s, v))
    ensures Next(s, v).m.d == if StepOf(s, v).Update? then StepOf(s, v).d else s.m.d
    ensures |Next(s, v).m.procs| == |s.m.procs|
  {
    if v.Inner? {
      InnerMoves(Available, s.m, v.step);
    }
  }

  lemma InnerOk(s: Machine, t: Step<Lock>)
    requires Safe(s) && CanMove(s, Inner(t))
    ensures RoleOk(Next(s, Inner(t)), t.p)
  {
    hide Inv, Apply;
    InnerMoves(Available, s.m, t);
    assert RoleOk(s, t.p);
  }

  lemma ActOk(s: Machine, v: Move)
    requires Safe(s) && CanMove(s, v) && !v.Inner? && Enabled(Available, s.m, StepOf(s, v))
    ensures RoleOk(Next(s, v), v.p)
  {
    hide Inv, Run1, Look1;
    assert RoleOk(s, v.p);
  }

  lemma SafeKept(s: Machine, v: Move)
    requires Safe(s) && CanMove(s, v) && Enabled(Available, s.m, StepOf(s, v))
    ensures Safe(Next(s, v))
  {
    hide Inv, Apply, Enabled, RoleOk;
    InvKept(Available, s.m, StepOf(s, v));
    DataAfter(s, v);
    var p := match v case Inner(t) => t.p case Call(p) => p case Act(p) => p;
    forall q | 0 <= q < |s.role| ensures RoleOk(Next(s, v), q) {
      if q != p {
        OthersOk(s, v, q);
      } else if v.Inner? {
        InnerOk(s, v.step);
      } else {
        ActOk(s, v);
      }
    }
    HolderKept(s, v);
  }

  /** A taken lock has a holder. */
  lemma HolderKept(s: Machine, v: Move)
    requires Safe(s) && CanMove(s, v) && Enabled(Available, s.m, StepOf(s, v))
    ensures Next(s, v).m.d.locked ==> Next(s, v).m.d.pid < |s.role| && Has(Next(s, v).role[Next(s, v).m.d.pid])
  {
    hide Inv, Apply, Enabled;
    DataAfter(s, v);
    if v.Act? {
      assert RoleOk(s, v.p);
    }
  }

  /** A run of callers of acquiresleep and releasesleep. */
  ghost predicate Reaches(s: Machine, moves: seq<Move>, s': Machine)
    decreases |moves|
  {
    if moves == [] then s' == s
    else CanMove(s, moves[0]) && Enabled(Available, s.m, StepOf(s, moves[0])) &&
         Reaches(Next(s, moves[0]), moves[1..], s')
  }

  /** A run of these callers is a run of the sleep/wakeup machine. */
  lemma {:induction false} Refines(s: Machine, moves: seq<Move>, s': Machine) returns (steps: seq<Step<Lock>>)
    requires Safe(s) && Reaches(s, moves, s')
    ensures Safe(s') && Runs(Available, s.m, steps, s'.m)
    decreases |moves|
  {
    hide Safe, CanMove, StepOf, RoleAfter, Enabled, Apply;
    if moves == [] {
      steps := [];
    } else {
      SafeKept(s, moves[0]);
      var rest := Refines(Next(s, moves[0]), moves[1..], s');
      steps := [StepOf(s, moves[0])] + rest;
      assert steps[1..] == rest;
    }
  }

  lemma StartSafe(s: Machine)
    requires Start(s)
    ensures Safe(s)
  {
    InitInv(Available, s.m);
  }

  /** In every state of every run: when the sleep lock is free and so is its spinlock, nobody is asleep waiting for
      it. */
  lemma LockWakeup(s: Machine, moves: seq<Move>, s': Machine, p: nat)
    requires Start(s) && Reaches(s, moves, s') && p < |s'.m.procs| && !s'.m.d.locked && s'.m.lk == Unheld
    ensures s'.m.procs[p].st != SLEEPING && !Committed(s'.m.procs[p])
    ensures s'.m.procs[p].pc.Out? ==> s'.m.procs[p].st == RUNNABLE
  {
    hide Reaches, Runs;
    StartSafe(s);
    var steps := Refines(s, moves, s');
    NoLostWakeup(Available, s.m, steps, s'.m, p);
  }

  /** In every state of every run at most one process has the sleep lock, and lk->pid names it. */
  lemma MutualExclusion(s: Machine, moves: seq<Move>, s': Machine, p: nat, q: nat)
    requires Start(s) && Reaches(s, moves, s') && p < |s'.role| && q < |s'.role| && Has(s'.role[p]) && Has(s'.role[q])
    ensures p == q && s'.m.d == Lock(true, p)
  {
    hide Reaches, Runs;
    StartSafe(s);
    var steps := Refines(s, moves, s');
    assert RoleOk(s', p) && RoleOk(s', q);
  }
}
