/**
  sleep and wakeup for any condition on data that a spinlock lk protects. Any number of processes on any number of CPUs
  acquire lk, change the data, sleep when they find the condition false, call wakeup, are preempted, killed and
  scheduled. Every spinlock acquisition and release that others can observe is a step. The one rule for the callers:
  whoever makes the condition true does so holding lk, and calls wakeup before releasing it.
*/
module SleepWakeup {

  datatype Spin = Unheld | HeldBy(p: nat)

  /** Who holds a process's p->lock: the process itself, the scheduler just returned to or about to pick it, a waker. */
  datatype Guard = Free | Self | Returned | Picked | Waker(q: nat)

  datatype RunState = SLEEPING | RUNNABLE | RUNNING

  /** What a switched-out process returns to. */
  datatype Back = ToOutside | ToLocking | ToReacquire | ToSleep

  /** Where a process is. */
  datatype Pc =
    | Outside               // not holding lk
    | Locking               // about to acquire lk
    | Inside                // holding lk
    | SleepLock             // sleep: about to acquire p->lock
    | SleepRelease          // about to release lk
    | SleepSet              // about to set p->chan and p->state
    | Switch(ret: Back)     // sched: about to switch to the scheduler
    | Out(ret: Back)        // switched out
    | Resume(ret: Back)     // back from the scheduler, p->lock held
    | Reacquire             // end of sleep: about to acquire lk
    | Wake(j: nat)          // wakeup: about to look at process j
    | WakeAt(j: nat)        // has process j's lock

  /** on says that p->chan is the condition's channel; owes, that the process has made the condition true since it
      acquired lk or last called wakeup. */
  datatype Proc = Proc(guard: Guard, st: RunState, on: bool, owes: bool, pc: Pc)

  datatype State<D> = State(lk: Spin, d: D, procs: seq<Proc>)

  /** The step a process takes next, or the scheduler, the clock or kill takes on it. Other is a change of the data made
      without lk. */
  datatype Step<D> =
    | Go(p: nat) | Yield(p: nat) | Look(p: nat) | Kill(p: nat)
    | Enter(p: nat) | Update(p: nat, d: D) | Wait(p: nat) | Signal(p: nat) | Unlock(p: nat)
    | Other(d: D)

  /** The pcs at which lk is held. */
  predicate Spinning(c: Pc) {
    c.Inside? || c.SleepLock? || c.SleepRelease? || c.Wake? || c.WakeAt?
  }

  /** The pcs at which a process holds its own p->lock. */
  predicate Guarding(c: Pc) {
    c.SleepRelease? || c.SleepSet? || c.Switch? || c.Resume?
  }

  predicate Waking(c: Pc) {
    c.Wake? || c.WakeAt?
  }

  /** A process may leave lk to others: it has called wakeup since it made the condition true, if it did and it still
      is. */
  predicate Clear<D>(cond: D -> bool, s: State<D>, p: nat)
    requires p < |s.procs|
  {
    s.procs[p].pc == Inside && !(s.procs[p].owes && cond(s.d))
  }

  predicate Enabled<D>(cond: D -> bool, s: State<D>, step: Step<D>) {
    if step.Other? then cond(step.d) ==> cond(s.d)
    else
      step.p < |s.procs| && var c := s.procs[step.p];
      match step
      case Go(p) => CanGo(s, p)
      case Yield(_) => (c.pc == Outside || c.pc == Locking || c.pc == Reacquire) && c.guard == Free
      case Look(_) => c.pc.Out? && !c.guard.Waker? && !c.guard.Self?
      case Kill(_) => c.guard == Free && c.st == SLEEPING
      case Enter(_) => c.pc == Outside
      case Update(_, _) => c.pc == Inside
      case Signal(_) => c.pc == Inside
      case Wait(p) => Clear(cond, s, p) && !cond(s.d)
      case Unlock(p) => Clear(cond, s, p)
  }

  predicate CanGo<D>(s: State<D>, p: nat)
    requires p < |s.procs|
  {
    match s.procs[p].pc
    case Outside => false
    case Inside => false
    case Out(_) => false
    case Locking => s.lk == Unheld
    case Reacquire => s.lk == Unheld
    case SleepLock => s.procs[p].guard == Free
    case Wake(j) => j >= |s.procs| || j == p || s.procs[j].guard == Free
    case WakeAt(j) => j < |s.procs| && j != p
    case _ => true
  }

  function Set<D>(s: State<D>, p: nat, c: Proc): State<D>
    requires p < |s.procs|
  {
    s.(procs := s.procs[p := c])
  }

  function At<D>(s: State<D>, p: nat, pc: Pc): State<D>
    requires p < |s.procs|
  {
    Set(s, p, s.procs[p].(pc := pc))
  }

  function BackOf(c: Pc): Back {
    if c == Locking then ToLocking else if c == Reacquire then ToReacquire else ToOutside
  }

  /** One statement of sleep, sched or wakeup. */
  function Run1<D>(s: State<D>, p: nat): State<D>
    requires p < |s.procs| && CanGo(s, p)
  {
    var c := s.procs[p];
    match c.pc
    case Locking => Set(s.(lk := HeldBy(p)), p, c.(pc := Inside, owes := false))
    case Reacquire => Set(s.(lk := HeldBy(p)), p, c.(pc := Inside, owes := false))
    case SleepLock => Set(s, p, c.(guard := Self, pc := SleepRelease))
    case SleepRelease => At(s.(lk := Unheld), p, SleepSet)
    case SleepSet => Set(s, p, c.(on := true, st := SLEEPING, pc := Switch(ToSleep)))
    case Switch(r) => Set(s, p, c.(guard := Returned, pc := Out(r)))
    case Resume(ToOutside) => Set(s, p, c.(guard := Free, pc := Outside))
    case Resume(ToLocking) => Set(s, p, c.(guard := Free, pc := Locking))
    case Resume(ToReacquire) => Set(s, p, c.(guard := Free, pc := Reacquire))
    case Resume(ToSleep) => Set(s, p, c.(guard := Free, on := false, pc := Reacquire))
    case Wake(j) =>
      if j >= |s.procs| then Set(s, p, c.(pc := Inside, owes := false))
      else if j == p then At(s, p, Wake(j + 1))
      else At(Set(s, j, s.procs[j].(guard := Waker(p))), p, WakeAt(j))
    case WakeAt(j) =>
      var d := s.procs[j];
      At(Set(s, j, if d.st == SLEEPING && d.on then d.(st := RUNNABLE, guard := Free) else d.(guard := Free)), p,
         Wake(j + 1))
    case _ => s
  }

  /** One statement of the scheduler about process p. */
  function Look1<D>(s: State<D>, p: nat): State<D>
    requires p < |s.procs| && s.procs[p].pc.Out?
  {
    var c := s.procs[p];
    match c.guard
    case Free => Set(s, p, c.(guard := Picked))
    case Returned => Set(s, p, c.(guard := Free))
    case Picked =>
      if c.st == RUNNABLE then Set(s, p, c.(st := RUNNING, guard := Self, pc := Resume(c.pc.ret)))
      else Set(s, p, c.(guard := Free))
    case _ => s
  }

  function Apply<D>(cond: D -> bool, s: State<D>, step: Step<D>): State<D>
    requires Enabled(cond, s, step)
  {
    if step.Other? then s.(d := step.d)
    else
      var c := s.procs[step.p];
      match step
      case Go(p) => Run1(s, p)
      case Yield(p) => Set(s, p, c.(st := RUNNABLE, guard := Self, pc := Switch(BackOf(c.pc))))
      case Look(p) => Look1(s, p)
      case Kill(p) => Set(s, p, c.(st := RUNNABLE))
      case Enter(p) => At(s, p, Locking)
      case Update(p, d) => Set(s.(d := d), p, c.(owes := cond(d) && (c.owes || !cond(s.d))))
      case Wait(p) => Set(s, p, c.(owes := false, pc := SleepLock))
      case Signal(p) => At(s, p, Wake(0))
      case Unlock(p) => Set(s.(lk := Unheld), p, c.(owes := false, pc := Outside))
  }

  predicate Init<D>(s: State<D>) {
    && s.lk == Unheld
    && forall p :: 0 <= p < |s.procs| ==> s.procs[p] == Proc(Free, RUNNABLE, false, false, Out(ToOutside))
  }

  // ------------------------------------------------------------------------------------------------------------------
  // Invariants
  // ------------------------------------------------------------------------------------------------------------------

  /** Each p->lock is held by who is at a pc that holds it. */
  predicate GuardOk<D>(s: State<D>, p: nat)
    requires p < |s.procs|
  {
    var c := s.procs[p];
    && (Guarding(c.pc) <==> c.guard == Self)
    && (c.guard == Returned || c.guard == Picked ==> c.pc.Out?)
    && (c.guard.Waker? ==> c.guard.q < |s.procs| && c.guard.q != p && s.procs[c.guard.q].pc == WakeAt(p))
    && (c.pc.WakeAt? ==> c.pc.j < |s.procs| && c.pc.j != p && s.procs[c.pc.j].guard == Waker(p))
  }

  /** What the state of a process can be. */
  predicate StateOk(c: Proc) {
    && (c.st == SLEEPING ==> c.on && (c.pc == Switch(ToSleep) || c.pc == Out(ToSleep)))
    && (c.st == RUNNING <==> !c.pc.Switch? && !c.pc.Out?)
    && (c.on <==> c.pc == Switch(ToSleep) || c.pc == Out(ToSleep) || c.pc == Resume(ToSleep))
    && (c.owes ==> c.pc == Inside || Waking(c.pc))
  }

  /** The process has seen the condition false and is asleep or on its way there. */
  predicate Committed(c: Proc) {
    c.pc == SleepLock || c.pc == SleepRelease || c.pc == SleepSet || c.st == SLEEPING
  }

  /** The holder of lk has yet to look at process p: it owes a wakeup, or is in wakeup and not past p. */
  predicate WillWake<D>(s: State<D>, p: nat) {
    && s.lk.HeldBy? && s.lk.p < |s.procs| && s.lk.p != p
    && var h := s.procs[s.lk.p]; (h.pc == Inside && h.owes) || (Waking(h.pc) && h.pc.j <= p)
  }

  /** Everything about process p: who holds the spinlocks, and that it sleeps only with reason or is about to be
      woken. */
  predicate Ok<D>(cond: D -> bool, s: State<D>, p: nat)
    requires p < |s.procs|
  {
    && (Spinning(s.procs[p].pc) ==> s.lk == HeldBy(p))
    && GuardOk(s, p) && StateOk(s.procs[p])
    && (Committed(s.procs[p]) ==> !cond(s.d) || WillWake(s, p))
  }

  predicate Inv<D>(cond: D -> bool, s: State<D>) {
    && (forall p :: 0 <= p < |s.procs| ==> Ok(cond, s, p))
    && (s.lk.HeldBy? ==> s.lk.p < |s.procs| && Spinning(s.procs[s.lk.p].pc))
  }

  lemma InitInv<D>(cond: D -> bool, s: State<D>)
    requires Init(s)
    ensures Inv(cond, s)
  {
  }

  /** A step that changes nothing outside process p that another process's invariant looks at. */
  lemma LocalKept<D>(cond: D -> bool, s: State<D>, p: nat, c: Proc)
    requires Inv(cond, s) && p < |s.procs|
    requires !s.procs[p].pc.WakeAt? && !c.pc.WakeAt? && !s.procs[p].pc.Wake? &&
             !(s.procs[p].owes && s.procs[p].pc == Inside && cond(s.d))
    requires s.procs[p].guard.Waker? ==> c.guard == s.procs[p].guard
    requires Spinning(s.procs[p].pc) == Spinning(c.pc)
    requires Ok(cond, Set(s, p, c), p)
    ensures Inv(cond, Set(s, p, c))
  {
    forall q | 0 <= q < |s.procs| ensures Ok(cond, Set(s, p, c), q) {
      assert Ok(cond, s, q);
    }
  }

  lemma LookKept<D>(cond: D -> bool, s: State<D>, p: nat)
    requires Inv(cond, s) && Enabled(cond, s, Look(p))
    ensures Inv(cond, Look1(s, p))
  {
    assert Ok(cond, s, p);
    LocalKept(cond, s, p, Look1(s, p).procs[p]);
  }

  /** Preemption, kill, and the calls that begin or leave something while others see nothing yet. */
  lemma CallKept<D>(cond: D -> bool, s: State<D>, step: Step<D>)
    requires Inv(cond, s) && Enabled(cond, s, step) && (step.Yield? || step.Kill? || step.Enter? || step.Wait?)
    ensures Inv(cond, Apply(cond, s, step))
  {
    hide Look1, Run1;
    assert Ok(cond, s, step.p);
    LocalKept(cond, s, step.p, Apply(cond, s, step).procs[step.p]);
  }

  /** A change of the data under lk, and one without it. */
  lemma ChangeKept<D>(cond: D -> bool, s: State<D>, step: Step<D>)
    requires Inv(cond, s) && Enabled(cond, s, step) && (step.Update? || step.Other?)
    ensures Inv(cond, Apply(cond, s, step))
  {
    hide Look1, Run1;
    var s' := Apply(cond, s, step);
    forall q | 0 <= q < |s.procs| ensures Ok(cond, s', q) {
      assert Ok(cond, s, q);
      if step.Update? {
        assert Ok(cond, s, step.p);
      }
    }
  }

  lemma SignalKept<D>(cond: D -> bool, s: State<D>, p: nat)
    requires Inv(cond, s) && Enabled(cond, s, Signal(p))
    ensures Inv(cond, Apply(cond, s, Signal(p)))
  {
    hide Look1, Run1;
    var s' := Apply(cond, s, Signal(p));
    forall q | 0 <= q < |s.procs| ensures Ok(cond, s', q) {
      assert Ok(cond, s, q) && Ok(cond, s, p);
    }
  }

  /** With nothing owed, releasing lk strands nobody. */
  lemma UnlockKept<D>(cond: D -> bool, s: State<D>, p: nat)
    requires Inv(cond, s) && Enabled(cond, s, Unlock(p))
    ensures Inv(cond, Apply(cond, s, Unlock(p)))
  {
    hide Look1, Run1;
    var s' := Apply(cond, s, Unlock(p));
    forall q | 0 <= q < |s.procs| ensures Ok(cond, s', q) {
      assert Ok(cond, s, q) && Ok(cond, s, p);
    }
  }

  lemma GoLocal<D>(cond: D -> bool, s: State<D>, p: nat)
    requires Inv(cond, s) && p < |s.procs| && CanGo(s, p)
    requires var c := s.procs[p].pc; c.SleepLock? || c.SleepSet? || c.Switch? || c.Resume?
    ensures Inv(cond, Run1(s, p))
  {
    assert Ok(cond, s, p);
    LocalKept(cond, s, p, Run1(s, p).procs[p]);
  }

  lemma GoSpin<D>(cond: D -> bool, s: State<D>, p: nat)
    requires Inv(cond, s) && p < |s.procs| && CanGo(s, p) && (s.procs[p].pc == Locking || s.procs[p].pc == Reacquire)
    ensures Inv(cond, Run1(s, p))
  {
    forall q | 0 <= q < |s.procs| ensures Ok(cond, Run1(s, p), q) {
      assert Ok(cond, s, q) && Ok(cond, s, p);
    }
  }

  /** Releasing lk with p->lock held loses nothing: the condition is still false. */
  lemma GoSleepRelease<D>(cond: D -> bool, s: State<D>, p: nat)
    requires Inv(cond, s) && p < |s.procs| && s.procs[p].pc == SleepRelease
    ensures Inv(cond, Run1(s, p))
  {
    forall q | 0 <= q < |s.procs| ensures Ok(cond, Run1(s, p), q) {
      assert Ok(cond, s, q) && Ok(cond, s, p);
    }
  }

  /** wakeup is over, or passes over the process itself. */
  lemma GoWakePast<D>(cond: D -> bool, s: State<D>, p: nat)
    requires Inv(cond, s) && p < |s.procs| && s.procs[p].pc.Wake? &&
             (s.procs[p].pc.j >= |s.procs| || s.procs[p].pc.j == p)
    ensures Inv(cond, Run1(s, p))
  {
    forall q | 0 <= q < |s.procs| ensures Ok(cond, Run1(s, p), q) {
      assert Ok(cond, s, q) && Ok(cond, s, p);
    }
  }

  lemma GoWake<D>(cond: D -> bool, s: State<D>, p: nat)
    requires Inv(cond, s) && p < |s.procs| && s.procs[p].pc.Wake? && s.procs[p].pc.j < |s.procs| && s.procs[p].pc.j != p
    requires CanGo(s, p)
    ensures Inv(cond, Run1(s, p))
  {
    forall q | 0 <= q < |s.procs| ensures Ok(cond, Run1(s, p), q) {
      assert Ok(cond, s, q) && Ok(cond, s, p);
    }
  }

  /** The process looked at sleeps on the channel, and is woken. */
  lemma GoWakeUp<D>(cond: D -> bool, s: State<D>, p: nat)
    requires Inv(cond, s) && p < |s.procs| && s.procs[p].pc.WakeAt? && CanGo(s, p)
    requires var d := s.procs[s.procs[p].pc.j]; d.st == SLEEPING && d.on
    ensures Inv(cond, Run1(s, p))
  {
    forall q | 0 <= q < |s.procs| ensures Ok(cond, Run1(s, p), q) {
      assert Ok(cond, s, q) && Ok(cond, s, p) && Ok(cond, s, s.procs[p].pc.j);
    }
  }

  lemma GoWakeAt<D>(cond: D -> bool, s: State<D>, p: nat)
    requires Inv(cond, s) && p < |s.procs| && s.procs[p].pc.WakeAt? && CanGo(s, p)
    requires var d := s.procs[s.procs[p].pc.j]; !(d.st == SLEEPING && d.on)
    ensures Inv(cond, Run1(s, p))
  {
    forall q | 0 <= q < |s.procs| ensures Ok(cond, Run1(s, p), q) {
      assert Ok(cond, s, q) && Ok(cond, s, p) && Ok(cond, s, s.procs[p].pc.j);
    }
  }

  lemma GoKept<D>(cond: D -> bool, s: State<D>, p: nat)
    requires Inv(cond, s) && p < |s.procs| && CanGo(s, p)
    ensures Inv(cond, Run1(s, p))
  {
    hide Inv, Run1;
    var c := s.procs[p].pc;
    if c == Locking || c == Reacquire {
      GoSpin(cond, s, p);
    } else if c.SleepRelease? {
      GoSleepRelease(cond, s, p);
    } else if c.Wake? && (c.j >= |s.procs| || c.j == p) {
      GoWakePast(cond, s, p);
    } else if c.Wake? {
      GoWake(cond, s, p);
    } else if c.WakeAt? {
      var d := s.procs[c.j];
      if d.st == SLEEPING && d.on {
        GoWakeUp(cond, s, p);
      } else {
        GoWakeAt(cond, s, p);
      }
    } else {
      GoLocal(cond, s, p);
    }
  }

  lemma InvKept<D>(cond: D -> bool, s: State<D>, step: Step<D>)
    requires Inv(cond, s) && Enabled(cond, s, step)
    ensures Inv(cond, Apply(cond, s, step))
  {
    hide Inv, Run1, Look1;
    match step
    case Go(p) => GoKept(cond, s, p);
    case Look(p) => LookKept(cond, s, p);
    case Update(_, _) => ChangeKept(cond, s, step);
    case Other(_) => ChangeKept(cond, s, step);
    case Signal(p) => SignalKept(cond, s, p);
    case Unlock(p) => UnlockKept(cond, s, p);
    case _ => CallKept(cond, s, step);
  }

  /** A step moves only its own process, whatever it does to the state and the lock of others. */
  lemma OthersStay<D>(cond: D -> bool, s: State<D>, step: Step<D>, q: nat)
    requires Enabled(cond, s, step) && q < |s.procs| && (step.Other? || q != step.p)
    ensures var s' := Apply(cond, s, step);
            |s'.procs| == |s.procs| && s'.procs[q].pc == s.procs[q].pc && s'.procs[q].owes == s.procs[q].owes
  {
  }

  /** Away from lk and not on the way to it. */
  predicate Away(c: Pc) {
    c == Outside || c == Switch(ToOutside) || c == Out(ToOutside) || c == Resume(ToOutside)
  }

  /** On the way to lk, not having slept. */
  predicate Coming(c: Pc) {
    c == Locking || c == Switch(ToLocking) || c == Out(ToLocking) || c == Resume(ToLocking)
  }

  /** Where the steps that are not calls take a process. */
  lemma InnerMoves<D>(cond: D -> bool, s: State<D>, step: Step<D>)
    requires Inv(cond, s) && Enabled(cond, s, step) && (step.Go? || step.Yield? || step.Look? || step.Kill?)
    ensures var s' := Apply(cond, s, step);
      |s'.procs| == |s.procs| && s'.d == s.d && var c, c' := s.procs[step.p], s'.procs[step.p];
      && c.pc != Inside && (Away(c'.pc) <==> Away(c.pc)) && (Coming(c.pc) ==> Coming(c'.pc) || c'.pc == Inside)
      && (Waking(c.pc) ==> Waking(c'.pc) || c'.pc == Inside) && (Waking(c'.pc) ==> Waking(c.pc))
      && (c'.pc == Inside ==> !c'.owes)
  {
    assert Ok(cond, s, step.p);
  }

  /** Where the calls made under lk take a process. */
  lemma CallMoves<D>(cond: D -> bool, s: State<D>, step: Step<D>)
    requires Enabled(cond, s, step) && (step.Update? || step.Wait? || step.Signal? || step.Unlock?)
    ensures var c, c' := s.procs[step.p], Apply(cond, s, step).procs[step.p];
      && (step.Update? ==> c'.pc == Inside && c'.owes == (cond(step.d) && (c.owes || !cond(s.d))))
      && (step.Wait? ==> c'.pc == SleepLock) && (step.Signal? ==> c'.pc == Wake(0)) &&
         (step.Unlock? ==> c'.pc == Outside)
  {
  }

  // ------------------------------------------------------------------------------------------------------------------
  // Runs
  // ------------------------------------------------------------------------------------------------------------------

  ghost predicate Runs<D(!new)>(cond: D -> bool, s: State<D>, steps: seq<Step<D>>, s': State<D>)
    decreases |steps|
  {
    if steps == [] then s' == s
    else Enabled(cond, s, steps[0]) && Runs(cond, Apply(cond, s, steps[0]), steps[1..], s')
  }

  lemma {:induction false} RunInv<D(!new)>(cond: D -> bool, s: State<D>, steps: seq<Step<D>>, s': State<D>)
    requires Inv(cond, s) && Runs(cond, s, steps, s')
    ensures Inv(cond, s')
    decreases |steps|
  {
    hide Inv, Enabled, Apply;
    if steps != [] {
      InvKept(cond, s, steps[0]);
      RunInv(cond, Apply(cond, s, steps[0]), steps[1..], s');
    }
  }

  /** In every state of every run: when the condition is true and lk is free, no process is asleep waiting for it, nor
      about to fall asleep; one that waits for it is RUNNABLE or running. */
  lemma NoLostWakeup<D(!new)>(cond: D -> bool, s: State<D>, steps: seq<Step<D>>, s': State<D>, p: nat)
    requires Init(s) && Runs(cond, s, steps, s') && p < |s'.procs| && cond(s'.d) && s'.lk == Unheld
    ensures s'.procs[p].st != SLEEPING && !Committed(s'.procs[p])
    ensures s'.procs[p].pc.Out? ==> s'.procs[p].st == RUNNABLE
  {
    InitInv(cond, s);
    RunInv(cond, s, steps, s');
    assert Ok(cond, s', p);
  }

  /** In every state of every run a process that calls sched holds p->lock and no other lock, and is not RUNNING: the
      panics in sched cannot happen. */
  lemma SchedSafe<D(!new)>(cond: D -> bool, s: State<D>, steps: seq<Step<D>>, s': State<D>, p: nat)
    requires Init(s) && Runs(cond, s, steps, s') && p < |s'.procs| && s'.procs[p].pc.Switch?
    ensures s'.procs[p].guard == Self && s'.lk != HeldBy(p) && s'.procs[p].st != RUNNING
    ensures forall q :: 0 <= q < |s'.procs| ==> s'.procs[q].guard != Waker(p)
  {
    InitInv(cond, s);
    RunInv(cond, s, steps, s');
    assert Ok(cond, s', p);
    forall q | 0 <= q < |s'.procs| ensures s'.procs[q].guard != Waker(p) {
      assert Ok(cond, s', q);
    }
  }
}
