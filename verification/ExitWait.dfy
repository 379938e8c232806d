/** fork, exit and wait over the process table: any number of processes run them at once, serialised by wait_lock and
    each process's p->lock. A wakeup is the one visit of its loop that can change something, to the process whose
    channel it is. */
module ExitWait {

  const INIT: nat := 0              // slot of the init process

  datatype Spin = Unheld | HeldBy(p: nat)

  /** Who holds p->lock: the process, the one making it, or its parent in wait. */
  datatype Guard = Free | Self | Maker(q: nat) | Parent(q: nat)

  /** ACTIVE stands for RUNNABLE and RUNNING; SLEEPING is sleep in wait. */
  datatype RunState = UNUSED | USED | ACTIVE | SLEEPING | ZOMBIE

  datatype Opt = None | Some(v: nat)

  datatype Pc =
    | Unborn                     // no kernel thread
    | Run                        // doing something else
    | Fork2(c: nat)              // has made slot c and holds its lock
    | Fork3(c: nat)              // about to set the child's parent
    | Fork4(c: nat)              // about to make the child RUNNABLE
    | ExitLock                   // about to acquire wait_lock
    | Reparent(i: nat)           // looking at slot i
    | ReparentWake(i: nat)       // about to wake init
    | ExitWake                   // about to wake the parent
    | ExitGuard                  // about to acquire p->lock
    | ExitZombie                 // about to become a ZOMBIE
    | ExitRelease                // about to release wait_lock
    | ExitSwitch                 // about to switch to the scheduler for ever
    | Dead                       // has left its CPU
    | WaitLock                   // about to acquire wait_lock
    | Scan(i: nat, kids: bool)   // looking at slot i
    | ScanAt(i: nat)             // has the lock of child i
    | WaitGuard                  // sleep: about to acquire p->lock
    | WaitRelease                // about to release wait_lock
    | WaitSet                    // about to set p->chan and p->state
    | WaitSwitch                 // about to switch to the scheduler
    | Asleep                     // switched out
    | Rewait                     // end of sleep: about to acquire wait_lock

  datatype Proc = Proc(guard: Guard, st: RunState, parent: Opt, pid: nat, xstate: int, maker: nat, pc: Pc)

  /** A child reaped by wait: its pid, the status delivered, and the slot of the process that waited. */
  datatype Reap = Reap(pid: nat, status: int, waiter: nat)

  /** exited and reaped record history; slot gives the place of each pid handed out. */
  datatype State = State(wl: Spin, procs: seq<Proc>, nextpid: nat, slot: map<nat, nat>, exited: map<nat, int>,
                         reaped: seq<Reap>)

  /** p goes on; arg is a free slot for allocproc, the exit status, or a choice the rest of the system makes. */
  datatype Step = Go(p: nat) | Fork(p: nat, c: nat) | ForkFails(p: nat) | Exit(p: nat) | Wait(p: nat)
                | Status(p: nat, x: int) | Fault(p: nat) | Killed(p: nat) | Kill(p: nat)

  predicate HoldsWl(c: Pc) {
    || c.Reparent? || c.ReparentWake? || c.ExitWake? || c.ExitGuard? || c.ExitZombie? || c.ExitRelease?
    || c.Scan? || c.ScanAt? || c.WaitGuard? || c.WaitRelease?
  }

  predicate Guarding(c: Pc) {
    c.ExitZombie? || c.ExitRelease? || c.ExitSwitch? || c.WaitRelease? || c.WaitSet? || c.WaitSwitch?
  }

  /** Past the point where a process has given away its children. */
  predicate Leaving(c: Pc) {
    c.ExitWake? || c.ExitGuard? || c.ExitZombie? || c.ExitRelease? || c.ExitSwitch? || c.Dead?
  }

  predicate Enabled(s: State, step: Step) {
    step.p < |s.procs| && var c := s.procs[step.p];
    match step
    case Fork(_, k) => c.st == ACTIVE && c.pc == Run && k < |s.procs| && s.procs[k].st == UNUSED &&
         s.procs[k].guard == Free
    case ForkFails(_) => c.st == ACTIVE && c.pc.Fork2?
    case Exit(p) => c.st == ACTIVE && c.pc == Run && p != INIT
    case Wait(_) => c.st == ACTIVE && c.pc == Run
    case Status(_, _) => c.pc == ExitZombie
    case Fault(_) => c.pc.ScanAt? && c.pc.i < |s.procs| && s.procs[c.pc.i].st == ZOMBIE
    case Killed(_) => c.pc.Scan? && c.pc.i == |s.procs| && c.pc.kids
    case Kill(_) => c.guard == Free && c.st == SLEEPING
    case Go(p) => CanGo(s, p)
  }

  predicate CanGo(s: State, p: nat)
    requires p < |s.procs|
  {
    var c := s.procs[p];
    match c.pc
    case Unborn => false
    case Run => false
    case Dead => false
    case ExitZombie => false
    case Fork2(k) => k < |s.procs|
    case Fork3(k) => k < |s.procs| && s.wl == Unheld
    case Fork4(k) => k < |s.procs| && s.procs[k].guard == Free
    case ExitLock => s.wl == Unheld
    case ReparentWake(_) => INIT < |s.procs| && s.procs[INIT].guard == Free
    case ExitWake => c.parent.Some? && c.parent.v < |s.procs| && c.parent.v != p && s.procs[c.parent.v].guard == Free
    case ExitGuard => c.guard == Free
    case WaitLock => s.wl == Unheld
    case Scan(i, _) => i <= |s.procs| &&
         (i < |s.procs| && s.procs[i].parent == Some(p) ==> i != p && s.procs[i].guard == Free)
    case ScanAt(i) => i < |s.procs| && i != p
    case WaitGuard => c.guard == Free
    case Asleep => c.st == ACTIVE && c.guard == Free
    case Rewait => s.wl == Unheld
    case _ => true
  }

  function Set(s: State, p: nat, c: Proc): State
    requires p < |s.procs|
  {
    s.(procs := s.procs[p := c])
  }

  function At(s: State, p: nat, pc: Pc): State
    requires p < |s.procs|
  {
    Set(s, p, s.procs[p].(pc := pc))
  }

  /** wakeup(proc[x]) where it visits proc[x]. */
  function Woken(s: State, x: nat): State
    requires x < |s.procs|
  {
    if s.procs[x].st == SLEEPING then Set(s, x, s.procs[x].(st := ACTIVE)) else s
  }

  /** freeproc: the slot is UNUSED again. */
  function Freed(s: State, k: nat): State
    requires k < |s.procs|
  {
    Set(s, k, Proc(Free, UNUSED, None, 0, 0, 0, Unborn))
  }

  function Apply(s: State, step: Step): State
    requires Enabled(s, step)
  {
    var c := s.procs[step.p];
    match step
    case Fork(p, k) =>
      At(Set(s, k, Proc(Maker(p), USED, None, s.nextpid, 0, p, Unborn)), p, Fork2(k)).(nextpid := s.nextpid + 1,
                                                                                       slot := s.slot[s.nextpid := k])
    case ForkFails(p) => if c.pc.c < |s.procs| then At(Freed(s, c.pc.c), p, Run) else s
    case Exit(p) => At(s, p, ExitLock)
    case Wait(p) => At(s, p, WaitLock)
    case Status(p, x) => Set(s, p, c.(st := ZOMBIE, xstate := x, pc := ExitRelease)).(exited := s.exited[c.pid := x])
    case Fault(p) => At(Set(s.(wl := Unheld), c.pc.i, s.procs[c.pc.i].(guard := Free)), p, Run)
    case Killed(p) => At(s.(wl := Unheld), p, Run)
    case Kill(p) => Set(s, p, c.(st := ACTIVE))
    case Go(p) => Step1(s, p)
  }

  function Step1(s: State, p: nat): State
    requires p < |s.procs| && CanGo(s, p)
  {
    var c := s.procs[p];
    match c.pc
    case Fork2(k) => At(Set(s, k, s.procs[k].(guard := Free)), p, Fork3(k))
    case Fork3(k) => At(Set(s, k, s.procs[k].(parent := Some(p))), p, Fork4(k))
    case Fork4(k) => At(Set(s, k, s.procs[k].(st := ACTIVE, pc := Run)), p, Run)
    case ExitLock => At(s.(wl := HeldBy(p)), p, Reparent(0))
    case Reparent(i) =>
      if i >= |s.procs| then At(s, p, ExitWake)
      else if s.procs[i].parent == Some(p) then At(Set(s, i, s.procs[i].(parent := Some(INIT))), p, ReparentWake(i))
      else At(s, p, Reparent(i + 1))
    case ReparentWake(i) => At(Woken(s, INIT), p, Reparent(i + 1))
    case ExitWake => At(Woken(s, c.parent.v), p, ExitGuard)
    case ExitGuard => Set(s, p, c.(guard := Self, pc := ExitZombie))
    case ExitRelease => At(s.(wl := Unheld), p, ExitSwitch)
    case ExitSwitch => Set(s, p, c.(guard := Free, pc := Dead))
    case WaitLock => At(s.(wl := HeldBy(p)), p, Scan(0, false))
    case Scan(i, kids) =>
      if i == |s.procs| then (if kids then At(s, p, WaitGuard) else At(s.(wl := Unheld), p, Run))
      else if s.procs[i].parent == Some(p) then At(Set(s, i, s.procs[i].(guard := Parent(p))), p, ScanAt(i))
      else At(s, p, Scan(i + 1, kids))
    case ScanAt(i) =>
      var k := s.procs[i];
      if k.st == ZOMBIE then At(Freed(s, i), p, Run).(wl := Unheld, reaped := s.reaped + [Reap(k.pid, k.xstate, p)])
      else At(Set(s, i, k.(guard := Free)), p, Scan(i + 1, true))
    case WaitGuard => Set(s, p, c.(guard := Self, pc := WaitRelease))
    case WaitRelease => At(s.(wl := Unheld), p, WaitSet)
    case WaitSet => Set(s, p, c.(st := SLEEPING, pc := WaitSwitch))
    case WaitSwitch => Set(s, p, c.(guard := Free, pc := Asleep))
    case Asleep => At(s, p, Rewait)
    case Rewait => At(s.(wl := HeldBy(p)), p, Scan(0, false))
    case _ => s
  }

  predicate Init(s: State) {
    && |s.procs| > INIT && s.wl == Unheld && s.nextpid == 2 && s.slot == map[1 := INIT] && s.exited == map[] &&
       s.reaped == []
    && (forall p :: 0 <= p < |s.procs| ==>
          s.procs[p] == if p == INIT then Proc(Free, ACTIVE, None, 1, 0, 0, Run)
                        else Proc(Free, UNUSED, None, 0, 0, 0, Unborn))
  }

  // ------------------------------------------------------------------------------------------------------------------
  // Invariants
  // ------------------------------------------------------------------------------------------------------------------

  /** Locks are held by who is at a pc that holds them. */
  predicate LocksOk(s: State, p: nat)
    requires p < |s.procs|
  {
    var c := s.procs[p];
    && (HoldsWl(c.pc) ==> s.wl == HeldBy(p))
    && (Guarding(c.pc) <==> c.guard == Self)
    && (c.guard.Parent? ==> c.guard.q < |s.procs| && c.guard.q != p && s.procs[c.guard.q].pc == ScanAt(p))
    && (c.pc.ScanAt? ==> c.pc.i < |s.procs| && c.pc.i != p && s.procs[c.pc.i].guard == Parent(p) &&
                         s.procs[c.pc.i].parent == Some(p))
    && (c.guard.Maker? ==> c.guard.q < |s.procs| && c.guard.q != p && s.procs[c.guard.q].pc == Fork2(p))
    && (c.pc.Fork2? ==> c.pc.c < |s.procs| && s.procs[c.pc.c].guard == Maker(p))
    && (c.pc.Scan? ==> c.pc.i <= |s.procs|)
  }

  /** A process being made belongs to its maker. */
  predicate MakingOk(s: State, p: nat)
    requires p < |s.procs|
  {
    var c := s.procs[p];
    && (c.pc.Fork2? || c.pc.Fork3? || c.pc.Fork4? ==>
          && c.pc.c < |s.procs| && c.pc.c != p && s.procs[c.pc.c].st == USED && s.procs[c.pc.c].maker == p
          && (s.procs[c.pc.c].parent == if c.pc.Fork4? then Some(p) else None))
    && (c.st == USED && c.parent.Some? ==> c.parent == Some(c.maker))
    && (c.st == USED ==> c.maker < |s.procs| && c.maker != p &&
                         (s.procs[c.maker].pc == Fork2(p) || s.procs[c.maker].pc == Fork3(p) ||
                          s.procs[c.maker].pc == Fork4(p)))
  }

  /** What the state of a process can be. */
  predicate StateOk(p: nat, c: Proc) {
    && (c.st == UNUSED || c.st == USED <==> c.pc == Unborn)
    && (c.st == ZOMBIE <==> c.pc.ExitRelease? || c.pc.ExitSwitch? || c.pc.Dead?)
    && (c.st == SLEEPING ==> c.pc.WaitSwitch? || c.pc.Asleep?)
    && (c.pc.WaitSwitch? || c.pc.Asleep? ==> c.st == SLEEPING || c.st == ACTIVE)
    && (c.st == UNUSED ==> c.parent == None && !c.guard.Self? && !c.guard.Maker?)
    && (c.st == USED && c.parent == None ==> !c.guard.Parent?)
    && (c.guard.Maker? ==> c.st == USED && c.guard.q == c.maker)
    && (p == INIT ==> c.parent == None && (c.st == ACTIVE || c.st == SLEEPING) && !c.pc.ExitLock? && !c.pc.Reparent? &&
                      !c.pc.ReparentWake? && !Leaving(c.pc))
    && (p != INIT && (c.st == ACTIVE || c.st == SLEEPING || c.st == ZOMBIE) ==> c.parent.Some?)
  }

  /** Process q still reaps child p: it has not given its children away, or is doing so and has not come to p. */
  predicate Fosters(q: Proc, p: nat) {
    && (q.st == ACTIVE || q.st == SLEEPING) && !Leaving(q.pc)
    && (q.pc.Reparent? ==> p >= q.pc.i) && (q.pc.ReparentWake? ==> p > q.pc.i)
  }

  /** A parent is a process that still reaps its children. */
  predicate ParentOk(s: State, p: nat)
    requires p < |s.procs|
  {
    var c := s.procs[p];
    c.parent.Some? ==>
      && c.parent.v < |s.procs| && c.parent.v != p
      && Fosters(s.procs[c.parent.v], p)
  }

  /** In wait, having found nothing, and asleep or on the way there. */
  predicate Committed(c: Proc) {
    c.pc.WaitGuard? || c.pc.WaitRelease? || c.pc.WaitSet? || c.st == SLEEPING
  }

  /** An exiting process has just given a child to init and is about to wake it. */
  predicate Pending(s: State) {
    s.wl.HeldBy? && s.wl.p < |s.procs| && s.procs[s.wl.p].pc.ReparentWake?
  }

  /** No parent sleeps on a zombie, unless it is init and about to be woken; and none sleeps once its child has woken it
      on the way out. */
  predicate WakeOk(s: State, p: nat)
    requires p < |s.procs|
  {
    var c := s.procs[p];
    && (c.parent.Some? && c.parent.v < |s.procs| && c.st == ZOMBIE && Committed(s.procs[c.parent.v]) ==>
        c.parent.v == INIT && Pending(s))
    && (c.parent.Some? && c.parent.v < |s.procs| && (c.pc.ExitGuard? || c.pc.ExitZombie?) ==>
        !Committed(s.procs[c.parent.v]))
    && (c.pc.Scan? || c.pc.ScanAt? ==> forall k :: 0 <= k < c.pc.i && k < |s.procs| && s.procs[k].parent == Some(p) ==>
        s.procs[k].st != ZOMBIE)
  }

  /** Each pid is one process's for ever. */
  predicate PidOk(s: State, p: nat)
    requires p < |s.procs|
  {
    var c := s.procs[p];
    && (c.st != UNUSED ==> c.pid in s.slot && s.slot[c.pid] == p && c.pid < s.nextpid)
    && (c.st == ZOMBIE ==> c.pid in s.exited && s.exited[c.pid] == c.xstate)
    && (c.st != UNUSED && c.st != ZOMBIE ==> c.pid !in s.exited)
    && (c.st != UNUSED ==> forall k :: 0 <= k < |s.reaped| ==> s.reaped[k].pid != c.pid)
  }

  /** Every reaped child had exited with the status delivered, and no child is reaped twice. */
  predicate ReapedOk(s: State) {
    && (forall k :: 0 <= k < |s.reaped| ==>
        s.reaped[k].pid in s.exited && s.exited[s.reaped[k].pid] == s.reaped[k].status && s.reaped[k].pid < s.nextpid)
    && (forall k, l :: 0 <= k < l < |s.reaped| ==> s.reaped[k].pid != s.reaped[l].pid)
    && (forall x :: x in s.exited ==> x < s.nextpid)
  }

  predicate Ok(s: State, p: nat)
    requires p < |s.procs|
  {
    LocksOk(s, p) && MakingOk(s, p) && StateOk(p, s.procs[p]) && ParentOk(s, p) && WakeOk(s, p) && PidOk(s, p)
  }

  predicate Inv(s: State) {
    && |s.procs| > INIT
    && (forall p :: 0 <= p < |s.procs| ==> Ok(s, p))
    && (s.wl.HeldBy? ==> s.wl.p < |s.procs| && HoldsWl(s.procs[s.wl.p].pc))
    && ReapedOk(s)
  }

  lemma InitInv(s: State)
    requires Init(s)
    ensures Inv(s)
  {
  }

  predicate Forking(c: Pc) {
    c.Fork2? || c.Fork3? || c.Fork4?
  }

  /** A change to process p that no other process's invariant can see. */
  predicate Local(s: State, p: nat, c: Proc)
    requires p < |s.procs|
  {
    var d := s.procs[p];
    && c.parent == d.parent && c.pid == d.pid && c.maker == d.maker
    && (c.st == d.st || (c.st == ACTIVE && d.st == SLEEPING) || (c.st == SLEEPING && d.st == ACTIVE))
    && (c.guard == d.guard || ((c.guard.Free? || c.guard.Self?) && (d.guard.Free? || d.guard.Self?)))
    && (Committed(c) ==> Committed(d)) && (Leaving(c.pc) ==> Leaving(d.pc))
    && !Forking(c.pc) && (c.pc.Reparent? ==> c.pc.i == 0) && !c.pc.ReparentWake? && !c.pc.ScanAt?
    && !Forking(d.pc) && !d.pc.Reparent? && !d.pc.ReparentWake? && !d.pc.ScanAt?
  }

  /** wait_lock as process p leaves it when it goes from pc d to pc c. */
  function Wl(s: State, p: nat, d: Pc, c: Pc): Spin {
    if HoldsWl(d) == HoldsWl(c) then s.wl else if HoldsWl(c) then HeldBy(p) else Unheld
  }

  predicate WlOk(s: State, p: nat, c: Pc)
    requires p < |s.procs|
  {
    HoldsWl(c) && !HoldsWl(s.procs[p].pc) ==> s.wl == Unheld
  }

  lemma LocalLocks(s: State, p: nat, c: Proc, q: nat)
    requires p < |s.procs| && q < |s.procs| && q != p && Local(s, p, c) && LocksOk(s, q) && LocksOk(s, p) &&
             WlOk(s, p, c.pc)
    ensures LocksOk(Set(s, p, c).(wl := Wl(s, p, s.procs[p].pc, c.pc)), q)
  {
    hide Committed, Leaving;
  }

  lemma LocalMaking(s: State, p: nat, c: Proc, q: nat, wl: Spin)
    requires p < |s.procs| && q < |s.procs| && q != p && Local(s, p, c) && MakingOk(s, q)
    ensures MakingOk(Set(s, p, c).(wl := wl), q)
  {
    hide HoldsWl, Committed, Leaving;
  }

  lemma LocalParent(s: State, p: nat, c: Proc, q: nat, wl: Spin)
    requires p < |s.procs| && q < |s.procs| && q != p && Local(s, p, c) && ParentOk(s, q)
    ensures ParentOk(Set(s, p, c).(wl := wl), q)
  {
    hide HoldsWl, Committed;
  }

  lemma LocalWake(s: State, p: nat, c: Proc, q: nat)
    requires p < |s.procs| && q < |s.procs| && q != p && Local(s, p, c) && WakeOk(s, q) && WlOk(s, p, c.pc)
    requires (HoldsWl(s.procs[p].pc) ==> s.wl == HeldBy(p)) &&
             (s.wl.HeldBy? ==> s.wl.p < |s.procs| && HoldsWl(s.procs[s.wl.p].pc))
    ensures WakeOk(Set(s, p, c).(wl := Wl(s, p, s.procs[p].pc, c.pc)), q)
  {
    hide Leaving;
    assert Pending(Set(s, p, c).(wl := Wl(s, p, s.procs[p].pc, c.pc))) == Pending(s);
  }

  lemma LocalKept(s: State, p: nat, c: Proc)
    requires Inv(s) && p < |s.procs| && Local(s, p, c) && WlOk(s, p, c.pc)
    requires Ok(Set(s, p, c).(wl := Wl(s, p, s.procs[p].pc, c.pc)), p)
    ensures Inv(Set(s, p, c).(wl := Wl(s, p, s.procs[p].pc, c.pc)))
  {
    hide MakingOk, StateOk, ParentOk, WakeOk, Committed, Leaving;
    var s' := Set(s, p, c).(wl := Wl(s, p, s.procs[p].pc, c.pc));
    forall q | 0 <= q < |s.procs| ensures Ok(s', q) {
      assert Ok(s, q) && Ok(s, p);
      if q != p {
        LocalLocks(s, p, c, q);
        LocalMaking(s, p, c, q, s'.wl);
        LocalParent(s, p, c, q, s'.wl);
        LocalWake(s, p, c, q);
      }
    }
    assert Ok(s, p);
  }

  /** The steps that are local. */
  predicate IsLocal(s: State, p: nat)
    requires p < |s.procs|
  {
    var c := s.procs[p].pc;
    || c.ExitLock? || c.ExitGuard? || c.ExitRelease? || c.ExitSwitch? || c.WaitLock? || c.WaitGuard? || c.WaitRelease?
    || c.WaitSet? || c.WaitSwitch? || c.Asleep? || c.Rewait?
    || (c.Scan? && c.i < |s.procs| && s.procs[c.i].parent != Some(p)) || (c.Scan? && c.i == |s.procs| && !c.kids)
  }

  lemma GoLocal(s: State, p: nat)
    requires Inv(s) && p < |s.procs| && CanGo(s, p) && IsLocal(s, p)
    ensures Inv(Step1(s, p))
  {
    hide Inv, CanGo, IsLocal, Ok, Step1, Local, WlOk;
    LocalEffect(s, p);
    LocalIs(s, p);
    OkLocal(s, p);
    LocalKept(s, p, Step1(s, p).procs[p]);
  }

  lemma LocalEffect(s: State, p: nat)
    requires Inv(s) && p < |s.procs| && CanGo(s, p) && IsLocal(s, p)
    ensures var s' := Step1(s, p);
            |s'.procs| == |s.procs| && s' == Set(s, p, s'.procs[p]).(wl := Wl(s, p, s.procs[p].pc, s'.procs[p].pc))
  {
    assert Ok(s, p);
  }

  lemma LocalWl(s: State, p: nat)
    requires Inv(s) && p < |s.procs| && CanGo(s, p) && IsLocal(s, p)
    ensures |Step1(s, p).procs| == |s.procs| && WlOk(s, p, Step1(s, p).procs[p].pc)
  {
  }

  lemma LocalExit(s: State, p: nat)
    requires Inv(s) && p < |s.procs| && CanGo(s, p) && IsLocal(s, p) &&
             (s.procs[p].pc.ExitLock? || Leaving(s.procs[p].pc))
    ensures |Step1(s, p).procs| == |s.procs| && Local(s, p, Step1(s, p).procs[p])
  {
    hide MakingOk, ParentOk, WakeOk, PidOk;
    assert Ok(s, p);
  }

  lemma LocalWait(s: State, p: nat)
    requires Inv(s) && p < |s.procs| && CanGo(s, p) && IsLocal(s, p) &&
             !(s.procs[p].pc.ExitLock? || Leaving(s.procs[p].pc))
    ensures |Step1(s, p).procs| == |s.procs| && Local(s, p, Step1(s, p).procs[p])
  {
    hide MakingOk, ParentOk, WakeOk, PidOk;
    assert Ok(s, p);
  }

  lemma LocalIs(s: State, p: nat)
    requires Inv(s) && p < |s.procs| && CanGo(s, p) && IsLocal(s, p)
    ensures |Step1(s, p).procs| == |s.procs| && Local(s, p, Step1(s, p).procs[p]) && WlOk(s, p, Step1(s, p).procs[p].pc)
  {
    hide Inv, CanGo, IsLocal, Step1, Local, WlOk;
    LocalWl(s, p);
    if s.procs[p].pc.ExitLock? || Leaving(s.procs[p].pc) {
      LocalExit(s, p);
    } else {
      LocalWait(s, p);
    }
  }

  lemma OkLocalScan(s: State, p: nat)
    requires Inv(s) && p < |s.procs| && CanGo(s, p) && IsLocal(s, p) && s.procs[p].pc.Scan?
    ensures |Step1(s, p).procs| == |s.procs| && Ok(Step1(s, p), p)
  {
    assert Ok(s, p);
  }

  lemma OkLocalExit(s: State, p: nat)
    requires Inv(s) && p < |s.procs| && CanGo(s, p) && IsLocal(s, p) &&
             (s.procs[p].pc.ExitLock? || Leaving(s.procs[p].pc))
    ensures |Step1(s, p).procs| == |s.procs| && Ok(Step1(s, p), p)
  {
    assert Ok(s, p);
  }

  lemma OkLocalWait(s: State, p: nat)
    requires Inv(s) && p < |s.procs| && CanGo(s, p) && IsLocal(s, p) &&
             !(s.procs[p].pc.ExitLock? || Leaving(s.procs[p].pc)) && !s.procs[p].pc.Scan?
    ensures |Step1(s, p).procs| == |s.procs| && Ok(Step1(s, p), p)
  {
    assert Ok(s, p);
  }

  lemma OkLocal(s: State, p: nat)
    requires Inv(s) && p < |s.procs| && CanGo(s, p) && IsLocal(s, p)
    ensures |Step1(s, p).procs| == |s.procs| && Ok(Step1(s, p), p)
  {
    hide Inv, CanGo, IsLocal, Ok, Step1;
    if s.procs[p].pc.Scan? {
      OkLocalScan(s, p);
    } else if s.procs[p].pc.ExitLock? || Leaving(s.procs[p].pc) {
      OkLocalExit(s, p);
    } else {
      OkLocalWait(s, p);
    }
  }

  lemma ExitLocal(s: State, p: nat)
    requires Inv(s) && Enabled(s, Exit(p))
    ensures Inv(Apply(s, Exit(p)))
  {
    var s' := Apply(s, Exit(p));
    assert Ok(s, p);
    assert s' == Set(s, p, s'.procs[p]).(wl := Wl(s, p, s.procs[p].pc, s'.procs[p].pc));
    LocalKept(s, p, s'.procs[p]);
  }

  lemma WaitLocal(s: State, p: nat)
    requires Inv(s) && Enabled(s, Wait(p))
    ensures Inv(Apply(s, Wait(p)))
  {
    var s' := Apply(s, Wait(p));
    assert Ok(s, p);
    assert s' == Set(s, p, s'.procs[p]).(wl := Wl(s, p, s.procs[p].pc, s'.procs[p].pc));
    LocalKept(s, p, s'.procs[p]);
  }

  lemma KillLocal(s: State, step: Step)
    requires Inv(s) && Enabled(s, step) && (step.Kill? || step.Killed?)
    ensures Inv(Apply(s, step))
  {
    var s' := Apply(s, step);
    assert Ok(s, step.p);
    assert s' == Set(s, step.p, s'.procs[step.p]).(wl := Wl(s, step.p, s.procs[step.p].pc, s'.procs[step.p].pc));
    LocalKept(s, step.p, s'.procs[step.p]);
  }

  lemma OutsideLocal(s: State, step: Step)
    requires Inv(s) && Enabled(s, step) && (step.Exit? || step.Wait? || step.Kill? || step.Killed?)
    ensures Inv(Apply(s, step))
  {
    hide Inv, Enabled, Apply;
    match step
    case Exit(p) => ExitLocal(s, p);
    case Wait(p) => WaitLocal(s, p);
    case _ => KillLocal(s, step);
  }

  // ------------------------------------------------------------------------------------------------------------------
  // Steps that change two processes
  // ------------------------------------------------------------------------------------------------------------------

  /** What changes from c to d has to do with no process but p and k. */
  predicate Closed(p: nat, k: nat, c: Proc, d: Proc) {
    && (d.pc != c.pc && c.pc.ScanAt? ==> c.pc.i == p || c.pc.i == k)
    && (d.pc != c.pc && Forking(c.pc) ==> c.pc.c == p || c.pc.c == k)
    && ((d.guard != c.guard || d.parent != c.parent) && (c.guard.Parent? || c.guard.Maker?) ==>
        c.guard.q == p || c.guard.q == k)
    && ((d.st != c.st || d.maker != c.maker || d.parent != c.parent) && c.st == USED ==> c.maker == p || c.maker == k)
  }

  /** What a process that others can look at may turn into: not committed to sleep if it was not, no new zombie, and no
      new parent but p, unless p has wait_lock. */
  predicate Tame(s: State, p: nat, c: Proc, c': Proc) {
    && (Committed(c') ==> Committed(c))
    && (s.wl == HeldBy(p) ||
        ((c'.st == ZOMBIE ==> c.st == ZOMBIE) && (c'.parent == c.parent || c'.parent == None || c'.parent == Some(p))))
  }

  /** Only p and k change, in ways the rest cannot see. */
  predicate Pair(s: State, s': State, p: nat, k: nat) {
    && p < |s.procs| && k < |s.procs| && |s'.procs| == |s.procs|
    && (forall q :: 0 <= q < |s.procs| && q != p && q != k ==> s'.procs[q] == s.procs[q])
    && Closed(p, k, s.procs[p], s'.procs[p]) && Closed(p, k, s.procs[k], s'.procs[k]) &&
       Tame(s, p, s.procs[p], s'.procs[p]) && Tame(s, p, s.procs[k], s'.procs[k])
    && (s'.wl == s.wl || s.wl == HeldBy(p))
  }

  lemma PairLocks(s: State, s': State, p: nat, k: nat, q: nat)
    requires Pair(s, s', p, k) && q < |s.procs| && q != p && q != k && LocksOk(s, q)
    ensures LocksOk(s', q)
  {
    hide Committed, Tame;
  }

  lemma PairMaking(s: State, s': State, p: nat, k: nat, q: nat)
    requires Pair(s, s', p, k) && q < |s.procs| && q != p && q != k && MakingOk(s, q)
    ensures MakingOk(s', q)
  {
    hide Committed, Tame;
  }

  lemma PairParent(s: State, s': State, p: nat, k: nat, q: nat)
    requires Pair(s, s', p, k) && q < |s.procs| && q != p && q != k && ParentOk(s, q)
    requires (s.procs[q].parent == Some(p) ==> Fosters(s'.procs[p], q)) &&
             (s.procs[q].parent == Some(k) ==> Fosters(s'.procs[k], q))
    ensures ParentOk(s', q)
  {
    hide Committed, Tame, Closed, Fosters;
  }

  lemma PairWake(s: State, s': State, p: nat, k: nat, q: nat)
    requires Pair(s, s', p, k) && q < |s.procs| && q != p && q != k && WakeOk(s, q) && LocksOk(s, q)
    requires Pending(s) && INIT < |s.procs| ==> Pending(s') || !Committed(s'.procs[INIT])
    ensures WakeOk(s', q)
  {
    hide Closed;
  }

  /** History and pids: only pids of p and k may exit or be reaped. */
  predicate History(s: State, s': State, p: nat, k: nat)
    requires p < |s.procs| && k < |s.procs| && |s'.procs| == |s.procs|
  {
    && (s'.slot == s.slot || s'.slot == s.slot[s.nextpid := k]) && s.nextpid <= s'.nextpid
    && (s'.exited == s.exited ||
        (s.procs[p].st != UNUSED && s'.exited == s.exited[s.procs[p].pid := s'.procs[p].xstate]))
    && (s'.reaped == s.reaped ||
        (s.procs[k].st != UNUSED && s'.reaped == s.reaped + [Reap(s.procs[k].pid, s.procs[k].xstate, p)]))
  }

  lemma PairPid(s: State, s': State, p: nat, k: nat, q: nat)
    requires Pair(s, s', p, k) && History(s, s', p, k) && q < |s.procs| && q != p && q != k
    requires PidOk(s, q) && PidOk(s, p) && PidOk(s, k)
    ensures PidOk(s', q)
  {
    hide Closed, Tame;
  }

  lemma PairKept(s: State, s': State, p: nat, k: nat)
    requires Inv(s) && Pair(s, s', p, k) && History(s, s', p, k) && Ok(s', p) && Ok(s', k) && ReapedOk(s') &&
             INIT < |s'.procs|
    requires forall q :: 0 <= q < |s.procs| && q != p && q != k ==>
               (s.procs[q].parent == Some(p) ==> Fosters(s'.procs[p], q)) &&
                 (s.procs[q].parent == Some(k) ==> Fosters(s'.procs[k], q))
    requires Pending(s) ==> Pending(s') || !Committed(s'.procs[INIT])
    requires s'.wl.HeldBy? ==> s'.wl.p < |s.procs| && HoldsWl(s'.procs[s'.wl.p].pc)
    ensures Inv(s')
  {
    hide LocksOk, MakingOk, StateOk, ParentOk, WakeOk, PidOk, Committed, Leaving, Closed, Tame, History, Pending,
         HoldsWl, Fosters, ReapedOk;
    assert Ok(s, p) && Ok(s, k);
    forall q | 0 <= q < |s.procs| ensures Ok(s', q) {
      assert Ok(s, q);
      if q != p && q != k {
        PairLocks(s, s', p, k, q);
        PairMaking(s, s', p, k, q);
        PairParent(s, s', p, k, q);
        PairWake(s, s', p, k, q);
        PairPid(s, s', p, k, q);
      }
    }
  }

  /** Whose children c would reap, c' would too, except perhaps k. */
  ghost predicate StillFosters(c: Proc, c': Proc, k: nat) {
    forall q: nat {:trigger Fosters(c', q)} :: q != k && Fosters(c, q) ==> Fosters(c', q)
  }

  lemma PairStep(s: State, s': State, p: nat, k: nat)
    requires Inv(s) && Pair(s, s', p, k) && History(s, s', p, k) && Ok(s', p) && Ok(s', k) && ReapedOk(s') &&
             INIT < |s'.procs|
    requires StillFosters(s.procs[p], s'.procs[p], k) && StillFosters(s.procs[k], s'.procs[k], k)
    requires Pending(s) ==> Pending(s') || !Committed(s'.procs[INIT])
    requires s'.wl.HeldBy? ==> s'.wl.p < |s.procs| && HoldsWl(s'.procs[s'.wl.p].pc)
    ensures Inv(s')
  {
    hide LocksOk, MakingOk, StateOk, WakeOk, PidOk, Committed, Leaving, Closed, Tame, History, Pending, HoldsWl,
         Fosters, ReapedOk;
    forall q | 0 <= q < |s.procs| && q != p && q != k
      ensures (s.procs[q].parent == Some(p) ==> Fosters(s'.procs[p], q)) &&
              (s.procs[q].parent == Some(k) ==> Fosters(s'.procs[k], q))
    {
      assert Ok(s, q);
    }
    PairKept(s, s', p, k);
  }

  /** The scan is over: every child was seen not to be a zombie. */
  lemma ScannedOther(s: State, p: nat, q: nat)
    requires p < |s.procs| && q < |s.procs| && q != p && Ok(s, p) && Ok(s, q) && s.procs[p].pc == Scan(|s.procs|, true)
    ensures Ok(Step1(s, p), q)
  {
  }

  lemma GoScanned(s: State, p: nat)
    requires Inv(s) && p < |s.procs| && s.procs[p].pc == Scan(|s.procs|, true)
    ensures Inv(Step1(s, p))
  {
    hide LocksOk, MakingOk, StateOk, ParentOk, WakeOk, PidOk;
    assert Ok(s, p);
    ScannedOwn(s, p);
    forall q | 0 <= q < |s.procs| ensures Ok(Step1(s, p), q) {
      assert Ok(s, q);
      if q != p {
        ScannedOther(s, p, q);
      }
    }
  }

  lemma ScannedOwn(s: State, p: nat)
    requires p < |s.procs| && Ok(s, p) && s.procs[p].pc == Scan(|s.procs|, true)
    ensures Ok(Step1(s, p), p)
  {
  }

  lemma GoScanOwnP(s: State, p: nat)
    requires Inv(s) && p < |s.procs| && CanGo(s, p) && s.procs[p].pc.Scan? && s.procs[p].pc.i < |s.procs| &&
             s.procs[s.procs[p].pc.i].parent == Some(p)
    ensures var s', k := Step1(s, p), s.procs[p].pc.i;
            |s'.procs| == |s.procs| && k < |s.procs| && Ok(s', p)
  {
    var s', k := Step1(s, p), s.procs[p].pc.i;
    assert Ok(s, p) && Ok(s, k);
  }

  lemma GoScanOwnK(s: State, p: nat)
    requires Inv(s) && p < |s.procs| && CanGo(s, p) && s.procs[p].pc.Scan? && s.procs[p].pc.i < |s.procs| &&
             s.procs[s.procs[p].pc.i].parent == Some(p)
    ensures var s', k := Step1(s, p), s.procs[p].pc.i;
            |s'.procs| == |s.procs| && k < |s.procs| && Ok(s', k)
  {
    var s', k := Step1(s, p), s.procs[p].pc.i;
    assert Ok(s, p) && Ok(s, k);
  }

  lemma GoScanOwn(s: State, p: nat)
    requires Inv(s) && p < |s.procs| && CanGo(s, p) && s.procs[p].pc.Scan? && s.procs[p].pc.i < |s.procs| &&
             s.procs[s.procs[p].pc.i].parent == Some(p)
    ensures var s', k := Step1(s, p), s.procs[p].pc.i;
            |s'.procs| == |s.procs| && k < |s.procs| && Ok(s', p) && Ok(s', k)
  {
    hide Inv, Ok, Step1;
    GoScanOwnP(s, p);
    GoScanOwnK(s, p);
  }

  lemma GoScanPair(s: State, p: nat)
    requires Inv(s) && p < |s.procs| && CanGo(s, p) && s.procs[p].pc.Scan? && s.procs[p].pc.i < |s.procs| &&
             s.procs[s.procs[p].pc.i].parent == Some(p)
    ensures var s', k := Step1(s, p), s.procs[p].pc.i;
            Pair(s, s', p, k) && History(s, s', p, k)
  {
    hide PidOk, WakeOk;
    var s', k := Step1(s, p), s.procs[p].pc.i;
    assert Ok(s, p) && Ok(s, k);
  }

  lemma GoScan(s: State, p: nat)
    requires Inv(s) && p < |s.procs| && CanGo(s, p) && s.procs[p].pc.Scan? && s.procs[p].pc.i < |s.procs| &&
             s.procs[s.procs[p].pc.i].parent == Some(p)
    ensures Inv(Step1(s, p))
  {
    hide MakingOk, PidOk, Pair, History;
    var s', k := Step1(s, p), s.procs[p].pc.i;
    assert Ok(s, p) && Ok(s, k);
    GoScanPair(s, p);
    GoScanOwn(s, p);
    PairStep(s, s', p, k);
  }

  lemma GoScanAtOwnP(s: State, p: nat)
    requires Inv(s) && p < |s.procs| && CanGo(s, p) && s.procs[p].pc.ScanAt? && s.procs[s.procs[p].pc.i].st != ZOMBIE
    ensures var s', k := Step1(s, p), s.procs[p].pc.i;
            |s'.procs| == |s.procs| && k < |s.procs| && Ok(s', p)
  {
    var s', k := Step1(s, p), s.procs[p].pc.i;
    assert Ok(s, p) && Ok(s, k);
  }

  lemma GoScanAtOwnK(s: State, p: nat)
    requires Inv(s) && p < |s.procs| && CanGo(s, p) && s.procs[p].pc.ScanAt? && s.procs[s.procs[p].pc.i].st != ZOMBIE
    ensures var s', k := Step1(s, p), s.procs[p].pc.i;
            |s'.procs| == |s.procs| && k < |s.procs| && Ok(s', k)
  {
    var s', k := Step1(s, p), s.procs[p].pc.i;
    assert Ok(s, p) && Ok(s, k);
  }

  lemma GoScanAtOwn(s: State, p: nat)
    requires Inv(s) && p < |s.procs| && CanGo(s, p) && s.procs[p].pc.ScanAt? && s.procs[s.procs[p].pc.i].st != ZOMBIE
    ensures var s', k := Step1(s, p), s.procs[p].pc.i;
            |s'.procs| == |s.procs| && k < |s.procs| && Ok(s', p) && Ok(s', k)
  {
    hide Inv, Ok, Step1;
    GoScanAtOwnP(s, p);
    GoScanAtOwnK(s, p);
  }

  lemma GoScanAtPair(s: State, p: nat)
    requires Inv(s) && p < |s.procs| && CanGo(s, p) && s.procs[p].pc.ScanAt? && s.procs[s.procs[p].pc.i].st != ZOMBIE
    ensures var s', k := Step1(s, p), s.procs[p].pc.i;
            Pair(s, s', p, k) && History(s, s', p, k)
  {
    hide PidOk, WakeOk;
    var s', k := Step1(s, p), s.procs[p].pc.i;
    assert Ok(s, p) && Ok(s, k);
  }

  lemma GoScanAt(s: State, p: nat)
    requires Inv(s) && p < |s.procs| && CanGo(s, p) && s.procs[p].pc.ScanAt? && s.procs[s.procs[p].pc.i].st != ZOMBIE
    ensures Inv(Step1(s, p))
  {
    hide MakingOk, PidOk, Pair, History;
    var s', k := Step1(s, p), s.procs[p].pc.i;
    assert Ok(s, p) && Ok(s, k);
    GoScanAtPair(s, p);
    GoScanAtOwn(s, p);
    PairStep(s, s', p, k);
  }

  lemma GoReapOwnP(s: State, p: nat)
    requires Inv(s) && p < |s.procs| && CanGo(s, p) && s.procs[p].pc.ScanAt? && s.procs[s.procs[p].pc.i].st == ZOMBIE
    ensures var s', k := Step1(s, p), s.procs[p].pc.i;
            |s'.procs| == |s.procs| && k < |s.procs| && Ok(s', p)
  {
    var s', k := Step1(s, p), s.procs[p].pc.i;
    assert Ok(s, p) && Ok(s, k);
  }

  lemma GoReapOwnK(s: State, p: nat)
    requires Inv(s) && p < |s.procs| && CanGo(s, p) && s.procs[p].pc.ScanAt? && s.procs[s.procs[p].pc.i].st == ZOMBIE
    ensures var s', k := Step1(s, p), s.procs[p].pc.i;
            |s'.procs| == |s.procs| && k < |s.procs| && Ok(s', k)
  {
    var s', k := Step1(s, p), s.procs[p].pc.i;
    assert Ok(s, p) && Ok(s, k);
  }

  lemma GoReapOwn(s: State, p: nat)
    requires Inv(s) && p < |s.procs| && CanGo(s, p) && s.procs[p].pc.ScanAt? && s.procs[s.procs[p].pc.i].st == ZOMBIE
    ensures var s', k := Step1(s, p), s.procs[p].pc.i;
            |s'.procs| == |s.procs| && k < |s.procs| && Ok(s', p) && Ok(s', k)
  {
    hide Inv, Ok, Step1;
    GoReapOwnP(s, p);
    GoReapOwnK(s, p);
  }

  lemma GoReapPair(s: State, p: nat)
    requires Inv(s) && p < |s.procs| && CanGo(s, p) && s.procs[p].pc.ScanAt? && s.procs[s.procs[p].pc.i].st == ZOMBIE
    ensures var s', k := Step1(s, p), s.procs[p].pc.i;
            Pair(s, s', p, k) && History(s, s', p, k)
  {
    hide PidOk, WakeOk;
    var s', k := Step1(s, p), s.procs[p].pc.i;
    assert Ok(s, p) && Ok(s, k);
  }

  lemma GoReap(s: State, p: nat)
    requires Inv(s) && p < |s.procs| && CanGo(s, p) && s.procs[p].pc.ScanAt? && s.procs[s.procs[p].pc.i].st == ZOMBIE
    ensures Inv(Step1(s, p))
  {
    hide MakingOk, Pair, History;
    var s', k := Step1(s, p), s.procs[p].pc.i;
    assert Ok(s, p) && Ok(s, k);
    GoReapPair(s, p);
    GoReapOwn(s, p);
    PairStep(s, s', p, k);
  }

  lemma GoFaultOwnP(s: State, p: nat)
    requires Inv(s) && Enabled(s, Fault(p))
    ensures var s', k := Apply(s, Fault(p)), s.procs[p].pc.i;
            |s'.procs| == |s.procs| && k < |s.procs| && Ok(s', p)
  {
    var s', k := Apply(s, Fault(p)), s.procs[p].pc.i;
    assert Ok(s, p) && Ok(s, k);
  }

  lemma GoFaultOwnK(s: State, p: nat)
    requires Inv(s) && Enabled(s, Fault(p))
    ensures var s', k := Apply(s, Fault(p)), s.procs[p].pc.i;
            |s'.procs| == |s.procs| && k < |s.procs| && Ok(s', k)
  {
    var s', k := Apply(s, Fault(p)), s.procs[p].pc.i;
    assert Ok(s, p) && Ok(s, k);
  }

  lemma GoFaultOwn(s: State, p: nat)
    requires Inv(s) && Enabled(s, Fault(p))
    ensures var s', k := Apply(s, Fault(p)), s.procs[p].pc.i;
            |s'.procs| == |s.procs| && k < |s.procs| && Ok(s', p) && Ok(s', k)
  {
    hide Inv, Ok, Step1;
    GoFaultOwnP(s, p);
    GoFaultOwnK(s, p);
  }

  lemma GoFaultPair(s: State, p: nat)
    requires Inv(s) && Enabled(s, Fault(p))
    ensures var s', k := Apply(s, Fault(p)), s.procs[p].pc.i;
            Pair(s, s', p, k) && History(s, s', p, k)
  {
    hide PidOk, WakeOk;
    var s', k := Apply(s, Fault(p)), s.procs[p].pc.i;
    assert Ok(s, p) && Ok(s, k);
  }

  lemma GoFault(s: State, p: nat)
    requires Inv(s) && Enabled(s, Fault(p))
    ensures Inv(Apply(s, Fault(p)))
  {
    hide MakingOk, PidOk, Pair, History;
    var s', k := Apply(s, Fault(p)), s.procs[p].pc.i;
    assert Ok(s, p) && Ok(s, k);
    GoFaultPair(s, p);
    GoFaultOwn(s, p);
    PairStep(s, s', p, k);
  }

  lemma GoStatus(s: State, p: nat, x: int)
    requires Inv(s) && Enabled(s, Status(p, x))
    ensures Inv(Apply(s, Status(p, x)))
  {
    var s', k := Apply(s, Status(p, x)), p;
    assert Ok(s, p) && Ok(s, k);
    forall q | 0 <= q < |s.procs| ensures s.procs[q].parent != Some(p) {
      assert Ok(s, q);
    }
    PairKept(s, s', p, k);
  }

  /** Nobody but the holder of wait_lock is looking at a child in wait. */
  lemma ScannedBy(s: State, p: nat, k: nat)
    requires Inv(s) && s.wl == HeldBy(p) && k < |s.procs| && s.procs[k].guard.Parent?
    ensures s.procs[k].guard.q == p
  {
    assert Ok(s, k);
    assert Ok(s, s.procs[k].guard.q);
  }

  lemma GoReparentOwnP(s: State, p: nat)
    requires Inv(s) && p < |s.procs| && s.procs[p].pc.Reparent? && s.procs[p].pc.i < |s.procs| &&
             s.procs[s.procs[p].pc.i].parent == Some(p)
    ensures var s', k := Step1(s, p), s.procs[p].pc.i;
            |s'.procs| == |s.procs| && k < |s.procs| && Ok(s', p)
  {
    var s', k := Step1(s, p), s.procs[p].pc.i;
    assert Ok(s, p) && Ok(s, k) && Ok(s, INIT);
    if s.procs[k].guard.Parent? {
      ScannedBy(s, p, k);
    }
  }

  lemma GoReparentOwnK(s: State, p: nat)
    requires Inv(s) && p < |s.procs| && s.procs[p].pc.Reparent? && s.procs[p].pc.i < |s.procs| &&
             s.procs[s.procs[p].pc.i].parent == Some(p)
    ensures var s', k := Step1(s, p), s.procs[p].pc.i;
            |s'.procs| == |s.procs| && k < |s.procs| && Ok(s', k)
  {
    var s', k := Step1(s, p), s.procs[p].pc.i;
    assert Ok(s, p) && Ok(s, k) && Ok(s, INIT);
    if s.procs[k].guard.Parent? {
      ScannedBy(s, p, k);
    }
  }

  lemma GoReparentOwn(s: State, p: nat)
    requires Inv(s) && p < |s.procs| && s.procs[p].pc.Reparent? && s.procs[p].pc.i < |s.procs| &&
             s.procs[s.procs[p].pc.i].parent == Some(p)
    ensures var s', k := Step1(s, p), s.procs[p].pc.i;
            |s'.procs| == |s.procs| && k < |s.procs| && Ok(s', p) && Ok(s', k)
  {
    hide Inv, Ok, Step1;
    GoReparentOwnP(s, p);
    GoReparentOwnK(s, p);
  }

  lemma GoReparentPair(s: State, p: nat)
    requires Inv(s) && p < |s.procs| && s.procs[p].pc.Reparent? && s.procs[p].pc.i < |s.procs| &&
             s.procs[s.procs[p].pc.i].parent == Some(p)
    ensures var s', k := Step1(s, p), s.procs[p].pc.i;
            Pair(s, s', p, k) && History(s, s', p, k)
  {
    hide PidOk, WakeOk;
    var s', k := Step1(s, p), s.procs[p].pc.i;
    assert Ok(s, p) && Ok(s, k) && Ok(s, INIT);
    if s.procs[k].guard.Parent? {
      ScannedBy(s, p, k);
    }
  }

  lemma GoReparent(s: State, p: nat)
    requires Inv(s) && p < |s.procs| && s.procs[p].pc.Reparent? && s.procs[p].pc.i < |s.procs| &&
             s.procs[s.procs[p].pc.i].parent == Some(p)
    ensures Inv(Step1(s, p))
  {
    hide MakingOk, PidOk, Pair, History;
    var s', k := Step1(s, p), s.procs[p].pc.i;
    assert Ok(s, p) && Ok(s, k) && Ok(s, INIT);
    GoReparentPair(s, p);
    GoReparentOwn(s, p);
    PairStep(s, s', p, k);
  }

  lemma GoReparentPastOwn(s: State, p: nat)
    requires Inv(s) && p < |s.procs| && s.procs[p].pc.Reparent? &&
             (s.procs[p].pc.i < |s.procs| ==> s.procs[s.procs[p].pc.i].parent != Some(p))
    ensures |Step1(s, p).procs| == |s.procs| && Ok(Step1(s, p), p)
  {
    assert Ok(s, p);
  }

  lemma GoReparentPast(s: State, p: nat)
    requires Inv(s) && p < |s.procs| && s.procs[p].pc.Reparent? &&
             (s.procs[p].pc.i < |s.procs| ==> s.procs[s.procs[p].pc.i].parent != Some(p))
    ensures Inv(Step1(s, p))
  {
    hide MakingOk, PidOk, WakeOk;
    var s' := Step1(s, p);
    assert Ok(s, p);
    GoReparentPastOwn(s, p);
    forall q | 0 <= q < |s.procs| && q != p ensures s.procs[q].parent == Some(p) ==> Fosters(s'.procs[p], q) {
      assert Ok(s, q);
    }
    PairKept(s, s', p, p);
  }

  lemma GoReparentWakeOwnP(s: State, p: nat)
    requires Inv(s) && p < |s.procs| && CanGo(s, p) && s.procs[p].pc.ReparentWake?
    ensures var s', k := Step1(s, p), if s.procs[INIT].st == SLEEPING then INIT else p;
            |s'.procs| == |s.procs| && k < |s.procs| && Ok(s', p)
  {
    var s', k := Step1(s, p), if s.procs[INIT].st == SLEEPING then INIT else p;
    assert Ok(s, p) && Ok(s, k);
    assert Ok(s, INIT);
  }

  lemma GoReparentWakeOwnK(s: State, p: nat)
    requires Inv(s) && p < |s.procs| && CanGo(s, p) && s.procs[p].pc.ReparentWake?
    ensures var s', k := Step1(s, p), if s.procs[INIT].st == SLEEPING then INIT else p;
            |s'.procs| == |s.procs| && k < |s.procs| && Ok(s', k)
  {
    var s', k := Step1(s, p), if s.procs[INIT].st == SLEEPING then INIT else p;
    assert Ok(s, p) && Ok(s, k);
    assert Ok(s, INIT);
  }

  lemma GoReparentWakeOwn(s: State, p: nat)
    requires Inv(s) && p < |s.procs| && CanGo(s, p) && s.procs[p].pc.ReparentWake?
    ensures var s', k := Step1(s, p), if s.procs[INIT].st == SLEEPING then INIT else p;
            |s'.procs| == |s.procs| && k < |s.procs| && Ok(s', p) && Ok(s', k)
  {
    hide Inv, Ok, Step1;
    GoReparentWakeOwnP(s, p);
    GoReparentWakeOwnK(s, p);
  }

  lemma GoReparentWakePair(s: State, p: nat)
    requires Inv(s) && p < |s.procs| && CanGo(s, p) && s.procs[p].pc.ReparentWake?
    ensures var s', k := Step1(s, p), if s.procs[INIT].st == SLEEPING then INIT else p;
            Pair(s, s', p, k) && History(s, s', p, k)
  {
    hide PidOk, WakeOk;
    var s', k := Step1(s, p), if s.procs[INIT].st == SLEEPING then INIT else p;
    assert Ok(s, p) && Ok(s, k);
    assert Ok(s, INIT);
  }

  lemma GoReparentWake(s: State, p: nat)
    requires Inv(s) && p < |s.procs| && CanGo(s, p) && s.procs[p].pc.ReparentWake?
    ensures Inv(Step1(s, p))
  {
    hide MakingOk, PidOk, Pair, History;
    var s', k := Step1(s, p), if s.procs[INIT].st == SLEEPING then INIT else p;
    assert Ok(s, p) && Ok(s, k);
    assert Ok(s, INIT);
    GoReparentWakePair(s, p);
    GoReparentWakeOwn(s, p);
    PairStep(s, s', p, k);
  }

  lemma GoExitWakeOwnP(s: State, p: nat)
    requires Inv(s) && p < |s.procs| && CanGo(s, p) && s.procs[p].pc.ExitWake?
    ensures var s', k := Step1(s, p), if s.procs[s.procs[p].parent.v].st == SLEEPING then s.procs[p].parent.v else p;
            |s'.procs| == |s.procs| && k < |s.procs| && Ok(s', p)
  {
    var s', k := Step1(s, p), if s.procs[s.procs[p].parent.v].st == SLEEPING then s.procs[p].parent.v else p;
    assert Ok(s, p) && Ok(s, k);
    assert Ok(s, s.procs[p].parent.v);
  }

  lemma GoExitWakeOwnK(s: State, p: nat)
    requires Inv(s) && p < |s.procs| && CanGo(s, p) && s.procs[p].pc.ExitWake?
    ensures var s', k := Step1(s, p), if s.procs[s.procs[p].parent.v].st == SLEEPING then s.procs[p].parent.v else p;
            |s'.procs| == |s.procs| && k < |s.procs| && Ok(s', k)
  {
    var s', k := Step1(s, p), if s.procs[s.procs[p].parent.v].st == SLEEPING then s.procs[p].parent.v else p;
    assert Ok(s, p) && Ok(s, k);
    assert Ok(s, s.procs[p].parent.v);
  }

  lemma GoExitWakeOwn(s: State, p: nat)
    requires Inv(s) && p < |s.procs| && CanGo(s, p) && s.procs[p].pc.ExitWake?
    ensures var s', k := Step1(s, p), if s.procs[s.procs[p].parent.v].st == SLEEPING then s.procs[p].parent.v else p;
            |s'.procs| == |s.procs| && k < |s.procs| && Ok(s', p) && Ok(s', k)
  {
    hide Inv, Ok, Step1;
    GoExitWakeOwnP(s, p);
    GoExitWakeOwnK(s, p);
  }

  lemma GoExitWakePair(s: State, p: nat)
    requires Inv(s) && p < |s.procs| && CanGo(s, p) && s.procs[p].pc.ExitWake?
    ensures var s', k := Step1(s, p), if s.procs[s.procs[p].parent.v].st == SLEEPING then s.procs[p].parent.v else p;
            Pair(s, s', p, k) && History(s, s', p, k)
  {
    hide PidOk, WakeOk;
    var s', k := Step1(s, p), if s.procs[s.procs[p].parent.v].st == SLEEPING then s.procs[p].parent.v else p;
    assert Ok(s, p) && Ok(s, k);
    assert Ok(s, s.procs[p].parent.v);
  }

  lemma GoExitWake(s: State, p: nat)
    requires Inv(s) && p < |s.procs| && CanGo(s, p) && s.procs[p].pc.ExitWake?
    ensures Inv(Step1(s, p))
  {
    hide MakingOk, PidOk, Pair, History;
    var s', k := Step1(s, p), if s.procs[s.procs[p].parent.v].st == SLEEPING then s.procs[p].parent.v else p;
    assert Ok(s, p) && Ok(s, k);
    assert Ok(s, s.procs[p].parent.v);
    GoExitWakePair(s, p);
    GoExitWakeOwn(s, p);
    PairStep(s, s', p, k);
  }

  lemma GoForkOwnP(s: State, p: nat, c: nat)
    requires Inv(s) && Enabled(s, Fork(p, c))
    ensures var s', k := Apply(s, Fork(p, c)), c;
            |s'.procs| == |s.procs| && k < |s.procs| && Ok(s', p)
  {
    var s', k := Apply(s, Fork(p, c)), c;
    assert Ok(s, p) && Ok(s, k);
  }

  lemma GoForkOwnK(s: State, p: nat, c: nat)
    requires Inv(s) && Enabled(s, Fork(p, c))
    ensures var s', k := Apply(s, Fork(p, c)), c;
            |s'.procs| == |s.procs| && k < |s.procs| && Ok(s', k)
  {
    var s', k := Apply(s, Fork(p, c)), c;
    assert Ok(s, p) && Ok(s, k);
  }

  lemma GoForkOwn(s: State, p: nat, c: nat)
    requires Inv(s) && Enabled(s, Fork(p, c))
    ensures var s', k := Apply(s, Fork(p, c)), c;
            |s'.procs| == |s.procs| && k < |s.procs| && Ok(s', p) && Ok(s', k)
  {
    hide Inv, Ok, Step1;
    GoForkOwnP(s, p, c);
    GoForkOwnK(s, p, c);
  }

  lemma GoForkPair(s: State, p: nat, c: nat)
    requires Inv(s) && Enabled(s, Fork(p, c))
    ensures Pair(s, Apply(s, Fork(p, c)), p, c) && History(s, Apply(s, Fork(p, c)), p, c)
  {
    hide MakingOk, PidOk, WakeOk, ParentOk;
    assert Ok(s, p) && Ok(s, c);
  }

  lemma GoFork(s: State, p: nat, c: nat)
    requires Inv(s) && Enabled(s, Fork(p, c))
    ensures Inv(Apply(s, Fork(p, c)))
  {
    hide MakingOk, PidOk, WakeOk, Pair, History;
    var s' := Apply(s, Fork(p, c));
    assert Ok(s, p) && Ok(s, c);
    GoForkPair(s, p, c);
    GoForkOwn(s, p, c);
    PairStep(s, s', p, c);
  }

  lemma GoFork2OwnP(s: State, p: nat)
    requires Inv(s) && p < |s.procs| && CanGo(s, p) && s.procs[p].pc.Fork2?
    ensures var s', k := Step1(s, p), s.procs[p].pc.c;
            |s'.procs| == |s.procs| && k < |s.procs| && Ok(s', p)
  {
    var s', k := Step1(s, p), s.procs[p].pc.c;
    assert Ok(s, p) && Ok(s, k);
  }

  lemma GoFork2OwnK(s: State, p: nat)
    requires Inv(s) && p < |s.procs| && CanGo(s, p) && s.procs[p].pc.Fork2?
    ensures var s', k := Step1(s, p), s.procs[p].pc.c;
            |s'.procs| == |s.procs| && k < |s.procs| && Ok(s', k)
  {
    var s', k := Step1(s, p), s.procs[p].pc.c;
    assert Ok(s, p) && Ok(s, k);
  }

  lemma GoFork2Own(s: State, p: nat)
    requires Inv(s) && p < |s.procs| && CanGo(s, p) && s.procs[p].pc.Fork2?
    ensures var s', k := Step1(s, p), s.procs[p].pc.c;
            |s'.procs| == |s.procs| && k < |s.procs| && Ok(s', p) && Ok(s', k)
  {
    hide Inv, Ok, Step1;
    GoFork2OwnP(s, p);
    GoFork2OwnK(s, p);
  }

  lemma GoFork2Pair(s: State, p: nat)
    requires Inv(s) && p < |s.procs| && CanGo(s, p) && s.procs[p].pc.Fork2?
    ensures var s', k := Step1(s, p), s.procs[p].pc.c;
            Pair(s, s', p, k) && History(s, s', p, k)
  {
    hide PidOk, WakeOk;
    var s', k := Step1(s, p), s.procs[p].pc.c;
    assert Ok(s, p) && Ok(s, k);
  }

  lemma GoFork2(s: State, p: nat)
    requires Inv(s) && p < |s.procs| && CanGo(s, p) && s.procs[p].pc.Fork2?
    ensures Inv(Step1(s, p))
  {
    hide MakingOk, PidOk, Pair, History;
    var s', k := Step1(s, p), s.procs[p].pc.c;
    assert Ok(s, p) && Ok(s, k);
    GoFork2Pair(s, p);
    GoFork2Own(s, p);
    PairStep(s, s', p, k);
  }

  lemma GoFork3OwnP(s: State, p: nat)
    requires Inv(s) && p < |s.procs| && CanGo(s, p) && s.procs[p].pc.Fork3?
    ensures var s', k := Step1(s, p), s.procs[p].pc.c;
            |s'.procs| == |s.procs| && k < |s.procs| && Ok(s', p)
  {
    var s', k := Step1(s, p), s.procs[p].pc.c;
    assert Ok(s, p) && Ok(s, k);
  }

  lemma GoFork3OwnK(s: State, p: nat)
    requires Inv(s) && p < |s.procs| && CanGo(s, p) && s.procs[p].pc.Fork3?
    ensures var s', k := Step1(s, p), s.procs[p].pc.c;
            |s'.procs| == |s.procs| && k < |s.procs| && Ok(s', k)
  {
    var s', k := Step1(s, p), s.procs[p].pc.c;
    assert Ok(s, p) && Ok(s, k);
  }

  lemma GoFork3Own(s: State, p: nat)
    requires Inv(s) && p < |s.procs| && CanGo(s, p) && s.procs[p].pc.Fork3?
    ensures var s', k := Step1(s, p), s.procs[p].pc.c;
            |s'.procs| == |s.procs| && k < |s.procs| && Ok(s', p) && Ok(s', k)
  {
    hide Inv, Ok, Step1;
    GoFork3OwnP(s, p);
    GoFork3OwnK(s, p);
  }

  lemma GoFork3Pair(s: State, p: nat)
    requires Inv(s) && p < |s.procs| && CanGo(s, p) && s.procs[p].pc.Fork3?
    ensures var s', k := Step1(s, p), s.procs[p].pc.c;
            Pair(s, s', p, k) && History(s, s', p, k)
  {
    hide PidOk, WakeOk;
    var s', k := Step1(s, p), s.procs[p].pc.c;
    assert Ok(s, p) && Ok(s, k);
  }

  lemma GoFork3(s: State, p: nat)
    requires Inv(s) && p < |s.procs| && CanGo(s, p) && s.procs[p].pc.Fork3?
    ensures Inv(Step1(s, p))
  {
    hide MakingOk, PidOk, Pair, History;
    var s', k := Step1(s, p), s.procs[p].pc.c;
    assert Ok(s, p) && Ok(s, k);
    GoFork3Pair(s, p);
    GoFork3Own(s, p);
    PairStep(s, s', p, k);
  }

  lemma GoFork4OwnP(s: State, p: nat)
    requires Inv(s) && p < |s.procs| && CanGo(s, p) && s.procs[p].pc.Fork4?
    ensures var s', k := Step1(s, p), s.procs[p].pc.c;
            |s'.procs| == |s.procs| && k < |s.procs| && Ok(s', p)
  {
    var s', k := Step1(s, p), s.procs[p].pc.c;
    assert Ok(s, p) && Ok(s, k);
  }

  lemma GoFork4OwnK(s: State, p: nat)
    requires Inv(s) && p < |s.procs| && CanGo(s, p) && s.procs[p].pc.Fork4?
    ensures var s', k := Step1(s, p), s.procs[p].pc.c;
            |s'.procs| == |s.procs| && k < |s.procs| && Ok(s', k)
  {
    var s', k := Step1(s, p), s.procs[p].pc.c;
    assert Ok(s, p) && Ok(s, k);
  }

  lemma GoFork4Own(s: State, p: nat)
    requires Inv(s) && p < |s.procs| && CanGo(s, p) && s.procs[p].pc.Fork4?
    ensures var s', k := Step1(s, p), s.procs[p].pc.c;
            |s'.procs| == |s.procs| && k < |s.procs| && Ok(s', p) && Ok(s', k)
  {
    hide Inv, Ok, Step1;
    GoFork4OwnP(s, p);
    GoFork4OwnK(s, p);
  }

  lemma GoFork4Pair(s: State, p: nat)
    requires Inv(s) && p < |s.procs| && CanGo(s, p) && s.procs[p].pc.Fork4?
    ensures var s', k := Step1(s, p), s.procs[p].pc.c;
            Pair(s, s', p, k) && History(s, s', p, k)
  {
    hide PidOk, WakeOk;
    var s', k := Step1(s, p), s.procs[p].pc.c;
    assert Ok(s, p) && Ok(s, k);
  }

  lemma GoFork4(s: State, p: nat)
    requires Inv(s) && p < |s.procs| && CanGo(s, p) && s.procs[p].pc.Fork4?
    ensures Inv(Step1(s, p))
  {
    hide PidOk, Pair, History;
    var s', k := Step1(s, p), s.procs[p].pc.c;
    assert Ok(s, p) && Ok(s, k);
    GoFork4Pair(s, p);
    GoFork4Own(s, p);
    PairStep(s, s', p, k);
  }

  lemma GoForkFailsOwnP(s: State, p: nat)
    requires Inv(s) && Enabled(s, ForkFails(p))
    ensures var s', k := Apply(s, ForkFails(p)), s.procs[p].pc.c;
            |s'.procs| == |s.procs| && k < |s.procs| && Ok(s', p)
  {
    var s', k := Apply(s, ForkFails(p)), s.procs[p].pc.c;
    assert Ok(s, p) && Ok(s, k);
  }

  lemma GoForkFailsOwnK(s: State, p: nat)
    requires Inv(s) && Enabled(s, ForkFails(p))
    ensures var s', k := Apply(s, ForkFails(p)), s.procs[p].pc.c;
            |s'.procs| == |s.procs| && k < |s.procs| && Ok(s', k)
  {
    var s', k := Apply(s, ForkFails(p)), s.procs[p].pc.c;
    assert Ok(s, p) && Ok(s, k);
  }

  lemma GoForkFailsOwn(s: State, p: nat)
    requires Inv(s) && Enabled(s, ForkFails(p))
    ensures var s', k := Apply(s, ForkFails(p)), s.procs[p].pc.c;
            |s'.procs| == |s.procs| && k < |s.procs| && Ok(s', p) && Ok(s', k)
  {
    hide Inv, Ok, Step1;
    GoForkFailsOwnP(s, p);
    GoForkFailsOwnK(s, p);
  }

  lemma GoForkFailsPair(s: State, p: nat)
    requires Inv(s) && Enabled(s, ForkFails(p))
    ensures var s', k := Apply(s, ForkFails(p)), s.procs[p].pc.c;
            Pair(s, s', p, k) && History(s, s', p, k)
  {
    hide PidOk, WakeOk;
    var s', k := Apply(s, ForkFails(p)), s.procs[p].pc.c;
    assert Ok(s, p) && Ok(s, k);
  }

  lemma GoForkFails(s: State, p: nat)
    requires Inv(s) && Enabled(s, ForkFails(p))
    ensures Inv(Apply(s, ForkFails(p)))
  {
    hide MakingOk, PidOk, Pair, History;
    var s', k := Apply(s, ForkFails(p)), s.procs[p].pc.c;
    assert Ok(s, p) && Ok(s, k);
    GoForkFailsPair(s, p);
    GoForkFailsOwn(s, p);
    PairStep(s, s', p, k);
  }

  lemma GoKept(s: State, p: nat)
    requires Inv(s) && p < |s.procs| && CanGo(s, p)
    ensures Inv(Step1(s, p))
  {
    hide Inv, Step1;
    var c := s.procs[p].pc;
    if IsLocal(s, p) {
      GoLocal(s, p);
    } else {
      match c
      case Fork2(_) => GoFork2(s, p);
      case Fork3(_) => GoFork3(s, p);
      case Fork4(_) => GoFork4(s, p);
      case Reparent(i) =>
        if i < |s.procs| && s.procs[i].parent == Some(p) { GoReparent(s, p); } else { GoReparentPast(s, p); }
      case ReparentWake(_) => GoReparentWake(s, p);
      case ExitWake => GoExitWake(s, p);
      case Scan(i, _) => if i < |s.procs| { GoScan(s, p); } else { GoScanned(s, p); }
      case ScanAt(i) => if s.procs[i].st == ZOMBIE { GoReap(s, p); } else { GoScanAt(s, p); }
    }
  }

  lemma InvKept(s: State, step: Step)
    requires Inv(s) && Enabled(s, step)
    ensures Inv(Apply(s, step))
  {
    hide Inv, Step1, CanGo;
    match step
    case Go(p) => GoKept(s, p);
    case Fork(p, c) => GoFork(s, p, c);
    case ForkFails(p) => GoForkFails(s, p);
    case Status(p, x) => GoStatus(s, p, x);
    case Fault(p) => GoFault(s, p);
    case _ => OutsideLocal(s, step);
  }

  // ------------------------------------------------------------------------------------------------------------------
  // Runs
  // ------------------------------------------------------------------------------------------------------------------

  ghost predicate Runs(s: State, steps: seq<Step>, s': State)
    decreases |steps|
  {
    if steps == [] then s' == s
    else Enabled(s, steps[0]) && Runs(Apply(s, steps[0]), steps[1..], s')
  }

  lemma {:induction false} RunInv(s: State, steps: seq<Step>, s': State)
    requires Inv(s) && Runs(s, steps, s')
    ensures Inv(s')
    decreases |steps|
  {
    hide Inv, Enabled, Apply;
    if steps != [] {
      InvKept(s, steps[0]);
      RunInv(Apply(s, steps[0]), steps[1..], s');
    }
  }

  /** In every state of every run: while wait_lock is free, no process is asleep in wait, or about to fall asleep there,
      with a child that has exited. */
  lemma NoLostChild(s: State, steps: seq<Step>, s': State, p: nat, c: nat)
    requires Init(s) && Runs(s, steps, s') && p < |s'.procs| && c < |s'.procs| && s'.wl == Unheld
    requires s'.procs[c].parent == Some(p) && s'.procs[c].st == ZOMBIE
    ensures !Committed(s'.procs[p])
  {
    InitInv(s);
    RunInv(s, steps, s');
    assert Ok(s', c);
  }

  /** In every state of every run every zombie has a parent that is alive and still reaps it. */
  lemma NoOrphans(s: State, steps: seq<Step>, s': State, c: nat)
    requires Init(s) && Runs(s, steps, s') && c < |s'.procs| && s'.procs[c].st == ZOMBIE
    ensures s'.procs[c].parent.Some? && s'.procs[c].parent.v < |s'.procs| && Fosters(s'.procs[s'.procs[c].parent.v], c)
  {
    InitInv(s);
    RunInv(s, steps, s');
    assert Ok(s', c);
  }

  /** In every run each child is reaped at most once, with the status it exited with. */
  lemma ReapedOnce(s: State, steps: seq<Step>, s': State)
    requires Init(s) && Runs(s, steps, s')
    ensures forall k, l :: 0 <= k < l < |s'.reaped| ==> s'.reaped[k].pid != s'.reaped[l].pid
    ensures forall k :: 0 <= k < |s'.reaped| ==>
            s'.reaped[k].pid in s'.exited && s'.exited[s'.reaped[k].pid] == s'.reaped[k].status
  {
    InitInv(s);
    RunInv(s, steps, s');
  }

  /** A child is reaped only by its parent at that moment, and only once it has left its CPU and its stack for good. */
  lemma ReapedByParent(s: State, p: nat)
    requires Inv(s) && p < |s.procs| && CanGo(s, p) && Step1(s, p).reaped != s.reaped
    ensures s.procs[p].pc.ScanAt? && var k := s.procs[p].pc.i;
            k < |s.procs| && s.procs[k].parent == Some(p) && s.procs[k].pc == Dead && Step1(s, p).procs[k].st == UNUSED
  {
    assert Ok(s, p);
    if s.procs[p].pc.ScanAt? {
      assert Ok(s, s.procs[p].pc.i);
    }
  }

  /** Whoever has exited is a zombie or has been reaped. */
  ghost predicate Accounted(s: State, x: nat) {
    (x in s.slot && s.slot[x] < |s.procs| && s.procs[s.slot[x]].pid == x && s.procs[s.slot[x]].st == ZOMBIE)
    || (exists k :: 0 <= k < |s.reaped| && s.reaped[k].pid == x)
  }

  ghost predicate AllAccounted(s: State) {
    forall x :: x in s.exited ==> Accounted(s, x)
  }

  lemma ZombieGo(s: State, p: nat, q: nat)
    requires Inv(s) && p < |s.procs| && CanGo(s, p) && q < |s.procs| && s.procs[q].st == ZOMBIE
    ensures var s' := Step1(s, p);
            && |s'.procs| == |s.procs|
            && ((s'.procs[q].st == ZOMBIE && s'.procs[q].pid == s.procs[q].pid) ||
                s'.reaped == s.reaped + [Reap(s.procs[q].pid, s.procs[q].xstate, p)])
  {
    hide Inv, Step1, CanGo;
    if s.procs[p].pc.ScanAt? {
      ZombieScanned(s, p, q);
    } else if q == p {
      ZombieItself(s, p);
    } else {
      ZombieOther(s, p, q);
    }
  }

  lemma ZombieScanned(s: State, p: nat, q: nat)
    requires Inv(s) && p < |s.procs| && CanGo(s, p) && q < |s.procs| && s.procs[q].st == ZOMBIE && s.procs[p].pc.ScanAt?
    ensures var s' := Step1(s, p);
            && |s'.procs| == |s.procs|
            && ((s'.procs[q].st == ZOMBIE && s'.procs[q].pid == s.procs[q].pid) ||
                s'.reaped == s.reaped + [Reap(s.procs[q].pid, s.procs[q].xstate, p)])
  {
    hide WakeOk, PidOk, ParentOk, LocksOk;
    assert Ok(s, q) && Ok(s, p);
  }

  lemma ZombieItself(s: State, p: nat)
    requires Inv(s) && p < |s.procs| && CanGo(s, p) && s.procs[p].st == ZOMBIE
    ensures var s' := Step1(s, p);
            |s'.procs| == |s.procs| && s'.procs[p].st == ZOMBIE && s'.procs[p].pid == s.procs[p].pid
  {
    hide WakeOk, PidOk, ParentOk, LocksOk, MakingOk;
    assert Ok(s, p);
  }

  lemma ZombieOther(s: State, p: nat, q: nat)
    requires Inv(s) && p < |s.procs| && CanGo(s, p) && q < |s.procs| && q != p && s.procs[q].st == ZOMBIE &&
             !s.procs[p].pc.ScanAt?
    ensures var s' := Step1(s, p);
            |s'.procs| == |s.procs| && s'.procs[q].st == ZOMBIE && s'.procs[q].pid == s.procs[q].pid
  {
    hide WakeOk, PidOk, ParentOk, LocksOk;
    assert Ok(s, q) && Ok(s, p);
  }

  /** A zombie stays one until it is reaped. */
  lemma ZombieStays(s: State, step: Step, q: nat)
    requires Inv(s) && Enabled(s, step) && q < |s.procs| && s.procs[q].st == ZOMBIE
    ensures var s' := Apply(s, step);
            && |s'.procs| == |s.procs|
            && ((s'.procs[q].st == ZOMBIE && s'.procs[q].pid == s.procs[q].pid) ||
                s'.reaped == s.reaped + [Reap(s.procs[q].pid, s.procs[q].xstate, step.p)])
  {
    hide WakeOk, PidOk, ParentOk, LocksOk, HoldsWl, Guarding, Step1, CanGo;
    if step.Go? {
      ZombieGo(s, step.p, q);
    } else {
      assert Ok(s, q) && Ok(s, step.p);
    }
  }

  lemma GoHistory(s: State, p: nat)
    requires p < |s.procs| && CanGo(s, p)
    ensures Step1(s, p).slot == s.slot && Step1(s, p).exited == s.exited
  {
  }

  lemma GoReaped(s: State, p: nat)
    requires p < |s.procs| && CanGo(s, p)
    ensures var s' := Step1(s, p); |s.reaped| <= |s'.reaped| && s'.reaped[..|s.reaped|] == s.reaped
  {
  }

  /** What the history records only grows. */
  lemma HistoryGrows(s: State, step: Step)
    requires Inv(s) && Enabled(s, step)
    ensures var s' := Apply(s, step);
            && |s.reaped| <= |s'.reaped| && s'.reaped[..|s.reaped|] == s.reaped
            && (forall x :: x in s.slot && x < s.nextpid ==> x in s'.slot && s'.slot[x] == s.slot[x])
            && (forall x :: x in s'.exited && x !in s.exited ==>
                  step.Status? && x == s.procs[step.p].pid && s'.procs[step.p].st == ZOMBIE &&
                    s'.procs[step.p].pid == x && s'.slot == s.slot)
  {
    hide Ok, Step1, CanGo;
    if step.Go? {
      GoHistory(s, step.p);
      GoReaped(s, step.p);
    }
  }

  lemma AccountedStep(s: State, step: Step, x: nat)
    requires Inv(s) && Enabled(s, step) && Accounted(s, x) && x in s.exited
    ensures Accounted(Apply(s, step), x)
  {
    hide Apply, Ok, Enabled;
    var s' := Apply(s, step);
    HistoryGrows(s, step);
    if x in s.slot && s.slot[x] < |s.procs| && s.procs[s.slot[x]].pid == x && s.procs[s.slot[x]].st == ZOMBIE {
      ZombieStays(s, step, s.slot[x]);
      assert (s'.procs[s.slot[x]].st == ZOMBIE && s'.procs[s.slot[x]].pid == x) || s'.reaped[|s.reaped|].pid == x;
    } else {
      var k :| 0 <= k < |s.reaped| && s.reaped[k].pid == x;
      assert s'.reaped[k] == s'.reaped[..|s.reaped|][k];
    }
  }

  lemma AccountedKept(s: State, step: Step)
    requires Inv(s) && Enabled(s, step) && AllAccounted(s)
    ensures AllAccounted(Apply(s, step))
  {
    hide Apply, LocksOk, MakingOk, StateOk, ParentOk, WakeOk, Accounted;
    var s' := Apply(s, step);
    HistoryGrows(s, step);
    assert Ok(s, step.p);
    forall x | x in s'.exited ensures Accounted(s', x) {
      if x in s.exited {
        AccountedStep(s, step, x);
      } else {
        ExitAccounted(s, step, x);
      }
    }
  }

  lemma ExitAccounted(s: State, step: Step, x: nat)
    requires Inv(s) && Enabled(s, step) && x in Apply(s, step).exited && x !in s.exited
    ensures Accounted(Apply(s, step), x)
  {
    hide LocksOk, MakingOk, ParentOk, WakeOk;
    assert Ok(s, step.p);
  }

  lemma {:induction false} RunAccounted(s: State, steps: seq<Step>, s': State)
    requires Inv(s) && AllAccounted(s) && Runs(s, steps, s')
    ensures AllAccounted(s')
    decreases |steps|
  {
    hide Inv, Enabled, Apply, AllAccounted;
    if steps != [] {
      InvKept(s, steps[0]);
      AccountedKept(s, steps[0]);
      RunAccounted(Apply(s, steps[0]), steps[1..], s');
    }
  }

  /** In every run nobody who exits is lost: they are a zombie in their slot until some wait has reaped them. */
  lemma NoneLost(s: State, steps: seq<Step>, s': State, x: nat)
    requires Init(s) && Runs(s, steps, s') && x in s'.exited
    ensures Accounted(s', x)
  {
    InitInv(s);
    RunAccounted(s, steps, s');
  }
}
