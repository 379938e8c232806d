/** Every run of the buffer cache: any interleaving of processes that get, lock, fill, modify, write, pin, unpin and
    release buffers. Each step is one critical section of bget, acquiresleep, bread, bwrite, bpin, bunpin or brelse. */
module CacheRuns {
  import opened Blocks
  import opened BufferCache

  /** A process between its bget and its brelse of block k: waiting for the buffer's lock, holding it, or
      past releasesleep with its reference still to drop. */
  datatype Stage = Waiting | Holding | Leaving
  datatype Ticket = Ticket(i: nat, k: nat, stage: Stage)

  datatype State = State(
    bufs: seq<Buf>,
    disk: Disk,
    tickets: map<nat, Ticket>,
    pins: set<nat>,            // blocks log_write pinned and install_trans has not unpinned
    // auxiliary
    at: map<nat, nat>,         // the buffer each cached block is in
    holder: map<nat, nat>,     // the process holding each locked buffer
    plain: Disk,               // the blocks as a plain map that each store updates at once
    lost: set<nat>)            // blocks last recycled with contents that were not on disk, and not stored since

  datatype Step =
    | GetHit(t: nat, k: nat, i: nat)
    | GetMiss(t: nat, k: nat, i: nat)
    | Lock(t: nat)
    | Fill(t: nat)
    | Store(t: nat, data: Block)
    | DiskWrite(t: nat)
    | Pin(t: nat)
    | Unpin(t: nat)
    | Unlock(t: nat)
    | Drop(t: nat)

  ghost predicate Has(s: State, t: nat, stage: Stage) {
    t in s.tickets && s.tickets[t].stage == stage && s.tickets[t].i < |s.bufs|
  }

  /** Process t holds a filled buffer, as bread returns it. */
  ghost predicate Reading(s: State, t: nat) {
    Has(s, t, Holding) && s.bufs[s.tickets[t].i].valid
  }

  function SetBuf(s: State, i: nat, b: Buf): State
    requires i < |s.bufs|
  {
    s.(bufs := s.bufs[i := b])
  }

  function SetStage(s: State, t: nat, stage: Stage): State
    requires t in s.tickets
  {
    s.(tickets := s.tickets[t := s.tickets[t].(stage := stage)])
  }

  /** Buffer i holds contents of the device's block that are not on disk. */
  predicate Dirty(dev: nat, s: State, i: nat)
    requires i < |s.bufs|
  {
    var b := s.bufs[i];
    b.dev == dev && b.valid && b.blockno in s.disk && b.data != s.disk[b.blockno]
  }

  /** One step. A pin goes only when the contents are on disk, as in install_trans. Nothing makes a process write or pin
      what it changed before it unlocks the buffer. */
  ghost predicate Next(dev: nat, s: State, step: Step, s': State) {
    match step
    case GetHit(t, k, i) =>
      && t !in s.tickets && i < |s.bufs| && Holds(s.bufs[i], dev, k)
      && s' == SetBuf(s, i,
                      s.bufs[i].(refcnt := s.bufs[i].refcnt + 1)).(tickets := s.tickets[t := Ticket(i, k, Waiting)])
    case GetMiss(t, k, i) =>
      && t !in s.tickets && k in s.disk && k !in s.at && i < |s.bufs| && s.bufs[i].refcnt == 0
      && var at := if s.bufs[i].dev == dev then s.at - {s.bufs[i].blockno} else s.at;
         s' == SetBuf(s, i, s.bufs[i].(dev := dev, blockno := k, valid := false, refcnt := 1)).(
               tickets := s.tickets[t := Ticket(i, k, Waiting)], at := at[k := i],
               lost := if Dirty(dev, s, i) then s.lost + {s.bufs[i].blockno} else s.lost)
    case Lock(t) =>
      && Has(s, t, Waiting) && var i := s.tickets[t].i;
         !s.bufs[i].locked && s' ==
           SetStage(SetBuf(s, i, s.bufs[i].(locked := true)), t, Holding).(holder := s.holder[i := t])
    case Fill(t) =>
      && Has(s, t, Holding) && var i := s.tickets[t].i;
         !s.bufs[i].valid && s.bufs[i].blockno in s.disk
         && s' == SetBuf(s, i, s.bufs[i].(data := s.disk[s.bufs[i].blockno], valid := true))
    case Store(t, data) =>
      && Reading(s, t) && var i := s.tickets[t].i;
         s' == SetBuf(s, i, s.bufs[i].(data := data)).(plain := s.plain[s.tickets[t].k := data],
                                                       lost := s.lost - {s.tickets[t].k})
    case DiskWrite(t) =>
      && Reading(s, t) && var i := s.tickets[t].i;
         s' == s.(disk := s.disk[s.bufs[i].blockno := s.bufs[i].data])
    case Pin(t) =>
      && Reading(s, t) && s.tickets[t].k !in s.pins && var i := s.tickets[t].i;
         s' == SetBuf(s, i, s.bufs[i].(refcnt := s.bufs[i].refcnt + 1)).(pins := s.pins + {s.tickets[t].k})
    case Unpin(t) =>
      && Reading(s, t) && s.tickets[t].k in s.pins && s.tickets[t].k in s.disk && var i := s.tickets[t].i;
         s.bufs[i].refcnt > 0 && s.bufs[i].data == s.disk[s.tickets[t].k]
         && s' == SetBuf(s, i, s.bufs[i].(refcnt := s.bufs[i].refcnt - 1)).(pins := s.pins - {s.tickets[t].k})
    case Unlock(t) =>
      && Has(s, t, Holding) && var i := s.tickets[t].i;
         s' == SetStage(SetBuf(s, i, s.bufs[i].(locked := false)), t, Leaving).(holder := s.holder - {i})
    case Drop(t) =>
      && Has(s, t, Leaving) && var i := s.tickets[t].i;
         s.bufs[i].refcnt > 0
         && s' == SetBuf(s, i, s.bufs[i].(refcnt := s.bufs[i].refcnt - 1)).(tickets := s.tickets - {t})
  }

  /** The callers in log.c and most of fs.c write or pin what they changed before they unlock it. The exception is
      writei when the copy from the user fails half-way: it releases a changed buffer as it is. */
  ghost predicate Careful(dev: nat, s: State, step: Step) {
    step.Unlock? && Has(s, step.t, Holding) && Dirty(dev, s, s.tickets[step.t].i) ==> s.tickets[step.t].k in s.pins
  }

  /** A freshly initialised cache over disk d. */
  function Initial(n: nat, d: Disk): State {
    State(seq(n, _ => Buf(false, 0, 0, false, 0, ZeroBlock())), d, map[], {}, map[], map[], d, {})
  }

  ghost predicate IsRun(dev: nat, ss: seq<State>, steps: seq<Step>) {
    && |ss| == |steps| + 1
    && forall j :: 0 <= j < |steps| ==> Next(dev, ss[j], steps[j], ss[j + 1])
  }

  // ------------------------------------------------------------ the invariant

  /** The processes with a reference to buffer i. */
  ghost function Users(s: State, i: nat): set<nat> {
    set t | t in s.tickets && s.tickets[t].i == i
  }

  /** Every buffer of the device is where at says, every ticket names its buffer's block, and so does every pin. */
  ghost predicate Placed(dev: nat, s: State) {
    && dev >= 1 && s.plain.Keys == s.disk.Keys && s.at.Keys <= s.disk.Keys && s.pins <= s.at.Keys
    && (forall k :: k in s.at ==> s.at[k] < |s.bufs| && Holds(s.bufs[s.at[k]], dev, k))
    && (forall i :: 0 <= i < |s.bufs| && s.bufs[i].dev == dev ==>
        s.bufs[i].blockno in s.at && s.at[s.bufs[i].blockno] == i)
    && (forall i :: 0 <= i < |s.bufs| && s.bufs[i].dev != dev ==> s.bufs[i].dev == 0)
    && (forall t :: t in s.tickets ==> s.tickets[t].k in s.at && s.at[s.tickets[t].k] == s.tickets[t].i)
  }

  /** A reference count counts the processes between get and drop, and the pin. */
  ghost predicate Counted(s: State) {
    forall i :: 0 <= i < |s.bufs| ==> CountedAt(s, i)
  }

  ghost predicate CountedAt(s: State, i: nat)
    requires i < |s.bufs|
  {
    s.bufs[i].refcnt == |Users(s, i)| + if s.bufs[i].blockno in s.pins && s.bufs[i].dev != 0 then 1 else 0
  }

  /** A locked buffer has exactly one holder. */
  ghost predicate Locked(s: State) {
    && (forall i :: 0 <= i < |s.bufs| ==> (s.bufs[i].locked <==> i in s.holder))
    && (forall i :: i in s.holder ==> Has(s, s.holder[i], Holding) && s.tickets[s.holder[i]].i == i)
    && (forall t :: Has(s, t, Holding) ==> s.tickets[t].i in s.holder && s.holder[s.tickets[t].i] == t)
  }

  /** What a process that breads block m sees. */
  function Visible(s: State, m: nat): Block
    requires m in s.disk
  {
    if m in s.at && s.at[m] < |s.bufs| && s.bufs[s.at[m]].valid then s.bufs[s.at[m]].data else s.disk[m]
  }

  /** A block shows its plain contents exactly when it is not lost; a lost one shows what is on disk. */
  ghost predicate Current(s: State) {
    s.plain.Keys == s.disk.Keys && s.lost <= s.disk.Keys && forall m :: m in s.disk ==> CurrentAt(s, m)
  }

  ghost predicate CurrentAt(s: State, m: nat)
    requires s.plain.Keys == s.disk.Keys && m in s.disk
  {
    (m in s.lost <==> s.plain[m] != Visible(s, m)) && (m in s.lost ==> Visible(s, m) == s.disk[m])
  }

  /** Nothing is lost, and contents that are not on disk are pinned or in their holder's hands. */
  ghost predicate Tidy(s: State) {
    && s.lost == {}
    && forall m :: m in s.disk && Visible(s, m) != s.disk[m] ==> m in s.pins || (m in s.at && s.at[m] in s.holder)
  }

  ghost predicate Inv(dev: nat, s: State) {
    Placed(dev, s) && Counted(s) && Locked(s) && Current(s)
  }

  /** A step that moves no block between buffers. */
  ghost predicate SameKeys(s: State, s': State) {
    && |s'.bufs| == |s.bufs| && s'.at == s.at && s'.disk.Keys == s.disk.Keys && s'.plain.Keys == s.plain.Keys
    && (forall i :: 0 <= i < |s.bufs| ==> s'.bufs[i].dev == s.bufs[i].dev && s'.bufs[i].blockno == s.bufs[i].blockno)
    && (forall t :: t in s'.tickets ==> s'.tickets[t].k in s.at && s.at[s'.tickets[t].k] == s'.tickets[t].i)
    && s'.pins <= s.at.Keys
  }

  lemma KeysKeptLocked(dev: nat, s: State, step: Step, s': State)
    requires Placed(dev, s) && Next(dev, s, step, s') &&
             (step.Fill? || step.Store? || step.DiskWrite? || step.Pin? || step.Unpin?)
    ensures SameKeys(s, s')
  {
  }

  lemma KeysKeptTickets(dev: nat, s: State, step: Step, s': State)
    requires Placed(dev, s) && Next(dev, s, step, s') && (step.GetHit? || step.Lock? || step.Unlock? || step.Drop?)
    ensures SameKeys(s, s')
  {
  }

  lemma KeysKept(dev: nat, s: State, step: Step, s': State)
    requires Placed(dev, s) && Next(dev, s, step, s') && !step.GetMiss?
    ensures SameKeys(s, s')
  {
    hide Placed, Next, SameKeys;
    if step.GetHit? || step.Lock? || step.Unlock? || step.Drop? {
      KeysKeptTickets(dev, s, step, s');
    } else {
      KeysKeptLocked(dev, s, step, s');
    }
  }

  lemma PlacedSame(dev: nat, s: State, s': State)
    requires Placed(dev, s) && SameKeys(s, s')
    ensures Placed(dev, s')
  {
  }

  /** The victim's block has no ticket and no pin. */
  lemma VictimIdle(dev: nat, s: State, i: nat)
    requires Placed(dev, s) && Counted(s) && i < |s.bufs| && s.bufs[i].refcnt == 0
    ensures forall t :: t in s.tickets ==> s.tickets[t].i != i
    ensures s.bufs[i].dev == dev ==> s.bufs[i].blockno !in s.pins
  {
    assert CountedAt(s, i);
    assert Users(s, i) == {};
    forall t | t in s.tickets ensures s.tickets[t].i != i {
      assert t !in Users(s, i);
    }
  }

  lemma PlacedMiss(dev: nat, s: State, t: nat, k: nat, i: nat, s': State)
    requires Placed(dev, s) && Counted(s) && Next(dev, s, GetMiss(t, k, i), s')
    ensures Placed(dev, s')
  {
    hide Counted;
    VictimIdle(dev, s, i);
    assert forall j :: 0 <= j < |s.bufs| && j != i ==> s'.bufs[j] == s.bufs[j];
    assert forall m :: m in s'.at && m != k ==> m in s.at && s'.at[m] == s.at[m] && s.at[m] != i;
  }

  lemma PlacedKept(dev: nat, s: State, step: Step, s': State)
    requires Placed(dev, s) && Counted(s) && Next(dev, s, step, s')
    ensures Placed(dev, s')
  {
    hide Placed, Counted, Next;
    if step.GetMiss? {
      PlacedMiss(dev, s, step.t, step.k, step.i, s');
    } else {
      KeysKept(dev, s, step, s');
      PlacedSame(dev, s, s');
    }
  }

  lemma UsersSame(s: State, s': State, j: nat)
    requires s'.tickets.Keys == s.tickets.Keys && forall t :: t in s.tickets ==> s'.tickets[t].i == s.tickets[t].i
    ensures Users(s', j) == Users(s, j)
  {
  }

  lemma UsersAdd(s: State, s': State, t: nat, x: Ticket, j: nat)
    requires t !in s.tickets && s'.tickets == s.tickets[t := x]
    ensures |Users(s', j)| == |Users(s, j)| + if x.i == j then 1 else 0
  {
    assert Users(s', j) == Users(s, j) + if x.i == j then {t} else {};
  }

  lemma UsersDrop(s: State, s': State, t: nat, j: nat)
    requires t in s.tickets && s'.tickets == s.tickets - {t}
    ensures |Users(s', j)| == |Users(s, j)| - if s.tickets[t].i == j then 1 else 0
  {
    assert Users(s, j) == Users(s', j) + if s.tickets[t].i == j then {t} else {};
  }

  lemma CountedTickets(dev: nat, s: State, step: Step, s': State, j: nat)
    requires Placed(dev, s) && Counted(s) && Next(dev, s, step, s') && j < |s'.bufs|
    requires step.GetHit? || step.GetMiss? || step.Drop?
    ensures CountedAt(s', j)
  {
    assert CountedAt(s, j);
    match step
    case GetHit(t, k, i) => UsersAdd(s, s', t, Ticket(i, k, Waiting), j);
    case GetMiss(t, k, i) =>
      UsersAdd(s, s', t, Ticket(i, k, Waiting), j);
      assert k !in s.pins;
    case Drop(t) => UsersDrop(s, s', t, j);
  }

  lemma CountedPins(dev: nat, s: State, step: Step, s': State, j: nat)
    requires Placed(dev, s) && Counted(s) && Next(dev, s, step, s') && j < |s'.bufs| && (step.Pin? || step.Unpin?)
    ensures CountedAt(s', j)
  {
    assert CountedAt(s, j);
    UsersSame(s, s', j);
    assert s.bufs[j].dev == dev && s.bufs[j].blockno == s.tickets[step.t].k ==> j == s.tickets[step.t].i;
  }

  lemma CountedOthers(dev: nat, s: State, step: Step, s': State, j: nat)
    requires Placed(dev, s) && Counted(s) && Next(dev, s, step, s') && j < |s'.bufs|
    requires !(step.GetHit? || step.GetMiss? || step.Drop?)
    ensures CountedAt(s', j)
  {
    hide Placed;
    if step.Pin? || step.Unpin? {
      CountedPins(dev, s, step, s', j);
    } else {
      assert CountedAt(s, j);
      UsersSame(s, s', j);
    }
  }

  lemma CountedKept(dev: nat, s: State, step: Step, s': State)
    requires Placed(dev, s) && Counted(s) && Next(dev, s, step, s')
    ensures Counted(s')
  {
    hide Placed, Next, CountedAt;
    forall j: nat | j < |s'.bufs| ensures CountedAt(s', j) {
      if step.GetHit? || step.GetMiss? || step.Drop? {
        CountedTickets(dev, s, step, s', j);
      } else {
        CountedOthers(dev, s, step, s', j);
      }
    }
  }

  lemma LockedMiss(dev: nat, s: State, t: nat, k: nat, i: nat, s': State)
    requires Placed(dev, s) && Counted(s) && Locked(s) && Next(dev, s, GetMiss(t, k, i), s')
    ensures Locked(s')
  {
    hide Counted;
    VictimIdle(dev, s, i);
  }

  lemma LockedLock(dev: nat, s: State, t: nat, s': State)
    requires Locked(s) && Next(dev, s, Lock(t), s')
    ensures Locked(s')
  {
  }

  lemma LockedUnlock(dev: nat, s: State, t: nat, s': State)
    requires Locked(s) && Next(dev, s, Unlock(t), s')
    ensures Locked(s')
  {
  }

  lemma LockedChanged(dev: nat, s: State, step: Step, s': State)
    requires Placed(dev, s) && Counted(s) && Locked(s) && Next(dev, s, step, s')
    requires step.GetMiss? || step.Lock? || step.Unlock?
    ensures Locked(s')
  {
    hide Placed, Counted, Locked, Next;
    match step
    case GetMiss(t, k, i) => LockedMiss(dev, s, t, k, i, s');
    case Lock(t) => LockedLock(dev, s, t, s');
    case Unlock(t) => LockedUnlock(dev, s, t, s');
  }

  lemma LockedSame(dev: nat, s: State, step: Step, s': State)
    requires Locked(s) && Next(dev, s, step, s') && !(step.GetMiss? || step.Lock? || step.Unlock?)
    ensures Locked(s')
  {
    assert s'.holder == s.holder && |s'.bufs| == |s.bufs|;
    assert forall i :: 0 <= i < |s.bufs| ==> s'.bufs[i].locked == s.bufs[i].locked;
    assert forall t :: Has(s, t, Holding) <==> Has(s', t, Holding);
    assert forall t :: Has(s, t, Holding) ==> s'.tickets[t] == s.tickets[t];
  }

  lemma LockedKept(dev: nat, s: State, step: Step, s': State)
    requires Placed(dev, s) && Counted(s) && Locked(s) && Next(dev, s, step, s')
    ensures Locked(s')
  {
    hide Placed, Counted, Locked, Next;
    if step.GetMiss? || step.Lock? || step.Unlock? {
      LockedChanged(dev, s, step, s');
    } else {
      LockedSame(dev, s, step, s');
    }
  }

  /** Steps that leave contents, the disk and the places of blocks alone. */
  lemma CurrentSame(dev: nat, s: State, step: Step, s': State)
    requires Current(s) && Next(dev, s, step, s') &&
             (step.GetHit? || step.Lock? || step.Pin? || step.Unpin? || step.Unlock? || step.Drop?)
    ensures Current(s') && s'.disk == s.disk && s'.at == s.at && forall m :: m in s.disk ==>
            Visible(s', m) == Visible(s, m)
  {
    assert s'.disk == s.disk && s'.plain == s.plain && s'.at == s.at && s'.lost == s.lost && |s'.bufs| == |s.bufs|;
    assert forall j :: 0 <= j < |s.bufs| ==> s'.bufs[j].valid == s.bufs[j].valid && s'.bufs[j].data == s.bufs[j].data;
    forall m | m in s.disk ensures Visible(s', m) == Visible(s, m) && CurrentAt(s', m) {
      assert CurrentAt(s, m);
    }
  }

  /** What a step does to the contents of one block. */
  lemma FillAt(dev: nat, s: State, t: nat, s': State, m: nat)
    requires Placed(dev, s) && Next(dev, s, Fill(t), s') && m in s.disk
    ensures s'.disk == s.disk && Visible(s', m) == Visible(s, m)
  {
    assert m in s.at && m != s.bufs[s.tickets[t].i].blockno ==> s.at[m] != s.tickets[t].i;
  }

  lemma StoreAt(dev: nat, s: State, t: nat, data: Block, s': State, m: nat)
    requires Placed(dev, s) && Next(dev, s, Store(t, data), s') && m in s.disk
    ensures s'.disk == s.disk && s.tickets[t].k in s.disk &&
            Visible(s', m) == if m == s.tickets[t].k then data else Visible(s, m)
  {
    assert m in s.at && m != s.bufs[s.tickets[t].i].blockno ==> s.at[m] != s.tickets[t].i;
  }

  lemma DiskWriteAt(dev: nat, s: State, t: nat, s': State, m: nat)
    requires Placed(dev, s) && Next(dev, s, DiskWrite(t), s') && m in s.disk
    ensures s'.disk.Keys == s.disk.Keys && m in s'.disk && Visible(s', m) == Visible(s, m)
    ensures s'.disk[m] == if m == s.tickets[t].k then Visible(s, m) else s.disk[m]
  {
    assert m in s.at && m != s.bufs[s.tickets[t].i].blockno ==> s.at[m] != s.tickets[t].i;
  }

  lemma MissAt(dev: nat, s: State, t: nat, k: nat, i: nat, s': State, m: nat)
    requires Placed(dev, s) && Next(dev, s, GetMiss(t, k, i), s') && m in s.disk
    ensures s'.disk == s.disk
    ensures Visible(s', m) == if Dirty(dev, s, i) && m == s.bufs[i].blockno then s.disk[m] else Visible(s, m)
    ensures Dirty(dev, s, i) ==>
            s.bufs[i].blockno in s.disk && Visible(s, s.bufs[i].blockno) == s.bufs[i].data != s.disk[s.bufs[i].blockno]
  {
    assert m in s.at && m != s.bufs[i].blockno ==> s.at[m] != i;
  }

  lemma CurrentContents(dev: nat, s: State, step: Step, s': State)
    requires Placed(dev, s) && Current(s) && Next(dev, s, step, s') && (step.Fill? || step.Store? || step.DiskWrite?)
    ensures Current(s')
  {
    hide Visible, Placed;
    TicketKey(dev, s, step.t);
    forall m | m in s'.disk ensures CurrentAt(s', m) {
      assert CurrentAt(s, m);
      match step
      case Fill(t) => FillAt(dev, s, t, s', m);
      case Store(t, data) => StoreAt(dev, s, t, data, s', m);
      case DiskWrite(t) => DiskWriteAt(dev, s, t, s', m);
    }
  }

  lemma TicketKey(dev: nat, s: State, t: nat)
    requires Placed(dev, s)
    ensures t in s.tickets ==>
            s.tickets[t].k in s.disk && s.tickets[t].k in s.at && s.at[s.tickets[t].k] == s.tickets[t].i
    ensures Has(s, t, Holding) ==> s.bufs[s.tickets[t].i].blockno == s.tickets[t].k && s.bufs[s.tickets[t].i].dev == dev
  {
    if t in s.tickets {
      assert s.tickets[t].k in s.at.Keys;
    }
  }

  lemma CurrentMiss(dev: nat, s: State, t: nat, k: nat, i: nat, s': State)
    requires Placed(dev, s) && Current(s) && Next(dev, s, GetMiss(t, k, i), s')
    ensures Current(s')
  {
    hide Visible, Placed;
    forall m | m in s'.disk ensures CurrentAt(s', m) {
      assert CurrentAt(s, m);
      MissAt(dev, s, t, k, i, s', m);
    }
    MissAt(dev, s, t, k, i, s', k);
  }

  lemma CurrentKept(dev: nat, s: State, step: Step, s': State)
    requires Inv(dev, s) && Next(dev, s, step, s')
    ensures Current(s')
  {
    hide Placed, Counted, Locked, Current, Next;
    if step.GetMiss? {
      CurrentMiss(dev, s, step.t, step.k, step.i, s');
    } else if step.Fill? || step.Store? || step.DiskWrite? {
      CurrentContents(dev, s, step, s');
    } else {
      CurrentSame(dev, s, step, s');
    }
  }

  lemma InvKept(dev: nat, s: State, step: Step, s': State)
    requires Inv(dev, s) && Next(dev, s, step, s')
    ensures Inv(dev, s')
  {
    hide Placed, Counted, Locked, Current, Next;
    PlacedKept(dev, s, step, s');
    CountedKept(dev, s, step, s');
    LockedKept(dev, s, step, s');
    CurrentKept(dev, s, step, s');
  }

  lemma InitialInv(dev: nat, n: nat, d: Disk)
    requires dev >= 1
    ensures Inv(dev, Initial(n, d))
  {
    forall i | 0 <= i < n ensures CountedAt(Initial(n, d), i) {
      assert Users(Initial(n, d), i) == {};
    }
  }

  /** Every state of every run satisfies the invariant. */
  lemma {:induction false} RunInvariant(dev: nat, ss: seq<State>, steps: seq<Step>, n: nat, d: Disk, j: nat)
    requires dev >= 1 && IsRun(dev, ss, steps) && ss[0] == Initial(n, d) && j < |ss|
    ensures Inv(dev, ss[j])
  {
    hide Next, Inv, Initial;
    if j == 0 {
      InitialInv(dev, n, d);
    } else {
      RunInvariant(dev, ss, steps, n, d, j - 1);
      assert Next(dev, ss[j - 1], steps[j - 1], ss[j]);
      InvKept(dev, ss[j - 1], steps[j - 1], ss[j]);
    }
  }

  /** In every run, a process that has a filled buffer for block k still has the buffer of block k, and sees what a
      plain map from blocks to contents would show exactly when the block is not lost. */
  lemma TransparentExact(dev: nat, ss: seq<State>, steps: seq<Step>, n: nat, d: Disk, j: nat, t: nat)
    requires dev >= 1 && IsRun(dev, ss, steps) && ss[0] == Initial(n, d) && j < |ss| && Reading(ss[j], t)
    ensures var s, x := ss[j], ss[j].tickets[t];
            && Holds(s.bufs[x.i], dev, x.k) && x.k in s.plain
            && (s.bufs[x.i].data == s.plain[x.k] <==> x.k !in s.lost)
  {
    RunInvariant(dev, ss, steps, n, d, j);
    TicketKey(dev, ss[j], t);
    assert CurrentAt(ss[j], ss[j].tickets[t].k);
  }

  // ------------------------------------------------------------------------------ careful callers lose nothing

  /** Of all steps only an unlock that is not careful upsets the order. */
  lemma UnlockExact(dev: nat, s: State, t: nat, s': State)
    requires Inv(dev, s) && Tidy(s) && Next(dev, s, Unlock(t), s')
    ensures Tidy(s') <==> Careful(dev, s, Unlock(t))
  {
    hide Counted, Current;
    TicketKey(dev, s, t);
    UnlockVisible(dev, s, t, s');
    var k := s.tickets[t].k;
    assert Dirty(dev, s, s.tickets[t].i) <==> Visible(s, k) != s.disk[k];
    forall m | m in s.disk && m in s.at && s.at[m] in s.holder && s.at[m] !in s'.holder ensures m == k {
      assert s.at[m] == s.tickets[t].i;
    }
  }

  lemma UnlockVisible(dev: nat, s: State, t: nat, s': State)
    requires Current(s) && Next(dev, s, Unlock(t), s')
    ensures s'.disk == s.disk && s'.at == s.at && s'.pins == s.pins && s'.lost == s.lost &&
            s'.holder == s.holder - {s.tickets[t].i}
    ensures forall m :: m in s.disk ==> Visible(s', m) == Visible(s, m)
  {
    CurrentSame(dev, s, Unlock(t), s');
  }

  lemma TidyHands(dev: nat, s: State, step: Step, s': State)
    requires Inv(dev, s) && Tidy(s) && Next(dev, s, step, s') && (step.GetHit? || step.Lock? || step.Pin? || step.Drop?)
    ensures Tidy(s')
  {
    hide Placed, Counted, Locked, Current, Visible;
    CurrentSame(dev, s, step, s');
    assert s'.lost == s.lost && s.pins <= s'.pins && forall i :: i in s.holder ==> i in s'.holder;
  }

  lemma TidyUnpin(dev: nat, s: State, t: nat, s': State)
    requires Inv(dev, s) && Tidy(s) && Next(dev, s, Unpin(t), s')
    ensures Tidy(s')
  {
    hide Counted, Locked, Current;
    TicketKey(dev, s, t);
    CurrentSame(dev, s, Unpin(t), s');
  }

  lemma TidyContents(dev: nat, s: State, step: Step, s': State)
    requires Inv(dev, s) && Tidy(s) && Next(dev, s, step, s') && (step.Fill? || step.Store? || step.DiskWrite?)
    ensures Tidy(s')
  {
    hide Counted, Current, Visible, Placed;
    TicketKey(dev, s, step.t);
    assert Has(s, step.t, Holding);
    forall m | m in s'.disk && Visible(s', m) != s'.disk[m]
      ensures m in s'.pins || (m in s'.at && s'.at[m] in s'.holder)
    {
      match step
      case Fill(t) => FillAt(dev, s, t, s', m);
      case Store(t, data) => StoreAt(dev, s, t, data, s', m);
      case DiskWrite(t) => DiskWriteAt(dev, s, t, s', m);
    }
  }

  lemma TidyMiss(dev: nat, s: State, t: nat, k: nat, i: nat, s': State)
    requires Inv(dev, s) && Tidy(s) && Next(dev, s, GetMiss(t, k, i), s')
    ensures Tidy(s')
  {
    hide Counted, Current, Visible;
    VictimIdle(dev, s, i);
    assert i !in s.holder;
    MissAt(dev, s, t, k, i, s', k);
    assert !Dirty(dev, s, i);
    forall m | m in s'.disk && Visible(s', m) != s'.disk[m]
      ensures m in s'.pins || (m in s'.at && s'.at[m] in s'.holder)
    {
      MissAt(dev, s, t, k, i, s', m);
    }
  }

  lemma TidyKept(dev: nat, s: State, step: Step, s': State)
    requires Inv(dev, s) && Tidy(s) && Next(dev, s, step, s') && Careful(dev, s, step)
    ensures Tidy(s')
  {
    hide Inv, Tidy, Next, Careful;
    match step
    case GetMiss(t, k, i) => TidyMiss(dev, s, t, k, i, s');
    case Unlock(t) => UnlockExact(dev, s, t, s');
    case Unpin(t) => TidyUnpin(dev, s, t, s');
    case Fill(t) => TidyContents(dev, s, step, s');
    case Store(t, data) => TidyContents(dev, s, step, s');
    case DiskWrite(t) => TidyContents(dev, s, step, s');
    case _ => TidyHands(dev, s, step, s');
  }

  ghost predicate AllCareful(dev: nat, ss: seq<State>, steps: seq<Step>, n: nat)
    requires n <= |steps| && |ss| == |steps| + 1
  {
    forall j :: 0 <= j < n ==> Careful(dev, ss[j], steps[j])
  }

  lemma {:induction false} TidyRun(dev: nat, ss: seq<State>, steps: seq<Step>, n: nat, d: Disk, j: nat)
    requires dev >= 1 && IsRun(dev, ss, steps) && ss[0] == Initial(n, d) && j < |ss| && AllCareful(dev, ss, steps, j)
    ensures Tidy(ss[j])
  {
    hide Next, Inv, Initial, Careful, Tidy;
    if j == 0 {
      InitialTidy(n, d);
    } else {
      TidyRun(dev, ss, steps, n, d, j - 1);
      RunInvariant(dev, ss, steps, n, d, j - 1);
      assert Next(dev, ss[j - 1], steps[j - 1], ss[j]) && Careful(dev, ss[j - 1], steps[j - 1]);
      TidyKept(dev, ss[j - 1], steps[j - 1], ss[j]);
    }
  }

  lemma InitialTidy(n: nat, d: Disk)
    ensures Tidy(Initial(n, d))
  {
  }

  /** Cache transparency. In a run of careful callers, whatever recycling happened, a process that has a filled buffer
      for block k sees what a plain map from blocks to contents would show. */
  lemma Transparent(dev: nat, ss: seq<State>, steps: seq<Step>, n: nat, d: Disk, j: nat, t: nat)
    requires dev >= 1 && IsRun(dev, ss, steps) && ss[0] == Initial(n, d) && j < |ss| && Reading(ss[j], t)
    requires AllCareful(dev, ss, steps, j)
    ensures var s, x := ss[j], ss[j].tickets[t];
            Holds(s.bufs[x.i], dev, x.k) && x.k in s.plain && s.bufs[x.i].data == s.plain[x.k]
  {
    hide IsRun, Initial, AllCareful;
    TransparentExact(dev, ss, steps, n, d, j, t);
    TidyRun(dev, ss, steps, n, d, j);
  }

  // ------------------------------------------------------------------------------ and a careless one can lose

  lemma Longer(dev: nat, ss: seq<State>, steps: seq<Step>, step: Step, s': State)
    requires IsRun(dev, ss, steps) && Next(dev, ss[|steps|], step, s')
    ensures IsRun(dev, ss + [s'], steps + [step])
  {
    hide Next;
  }

  /** A cache of one buffer, with process 0 at this stage of using block k or, if it is none, at no stage. */
  function Alone(d: Disk, b: Buf, using: map<nat, Ticket>, k: nat, plain: Disk, lost: set<nat>): State {
    State([b], d, using, {}, map[k := 0], if b.locked then map[0 := 0] else map[], plain, lost)
  }

  function At(k: nat, stage: Stage): map<nat, Ticket> {
    map[0 := Ticket(0, k, stage)]
  }

  /** The steps of process 0 with block k from its ticket to its release, not reading it. */
  lemma PassThrough(dev: nat, d: Disk, b: Buf, k: nat, plain: Disk, lost: set<nat>)
    requires b == Buf(false, dev, k, false, 1, b.data)
    ensures var b1 := b.(locked := true);
      && Next(dev, Alone(d, b, At(k, Waiting), k, plain, lost), Lock(0), Alone(d, b1, At(k, Holding), k, plain, lost))
      && Next(dev, Alone(d, b1, At(k, Holding), k, plain, lost), Unlock(0), Alone(d, b, At(k, Leaving), k, plain, lost))
      && Next(dev, Alone(d, b, At(k, Leaving), k, plain, lost), Drop(0),
              Alone(d, b.(refcnt := 0), map[], k, plain, lost))
  {
    assert map[0 := 0] - {0} == map[];
    assert At(k, Leaving) - {0} == map[];
  }

  lemma TakeOver(dev: nat, d: Disk, b: Buf, k: nat, plain: Disk, lost: set<nat>, m: nat)
    requires b == Buf(b.valid, dev, k, false, 0, b.data) && k != m && m in d && k in d
    ensures var lost' := if b.valid && b.data != d[k] then lost + {k} else lost;
      Next(dev, Alone(d, b, map[], k, plain, lost), GetMiss(0, m, 0),
           Alone(d, Buf(false, dev, m, false, 1, b.data), At(m, Waiting), m, plain, lost'))
  {
    assert map[k := 0] - {k} == map[];
    assert map[][m := 0] == map[m := 0];
  }

  /** Block k is changed to x and released as it is. */
  lemma ChangeIt(dev: nat, d: Disk, k: nat, x: Block, b: Buf, b': Buf)
    requires k in d && b == Buf(true, dev, k, true, 1, d[k]) && b' == Buf(true, dev, k, false, 1, x)
    ensures Next(dev, Alone(d, b, At(k, Holding), k, d, {}), Store(0, x),
                 Alone(d, b.(data := x), At(k, Holding), k, d[k := x], {}))
    ensures Next(dev, Alone(d, b.(data := x), At(k, Holding), k, d[k := x], {}), Unlock(0),
                 Alone(d, b', At(k, Leaving), k, d[k := x], {}))
    ensures Next(dev, Alone(d, b', At(k, Leaving), k, d[k := x], {}), Drop(0),
                 Alone(d, b'.(refcnt := 0), map[], k, d[k := x], {}))
  {
    assert map[0 := 0] - {0} == map[];
    assert At(k, Leaving) - {0} == map[];
  }

  lemma ReadIt(dev: nat, d: Disk, k: nat, y: Block, plain: Disk, lost: set<nat>)
    requires k in d
    ensures var b := Buf(false, dev, k, false, 1, y);
      && Next(dev, Alone(d, b, At(k, Waiting), k, plain, lost), Lock(0),
              Alone(d, b.(locked := true), At(k, Holding), k, plain, lost))
      && Next(dev, Alone(d, b.(locked := true), At(k, Holding), k, plain, lost), Fill(0),
              Alone(d, b.(locked := true, valid := true, data := d[k]), At(k, Holding), k, plain, lost))
  {
  }

  lemma FirstGet(dev: nat, d: Disk, k: nat)
    requires dev >= 1 && k in d
    ensures Next(dev, Initial(1, d), GetMiss(0, k, 0),
                 Alone(d, Buf(false, dev, k, false, 1, ZeroBlock()), At(k, Waiting), k, d, {}))
  {
    var s := Initial(1, d);
    assert s.bufs == [Buf(false, 0, 0, false, 0, ZeroBlock())];
    assert map[][k := 0] == map[k := 0];
  }

  /** One buffer: process 0 changes block k and unlocks it as it is, the buffer is recycled for block m, and reading k
      again shows what was on disk. */
  lemma CarelessLoses(dev: nat, d: Disk, k: nat, m: nat, x: Block) returns (ss: seq<State>, steps: seq<Step>)
    requires dev >= 1 && k in d && m in d && k != m && x != d[k]
    ensures IsRun(dev, ss, steps) && ss[0] == Initial(1, d) && Reading(ss[|steps|], 0)
    ensures var s := ss[|steps|];
            s.tickets[0].k == k && k in s.plain && s.plain[k] == x != d[k] == s.bufs[0].data && s.lost == {k}
  {
    hide Next, Initial;
    var z := ZeroBlock();
    var plain := d[k := x];
    var b, c, e := Buf(false, dev, k, false, 1, z), Buf(false, dev, m, false, 1, x), Buf(false, dev, k, false, 1, x);
    var b1, b2 := b.(locked := true, valid := true, data := d[k]), Buf(true, dev, k, false, 1, x);
    ss, steps := [Initial(1, d)], [];
    FirstGet(dev, d, k);
    ss, steps := Add(dev, ss, steps, GetMiss(0, k, 0), Alone(d, b, At(k, Waiting), k, d, {}));
    ReadIt(dev, d, k, z, d, {});
    ss, steps := Add(dev, ss, steps, Lock(0), Alone(d, b.(locked := true), At(k, Holding), k, d, {}));
    ss, steps := Add(dev, ss, steps, Fill(0), Alone(d, b1, At(k, Holding), k, d, {}));
    ChangeIt(dev, d, k, x, b1, b2);
    ss, steps := Add(dev, ss, steps, Store(0, x), Alone(d, b1.(data := x), At(k, Holding), k, plain, {}));
    ss, steps := Add(dev, ss, steps, Unlock(0), Alone(d, b2, At(k, Leaving), k, plain, {}));
    ss, steps := Add(dev, ss, steps, Drop(0), Alone(d, b2.(refcnt := 0), map[], k, plain, {}));
    TakeOver(dev, d, b2.(refcnt := 0), k, plain, {}, m);
    assert {} + {k} == {k};
    ss, steps := Add(dev, ss, steps, GetMiss(0, m, 0), Alone(d, c, At(m, Waiting), m, plain, {k}));
    PassThrough(dev, d, c, m, plain, {k});
    ss, steps := Add(dev, ss, steps, Lock(0), Alone(d, c.(locked := true), At(m, Holding), m, plain, {k}));
    ss, steps := Add(dev, ss, steps, Unlock(0), Alone(d, c, At(m, Leaving), m, plain, {k}));
    ss, steps := Add(dev, ss, steps, Drop(0), Alone(d, c.(refcnt := 0), map[], m, plain, {k}));
    TakeOver(dev, d, c.(refcnt := 0), m, plain, {k}, k);
    ss, steps := Add(dev, ss, steps, GetMiss(0, k, 0), Alone(d, e, At(k, Waiting), k, plain, {k}));
    ReadIt(dev, d, k, x, plain, {k});
    ss, steps := Add(dev, ss, steps, Lock(0), Alone(d, e.(locked := true), At(k, Holding), k, plain, {k}));
    ss, steps := Add(dev, ss, steps, Fill(0),
                     Alone(d, e.(locked := true, valid := true, data := d[k]), At(k, Holding), k, plain, {k}));
  }

  lemma Add(dev: nat, ss: seq<State>, steps: seq<Step>, step: Step, s': State)
    returns (ss': seq<State>, steps': seq<Step>)
    requires IsRun(dev, ss, steps) && Next(dev, ss[|steps|], step, s')
    ensures IsRun(dev, ss', steps') && ss'[0] == ss[0] && ss'[|steps'|] == s'
  {
    Longer(dev, ss, steps, step, s');
    return ss + [s'], steps + [step];
  }

  /** In every run no two buffers carry the same block of a real device. */
  lemma OneBufferPerBlock(dev: nat, ss: seq<State>, steps: seq<Step>, n: nat, d: Disk, j: nat, x: nat, y: nat)
    requires dev >= 1 && IsRun(dev, ss, steps) && ss[0] == Initial(n, d) && j < |ss| && x < |ss[j].bufs| &&
             y < |ss[j].bufs|
    requires ss[j].bufs[x].dev >= 1 && ss[j].bufs[x].dev == ss[j].bufs[y].dev &&
             ss[j].bufs[x].blockno == ss[j].bufs[y].blockno
    ensures x == y
  {
    RunInvariant(dev, ss, steps, n, d, j);
  }

  ghost predicate PinnedThroughout(ss: seq<State>, a: nat, b: nat, k: nat)
    requires a <= b < |ss|
  {
    forall j :: a <= j <= b ==> k in ss[j].pins
  }

  lemma PinnedHere(dev: nat, s: State, k: nat)
    requires Inv(dev, s) && k in s.pins
    ensures k in s.at && s.at[k] < |s.bufs| && Holds(s.bufs[s.at[k]], dev, k) && s.bufs[s.at[k]].refcnt > 0
  {
    hide Locked, Current;
    assert CountedAt(s, s.at[k]);
  }

  lemma PinnedStep(dev: nat, s: State, step: Step, s': State, k: nat)
    requires Inv(dev, s) && Next(dev, s, step, s') && k in s.pins && k in s'.pins
    ensures k in s.at && k in s'.at && s'.at[k] == s.at[k]
  {
    hide Locked, Current;
    assert CountedAt(s, s.at[k]);
  }

  /** A pinned block is never recycled: from the pin to the unpin it stays in the same buffer, referenced. */
  lemma {:induction false} PinnedStays(dev: nat, ss: seq<State>, steps: seq<Step>, n: nat, d: Disk, a: nat, b: nat,
                                       k: nat)
    requires dev >= 1 && IsRun(dev, ss, steps) && ss[0] == Initial(n, d) && a <= b < |ss| &&
             PinnedThroughout(ss, a, b, k)
    ensures k in ss[a].at && k in ss[b].at && ss[a].at[k] == ss[b].at[k] < |ss[b].bufs|
    ensures Holds(ss[b].bufs[ss[b].at[k]], dev, k) && ss[b].bufs[ss[b].at[k]].refcnt > 0
  {
    hide Next, Inv, Initial;
    RunInvariant(dev, ss, steps, n, d, b);
    assert k in ss[b].pins;
    PinnedHere(dev, ss[b], k);
    if a < b {
      PinnedStays(dev, ss, steps, n, d, a, b - 1, k);
      RunInvariant(dev, ss, steps, n, d, b - 1);
      assert Next(dev, ss[b - 1], steps[b - 1], ss[b]) && k in ss[b - 1].pins;
      PinnedStep(dev, ss[b - 1], steps[b - 1], ss[b], k);
    }
  }
}
