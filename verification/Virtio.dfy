/**
  The virtio disk driver and the queue it shares with the device: descriptors, the avail ring, the used ring. Driver
  code runs under vdisk_lock, which does not stop the device: before each access of the driver to memory that the device
  also reads or writes, the device may take and complete any number of requests, in any order.
*/
module Virtio {

  const NUM: nat := 8               // descriptors, and entries of each ring
  const WRAP: nat := 65536          // ring indices are 16-bit

  const F_NEXT: nat := 1
  const F_WRITE: nat := 2
  const UNSET: nat := 0xff          // a status the device has not written

  /** What a descriptor points to. */
  datatype Addr = Null | Op(h: nat) | Data(b: nat) | Status(h: nat)

  datatype Desc = Desc(addr: Addr, len: nat, flags: nat, next: nat)

  /** struct virtio_blk_req: type is OUT for a write. */
  datatype BlkReq = BlkReq(out: bool, sector: nat)

  /** What a caller of virtio_disk_rw wants. */
  datatype Ask = Ask(b: nat, write: bool, sector: nat)

  /** The end of a request as the device reports it. */
  datatype Completion = Completion(b: nat, status: nat)

  /** What the device remembers of a request it works on: the buffer and where the status goes. */
  datatype Job = Job(b: nat, status: nat)

  datatype Phase = Queued | Working | Done | Woken

  /** A request in flight: what it asks for, and the second and third descriptor of its chain. */
  datatype Req = Req(ask: Ask, mid: nat, tail: nat, phase: Phase)

  // ------------------------------------------------------------------------------------------------------------------
  // Counting
  // ------------------------------------------------------------------------------------------------------------------

  predicate Distinct(s: seq<nat>) {
    forall i, j :: 0 <= i < j < |s| ==> s[i] != s[j]
  }

  /** Distinct numbers below n, one of them left out, are fewer than n. */
  lemma {:induction false} Pigeons(s: seq<nat>, n: nat, h: nat)
    requires Distinct(s) && h < n && h !in s && forall i :: 0 <= i < |s| ==> s[i] < n
    ensures |s| < n
    decreases n
  {
    if s != [] {
      assert s[0] < n;
      var last := n - 1;
      if last in s {
        var i :| 0 <= i < |s| && s[i] == last;
        var t := s[..i] + s[i + 1..];
        assert forall j :: 0 <= j < |t| ==> t[j] == if j < i then s[j] else s[j + 1];
        if h == last {
          assert false;
        }
        Pigeons(t, n - 1, h);
      } else if h == last {
        PigeonsAll(s, n - 1);
      } else {
        Pigeons(s, n - 1, h);
      }
    }
  }

  lemma {:induction false} PigeonsAll(s: seq<nat>, n: nat)
    requires Distinct(s) && forall i :: 0 <= i < |s| ==> s[i] < n
    ensures |s| <= n
    decreases n
  {
    if s != [] {
      assert s[0] < n;
      var last := n - 1;
      if last in s {
        var i :| 0 <= i < |s| && s[i] == last;
        var t := s[..i] + s[i + 1..];
        assert forall j :: 0 <= j < |t| ==> t[j] == if j < i then s[j] else s[j + 1];
        PigeonsAll(t, n - 1);
      } else {
        PigeonsAll(s, n - 1);
      }
    }
  }

  /** The 16-bit index after n entries, and the ring slot of entry n. */
  function Idx(n: nat): nat {
    n % WRAP
  }

  function Slot(n: nat): (k: nat)
    ensures k < NUM
  {
    n % NUM
  }

  /** A 16-bit index names the same ring slot as the number of entries ever put in. */
  lemma Wrap(n: nat)
    ensures Slot(Idx(n)) == Slot(n) && Idx(n + 1) == Idx(Idx(n) + 1)
  {
    assert n == n / WRAP * WRAP + n % WRAP;
  }

  /** Two counts less than a whole turn apart are equal when their 16-bit indices are. */
  lemma WrapEqual(a: nat, b: nat)
    requires a <= b < a + WRAP
    ensures Idx(a) == Idx(b) <==> a == b
  {
  }

  // ------------------------------------------------------------------------------------------------------------------
  // Invariants
  // ------------------------------------------------------------------------------------------------------------------

  /** Every descriptor is free, in the driver's hands, or in the chain of exactly one request. */
  ghost predicate Partition(free: seq<bool>, reserved: set<nat>, reqs: map<nat, Req>, owner: map<nat, nat>) {
    && |free| == NUM
    && (forall d :: 0 <= d < NUM ==> (free[d] <==> d !in owner && d !in reserved))
    && (forall d :: d in reserved ==> d < NUM && d !in owner)
    && (forall d :: d in owner ==> d < NUM && owner[d] in reqs && InChain(d, owner[d], reqs[owner[d]]))
    && (forall h :: h in reqs ==> Chain(owner, h, reqs[h]))
  }

  predicate InChain(d: nat, h: nat, r: Req) {
    d == h || d == r.mid || d == r.tail
  }

  /** Three different descriptors, all of request h. */
  predicate Chain(owner: map<nat, nat>, h: nat, r: Req) {
    && h != r.mid && h != r.tail && r.mid != r.tail
    && h in owner && owner[h] == h && r.mid in owner && owner[r.mid] == h && r.tail in owner && owner[r.tail] == h
  }

  /** The descriptors and the bookkeeping of a request say what it asks for. */
  predicate Formatted(desc: seq<Desc>, ops: seq<BlkReq>, info: seq<nat>, h: nat, r: Req) {
    && |desc| == |ops| == |info| == NUM && h < NUM && r.mid < NUM && r.tail < NUM
    && desc[h] == Desc(Op(h), 16, F_NEXT, r.mid) && ops[h] == BlkReq(r.ask.write, r.ask.sector)
    && desc[r.mid] == Desc(Data(r.ask.b), 1024, if r.ask.write then F_NEXT else F_NEXT + F_WRITE, r.tail)
    && desc[r.tail] == Desc(Status(h), 1, F_WRITE, 0)
    && info[h] == r.ask.b
  }

  ghost predicate AllFormatted(desc: seq<Desc>, ops: seq<BlkReq>, info: seq<nat>, reqs: map<nat, Req>) {
    |desc| == |ops| == |info| == NUM && forall h :: h in reqs ==> Formatted(desc, ops, info, h, reqs[h])
  }

  /** The requests with this phase are exactly those in s, each once. */
  ghost predicate InPhase(reqs: map<nat, Req>, s: seq<nat>, ph: Phase) {
    Distinct(s) && forall h :: h in s <==> h in reqs && reqs[h].phase == ph
  }

  /** The device works on exactly the requests it has taken and not completed, and knows where to report. */
  ghost predicate AtWork(reqs: map<nat, Req>, work: map<nat, Job>) {
    && (forall h :: h in work <==> h in reqs && reqs[h].phase == Working)
    && (forall h :: h in work ==> work[h] == Job(reqs[h].ask.b, h))
  }

  /** Until the device writes it, the status of a request is not that of success. */
  ghost predicate Statuses(reqs: map<nat, Req>, status: seq<nat>) {
    |status| == NUM && forall h :: h in reqs && (reqs[h].phase == Queued || reqs[h].phase == Working) ==>
      h < NUM && status[h] == UNSET
  }

  /** The ring holds the entries from number from on, in order. */
  predicate Holds(ring: seq<nat>, from: nat, s: seq<nat>) {
    |ring| == NUM && |s| <= NUM && forall i :: 0 <= i < |s| ==> ring[Slot(from + i)] == s[i]
  }

  /** A buffer is in at most one request, and is marked busy until its request is done. */
  ghost predicate Buffers(reqs: map<nat, Req>, holder: map<nat, nat>, busy: set<nat>) {
    && (forall h :: h in reqs ==> reqs[h].ask.b in holder && holder[reqs[h].ask.b] == h)
    && (forall h :: h in reqs ==> (reqs[h].ask.b in busy <==> reqs[h].phase != Woken))
    && (forall b :: b in holder ==> holder[b] in reqs && reqs[holder[b]].ask.b == b)
  }

  /** What is queued is what was sent and not yet read by the device, in order. */
  ghost predicate Waiting(reqs: map<nat, Req>, queue: seq<nat>, sent: seq<Ask>, from: nat) {
    |sent| == from + |queue| && forall k :: 0 <= k < |queue| ==>
      queue[k] in reqs && sent[from + k] == reqs[queue[k]].ask
  }

  /** What is done is what the device reported and the driver has not yet seen, in order. */
  ghost predicate Reported(reqs: map<nat, Req>, done: seq<nat>, status: seq<nat>, completed: seq<Completion>,
                           from: nat) {
    && |completed| == from + |done|
    && forall k :: 0 <= k < |done| ==>
         done[k] in reqs && done[k] < |status| &&
           completed[from + k] == Completion(reqs[done[k]].ask.b, status[done[k]])
  }

  /** The driver has woken the buffers of the first completions, all of which succeeded. */
  ghost predicate Seen(completed: seq<Completion>, woken: seq<nat>) {
    |woken| <= |completed| && forall k :: 0 <= k < |woken| ==> completed[k] == Completion(woken[k], 0)
  }

  predicate Before(p: Phase, q: Phase) {
    match p
    case Queued => true
    case Working => q != Queued
    case Done => q == Done || q == Woken
    case Woken => q == Woken
  }

  /** The same requests, some of them further. */
  ghost predicate Later(reqs: map<nat, Req>, reqs': map<nat, Req>) {
    && reqs'.Keys == reqs.Keys
    && forall h :: h in reqs ==> reqs'[h] == reqs[h].(phase := reqs'[h].phase) && Before(reqs[h].phase, reqs'[h].phase)
  }

  // ------------------------------------------------------------------------------------------------------------------
  // Steps of the invariants
  // ------------------------------------------------------------------------------------------------------------------

  lemma SlotsApart(from: nat, i: nat, j: nat)
    requires i < j < i + NUM
    ensures Slot(from + i) != Slot(from + j)
  {
  }

  lemma PushHolds(ring: seq<nat>, from: nat, s: seq<nat>, x: nat)
    requires Holds(ring, from, s) && |s| < NUM
    ensures Holds(ring[Slot(from + |s|) := x], from, s + [x])
  {
    var ring' := ring[Slot(from + |s|) := x];
    forall i | 0 <= i < |s| ensures ring'[Slot(from + i)] == s[i] {
      SlotsApart(from, i, |s|);
    }
  }

  lemma PopHolds(ring: seq<nat>, from: nat, s: seq<nat>)
    requires Holds(ring, from, s) && s != []
    ensures ring[Slot(from)] == s[0] && Holds(ring, from + 1, s[1..])
  {
    assert ring[Slot(from + 0)] == s[0];
    forall i | 0 <= i < |s| - 1 ensures ring[Slot(from + 1 + i)] == s[1..][i] {
      assert ring[Slot(from + (i + 1))] == s[i + 1];
    }
  }

  /** A request enters a phase at the end of its list. */
  lemma EnterPhase(reqs: map<nat, Req>, s: seq<nat>, ph: Phase, h: nat, r: Req)
    requires InPhase(reqs, s, ph) && r.phase == ph && (h in reqs ==> reqs[h].phase != ph)
    ensures InPhase(reqs[h := r], s + [h], ph)
  {
    assert h !in s;
  }

  /** The first request of a phase leaves it. */
  lemma LeavePhase(reqs: map<nat, Req>, s: seq<nat>, ph: Phase, r: Req)
    requires InPhase(reqs, s, ph) && s != [] && r.phase != ph
    ensures InPhase(reqs[s[0] := r], s[1..], ph)
  {
    assert forall h :: h in s <==> h == s[0] || h in s[1..];
    assert s[0] !in s[1..];
  }

  /** A request that is not in a phase changes without entering it. */
  lemma OtherPhase(reqs: map<nat, Req>, s: seq<nat>, ph: Phase, h: nat, r: Req)
    requires InPhase(reqs, s, ph) && r.phase != ph && (h in reqs ==> reqs[h].phase != ph)
    ensures InPhase(reqs[h := r], s, ph)
  {
  }

  lemma GonePhase(reqs: map<nat, Req>, s: seq<nat>, ph: Phase, h: nat)
    requires InPhase(reqs, s, ph) && h in reqs && reqs[h].phase != ph
    ensures InPhase(reqs - {h}, s, ph)
  {
  }

  /** A chain made of reserved descriptors becomes a request. */
  lemma NewPartition(free: seq<bool>, reserved: set<nat>, reqs: map<nat, Req>, owner: map<nat, nat>, h: nat, r: Req)
    requires Partition(free, reserved, reqs, owner) && h != r.mid && h != r.tail && r.mid != r.tail
    requires h in reserved && r.mid in reserved && r.tail in reserved
    ensures h !in reqs
    ensures Partition(free, reserved - {h, r.mid, r.tail}, reqs[h := r], owner[h := h][r.mid := h][r.tail := h])
  {
  }

  /** The chain of a request goes back into the driver's hands. */
  lemma GonePartition(free: seq<bool>, reserved: set<nat>, reqs: map<nat, Req>, owner: map<nat, nat>, h: nat)
    requires Partition(free, reserved, reqs, owner) && h in reqs
    ensures var r := reqs[h]; h < NUM && r.mid < NUM && r.tail < NUM && h != r.mid && h != r.tail && r.mid != r.tail
    ensures var r := reqs[h];
            h !in reserved && r.mid !in reserved && r.tail !in reserved && !free[h] && !free[r.mid] && !free[r.tail]
    ensures var r := reqs[h];
            Partition(free, reserved + {h, r.mid, r.tail}, reqs - {h}, owner - {h, r.mid, r.tail})
  {
    assert Chain(owner, h, reqs[h]);
  }

  lemma SamePartition(free: seq<bool>, reserved: set<nat>, reqs: map<nat, Req>, owner: map<nat, nat>, h: nat, ph: Phase)
    requires Partition(free, reserved, reqs, owner) && h in reqs
    ensures Partition(free, reserved, reqs[h := reqs[h].(phase := ph)], owner)
  {
  }

  lemma TakePartition(free: seq<bool>, reserved: set<nat>, reqs: map<nat, Req>, owner: map<nat, nat>, d: nat)
    requires Partition(free, reserved, reqs, owner) && d < NUM && free[d]
    ensures Partition(free[d := false], reserved + {d}, reqs, owner) && d !in reserved
  {
  }

  lemma FreePartition(free: seq<bool>, reserved: set<nat>, reqs: map<nat, Req>, owner: map<nat, nat>, d: nat)
    requires Partition(free, reserved, reqs, owner) && d in reserved
    ensures d < NUM && Partition(free[d := true], reserved - {d}, reqs, owner)
  {
  }

  /** What is written into descriptors of no chain does not matter. */
  lemma OthersFormatted(free: seq<bool>, reserved: set<nat>, reqs: map<nat, Req>, owner: map<nat, nat>,
                        desc: seq<Desc>, ops: seq<BlkReq>, info: seq<nat>, desc': seq<Desc>, ops': seq<BlkReq>,
                          info': seq<nat>)
    requires Partition(free, reserved, reqs, owner) && AllFormatted(desc, ops, info, reqs)
    requires |desc'| == |ops'| == |info'| == NUM
    requires forall d :: 0 <= d < NUM && d in owner ==> desc'[d] == desc[d] && ops'[d] == ops[d] && info'[d] == info[d]
    ensures AllFormatted(desc', ops', info', reqs)
  {
    forall g | g in reqs ensures Formatted(desc', ops', info', g, reqs[g]) {
      assert Formatted(desc, ops, info, g, reqs[g]) && Chain(owner, g, reqs[g]);
    }
  }

  lemma AddFormatted(desc: seq<Desc>, ops: seq<BlkReq>, info: seq<nat>, reqs: map<nat, Req>, h: nat, r: Req)
    requires AllFormatted(desc, ops, info, reqs) && Formatted(desc, ops, info, h, r)
    ensures AllFormatted(desc, ops, info, reqs[h := r])
  {
  }

  lemma LessFormatted(desc: seq<Desc>, ops: seq<BlkReq>, info: seq<nat>, reqs: map<nat, Req>, h: nat)
    requires AllFormatted(desc, ops, info, reqs)
    ensures AllFormatted(desc, ops, info, reqs - {h})
  {
  }

  lemma SameFormatted(desc: seq<Desc>, ops: seq<BlkReq>, info: seq<nat>, reqs: map<nat, Req>, h: nat, ph: Phase)
    requires AllFormatted(desc, ops, info, reqs) && h in reqs
    ensures AllFormatted(desc, ops, info, reqs[h := reqs[h].(phase := ph)])
  {
    assert Formatted(desc, ops, info, h, reqs[h]);
  }

  lemma NewBuffers(reqs: map<nat, Req>, holder: map<nat, nat>, busy: set<nat>, h: nat, r: Req)
    requires Buffers(reqs, holder, busy) && h !in reqs && r.ask.b !in holder && r.phase != Woken && r.ask.b in busy
    ensures Buffers(reqs[h := r], holder[r.ask.b := h], busy)
  {
  }

  lemma BusyBuffers(reqs: map<nat, Req>, holder: map<nat, nat>, busy: set<nat>, b: nat)
    requires Buffers(reqs, holder, busy) && b !in holder
    ensures Buffers(reqs, holder, busy + {b})
  {
  }

  lemma SameBuffers(reqs: map<nat, Req>, holder: map<nat, nat>, busy: set<nat>, h: nat, ph: Phase)
    requires Buffers(reqs, holder, busy) && h in reqs && reqs[h].phase != Woken && ph != Woken
    ensures Buffers(reqs[h := reqs[h].(phase := ph)], holder, busy)
  {
  }

  lemma WokenBuffers(reqs: map<nat, Req>, holder: map<nat, nat>, busy: set<nat>, h: nat)
    requires Buffers(reqs, holder, busy) && h in reqs
    ensures Buffers(reqs[h := reqs[h].(phase := Woken)], holder, busy - {reqs[h].ask.b})
    ensures reqs[h].phase != Woken ==> reqs[h].ask.b in busy
  {
  }

  lemma GoneBuffers(reqs: map<nat, Req>, holder: map<nat, nat>, busy: set<nat>, h: nat)
    requires Buffers(reqs, holder, busy) && h in reqs
    ensures Buffers(reqs - {h}, holder - {reqs[h].ask.b}, busy)
  {
  }

  /** A buffer that is not busy has been let go. */
  lemma LetGo(reqs: map<nat, Req>, holder: map<nat, nat>, busy: set<nat>, h: nat)
    requires Buffers(reqs, holder, busy) && h in reqs && reqs[h].ask.b !in busy
    ensures reqs[h].phase == Woken
  {
  }

  /** Nothing in a list of heads changes when other requests do. */
  lemma SameWaiting(reqs: map<nat, Req>, queue: seq<nat>, sent: seq<Ask>, from: nat, reqs': map<nat, Req>)
    requires Waiting(reqs, queue, sent, from) && forall h :: h in queue && h in reqs ==>
             h in reqs' && reqs'[h].ask == reqs[h].ask
    ensures Waiting(reqs', queue, sent, from)
  {
  }

  lemma SameReported(reqs: map<nat, Req>, done: seq<nat>, status: seq<nat>, completed: seq<Completion>, from: nat,
                     reqs': map<nat, Req>, status': seq<nat>)
    requires Reported(reqs, done, status, completed, from) && |status'| == |status|
    requires forall h :: h in done && h in reqs ==> h in reqs' && reqs'[h].ask == reqs[h].ask
    requires forall h :: h in done && h < |status| ==> status'[h] == status[h]
    ensures Reported(reqs', done, status', completed, from)
  {
  }

  lemma PopWaiting(reqs: map<nat, Req>, queue: seq<nat>, sent: seq<Ask>, from: nat)
    requires Waiting(reqs, queue, sent, from) && queue != []
    ensures queue[0] in reqs && sent[from] == reqs[queue[0]].ask && Waiting(reqs, queue[1..], sent, from + 1)
  {
    assert sent[from + 0] == reqs[queue[0]].ask;
    forall k | 0 <= k < |queue| - 1 ensures queue[1..][k] in reqs && sent[from + 1 + k] == reqs[queue[1..][k]].ask {
      assert sent[from + (k + 1)] == reqs[queue[k + 1]].ask;
    }
  }

  lemma PushWaiting(reqs: map<nat, Req>, queue: seq<nat>, sent: seq<Ask>, from: nat, h: nat)
    requires Waiting(reqs, queue, sent, from) && h in reqs
    ensures Waiting(reqs, queue + [h], sent + [reqs[h].ask], from)
  {
  }

  lemma PopReported(reqs: map<nat, Req>, done: seq<nat>, status: seq<nat>, completed: seq<Completion>, from: nat)
    requires Reported(reqs, done, status, completed, from) && done != []
    ensures done[0] in reqs && done[0] < |status| && completed[from] == Completion(reqs[done[0]].ask.b, status[done[0]])
    ensures Reported(reqs, done[1..], status, completed, from + 1)
  {
    assert completed[from + 0] == Completion(reqs[done[0]].ask.b, status[done[0]]);
    forall k | 0 <= k < |done| - 1
      ensures done[1..][k] in reqs && done[1..][k] < |status|
      ensures completed[from + 1 + k] == Completion(reqs[done[1..][k]].ask.b, status[done[1..][k]])
    {
      assert completed[from + (k + 1)] == Completion(reqs[done[k + 1]].ask.b, status[done[k + 1]]);
    }
  }

  lemma PushReported(reqs: map<nat, Req>, done: seq<nat>, status: seq<nat>, completed: seq<Completion>, from: nat,
                     h: nat)
    requires Reported(reqs, done, status, completed, from) && h in reqs && h < |status|
    ensures Reported(reqs, done + [h], status, completed + [Completion(reqs[h].ask.b, status[h])], from)
  {
  }

  lemma LaterTrans(a: map<nat, Req>, b: map<nat, Req>, c: map<nat, Req>)
    requires Later(a, b) && Later(b, c)
    ensures Later(a, c)
  {
    assert forall h :: h in a ==> h in b.Keys && h in c.Keys;
  }

  lemma LaterOne(reqs: map<nat, Req>, h: nat, ph: Phase)
    requires h in reqs && Before(reqs[h].phase, ph)
    ensures Later(reqs, reqs[h := reqs[h].(phase := ph)])
  {
  }

  lemma LaterAsk(a: map<nat, Req>, b: map<nat, Req>, h: nat)
    requires Later(a, b)
    ensures h in a <==> h in b
    ensures h in a ==> b[h].ask == a[h].ask && b[h].mid == a[h].mid && b[h].tail == a[h].tail
  {
    assert h in a.Keys <==> h in b.Keys;
  }

  lemma PartitionFacts(free: seq<bool>, reserved: set<nat>, reqs: map<nat, Req>, owner: map<nat, nat>)
    requires Partition(free, reserved, reqs, owner)
    ensures |free| == NUM && (forall h :: h in reqs ==> h < NUM && h !in reserved)
    ensures forall d :: d in reserved ==> d < NUM && !free[d] && d !in reqs && d !in owner
  {
    forall h | h in reqs ensures h < NUM && h !in reserved {
      assert Chain(owner, h, reqs[h]);
    }
  }

  lemma FormattedFacts(desc: seq<Desc>, ops: seq<BlkReq>, info: seq<nat>, reqs: map<nat, Req>)
    requires AllFormatted(desc, ops, info, reqs)
    ensures |desc| == |ops| == |info| == NUM
  {
  }

  /** There is always room in a ring for a request that is not in it. */
  lemma Room(free: seq<bool>, reserved: set<nat>, reqs: map<nat, Req>, owner: map<nat, nat>, s: seq<nat>, ph: Phase,
             h: nat)
    requires Partition(free, reserved, reqs, owner) && InPhase(reqs, s, ph) && h < NUM &&
             (h in reqs ==> reqs[h].phase != ph)
    ensures |s| < NUM
  {
    forall i | 0 <= i < |s| ensures s[i] < NUM {
      assert s[i] in s;
      assert Chain(owner, s[i], reqs[s[i]]);
    }
    Pigeons(s, NUM, h);
  }

  lemma HoldsSize(ring: seq<nat>, from: nat, s: seq<nat>)
    requires Holds(ring, from, s)
    ensures |ring| == NUM && |s| <= NUM
  {
  }

  lemma FirstIn(reqs: map<nat, Req>, s: seq<nat>, ph: Phase)
    requires InPhase(reqs, s, ph) && s != []
    ensures s[0] in reqs && reqs[s[0]].phase == ph
  {
    assert s[0] in s;
  }

  lemma AllIn(reqs: map<nat, Req>, s: seq<nat>, ph: Phase)
    requires InPhase(reqs, s, ph)
    ensures forall h :: h in s ==> h in reqs && reqs[h].phase == ph
  {
  }

  /** What a device finds that follows the chain of a request. */
  lemma ReadChain(desc: seq<Desc>, ops: seq<BlkReq>, info: seq<nat>, reqs: map<nat, Req>, h: nat)
    requires AllFormatted(desc, ops, info, reqs) && h in reqs
    ensures h < NUM && |desc| == |ops| == |info| == NUM && desc[h].addr == Op(h)
    ensures ops[h] == BlkReq(reqs[h].ask.write, reqs[h].ask.sector) && info[h] == reqs[h].ask.b
    ensures desc[h].next == reqs[h].mid < NUM && desc[reqs[h].mid].addr == Data(reqs[h].ask.b)
    ensures desc[reqs[h].mid].next == reqs[h].tail < NUM && desc[reqs[h].tail].addr == Status(h)
    ensures Chained(desc, h, reqs[h])
  {
    assert Formatted(desc, ops, info, h, reqs[h]);
  }

  /** The three descriptors are chained. */
  predicate Chained(desc: seq<Desc>, h: nat, r: Req) {
    && |desc| == NUM && h < NUM && r.mid < NUM && r.tail < NUM
    && desc[h].flags % 2 == 1 && desc[h].next == r.mid
    && desc[r.mid].flags % 2 == 1 && desc[r.mid].next == r.tail && desc[r.tail].flags % 2 == 0
  }

  /** The sector of a block, in 32-bit arithmetic. */
  function Sector(blockno: nat): nat {
    blockno * 2 % 0x1_0000_0000
  }

  // ------------------------------------------------------------------------------------------------------------------
  // Counting free descriptors
  // ------------------------------------------------------------------------------------------------------------------

  function FreeCount(free: seq<bool>): nat {
    if free == [] then 0 else FreeCount(free[..|free| - 1]) + if free[|free| - 1] then 1 else 0
  }

  lemma {:induction false} CountLess(free: seq<bool>, i: nat)
    requires i < |free| && free[i]
    ensures FreeCount(free) == FreeCount(free[i := false]) + 1
    decreases |free|
  {
    var n := |free| - 1;
    if i == n {
      assert free[i := false][..n] == free[..n];
    } else {
      CountLess(free[..n], i);
      assert free[i := false][..n] == free[..n][i := false];
    }
  }

  lemma {:induction false} CountNone(free: seq<bool>)
    requires forall i :: 0 <= i < |free| ==> !free[i]
    ensures FreeCount(free) == 0
    decreases |free|
  {
    if free != [] {
      CountNone(free[..|free| - 1]);
    }
  }

  /** The descriptors of idx, all different, are what free lacks from free0. */
  ghost predicate Taken(free0: seq<bool>, free: seq<bool>, idx: seq<nat>) {
    && |free| == |free0| && Distinct(idx) && (forall k :: 0 <= k < |idx| ==> idx[k] < |free0| && free0[idx[k]])
    && forall d :: 0 <= d < |free0| ==> free[d] == (free0[d] && d !in idx)
  }

  lemma TakenStart(free: seq<bool>)
    ensures Taken(free, free, [])
  {
  }

  lemma TakenSize(free0: seq<bool>, free: seq<bool>, idx: seq<nat>)
    requires Taken(free0, free, idx)
    ensures |free0| == |free|
  {
  }

  lemma TakenNone(free0: seq<bool>, free: seq<bool>, idx: seq<nat>)
    requires Taken(free0, free, idx) && idx == []
    ensures free0 == free
  {
  }

  lemma TakenThree(free0: seq<bool>, free: seq<bool>, idx: seq<nat>)
    requires Taken(free0, free, idx) && |idx| == 3
    ensures idx[0] < |free0| && idx[1] < |free0| && idx[2] < |free0| && idx[0] != idx[1] && idx[0] != idx[2] &&
            idx[1] != idx[2]
    ensures free0[idx[0]] && free0[idx[1]] && free0[idx[2]]
    ensures free == free0[idx[0] := false][idx[1] := false][idx[2] := false]
  {
  }

  lemma GiveBack(free0: seq<bool>, free: seq<bool>, idx: seq<nat>)
    requires Taken(free0, free, idx) && idx != []
    ensures idx[0] < |free| && !free[idx[0]] && free0[idx[0]] && Taken(free0, free[idx[0] := true], idx[1..])
  {
    assert forall d :: d in idx <==> d == idx[0] || d in idx[1..];
  }

  lemma TakeMore(free0: seq<bool>, free: seq<bool>, idx: seq<nat>, i: nat)
    requires Taken(free0, free, idx) && i < |free| && free[i]
    ensures Taken(free0, free[i := false], idx + [i]) && FreeCount(free) == FreeCount(free[i := false]) + 1
  {
    CountLess(free, i);
  }

  const NONE: Desc := Desc(Null, 0, 0, 0)

  lemma WorkFacts(reqs: map<nat, Req>, work: map<nat, Job>, status: seq<nat>, h: nat)
    requires AtWork(reqs, work) && Statuses(reqs, status) && h in work
    ensures h in reqs && reqs[h].phase == Working && work[h] == Job(reqs[h].ask.b, h) && h < |status| == NUM
  {
  }

  lemma SeenMore(completed: seq<Completion>, woken: seq<nat>, c: Completion)
    requires Seen(completed, woken)
    ensures Seen(completed + [c], woken)
  {
  }

  /** Who has what: the requests in flight by first descriptor, the request of each descriptor, the descriptors neither
      free nor in a chain, the request of each buffer, what was made available and not yet taken by the device, what it
      has completed and the driver not yet seen. */
  datatype Books = Books(reqs: map<nat, Req>, owner: map<nat, nat>, reserved: set<nat>, holder: map<nat, nat>,
                         queue: seq<nat>, done: seq<nat>)

  /** What callers asked for, in the order it was made available; what the device read from memory; what it reported;
      and the buffers the driver let go. */
  datatype Past = Past(sent: seq<Ask>, got: seq<Ask>, completed: seq<Completion>, woken: seq<nat>)

  datatype Ring = Ring(entries: seq<nat>, idx: nat)

  /** The device's own memory: how far it has looked in the avail ring, and what it works on. */
  datatype Dev = Dev(idx: nat, work: map<nat, Job>)

  /** The requests and what memory says about them. */
  ghost predicate RequestsOk(k: Books, free: seq<bool>, desc: seq<Desc>, ops: seq<BlkReq>, info: seq<nat>,
                             busy: set<nat>, work: map<nat, Job>, status: seq<nat>) {
    && Partition(free, k.reserved, k.reqs, k.owner) && AllFormatted(desc, ops, info, k.reqs)
    && Buffers(k.reqs, k.holder, busy) && InPhase(k.reqs, k.queue, Queued) && InPhase(k.reqs, k.done, Done)
    && AtWork(k.reqs, work) && Statuses(k.reqs, status)
  }

  /** A ring holds the entries s after the first n; 16-bit indices say where they begin and end. */
  ghost predicate RingOk(ring: Ring, n: nat, s: seq<nat>, begin: nat) {
    Holds(ring.entries, n, s) && ring.idx == Idx(n + |s|) && begin == Idx(n)
  }

  /** The device has read exactly what was sent, in order, and the driver has seen exactly what the device reported. */
  ghost predicate PastOk(k: Books, past: Past, status: seq<nat>) {
    && past.got <= past.sent && Waiting(k.reqs, k.queue, past.sent, |past.got|)
    && Seen(past.completed, past.woken) && Reported(k.reqs, k.done, status, past.completed, |past.woken|)
  }

  /** A moment: what the device changes. */
  datatype Moment = Moment(k: Books, past: Past, status: seq<nat>)

  /** Nothing is lost or reordered from p to q: requests are further, histories longer, nothing new is sent. */
  ghost predicate Onward(p: Moment, q: Moment) {
    && Later(p.k.reqs, q.k.reqs) && q.k.owner == p.k.owner && q.k.holder == p.k.holder && q.past.sent == p.past.sent
    && p.past.got <= q.past.got && p.past.completed <= q.past.completed && p.past.woken <= q.past.woken
  }

  lemma OnwardRefl(p: Moment)
    ensures Onward(p, p)
  {
  }

  lemma OnwardTrans(p: Moment, q: Moment, r: Moment)
    requires Onward(p, q) && Onward(q, r)
    ensures Onward(p, r)
  {
    hide Later;
    LaterTrans(p.k.reqs, q.k.reqs, r.k.reqs);
  }

  /** What the device alone may have changed: it sees no completion for the driver, and descriptors in the driver's
      hands and their status are none of its business. */
  ghost predicate MovedOk(p: Moment, q: Moment) {
    && Onward(p, q) && q.k.reserved == p.k.reserved && q.past.woken == p.past.woken && p.k.done <= q.k.done
    && |q.status| == |p.status| && forall d :: d in p.k.reserved && d < |p.status| ==> q.status[d] == p.status[d]
  }

  lemma MovedRefl(p: Moment)
    ensures MovedOk(p, p)
  {
  }

  lemma MovedTrans(p: Moment, q: Moment, r: Moment)
    requires MovedOk(p, q) && MovedOk(q, r)
    ensures MovedOk(p, r)
  {
    hide Onward;
    OnwardTrans(p, q, r);
  }

  /** A descriptor with its first k fields written. */
  function Partly(x: Desc, d: Desc, k: nat): Desc {
    Desc(if k > 0 then d.addr else x.addr, if k > 1 then d.len else x.len, if k > 2 then d.flags else x.flags,
         if k > 3 then d.next else x.next)
  }

  lemma OnwardReserved(p: Moment, q: Moment)
    requires q.k == p.k.(reserved := q.k.reserved) && q.past == p.past
    ensures Onward(p, q)
  {
  }

  lemma Without(idx: seq<nat>, free0: seq<bool>, free: seq<bool>)
    requires Taken(free0, free, idx) && idx != []
    ensures idx[0] !in idx[1..] && forall d :: d in idx <==> d == idx[0] || d in idx[1..]
  {
  }

  lemma WaitingSize(reqs: map<nat, Req>, queue: seq<nat>, sent: seq<Ask>, from: nat)
    requires Waiting(reqs, queue, sent, from)
    ensures |sent| == from + |queue|
  {
  }

  lemma ReportedSize(reqs: map<nat, Req>, done: seq<nat>, status: seq<nat>, completed: seq<Completion>, from: nat)
    requires Reported(reqs, done, status, completed, from)
    ensures |completed| == from + |done|
  {
  }

  lemma SeenNext(completed: seq<Completion>, woken: seq<nat>, b: nat)
    requires Seen(completed, woken) && |woken| < |completed| && completed[|woken|] == Completion(b, 0)
    ensures Seen(completed, woken + [b])
  {
  }

  /** An entry in the slot after the last does not matter until the index moves. */
  lemma LessHolds(ring: seq<nat>, from: nat, s: seq<nat>, x: nat)
    requires Holds(ring, from, s + [x])
    ensures Holds(ring, from, s)
  {
    forall i | 0 <= i < |s| ensures ring[Slot(from + i)] == s[i] {
      assert (s + [x])[i] == s[i];
    }
  }

  lemma IsFormatted(desc: seq<Desc>, ops: seq<BlkReq>, info: seq<nat>, ask: Ask, i0: nat, i1: nat, i2: nat)
    requires |desc| == |ops| == |info| == NUM && i0 < NUM && i1 < NUM && i2 < NUM
    requires desc[i0] == Desc(Op(i0), 16, F_NEXT, i1) && ops[i0] == BlkReq(ask.write, ask.sector) && info[i0] == ask.b
    requires desc[i1] == Desc(Data(ask.b), 1024, if ask.write then F_NEXT else F_NEXT + F_WRITE, i2)
    requires desc[i2] == Desc(Status(i0), 1, F_WRITE, 0)
    ensures Formatted(desc, ops, info, i0, Req(ask, i1, i2, Queued))
  {
  }

  /** A new request, made of reserved descriptors, last in the queue. */
  ghost function Enrolled(k: Books, h: nat, r: Req): Books {
    Books(k.reqs[h := r], k.owner[h := h][r.mid := h][r.tail := h], k.reserved - {h, r.mid, r.tail},
          k.holder[r.ask.b := h],
          k.queue + [h], k.done)
  }

  /** A request is over; its descriptors are reserved. */
  ghost function Dropped(k: Books, h: nat): Books
    requires h in k.reqs
  {
    var r := k.reqs[h];
    Books(k.reqs - {h}, k.owner - {h, r.mid, r.tail}, k.reserved + {h, r.mid, r.tail}, k.holder - {r.ask.b}, k.queue,
          k.done)
  }

  /** The first completion is seen. */
  ghost function Woke(k: Books, id: nat): Books
    requires id in k.reqs && k.done != []
  {
    k.(reqs := k.reqs[id := k.reqs[id].(phase := Woken)], done := k.done[1..])
  }

  class Disk {
    // the driver's own memory
    var free: seq<bool>
    var seenIdx: nat                  // used_idx: how far the driver has looked in the used ring
    var info: seq<nat>                // info[].b: the buffer of each tracked operation
    var busy: set<nat>                // the buffers with b->disk set
    // memory shared with the device
    var desc: seq<Desc>
    var ops: seq<BlkReq>
    var avail: Ring
    var used: Ring
    var status: seq<nat>              // info[].status
    var pending: bool                 // the device asks for an interrupt
    var dev: Dev
    ghost var k: Books
    ghost var past: Past

    /** What holds at every moment. */
    ghost predicate Always()
      reads this
    {
      && RequestsOk(k, free, desc, ops, info, busy, dev.work, status) && PastOk(k, past, status)
      && RingOk(avail, |past.got|, k.queue, dev.idx) && RingOk(used, |past.woken|, k.done, seenIdx)
    }

    /** What holds while no driver code runs: also, no descriptor is half-way and no completion waits without an
        interrupt to come. */
    ghost predicate Valid()
      reads this
    {
      Always() && k.reserved == {} && Heard()
    }

    /** A completion the driver has not seen has its interrupt to come. */
    ghost predicate Heard()
      reads this
    {
      k.done != [] ==> pending
    }

    /** At every moment the device has read exactly the first requests sent, in order, and the driver has let go exactly
        the buffers of the first completions, all of which succeeded; neither ring has more than NUM entries under
        way. */
    lemma InOrder()
      requires Always()
      ensures past.got <= past.sent && |past.sent| <= |past.got| + NUM
      ensures |past.woken| <= |past.completed| <= |past.woken| + NUM
      ensures forall n :: 0 <= n < |past.woken| ==> past.completed[n] == Completion(past.woken[n], 0)
    {
      hide RequestsOk, Slot, Idx;
    }

    /** At every moment the device works only on buffers marked busy, and on different ones for different requests. */
    lemma WorkBusy(h: nat, g: nat)
      requires Always() && h in dev.work && g in dev.work
      ensures dev.work[h].b in busy && (h != g ==> dev.work[h].b != dev.work[g].b)
    {
      hide RingOk, PastOk, Partition, AllFormatted, InPhase, Statuses;
    }

    ghost function Now(): Moment
      reads this
    {
      Moment(k, past, status)
    }

    /** All that has happened since p is the device's doing. */
    ghost predicate MovedFrom(p: Moment)
      reads this
    {
      MovedOk(p, Now())
    }

    /** virtio_disk_init, as far as the queue goes. */
    constructor ()
      ensures Valid() && k.reqs == map[] && busy == {} && past == Past([], [], [], [])
    {
      desc, info, ops := seq(NUM, _ => NONE), seq(NUM, _ => 0), seq(NUM, _ => BlkReq(false, 0));
      avail, used := Ring(seq(NUM, _ => 0), 0), Ring(seq(NUM, _ => 0), 0);
      free, status := seq(NUM, _ => true), seq(NUM, _ => 0);
      seenIdx, busy, pending, dev := 0, {}, false, Dev(0, map[]);
      k, past := Books(map[], map[], {}, map[], [], []), Past([], [], [], []);
    }

    // ---------------------------------------------------------------- the device

    /** The device takes the next request, if there is one, and reads its descriptors. */
    method DeviceTake()
      requires Always()
      modifies this`dev, this`k, this`past
      ensures Always() && MovedFrom(old(Now())) && |past.got| == |old(past).got| + (if old(k).queue == [] then 0 else 1)
      ensures k.done == old(k).done
    {
      hide Slot, Idx, RequestsOk, RingOk, PastOk, MovedOk;
      TakeIndex();
      MovedRefl(Now());
      if dev.idx == avail.idx {
        return;
      }
      var h := avail.entries[Slot(dev.idx)];
      TakeReads(h);
      var op, mid := desc[h].addr.h, desc[h].next;
      var tail := desc[mid].next;
      var ask := Ask(desc[mid].addr.b, ops[op].out, ops[op].sector);
      TakenPhases(h);
      TakenPast(h);
      k := k.(reqs := k.reqs[h := k.reqs[h].(phase := Working)], queue := k.queue[1..]);
      past := past.(got := past.got + [ask]);
      dev := Dev(Idx(dev.idx + 1), dev.work[h := Job(desc[mid].addr.b, desc[tail].addr.h)]);
    }

    lemma TakeIndex()
      requires Always()
      ensures dev.idx == avail.idx <==> k.queue == []
      ensures |avail.entries| == NUM
      ensures k.queue != [] ==> avail.entries[Slot(dev.idx)] == k.queue[0]
    {
      hide Slot, Idx, RequestsOk, PastOk, Holds;
      var n := |past.got|;
      HoldsSize(avail.entries, n, k.queue);
      WrapEqual(n, n + |k.queue|);
      Wrap(n);
      if k.queue != [] {
        PopHolds(avail.entries, n, k.queue);
      }
    }

    /** Following the chain of the next request, the device finds what was sent. */
    lemma TakeReads(h: nat)
      requires Always() && k.queue != [] && h == k.queue[0]
      ensures h in k.reqs && k.reqs[h].phase == Queued && |desc| == |ops| == NUM && h < NUM && desc[h].addr == Op(h)
      ensures desc[h].next < NUM && desc[desc[h].next].next < NUM && desc[desc[h].next].addr == Data(k.reqs[h].ask.b)
      ensures desc[desc[desc[h].next].next].addr == Status(h) &&
              ops[h] == BlkReq(k.reqs[h].ask.write, k.reqs[h].ask.sector)
      ensures RingOk(avail, |past.got| + 1, k.queue[1..], Idx(dev.idx + 1))
    {
      hide Slot, Idx, PastOk, Partition, Buffers, AtWork, Statuses, Holds, AllFormatted, InPhase;
      FirstIn(k.reqs, k.queue, Queued);
      ReadChain(desc, ops, info, k.reqs, h);
      PopHolds(avail.entries, |past.got|, k.queue);
      Wrap(|past.got|);
    }

    lemma TakenPhases(h: nat)
      requires Always() && k.queue != [] && h == k.queue[0] && h in k.reqs && k.reqs[h].phase == Queued
      ensures var k' := k.(reqs := k.reqs[h := k.reqs[h].(phase := Working)], queue := k.queue[1..]);
        && RequestsOk(k', free, desc, ops, info, busy, dev.work[h := Job(k.reqs[h].ask.b, h)], status)
        && MovedOk(Now(), Moment(k', past.(got := past.got + [k.reqs[h].ask]), status))
    {
      hide Partition, AllFormatted, Buffers, InPhase, Later, RingOk, PastOk;
      SamePartition(free, k.reserved, k.reqs, k.owner, h, Working);
      SameFormatted(desc, ops, info, k.reqs, h, Working);
      SameBuffers(k.reqs, k.holder, busy, h, Working);
      LeavePhase(k.reqs, k.queue, Queued, k.reqs[h].(phase := Working));
      OtherPhase(k.reqs, k.done, Done, h, k.reqs[h].(phase := Working));
      LaterOne(k.reqs, h, Working);
    }

    lemma TakenPast(h: nat)
      requires Always() && k.queue != [] && h == k.queue[0] && h in k.reqs
      ensures PastOk(k.(reqs := k.reqs[h := k.reqs[h].(phase := Working)], queue := k.queue[1..]),
                     past.(got := past.got + [k.reqs[h].ask]), status)
    {
      hide RequestsOk, RingOk, Waiting, Reported, Seen;
      var reqs' := k.reqs[h := k.reqs[h].(phase := Working)];
      PopWaiting(k.reqs, k.queue, past.sent, |past.got|);
      SameWaiting(k.reqs, k.queue[1..], past.sent, |past.got| + 1, reqs');
      SameReported(k.reqs, k.done, status, past.completed, |past.woken|, reqs', status);
      WaitingSize(k.reqs, k.queue, past.sent, |past.got|);
    }

    /** The device finishes a request it works on, with any status: it writes the status where the chain said, puts the
        request in the used ring, and asks for an interrupt. */
    method DeviceComplete(h: nat, st: nat)
      requires Always() && h in dev.work
      modifies this`dev, this`k, this`past, this`status, this`used, this`pending
      ensures Always() && MovedFrom(old(Now())) && |past.completed| == |old(past).completed| + 1 && pending
    {
      hide Slot, Idx, RequestsOk, RingOk, PastOk, MovedOk;
      CompleteFacts(h);
      CompletedPhases(h, st);
      CompletedPast(h, st);
      k := k.(reqs := k.reqs[h := k.reqs[h].(phase := Done)], done := k.done + [h]);
      past := past.(completed := past.completed + [Completion(dev.work[h].b, st)]);
      status := status[dev.work[h].status := st];
      used := Ring(used.entries[Slot(used.idx) := h], Idx(used.idx + 1));
      dev := dev.(work := dev.work - {h});
      pending := true;
    }

    lemma CompleteFacts(h: nat)
      requires Always() && h in dev.work
      ensures h in k.reqs && k.reqs[h].phase == Working && dev.work[h] == Job(k.reqs[h].ask.b, h)
      ensures h < |status| == NUM == |used.entries| && h !in k.reserved
      ensures RingOk(Ring(used.entries[Slot(used.idx) := h], Idx(used.idx + 1)), |past.woken|, k.done + [h], seenIdx)
    {
      hide Slot, Idx, PastOk, Partition, Buffers, Holds, AllFormatted, InPhase, AtWork, Statuses;
      WorkFacts(k.reqs, dev.work, status, h);
      PartitionFacts(free, k.reserved, k.reqs, k.owner);
      Room(free, k.reserved, k.reqs, k.owner, k.done, Done, h);
      HoldsSize(used.entries, |past.woken|, k.done);
      PushHolds(used.entries, |past.woken|, k.done, h);
      Wrap(|past.woken| + |k.done|);
    }

    lemma CompletedPhases(h: nat, st: nat)
      requires Always() && h in k.reqs && k.reqs[h].phase == Working && h < |status| && h !in k.reserved
      ensures var k' := k.(reqs := k.reqs[h := k.reqs[h].(phase := Done)], done := k.done + [h]);
        && RequestsOk(k', free, desc, ops, info, busy, dev.work - {h}, status[h := st])
        && MovedOk(Now(), Moment(k', past.(completed := past.completed + [Completion(k.reqs[h].ask.b, st)]),
                                 status[h := st]))
    {
      hide Partition, AllFormatted, Buffers, InPhase, Later, RingOk, PastOk;
      var r := k.reqs[h].(phase := Done);
      SamePartition(free, k.reserved, k.reqs, k.owner, h, Done);
      SameFormatted(desc, ops, info, k.reqs, h, Done);
      SameBuffers(k.reqs, k.holder, busy, h, Done);
      OtherPhase(k.reqs, k.queue, Queued, h, r);
      EnterPhase(k.reqs, k.done, Done, h, r);
      LaterOne(k.reqs, h, Done);
    }

    lemma CompletedPast(h: nat, st: nat)
      requires Always() && h in k.reqs && k.reqs[h].phase == Working && h < |status|
      ensures PastOk(k.(reqs := k.reqs[h := k.reqs[h].(phase := Done)], done := k.done + [h]),
                     past.(completed := past.completed + [Completion(k.reqs[h].ask.b, st)]), status[h := st])
    {
      hide RingOk, Waiting, Reported, Seen, Partition, AllFormatted, Buffers, InPhase, AtWork, Statuses;
      var reqs', status', n := k.reqs[h := k.reqs[h].(phase := Done)], status[h := st], |past.woken|;
      SameWaiting(k.reqs, k.queue, past.sent, |past.got|, reqs');
      AllIn(k.reqs, k.done, Done);
      SameReported(k.reqs, k.done, status, past.completed, n, reqs', status');
      PushReported(reqs', k.done, status', past.completed, n, h);
      SeenMore(past.completed, past.woken, Completion(k.reqs[h].ask.b, st));
    }

    /** Any number of steps of the device. */
    method Device(ghost p: Moment)
      requires Always() && MovedFrom(p)
      modifies this`dev, this`k, this`past, this`status, this`used, this`pending
      ensures Always() && MovedFrom(p) && (old(Heard()) ==> Heard())
    {
      hide Always, MovedOk;
      var steps: nat :| steps >= 0;
      while steps > 0
        invariant Always() && MovedFrom(p) && (old(Heard()) ==> Heard())
      {
        ghost var q := Now();
        MovedRefl(q);
        var take := *;
        if take {
          DeviceTake();
        } else if dev.work != map[] {
          var h :| h in dev.work;
          var st: nat :| st >= 0;
          DeviceComplete(h, st);
        }
        MovedTrans(p, q, Now());
        steps := steps - 1;
      }
    }

    // ---------------------------------------------------------------- the driver's writes

    /** The descriptors in the driver's hands can be written. */
    lemma WriteKept(i: nat, d: Desc, op: BlkReq, b: nat)
      requires Always() && i in k.reserved
      ensures i < |desc| == |ops| == |info| == NUM
      ensures RequestsOk(k, free, desc[i := d], ops, info, busy, dev.work, status)
      ensures RequestsOk(k, free, desc, ops[i := op], info, busy, dev.work, status)
      ensures RequestsOk(k, free, desc, ops, info[i := b], busy, dev.work, status)
    {
      hide Partition, AllFormatted, Buffers, InPhase, AtWork, Statuses, RingOk, PastOk;
      PartitionFacts(free, k.reserved, k.reqs, k.owner);
      FormattedFacts(desc, ops, info, k.reqs);
      OthersFormatted(free, k.reserved, k.reqs, k.owner, desc, ops, info, desc[i := d], ops, info);
      OthersFormatted(free, k.reserved, k.reqs, k.owner, desc, ops, info, desc, ops[i := op], info);
      OthersFormatted(free, k.reserved, k.reqs, k.owner, desc, ops, info, desc, ops, info[i := b]);
    }

    /** The four fields of a descriptor, one after another. */
    method WriteDesc(i: nat, d: Desc, ghost p: Moment)
      requires Always() && MovedFrom(p) && i in k.reserved
      modifies this`dev, this`k, this`past, this`status, this`used, this`pending, this`desc
      ensures Always() && MovedFrom(p) && (old(Heard()) ==> Heard()) && k.reserved == old(k).reserved
      ensures i < |old(desc)| && desc == old(desc)[i := d]
    {
      hide RequestsOk, RingOk, PastOk, MovedOk;
      WriteKept(i, d, BlkReq(false, 0), 0);
      for n := 0 to 4
        invariant Always() && MovedFrom(p) && (old(Heard()) ==> Heard()) && k.reserved == old(k).reserved
        invariant desc == old(desc)[i := Partly(old(desc)[i], d, n)]
      {
        MovedReserved(p);
        Device(p);
        MovedReserved(p);
        WriteKept(i, Partly(old(desc)[i], d, n + 1), BlkReq(false, 0), 0);
        var x := desc[i];
        desc := desc[i := if n == 0 then x.(addr := d.addr) else if n == 1 then x.(len := d.len)
                          else if n == 2 then x.(flags := d.flags) else x.(next := d.next)];
      }
    }

    lemma MovedReserved(p: Moment)
      requires MovedFrom(p)
      ensures k.reserved == p.k.reserved && k.holder == p.k.holder && past.sent == p.past.sent &&
              past.woken == p.past.woken
      ensures |status| == |p.status| && forall d :: d in p.k.reserved && d < |p.status| ==> status[d] == p.status[d]
      ensures Onward(p, Now()) && p.k.done <= k.done
    {
    }

    method WriteOp(i: nat, op: BlkReq, ghost p: Moment)
      requires Always() && MovedFrom(p) && i in k.reserved
      modifies this`dev, this`k, this`past, this`status, this`used, this`pending, this`ops
      ensures Always() && MovedFrom(p) && (old(Heard()) ==> Heard()) && k.reserved == old(k).reserved
      ensures i < |old(ops)| && ops == old(ops)[i := op]
    {
      hide RequestsOk, RingOk, PastOk, MovedOk;
      MovedReserved(p);
      Device(p);
      MovedReserved(p);
      WriteKept(i, NONE, op, 0);
      ops := ops[i := op];
    }

    /** The status byte before the device writes it. */
    method WriteStatus(i: nat, ghost p: Moment)
      requires Always() && MovedFrom(p) && i in k.reserved
      modifies this`dev, this`k, this`past, this`status, this`used, this`pending
      ensures Always() && k.reserved == old(k).reserved && (old(Heard()) ==> Heard()) && Onward(p, Now())
      ensures i < |status| && status[i] == UNSET && k.holder == p.k.holder && past.woken == p.past.woken
    {
      hide RequestsOk, RingOk, PastOk, MovedOk;
      MovedReserved(p);
      Device(p);
      MovedReserved(p);
      StatusKept(i);
      status := status[i := UNSET];
      OnwardStatus(p);
    }

    lemma OnwardStatus(p: Moment)
      ensures forall st :: Onward(p, Moment(k, past, st)) <==> Onward(p, Now())
    {
    }

    lemma StatusKept(i: nat)
      requires Always() && i in k.reserved
      ensures i < |status| && RequestsOk(k, free, desc, ops, info, busy, dev.work, status[i := UNSET])
      ensures PastOk(k, past, status[i := UNSET])
    {
      hide Partition, AllFormatted, Buffers, InPhase, AtWork, RingOk, Waiting, Reported, Seen;
      PartitionFacts(free, k.reserved, k.reqs, k.owner);
      AllIn(k.reqs, k.done, Done);
      SameReported(k.reqs, k.done, status, past.completed, |past.woken|, k.reqs, status[i := UNSET]);
    }

    // ---------------------------------------------------------------- descriptors

    /** alloc_desc: the first free descriptor. */
    method AllocDesc() returns (ok: bool, i: nat)
      requires Always() && |free| == NUM
      modifies this`free, this`k
      ensures Always()
      ensures ok ==> i < NUM && old(free)[i] && free == old(free)[i := false] && forall j :: 0 <= j < i ==>
              !old(free)[j]
      ensures ok ==> k == old(k).(reserved := old(k).reserved + {i})
      ensures !ok ==> free == old(free) && k == old(k) && FreeCount(free) == 0
    {
      hide RequestsOk, RingOk, PastOk, FreeCount;
      i := 0;
      while i < NUM
        invariant 0 <= i <= NUM && free == old(free) && forall j :: 0 <= j < i ==> !free[j]
      {
        if free[i] {
          TakeKept(i);
          free := free[i := false];
          k := k.(reserved := k.reserved + {i});
          return true, i;
        }
        i := i + 1;
      }
      CountNone(free);
      return false, 0;
    }

    lemma TakeKept(i: nat)
      requires Always() && i < |free| && free[i]
      ensures RequestsOk(k.(reserved := k.reserved + {i}), free[i := false], desc, ops, info, busy, dev.work, status)
      ensures PastOk(k.(reserved := k.reserved + {i}), past, status)
    {
      hide AllFormatted, Buffers, InPhase, AtWork, Statuses, RingOk, Waiting, Reported, Seen;
      TakePartition(free, k.reserved, k.reqs, k.owner, i);
    }

    lemma FreeKept(i: nat)
      requires Always() && i in k.reserved
      ensures i < |free| == NUM &&
              RequestsOk(k.(reserved := k.reserved - {i}), free[i := true], desc, ops, info, busy, dev.work, status)
      ensures PastOk(k.(reserved := k.reserved - {i}), past, status)
    {
      hide AllFormatted, Buffers, InPhase, AtWork, Statuses, RingOk, Waiting, Reported, Seen;
      FreePartition(free, k.reserved, k.reqs, k.owner, i);
    }

    /** free_desc of a descriptor in the driver's hands; !ok is a panic. */
    method FreeDesc(i: nat) returns (ok: bool)
      requires Always() && |free| == NUM && (i < NUM && !free[i] ==> i in k.reserved)
      modifies this`dev, this`k, this`past, this`status, this`used, this`pending, this`desc, this`free
      ensures Always() && (old(Heard()) ==> Heard()) && Onward(old(Now()), Now()) && past.woken == old(past).woken
      ensures ok <==> i < NUM && !old(free)[i]
      ensures ok ==> free == old(free)[i := true] && i < |old(desc)| && desc == old(desc)[i := NONE]
      ensures ok ==> k.reserved == old(k).reserved - {i}
      ensures !ok ==> free == old(free) && k == old(k)
    {
      hide RequestsOk, RingOk, PastOk, MovedOk;
      OnwardRefl(Now());
      if i >= NUM {
        return false;
      }
      if free[i] {
        return false;
      }
      ghost var p := Now();
      MovedRefl(p);
      WriteDesc(i, NONE, p);
      MovedReserved(p);
      FreeKept(i);
      free := free[i := true];
      k := k.(reserved := k.reserved - {i});
      return true;
    }

    /** Descriptors just marked are freed again. */
    method FreeAll(idx: seq<nat>, ghost free0: seq<bool>)
      requires Always() && |free| == NUM && Taken(free0, free, idx) && forall d :: d in k.reserved <==> d in idx
      modifies this`dev, this`k, this`past, this`status, this`used, this`pending, this`desc, this`free
      ensures Always() && (old(Heard()) ==> Heard()) && Onward(old(Now()), Now()) && free == free0 && k.reserved == {}
      ensures past.woken == old(past).woken
    {
      hide Taken, Always, Onward;
      TakenSize(free0, free, idx);
      OnwardRefl(Now());
      var j := 0;
      assert idx[0..] == idx;
      while j < |idx|
        invariant 0 <= j <= |idx| && |free| == NUM && Always() && Taken(free0, free, idx[j..])
        invariant past.woken == old(past).woken
        invariant (old(Heard()) ==> Heard()) && Onward(old(Now()), Now()) && forall d :: d in k.reserved <==>
                  d in idx[j..]
      {
        ghost var q := Now();
        GiveBack(free0, free, idx[j..]);
        assert idx[j..][1..] == idx[j + 1..];
        Without(idx[j..], free0, free);
        var freed := FreeDesc(idx[j]);
        OnwardTrans(old(Now()), q, Now());
        j := j + 1;
      }
      TakenNone(free0, free, idx[j..]);
    }

    /** alloc3_desc: three different descriptors, or, if there are not three, none. */
    method Alloc3Desc() returns (ok: bool, idx: seq<nat>)
      requires Valid() && |free| == NUM
      modifies this`dev, this`k, this`past, this`status, this`used, this`pending, this`desc, this`free
      ensures Always() && Heard() && (ok <==> FreeCount(old(free)) >= 3) && past.woken == old(past).woken
      ensures ok ==> |idx| == 3 && idx[0] < NUM && idx[1] < NUM && idx[2] < NUM
      ensures ok ==> idx[0] != idx[1] && idx[0] != idx[2] && idx[1] != idx[2]
      ensures ok ==> old(free)[idx[0]] && old(free)[idx[1]] && old(free)[idx[2]] && past == old(past) &&
                     status == old(status)
      ensures ok ==> free == old(free)[idx[0] := false][idx[1] := false][idx[2] := false] && desc == old(desc)
      ensures ok ==> k == old(k).(reserved := {idx[0], idx[1], idx[2]})
      ensures !ok ==> free == old(free) && k.reserved == {} && Onward(old(Now()), Now())
    {
      hide Taken, FreeCount, Always, Onward;
      idx := [];
      TakenStart(free);
      while |idx| < 3
        invariant |idx| <= 3 && Taken(old(free), free, idx) && |free| == NUM && Always() && Heard()
        invariant desc == old(desc) && past == old(past) && status == old(status) && pending == old(pending)
        invariant k == old(k).(reserved := k.reserved) && forall d :: d in k.reserved <==> d in idx
        invariant FreeCount(old(free)) == FreeCount(free) + |idx|
      {
        ghost var free1 := free;
        var got, i := AllocDesc();
        if !got {
          ghost var q := Now();
          OnwardReserved(old(Now()), q);
          FreeAll(idx, old(free));
          OnwardTrans(old(Now()), q, Now());
          return false, idx;
        }
        TakeMore(old(free), free1, idx, i);
        idx := idx + [i];
      }
      TakenThree(old(free), free, idx);
      assert k.reserved == {idx[0], idx[1], idx[2]};
      return true, idx;
    }

    // ---------------------------------------------------------------- virtio_disk_rw

    /** The first two descriptors of a request. */
    method FormatFront(ask: Ask, i0: nat, i1: nat, i2: nat, ghost p: Moment)
      requires Always() && MovedFrom(p) && i0 in k.reserved && i1 in k.reserved
      modifies this`dev, this`k, this`past, this`status, this`used, this`pending, this`desc, this`ops
      ensures Always() && MovedFrom(p) && (old(Heard()) ==> Heard()) && k.reserved == old(k).reserved
      ensures i0 < |old(ops)| && ops == old(ops)[i0 := BlkReq(ask.write, ask.sector)] && i0 < |old(desc)| &&
              i1 < |old(desc)|
      ensures desc == old(desc)[i0 := Desc(Op(i0), 16, F_NEXT, i1)]
                               [i1 := Desc(Data(ask.b), 1024, if ask.write then F_NEXT else F_NEXT + F_WRITE, i2)]
    {
      hide Always, MovedOk;
      WriteOp(i0, BlkReq(ask.write, ask.sector), p);
      MovedReserved(p);
      WriteDesc(i0, Desc(Op(i0), 16, F_NEXT, i1), p);
      WriteDesc(i1, Desc(Data(ask.b), 1024, if ask.write then F_NEXT else F_NEXT + F_WRITE, i2), p);
    }

    /** The chain of a request is written, and what virtio_disk_intr will need. */
    method Format(ask: Ask, i0: nat, i1: nat, i2: nat)
      requires Always() && i0 in k.reserved && i1 in k.reserved && i2 in k.reserved && i0 != i1 && i0 != i2 && i1 != i2
      requires ask.b !in k.holder
      modifies this`dev, this`k, this`past, this`status, this`used, this`pending, this`desc, this`ops, this`info,
               this`busy
      ensures Always() && (old(Heard()) ==> Heard()) && Onward(old(Now()), Now()) && past.woken == old(past).woken
      ensures k.reserved == old(k).reserved && busy == old(busy) + {ask.b}
      ensures Formatted(desc, ops, info, i0, Req(ask, i1, i2, Queued)) && i0 < |status| && status[i0] == UNSET
    {
      hide RequestsOk, RingOk, PastOk, MovedOk, Onward, Formatted;
      ghost var p := Now();
      MovedRefl(p);
      Sizes(i0, i1, i2);
      FormatFront(ask, i0, i1, i2, p);
      WriteStatus(i0, p);
      ghost var q := Now();
      MovedRefl(q);
      WriteDesc(i2, Desc(Status(i0), 1, F_WRITE, 0), q);
      MovedReserved(q);
      OnwardTrans(p, q, Now());
      InfoKept(i0, ask.b);
      busy := busy + {ask.b};
      info := info[i0 := ask.b];
      IsFormatted(desc, ops, info, ask, i0, i1, i2);
    }

    lemma Sizes(i0: nat, i1: nat, i2: nat)
      requires Always() && i0 in k.reserved && i1 in k.reserved && i2 in k.reserved
      ensures |desc| == |ops| == |info| == NUM && i0 < NUM && i1 < NUM && i2 < NUM
    {
      hide RingOk, PastOk;
      PartitionFacts(free, k.reserved, k.reqs, k.owner);
    }

    lemma InfoKept(i: nat, b: nat)
      requires Always() && i in k.reserved && b !in k.holder
      ensures i < |info| && RequestsOk(k, free, desc, ops, info[i := b], busy + {b}, dev.work, status)
    {
      hide Partition, AllFormatted, Buffers, InPhase, AtWork, Statuses, RingOk, PastOk;
      PartitionFacts(free, k.reserved, k.reqs, k.owner);
      FormattedFacts(desc, ops, info, k.reqs);
      OthersFormatted(free, k.reserved, k.reqs, k.owner, desc, ops, info, desc, ops, info[i := b]);
      BusyBuffers(k.reqs, k.holder, busy, b);
    }

    /** The chain goes into the next slot of the avail ring, which the device does not look at yet. */
    method WriteRing(h: nat, ghost p: Moment)
      requires Always() && MovedFrom(p) && h in k.reserved
      modifies this`dev, this`k, this`past, this`status, this`used, this`pending, this`avail
      ensures Always() && MovedFrom(p) && (old(Heard()) ==> Heard())
      ensures |avail.entries| == NUM && avail.entries[Slot(avail.idx)] == h
    {
      hide Slot, Idx, RequestsOk, RingOk, PastOk, MovedOk;
      MovedReserved(p);
      Device(p);
      MovedReserved(p);
      RingKept(h);
      avail := avail.(entries := avail.entries[Slot(avail.idx) := h]);
    }

    lemma RingKept(h: nat)
      requires Always() && h in k.reserved
      ensures |avail.entries| == NUM
      ensures RingOk(avail.(entries := avail.entries[Slot(avail.idx) := h]), |past.got|, k.queue, dev.idx)
    {
      hide Slot, Idx, PastOk, Buffers, AtWork, Statuses, AllFormatted, Holds, Partition, InPhase;
      var n := |past.got|;
      PartitionFacts(free, k.reserved, k.reqs, k.owner);
      Room(free, k.reserved, k.reqs, k.owner, k.queue, Queued, h);
      HoldsSize(avail.entries, n, k.queue);
      Wrap(n + |k.queue|);
      PushHolds(avail.entries, n, k.queue, h);
      LessHolds(avail.entries[Slot(avail.idx) := h], n, k.queue, h);
    }

    /** The avail index moves: from here on the device may take the request. */
    method WriteIdx(h: nat, r: Req, ghost p: Moment)
      requires Always() && MovedFrom(p) && h in k.reserved && r.mid in k.reserved && r.tail in k.reserved
      requires h != r.mid && h != r.tail && r.mid != r.tail && r.phase == Queued && r.ask.b !in k.holder &&
               r.ask.b in busy
      requires Formatted(desc, ops, info, h, r) && h < |status| && status[h] == UNSET
      requires |avail.entries| == NUM && avail.entries[Slot(avail.idx)] == h
      modifies this`dev, this`k, this`past, this`status, this`used, this`pending, this`avail
      ensures Always() && (old(Heard()) ==> Heard()) && k.reserved == old(k).reserved - {h, r.mid, r.tail}
      ensures h !in p.k.reqs && h in k.reqs && k.reqs[h] == r && Later(p.k.reqs, k.reqs - {h})
      ensures k.holder == p.k.holder[r.ask.b := h] && past.sent == p.past.sent + [r.ask] && past.woken == p.past.woken
      ensures p.past.completed <= past.completed
    {
      hide Slot, Idx, RequestsOk, RingOk, PastOk, MovedOk, Later, Formatted;
      MovedReserved(p);
      Device(p);
      MovedReserved(p);
      Published(h, r, p);
      k := Enrolled(k, h, r);
      past := past.(sent := past.sent + [r.ask]);
      avail := avail.(idx := Idx(avail.idx + 1));
    }

    lemma Published(h: nat, r: Req, p: Moment)
      requires Always() && MovedFrom(p) && h in k.reserved && r.mid in k.reserved && r.tail in k.reserved
      requires h != r.mid && h != r.tail && r.mid != r.tail && r.phase == Queued && r.ask.b !in k.holder &&
               r.ask.b in busy
      requires Formatted(desc, ops, info, h, r) && h < |status| && status[h] == UNSET
      requires |avail.entries| == NUM && avail.entries[Slot(avail.idx)] == h
      ensures RequestsOk(Enrolled(k, h, r), free, desc, ops, info, busy, dev.work, status)
      ensures PastOk(Enrolled(k, h, r), past.(sent := past.sent + [r.ask]), status)
      ensures RingOk(avail.(idx := Idx(avail.idx + 1)), |past.got|, k.queue + [h], dev.idx)
      ensures h !in p.k.reqs && Later(p.k.reqs, k.reqs[h := r] - {h}) && p.past.completed <= past.completed
    {
      hide Slot, Idx, RequestsOk, RingOk, PastOk, Later, Formatted;
      PublishedRequests(h, r);
      PublishedRing(h);
      LaterAsk(p.k.reqs, k.reqs, h);
      assert k.reqs[h := r] - {h} == k.reqs;
    }

    lemma PublishedRing(h: nat)
      requires Always() && h in k.reserved && |avail.entries| == NUM && avail.entries[Slot(avail.idx)] == h
      ensures RingOk(avail.(idx := Idx(avail.idx + 1)), |past.got|, k.queue + [h], dev.idx)
    {
      hide Slot, Idx, PastOk, Buffers, AtWork, Statuses, AllFormatted, Holds, Partition, InPhase;
      var n := |past.got|;
      PartitionFacts(free, k.reserved, k.reqs, k.owner);
      Room(free, k.reserved, k.reqs, k.owner, k.queue, Queued, h);
      HoldsSize(avail.entries, n, k.queue);
      Wrap(n + |k.queue|);
      PushHolds(avail.entries, n, k.queue, h);
      assert avail.entries[Slot(avail.idx) := h] == avail.entries;
    }

    lemma PublishedRequests(h: nat, r: Req)
      requires Always() && h in k.reserved && r.mid in k.reserved && r.tail in k.reserved
      requires h != r.mid && h != r.tail && r.mid != r.tail && r.phase == Queued && r.ask.b !in k.holder &&
               r.ask.b in busy
      requires Formatted(desc, ops, info, h, r) && h < |status| && status[h] == UNSET
      ensures h !in k.reqs && RequestsOk(Enrolled(k, h, r), free, desc, ops, info, busy, dev.work, status)
      ensures PastOk(Enrolled(k, h, r), past.(sent := past.sent + [r.ask]), status)
    {
      hide Partition, AllFormatted, Buffers, InPhase, RingOk, Waiting, Reported, Seen, Formatted;
      var reqs' := k.reqs[h := r];
      NewPartition(free, k.reserved, k.reqs, k.owner, h, r);
      AddFormatted(desc, ops, info, k.reqs, h, r);
      NewBuffers(k.reqs, k.holder, busy, h, r);
      EnterPhase(k.reqs, k.queue, Queued, h, r);
      OtherPhase(k.reqs, k.done, Done, h, r);
      SameWaiting(k.reqs, k.queue, past.sent, |past.got|, reqs');
      PushWaiting(reqs', k.queue, past.sent, |past.got|, h);
      SameReported(k.reqs, k.done, status, past.completed, |past.woken|, reqs', status);
    }

    /** The first half of virtio_disk_rw, up to the notification: three descriptors, formatted and made available to the
        device; or, if there are not three, nothing. Whatever the device does meanwhile, it is the next request sent,
        and no request in flight is touched. */
    method Submit(b: nat, blockno: nat, write: bool) returns (ok: bool, ghost h: nat)
      requires Valid() && b !in k.holder
      modifies this`dev, this`k, this`past, this`status, this`used, this`pending, this`desc, this`ops, this`info,
               this`busy,
               this`free, this`avail
      ensures Valid() && (ok <==> FreeCount(old(free)) >= 3) && past.woken == old(past).woken
      ensures !ok ==> Onward(old(Now()), Now()) && busy == old(busy) && free == old(free)
      ensures ok ==> past.sent == old(past).sent + [Ask(b, write, Sector(blockno))] &&
                     old(past).completed <= past.completed
      ensures ok ==> h !in old(k).reqs && h in k.reqs && k.reqs[h].ask == Ask(b, write, Sector(blockno))
      ensures ok ==> Later(old(k).reqs, k.reqs - {h}) && k.holder == old(k).holder[b := h] && busy == old(busy) + {b}
    {
      hide Always, MovedOk, FreeCount, Formatted, Sector, Slot, Later;
      FreeSize();
      h := 0;
      var idx;
      ok, idx := Alloc3Desc();
      if !ok {
        return;
      }
      var i0, i1, i2 := idx[0], idx[1], idx[2];
      h := i0;
      var ask := Ask(b, write, Sector(blockno));
      ghost var q := Now();
      Format(ask, i0, i1, i2);
      ghost var p := Now();
      MovedRefl(p);
      WriteRing(i0, p);
      MovedReserved(p);
      WriteIdx(i0, Req(ask, i1, i2, Queued), p);
      LaterTrans(old(k).reqs, p.k.reqs, k.reqs - {h});
      LaterAsk(old(k).reqs, p.k.reqs, h);
    }

    lemma FreeSize()
      requires Always()
      ensures |free| == NUM
    {
    }

    /** free_chain over the three descriptors of a finished request; !ok is a panic. */
    method FreeChain(h: nat, ghost r: Req) returns (ok: bool)
      requires Always() && Chained(desc, h, r) && |free| == NUM && !free[h] && !free[r.mid] && !free[r.tail]
      requires h != r.mid && h != r.tail && r.mid != r.tail && k.reserved == {h, r.mid, r.tail}
      modifies this`dev, this`k, this`past, this`status, this`used, this`pending, this`desc, this`free
      ensures ok && Always() && (old(Heard()) ==> Heard()) && Onward(old(Now()), Now()) && k.reserved == {}
      ensures past.woken == old(past).woken
      ensures free == old(free)[h := true][r.mid := true][r.tail := true]
    {
      hide Always, Onward;
      var i := h;
      ghost var n := 0;
      OnwardRefl(Now());
      while true
        invariant 0 <= n <= 2 && |free| == |desc| == NUM && i == [h, r.mid, r.tail][n]
        invariant Always() && (old(Heard()) ==> Heard()) && Onward(old(Now()), Now()) && past.woken == old(past).woken
        invariant n == 0 ==> free == old(free) && desc == old(desc) && k.reserved == {h, r.mid, r.tail}
        invariant n == 1 ==> free == old(free)[h := true] && desc == old(desc)[h := NONE] &&
                             k.reserved == {r.mid, r.tail}
        invariant n == 2 ==> free == old(free)[h := true][r.mid := true] && desc == old(desc)[h := NONE][r.mid := NONE]
        invariant n == 2 ==> k.reserved == {r.tail}
        decreases 2 - n
      {
        var flag, nxt := desc[i].flags, desc[i].next;
        ghost var q := Now();
        ok := FreeDesc(i);
        OnwardTrans(old(Now()), q, Now());
        if !ok {
          return;
        }
        if flag % 2 == 1 {
          i := nxt;
          n := n + 1;
        } else {
          break;
        }
      }
    }

    /** The end of virtio_disk_rw, once the buffer is let go: the chain is freed, and no panic happens. */
    method Finish(h: nat)
      requires Valid() && h in k.reqs && k.reqs[h].ask.b !in busy
      modifies this`dev, this`k, this`past, this`status, this`used, this`pending, this`desc, this`info, this`free
      ensures Valid() && Later(old(k).reqs - {h}, k.reqs) && k.holder == old(k).holder - {old(k).reqs[h].ask.b}
      ensures past.sent == old(past).sent && past.woken == old(past).woken && old(past).completed <= past.completed
      ensures var r := old(k).reqs[h]; r.phase == Woken && h < NUM && r.mid < NUM && r.tail < NUM && |old(free)| == NUM
      ensures var r := old(k).reqs[h]; free == old(free)[h := true][r.mid := true][r.tail := true]
    {
      hide RequestsOk, RingOk, PastOk, Later, Chained;
      ghost var r := k.reqs[h];
      Retired(h);
      k := Dropped(k, h);
      WriteKept(h, NONE, BlkReq(false, 0), 0);
      info := info[h := 0];
      var ok := FreeChain(h, r);
    }

    /** A request whose buffer was let go no longer counts, and its descriptors are in the driver's hands. */
    lemma Retired(h: nat)
      requires Always() && k.reserved == {} && h in k.reqs && k.reqs[h].ask.b !in busy
      ensures RequestsOk(Dropped(k, h), free, desc, ops, info, busy, dev.work, status) &&
              PastOk(Dropped(k, h), past, status)
      ensures Chained(desc, h, k.reqs[h]) && k.reqs[h].phase == Woken && |free| == NUM && h < |desc| == NUM
      ensures var r := k.reqs[h]; h < NUM && r.mid < NUM && r.tail < NUM && h != r.mid && h != r.tail && r.mid != r.tail
      ensures var r := k.reqs[h]; !free[h] && !free[r.mid] && !free[r.tail]
    {
      hide Partition, AllFormatted, Buffers, InPhase, RingOk, Waiting, Reported, Seen;
      PartitionFacts(free, k.reserved, k.reqs, k.owner);
      ReadChain(desc, ops, info, k.reqs, h);
      LetGo(k.reqs, k.holder, busy, h);
      GonePartition(free, k.reserved, k.reqs, k.owner, h);
      LessFormatted(desc, ops, info, k.reqs, h);
      GoneBuffers(k.reqs, k.holder, busy, h);
      GonePhase(k.reqs, k.queue, Queued, h);
      GonePhase(k.reqs, k.done, Done, h);
      AllIn(k.reqs, k.queue, Queued);
      AllIn(k.reqs, k.done, Done);
      SameWaiting(k.reqs, k.queue, past.sent, |past.got|, k.reqs - {h});
      SameReported(k.reqs, k.done, status, past.completed, |past.woken|, k.reqs - {h}, status);
    }

    // ---------------------------------------------------------------- virtio_disk_intr

    /** One turn of virtio_disk_intr's loop; !ok is the panic over the status. */
    method SeeOne() returns (ok: bool)
      requires Always() && k.done != []
      modifies this`dev, this`k, this`past, this`status, this`used, this`pending, this`busy, this`seenIdx
      ensures Always() && Onward(old(Now()), Now()) && k.reserved == old(k).reserved &&
              |old(past).woken| < |past.completed|
      ensures ok <==> past.completed[|old(past).woken|].status == 0
      ensures !ok ==> past.woken == old(past).woken && busy == old(busy)
      ensures ok ==> past.woken == old(past).woken + [past.completed[|old(past).woken|].b]
      ensures ok ==> busy == old(busy) - {past.completed[|old(past).woken|].b} &&
                     past.completed[|old(past).woken|].b in old(busy)
    {
      hide Slot, Idx, RequestsOk, RingOk, PastOk, MovedOk, Onward;
      ghost var p := Now();
      MovedRefl(p);
      Device(p);
      MovedReserved(p);
      SeeFacts();
      var id := used.entries[Slot(seenIdx)];
      Device(p);
      MovedReserved(p);
      SeeFacts();
      if status[id] != 0 {
        return false;
      }
      var b := info[id];
      SeenPhases(id);
      SeenPast(id);
      ghost var q := Now();
      busy := busy - {b};
      seenIdx := Idx(seenIdx + 1);
      k := Woke(k, id);
      past := past.(woken := past.woken + [b]);
      OnwardTrans(p, q, Now());
      return true;
    }

    lemma SeeFacts()
      requires Always() && k.done != []
      ensures |used.entries| == NUM && used.entries[Slot(seenIdx)] == k.done[0] && k.done[0] in k.reqs
      ensures k.reqs[k.done[0]].phase == Done && k.done[0] < |status| == |info| &&
              info[k.done[0]] == k.reqs[k.done[0]].ask.b
      ensures |past.woken| < |past.completed|
      ensures past.completed[|past.woken|] == Completion(k.reqs[k.done[0]].ask.b, status[k.done[0]])
    {
      hide Slot, Idx, Holds, Partition, AllFormatted, Buffers, InPhase, AtWork, Waiting, Reported, Seen;
      HoldsSize(used.entries, |past.woken|, k.done);
      Wrap(|past.woken|);
      PopHolds(used.entries, |past.woken|, k.done);
      FirstIn(k.reqs, k.done, Done);
      ReadChain(desc, ops, info, k.reqs, k.done[0]);
      PopReported(k.reqs, k.done, status, past.completed, |past.woken|);
      ReportedSize(k.reqs, k.done, status, past.completed, |past.woken|);
    }

    lemma SeenPhases(id: nat)
      requires Always() && k.done != [] && id == k.done[0] && id in k.reqs && k.reqs[id].phase == Done
      ensures RequestsOk(Woke(k, id), free, desc, ops, info, busy - {k.reqs[id].ask.b}, dev.work, status)
      ensures k.reqs[id].ask.b in busy
      ensures forall w :: past.woken <= w ==> Onward(Now(), Moment(Woke(k, id), past.(woken := w), status))
      ensures RingOk(used, |past.woken| + 1, k.done[1..], Idx(seenIdx + 1))
    {
      hide Slot, Idx, Holds, Partition, AllFormatted, Buffers, InPhase, Waiting, Reported, Seen, Later, PastOk;
      SamePartition(free, k.reserved, k.reqs, k.owner, id, Woken);
      SameFormatted(desc, ops, info, k.reqs, id, Woken);
      WokenBuffers(k.reqs, k.holder, busy, id);
      LeavePhase(k.reqs, k.done, Done, k.reqs[id].(phase := Woken));
      OtherPhase(k.reqs, k.queue, Queued, id, k.reqs[id].(phase := Woken));
      LaterOne(k.reqs, id, Woken);
      PopHolds(used.entries, |past.woken|, k.done);
      Wrap(|past.woken|);
    }

    lemma SeenPast(id: nat)
      requires Always() && k.done != [] && id == k.done[0] && id in k.reqs && id < |status| && status[id] == 0
      ensures PastOk(Woke(k, id), past.(woken := past.woken + [k.reqs[id].ask.b]), status)
    {
      hide RequestsOk, RingOk, Waiting, Reported, Seen;
      var reqs', n := k.reqs[id := k.reqs[id].(phase := Woken)], |past.woken|;
      SameWaiting(k.reqs, k.queue, past.sent, |past.got|, reqs');
      ReportedSize(k.reqs, k.done, status, past.completed, n);
      PopReported(k.reqs, k.done, status, past.completed, n);
      SameReported(k.reqs, k.done[1..], status, past.completed, n + 1, reqs', status);
      SeenNext(past.completed, past.woken, k.reqs[id].ask.b);
    }

    /** virtio_disk_intr: every completion the device had reported, and every one it reports before the last look at the
        used index, is seen, once and in order, and its buffer let go; one that comes later has a new interrupt. It
        panics exactly on a completion that failed. */
    method Intr() returns (ok: bool)
      requires Valid()
      modifies this`dev, this`k, this`past, this`status, this`used, this`pending, this`busy, this`seenIdx
      ensures Always() && Onward(old(Now()), Now()) && k.reserved == {}
      ensures ok ==> Valid() && k.done == [] && |old(past).completed| <= |past.woken| == |past.completed|
      ensures !ok ==> |past.woken| < |past.completed| && past.completed[|past.woken|].status != 0
      ensures forall b :: b in busy <==> b in old(busy) && b !in past.woken[|old(past).woken|..]
    {
      hide Slot, Idx, RequestsOk, RingOk, PastOk, MovedOk, Onward;
      MovedRefl(Now());
      Device(old(Now()));
      MovedReserved(old(Now()));
      pending := false;   // the acknowledgement
      while true
        invariant Always() && Onward(old(Now()), Now()) && k.reserved == {} && |old(past).woken| <= |past.woken|
        invariant forall b :: b in busy <==> b in old(busy) && b !in past.woken[|old(past).woken|..]
        decreases |busy|
      {
        ghost var q, w := Now(), past.woken;
        MovedRefl(q);
        Device(q);
        MovedReserved(q);
        OnwardTrans(old(Now()), q, Now());
        SeenAll(old(Now()));
        if seenIdx == used.idx {
          return true;
        }
        q := Now();
        ok := SeeOne();
        OnwardTrans(old(Now()), q, Now());
        if !ok {
          return;
        }
        assert past.woken[|old(past).woken|..] == w[|old(past).woken|..] + [past.woken[|w|]];
      }
    }

    lemma SeenAll(p: Moment)
      requires Always() && Onward(p, Now())
      ensures seenIdx == used.idx <==> k.done == []
      ensures k.done == [] ==> |past.woken| == |past.completed|
      ensures |p.past.completed| <= |past.completed| && |p.past.woken| <= |past.woken|
    {
      hide Slot, Idx, RequestsOk, Holds, Waiting, Reported, Seen;
      HoldsSize(used.entries, |past.woken|, k.done);
      WrapEqual(|past.woken|, |past.woken| + |k.done|);
      ReportedSize(k.reqs, k.done, status, past.completed, |past.woken|);
    }
  }
}
