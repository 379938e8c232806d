/** The buffer cache: a fixed array of buffers on one doubly linked LRU ring, over a disk. */
module BufferCache {
  import opened Blocks
  import opened Sets

  /** One struct buf. Its ring links live in the cache, indexed like the buffers. */
  datatype Buf = Buf(valid: bool, dev: nat, blockno: nat, locked: bool, refcnt: nat, data: Block)

  // ---------------------------------------------------------------- the ring

  ghost predicate Distinct(s: seq<nat>, n: nat) {
    && (forall i :: 0 <= i < |s| ==> s[i] < n)
    && (forall i, j :: 0 <= i < j < |s| ==> s[i] != s[j])
  }

  /** order is a permutation of the buffer indices 0, ..., n - 1. */
  ghost predicate Permutation(order: seq<nat>, n: nat) {
    |order| == n && Distinct(order, n) && forall b :: 0 <= b < n ==> b in order
  }

  /** Position i of the ring, most recent first; the sentinel n closes it at both ends. */
  ghost function Node(order: seq<nat>, n: nat, i: int): nat {
    if 0 <= i < |order| then order[i] else n
  }

  ghost predicate Forward(next: seq<nat>, order: seq<nat>, n: nat)
    requires Distinct(order, n)
  {
    && |next| == n + 1
    && next[n] == Node(order, n, 0)
    && forall i {:trigger next[order[i]]} :: 0 <= i < |order| ==> next[order[i]] == Node(order, n, i + 1)
  }

  ghost predicate Backward(prev: seq<nat>, order: seq<nat>, n: nat)
    requires Distinct(order, n)
  {
    && |prev| == n + 1
    && prev[n] == Node(order, n, |order| - 1)
    && forall i {:trigger prev[order[i]]} :: 0 <= i < |order| ==> prev[order[i]] == Node(order, n, i - 1)
  }

  /** next and prev link order and the sentinel n into one circle, in that order. */
  ghost predicate IsRing(next: seq<nat>, prev: seq<nat>, order: seq<nat>, n: nat) {
    Distinct(order, n) && Forward(next, order, n) && Backward(prev, order, n)
  }

  ghost function Without(s: seq<nat>, k: nat): seq<nat>
    requires k < |s|
  {
    s[..k] + s[k + 1..]
  }

  /** The list after the buffer at position k is released for the last time. */
  ghost function ToFront(s: seq<nat>, k: nat): seq<nat>
    requires k < |s|
  {
    [s[k]] + Without(s, k)
  }

  lemma ToFrontPermutes(s: seq<nat>, k: nat, n: nat)
    requires Permutation(s, n) && k < n
    ensures Permutation(ToFront(s, k), n)
  {
    var t := ToFront(s, k);
    assert forall i :: 0 < i <= k ==> t[i] == s[i - 1];
    assert forall i :: k < i < n ==> t[i] == s[i];
    forall b | 0 <= b < n ensures b in t {
      assert b in s;
      var i :| 0 <= i < |s| && s[i] == b;
      if i == k { assert t[0] == b; } else if i < k { assert t[i + 1] == b; } else { assert t[i] == b; }
    }
  }

  /** The four assignments that put b between the sentinel and the most recent buffer. */
  method LinkFront(next: seq<nat>, prev: seq<nat>, b: nat, ghost order: seq<nat>, n: nat)
    returns (next': seq<nat>, prev': seq<nat>)
    requires IsRing(next, prev, order, n) && b < n && b !in order
    ensures IsRing(next', prev', [b] + order, n)
  {
    next' := next[b := next[n]];
    prev' := prev[b := n];
    prev' := prev'[next'[n] := b];
    next' := next'[n := b];
    ghost var t := [b] + order;
    assert forall i :: 1 <= i < |t| ==> t[i] == order[i - 1];
  }

  lemma WithoutDistinct(s: seq<nat>, k: nat, n: nat)
    requires k < |s| && Distinct(s, n)
    ensures Distinct(Without(s, k), n) && s[k] !in Without(s, k)
  {
    forall i | 0 <= i < |s| - 1 ensures Without(s, k)[i] == s[if i < k then i else i + 1] {}
  }

  lemma WithoutAt(s: seq<nat>, k: nat, i: nat)
    requires k < |s| && i < |s| - 1
    ensures |Without(s, k)| == |s| - 1 && Without(s, k)[i] == if i < k then s[i] else s[i + 1]
  {
  }

  lemma WithoutNode(s: seq<nat>, k: nat, n: nat, i: int)
    requires k < |s|
    ensures Node(Without(s, k), n, i) == if i < k then Node(s, n, i) else Node(s, n, i + 1)
  {
    if 0 <= i < |s| - 1 {
      WithoutAt(s, k, i);
    }
  }

  lemma UnlinkForward(next: seq<nat>, order: seq<nat>, k: nat, n: nat)
    requires Distinct(order, n) && Forward(next, order, n) && k < |order|
    requires Distinct(Without(order, k), n)
    ensures Forward(next[Node(order, n, k - 1) := Node(order, n, k + 1)], Without(order, k), n)
  {
    hide Without;
    var t, next' := Without(order, k), next[Node(order, n, k - 1) := Node(order, n, k + 1)];
    WithoutNode(order, k, n, 0);
    WithoutSize(order, k);
    forall i {:trigger next'[t[i]]} | 0 <= i < |t| ensures next'[t[i]] == Node(t, n, i + 1) {
      WithoutAt(order, k, i);
      WithoutNode(order, k, n, i + 1);
      var j := if i < k then i else i + 1;
      assert next[order[j]] == Node(order, n, j + 1);
      assert k > 0 && j != k - 1 ==> order[j] != order[k - 1];
    }
  }

  lemma WithoutSize(s: seq<nat>, k: nat)
    requires k < |s|
    ensures |Without(s, k)| == |s| - 1
  {
  }

  lemma UnlinkBackward(prev: seq<nat>, order: seq<nat>, k: nat, n: nat)
    requires Distinct(order, n) && Backward(prev, order, n) && k < |order|
    requires Distinct(Without(order, k), n)
    ensures Backward(prev[Node(order, n, k + 1) := Node(order, n, k - 1)], Without(order, k), n)
  {
    hide Without;
    var t, prev' := Without(order, k), prev[Node(order, n, k + 1) := Node(order, n, k - 1)];
    WithoutSize(order, k);
    WithoutNode(order, k, n, |t| - 1);
    forall i {:trigger prev'[t[i]]} | 0 <= i < |t| ensures prev'[t[i]] == Node(t, n, i - 1) {
      WithoutAt(order, k, i);
      WithoutNode(order, k, n, i - 1);
      var j := if i < k then i else i + 1;
      assert prev[order[j]] == Node(order, n, j - 1);
      assert k + 1 < |order| && j != k + 1 ==> order[j] != order[k + 1];
    }
  }

  /** Take b, at position k, out of the ring. */
  method Unlink(next: seq<nat>, prev: seq<nat>, b: nat, ghost order: seq<nat>, ghost k: nat, ghost n: nat)
    returns (next': seq<nat>, prev': seq<nat>)
    requires IsRing(next, prev, order, n) && k < |order| && order[k] == b
    ensures IsRing(next', prev', Without(order, k), n)
  {
    assert next[order[k]] == Node(order, n, k + 1) && prev[order[k]] == Node(order, n, k - 1);
    prev' := prev[next[b] := prev[b]];
    next' := next[prev[b] := next[b]];
    WithoutDistinct(order, k, n);
    UnlinkForward(next, order, k, n);
    UnlinkBackward(prev, order, k, n);
  }

  ghost function Descending(n: nat): (r: seq<nat>)
    ensures |r| == n && forall i :: 0 <= i < n ==> r[i] == n - 1 - i
  {
    seq(n, i requires 0 <= i < n => n - 1 - i)
  }

  /** The loop of binit: link every buffer, each new one in front. */
  method LinkAll(n: nat) returns (next: seq<nat>, prev: seq<nat>)
    ensures IsRing(next, prev, Descending(n), n)
  {
    next, prev := seq(n + 1, _ => n), seq(n + 1, _ => n);
    for i := 0 to n
      invariant IsRing(next, prev, Descending(i), n)
    {
      next, prev := LinkFront(next, prev, i, Descending(i), n);
      assert [i] + Descending(i) == Descending(i + 1);
    }
  }

  lemma DescendingPermutes(n: nat)
    ensures Permutation(Descending(n), n)
  {
    forall b | 0 <= b < n ensures b in Descending(n) {
      assert Descending(n)[n - 1 - b] == b;
    }
  }

  // ------------------------------------------------------------ the contents

  /** What clients may rely on: the contents bread returns, the references to each block, the locked blocks,
      and which buffer each cached block is in. */
  datatype Abs = Abs(view: Disk, refs: map<nat, nat>, held: set<nat>, at: map<nat, nat>)

  predicate Holds(b: Buf, dev: nat, k: nat) {
    b.dev == dev && b.blockno == k
  }

  /** A cached block's buffer says what the abstract cache says of it. */
  ghost predicate Agrees(b: Buf, k: nat, disk: Disk, a: Abs)
    requires k in disk && k in a.view && k in a.refs
  {
    && a.refs[k] == b.refcnt
    && (b.locked <==> k in a.held)
    && a.view[k] == (if b.valid then b.data else disk[k])
    && (b.refcnt == 0 ==> !b.locked && a.view[k] == disk[k])
  }

  /** Every buffer of the device is where the abstract cache says; other buffers were never used. */
  ghost predicate Placed(bufs: seq<Buf>, dev: nat, a: Abs) {
    && (forall k :: k in a.at ==> a.at[k] < |bufs| && Holds(bufs[a.at[k]], dev, k))
    && (forall i :: 0 <= i < |bufs| && bufs[i].dev == dev ==> bufs[i].blockno in a.at && a.at[bufs[i].blockno] == i)
    && (forall i :: 0 <= i < |bufs| && bufs[i].dev != dev ==>
        bufs[i].dev == 0 && bufs[i].refcnt == 0 && !bufs[i].locked)
  }

  /** The buffers and the disk implement the abstract cache, and a block nobody references is clean. */
  ghost predicate Coherent(bufs: seq<Buf>, dev: nat, disk: Disk, a: Abs) {
    && dev >= 1 && Domains(disk, a) && Placed(bufs, dev, a)
    && (forall k :: k in a.at ==> Agrees(bufs[a.at[k]], k, disk, a))
    && (forall k :: k in disk && k !in a.at ==> a.refs[k] == 0 && a.view[k] == disk[k])
  }

  ghost predicate Domains(disk: Disk, a: Abs) {
    a.view.Keys == disk.Keys && a.refs.Keys == disk.Keys && a.at.Keys <= disk.Keys && a.held <= a.at.Keys
  }

  /** No two buffers carry the same block of a real device. */
  lemma OneBufferPerBlock(bufs: seq<Buf>, dev: nat, disk: Disk, a: Abs, i: nat, j: nat)
    requires Coherent(bufs, dev, disk, a) && i < |bufs| && j < |bufs|
    requires bufs[i].dev >= 1 && bufs[i].dev == bufs[j].dev && bufs[i].blockno == bufs[j].blockno
    ensures i == j
  {
  }

  /** The abstract cache after block k's buffer became b and its disk block d. */
  ghost function Retold(a: Abs, k: nat, b: Buf, d: Block): Abs {
    a.(view := a.view[k := if b.valid then b.data else d], refs := a.refs[k := b.refcnt],
       held := if b.locked then a.held + {k} else a.held - {k})
  }

  lemma DomainsAt(disk: Disk, a: Abs, k: nat)
    requires Domains(disk, a) && k in disk
    ensures k in a.view && k in a.refs
  {
  }

  /** What coherence says of a buffer of the device. */
  lemma AtBuffer(bufs: seq<Buf>, dev: nat, disk: Disk, a: Abs, i: nat)
    requires Coherent(bufs, dev, disk, a) && i < |bufs| && bufs[i].dev == dev
    ensures var k := bufs[i].blockno;
            && k in disk && k in a.view && k in a.refs && k in a.at && a.at[k] == i && Agrees(bufs[i], k, disk, a)
  {
  }

  lemma PlacedSame(bufs: seq<Buf>, dev: nat, a: Abs, i: nat, b: Buf)
    requires Placed(bufs, dev, a) && i < |bufs| && bufs[i].dev == dev && Holds(b, dev, bufs[i].blockno)
    ensures Placed(bufs[i := b], dev, a)
  {
  }

  lemma ChangeAt(bufs: seq<Buf>, dev: nat, disk: Disk, a: Abs, i: nat, b: Buf, d: Block, m: nat)
    requires Coherent(bufs, dev, disk, a) && i < |bufs| && bufs[i].dev == dev && m in a.at
    requires Holds(b, dev, bufs[i].blockno) && (b.refcnt == 0 ==> !b.locked && (b.valid ==> b.data == d))
    ensures var a' := Retold(a, b.blockno, b, d);
            && m in disk && m in a'.view && m in a'.refs && a.at[m] < |bufs|
            && Agrees(bufs[i := b][a.at[m]], m, disk[b.blockno := d], a')
  {
    assert Agrees(bufs[a.at[m]], m, disk, a);
    assert a.at[m] == i <==> m == b.blockno;
  }

  /** Changing one referenced buffer, and possibly its block on disk, is seen as exactly that block changing. */
  lemma ChangeOne(bufs: seq<Buf>, dev: nat, disk: Disk, a: Abs, i: nat, b: Buf, d: Block)
    requires Coherent(bufs, dev, disk, a) && i < |bufs| && bufs[i].dev == dev
    requires Holds(b, dev, bufs[i].blockno)
    requires b.refcnt == 0 ==> !b.locked && (b.valid ==> b.data == d)
    ensures Coherent(bufs[i := b], dev, disk[b.blockno := d], Retold(a, b.blockno, b, d))
  {
    hide Agrees;
    var k, bufs', disk' := b.blockno, bufs[i := b], disk[b.blockno := d];
    var a' := Retold(a, k, b, d);
    PlacedSame(bufs, dev, a, i, b);
    assert Domains(disk', a');
    forall m | m in a'.at ensures Agrees(bufs'[a'.at[m]], m, disk', a') {
      ChangeAt(bufs, dev, disk, a, i, b, d, m);
    }
  }

  /** The abstract cache with one more reference to block k, locked, in buffer i. */
  ghost function Taken(a: Abs, k: nat, i: nat): Abs
    requires k in a.refs
  {
    Abs(a.view, a.refs[k := a.refs[k] + 1], a.held + {k}, a.at[k := i])
  }

  /** bget's hit: one more reference. */
  lemma ShareOne(bufs: seq<Buf>, dev: nat, disk: Disk, a: Abs, i: nat)
    requires Coherent(bufs, dev, disk, a) && i < |bufs| && bufs[i].dev == dev
    ensures Coherent(bufs[i := bufs[i].(refcnt := bufs[i].refcnt + 1, locked := true)], dev, disk,
                     Taken(a, bufs[i].blockno, i))
  {
    hide Coherent;
    AtBuffer(bufs, dev, disk, a, i);
    var k, b := bufs[i].blockno, bufs[i].(refcnt := bufs[i].refcnt + 1, locked := true);
    ChangeOne(bufs, dev, disk, a, i, b, disk[k]);
    assert disk[k := disk[k]] == disk;
    assert a.view[k := a.view[k]] == a.view;
    assert a.at[k := i] == a.at;
  }

  lemma PlacedMoved(bufs: seq<Buf>, dev: nat, a: Abs, i: nat, b: Buf)
    requires Placed(bufs, dev, a) && i < |bufs| && b.dev == dev >= 1 && b.blockno !in a.at && b.blockno in a.refs
    ensures Placed(bufs[i := b], dev, Taken(Evicted(a, bufs[i], dev), b.blockno, i))
  {
  }

  /** bget's miss: giving an unreferenced buffer to a block that is not cached changes no block's contents. */
  lemma RecycleOne(bufs: seq<Buf>, dev: nat, disk: Disk, a: Abs, i: nat, k: nat)
    requires Coherent(bufs, dev, disk, a) && i < |bufs| && bufs[i].refcnt == 0
    requires k in disk && k !in a.at
    ensures Coherent(bufs[i := bufs[i].(dev := dev, blockno := k, valid := false, refcnt := 1, locked := true)], dev,
                     disk,
                     Taken(Evicted(a, bufs[i], dev), k, i))
  {
    var b := bufs[i].(dev := dev, blockno := k, valid := false, refcnt := 1, locked := true);
    var bufs', a' := bufs[i := b], Taken(Evicted(a, bufs[i], dev), k, i);
    PlacedMoved(bufs, dev, a, i, b);
    forall m | m in a'.at ensures Agrees(bufs'[a'.at[m]], m, disk, a') {
      if m != k {
        assert Agrees(bufs[a.at[m]], m, disk, a);
      }
    }
  }

  /** The block that was in buffer b, if any, is no longer cached. */
  ghost function Evicted(a: Abs, b: Buf, dev: nat): Abs {
    if b.dev == dev then a.(at := a.at - {b.blockno}) else a
  }

  /** Blocks whose buffer cannot be recycled. */
  ghost function InUse(refs: map<nat, nat>): set<nat> {
    set k | k in refs && refs[k] > 0
  }

  lemma BlocknosDistinct(bufs: seq<Buf>, dev: nat, disk: Disk, a: Abs, m: nat) returns (ks: set<nat>)
    requires Coherent(bufs, dev, disk, a) && m <= |bufs|
    requires forall i :: 0 <= i < |bufs| ==> bufs[i].refcnt > 0
    ensures |ks| == m && ks <= InUse(a.refs) && ks <= a.at.Keys
    ensures forall k :: k in ks ==> a.at[k] < m
  {
    if m == 0 {
      ks := {};
    } else {
      var rest := BlocknosDistinct(bufs, dev, disk, a, m - 1);
      var k := bufs[m - 1].blockno;
      assert Agrees(bufs[a.at[k]], k, disk, a);
      ks := rest + {k};
    }
  }

  /** "bget: no buffers" needs as many blocks in use as there are buffers. */
  lemma SomeFree(bufs: seq<Buf>, dev: nat, disk: Disk, a: Abs, k: nat)
    requires Coherent(bufs, dev, disk, a) && k in disk && k !in a.at
    requires |InUse(a.refs)| < |bufs|
    ensures exists i :: 0 <= i < |bufs| && bufs[i].refcnt == 0
  {
    if forall i :: 0 <= i < |bufs| ==> bufs[i].refcnt > 0 {
      var ks := BlocknosDistinct(bufs, dev, disk, a, |bufs|);
      SubsetSize(ks, InUse(a.refs));
    }
  }

  /** The blocks in use that are in the first m buffers. */
  ghost function InFirst(a: Abs, m: nat): set<nat> {
    set k | k in InUse(a.refs) && k in a.at && a.at[k] < m
  }

  lemma {:induction false} InFirstCount(bufs: seq<Buf>, dev: nat, disk: Disk, a: Abs, m: nat)
    requires Coherent(bufs, dev, disk, a) && m <= |bufs|
    ensures |InFirst(a, m)| <= m
    ensures forall i :: 0 <= i < m && bufs[i].refcnt == 0 ==> |InFirst(a, m)| < m
  {
    hide Coherent;
    if m == 0 {
      assert InFirst(a, 0) == {};
    } else {
      InFirstCount(bufs, dev, disk, a, m - 1);
      InFirstNext(bufs, dev, disk, a, m);
      SubsetSize(InFirst(a, m), InFirst(a, m - 1) + if bufs[m - 1].refcnt > 0 then {bufs[m - 1].blockno} else {});
    }
  }

  lemma InFirstNext(bufs: seq<Buf>, dev: nat, disk: Disk, a: Abs, m: nat)
    requires Coherent(bufs, dev, disk, a) && 0 < m <= |bufs|
    ensures InFirst(a, m) <= InFirst(a, m - 1) + if bufs[m - 1].refcnt > 0 then {bufs[m - 1].blockno} else {}
  {
    forall k | k in InFirst(a, m) && k !in InFirst(a, m - 1)
      ensures bufs[m - 1].refcnt > 0 && k == bufs[m - 1].blockno
    {
      assert Agrees(bufs[a.at[k]], k, disk, a);
    }
  }

  /** For a block that is not in use, "bget: no buffers" is reached exactly when the blocks in use are as many as the
      buffers. */
  lemma NoBuffers(bufs: seq<Buf>, dev: nat, disk: Disk, a: Abs, k: nat)
    requires Coherent(bufs, dev, disk, a) && k in disk && k in a.refs && a.refs[k] == 0
    ensures k !in a.at && (forall i :: 0 <= i < |bufs| ==> bufs[i].refcnt > 0) <==> |InUse(a.refs)| >= |bufs|
  {
    if |InUse(a.refs)| < |bufs| {
      if k !in a.at {
        SomeFree(bufs, dev, disk, a, k);
      }
    } else {
      assert InUse(a.refs) <= a.at.Keys;
      assert InUse(a.refs) == InFirst(a, |bufs|);
      InFirstCount(bufs, dev, disk, a, |bufs|);
    }
  }

  lemma InUseBump(refs: map<nat, nat>, k: nat)
    requires k in refs
    ensures |InUse(refs[k := refs[k] + 1])| <= |InUse(refs)| + 1
  {
    assert InUse(refs[k := refs[k] + 1]) == InUse(refs) + {k};
  }

  // --------------------------------------------------------------- the cache

  /** b is unreferenced and every buffer released less recently is referenced. */
  ghost predicate LeastRecent(bufs: seq<Buf>, lru: seq<nat>, b: nat)
    requires Permutation(lru, |bufs|)
  {
    exists i :: 0 <= i < |lru| && lru[i] == b && bufs[b].refcnt == 0 && forall j :: i < j < |lru| ==>
      bufs[lru[j]].refcnt > 0
  }

  class Cache {
    const dev: nat                // the one disk device
    const nbuf: nat
    var next: seq<nat>            // ring links; index nbuf is the sentinel
    var prev: seq<nat>
    var bufs: seq<Buf>
    var disk: Disk
    ghost var lru: seq<nat>       // the ring, most recently released first
    ghost var a: Abs
    ghost var trace: seq<Disk>    // the disk after each write since boot

    ghost predicate Valid()
      reads this
    {
      && |bufs| == nbuf && Permutation(lru, nbuf) && IsRing(next, prev, lru, nbuf)
      && Coherent(bufs, dev, disk, a)
      && Domains(disk, a)
    }

    /** The caller holds buffer b, filled with the contents of block k. */
    ghost predicate Holding(b: nat, k: nat)
      reads this
    {
      b < |bufs| && Holds(bufs[b], dev, k) && bufs[b].locked && bufs[b].valid
    }

    /** binit. */
    constructor (dev: nat, nbuf: nat, disk: Disk)
      requires dev >= 1
      ensures Valid() && this.dev == dev && this.nbuf == nbuf && this.disk == disk && trace == []
      ensures a.view == disk && a.held == {} && InUse(a.refs) == {} && lru == Descending(nbuf)
    {
      this.dev, this.nbuf, this.disk := dev, nbuf, disk;
      bufs := seq(nbuf, _ => Buf(false, 0, 0, false, 0, ZeroBlock()));
      a, trace := Abs(disk, map k | k in disk :: 0, {}, map[]), [];
      var n, p := LinkAll(nbuf);
      next, prev, lru := n, p, Descending(nbuf);
      DescendingPermutes(nbuf);
    }

    /** bget's first loop: walk the ring from the front looking for block k. */
    method Lookup(k: nat) returns (found: bool, b: nat)
      requires Valid()
      ensures found <==> k in a.at
      ensures found ==> b == a.at[k] && b < nbuf && Holds(bufs[b], dev, k)
    {
      b := next[nbuf];
      ghost var i := 0;
      while b != nbuf
        invariant 0 <= i <= nbuf && b == Node(lru, nbuf, i)
        invariant forall j :: 0 <= j < i ==> !Holds(bufs[lru[j]], dev, k)
        decreases nbuf - i
      {
        if bufs[b].dev == dev && bufs[b].blockno == k {
          return true, b;
        }
        assert next[lru[i]] == Node(lru, nbuf, i + 1);
        b := next[b];
        i := i + 1;
      }
      forall c | 0 <= c < nbuf ensures !Holds(bufs[c], dev, k) {
        assert c in lru;
      }
      return false, nbuf;
    }

    /** bget's second loop: walk the ring from the back looking for an unreferenced buffer. */
    method Victim() returns (found: bool, b: nat)
      requires Valid()
      ensures found ==> b < nbuf && bufs[b].refcnt == 0 && LeastRecent(bufs, lru, b)
      ensures !found ==> forall c :: 0 <= c < nbuf ==> bufs[c].refcnt > 0
    {
      b := prev[nbuf];
      ghost var i := nbuf - 1;
      while b != nbuf
        invariant -1 <= i < nbuf && b == Node(lru, nbuf, i)
        invariant forall j :: i < j < nbuf ==> bufs[lru[j]].refcnt > 0
        decreases i
      {
        if bufs[b].refcnt == 0 {
          return true, b;
        }
        assert prev[lru[i]] == Node(lru, nbuf, i - 1);
        b := prev[b];
        i := i - 1;
      }
      forall c | 0 <= c < nbuf ensures bufs[c].refcnt > 0 {
        assert c in lru;
      }
      return false, nbuf;
    }

    /** bget: lock block k's buffer, recycling the least recently released free one if k is not cached.
        !ok is the panic: k is not cached and every buffer is referenced. */
    method Bget(k: nat) returns (ok: bool, b: nat)
      requires Valid() && k in disk && k !in a.held
      modifies this`bufs, this`a
      ensures Valid()
      ensures ok <==> old(k in a.at || exists c :: 0 <= c < nbuf && bufs[c].refcnt == 0)
      ensures !ok ==> bufs == old(bufs) && a == old(a)
      ensures ok ==> b < nbuf && bufs == old(bufs)[b := bufs[b]] && !old(bufs[b].locked)
      ensures ok ==> Holds(bufs[b], dev, k) && bufs[b].locked
      ensures ok && old(k in a.at) ==>
        && b == old(a.at[k]) && a == Taken(old(a), k, b)
        && bufs[b] == old(bufs[b]).(refcnt := old(bufs[b]).refcnt + 1, locked := true)
      ensures ok && old(k !in a.at) ==>
        && old(LeastRecent(bufs, lru, b)) && a == Taken(Evicted(old(a), old(bufs[b]), dev), k, b)
        && bufs[b] == old(bufs[b]).(dev := dev, blockno := k, valid := false, refcnt := 1, locked := true)
    {
      hide Coherent, IsRing, Permutation;
      ok, b := Lookup(k);
      if ok {
        ShareOne(bufs, dev, disk, a, b);
        Unlocked(bufs, dev, disk, a, b);
        bufs := bufs[b := bufs[b].(refcnt := bufs[b].refcnt + 1)];
      } else {
        ok, b := Victim();
        if !ok {
          return;
        }
        RecycleOne(bufs, dev, disk, a, b, k);
        Unlocked(bufs, dev, disk, a, b);
        bufs := bufs[b := bufs[b].(dev := dev, blockno := k, valid := false, refcnt := 1)];
        a := Evicted(a, old(bufs)[b], dev);
      }
      // acquiresleep
      bufs := bufs[b := bufs[b].(locked := true)];
      a := Taken(a, k, b);
      assert bufs == old(bufs)[b := bufs[b]];
    }

    /** bread: a locked buffer with the contents of block k; nothing else is disturbed. */
    method Bread(k: nat) returns (b: nat)
      requires Valid() && k in disk && k !in a.held
      requires a.refs[k] > 0 || |InUse(a.refs)| < nbuf
      modifies this`bufs, this`a
      ensures Valid() && Holding(b, k) && bufs[b].data == a.view[k]
      ensures a.view == old(a.view) && a.refs == old(a.refs)[k := old(a.refs[k]) + 1] && a.held == old(a.held) + {k}
      ensures |bufs| == |old(bufs)| && !old(bufs[b].locked) && bufs == old(bufs)[b := bufs[b]]
      ensures |InUse(a.refs)| <= |old(InUse(a.refs))| + 1
    {
      hide Coherent, IsRing, Permutation, InUse;
      var ok;
      NotExhausted(k);
      InUseBump(a.refs, k);
      ok, b := Bget(k);
      if !bufs[b].valid {
        AtBuffer(bufs, dev, disk, a, b);
        FillOne(bufs, dev, disk, a, b);
        ghost var got := bufs;
        bufs := bufs[b := bufs[b].(data := disk[k])];  // virtio_disk_rw(b, 0)
        bufs := bufs[b := bufs[b].(valid := true)];
        assert bufs == got[b := got[b].(data := disk[k], valid := true)];
        assert bufs == old(bufs)[b := bufs[b]];
      }
      AtBuffer(bufs, dev, disk, a, b);
    }

    /** The holder of a buffer stores new contents in it. */
    method SetData(b: nat, ghost k: nat, data: Block)
      requires Valid() && Holding(b, k)
      modifies this`bufs, this`a
      ensures Valid() && Holding(b, k) && bufs == old(bufs)[b := old(bufs[b]).(data := data)]
      ensures a == old(a).(view := old(a.view)[k := data])
    {
      hide Coherent, IsRing, Permutation;
      AtBuffer(bufs, dev, disk, a, b);
      ghost var c := bufs[b].(data := data);
      HeldReferenced(bufs, dev, disk, a, b);
      ChangeOne(bufs, dev, disk, a, b, c, disk[k]);
      bufs := bufs[b := bufs[b].(data := data)];
      a := Retold(a, k, c, disk[k]);
      assert disk[k := disk[k]] == disk;
      SameRefs(old(a), k, c, disk[k]);
    }

    /** bwrite: the buffer's contents become the block's contents on disk, in one disk write. */
    method Bwrite(b: nat, ghost k: nat)
      requires Valid() && Holding(b, k)
      modifies this`disk, this`trace
      ensures Valid() && disk == old(disk)[k := bufs[b].data] && trace == old(trace) + [disk]
    {
      hide Coherent, IsRing, Permutation;
      AtBuffer(bufs, dev, disk, a, b);
      HeldReferenced(bufs, dev, disk, a, b);
      ChangeOne(bufs, dev, disk, a, b, bufs[b], bufs[b].data);
      SameRefs(a, k, bufs[b], bufs[b].data);
      assert bufs[b := bufs[b]] == bufs && a.view[k := a.view[k]] == a.view;
      disk := disk[bufs[b].blockno := bufs[b].data];  // virtio_disk_rw(b, 1)
      trace := trace + [disk];
    }

    /** bpin, by the holder of the buffer. */
    method Bpin(b: nat, ghost k: nat)
      requires Valid() && Holding(b, k)
      modifies this`bufs, this`a
      ensures Valid() && Holding(b, k) && bufs == old(bufs)[b := old(bufs[b]).(refcnt := old(bufs[b]).refcnt + 1)]
      ensures a == old(a).(refs := old(a.refs)[k := old(a.refs[k]) + 1])
    {
      hide Coherent, IsRing, Permutation;
      AtBuffer(bufs, dev, disk, a, b);
      ghost var c := bufs[b].(refcnt := bufs[b].refcnt + 1);
      ChangeOne(bufs, dev, disk, a, b, c, disk[k]);
      bufs := bufs[b := bufs[b].(refcnt := bufs[b].refcnt + 1)];
      a := Retold(a, k, c, disk[k]);
      assert disk[k := disk[k]] == disk && old(a).view[k := old(a).view[k]] == old(a).view;
      SameHeld(old(a), k);
    }

    /** bunpin, by the holder of the buffer, whose own reference keeps the count positive. */
    method Bunpin(b: nat, ghost k: nat)
      requires Valid() && Holding(b, k) && a.refs[k] >= 2
      modifies this`bufs, this`a
      ensures Valid() && Holding(b, k) && bufs == old(bufs)[b := old(bufs[b]).(refcnt := old(a.refs[k]) - 1)]
      ensures a == old(a).(refs := old(a.refs)[k := old(a.refs[k]) - 1])
    {
      hide Coherent, IsRing, Permutation;
      AtBuffer(bufs, dev, disk, a, b);
      ghost var c := bufs[b].(refcnt := bufs[b].refcnt - 1);
      ChangeOne(bufs, dev, disk, a, b, c, disk[k]);
      bufs := bufs[b := bufs[b].(refcnt := bufs[b].refcnt - 1)];
      a := Retold(a, k, c, disk[k]);
      assert disk[k := disk[k]] == disk && old(a).view[k := old(a).view[k]] == old(a).view;
      SameHeld(old(a), k);
    }

    /** brelse: drop the lock and one reference. The last reference may go only when the contents are on disk;
        the buffer then becomes the most recently released one. */
    method Brelse(b: nat, ghost k: nat)
      requires Valid() && Holding(b, k)
      requires a.refs[k] == 1 ==> a.view[k] == disk[k]
      modifies this`bufs, this`a, this`lru, this`next, this`prev
      ensures Valid() && bufs == old(bufs)[b := old(bufs[b]).(locked := false, refcnt := old(a.refs[k]) - 1)]
      ensures old(a.refs[k]) > 0
      ensures a == old(a).(refs := old(a.refs)[k := old(a.refs[k]) - 1], held := old(a.held) - {k})
      ensures old(a.refs[k]) > 1 ==> lru == old(lru)
      ensures old(a.refs[k]) == 1 ==> exists i :: 0 <= i < |old(lru)| && old(lru)[i] == b && lru == ToFront(old(lru), i)
    {
      hide Coherent, IsRing, Permutation;
      AtBuffer(bufs, dev, disk, a, b);
      HeldReferenced(bufs, dev, disk, a, b);
      ghost var c := bufs[b].(locked := false, refcnt := bufs[b].refcnt - 1);
      ChangeOne(bufs, dev, disk, a, b, c, disk[k]);
      assert disk[k := disk[k]] == disk && a.view[k := a.view[k]] == a.view;
      bufs := bufs[b := bufs[b].(locked := false)];  // releasesleep
      bufs := bufs[b := bufs[b].(refcnt := bufs[b].refcnt - 1)];
      assert bufs == old(bufs)[b := c];
      a := Retold(a, k, c, disk[k]);
      if bufs[b].refcnt == 0 {
        MoveToFront(b);
      }
    }

    /** The six assignments of brelse that move a buffer to the front of the ring. */
    method MoveToFront(b: nat)
      requires |bufs| == nbuf && Permutation(lru, nbuf) && IsRing(next, prev, lru, nbuf) && b < nbuf
      modifies this`lru, this`next, this`prev
      ensures Permutation(lru, nbuf) && IsRing(next, prev, lru, nbuf)
      ensures exists i :: 0 <= i < |old(lru)| && old(lru)[i] == b && lru == ToFront(old(lru), i)
    {
      assert b in lru;
      ghost var i :| 0 <= i < |lru| && lru[i] == b;
      ToFrontPermutes(lru, i, nbuf);
      WithoutDistinct(lru, i, nbuf);
      next, prev := Unlink(next, prev, b, lru, i, nbuf);
      next, prev := LinkFront(next, prev, b, Without(lru, i), nbuf);
      lru := ToFront(lru, i);
    }

    lemma NotExhausted(k: nat)
      requires Valid() && k in disk && (a.refs[k] > 0 || |InUse(a.refs)| < nbuf)
      ensures k in a.at || exists c :: 0 <= c < nbuf && bufs[c].refcnt == 0
    {
      if k !in a.at {
        SomeFree(bufs, dev, disk, a, k);
      }
    }
  }

  lemma Unlocked(bufs: seq<Buf>, dev: nat, disk: Disk, a: Abs, i: nat)
    requires Coherent(bufs, dev, disk, a) && i < |bufs|
    requires bufs[i].refcnt == 0 || (bufs[i].dev == dev && bufs[i].blockno !in a.held)
    ensures !bufs[i].locked
  {
    if bufs[i].dev == dev {
      AtBuffer(bufs, dev, disk, a, i);
    }
  }

  lemma HeldReferenced(bufs: seq<Buf>, dev: nat, disk: Disk, a: Abs, i: nat)
    requires Coherent(bufs, dev, disk, a) && i < |bufs| && bufs[i].dev == dev && bufs[i].locked
    ensures bufs[i].refcnt > 0 && bufs[i].blockno in a.held
  {
    AtBuffer(bufs, dev, disk, a, i);
  }

  lemma SameHeld(a: Abs, k: nat)
    requires k in a.held
    ensures a.held + {k} == a.held
  {
  }

  lemma SameRefs(a: Abs, k: nat, b: Buf, d: Block)
    requires k in a.refs && a.refs[k] == b.refcnt && b.locked && k in a.held && b.valid
    ensures Retold(a, k, b, d) == a.(view := a.view[k := b.data])
  {
    assert a.refs[k := a.refs[k]] == a.refs;
    assert a.held + {k} == a.held;
  }

  lemma FillOne(bufs: seq<Buf>, dev: nat, disk: Disk, a: Abs, i: nat)
    requires Coherent(bufs, dev, disk, a) && i < |bufs| && bufs[i].dev == dev && !bufs[i].valid
    ensures bufs[i].blockno in disk
    ensures Coherent(bufs[i := bufs[i].(data := disk[bufs[i].blockno], valid := true)], dev, disk, a)
  {
    hide Coherent;
    var k := bufs[i].blockno;
    AtBuffer(bufs, dev, disk, a, i);
    var b := bufs[i].(data := disk[k], valid := true);
    ChangeOne(bufs, dev, disk, a, i, b, disk[k]);
    assert disk[k := disk[k]] == disk && a.view[k := a.view[k]] == a.view && a.refs[k := a.refs[k]] == a.refs;
    assert (if b.locked then a.held + {k} else a.held - {k}) == a.held;
  }
}
