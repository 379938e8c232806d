/** The user-level allocator: a circular list of free blocks in address order, first fit, with adjacent free blocks
    merged. Addresses and sizes are in units of one header. */
module Umalloc {

  const BASE: nat := 1              // address of the static header base, below the heap; 0 is the null pointer
  const UNIT: nat := 16             // sizeof(Header)
  const U31: nat := 0x8000_0000

  /** The units malloc looks for. */
  function Units(nbytes: nat): nat {
    (nbytes + UNIT - 1) / UNIT + 1
  }

  /** The largest request whose size in bytes still fits the int that sbrk takes. */
  const MAXREQUEST: nat := U31 - 32

  /** The value an int parameter gets from an unsigned long. */
  function AsInt(x: nat): int {
    var y := x % 0x1_0000_0000;
    if y < U31 then y else y - 0x1_0000_0000
  }

  /** The units morecore asks for. */
  function Asked(nu: nat): nat {
    if nu < 4096 then 4096 else nu
  }

  /** morecore asks sbrk for the memory it then puts on the free list exactly up to this request; above it sbrk gets a
      different number, for 0x80000000 bytes a negative one. */
  lemma SbrkArgument(nbytes: nat)
    requires nbytes < 0x1_0000_0000
    ensures AsInt(Asked(Units(nbytes)) * UNIT) == Asked(Units(nbytes)) * UNIT <==> nbytes <= MAXREQUEST
    ensures AsInt(Asked(Units(U31)) * UNIT) < 0
    ensures (Units(nbytes) - 1) * UNIT >= nbytes
  {
  }

  /** What one call of sbrk came to. */
  datatype Reply = Refused(asked: nat) | Granted(start: nat, units: nat)

  /** The n units from address a on. */
  ghost function Span(a: nat, n: nat): (s: set<nat>)
    ensures forall u :: u in s <==> a <= u < a + n
  {
    if n == 0 then {} else Span(a, n - 1) + {a + n - 1}
  }

  ghost function Gained(r: Reply): set<nat> {
    if r.Refused? then {} else Span(r.start, r.units)
  }

  /** The units sbrk has handed out. */
  ghost function Supplied(calls: seq<Reply>): set<nat> {
    if calls == [] then {} else Supplied(calls[..|calls| - 1]) + Gained(calls[|calls| - 1])
  }

  lemma SuppliedMore(calls: seq<Reply>, last: Reply)
    ensures Supplied(calls + [last]) == Supplied(calls) + Gained(last)
  {
    assert (calls + [last])[..|calls|] == calls;
  }

  /** The list after position i. */
  function NextOf(list: seq<nat>, i: nat): nat
    requires i < |list|
  {
    if i + 1 < |list| then list[i + 1] else list[0]
  }

  predicate Ascending(list: seq<nat>) {
    forall i, j :: 0 <= i < j < |list| ==> list[i] < list[j]
  }

  predicate Link(list: seq<nat>, ptr: map<nat, nat>, i: nat)
    requires i < |list|
  {
    list[i] in ptr && ptr[list[i]] == NextOf(list, i)
  }

  /** Following ptr from base goes once through list and back to base. */
  predicate Ring(list: seq<nat>, ptr: map<nat, nat>) {
    && |list| > 0 && list[0] == BASE && Ascending(list)
    && forall i {:trigger Link(list, ptr, i)} :: 0 <= i < |list| ==> Link(list, ptr, i)
  }

  /** The units of block h are its own. */
  ghost predicate Covers(size: map<nat, nat>, own: map<nat, nat>, h: nat)
    requires h in size
  {
    forall u :: h <= u < h + size[h] ==> u in own && own[u] == h
  }

  /** The blocks tile the memory obtained: own gives the block of each unit. */
  ghost predicate Tiled(size: map<nat, nat>, own: map<nat, nat>) {
    && BASE in size && size[BASE] == 0
    && (forall h :: h in size && h != BASE ==> h > BASE && size[h] >= 1)
    && (forall h {:trigger Covers(size, own, h)} :: h in size ==> Covers(size, own, h))
    && (forall u :: u in own ==> own[u] in size && own[u] <= u < own[u] + size[own[u]])
  }

  /** Block i of the list does not touch the next one. */
  predicate Gap(size: map<nat, nat>, list: seq<nat>, i: nat)
    requires i < |list|
  {
    list[i] in size && (i + 1 < |list| ==> list[i] + size[list[i]] < list[i + 1])
  }

  /** No two neighbours on the list touch. */
  predicate Apart(size: map<nat, nat>, list: seq<nat>) {
    forall i {:trigger Gap(size, list, i)} :: 0 <= i < |list| ==> Gap(size, list, i)
  }

  /** Every block is base, free or live. */
  ghost predicate Sorted(size: map<nat, nat>, list: seq<nat>, live: set<nat>) {
    && (forall h :: h in size <==> h in list || h in live)
    && (forall h :: h in live ==> h !in list)
  }

  ghost predicate Good(size: map<nat, nat>, ptr: map<nat, nat>, list: seq<nat>, own: map<nat, nat>, live: set<nat>,
                       brk: nat) {
    && Ring(list, ptr) && Tiled(size, own) && Apart(size, list) && Sorted(size, list, live)
    && BASE < brk && (forall u :: u in own ==> u < brk)
  }

  /** Different blocks share no unit. */
  lemma BlocksDisjoint(size: map<nat, nat>, own: map<nat, nat>, a: nat, b: nat, u: nat)
    requires Tiled(size, own) && a in size && b in size && a <= u < a + size[a] && b <= u < b + size[b]
    ensures a == b
  {
    assert Covers(size, own, a) && Covers(size, own, b) && u in own;
  }

  // ------------------------------------------------------------------------------------------------------------------
  // Cutting and joining blocks
  // ------------------------------------------------------------------------------------------------------------------

  /** The units of [a, b) given to block h. */
  ghost function Give(own: map<nat, nat>, a: nat, b: nat, h: nat): map<nat, nat>
    requires a <= b
    decreases b - a
  {
    if a == b then own else Give(own, a + 1, b, h)[a := h]
  }

  lemma {:induction false} GiveAt(own: map<nat, nat>, a: nat, b: nat, h: nat, u: nat)
    requires a <= b
    ensures u in Give(own, a, b, h) <==> u in own || a <= u < b
    ensures u in Give(own, a, b, h) ==> Give(own, a, b, h)[u] == if a <= u < b then h else own[u]
    decreases b - a
  {
    if a < b {
      GiveAt(own, a + 1, b, h, u);
    }
  }

  lemma GiveAll(own: map<nat, nat>, a: nat, b: nat, h: nat)
    requires a <= b
    ensures var own' := Give(own, a, b, h);
            && (forall u :: u in own' <==> u in own || a <= u < b)
            && (forall u :: u in own' ==> own'[u] == if a <= u < b then h else own[u])
  {
    forall u: nat
      ensures u in Give(own, a, b, h) <==> u in own || a <= u < b
      ensures u in Give(own, a, b, h) ==> Give(own, a, b, h)[u] == if a <= u < b then h else own[u]
    {
      GiveAt(own, a, b, h, u);
    }
  }

  /** A block's last n units become a block of their own. */
  lemma Cut(size: map<nat, nat>, own: map<nat, nat>, h: nat, n: nat, t: nat)
    requires Tiled(size, own) && h in size && h != BASE && 0 < n < size[h] && t == h + size[h] - n
    ensures t !in size && Tiled(size[h := size[h] - n][t := n], Give(own, t, t + n, t))
    ensures Give(own, t, t + n, t).Keys == own.Keys
  {
    hide Give;
    var size', own' := size[h := size[h] - n][t := n], Give(own, t, t + n, t);
    assert Covers(size, own, h);
    assert t in own && own[t] == h;
    assert t in size ==> Covers(size, own, t);
    GiveAll(own, t, t + n, t);
    forall g | g in size' ensures Covers(size', own', g) {
      assert g != t ==> Covers(size, own, g);
      forall u | g <= u < g + size'[g] ensures u in own' && own'[u] == g {
        assert t <= u < t + n ==> own[u] == h;
      }
    }
  }

  /** A block and the one right after it become one. */
  lemma Join(size: map<nat, nat>, own: map<nat, nat>, a: nat, b: nat)
    requires Tiled(size, own) && a in size && a != BASE && b in size && b == a + size[a]
    ensures Tiled((size - {b})[a := size[a] + size[b]], Give(own, b, b + size[b], a))
    ensures Give(own, b, b + size[b], a).Keys == own.Keys
  {
    hide Give;
    var size', own' := (size - {b})[a := size[a] + size[b]], Give(own, b, b + size[b], a);
    assert Covers(size, own, a) && Covers(size, own, b);
    GiveAll(own, b, b + size[b], a);
    forall g | g in size' ensures Covers(size', own', g) {
      assert Covers(size, own, g);
      forall u | g <= u < g + size'[g] ensures u in own' && own'[u] == g {
        assert b <= u < b + size[b] ==> own[u] == b;
      }
    }
  }

  /** New memory is a block of its own. */
  lemma Grow(size: map<nat, nat>, own: map<nat, nat>, brk: nat, h: nat, n: nat)
    requires Tiled(size, own) && BASE < brk <= h && n > 0 && forall u :: u in own ==> u < brk
    ensures h !in size && Tiled(size[h := n], Give(own, h, h + n, h))
    ensures forall u :: u in Give(own, h, h + n, h) <==> u in own || h <= u < h + n
  {
    hide Give;
    var size', own' := size[h := n], Give(own, h, h + n, h);
    assert h in size ==> Covers(size, own, h);
    assert h !in own;
    GiveAll(own, h, h + n, h);
    forall g | g in size' ensures Covers(size', own', g) {
      assert g != h ==> Covers(size, own, g);
      forall u | g <= u < g + size'[g] ensures u in own' && own'[u] == g {
        assert g != h ==> u in own;
      }
    }
  }

  // ------------------------------------------------------------------------------------------------------------------
  // The list
  // ------------------------------------------------------------------------------------------------------------------

  /** Block b put after position i. */
  function Insert(list: seq<nat>, i: nat, b: nat): seq<nat>
    requires i < |list|
  {
    list[..i + 1] + [b] + list[i + 1..]
  }

  /** The block after position i taken out. */
  function Remove(list: seq<nat>, i: nat): seq<nat>
    requires i + 1 < |list|
  {
    list[..i + 1] + list[i + 2..]
  }

  /** Address b lies between position i and the next. */
  predicate Place(list: seq<nat>, i: nat, b: nat) {
    i < |list| && list[i] < b && (i + 1 < |list| ==> b < list[i + 1])
  }

  lemma InsertAt(list: seq<nat>, i: nat, b: nat, j: nat)
    requires i < |list| && j <= |list|
    ensures |Insert(list, i, b)| == |list| + 1
    ensures Insert(list, i, b)[j] == if j <= i then list[j] else if j == i + 1 then b else list[j - 1]
  {
  }

  lemma RemoveAt(list: seq<nat>, i: nat, j: nat)
    requires i + 1 < |list| && j < |list| - 1
    ensures |Remove(list, i)| == |list| - 1
    ensures Remove(list, i)[j] == if j <= i then list[j] else list[j + 1]
  {
  }

  lemma InsertIn(list: seq<nat>, i: nat, b: nat)
    requires i < |list|
    ensures forall h :: h in Insert(list, i, b) <==> h in list || h == b
  {
    assert list == list[..i + 1] + list[i + 1..];
  }

  lemma RemoveIn(list: seq<nat>, i: nat)
    requires i + 1 < |list| && Ascending(list)
    ensures forall h :: h in Remove(list, i) <==> h in list && h != list[i + 1]
  {
    assert list == list[..i + 1] + [list[i + 1]] + list[i + 2..];
  }

  lemma RemoveNext(list: seq<nat>, i: nat)
    requires i + 1 < |list|
    ensures i < |Remove(list, i)| && Remove(list, i)[i] == list[i] && NextOf(Remove(list, i), i) == NextOf(list, i + 1)
  {
    RemoveAt(list, i, i);
    if i + 2 < |list| {
      RemoveAt(list, i, i + 1);
    }
    RemoveAt(list, i, 0);
  }

  lemma InsertAscending(list: seq<nat>, i: nat, b: nat)
    requires Ascending(list) && Place(list, i, b)
    ensures Ascending(Insert(list, i, b)) && b !in list
  {
    hide Insert;
    var l := Insert(list, i, b);
    InsertAt(list, i, b, 0);
    forall j, k | 0 <= j < k < |l| ensures l[j] < l[k] {
      InsertAt(list, i, b, j);
      InsertAt(list, i, b, k);
    }
  }

  lemma InsertRing(list: seq<nat>, ptr: map<nat, nat>, i: nat, b: nat)
    requires Ring(list, ptr) && Place(list, i, b)
    ensures Ring(Insert(list, i, b), ptr[b := NextOf(list, i)][list[i] := b])
  {
    hide Insert;
    var l, ptr' := Insert(list, i, b), ptr[b := NextOf(list, i)][list[i] := b];
    InsertAscending(list, i, b);
    InsertAt(list, i, b, 0);
    forall j | 0 <= j < |l| ensures Link(l, ptr', j) {
      InsertAt(list, i, b, j);
      if j + 1 < |l| {
        InsertAt(list, i, b, j + 1);
      }
      assert Link(list, ptr, i) && (j <= i ==> Link(list, ptr, j)) && (j > i + 1 ==> Link(list, ptr, j - 1));
    }
  }

  lemma RemoveAscending(list: seq<nat>, i: nat)
    requires Ascending(list) && i + 1 < |list|
    ensures Ascending(Remove(list, i))
  {
    hide Remove;
    var l := Remove(list, i);
    RemoveAt(list, i, 0);
    forall j, k | 0 <= j < k < |l| ensures l[j] < l[k] {
      RemoveAt(list, i, j);
      RemoveAt(list, i, k);
    }
  }

  lemma RemoveRing(list: seq<nat>, ptr: map<nat, nat>, i: nat)
    requires Ring(list, ptr) && i + 1 < |list|
    ensures Ring(Remove(list, i), ptr[list[i] := NextOf(list, i + 1)])
  {
    hide Remove;
    var l, ptr' := Remove(list, i), ptr[list[i] := NextOf(list, i + 1)];
    RemoveAscending(list, i);
    RemoveAt(list, i, 0);
    forall j | 0 <= j < |l| ensures Link(l, ptr', j) {
      RemoveAt(list, i, j);
      if j + 1 < |l| {
        RemoveAt(list, i, j + 1);
      }
      assert Link(list, ptr, i) && (j <= i ==> Link(list, ptr, j)) && (j > i ==> Link(list, ptr, j + 1));
    }
  }

  /** How many links lead from position i to position j. */
  function Dist(n: nat, i: nat, j: nat): nat
    requires i < n && j < n
  {
    if i <= j then j - i else j + n - i
  }

  /** The position after i. */
  function Step(n: nat, i: nat): (j: nat)
    requires i < n
    ensures j < n
  {
    if i + 1 < n then i + 1 else 0
  }

  lemma StepCloser(n: nat, i: nat, j: nat)
    requires i < n && j < n && i != j
    ensures Dist(n, Step(n, i), j) == Dist(n, i, j) - 1
  {
  }

  /** The place of an address above base. */
  ghost function Find(list: seq<nat>, b: nat): (i: nat)
    requires |list| > 0 && list[0] < b && b !in list && Ascending(list)
    ensures Place(list, i, b)
  {
    if list[|list| - 1] < b then |list| - 1
    else
      assert list[|list| - 1] in list;
      var i := Find(list[..|list| - 1], b);
      assert i + 1 < |list| - 1 ==> list[..|list| - 1][i + 1] == list[i + 1];
      i
  }

  /** A block ends before the next one begins. */
  lemma Before(size: map<nat, nat>, own: map<nat, nat>, a: nat, b: nat)
    requires Tiled(size, own) && a in size && b in size && a < b
    ensures a + size[a] <= b
  {
    assert Covers(size, own, a) && Covers(size, own, b);
    if a + size[a] > b {
      BlocksDisjoint(size, own, a, b, b);
    }
  }

  lemma RingSame(list: seq<nat>, ptr: map<nat, nat>, ptr': map<nat, nat>)
    requires Ring(list, ptr) && forall h :: h in ptr && h in list ==> h in ptr' && ptr'[h] == ptr[h]
    ensures Ring(list, ptr')
  {
    forall i | 0 <= i < |list| ensures Link(list, ptr', i) {
      assert Link(list, ptr, i) && list[i] in list;
    }
  }

  /** What free does with the block above: it becomes part of b. */
  lemma FreeUp(size: map<nat, nat>, ptr: map<nat, nat>, list: seq<nat>, own: map<nat, nat>, live: set<nat>, brk: nat,
               i: nat, b: nat, next: nat)
    requires Good(size, ptr, list, own, live, brk) && b in live && Place(list, i, b) && i + 1 < |list| &&
             next == list[i + 1] && b + size[b] == next
    ensures next in size &&
            Good((size - {next})[b := size[b] + size[next]], ptr[list[i] := NextOf(list, i + 1)], Remove(list, i),
                                 Give(own, next, next + size[next], b), live, brk)
    ensures Give(own, next, next + size[next], b).Keys == own.Keys
    ensures Place(Remove(list, i), i, b)
    ensures i + 1 < |Remove(list, i)| ==> b + size[b] + size[next] < Remove(list, i)[i + 1]
  {
    hide Give, Remove, Tiled;
    var size', l := (size - {next})[b := size[b] + size[next]], Remove(list, i);
    assert next in list;
    Join(size, own, b, next);
    RemoveRing(list, ptr, i);
    RemoveIn(list, i);
    RemoveAt(list, i, i);
    assert Gap(size, list, i) && Gap(size, list, i + 1);
    if i + 1 < |l| {
      RemoveAt(list, i, i + 1);
    }
    forall j | 0 <= j < |l| ensures Gap(size', l, j) {
      RemoveAt(list, i, j);
      if j + 1 < |l| {
        RemoveAt(list, i, j + 1);
      }
      assert l[j] in l;
      assert (j <= i ==> Gap(size, list, j)) && (j > i ==> Gap(size, list, j + 1));
    }
  }

  /** What free does with the block below: b becomes part of it. */
  lemma FreeDown(size: map<nat, nat>, ptr: map<nat, nat>, list: seq<nat>, own: map<nat, nat>, live: set<nat>, brk: nat,
                 i: nat, b: nat)
    requires Good(size, ptr, list, own, live, brk) && b in live && Place(list, i, b) && list[i] in size &&
             list[i] + size[list[i]] == b
    requires i + 1 < |list| ==> b + size[b] < list[i + 1]
    ensures Good((size - {b})[list[i] := size[list[i]] + size[b]], ptr, list, Give(own, b, b + size[b], list[i]),
                 live - {b}, brk)
    ensures Give(own, b, b + size[b], list[i]).Keys == own.Keys
  {
    hide Give;
    var size' := (size - {b})[list[i] := size[list[i]] + size[b]];
    assert list[i] != BASE;
    Join(size, own, list[i], b);
    hide Tiled;
    forall j | 0 <= j < |list| ensures Gap(size', list, j) {
      assert Gap(size, list, j) && list[j] in list;
    }
  }

  /** A block that touches no free one goes on the list. */
  lemma FreeInsert(size: map<nat, nat>, ptr: map<nat, nat>, list: seq<nat>, own: map<nat, nat>, live: set<nat>,
                   brk: nat, i: nat, b: nat)
    requires Good(size, ptr, list, own, live, brk) && b in live && Place(list, i, b) && list[i] in size &&
             list[i] + size[list[i]] != b
    requires i + 1 < |list| ==> b + size[b] < list[i + 1]
    ensures Good(size, ptr[b := NextOf(list, i)][list[i] := b], Insert(list, i, b), own, live - {b}, brk)
  {
    hide Insert, Tiled;
    var l := Insert(list, i, b);
    InsertRing(list, ptr, i, b);
    InsertIn(list, i, b);
    assert b in size && list[i] in list;
    Before(size, own, list[i], b);
    InsertAt(list, i, b, 0);
    forall j | 0 <= j < |l| ensures Gap(size, l, j) {
      InsertAt(list, i, b, j);
      if j + 1 < |l| {
        InsertAt(list, i, b, j + 1);
      }
      assert (j <= i ==> Gap(size, list, j)) && (j > i + 1 ==> Gap(size, list, j - 1));
    }
  }

  /** Where b is to go, its upper neighbour is above its end. */
  lemma AboveEnd(size: map<nat, nat>, ptr: map<nat, nat>, list: seq<nat>, own: map<nat, nat>, live: set<nat>, brk: nat,
                 i: nat, b: nat)
    requires Good(size, ptr, list, own, live, brk) && b in live && Place(list, i, b)
    ensures list[i] in size && b in size && size[b] > 0 && list[i] in ptr && ptr[list[i]] == NextOf(list, i)
    ensures i + 1 < |list| ==> list[i + 1] in size && b + size[b] <= list[i + 1] && list[i + 1] in ptr &&
                               ptr[list[i + 1]] == NextOf(list, i + 1)
    ensures BASE < b && list[i] < b && BASE <= list[i] && (list[i] == BASE <==> i == 0)
  {
    assert Link(list, ptr, i) && list[i] in list;
    assert list[0] == BASE;
    if i + 1 < |list| {
      assert list[i + 1] in list && Link(list, ptr, i + 1);
      Before(size, own, b, list[i + 1]);
    }
  }

  /** A free block of at least n units. */
  predicate Fits(size: map<nat, nat>, list: seq<nat>, h: nat, n: nat) {
    h in list && h in size && size[h] >= n
  }

  /** The block after prev leaves the list. */
  lemma TakeWhole(size: map<nat, nat>, ptr: map<nat, nat>, list: seq<nat>, own: map<nat, nat>, live: set<nat>, brk: nat,
                  i: nat)
    requires Good(size, ptr, list, own, live, brk) && i + 1 < |list|
    ensures list[i + 1] in ptr && ptr[list[i + 1]] == NextOf(list, i + 1)
    ensures Good(size, ptr[list[i] := NextOf(list, i + 1)], Remove(list, i), own, live + {list[i + 1]}, brk)
    ensures list[i] in Remove(list, i) && list[i + 1] !in live
  {
    hide Remove, Tiled;
    var l := Remove(list, i);
    assert Link(list, ptr, i + 1);
    assert list[i + 1] in list && list[i] in list;
    RemoveRing(list, ptr, i);
    RemoveIn(list, i);
    RemoveAt(list, i, 0);
    forall j | 0 <= j < |l| ensures Gap(size, l, j) {
      RemoveAt(list, i, j);
      if j + 1 < |l| {
        RemoveAt(list, i, j + 1);
      }
      assert Gap(size, list, j) && Gap(size, list, j + 1);
    }
  }

  /** A free block gives up its last n units. */
  lemma TakeTail(size: map<nat, nat>, ptr: map<nat, nat>, list: seq<nat>, own: map<nat, nat>, live: set<nat>, brk: nat,
                 h: nat, n: nat, t: nat)
    requires Good(size, ptr, list, own, live, brk) && h in list && h in size && 0 < n < size[h] && t == h + size[h] - n
    ensures Good(size[h := size[h] - n][t := n], ptr, list, Give(own, t, t + n, t), live + {t}, brk)
    ensures Give(own, t, t + n, t).Keys == own.Keys && t !in live && t !in size
  {
    hide Give;
    var size' := size[h := size[h] - n][t := n];
    Cut(size, own, h, n, t);
    hide Tiled;
    forall j | 0 <= j < |list| ensures Gap(size', list, j) {
      assert Gap(size, list, j) && list[j] in list;
    }
    var own' := Give(own, t, t + n, t);
    assert forall u :: u in own' ==> u in own'.Keys;
  }

  /** No free block ends where another begins. */
  lemma Coalesced(size: map<nat, nat>, ptr: map<nat, nat>, list: seq<nat>, own: map<nat, nat>, live: set<nat>, brk: nat,
                  a: nat, b: nat)
    requires Good(size, ptr, list, own, live, brk) && a in list && b in list && a != BASE
    ensures a in size && a + size[a] != b
  {
    var i, j := IndexOf(list, a), IndexOf(list, b);
    assert Gap(size, list, i);
  }

  class Heap {
    var size: map<nat, nat>         // size field of each header
    var ptr: map<nat, nat>          // ptr field of each header
    var freep: nat                  // 0 before the first malloc
    var brk: nat                    // end of the process's memory
    ghost var list: seq<nat>        // base and the free blocks, in address order
    ghost var own: map<nat, nat>    // the block each unit obtained from sbrk is in
    ghost var live: set<nat>        // the blocks handed out
    ghost var calls: seq<Reply>     // what sbrk replied so far

    /** The heap is in order, and the units it is made of are exactly those sbrk supplied. */
    ghost predicate Valid()
      reads this
    {
      && own.Keys == Supplied(calls)
      && if freep == 0 then size == map[] && list == [] && own == map[] && live == {} && BASE < brk
         else Good(size, ptr, list, own, live, brk) && freep in list
    }

    constructor (brk: nat)
      requires BASE < brk
      ensures Valid() && live == {} && own == map[] && calls == []
    {
      this.brk := brk;
      size, ptr, freep, list, own, live, calls := map[], map[], 0, [], map[], {}, [];
    }

    /** The search of free: the list block just below bp. */
    method FindPlace(bp: nat) returns (p: nat, ghost i: nat)
      requires freep != 0 && Ring(list, ptr) && freep in list && bp > BASE && bp !in list
      ensures Place(list, i, bp) && p == list[i]
    {
      ghost var j :| 0 <= j < |list| && list[j] == freep;
      ghost var target := Find(list, bp);
      p := freep;
      assert Link(list, ptr, j);
      while !(bp > p && bp < ptr[p])
        invariant 0 <= j < |list| && p == list[j] && Link(list, ptr, j)
        decreases Dist(|list|, j, target)
      {
        if p >= ptr[p] && (bp > p || bp < ptr[p]) {
          LastPlace(list, ptr, j, bp);
          return p, j;
        }
        NotPlace(list, ptr, j, target, bp);
        StepCloser(|list|, j, target);
        p := ptr[p];
        j := Step(|list|, j);
        assert Link(list, ptr, j);
      }
      LastPlace(list, ptr, j, bp);
      i := j;
    }

    /** The first half of free: the block above is joined to bp if it touches it. The link of p is still the old one. */
    method JoinAbove(bp: nat, p: nat, ghost i: nat)
      requires Good(size, ptr, list, own, live, brk) && bp in live && Place(list, i, bp) && p == list[i]
      modifies this`size, this`ptr, this`list, this`own
      ensures i < |list| && list[i] == p && Place(list, i, bp) && bp in ptr && ptr[bp] == NextOf(list, i)
      ensures Good(size, ptr[p := ptr[bp]], list, own, live, brk) && own.Keys == old(own).Keys
      ensures bp in size && bp in old(size) && size[bp] >= old(size)[bp]
      ensures i + 1 < |list| ==> bp + size[bp] < list[i + 1]
      ensures forall h :: h in live && h != bp ==> h in old(size) && h in size && size[h] == old(size)[h]
    {
      hide Good, Give, Remove;
      GoodParts(size, ptr, list, own, live, brk, bp);
      AboveEnd(size, ptr, list, own, live, brk, i, bp);
      var next: nat := ptr[p];
      if bp + size[bp] == next {
        FreeUp(size, ptr, list, own, live, brk, i, bp, next);
        own := Give(own, next, next + size[next], bp);
        list := Remove(list, i);
        RemoveNext(old(list), i);
        size, ptr := (size - {next})[bp := size[bp] + size[next]], ptr[bp := ptr[next]];
        RemoveIn(old(list), i);
        GoodPtr(size, old(ptr)[p := ptr[bp]], ptr[p := ptr[bp]], list, own, live, brk);
      } else {
        ptr := ptr[bp := next];
        GoodPtr(size, old(ptr), ptr[p := next], list, own, live, brk);
      }
    }

    /** The second half: bp is joined to p if p touches it, and put on the list after p if not. */
    method JoinBelow(bp: nat, p: nat, ghost i: nat)
      requires i < |list| && list[i] == p && Place(list, i, bp) && bp in ptr && ptr[bp] == NextOf(list, i)
      requires Good(size, ptr[p := ptr[bp]], list, own, live, brk) && bp in live && bp in size
      requires i + 1 < |list| ==> bp + size[bp] < list[i + 1]
      modifies this`size, this`ptr, this`list, this`own, this`live
      ensures Good(size, ptr, list, own, live, brk) && own.Keys == old(own).Keys && live == old(live) - {bp}
      ensures p in ptr && (Fits(size, list, p, old(size)[bp]) || Fits(size, list, ptr[p], old(size)[bp]))
      ensures p in list && forall h :: h in live ==> h in old(size) && h in size && size[h] == old(size)[h]
    {
      hide Good, Give, Insert;
      ghost var ptr1: map<nat, nat> := ptr[p := ptr[bp]];
      GoodParts(size, ptr1, list, own, live, brk, bp);
      AboveEnd(size, ptr1, list, own, live, brk, i, bp);
      if p + size[p] == bp {
        FreeDown(size, ptr1, list, own, live, brk, i, bp);
        own := Give(own, bp, bp + size[bp], p);
        size, ptr := (size - {bp})[p := size[p] + size[bp]], ptr[p := ptr[bp]];
      } else {
        FreeInsert(size, ptr1, list, own, live, brk, i, bp);
        ghost var ptr2: map<nat, nat> := ptr1[bp := NextOf(list, i)][p := bp];
        InsertIn(list, i, bp);
        list := Insert(list, i, bp);
        ptr := ptr[p := bp];
        GoodPtr(size, ptr2, ptr, list, own, live - {bp}, brk);
      }
      live := live - {bp};
    }

    /** free: the block goes back on the list, joined with the free blocks it touches. No other live block changes, and
        the memory held is the same. */
    method Free(ap: nat)
      requires Valid() && ap > 0 && ap - 1 in live
      modifies this`size, this`ptr, this`freep, this`list, this`own, this`live
      ensures Valid() && live == old(live) - {ap - 1} && own.Keys == old(own).Keys
      ensures forall h :: h in live ==> h in old(size) && h in size && size[h] == old(size)[h]
      ensures freep != 0 && freep in ptr && ap - 1 in old(size)
      ensures Fits(size, list, freep, old(size)[ap - 1]) || Fits(size, list, ptr[freep], old(size)[ap - 1])
    {
      hide Good, Supplied;
      var bp := ap - 1;
      GoodParts(size, ptr, list, own, live, brk, bp);
      var p, i := FindPlace(bp);
      JoinAbove(bp, p, i);
      ghost var n := size[bp];
      JoinBelow(bp, p, i);
      FitsLess(size, list, p, n, old(size)[bp]);
      FitsLess(size, list, ptr[p], n, old(size)[bp]);
      freep := p;
      GoodRing(size, ptr, list, own, live, brk);
      RingIn(list, ptr, freep);
    }

    /** sbrk(nu * sizeof(Header)) by this process alone: it fails, or hands out memory at the old break or, if something
        else has moved the break since, above it. */
    method Sbrk(nu: nat) returns (ok: bool, p: nat)
      requires nu * UNIT < U31
      modifies this`brk, this`calls
      ensures !ok ==> brk == old(brk) && calls == old(calls) + [Refused(nu)]
      ensures ok ==> old(brk) <= p && brk == p + nu && calls == old(calls) + [Granted(p, nu)]
    {
      ok := *;
      p := brk;
      if ok {
        var moved: nat :| moved >= 0;
        p := brk + moved;
        brk := p + nu;
        calls := calls + [Granted(p, nu)];
      } else {
        calls := calls + [Refused(nu)];
      }
    }

    /** morecore: what sbrk replies decides. Refused, nothing changes; granted, exactly the new units join the heap, and
        at freep or right after it there are at least nu free units. */
    method Morecore(nu: nat) returns (r: nat)
      requires Valid() && freep != 0 && 0 < nu && nu * UNIT < U31
      modifies this
      ensures Valid() && freep != 0 && live == old(live)
      ensures forall h :: h in live ==> h in old(size) && h in size && size[h] == old(size)[h]
      ensures |calls| == |old(calls)| + 1 && calls[..|old(calls)|] == old(calls)
      ensures r == 0 ==> calls[|old(calls)|] == Refused(Asked(nu)) && brk == old(brk)
      ensures r == 0 ==> freep == old(freep) && size == old(size) && ptr == old(ptr) && list == old(list) &&
                         own == old(own)
      ensures r != 0 ==> calls[|old(calls)|].Granted? && calls[|old(calls)|].units == Asked(nu)
      ensures r != 0 ==> r == freep && freep in ptr && (Fits(size, list, freep, nu) || Fits(size, list, ptr[freep], nu))
    {
      hide Good, Give, Fits, Supplied;
      var n := if nu < 4096 then 4096 else nu;
      LiveIn(size, ptr, list, own, live, brk);
      var ok, p := Sbrk(n);
      SuppliedMore(old(calls), calls[|old(calls)|]);
      if !ok {
        return 0;
      }
      GrowGood(size, ptr, list, own, live, old(brk), p, n, brk);
      size := size[p := n];
      own := Give(own, p, p + n, p);
      live := live + {p};
      assert own.Keys == Supplied(calls);
      Free(p + 1);
      FitsLess(size, list, freep, n, nu);
      FitsLess(size, list, ptr[freep], n, nu);
      return freep;
    }

    /** The start of malloc: on the first call the list is base alone. */
    method Start()
      requires Valid()
      modifies this`freep, this`size, this`ptr, this`list
      ensures Valid() && freep != 0
      ensures forall h :: h in live ==> h in old(size) && h in size && size[h] == old(size)[h]
      ensures old(freep) != 0 ==> freep == old(freep) && size == old(size) && ptr == old(ptr) && list == old(list)
      ensures forall h, n :: n > 0 && Fits(old(size), old(list), h, n) ==> Fits(size, list, h, n)
    {
      if freep == 0 {
        ptr, size := map[BASE := BASE], map[BASE := 0];
        list := [BASE];
        freep := BASE;
        assert Link(list, ptr, 0) && Gap(size, list, 0);
        assert forall i {:trigger Link(list, ptr, i)} :: 0 <= i < |list| ==> i == 0;
      } else {
        LiveIn(size, ptr, list, own, live, brk);
      }
    }

    /** malloc's block: p itself if it fits exactly, else its tail. */
    method Take(prevp: nat, p: nat, nunits: nat, ghost i: nat) returns (r: nat)
      requires Good(size, ptr, list, own, live, brk) && 0 < nunits && i < |list| && list[i] == prevp &&
               p == NextOf(list, i)
      requires p in size && size[p] >= nunits && own.Keys == Supplied(calls)
      modifies this`size, this`ptr, this`freep, this`list, this`own, this`live
      ensures Valid() && freep == prevp && r > 0 && r - 1 !in old(live) && live == old(live) + {r - 1} &&
              r - 1 in size && size[r - 1] == nunits
      ensures forall h :: h in old(live) ==> h in old(size) && h in size && size[h] == old(size)[h]
      ensures own.Keys == old(own).Keys
    {
      hide Good, Give, Remove, Supplied;
      LiveIn(size, ptr, list, own, live, brk);
      NotBase(size, ptr, list, own, live, brk, i, nunits);
      GoodRing(size, ptr, list, own, live, brk);
      RingIn(list, ptr, prevp);
      var b := p;
      if size[p] == nunits {
        TakeWhole(size, ptr, list, own, live, brk, i);
        ptr := ptr[prevp := ptr[p]];
        list := Remove(list, i);
      } else {
        b := p + (size[p] - nunits);
        TakeTail(size, ptr, list, own, live, brk, p, nunits, b);
        own := Give(own, b, b + nunits, b);
        size := size[p := size[p] - nunits][b := nunits];
      }
      live := live + {b};
      freep := prevp;
      return b + 1;
    }

    /** malloc: a block of its own for the request, of exactly the units it needs. sbrk is asked at most once, and only
        when no free block is large enough; the result is 0 exactly when it then refuses. No other live block
        changes. */
    method Malloc(nbytes: nat) returns (r: nat)
      requires Valid() && nbytes <= MAXREQUEST
      modifies this
      ensures Valid()
      ensures r == 0 ==> live == old(live) && old(calls) < calls && calls[|old(calls)|] == Refused(Asked(Units(nbytes)))
      ensures r == 0 ==> forall h :: !Fits(size, list, h, Units(nbytes))
      ensures r == 0 && old(freep) != 0 ==>
              size == old(size) && ptr == old(ptr) && list == old(list) && freep == old(freep)
      ensures r != 0 ==> r - 1 !in old(live) && live == old(live) + {r - 1} && r - 1 in size &&
                         size[r - 1] == Units(nbytes)
      ensures r != 0 && calls != old(calls) ==> old(calls) < calls && calls[|old(calls)|].Granted?
      ensures calls != old(calls) ==>
              |calls| == |old(calls)| + 1 && forall h :: !Fits(old(size), old(list), h, Units(nbytes))
      ensures forall h :: h in old(live) ==> h in old(size) && h in size && size[h] == old(size)[h]
    {
      hide Good, Fits, Units, Ring, Step, Dist, Supplied, Scanned;
      UnitsBound(nbytes);
      var nunits := Units(nbytes);
      Start();
      var prevp := freep;
      GoodRing(size, ptr, list, own, live, brk);
      ghost var grown, j, i := false, IndexOf(list, freep), IndexOf(list, freep);
      NoneScanned(size, list, i, nunits);
      LinkAt(list, ptr, i);
      var p := ptr[prevp];
      label Started:
      while true
        invariant Good(size, ptr, list, own, live, brk) && Ring(list, ptr) && freep != 0 && own.Keys == Supplied(calls)
        invariant 0 <= i < |list| && 0 <= j < |list| && list[j] == freep && prevp == list[i] && p == NextOf(list, i)
        invariant live == old(live) && forall h :: h in live ==> h in old(size) && h in size && size[h] == old(size)[h]
        invariant !grown ==> calls == old(calls) && size == old@Started(size) && ptr == old@Started(ptr)
        invariant !grown ==> list == old@Started(list) && freep == old@Started(freep)
        invariant !grown ==> Scanned(size, list, i, j, nunits)
        invariant grown ==> Fits(size, list, freep, nunits) || Fits(size, list, p, nunits)
        invariant grown ==> |calls| == |old(calls)| + 1 && old(calls) < calls && calls[|old(calls)|].Granted?
        invariant grown ==> forall h :: !Fits(old(size), old(list), h, nunits)
        decreases !grown, Dist(|list|, Step(|list|, i), j)
      {
        GoodRing(size, ptr, list, own, live, brk);
        NextIn(list, i, j);
        if size[p] >= nunits {
          r := Take(prevp, p, nunits, i);
          return;
        }
        FitsSize(size, list, p, nunits);
        if p == freep {
          AllScanned(size, list, i, j, nunits);
          p := Morecore(nunits);
          if p == 0 {
            return 0;
          }
          grown := true;
          GoodRing(size, ptr, list, own, live, brk);
          i, j := IndexOf(list, freep), IndexOf(list, freep);
        } else {
          ScanOne(size, list, i, j, nunits);
          i := Step(|list|, i);
        }
        prevp := p;
        LinkAt(list, ptr, i);
        p := ptr[p];
      }
    }
  }

  /** The blocks malloc has passed, from the one after position j up to position i, are too small. */
  ghost predicate Scanned(size: map<nat, nat>, list: seq<nat>, i: nat, j: nat, n: nat)
    requires i < |list| && j < |list|
  {
    forall k :: 0 <= k < |list| && Dist(|list|, k, j) > Dist(|list|, Step(|list|, i), j) ==>
           !Fits(size, list, list[k], n)
  }

  lemma NoneScanned(size: map<nat, nat>, list: seq<nat>, j: nat, n: nat)
    requires j < |list|
    ensures Scanned(size, list, j, j, n)
  {
  }

  lemma ScanOne(size: map<nat, nat>, list: seq<nat>, i: nat, j: nat, n: nat)
    requires i < |list| && j < |list| && Ascending(list) && !Fits(size, list, NextOf(list, i), n) &&
             NextOf(list, i) != list[j]
    ensures Scanned(size, list, i, j, n) ==> Scanned(size, list, Step(|list|, i), j, n)
  {
  }

  lemma AllScanned(size: map<nat, nat>, list: seq<nat>, i: nat, j: nat, n: nat)
    requires i < |list| && j < |list| && Ascending(list) && !Fits(size, list, NextOf(list, i), n) &&
             NextOf(list, i) == list[j]
    ensures Scanned(size, list, i, j, n) ==> forall h :: !Fits(size, list, h, n)
  {
    if Scanned(size, list, i, j, n) {
      forall h ensures !Fits(size, list, h, n) {
        if h in list {
          var k := IndexOf(list, h);
          assert Dist(|list|, k, j) >= 0;
        }
      }
    }
  }

  ghost function IndexOf(list: seq<nat>, h: nat): (i: nat)
    requires h in list
    ensures i < |list| && list[i] == h
  {
    var i :| 0 <= i < |list| && list[i] == h; i
  }

  lemma UnitsBound(nbytes: nat)
    requires nbytes <= MAXREQUEST
    ensures 0 < Units(nbytes) && Units(nbytes) * UNIT < U31
  {
  }

  lemma LinkAt(list: seq<nat>, ptr: map<nat, nat>, i: nat)
    requires Ring(list, ptr) && i < |list|
    ensures list[i] in ptr && ptr[list[i]] == NextOf(list, i) && list[i] != 0
  {
    assert Link(list, ptr, i);
  }

  /** Where the next block is, and that going there comes closer to position j unless it is there. */
  lemma NextIn(list: seq<nat>, i: nat, j: nat)
    requires i < |list| && j < |list| && Ascending(list)
    ensures Step(|list|, i) < |list| && list[Step(|list|, i)] == NextOf(list, i) && NextOf(list, i) in list
    ensures NextOf(list, i) != list[j] ==>
            Dist(|list|, Step(|list|, Step(|list|, i)), j) < Dist(|list|, Step(|list|, i), j)
  {
  }

  lemma FitsSize(size: map<nat, nat>, list: seq<nat>, h: nat, n: nat)
    requires h in size && size[h] < n
    ensures !Fits(size, list, h, n)
  {
  }

  /** A block that fits is not base, so it does not wrap around. */
  lemma NotBase(size: map<nat, nat>, ptr: map<nat, nat>, list: seq<nat>, own: map<nat, nat>, live: set<nat>, brk: nat,
                i: nat, n: nat)
    requires Good(size, ptr, list, own, live, brk) && i < |list| && NextOf(list, i) in size &&
             size[NextOf(list, i)] >= n > 0
    ensures i + 1 < |list| && NextOf(list, i) == list[i + 1] && list[i + 1] in list && list[i + 1] > BASE
  {
  }

  lemma FitsLess(size: map<nat, nat>, list: seq<nat>, h: nat, n: nat, m: nat)
    requires m <= n
    ensures Fits(size, list, h, n) ==> Fits(size, list, h, m)
  {
  }

  /** New memory counts as handed out until it is freed. */
  lemma GrowGood(size: map<nat, nat>, ptr: map<nat, nat>, list: seq<nat>, own: map<nat, nat>, live: set<nat>, brk: nat,
                 h: nat, n: nat, brk': nat)
    requires Good(size, ptr, list, own, live, brk) && brk <= h && 0 < n && brk' == h + n
    ensures Good(size[h := n], ptr, list, Give(own, h, h + n, h), live + {h}, brk') && h !in size && h !in live
    ensures Give(own, h, h + n, h).Keys == own.Keys + Span(h, n)
  {
    hide Give;
    Grow(size, own, brk, h, n);
    var size' := size[h := n];
    forall j | 0 <= j < |list| ensures Gap(size', list, j) {
      assert Gap(size, list, j) && list[j] in list;
    }
    assert h !in live;
    var own' := Give(own, h, h + n, h);
    forall u | u in own' ensures u < brk' {
      assert u in own || h <= u < h + n;
    }
  }

  lemma LiveIn(size: map<nat, nat>, ptr: map<nat, nat>, list: seq<nat>, own: map<nat, nat>, live: set<nat>, brk: nat)
    requires Good(size, ptr, list, own, live, brk)
    ensures forall h :: h in live ==> h in size && h !in list
  {
  }

  lemma GoodRing(size: map<nat, nat>, ptr: map<nat, nat>, list: seq<nat>, own: map<nat, nat>, live: set<nat>, brk: nat)
    requires Good(size, ptr, list, own, live, brk)
    ensures Ring(list, ptr) && forall h :: h in list ==> h in size
  {
  }

  lemma RingIn(list: seq<nat>, ptr: map<nat, nat>, h: nat)
    requires Ring(list, ptr) && h in list
    ensures h in ptr && ptr[h] in list && h >= BASE
  {
    var i :| 0 <= i < |list| && list[i] == h;
    assert Link(list, ptr, i);
  }

  lemma GoodParts(size: map<nat, nat>, ptr: map<nat, nat>, list: seq<nat>, own: map<nat, nat>, live: set<nat>, brk: nat,
                  b: nat)
    requires Good(size, ptr, list, own, live, brk) && b in live
    ensures Ring(list, ptr) && b > BASE && b !in list && b in size && Ascending(list)
    ensures forall h :: h in live ==> h in size && h !in list
  {
    assert list[0] in list;
  }

  lemma GoodPtr(size: map<nat, nat>, ptr: map<nat, nat>, ptr': map<nat, nat>, list: seq<nat>, own: map<nat, nat>,
                live: set<nat>, brk: nat)
    requires Good(size, ptr, list, own, live, brk) && forall h :: h in ptr && h in list ==>
             h in ptr' && ptr'[h] == ptr[h]
    ensures Good(size, ptr', list, own, live, brk)
  {
    hide Tiled, Apart;
    RingSame(list, ptr, ptr');
  }

  /** The exits of free's search are exactly the place of bp. */
  lemma LastPlace(list: seq<nat>, ptr: map<nat, nat>, j: nat, bp: nat)
    requires Ring(list, ptr) && j < |list| && Link(list, ptr, j) && bp > BASE
    ensures (bp > list[j] && bp < ptr[list[j]]) || (list[j] >= ptr[list[j]] && (bp > list[j] || bp < ptr[list[j]])) ==>
            Place(list, j, bp)
  {
  }

  lemma NotPlace(list: seq<nat>, ptr: map<nat, nat>, j: nat, i: nat, bp: nat)
    requires Ring(list, ptr) && j < |list| && Link(list, ptr, j) && bp > BASE && Place(list, i, bp)
    requires !(bp > list[j] && bp < ptr[list[j]]) && !(list[j] >= ptr[list[j]] && (bp > list[j] || bp < ptr[list[j]]))
    ensures j != i
  {
  }
}
