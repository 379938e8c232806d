/** Address spaces: page-table walks, mapping, unmapping, growth, copying and teardown. */
module Vm {
  import opened Kalloc
  import opened Sv39

  /** An address space held in memory: its tables and the user pages it owns are in use, and disjoint. */
  ghost predicate Space(mem: Memory, used: set<nat>, t: Tree) {
    && Rep(mem, t) && Owns(t)
    && (forall p :: p in t.at ==> p in used)
    && (forall p :: p in t.own ==> p in used)
  }

  /** Nothing but pages of s changed, and the other pages in use still are. */
  ghost predicate Kept(mem: Memory, used: set<nat>, mem': Memory, used': set<nat>, s: set<nat>) {
    forall p :: p in used && p !in s ==> p in used' && p in mem && p in mem' && mem'[p] == mem[p]
  }

  /** An address space with other pages is not affected. */
  lemma SpaceKept(mem: Memory, used: set<nat>, mem': Memory, used': set<nat>, s: set<nat>, t: Tree)
    requires Space(mem, used, t) && Kept(mem, used, mem', used', s) && t.at.Keys !! s && t.own.Keys !! s
    ensures Space(mem', used', t)
  {
    assert forall p :: p in t.at ==> p in t.at.Keys && p !in s;
    assert forall p :: p in t.own ==> p in t.own.Keys && p !in s;
    RepFrame(mem, mem', t);
  }

  // ------------------------------------------------------------------------------------------------------------------
  // walk
  // ------------------------------------------------------------------------------------------------------------------

  /** What a walk finds: nothing, an entry of a level-0 table, or an address past MAXVA. */
  datatype Walked = Panic | Missing | Slot(page: nat, index: nat)

  /** The table a walk for page v has reached when it is about to look at this level. */
  ghost predicate Reached(t: Tree, v: nat, level: nat, page: nat) {
    if level == 2 then page == t.root
    else if level == 1 then v / 512 / 512 in t.l1 && page == t.l1[v / 512 / 512]
    else level == 0 && v / 512 in t.l0 && page == t.l0[v / 512]
  }

  lemma Digits(v: nat)
    requires v < MAXVPN
    ensures v / 512 / 512 < 512 && v / 512 / 512 * 512 + v / 512 % 512 == v / 512
    ensures Px(2, v) == v / 512 / 512
  {
  }

  lemma ChildValid(m: map<nat, nat>, i: nat)
    ensures Valid(Child(m, i)) <==> i in m
    ensures i in m ==> PageOf(Child(m, i)) == m[i]
  {
    if i in m {
      PteParts(m[i], PTE_V);
      hide Pte;
    }
  }

  /** The entry a walk looks at on its way. */
  lemma WalkRow(mem: Memory, t: Tree, v: nat, level: nat, page: nat)
    requires Rep(mem, t) && v < MAXVPN && 1 <= level <= 2 && Reached(t, v, level, page)
    ensures page in t.at && page in mem
    ensures mem[page][Px(level, v)] == if level == 2 then Child(t.l1, v / 512 / 512) else Child(t.l0, v / 512)
  {
    Digits(v);
    if level == 1 {
      assert MidRow(mem, t, v / 512 / 512);
      assert mem[page][v / 512 % 512] == Child(t.l0, v / 512 / 512 * 512 + v / 512 % 512);
    }
  }

  /** It is the child table or empty. */
  lemma WalkEntry(mem: Memory, t: Tree, v: nat, level: nat, page: nat)
    requires Rep(mem, t) && v < MAXVPN && 1 <= level <= 2 && Reached(t, v, level, page)
    ensures page in t.at && page in mem
    ensures var pte := mem[page][Px(level, v)];
            if Valid(pte) then Reached(t, v, level - 1, PageOf(pte))
            else if level == 2 then v / 512 / 512 !in t.l1 else v / 512 !in t.l0
  {
    WalkRow(mem, t, v, level, page);
    ChildValid(t.l1, v / 512 / 512);
    ChildValid(t.l0, v / 512);
    hide Child, Px, Rep, Valid;
  }

  /** The tree with the table a walk adds below this level. */
  ghost function Add(t: Tree, v: nat, level: nat, p: nat): Tree {
    if level == 2 then AddMid(t, v / 512 / 512, p) else AddLow(t, v / 512, p)
  }

  lemma AddOther(t: Tree, v: nat, level: nat, p: nat)
    ensures level == 2 ==> Add(t, v, level, p).l0 == t.l0
  {
  }

  lemma AddRep(mem: Memory, t: Tree, v: nat, level: nat, page: nat, p: nat)
    requires Rep(mem, t) && v < MAXVPN && 1 <= level <= 2 && Reached(t, v, level, page)
    requires p !in t.at && p in mem && mem[p] == Fill(0)
    requires if level == 2 then v / 512 / 512 !in t.l1 else v / 512 !in t.l0
    ensures page in mem && Rep(mem[page := mem[page][Px(level, v) := Pte(p, PTE_V)]], Add(t, v, level, p))
    ensures Reached(Add(t, v, level, p), v, level - 1, p)
  {
    assert v / 512 / 512 < 512;
    if level == 2 {
      AddMidRep(mem, t, v / 512 / 512, p);
    } else {
      AddLowRep(mem, t, v / 512, p);
    }
  }

  /** The tables of t are among those of t', and the added ones were not in use. */
  ghost predicate Tables(used: set<nat>, used': set<nat>, t: Tree, t': Tree) {
    && t'.root == t.root
    && (forall p :: p in t.at ==> p in t'.at)
    && (forall p :: p in t'.at && p !in t.at ==> p !in used)
    && used' == used + t'.at.Keys
  }

  /** Only tables were added between t and t': same entries, same user pages. */
  ghost predicate Extended(used: set<nat>, used': set<nat>, t: Tree, t': Tree) {
    t'.leaf == t.leaf && t'.own == t.own && Tables(used, used', t, t')
  }

  lemma AddTree(used: set<nat>, t: Tree, v: nat, level: nat, p: nat)
    requires Owns(t) && p !in used && p !in t.at && (forall q :: q in t.at ==> q in used) &&
             (forall q :: q in t.own ==> q in used)
    requires if level == 2 then v / 512 / 512 !in t.l1 else v / 512 !in t.l0
    ensures Owns(Add(t, v, level, p)) && Extended(used, used + {p}, t, Add(t, v, level, p))
    ensures Add(t, v, level, p).at.Keys == t.at.Keys + {p}
  {
    hide PageOf;
    assert Add(t, v, level, p).at.Keys == t.at.Keys + {p};
  }

  /** A table page just taken from the allocator is hung below this level. */
  lemma AddStep(mem: Memory, used: set<nat>, t: Tree, v: nat, level: nat, page: nat, p: nat)
    requires Space(mem, used, t) && v < MAXVPN && 1 <= level <= 2 && Reached(t, v, level, page)
    requires if level == 2 then v / 512 / 512 !in t.l1 else v / 512 !in t.l0
    requires p !in used && forall q :: q in used ==> q in mem
    ensures page in mem && page in used && page != p
    ensures var mem' := mem[p := Fill(0)][page := mem[page][Px(level, v) := Pte(p, PTE_V)]];
            var t' := Add(t, v, level, p);
            && Space(mem', used + {p}, t') && Extended(used, used + {p}, t, t') && Reached(t', v, level - 1, p)
            && Kept(mem, used, mem', used + {p}, t.at.Keys)
  {
    hide Rep, Px, Pte, Extended, Owns, Reached, Add, Valid, Leaf, Child;
    var mem1 := mem[p := Fill(0)];
    RepFrame(mem, mem1, t);
    WalkRow(mem, t, v, level, page);
    AddRep(mem1, t, v, level, page, p);
    AddTree(used, t, v, level, p);
    var t' := Add(t, v, level, p);
    assert forall q :: q in t'.at.Keys ==> q in used + {p};
    ExtendedOwn(used, used + {p}, t, t');
  }

  lemma ExtendedOwn(used: set<nat>, used': set<nat>, t: Tree, t': Tree)
    requires Extended(used, used', t, t')
    ensures t'.own == t.own && t'.leaf == t.leaf && t'.root == t.root
  {
  }

  lemma TablesTwice(u0: set<nat>, u1: set<nat>, u2: set<nat>, t0: Tree, t1: Tree, t2: Tree)
    requires Tables(u0, u1, t0, t1) && Tables(u1, u2, t1, t2)
    ensures Tables(u0, u2, t0, t2)
  {
    assert t1.at.Keys <= t2.at.Keys;
  }

  lemma ExtendedTwice(u0: set<nat>, u1: set<nat>, u2: set<nat>, t0: Tree, t1: Tree, t2: Tree)
    requires Extended(u0, u1, t0, t1) && Extended(u1, u2, t1, t2)
    ensures Extended(u0, u2, t0, t2)
  {
    TablesTwice(u0, u1, u2, t0, t1, t2);
  }

  lemma KeptTwice(m0: Memory, u0: set<nat>, m1: Memory, u1: set<nat>, m2: Memory, u2: set<nat>, s: set<nat>,
                  s': set<nat>)
    requires Kept(m0, u0, m1, u1, s) && Kept(m1, u1, m2, u2, s') && forall p :: p in s' && p in u0 ==> p in s
    ensures Kept(m0, u0, m2, u2, s)
  {
  }

  lemma Unextended(mem: Memory, used: set<nat>, t: Tree)
    requires Space(mem, used, t) && forall p :: p in used ==> p in mem
    ensures Extended(used, used, t, t) && forall s :: Kept(mem, used, mem, used, s)
  {
  }

  /** The tables an extension added were not in use before. */
  lemma TablesNew(used: set<nat>, used': set<nat>, t: Tree, t': Tree)
    requires Tables(used, used', t, t')
    ensures forall p :: p in t'.at.Keys && p in used ==> p in t.at.Keys
  {
  }

  lemma ReachedIn(mem: Memory, t: Tree, v: nat, page: nat)
    requires Rep(mem, t) && Reached(t, v, 0, page)
    ensures page in t.at
  {
  }

  /** The tables a walk for page v has had to make when it is about to look at this level. */
  ghost function Made(t: Tree, v: nat, level: nat): nat {
    (if level < 2 && v / 512 / 512 !in t.l1 then 1 else 0) + (if level < 1 && v / 512 !in t.l0 then 1 else 0)
  }

  /** The tables that page v's entry still needs. */
  ghost function Lacks(t: Tree, v: nat): nat {
    Made(t, v, 0)
  }

  lemma ReachedHas(t: Tree, v: nat, level: nat, page: nat)
    requires Reached(t, v, level, page)
    ensures (level == 1 ==> v / 512 / 512 in t.l1) && (level == 0 ==> v / 512 in t.l0)
  {
  }

  /** The step of walk that makes a missing table. */
  method AddTable(km: Kmem, ghost t: Tree, v: nat, level: nat, page: nat) returns (ok: bool, p: nat, ghost t': Tree)
    requires km.Valid() && Space(km.mem, km.used, t) && v < MAXVPN && 1 <= level <= 2 && Reached(t, v, level, page)
    requires if level == 2 then v / 512 / 512 !in t.l1 else v / 512 !in t.l0
    modifies km`mem, km`freelist, km`free, km`used
    ensures km.Valid() && Space(km.mem, km.used, t') && Extended(old(km.used), km.used, t, t')
    ensures ok ==> Reached(t', v, level - 1, p)
    ensures if ok then |km.free| + 1 == |old(km.free)| else km.free == old(km.free) == []
    ensures level == 2 ==> t'.l0 == t.l0
    ensures Kept(old(km.mem), old(km.used), km.mem, km.used, t.at.Keys)
  {
    hide Rep, Owns, Conserved, Extended, Kept, Reached, Add, Space, Px, Pte;
    ConservedUsed(km.mem, km.freelist, km.free, km.used, km.lo, km.hi);
    Unextended(km.mem, km.used, t);
    ok, p := km.Kalloc();
    if !ok {
      return false, 0, t;
    }
    AddStep(old(km.mem), old(km.used), t, v, level, page, p);
    km.SetPage(p, Fill(0));
    km.Store(page, Px(level, v), Pte(p, PTE_V));
    t' := Add(t, v, level, p);
    AddOther(t, v, level, p);
    assert km.mem == old(km.mem)[p := Fill(0)][page := old(km.mem)[page][Px(level, v) := Pte(p, PTE_V)]];
  }

  /** walk: the place of page v's entry, with the tables on the way made if alloc says so.
      No translation changes. It gives up exactly where a table is missing and may not be made, or there are fewer free
      pages than missing tables; otherwise exactly those are taken. */
  method Walk(km: Kmem, root: nat, ghost t: Tree, v: nat, alloc: bool) returns (r: Walked, ghost t': Tree)
    requires km.Valid() && Space(km.mem, km.used, t) && root == t.root
    modifies km`mem, km`freelist, km`free, km`used
    ensures km.Valid() && Space(km.mem, km.used, t') && Extended(old(km.used), km.used, t, t')
    ensures r.Panic? <==> v >= MAXVPN
    ensures r.Slot? ==> Reached(t', v, 0, r.page) && r.page in t'.at && r.index == v % 512
    ensures r.Missing? && alloc ==> km.free == [] && |old(km.free)| <= 1
    ensures v < MAXVPN && alloc ==> (r.Missing? <==> |old(km.free)| < Lacks(t, v))
    ensures r.Slot? && alloc ==> |km.free| + Lacks(t, v) == |old(km.free)|
    ensures v < MAXVPN && !alloc ==> (r.Missing? <==> v / 512 !in t.l0)
    ensures !alloc ==> t' == t && km.mem == old(km.mem) && km.used == old(km.used) && km.free == old(km.free)
    ensures |km.free| <= |old(km.free)| <= |km.free| + 2
    ensures Kept(old(km.mem), old(km.used), km.mem, km.used, t.at.Keys)
  {
    t' := t;
    ConservedUsed(km.mem, km.freelist, km.free, km.used, km.lo, km.hi);
    Unextended(km.mem, km.used, t);
    assert Reached(t, v, 2, root);
    LowMid(km.mem, t, v);
    hide Rep, Owns, Conserved, Extended, Kept, Reached;
    if v >= MAXVPN {
      return Panic, t';
    }
    var page: nat := root;
    var level: nat := 2;
    while level > 0
      invariant 0 <= level <= 2 && Reached(t', v, level, page)
      invariant km.Valid() && Space(km.mem, km.used, t') && Extended(old(km.used), km.used, t, t')
      invariant !alloc ==> t' == t && km.mem == old(km.mem) && km.used == old(km.used) && km.free == old(km.free)
      invariant |km.free| <= |old(km.free)| <= |km.free| + 2 - level
      invariant alloc ==> |km.free| + Made(t, v, level) == |old(km.free)|
      invariant (level == 2 ==> t' == t) && (level >= 1 ==> t'.l0 == t.l0)
      invariant !alloc && level < 2 ==> v / 512 / 512 in t.l1 && (level < 1 ==> v / 512 in t.l0)
      invariant Kept(old(km.mem), old(km.used), km.mem, km.used, t.at.Keys)
    {
      WalkEntry(km.mem, t', v, level, page);
      var pte := km.mem[page][Px(level, v)];
      if Valid(pte) {
        page := PageOf(pte);
        ReachedHas(t', v, level - 1, page);
      } else {
        if !alloc {
          return Missing, t';
        }
        ghost var mem1: Memory, used1: set<nat>, t1 := km.mem, km.used, t';
        var ok, p, t2 := AddTable(km, t', v, level, page);
        ExtendedTwice(old(km.used), used1, km.used, t, t1, t2);
        TablesNew(old(km.used), used1, t, t1);
        KeptTwice(old(km.mem), old(km.used), mem1, used1, km.mem, km.used, t.at.Keys, t1.at.Keys);
        t' := t2;
        if !ok {
          return Missing, t';
        }
        page := p;
      }
      level := level - 1;
    }
    ReachedIn(km.mem, t', v, page);
    return Slot(page, v % 512), t';
  }

  /** The entry a finished walk points at. */
  lemma SlotEntry(mem: Memory, t: Tree, v: nat, page: nat)
    requires Rep(mem, t) && Reached(t, v, 0, page)
    ensures page in mem && page in t.at && mem[page][v % 512] == Entry(t.leaf, v)
    ensures if v in t.leaf then v < MAXVPN && Valid(mem[page][v % 512]) && Leaf(mem[page][v % 512])
            else !Valid(mem[page][v % 512])
  {
    assert LowRow(mem, t, v / 512);
    assert v / 512 * 512 + v % 512 == v;
  }

  function Word(mem: Memory, p: nat, i: nat): nat
    requires i < WORDS
  {
    if p in mem then mem[p][i] else 0
  }

  /** The translation the hardware finds for page v, reading three tables; 0 if there is none. */
  function Translate(mem: Memory, root: nat, v: nat): nat {
    var e2 := Word(mem, root, Px(2, v));
    if !Valid(e2) then 0 else
    var e1 := Word(mem, PageOf(e2), Px(1, v));
    if !Valid(e1) then 0 else
    var e0 := Word(mem, PageOf(e1), Px(0, v));
    if Valid(e0) then e0 else 0
  }

  /** What the hardware finds is the plain map. */
  lemma TranslateIsMap(mem: Memory, t: Tree, v: nat)
    requires Rep(mem, t) && v < MAXVPN
    ensures Translate(mem, t.root, v) == Entry(t.leaf, v)
  {
    hide Rep, Valid, Leaf, PageOf;
    LeafLow(mem, t);
    LowMid(mem, t, v);
    WalkEntry(mem, t, v, 2, t.root);
    var e2 := mem[t.root][Px(2, v)];
    if Valid(e2) {
      WalkEntry(mem, t, v, 1, PageOf(e2));
      var e1 := mem[PageOf(e2)][Px(1, v)];
      if Valid(e1) {
        SlotEntry(mem, t, v, PageOf(e1));
      }
    }
  }

  lemma LowMid(mem: Memory, t: Tree, v: nat)
    requires Rep(mem, t)
    ensures v / 512 in t.l0 ==> v / 512 / 512 in t.l1
  {
  }

  /** walkaddr: the table lookup is the plain map, restricted to pages the user may touch. */
  method Walkaddr(km: Kmem, root: nat, ghost t: Tree, va: nat) returns (ok: bool, p: nat)
    requires km.Valid() && Space(km.mem, km.used, t) && root == t.root
    modifies km`mem, km`freelist, km`free, km`used
    ensures ok <==> va / PGSIZE in t.leaf && t.leaf[va / PGSIZE] / PTE_U % 2 == 1
    ensures ok ==> p == PageOf(t.leaf[va / PGSIZE])
    ensures km.mem == old(km.mem) && km.used == old(km.used) && km.free == old(km.free) && km.Valid()
  {
    var v := va / PGSIZE;
    var r, _ := Walk(km, root, t, v, false);
    if !r.Slot? {
      return false, 0;
    }
    SlotEntry(km.mem, t, v, r.page);
    var pte := km.mem[r.page][r.index];
    if !Valid(pte) || pte / PTE_U % 2 == 0 {
      return false, 0;
    }
    return true, PageOf(pte);
  }

  // ------------------------------------------------------------------------------------------------------------------
  // mappages
  // ------------------------------------------------------------------------------------------------------------------

  datatype Mapped = Done | NoMemory | Panicked

  function WithV(perm: nat): nat {
    if perm % 2 == 1 then perm else perm + 1
  }

  /** Flags of an entry that maps a page. */
  predicate Mappable(flags: nat) {
    flags < 1024 && Valid(flags) && Leaf(flags)
  }

  /** n pages from p on mapped from v on. */
  ghost function MapRange(leaf: map<nat, nat>, v: nat, p: nat, flags: nat, n: nat): map<nat, nat>
  {
    if n == 0 then leaf else MapRange(leaf, v, p, flags, n - 1)[v + n - 1 := Pte(p + n - 1, flags)]
  }

  /** None of the n pages from v on is mapped. */
  ghost predicate Absent(leaf: map<nat, nat>, v: nat, n: nat) {
    forall w :: v <= w < v + n ==> w !in leaf
  }

  /** leaf' is leaf with n pages added, none of which was there. */
  ghost predicate Added(leaf: map<nat, nat>, leaf': map<nat, nat>, v: nat, p: nat, flags: nat, n: nat)
  {
    leaf' == MapRange(leaf, v, p, flags, n) && Absent(leaf, v, n)
  }

  lemma AddedNone(leaf: map<nat, nat>, v: nat, p: nat, flags: nat)
    ensures Added(leaf, leaf, v, p, flags, 0)
  {
  }

  lemma AddedOne(leaf: map<nat, nat>, v: nat, p: nat, flags: nat)
    requires v !in leaf
    ensures Added(leaf, leaf[v := Pte(p, flags)], v, p, flags, 1)
  {
    assert MapRange(leaf, v, p, flags, 0) == leaf;
    hide Pte;
  }

  lemma AddedNext(leaf: map<nat, nat>, m: map<nat, nat>, m': map<nat, nat>, v: nat, p: nat, flags: nat, i: nat, a: nat,
                  pa: nat)
    requires Added(leaf, m, v, p, flags, i) && a == v + i && pa == p + i
    ensures Added(m, m', a, pa, flags, 0) ==> Added(leaf, m', v, p, flags, i)
    ensures Added(m, m', a, pa, flags, 1) ==> Added(leaf, m', v, p, flags, i + 1)
  {
    MapRangeAt(leaf, v, p, flags, i, a);
    assert MapRange(m, a, pa, flags, 0) == m;
    assert MapRange(m, a, pa, flags, 1) == m[a := Pte(pa, flags)];
    hide Pte;
  }

  /** Page v cannot be mapped. */
  predicate Blocked(leaf: map<nat, nat>, v: nat) {
    v in leaf || v >= MAXVPN
  }

  lemma BlockedSame(leaf: map<nat, nat>, m: map<nat, nat>, v: nat, p: nat, flags: nat, i: nat, a: nat)
    requires Added(leaf, m, v, p, flags, i) && a == v + i
    ensures Blocked(leaf, a) == Blocked(m, a)
  {
    MapRangeAt(leaf, v, p, flags, i, a);
  }

  lemma {:induction false} MapRangeAt(leaf: map<nat, nat>, v: nat, p: nat, flags: nat, n: nat, w: nat)
    ensures var m := MapRange(leaf, v, p, flags, n);
            if v <= w < v + n then w in m && m[w] == Pte(p + (w - v), flags)
            else (w in m <==> w in leaf) && (w in m ==> m[w] == leaf[w])
  {
    if n > 0 {
      MapRangeAt(leaf, v, p, flags, n - 1, w);
    }
  }

  /** One empty entry set. */
  lemma SetStep(mem: Memory, used: set<nat>, t: Tree, v: nat, page: nat, pte: nat)
    requires Space(mem, used, t) && Reached(t, v, 0, page) && v < MAXVPN && v !in t.leaf && Valid(pte) && Leaf(pte)
    ensures page in mem
    ensures var mem' := mem[page := mem[page][v % 512 := pte]]; var t' := SetLeaf(t, v, pte);
            Space(mem', used, t') && ((forall q :: q in used ==> q in mem) ==> Kept(mem, used, mem', used, t.at.Keys))
  {
    hide PageOf, Rep;
    SlotEntry(mem, t, v, page);
    SetLeafRep(mem, t, v, pte);
    assert page in t.at.Keys;
  }

  /** The page count of a mapping request. */
  function Pages(va: nat, size: nat): nat
    requires size > 0
  {
    (va + size - 1) / PGSIZE - va / PGSIZE + 1
  }

  /** The address space grew from t to t' by tables and entries only; no other page in use changed. */
  ghost predicate Grown(mem: Memory, used: set<nat>, t: Tree, mem': Memory, used': set<nat>, t': Tree) {
    && Space(mem', used', t') && Tables(used, used', t, t') && t'.own == t.own && t'.root == t.root
    && Kept(mem, used, mem', used', t.at.Keys)
  }

  lemma GrownTwice(m0: Memory, u0: set<nat>, t0: Tree, m1: Memory, u1: set<nat>, t1: Tree, m2: Memory, u2: set<nat>,
                   t2: Tree)
    requires Grown(m0, u0, t0, m1, u1, t1) && Grown(m1, u1, t1, m2, u2, t2)
    ensures Grown(m0, u0, t0, m2, u2, t2)
  {
    TablesTwice(u0, u1, u2, t0, t1, t2);
    TablesNew(u0, u1, t0, t1);
    KeptTwice(m0, u0, m1, u1, m2, u2, t0.at.Keys, t1.at.Keys);
  }

  lemma GrownNot(mem: Memory, used: set<nat>, t: Tree)
    requires Space(mem, used, t) && forall p :: p in used ==> p in mem
    ensures Grown(mem, used, t, mem, used, t)
  {
    Unextended(mem, used, t);
  }

  lemma GrownSpace(mem: Memory, used: set<nat>, t: Tree, mem': Memory, used': set<nat>, t': Tree)
    requires Grown(mem, used, t, mem', used', t')
    ensures Space(mem', used', t') && t'.root == t.root && t'.own == t.own
  {
  }

  /** One iteration of mappages. */
  method MapPage(km: Kmem, root: nat, ghost t: Tree, v: nat, p: nat, flags: nat) returns (r: Mapped, ghost t': Tree)
    requires km.Valid() && Space(km.mem, km.used, t) && root == t.root && Mappable(flags)
    modifies km`mem, km`freelist, km`free, km`used
    ensures r.Done? ==> Mapping(old(km.mem), old(km.used), t, km.mem, km.used, t', v, p, flags, 1)
    ensures !r.Done? ==> Mapping(old(km.mem), old(km.used), t, km.mem, km.used, t', v, p, flags, 0)
    ensures km.Valid()
    ensures r.NoMemory? ==> km.free == [] && |old(km.free)| <= 1
    ensures r.NoMemory? <==> v < MAXVPN && |old(km.free)| < Lacks(t, v)
    ensures r.Panicked? <==> Blocked(t.leaf, v) && !r.NoMemory?
    ensures |km.free| <= |old(km.free)| <= |km.free| + 2
    ensures r.Done? ==> |km.free| + Lacks(t, v) == |old(km.free)|
  {
    hide Rep, Owns, Conserved, Tables, Kept, Reached, Valid, Leaf, Pte, PageOf, Made;
    var w, t1 := Walk(km, root, t, v, true);
    t' := t1;
    TablesRoot(old(km.used), km.used, t, t');
    AddedNone(t.leaf, v, p, flags);
    if w.Panic? {
      return Panicked, t';
    }
    if w.Missing? {
      return NoMemory, t';
    }
    SlotEntry(km.mem, t', v, w.page);
    if Valid(km.mem[w.page][w.index]) {
      return Panicked, t';
    }
    ghost var mem1: Memory, used1: set<nat> := km.mem, km.used;
    var pte := Pte(p, flags);
    PteParts(p, flags);
    SetStep(km.mem, km.used, t', v, w.page, pte);
    ConservedUsed(km.mem, km.freelist, km.free, km.used, km.lo, km.hi);
    km.Store(w.page, w.index, pte);
    TablesNew(old(km.used), used1, t, t');
    KeptTwice(old(km.mem), old(km.used), mem1, used1, km.mem, km.used, t.at.Keys, t'.at.Keys);
    TablesSet(old(km.used), km.used, t, t', v, pte);
    AddedOne(t.leaf, v, p, flags);
    t' := SetLeaf(t', v, pte);
    return Done, t';
  }

  lemma LeafWithV(perm: nat)
    requires perm < 1024
    ensures WithV(perm) < 1024 && Valid(WithV(perm)) && Leaf(WithV(perm)) == Leaf(perm)
  {
  }

  lemma TablesSet(used: set<nat>, used': set<nat>, t: Tree, t': Tree, v: nat, pte: nat)
    requires Tables(used, used', t, t')
    ensures Tables(used, used', t, SetLeaf(t', v, pte))
  {
  }

  /** The address space grew by n entries from v on. */
  ghost predicate Mapping(mem: Memory, used: set<nat>, t: Tree, mem': Memory, used': set<nat>, t': Tree, v: nat, p: nat,
                          flags: nat, n: nat) {
    Grown(mem, used, t, mem', used', t') && Added(t.leaf, t'.leaf, v, p, flags, n)
  }

  lemma MappingNone(mem: Memory, used: set<nat>, t: Tree, v: nat, p: nat, flags: nat)
    requires Space(mem, used, t) && forall p :: p in used ==> p in mem
    ensures Mapping(mem, used, t, mem, used, t, v, p, flags, 0)
  {
    GrownNot(mem, used, t);
    AddedNone(t.leaf, v, p, flags);
  }

  lemma MappingNext(m0: Memory, u0: set<nat>, t0: Tree, m1: Memory, u1: set<nat>, t1: Tree, m2: Memory, u2: set<nat>,
                    t2: Tree, v: nat, p: nat, flags: nat, i: nat, a: nat, pa: nat, k: nat)
    requires Mapping(m0, u0, t0, m1, u1, t1, v, p, flags, i) && Mapping(m1, u1, t1, m2, u2, t2, a, pa, flags, k)
    requires a == v + i && pa == p + i && k <= 1
    ensures Mapping(m0, u0, t0, m2, u2, t2, v, p, flags, i + k) && Blocked(t0.leaf, a) == Blocked(t1.leaf, a)
  {
    hide Grown, Added, Blocked;
    GrownTwice(m0, u0, t0, m1, u1, t1, m2, u2, t2);
    AddedNext(t0.leaf, t1.leaf, t2.leaf, v, p, flags, i, a, pa);
    BlockedSame(t0.leaf, t1.leaf, v, p, flags, i, a);
  }

  lemma MappingSpace(mem: Memory, used: set<nat>, t: Tree, mem': Memory, used': set<nat>, t': Tree, v: nat, p: nat,
                     flags: nat, n: nat)
    requires Mapping(mem, used, t, mem', used', t', v, p, flags, n)
    ensures Space(mem', used', t') && t'.root == t.root
  {
  }

  /** The loop of mappages, from page v to page last. */
  method MapPages(km: Kmem, root: nat, ghost t: Tree, v: nat, last: nat, p: nat, flags: nat)
    returns (r: Mapped, ghost i: nat, ghost stop: nat, ghost t': Tree)
    requires km.Valid() && Space(km.mem, km.used, t) && root == t.root && Mappable(flags) && v <= last
    modifies km`mem, km`freelist, km`free, km`used
    ensures km.Valid() && Mapping(old(km.mem), old(km.used), t, km.mem, km.used, t', v, p, flags, i)
    ensures stop == v + i
    ensures r.Done? ==> stop == last + 1
    ensures r.NoMemory? ==> stop <= last && km.free == [] && |old(km.free)| <= 2 * i + 1
    ensures r.Panicked? ==> stop <= last && Blocked(t.leaf, stop)
    ensures r.Done? ==> |km.free| <= |old(km.free)| <= |km.free| + 2 * i
    ensures v == last ==> (r.NoMemory? <==> v < MAXVPN && |old(km.free)| < Lacks(t, v))
    ensures v == last && r.Done? ==> |km.free| + Lacks(t, v) == |old(km.free)|
  {
    hide Conserved, Space, Rep, Mapping, Mappable, Blocked, Made;
    i, stop, t' := 0, v, t;
    var a, pa := v, p;
    ConservedUsed(km.mem, km.freelist, km.free, km.used, km.lo, km.hi);
    MappingNone(km.mem, km.used, t, v, p, flags);
    while true
      invariant a == v + i && stop == a && v <= a <= last && pa == p + i
      invariant km.Valid() && Mapping(old(km.mem), old(km.used), t, km.mem, km.used, t', v, p, flags, i)
      invariant |km.free| <= |old(km.free)| <= |km.free| + 2 * i
      invariant i == 0 ==> t' == t && km.free == old(km.free)
      decreases last - a
    {
      MappingSpace(old(km.mem), old(km.used), t, km.mem, km.used, t', v, p, flags, i);
      ghost var mem1: Memory, used1: set<nat>, t1 := km.mem, km.used, t';
      r, t' := MapPage(km, root, t', a, pa, flags);
      if !r.Done? {
        MappingNext(old(km.mem), old(km.used), t, mem1, used1, t1, km.mem, km.used, t', v, p, flags, i, a, pa, 0);
        return;
      }
      MappingNext(old(km.mem), old(km.used), t, mem1, used1, t1, km.mem, km.used, t', v, p, flags, i, a, pa, 1);
      i, stop := i + 1, a + 1;
      if a == last {
        return;
      }
      a, pa := a + 1, pa + 1;
    }
  }

  /** mappages: on success exactly the pages of the request are added to the map; without memory for a table, the ones
      before it. It panics only over an empty request, a page already mapped or one past MAXVA. */
  method Mappages(km: Kmem, root: nat, ghost t: Tree, va: nat, size: nat, p: nat, perm: nat)
    returns (r: Mapped, ghost i: nat, ghost stop: nat, ghost t': Tree)
    requires km.Valid() && Space(km.mem, km.used, t) && root == t.root && perm < 1024 && Leaf(perm)
    modifies km`mem, km`freelist, km`free, km`used
    ensures km.Valid() && Mapping(old(km.mem), old(km.used), t, km.mem, km.used, t', va / PGSIZE, p, WithV(perm), i)
    ensures stop == va / PGSIZE + i
    ensures r.Done? ==> size > 0 && i == Pages(va, size)
    ensures r.NoMemory? ==> size > 0 && i < Pages(va, size) && km.free == [] && |old(km.free)| <= 2 * i + 1
    ensures r.Panicked? ==> size == 0 || (i < Pages(va, size) && Blocked(t.leaf, stop))
    ensures r.Done? ==> |km.free| <= |old(km.free)| <= |km.free| + 2 * i
    ensures size > 0 && Pages(va, size) == 1 ==>
            (r.NoMemory? <==> va / PGSIZE < MAXVPN && |old(km.free)| < Lacks(t, va / PGSIZE))
    ensures r.Done? && Pages(va, size) == 1 ==> |km.free| + Lacks(t, va / PGSIZE) == |old(km.free)|
  {
    hide Conserved, Leaf, Pte, WithV, Space, Rep, Kept, Tables, Grown, Made;
    if size == 0 {
      ConservedUsed(km.mem, km.freelist, km.free, km.used, km.lo, km.hi);
      GrownNot(km.mem, km.used, t);
      return Panicked, 0, va / PGSIZE, t;
    }
    LeafWithV(perm);
    r, i, stop, t' := MapPages(km, root, t, va / PGSIZE, (va + size - 1) / PGSIZE, p, WithV(perm));
  }

  lemma TablesRoot(used: set<nat>, used': set<nat>, t: Tree, t': Tree)
    requires Tables(used, used', t, t')
    ensures t'.root == t.root
  {
  }

  // ------------------------------------------------------------------------------------------------------------------
  // uvmunmap
  // ------------------------------------------------------------------------------------------------------------------

  /** The owned pages not mapped in [v, v + n). */
  ghost function OwnAfter(own: map<nat, nat>, v: nat, n: nat): map<nat, nat> {
    map p | p in own && !(v <= own[p] < v + n) :: own[p]
  }

  /** The address space without the entries of [v, v + n), and without the pages there if they were freed. */
  ghost function Unmapped(t: Tree, v: nat, n: nat, free: bool): Tree {
    t.(leaf := t.leaf - Span(v, v + n), own := if free then OwnAfter(t.own, v, n) else t.own)
  }

  /** Pages to be freed are owned there; pages to be left alone are not. */
  ghost predicate MayUnmap(t: Tree, v: nat, n: nat, free: bool) {
    if free then forall w :: v <= w < v + n && w in t.leaf ==> OwnsAt(t, w)
    else forall p :: p in t.own ==> !(v <= t.own[p] < v + n)
  }

  lemma UnmappedNext(t: Tree, v: nat, n: nat, free: bool)
    requires Owns(t) && MayUnmap(t, v, n + 1, free) && v + n in t.leaf
    ensures var t1 := Unmapped(t, v, n, free);
            && v + n in t1.leaf && (free ==> OwnsAt(t1, v + n))
            && (!free ==> forall p :: p in t1.own ==> t1.own[p] != v + n)
            && Unmapped(t, v, n + 1, free) == Unmapped(t1, v + n, 1, free)
  {
    hide PageOf;
    var t1 := Unmapped(t, v, n, free);
    assert t.leaf - Span(v, v + n + 1) == t1.leaf - Span(v + n, v + n + 1);
    if free {
      assert OwnsAt(t, v + n);
      assert OwnAfter(t.own, v, n + 1) == OwnAfter(t1.own, v + n, 1);
    }
  }

  lemma ClearOwns(t: Tree, v: nat, free: bool)
    requires Owns(t) && v in t.leaf && MayUnmap(t, v, 1, free)
    ensures Owns(Unmapped(t, v, 1, free)) && Unmapped(t, v, 1, free).leaf == t.leaf - {v}
    ensures !free ==> Unmapped(t, v, 1, free).own == t.own
    ensures free ==> Unmapped(t, v, 1, free).own == t.own - {PageOf(t.leaf[v])}
    ensures free ==> PageOf(t.leaf[v]) in t.own && PageOf(t.leaf[v]) !in t.at
  {
    hide PageOf;
    var t' := Unmapped(t, v, 1, free);
    assert t'.leaf == t.leaf - {v};
    if free {
      assert OwnsAt(t, v);
    }
  }

  /** One entry cleared, its page already given back if it was to be freed. */
  lemma ClearStep(mem: Memory, used: set<nat>, mem1: Memory, used1: set<nat>, t: Tree, v: nat, page: nat, free: bool)
    requires Space(mem, used, t) && Reached(t, v, 0, page) && v in t.leaf && MayUnmap(t, v, 1, free)
    requires free ==> used1 == used - {PageOf(t.leaf[v])} && Kept(mem, used, mem1, used1, {PageOf(t.leaf[v])})
    requires !free ==> mem1 == mem && used1 == used
    ensures page in mem1 && page in used1
    ensures Space(mem1[page := mem1[page][v % 512 := 0]], used1, Unmapped(t, v, 1, free))
  {
    hide PageOf, Unmapped, Rep, Valid, Leaf, Owns;
    ClearOwns(t, v, free);
    if free {
      RepFrame(mem, mem1, t);
    }
    SlotEntry(mem1, t, v, page);
    LeafLow(mem1, t);
    SetLeafRep(mem1, t, v, 0);
    UnmappedTree(t, v, free);
    OnlyTree(mem1[page := mem1[page][v % 512 := 0]], SetLeaf(t, v, 0), Unmapped(t, v, 1, free));
  }

  lemma UnmappedTree(t: Tree, v: nat, free: bool)
    ensures Unmapped(t, v, 1, free) == SetLeaf(t, v, 0).(own := Unmapped(t, v, 1, free).own)
  {
    assert t.leaf - Span(v, v + 1) == t.leaf - {v};
  }

  /** What a table holds does not depend on which pages are owned. */
  lemma OnlyTree(mem: Memory, t: Tree, t': Tree)
    requires Rep(mem, t) && t' == t.(own := t'.own)
    ensures Rep(mem, t')
  {
    forall i2 | i2 in t'.l1 ensures MidRow(mem, t', i2) {
      assert MidRow(mem, t, i2);
    }
    forall k | k in t'.l0 ensures LowRow(mem, t', k) {
      assert LowRow(mem, t, k);
    }
  }

  /** The address space shrank from t to t': the pages it no longer owns were given back, no other page in use
      changed. */
  ghost predicate Shrunk(mem: Memory, used: set<nat>, t: Tree, mem': Memory, used': set<nat>, t': Tree) {
    && Space(mem', used', t') && t'.root == t.root && t'.at == t.at
    && (forall p :: p in t'.own ==> p in t.own)
    && (forall p :: p in used' <==> p in used && (p in t.own ==> p in t'.own))
    && Kept(mem, used - t.own.Keys, mem', used', t.at.Keys)
    && (forall p :: p in t'.own ==> p in mem && p in mem' && mem'[p] == mem[p])
  }

  lemma ShrunkTwice(m0: Memory, u0: set<nat>, t0: Tree, m1: Memory, u1: set<nat>, t1: Tree, m2: Memory, u2: set<nat>,
                    t2: Tree)
    requires Shrunk(m0, u0, t0, m1, u1, t1) && Shrunk(m1, u1, t1, m2, u2, t2)
    ensures Shrunk(m0, u0, t0, m2, u2, t2)
  {
    hide Space;
  }

  lemma ShrunkNot(mem: Memory, used: set<nat>, t: Tree)
    requires Space(mem, used, t) && forall p :: p in used ==> p in mem
    ensures Shrunk(mem, used, t, mem, used, t)
  {
    hide Rep;
  }

  lemma ShrunkSpace(mem: Memory, used: set<nat>, t: Tree, mem': Memory, used': set<nat>, t': Tree)
    requires Shrunk(mem, used, t, mem', used', t')
    ensures Space(mem', used', t') && t'.root == t.root && t'.at == t.at
  {
  }

  lemma ClearShrinks(mem: Memory, used: set<nat>, mem1: Memory, used1: set<nat>, t: Tree, v: nat, page: nat, free: bool)
    requires Space(mem, used, t) && Reached(t, v, 0, page) && v in t.leaf && MayUnmap(t, v, 1, free)
    requires free ==> used1 == used - {PageOf(t.leaf[v])} && Kept(mem, used, mem1, used1, {PageOf(t.leaf[v])})
    requires !free ==> mem1 == mem && used1 == used
    requires forall p :: p in used ==> p in mem
    ensures page in mem1 && page in used1
    ensures Shrunk(mem, used, t, mem1[page := mem1[page][v % 512 := 0]], used1, Unmapped(t, v, 1, free))
  {
    hide PageOf, Unmapped, Rep, MayUnmap, Reached, OwnsAt, Valid, Leaf, Owns;
    ClearStep(mem, used, mem1, used1, t, v, page, free);
    ClearOwns(t, v, free);
    SlotEntry(mem, t, v, page);
    UnmappedTree(t, v, free);
    OwnsApart(t);
  }

  lemma OwnsApart(t: Tree)
    requires Owns(t)
    ensures forall p :: p in t.own ==> p !in t.at
  {
  }

  /** One iteration of uvmunmap. */
  method UnmapPage(km: Kmem, root: nat, ghost t: Tree, v: nat, free: bool) returns (ok: bool)
    requires km.Valid() && Space(km.mem, km.used, t) && root == t.root && MayUnmap(t, v, 1, free)
    modifies km`mem, km`freelist, km`free, km`used
    ensures ok <==> v in t.leaf
    ensures km.Valid() && (ok ==> Shrunk(old(km.mem), old(km.used), t, km.mem, km.used, Unmapped(t, v, 1, free)))
  {
    hide Rep, Conserved, Tables, Reached, Leaf, PageOf, Unmapped, MayUnmap, Shrunk;
    var w, _ := Walk(km, root, t, v, false);
    LeafLow(km.mem, t);
    if !w.Slot? {
      return false;
    }
    SlotEntry(km.mem, t, v, w.page);
    var pte := km.mem[w.page][w.index];
    if !Valid(pte) {
      return false;
    }
    NotBare(pte);
    if Flags(pte) == PTE_V {
      return false;
    }
    ConservedUsed(km.mem, km.freelist, km.free, km.used, km.lo, km.hi);
    ClearOwns(t, v, free);
    if free {
      var _ := km.Kfree(PageOf(pte));
    }
    ClearShrinks(old(km.mem), old(km.used), km.mem, km.used, t, v, w.page, free);
    km.Store(w.page, w.index, 0);
    return true;
  }

  lemma LeafLow(mem: Memory, t: Tree)
    requires Rep(mem, t)
    ensures forall v :: v in t.leaf ==> v < MAXVPN && v / 512 in t.l0
  {
  }

  /** An entry with some of R, W and X has more flags than V. */
  lemma NotBare(pte: nat)
    ensures Leaf(pte) ==> Flags(pte) != PTE_V
  {
    if Flags(pte) == PTE_V {
      PteParts(PageOf(pte), PTE_V);
    }
  }
}
