/** User address spaces: unmapping, growing, shrinking, copying and freeing them. */
module Uvm {
  import opened Kalloc
  import opened Sets
  import opened Sv39
  import opened Vm

  const TRAPFRAME: nat := MAXVPN - 2
  const TRAMPOLINE: nat := MAXVPN - 1
  const USER_RWX: nat := 31            // V, R, W, X and U

  /** PGROUNDUP, in pages. */
  function Up(sz: nat): nat {
    (sz + 4095) / 4096
  }

  /** All n pages from v on are mapped. */
  ghost predicate Present(leaf: map<nat, nat>, v: nat, n: nat) {
    forall w :: v <= w < v + n ==> w in leaf
  }

  /** One more entry removed. */
  lemma MayUnmapNext(t: Tree, t1: Tree, v: nat, n: nat, i: nat, a: nat, free: bool)
    requires Owns(t) && MayUnmap(t, v, n, free) && i < n && a == v + i
    requires t1 == Unmapped(t, v, i, free) && Present(t.leaf, v, i)
    ensures MayUnmap(t1, a, 1, free)
    ensures a in t1.leaf ==> Unmapped(t, v, i + 1, free) == Unmapped(t1, a, 1, free) && Present(t.leaf, v, i + 1)
    ensures a !in t1.leaf ==> !Present(t.leaf, v, n)
  {
    hide PageOf;
    if a in t.leaf {
      UnmappedNext(t, v, i, free);
    }
  }

  lemma UnmappedNone(t: Tree, v: nat, free: bool)
    ensures Unmapped(t, v, 0, free) == t && Present(t.leaf, v, 0)
  {
    assert t.leaf - Span(v, v) == t.leaf;
    assert OwnAfter(t.own, v, 0) == t.own;
  }

  lemma SpaceOwns(mem: Memory, used: set<nat>, t: Tree)
    requires Space(mem, used, t)
    ensures Owns(t)
  {
  }

  /** The loop of uvmunmap. */
  method UnmapPages(km: Kmem, root: nat, ghost t: Tree, v: nat, n: nat, free: bool) returns (ok: bool)
    requires km.Valid() && Space(km.mem, km.used, t) && root == t.root && MayUnmap(t, v, n, free)
    modifies km`mem, km`freelist, km`free, km`used
    ensures ok <==> Present(t.leaf, v, n)
    ensures km.Valid() && (ok ==> Shrunk(old(km.mem), old(km.used), t, km.mem, km.used, Unmapped(t, v, n, free)))
  {
    hide Rep, Conserved, Unmapped, MayUnmap, Shrunk, Space, Owns, Present;
    ConservedUsed(km.mem, km.freelist, km.free, km.used, km.lo, km.hi);
    UnmappedNone(t, v, free);
    ShrunkNot(km.mem, km.used, t);
    SpaceOwns(km.mem, km.used, t);
    var a := v;
    ghost var i, t1 := 0, t;
    while a < v + n
      invariant 0 <= i <= n && a == v + i && km.Valid() && Present(t.leaf, v, i)
      invariant t1 == Unmapped(t, v, i, free)
      invariant Shrunk(old(km.mem), old(km.used), t, km.mem, km.used, t1)
    {
      MayUnmapNext(t, t1, v, n, i, a, free);
      ShrunkSpace(old(km.mem), old(km.used), t, km.mem, km.used, t1);
      ghost var mem1: Memory, used1: set<nat>, t2 := km.mem, km.used, Unmapped(t1, a, 1, free);
      ok := UnmapPage(km, root, t1, a, free);
      if !ok {
        return;
      }
      ShrunkTwice(old(km.mem), old(km.used), t, mem1, used1, t1, km.mem, km.used, t2);
      a, i, t1 := a + 1, i + 1, t2;
    }
    assert i == n;
    return true;
  }

  /** uvmunmap: it panics exactly when the address is not aligned or some page is not mapped; otherwise just those
      entries disappear, and with free just the pages behind them go back to the allocator. */
  method Uvmunmap(km: Kmem, root: nat, ghost t: Tree, va: nat, n: nat, free: bool) returns (ok: bool)
    requires km.Valid() && Space(km.mem, km.used, t) && root == t.root && MayUnmap(t, va / PGSIZE, n, free)
    modifies km`mem, km`freelist, km`free, km`used
    ensures ok <==> va % PGSIZE == 0 && Present(t.leaf, va / PGSIZE, n)
    ensures km.Valid() && (ok ==>
                           Shrunk(old(km.mem), old(km.used), t, km.mem, km.used, Unmapped(t, va / PGSIZE, n, free)))
  {
    hide Rep, Conserved, Unmapped, MayUnmap, Shrunk, Space, Owns;
    if va % PGSIZE != 0 {
      return false;
    }
    ok := UnmapPages(km, root, t, va / PGSIZE, n, free);
  }

  /** The page table with no entries. */
  ghost function Empty(root: nat): Tree {
    Tree(root, map[], map[], map[], map[root := Root], map[])
  }

  /** uvmcreate: an empty page table, unless there is no page for it. */
  method Uvmcreate(km: Kmem) returns (ok: bool, root: nat)
    requires km.Valid()
    modifies km`mem, km`freelist, km`free, km`used
    ensures ok <==> old(km.free) != []
    ensures !ok ==> km.used == old(km.used) && km.mem == old(km.mem)
    ensures ok ==> |km.free| + 1 == |old(km.free)|
    ensures ok ==> root !in old(km.used) && km.used == old(km.used) + {root} && Space(km.mem, km.used, Empty(root))
    ensures km.Valid() && Kept(old(km.mem), old(km.used), km.mem, km.used, {})
  {
    ConservedUsed(km.mem, km.freelist, km.free, km.used, km.lo, km.hi);
    ok, root := km.Kalloc();
    if !ok {
      return;
    }
    km.SetPage(root, Fill(0));
  }

  // ------------------------------------------------------------------------------------------------------------------
  // Adding user pages
  // ------------------------------------------------------------------------------------------------------------------

  /** The address space gained tables and owned pages that were not in use; every entry it had is as it was, and no
      page in use other than its tables changed. */
  ghost predicate Enlarged(mem: Memory, used: set<nat>, t: Tree, mem': Memory, used': set<nat>, t': Tree) {
    && Space(mem', used', t') && t'.root == t.root
    && (forall p :: p in t.at ==> p in t'.at)
    && (forall p :: p in t'.at && p !in t.at ==> p !in used)
    && (forall p :: p in t.own ==> p in t'.own && t'.own[p] == t.own[p])
    && (forall p :: p in t'.own && p !in t.own ==> p !in used)
    && (forall v :: v in t.leaf ==> v in t'.leaf && t'.leaf[v] == t.leaf[v])
    && used' == used + t'.at.Keys + t'.own.Keys
    && Kept(mem, used, mem', used', t.at.Keys)
  }

  lemma EnlargedNot(mem: Memory, used: set<nat>, t: Tree)
    requires Space(mem, used, t) && forall p :: p in used ==> p in mem
    ensures Enlarged(mem, used, t, mem, used, t)
  {
    hide Rep;
  }

  lemma EnlargedTwice(m0: Memory, u0: set<nat>, t0: Tree, m1: Memory, u1: set<nat>, t1: Tree, m2: Memory, u2: set<nat>,
                      t2: Tree)
    requires Enlarged(m0, u0, t0, m1, u1, t1) && Enlarged(m1, u1, t1, m2, u2, t2)
    ensures Enlarged(m0, u0, t0, m2, u2, t2)
  {
    hide Space;
    assert t1.at.Keys <= t2.at.Keys && t1.own.Keys <= t2.own.Keys;
    assert u2 == u0 + t2.at.Keys + t2.own.Keys;
  }

  lemma EnlargedSpace(mem: Memory, used: set<nat>, t: Tree, mem': Memory, used': set<nat>, t': Tree)
    requires Enlarged(mem, used, t, mem', used', t')
    ensures Space(mem', used', t') && t'.root == t.root
  {
  }

  /** Growing by tables only is one way to be enlarged. */
  lemma GrownEnlarges(mem: Memory, used: set<nat>, t: Tree, mem': Memory, used': set<nat>, t': Tree)
    requires Space(mem, used, t) && Grown(mem, used, t, mem', used', t') && t'.leaf == t.leaf
    ensures Enlarged(mem, used, t, mem', used', t')
  {
    hide Rep;
    assert used' == used + t'.at.Keys + t'.own.Keys;
  }

  /** The address space with page p mapped at v and owned there. */
  ghost function Take(t: Tree, v: nat, p: nat): Tree {
    t.(own := t.own[p := v])
  }

  lemma AddedOnce(leaf: map<nat, nat>, leaf': map<nat, nat>, v: nat, p: nat, flags: nat)
    requires Added(leaf, leaf', v, p, flags, 1) && flags < 1024
    ensures leaf' == leaf[v := Pte(p, flags)] && v !in leaf && PageOf(leaf'[v]) == p && Flags(leaf'[v]) == flags
  {
    PteParts(p, flags);
    assert MapRange(leaf, v, p, flags, 0) == leaf;
    assert MapRange(leaf, v, p, flags, 1) == leaf[v := Pte(p, flags)];
    hide PageOf, Pte, Flags;
  }

  lemma TakeOwns(t: Tree, t2: Tree, v: nat, p: nat, flags: nat)
    requires Owns(t2) && t2.own == t.own && t2.leaf == t.leaf[v := Pte(p, flags)] && v !in t.leaf &&
             PageOf(t2.leaf[v]) == p && p !in t2.at
    ensures Owns(Take(t2, v, p))
  {
    hide PageOf, Pte;
  }

  /** Page p, just allocated and mapped at v, becomes one of the pages owned. mem0 and used0 are from before it was
      allocated. */
  lemma TakeStep(mem0: Memory, used0: set<nat>, mem1: Memory, used1: set<nat>, t: Tree, mem2: Memory, used2: set<nat>,
                 t2: Tree, v: nat, p: nat, flags: nat)
    requires Space(mem0, used0, t) && Kept(mem0, used0, mem1, used1, {}) && p !in used0 && used1 == used0 + {p}
    requires Grown(mem1, used1, t, mem2, used2, t2)
    requires t2.leaf == t.leaf[v := Pte(p, flags)] && v !in t.leaf && PageOf(t2.leaf[v]) == p
    ensures Enlarged(mem0, used0, t, mem2, used2, Take(t2, v, p))
    ensures Take(t2, v, p).own == t.own[p := v] && p !in t.own
  {
    hide PageOf, Pte, Rep, Owns;
    TakeOwns(t, t2, v, p, flags);
    OnlyTree(mem2, t2, Take(t2, v, p));
    assert used2 == used0 + t2.at.Keys + Take(t2, v, p).own.Keys;
  }

  /** Page p could not be mapped and goes back. */
  lemma GiveBack(mem0: Memory, used0: set<nat>, mem1: Memory, used1: set<nat>, t: Tree, mem2: Memory, used2: set<nat>,
                 t2: Tree, mem3: Memory, used3: set<nat>, p: nat)
    requires Space(mem0, used0, t) && Kept(mem0, used0, mem1, used1, {}) && p !in used0 && used1 == used0 + {p}
    requires Grown(mem1, used1, t, mem2, used2, t2) && t2.leaf == t.leaf
    requires used3 == used2 - {p} && Kept(mem2, used2, mem3, used3, {p})
    ensures Grown(mem0, used0, t, mem3, used3, t2)
  {
    assert p !in t2.at;
    RepFrame(mem2, mem3, t2);
    hide Rep;
    assert used3 == used0 + t2.at.Keys;
  }

  lemma OnePage(v: nat, flags: nat)
    requires Mappable(flags)
    ensures v * PGSIZE / PGSIZE == v && Pages(v * PGSIZE, PGSIZE) == 1 && WithV(flags) == flags && flags < 1024 &&
            Leaf(flags)
  {
  }

  /** mappages for one page. */
  method MapOne(km: Kmem, root: nat, ghost t: Tree, v: nat, p: nat, flags: nat) returns (ok: bool, ghost t': Tree)
    requires km.Valid() && Space(km.mem, km.used, t) && root == t.root && Mappable(flags) && !Blocked(t.leaf, v)
    modifies km`mem, km`freelist, km`free, km`used
    ensures km.Valid() && Grown(old(km.mem), old(km.used), t, km.mem, km.used, t')
    ensures ok ==> t'.leaf == t.leaf[v := Pte(p, flags)] && v !in t.leaf && PageOf(t'.leaf[v]) == p &&
                   Flags(t'.leaf[v]) == flags
    ensures !ok ==> t'.leaf == t.leaf && |old(km.free)| <= 1
    ensures ok ==> |km.free| <= |old(km.free)| <= |km.free| + 2
    ensures (ok <==> |old(km.free)| >= Lacks(t, v)) &&
            (ok ==> |km.free| + Lacks(t, v) == |old(km.free)| && v / 512 in t'.l0)
  {
    hide Made, Conserved, Pte, Space, Rep, Kept, Tables, Grown, Mappable, Blocked, PageOf, Flags, WithV, Pages, Leaf,
         Added;
    OnePage(v, flags);
    var r, i, stop, t1 := Mappages(km, root, t, v * PGSIZE, PGSIZE, p, flags);
    t' := t1;
    if r.Done? {
      AddedOnce(t.leaf, t'.leaf, v, p, flags);
      GrownLow(old(km.mem), old(km.used), t, km.mem, km.used, t', v);
      return true, t';
    }
    assert i == 0;
    NotBlockedBelow(t.leaf, v);
    AddedZero(t.leaf, t'.leaf, v, p, flags);
    return false, t';
  }

  lemma NotBlockedBelow(leaf: map<nat, nat>, v: nat)
    requires !Blocked(leaf, v)
    ensures v < MAXVPN
  {
  }

  lemma GrownLow(mem: Memory, used: set<nat>, t: Tree, mem': Memory, used': set<nat>, t': Tree, v: nat)
    requires Grown(mem, used, t, mem', used', t') && v in t'.leaf
    ensures v / 512 in t'.l0
  {
  }

  lemma AddedZero(leaf: map<nat, nat>, leaf': map<nat, nat>, v: nat, p: nat, flags: nat)
    requires Added(leaf, leaf', v, p, flags, 0)
    ensures leaf' == leaf
  {
  }

  /** The body of the loops of uvmalloc and uvmcopy: a page with this content is allocated and mapped at v, or, with the
      allocator exhausted, nothing but tables is left behind. */
  method AddPage(km: Kmem, root: nat, ghost t: Tree, v: nat, content: Page, flags: nat)
    returns (ok: bool, ghost p: nat, ghost t': Tree)
    requires km.Valid() && Space(km.mem, km.used, t) && root == t.root && Mappable(flags) && !Blocked(t.leaf, v)
    modifies km`mem, km`freelist, km`free, km`used
    ensures ok ==> Enlarged(old(km.mem), old(km.used), t, km.mem, km.used, t')
    ensures ok ==> v !in t.leaf && t'.leaf == t.leaf[v := Pte(p, flags)] && t'.own == t.own[p := v] && p !in t.own
    ensures ok ==> p in km.mem && km.mem[p] == content && PageOf(t'.leaf[v]) == p && Flags(t'.leaf[v]) == flags
    ensures !ok ==> Grown(old(km.mem), old(km.used), t, km.mem, km.used, t') && t'.leaf == t.leaf
    ensures ok ==> |km.free| + 1 <= |old(km.free)| <= |km.free| + 3
    ensures !ok ==> |old(km.free)| <= 2
    ensures km.Valid()
  {
    hide Rep, Conserved, Added, Grown, Enlarged, Blocked, Pte, PageOf, Flags, Mappable, Owns;
    ConservedUsed(km.mem, km.freelist, km.free, km.used, km.lo, km.hi);
    GrownNot(km.mem, km.used, t);
    t', p := t, 0;
    var got, q := km.Kalloc();
    if !got {
      return false, p, t';
    }
    p := q;
    km.SetPage(q, content);
    SpaceKept(old(km.mem), old(km.used), km.mem, km.used, {}, t);
    ghost var mem1: Memory, used1: set<nat> := km.mem, km.used;
    var mapped, t2 := MapOne(km, root, t, v, q, flags);
    GrownKept(mem1, used1, t, km.mem, km.used, t2);
    if mapped {
      TakeStep(old(km.mem), old(km.used), mem1, used1, t, km.mem, km.used, t2, v, q, flags);
      return true, p, Take(t2, v, p);
    }
    ghost var mem2: Memory, used2: set<nat> := km.mem, km.used;
    ConservedUsed(km.mem, km.freelist, km.free, km.used, km.lo, km.hi);
    var _ := km.Kfree(q);
    GiveBack(old(km.mem), old(km.used), mem1, used1, t, mem2, used2, t2, km.mem, km.used, q);
    return false, p, t2;
  }

  lemma GrownKept(mem: Memory, used: set<nat>, t: Tree, mem': Memory, used': set<nat>, t': Tree)
    requires Grown(mem, used, t, mem', used', t')
    ensures Kept(mem, used, mem', used', t.at.Keys) && used <= used'
  {
  }

  // ------------------------------------------------------------------------------------------------------------------
  // The user part of an address space
  // ------------------------------------------------------------------------------------------------------------------

  /** The first n pages are mapped and owned; there is nothing else up to the trapframe. */
  ghost predicate User(t: Tree, n: nat) {
    && n <= TRAPFRAME
    && (forall v :: 0 <= v < n ==> OwnsAt(t, v))
    && (forall v :: v in t.leaf ==> v < n || v >= TRAPFRAME)
    && (forall p :: p in t.own ==> t.own[p] < n)
  }

  lemma UserRange(t: Tree, n: nat, v: nat, k: nat)
    requires User(t, n) && v + k <= n
    ensures MayUnmap(t, v, k, true) && Present(t.leaf, v, k)
  {
    hide PageOf;
    forall w | v <= w < v + k ensures w in t.leaf {
      assert OwnsAt(t, w);
    }
  }

  lemma UserLess(t: Tree, n: nat, m: nat)
    requires User(t, n) && m <= n
    ensures User(Unmapped(t, m, n - m, true), m)
  {
    hide PageOf;
    var t' := Unmapped(t, m, n - m, true);
    forall v | 0 <= v < m ensures OwnsAt(t', v) {
      assert OwnsAt(t, v);
    }
  }

  /** The pages behind the first n entries. */
  ghost function Behind(t: Tree, n: nat): (s: set<nat>)
    requires forall v :: 0 <= v < n ==> OwnsAt(t, v)
    ensures |s| == n && forall p :: p in s ==> p in t.own && t.own[p] < n
  {
    if n == 0 then {} else
    assert OwnsAt(t, n - 1);
    assert PageOf(t.leaf[n - 1]) !in Behind(t, n - 1);
    Behind(t, n - 1) + {PageOf(t.leaf[n - 1])}
  }

  lemma SpanSize(a: nat, b: nat)
    requires a <= b
    ensures |Span(a, b)| == b - a
    decreases b - a
  {
    if a < b {
      SpanSize(a + 1, b);
      assert a !in Span(a + 1, b);
    }
  }

  /** An address space has no more pages than there is memory. */
  lemma UserBound(mem: Memory, head: nat, free: seq<nat>, used: set<nat>, lo: nat, hi: nat, t: Tree, n: nat)
    requires Conserved(mem, head, free, used, lo, hi) && Space(mem, used, t) && User(t, n)
    ensures n <= hi - lo
  {
    hide PageOf, Rep, Owns;
    SpanSize(lo, hi);
    SubsetSize(Behind(t, n), Span(lo, hi));
  }

  /** Entries and pages were added in [n0, i) only, each page owned where it is mapped. */
  ghost predicate Grew(t: Tree, t1: Tree, n0: nat, i: nat) {
    && (forall v :: v in t1.leaf ==> v in t.leaf || n0 <= v < i)
    && (forall p :: p in t1.own ==> p in t.own || n0 <= t1.own[p] < i)
    && (forall v :: n0 <= v < i ==> v !in t.leaf && OwnsAt(t1, v))
  }

  datatype Want = Want(flags: nat, content: Page)

  /** The pages of [n0, i) have these flags and this content. */
  ghost predicate Filled(mem: Memory, t: Tree, n0: nat, i: nat, want: map<nat, Want>) {
    forall v :: n0 <= v < i ==>
      v in t.leaf && v in want && Flags(t.leaf[v]) == want[v].flags && PageOf(t.leaf[v]) in mem &&
        mem[PageOf(t.leaf[v])] == want[v].content
  }

  lemma GrewNot(mem: Memory, t: Tree, n0: nat, want: map<nat, Want>)
    ensures Grew(t, t, n0, n0) && Filled(mem, t, n0, n0, want)
  {
  }

  lemma GrewNext(t: Tree, t1: Tree, t2: Tree, n0: nat, i: nat, p: nat, flags: nat)
    requires Grew(t, t1, n0, i) && n0 <= i && (forall v :: v in t.leaf ==> v in t1.leaf)
    requires i !in t1.leaf && t2.leaf == t1.leaf[i := Pte(p, flags)] && t2.own == t1.own[p := i] && p !in t1.own &&
             PageOf(t2.leaf[i]) == p
    ensures Grew(t, t2, n0, i + 1)
  {
    hide PageOf, Pte;
    forall v | n0 <= v < i + 1 ensures v !in t.leaf && OwnsAt(t2, v) {
      if v < i {
        assert OwnsAt(t1, v);
      }
    }
  }

  lemma FilledNext(mem: Memory, used: set<nat>, mem2: Memory, used2: set<nat>, t1: Tree, t2: Tree, n0: nat, i: nat,
                   p: nat, flags: nat, want: map<nat, Want>)
    requires Filled(mem, t1, n0, i, want) && n0 <= i && Kept(mem, used, mem2, used2, t1.at.Keys) && Space(mem, used, t1)
    requires forall v :: n0 <= v < i ==> OwnsAt(t1, v)
    requires i !in t1.leaf && t2.leaf == t1.leaf[i := Pte(p, flags)] && PageOf(t2.leaf[i]) == p &&
             Flags(t2.leaf[i]) == flags
    requires p in mem2 && i in want && want[i] == Want(flags, mem2[p])
    ensures Filled(mem2, t2, n0, i + 1, want)
  {
    hide PageOf, Pte, Flags, Rep;
    forall v | n0 <= v < i ensures PageOf(t1.leaf[v]) in mem2 && mem2[PageOf(t1.leaf[v])] == mem[PageOf(t1.leaf[v])] {
      assert OwnsAt(t1, v);
    }
  }

  lemma GrewUser(t: Tree, t1: Tree, n0: nat, i: nat)
    requires User(t, n0) && Grew(t, t1, n0, i) && n0 <= i <= TRAPFRAME
    requires (forall v :: v in t.leaf ==> v in t1.leaf && t1.leaf[v] == t.leaf[v]) &&
             (forall p :: p in t.own ==> p in t1.own && t1.own[p] == t.own[p])
    ensures User(t1, i)
  {
    hide PageOf;
    forall v | 0 <= v < i ensures OwnsAt(t1, v) {
      if v < n0 {
        assert OwnsAt(t, v);
      }
    }
  }

  lemma UndoneMaps(t: Tree, t1: Tree, n0: nat, i: nat)
    requires User(t, n0) && Grew(t, t1, n0, i) && n0 <= i
    requires (forall v :: v in t.leaf ==> v in t1.leaf && t1.leaf[v] == t.leaf[v]) &&
             (forall p :: p in t.own ==> p in t1.own && t1.own[p] == t.own[p])
    ensures Unmapped(t1, n0, i - n0, true) == t1.(leaf := t.leaf, own := t.own)
  {
    hide PageOf, OwnsAt;
    var t2 := Unmapped(t1, n0, i - n0, true);
    assert t2.leaf == t.leaf;
    assert t2.own == t.own;
  }

  /** Growing and then unmapping what was added leaves tables behind and nothing else. */
  lemma Undone(m0: Memory, u0: set<nat>, t: Tree, m1: Memory, u1: set<nat>, t1: Tree, m2: Memory, u2: set<nat>, n0: nat,
               i: nat)
    requires Space(m0, u0, t) && Enlarged(m0, u0, t, m1, u1, t1) && User(t, n0) && Grew(t, t1, n0, i) && n0 <= i
    requires Shrunk(m1, u1, t1, m2, u2, Unmapped(t1, n0, i - n0, true))
    ensures Unmapped(t1, n0, i - n0, true).leaf == t.leaf
    ensures Grown(m0, u0, t, m2, u2, Unmapped(t1, n0, i - n0, true))
  {
    hide PageOf, Rep, OwnsAt, User, Grew, Unmapped, Owns;
    UndoneMaps(t, t1, n0, i);
    assert u2 == u0 + t1.at.Keys;
  }

  /** uvmdealloc: the pages above newsz go back, and the user part ends there. It never panics. */
  method Uvmdealloc(km: Kmem, root: nat, ghost t: Tree, oldsz: nat, newsz: nat) returns (r: nat, ghost t': Tree)
    requires km.Valid() && Space(km.mem, km.used, t) && root == t.root && User(t, Up(oldsz))
    modifies km`mem, km`freelist, km`free, km`used
    ensures newsz >= oldsz ==> r == oldsz && t' == t
    ensures newsz < oldsz ==>
            r == newsz && Up(newsz) <= Up(oldsz) && t' == Unmapped(t, Up(newsz), Up(oldsz) - Up(newsz), true)
    ensures User(t', Up(r)) && Shrunk(old(km.mem), old(km.used), t, km.mem, km.used, t') && km.Valid()
  {
    hide Conserved, Space, Rep, Unmapped, User, Shrunk, MayUnmap, Present;
    ConservedUsed(km.mem, km.freelist, km.free, km.used, km.lo, km.hi);
    ShrunkNot(km.mem, km.used, t);
    if newsz >= oldsz {
      return oldsz, t;
    }
    Aligned(newsz);
    UserLess(t, Up(oldsz), Up(newsz));
    UnmappedNone(t, Up(newsz), true);
    if Up(newsz) < Up(oldsz) {
      UserRange(t, Up(oldsz), Up(newsz), Up(oldsz) - Up(newsz));
      var ok := Uvmunmap(km, root, t, Up(newsz) * PGSIZE, Up(oldsz) - Up(newsz), true);
      assert ok;
    }
    return newsz, Unmapped(t, Up(newsz), Up(oldsz) - Up(newsz), true);
  }

  lemma Aligned(sz: nat)
    ensures Up(sz) * PGSIZE % PGSIZE == 0 && Up(sz) * PGSIZE / PGSIZE == Up(sz) && Up(Up(sz) * PGSIZE) == Up(sz)
  {
  }

  /** The body of the loop of uvmalloc and uvmcopy leaves all this true. */
  ghost predicate Growing(m0: Memory, u0: set<nat>, t: Tree, mem: Memory, used: set<nat>, t1: Tree, n0: nat, i: nat,
                          want: map<nat, Want>) {
    && n0 <= i && Enlarged(m0, u0, t, mem, used, t1) && User(t1, i) && Grew(t, t1, n0, i) &&
       Filled(mem, t1, n0, i, want)
  }

  lemma GrowingNext(m0: Memory, u0: set<nat>, t: Tree, m1: Memory, u1: set<nat>, t1: Tree, m2: Memory, u2: set<nat>,
                    t2: Tree, n0: nat, i: nat, p: nat, flags: nat, want: map<nat, Want>)
    requires User(t, n0) && Growing(m0, u0, t, m1, u1, t1, n0, i, want) && Enlarged(m1, u1, t1, m2, u2, t2) &&
             i < TRAPFRAME
    requires i !in t1.leaf && t2.leaf == t1.leaf[i := Pte(p, flags)] && t2.own == t1.own[p := i] && p !in t1.own
    requires PageOf(t2.leaf[i]) == p && Flags(t2.leaf[i]) == flags
    requires p in m2 && i in want && want[i] == Want(flags, m2[p])
    ensures Growing(m0, u0, t, m2, u2, t2, n0, i + 1, want)
  {
    hide PageOf, Pte, Flags, Space, User, Filled, Kept;
    EnlargedTwice(m0, u0, t, m1, u1, t1, m2, u2, t2);
    GrewNext(t, t1, t2, n0, i, p, flags);
    FilledNext(m1, u1, m2, u2, t1, t2, n0, i, p, flags, want);
    GrewUser(t, t2, n0, i + 1);
  }

  lemma GrowingNot(mem: Memory, used: set<nat>, t: Tree, n0: nat, want: map<nat, Want>)
    requires Space(mem, used, t) && User(t, n0) && forall p :: p in used ==> p in mem
    ensures Growing(mem, used, t, mem, used, t, n0, n0, want)
  {
    hide Space, User;
    EnlargedNot(mem, used, t);
    GrewNot(mem, t, n0, want);
  }

  lemma GrowingSpace(m0: Memory, u0: set<nat>, t: Tree, mem: Memory, used: set<nat>, t1: Tree, n0: nat, i: nat,
                     want: map<nat, Want>)
    requires Growing(m0, u0, t, mem, used, t1, n0, i, want)
    ensures Space(mem, used, t1) && User(t1, i) && t1.root == t.root && n0 <= i <= TRAPFRAME
  {
    hide Space;
  }

  /** A step that only added tables. */
  lemma GrowingTables(m0: Memory, u0: set<nat>, t: Tree, m1: Memory, u1: set<nat>, t1: Tree, m2: Memory, u2: set<nat>,
                      t2: Tree, n0: nat, i: nat, want: map<nat, Want>)
    requires Growing(m0, u0, t, m1, u1, t1, n0, i, want) && Grown(m1, u1, t1, m2, u2, t2) && t2.leaf == t1.leaf
    ensures Enlarged(m0, u0, t, m2, u2, t2) && Grew(t, t2, n0, i) && User(t2, i)
  {
    hide Filled, Kept, PageOf, Space, Enlarged;
    GrownSpace(m1, u1, t1, m2, u2, t2);
    EnlargedSpace(m0, u0, t, m1, u1, t1);
    GrownEnlarges(m1, u1, t1, m2, u2, t2);
    EnlargedTwice(m0, u0, t, m1, u1, t1, m2, u2, t2);
    forall v | n0 <= v < i ensures OwnsAt(t2, v) {
      assert OwnsAt(t1, v);
    }
    forall v | 0 <= v < i ensures OwnsAt(t2, v) {
      assert OwnsAt(t1, v);
    }
  }

  /** The user part ends at page i, so page i can be mapped. */
  lemma NotBlocked(t: Tree, i: nat)
    requires User(t, i) && i < TRAPFRAME
    ensures !Blocked(t.leaf, i)
  {
  }

  ghost function Zeroes(n0: nat, n1: nat): map<nat, Want> {
    map v | v in Span(n0, n1) :: Want(USER_RWX, Fill(0))
  }

  lemma UserFlags()
    ensures Mappable(USER_RWX)
  {
  }

  lemma Below(i: nat, sz: nat)
    ensures i * PGSIZE < sz <==> i < Up(sz)
  {
  }

  /** uvmalloc: on success the user part ends at newsz, with zeroed pages added and nothing else changed. On failure no
      entry and no user page changed and every page taken is back, except those that became tables. Neither mappages nor
      walk can panic on the way. It cannot fail while there are three free pages for every page asked for, and not
      succeed with less than one for each. */
  method Uvmalloc(km: Kmem, root: nat, ghost t: Tree, oldsz: nat, newsz: nat)
    returns (r: nat, ghost ok: bool, ghost t': Tree)
    requires km.Valid() && Space(km.mem, km.used, t) && root == t.root && User(t, Up(oldsz)) &&
             km.hi - km.lo < TRAPFRAME
    modifies km`mem, km`freelist, km`free, km`used
    ensures newsz < oldsz ==> r == oldsz && ok && t' == t && km.mem == old(km.mem) && km.used == old(km.used)
    ensures newsz >= oldsz && ok ==> r == newsz
    ensures newsz >= oldsz && ok ==>
            Growing(old(km.mem), old(km.used), t, km.mem, km.used, t', Up(oldsz), Up(newsz),
                    Zeroes(Up(oldsz), Up(newsz)))
    ensures newsz >= oldsz && !ok ==>
            r == 0 && Grown(old(km.mem), old(km.used), t, km.mem, km.used, t') && t'.leaf == t.leaf
    ensures |old(km.free)| >= 3 * (Up(newsz) - Up(oldsz)) ==> ok
    ensures newsz >= oldsz && ok ==> |km.free| + Up(newsz) <= |old(km.free)| + Up(oldsz)
    ensures km.Valid()
  {
    hide Conserved, Space, Rep, User, Growing, Grown, Enlarged, Grew, Mappable, Blocked, Pte, PageOf, Flags, Up, Filled,
         OwnsAt;
    t' := t;
    if newsz < oldsz {
      return oldsz, true, t';
    }
    ghost var n1, want := Up(newsz), Zeroes(Up(oldsz), Up(newsz));
    var n0 := Up(oldsz);
    ConservedUsed(km.mem, km.freelist, km.free, km.used, km.lo, km.hi);
    GrowingNot(km.mem, km.used, t, n0, want);
    UserFlags();
    UpMono(oldsz, newsz);
    var i := n0;
    Below(i, newsz);
    while i * PGSIZE < newsz
      invariant n0 <= i <= n1 && (i * PGSIZE < newsz <==> i < n1) && km.Valid()
      invariant Growing(old(km.mem), old(km.used), t, km.mem, km.used, t', n0, i, want)
      invariant |km.free| + (i - n0) <= |old(km.free)| <= |km.free| + 3 * (i - n0)
      decreases n1 - i
    {
      GrowingSpace(old(km.mem), old(km.used), t, km.mem, km.used, t', n0, i, want);
      UserBound(km.mem, km.freelist, km.free, km.used, km.lo, km.hi, t', i);
      NotBlocked(t', i);
      ghost var m1: Memory, u1: set<nat>, t1 := km.mem, km.used, t';
      var got, p, t2 := AddPage(km, root, t', i, Fill(0), USER_RWX);
      if !got {
        GrowingTables(old(km.mem), old(km.used), t, m1, u1, t1, km.mem, km.used, t2, n0, i, want);
        EnlargedSpace(old(km.mem), old(km.used), t, km.mem, km.used, t2);
        Whole(i);
        Whole(n0);
        UnmappedNone(t2, n0, true);
        m1, u1 := km.mem, km.used;
        var _, t3 := Uvmdealloc(km, root, t2, i * PGSIZE, n0 * PGSIZE);
        Undone(old(km.mem), old(km.used), t, m1, u1, t2, km.mem, km.used, n0, i);
        return 0, false, t3;
      }
      GrowingNext(old(km.mem), old(km.used), t, m1, u1, t1, km.mem, km.used, t2, n0, i, p, USER_RWX, want);
      t', i := t2, i + 1;
      Below(i, newsz);
    }
    return newsz, true, t';
  }

  lemma Whole(i: nat)
    ensures Up(i * PGSIZE) == i && i * PGSIZE % PGSIZE == 0 && i * PGSIZE / PGSIZE == i
  {
  }

  lemma UpMono(a: nat, b: nat)
    requires a <= b
    ensures Up(a) <= Up(b)
  {
  }

  /** The content and flags of the first n pages. */
  ghost function Image(mem: Memory, t: Tree, n: nat): map<nat, Want> {
    map v | v in Span(0, n) && v in t.leaf && PageOf(t.leaf[v]) in mem :: Want(Flags(t.leaf[v]), mem[PageOf(t.leaf[v])])
  }

  lemma ImageAt(mem: Memory, used: set<nat>, t: Tree, n: nat, v: nat)
    requires Space(mem, used, t) && User(t, n) && v < n && forall p :: p in used ==> p in mem
    ensures v in t.leaf && v < MAXVPN && PageOf(t.leaf[v]) in t.own && PageOf(t.leaf[v]) in mem &&
            Mappable(Flags(t.leaf[v]))
    ensures v in Image(mem, t, n) && Image(mem, t, n)[v] == Want(Flags(t.leaf[v]), mem[PageOf(t.leaf[v])])
  {
    assert OwnsAt(t, v);
    LeafLow(mem, t);
    LeafFlags(mem, t, v);
    hide PageOf, Flags, Rep;
  }

  lemma LeafFlags(mem: Memory, t: Tree, v: nat)
    requires Rep(mem, t) && v in t.leaf
    ensures Mappable(Flags(t.leaf[v]))
  {
    PteParts(PageOf(t.leaf[v]), Flags(t.leaf[v]));
    assert t.leaf[v] == Pte(PageOf(t.leaf[v]), Flags(t.leaf[v]));
  }

  /** The parent's address space is not affected by changes to the child's. */
  lemma Apart(m0: Memory, u0: set<nat>, t: Tree, mem: Memory, used: set<nat>, t1: Tree, o: Tree)
    requires Space(m0, u0, o) && Enlarged(m0, u0, t, mem, used, t1) && o.at.Keys !! t.at.Keys && o.own.Keys !! t.at.Keys
    ensures Space(mem, used, o) && forall p :: p in o.own ==> p in m0 && p in mem && mem[p] == m0[p]
  {
    hide Rep;
    SpaceKept(m0, u0, mem, used, t.at.Keys, o);
    assert forall p :: p in o.own ==> p in o.own.Keys;
  }

  /** The walk of the parent in uvmcopy finds the entry. */
  method Lookup(km: Kmem, root: nat, ghost t: Tree, ghost n: nat, v: nat) returns (pte: nat)
    requires km.Valid() && Space(km.mem, km.used, t) && root == t.root && User(t, n) && v < n
    modifies km`mem, km`freelist, km`free, km`used
    ensures v in t.leaf && pte == t.leaf[v] && PageOf(pte) in km.mem && Mappable(Flags(pte))
    ensures km.mem == old(km.mem) && km.used == old(km.used) && km.free == old(km.free) && km.Valid()
  {
    hide Conserved, Rep, User, Flags, Mappable, PageOf, Reached;
    ConservedUsed(km.mem, km.freelist, km.free, km.used, km.lo, km.hi);
    ImageAt(km.mem, km.used, t, n, v);
    LeafLow(km.mem, t);
    var w, _ := Walk(km, root, t, v, false);
    assert w.Slot?;
    SlotEntry(km.mem, t, v, w.page);
    pte := km.mem[w.page][w.index];
  }

  /** uvmcopy: on success the child has the same user pages as the parent, with equal flags and content in pages of its
      own. On failure the child has no entry more than before and every page taken is back, except tables. Either way
      the parent is unchanged, and nothing panics. */
  method Uvmcopy(km: Kmem, oldroot: nat, ghost o: Tree, root: nat, ghost t: Tree, sz: nat)
    returns (ok: bool, ghost t': Tree)
    requires km.Valid() && Space(km.mem, km.used, o) && Space(km.mem, km.used, t) && oldroot == o.root && root == t.root
    requires User(o, Up(sz)) && User(t, 0) && o.at.Keys !! t.at.Keys && o.own.Keys !! t.at.Keys
    modifies km`mem, km`freelist, km`free, km`used
    ensures ok ==> Growing(old(km.mem), old(km.used), t, km.mem, km.used, t', 0, Up(sz), Image(old(km.mem), o, Up(sz)))
    ensures !ok ==> Grown(old(km.mem), old(km.used), t, km.mem, km.used, t') && t'.leaf == t.leaf
    ensures (|old(km.free)| >= 3 * Up(sz) ==> ok) && (ok ==> |km.free| + Up(sz) <= |old(km.free)|)
    ensures km.Valid() && Space(km.mem, km.used, o)
  {
    hide Conserved, Space, Rep, User, Growing, Grown, Enlarged, Grew, Mappable, Blocked, Pte, PageOf, Flags, Up, Filled,
         OwnsAt, Image,
      Unmapped, Shrunk, MayUnmap, Present;
    t' := t;
    ghost var n, want := Up(sz), Image(km.mem, o, Up(sz));
    ConservedUsed(km.mem, km.freelist, km.free, km.used, km.lo, km.hi);
    GrowingNot(km.mem, km.used, t, 0, want);
    UserEnd(o, n);
    var i := 0;
    Below(i, sz);
    while i * PGSIZE < sz
      invariant 0 <= i <= n && (i * PGSIZE < sz <==> i < n) && km.Valid()
      invariant Growing(old(km.mem), old(km.used), t, km.mem, km.used, t', 0, i, want)
      invariant |km.free| + i <= |old(km.free)| <= |km.free| + 3 * i
      decreases n - i
    {
      GrowingSpace(old(km.mem), old(km.used), t, km.mem, km.used, t', 0, i, want);
      GrowingEnlarged(old(km.mem), old(km.used), t, km.mem, km.used, t', 0, i, want);
      Apart(old(km.mem), old(km.used), t, km.mem, km.used, t', o);
      ImageAt(old(km.mem), old(km.used), o, n, i);
      var pte := Lookup(km, oldroot, o, n, i);
      NotBlocked(t', i);
      ghost var m1: Memory, u1: set<nat>, t1 := km.mem, km.used, t';
      var got, p, t2 := AddPage(km, root, t', i, km.mem[PageOf(pte)], Flags(pte));
      if !got {
        GrowingTables(old(km.mem), old(km.used), t, m1, u1, t1, km.mem, km.used, t2, 0, i, want);
        EnlargedSpace(old(km.mem), old(km.used), t, km.mem, km.used, t2);
        Whole(0);
        UserRange(t2, i, 0, i);
        m1, u1 := km.mem, km.used;
        var unmapped := Uvmunmap(km, root, t2, 0, i, true);
        assert unmapped;
        Undone(old(km.mem), old(km.used), t, m1, u1, t2, km.mem, km.used, 0, i);
        t' := Unmapped(t2, 0, i, true);
        GrownEnlarges(old(km.mem), old(km.used), t, km.mem, km.used, t');
        Apart(old(km.mem), old(km.used), t, km.mem, km.used, t', o);
        return false, t';
      }
      GrowingNext(old(km.mem), old(km.used), t, m1, u1, t1, km.mem, km.used, t2, 0, i, p, Flags(pte), want);
      t', i := t2, i + 1;
      Below(i, sz);
    }
    GrowingEnlarged(old(km.mem), old(km.used), t, km.mem, km.used, t', 0, i, want);
    Apart(old(km.mem), old(km.used), t, km.mem, km.used, t', o);
    return true, t';
  }

  lemma UserEnd(t: Tree, n: nat)
    requires User(t, n)
    ensures n <= TRAPFRAME
  {
  }

  lemma GrowingEnlarged(m0: Memory, u0: set<nat>, t: Tree, mem: Memory, used: set<nat>, t1: Tree, n0: nat, i: nat,
                        want: map<nat, Want>)
    requires Growing(m0, u0, t, mem, used, t1, n0, i, want)
    ensures Enlarged(m0, u0, t, mem, used, t1)
  {
  }
}
