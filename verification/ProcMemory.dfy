/** The memory of a process from allocation to release: nothing is lost on any path. */
module ProcMemory {
  import opened Kalloc
  import opened Sv39
  import opened Vm
  import opened Uvm
  import opened Freewalk

  const RX: nat := 11                  // V, R and X
  const RW: nat := 7                   // V, R and W
  const A0: nat := 14                  // the word of register a0 in a trapframe

  /** All pages of an address space. */
  ghost function Pages(t: Tree): set<nat> {
    t.at.Keys + t.own.Keys
  }

  lemma SubRoot(t: Tree)
    ensures Sub(t, Root) == t.at.Keys
    ensures Bare(t, Root) <==> t.leaf == map[]
  {
    if Bare(t, Root) {
      assert forall v :: v in t.leaf ==> !Covers(Root, v);
    }
  }

  /** Without its first n pages a user part is empty and owns nothing. */
  lemma UserGone(t: Tree, n: nat)
    requires User(t, n)
    ensures Unmapped(t, 0, n, true).own == map[]
    ensures Unmapped(t, 0, n, true).leaf == map[] <==> forall v :: v in t.leaf ==> v < n
  {
    hide PageOf, OwnsAt;
    var t' := Unmapped(t, 0, n, true);
    if t'.leaf == map[] {
      forall v | v in t.leaf ensures v < n {
        assert v !in t'.leaf;
      }
    }
  }

  /** Unmapping what is owned and freeing what is left gives all pages back. */
  lemma AllFreed(m0: Memory, u0: set<nat>, t: Tree, m1: Memory, u1: set<nat>, t1: Tree, m2: Memory, u2: set<nat>)
    requires Shrunk(m0, u0, t, m1, u1, t1) && t1.own == map[]
    requires u2 == u1 - t.at.Keys && Kept(m1, u1, m2, u2, t.at.Keys)
    ensures u2 == u0 - Pages(t) && Kept(m0, u0, m2, u2, Pages(t))
  {
    hide Space;
  }

  /** uvmfree: every user page and every table goes back. It panics exactly when something above the user part is still
      mapped. */
  method Uvmfree(km: Kmem, root: nat, ghost t: Tree, sz: nat) returns (ok: bool)
    requires km.Valid() && Space(km.mem, km.used, t) && root == t.root && User(t, Up(sz))
    modifies km`mem, km`freelist, km`free, km`used
    ensures ok <==> forall v :: v in t.leaf ==> v < Up(sz)
    ensures ok ==> km.used == old(km.used) - Pages(t) && Kept(old(km.mem), old(km.used), km.mem, km.used, Pages(t))
    ensures km.Valid()
  {
    hide Conserved, Space, Rep, User, Shrunk, MayUnmap, Present, Unmapped, Kept, Sub, Bare, Shape, Rows, Pages;
    ConservedUsed(km.mem, km.freelist, km.free, km.used, km.lo, km.hi);
    ShrunkNot(km.mem, km.used, t);
    UserGone(t, Up(sz));
    UnmappedNone(t, 0, true);
    Whole(0);
    ghost var t1 := Unmapped(t, 0, Up(sz), true);
    if sz > 0 {
      UserRange(t, Up(sz), 0, Up(sz));
      var unmapped := Uvmunmap(km, root, t, 0, Up(sz), true);
      assert unmapped;
    }
    ghost var m1: Memory, u1: set<nat> := km.mem, km.used;
    Ready(old(km.mem), old(km.used), t, km.mem, km.used, t1);
    SubRoot(t1);
    ok := FreeTables(km, root, t1, Root);
    if ok {
      AllFreed(old(km.mem), old(km.used), t, m1, u1, t1, km.mem, km.used);
    }
  }

  lemma Ready(mem: Memory, used: set<nat>, t: Tree, mem': Memory, used': set<nat>, t': Tree)
    requires Shrunk(mem, used, t, mem', used', t')
    ensures Shape(t') && Rows(mem', t', Sub(t', Root)) && t'.root == t.root && t'.root in t'.at &&
            t'.at[t'.root] == Root
    ensures Sub(t', Root) <= used' && t'.at == t.at
  {
    hide Rows, Shape, Kept;
    RepRows(mem', t');
    SubRoot(t');
  }

  /** A process's page table: n user pages, the trapframe page and the trampoline page, the last two not owned. */
  ghost predicate ProcMap(t: Tree, n: nat, frame: nat, trampoline: nat) {
    && User(t, n) && TRAMPOLINE in t.leaf && TRAPFRAME in t.leaf
    && t.leaf[TRAMPOLINE] == Pte(trampoline, RX) && t.leaf[TRAPFRAME] == Pte(frame, RW)
    && frame !in t.at && frame !in t.own
    && (forall v :: v in t.leaf ==> v < n || v == TRAPFRAME || v == TRAMPOLINE)
  }

  /** An address space made since memory was m0 with pages u0 in use: it has the pages taken since, and no page that was
      in use then has changed. */
  ghost predicate Born(m0: Memory, u0: set<nat>, mem: Memory, used: set<nat>, t: Tree) {
    Space(mem, used, t) && Pages(t) !! u0 && used == u0 + Pages(t) && Kept(m0, u0, mem, used, {})
  }

  lemma BornEmpty(m0: Memory, u0: set<nat>, mem: Memory, used: set<nat>, root: nat)
    requires Space(mem, used, Empty(root)) && root !in u0 && used == u0 + {root} && Kept(m0, u0, mem, used, {})
    ensures Born(m0, u0, mem, used, Empty(root))
  {
    hide Space, Kept;
    assert Pages(Empty(root)) == {root};
  }

  lemma BornGrown(m0: Memory, u0: set<nat>, m1: Memory, u1: set<nat>, t1: Tree, m2: Memory, u2: set<nat>, t2: Tree)
    requires Born(m0, u0, m1, u1, t1) && Grown(m1, u1, t1, m2, u2, t2)
    ensures Born(m0, u0, m2, u2, t2)
  {
    hide Space;
  }

  lemma BornShrunk(m0: Memory, u0: set<nat>, m1: Memory, u1: set<nat>, t1: Tree, m2: Memory, u2: set<nat>, t2: Tree)
    requires Born(m0, u0, m1, u1, t1) && Shrunk(m1, u1, t1, m2, u2, t2)
    ensures Born(m0, u0, m2, u2, t2)
  {
    hide Space, Owns;
    SpaceOwns(m1, u1, t1);
    OwnsApart(t1);
  }

  lemma BornDied(m0: Memory, u0: set<nat>, m1: Memory, u1: set<nat>, t: Tree, m2: Memory, u2: set<nat>)
    requires Born(m0, u0, m1, u1, t) && u2 == u1 - Pages(t) && Kept(m1, u1, m2, u2, Pages(t))
    ensures u2 == u0 && Kept(m0, u0, m2, u2, {})
  {
    hide Space, Pages;
  }

  lemma BornSpace(m0: Memory, u0: set<nat>, mem: Memory, used: set<nat>, t: Tree)
    requires Born(m0, u0, mem, used, t)
    ensures Space(mem, used, t) && Kept(m0, u0, mem, used, {}) && Pages(t) !! u0 && used == u0 + Pages(t)
  {
  }

  lemma ProcFlags()
    ensures Mappable(RX) && Mappable(RW)
  {
  }

  /** The two kernel pages at the top, or none of them, and no user page. */
  lemma TopPages(root: nat, t1: Tree, t2: Tree, frame: nat, trampoline: nat)
    requires t1.leaf == map[TRAMPOLINE := Pte(trampoline, RX)] && t2.leaf == t1.leaf[TRAPFRAME := Pte(frame, RW)]
    requires t1.own == map[] && t2.own == map[] && frame !in t2.at
    ensures !Blocked(t1.leaf, TRAPFRAME) && User(t1, 0) && ProcMap(t2, 0, frame, trampoline)
    ensures MayUnmap(t1, TRAMPOLINE, 1, false) && Present(t1.leaf, TRAMPOLINE, 1) &&
            Unmapped(t1, TRAMPOLINE, 1, false).leaf == map[]
  {
    hide Pte;
    assert forall v :: v in t1.leaf <==> v == TRAMPOLINE;
    assert t1.leaf - Span(TRAMPOLINE, TRAMPOLINE + 1) == map[];
  }

  lemma EmptyUser(t: Tree)
    requires t.leaf == map[] && t.own == map[]
    ensures User(t, 0) && !Blocked(t.leaf, TRAMPOLINE) && forall v :: v in t.leaf ==> v < 0
  {
  }

  /** An address space without entries is freed. */
  method Discard(km: Kmem, root: nat, ghost m0: Memory, ghost u0: set<nat>, ghost t: Tree)
    requires km.Valid() && Born(m0, u0, km.mem, km.used, t) && root == t.root && t.leaf == map[] && t.own == map[]
    modifies km`mem, km`freelist, km`free, km`used
    ensures km.Valid() && km.used == u0 && Kept(m0, u0, km.mem, km.used, {})
  {
    hide Conserved, Space, Rep, User, Kept, Pages, Born;
    BornSpace(m0, u0, km.mem, km.used, t);
    EmptyUser(t);
    ghost var m1: Memory, u1: set<nat> := km.mem, km.used;
    Whole(0);
    var ok := Uvmfree(km, root, t, 0);
    assert ok;
    BornDied(m0, u0, m1, u1, t, km.mem, km.used);
  }

  /** proc_pagetable: a page table with just the trampoline and the trapframe, which takes three pages; with fewer free
      it fails and every page is back. */
  method ProcPagetable(km: Kmem, frame: nat, trampoline: nat) returns (ok: bool, root: nat, ghost t: Tree)
    requires km.Valid() && frame in km.used
    modifies km`mem, km`freelist, km`free, km`used
    ensures ok ==> root == t.root && Born(old(km.mem), old(km.used), km.mem, km.used, t) &&
                   ProcMap(t, 0, frame, trampoline)
    ensures !ok ==> km.used == old(km.used) && Kept(old(km.mem), old(km.used), km.mem, km.used, {})
    ensures (ok <==> |old(km.free)| >= 3) && (ok ==> |km.free| == |old(km.free)| - 3)
    ensures km.Valid()
  {
    hide Made, Conserved, Space, Rep, User, Kept, Pages, Born, Grown, Blocked, Pte, PageOf, Flags, Mappable, ProcMap,
         Unmapped, Shrunk, MayUnmap, Present;
    ok, root := Uvmcreate(km);
    t := Empty(root);
    if !ok {
      return;
    }
    BornEmpty(old(km.mem), old(km.used), km.mem, km.used, root);
    EmptyUser(t);
    ProcFlags();
    TwoTables(root);
    ghost var m1: Memory, u1: set<nat> := km.mem, km.used;
    var mapped, t1 := MapOne(km, root, t, TRAMPOLINE, trampoline, RX);
    BornGrown(old(km.mem), old(km.used), m1, u1, t, km.mem, km.used, t1);
    GrownSpace(m1, u1, t, km.mem, km.used, t1);
    if !mapped {
      Discard(km, root, old(km.mem), old(km.used), t1);
      return false, root, t1;
    }
    FrameApart(old(km.mem), old(km.used), km.mem, km.used, t1, frame);
    ghost var m2: Memory, u2: set<nat> := km.mem, km.used;
    TopPages(root, t1, t1.(leaf := t1.leaf[TRAPFRAME := Pte(frame, RW)]), frame, trampoline);
    m1, u1 := km.mem, km.used;
    var both, t2 := MapOne(km, root, t1, TRAPFRAME, frame, RW);
    BornGrown(old(km.mem), old(km.used), m1, u1, t1, km.mem, km.used, t2);
    GrownSpace(m1, u1, t1, km.mem, km.used, t2);
    FrameApart(old(km.mem), old(km.used), km.mem, km.used, t2, frame);
    TopPages(root, t2.(leaf := t1.leaf), t2.(leaf := t1.leaf[TRAPFRAME := Pte(frame, RW)]), frame, trampoline);
    if !both {
      m1, u1 := km.mem, km.used;
      Tops();
      var unmapped := Uvmunmap(km, root, t2, TRAMPOLINE * PGSIZE, 1, false);
      assert unmapped;
      BornShrunk(old(km.mem), old(km.used), m1, u1, t2, km.mem, km.used, Unmapped(t2, TRAMPOLINE, 1, false));
      ShrunkSpace(m1, u1, t2, km.mem, km.used, Unmapped(t2, TRAMPOLINE, 1, false));
      UnmappedOwn(t2, TRAMPOLINE, 1);
      Discard(km, root, old(km.mem), old(km.used), Unmapped(t2, TRAMPOLINE, 1, false));
      NoTable(old(km.mem), old(km.used), m2, u2, t1);
      assert false;   // the trapframe's tables are the trampoline's, so this mapping does not fail
    }
    NoTable(old(km.mem), old(km.used), m2, u2, t1);
    return true, root, t2;
  }

  /** An empty page table needs two tables for the top of the address space; with the trampoline mapped, the trapframe
      needs no more. */
  lemma TwoTables(root: nat)
    ensures Lacks(Empty(root), TRAMPOLINE) == 2
  {
  }

  lemma NoTable(m0: Memory, u0: set<nat>, mem: Memory, used: set<nat>, t: Tree)
    requires Born(m0, u0, mem, used, t) && TRAMPOLINE / 512 in t.l0
    ensures Lacks(t, TRAPFRAME) == 0
  {
    assert TRAPFRAME / 512 == TRAMPOLINE / 512;
  }

  lemma Tops()
    ensures TRAMPOLINE * PGSIZE / PGSIZE == TRAMPOLINE && TRAMPOLINE * PGSIZE % PGSIZE == 0
    ensures TRAPFRAME * PGSIZE / PGSIZE == TRAPFRAME && TRAPFRAME * PGSIZE % PGSIZE == 0
  {
  }

  lemma UnmappedOwn(t: Tree, v: nat, n: nat)
    ensures Unmapped(t, v, n, false).own == t.own
  {
  }

  lemma FrameApart(m0: Memory, u0: set<nat>, mem: Memory, used: set<nat>, t: Tree, frame: nat)
    requires Born(m0, u0, mem, used, t) && frame in u0
    ensures frame !in t.at && frame !in t.own
  {
    hide Space;
    assert frame !in Pages(t);
  }

  lemma ProcUser(t: Tree, n: nat, frame: nat, trampoline: nat)
    requires ProcMap(t, n, frame, trampoline)
    ensures User(t, n) && MayUnmap(t, TRAMPOLINE, 1, false) && Present(t.leaf, TRAMPOLINE, 1)
    ensures var t1 := Unmapped(t, TRAMPOLINE, 1, false);
            && MayUnmap(t1, TRAPFRAME, 1, false) && Present(t1.leaf, TRAPFRAME, 1) && t1.own == t.own
            && var t2 := Unmapped(t1, TRAPFRAME, 1, false);
               User(t2, n) && (forall v :: v in t2.leaf ==> v < n) && t2.own == t.own
  {
    hide PageOf, Pte;
    var t1 := Unmapped(t, TRAMPOLINE, 1, false);
    var t2 := Unmapped(t1, TRAPFRAME, 1, false);
    forall v | 0 <= v < n ensures OwnsAt(t2, v) {
      assert OwnsAt(t, v);
    }
  }

  lemma FreedAfter(m0: Memory, u0: set<nat>, t: Tree, m1: Memory, u1: set<nat>, t1: Tree, m2: Memory, u2: set<nat>)
    requires Shrunk(m0, u0, t, m1, u1, t1) && t1.own == t.own && u2 == u1 - Pages(t1) && Kept(m1, u1, m2, u2, Pages(t1))
    ensures u2 == u0 - Pages(t) && Kept(m0, u0, m2, u2, Pages(t))
  {
    hide Space;
  }

  /** proc_freepagetable: every page of the address space goes back, and nothing panics. The trampoline and the
      trapframe stay, being mapped but not owned. */
  method ProcFreepagetable(km: Kmem, root: nat, ghost t: Tree, sz: nat, ghost frame: nat, ghost trampoline: nat)
    requires km.Valid() && Space(km.mem, km.used, t) && root == t.root && ProcMap(t, Up(sz), frame, trampoline)
    modifies km`mem, km`freelist, km`free, km`used
    ensures km.Valid() && km.used == old(km.used) - Pages(t) &&
            Kept(old(km.mem), old(km.used), km.mem, km.used, Pages(t))
  {
    hide Conserved, Space, Rep, User, Kept, Pages, ProcMap, Unmapped, Shrunk, MayUnmap, Present, Up;
    ProcUser(t, Up(sz), frame, trampoline);
    Tops();
    ghost var t1 := Unmapped(t, TRAMPOLINE, 1, false);
    ghost var t2 := Unmapped(t1, TRAPFRAME, 1, false);
    var ok := Uvmunmap(km, root, t, TRAMPOLINE * PGSIZE, 1, false);
    assert ok;
    ShrunkSpace(old(km.mem), old(km.used), t, km.mem, km.used, t1);
    ghost var m1: Memory, u1: set<nat> := km.mem, km.used;
    ok := Uvmunmap(km, root, t1, TRAPFRAME * PGSIZE, 1, false);
    assert ok;
    ShrunkTwice(old(km.mem), old(km.used), t, m1, u1, t1, km.mem, km.used, t2);
    ShrunkSpace(m1, u1, t1, km.mem, km.used, t2);
    m1, u1 := km.mem, km.used;
    ok := Uvmfree(km, root, t2, sz);
    assert ok;
    FreedAfter(old(km.mem), old(km.used), t, m1, u1, t2, km.mem, km.used);
  }

  /** What a process holds: its trapframe and its page table, each only if the field is set. */
  ghost function Held(frame: nat, root: nat, t: Tree): set<nat> {
    (if frame == 0 then {} else {frame}) + (if root == 0 then {} else Pages(t))
  }

  /** freeproc: exactly what the process holds goes back. */
  method Freeproc(km: Kmem, frame: nat, root: nat, ghost t: Tree, sz: nat, ghost trampoline: nat)
    requires km.Valid() && (frame != 0 ==> frame in km.used)
    requires root != 0 ==> Space(km.mem, km.used, t) && root == t.root && ProcMap(t, Up(sz), frame, trampoline)
    modifies km`mem, km`freelist, km`free, km`used
    ensures km.Valid() && km.used == old(km.used) - Held(frame, root, t)
    ensures Kept(old(km.mem), old(km.used), km.mem, km.used, Held(frame, root, t))
  {
    hide Conserved, Space, Rep, User, Pages, ProcMap, Up, Kept;
    ConservedUsed(km.mem, km.freelist, km.free, km.used, km.lo, km.hi);
    KeptNot(km.mem, km.used);
    if frame != 0 {
      var ok := km.Kfree(frame);
      KfreeKept(old(km.mem), old(km.used), km.mem, km.used, frame);
    }
    if root != 0 {
      if frame != 0 {
        OtherFrame(old(km.mem), old(km.used), km.mem, km.used, t, Up(sz), frame, trampoline);
      }
      ghost var m1: Memory, u1: set<nat> := km.mem, km.used;
      ProcFreepagetable(km, root, t, sz, frame, trampoline);
      KeptBoth(old(km.mem), old(km.used), m1, u1, km.mem, km.used, if frame == 0 then {} else {frame}, Pages(t));
    } else {
      KeptMore(old(km.mem), old(km.used), km.mem, km.used, if frame == 0 then {} else {frame}, Held(frame, root, t));
    }
  }

  lemma KeptNot(mem: Memory, used: set<nat>)
    requires forall p :: p in used ==> p in mem
    ensures Kept(mem, used, mem, used, {})
  {
  }

  lemma KeptMore(mem: Memory, used: set<nat>, mem': Memory, used': set<nat>, s: set<nat>, s': set<nat>)
    requires Kept(mem, used, mem', used', s) && s <= s'
    ensures Kept(mem, used, mem', used', s')
  {
  }

  lemma KeptBoth(m0: Memory, u0: set<nat>, m1: Memory, u1: set<nat>, m2: Memory, u2: set<nat>, s: set<nat>,
                 s': set<nat>)
    requires Kept(m0, u0, m1, u1, s) && Kept(m1, u1, m2, u2, s')
    ensures Kept(m0, u0, m2, u2, s + s')
  {
  }

  /** The trapframe page is not one of the address space's, so freeing it leaves the address space in place. */
  lemma OtherFrame(mem: Memory, used: set<nat>, mem': Memory, used': set<nat>, t: Tree, n: nat, frame: nat,
                   trampoline: nat)
    requires Space(mem, used, t) && ProcMap(t, n, frame, trampoline) && Kept(mem, used, mem', used', {frame})
    ensures Space(mem', used', t)
  {
    hide Space, Kept, User;
    SpaceKept(mem, used, mem', used', {frame}, t);
  }

  /** A process made since memory was m0 with pages u0 in use. */
  ghost predicate Process(m0: Memory, u0: set<nat>, mem: Memory, used: set<nat>, t: Tree, frame: nat) {
    && Space(mem, used, t) && Pages(t) !! u0 && frame !in u0 && frame !in Pages(t) && frame != 0
    && used == u0 + {frame} + Pages(t) && Kept(m0, u0, mem, used, {})
  }

  lemma ProcessBorn(m0: Memory, u0: set<nat>, m1: Memory, u1: set<nat>, mem: Memory, used: set<nat>, t: Tree,
                    frame: nat)
    requires frame !in u0 && frame != 0 && u1 == u0 + {frame} && Kept(m0, u0, m1, u1, {}) && Born(m1, u1, mem, used, t)
    ensures Process(m0, u0, mem, used, t, frame) && frame !in t.at && frame !in t.own && frame in used
  {
    hide Space;
    assert frame !in Pages(t);
  }

  /** allocproc, as far as memory goes: a trapframe and a page table of its own, four pages; with fewer free, nothing is
      taken. */
  method Allocproc(km: Kmem, trampoline: nat) returns (ok: bool, frame: nat, root: nat, ghost t: Tree)
    requires km.Valid()
    modifies km`mem, km`freelist, km`free, km`used
    ensures ok ==> root == t.root && root != 0 && Process(old(km.mem), old(km.used), km.mem, km.used, t, frame) &&
                   ProcMap(t, 0, frame, trampoline)
    ensures !ok ==> km.used == old(km.used) && Kept(old(km.mem), old(km.used), km.mem, km.used, {})
    ensures (ok <==> |old(km.free)| >= 4) && (ok ==> |km.free| == |old(km.free)| - 4)
    ensures km.Valid()
  {
    hide Conserved, Space, Rep, User, Pages, ProcMap, Up, Born, Process;
    ConservedUsed(km.mem, km.freelist, km.free, km.used, km.lo, km.hi);
    ConservedLow(km.mem, km.freelist, km.free, km.used, km.lo, km.hi);
    t, root := Empty(0), 0;
    ok, frame := km.Kalloc();
    if !ok {
      Freeproc(km, 0, 0, t, 0, trampoline);
      return;
    }
    ConservedUsed(km.mem, km.freelist, km.free, km.used, km.lo, km.hi);
    ghost var m1: Memory, u1: set<nat> := km.mem, km.used;
    ok, root, t := ProcPagetable(km, frame, trampoline);
    if !ok {
      Freeproc(km, frame, 0, t, 0, trampoline);
      return;
    }
    ProcessBorn(old(km.mem), old(km.used), m1, u1, km.mem, km.used, t, frame);
    RootIn(m1, u1, km.mem, km.used, t);
    ConservedUsed(km.mem, km.freelist, km.free, km.used, km.lo, km.hi);
    ConservedLow(km.mem, km.freelist, km.free, km.used, km.lo, km.hi);
  }

  lemma RootIn(m0: Memory, u0: set<nat>, mem: Memory, used: set<nat>, t: Tree)
    requires Born(m0, u0, mem, used, t)
    ensures t.root in used
  {
  }

  lemma ConservedLow(mem: Memory, head: nat, free: seq<nat>, used: set<nat>, lo: nat, hi: nat)
    requires Conserved(mem, head, free, used, lo, hi)
    ensures 0 < lo && forall p :: p in free ==> p != 0
  {
  }

  /** The parent is not among the pages a new process took. */
  lemma ParentApart(m0: Memory, u0: set<nat>, mem: Memory, used: set<nat>, t: Tree, frame: nat, o: Tree, n: nat)
    requires Space(m0, u0, o) && Process(m0, u0, mem, used, t, frame) && User(o, n)
    ensures Space(mem, used, o) && o.at.Keys !! t.at.Keys && o.own.Keys !! t.at.Keys && frame in used &&
            Space(mem, used, t)
    ensures Image(mem, o, n) == Image(m0, o, n)
  {
    hide Rep, PageOf, Flags, Image;
    SpaceKept(m0, u0, mem, used, {}, o);
    forall p | p in t.at ensures p !in u0 {
      assert p in Pages(t);
    }
    ImageApart(m0, u0, mem, used, o, n);
  }

  lemma ImageApart(m0: Memory, u0: set<nat>, mem: Memory, used: set<nat>, o: Tree, n: nat)
    requires Space(m0, u0, o) && User(o, n) && Kept(m0, u0, mem, used, {})
    ensures Image(mem, o, n) == Image(m0, o, n)
  {
    hide Rep, PageOf, Flags;
    forall v | 0 <= v < n
      ensures v in o.leaf && PageOf(o.leaf[v]) in m0 && PageOf(o.leaf[v]) in mem &&
              mem[PageOf(o.leaf[v])] == m0[PageOf(o.leaf[v])]
    {
      assert OwnsAt(o, v);
    }
  }

  lemma ProcessEnlarged(m0: Memory, u0: set<nat>, m1: Memory, u1: set<nat>, t1: Tree, m2: Memory, u2: set<nat>,
                        t2: Tree, frame: nat)
    requires Process(m0, u0, m1, u1, t1, frame) && Enlarged(m1, u1, t1, m2, u2, t2)
    ensures Process(m0, u0, m2, u2, t2, frame)
  {
    hide Space;
    assert forall p :: p in t1.at ==> p in t2.at;
    assert forall p :: p in t1.own ==> p in t2.own;
    assert frame !in Pages(t1);
  }

  lemma ProcMapGrown(t1: Tree, n1: nat, t2: Tree, n: nat, frame: nat, trampoline: nat)
    requires ProcMap(t1, n1, frame, trampoline) && User(t2, n) && frame !in Pages(t2) && n1 <= n
    requires forall v :: v in t1.leaf ==> v in t2.leaf && t2.leaf[v] == t1.leaf[v]
    requires forall v :: v in t2.leaf ==> v in t1.leaf || v < n
    ensures ProcMap(t2, n, frame, trampoline)
  {
    hide OwnsAt, Pte;
  }

  /** The child of a fork that succeeded. */
  lemma Copied(m0: Memory, u0: set<nat>, m1: Memory, u1: set<nat>, t1: Tree, m2: Memory, u2: set<nat>, t2: Tree,
               frame: nat, trampoline: nat, n: nat, want: map<nat, Want>)
    requires Process(m0, u0, m1, u1, t1, frame) && ProcMap(t1, 0, frame, trampoline) &&
             Growing(m1, u1, t1, m2, u2, t2, 0, n, want)
    ensures Process(m0, u0, m2, u2, t2, frame) && ProcMap(t2, n, frame, trampoline) && Filled(m2, t2, 0, n, want) &&
            t2.root == t1.root
  {
    hide User, Filled, Pte, Space, Kept, OwnsAt, Pages, ProcMap;
    ProcessEnlarged(m0, u0, m1, u1, t1, m2, u2, t2, frame);
    ProcMapGrown(t1, 0, t2, n, frame, trampoline);
  }

  /** The child of a fork that failed while copying. */
  lemma NotCopied(m0: Memory, u0: set<nat>, m1: Memory, u1: set<nat>, t1: Tree, m2: Memory, u2: set<nat>, t2: Tree,
                  frame: nat, trampoline: nat)
    requires Process(m0, u0, m1, u1, t1, frame) && ProcMap(t1, 0, frame, trampoline) && Grown(m1, u1, t1, m2, u2, t2) &&
             t2.leaf == t1.leaf
    ensures Process(m0, u0, m2, u2, t2, frame) && ProcMap(t2, 0, frame, trampoline) && t2.root == t1.root &&
            Space(m2, u2, t2) && frame in u2
  {
    hide Space, Pte, OwnsAt, Enlarged, Kept;
    GrownEnlarges(m1, u1, t1, m2, u2, t2);
    ProcessEnlarged(m0, u0, m1, u1, t1, m2, u2, t2, frame);
    ProcMapGrown(t1, 0, t2, 0, frame, trampoline);
  }

  /** Freed again, a process leaves memory as it was. */
  lemma ProcessDied(m0: Memory, u0: set<nat>, m1: Memory, u1: set<nat>, t: Tree, frame: nat, root: nat, m2: Memory,
                    u2: set<nat>)
    requires Process(m0, u0, m1, u1, t, frame) && root != 0
    requires u2 == u1 - Held(frame, root, t) && Kept(m1, u1, m2, u2, Held(frame, root, t))
    ensures u2 == u0 && Kept(m0, u0, m2, u2, {})
  {
    hide Space, Pages;
  }

  /** Filling in the trapframe touches nothing else of the process. */
  lemma FrameSet(m0: Memory, u0: set<nat>, mem: Memory, used: set<nat>, t: Tree, frame: nat, page: Page, n: nat,
                 trampoline: nat, want: map<nat, Want>)
    requires Process(m0, u0, mem, used, t, frame) && ProcMap(t, n, frame, trampoline) && Filled(mem, t, 0, n, want)
    ensures frame in used && Process(m0, u0, mem[frame := page], used, t, frame) &&
            Filled(mem[frame := page], t, 0, n, want)
  {
    hide Rep, PageOf, Flags, Pte;
    RepPages(mem, t);
    RepFrame(mem, mem[frame := page], t);
    forall v | 0 <= v < n ensures PageOf(t.leaf[v]) != frame {
      assert OwnsAt(t, v);
    }
  }

  /** fork, as far as memory goes. On success the child has the parent's user pages, flags and content equal, in pages
      that were free, and the parent's registers but for a 0 in a0. On failure every page taken is back. Either way no
      page that was in use changes, so every other address space is as it was. It succeeds if four pages are free for
      the process and three for each user page, and only if four and one for each are. */
  method Fork(km: Kmem, parentFrame: nat, oldroot: nat, ghost o: Tree, sz: nat, trampoline: nat)
    returns (ok: bool, frame: nat, root: nat, ghost t: Tree)
    requires km.Valid() && Space(km.mem, km.used, o) && oldroot == o.root && User(o, Up(sz)) && parentFrame in km.used
    modifies km`mem, km`freelist, km`free, km`used
    ensures ok ==> root == t.root != 0 && Process(old(km.mem), old(km.used), km.mem, km.used, t, frame)
    ensures ok ==> ProcMap(t, Up(sz), frame, trampoline)
    ensures ok ==> Filled(km.mem, t, 0, Up(sz), Image(old(km.mem), o, Up(sz)))
    ensures ok ==> parentFrame in old(km.mem) && frame in km.mem && km.mem[frame] == old(km.mem)[parentFrame][A0 := 0]
    ensures !ok ==> km.used == old(km.used) && Kept(old(km.mem), old(km.used), km.mem, km.used, {})
    ensures |old(km.free)| >= 4 + 3 * Up(sz) ==> ok
    ensures ok ==> |old(km.free)| >= 4 + Up(sz)
    ensures km.Valid()
  {
    hide Conserved, Space, Rep, User, Pages, ProcMap, Up, Process, Growing, Grown, Filled, Image, Held, Kept;
    ConservedUsed(km.mem, km.freelist, km.free, km.used, km.lo, km.hi);
    ok, frame, root, t := Allocproc(km, trampoline);
    if !ok {
      return;
    }
    ghost var m1: Memory, u1: set<nat>, t1 := km.mem, km.used, t;
    ParentApart(old(km.mem), old(km.used), m1, u1, t, frame, o, Up(sz));
    EmptyProc(t, frame, trampoline);
    ok, t := Uvmcopy(km, oldroot, o, root, t, sz);
    if !ok {
      NotCopied(old(km.mem), old(km.used), m1, u1, t1, km.mem, km.used, t, frame, trampoline);
      m1, u1 := km.mem, km.used;
      Whole(0);
      Freeproc(km, frame, root, t, 0, trampoline);
      ProcessDied(old(km.mem), old(km.used), m1, u1, t, frame, root, km.mem, km.used);
      return;
    }
    Copied(old(km.mem), old(km.used), m1, u1, t1, km.mem, km.used, t, frame, trampoline, Up(sz),
           Image(old(km.mem), o, Up(sz)));
    ProcessKept(old(km.mem), old(km.used), km.mem, km.used, t, frame, parentFrame);
    FrameSet(old(km.mem), old(km.used), km.mem, km.used, t, frame, km.mem[parentFrame][A0 := 0], Up(sz), trampoline,
             Image(old(km.mem), o, Up(sz)));
    km.SetPage(frame, km.mem[parentFrame][A0 := 0]);
  }

  lemma EmptyProc(t: Tree, frame: nat, trampoline: nat)
    requires ProcMap(t, 0, frame, trampoline)
    ensures User(t, 0)
  {
  }

  lemma ProcessKept(m0: Memory, u0: set<nat>, mem: Memory, used: set<nat>, t: Tree, frame: nat, p: nat)
    requires Process(m0, u0, mem, used, t, frame) && p in u0
    ensures p in m0 && p in mem && mem[p] == m0[p]
  {
  }
}
