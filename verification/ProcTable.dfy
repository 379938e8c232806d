/** All processes at once: at every moment every page of memory is free or has exactly one role. */
module ProcTable {
  import opened Kalloc
  import opened Sv39
  import opened Vm
  import opened Uvm
  import opened Freewalk
  import opened ProcMemory

  const U32: nat := 0x1_0000_0000
  const MAXPAGES: nat := 0x10_0000     // 4 GB of pages; PHYSTOP is far below

  /** What a used slot of proc[] says about memory. */
  datatype Rec = Rec(frame: nat, root: nat, sz: nat)

  /** Who has a page in use: a process, or something else in the kernel. */
  datatype Who = Proc(i: nat) | Other

  /** A process and its address space. */
  ghost predicate ProcOk(mem: Memory, used: set<nat>, trampoline: nat, c: Rec, t: Tree) {
    && Space(mem, used, t) && c.root == t.root && c.root != 0 && c.frame != 0 && c.frame in used
    && ProcMap(t, Up(c.sz), c.frame, trampoline)
  }

  ghost function HeldOf(c: Rec, t: Tree): set<nat> {
    Held(c.frame, c.root, t)
  }

  /** The pages of process i are exactly those of s. */
  ghost predicate Has(at: map<nat, Who>, i: nat, s: set<nat>) {
    forall p :: p in s <==> p in at && at[p] == Proc(i)
  }

  /** The pages in use are those of the processes, each page one's, and those of others. */
  ghost predicate TableOk(mem: Memory, used: set<nat>, trampoline: nat, procs: map<nat, Rec>, trees: map<nat, Tree>,
                          at: map<nat, Who>) {
    && at.Keys == used && trees.Keys == procs.Keys
    && (forall i :: i in procs ==>
        i in trees && ProcOk(mem, used, trampoline, procs[i], trees[i]) && Has(at, i, HeldOf(procs[i], trees[i])))
    && (forall p :: p in at && at[p].Proc? ==> at[p].i in procs)
  }

  /** A process whose pages were neither changed nor freed is as it was. */
  lemma ProcKept(mem: Memory, used: set<nat>, trampoline: nat, c: Rec, t: Tree, mem': Memory, used': set<nat>,
                 s: set<nat>)
    requires ProcOk(mem, used, trampoline, c, t) && Kept(mem, used, mem', used', s) && HeldOf(c, t) !! s
    ensures ProcOk(mem', used', trampoline, c, t)
  {
    hide Space, ProcMap;
    SpaceKept(mem, used, mem', used', s, t);
  }

  /** The pages of s' given to process i; the rest of those in use stay with who had them. */
  ghost function Given(at: map<nat, Who>, used: set<nat>, i: nat, s': set<nat>): map<nat, Who> {
    map p | p in used :: if p in s' then Proc(i) else if p in at then at[p] else Other
  }

  /** One process changes, begins or ends; what it has now is what it had, pages that were free, or nothing. */
  lemma TableStep(mem: Memory, used: set<nat>, trampoline: nat, procs: map<nat, Rec>, trees: map<nat, Tree>,
                  at: map<nat, Who>, i: nat, s: set<nat>, c: Rec, t: Tree, mem': Memory, used': set<nat>)
    requires TableOk(mem, used, trampoline, procs, trees, at) &&
             s == (if i in procs then HeldOf(procs[i], trees[i]) else {})
    requires Kept(mem, used, mem', used', s) && ProcOk(mem', used', trampoline, c, t) && HeldOf(c, t) <= used'
    requires used' - HeldOf(c, t) == used - s && HeldOf(c, t) !! (used - s)
    ensures TableOk(mem', used', trampoline, procs[i := c], trees[i := t], Given(at, used', i, HeldOf(c, t)))
  {
    hide ProcOk, HeldOf, Kept;
    var at' := Given(at, used', i, HeldOf(c, t));
    Rest(at, used, i, s, used', HeldOf(c, t));
    forall j | j in procs && j != i
      ensures ProcOk(mem', used', trampoline, procs[j], trees[j]) && Has(at', j, HeldOf(procs[j], trees[j]))
    {
      Apart(at, i, s, j, HeldOf(procs[j], trees[j]));
      ProcKept(mem, used, trampoline, procs[j], trees[j], mem', used', s);
    }
  }

  lemma TableEnd(mem: Memory, used: set<nat>, trampoline: nat, procs: map<nat, Rec>, trees: map<nat, Tree>,
                 at: map<nat, Who>,
                 i: nat, s: set<nat>, mem': Memory, used': set<nat>)
    requires TableOk(mem, used, trampoline, procs, trees, at) && i in procs && s == HeldOf(procs[i], trees[i])
    requires Kept(mem, used, mem', used', s) && used' == used - s
    ensures TableOk(mem', used', trampoline, procs - {i}, trees - {i}, Given(at, used', i, {}))
  {
    hide ProcOk, HeldOf, Kept;
    var at' := Given(at, used', i, {});
    forall j | j in procs && j != i
      ensures ProcOk(mem', used', trampoline, procs[j], trees[j]) && Has(at', j, HeldOf(procs[j], trees[j]))
    {
      Apart(at, i, s, j, HeldOf(procs[j], trees[j]));
      ProcKept(mem, used, trampoline, procs[j], trees[j], mem', used', s);
    }
    assert (trees - {i}).Keys == (procs - {i}).Keys;
  }

  lemma Apart(at: map<nat, Who>, i: nat, s: set<nat>, j: nat, s': set<nat>)
    requires (Has(at, i, s) || s == {}) && Has(at, j, s') && i != j
    ensures s' !! s
  {
  }

  /** Who has what after process i got the pages of s'. */
  lemma Rest(at: map<nat, Who>, used: set<nat>, i: nat, s: set<nat>, used': set<nat>, s': set<nat>)
    requires at.Keys == used && (Has(at, i, s) || (s == {} && forall p :: p in at ==> at[p] != Proc(i)))
    requires used' - s' == used - s && s' <= used' && s' !! (used - s)
    ensures Given(at, used', i, s').Keys == used' && Has(Given(at, used', i, s'), i, s')
    ensures forall p :: p in used - s ==> p in used' && p !in s' && p in at && Given(at, used', i, s')[p] == at[p]
    ensures forall p :: p in used' && p !in s' ==> p in used - s
  {
    var at' := Given(at, used', i, s');
    forall p | p in used - s ensures p in used' && p !in s' {
      assert p in used' - s';
    }
    forall p | p in used' && p !in s' ensures p in used - s {
      assert p in used' - s';
    }
  }

  // ------------------------------------------------------------------------------------------------------------------
  // What each operation does to one process
  // ------------------------------------------------------------------------------------------------------------------

  /** Process c, t became c', t': its pages are now s', those of others are as they were. */
  ghost predicate Swapped(mem: Memory, used: set<nat>, s: set<nat>, mem': Memory, used': set<nat>, s': set<nat>) {
    Kept(mem, used, mem', used', s) && s' <= used' && used' - s' == used - s && s' !! (used - s)
  }

  lemma Begun(mem: Memory, used: set<nat>, mem': Memory, used': set<nat>, trampoline: nat, c: Rec, t: Tree)
    requires Process(mem, used, mem', used', t, c.frame) && c.root == t.root != 0 &&
             ProcMap(t, Up(c.sz), c.frame, trampoline)
    ensures ProcOk(mem', used', trampoline, c, t) && Swapped(mem, used, {}, mem', used', HeldOf(c, t))
  {
    hide Space, ProcMap, Kept;
  }

  lemma Grew1(mem: Memory, used: set<nat>, trampoline: nat, c: Rec, t: Tree, mem': Memory, used': set<nat>, t': Tree,
              sz: nat)
    requires ProcOk(mem, used, trampoline, c, t) && Enlarged(mem, used, t, mem', used', t') && User(t', Up(sz)) &&
             Up(c.sz) <= Up(sz)
    requires forall v :: v in t'.leaf ==> v in t.leaf || v < Up(sz)
    ensures ProcOk(mem', used', trampoline, c.(sz := sz), t')
    ensures Swapped(mem, used, HeldOf(c, t), mem', used', HeldOf(c.(sz := sz), t'))
  {
    hide Space, User, OwnsAt, Pte, Kept, ProcMap;
    FrameOut(t, Up(c.sz), c.frame, trampoline);
    KeptMore(mem, used, mem', used', t.at.Keys, HeldOf(c, t));
    assert c.frame !in ProcMemory.Pages(t');
    ProcMapGrown(t, Up(c.sz), t', Up(sz), c.frame, trampoline);
  }

  lemma FrameOut(t: Tree, n: nat, frame: nat, trampoline: nat)
    requires ProcMap(t, n, frame, trampoline)
    ensures frame !in ProcMemory.Pages(t) && frame !in t.at && frame !in t.own && User(t, n)
  {
  }

  lemma UserSame(t: Tree, t': Tree, n: nat)
    requires User(t, n) && t'.leaf == t.leaf && t'.own == t.own
    ensures User(t', n)
  {
    forall v | 0 <= v < n ensures OwnsAt(t', v) {
      assert OwnsAt(t, v);
    }
  }

  lemma Shrank(mem: Memory, used: set<nat>, trampoline: nat, c: Rec, t: Tree, mem': Memory, used': set<nat>, t': Tree,
               sz: nat)
    requires ProcOk(mem, used, trampoline, c, t) && Shrunk(mem, used, t, mem', used', t') && User(t', Up(sz)) &&
             Up(sz) <= Up(c.sz)
    requires t' == t || t' == Unmapped(t, Up(sz), Up(c.sz) - Up(sz), true)
    ensures ProcOk(mem', used', trampoline, c.(sz := sz), t')
    ensures Swapped(mem, used, HeldOf(c, t), mem', used', HeldOf(c.(sz := sz), t'))
  {
    hide Space, OwnsAt, Pte, Rep, Owns;
    FrameOut(t, Up(c.sz), c.frame, trampoline);
    LessMapped(t, t', Up(c.sz), Up(sz));
    assert ProcMap(t', Up(sz), c.frame, trampoline);
    assert Kept(mem, used, mem', used', HeldOf(c, t));
    assert used' - HeldOf(c, t') == used - HeldOf(c, t);
    PagesUsed(mem', used', t');
  }

  lemma PagesUsed(mem: Memory, used: set<nat>, t: Tree)
    requires Space(mem, used, t)
    ensures ProcMemory.Pages(t) <= used && t.at.Keys !! t.own.Keys
  {
    assert forall p :: p in t.own ==> p !in t.at;
  }

  lemma LessMapped(t: Tree, t': Tree, n: nat, m: nat)
    requires User(t, n) && User(t', m) && m <= n && (t' == t || t' == Unmapped(t, m, n - m, true))
    ensures forall v :: v in t'.leaf ==> v in t.leaf && t'.leaf[v] == t.leaf[v] && (v < m || v >= TRAPFRAME)
    ensures forall v :: v in t.leaf && v >= TRAPFRAME ==> v in t'.leaf
  {
    hide OwnsAt;
  }

  /** The size growproc asks for, in 32-bit arithmetic: a wrapped sum changes nothing. */
  function NewSize(sz: nat, n: int): nat {
    var m := (sz + n) % U32;
    if (n > 0 && m > sz) || (n < 0 && m < sz) then m else sz
  }

  /** The content of the pages a process keeps is what it was. */
  lemma KeepsImage(mem: Memory, used: set<nat>, t: Tree, mem': Memory, used': set<nat>, t': Tree, n: nat)
    requires Space(mem, used, t) && User(t, n) && n <= TRAPFRAME
    requires forall v :: 0 <= v < n && v in t.leaf ==> v in t'.leaf && t'.leaf[v] == t.leaf[v]
    requires forall p :: p in t.own && t.own[p] < n ==> p in mem && p in mem' && mem'[p] == mem[p]
    ensures Image(mem', t', n) == Image(mem, t, n)
  {
    hide PageOf, Flags, Space;
    forall v | 0 <= v < n
      ensures v in t.leaf && PageOf(t.leaf[v]) in mem && PageOf(t.leaf[v]) in mem' &&
              mem'[PageOf(t.leaf[v])] == mem[PageOf(t.leaf[v])]
    {
      assert OwnsAt(t, v);
    }
  }

  datatype Role = FreePage | OtherPage | Frame(i: nat) | TablePage(i: nat, node: Node) | UserPage(i: nat, v: nat)

  lemma Holder(mem: Memory, used: set<nat>, trampoline: nat, procs: map<nat, Rec>, trees: map<nat, Tree>,
               at: map<nat, Who>, p: nat)
    requires TableOk(mem, used, trampoline, procs, trees, at) && p in used
    ensures p in at && (at[p].Proc? ==> at[p].i in procs && at[p].i in trees)
    ensures at[p].Proc? ==> var c, t := procs[at[p].i], trees[at[p].i]; p == c.frame || p in t.at || p in t.own
  {
    hide ProcOk;
    assert p in at.Keys;
    if at[p].Proc? {
      assert Has(at, at[p].i, HeldOf(procs[at[p].i], trees[at[p].i]));
    }
  }

  lemma SizeBound(mem: Memory, head: nat, free: seq<nat>, used: set<nat>, lo: nat, hi: nat, t: Tree, sz: nat)
    requires Conserved(mem, head, free, used, lo, hi) && Space(mem, used, t) && User(t, Up(sz)) && hi - lo < MAXPAGES
    ensures sz < U32
  {
    hide Conserved, Space, User;
    UserBound(mem, head, free, used, lo, hi, t, Up(sz));
  }

  /** What growproc did when uvmalloc succeeded. */
  lemma GrewTable(mem: Memory, used: set<nat>, trampoline: nat, procs: map<nat, Rec>, trees: map<nat, Tree>,
                  at: map<nat, Who>,
                  i: nat, t: Tree, mem': Memory, used': set<nat>, t': Tree, sz: nat, want: map<nat, Want>)
    requires TableOk(mem, used, trampoline, procs, trees, at) && i in procs && i in trees && t == trees[i]
    requires Growing(mem, used, t, mem', used', t', Up(procs[i].sz), Up(sz), want)
    ensures var c := procs[i].(sz := sz);
            TableOk(mem', used', trampoline, procs[i := c], trees[i := t'], Given(at, used', i, HeldOf(c, t')))
    ensures Kept(mem, used, mem', used', HeldOf(procs[i], t)) &&
            Image(mem', t', Up(procs[i].sz)) == Image(mem, t, Up(procs[i].sz))
  {
    hide TableOk, ProcOk, HeldOf, Kept, Space, User, Filled, Given, OwnsAt, Image;
    ParentOk(mem, used, trampoline, procs, trees, at, i);
    Grew1(mem, used, trampoline, procs[i], t, mem', used', t', sz);
    TableStep(mem, used, trampoline, procs, trees, at, i, HeldOf(procs[i], t), procs[i].(sz := sz), t', mem', used');
    GrewImage(mem, used, t, mem', used', t', Up(procs[i].sz));
  }

  lemma GrewImage(mem: Memory, used: set<nat>, t: Tree, mem': Memory, used': set<nat>, t': Tree, n: nat)
    requires Space(mem, used, t) && User(t, n) && Enlarged(mem, used, t, mem', used', t')
    ensures Image(mem', t', n) == Image(mem, t, n)
  {
    hide Rep, Image, OwnsAt;
    PagesUsed(mem, used, t);
    forall p | p in t.own ensures p in mem && p in mem' && mem'[p] == mem[p] {
      assert p in t.own.Keys && p in used;
    }
    KeepsImage(mem, used, t, mem', used', t', n);
  }

  /** What it did when uvmalloc failed: at most tables were added. */
  lemma NotGrewTable(mem: Memory, used: set<nat>, trampoline: nat, procs: map<nat, Rec>, trees: map<nat, Tree>,
                     at: map<nat, Who>, i: nat, t: Tree, mem': Memory, used': set<nat>, t': Tree)
    requires TableOk(mem, used, trampoline, procs, trees, at) && i in procs && i in trees && t == trees[i]
    requires Grown(mem, used, t, mem', used', t') && t'.leaf == t.leaf
    ensures TableOk(mem', used', trampoline, procs, trees[i := t'], Given(at, used', i, HeldOf(procs[i], t')))
    ensures Kept(mem, used, mem', used', HeldOf(procs[i], t)) &&
            Image(mem', t', Up(procs[i].sz)) == Image(mem, t, Up(procs[i].sz))
  {
    hide TableOk, ProcOk, HeldOf, Kept, Space, User, Given, OwnsAt, Image, Tables, Enlarged;
    ParentOk(mem, used, trampoline, procs, trees, at, i);
    GrownEnlarges(mem, used, t, mem', used', t');
    UserSame(t, t', Up(procs[i].sz));
    var c := procs[i];
    OldLeaves(t, Up(c.sz));
    Grew1(mem, used, trampoline, c, t, mem', used', t', c.sz);
    TableStep(mem, used, trampoline, procs, trees, at, i, HeldOf(c, t), c, t', mem', used');
    assert procs[i := c] == procs;
    GrewImage(mem, used, t, mem', used', t', Up(c.sz));
  }

  lemma OldLeaves(t: Tree, n: nat)
    ensures forall v :: v in t.leaf ==> v in t.leaf || v < n
  {
  }

  lemma ShrankTable(mem: Memory, used: set<nat>, trampoline: nat, procs: map<nat, Rec>, trees: map<nat, Tree>,
                    at: map<nat, Who>, i: nat, t: Tree, mem': Memory, used': set<nat>, t': Tree, sz: nat)
    requires TableOk(mem, used, trampoline, procs, trees, at) && i in procs && i in trees && t == trees[i] &&
             Up(sz) <= Up(procs[i].sz)
    requires Shrunk(mem, used, t, mem', used', t') && User(t', Up(sz))
    requires t' == t || t' == Unmapped(t, Up(sz), Up(procs[i].sz) - Up(sz), true)
    ensures var c := procs[i].(sz := sz);
            TableOk(mem', used', trampoline, procs[i := c], trees[i := t'], Given(at, used', i, HeldOf(c, t')))
    ensures Kept(mem, used, mem', used', HeldOf(procs[i], t)) && Image(mem', t', Up(sz)) == Image(mem, t, Up(sz))
  {
    hide TableOk, ProcOk, HeldOf, Kept, Space, User, Given, OwnsAt, Image, Unmapped, Shrunk;
    ParentOk(mem, used, trampoline, procs, trees, at, i);
    Shrank(mem, used, trampoline, procs[i], t, mem', used', t', sz);
    TableStep(mem, used, trampoline, procs, trees, at, i, HeldOf(procs[i], t), procs[i].(sz := sz), t', mem', used');
    ShrankImage(mem, used, t, mem', used', t', Up(procs[i].sz), Up(sz));
  }

  lemma ShrankImage(mem: Memory, used: set<nat>, t: Tree, mem': Memory, used': set<nat>, t': Tree, n: nat, m: nat)
    requires Space(mem, used, t) && User(t, n) && m <= n && Shrunk(mem, used, t, mem', used', t') && User(t', m)
    requires t' == t || t' == Unmapped(t, m, n - m, true)
    ensures Image(mem', t', m) == Image(mem, t, m)
  {
    hide Rep, PageOf, Flags, Space, Kept, Image, Unmapped;
    LessMapped(t, t', n, m);
    forall v | 0 <= v < m
      ensures v in t.leaf && v in t'.leaf && t'.leaf[v] == t.leaf[v] && PageOf(t.leaf[v]) in mem &&
              PageOf(t.leaf[v]) in mem'
      ensures mem'[PageOf(t.leaf[v])] == mem[PageOf(t.leaf[v])]
    {
      assert OwnsAt(t, v) && OwnsAt(t', v);
    }
    ImageSame(mem, t, mem', t', m);
  }

  lemma ImageSame(mem: Memory, t: Tree, mem': Memory, t': Tree, n: nat)
    requires forall v :: 0 <= v < n ==> v in t.leaf && v in t'.leaf && t'.leaf[v] == t.leaf[v]
    requires forall v :: 0 <= v < n ==>
             PageOf(t.leaf[v]) in mem && PageOf(t.leaf[v]) in mem' && mem'[PageOf(t.leaf[v])] == mem[PageOf(t.leaf[v])]
    ensures Image(mem', t', n) == Image(mem, t, n)
  {
    hide PageOf, Flags;
    assert forall v :: v in Span(0, n) ==> 0 <= v < n;
  }

  class Table {
    const km: Kmem
    const trampoline: nat
    var procs: map<nat, Rec>        // the used slots of proc[]
    ghost var trees: map<nat, Tree>
    ghost var at: map<nat, Who>

    ghost predicate Valid()
      reads this, km
    {
      km.Valid() && km.hi - km.lo < MAXPAGES && TableOk(km.mem, km.used, trampoline, procs, trees, at)
    }

    /** Page p has this role. */
    ghost predicate Plays(p: nat, r: Role)
      reads this, km
    {
      match r
      case FreePage => p in km.free
      case OtherPage => p in at && at[p] == Other
      case Frame(i) => i in procs && procs[i].frame == p
      case TablePage(i, node) => i in trees && p in trees[i].at && trees[i].at[p] == node
      case UserPage(i, v) => i in trees && p in trees[i].own && trees[i].own[p] == v
    }

    /** Every page of memory has exactly one role. */
    lemma OneRole(p: nat)
      requires Valid() && km.lo <= p < km.hi
      ensures exists r :: Plays(p, r)
      ensures forall r, r' :: Plays(p, r) && Plays(p, r') ==> r == r'
    {
      var r := SomeRole(p);
      forall r, r' | Plays(p, r) && Plays(p, r') ensures r == r' {
        Unique(p, r);
        Unique(p, r');
        SameRole(p, r, r');
      }
    }

    lemma SomeRole(p: nat) returns (r: Role)
      requires Valid() && km.lo <= p < km.hi
      ensures Plays(p, r)
    {
      hide TableOk, Conserved;
      InUse(p);
      if p !in km.used {
        return FreePage;
      }
      Holder(km.mem, km.used, trampoline, procs, trees, at, p);
      if at[p] == Other {
        return OtherPage;
      }
      var i := at[p].i;
      if p == procs[i].frame {
        return Frame(i);
      }
      if p in trees[i].at {
        return TablePage(i, trees[i].at[p]);
      }
      return UserPage(i, trees[i].own[p]);
    }

    lemma InUse(p: nat)
      requires Valid() && km.lo <= p < km.hi
      ensures p in km.used || p in km.free
    {
      hide TableOk;
    }

    /** A role tells who has the page. */
    lemma Unique(p: nat, r: Role)
      requires Valid() && Plays(p, r)
      ensures r == FreePage <==> p !in km.used
      ensures r == OtherPage <==> p in at && at[p] == Other
      ensures !r.FreePage? && !r.OtherPage? ==> p in at && at[p] == Proc(r.i) && r.i in procs
    {
      hide Space, ProcMap;
      ConservedUsed(km.mem, km.freelist, km.free, km.used, km.lo, km.hi);
      if !r.FreePage? && !r.OtherPage? {
        assert r.i in trees.Keys && r.i in procs;
        assert Has(at, r.i, HeldOf(procs[r.i], trees[r.i]));
        assert p in HeldOf(procs[r.i], trees[r.i]);
      }
    }

    lemma SameRole(p: nat, r: Role, r': Role)
      requires Valid() && Plays(p, r) && Plays(p, r')
      requires r == FreePage <==> r' == FreePage
      requires r == OtherPage <==> r' == OtherPage
      requires !r.FreePage? && !r.OtherPage? ==> !r'.FreePage? && !r'.OtherPage? && r.i == r'.i && r.i in procs
      ensures r == r'
    {
      if !r.FreePage? && !r.OtherPage? {
        assert ProcOk(km.mem, km.used, trampoline, procs[r.i], trees[r.i]);
        assert Owns(trees[r.i]);
      }
    }

    /** Before there are processes all pages in use are the kernel's. */
    constructor (km: Kmem, trampoline: nat)
      requires km.Valid() && km.hi - km.lo < MAXPAGES
      ensures Valid() && this.km == km && procs == map[]
    {
      this.km, this.trampoline, procs := km, trampoline, map[];
      trees, at := map[], map p | p in km.used :: Other;
    }

    /** kalloc by another part of the kernel. */
    method Take() returns (ok: bool, p: nat)
      requires Valid()
      modifies this`at, km`mem, km`freelist, km`free, km`used
      ensures Valid() && (ok <==> old(km.free) != [])
      ensures ok ==> p !in old(km.used) && km.used == old(km.used) + {p} && at == old(at)[p := Other]
      ensures !ok ==> km.used == old(km.used) && at == old(at)
    {
      hide Conserved, TableOk;
      ConservedUsed(km.mem, km.freelist, km.free, km.used, km.lo, km.hi);
      ok, p := km.Kalloc();
      if ok {
        TakenKept(old(km.mem), old(km.used), p, Fill(JUNK_ALLOCATED));
        OtherUsed(old(km.mem), old(km.used), trampoline, procs, trees, at, p);
        TableOther(old(km.mem), old(km.used), trampoline, procs, trees, at, km.mem, km.used, at[p := Other], {});
        at := at[p := Other];
      }
    }

    /** kfree of a page it has. */
    method Give(p: nat)
      requires Valid() && p in at && at[p] == Other
      modifies this`at, km`mem, km`freelist, km`free, km`used
      ensures Valid() && km.used == old(km.used) - {p} && at == old(at) - {p}
    {
      hide Conserved, TableOk;
      OtherUsed(km.mem, km.used, trampoline, procs, trees, at, p);
      ConservedUsed(km.mem, km.freelist, km.free, km.used, km.lo, km.hi);
      var ok := km.Kfree(p);
      KfreeKept(old(km.mem), old(km.used), km.mem, km.used, p);
      TableOther(old(km.mem), old(km.used), trampoline, procs, trees, at, km.mem, km.used, at - {p}, {p});
      at := at - {p};
    }

    /** allocproc into slot i. */
    method Alloc(i: nat) returns (ok: bool)
      requires Valid() && i !in procs
      modifies this`procs, this`trees, this`at, km`mem, km`freelist, km`free, km`used
      ensures Valid() && (ok <==> |old(km.free)| >= 4) && Kept(old(km.mem), old(km.used), km.mem, km.used, {})
      ensures ok ==> i in procs && procs == old(procs)[i := procs[i]] && i in trees &&
                     trees == old(trees)[i := trees[i]] && procs[i].sz == 0
      ensures !ok ==> procs == old(procs) && trees == old(trees) && km.used == old(km.used)
    {
      hide Conserved, TableOk, ProcOk, HeldOf, Process, ProcMap, Up, Given;
      Whole(0);
      var frame, root;
      ghost var t;
      ok, frame, root, t := Allocproc(km, trampoline);
      if !ok {
        TableSame(old(km.mem), old(km.used), trampoline, procs, trees, at, km.mem);
        return;
      }
      ghost var c := Rec(frame, root, 0);
      Started(old(km.mem), old(km.used), trampoline, procs, trees, at, i, c, t, km.mem, km.used);
      procs, trees, at := procs[i := Rec(frame, root, 0)], trees[i := t], Given(at, km.used, i, HeldOf(c, t));
    }

    /** fork of process i into slot j: the child has the parent's size and user pages, in pages that were free. */
    method Fork(i: nat, j: nat) returns (ok: bool)
      requires Valid() && i in procs && j !in procs
      modifies this`procs, this`trees, this`at, km`mem, km`freelist, km`free, km`used
      ensures Valid() && Kept(old(km.mem), old(km.used), km.mem, km.used, {})
      ensures |old(km.free)| >= 4 + 3 * Up(old(procs)[i].sz) ==> ok
      ensures ok ==> j in procs && procs == old(procs)[j := procs[j]] && procs[j].sz == procs[i].sz
      ensures ok ==> i in old(trees) && j in trees && trees == old(trees)[j := trees[j]]
      ensures ok ==> Filled(km.mem, trees[j], 0, Up(procs[j].sz), Image(old(km.mem), old(trees)[i], Up(procs[j].sz)))
      ensures !ok ==> procs == old(procs) && trees == old(trees) && km.used == old(km.used)
    {
      hide Conserved, TableOk, ProcOk, HeldOf, Process, ProcMap, Up, Given, Filled, Image, Space, User, Kept;
      ParentOk(km.mem, km.used, trampoline, procs, trees, at, i);
      var c := procs[i];
      var frame, root;
      ghost var t;
      ok, frame, root, t := ProcMemory.Fork(km, c.frame, c.root, trees[i], c.sz, trampoline);
      if !ok {
        TableSame(old(km.mem), old(km.used), trampoline, procs, trees, at, km.mem);
        return;
      }
      ghost var d := Rec(frame, root, c.sz);
      Started(old(km.mem), old(km.used), trampoline, procs, trees, at, j, d, t, km.mem, km.used);
      procs, trees, at := procs[j := Rec(frame, root, c.sz)], trees[j := t], Given(at, km.used, j, HeldOf(d, t));
    }

    /** growproc by n bytes. The size is p->sz + n in 32-bit arithmetic, and a sum that wraps changes nothing. Pages the
        process keeps hold what they held, new ones are zero. It fails only when growing, with too few free pages, and
        then size and entries are as before. */
    method Grow(i: nat, n: int) returns (ok: bool)
      requires Valid() && i in procs && -0x8000_0000 <= n < 0x8000_0000
      modifies this`procs, this`trees, this`at, km`mem, km`freelist, km`free, km`used
      ensures Valid() && procs ==
              old(procs)[i := old(procs)[i].(sz := if ok then NewSize(old(procs)[i].sz, n) else old(procs)[i].sz)]
      ensures i in trees && i in old(trees) && trees == old(trees)[i := trees[i]]
      ensures Kept(old(km.mem), old(km.used), km.mem, km.used, HeldOf(old(procs)[i], old(trees)[i]))
      ensures var m := if procs[i].sz < old(procs)[i].sz then Up(procs[i].sz) else Up(old(procs)[i].sz);
        Image(km.mem, trees[i], m) == Image(old(km.mem), old(trees)[i], m)
      ensures !ok ==> n > 0 && trees[i].leaf == old(trees)[i].leaf &&
                      |old(km.free)| < 3 * (Up(NewSize(old(procs)[i].sz, n)) - Up(old(procs)[i].sz))
      ensures ok && n > 0 ==> Filled(km.mem, trees[i], Up(old(procs)[i].sz), Up(procs[i].sz),
                                     Zeroes(Up(old(procs)[i].sz), Up(procs[i].sz)))
    {
      hide Conserved, TableOk, ProcOk, HeldOf, Growing, Grown, Enlarged, ProcMap, Up, Given, Filled, Image, Space, User,
           Kept, Shrunk, Unmapped, Zeroes;
      ParentOk(km.mem, km.used, trampoline, procs, trees, at, i);
      var sz := procs[i].sz;
      SizeBound(km.mem, km.freelist, km.free, km.used, km.lo, km.hi, trees[i], sz);
      var newsz := (sz + n) % U32;
      NotChanged(km.mem, km.freelist, km.free, km.used, km.lo, km.hi, trampoline, procs, trees, at, i);
      if n > 0 {
        var r;
        ghost var got, t;
        r, got, t := Uvmalloc(km, procs[i].root, trees[i], sz, newsz);
        if r == 0 {
          NotGrewTable(old(km.mem), old(km.used), trampoline, procs, trees, at, i, trees[i], km.mem, km.used, t);
          trees, at := trees[i := t], Given(at, km.used, i, HeldOf(procs[i], t));
          return false;
        }
        if newsz < sz {
          return true;
        }
        GrowingFilled(old(km.mem), old(km.used), trees[i], km.mem, km.used, t, Up(sz), Up(newsz),
                      Zeroes(Up(sz), Up(newsz)));
        GrewTable(old(km.mem), old(km.used), trampoline, procs, trees, at, i, trees[i], km.mem, km.used, t, newsz,
                  Zeroes(Up(sz), Up(newsz)));
        sz := r;
        procs, trees := procs[i := procs[i].(sz := sz)], trees[i := t];
        at := Given(at, km.used, i, HeldOf(procs[i], t));
      } else if n < 0 {
        var r;
        ghost var t;
        r, t := Uvmdealloc(km, procs[i].root, trees[i], sz, newsz);
        UpMono(r, sz);
        ShrankTable(old(km.mem), old(km.used), trampoline, procs, trees, at, i, trees[i], km.mem, km.used, t, r);
        sz := r;
        procs, trees := procs[i := procs[i].(sz := sz)], trees[i := t];
        at := Given(at, km.used, i, HeldOf(procs[i], t));
      }
      return true;
    }

    /** freeproc of slot i: exactly its pages go back. */
    method Free(i: nat)
      requires Valid() && i in procs
      modifies this`procs, this`trees, this`at, km`mem, km`freelist, km`free, km`used
      ensures Valid() && procs == old(procs) - {i} && trees == old(trees) - {i} && i in old(trees)
      ensures km.used == old(km.used) - HeldOf(old(procs)[i], old(trees)[i])
      ensures Kept(old(km.mem), old(km.used), km.mem, km.used, HeldOf(old(procs)[i], old(trees)[i]))
    {
      hide Conserved, TableOk, ProcOk, ProcMap, Up, Given, Space, User, Kept;
      ParentOk(km.mem, km.used, trampoline, procs, trees, at, i);
      var c := procs[i];
      Freeproc(km, c.frame, c.root, trees[i], c.sz, trampoline);
      TableEnd(old(km.mem), old(km.used), trampoline, procs, trees, at, i, HeldOf(c, trees[i]), km.mem, km.used);
      procs, trees, at := procs - {i}, trees - {i}, Given(at, km.used, i, {});
    }
  }

  lemma TableSame(mem: Memory, used: set<nat>, trampoline: nat, procs: map<nat, Rec>, trees: map<nat, Tree>,
                  at: map<nat, Who>, mem': Memory)
    requires TableOk(mem, used, trampoline, procs, trees, at) && Kept(mem, used, mem', used, {})
    ensures TableOk(mem', used, trampoline, procs, trees, at)
  {
    hide ProcOk, HeldOf, Kept;
    forall j | j in procs ensures ProcOk(mem', used, trampoline, procs[j], trees[j]) {
      ProcKept(mem, used, trampoline, procs[j], trees[j], mem', used, {});
    }
  }

  /** A new process in a free slot. */
  lemma Started(mem: Memory, used: set<nat>, trampoline: nat, procs: map<nat, Rec>, trees: map<nat, Tree>,
                at: map<nat, Who>,
                i: nat, c: Rec, t: Tree, mem': Memory, used': set<nat>)
    requires TableOk(mem, used, trampoline, procs, trees, at) && i !in procs
    requires Process(mem, used, mem', used', t, c.frame) && c.root == t.root != 0 &&
             ProcMap(t, Up(c.sz), c.frame, trampoline)
    ensures TableOk(mem', used', trampoline, procs[i := c], trees[i := t], Given(at, used', i, HeldOf(c, t)))
    ensures Kept(mem, used, mem', used', {})
  {
    hide TableOk, ProcOk, HeldOf, Process, ProcMap, Kept;
    Begun(mem, used, mem', used', trampoline, c, t);
    TableStep(mem, used, trampoline, procs, trees, at, i, {}, c, t, mem', used');
  }

  lemma ParentOk(mem: Memory, used: set<nat>, trampoline: nat, procs: map<nat, Rec>, trees: map<nat, Tree>,
                 at: map<nat, Who>, i: nat)
    requires TableOk(mem, used, trampoline, procs, trees, at) && i in procs
    ensures i in trees && ProcOk(mem, used, trampoline, procs[i], trees[i])
    ensures Space(mem, used, trees[i]) && procs[i].root == trees[i].root != 0 && procs[i].frame != 0 &&
            procs[i].frame in used
    ensures User(trees[i], Up(procs[i].sz)) && ProcMap(trees[i], Up(procs[i].sz), procs[i].frame, trampoline)
  {
  }

  /** Nothing has happened yet. */
  lemma NotChanged(mem: Memory, head: nat, free: seq<nat>, used: set<nat>, lo: nat, hi: nat, trampoline: nat,
                   procs: map<nat, Rec>, trees: map<nat, Tree>, at: map<nat, Who>, i: nat)
    requires Conserved(mem, head, free, used, lo, hi) && TableOk(mem, used, trampoline, procs, trees, at) &&
             i in procs && i in trees
    ensures forall s :: Kept(mem, used, mem, used, s)
    ensures forall a, want :: Filled(mem, trees[i], a, a, want)
    ensures procs[i := procs[i].(sz := procs[i].sz)] == procs && trees[i := trees[i]] == trees
  {
    hide Conserved, TableOk, PageOf, Flags;
    ConservedUsed(mem, head, free, used, lo, hi);
  }

  lemma GrowingFilled(m0: Memory, u0: set<nat>, t: Tree, mem: Memory, used: set<nat>, t1: Tree, n0: nat, i: nat,
                      want: map<nat, Want>)
    requires Growing(m0, u0, t, mem, used, t1, n0, i, want)
    ensures Filled(mem, t1, n0, i, want)
  {
  }

  lemma TakenKept(mem: Memory, used: set<nat>, p: nat, x: Page)
    requires (forall q :: q in used ==> q in mem) && p !in used
    ensures Kept(mem, used, mem[p := x], used + {p}, {})
  {
  }

  lemma OtherUsed(mem: Memory, used: set<nat>, trampoline: nat, procs: map<nat, Rec>, trees: map<nat, Tree>,
                  at: map<nat, Who>, p: nat)
    requires TableOk(mem, used, trampoline, procs, trees, at)
    ensures at.Keys == used && (p in at <==> p in used)
  {
    assert p in at <==> p in at.Keys;
  }

  /** A page that is no process's comes or goes. */
  lemma TableOther(mem: Memory, used: set<nat>, trampoline: nat, procs: map<nat, Rec>, trees: map<nat, Tree>,
                   at: map<nat, Who>, mem': Memory, used': set<nat>, at': map<nat, Who>, s: set<nat>)
    requires TableOk(mem, used, trampoline, procs, trees, at) && Kept(mem, used, mem', used', s) && at'.Keys == used'
    requires forall p :: p in s ==> p in at && at[p] == Other
    requires forall p, i :: (p in at' && at'[p] == Proc(i)) <==> (p in at && at[p] == Proc(i))
    ensures TableOk(mem', used', trampoline, procs, trees, at')
  {
    hide ProcOk, HeldOf, Kept;
    forall j | j in procs
      ensures ProcOk(mem', used', trampoline, procs[j], trees[j]) && Has(at', j, HeldOf(procs[j], trees[j]))
    {
      assert Has(at, j, HeldOf(procs[j], trees[j]));
      ProcKept(mem, used, trampoline, procs[j], trees[j], mem', used', s);
    }
    forall p | p in at' && at'[p].Proc? ensures at'[p].i in procs {
      assert at'[p] == Proc(at'[p].i);
    }
  }
}
