/** Freeing the tables of an address space, and the life of a process's page table. */
module Freewalk {
  import opened Kalloc
  import opened Sv39
  import opened Vm
  import opened Uvm

  // ------------------------------------------------------------------------------------------------------------------
  // Subtrees
  // ------------------------------------------------------------------------------------------------------------------

  function Depth(node: Node): nat {
    match node
    case Root => 2
    case Mid(_) => 1
    case Low(_) => 0
  }

  /** Table m is in the subtree of node. */
  predicate Under(node: Node, m: Node) {
    match node
    case Root => true
    case Mid(i2) => m == node || (m.Low? && m.k / 512 == i2)
    case Low(_) => m == node
  }

  /** Entry i of a table leads here. */
  function ChildOf(node: Node, i: nat): Node {
    match node
    case Root => Mid(i)
    case Mid(i2) => Low(i2 * 512 + i)
    case Low(_) => node
  }

  /** The entry of node that leads to m. */
  function IndexOf(node: Node, m: Node): nat {
    match m
    case Root => 0
    case Mid(i2) => i2
    case Low(k) => if node.Root? then k / 512 else k % 512
  }

  /** Page v is translated below node. */
  predicate Covers(node: Node, v: nat) {
    match node
    case Root => true
    case Mid(i2) => v / 512 / 512 == i2
    case Low(k) => v / 512 == k
  }

  /** The entry of node on the way to page v. */
  function Way(node: Node, v: nat): nat {
    match node
    case Root => v / 512 / 512
    case Mid(_) => v / 512 % 512
    case Low(_) => v % 512
  }

  ghost function Sub(t: Tree, node: Node): set<nat> {
    set p | p in t.at && Under(node, t.at[p])
  }

  /** The tables strictly below node that entries before i lead to. */
  ghost function Before(t: Tree, node: Node, i: nat): set<nat> {
    set p | p in t.at && Under(node, t.at[p]) && t.at[p] != node && IndexOf(node, t.at[p]) < i
  }

  /** Nothing is mapped below node. */
  ghost predicate Bare(t: Tree, node: Node) {
    forall v :: v in t.leaf ==> !Covers(node, v)
  }

  /** Nothing is mapped through the entries before i. */
  ghost predicate BareBefore(t: Tree, node: Node, i: nat) {
    forall v :: v in t.leaf && Covers(node, v) ==> Way(node, v) >= i
  }

  /** What entry i of a table should be. */
  ghost function EntryAt(t: Tree, node: Node, i: nat): nat {
    match node
    case Root => Child(t.l1, i)
    case Mid(i2) => Child(t.l0, i2 * 512 + i)
    case Low(k) => Entry(t.leaf, k * 512 + i)
  }

  ghost predicate HasRow(mem: Memory, t: Tree, p: nat)
    requires p in t.at
  {
    p in mem && forall i :: 0 <= i < 512 ==> mem[p][i] == EntryAt(t, t.at[p], i)
  }

  /** The entries of the tables in s are right. */
  ghost predicate Rows(mem: Memory, t: Tree, s: set<nat>) {
    forall p :: p in s ==> p in t.at && HasRow(mem, t, p)
  }

  ghost predicate Shape(t: Tree) {
    Placed(t) && forall v :: v in t.leaf ==> v < MAXVPN && v / 512 in t.l0 && Valid(t.leaf[v]) && Leaf(t.leaf[v])
  }

  lemma RepRows(mem: Memory, t: Tree)
    requires Rep(mem, t)
    ensures Shape(t) && Rows(mem, t, Sub(t, Root))
  {
    forall p | p in t.at ensures HasRow(mem, t, p) {
      match t.at[p]
      case Root =>
      case Mid(i2) => assert MidRow(mem, t, i2);
      case Low(k) => assert LowRow(mem, t, k);
    }
  }

  /** What an entry says: a table, a page, or nothing. */
  lemma EntryMeans(t: Tree, node: Node, i: nat)
    requires Shape(t) && i < 512
    ensures var pte := EntryAt(t, node, i);
            && (Valid(pte) && !Leaf(pte) ==> !node.Low? && PageOf(pte) in t.at && t.at[PageOf(pte)] == ChildOf(node, i))
            && (Valid(pte) && Leaf(pte) ==> node.Low? && node.k * 512 + i in t.leaf)
            && (!Valid(pte) && !node.Low? ==> forall p :: p in t.at ==> t.at[p] != ChildOf(node, i))
            && (!Valid(pte) && node.Low? ==> node.k * 512 + i !in t.leaf)
  {
    match node
    case Root => ChildMeans(t.l1, i);
    case Mid(i2) => ChildMeans(t.l0, i2 * 512 + i);
    case Low(k) =>
  }

  lemma ChildMeans(m: map<nat, nat>, i: nat)
    ensures Valid(Child(m, i)) <==> i in m
    ensures i in m ==> !Leaf(Child(m, i)) && PageOf(Child(m, i)) == m[i]
  {
    ChildValid(m, i);
    if i in m {
      PteParts(m[i], PTE_V);
    }
  }

  lemma BeforeNext(t: Tree, node: Node, i: nat)
    requires !node.Low? && Placed(t) && i < 512
    ensures Before(t, node, i + 1) == Before(t, node, i) + Sub(t, ChildOf(node, i))
    ensures Before(t, node, i) !! Sub(t, ChildOf(node, i))
    ensures Sub(t, ChildOf(node, i)) <= Sub(t, node)
    ensures forall p :: p in Sub(t, ChildOf(node, i)) ==> p in t.at && t.at[p] != node
  {
    forall p | p in t.at
      ensures p in Before(t, node, i + 1) <==> p in Before(t, node, i) || p in Sub(t, ChildOf(node, i))
      ensures !(p in Before(t, node, i) && p in Sub(t, ChildOf(node, i)))
      ensures p in Sub(t, ChildOf(node, i)) ==> Under(node, t.at[p]) && t.at[p] != node
    {
      UnderChild(node, t.at[p], i);
    }
  }

  lemma UnderChild(node: Node, m: Node, i: nat)
    requires !node.Low? && i < 512
    ensures Under(ChildOf(node, i), m) <==> Under(node, m) && m != node && IndexOf(node, m) == i
  {
  }

  /** A table that is not there has nothing below it. */
  lemma AbsentChild(t: Tree, node: Node, i: nat)
    requires Shape(t) && !node.Low? && forall p :: p in t.at ==> t.at[p] != ChildOf(node, i)
    ensures Sub(t, ChildOf(node, i)) == {} && Bare(t, ChildOf(node, i))
  {
    hide Valid, Leaf;
    assert node.Root? ==> i !in t.l1;
    forall v | v in t.leaf ensures !Covers(ChildOf(node, i), v) {
      var k := v / 512;
      assert t.at[t.l0[k]] == Low(k);
      assert t.at[t.l1[k / 512]] == Mid(k / 512);
    }
  }

  lemma BeforeAll(t: Tree, node: Node, page: nat)
    requires Placed(t) && page in t.at && t.at[page] == node
    ensures Sub(t, node) == Before(t, node, 512) + {page} && page !in Before(t, node, 512) && Before(t, node, 0) == {}
    ensures node.Low? ==> Before(t, node, 512) == {}
  {
  }

  lemma BareNext(t: Tree, node: Node, i: nat)
    requires !node.Low? && BareBefore(t, node, i) && Bare(t, ChildOf(node, i))
    ensures BareBefore(t, node, i + 1)
  {
    forall v | v in t.leaf && Covers(node, v) ensures Way(node, v) >= i + 1 {
      WayChild(node, v, i);
    }
  }

  lemma WayChild(node: Node, v: nat, i: nat)
    requires !node.Low?
    ensures Covers(node, v) && Way(node, v) == i ==> Covers(ChildOf(node, i), v)
    ensures Covers(ChildOf(node, i), v) && i < 512 ==> Covers(node, v)
  {
  }

  lemma NotBareUp(t: Tree, node: Node, i: nat)
    requires !node.Low? && i < 512 && !Bare(t, ChildOf(node, i))
    ensures !Bare(t, node)
  {
    var v :| v in t.leaf && Covers(ChildOf(node, i), v);
    WayChild(node, v, i);
  }

  /** One entry of a level-0 table. */
  lemma LowEntry(t: Tree, node: Node, i: nat)
    requires node.Low? && i < 512
    ensures node.k * 512 + i in t.leaf ==> !Bare(t, node)
    ensures node.k * 512 + i !in t.leaf && BareBefore(t, node, i) ==> BareBefore(t, node, i + 1)
    ensures Before(t, node, i + 1) == Before(t, node, i) == {}
  {
    assert (node.k * 512 + i) / 512 == node.k;
    forall v | v in t.leaf && Covers(node, v) && v % 512 == i ensures v == node.k * 512 + i {
    }
  }

  lemma BareAll(t: Tree, node: Node)
    requires Shape(t)
    ensures BareBefore(t, node, 512) ==> Bare(t, node)
    ensures BareBefore(t, node, 0)
  {
    hide Valid, Leaf;
    forall v | v in t.leaf && Covers(node, v) ensures Way(node, v) < 512 {
      assert v / 512 / 512 < 512;
    }
  }

  /** The rest of the table being freed and of the subtrees after entry i is untouched. */
  ghost predicate Walking(m0: Memory, u0: set<nat>, mem: Memory, used: set<nat>, t: Tree, node: Node, page: nat,
                          i: nat) {
    && page in t.at && t.at[page] == node && page in u0 && Shape(t)
    && used == u0 - Before(t, node, i) && BareBefore(t, node, i)
    && Kept(m0, u0, mem, used, Before(t, node, i) + {page})
    && page in mem && (forall j :: i <= j < 512 ==> mem[page][j] == EntryAt(t, node, j))
  }

  lemma WalkStart(m0: Memory, u0: set<nat>, t: Tree, node: Node, page: nat)
    requires Shape(t) && page in t.at && t.at[page] == node && Rows(m0, t, Sub(t, node)) && Sub(t, node) <= u0
    requires forall p :: p in u0 ==> p in m0
    ensures Walking(m0, u0, m0, u0, t, node, page, 0)
  {
    hide Shape, EntryAt;
    BareAll(t, node);
    ShapePlaced(t);
    BeforeAll(t, node, page);
    assert page in Sub(t, node);
    assert HasRow(m0, t, page);
  }

  lemma ShapePlaced(t: Tree)
    requires Shape(t)
    ensures Placed(t)
  {
  }

  lemma WalkSkip(m0: Memory, u0: set<nat>, mem: Memory, used: set<nat>, t: Tree, node: Node, page: nat, i: nat)
    requires Walking(m0, u0, mem, used, t, node, page, i) && i < 512 && !Valid(mem[page][i])
    ensures Walking(m0, u0, mem, used, t, node, page, i + 1)
  {
    hide Shape, Kept, EntryAt, Bare, BareBefore, Before, Valid, Leaf, PageOf, Sub, ChildOf;
    EntryMeans(t, node, i);
    if node.Low? {
      LowEntry(t, node, i);
    } else {
      ShapePlaced(t);
      AbsentChild(t, node, i);
      BeforeNext(t, node, i);
      BareNext(t, node, i);
      assert Before(t, node, i + 1) == Before(t, node, i);
    }
  }

  /** The subtree entry i leads to is still as it was. */
  lemma ChildReady(m0: Memory, u0: set<nat>, mem: Memory, used: set<nat>, t: Tree, node: Node, page: nat, i: nat)
    requires Walking(m0, u0, mem, used, t, node, page, i) && i < 512 && Valid(mem[page][i]) && !Leaf(mem[page][i])
    requires Rows(m0, t, Sub(t, node)) && Sub(t, node) <= u0
    ensures !node.Low? && PageOf(mem[page][i]) in t.at && t.at[PageOf(mem[page][i])] == ChildOf(node, i)
    ensures Rows(mem, t, Sub(t, ChildOf(node, i))) && Sub(t, ChildOf(node, i)) <= used &&
            page !in Sub(t, ChildOf(node, i))
  {
    hide Shape, EntryAt, Bare, BareBefore, Before, Valid, Leaf, PageOf, Sub, ChildOf;
    EntryMeans(t, node, i);
    ShapePlaced(t);
    BeforeNext(t, node, i);
    forall p | p in Sub(t, ChildOf(node, i)) ensures p in t.at && HasRow(mem, t, p) {
      assert p in Sub(t, node);
      assert HasRow(m0, t, p);
    }
  }

  lemma WalkChild(m0: Memory, u0: set<nat>, m1: Memory, u1: set<nat>, m2: Memory, u2: set<nat>, t: Tree, node: Node,
                  page: nat, i: nat)
    requires Walking(m0, u0, m1, u1, t, node, page, i) && i < 512 && !node.Low?
    requires u2 == u1 - Sub(t, ChildOf(node, i)) && Kept(m1, u1, m2, u2, Sub(t, ChildOf(node, i))) &&
             Bare(t, ChildOf(node, i))
    requires page in u1 && page !in Sub(t, ChildOf(node, i))
    ensures page in m2 && page in u2
    ensures Walking(m0, u0, m2[page := m2[page][i := 0]], u2, t, node, page, i + 1)
  {
    hide Shape, EntryAt, Bare, BareBefore, Before, Valid, Leaf, PageOf, Sub, ChildOf;
    ShapePlaced(t);
    BeforeNext(t, node, i);
    BareNext(t, node, i);
  }

  lemma WalkPage(m0: Memory, u0: set<nat>, mem: Memory, used: set<nat>, t: Tree, node: Node, page: nat, i: nat)
    requires Walking(m0, u0, mem, used, t, node, page, i)
    ensures page in mem && page in used
  {
  }

  /** An entry that maps a page stops the walk. */
  lemma WalkLeaf(m0: Memory, u0: set<nat>, mem: Memory, used: set<nat>, t: Tree, node: Node, page: nat, i: nat)
    requires Walking(m0, u0, mem, used, t, node, page, i) && i < 512 && Valid(mem[page][i]) && Leaf(mem[page][i])
    ensures !Bare(t, node)
  {
    hide Shape, EntryAt, Bare, BareBefore, Before, Valid, Leaf, PageOf, Sub, ChildOf, Kept;
    EntryMeans(t, node, i);
    LowEntry(t, node, i);
  }

  lemma WalkEnd(m0: Memory, u0: set<nat>, m1: Memory, u1: set<nat>, m2: Memory, u2: set<nat>, t: Tree, node: Node,
                page: nat)
    requires Walking(m0, u0, m1, u1, t, node, page, 512) && u2 == u1 - {page} && Kept(m1, u1, m2, u2, {page})
    ensures Bare(t, node) && u2 == u0 - Sub(t, node) && Kept(m0, u0, m2, u2, Sub(t, node))
  {
    hide Shape, EntryAt, Bare, BareBefore, Before, Valid, Leaf, PageOf, Sub, ChildOf;
    BareAll(t, node);
    ShapePlaced(t);
    BeforeAll(t, node, page);
  }

  /** freewalk: it panics exactly when something is still mapped below; otherwise every table of the subtree is freed
      once and no other page in use changes. */
  method FreeTables(km: Kmem, page: nat, ghost t: Tree, ghost node: Node) returns (ok: bool)
    requires km.Valid() && Shape(t) && page in t.at && t.at[page] == node
    requires Rows(km.mem, t, Sub(t, node)) && Sub(t, node) <= km.used
    modifies km`mem, km`freelist, km`free, km`used
    ensures ok <==> Bare(t, node)
    ensures ok ==> km.used == old(km.used) - Sub(t, node) &&
                   Kept(old(km.mem), old(km.used), km.mem, km.used, Sub(t, node))
    ensures km.Valid()
    decreases Depth(node)
  {
    hide Conserved, Shape, Rows, Sub, Bare, Kept, Walking, Valid, Leaf, PageOf, Under, ChildOf;
    ConservedUsed(km.mem, km.freelist, km.free, km.used, km.lo, km.hi);
    WalkStart(km.mem, km.used, t, node, page);
    var i := 0;
    while i < 512
      invariant 0 <= i <= 512 && km.Valid() && Walking(old(km.mem), old(km.used), km.mem, km.used, t, node, page, i)
    {
      WalkPage(old(km.mem), old(km.used), km.mem, km.used, t, node, page, i);
      var pte := km.mem[page][i];
      if Valid(pte) && !Leaf(pte) {
        ChildReady(old(km.mem), old(km.used), km.mem, km.used, t, node, page, i);
        DepthChild(node, i);
        ghost var m1: Memory, u1: set<nat> := km.mem, km.used;
        ok := FreeTables(km, PageOf(pte), t, ChildOf(node, i));
        if !ok {
          NotBareUp(t, node, i);
          return;
        }
        WalkChild(old(km.mem), old(km.used), m1, u1, km.mem, km.used, t, node, page, i);
        km.Store(page, i, 0);
      } else if Valid(pte) {
        WalkLeaf(old(km.mem), old(km.used), km.mem, km.used, t, node, page, i);
        return false;
      } else {
        WalkSkip(old(km.mem), old(km.used), km.mem, km.used, t, node, page, i);
      }
      i := i + 1;
    }
    WalkPage(old(km.mem), old(km.used), km.mem, km.used, t, node, page, i);
    ConservedUsed(km.mem, km.freelist, km.free, km.used, km.lo, km.hi);
    ghost var m1: Memory, u1: set<nat> := km.mem, km.used;
    ok := km.Kfree(page);
    KfreeKept(m1, u1, km.mem, km.used, page);
    WalkEnd(old(km.mem), old(km.used), m1, u1, km.mem, km.used, t, node, page);
  }

  lemma DepthChild(node: Node, i: nat)
    requires !node.Low?
    ensures Depth(ChildOf(node, i)) < Depth(node)
  {
  }

  lemma KfreeKept(mem: Memory, used: set<nat>, mem': Memory, used': set<nat>, p: nat)
    requires used' == used - {p} && (forall q :: q in used ==> q in mem)
    requires forall q :: q in mem && q != p ==> q in mem' && mem'[q] == mem[q]
    ensures Kept(mem, used, mem', used', {p})
  {
  }
}
