/** Three-level page tables in physical memory, and the plain map they stand for. */
module Sv39 {
  import opened Kalloc

  const MAXVPN: nat := 0x400_0000      // MAXVA / PGSIZE
  const PTE_V: nat := 1
  const PTE_U: nat := 16

  /** A page-table entry for page p: the page number above ten bits of flags. */
  function Pte(p: nat, flags: nat): nat {
    p * 1024 + flags
  }

  function PageOf(pte: nat): nat {
    pte / 1024
  }

  function Flags(pte: nat): nat {
    pte % 1024
  }

  predicate Valid(pte: nat) {
    pte % 2 == 1
  }

  /** Some of R, W and X is set: the entry maps a page rather than pointing to a table. */
  predicate Leaf(pte: nat) {
    pte / 2 % 8 != 0
  }

  lemma PteParts(p: nat, flags: nat)
    requires flags < 1024
    ensures PageOf(Pte(p, flags)) == p && Flags(Pte(p, flags)) == flags
    ensures Valid(Pte(p, flags)) == Valid(flags) && Leaf(Pte(p, flags)) == Leaf(flags)
  {
    assert (p * 1024 + flags) / 2 == p * 512 + flags / 2;
  }

  /** 9 bits of the virtual page number. */
  function Px(level: nat, vpn: nat): (i: nat)
    requires level <= 2
    ensures i < 512
  {
    if level == 2 then vpn / 512 / 512 % 512 else if level == 1 then vpn / 512 % 512 else vpn % 512
  }

  /** Which table a page of the tree is: the root, the level-1 table for index i2, or the level-0 table
      for the upper bits k of a page number. */
  datatype Node = Root | Mid(i2: nat) | Low(k: nat)

  /** A page table: its level-1 and level-0 table pages, its entries by virtual page number, the role of each of its
      pages, and the user pages it owns with the place they are mapped. */
  datatype Tree = Tree(root: nat, l1: map<nat, nat>, l0: map<nat, nat>, leaf: map<nat, nat>, at: map<nat, Node>,
                       own: map<nat, nat>)

  function Child(m: map<nat, nat>, i: nat): nat {
    if i in m then Pte(m[i], PTE_V) else 0
  }

  function Entry(leaf: map<nat, nat>, v: nat): nat {
    if v in leaf then leaf[v] else 0
  }

  /** Every page of the tree has one role, so the tables form an unshared tree of depth three. */
  ghost predicate Placed(t: Tree) {
    && t.root in t.at && t.at[t.root] == Root
    && (forall i2 :: i2 in t.l1 ==> i2 < 512 && t.l1[i2] in t.at && t.at[t.l1[i2]] == Mid(i2))
    && (forall k :: k in t.l0 ==> k / 512 in t.l1 && t.l0[k] in t.at && t.at[t.l0[k]] == Low(k))
    && (forall p :: p in t.at ==> match t.at[p]
                                  case Root => p == t.root
                                  case Mid(i2) => i2 in t.l1 && t.l1[i2] == p
                                  case Low(k) => k in t.l0 && t.l0[k] == p)
  }

  ghost predicate RootRow(mem: Memory, t: Tree) {
    t.root in mem && forall i :: 0 <= i < 512 ==> mem[t.root][i] == Child(t.l1, i)
  }

  ghost predicate MidRow(mem: Memory, t: Tree, i2: nat)
    requires i2 in t.l1
  {
    t.l1[i2] in mem && forall i :: 0 <= i < 512 ==> mem[t.l1[i2]][i] == Child(t.l0, i2 * 512 + i)
  }

  ghost predicate LowRow(mem: Memory, t: Tree, k: nat)
    requires k in t.l0
  {
    t.l0[k] in mem && forall i :: 0 <= i < 512 ==> mem[t.l0[k]][i] == Entry(t.leaf, k * 512 + i)
  }

  /** Memory holds this page table. */
  ghost predicate Rep(mem: Memory, t: Tree) {
    && Placed(t) && RootRow(mem, t)
    && (forall i2 :: i2 in t.l1 ==> MidRow(mem, t, i2))
    && (forall k :: k in t.l0 ==> LowRow(mem, t, k))
    && (forall v :: v in t.leaf ==> v < MAXVPN && v / 512 in t.l0 && Valid(t.leaf[v]) && Leaf(t.leaf[v]))
  }

  /** The user pages it owns are mapped where it says, each once, and none of them is a table. */
  ghost predicate Owns(t: Tree) {
    forall p :: p in t.own ==> p !in t.at && t.own[p] in t.leaf && PageOf(t.leaf[t.own[p]]) == p
  }

  ghost predicate OwnsAt(t: Tree, v: nat) {
    v in t.leaf && PageOf(t.leaf[v]) in t.own && t.own[PageOf(t.leaf[v])] == v
  }

  /** The tree depends on its own pages only. */
  lemma RepFrame(mem: Memory, mem': Memory, t: Tree)
    requires Rep(mem, t) && forall p :: p in t.at ==> p in mem && p in mem' && mem'[p] == mem[p]
    ensures Rep(mem', t)
  {
    forall i2 | i2 in t.l1 ensures MidRow(mem', t, i2) {
      assert MidRow(mem, t, i2);
    }
    forall k | k in t.l0 ensures LowRow(mem', t, k) {
      assert LowRow(mem, t, k);
    }
  }

  lemma RepPages(mem: Memory, t: Tree)
    requires Rep(mem, t)
    ensures forall p :: p in t.at ==> p in mem
  {
    forall p | p in t.at ensures p in mem {
      match t.at[p]
      case Root =>
      case Mid(i2) => assert MidRow(mem, t, i2);
      case Low(k) => assert LowRow(mem, t, k);
    }
  }

  /** A level-1 table added in an empty root entry: no translation changes. */
  function AddMid(t: Tree, i2: nat, p: nat): Tree {
    t.(l1 := t.l1[i2 := p], at := t.at[p := Mid(i2)])
  }

  lemma AddMidRep(mem: Memory, t: Tree, i2: nat, p: nat)
    requires Rep(mem, t) && i2 < 512 && i2 !in t.l1 && p !in t.at && p in mem && mem[p] == Fill(0)
    ensures Rep(mem[t.root := mem[t.root][i2 := Pte(p, PTE_V)]], AddMid(t, i2, p))
  {
    var t' := AddMid(t, i2, p);
    var mem' := mem[t.root := mem[t.root][i2 := Pte(p, PTE_V)]];
    assert Placed(t');
    forall j | j in t'.l1 ensures MidRow(mem', t', j) {
      if j == i2 {
        assert forall k :: k / 512 == i2 ==> k !in t.l0;
      } else {
        assert MidRow(mem, t, j);
      }
    }
    forall k | k in t'.l0 ensures LowRow(mem', t', k) {
      assert LowRow(mem, t, k);
    }
  }

  /** A level-0 table added in an empty level-1 entry: no translation changes. */
  function AddLow(t: Tree, k: nat, p: nat): Tree {
    t.(l0 := t.l0[k := p], at := t.at[p := Low(k)])
  }

  lemma AddLowPlaced(t: Tree, k: nat, p: nat)
    requires Placed(t) && k / 512 in t.l1 && k !in t.l0 && p !in t.at
    ensures Placed(AddLow(t, k, p))
  {
  }

  lemma AddLowMids(mem: Memory, t: Tree, k: nat, p: nat, j: nat)
    requires Rep(mem, t) && k / 512 in t.l1 && k !in t.l0 && j in t.l1
    ensures var q := t.l1[k / 512];
            q in mem && MidRow(mem[q := mem[q][k % 512 := Pte(p, PTE_V)]], AddLow(t, k, p), j)
  {
    assert MidRow(mem, t, k / 512) && MidRow(mem, t, j);
    if j != k / 512 {
      assert t.l1[j] != t.l1[k / 512];
    }
  }

  lemma AddLowLows(mem: Memory, t: Tree, k: nat, p: nat, j: nat)
    requires Rep(mem, t) && k / 512 in t.l1 && k !in t.l0 && p !in t.at && p in mem && mem[p] == Fill(0) &&
             (j == k || j in t.l0)
    ensures var q := t.l1[k / 512];
            q in mem && LowRow(mem[q := mem[q][k % 512 := Pte(p, PTE_V)]], AddLow(t, k, p), j)
  {
    assert MidRow(mem, t, k / 512);
    if j == k {
      assert forall v :: v / 512 == k ==> v !in t.leaf;
    } else {
      assert LowRow(mem, t, j);
      assert t.l0[j] != t.l1[k / 512];
    }
  }

  lemma AddLowRep(mem: Memory, t: Tree, k: nat, p: nat)
    requires Rep(mem, t) && k / 512 in t.l1 && k !in t.l0 && p !in t.at && p in mem && mem[p] == Fill(0)
    ensures var q := t.l1[k / 512];
            q in mem && Rep(mem[q := mem[q][k % 512 := Pte(p, PTE_V)]], AddLow(t, k, p))
  {
    var q := t.l1[k / 512];
    assert MidRow(mem, t, k / 512);
    var t' := AddLow(t, k, p);
    var mem' := mem[q := mem[q][k % 512 := Pte(p, PTE_V)]];
    AddLowPlaced(t, k, p);
    assert RootRow(mem', t') by {
      assert q != t.root;
    }
    hide MidRow, LowRow, RootRow, Placed;
    forall j | j in t'.l1 ensures MidRow(mem', t', j) {
      AddLowMids(mem, t, k, p, j);
    }
    forall j | j in t'.l0 ensures LowRow(mem', t', j) {
      AddLowLows(mem, t, k, p, j);
    }
  }

  /** One translation set or, with 0, removed: no other changes. */
  function SetLeaf(t: Tree, v: nat, pte: nat): Tree {
    t.(leaf := if pte == 0 then t.leaf - {v} else t.leaf[v := pte])
  }

  lemma SetLeafRow(mem: Memory, t: Tree, v: nat, pte: nat, j: nat)
    requires Rep(mem, t) && v / 512 in t.l0 && j in t.l0
    ensures var q := t.l0[v / 512];
            q in mem && LowRow(mem[q := mem[q][v % 512 := pte]], SetLeaf(t, v, pte), j)
  {
    assert LowRow(mem, t, v / 512) && LowRow(mem, t, j);
    if j != v / 512 {
      assert t.l0[j] != t.l0[v / 512];
    }
  }

  lemma SetLeafRep(mem: Memory, t: Tree, v: nat, pte: nat)
    requires Rep(mem, t) && v < MAXVPN && v / 512 in t.l0 && (pte != 0 ==> Valid(pte) && Leaf(pte))
    ensures var q := t.l0[v / 512];
            q in mem && Rep(mem[q := mem[q][v % 512 := pte]], SetLeaf(t, v, pte))
  {
    var q := t.l0[v / 512];
    assert LowRow(mem, t, v / 512);
    var t' := SetLeaf(t, v, pte);
    var mem' := mem[q := mem[q][v % 512 := pte]];
    forall j | j in t'.l1 ensures MidRow(mem', t', j) {
      assert MidRow(mem, t, j) && t.l1[j] != q;
    }
    assert RootRow(mem', t') by {
      assert q != t.root;
    }
    hide LowRow, MidRow;
    forall j | j in t'.l0 ensures LowRow(mem', t', j) {
      SetLeafRow(mem, t, v, pte, j);
    }
  }

  /** Distinct pages below MAXVA reach distinct entries. */
  lemma SlotsDistinct(t: Tree, v: nat, w: nat)
    requires Placed(t) && v / 512 in t.l0 && w / 512 in t.l0 && t.l0[v / 512] == t.l0[w / 512] && v % 512 == w % 512
    ensures v == w
  {
  }
}
