/** The physical page allocator: a list of free pages linked through the pages themselves. */
module Kalloc {

  const WORDS: nat := 512           // 64-bit words in a page
  const PGSIZE: nat := 4096

  type Page = p: seq<nat> | |p| == WORDS witness seq(WORDS, _ => 0)

  /** Physical memory by page number. */
  type Memory = map<nat, Page>

  function Fill(x: nat): Page {
    seq(WORDS, _ => x)
  }

  const JUNK_FREED: nat := 0x0101010101010101
  const JUNK_ALLOCATED: nat := 0x0505050505050505

  /** The page number a free page's first word points to; 0 ends the list. */
  function Next(mem: Memory, p: nat): nat {
    if p in mem then mem[p][0] / PGSIZE else 0
  }

  /** The list from page head on is exactly free. */
  ghost predicate Linked(mem: Memory, head: nat, free: seq<nat>)
    decreases |free|
  {
    if free == [] then head == 0
    else head == free[0] != 0 && head in mem && Linked(mem, Next(mem, head), free[1..])
  }

  lemma {:induction false} LinkedFrame(mem: Memory, mem': Memory, head: nat, free: seq<nat>)
    requires Linked(mem, head, free) && forall p :: p in free ==> p in mem && p in mem' && mem'[p] == mem[p]
    ensures Linked(mem', head, free)
    decreases |free|
  {
    if free != [] {
      assert free[0] in free;
      assert forall p :: p in free[1..] ==> p in free;
      LinkedFrame(mem, mem', Next(mem, head), free[1..]);
    }
  }

  lemma {:induction false} LinkedPages(mem: Memory, head: nat, free: seq<nat>)
    requires Linked(mem, head, free)
    ensures forall p :: p in free ==> p in mem
    decreases |free|
  {
    if free != [] {
      LinkedPages(mem, Next(mem, head), free[1..]);
    }
  }

  /** The pages from a up to b. */
  ghost function Span(a: nat, b: nat): (s: set<nat>)
    ensures forall p :: p in s <==> a <= p < b
    decreases b - a
  {
    if a >= b then {} else {a} + Span(a + 1, b)
  }

  /** Every page of [lo, hi) is on the list once or in use, never both. */
  ghost predicate Conserved(mem: Memory, head: nat, free: seq<nat>, used: set<nat>, lo: nat, hi: nat) {
    && 0 < lo <= hi && Linked(mem, head, free)
    && (forall i, j :: 0 <= i < j < |free| ==> free[i] != free[j])
    && (forall p :: lo <= p < hi ==> p in mem)
    && (forall p :: p in free <==> lo <= p < hi && p !in used)
    && (forall p :: p in used ==> lo <= p < hi)
  }

  lemma ConservedUsed(mem: Memory, head: nat, free: seq<nat>, used: set<nat>, lo: nat, hi: nat)
    requires Conserved(mem, head, free, used, lo, hi)
    ensures forall p :: p in used ==> p in mem && lo <= p < hi && p !in free
  {
  }

  /** Pages that are not on the list may hold anything. */
  lemma ConservedWrite(mem: Memory, head: nat, free: seq<nat>, used: set<nat>, lo: nat, hi: nat, p: nat, page: Page)
    requires Conserved(mem, head, free, used, lo, hi) && p in used
    ensures Conserved(mem[p := page], head, free, used, lo, hi)
  {
    LinkedPages(mem, head, free);
    LinkedFrame(mem, mem[p := page], head, free);
  }

  /** The first page of the list taken off it. */
  lemma ConservedTake(mem: Memory, head: nat, free: seq<nat>, used: set<nat>, lo: nat, hi: nat, page: Page)
    requires Conserved(mem, head, free, used, lo, hi) && free != []
    ensures Conserved(mem[head := page], Next(mem, head), free[1..], used + {head}, lo, hi)
  {
    var rest := free[1..];
    assert free[0] in free;
    assert forall i :: 0 <= i < |rest| ==> rest[i] == free[i + 1];
    assert forall p :: p in free <==> p == free[0] || p in rest;
    LinkedPages(mem, Next(mem, head), rest);
    LinkedFrame(mem, mem[head := page], Next(mem, head), rest);
  }

  class Kmem {
    const lo: nat                 // first page after the kernel
    const hi: nat                 // PHYSTOP
    var mem: Memory
    var freelist: nat             // page number of the first free page, or 0
    ghost var free: seq<nat>
    ghost var used: set<nat>      // allocated pages

    ghost predicate Valid()
      reads this
    {
      Conserved(mem, freelist, free, used, lo, hi)
    }

    /** kinit: all pages of [lo, hi) are freed. Before that every one of them counts as in use. */
    constructor (lo: nat, hi: nat, mem: Memory)
      requires 0 < lo <= hi && forall p :: lo <= p < hi ==> p in mem
      ensures Valid() && used == {} && this.lo == lo && this.hi == hi
    {
      this.lo, this.hi, this.mem := lo, hi, mem;
      freelist, free, used := 0, [], Span(lo, hi);
      new;
      FreeRange();
    }

    /** freerange over the whole of memory. */
    method FreeRange()
      requires Valid() && free == []
      modifies this`mem, this`freelist, this`free, this`used
      ensures Valid() && used == {}
    {
      for p := lo to hi
        invariant Valid() && used == Span(p, hi)
      {
        var ok := Kfree(p);
      }
    }

    /** kfree: page p goes to the front of the list. !ok is the panic, for a page outside memory. */
    method Kfree(p: nat) returns (ok: bool)
      requires Valid() && (lo <= p < hi ==> p in used)
      modifies this`mem, this`freelist, this`free, this`used
      ensures ok <==> lo <= p < hi
      ensures !ok ==> mem == old(mem) && free == old(free) && used == old(used)
      ensures ok ==> free == [p] + old(free) && used == old(used) - {p}
      ensures Valid() && forall q :: q in old(mem) && q != p ==> q in mem && mem[q] == old(mem)[q]
    {
      if p < lo || p >= hi {
        return false;
      }
      mem := mem[p := Fill(JUNK_FREED)];
      mem := mem[p := mem[p][0 := freelist * PGSIZE]];
      freelist := p;
      LinkedPages(old(mem), old(freelist), free);
      LinkedFrame(old(mem), mem, old(freelist), free);
      free := [p] + free;
      used := used - {p};
      assert free[1..] == old(free);
      return true;
    }

    /** kalloc: the first page of the list; it fails exactly when there is none. */
    method Kalloc() returns (ok: bool, r: nat)
      requires Valid()
      modifies this`mem, this`freelist, this`free, this`used
      ensures ok <==> old(free) != []
      ensures !ok ==> mem == old(mem) && free == old(free) && used == old(used)
      ensures ok ==> r == old(free)[0] && free == old(free)[1..] && used == old(used) + {r} && r !in old(used)
      ensures ok ==> mem == old(mem)[r := Fill(JUNK_ALLOCATED)]
      ensures Valid()
    {
      r := freelist;
      if r == 0 {
        return false, 0;
      }
      assert free[0] in free;
      ConservedTake(mem, freelist, free, used, lo, hi, Fill(JUNK_ALLOCATED));
      freelist := Next(mem, r);
      mem := mem[r := Fill(JUNK_ALLOCATED)];
      free := free[1..];
      used := used + {r};
      return true, r;
    }

    /** A page in use is overwritten. */
    method SetPage(p: nat, page: Page)
      requires Valid() && p in used
      modifies this`mem
      ensures Valid() && mem == old(mem)[p := page]
    {
      ConservedWrite(mem, freelist, free, used, lo, hi, p, page);
      mem := mem[p := page];
    }

    /** One word of a page in use is overwritten. */
    method Store(p: nat, i: nat, x: nat)
      requires Valid() && p in used && i < WORDS
      modifies this`mem
      ensures Valid() && p in old(mem) && mem == old(mem)[p := old(mem)[p][i := x]]
    {
      SetPage(p, mem[p][i := x]);
    }
  }
}
