/**
 The physical page allocator (kernel/src/kalloc.c). Free pages form a list threaded through their
 own first words; `free` is the ghost sequence of that list.
 */
module Kalloc {
  import opened Common
  import opened Collections
  import opened Sv39

  /** RAM starts at KERNBASE and the kernel uses it up to PHYSTOP. */
  const KERNBASE: nat := 0x8000_0000
  const PHYSTOP: nat := 0x8800_0000

  /** A physical page as 512 words of 64 bits. */
  type Page = p: seq<nat> | |p| == PTES witness seq(512, _ => 0)
  type Ram = map<nat, Page>

  /** memset(pa, b, PGSIZE) */
  function Filled(b: nat): Page {
    seq(PTES, _ => b * 0x0101_0101_0101_0101)
  }

  /** `head` starts the list of pages `free`, each holding the address of the next, 0 at the end. */
  predicate IsList(ram: Ram, head: nat, free: seq<nat>)
    decreases |free|
  {
    if free == [] then head == 0
    else head == free[0] && head != 0 && head in ram && IsList(ram, ram[head][0], free[1..])
  }

  lemma {:induction false} ListFrame(ram: Ram, more: Ram, head: nat, free: seq<nat>)
    requires IsList(ram, head, free)
    requires forall pa :: pa in free && pa in ram ==> pa in more && more[pa] == ram[pa]
    ensures IsList(more, head, free)
    decreases |free|
  {
    if free != [] {
      assert free[0] in free;
      forall pa | pa in free[1..] && pa in ram ensures pa in more && more[pa] == ram[pa] {
        assert pa in free;
      }
      ListFrame(ram, more, ram[head][0], free[1..]);
    }
  }

  lemma {:induction false} ListPages(ram: Ram, head: nat, free: seq<nat>)
    requires IsList(ram, head, free)
    ensures forall pa :: pa in free ==> pa in ram && pa != 0
    decreases |free|
  {
    if free != [] {
      ListPages(ram, ram[head][0], free[1..]);
      assert free == [free[0]] + free[1..];
    }
  }

  /** Following the links from `head` through the pages `a` leads to page `last`. */
  predicate IsPath(ram: Ram, head: nat, a: seq<nat>, last: nat)
    decreases |a|
  {
    if a == [] then head == last
    else head == a[0] && head != 0 && head in ram && IsPath(ram, ram[head][0], a[1..], last)
  }

  lemma {:induction false} ListHasPath(ram: Ram, head: nat, free: seq<nat>, k: nat)
    requires IsList(ram, head, free) && k < |free|
    ensures IsPath(ram, head, free[..k], free[k])
    decreases k
  {
    if k > 0 {
      ListHasPath(ram, ram[head][0], free[1..], k - 1);
      assert free[1..][..k - 1] == free[..k][1..];
    }
  }

  lemma {:induction false} PathFrame(ram: Ram, more: Ram, head: nat, a: seq<nat>, last: nat)
    requires IsPath(ram, head, a, last) && forall x :: x in a && x in ram ==> x in more && more[x] == ram[x]
    ensures IsPath(more, head, a, last)
    decreases |a|
  {
    if a != [] {
      assert a == [a[0]] + a[1..];
      PathFrame(ram, more, ram[head][0], a[1..], last);
    }
  }

  /** A list that starts on a path has the whole path in front. */
  lemma {:induction false} ListAlongPath(ram: Ram, head: nat, a: seq<nat>, last: nat, l: seq<nat>)
    requires IsPath(ram, head, a, last) && IsList(ram, head, l)
    ensures |a| <= |l| && IsList(ram, last, l[|a|..])
    decreases |a|
  {
    if a == [] {
      assert l[0..] == l;
    } else {
      ListAlongPath(ram, ram[head][0], a[1..], last, l[1..]);
      assert l[1..][|a| - 1..] == l[|a|..];
    }
  }

  /** From a page whose link leads back to it the list never ends. */
  lemma {:induction false} NoEnd(ram: Ram, pa: nat, a: seq<nat>, l: seq<nat>)
    requires pa in ram && pa != 0 && IsPath(ram, ram[pa][0], a, pa)
    ensures !IsList(ram, pa, l)
    decreases |l|
  {
    if IsList(ram, pa, l) {
      ListAlongPath(ram, ram[pa][0], a, pa, l[1..]);
      NoEnd(ram, pa, a, l[1..][|a|..]);
    }
  }

  /** Following the links from `head` never comes to an end. */
  ghost predicate Looped(ram: Ram, head: nat) {
    forall l: seq<nat> :: !IsList(ram, head, l)
  }

  /** kfree of a page that is free already ties the free list into a loop. */
  lemma DoubleFree(ram: Ram, head: nat, free: seq<nat>, pa: nat)
    requires IsList(ram, head, free) && Distinct(free) && pa in free && pa in ram
    ensures Looped(ram[pa := Filled(1)[0 := head]], pa)
  {
    var k :| 0 <= k < |free| && free[k] == pa;
    var more := ram[pa := Filled(1)[0 := head]];
    ListHasPath(ram, head, free, k);
    PathFrame(ram, more, head, free[..k], pa);
    NotNull(ram, head, free, k);
    forall l: seq<nat> ensures !IsList(more, pa, l) {
      NoEnd(more, pa, free[..k], l);
    }
  }

  lemma {:induction false} NotNull(ram: Ram, head: nat, free: seq<nat>, k: nat)
    requires IsList(ram, head, free) && k < |free|
    ensures free[k] != 0
    decreases k
  {
    if k > 0 {
      NotNull(ram, ram[head][0], free[1..], k - 1);
    }
  }

  lemma RoundUpIsLeast(a: nat, pa: nat)
    requires pa % PGSIZE == 0
    ensures PgRoundUp(a) % PGSIZE == 0 && a <= PgRoundUp(a) < a + PGSIZE
    ensures a <= pa ==> PgRoundUp(a) <= pa
  {
  }

  lemma NextPage(p: nat, pa: nat)
    requires p % PGSIZE == 0 && pa % PGSIZE == 0 && pa < p + PGSIZE
    ensures pa <= p
  {
  }

  predicate Aligned(pa: nat) {
    pa % PGSIZE == 0
  }

  lemma BelowLast(lo: nat, n: nat, pa: nat)
    requires Aligned(lo) && Aligned(pa) && n > 0 && pa < lo + n * PGSIZE && pa != lo + (n - 1) * PGSIZE
    ensures pa < lo + (n - 1) * PGSIZE
  {
    assert lo + (n - 1) * PGSIZE == (lo / PGSIZE + n - 1) * PGSIZE;
    NextPage(lo + (n - 1) * PGSIZE, pa);
  }

  lemma {:induction false} CountPages(s: set<nat>, lo: nat, n: nat)
    requires forall x :: x in s ==> Aligned(x) && lo <= x < lo + n * PGSIZE
    requires Aligned(lo)
    ensures |s| <= n
  {
    hide Aligned;
    if n == 0 {
      assert s == {};
    } else {
      var last := lo + (n - 1) * PGSIZE;
      forall x | x in s - {last} ensures x < last {
        BelowLast(lo, n, x);
      }
      CountPages(s - {last}, lo, n - 1);
      assert s <= (s - {last}) + {last};
    }
  }

  /** Different pages of RAM take up no more room than there is. */
  lemma PagesFit(s: seq<nat>)
    requires Distinct(s) && forall x :: x in s ==> x % PGSIZE == 0 && KERNBASE <= x && x + PGSIZE <= PHYSTOP
    ensures |s| * PGSIZE <= PHYSTOP - KERNBASE
  {
    CountDistinct(s);
    CountPages(Elems(s), KERNBASE, (PHYSTOP - KERNBASE) / PGSIZE);
  }

  class PhysMem {
    const end: nat  // first address after the kernel image
    const top: nat  // PHYSTOP
    var ram: Ram
    var freelist: nat
    ghost var free: seq<nat>

    predicate Managed(pa: nat) {
      pa % PGSIZE == 0 && end <= pa && pa + PGSIZE <= top
    }

    /** The managed pages are the ones in `ram`; the free list is well linked and repeats no page. */
    ghost predicate Valid()
      reads this
    {
      && KERNBASE <= end && top % PGSIZE == 0 && top <= PHYSTOP
      && (forall pa :: pa in ram <==> Managed(pa))
      && IsList(ram, freelist, free)
      && Distinct(free)
    }

    lemma FreeFits()
      requires Valid()
      ensures |free| * PGSIZE <= PHYSTOP - KERNBASE
    {
      ListPages(ram, freelist, free);
      forall x | x in free ensures x % PGSIZE == 0 && KERNBASE <= x && x + PGSIZE <= PHYSTOP {
        assert Managed(x);
      }
      PagesFit(free);
    }

    /** The free pages are exactly the managed ones below p. */
    ghost predicate FreedBelow(p: nat)
      reads this
    {
      && Valid() && p % PGSIZE == 0 && p >= end
      && forall pa: nat :: pa in free <==> pa in ram && pa < p
    }

    /** kinit: freerange gives every whole page of [end, top) to the allocator exactly once. */
    constructor (end: nat, top: nat, contents: Ram)
      requires KERNBASE <= end && top % PGSIZE == 0 && top <= PHYSTOP
      requires forall pa: nat :: pa in contents <==> pa % PGSIZE == 0 && end <= pa && pa + PGSIZE <= top
      ensures Valid() && this.end == end && this.top == top && ram.Keys == contents.Keys
      ensures forall pa: nat :: pa in free <==> pa in ram
    {
      this.end, this.top, ram, freelist, free := end, top, contents, 0, [];
      new;
      var p := PgRoundUp(end);
      forall pa | pa in ram ensures p <= pa {
        RoundUpIsLeast(end, pa);
      }
      RoundUpIsLeast(end, 0);
      while p + PGSIZE <= top
        invariant FreedBelow(p) && ram.Keys == contents.Keys
      {
        FreeNext(p);
        p := p + PGSIZE;
      }
    }

    method FreeNext(p: nat)
      requires FreedBelow(p) && p + PGSIZE <= top
      modifies this
      ensures FreedBelow(p + PGSIZE) && ram.Keys == old(ram.Keys)
    {
      forall pa | pa in ram && pa < p + PGSIZE ensures pa <= p {
        NextPage(p, pa);
      }
      assert p !in free;
      hide Looped, IsList;
      var o := Kfree(p);
    }

    /** kalloc pops the head of the list and fills the page with 5s; 0 means no page was left. */
    method Kalloc() returns (r: nat)
      requires Valid()
      modifies this
      ensures Valid()
      ensures old(free) == [] ==> r == 0 && ram == old(ram) && free == []
      ensures old(free) != [] ==>
                r == old(free)[0] && r in old(ram) && free == old(free)[1..] && ram == old(ram)[r := Filled(5)]
    {
      r := freelist;
      if r != 0 {
        assert old(free) == [r] + old(free)[1..];
        freelist := ram[r][0];
        free := free[1..];
        ListFrame(ram, ram[r := Filled(5)], freelist, free);
        ram := ram[r := Filled(5)];
      }
    }

    /**
     kfree panics on a page it does not manage, else fills it with 1s and pushes it. It does not ask whether the page
     is free already: then there is no free list any more, only a loop.
     */
    method Kfree(pa: nat) returns (o: Outcome)
      requires Valid()
      modifies this
      ensures o == Panic <==> pa % PGSIZE != 0 || pa < end || pa >= top
      ensures o == Panic ==> ram == old(ram) && free == old(free) && Valid()
      ensures o == Done ==>
                && pa in old(ram) && free == [pa] + old(free) && freelist == pa
                && ram == old(ram)[pa := Filled(1)[0 := old(freelist)]]
      ensures o == Done && pa !in old(free) ==> Valid()
      ensures o == Done && pa in old(free) ==> Looped(ram, freelist)
    {
      if pa % PGSIZE != 0 || pa < end || pa >= top {
        return Panic;
      }
      assert pa + PGSIZE <= top;
      if pa in free {
        DoubleFree(ram, freelist, free, pa);
      } else {
        ListFrame(ram, ram[pa := Filled(1)[0 := freelist]], freelist, free);
      }
      ram := ram[pa := Filled(1)[0 := freelist]];
      freelist := pa;
      free := [pa] + free;
      assert free[1..] == old(free);
      return Done;
    }

    /** A store to a page that is in use leaves the free list alone. */
    method Store(pa: nat, contents: Page)
      requires Valid() && pa in ram && pa !in free
      modifies this`ram
      ensures Valid() && ram == old(ram)[pa := contents]
    {
      ListFrame(ram, ram[pa := contents], freelist, free);
      ram := ram[pa := contents];
    }
  }
}
