/** uvmunmap (kernel/src/vm.c). */
module Unmap {
  import opened Common
  import opened Collections
  import opened Sv39
  import opened Kalloc
  import opened PageTable
  import opened PageWalk
  import opened Mappages

  /** The physical page behind page number v. */
  function PageOf(ram: Ram, t: Tree, v: nat): nat {
    Pte2Pa(Entry(ram, t, v))
  }

  /** uvmunmap can clear this page: it is mapped, by an entry that is not a bare table pointer. */
  predicate CanUnmap(ram: Ram, t: Tree, v: nat) {
    v < PAGES && IsValid(Entry(ram, t, v)) && PteFlags(Entry(ram, t, v)) != PTE_V
  }

  /** uvmunmap gets past this page: with do_free, kfree has to accept what is behind it. */
  predicate CanClear(ram: Ram, t: Tree, v: nat, doFree: bool) {
    CanUnmap(ram, t, v) && (doFree ==> PageOf(ram, t, v) in ram)
  }

  /** The pages kfree pushes for page numbers [v, v + n), the last one first. */
  function Released(ram: Ram, t: Tree, v: nat, n: nat): seq<nat> {
    if n == 0 then [] else [PageOf(ram, t, v + n - 1)] + Released(ram, t, v, n - 1)
  }

  /**
   The effect of unmapping [v, v + n): those entries are 0, every other translation is unchanged,
   the released pages are in front of the free list and no page outside the tree and the released
   ones was touched.
   */
  ghost predicate Unmapped(ram: Ram, t: Tree, free: seq<nat>, more: Ram, rest: seq<nat>, v: nat, n: nat,
                           released: seq<nat>) {
    && TreeOk(more, t)
    && rest == released + free
    && SameOutside(ram, more, Tables(t) + Elems(released))
    && forall u: nat :: Entry(more, t, u) == if v <= u < v + n then 0 else Entry(ram, t, u)
  }

  /** What freeing the mapped pages of a range asks for: each is in use, by that page number alone. */
  ghost predicate OwnedAt(ram: Ram, t: Tree, free: seq<nat>, v: nat, n: nat) {
    && (forall u: nat :: v <= u < v + n && CanUnmap(ram, t, u) ==>
          var pa := PageOf(ram, t, u); pa !in free && pa !in Tables(t))
    && (forall u: nat, w: nat :: v <= u < w < v + n && CanUnmap(ram, t, u) && CanUnmap(ram, t, w) ==>
          PageOf(ram, t, u) != PageOf(ram, t, w))
  }

  lemma NoSlot(ram: Ram, t: Tree, a: nat)
    requires TreeOk(ram, t) && (a >= MAXVA || Need(t, a) > 0)
    ensures !CanUnmap(ram, t, a / PGSIZE)
  {
    if a < MAXVA {
      PxDigits(a);
    }
  }

  lemma SlotIsSmall(t: Tree, a: nat, w: Walked)
    requires a < MAXVA && IsSlot(t, a / PGSIZE, w)
    ensures a / PGSIZE < PAGES
  {
  }

  /** Clearing the entry after the page behind it (if any) was released. */
  lemma ClearedEntry(before: Ram, t: Tree, free: seq<nat>, ram: Ram, v: nat, w: Walked, released: seq<nat>)
    requires TreeOk(before, t) && IsSlot(t, v, w)
    requires SameOutside(before, ram, Elems(released)) && Elems(released) !! Tables(t)
    ensures w.page in ram && w.page in Tables(t) && w.index < PTES
    ensures Unmapped(before, t, free, ram[w.page := ram[w.page][w.index := 0]], released + free, v, 1, released)
  {
    TreeFrame(before, ram, t);
    SetEntry(ram, t, v, 0);
  }

  /** `kfree((void *)pa); *pte = 0` */
  method Clear(m: PhysMem, ghost t: Tree, ghost v: nat, w: Walked, pa: nat, doFree: bool) returns (o: Outcome)
    requires VmOk(m, t) && IsSlot(t, v, w)
    requires doFree ==> pa !in m.free && pa !in Tables(t)
    modifies m
    ensures VmOk(m, t)
    ensures o == Panic <==> doFree && pa !in old(m.ram)
    ensures o == Panic ==> m.ram == old(m.ram) && m.free == old(m.free)
    ensures o == Done ==> Unmapped(old(m.ram), t, old(m.free), m.ram, m.free, v, 1, if doFree then [pa] else [])
  {
    hide TreeOk, Tables, IsList, Entry, Unmapped;
    ghost var released := if doFree then [pa] else [];
    assert Elems([pa]) == {pa} && Elems([]) == {};
    if doFree {
      o := m.Kfree(pa);
      if o == Panic {
        return;
      }
    }
    ClearedEntry(old(m.ram), t, old(m.free), m.ram, v, w, released);
    assert m.free == released + old(m.free);
    assert w.page !in m.free by {
      InUse(old(m.free), released, w.page, t);
    }
    m.Store(w.page, m.ram[w.page][w.index := 0]);
    StillApart(m, old(m.ram), t, old(m.free), v, 1, released);
    o := Done;
  }

  lemma InUse(free: seq<nat>, released: seq<nat>, page: nat, t: Tree)
    requires page in Tables(t) && Tables(t) !! Elems(free) && Tables(t) !! Elems(released)
    ensures page !in released + free
  {
    assert page !in Elems(free) && page !in Elems(released);
  }

  lemma StillApart(m: PhysMem, ram: Ram, t: Tree, free: seq<nat>, v: nat, n: nat, released: seq<nat>)
    requires m.Valid() && Tables(t) !! Elems(free) && Tables(t) !! Elems(released)
    requires Unmapped(ram, t, free, m.ram, m.free, v, n, released)
    ensures VmOk(m, t)
  {
  }

  lemma OwnedPage(m: PhysMem, t: Tree, v: nat)
    requires OwnedAt(m.ram, t, m.free, v, 1) && CanUnmap(m.ram, t, v)
    ensures var pa := PageOf(m.ram, t, v); pa !in m.free && pa !in Tables(t)
  {
  }

  /** One iteration of uvmunmap. */
  method UnmapOne(m: PhysMem, ghost t: Tree, root: nat, a: nat, doFree: bool) returns (o: Outcome)
    requires VmOk(m, t) && root == t.root && a % PGSIZE == 0
    requires doFree ==> OwnedAt(m.ram, t, m.free, a / PGSIZE, 1)
    modifies m
    ensures o == Done <==> CanClear(old(m.ram), t, a / PGSIZE, doFree)
    ensures o == Panic ==> m.ram == old(m.ram) && m.free == old(m.free)
    ensures VmOk(m, t)
    ensures o == Done ==> Unmapped(old(m.ram), t, old(m.free), m.ram, m.free, a / PGSIZE, 1,
                                   if doFree then [PageOf(old(m.ram), t, a / PGSIZE)] else [])
  {
    hide TreeOk, Tables, Edited, Need, IsList, Entry, Unmapped, IsValid, PteFlags, Pte2Pa, IsSlot, OwnedAt;
    ghost var v := a / PGSIZE;
    if doFree && CanUnmap(m.ram, t, v) {
      OwnedPage(m, t, v);
    }
    var w := Find(m, t, root, a);
    if !w.Slot? {
      NoSlot(m.ram, t, a);
      return Panic;
    }
    StoreIsEdit(m.ram, t, m.free, v, w, 0);
    var pte := m.ram[w.page][w.index];
    if !IsValid(pte) || PteFlags(pte) == PTE_V {
      return Panic;
    }
    SlotIsSmall(t, a, w);
    o := Clear(m, t, v, w, Pte2Pa(pte), doFree);
  }

  lemma UnmappedTrans(r0: Ram, t: Tree, f0: seq<nat>, r1: Ram, f1: seq<nat>, r2: Ram, f2: seq<nat>, v: nat, k: nat,
                      first: seq<nat>, second: seq<nat>)
    requires Unmapped(r0, t, f0, r1, f1, v, k, first) && Unmapped(r1, t, f1, r2, f2, v + k, 1, second)
    ensures Unmapped(r0, t, f0, r2, f2, v, k + 1, second + first)
  {
    assert Elems(second + first) == Elems(second) + Elems(first);
    assert second + (first + f0) == (second + first) + f0;
    var all := Tables(t) + Elems(second + first);
    assert SameOutside(r0, r1, all) && SameOutside(r1, r2, all);
    SameOutsideTrans(r0, r1, r2, all, all);
  }

  lemma {:induction false} ReleasedPages(ram: Ram, t: Tree, v: nat, n: nat, pa: nat)
    requires pa in Released(ram, t, v, n)
    ensures exists u: nat :: v <= u < v + n && PageOf(ram, t, u) == pa
  {
    if pa == PageOf(ram, t, v + n - 1) {
    } else {
      ReleasedPages(ram, t, v, n - 1, pa);
    }
  }

  /** What the loop has released so far. */
  function SoFar(ram: Ram, t: Tree, v: nat, k: nat, doFree: bool): seq<nat> {
    if doFree then Released(ram, t, v, k) else []
  }

  /** Where uvmunmap stands after k pages, from (ram, free). */
  ghost predicate Unmapping(m: PhysMem, ram: Ram, t: Tree, free: seq<nat>, v: nat, n: nat, k: nat, doFree: bool)
    reads m
  {
    && VmOk(m, t) && k <= n
    && Unmapped(ram, t, free, m.ram, m.free, v, k, SoFar(ram, t, v, k, doFree))
    && (forall u: nat :: v <= u < v + k ==> CanClear(ram, t, u, doFree))
  }

  /** The pages not yet reached are still owned: none of them has been released. */
  lemma StillOwned(m: PhysMem, ram: Ram, t: Tree, free: seq<nat>, v: nat, n: nat, k: nat, lim: nat)
    requires Unmapping(m, ram, t, free, v, n, k, true) && k <= lim
    requires OwnedAt(ram, t, free, v, lim) && (k == lim ==> !CanUnmap(ram, t, v + k))
    ensures OwnedAt(m.ram, t, m.free, v + k, 1)
  {
    hide TreeOk, Tables, VmOk, IsValid, PteFlags, Pte2Pa, Entry;
    var u, pa := v + k, PageOf(ram, t, v + k);
    assert Entry(m.ram, t, u) == Entry(ram, t, u);
    forall w: nat | v <= w < v + k ensures CanUnmap(ram, t, w) {
      assert CanClear(ram, t, w, true);
    }
    if CanUnmap(ram, t, u) && pa in Released(ram, t, v, k) {
      ReleasedPages(ram, t, v, k, pa);
    }
  }

  method UnmapNext(m: PhysMem, ghost ram: Ram, ghost t: Tree, ghost free: seq<nat>, root: nat, a: nat, doFree: bool,
                   ghost v: nat, ghost n: nat, ghost k: nat, ghost lim: nat)
    returns (o: Outcome)
    requires Unmapping(m, ram, t, free, v, n, k, doFree) && k < n && a == (v + k) * PGSIZE && root == t.root
    requires k <= lim && (k == lim ==> !CanUnmap(ram, t, v + k))
    requires doFree ==> OwnedAt(ram, t, free, v, lim)
    modifies m
    ensures o == Done <==> CanClear(ram, t, v + k, doFree)
    ensures o == Done ==> Unmapping(m, ram, t, free, v, n, k + 1, doFree)
    ensures o == Panic ==> Unmapping(m, ram, t, free, v, n, k, doFree)
  {
    hide TreeOk, Tables, Unmapped, Entry, OwnedAt, IsValid, PteFlags, Pte2Pa;
    ghost var ram0, free0 := m.ram, m.free;
    assert Entry(ram0, t, v + k) == Entry(ram, t, v + k) && ram0.Keys == ram.Keys by {
      KeptEntry(ram, t, free, ram0, free0, v, k, SoFar(ram, t, v, k, doFree));
    }
    if doFree {
      StillOwned(m, ram, t, free, v, n, k, lim);
    }
    assert a / PGSIZE == v + k;
    o := UnmapOne(m, t, root, a, doFree);
    assert CanClear(ram0, t, v + k, doFree) <==> CanClear(ram, t, v + k, doFree);
    if o == Done {
      ghost var one := if doFree then [PageOf(ram, t, v + k)] else [];
      UnmappedTrans(ram, t, free, ram0, free0, m.ram, m.free, v, k, SoFar(ram, t, v, k, doFree), one);
      assert one + SoFar(ram, t, v, k, doFree) == SoFar(ram, t, v, k + 1, doFree);
    }
  }

  lemma KeptEntry(ram: Ram, t: Tree, free: seq<nat>, more: Ram, rest: seq<nat>, v: nat, k: nat, released: seq<nat>)
    requires Unmapped(ram, t, free, more, rest, v, k, released)
    ensures Entry(more, t, v + k) == Entry(ram, t, v + k) && more.Keys == ram.Keys
  {
  }

  /**
   uvmunmap: when every page of the range can be unmapped, exactly the range disappears from the
   address space and, with do_free, exactly its pages return to the free list. Otherwise it halts at
   the first page k that is not mapped or that kfree refuses, or at once on a misaligned address.
   Ownership is asked for only up to a page that is not mapped (lim).
   */
  method Uvmunmap(m: PhysMem, ghost t: Tree, root: nat, va: nat, npages: nat, doFree: bool, ghost lim: nat)
    returns (o: Outcome, ghost k: nat)
    requires VmOk(m, t) && root == t.root
    requires lim <= npages && (lim < npages ==> !CanUnmap(m.ram, t, va / PGSIZE + lim))
    requires doFree ==> OwnedAt(m.ram, t, m.free, va / PGSIZE, lim)
    modifies m
    ensures o == Done <==>
            va % PGSIZE == 0 && forall u: nat :: va / PGSIZE <= u < va / PGSIZE + npages ==>
                CanClear(old(m.ram), t, u, doFree)
    ensures o == Done ==> k == npages
    ensures o == Panic ==> va % PGSIZE != 0 || (k < npages && !CanClear(old(m.ram), t, va / PGSIZE + k, doFree))
    ensures Unmapping(m, old(m.ram), t, old(m.free), va / PGSIZE, npages, k, doFree)
  {
    hide TreeOk, Tables, Unmapped, Entry, CanUnmap, PageOf, OwnedAt;
    ghost var v := va / PGSIZE;
    k := 0;
    NothingUnmapped(m.ram, t, m.free, v, doFree);
    if va % PGSIZE != 0 {
      return Panic, 0;
    }
    var a := va;
    while a < va + npages * PGSIZE
      invariant a == va + k * PGSIZE && k <= lim
      invariant Unmapping(m, old(m.ram), t, old(m.free), v, npages, k, doFree)
    {
      assert (v + k) * PGSIZE == a;
      o := UnmapNext(m, old(m.ram), t, old(m.free), root, a, doFree, v, npages, k, lim);
      if o == Panic {
        return;
      }
      a, k := a + PGSIZE, k + 1;
    }
    o := Done;
  }

  lemma NothingUnmapped(ram: Ram, t: Tree, free: seq<nat>, v: nat, doFree: bool)
    requires TreeOk(ram, t)
    ensures Unmapped(ram, t, free, ram, free, v, 0, SoFar(ram, t, v, 0, doFree))
  {
    assert [] + free == free;
  }
}
