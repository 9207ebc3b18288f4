/** uvmcopy (kernel/src/vm.c): the address space fork gives to a child. */
module Uvmcopy {
  import opened Collections
  import opened Sv39
  import opened Kalloc
  import opened PageTable
  import opened PageWalk
  import opened Mappages
  import opened Unmap
  import opened TableCost
  import opened Uvm
  import opened ProcPagetable

  function CopyPte(ram: Ram, parent: Tree, data: seq<nat>, u: nat): nat
    requires u < |data|
  {
    MakePte(data[u], PteFlags(Entry(ram, parent, u)))
  }

  /** The child's entries: its own pages under the parent's flags. */
  function CopyMap(ram: Ram, parent: Tree, data: seq<nat>): map<nat, nat> {
    map u: nat | 0 <= u < |data| :: CopyPte(ram, parent, data, u)
  }

  lemma CopyMapNext(ram: Ram, parent: Tree, data: seq<nat>, d: nat)
    ensures CopyMap(ram, parent, data) + map[|data| := MakePte(d, PteFlags(Entry(ram, parent, |data|)))] ==
            CopyMap(ram, parent, data + [d])
  {
    var left := CopyMap(ram, parent, data) + map[|data| := MakePte(d, PteFlags(Entry(ram, parent, |data|)))];
    forall u | 0 <= u < |data| + 1 ensures left[u] == CopyPte(ram, parent, data + [d], u) {
      if u < |data| {
        assert CopyMap(ram, parent, data)[u] == CopyPte(ram, parent, data, u);
      }
    }
  }

  /** The parent's tables and pages are neither free nor part of the child's tables. */
  ghost predicate Apart(ram: Ram, parent: Tree, t: Tree, free: seq<nat>, n: nat) {
    && TreeOk(ram, parent) && Tables(parent) !! Tables(t) + Elems(free)
    && forall u: nat :: u < n && IsValid(Entry(ram, parent, u)) ==>
                          && PageOf(ram, parent, u) in ram && PageOf(ram, parent, u) !in Tables(t) + Elems(free)
                          && PteFlags(Entry(ram, parent, u)) != PTE_V
  }

  /** The first |data| pages are copied, from (ram, t, free). */
  ghost predicate Copying(m: PhysMem, ram: Ram, parent: Tree, t: Tree, free: seq<nat>, t': Tree, data: seq<nat>)
    reads m
  {
    && VmOk(m, t')
    && Grown(ram, t, free, m.ram, t', m.free, CopyMap(ram, parent, data), data)
    && |data| <= PAGES
    && (forall u: nat :: u < |data| ==> IsValid(Entry(ram, parent, u)) && PageOf(ram, parent, u) in ram)
    && (forall u: nat :: u < |data| ==> data[u] in m.ram && m.ram[data[u]] == ram[PageOf(ram, parent, u)])
  }

  /** Copying leaves the parent exactly as it was. */
  lemma ParentKept(m: PhysMem, ram: Ram, parent: Tree, t: Tree, free: seq<nat>, t': Tree, rest: seq<nat>,
                   delta: map<nat, nat>, data: seq<nat>, n: nat)
    requires m.Valid() && Grown(ram, t, free, m.ram, t', rest, delta, data) && Apart(ram, parent, t, free, n)
    ensures TreeOk(m.ram, parent) && (forall v: nat :: Entry(m.ram, parent, v) == Entry(ram, parent, v))
    ensures Tables(parent) !! Elems(rest)
    ensures forall u: nat :: u < n && IsValid(Entry(ram, parent, u)) ==>
              var pa := PageOf(ram, parent, u); pa in m.ram && m.ram[pa] == ram[pa]
  {
    TreeFrame(ram, m.ram, parent);
    assert Elems(rest) <= Elems(free);
  }

  /** walk(old, i, 0) and the two checks on its result. */
  method Lookup(m: PhysMem, ghost t: Tree, root: nat, a: nat) returns (present: bool, pte: nat)
    requires VmOk(m, t) && root == t.root
    modifies m
    ensures VmOk(m, t) && m.ram == old(m.ram) && m.free == old(m.free)
    ensures present <==> a < MAXVA && IsValid(Entry(m.ram, t, a / PGSIZE))
    ensures present ==> pte == Entry(m.ram, t, a / PGSIZE)
  {
    hide VmOk, TreeOk, Edited, Entry, Need, IsValid, IsSlot;
    IsTree(m, t);
    var w := Find(m, t, root, a);
    if !w.Slot? {
      MissingEntry(m.ram, t, a);
      return false, 0;
    }
    StoreIsEdit(m.ram, t, m.free, a / PGSIZE, w, 0);
    pte := m.ram[w.page][w.index];
    present := IsValid(pte);
  }

  lemma IsTree(m: PhysMem, t: Tree)
    requires VmOk(m, t)
    ensures TreeOk(m.ram, t)
  {
  }

  lemma MissingEntry(ram: Ram, t: Tree, a: nat)
    requires TreeOk(ram, t) && (a >= MAXVA || Need(t, a) > 0)
    ensures a < MAXVA ==> !IsValid(Entry(ram, t, a / PGSIZE))
  {
    if a < MAXVA {
      PxDigits(a);
    }
  }

  /** The walk of the parent's table for page u panics uvmcopy. */
  predicate Unmappable(ram: Ram, parent: Tree, u: nat) {
    u >= PAGES || !IsValid(Entry(ram, parent, u))
  }

  method CopyNext(m: PhysMem, ghost ram: Ram, ghost parent: Tree, oldroot: nat, ghost t: Tree, ghost free: seq<nat>,
                  ghost t0: Tree, root: nat, a: nat, ghost data: seq<nat>, ghost n: nat)
    returns (r: Status, ghost t': Tree, ghost data': seq<nat>)
    requires Copying(m, ram, parent, t, free, t0, data) && Apart(ram, parent, t, free, n) && |data| < n
    requires a == |data| * PGSIZE && root == t.root && oldroot == parent.root && !IsValid(Entry(ram, t, |data|))
    requires Paid(t, t0, 0, |data|, |free|, |m.free|)
    modifies m
    ensures r == Halt <==> Unmappable(ram, parent, |data|)
    ensures r == Ok ==>
              && |data'| == |data| + 1 && Copying(m, ram, parent, t, free, t', data')
              && Paid(t, t', 0, |data'|, |free|, |m.free|)
    ensures r != Ok ==> data' == data && Copying(m, ram, parent, t, free, t', data)
    ensures r == NoMem ==> !Affords(t, 0, |data| + 1, |free|)
  {
    hide TreeOk, Tables, Entry, IsValid, Grown, CopyMap, IsList, PteFlags, Pte2Pa, MakePte, NewTables, Added;
    ghost var ram0, free0, delta := m.ram, m.free, CopyMap(ram, parent, data);
    assert a / PGSIZE == |data|;
    assert |data| !in delta by { OutsideCopyMap(ram, parent, data); }
    NotInDelta(ram, t, free, ram0, t0, free0, delta, data, |data|);
    ParentKept(m, ram, parent, t, free, t0, free0, delta, data, n);
    data', t' := data, t0;
    var present, pte := Lookup(m, parent, oldroot, a);
    if !present {
      return Halt, t0, data;
    }
    assert PageOf(ram, parent, |data|) == Pte2Pa(pte);
    var contents := m.ram[Pte2Pa(pte)];
    var d;
    FlagsFit(pte);
    r, d, t' := AddPage(m, t0, root, a, PteFlags(pte), contents);
    PaidNext(t, t0, t', 0, |data|, |free|, |free0|, |m.free|);
    ghost var more: map<nat, nat>, page: seq<nat> := map[], [];
    if r == Ok {
      more, page := map[|data| := MakePte(d, PteFlags(pte))], [d];
      CopyMapNext(ram, parent, data, d);
    }
    GrownTrans(ram, t, free, ram0, t0, free0, m.ram, t', m.free, delta, more, data, page);
    data' := data + page;
    assert r == NoMem ==> delta + more == delta && data' == data;
    forall u: nat | u < |data| ensures data[u] in m.ram && m.ram[data[u]] == ram[PageOf(ram, parent, u)] {
      DataKept(ram, t, free, ram0, t0, free0, m.ram, t', m.free, delta, data, more, page, u);
    }
  }

  lemma FlagsFit(pte: nat)
    ensures PteFlags(pte) < 1024
  {
  }

  lemma OutsideCopyMap(ram: Ram, parent: Tree, data: seq<nat>)
    ensures |data| !in CopyMap(ram, parent, data)
  {
  }

  /** A valid entry's flags survive being rebuilt around another page. */
  lemma SameFlags(pa: nat, pte: nat)
    requires pa % PGSIZE == 0 && IsValid(pte)
    ensures var copy := MakePte(pa, PteFlags(pte));
            Pte2Pa(copy) == pa && PteFlags(copy) == PteFlags(pte) && IsValid(copy)
  {
    var flags := PteFlags(pte);
    PageBits(pte / 1024, flags);
    assert flags % 2 == 1;
    assert flags / 2 * 2 + 1 == flags;
    hide Pte2Pa, PteFlags, IsValid, MakePte;
    PteRoundTrip(pa, flags);
  }

  lemma CopiedEntry(ram: Ram, parent: Tree, t: Tree, free: seq<nat>, more: Ram, t': Tree, rest: seq<nat>,
                    data: seq<nat>, u: nat)
    requires Grown(ram, t, free, more, t', rest, CopyMap(ram, parent, data), data)
    requires u < |data| && data[u] % PGSIZE == 0 && IsValid(Entry(ram, parent, u))
    ensures IsValid(Entry(more, t', u)) && PageOf(more, t', u) == data[u]
    ensures PteFlags(Entry(more, t', u)) == PteFlags(Entry(ram, parent, u))
    ensures data[u] in free && data[u] !in rest && data[u] !in Tables(t')
  {
    assert CopyMap(ram, parent, data)[u] == CopyPte(ram, parent, data, u);
    hide TreeOk, Tables, Entry, PteFlags, Pte2Pa, MakePte, IsValid;
    SameFlags(data[u], Entry(ram, parent, u));
    assert data[u] in Elems(data) && data[u] in Elems(free);
  }

  lemma OwnedCopies(m: PhysMem, ram: Ram, parent: Tree, t: Tree, free: seq<nat>, t': Tree, data: seq<nat>, n: nat)
    requires Copying(m, ram, parent, t, free, t', data) && Apart(ram, parent, t, free, n) && |data| <= n
    ensures OwnedAt(m.ram, t', m.free, 0, |data|)
    ensures forall u: nat :: u < |data| ==> CanClear(m.ram, t', u, true) && PageOf(m.ram, t', u) == data[u]
  {
    hide TreeOk, Tables, Entry, Grown, CopyMap, PteFlags, IsValid, Pte2Pa;
    forall u: nat | u < |data|
      ensures PageOf(m.ram, t', u) == data[u] && data[u] in m.ram && data[u] !in m.free
              && data[u] !in Tables(t') && CanClear(m.ram, t', u, true)
    {
      assert data[u] % PGSIZE == 0 by { assert m.Managed(data[u]); }
      CopiedEntry(ram, parent, t, free, m.ram, t', m.free, data, u);
    }
    DistinctCopies(ram, parent, t, free, m.ram, t', m.free, data);
  }

  lemma DistinctCopies(ram: Ram, parent: Tree, t: Tree, free: seq<nat>, more: Ram, t': Tree, rest: seq<nat>,
                       data: seq<nat>)
    requires Grown(ram, t, free, more, t', rest, CopyMap(ram, parent, data), data)
    ensures Distinct(data)
  {
  }

  function Cleared(n: nat): map<nat, nat> {
    map u: nat | 0 <= u < n :: Zero(u)
  }

  function Zero(u: nat): nat {
    0
  }

  /** Unmapping and freeing the copied pages undoes everything but the new tables. */
  lemma CopyUndone(ram: Ram, parent: Tree, t: Tree, free: seq<nat>, mid: Ram, t': Tree, rest: seq<nat>, data: seq<nat>,
                   more: Ram, last: seq<nat>)
    requires Grown(ram, t, free, mid, t', rest, CopyMap(ram, parent, data), data)
    requires Unmapped(mid, t', rest, more, last, 0, |data|, Released(mid, t', 0, |data|))
    requires Elems(Released(mid, t', 0, |data|)) == Elems(data)
    ensures Grown(ram, t, free, more, t', last, Cleared(|data|), [])
  {
    var back := Released(mid, t', 0, |data|);
    assert Elems(back + rest) == Elems(back) + Elems(rest) && Elems([]) == {};
    SameOutsideTrans(ram, mid, more, Tables(t) + Elems(free), Tables(t') + Elems(data));
    forall v: nat ensures Entry(more, t', v) == if v in Cleared(|data|) then Cleared(|data|)[v] else Entry(ram, t, v) {
    }
  }

  /** What the child has for page u: a page of its own with the parent's contents, under the parent's flags. */
  ghost predicate CopyOf(ram: Ram, parent: Tree, more: Ram, t: Tree, data: seq<nat>, u: nat)
    requires u < |data|
  {
    && IsValid(Entry(more, t, u)) && PageOf(more, t, u) == data[u]
    && PteFlags(Entry(more, t, u)) == PteFlags(Entry(ram, parent, u))
    && PageOf(ram, parent, u) in ram && data[u] in more && more[data[u]] == ram[PageOf(ram, parent, u)]
  }

  lemma CopiedPage(m: PhysMem, ram: Ram, parent: Tree, t: Tree, free: seq<nat>, t': Tree, data: seq<nat>, u: nat)
    requires Copying(m, ram, parent, t, free, t', data) && u < |data|
    ensures CopyOf(ram, parent, m.ram, t', data, u)
  {
    hide TreeOk, Tables, Entry, IsValid, PteFlags, MakePte, Pte2Pa;
    assert CopyMap(ram, parent, data)[u] == CopyPte(ram, parent, data, u);
    assert m.Managed(data[u]);
    SameFlags(data[u], Entry(ram, parent, u));
  }

  /**
   uvmcopy succeeds exactly when every page below sz is mapped in the parent and the free list pays for
   as many pages and for the tables the child lacks; then every page below sz has in the child a fresh
   page of its own with the same contents and flags. It panics exactly when it can pay for the pages up
   to the first one the parent does not have. Otherwise it fails, the child has no mapping below sz and
   every data page is free again, only tables of the child stay allocated. The parent is untouched.
   */
  method Uvmcopy(m: PhysMem, ghost parent: Tree, oldroot: nat, ghost t: Tree, root: nat, sz: nat)
    returns (r: Status, ghost t': Tree, ghost data: seq<nat>)
    requires VmOk(m, t) && root == t.root && oldroot == parent.root
    requires Apart(m.ram, parent, t, m.free, PgRoundUp(sz) / PGSIZE)
    requires forall u: nat :: u < PgRoundUp(sz) / PGSIZE ==> !IsValid(Entry(m.ram, t, u))
    modifies m
    ensures r == Ok ==> |data| == PgRoundUp(sz) / PGSIZE && Copying(m, old(m.ram), parent, t, old(m.free), t', data)
    ensures r == Ok ==> forall u: nat :: u < |data| ==> CopyOf(old(m.ram), parent, m.ram, t', data, u)
    ensures r == NoMem ==>
              VmOk(m, t') && (forall u: nat :: u < PgRoundUp(sz) / PGSIZE ==> !IsValid(Entry(m.ram, t', u)))
    ensures r == NoMem ==>
              && |data| < PgRoundUp(sz) / PGSIZE
              && Grown(old(m.ram), t, old(m.free), m.ram, t', m.free, Cleared(|data|), [])
    ensures r == Ok <==> && (forall u: nat :: u < PgRoundUp(sz) / PGSIZE ==> !Unmappable(old(m.ram), parent, u))
                         && Affords(t, 0, PgRoundUp(sz) / PGSIZE, |old(m.free)|)
    ensures r == Halt <==> exists u: nat ::
              && u < PgRoundUp(sz) / PGSIZE && Unmappable(old(m.ram), parent, u) && Affords(t, 0, u, |old(m.free)|)
              && forall w: nat :: w < u ==> !Unmappable(old(m.ram), parent, w)
    ensures ParentSame(old(m.ram), m.ram, parent, PgRoundUp(sz) / PGSIZE)
  {
    hide TreeOk, Tables, Entry, IsValid, Grown, Apart, CopyMap, Copying, Unmappable, Paid, Affords, ParentSame,
         NewTables, CopyOf;
    ghost var n := PgRoundUp(sz) / PGSIZE;
    ghost var ram, free := m.ram, m.free;
    t', data := t, [];
    CopyStart(m, parent, t);
    PaidNothing(t, 0, |m.free|);
    var i := 0;
    while i < sz
      invariant i == |data| * PGSIZE && |data| <= n && (i < sz <==> |data| < n)
      invariant Copying(m, ram, parent, t, free, t', data) && Paid(t, t', 0, |data|, |free|, |m.free|)
      invariant forall w: nat :: w < |data| ==> !Unmappable(ram, parent, w)
    {
      ghost var u := |data|;
      assert u < n && !IsValid(Entry(ram, t, u));
      PaidAffords(t, t', 0, u, |free|, |m.free|);
      r, t', data := CopyNext(m, ram, parent, oldroot, t, free, t', root, i, data, n);
      CopyFacts(t, u, n, |free|);
      if r == Halt {
        assert Unmappable(ram, parent, u);
        SameAfterCopying(m, ram, parent, t, free, t', data, n);
        return;
      }
      if r == NoMem {
        UndoCopy(m, ram, parent, t, free, t', root, i / PGSIZE, data, n);
        SameAfterGrown(ram, parent, t, free, m.ram, t', m.free, Cleared(|data|), [], n);
        return;
      }
      i := i + PGSIZE;
    }
    PaidAffords(t, t', 0, |data|, |free|, |m.free|);
    SameAfterCopying(m, ram, parent, t, free, t', data, n);
    forall u: nat | u < |data| ensures CopyOf(ram, parent, m.ram, t', data, u) {
      CopiedPage(m, ram, parent, t, free, t', data, u);
    }
    r := Ok;
  }

  /** The parent's tables and its pages below n hold what they held. */
  ghost predicate ParentSame(ram: Ram, more: Ram, parent: Tree, n: nat) {
    && more.Keys == ram.Keys
    && (forall pa :: pa in Tables(parent) && pa in ram ==> more[pa] == ram[pa])
    && forall u: nat :: u < n && IsValid(Entry(ram, parent, u)) ==>
                          var pa := PageOf(ram, parent, u); pa in ram && more[pa] == ram[pa]
  }

  lemma SameAfterGrown(ram: Ram, parent: Tree, t: Tree, free: seq<nat>, more: Ram, t': Tree, rest: seq<nat>,
                       delta: map<nat, nat>, data: seq<nat>, n: nat)
    requires Grown(ram, t, free, more, t', rest, delta, data) && Apart(ram, parent, t, free, n)
    ensures ParentSame(ram, more, parent, n)
  {
    hide TreeOk, Tables, Entry, IsValid, PageOf;
  }

  lemma SameAfterCopying(m: PhysMem, ram: Ram, parent: Tree, t: Tree, free: seq<nat>, t': Tree, data: seq<nat>, n: nat)
    requires Copying(m, ram, parent, t, free, t', data) && Apart(ram, parent, t, free, n)
    ensures ParentSame(ram, m.ram, parent, n)
  {
    hide Grown, TreeOk, CopyMap;
    SameAfterGrown(ram, parent, t, free, m.ram, t', m.free, CopyMap(ram, parent, data), data, n);
  }

  /** What can be paid for at page k < n bounds what can be paid for later. */
  lemma CopyFacts(t: Tree, k: nat, n: nat, free: nat)
    ensures forall u: nat :: k < u && Affords(t, 0, u, free) ==> Affords(t, 0, k + 1, free)
  {
    forall u: nat | k < u && Affords(t, 0, u, free) ensures Affords(t, 0, k + 1, free) {
      AffordsFewer(t, 0, k + 1, u, free);
    }
  }

  lemma CopyStart(m: PhysMem, parent: Tree, t: Tree)
    requires VmOk(m, t)
    ensures Copying(m, m.ram, parent, t, m.free, t, [])
  {
    NotGrown(m.ram, t, m.free);
    assert CopyMap(m.ram, parent, []) == map[];
  }

  /** `err: uvmunmap(new, 0, i / PGSIZE, TRUE)` */
  method UndoCopy(m: PhysMem, ghost ram: Ram, ghost parent: Tree, ghost t: Tree, ghost free: seq<nat>, ghost t': Tree,
                  root: nat, npages: nat, ghost data: seq<nat>, ghost n: nat)
    requires Copying(m, ram, parent, t, free, t', data) && Apart(ram, parent, t, free, n) && npages == |data| <= n
    requires root == t.root && forall u: nat :: u < n ==> !IsValid(Entry(ram, t, u))
    modifies m
    ensures VmOk(m, t') && (forall u: nat :: u < n ==> !IsValid(Entry(m.ram, t', u)))
    ensures Grown(ram, t, free, m.ram, t', m.free, Cleared(npages), [])
  {
    hide TreeOk, Tables, Entry, Apart, CopyMap, OwnedAt, CanUnmap, CanClear, Grown, Unmapped;
    OwnedCopies(m, ram, parent, t, free, t', data, n);
    ghost var mid, rest := m.ram, m.free;
    ReleasedIsData(mid, t', data);
    RootKept(ram, t, free, mid, t', rest, CopyMap(ram, parent, data), data);
    var o, k := Uvmunmap(m, t', root, 0, npages, true, npages);
    CopyUndone(ram, parent, t, free, mid, t', rest, data, m.ram, m.free);
    NoneLeft(ram, t, free, m.ram, t', m.free, npages, n);
  }

  lemma ReleasedIsData(ram: Ram, t: Tree, data: seq<nat>)
    requires forall u: nat :: u < |data| ==> PageOf(ram, t, u) == data[u]
    ensures Elems(Released(ram, t, 0, |data|)) == Elems(data)
  {
    ReleasedIsUserPages(ram, t, |data|);
    hide PageOf;
    forall x | x in data ensures x in UserPages(ram, t, |data|) {
      var i :| 0 <= i < |data| && data[i] == x;
      assert PageOf(ram, t, i) == x;
    }
  }

  lemma RootKept(ram: Ram, t: Tree, free: seq<nat>, more: Ram, t': Tree, rest: seq<nat>, delta: map<nat, nat>,
                 data: seq<nat>)
    requires Grown(ram, t, free, more, t', rest, delta, data)
    ensures t'.root == t.root
  {
  }

  lemma NoneLeft(ram: Ram, t: Tree, free: seq<nat>, more: Ram, t': Tree, rest: seq<nat>, k: nat, n: nat)
    requires Grown(ram, t, free, more, t', rest, Cleared(k), [])
    requires forall u: nat :: u < n ==> !IsValid(Entry(ram, t, u))
    ensures forall u: nat :: u < n ==> !IsValid(Entry(more, t', u))
  {
  }
}
