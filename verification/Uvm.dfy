/**
 User address spaces (kernel/src/vm.c uvmalloc and uvmdealloc): data pages taken from and returned
 to the allocator, with every page accounted for.
 */
module Uvm {
  import opened Common
  import opened Collections
  import opened Sv39
  import opened Kalloc
  import opened PageTable
  import opened PageWalk
  import opened Mappages
  import opened Unmap
  import opened TableCost

  /**
   From (ram, t, free) to (more, t', rest): the entries named by delta take its values and no other
   translation changes; the pages that left the free list are exactly the new tables of t' and the
   pages `data`, all different; nothing outside the tree and the free list was touched.
   */
  ghost predicate Grown(ram: Ram, t: Tree, free: seq<nat>, more: Ram, t': Tree, rest: seq<nat>,
                        delta: map<nat, nat>, data: seq<nat>) {
    && t'.root == t.root && Tables(t) <= Tables(t') && Distinct(data)
    && Elems(free) == Elems(rest) + (Tables(t') - Tables(t)) + Elems(data)
    && Elems(rest) !! Elems(data) && Elems(data) !! Tables(t')
    && SameOutside(ram, more, Tables(t) + Elems(free))
    && forall v: nat :: Entry(more, t', v) == if v in delta then delta[v] else Entry(ram, t, v)
  }

  lemma GrownTrans(r0: Ram, t0: Tree, f0: seq<nat>, r1: Ram, t1: Tree, f1: seq<nat>, r2: Ram, t2: Tree, f2: seq<nat>,
                   d1: map<nat, nat>, d2: map<nat, nat>, p1: seq<nat>, p2: seq<nat>)
    requires Grown(r0, t0, f0, r1, t1, f1, d1, p1) && Grown(r1, t1, f1, r2, t2, f2, d2, p2)
    requires Tables(t1) !! Elems(f1)
    ensures Grown(r0, t0, f0, r2, t2, f2, d1 + d2, p1 + p2)
  {
    assert Elems(p1 + p2) == Elems(p1) + Elems(p2);
    SameOutsideTrans(r0, r1, r2, Tables(t0) + Elems(f0), Tables(t1) + Elems(f1));
    assert Distinct(p1 + p2) by {
      forall i, j | 0 <= i < j < |p1 + p2| ensures (p1 + p2)[i] != (p1 + p2)[j] {
        assert i < |p1| <= j ==> (p1 + p2)[i] in Elems(p1) && (p1 + p2)[j] in Elems(p2);
      }
    }
  }

  /** Data pages that are already in place keep their contents while the space grows. */
  lemma GrownKeeps(r0: Ram, t0: Tree, f0: seq<nat>, r1: Ram, t1: Tree, f1: seq<nat>, d: map<nat, nat>, p: seq<nat>,
                   pa: nat)
    requires Grown(r0, t0, f0, r1, t1, f1, d, p) && pa in r0 && pa !in Tables(t0) && pa !in f0
    ensures pa in r1 && r1[pa] == r0[pa]
  {
    assert pa !in Elems(f0);
  }

  lemma NotGrown(ram: Ram, t: Tree, free: seq<nat>)
    ensures Grown(ram, t, free, ram, t, free, map[], [])
  {
  }

  /** kalloc and a successful mappages of that page. */
  lemma PageAdded(ram: Ram, t: Tree, free: seq<nat>, mid: Ram, more: Ram, t': Tree, rest: seq<nat>,
                  delta: map<nat, nat>)
    requires free != [] && free[0] in ram && Distinct(free) && Tables(t) !! Elems(free) && TreeOk(ram, t)
    requires SameOutside(ram, mid, {free[0]}) && Edited(mid, t, free[1..], more, t', rest, delta)
    ensures Grown(ram, t, free, more, t', rest, delta, [free[0]])
    ensures free[0] in mid && free[0] in more && more[free[0]] == mid[free[0]]
  {
    var d := free[0];
    var tail := free[1..];
    assert free == [d] + tail;
    assert Elems(free) == {d} + Elems(tail) && d !in Elems(tail) && Elems([d]) == {d};
    var taken := tail[..|tail| - |rest|];
    assert tail == taken + rest;
    assert Elems(tail) == Elems(taken) + Elems(rest);
    assert Elems(taken) !! Elems(rest);
    TreeFrame(ram, mid, t);
    SameOutsideTrans(ram, mid, more, Tables(t) + Elems(free), Tables(t) + Elems(tail));
  }

  /** kalloc, a mappages that ran out of pages, and kfree. */
  lemma PageReturned(ram: Ram, t: Tree, free: seq<nat>, mid: Ram, t': Tree, rest: seq<nat>, more: Ram, d: nat)
    requires Grown(ram, t, free, mid, t', rest, map[], [d]) && SameOutside(mid, more, {d})
    requires TreeOk(mid, t') && d in mid
    ensures Grown(ram, t, free, more, t', [d] + rest, map[], [])
    ensures TreeOk(more, t')
  {
    assert Elems([d]) == {d} && Elems([d] + rest) == {d} + Elems(rest) && Elems([]) == {};
    assert d in Elems(free);
    TreeFrame(mid, more, t');
    SameOutsideTrans(ram, mid, more, Tables(t) + Elems(free), {d});
  }

  /** mappages of a single page. */
  method MapPage(m: PhysMem, ghost t: Tree, root: nat, a: nat, pa: nat, perm: nat) returns (r: Status, ghost t': Tree)
    requires VmOk(m, t) && root == t.root && perm < 1024
    modifies m
    ensures r != Halt ==>
              VmOk(m, t') && Edited(old(m.ram), t, old(m.free), m.ram, t', m.free, OneEntry(r, a, MakePte(pa, perm)))
    ensures r == Ok ==> Tabled(t, t', a / PGSIZE, 1, |old(m.free)|, |m.free|)
    ensures r == NoMem <==> a % PGSIZE == 0 && a < MAXVA && NewTables(t, a / PGSIZE, 1) > |old(m.free)|
    ensures r == NoMem ==> m.free == []
    ensures r == Halt <==> a % PGSIZE != 0 || a >= MAXVA || IsValid(Entry(old(m.ram), t, a / PGSIZE))
  {
    hide Edited, TreeOk, Tables, Entry, IsValid, NewTables, Added;
    if IsValid(Entry(m.ram, t, a / PGSIZE)) {
      MappedNeedsNone(m.ram, t, a / PGSIZE);
    }
    ghost var k;
    r, t', k := Mappages.Mappages(m, t, root, a, pa, PGSIZE, perm);
    SingleMapping(a / PGSIZE, pa, perm);
  }

  lemma SingleMapping(v: nat, pa: nat, perm: nat)
    requires perm < 1024
    ensures Mapping(v, pa, perm, 1) == map[v := MakePte(pa, perm)]
    ensures Mapping(v, pa, perm, 0) == map[]
  {
    assert PteAt(v, pa, perm, v) == MakePte(pa, perm);
  }

  /** A data page for address a: kalloc, fill it, map it; a page that cannot be mapped is given back. */
  method AddPage(m: PhysMem, ghost t: Tree, root: nat, a: nat, perm: nat, contents: Page)
    returns (r: Status, d: nat, ghost t': Tree)
    requires VmOk(m, t) && root == t.root && perm < 1024
    modifies m
    ensures r == Ok ==>
              && VmOk(m, t') && d in m.ram && d in old(m.free) && m.ram[d] == contents
              && Grown(old(m.ram), t, old(m.free), m.ram, t', m.free, map[a / PGSIZE := MakePte(d, perm)], [d])
              && Paid(t, t', a / PGSIZE, 1, |old(m.free)|, |m.free|)
    ensures r == NoMem ==> VmOk(m, t') && Grown(old(m.ram), t, old(m.free), m.ram, t', m.free, map[], [])
    ensures r == NoMem <==>
            old(m.free) == [] || (a % PGSIZE == 0 && a < MAXVA && 1 + NewTables(t, a / PGSIZE, 1) > |old(m.free)|)
    ensures r == Halt <==>
            old(m.free) != [] && (a % PGSIZE != 0 || a >= MAXVA || IsValid(Entry(old(m.ram), t, a / PGSIZE)))
  {
    hide Edited, TreeOk, Entry, IsValid, Grown, IsList, Added, NewTables;
    t' := t;
    d := m.Kalloc();
    if d == 0 {
      NotGrown(m.ram, t, m.free);
      return NoMem, 0, t;
    }
    KallocReady(m, old(m.ram), t, old(m.free), contents);
    m.Store(d, contents);
    ghost var mid := m.ram;
    r, t' := MapPage(m, t, root, a, d, perm);
    if r == Halt {
      return;
    }
    PageAdded(old(m.ram), t, old(m.free), mid, m.ram, t', m.free, OneEntry(r, a, MakePte(d, perm)));
    if r == NoMem {
      ghost var full, rest := m.ram, m.free;
      DataApart(old(m.ram), t, old(m.free), full, t', rest, d);
      var o := m.Kfree(d);
      PageReturned(old(m.ram), t, old(m.free), full, t', rest, m.ram, d);
      assert Elems(m.free) == {d} + Elems(rest);
    }
  }

  lemma DataApart(ram: Ram, t: Tree, free: seq<nat>, more: Ram, t': Tree, rest: seq<nat>, d: nat)
    requires Grown(ram, t, free, more, t', rest, map[], [d])
    ensures d !in rest && d !in Tables(t')
  {
    assert d in Elems([d]);
  }

  /** The page kalloc returned belongs to nobody, and storing into it leaves the tree alone. */
  lemma KallocReady(m: PhysMem, ram: Ram, t: Tree, free: seq<nat>, contents: Page)
    requires m.Valid() && TreeOk(ram, t) && Tables(t) !! Elems(free) && Distinct(free)
    requires free != [] && free[0] in ram && m.free == free[1..] && m.ram == ram[free[0] := Filled(5)]
    ensures free[0] !in m.free && free[0] !in Tables(t)
    ensures TreeOk(m.ram[free[0] := contents], t) && Tables(t) !! Elems(m.free)
    ensures forall v: nat :: Entry(m.ram[free[0] := contents], t, v) == Entry(ram, t, v)
    ensures SameOutside(ram, m.ram[free[0] := contents], {free[0]})
  {
    assert free[0] in Elems(free);
    TreeFrame(ram, m.ram[free[0] := contents], t);
    assert Elems(free[1..]) <= Elems(free);
  }

  function DataPte(v: nat, data: seq<nat>, perm: nat, u: nat): nat
    requires perm < 1024 && v <= u < v + |data|
  {
    MakePte(data[u - v], perm)
  }

  /** Page numbers from v on, mapped to the pages of `data` one by one. */
  function DataMap(v: nat, data: seq<nat>, perm: nat): map<nat, nat>
    requires perm < 1024
  {
    map u: nat | v <= u < v + |data| :: DataPte(v, data, perm, u)
  }

  lemma DataMapNext(v: nat, data: seq<nat>, perm: nat, d: nat)
    requires perm < 1024
    ensures DataMap(v, data, perm) + map[v + |data| := MakePte(d, perm)] == DataMap(v, data + [d], perm)
  {
    var left := DataMap(v, data, perm) + map[v + |data| := MakePte(d, perm)];
    forall u | v <= u < v + |data| + 1 ensures left[u] == DataPte(v, data + [d], perm, u) {
      if u < v + |data| {
        assert DataMap(v, data, perm)[u] == DataPte(v, data, perm, u);
      }
    }
  }

  /** The space has grown by zeroed pages `data` from page number v on, from (ram, t, free). */
  ghost predicate Growing(m: PhysMem, ram: Ram, t: Tree, free: seq<nat>, t': Tree, v: nat, perm: nat, data: seq<nat>)
    requires perm < 1024
    reads m
  {
    && VmOk(m, t')
    && Grown(ram, t, free, m.ram, t', m.free, DataMap(v, data, perm), data)
    && forall i :: 0 <= i < |data| ==> data[i] in m.ram && m.ram[data[i]] == Filled(0)
  }

  lemma GrowingStart(m: PhysMem, t: Tree, v: nat, perm: nat)
    requires VmOk(m, t) && perm < 1024
    ensures Growing(m, m.ram, t, m.free, t, v, perm, [])
  {
    NotGrown(m.ram, t, m.free);
    assert DataMap(v, [], perm) == map[];
  }

  lemma NotInDelta(ram: Ram, t: Tree, free: seq<nat>, more: Ram, t': Tree, rest: seq<nat>, delta: map<nat, nat>,
                   data: seq<nat>, v: nat)
    requires Grown(ram, t, free, more, t', rest, delta, data) && v !in delta
    ensures Entry(more, t', v) == Entry(ram, t, v) && t'.root == t.root
  {
  }

  lemma DataKept(r0: Ram, t0: Tree, f0: seq<nat>, r1: Ram, t1: Tree, f1: seq<nat>, r2: Ram, t2: Tree, f2: seq<nat>,
                 d1: map<nat, nat>, p1: seq<nat>, d2: map<nat, nat>, p2: seq<nat>, i: nat)
    requires Grown(r0, t0, f0, r1, t1, f1, d1, p1) && Grown(r1, t1, f1, r2, t2, f2, d2, p2) && i < |p1| && p1[i] in r1
    ensures p1[i] in r2 && r2[p1[i]] == r1[p1[i]]
  {
    assert p1[i] in Elems(p1);
    GrownKeeps(r1, t1, f1, r2, t2, f2, d2, p2, p1[i]);
  }

  predicate VacantAt(ram: Ram, t: Tree, u: nat) {
    u < PAGES && !IsValid(Entry(ram, t, u))
  }

  /** The page numbers [v, v + n) exist and none is mapped. */
  ghost predicate Vacant(ram: Ram, t: Tree, v: nat, n: nat) {
    forall u: nat :: v <= u < v + n ==> VacantAt(ram, t, u)
  }

  /** The free list has n data pages for v onwards and the tables they need. */
  predicate Affords(t: Tree, v: nat, n: nat, free: nat) {
    n + NewTables(t, v, n) <= free
  }

  lemma AffordsFewer(t: Tree, v: nat, j: nat, n: nat, free: nat)
    requires j <= n && Affords(t, v, n, free)
    ensures Affords(t, v, j, free)
  {
    NewTablesGrow(t, v, j, n);
  }

  method GrowNext(m: PhysMem, ghost ram: Ram, ghost t: Tree, ghost free: seq<nat>, ghost t0: Tree, root: nat,
                  a: nat, perm: nat, ghost v: nat, ghost data: seq<nat>)
    returns (r: Status, ghost t': Tree, ghost data': seq<nat>)
    requires perm < 1024 && Growing(m, ram, t, free, t0, v, perm, data) && root == t.root && a == (v + |data|) * PGSIZE
    requires Paid(t, t0, v, |data|, |free|, |m.free|)
    modifies m
    ensures r == Ok ==>
              && |data'| == |data| + 1 && Growing(m, ram, t, free, t', v, perm, data')
              && Paid(t, t', v, |data'|, |free|, |m.free|) && VacantAt(ram, t, v + |data|)
    ensures r == NoMem ==>
              data' == data && Growing(m, ram, t, free, t', v, perm, data) && !Affords(t, v, |data| + 1, |free|)
    ensures r == Halt ==> !VacantAt(ram, t, v + |data|) && |data| < |free|
    ensures r == Halt && v + |data| < PAGES ==> Affords(t, v, |data| + 1, |free|)
    ensures r == NoMem && v + |data| >= PAGES ==> old(m.free) == []
  {
    hide TreeOk, Tables, Entry, Grown, IsValid, Filled, DataMap, NewTables, Added;
    ghost var ram0, free0, delta := m.ram, m.free, DataMap(v, data, perm);
    assert a / PGSIZE == v + |data|;
    assert v + |data| !in delta by { OutsideDataMap(v, data, perm); }
    NotInDelta(ram, t, free, ram0, t0, free0, delta, data, v + |data|);
    if IsValid(Entry(ram0, t0, v + |data|)) {
      MappedNeedsNone(ram0, t0, v + |data|);
    }
    var d;
    r, d, t' := AddPage(m, t0, root, a, perm, Filled(0));
    data' := data;
    PaidNext(t, t0, t', v, |data|, |free|, |free0|, |m.free|);
    if r == Halt {
      return;
    }
    ghost var more: map<nat, nat>, page: seq<nat> := map[], [];
    if r == Ok {
      more, page := map[v + |data| := MakePte(d, perm)], [d];
      DataMapNext(v, data, perm, d);
    }
    GrownTrans(ram, t, free, ram0, t0, free0, m.ram, t', m.free, delta, more, data, page);
    data' := data + page;
    assert r == NoMem ==> delta + more == delta && data' == data;
    forall i | 0 <= i < |data| ensures data[i] in m.ram && m.ram[data[i]] == Filled(0) {
      DataKept(ram, t, free, ram0, t0, free0, m.ram, t', m.free, delta, data, more, page, i);
    }
  }

  lemma OutsideDataMap(v: nat, data: seq<nat>, perm: nat)
    requires perm < 1024
    ensures v + |data| !in DataMap(v, data, perm)
  {
  }

  /** What uvmalloc and uvmdealloc return: a size, 0, or a panic. */
  datatype Resized = Size(sz: nat) | Failed | Stopped

  lemma DataEntry(ram: Ram, t: Tree, free: seq<nat>, more: Ram, t': Tree, rest: seq<nat>, v: nat, perm: nat,
                  data: seq<nat>, i: nat)
    requires perm < 1024 && Grown(ram, t, free, more, t', rest, DataMap(v, data, perm), data)
    requires i < |data| && data[i] in more && data[i] % PGSIZE == 0 && perm >= 2
    ensures Entry(more, t', v + i) == MakePte(data[i], perm)
    ensures PageOf(more, t', v + i) == data[i] && data[i] !in rest && data[i] !in Tables(t')
    ensures IsValid(Entry(more, t', v + i)) && PteFlags(Entry(more, t', v + i)) != PTE_V
  {
    assert DataMap(v, data, perm)[v + i] == DataPte(v, data, perm, v + i);
    PteRoundTrip(data[i], perm);
    assert data[i] in Elems(data);
  }

  lemma RoundUpMultiple(sz: nat)
    ensures PgRoundUp(sz) % PGSIZE == 0 && PgRoundUp(sz) >= sz && PgRoundUp(sz) / PGSIZE * PGSIZE == PgRoundUp(sz)
  {
  }

  const WORD32: nat := 0x1_0000_0000

  /**
   uvmdealloc passes a number of bytes, as an int, where uvmunmap wants a number of pages: this is
   how many pages uvmunmap's loop then goes through from va on.
   */
  function PagesTried(va: nat, bytes: nat): nat {
    var low := bytes % WORD32;
    var npages := if low < 0x8000_0000 then low else WORD64 - WORD32 + low;
    var limit := (va + npages * PGSIZE) % WORD64;
    if limit <= va then 0 else (limit - va) / PGSIZE
  }

  lemma SmallTried(va: nat, bytes: nat)
    requires bytes < 0x8000_0000 && va <= MAXVA
    ensures PagesTried(va, bytes) == bytes
  {
  }

  /** The pages that hold sz bytes; also the number of the first page above them. */
  function PageCount(sz: nat): nat {
    PgRoundUp(sz) / PGSIZE
  }

  /** The number of pages uvmdealloc sets out to release. */
  function DeallocCount(oldsz: nat, newsz: nat): nat {
    if PgRoundUp(newsz) < PgRoundUp(oldsz) then PagesTried(PgRoundUp(newsz), PgRoundUp(oldsz) - PgRoundUp(newsz)) else 0
  }

  /**
   uvmdealloc: it panics unless as many pages are mapped from PGROUNDUP(newsz) on as the difference
   has bytes; if they are, all of them are released, and otherwise there was nothing to release.
   */
  method Uvmdealloc(m: PhysMem, ghost t: Tree, root: nat, oldsz: nat, newsz: nat, ghost lim: nat) returns (r: Resized)
    requires VmOk(m, t) && root == t.root
    requires lim <= DeallocCount(oldsz, newsz) && OwnedAt(m.ram, t, m.free, PageCount(newsz), lim)
    requires lim < DeallocCount(oldsz, newsz) ==> !CanUnmap(m.ram, t, PageCount(newsz) + lim)
    modifies m
    ensures VmOk(m, t)
    ensures r.Stopped? <==> exists u: nat ::
              PageCount(newsz) <= u < PageCount(newsz) + DeallocCount(oldsz, newsz) && !CanClear(old(m.ram), t, u, true)
    ensures r.Size? ==> Unmapping(m, old(m.ram), t, old(m.free), PageCount(newsz), DeallocCount(oldsz, newsz),
                                  DeallocCount(oldsz, newsz), true)
    ensures r.Size? ==> r.sz == if PgRoundUp(newsz) < PgRoundUp(oldsz) then newsz else oldsz
    ensures PgRoundUp(newsz) >= PgRoundUp(oldsz) ==> m.ram == old(m.ram) && m.free == old(m.free)
    ensures !r.Failed?
  {
    hide CanUnmap, CanClear, OwnedAt, TreeOk, PagesTried, Tables, Entry, Unmapped;
    NothingUnmapped(m.ram, t, m.free, PageCount(newsz), true);
    if newsz >= oldsz || PgRoundUp(newsz) >= PgRoundUp(oldsz) {
      assert PgRoundUp(newsz) >= PgRoundUp(oldsz);
      return Size(oldsz);
    }
    RoundUpMultiple(newsz);
    var npages := PagesTried(PgRoundUp(newsz), PgRoundUp(oldsz) - PgRoundUp(newsz));
    var o, k := Uvmunmap(m, t, root, PgRoundUp(newsz), npages, true, lim);
    return if o == Done then Size(newsz) else Stopped;
  }

  const TRAMPOLINE_VPN: nat := PAGES - 1
  const TRAPFRAME_VPN: nat := PAGES - 2

  /** User memory ends before page v: from there to the trapframe nothing is mapped. */
  ghost predicate EndsAt(ram: Ram, t: Tree, v: nat) {
    forall u: nat :: v <= u < TRAPFRAME_VPN ==> !IsValid(Entry(ram, t, u))
  }

  /** The pages that lie between PGROUNDUP(oldsz) and newsz. */
  function PagesBetween(oldsz: nat, newsz: nat): nat {
    if newsz <= PgRoundUp(oldsz) then 0 else (PgRoundUp(newsz) - PgRoundUp(oldsz)) / PGSIZE
  }

  lemma InBetween(oldsz: nat, newsz: nat, k: nat)
    ensures PgRoundUp(oldsz) + k * PGSIZE < newsz <==> k < PagesBetween(oldsz, newsz)
    ensures PgRoundUp(oldsz) == PageCount(oldsz) * PGSIZE
  {
  }

  /** Pages that were owned before the space grew still are, and so are the new ones. */
  lemma OwnedGrown(m: PhysMem, ram: Ram, t: Tree, free: seq<nat>, t': Tree, v: nat, perm: nat, data: seq<nat>,
                   lo: nat, n: nat)
    requires 2 <= perm < 1024 && Growing(m, ram, t, free, t', v, perm, data) && v + |data| <= PAGES
    requires lo <= v && v + |data| <= lo + n && OwnedAt(ram, t, free, lo, n)
    ensures OwnedAt(m.ram, t', m.free, lo, n)
    ensures forall u: nat :: v <= u < v + |data| ==> CanClear(m.ram, t', u, true) && PageOf(m.ram, t', u) == data[u - v]
  {
    hide TreeOk, Tables, Entry, IsValid, PteFlags, Pte2Pa;
    forall u: nat | lo <= u < lo + n
      ensures if v <= u < v + |data| then PageOf(m.ram, t', u) == data[u - v] && CanClear(m.ram, t', u, true)
              else PageOf(m.ram, t', u) == PageOf(ram, t, u) && (CanUnmap(m.ram, t', u) <==> CanUnmap(ram, t, u))
      ensures CanUnmap(m.ram, t', u) ==> PageOf(m.ram, t', u) !in m.free && PageOf(m.ram, t', u) !in Tables(t')
      ensures !(v <= u < v + |data|) && CanUnmap(ram, t, u) ==> PageOf(ram, t, u) !in data
    {
      GrownPage(m, ram, t, free, t', v, perm, data, lo, n, u);
    }
    GrowingDistinct(m, ram, t, free, t', v, perm, data);
    hide Growing, CanUnmap, CanClear, PageOf;
  }

  lemma GrownPage(m: PhysMem, ram: Ram, t: Tree, free: seq<nat>, t': Tree, v: nat, perm: nat, data: seq<nat>,
                  lo: nat, n: nat, u: nat)
    requires 2 <= perm < 1024 && Growing(m, ram, t, free, t', v, perm, data) && v + |data| <= PAGES
    requires lo <= u < lo + n && OwnedAt(ram, t, free, lo, n)
    ensures if v <= u < v + |data| then PageOf(m.ram, t', u) == data[u - v] && CanClear(m.ram, t', u, true)
            else PageOf(m.ram, t', u) == PageOf(ram, t, u) && (CanUnmap(m.ram, t', u) <==> CanUnmap(ram, t, u))
    ensures CanUnmap(m.ram, t', u) ==> PageOf(m.ram, t', u) !in m.free && PageOf(m.ram, t', u) !in Tables(t')
    ensures !(v <= u < v + |data|) && CanUnmap(ram, t, u) ==> PageOf(ram, t, u) !in data
  {
    hide TreeOk, Tables, Entry, IsValid, PteFlags, Pte2Pa, Grown;
    if v <= u < v + |data| {
      assert m.Managed(data[u - v]);
      DataEntry(ram, t, free, m.ram, t', m.free, v, perm, data, u - v);
    } else {
      NotInDelta(ram, t, free, m.ram, t', m.free, DataMap(v, data, perm), data, u);
      if CanUnmap(ram, t, u) {
        StaysOut(ram, t, free, m.ram, t', m.free, DataMap(v, data, perm), data, PageOf(ram, t, u));
      }
    }
  }

  lemma StaysOut(ram: Ram, t: Tree, free: seq<nat>, more: Ram, t': Tree, rest: seq<nat>, delta: map<nat, nat>,
                 data: seq<nat>, pa: nat)
    requires Grown(ram, t, free, more, t', rest, delta, data) && pa !in free && pa !in Tables(t)
    ensures pa !in rest && pa !in Tables(t') && pa !in data
  {
    assert pa !in Elems(free);
    assert pa in rest ==> pa in Elems(rest);
    assert pa in data ==> pa in Elems(data);
  }

  /**
   uvmalloc. It succeeds exactly when the pages from PGROUNDUP(oldsz) up to newsz exist, are not
   mapped, and the free list pays for them and for the tables they lack; then they are fresh, zeroed
   and readable by the user, and nothing else changes. It returns 0 exactly when not even the first
   page can be paid for. In every other case it panics: on a page that is mapped or past MAXVA, or in
   uvmdealloc, which wants to release 4096 times the pages that were added.
   */
  method Uvmalloc(m: PhysMem, ghost t: Tree, root: nat, oldsz: nat, newsz: nat, xperm: nat)
    returns (r: Resized, ghost t': Tree, ghost data: seq<nat>)
    requires VmOk(m, t) && root == t.root && xperm / 16 == 0 && xperm % 4 == 0
    requires EndsAt(m.ram, t, PageCount(oldsz)) && OwnedAt(m.ram, t, m.free, PageCount(oldsz), PAGES)
    modifies m
    ensures newsz < oldsz ==>
              VmOk(m, t) && r == Size(oldsz) && t' == t && data == [] && m.ram == old(m.ram) && m.free == old(m.free)
    ensures newsz >= oldsz ==>
              (r.Size? <==> && Vacant(old(m.ram), t, PageCount(oldsz), PagesBetween(oldsz, newsz))
                            && Affords(t, PageCount(oldsz), PagesBetween(oldsz, newsz), |old(m.free)|))
    ensures newsz >= oldsz ==>
              (r.Failed? <==> && PagesBetween(oldsz, newsz) > 0
                              && (|old(m.free)| == 0
                                 || (PageCount(oldsz) < PAGES && !Affords(t, PageCount(oldsz), 1, |old(m.free)|))))
    ensures newsz >= oldsz && r.Size? ==>
              && r.sz == newsz && |data| == PagesBetween(oldsz, newsz)
              && Growing(m, old(m.ram), t, old(m.free), t', PageCount(oldsz), PTE_R + PTE_U + xperm, data)
              && Paid(t, t', PageCount(oldsz), |data|, |old(m.free)|, |m.free|)
    ensures r.Failed? ==> Growing(m, old(m.ram), t, old(m.free), t', PageCount(oldsz), PTE_R + PTE_U + xperm, [])
  {
    hide TreeOk, Tables, Entry, IsValid, Grown, Growing, CanUnmap, OwnedAt, EndsAt, Added, NewTables, Paid, Affords,
         PagesBetween;
    var perm := PTE_R + PTE_U + xperm;
    assert perm < 1024;
    t', data := t, [];
    if newsz < oldsz {
      return Size(oldsz), t, [];
    }
    var start := PgRoundUp(oldsz);
    ghost var v, n := PageCount(oldsz), PagesBetween(oldsz, newsz);
    GrowingStart(m, t, v, perm);
    PaidNothing(t, v, |m.free|);
    PaidAffords(t, t', v, 0, |m.free|, |m.free|);
    var a := start;
    InBetween(oldsz, newsz, 0);
    while a < newsz
      invariant a == start + |data| * PGSIZE && |data| <= n && (a < newsz <==> |data| < n)
      invariant Growing(m, old(m.ram), t, old(m.free), t', v, perm, data)
      invariant Paid(t, t', v, |data|, |old(m.free)|, |m.free|) && Affords(t, v, |data|, |old(m.free)|)
      invariant Vacant(old(m.ram), t, v, |data|)
    {
      assert a == (v + |data|) * PGSIZE;
      var s;
      ghost var k := |data|;
      PaidNone(t, t', v, k, |old(m.free)|, |m.free|);
      s, t', data := GrowNext(m, old(m.ram), t, old(m.free), t', root, a, perm, v, data);
      GrowFacts(old(m.ram), t, v, k, n, |old(m.free)|);
      if s == Halt {
        return Stopped, t', data;
      }
      if s == NoMem {
        r := Shrink(m, old(m.ram), t, old(m.free), t', root, a, start, perm, v, data);
        return;
      }
      PaidAffords(t, t', v, |data|, |old(m.free)|, |m.free|);
      InBetween(oldsz, newsz, |data|);
      a := a + PGSIZE;
    }
    GrowFacts(old(m.ram), t, v, |data|, |data| + 1, |old(m.free)|);
    return Size(newsz), t', data;
  }

  lemma PaidAffords(t: Tree, t': Tree, v: nat, k: nat, before: nat, after: nat)
    requires Paid(t, t', v, k, before, after)
    ensures Affords(t, v, k, before)
  {
  }

  lemma PaidNone(t: Tree, t': Tree, v: nat, k: nat, before: nat, after: nat)
    requires Paid(t, t', v, k, before, after)
    ensures k == 0 ==> before == after
  {
    NothingAdded(t, v);
  }

  /** What stopping at page k < n says about the whole range and about its first page. */
  lemma GrowFacts(ram: Ram, t: Tree, v: nat, k: nat, n: nat, free: nat)
    requires k < n
    ensures Vacant(ram, t, v, n) ==> VacantAt(ram, t, v + k)
    ensures Vacant(ram, t, v, k) && VacantAt(ram, t, v + k) ==> Vacant(ram, t, v, k + 1)
    ensures Affords(t, v, n, free) ==> Affords(t, v, k + 1, free)
    ensures k > 0 && Affords(t, v, k, free) ==> Affords(t, v, 1, free)
    ensures Affords(t, v, k, free) ==> k <= free
    ensures Vacant(ram, t, v, k) && k > 0 ==> v + k <= PAGES
  {
    VacantFacts(ram, t, v, k, n);
    hide NewTables, Vacant;
    if Affords(t, v, n, free) {
      AffordsFewer(t, v, k + 1, n, free);
    }
    if k > 0 && Affords(t, v, k, free) {
      AffordsFewer(t, v, 1, k, free);
    }
  }

  lemma VacantFacts(ram: Ram, t: Tree, v: nat, k: nat, n: nat)
    requires k < n
    ensures Vacant(ram, t, v, n) ==> VacantAt(ram, t, v + k)
    ensures Vacant(ram, t, v, k) && VacantAt(ram, t, v + k) ==> Vacant(ram, t, v, k + 1)
    ensures Vacant(ram, t, v, k) && k > 0 ==> v + k <= PAGES
  {
    assert Vacant(ram, t, v, k) && k > 0 ==> VacantAt(ram, t, v + k - 1);
  }

  /** Too few of the pages uvmdealloc wants are mapped: it runs into a hole or past the last page. */
  lemma Overreach(m: PhysMem, ram: Ram, t: Tree, free: seq<nat>, t': Tree, v: nat, perm: nat, data: seq<nat>)
    requires 2 <= perm < 1024 && Growing(m, ram, t, free, t', v, perm, data) && data != [] && v + |data| <= PAGES
    requires EndsAt(ram, t, v)
    ensures exists u: nat :: v <= u < v + |data| * PGSIZE && !CanClear(m.ram, t', u, true)
  {
    var u := v + |data|;
    OutsideDataMap(v, data, perm);
    NotInDelta(ram, t, free, m.ram, t', m.free, DataMap(v, data, perm), data, u);
    if u < TRAPFRAME_VPN {
      assert !CanClear(m.ram, t', u, true);
    } else {
      assert !CanClear(m.ram, t', PAGES, true);
    }
  }

  lemma DataFits(m: PhysMem, data: seq<nat>)
    requires m.Valid() && Distinct(data) && forall i :: 0 <= i < |data| ==> data[i] in m.ram
    ensures |data| * PGSIZE <= PHYSTOP - KERNBASE
  {
    forall x | x in data ensures x % PGSIZE == 0 && KERNBASE <= x && x + PGSIZE <= PHYSTOP {
      assert m.Managed(x);
    }
    PagesFit(data);
  }

  lemma OwnedPart(ram: Ram, t: Tree, free: seq<nat>, v: nat, lim: nat)
    requires lim > 0 ==> OwnedAt(ram, t, free, v, PAGES) && lim <= PAGES
    ensures OwnedAt(ram, t, free, v, lim) && !CanUnmap(ram, t, PAGES)
  {
  }

  lemma GrowingDistinct(m: PhysMem, ram: Ram, t: Tree, free: seq<nat>, t': Tree, v: nat, perm: nat, data: seq<nat>)
    requires perm < 1024 && Growing(m, ram, t, free, t', v, perm, data)
    ensures Distinct(data) && t'.root == t.root
  {
  }

  /** uvmalloc's way out: uvmdealloc(pagetable, a, oldsz), then 0. */
  method Shrink(m: PhysMem, ghost ram: Ram, ghost t: Tree, ghost free: seq<nat>, ghost t': Tree,
                root: nat, a: nat, start: nat,
                ghost perm: nat, ghost v: nat, ghost data: seq<nat>)
    returns (r: Resized)
    requires 2 <= perm < 1024 && Growing(m, ram, t, free, t', v, perm, data) && root == t.root
    requires start % PGSIZE == 0 && v == start / PGSIZE && a == start + |data| * PGSIZE
    requires (|data| > 0 ==> v + |data| <= PAGES)
    requires EndsAt(ram, t, v) && OwnedAt(ram, t, free, v, PAGES)
    modifies m
    ensures if data == [] then r.Failed? else r.Stopped?
    ensures r.Failed? ==> Growing(m, ram, t, free, t', v, perm, data)
  {
    hide TreeOk, Tables, Entry, IsValid, Grown, OwnedAt, EndsAt, CanUnmap, PagesTried, IsList;
    assert PgRoundUp(a) == a && PgRoundUp(start) == start && PageCount(start) == v;
    GrowingDistinct(m, ram, t, free, t', v, perm, data);
    ghost var lim := 0;
    if data != [] {
      DataFits(m, data);
      SmallTried(start, |data| * PGSIZE);
      OwnedGrown(m, ram, t, free, t', v, perm, data, v, PAGES);
      Overreach(m, ram, t, free, t', v, perm, data);
      lim := if |data| * PGSIZE <= PAGES - v then |data| * PGSIZE else PAGES - v;
      assert DeallocCount(a, start) == |data| * PGSIZE;
    }
    OwnedPart(m.ram, t', m.free, v, lim);
    assert lim < DeallocCount(a, start) ==> v + lim == PAGES;
    var s := Uvmdealloc(m, t', root, a, start, lim);
    return if s.Stopped? then Stopped else Failed;
  }
}
