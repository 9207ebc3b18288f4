/**
 mappages (kernel/src/vm.c): what it does to the map from page number to entry that a page table
 stands for, and how many tables it costs.
 */
module Mappages {
  import opened Collections
  import opened Sv39
  import opened Kalloc
  import opened PageTable
  import opened PageWalk
  import opened TableCost

  datatype Status = Ok | NoMem | Halt

  /** The entry for page number u in a range that starts with v at pa. */
  function PteAt(v: nat, pa: nat, perm: nat, u: nat): nat
    requires perm < 1024 && v <= u
  {
    MakePte(pa + (u - v) * PGSIZE, perm)
  }

  /** What mapping one page adds: nothing when it fails. */
  function OneEntry(r: Status, a: nat, pte: nat): map<nat, nat> {
    if r == Ok then map[a / PGSIZE := pte] else map[]
  }

  /** k pages from page number v on, mapped to consecutive physical pages from pa on. */
  function Mapping(v: nat, pa: nat, perm: nat, k: nat): map<nat, nat>
    requires perm < 1024
  {
    map u: nat | v <= u < v + k :: PteAt(v, pa, perm, u)
  }

  /** Storing an entry through the slot walk returned is an edit of that one entry. */
  lemma StoreIsEdit(ram: Ram, t: Tree, free: seq<nat>, v: nat, w: Walked, pte: nat)
    requires TreeOk(ram, t) && IsSlot(t, v, w)
    ensures w.page in ram && w.page in Tables(t) && w.index < PTES
    ensures ram[w.page][w.index] == Entry(ram, t, v)
    ensures var more := ram[w.page := ram[w.page][w.index := pte]];
            TreeOk(more, t) && Edited(ram, t, free, more, t, free, map[v := pte])
  {
    SetEntry(ram, t, v, pte);
    assert Elems(free[..0]) == {};
  }

  /** One iteration of mappages: walk, check for a remap, store the entry. */
  method MapOne(m: PhysMem, ghost t: Tree, root: nat, a: nat, pa: nat, perm: nat) returns (r: Status, ghost t': Tree)
    requires VmOk(m, t) && root == t.root && perm < 1024
    modifies m
    ensures VmOk(m, t')
    ensures Edited(old(m.ram), t, old(m.free), m.ram, t', m.free, OneEntry(r, a, MakePte(pa, perm)))
    ensures r == NoMem <==> a < MAXVA && Need(t, a) > |old(m.free)|
    ensures r == NoMem ==> m.free == []
    ensures r == Ok ==> KeysAt(t, t', 0, a) && |m.free| + Need(t, a) == |old(m.free)|
    ensures r == Halt <==> a >= MAXVA || (Need(t, a) <= |old(m.free)| && IsValid(Entry(old(m.ram), t, a / PGSIZE)))
  {
    hide Edited, TreeOk, Tables, Entry, Need, KeysAt, Px;
    var w;
    w, t' := Walk(m, t, root, a, true);
    assert Entry(m.ram, t', a / PGSIZE) == Entry(old(m.ram), t, a / PGSIZE) by {
      SameEntry(old(m.ram), t, old(m.free), m.ram, t', m.free, a / PGSIZE);
    }
    match w
    case WalkPanic => return Halt, t';
    case Missing => return NoMem, t';
    case Slot(page, index) =>
      ghost var ram, v := m.ram, a / PGSIZE;
      StoreIsEdit(ram, t', m.free, v, w, MakePte(pa, perm));
      if IsValid(m.ram[page][index]) {
        return Halt, t';
      }
      NotFree(m, t', page);
      m.Store(page, m.ram[page][index := MakePte(pa, perm)]);
      ThenEdit(old(m.ram), t, old(m.free), ram, t', m.free, m.ram, t', m.free, map[v := MakePte(pa, perm)]);
      return Ok, t';
  }

  lemma SameEntry(ram: Ram, t: Tree, free: seq<nat>, more: Ram, t': Tree, rest: seq<nat>, v: nat)
    requires Edited(ram, t, free, more, t', rest, map[])
    ensures Entry(more, t', v) == Entry(ram, t, v)
  {
  }

  lemma NotFree(m: PhysMem, t: Tree, page: nat)
    requires VmOk(m, t) && page in Tables(t)
    ensures page !in m.free
  {
    assert page !in Elems(m.free);
  }

  lemma ThenEdit(r0: Ram, t0: Tree, f0: seq<nat>, r1: Ram, t1: Tree, f1: seq<nat>, r2: Ram, t2: Tree, f2: seq<nat>,
                 delta: map<nat, nat>)
    requires Edited(r0, t0, f0, r1, t1, f1, map[]) && Edited(r1, t1, f1, r2, t2, f2, delta)
    ensures Edited(r0, t0, f0, r2, t2, f2, delta)
  {
    var none: map<nat, nat> := map[];
    EditedTrans(r0, t0, f0, r1, t1, f1, r2, t2, f2, none, delta);
    assert none + delta == delta;
  }

  lemma MappingNext(v: nat, pa: nat, perm: nat, k: nat)
    requires perm < 1024
    ensures Mapping(v, pa, perm, k) + map[v + k := MakePte(pa + k * PGSIZE, perm)] == Mapping(v, pa, perm, k + 1)
  {
    assert PteAt(v, pa, perm, v + k) == MakePte(pa + k * PGSIZE, perm);
  }

  /** Where mappages stands after k pages, from (ram, t, free). */
  ghost predicate Mapped(m: PhysMem, ram: Ram, t: Tree, free: seq<nat>, t': Tree, v: nat, pa: nat, perm: nat, k: nat)
    requires perm < 1024
    reads m
  {
    && VmOk(m, t') && Edited(ram, t, free, m.ram, t', m.free, Mapping(v, pa, perm, k))
    && (forall u: nat :: v <= u < v + k ==> !IsValid(Entry(ram, t, u)))
    && (v + k) * PGSIZE <= MAXVA
  }

  /** The tables for k pages from v on came off a free list of `before` pages; `after` are left. */
  predicate Tabled(t: Tree, t': Tree, v: nat, k: nat, before: nat, after: nat) {
    Added(t, t', v, k) && after + NewTables(t, v, k) == before
  }

  lemma TabledStart(t: Tree, v: nat, n: nat)
    ensures Tabled(t, t, v, 0, n, n)
  {
    NothingAdded(t, v);
  }

  lemma TabledNext(t: Tree, t0: Tree, t': Tree, v: nat, k: nat, before: nat, mid: nat, after: nat)
    requires Tabled(t, t0, v, k, before, mid) && (v + k) * PGSIZE < MAXVA
    ensures Need(t0, (v + k) * PGSIZE) <= mid <==> NewTables(t, v, k + 1) <= before
    ensures KeysAt(t0, t', 0, (v + k) * PGSIZE) && after + Need(t0, (v + k) * PGSIZE) == mid ==>
              Tabled(t, t', v, k + 1, before, after)
  {
    hide KeysAt, Need, Added, NewTables;
    NewTablesNext(t, t0, v, k);
    if KeysAt(t0, t', 0, (v + k) * PGSIZE) {
      AddedNext(t, t0, t', v, k);
    }
  }

  method MapNext(m: PhysMem, ghost ram: Ram, ghost t: Tree, ghost free: seq<nat>, ghost t0: Tree, root: nat,
                 a: nat, p: nat, perm: nat, ghost v: nat, ghost pa: nat, ghost k: nat)
    returns (r: Status, ghost t': Tree)
    requires perm < 1024 && Mapped(m, ram, t, free, t0, v, pa, perm, k) && root == t.root
    requires a == (v + k) * PGSIZE && p == pa + k * PGSIZE && Tabled(t, t0, v, k, |free|, |m.free|)
    modifies m
    ensures r == Ok ==> Mapped(m, ram, t, free, t', v, pa, perm, k + 1) && Tabled(t, t', v, k + 1, |free|, |m.free|)
    ensures r != Ok ==> Mapped(m, ram, t, free, t', v, pa, perm, k)
    ensures r == Halt ==>
              (v + k) * PGSIZE >= MAXVA || (IsValid(Entry(ram, t, v + k)) && NewTables(t, v, k + 1) <= |free|)
    ensures r == NoMem ==> m.free == [] && (v + k) * PGSIZE < MAXVA && NewTables(t, v, k + 1) > |free|
  {
    hide Edited, TreeOk, Tables, Entry, Need, KeysAt, Tabled, NewTables, MakePte, Mapping, IsValid;
    ghost var ram0, free0 := m.ram, m.free;
    assert t0.root == t.root && Entry(ram0, t0, v + k) == Entry(ram, t, v + k) by {
      Untouched(ram, t, free, ram0, t0, free0, v, pa, perm, k);
    }
    r, t' := MapOne(m, t0, root, a, p, perm);
    EditedTrans(ram, t, free, ram0, t0, free0, m.ram, t', m.free, Mapping(v, pa, perm, k),
                OneEntry(r, (v + k) * PGSIZE, MakePte(pa + k * PGSIZE, perm)));
    if a < MAXVA {
      TabledNext(t, t0, t', v, k, |free|, |free0|, |m.free|);
    }
    MappingNext(v, pa, perm, k);
    assert (v + k) * PGSIZE / PGSIZE == v + k;
    assert Mapping(v, pa, perm, k) + map[] == Mapping(v, pa, perm, k);
  }

  lemma Untouched(ram: Ram, t: Tree, free: seq<nat>, more: Ram, t': Tree, rest: seq<nat>, v: nat, pa: nat, perm: nat,
                  k: nat)
    requires perm < 1024 && Edited(ram, t, free, more, t', rest, Mapping(v, pa, perm, k))
    ensures t'.root == t.root && Entry(more, t', v + k) == Entry(ram, t, v + k)
  {
  }

  /**
   mappages: on success exactly the pages of [va, va + sz) gain the entries for pa onwards and no
   other translation changes, and the missing tables came off the free list. It fails at the first
   page whose tables the free list cannot pay for, and it halts on a misaligned or empty range, past
   MAXVA or on a page that is already mapped; k pages are in place when it stops.
   */
  method Mappages(m: PhysMem, ghost t: Tree, root: nat, va: nat, pa: nat, sz: nat, perm: nat)
    returns (r: Status, ghost t': Tree, ghost k: nat)
    requires VmOk(m, t) && root == t.root && perm < 1024
    modifies m
    ensures Mapped(m, old(m.ram), t, old(m.free), t', va / PGSIZE, pa, perm, k)
            || (r == Halt && t' == t && m.ram == old(m.ram) && m.free == old(m.free))
    ensures r == Ok ==> va % PGSIZE == 0 && sz % PGSIZE == 0 && sz > 0 && k == sz / PGSIZE
                        && Mapped(m, old(m.ram), t, old(m.free), t', va / PGSIZE, pa, perm, k)
                        && Tabled(t, t', va / PGSIZE, k, |old(m.free)|, |m.free|)
    ensures r == NoMem ==>
              && va % PGSIZE == 0 && va + k * PGSIZE < MAXVA
              && k < sz / PGSIZE && m.free == [] && NewTables(t, va / PGSIZE, k + 1) > |old(m.free)|
    ensures r == Halt ==>
              || va % PGSIZE != 0 || sz % PGSIZE != 0 || sz == 0
              || (k < sz / PGSIZE && (|| va + k * PGSIZE >= MAXVA
                                      || (IsValid(Entry(old(m.ram), t, va / PGSIZE + k))
                                          && NewTables(t, va / PGSIZE, k + 1) <= |old(m.free)|)))
  {
    hide Edited, TreeOk, Tables, Entry, Tabled, NewTables;
    r, t', k := Halt, t, 0;
    if va % PGSIZE != 0 || sz % PGSIZE != 0 || sz == 0 || va >= MAXVA {
      return;
    }
    Begun(m, t, va, pa, perm);
    TabledStart(t, va / PGSIZE, |m.free|);
    var a, last, p := va, va + sz - PGSIZE, pa;
    while true
      invariant a == va + k * PGSIZE && p == pa + k * PGSIZE && k < sz / PGSIZE
      invariant Mapped(m, old(m.ram), t, old(m.free), t', va / PGSIZE, pa, perm, k)
      invariant Tabled(t, t', va / PGSIZE, k, |old(m.free)|, |m.free|)
      decreases sz / PGSIZE - k
    {
      assert (va / PGSIZE + k) * PGSIZE == a;
      r, t' := MapNext(m, old(m.ram), t, old(m.free), t', root, a, p, perm, va / PGSIZE, pa, k);
      if r != Ok {
        return;
      }
      k := k + 1;
      if a == last {
        return;
      }
      a, p := a + PGSIZE, p + PGSIZE;
    }
  }

  lemma Begun(m: PhysMem, t: Tree, va: nat, pa: nat, perm: nat)
    requires VmOk(m, t) && perm < 1024 && va < MAXVA && va % PGSIZE == 0
    ensures Mapped(m, m.ram, t, m.free, t, va / PGSIZE, pa, perm, 0)
  {
    NoEdit(m.ram, t, m.free);
    assert Mapping(va / PGSIZE, pa, perm, 0) == map[];
  }
}
