/**
 walk (kernel/src/vm.c): the descent through the page-table tree, allocating missing tables on
 request, and what it leaves unchanged.
 */
module PageWalk {
  import opened Collections
  import opened Sv39
  import opened Kalloc
  import opened PageTable

  /** Only the pages in `touched` may differ. */
  predicate SameOutside(ram: Ram, more: Ram, touched: set<nat>) {
    && more.Keys == ram.Keys
    && forall pa :: pa in ram && pa !in touched ==> more[pa] == ram[pa]
  }

  /**
   From (ram, t, free) to (more, t', rest): the entries named by delta take its values, every other
   translation is unchanged, the tree grew by exactly the pages taken off the free list, and no page
   outside the tree and the free list was touched.
   */
  ghost predicate Edited(ram: Ram, t: Tree, free: seq<nat>, more: Ram, t': Tree, rest: seq<nat>, delta: map<nat, nat>) {
    && t'.root == t.root
    && |rest| <= |free| && rest == free[|free| - |rest|..]
    && Tables(t') == Tables(t) + Elems(free[..|free| - |rest|])
    && SameOutside(ram, more, Tables(t) + Elems(free))
    && forall v: nat :: Entry(more, t', v) == if v in delta then delta[v] else Entry(ram, t, v)
  }

  lemma SplitFree(free: seq<nat>, rest: seq<nat>, last: seq<nat>)
    requires |last| <= |rest| <= |free| && rest == free[|free| - |rest|..] && last == rest[|rest| - |last|..]
    ensures last == free[|free| - |last|..]
    ensures Elems(free[..|free| - |last|]) == Elems(free[..|free| - |rest|]) + Elems(rest[..|rest| - |last|])
    ensures Elems(rest) <= Elems(free)
  {
    var a, b := |free| - |rest|, |rest| - |last|;
    assert free[..a + b] == free[..a] + rest[..b];
  }

  lemma SameOutsideTrans(a: Ram, b: Ram, c: Ram, s: set<nat>, u: set<nat>)
    requires SameOutside(a, b, s) && SameOutside(b, c, u) && u <= s
    ensures SameOutside(a, c, s)
  {
  }

  /** Edits compose; the later one wins where both name an entry. */
  lemma EditedTrans(r0: Ram, t0: Tree, f0: seq<nat>, r1: Ram, t1: Tree, f1: seq<nat>, r2: Ram, t2: Tree, f2: seq<nat>,
                    d1: map<nat, nat>, d2: map<nat, nat>)
    requires Edited(r0, t0, f0, r1, t1, f1, d1) && Edited(r1, t1, f1, r2, t2, f2, d2)
    ensures Edited(r0, t0, f0, r2, t2, f2, d1 + d2)
  {
    SplitFree(f0, f1, f2);
    assert Elems(f0[..|f0| - |f1|]) <= Elems(f0);
    SameOutsideTrans(r0, r1, r2, Tables(t0) + Elems(f0), Tables(t1) + Elems(f1));
  }

  /** The allocator and one tree, sharing no page. */
  ghost predicate VmOk(m: PhysMem, t: Tree)
    reads m
  {
    m.Valid() && TreeOk(m.ram, t) && Tables(t) !! Elems(m.free)
  }

  /** The page table that walk stands on at each level on the way to va. */
  predicate AtLevel(t: Tree, level: nat, page: nat, va: nat) {
    if level == 2 then page == t.root
    else if level == 1 then Px(2, va) in t.mid && page == t.mid[Px(2, va)]
    else (Px(2, va), Px(1, va)) in t.low && page == t.low[(Px(2, va), Px(1, va))]
  }

  /** The next table on the way exists. */
  predicate HasChild(t: Tree, level: nat, va: nat) {
    if level == 2 then Px(2, va) in t.mid else (Px(2, va), Px(1, va)) in t.low
  }

  lemma ChildEntry(ram: Ram, t: Tree, level: nat, page: nat, va: nat)
    requires TreeOk(ram, t) && 1 <= level <= 2 && AtLevel(t, level, page, va)
    ensures page in ram && page in Tables(t)
    ensures IsValid(ram[page][Px(level, va)]) <==> HasChild(t, level, va)
    ensures HasChild(t, level, va) ==> AtLevel(t, level - 1, Pte2Pa(ram[page][Px(level, va)]), va)
  {
    if level == 2 {
      if Px(2, va) in t.mid {
        assert MidOk(ram, t, Px(2, va));
        PteRoundTrip(t.mid[Px(2, va)], 0);
      }
    } else {
      assert MidOk(ram, t, Px(2, va));
      if HasChild(t, 1, va) {
        PteRoundTrip(t.low[(Px(2, va), Px(1, va))], 0);
      }
    }
  }

  function WithChild(t: Tree, level: nat, va: nat, pa: nat): Tree {
    if level == 2 then t.(mid := t.mid[Px(2, va) := pa])
    else t.(low := t.low[(Px(2, va), Px(1, va)) := pa])
  }

  /** The stores that hang page pa under `page`. */
  function Hung(ram: Ram, page: nat, level: nat, va: nat, pa: nat): Ram
    requires page in ram && level <= 2
  {
    ram[pa := Filled(0)][page := ram[page][Px(level, va) := TablePte(pa)]]
  }

  lemma AddChild(ram: Ram, t: Tree, level: nat, page: nat, va: nat, pa: nat)
    requires TreeOk(ram, t) && 1 <= level <= 2 && AtLevel(t, level, page, va) && !HasChild(t, level, va)
    requires pa in ram && pa !in Tables(t)
    ensures page in ram && page != pa
    ensures TreeOk(Hung(ram, page, level, va, pa), WithChild(t, level, va, pa))
    ensures forall v: nat :: Entry(Hung(ram, page, level, va, pa), WithChild(t, level, va, pa), v) == Entry(ram, t, v)
    ensures Tables(WithChild(t, level, va, pa)) == Tables(t) + {pa}
    ensures AtLevel(WithChild(t, level, va, pa), level - 1, pa, va)
  {
    hide TreeOk, Px, Entry;
    ChildEntry(ram, t, level, page, va);
    if level == 2 {
      AddMid(ram, t, Px(2, va), pa);
      TargetsWith(t.mid, Px(2, va), pa);
    } else {
      AddLow(ram, t, Px(2, va), Px(1, va), pa);
      TargetsWith(t.low, (Px(2, va), Px(1, va)), pa);
    }
  }

  lemma HeadTaken(free: seq<nat>)
    requires free != []
    ensures Elems(free[..1]) == {free[0]} && free[0] in Elems(free)
  {
  }

  /** Taking the head of the free list for the tree is an edit that changes no translation. */
  lemma HungIsEdit(ram: Ram, t: Tree, level: nat, page: nat, va: nat, free: seq<nat>)
    requires TreeOk(ram, t) && 1 <= level <= 2 && AtLevel(t, level, page, va) && !HasChild(t, level, va)
    requires free != [] && free[0] in ram && free[0] !in Tables(t) && page in ram
    ensures Edited(ram, t, free, Hung(ram, page, level, va, free[0]),
                   WithChild(t, level, va, free[0]), free[1..], map[])
  {
    AddChild(ram, t, level, page, va, free[0]);
    ChildEntry(ram, t, level, page, va);
    HeadTaken(free);
    SameOutsideHung(ram, page, level, va, free[0], Tables(t) + Elems(free));
  }

  lemma SameOutsideHung(ram: Ram, page: nat, level: nat, va: nat, pa: nat, touched: set<nat>)
    requires page in ram && pa in ram && level <= 2 && page in touched && pa in touched
    ensures SameOutside(ram, Hung(ram, page, level, va, pa), touched)
  {
  }

  lemma NoEdit(ram: Ram, t: Tree, free: seq<nat>)
    ensures Edited(ram, t, free, ram, t, free, map[])
  {
    assert Elems(free[..0]) == {};
  }

  /** kalloc, memset and the store of the new entry, for a table that is missing. */
  method Hang(m: PhysMem, ghost t: Tree, level: nat, page: nat, va: nat) returns (child: nat)
    requires VmOk(m, t) && 1 <= level <= 2 && AtLevel(t, level, page, va) && !HasChild(t, level, va)
    requires page in m.ram && page in Tables(t)
    modifies m
    ensures m.Valid()
    ensures child == 0 <==> old(m.free) == []
    ensures child == 0 ==> m.ram == old(m.ram) && m.free == []
    ensures child != 0 ==>
              && child == old(m.free)[0] && child in old(m.ram) && m.free == old(m.free)[1..]
              && m.ram == Hung(old(m.ram), page, level, va, child)
  {
    child := m.Kalloc();
    if child != 0 {
      assert m.free == old(m.free)[1..] && child == old(m.free)[0];
      assert page !in Elems(old(m.free));
      m.Store(child, Filled(0));
      assert m.ram == old(m.ram)[child := Filled(0)];
      m.Store(page, m.ram[page][Px(level, va) := TablePte(child)]);
    }
  }

  /** One level of walk's loop: follow the entry, or allocate and zero a table and hang it there. */
  method Descend(m: PhysMem, ghost t: Tree, level: nat, page: nat, va: nat, alloc: bool)
    returns (child: nat, ghost t': Tree)
    requires VmOk(m, t) && 1 <= level <= 2 && AtLevel(t, level, page, va)
    modifies m
    ensures VmOk(m, t') && Edited(old(m.ram), t, old(m.free), m.ram, t', m.free, map[])
    ensures child == 0 <==> !HasChild(t, level, va) && (!alloc || old(m.free) == [])
    ensures child != 0 ==> AtLevel(t', level - 1, child, va)
    ensures HasChild(t, level, va) || child == 0 ==> t' == t && m.ram == old(m.ram) && m.free == old(m.free)
    ensures child != 0 && !HasChild(t, level, va) ==>
              t' == WithChild(t, level, va, child) && |m.free| + 1 == |old(m.free)|
  {
    ChildEntry(m.ram, t, level, page, va);
    NoEdit(m.ram, t, m.free);
    var pte := m.ram[page][Px(level, va)];
    t' := t;
    if IsValid(pte) {
      child := Pte2Pa(pte);
      ChildIsPage(m.ram, t, level - 1, child, va);
    } else if !alloc {
      child := 0;
    } else {
      child := Hang(m, t, level, page, va);
      if child != 0 {
        t' := WithChild(t, level, va, child);
        GrownOk(m, old(m.ram), t, level, page, va, old(m.free));
      }
    }
  }

  lemma ChildIsPage(ram: Ram, t: Tree, level: nat, page: nat, va: nat)
    requires TreeOk(ram, t) && level <= 1 && AtLevel(t, level, page, va)
    ensures page in ram
  {
    if level == 1 {
      assert MidOk(ram, t, Px(2, va));
    }
  }

  lemma GrownOk(m: PhysMem, ram: Ram, t: Tree, level: nat, page: nat, va: nat, free: seq<nat>)
    requires m.Valid() && TreeOk(ram, t) && Tables(t) !! Elems(free) && Distinct(free)
    requires 1 <= level <= 2 && AtLevel(t, level, page, va) && !HasChild(t, level, va)
    requires free != [] && free[0] in ram && page in ram
    requires m.ram == Hung(ram, page, level, va, free[0]) && m.free == free[1..]
    ensures VmOk(m, WithChild(t, level, va, free[0]))
    ensures Edited(ram, t, free, m.ram, WithChild(t, level, va, free[0]), m.free, map[])
    ensures AtLevel(WithChild(t, level, va, free[0]), level - 1, free[0], va)
  {
    HeadTaken(free);
    HungIsEdit(ram, t, level, page, va, free);
    AddChild(ram, t, level, page, va, free[0]);
    forall x | x in Elems(free[1..]) ensures x in Elems(free) && x != free[0] {
    }
  }

  /** What walk returns: the address of an entry, 0, or a panic. */
  datatype Walked = Slot(page: nat, index: nat) | Missing | WalkPanic

  /** Where the entry for page number v sits. */
  predicate IsSlot(t: Tree, v: nat, w: Walked) {
    && (v / PTES / PTES, v / PTES % PTES) in t.low
    && w == Slot(t.low[(v / PTES / PTES, v / PTES % PTES)], v % PTES)
  }

  /** The tables walk had to add above a level on the way to va. */
  function Spent(t: Tree, level: nat, va: nat): nat {
    (if level >= 2 || HasChild(t, 2, va) then 0 else 1) + (if level >= 1 || HasChild(t, 1, va) then 0 else 1)
  }

  /** All the tables walk has to add on the way to va. */
  function Need(t: Tree, va: nat): nat {
    Spent(t, 0, va)
  }

  /** t' has the tables of t and the ones on the way to va down to a level. */
  predicate KeysAt(t: Tree, t': Tree, level: nat, va: nat) {
    && t'.mid.Keys == t.mid.Keys + (if level <= 1 then {Px(2, va)} else {})
    && t'.low.Keys == t.low.Keys + (if level == 0 then {(Px(2, va), Px(1, va))} else {})
  }

  lemma SameChild(t: Tree, t': Tree, level: nat, va: nat)
    requires 1 <= level <= 2 && KeysAt(t, t', level, va)
    ensures HasChild(t', level, va) <==> HasChild(t, level, va)
  {
  }

  lemma KeysStep(t: Tree, t0: Tree, t': Tree, level: nat, va: nat, pa: nat)
    requires 1 <= level <= 2 && KeysAt(t, t0, level, va)
    requires t' == if HasChild(t0, level, va) then t0 else WithChild(t0, level, va, pa)
    ensures KeysAt(t, t', level - 1, va)
  {
  }

  lemma SpentStep(t: Tree, level: nat, va: nat)
    requires 1 <= level <= 2
    ensures Spent(t, level - 1, va) == Spent(t, level, va) + if HasChild(t, level, va) then 0 else 1
    ensures !HasChild(t, level, va) ==> Need(t, va) > Spent(t, level, va)
  {
  }

  /** Where walk stands at a level, from memory (ram, t, free). */
  ghost predicate Walking(m: PhysMem, ram: Ram, t: Tree, free: seq<nat>, t': Tree, level: nat, page: nat, va: nat,
                          alloc: bool)
    reads m
  {
    && level <= 2 && VmOk(m, t') && Edited(ram, t, free, m.ram, t', m.free, map[])
    && AtLevel(t', level, page, va)
    && (!alloc ==> t' == t && m.ram == ram && m.free == free)
    && |m.free| + Spent(t, level, va) == |free| && KeysAt(t, t', level, va)
  }

  method WalkLevel(m: PhysMem, ghost ram: Ram, ghost t: Tree, ghost free: seq<nat>, ghost t0: Tree,
                   level: nat, page: nat, va: nat, alloc: bool)
    returns (child: nat, ghost t': Tree)
    requires Walking(m, ram, t, free, t0, level, page, va, alloc) && level > 0
    modifies m
    ensures child != 0 ==> Walking(m, ram, t, free, t', level - 1, child, va, alloc)
    ensures child == 0 ==> VmOk(m, t') && Edited(ram, t, free, m.ram, t', m.free, map[])
    ensures child == 0 ==> !HasChild(t, level, va) && (alloc ==> |free| == Spent(t, level, va) && m.free == [])
    ensures !alloc ==> t' == t && m.ram == ram && m.free == free
  {
    hide Edited, VmOk, KeysAt, HasChild, AtLevel, Spent, WithChild;
    ghost var ram0, free0 := m.ram, m.free;
    SpentStep(t, level, va);
    SameChild(t, t0, level, va);
    child, t' := Descend(m, t0, level, page, va, alloc);
    if child != 0 {
      KeysStep(t, t0, t', level, va, child);
    }
    JoinEdits(ram, t, free, ram0, t0, free0, m.ram, t', m.free);
  }

  lemma JoinEdits(r0: Ram, t0: Tree, f0: seq<nat>, r1: Ram, t1: Tree, f1: seq<nat>, r2: Ram, t2: Tree, f2: seq<nat>)
    requires Edited(r0, t0, f0, r1, t1, f1, map[]) && Edited(r1, t1, f1, r2, t2, f2, map[])
    ensures Edited(r0, t0, f0, r2, t2, f2, map[])
  {
    var none: map<nat, nat> := map[];
    EditedTrans(r0, t0, f0, r1, t1, f1, r2, t2, f2, none, none);
    assert none + none == none;
  }

  lemma BottomSlot(t: Tree, page: nat, va: nat)
    requires AtLevel(t, 0, page, va) && va < MAXVA
    ensures IsSlot(t, va / PGSIZE, Slot(page, Px(0, va)))
  {
    PxDigits(va);
  }

  /** walk's loop over the levels. */
  method Descent(m: PhysMem, ghost t: Tree, root: nat, va: nat, alloc: bool) returns (page: nat, ghost t': Tree)
    requires VmOk(m, t) && root == t.root
    modifies m
    ensures VmOk(m, t') && Edited(old(m.ram), t, old(m.free), m.ram, t', m.free, map[])
    ensures page == 0 <==> Need(t, va) > if alloc then |old(m.free)| else 0
    ensures page != 0 ==> AtLevel(t', 0, page, va)
    ensures page != 0 ==> KeysAt(t, t', 0, va) && |m.free| + Need(t, va) == |old(m.free)|
    ensures page == 0 && alloc ==> m.free == []
    ensures !alloc ==> t' == t && m.ram == old(m.ram) && m.free == old(m.free)
  {
    hide Edited, TreeOk, Tables;
    NoEdit(m.ram, t, m.free);
    t' := t;
    var level := 2;
    page := root;
    RootIsPage(m, t);
    while level > 0
      invariant 0 <= level <= 2 && Walking(m, old(m.ram), t, old(m.free), t', level, page, va, alloc) && page != 0
    {
      SpentStep(t, level, va);
      page, t' := WalkLevel(m, old(m.ram), t, old(m.free), t', level, page, va, alloc);
      if page == 0 {
        return;
      }
      level := level - 1;
    }
  }

  lemma RootIsPage(m: PhysMem, t: Tree)
    requires VmOk(m, t)
    ensures t.root != 0
  {
    assert !m.Managed(0);
  }

  method Walk(m: PhysMem, ghost t: Tree, root: nat, va: nat, alloc: bool) returns (w: Walked, ghost t': Tree)
    requires VmOk(m, t) && root == t.root
    modifies m
    ensures VmOk(m, t') && Edited(old(m.ram), t, old(m.free), m.ram, t', m.free, map[])
    ensures w.WalkPanic? <==> va >= MAXVA
    ensures w.Missing? <==> va < MAXVA && Need(t, va) > if alloc then |old(m.free)| else 0
    ensures w.Slot? ==> IsSlot(t', va / PGSIZE, w)
    ensures w.Slot? ==> KeysAt(t, t', 0, va) && |m.free| + Need(t, va) == |old(m.free)|
    ensures w.Missing? && alloc ==> m.free == []
    ensures !alloc || w.WalkPanic? ==> t' == t && m.ram == old(m.ram) && m.free == old(m.free)
  {
    if va >= MAXVA {
      NoEdit(m.ram, t, m.free);
      return WalkPanic, t;
    }
    var page;
    page, t' := Descent(m, t, root, va, alloc);
    if page == 0 {
      return Missing, t';
    }
    BottomSlot(t', page, va);
    return Slot(page, Px(0, va)), t';
  }

  /** walk without alloc only looks. */
  method Find(m: PhysMem, ghost t: Tree, root: nat, va: nat) returns (w: Walked)
    requires VmOk(m, t) && root == t.root
    modifies m
    ensures VmOk(m, t) && m.ram == old(m.ram) && m.free == old(m.free)
    ensures w.Slot? ==> va < MAXVA && IsSlot(t, va / PGSIZE, w)
    ensures !w.Slot? ==> va >= MAXVA || Need(t, va) > 0
  {
    hide Edited, VmOk, Need, KeysAt, IsSlot;
    ghost var t';
    w, t' := Walk(m, t, root, va, false);
  }
}
