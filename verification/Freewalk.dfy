/**
 freewalk (kernel/src/vm.c): the recursive release of page-table pages. It is specified by what it
 reaches in memory, level by level, and then related to the tree of module PageTable.
 */
module Freewalk {
  import opened Common
  import opened Collections
  import opened Sv39
  import opened Kalloc
  import opened PageTable
  import opened PageWalk

  /** The pages freewalk visits from a table at `level`. */
  function Reach(ram: Ram, level: nat, page: nat): set<nat>
    decreases level, PTES + 1
  {
    {page} + ReachFrom(ram, level, page, 0)
  }

  /** The pages below the entries i, i + 1, ... of a table. */
  function ReachFrom(ram: Ram, level: nat, page: nat, i: nat): set<nat>
    decreases level, PTES - i
  {
    if i >= PTES || level == 0 || page !in ram then {}
    else (if IsValid(ram[page][i]) then Reach(ram, level - 1, Pte2Pa(ram[page][i])) else {})
         + ReachFrom(ram, level, page, i + 1)
  }

  /** A tree without sharing whose bottom tables hold only leaf entries. */
  predicate Proper(ram: Ram, level: nat, page: nat)
    decreases level, PTES + 1
  {
    page in ram && page !in ReachFrom(ram, level, page, 0) && ProperFrom(ram, level, page, 0)
  }

  predicate ProperFrom(ram: Ram, level: nat, page: nat, i: nat)
    requires page in ram
    decreases level, PTES - i
  {
    i < PTES ==>
      && ProperFrom(ram, level, page, i + 1)
      && (IsValid(ram[page][i]) ==> if level == 0 then IsLeaf(ram[page][i]) else ProperEntry(ram, level, page, i))
  }

  predicate ProperEntry(ram: Ram, level: nat, page: nat, i: nat)
    requires page in ram && i < PTES && level > 0
    decreases level, 0
  {
    && !IsLeaf(ram[page][i]) && Proper(ram, level - 1, Pte2Pa(ram[page][i]))
    && Reach(ram, level - 1, Pte2Pa(ram[page][i])) !! ReachFrom(ram, level, page, i + 1)
  }

  /** No leaf mapping is left below the entries i, i + 1, ... of a table. */
  predicate NoLeaf(ram: Ram, level: nat, page: nat, i: nat)
    decreases level, PTES - i
  {
    i < PTES && page in ram ==>
      && NoLeaf(ram, level, page, i + 1)
      && (IsValid(ram[page][i]) ==> level > 0 && NoLeaf(ram, level - 1, Pte2Pa(ram[page][i]), 0))
  }

  /** Memory changes outside what is reached do not matter. */
  lemma {:induction false} ReachFrame(ram: Ram, more: Ram, level: nat, page: nat, i: nat)
    requires page in ram && page in more && ProperFrom(ram, level, page, i)
    requires forall j :: i <= j < PTES ==> more[page][j] == ram[page][j]
    requires forall pa :: pa in ReachFrom(ram, level, page, i) && pa in ram ==> pa in more && more[pa] == ram[pa]
    ensures ReachFrom(more, level, page, i) == ReachFrom(ram, level, page, i)
    ensures ProperFrom(more, level, page, i)
    ensures NoLeaf(more, level, page, i) <==> NoLeaf(ram, level, page, i)
    decreases level, PTES - i
  {
    if i < PTES {
      ReachFrame(ram, more, level, page, i + 1);
      if IsValid(ram[page][i]) && level > 0 {
        var child := Pte2Pa(ram[page][i]);
        assert ProperEntry(ram, level, page, i);
        assert Proper(ram, level - 1, child);
        assert child in Reach(ram, level - 1, child);
        ReachFrame(ram, more, level - 1, child, 0);
      }
    }
  }

  /** Where freewalk's loop stands at entry i: `gone` was released, the rest is as it was in `ram`. */
  ghost predicate Freeing(m: PhysMem, ram: Ram, free: seq<nat>, level: nat, page: nat, i: nat, gone: set<nat>)
    reads m
  {
    && m.Valid() && page in ram && page in m.ram && i <= PTES
    && Elems(m.free) == Elems(free) + gone
    && SameOutside(ram, m.ram, {page} + gone)
    && (forall j :: i <= j < PTES ==> m.ram[page][j] == ram[page][j])
    && Reach(ram, level, page) == {page} + gone + ReachFrom(ram, level, page, i)
    && gone !! ReachFrom(ram, level, page, i) && page !in gone && page !in ReachFrom(ram, level, page, i)
    && ProperFrom(ram, level, page, i)
    && (NoLeaf(ram, level, page, 0) <==> NoLeaf(ram, level, page, i))
  }

  /** The subtree below a valid entry, at the moment the loop reaches it. */
  lemma ChildReady(m: PhysMem, ram: Ram, free: seq<nat>, level: nat, page: nat, i: nat, gone: set<nat>)
    requires Freeing(m, ram, free, level, page, i, gone) && i < PTES && level > 0 && IsValid(ram[page][i])
    requires Reach(ram, level, page) !! Elems(free)
    ensures !IsLeaf(ram[page][i])
    ensures var child := Pte2Pa(ram[page][i]);
            && Proper(m.ram, level - 1, child)
            && Reach(m.ram, level - 1, child) == Reach(ram, level - 1, child)
            && (NoLeaf(m.ram, level - 1, child, 0) <==> NoLeaf(ram, level - 1, child, 0))
            && Reach(ram, level - 1, child) <= ReachFrom(ram, level, page, i)
            && Reach(ram, level - 1, child) !! Elems(m.free) && page !in Reach(ram, level - 1, child)
  {
    var child := Pte2Pa(ram[page][i]);
    assert ProperEntry(ram, level, page, i);
    assert Proper(ram, level - 1, child);
    assert child in Reach(ram, level - 1, child);
    ReachFrame(ram, m.ram, level - 1, child, 0);
  }

  /** The loop's bookkeeping once a child is released and its entry cleared. */
  lemma ChildGone(m: PhysMem, ram: Ram, free: seq<nat>, level: nat, page: nat, i: nat, gone: set<nat>, before: Ram,
                  mid: Ram)
    requires m.Valid() && page in ram && page in before && page in mid && i < PTES && level > 0
    requires IsValid(ram[page][i]) && ProperFrom(ram, level, page, i)
    requires SameOutside(ram, before, {page} + gone) && (forall j :: i <= j < PTES ==> before[page][j] == ram[page][j])
    requires var sub := Reach(ram, level - 1, Pte2Pa(ram[page][i]));
             && SameOutside(before, mid, sub) && Elems(m.free) == Elems(free) + gone + sub
             && page !in sub
    requires m.ram == mid[page := mid[page][i := 0]]
    requires Reach(ram, level, page) == {page} + gone + ReachFrom(ram, level, page, i)
    requires gone !! ReachFrom(ram, level, page, i) && page !in gone && page !in ReachFrom(ram, level, page, i)
    requires NoLeaf(ram, level, page, 0) <==> NoLeaf(ram, level, page, i)
    requires NoLeaf(ram, level - 1, Pte2Pa(ram[page][i]), 0)
    ensures Freeing(m, ram, free, level, page, i + 1, gone + Reach(ram, level - 1, Pte2Pa(ram[page][i])))
  {
    var sub := Reach(ram, level - 1, Pte2Pa(ram[page][i]));
    assert ReachFrom(ram, level, page, i) == sub + ReachFrom(ram, level, page, i + 1);
    assert ProperEntry(ram, level, page, i);
    assert NoLeaf(ram, level, page, i) <==> NoLeaf(ram, level, page, i + 1);
    assert mid[page] == before[page];
  }

  /**
   freewalk: when no leaf mapping is left, every page reached goes back to the free list exactly once
   and nothing else is touched; a leaf makes it panic. The recursion ends because the tree is three
   levels deep.
   */
  method Freewalk(m: PhysMem, page: nat, ghost level: nat) returns (o: Outcome)
    requires m.Valid() && Proper(m.ram, level, page) && Reach(m.ram, level, page) !! Elems(m.free)
    modifies m
    ensures o == Done <==> NoLeaf(old(m.ram), level, page, 0)
    ensures o == Done ==>
              && m.Valid() && SameOutside(old(m.ram), m.ram, Reach(old(m.ram), level, page))
              && Elems(m.free) == Elems(old(m.free)) + Reach(old(m.ram), level, page)
    decreases level
  {
    hide ReachFrom, ProperFrom, NoLeaf, IsList;
    ghost var ram, free := m.ram, m.free;
    ghost var gone: set<nat> := {};
    var i := 0;
    while i < PTES
      invariant 0 <= i <= PTES && Freeing(m, ram, free, level, page, i, gone)
    {
      o, gone := FreeEntry(m, ram, free, level, page, i, gone);
      if o == Panic {
        return;
      }
      i := i + 1;
    }
    AllEntriesDone(ram, level, page);
    assert page !in Elems(m.free);
    o := m.Kfree(page);
    assert Elems(m.free) == {page} + (Elems(free) + gone);
  }

  lemma AllEntriesDone(ram: Ram, level: nat, page: nat)
    ensures ReachFrom(ram, level, page, PTES) == {} && NoLeaf(ram, level, page, PTES)
  {
  }

  lemma SkipEntry(m: PhysMem, ram: Ram, free: seq<nat>, level: nat, page: nat, i: nat, gone: set<nat>)
    requires Freeing(m, ram, free, level, page, i, gone) && i < PTES && !IsValid(ram[page][i])
    ensures Freeing(m, ram, free, level, page, i + 1, gone)
  {
  }

  lemma LeafStops(ram: Ram, level: nat, page: nat, i: nat)
    requires page in ram && i < PTES && ProperFrom(ram, level, page, i) && IsValid(ram[page][i])
    ensures IsLeaf(ram[page][i]) ==> !NoLeaf(ram, level, page, i)
    ensures !IsLeaf(ram[page][i]) ==> level > 0
    ensures level > 0 && !NoLeaf(ram, level - 1, Pte2Pa(ram[page][i]), 0) ==> !NoLeaf(ram, level, page, i)
  {
    if level > 0 {
      assert ProperEntry(ram, level, page, i);
    }
  }

  /** One iteration of freewalk's loop. */
  method FreeEntry(m: PhysMem, ghost ram: Ram, ghost free: seq<nat>, ghost level: nat, page: nat, i: nat,
                   ghost gone: set<nat>)
    returns (o: Outcome, ghost gone': set<nat>)
    requires Freeing(m, ram, free, level, page, i, gone) && i < PTES && Reach(ram, level, page) !! Elems(free)
    modifies m
    ensures o == Panic ==> !NoLeaf(ram, level, page, 0)
    ensures o == Done ==> Freeing(m, ram, free, level, page, i + 1, gone')
    decreases level, 0
  {
    hide ReachFrom, ProperFrom, NoLeaf, IsList, IsValid, IsLeaf, Pte2Pa;
    gone' := gone;
    var pte := m.ram[page][i];
    if IsValid(pte) {
      LeafStops(ram, level, page, i);
      if IsLeaf(pte) {
        return Panic, gone;
      }
      var child := Pte2Pa(pte);
      ghost var before := m.ram;
      ChildReady(m, ram, free, level, page, i, gone);
      o := Freewalk(m, child, level - 1);
      if o == Panic {
        return Panic, gone;
      }
      ghost var mid := m.ram;
      assert page !in Elems(m.free);
      m.Store(page, m.ram[page][i := 0]);
      gone' := gone + Reach(ram, level - 1, child);
      ChildGone(m, ram, free, level, page, i, gone, before, mid);
    } else {
      SkipEntry(m, ram, free, level, page, i, gone);
    }
    o := Done;
  }

  // The tree that a root spans is what freewalk reaches from it.

  function LowsOf(t: Tree, i: nat, j: nat): set<nat> {
    set q | q in t.low && q.0 == i && q.1 >= j :: t.low[q]
  }

  function Below(t: Tree, i: nat): set<nat> {
    (set k | k in t.mid && k >= i :: t.mid[k]) + (set q | q in t.low && q.0 >= i :: t.low[q])
  }

  /** A bottom table without valid entries. */
  predicate Quiet(ram: Ram, page: nat) {
    page in ram && forall k :: 0 <= k < PTES ==> !IsValid(ram[page][k])
  }

  /** Every valid entry carries a read, write or execute bit. */
  ghost predicate LeavesOnly(ram: Ram, t: Tree) {
    forall v: nat :: IsValid(Entry(ram, t, v)) ==> IsLeaf(Entry(ram, t, v))
  }

  /** Entry k of the bottom table q belongs to one page number. */
  lemma EntryAt(ram: Ram, t: Tree, q: (nat, nat), k: nat)
    requires TreeOk(ram, t) && q in t.low && k < PTES
    ensures Entry(ram, t, (q.0 * PTES + q.1) * PTES + k) == ram[t.low[q]][k]
  {
    var v := (q.0 * PTES + q.1) * PTES + k;
    assert v / PTES == q.0 * PTES + q.1 && v % PTES == k;
    assert v / PTES / PTES == q.0 && v / PTES % PTES == q.1;
  }

  lemma {:induction false} BottomReach(ram: Ram, page: nat, k: nat)
    requires page in ram && k <= PTES
    requires forall j :: k <= j < PTES && IsValid(ram[page][j]) ==> IsLeaf(ram[page][j])
    ensures ProperFrom(ram, 0, page, k)
    ensures NoLeaf(ram, 0, page, k) <==> forall j :: k <= j < PTES ==> !IsValid(ram[page][j])
    decreases PTES - k
  {
    if k < PTES {
      BottomReach(ram, page, k + 1);
    }
  }

  lemma BottomProper(ram: Ram, t: Tree, q: (nat, nat))
    requires TreeOk(ram, t) && LeavesOnly(ram, t) && q in t.low
    ensures Proper(ram, 0, t.low[q]) && Reach(ram, 0, t.low[q]) == {t.low[q]}
    ensures NoLeaf(ram, 0, t.low[q], 0) <==> Quiet(ram, t.low[q])
  {
    forall k | 0 <= k < PTES && IsValid(ram[t.low[q]][k]) ensures IsLeaf(ram[t.low[q]][k]) {
      EntryAt(ram, t, q, k);
    }
    BottomReach(ram, t.low[q], 0);
  }

  lemma LowsStep(t: Tree, i: nat, j: nat)
    ensures LowsOf(t, i, j) == LowsOf(t, i, j + 1) + if (i, j) in t.low then {t.low[(i, j)]} else {}
  {
    if (i, j) in t.low {
      assert t.low[(i, j)] in LowsOf(t, i, j);
    }
    forall x | x in LowsOf(t, i, j) && x !in LowsOf(t, i, j + 1) ensures (i, j) in t.low && x == t.low[(i, j)] {
      var q :| q in t.low && q.0 == i && q.1 >= j && t.low[q] == x;
      assert q.1 == j;
    }
  }

  lemma {:induction false} MiddleReach(ram: Ram, t: Tree, i: nat, j: nat)
    requires TreeOk(ram, t) && LeavesOnly(ram, t) && i in t.mid && j <= PTES
    ensures t.mid[i] in ram
    ensures ReachFrom(ram, 1, t.mid[i], j) == LowsOf(t, i, j) && ProperFrom(ram, 1, t.mid[i], j)
    ensures NoLeaf(ram, 1, t.mid[i], j) <==> forall q :: q in t.low && q.0 == i && q.1 >= j ==> Quiet(ram, t.low[q])
    decreases PTES - j
  {
    hide Quiet, IsValid, IsLeaf, Pte2Pa;
    assert MidOk(ram, t, i);
    if j == PTES {
      assert LowsOf(t, i, j) == {};
    } else {
      MiddleReach(ram, t, i, j + 1);
      LowsStep(t, i, j);
      if (i, j) in t.low {
        var page := t.low[(i, j)];
        PteRoundTrip(page, 0);
        BottomProper(ram, t, (i, j));
        assert page !in LowsOf(t, i, j + 1);
        assert ProperEntry(ram, 1, t.mid[i], j);
      }
    }
  }

  lemma MiddleProper(ram: Ram, t: Tree, i: nat)
    requires TreeOk(ram, t) && LeavesOnly(ram, t) && i in t.mid
    ensures Proper(ram, 1, t.mid[i]) && Reach(ram, 1, t.mid[i]) == {t.mid[i]} + LowsOf(t, i, 0)
    ensures NoLeaf(ram, 1, t.mid[i], 0) <==> forall q :: q in t.low && q.0 == i ==> Quiet(ram, t.low[q])
  {
    MiddleReach(ram, t, i, 0);
  }

  lemma BelowStep(t: Tree, i: nat)
    requires InRange(t)
    ensures Below(t, i) == Below(t, i + 1) + if i in t.mid then {t.mid[i]} + LowsOf(t, i, 0) else {}
  {
    forall x | x in Below(t, i) && x !in Below(t, i + 1) ensures i in t.mid && x in {t.mid[i]} + LowsOf(t, i, 0) {
      if k :| k in t.mid && k >= i && t.mid[k] == x {
        assert k == i;
      } else {
        var q :| q in t.low && q.0 >= i && t.low[q] == x;
        assert q.0 == i && q.0 in t.mid;
      }
    }
    if i in t.mid {
      assert t.mid[i] in Below(t, i);
    }
  }

  lemma ApartBelow(t: Tree, i: nat)
    requires NotAliased(t) && i in t.mid
    ensures {t.mid[i]} + LowsOf(t, i, 0) !! Below(t, i + 1)
  {
  }

  lemma {:induction false} RootReach(ram: Ram, t: Tree, i: nat)
    requires TreeOk(ram, t) && LeavesOnly(ram, t) && i <= PTES
    ensures ReachFrom(ram, 2, t.root, i) == Below(t, i) && ProperFrom(ram, 2, t.root, i)
    ensures NoLeaf(ram, 2, t.root, i) <==> forall q :: q in t.low && q.0 >= i ==> Quiet(ram, t.low[q])
    decreases PTES - i
  {
    hide Quiet, IsValid, IsLeaf, Pte2Pa;
    if i == PTES {
      assert Below(t, i) == {};
    } else {
      RootReach(ram, t, i + 1);
      BelowStep(t, i);
      if i in t.mid {
        hide LowsOf, Below, NotAliased;
        PteRoundTrip(t.mid[i], 0);
        MiddleProper(ram, t, i);
        ApartBelow(t, i);
        assert ProperEntry(ram, 2, t.root, i);
      } else {
        assert forall q :: q in t.low ==> q.0 != i;
      }
    }
  }

  /** freewalk visits exactly the tables of the tree, and needs exactly an empty address space. */
  lemma TreeReach(ram: Ram, t: Tree)
    requires TreeOk(ram, t) && LeavesOnly(ram, t)
    ensures Proper(ram, 2, t.root) && Reach(ram, 2, t.root) == Tables(t)
    ensures NoLeaf(ram, 2, t.root, 0) <==> forall v: nat :: !IsValid(Entry(ram, t, v))
  {
    hide Quiet, IsValid, Entry, LeavesOnly;
    RootReach(ram, t, 0);
    BelowAll(t);
    QuietEntries(ram, t);
  }

  lemma BelowAll(t: Tree)
    requires NotAliased(t)
    ensures {t.root} + Below(t, 0) == Tables(t) && t.root !in Below(t, 0)
  {
    forall x | x in Targets(t.mid) ensures x in Below(t, 0) {
      var i :| i in t.mid && t.mid[i] == x;
    }
    forall x | x in Targets(t.low) ensures x in Below(t, 0) {
      var q :| q in t.low && t.low[q] == x;
    }
  }

  lemma QuietEntries(ram: Ram, t: Tree)
    requires TreeOk(ram, t)
    ensures (forall q :: q in t.low ==> Quiet(ram, t.low[q])) <==> forall v: nat :: !IsValid(Entry(ram, t, v))
  {
    if forall v: nat :: !IsValid(Entry(ram, t, v)) {
      forall q: (nat, nat), k: nat | q in t.low && k < PTES ensures !IsValid(ram[t.low[q]][k]) {
        EntryAt(ram, t, q, k);
      }
    }
  }
}
