/**
 How many page-table pages a range of page numbers asks for: the tables on the way to it that the
 tree does not have yet.
 */
module TableCost {
  import opened Collections
  import opened Sv39
  import opened Kalloc
  import opened PageTable
  import opened PageWalk

  /** The bottom tables on the way to k page numbers from v on. */
  function Lows(v: nat, k: nat): set<(nat, nat)> {
    set u: nat | v <= u < v + k :: LowKey(u)
  }

  function Mids(v: nat, k: nat): set<nat> {
    set u: nat | v <= u < v + k :: MidKey(u)
  }

  /** The tables that mapping k pages from v on has to add to t. */
  function NewTables(t: Tree, v: nat, k: nat): nat {
    |Mids(v, k) - t.mid.Keys| + |Lows(v, k) - t.low.Keys|
  }

  /** t' has the tables of t and the ones for k pages from v on. */
  predicate Added(t: Tree, t': Tree, v: nat, k: nat) {
    && t'.mid.Keys == t.mid.Keys + Mids(v, k)
    && t'.low.Keys == t.low.Keys + Lows(v, k)
  }

  lemma RangeNext(v: nat, k: nat)
    ensures Mids(v, k + 1) == Mids(v, k) + {MidKey(v + k)}
    ensures Lows(v, k + 1) == Lows(v, k) + {LowKey(v + k)}
    ensures Mids(v, 0) == {} && Lows(v, 0) == {}
  {
    forall u: nat | v <= u < v + k ensures MidKey(u) in Mids(v, k + 1) && LowKey(u) in Lows(v, k + 1) {
    }
    assert MidKey(v + k) in Mids(v, k + 1) && LowKey(v + k) in Lows(v, k + 1);
  }

  lemma NothingAdded(t: Tree, v: nat)
    ensures Added(t, t, v, 0) && NewTables(t, v, 0) == 0
  {
    RangeNext(v, 0);
  }

  lemma OneMore<T>(s: set<T>, keys: set<T>, x: T)
    ensures |(s + {x}) - keys| == |s - keys| + if x in keys + s then 0 else 1
  {
    if x in keys + s {
      assert (s + {x}) - keys == s - keys;
    } else {
      assert (s + {x}) - keys == (s - keys) + {x};
    }
  }

  /** walk's indices are the keys of the tables it passes. */
  lemma KeysOf(v: nat)
    requires v * PGSIZE < MAXVA
    ensures Px(2, v * PGSIZE) == MidKey(v) && (Px(2, v * PGSIZE), Px(1, v * PGSIZE)) == LowKey(v)
  {
    PxDigits(v * PGSIZE);
  }

  lemma NeedAt(t: Tree, v: nat)
    requires v * PGSIZE < MAXVA
    ensures Need(t, v * PGSIZE) == (if MidKey(v) in t.mid then 0 else 1) + if LowKey(v) in t.low then 0 else 1
  {
    KeysOf(v);
  }

  lemma NewTablesOne(t: Tree, t0: Tree, v: nat, k: nat)
    requires Added(t, t0, v, k)
    ensures NewTables(t, v, k + 1) == NewTables(t, v, k)
              + (if MidKey(v + k) in t0.mid then 0 else 1) + if LowKey(v + k) in t0.low then 0 else 1
  {
    RangeNext(v, k);
    hide Mids, Lows, MidKey, LowKey;
    OneMore(Mids(v, k), t.mid.Keys, MidKey(v + k));
    OneMore(Lows(v, k), t.low.Keys, LowKey(v + k));
  }

  /** The cost of one more page is what walk adds for it to the tree grown so far. */
  lemma NewTablesNext(t: Tree, t0: Tree, v: nat, k: nat)
    requires Added(t, t0, v, k) && (v + k) * PGSIZE < MAXVA
    ensures NewTables(t, v, k + 1) == NewTables(t, v, k) + Need(t0, (v + k) * PGSIZE)
  {
    hide *;
    NeedAt(t0, v + k);
    NewTablesOne(t, t0, v, k);
  }

  lemma AddedNext(t: Tree, t0: Tree, t': Tree, v: nat, k: nat)
    requires Added(t, t0, v, k) && (v + k) * PGSIZE < MAXVA && KeysAt(t0, t', 0, (v + k) * PGSIZE)
    ensures Added(t, t', v, k + 1)
  {
    KeysOf(v + k);
    hide Px, MidKey, LowKey;
    RangeNext(v, k);
  }

  lemma NewTablesGrow(t: Tree, v: nat, j: nat, k: nat)
    requires j <= k
    ensures NewTables(t, v, j) <= NewTables(t, v, k)
  {
    SubsetSize(Mids(v, j) - t.mid.Keys, Mids(v, k) - t.mid.Keys);
    SubsetSize(Lows(v, j) - t.low.Keys, Lows(v, k) - t.low.Keys);
  }

  /** A page that is mapped has all its tables. */
  lemma MappedNeedsNone(ram: Ram, t: Tree, v: nat)
    requires TreeOk(ram, t) && IsValid(Entry(ram, t, v))
    ensures NewTables(t, v, 1) == 0
  {
    hide NewTables, Added;
    NothingAdded(t, v);
    NewTablesOne(t, t, v, 0);
  }

  /**
   k data pages from v on and their tables came off a free list of `before` pages; `after` are left.
   */
  predicate Paid(t: Tree, t': Tree, v: nat, k: nat, before: nat, after: nat) {
    Added(t, t', v, k) && after + k + NewTables(t, v, k) == before
  }

  lemma PaidNothing(t: Tree, v: nat, n: nat)
    ensures Paid(t, t, v, 0, n, n)
  {
    NothingAdded(t, v);
  }

  lemma PaidNext(t: Tree, t0: Tree, t': Tree, v: nat, k: nat, before: nat, mid: nat, after: nat)
    requires Paid(t, t0, v, k, before, mid)
    ensures 1 + NewTables(t0, v + k, 1) <= mid <==> k + 1 + NewTables(t, v, k + 1) <= before
    ensures mid == 0 ==> k + 1 + NewTables(t, v, k + 1) > before
    ensures Paid(t0, t', v + k, 1, mid, after) ==> Paid(t, t', v, k + 1, before, after)
  {
    hide Added, NewTables;
    NewTablesJoin(t, t0, v, k, 1);
    if Paid(t0, t', v + k, 1, mid, after) {
      AddedJoin(t, t0, t', v, k, 1);
    }
  }

  lemma LowKeySeen(k: nat)
    ensures LowKey(k) in Lows(0, k) <==> k % PTES != 0
  {
    if k % PTES != 0 {
      assert LowKey(k - 1) == LowKey(k) && k - 1 < k;
    } else {
      forall u: nat | u < k ensures LowKey(u) != LowKey(k) {
        assert u / PTES < k / PTES;
      }
    }
  }

  lemma TablesUp(k: nat)
    ensures (k + PTES) / PTES == (k + PTES - 1) / PTES + if k % PTES != 0 then 0 else 1
  {
  }

  lemma {:induction false} CountLows(n: nat)
    ensures |Lows(0, n)| == (n + PTES - 1) / PTES
  {
    hide Lows, LowKey, Mids, MidKey;
    if n == 0 {
      RangeNext(0, 0);
    } else {
      RangeNext(0, n - 1);
      CountLows(n - 1);
      LowKeySeen(n - 1);
      TablesUp(n - 1);
      assert LowKey(n - 1) in Lows(0, n - 1) ==> Lows(0, n) == Lows(0, n - 1);
    }
  }

  lemma FirstMid(n: nat)
    requires 0 < n <= PTES * PTES
    ensures Mids(0, n) == {0}
  {
    assert MidKey(0) in Mids(0, n);
  }

  /**
   A process's page table with only the two kernel pages has the last middle table and its last
   bottom table; n user pages from 0 on need one middle table and a bottom table for every 512.
   */
  lemma UserTables(t: Tree, n: nat)
    requires t.mid.Keys == {PAGES / PTES / PTES - 1} && t.low.Keys == {LowKey(PAGES - 1)} && 0 < n <= PTES * PTES
    ensures NewTables(t, 0, n) == 1 + (n + PTES - 1) / PTES
  {
    FirstMid(n);
    CountLows(n);
    forall u: nat | u < n ensures LowKey(u) != LowKey(PAGES - 1) {
    }
    hide MidKey, LowKey;
    assert Lows(0, n) - t.low.Keys == Lows(0, n);
    assert Mids(0, n) - t.mid.Keys == {0};
  }

  lemma RangeJoin(v: nat, j: nat, k: nat)
    ensures Mids(v, j + k) == Mids(v, j) + Mids(v + j, k) && Lows(v, j + k) == Lows(v, j) + Lows(v + j, k)
  {
    forall u: nat | v <= u < v + j + k
      ensures MidKey(u) in Mids(v, j) + Mids(v + j, k) && LowKey(u) in Lows(v, j) + Lows(v + j, k)
    {
      if u < v + j {
        assert MidKey(u) in Mids(v, j) && LowKey(u) in Lows(v, j);
      } else {
        assert MidKey(u) in Mids(v + j, k) && LowKey(u) in Lows(v + j, k);
      }
    }
    hide MidKey, LowKey;
    assert Mids(v, j) + Mids(v + j, k) <= Mids(v, j + k);
    assert Lows(v, j) + Lows(v + j, k) <= Lows(v, j + k);
  }

  lemma CountJoin<T>(a: set<T>, b: set<T>, all: set<T>, keys: set<T>, more: set<T>)
    requires more == keys + a && all == a + b
    ensures |all - keys| == |a - keys| + |b - more|
  {
    assert all - keys == (a - keys) + (b - more);
  }

  /** Growing in two steps costs what growing at once does. */
  lemma NewTablesJoin(t: Tree, t0: Tree, v: nat, j: nat, k: nat)
    requires Added(t, t0, v, j)
    ensures NewTables(t, v, j + k) == NewTables(t, v, j) + NewTables(t0, v + j, k)
  {
    hide Mids, Lows;
    RangeJoin(v, j, k);
    CountJoin(Mids(v, j), Mids(v + j, k), Mids(v, j + k), t.mid.Keys, t0.mid.Keys);
    CountJoin(Lows(v, j), Lows(v + j, k), Lows(v, j + k), t.low.Keys, t0.low.Keys);
  }

  lemma AddedJoin(t: Tree, t0: Tree, t': Tree, v: nat, j: nat, k: nat)
    requires Added(t, t0, v, j) && Added(t0, t', v + j, k)
    ensures Added(t, t', v, j + k)
  {
    hide Mids, Lows;
    RangeJoin(v, j, k);
  }
}
