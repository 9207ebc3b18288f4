/**
 Three-level page tables in physical pages, seen as a map from virtual page number to entry. The
 ghost `Tree` names the pages a root reaches; no page is reached twice.
 */
module PageTable {
  import opened Sv39
  import opened Kalloc

  /** mid[i] is the page behind root entry i, low[(i, j)] the page behind entry j of mid[i]. */
  datatype Tree = Tree(root: nat, mid: map<nat, nat>, low: map<(nat, nat), nat>)

  function Tables(t: Tree): set<nat> {
    {t.root} + Targets(t.mid) + Targets(t.low)
  }

  function Targets<K(==)>(m: map<K, nat>): set<nat> {
    set k | k in m :: m[k]
  }

  lemma TargetsWith<K>(m: map<K, nat>, k: K, pa: nat)
    requires k !in m
    ensures Targets(m[k := pa]) == Targets(m) + {pa}
  {
    forall x | x in Targets(m) + {pa} ensures x in Targets(m[k := pa]) {
      if x == pa {
        assert m[k := pa][k] == x;
      } else {
        var j :| j in m && m[j] == x;
        assert m[k := pa][j] == x;
      }
    }
  }

  predicate NotAliased(t: Tree) {
    && (forall i, j :: i in t.mid && j in t.mid && t.mid[i] == t.mid[j] ==> i == j)
    && (forall q, r :: q in t.low && r in t.low && t.low[q] == t.low[r] ==> q == r)
    && (forall i, q :: i in t.mid && q in t.low ==> t.mid[i] != t.low[q])
    && (forall i :: i in t.mid ==> t.mid[i] != t.root)
    && (forall q :: q in t.low ==> t.low[q] != t.root)
  }

  predicate InRange(t: Tree) {
    && (forall i :: i in t.mid ==> i < PTES)
    && (forall q :: q in t.low ==> q.0 in t.mid && q.1 < PTES)
  }

  predicate RootOk(ram: Ram, t: Tree) {
    && t.root in ram
    && forall i: nat :: i < PTES ==>
                          if i in t.mid then ram[t.root][i] == TablePte(t.mid[i]) else !IsValid(ram[t.root][i])
  }

  predicate MidOk(ram: Ram, t: Tree, i: nat)
    requires i in t.mid
  {
    && t.mid[i] in ram
    && forall j: nat :: j < PTES ==>
                          if (i, j) in t.low then ram[t.mid[i]][j] == TablePte(t.low[(i, j)])
                          else !IsValid(ram[t.mid[i]][j])
  }

  /** The pages of `ram` from t.root on form exactly the tree t. */
  predicate TreeOk(ram: Ram, t: Tree) {
    && InRange(t) && NotAliased(t)
    && RootOk(ram, t)
    && (forall i :: i in t.mid ==> MidOk(ram, t, i))
    && (forall q :: q in t.low ==> t.low[q] in ram)
    && (forall pa :: pa in ram ==> pa % PGSIZE == 0)
  }

  /** The middle table on the way to page number v. */
  function MidKey(v: nat): nat {
    v / PTES / PTES
  }

  /** The bottom table on the way to page number v. */
  function LowKey(v: nat): (nat, nat) {
    (v / PTES / PTES, v / PTES % PTES)
  }

  /** The entry for page number v, 0 where a table on the way is missing. */
  function Entry(ram: Ram, t: Tree, v: nat): nat {
    var q := (v / PTES / PTES, v / PTES % PTES);
    if q in t.low && t.low[q] in ram then ram[t.low[q]][v % PTES] else 0
  }

  /** The address space as a map from page number to valid entry. */
  function Space(ram: Ram, t: Tree): map<nat, nat> {
    map v: nat | 0 <= v < PAGES && IsValid(Entry(ram, t, v)) :: Entry(ram, t, v)
  }

  /** Writing an entry of a bottom table changes that translation and no other. */
  lemma SetEntry(ram: Ram, t: Tree, v: nat, pte: nat)
    requires TreeOk(ram, t)
    requires (v / PTES / PTES, v / PTES % PTES) in t.low
    ensures var page := t.low[(v / PTES / PTES, v / PTES % PTES)];
            var ram' := ram[page := ram[page][v % PTES := pte]];
            && TreeOk(ram', t)
            && Entry(ram', t, v) == pte
            && forall u: nat :: u != v ==> Entry(ram', t, u) == Entry(ram, t, u)
  {
    var page := t.low[(v / PTES / PTES, v / PTES % PTES)];
    var ram' := ram[page := ram[page][v % PTES := pte]];
    forall i | i in t.mid ensures MidOk(ram', t, i) {
      assert MidOk(ram, t, i);
    }
    forall u: nat | u != v ensures Entry(ram', t, u) == Entry(ram, t, u) {
      assert u == (u / PTES / PTES * PTES + u / PTES % PTES) * PTES + u % PTES;
    }
  }

  lemma Fresh(t: Tree, pa: nat)
    requires pa !in Tables(t)
    ensures pa != t.root && (forall i :: i in t.mid ==> t.mid[i] != pa) && (forall q :: q in t.low ==> t.low[q] != pa)
  {
  }

  lemma MidWithMid(ram: Ram, t: Tree, i: nat, pa: nat, k: nat)
    requires TreeOk(ram, t) && i < PTES && i !in t.mid && pa in ram && pa !in Tables(t) && (k in t.mid || k == i)
    ensures MidOk(ram[pa := Filled(0)][t.root := ram[t.root][i := TablePte(pa)]], t.(mid := t.mid[i := pa]), k)
  {
    Fresh(t, pa);
    if k in t.mid {
      assert MidOk(ram, t, k);
    }
  }

  lemma EntriesWithMid(ram: Ram, t: Tree, i: nat, pa: nat, w: Page)
    requires TreeOk(ram, t) && pa !in Tables(t)
    ensures forall v: nat ::
              Entry(ram[pa := Filled(0)][t.root := w], t.(mid := t.mid[i := pa]), v) == Entry(ram, t, v)
  {
    Fresh(t, pa);
  }

  /** Hanging a zeroed page under the root changes no translation. */
  lemma AddMid(ram: Ram, t: Tree, i: nat, pa: nat)
    requires TreeOk(ram, t) && i < PTES && i !in t.mid && pa in ram && pa !in Tables(t)
    ensures var ram' := ram[pa := Filled(0)][t.root := ram[t.root][i := TablePte(pa)]];
            var t' := t.(mid := t.mid[i := pa]);
            && TreeOk(ram', t')
            && forall v: nat :: Entry(ram', t', v) == Entry(ram, t, v)
  {
    var ram' := ram[pa := Filled(0)][t.root := ram[t.root][i := TablePte(pa)]];
    var t' := t.(mid := t.mid[i := pa]);
    Fresh(t, pa);
    EntriesWithMid(ram, t, i, pa, ram[t.root][i := TablePte(pa)]);
    forall k | k in t'.mid ensures MidOk(ram', t', k) {
      MidWithMid(ram, t, i, pa, k);
    }
  }

  lemma LowNotAliased(t: Tree, q: (nat, nat), pa: nat)
    requires NotAliased(t) && pa !in Tables(t)
    ensures NotAliased(t.(low := t.low[q := pa]))
  {
    Fresh(t, pa);
  }

  /** A zeroed bottom table reads like a missing one. */
  lemma EntriesWithLow(ram: Ram, t: Tree, i: nat, j: nat, pa: nat, w: Page)
    requires TreeOk(ram, t) && i in t.mid && (i, j) !in t.low && pa in ram && pa !in Tables(t)
    ensures forall v: nat ::
              Entry(ram[pa := Filled(0)][t.mid[i] := w], t.(low := t.low[(i, j) := pa]), v) == Entry(ram, t, v)
  {
    assert MidOk(ram, t, i);
    Fresh(t, pa);
    forall v: nat
      ensures Entry(ram[pa := Filled(0)][t.mid[i] := w], t.(low := t.low[(i, j) := pa]), v) == Entry(ram, t, v)
    {
      var q := (v / PTES / PTES, v / PTES % PTES);
      assert q in t.low ==> t.low[q] != pa && t.low[q] != t.mid[i];
    }
  }

  lemma MidWithLow(ram: Ram, t: Tree, i: nat, j: nat, pa: nat, k: nat)
    requires TreeOk(ram, t) && i in t.mid && j < PTES && pa in ram && pa !in Tables(t) && k in t.mid
    ensures t.mid[i] in ram
    ensures var ram' := ram[pa := Filled(0)][t.mid[i] := ram[t.mid[i]][j := TablePte(pa)]];
            MidOk(ram', t.(low := t.low[(i, j) := pa]), k)
  {
    assert MidOk(ram, t, i) && MidOk(ram, t, k);
    Fresh(t, pa);
  }

  lemma AddLowTree(ram: Ram, t: Tree, i: nat, j: nat, pa: nat)
    requires TreeOk(ram, t) && i in t.mid && j < PTES && pa in ram && pa !in Tables(t)
    ensures t.mid[i] in ram
    ensures TreeOk(ram[pa := Filled(0)][t.mid[i] := ram[t.mid[i]][j := TablePte(pa)]], t.(low := t.low[(i, j) := pa]))
  {
    assert MidOk(ram, t, i);
    var ram' := ram[pa := Filled(0)][t.mid[i] := ram[t.mid[i]][j := TablePte(pa)]];
    var t' := t.(low := t.low[(i, j) := pa]);
    LowNotAliased(t, (i, j), pa);
    Fresh(t, pa);
    forall k | k in t'.mid ensures MidOk(ram', t', k) {
      MidWithLow(ram, t, i, j, pa, k);
    }
  }

  /** Hanging a zeroed page under a middle table changes no translation. */
  lemma AddLow(ram: Ram, t: Tree, i: nat, j: nat, pa: nat)
    requires TreeOk(ram, t) && i in t.mid && j < PTES && (i, j) !in t.low && pa in ram && pa !in Tables(t)
    ensures t.mid[i] in ram
    ensures var ram' := ram[pa := Filled(0)][t.mid[i] := ram[t.mid[i]][j := TablePte(pa)]];
            var t' := t.(low := t.low[(i, j) := pa]);
            && TreeOk(ram', t')
            && forall v: nat :: Entry(ram', t', v) == Entry(ram, t, v)
  {
    AddLowTree(ram, t, i, j, pa);
    EntriesWithLow(ram, t, i, j, pa, ram[t.mid[i]][j := TablePte(pa)]);
  }

  /** Pages outside the tree can change freely. */
  lemma TreeFrame(ram: Ram, more: Ram, t: Tree)
    requires TreeOk(ram, t) && more.Keys == ram.Keys
    requires forall pa :: pa in Tables(t) && pa in ram ==> more[pa] == ram[pa]
    ensures TreeOk(more, t)
    ensures forall v: nat :: Entry(more, t, v) == Entry(ram, t, v)
  {
    forall i | i in t.mid ensures MidOk(more, t, i) {
      assert MidOk(ram, t, i);
      assert t.mid[i] in Tables(t);
    }
    forall v: nat ensures Entry(more, t, v) == Entry(ram, t, v) {
      var q := (v / PTES / PTES, v / PTES % PTES);
      if q in t.low {
        assert t.low[q] in Tables(t);
      }
    }
  }

  /** uvmcreate's zeroed root is an empty address space. */
  lemma EmptyTree(ram: Ram, root: nat)
    requires root in ram && ram[root] == Filled(0)
    requires forall pa :: pa in ram ==> pa % PGSIZE == 0
    ensures TreeOk(ram, Tree(root, map[], map[])) && Tables(Tree(root, map[], map[])) == {root}
    ensures Space(ram, Tree(root, map[], map[])) == map[]
  {
  }
}
