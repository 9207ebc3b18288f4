/**
 Link counts (create, sys_link, sys_unlink in kernel/src/sysfile.c) on the directory tree: inodes with a type,
 a link count and, for a directory, its entries as a map.
 */
module Links {
  import opened FsLayout
  import opened Collections
  import opened Blocks

  type Name = seq<Byte>

  const DOT: Name := [46]
  const DOTDOT: Name := [46, 46]

  datatype Node = Node(kind: nat, nlink: nat, ents: map<Name, nat>)

  type Tree = seq<Node>

  /** An entry: its directory and name. */
  datatype Ref = Ref(dir: nat, name: Name)

  predicate Directory(t: Tree, d: nat) {
    d < |t| && t[d].kind == I_DIR
  }

  predicate LinkedDir(t: Tree, d: nat) {
    d < |t| && t[d].kind == I_DIR && t[d].nlink > 0
  }

  /** An entry of a linked directory that leads to inode i. */
  predicate Leads(t: Tree, r: Ref, i: nat) {
    LinkedDir(t, r.dir) && r.name in t[r.dir].ents && t[r.dir].ents[r.name] == i
  }

  /** The entries of linked directories that lead to inode i, "." left out. */
  ghost function Refs(t: Tree, i: nat): set<Ref> {
    set d: nat, n | d < |t| && n in t[d].ents && n != DOT && Leads(t, Ref(d, n), i) :: Ref(d, n)
  }

  /** An entry that is neither "." nor "..". */
  predicate Proper(r: Ref) {
    r.name != DOT && r.name != DOTDOT
  }

  /** Every link count is the number of entries that lead there. */
  ghost predicate CountsOk(t: Tree) {
    forall i: nat :: 0 < i < |t| ==> t[i].nlink == |Refs(t, i)|
  }

  /** Entries of linked directories lead to allocated inodes. */
  ghost predicate TargetsOk(t: Tree) {
    forall r: Ref, i: nat {:trigger Leads(t, r, i)} :: Leads(t, r, i) ==> 0 < i < |t| && t[i].kind != 0
  }

  /** Entries lead to inodes there are, those of removed directories included. */
  predicate RangeOk(t: Tree) {
    forall d: nat, n :: d < |t| && n in t[d].ents ==> t[d].ents[n] < |t|
  }

  /** Directory p holds d under a proper name. */
  ghost predicate Holds(t: Tree, p: nat, d: nat) {
    exists n :: Proper(Ref(p, n)) && Leads(t, Ref(p, n), d)
  }

  /** "." is the directory itself; ".." is a directory that holds it, except at the root. */
  ghost predicate DotsOk(t: Tree) {
    && LinkedDir(t, ROOTINO)
    && (forall d: nat {:trigger LinkedDir(t, d)} :: LinkedDir(t, d) ==> Leads(t, Ref(d, DOT), d) && DOTDOT in t[d].ents)
    && (forall d: nat, p: nat {:trigger Leads(t, Ref(d, DOT), p)} :: Leads(t, Ref(d, DOT), p) ==> p == d)
    && (forall d: nat, p: nat {:trigger Leads(t, Ref(d, DOTDOT), p)} :: Leads(t, Ref(d, DOTDOT), p) ==>
         if d == ROOTINO then p == ROOTINO else Holds(t, p, d))
  }

  /** A directory is entered once, the root never. */
  ghost predicate OnceOk(t: Tree) {
    && (forall r: Ref {:trigger Leads(t, r, ROOTINO)} :: Proper(r) ==> !Leads(t, r, ROOTINO))
    && (forall i: nat, r: Ref, q: Ref {:trigger Leads(t, r, i), Leads(t, q, i)} ::
          i < |t| && t[i].kind == I_DIR && Proper(r) && Proper(q) && Leads(t, r, i) && Leads(t, q, i) ==> r == q)
  }

  /** A removed directory has its dots and nothing else. */
  predicate BareOk(t: Tree) {
    forall d: nat {:trigger t[d]} :: d < |t| && t[d].kind == I_DIR && t[d].nlink == 0 ==>
        DOT in t[d].ents && DOTDOT in t[d].ents && IsEmpty(t[d])
  }

  ghost predicate Inv(t: Tree) {
    CountsOk(t) && TargetsOk(t) && DotsOk(t) && OnceOk(t) && RangeOk(t) && BareOk(t)
  }

  lemma InRefs(t: Tree, i: nat, r: Ref)
    ensures r in Refs(t, i) <==> r.name != DOT && Leads(t, r, i)
  {
  }

  /** A link count grows by one when one entry is added, and shrinks by one when one is removed. */
  lemma OneMore(t: Tree, t': Tree, i: nat, r: Ref)
    requires forall q: Ref :: q.name != DOT ==> (Leads(t', q, i) <==> q == r || Leads(t, q, i))
    requires r.name != DOT && !Leads(t, r, i)
    ensures |Refs(t', i)| == |Refs(t, i)| + 1
  {
    hide Leads;
    forall q: Ref ensures q in Refs(t', i) <==> q == r || q in Refs(t, i) {
      InRefs(t, i, q);
      InRefs(t', i, q);
    }
    InRefs(t, i, r);
    assert Refs(t', i) == Refs(t, i) + {r};
  }

  lemma SameRefs(t: Tree, t': Tree, i: nat)
    requires forall q: Ref :: q.name != DOT ==> (Leads(t', q, i) <==> Leads(t, q, i))
    ensures Refs(t', i) == Refs(t, i)
  {
    hide Leads;
    forall q: Ref ensures q in Refs(t', i) <==> q in Refs(t, i) {
      InRefs(t, i, q);
      InRefs(t', i, q);
    }
  }

  /** A free inode is led to by nothing. */
  lemma FreeIsAlone(t: Tree, i: nat, r: Ref)
    requires TargetsOk(t) && i < |t| && t[i].kind == 0
    ensures !Leads(t, r, i)
  {
  }

  // create.

  function WithEntry(x: Node, n: Name, i: nat): Node {
    x.(ents := x.ents[n := i])
  }

  /** A proper entry r leading to i was added; apart from i, types and linked directories stayed. */
  ghost predicate Added(t: Tree, t': Tree, r: Ref, i: nat) {
    && |t'| == |t| && 0 < i < |t| && t'[i].kind != 0 && t'[i].kind != I_DIR && t[i].kind != I_DIR && Proper(r)
    && (forall j: nat :: j < |t| && j != i ==> t'[j].kind == t[j].kind && t'[j].nlink == t[j].nlink)
    && (forall d: nat {:trigger LinkedDir(t', d)} {:trigger LinkedDir(t, d)} :: LinkedDir(t', d) <==> LinkedDir(t, d))
    && (forall d: nat {:trigger t'[d].ents} :: LinkedDir(t, d) && DOTDOT in t[d].ents ==> DOTDOT in t'[d].ents)
    && !Leads(t, r, i)
    && forall q: Ref, j: nat {:trigger Leads(t', q, j)} {:trigger Leads(t, q, j)} :: Leads(t', q, j) <==>
         (q == r && j == i) || Leads(t, q, j)
  }

  lemma AddedCounts(t: Tree, t': Tree, r: Ref, i: nat)
    requires CountsOk(t) && Added(t, t', r, i) && t'[i].nlink == |Refs(t, i)| + 1
    ensures CountsOk(t')
  {
    hide Leads, LinkedDir, Refs;
    forall j: nat | 0 < j < |t| ensures t'[j].nlink == |Refs(t', j)| {
      if j == i {
        OneMore(t, t', i, r);
      } else {
        SameRefs(t, t', j);
      }
    }
  }

  lemma AddedHolds(t: Tree, t': Tree, r: Ref, i: nat, p: nat, d: nat)
    requires Added(t, t', r, i) && Holds(t, p, d)
    ensures Holds(t', p, d)
  {
    hide Leads, LinkedDir, Proper;
    var n :| Proper(Ref(p, n)) && Leads(t, Ref(p, n), d);
    assert Leads(t', Ref(p, n), d);
  }

  lemma AddedShape(t: Tree, t': Tree, r: Ref, i: nat)
    requires TargetsOk(t) && DotsOk(t) && OnceOk(t) && Added(t, t', r, i)
    ensures TargetsOk(t') && DotsOk(t') && OnceOk(t')
  {
    hide Leads, LinkedDir, Holds;
    assert r.name != DOTDOT && r.name != DOT;
    forall d: nat, p: nat | Leads(t', Ref(d, DOTDOT), p)
      ensures if d == ROOTINO then p == ROOTINO else Holds(t', p, d)
    {
      assert Leads(t, Ref(d, DOTDOT), p);
      if d != ROOTINO {
        AddedHolds(t, t', r, i, p, d);
      }
    }
    assert LinkedDir(t, ROOTINO);
    RootIsDir(t);
  }

  lemma RootIsDir(t: Tree)
    requires LinkedDir(t, ROOTINO)
    ensures ROOTINO < |t| && t[ROOTINO].kind == I_DIR
  {
  }

  /** create of a file or device that gets inode i. */
  function AddFile(t: Tree, dp: nat, n: Name, i: nat, kind: nat): Tree
    requires dp < |t| && i < |t| && dp != i
  {
    t[i := Node(kind, 1, map[])][dp := WithEntry(t[dp], n, i)]
  }

  lemma AddFileAdds(t: Tree, dp: nat, n: Name, i: nat, kind: nat)
    requires TargetsOk(t) && LinkedDir(t, dp) && n !in t[dp].ents && 0 < i < |t| && t[i].kind == 0 && kind != 0
    requires kind != I_DIR && Proper(Ref(dp, n))
    ensures dp != i && Added(t, AddFile(t, dp, n, i, kind), Ref(dp, n), i)
  {
    var t' := AddFile(t, dp, n, i, kind);
    forall q: Ref, j: nat ensures Leads(t', q, j) <==> (q == Ref(dp, n) && j == i) || Leads(t, q, j) {
      FreeIsAlone(t, i, q);
    }
  }

  lemma FreeRefs(t: Tree, i: nat)
    requires TargetsOk(t) && i < |t| && t[i].kind == 0
    ensures Refs(t, i) == {}
  {
    forall r: Ref ensures r !in Refs(t, i) {
      FreeIsAlone(t, i, r);
    }
  }

  lemma AddFileKeeps(t: Tree, dp: nat, n: Name, i: nat, kind: nat)
    requires Inv(t) && LinkedDir(t, dp) && n !in t[dp].ents && 0 < i < |t| && t[i].kind == 0 && kind != 0
    requires kind != I_DIR && Proper(Ref(dp, n))
    ensures dp != i && Inv(AddFile(t, dp, n, i, kind))
  {
    hide CountsOk, TargetsOk, DotsOk, OnceOk, Added, Refs;
    AddFileAdds(t, dp, n, i, kind);
    FreeRefs(t, i);
    AddedCounts(t, AddFile(t, dp, n, i, kind), Ref(dp, n), i);
    AddedShape(t, AddFile(t, dp, n, i, kind), Ref(dp, n), i);
  }

  // sys_link.

  /** sys_link: the count of i goes up and dp gets the name. */
  function AddLink(t: Tree, dp: nat, n: Name, i: nat): Tree
    requires dp < |t| && i < |t| && dp != i
  {
    t[i := t[i].(nlink := t[i].nlink + 1)][dp := WithEntry(t[dp], n, i)]
  }

  lemma AddLinkAdds(t: Tree, dp: nat, n: Name, i: nat)
    requires LinkedDir(t, dp) && n !in t[dp].ents && 0 < i < |t| && t[i].kind != 0 && t[i].kind != I_DIR
    requires Proper(Ref(dp, n))
    ensures dp != i && Added(t, AddLink(t, dp, n, i), Ref(dp, n), i)
  {
  }

  lemma AddLinkKeeps(t: Tree, dp: nat, n: Name, i: nat)
    requires Inv(t) && LinkedDir(t, dp) && n !in t[dp].ents && 0 < i < |t| && t[i].kind != 0 && t[i].kind != I_DIR
    requires Proper(Ref(dp, n))
    ensures dp != i && Inv(AddLink(t, dp, n, i))
  {
    hide TargetsOk, DotsOk, OnceOk, Added, Refs;
    AddLinkAdds(t, dp, n, i);
    assert t[i].nlink == |Refs(t, i)|;
    hide CountsOk;
    AddedCounts(t, AddLink(t, dp, n, i), Ref(dp, n), i);
    AddedShape(t, AddLink(t, dp, n, i), Ref(dp, n), i);
  }

  // mkdir.

  /** create of a directory that gets inode i. */
  function AddDir(t: Tree, dp: nat, n: Name, i: nat): Tree
    requires dp < |t| && i < |t| && dp != i
  {
    t[i := Node(I_DIR, 1, map[DOT := i, DOTDOT := dp])][dp := WithEntry(t[dp], n, i).(nlink := t[dp].nlink + 1)]
  }

  /** What mkdir changes about entries and directories. */
  ghost predicate Grafted(t: Tree, t': Tree, dp: nat, n: Name, i: nat) {
    && |t'| == |t| && 0 < i < |t| && dp < |t| && dp != i && t[i].kind == 0 && t'[i].kind == I_DIR && Proper(Ref(dp, n))
    && LinkedDir(t, dp)
    && (forall j: nat :: j < |t| && j != i ==> t'[j].kind == t[j].kind)
    && (forall d: nat {:trigger LinkedDir(t', d)} {:trigger LinkedDir(t, d)} :: LinkedDir(t', d) <==>
         d == i || LinkedDir(t, d))
    && DOTDOT in t'[i].ents
    && (forall d: nat {:trigger t'[d].ents} :: LinkedDir(t, d) && DOTDOT in t[d].ents ==> DOTDOT in t'[d].ents)
    && forall q: Ref, j: nat {:trigger Leads(t', q, j)} {:trigger Leads(t, q, j)} ::
         Leads(t', q, j) <==>
           || (q == Ref(dp, n) && j == i) || (q == Ref(i, DOT) && j == i)
           || (q == Ref(i, DOTDOT) && j == dp) || Leads(t, q, j)
  }

  lemma AddDirGrafts(t: Tree, dp: nat, n: Name, i: nat)
    requires TargetsOk(t) && LinkedDir(t, dp) && n !in t[dp].ents && 0 < i < |t| && t[i].kind == 0 && Proper(Ref(dp, n))
    ensures dp != i && Grafted(t, AddDir(t, dp, n, i), dp, n, i)
  {
    var t' := AddDir(t, dp, n, i);
    assert !LinkedDir(t, i);
  }

  /** Nothing is inside, or leads to, a free inode. */
  lemma FreeIsBare(t: Tree, i: nat)
    requires TargetsOk(t) && i < |t| && t[i].kind == 0
    ensures forall q: Ref, j: nat {:trigger Leads(t, q, j)} :: Leads(t, q, j) ==> q.dir != i && j != i
  {
  }

  lemma GraftedCounts(t: Tree, t': Tree, dp: nat, n: Name, i: nat)
    requires CountsOk(t) && TargetsOk(t) && Grafted(t, t', dp, n, i) && t'[i].nlink == 1
    requires t'[dp].nlink == t[dp].nlink + 1 && dp > 0
    requires forall j: nat :: j < |t| && j != i && j != dp ==> t'[j].nlink == t[j].nlink
    ensures CountsOk(t')
  {
    FreeIsBare(t, i);
    FreeRefs(t, i);
    hide Leads, LinkedDir, Refs, TargetsOk;
    forall j: nat | 0 < j < |t| ensures t'[j].nlink == |Refs(t', j)| {
      if j == i {
        OneMore(t, t', i, Ref(dp, n));
      } else if j == dp {
        OneMore(t, t', dp, Ref(i, DOTDOT));
      } else {
        SameRefs(t, t', j);
      }
    }
  }

  lemma GraftedHolds(t: Tree, t': Tree, dp: nat, n: Name, i: nat, p: nat, d: nat)
    requires Grafted(t, t', dp, n, i) && (Holds(t, p, d) || (p == dp && d == i))
    ensures Holds(t', p, d)
  {
    hide Leads, LinkedDir, Proper;
    if p == dp && d == i {
      assert Leads(t', Ref(dp, n), i);
    } else {
      var m :| Proper(Ref(p, m)) && Leads(t, Ref(p, m), d);
      assert Leads(t', Ref(p, m), d);
    }
  }

  lemma GraftedShape(t: Tree, t': Tree, dp: nat, n: Name, i: nat)
    requires TargetsOk(t) && DotsOk(t) && OnceOk(t) && Grafted(t, t', dp, n, i) && dp > 0
    ensures TargetsOk(t') && DotsOk(t') && OnceOk(t')
  {
    FreeIsBare(t, i);
    RootIsDir(t);
    assert t[dp].kind == I_DIR;
    hide Leads, LinkedDir, Holds;
    forall d: nat, p: nat | Leads(t', Ref(d, DOTDOT), p)
      ensures if d == ROOTINO then p == ROOTINO else Holds(t', p, d)
    {
      if d == i {
        GraftedHolds(t, t', dp, n, i, dp, i);
      } else {
        assert Leads(t, Ref(d, DOTDOT), p);
        if d != ROOTINO {
          GraftedHolds(t, t', dp, n, i, p, d);
        }
      }
    }
    assert TargetsOk(t');
    assert OnceOk(t');
  }

  lemma AddDirKeeps(t: Tree, dp: nat, n: Name, i: nat)
    requires Inv(t) && 0 < dp && LinkedDir(t, dp) && n !in t[dp].ents && 0 < i < |t| && t[i].kind == 0
    requires Proper(Ref(dp, n))
    ensures dp != i && Inv(AddDir(t, dp, n, i))
  {
    hide CountsOk, TargetsOk, DotsOk, OnceOk, Grafted;
    AddDirGrafts(t, dp, n, i);
    GraftedCounts(t, AddDir(t, dp, n, i), dp, n, i);
    GraftedShape(t, AddDir(t, dp, n, i), dp, n, i);
  }

  // sys_unlink.

  function Without(x: Node, n: Name): Node {
    x.(ents := map m | m in x.ents && m != n :: x.ents[m])
  }

  /** sys_unlink of something that is not a directory. */
  function RemoveFile(t: Tree, dp: nat, n: Name, i: nat): Tree
    requires dp < |t| && i < |t| && dp != i && t[i].nlink > 0
  {
    t[i := t[i].(nlink := t[i].nlink - 1)][dp := Without(t[dp], n)]
  }

  /** Taking the entry out again is adding it, seen backwards. */
  lemma RemoveFileRemoves(t: Tree, dp: nat, n: Name, i: nat)
    requires LinkedDir(t, dp) && n in t[dp].ents && t[dp].ents[n] == i && 0 < i < |t| && t[i].kind != 0
    requires t[i].kind != I_DIR && Proper(Ref(dp, n)) && t[i].nlink > 0
    ensures dp != i && Added(RemoveFile(t, dp, n, i), t, Ref(dp, n), i)
  {
  }

  lemma RemovedCounts(t: Tree, t': Tree, r: Ref, i: nat)
    requires CountsOk(t) && Added(t', t, r, i) && t'[i].nlink == t[i].nlink - 1
    ensures CountsOk(t')
  {
    hide Leads, LinkedDir, Refs;
    forall j: nat | 0 < j < |t| ensures t'[j].nlink == |Refs(t', j)| {
      if j == i {
        OneMore(t', t, i, r);
      } else {
        SameRefs(t, t', j);
      }
    }
  }

  lemma RemovedHolds(t: Tree, t': Tree, r: Ref, i: nat, p: nat, d: nat)
    requires Added(t', t, r, i) && Holds(t, p, d) && d < |t| && t[d].kind == I_DIR
    ensures Holds(t', p, d)
  {
    hide Leads, LinkedDir, Proper;
    var n :| Proper(Ref(p, n)) && Leads(t, Ref(p, n), d);
    assert Leads(t', Ref(p, n), d);
  }

  lemma RemovedShape(t: Tree, t': Tree, r: Ref, i: nat)
    requires TargetsOk(t) && DotsOk(t) && OnceOk(t) && Added(t', t, r, i) && t'[i].kind == t[i].kind
    requires forall d: nat :: LinkedDir(t', d) ==> DOTDOT in t'[d].ents
    ensures TargetsOk(t') && DotsOk(t') && OnceOk(t')
  {
    assert forall d: nat {:trigger LinkedDir(t, d)} :: LinkedDir(t, d) ==> d < |t| && t[d].kind == I_DIR;
    hide Leads, Holds;
    forall d: nat, p: nat | Leads(t', Ref(d, DOTDOT), p)
      ensures if d == ROOTINO then p == ROOTINO else Holds(t', p, d)
    {
      assert Leads(t, Ref(d, DOTDOT), p);
      LeadsFrom(t', Ref(d, DOTDOT), p);
      if d != ROOTINO {
        RemovedHolds(t, t', r, i, p, d);
      }
    }
    hide LinkedDir;
  }

  lemma LeadsFrom(t: Tree, r: Ref, i: nat)
    requires Leads(t, r, i)
    ensures LinkedDir(t, r.dir)
  {
  }

  lemma RemoveFileKeeps(t: Tree, dp: nat, n: Name, i: nat)
    requires Inv(t) && LinkedDir(t, dp) && n in t[dp].ents && t[dp].ents[n] == i && Proper(Ref(dp, n)) && i < |t|
    requires t[i].kind != I_DIR
    ensures 0 < i && dp != i && t[i].nlink > 0 && Inv(RemoveFile(t, dp, n, i))
  {
    hide CountsOk, TargetsOk, DotsOk, OnceOk, Added, Refs;
    LedTo(t, Ref(dp, n), i);
    RemoveFileRemoves(t, dp, n, i);
    var t' := RemoveFile(t, dp, n, i);
    DotsStay(t, dp, n, i);
    hide RemoveFile, LinkedDir, Leads;
    RemovedCounts(t, t', Ref(dp, n), i);
    RemovedShape(t, t', Ref(dp, n), i);
  }

  /** What is led to is allocated and has a link. */
  lemma LedTo(t: Tree, r: Ref, i: nat)
    requires Inv(t) && Leads(t, r, i) && Proper(r)
    ensures 0 < i < |t| && t[i].kind != 0 && t[i].nlink > 0
  {
    hide DotsOk, OnceOk, Leads, Refs;
    InRefs(t, i, r);
  }

  lemma DotsStay(t: Tree, dp: nat, n: Name, i: nat)
    requires DotsOk(t) && LinkedDir(t, dp) && i < |t| && t[i].kind != I_DIR && dp != i && t[i].nlink > 0
    requires Proper(Ref(dp, n))
    ensures forall d: nat :: LinkedDir(RemoveFile(t, dp, n, i), d) ==> DOTDOT in RemoveFile(t, dp, n, i)[d].ents
  {
    var t' := RemoveFile(t, dp, n, i);
    forall d: nat | LinkedDir(t', d) ensures DOTDOT in t'[d].ents {
      assert LinkedDir(t, d);
    }
  }

  /** The directory holds nothing but "." and "..". */
  predicate IsEmpty(x: Node) {
    forall n :: n in x.ents ==> n == DOT || n == DOTDOT
  }

  /** sys_unlink of an empty directory. */
  function RemoveDir(t: Tree, dp: nat, n: Name, i: nat): Tree
    requires dp < |t| && i < |t| && dp != i && t[i].nlink > 0 && t[dp].nlink > 0
  {
    t[i := t[i].(nlink := t[i].nlink - 1)][dp := Without(t[dp], n).(nlink := t[dp].nlink - 1)]
  }

  /** An empty directory is led to by its one entry only, and its ".." is the directory with that entry. */
  lemma EmptyDirRefs(t: Tree, dp: nat, n: Name, i: nat)
    requires Inv(t) && Leads(t, Ref(dp, n), i) && Proper(Ref(dp, n)) && i < |t| && t[i].kind == I_DIR && IsEmpty(t[i])
    ensures i != ROOTINO && 0 < i && Refs(t, i) == {Ref(dp, n)} && t[i].nlink == 1 && dp != i
    ensures Leads(t, Ref(i, DOTDOT), dp)
  {
    hide CountsOk;
    forall q: Ref ensures q in Refs(t, i) <==> q == Ref(dp, n) {
      InRefs(t, i, q);
      if Leads(t, q, i) && q.name == DOTDOT {
        if q.dir != ROOTINO {
          assert Leads(t, Ref(q.dir, DOTDOT), i);
          HoldsNothing(t, i, q.dir);
        }
      }
    }
    assert Refs(t, i) == {Ref(dp, n)};
    assert t[i].nlink == 1 by {
      CountOf(t, i);
    }
    EmptyDirParent(t, dp, n, i);
  }

  lemma CountOf(t: Tree, i: nat)
    requires CountsOk(t) && 0 < i < |t|
    ensures t[i].nlink == |Refs(t, i)|
  {
  }

  lemma HoldsNothing(t: Tree, p: nat, d: nat)
    requires p < |t| && IsEmpty(t[p])
    ensures !Holds(t, p, d)
  {
  }

  lemma EmptyDirParent(t: Tree, dp: nat, n: Name, i: nat)
    requires DotsOk(t) && OnceOk(t) && Leads(t, Ref(dp, n), i) && Proper(Ref(dp, n)) && i < |t| && LinkedDir(t, i)
    ensures Leads(t, Ref(i, DOTDOT), dp) && i != ROOTINO
  {
    var p := t[i].ents[DOTDOT];
    assert Leads(t, Ref(i, DOTDOT), p);
    assert i != ROOTINO && Holds(t, p, i);
    var m :| Proper(Ref(p, m)) && Leads(t, Ref(p, m), i);
  }

  /** A directory that holds a directory is led to at least twice. */
  lemma ParentCount(t: Tree, dp: nat, i: nat)
    requires Inv(t) && 0 < dp && LinkedDir(t, dp) && Leads(t, Ref(i, DOTDOT), dp) && i != dp
    ensures t[dp].nlink >= 2
  {
    hide CountsOk, TargetsOk, DotsOk, OnceOk, Refs;
    AnotherRef(t, dp, i);
    hide LinkedDir;
    TwoRefs(t, dp, Ref(i, DOTDOT));
    CountAt(t, dp);
  }

  lemma CountAt(t: Tree, i: nat)
    requires CountsOk(t) && i > 0 && LinkedDir(t, i)
    ensures t[i].nlink == |Refs(t, i)|
  {
    hide Refs;
  }

  lemma TwoRefs(t: Tree, i: nat, a: Ref)
    requires a.name != DOT && Leads(t, a, i) && exists b: Ref :: b != a && b.name != DOT && Leads(t, b, i)
    ensures |Refs(t, i)| >= 2
  {
    hide Leads, Refs;
    var b: Ref :| b != a && b.name != DOT && Leads(t, b, i);
    InRefs(t, i, a);
    InRefs(t, i, b);
    assert {a, b} <= Refs(t, i) && |{a, b}| == 2;
    SubsetSize({a, b}, Refs(t, i));
  }

  lemma AnotherRef(t: Tree, dp: nat, i: nat)
    requires DotsOk(t) && LinkedDir(t, dp) && i != dp
    ensures exists b: Ref :: b != Ref(i, DOTDOT) && b.name != DOT && Leads(t, b, dp)
  {
    if dp == ROOTINO {
      assert Leads(t, Ref(ROOTINO, DOTDOT), t[ROOTINO].ents[DOTDOT]);
      assert Leads(t, Ref(ROOTINO, DOTDOT), dp);
    } else {
      var p := t[dp].ents[DOTDOT];
      assert Leads(t, Ref(dp, DOTDOT), p);
      var m :| Proper(Ref(p, m)) && Leads(t, Ref(p, m), dp);
      assert Ref(p, m) != Ref(i, DOTDOT);
    }
  }

  /** What removing directory i changes about entries and directories. */
  ghost predicate Pruned(t: Tree, t': Tree, dp: nat, n: Name, i: nat) {
    && |t'| == |t| && 0 < i < |t| && 0 < dp < |t| && dp != i && i != ROOTINO && LinkedDir(t, i)
    && (forall j: nat :: j < |t| ==> t'[j].kind == t[j].kind)
    && (forall d: nat {:trigger LinkedDir(t', d)} {:trigger LinkedDir(t, d)} :: LinkedDir(t', d) <==>
         LinkedDir(t, d) && d != i)
    && (forall d: nat {:trigger t'[d].ents} :: LinkedDir(t, d) && d != i && DOTDOT in t[d].ents ==>
         DOTDOT in t'[d].ents)
    && Leads(t, Ref(dp, n), i) && Proper(Ref(dp, n)) && Leads(t, Ref(i, DOTDOT), dp)
    && (forall q: Ref, j: nat {:trigger Leads(t, q, j)} :: Leads(t, q, j) && q.dir == i ==> !Proper(q))
    && (forall q: Ref {:trigger Leads(t, q, i)} :: Leads(t, q, i) && q.name != DOT ==> q == Ref(dp, n))
    && forall q: Ref, j: nat {:trigger Leads(t', q, j)} {:trigger Leads(t, q, j)} ::
         Leads(t', q, j) <==> Leads(t, q, j) && q != Ref(dp, n) && q.dir != i
  }

  lemma RemoveDirPrunes(t: Tree, dp: nat, n: Name, i: nat)
    requires LinkedDir(t, dp) && t[dp].nlink >= 2 && 0 < dp && Leads(t, Ref(dp, n), i) && Proper(Ref(dp, n))
    requires Leads(t, Ref(i, DOTDOT), dp)
    requires 0 < i < |t| && i != ROOTINO && t[i].kind == I_DIR && t[i].nlink == 1 && IsEmpty(t[i]) && dp != i
    requires forall q: Ref {:trigger Leads(t, q, i)} :: Leads(t, q, i) && q.name != DOT ==> q == Ref(dp, n)
    ensures Pruned(t, RemoveDir(t, dp, n, i), dp, n, i)
  {
  }

  lemma PrunedCounts(t: Tree, t': Tree, dp: nat, n: Name, i: nat)
    requires CountsOk(t) && Pruned(t, t', dp, n, i) && t'[i].nlink == t[i].nlink - 1 && t'[dp].nlink == t[dp].nlink - 1
    requires forall j: nat :: j < |t| && j != i && j != dp ==> t'[j].nlink == t[j].nlink
    requires forall j: nat :: Leads(t, Ref(i, DOTDOT), j) ==> j == dp
    requires forall j: nat :: Leads(t, Ref(dp, n), j) ==> j == i
    ensures CountsOk(t')
  {
    hide Leads, LinkedDir, Refs;
    forall j: nat | 0 < j < |t| ensures t'[j].nlink == |Refs(t', j)| {
      if j == i {
        OneMore(t', t, i, Ref(dp, n));
      } else if j == dp {
        OneMore(t', t, dp, Ref(i, DOTDOT));
      } else {
        SameRefs(t, t', j);
      }
    }
  }

  lemma PrunedHolds(t: Tree, t': Tree, dp: nat, n: Name, i: nat, p: nat, d: nat)
    requires Pruned(t, t', dp, n, i) && Holds(t, p, d) && d != i
    requires forall j: nat, k: nat {:trigger Leads(t, Ref(dp, n), j), Leads(t, Ref(dp, n), k)} ::
              Leads(t, Ref(dp, n), j) && Leads(t, Ref(dp, n), k) ==> j == k
    ensures Holds(t', p, d)
  {
    hide Leads, LinkedDir;
    var m :| Proper(Ref(p, m)) && Leads(t, Ref(p, m), d);
    assert Leads(t', Ref(p, m), d);
  }

  lemma OneTarget(t: Tree, r: Ref, j: nat, k: nat)
    requires Leads(t, r, j) && Leads(t, r, k)
    ensures j == k
  {
  }

  lemma PrunedShape(t: Tree, t': Tree, dp: nat, n: Name, i: nat)
    requires TargetsOk(t) && DotsOk(t) && OnceOk(t) && Pruned(t, t', dp, n, i)
    ensures TargetsOk(t') && DotsOk(t') && OnceOk(t')
  {
    forall j: nat, k: nat | Leads(t, Ref(dp, n), j) && Leads(t, Ref(dp, n), k) ensures j == k {
      OneTarget(t, Ref(dp, n), j, k);
    }
    hide Leads, LinkedDir, Holds;
    forall d: nat, p: nat | Leads(t', Ref(d, DOTDOT), p)
      ensures if d == ROOTINO then p == ROOTINO else Holds(t', p, d)
    {
      assert Leads(t, Ref(d, DOTDOT), p);
      if d != ROOTINO {
        PrunedHolds(t, t', dp, n, i, p, d);
      }
    }
  }

  /** Removing an empty directory keeps the counts; the removed directory ends with no links at all. */
  lemma RemoveDirKeeps(t: Tree, dp: nat, n: Name, i: nat)
    requires Inv(t) && 0 < dp && Leads(t, Ref(dp, n), i) && Proper(Ref(dp, n)) && i < |t| && t[i].kind == I_DIR
    requires IsEmpty(t[i])
    ensures dp < |t| && dp != i && t[i].nlink == 1 && t[dp].nlink > 1 && Inv(RemoveDir(t, dp, n, i))
    ensures RemoveDir(t, dp, n, i)[i].nlink == 0
  {
    hide CountsOk, TargetsOk, DotsOk, OnceOk, Refs, IsEmpty;
    EmptyDirRefs(t, dp, n, i);
    LeadsFrom(t, Ref(dp, n), i);
    ParentCount(t, dp, i);
    OnlyThese(t, dp, n, i);
    RemoveDirBare(t, dp, n, i);
    RemoveDirPrunes(t, dp, n, i);
    var t' := RemoveDir(t, dp, n, i);
    hide Pruned, Leads, LinkedDir, BareOk;
    PrunedCounts(t, t', dp, n, i);
    PrunedShape(t, t', dp, n, i);
  }

  /** Every directory has its dots, linked or not. */
  lemma HasDots(t: Tree, d: nat)
    requires DotsOk(t) && BareOk(t) && Directory(t, d)
    ensures DOT in t[d].ents && DOTDOT in t[d].ents
  {
    if t[d].nlink > 0 {
      assert LinkedDir(t, d) && Leads(t, Ref(d, DOT), d);
    }
  }

  lemma RemoveDirBare(t: Tree, dp: nat, n: Name, i: nat)
    requires DotsOk(t) && BareOk(t) && dp < |t| && t[dp].nlink > 1 && dp != i && i < |t| && t[i].kind == I_DIR
    requires IsEmpty(t[i]) && t[i].nlink > 0
    ensures BareOk(RemoveDir(t, dp, n, i))
  {
    HasDots(t, i);
  }

  /** The entries that tie an empty directory to its parent, and no others. */
  lemma OnlyThese(t: Tree, dp: nat, n: Name, i: nat)
    requires Refs(t, i) == {Ref(dp, n)} && Leads(t, Ref(dp, n), i) && Leads(t, Ref(i, DOTDOT), dp)
    ensures forall q: Ref {:trigger Leads(t, q, i)} :: Leads(t, q, i) && q.name != DOT ==> q == Ref(dp, n)
    ensures forall j: nat :: Leads(t, Ref(i, DOTDOT), j) ==> j == dp
    ensures forall j: nat :: Leads(t, Ref(dp, n), j) ==> j == i
  {
    hide Refs;
    forall q: Ref | Leads(t, q, i) && q.name != DOT ensures q == Ref(dp, n) {
      InRefs(t, i, q);
    }
  }

  /** iput of an inode without links: it becomes free. */
  function Freed(t: Tree, i: nat): Tree
    requires i < |t|
  {
    t[i := Node(0, 0, map[])]
  }

  lemma FreedKeeps(t: Tree, i: nat)
    requires Inv(t) && 0 < i < |t| && t[i].nlink == 0
    ensures Inv(Freed(t, i))
  {
    hide Refs;
    var t' := Freed(t, i);
    FreedLeads(t, i);
    hide TargetsOk, DotsOk, OnceOk, Leads;
    FreedShape(t, t', i);
    forall j: nat | 0 < j < |t| ensures t'[j].nlink == |Refs(t', j)| {
      SameRefs(t, t', j);
    }
  }

  /** An inode without links is led to by nothing, and nothing in it counts. */
  lemma FreedLeads(t: Tree, i: nat)
    requires CountsOk(t) && DotsOk(t) && 0 < i < |t| && t[i].nlink == 0
    ensures forall q: Ref, j: nat {:trigger Leads(Freed(t, i), q, j)} {:trigger Leads(t, q, j)} ::
              Leads(Freed(t, i), q, j) <==> Leads(t, q, j)
    ensures forall q: Ref {:trigger Leads(t, q, i)} :: !Leads(t, q, i)
  {
    CountOf(t, i);
    assert Refs(t, i) == {};
    forall q: Ref ensures !Leads(t, q, i) {
      InRefs(t, i, q);
      NotByDot(t, q, i);
    }
  }

  lemma NotByDot(t: Tree, q: Ref, i: nat)
    requires DotsOk(t) && i < |t| && t[i].nlink == 0
    ensures q.name == DOT ==> !Leads(t, q, i)
  {
    assert q.name == DOT ==> q == Ref(q.dir, DOT);
  }

  lemma FreedShape(t: Tree, t': Tree, i: nat)
    requires TargetsOk(t) && DotsOk(t) && OnceOk(t) && i < |t| && t[i].nlink == 0 && t' == Freed(t, i)
    requires forall q: Ref, j: nat {:trigger Leads(t', q, j)} {:trigger Leads(t, q, j)} :: Leads(t', q, j) <==>
              Leads(t, q, j)
    requires forall q: Ref {:trigger Leads(t, q, i)} :: !Leads(t, q, i)
    ensures TargetsOk(t') && DotsOk(t') && OnceOk(t')
  {
    assert forall d: nat {:trigger LinkedDir(t', d)} :: LinkedDir(t', d) <==> LinkedDir(t, d);
    assert forall d: nat :: LinkedDir(t, d) ==> t'[d] == t[d];
    hide Leads, Holds;
    forall d: nat, p: nat | Leads(t', Ref(d, DOTDOT), p)
      ensures if d == ROOTINO then p == ROOTINO else Holds(t', p, d)
    {
      assert Leads(t, Ref(d, DOTDOT), p);
      if d != ROOTINO {
        SameHolds(t, t', p, d);
      }
    }
    hide LinkedDir;
  }

  lemma SameHolds(t: Tree, t': Tree, p: nat, d: nat)
    requires Holds(t, p, d)
    requires forall q: Ref, j: nat {:trigger Leads(t', q, j)} {:trigger Leads(t, q, j)} :: Leads(t', q, j) <==>
              Leads(t, q, j)
    ensures Holds(t', p, d)
  {
    hide Leads;
    var m :| Proper(Ref(p, m)) && Leads(t, Ref(p, m), d);
    assert Leads(t', Ref(p, m), d);
  }

  /** A name added in a directory that is itself removed is not counted: the link count is then wrong. */
  lemma LinkNeedsLinkedDir(t: Tree, dp: nat, n: Name, i: nat)
    requires Inv(t) && dp < |t| && t[dp].kind == I_DIR && n !in t[dp].ents && 0 < i < |t| && t[i].kind != 0
    requires t[i].kind != I_DIR && Proper(Ref(dp, n))
    ensures dp != i && (Inv(AddLink(t, dp, n, i)) <==> LinkedDir(t, dp))
  {
    hide TargetsOk, DotsOk, OnceOk, Refs;
    if LinkedDir(t, dp) {
      hide CountsOk;
      AddLinkKeeps(t, dp, n, i);
    } else {
      var t' := AddLink(t, dp, n, i);
      AddUnseen(t, dp, n, i);
      assert t'[i].nlink != |Refs(t', i)|;
    }
  }

  lemma AddUnseen(t: Tree, dp: nat, n: Name, i: nat)
    requires dp < |t| && !LinkedDir(t, dp) && t[dp].kind == I_DIR && i < |t| && dp != i && t[i].kind != I_DIR
    ensures Refs(AddLink(t, dp, n, i), i) == Refs(t, i)
  {
    SameRefs(t, AddLink(t, dp, n, i), i);
    hide Refs;
  }

  /** The same for create: a file made in a removed directory has a link nobody sees. */
  lemma FileNeedsLinkedDir(t: Tree, dp: nat, n: Name, i: nat, kind: nat)
    requires Inv(t) && dp < |t| && t[dp].kind == I_DIR && n !in t[dp].ents && 0 < i < |t| && t[i].kind == 0
    requires kind != 0 && kind != I_DIR && Proper(Ref(dp, n))
    ensures dp != i && (Inv(AddFile(t, dp, n, i, kind)) <==> LinkedDir(t, dp))
  {
    hide TargetsOk, DotsOk, OnceOk, Refs;
    if LinkedDir(t, dp) {
      hide CountsOk;
      AddFileKeeps(t, dp, n, i, kind);
    } else {
      var t' := AddFile(t, dp, n, i, kind);
      FreeRefs(t, i);
      FileUnseen(t, dp, n, i, kind);
      assert t'[i].nlink != |Refs(t', i)|;
    }
  }

  lemma FileUnseen(t: Tree, dp: nat, n: Name, i: nat, kind: nat)
    requires TargetsOk(t) && dp < |t| && !LinkedDir(t, dp) && t[dp].kind == I_DIR && i < |t| && t[i].kind == 0
    requires kind != I_DIR
    ensures dp != i && Refs(AddFile(t, dp, n, i, kind), i) == Refs(t, i)
  {
    SameRefs(t, AddFile(t, dp, n, i, kind), i);
    hide Refs;
  }

  /** And for mkdir: it gives a removed directory a link again, though nothing holds it. */
  lemma DirNeedsLinkedDir(t: Tree, dp: nat, n: Name, i: nat)
    requires Inv(t) && 0 < dp < |t| && t[dp].kind == I_DIR && n !in t[dp].ents && 0 < i < |t| && t[i].kind == 0
    requires Proper(Ref(dp, n))
    ensures dp != i && (Inv(AddDir(t, dp, n, i)) <==> LinkedDir(t, dp))
  {
    if LinkedDir(t, dp) {
      AddDirKeeps(t, dp, n, i);
    } else {
      hide Refs, OnceOk;
      Revived(t, dp, n, i);
    }
  }

  lemma Revived(t: Tree, dp: nat, n: Name, i: nat)
    requires Inv(t) && 0 < dp < |t| && t[dp].kind == I_DIR && 0 < i < |t| && t[i].kind == 0 && dp != i
    requires Proper(Ref(dp, n)) && !LinkedDir(t, dp)
    ensures !(CountsOk(AddDir(t, dp, n, i)) && DotsOk(AddDir(t, dp, n, i)))
  {
    var t' := AddDir(t, dp, n, i);
    if DotsOk(t') {
      assert LinkedDir(t', dp) && Leads(t', Ref(i, DOTDOT), dp);
      var p := t'[dp].ents[DOTDOT];
      assert Leads(t', Ref(dp, DOTDOT), p);
      HeldTwice(t, t', dp, n, i, p);
    }
  }

  /** Who holds dp besides its new child's ".."? Only dp itself could, and then its count is wrong. */
  lemma HeldTwice(t: Tree, t': Tree, dp: nat, n: Name, i: nat, p: nat)
    requires CountsOk(t) && 0 < dp < |t| && t[dp].kind == I_DIR && 0 < i < |t| && t[i].kind == 0 && dp != i
    requires Proper(Ref(dp, n))
    requires !LinkedDir(t, dp) && t' == AddDir(t, dp, n, i) && Holds(t', p, dp)
    ensures t'[dp].nlink != |Refs(t', dp)|
  {
    var m :| Proper(Ref(p, m)) && Leads(t', Ref(p, m), dp);
    NoRefs(t, dp, Ref(p, m));
    assert p == dp && Leads(t', Ref(i, DOTDOT), dp);
    InRefs(t', dp, Ref(p, m));
    InRefs(t', dp, Ref(i, DOTDOT));
    TwoOf(Refs(t', dp), Ref(p, m), Ref(i, DOTDOT));
  }

  lemma NoRefs(t: Tree, d: nat, r: Ref)
    requires CountsOk(t) && 0 < d < |t| && t[d].nlink == 0 && r.name != DOT
    ensures !Leads(t, r, d)
  {
    InRefs(t, d, r);
    assert t[d].nlink == |Refs(t, d)|;
  }

  lemma TwoOf(s: set<Ref>, a: Ref, b: Ref)
    requires a in s && b in s && a != b
    ensures |s| >= 2
  {
    assert |s - {a}| >= 1 by { assert b in s - {a}; }
  }

  /** mkdir and then rmdir. */
  function Removed(t: Tree, dp: nat, n: Name, i: nat): (t': Tree)
    requires dp < |t| && i < |t| && dp != i
    ensures |t'| == |t|
  {
    RemoveDir(AddDir(t, dp, n, i), dp, n, i)
  }

  /**
   Such a tree is always at hand: from every tree with two free inodes, mkdir, rmdir and create in the directory
   that is gone, which a process may still have as its working directory, end with a wrong link count.
   */
  lemma RemovedDirectory(t: Tree, dp: nat, n: Name, i: nat, m: Name, j: nat, kind: nat)
    requires Inv(t) && 0 < dp && LinkedDir(t, dp) && n !in t[dp].ents && Proper(Ref(dp, n)) && Proper(Ref(i, m))
    requires 0 < i < |t| && 0 < j < |t| && i != j && t[i].kind == 0 && t[j].kind == 0 && kind != 0 && kind != I_DIR
    ensures dp != i
    ensures Inv(Removed(t, dp, n, i)) && Removed(t, dp, n, i)[i].kind == I_DIR && !LinkedDir(Removed(t, dp, n, i), i)
    ensures !Inv(AddFile(Removed(t, dp, n, i), i, m, j, kind))
  {
    hide Inv, Refs;
    AddDirKeeps(t, dp, n, i);
    assert Leads(AddDir(t, dp, n, i), Ref(dp, n), i);
    RemoveDirKeeps(AddDir(t, dp, n, i), dp, n, i);
    FileNeedsLinkedDir(Removed(t, dp, n, i), i, m, j, kind);
  }

  /** Linked directory dp has no entry n, and inodes a and b are free. */
  ghost predicate CanOrphan(t: Tree, dp: nat, n: Name, a: nat, m: Name, b: nat) {
    && Inv(t) && 0 < dp && LinkedDir(t, dp) && n !in t[dp].ents && Proper(Ref(dp, n)) && Proper(Ref(a, m))
    && 0 < a < |t| && 0 < b < |t| && a != b && dp != a && dp != b && t[a].kind == 0 && t[b].kind == 0
  }

  /** mkdir dp/n, mkdir dp/n/m, rmdir both, where the inner one is still somebody's working directory. */
  function Orphaned(t: Tree, dp: nat, n: Name, a: nat, m: Name, b: nat): (t': Tree)
    requires dp < |t| && a < |t| && b < |t| && dp != a && dp != b && a != b
    ensures |t'| == |t|
  {
    var made := AddDir(AddDir(t, dp, n, a), a, m, b);
    Freed(RemoveDir(RemoveDir(made, a, m, b), dp, n, a), a)
  }

  /** The tree stays as it should be, and the inner directory's ".." leads to a free inode. */
  lemma OrphanedDangles(t: Tree, dp: nat, n: Name, a: nat, m: Name, b: nat)
    requires CanOrphan(t, dp, n, a, m, b)
    ensures var t' := Orphaned(t, dp, n, a, m, b);
            && Inv(t') && t'[b].kind == I_DIR && t'[b].nlink == 0
            && DOTDOT in t'[b].ents && t'[b].ents[DOTDOT] == a && t'[a].kind == 0
  {
    hide Inv, Refs;
    var t1 := AddDir(t, dp, n, a);
    AddDirKeeps(t, dp, n, a);
    var t2 := AddDir(t1, a, m, b);
    AddDirKeeps(t1, a, m, b);
    assert Leads(t2, Ref(a, m), b) && Leads(t2, Ref(dp, n), a);
    RemoveDirKeeps(t2, a, m, b);
    var t3 := RemoveDir(t2, a, m, b);
    assert Leads(t3, Ref(dp, n), a);
    RemoveDirKeeps(t3, dp, n, a);
    FreedKeeps(RemoveDir(t3, dp, n, a), a);
  }
}
