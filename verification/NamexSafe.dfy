/** When path lookup stays clear of inodes without a type (namex in kernel/src/fs.c), and when it does not. */
module NamexSafe {
  import opened Blocks
  import opened Names
  import opened Path
  import opened FsLayout
  import opened FsState
  import opened FsWrite
  import opened FsFiles
  import opened FsTrunc
  import opened Dir
  import opened LinkOps
  import opened Namex
  import Links

  /** In a sane file system every directory is a map into the inodes there are. */
  lemma SaneDirs(sb: Superblock, st: State)
    requires Sane(sb, st)
    ensures DirsOk(st)
  {
    hide FsOk, Tidy, Links.CountsOk, Links.TargetsOk, Links.OnceOk, FileAt, IsDir, DotsFirst, Ents, Inum;
    var x := TreeOf(st);
    assert Links.LinkedDir(x, ROOTINO);
    forall i: nat | i < |st.inodes| && st.inodes[i].kind == I_DIR ensures DirOk(|st.inodes|, FileAt(st, i)) {
      var c := FileAt(st, i);
      assert DirGood(st.inodes[i], c) && x[i].ents == Ents(c);
      forall k: nat | k < Count(c) ensures Inum(c, k) < |st.inodes| {
        if Inum(c, k) != 0 {
          EntryInMap(c, k);
          assert NameAt(c, k) in x[i].ents;
        }
      }
    }
  }

  lemma EntryInMap(c: seq<Byte>, k: nat)
    requires IsDir(c) && k < Count(c) && Inum(c, k) != 0
    ensures NameAt(c, k) in Ents(c) && Ents(c)[NameAt(c, k)] == Inum(c, k)
  {
    hide Inum, NameAt, Key;
    NameIsKey(c, k);
    FindIsIt(c, NameAt(c, k), k);
    InEnts(c, NameAt(c, k));
  }

  /** Inode i is allocated and some directory leads to it. */
  ghost predicate LinkedAt(st: State, i: nat) {
    i < |st.inodes| && st.inodes[i].kind != 0 && st.inodes[i].nlink > 0
  }

  /** What a name leads to in a linked directory is allocated and linked. */
  lemma LinkedStep(sb: Superblock, st: State, d: nat, t: seq<Byte>)
    requires Sane(sb, st) && d < |st.inodes| && st.inodes[d].kind == I_DIR && st.inodes[d].nlink > 0
    ensures var i := Lookup(FileAt(st, d), t); i == 0 || LinkedAt(st, i)
  {
    hide FsOk, Tidy, Links.OnceOk, Links.RangeOk, FileAt, DirGood, Lookup, Ents, Key, Links.Refs;
    var x, c := TreeOf(st), FileAt(st, d);
    var i, r := Lookup(c, t), Links.Ref(d, Key(t));
    LookupKey(c, t);
    InEnts(c, Key(t));
    KeyTwice(t);
    if i != 0 {
      assert x[d].ents == Ents(c) && Links.LinkedDir(x, d);
      assert Links.Leads(x, r, i);
      assert 0 < i < |x| && x[i].kind != 0;
      if r.name == Links.DOT {
        assert Links.Leads(x, Links.Ref(d, Links.DOT), i);
      } else {
        Links.InRefs(x, i, r);
        assert x[i].nlink == |Links.Refs(x, i)|;
        NotNone(Links.Refs(x, i), r);
      }
    }
  }

  lemma NotNone<T>(s: set<T>, x: T)
    requires x in s
    ensures |s| > 0
  {
    assert s != {};
  }

  lemma KeyTwice(t: seq<Byte>)
    ensures Key(Key(t)) == Key(t)
  {
  }

  /** From a linked directory every walk stays with linked inodes. */
  lemma {:induction false} LinkedWalk(sb: Superblock, st: State, start: nat, names: seq<seq<Byte>>)
    requires Sane(sb, st) && LinkedAt(st, start)
    ensures Sized(st) && (Walk(st, start, names) == 0 || LinkedAt(st, Walk(st, start, names)))
    decreases |names|
  {
    hide Sane, FileAt, Lookup;
    SaneDirs(sb, st);
    if names != [] && st.inodes[start].kind == I_DIR {
      LinkedStep(sb, st, start, names[0]);
      if Lookup(FileAt(st, start), names[0]) != 0 {
        LinkedWalk(sb, st, Lookup(FileAt(st, start), names[0]), names[1..]);
      }
    }
  }

  /** From a linked directory namex never dies, whatever was removed elsewhere. */
  lemma LinkedNeverDies(sb: Superblock, st: State, start: nat, names: seq<seq<Byte>>)
    requires Sane(sb, st) && LinkedAt(st, start)
    ensures DirsOk(st) && !Dies(st, start, names)
  {
    hide Sane, Walk;
    SaneDirs(sb, st);
    forall n: nat | n < |names| ensures !DiesAt(st, start, names, n) {
      LinkedWalk(sb, st, start, names[..n]);
    }
  }

  /** An absolute path never makes namex die. */
  lemma AbsoluteNeverDies(sb: Superblock, st: State, path: seq<Byte>)
    requires Sane(sb, st) && IsString(path) && path != [] && path[0] == SLASH
    ensures DirsOk(st) && !Dies(st, ROOTINO, Components(path))
  {
    hide Links.CountsOk, Links.TargetsOk, Links.OnceOk, Links.RangeOk, Components, DirsOk, Dies;
    assert Links.LinkedDir(TreeOf(st), ROOTINO);
    LinkedNeverDies(sb, st, ROOTINO, Components(path));
  }

  /**
   A process whose working directory was removed, and then the directory above it, is left in an inode whose ".."
   leads to a free one. Every longer path that starts with ".." then makes namex die.
   */
  lemma OrphanDies(sb: Superblock, st: State, t: Links.Tree, dp: nat, n: Links.Name, a: nat, m: Links.Name, b: nat,
                   names: seq<seq<Byte>>)
    requires Sane(sb, st) && Links.CanOrphan(t, dp, n, a, m, b) && TreeOf(st) == Links.Orphaned(t, dp, n, a, m, b)
    requires |names| > 1 && names[0] == Links.DOTDOT
    ensures DirsOk(st) && Dies(st, b, names)
  {
    hide FsOk, Tidy, Links.Inv, FileAt, DirGood, Lookup, Ents, Key, Links.Orphaned, Walk;
    Links.OrphanedDangles(t, dp, n, a, m, b);
    SaneDirs(sb, st);
    InEnts(FileAt(st, b), Links.DOTDOT);
    assert TreeOf(st)[b].ents == Ents(FileAt(st, b));
    WalkNothing(st, b);
    assert names[..0] == [];
    NextName(st, b, names, 0);
    assert DiesAt(st, b, names, 1);
  }
}
