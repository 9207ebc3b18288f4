/** namex (kernel/src/fs.c): a path is a fold of directory lookups. */
module Namex {
  import opened Blocks
  import opened Names
  import opened Path
  import opened FsLayout
  import opened FsState
  import opened FsBlocks
  import opened FsWrite
  import opened FsFiles
  import opened Dir
  import opened DirOps

  ghost predicate Sized(st: State) {
    AllShaped(st.inodes) && forall i: nat :: i < |st.inodes| ==> st.inodes[i].size <= LIMIT
  }

  /** The entries of a directory are a map into the inodes there are, allocated or not. */
  predicate DirOk(n: nat, c: seq<Byte>) {
    IsDir(c) && forall k: nat :: k < Count(c) ==> Inum(c, k) < n
  }

  ghost predicate DirsOk(st: State) {
    Sized(st) && forall i: nat :: i < |st.inodes| && st.inodes[i].kind == I_DIR ==> DirOk(|st.inodes|, FileAt(st, i))
  }

  /** The inode reached from ip along the given names; 0 where a name is missing or a directory is needed. */
  ghost function Walk(st: State, ip: nat, names: seq<seq<Byte>>): nat
    requires Sized(st)
    decreases |names|
  {
    if names == [] || ip == 0 || ip >= |st.inodes| then ip
    else if st.inodes[ip].kind != I_DIR then 0
    else Walk(st, Lookup(FileAt(st, ip), names[0]), names[1..])
  }

  lemma {:induction false} WalkOn(st: State, ip: nat, a: seq<seq<Byte>>, b: seq<seq<Byte>>)
    requires Sized(st)
    ensures Walk(st, ip, a + b) == Walk(st, Walk(st, ip, a), b)
    decreases |a|
  {
    hide Lookup;
    if a == [] {
      assert a + b == b;
    } else if ip != 0 && ip < |st.inodes| && st.inodes[ip].kind == I_DIR {
      assert (a + b)[1..] == a[1..] + b;
      WalkOn(st, Lookup(FileAt(st, ip), a[0]), a[1..], b);
    }
  }

  lemma LookupRange(st: State, ip: nat, t: seq<Byte>)
    requires DirsOk(st) && ip < |st.inodes| && st.inodes[ip].kind == I_DIR
    ensures st.inodes[ip].size % DIRENT == 0
    ensures Lookup(FileAt(st, ip), t) < |st.inodes|
  {
    hide FieldName, ByteAt;
    assert DirOk(|st.inodes|, FileAt(st, ip));
  }

  /** Lookup does not depend on how a longer name goes on. */
  lemma LookupKey(c: seq<Byte>, t: seq<Byte>)
    ensures Lookup(c, Key(t)) == Lookup(c, t)
  {
    assert Key(Key(t)) == Key(t);
  }

  /** The answer of namex for a path whose components are names. */
  ghost predicate Answer(st: State, start: nat, names: seq<seq<Byte>>, parent: bool, ip: nat, name: seq<Byte>)
    requires Sized(st)
  {
    if !parent then ip == Walk(st, start, names)
    else if names == [] then ip == 0
    else
      var dir := Walk(st, start, names[..|names| - 1]);
      if 0 < dir < |st.inodes| && st.inodes[dir].kind == I_DIR then ip == dir && name == Key(names[|names| - 1])
      else ip == 0
  }

  /** ilock panics on what n components lead to: an inode without a type. */
  ghost predicate DiesAt(st: State, start: nat, names: seq<seq<Byte>>, n: nat)
    requires Sized(st) && n <= |names|
  {
    var ip := Walk(st, start, names[..n]);
    0 < ip < |st.inodes| && st.inodes[ip].kind == 0
  }

  /** namex locks what every proper prefix of the components leads to. */
  ghost predicate Dies(st: State, start: nat, names: seq<seq<Byte>>)
    requires Sized(st)
  {
    exists n: nat :: n < |names| && DiesAt(st, start, names, n)
  }

  /** A component that cannot be followed ends the walk with 0, and so does the rest of the path. */
  lemma NotADir(st: State, start: nat, names: seq<seq<Byte>>, n: nat, parent: bool, name: seq<Byte>)
    requires Sized(st) && n < |names|
    requires var ip := Walk(st, start, names[..n]); 0 < ip < |st.inodes| && st.inodes[ip].kind != I_DIR
    ensures Answer(st, start, names, parent, 0, name)
  {
    hide Lookup, FileAt, Sized;
    WalkOn(st, start, names[..n], names[n..]);
    assert names == names[..n] + names[n..];
    var m := |names| - 1;
    WalkOn(st, start, names[..n], names[n..m]);
    assert names[..m] == names[..n] + names[n..m];
  }

  /** Past a missing name, or something that is not a directory, there is nothing left to lock. */
  lemma NothingMore(st: State, start: nat, names: seq<seq<Byte>>, n: nat, m: nat)
    requires Sized(st) && n < m <= |names|
    requires var ip := Walk(st, start, names[..n]);
             && 0 < ip < |st.inodes|
             && (st.inodes[ip].kind != I_DIR || Lookup(FileAt(st, ip), names[n]) == 0)
    ensures Walk(st, start, names[..m]) == 0
  {
    hide Lookup, FileAt, Sized;
    WalkOn(st, start, names[..n], names[n..m]);
    assert names[..m] == names[..n] + names[n..m] && names[n..m][0] == names[n];
  }

  lemma StopsAt(st: State, start: nat, names: seq<seq<Byte>>, n: nat)
    requires Sized(st) && n < |names| && forall m: nat :: m <= n ==> !DiesAt(st, start, names, m)
    requires var ip := Walk(st, start, names[..n]);
             && 0 < ip < |st.inodes|
             && (st.inodes[ip].kind != I_DIR || Lookup(FileAt(st, ip), names[n]) == 0)
    ensures !Dies(st, start, names)
  {
    hide Lookup, FileAt, Sized;
    forall m: nat | m < |names| ensures !DiesAt(st, start, names, m) {
      if m > n {
        NothingMore(st, start, names, n, m);
      }
    }
  }

  lemma NotThere(st: State, start: nat, names: seq<seq<Byte>>, n: nat, parent: bool, name: seq<Byte>)
    requires Sized(st) && n < |names| && (parent ==> n + 1 < |names|)
    requires var ip := Walk(st, start, names[..n]);
             0 < ip < |st.inodes| && st.inodes[ip].kind == I_DIR && Lookup(FileAt(st, ip), names[n]) == 0
    ensures Answer(st, start, names, parent, 0, name)
  {
    hide Lookup, FileAt, Sized;
    WalkOn(st, start, names[..n], names[n..]);
    assert names == names[..n] + names[n..];
    var m := |names| - 1;
    if parent {
      WalkOn(st, start, names[..n], names[n..m]);
      assert names[..m] == names[..n] + names[n..m] && names[n..m][0] == names[n];
    }
  }

  lemma NextName(st: State, start: nat, names: seq<seq<Byte>>, n: nat)
    requires Sized(st) && n < |names|
    requires var ip := Walk(st, start, names[..n]); 0 < ip < |st.inodes| && st.inodes[ip].kind == I_DIR
    ensures Walk(st, start, names[..n + 1]) == Lookup(FileAt(st, Walk(st, start, names[..n])), names[n])
  {
    hide Lookup, FileAt, Sized;
    WalkOn(st, start, names[..n], [names[n]]);
    assert names[..n + 1] == names[..n] + [names[n]];
  }

  /** namex returns an inode number, 0 for none, and a name; or ilock panics. */
  datatype Named = Named(ip: nat, name: seq<Byte>) | Died

  /** What namex does with a path whose components are names, from inode start. */
  ghost predicate Outcome(st: State, start: nat, names: seq<seq<Byte>>, parent: bool, r: Named)
    requires Sized(st)
  {
    && (r.Died? <==> Dies(st, start, names))
    && (r.Named? ==> Answer(st, start, names, parent, r.ip, r.name))
  }

  /**
   namex, from the root if the path starts with a slash and from the directory cwd if not. It dies exactly when some
   proper prefix of the path leads to an inode without a type. Otherwise it returns what the fold over all components
   gives; with parent, the directory the fold over all but the last gives, and the last component.
   */
  method Namex(fs: Fs, cwd: nat, path: seq<Byte>, parent: bool) returns (r: Named)
    requires FsOk(fs.sb, fs.St()) && DirsOk(fs.St()) && IsString(path)
    requires if path != [] && path[0] == SLASH then ROOTINO < |fs.inodes| else 0 < cwd < |fs.inodes|
    modifies fs
    ensures fs.St() == old(fs.St()) && fs.logged == old(fs.logged)
    ensures path != [] && path[0] == SLASH ==> Outcome(fs.St(), ROOTINO, Components(path), parent, r)
    ensures path == [] || path[0] != SLASH ==> Outcome(fs.St(), cwd, Components(path), parent, r)
  {
    hide Components, FsOk, DirOk, Lookup, Key, FileAt, Answer, Walk;
    var ip, name: seq<Byte> := if path != [] && path[0] == SLASH then ROOTINO else cwd, [];
    ghost var st, start, names, n := fs.St(), ip, Components(path), 0;
    var e := Skipelem(path);
    assert names[..0] == [] && names[0..] == names;
    WalkNothing(st, start);
    while e.Elem?
      invariant fs.St() == st && fs.logged == old(fs.logged)
      invariant 0 < ip < |st.inodes| && n <= |names| && Walk(st, start, names[..n]) == ip
      invariant if e.End? then n == |names|
                else n < |names| && e.name == Key(names[n]) && Components(e.rest) == names[n + 1..]
      invariant parent && names != [] ==> e.Elem?
      invariant forall m: nat :: m < n ==> !DiesAt(st, start, names, m)
      invariant e.Elem? ==> IsString(e.name) && IsString(e.rest) && (e.rest != [] ==> e.rest[0] != SLASH)
      decreases |names| - n
    {
      if fs.inodes[ip].kind == 0 {
        assert DiesAt(st, start, names, n);
        return Named.Died;
      }
      if fs.inodes[ip].kind != I_DIR {
        StopsAt(st, start, names, n);
        NotADir(st, start, names, n, parent, name);
        return Named(0, name);
      }
      name := e.name;
      RestIsLast(e.rest);
      if parent && e.rest == [] {
        AnswerParent(st, start, names, ip, name);
        return Named(ip, name);
      }
      LookupRange(st, ip, names[n]);
      LookupKey(FileAt(st, ip), names[n]);
      NextName(st, start, names, n);
      var f := Dirlookup(fs, ip, e.name);
      if f.Absent? {
        StopsAt(st, start, names, n);
        NotThere(st, start, names, n, parent, name);
        return Named(0, name);
      }
      ip, n := f.inum, n + 1;
      e := Skipelem(e.rest);
    }
    assert names[..n] == names;
    if parent {
      AnswerNone(st, start, names, name);
      return Named(0, name);
    }
    AnswerAll(st, start, names, ip, name);
    return Named(ip, name);
  }

  /** What a path resolves to from directory cwd, 0 if there is nothing. */
  ghost function Resolve(st: State, cwd: nat, path: seq<Byte>): nat
    requires Sized(st)
  {
    if path != [] && path[0] == SLASH then Walk(st, ROOTINO, Components(path)) else Walk(st, cwd, Components(path))
  }

  /** a/b resolves from a directory to what b resolves to from what a resolves to. */
  lemma ResolveJoined(st: State, cwd: nat, a: seq<Byte>, b: seq<Byte>)
    requires Sized(st) && a != [] && (b == [] || b[0] != SLASH)
    ensures Resolve(st, cwd, a + [SLASH] + b) == Resolve(st, Resolve(st, cwd, a), b)
  {
    hide Components, Walk, Sized;
    ComponentsJoined(a, b);
    var start := if a[0] == SLASH then ROOTINO else cwd;
    assert (a + [SLASH] + b)[0] == a[0];
    WalkOn(st, start, Components(a), Components(b));
  }

  /** A single name resolves to what the directory has under it. */
  lemma ResolveName(st: State, cwd: nat, name: seq<Byte>)
    requires Sized(st) && name != [] && NoSlash(name) && 0 < cwd < |st.inodes| && st.inodes[cwd].kind == I_DIR
    ensures Resolve(st, cwd, name) == Lookup(FileAt(st, cwd), name)
  {
    hide Lookup, FileAt, Sized, Components, Walk;
    assert name + [] == name;
    PieceFirst(name, []);
    NoPath();
    var names := [name] + [];
    assert names == [name] == Components(name) && name[0] != SLASH;
    WalkNothing(st, cwd);
    assert [name][..0] == [] && [name][..1] == [name];
    NextName(st, cwd, [name], 0);
  }

  /** A path with a slash in front resolves, from wherever, to what it resolves to from the root without it. */
  lemma ResolveAbsolute(st: State, cwd: nat, path: seq<Byte>)
    requires Sized(st)
    ensures Resolve(st, cwd, [SLASH] + path) == Resolve(st, ROOTINO, path)
  {
    hide Components, Walk, Sized;
    assert ([SLASH] + path)[1..] == path && ([SLASH] + path)[0] == SLASH;
    SlashFirst([SLASH] + path);
  }

  lemma {:induction false} WalkRange(st: State, ip: nat, names: seq<seq<Byte>>)
    requires DirsOk(st) && ip < |st.inodes|
    ensures Walk(st, ip, names) < |st.inodes|
    decreases |names|
  {
    hide Lookup, FileAt, DirOk;
    if names != [] && ip != 0 && st.inodes[ip].kind == I_DIR {
      LookupRange(st, ip, names[0]);
      WalkRange(st, Lookup(FileAt(st, ip), names[0]), names[1..]);
    }
  }

  /** Looking the last name up in what namex returns with parent is what it returns without. */
  lemma ParentThenName(st: State, start: nat, names: seq<seq<Byte>>, dir: nat, name: seq<Byte>)
    requires DirsOk(st) && names != [] && start < |st.inodes| && Answer(st, start, names, true, dir, name)
    ensures dir < |st.inodes|
    ensures Answer(st, start, names, false, if dir == 0 then 0 else Lookup(FileAt(st, dir), name), name)
  {
    hide Lookup, FileAt, DirOk;
    var m := |names| - 1;
    var last := names[m];
    assert names == names[..m] + [last];
    WalkOn(st, start, names[..m], [last]);
    WalkRange(st, start, names[..m]);
    if dir != 0 {
      LookupKey(FileAt(st, dir), last);
      WalkNothing(st, Lookup(FileAt(st, dir), last));
    }
  }

  lemma WalkNothing(st: State, ip: nat)
    requires Sized(st)
    ensures Walk(st, ip, []) == ip
  {
  }

  lemma AnswerAll(st: State, start: nat, names: seq<seq<Byte>>, ip: nat, name: seq<Byte>)
    requires Sized(st) && ip == Walk(st, start, names)
    ensures Answer(st, start, names, false, ip, name)
  {
  }

  lemma AnswerNone(st: State, start: nat, names: seq<seq<Byte>>, name: seq<Byte>)
    requires Sized(st) && names == []
    ensures Answer(st, start, names, true, 0, name)
  {
  }

  lemma AnswerParent(st: State, start: nat, names: seq<seq<Byte>>, ip: nat, name: seq<Byte>)
    requires Sized(st) && names != [] && ip == Walk(st, start, names[..|names| - 1]) && 0 < ip < |st.inodes|
    requires st.inodes[ip].kind == I_DIR
    requires name == Key(names[|names| - 1])
    ensures Answer(st, start, names, true, ip, name)
  {
  }
}
