/** Path names (skipelem and namex in kernel/src/fs.c). */
module Path {
  import opened Blocks
  import opened Names

  const SLASH: Byte := 47

  /** The pieces of p between slashes, empty ones included. */
  function Split(p: seq<Byte>): (r: seq<seq<Byte>>)
    ensures |r| > 0
  {
    if p == [] then [[]]
    else
      var r := Split(p[1..]);
      if p[0] == SLASH then [[]] + r else [[p[0]] + r[0]] + r[1..]
  }

  function NonEmpty(s: seq<seq<Byte>>): seq<seq<Byte>> {
    if s == [] then [] else (if s[0] == [] then [] else [s[0]]) + NonEmpty(s[1..])
  }

  /** The components a path names: its non-empty pieces. */
  function Components(p: seq<Byte>): seq<seq<Byte>> {
    NonEmpty(Split(p))
  }

  lemma SlashFirst(p: seq<Byte>)
    requires p != [] && p[0] == SLASH
    ensures Components(p) == Components(p[1..])
  {
    assert Split(p)[1..] == Split(p[1..]);
  }

  predicate NoSlash(s: seq<Byte>) {
    forall i: nat :: i < |s| ==> s[i] != SLASH
  }

  lemma {:induction false} SplitPiece(s: seq<Byte>, p: seq<Byte>)
    requires NoSlash(s) && (p == [] || p[0] == SLASH)
    ensures Split(s + p)[0] == s && Split(s + p)[1..] == Split(p)[1..] && Split(p)[0] == []
  {
    if s == [] {
      assert s + p == p;
    } else {
      SplitPiece(s[1..], p);
      assert (s + p)[1..] == s[1..] + p;
      assert [s[0]] + s[1..] == s;
    }
  }

  /** A piece without slashes, up to a slash or the end, is the first component. */
  lemma PieceFirst(s: seq<Byte>, p: seq<Byte>)
    requires s != [] && NoSlash(s) && (p == [] || p[0] == SLASH)
    ensures Components(s + p) == [s] + Components(p)
  {
    SplitPiece(s, p);
    assert Split(s + p) == [s] + Split(s + p)[1..];
    assert Split(p) == [[]] + Split(p)[1..];
  }

  lemma NoPath()
    ensures Components([]) == []
  {
    assert Split([])[1..] == [];
  }

  lemma {:induction false} SplitJoined(a: seq<Byte>, b: seq<Byte>)
    ensures Split(a + [SLASH] + b) == Split(a) + Split(b)
  {
    var p := a + [SLASH] + b;
    if a == [] {
      assert p[1..] == b;
    } else {
      SplitJoined(a[1..], b);
      assert p[1..] == a[1..] + [SLASH] + b;
      SplitHead(p);
      SplitHead(a);
      Regroup(a[0], Split(a[1..]), Split(b));
    }
  }

  /** The first byte in front of the pieces of the rest. */
  function Prepend(c: Byte, r: seq<seq<Byte>>): seq<seq<Byte>>
    requires |r| > 0
  {
    if c == SLASH then [[]] + r else [[c] + r[0]] + r[1..]
  }

  lemma SplitHead(p: seq<Byte>)
    requires p != []
    ensures Split(p) == Prepend(p[0], Split(p[1..]))
  {
  }

  lemma Regroup(c: Byte, r: seq<seq<Byte>>, s: seq<seq<Byte>>)
    requires |r| > 0
    ensures Prepend(c, r + s) == Prepend(c, r) + s
  {
    assert (r + s)[1..] == r[1..] + s;
  }

  lemma {:induction false} NonEmptyJoined(s: seq<seq<Byte>>, t: seq<seq<Byte>>)
    ensures NonEmpty(s + t) == NonEmpty(s) + NonEmpty(t)
  {
    if s == [] {
      assert s + t == t;
    } else {
      NonEmptyJoined(s[1..], t);
      assert (s + t)[1..] == s[1..] + t;
      Kept(s[0], NonEmpty(s[1..]), NonEmpty(t));
    }
  }

  lemma Kept(x: seq<Byte>, s: seq<seq<Byte>>, t: seq<seq<Byte>>)
    ensures (if x == [] then [] else [x]) + (s + t) == (if x == [] then [] else [x]) + s + t
  {
  }

  /** Two paths with a slash between them name the components of both. */
  lemma ComponentsJoined(a: seq<Byte>, b: seq<Byte>)
    ensures Components(a + [SLASH] + b) == Components(a) + Components(b)
  {
    SplitJoined(a, b);
    NonEmptyJoined(Split(a), Split(b));
  }

  datatype Elem = End | Elem(name: seq<Byte>, rest: seq<Byte>)

  /**
   skipelem: End exactly when no component is left; otherwise the first component, cut to 14 bytes, and
   a rest that names the remaining components and does not start with a slash.
   */
  method Skipelem(path: seq<Byte>) returns (r: Elem)
    requires IsString(path)
    ensures r.End? <==> Components(path) == []
    ensures r.Elem? ==>
              && Components(path) != [] && r.name == Key(Components(path)[0])
              && Components(r.rest) == Components(path)[1..] && IsString(r.name) && IsString(r.rest)
              && (r.rest != [] ==> r.rest[0] != SLASH)
    ensures r.Elem? ==> |r.rest| < |path|
  {
    hide Components;
    var i := SkipSlashes(path, 0);
    if i == |path| {
      assert path[i..] == [];
      NoPath();
      return End;
    }
    var s := i;
    while i < |path| && path[i] != SLASH
      invariant s <= i <= |path| && NoSlash(path[s..i])
    {
      assert path[s..i + 1] == path[s..i] + [path[i]];
      i := i + 1;
    }
    ghost var piece, tail := path[s..i], path[i..];
    assert path[s..] == piece + tail && piece[0] == path[s];
    PieceFirst(piece, tail);
    var len := i - s;
    var name := if len >= DIRSIZ then path[s..s + DIRSIZ] else path[s..i];
    assert len >= DIRSIZ ==> path[s..s + DIRSIZ] == piece[..DIRSIZ];
    assert name == Key(piece);
    i := SkipSlashes(path, i);
    return Elem(name, path[i..]);
  }

  /** while (*path == '/') path++ */
  method SkipSlashes(path: seq<Byte>, from: nat) returns (i: nat)
    requires from <= |path|
    ensures from <= i <= |path| && Components(path[i..]) == Components(path[from..])
    ensures i < |path| ==> path[i] != SLASH
  {
    hide Components;
    i := from;
    while i < |path| && path[i] == SLASH
      invariant from <= i <= |path| && Components(path[i..]) == Components(path[from..])
    {
      SlashFirst(path[i..]);
      assert path[i..][1..] == path[i + 1..];
      i := i + 1;
    }
  }

  /** No component starts a path that is empty, and a path that starts with something else than a slash has one. */
  lemma RestIsLast(rest: seq<Byte>)
    requires rest != [] ==> rest[0] != SLASH
    ensures rest == [] <==> Components(rest) == []
  {
    if rest == [] {
      NoPath();
    } else {
      assert Split(rest)[0] != [];
    }
  }
}
