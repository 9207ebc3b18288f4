/** File names: C strings, their 14-byte form in a directory entry, and how they compare (kernel/src/string.c). */
module Names {
  import opened Blocks

  const DIRSIZ: nat := 14

  /** A C string without its terminator. */
  predicate IsString(t: seq<Byte>) {
    forall i: nat :: i < |t| ==> t[i] != 0
  }

  /** t[i] of a C string, its terminator included. */
  function CharAt(t: seq<Byte>, i: nat): Byte
    requires i <= |t|
  {
    if i < |t| then t[i] else 0
  }

  /** The part of a name that counts. */
  function Key(t: seq<Byte>): seq<Byte> {
    if |t| <= DIRSIZ then t else t[..DIRSIZ]
  }

  /** The name in a 14-byte field: up to its first zero. */
  function FieldName(f: seq<Byte>): (r: seq<Byte>)
    ensures |r| <= |f|
    ensures forall i: nat :: i < |r| ==> r[i] == f[i] != 0
    ensures |r| < |f| ==> f[|r|] == 0
  {
    if f == [] || f[0] == 0 then [] else [f[0]] + FieldName(f[1..])
  }

  /** The field a name is stored in. */
  function Padded(t: seq<Byte>): (f: seq<Byte>)
    ensures |f| == DIRSIZ
    ensures forall i: nat :: i < DIRSIZ ==> f[i] == if i < |t| then t[i] else 0
  {
    Key(t) + seq(DIRSIZ - |Key(t)|, _ => 0)
  }

  /** A field reads back as the name's first 14 bytes. */
  lemma FieldOfPadded(t: seq<Byte>)
    requires IsString(t)
    ensures FieldName(Padded(t)) == Key(t)
  {
    var f, r, k := Padded(t), FieldName(Padded(t)), Key(t);
    assert forall i: nat :: i < |k| ==> f[i] == k[i] != 0;
    assert |k| < DIRSIZ ==> f[|k|] == 0;
    assert |r| == |k|;
  }

  /** strncpy(field, t, DIRSIZ), where old is what the field held. */
  method Strncpy(old_: seq<Byte>, t: seq<Byte>) returns (f: seq<Byte>)
    requires |old_| == DIRSIZ && IsString(t)
    ensures f == Padded(t)
  {
    f := old_;
    var i := 0;
    var more := true;
    while i < DIRSIZ && more
      invariant i <= DIRSIZ && |f| == DIRSIZ
      invariant more ==> i <= |t| && forall j: nat :: j < i ==> f[j] == t[j]
      invariant !more ==> i == |t| + 1 && f[|t|] == 0 && forall j: nat :: j < |t| ==> f[j] == t[j]
      decreases DIRSIZ - i
    {
      f := f[i := CharAt(t, i)];
      more := CharAt(t, i) != 0;
      i := i + 1;
    }
    while i < DIRSIZ
      invariant i <= DIRSIZ && |f| == DIRSIZ && (!more || i == DIRSIZ)
      invariant forall j: nat :: j < i && j < DIRSIZ ==> f[j] == if j < |t| then t[j] else 0
    {
      f := f[i := 0];
      i := i + 1;
    }
    assert f == Padded(t);
  }

  /** namecmp(t, field): 0 exactly when the name and the field agree on their first 14 bytes. */
  method Namecmp(t: seq<Byte>, f: seq<Byte>) returns (r: int)
    requires |f| == DIRSIZ && IsString(t)
    ensures r == 0 <==> Key(t) == FieldName(f)
  {
    var i := 0;
    while i < DIRSIZ && CharAt(t, i) != 0 && CharAt(t, i) == f[i]
      invariant i <= DIRSIZ && i <= |t|
      invariant forall j: nat :: j < i ==> t[j] == f[j]
    {
      i := i + 1;
    }
    ghost var k, n := Key(t), FieldName(f);
    if i == DIRSIZ {
      assert |n| == DIRSIZ && k == n by {
        assert forall j: nat :: j < DIRSIZ ==> f[j] != 0;
      }
      return 0;
    }
    r := CharAt(t, i) - f[i];
    assert |n| >= i by {
      assert forall j: nat :: j < i ==> f[j] != 0;
    }
    if r == 0 {
      assert |t| == i && |n| == i && k == n;
    } else if i < |t| {
      assert k[i] == t[i] != f[i];
    } else {
      assert |k| == i && f[i] != 0;
    }
  }
}
