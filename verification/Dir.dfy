/** A directory is a file of 16-byte entries (struct dirent); read as a map from names to inode numbers. */
module Dir {
  import opened Blocks
  import opened Names
  import opened FsFiles

  const DIRENT: nat := 16

  function Count(c: seq<Byte>): nat {
    |c| / DIRENT
  }

  /** de.inum of entry k */
  function Inum(c: seq<Byte>, k: nat): nat
    requires k < Count(c)
  {
    c[DIRENT * k] as int + 0x100 * (c[DIRENT * k + 1] as int)
  }

  function NameAt(c: seq<Byte>, k: nat): seq<Byte>
    requires k < Count(c)
  {
    FieldName(c[DIRENT * k + 2..DIRENT * k + DIRENT])
  }

  /** Entry k is in use under the given name. */
  predicate Uses(c: seq<Byte>, k: nat, key: seq<Byte>)
    requires k < Count(c)
  {
    Inum(c, k) != 0 && NameAt(c, k) == key
  }

  /** The first entry from k on in use under the given name; Count(c) if there is none. */
  function Find(c: seq<Byte>, key: seq<Byte>, k: nat): (r: nat)
    requires k <= Count(c)
    ensures k <= r <= Count(c)
    ensures r < Count(c) ==> Uses(c, r, key)
    ensures forall j: nat :: k <= j < r ==> !Uses(c, j, key)
    decreases Count(c) - k
  {
    if k == Count(c) || Uses(c, k, key) then k else Find(c, key, k + 1)
  }

  /** The inode number a directory gives a name; 0 if it has no such entry. */
  function Lookup(c: seq<Byte>, t: seq<Byte>): nat {
    var k := Find(c, Key(t), 0);
    if k < Count(c) then Inum(c, k) else 0
  }

  /** Whole entries, no name in use twice. */
  predicate IsDir(c: seq<Byte>) {
    && |c| % DIRENT == 0
    && forall j: nat, k: nat {:trigger NameAt(c, j), NameAt(c, k)} ::
         j < k < Count(c) && Inum(c, j) != 0 && Inum(c, k) != 0 ==>
         NameAt(c, j) != NameAt(c, k)
  }

  function Entry(inum: nat, t: seq<Byte>): (e: seq<Byte>)
    requires inum < 0x1_0000
    ensures |e| == DIRENT
  {
    [inum % 0x100, inum / 0x100] + Padded(t)
  }

  lemma EntryOf(inum: nat, t: seq<Byte>)
    requires inum < 0x1_0000 && IsString(t)
    ensures Inum(Entry(inum, t), 0) == inum && NameAt(Entry(inum, t), 0) == Key(t)
  {
    FieldOfPadded(t);
    assert Entry(inum, t)[2..DIRENT] == Padded(t);
  }

  /** With unique names, the entry in use under a name is the one Find gives. */
  lemma FindIsIt(c: seq<Byte>, key: seq<Byte>, k: nat)
    requires IsDir(c) && k < Count(c) && Uses(c, k, key)
    ensures Find(c, key, 0) == k
  {
    var r := Find(c, key, 0);
    assert NameAt(c, r) == NameAt(c, k);
  }

  /** Entry k is overwritten or, at the end, appended. */
  function WithEntry(c: seq<Byte>, k: nat, e: seq<Byte>): seq<Byte>
    requires |c| % DIRENT == 0 && k <= Count(c) && |e| == DIRENT
  {
    Spliced(c, DIRENT * k, e)
  }

  lemma WithEntryAt(c: seq<Byte>, k: nat, e: seq<Byte>, j: nat)
    requires |c| % DIRENT == 0 && k <= Count(c) && |e| == DIRENT
    ensures |WithEntry(c, k, e)| % DIRENT == 0
    ensures Count(WithEntry(c, k, e)) == if k < Count(c) then Count(c) else Count(c) + 1
    ensures j < Count(WithEntry(c, k, e)) ==>
              && Inum(WithEntry(c, k, e), j) == (if j == k then Inum(e, 0) else Inum(c, j))
              && NameAt(WithEntry(c, k, e), j) == (if j == k then NameAt(e, 0) else NameAt(c, j))
  {
    hide FieldName;
    var c' := WithEntry(c, k, e);
    assert |c'| == if k < Count(c) then |c| else |c| + DIRENT;
    if j < Count(c') {
      if j == k {
        assert c'[DIRENT * j + 2..DIRENT * j + DIRENT] == e[2..DIRENT];
      } else {
        assert c'[DIRENT * j + 2..DIRENT * j + DIRENT] == c[DIRENT * j + 2..DIRENT * j + DIRENT];
      }
    }
  }

  /** dirlink changes the map at the new name only, and names stay unique. */
  lemma LinkIsUpdate(c: seq<Byte>, k: nat, inum: nat, t: seq<Byte>)
    requires IsDir(c) && k <= Count(c) && (k < Count(c) ==> Inum(c, k) == 0)
    requires 0 < inum < 0x1_0000 && IsString(t) && Lookup(c, t) == 0
    ensures IsDir(WithEntry(c, k, Entry(inum, t)))
    ensures forall u: seq<Byte> ::
              Lookup(WithEntry(c, k, Entry(inum, t)), u) == if Key(u) == Key(t) then inum else Lookup(c, u)
  {
    hide Inum, NameAt, WithEntry, Key;
    var e := Entry(inum, t);
    var c' := WithEntry(c, k, e);
    EntryOf(inum, t);
    forall j: nat
      ensures |c'| % DIRENT == 0 && Count(c') == if k < Count(c) then Count(c) else Count(c) + 1
      ensures j < Count(c') ==>
                && Inum(c', j) == (if j == k then inum else Inum(c, j))
                && NameAt(c', j) == (if j == k then Key(t) else NameAt(c, j))
    {
      WithEntryAt(c, k, e, j);
    }
    assert forall j: nat :: j < Count(c) ==> !Uses(c, j, Key(t));
    forall i: nat, j: nat | i < j < Count(c') && Inum(c', i) != 0 && Inum(c', j) != 0
      ensures NameAt(c', i) != NameAt(c', j)
    {
      assert i != k ==> !Uses(c, i, Key(t));
      assert j != k ==> !Uses(c, j, Key(t));
    }
    assert IsDir(c');
    forall u: seq<Byte> ensures Lookup(c', u) == if Key(u) == Key(t) then inum else Lookup(c, u) {
      LookupAfter(c, c', k, inum, Key(t), u);
    }
  }

  lemma LookupAfter(c: seq<Byte>, c': seq<Byte>, k: nat, inum: nat, key: seq<Byte>, u: seq<Byte>)
    requires IsDir(c) && IsDir(c') && k < Count(c') && Count(c) <= Count(c') <= Count(c) + 1 && inum != 0
    requires k < Count(c) ==> Inum(c, k) == 0
    requires k >= Count(c) ==> k == Count(c)
    requires forall j: nat {:trigger Inum(c', j)} {:trigger NameAt(c', j)} :: j < Count(c') ==>
               && (j != k ==> j < Count(c))
               && Inum(c', j) == (if j == k then inum else Inum(c, j))
               && NameAt(c', j) == (if j == k then key else NameAt(c, j))
    ensures Lookup(c', u) == if Key(u) == key then inum else Lookup(c, u)
  {
    hide Inum, NameAt, Key;
    if Key(u) == key {
      FindIsIt(c', key, k);
    } else {
      var r, r' := Find(c, Key(u), 0), Find(c', Key(u), 0);
      if r < Count(c) {
        assert Inum(c', r) == Inum(c, r) && NameAt(c', r) == NameAt(c, r);
        FindIsIt(c', Key(u), r);
      } else {
        assert r' < Count(c') ==> r' != k && Uses(c, r', Key(u));
      }
    }
  }

  // The directory as a finite map.

  function Keys(c: seq<Byte>): set<seq<Byte>> {
    set k: nat | k < Count(c) && Inum(c, k) != 0 :: NameAt(c, k)
  }

  /** The names in use, each with its inode number. */
  function Ents(c: seq<Byte>): map<seq<Byte>, nat> {
    map t | t in Keys(c) :: Lookup(c, t)
  }

  lemma NameIsKey(c: seq<Byte>, k: nat)
    requires k < Count(c)
    ensures Key(NameAt(c, k)) == NameAt(c, k)
  {
  }

  /** A name is in the map exactly when it is a whole key and looking it up finds something. */
  lemma InEnts(c: seq<Byte>, t: seq<Byte>)
    ensures t in Ents(c) <==> Key(t) == t && Lookup(c, t) != 0
    ensures t in Ents(c) ==> Ents(c)[t] == Lookup(c, t)
  {
    hide Inum, NameAt, Key;
    var k := Find(c, Key(t), 0);
    if k < Count(c) {
      assert Uses(c, k, Key(t));
      assert NameAt(c, k) in Keys(c);
    }
    if t in Keys(c) {
      var j: nat :| j < Count(c) && Inum(c, j) != 0 && NameAt(c, j) == t;
      NameIsKey(c, j);
      assert Uses(c, j, Key(t));
    }
  }

  lemma EntsAfterLink(c: seq<Byte>, c': seq<Byte>, inum: nat, t: seq<Byte>)
    requires inum != 0 && forall u: seq<Byte> :: Lookup(c', u) == if Key(u) == Key(t) then inum else Lookup(c, u)
    ensures Ents(c') == Ents(c)[Key(t) := inum]
  {
    hide Lookup, Ents;
    assert Key(Key(t)) == Key(t);
    forall u: seq<Byte> ensures u in Ents(c') <==> u == Key(t) || u in Ents(c) {
      InEnts(c, u);
      InEnts(c', u);
    }
    forall u: seq<Byte> | u in Ents(c') ensures Ents(c')[u] == if u == Key(t) then inum else Lookup(c, u) {
      InEnts(c', u);
    }
    forall u: seq<Byte> | u in Ents(c) ensures Ents(c)[u] == Lookup(c, u) {
      InEnts(c, u);
    }
  }

  /** The entry sys_unlink writes. */
  function Blank(): seq<Byte> {
    seq(DIRENT, _ => 0)
  }

  /** Clearing an entry takes its name out of the map, and nothing else. */
  lemma UnlinkIsRemoval(c: seq<Byte>, k: nat)
    requires IsDir(c) && k < Count(c) && Inum(c, k) != 0
    ensures IsDir(WithEntry(c, k, Blank()))
    ensures forall u: seq<Byte> ::
              Lookup(WithEntry(c, k, Blank()), u) == if Key(u) == NameAt(c, k) then 0 else Lookup(c, u)
  {
    hide NameAt, WithEntry, Key;
    assert Inum(Blank(), 0) == 0;
    hide Inum;
    var c' := WithEntry(c, k, Blank());
    forall j: nat
      ensures |c'| % DIRENT == 0 && Count(c') == Count(c)
      ensures j < Count(c') ==>
                Inum(c', j) == (if j == k then 0 else Inum(c, j)) && (j != k ==> NameAt(c', j) == NameAt(c, j))
    {
      WithEntryAt(c, k, Blank(), j);
    }
    forall i: nat, j: nat | i < j < Count(c') && Inum(c', i) != 0 && Inum(c', j) != 0
      ensures NameAt(c', i) != NameAt(c', j)
    {
    }
    forall u: seq<Byte> ensures Lookup(c', u) == if Key(u) == NameAt(c, k) then 0 else Lookup(c, u) {
      LookupCleared(c, c', k, u);
    }
  }

  lemma LookupCleared(c: seq<Byte>, c': seq<Byte>, k: nat, u: seq<Byte>)
    requires IsDir(c) && IsDir(c') && k < Count(c) == Count(c') && Inum(c, k) != 0
    requires forall j: nat {:trigger Inum(c', j)} :: j < Count(c') ==> Inum(c', j) == if j == k then 0 else Inum(c, j)
    requires forall j: nat {:trigger NameAt(c', j)} :: j < Count(c') && j != k ==> NameAt(c', j) == NameAt(c, j)
    ensures Lookup(c', u) == if Key(u) == NameAt(c, k) then 0 else Lookup(c, u)
  {
    hide Inum, NameAt, Key;
    var r, r' := Find(c, Key(u), 0), Find(c', Key(u), 0);
    assert r' < Count(c') ==> r' != k && Uses(c, r', Key(u));
    if Key(u) == NameAt(c, k) {
      FindIsIt(c, Key(u), k);
    } else if r < Count(c) {
      assert Inum(c', r) == Inum(c, r) && NameAt(c', r) == NameAt(c, r);
      FindIsIt(c', Key(u), r);
    }
  }

  lemma EntsAfterUnlink(c: seq<Byte>, c': seq<Byte>, n: seq<Byte>)
    requires Key(n) == n && forall u: seq<Byte> :: Lookup(c', u) == if Key(u) == n then 0 else Lookup(c, u)
    ensures Ents(c') == map m | m in Ents(c) && m != n :: Ents(c)[m]
  {
    hide Lookup, Ents;
    forall u: seq<Byte> ensures u in Ents(c') <==> u != n && u in Ents(c) {
      InEnts(c, u);
      InEnts(c', u);
    }
    forall u: seq<Byte> | u in Ents(c') ensures Ents(c')[u] == Ents(c)[u] {
      InEnts(c, u);
      InEnts(c', u);
    }
  }

  /** "." and ".." are the first two entries, as far as there are any. */
  predicate DotsFirst(c: seq<Byte>) {
    && (Count(c) > 0 ==> Inum(c, 0) != 0 && NameAt(c, 0) == [46])
    && (Count(c) > 1 ==> Inum(c, 1) != 0 && NameAt(c, 1) == [46, 46])
  }

  /** Looking two names up successfully takes two entries. */
  lemma TwoNames(c: seq<Byte>)
    requires [46] in Ents(c) && [46, 46] in Ents(c)
    ensures Count(c) >= 2
  {
    hide Inum, NameAt;
    var i: nat :| i < Count(c) && Inum(c, i) != 0 && NameAt(c, i) == [46];
    var j: nat :| j < Count(c) && Inum(c, j) != 0 && NameAt(c, j) == [46, 46];
  }

  /** What isdirempty looks at says whether the map has other names. */
  lemma EmptyFromSecond(c: seq<Byte>)
    requires IsDir(c) && DotsFirst(c)
    ensures (forall k: nat :: 2 <= k < Count(c) ==> Inum(c, k) == 0) <==> (forall t :: t in Ents(c) ==>
              t == [46] || t == [46, 46])
  {
    hide Inum, NameAt, Key, Lookup, Find;
    if k: nat :| 2 <= k < Count(c) && Inum(c, k) != 0 {
      assert NameAt(c, 0) != NameAt(c, k) && NameAt(c, 1) != NameAt(c, k);
      assert NameAt(c, k) in Keys(c);
      var t := NameAt(c, k);
      assert t in Ents(c) && t != [46] && t != [46, 46];
    } else {
      forall t | t in Ents(c) ensures t == [46] || t == [46, 46] {
        assert t in Keys(c);
        var j: nat :| j < Count(c) && Inum(c, j) != 0 && NameAt(c, j) == t;
      }
    }
  }
}
