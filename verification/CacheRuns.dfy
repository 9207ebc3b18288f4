/**
 The buffer cache over whole runs (kernel/src/bio.c): however bget, brelse, bpin and bunpin are called, the buffer that
 bget recycles is, among the unreferenced ones, the one that was released longest ago.
 */
module CacheRuns {
  import opened Common
  import opened Blocks
  import opened BufferCache

  datatype Use =
    | Get(dev: nat, blockno: nat)
    | Release(i: nat)
    | Pin(i: nat)
    | Unpin(i: nat)
    | Fill(i: nat, data: Block)  // the buffer is read into or written to

  predicate Enabled(c: Cache, a: Use) {
    WellFormed(c) &&
      match a
      case Get(dev, blockno) => Bget(c, dev, blockno).Some?
      case Release(i) => i < |c.bufs| && c.bufs[i].refcnt > 0
      case Pin(i) => i < |c.bufs|
      case Unpin(i) => i < |c.bufs| && c.bufs[i].refcnt > 0
      case Fill(i, _) => i < |c.bufs|
  }

  function Next(c: Cache, a: Use): Cache
    requires Enabled(c, a)
  {
    match a
    case Get(dev, blockno) => Bget(c, dev, blockno).value.0
    case Release(i) => Brelse(c, i)
    case Pin(i) => SetRefcnt(c, i, c.bufs[i].refcnt + 1)
    case Unpin(i) => SetRefcnt(c, i, c.bufs[i].refcnt - 1)
    case Fill(i, data) => c.(bufs := c.bufs[i := c.bufs[i].(data := data, valid := true)])
  }

  ghost predicate IsRun(cs: seq<Cache>, acts: seq<Use>) {
    && |cs| == |acts| + 1 && WellFormed(cs[0])
    && forall j: nat :: j < |acts| ==> Enabled(cs[j], acts[j]) && cs[j + 1] == Next(cs[j], acts[j])
  }

  /** The buffer whose last reference an action drops. */
  function Released(c: Cache, a: Use): Option<nat> {
    if a.Release? && a.i < |c.bufs| && c.bufs[a.i].refcnt == 1 then Some(a.i) else None
  }

  /**
   When buffer x was released last before moment j: the number of that action. A buffer that never was counts as older
   the further back in the first list it is.
   */
  ghost function Stamp(cs: seq<Cache>, acts: seq<Use>, j: nat, x: nat): int
    requires j <= |acts| <= |cs| && |cs| > 0
  {
    if j == 0 then if x in cs[0].lru then -1 - Position(cs[0].lru, x) else -1
    else if Released(cs[j - 1], acts[j - 1]) == Some(x) then j - 1
    else Stamp(cs, acts, j - 1, x)
  }

  /** The list is ordered by the moments of release, the latest first. */
  ghost predicate Ordered(cs: seq<Cache>, acts: seq<Use>, j: nat)
    requires j <= |acts| <= |cs| && |cs| > 0 && j < |cs|
  {
    forall a: nat, b: nat {:trigger cs[j].lru[a], cs[j].lru[b]} :: a < b < |cs[j].lru| ==>
      Stamp(cs, acts, j, cs[j].lru[a]) > Stamp(cs, acts, j, cs[j].lru[b])
  }

  lemma {:induction false} StampBound(cs: seq<Cache>, acts: seq<Use>, j: nat, x: nat)
    requires j <= |acts| <= |cs| && |cs| > 0
    ensures Stamp(cs, acts, j, x) < j
  {
    if j > 0 {
      StampBound(cs, acts, j - 1, x);
    }
  }

  // What brelse does to the list.

  /**
   The last reference moves the buffer to the front and keeps the order of the others; any other release leaves the
   list alone.
   */
  lemma BrelseOrder(c: Cache, i: nat)
    requires WellFormed(c) && i < |c.bufs| && c.bufs[i].refcnt > 0
    ensures WellFormed(Brelse(c, i)) && |Brelse(c, i).bufs| == |c.bufs|
    ensures c.bufs[i].refcnt > 1 ==> Brelse(c, i).lru == c.lru
    ensures c.bufs[i].refcnt == 1 ==>
              && |c.lru| > 0 && Brelse(c, i).lru[0] == i
              && forall a: nat, b: nat {:trigger Brelse(c, i).lru[a], Brelse(c, i).lru[b]} :: 0 < a < b < |c.lru| ==>
                   Before(c.lru, Brelse(c, i).lru[a], Brelse(c, i).lru[b])
  {
    var k := Position(c.lru, i);
    if c.bufs[i].refcnt == 1 {
      var r := ToFront(c.lru, k);
      forall a: nat, b: nat | 0 < a < b < |c.lru| ensures Before(c.lru, r[a], r[b]) {
        var x, y := if a <= k then a - 1 else a, if b <= k then b - 1 else b;
        assert r[a] == c.lru[x] && r[b] == c.lru[y];
      }
    }
  }

  /** x comes before y. */
  ghost predicate Before(lru: seq<nat>, x: nat, y: nat) {
    exists a: nat, b: nat :: a < b < |lru| && lru[a] == x && lru[b] == y
  }

  /** Nothing but the last release changes the list. */
  lemma SameList(c: Cache, a: Use)
    requires Enabled(c, a) && Released(c, a).None?
    ensures Next(c, a).lru == c.lru && WellFormed(Next(c, a)) && |Next(c, a).bufs| == |c.bufs|
  {
    if a.Release? {
      BrelseOrder(c, a.i);
    }
  }

  lemma {:induction false} RunOk(cs: seq<Cache>, acts: seq<Use>, j: nat)
    requires IsRun(cs, acts) && j <= |acts|
    ensures WellFormed(cs[j]) && Ordered(cs, acts, j)
  {
    hide Enabled, Next, WellFormed, Released;
    if j == 0 {
      FirstOrder(cs, acts);
    } else {
      RunOk(cs, acts, j - 1);
      var c, a := cs[j - 1], acts[j - 1];
      if Released(c, a).None? {
        SameList(c, a);
        SameOrder(cs, acts, j);
      } else {
        Front(cs, acts, j);
      }
    }
  }

  lemma FirstOrder(cs: seq<Cache>, acts: seq<Use>)
    requires |acts| <= |cs| && |cs| > 0 && WellFormed(cs[0])
    ensures Ordered(cs, acts, 0)
  {
    var l := cs[0].lru;
    forall a: nat, b: nat | a < b < |l| ensures Stamp(cs, acts, 0, l[a]) > Stamp(cs, acts, 0, l[b]) {
      assert Position(l, l[a]) == a && Position(l, l[b]) == b;
    }
  }

  lemma SameOrder(cs: seq<Cache>, acts: seq<Use>, j: nat)
    requires 0 < j <= |acts| < |cs| && Ordered(cs, acts, j - 1) && cs[j].lru == cs[j - 1].lru
    requires Released(cs[j - 1], acts[j - 1]).None?
    ensures Ordered(cs, acts, j)
  {
    hide Released;
    var l := cs[j].lru;
    forall a: nat, b: nat | a < b < |l| ensures Stamp(cs, acts, j, l[a]) > Stamp(cs, acts, j, l[b]) {
      assert Stamp(cs, acts, j - 1, cs[j - 1].lru[a]) > Stamp(cs, acts, j - 1, cs[j - 1].lru[b]);
    }
  }

  /** The buffer released last is in front of the list, and newer than all others. */
  lemma Front(cs: seq<Cache>, acts: seq<Use>, j: nat)
    requires IsRun(cs, acts) && 0 < j <= |acts| && WellFormed(cs[j - 1]) && Ordered(cs, acts, j - 1)
    requires Released(cs[j - 1], acts[j - 1]).Some?
    ensures WellFormed(cs[j]) && Ordered(cs, acts, j)
  {
    var c, i := cs[j - 1], acts[j - 1].i;
    BrelseOrder(c, i);
    var l := cs[j].lru;
    hide WellFormed, Brelse;
    forall a: nat, b: nat | a < b < |l| ensures Stamp(cs, acts, j, l[a]) > Stamp(cs, acts, j, l[b]) {
      Distinct(cs[j], 0, b);
      StampBound(cs, acts, j - 1, l[b]);
      if a > 0 {
        Distinct(cs[j], 0, a);
        var x: nat, y: nat :| x < y < |c.lru| && c.lru[x] == l[a] && c.lru[y] == l[b];
        assert Stamp(cs, acts, j - 1, c.lru[x]) > Stamp(cs, acts, j - 1, c.lru[y]);
      }
    }
  }

  lemma Distinct(c: Cache, a: nat, b: nat)
    requires WellFormed(c) && a < b < |c.lru|
    ensures c.lru[a] != c.lru[b]
  {
  }

  /** The buffer bget recycles comes after every other unreferenced one. */
  lemma RecyclesLast(c: Cache, dev: nat, blockno: nat, y: nat)
    requires WellFormed(c) && forall x: nat :: x < |c.bufs| ==> !Matches(c.bufs[x], dev, blockno)
    requires y < |c.bufs| && c.bufs[y].refcnt == 0
    ensures Bget(c, dev, blockno).Some?
    ensures var i := Bget(c, dev, blockno).value.1;
            i < |c.bufs| && c.bufs[i].refcnt == 0 && (y != i ==> Before(c.lru, y, i))
  {
    BgetPanics(c, dev, blockno);
    assert Hit(c, dev, blockno, 0).None?;
    var i := Victim(c, |c.lru|).value;
    var m :| 0 <= m < |c.lru| && c.lru[m] == i && forall b :: m < b < |c.lru| ==> c.bufs[c.lru[b]].refcnt > 0;
    var k := Position(c.lru, y);
    assert k <= m;
  }

  /**
   In every run: when bget does not find the block, the buffer it takes is unreferenced, and every other unreferenced
   one was released later.
   */
  lemma RecyclesOldest(cs: seq<Cache>, acts: seq<Use>, j: nat, dev: nat, blockno: nat, y: nat)
    requires IsRun(cs, acts) && j <= |acts|
    requires forall x: nat :: x < |cs[j].bufs| ==> !Matches(cs[j].bufs[x], dev, blockno)
    requires y < |cs[j].bufs| && cs[j].bufs[y].refcnt == 0
    ensures WellFormed(cs[j]) && Bget(cs[j], dev, blockno).Some?
    ensures var i := Bget(cs[j], dev, blockno).value.1;
            i < |cs[j].bufs| && cs[j].bufs[i].refcnt == 0
            && (y != i ==> Stamp(cs, acts, j, i) < Stamp(cs, acts, j, y))
  {
    hide Enabled, Next, Stamp, Matches;
    RunOk(cs, acts, j);
    RecyclesLast(cs[j], dev, blockno, y);
    hide Bget, WellFormed, IsRun;
    var c, i := cs[j], Bget(cs[j], dev, blockno).value.1;
    if y != i {
      var a: nat, b: nat :| a < b < |c.lru| && c.lru[a] == y && c.lru[b] == i;
      assert Stamp(cs, acts, j, cs[j].lru[a]) > Stamp(cs, acts, j, cs[j].lru[b]);
    }
  }
}
