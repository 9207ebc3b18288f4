/**
 The value of the buffer cache (kernel/src/bio.c): the buffers and the order of the list, most
 recently released first, with bget, bread and brelse as functions on it. Module Bio implements
 them over the linked list.
 */
module BufferCache {
  import opened Common
  import opened Blocks

  const NBUF: nat := 30
  const ROOTDEV: nat := 1

  datatype Buf = Buf(dev: nat, blockno: nat, valid: bool, refcnt: nat, data: Block)

  datatype Cache = Cache(bufs: seq<Buf>, lru: seq<nat>)

  predicate Permutation(s: seq<nat>, n: nat) {
    && |s| == n
    && (forall i :: 0 <= i < |s| ==> s[i] < n)
    && (forall i, j :: 0 <= i < j < |s| ==> s[i] != s[j])
    && (forall v: nat :: v < n ==> v in s)
  }

  predicate WellFormed(c: Cache) {
    Permutation(c.lru, |c.bufs|)
  }

  predicate Matches(b: Buf, dev: nat, blockno: nat) {
    b.dev == dev && b.blockno == blockno
  }

  /** First match from the front of the list, starting at position k. */
  function Hit(c: Cache, dev: nat, blockno: nat, k: nat): (r: Option<nat>)
    requires WellFormed(c) && k <= |c.lru|
    ensures r.Some? ==> r.value < |c.bufs| && Matches(c.bufs[r.value], dev, blockno)
    ensures r.None? ==> forall j :: k <= j < |c.lru| ==> !Matches(c.bufs[c.lru[j]], dev, blockno)
    decreases |c.lru| - k
  {
    if k == |c.lru| then None
    else if Matches(c.bufs[c.lru[k]], dev, blockno) then Some(c.lru[k])
    else Hit(c, dev, blockno, k + 1)
  }

  /** Least recently released unreferenced buffer among the first k list positions. */
  function Victim(c: Cache, k: nat): (r: Option<nat>)
    requires WellFormed(c) && k <= |c.lru|
    ensures r.Some? ==> r.value < |c.bufs| && c.bufs[r.value].refcnt == 0
    ensures r.None? ==> forall j :: 0 <= j < k ==> c.bufs[c.lru[j]].refcnt > 0
    ensures r.Some? ==> exists m :: 0 <= m < k && c.lru[m] == r.value
                                    && forall j :: m < j < k ==> c.bufs[c.lru[j]].refcnt > 0
  {
    if k == 0 then None
    else if c.bufs[c.lru[k - 1]].refcnt == 0 then assert c.lru[k - 1] == c.lru[k - 1]; Some(c.lru[k - 1])
    else Victim(c, k - 1)
  }

  /** bget: a hit takes one more reference, a miss recycles the victim, no victim is a panic. */
  function Bget(c: Cache, dev: nat, blockno: nat): (r: Option<(Cache, nat)>)
    requires WellFormed(c)
    ensures r.Some? ==>
              var (c', i) := r.value;
              && WellFormed(c') && |c'.bufs| == |c.bufs| && i < |c.bufs|
              && Matches(c'.bufs[i], dev, blockno) && c'.bufs[i].refcnt > 0
              && forall j :: 0 <= j < |c.bufs| && j != i ==> c'.bufs[j] == c.bufs[j]
  {
    match Hit(c, dev, blockno, 0)
    case Some(i) => Some((c.(bufs := c.bufs[i := c.bufs[i].(refcnt := c.bufs[i].refcnt + 1)]), i))
    case None =>
      match Victim(c, |c.lru|)
      case Some(i) => Some((c.(bufs := c.bufs[i := Buf(dev, blockno, false, 1, c.bufs[i].data)]), i))
      case None => None
  }

  /** bread: bget, then read the disk into a buffer that is not valid yet. */
  function Bread(c: Cache, disk: seq<Block>, dev: nat, blockno: nat): (r: Option<(Cache, nat)>)
    requires WellFormed(c) && blockno < |disk|
  {
    match Bget(c, dev, blockno)
    case None => None
    case Some((d, i)) =>
      if d.bufs[i].valid then Some((d, i))
      else Some((d.(bufs := d.bufs[i := d.bufs[i].(data := disk[blockno], valid := true)]), i))
  }

  /** bget panics exactly when the block is not cached and every buffer is referenced. */
  lemma BgetPanics(c: Cache, dev: nat, blockno: nat)
    requires WellFormed(c)
    ensures Bget(c, dev, blockno).None? <==>
            forall i :: 0 <= i < |c.bufs| ==> c.bufs[i].refcnt > 0 && !Matches(c.bufs[i], dev, blockno)
  {
    if forall i :: 0 <= i < |c.bufs| ==> c.bufs[i].refcnt > 0 && !Matches(c.bufs[i], dev, blockno) {
      assert Hit(c, dev, blockno, 0).None?;
      assert Victim(c, |c.lru|).None?;
    } else {
      var i :| 0 <= i < |c.bufs| && !(c.bufs[i].refcnt > 0 && !Matches(c.bufs[i], dev, blockno));
      assert i in c.lru;
    }
  }

  function Position(lru: seq<nat>, i: nat): (k: nat)
    requires i in lru
    ensures k < |lru| && lru[k] == i
  {
    if lru[0] == i then 0 else 1 + Position(lru[1..], i)
  }

  /** The list with position k moved to its front. */
  function ToFront(lru: seq<nat>, k: nat): seq<nat>
    requires k < |lru|
  {
    [lru[k]] + lru[..k] + lru[k + 1..]
  }

  lemma ToFrontPermutes(lru: seq<nat>, k: nat, n: nat)
    requires Permutation(lru, n) && k < n
    ensures Permutation(ToFront(lru, k), n)
  {
    var r := ToFront(lru, k);
    forall v: nat | v < n ensures v in r {
      var j := Position(lru, v);
      assert r[if j == k then 0 else if j < k then j + 1 else j] == v;
    }
  }

  function SetRefcnt(c: Cache, i: nat, n: nat): Cache
    requires i < |c.bufs|
  {
    c.(bufs := c.bufs[i := c.bufs[i].(refcnt := n)])
  }

  /** brelse after its sleep lock is gone: the last reference moves the buffer to the front. */
  function Brelse(c: Cache, i: nat): (r: Cache)
    requires WellFormed(c) && i < |c.bufs| && c.bufs[i].refcnt > 0
    ensures WellFormed(r)
  {
    var d := SetRefcnt(c, i, c.bufs[i].refcnt - 1);
    if c.bufs[i].refcnt == 1 then
      ToFrontPermutes(c.lru, Position(c.lru, i), |c.bufs|);
      d.(lru := ToFront(c.lru, Position(c.lru, i)))
    else d
  }
}
