/**
 What the buffer cache keeps while the log uses it: one buffer per block, reference counts that
 are exactly the holders plus the pins of the open transaction, pinned blocks that stay resident,
 and cached data that agree with the logical disk `view`.
 */
module CacheInvariant {
  import opened Common
  import opened Collections
  import opened Blocks
  import opened BufferCache

  predicate IsPinned(b: Buf, pins: set<nat>) {
    b.dev == ROOTDEV && b.blockno in pins
  }

  predicate OneBufferPerBlock(c: Cache) {
    forall i, j | 0 <= i < j < |c.bufs| && c.bufs[i].dev == ROOTDEV ::
      !Matches(c.bufs[j], ROOTDEV, c.bufs[i].blockno)
  }

  /** held[i] is the number of callers between bget and brelse on buffer i. */
  predicate Counted(c: Cache, pins: set<nat>, held: seq<nat>) {
    && |held| == |c.bufs|
    && forall i :: 0 <= i < |c.bufs| ==>
                     c.bufs[i].refcnt == held[i] + if IsPinned(c.bufs[i], pins) then 1 else 0
  }

  predicate Resident(c: Cache, pins: set<nat>) {
    forall b :: b in pins ==> exists i :: 0 <= i < |c.bufs| && Matches(c.bufs[i], ROOTDEV, b) && c.bufs[i].valid
  }

  predicate Coherent(c: Cache, view: seq<Block>) {
    forall i :: 0 <= i < |c.bufs| && c.bufs[i].dev == ROOTDEV ==>
                  c.bufs[i].blockno < |view| && (c.bufs[i].valid ==> c.bufs[i].data == view[c.bufs[i].blockno])
  }

  predicate CacheInv(c: Cache, pins: set<nat>, held: seq<nat>, view: seq<Block>) {
    && WellFormed(c)
    && OneBufferPerBlock(c)
    && Counted(c, pins, held)
    && Resident(c, pins)
    && Coherent(c, view)
  }

  /** bget of b can succeed: some buffer holds b or is unreferenced. */
  predicate Available(c: Cache, b: nat) {
    exists i :: 0 <= i < |c.bufs| && (c.bufs[i].refcnt == 0 || Matches(c.bufs[i], ROOTDEV, b))
  }

  lemma AvailableIffBget(c: Cache, b: nat)
    requires WellFormed(c)
    ensures Available(c, b) <==> Bget(c, ROOTDEV, b).Some?
  {
    BgetPanics(c, ROOTDEV, b);
  }

  /** binit establishes the invariant with nothing pinned or held. */
  lemma InitialCacheInv(c: Cache, view: seq<Block>)
    requires WellFormed(c)
    requires forall i :: 0 <= i < |c.bufs| ==> c.bufs[i] == Buf(0, 0, false, 0, ZeroBlock())
    ensures CacheInv(c, {}, seq(|c.bufs|, _ => 0), view)
  {
  }

  function Fill(c: Cache, i: nat, data: Block): Cache
    requires i < |c.bufs|
  {
    c.(bufs := c.bufs[i := c.bufs[i].(data := data, valid := true)])
  }

  /** bget never takes the buffer of a pinned or held block, so no logged data is lost. */
  lemma BgetKeeps(c: Cache, pins: set<nat>, held: seq<nat>, view: seq<Block>, b: nat)
    requires CacheInv(c, pins, held, view) && b < |view|
    requires Bget(c, ROOTDEV, b).Some?
    ensures var (d, i) := Bget(c, ROOTDEV, b).value;
            && CacheInv(d, pins, held[i := held[i] + 1], view)
            && (b in pins ==> d.bufs[i].valid)
            && (forall j :: 0 <= j < |c.bufs| && held[j] > 0 ==> d.bufs[j].(refcnt := 0) == c.bufs[j].(refcnt := 0))
  {
    var (d, i) := Bget(c, ROOTDEV, b).value;
    if Hit(c, ROOTDEV, b, 0).Some? {
      forall p | p in pins
        ensures exists k :: 0 <= k < |d.bufs| && Matches(d.bufs[k], ROOTDEV, p) && d.bufs[k].valid
      {
        var k :| 0 <= k < |c.bufs| && Matches(c.bufs[k], ROOTDEV, p) && c.bufs[k].valid;
        assert Matches(d.bufs[k], ROOTDEV, p) && d.bufs[k].valid;
      }
    } else {
      forall j | 0 <= j < |c.bufs| ensures !Matches(c.bufs[j], ROOTDEV, b) {
        assert c.lru[Position(c.lru, j)] == j;
      }
      forall p | p in pins
        ensures exists k :: 0 <= k < |d.bufs| && Matches(d.bufs[k], ROOTDEV, p) && d.bufs[k].valid
      {
        var k :| 0 <= k < |c.bufs| && Matches(c.bufs[k], ROOTDEV, p) && c.bufs[k].valid;
        assert k != i;
        assert Matches(d.bufs[k], ROOTDEV, p) && d.bufs[k].valid;
      }
    }
  }

  /** bread returns the logical contents of a block that is pinned or agrees with the disk. */
  lemma BreadKeeps(c: Cache, disk: seq<Block>, pins: set<nat>, held: seq<nat>, view: seq<Block>, b: nat)
    requires CacheInv(c, pins, held, view) && b < |view| == |disk|
    requires b in pins || view[b] == disk[b]
    requires Bread(c, disk, ROOTDEV, b).Some?
    ensures var (d, i) := Bread(c, disk, ROOTDEV, b).value;
            && CacheInv(d, pins, held[i := held[i] + 1], view)
            && Matches(d.bufs[i], ROOTDEV, b) && d.bufs[i].valid && d.bufs[i].data == view[b]
            && (held[i] > 0 ==> Matches(c.bufs[i], ROOTDEV, b))
            && (forall j :: 0 <= j < |c.bufs| && j != i && held[j] > 0 ==> d.bufs[j] == c.bufs[j])
  {
    BgetKeeps(c, pins, held, view, b);
    var (d, i) := Bget(c, ROOTDEV, b).value;
    if !d.bufs[i].valid {
      StoreKeeps(d, pins, held[i := held[i] + 1], view, i, disk[b]);
      assert view[b := disk[b]] == view;
    }
  }

  /** Storing data in a buffer and in the logical disk together keeps them in agreement. */
  lemma StoreKeeps(c: Cache, pins: set<nat>, held: seq<nat>, view: seq<Block>, i: nat, data: Block)
    requires CacheInv(c, pins, held, view) && i < |c.bufs| && c.bufs[i].dev == ROOTDEV
    ensures CacheInv(Fill(c, i, data), pins, held, view[c.bufs[i].blockno := data])
  {
    var d := Fill(c, i, data);
    forall p | p in pins
      ensures exists k :: 0 <= k < |d.bufs| && Matches(d.bufs[k], ROOTDEV, p) && d.bufs[k].valid
    {
      var k :| 0 <= k < |c.bufs| && Matches(c.bufs[k], ROOTDEV, p) && c.bufs[k].valid;
      assert Matches(d.bufs[k], ROOTDEV, p) && d.bufs[k].valid;
    }
  }

  /** brelse gives back one reference; the pin of a logged block survives it. */
  lemma BrelseKeeps(c: Cache, pins: set<nat>, held: seq<nat>, view: seq<Block>, i: nat)
    requires CacheInv(c, pins, held, view) && i < |c.bufs| && held[i] > 0
    ensures CacheInv(Brelse(c, i), pins, held[i := held[i] - 1], view)
  {
    RefcntResident(c, pins, Brelse(c, i));
  }

  lemma RefcntResident(c: Cache, pins: set<nat>, d: Cache)
    requires Resident(c, pins) && |d.bufs| == |c.bufs|
    requires forall i :: 0 <= i < |c.bufs| ==> d.bufs[i] == c.bufs[i].(refcnt := d.bufs[i].refcnt)
    ensures Resident(d, pins)
  {
    forall p | p in pins
      ensures exists k :: 0 <= k < |d.bufs| && Matches(d.bufs[k], ROOTDEV, p) && d.bufs[k].valid
    {
      var k :| 0 <= k < |c.bufs| && Matches(c.bufs[k], ROOTDEV, p) && c.bufs[k].valid;
      assert Matches(d.bufs[k], ROOTDEV, p) && d.bufs[k].valid;
    }
  }

  /** log_write pins a block that joins the transaction. */
  lemma PinKeeps(c: Cache, pins: set<nat>, held: seq<nat>, view: seq<Block>, i: nat)
    requires CacheInv(c, pins, held, view) && i < |c.bufs|
    requires c.bufs[i].dev == ROOTDEV && c.bufs[i].valid && c.bufs[i].blockno !in pins
    ensures CacheInv(SetRefcnt(c, i, c.bufs[i].refcnt + 1), pins + {c.bufs[i].blockno}, held, view)
  {
    var d := SetRefcnt(c, i, c.bufs[i].refcnt + 1);
    RefcntResident(c, pins, d);
    assert Matches(d.bufs[i], ROOTDEV, c.bufs[i].blockno) && d.bufs[i].valid;
  }

  /** install_trans unpins a block once its home location is written. */
  lemma UnpinKeeps(c: Cache, pins: set<nat>, held: seq<nat>, view: seq<Block>, i: nat)
    requires CacheInv(c, pins, held, view) && i < |c.bufs|
    requires c.bufs[i].dev == ROOTDEV && c.bufs[i].blockno in pins
    ensures c.bufs[i].refcnt > 0
    ensures CacheInv(SetRefcnt(c, i, c.bufs[i].refcnt - 1), pins - {c.bufs[i].blockno}, held, view)
  {
    RefcntResident(c, pins, SetRefcnt(c, i, c.bufs[i].refcnt - 1));
  }

  /** The blocks of a transaction list. */
  /** A list names at most as many blocks as it has entries. */
  lemma {:induction false} ElemsBound(s: seq<nat>)
    ensures |Elems(s)| <= |s|
  {
    if s == [] {
      assert Elems(s) == {};
    } else {
      ElemsBound(s[1..]);
      assert Elems(s) == {s[0]} + Elems(s[1..]);
    }
  }

  /** Distinct cached blocks are as many as the buffers that hold them. */
  lemma {:induction false} DistinctBlocks(c: Cache, n: nat)
    requires OneBufferPerBlock(c) && n <= |c.bufs|
    requires forall i :: 0 <= i < n ==> c.bufs[i].dev == ROOTDEV
    ensures |set i | 0 <= i < n :: c.bufs[i].blockno| == n
  {
    if n > 0 {
      DistinctBlocks(c, n - 1);
      var s := set i | 0 <= i < n - 1 :: c.bufs[i].blockno;
      assert (set i | 0 <= i < n :: c.bufs[i].blockno) == s + {c.bufs[n - 1].blockno};
      assert c.bufs[n - 1].blockno !in s;
    }
  }

  /** With nobody holding buffers and fewer pins than buffers, bget always finds one. */
  lemma BgetSucceeds(c: Cache, hdr: seq<nat>, held: seq<nat>, view: seq<Block>, b: nat)
    requires CacheInv(c, Elems(hdr), held, view)
    requires forall i :: 0 <= i < |held| ==> held[i] == 0
    requires |hdr| < |c.bufs|
    ensures Available(c, b)
  {
    if !Available(c, b) {
      DistinctBlocks(c, |c.bufs|);
      ElemsBound(hdr);
      SubsetSize(set i | 0 <= i < |c.bufs| :: c.bufs[i].blockno, Elems(hdr));
      assert false;
    }
  }

  /** With nothing pinned and one buffer held, bget still finds another. */
  lemma BgetBesideOne(c: Cache, held: seq<nat>, view: seq<Block>, i: nat, b: nat)
    requires CacheInv(c, {}, held, view) && |c.bufs| > 1
    requires forall j :: 0 <= j < |held| && j != i ==> held[j] == 0
    ensures Available(c, b)
  {
    assert held[0] == 0 || held[1] == 0;
  }

  /** A pinned block is always a hit, so bget on it cannot fail. */
  lemma PinnedIsHit(c: Cache, pins: set<nat>, b: nat)
    requires Resident(c, pins) && b in pins
    ensures Available(c, b)
  {
  }

  /** With every buffer pinned, a block outside the transaction makes bget panic. */
  lemma FullyPinnedPanics(c: Cache, hdr: seq<nat>, held: seq<nat>, view: seq<Block>, b: nat)
    requires CacheInv(c, Elems(hdr), held, view) && b !in hdr && |hdr| == |c.bufs|
    requires forall t, u :: 0 <= t < u < |hdr| ==> hdr[t] != hdr[u]
    ensures !Available(c, b)
  {
    forall k | 0 <= k < |c.bufs| ensures IsPinned(c.bufs[k], Elems(hdr)) {
      PinsFillCache(c, hdr, k);
    }
  }

  function BlocksBut(bufs: seq<Buf>, k: nat): set<nat> {
    set i | 0 <= i < |bufs| && i != k :: bufs[i].blockno
  }

  lemma {:induction false} BlocksButBound(bufs: seq<Buf>, k: nat)
    ensures |BlocksBut(bufs, k)| <= if k < |bufs| then |bufs| - 1 else |bufs|
  {
    hide BlocksBut;
    if bufs == [] {
      BlocksOfNone(k);
    } else {
      BlocksButBound(bufs[..|bufs| - 1], k);
      BlocksButLast(bufs, k);
    }
  }

  lemma BlocksOfNone(k: nat)
    ensures BlocksBut([], k) == {}
  {
  }

  lemma BlocksButLast(bufs: seq<Buf>, k: nat)
    requires bufs != []
    ensures var m := |bufs| - 1;
            BlocksBut(bufs, k) == BlocksBut(bufs[..m], k) + if m == k then {} else {bufs[m].blockno}
  {
    var m := |bufs| - 1;
    assert forall i :: 0 <= i < m ==> bufs[..m][i] == bufs[i];
  }

  /** As many distinct pins as buffers leave no buffer unpinned. */
  lemma PinsFillCache(c: Cache, hdr: seq<nat>, k: nat)
    requires Resident(c, Elems(hdr)) && k < |c.bufs| == |hdr|
    requires forall t, u :: 0 <= t < u < |hdr| ==> hdr[t] != hdr[u]
    ensures IsPinned(c.bufs[k], Elems(hdr))
  {
    if !IsPinned(c.bufs[k], Elems(hdr)) {
      CountDistinct(hdr);
      BlocksButBound(c.bufs, k);
      SubsetSize(Elems(hdr), BlocksBut(c.bufs, k));
      assert false;
    }
  }
}
