/**
 The write-ahead log of kernel/src/log.c over the buffer cache: log_write, begin_op, end_op,
 commit and recovery, with the disk state after every single block write in the device's trace.
 */
module Log {
  import opened Common
  import opened Collections
  import opened Blocks
  import opened LogFormat
  import opened BufferCache
  import opened CacheInvariant

  /** The data a transaction carries: what the logical disk holds in each listed block. */
  function Logged(hdr: seq<nat>, view: seq<Block>): (data: seq<Block>)
    requires forall t :: 0 <= t < |hdr| ==> hdr[t] < |view|
    ensures |data| == |hdr|
  {
    seq(|hdr|, t requires 0 <= t < |hdr| => view[hdr[t]])
  }

  function FillTrace(d: Disk, start: nat, data: seq<Block>): seq<Disk>
    requires start + LOGBLOCKS <= |d| && |data| < LOGBLOCKS
  {
    seq(|data|, k requires 0 <= k < |data| => FillSlots(d, start, data, k + 1))
  }

  function InstallTrace(d: Disk, start: nat, hdr: seq<nat>): seq<Disk>
    requires HeaderFits(start, |d|, hdr)
  {
    seq(|hdr|, k requires 0 <= k < |hdr| => Install(d, start, hdr, k + 1))
  }

  /** The disk once every slot and the header are written. */
  function Headed(d: Disk, start: nat, hdr: seq<nat>, data: seq<Block>): (e: Disk)
    requires HeaderFits(start, |d|, hdr) && |hdr| == |data|
    ensures |e| == |d|
  {
    FillSlots(d, start, data, |data|)[start := PutHeader(d[start], hdr)]
  }

  /** The disk after each block write of commit. */
  function CommitTrace(d: Disk, start: nat, hdr: seq<nat>, data: seq<Block>): seq<Disk>
    requires HeaderFits(start, |d|, hdr) && |hdr| == |data|
  {
    var e := Headed(d, start, hdr, data);
    FillTrace(d, start, data) + [e] + InstallTrace(e, start, hdr)
    + [ClearHeader(start, Install(e, start, hdr, |hdr|))]
  }

  /** The parts of that trace, as they are added one after the other, and its last state. */
  lemma TraceParts(d: Disk, start: nat, hdr: seq<nat>, data: seq<Block>, tr: seq<Disk>)
    requires HeaderFits(start, |d|, hdr) && |hdr| == |data|
    ensures var e := Headed(d, start, hdr, data);
            var last := ClearHeader(start, Install(e, start, hdr, |hdr|));
            var steps := CommitTrace(d, start, hdr, data);
            && steps != [] && steps[|steps| - 1] == last
            && tr + FillTrace(d, start, data) + [e] + InstallTrace(e, start, hdr) + [last] == tr + steps
  {
    hide Install, FillSlots;
  }

  lemma SameAsBefore(start: nat, view: seq<Block>)
    ensures SameHome(start, view, view)
  {
  }

  /** The disk after each block write of recover_from_log. */
  function RecoverTrace(d: Disk, start: nat): seq<Disk>
    requires Recoverable(start, d)
  {
    InstallTrace(d, start, Header(d[start])) + [Recover(start, d)]
  }

  /** e is what an attempt at recovery of disk d leaves if the machine stops before or after any of its writes. */
  ghost predicate Stopped(start: nat, d: Disk, e: Disk) {
    Recoverable(start, d) ==> e == d || e in RecoverTrace(d, start)
  }

  /** The disks between the attempts, one after the other. */
  ghost predicate Interrupted(start: nat, ds: seq<Disk>) {
    |ds| > 0 && forall i: nat {:trigger ds[i]} :: i < |ds| - 1 ==> Stopped(start, ds[i], ds[i + 1])
  }

  lemma StopIsHarmless(start: nat, d: Disk, e: Disk)
    requires Recoverable(start, d) && Stopped(start, d, e)
    ensures Recoverable(start, e) && SameHome(start, Recover(start, e), Recover(start, d))
  {
    hide Recoverable, Recover, Install;
    if e != d {
      var k :| 0 <= k < |RecoverTrace(d, start)| && RecoverTrace(d, start)[k] == e;
      TraceIsAttempt(d, start, k);
    } else {
      SameAsBefore(start, Recover(start, d));
    }
  }

  /** The states recovery passes through. */
  lemma TraceIsAttempt(d: Disk, start: nat, k: nat)
    requires Recoverable(start, d) && k < |RecoverTrace(d, start)|
    ensures var e := RecoverTrace(d, start)[k];
            Recoverable(start, e) && SameHome(start, Recover(start, e), Recover(start, d))
  {
    var stop := if k < |Header(d[start])| then AfterInstalls(k + 1) else AfterClear;
    assert RecoverTrace(d, start)[k] == Attempt(start, d, stop);
    AttemptIsHarmless(start, d, stop);
  }

  lemma {:induction false} StopsAreHarmless(start: nat, ds: seq<Disk>, i: nat)
    requires Interrupted(start, ds) && i < |ds| && Recoverable(start, ds[0])
    ensures Recoverable(start, ds[i]) && SameHome(start, Recover(start, ds[i]), Recover(start, ds[0]))
  {
    hide Recoverable, Recover;
    if i == 0 {
      SameAsBefore(start, Recover(start, ds[0]));
    } else {
      StopsAreHarmless(start, ds, i - 1);
      StopIsHarmless(start, ds[i - 1], ds[i]);
      SameTrans(start, Recover(start, ds[i]), Recover(start, ds[i - 1]), Recover(start, ds[0]));
    }
  }

  lemma SameTrans(start: nat, a: seq<Block>, b: seq<Block>, c: seq<Block>)
    requires SameHome(start, a, b) && SameHome(start, b, c)
    ensures SameHome(start, a, c)
  {
  }

  /**
   All or nothing: stop commit after any of its writes, stop recovery itself any number of times
   before or after any of its writes, and a final recovery yields the whole old disk or the whole new one. The
   switch is the header write.
   */
  lemma CommitIsAtomic(d: Disk, start: nat, hdr: seq<nat>, data: seq<Block>, k: nat, ds: seq<Disk>)
    requires Recoverable(start, d) && GetWord(d[start], 0) == 0
    requires HeaderFits(start, |d|, hdr) && |hdr| == |data|
    requires k < |CommitTrace(d, start, hdr, data)|
    requires Interrupted(start, ds) && ds[0] == CommitTrace(d, start, hdr, data)[k]
    ensures Recoverable(start, ds[|ds| - 1])
    ensures SameHome(start, Recover(start, ds[|ds| - 1]), if k < |hdr| then d else Apply(d, hdr, data, |hdr|))
  {
    CrashedIs(d, start, hdr, data, k);
    hide CommitTrace, Recoverable, Recover, HeaderFits, Interrupted;
    StopsAreHarmless(start, ds, |ds| - 1);
    SameTrans(start, Recover(start, ds[|ds| - 1]), Recover(start, ds[0]),
              if k < |hdr| then d else Apply(d, hdr, data, |hdr|));
  }

  /** What commit leaves if the machine stops after write k recovers to the old disk or to the new one. */
  lemma CrashedIs(d: Disk, start: nat, hdr: seq<nat>, data: seq<Block>, k: nat)
    requires Recoverable(start, d) && GetWord(d[start], 0) == 0
    requires HeaderFits(start, |d|, hdr) && |hdr| == |data|
    requires k < |CommitTrace(d, start, hdr, data)|
    ensures var crashed := CommitTrace(d, start, hdr, data)[k];
            && Recoverable(start, crashed)
            && SameHome(start, Recover(start, crashed), if k < |hdr| then d else Apply(d, hdr, data, |hdr|))
  {
    CrashedState(d, start, hdr, data, k);
    hide CommitTrace, Install, Recoverable, Recover, Attempt, HeaderFits, FillSlots;
    var e := Headed(d, start, hdr, data);
    if k < |hdr| {
      FillIsInvisible(start, d, data, k + 1);
    } else {
      HeaderCommits(start, d, hdr, data, d[start]);
      if k > |hdr| {
        AttemptIsHarmless(start, e, if k <= 2 * |hdr| then AfterInstalls(k - |hdr|) else AfterClear);
      }
    }
  }

  /** The states of commit: slots, then the header, then what an interrupted recovery also passes through. */
  lemma CrashedState(d: Disk, start: nat, hdr: seq<nat>, data: seq<Block>, k: nat)
    requires Recoverable(start, d) && HeaderFits(start, |d|, hdr) && |hdr| == |data|
    requires k < |CommitTrace(d, start, hdr, data)|
    ensures var crashed, e := CommitTrace(d, start, hdr, data)[k], Headed(d, start, hdr, data);
            && (k < |hdr| ==> crashed == FillSlots(d, start, data, k + 1))
            && (k == |hdr| ==> crashed == e)
            && (k > |hdr| ==>
                  && Recoverable(start, e)
                  && crashed == Attempt(start, e, if k <= 2 * |hdr| then AfterInstalls(k - |hdr|) else AfterClear))
  {
    var e := Headed(d, start, hdr, data);
    if k > |hdr| {
      HeaderCommits(start, d, hdr, data, d[start]);
    }
    hide Install, Recover, FillSlots, HeaderFits;
  }

  /** After a commit the home blocks of the disk are the logical disk. */
  lemma CommitKeepsView(d: Disk, start: nat, hdr: seq<nat>, view: seq<Block>)
    requires HeaderFits(start, |d|, hdr) && |view| == |d|
    requires forall b: nat :: b < |d| && b !in hdr ==> view[b] == d[b]
    ensures var e := Headed(d, start, hdr, Logged(hdr, view));
            SameHome(start, ClearHeader(start, Install(e, start, hdr, |hdr|)), view)
  {
    var data := Logged(hdr, view);
    var e := Headed(d, start, hdr, data);
    HeaderCommits(start, d, hdr, data, d[start]);
    forall b: nat | b < |d| && !InLog(start, b) ensures Recover(start, e)[b] == view[b] {
      ApplyAt(d, hdr, data, |hdr|, b);
      var t := LastIndex(hdr, b, |hdr|);
    }
  }

  /** Recovery stopped after any of its writes, any number of times, still yields the same disk. */
  lemma RecoveryIsIdempotent(d: Disk, start: nat, k: nat, ds: seq<Disk>)
    requires Recoverable(start, d) && k < |RecoverTrace(d, start)|
    requires Interrupted(start, ds) && ds[0] == RecoverTrace(d, start)[k]
    ensures Recoverable(start, ds[|ds| - 1])
    ensures SameHome(start, Recover(start, ds[|ds| - 1]), Recover(start, d))
  {
    hide Recoverable, Recover, RecoverTrace, Stopped;
    TraceIsAttempt(d, start, k);
    StopsAreHarmless(start, ds, |ds| - 1);
    SameTrans(start, Recover(start, ds[|ds| - 1]), Recover(start, ds[0]), Recover(start, d));
  }

  /** The kernel's `log`, with the buffer cache (by value) and the disk it works on. */
  class WriteAheadLog {
    const start: nat
    const size: nat  // log.size, which initlog takes from the superblock's nblocks
    var disk: seq<Block>
    var cache: Cache
    var lh: seq<nat>  // log.lh.block[..log.lh.n]
    var outstanding: nat
    var comitting: bool
    ghost var trace: seq<Disk>  // the disk after every block write
    ghost var view: seq<Block>  // the logical disk: what bread returns
    ghost var held: seq<nat>    // references taken by bget and not yet given back

    /** The cache and the disk below the logical disk; only pinned blocks differ from the disk. */
    ghost predicate Core(pins: set<nat>)
      reads this
    {
      && |cache.bufs| == NBUF
      && start + LOGBLOCKS <= |disk| <= WORD_LIMIT
      && |view| == |disk|
      && CacheInv(cache, pins, held, view)
      && forall b :: 0 <= b < |view| && b !in pins ==> view[b] == disk[b]
    }

    ghost predicate Idle()
      reads this
    {
      forall i :: 0 <= i < |held| ==> held[i] == 0
    }

    /** The transaction list: distinct home blocks. */
    ghost predicate Listed()
      reads this
    {
      && |lh| <= LOGBLOCKS
      && (forall t :: 0 <= t < |lh| ==> lh[t] < |disk| && !InLog(start, lh[t]))
      && (forall t, u :: 0 <= t < u < |lh| ==> lh[t] != lh[u])
    }

    /** The state of the log between operations. */
    ghost predicate Valid()
      reads this
    {
      Listed() && Core(Elems(lh))
    }

    /** initlog up to recovery: the cache is as binit left it and the list is empty. */
    constructor (disk: seq<Block>, cache: Cache, start: nat, nblocks: nat)
      requires WellFormed(cache) && |cache.bufs| == NBUF
      requires forall i :: 0 <= i < NBUF ==> cache.bufs[i] == Buf(0, 0, false, 0, ZeroBlock())
      requires start + LOGBLOCKS <= |disk| <= WORD_LIMIT
      ensures Valid() && Idle() && lh == [] && outstanding == 0 && !comitting && trace == []
      ensures this.disk == view == disk && this.start == start && size == nblocks
    {
      this.disk, this.cache, this.start, size := disk, cache, start, nblocks;
      lh, outstanding, comitting := [], 0, false;
      trace, view, held := [], disk, seq(NBUF, _ => 0);
      new;
      InitialCacheInv(cache, view);
      assert Elems(lh) == {};
    }

    /** bread: the buffer it returns holds the logical contents of b. */
    method Load(b: nat, ghost pins: set<nat>) returns (r: Option<nat>)
      requires Core(pins) && b < |view|
      modifies this`held, this`cache
      ensures Core(pins)
      ensures r.Some? <==> Available(old(cache), b)
      ensures r.None? ==> cache == old(cache) && held == old(held)
      ensures r.Some? ==>
                var i := r.value;
                && i < NBUF && held == old(held)[i := old(held)[i] + 1]
                && cache.bufs[i].(refcnt := 0) == Buf(ROOTDEV, b, true, 0, view[b])
                && (old(held)[i] > 0 ==> Matches(old(cache).bufs[i], ROOTDEV, b))
                && forall j :: 0 <= j < NBUF && j != i && old(held)[j] > 0 ==> cache.bufs[j] == old(cache).bufs[j]
    {
      AvailableIffBget(cache, b);
      var got := Bread(cache, disk, ROOTDEV, b);
      if got.None? {
        return None;
      }
      BreadKeeps(cache, disk, pins, held, view, b);
      cache := got.value.0;
      held := held[got.value.1 := held[got.value.1] + 1];
      return Some(got.value.1);
    }

    method Drop(i: nat, ghost pins: set<nat>)
      requires Core(pins) && i < NBUF && held[i] > 0
      modifies this`held, this`cache
      ensures Core(pins) && held == old(held)[i := old(held)[i] - 1]
    {
      BrelseKeeps(cache, pins, held, view, i);
      cache := Brelse(cache, i);
      held := held[i := held[i] - 1];
    }

    /** memmove into a held buffer and bwrite: the logical disk and the disk change together. */
    method StoreThrough(i: nat, data: Block, ghost pins: set<nat>)
      requires Core(pins) && i < NBUF && cache.bufs[i].dev == ROOTDEV
      modifies this`view, this`cache, this`disk, this`trace
      ensures Core(pins)
      ensures var b := old(cache).bufs[i].blockno;
              && b < |old(disk)| == |old(view)|
              && view == old(view)[b := data]
              && disk == old(disk)[b := data]
              && trace == old(trace) + [disk]
      ensures cache == Fill(old(cache), i, data)
    {
      StoreKeeps(cache, pins, held, view, i, data);
      cache := Fill(cache, i, data);
      view := view[cache.bufs[i].blockno := data];
      disk := disk[cache.bufs[i].blockno := data];
      trace := trace + [disk];
    }

    /** bread of log block a, then of home block b: two held buffers, or bget's panic. */
    method LoadPair(a: nat, b: nat, ghost pins: set<nat>) returns (o: Outcome, i: nat, j: nat)
      requires Core(pins) && Idle() && a < |view| && b < |view| && a != b
      requires b in pins || pins == {}
      modifies this`held, this`cache
      ensures o == Done <==> Available(old(cache), a)
      ensures o == Done ==> Core(pins) && i < NBUF && j < NBUF && i != j
      ensures o == Done ==> held == seq(NBUF, _ => 0)[i := 1][j := 1]
      ensures o == Done ==> cache.bufs[i].(refcnt := 0) == Buf(ROOTDEV, a, true, 0, view[a])
      ensures o == Done ==> cache.bufs[j].(refcnt := 0) == Buf(ROOTDEV, b, true, 0, view[b])
    {
      var r := Load(a, pins);
      if r.None? {
        return Panic, 0, 0;
      }
      i := r.value;
      if b in pins {
        PinnedIsHit(cache, pins, b);
      } else {
        BgetBesideOne(cache, held, view, i, b);
      }
      r := Load(b, pins);
      return Done, i, r.value;
    }

    method DropPair(i: nat, j: nat, ghost pins: set<nat>)
      requires Core(pins) && i < NBUF && j < NBUF && i != j
      requires held == seq(NBUF, _ => 0)[i := 1][j := 1]
      modifies this`held, this`cache
      ensures Core(pins) && Idle()
    {
      Drop(i, pins);
      Drop(j, pins);
    }

    /** One iteration of write_log: the logged block is copied from the cache to slot t on disk. */
    method CopyToSlot(t: nat, ghost pins: set<nat>) returns (o: Outcome)
      requires Core(pins) && Idle() && t < |lh| && t < LOGBLOCKS - 1
      requires lh[t] in pins && lh[t] < |view| && !InLog(start, lh[t])
      modifies this`view, this`held, this`cache, this`disk, this`trace
      ensures o == Done <==> Available(old(cache), start + 1 + t)
      ensures o == Done ==> Core(pins) && Idle()
      ensures o == Done ==>
                var data := old(view)[lh[t]];
                && view == old(view)[start + 1 + t := data]
                && disk == old(disk)[start + 1 + t := data]
                && trace == old(trace) + [disk]
    {
      var to, from;
      o, to, from := LoadPair(start + 1 + t, lh[t], pins);
      if o == Done {
        StoreThrough(to, cache.bufs[from].data, pins);
        DropPair(from, to, pins);
      }
    }

    /** Where write_log stands after t slots, from disk d, logical disk v and trace tr. */
    ghost predicate Filled(t: nat, d: Disk, v: seq<Block>, tr: seq<Disk>)
      reads this
    {
      && Valid() && Idle() && |lh| < LOGBLOCKS && t <= |lh|
      && |d| == |v| == |disk|
      && SameHome(start, view, v)
      && disk == FillSlots(d, start, Logged(lh, v), t)
      && trace == tr + FillTrace(d, start, Logged(lh, v))[..t]
    }

    method FillNext(t: nat, ghost d: Disk, ghost v: seq<Block>, ghost tr: seq<Disk>)
      requires Filled(t, d, v, tr) && t < |lh|
      modifies this`view, this`held, this`cache, this`disk, this`trace
      ensures Filled(t + 1, d, v, tr)
    {
      CanLoad(lh, start + 1 + t);
      var o := CopyToSlot(t, Elems(lh));
      assert Logged(lh, v)[t] == v[lh[t]];
    }

    /** write_log: all slots, one disk write each; it panics when the transaction pins every buffer. */
    method WriteLog() returns (o: Outcome)
      requires Valid() && Idle() && lh != []
      modifies this`view, this`held, this`cache, this`disk, this`trace
      ensures o == Panic <==> |lh| == LOGBLOCKS
      ensures o == Done ==> Filled(|lh|, old(disk), old(view), old(trace))
    {
      if |lh| == LOGBLOCKS {
        FullyPinnedPanics(cache, lh, held, view, start + 1);
        o := CopyToSlot(0, Elems(lh));
        return;
      }
      var t := 0;
      while t < |lh|
        invariant 0 <= t <= |lh| && Filled(t, old(disk), old(view), old(trace))
      {
        FillNext(t, old(disk), old(view), old(trace));
        t := t + 1;
      }
      o := Done;
    }

    /** write_head: the list goes over the buffered header block, which is then written. */
    method WriteHead(ghost pins: seq<nat>)
      requires Core(Elems(pins)) && Idle() && |pins| < NBUF && |lh| <= LOGBLOCKS
      requires forall t :: 0 <= t < |lh| ==> lh[t] < WORD_LIMIT
      modifies this`view, this`held, this`cache, this`disk, this`trace
      ensures Core(Elems(pins)) && Idle()
      ensures view == old(view)[start := PutHeader(old(view)[start], lh)]
      ensures disk == old(disk)[start := PutHeader(old(view)[start], lh)]
      ensures trace == old(trace) + [disk]
    {
      CanLoad(pins, start);
      var buf := Load(start, Elems(pins));
      var hb := PutWord(cache.bufs[buf.value].data, 0, |lh|);
      var i := 0;
      while i < |lh|
        invariant 0 <= i <= |lh| && hb == PutEntries(PutWord(old(view)[start], 0, |lh|), lh, i)
      {
        hb := PutWord(hb, i + 1, lh[i]);
        i := i + 1;
      }
      StoreThrough(buf.value, hb, Elems(pins));
      Drop(buf.value, Elems(pins));
    }

    method Unpin(i: nat, b: nat, ghost pins: set<nat>)
      requires Core(pins) && i < NBUF && Matches(cache.bufs[i], ROOTDEV, b) && b in pins
      requires b < |view| && view[b] == disk[b]
      modifies this`cache
      ensures Core(pins - {b})
      ensures forall j :: 0 <= j < NBUF ==> cache.bufs[j].(refcnt := 0) == old(cache).bufs[j].(refcnt := 0)
    {
      UnpinKeeps(cache, pins, held, view, i);
      cache := SetRefcnt(cache, i, cache.bufs[i].refcnt - 1);
    }

    /** One iteration of install_trans: slot t goes to its home block, which is unpinned after a commit. */
    method InstallOne(t: nat, recovering: bool, ghost pins: set<nat>)
      requires Core(pins) && Idle() && t < |lh| && t < LOGBLOCKS - 1
      requires lh[t] < |view| && !InLog(start, lh[t])
      requires if recovering then pins == {} else lh[t] in pins
      requires Available(cache, start + 1 + t) && start + 1 + t !in pins
      modifies this`view, this`held, this`cache, this`disk, this`trace
      ensures Core(pins - {lh[t]}) && Idle()
      ensures disk == old(disk)[lh[t] := old(disk)[start + 1 + t]]
      ensures trace == old(trace) + [disk]
    {
      var o, lbuf, dbuf := LoadPair(start + 1 + t, lh[t], pins);
      StoreThrough(dbuf, cache.bufs[lbuf].data, pins);
      if !recovering {
        Unpin(dbuf, lh[t], pins);
      }
      assert recovering ==> pins - {lh[t]} == pins;
      DropPair(lbuf, dbuf, pins - {lh[t]});
    }

    /** The blocks still pinned after t iterations of install_trans. */
    ghost function Pending(t: nat, recovering: bool): seq<nat>
      requires t <= |lh|
      reads this
    {
      if recovering then [] else lh[t..]
    }

    /** The disk and its trace after t blocks of install_trans, from disk d and trace tr. */
    ghost predicate Written(t: nat, d: Disk, tr: seq<Disk>)
      reads this
    {
      && HeaderFits(start, |disk|, lh) && t <= |lh| && |d| == |disk|
      && disk == Install(d, start, lh, t)
      && trace == tr + InstallTrace(d, start, lh)[..t]
    }

    /** Where install_trans stands after t blocks. */
    ghost predicate Installed(t: nat, d: Disk, tr: seq<Disk>, recovering: bool)
      reads this
    {
      && Written(t, d, tr) && Idle() && Core(Elems(Pending(t, recovering)))
      && (!recovering ==> forall t, u :: 0 <= t < u < |lh| ==> lh[t] != lh[u])
    }

    ghost predicate HomeList()
      reads this
    {
      forall t :: 0 <= t < |lh| ==> !InLog(start, lh[t])
    }

    /** With nobody holding a buffer and a buffer left to pin, bread cannot panic. */
    lemma CanLoad(pins: seq<nat>, b: nat)
      requires Core(Elems(pins)) && Idle() && |pins| < NBUF
      ensures Available(cache, b)
    {
      BgetSucceeds(cache, pins, held, view, b);
    }

    lemma PendingStep(t: nat, recovering: bool)
      requires t < |lh| && HomeList()
      requires !recovering ==> forall t, u :: 0 <= t < u < |lh| ==> lh[t] != lh[u]
      ensures Elems(Pending(t, recovering)) - {lh[t]} == Elems(Pending(t + 1, recovering))
      ensures if recovering then Elems(Pending(t, recovering)) == {} else lh[t] in Elems(Pending(t, recovering))
      ensures forall b :: b in Elems(Pending(t, recovering)) ==> !InLog(start, b)
    {
      if !recovering {
        assert lh[t..] == [lh[t]] + lh[t + 1..];
      }
    }

    method InstallNext(t: nat, recovering: bool, ghost pins: set<nat>, ghost d: Disk, ghost tr: seq<Disk>)
      requires Written(t, d, tr) && t < |lh| && Core(pins) && Idle()
      requires if recovering then pins == {} else lh[t] in pins
      requires Available(cache, start + 1 + t) && start + 1 + t !in pins
      modifies this`view, this`held, this`cache, this`disk, this`trace
      ensures Written(t + 1, d, tr) && Core(pins - {lh[t]}) && Idle()
    {
      ghost var steps := InstallTrace(d, start, lh);
      assert steps[..t + 1] == steps[..t] + [Install(d, start, lh, t + 1)];
      InstallOne(t, recovering, pins);
    }

    /** install_trans: afterwards nothing is pinned and the disk is the logical disk. */
    method InstallTrans(recovering: bool)
      requires Installed(0, disk, trace, recovering)
      modifies this`view, this`held, this`cache, this`disk, this`trace
      ensures Installed(|lh|, old(disk), old(trace), recovering)
    {
      hide Installed;
      var t := 0;
      while t < |lh|
        invariant 0 <= t <= |lh| && Installed(t, old(disk), old(trace), recovering)
      {
        InstallStep(t, recovering, old(disk), old(trace));
        t := t + 1;
      }
    }

    /** One turn of the loop. */
    method InstallStep(t: nat, recovering: bool, ghost d: Disk, ghost tr: seq<Disk>)
      requires Installed(t, d, tr, recovering) && t < |lh|
      modifies this`view, this`held, this`cache, this`disk, this`trace
      ensures Installed(t + 1, d, tr, recovering)
    {
      hide CacheInv, Install, InstallTrace, Available;
      PendingStep(t, recovering);
      CanLoad(Pending(t, recovering), start + 1 + t);
      InstallNext(t, recovering, Elems(Pending(t, recovering)), d, tr);
    }

    /** The first half of commit: the slots and then the header reach the disk. */
    method Publish() returns (o: Outcome)
      requires Valid() && Idle() && lh != []
      modifies this`view, this`held, this`cache, this`disk, this`trace
      ensures o == Panic <==> |lh| == LOGBLOCKS
      ensures o == Done ==> Valid() && Idle()
      ensures o == Done ==>
                var data := Logged(lh, old(view));
                && disk == Headed(old(disk), start, lh, data)
                && trace == old(trace) + FillTrace(old(disk), start, data) + [disk]
    {
      o := WriteLog();
      if o == Done {
        ghost var d, data := old(disk), Logged(lh, old(view));
        assert FillTrace(d, start, data)[..|lh|] == FillTrace(d, start, data);
        FillSlotsAt(d, start, data, |lh|, start);
        WriteHead(lh);
      }
    }

    /** The second half of commit, and recovery after read_head: install, then clear the header. */
    method InstallAndClear(recovering: bool)
      requires Installed(0, disk, trace, recovering)
      modifies this`view, this`held, this`cache, this`disk, this`trace, this`lh
      ensures Valid() && Idle() && lh == [] && view == disk
      ensures HeaderFits(start, |old(disk)|, old(lh))
      ensures disk == ClearHeader(start, Install(old(disk), start, old(lh), |old(lh)|))
      ensures trace == old(trace) + InstallTrace(old(disk), start, old(lh)) + [disk]
    {
      InstallTrans(recovering);
      assert Pending(|lh|, recovering) == [];
      assert InstallTrace(old(disk), start, lh)[..|lh|] == InstallTrace(old(disk), start, lh);
      lh := [];
      assert Elems([]) == {};
      WriteHead([]);
    }

    /**
     commit: the disk passes exactly through the states of CommitTrace, the logical disk does not
     change and the transaction is empty afterwards. It panics if and only if the list is full.
     */
    method Commit() returns (o: Outcome)
      requires Valid() && Idle()
      modifies this`view, this`held, this`cache, this`disk, this`trace, this`lh
      ensures o == Panic <==> |old(lh)| == LOGBLOCKS
      ensures o == Done ==> Valid() && Idle() && lh == [] && SameHome(start, view, old(view))
      ensures o == Done && old(lh) == [] ==> disk == old(disk) && trace == old(trace)
      ensures o == Done && old(lh) != [] ==>
                var steps := CommitTrace(old(disk), start, old(lh), Logged(old(lh), old(view)));
                && disk == steps[|steps| - 1]
                && trace == old(trace) + steps
    {
      hide CacheInv, PutHeader, Recover, FillSlots, Recoverable, Headed, Install, InstallTrace, FillTrace, CommitTrace,
           ClearHeader, SameHome;
      if |lh| == 0 {
        SameAsBefore(start, view);
        return Done;
      }
      o := Publish();
      if o == Done {
        ghost var hdr := lh;
        ReadyToInstall();
        InstallAndClear(false);
        CommitKeepsView(old(disk), start, hdr, old(view));
        TraceParts(old(disk), start, hdr, Logged(hdr, old(view)), old(trace));
      }
    }

    /** Between operations nothing is installed yet. */
    lemma ReadyToInstall()
      requires Valid() && Idle() && |lh| < LOGBLOCKS
      ensures Installed(0, disk, trace, false)
    {
      hide CacheInv;
      assert lh[0..] == lh;
    }

    /** read_head: the in-memory list becomes the one in the header block. */
    method ReadHead()
      requires Core({}) && Idle() && Recoverable(start, disk)
      modifies this`held, this`cache, this`lh
      ensures Core({}) && Idle() && lh == Header(disk[start])
    {
      assert Elems([]) == {};
      CanLoad([], start);
      var buf := Load(start, {});
      var b := cache.bufs[buf.value].data;
      var i := 0;
      lh := [];
      while i < GetWord(b, 0)
        invariant 0 <= i <= GetWord(b, 0) && lh == Header(b)[..i]
        invariant Core({}) && b == view[start] && held == seq(NBUF, _ => 0)[buf.value := 1]
      {
        lh := lh + [GetWord(b, i + 1)];
        i := i + 1;
      }
      Drop(buf.value, {});
    }

    /** recover_from_log passes exactly through the states of RecoverTrace and ends in Recover. */
    method RecoverFromLog()
      requires Valid() && Idle() && lh == [] && Recoverable(start, disk)
      modifies this`view, this`held, this`cache, this`disk, this`trace, this`lh
      ensures Valid() && Idle() && lh == [] && view == disk
      ensures disk == Recover(start, old(disk))
      ensures trace == old(trace) + RecoverTrace(old(disk), start)
    {
      assert Elems([]) == {};
      ReadHead();
      assert Pending(0, true) == [];
      InstallAndClear(true);
    }

    /**
     log_write of a buffer the caller holds and has changed: the logical disk takes the new data, a
     block new to the transaction is appended and pinned, one already there is absorbed. The size
     check comes first, so a full list panics even where the write would have been absorbed.
     */
    method LogWrite(i: nat) returns (o: Outcome)
      requires Listed() && i < |cache.bufs| && |held| == |cache.bufs| && held[i] > 0
      requires cache.bufs[i].dev == ROOTDEV && cache.bufs[i].valid
      requires cache.bufs[i].blockno < |view| && !InLog(start, cache.bufs[i].blockno)
      requires |view| == |disk| && |cache.bufs| == NBUF && start + LOGBLOCKS <= |disk| <= WORD_LIMIT
      requires CacheInv(Fill(cache, i, view[cache.bufs[i].blockno]), Elems(lh), held, view)
      requires forall b :: 0 <= b < |view| && b !in Elems(lh) ==> view[b] == disk[b]
      modifies this`view, this`cache, this`lh
      ensures o == Panic <==> |old(lh)| >= LOGBLOCKS || |old(lh)| >= size - 1 || outstanding < 1
      ensures o == Panic ==> lh == old(lh) && cache == old(cache) && view == old(view)
      ensures o == Done ==>
                var b := old(cache).bufs[i].blockno;
                && Valid()
                && view == old(view)[b := old(cache).bufs[i].data]
                && lh == (if b in old(lh) then old(lh) else old(lh) + [b])
    {
      hide CacheInv, OneBufferPerBlock, Resident, WellFormed;
      if |lh| >= LOGBLOCKS || |lh| >= size - 1 || outstanding < 1 {
        return Panic;
      }
      var b := cache.bufs[i].blockno;
      StoreKeeps(Fill(cache, i, view[b]), Elems(lh), held, view, i, cache.bufs[i].data);
      assert Fill(Fill(cache, i, view[b]), i, cache.bufs[i].data) == cache;
      view := view[b := cache.bufs[i].data];
      var k := 0;
      while k < |lh| && lh[k] != b
        invariant 0 <= k <= |lh| && b !in lh[..k]
      {
        k := k + 1;
      }
      if k == |lh| {
        assert lh[..k] == lh;
        PinKeeps(cache, Elems(lh), held, view, i);
        cache := SetRefcnt(cache, i, cache.bufs[i].refcnt + 1);
        lh := lh + [b];
        assert Elems(lh) == Elems(old(lh)) + {b};
      }
      return Done;
    }

    /** One pass of begin_op's loop: the caller is admitted or has to sleep. */
    method TryBeginOp() returns (admitted: bool)
      modifies this`outstanding
      ensures admitted <==> !comitting && |lh| + (old(outstanding) + 1) * MAXOPBLOCKS <= LOGBLOCKS
      ensures outstanding == old(outstanding) + if admitted then 1 else 0
    {
      if comitting || |lh| + (outstanding + 1) * MAXOPBLOCKS > LOGBLOCKS {
        return false;
      }
      outstanding := outstanding + 1;
      return true;
    }

    /** end_op of the last operation commits; any other end leaves the transaction open. */
    method EndOp() returns (o: Outcome)
      requires Valid() && Idle() && outstanding > 0
      modifies this`view, this`held, this`cache, this`disk, this`trace, this`lh, this`outstanding, this`comitting
      ensures o == Panic <==> old(comitting) || (old(outstanding) == 1 && |old(lh)| == LOGBLOCKS)
      ensures o == Done ==> Valid() && Idle() && !comitting && outstanding == old(outstanding) - 1
      ensures o == Done && outstanding > 0 ==> lh == old(lh) && disk == old(disk) && view == old(view)
      ensures o == Done && outstanding == 0 ==>
                && lh == [] && SameHome(start, view, old(view)) && SameHome(start, disk, view)
    {
      outstanding := outstanding - 1;
      if comitting {
        return Panic;
      }
      if outstanding > 0 {
        return Done;
      }
      comitting := true;
      o := Commit();
      comitting := false;
      assert Elems([]) == {};
    }
  }
}
