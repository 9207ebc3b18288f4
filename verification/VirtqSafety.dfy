/** What every interleaving of driver and device keeps. */
module VirtqSafety {
  import opened Common
  import opened Counters
  import opened Collections
  import opened Blocks
  import opened Virtq

  /** Where a request is: in the available ring, with the device, in the used ring, or acknowledged. */
  datatype Phase = Posted | Fetched | Answered | Seen

  /** The request whose chain starts at its key. block is what is written, or what was read once it is done. */
  datatype Flight = Flight(mid: nat, last: nat, buf: nat, out: bool, phase: Phase, block: Block)

  /**
   Bookkeeping beside the memory: the requests not yet given back, the two rings as the sequences they stand for,
   and how many requests were ever posted and completed.
   */
  datatype Sys = Sys(q: Queue, live: map<nat, Flight>, avail: seq<nat>, used: seq<nat>, posted: nat, done: nat)

  datatype Action =
    | Submit(x: nat, out: bool)  // virtio_disk_rw until it sleeps
    | Fetch                      // the device takes the next available request
    | Complete(h: nat)           // the device completes any request it has
    | Interrupt                  // one turn of virtio_disk_intr
    | Finish(h: nat)             // virtio_disk_rw after it found b->disk clear
    | Touch(x: nat, blockno: nat, data: Block)  // the kernel rebinds or fills a buffer that is not in flight

  /** How many requests the device has fetched. */
  function Taken(s: Sys): int {
    s.posted - |s.avail|
  }

  predicate Enabled(s: Sys, a: Action) {
    && Sized(s.q)
    && match a
       case Submit(x, out) =>
         && x < |s.q.bufs| && s.q.bufs[x].blockno < |s.q.store| && Three(s.q.free).Some?
         && forall h :: h in s.live ==> s.live[h].buf != x
       case Fetch => Taken(s) >= 0 && Taken(s) % IDX != s.q.availIdx && s.q.ring[Taken(s) % NUM] in s.live
       case Complete(h) => h in s.live && s.live[h].phase == Fetched && Readable(s.q, h)
       case Interrupt => s.q.usedIdx != s.q.doneIdx && !IntrFails(s.q) && s.q.uring[s.q.usedIdx % NUM] in s.live
         && |s.used| > 0
       case Finish(h) =>
         && h in s.live && h < NUM && s.live[h].buf < |s.q.bufs| && !s.q.bufs[s.live[h].buf].disk
         && Recycle(s.q, h).Some?
       case Touch(x, _, _) => x < |s.q.bufs| && forall h :: h in s.live ==> s.live[h].buf != x
  }

  function Next(s: Sys, a: Action): Sys
    requires Enabled(s, a)
  {
    match a
    case Submit(x, out) =>
      var (a, b, c) := Three(s.q.free).value;
      ThreeIff(s.q.free);
      s.(q := Post(s.q, x, out, a, b, c), live := s.live[a := Flight(b, c, x, out, Posted, s.q.bufs[x].data)],
         avail := s.avail + [a], posted := s.posted + 1)
    case Fetch =>
      var h := s.q.ring[Taken(s) % NUM];
      s.(live := s.live[h := s.live[h].(phase := Fetched)], avail := if |s.avail| > 0 then s.avail[1..] else [])
    case Complete(h) =>
      var q' := Serve(s.q, h);
      var x := s.live[h].buf;
      s.(q := q', live := s.live[h := s.live[h].(phase := Answered, block := if x < |q'.bufs| then q'.bufs[x].data
                                                                             else s.live[h].block)],
         used := s.used + [h], done := s.done + 1)
    case Interrupt =>
      var h := s.q.uring[s.q.usedIdx % NUM];
      s.(q := Acknowledge(s.q), live := s.live[h := s.live[h].(phase := Seen)], used := s.used[1..])
    case Finish(h) => s.(q := Recycle(s.q, h).value, live := s.live - {h})
    case Touch(x, blockno, data) => s.(q := s.q.(bufs := s.q.bufs[x := s.q.bufs[x].(blockno := blockno, data := data)]))
  }

  // The invariant.

  /** The chain of request h is laid out as the device expects it. */
  predicate ChainOk(q: Queue, h: nat, f: Flight) {
    && Sized(q) && h < NUM && f.mid < NUM && f.last < NUM && h != f.mid && h != f.last && f.mid != f.last
    && f.buf < |q.bufs|
    && !q.free[h] && !q.free[f.mid] && !q.free[f.last]
    && q.desc[h] == Desc(Header(h), 16, NEXT, f.mid)
    && q.desc[f.mid] == Desc(Data(f.buf), BSIZE, if f.out then NEXT else NEXT + WRITE, f.last)
    && q.desc[f.last] == Desc(Status(h), 1, WRITE, 0)
    && q.ops[h] == Req(f.out, q.bufs[f.buf].blockno * 2) && q.bufs[f.buf].blockno < |q.store|
    && q.info[h].b == Some(f.buf) && (q.info[h].status == 0 <==> f.phase == Answered || f.phase == Seen)
  }

  /** The buffer belongs to the disk until the completion is acknowledged; its data are the request's. */
  predicate BufferOk(q: Queue, f: Flight) {
    && f.buf < |q.bufs|
    && (q.bufs[f.buf].disk <==> f.phase != Seen)
    && (f.out || f.phase == Answered || f.phase == Seen ==> q.bufs[f.buf].data == f.block)
  }

  predicate ChainsOk(s: Sys) {
    forall h: nat {:trigger s.live[h]} :: h in s.live ==> ChainOk(s.q, h, s.live[h]) && BufferOk(s.q, s.live[h])
  }

  function Parts(h: nat, f: Flight): set<nat> {
    {h, f.mid, f.last}
  }

  /** No descriptor and no buffer is in two requests. */
  predicate Disjoint(s: Sys) {
    forall h: nat, k: nat {:trigger s.live[h], s.live[k]} :: h in s.live && k in s.live && h != k ==>
      Parts(h, s.live[h]) !! Parts(k, s.live[k]) && s.live[h].buf != s.live[k].buf
  }

  /** The ring holds list l from position n on. */
  predicate Holds(ring: seq<nat>, n: nat, l: seq<nat>) {
    |ring| == NUM && forall k: nat {:trigger l[k]} :: k < |l| ==> ring[(n + k) % NUM] == l[k]
  }

  /** l lists, once each, the requests in phase p. */
  ghost predicate Lists(live: map<nat, Flight>, l: seq<nat>, p: Phase) {
    Distinct(l) && forall h: nat {:trigger h in l} {:trigger h in live} :: h in l <==> h in live && live[h].phase == p
  }

  /** The available ring holds the posted requests, the used ring the completed ones, across index wrap. */
  ghost predicate RingsOk(s: Sys) {
    && |s.avail| <= s.posted && |s.used| <= s.done
    && s.q.availIdx == s.posted % IDX && s.q.doneIdx == s.done % IDX && s.q.usedIdx == (s.done - |s.used|) % IDX
    && Holds(s.q.ring, Taken(s), s.avail) && Lists(s.live, s.avail, Posted)
    && Holds(s.q.uring, s.done - |s.used|, s.used) && Lists(s.live, s.used, Answered)
  }

  /** free + 3 * in-flight = NUM */
  predicate Conserved(s: Sys) {
    |FreeSet(s.q.free)| + 3 * |s.live| == NUM
  }

  ghost predicate Inv(s: Sys) {
    Sized(s.q) && ChainsOk(s) && Disjoint(s) && RingsOk(s) && Conserved(s)
  }

  // Consequences.

  /** A list of different live requests is short. */
  lemma ShortList(s: Sys, l: seq<nat>)
    requires Conserved(s) && Distinct(l) && forall x :: x in l ==> x in s.live
    ensures |l| <= 2 && |l| <= |s.live|
  {
    CountDistinct(l);
    SubsetSize(Elems(l), s.live.Keys);
    assert |s.live.Keys| == |s.live|;
  }

  /** The rings never hold more than two entries, so indices never catch up with each other. */
  lemma RingsShort(s: Sys)
    requires RingsOk(s) && Conserved(s)
    ensures |s.avail| <= 2 && |s.used| <= 2
  {
    ShortList(s, s.avail);
    ShortList(s, s.used);
  }

  /** The 16-bit index and the count it stands for pick the same ring slot. */
  lemma SameSlot(n: nat)
    ensures n % IDX % NUM == n % NUM
  {
    var q, r := n / IDX, n % IDX;
    assert n == NUM * (8192 * q) + r;
  }

  /** Entries fewer than NUM apart have different slots and different indices. */
  lemma OtherSlot(n: nat, k: nat)
    requires 0 < k < NUM
    ensures (n + k) % NUM != n % NUM && (n + k) % IDX != n % IDX
  {
    OtherIndex(n, k);
  }

  lemma OtherIndex(n: nat, k: nat)
    requires 0 < k < NUM
    ensures (n + k) % IDX != n % IDX
  {
    var q, r := n / IDX, n % IDX;
    if r + k < IDX {
      ModOf(IDX, n + k, q, r + k);
    } else {
      ModOf(IDX, n + k, q + 1, r + k - IDX);
    }
  }

  lemma NextIndex(n: nat)
    ensures (n % IDX + 1) % IDX == (n + 1) % IDX
  {
    var q, r := n / IDX, n % IDX;
    if r + 1 < IDX {
      ModOf(IDX, n + 1, q, r + 1);
    } else {
      ModOf(IDX, n + 1, q + 1, 0);
    }
  }

  /** The device finds a whole request behind every entry, and serving it does what was asked for. */
  lemma AlwaysReadable(s: Sys, h: nat)
    requires Inv(s) && h in s.live
    ensures Readable(s.q, h)
  {
    hide RingsOk, Disjoint, Conserved, BufferOk;
    assert ChainOk(s.q, h, s.live[h]);
    hide Inv, ChainsOk;
  }

  /** virtio_disk_intr neither panics nor meets an entry without a buffer. */
  lemma InterruptNeverFails(s: Sys)
    requires Inv(s) && s.q.usedIdx != s.q.doneIdx
    ensures |s.used| > 0 && s.q.uring[s.q.usedIdx % NUM] == s.used[0] && !IntrFails(s.q) && Enabled(s, Interrupt)
  {
    RingsShort(s);
    SameSlot(s.done - |s.used|);
    assert |s.used| > 0;
    Pop(s.q.uring, s.done - |s.used|, s.used);
    assert s.used[0] in s.used;
    assert ChainOk(s.q, s.used[0], s.live[s.used[0]]);
  }

  /** free_chain never panics: it gets a whole chain of three. */
  lemma FinishNeverFails(s: Sys, h: nat)
    requires Inv(s) && h in s.live
    ensures var f := s.live[h];
            h < NUM && f.mid < NUM && f.last < NUM
              && Recycle(s.q, h) == Some(s.q.(info := s.q.info[h := s.q.info[h].(b := None)],
                                                     desc := s.q.desc[h := Clear][f.mid := Clear][f.last := Clear],
                                                     free := s.q.free[h := true][f.mid := true][f.last := true]))
    ensures var f := s.live[h]; |FreeSet(s.q.free[h := true][f.mid := true][f.last := true])| == |FreeSet(s.q.free)| + 3
  {
    var f := s.live[h];
    assert ChainOk(s.q, h, f);
    FreesThree(Table(s.q.desc, s.q.free), h, f.mid, f.last);
  }

  /** A device that finds the available index ahead finds a posted request. */
  lemma FetchFinds(s: Sys)
    requires Inv(s) && Taken(s) % IDX != s.q.availIdx
    ensures |s.avail| > 0 && s.q.ring[Taken(s) % NUM] == s.avail[0] && Enabled(s, Fetch)
  {
    assert |s.avail| > 0;
    Pop(s.q.ring, Taken(s), s.avail);
    assert s.avail[0] in s.avail;
  }

  /** The chains in flight do not notice that free descriptors and an idle buffer were used. */
  lemma PostChain(q: Queue, x: nat, out: bool, a: nat, b: nat, c: nat, h: nat, f: Flight)
    requires Sized(q) && x < |q.bufs| && a < NUM && b < NUM && c < NUM && q.free[a] && q.free[b] && q.free[c]
    requires ChainOk(q, h, f) && BufferOk(q, f) && f.buf != x
    ensures ChainOk(Post(q, x, out, a, b, c), h, f) && BufferOk(Post(q, x, out, a, b, c), f)
    ensures Parts(h, f) !! {a, b, c}
  {
  }

  lemma PostNew(q: Queue, x: nat, out: bool, a: nat, b: nat, c: nat)
    requires Sized(q) && x < |q.bufs| && a < NUM && b < NUM && c < NUM && a != b && a != c && b != c
    requires q.bufs[x].blockno < |q.store|
    ensures var f := Flight(b, c, x, out, Posted, q.bufs[x].data);
            ChainOk(Post(q, x, out, a, b, c), a, f) && BufferOk(Post(q, x, out, a, b, c), f)
  {
  }

  // Lists and rings under one more and one less.

  lemma Push(ring: seq<nat>, n: nat, l: seq<nat>, h: nat)
    requires Holds(ring, n, l) && |l| < NUM
    ensures Holds(ring[(n + |l|) % NUM := h], n, l + [h])
  {
    forall k: nat | k < |l| ensures ring[(n + |l|) % NUM := h][(n + k) % NUM] == l[k] {
      OtherSlot(n + k, |l| - k);
    }
  }

  lemma Pop(ring: seq<nat>, n: nat, l: seq<nat>)
    requires Holds(ring, n, l) && |l| > 0
    ensures ring[n % NUM] == l[0] && Holds(ring, n + 1, l[1..])
  {
    assert ring[(n + 0) % NUM] == l[0];
    forall k: nat | k < |l| - 1 ensures ring[(n + 1 + k) % NUM] == l[1..][k] {
      assert ring[(n + (k + 1)) % NUM] == l[k + 1];
    }
  }

  lemma Enter(live: map<nat, Flight>, l: seq<nat>, p: Phase, h: nat, f: Flight)
    requires Lists(live, l, p) && h !in l && f.phase == p
    ensures Lists(live[h := f], l + [h], p)
  {
  }

  lemma Leave(live: map<nat, Flight>, l: seq<nat>, p: Phase, f: Flight)
    requires Lists(live, l, p) && |l| > 0 && f.phase != p
    ensures l[0] in live && live[l[0]].phase == p && Lists(live[l[0] := f], l[1..], p)
  {
    assert l[0] in l;
    assert l == [l[0]] + l[1..];
    assert l[0] !in l[1..];
  }

  lemma Stay(live: map<nat, Flight>, l: seq<nat>, p: Phase, h: nat, f: Flight)
    requires Lists(live, l, p) && (h !in live || live[h].phase != p) && f.phase != p
    ensures Lists(live[h := f], l, p)
  {
    assert h !in l;
  }

  lemma Gone(live: map<nat, Flight>, l: seq<nat>, p: Phase, h: nat)
    requires Lists(live, l, p) && h in live && live[h].phase != p
    ensures Lists(live - {h}, l, p)
  {
    assert h !in l;
  }

  // Submit.

  lemma SubmitChains(s: Sys, x: nat, out: bool, a: nat, b: nat, c: nat, s': Sys)
    requires ChainsOk(s) && Disjoint(s) && Sized(s.q) && x < |s.q.bufs| && s.q.bufs[x].blockno < |s.q.store|
    requires forall h :: h in s.live ==> s.live[h].buf != x
    requires a < NUM && b < NUM && c < NUM && a != b && a != c && b != c && s.q.free[a] && s.q.free[b] && s.q.free[c]
    requires s'.q == Post(s.q, x, out, a, b, c)
    requires s'.live == s.live[a := Flight(b, c, x, out, Posted, s.q.bufs[x].data)]
    ensures ChainsOk(s') && Disjoint(s') && a !in s.live
  {
    hide Post, ChainOk, BufferOk, Sized;
    forall h: nat | h in s.live
      ensures ChainOk(s'.q, h, s.live[h]) && BufferOk(s'.q, s.live[h]) && Parts(h, s.live[h]) !! {a, b, c}
    {
      assert ChainOk(s.q, h, s.live[h]) && BufferOk(s.q, s.live[h]);
      PostChain(s.q, x, out, a, b, c, h, s.live[h]);
    }
    assert a !in s.live by {
      assert a in s.live ==> a in Parts(a, s.live[a]);
    }
    PostNew(s.q, x, out, a, b, c);
  }

  lemma SubmitRings(s: Sys, s': Sys, h: nat, f: Flight)
    requires RingsOk(s) && |s.avail| <= 2 && Sized(s.q) && h !in s.live && f.phase == Posted
    requires s'.live == s.live[h := f] && s'.avail == s.avail + [h] && s'.used == s.used && s'.posted == s.posted + 1
    requires s'.done == s.done
    requires s'.q.ring == s.q.ring[s.q.availIdx % NUM := h] && s'.q.availIdx == (s.q.availIdx + 1) % IDX
    requires s'.q.uring == s.q.uring && s'.q.doneIdx == s.q.doneIdx && s'.q.usedIdx == s.q.usedIdx
    ensures RingsOk(s')
  {
    SameSlot(s.posted);
    NextIndex(s.posted);
    Push(s.q.ring, Taken(s), s.avail, h);
    assert h !in s.avail;
    Enter(s.live, s.avail, Posted, h, f);
    Stay(s.live, s.used, Answered, h, f);
  }

  lemma SubmitKeeps(s: Sys, x: nat, out: bool)
    requires Inv(s) && Enabled(s, Submit(x, out))
    ensures Inv(Next(s, Submit(x, out)))
  {
    hide ChainsOk, Disjoint, RingsOk;
    RingsShort(s);
    ThreeIff(s.q.free);
    var s' := Next(s, Submit(x, out));
    var (a, b, c) := Three(s.q.free).value;
    hide Three;
    SubmitChains(s, x, out, a, b, c, s');
    SubmitRings(s, s', a, s'.live[a]);
    assert s'.live.Keys == s.live.Keys + {a};
  }

  // Fetch.

  /** One flight moved to another phase. */
  lemma PhaseDisjoint(s: Sys, s': Sys, h: nat, f: Flight)
    requires Disjoint(s) && h in s.live && s'.live == s.live[h := f]
    requires f.mid == s.live[h].mid && f.last == s.live[h].last && f.buf == s.live[h].buf
    ensures Disjoint(s')
  {
    forall k: nat | k in s.live ensures Parts(k, s'.live[k]) == Parts(k, s.live[k]) && s'.live[k].buf == s.live[k].buf {
    }
    hide Parts;
  }

  lemma FetchRings(s: Sys, s': Sys, f: Flight)
    requires RingsOk(s) && |s.avail| > 0 && f.phase == Fetched
    requires s' == s.(live := s.live[s.avail[0] := f], avail := s.avail[1..])
    ensures RingsOk(s')
  {
    Pop(s.q.ring, Taken(s), s.avail);
    Leave(s.live, s.avail, Posted, f);
    Stay(s.live, s.used, Answered, s.avail[0], f);
    hide Holds, Lists;
  }

  lemma FetchKeeps(s: Sys)
    requires Inv(s) && Enabled(s, Fetch)
    ensures Inv(Next(s, Fetch))
  {
    hide ChainsOk, Disjoint, RingsOk;
    FetchFinds(s);
    PostedAt(s);
    var s', h := Next(s, Fetch), s.avail[0];
    var f := s.live[h].(phase := Fetched);
    FetchRings(s, s', f);
    PhaseDisjoint(s, s', h, f);
    FetchChains(s, s', h, f);
    assert s'.live.Keys == s.live.Keys;
  }

  lemma PostedAt(s: Sys)
    requires RingsOk(s) && |s.avail| > 0
    ensures s.avail[0] in s.live && s.live[s.avail[0]].phase == Posted
  {
    assert s.avail[0] in s.avail;
  }

  lemma FetchChains(s: Sys, s': Sys, h: nat, f: Flight)
    requires ChainsOk(s) && h in s.live && s.live[h].phase == Posted && f == s.live[h].(phase := Fetched)
    requires s'.live == s.live[h := f] && s'.q == s.q
    ensures ChainsOk(s')
  {
    assert ChainOk(s.q, h, s.live[h]) && BufferOk(s.q, s.live[h]);
    assert ChainOk(s.q, h, f) && BufferOk(s.q, f);
    hide ChainOk, BufferOk;
  }

  // Complete.

  /** What serving h does to its own buffer and block, and to nothing else. */
  lemma Served(q: Queue, h: nat, f: Flight)
    requires ChainOk(q, h, f) && BufferOk(q, f) && f.phase == Fetched
    ensures Readable(q, h)
    ensures f.buf < |q.bufs| == |Serve(q, h).bufs| && h < |q.info| && q.bufs[f.buf].blockno < |q.store|
    ensures Sized(Serve(q, h))
    ensures var q', n := Serve(q, h), q.bufs[f.buf].blockno;
            && q'.info == q.info[h := q.info[h].(status := 0)]
            && (f.out ==> q'.store == q.store[n := q.bufs[f.buf].data] && q'.bufs == q.bufs)
            && (!f.out ==> q'.store == q.store && q'.bufs == q.bufs[f.buf := q.bufs[f.buf].(data := q.store[n])])
            && ChainOk(q', h, f.(phase := Answered, block := q'.bufs[f.buf].data))
            && BufferOk(q', f.(phase := Answered, block := q'.bufs[f.buf].data))
  {
  }

  lemma ServedOther(q: Queue, h: nat, f: Flight, k: nat, g: Flight)
    requires ChainOk(q, h, f) && BufferOk(q, f) && f.phase == Fetched && ChainOk(q, k, g) && BufferOk(q, g) && k != h
    requires g.buf != f.buf && Readable(q, h)
    ensures ChainOk(Serve(q, h), k, g) && BufferOk(Serve(q, h), g)
  {
  }

  lemma CompleteRings(s: Sys, s': Sys, h: nat, f: Flight)
    requires RingsOk(s) && |s.used| <= 2 && Sized(s.q) && h in s.live && s.live[h].phase == Fetched
    requires f.phase == Answered
    requires s'.live == s.live[h := f] && s'.used == s.used + [h] && s'.avail == s.avail && s'.done == s.done + 1
    requires s'.posted == s.posted
    requires s'.q.uring == s.q.uring[s.q.doneIdx % NUM := h] && s'.q.doneIdx == (s.q.doneIdx + 1) % IDX
    requires s'.q.ring == s.q.ring && s'.q.availIdx == s.q.availIdx && s'.q.usedIdx == s.q.usedIdx
    ensures RingsOk(s')
  {
    SameSlot(s.done);
    NextIndex(s.done);
    Push(s.q.uring, s.done - |s.used|, s.used, h);
    assert h !in s.used;
    Enter(s.live, s.used, Answered, h, f);
    Stay(s.live, s.avail, Posted, h, f);
    hide Holds, Lists;
  }

  lemma CompleteKeeps(s: Sys, h: nat)
    requires Inv(s) && Enabled(s, Complete(h))
    ensures Inv(Next(s, Complete(h)))
  {
    hide Disjoint, RingsOk, ChainOk, BufferOk, Readable;
    RingsShort(s);
    assert ChainOk(s.q, h, s.live[h]) && BufferOk(s.q, s.live[h]);
    Served(s.q, h, s.live[h]);
    hide ChainsOk;
    var s' := Next(s, Complete(h));
    CompleteRings(s, s', h, s'.live[h]);
    PhaseDisjoint(s, s', h, s'.live[h]);
    CompleteChains(s, s', h);
    assert s'.live.Keys == s.live.Keys;
  }

  lemma CompleteChains(s: Sys, s': Sys, h: nat)
    requires ChainsOk(s) && Disjoint(s) && h in s.live && s.live[h].phase == Fetched && Readable(s.q, h)
    requires s'.q == Serve(s.q, h)
    requires s.live[h].buf < |s'.q.bufs|
    requires s'.live == s.live[h := s.live[h].(phase := Answered, block := s'.q.bufs[s.live[h].buf].data)]
    ensures ChainsOk(s')
  {
    hide ChainOk, BufferOk, Readable, Serve;
    assert ChainOk(s.q, h, s.live[h]) && BufferOk(s.q, s.live[h]);
    Served(s.q, h, s.live[h]);
    forall k: nat | k in s.live && k != h ensures ChainOk(s'.q, k, s.live[k]) && BufferOk(s'.q, s.live[k]) {
      assert ChainOk(s.q, k, s.live[k]) && BufferOk(s.q, s.live[k]);
      ServedOther(s.q, h, s.live[h], k, s.live[k]);
    }
  }

  // Interrupt.

  lemma Acknowledged(q: Queue, h: nat, f: Flight)
    requires ChainOk(q, h, f) && BufferOk(q, f) && f.phase == Answered && !IntrFails(q) && q.uring[q.usedIdx % NUM] == h
    ensures Acknowledge(q).bufs == q.bufs[f.buf := q.bufs[f.buf].(disk := false)]
    ensures ChainOk(Acknowledge(q), h, f.(phase := Seen)) && BufferOk(Acknowledge(q), f.(phase := Seen))
  {
  }

  lemma AcknowledgedOther(q: Queue, h: nat, f: Flight, k: nat, g: Flight)
    requires ChainOk(q, h, f) && !IntrFails(q) && q.uring[q.usedIdx % NUM] == h && ChainOk(q, k, g) && BufferOk(q, g)
    requires g.buf != f.buf
    ensures ChainOk(Acknowledge(q), k, g) && BufferOk(Acknowledge(q), g)
  {
  }

  lemma InterruptRings(s: Sys, s': Sys, f: Flight)
    requires RingsOk(s) && |s.used| > 0 && f.phase == Seen
    requires s'.live == s.live[s.used[0] := f] && s'.used == s.used[1..] && s'.avail == s.avail && s'.done == s.done
    requires s'.posted == s.posted
    requires s'.q.usedIdx == (s.q.usedIdx + 1) % IDX && s'.q.uring == s.q.uring && s'.q.doneIdx == s.q.doneIdx
    requires s'.q.ring == s.q.ring && s'.q.availIdx == s.q.availIdx
    ensures RingsOk(s')
  {
    NextIndex(s.done - |s.used|);
    Pop(s.q.uring, s.done - |s.used|, s.used);
    Leave(s.live, s.used, Answered, f);
    Stay(s.live, s.avail, Posted, s.used[0], f);
    hide Holds, Lists;
  }

  lemma InterruptKeeps(s: Sys)
    requires Inv(s) && Enabled(s, Interrupt)
    ensures Inv(Next(s, Interrupt))
  {
    hide ChainsOk, Disjoint, RingsOk, ChainOk, BufferOk;
    InterruptNeverFails(s);
    DoneAt(s);
    var s', h := Next(s, Interrupt), s.used[0];
    InterruptRings(s, s', s'.live[h]);
    PhaseDisjoint(s, s', h, s'.live[h]);
    InterruptChains(s, s', h);
    assert s'.live.Keys == s.live.Keys;
  }

  lemma DoneAt(s: Sys)
    requires RingsOk(s) && |s.used| > 0
    ensures s.used[0] in s.live && s.live[s.used[0]].phase == Answered
  {
    assert s.used[0] in s.used;
  }

  lemma InterruptChains(s: Sys, s': Sys, h: nat)
    requires ChainsOk(s) && Disjoint(s) && Sized(s.q) && h in s.live && s.live[h].phase == Answered && !IntrFails(s.q)
    requires s.q.uring[s.q.usedIdx % NUM] == h
    requires s'.q == Acknowledge(s.q) && s'.live == s.live[h := s.live[h].(phase := Seen)]
    ensures ChainsOk(s')
  {
    hide ChainOk, BufferOk, IntrFails, Acknowledge;
    assert ChainOk(s.q, h, s.live[h]) && BufferOk(s.q, s.live[h]);
    Acknowledged(s.q, h, s.live[h]);
    forall k: nat | k in s.live && k != h ensures ChainOk(s'.q, k, s.live[k]) && BufferOk(s'.q, s.live[k]) {
      assert ChainOk(s.q, k, s.live[k]) && BufferOk(s.q, s.live[k]);
      AcknowledgedOther(s.q, h, s.live[h], k, s.live[k]);
    }
  }

  // Finish.

  lemma RecycledOther(q: Queue, q': Queue, h: nat, f: Flight, k: nat, g: Flight)
    requires ChainOk(q, h, f) && ChainOk(q, k, g) && BufferOk(q, g) && Parts(h, f) !! Parts(k, g)
    requires q' == q.(info := q.info[h := q.info[h].(b := None)],
                      desc := q.desc[h := Clear][f.mid := Clear][f.last := Clear],
                      free := q.free[h := true][f.mid := true][f.last := true])
    ensures ChainOk(q', k, g) && BufferOk(q', g)
  {
    assert k in Parts(k, g) && g.mid in Parts(k, g) && g.last in Parts(k, g);
    assert h in Parts(h, f) && f.mid in Parts(h, f) && f.last in Parts(h, f);
  }

  lemma FinishRings(s: Sys, s': Sys, h: nat)
    requires RingsOk(s) && h in s.live && s.live[h].phase == Seen
    requires s'.live == s.live - {h} && s'.used == s.used && s'.avail == s.avail && s'.done == s.done
    requires s'.posted == s.posted
    requires s'.q.usedIdx == s.q.usedIdx && s'.q.uring == s.q.uring && s'.q.doneIdx == s.q.doneIdx
    requires s'.q.ring == s.q.ring && s'.q.availIdx == s.q.availIdx
    ensures RingsOk(s')
  {
    Gone(s.live, s.avail, Posted, h);
    Gone(s.live, s.used, Answered, h);
    hide Holds, Lists;
  }

  lemma FinishKeeps(s: Sys, h: nat)
    requires Inv(s) && Enabled(s, Finish(h))
    ensures Inv(Next(s, Finish(h))) && s.live[h].phase == Seen
  {
    hide Disjoint, RingsOk, ChainOk;
    FinishNeverFails(s, h);
    assert ChainOk(s.q, h, s.live[h]) && BufferOk(s.q, s.live[h]);
    hide ChainsOk, BufferOk, Recycle;
    var s' := Next(s, Finish(h));
    FinishRings(s, s', h);
    FinishChains(s, s', h);
    assert s.live.Keys == s'.live.Keys + {h};
  }

  lemma FinishChains(s: Sys, s': Sys, h: nat)
    requires ChainsOk(s) && Disjoint(s) && h in s.live && h < |s.q.info| && s'.live == s.live - {h}
    requires var f := s.live[h];
             && f.mid < |s.q.desc| == |s.q.free| && f.last < |s.q.desc| && h < |s.q.desc|
             && s'.q == s.q.(info := s.q.info[h := s.q.info[h].(b := None)],
                             desc := s.q.desc[h := Clear][f.mid := Clear][f.last := Clear],
                             free := s.q.free[h := true][f.mid := true][f.last := true])
    ensures ChainsOk(s') && Disjoint(s')
  {
    hide ChainOk, BufferOk, Parts;
    assert ChainOk(s.q, h, s.live[h]);
    forall k: nat | k in s'.live ensures ChainOk(s'.q, k, s'.live[k]) && BufferOk(s'.q, s'.live[k]) {
      assert ChainOk(s.q, k, s.live[k]) && BufferOk(s.q, s.live[k]);
      RecycledOther(s.q, s'.q, h, s.live[h], k, s.live[k]);
    }
  }

  // Touch.

  lemma TouchKeeps(s: Sys, x: nat, blockno: nat, data: Block)
    requires Inv(s) && Enabled(s, Touch(x, blockno, data))
    ensures Inv(Next(s, Touch(x, blockno, data)))
  {
    hide RingsOk, Disjoint;
    var s' := Next(s, Touch(x, blockno, data));
    forall h: nat | h in s.live ensures ChainOk(s'.q, h, s.live[h]) && BufferOk(s'.q, s.live[h]) {
      assert ChainOk(s.q, h, s.live[h]) && BufferOk(s.q, s.live[h]);
    }
    hide ChainOk, BufferOk;
    SameRings(s, s');
  }

  lemma SameRings(s: Sys, s': Sys)
    requires RingsOk(s) && Disjoint(s) && s' == s.(q := s.q.(bufs := s'.q.bufs))
    ensures RingsOk(s') && Disjoint(s')
  {
    hide Holds, Lists, Parts;
  }

  // Runs.

  lemma NextKeeps(s: Sys, a: Action)
    requires Inv(s) && Enabled(s, a)
    ensures Inv(Next(s, a))
  {
    hide Inv, Enabled, Next;
    match a
    case Submit(x, out) => SubmitKeeps(s, x, out);
    case Fetch => FetchKeeps(s);
    case Complete(h) => CompleteKeeps(s, h);
    case Interrupt => InterruptKeeps(s);
    case Finish(h) => FinishKeeps(s, h);
    case Touch(x, blockno, data) => TouchKeeps(s, x, blockno, data);
  }

  /** After virtio_disk_init: zeroed rings, every descriptor free, no buffer with the disk. */
  predicate Started(s: Sys) {
    && s.q.desc == seq(NUM, _ => Clear) && s.q.free == seq(NUM, _ => true) && |s.q.ops| == NUM && |s.q.info| == NUM
    && s.q.ring == seq(NUM, _ => 0) && s.q.uring == seq(NUM, _ => 0) && s.q.availIdx == s.q.doneIdx == s.q.usedIdx == 0
    && s.live == map[] && s.avail == [] && s.used == [] && s.posted == s.done == 0
  }

  ghost predicate IsRun(ss: seq<Sys>, acts: seq<Action>) {
    && |ss| == |acts| + 1 && Started(ss[0])
    && forall j: nat :: j < |acts| ==> Enabled(ss[j], acts[j]) && ss[j + 1] == Next(ss[j], acts[j])
  }

  lemma StartedInv(s: Sys)
    requires Started(s)
    ensures Inv(s)
  {
    AllFree(s.q.free);
    hide FreeSet;
  }

  lemma {:induction false} AllFree(free: seq<bool>)
    requires forall i: nat :: i < |free| ==> free[i]
    ensures |FreeSet(free)| == |free|
  {
    if free != [] {
      var n := |free| - 1;
      AllFree(free[..n]);
      assert FreeSet(free) == FreeSet(free[..n]) + {n};
    }
  }

  lemma {:induction false} RunInv(ss: seq<Sys>, acts: seq<Action>, j: nat)
    requires IsRun(ss, acts) && j <= |acts|
    ensures Inv(ss[j])
  {
    hide Inv, Enabled, Next, Started;
    if j == 0 {
      StartedInv(ss[0]);
    } else {
      RunInv(ss, acts, j - 1);
      NextKeeps(ss[j - 1], acts[j - 1]);
    }
  }

  /** In every state of every run: conservation, and requests that share neither descriptors nor buffers. */
  lemma QueueSafety(ss: seq<Sys>, acts: seq<Action>, j: nat)
    requires IsRun(ss, acts) && j <= |acts|
    ensures |FreeSet(ss[j].q.free)| + 3 * |ss[j].live| == NUM
    ensures forall h: nat :: h in ss[j].live ==> |Parts(h, ss[j].live[h])| == 3
    ensures forall h: nat, k: nat :: h in ss[j].live && k in ss[j].live && h != k ==>
              Parts(h, ss[j].live[h]) !! Parts(k, ss[j].live[k]) && ss[j].live[h].buf != ss[j].live[k].buf
  {
    hide Enabled, Next, Started, RingsOk, ChainsOk, Parts, FreeSet;
    RunInv(ss, acts, j);
    forall h: nat | h in ss[j].live ensures |Parts(h, ss[j].live[h])| == 3 {
      ThreeParts(ss[j], h);
    }
  }

  lemma ThreeParts(s: Sys, h: nat)
    requires ChainsOk(s) && h in s.live
    ensures |Parts(h, s.live[h])| == 3
  {
    hide BufferOk;
    assert ChainOk(s.q, h, s.live[h]);
  }

  /** Neither panic of the driver is reached, and neither side meets something it cannot read. */
  lemma NoPanic(ss: seq<Sys>, acts: seq<Action>, j: nat, h: nat)
    requires IsRun(ss, acts) && j <= |acts|
    ensures ss[j].q.usedIdx != ss[j].q.doneIdx ==> Enabled(ss[j], Interrupt)
    ensures Taken(ss[j]) % IDX != ss[j].q.availIdx ==> Enabled(ss[j], Fetch)
    ensures h in ss[j].live && ss[j].live[h].phase == Fetched ==> Enabled(ss[j], Complete(h))
    ensures h in ss[j].live && ss[j].live[h].phase == Seen ==> Enabled(ss[j], Finish(h))
  {
    hide Inv, Next, Started, Readable, IntrFails, Recycle, Three;
    RunInv(ss, acts, j);
    var s := ss[j];
    if s.q.usedIdx != s.q.doneIdx {
      InterruptNeverFails(s);
    }
    if Taken(s) % IDX != s.q.availIdx {
      FetchFinds(s);
    }
    InvSized(s);
    if h in s.live {
      AlwaysReadable(s, h);
      FinishNeverFails(s, h);
      BufferOf(s, h);
    }
  }

  lemma InvSized(s: Sys)
    requires Inv(s)
    ensures Sized(s.q)
  {
  }

  lemma BufferOf(s: Sys, h: nat)
    requires Inv(s) && h in s.live
    ensures BufferOk(s.q, s.live[h])
  {
    hide ChainOk;
  }

  /** virtio_disk_intr clears the disk flag of one buffer, that of a completed request, and touches no other. */
  lemma OnlyCompleted(ss: seq<Sys>, acts: seq<Action>, j: nat)
    requires IsRun(ss, acts) && j < |acts| && acts[j] == Interrupt
    ensures exists h: nat :: h in ss[j].live && ss[j].live[h].phase == Answered && ss[j].live[h].buf < |ss[j].q.bufs|
              && ss[j + 1].q.bufs == ss[j].q.bufs[ss[j].live[h].buf := ss[j].q.bufs[ss[j].live[h].buf].(disk := false)]
  {
    hide Inv, Started, Readable, Recycle, Three;
    RunInv(ss, acts, j);
    var s := ss[j];
    InterruptNeverFails(s);
    OneDone(s);
    var h := s.used[0];
    assert ss[j + 1].q.bufs == s.q.bufs[s.live[h].buf := s.q.bufs[s.live[h].buf].(disk := false)];
  }

  lemma OneDone(s: Sys)
    requires Inv(s) && |s.used| > 0
    ensures var h := s.used[0];
            h in s.live && s.live[h].phase == Answered && h < NUM && h < |s.q.info|
              && s.q.info[h].b == Some(s.live[h].buf) && s.live[h].buf < |s.q.bufs|
  {
    DoneAt(s);
    assert ChainOk(s.q, s.used[0], s.live[s.used[0]]);
  }

  /**
   A request completes as asked: a read leaves the block's contents in the buffer, a write leaves the buffer in
   the block, and nothing else on the disk or in another buffer changes.
   */
  lemma CompletesAsAsked(ss: seq<Sys>, acts: seq<Action>, j: nat, h: nat)
    requires IsRun(ss, acts) && j < |acts| && acts[j] == Complete(h)
    ensures h in ss[j].live && ss[j].live[h].buf < |ss[j].q.bufs|
    ensures var q, q', f := ss[j].q, ss[j + 1].q, ss[j].live[h];
            var n := q.bufs[f.buf].blockno;
            && n < |q.store|
            && (f.out ==> q'.store == q.store[n := f.block] && q'.bufs == q.bufs)
            && (!f.out ==> q'.store == q.store && q'.bufs == q.bufs[f.buf := q.bufs[f.buf].(data := q.store[n])])
  {
    hide Inv, Started, Readable, Recycle, Three, Serve;
    RunInv(ss, acts, j);
    ServedAt(ss[j], h);
    assert Enabled(ss[j], acts[j]);
  }

  lemma ServedAt(s: Sys, h: nat)
    requires Inv(s) && h in s.live && s.live[h].phase == Fetched
    ensures Readable(s.q, h) && s.live[h].buf < |s.q.bufs| && s.q.bufs[s.live[h].buf].blockno < |s.q.store|
    ensures var q, q', f := s.q, Serve(s.q, h), s.live[h];
            var n := q.bufs[f.buf].blockno;
            && (f.out ==> q'.store == q.store[n := f.block] && q'.bufs == q.bufs)
            && (!f.out ==> q'.store == q.store && q'.bufs == q.bufs[f.buf := q.bufs[f.buf].(data := q.store[n])])
  {
    assert ChainOk(s.q, h, s.live[h]) && BufferOk(s.q, s.live[h]);
    hide Inv, ChainOk;
    Served(s.q, h, s.live[h]);
  }

  /**
   Event i completed the request that h still is at time j: same buffer, same block number, and the
   request's data are what the block held then, or what the block was given.
   */
  ghost predicate ServedBy(ss: seq<Sys>, acts: seq<Action>, i: nat, j: nat, h: nat)
    requires |ss| == |acts| + 1 && j <= |acts|
  {
    && i < j && acts[i] == Complete(h) && h in ss[i].live && h in ss[j].live
    && SameRequest(ss[i], ss[j], h)
    && var n := ss[i].q.bufs[ss[i].live[h].buf].blockno;
       && n < |ss[i].q.store| && n < |ss[i + 1].q.store|
       && ss[j].live[h].block == if ss[j].live[h].out then ss[i + 1].q.store[n] else ss[i].q.store[n]
  }

  predicate SameRequest(s: Sys, s': Sys, h: nat)
    requires h in s.live && h in s'.live
  {
    && s'.live[h].buf == s.live[h].buf && s'.live[h].out == s.live[h].out
    && s.live[h].buf < |s.q.bufs| && s.live[h].buf < |s'.q.bufs|
    && s'.q.bufs[s.live[h].buf].blockno == s.q.bufs[s.live[h].buf].blockno
  }

  predicate Completed(s: Sys, h: nat) {
    h in s.live && (s.live[h].phase == Answered || s.live[h].phase == Seen)
  }

  /** The step that completes a request. */
  lemma CompletedNow(s: Sys, h: nat)
    requires Inv(s) && Enabled(s, Complete(h))
    ensures var s' := Next(s, Complete(h));
            && h in s.live && h in s'.live && SameRequest(s, s', h)
            && var n := s.q.bufs[s.live[h].buf].blockno;
               && n < |s.q.store| && n < |s'.q.store|
               && s'.live[h].block == if s'.live[h].out then s'.q.store[n] else s.q.store[n]
  {
    hide Inv, Serve, Readable;
    ServedAt(s, h);
    BufferOf(s, h);
  }

  /** Every other step leaves a completed request what it is. */
  lemma CompletedBefore(s: Sys, a: Action, h: nat)
    requires Inv(s) && Enabled(s, a) && a != Complete(h) && Completed(Next(s, a), h)
    ensures Completed(s, h) && SameRequest(s, Next(s, a), h) && Next(s, a).live[h].block == s.live[h].block
  {
    hide Inv, Serve, Readable, Recycle, Three, IntrFails, Acknowledge;
    if h in s.live {
      BufferOf(s, h);
    }
    match a
    case Submit(x, out) => ThreeIff(s.q.free);
    case Complete(k) => ServedAt(s, k);
    case Interrupt =>
      AcknowledgeKeeps(s.q);
      InterruptNeverFails(s);
      OneDone(s);
    case Finish(k) => FinishNeverFails(s, k);
    case _ =>
  }

  lemma AcknowledgeKeeps(q: Queue)
    requires Sized(q) && !IntrFails(q)
    ensures |Acknowledge(q).bufs| == |q.bufs|
    ensures forall x: nat :: x < |q.bufs| ==> Acknowledge(q).bufs[x].blockno == q.bufs[x].blockno
  {
  }

  lemma {:induction false} HasServed(ss: seq<Sys>, acts: seq<Action>, j: nat, h: nat)
    requires IsRun(ss, acts) && j <= |acts| && Completed(ss[j], h)
    ensures exists i: nat :: ServedBy(ss, acts, i, j, h)
  {
    hide Inv, Enabled, Next, Started;
    if j == 0 {
      NoneAtFirst(ss[0], h);
    } else {
      RunInv(ss, acts, j - 1);
      var s, a := ss[j - 1], acts[j - 1];
      if a == Complete(h) {
        CompletedNow(s, h);
        assert ServedBy(ss, acts, j - 1, j, h);
      } else {
        CompletedBefore(s, a, h);
        HasServed(ss, acts, j - 1, h);
        var i: nat :| ServedBy(ss, acts, i, j - 1, h);
        assert ServedBy(ss, acts, i, j, h);
      }
    }
  }

  lemma NoneAtFirst(s: Sys, h: nat)
    requires Started(s)
    ensures !Completed(s, h)
  {
  }

  /**
   virtio_disk_rw returns only after its own request was completed: a read then has in its buffer what
   its block held at the completion, a write's buffer is what its block held right after it.
   */
  lemma ReturnsServed(ss: seq<Sys>, acts: seq<Action>, j: nat, h: nat)
    requires IsRun(ss, acts) && j < |acts| && acts[j] == Finish(h)
    ensures h in ss[j].live && ss[j].live[h].phase == Seen && ss[j].live[h].buf < |ss[j].q.bufs|
    ensures ss[j].q.bufs[ss[j].live[h].buf].data == ss[j].live[h].block
    ensures exists i: nat :: ServedBy(ss, acts, i, j, h)
  {
    hide Inv, Next, Started, Recycle, Three;
    RunInv(ss, acts, j);
    assert Enabled(ss[j], acts[j]);
    BufferOf(ss[j], h);
    HasServed(ss, acts, j, h);
  }
}
