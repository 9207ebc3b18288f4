/**
 The virtio block driver (kernel/src/virtio_disk.c) and the split virtqueue it shares with the device
 (sections 2.6 and 5.2 of OASIS VIRTIO 1.1), as one transition system. The driver's steps are its critical
 sections; the device fetches and completes requests in any order in between.
 */
module Virtq {
  import opened Common
  import opened Blocks

  const NUM: nat := 8
  const IDX: nat := 0x1_0000
  const NEXT: nat := 1   // VRING_DESC_F_NEXT
  const WRITE: nat := 2  // VRING_DESC_F_WRITE

  /** What a descriptor points to: a request header, a buffer's data, a status byte. */
  datatype Addr = NoAddr | Header(i: nat) | Data(b: nat) | Status(i: nat)

  datatype Desc = Desc(addr: Addr, len: nat, flags: nat, next: nat)

  const Clear: Desc := Desc(NoAddr, 0, 0, 0)

  /** struct virtio_blk_req */
  datatype Req = Req(out: bool, sector: nat)

  datatype Info = Info(b: Option<nat>, status: nat)

  datatype Buf = Buf(disk: bool, blockno: nat, data: Block)

  /**
   Memory as driver and device see it. ring and availIdx are the driver's side of the available ring, uring
   and doneIdx the device's side of the used ring, usedIdx how far the driver has read it.
   */
  datatype Queue = Queue(
    desc: seq<Desc>, free: seq<bool>, ops: seq<Req>, info: seq<Info>,
    ring: seq<nat>, availIdx: nat, uring: seq<nat>, doneIdx: nat, usedIdx: nat,
    bufs: seq<Buf>, store: seq<Block>)

  predicate Sized(q: Queue) {
    && |q.desc| == |q.free| == |q.ops| == |q.info| == |q.ring| == |q.uring| == NUM
    && q.availIdx < IDX && q.doneIdx < IDX && q.usedIdx < IDX
  }

  // Descriptors.

  /** alloc_desc: the first free descriptor from i on; |free| if there is none. */
  function FirstFree(free: seq<bool>, i: nat): (r: nat)
    requires i <= |free|
    ensures i <= r <= |free| && (r < |free| ==> free[r]) && forall j: nat :: i <= j < r ==> !free[j]
    decreases |free| - i
  {
    if i == |free| || free[i] then i else FirstFree(free, i + 1)
  }

  function FreeSet(free: seq<bool>): set<nat> {
    set i: nat | i < |free| && free[i]
  }

  function BusySet(free: seq<bool>): set<nat> {
    set i: nat | i < |free| && !free[i]
  }

  /** alloc3_desc: three free descriptors, or none. */
  function Three(free: seq<bool>): (r: Option<(nat, nat, nat)>) {
    var a := FirstFree(free, 0);
    if a == |free| then None
    else
      var b := FirstFree(free[a := false], 0);
      if b == |free| then None
      else
        var c := FirstFree(free[a := false][b := false], 0);
        if c == |free| then None else Some((a, b, c))
  }

  /** alloc3_desc succeeds exactly when three descriptors are free; it then takes three different ones. */
  lemma ThreeIff(free: seq<bool>)
    ensures Three(free).Some? <==> |FreeSet(free)| >= 3
    ensures Three(free).Some? ==>
              var (a, b, c) := Three(free).value;
              && a < |free| && b < |free| && c < |free| && a != b && a != c && b != c && free[a] && free[b] && free[c]
              && |FreeSet(free[a := false][b := false][c := false])| == |FreeSet(free)| - 3
  {
    var a := FirstFree(free, 0);
    if a == |free| {
      assert FreeSet(free) == {};
    } else {
      TakeOne(free, a);
      var f1 := free[a := false];
      var b := FirstFree(f1, 0);
      if b == |free| {
        assert FreeSet(f1) == {};
      } else {
        TakeOne(f1, b);
        var f2 := f1[b := false];
        var c := FirstFree(f2, 0);
        if c == |free| {
          assert FreeSet(f2) == {};
        } else {
          TakeOne(f2, c);
        }
      }
    }
  }

  lemma TakeOne(free: seq<bool>, i: nat)
    requires i < |free| && free[i]
    ensures |FreeSet(free[i := false])| == |FreeSet(free)| - 1
  {
    assert FreeSet(free) == FreeSet(free[i := false]) + {i};
  }

  lemma GiveOne(free: seq<bool>, i: nat)
    requires i < |free| && !free[i]
    ensures |FreeSet(free[i := true])| == |FreeSet(free)| + 1
  {
    assert FreeSet(free[i := true]) == FreeSet(free) + {i};
  }

  datatype Table = Table(desc: seq<Desc>, free: seq<bool>)

  /** free_chain from i; None where free_desc panics. */
  function FreeChain(t: Table, i: nat): (r: Option<Table>)
    requires |t.desc| == |t.free|
    ensures r.Some? ==> |r.value.desc| == |r.value.free| == |t.desc|
    decreases BusySet(t.free)
  {
    if i >= |t.free| || t.free[i] then None
    else
      var d := t.desc[i];
      var t' := Table(t.desc[i := Clear], t.free[i := true]);
      assert i in BusySet(t.free) && i !in BusySet(t'.free);
      if d.flags % 2 == NEXT then FreeChain(t', d.next) else Some(t')
  }

  /** On a chain of three, free_chain terminates and frees exactly these three. */
  lemma FreesThree(t: Table, a: nat, b: nat, c: nat)
    requires |t.desc| == |t.free| && a < |t.free| && b < |t.free| && c < |t.free| && a != b && a != c && b != c
    requires !t.free[a] && !t.free[b] && !t.free[c]
    requires t.desc[a].flags % 2 == NEXT && t.desc[a].next == b && t.desc[b].flags % 2 == NEXT && t.desc[b].next == c
    requires t.desc[c].flags % 2 != NEXT
    ensures FreeChain(t, a)
            == Some(Table(t.desc[a := Clear][b := Clear][c := Clear], t.free[a := true][b := true][c := true]))
    ensures |FreeSet(t.free[a := true][b := true][c := true])| == |FreeSet(t.free)| + 3
  {
    var t1 := Table(t.desc[a := Clear], t.free[a := true]);
    var t2 := Table(t1.desc[b := Clear], t1.free[b := true]);
    assert FreeChain(t1, b) == FreeChain(t2, c);
    GiveOne(t.free, a);
    GiveOne(t1.free, b);
    GiveOne(t2.free, c);
  }

  // The driver's critical sections and the device's steps, on the memory.

  /** virtio_disk_rw up to the notification: descriptors a, b, c carry the request for buffer x. */
  function Post(q: Queue, x: nat, out: bool, a: nat, b: nat, c: nat): Queue
    requires Sized(q) && x < |q.bufs| && a < NUM && b < NUM && c < NUM
  {
    q.(free := q.free[a := false][b := false][c := false],
       ops := q.ops[a := Req(out, q.bufs[x].blockno * 2)],
       desc := q.desc[a := Desc(Header(a), 16, NEXT, b)]
                     [b := Desc(Data(x), BSIZE, if out then NEXT else NEXT + WRITE, c)]
                     [c := Desc(Status(a), 1, WRITE, 0)],
       info := q.info[a := Info(Some(x), 0xFF)],
       bufs := q.bufs[x := q.bufs[x].(disk := true)],
       ring := q.ring[q.availIdx % NUM := a],
       availIdx := (q.availIdx + 1) % IDX)
  }

  /** The device can follow the chain from h and finds a whole request. */
  predicate Readable(q: Queue, h: nat) {
    && Sized(q) && h < NUM
    && var d0 := q.desc[h];
       d0.flags == NEXT && d0.next < NUM && d0.addr.Header? && d0.addr.i < NUM && d0.len == 16
       && var d1, req := q.desc[d0.next], q.ops[d0.addr.i];
          && d1.flags == (if req.out then NEXT else NEXT + WRITE) && d1.next < NUM && d1.addr.Data?
          && d1.addr.b < |q.bufs| && d1.len == BSIZE
          && req.sector % 2 == 0 && req.sector / 2 < |q.store|
          && var d2 := q.desc[d1.next];
             d2.flags == WRITE && d2.addr.Status? && d2.addr.i < NUM && d2.len == 1
  }

  /** The device serves request h: it moves the data, writes status 0 and adds h to the used ring. */
  function Serve(q: Queue, h: nat): Queue
    requires Readable(q, h)
  {
    var d0 := q.desc[h];
    var d1 := q.desc[d0.next];
    var d2 := q.desc[d1.next];
    var req, x := q.ops[d0.addr.i], d1.addr.b;
    var n := req.sector / 2;
    var moved := if req.out then q.(store := q.store[n := q.bufs[x].data])
                 else q.(bufs := q.bufs[x := q.bufs[x].(data := q.store[n])]);
    moved.(info := q.info[d2.addr.i := q.info[d2.addr.i].(status := 0)],
           uring := q.uring[q.doneIdx % NUM := h],
           doneIdx := (q.doneIdx + 1) % IDX)
  }

  /** virtio_disk_intr panics on this used entry, or has no buffer to give back. */
  predicate IntrFails(q: Queue)
    requires Sized(q)
  {
    var id := q.uring[q.usedIdx % NUM];
    id >= NUM || q.info[id].status != 0 || q.info[id].b.None? || q.info[id].b.value >= |q.bufs|
  }

  /** One turn of the loop of virtio_disk_intr. */
  function Acknowledge(q: Queue): Queue
    requires Sized(q) && !IntrFails(q)
  {
    var x := q.info[q.uring[q.usedIdx % NUM]].b.value;
    q.(bufs := q.bufs[x := q.bufs[x].(disk := false)], usedIdx := (q.usedIdx + 1) % IDX)
  }

  /** The end of virtio_disk_rw: the chain goes back. None where free_desc panics. */
  function Recycle(q: Queue, h: nat): Option<Queue>
    requires Sized(q) && h < NUM
  {
    var t := FreeChain(Table(q.desc, q.free), h);
    if t.None? then None
    else Some(q.(info := q.info[h := q.info[h].(b := None)], desc := t.value.desc, free := t.value.free))
  }
}
