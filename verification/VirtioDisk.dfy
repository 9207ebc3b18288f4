/** The driver's code (kernel/src/virtio_disk.c) over its tables, proved to be the steps of module Virtq. */
module VirtioDisk {
  import opened Common
  import opened Blocks
  import opened Virtq

  class Memdisk {
    const isFree: array<bool>
    const desc: array<Desc>
    const ops: array<Req>
    const info: array<Info>
    const ring: array<nat>   // avail->ring
    var availIdx: nat        // avail->idx
    var usedIdx: nat

    constructor ()
      ensures fresh(isFree) && fresh(desc) && fresh(ops) && fresh(info) && fresh(ring) && Valid()
      ensures isFree[..] == seq(NUM, _ => true) && desc[..] == seq(NUM, _ => Clear) && ring[..] == seq(NUM, _ => 0)
      ensures availIdx == usedIdx == 0
    {
      isFree := new bool[NUM](_ => true);
      desc := new Desc[NUM](_ => Clear);
      ops := new Req[NUM](_ => Req(false, 0));
      info := new Info[NUM](_ => Info(None, 0));
      ring := new nat[NUM](_ => 0);
      availIdx, usedIdx := 0, 0;
    }

    predicate Valid()
      reads this
    {
      isFree.Length == desc.Length == ops.Length == info.Length == ring.Length == NUM && availIdx < IDX && usedIdx < IDX
    }

    /** The tables together with the device's side of the queue, the buffers and the disk. */
    ghost function Whole(uring: seq<nat>, doneIdx: nat, bufs: seq<Buf>, store: seq<Block>): Queue
      reads this, isFree, desc, ops, info, ring
    {
      Queue(desc[..], isFree[..], ops[..], info[..], ring[..], availIdx, uring, doneIdx, usedIdx, bufs, store)
    }

    /** alloc_desc; NUM stands for -1. */
    method AllocDesc() returns (i: nat)
      requires Valid()
      modifies isFree
      ensures i == FirstFree(old(isFree[..]), 0)
      ensures isFree[..] == if i < NUM then old(isFree[..])[i := false] else old(isFree[..])
    {
      i := 0;
      while i < NUM && !isFree[i]
        invariant i <= NUM && FirstFree(isFree[..], 0) == FirstFree(isFree[..], i) && isFree[..] == old(isFree[..])
      {
        i := i + 1;
      }
      if i < NUM {
        isFree[i] := false;
      }
    }

    /** free_desc panics on an index out of range and on a descriptor that is free already. */
    method FreeDesc(i: nat) returns (r: Outcome)
      requires Valid()
      modifies isFree, desc
      ensures r.Panic? <==> i >= NUM || old(isFree[..])[i]
      ensures r.Panic? ==> isFree[..] == old(isFree[..]) && desc[..] == old(desc[..])
      ensures r.Done? ==> isFree[..] == old(isFree[..])[i := true] && desc[..] == old(desc[..])[i := Clear]
    {
      if i >= NUM {
        return Panic;
      }
      if isFree[i] {
        return Panic;
      }
      desc[i] := Clear;
      isFree[i] := true;
      return Done;
    }

    /** alloc3_desc takes three descriptors, or gives back what it took; giving back clears a descriptor. */
    method Alloc3Desc() returns (ok: bool, a: nat, b: nat, c: nat)
      requires Valid()
      modifies isFree, desc
      ensures ok <==> Three(old(isFree[..])).Some?
      ensures ok ==>
                && Three(old(isFree[..])).value == (a, b, c)
                && isFree[..] == old(isFree[..])[a := false][b := false][c := false]
      ensures !ok ==> isFree[..] == old(isFree[..])
      ensures ok ==> desc[..] == old(desc[..])
      ensures !ok ==> forall i: nat :: i < NUM ==> desc[i] == old(desc[i]) || (isFree[i] && desc[i] == Clear)
    {
      ghost var f := isFree[..];
      b, c := 0, 0;
      a := AllocDesc();
      if a == NUM {
        return false, a, b, c;
      }
      b := AllocDesc();
      if b == NUM {
        var r := FreeDesc(a);
        assert isFree[..] == f;
        return false, a, b, c;
      }
      c := AllocDesc();
      if c == NUM {
        var r := FreeDesc(a);
        r := FreeDesc(b);
        assert isFree[..] == f;
        return false, a, b, c;
      }
      ok := true;
    }

    /** free_chain follows the chain as FreeChain does, and panics where it does. */
    method FreeChainFrom(head: nat) returns (r: Outcome)
      requires Valid()
      modifies isFree, desc
      ensures var t := FreeChain(Table(old(desc[..]), old(isFree[..])), head);
              && (r.Panic? <==> t.None?)
              && (r.Done? ==> t.value == Table(desc[..], isFree[..]))
    {
      var i: nat, more := head, true;
      ghost var goal := FreeChain(Table(desc[..], isFree[..]), head);
      while more
        invariant more ==> FreeChain(Table(desc[..], isFree[..]), i) == goal
        invariant !more ==> goal == Some(Table(desc[..], isFree[..]))
        decreases BusySet(isFree[..]), more
      {
        if i >= NUM {
          return Panic;
        }
        var d := desc[i];
        ghost var busy := isFree[..];
        r := FreeDesc(i);
        if r.Panic? {
          return;
        }
        assert i in BusySet(busy) && i !in BusySet(isFree[..]);
        more := d.flags % 2 == NEXT;
        i := if more then d.next else i;
      }
      r := Done;
    }

    /** virtio_disk_rw up to the notification, once three descriptors are found: the step Post. */
    method Post(bufs: seq<Buf>, x: nat, out: bool, a: nat, b: nat, c: nat) returns (bufs': seq<Buf>)
      requires Valid() && x < |bufs| && a < NUM && b < NUM && c < NUM && !isFree[a] && !isFree[b] && !isFree[c]
      modifies this, desc, ops, info, ring
      ensures Valid()
      ensures forall uring: seq<nat>, doneIdx: nat, store: seq<Block> {:trigger Whole(uring, doneIdx, bufs', store)} ::
                |uring| == NUM && doneIdx < IDX ==>
                Whole(uring, doneIdx, bufs', store)
                  == Virtq.Post(old(Whole(uring, doneIdx, bufs, store)), x, out, a, b, c)
    {
      ghost var f := isFree[..];
      ops[a] := Req(out, bufs[x].blockno * (BSIZE / 512));
      desc[a] := Desc(Header(a), 16, NEXT, b);
      desc[b] := Desc(Data(x), BSIZE, if out then NEXT else NEXT + WRITE, c);
      info[a] := info[a].(status := 0xFF);
      desc[c] := Desc(Status(a), 1, WRITE, 0);
      bufs' := bufs[x := bufs[x].(disk := true)];
      info[a] := info[a].(b := Some(x));
      ring[availIdx % NUM] := a;
      availIdx := (availIdx + 1) % IDX;
      assert f[a := false][b := false][c := false] == f;
    }

    /** The end of virtio_disk_rw: the step Recycle. */
    method Finish(h: nat) returns (r: Outcome)
      requires Valid() && h < NUM
      modifies isFree, desc, info
      ensures r.Panic? <==> FreeChain(Table(old(desc[..]), old(isFree[..])), h).None?
      ensures r.Done? ==>
                forall uring: seq<nat>, doneIdx: nat, bufs: seq<Buf>, store: seq<Block>
                    {:trigger Whole(uring, doneIdx, bufs, store)} ::
                |uring| == NUM && doneIdx < IDX ==>
                Recycle(old(Whole(uring, doneIdx, bufs, store)), h) == Some(Whole(uring, doneIdx, bufs, store))
    {
      info[h] := info[h].(b := None);
      r := FreeChainFrom(h);
    }
  }

  /** The used ring as virtio_disk_intr works through it, n entries from the driver's index on. */
  ghost function Acknowledged(q: Queue, n: nat): Option<Queue>
    requires Sized(q)
    decreases n
  {
    if n == 0 then Some(q)
    else if IntrFails(q) then None
    else Acknowledged(Acknowledge(q), n - 1)
  }

  /**
   virtio_disk_intr: as many turns as the device's index is ahead, each the step Acknowledge, or a panic
   where one fails.
   */
  method Intr(m: Memdisk, uring: seq<nat>, doneIdx: nat, bufs: seq<Buf>, ghost store: seq<Block>)
    returns (r: Outcome, bufs': seq<Buf>)
    requires m.Valid() && |uring| == NUM && doneIdx < IDX
    modifies m
    ensures m.Valid()
    ensures var q := Acknowledged(old(m.Whole(uring, doneIdx, bufs, store)), (doneIdx - old(m.usedIdx)) % IDX);
            && (r.Panic? <==> q.None?)
            && (r.Done? ==> q.value == m.Whole(uring, doneIdx, bufs', store) && m.usedIdx == doneIdx)
  {
    hide Acknowledged;
    bufs' := bufs;
    ghost var goal := Acknowledged(m.Whole(uring, doneIdx, bufs, store), (doneIdx - m.usedIdx) % IDX);
    while m.usedIdx != doneIdx
      invariant m.Valid()
      invariant goal == Acknowledged(m.Whole(uring, doneIdx, bufs', store), (doneIdx - m.usedIdx) % IDX)
      decreases (doneIdx - m.usedIdx) % IDX
    {
      StepCloser(m.usedIdx, doneIdx);
      ghost var q := m.Whole(uring, doneIdx, bufs', store);
      AckMore(q, (doneIdx - m.usedIdx) % IDX);
      var id := uring[m.usedIdx % NUM];
      if id >= NUM || m.info[id].status != 0 || m.info[id].b.None? || m.info[id].b.value >= |bufs'| {
        return Panic, bufs';
      }
      var x := m.info[id].b.value;
      bufs' := bufs'[x := bufs'[x].(disk := false)];
      m.usedIdx := (m.usedIdx + 1) % IDX;
      assert m.Whole(uring, doneIdx, bufs', store) == Acknowledge(q);
    }
    AckNone(m.Whole(uring, doneIdx, bufs', store));
    r := Done;
  }

  lemma AckMore(q: Queue, n: nat)
    requires Sized(q) && n > 0
    ensures Acknowledged(q, n) == if IntrFails(q) then None else Acknowledged(Acknowledge(q), n - 1)
  {
  }

  lemma AckNone(q: Queue)
    requires Sized(q)
    ensures Acknowledged(q, 0) == Some(q)
  {
  }

  lemma StepCloser(u: nat, d: nat)
    requires u < IDX && d < IDX && u != d
    ensures (d - u) % IDX > 0 && (d - (u + 1) % IDX) % IDX == (d - u) % IDX - 1
  {
  }
}
