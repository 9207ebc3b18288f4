/**
 The buffer cache as kernel/src/bio.c keeps it: a doubly linked list threaded through the buffers
 and relinked in place. Each method is proved to compute the function of the same name on `Cache`.
 */
module Bio {
  import opened Common
  import opened Blocks
  import opened BufferCache

  // The linked list. `head` is the sentinel bcache.head: it stands before position 1 and
  // after position |lru|.

  function Node(lru: seq<nat>, head: nat, j: nat): nat
    requires j <= |lru| + 1
  {
    if j == 0 || j == |lru| + 1 then head else lru[j - 1]
  }

  ghost predicate Linked(next: seq<nat>, prev: seq<nat>, lru: seq<nat>, head: nat) {
    && head < |next| == |prev|
    && (forall i :: 0 <= i < |lru| ==> lru[i] < |next| && lru[i] != head)
    && (forall i, j :: 0 <= i < j < |lru| ==> lru[i] != lru[j])
    && (forall i, j {:trigger Node(lru, head, i), Node(lru, head, j)} :: 0 <= i && j == i + 1 && j <= |lru| + 1 ==>
          && next[Node(lru, head, i)] == Node(lru, head, j)
          && prev[Node(lru, head, j)] == Node(lru, head, i))
  }

  /** `b->next->prev = b->prev; b->prev->next = b->next` takes position k out of the list. */
  lemma Unlink(next: seq<nat>, prev: seq<nat>, lru: seq<nat>, head: nat, k: nat)
    requires Linked(next, prev, lru, head) && k < |lru|
    ensures var b := lru[k];
            && next[b] < |next| && prev[b] < |next|
            && Linked(next[prev[b] := next[b]], prev[next[b] := prev[b]], lru[..k] + lru[k + 1..], head)
  {
    var b, rest := lru[k], lru[..k] + lru[k + 1..];
    assert Node(lru, head, k + 1) == b;
    assert next[b] == Node(lru, head, k + 2) && prev[b] == Node(lru, head, k);
    var next', prev' := next[prev[b] := next[b]], prev[next[b] := prev[b]];
    forall i, j | 0 <= i && j == i + 1 && j <= |rest| + 1
      ensures next'[Node(rest, head, i)] == Node(rest, head, j) && prev'[Node(rest, head, j)] == Node(rest, head, i)
    {
      assert Node(rest, head, i) == Node(lru, head, if i <= k then i else i + 1);
      assert Node(rest, head, j) == Node(lru, head, if j <= k then j else j + 1);
      assert Node(lru, head, i + 2) == Node(lru, head, j + 1);
    }
  }

  /** The four assignments that put b right behind the sentinel. */
  lemma LinkFront(next: seq<nat>, prev: seq<nat>, lru: seq<nat>, head: nat, b: nat)
    requires Linked(next, prev, lru, head) && b < |next| && b != head && b !in lru
    ensures next[head] < |next|
    ensures Linked(next[b := next[head]][head := b], prev[b := head][next[head] := b], [b] + lru, head)
  {
    var more := [b] + lru;
    assert Node(lru, head, 0) == head && next[head] == Node(lru, head, 1);
    var next', prev' := next[b := next[head]][head := b], prev[b := head][next[head] := b];
    forall i, j | 0 <= i && j == i + 1 && j <= |more| + 1
      ensures next'[Node(more, head, i)] == Node(more, head, j) && prev'[Node(more, head, j)] == Node(more, head, i)
    {
      if i >= 1 {
        assert i >= 2 ==> Node(more, head, i) == Node(lru, head, i - 1);
        assert Node(more, head, j) == Node(lru, head, j - 1);
      }
    }
  }

  /** The disk behind the cache. Every block write is one step, recorded in `trace`. */
  class Device {
    var blocks: seq<Block>
    ghost var trace: seq<seq<Block>>

    constructor (image: seq<Block>)
      ensures blocks == image && trace == []
    {
      blocks, trace := image, [];
    }

    method Write(b: nat, data: Block)
      requires b < |blocks|
      modifies this
      ensures blocks == old(blocks)[b := data]
      ensures trace == old(trace) + [blocks]
    {
      blocks := blocks[b := data];
      trace := trace + [blocks];
    }
  }

  class Bcache {
    const device: Device
    const bufs: array<Buf>
    const next: array<nat>
    const prev: array<nat>
    ghost var lru: seq<nat>

    ghost predicate Valid()
      reads this, bufs, next, prev
    {
      && next != prev
      && next.Length == prev.Length == bufs.Length + 1
      && Permutation(lru, bufs.Length)
      && Linked(next[..], prev[..], lru, bufs.Length)
    }

    ghost function Value(): Cache
      reads this, bufs
    {
      Cache(bufs[..], lru)
    }

    /** binit: every buffer describes block 0 of device 0 and is unreferenced. */
    constructor (d: Device)
      ensures Valid() && fresh(bufs) && fresh(next) && fresh(prev) && device == d
      ensures bufs.Length == NBUF
      ensures forall i :: 0 <= i < NBUF ==> bufs[i] == Buf(0, 0, false, 0, ZeroBlock())
    {
      device := d;
      bufs := new Buf[NBUF](_ => Buf(0, 0, false, 0, ZeroBlock()));
      next := new nat[NBUF + 1](_ => NBUF);
      prev := new nat[NBUF + 1](_ => NBUF);
      lru := [];
      new;
      for b := 0 to NBUF
        invariant |lru| == b && forall i :: 0 <= i < b ==> lru[i] == b - 1 - i
        invariant next.Length == prev.Length == NBUF + 1 && next != prev
        invariant Linked(next[..], prev[..], lru, NBUF)
        invariant forall i :: 0 <= i < NBUF ==> bufs[i] == Buf(0, 0, false, 0, ZeroBlock())
      {
        LinkFront(next[..], prev[..], lru, NBUF, b);
        next[b] := next[NBUF];
        prev[b] := NBUF;
        prev[next[NBUF]] := b;
        next[NBUF] := b;
        lru := [b] + lru;
      }
      forall v: nat | v < NBUF ensures v in lru {
        assert lru[NBUF - 1 - v] == v;
      }
    }

    /** bget's first scan, from the most recently used buffer on; bufs.Length if no buffer matches. */
    method Scan(dev: nat, blockno: nat) returns (b: nat)
      requires Valid()
      ensures match Hit(Value(), dev, blockno, 0)
              case Some(i) => b == i < bufs.Length
              case None => b == bufs.Length
    {
      ghost var c, head := Value(), bufs.Length;
      ghost var k: nat := 0;
      assert Node(lru, head, 0) == head && Node(lru, head, 1) == next[..][head];
      b := next[bufs.Length];
      while b != bufs.Length
        invariant k <= |lru| && b == Node(lru, head, k + 1)
        invariant Hit(c, dev, blockno, 0) == Hit(c, dev, blockno, k)
        decreases |lru| - k
      {
        if bufs[b].dev == dev && bufs[b].blockno == blockno {
          return;
        }
        assert Node(lru, head, k + 2) == next[..][b];
        b := next[b];
        k := k + 1;
      }
    }

    /** bget's second scan, from the least recently used buffer on; bufs.Length if every buffer is referenced. */
    method Recycle() returns (b: nat)
      requires Valid()
      ensures match Victim(Value(), |lru|)
              case Some(i) => b == i < bufs.Length
              case None => b == bufs.Length
    {
      ghost var c, head := Value(), bufs.Length;
      ghost var k: nat := |lru|;
      assert Node(lru, head, k + 1) == head && Node(lru, head, k) == prev[..][head];
      b := prev[bufs.Length];
      while b != bufs.Length
        invariant k <= |lru| && b == Node(lru, head, k)
        invariant Victim(c, |lru|) == Victim(c, k)
        decreases k
      {
        if bufs[b].refcnt == 0 {
          return;
        }
        assert Node(lru, head, k - 1) == prev[..][b];
        b := prev[b];
        k := k - 1;
      }
    }

    method Bget(dev: nat, blockno: nat) returns (r: Option<nat>)
      requires Valid()
      modifies bufs
      ensures Valid() && lru == old(lru)
      ensures match BufferCache.Bget(old(Value()), dev, blockno)
              case Some((c, i)) => r == Some(i) && Value() == c
              case None => r.None? && Value() == old(Value())
    {
      hide Linked, Permutation;
      var b := Scan(dev, blockno);
      if b < bufs.Length {
        bufs[b] := bufs[b].(refcnt := bufs[b].refcnt + 1);
        return Some(b);
      }
      b := Recycle();
      if b < bufs.Length {
        bufs[b] := Buf(dev, blockno, false, 1, bufs[b].data);
        return Some(b);
      }
      return None;
    }

    /** bread fills a buffer that bget recycled, so the caller sees the cached copy or the disk. */
    method Bread(dev: nat, blockno: nat) returns (r: Option<nat>)
      requires Valid() && blockno < |device.blocks|
      modifies bufs
      ensures Valid() && lru == old(lru)
      ensures match BufferCache.Bread(old(Value()), device.blocks, dev, blockno)
              case Some((c, i)) => r == Some(i) && Value() == c
              case None => r.None? && Value() == old(Value())
    {
      r := Bget(dev, blockno);
      if r.Some? && !bufs[r.value].valid {
        bufs[r.value] := bufs[r.value].(data := device.blocks[blockno], valid := true);
      }
    }

    /** bwrite, where `holding` says whether the caller holds the buffer's sleep lock. */
    method Bwrite(i: nat, holding: bool) returns (o: Outcome)
      requires Valid() && i < bufs.Length && bufs[i].blockno < |device.blocks|
      modifies device
      ensures o == Panic <==> !holding
      ensures o == Panic ==> device.blocks == old(device.blocks) && device.trace == old(device.trace)
      ensures o == Done ==>
                && device.blocks == old(device.blocks)[bufs[i].blockno := bufs[i].data]
                && device.trace == old(device.trace) + [device.blocks]
    {
      if !holding {
        return Panic;
      }
      device.Write(bufs[i].blockno, bufs[i].data);
      return Done;
    }

    method Bpin(i: nat)
      requires Valid() && i < bufs.Length
      modifies bufs
      ensures Valid() && Value() == SetRefcnt(old(Value()), i, old(bufs[i].refcnt) + 1)
    {
      bufs[i] := bufs[i].(refcnt := bufs[i].refcnt + 1);
    }

    method Bunpin(i: nat)
      requires Valid() && i < bufs.Length && bufs[i].refcnt > 0
      modifies bufs
      ensures Valid() && Value() == SetRefcnt(old(Value()), i, old(bufs[i].refcnt) - 1)
    {
      bufs[i] := bufs[i].(refcnt := bufs[i].refcnt - 1);
    }

    /** Moves a buffer right behind the sentinel with six pointer assignments. */
    method Relink(i: nat, ghost k: nat)
      requires Valid() && k < |lru| && lru[k] == i
      modifies this`lru, next, prev
      ensures Valid() && lru == ToFront(old(lru), k) && next[bufs.Length] == i
    {
      ghost var head, rest := bufs.Length, lru[..k] + lru[k + 1..];
      ghost var n, p := next[..], prev[..];
      Unlink(n, p, lru, head, k);
      ToFrontPermutes(lru, k, head);
      lru := ToFront(lru, k);
      assert lru == [i] + rest;
      n, p := n[p[i] := n[i]], p[n[i] := p[i]];
      prev[next[i]] := prev[i];
      next[prev[i]] := next[i];
      assert next[..] == n && prev[..] == p;
      LinkFront(n, p, rest, head, i);
      n, p := n[i := n[head]][head := i], p[i := head][n[head] := i];
      next[i] := next[bufs.Length];
      prev[i] := bufs.Length;
      prev[next[bufs.Length]] := i;
      next[bufs.Length] := i;
      assert next[..] == n && prev[..] == p;
    }

    /**
     brelse relinks the buffer in place; the list order becomes the one of the function. `holding` says whether the
     caller holds the buffer's sleep lock.
     */
    method Brelse(i: nat, holding: bool) returns (o: Outcome)
      requires Valid() && i < bufs.Length && bufs[i].refcnt > 0
      modifies this`lru, bufs, next, prev
      ensures Valid() && (o == Panic <==> !holding)
      ensures Value() == if holding then BufferCache.Brelse(old(Value()), i) else old(Value())
      ensures holding && old(bufs[i].refcnt) == 1 ==> next[bufs.Length] == i
      ensures !holding || old(bufs[i].refcnt) > 1 ==> next[..] == old(next[..]) && prev[..] == old(prev[..])
    {
      if !holding {
        return Panic;
      }
      bufs[i] := bufs[i].(refcnt := bufs[i].refcnt - 1);
      if bufs[i].refcnt == 0 {
        Relink(i, Position(lru, i));
      }
      return Done;
    }
  }
}
