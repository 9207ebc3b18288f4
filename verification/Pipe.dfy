/** The pipe (kernel/src/pipe.c): a ring of 512 bytes with 32-bit counters that wrap. */
module Pipe {
  import opened Blocks
  import opened Counters

  const PIPESIZE: nat := 512

  /**
   The ring stands for what was sent and not yet taken: the counters are the lengths of both histories modulo
   2^32, what was taken is a prefix of what was sent, and never more than 512 bytes are in between.
   */
  ghost predicate Carries(data: seq<Byte>, nread: nat, nwrite: nat, sent: seq<Byte>, taken: seq<Byte>) {
    && |data| == PIPESIZE && taken <= sent && |sent| - |taken| <= PIPESIZE
    && nread == |taken| % WORD_LIMIT && nwrite == |sent| % WORD_LIMIT
    && forall k: nat {:trigger sent[k]} :: |taken| <= k < |sent| ==> data[k % PIPESIZE] == sent[k]
  }

  /** Counters up to 512 apart, compared as the code compares them, tell the distance. */
  lemma Apart(n: nat, k: nat)
    requires k <= PIPESIZE
    ensures (n + k) % WORD_LIMIT == (n % WORD_LIMIT + PIPESIZE) % WORD_LIMIT <==> k == PIPESIZE
    ensures (n + k) % WORD_LIMIT == n % WORD_LIMIT <==> k == 0
  {
    Sum(n, k);
    Sum(n, PIPESIZE);
  }

  /** The ring is full, or empty, exactly when the counters say so. */
  lemma FullOrEmpty(data: seq<Byte>, nread: nat, nwrite: nat, sent: seq<Byte>, taken: seq<Byte>)
    requires Carries(data, nread, nwrite, sent, taken)
    ensures nwrite == (nread + PIPESIZE) % WORD_LIMIT <==> |sent| - |taken| == PIPESIZE
    ensures nread == nwrite <==> sent == taken
  {
    Apart(|taken|, |sent| - |taken|);
  }

  /** data[nwrite++ % PIPESIZE] = ch */
  lemma PutKeeps(data: seq<Byte>, nread: nat, nwrite: nat, sent: seq<Byte>, taken: seq<Byte>, ch: Byte)
    requires Carries(data, nread, nwrite, sent, taken) && |sent| - |taken| < PIPESIZE
    ensures Carries(data[nwrite % PIPESIZE := ch], nread, (nwrite + 1) % WORD_LIMIT, sent + [ch], taken)
  {
    SlotOf(PIPESIZE, |sent|);
    StepOf(|sent|);
    forall k: nat | |taken| <= k < |sent| ensures data[nwrite % PIPESIZE := ch][k % PIPESIZE] == sent[k] {
      Other(PIPESIZE, k, |sent| - k);
    }
  }

  /** ch = data[nread++ % PIPESIZE] */
  lemma TakeKeeps(data: seq<Byte>, nread: nat, nwrite: nat, sent: seq<Byte>, taken: seq<Byte>)
    requires Carries(data, nread, nwrite, sent, taken) && |taken| < |sent|
    ensures data[nread % PIPESIZE] == sent[|taken|]
    ensures Carries(data, (nread + 1) % WORD_LIMIT, nwrite, sent, taken + [sent[|taken|]])
  {
    SlotOf(PIPESIZE, |taken|);
    StepOf(|taken|);
  }

  /**
   How a stretch of pipewrite under the lock ends: all written or a bad address, asleep on a full pipe, or no
   reader.
   */
  datatype Wrote = Wrote(n: nat) | Asleep(n: nat) | NoReader

  /** How piperead ends: with bytes, asleep on an empty pipe, or killed. */
  datatype Read = Read(bytes: seq<Byte>) | Waits | Killed

  class PipeBuf {
    const data: array<Byte>
    var nread: nat
    var nwrite: nat
    var readOpen: bool
    var writeOpen: bool
    ghost var sent: seq<Byte>
    ghost var taken: seq<Byte>

    constructor ()
      ensures Valid() && fresh(data) && sent == taken == [] && readOpen && writeOpen
    {
      data := new Byte[PIPESIZE](_ => 0);
      nread, nwrite, readOpen, writeOpen := 0, 0, true, true;
      sent, taken := [], [];
    }

    ghost predicate Valid()
      reads this, data
    {
      Carries(data[..], nread, nwrite, sent, taken)
    }

    /**
     pipewrite from byte i on, until it returns or sleeps. Only the first `readable` bytes of src can be copied in.
     What it adds to the pipe is exactly the stretch of src it went over: up to the end, as far as the pipe has room
     and as far as src can be copied. It sleeps exactly when the pipe is full before the end of src.
     */
    method Write(src: seq<Byte>, i: nat, readable: nat, killed: bool) returns (r: Wrote)
      requires Valid() && i <= |src|
      modifies this, data
      ensures Valid() && taken == old(taken) && readOpen == old(readOpen) && writeOpen == old(writeOpen)
      ensures r.NoReader? <==> i < |src| && (!readOpen || killed)
      ensures r.NoReader? ==> sent == old(sent)
      ensures !r.NoReader? ==> i <= r.n <= |src| && sent == old(sent) + src[i..r.n]
      ensures !r.NoReader? ==>
                r.n == Min(|src|, Min(Max(i, readable), i + PIPESIZE - (|old(sent)| - |old(taken)|)))
      ensures !r.NoReader? ==> (r.Asleep? <==> r.n < |src| && |sent| - |taken| == PIPESIZE)
    {
      var n := i;
      while n < |src|
        invariant Valid() && i <= n <= |src| && sent == old(sent) + src[i..n] && taken == old(taken)
        invariant readOpen == old(readOpen) && writeOpen == old(writeOpen) && (n > i ==> readOpen && !killed)
        invariant (n > i ==> n <= readable) && |sent| - |taken| <= PIPESIZE
      {
        if !readOpen || killed {
          return NoReader;
        }
        FullOrEmpty(data[..], nread, nwrite, sent, taken);
        if nwrite == (nread + PIPESIZE) % WORD_LIMIT {
          return Asleep(n);
        }
        if n >= readable {
          break;
        }
        PutKeeps(data[..], nread, nwrite, sent, taken, src[n]);
        assert src[i..n + 1] == src[i..n] + [src[n]];
        data[nwrite % PIPESIZE] := src[n];
        nwrite := (nwrite + 1) % WORD_LIMIT;
        sent := sent + [src[n]];
        n := n + 1;
      }
      return Wrote(n);
    }

    /**
     piperead of at most n bytes; only the first `room` of them can be copied out. It takes the oldest bytes,
     in order, as many as are there and can be copied. It delivers all it takes; a byte is lost exactly when one
     more is there and asked for than can be copied out.
     */
    method ReadBytes(n: nat, room: nat, killed: bool) returns (r: Read)
      requires Valid()
      modifies this
      ensures Valid() && sent == old(sent) && readOpen == old(readOpen) && writeOpen == old(writeOpen)
      ensures r.Killed? || r.Waits? <==> old(sent) == old(taken) && writeOpen
      ensures r.Killed? || r.Waits? ==> taken == old(taken) && (r.Killed? <==> killed)
      ensures r.Read? ==> |r.bytes| == Min(n, Min(room, |sent| - |old(taken)|)) && old(taken) + r.bytes <= taken <= sent
      ensures r.Read? ==>
                |taken| == |old(taken)| + |r.bytes| + if room < n && room < |sent| - |old(taken)| then 1 else 0
    {
      FullOrEmpty(data[..], nread, nwrite, sent, taken);
      if nread == nwrite && writeOpen {
        return if killed then Killed else Waits;
      }
      var out := [];
      while |out| < n
        invariant Valid() && |out| <= n && |out| <= room && taken == old(taken) + out && sent == old(sent)
        invariant readOpen == old(readOpen) && writeOpen == old(writeOpen)
      {
        FullOrEmpty(data[..], nread, nwrite, sent, taken);
        if nread == nwrite {
          break;
        }
        TakeKeeps(data[..], nread, nwrite, sent, taken);
        var ch := data[nread % PIPESIZE];
        nread := (nread + 1) % WORD_LIMIT;
        taken := taken + [ch];
        if |out| >= room {
          return Read(out);
        }
        out := out + [ch];
      }
      return Read(out);
    }
  }

  // Every interleaving of writers and readers.

  datatype Event = Put(ch: Byte) | Take

  datatype Ring = Ring(data: seq<Byte>, nread: nat, nwrite: nat)

  /** A byte goes in unless the ring is full, or comes out unless it is empty, as the code decides it. */
  function Apply(p: Ring, e: Event): Ring
    requires |p.data| == PIPESIZE
  {
    match e
    case Put(ch) =>
      if p.nwrite == (p.nread + PIPESIZE) % WORD_LIMIT then p
      else p.(data := p.data[p.nwrite % PIPESIZE := ch], nwrite := (p.nwrite + 1) % WORD_LIMIT)
    case Take => if p.nread == p.nwrite then p else p.(nread := (p.nread + 1) % WORD_LIMIT)
  }

  /** What event e puts into ring q, and takes out of it. */
  function PutBy(q: Ring, e: Event): seq<Byte> {
    if e.Put? && q.nwrite != (q.nread + PIPESIZE) % WORD_LIMIT then [e.ch] else []
  }

  function TakenBy(q: Ring, e: Event): seq<Byte>
    requires |q.data| == PIPESIZE
  {
    if e.Take? && q.nread != q.nwrite then [q.data[q.nread % PIPESIZE]] else []
  }

  lemma ApplyKeeps(q: Ring, e: Event, s: seq<Byte>, t: seq<Byte>)
    requires Carries(q.data, q.nread, q.nwrite, s, t)
    ensures var r := Apply(q, e); Carries(r.data, r.nread, r.nwrite, s + PutBy(q, e), t + TakenBy(q, e))
  {
    FullOrEmpty(q.data, q.nread, q.nwrite, s, t);
    assert s + [] == s && t + [] == t;
    match e
    case Put(ch) =>
      if |s| - |t| < PIPESIZE {
        PutKeeps(q.data, q.nread, q.nwrite, s, t, ch);
      }
    case Take =>
      if |t| < |s| {
        TakeKeeps(q.data, q.nread, q.nwrite, s, t);
      }
  }

  function After(p: Ring, es: seq<Event>): (r: Ring)
    requires |p.data| == PIPESIZE
    ensures |r.data| == PIPESIZE
  {
    if es == [] then p else Apply(After(p, es[..|es| - 1]), es[|es| - 1])
  }

  /** The bytes that went in. */
  function Sent(p: Ring, es: seq<Event>): seq<Byte>
    requires |p.data| == PIPESIZE
  {
    if es == [] then [] else Sent(p, es[..|es| - 1]) + PutBy(After(p, es[..|es| - 1]), es[|es| - 1])
  }

  /** The bytes that came out, as read from the ring. */
  function Taken(p: Ring, es: seq<Event>): seq<Byte>
    requires |p.data| == PIPESIZE
  {
    if es == [] then [] else Taken(p, es[..|es| - 1]) + TakenBy(After(p, es[..|es| - 1]), es[|es| - 1])
  }

  lemma {:induction false} AfterCarries(p: Ring, es: seq<Event>)
    requires |p.data| == PIPESIZE && p.nread == p.nwrite == 0
    ensures var q := After(p, es); Carries(q.data, q.nread, q.nwrite, Sent(p, es), Taken(p, es))
  {
    if es != [] {
      var es1, e := es[..|es| - 1], es[|es| - 1];
      AfterCarries(p, es1);
      hide Carries, Apply, PutBy, TakenBy;
      ApplyKeeps(After(p, es1), e, Sent(p, es1), Taken(p, es1));
    }
  }

  /** Whatever the order of reads and writes, what comes out is a prefix of what went in, at most 512 bytes behind. */
  lemma InOrder(p: Ring, es: seq<Event>)
    requires |p.data| == PIPESIZE && p.nread == p.nwrite == 0
    ensures Taken(p, es) <= Sent(p, es) && |Sent(p, es)| - |Taken(p, es)| <= PIPESIZE
  {
    AfterCarries(p, es);
  }
}
