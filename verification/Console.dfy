/** The console line discipline (kernel/src/console.c): a ring of 128 characters with 32-bit indices r, w, e. */
module Console {
  import opened Blocks
  import opened Counters

  const SIZE: nat := 128
  const NL: Byte := 10
  const CR: Byte := 13
  const CTRL_P: Byte := 16
  const CTRL_U: Byte := 21
  const CTRL_H: Byte := 8
  const DEL: Byte := 127
  const CTRL_D: Byte := 4

  /**
   What the ring stands for: all input ever committed, how much of it was consumed, and the line being edited.
   The indices are these lengths modulo 2^32: consumed <= committed <= edited <= consumed + 128.
   */
  ghost predicate Stands(buf: seq<Byte>, r: nat, w: nat, e: nat, hist: seq<Byte>, read: nat, line: seq<Byte>) {
    && |buf| == SIZE && read <= |hist| && |hist| + |line| - read <= SIZE
    && r == read % WORD_LIMIT && w == |hist| % WORD_LIMIT && e == (|hist| + |line|) % WORD_LIMIT
    && (forall k: nat {:trigger (hist + line)[k]} :: read <= k < |hist| + |line| ==> buf[k % SIZE] == (hist + line)[k])
    && NL !in line
  }

  /** a - b on 32-bit unsigned integers */
  function Minus(a: nat, b: nat): nat
    requires a < WORD_LIMIT && b < WORD_LIMIT
  {
    if a >= b then a - b else a + WORD_LIMIT - b
  }

  lemma Distance(n: nat, k: nat)
    requires k <= SIZE
    ensures Minus((n + k) % WORD_LIMIT, n % WORD_LIMIT) == k
    ensures k > 0 ==> Minus((n + k) % WORD_LIMIT, 1) == (n + k - 1) % WORD_LIMIT
  {
    Sum(n, k);
    if k > 0 {
      Sum(n + k - 1, 1);
    }
  }

  /** What the indices tell about the line and the free room. */
  lemma Indices(buf: seq<Byte>, r: nat, w: nat, e: nat, hist: seq<Byte>, read: nat, line: seq<Byte>)
    requires Stands(buf, r, w, e, hist, read, line)
    ensures |buf| == SIZE && r < WORD_LIMIT && w < WORD_LIMIT && e < WORD_LIMIT && NL !in line
    ensures read <= |hist| && |hist| + |line| - read <= SIZE
    ensures e == w <==> line == []
    ensures r == w <==> read == |hist|
    ensures Minus(e, r) == |hist| + |line| - read
    ensures line != [] ==>
              Minus(e, 1) == (|hist| + |line| - 1) % WORD_LIMIT && buf[Minus(e, 1) % SIZE] == line[|line| - 1]
  {
    Distance(|hist|, |line|);
    Distance(read, |hist| - read);
    Distance(read, |hist| + |line| - read);
    if line != [] {
      SlotOf(SIZE, |hist| + |line| - 1);
      assert (hist + line)[|hist| + |line| - 1] == line[|line| - 1];
    }
  }

  lemma OneMore(buf: seq<Byte>, r: nat, w: nat, e: nat, hist: seq<Byte>, read: nat, line: seq<Byte>)
    requires Stands(buf, r, w, e, hist, read, line) && |hist| + |line| - read < SIZE
    ensures e < WORD_LIMIT && r < WORD_LIMIT && Minus((e + 1) % WORD_LIMIT, r) == |hist| + |line| + 1 - read
  {
    var n := |hist| + |line|;
    Distance(read, n + 1 - read);
    Sum(n, 1);
  }

  lemma UpDown(r: nat)
    requires r < WORD_LIMIT
    ensures (r + 1) % WORD_LIMIT < WORD_LIMIT && Minus((r + 1) % WORD_LIMIT, 1) == r
  {
  }

  /** cons.e-- */
  lemma EraseKeeps(buf: seq<Byte>, r: nat, w: nat, e: nat, hist: seq<Byte>, read: nat, line: seq<Byte>)
    requires Stands(buf, r, w, e, hist, read, line) && line != []
    ensures Stands(buf, r, w, Minus(e, 1), hist, read, line[..|line| - 1])
  {
    Indices(buf, r, w, e, hist, read, line);
    var l := line[..|line| - 1];
    forall k: nat | read <= k < |hist| + |l| ensures buf[k % SIZE] == (hist + l)[k] {
      assert (hist + l)[k] == (hist + line)[k];
    }
  }

  /** cons.buf[cons.e++ % INPUT_BUF_SIZE] = c, and with commit cons.w = cons.e */
  lemma TypeKeeps(buf: seq<Byte>, r: nat, w: nat, e: nat, hist: seq<Byte>, read: nat, line: seq<Byte>, c: Byte,
                  commit: bool)
    requires Stands(buf, r, w, e, hist, read, line) && Minus(e, r) < SIZE && (c == NL ==> commit)
    ensures var e' := (e + 1) % WORD_LIMIT;
            var buf' := buf[e % SIZE := c];
            if commit then Stands(buf', r, e', e', hist + line + [c], read, [])
            else Stands(buf', r, w, e', hist, read, line + [c])
  {
    Indices(buf, r, w, e, hist, read, line);
    var n := |hist| + |line|;
    SlotOf(SIZE, n);
    Sum(n, 1);
    var buf' := buf[e % SIZE := c];
    forall k: nat | read <= k < n + 1 ensures buf'[k % SIZE] == (hist + line + [c])[k] {
      if k < n {
        Other(SIZE, k, n - k);
        assert (hist + line + [c])[k] == (hist + line)[k];
      }
    }
    assert hist + (line + [c]) == hist + line + [c] && hist + line + [c] + [] == hist + line + [c];
  }

  /** c = cons.buf[cons.r++ % INPUT_BUF_SIZE] */
  lemma TakeKeeps(buf: seq<Byte>, r: nat, w: nat, e: nat, hist: seq<Byte>, read: nat, line: seq<Byte>)
    requires Stands(buf, r, w, e, hist, read, line) && read < |hist|
    ensures buf[r % SIZE] == hist[read] && Stands(buf, (r + 1) % WORD_LIMIT, w, e, hist, read + 1, line)
  {
    SlotOf(SIZE, read);
    Sum(read, 1);
    assert (hist + line)[read] == hist[read];
  }

  /** What a key does to the committed input and the line, given the room left. */
  function Key(hist: seq<Byte>, line: seq<Byte>, room: nat, c: Byte): (seq<Byte>, seq<Byte>) {
    if c == CTRL_P then (hist, line)
    else if c == CTRL_U then (hist, [])
    else if c == CTRL_H || c == DEL then (hist, if line == [] then [] else line[..|line| - 1])
    else if c == 0 || room == 0 then (hist, line)
    else
      var ch := if c == CR then NL else c;
      if ch == NL || ch == CTRL_D || room == 1 then (hist + line + [ch], []) else (hist, line + [ch])
  }

  /** The characters the ring still takes. */
  function Room(hist: seq<Byte>, line: seq<Byte>, read: nat): nat
    requires |hist| + |line| <= read + SIZE
  {
    SIZE + read - |hist| - |line|
  }

  datatype Input = Input(bytes: seq<Byte>) | Waits(bytes: seq<Byte>)

  class Cons {
    const buf: array<Byte>
    var r: nat
    var w: nat
    var e: nat
    ghost var hist: seq<Byte>
    ghost var read: nat
    ghost var line: seq<Byte>

    constructor ()
      ensures Valid() && fresh(buf) && hist == line == [] && read == 0
    {
      buf := new Byte[SIZE](_ => 0);
      r, w, e := 0, 0, 0;
      hist, read, line := [], 0, [];
    }

    ghost predicate Valid()
      reads this, buf
    {
      Stands(buf[..], r, w, e, hist, read, line)
    }

    /** consoleintr does to the input what Key says. Erasing stops at the committed input. */
    method Consoleintr(c: Byte)
      requires Valid()
      modifies this, buf
      ensures Valid() && read == old(read)
      ensures (hist, line) == Key(old(hist), old(line), Room(old(hist), old(line), read), c)
    {
      hide Stands, Minus;
      Indices(buf[..], r, w, e, hist, read, line);
      if c == CTRL_P {
      } else if c == CTRL_U {
        KillLine();
      } else if c == CTRL_H || c == DEL {
        if e != w {
          EraseKeeps(buf[..], r, w, e, hist, read, line);
          e, line := Minus(e, 1), line[..|line| - 1];
        }
      } else if c != 0 && Minus(e, r) < SIZE {
        Type(if c == CR then NL else c);
      }
    }

    /** A character goes into the line, which is committed at a newline, at control-D and when the ring is full. */
    method Type(ch: Byte)
      requires Valid() && |hist| + |line| - read < SIZE
      modifies this, buf
      ensures Valid() && read == old(read)
      ensures var commit := ch == NL || ch == CTRL_D || |old(hist)| + |old(line)| - read == SIZE - 1;
              if commit then hist == old(hist) + old(line) + [ch] && line == []
              else hist == old(hist) && line == old(line) + [ch]
    {
      hide Stands, Minus;
      Indices(buf[..], r, w, e, hist, read, line);
      OneMore(buf[..], r, w, e, hist, read, line);
      var commit := ch == NL || ch == CTRL_D || Minus((e + 1) % WORD_LIMIT, r) == SIZE;
      TypeKeeps(buf[..], r, w, e, hist, read, line, ch, commit);
      buf[e % SIZE] := ch;
      e := (e + 1) % WORD_LIMIT;
      if commit {
        w, hist, line := e, hist + line + [ch], [];
      } else {
        line := line + [ch];
      }
    }

    /** The loop for control-U: back to the last newline or the committed input; the line holds no newline. */
    method KillLine()
      requires Valid()
      modifies this`e, this`line
      ensures Valid() && line == []
    {
      Indices(buf[..], r, w, e, hist, read, line);
      while e != w && buf[Minus(e, 1) % SIZE] != NL
        invariant Valid() && (e == w <==> line == [])
        invariant line != [] ==> buf[Minus(e, 1) % SIZE] == line[|line| - 1]
        decreases |line|
      {
        EraseKeeps(buf[..], r, w, e, hist, read, line);
        e, line := Minus(e, 1), line[..|line| - 1];
        Indices(buf[..], r, w, e, hist, read, line);
      }
    }

    /** c = cons.buf[cons.r++ % INPUT_BUF_SIZE] */
    method Take() returns (c: Byte)
      requires Valid() && read < |hist|
      modifies this`r, this`read
      ensures Valid() && read == old(read) + 1 && r == (old(r) + 1) % WORD_LIMIT && c == hist[old(read)]
    {
      TakeKeeps(buf[..], r, w, e, hist, read, line);
      c := buf[r % SIZE];
      r, read := (r + 1) % WORD_LIMIT, read + 1;
    }

    /**
     consoleread, from having delivered `had` of `target` bytes until it returns or sleeps; `room` is how many bytes
     can be copied out in all. What it delivers are the next committed characters, in order, until there are enough
     or a line ends; before that it stops only at a control-D or where the copy fails, and waits exactly when no
     committed character is left. A character is lost where its copy fails, and a control-D that ends nothing is eaten.
     */
    method Consoleread(target: nat, had: nat, room: nat) returns (res: Input)
      requires Valid() && had <= target && had <= room
      modifies this`r, this`read
      ensures Valid() && old(read) <= read <= |hist|
      ensures old(read) + |res.bytes| <= |hist| && had + |res.bytes| <= target && had + |res.bytes| <= room
      ensures res.bytes == hist[old(read)..old(read) + |res.bytes|]
      ensures old(read) + |res.bytes| <= read <= old(read) + |res.bytes| + 1
      ensures CTRL_D !in res.bytes && forall k: nat :: k + 1 < |res.bytes| ==> res.bytes[k] != NL
      ensures var k := old(read) + |res.bytes|;
              if had + |res.bytes| == target || (res.bytes != [] && res.bytes[|res.bytes| - 1] == NL) then
                res.Input? && read == k
              else
                && (res.Waits? <==> k == |hist|)
                && (k < |hist| ==> hist[k] == CTRL_D || had + |res.bytes| == room)
                && (read == k + 1 <==> k < |hist| && (hist[k] == CTRL_D ==> had + |res.bytes| == 0))
    {
      hide Stands, Minus;
      var out: seq<Byte> := [];
      Indices(buf[..], r, w, e, hist, read, line);
      while had + |out| < target
        invariant Valid() && read == old(read) + |out| && read <= |hist|
        invariant had + |out| <= target && had + |out| <= room && out == hist[old(read)..read]
        invariant CTRL_D !in out && NL !in out
      {
        Indices(buf[..], r, w, e, hist, read, line);
        if r == w {
          return Waits(out);
        }
        UpDown(r);
        var c := Take();
        if c == CTRL_D {
          if had + |out| > 0 {
            r, read := Minus(r, 1), read - 1;
          }
          return Input(out);
        }
        if had + |out| >= room {
          return Input(out);
        }
        Taken(hist, old(read), read - 1, out);
        out := out + [c];
        if c == NL {
          return Input(out);
        }
      }
      return Input(out);
    }
  }

  /** One more character of the committed input. */
  lemma Taken(hist: seq<Byte>, from: nat, k: nat, out: seq<Byte>)
    requires from <= k < |hist| && out == hist[from..k]
    ensures out + [hist[k]] == hist[from..k + 1]
  {
  }
}
