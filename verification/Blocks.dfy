/**
 Disk blocks as byte sequences, and the 32-bit little-endian words that the log header,
 the indirect blocks and the on-disk inodes read out of them.
 */
module Blocks {
  const BSIZE: nat := 1024
  const WORDS: nat := 256
  const WORD_LIMIT: nat := 0x1_0000_0000

  type Byte = x: int | 0 <= x < 256
  type Block = b: seq<Byte> | |b| == BSIZE witness seq(1024, _ => 0)
  type Disk = seq<Block>

  /** The block that memset(…, 0, BSIZE) produces. */
  function ZeroBlock(): (b: Block) {
    seq(BSIZE, _ => 0)
  }

  function Min(a: int, b: int): int {
    if a < b then a else b
  }

  function Max(a: int, b: int): int {
    if a < b then b else a
  }

  // Little-endian numbers.

  /** Byte j of a number. */
  function ByteOf(w: nat, j: nat): Byte {
    if j == 0 then w % 256 else ByteOf(w / 256, j - 1)
  }

  /** The number that bytes stand for, the lowest one first. */
  function Pack(bs: seq<Byte>): nat {
    if bs == [] then 0 else bs[0] + 256 * Pack(bs[1..])
  }

  lemma {:induction false} PackByte(bs: seq<Byte>, j: nat)
    requires j < |bs|
    ensures ByteOf(Pack(bs), j) == bs[j]
    decreases j
  {
    var x, y := bs[0], Pack(bs[1..]);
    assert (x + 256 * y) % 256 == x && (x + 256 * y) / 256 == y;
    if j > 0 {
      PackByte(bs[1..], j - 1);
    }
  }

  /** 256 to the k-th. */
  function Power256(k: nat): nat {
    if k == 0 then 1 else 256 * Power256(k - 1)
  }

  /** The k lowest bytes of a number; all of it, if it has no more. */
  function Digits(n: nat, k: nat): (s: seq<Byte>)
    ensures |s| == k && (n < Power256(k) ==> Pack(s) == n)
  {
    if k == 0 then [] else [n % 256] + Digits(n / 256, k - 1)
  }

  /** `((uint *)data)[i]` on a little-endian machine. */
  function GetWord(b: Block, i: nat): (w: nat)
    requires i < WORDS
    ensures w < WORD_LIMIT
  {
    b[4 * i] as int + 0x100 * (b[4 * i + 1] as int) + 0x1_0000 * (b[4 * i + 2] as int)
      + 0x100_0000 * (b[4 * i + 3] as int)
  }

  /** `((uint *)data)[i] = w`. */
  function PutWord(b: Block, i: nat, w: nat): Block
    requires i < WORDS && w < WORD_LIMIT
  {
    b[4 * i := w % 0x100]
     [4 * i + 1 := w / 0x100 % 0x100]
     [4 * i + 2 := w / 0x1_0000 % 0x100]
     [4 * i + 3 := w / 0x100_0000]
  }

  /** Storing a word makes it readable and leaves every other word alone. */
  lemma PutGetWord(b: Block, i: nat, w: nat)
    requires i < WORDS && w < WORD_LIMIT
    ensures GetWord(PutWord(b, i, w), i) == w
    ensures forall j: nat :: j < WORDS && j != i ==> GetWord(PutWord(b, i, w), j) == GetWord(b, j)
  {
    assert w == w % 0x100 + 0x100 * (w / 0x100 % 0x100) + 0x1_0000 * (w / 0x1_0000 % 0x100)
           + 0x100_0000 * (w / 0x100_0000);
  }

  /** A zeroed block reads as zero in every word, so a fresh indirect block lists no blocks. */
  lemma ZeroBlockWords(i: nat)
    requires i < WORDS
    ensures GetWord(ZeroBlock(), i) == 0
  {
    var z := ZeroBlock();
    assert z[4 * i] == 0 && z[4 * i + 1] == 0 && z[4 * i + 2] == 0 && z[4 * i + 3] == 0;
  }
}
