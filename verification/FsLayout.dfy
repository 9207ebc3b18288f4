/**
 The disk layout of the file system (kernel/inc/fs.h): superblock, bitmap bits, on-disk inodes.
 */
module FsLayout {
  import opened Blocks

  const NDIRECT: nat := 12
  const NINDIRECT: nat := 256
  const MAXFILE: nat := 268
  const IPB: nat := 16
  const BPB: nat := 8192
  const INODE_WORDS: nat := 16
  const SHORT_LIMIT: nat := 0x1_0000
  const NLINK_LIMIT: nat := 0x8000  // nlink is a signed short
  const ROOTINO: nat := 1
  const I_DIR: nat := 1
  const I_FILE: nat := 2
  const I_DEVICE: nat := 3

  /** The fields of the superblock that the kernel uses; nblocks counts the data blocks at the end. */
  datatype Superblock = Superblock(size: nat, nblocks: nat, ninodes: nat, inodestart: nat, bmapstart: nat)

  function DataStart(sb: Superblock): int {
    sb.size - sb.nblocks
  }

  /** boot block, super block, log, inode blocks, bitmap, data blocks, in this order. */
  predicate Fits(sb: Superblock) {
    && 2 <= sb.inodestart
    && sb.inodestart + sb.ninodes / IPB < sb.bmapstart
    && sb.bmapstart + sb.size / BPB < DataStart(sb)
    && DataStart(sb) <= sb.size < WORD_LIMIT
  }

  // Bits of a byte.

  /** (x & (1 << m)) != 0 */
  predicate TestBit(x: nat, m: nat) {
    if m == 0 then x % 2 == 1 else TestBit(x / 2, m - 1)
  }

  /** x | (1 << m), or x & ~(1 << m) */
  function WithBit(x: nat, m: nat, v: bool): (r: nat)
  {
    if m == 0 then x / 2 * 2 + (if v then 1 else 0) else WithBit(x / 2, m - 1, v) * 2 + x % 2
  }

  lemma {:induction false} WithBitSize(x: nat, m: nat, v: bool, n: nat)
    requires m < n && x < Pow2(n)
    ensures WithBit(x, m, v) < Pow2(n)
    decreases m
  {
    if m > 0 {
      WithBitSize(x / 2, m - 1, v, n - 1);
    }
  }

  function Pow2(n: nat): nat {
    if n == 0 then 1 else 2 * Pow2(n - 1)
  }

  /** Setting or clearing a bit changes that bit only. */
  lemma {:induction false} WithBitBits(x: nat, m: nat, v: bool, j: nat)
    ensures TestBit(WithBit(x, m, v), j) == if j == m then v else TestBit(x, j)
    decreases m
  {
    if m > 0 && j > 0 {
      WithBitBits(x / 2, m - 1, v, j - 1);
    }
  }

  function PutBit(x: Byte, m: nat, v: bool): Byte
    requires m < 8
  {
    WithBitSize(x, m, v, 8);
    WithBit(x, m, v)
  }

  // The free map.

  function BitBlock(sb: Superblock, b: nat): nat {
    b / BPB + sb.bmapstart
  }

  /** The bitmap says that block b is in use. */
  predicate Used(sb: Superblock, d: Disk, b: nat)
    requires BitBlock(sb, b) < |d|
  {
    BitAt(d[BitBlock(sb, b)], b % BPB)
  }

  function MarkBit(blk: Block, bi: nat, v: bool): Block
    requires bi < BPB
  {
    blk[bi / 8 := PutBit(blk[bi / 8], bi % 8, v)]
  }

  function Mark(sb: Superblock, d: Disk, b: nat, v: bool): Disk
    requires BitBlock(sb, b) < |d|
  {
    d[BitBlock(sb, b) := MarkBit(d[BitBlock(sb, b)], b % BPB, v)]
  }

  /** Bit bi of a bitmap block. */
  predicate BitAt(blk: Block, bi: nat)
    requires bi < BPB
  {
    TestBit(blk[bi / 8], bi % 8)
  }

  lemma MarkBitBits(blk: Block, bi: nat, v: bool, ci: nat)
    requires bi < BPB && ci < BPB
    ensures BitAt(MarkBit(blk, bi, v), ci) == if ci == bi then v else BitAt(blk, ci)
  {
    hide TestBit, WithBit;
    WithBitBits(blk[bi / 8], bi % 8, v, ci % 8);
    assert bi / 8 == ci / 8 && bi % 8 == ci % 8 ==> bi == ci;
  }

  /** Marking a block changes what the bitmap says about that block only. */
  lemma MarkUsed(sb: Superblock, d: Disk, b: nat, v: bool, c: nat)
    requires BitBlock(sb, b) < |d| && BitBlock(sb, c) < |d|
    ensures Used(sb, Mark(sb, d, b, v), c) == if c == b then v else Used(sb, d, c)
  {
    hide BitAt, MarkBit;
    MarkBitBits(d[BitBlock(sb, b)], b % BPB, v, c % BPB);
    assert b / BPB == c / BPB && b % BPB == c % BPB ==> b == c;
  }

  // On-disk inodes.

  datatype Inode = Inode(kind: nat, major: nat, minor: nat, nlink: nat, size: nat, addrs: seq<nat>)

  predicate Shape(ino: Inode) {
    && ino.kind < SHORT_LIMIT && ino.major < SHORT_LIMIT && ino.minor < SHORT_LIMIT && ino.nlink < NLINK_LIMIT
    && ino.size < WORD_LIMIT && |ino.addrs| == NDIRECT + 1
    && forall i: nat :: i <= NDIRECT ==> ino.addrs[i] < WORD_LIMIT
  }

  /** struct dinode as words. */
  function InodeWords(ino: Inode): seq<nat> {
    [ino.kind + SHORT_LIMIT * ino.major, ino.minor + SHORT_LIMIT * ino.nlink, ino.size] + ino.addrs
  }

  function FromWords(ws: seq<nat>): Inode
    requires |ws| == INODE_WORDS
  {
    Inode(ws[0] % SHORT_LIMIT, ws[0] / SHORT_LIMIT, ws[1] % SHORT_LIMIT, ws[1] / SHORT_LIMIT, ws[2], ws[3..])
  }

  lemma WordsRoundTrip(ino: Inode)
    requires Shape(ino)
    ensures |InodeWords(ino)| == INODE_WORDS && FromWords(InodeWords(ino)) == ino
    ensures forall i: nat :: i < INODE_WORDS ==> InodeWords(ino)[i] < WORD_LIMIT
  {
    var ws := InodeWords(ino);
    assert ws[3..] == ino.addrs;
    assert forall i: nat :: 3 <= i < INODE_WORDS ==> ws[i] == ino.addrs[i - 3];
  }

  function GetWords(b: Block, base: nat, n: nat): (r: seq<nat>)
    requires base + n <= WORDS
    ensures |r| == n && forall i: nat :: i < n ==> r[i] == GetWord(b, base + i)
  {
    seq<nat>(n, i requires 0 <= i < n => GetWord(b, base + i))
  }

  function PutWords(b: Block, base: nat, ws: seq<nat>, n: nat): Block
    requires n <= |ws| && base + |ws| <= WORDS && forall i: nat :: i < |ws| ==> ws[i] < WORD_LIMIT
  {
    if n == 0 then b else PutWord(PutWords(b, base, ws, n - 1), base + n - 1, ws[n - 1])
  }

  lemma {:induction false} PutWordsGet(b: Block, base: nat, ws: seq<nat>, n: nat, j: nat)
    requires n <= |ws| && base + |ws| <= WORDS && j < WORDS && forall i: nat :: i < |ws| ==> ws[i] < WORD_LIMIT
    ensures GetWord(PutWords(b, base, ws, n), j) == if base <= j < base + n then ws[j - base] else GetWord(b, j)
  {
    if n > 0 {
      PutWordsGet(b, base, ws, n - 1, j);
      PutGetWord(PutWords(b, base, ws, n - 1), base + n - 1, ws[n - 1]);
    }
  }

  /** `(struct dinode *)data + slot`, read. */
  function GetInode(b: Block, slot: nat): (ino: Inode)
    requires slot < IPB
  {
    FromWords(GetWords(b, slot * INODE_WORDS, INODE_WORDS))
  }

  function PutInode(b: Block, slot: nat, ino: Inode): Block
    requires slot < IPB && Shape(ino)
  {
    WordsRoundTrip(ino);
    PutWords(b, slot * INODE_WORDS, InodeWords(ino), INODE_WORDS)
  }

  /** The 16-bit number at byte `at` of a block. */
  function HalfAt(b: Block, at: nat): nat
    requires at + 1 < BSIZE
  {
    b[at] as int + 0x100 * (b[at + 1] as int)
  }

  /** The two 16-bit halves of a word. */
  lemma Halves(b: Block, i: nat, lo: nat, hi: nat)
    requires i < WORDS && lo < SHORT_LIMIT && GetWord(b, i) == lo + SHORT_LIMIT * hi
    ensures HalfAt(b, 4 * i) == lo && HalfAt(b, 4 * i + 2) == hi
  {
  }

  /**
   Where the fields of struct dinode are on disk: type, major, minor and nlink as 16-bit numbers at 0, 2, 4 and 6 of the
   inode's 64 bytes, size as a 32-bit number at 8, and the block numbers after it.
   */
  lemma InodeLayout(b: Block, slot: nat, ino: Inode, k: nat)
    requires slot < IPB && Shape(ino) && k <= NDIRECT
    ensures var d, at := PutInode(b, slot, ino), 64 * slot;
            && HalfAt(d, at) == ino.kind && HalfAt(d, at + 2) == ino.major
            && HalfAt(d, at + 4) == ino.minor && HalfAt(d, at + 6) == ino.nlink
            && GetWord(d, at / 4 + 2) == ino.size && GetWord(d, at / 4 + 3 + k) == ino.addrs[k]
  {
    hide GetWord, PutWords;
    var d, base, ws := PutInode(b, slot, ino), slot * INODE_WORDS, InodeWords(ino);
    WordsRoundTrip(ino);
    forall j: nat | j < INODE_WORDS ensures GetWord(d, base + j) == ws[j] {
      PutWordsGet(b, base, ws, INODE_WORDS, base + j);
    }
    assert GetWord(d, base + 0) == ws[0] && GetWord(d, base + 1) == ws[1] && GetWord(d, base + 2) == ws[2];
    assert GetWord(d, base + (3 + k)) == ws[3 + k] == ino.addrs[k];
    Halves(d, base, ino.kind, ino.major);
    Halves(d, base + 1, ino.minor, ino.nlink);
  }

  lemma GetPutWords(b: Block, base: nat, ws: seq<nat>, other: nat)
    requires base + |ws| <= WORDS && other + |ws| <= WORDS && forall i: nat :: i < |ws| ==> ws[i] < WORD_LIMIT
    requires other == base || other + |ws| <= base || base + |ws| <= other
    ensures GetWords(PutWords(b, base, ws, |ws|), other, |ws|) == if other == base then ws else GetWords(b, other, |ws|)
  {
    hide PutWords, GetWord;
    var b', n := PutWords(b, base, ws, |ws|), |ws|;
    forall i: nat | i < n
      ensures GetWords(b', other, n)[i] == if other == base then ws[i] else GetWords(b, other, n)[i]
    {
      PutWordsGet(b, base, ws, n, other + i);
    }
  }

  /** iupdate then ilock gives the inode back, and the other inodes of the block stay as they were. */
  lemma InodeRoundTrip(b: Block, slot: nat, ino: Inode, other: nat)
    requires slot < IPB && other < IPB && Shape(ino)
    ensures GetInode(PutInode(b, slot, ino), other) == if other == slot then ino else GetInode(b, other)
  {
    WordsRoundTrip(ino);
    hide PutWords, GetWords, InodeWords, FromWords, Shape;
    GetPutWords(b, slot * INODE_WORDS, InodeWords(ino), other * INODE_WORDS);
  }

  function InodeBlock(sb: Superblock, inum: nat): nat {
    inum / IPB + sb.inodestart
  }

  /** The inode as it is on disk. */
  function DiskInode(sb: Superblock, d: Disk, inum: nat): Inode
    requires InodeBlock(sb, inum) < |d|
  {
    GetInode(d[InodeBlock(sb, inum)], inum % IPB)
  }

  function StoreInode(sb: Superblock, d: Disk, inum: nat, ino: Inode): Disk
    requires InodeBlock(sb, inum) < |d| && Shape(ino)
  {
    d[InodeBlock(sb, inum) := PutInode(d[InodeBlock(sb, inum)], inum % IPB, ino)]
  }

  lemma StoreLoadInode(sb: Superblock, d: Disk, inum: nat, ino: Inode, other: nat)
    requires InodeBlock(sb, inum) < |d| && InodeBlock(sb, other) < |d| && Shape(ino)
    ensures DiskInode(sb, StoreInode(sb, d, inum, ino), other) == if other == inum then ino else DiskInode(sb, d, other)
  {
    hide GetInode, PutInode, Shape;
    InodeRoundTrip(d[InodeBlock(sb, inum)], inum % IPB, ino, other % IPB);
  }
}
