/**
 What exec loads, byte by byte (loadseg in kernel/src/exec.c, readi in kernel/src/fs.c): which byte of the file is at
 which address of the new image, and which addresses are zero.
 */
module ExecBytes {
  import opened Blocks
  import opened Collections
  import opened Sv39
  import opened Kalloc
  import opened PageTable
  import opened PageWalk
  import opened Unmap
  import opened Uvm
  import opened ProcPagetable
  import opened ExecLoad
  import Fs = FsBlocks
  import FsWrite
  import FsFiles
  import UserCopy
  import Counters

  // Words of RAM as little-endian bytes.

  function PageByte(p: Page, k: nat): Byte
    requires k < PGSIZE
  {
    ByteOf(p[k / 8], k % 8)
  }

  /** The eight bytes of word i once bs was copied to the start of the page. */
  function Octet(p: Page, bs: seq<Byte>, i: nat): (o: seq<Byte>)
    requires i < PTES
    ensures |o| == 8
  {
    seq(8, j requires 0 <= j < 8 => if 8 * i + j < |bs| then bs[8 * i + j] else ByteOf(p[i], j))
  }

  /** The page after bs was copied to its start. */
  function Overlay(p: Page, bs: seq<Byte>): Page
    requires |bs| <= PGSIZE
  {
    seq(PTES, i requires 0 <= i < PTES => Pack(Octet(p, bs, i)))
  }

  lemma OverlayByte(p: Page, bs: seq<Byte>, k: nat)
    requires |bs| <= PGSIZE && k < PGSIZE
    ensures PageByte(Overlay(p, bs), k) == if k < |bs| then bs[k] else PageByte(p, k)
  {
    hide ByteOf, Pack;
    PackByte(Octet(p, bs, k / 8), k % 8);
  }

  lemma {:induction false} ZeroByte(j: nat)
    ensures ByteOf(0, j) == 0
  {
    if j > 0 {
      ZeroByte(j - 1);
    }
  }

  // What loadseg reads.

  /** readi of n bytes at pos, from a file with the contents c. */
  function ReadAt(c: seq<Byte>, pos: nat, n: nat): (bs: seq<Byte>)
    ensures |bs| <= n
  {
    if pos > |c| || pos + n >= WORD_LIMIT then [] else c[pos..Min(pos + n, |c|)]
  }

  /** readi, in these terms. */
  method ReadChunk(fs: Fs.Fs, inum: nat, pos: nat, n: nat) returns (bs: seq<Byte>)
    requires FsFiles.FsOk(fs.sb, fs.St()) && inum < |fs.inodes| && pos < WORD_LIMIT && n < WORD_LIMIT
    modifies fs
    ensures fs.St() == old(fs.St()) && fs.inodes[inum].size <= FsWrite.LIMIT
    ensures bs == ReadAt(FsFiles.FileAt(fs.St(), inum), pos, n)
  {
    bs := FsFiles.Readi(fs, inum, pos, n);
  }

  /** The bytes loadseg asks for with page i. */
  function Ask(ph: Header, i: nat): nat {
    if i * PGSIZE < ph.filesz then Min(ph.filesz - i * PGSIZE, PGSIZE) else 0
  }

  /** Where in the file page i of a segment starts, in 32-bit arithmetic. */
  function Pos(ph: Header, i: nat): nat {
    (ph.off + i * PGSIZE) % WORD32
  }

  function Chunk(c: seq<Byte>, ph: Header, i: nat): (bs: seq<Byte>)
    ensures |bs| <= PGSIZE
  {
    ReadAt(c, Pos(ph, i), Ask(ph, i))
  }

  /** What reading page i of segment ph does. */
  function PageRead(c: seq<Byte>, ph: Header, i: nat): Read {
    var bs := Chunk(c, ph, i);
    Read((p: Page) => Overlay(p, bs), |bs| == Ask(ph, i))
  }

  /** The file as exec reads it. */
  function Reads(c: seq<Byte>, phs: seq<Header>): (nat, nat) -> Read {
    (s: nat, i: nat) => if s < |phs| then PageRead(c, phs[s], i) else Read((p: Page) => p, false)
  }

  /** The segment's bytes are all in the file. */
  predicate InFile(c: seq<Byte>, ph: Header) {
    ph.filesz == 0 || ph.off % WORD32 + ph.filesz <= |c|
  }

  lemma ChunkIn(c: seq<Byte>, ph: Header, i: nat)
    requires InFile(c, ph) && |c| <= FsWrite.LIMIT && i * PGSIZE < ph.filesz
    ensures var at := ph.off % WORD32 + i * PGSIZE;
            at + Ask(ph, i) <= |c| && Chunk(c, ph, i) == c[at..at + Ask(ph, i)]
  {
    PosIn(ph.off, i * PGSIZE);
  }

  lemma PosIn(off: nat, k: nat)
    requires off % WORD32 + k < WORD32
    ensures (off + k) % WORD32 == off % WORD32 + k
  {
    Counters.ModOf(WORD32, off + k, off / WORD32, off % WORD32 + k);
  }

  /** loadseg reads a segment in full exactly when the file has all its bytes. */
  lemma ReadableIff(c: seq<Byte>, phs: seq<Header>, s: nat)
    requires s < |phs| && |c| <= FsWrite.LIMIT
    ensures Readable(phs[s], Part(Reads(c, phs), s)) <==> InFile(c, phs[s])
  {
    hide Chunk, Ask;
    var ph := phs[s];
    if InFile(c, ph) {
      forall i: nat | i * PGSIZE < ph.filesz ensures Part(Reads(c, phs), s)(i).good {
        ChunkIn(c, ph, i);
      }
    } else {
      var i := FirstShort(c, ph);
      assert !Part(Reads(c, phs), s)(i).good;
    }
  }

  /** The first page that goes past the end of the file cannot be read in full. */
  lemma FirstShort(c: seq<Byte>, ph: Header) returns (i: nat)
    requires !InFile(c, ph) && |c| <= FsWrite.LIMIT
    ensures i * PGSIZE < ph.filesz && |Chunk(c, ph, i)| != Ask(ph, i)
  {
    var base := ph.off % WORD32;
    i := if base > |c| then 0 else (|c| - base) / PGSIZE;
    PosIn(ph.off, i * PGSIZE);
  }

  // The image.

  /** Address a is one of those segment ph fills from the file. */
  predicate Fills(ph: Header, a: nat) {
    ph.load && ph.vaddr <= a < ph.vaddr + ph.filesz
  }

  /** The byte of the file that segment ph has for address a. */
  function FileByte(c: seq<Byte>, ph: Header, a: nat): Byte
    requires Fills(ph, a)
  {
    var x := ph.off % WORD32 + a - ph.vaddr;
    if x < |c| then c[x] else 0
  }

  /** The byte at address a after the first n headers: that of the last segment that fills it, or 0. */
  function ImageByte(phs: seq<Header>, c: seq<Byte>, n: nat, a: nat): Byte
    requires n <= |phs|
  {
    if n == 0 then 0
    else if Fills(phs[n - 1], a) then FileByte(c, phs[n - 1], a)
    else ImageByte(phs, c, n - 1, a)
  }

  /** Loadable segments are page aligned and all in the file. */
  predicate AllIn(phs: seq<Header>, c: seq<Byte>, n: nat)
    requires n <= |phs|
  {
    forall i: nat :: i < n && phs[i].load ==> Accepted(phs[i]) && InFile(c, phs[i])
  }

  lemma SegmentByte(c: seq<Byte>, phs: seq<Header>, s: nat, v: nat, was: Page, k: nat)
    requires s < |phs| && |c| <= FsWrite.LIMIT && k < PGSIZE && AllIn(phs, c, s + 1)
    ensures var a := v * PGSIZE + k;
            PageByte(SegmentPage(phs[s], Part(Reads(c, phs), s), v, was), k) ==
            if Fills(phs[s], a) then FileByte(c, phs[s], a) else PageByte(was, k)
  {
    hide PageByte, Overlay, Chunk;
    var ph, a := phs[s], v * PGSIZE + k;
    PageOfAddress(ph, v, k);
    if ph.load && ph.vaddr / PGSIZE <= v < ph.vaddr / PGSIZE + (ph.filesz + PGSIZE - 1) / PGSIZE {
      var i := v - ph.vaddr / PGSIZE;
      ChunkIn(c, ph, i);
      OverlayByte(was, Chunk(c, ph, i), k);
    }
  }

  /** Which pages and which bytes of them a segment fills. */
  lemma PageOfAddress(ph: Header, v: nat, k: nat)
    requires k < PGSIZE && (ph.load ==> ph.vaddr % PGSIZE == 0)
    ensures var a, i := v * PGSIZE + k, v - ph.vaddr / PGSIZE;
            && (Fills(ph, a) ==> 0 <= i < (ph.filesz + PGSIZE - 1) / PGSIZE)
            && (ph.load && 0 <= i < (ph.filesz + PGSIZE - 1) / PGSIZE ==>
                  && i * PGSIZE < ph.filesz && (k < Ask(ph, i) <==> Fills(ph, a))
                  && a - ph.vaddr == i * PGSIZE + k)
  {
  }

  /** Every byte of the image is the one of the last segment that fills it, or zero. */
  lemma {:induction false} ImageBytes(c: seq<Byte>, phs: seq<Header>, n: nat, v: nat, k: nat)
    requires n <= |phs| && |c| <= FsWrite.LIMIT && k < PGSIZE && AllIn(phs, c, n)
    ensures PageByte(ImagePage(phs, Reads(c, phs), n, v), k) == ImageByte(phs, c, n, v * PGSIZE + k)
    decreases n
  {
    hide SegmentPage, Part, Fills, FileByte;
    if n == 0 {
      ZeroByte(k % 8);
    } else {
      hide PageByte;
      ImageBytes(c, phs, n - 1, v, k);
      SegmentByte(c, phs, n - 1, v, ImagePage(phs, Reads(c, phs), n - 1, v), k);
    }
  }

  /** The headers exec gets past are page aligned and their bytes are in the file. */
  lemma {:induction false} FineIsIn(all: nat, sz: nat, phs: seq<Header>, c: seq<Byte>, i: nat)
    requires i <= |phs| && |c| <= FsWrite.LIMIT && SegmentsSpec(all, sz, phs, Reads(c, phs), i).Fine?
    ensures forall j: nat :: i <= j < |phs| && phs[j].load ==> Accepted(phs[j]) && InFile(c, phs[j])
    decreases |phs| - i
  {
    hide UserCost, PagesBetween, Readable, Part, Reads, InFile;
    if i < |phs| {
      ReadableIff(c, phs, i);
      var r := SegmentSpec(all, sz, phs[i], Part(Reads(c, phs), i));
      assert r.Fine?;
      FineIsIn(all, r.sz, phs, c, i + 1);
    }
  }

  /** Bytes from the end of a segment's file part to the end of its memory are zero where no segment fills them. */
  lemma {:induction false} ZeroWhereUnfilled(phs: seq<Header>, c: seq<Byte>, n: nat, a: nat)
    requires n <= |phs| && forall i: nat :: i < n ==> !Fills(phs[i], a)
    ensures ImageByte(phs, c, n, a) == 0
    decreases n
  {
    if n > 0 {
      ZeroWhereUnfilled(phs, c, n - 1, a);
    }
  }

  lemma {:induction false} LastSegmentWins(phs: seq<Header>, c: seq<Byte>, n: nat, s: nat, a: nat)
    requires s < n <= |phs| && Fills(phs[s], a) && forall i: nat :: s < i < n ==> !Fills(phs[i], a)
    ensures ImageByte(phs, c, n, a) == FileByte(c, phs[s], a)
    decreases n
  {
    hide Fills;
    if n > s + 1 {
      LastSegmentWins(phs, c, n - 1, s, a);
    }
  }

  // Which programs exec takes.

  /** The highest address that the first n headers ask for. */
  function Top(phs: seq<Header>, n: nat): (top: nat)
    requires n <= |phs|
    ensures forall i: nat :: i < n && phs[i].load ==> End(phs[i]) <= top
    ensures top == 0 || exists i: nat :: i < n && phs[i].load && End(phs[i]) == top
  {
    if n == 0 then 0
    else if phs[n - 1].load && End(phs[n - 1]) > Top(phs, n - 1) then End(phs[n - 1])
    else Top(phs, n - 1)
  }

  /** A header that exec takes: no smaller in memory than in the file, below 2^64, page aligned, all in the file. */
  predicate Good(ph: Header, c: seq<Byte>) {
    ph.filesz <= ph.memsz && End(ph) < WORD64 && ph.vaddr % PGSIZE == 0 && InFile(c, ph)
  }

  /** The loaded headers from i on are good; the first of them is not an empty one at address 0. */
  ghost predicate Loadable(phs: seq<Header>, c: seq<Byte>, i: nat) {
    forall j: nat {:trigger phs[j]} :: i <= j < |phs| && phs[j].load ==> Good(phs[j], c) && Starts(phs, j)
  }

  /** Something was asked for up to header j. */
  predicate Starts(phs: seq<Header>, j: nat)
    requires j < |phs|
  {
    Top(phs, j + 1) > 0
  }

  /** All of it, with guard page, stack page and tables, can be paid for out of `all` free pages. */
  predicate Payable(all: nat, phs: seq<Header>) {
    3 + UserCost(PageCount(Top(phs, |phs|)) + 2) <= all
  }

  lemma {:induction false} TopGrows(phs: seq<Header>, i: nat, n: nat)
    requires i <= n <= |phs|
    ensures Top(phs, i) <= Top(phs, n)
    decreases n
  {
    if i < n {
      TopGrows(phs, i, n - 1);
    }
  }

  /** Growing to where the headers end costs at least what growing to where the first of them end costs. */
  lemma TopCost(phs: seq<Header>, i: nat)
    requires i <= |phs|
    ensures UserCost(PageCount(Top(phs, i))) <= UserCost(PageCount(Top(phs, |phs|)))
  {
    hide Top, UserCost, PgRoundUp;
    TopGrows(phs, i, |phs|);
    MorePages(Top(phs, i), Top(phs, |phs|));
    CostGrows(PageCount(Top(phs, i)), PageCount(Top(phs, |phs|)));
  }

  /** One header: it is taken exactly if it is good, starts something and can be paid for. */
  lemma SegmentIff(all: nat, phs: seq<Header>, c: seq<Byte>, i: nat)
    requires i < |phs| && |c| <= FsWrite.LIMIT && 3 + UserCost(PageCount(Top(phs, i))) <= all
    ensures var r := SegmentSpec(all, Top(phs, i), phs[i], Part(Reads(c, phs), i));
            && (r.Fine? ==> r.sz == Top(phs, i + 1) && 3 + UserCost(PageCount(Top(phs, i + 1))) <= all)
            && (r.Fine? <==> (phs[i].load ==> Good(phs[i], c) && Starts(phs, i))
                             && 3 + UserCost(PageCount(Top(phs, i + 1))) <= all)
  {
    hide UserCost, PagesBetween, Readable, Part, Reads, InFile, PgRoundUp;
    ReadableIff(c, phs, i);
  }

  lemma {:induction false} SegmentsIff(all: nat, phs: seq<Header>, c: seq<Byte>, i: nat)
    requires i <= |phs| && |c| <= FsWrite.LIMIT && 3 + UserCost(PageCount(Top(phs, i))) <= all
    ensures var r := SegmentsSpec(all, Top(phs, i), phs, Reads(c, phs), i);
            && (r.Fine? ==> r.sz == Top(phs, |phs|))
            && (r.Fine? <==> Loadable(phs, c, i) && 3 + UserCost(PageCount(Top(phs, |phs|))) <= all)
    decreases |phs| - i
  {
    hide SegmentSpec, UserCost, PgRoundUp, Part, Reads, Good, Starts, Top;
    if i < |phs| {
      SegmentIff(all, phs, c, i);
      TopCost(phs, i + 1);
      if SegmentSpec(all, Top(phs, i), phs[i], Part(Reads(c, phs), i)).Fine? {
        SegmentsIff(all, phs, c, i + 1);
        assert Loadable(phs, c, i) <==> Loadable(phs, c, i + 1);
      }
    }
  }

  /**
   exec takes a program exactly when every header to be loaded is good, not all of them are empty at address 0 at the
   start, and image, guard page, stack page and tables can be paid for.
   */
  lemma ReadyIff(all: nat, phs: seq<Header>, c: seq<Byte>)
    requires |c| <= FsWrite.LIMIT
    ensures var r := ExecSpec(all, phs, Reads(c, phs));
            && (r.Ready? <==> Loadable(phs, c, 0) && Payable(all, phs))
            && (r.Ready? ==> r.sz == PgRoundUp(Top(phs, |phs|)) + 2 * PGSIZE)
  {
    var n := PageCount(Top(phs, |phs|));
    CostGrows(n, n + 2);
    assert PageCount(Top(phs, 0)) == 0;
    hide SegmentsSpec, PgRoundUp, Reads, Loadable, Top;
    if all >= 3 {
      SegmentsIff(all, phs, c, 0);
    }
  }

  /** The byte the process finds at address a. */
  function UserByte(ram: Ram, t: Tree, a: nat): Byte {
    PageByte(PageAt(ram, t, a / PGSIZE), a % PGSIZE)
  }

  /**
   exec of a file with contents c, up to the argument strings: when the image stands, every segment's bytes are in the
   file, every address holds the byte of the last segment that fills it or zero, and guard and stack page are zero.
   */
  method ExecFile(m: PhysMem, trampoline: nat, trapframe: nat, phs: seq<Header>, c: seq<Byte>)
    returns (r: Built, root: nat, ghost t: Tree)
    requires m.Valid() && KernelOwned(m.free, trampoline, trapframe) && |c| <= FsWrite.LIMIT
    modifies m
    ensures r == ExecSpec(|old(m.free)|, phs, Reads(c, phs))
    ensures r.Ready? <==> Loadable(phs, c, 0) && Payable(|old(m.free)|, phs)
    ensures r.Ready? ==> r.sz == PgRoundUp(Top(phs, |phs|)) + 2 * PGSIZE
    ensures r.Ready? ==> VmOk(m, t) && t.root == root && Guarded(m.ram, t, m.free, r.sz, Elems(old(m.free)))
    ensures r.Ready? ==> forall i: nat :: i < |phs| && phs[i].load ==> InFile(c, phs[i])
    ensures r.Ready? ==> forall a: nat :: a < r.sz ==>
              UserByte(m.ram, t, a) == if a < r.sz - 2 * PGSIZE then ImageByte(phs, c, |phs|, a) else 0
    ensures r.Ready? ==> Mapped(m.ram, t, r.sz, phs)
    ensures r.GaveUp? ==> m.Valid() && Elems(m.free) == Elems(old(m.free))
    ensures !r.Stuck? ==> SameOutside(old(m.ram), m.ram, Elems(old(m.free)))
  {
    hide Mapped, SegmentsSpec, StackSpec, Guarded, PageAt, PageByte, ImageByte, ImagePage, Reads, VmOk, InFile;
    hide Accepted, Loadable, Payable, Top;
    ReadyIff(|m.free|, phs, c);
    r, root, t := ExecImage(m, trampoline, trapframe, phs, Reads(c, phs));
    if r.Ready? {
      FineIsIn(|old(m.free)|, 0, phs, c, 0);
      WholePages(m.ram, t, m.free, r.sz, Elems(old(m.free)));
      forall a: nat | a < r.sz
        ensures UserByte(m.ram, t, a) == if a < r.sz - 2 * PGSIZE then ImageByte(phs, c, |phs|, a) else 0
      {
        Address(a, r.sz);
        if a < r.sz - 2 * PGSIZE {
          ImageBytes(c, phs, |phs|, a / PGSIZE, a % PGSIZE);
        } else {
          BlankByte(a % PGSIZE);
        }
      }
    }
  }

  lemma BlankByte(k: nat)
    requires k < PGSIZE
    ensures PageByte(Filled(0), k) == 0
  {
    ZeroByte(k % 8);
  }

  lemma WholePages(ram: Ram, t: Tree, free: seq<nat>, sz: nat, stock: set<nat>)
    requires Guarded(ram, t, free, sz, stock)
    ensures sz % PGSIZE == 0 && sz >= 2 * PGSIZE
  {
  }

  lemma Address(a: nat, sz: nat)
    requires a < sz && sz % PGSIZE == 0 && sz >= 2 * PGSIZE
    ensures a == a / PGSIZE * PGSIZE + a % PGSIZE && a / PGSIZE < sz / PGSIZE
    ensures a < sz - 2 * PGSIZE <==> a / PGSIZE < sz / PGSIZE - 2
  {
  }

  /** RAM as bytes: what copyin, copyout and the argument stack work on. */
  ghost function BytesOf(ram: Ram): UserCopy.Mem {
    map pa | pa in ram :: seq(PGSIZE, k requires 0 <= k < PGSIZE => PageByte(ram[pa], k))
  }

  /** On the addresses the user may access both views agree. */
  lemma SameBytes(ram: Ram, t: Tree, a: nat)
    requires UserCopy.Backed(TransOf(ram, t), BytesOf(ram)) && UserCopy.Mapped(TransOf(ram, t), a)
    ensures UserCopy.ByteAt(TransOf(ram, t), BytesOf(ram), a) == UserByte(ram, t, a)
  {
    hide ByteOf, Entry, Pte2Pa, UserAt;
  }
}
