/** main of mkfs: the root directory, the files, the rounded root size and the bitmap. */
module MkfsMain {
  import opened Blocks
  import opened Names
  import opened Dir
  import opened FsLayout
  import opened FsState
  import opened FsWrite
  import opened FsFiles
  import opened FsTrunc
  import opened Mkfs

  datatype File = File(name: seq<Byte>, data: seq<Byte>)

  /** The directory entries of ".", ".." and the first n files; file j gets inode 2 + j. */
  function RootBytes(files: seq<File>, n: nat): (c: seq<Byte>)
    requires n <= |files| && n + 2 <= 0x1_0000
    ensures |c| == DIRENT * (n + 2)
  {
    if n == 0 then Entry(ROOTINO, [46]) + Entry(ROOTINO, [46, 46])
    else RootBytes(files, n - 1) + Entry(n + 1, files[n - 1].name)
  }

  /** The blocks that the first n files take. */
  function Total(files: seq<File>, n: nat): nat
    requires n <= |files|
  {
    if n == 0 then 0 else Total(files, n - 1) + Needed(|files[n - 1].data|)
  }

  lemma {:induction false} TotalGrows(files: seq<File>, m: nat, n: nat)
    requires m <= n <= |files|
    ensures Total(files, m) <= Total(files, n)
    decreases n
  {
    if m < n {
      TotalGrows(files, m, n - 1);
    }
  }

  /** freeblock once the first n files and their directory entries are in. */
  function Taken(files: seq<File>, n: nat): int
    requires n <= |files|
  {
    DataStart(LAYOUT) + Needed(DIRENT * (n + 2)) + Total(files, n)
  }

  /** The first n files fit: none too large, enough blocks. */
  predicate FirstFit(files: seq<File>, n: nat)
    requires n <= |files|
  {
    (forall j: nat :: j < n ==> |files[j].data| <= LIMIT) && Taken(files, n) <= LAYOUT.size
  }

  /** The files fit: enough inodes besides 0 and the root's, no file too large, enough blocks. */
  predicate FilesFit(files: seq<File>) {
    |files| + 2 <= LAYOUT.ninodes && FirstFit(files, |files|)
  }

  lemma TakenGrows(files: seq<File>, m: nat, n: nat)
    requires m <= n <= |files|
    ensures Taken(files, m) <= Taken(files, n)
  {
    hide Needed, Total;
    TotalGrows(files, m, n);
    NeededGrows(DIRENT * (m + 2), DIRENT * (n + 2));
  }

  /** The first n files and the root directory are as they should be. */
  ghost predicate Has(img: Image, files: seq<File>, n: nat)
    requires Good(img) && n <= |files| && n + 2 <= 0x1_0000
    reads img
  {
    && img.freeinode == n + 2 <= |img.inodes| && img.freeblock == Taken(files, n) && img.inodes[0] == NewInode(0)
    && img.inodes[ROOTINO].kind == I_DIR && img.inodes[ROOTINO].nlink == 1 && Bytes(img, ROOTINO) == RootBytes(files, n)
    && forall j: nat :: j < n ==> HasFile(img, 2 + j, files[j].data)
  }

  ghost predicate HasFile(img: Image, inum: nat, data: seq<Byte>)
    requires Good(img) && inum < |img.inodes|
    reads img
  {
    img.inodes[inum].kind == I_FILE && img.inodes[inum].nlink == 1 && Bytes(img, inum) == data
  }

  /**
   How mkfs ends: with an image, with an assertion or a short read, or with an inode number that the superblock
   does not have. mkfs does not notice the last and goes on; the model stops there.
   */
  datatype Ending = Made | Died | Overrun

  /**
   One file: inode, directory entry, contents in pieces of at most a block. It dies exactly when the file does not
   fit, and overruns exactly when there is no inode left for it.
   */
  method AddFile(img: Image, files: seq<File>, n: nat) returns (r: Ending)
    requires img.sb == LAYOUT && Good(img) && n < |files| && n + 2 <= LAYOUT.ninodes && Has(img, files, n)
    requires IsString(files[n].name)
    requires |img.inodes| == LAYOUT.ninodes
    modifies img
    ensures r == Overrun <==> n + 2 == LAYOUT.ninodes
    ensures r == Made ==> Good(img) && |img.inodes| == |old(img.inodes)| && Has(img, files, n + 1)
    ensures r == Made <==> n + 2 < LAYOUT.ninodes && |files[n].data| <= LIMIT && Taken(files, n + 1) <= LAYOUT.size
  {
    hide Good, Bytes, Needed;
    var ok, inum := MkfsIalloc(img, I_FILE);
    if inum >= LAYOUT.ninodes {
      return Overrun;
    }
    EmptyFile(img, inum);
    var de := Entry(inum, files[n].name);
    ok := Iappend(img, ROOTINO, de);
    if !ok {
      return Died;
    }
    NeededNothing();
    ok := FillFile(img, files, n, inum);
    r := if ok then Made else Died;
  }

  lemma NeededNothing()
    ensures Needed(0) == 0
  {
  }

  /** The loop that copies a file into the image. */
  method FillFile(img: Image, files: seq<File>, n: nat, inum: nat) returns (ok: bool)
    requires img.sb == LAYOUT && Good(img) && n < |files| && n + 3 <= 0x1_0000 && inum == n + 2
    requires img.freeinode == n + 3 <= |img.inodes| && img.inodes[0] == NewInode(0)
    requires img.inodes[ROOTINO].kind == I_DIR && img.inodes[ROOTINO].nlink == 1
    requires Bytes(img, ROOTINO) == RootBytes(files, n + 1)
    requires HasFile(img, inum, []) && forall j: nat :: j < n ==> HasFile(img, 2 + j, files[j].data)
    requires img.freeblock == DataStart(LAYOUT) + Needed(DIRENT * (n + 3)) + Total(files, n)
    modifies img
    ensures ok ==> Good(img) && |img.inodes| == |old(img.inodes)| && Has(img, files, n + 1)
    ensures ok <==> |files[n].data| <= LIMIT && Taken(files, n + 1) <= LAYOUT.size
  {
    hide Good, Bytes, Needed;
    var data, off := files[n].data, 0;
    ghost var fb := img.freeblock;
    NeededNothing();
    RoomFor(img);
    assert data[..0] == [];
    while off < |data|
      invariant off <= |data| && off <= LIMIT && Good(img) && |img.inodes| == |old(img.inodes)|
      invariant img.freeinode == n + 3 <= |img.inodes|
      invariant img.inodes[0] == NewInode(0)
      invariant img.inodes[ROOTINO].kind == I_DIR && img.inodes[ROOTINO].nlink == 1
      invariant Bytes(img, ROOTINO) == RootBytes(files, n + 1)
      invariant HasFile(img, inum, data[..off]) && img.freeblock == fb + Needed(off) <= LAYOUT.size
      invariant forall j: nat :: j < n ==> HasFile(img, 2 + j, files[j].data)
    {
      var cc := Min(BSIZE, |data| - off);
      NeededGrows(off + cc, |data|);
      ok := Iappend(img, inum, data[off..off + cc]);
      if !ok {
        return;
      }
      RoomFor(img);
      assert data[..off] + data[off..off + cc] == data[..off + cc];
      off := off + cc;
    }
    assert data[..off] == data;
    ok := true;
  }

  lemma RoomFor(img: Image)
    requires Good(img)
    ensures img.freeblock <= img.sb.size
  {
  }

  lemma EmptyFile(img: Image, i: nat)
    requires Good(img) && i < |img.inodes| && img.inodes[i].size == 0
    ensures Bytes(img, i) == []
  {
  }

  /** FSSIZE, NINODES, LOGBLOCKS and what main computes from them: 46 metadata blocks, 1954 data blocks. */
  const LAYOUT: Superblock := Superblock(2000, 1954, 200, 32, 45)

  /** ((off / BSIZE) + 1) * BSIZE */
  function RoundedSize(off: nat): nat {
    (off / BSIZE + 1) * BSIZE
  }

  /** Rounding up the size of file i leaves a hole exactly when the size was a whole number of blocks. */
  lemma RoundedHole(sb: Superblock, st: State, st': State, i: nat)
    requires Sound(sb, st) && Shapes(sb, st') && i < |st.inodes| == |st'.inodes| && st.inodes[i].size < LIMIT
    requires Snug(st)
    requires st'.inodes[i].size == RoundedSize(st.inodes[i].size)
    requires forall s: nat {:trigger SlotVal(st'.disk, st'.inodes[i], s)} :: s < SLOTS ==>
              SlotVal(st'.disk, st'.inodes[i], s) == SlotVal(st.disk, st.inodes[i], s)
    ensures NoHoles(st'.disk, st'.inodes[i]) <==> st.inodes[i].size % BSIZE != 0
  {
    hide SlotVal, Recorded, Backed, MapOk;
    var size := st.inodes[i].size;
    assert NoHoles(st.disk, st.inodes[i]);
    if size % BSIZE != 0 {
      forall bn: nat | bn < MAXFILE && bn * BSIZE < RoundedSize(size)
        ensures SlotVal(st'.disk, st'.inodes[i], Slot(bn)) != 0
      {
        assert SlotVal(st.disk, st.inodes[i], Slot(bn)) != 0;
      }
    } else {
      var bn := size / BSIZE;
      assert bn * BSIZE == size < RoundedSize(size);
      assert SlotVal(st.disk, st.inodes[i], Slot(bn)) == 0;
      assert SlotVal(st'.disk, st'.inodes[i], Slot(bn)) == 0;
    }
  }

  function Zeros(n: nat): seq<Byte> {
    seq(n, _ => 0)
  }

  /** A file with only zeros past its end, read at a larger size. */
  lemma RoundedFile(st: State, st': State, i: nat, size': nat)
    requires AllShaped(st.inodes) && AllShaped(st'.inodes) && i < |st.inodes| == |st'.inodes|
    requires st.inodes[i].size <= size' <= LIMIT
    requires st'.inodes[i].size == size' && ZeroTail(st, i)
    requires forall k: nat {:trigger At(st', i, k)} :: k < LIMIT ==> At(st', i, k) == At(st, i, k)
    ensures FileAt(st', i) == FileAt(st, i) + Zeros(size' - st.inodes[i].size)
  {
    hide ByteAt;
    var c, c' := FileAt(st, i), FileAt(st, i) + Zeros(size' - st.inodes[i].size);
    forall k: nat | k < size' ensures FileAt(st', i)[k] == c'[k] {
      assert At(st', i, k) == At(st, i, k);
    }
  }

  /** The bitmap marks the first freeblock blocks; the data blocks among them are the recorded ones. */
  ghost predicate MapBuilt(st: State, freeblock: nat) {
    && Owned(LAYOUT, st) && Synced(LAYOUT, st, -1)
    && forall b: nat :: b < LAYOUT.size ==> (Used(LAYOUT, st.disk, b) <==> b < freeblock) && (b in st.own <==>
         DataStart(LAYOUT) <= b < freeblock)
  }

  /** Every file holds its bytes, without holes. */
  ghost predicate FilesBuilt(st: State, files: seq<File>)
    requires AllShaped(st.inodes)
  {
    && |files| + 2 <= |st.inodes|
    && (forall i: nat :: i < |st.inodes| && i != ROOTINO ==> NoHoles(st.disk, st.inodes[i]))
    && (forall i: nat {:trigger st.inodes[i]} :: i < |st.inodes| && (i == 0 || i >= |files| + 2) ==>
         st.inodes[i] == NewInode(0))
    && forall j: nat {:trigger files[j]} :: j < |files| ==> FileBuilt(st, 2 + j, files[j].data)
  }

  /** Inode i is a file with one link and these contents. */
  ghost predicate FileBuilt(st: State, i: nat, data: seq<Byte>)
    requires AllShaped(st.inodes) && i < |st.inodes|
  {
    st.inodes[i].kind == I_FILE && st.inodes[i].nlink == 1 && st.inodes[i].size <= LIMIT && FileAt(st, i) == data
  }

  /**
   The root directory lists the files, is padded with zeros to a block, and has a hole exactly when the count
   of entries is a multiple of 64.
   */
  ghost predicate RootBuilt(st: State, files: seq<File>)
    requires AllShaped(st.inodes) && |files| + 2 <= 0x1_0000
  {
    && ROOTINO < |st.inodes| && st.inodes[ROOTINO].kind == I_DIR && st.inodes[ROOTINO].nlink == 1
    && st.inodes[ROOTINO].size <= LIMIT
    && FileAt(st, ROOTINO)
       == RootBytes(files, |files|) + Zeros(RoundedSize(DIRENT * (|files| + 2)) - DIRENT * (|files| + 2))
    && (NoHoles(st.disk, st.inodes[ROOTINO]) <==> (|files| + 2) % 64 != 0)
  }

  /** The finished image for the given files. */
  ghost predicate Built(st: State, freeblock: nat, files: seq<File>)
    requires |files| + 2 <= 0x1_0000
  {
    MapBuilt(st, freeblock) && FilesBuilt(st, files) && RootBuilt(st, files)
  }

  /** The other files and the bitmap after the root's size was rounded. */
  lemma RoundedOthers(img: Image, st': State, i: nat)
    requires Good(img) && Shapes(img.sb, st') && i < |img.inodes| == |st'.inodes| && st'.inodes[i] == img.inodes[i]
    requires forall s: nat {:trigger SlotVal(st'.disk, st'.inodes[i], s)} :: s < SLOTS ==>
               SlotVal(st'.disk, st'.inodes[i], s) == SlotVal(img.View().disk, img.inodes[i], s)
    requires forall k: nat {:trigger At(st', i, k)} :: k < LIMIT ==> At(st', i, k) == At(img.View(), i, k)
    ensures NoHoles(st'.disk, st'.inodes[i]) && st'.inodes[i].size <= LIMIT && FileAt(st', i) == Bytes(img, i)
  {
    hide Bits, Recorded, Backed, MapOk, SlotVal, ByteAt, At, Synced, ZeroTails, Snug;
    var st := img.View();
    assert NoHoles(st.disk, st.inodes[i]);
    forall bn: nat | bn < MAXFILE && bn * BSIZE < st'.inodes[i].size
      ensures SlotVal(st'.disk, st'.inodes[i], Slot(bn)) != 0
    {
      assert SlotVal(st.disk, st.inodes[i], Slot(bn)) != 0;
    }
    SameContents(st, st', i);
  }

  lemma RoundedMap(img: Image, st': State, b: nat)
    requires Good(img) && Owned(img.sb, st') && st'.own == img.own && b < img.sb.size
    ensures (Used(img.sb, st'.disk, b) <==> b < img.freeblock)
    ensures (b in st'.own <==> DataStart(img.sb) <= b < img.freeblock)
  {
    hide Bits, Used, Recorded, Backed, Synced, ZeroTails, Snug, NoHoles;
    UsedIsPrefix(img, b);
  }

  lemma RoundedRoot(img: Image, st': State, files: seq<File>)
    requires Good(img) && |files| + 2 <= 0x1_0000 && Has(img, files, |files|) && img.sb == LAYOUT && Shapes(LAYOUT, st')
    requires |st'.inodes| == |img.inodes|
    requires st'.inodes[ROOTINO] == img.inodes[ROOTINO].(size := RoundedSize(img.inodes[ROOTINO].size))
    requires forall s: nat {:trigger SlotVal(st'.disk, st'.inodes[ROOTINO], s)} :: s < SLOTS ==>
               SlotVal(st'.disk, st'.inodes[ROOTINO], s) == SlotVal(img.View().disk, img.inodes[ROOTINO], s)
    requires forall k: nat {:trigger At(st', ROOTINO, k)} :: k < LIMIT ==>
              At(st', ROOTINO, k) == At(img.View(), ROOTINO, k)
    ensures RootBuilt(st', files)
  {
    hide Bits, Recorded, Backed, MapOk, SlotVal, ByteAt, At, NoHoles, Synced;
    var st := img.View();
    var size := st.inodes[ROOTINO].size;
    SizeOf(img, ROOTINO);
    WholeBlocks(|files| + 2);
    hide Bytes, RootBytes, RoundedSize, Owned;
    assert size == DIRENT * (|files| + 2);
    RoundedHole(LAYOUT, st, st', ROOTINO);
    assert ZeroTail(st, ROOTINO);
    RoundedFile(st, st', ROOTINO, RoundedSize(size));
  }

  /** The size of n directory entries and its rounding. */
  lemma WholeBlocks(n: nat)
    requires n <= LAYOUT.ninodes
    ensures DIRENT * n % BSIZE == 0 <==> n % 64 == 0
    ensures DIRENT * n < RoundedSize(DIRENT * n) <= LIMIT
  {
  }

  lemma RoundedFiles(img: Image, st': State, files: seq<File>)
    requires Good(img) && |files| + 2 <= 0x1_0000 && Has(img, files, |files|) && Shapes(img.sb, st')
    requires |st'.inodes| == |img.inodes|
    requires forall i: nat :: i < |img.inodes| && i != ROOTINO ==> st'.inodes[i] == img.inodes[i]
    requires forall i: nat, s: nat {:trigger SlotVal(st'.disk, st'.inodes[i], s)} :: i < |st'.inodes| && s < SLOTS ==>
               SlotVal(st'.disk, st'.inodes[i], s) == SlotVal(img.View().disk, img.inodes[i], s)
    requires forall i: nat, k: nat {:trigger At(st', i, k)} :: i < |st'.inodes| && k < LIMIT ==>
              At(st', i, k) == At(img.View(), i, k)
    ensures FilesBuilt(st', files)
  {
    hide Bits, Recorded, Backed, MapOk, SlotVal, ByteAt, At, NoHoles, Synced, ZeroTails, Snug;
    forall i: nat | i < |img.inodes| && i != ROOTINO
      ensures NoHoles(st'.disk, st'.inodes[i]) && st'.inodes[i].size <= LIMIT && FileAt(st', i) == Bytes(img, i)
    {
      assert st'.inodes[i] == img.inodes[i];
      RoundedOthers(img, st', i);
    }
    forall j: nat | j < |files|
      ensures FileBuilt(st', 2 + j, files[j].data)
    {
      assert HasFile(img, 2 + j, files[j].data);
      assert st'.inodes[2 + j] == img.inodes[2 + j];
    }
    forall i: nat | i < |st'.inodes| && (i == 0 || i >= |files| + 2) ensures st'.inodes[i] == NewInode(0) {
      assert st'.inodes[i] == img.inodes[i];
    }
    hide Good, Has, FileBuilt;
  }

  lemma RoundedBuilt(img: Image, files: seq<File>)
    requires Good(img) && |files| + 2 <= 0x1_0000 && Has(img, files, |files|) && img.sb == LAYOUT
    ensures RoundedSize(img.inodes[ROOTINO].size) <= LIMIT
    ensures Built(Finished(LAYOUT, img.View(), ROOTINO, RoundedSize(img.inodes[ROOTINO].size)), img.freeblock, files)
  {
    hide Bits, Recorded, Backed, MapOk, SlotVal, ByteAt, At, Finished, Used, NoHoles, RootBuilt, FilesBuilt;
    var st := img.View();
    var size := st.inodes[ROOTINO].size;
    SizeOf(img, ROOTINO);
    assert size == DIRENT * (|files| + 2) <= DIRENT * 200;
    SyncedBut(LAYOUT, st, st, ROOTINO);
    FinishedKeeps(LAYOUT, st, ROOTINO, RoundedSize(size));
    FinishedOwn(LAYOUT, st, ROOTINO, RoundedSize(size));
    var st' := Finished(LAYOUT, st, ROOTINO, RoundedSize(size));
    hide Synced, Bytes, RootBytes;
    RoundedRoot(img, st', files);
    RoundedFiles(img, st', files);
    forall b: nat | b < LAYOUT.size
      ensures (Used(LAYOUT, st'.disk, b) <==> b < img.freeblock)
      ensures (b in st'.own <==> DataStart(LAYOUT) <= b < img.freeblock)
    {
      RoundedMap(img, st', b);
    }
  }

  lemma SizeOf(img: Image, i: nat)
    requires Good(img) && i < |img.inodes|
    ensures img.inodes[i].size == |Bytes(img, i)| <= LIMIT
  {
  }

  lemma FinishedOwn(sb: Superblock, st: State, inum: nat, end: nat)
    requires Shapes(sb, st) && inum < |st.inodes| && end <= LIMIT
    ensures Finished(sb, st, inum, end).own == st.own
  {
  }

  /** balloc(used): the first used bits, one by one. */
  method BitmapBlock(used: nat) returns (buf: Block)
    requires used < BPB
    ensures buf == Bits(used)
  {
    buf := ZeroBlock();
    for i := 0 to used
      invariant buf == Bits(i)
    {
      buf := MarkBit(buf, i, true);
    }
  }

  /**
   mkfs: for files that fit, the image is as Built says. With more than 198 files it hands out inode 200, which
   the superblock does not have, exactly when the first 198 fit; otherwise it dies.
   */
  method MakeImage(files: seq<File>) returns (r: Ending, img: Image)
    requires forall j: nat :: j < |files| ==> IsString(files[j].name)
    ensures r == Made <==> FilesFit(files)
    ensures r == Overrun <==> |files| > LAYOUT.ninodes - 2 && FirstFit(files, LAYOUT.ninodes - 2)
    ensures r == Made ==>
              |files| + 2 <= LAYOUT.ninodes && Built(State(img.disk, img.inodes, img.own), img.freeblock, files)
  {
    hide Good, Bytes, Built, Finished, HasFile, Needed, Total;
    img := new Image(LAYOUT);
    BlankGood(img);
    MakeRoot(img, files);
    for i := 0 to |files|
      invariant img.sb == LAYOUT && Good(img) && |img.inodes| == LAYOUT.ninodes && fresh(img)
      invariant i + 2 <= LAYOUT.ninodes && Has(img, files, i)
      invariant forall j: nat :: j < i ==> |files[j].data| <= LIMIT
    {
      RoomFor(img);
      TakenGrows(files, i + 1, |files|);
      if |files| > LAYOUT.ninodes - 2 && i + 2 < LAYOUT.ninodes {
        TakenGrows(files, i + 1, LAYOUT.ninodes - 2);
      }
      r := AddFile(img, files, i);
      if r != Made {
        return;
      }
    }
    RoomFor(img);
    RoundedBuilt(img, files);
    RoundRoot(img);
    var buf := BitmapBlock(img.freeblock);
    img.disk := img.disk[img.sb.bmapstart := buf];
    r := Made;
  }

  /** The root directory with "." and "..". */
  method MakeRoot(img: Image, files: seq<File>)
    requires img.sb == LAYOUT && Good(img) && |img.inodes| == LAYOUT.ninodes
    requires img.freeinode == 1 && img.freeblock == DataStart(LAYOUT) && img.inodes[0] == NewInode(0)
    modifies img
    ensures Good(img) && |img.inodes| == |old(img.inodes)| && Has(img, files, 0)
  {
    hide Good, Bytes;
    var ok, root := MkfsIalloc(img, I_DIR);
    EmptyFile(img, root);
    ok := Iappend(img, root, Entry(ROOTINO, [46]));
    assert ok;
    ok := Iappend(img, root, Entry(ROOTINO, [46, 46]));
    assert ok;
  }

  /** The root inode is read back, its size rounded up, and written. */
  method RoundRoot(img: Image)
    requires Good(img) && ROOTINO < |img.inodes| && RoundedSize(img.inodes[ROOTINO].size) <= LIMIT
    modifies img
    ensures |img.disk| == img.sb.size && img.freeblock == old(img.freeblock) < BPB && img.sb.bmapstart < img.sb.size
    ensures img.View() == Finished(img.sb, old(img.View()), ROOTINO, RoundedSize(old(img.inodes)[ROOTINO].size))
  {
    ReadsMirror(img, ROOTINO);
    hide Bits, Recorded, Backed, MapOk, SlotVal, Finished, Synced, NoHoles, ZeroTails, Snug, DiskInode;
    var din := DiskInode(img.sb, img.disk, ROOTINO);
    CloseInode(img, ROOTINO, din, RoundedSize(din.size));
  }

  // The root directory as a map.

  lemma JoinedEntries(c: seq<Byte>, d: seq<Byte>, j: nat)
    requires |c| % DIRENT == 0 && j < Count(c + d)
    ensures Count(c + d) == Count(c) + Count(d)
    ensures Inum(c + d, j) == if j < Count(c) then Inum(c, j) else Inum(d, j - Count(c))
    ensures NameAt(c + d, j) == if j < Count(c) then NameAt(c, j) else NameAt(d, j - Count(c))
  {
    hide FieldName;
    if j < Count(c) {
      assert (c + d)[DIRENT * j + 2..DIRENT * j + DIRENT] == c[DIRENT * j + 2..DIRENT * j + DIRENT];
    } else {
      var i := j - Count(c);
      assert (c + d)[DIRENT * j + 2..DIRENT * j + DIRENT] == d[DIRENT * i + 2..DIRENT * i + DIRENT];
    }
  }

  /** The name of entry k of the root directory. */
  function RootName(files: seq<File>, k: nat): seq<Byte>
    requires k < |files| + 2
  {
    if k == 0 then [46] else if k == 1 then [46, 46] else files[k - 2].name
  }

  lemma {:induction false} RootEntry(files: seq<File>, n: nat, k: nat)
    requires n <= |files| && n + 2 <= 0x1_0000 && k < n + 2
    requires forall j: nat :: j < |files| ==> IsString(files[j].name)
    ensures Count(RootBytes(files, n)) == n + 2
    ensures Inum(RootBytes(files, n), k) == (if k < 2 then ROOTINO else k)
    ensures NameAt(RootBytes(files, n), k) == Key(RootName(files, k))
  {
    hide Inum, NameAt, Key;
    if n == 0 {
      JoinedEntries(Entry(ROOTINO, [46]), Entry(ROOTINO, [46, 46]), k);
      EntryOf(ROOTINO, [46]);
      EntryOf(ROOTINO, [46, 46]);
    } else {
      JoinedEntries(RootBytes(files, n - 1), Entry(n + 1, files[n - 1].name), k);
      EntryOf(n + 1, files[n - 1].name);
      if k < n + 1 {
        RootEntry(files, n - 1, k);
      }
    }
  }

  lemma ZeroEntry(n: nat, k: nat)
    requires k < Count(Zeros(n))
    ensures Inum(Zeros(n), k) == 0
  {
  }

  /** With distinct names the root directory is a map: each file's name leads to its inode. */
  lemma RootIsDir(files: seq<File>, pad: nat, k: nat)
    requires |files| + 2 <= 0x1_0000 && pad % DIRENT == 0 && k < |files| + 2
    requires forall j: nat :: j < |files| ==> IsString(files[j].name)
    requires forall i: nat, j: nat {:trigger RootName(files, i), RootName(files, j)} :: i < j < |files| + 2 ==>
              Key(RootName(files, i)) != Key(RootName(files, j))
    ensures var c := RootBytes(files, |files|) + Zeros(pad);
            IsDir(c) && Lookup(c, RootName(files, k)) == if k < 2 then ROOTINO else k
  {
    hide Inum, NameAt, Key, RootName, RootBytes, Zeros, Find;
    var c := RootBytes(files, |files|) + Zeros(pad);
    ZeroLen(pad);
    WholeEntries(|files| + 2, pad);
    forall j: nat | j < Count(c)
      ensures if j < |files| + 2 then Inum(c, j) != 0 && NameAt(c, j) == Key(RootName(files, j)) else Inum(c, j) == 0
    {
      RootAt(files, pad, j);
    }
    forall i: nat, j: nat | i < j < Count(c) && Inum(c, i) != 0 && Inum(c, j) != 0
      ensures NameAt(c, i) != NameAt(c, j)
    {
      assert Key(RootName(files, i)) != Key(RootName(files, j));
    }
    RootAt(files, pad, k);
    FindIsIt(c, Key(RootName(files, k)), k);
  }

  lemma RootAt(files: seq<File>, pad: nat, j: nat)
    requires |files| + 2 <= 0x1_0000 && forall j: nat :: j < |files| ==> IsString(files[j].name)
    requires j < Count(RootBytes(files, |files|) + Zeros(pad))
    ensures var c := RootBytes(files, |files|) + Zeros(pad);
            if j < |files| + 2
            then Inum(c, j) == (if j < 2 then ROOTINO else j) && NameAt(c, j) == Key(RootName(files, j))
            else Inum(c, j) == 0
  {
    hide Inum, NameAt, Key, RootName, RootBytes, Zeros;
    var r, z := RootBytes(files, |files|), Zeros(pad);
    ZeroLen(pad);
    JoinedEntries(r, z, j);
    if j < |files| + 2 {
      RootEntry(files, |files|, j);
    } else {
      ZeroEntry(pad, j - Count(r));
    }
  }

  lemma WholeEntries(m: nat, pad: nat)
    requires pad % DIRENT == 0
    ensures (DIRENT * m + pad) % DIRENT == 0
  {
  }

  lemma ZeroLen(n: nat)
    ensures |Zeros(n)| == n
  {
  }

  /** mkfs establishes the kernel's invariants unless the root directory ends exactly at a block boundary. */
  lemma MkfsEstablishes(st: State, freeblock: nat, files: seq<File>)
    requires |files| + 2 <= 0x1_0000 && Built(st, freeblock, files)
    ensures FsOk(LAYOUT, st) <==> (|files| + 2) % 64 != 0
  {
    hide NoHoles, Recorded, Backed, MapOk, Synced, Used;
  }
}
