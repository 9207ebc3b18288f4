/** Truncating, freeing and allocating inodes (itrunc, iput, ialloc in kernel/src/fs.c). */
module FsTrunc {
  import opened Blocks
  import opened FsLayout
  import opened FsState
  import opened FsGrow
  import opened FsTrail
  import opened FsBlocks
  import opened FsWrite
  import opened FsFiles

  /** The order in which itrunc frees places: direct blocks, entries of the table, the table itself. */
  function Rank(slot: nat): nat
    requires slot < SLOTS
  {
    if slot < NDIRECT then slot else if slot == NDIRECT then SLOTS - 1 else slot - 1
  }

  /** Block b is recorded and itrunc, having freed the places of rank below j, has not freed it yet. */
  predicate Left(own: Owners, inum: nat, j: nat, b: nat) {
    b in own && (own[b].inum != inum || own[b].slot >= SLOTS || Rank(own[b].slot) >= j)
  }

  /** The bitmap of d marks the metadata and what is left; every other block is as in st. */
  ghost predicate Freeing(sb: Superblock, st: State, d: Disk, inum: nat, j: nat)
    requires Shapes(sb, st)
  {
    && |d| == sb.size
    && (forall c: nat :: c < sb.bmapstart || DataStart(sb) <= c < sb.size ==> d[c] == st.disk[c])
    && (forall b: nat :: b < sb.size ==> (Used(sb, d, b) <==> b < DataStart(sb) || Left(st.own, inum, j, b)))
  }

  lemma FreeingStart(sb: Superblock, st: State, inum: nat)
    requires Owned(sb, st)
    ensures Freeing(sb, st, st.disk, inum, 0)
  {
    hide Used, Recorded, Backed;
  }

  /** The place of rank j holds no block: nothing to free. */
  lemma FreeingSkip(sb: Superblock, st: State, d: Disk, inum: nat, s: nat)
    requires Owned(sb, st) && inum < |st.inodes| && s < SLOTS && SlotVal(st.disk, st.inodes[inum], s) == 0
    requires Freeing(sb, st, d, inum, Rank(s))
    ensures Freeing(sb, st, d, inum, Rank(s) + 1)
  {
    hide Used, Recorded, MapOk, SlotVal;
    assert DataStart(sb) > 0;
    forall b: nat | b in st.own ensures Left(st.own, inum, Rank(s), b) <==> Left(st.own, inum, Rank(s) + 1, b) {
      assert st.own[b].inum == inum ==> SlotVal(st.disk, st.inodes[inum], st.own[b].slot) == b;
    }
  }

  /** The place of rank j holds block b, which is still marked; clearing its bit is one more step. */
  lemma FreeingStep(sb: Superblock, st: State, d: Disk, inum: nat, s: nat)
    requires Owned(sb, st) && inum < |st.inodes| && s < SLOTS && SlotVal(st.disk, st.inodes[inum], s) != 0
    requires Freeing(sb, st, d, inum, Rank(s))
    ensures var b := SlotVal(st.disk, st.inodes[inum], s); b < sb.size && BitBlock(sb, b) < sb.size && Used(sb, d, b)
    ensures Freeing(sb, st, Mark(sb, d, SlotVal(st.disk, st.inodes[inum], s), false), inum, Rank(s) + 1)
  {
    hide Used, Recorded, Backed, MapOk, SlotVal, Mark, Left, Rank;
    var b: nat := SlotVal(st.disk, st.inodes[inum], s);
    OneFreed(sb, st, inum, s);
    MarkDisk(sb, d, b, false);
  }

  /** Freeing the block of place s is one step on: what is left is all but that block. */
  lemma OneFreed(sb: Superblock, st: State, inum: nat, s: nat)
    requires Owned(sb, st) && inum < |st.inodes| && s < SLOTS && SlotVal(st.disk, st.inodes[inum], s) != 0
    ensures var b := SlotVal(st.disk, st.inodes[inum], s);
            && b in st.own && DataStart(sb) <= b < sb.size && Left(st.own, inum, Rank(s), b)
            && forall c: nat {:trigger Left(st.own, inum, Rank(s), c)} {:trigger Left(st.own, inum, Rank(s) + 1, c)} ::
                 Left(st.own, inum, Rank(s) + 1, c) <==> Left(st.own, inum, Rank(s), c) && c != b
  {
    hide Used, MapOk, SlotVal;
    var b: nat := SlotVal(st.disk, st.inodes[inum], s);
    assert b in st.own && st.own[b] == Place(inum, s);
    forall c: nat | c in st.own && c != b
      ensures Left(st.own, inum, Rank(s), c) <==> Left(st.own, inum, Rank(s) + 1, c)
    {
      assert st.own[c].inum == inum ==> SlotVal(st.disk, st.inodes[inum], st.own[c].slot) == c;
    }
  }

  /** Frees the block at place s, if there is one. "freeing free block" is out of reach. */
  method FreePlace(fs: Fs, ghost st: State, inum: nat, s: nat, addr: nat)
    requires Owned(fs.sb, st) && inum < |st.inodes| && s < SLOTS && addr == SlotVal(st.disk, st.inodes[inum], s)
    requires Freeing(fs.sb, st, fs.disk, inum, Rank(s))
    modifies fs`disk, fs`logged
    ensures Freeing(fs.sb, st, fs.disk, inum, Rank(s) + 1) && Traced(old(fs.Tr()), fs.Tr(), Bitmap(fs.sb))
  {
    hide Used, Recorded, Backed, MapOk, Mark, Left, Rank, Traced, Bitmap;
    TracedSelf(fs.Tr(), Bitmap(fs.sb));
    if addr != 0 {
      FreeingStep(fs.sb, st, fs.disk, inum, s);
      FreeTraced(fs.sb, fs.Tr(), addr);
      var r := fs.Bfree(addr);
      assert r.Ok?;
    } else {
      FreeingSkip(fs.sb, st, fs.disk, inum, s);
    }
  }

  function NoAddrs(): seq<nat> {
    [0, 0, 0, 0, 0, 0, 0, 0, 0, 0, 0, 0, 0]
  }

  /** Only other inodes' blocks stay recorded. */
  function Dropped(own: Owners, inum: nat): Owners {
    map b | b in own && own[b].inum != inum :: own[b]
  }

  function Emptied(ino: Inode): Inode {
    ino.(addrs := NoAddrs(), size := 0)
  }

  lemma TruncatedSlots(sb: Superblock, st: State, d: Disk, inum: nat, i: nat, s: nat)
    requires Owned(sb, st) && inum < |st.inodes| && i < |st.inodes| && s < SLOTS && Freeing(sb, st, d, inum, SLOTS)
    ensures SlotVal(d, st.inodes[inum := Emptied(st.inodes[inum])][i], s) == if i == inum then 0
                                                                             else SlotVal(st.disk, st.inodes[i], s)
  {
    if i != inum {
      if st.inodes[i].addrs[NDIRECT] != 0 {
        TableIsOwned(sb, st, i);
      }
      SameTable(st.disk, d, st.inodes[i], s);
    }
  }

  /** Freeing every place of an inode and clearing its addresses keeps ownership exact. */
  lemma TruncatedOwned(sb: Superblock, st: State, d: Disk, inum: nat)
    requires Owned(sb, st) && inum < |st.inodes| && Freeing(sb, st, d, inum, SLOTS)
    ensures Owned(sb, State(d, st.inodes[inum := Emptied(st.inodes[inum])], Dropped(st.own, inum)))
  {
    var st' := State(d, st.inodes[inum := Emptied(st.inodes[inum])], Dropped(st.own, inum));
    assert AllShaped(st'.inodes);
    forall i: nat, s: nat | i < |st.inodes| && s < SLOTS
      ensures SlotVal(d, st'.inodes[i], s) == if i == inum then 0 else SlotVal(st.disk, st.inodes[i], s)
    {
      TruncatedSlots(sb, st, d, inum, i, s);
    }
    TruncatedMap(sb, st, st', inum);
    hide SlotVal, Used, Emptied, MapOk, Freeing;
    TruncatedPlaces(sb, st, st', inum);
  }

  lemma TruncatedPlaces(sb: Superblock, st: State, st': State, inum: nat)
    requires Shapes(sb, st) && Recorded(st) && Backed(sb, st) && Shapes(sb, st') && |st'.inodes| == |st.inodes|
    requires st'.own == Dropped(st.own, inum)
    requires forall i: nat, s: nat {:trigger SlotVal(st'.disk, st'.inodes[i], s)} :: i < |st.inodes| && s < SLOTS ==>
               SlotVal(st'.disk, st'.inodes[i], s) == if i == inum then 0 else SlotVal(st.disk, st.inodes[i], s)
    ensures Recorded(st') && Backed(sb, st')
  {
    hide SlotVal;
    forall i: nat, s: nat | i < |st'.inodes| && s < SLOTS && SlotVal(st'.disk, st'.inodes[i], s) != 0
      ensures SlotVal(st'.disk, st'.inodes[i], s) in st'.own
      ensures st'.own[SlotVal(st'.disk, st'.inodes[i], s)] == Place(i, s)
    {
      assert SlotVal(st.disk, st.inodes[i], s) in st.own;
    }
  }

  lemma TruncatedMap(sb: Superblock, st: State, st': State, inum: nat)
    requires Owned(sb, st) && |st'.disk| == sb.size && Freeing(sb, st, st'.disk, inum, SLOTS)
    requires st'.own == Dropped(st.own, inum)
    ensures MapOk(sb, st')
  {
    hide SlotVal, Used, Recorded;
    forall b: nat | b in st.own ensures Left(st.own, inum, SLOTS, b) <==> b in st'.own {
      assert st.own[b].slot < SLOTS;
    }
  }

  /** Without a table there is nothing left to free after the direct blocks. */
  lemma FreeingNoTable(sb: Superblock, st: State, d: Disk, inum: nat)
    requires Owned(sb, st) && inum < |st.inodes| && st.inodes[inum].addrs[NDIRECT] == 0
    requires Freeing(sb, st, d, inum, NDIRECT)
    ensures Freeing(sb, st, d, inum, SLOTS)
  {
    hide Used, Recorded, MapOk;
    forall b: nat | b in st.own ensures Left(st.own, inum, NDIRECT, b) <==> Left(st.own, inum, SLOTS, b) {
      assert st.own[b].inum == inum ==> SlotVal(st.disk, st.inodes[inum], st.own[b].slot) == b;
    }
  }

  lemma EntryVal(sb: Superblock, st: State, d: Disk, inum: nat, j: nat, rank: nat)
    requires Owned(sb, st) && inum < |st.inodes| && j < NINDIRECT && st.inodes[inum].addrs[NDIRECT] != 0
    requires Freeing(sb, st, d, inum, rank)
    ensures var tab := st.inodes[inum].addrs[NDIRECT];
            tab < sb.size && SlotVal(st.disk, st.inodes[inum], NDIRECT + 1 + j) == GetWord(d[tab], j)
  {
    hide Used, MapOk;
    TableIsOwned(sb, st, inum);
  }

  /** The indirect half of itrunc's work on the bitmap. */
  method FreeTable(fs: Fs, ghost st: State, inum: nat, tab: nat)
    requires Owned(fs.sb, st) && inum < |st.inodes| && tab == st.inodes[inum].addrs[NDIRECT]
    requires Freeing(fs.sb, st, fs.disk, inum, NDIRECT)
    modifies fs`disk, fs`logged
    ensures Freeing(fs.sb, st, fs.disk, inum, SLOTS) && Traced(old(fs.Tr()), fs.Tr(), Bitmap(fs.sb))
  {
    hide SlotVal, Used, Recorded, Backed, MapOk, Freeing, Left, Traced, Bitmap;
    ghost var tr := fs.Tr();
    TracedSelf(tr, Bitmap(fs.sb));
    if tab == 0 {
      FreeingNoTable(fs.sb, st, fs.disk, inum);
      return;
    }
    var j := 0;
    while j < NINDIRECT
      invariant j <= NINDIRECT && Freeing(fs.sb, st, fs.disk, inum, NDIRECT + j)
      invariant Traced(tr, fs.Tr(), Bitmap(fs.sb))
    {
      ghost var mid := fs.Tr();
      EntryVal(fs.sb, st, fs.disk, inum, j, NDIRECT + j);
      InDisk(fs.sb, st, fs.disk, inum, NDIRECT + j);
      FreePlace(fs, st, inum, NDIRECT + 1 + j, GetWord(fs.disk[tab], j));
      TracedThen(tr, mid, fs.Tr(), Bitmap(fs.sb), Bitmap(fs.sb));
      j := j + 1;
    }
    PlaceVal(st, inum, NDIRECT);
    ghost var last := fs.Tr();
    FreePlace(fs, st, inum, NDIRECT, tab);
    TracedThen(tr, last, fs.Tr(), Bitmap(fs.sb), Bitmap(fs.sb));
  }

  lemma InDisk(sb: Superblock, st: State, d: Disk, inum: nat, j: nat)
    requires Shapes(sb, st) && Freeing(sb, st, d, inum, j)
    ensures |d| == sb.size
  {
  }

  /** itrunc: every block of the inode, and no other, is freed; its size is 0; other files stay. */
  method Itrunc(fs: Fs, inum: nat)
    requires FsOk(fs.sb, fs.St()) && inum < |fs.inodes|
    modifies fs
    ensures FsOk(fs.sb, fs.St())
    ensures fs.inodes == old(fs.inodes)[inum := Emptied(old(fs.inodes)[inum])] && fs.own == Dropped(old(fs.own), inum)
    ensures forall i: nat :: i < |fs.inodes| && i != inum ==> FileAt(fs.St(), i) == old(FileAt(fs.St(), i))
    ensures Traced(old(fs.Tr()), fs.Tr(), FreeLog(fs.sb, inum))
  {
    hide SlotVal, Used, Recorded, Backed, MapOk, Freeing, Left, Synced, NoHoles, Traced, Bitmap;
    ghost var st, tr := fs.St(), fs.Tr();
    TracedSelf(tr, Bitmap(fs.sb));
    FreeingStart(fs.sb, st, inum);
    var i := 0;
    while i < NDIRECT
      invariant i <= NDIRECT && Freeing(fs.sb, st, fs.disk, inum, i) && fs.own == st.own
      invariant Traced(tr, fs.Tr(), Bitmap(fs.sb))
      invariant |fs.inodes| == |st.inodes|
      invariant fs.inodes == st.inodes[inum := st.inodes[inum].(addrs := fs.inodes[inum].addrs)]
      invariant |fs.inodes[inum].addrs| == NDIRECT + 1
      invariant forall k: nat :: k <= NDIRECT ==>
                fs.inodes[inum].addrs[k] == if k < i then 0 else st.inodes[inum].addrs[k]
    {
      ghost var mid := fs.Tr();
      PlaceVal(st, inum, i);
      FreePlace(fs, st, inum, i, fs.inodes[inum].addrs[i]);
      TracedThen(tr, mid, fs.Tr(), Bitmap(fs.sb), Bitmap(fs.sb));
      fs.inodes := fs.inodes[inum := WithAddr(fs.inodes[inum], i, 0)];
      i := i + 1;
    }
    ghost var direct := fs.Tr();
    FreeTable(fs, st, inum, fs.inodes[inum].addrs[NDIRECT]);
    TracedThen(tr, direct, fs.Tr(), Bitmap(fs.sb), Bitmap(fs.sb));
    ghost var freed := fs.Tr();
    fs.inodes := fs.inodes[inum := WithAddr(fs.inodes[inum], NDIRECT, 0).(size := 0)];
    fs.own := Dropped(fs.own, inum);
    assert fs.inodes[inum].addrs == NoAddrs();
    assert fs.St() == State(fs.disk, st.inodes[inum := Emptied(st.inodes[inum])], Dropped(st.own, inum));
    TruncDone(fs.sb, st, fs.disk, inum);
    Iupdate(fs, inum);
    TracedWithin(freed, fs.Tr(), {InodeBlock(fs.sb, inum)}, FreeLog(fs.sb, inum));
    TracedThen(tr, freed, fs.Tr(), Bitmap(fs.sb), FreeLog(fs.sb, inum));
  }

  /** The blocks logged when inode inum is emptied. */
  function FreeLog(sb: Superblock, inum: nat): set<nat> {
    Bitmap(sb) + {InodeBlock(sb, inum)}
  }

  lemma TruncDone(sb: Superblock, st: State, d: Disk, inum: nat)
    requires FsOk(sb, st) && inum < |st.inodes| && Freeing(sb, st, d, inum, SLOTS)
    ensures var mid := State(d, st.inodes[inum := Emptied(st.inodes[inum])], Dropped(st.own, inum));
            && Shapes(sb, mid) && FsOk(sb, Updated(sb, mid, inum)) && Updated(sb, mid, inum).inodes == mid.inodes
            && Updated(sb, mid, inum).own == mid.own
            && forall i: nat {:trigger FileAt(Updated(sb, mid, inum), i)} :: i < |st.inodes| && i != inum ==>
                 FileAt(Updated(sb, mid, inum), i) == FileAt(st, i)
  {
    var mid := State(d, st.inodes[inum := Emptied(st.inodes[inum])], Dropped(st.own, inum));
    TruncatedOwned(sb, st, d, inum);
    assert forall c: nat :: c < sb.bmapstart || DataStart(sb) <= c < sb.size ==> d[c] == st.disk[c];
    assert Synced(sb, mid, inum) by {
      TruncSynced(sb, st, mid, inum);
    }
    UpdatedKeeps(sb, mid, inum);
    UpdatedSynced(sb, mid, inum);
    UpdatedInodes(sb, mid, inum);
    var st' := Updated(sb, mid, inum);
    forall i: nat | i < |st.inodes| ensures NoHoles(st'.disk, st'.inodes[i])
      ensures st'.inodes[i].size <= LIMIT && (i != inum ==> FileAt(st', i) == FileAt(st, i))
    {
      TruncFile(sb, st, mid, st', inum, i);
    }
    hide Freeing, SlotVal, Updated, Recorded, Backed, MapOk, Synced;
  }

  lemma TruncSynced(sb: Superblock, st: State, mid: State, inum: nat)
    requires Shapes(sb, st) && Shapes(sb, mid) && Synced(sb, st, -1) && inum < |st.inodes|
    requires mid.inodes == st.inodes[inum := Emptied(st.inodes[inum])]
    requires forall c: nat :: c < sb.bmapstart ==> mid.disk[c] == st.disk[c]
    ensures Synced(sb, mid, inum)
  {
    hide GetInode, Shape;
    forall i: nat | i < |mid.inodes| && i != inum
      ensures InodeBlock(sb, i) < sb.bmapstart && DiskInode(sb, mid.disk, i) == mid.inodes[i]
    {
      InodeBlockRange(sb, i);
      assert mid.inodes[i] == st.inodes[i];
    }
  }

  lemma TruncFile(sb: Superblock, st: State, mid: State, st': State, inum: nat, i: nat)
    requires Sound(sb, st) && Owned(sb, mid) && Shapes(sb, st') && inum < |st.inodes| && i < |st.inodes|
    requires Freeing(sb, st, mid.disk, inum, SLOTS)
    requires mid.inodes == st.inodes[inum := Emptied(st.inodes[inum])] && st'.inodes == mid.inodes
    requires forall c: nat :: sb.bmapstart <= c < sb.size ==> st'.disk[c] == mid.disk[c]
    requires forall s: nat {:trigger SlotVal(st'.disk, mid.inodes[i], s)} :: s < SLOTS ==>
               SlotVal(st'.disk, mid.inodes[i], s) == SlotVal(mid.disk, mid.inodes[i], s)
    ensures NoHoles(st'.disk, st'.inodes[i]) && st.inodes[i].size <= LIMIT
    ensures (i != inum ==> FileAt(st', i) == FileAt(st, i))
  {
    assert NoHoles(st.disk, st.inodes[i]);
    forall s: nat | s < SLOTS
      ensures i != inum ==> SlotVal(st'.disk, st'.inodes[i], s) == SlotVal(st.disk, st.inodes[i], s)
    {
      TruncatedSlots(sb, st, mid.disk, inum, i, s);
    }
    hide SlotVal, Used, Recorded, Backed, MapOk;
    if i != inum {
      forall bn: nat | bn < MAXFILE && bn * BSIZE < st'.inodes[i].size
        ensures SlotVal(st'.disk, st'.inodes[i], Slot(bn)) != 0
      {
        assert SlotVal(st.disk, st.inodes[i], Slot(bn)) != 0;
      }
      SameFiles(sb, st, st', i);
      SameContents(st, st', i);
    }
  }

  lemma SameContents(st: State, st': State, i: nat)
    requires AllShaped(st.inodes) && AllShaped(st'.inodes) && i < |st.inodes| == |st'.inodes|
    requires st'.inodes[i].size == st.inodes[i].size <= LIMIT
    requires forall k: nat :: k < LIMIT ==> At(st', i, k) == At(st, i, k)
    ensures FileAt(st', i) == FileAt(st, i)
  {
    hide ByteAt;
    forall k: nat | k < st.inodes[i].size ensures FileAt(st', i)[k] == FileAt(st, i)[k] {
      assert At(st', i, k) == At(st, i, k);
    }
  }

  lemma PlaceVal(st: State, inum: nat, s: nat)
    requires AllShaped(st.inodes) && inum < |st.inodes| && s <= NDIRECT
    ensures SlotVal(st.disk, st.inodes[inum], s) == st.inodes[inum].addrs[s]
  {
  }

  // Changes to an inode that leave size and addresses alone.

  predicate SameData(a: Inode, b: Inode) {
    a.size == b.size && a.addrs == b.addrs
  }

  function Restated(sb: Superblock, st: State, inum: nat, ino: Inode): State
    requires Shapes(sb, st) && inum < |st.inodes| && Shape(ino)
  {
    Updated(sb, st.(inodes := st.inodes[inum := ino]), inum)
  }

  /** Storing an inode with a new type or link count keeps every invariant and every file. */
  lemma RestatedKeeps(sb: Superblock, st: State, inum: nat, ino: Inode)
    requires FsOk(sb, st) && inum < |st.inodes| && Shape(ino) && SameData(st.inodes[inum], ino)
    ensures var st' := Restated(sb, st, inum, ino);
            && FsOk(sb, st') && st'.inodes == st.inodes[inum := ino] && st'.own == st.own
            && (forall i: nat {:trigger FileAt(st', i)} :: i < |st.inodes| ==> FileAt(st', i) == FileAt(st, i))
            && (forall i: nat, k: nat {:trigger At(st', i, k)} :: i < |st.inodes| && k < LIMIT ==>
                 At(st', i, k) == At(st, i, k))
  {
    var mid := st.(inodes := st.inodes[inum := ino]);
    RestatedOwned(sb, st, inum, ino);
    SyncedBut(sb, st, mid, inum);
    hide SlotVal, Recorded, Backed, MapOk;
    UpdatedKeeps(sb, mid, inum);
    UpdatedSynced(sb, mid, inum);
    UpdatedInodes(sb, mid, inum);
    hide Updated, Synced, At;
    var st' := Updated(sb, mid, inum);
    forall i: nat | i < |st.inodes| ensures NoHoles(st'.disk, st'.inodes[i])
      ensures st.inodes[i].size <= LIMIT && st'.inodes[i].size <= LIMIT && FileAt(st', i) == FileAt(st, i)
      ensures forall k: nat :: k < LIMIT ==> At(st', i, k) == At(st, i, k)
    {
      RestatedFile(sb, st, st', i);
    }
  }

  lemma RestatedOwned(sb: Superblock, st: State, inum: nat, ino: Inode)
    requires Owned(sb, st) && inum < |st.inodes| && Shape(ino) && SameData(st.inodes[inum], ino)
    ensures var mid := st.(inodes := st.inodes[inum := ino]);
            && Owned(sb, mid)
            && forall i: nat, s: nat {:trigger SlotVal(mid.disk, mid.inodes[i], s)} :: i < |st.inodes| && s < SLOTS ==>
                 SlotVal(mid.disk, mid.inodes[i], s) == SlotVal(st.disk, st.inodes[i], s)
  {
    var mid := st.(inodes := st.inodes[inum := ino]);
    forall i: nat, s: nat | i < |st.inodes| && s < SLOTS
      ensures SlotVal(mid.disk, mid.inodes[i], s) == SlotVal(st.disk, st.inodes[i], s)
    {
    }
    hide SlotVal, Used;
  }

  lemma SyncedBut(sb: Superblock, st: State, mid: State, inum: nat)
    requires Shapes(sb, st) && Shapes(sb, mid) && Synced(sb, st, -1) && mid.disk == st.disk
    requires |mid.inodes| == |st.inodes|
    requires forall i: nat :: i < |st.inodes| && i != inum ==> mid.inodes[i] == st.inodes[i]
    ensures Synced(sb, mid, inum)
  {
    hide DiskInode, Shape;
    forall i: nat | i < |mid.inodes| && i != inum
      ensures InodeBlock(sb, i) < sb.bmapstart && DiskInode(sb, mid.disk, i) == mid.inodes[i]
    {
      assert mid.inodes[i] == st.inodes[i];
    }
  }

  lemma RestatedFile(sb: Superblock, st: State, st': State, i: nat)
    requires Sound(sb, st) && Shapes(sb, st') && i < |st.inodes| == |st'.inodes|
    requires st'.inodes[i].size == st.inodes[i].size
    requires forall c: nat :: sb.bmapstart <= c < sb.size ==> st'.disk[c] == st.disk[c]
    requires forall s: nat {:trigger SlotVal(st'.disk, st'.inodes[i], s)} :: s < SLOTS ==>
               SlotVal(st'.disk, st'.inodes[i], s) == SlotVal(st.disk, st.inodes[i], s)
    ensures NoHoles(st'.disk, st'.inodes[i]) && st.inodes[i].size <= LIMIT && FileAt(st', i) == FileAt(st, i)
    ensures forall k: nat :: k < LIMIT ==> At(st', i, k) == At(st, i, k)
  {
    hide SlotVal, Used, Recorded, Backed, MapOk;
    assert NoHoles(st.disk, st.inodes[i]);
    forall bn: nat | bn < MAXFILE && bn * BSIZE < st'.inodes[i].size
      ensures SlotVal(st'.disk, st'.inodes[i], Slot(bn)) != 0
    {
      assert SlotVal(st.disk, st.inodes[i], Slot(bn)) != 0;
    }
    SameFiles(sb, st, st', i);
    SameContents(st, st', i);
  }

  /** A free inode has no blocks. */
  predicate Tidy(inodes: seq<Inode>) {
    forall i: nat {:trigger inodes[i]} :: i < |inodes| && inodes[i].kind == 0 ==>
        inodes[i].size == 0 && inodes[i].addrs == NoAddrs()
  }

  /**
   iput: dropping the last reference to an inode without links frees its blocks and the inode itself;
   otherwise only the reference count changes.
   */
  method Iput(fs: Fs, inum: nat, refs: nat, valid: bool) returns (refs': nat, valid': bool)
    requires FsOk(fs.sb, fs.St()) && Tidy(fs.inodes) && inum < |fs.inodes| && refs > 0
    modifies fs
    ensures FsOk(fs.sb, fs.St()) && Tidy(fs.inodes) && refs' == refs - 1
    ensures var frees := refs == 1 && valid && old(fs.inodes)[inum].nlink == 0;
            && valid' == (valid && !frees)
            && fs.inodes ==
               (if frees then old(fs.inodes)[inum := Emptied(old(fs.inodes)[inum]).(kind := 0)] else old(fs.inodes))
            && fs.own == (if frees then Dropped(old(fs.own), inum) else old(fs.own))
            && (!frees ==> fs.disk == old(fs.disk) && fs.logged == old(fs.logged))
    ensures Traced(old(fs.Tr()), fs.Tr(), FreeLog(fs.sb, inum))
    ensures forall i: nat :: i < |fs.inodes| && i != inum ==> FileAt(fs.St(), i) == old(FileAt(fs.St(), i))
  {
    hide SlotVal, Used, Recorded, Backed, MapOk, Synced, NoHoles, ByteAt, Traced, FreeLog;
    ghost var tr := fs.Tr();
    TracedSelf(tr, FreeLog(fs.sb, inum));
    valid' := valid;
    if refs == 1 && valid && fs.inodes[inum].nlink == 0 {
      Itrunc(fs, inum);
      ghost var mid := fs.Tr();
      var ino := fs.inodes[inum].(kind := 0);
      RestatedKeeps(fs.sb, fs.St(), inum, ino);
      fs.inodes := fs.inodes[inum := ino];
      Iupdate(fs, inum);
      ThenInode(fs.sb, tr, mid, fs.Tr(), inum);
      valid' := false;
    }
    refs' := refs - 1;
  }

  lemma ThenInode(sb: Superblock, a: Trail, b: Trail, c: Trail, inum: nat)
    requires Traced(a, b, FreeLog(sb, inum)) && Traced(b, c, {InodeBlock(sb, inum)})
    ensures Traced(a, c, FreeLog(sb, inum))
  {
    hide Bitmap, Traced;
    TracedWithin(b, c, {InodeBlock(sb, inum)}, FreeLog(sb, inum));
    TracedThen(a, b, c, FreeLog(sb, inum), FreeLog(sb, inum));
  }

  function NewInode(kind: nat): Inode {
    Inode(kind, 0, 0, 0, 0, NoAddrs())
  }

  /** ialloc: the lowest free inode becomes a fresh one of the given type; none is found exactly when all are taken. */
  method Ialloc(fs: Fs, kind: nat) returns (inum: nat)
    requires FsOk(fs.sb, fs.St()) && Tidy(fs.inodes) && 0 < kind < SHORT_LIMIT
    modifies fs
    ensures FsOk(fs.sb, fs.St()) && Tidy(fs.inodes) && fs.own == old(fs.own) && |fs.inodes| == |old(fs.inodes)|
    ensures inum == 0 ==> fs.St() == old(fs.St()) && forall i: nat :: 1 <= i < |fs.inodes| ==> fs.inodes[i].kind != 0
    ensures inum != 0 ==>
              && inum < |fs.inodes|
              && old(fs.inodes)[inum].kind == 0
              && (forall i: nat :: 1 <= i < inum ==> old(fs.inodes)[i].kind != 0)
              && fs.inodes == old(fs.inodes)[inum := NewInode(kind)]
    ensures forall i: nat :: i < |fs.inodes| ==> FileAt(fs.St(), i) == old(FileAt(fs.St(), i))
    ensures if inum == 0 then fs.logged == old(fs.logged)
            else Traced(old(fs.Tr()), fs.Tr(), {InodeBlock(fs.sb, inum)})
  {
    hide SlotVal, Used, Recorded, Backed, MapOk, Synced, NoHoles, ByteAt, DiskInode, Updated, Traced;
    inum := 1;
    while inum < fs.sb.ninodes
      invariant inum >= 1 && fs.St() == old(fs.St()) && fs.logged == old(fs.logged)
      invariant forall i: nat :: 1 <= i < inum && i < |fs.inodes| ==> fs.inodes[i].kind != 0
    {
      OnDisk(fs.sb, fs.St(), inum);
      if DiskInode(fs.sb, fs.disk, inum).kind == 0 {
        assert SameData(fs.inodes[inum], NewInode(kind));
        RestatedKeeps(fs.sb, fs.St(), inum, NewInode(kind));
        fs.inodes := fs.inodes[inum := NewInode(kind)];
        Iupdate(fs, inum);
        return;
      }
      inum := inum + 1;
    }
    inum := 0;
  }

  lemma OnDisk(sb: Superblock, st: State, i: nat)
    requires Shapes(sb, st) && Synced(sb, st, -1) && i < |st.inodes|
    ensures InodeBlock(sb, i) < |st.disk| && DiskInode(sb, st.disk, i) == st.inodes[i]
  {
  }
}
