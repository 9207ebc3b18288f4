/** The image builder (mkfs/mkfs.c): the image it writes is in the state the kernel's file system expects. */
module Mkfs {
  import opened Blocks
  import opened FsLayout
  import opened FsState
  import opened FsGrow
  import opened FsWrite
  import opened FsFiles
  import opened FsTrunc

  /** balloc's loop: a bitmap block whose first n bits are set. */
  function Bits(n: nat): Block
    requires n <= BPB
  {
    if n == 0 then ZeroBlock() else MarkBit(Bits(n - 1), n - 1, true)
  }

  lemma {:induction false} ZeroBit(m: nat)
    ensures !TestBit(0, m)
  {
    if m > 0 {
      ZeroBit(m - 1);
    }
  }

  lemma {:induction false} BitsAt(n: nat, b: nat)
    requires n <= BPB && b < BPB
    ensures BitAt(Bits(n), b) <==> b < n
  {
    if n == 0 {
      ZeroBit(b % 8);
    } else {
      BitsAt(n - 1, b);
      MarkBitBits(Bits(n - 1), n - 1, true, b);
    }
  }

  /**
   The image under construction. inodes mirrors the inode blocks and own records which place holds which
   block; both are ghost.
   */
  class Image {
    const sb: Superblock
    var disk: Disk
    var freeinode: nat
    var freeblock: nat
    ghost var inodes: seq<Inode>
    ghost var own: Owners

    constructor (sb: Superblock)
      requires Fits(sb) && sb.size < BPB
      ensures this.sb == sb && freeinode == 1 && freeblock == DataStart(sb)
      ensures disk == seq(sb.size, _ => ZeroBlock()) && inodes == seq(sb.ninodes, _ => NewInode(0)) && own == map[]
    {
      this.sb := sb;
      disk := seq(sb.size, _ => ZeroBlock());
      freeinode, freeblock := 1, DataStart(sb);
      inodes, own := seq(sb.ninodes, _ => NewInode(0)), map[];
    }

    /** The state the image is in once balloc(freeblock) has written the bitmap. */
    ghost function View(): State
      requires sb.bmapstart < |disk| && freeblock <= BPB
      reads this
    {
      State(disk[sb.bmapstart := Bits(freeblock)], inodes, own)
    }

    /** Blocks from freeblock on are untouched; with its bitmap the image is a sound file system. */
    ghost predicate Valid()
      reads this
    {
      && Fits(sb) && |disk| == sb.size < BPB && DataStart(sb) <= freeblock <= sb.size
      && Owned(sb, View())
      && (forall b: nat :: freeblock <= b < sb.size ==> disk[b] == ZeroBlock())
    }
  }

  /** The blocks in use are exactly the first freeblock ones. */
  lemma UsedIsPrefix(img: Image, b: nat)
    requires img.Valid() && b < img.sb.size
    ensures Used(img.sb, img.View().disk, b) <==> b < img.freeblock
    ensures b in img.own <==> DataStart(img.sb) <= b < img.freeblock
  {
    hide BitAt, Bits, Recorded, Backed;
    BitsAt(img.freeblock, b);
    assert BitBlock(img.sb, b) == img.sb.bmapstart;
    OwnedIsData(img.sb, img.View(), b);
  }

  lemma OwnedIsData(sb: Superblock, st: State, b: nat)
    requires AllShaped(st.inodes) && Backed(sb, st)
    ensures b in st.own ==> DataStart(sb) <= b < sb.size
  {
    hide SlotVal;
  }

  /** Taking freeblock is what balloc of the kernel would do on the finished image. */
  lemma TakeIsAlloc(sb: Superblock, d: Disk, fb: nat)
    requires Fits(sb) && |d| == sb.size < BPB && DataStart(sb) <= fb < sb.size && d[fb] == ZeroBlock()
    ensures BitBlock(sb, fb) < |d|
    ensures d[sb.bmapstart := Bits(fb + 1)] == Alloc(sb, d[sb.bmapstart := Bits(fb)], fb)
  {
    hide MarkBit, BitAt;
    assert BitBlock(sb, fb) == sb.bmapstart;
  }

  /** A data block or an inode block written to the image shows in the view as well. */
  lemma ViewCommutes(d: Disk, m: nat, bits: Block, x: nat, blk: Block)
    requires m < |d| && x < |d| && x != m
    ensures d[x := blk][m := bits] == d[m := bits][x := blk]
  {
  }

  /** Besides the indirect table of inode inum, only its place s may have been filled. */
  ghost predicate OnlyAt(st: State, st': State, inum: nat, s: nat)
    requires AllShaped(st.inodes) && AllShaped(st'.inodes)
  {
    && |st'.inodes| == |st.inodes|
    && forall i: nat, t: nat {:trigger SlotVal(st'.disk, st'.inodes[i], t)} ::
         i < |st.inodes| && t < SLOTS && !(i == inum && (t == s || t == NDIRECT)) ==>
           SlotVal(st'.disk, st'.inodes[i], t) == SlotVal(st.disk, st.inodes[i], t)
  }

  lemma GrownOnlyAt(sb: Superblock, st: State, st': State, inum: nat, s: nat, b: nat)
    requires Shapes(sb, st) && Shapes(sb, st') && Grown(sb, st, st', inum, s, b)
    ensures OnlyAt(st, st', inum, s)
  {
    hide SlotVal;
  }

  lemma OnlyAtTrans(st: State, st1: State, st2: State, inum: nat, s: nat)
    requires AllShaped(st.inodes) && AllShaped(st1.inodes) && AllShaped(st2.inodes) && OnlyAt(st, st1, inum, s)
    requires OnlyAt(st1, st2, inum, s)
    ensures OnlyAt(st, st2, inum, s)
  {
    hide SlotVal;
    forall i: nat, t: nat | i < |st.inodes| && t < SLOTS && !(i == inum && (t == s || t == NDIRECT))
      ensures SlotVal(st2.disk, st2.inodes[i], t) == SlotVal(st.disk, st.inodes[i], t)
    {
      assert SlotVal(st1.disk, st1.inodes[i], t) == SlotVal(st.disk, st.inodes[i], t);
    }
  }

  lemma OnlyAtSelf(st: State, inum: nat, s: nat)
    requires AllShaped(st.inodes)
    ensures OnlyAt(st, st, inum, s)
  {
  }

  /** din.addrs[s], taken from freeblock if it was 0; false when the image is full. */
  method TakeDirect(img: Image, inum: nat, din: Inode, s: nat) returns (ok: bool, din': Inode)
    requires img.Valid() && inum < |img.inodes| && img.inodes[inum] == din && s <= NDIRECT
    modifies img
    ensures img.Valid() && inum < |img.inodes| && img.inodes[inum] == din'
    ensures Extends(img.sb, old(img.View()), img.View(), inum) && OnlyAt(old(img.View()), img.View(), inum, s)
    ensures ok ==> din'.addrs[s] != 0
    ensures ok <==> din.addrs[s] != 0 || old(img.freeblock) < img.sb.size
    ensures img.freeblock == old(img.freeblock) + if ok && din.addrs[s] == 0 then 1 else 0
    ensures s < NDIRECT ==> din'.addrs[NDIRECT] == din.addrs[NDIRECT]
    ensures img.freeinode == old(img.freeinode)
  {
    hide Bits, BitAt, Recorded, Backed, MapOk, Extends, OnlyAt;
    ghost var st := img.View();
    din', ok := din, true;
    if din.addrs[s] == 0 {
      if img.freeblock >= img.sb.size {
        ExtendsSelf(img.sb, st, inum);
        OnlyAtSelf(st, inum, s);
        return false, din;
      }
      var fb := img.freeblock;
      TakeIsAlloc(img.sb, img.disk, fb);
      UsedIsPrefix(img, fb);
      GrowDirectOwned(img.sb, st, inum, s, fb);
      din' := WithAddr(din, s, fb);
      img.freeblock := fb + 1;
      img.inodes := img.inodes[inum := din'];
      img.own := img.own[fb := Place(inum, s)];
      assert img.View() == GrowDirect(img.sb, st, inum, s, fb);
      assert SlotVal(st.disk, st.inodes[inum], s) == 0;
      GrownExtends(img.sb, st, img.View(), inum, s, fb);
      GrownOnlyAt(img.sb, st, img.View(), inum, s, fb);
    } else {
      ExtendsSelf(img.sb, st, inum);
      OnlyAtSelf(st, inum, s);
    }
  }

  /** The entry of the indirect table for place s, taken from freeblock if it was 0. */
  method TakeEntry(img: Image, inum: nat, din: Inode, s: nat) returns (ok: bool, x: nat)
    requires img.Valid() && inum < |img.inodes| && img.inodes[inum] == din && NDIRECT < s < SLOTS
    requires din.addrs[NDIRECT] != 0
    modifies img
    ensures img.Valid() && inum < |img.inodes| && img.inodes[inum] == din
    ensures Extends(img.sb, old(img.View()), img.View(), inum) && OnlyAt(old(img.View()), img.View(), inum, s)
    ensures ok ==> x != 0 && SlotVal(img.View().disk, din, s) == x
    ensures var had := SlotVal(old(img.View()).disk, din, s) != 0;
            (ok <==> had || old(img.freeblock) < img.sb.size)
            && img.freeblock == old(img.freeblock) + if ok && !had then 1 else 0
    ensures img.freeinode == old(img.freeinode)
  {
    hide Bits, BitAt, Recorded, Backed, MapOk, Extends, OnlyAt;
    ghost var st := img.View();
    TableIsOwned(img.sb, st, inum);
    var tab := din.addrs[NDIRECT];
    x, ok := GetWord(img.disk[tab], s - NDIRECT - 1), true;
    if x == 0 {
      if img.freeblock >= img.sb.size {
        ExtendsSelf(img.sb, st, inum);
        OnlyAtSelf(st, inum, s);
        return false, 0;
      }
      x := img.freeblock;
      TakeIsAlloc(img.sb, img.disk, x);
      UsedIsPrefix(img, x);
      UsedIsPrefix(img, tab);
      GrowIndirectOwned(img.sb, st, inum, s, x);
      ViewCommutes(img.disk, img.sb.bmapstart, Bits(x + 1), tab, PutWord(img.disk[tab], s - NDIRECT - 1, x));
      img.disk := img.disk[tab := PutWord(img.disk[tab], s - NDIRECT - 1, x)];
      img.freeblock := x + 1;
      img.own := img.own[x := Place(inum, s)];
      assert img.View() == GrowIndirect(img.sb, st, inum, s, x);
      GrownExtends(img.sb, st, img.View(), inum, s, x);
      GrownOnlyAt(img.sb, st, img.View(), inum, s, x);
    } else {
      ExtendsSelf(img.sb, st, inum);
      OnlyAtSelf(st, inum, s);
    }
  }

  lemma OnlyTable(st: State, st': State, inum: nat, s: nat)
    requires AllShaped(st.inodes) && AllShaped(st'.inodes) && OnlyAt(st, st', inum, NDIRECT)
    ensures OnlyAt(st, st', inum, s)
  {
    hide SlotVal;
  }

  /** How many blocks it takes to give file inum its block fbn. */
  function Missing(st: State, inum: nat, fbn: nat): nat
    requires AllShaped(st.inodes) && inum < |st.inodes| && fbn < MAXFILE
  {
    (if SlotVal(st.disk, st.inodes[inum], Slot(fbn)) == 0 then 1 else 0)
    + (if fbn >= NDIRECT && st.inodes[inum].addrs[NDIRECT] == 0 then 1 else 0)
  }

  /** Without a table there are no entries. */
  lemma NoTable(st: State, inum: nat, fbn: nat)
    requires AllShaped(st.inodes) && inum < |st.inodes| && NDIRECT <= fbn < MAXFILE
    requires st.inodes[inum].addrs[NDIRECT] == 0
    ensures SlotVal(st.disk, st.inodes[inum], Slot(fbn)) == 0
  {
  }

  lemma SameEntry(st: State, st': State, inum: nat, fbn: nat)
    requires AllShaped(st.inodes) && AllShaped(st'.inodes) && OnlyAt(st, st', inum, NDIRECT) && inum < |st.inodes|
    requires fbn < MAXFILE
    ensures SlotVal(st'.disk, st'.inodes[inum], Slot(fbn)) == SlotVal(st.disk, st.inodes[inum], Slot(fbn))
  {
    hide SlotVal;
  }

  /** The block fbn of file inum, with its table, taken from freeblock where missing. */
  method TakeBlock(img: Image, inum: nat, din: Inode, fbn: nat) returns (ok: bool, din': Inode, x: nat)
    requires img.Valid() && inum < |img.inodes| && img.inodes[inum] == din && fbn < MAXFILE
    modifies img
    ensures img.Valid() && inum < |img.inodes| && img.inodes[inum] == din' && img.freeinode == old(img.freeinode)
    ensures ok ==>
              Extends(img.sb, old(img.View()), img.View(), inum) && OnlyAt(old(img.View()), img.View(), inum, Slot(fbn))
    ensures ok ==> x != 0 && SlotVal(img.View().disk, img.inodes[inum], Slot(fbn)) == x
    ensures var need := Missing(old(img.View()), inum, fbn);
            (ok <==> old(img.freeblock) + need <= img.sb.size) && (ok ==> img.freeblock == old(img.freeblock) + need)
    ensures fbn < NDIRECT ==> din'.addrs[NDIRECT] == din.addrs[NDIRECT]
  {
    hide Bits, BitAt, Recorded, Backed, MapOk, Extends, SlotVal, OnlyAt;
    ghost var st := img.View();
    x := 0;
    if fbn < NDIRECT {
      DirectVal(st, inum, fbn);
      ok, din' := TakeDirect(img, inum, din, fbn);
      if ok {
        x := din'.addrs[fbn];
        DirectVal(img.View(), inum, fbn);
      }
    } else {
      if din.addrs[NDIRECT] == 0 {
        NoTable(st, inum, fbn);
      }
      ok, din' := TakeDirect(img, inum, din, NDIRECT);
      if !ok {
        return;
      }
      ghost var mid := img.View();
      OnlyTable(st, mid, inum, Slot(fbn));
      SameEntry(st, mid, inum, fbn);
      ok, x := TakeEntry(img, inum, din', Slot(fbn));
      if ok {
        ExtendsTrans(img.sb, st, mid, img.View(), inum);
        OnlyAtTrans(st, mid, img.View(), inum, Slot(fbn));
      }
    }
  }

  /** One turn of iappend's loop: find or take the block, copy the bytes in. */
  method AppendChunk(img: Image, inum: nat, din: Inode, off: nat, chunk: seq<Byte>) returns (ok: bool, din': Inode)
    requires img.Valid() && inum < |img.inodes| && img.inodes[inum] == din && off + |chunk| <= LIMIT
    requires 0 < |chunk| && off % BSIZE + |chunk| <= BSIZE
    modifies img
    ensures img.Valid() && inum < |img.inodes| && img.inodes[inum] == din' && img.freeinode == old(img.freeinode)
    ensures ok ==>
              && Written(img.sb, old(img.View()), img.View(), inum, off, chunk)
              && OnlyAt(old(img.View()), img.View(), inum, Slot(off / BSIZE))
    ensures var need := Missing(old(img.View()), inum, off / BSIZE);
            (ok <==> old(img.freeblock) + need <= img.sb.size) && (ok ==> img.freeblock == old(img.freeblock) + need)
    ensures off / BSIZE < NDIRECT ==> din'.addrs[NDIRECT] == din.addrs[NDIRECT]
  {
    hide Bits, BitAt, Recorded, Backed, MapOk, Extends, Written, Patched, SlotVal, OnlyAt, Missing;
    ghost var st := img.View();
    var fbn, x := off / BSIZE, 0;
    ok, din', x := TakeBlock(img, inum, din, fbn);
    if !ok {
      return;
    }
    ghost var st1 := img.View();
    ExtendsWrites(img.sb, st, st1, inum, off);
    InRange(img.sb, st1, inum, Slot(fbn));
    StoreChunk(img, inum, fbn, x, off % BSIZE, chunk);
    assert fbn * BSIZE + off % BSIZE == off;
    WrittenThen(img.sb, st, st1, img.View(), inum, off, [], chunk);
    OnlyAtTrans(st, st1, img.View(), inum, Slot(fbn));
    assert [] + chunk == chunk;
  }

  lemma DirectVal(st: State, inum: nat, s: nat)
    requires AllShaped(st.inodes) && inum < |st.inodes| && s < NDIRECT
    ensures SlotVal(st.disk, st.inodes[inum], Slot(s)) == st.inodes[inum].addrs[s]
  {
  }

  /** rsect(x), bcopy, wsect(x). */
  method StoreChunk(img: Image, inum: nat, fbn: nat, x: nat, from: nat, chunk: seq<Byte>)
    requires img.Valid() && inum < |img.inodes| && fbn < MAXFILE && from + |chunk| <= BSIZE
    requires SlotVal(img.View().disk, img.inodes[inum], Slot(fbn)) == x != 0
    modifies img`disk
    ensures img.freeblock == old(img.freeblock)
    ensures img.Valid() && Written(img.sb, old(img.View()), img.View(), inum, fbn * BSIZE + from, chunk)
    ensures OnlyAt(old(img.View()), img.View(), inum, Slot(fbn))
  {
    hide Bits, BitAt, MapOk, Written, Patched, SlotVal;
    ghost var st := img.View();
    assert x in st.own && DataStart(img.sb) <= x < img.sb.size;
    UsedIsPrefix(img, x);
    hide Recorded, Backed;
    var buf := Patched(img.disk[x], from, chunk);
    ViewCommutes(img.disk, img.sb.bmapstart, Bits(img.freeblock), x, buf);
    img.disk := img.disk[x := buf];
    PatchKeeps(img.sb, st, img.View(), inum, fbn, from, chunk);
    PatchWrites(img.sb, st, img.View(), inum, fbn, from, chunk);
  }

  /** Past the end of file i there are only zeros. */
  ghost predicate ZeroTail(st: State, i: nat)
    requires AllShaped(st.inodes) && i < |st.inodes|
  {
    forall k: nat {:trigger At(st, i, k)} :: st.inodes[i].size <= k < LIMIT ==> At(st, i, k) == 0
  }

  ghost predicate ZeroTails(st: State)
    requires AllShaped(st.inodes)
  {
    forall i: nat :: i < |st.inodes| ==> ZeroTail(st, i)
  }

  /** No file has a block past its end, or a table it does not need, where inode inum counts as ending at end. */
  ghost predicate SnugTo(st: State, inum: nat, end: nat)
    requires AllShaped(st.inodes)
  {
    && (forall i: nat :: i < |st.inodes| && st.inodes[i].addrs[NDIRECT] != 0 ==>
         NDIRECT * BSIZE < if i == inum then end else st.inodes[i].size)
    && forall i: nat, bn: nat {:trigger SlotVal(st.disk, st.inodes[i], Slot(bn))} ::
      i < |st.inodes| && bn < MAXFILE && SlotVal(st.disk, st.inodes[i], Slot(bn)) != 0 ==>
        bn * BSIZE < if i == inum then end else st.inodes[i].size
  }

  ghost predicate Snug(st: State)
    requires AllShaped(st.inodes)
  {
    SnugTo(st, |st.inodes|, 0)
  }

  lemma SnugStep(sb: Superblock, st: State, st': State, inum: nat, end: nat, n: nat)
    requires Shapes(sb, st) && Shapes(sb, st') && OthersKept(st, st', inum) && SnugTo(st, inum, end) && n > 0
    requires OnlyAt(st, st', inum, Slot(end / BSIZE))
    requires end / BSIZE < NDIRECT ==> st'.inodes[inum].addrs[NDIRECT] == st.inodes[inum].addrs[NDIRECT]
    ensures SnugTo(st', inum, end + n)
  {
    hide SlotVal;
    forall i: nat, bn: nat | i < |st'.inodes| && bn < MAXFILE && SlotVal(st'.disk, st'.inodes[i], Slot(bn)) != 0
      ensures bn * BSIZE < if i == inum then end + n else st'.inodes[i].size
    {
      if i == inum && bn == end / BSIZE {
      } else {
        assert SlotVal(st.disk, st.inodes[i], Slot(bn)) != 0;
      }
    }
  }

  lemma SnugDone(sb: Superblock, st: State, inum: nat, end: nat)
    requires Owned(sb, st) && inum < |st.inodes| && st.inodes[inum].size <= end <= LIMIT && Synced(sb, st, inum)
    requires SnugTo(st, inum, end)
    ensures Shapes(sb, Finished(sb, st, inum, end)) && Snug(Finished(sb, st, inum, end))
  {
    hide Recorded, Backed, MapOk, At, SlotVal, Finished, Synced;
    FinishedKeeps(sb, st, inum, end);
    var st' := Finished(sb, st, inum, end);
    forall i: nat, bn: nat | i < |st'.inodes| && bn < MAXFILE && SlotVal(st'.disk, st'.inodes[i], Slot(bn)) != 0
      ensures bn * BSIZE < st'.inodes[i].size
    {
      assert SlotVal(st.disk, st.inodes[i], Slot(bn)) != 0;
    }
  }

  /** The image is a sound file system once it has its bitmap; inodes from freeinode on are free. */
  ghost predicate Good(img: Image)
    reads img
  {
    && img.Valid() && FsOk(img.sb, img.View()) && ZeroTails(img.View()) && Snug(img.View())
    && forall i: nat {:trigger img.inodes[i]} :: img.freeinode <= i < |img.inodes| ==> img.inodes[i] == NewInode(0)
  }

  /** The contents of file i. */
  ghost function Bytes(img: Image, i: nat): seq<Byte>
    requires Good(img) && i < |img.inodes|
    reads img
  {
    FileAt(img.View(), i)
  }

  lemma AppendTails(sb: Superblock, st: State, st1: State, inum: nat, off: nat, data: seq<Byte>)
    requires FsOk(sb, st) && inum < |st.inodes| && off == st.inodes[inum].size && ZeroTails(st)
    requires Owned(sb, st1) && Written(sb, st, st1, inum, off, data)
    ensures Shapes(sb, Finished(sb, st1, inum, off + |data|)) && ZeroTails(Finished(sb, st1, inum, off + |data|))
  {
    hide Recorded, Backed, MapOk, At, Mapped, SlotVal, Finished, Synced;
    WrittenSynced(sb, st, st1, inum, off, data);
    var st' := Finished(sb, st1, inum, off + |data|);
    FinishedKeeps(sb, st1, inum, off + |data|);
    forall i: nat, k: nat | i < |st'.inodes| && st'.inodes[i].size <= k < LIMIT ensures At(st', i, k) == 0 {
      assert ZeroTail(st, i);
      assert At(st', i, k) == At(st1, i, k) == At(st, i, k);
    }
  }

  /** rinode reads the inode the mirror shows. */
  lemma ReadsMirror(img: Image, inum: nat)
    requires Good(img) && inum < |img.inodes|
    ensures InodeBlock(img.sb, inum) < img.sb.bmapstart < img.sb.size
    ensures DiskInode(img.sb, img.disk, inum) == img.inodes[inum]
  {
    hide Recorded, Backed, MapOk, GetInode, NoHoles, Bits, ZeroTails, Snug;
    var st := img.View();
    assert st.inodes[inum] == img.inodes[inum];
    InodeBlockRange(img.sb, inum);
    assert st.disk[InodeBlock(img.sb, inum)] == img.disk[InodeBlock(img.sb, inum)];
  }

  /** din.size = off; winode(inum, &din) */
  method CloseInode(img: Image, inum: nat, din: Inode, end: nat)
    requires img.Valid() && inum < |img.inodes| && img.inodes[inum] == din && din.size <= end <= LIMIT
    modifies img
    ensures |img.disk| == img.sb.size && img.freeblock == old(img.freeblock) && img.freeinode == old(img.freeinode)
    ensures img.View() == Finished(img.sb, old(img.View()), inum, end)
    ensures img.inodes == Resized(old(img.View()), inum, end).inodes
    ensures forall b: nat :: img.freeblock <= b < img.sb.size ==> img.disk[b] == ZeroBlock()
  {
    hide Bits, Recorded, Backed, MapOk, PutInode;
    ghost var st := img.View();
    InodeBlockRange(img.sb, inum);
    var bn := InodeBlock(img.sb, inum);
    var ino := din.(size := end);
    var blk := PutInode(img.disk[bn], inum % IPB, ino);
    ViewCommutes(img.disk, img.sb.bmapstart, Bits(img.freeblock), bn, blk);
    img.disk := img.disk[bn := blk];
    img.inodes := img.inodes[inum := ino];
    assert img.View() == Updated(img.sb, Resized(st, inum, end), inum);
  }

  /** The number of blocks, its table included, that a file of n bytes takes. */
  function Needed(n: nat): nat {
    (n + BSIZE - 1) / BSIZE + if n > NDIRECT * BSIZE then 1 else 0
  }

  /** Every block below end is there. */
  ghost predicate MappedTo(st: State, inum: nat, end: nat)
    requires AllShaped(st.inodes) && inum < |st.inodes|
  {
    forall bn: nat {:trigger Slot(bn)} :: bn < MAXFILE && bn * BSIZE < end ==>
        SlotVal(st.disk, st.inodes[inum], Slot(bn)) != 0
  }

  lemma MappedSoFar(sb: Superblock, st: State, st': State, inum: nat, off: nat, data: seq<Byte>)
    requires Shapes(sb, st) && Shapes(sb, st') && inum < |st.inodes| && Written(sb, st, st', inum, off, data)
    requires MappedTo(st, inum, off)
    ensures inum < |st'.inodes| && MappedTo(st', inum, off + |data|)
  {
    hide SlotVal, At;
    forall bn: nat | bn < MAXFILE && bn * BSIZE < off + |data|
      ensures SlotVal(st'.disk, st'.inodes[inum], Slot(bn)) != 0
    {
      var k := bn * BSIZE;
      assert k / BSIZE == bn;
      if k < off {
        assert SlotVal(st.disk, st.inodes[inum], Slot(bn)) != 0;
        assert Mapped(st, inum, k);
      }
      assert Mapped(st', inum, k);
    }
  }

  /** A file that has exactly the blocks it needs misses what the next piece needs more. */
  lemma MissingCount(st: State, inum: nat, end: nat, n: nat)
    requires AllShaped(st.inodes) && inum < |st.inodes| && SnugTo(st, inum, end) && MappedTo(st, inum, end)
    requires 0 < n && end % BSIZE + n <= BSIZE && end + n <= LIMIT
    ensures Missing(st, inum, end / BSIZE) == Needed(end + n) - Needed(end)
  {
    var fbn := end / BSIZE;
    TableThere(st, inum, end);
    hide SlotVal;
    if end % BSIZE == 0 {
      assert SlotVal(st.disk, st.inodes[inum], Slot(fbn)) == 0;
    } else {
      assert SlotVal(st.disk, st.inodes[inum], Slot(fbn)) != 0;
    }
  }

  lemma TableThere(st: State, inum: nat, end: nat)
    requires AllShaped(st.inodes) && inum < |st.inodes| && SnugTo(st, inum, end) && MappedTo(st, inum, end)
    requires end <= LIMIT
    ensures st.inodes[inum].addrs[NDIRECT] != 0 <==> end > NDIRECT * BSIZE
  {
    if end > NDIRECT * BSIZE {
      assert SlotVal(st.disk, st.inodes[inum], Slot(NDIRECT)) != 0;
    }
  }

  lemma NeededGrows(a: nat, b: nat)
    requires a <= b
    ensures Needed(a) <= Needed(b)
  {
  }

  /** iappend has written the first part of its data: st before, st' now, taking blocks from fb up to fb'. */
  ghost predicate Appended(sb: Superblock, st: State, st': State, inum: nat, off: nat, part: seq<Byte>, fb: nat,
                           fb': nat)
    requires Shapes(sb, st) && Shapes(sb, st')
  {
    && Written(sb, st, st', inum, off, part) && inum < |st'.inodes| && st'.inodes[inum].size == off
    && SnugTo(st', inum, off + |part|) && MappedTo(st', inum, off + |part|)
    && fb' == fb + Needed(off + |part|) - Needed(off)
  }

  lemma AppendStart(sb: Superblock, st: State, inum: nat, fb: nat)
    requires Sound(sb, st) && inum < |st.inodes| && Snug(st)
    ensures Appended(sb, st, st, inum, st.inodes[inum].size, [], fb, fb)
  {
    hide Recorded, Backed, MapOk, SlotVal;
    assert NoHoles(st.disk, st.inodes[inum]);
    HolesMapped(st, inum);
    SnugStart(st, inum);
    WrittenNothing(sb, st, inum, st.inodes[inum].size);
  }

  lemma AppendStep(sb: Superblock, st: State, mid: State, st': State, inum: nat, off: nat, part: seq<Byte>,
                   chunk: seq<Byte>, fb: nat, fb1: nat, fb': nat)
    requires Shapes(sb, st) && Shapes(sb, mid) && Shapes(sb, st') && inum < |mid.inodes|
    requires Appended(sb, st, mid, inum, off, part, fb, fb1)
    requires var end := off + |part|;
             && 0 < |chunk| && end % BSIZE + |chunk| <= BSIZE && end + |chunk| <= LIMIT
             && Written(sb, mid, st', inum, end, chunk) && OnlyAt(mid, st', inum, Slot(end / BSIZE))
             && (end / BSIZE < NDIRECT ==> st'.inodes[inum].addrs[NDIRECT] == mid.inodes[inum].addrs[NDIRECT])
             && fb' == fb1 + Missing(mid, inum, end / BSIZE)
    ensures Appended(sb, st, st', inum, off, part + chunk, fb, fb')
  {
    hide Written, SlotVal, SnugTo, MappedTo, OnlyAt, Missing, Needed;
    var end := off + |part|;
    MissingCount(mid, inum, end, |chunk|);
    WrittenThen(sb, st, mid, st', inum, off, part, chunk);
    WrittenInode(sb, mid, st', inum, end, chunk);
    SnugStep(sb, mid, st', inum, end, |chunk|);
    MappedSoFar(sb, mid, st', inum, end, chunk);
  }

  /** One turn of the loop. False exactly when the blocks it needs are not there. */
  method AppendNext(img: Image, ghost st: State, inum: nat, din: Inode, off: nat, data: seq<Byte>, tot: nat,
                    ghost fb: nat) returns (ok: bool, din': Inode, n1: nat)
    requires img.Valid() && Shapes(img.sb, st) && inum < |img.inodes| && img.inodes[inum] == din && tot < |data|
    requires off + |data| <= LIMIT
    requires Appended(img.sb, st, img.View(), inum, off, data[..tot], fb, img.freeblock)
    modifies img
    ensures img.Valid() && inum < |img.inodes| && img.inodes[inum] == din' && img.freeinode == old(img.freeinode)
    ensures 0 < n1 <= |data| - tot
    ensures ok ==> Appended(img.sb, st, img.View(), inum, off, data[..tot + n1], fb, img.freeblock)
    ensures !ok ==> fb + Needed(off + |data|) - Needed(off) > img.sb.size
  {
    hide Bits, Recorded, Backed, MapOk, Written, SlotVal, SnugTo, MappedTo, OnlyAt, Missing, Needed;
    n1 := Min(|data| - tot, BSIZE - (off + tot) % BSIZE);
    ghost var mid, fb1 := img.View(), img.freeblock;
    MissingCount(mid, inum, off + tot, n1);
    NeededGrows(off + tot + n1, off + |data|);
    ok, din' := AppendChunk(img, inum, din, off + tot, data[tot..tot + n1]);
    if ok {
      AppendStep(img.sb, st, mid, img.View(), inum, off, data[..tot], data[tot..tot + n1], fb, fb1, img.freeblock);
      assert data[..tot] + data[tot..tot + n1] == data[..tot + n1];
    }
  }

  /** iappend: the file grows by data; every other file stays. False exactly when the file or the image has no room. */
  method Iappend(img: Image, inum: nat, data: seq<Byte>) returns (ok: bool)
    requires Good(img) && inum < |img.inodes| && inum < img.freeinode
    modifies img
    ensures var len := |old(Bytes(img, inum))|;
            && (ok <==> len + |data| <= LIMIT && old(img.freeblock) + Needed(len + |data|) - Needed(len) <= img.sb.size)
            && (ok ==> img.freeblock == old(img.freeblock) + Needed(len + |data|) - Needed(len))
    ensures ok ==> Good(img) && |img.inodes| == |old(img.inodes)| && img.freeinode == old(img.freeinode)
    ensures ok ==> Bytes(img, inum) == old(Bytes(img, inum)) + data
    ensures ok ==>
              img.inodes[inum] == old(img.inodes)[inum].(size := img.inodes[inum].size, addrs := img.inodes[inum].addrs)
    ensures ok ==> forall i: nat :: i < |img.inodes| && i != inum ==>
              img.inodes[i] == old(img.inodes)[i] && Bytes(img, i) == old(Bytes(img, i))
  {
    hide Bits, Recorded, Backed, MapOk, Synced, SlotVal, ByteAt, DiskInode, Updated, ZeroTails, Snug, Needed, Appended,
         Finished;
    ghost var st, fb := img.View(), img.freeblock;
    ReadsMirror(img, inum);
    var din := DiskInode(img.sb, img.disk, inum);
    var off := din.size;
    if off + |data| > LIMIT {
      return false;
    }
    var tot, n1 := 0, 0;
    AppendStart(img.sb, st, inum, fb);
    assert data[..0] == [];
    while tot < |data|
      invariant tot <= |data| && img.Valid() && inum < |img.inodes| && img.inodes[inum] == din
      invariant img.freeinode == old(img.freeinode)
      invariant Appended(img.sb, st, img.View(), inum, off, data[..tot], fb, img.freeblock)
    {
      ok, din, n1 := AppendNext(img, st, inum, din, off, data, tot, fb);
      if !ok {
        return;
      }
      tot := tot + n1;
    }
    assert data[..tot] == data;
    AppendDone(img.sb, st, img.View(), inum, off, data, fb, img.freeblock);
    CloseInode(img, inum, din, off + |data|);
    return true;
  }

  lemma AppendDone(sb: Superblock, st: State, st1: State, inum: nat, off: nat, data: seq<Byte>, fb: nat, fb': nat)
    requires FsOk(sb, st) && ZeroTails(st) && Snug(st) && inum < |st.inodes| && off == st.inodes[inum].size
    requires Owned(sb, st1)
    requires Appended(sb, st, st1, inum, off, data, fb, fb')
    ensures off + |data| <= LIMIT && |st1.inodes| == |st.inodes| && fb' == fb + Needed(off + |data|) - Needed(off)
    ensures st1.inodes[inum].size <= off + |data|
    ensures var st' := Finished(sb, st1, inum, off + |data|);
            && FsOk(sb, st') && ZeroTails(st') && Snug(st') && |st'.inodes| == |st.inodes|
            && st'.inodes[inum] == st.inodes[inum].(size := st'.inodes[inum].size, addrs := st'.inodes[inum].addrs)
            && FileAt(st', inum) == FileAt(st, inum) + data
            && forall i: nat {:trigger FileAt(st', i)} {:trigger st'.inodes[i]} :: i < |st.inodes| && i != inum ==>
                 st'.inodes[i] == st.inodes[i] && FileAt(st', i) == FileAt(st, i)
  {
    hide Recorded, Backed, MapOk, SlotVal, ByteAt, SnugTo, MappedTo, Written, Finished, Needed, ZeroTails, Snug,
         NoHoles, Spliced;
    WrittenSynced(sb, st, st1, inum, off, data);
    WrittenInode(sb, st, st1, inum, off, data);
    WriteDone(sb, st, st1, inum, off, data);
    AppendTails(sb, st, st1, inum, off, data);
    SnugDone(sb, st1, inum, off + |data|);
    AppendIsSplice(FileAt(st, inum), data);
    FinishedKeeps(sb, st1, inum, off + |data|);
    hide Synced;
  }

  lemma HolesMapped(st: State, inum: nat)
    requires AllShaped(st.inodes) && inum < |st.inodes| && NoHoles(st.disk, st.inodes[inum])
    ensures MappedTo(st, inum, st.inodes[inum].size)
  {
  }

  lemma SnugStart(st: State, inum: nat)
    requires AllShaped(st.inodes) && inum < |st.inodes| && Snug(st)
    ensures SnugTo(st, inum, st.inodes[inum].size)
  {
    hide SlotVal;
  }

  lemma AppendIsSplice(c: seq<Byte>, data: seq<Byte>)
    ensures Spliced(c, |c|, data) == c + data
  {
  }

  // The blank image.

  lemma BlankSlots(d: Disk, s: nat)
    requires s < SLOTS
    ensures SlotVal(d, NewInode(0), s) == 0
  {
  }

  lemma BlankInode(slot: nat)
    requires slot < IPB
    ensures GetInode(ZeroBlock(), slot) == NewInode(0)
  {
    var ws := GetWords(ZeroBlock(), slot * INODE_WORDS, INODE_WORDS);
    forall i: nat | i < INODE_WORDS ensures ws[i] == 0 {
      ZeroBlockWords(slot * INODE_WORDS + i);
    }
    assert ws[3..] == NoAddrs();
  }

  lemma BlankOwned(img: Image)
    requires Fits(img.sb) && img.sb.size < BPB && img.freeinode == 1 && img.freeblock == DataStart(img.sb)
    requires img.disk == seq(img.sb.size, _ => ZeroBlock()) && img.inodes == seq(img.sb.ninodes, _ => NewInode(0))
    requires img.own == map[]
    ensures img.Valid()
  {
    var st := img.View();
    assert AllShaped(st.inodes);
    forall i: nat, s: nat | i < |st.inodes| && s < SLOTS ensures SlotVal(st.disk, st.inodes[i], s) == 0 {
      BlankSlots(st.disk, s);
    }
    forall b: nat | b < img.sb.size
      ensures BitBlock(img.sb, b) < img.sb.size && (Used(img.sb, st.disk, b) <==> b < DataStart(img.sb))
    {
      BitsAt(img.freeblock, b);
    }
    hide SlotVal, Used, Bits;
  }

  /** The image mkfs starts from. */
  lemma BlankGood(img: Image)
    requires Fits(img.sb) && img.sb.size < BPB && img.freeinode == 1 && img.freeblock == DataStart(img.sb)
    requires img.disk == seq(img.sb.size, _ => ZeroBlock()) && img.inodes == seq(img.sb.ninodes, _ => NewInode(0))
    requires img.own == map[]
    ensures Good(img)
  {
    BlankOwned(img);
    var st := img.View();
    forall i: nat | i < |st.inodes|
      ensures InodeBlock(img.sb, i) < img.sb.bmapstart && DiskInode(img.sb, st.disk, i) == st.inodes[i]
      ensures NoHoles(st.disk, st.inodes[i]) && ZeroTail(st, i)
    {
      InodeBlockRange(img.sb, i);
      BlankInode(i % IPB);
      assert st.disk[InodeBlock(img.sb, i)] == ZeroBlock();
      assert st.inodes[i] == NewInode(0);
      BlankFile(st, i);
    }
    forall i: nat, bn: nat | i < |st.inodes| && bn < MAXFILE ensures SlotVal(st.disk, st.inodes[i], Slot(bn)) == 0 {
      assert st.inodes[i] == NewInode(0);
      BlankSlots(st.disk, Slot(bn));
    }
    hide Owned, GetInode, Bits, SlotVal;
  }

  lemma BlankFile(st: State, i: nat)
    requires AllShaped(st.inodes) && i < |st.inodes| && st.inodes[i] == NewInode(0)
    ensures NoHoles(st.disk, st.inodes[i]) && ZeroTail(st, i)
  {
    forall k: nat | k < LIMIT ensures At(st, i, k) == 0 {
      BlankSlots(st.disk, Slot(k / BSIZE));
    }
  }

  /**
   mkfs_ialloc: the next inode, with one link. Nothing compares its number with ninodes: winode stores it where
   its block would be, whatever that block is, and only a block past the end of the image makes it die.
   */
  method MkfsIalloc(img: Image, kind: nat) returns (ok: bool, inum: nat)
    requires Good(img) && 0 < kind < SHORT_LIMIT && img.freeinode > 0
    modifies img
    ensures inum == old(img.freeinode) && img.freeinode == inum + 1 && img.freeblock == old(img.freeblock)
    ensures ok <==> InodeBlock(img.sb, inum) < img.sb.size
    ensures ok ==>
              && |old(img.disk)| == img.sb.size
              && img.disk == old(img.disk)[InodeBlock(img.sb, inum) :=
                   PutInode(old(img.disk)[InodeBlock(img.sb, inum)], inum % IPB, NewInode(kind).(nlink := 1))]
    ensures inum < img.sb.ninodes ==> ok && Good(img) && inum < |img.inodes| == |old(img.inodes)|
    ensures inum < img.sb.ninodes ==> img.inodes == old(img.inodes)[inum := NewInode(kind).(nlink := 1)]
    ensures inum < img.sb.ninodes ==> forall i: nat :: i < |img.inodes| ==> Bytes(img, i) == old(Bytes(img, i))
  {
    hide Bits, Recorded, Backed, MapOk, Synced, SlotVal, ByteAt, PutInode, At;
    inum := img.freeinode;
    img.freeinode := inum + 1;
    var ino, bn := NewInode(kind).(nlink := 1), InodeBlock(img.sb, inum);
    ok := bn < img.sb.size;
    if inum < img.sb.ninodes {
      InodeBlockRange(img.sb, inum);
    }
    if !ok {
      return;
    }
    ghost var st, was := img.View(), img.disk;
    var blk := PutInode(img.disk[bn], inum % IPB, ino);
    img.disk := img.disk[bn := blk];
    if inum < img.sb.ninodes {
      ViewCommutes(was, img.sb.bmapstart, Bits(img.freeblock), bn, blk);
      RestatedKeeps(img.sb, st, inum, ino);
      img.inodes := img.inodes[inum := ino];
      assert img.View() == Restated(img.sb, st, inum, ino);
      forall i: nat | i < |img.inodes| ensures ZeroTail(img.View(), i) {
        assert ZeroTail(st, i);
      }
      SnugRestated(img.sb, st, inum, ino);
    }
  }

  lemma SnugRestated(sb: Superblock, st: State, inum: nat, ino: Inode)
    requires FsOk(sb, st) && inum < |st.inodes| && Shape(ino) && SameData(st.inodes[inum], ino) && Snug(st)
    ensures Shapes(sb, Restated(sb, st, inum, ino)) && Snug(Restated(sb, st, inum, ino))
  {
    hide Recorded, Backed, MapOk, SlotVal, Synced;
    var mid := st.(inodes := st.inodes[inum := ino]);
    RestatedOwned(sb, st, inum, ino);
    UpdatedKeeps(sb, mid, inum);
    UpdatedInodes(sb, mid, inum);
    hide Updated;
    var st' := Updated(sb, mid, inum);
    forall i: nat, bn: nat | i < |st'.inodes| && bn < MAXFILE && SlotVal(st'.disk, st'.inodes[i], Slot(bn)) != 0
      ensures bn * BSIZE < st'.inodes[i].size
    {
      assert SlotVal(mid.disk, mid.inodes[i], Slot(bn)) != 0;
      assert SlotVal(st.disk, st.inodes[i], Slot(bn)) != 0;
    }
  }
}
