/** Files as byte sequences: readi and writei (kernel/src/fs.c) over block map, bitmap and inode blocks. */
module FsFiles {
  import opened Blocks
  import opened FsLayout
  import opened FsState
  import opened FsGrow
  import opened FsSpace
  import opened FsTrail
  import opened FsBlocks
  import opened FsWrite

  /** Every in-core inode, except possibly one, is on disk as it is in core. */
  predicate Synced(sb: Superblock, st: State, but: int)
    requires Shapes(sb, st)
  {
    forall i: nat {:trigger st.inodes[i]} :: i < |st.inodes| && i != but ==>
        InodeBlock(sb, i) < sb.bmapstart && DiskInode(sb, st.disk, i) == st.inodes[i]
  }

  predicate FsOk(sb: Superblock, st: State) {
    Sound(sb, st) && Synced(sb, st, -1)
  }

  function FileAt(st: State, i: nat): seq<Byte>
    requires AllShaped(st.inodes) && i < |st.inodes| && st.inodes[i].size <= LIMIT
  {
    Contents(st.disk, st.inodes[i])
  }

  lemma InodeBlockRange(sb: Superblock, i: nat)
    requires Fits(sb) && i < sb.ninodes
    ensures sb.inodestart <= InodeBlock(sb, i) < sb.bmapstart
  {
  }

  /** Inode blocks that did not change hold the same inodes. */
  lemma SyncedFrame(sb: Superblock, st: State, st': State, but: int, inum: nat)
    requires but == -1 || but == inum
    requires Shapes(sb, st) && Shapes(sb, st') && Synced(sb, st, but) && OthersKept(st, st', inum)
    requires forall c: nat :: c < sb.bmapstart ==> st'.disk[c] == st.disk[c]
    ensures Synced(sb, st', inum)
  {
    hide GetInode, Shape;
    forall i: nat | i < |st'.inodes| && i != inum
      ensures InodeBlock(sb, i) < sb.bmapstart && DiskInode(sb, st'.disk, i) == st'.inodes[i]
    {
      InodeBlockRange(sb, i);
      assert st'.inodes[i] == st.inodes[i];
    }
  }

  // iupdate.

  function Updated(sb: Superblock, st: State, inum: nat): State
    requires Shapes(sb, st) && inum < |st.inodes|
  {
    InodeBlockRange(sb, inum);
    st.(disk := StoreInode(sb, st.disk, inum, st.inodes[inum]))
  }

  /** iupdate brings inode inum to disk and changes nothing that a file shows. */
  lemma UpdatedKeeps(sb: Superblock, st: State, inum: nat)
    requires Owned(sb, st) && inum < |st.inodes|
    ensures Owned(sb, Updated(sb, st, inum))
    ensures forall c: nat :: sb.bmapstart <= c < sb.size ==> Updated(sb, st, inum).disk[c] == st.disk[c]
    ensures forall i: nat, s: nat {:trigger SlotVal(Updated(sb, st, inum).disk, st.inodes[i], s)} ::
              i < |st.inodes| && s < SLOTS ==>
              SlotVal(Updated(sb, st, inum).disk, st.inodes[i], s) == SlotVal(st.disk, st.inodes[i], s)
  {
    InodeBlockRange(sb, inum);
    var st' := Updated(sb, st, inum);
    hide StoreInode;
    assert |st'.disk| == |st.disk| && forall c: nat :: sb.bmapstart <= c < sb.size ==> st'.disk[c] == st.disk[c] by {
      StoreDisk(sb, st.disk, inum, st.inodes[inum]);
    }
    forall i: nat, s: nat | i < |st.inodes| && s < SLOTS
      ensures SlotVal(st'.disk, st.inodes[i], s) == SlotVal(st.disk, st.inodes[i], s)
    {
      if st.inodes[i].addrs[NDIRECT] != 0 {
        TableIsOwned(sb, st, i);
      }
      SameTable(st.disk, st'.disk, st.inodes[i], s);
    }
    hide SlotVal, Used;
    forall c: nat | c < sb.size ensures Used(sb, st'.disk, c) <==> Used(sb, st.disk, c) {
      UsedFrame(sb, st.disk, st'.disk, c);
    }
  }

  lemma StoreDisk(sb: Superblock, d: Disk, inum: nat, ino: Inode)
    requires InodeBlock(sb, inum) < |d| && Shape(ino) && InodeBlock(sb, inum) < sb.bmapstart
    ensures |StoreInode(sb, d, inum, ino)| == |d|
    ensures forall c: nat :: sb.bmapstart <= c < |d| ==> StoreInode(sb, d, inum, ino)[c] == d[c]
  {
    hide PutInode;
  }

  lemma UpdatedSynced(sb: Superblock, st: State, inum: nat)
    requires Shapes(sb, st) && inum < |st.inodes| && Synced(sb, st, inum)
    ensures Shapes(sb, Updated(sb, st, inum)) && Synced(sb, Updated(sb, st, inum), -1)
  {
    InodeBlockRange(sb, inum);
    StoreDisk(sb, st.disk, inum, st.inodes[inum]);
    hide StoreInode, DiskInode, Shape;
    forall i: nat | i < |st.inodes|
      ensures InodeBlock(sb, i) < sb.bmapstart && DiskInode(sb, Updated(sb, st, inum).disk, i) == st.inodes[i]
    {
      InodeBlockRange(sb, i);
      StoreLoadInode(sb, st.disk, inum, st.inodes[inum], i);
    }
  }

  /** The same block numbers and the same data blocks show the same files. */
  lemma SameFiles(sb: Superblock, st: State, st': State, i: nat)
    requires Owned(sb, st) && Shapes(sb, st') && i < |st.inodes| == |st'.inodes|
    requires forall c: nat :: DataStart(sb) <= c < sb.size ==> st'.disk[c] == st.disk[c]
    requires forall s: nat {:trigger SlotVal(st'.disk, st'.inodes[i], s)} :: s < SLOTS ==>
              SlotVal(st'.disk, st'.inodes[i], s) == SlotVal(st.disk, st.inodes[i], s)
    ensures forall k: nat :: k < LIMIT ==> At(st', i, k) == At(st, i, k)
  {
    hide SlotVal, MapOk;
    forall k: nat | k < LIMIT ensures At(st', i, k) == At(st, i, k) {
      var b: nat := SlotVal(st.disk, st.inodes[i], Slot(k / BSIZE));
      assert SlotVal(st'.disk, st'.inodes[i], Slot(k / BSIZE)) == b;
      if b != 0 {
        assert b in st.own;
      }
    }
  }

  // writei.

  /** c with the bytes at off replaced by data, longer if data reaches past the end. */
  function Spliced(c: seq<Byte>, off: nat, data: seq<Byte>): seq<Byte>
    requires off <= |c|
  {
    c[..off] + data + c[Min(off + |data|, |c|)..]
  }

  /** Byte k of a spliced file: the new one in the range, the old one elsewhere; the file is as long as need be. */
  lemma SplicedAt(c: seq<Byte>, off: nat, data: seq<Byte>, k: nat)
    requires off <= |c|
    ensures |Spliced(c, off, data)| == Max(|c|, off + |data|)
    ensures k < |Spliced(c, off, data)| ==>
              Spliced(c, off, data)[k] == if off <= k < off + |data| then data[k - off] else c[k]
  {
  }

  /** if (off > ip->size) ip->size = off, after the loop. */
  function Resized(st: State, inum: nat, end: nat): State
    requires inum < |st.inodes|
  {
    var ino := st.inodes[inum];
    st.(inodes := st.inodes[inum := ino.(size := if end > ino.size then end else ino.size)])
  }

  lemma ResizedOwned(sb: Superblock, st: State, inum: nat, end: nat)
    requires Owned(sb, st) && inum < |st.inodes| && end <= LIMIT
    ensures Owned(sb, Resized(st, inum, end))
    ensures forall i: nat, s: nat {:trigger SlotVal(st.disk, Resized(st, inum, end).inodes[i], s)} ::
              i < |st.inodes| && s < SLOTS ==>
              SlotVal(st.disk, Resized(st, inum, end).inodes[i], s) == SlotVal(st.disk, st.inodes[i], s)
  {
    var st' := Resized(st, inum, end);
    assert AllShaped(st'.inodes);
    forall i: nat, s: nat | i < |st.inodes| && s < SLOTS
      ensures SlotVal(st.disk, st'.inodes[i], s) == SlotVal(st.disk, st.inodes[i], s)
    {
    }
    hide SlotVal, Used;
  }

  /** The state writei leaves: size and inode block brought up to date. */
  function Finished(sb: Superblock, st: State, inum: nat, end: nat): State
    requires Shapes(sb, st) && inum < |st.inodes| && end <= LIMIT
  {
    Updated(sb, Resized(st, inum, end), inum)
  }

  lemma FinishedKeeps(sb: Superblock, st: State, inum: nat, end: nat)
    requires Owned(sb, st) && inum < |st.inodes| && end <= LIMIT && Synced(sb, st, inum)
    ensures var st' := Finished(sb, st, inum, end);
            && Owned(sb, st') && Synced(sb, st', -1) && st'.inodes == Resized(st, inum, end).inodes
            && (forall i: nat, s: nat {:trigger SlotVal(st'.disk, st'.inodes[i], s)} :: i < |st.inodes| && s < SLOTS ==>
                  SlotVal(st'.disk, st'.inodes[i], s) == SlotVal(st.disk, st.inodes[i], s))
            && (forall i: nat, k: nat {:trigger At(st', i, k)} :: i < |st.inodes| && k < LIMIT ==>
                 At(st', i, k) == At(st, i, k))
  {
    var mid, st' := Resized(st, inum, end), Finished(sb, st, inum, end);
    ResizedOwned(sb, st, inum, end);
    UpdatedKeeps(sb, mid, inum);
    assert Synced(sb, mid, inum) by {
      SyncedFrame2(sb, st, mid, inum);
    }
    UpdatedSynced(sb, mid, inum);
    hide SlotVal, Updated, MapOk, Recorded, Backed, At, Synced;
    assert st'.inodes == mid.inodes by { UpdatedInodes(sb, mid, inum); }
    forall i: nat, s: nat | i < |st.inodes| && s < SLOTS
      ensures SlotVal(st'.disk, st'.inodes[i], s) == SlotVal(st.disk, st.inodes[i], s)
    {
      assert SlotVal(st'.disk, mid.inodes[i], s) == SlotVal(mid.disk, mid.inodes[i], s);
    }
    forall i: nat, k: nat | i < |st.inodes| && k < LIMIT ensures At(st', i, k) == At(st, i, k) {
      SameFiles(sb, st, st', i);
    }
  }

  lemma UpdatedInodes(sb: Superblock, st: State, inum: nat)
    requires Shapes(sb, st) && inum < |st.inodes|
    ensures Updated(sb, st, inum).inodes == st.inodes && Updated(sb, st, inum).own == st.own
  {
  }

  lemma SyncedFrame2(sb: Superblock, st: State, st': State, inum: nat)
    requires Shapes(sb, st) && Shapes(sb, st') && Synced(sb, st, inum) && st'.disk == st.disk
    requires |st'.inodes| == |st.inodes|
    requires forall i: nat :: i < |st.inodes| && i != inum ==> st'.inodes[i] == st.inodes[i]
    ensures Synced(sb, st', inum)
  {
    hide DiskInode, Shape;
    forall i: nat | i < |st'.inodes| && i != inum
      ensures InodeBlock(sb, i) < sb.bmapstart && DiskInode(sb, st'.disk, i) == st'.inodes[i]
    {
      assert st'.inodes[i] == st.inodes[i];
    }
  }

  /** The parts of the claim about writei, for one file. */
  lemma WrittenHoles(sb: Superblock, st: State, st1: State, st': State, inum: nat, off: nat, data: seq<Byte>, i: nat)
    requires Sound(sb, st) && Shapes(sb, st1) && Shapes(sb, st') && Written(sb, st, st1, inum, off, data)
    requires off <= st.inodes[inum].size
    requires i < |st.inodes| && st'.inodes == Resized(st1, inum, off + |data|).inodes
    requires forall s: nat {:trigger SlotVal(st'.disk, st'.inodes[i], s)} :: s < SLOTS ==>
              SlotVal(st'.disk, st'.inodes[i], s) == SlotVal(st1.disk, st1.inodes[i], s)
    ensures NoHoles(st'.disk, st'.inodes[i])
  {
    hide SlotVal, MapOk, Recorded, Backed;
    forall bn: nat | bn < MAXFILE && bn * BSIZE < st'.inodes[i].size
      ensures SlotVal(st'.disk, st'.inodes[i], Slot(bn)) != 0
    {
      var k := bn * BSIZE;
      assert k / BSIZE == bn;
      if k < st.inodes[i].size {
        assert SlotVal(st.disk, st.inodes[i], Slot(bn)) != 0;
        assert Mapped(st, i, k);
      }
      assert Mapped(st1, i, k);
    }
  }

  /** A byte below the size is in a block that is there. */
  lemma BelowSize(st: State, i: nat, k: nat)
    requires AllShaped(st.inodes) && i < |st.inodes| && NoHoles(st.disk, st.inodes[i]) && k < st.inodes[i].size
    ensures k < LIMIT && Mapped(st, i, k)
  {
    var bn := k / BSIZE;
    assert bn < MAXFILE && bn * BSIZE <= k;
    assert SlotVal(st.disk, st.inodes[i], Slot(bn)) != 0;
  }

  lemma WrittenFile(sb: Superblock, st: State, st1: State, st': State, inum: nat, off: nat, data: seq<Byte>, i: nat)
    requires Sound(sb, st) && Shapes(sb, st1) && Shapes(sb, st') && Written(sb, st, st1, inum, off, data)
    requires off <= st.inodes[inum].size
    requires i < |st.inodes| && st'.inodes == Resized(st1, inum, off + |data|).inodes
    requires forall k: nat {:trigger At(st', i, k)} :: k < LIMIT ==> At(st', i, k) == At(st1, i, k)
    ensures st.inodes[i].size <= LIMIT && st'.inodes[i].size <= LIMIT
    ensures FileAt(st', i) == if i == inum then Spliced(FileAt(st, i), off, data) else FileAt(st, i)
  {
    hide MapOk, Recorded, Backed, Mapped, ByteAt;
    assert NoHoles(st.disk, st.inodes[i]) && NoHoles(st.disk, st.inodes[inum]);
    var c, c' := FileAt(st, i), FileAt(st', i);
    assert forall k: nat :: k < |c| ==> c[k] == At(st, i, k);
    assert forall k: nat :: k < |c'| ==> c'[k] == At(st', i, k) == At(st1, i, k);
    if i == inum {
      var w := Spliced(c, off, data);
      assert |c'| == |w|;
      forall k: nat | k < |w| ensures c'[k] == w[k] {
      }
    } else {
      assert |c'| == |c|;
    }
  }

  lemma WriteDone(sb: Superblock, st: State, st1: State, inum: nat, off: nat, data: seq<Byte>)
    requires FsOk(sb, st) && inum < |st.inodes| && off <= st.inodes[inum].size
    requires Owned(sb, st1) && Written(sb, st, st1, inum, off, data)
    ensures var st' := Finished(sb, st1, inum, off + |data|);
            && FsOk(sb, st')
            && forall i: nat {:trigger FileAt(st', i)} :: i < |st.inodes| ==>
                 FileAt(st', i) == if i == inum then Spliced(FileAt(st, i), off, data) else FileAt(st, i)
  {
    hide SlotVal, MapOk, Recorded, Backed, At, ByteAt, Finished, Written, Spliced;
    WrittenSynced(sb, st, st1, inum, off, data);
    var st' := Finished(sb, st1, inum, off + |data|);
    hide Synced;
    FinishedKeeps(sb, st1, inum, off + |data|);
    forall i: nat | i < |st.inodes| ensures NoHoles(st'.disk, st'.inodes[i])
      ensures st.inodes[i].size <= LIMIT && st'.inodes[i].size <= LIMIT
      ensures FileAt(st', i) == if i == inum then Spliced(FileAt(st, i), off, data) else FileAt(st, i)
    {
      WrittenHoles(sb, st, st1, st', inum, off, data, i);
      WrittenFile(sb, st, st1, st', inum, off, data, i);
    }
  }

  lemma WrittenSynced(sb: Superblock, st: State, st1: State, inum: nat, off: nat, data: seq<Byte>)
    requires Shapes(sb, st) && Shapes(sb, st1) && Synced(sb, st, -1) && Written(sb, st, st1, inum, off, data)
    ensures Synced(sb, st1, inum) && |st1.inodes| == |st.inodes| && off + |data| <= LIMIT
  {
    SyncedFrame(sb, st, st1, -1, inum);
  }

  method Iupdate(fs: Fs, inum: nat)
    requires Shapes(fs.sb, fs.St()) && inum < |fs.inodes|
    modifies fs`disk, fs`logged
    ensures fs.St() == Updated(fs.sb, old(fs.St()), inum)
    ensures Traced(old(fs.Tr()), fs.Tr(), {InodeBlock(fs.sb, inum)})
  {
    InodeBlockRange(fs.sb, inum);
    var b := InodeBlock(fs.sb, inum);
    fs.disk := fs.disk[b := PutInode(fs.disk[b], inum % IPB, fs.inodes[inum])];
    fs.logged := fs.logged + {b};
  }

  /** One turn of writei's loop: map the block, copy the bytes in, log it. */
  method WriteChunk(fs: Fs, inum: nat, off: nat, chunk: seq<Byte>) returns (ok: bool)
    requires Owned(fs.sb, fs.St()) && inum < |fs.inodes| && off + |chunk| <= LIMIT
    requires 0 < |chunk| && off % BSIZE + |chunk| <= BSIZE
    modifies fs
    ensures Owned(fs.sb, fs.St())
    ensures ok ==> Written(fs.sb, old(fs.St()), fs.St(), inum, off, chunk)
    ensures ok <==> Lacks(old(fs.own), inum, off / BSIZE) <= Room(fs.sb, old(fs.own))
    ensures ok ==> Took(fs.sb, old(fs.own), fs.own, inum, off / BSIZE)
    ensures ok ==> Traced(old(fs.Tr()), fs.Tr(), Bitmap(fs.sb) + Spot(fs.St(), inum, off / BSIZE))
    ensures ok ==> SlotsStay(old(fs.St()), fs.St(), inum)
    ensures ok ==> SlotVal(fs.disk, fs.inodes[inum], Slot(off / BSIZE)) != 0
  {
    hide SlotVal, MapOk, Recorded, Backed, Written, Extends, Patched, Took, Lacks, Room, Traced, SlotsStay, Spot;
    var bn := off / BSIZE;
    var r := Bmap(fs, inum, bn);
    if r.Panic? {
      return false;
    }
    ghost var mid, tr := fs.St(), fs.Tr();
    ExtendsWrites(fs.sb, old(fs.St()), mid, inum, off);
    InRange(fs.sb, mid, inum, Slot(bn));
    var b := r.value;
    fs.disk := fs.disk[b := Patched(fs.disk[b], off % BSIZE, chunk)];
    fs.logged := fs.logged + {b};
    ExtendsStays(fs.sb, old(fs.St()), mid, inum);
    SpotPatched(fs.sb, old(fs.St()), mid, inum, bn, fs.disk[b]);
    WriteTraced(old(fs.Tr()), tr, b, fs.disk[b], Bitmap(fs.sb) + Spot(mid, inum, bn));
    assert Bitmap(fs.sb) + Spot(mid, inum, bn) + {b} == Bitmap(fs.sb) + Spot(mid, inum, bn);
    PatchWrites(fs.sb, mid, fs.St(), inum, bn, off % BSIZE, chunk);
    assert bn * BSIZE + off % BSIZE == off;
    WrittenThen(fs.sb, old(fs.St()), mid, fs.St(), inum, off, [], chunk);
    assert [] + chunk == chunk;
    return true;
  }

  lemma ExtendsStays(sb: Superblock, st: State, st': State, inum: nat)
    requires Shapes(sb, st) && Shapes(sb, st') && Extends(sb, st, st', inum) && inum < |st.inodes|
    ensures SlotsStay(st, st', inum)
  {
    hide SlotVal;
  }

  /** Writing into a block of a file moves no block. */
  lemma SpotPatched(sb: Superblock, st: State, mid: State, inum: nat, bn: nat, blk: Block)
    requires Shapes(sb, st) && Owned(sb, mid) && inum < |st.inodes| && bn < MAXFILE && SlotsStay(st, mid, inum)
    requires 0 < SlotVal(mid.disk, mid.inodes[inum], Slot(bn)) < sb.size
    ensures var b: nat := SlotVal(mid.disk, mid.inodes[inum], Slot(bn));
            var st' := mid.(disk := mid.disk[b := blk]);
            && b in Spot(mid, inum, bn) && Spot(st', inum, bn) == Spot(mid, inum, bn)
            && SlotVal(st'.disk, st'.inodes[inum], Slot(bn)) == b && SlotsStay(st, st', inum)
  {
    var b: nat := SlotVal(mid.disk, mid.inodes[inum], Slot(bn));
    var st' := mid.(disk := mid.disk[b := blk]);
    hide SlotVal, MapOk, Backed, Recorded;
    forall s: nat | s < SLOTS
      ensures SlotVal(st'.disk, st'.inodes[inum], s) == SlotVal(mid.disk, mid.inodes[inum], s)
    {
      SlotPatched(sb, mid, inum, bn, blk, s);
    }
  }

  lemma SlotPatched(sb: Superblock, st: State, inum: nat, bn: nat, blk: Block, s: nat)
    requires Owned(sb, st) && inum < |st.inodes| && bn < MAXFILE && s < SLOTS
    requires 0 < SlotVal(st.disk, st.inodes[inum], Slot(bn)) < sb.size
    ensures SlotVal(st.disk[SlotVal(st.disk, st.inodes[inum], Slot(bn)) := blk], st.inodes[inum], s)
            == SlotVal(st.disk, st.inodes[inum], s)
  {
    var b := SlotVal(st.disk, st.inodes[inum], Slot(bn));
    assert st.inodes[inum].addrs[NDIRECT] == SlotVal(st.disk, st.inodes[inum], NDIRECT);
    SameTable(st.disk, st.disk[b := blk], st.inodes[inum], s);
  }

  lemma InRange(sb: Superblock, st: State, i: nat, s: nat)
    requires Owned(sb, st) && i < |st.inodes| && s < SLOTS
    ensures SlotVal(st.disk, st.inodes[i], s) < sb.size
  {
    assert SlotVal(st.disk, st.inodes[i], s) != 0 ==> SlotVal(st.disk, st.inodes[i], s) in st.own;
  }

  datatype WriteResult = Wrote(n: nat) | Refused | Panicked

  /** writei's loop, for a range it accepts. */
  method WriteBlocks(fs: Fs, inum: nat, off: nat, data: seq<Byte>) returns (ok: bool)
    requires Owned(fs.sb, fs.St()) && inum < |fs.inodes| && off + |data| <= LIMIT
    modifies fs
    ensures Owned(fs.sb, fs.St()) && inum < |fs.inodes|
    ensures ok ==> Written(fs.sb, old(fs.St()), fs.St(), inum, off, data)
    ensures ok ==> Taken(fs.sb, old(fs.own), fs.own, inum, off / BSIZE, EndBlock(off, |data|))
    ensures ok <==> Wants(old(fs.own), inum, off / BSIZE, EndBlock(off, |data|)) <= Room(fs.sb, old(fs.own))
    ensures ok ==> Traced(old(fs.Tr()), fs.Tr(), Bitmap(fs.sb)
                          + Spots(fs.St(), inum, off / BSIZE, EndBlock(off, |data|)))
  {
    hide SlotVal, MapOk, Recorded, Backed, Written, Taken, Took, Lacks, Room, Wants, EndBlock, Traced, Spots, Spot,
         Present, SlotsStay, Bitmap;
    ghost var st0, lo, hi, tr0 := fs.St(), off / BSIZE, EndBlock(off, |data|), fs.Tr();
    var tot := 0;
    WrittenNothing(fs.sb, fs.St(), inum, off);
    assert data[..0] == [];
    ghost var k: nat := lo;
    FirstBlock(off, |data|);
    TakenNone(fs.sb, st0.own, inum, lo);
    NoneLogged(st0, tr0, inum, lo, Bitmap(fs.sb));
    while tot < |data|
      invariant tot <= |data| && Owned(fs.sb, fs.St()) && inum < |fs.inodes|
      invariant Written(fs.sb, st0, fs.St(), inum, off, data[..tot])
      invariant Taken(fs.sb, st0.own, fs.own, inum, lo, k)
      invariant if tot < |data| then (off + tot) / BSIZE == k < hi else k == hi
      invariant Traced(tr0, fs.Tr(), Bitmap(fs.sb) + Spots(fs.St(), inum, lo, k)) && Present(fs.St(), inum, lo, k)
    {
      var m := Min(|data| - tot, BSIZE - (off + tot) % BSIZE);
      ghost var mid, tr := fs.St(), fs.Tr();
      ok := WriteChunk(fs, inum, off + tot, data[tot..tot + m]);
      TakenNext(fs.sb, st0.own, mid.own, fs.own, inum, lo, k);
      if !ok {
        WantsMore(st0.own, inum, lo, k + 1, hi);
        return;
      }
      NextBlock(off, |data|, tot, m, k);
      MoreLogged(mid, fs.St(), tr0, tr, fs.Tr(), inum, lo, k, Bitmap(fs.sb));
      k := k + 1;
      WrittenThen(fs.sb, st0, mid, fs.St(), inum, off, data[..tot], data[tot..tot + m]);
      assert data[..tot] + data[tot..tot + m] == data[..tot + m];
      WrittenInode(fs.sb, st0, fs.St(), inum, off, data[..tot + m]);
      tot := tot + m;
    }
    assert data[..tot] == data;
    TakenAll(fs.sb, st0.own, fs.own, inum, lo, hi);
    return true;
  }

  /**
   writei from kernel memory. It refuses a start past the end and an end past the largest file; otherwise it
   splices data into the file, leaves every other file alone and keeps every invariant. It panics exactly
   when there are fewer free blocks than the range lacks, which a range below the file's size never does.
   */
  method Writei(fs: Fs, inum: nat, off: nat, data: seq<Byte>) returns (r: WriteResult)
    requires FsOk(fs.sb, fs.St()) && inum < |fs.inodes| && off < WORD_LIMIT && |data| < WORD_LIMIT
    modifies fs
    ensures r.Refused? <==> off > old(fs.inodes)[inum].size || off + |data| > LIMIT
    ensures r.Refused? ==> fs.St() == old(fs.St()) && fs.logged == old(fs.logged)
    ensures r.Panicked? <==>
            && off <= old(fs.inodes)[inum].size && off + |data| <= LIMIT
            && Wants(old(fs.own), inum, off / BSIZE, EndBlock(off, |data|)) > Room(fs.sb, old(fs.own))
    ensures r.Panicked? ==> off + |data| > old(fs.inodes)[inum].size
    ensures r.Wrote? ==>
              Room(fs.sb, fs.own) + Wants(old(fs.own), inum, off / BSIZE, EndBlock(off, |data|))
                == Room(fs.sb, old(fs.own))
    ensures r.Wrote? ==> OthersHold(old(fs.own), fs.own, inum)
    ensures r.Wrote? ==> r.n == |data| && FsOk(fs.sb, fs.St()) && |fs.inodes| == |old(fs.inodes)|
    ensures r.Wrote? ==> FileAt(fs.St(), inum) == Spliced(old(FileAt(fs.St(), inum)), off, data)
    ensures r.Wrote? ==> forall i: nat :: i < |fs.inodes| && i != inum ==>
              fs.inodes[i] == old(fs.inodes)[i] && FileAt(fs.St(), i) == old(FileAt(fs.St(), i))
    ensures r.Wrote? ==>
              fs.inodes[inum] == old(fs.inodes)[inum].(size := fs.inodes[inum].size, addrs := fs.inodes[inum].addrs)
    ensures r.Wrote? ==> Traced(old(fs.Tr()), fs.Tr(), Bitmap(fs.sb) + {InodeBlock(fs.sb, inum)}
                                + Spots(fs.St(), inum, off / BSIZE, EndBlock(off, |data|)))
  {
    hide SlotVal, MapOk, Recorded, Backed, ByteAt, Synced, Written, Spliced, Updated, Taken, Room, Wants, EndBlock,
         OthersHold, Traced, Spots, Bitmap;
    ghost var st0, lo, hi, tr0 := fs.St(), off / BSIZE, EndBlock(off, |data|), fs.Tr();
    if off > fs.inodes[inum].size || (off + |data|) % WORD_LIMIT < off || (off + |data|) % WORD_LIMIT > LIMIT {
      return Refused;
    }
    if off + |data| <= fs.inodes[inum].size {
      NothingWanted(fs.sb, st0, inum, off, |data|);
    }
    var ok := WriteBlocks(fs, inum, off, data);
    if !ok {
      return Panicked;
    }
    ghost var st1, tr1 := fs.St(), fs.Tr();
    WrittenInode(fs.sb, st0, st1, inum, off, data);
    WriteDone(fs.sb, st0, st1, inum, off, data);
    TakenAll(fs.sb, st0.own, st1.own, inum, lo, hi);
    SetSize(fs, inum, off + |data|);
    SizeLogged(fs.sb, st1, tr0, tr1, fs.Tr(), inum, off + |data|, lo, hi);
    return Wrote(|data|);
  }

  lemma NoneLogged(st: State, tr: Trail, inum: nat, lo: nat, x: set<nat>)
    requires AllShaped(st.inodes) && inum < |st.inodes|
    ensures Traced(tr, tr, x + Spots(st, inum, lo, lo)) && Present(st, inum, lo, lo)
  {
    hide SlotVal;
  }

  lemma MoreLogged(st: State, st': State, a: Trail, b: Trail, c: Trail, inum: nat, lo: nat, bn: nat, x: set<nat>)
    requires AllShaped(st.inodes) && AllShaped(st'.inodes) && inum < |st.inodes| && inum < |st'.inodes|
    requires lo <= bn < MAXFILE && Present(st, inum, lo, bn) && SlotsStay(st, st', inum)
    requires SlotVal(st'.disk, st'.inodes[inum], Slot(bn)) != 0
    requires Traced(a, b, x + Spots(st, inum, lo, bn)) && Traced(b, c, x + Spot(st', inum, bn))
    ensures Traced(a, c, x + Spots(st', inum, lo, bn + 1)) && Present(st', inum, lo, bn + 1)
  {
    hide SlotVal, SlotsStay, Present, Spots, Spot, Traced;
    SpotsGrow(st, st', inum, lo, bn);
    TracedWithin(b, c, x + Spot(st', inum, bn), x + Spots(st', inum, lo, bn + 1));
    TracedThen(a, b, c, x + Spots(st, inum, lo, bn), x + Spots(st', inum, lo, bn + 1));
  }

  /** The inode's own block is the last one logged. */
  lemma SizeLogged(sb: Superblock, st: State, a: Trail, b: Trail, c: Trail, inum: nat, end: nat, lo: nat, hi: nat)
    requires Owned(sb, st) && inum < |st.inodes| && end <= LIMIT
    requires Traced(a, b, Bitmap(sb) + Spots(st, inum, lo, hi)) && Traced(b, c, {InodeBlock(sb, inum)})
    ensures AllShaped(Finished(sb, st, inum, end).inodes) && inum < |Finished(sb, st, inum, end).inodes|
    ensures Traced(a, c, Bitmap(sb) + {InodeBlock(sb, inum)} + Spots(Finished(sb, st, inum, end), inum, lo, hi))
  {
    hide SlotVal, MapOk, Backed, Recorded, Traced, Updated;
    var st' := Finished(sb, st, inum, end);
    ResizedOwned(sb, st, inum, end);
    UpdatedKeeps(sb, Resized(st, inum, end), inum);
    UpdatedInodes(sb, Resized(st, inum, end), inum);
    assert forall s: nat :: s < SLOTS ==>
        SlotVal(st'.disk, st'.inodes[inum], s) == SlotVal(st.disk, st.inodes[inum], s);
    assert Spots(st', inum, lo, hi) == Spots(st, inum, lo, hi);
    var all := Bitmap(sb) + {InodeBlock(sb, inum)} + Spots(st', inum, lo, hi);
    TracedWithin(b, c, {InodeBlock(sb, inum)}, all);
    TracedThen(a, b, c, Bitmap(sb) + Spots(st, inum, lo, hi), all);
  }

  /** The block after the last one of a range of n bytes. */
  function EndBlock(off: nat, n: nat): nat {
    if n == 0 then off / BSIZE else (off + n - 1) / BSIZE + 1
  }

  lemma FirstBlock(off: nat, n: nat)
    ensures if n == 0 then EndBlock(off, n) == off / BSIZE else off / BSIZE < EndBlock(off, n)
  {
  }

  lemma NextBlock(off: nat, n: nat, tot: nat, m: nat, k: nat)
    requires tot < n && m == Min(n - tot, BSIZE - (off + tot) % BSIZE) && (off + tot) / BSIZE == k
    ensures if tot + m < n then (off + (tot + m)) / BSIZE == k + 1 < EndBlock(off, n) else k + 1 == EndBlock(off, n)
  {
    var x := off + tot;
    assert x == k * BSIZE + x % BSIZE;
    if tot + m < n {
      assert off + (tot + m) == (k + 1) * BSIZE;
    } else {
      assert off + n - 1 == k * BSIZE + (x % BSIZE + m - 1);
    }
  }

  lemma TakenAll(sb: Superblock, own: Owners, own': Owners, inum: nat, lo: nat, hi: nat)
    requires Fits(sb) && Taken(sb, own, own', inum, lo, hi)
    ensures Room(sb, own') + Wants(own, inum, lo, hi) == Room(sb, own) && OthersHold(own, own', inum)
  {
  }

  /** The blocks below a file's size are all there. */
  lemma BlockThere(sb: Superblock, st: State, inum: nat, bn: nat)
    requires Sound(sb, st) && inum < |st.inodes| && bn * BSIZE < st.inodes[inum].size
    ensures Held(st.own, inum, Slot(bn)) && (bn >= NDIRECT ==> Held(st.own, inum, NDIRECT))
  {
    hide Recorded, Backed, MapOk;
    assert NoHoles(st.disk, st.inodes[inum]);
    HeldIff(sb, st, inum, Slot(bn));
    HeldIff(sb, st, inum, NDIRECT);
  }

  lemma {:induction false} NoneLacking(sb: Superblock, st: State, inum: nat, lo: nat, hi: nat)
    requires Sound(sb, st) && inum < |st.inodes| && (hi > lo ==> (hi - 1) * BSIZE < st.inodes[inum].size)
    ensures Wants(st.own, inum, lo, hi) == 0
    decreases hi
  {
    hide Sound;
    if hi > lo {
      NoneLacking(sb, st, inum, lo, hi - 1);
      BlockThere(sb, st, inum, hi - 1);
    }
  }

  lemma NothingWanted(sb: Superblock, st: State, inum: nat, off: nat, n: nat)
    requires Sound(sb, st) && inum < |st.inodes| && off + n <= st.inodes[inum].size
    ensures Wants(st.own, inum, off / BSIZE, EndBlock(off, n)) == 0
  {
    hide Sound;
    assert n > 0 ==> (off + n - 1) / BSIZE * BSIZE <= off + n - 1;
    NoneLacking(sb, st, inum, off / BSIZE, EndBlock(off, n));
  }

  lemma WrittenInode(sb: Superblock, st: State, st1: State, inum: nat, off: nat, data: seq<Byte>)
    requires Shapes(sb, st) && Shapes(sb, st1) && Written(sb, st, st1, inum, off, data)
    ensures OthersKept(st, st1, inum)
  {
  }

  /** The end of writei. */
  method SetSize(fs: Fs, inum: nat, end: nat)
    requires Shapes(fs.sb, fs.St()) && inum < |fs.inodes| && end <= LIMIT
    modifies fs
    ensures fs.St() == Finished(fs.sb, old(fs.St()), inum, end)
    ensures fs.inodes == Resized(old(fs.St()), inum, end).inodes && fs.own == old(fs.own)
    ensures Traced(old(fs.Tr()), fs.Tr(), {InodeBlock(fs.sb, inum)})
  {
    hide Updated, Traced;
    if end > fs.inodes[inum].size {
      fs.inodes := fs.inodes[inum := fs.inodes[inum].(size := end)];
    }
    assert fs.St() == Resized(old(fs.St()), inum, end);
    ghost var mid := fs.St();
    Iupdate(fs, inum);
    UpdatedInodes(fs.sb, mid, inum);
  }

  /** readi into kernel memory: exactly the bytes from off up to off + n or the end of the file. It changes nothing. */
  method Readi(fs: Fs, inum: nat, off: nat, n: nat) returns (out: seq<Byte>)
    requires FsOk(fs.sb, fs.St()) && inum < |fs.inodes| && off < WORD_LIMIT && n < WORD_LIMIT
    modifies fs
    ensures fs.St() == old(fs.St()) && fs.logged == old(fs.logged)
    ensures off > fs.inodes[inum].size || off + n >= WORD_LIMIT ==> out == []
    ensures off <= fs.inodes[inum].size && off + n < WORD_LIMIT ==>
              out == FileAt(fs.St(), inum)[off..Min(off + n, fs.inodes[inum].size)]
  {
    hide SlotVal, MapOk, Recorded, Backed, Synced, ByteAt;
    out := [];
    var size := fs.inodes[inum].size;
    if off > size || (off + n) % WORD_LIMIT < off {
      return;
    }
    var len := if off + n > size then size - off else n;
    ghost var c := FileAt(fs.St(), inum);
    while |out| < len
      invariant |out| <= len && fs.St() == old(fs.St()) && fs.logged == old(fs.logged) && out == c[off..off + |out|]
    {
      var at := off + |out|;
      var m := Min(len - |out|, BSIZE - at % BSIZE);
      var chunk := ReadBlock(fs, inum, at, m);
      assert c[off..at] + c[at..at + m] == c[off..at + m];
      out := out + chunk;
    }
  }

  /** One turn of readi's loop: map the block, copy the bytes out. */
  method ReadBlock(fs: Fs, inum: nat, at: nat, m: nat) returns (chunk: seq<Byte>)
    requires Sound(fs.sb, fs.St()) && inum < |fs.inodes| && 0 < m && at + m <= fs.inodes[inum].size
    requires at % BSIZE + m <= BSIZE
    modifies fs
    ensures fs.St() == old(fs.St()) && fs.logged == old(fs.logged)
    ensures fs.inodes[inum].size <= LIMIT && chunk == FileAt(fs.St(), inum)[at..at + m]
  {
    hide SlotVal, MapOk, Recorded, Backed, Extends, ByteAt;
    BelowSize(fs.St(), inum, at);
    InRange(fs.sb, fs.St(), inum, Slot(at / BSIZE));
    var r := Bmap(fs, inum, at / BSIZE);
    chunk := fs.disk[r.value][at % BSIZE..at % BSIZE + m];
    ReadChunk(fs.St(), inum, at, m, chunk);
  }

  lemma ReadChunk(st: State, inum: nat, at: nat, m: nat, chunk: seq<Byte>)
    requires AllShaped(st.inodes) && inum < |st.inodes| && NoHoles(st.disk, st.inodes[inum])
    requires at + m <= st.inodes[inum].size
    requires at < LIMIT && at % BSIZE + m <= BSIZE
    requires var b := SlotVal(st.disk, st.inodes[inum], Slot(at / BSIZE));
             0 < b < |st.disk| && chunk == st.disk[b][at % BSIZE..at % BSIZE + m]
    ensures chunk == FileAt(st, inum)[at..at + m]
  {
    hide SlotVal;
    var c := FileAt(st, inum);
    forall k: nat | k < m ensures chunk[k] == c[at + k] {
      assert (at + k) / BSIZE == at / BSIZE && (at + k) % BSIZE == at % BSIZE + k;
    }
  }
}
