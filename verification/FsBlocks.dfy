/** Block allocation and the block map of an inode (balloc, bfree, bmap in kernel/src/fs.c). */
module FsBlocks {
  import opened Blocks
  import opened FsLayout
  import opened FsState
  import opened FsGrow
  import opened FsSpace
  import opened FsTrail

  /** What a call returns, or the panic it ends in. */
  datatype Result = Ok(value: nat) | Panic

  /**
   The logical disk is what bread shows and log_write changes; inodes are the in-core copies. own is a ghost
   record of which place holds which block, logged one of the blocks passed to log_write.
   */
  class Fs {
    const sb: Superblock
    var disk: Disk
    var inodes: seq<Inode>
    ghost var own: Owners
    ghost var logged: set<nat>

    constructor (sb: Superblock, disk: Disk, inodes: seq<Inode>, ghost own: Owners)
      ensures this.sb == sb && St() == State(disk, inodes, own) && logged == {}
    {
      this.sb := sb;
      this.disk, this.inodes, this.own, this.logged := disk, inodes, own, {};
    }

    ghost function St(): State
      reads this
    {
      State(disk, inodes, own)
    }

    ghost function Tr(): Trail
      reads this
    {
      Trail(disk, logged)
    }

    /** Takes the first block whose bit is clear and zeroes it; panics exactly when every bit is set. */
    method Balloc() returns (r: Result)
      requires Fits(sb) && |disk| == sb.size
      modifies this`disk, this`logged
      ensures r.Ok? ==> r.value < sb.size && BitBlock(sb, r.value) < sb.size && disk == Alloc(sb, old(disk), r.value)
      ensures logged == if r.Ok? then old(logged) + {BitBlock(sb, r.value), r.value} else old(logged)
      ensures r.Ok? ==> !Used(sb, old(disk), r.value)
      ensures r.Ok? ==> forall c: nat :: c < r.value ==> BitBlock(sb, c) < sb.size && Used(sb, old(disk), c)
      ensures r.Panic? ==>
                disk == old(disk) && forall c: nat :: c < sb.size ==> BitBlock(sb, c) < sb.size && Used(sb, disk, c)
    {
      hide BitAt, MarkBit;
      var b := 0;
      while b < sb.size
        invariant b % BPB == 0 && disk == old(disk) && logged == old(logged)
        invariant forall c: nat :: c < b && c < sb.size ==> BitBlock(sb, c) < sb.size && Used(sb, disk, c)
      {
        BitBlockRange(sb, b);
        var bp := disk[BitBlock(sb, b)];
        var bi := 0;
        while bi < BPB && b + bi < sb.size
          invariant bi <= BPB && disk == old(disk) && logged == old(logged)
          invariant forall c: nat :: c < b + bi && c < sb.size ==> BitBlock(sb, c) < sb.size && Used(sb, disk, c)
        {
          BitOf(sb, b, bi);
          if !BitAt(bp, bi) {
            disk := disk[BitBlock(sb, b) := MarkBit(bp, bi, true)];
            disk := disk[b + bi := ZeroBlock()];
            logged := logged + {BitBlock(sb, b), b + bi};
            return Ok(b + bi);
          }
          bi := bi + 1;
        }
        b := b + BPB;
      }
      return Panic;
    }

    /** Clears the bit of b; panics exactly when it is clear already. */
    method Bfree(b: nat) returns (r: Result)
      requires Fits(sb) && |disk| == sb.size && b < sb.size
      modifies this`disk, this`logged
      ensures logged == if r.Ok? then old(logged) + {BitBlock(sb, b)} else old(logged)
      ensures BitBlock(sb, b) < sb.size && (r.Panic? <==> !Used(sb, old(disk), b))
      ensures disk == if r.Panic? then old(disk) else Mark(sb, old(disk), b, false)
    {
      hide BitAt, MarkBit;
      BitBlockRange(sb, b);
      var bp, bi := disk[BitBlock(sb, b)], b % BPB;
      if !BitAt(bp, bi) {
        return Panic;
      }
      disk := disk[BitBlock(sb, b) := MarkBit(bp, bi, false)];
      logged := logged + {BitBlock(sb, b)};
      return Ok(b);
    }
  }

  lemma BitOf(sb: Superblock, b: nat, bi: nat)
    requires b % BPB == 0 && bi < BPB
    ensures (b + bi) % BPB == bi && BitBlock(sb, b + bi) == BitBlock(sb, b)
  {
  }

  /** A block the bitmap shows free is an unrecorded data block. */
  lemma FreeIsLoose(sb: Superblock, st: State, b: nat)
    requires Owned(sb, st) && b < sb.size && BitBlock(sb, b) < sb.size && !Used(sb, st.disk, b)
    ensures DataStart(sb) <= b && b !in st.own
  {
    hide Recorded, Backed, Used;
  }

  /** Place (inum, s) was held, or it got a block, or there was none to get. */
  ghost predicate GotPlace(sb: Superblock, own: Owners, own': Owners, inum: nat, s: nat, ok: bool)
    requires Fits(sb)
  {
    if Held(own, inum, s) then ok && own' == own
    else
      && (ok <==> Room(sb, own) > 0)
      && (ok ==> Room(sb, own') + 1 == Room(sb, own))
      && (ok ==> forall i: nat, t: nat {:trigger Held(own', i, t)} :: Held(own', i, t) <==>
           Held(own, i, t) || (i == inum && t == s))
      && (!ok ==> own' == own)
  }

  lemma PlaceThere(sb: Superblock, own: Owners, inum: nat, s: nat)
    requires Fits(sb)
    ensures Held(own, inum, s) ==> GotPlace(sb, own, own, inum, s, true)
    ensures !Held(own, inum, s) && Room(sb, own) == 0 ==> GotPlace(sb, own, own, inum, s, false)
  {
  }

  lemma PlaceFilled(sb: Superblock, own: Owners, inum: nat, s: nat, b: nat)
    requires Fits(sb) && DataStart(sb) <= b < sb.size && b !in own && !Held(own, inum, s)
    ensures GotPlace(sb, own, own[b := Place(inum, s)], inum, s, true)
  {
    var own' := own[b := Place(inum, s)];
    OneLess(sb, own, b, Place(inum, s));
    forall i: nat, t: nat ensures Held(own', i, t) <==> Held(own, i, t) || (i == inum && t == s) {
      HeldMore(own, b, Place(inum, s), i, t);
    }
  }

  /** The places bmap fills, from the ones it filled. */
  lemma MappedDirect(sb: Superblock, own: Owners, own': Owners, inum: nat, bn: nat, ok: bool)
    requires Fits(sb) && bn < NDIRECT && GotPlace(sb, own, own', inum, bn, ok)
    ensures ok <==> Lacks(own, inum, bn) <= Room(sb, own)
    ensures ok ==> Took(sb, own, own', inum, bn)
  {
  }

  lemma MappedIndirect(sb: Superblock, own: Owners, mid: Owners, own': Owners, inum: nat, bn: nat, table: bool,
                       ok: bool)
    requires Fits(sb) && NDIRECT <= bn && GotPlace(sb, own, mid, inum, NDIRECT, table)
    requires table ==> GotPlace(sb, mid, own', inum, Slot(bn), ok)
    requires !table ==> !ok && own' == mid
    ensures ok <==> Lacks(own, inum, bn) <= Room(sb, own)
    ensures ok ==> Took(sb, own, own', inum, bn)
  {
    assert Slot(bn) != NDIRECT;
    if table {
      assert Held(mid, inum, Slot(bn)) <==> Held(own, inum, Slot(bn));
    }
  }

  /** ip->addrs[s], allocated if it was 0. */
  method MapDirect(fs: Fs, inum: nat, s: nat) returns (r: Result)
    requires Owned(fs.sb, fs.St()) && inum < |fs.inodes| && s <= NDIRECT
    modifies fs
    ensures Owned(fs.sb, fs.St()) && Extends(fs.sb, old(fs.St()), fs.St(), inum)
    ensures r.Ok? ==> r.value != 0 && SlotVal(fs.disk, fs.inodes[inum], s) == r.value
    ensures r.Panic? ==> fs.St() == old(fs.St())
    ensures SlotVal(old(fs.disk), old(fs.inodes)[inum], s) != 0 ==>
              r.Ok? && fs.St() == old(fs.St()) && fs.logged == old(fs.logged)
    ensures GotPlace(fs.sb, old(fs.own), fs.own, inum, s, r.Ok?)
    ensures Traced(old(fs.Tr()), fs.Tr(), Bitmap(fs.sb) + {SlotVal(fs.disk, fs.inodes[inum], s)})
  {
    hide Recorded, Backed, MapOk, Extends, GotPlace, Room, Held, Traced, Bitmap;
    ghost var tr := fs.Tr();
    HeldIff(fs.sb, fs.St(), inum, s);
    PlaceThere(fs.sb, fs.own, inum, s);
    ExtendsSelf(fs.sb, fs.St(), inum);
    TracedSelf(tr, Bitmap(fs.sb) + {SlotVal(fs.disk, fs.inodes[inum], s)});
    var addr := fs.inodes[inum].addrs[s];
    if addr == 0 {
      r := fs.Balloc();
      if r.Panic? {
        NoRoom(fs.sb, fs.St());
        return;
      }
      addr := r.value;
      AllocTraced(fs.sb, tr, addr);
      FreeIsLoose(fs.sb, old(fs.St()), addr);
      PlaceFilled(fs.sb, fs.own, inum, s, addr);
      GrowDirectOwned(fs.sb, old(fs.St()), inum, s, addr);
      fs.inodes := fs.inodes[inum := WithAddr(fs.inodes[inum], s, addr)];
      fs.own := fs.own[addr := Place(inum, s)];
      assert fs.St() == GrowDirect(fs.sb, old(fs.St()), inum, s, addr);
      GrownExtends(fs.sb, old(fs.St()), fs.St(), inum, s, addr);
    }
    return Ok(addr);
  }

  /** The entry of the indirect table for place s, allocated if it was 0; the table is there. */
  method MapEntry(fs: Fs, inum: nat, s: nat) returns (r: Result)
    requires Owned(fs.sb, fs.St()) && inum < |fs.inodes| && NDIRECT < s < SLOTS && fs.inodes[inum].addrs[NDIRECT] != 0
    modifies fs
    ensures Owned(fs.sb, fs.St()) && Extends(fs.sb, old(fs.St()), fs.St(), inum)
    ensures r.Ok? ==> r.value != 0 && SlotVal(fs.disk, fs.inodes[inum], s) == r.value
    ensures r.Panic? ==> fs.St() == old(fs.St())
    ensures SlotVal(old(fs.disk), old(fs.inodes)[inum], s) != 0 ==>
              r.Ok? && fs.St() == old(fs.St()) && fs.logged == old(fs.logged)
    ensures GotPlace(fs.sb, old(fs.own), fs.own, inum, s, r.Ok?)
    ensures Traced(old(fs.Tr()), fs.Tr(), Bitmap(fs.sb) + {SlotVal(fs.disk, fs.inodes[inum], s),
                   SlotVal(fs.disk, fs.inodes[inum], NDIRECT)})
  {
    hide Recorded, Backed, MapOk, Extends, GotPlace, Room, Held, Traced, Bitmap;
    ghost var tr := fs.Tr();
    TracedSelf(tr, Bitmap(fs.sb) + {SlotVal(fs.disk, fs.inodes[inum], s), SlotVal(fs.disk, fs.inodes[inum], NDIRECT)});
    HeldIff(fs.sb, fs.St(), inum, s);
    PlaceThere(fs.sb, fs.own, inum, s);
    TableIsOwned(fs.sb, fs.St(), inum);
    var tab := fs.inodes[inum].addrs[NDIRECT];
    var addr := GetWord(fs.disk[tab], s - NDIRECT - 1);
    if addr == 0 {
      r := fs.Balloc();
      if r.Panic? {
        NoRoom(fs.sb, fs.St());
        ExtendsSelf(fs.sb, fs.St(), inum);
        return;
      }
      addr := r.value;
      AllocTraced(fs.sb, tr, addr);
      FreeIsLoose(fs.sb, old(fs.St()), addr);
      PlaceFilled(fs.sb, fs.own, inum, s, addr);
      GrowIndirectOwned(fs.sb, old(fs.St()), inum, s, addr);
      WriteTraced(tr, fs.Tr(), tab, PutWord(fs.disk[tab], s - NDIRECT - 1, addr), Bitmap(fs.sb) + {addr});
      fs.disk := fs.disk[tab := PutWord(fs.disk[tab], s - NDIRECT - 1, addr)];
      fs.logged := fs.logged + {tab};
      assert Bitmap(fs.sb) + {addr} + {tab} == Bitmap(fs.sb) + {addr, tab};
      fs.own := fs.own[addr := Place(inum, s)];
      assert fs.St() == GrowIndirect(fs.sb, old(fs.St()), inum, s, addr);
      GrownExtends(fs.sb, old(fs.St()), fs.St(), inum, s, addr);
    } else {
      ExtendsSelf(fs.sb, fs.St(), inum);
    }
    return Ok(addr);
  }

  lemma TableStays(sb: Superblock, st: State, st': State, inum: nat)
    requires Shapes(sb, st) && Shapes(sb, st') && Extends(sb, st, st', inum) && inum < |st.inodes|
    requires SlotVal(st.disk, st.inodes[inum], NDIRECT) != 0
    ensures SlotVal(st'.disk, st'.inodes[inum], NDIRECT) == SlotVal(st.disk, st.inodes[inum], NDIRECT)
  {
  }

  /**
   The disk block of the bn-th block of inode inum, allocating what is missing. Every number and all data
   that were there stay; it panics exactly for bn out of range or when there are fewer free blocks than are
   missing on the way, and otherwise takes exactly those.
   */
  method Bmap(fs: Fs, inum: nat, bn: nat) returns (r: Result)
    requires Owned(fs.sb, fs.St()) && inum < |fs.inodes|
    modifies fs
    ensures Owned(fs.sb, fs.St()) && Extends(fs.sb, old(fs.St()), fs.St(), inum)
    ensures r.Ok? ==> bn < MAXFILE && r.value != 0 && SlotVal(fs.disk, fs.inodes[inum], Slot(bn)) == r.value
    ensures r.Ok? <==> bn < MAXFILE && Lacks(old(fs.own), inum, bn) <= Room(fs.sb, old(fs.own))
    ensures r.Ok? ==> Took(fs.sb, old(fs.own), fs.own, inum, bn)
    ensures bn < MAXFILE && SlotVal(old(fs.disk), old(fs.inodes)[inum], Slot(bn)) != 0 ==>
              r.Ok? && fs.St() == old(fs.St()) && fs.logged == old(fs.logged)
    ensures bn < MAXFILE ==> Traced(old(fs.Tr()), fs.Tr(), Bitmap(fs.sb) + Spot(fs.St(), inum, bn))
  {
    hide Recorded, Backed, MapOk, Extends, GotPlace, Took, Lacks, Room, Traced, Bitmap;
    if bn < NDIRECT {
      r := MapDirect(fs, inum, bn);
      MappedDirect(fs.sb, old(fs.own), fs.own, inum, bn, r.Ok?);
    } else if bn < MAXFILE {
      r := MapDirect(fs, inum, NDIRECT);
      ghost var mid, table, tr := fs.St(), r.Ok?, fs.Tr();
      if r.Ok? {
        r := MapEntry(fs, inum, Slot(bn));
        ExtendsTrans(fs.sb, old(fs.St()), mid, fs.St(), inum);
        TableStays(fs.sb, mid, fs.St(), inum);
        TracedThen(old(fs.Tr()), tr, fs.Tr(), Bitmap(fs.sb) + {SlotVal(mid.disk, mid.inodes[inum], NDIRECT)},
                   Bitmap(fs.sb) + Spot(fs.St(), inum, bn));
      } else {
        TracedWithin(old(fs.Tr()), tr, Bitmap(fs.sb) + {SlotVal(mid.disk, mid.inodes[inum], NDIRECT)},
                     Bitmap(fs.sb) + Spot(fs.St(), inum, bn));
      }
      MappedIndirect(fs.sb, old(fs.own), mid.own, fs.own, inum, bn, table, r.Ok?);
    } else {
      ExtendsSelf(fs.sb, fs.St(), inum);
      r := Panic;
    }
  }
}
