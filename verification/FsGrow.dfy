/** Giving a fresh block to a place of an inode (balloc and bmap in kernel/src/fs.c), on states. */
module FsGrow {
  import opened Blocks
  import opened FsLayout
  import opened FsState

  /** balloc of block b: its bit is set and it is zeroed. */
  function Alloc(sb: Superblock, d: Disk, b: nat): Disk
    requires BitBlock(sb, b) < |d| && b < |d|
  {
    Mark(sb, d, b, true)[b := ZeroBlock()]
  }

  lemma BitBlockRange(sb: Superblock, b: nat)
    requires Fits(sb) && b < sb.size
    ensures sb.bmapstart <= BitBlock(sb, b) < DataStart(sb)
  {
  }

  lemma MarkDisk(sb: Superblock, d: Disk, b: nat, v: bool)
    requires Fits(sb) && |d| == sb.size && b < sb.size
    ensures BitBlock(sb, b) < |d| && |Mark(sb, d, b, v)| == |d|
    ensures forall c: nat :: c < sb.bmapstart || DataStart(sb) <= c < sb.size ==> Mark(sb, d, b, v)[c] == d[c]
    ensures forall c: nat :: c < sb.size ==> (Used(sb, Mark(sb, d, b, v), c) <==> if c == b then v else Used(sb, d, c))
  {
    hide Used, MarkBit;
    BitBlockRange(sb, b);
    forall c: nat | c < sb.size ensures Used(sb, Mark(sb, d, b, v), c) <==> if c == b then v else Used(sb, d, c) {
      BitBlockRange(sb, c);
      MarkUsed(sb, d, b, v, c);
    }
  }

  /** Changing data blocks does not change the bitmap. */
  lemma UsedFrame(sb: Superblock, d: Disk, d': Disk, c: nat)
    requires Fits(sb) && |d| == |d'| == sb.size && c < sb.size
    requires forall x: nat :: sb.bmapstart <= x < DataStart(sb) ==> d'[x] == d[x]
    ensures BitBlock(sb, c) < sb.size && (Used(sb, d', c) <==> Used(sb, d, c))
  {
    BitBlockRange(sb, c);
  }

  lemma AllocDisk(sb: Superblock, d: Disk, b: nat)
    requires Fits(sb) && |d| == sb.size && DataStart(sb) <= b < sb.size
    ensures BitBlock(sb, b) < |d| && |Alloc(sb, d, b)| == |d| && Alloc(sb, d, b)[b] == ZeroBlock()
    ensures forall c: nat :: c < sb.bmapstart || (DataStart(sb) <= c < sb.size && c != b) ==> Alloc(sb, d, b)[c] == d[c]
    ensures forall c: nat :: c < sb.size ==> (Used(sb, Alloc(sb, d, b), c) <==> c == b || Used(sb, d, c))
  {
    hide Used, Mark;
    MarkDisk(sb, d, b, true);
    forall c: nat | c < sb.size ensures Used(sb, Alloc(sb, d, b), c) <==> c == b || Used(sb, d, c) {
      UsedFrame(sb, Mark(sb, d, b, true), Alloc(sb, d, b), c);
    }
  }

  /** The disk parts that growing a file leaves alone: inode blocks and file data. */
  ghost predicate DataKept(sb: Superblock, st: State, st': State)
    requires Shapes(sb, st) && Shapes(sb, st')
  {
    && (forall c: nat :: c < sb.bmapstart ==> st'.disk[c] == st.disk[c])
    && (forall c: nat :: c in st.own && st.own[c].slot != NDIRECT && c < sb.size ==> st'.disk[c] == st.disk[c])
  }

  /** Only the addresses of inode inum changed. */
  predicate OthersKept(st: State, st': State, inum: nat) {
    && |st'.inodes| == |st.inodes| && inum < |st.inodes|
    && (forall i: nat :: i < |st.inodes| && i != inum ==> st'.inodes[i] == st.inodes[i])
    && st'.inodes[inum] == st.inodes[inum].(addrs := st'.inodes[inum].addrs)
  }

  /** Place (inum, s), which was empty, now holds the fresh block b; nothing else changed. */
  ghost predicate Grown(sb: Superblock, st: State, st': State, inum: nat, s: nat, b: nat)
    requires Shapes(sb, st) && Shapes(sb, st')
  {
    && OthersKept(st, st', inum) && s < SLOTS && DataKept(sb, st, st')
    && b !in st.own && st'.own == st.own[b := Place(inum, s)]
    && b < sb.size && st'.disk[b] == ZeroBlock()
    && forall i: nat, t: nat {:trigger SlotVal(st'.disk, st'.inodes[i], t)} :: i < |st.inodes| && t < SLOTS ==>
         SlotVal(st'.disk, st'.inodes[i], t) == if i == inum && t == s then b else SlotVal(st.disk, st.inodes[i], t)
  }

  lemma GrownBacked(sb: Superblock, st: State, st': State, inum: nat, s: nat, b: nat)
    requires Shapes(sb, st) && Backed(sb, st) && Shapes(sb, st') && Grown(sb, st, st', inum, s, b) && DataStart(sb) <= b
    requires SlotVal(st.disk, st.inodes[inum], s) == 0
    ensures Backed(sb, st')
  {
    assert DataStart(sb) > 0;
    hide SlotVal, Fits, DataKept, Shape;
    forall c: nat | c in st'.own
      ensures DataStart(sb) <= c < sb.size && st'.own[c].inum < |st'.inodes| && st'.own[c].slot < SLOTS
      ensures |st'.inodes[st'.own[c].inum].addrs| == NDIRECT + 1
      ensures SlotVal(st'.disk, st'.inodes[st'.own[c].inum], st'.own[c].slot) == c
    {
      ShapeAt(st', if c == b then inum else st.own[c].inum);
      if c != b {
        ShapeAt(st, st.own[c].inum);
        assert SlotVal(st.disk, st.inodes[st.own[c].inum], st.own[c].slot) == c;
      }
    }
  }

  lemma ShapeAt(st: State, i: nat)
    requires AllShaped(st.inodes) && i < |st.inodes|
    ensures |st.inodes[i].addrs| == NDIRECT + 1
  {
  }

  lemma GrownRecorded(sb: Superblock, st: State, st': State, inum: nat, s: nat, b: nat)
    requires Shapes(sb, st) && Recorded(st) && Shapes(sb, st') && Grown(sb, st, st', inum, s, b)
    ensures Recorded(st')
  {
    hide SlotVal, Fits, DataKept;
    forall i: nat, t: nat | i < |st'.inodes| && t < SLOTS && SlotVal(st'.disk, st'.inodes[i], t) != 0
      ensures SlotVal(st'.disk, st'.inodes[i], t) in st'.own
      ensures st'.own[SlotVal(st'.disk, st'.inodes[i], t)] == Place(i, t)
    {
      if i != inum || t != s {
        assert SlotVal(st.disk, st.inodes[i], t) in st.own;
      }
    }
  }

  lemma GrownOwned(sb: Superblock, st: State, st': State, inum: nat, s: nat, b: nat)
    requires Owned(sb, st) && Shapes(sb, st') && Grown(sb, st, st', inum, s, b) && DataStart(sb) <= b
    requires SlotVal(st.disk, st.inodes[inum], s) == 0
    requires forall c: nat :: c < sb.size ==> (Used(sb, st'.disk, c) <==> c == b || Used(sb, st.disk, c))
    ensures Owned(sb, st')
  {
    GrownBacked(sb, st, st', inum, s, b);
    GrownRecorded(sb, st, st', inum, s, b);
    hide SlotVal, Used, DataKept, Recorded, Backed, Shapes;
  }

  function WithAddr(ino: Inode, s: nat, b: nat): Inode
    requires s < |ino.addrs|
  {
    ino.(addrs := ino.addrs[s := b])
  }

  /** A direct block, or the indirect table: ip->addrs[s] = balloc(dev). */
  function GrowDirect(sb: Superblock, st: State, inum: nat, s: nat, b: nat): State
    requires BitBlock(sb, b) < |st.disk| && b < |st.disk| && inum < |st.inodes| && s < |st.inodes[inum].addrs|
  {
    State(Alloc(sb, st.disk, b), st.inodes[inum := WithAddr(st.inodes[inum], s, b)], st.own[b := Place(inum, s)])
  }

  lemma GrowDirectSlots(sb: Superblock, st: State, inum: nat, s: nat, b: nat, i: nat, t: nat)
    requires Owned(sb, st) && inum < |st.inodes| && s <= NDIRECT && st.inodes[inum].addrs[s] == 0
    requires DataStart(sb) <= b < sb.size && b !in st.own && i < |st.inodes| && t < SLOTS && BitBlock(sb, b) < |st.disk|
    requires b < WORD_LIMIT
    ensures SlotVal(Alloc(sb, st.disk, b), GrowDirect(sb, st, inum, s, b).inodes[i], t)
         == if i == inum && t == s then b else SlotVal(st.disk, st.inodes[i], t)
  {
    AllocDisk(sb, st.disk, b);
    var ino := st.inodes[i];
    if ino.addrs[NDIRECT] != 0 {
      TableIsOwned(sb, st, i);
    }
    hide Owned, Alloc, GetWord;
    if i == inum && s == NDIRECT && t > NDIRECT {
      ZeroBlockWords(t - NDIRECT - 1);
    } else {
      SameTable(st.disk, Alloc(sb, st.disk, b), ino, t);
    }
  }

  lemma GrowDirectOwned(sb: Superblock, st: State, inum: nat, s: nat, b: nat)
    requires Owned(sb, st) && inum < |st.inodes| && s <= NDIRECT && st.inodes[inum].addrs[s] == 0
    requires DataStart(sb) <= b < sb.size && b !in st.own
    ensures BitBlock(sb, b) < |st.disk|
    ensures var st' := GrowDirect(sb, st, inum, s, b); Owned(sb, st') && Grown(sb, st, st', inum, s, b)
  {
    AllocDisk(sb, st.disk, b);
    GrowDirectShape(sb, st, inum, s, b);
    var st' := GrowDirect(sb, st, inum, s, b);
    forall i: nat, t: nat | i < |st.inodes| && t < SLOTS
      ensures SlotVal(st'.disk, st'.inodes[i], t) == if i == inum && t == s then b
                                                     else SlotVal(st.disk, st.inodes[i], t)
    {
      GrowDirectSlots(sb, st, inum, s, b, i, t);
    }
    assert SlotVal(st.disk, st.inodes[inum], s) == 0;
    hide Alloc, SlotVal, Used, Shape, MapOk, Recorded, Backed, DataKept, GrowDirect;
    GrownOwned(sb, st, st', inum, s, b);
  }

  lemma GrowDirectShape(sb: Superblock, st: State, inum: nat, s: nat, b: nat)
    requires Shapes(sb, st) && Backed(sb, st) && inum < |st.inodes| && s <= NDIRECT && DataStart(sb) <= b < sb.size
    requires b !in st.own
    ensures BitBlock(sb, b) < |st.disk|
    ensures var st' := GrowDirect(sb, st, inum, s, b);
            && Shapes(sb, st') && DataKept(sb, st, st') && OthersKept(st, st', inum) && st'.disk[b] == ZeroBlock()
            && st'.disk == Alloc(sb, st.disk, b) && st'.own == st.own[b := Place(inum, s)]
  {
    AllocDisk(sb, st.disk, b);
    hide Alloc, Used, SlotVal;
  }

  /** An entry of the indirect table: a[s] = balloc(dev). */
  function GrowIndirect(sb: Superblock, st: State, inum: nat, s: nat, b: nat): State
    requires BitBlock(sb, b) < |st.disk| && b < |st.disk| && b < WORD_LIMIT && inum < |st.inodes|
    requires |st.inodes[inum].addrs| == NDIRECT + 1
    requires st.inodes[inum].addrs[NDIRECT] < |st.disk| && NDIRECT < s < SLOTS
  {
    var d, t := Alloc(sb, st.disk, b), st.inodes[inum].addrs[NDIRECT];
    State(d[t := PutWord(d[t], s - NDIRECT - 1, b)], st.inodes, st.own[b := Place(inum, s)])
  }

  lemma GrowIndirectSlots(sb: Superblock, st: State, inum: nat, s: nat, b: nat, i: nat, t: nat)
    requires Owned(sb, st) && inum < |st.inodes| && NDIRECT < s < SLOTS
    requires 0 < st.inodes[inum].addrs[NDIRECT] < |st.disk|
    requires DataStart(sb) <= b < sb.size && b !in st.own && i < |st.inodes| && t < SLOTS && BitBlock(sb, b) < |st.disk|
    ensures SlotVal(GrowIndirect(sb, st, inum, s, b).disk, st.inodes[i], t)
         == if i == inum && t == s then b else SlotVal(st.disk, st.inodes[i], t)
  {
    hide Recorded, Backed, MapOk, Alloc, GetWord, PutWord, Used;
    AllocDisk(sb, st.disk, b);
    TableIsOwned(sb, st, inum);
    var tab: nat := st.inodes[inum].addrs[NDIRECT];
    assert Alloc(sb, st.disk, b)[tab] == st.disk[tab];
    if i == inum {
      PutGetWord(st.disk[tab], s - NDIRECT - 1, b);
    } else {
      OtherTable(sb, st, inum, b, i);
      SameTable(st.disk, GrowIndirect(sb, st, inum, s, b).disk, st.inodes[i], t);
    }
  }

  /** The tables of two inodes are different blocks. */
  lemma OtherTable(sb: Superblock, st: State, inum: nat, b: nat, i: nat)
    requires Owned(sb, st) && inum < |st.inodes| && i < |st.inodes| && i != inum && b !in st.own
    requires st.inodes[inum].addrs[NDIRECT] != 0
    ensures var t := st.inodes[i].addrs[NDIRECT]; t != 0 ==>
              t != b && t != st.inodes[inum].addrs[NDIRECT] && DataStart(sb) <= t < sb.size
  {
    TableIsOwned(sb, st, inum);
    if st.inodes[i].addrs[NDIRECT] != 0 {
      TableIsOwned(sb, st, i);
    }
    hide Owned;
  }

  lemma GrowIndirectOwned(sb: Superblock, st: State, inum: nat, s: nat, b: nat)
    requires Owned(sb, st) && inum < |st.inodes| && NDIRECT < s < SLOTS
    requires 0 < st.inodes[inum].addrs[NDIRECT] < |st.disk| && SlotVal(st.disk, st.inodes[inum], s) == 0
    requires DataStart(sb) <= b < sb.size && b !in st.own
    ensures BitBlock(sb, b) < |st.disk|
    ensures var st' := GrowIndirect(sb, st, inum, s, b); Owned(sb, st') && Grown(sb, st, st', inum, s, b)
  {
    hide Alloc, Used, MapOk, Recorded, Backed, DataKept;
    AllocDisk(sb, st.disk, b);
    TableIsOwned(sb, st, inum);
    GrowIndirectShape(sb, st, inum, s, b);
    var st' := GrowIndirect(sb, st, inum, s, b);
    forall i: nat, t: nat | i < |st.inodes| && t < SLOTS
      ensures SlotVal(st'.disk, st'.inodes[i], t) == if i == inum && t == s then b
                                                     else SlotVal(st.disk, st.inodes[i], t)
    {
      GrowIndirectSlots(sb, st, inum, s, b, i, t);
    }
    hide SlotVal, Shape, GrowIndirect;
    GrownOwned(sb, st, st', inum, s, b);
  }

  lemma GrowIndirectShape(sb: Superblock, st: State, inum: nat, s: nat, b: nat)
    requires Shapes(sb, st) && Backed(sb, st) && inum < |st.inodes| && NDIRECT < s < SLOTS
    requires var t := st.inodes[inum].addrs[NDIRECT];
             t in st.own && st.own[t].slot == NDIRECT && DataStart(sb) <= t < sb.size
    requires DataStart(sb) <= b < sb.size && b !in st.own
    ensures BitBlock(sb, b) < |st.disk|
    ensures var st' := GrowIndirect(sb, st, inum, s, b);
            && Shapes(sb, st') && DataKept(sb, st, st') && OthersKept(st, st', inum) && st'.disk[b] == ZeroBlock()
            && st'.own == st.own[b := Place(inum, s)]
            && forall c: nat :: c < sb.size ==> (Used(sb, st'.disk, c) <==> c == b || Used(sb, st.disk, c))
  {
    AllocDisk(sb, st.disk, b);
    var st' := GrowIndirect(sb, st, inum, s, b);
    hide Alloc, Used, PutWord;
    forall c: nat | c < sb.size ensures Used(sb, st'.disk, c) <==> c == b || Used(sb, st.disk, c) {
      UsedFrame(sb, Alloc(sb, st.disk, b), st'.disk, c);
    }
  }

  /** Inode inum may have got more blocks, all zero; every block number there was, and all file data, stay. */
  ghost predicate Extends(sb: Superblock, st: State, st': State, inum: nat)
    requires Shapes(sb, st) && Shapes(sb, st')
  {
    && OthersKept(st, st', inum) && DataKept(sb, st, st')
    && (forall c: nat :: c in st.own ==> c in st'.own && st'.own[c] == st.own[c])
    && (forall c: nat :: c in st'.own && c !in st.own ==> st'.own[c].inum == inum)
    && (forall c: nat :: c in st'.own && c !in st.own && st'.own[c].slot != NDIRECT && c < sb.size ==>
         st'.disk[c] == ZeroBlock())
    && (forall i: nat, t: nat {:trigger SlotVal(st'.disk, st'.inodes[i], t)} :: i < |st.inodes| && t < SLOTS ==>
          || SlotVal(st'.disk, st'.inodes[i], t) == SlotVal(st.disk, st.inodes[i], t)
          || (i == inum && SlotVal(st.disk, st.inodes[i], t) == 0 && SlotVal(st'.disk, st'.inodes[i], t) !in st.own))
  }

  lemma ExtendsSelf(sb: Superblock, st: State, inum: nat)
    requires Shapes(sb, st) && inum < |st.inodes|
    ensures Extends(sb, st, st, inum)
  {
  }

  lemma GrownExtends(sb: Superblock, st: State, st': State, inum: nat, s: nat, b: nat)
    requires Shapes(sb, st) && Shapes(sb, st') && Grown(sb, st, st', inum, s, b)
    requires SlotVal(st.disk, st.inodes[inum], s) == 0
    ensures Extends(sb, st, st', inum)
  {
    hide SlotVal, Shapes;
  }

  lemma ExtendsTrans(sb: Superblock, st: State, st1: State, st2: State, inum: nat)
    requires Owned(sb, st) && Owned(sb, st1) && Owned(sb, st2) && Extends(sb, st, st1, inum)
    requires Extends(sb, st1, st2, inum)
    ensures Extends(sb, st, st2, inum)
  {
    hide SlotVal, MapOk;
  }
}
