/** Writing bytes into the blocks of a file (the loop of writei in kernel/src/fs.c), on states. */
module FsWrite {
  import opened Blocks
  import opened FsLayout
  import opened FsState
  import opened FsGrow

  const LIMIT: nat := 274432  // MAXFILE * BSIZE

  /** The block of byte k is there. */
  predicate Mapped(st: State, i: nat, k: nat)
    requires AllShaped(st.inodes) && i < |st.inodes| && k < LIMIT
  {
    SlotVal(st.disk, st.inodes[i], Slot(k / BSIZE)) != 0
  }

  function At(st: State, i: nat, k: nat): Byte
    requires AllShaped(st.inodes) && i < |st.inodes| && k < LIMIT
  {
    ByteAt(st.disk, st.inodes[i], k)
  }

  /** From st to st' the bytes at off became data; all other bytes stayed, in every file and past its end. */
  ghost predicate Written(sb: Superblock, st: State, st': State, inum: nat, off: nat, data: seq<Byte>)
    requires Shapes(sb, st) && Shapes(sb, st')
  {
    && OthersKept(st, st', inum) && off + |data| <= LIMIT
    && (forall c: nat :: c < sb.bmapstart ==> st'.disk[c] == st.disk[c])
    && (forall i: nat, k: nat {:trigger Mapped(st', i, k)} :: i < |st.inodes| && k < LIMIT && Mapped(st, i, k) ==>
         Mapped(st', i, k))
    && (forall k: nat {:trigger Mapped(st', inum, k)} :: off <= k < off + |data| ==> Mapped(st', inum, k))
    && (forall i: nat, k: nat {:trigger At(st', i, k)} ::
         i < |st.inodes| && k < LIMIT && !(i == inum && off <= k < off + |data|) ==>
          At(st', i, k) == At(st, i, k))
    && (forall k: nat {:trigger At(st', inum, k)} :: off <= k < off + |data| ==> At(st', inum, k) == data[k - off])
  }

  lemma WrittenNothing(sb: Superblock, st: State, inum: nat, off: nat)
    requires Shapes(sb, st) && inum < |st.inodes| && off <= LIMIT
    ensures Written(sb, st, st, inum, off, [])
  {
    hide Mapped, At;
  }

  lemma WrittenThen(sb: Superblock, st: State, st1: State, st2: State, inum: nat, off: nat, a: seq<Byte>, b: seq<Byte>)
    requires Shapes(sb, st) && Shapes(sb, st1) && Shapes(sb, st2)
    requires Written(sb, st, st1, inum, off, a) && Written(sb, st1, st2, inum, off + |a|, b)
    ensures Written(sb, st, st2, inum, off, a + b)
  {
    hide Mapped, At, Shape, Fits;
    forall i: nat, k: nat | i < |st.inodes| && k < LIMIT && Mapped(st, i, k) ensures Mapped(st2, i, k) {
      assert Mapped(st1, i, k);
    }
    forall k: nat | off <= k < off + |a + b|
      ensures Mapped(st2, inum, k) && At(st2, inum, k) == (a + b)[k - off]
    {
      if k < off + |a| {
        assert Mapped(st1, inum, k) && At(st1, inum, k) == a[k - off];
      }
    }
    forall i: nat, k: nat | i < |st.inodes| && k < LIMIT && !(i == inum && off <= k < off + |a + b|)
      ensures At(st2, i, k) == At(st, i, k)
    {
      assert At(st1, i, k) == At(st, i, k);
    }
  }

  lemma ExtendsByte(sb: Superblock, st: State, st': State, inum: nat, i: nat, k: nat)
    requires Owned(sb, st) && Owned(sb, st') && Extends(sb, st, st', inum) && i < |st.inodes| && k < LIMIT
    ensures (Mapped(st, i, k) ==> Mapped(st', i, k)) && At(st', i, k) == At(st, i, k)
  {
    hide SlotVal, MapOk;
    var s := Slot(k / BSIZE);
    var b: nat, b': nat := SlotVal(st.disk, st.inodes[i], s), SlotVal(st'.disk, st'.inodes[i], s);
    if b != 0 {
      assert b' == b && b in st.own && st.own[b] == Place(i, s) && s != NDIRECT;
    } else if b' != 0 {
      assert b' in st'.own && st'.own[b'] == Place(i, s) && b' !in st.own;
    }
  }

  /** Growing a file keeps its bytes and everyone else's. */
  lemma ExtendsWrites(sb: Superblock, st: State, st': State, inum: nat, off: nat)
    requires Owned(sb, st) && Owned(sb, st') && Extends(sb, st, st', inum) && off <= LIMIT
    ensures Written(sb, st, st', inum, off, [])
  {
    hide SlotVal, MapOk;
    forall i: nat, k: nat | i < |st.inodes| && k < LIMIT
      ensures (Mapped(st, i, k) ==> Mapped(st', i, k)) && At(st', i, k) == At(st, i, k)
    {
      ExtendsByte(sb, st, st', inum, i, k);
    }
  }

  function Patched(blk: Block, from: nat, data: seq<Byte>): Block
    requires from + |data| <= BSIZE
  {
    blk[..from] + data + blk[from + |data|..]
  }

  /** Overwriting part of a file block changes those bytes of that file and nothing else. */
  lemma PatchKeeps(sb: Superblock, st: State, st': State, inum: nat, bn: nat, from: nat, data: seq<Byte>)
    requires Owned(sb, st) && inum < |st.inodes| && bn < MAXFILE && from + |data| <= BSIZE
    requires var b := SlotVal(st.disk, st.inodes[inum], Slot(bn));
             0 < b < sb.size && st' == st.(disk := st.disk[b := Patched(st.disk[b], from, data)])
    ensures forall i: nat, s: nat {:trigger SlotVal(st'.disk, st'.inodes[i], s)} :: i < |st.inodes| && s < SLOTS ==>
              SlotVal(st'.disk, st'.inodes[i], s) == SlotVal(st.disk, st.inodes[i], s)
    ensures Owned(sb, st')
  {
    var b: nat := SlotVal(st.disk, st.inodes[inum], Slot(bn));
    assert st.own[b] == Place(inum, Slot(bn)) && b >= DataStart(sb);
    forall i: nat, s: nat | i < |st.inodes| && s < SLOTS
      ensures SlotVal(st'.disk, st'.inodes[i], s) == SlotVal(st.disk, st.inodes[i], s)
    {
      if st.inodes[i].addrs[NDIRECT] != 0 {
        TableIsOwned(sb, st, i);
      }
      SameTable(st.disk, st'.disk, st.inodes[i], s);
    }
    hide SlotVal, Used, Patched, Shape;
    forall c: nat | c < sb.size ensures Used(sb, st'.disk, c) <==> Used(sb, st.disk, c) {
      UsedFrame(sb, st.disk, st'.disk, c);
    }
  }

  /** Byte k of file i after part of block bn of file inum was overwritten. */
  lemma PatchByte(sb: Superblock, st: State, st': State, inum: nat, bn: nat, from: nat, data: seq<Byte>, i: nat, k: nat)
    requires Owned(sb, st) && inum < |st.inodes| && bn < MAXFILE && from + |data| <= BSIZE && i < |st.inodes|
    requires k < LIMIT
    requires var b := SlotVal(st.disk, st.inodes[inum], Slot(bn));
             0 < b < sb.size && st' == st.(disk := st.disk[b := Patched(st.disk[b], from, data)])
    requires SlotVal(st'.disk, st'.inodes[i], Slot(k / BSIZE)) == SlotVal(st.disk, st.inodes[i], Slot(k / BSIZE))
    ensures var off := bn * BSIZE + from;
            At(st', i, k) == if i == inum && off <= k < off + |data| then data[k - off] else At(st, i, k)
  {
    var b: nat, c: nat := SlotVal(st.disk, st.inodes[inum], Slot(bn)), SlotVal(st.disk, st.inodes[i], Slot(k / BSIZE));
    if c == b {
      OneOwner(sb, st, inum, Slot(bn), i, Slot(k / BSIZE));
    }
    ChunkOf(bn, from, |data|, k);
    hide SlotVal, Owned;
  }

  lemma ChunkOf(bn: nat, from: nat, n: nat, k: nat)
    requires from + n <= BSIZE
    ensures k / BSIZE == bn && from <= k % BSIZE < from + n <==> bn * BSIZE + from <= k < bn * BSIZE + from + n
  {
  }

  lemma PatchBytes(sb: Superblock, st: State, st': State, inum: nat, bn: nat, from: nat, data: seq<Byte>)
    requires Owned(sb, st) && inum < |st.inodes| && bn < MAXFILE && from + |data| <= BSIZE
    requires var b := SlotVal(st.disk, st.inodes[inum], Slot(bn));
             0 < b < sb.size && st' == st.(disk := st.disk[b := Patched(st.disk[b], from, data)])
    ensures forall i: nat, k: nat {:trigger At(st', i, k)} {:trigger Mapped(st', i, k)} ::
              i < |st.inodes| && k < LIMIT ==>
              && (Mapped(st, i, k) ==> Mapped(st', i, k))
              && var off := bn * BSIZE + from;
                 At(st', i, k) == if i == inum && off <= k < off + |data| then data[k - off] else At(st, i, k)
  {
    forall i: nat, k: nat | i < |st.inodes| && k < LIMIT
      ensures Mapped(st, i, k) ==> Mapped(st', i, k)
      ensures var off := bn * BSIZE + from;
              At(st', i, k) == if i == inum && off <= k < off + |data| then data[k - off] else At(st, i, k)
    {
      PatchKeeps(sb, st, st', inum, bn, from, data);
      hide MapOk, Recorded, Backed, SlotVal, Patched, At;
      PatchByte(sb, st, st', inum, bn, from, data, i, k);
    }
  }

  lemma PatchWrites(sb: Superblock, st: State, st': State, inum: nat, bn: nat, from: nat, data: seq<Byte>)
    requires Owned(sb, st) && inum < |st.inodes| && bn < MAXFILE && from + |data| <= BSIZE
    requires var b := SlotVal(st.disk, st.inodes[inum], Slot(bn));
             0 < b < sb.size && st' == st.(disk := st.disk[b := Patched(st.disk[b], from, data)])
    ensures Owned(sb, st') && Written(sb, st, st', inum, bn * BSIZE + from, data)
  {
    PatchKeeps(sb, st, st', inum, bn, from, data);
    PatchElsewhere(sb, st, st', inum, bn, from, data);
    PatchBytes(sb, st, st', inum, bn, from, data);
    var off := bn * BSIZE + from;
    forall k: nat | off <= k < off + |data| ensures Mapped(st, inum, k) {
      ChunkOf(bn, from, |data|, k);
    }
    hide MapOk, Recorded, Backed, SlotVal, Patched, At, Mapped;
  }

  lemma PatchElsewhere(sb: Superblock, st: State, st': State, inum: nat, bn: nat, from: nat, data: seq<Byte>)
    requires Owned(sb, st) && inum < |st.inodes| && bn < MAXFILE && from + |data| <= BSIZE
    requires var b := SlotVal(st.disk, st.inodes[inum], Slot(bn));
             0 < b < sb.size && st' == st.(disk := st.disk[b := Patched(st.disk[b], from, data)])
    ensures forall c: nat :: c < sb.bmapstart ==> st'.disk[c] == st.disk[c]
    ensures OthersKept(st, st', inum)
  {
    var b: nat := SlotVal(st.disk, st.inodes[inum], Slot(bn));
    assert b in st.own && b >= DataStart(sb) > sb.bmapstart;
    hide SlotVal, Owned, Patched;
  }
}
