/**
 The state of the file system on the logical disk: who owns which block, what the bitmap says, and what
 each inode's contents are.
 */
module FsState {
  import opened Blocks
  import opened FsLayout

  /** The places of an inode that hold block numbers: 12 direct ones, the indirect table, its 256 entries. */
  const SLOTS: nat := 269

  datatype Place = Place(inum: nat, slot: nat)

  type Owners = map<nat, Place>

  /** Logical disk, in-core inodes, and for each allocated data block the place that holds its number. */
  datatype State = State(disk: Disk, inodes: seq<Inode>, own: Owners)

  /** The place of the bn-th block of a file. */
  function Slot(bn: nat): nat {
    if bn < NDIRECT then bn else bn + 1
  }

  function SlotVal(d: Disk, ino: Inode, s: nat): nat
    requires |ino.addrs| == NDIRECT + 1 && s < SLOTS
  {
    if s <= NDIRECT then ino.addrs[s]
    else if 0 < ino.addrs[NDIRECT] < |d| then GetWord(d[ino.addrs[NDIRECT]], s - NDIRECT - 1)
    else 0
  }

  predicate AllShaped(inodes: seq<Inode>) {
    forall i: nat {:trigger inodes[i]} :: i < |inodes| ==> Shape(inodes[i])
  }

  predicate Shapes(sb: Superblock, st: State) {
    Fits(sb) && |st.disk| == sb.size && |st.inodes| == sb.ninodes && AllShaped(st.inodes)
  }

  /** Every block number in an inode is recorded with its place; so no number occurs twice. */
  predicate Recorded(st: State)
    requires AllShaped(st.inodes)
  {
    forall i: nat, s: nat {:trigger SlotVal(st.disk, st.inodes[i], s)} :: i < |st.inodes| && s < SLOTS ==>
      var b := SlotVal(st.disk, st.inodes[i], s);
      b != 0 ==> b in st.own && st.own[b] == Place(i, s)
  }

  /** Every recorded block is a data block and its place does hold it. */
  predicate Backed(sb: Superblock, st: State)
    requires AllShaped(st.inodes)
  {
    forall b: nat :: b in st.own ==>
      && DataStart(sb) <= b < sb.size && st.own[b].inum < |st.inodes| && st.own[b].slot < SLOTS
      && SlotVal(st.disk, st.inodes[st.own[b].inum], st.own[b].slot) == b
  }

  /** The bitmap marks exactly the metadata blocks and the recorded ones. */
  predicate MapOk(sb: Superblock, st: State)
    requires Fits(sb) && |st.disk| == sb.size
  {
    forall b: nat :: b < sb.size ==> (Used(sb, st.disk, b) <==> b < DataStart(sb) || b in st.own)
  }

  predicate Owned(sb: Superblock, st: State) {
    Shapes(sb, st) && Recorded(st) && Backed(sb, st) && MapOk(sb, st)
  }

  /** Every block below the file size is there. */
  predicate NoHoles(d: Disk, ino: Inode)
    requires |ino.addrs| == NDIRECT + 1
  {
    && ino.size <= MAXFILE * BSIZE
    && forall bn: nat {:trigger Slot(bn)} :: bn < MAXFILE && bn * BSIZE < ino.size ==> SlotVal(d, ino, Slot(bn)) != 0
  }

  predicate Sound(sb: Superblock, st: State) {
    && Owned(sb, st)
    && forall i: nat :: i < |st.inodes| ==> NoHoles(st.disk, st.inodes[i])
  }

  /** Byte k of a file; 0 where no block is. */
  function ByteAt(d: Disk, ino: Inode, k: nat): Byte
    requires |ino.addrs| == NDIRECT + 1 && k < MAXFILE * BSIZE
  {
    var b := SlotVal(d, ino, Slot(k / BSIZE));
    if 0 < b < |d| then d[b][k % BSIZE] else 0
  }

  function Contents(d: Disk, ino: Inode): (c: seq<Byte>)
    requires |ino.addrs| == NDIRECT + 1 && ino.size <= MAXFILE * BSIZE
    ensures |c| == ino.size && forall k: nat :: k < |c| ==> c[k] == ByteAt(d, ino, k)
  {
    seq<Byte>(ino.size, k requires 0 <= k < ino.size => ByteAt(d, ino, k))
  }

  // What ownership means.

  /** No block has two owners. */
  lemma OneOwner(sb: Superblock, st: State, i: nat, s: nat, j: nat, t: nat)
    requires Owned(sb, st) && i < |st.inodes| && j < |st.inodes| && s < SLOTS && t < SLOTS
    requires SlotVal(st.disk, st.inodes[i], s) == SlotVal(st.disk, st.inodes[j], t) != 0
    ensures i == j && s == t
  {
  }

  /** A block is marked in the bitmap exactly when it is metadata or some inode refers to it. */
  lemma BitmapIsExact(sb: Superblock, st: State, b: nat)
    requires Owned(sb, st) && b < sb.size
    ensures Used(sb, st.disk, b) <==>
              (b < DataStart(sb) || exists i: nat, s: nat ::
                  i < |st.inodes| && s < SLOTS && SlotVal(st.disk, st.inodes[i], s) == b)
  {
    if b in st.own {
      var p := st.own[b];
      assert SlotVal(st.disk, st.inodes[p.inum], p.slot) == b;
    }
  }

  /** The table block of an inode is a recorded data block. */
  lemma TableIsOwned(sb: Superblock, st: State, i: nat)
    requires Owned(sb, st) && i < |st.inodes| && st.inodes[i].addrs[NDIRECT] != 0
    ensures var t := st.inodes[i].addrs[NDIRECT];
            t in st.own && st.own[t] == Place(i, NDIRECT) && DataStart(sb) <= t < sb.size
  {
    assert SlotVal(st.disk, st.inodes[i], NDIRECT) != 0;
  }

  /** Two disks with the same table block show the same block numbers. */
  lemma SameTable(d: Disk, d': Disk, ino: Inode, s: nat)
    requires |ino.addrs| == NDIRECT + 1 && s < SLOTS && |d'| == |d|
    requires 0 < ino.addrs[NDIRECT] < |d| ==> d'[ino.addrs[NDIRECT]] == d[ino.addrs[NDIRECT]]
    ensures SlotVal(d', ino, s) == SlotVal(d, ino, s)
  {
  }
}
