/** Which blocks an operation passes to log_write (kernel/src/log.c), and how many they can be. */
module FsTrail {
  import opened Blocks
  import opened Collections
  import opened FsLayout
  import opened FsState
  import opened FsGrow

  /** The logical disk with the blocks that were passed to log_write on the way to it. */
  datatype Trail = Trail(disk: Disk, logged: set<nat>)

  /** From a to b only logged blocks changed, and what was logged meanwhile lies in x. */
  ghost predicate Traced(a: Trail, b: Trail, x: set<nat>) {
    && |b.disk| == |a.disk| && a.logged <= b.logged <= a.logged + x
    && forall c: nat :: c < |a.disk| && c !in b.logged ==> b.disk[c] == a.disk[c]
  }

  lemma TracedThen(a: Trail, b: Trail, c: Trail, x: set<nat>, y: set<nat>)
    requires Traced(a, b, x) && Traced(b, c, y) && x <= y
    ensures Traced(a, c, y)
  {
  }

  lemma TracedSelf(a: Trail, x: set<nat>)
    ensures Traced(a, a, x)
  {
  }

  lemma TracedWithin(a: Trail, b: Trail, x: set<nat>, y: set<nat>)
    requires Traced(a, b, x) && x <= y
    ensures Traced(a, b, y)
  {
  }

  /** The blocks of the bitmap. */
  function Bitmap(sb: Superblock): set<nat> {
    set b: nat | b < sb.size :: BitBlock(sb, b)
  }

  /** A block written to the log after that. */
  lemma WriteTraced(a: Trail, b: Trail, c: nat, blk: Block, x: set<nat>)
    requires Traced(a, b, x) && c < |b.disk|
    ensures Traced(a, Trail(b.disk[c := blk], b.logged + {c}), x + {c})
  {
  }

  lemma AllocTraced(sb: Superblock, a: Trail, b: nat)
    requires Fits(sb) && |a.disk| == sb.size && b < sb.size
    ensures BitBlock(sb, b) < sb.size
    ensures Traced(a, Trail(Alloc(sb, a.disk, b), a.logged + {BitBlock(sb, b), b}), Bitmap(sb) + {b})
  {
    hide MarkBit;
    BitBlockRange(sb, b);
    assert BitBlock(sb, b) in Bitmap(sb);
  }

  lemma FreeTraced(sb: Superblock, a: Trail, b: nat)
    requires Fits(sb) && |a.disk| == sb.size && b < sb.size
    ensures BitBlock(sb, b) < sb.size
    ensures Traced(a, Trail(Mark(sb, a.disk, b, false), a.logged + {BitBlock(sb, b)}), Bitmap(sb))
  {
    hide MarkBit;
    BitBlockRange(sb, b);
    assert BitBlock(sb, b) in Bitmap(sb);
  }

  // The blocks of a file.

  /** The blocks on the way to the bn-th block of an inode, itself included. */
  function Spot(st: State, inum: nat, bn: nat): set<nat>
    requires AllShaped(st.inodes) && inum < |st.inodes| && bn < MAXFILE
  {
    if bn < NDIRECT then {SlotVal(st.disk, st.inodes[inum], Slot(bn))}
    else {SlotVal(st.disk, st.inodes[inum], Slot(bn)), SlotVal(st.disk, st.inodes[inum], NDIRECT)}
  }

  /** The data blocks of a range of a file. */
  function Slots(st: State, inum: nat, lo: nat, hi: nat): set<nat>
    requires AllShaped(st.inodes) && inum < |st.inodes|
  {
    set bn: nat | lo <= bn < hi && bn < MAXFILE :: SlotVal(st.disk, st.inodes[inum], Slot(bn))
  }

  /** The blocks on the way to a range of a file, themselves included. */
  function Spots(st: State, inum: nat, lo: nat, hi: nat): set<nat>
    requires AllShaped(st.inodes) && inum < |st.inodes|
  {
    if hi <= NDIRECT || hi <= lo then Slots(st, inum, lo, hi)
    else Slots(st, inum, lo, hi) + {SlotVal(st.disk, st.inodes[inum], NDIRECT)}
  }

  /** A range of n blocks takes n blocks, and the table where it reaches past the direct ones. */
  lemma SpotsSize(st: State, inum: nat, lo: nat, hi: nat)
    requires AllShaped(st.inodes) && inum < |st.inodes| && lo <= hi
    ensures |Spots(st, inum, lo, hi)| <= hi - lo + if hi <= NDIRECT then 0 else 1
  {
    hide SlotVal;
    SlotsSize(st, inum, lo, hi);
  }

  lemma {:induction false} SlotsSize(st: State, inum: nat, lo: nat, hi: nat)
    requires AllShaped(st.inodes) && inum < |st.inodes| && lo <= hi
    ensures |Slots(st, inum, lo, hi)| <= hi - lo
    decreases hi
  {
    hide SlotVal;
    if lo < hi {
      SlotsSize(st, inum, lo, hi - 1);
      if hi - 1 < MAXFILE {
        assert Slots(st, inum, lo, hi) == Slots(st, inum, lo, hi - 1)
                                          + {SlotVal(st.disk, st.inodes[inum], Slot(hi - 1))};
      } else {
        assert Slots(st, inum, lo, hi) == Slots(st, inum, lo, hi - 1);
      }
    } else {
      assert Slots(st, inum, lo, hi) == {};
    }
  }

  /** The blocks that inode inum had stay where they are. */
  ghost predicate SlotsStay(st: State, st': State, inum: nat)
    requires AllShaped(st.inodes) && AllShaped(st'.inodes) && inum < |st.inodes| && inum < |st'.inodes|
  {
    forall s: nat {:trigger SlotVal(st'.disk, st'.inodes[inum], s)} ::
      s < SLOTS && SlotVal(st.disk, st.inodes[inum], s) != 0 ==>
        SlotVal(st'.disk, st'.inodes[inum], s) == SlotVal(st.disk, st.inodes[inum], s)
  }

  /** The range is there. */
  ghost predicate Present(st: State, inum: nat, lo: nat, hi: nat)
    requires AllShaped(st.inodes) && inum < |st.inodes|
  {
    && (forall bn: nat {:trigger Slot(bn)} :: lo <= bn < hi && bn < MAXFILE ==>
          SlotVal(st.disk, st.inodes[inum], Slot(bn)) != 0)
    && (lo < hi && NDIRECT < hi ==> SlotVal(st.disk, st.inodes[inum], NDIRECT) != 0)
  }

  /** One more block of a range. */
  lemma SpotsGrow(st: State, st': State, inum: nat, lo: nat, bn: nat)
    requires AllShaped(st.inodes) && AllShaped(st'.inodes) && inum < |st.inodes| && inum < |st'.inodes|
    requires lo <= bn < MAXFILE && Present(st, inum, lo, bn) && SlotsStay(st, st', inum)
    requires SlotVal(st'.disk, st'.inodes[inum], Slot(bn)) != 0
    ensures Spots(st, inum, lo, bn) <= Spots(st', inum, lo, bn + 1)
    ensures Spot(st', inum, bn) <= Spots(st', inum, lo, bn + 1) && Present(st', inum, lo, bn + 1)
  {
  }

  // What an operation logs, in numbers.

  /** From a to b the bitmap, the blocks of inodes i and j and n others were logged at most. */
  ghost predicate Logs(sb: Superblock, a: Trail, b: Trail, i: nat, j: nat, n: nat) {
    exists x: set<nat> :: |x| <= n && Traced(a, b, Bitmap(sb) + {InodeBlock(sb, i), InodeBlock(sb, j)} + x)
  }

  lemma LogsNothing(sb: Superblock, a: Trail, i: nat, j: nat, n: nat)
    ensures Logs(sb, a, a, i, j, n)
  {
    TracedSelf(a, Bitmap(sb) + {InodeBlock(sb, i), InodeBlock(sb, j)} + {});
  }

  lemma LogsInode(sb: Superblock, a: Trail, b: Trail, i: nat)
    requires Traced(a, b, Bitmap(sb) + {InodeBlock(sb, i)}) || Traced(a, b, {InodeBlock(sb, i)})
    ensures Logs(sb, a, b, i, i, 0)
  {
    hide Bitmap, InodeBlock;
    assert Traced(a, b, Bitmap(sb) + {InodeBlock(sb, i), InodeBlock(sb, i)} + {});
  }

  lemma LogsBy(sb: Superblock, a: Trail, b: Trail, i: nat, x: set<nat>)
    requires Traced(a, b, Bitmap(sb) + {InodeBlock(sb, i)} + x)
    ensures Logs(sb, a, b, i, i, |x|)
  {
    hide Bitmap, InodeBlock, Traced;
    assert {InodeBlock(sb, i), InodeBlock(sb, i)} == {InodeBlock(sb, i)};
  }

  /** An operation on inode i or j or both, whose steps log n and m other blocks. */
  lemma LogsThen(sb: Superblock, a: Trail, b: Trail, c: Trail, i: nat, j: nat, n: nat, m: nat)
    requires Logs(sb, a, b, i, j, n)
    requires Logs(sb, b, c, i, j, m) || Logs(sb, b, c, i, i, m) || Logs(sb, b, c, j, j, m)
    ensures Logs(sb, a, c, i, j, n + m)
  {
    hide Logs;
    if Logs(sb, b, c, i, i, m) {
      LogsJoin(sb, a, b, c, i, j, n, i, i, m);
    } else if Logs(sb, b, c, j, j, m) {
      LogsJoin(sb, a, b, c, i, j, n, j, j, m);
    } else {
      LogsJoin(sb, a, b, c, i, j, n, i, j, m);
    }
  }

  lemma Widen(p: set<nat>, h: set<nat>, h': set<nat>, x: set<nat>, y: set<nat>)
    requires h' <= h
    ensures p + h + x <= p + h + (x + y) && p + h' + y <= p + h + (x + y)
  {
  }

  lemma LogsJoin(sb: Superblock, a: Trail, b: Trail, c: Trail, i: nat, j: nat, n: nat, i': nat, j': nat, m: nat)
    requires Logs(sb, a, b, i, j, n) && Logs(sb, b, c, i', j', m) && i' in {i, j} && j' in {i, j}
    ensures Logs(sb, a, c, i, j, n + m)
  {
    var h, h' := {InodeBlock(sb, i), InodeBlock(sb, j)}, {InodeBlock(sb, i'), InodeBlock(sb, j')};
    var x: set<nat> :| |x| <= n && Traced(a, b, Bitmap(sb) + h + x);
    var y: set<nat> :| |y| <= m && Traced(b, c, Bitmap(sb) + h' + y);
    hide Bitmap, InodeBlock, Traced;
    UnionSize(x, y);
    Widen(Bitmap(sb), h, h', x, y);
    TracedWithin(b, c, Bitmap(sb) + h' + y, Bitmap(sb) + h + (x + y));
    TracedThen(a, b, c, Bitmap(sb) + h + x, Bitmap(sb) + h + (x + y));
  }

  lemma LogsMore(sb: Superblock, a: Trail, b: Trail, i: nat, j: nat, n: nat, m: nat)
    requires Logs(sb, a, b, i, j, n) && n <= m
    ensures Logs(sb, a, b, i, j, m)
  {
  }

  lemma UnionSize<T>(x: set<T>, y: set<T>)
    ensures |x + y| <= |x| + |y|
  {
    assert |x + y| == |x| + |y - x|;
    SubsetSize(y - x, y);
  }

  /** At most n blocks were logged, and every block that changed was. */
  ghost predicate LogsAtMost(a: Trail, b: Trail, n: nat) {
    Traced(a, b, b.logged) && |b.logged - a.logged| <= n
  }

  /** The blocks that the bitmap fills. */
  function MapBlocks(sb: Superblock): nat {
    (sb.size + BPB - 1) / BPB
  }

  lemma {:induction false} MapSize(sb: Superblock, k: nat)
    ensures |set b: nat | b < sb.size && b < k * BPB :: BitBlock(sb, b)| <= k
  {
    var low := set b: nat | b < sb.size && b < k * BPB :: BitBlock(sb, b);
    if k == 0 {
      assert low == {};
    } else {
      MapSize(sb, k - 1);
      var lower := set b: nat | b < sb.size && b < (k - 1) * BPB :: BitBlock(sb, b);
      assert low <= lower + {sb.bmapstart + (k - 1)} by {
        forall b: nat | b < sb.size && b < k * BPB ensures BitBlock(sb, b) in lower + {sb.bmapstart + (k - 1)} {
          if b >= (k - 1) * BPB {
            InRow(b, k - 1);
          }
        }
      }
      SubsetSize(low, lower + {sb.bmapstart + (k - 1)});
    }
  }

  lemma InRow(b: nat, k: nat)
    requires k * BPB <= b < (k + 1) * BPB
    ensures b / BPB == k
  {
  }

  /** The number of blocks such an operation logs. */
  lemma LogsFew(sb: Superblock, a: Trail, b: Trail, i: nat, j: nat, n: nat, m: nat)
    requires Logs(sb, a, b, i, j, n) && n + (if i == j then 1 else 2) <= m
    ensures LogsAtMost(a, b, MapBlocks(sb) + m)
  {
    var h := {InodeBlock(sb, i), InodeBlock(sb, j)};
    var x: set<nat> :| |x| <= n && Traced(a, b, Bitmap(sb) + h + x);
    assert |Bitmap(sb)| <= MapBlocks(sb) by {
      MapSize(sb, MapBlocks(sb));
      assert Bitmap(sb) == set b: nat | b < sb.size && b < MapBlocks(sb) * BPB :: BitBlock(sb, b);
    }
    hide Bitmap, InodeBlock, MapBlocks;
    assert |h| <= if i == j then 1 else 2;
    UnionSize(Bitmap(sb), h);
    UnionSize(Bitmap(sb) + h, x);
    SubsetSize(b.logged - a.logged, Bitmap(sb) + h + x);
  }
}
