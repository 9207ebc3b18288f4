/**
 How much of the log a system call takes (MAXOPBLOCKS in kernel/inc/param.h), from what the file system
 operations pass to log_write to the panics of log_write over all interleavings.
 */
module LogBudget {
  import opened Blocks
  import opened FsLayout
  import opened FsState
  import opened FsTrail
  import opened FsFiles
  import opened LogFormat
  import opened GroupCommit

  /** The most blocks that link, unlink, create or one piece of a write pass to log_write. */
  function CallBudget(sb: Superblock): nat {
    MapBlocks(sb) + 6
  }

  /** The bytes that filewrite means to write in one operation. */
  const PIECE: nat := (MAXOPBLOCKS - 1 - 1 - 2) / 2 * BSIZE

  /** What writei logs: the bitmap, the inode, the table and the blocks of its range. */
  lemma WriteLogs(sb: Superblock, st: State, a: Trail, b: Trail, inum: nat, off: nat, n: nat)
    requires AllShaped(st.inodes) && inum < |st.inodes|
    requires Traced(a, b, Bitmap(sb) + {InodeBlock(sb, inum)} + Spots(st, inum, off / BSIZE, EndBlock(off, n)))
    ensures off / BSIZE <= EndBlock(off, n)
    ensures LogsAtMost(a, b, MapBlocks(sb) + 2 + (EndBlock(off, n) - off / BSIZE))
    ensures n <= PIECE ==> LogsAtMost(a, b, CallBudget(sb))
  {
    hide Traced, Bitmap, InodeBlock, Spots, Logs, LogsAtMost, MapBlocks;
    var lo, hi := off / BSIZE, EndBlock(off, n);
    RangeBlocks(off, n);
    SpotsSize(st, inum, lo, hi);
    var k := |Spots(st, inum, lo, hi)|;
    LogsBy(sb, a, b, inum, Spots(st, inum, lo, hi));
    LogsFew(sb, a, b, inum, inum, k, 2 + (hi - lo));
    if n <= PIECE {
      LogsFew(sb, a, b, inum, inum, k, 6);
    }
  }

  /** A range of n bytes meets at most one block more than n bytes fill. */
  lemma RangeBlocks(off: nat, n: nat)
    ensures off / BSIZE <= EndBlock(off, n)
    ensures n <= PIECE ==> EndBlock(off, n) <= off / BSIZE + 4
  {
    if n > 0 {
      var q, r := off / BSIZE, off % BSIZE;
      assert off + n - 1 == q * BSIZE + (r + n - 1);
    }
  }

  /** Every call stays below MAXOPBLOCKS exactly on disks with at most three bitmap blocks. */
  lemma BudgetHolds(sb: Superblock)
    ensures CallBudget(sb) < MAXOPBLOCKS <==> sb.size <= 3 * BPB
  {
  }

  /**
   With calls that log what link, unlink, create and the pieces of a write can log, log_write panics in no
   interleaving of them if and only if the disk has at most three bitmap blocks.
   */
  lemma CallsNeverOverflow(sb: Superblock, nproc: nat, size: int)
    requires nproc >= 3 && size > LOGBLOCKS
    ensures (forall g :: Reachable(g, nproc, size, CallBudget(sb)) ==> !Stuck(g, size)) <==> sb.size <= 3 * BPB
  {
    BudgetHolds(sb);
    hide CallBudget;
    LogNeverOverflows(nproc, size, CallBudget(sb));
  }
}
