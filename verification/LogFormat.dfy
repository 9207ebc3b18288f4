/**
 The on-disk write-ahead log (kernel/src/log.c): the header block, the install loop and recovery,
 as functions on whole disks. Crashes are modelled by stopping after any block write.
 */
module LogFormat {
  import opened Blocks

  const MAXOPBLOCKS: nat := 10
  const LOGBLOCKS: nat := 30

  /** The log region is the header at `start` followed by LOGBLOCKS - 1 slots. */
  predicate InLog(start: nat, b: nat) {
    start <= b < start + LOGBLOCKS
  }

  /** A list of home blocks that a transaction may carry: it fits the slots and stays off the log. */
  predicate HeaderFits(start: nat, size: nat, hdr: seq<nat>) {
    && start + LOGBLOCKS <= size <= WORD_LIMIT
    && |hdr| < LOGBLOCKS
    && forall t :: 0 <= t < |hdr| ==> hdr[t] < size && !InLog(start, hdr[t])
  }

  /** read_head: the block numbers recorded in a header block. */
  function Header(b: Block): seq<nat>
    requires GetWord(b, 0) <= LOGBLOCKS
  {
    seq(GetWord(b, 0), i requires 0 <= i < GetWord(b, 0) => GetWord(b, i + 1))
  }

  /** write_head: the loop that stores the first k block numbers over the buffered header. */
  function PutEntries(b: Block, hdr: seq<nat>, k: nat): Block
    requires k <= |hdr| <= LOGBLOCKS
    requires forall t :: 0 <= t < |hdr| ==> hdr[t] < WORD_LIMIT
  {
    if k == 0 then b else PutWord(PutEntries(b, hdr, k - 1), k, hdr[k - 1])
  }

  function PutHeader(b: Block, hdr: seq<nat>): Block
    requires |hdr| <= LOGBLOCKS
    requires forall t :: 0 <= t < |hdr| ==> hdr[t] < WORD_LIMIT
  {
    PutEntries(PutWord(b, 0, |hdr|), hdr, |hdr|)
  }

  lemma {:induction false} PutEntriesWords(b: Block, hdr: seq<nat>, k: nat)
    requires k <= |hdr| <= LOGBLOCKS
    requires forall t :: 0 <= t < |hdr| ==> hdr[t] < WORD_LIMIT
    ensures GetWord(PutEntries(b, hdr, k), 0) == GetWord(b, 0)
    ensures forall t: nat :: t < k ==> GetWord(PutEntries(b, hdr, k), t + 1) == hdr[t]
  {
    if k > 0 {
      PutEntriesWords(b, hdr, k - 1);
      PutGetWord(PutEntries(b, hdr, k - 1), k, hdr[k - 1]);
    }
  }

  /** What write_head stores is what read_head reads, whatever the buffer held before. */
  lemma HeaderRoundTrip(b: Block, hdr: seq<nat>)
    requires |hdr| <= LOGBLOCKS
    requires forall t :: 0 <= t < |hdr| ==> hdr[t] < WORD_LIMIT
    ensures GetWord(PutHeader(b, hdr), 0) == |hdr|
    ensures Header(PutHeader(b, hdr)) == hdr
  {
    PutGetWord(b, 0, |hdr|);
    PutEntriesWords(PutWord(b, 0, |hdr|), hdr, |hdr|);
  }

  /** install_trans after k iterations: slot t is copied to its home block. */
  function Install(d: Disk, start: nat, hdr: seq<nat>, k: nat): (r: Disk)
    requires HeaderFits(start, |d|, hdr) && k <= |hdr|
    ensures |r| == |d|
  {
    if k == 0 then d else
    var prev := Install(d, start, hdr, k - 1);
    prev[hdr[k - 1] := prev[start + k]]
  }

  /** write_log after k iterations: slot t receives data[t]. */
  function FillSlots(d: Disk, start: nat, data: seq<Block>, k: nat): (r: Disk)
    requires start + LOGBLOCKS <= |d| && k <= |data| < LOGBLOCKS
    ensures |r| == |d|
  {
    if k == 0 then d else FillSlots(d, start, data, k - 1)[start + k := data[k - 1]]
  }

  /** A disk whose header can be read back by recovery. */
  predicate Recoverable(start: nat, d: Disk) {
    && start + LOGBLOCKS <= |d| <= WORD_LIMIT
    && GetWord(d[start], 0) < LOGBLOCKS
    && HeaderFits(start, |d|, Header(d[start]))
  }

  function ClearHeader(start: nat, d: Disk): (r: Disk)
    requires start < |d|
    ensures |r| == |d|
  {
    d[start := PutHeader(d[start], [])]
  }

  /** recover_from_log run to completion. */
  function Recover(start: nat, d: Disk): (r: Disk)
    requires Recoverable(start, d)
    ensures |r| == |d|
  {
    var hdr := Header(d[start]);
    ClearHeader(start, Install(d, start, hdr, |hdr|))
  }

  /** Two disks agree on every block outside the log. */
  predicate SameHome(start: nat, d: Disk, e: Disk) {
    && |d| == |e|
    && forall b: nat :: b < |d| && !InLog(start, b) ==> d[b] == e[b]
  }

  /** The last position below k at which hdr names b, or -1. */
  function LastIndex(hdr: seq<nat>, b: nat, k: nat): (t: int)
    requires k <= |hdr|
    ensures -1 <= t < k
    ensures t >= 0 ==> hdr[t] == b
    ensures forall u :: t < u < k ==> hdr[u] != b
  {
    if k == 0 then -1 else if hdr[k - 1] == b then k - 1 else LastIndex(hdr, b, k - 1)
  }

  /** Closed form of the install loop: the last slot naming a block wins, the log is untouched. */
  lemma {:induction false} InstallAt(d: Disk, start: nat, hdr: seq<nat>, k: nat, b: nat)
    requires HeaderFits(start, |d|, hdr) && k <= |hdr| && b < |d|
    ensures var t := LastIndex(hdr, b, k);
            Install(d, start, hdr, k)[b] == if t >= 0 then d[start + 1 + t] else d[b]
    ensures InLog(start, b) ==> Install(d, start, hdr, k)[b] == d[b]
  {
    if k > 0 {
      InstallAt(d, start, hdr, k - 1, b);
      InstallAt(d, start, hdr, k - 1, start + k);
    }
  }

  /** Re-running the install loop after any number of its writes gives the same disk. */
  lemma InstallAgain(d: Disk, start: nat, hdr: seq<nat>, j: nat)
    requires HeaderFits(start, |d|, hdr) && j <= |hdr|
    ensures Install(Install(d, start, hdr, j), start, hdr, |hdr|) == Install(d, start, hdr, |hdr|)
  {
    var e := Install(d, start, hdr, j);
    forall b: nat | b < |d|
      ensures Install(e, start, hdr, |hdr|)[b] == Install(d, start, hdr, |hdr|)[b]
    {
      InstallAt(d, start, hdr, j, b);
      InstallAt(d, start, hdr, |hdr|, b);
      InstallAt(e, start, hdr, |hdr|, b);
      var t := LastIndex(hdr, b, |hdr|);
      if t >= 0 {
        InstallAt(d, start, hdr, j, start + 1 + t);
      }
    }
  }

  lemma {:induction false} FillSlotsAt(d: Disk, start: nat, data: seq<Block>, k: nat, b: nat)
    requires start + LOGBLOCKS <= |d| && k <= |data| < LOGBLOCKS && b < |d|
    ensures FillSlots(d, start, data, k)[b] == if start < b <= start + k then data[b - start - 1] else d[b]
  {
    if k > 0 {
      FillSlotsAt(d, start, data, k - 1, b);
    }
  }

  /** How far one attempt at recovery got before the machine stopped. */
  datatype Stop = AfterInstalls(n: nat) | AfterClear

  /** The disk left behind by an attempt at recovery. */
  function Attempt(start: nat, d: Disk, stop: Stop): (r: Disk)
    requires Recoverable(start, d)
    ensures |r| == |d|
  {
    var hdr := Header(d[start]);
    match stop
    case AfterInstalls(n) => Install(d, start, hdr, Min(n, |hdr|))
    case AfterClear => Recover(start, d)
  }

  /** Closed form of recovery outside the log. */
  lemma RecoverAt(start: nat, d: Disk, b: nat)
    requires Recoverable(start, d) && b < |d| && !InLog(start, b)
    ensures var hdr := Header(d[start]);
            var t := LastIndex(hdr, b, |hdr|);
            Recover(start, d)[b] == if t >= 0 then d[start + 1 + t] else d[b]
  {
    InstallAt(d, start, Header(d[start]), |Header(d[start])|, b);
  }

  /** A cleared log recovers to itself. */
  lemma RecoverEmpty(start: nat, d: Disk)
    requires Recoverable(start, d) && GetWord(d[start], 0) == 0
    ensures SameHome(start, Recover(start, d), d)
  {
  }

  lemma ClearedIsRecoverable(start: nat, d: Disk)
    requires start + LOGBLOCKS <= |d| <= WORD_LIMIT
    ensures Recoverable(start, ClearHeader(start, d))
    ensures GetWord(ClearHeader(start, d)[start], 0) == 0
    ensures SameHome(start, ClearHeader(start, d), d)
    ensures SameHome(start, Recover(start, ClearHeader(start, d)), d)
  {
    HeaderRoundTrip(d[start], []);
    RecoverEmpty(start, ClearHeader(start, d));
  }

  /** Stopping recovery after any of its writes leaves a disk that recovers to the same contents. */
  lemma AttemptIsHarmless(start: nat, d: Disk, stop: Stop)
    requires Recoverable(start, d)
    ensures Recoverable(start, Attempt(start, d, stop))
    ensures SameHome(start, Recover(start, Attempt(start, d, stop)), Recover(start, d))
  {
    var hdr := Header(d[start]);
    match stop
    case AfterInstalls(n) =>
      var j := Min(n, |hdr|);
      InstallAt(d, start, hdr, j, start);
      InstallAgain(d, start, hdr, j);
    case AfterClear =>
      ClearedIsRecoverable(start, Install(d, start, hdr, |hdr|));
  }

  /** What a committed transaction means: each listed home block holds its data, the last one winning. */
  function Apply(d: Disk, hdr: seq<nat>, data: seq<Block>, k: nat): (r: Disk)
    requires |hdr| == |data| && k <= |hdr|
    requires forall t :: 0 <= t < |hdr| ==> hdr[t] < |d|
    ensures |r| == |d|
  {
    if k == 0 then d else Apply(d, hdr, data, k - 1)[hdr[k - 1] := data[k - 1]]
  }

  lemma {:induction false} ApplyAt(d: Disk, hdr: seq<nat>, data: seq<Block>, k: nat, b: nat)
    requires |hdr| == |data| && k <= |hdr| && b < |d|
    requires forall t :: 0 <= t < |hdr| ==> hdr[t] < |d|
    ensures Apply(d, hdr, data, k)[b] ==
            var t := LastIndex(hdr, b, k); if t >= 0 then data[t] else d[b]
  {
    if k > 0 {
      ApplyAt(d, hdr, data, k - 1, b);
    }
  }

  /** Writing log slots leaves an empty log empty: a crash there recovers to the old disk. */
  lemma FillIsInvisible(start: nat, d: Disk, data: seq<Block>, k: nat)
    requires Recoverable(start, d) && GetWord(d[start], 0) == 0 && k <= |data| < LOGBLOCKS
    ensures Recoverable(start, FillSlots(d, start, data, k))
    ensures SameHome(start, Recover(start, FillSlots(d, start, data, k)), d)
  {
    var e := FillSlots(d, start, data, k);
    FillSlotsAt(d, start, data, k, start);
    RecoverEmpty(start, e);
    forall b: nat | b < |d| && !InLog(start, b) ensures e[b] == d[b] {
      FillSlotsAt(d, start, data, k, b);
    }
  }

  /** A disk that carries hdr in its header and data in its slots recovers to the whole transaction. */
  lemma LoggedRecovers(start: nat, d: Disk, hdr: seq<nat>, data: seq<Block>, e: Disk)
    requires HeaderFits(start, |d|, hdr) && |hdr| == |data|
    requires Recoverable(start, e) && Header(e[start]) == hdr && SameHome(start, e, d)
    requires forall t :: 0 <= t < |hdr| ==> e[start + 1 + t] == data[t]
    ensures SameHome(start, Recover(start, e), Apply(d, hdr, data, |hdr|))
  {
    forall b: nat | b < |d| && !InLog(start, b)
      ensures Recover(start, e)[b] == Apply(d, hdr, data, |hdr|)[b]
    {
      RecoverAt(start, e, b);
      ApplyAt(d, hdr, data, |hdr|, b);
    }
  }

  /** The header write is the commit point: from there on recovery yields the whole new disk. */
  lemma HeaderCommits(start: nat, d: Disk, hdr: seq<nat>, data: seq<Block>, was: Block)
    requires HeaderFits(start, |d|, hdr) && |hdr| == |data|
    ensures var e := FillSlots(d, start, data, |data|)[start := PutHeader(was, hdr)];
            && Recoverable(start, e)
            && Header(e[start]) == hdr
            && SameHome(start, Recover(start, e), Apply(d, hdr, data, |hdr|))
  {
    var f := FillSlots(d, start, data, |data|);
    var e := f[start := PutHeader(was, hdr)];
    HeaderRoundTrip(was, hdr);
    forall b: nat | b < |d| && b != start
      ensures e[b] == if start < b <= start + |data| then data[b - start - 1] else d[b]
    {
      FillSlotsAt(d, start, data, |data|, b);
    }
    LoggedRecovers(start, d, hdr, data, e);
  }
}
