/**
 The storage stack as one transition system: the disk, the buffer cache with its sleep locks, group
 commit, the commit of kernel/src/log.c, a crash at any moment and recovery, interleaved over any
 number of processes. Every block write is one step.
 */
module Storage {
  import opened Common
  import opened Collections
  import opened Blocks
  import opened LogFormat
  import opened BufferCache
  import opened CacheInvariant
  import GC = GroupCommit

  datatype Phase =
    | Open                                        // no commit under way
    | Logging(p: nat, t: nat)                     // process p commits: t slots written
    | Installing(p: nat, t: nat)                  // header written, t home blocks installed
    | Finishing(p: nat)                           // header cleared, comitting still set
    | Booting                                     // after a crash, before read_head
    | Replaying(p: nat, hdr: seq<nat>, t: nat)    // recovery: t home blocks installed

  /** start is sb.logstart, size is log.size, budget bounds the blocks one operation adds. */
  datatype Config = Config(start: nat, size: int, budget: nat)

  /** refs[i]: processes between bget and brelse on buffer i; locks[i]: holder of its sleep lock. */
  datatype State = State(
    disk: Disk, cache: Cache, refs: seq<set<nat>>, locks: seq<Option<nat>>,
    group: GC.Group, phase: Phase, view: seq<Block>)

  datatype Action =
    | Begin(p: nat)
    | End(p: nat)
    | Get(p: nat, b: nat)                         // bget: take a reference
    | Lock(p: nat, i: nat)                        // acquiresleep
    | Read(p: nat, i: nat)                        // bread: fill an invalid buffer from disk
    | Unlock(p: nat, i: nat)                      // brelse: releasesleep
    | Put(p: nat, i: nat)                         // brelse: drop the reference
    | LogWrite(p: nat, i: nat, data: Block)       // change a locked buffer, then log_write
    | WriteSlot(p: nat, i: nat, j: nat)           // write_log: buffer j to the slot in buffer i
    | WriteHead(p: nat, i: nat)                   // write_head of the transaction
    | InstallOne(p: nat, i: nat, j: nat)          // install_trans: slot in i to home block in j
    | ClearHead(p: nat, i: nat)                   // n = 0, write_head
    | Finish(p: nat)                              // comitting = 0
    | Crash(c: Cache)                             // memory is lost; binit gives cache c
    | ReadHead(p: nat, i: nat)                    // recovery: read_head
    | ReplayOne(p: nat, i: nat, j: nat)           // recovery: install_trans
    | ReplayDone(p: nat, i: nat)                  // recovery: n = 0, write_head

  predicate Holds(s: State, p: nat, i: nat, b: nat) {
    && i < |s.cache.bufs| && i < |s.locks|
    && s.locks[i] == Some(p)
    && Matches(s.cache.bufs[i], ROOTDEV, b) && s.cache.bufs[i].valid
  }

  predicate Recovering(s: State) {
    s.phase.Booting? || s.phase.Replaying?
  }

  predicate InTable(s: State, i: nat) {
    i < |s.cache.bufs| && i < |s.refs| && i < |s.locks|
  }

  predicate Enabled(cfg: Config, s: State, a: Action) {
    var start := cfg.start;
    match a
    case Begin(p) => !Recovering(s) && GC.Enabled(s.group, GC.Begin(p), cfg.size, cfg.budget)
    case End(p) => GC.Enabled(s.group, GC.End(p), cfg.size, cfg.budget)
    case Get(p, b) =>
      && WellFormed(s.cache) && b < |s.disk|
      && Bget(s.cache, ROOTDEV, b).Some?
      && InTable(s, Bget(s.cache, ROOTDEV, b).value.1) && p !in s.refs[Bget(s.cache, ROOTDEV, b).value.1]
    case Lock(p, i) => InTable(s, i) && p in s.refs[i] && s.locks[i].None?
    case Read(p, i) =>
      && InTable(s, i) && s.locks[i] == Some(p) && !s.cache.bufs[i].valid
      && s.cache.bufs[i].dev == ROOTDEV && s.cache.bufs[i].blockno < |s.disk|
    case Unlock(p, i) => InTable(s, i) && s.locks[i] == Some(p)
    case Put(p, i) =>
      && InTable(s, i) && p in s.refs[i] && s.locks[i] != Some(p)
      && WellFormed(s.cache) && s.cache.bufs[i].refcnt > 0
    case LogWrite(p, i, data) =>
      && InTable(s, i) && Holds(s, p, i, s.cache.bufs[i].blockno)
      && s.cache.bufs[i].blockno < |s.view| && !InLog(start, s.cache.bufs[i].blockno)
      && GC.Enabled(s.group, GC.Write(p, s.cache.bufs[i].blockno), cfg.size, cfg.budget)
    case WriteSlot(p, i, j) =>
      && s.phase.Logging? && s.phase.p == p && s.phase.t < |s.group.lh|
      && start + 1 + s.phase.t < |s.disk| == |s.view|
      && Holds(s, p, i, start + 1 + s.phase.t) && Holds(s, p, j, s.group.lh[s.phase.t])
    case WriteHead(p, i) =>
      && s.phase.Logging? && s.phase.p == p && s.phase.t == |s.group.lh| <= LOGBLOCKS
      && start < |s.disk| == |s.view| && Holds(s, p, i, start)
      && forall t :: 0 <= t < |s.group.lh| ==> s.group.lh[t] < WORD_LIMIT
    case InstallOne(p, i, j) =>
      && s.phase.Installing? && s.phase.p == p && s.phase.t < |s.group.lh|
      && s.group.lh[s.phase.t] < |s.disk| == |s.view|
      && Holds(s, p, i, start + 1 + s.phase.t) && Holds(s, p, j, s.group.lh[s.phase.t])
      && s.cache.bufs[j].refcnt > 0
    case ClearHead(p, i) =>
      && s.phase.Installing? && s.phase.p == p && s.phase.t == |s.group.lh|
      && start < |s.disk| == |s.view| && Holds(s, p, i, start)
      && GC.Enabled(s.group, GC.Clear, cfg.size, cfg.budget)
    case Finish(p) =>
      s.phase == Finishing(p) && GC.Enabled(s.group, GC.Finish, cfg.size, cfg.budget)
    case Crash(c) =>
      && WellFormed(c) && |c.bufs| == |s.cache.bufs|
      && forall i :: 0 <= i < |c.bufs| ==> c.bufs[i] == Buf(0, 0, false, 0, ZeroBlock())
    case ReadHead(p, i) =>
      && s.phase.Booting? && start < |s.disk| && Holds(s, p, i, start)
      && GetWord(s.cache.bufs[i].data, 0) <= LOGBLOCKS
    case ReplayOne(p, i, j) =>
      && s.phase.Replaying? && s.phase.p == p && s.phase.t < |s.phase.hdr|
      && s.phase.hdr[s.phase.t] < |s.disk| == |s.view|
      && Holds(s, p, i, start + 1 + s.phase.t) && Holds(s, p, j, s.phase.hdr[s.phase.t])
    case ReplayDone(p, i) =>
      && s.phase.Replaying? && s.phase.p == p && s.phase.t == |s.phase.hdr|
      && start < |s.disk| == |s.view| && Holds(s, p, i, start)
  }

  /** memmove into buffer i followed by bwrite. */
  function Store(s: State, i: nat, data: Block): State
    requires i < |s.cache.bufs| && s.cache.bufs[i].blockno < |s.disk| == |s.view|
  {
    var b := s.cache.bufs[i].blockno;
    s.(cache := Fill(s.cache, i, data), disk := s.disk[b := data], view := s.view[b := data])
  }

  function Next(cfg: Config, s: State, a: Action): State
    requires Enabled(cfg, s, a)
  {
    match a
    case Begin(p) => s.(group := GC.Next(s.group, GC.Begin(p), cfg.size, cfg.budget))
    case End(p) =>
      var g := GC.Next(s.group, GC.End(p), cfg.size, cfg.budget);
      s.(group := g,
         phase := if !g.comitting then s.phase else if g.lh == [] then Finishing(p) else Logging(p, 0))
    case Get(p, b) =>
      var (c, i) := Bget(s.cache, ROOTDEV, b).value;
      s.(cache := c, refs := s.refs[i := s.refs[i] + {p}])
    case Lock(p, i) => s.(locks := s.locks[i := Some(p)])
    case Read(p, i) => s.(cache := Fill(s.cache, i, s.disk[s.cache.bufs[i].blockno]))
    case Unlock(p, i) => s.(locks := s.locks[i := None])
    case Put(p, i) => s.(cache := Brelse(s.cache, i), refs := s.refs[i := s.refs[i] - {p}])
    case LogWrite(p, i, data) =>
      var b := s.cache.bufs[i].blockno;
      var c := Fill(s.cache, i, data);
      s.(cache := if b in s.group.lh then c else SetRefcnt(c, i, c.bufs[i].refcnt + 1),
         view := s.view[b := data],
         group := GC.Next(s.group, GC.Write(p, b), cfg.size, cfg.budget))
    case WriteSlot(p, i, j) => Store(s, i, s.cache.bufs[j].data).(phase := Logging(p, s.phase.t + 1))
    case WriteHead(p, i) => Store(s, i, PutHeader(s.cache.bufs[i].data, s.group.lh)).(phase := Installing(p, 0))
    case InstallOne(p, i, j) =>
      var r := Store(s, j, s.cache.bufs[i].data);
      r.(cache := SetRefcnt(r.cache, j, r.cache.bufs[j].refcnt - 1), phase := Installing(p, s.phase.t + 1))
    case ClearHead(p, i) =>
      Store(s, i, PutHeader(s.cache.bufs[i].data, [])).(
        group := GC.Next(s.group, GC.Clear, cfg.size, cfg.budget), phase := Finishing(p))
    case Finish(p) =>
      s.(group := GC.Next(s.group, GC.Finish, cfg.size, cfg.budget), phase := Open)
    case Crash(c) =>
      State(s.disk, c, seq(|c.bufs|, _ => {}), seq(|c.bufs|, _ => None), GC.Initial(|s.group.ops|), Booting, s.disk)
    case ReadHead(p, i) => s.(phase := Replaying(p, Header(s.cache.bufs[i].data), 0))
    case ReplayOne(p, i, j) =>
      Store(s, j, s.cache.bufs[i].data).(phase := Replaying(p, s.phase.hdr, s.phase.t + 1))
    case ReplayDone(p, i) => Store(s, i, PutHeader(s.cache.bufs[i].data, [])).(phase := Open)
  }

  // What every step keeps.

  function Held(refs: seq<set<nat>>): seq<nat> {
    seq(|refs|, i requires 0 <= i < |refs| => |refs[i]|)
  }

  /** The logged blocks whose home location is not written yet. */
  function Pins(s: State): set<nat> {
    match s.phase
    case Open => Elems(s.group.lh)
    case Logging(_, _) => Elems(s.group.lh)
    case Installing(_, t) => if t <= |s.group.lh| then Elems(s.group.lh[t..]) else {}
    case _ => {}
  }

  predicate CacheOk(cfg: Config, s: State) {
    && |s.refs| == |s.locks| == |s.cache.bufs|
    && cfg.start + LOGBLOCKS <= |s.disk| == |s.view| <= WORD_LIMIT
    && CacheInv(s.cache, Pins(s), Held(s.refs), s.view)
    && (forall i :: 0 <= i < |s.locks| && s.locks[i].Some? ==> s.locks[i].value in s.refs[i])
    && (forall b: nat :: b < |s.view| && b !in Pins(s) ==> s.view[b] == s.disk[b])
  }

  predicate GroupOk(cfg: Config, s: State) {
    && cfg.budget < MAXOPBLOCKS
    && GC.Inv(s.group, cfg.budget)
    && (forall t :: 0 <= t < |s.group.lh| ==> s.group.lh[t] < |s.disk| && !InLog(cfg.start, s.group.lh[t]))
  }

  /** The header on disk lists nothing, so recovery would change nothing. */
  predicate Clean(start: nat, d: Disk) {
    Recoverable(start, d) && GetWord(d[start], 0) == 0
  }

  /** The first k slots hold the logical contents of the first k listed blocks. */
  predicate SlotsFilled(start: nat, d: Disk, view: seq<Block>, lh: seq<nat>, k: nat) {
    && k <= |lh| && start + 1 + k <= |d|
    && forall j :: 0 <= j < k ==> lh[j] < |view| && d[start + 1 + j] == view[lh[j]]
  }

  /** The first t entries of hdr have reached their home blocks. */
  predicate Replayed(start: nat, d: Disk, hdr: seq<nat>, t: nat) {
    && t <= |hdr| && start + 1 + |hdr| <= |d|
    && forall b: nat :: b < |d| && LastIndex(hdr, b, t) >= 0 ==> d[b] == d[start + 1 + LastIndex(hdr, b, t)]
  }

  predicate PhaseOk(cfg: Config, s: State) {
    var start, lh := cfg.start, s.group.lh;
    match s.phase
    case Open => !s.group.comitting && Clean(start, s.disk)
    case Logging(_, t) =>
      s.group.comitting && lh != [] && Clean(start, s.disk) && SlotsFilled(start, s.disk, s.view, lh, t)
    case Installing(_, t) =>
      && s.group.comitting && lh != [] && t <= |lh|
      && Recoverable(start, s.disk) && Header(s.disk[start]) == lh
      && SlotsFilled(start, s.disk, s.view, lh, |lh|)
    case Finishing(_) => s.group.comitting && lh == [] && Clean(start, s.disk)
    case Booting => !s.group.comitting && s.group.outstanding == 0 && Recoverable(start, s.disk)
    case Replaying(_, hdr, t) =>
      && !s.group.comitting && s.group.outstanding == 0
      && Recoverable(start, s.disk) && Header(s.disk[start]) == hdr && Replayed(start, s.disk, hdr, t)
  }

  predicate Inv(cfg: Config, s: State) {
    CacheOk(cfg, s) && GroupOk(cfg, s) && PhaseOk(cfg, s)
  }
}
