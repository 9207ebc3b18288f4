/** Every step of the storage stack keeps its invariant. */
module StorageInvariant {
  import opened Collections
  import opened Blocks
  import opened LogFormat
  import opened BufferCache
  import opened CacheInvariant
  import opened Storage
  import GC = GroupCommit

  lemma HeldUpdate(refs: seq<set<nat>>, i: nat, p: nat)
    requires i < |refs|
    ensures p !in refs[i] ==> Held(refs[i := refs[i] + {p}]) == Held(refs)[i := |refs[i]| + 1]
    ensures p in refs[i] ==> |refs[i]| > 0 && Held(refs[i := refs[i] - {p}]) == Held(refs)[i := |refs[i]| - 1]
  {
  }

  /** bget keeps the invariant whichever buffer it picks. */
  lemma KeepGet(cfg: Config, s: State, p: nat, b: nat)
    requires Inv(cfg, s) && Enabled(cfg, s, Get(p, b))
    ensures Inv(cfg, Next(cfg, s, Get(p, b)))
  {
    hide CacheInv, Bget, Clean, SlotsFilled, Replayed, Recoverable, Header;
    BgetKeeps(s.cache, Pins(s), Held(s.refs), s.view, b);
    HeldUpdate(s.refs, Bget(s.cache, ROOTDEV, b).value.1, p);
  }

  lemma KeepLocking(cfg: Config, s: State, a: Action)
    requires Inv(cfg, s) && (a.Lock? || a.Unlock?) && Enabled(cfg, s, a)
    ensures Inv(cfg, Next(cfg, s, a))
  {
  }

  /** A buffer still being read cannot hold a logged block. */
  lemma InvalidIsUnpinned(c: Cache, pins: set<nat>, i: nat)
    requires OneBufferPerBlock(c) && Resident(c, pins)
    requires i < |c.bufs| && c.bufs[i].dev == ROOTDEV && !c.bufs[i].valid
    ensures c.bufs[i].blockno !in pins
  {
    assert forall k :: 0 <= k < |c.bufs| && Matches(c.bufs[k], ROOTDEV, c.bufs[i].blockno) ==> k == i;
  }

  lemma KeepRead(cfg: Config, s: State, p: nat, i: nat)
    requires Inv(cfg, s) && Enabled(cfg, s, Read(p, i))
    ensures Inv(cfg, Next(cfg, s, Read(p, i)))
  {
    var b := s.cache.bufs[i].blockno;
    InvalidIsUnpinned(s.cache, Pins(s), i);
    StoreKeeps(s.cache, Pins(s), Held(s.refs), s.view, i, s.disk[b]);
    assert s.view[b := s.disk[b]] == s.view;
  }

  lemma KeepPut(cfg: Config, s: State, p: nat, i: nat)
    requires Inv(cfg, s) && Enabled(cfg, s, Put(p, i))
    ensures Inv(cfg, Next(cfg, s, Put(p, i)))
  {
    HeldUpdate(s.refs, i, p);
    BrelseKeeps(s.cache, Pins(s), Held(s.refs), s.view, i);
  }

  /** Operations run only while the log is open. */
  lemma InOpIsOpen(cfg: Config, s: State, p: nat)
    requires Inv(cfg, s) && GC.InOp(s.group, p)
    ensures s.phase.Open? && s.group.outstanding > 0
  {
    GC.ActiveBounds(s.group.ops, cfg.budget);
  }

  lemma KeepBegin(cfg: Config, s: State, p: nat)
    requires Inv(cfg, s) && Enabled(cfg, s, Begin(p))
    ensures Inv(cfg, Next(cfg, s, Begin(p)))
  {
    GC.InvNext(s.group, GC.Begin(p), cfg.size, cfg.budget);
  }

  lemma KeepEnd(cfg: Config, s: State, p: nat)
    requires Inv(cfg, s) && Enabled(cfg, s, End(p))
    ensures Inv(cfg, Next(cfg, s, End(p)))
  {
    InOpIsOpen(cfg, s, p);
    GC.InvNext(s.group, GC.End(p), cfg.size, cfg.budget);
    assert s.group.lh == [] ==> Elems(s.group.lh) == {};
  }

  lemma KeepLogWrite(cfg: Config, s: State, p: nat, i: nat, data: Block)
    requires Inv(cfg, s) && Enabled(cfg, s, LogWrite(p, i, data))
    ensures Inv(cfg, Next(cfg, s, LogWrite(p, i, data)))
  {
    hide CacheInv, Clean, GC.Inv;
    var b := s.cache.bufs[i].blockno;
    InOpIsOpen(cfg, s, p);
    GC.InvNext(s.group, GC.Write(p, b), cfg.size, cfg.budget);
    StoreKeeps(s.cache, Pins(s), Held(s.refs), s.view, i, data);
    if b !in s.group.lh {
      PinKeeps(Fill(s.cache, i, data), Pins(s), Held(s.refs), s.view[b := data], i);
      assert Elems(s.group.lh + [b]) == Elems(s.group.lh) + {b};
    }
  }

  lemma KeepFinish(cfg: Config, s: State, p: nat)
    requires Inv(cfg, s) && Enabled(cfg, s, Finish(p))
    ensures Inv(cfg, Next(cfg, s, Finish(p)))
  {
    GC.InvNext(s.group, GC.Finish, cfg.size, cfg.budget);
    assert Elems(s.group.lh) == {};
  }

  /** A write through the cache keeps CacheOk as long as the pinned blocks stay the same. */
  lemma StoreKeepsCacheOk(cfg: Config, s: State, i: nat, data: Block, phase: Phase)
    requires CacheOk(cfg, s) && i < |s.cache.bufs| && s.cache.bufs[i].dev == ROOTDEV
    requires Pins(s.(phase := phase)) == Pins(s)
    ensures s.cache.bufs[i].blockno < |s.disk|
    ensures CacheOk(cfg, Store(s, i, data).(phase := phase))
  {
    StoreKeeps(s.cache, Pins(s), Held(s.refs), s.view, i, data);
    var r := Store(s, i, data).(phase := phase);
    assert Pins(r) == Pins(s);
  }

  /** The slot that write_log fills keeps the header clean and the earlier slots in place. */
  lemma SlotFilled(start: nat, d: Disk, view: seq<Block>, lh: seq<nat>, t: nat)
    requires Clean(start, d) && SlotsFilled(start, d, view, lh, t) && t < |lh| < LOGBLOCKS
    requires |view| == |d| && lh[t] < |d|
    requires forall j :: 0 <= j < |lh| ==> !InLog(start, lh[j])
    ensures var data := view[lh[t]];
            && Clean(start, d[start + 1 + t := data])
            && SlotsFilled(start, d[start + 1 + t := data], view[start + 1 + t := data], lh, t + 1)
  {
  }

  /** A locked valid buffer shows the logical contents of its block. */
  lemma Shows(cfg: Config, s: State, p: nat, i: nat, b: nat)
    requires CacheOk(cfg, s) && Holds(s, p, i, b)
    ensures b < |s.view| && s.cache.bufs[i].data == s.view[b]
  {
  }

  lemma WriteSlotPhaseOk(cfg: Config, s: State, p: nat, i: nat, j: nat)
    requires GroupOk(cfg, s) && PhaseOk(cfg, s) && Enabled(cfg, s, WriteSlot(p, i, j))
    requires s.cache.bufs[j].data == s.view[s.group.lh[s.phase.t]]
    ensures PhaseOk(cfg, Next(cfg, s, WriteSlot(p, i, j)))
  {
    SlotFilled(cfg.start, s.disk, s.view, s.group.lh, s.phase.t);
  }

  lemma KeepWriteSlot(cfg: Config, s: State, p: nat, i: nat, j: nat)
    requires Inv(cfg, s) && Enabled(cfg, s, WriteSlot(p, i, j))
    ensures Inv(cfg, Next(cfg, s, WriteSlot(p, i, j)))
  {
    hide CacheInv;
    Shows(cfg, s, p, j, s.group.lh[s.phase.t]);
    StoreKeepsCacheOk(cfg, s, i, s.cache.bufs[j].data, Logging(p, s.phase.t + 1));
    WriteSlotPhaseOk(cfg, s, p, i, j);
  }

  /** The header block that write_head stores makes the disk recoverable with that list. */
  lemma HeaderStored(start: nat, d: Disk, was: Block, hdr: seq<nat>)
    requires HeaderFits(start, |d|, hdr)
    ensures var e := d[start := PutHeader(was, hdr)];
            Recoverable(start, e) && Header(e[start]) == hdr && GetWord(e[start], 0) == |hdr|
  {
    HeaderRoundTrip(was, hdr);
  }

  lemma WriteHeadPhaseOk(cfg: Config, s: State, p: nat, i: nat)
    requires GroupOk(cfg, s) && PhaseOk(cfg, s) && Enabled(cfg, s, WriteHead(p, i))
    ensures PhaseOk(cfg, Next(cfg, s, WriteHead(p, i)))
  {
    HeaderStored(cfg.start, s.disk, s.cache.bufs[i].data, s.group.lh);
  }

  lemma GroupOkStays(cfg: Config, s: State, s': State)
    requires GroupOk(cfg, s) && s'.group == s.group && |s'.disk| == |s.disk|
    ensures GroupOk(cfg, s')
  {
    hide GC.Inv;
  }

  /** What a header write needs and does. */
  lemma WriteHeadStep(cfg: Config, s: State, p: nat, i: nat)
    requires Enabled(cfg, s, WriteHead(p, i))
    ensures s.phase.Logging? && Holds(s, p, i, cfg.start) && cfg.start < |s.disk| == |s.view|
    ensures |s.group.lh| <= LOGBLOCKS && forall t :: 0 <= t < |s.group.lh| ==> s.group.lh[t] < WORD_LIMIT
    ensures Next(cfg, s, WriteHead(p, i))
         == Store(s, i, PutHeader(s.cache.bufs[i].data, s.group.lh)).(phase := Installing(p, 0))
  {
  }

  lemma KeepWriteHead(cfg: Config, s: State, p: nat, i: nat)
    requires Inv(cfg, s) && Enabled(cfg, s, WriteHead(p, i))
    ensures Inv(cfg, Next(cfg, s, WriteHead(p, i)))
  {
    hide CacheOk, GroupOk, PhaseOk, Enabled, Next, PutHeader;
    WriteHeadStep(cfg, s, p, i);
    assert s.group.lh[0..] == s.group.lh;
    StoreKeepsCacheOk(cfg, s, i, PutHeader(s.cache.bufs[i].data, s.group.lh), Installing(p, 0));
    GroupOkStays(cfg, s, Next(cfg, s, WriteHead(p, i)));
    WriteHeadPhaseOk(cfg, s, p, i);
  }

  lemma InstallOneStep(cfg: Config, s: State, p: nat, i: nat, j: nat)
    requires Enabled(cfg, s, InstallOne(p, i, j))
    ensures s.phase.Installing? && s.phase.t < |s.group.lh| && s.group.lh[s.phase.t] < |s.disk| == |s.view|
    ensures Holds(s, p, i, cfg.start + 1 + s.phase.t) && Holds(s, p, j, s.group.lh[s.phase.t])
  {
  }

  /** The pins while the commit installs from block t on. */
  lemma InstallPins(s: State)
    requires s.phase.Installing? && s.phase.t < |s.group.lh|
    requires forall j, k :: 0 <= j < k < |s.group.lh| ==> s.group.lh[j] != s.group.lh[k]
    ensures Pins(s) - {s.group.lh[s.phase.t]} == Elems(s.group.lh[s.phase.t + 1..])
    ensures s.group.lh[s.phase.t] in Pins(s)
  {
    var lh, t := s.group.lh, s.phase.t;
    assert lh[t..] == [lh[t]] + lh[t + 1..];
  }

  /** The log area is never pinned, so the cache shows it as it is on disk. */
  lemma LogIsClean(cfg: Config, s: State, b: nat)
    requires CacheOk(cfg, s) && GroupOk(cfg, s) && InLog(cfg.start, b) && b < |s.view|
    ensures s.view[b] == s.disk[b]
  {
    hide CacheInv, GC.Inv;
    assert b !in Pins(s);
  }

  lemma NoRepeats(cfg: Config, s: State)
    requires GroupOk(cfg, s)
    ensures |s.group.lh| < LOGBLOCKS
    ensures forall j, k :: 0 <= j < k < |s.group.lh| ==> s.group.lh[j] != s.group.lh[k]
  {
  }

  /** What the home buffer receives is what it already holds, and its slot is no longer pinned. */
  lemma InstallSource(cfg: Config, s: State, p: nat, i: nat, j: nat)
    requires Inv(cfg, s) && Enabled(cfg, s, InstallOne(p, i, j))
    ensures s.cache.bufs[i].data == s.view[s.group.lh[s.phase.t]]
    ensures Pins(s) - {s.group.lh[s.phase.t]} == Elems(s.group.lh[s.phase.t + 1..])
    ensures s.group.lh[s.phase.t] in Pins(s)
  {
    hide CacheOk, GroupOk, Enabled, Recoverable, Header, Pins, Elems;
    InstallOneStep(cfg, s, p, i, j);
    NoRepeats(cfg, s);
    InstallPins(s);
    Shows(cfg, s, p, i, cfg.start + 1 + s.phase.t);
    LogIsClean(cfg, s, cfg.start + 1 + s.phase.t);
  }

  /** Writing a logged block home and unpinning it. */
  lemma UnpinCacheOk(cfg: Config, s: State, j: nat, b: nat, phase: Phase)
    requires CacheOk(cfg, s) && j < |s.cache.bufs| && s.cache.bufs[j].valid
    requires Matches(s.cache.bufs[j], ROOTDEV, b) && b in Pins(s) && b < |s.view|
    requires Pins(s.(phase := phase)) == Pins(s) - {b}
    ensures s.cache.bufs[j].refcnt > 0
    ensures Fill(s.cache, j, s.view[b]) == s.cache
    ensures CacheOk(cfg, s.(cache := SetRefcnt(s.cache, j, s.cache.bufs[j].refcnt - 1),
                            disk := s.disk[b := s.view[b]], phase := phase))
  {
    UnpinKeeps(s.cache, Pins(s), Held(s.refs), s.view, j);
    var r := s.(cache := SetRefcnt(s.cache, j, s.cache.bufs[j].refcnt - 1),
                disk := s.disk[b := s.view[b]], phase := phase);
    assert Pins(r) == Pins(s.(phase := phase));
  }

  lemma InstallEffect(cfg: Config, s: State, p: nat, i: nat, j: nat)
    requires Inv(cfg, s) && Enabled(cfg, s, InstallOne(p, i, j))
    ensures var b, phase := s.group.lh[s.phase.t], Installing(p, s.phase.t + 1);
            Next(cfg, s, InstallOne(p, i, j)) ==
            s.(cache := SetRefcnt(s.cache, j, s.cache.bufs[j].refcnt - 1),
               disk := s.disk[b := s.view[b]], phase := phase)
  {
    hide CacheInv;
    InstallSource(cfg, s, p, i, j);
    var b := s.group.lh[s.phase.t];
    Shows(cfg, s, p, j, b);
    assert Fill(s.cache, j, s.view[b]) == s.cache;
    assert s.view[b := s.view[b]] == s.view;
  }

  lemma KeepInstallOne(cfg: Config, s: State, p: nat, i: nat, j: nat)
    requires Inv(cfg, s) && Enabled(cfg, s, InstallOne(p, i, j))
    ensures Inv(cfg, Next(cfg, s, InstallOne(p, i, j)))
  {
    hide CacheInv;
    InstallSource(cfg, s, p, i, j);
    InstallEffect(cfg, s, p, i, j);
    UnpinCacheOk(cfg, s, j, s.group.lh[s.phase.t], Installing(p, s.phase.t + 1));
  }

  lemma KeepClearHead(cfg: Config, s: State, p: nat, i: nat)
    requires Inv(cfg, s) && Enabled(cfg, s, ClearHead(p, i))
    ensures Inv(cfg, Next(cfg, s, ClearHead(p, i)))
  {
    var data := PutHeader(s.cache.bufs[i].data, []);
    GC.InvNext(s.group, GC.Clear, cfg.size, cfg.budget);
    HeaderRoundTrip(s.cache.bufs[i].data, []);
    assert Pins(s) == {};
    StoreKeeps(s.cache, {}, Held(s.refs), s.view, i, data);
  }

  lemma KeepCrash(cfg: Config, s: State, c: Cache)
    requires Inv(cfg, s) && Enabled(cfg, s, Crash(c))
    ensures Inv(cfg, Next(cfg, s, Crash(c)))
  {
    var r := Next(cfg, s, Crash(c));
    InitialCacheInv(c, s.disk);
    GC.InitialInv(|s.group.ops|, cfg.budget);
    assert Held(r.refs) == seq(|c.bufs|, _ => 0);
  }

  lemma KeepReadHead(cfg: Config, s: State, p: nat, i: nat)
    requires Inv(cfg, s) && Enabled(cfg, s, ReadHead(p, i))
    ensures Inv(cfg, Next(cfg, s, ReadHead(p, i)))
  {
  }

  lemma ReplayedNext(start: nat, d: Disk, hdr: seq<nat>, t: nat)
    requires Replayed(start, d, hdr, t) && t < |hdr| && HeaderFits(start, |d|, hdr)
    ensures Replayed(start, d[hdr[t] := d[start + 1 + t]], hdr, t + 1)
  {
  }

  /** What one replayed block needs and does. */
  lemma ReplayOneStep(cfg: Config, s: State, p: nat, i: nat, j: nat)
    requires Enabled(cfg, s, ReplayOne(p, i, j))
    ensures s.phase.Replaying? && s.phase.t < |s.phase.hdr| && s.phase.hdr[s.phase.t] < |s.disk| == |s.view|
    ensures Holds(s, p, i, cfg.start + 1 + s.phase.t) && Holds(s, p, j, s.phase.hdr[s.phase.t])
    ensures Next(cfg, s, ReplayOne(p, i, j))
         == Store(s, j, s.cache.bufs[i].data).(phase := Replaying(p, s.phase.hdr, s.phase.t + 1))
  {
  }

  /** What the end of recovery needs and does. */
  lemma ReplayDoneStep(cfg: Config, s: State, p: nat, i: nat)
    requires Enabled(cfg, s, ReplayDone(p, i))
    ensures s.phase.Replaying? && s.phase.t == |s.phase.hdr| && cfg.start < |s.disk| == |s.view|
    ensures Holds(s, p, i, cfg.start)
    ensures Next(cfg, s, ReplayDone(p, i)) == Store(s, i, PutHeader(s.cache.bufs[i].data, [])).(phase := Open)
  {
  }

  lemma ReplayPhaseOk(cfg: Config, s: State, p: nat, i: nat, j: nat)
    requires Inv(cfg, s) && Enabled(cfg, s, ReplayOne(p, i, j))
    ensures PhaseOk(cfg, Next(cfg, s, ReplayOne(p, i, j)))
  {
    hide CacheInv, Clean, SlotsFilled, Enabled, Next, Replayed;
    ReplayOneStep(cfg, s, p, i, j);
    Shows(cfg, s, p, i, cfg.start + 1 + s.phase.t);
    ReplayedNext(cfg.start, s.disk, s.phase.hdr, s.phase.t);
  }

  lemma KeepReplayOne(cfg: Config, s: State, p: nat, i: nat, j: nat)
    requires Inv(cfg, s) && Enabled(cfg, s, ReplayOne(p, i, j))
    ensures Inv(cfg, Next(cfg, s, ReplayOne(p, i, j)))
  {
    hide CacheInv, Enabled, Next, PhaseOk;
    ReplayOneStep(cfg, s, p, i, j);
    StoreKeepsCacheOk(cfg, s, j, s.cache.bufs[i].data, Replaying(p, s.phase.hdr, s.phase.t + 1));
    ReplayPhaseOk(cfg, s, p, i, j);
  }

  lemma KeepReplayDone(cfg: Config, s: State, p: nat, i: nat)
    requires Inv(cfg, s) && Enabled(cfg, s, ReplayDone(p, i))
    ensures Inv(cfg, Next(cfg, s, ReplayDone(p, i)))
  {
    HeaderRoundTrip(s.cache.bufs[i].data, []);
    StoreKeeps(s.cache, {}, Held(s.refs), s.view, i, PutHeader(s.cache.bufs[i].data, []));
    GC.ActiveBounds(s.group.ops, cfg.budget);
    assert Elems([]) == {};
  }

  lemma InvNext(cfg: Config, s: State, a: Action)
    requires Inv(cfg, s) && Enabled(cfg, s, a)
    ensures Inv(cfg, Next(cfg, s, a))
  {
    hide *;
    match a
    case Begin(p) => KeepBegin(cfg, s, p);
    case End(p) => KeepEnd(cfg, s, p);
    case Get(p, b) => KeepGet(cfg, s, p, b);
    case Lock(_, _) => KeepLocking(cfg, s, a);
    case Unlock(_, _) => KeepLocking(cfg, s, a);
    case Read(p, i) => KeepRead(cfg, s, p, i);
    case Put(p, i) => KeepPut(cfg, s, p, i);
    case LogWrite(p, i, data) => KeepLogWrite(cfg, s, p, i, data);
    case WriteSlot(p, i, j) => KeepWriteSlot(cfg, s, p, i, j);
    case WriteHead(p, i) => KeepWriteHead(cfg, s, p, i);
    case InstallOne(p, i, j) => KeepInstallOne(cfg, s, p, i, j);
    case ClearHead(p, i) => KeepClearHead(cfg, s, p, i);
    case Finish(p) => KeepFinish(cfg, s, p);
    case Crash(c) => KeepCrash(cfg, s, c);
    case ReadHead(p, i) => KeepReadHead(cfg, s, p, i);
    case ReplayOne(p, i, j) => KeepReplayOne(cfg, s, p, i, j);
    case ReplayDone(p, i) => KeepReplayDone(cfg, s, p, i);
  }
}
