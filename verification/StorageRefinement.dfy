/**
 The storage stack refines an atomic disk: operations change the logical contents, a commit with
 no operation open makes them durable in one step, and a crash falls back to the durable contents.
 */
module StorageRefinement {
  import opened Common
  import opened Blocks
  import opened LogFormat
  import opened BufferCache
  import opened CacheInvariant
  import opened Storage
  import opened StorageInvariant
  import GC = GroupCommit

  /** The specification: what a reader of the file system may rely on. */
  datatype Spec = Spec(logical: map<nat, Block>, durable: map<nat, Block>, active: set<nat>)

  datatype SpecAction =
    | SpecBegin(p: nat)
    | SpecWrite(p: nat, b: nat, data: Block)
    | SpecEnd(p: nat)
    | SpecCommit
    | SpecCrash
    | Stutter

  predicate SpecEnabled(s: Spec, a: SpecAction) {
    match a
    case SpecBegin(p) => p !in s.active
    case SpecWrite(p, b, _) => p in s.active && b in s.logical
    case SpecEnd(p) => p in s.active
    case SpecCommit => s.active == {}
    case SpecCrash => true
    case Stutter => true
  }

  function SpecNext(s: Spec, a: SpecAction): Spec
    requires SpecEnabled(s, a)
  {
    match a
    case SpecBegin(p) => s.(active := s.active + {p})
    case SpecWrite(_, b, data) => s.(logical := s.logical[b := data])
    case SpecEnd(p) => s.(active := s.active - {p})
    case SpecCommit => s.(durable := s.logical)
    case SpecCrash => s.(logical := s.durable, active := {})
    case Stutter => s
  }

  /** The blocks outside the log. */
  function Home(start: nat, d: Disk): map<nat, Block> {
    map b: nat | 0 <= b < |d| && !InLog(start, b) :: d[b]
  }

  function ActiveSet(ops: seq<Option<nat>>): set<nat> {
    set p | 0 <= p < |ops| && ops[p].Some?
  }

  /** What the disk would hold if the machine stopped now and recovery ran. */
  function Durable(cfg: Config, s: State): map<nat, Block>
    requires Recoverable(cfg.start, s.disk)
  {
    Home(cfg.start, Recover(cfg.start, s.disk))
  }

  function Abstract(cfg: Config, s: State): Spec
    requires Recoverable(cfg.start, s.disk)
  {
    Spec(if Recovering(s) then Durable(cfg, s) else Home(cfg.start, s.view),
         Durable(cfg, s),
         ActiveSet(s.group.ops))
  }

  /** The header write is the commit; every other step of commit and recovery is invisible. */
  function SpecOf(s: State, a: Action): SpecAction {
    match a
    case Begin(p) => SpecBegin(p)
    case End(p) => SpecEnd(p)
    case LogWrite(p, i, data) => if i < |s.cache.bufs| then SpecWrite(p, s.cache.bufs[i].blockno, data) else Stutter
    case WriteHead(_, _) => SpecCommit
    case Crash(_) => SpecCrash
    case _ => Stutter
  }

  lemma CleanDurable(start: nat, d: Disk)
    requires Clean(start, d)
    ensures Home(start, Recover(start, d)) == Home(start, d)
  {
    RecoverEmpty(start, d);
  }

  /** Once the header lists the transaction, recovery yields the logical disk. */
  lemma HeadedDurable(start: nat, d: Disk, view: seq<Block>, lh: seq<nat>)
    requires Recoverable(start, d) && Header(d[start]) == lh && |view| == |d|
    requires SlotsFilled(start, d, view, lh, |lh|)
    requires forall b: nat :: b < |d| && b !in lh ==> view[b] == d[b]
    ensures Home(start, Recover(start, d)) == Home(start, view)
  {
    forall b: nat | b < |d| && !InLog(start, b) ensures Recover(start, d)[b] == view[b] {
      RecoverAt(start, d, b);
    }
  }

  lemma ReplayDurable(start: nat, d: Disk, t: nat)
    requires Recoverable(start, d) && t < |Header(d[start])|
    ensures var hdr := Header(d[start]);
            var e := d[hdr[t] := d[start + 1 + t]];
            Recoverable(start, e) && Home(start, Recover(start, e)) == Home(start, Recover(start, d))
  {
    var hdr := Header(d[start]);
    var e := d[hdr[t] := d[start + 1 + t]];
    forall b: nat | b < |d| && !InLog(start, b) ensures Recover(start, e)[b] == Recover(start, d)[b] {
      RecoverAt(start, d, b);
      RecoverAt(start, e, b);
    }
  }

  lemma ReplayedDurable(start: nat, d: Disk)
    requires Recoverable(start, d) && Replayed(start, d, Header(d[start]), |Header(d[start])|)
    ensures Home(start, Recover(start, d)) == Home(start, d)
  {
    forall b: nat | b < |d| && !InLog(start, b) ensures Recover(start, d)[b] == d[b] {
      RecoverAt(start, d, b);
    }
    hide Recover, Recoverable, LastIndex, Header;
  }

  /** The durable contents in each phase. */
  lemma DurableByPhase(cfg: Config, s: State)
    requires Inv(cfg, s)
    ensures Recoverable(cfg.start, s.disk)
    ensures !Recovering(s) && !s.phase.Installing? ==> Durable(cfg, s) == Home(cfg.start, s.disk)
    ensures s.phase.Installing? ==> Durable(cfg, s) == Home(cfg.start, s.view)
  {
    match s.phase
    case Installing(_, t) =>
      assert forall b :: b !in s.group.lh ==> b !in s.group.lh[t..];
      HeadedDurable(cfg.start, s.disk, s.view, s.group.lh);
    case Booting =>
    case Replaying(_, _, _) =>
    case _ => CleanDurable(cfg.start, s.disk);
  }

  /** Until the header is written no step of an operation or of commit touches a home block on disk. */
  lemma NoEarlyHomeWrite(cfg: Config, s: State, a: Action)
    requires Inv(cfg, s) && Enabled(cfg, s, a) && (s.phase.Open? || s.phase.Logging?)
    ensures SameHome(cfg.start, Next(cfg, s, a).disk, s.disk)
  {
  }

  /** bread and the sleep lock give a process the current logical contents of a block. */
  lemma ReadsAreCurrent(cfg: Config, s: State, p: nat, i: nat, b: nat)
    requires Inv(cfg, s) && Holds(s, p, i, b) && !Recovering(s) && !InLog(cfg.start, b)
    ensures b in Abstract(cfg, s).logical && s.cache.bufs[i].data == Abstract(cfg, s).logical[b]
  {
    Shows(cfg, s, p, i, b);
    DurableByPhase(cfg, s);
  }

  lemma ActiveAfter(g: GC.Group, p: nat, o: Option<nat>)
    requires p < |g.ops|
    ensures ActiveSet(g.ops[p := o]) == ActiveSet(g.ops) - {p} + (if o.Some? then {p} else {})
  {
  }

  /** A write inside the log region is invisible outside it. */
  lemma LogWriteInvisible(start: nat, d: Disk, b: nat, data: Block)
    requires b < |d| && InLog(start, b)
    ensures Home(start, d[b := data]) == Home(start, d)
  {
  }

  lemma RefineBegin(cfg: Config, s: State, p: nat)
    requires Enabled(cfg, s, Begin(p)) && Recoverable(cfg.start, s.disk)
    ensures SpecEnabled(Abstract(cfg, s), SpecBegin(p))
    ensures Abstract(cfg, Next(cfg, s, Begin(p))) == SpecNext(Abstract(cfg, s), SpecBegin(p))
  {
    ActiveAfter(s.group, p, Some(0));
  }

  lemma RefineEnd(cfg: Config, s: State, p: nat)
    requires Enabled(cfg, s, End(p)) && Recoverable(cfg.start, s.disk) && s.phase.Open?
    ensures SpecEnabled(Abstract(cfg, s), SpecEnd(p))
    ensures Abstract(cfg, Next(cfg, s, End(p))) == SpecNext(Abstract(cfg, s), SpecEnd(p))
  {
    ActiveAfter(s.group, p, None);
  }

  lemma RefineLogWrite(cfg: Config, s: State, p: nat, i: nat, data: Block)
    requires Enabled(cfg, s, LogWrite(p, i, data)) && Recoverable(cfg.start, s.disk) && s.phase.Open?
    ensures var w := SpecWrite(p, s.cache.bufs[i].blockno, data);
            && SpecEnabled(Abstract(cfg, s), w)
            && Abstract(cfg, Next(cfg, s, LogWrite(p, i, data))) == SpecNext(Abstract(cfg, s), w)
  {
    ActiveAfter(s.group, p, Some(s.group.ops[p].value + 1));
  }

  lemma RefineWriteHead(cfg: Config, s: State, p: nat, i: nat)
    requires Enabled(cfg, s, WriteHead(p, i)) && GroupOk(cfg, s) && PhaseOk(cfg, s)
    requires Recoverable(cfg.start, s.disk) && Recoverable(cfg.start, Next(cfg, s, WriteHead(p, i)).disk)
    requires var r := Next(cfg, s, WriteHead(p, i)); Durable(cfg, r) == Home(cfg.start, r.view)
    ensures SpecEnabled(Abstract(cfg, s), SpecCommit)
    ensures Abstract(cfg, Next(cfg, s, WriteHead(p, i))) == SpecNext(Abstract(cfg, s), SpecCommit)
  {
    GC.ActiveBounds(s.group.ops, cfg.budget);
    LogWriteInvisible(cfg.start, s.view, cfg.start, PutHeader(s.cache.bufs[i].data, s.group.lh));
  }

  /** The writes that only touch the log region: slots, and the cleared header. */
  lemma RefineLogRegion(cfg: Config, s: State, a: Action)
    requires Enabled(cfg, s, a) && (a.WriteSlot? || a.ClearHead? || a.ReplayDone?)
    requires GroupOk(cfg, s) && PhaseOk(cfg, s)
    requires Recoverable(cfg.start, s.disk) && Recoverable(cfg.start, Next(cfg, s, a).disk)
    requires Durable(cfg, s) == Home(cfg.start, s.disk)
    requires Durable(cfg, Next(cfg, s, a)) == Home(cfg.start, Next(cfg, s, a).disk)
    requires a.ReplayDone? ==> s.view == s.disk
    ensures Abstract(cfg, Next(cfg, s, a)) == Abstract(cfg, s)
  {
    var data := if a.WriteSlot? then s.cache.bufs[a.j].data else PutHeader(s.cache.bufs[a.i].data, []);
    LogWriteInvisible(cfg.start, s.disk, s.cache.bufs[a.i].blockno, data);
    LogWriteInvisible(cfg.start, s.view, s.cache.bufs[a.i].blockno, data);
  }

  lemma RefineInstallOne(cfg: Config, s: State, p: nat, i: nat, j: nat)
    requires Enabled(cfg, s, InstallOne(p, i, j))
    requires Recoverable(cfg.start, s.disk) && Recoverable(cfg.start, Next(cfg, s, InstallOne(p, i, j)).disk)
    requires Durable(cfg, s) == Home(cfg.start, s.view)
    requires var r := Next(cfg, s, InstallOne(p, i, j)); r.view == s.view && Durable(cfg, r) == Home(cfg.start, r.view)
    ensures Abstract(cfg, Next(cfg, s, InstallOne(p, i, j))) == Abstract(cfg, s)
  {
  }

  lemma RefineReplayOne(cfg: Config, s: State, p: nat, i: nat, j: nat)
    requires Enabled(cfg, s, ReplayOne(p, i, j)) && PhaseOk(cfg, s)
    requires s.cache.bufs[i].data == s.disk[cfg.start + 1 + s.phase.t]
    ensures Recoverable(cfg.start, Next(cfg, s, ReplayOne(p, i, j)).disk)
    ensures Abstract(cfg, Next(cfg, s, ReplayOne(p, i, j))) == Abstract(cfg, s)
  {
    hide Enabled, Next, Recover, Home, Recoverable, Replayed, Header;
    ReplayOneStep(cfg, s, p, i, j);
    ReplayDurable(cfg.start, s.disk, s.phase.t);
  }

  /** The step is one of the specification. */
  predicate Simulated(cfg: Config, s: State, a: Action)
    requires Enabled(cfg, s, a)
  {
    var r := Next(cfg, s, a);
    && Recoverable(cfg.start, s.disk) && Recoverable(cfg.start, r.disk)
    && SpecEnabled(Abstract(cfg, s), SpecOf(s, a))
    && Abstract(cfg, r) == SpecNext(Abstract(cfg, s), SpecOf(s, a))
  }

  lemma SimulateOperation(cfg: Config, s: State, a: Action)
    requires Inv(cfg, s) && Enabled(cfg, s, a) && (a.Begin? || a.End? || a.LogWrite?)
    ensures Simulated(cfg, s, a)
  {
    hide Abstract, SpecNext, Next, CacheInv;
    DurableByPhase(cfg, s);
    if a.Begin? {
      RefineBegin(cfg, s, a.p);
      assert Next(cfg, s, a).disk == s.disk by { DiskKept(cfg, s, a); }
    } else {
      InOpIsOpen(cfg, s, a.p);
      DiskKept(cfg, s, a);
      if a.End? {
        RefineEnd(cfg, s, a.p);
      } else {
        RefineLogWrite(cfg, s, a.p, a.i, a.data);
      }
    }
  }

  lemma DiskKept(cfg: Config, s: State, a: Action)
    requires Enabled(cfg, s, a) && (a.Begin? || a.End? || a.LogWrite?)
    ensures Next(cfg, s, a).disk == s.disk
  {
  }

  lemma SimulateWriteHead(cfg: Config, s: State, p: nat, i: nat)
    requires Inv(cfg, s) && Enabled(cfg, s, WriteHead(p, i)) && Inv(cfg, Next(cfg, s, WriteHead(p, i)))
    ensures Simulated(cfg, s, WriteHead(p, i))
  {
    hide CacheInv, Abstract, Home, Recover;
    DurableByPhase(cfg, s);
    DurableByPhase(cfg, Next(cfg, s, WriteHead(p, i)));
    RefineWriteHead(cfg, s, p, i);
  }

  lemma SimulateWriteSlot(cfg: Config, s: State, p: nat, i: nat, j: nat)
    requires Inv(cfg, s) && Enabled(cfg, s, WriteSlot(p, i, j)) && Inv(cfg, Next(cfg, s, WriteSlot(p, i, j)))
    ensures Simulated(cfg, s, WriteSlot(p, i, j))
  {
    hide CacheInv, Abstract, Home, Recover;
    DurableByPhase(cfg, s);
    DurableByPhase(cfg, Next(cfg, s, WriteSlot(p, i, j)));
    RefineLogRegion(cfg, s, WriteSlot(p, i, j));
  }

  lemma SimulateInstallOne(cfg: Config, s: State, p: nat, i: nat, j: nat)
    requires Inv(cfg, s) && Enabled(cfg, s, InstallOne(p, i, j)) && Inv(cfg, Next(cfg, s, InstallOne(p, i, j)))
    ensures Simulated(cfg, s, InstallOne(p, i, j))
  {
    hide CacheInv, CacheOk, GroupOk, Abstract, Home, Recover, Recoverable, Durable;
    DurableByPhase(cfg, s);
    DurableByPhase(cfg, Next(cfg, s, InstallOne(p, i, j)));
    InstallEffect(cfg, s, p, i, j);
    RefineInstallOne(cfg, s, p, i, j);
  }

  lemma SimulateClearHead(cfg: Config, s: State, p: nat, i: nat)
    requires Inv(cfg, s) && Enabled(cfg, s, ClearHead(p, i)) && Inv(cfg, Next(cfg, s, ClearHead(p, i)))
    ensures Simulated(cfg, s, ClearHead(p, i))
  {
    hide CacheInv, Abstract, Home, Recover;
    DurableByPhase(cfg, s);
    DurableByPhase(cfg, Next(cfg, s, ClearHead(p, i)));
    NothingPinned(cfg, s);
    RefineLogRegion(cfg, s, ClearHead(p, i));
  }

  /** With nothing pinned the logical disk is the disk. */
  lemma NothingPinned(cfg: Config, s: State)
    requires CacheOk(cfg, s) && Pins(s) == {}
    ensures s.view == s.disk
  {
  }

  lemma SimulateReplayOne(cfg: Config, s: State, p: nat, i: nat, j: nat)
    requires Inv(cfg, s) && Enabled(cfg, s, ReplayOne(p, i, j))
    ensures Simulated(cfg, s, ReplayOne(p, i, j))
  {
    hide CacheInv, Abstract, Home, Recover, Enabled, Next, Replayed, Recoverable;
    ReplayOneStep(cfg, s, p, i, j);
    NothingPinned(cfg, s);
    Shows(cfg, s, p, i, cfg.start + 1 + s.phase.t);
    RefineReplayOne(cfg, s, p, i, j);
  }

  lemma SimulateReplayDone(cfg: Config, s: State, p: nat, i: nat)
    requires Inv(cfg, s) && Enabled(cfg, s, ReplayDone(p, i)) && Inv(cfg, Next(cfg, s, ReplayDone(p, i)))
    ensures Simulated(cfg, s, ReplayDone(p, i))
  {
    hide CacheInv, Abstract, Home, Recover, Enabled, Next;
    ReplayDoneStep(cfg, s, p, i);
    NothingPinned(cfg, s);
    DurableByPhase(cfg, Next(cfg, s, ReplayDone(p, i)));
    ReplayedDurable(cfg.start, s.disk);
    RefineLogRegion(cfg, s, ReplayDone(p, i));
  }

  /** Steps that write no block: reading and locking buffers, finishing, a crash, read_head. */
  predicate InMemory(a: Action) {
    a.Get? || a.Lock? || a.Read? || a.Unlock? || a.Put? || a.Finish? || a.Crash? || a.ReadHead?
  }

  lemma SimulateInMemory(cfg: Config, s: State, a: Action)
    requires Inv(cfg, s) && Enabled(cfg, s, a) && InMemory(a)
    ensures Simulated(cfg, s, a)
  {
    hide CacheInv;
    DurableByPhase(cfg, s);
    RefineInMemory(cfg, s, a);
  }

  lemma RefineInMemory(cfg: Config, s: State, a: Action)
    requires Enabled(cfg, s, a) && Recoverable(cfg.start, s.disk) && InMemory(a)
    ensures Next(cfg, s, a).disk == s.disk
    ensures Abstract(cfg, Next(cfg, s, a)) == SpecNext(Abstract(cfg, s), SpecOf(s, a))
  {
    hide Recoverable, Recover, Home;
  }

  /** Every step of the storage stack is a step of the specification. */
  lemma Refines(cfg: Config, s: State, a: Action)
    requires Inv(cfg, s) && Enabled(cfg, s, a)
    ensures Inv(cfg, Next(cfg, s, a)) && Simulated(cfg, s, a)
  {
    hide *;
    InvNext(cfg, s, a);
    match a
    case Begin(_) => SimulateOperation(cfg, s, a);
    case End(_) => SimulateOperation(cfg, s, a);
    case LogWrite(_, _, _) => SimulateOperation(cfg, s, a);
    case WriteSlot(p, i, j) => SimulateWriteSlot(cfg, s, p, i, j);
    case WriteHead(p, i) => SimulateWriteHead(cfg, s, p, i);
    case InstallOne(p, i, j) => SimulateInstallOne(cfg, s, p, i, j);
    case ClearHead(p, i) => SimulateClearHead(cfg, s, p, i);
    case ReplayOne(p, i, j) => SimulateReplayOne(cfg, s, p, i, j);
    case ReplayDone(p, i) => SimulateReplayDone(cfg, s, p, i);
    case _ =>
      assert InMemory(a) by { IsInMemory(a); }
      SimulateInMemory(cfg, s, a);
  }

  lemma IsInMemory(a: Action)
    ensures InMemory(a) || a.Begin? || a.End? || a.LogWrite? || a.WriteSlot? || a.WriteHead? || a.InstallOne?
            || a.ClearHead? || a.ReplayOne? || a.ReplayDone?
  {
  }

  /** Power-on: a disk that recovery can read and an empty memory. */
  predicate PowerOn(cfg: Config, s: State) {
    && cfg.budget < MAXOPBLOCKS
    && Recoverable(cfg.start, s.disk)
    && s.phase == Booting && s.view == s.disk
    && s.group == GC.Initial(|s.group.ops|)
    && WellFormed(s.cache) && |s.refs| == |s.locks| == |s.cache.bufs|
    && forall i :: 0 <= i < |s.cache.bufs| ==>
                     && s.cache.bufs[i] == Buf(0, 0, false, 0, ZeroBlock())
                     && s.refs[i] == {} && s.locks[i].None?
  }

  predicate IsRun(cfg: Config, states: seq<State>, actions: seq<Action>) {
    && |states| == |actions| + 1 && PowerOn(cfg, states[0])
    && forall k :: 0 <= k < |actions| ==>
                     Enabled(cfg, states[k], actions[k]) && states[k + 1] == Next(cfg, states[k], actions[k])
  }

  lemma PowerOnInv(cfg: Config, s: State)
    requires PowerOn(cfg, s)
    ensures Inv(cfg, s)
  {
    InitialCacheInv(s.cache, s.disk);
    GC.InitialInv(|s.group.ops|, cfg.budget);
    assert Held(s.refs) == seq(|s.cache.bufs|, _ => 0);
  }

  lemma {:induction false} RunInv(cfg: Config, states: seq<State>, actions: seq<Action>, k: nat)
    requires IsRun(cfg, states, actions) && k < |states|
    ensures Inv(cfg, states[k]) && Recoverable(cfg.start, states[k].disk)
  {
    hide Inv, Enabled, Next, PowerOn;
    if k == 0 {
      PowerOnInv(cfg, states[0]);
    } else {
      RunInv(cfg, states, actions, k - 1);
      InvNext(cfg, states[k - 1], actions[k - 1]);
    }
    DurableByPhase(cfg, states[k]);
  }

  /** The last header write of a transaction among the first k actions; -1 if there is none. */
  function LastCommit(actions: seq<Action>, k: nat): (j: int)
    requires k <= |actions|
    ensures -1 <= j < k && (j >= 0 ==> actions[j].WriteHead?)
    ensures forall i :: j < i < k ==> !actions[i].WriteHead?
  {
    if k == 0 then -1 else if actions[k - 1].WriteHead? then k - 1 else LastCommit(actions, k - 1)
  }

  /** Only the header write commits. */
  lemma OnlyHeadCommits(s: State, a: Action)
    ensures SpecOf(s, a).SpecCommit? <==> a.WriteHead?
  {
  }

  /**
   Crash safety over whole runs: at every moment of every interleaving, with any number of crashes
   before and during recovery, what recovery would restore is exactly the logical contents at the last
   commit, when no operation was open, and the initial disk if there was no commit. No operation is
   ever half durable, and no committed one is ever lost.
   */
  lemma {:induction false} CrashSafety(cfg: Config, states: seq<State>, actions: seq<Action>, k: nat)
    requires IsRun(cfg, states, actions) && k < |states|
    ensures forall i :: 0 <= i <= k ==> Recoverable(cfg.start, states[i].disk)
    ensures var j := LastCommit(actions, k);
            if j < 0 then Durable(cfg, states[k]) == Durable(cfg, states[0])
            else Abstract(cfg, states[j]).active == {} && Durable(cfg, states[k]) == Abstract(cfg, states[j]).logical
  {
    hide Inv, Enabled, Next, PowerOn, Recoverable, Recover, SpecOf, ActiveSet;
    RunInv(cfg, states, actions, k);
    if k > 0 {
      CrashSafety(cfg, states, actions, k - 1);
      RunInv(cfg, states, actions, k - 1);
      Refines(cfg, states[k - 1], actions[k - 1]);
      OnlyHeadCommits(states[k - 1], actions[k - 1]);
    }
  }

  /**
   Nothing is left behind: at every moment of every run at which no operation is open and no commit or recovery is
   under way, everything written so far is durable.
   */
  lemma QuietIsDurable(cfg: Config, states: seq<State>, actions: seq<Action>, k: nat)
    requires IsRun(cfg, states, actions) && k < |states|
    requires states[k].phase.Open? && ActiveSet(states[k].group.ops) == {}
    ensures Recoverable(cfg.start, states[k].disk)
    ensures Durable(cfg, states[k]) == Home(cfg.start, states[k].view)
  {
    hide Enabled, Next, PowerOn, Recover, CacheInv;
    RunInv(cfg, states, actions, k);
    DurableByPhase(cfg, states[k]);
    NoneOpen(cfg, states[k]);
    hide Inv;
    assert SameHome(cfg.start, states[k].disk, states[k].view);
  }

  /** Without an open operation or a commit the list is empty, and the disk is the logical disk. */
  lemma NoneOpen(cfg: Config, s: State)
    requires Inv(cfg, s) && s.phase.Open? && ActiveSet(s.group.ops) == {}
    ensures |s.disk| == |s.view| && forall b: nat :: b < |s.view| ==> s.view[b] == s.disk[b]
  {
    hide CacheInv;
    NobodyActive(s.group.ops);
    assert s.group.lh == [];
    assert Pins(s) == {};
  }

  lemma {:induction false} NobodyActive(ops: seq<Option<nat>>)
    requires ActiveSet(ops) == {}
    ensures GC.Active(ops) == 0
  {
    if ops != [] {
      var n := |ops| - 1;
      assert ops[n].None? by { assert n !in ActiveSet(ops); }
      assert ActiveSet(ops[..n]) == {} by {
        assert ActiveSet(ops[..n]) <= ActiveSet(ops);
      }
      NobodyActive(ops[..n]);
    }
  }
}
