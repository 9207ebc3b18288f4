/**
 The sleep lock (kernel/src/sleeplock.c) over sleep and wakeup (kernel/src/proc.c): mutual exclusion and
 no lost wakeup, over every interleaving.
 */
module SleepLock {
  import opened Common
  import opened Proc
  import opened ProcLocks
  import opened ProcTree
  import opened ProcRuns

  /** The part a process plays for the sleep lock. */
  datatype Role = NoRole | Sleeper | Decided | Taker | Owner | Waker(i: nat)

  /**
   Sleeper: gave up the inner lock in sleep and has not been woken. Decided: saw the lock taken, still
   holds the inner lock. Taker: saw it free. Owner: at the end of acquiresleep or before the clear in
   releasesleep. Waker: in the wakeup of releasesleep, at index i.
   */
  function RoleOf(r: Process): Role {
    match r.pc
    case SlLock(chan, _) => if chan == LockChan then Decided else NoRole
    case SlDrop(chan, _) => if chan == LockChan then Decided else NoRole
    case SlSet(chan, _) => if chan == LockChan then Sleeper else NoRole
    case SlSched(chan, _) => if chan == LockChan then Sleeper else NoRole
    case SlOut(chan, _) => if chan == LockChan && r.state == SLEEPING then Sleeper else NoRole
    case AsTake => Taker
    case AsRelease => Owner
    case RsAcquire => Owner
    case Yd(_, back) => if back == AtRelease then Owner else NoRole
    case RsClear => Owner
    case Wk(_, i, ret) => if ret == ToRelease then Waker(i) else NoRole
    case WkHeld(_, i, ret) => if ret == ToRelease then Waker(i) else NoRole
    case _ => NoRole
  }

  /** The table index wakeup has reached; beyond the table when no wakeup is running. */
  function From(k: Kernel): nat {
    if k.inner.Some? && k.inner.value < |k.procs| && RoleOf(k.procs[k.inner.value]).Waker? then
      RoleOf(k.procs[k.inner.value]).i
    else |k.procs|
  }

  /** Nobody sleeps on a free lock, except where wakeup has still to come by. */
  predicate NobodyMissed(k: Kernel) {
    !k.locked ==> forall q: nat :: q < |k.procs| && RoleOf(k.procs[q]) == Sleeper ==> From(k) <= q
  }

  /** What processes with the inner lock know of `locked`. */
  predicate RolesOk(k: Kernel) {
    forall p: nat :: p < |k.procs| ==>
      match RoleOf(k.procs[p])
      case Decided => k.locked
      case Taker => !k.locked
      case Owner => k.owner == Some(p)
      case _ => true
  }

  /** The owner is the live process whose pid is recorded. */
  predicate OwnerOk(k: Kernel) {
    && (k.locked <==> k.owner.Some?)
    && (k.owner.Some? ==>
          && k.owner.value < |k.procs| && Alive(k.procs[k.owner.value]) && !Exiting(k.procs[k.owner.value].pc)
          && k.procs[k.owner.value].pid == k.lockpid)
  }

  predicate Mutex(k: Kernel) {
    NobodyMissed(k) && RolesOk(k) && OwnerOk(k)
  }

  /** The holder of the inner lock is alone in the parts that need it. */
  lemma Alone(k: Kernel, p: nat)
    requires SpinsOk(k) && StatesOk(k) && p < |k.procs| && SpinOf(k.procs[p].pc) == Inner
    ensures k.inner == Some(p)
    ensures forall q: nat :: q < |k.procs| && q != p ==>
              RoleOf(k.procs[q]).NoRole? || RoleOf(k.procs[q]).Sleeper? || RoleOf(k.procs[q]).Owner?
  {
    forall q: nat | q < |k.procs| && q != p
      ensures RoleOf(k.procs[q]).NoRole? || RoleOf(k.procs[q]).Sleeper? || RoleOf(k.procs[q]).Owner?
    {
      assert PcOk(q, k.procs[q].pc) && SpinOf(k.procs[q].pc) != Inner;
      RoleNeedsInner(q, k.procs[q]);
    }
  }

  lemma RoleNeedsInner(q: nat, r: Process)
    requires PcOk(q, r.pc) && SpinOf(r.pc) != Inner
    ensures RoleOf(r).NoRole? || RoleOf(r).Sleeper? || RoleOf(r).Owner?
  {
  }

  /**
   A process keeps its part or, unless it runs wakeup, drops it; while it may own the lock it stays the same
   process.
   */
  predicate SamePart(r: Process, r': Process) {
    && (RoleOf(r') == RoleOf(r) || (RoleOf(r') == NoRole && !RoleOf(r).Waker?))
    && (Alive(r) && !Exiting(r.pc) ==> Alive(r') && !Exiting(r'.pc) && r'.pid == r.pid)
  }

  /** Nothing about the lock changed; the inner lock may have been taken or dropped by p. */
  ghost predicate Apart(k: Kernel, k': Kernel, p: nat) {
    && |k'.procs| == |k.procs| && p < |k.procs|
    && k'.locked == k.locked && k'.owner == k.owner && k'.lockpid == k.lockpid
    && (k'.inner == k.inner
       || (!RoleOf(k.procs[p]).Waker? && (k.inner.None? || k.inner == Some(p))
          && (k'.inner.None? || k'.inner == Some(p))))
    && (forall r: nat :: r < |k.procs| && r != p ==> k'.procs[r] == k.procs[r] || SamePart(k.procs[r], k'.procs[r]))
  }

  lemma ApartKeeps(k: Kernel, k': Kernel, p: nat)
    requires Mutex(k) && Apart(k, k', p) && SamePart(k.procs[p], k'.procs[p])
    ensures Mutex(k')
  {
    hide RoleOf, Alive, Exiting;
    assert From(k') == From(k);
  }

  lemma DropMutex(k: Kernel, p: nat)
    requires Mutex(k) && OnCpu(k, p) && CanStep(k, p) && k.procs[p].state == RUNNING
    requires k.procs[p].pc == SlDrop(LockChan, Inner)
    ensures Mutex(NextStep(k, p))
  {
    var k' := NextStep(k, p);
    assert RoleOf(k.procs[p]) == Decided && RoleOf(k'.procs[p]) == Sleeper && !Exiting(k'.procs[p].pc);
    assert forall r: nat :: r < |k.procs| && r != p ==> k'.procs[r] == k.procs[r];
    hide RoleOf, Exiting;
  }

  lemma SleepMoves(k: Kernel, p: nat)
    requires OnCpu(k, p) && CanStep(k, p) && InSleep(k.procs[p].pc)
    requires (k.procs[p].pc.SlDrop? ==> k.procs[p].pc.chan != LockChan)
    requires StateOk(k.procs[p]) && PcOk(p, k.procs[p].pc)
    requires SpinOf(k.procs[p].pc) == Inner ==> k.inner == Some(p)
    ensures Apart(k, NextStep(k, p), p)
  {
  }

  lemma SleepParts(k: Kernel, p: nat)
    requires OnCpu(k, p) && CanStep(k, p) && InSleep(k.procs[p].pc)
    requires (k.procs[p].pc.SlDrop? ==> k.procs[p].pc.chan != LockChan)
    requires StateOk(k.procs[p]) && PcOk(p, k.procs[p].pc)
    ensures SamePart(k.procs[p], NextStep(k, p).procs[p])
  {
  }

  lemma SleepMutex(k: Kernel, p: nat)
    requires Locks(k) && Mutex(k) && OnCpu(k, p) && CanStep(k, p) && InSleep(k.procs[p].pc)
    ensures Mutex(NextStep(k, p))
  {
    hide HeldOk, CpusOk, Mutex, StateOk, PcOk, NextStep, CanStep, InSleep, SpinOf;
    PointOk(k, p);
    if k.procs[p].pc.SlDrop? && k.procs[p].pc.chan == LockChan {
      SleepsRunning(k, p);
      DropMutex(k, p);
    } else {
      SleepMoves(k, p);
      SleepParts(k, p);
      ApartKeeps(k, NextStep(k, p), p);
    }
  }

  lemma SleepsRunning(k: Kernel, p: nat)
    requires p < |k.procs| && StateOk(k.procs[p]) && PcOk(p, k.procs[p].pc) && k.procs[p].pc.SlDrop?
    requires k.procs[p].pc.chan == LockChan
    ensures k.procs[p].state == RUNNING && k.procs[p].pc == SlDrop(LockChan, Inner)
  {
  }

  // acquiresleep and releasesleep.

  lemma TakeMutex(k: Kernel, p: nat)
    requires Locks(k) && Mutex(k) && OnCpu(k, p) && CanStep(k, p) && k.procs[p].pc == AsTake
    ensures Mutex(NextStep(k, p))
  {
    hide HeldOk, CpusOk;
    var k' := NextStep(k, p);
    Alone(k, p);
    assert RoleOf(k.procs[p]) == Taker && RoleOf(k'.procs[p]) == Owner && !Exiting(k'.procs[p].pc)
           && StateOk(k.procs[p]);
    assert forall r: nat :: r < |k.procs| && r != p ==> k'.procs[r] == k.procs[r];
    hide RoleOf, Exiting, SpinsOk, StatesOk;
  }

  lemma ClearMutex(k: Kernel, p: nat)
    requires Locks(k) && Mutex(k) && OnCpu(k, p) && CanStep(k, p) && k.procs[p].pc == RsClear
    ensures Mutex(NextStep(k, p))
  {
    hide HeldOk, CpusOk;
    var k' := NextStep(k, p);
    Alone(k, p);
    assert RoleOf(k.procs[p]) == Owner && RoleOf(k'.procs[p]) == Waker(0);
    assert forall r: nat :: r < |k.procs| && r != p ==> k'.procs[r] == k.procs[r];
    hide RoleOf, Exiting, SpinsOk, StatesOk;
    assert From(k') == 0;
  }

  lemma TestMutex(k: Kernel, p: nat)
    requires Mutex(k) && OnCpu(k, p) && CanStep(k, p) && k.procs[p].pc == AsTest
    ensures Mutex(NextStep(k, p))
  {
    var k' := NextStep(k, p);
    assert RoleOf(k.procs[p]) == NoRole && RoleOf(k'.procs[p]) == (if k.locked then Decided else Taker)
           && !Exiting(k'.procs[p].pc);
    assert forall r: nat :: r < |k.procs| && r != p ==> k'.procs[r] == k.procs[r];
    hide RoleOf, Exiting;
    assert From(k') == From(k);
  }

  lemma LockMoves(k: Kernel, p: nat)
    requires OnCpu(k, p) && CanStep(k, p) && StateOk(k.procs[p])
    requires var pc := k.procs[p].pc; pc == AsAcquire || pc == AsRelease || pc == RsAcquire || pc == RsDone
    requires SpinOf(k.procs[p].pc) == Inner ==> k.inner == Some(p)
    ensures Apart(k, NextStep(k, p), p) && SamePart(k.procs[p], NextStep(k, p).procs[p])
  {
  }

  lemma LockMutex(k: Kernel, p: nat)
    requires Locks(k) && Mutex(k) && OnCpu(k, p) && CanStep(k, p) && InSleepLock(k.procs[p].pc)
    ensures Mutex(NextStep(k, p))
  {
    hide HeldOk, CpusOk, Mutex, StateOk, PcOk, NextStep, CanStep, SpinOf;
    PointOk(k, p);
    if k.procs[p].pc == AsTake {
      TakeMutex(k, p);
    } else if k.procs[p].pc == RsClear {
      ClearMutex(k, p);
    } else if k.procs[p].pc == AsTest {
      TestMutex(k, p);
    } else {
      LockMoves(k, p);
      ApartKeeps(k, NextStep(k, p), p);
    }
  }

  // wakeup.

  /** wakeup for the sleep lock passes the table end: nobody is left asleep. */
  lemma WakeEndMutex(k: Kernel, p: nat, i: nat)
    requires Mutex(k) && OnCpu(k, p) && k.procs[p].pc == Wk(LockChan, i, ToRelease) && i >= |k.procs|
    requires k.inner == Some(p)
    ensures Mutex(SetPc(k, p, RsDone))
  {
    var k' := SetPc(k, p, RsDone);
    assert RoleOf(k.procs[p]) == Waker(i) && RoleOf(k'.procs[p]) == NoRole && !Exiting(k'.procs[p].pc);
    assert forall r: nat :: r < |k.procs| && r != p ==> k'.procs[r] == k.procs[r];
    hide RoleOf, Exiting;
    assert From(k) == i;
  }

  /** wakeup for the sleep lock moves past index i, whose process is not (or no longer) asleep. */
  lemma WakePastMutex(k: Kernel, k': Kernel, p: nat, i: nat)
    requires Mutex(k) && |k'.procs| == |k.procs| && p < |k.procs| && i < |k.procs| && k.inner == Some(p)
    requires k'.inner == Some(p)
    requires k'.locked == k.locked && k'.owner == k.owner && k'.lockpid == k.lockpid
    requires RoleOf(k.procs[p]) == Waker(i) && RoleOf(k'.procs[p]) == Waker(i + 1)
    requires Alive(k'.procs[p]) && !Exiting(k'.procs[p].pc) && k'.procs[p].pid == k.procs[p].pid
    requires forall r: nat :: r < |k.procs| && r != p && r != i ==> k'.procs[r] == k.procs[r]
    requires i != p ==> SamePart(k.procs[i], k'.procs[i]) && RoleOf(k'.procs[i]) != Sleeper
    ensures Mutex(k')
  {
    hide RoleOf, Exiting, Alive;
    assert From(k) == i && From(k') == i + 1;
    forall q: nat | q < |k.procs| && RoleOf(k'.procs[q]) == Sleeper ensures RoleOf(k.procs[q]) == Sleeper && q != i {
    }
  }

  /** A process whose lock is held by another is not inside the window of sleep. */
  lemma NotInWindow(k: Kernel, p: nat, i: nat)
    requires HeldOk(k) && StatesOk(k) && p < |k.procs| && LockOf(p, k.procs[p].pc) == Some(i) && i != p
    ensures i < |k.procs| && !k.procs[i].pc.SlSet? && !k.procs[i].pc.SlSched?
    ensures RoleOf(k.procs[i]) == Sleeper ==>
              k.procs[i].state == SLEEPING && k.procs[i].chan == LockChan && k.procs[i].pc.SlOut?
  {
    hide PcOk;
    assert k.procs[i].lock == Some(OfProc(p));
    assert LockOf(i, k.procs[i].pc) != Some(i) && StateOk(k.procs[i]);
  }

  lemma SameButLock(r: Process, h: Option<Thread>)
    ensures SamePart(r, r.(lock := h))
  {
  }

  /** Being woken ends the sleep. */
  lemma WokenPart(r: Process, h: Option<Thread>)
    requires r.state == SLEEPING && r.pc.SlOut?
    ensures SamePart(r, r.(state := RUNNABLE, lock := h)) && RoleOf(r.(state := RUNNABLE, lock := h)) == NoRole
  {
  }

  lemma WkMoves(k: Kernel, p: nat)
    requires OnCpu(k, p) && CanStep(k, p)
    requires var pc := k.procs[p].pc; pc.Wk? && (pc.ret == ToRelease ==> pc.i < |k.procs| && pc.i != p)
    ensures Apart(k, NextStep(k, p), p)
  {
    var i := k.procs[p].pc.i;
    if i < |k.procs| {
      SameButLock(k.procs[i], Some(OfProc(p)));
    }
    hide SamePart;
  }

  lemma WkPart(k: Kernel, p: nat)
    requires OnCpu(k, p) && CanStep(k, p) && StateOk(k.procs[p])
    requires var pc := k.procs[p].pc; pc.Wk? && (pc.ret == ToRelease ==> pc.i < |k.procs| && pc.i != p)
    ensures SamePart(k.procs[p], NextStep(k, p).procs[p])
  {
  }

  /** The slot wakeup looks at keeps its part, and sleeps on the lock no more. */
  lemma WakedPart(k: Kernel, p: nat, i: nat, chan: Chan)
    requires HeldOk(k) && StatesOk(k) && p < |k.procs| && LockOf(p, k.procs[p].pc) == Some(i) && i != p && i < |k.procs|
    requires k.procs[i].state == SLEEPING ==> k.procs[i].pc.SlOut?
    ensures SamePart(k.procs[i], Waked(k.procs[i], chan))
    ensures chan == LockChan ==> RoleOf(Waked(k.procs[i], chan)) != Sleeper
  {
    NotInWindow(k, p, i);
    SameButLock(k.procs[i], None);
    if k.procs[i].state == SLEEPING {
      WokenPart(k.procs[i], None);
    }
    hide HeldOk, StatesOk;
  }

  lemma WakeUpAt(k: Kernel, p: nat)
    requires SpinsOk(k) && StatesOk(k) && p < |k.procs| && (k.procs[p].pc.Wk? || k.procs[p].pc.WkHeld?)
    ensures k.procs[p].state == RUNNING
    ensures k.procs[p].pc.ret == ToRelease ==> k.inner == Some(p) && k.procs[p].pc.chan == LockChan
  {
    assert StateOk(k.procs[p]) && PcOk(p, k.procs[p].pc);
  }

  lemma WkHeldMutex(k: Kernel, p: nat)
    requires Locks(k) && Mutex(k) && OnCpu(k, p) && CanStep(k, p) && k.procs[p].pc.WkHeld?
    ensures Mutex(NextStep(k, p))
  {
    hide HeldOk, CpusOk, SpinsOk, StatesOk, Mutex;
    var pc, k', i := k.procs[p].pc, NextStep(k, p), k.procs[p].pc.i;
    WakeUpAt(k, p);
    WkHeldShape(k, p);
    WakedPart(k, p, i, pc.chan);
    assert k'.inner == k.inner && k'.locked == k.locked && k'.owner == k.owner && k'.lockpid == k.lockpid;
    hide NextStep, CanStep;
    if pc.ret == ToRelease {
      assert forall r: nat :: r < |k.procs| && r != p && r != i ==> k'.procs[r] == k.procs[r];
      WakePastMutex(k, k', p, i);
    } else {
      assert SamePart(k.procs[p], k'.procs[p]);
      hide SamePart;
      assert Apart(k, k', p);
      ApartKeeps(k, k', p);
    }
  }

  lemma WkMutex(k: Kernel, p: nat)
    requires Locks(k) && Mutex(k) && OnCpu(k, p) && CanStep(k, p) && k.procs[p].pc.Wk?
    ensures Mutex(NextStep(k, p))
  {
    var pc, k', i := k.procs[p].pc, NextStep(k, p), k.procs[p].pc.i;
    assert StateOk(k.procs[p]) && PcOk(p, pc);
    if pc.ret == ToRelease && (i >= |k.procs| || i == p) {
      assert k.inner == Some(p);
      hide Locks, Mutex, SamePart, PcOk;
      if i >= |k.procs| {
        WakeEndMutex(k, p, i);
      } else {
        WakePastMutex(k, k', p, i);
      }
    } else {
      hide Locks, Mutex, SamePart, StateOk, PcOk, CanStep, NextStep, Apart;
      WkMoves(k, p);
      WkPart(k, p);
      ApartKeeps(k, k', p);
    }
  }

  // Steps of yield, wait, exit and fork, which play no part in the lock.

  lemma YieldMutex(k: Kernel, p: nat)
    requires Mutex(k) && OnCpu(k, p) && CanStep(k, p) && InYield(k.procs[p].pc) && StateOk(k.procs[p])
    ensures Mutex(NextStep(k, p))
  {
    hide Mutex;
    var pc := k.procs[p].pc;
    if pc.Yd? && (pc.step == YdLock || pc.step == YdSet) {
      YieldBeginsMutex(k, p);
    } else {
      ApartKeeps(k, NextStep(k, p), p);
    }
  }

  lemma YieldBeginsMutex(k: Kernel, p: nat)
    requires Mutex(k) && OnCpu(k, p) && CanStep(k, p) && StateOk(k.procs[p])
    requires k.procs[p].pc.Yd? && (k.procs[p].pc.step == YdLock || k.procs[p].pc.step == YdSet)
    ensures Mutex(NextStep(k, p))
  {
    hide Mutex;
    ApartKeeps(k, NextStep(k, p), p);
  }

  lemma WaitMutex(k: Kernel, p: nat)
    requires Mutex(k) && OnCpu(k, p) && CanStep(k, p) && InWait(k.procs[p].pc) && StateOk(k.procs[p])
    requires k.procs[p].pc.WtHeld? ==> k.procs[p].pc.i != p && StateOk(k.procs[k.procs[p].pc.i])
    ensures Mutex(NextStep(k, p))
  {
    hide Mutex, SamePart, RoleOf, Exiting, Alive, StateOk;
    var pc := k.procs[p].pc;
    if pc.WtScan? && pc.i < |k.procs| {
      SameButLock(k.procs[pc.i], Some(OfProc(p)));
    } else if pc.WtHeld? {
      SameButLock(k.procs[pc.i], None);
      if k.procs[pc.i].state == ZOMBIE {
        ZombiePart(k.procs[pc.i]);
      }
    }
    WaitPart(k, p);
    ApartKeeps(k, NextStep(k, p), p);
  }

  lemma ZombiePart(r: Process)
    requires StateOk(r) && (r.state == ZOMBIE || r.state == USED)
    ensures SamePart(r, UnusedSlot)
  {
  }

  lemma WaitPart(k: Kernel, p: nat)
    requires OnCpu(k, p) && CanStep(k, p) && InWait(k.procs[p].pc) && StateOk(k.procs[p])
    requires k.procs[p].pc.WtHeld? ==> k.procs[p].pc.i != p
    ensures SamePart(k.procs[p], NextStep(k, p).procs[p])
  {
  }

  lemma ExitMutex(k: Kernel, p: nat)
    requires Mutex(k) && OnCpu(k, p) && CanStep(k, p) && InExit(k.procs[p].pc)
    ensures Mutex(NextStep(k, p))
  {
    hide Mutex;
    var pc := k.procs[p].pc;
    if pc.ExScan? && pc.i < |k.procs| {
      assert SamePart(k.procs[pc.i], k.procs[pc.i].(parent := Some(k.init)));
    }
    ExitPart(k, p);
    hide SamePart, RoleOf;
    ApartKeeps(k, NextStep(k, p), p);
  }

  lemma ExitPart(k: Kernel, p: nat)
    requires OnCpu(k, p) && CanStep(k, p) && InExit(k.procs[p].pc)
    ensures SamePart(k.procs[p], NextStep(k, p).procs[p])
  {
  }

  lemma InForkPart(r: Process, r': Process)
    requires InFork(r.pc) && (InFork(r'.pc) || r'.pc == Run) && r'.state == r.state && r'.pid == r.pid
    ensures SamePart(r, r')
  {
  }

  lemma ForkScanMutex(k: Kernel, p: nat)
    requires Mutex(k) && OnCpu(k, p) && CanStep(k, p)
    requires var pc := k.procs[p].pc; pc.FkScan? || pc.FkBuild? || pc.FkAdopt? || pc.FkReady?
    requires ChildSlot(k.procs[p].pc).Some? ==> Building(k, p, ChildSlot(k.procs[p].pc).value)
    ensures Mutex(NextStep(k, p))
  {
    hide Mutex;
    if k.procs[p].pc.FkScan? || k.procs[p].pc.FkBuild? {
      ForkBuildMutex(k, p);
    } else {
      ForkReadyMutex(k, p);
    }
  }

  lemma ForkBuildMutex(k: Kernel, p: nat)
    requires Mutex(k) && OnCpu(k, p) && CanStep(k, p) && (k.procs[p].pc.FkScan? || k.procs[p].pc.FkBuild?)
    requires ChildSlot(k.procs[p].pc).Some? ==> Building(k, p, ChildSlot(k.procs[p].pc).value)
    ensures Mutex(NextStep(k, p))
  {
    hide Mutex, SamePart, RoleOf, Exiting, Alive;
    var k', i := NextStep(k, p), k.procs[p].pc.i;
    InForkPart(k.procs[p], k'.procs[p]);
    if i < |k.procs| {
      SameButLock(k.procs[i], k'.procs[i].lock);
    }
    hide InFork;
    ApartKeeps(k, k', p);
  }

  lemma ForkReadyMutex(k: Kernel, p: nat)
    requires Mutex(k) && OnCpu(k, p) && CanStep(k, p) && (k.procs[p].pc.FkAdopt? || k.procs[p].pc.FkReady?)
    requires ChildSlot(k.procs[p].pc).Some? ==> Building(k, p, ChildSlot(k.procs[p].pc).value)
    ensures Mutex(NextStep(k, p))
  {
    hide Mutex, SamePart, RoleOf, Exiting, Alive;
    var k', i := NextStep(k, p), k.procs[p].pc.i;
    InForkPart(k.procs[p], k'.procs[p]);
    if i < |k.procs| {
      SameButLock(k.procs[i], k'.procs[i].lock);
    }
    hide InFork;
    ApartKeeps(k, k', p);
  }

  lemma ForkHeldMutex(k: Kernel, p: nat)
    requires Mutex(k) && OnCpu(k, p) && CanStep(k, p) && k.procs[p].pc.FkHeld? && k.procs[p].state == RUNNING
    requires StateOk(k.procs[k.procs[p].pc.i])
    ensures Mutex(NextStep(k, p))
  {
    hide Mutex;
    var k', i := NextStep(k, p), k.procs[p].pc.i;
    InForkPart(k.procs[p], k'.procs[p]);
    if k.procs[i].state == UNUSED {
      UnusedIsFree(k.procs[i]);
      assert SamePart(k.procs[i], k.procs[i].(state := USED, pid := k.nextpid, pc := Fresh));
    } else {
      SameButLock(k.procs[i], None);
    }
    hide SamePart, RoleOf, InFork, StateOk;
    ApartKeeps(k, k', p);
  }

  lemma ForkChildMutex(k: Kernel, p: nat)
    requires Mutex(k) && OnCpu(k, p) && CanStep(k, p) && (k.procs[p].pc.FkParent? || k.procs[p].pc.FkSet?)
    requires Building(k, p, k.procs[p].pc.i)
    ensures Mutex(NextStep(k, p))
  {
    hide Mutex;
    var k', i := NextStep(k, p), k.procs[p].pc.i;
    InForkPart(k.procs[p], k'.procs[p]);
    assert SamePart(k.procs[i], k'.procs[i]);
    hide SamePart, RoleOf, InFork;
    ApartKeeps(k, k', p);
  }

  // The other actions.

  lemma CallMutex(k: Kernel, p: nat, entry: Pc)
    requires Mutex(k) && Enabled(k, Call(p, entry))
    ensures Mutex(SetPc(k, p, entry))
  {
    var k' := SetPc(k, p, entry);
    assert RoleOf(k.procs[p]) == NoRole && RoleOf(k'.procs[p]) == (if entry == RsAcquire then Owner else NoRole);
    assert k.owner == Some(p) ==> !Exiting(entry);
    hide RoleOf, Exiting, MayCall;
    assert From(k') == From(k);
  }

  lemma PreemptMutex(k: Kernel, p: nat)
    requires Mutex(k) && Enabled(k, Preempt(p))
    ensures Mutex(Next(k, Preempt(p)))
  {
    hide Mutex;
    ApartKeeps(k, Next(k, Preempt(p)), p);
  }

  lemma FailMutex(k: Kernel, p: nat)
    requires Mutex(k) && Enabled(k, Fail(p)) && StateOk(k.procs[p])
    requires k.procs[p].pc.i != p && StateOk(k.procs[k.procs[p].pc.i])
    requires k.procs[p].pc.FkBuild? ==> Building(k, p, k.procs[p].pc.i)
    ensures Mutex(Next(k, Fail(p)))
  {
    hide Mutex;
    var k', i := Next(k, Fail(p)), k.procs[p].pc.i;
    ZombiePart(k.procs[i]);
    SameButLock(k.procs[i], None);
    assert SamePart(k.procs[p], k'.procs[p]);
    hide SamePart, RoleOf, StateOk;
    ApartKeeps(k, k', p);
  }

  lemma WakenMutex(k: Kernel, q: nat)
    requires Mutex(k) && q < |k.procs| && k.procs[q].state == SLEEPING && k.procs[q].pc.SlOut?
    ensures Mutex(SetState(k, q, RUNNABLE))
  {
    hide Mutex;
    WokenPart(k.procs[q], k.procs[q].lock);
    ApartKeeps(k, SetState(k, q, RUNNABLE), q);
  }

  lemma DispatchMutex(k: Kernel, c: nat)
    requires Mutex(k) && Enabled(k, Dispatch(c))
    requires var pc := k.procs[k.cpus[c].p].pc; pc.SlOut? || (pc.Yd? && pc.step == YdOut) || pc == Fresh
    ensures Mutex(Next(k, Dispatch(c)))
  {
    hide Mutex;
    ApartKeeps(k, Next(k, Dispatch(c)), k.cpus[c].p);
  }

  lemma SchedulerMutex(k: Kernel, a: Action)
    requires Locks(k) && Mutex(k) && Enabled(k, a) && (a.Pick? || a.Dispatch? || a.Skip? || a.Leave?)
    ensures Mutex(Next(k, a))
  {
    hide Mutex, Locks;
    if a.Dispatch? {
      DispatchPoint(k, a.c);
      DispatchMutex(k, a.c);
    } else {
      var q := if a.Pick? then a.p else k.cpus[a.c].p;
      SameButLock(k.procs[q], Next(k, a).procs[q].lock);
      hide SamePart;
      ApartKeeps(k, Next(k, a), q);
    }
  }

  lemma StepMutex(k: Kernel, p: nat)
    requires Inv(k) && Mutex(k) && Enabled(k, Step(p))
    ensures Mutex(NextStep(k, p))
  {
    hide SpinsOk, HeldOk, CpusOk, StatesOk, StateOk, PcOk, Tree, Mutex, NextStep;
    PointOk(k, p);
    Points(k, p);
    NotSelf(k, p);
    var pc := k.procs[p].pc;
    if InSleep(pc) {
      SleepMutex(k, p);
    } else if InSleepLock(pc) {
      LockMutex(k, p);
    } else if InYield(pc) {
      YieldMutex(k, p);
    } else if InWait(pc) {
      if pc.WtHeld? {
        PointOk(k, pc.i);
      }
      WaitMutex(k, p);
    } else if InExit(pc) {
      ExitMutex(k, p);
    } else if pc.FkHeld? {
      PointOk(k, pc.i);
      RunsThere(k.procs[p]);
      ForkHeldMutex(k, p);
    } else if pc.FkParent? || pc.FkSet? {
      ForkChildMutex(k, p);
    } else if InFork(pc) {
      ForkScanMutex(k, p);
    } else if pc.Wk? {
      WkMutex(k, p);
    } else {
      WkHeldMutex(k, p);
    }
  }

  lemma MutexNext(k: Kernel, a: Action)
    requires Inv(k) && Mutex(k) && Enabled(k, a)
    ensures Mutex(Next(k, a))
  {
    hide SpinsOk, HeldOk, CpusOk, StatesOk, StateOk, PcOk, Tree, Mutex, NextStep, CanStep, MayCall;
    match a
    case Step(p) => StepMutex(k, p);
    case Call(p, entry) => CallMutex(k, p, entry);
    case Preempt(p) => PreemptMutex(k, p);
    case Fail(p) =>
      NotSelf(k, p);
      PointOk(k, p);
      PointOk(k, k.procs[p].pc.i);
      FailMutex(k, p);
    case Killed(p) =>
      PointOk(k, p);
      KilledMutex(k, p);
    case Wake(q) =>
      Woken(k, q, q);
      WakenMutex(k, q);
    case Pick(_, _) => SchedulerMutex(k, a);
    case Dispatch(_) => SchedulerMutex(k, a);
    case Skip(_) => SchedulerMutex(k, a);
    case Leave(_) => SchedulerMutex(k, a);
  }

  lemma KilledMutex(k: Kernel, p: nat)
    requires Mutex(k) && Enabled(k, Killed(p)) && StateOk(k.procs[p])
    ensures Mutex(Next(k, Killed(p)))
  {
    hide Mutex;
    ApartKeeps(k, Next(k, Killed(p)), p);
  }

  lemma BootMutex(nproc: nat, ncpu: nat)
    requires nproc > 0
    ensures Mutex(Boot(nproc, ncpu))
  {
    var k := Boot(nproc, ncpu);
    assert forall p: nat :: p < |k.procs| ==> RoleOf(k.procs[p]) == NoRole;
  }

  /** Exactly the owner answers yes to is_holdingsleep. */
  predicate IsHolding(k: Kernel, p: nat)
    requires p < |k.procs|
  {
    k.locked && k.lockpid == k.procs[p].pid
  }

  lemma HoldingIsOwning(k: Kernel, p: nat)
    requires PidsOk(k) && OwnerOk(k) && p < |k.procs| && k.procs[p].state != UNUSED
    ensures IsHolding(k, p) <==> k.owner == Some(p)
  {
    if k.owner.Some? && k.owner.value != p {
      assert k.procs[k.owner.value].pid != k.procs[p].pid;
    }
  }

  /** When the inner lock and the sleep lock are free nobody is asleep on the lock, or about to be. */
  lemma NoLostWakeup(k: Kernel, q: nat)
    requires NobodyMissed(k) && k.inner.None? && !k.locked && q < |k.procs|
    ensures RoleOf(k.procs[q]) != Sleeper
  {
  }

  lemma {:induction false} RunMutex(ks: seq<Kernel>, acts: seq<Action>, j: nat)
    requires IsRun(ks, acts) && j <= |acts|
    ensures Inv(ks[j]) && Mutex(ks[j])
  {
    hide Inv, Mutex, Boot, Enabled, Next;
    RunInv(ks, acts, j);
    if j == 0 {
      var nproc: nat, ncpu: nat :| nproc > 0 && ks[0] == Boot(nproc, ncpu);
      BootMutex(nproc, ncpu);
    } else {
      RunMutex(ks, acts, j - 1);
      MutexNext(ks[j - 1], acts[j - 1]);
    }
  }

  /**
   In every state of every run: at most one process holds the sleep lock, is_holdingsleep is true exactly
   for it, and while the lock and its inner lock are free nobody is asleep on it or about to be.
   */
  lemma SleepLockSafety(ks: seq<Kernel>, acts: seq<Action>, j: nat, p: nat, q: nat)
    requires IsRun(ks, acts) && j <= |acts| && p < |ks[j].procs| && q < |ks[j].procs|
    requires ks[j].procs[p].state != UNUSED && ks[j].procs[q].state != UNUSED
    ensures IsHolding(ks[j], p) && IsHolding(ks[j], q) ==> p == q
    ensures IsHolding(ks[j], p) <==> ks[j].owner == Some(p)
    ensures ks[j].inner.None? && !ks[j].locked ==>
              && !(ks[j].procs[p].state == SLEEPING && ks[j].procs[p].chan == LockChan)
              && ks[j].procs[p].pc != SlSet(LockChan, Inner)
  {
    hide SpinsOk, HeldOk, CpusOk, StatesOk, ParentsOk, InitOk, ReparentOk, ForksOk, WaitsOk, RootedOk, PidsOk;
    hide Boot, Enabled, Next, NobodyMissed, RolesOk, OwnerOk;
    RunMutex(ks, acts, j);
    HoldingIsOwning(ks[j], p);
    HoldingIsOwning(ks[j], q);
    if ks[j].inner.None? && !ks[j].locked {
      NoLostWakeup(ks[j], p);
      if (ks[j].procs[p].state == SLEEPING && ks[j].procs[p].chan == LockChan)
        || ks[j].procs[p].pc == SlSet(LockChan, Inner) {
        SleeperShape(ks[j], p);
      }
    }
  }

  lemma SleeperShape(k: Kernel, p: nat)
    requires StatesOk(k) && p < |k.procs|
    requires (k.procs[p].state == SLEEPING && k.procs[p].chan == LockChan) || k.procs[p].pc == SlSet(LockChan, Inner)
    ensures RoleOf(k.procs[p]) == Sleeper
  {
    assert StateOk(k.procs[p]) && PcOk(p, k.procs[p].pc);
  }

  /** Who owns the lock changes only when p takes it free in acquiresleep, or gives it up in releasesleep. */
  lemma OwnerStep(k: Kernel, p: nat)
    requires OnCpu(k, p) && CanStep(k, p) && NextStep(k, p).owner != k.owner
    ensures (k.procs[p].pc == AsTake && NextStep(k, p).owner == Some(p))
            || (k.procs[p].pc == RsClear && NextStep(k, p).owner.None?)
  {
  }

  /**
   In every run: the lock gets an owner only when it has none, by a step of that process in acquiresleep, and loses it
   only by a step of its owner in releasesleep; and acquiresleep comes to its end only for the owner.
   */
  lemma OwnedFromTo(ks: seq<Kernel>, acts: seq<Action>, j: nat, p: nat)
    requires IsRun(ks, acts) && j < |acts| && p < |ks[j].procs|
    ensures ks[j].procs[p].pc == AsRelease ==> ks[j].locked && ks[j].owner == Some(p)
    ensures ks[j + 1].owner == Some(p) && ks[j].owner != Some(p) ==>
              acts[j] == Step(p) && ks[j].owner.None? && ks[j].procs[p].pc == AsTake
    ensures ks[j].owner == Some(p) && ks[j + 1].owner != Some(p) ==>
              acts[j] == Step(p) && ks[j + 1].owner.None? && ks[j].procs[p].pc == RsClear
  {
    hide Inv, Boot, NobodyMissed, CanStep, NextStep;
    RunMutex(ks, acts, j);
    if ks[j + 1].owner != ks[j].owner {
      assert acts[j].Step?;
      var q := acts[j].p;
      OwnerStep(ks[j], q);
      assert RoleOf(ks[j].procs[q]) == (if ks[j].procs[q].pc == AsTake then Taker else Owner);
    }
  }
}
