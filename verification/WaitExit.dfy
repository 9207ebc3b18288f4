/**
 wait, exit and reparent (kernel/src/proc.c): no exit is missed. Whenever wait_lock is free, no process
 asleep in wait has a zombie child.
 */
module WaitExit {
  import opened Common
  import opened Proc
  import opened ProcLocks
  import opened ProcTree
  import opened ProcRuns

  /** The part a process plays between wait and exit. */
  datatype Part = NoPart | Napping | Seen(i: nat) | SeenAll | Waking(chan: Chan, i: nat) | Woke
    | Rescuing(chan: Chan, i: nat)

  /**
   Napping: asleep in wait, or past releasing wait_lock there. Seen: wait has looked at the slots below i.
   Waking: exit is waking its parent and has passed the slots below i; Woke: it has passed them all.
   Rescuing: reparent is waking init for a child it handed over.
   */
  function PartOf(r: Process): Part {
    match r.pc
    case SlLock(_, lk) => if lk == WaitLock then SeenAll else NoPart
    case SlDrop(_, lk) => if lk == WaitLock then SeenAll else NoPart
    case SlSet(_, lk) => if lk == WaitLock then Napping else NoPart
    case SlSched(_, lk) => if lk == WaitLock then Napping else NoPart
    case SlOut(_, lk) => if lk == WaitLock && r.state == SLEEPING then Napping else NoPart
    case WtScan(i, _) => Seen(i)
    case WtHeld(i) => Seen(i)
    case WtDecide(_) => SeenAll
    case Wk(chan, i, ret) => WakePart(chan, i, ret)
    case WkHeld(chan, i, ret) => WakePart(chan, i, ret)
    case ExLock => Woke
    case ExZombie => Woke
    case _ => NoPart
  }

  function WakePart(chan: Chan, i: nat, ret: Ret): Part {
    match ret
    case ToRelease => NoPart
    case ToScan(_) => Rescuing(chan, i)
    case ToZombie => Waking(chan, i)
  }

  /** wait has looked at slot j. */
  predicate Saw(a: Part, j: nat) {
    a.SeenAll? || (a.Seen? && j < a.i)
  }

  /** The wakeup of exit has passed slot j. */
  predicate Passes(a: Part, j: nat) {
    a.Woke? || (a.Waking? && j < a.i)
  }

  /** How far reparent's wakeup of init has come; beyond the table when none is running. */
  function Rescue(k: Kernel): nat {
    if k.wait.Some? && k.wait.value < |k.procs| && PartOf(k.procs[k.wait.value]).Rescuing?
    then PartOf(k.procs[k.wait.value]).i
    else |k.procs|
  }

  /** A zombie's parent does not sleep in wait, unless it is init and its wakeup is still to come. */
  predicate NapsOk(k: Kernel) {
    forall q: nat, p: nat {:trigger k.procs[q].parent, PartOf(k.procs[p])} ::
      q < |k.procs| && p < |k.procs| && k.procs[q].state == ZOMBIE && k.procs[q].parent == Some(p)
        && PartOf(k.procs[p]) == Napping ==>
        p == k.init && Rescue(k) <= p
  }

  /** Once exit's wakeup has passed the parent, the parent is not asleep in wait. */
  predicate WokenOk(k: Kernel) {
    forall h: nat, p: nat {:trigger k.procs[h].parent, PartOf(k.procs[p])} ::
      h < |k.procs| && p < |k.procs| && k.procs[h].parent == Some(p) && Passes(PartOf(k.procs[h]), p) ==>
        PartOf(k.procs[p]) != Napping
  }

  /** No slot wait has looked at holds a zombie child. */
  predicate SeenOk(k: Kernel) {
    forall p: nat, j: nat {:trigger PartOf(k.procs[p]), k.procs[j].parent} ::
      p < |k.procs| && j < |k.procs| && k.procs[j].parent == Some(p) && Saw(PartOf(k.procs[p]), j) ==>
          k.procs[j].state != ZOMBIE
  }

  /** exit wakes its parent, reparent wakes init. */
  predicate ChansOk(k: Kernel) {
    forall h: nat :: h < |k.procs| ==>
      && (PartOf(k.procs[h]).Waking? ==>
           k.procs[h].parent.Some? && PartOf(k.procs[h]).chan == ProcChan(k.procs[h].parent.value))
      && (PartOf(k.procs[h]).Rescuing? ==> PartOf(k.procs[h]).chan == ProcChan(k.init))
  }

  predicate Waits(k: Kernel) {
    NapsOk(k) && WokenOk(k) && SeenOk(k) && ChansOk(k)
  }

  /** A process keeps its part, drops it, or starts a scan; it does not become a zombie or somebody else's child. */
  predicate Beside(r: Process, r': Process) {
    && (PartOf(r') == PartOf(r) || ((PartOf(r') == NoPart || PartOf(r') == Seen(0)) && !PartOf(r).Rescuing?))
    && (r'.state == ZOMBIE ==> r.state == ZOMBIE)
    && (r'.parent == r.parent || (PartOf(r') == NoPart && (r'.parent.None? || r'.state != ZOMBIE)))
  }

  /** Nothing between wait and exit happened; p may have taken or dropped wait_lock. */
  ghost predicate Still(k: Kernel, k': Kernel, p: nat) {
    && |k'.procs| == |k.procs| && p < |k.procs| && k'.init == k.init
    && (k'.wait == k.wait
       || (!PartOf(k.procs[p]).Rescuing? && (k.wait.None? || k.wait == Some(p))
          && (k'.wait.None? || k'.wait == Some(p))))
    && (forall r: nat :: r < |k.procs| && r != p ==> k'.procs[r] == k.procs[r] || Beside(k.procs[r], k'.procs[r]))
  }

  lemma StillAll(k: Kernel, k': Kernel, p: nat, r: nat)
    requires Still(k, k', p) && Beside(k.procs[p], k'.procs[p]) && r < |k.procs|
    ensures Beside(k.procs[r], k'.procs[r])
  {
    hide PartOf;
  }

  lemma StillRescue(k: Kernel, k': Kernel, p: nat)
    requires Still(k, k', p) && Beside(k.procs[p], k'.procs[p])
    ensures Rescue(k') == Rescue(k)
  {
    hide PartOf;
  }

  lemma StillKeeps(k: Kernel, k': Kernel, p: nat)
    requires Waits(k) && Still(k, k', p) && Beside(k.procs[p], k'.procs[p])
    ensures Waits(k')
  {
    StillRescue(k, k', p);
    hide PartOf, Rescue;
    forall r: nat | r < |k.procs| ensures Beside(k.procs[r], k'.procs[r]) {
      StillAll(k, k', p, r);
    }
    hide Still;
  }

  /** The holder of wait_lock is alone in the parts that need it. */
  lemma Alone(k: Kernel, p: nat)
    requires SpinsOk(k) && p < |k.procs| && SpinOf(k.procs[p].pc) == WaitLock
    ensures k.wait == Some(p)
    ensures forall q: nat :: q < |k.procs| && q != p ==> PartOf(k.procs[q]) == NoPart || PartOf(k.procs[q]) == Napping
  {
    forall q: nat | q < |k.procs| && q != p ensures PartOf(k.procs[q]) == NoPart || PartOf(k.procs[q]) == Napping {
      assert SpinOf(k.procs[q].pc) != WaitLock;
      PartNeedsLock(k.procs[q]);
    }
  }

  lemma PartNeedsLock(r: Process)
    requires SpinOf(r.pc) != WaitLock
    ensures PartOf(r) == NoPart || PartOf(r) == Napping
  {
  }

  lemma SameButLock(r: Process, h: Option<Thread>)
    ensures Beside(r, r.(lock := h))
  {
  }

  lemma WokenBeside(r: Process, h: Option<Thread>)
    requires r.state == SLEEPING && r.pc.SlOut?
    ensures Beside(r, r.(state := RUNNABLE, lock := h)) && PartOf(r.(state := RUNNABLE, lock := h)) == NoPart
  {
  }

  // sleep.

  /** wait lets go of wait_lock: it has seen every child, and none was a zombie. */
  lemma NapWaits(k: Kernel, p: nat)
    requires SpinsOk(k) && Waits(k) && OnCpu(k, p) && CanStep(k, p) && k.procs[p].pc.SlDrop?
    requires k.procs[p].pc.lk == WaitLock
    ensures Waits(NextStep(k, p))
  {
    var k' := NextStep(k, p);
    Alone(k, p);
    assert PartOf(k.procs[p]) == SeenAll && PartOf(k'.procs[p]) == Napping;
    assert forall r: nat :: r < |k.procs| && r != p ==> k'.procs[r] == k.procs[r];
    assert k'.procs[p].state == k.procs[p].state && k'.procs[p].parent == k.procs[p].parent && k'.init == k.init;
    hide PartOf, SpinsOk, NextStep, CanStep;
  }

  lemma SleepMoves(k: Kernel, p: nat)
    requires OnCpu(k, p) && CanStep(k, p) && InSleep(k.procs[p].pc)
    requires !(k.procs[p].pc.SlDrop? && k.procs[p].pc.lk == WaitLock)
    requires SpinOf(k.procs[p].pc) == WaitLock ==> k.wait == Some(p)
    ensures Still(k, NextStep(k, p), p)
  {
  }

  lemma SleepBeside(k: Kernel, p: nat)
    requires OnCpu(k, p) && CanStep(k, p) && InSleep(k.procs[p].pc)
    requires !(k.procs[p].pc.SlDrop? && k.procs[p].pc.lk == WaitLock)
    requires StateOk(k.procs[p])
    ensures Beside(k.procs[p], NextStep(k, p).procs[p])
  {
  }

  lemma SleepWaits(k: Kernel, p: nat)
    requires Locks(k) && Waits(k) && OnCpu(k, p) && CanStep(k, p) && InSleep(k.procs[p].pc)
    ensures Waits(NextStep(k, p))
  {
    hide HeldOk, CpusOk, Waits, StateOk, PcOk, NextStep, CanStep, InSleep, SpinOf;
    PointOk(k, p);
    if k.procs[p].pc.SlDrop? && k.procs[p].pc.lk == WaitLock {
      NapWaits(k, p);
    } else {
      SleepMoves(k, p);
      SleepBeside(k, p);
      StillKeeps(k, NextStep(k, p), p);
    }
  }

  lemma LockWaits(k: Kernel, p: nat)
    requires Waits(k) && OnCpu(k, p) && CanStep(k, p) && InSleepLock(k.procs[p].pc)
    ensures Waits(NextStep(k, p))
  {
    hide Waits;
    StillKeeps(k, NextStep(k, p), p);
  }

  lemma YieldWaits(k: Kernel, p: nat)
    requires Waits(k) && OnCpu(k, p) && CanStep(k, p) && InYield(k.procs[p].pc)
    ensures Waits(NextStep(k, p))
  {
    hide Waits;
    StillKeeps(k, NextStep(k, p), p);
  }

  // wait.

  /** wait's scan moves past a slot that holds no zombie child. */
  lemma ScanWaits(k: Kernel, k': Kernel, p: nat, i: nat)
    requires Waits(k) && |k'.procs| == |k.procs| && p < |k.procs| && k'.init == k.init && k'.wait == k.wait
    requires PartOf(k.procs[p]) == Seen(i) && k'.procs[p].parent == k.procs[p].parent
    requires k'.procs[p].state == k.procs[p].state
    requires PartOf(k'.procs[p]) == Seen(i + 1) || (PartOf(k'.procs[p]) == SeenAll && i >= |k.procs|)
    requires i < |k.procs| ==> k.procs[i].state != ZOMBIE || k.procs[i].parent != Some(p)
    requires forall r: nat :: r < |k.procs| && r != p ==> k'.procs[r] == k.procs[r].(lock := k'.procs[r].lock)
    ensures Waits(k')
  {
    forall r: nat | r < |k.procs| && r != p ensures PartOf(k'.procs[r]) == PartOf(k.procs[r]) {
      SameButLock(k.procs[r], k'.procs[r].lock);
    }
    hide PartOf;
    assert Rescue(k') == Rescue(k);
    hide Rescue;
    assert SeenOk(k');
    hide SeenOk, Saw;
  }

  lemma WtScanWaits(k: Kernel, p: nat)
    requires Waits(k) && OnCpu(k, p) && CanStep(k, p) && k.procs[p].pc.WtScan?
    ensures Waits(NextStep(k, p))
  {
    hide Waits;
    var k', i := NextStep(k, p), k.procs[p].pc.i;
    if i < |k.procs| && k.procs[i].parent == Some(p) {
      SameButLock(k.procs[i], Some(OfProc(p)));
      StillKeeps(k, k', p);
    } else {
      ScanWaits(k, k', p, i);
    }
  }

  lemma WtHeldWaits(k: Kernel, p: nat)
    requires Waits(k) && OnCpu(k, p) && CanStep(k, p) && k.procs[p].pc.WtHeld? && k.procs[p].pc.i != p
    requires StateOk(k.procs[k.procs[p].pc.i])
    ensures Waits(NextStep(k, p))
  {
    hide Waits;
    var k', i := NextStep(k, p), k.procs[p].pc.i;
    if k.procs[i].state == ZOMBIE {
      ZombieBeside(k.procs[i]);
      assert Beside(k.procs[p], k'.procs[p]);
      hide Beside, PartOf, StateOk;
      StillKeeps(k, k', p);
    } else {
      ScanWaits(k, k', p, i);
    }
  }

  lemma ZombieBeside(r: Process)
    requires StateOk(r) && (r.state == ZOMBIE || r.state == USED)
    ensures Beside(r, UnusedSlot)
  {
  }

  lemma WaitEndsWaits(k: Kernel, p: nat)
    requires Waits(k) && OnCpu(k, p) && CanStep(k, p)
    requires (k.procs[p].pc.WtAcquire? || k.procs[p].pc.WtDecide? || k.procs[p].pc.WtDone?)
    requires SpinOf(k.procs[p].pc) == WaitLock ==> k.wait == Some(p)
    ensures Waits(NextStep(k, p))
  {
    hide Waits;
    StillKeeps(k, NextStep(k, p), p);
  }

  // exit.

  lemma ExitMoves(k: Kernel, p: nat)
    requires Waits(k) && OnCpu(k, p) && CanStep(k, p) && StateOk(k.procs[p])
    requires var pc := k.procs[p].pc;
             || pc == ExAcquire || pc == ExLock || pc == ExDrop || pc == ExSched
             || (pc.ExScan? && pc.i < |k.procs| && k.procs[pc.i].parent != Some(p))
    requires SpinOf(k.procs[p].pc) == WaitLock ==> k.wait == Some(p)
    ensures Waits(NextStep(k, p))
  {
    hide Waits;
    if k.procs[p].pc == ExAcquire || k.procs[p].pc == ExLock {
      ExitLocks(k, p);
    } else {
      StillKeeps(k, NextStep(k, p), p);
    }
  }

  lemma ExitLocks(k: Kernel, p: nat)
    requires Waits(k) && OnCpu(k, p) && CanStep(k, p) && StateOk(k.procs[p])
    requires k.procs[p].pc == ExAcquire || k.procs[p].pc == ExLock
    requires SpinOf(k.procs[p].pc) == WaitLock ==> k.wait == Some(p)
    ensures Waits(NextStep(k, p))
  {
    hide Waits;
    StillKeeps(k, NextStep(k, p), p);
  }

  /** reparent is done: exit turns to waking its own parent, if it has one. */
  lemma StartWake(k: Kernel, p: nat)
    requires SpinsOk(k) && Waits(k) && OnCpu(k, p) && CanStep(k, p) && k.procs[p].pc.ExScan?
    requires k.procs[p].pc.i >= |k.procs|
    ensures Waits(NextStep(k, p))
  {
    var k' := NextStep(k, p);
    Alone(k, p);
    assert PartOf(k.procs[p]) == NoPart;
    assert PartOf(k'.procs[p]) == if k.procs[p].parent.Some? then Waking(ProcChan(k.procs[p].parent.value), 0)
                                  else Woke;
    assert forall r: nat :: r < |k.procs| && r != p ==> k'.procs[r] == k.procs[r];
    hide PartOf, SpinsOk, Waits;
    WakeStarted(k, k', p);
  }

  lemma WakeStarted(k: Kernel, k': Kernel, p: nat)
    requires Waits(k) && p < |k.procs| == |k'.procs| && k.wait == Some(p) && k'.wait == k.wait && k'.init == k.init
    requires k'.procs[p].state == k.procs[p].state && k'.procs[p].parent == k.procs[p].parent
    requires PartOf(k.procs[p]) == NoPart
    requires PartOf(k'.procs[p]) ==
               if k.procs[p].parent.Some? then Waking(ProcChan(k.procs[p].parent.value), 0) else Woke
    requires forall q: nat :: q < |k.procs| && q != p ==> PartOf(k.procs[q]) == NoPart || PartOf(k.procs[q]) == Napping
    requires forall r: nat :: r < |k.procs| && r != p ==> k'.procs[r] == k.procs[r]
    ensures Waits(k')
  {
    hide PartOf;
    assert Rescue(k) == |k.procs| && Rescue(k') == |k.procs|;
    hide Rescue;
    assert NapsOk(k');
    assert WokenOk(k');
    assert SeenOk(k');
  }

  /** The process turns zombie after its wakeup passed the parent, with wait_lock held. */
  lemma ZombieWaits(k: Kernel, p: nat)
    requires SpinsOk(k) && Waits(k) && OnCpu(k, p) && k.procs[p].pc == ExZombie && k.procs[p].parent != Some(p)
    ensures Waits(SetPc(SetState(k, p, ZOMBIE), p, ExDrop))
  {
    var k' := SetPc(SetState(k, p, ZOMBIE), p, ExDrop);
    Alone(k, p);
    assert PartOf(k.procs[p]) == Woke && PartOf(k'.procs[p]) == NoPart;
    assert forall r: nat :: r < |k.procs| && r != p ==> k'.procs[r] == k.procs[r];
    hide PartOf, SpinsOk;
  }

  /** A zombie or live child goes to init, whose wakeup starts. */
  lemma RescueWaits(k: Kernel, p: nat, i: nat)
    requires SpinsOk(k) && Waits(k) && OnCpu(k, p) && k.procs[p].pc == ExScan(i) && i < |k.procs| && i != p
    requires p != k.init
    ensures Waits(SetPc(SetProc(k, i, k.procs[i].(parent := Some(k.init))), p, Wk(ProcChan(k.init), 0, ToScan(i + 1))))
  {
    hide Waits;
    var k' := SetPc(SetProc(k, i, k.procs[i].(parent := Some(k.init))), p, Wk(ProcChan(k.init), 0, ToScan(i + 1)));
    Alone(k, p);
    assert PartOf(k.procs[p]) == NoPart && PartOf(k'.procs[p]) == Rescuing(ProcChan(k.init), 0);
    ParentPart(k.procs[i], Some(k.init));
    hide PartOf, SpinsOk;
    Rescued(k, k', p, i);
  }

  lemma ParentPart(r: Process, x: Option<nat>)
    ensures PartOf(r.(parent := x)) == PartOf(r)
  {
  }

  lemma Rescued(k: Kernel, k': Kernel, p: nat, i: nat)
    requires Waits(k) && |k'.procs| == |k.procs| && p < |k.procs| && i < |k.procs| && i != p && k'.init == k.init
    requires k.wait == Some(p) && k'.wait == k.wait
    requires PartOf(k.procs[p]) == NoPart && PartOf(k'.procs[p]) == Rescuing(ProcChan(k.init), 0)
    requires k'.procs[p].parent == k.procs[p].parent && k'.procs[p].state == k.procs[p].state
    requires forall q: nat :: q < |k.procs| && q != p ==> PartOf(k.procs[q]) == NoPart || PartOf(k.procs[q]) == Napping
    requires forall r: nat :: r < |k.procs| && r != p ==>
              PartOf(k'.procs[r]) == PartOf(k.procs[r]) && k'.procs[r].state == k.procs[r].state
    requires forall r: nat :: r < |k.procs| && r != p && r != i ==> k'.procs[r].parent == k.procs[r].parent
    requires k'.procs[i].parent == Some(k.init)
    ensures Waits(k')
  {
    hide PartOf;
    assert Rescue(k') == 0 && Rescue(k) == |k.procs|;
    hide Rescue;
    assert NapsOk(k');
    assert WokenOk(k');
    assert SeenOk(k');
  }

  // wakeup.

  lemma WakeEnd(k: Kernel, p: nat, chan: Chan, i: nat, ret: Ret)
    requires SpinsOk(k) && Waits(k) && OnCpu(k, p) && k.procs[p].pc == Wk(chan, i, ret) && ret != ToRelease
    requires i >= |k.procs|
    ensures Waits(SetPc(k, p, Returned(ret)))
  {
    var k' := SetPc(k, p, Returned(ret));
    Alone(k, p);
    assert PartOf(k.procs[p]) == WakePart(chan, i, ret);
    assert PartOf(k'.procs[p]) == if ret == ToZombie then Woke else NoPart;
    assert forall r: nat :: r < |k.procs| && r != p ==> k'.procs[r] == k.procs[r];
    hide PartOf, SpinsOk, Waits;
    WakeDone(k, k', p, chan, i, ret);
  }

  /** wakeup has passed every slot. */
  lemma WakeDone(k: Kernel, k': Kernel, p: nat, chan: Chan, i: nat, ret: Ret)
    requires Waits(k) && p < |k.procs| == |k'.procs| && i >= |k.procs| && ret != ToRelease
    requires k.wait == Some(p) && k'.wait == k.wait && k'.init == k.init
    requires PartOf(k.procs[p]) == WakePart(chan, i, ret)
    requires PartOf(k'.procs[p]) == if ret == ToZombie then Woke else NoPart
    requires k'.procs[p].parent == k.procs[p].parent && k'.procs[p].state == k.procs[p].state
    requires forall q: nat :: q < |k.procs| && q != p ==> PartOf(k.procs[q]) == NoPart || PartOf(k.procs[q]) == Napping
    requires forall r: nat :: r < |k.procs| && r != p ==> k'.procs[r] == k.procs[r]
    ensures Waits(k')
  {
    hide PartOf;
    assert Rescue(k') == |k.procs| && (ret == ToZombie ==> Rescue(k) == |k.procs|) && (ret.ToScan? ==> Rescue(k) == i);
    hide Rescue, WakePart;
    assert NapsOk(k');
    assert WokenOk(k');
    assert SeenOk(k');
  }

  /** wakeup moves past slot i, which is not asleep in wait if it is the one to wake. */
  lemma WakePast(k: Kernel, k': Kernel, p: nat, chan: Chan, i: nat, ret: Ret)
    requires Waits(k) && |k'.procs| == |k.procs| && p < |k.procs| && i < |k.procs| && k'.init == k.init
    requires k.wait == Some(p) && k'.wait == k.wait && ret != ToRelease
    requires PartOf(k.procs[p]) == WakePart(chan, i, ret) && PartOf(k'.procs[p]) == WakePart(chan, i + 1, ret)
    requires k'.procs[p].parent == k.procs[p].parent && k'.procs[p].state == k.procs[p].state
    requires forall q: nat :: q < |k.procs| && q != p ==> PartOf(k.procs[q]) == NoPart || PartOf(k.procs[q]) == Napping
    requires forall r: nat :: r < |k.procs| && r != p && r != i ==> k'.procs[r] == k.procs[r]
    requires i != p ==> Beside(k.procs[i], k'.procs[i]) && k'.procs[i].parent == k.procs[i].parent
    requires i != p && chan == ProcChan(i) ==> PartOf(k'.procs[i]) != Napping
    ensures Waits(k')
  {
    hide PartOf;
    forall r: nat | r < |k.procs| && r != p
      ensures Beside(k.procs[r], k'.procs[r]) && k'.procs[r].parent == k.procs[r].parent
      ensures (PartOf(k'.procs[r]) == Napping ==> PartOf(k.procs[r]) == Napping)
    {
    }
    assert ret.ToScan? ==> Rescue(k) == i && Rescue(k') == i + 1 && chan == ProcChan(k.init);
    assert ret == ToZombie ==> Rescue(k) == |k.procs| && Rescue(k') == |k.procs|;
    hide Rescue;
    assert NapsOk(k');
    assert WokenOk(k');
    assert SeenOk(k');
  }

  /** A process whose lock another process holds is asleep in wait only off its CPU, on its own channel. */
  lemma NotInWindow(k: Kernel, p: nat, i: nat)
    requires HeldOk(k) && StatesOk(k) && p < |k.procs| && LockOf(p, k.procs[p].pc) == Some(i) && i != p
    ensures i < |k.procs|
    ensures PartOf(k.procs[i]) == Napping ==> k.procs[i].state == SLEEPING && k.procs[i].chan == ProcChan(i)
  {
    assert k.procs[i].lock == Some(OfProc(p));
    assert LockOf(i, k.procs[i].pc) != Some(i) && StateOk(k.procs[i]) && PcOk(i, k.procs[i].pc);
  }

  /** The slot wakeup looks at keeps its part, and is not asleep in wait if it was to be woken. */
  lemma WakedBeside(k: Kernel, p: nat, i: nat, chan: Chan)
    requires HeldOk(k) && StatesOk(k) && p < |k.procs| && LockOf(p, k.procs[p].pc) == Some(i) && i != p && i < |k.procs|
    requires k.procs[i].state == SLEEPING ==> k.procs[i].pc.SlOut?
    ensures Beside(k.procs[i], Waked(k.procs[i], chan)) && Waked(k.procs[i], chan).parent == k.procs[i].parent
    ensures chan == ProcChan(i) ==> PartOf(Waked(k.procs[i], chan)) != Napping
  {
    NotInWindow(k, p, i);
    SameButLock(k.procs[i], None);
    if k.procs[i].state == SLEEPING {
      WokenBeside(k.procs[i], None);
    }
    hide HeldOk, StatesOk;
  }

  lemma WkHeldWaits(k: Kernel, p: nat)
    requires Locks(k) && Waits(k) && OnCpu(k, p) && CanStep(k, p) && k.procs[p].pc.WkHeld?
    ensures Waits(NextStep(k, p))
  {
    hide HeldOk, CpusOk, StatesOk, Waits;
    var pc, k', i := k.procs[p].pc, NextStep(k, p), k.procs[p].pc.i;
    WkHeldShape(k, p);
    WakedBeside(k, p, i, pc.chan);
    assert k'.wait == k.wait && k'.init == k.init;
    hide NextStep, CanStep;
    if pc.ret == ToRelease {
      assert Beside(k.procs[p], k'.procs[p]);
      hide SpinsOk, Beside;
      assert Still(k, k', p);
      StillKeeps(k, k', p);
    } else {
      Alone(k, p);
      assert PartOf(k.procs[p]) == WakePart(pc.chan, i, pc.ret)
             && PartOf(k'.procs[p]) == WakePart(pc.chan, i + 1, pc.ret);
      hide SpinsOk, Beside, PartOf;
      WakePast(k, k', p, pc.chan, i, pc.ret);
    }
  }

  lemma WkTakes(k: Kernel, p: nat)
    requires Waits(k) && OnCpu(k, p) && CanStep(k, p) && k.procs[p].pc.Wk?
    requires k.procs[p].pc.ret == ToRelease || (k.procs[p].pc.i < |k.procs| && k.procs[p].pc.i != p)
    ensures Waits(NextStep(k, p))
  {
    hide Waits;
    var i := k.procs[p].pc.i;
    if i < |k.procs| {
      SameButLock(k.procs[i], Some(OfProc(p)));
    }
    assert Beside(k.procs[p], NextStep(k, p).procs[p]);
    hide Beside;
    StillKeeps(k, NextStep(k, p), p);
  }

  lemma WkWaits(k: Kernel, p: nat)
    requires SpinsOk(k) && Waits(k) && OnCpu(k, p) && CanStep(k, p) && k.procs[p].pc.Wk?
    ensures Waits(NextStep(k, p))
  {
    hide Waits;
    var pc, i := k.procs[p].pc, k.procs[p].pc.i;
    if pc.ret == ToRelease || (i < |k.procs| && i != p) {
      WkTakes(k, p);
    } else if i >= |k.procs| {
      WakeEnd(k, p, pc.chan, i, pc.ret);
    } else {
      Alone(k, p);
      WakePast(k, NextStep(k, p), p, pc.chan, i, pc.ret);
    }
  }

  // fork.

  lemma InForkBeside(r: Process, r': Process)
    requires InFork(r.pc) && (InFork(r'.pc) || r'.pc == Run) && r'.state == r.state && r'.parent == r.parent
    ensures !PartOf(r).Rescuing?
    ensures Beside(r, r')
  {
  }

  lemma ForkScanWaits(k: Kernel, p: nat)
    requires Waits(k) && OnCpu(k, p) && CanStep(k, p)
    requires var pc := k.procs[p].pc; pc.FkScan? || pc.FkBuild? || pc.FkAdopt? || pc.FkReady?
    requires ChildSlot(k.procs[p].pc).Some? ==> Building(k, p, ChildSlot(k.procs[p].pc).value)
    ensures Waits(NextStep(k, p))
  {
    hide Waits;
    if k.procs[p].pc.FkScan? || k.procs[p].pc.FkBuild? {
      ForkBuildWaits(k, p);
    } else {
      ForkReadyWaits(k, p);
    }
  }

  lemma ForkReadyWaits(k: Kernel, p: nat)
    requires Waits(k) && OnCpu(k, p) && CanStep(k, p) && (k.procs[p].pc.FkAdopt? || k.procs[p].pc.FkReady?)
    requires ChildSlot(k.procs[p].pc).Some? ==> Building(k, p, ChildSlot(k.procs[p].pc).value)
    ensures Waits(NextStep(k, p))
  {
    hide Waits;
    var k', i := NextStep(k, p), k.procs[p].pc.i;
    InForkBeside(k.procs[p], k'.procs[p]);
    if i < |k.procs| {
      SameButLock(k.procs[i], k'.procs[i].lock);
    }
    assert !PartOf(k.procs[p]).Rescuing?;
    hide Beside, PartOf, InFork;
    StillKeeps(k, k', p);
  }

  lemma ForkBuildWaits(k: Kernel, p: nat)
    requires Waits(k) && OnCpu(k, p) && CanStep(k, p) && (k.procs[p].pc.FkScan? || k.procs[p].pc.FkBuild?)
    requires ChildSlot(k.procs[p].pc).Some? ==> Building(k, p, ChildSlot(k.procs[p].pc).value)
    ensures Waits(NextStep(k, p))
  {
    hide Waits, Beside, PartOf;
    var k', i := NextStep(k, p), k.procs[p].pc.i;
    InForkBeside(k.procs[p], k'.procs[p]);
    if i < |k.procs| {
      SameButLock(k.procs[i], k'.procs[i].lock);
    }
    hide InFork;
    StillKeeps(k, k', p);
  }

  lemma ForkHeldWaits(k: Kernel, p: nat)
    requires Waits(k) && OnCpu(k, p) && CanStep(k, p) && k.procs[p].pc.FkHeld? && k.procs[p].state == RUNNING
    requires StateOk(k.procs[k.procs[p].pc.i])
    ensures Waits(NextStep(k, p))
  {
    hide Waits;
    var k', i := NextStep(k, p), k.procs[p].pc.i;
    InForkBeside(k.procs[p], k'.procs[p]);
    if k.procs[i].state == UNUSED {
      UnusedIsFree(k.procs[i]);
      assert Beside(k.procs[i], k.procs[i].(state := USED, pid := k.nextpid, pc := Fresh));
    } else {
      SameButLock(k.procs[i], None);
    }
    hide Beside, PartOf, InFork, StateOk;
    StillKeeps(k, k', p);
  }

  lemma ForkChildWaits(k: Kernel, p: nat)
    requires Waits(k) && OnCpu(k, p) && CanStep(k, p) && (k.procs[p].pc.FkParent? || k.procs[p].pc.FkSet?)
    requires Building(k, p, k.procs[p].pc.i) && (SpinOf(k.procs[p].pc) == WaitLock ==> k.wait == Some(p))
    ensures Waits(NextStep(k, p))
  {
    hide Waits;
    if k.procs[p].pc.FkParent? {
      ForkParentWaits(k, p);
    } else {
      ForkSetWaits(k, p);
    }
  }

  lemma ForkParentWaits(k: Kernel, p: nat)
    requires Waits(k) && OnCpu(k, p) && CanStep(k, p) && k.procs[p].pc.FkParent?
    requires Building(k, p, k.procs[p].pc.i) && (SpinOf(k.procs[p].pc) == WaitLock ==> k.wait == Some(p))
    ensures Waits(NextStep(k, p))
  {
    hide Waits;
    var k', i := NextStep(k, p), k.procs[p].pc.i;
    InForkBeside(k.procs[p], k'.procs[p]);
    assert Beside(k.procs[i], k'.procs[i]) && !PartOf(k.procs[p]).Rescuing?;
    hide Beside, PartOf, InFork;
    StillKeeps(k, k', p);
  }

  lemma ForkSetWaits(k: Kernel, p: nat)
    requires Waits(k) && OnCpu(k, p) && CanStep(k, p) && k.procs[p].pc.FkSet? && Building(k, p, k.procs[p].pc.i)
    ensures Waits(NextStep(k, p))
  {
    hide Waits;
    var k', i := NextStep(k, p), k.procs[p].pc.i;
    InForkBeside(k.procs[p], k'.procs[p]);
    assert Beside(k.procs[i], k'.procs[i]) && !PartOf(k.procs[p]).Rescuing?;
    hide Beside, PartOf, InFork;
    StillKeeps(k, k', p);
  }

  // The other actions.

  lemma CallWaits(k: Kernel, p: nat, entry: Pc)
    requires Waits(k) && Enabled(k, Call(p, entry))
    ensures Waits(SetPc(k, p, entry))
  {
    hide Waits;
    StillKeeps(k, SetPc(k, p, entry), p);
  }

  lemma PreemptWaits(k: Kernel, p: nat)
    requires Waits(k) && Enabled(k, Preempt(p))
    ensures Waits(Next(k, Preempt(p)))
  {
    hide Waits;
    StillKeeps(k, Next(k, Preempt(p)), p);
  }

  lemma FailWaits(k: Kernel, p: nat)
    requires Waits(k) && Enabled(k, Fail(p)) && k.procs[p].pc.i != p && StateOk(k.procs[k.procs[p].pc.i])
    requires k.procs[p].pc.FkBuild? ==> Building(k, p, k.procs[p].pc.i)
    ensures Waits(Next(k, Fail(p)))
  {
    hide Waits;
    var k', i := Next(k, Fail(p)), k.procs[p].pc.i;
    ZombieBeside(k.procs[i]);
    SameButLock(k.procs[i], None);
    assert Beside(k.procs[p], k'.procs[p]);
    hide Beside, PartOf, StateOk;
    StillKeeps(k, k', p);
  }

  lemma KilledWaits(k: Kernel, p: nat)
    requires Waits(k) && Enabled(k, Killed(p))
    ensures Waits(Next(k, Killed(p)))
  {
    hide Waits;
    StillKeeps(k, Next(k, Killed(p)), p);
  }

  lemma WakenWaits(k: Kernel, q: nat)
    requires Waits(k) && q < |k.procs| && k.procs[q].state == SLEEPING && k.procs[q].pc.SlOut?
    ensures Waits(SetState(k, q, RUNNABLE))
  {
    hide Waits;
    WokenBeside(k.procs[q], k.procs[q].lock);
    StillKeeps(k, SetState(k, q, RUNNABLE), q);
  }

  lemma DispatchWaits(k: Kernel, c: nat)
    requires Waits(k) && Enabled(k, Dispatch(c))
    requires var pc := k.procs[k.cpus[c].p].pc; pc.SlOut? || (pc.Yd? && pc.step == YdOut) || pc == Fresh
    ensures Waits(Next(k, Dispatch(c)))
  {
    hide Waits;
    StillKeeps(k, Next(k, Dispatch(c)), k.cpus[c].p);
  }

  lemma SchedulerWaits(k: Kernel, a: Action)
    requires Locks(k) && Waits(k) && Enabled(k, a) && (a.Pick? || a.Dispatch? || a.Skip? || a.Leave?)
    ensures Waits(Next(k, a))
  {
    hide Waits, Locks;
    if a.Dispatch? {
      DispatchPoint(k, a.c);
      DispatchWaits(k, a.c);
    } else {
      var q := if a.Pick? then a.p else k.cpus[a.c].p;
      SameButLock(k.procs[q], Next(k, a).procs[q].lock);
      hide Beside;
      StillKeeps(k, Next(k, a), q);
    }
  }

  lemma ExitWaits(k: Kernel, p: nat)
    requires Inv(k) && Waits(k) && OnCpu(k, p) && CanStep(k, p) && InExit(k.procs[p].pc)
    ensures Waits(NextStep(k, p))
  {
    hide HeldOk, CpusOk, StatesOk, StateOk, Tree, Waits;
    var pc := k.procs[p].pc;
    PointOk(k, p);
    if pc == ExZombie {
      NotOwnParent(k, p);
      ZombieWaits(k, p);
    } else if pc.ExScan? && pc.i >= |k.procs| {
      StartWake(k, p);
    } else if pc.ExScan? && k.procs[pc.i].parent == Some(p) {
      NotOwnParent(k, p);
      ExitIsNotInit(k, p);
      RescueWaits(k, p, pc.i);
    } else {
      ExitMoves(k, p);
    }
  }

  lemma NotOwnParent(k: Kernel, p: nat)
    requires Tree(k) && p < |k.procs|
    ensures k.procs[p].parent != Some(p)
  {
    assert k.procs[p].pid == k.procs[p].pid;
  }

  lemma ExitIsNotInit(k: Kernel, p: nat)
    requires Tree(k) && p < |k.procs| && k.procs[p].pc.ExScan?
    ensures p != k.init
  {
    ExitFacts(k, p);
  }

  lemma HolderOf(k: Kernel, p: nat)
    requires SpinsOk(k) && p < |k.procs|
    ensures SpinOf(k.procs[p].pc) == WaitLock ==> k.wait == Some(p)
  {
  }

  lemma StepWaits(k: Kernel, p: nat)
    requires Inv(k) && Waits(k) && Enabled(k, Step(p))
    ensures Waits(NextStep(k, p))
  {
    hide SpinsOk, HeldOk, CpusOk, StatesOk, StateOk, PcOk, Tree, Waits, NextStep, SpinOf;
    PointOk(k, p);
    Points(k, p);
    NotSelf(k, p);
    HolderOf(k, p);
    var pc := k.procs[p].pc;
    if InSleep(pc) {
      SleepWaits(k, p);
    } else if InSleepLock(pc) {
      LockWaits(k, p);
    } else if InYield(pc) {
      YieldWaits(k, p);
    } else if pc.WtScan? {
      WtScanWaits(k, p);
    } else if pc.WtHeld? {
      PointOk(k, pc.i);
      WtHeldWaits(k, p);
    } else if InWait(pc) {
      WaitEndsWaits(k, p);
    } else if InExit(pc) {
      ExitWaits(k, p);
    } else if pc.FkHeld? {
      PointOk(k, pc.i);
      RunsThere(k.procs[p]);
      ForkHeldWaits(k, p);
    } else if pc.FkParent? || pc.FkSet? {
      ForkChildWaits(k, p);
    } else if InFork(pc) {
      ForkScanWaits(k, p);
    } else if pc.Wk? {
      WkWaits(k, p);
    } else {
      WkHeldWaits(k, p);
    }
  }

  lemma WaitsNext(k: Kernel, a: Action)
    requires Inv(k) && Waits(k) && Enabled(k, a)
    ensures Waits(Next(k, a))
  {
    hide SpinsOk, HeldOk, CpusOk, StatesOk, StateOk, PcOk, Tree, Waits, NextStep, CanStep, MayCall;
    match a
    case Step(p) => StepWaits(k, p);
    case Call(p, entry) => CallWaits(k, p, entry);
    case Preempt(p) => PreemptWaits(k, p);
    case Fail(p) =>
      NotSelf(k, p);
      PointOk(k, k.procs[p].pc.i);
      FailWaits(k, p);
    case Killed(p) => KilledWaits(k, p);
    case Wake(q) =>
      Woken(k, q, q);
      WakenWaits(k, q);
    case Pick(_, _) => SchedulerWaits(k, a);
    case Dispatch(_) => SchedulerWaits(k, a);
    case Skip(_) => SchedulerWaits(k, a);
    case Leave(_) => SchedulerWaits(k, a);
  }

  lemma BootWaits(nproc: nat, ncpu: nat)
    requires nproc > 0
    ensures Waits(Boot(nproc, ncpu))
  {
    var k := Boot(nproc, ncpu);
    assert forall p: nat :: p < |k.procs| ==> PartOf(k.procs[p]) == NoPart;
  }

  lemma {:induction false} RunWaits(ks: seq<Kernel>, acts: seq<Action>, j: nat)
    requires IsRun(ks, acts) && j <= |acts|
    ensures Inv(ks[j]) && Waits(ks[j])
  {
    hide Inv, Waits, Boot, Enabled, Next;
    RunInv(ks, acts, j);
    if j == 0 {
      var nproc: nat, ncpu: nat :| nproc > 0 && ks[0] == Boot(nproc, ncpu);
      BootWaits(nproc, ncpu);
    } else {
      RunWaits(ks, acts, j - 1);
      WaitsNext(ks[j - 1], acts[j - 1]);
    }
  }

  /** p sleeps in wait, or is between releasing wait_lock and sleeping there. */
  predicate AsleepInWait(r: Process, p: nat) {
    (r.state == SLEEPING && r.chan == ProcChan(p)) || r.pc == SlSet(ProcChan(p), WaitLock)
  }

  lemma NapShape(k: Kernel, p: nat)
    requires StatesOk(k) && p < |k.procs| && AsleepInWait(k.procs[p], p)
    ensures PartOf(k.procs[p]) == Napping
  {
    assert StateOk(k.procs[p]) && PcOk(p, k.procs[p].pc);
  }

  /** In every state of every run: while wait_lock is free, nobody asleep in wait has a zombie child. */
  lemma NoMissedExit(ks: seq<Kernel>, acts: seq<Action>, j: nat, p: nat, q: nat)
    requires IsRun(ks, acts) && j <= |acts| && p < |ks[j].procs| && q < |ks[j].procs|
    requires ks[j].wait.None? && AsleepInWait(ks[j].procs[p], p) && ks[j].procs[q].parent == Some(p)
    ensures ks[j].procs[q].state != ZOMBIE
  {
    hide SpinsOk, HeldOk, CpusOk, StatesOk, Tree, Boot, Enabled, Next, AsleepInWait, WokenOk, SeenOk, ChansOk;
    RunWaits(ks, acts, j);
    NapShape(ks[j], p);
  }
}
