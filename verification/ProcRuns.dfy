/** Every action of the system keeps the lock discipline and the process tree; so every run does. */
module ProcRuns {
  import opened Common
  import opened Proc
  import opened ProcLocks
  import opened ProcTree

  predicate Inv(k: Kernel) {
    Locks(k) && Tree(k)
  }

  // The actions other than the steps of a running process.

  /** Only lock fields and CPUs changed. */
  ghost predicate LocksOnly(k: Kernel, k': Kernel) {
    && |k'.procs| == |k.procs| && k'.init == k.init && k'.nextpid == k.nextpid
    && forall r: nat :: r < |k.procs| ==> k'.procs[r] == k.procs[r].(lock := k'.procs[r].lock)
  }

  lemma LocksOnlyForks(k: Kernel, k': Kernel)
    requires ForksOk(k) && LocksOnly(k, k')
    ensures ForksOk(k')
  {
    hide ChildSlot;
    forall q: nat, j: nat | q < |k.procs| && j < |k.procs| && ChildSlot(k'.procs[q].pc) == Some(j)
      ensures Builds(k', q, j)
    {
      assert k.procs[j].state == k.procs[j].state;
      assert Builds(k, q, j);
    }
  }

  lemma LocksOnlyTree(k: Kernel, k': Kernel)
    requires Tree(k) && LocksOnly(k, k')
    ensures Tree(k')
  {
    hide Passed, Exiting, Alive, ChildSlot, ForksOk;
    LocksOnlyForks(k, k');
    forall r: nat | r < |k.procs| ensures Alive(k'.procs[r]) == Alive(k.procs[r]) {
      SameLife(k.procs[r], k'.procs[r]);
    }
  }

  lemma SameLife(r: Process, r': Process)
    requires r'.state == r.state
    ensures Alive(r') == Alive(r)
  {
  }

  /** A zombie child or a pending fork is never the process itself. */
  lemma NotSelf(k: Kernel, p: nat)
    requires Tree(k) && p < |k.procs|
    ensures k.procs[p].pc.WtHeld? && k.procs[p].pc.i < |k.procs| ==> k.procs[p].pc.i != p
    ensures ChildSlot(k.procs[p].pc).Some? ==> Builds(k, p, ChildSlot(k.procs[p].pc).value)
  {
    hide Passed, Exiting, Alive, ChildSlot;
    if k.procs[p].pc.WtHeld? && k.procs[p].pc.i < |k.procs| {
      assert k.procs[k.procs[p].pc.i].parent == Some(p);
    }
    if ChildSlot(k.procs[p].pc).Some? {
      assert k.procs[ChildSlot(k.procs[p].pc).value].state == USED;
    }
  }

  lemma CallKeeps(k: Kernel, p: nat, entry: Pc)
    requires Inv(k) && Enabled(k, Call(p, entry))
    ensures Inv(Next(k, Call(p, entry)))
  {
    hide SpinsOk, HeldOk, CpusOk, ParentsOk, PidsOk, InitOk, ReparentOk, ForksOk, WaitsOk, RootedOk;
    assert StateOk(k.procs[p]);
    Replace(k, p, k.procs[p].(pc := entry));
    LocalTree(k, SetPc(k, p, entry), p);
  }

  lemma PreemptKeeps(k: Kernel, p: nat)
    requires Inv(k) && Enabled(k, Preempt(p))
    ensures Inv(Next(k, Preempt(p)))
  {
    hide SpinsOk, HeldOk, CpusOk, ParentsOk, PidsOk, InitOk, ReparentOk, ForksOk, WaitsOk, RootedOk;
    var back := RestOf(k.procs[p].pc).value;
    assert StateOk(k.procs[p]);
    PointFree(p, back);
    SameClaims(YdLock, back);
    ExitFacts(k, p);
    hide Exiting, Passed, ChildSlot, Linked, RestOf, Point;
    Replace(k, p, k.procs[p].(pc := Yd(YdLock, back)));
    LocalTree(k, SetPc(k, p, Yd(YdLock, back)), p);
  }

  lemma FailKeeps(k: Kernel, p: nat)
    requires Inv(k) && Enabled(k, Fail(p))
    ensures Inv(Next(k, Fail(p)))
  {
    hide SpinsOk, HeldOk, CpusOk, ParentsOk, PidsOk, InitOk, ReparentOk, ForksOk, WaitsOk, RootedOk;
    var me, i := k.procs[p], k.procs[p].pc.i;
    assert StateOk(me) && StateOk(k.procs[i]);
    NotSelf(k, p);
    if me.pc.FkBuild? {
      FailLocks(k, p, i);
      FailTree(k, p, i);
    } else {
      DropLock(k, p, i, WtDone);
      LocalTree(k, Next(k, Fail(p)), p);
    }
  }

  lemma FailLocks(k: Kernel, p: nat, i: nat)
    requires Locks(k) && p < |k.procs| && k.procs[p].pc == FkBuild(i) && Building(k, p, i)
    ensures Locks(SetPc(SetProc(k, i, UnusedSlot), p, Run))
  {
    hide SpinsOk, HeldOk, CpusOk;
    var r := UnusedSlot.(lock := k.procs[i].lock);
    assert StateOk(k.procs[i]) && StateOk(k.procs[p]);
    Replace(k, i, r);
    DropLock(SetProc(k, i, r), p, i, Run);
    assert SetPc(SetProc(k, i, UnusedSlot), p, Run) == SetPc(SetLock(SetProc(k, i, r), i, None), p, Run);
  }

  lemma KilledKeeps(k: Kernel, p: nat)
    requires Inv(k) && Enabled(k, Killed(p))
    ensures Inv(Next(k, Killed(p)))
  {
    hide SpinsOk, HeldOk, CpusOk, ParentsOk, PidsOk, InitOk, ReparentOk, ForksOk, WaitsOk, RootedOk;
    assert StateOk(k.procs[p]);
    Replace(k, p, k.procs[p].(pc := WtDone));
    LocalTree(k, SetPc(k, p, WtDone), p);
  }

  lemma WakeKeeps(k: Kernel, q: nat)
    requires Inv(k) && Enabled(k, Wake(q))
    ensures Inv(Next(k, Wake(q)))
  {
    hide SpinsOk, HeldOk, CpusOk, StatesOk, ParentsOk, PidsOk, InitOk, ReparentOk, ForksOk, WaitsOk, RootedOk;
    Woken(k, q, q);
    LocalTree(k, SetState(k, q, RUNNABLE), q);
  }

  /** What the scheduler switches to: a process in sleep or yield, or one that never ran. */
  lemma DispatchPoint(k: Kernel, c: nat)
    requires Locks(k) && Enabled(k, Dispatch(c))
    ensures var pc := k.procs[k.cpus[c].p].pc; pc.SlOut? || (pc.Yd? && pc.step == YdOut) || pc == Fresh
  {
    hide SpinsOk, HeldOk, StateOk, PcOk;
    var p := k.cpus[c].p;
    assert k.procs[p].lock == Some(OfCpu(c));
    NotRunning(k, p);
    SwitchedInOk(p, k.procs[p], c);
  }

  lemma DispatchTree(k: Kernel, c: nat)
    requires Tree(k) && Enabled(k, Dispatch(c))
    requires var pc := k.procs[k.cpus[c].p].pc; pc.SlOut? || (pc.Yd? && pc.step == YdOut) || pc == Fresh
    ensures Tree(Next(k, Dispatch(c)))
  {
    hide ParentsOk, PidsOk, InitOk, ReparentOk, ForksOk, WaitsOk, RootedOk;
    ExitFacts(k, k.cpus[c].p);
    LocalTree(k, Next(k, Dispatch(c)), k.cpus[c].p);
  }

  lemma SchedulerKeeps(k: Kernel, a: Action)
    requires Inv(k) && Enabled(k, a) && (a.Pick? || a.Dispatch? || a.Skip? || a.Leave?)
    ensures Inv(Next(k, a))
  {
    hide SpinsOk, HeldOk, CpusOk, StatesOk, ParentsOk, PidsOk, InitOk, ReparentOk, ForksOk, WaitsOk, RootedOk;
    match a
    case Pick(c, p) =>
      PickKeeps(k, c, p);
      LocksOnlyTree(k, Next(k, a));
    case Dispatch(c) =>
      DispatchPoint(k, c);
      DispatchKeeps(k, c);
      DispatchTree(k, c);
    case Skip(c) =>
      UnpickKeeps(k, c);
      LocksOnlyTree(k, Next(k, a));
    case Leave(c) =>
      UnpickKeeps(k, c);
      LocksOnlyTree(k, Next(k, a));
  }

  // The steps of a running process, by the function whose code it runs.

  predicate InSleep(pc: Pc) {
    pc.SlLock? || pc.SlDrop? || pc.SlSet? || pc.SlSched? || pc.SlBack? || pc.SlRelock?
  }

  predicate InSleepLock(pc: Pc) {
    pc.AsAcquire? || pc.AsTest? || pc.AsTake? || pc.AsRelease? || pc.RsAcquire? || pc.RsClear? || pc.RsDone?
  }

  predicate InYield(pc: Pc) {
    pc.Yd? || pc.ForkRet?
  }

  predicate InWait(pc: Pc) {
    pc.WtAcquire? || pc.WtScan? || pc.WtHeld? || pc.WtDecide? || pc.WtDone?
  }

  predicate InExit(pc: Pc) {
    pc.ExAcquire? || pc.ExScan? || pc.ExLock? || pc.ExZombie? || pc.ExDrop? || pc.ExSched?
  }

  predicate InFork(pc: Pc) {
    pc.FkScan? || pc.FkHeld? || pc.FkBuild? || pc.FkAdopt? || pc.FkParent? || pc.FkReady? || pc.FkSet?
  }

  lemma Points(k: Kernel, p: nat)
    requires p < |k.procs| && CanStep(k, p)
    ensures var pc := k.procs[p].pc;
            InSleep(pc) || InSleepLock(pc) || InYield(pc) || InWait(pc) || InExit(pc) || InFork(pc) || pc.Wk?
              || pc.WkHeld?
  {
  }

  lemma PointOk(k: Kernel, p: nat)
    requires StatesOk(k) && p < |k.procs|
    ensures StateOk(k.procs[p]) && PcOk(p, k.procs[p].pc)
  {
  }

  lemma RunsThere(r: Process)
    requires StateOk(r)
    requires (r.pc.ExScan? || r.pc == ExZombie || r.pc.WtHeld? || r.pc.FkHeld? || r.pc.FkParent? || r.pc.FkSet?)
    ensures r.state == RUNNING
  {
  }

  /** What wakeup does to the slot it looks at. */
  function Waked(r: Process, chan: Chan): Process {
    r.(state := if r.state == SLEEPING && r.chan == chan then RUNNABLE else r.state, lock := None)
  }

  lemma WkHeldShape(k: Kernel, p: nat)
    requires Locks(k) && OnCpu(k, p) && CanStep(k, p) && k.procs[p].pc.WkHeld?
    ensures var pc := k.procs[p].pc; pc.i < |k.procs| && pc.i != p && k.procs[pc.i].lock == Some(OfProc(p))
    ensures var pc := k.procs[p].pc;
            && NextStep(k, p) ==
               k.(procs := k.procs[pc.i := Waked(k.procs[pc.i], pc.chan)]
                                  [p := k.procs[p].(pc := Wk(pc.chan, pc.i + 1, pc.ret))])
            && (k.procs[pc.i].state == SLEEPING ==> k.procs[pc.i].pc.SlOut?)
  {
    var pc := k.procs[p].pc;
    PointOk(k, p);
    HoldsIt(k, p, pc.i);
    if k.procs[pc.i].state == SLEEPING {
      Woken(k, pc.i, p);
    }
    hide Locks;
  }

  lemma WaitKeeps(k: Kernel, p: nat)
    requires Inv(k) && OnCpu(k, p) && CanStep(k, p) && InWait(k.procs[p].pc)
    ensures Inv(NextStep(k, p))
  {
    hide SpinsOk, HeldOk, CpusOk, StatesOk, StateOk, PcOk, ParentsOk, PidsOk, InitOk, ReparentOk, ForksOk, WaitsOk,
         RootedOk;
    PointOk(k, p);
    if k.procs[p].pc.WtHeld? {
      NotSelf(k, p);
      WaitHeldStep(k, p);
      RunsThere(k.procs[p]);
      if k.procs[k.procs[p].pc.i].state == ZOMBIE {
        ReapTree(k, p, k.procs[p].pc.i);
      } else {
        WaitTree(k, p);
      }
    } else {
      WaitSteps(k, p);
      WaitTree(k, p);
    }
  }

  lemma ExitKeeps(k: Kernel, p: nat)
    requires Inv(k) && OnCpu(k, p) && CanStep(k, p) && InExit(k.procs[p].pc)
    ensures Inv(NextStep(k, p))
  {
    hide SpinsOk, HeldOk, CpusOk, StatesOk, StateOk, PcOk, ParentsOk, PidsOk, InitOk, ReparentOk, ForksOk, WaitsOk,
         RootedOk;
    var pc := k.procs[p].pc;
    PointOk(k, p);
    if pc.ExScan? {
      ExScanStep(k, p);
    } else {
      ExitSteps(k, p);
    }
    if pc == ExZombie {
      RunsThere(k.procs[p]);
      ZombieTree(k, p);
    } else if pc.ExScan? && pc.i < |k.procs| && k.procs[pc.i].parent == Some(p) {
      RunsThere(k.procs[p]);
      ReparentTree(k, p, pc.i);
    } else {
      ExitTree(k, p);
    }
  }

  lemma ForkLocks(k: Kernel, p: nat)
    requires Inv(k) && OnCpu(k, p) && CanStep(k, p) && InFork(k.procs[p].pc)
    ensures Locks(NextStep(k, p))
  {
    hide SpinsOk, HeldOk, CpusOk, StatesOk, StateOk, PcOk, ParentsOk, PidsOk, InitOk, ReparentOk, ForksOk, WaitsOk,
         RootedOk;
    var pc := k.procs[p].pc;
    if pc.FkHeld? {
      ForkClaimStep(k, p);
    } else if pc.FkParent? {
      NotSelf(k, p);
      ForkParentStep(k, p);
    } else if pc.FkSet? {
      NotSelf(k, p);
      ForkSetStep(k, p);
    } else {
      ForkSteps(k, p);
    }
  }

  lemma ForkTrees(k: Kernel, p: nat)
    requires Inv(k) && OnCpu(k, p) && CanStep(k, p) && InFork(k.procs[p].pc)
    ensures Tree(NextStep(k, p))
  {
    hide SpinsOk, HeldOk, CpusOk, StatesOk, StateOk, PcOk, ParentsOk, PidsOk, InitOk, ReparentOk, ForksOk, WaitsOk,
         RootedOk;
    PointOk(k, p);
    match k.procs[p].pc
    case FkHeld(i) =>
      if k.procs[i].state == UNUSED {
        RunsThere(k.procs[p]);
        ClaimTree(k, p, i);
      } else {
        ForkScanTree(k, p);
      }
    case FkScan(_) => ForkScanTree(k, p);
    case FkParent(i) =>
      RunsThere(k.procs[p]);
      AdoptTree(k, p, i);
    case FkSet(i) =>
      RunsThere(k.procs[p]);
      StartTree(k, p, i);
      assert NextStep(k, p).procs == SetPc(SetProc(k, i, k.procs[i].(state := RUNNABLE, lock := None)), p, Run).procs;
    case _ => ForkTree(k, p);
  }

  /** A step of any running process keeps the invariant. */
  lemma StepKeeps(k: Kernel, p: nat)
    requires Inv(k) && Enabled(k, Step(p))
    ensures Inv(NextStep(k, p))
  {
    hide SpinsOk, HeldOk, CpusOk, StatesOk, StateOk, PcOk, ParentsOk, PidsOk, InitOk, ReparentOk, ForksOk, WaitsOk,
         RootedOk;
    PointOk(k, p);
    Points(k, p);
    var pc := k.procs[p].pc;
    hide CanStep, NextStep;
    if InSleep(pc) {
      SleepSteps(k, p);
      SleepTree(k, p);
    } else if InSleepLock(pc) {
      LockSteps(k, p);
      LockTree(k, p);
    } else if InYield(pc) {
      YieldSteps(k, p);
      YieldTree(k, p);
    } else if InWait(pc) {
      WaitKeeps(k, p);
    } else if InExit(pc) {
      ExitKeeps(k, p);
    } else if InFork(pc) {
      ForkLocks(k, p);
      ForkTrees(k, p);
    } else {
      WakeSteps(k, p);
      WakeTree(k, p);
    }
  }

  /** Every action of the system keeps the invariant. */
  lemma NextKeeps(k: Kernel, a: Action)
    requires Inv(k) && Enabled(k, a)
    ensures Inv(Next(k, a))
  {
    hide Inv, CanStep, NextStep, MayCall;
    match a
    case Step(p) => StepKeeps(k, p);
    case Call(p, entry) => CallKeeps(k, p, entry);
    case Preempt(p) => PreemptKeeps(k, p);
    case Fail(p) => FailKeeps(k, p);
    case Killed(p) => KilledKeeps(k, p);
    case Wake(q) => WakeKeeps(k, q);
    case _ => SchedulerKeeps(k, a);
  }

  /** After userinit: slot 0 holds init, ready to run for the first time; every CPU is in its scheduler. */
  function Boot(nproc: nat, ncpu: nat): Kernel
    requires nproc > 0
  {
    Kernel([Process(RUNNABLE, NoChan, 1, None, Fresh, None, None)] + seq(nproc - 1, _ => UnusedSlot),
           seq(ncpu, _ => Idle), None, None, false, 0, None, 2, 0)
  }

  lemma BootLocks(nproc: nat, ncpu: nat)
    requires nproc > 0
    ensures Locks(Boot(nproc, ncpu))
  {
    var k := Boot(nproc, ncpu);
    assert forall p: nat :: p < |k.procs| ==> k.procs[p] == k.procs[0] || k.procs[p] == UnusedSlot;
  }

  lemma BootTree(nproc: nat, ncpu: nat)
    requires nproc > 0
    ensures Tree(Boot(nproc, ncpu))
  {
    var k := Boot(nproc, ncpu);
    assert forall p: nat :: 0 < p < |k.procs| ==> k.procs[p] == UnusedSlot;
  }

  /** The states the actions lead through. */
  ghost predicate IsRun(ks: seq<Kernel>, acts: seq<Action>) {
    && |ks| == |acts| + 1
    && (exists nproc: nat, ncpu: nat :: nproc > 0 && ks[0] == Boot(nproc, ncpu))
    && (forall j: nat :: j < |acts| ==> Enabled(ks[j], acts[j]) && ks[j + 1] == Next(ks[j], acts[j]))
  }

  lemma {:induction false} RunInv(ks: seq<Kernel>, acts: seq<Action>, j: nat)
    requires IsRun(ks, acts) && j <= |acts|
    ensures Inv(ks[j])
  {
    hide Locks, Tree, Boot, Enabled, Next;
    if j == 0 {
      var nproc: nat, ncpu: nat :| nproc > 0 && ks[0] == Boot(nproc, ncpu);
      BootLocks(nproc, ncpu);
      BootTree(nproc, ncpu);
    } else {
      RunInv(ks, acts, j - 1);
      NextKeeps(ks[j - 1], acts[j - 1]);
    }
  }

  // What the invariant says.

  /** Every parent is a live, older process; nobody but init is an orphan. */
  lemma ParentsAreLive(ks: seq<Kernel>, acts: seq<Action>, j: nat, q: nat)
    requires IsRun(ks, acts) && j <= |acts| && q < |ks[j].procs|
    ensures var k := ks[j];
            && (k.procs[q].parent.Some? ==>
                  && k.procs[q].parent.value < |k.procs| && Alive(k.procs[k.procs[q].parent.value])
                  && k.procs[k.procs[q].parent.value].pid < k.procs[q].pid)
            && (Alive(k.procs[q]) || k.procs[q].state == ZOMBIE ==> k.procs[q].parent.Some? || q == k.init)
  {
    hide Locks, Boot, Enabled, Next, PidsOk, InitOk, ReparentOk, ForksOk, WaitsOk;
    RunInv(ks, acts, j);
    SelfChild(ks[j], q);
  }

  /** A line of ancestors: everyone in it is the child of the next one. */
  ghost predicate Line(k: Kernel, line: seq<nat>) {
    |line| > 0 && line[0] < |k.procs| && forall n: nat {:trigger line[n]} :: n < |line| - 1 ==>
        line[n] < |k.procs| && k.procs[line[n]].parent == Some(line[n + 1])
  }

  lemma {:induction false} AncestorsAreOlder(k: Kernel, line: seq<nat>, n: nat)
    requires ParentsOk(k) && Line(k, line) && n < |line|
    ensures line[n] < |k.procs| && k.procs[line[n]].pid + n <= k.procs[line[0]].pid
  {
    if n > 0 {
      AncestorsAreOlder(k, line, n - 1);
      var q := line[n - 1];
      SelfChild(k, q);
    }
  }

  /** The parent relation has no cycles: nobody is in a line of its own ancestors. */
  lemma NoCycles(ks: seq<Kernel>, acts: seq<Action>, j: nat, line: seq<nat>, n: nat)
    requires IsRun(ks, acts) && j <= |acts| && Line(ks[j], line) && 0 < n < |line|
    ensures line[n] != line[0]
  {
    hide Locks, Boot, Enabled, Next, PidsOk, InitOk, ReparentOk, ForksOk, WaitsOk, RootedOk;
    RunInv(ks, acts, j);
    AncestorsAreOlder(ks[j], line, n);
  }

  /** A running process is on exactly one CPU, which runs nothing else. */
  lemma OneCpuEach(ks: seq<Kernel>, acts: seq<Action>, j: nat, p: nat)
    requires IsRun(ks, acts) && j <= |acts| && p < |ks[j].procs| && ks[j].procs[p].state == RUNNING
    ensures exists c: nat :: c < |ks[j].cpus| && ks[j].cpus[c] == On(p) &&
              forall d: nat :: d < |ks[j].cpus| && ks[j].cpus[d] == On(p) ==> d == c
  {
    hide Tree, Boot, Enabled, Next, SpinsOk, HeldOk;
    RunInv(ks, acts, j);
    var k := ks[j];
    PointOk(k, p);
    RunningHasCpu(k.procs[p]);
    var c := k.procs[p].at.value;
    assert k.cpus[c] == On(p);
    assert forall d: nat :: d < |k.cpus| && k.cpus[d] == On(p) ==> d == c;
  }

  lemma RunningHasCpu(r: Process)
    requires StateOk(r) && r.state == RUNNING
    ensures r.at.Some?
  {
  }

  /** A process changes its own state only while it is not a zombie. */
  lemma ZombieKeepsState(k: Kernel, p: nat)
    requires OnCpu(k, p) && CanStep(k, p) && StateOk(k.procs[p]) && k.procs[p].state == ZOMBIE
    ensures |NextStep(k, p).procs| == |k.procs| && NextStep(k, p).procs[p].state == ZOMBIE
  {
    assert k.procs[p].pc == ExDrop || k.procs[p].pc == ExSched;
  }

  lemma OwnSteps(k: Kernel, p: nat, i: nat)
    requires OnCpu(k, p) && CanStep(k, p) && i < |k.procs| && i != p
    requires var pc := k.procs[p].pc; InSleep(pc) || InSleepLock(pc) || InYield(pc) || InExit(pc)
    ensures |NextStep(k, p).procs| == |k.procs| && NextStep(k, p).procs[i].state == k.procs[i].state
  {
  }

  lemma ForkSlot(k: Kernel, p: nat, i: nat)
    requires OnCpu(k, p) && CanStep(k, p) && i < |k.procs| && i != p && k.procs[i].state == ZOMBIE
    requires InFork(k.procs[p].pc)
    requires k.procs[p].pc.FkSet? ==> Building(k, p, k.procs[p].pc.i)
    ensures |NextStep(k, p).procs| == |k.procs| && NextStep(k, p).procs[i].state == ZOMBIE
  {
  }

  lemma WaitSlot(k: Kernel, p: nat, i: nat)
    requires OnCpu(k, p) && CanStep(k, p) && i < |k.procs| && i != p && k.procs[i].state == ZOMBIE
    requires InWait(k.procs[p].pc)
    requires k.procs[p].pc != WtHeld(i)
    ensures |NextStep(k, p).procs| == |k.procs| && NextStep(k, p).procs[i].state == ZOMBIE
  {
  }

  lemma WakeSlot(k: Kernel, p: nat, i: nat)
    requires OnCpu(k, p) && CanStep(k, p) && i < |k.procs| && i != p && k.procs[i].state == ZOMBIE
    requires k.procs[p].pc.Wk? || k.procs[p].pc.WkHeld?
    ensures |NextStep(k, p).procs| == |k.procs| && NextStep(k, p).procs[i].state == ZOMBIE
  {
  }

  /** Only wait changes the state of a zombie. */
  lemma ZombieStays(k: Kernel, p: nat, i: nat)
    requires OnCpu(k, p) && CanStep(k, p) && StateOk(k.procs[p]) && i < |k.procs| && k.procs[i].state == ZOMBIE
    requires k.procs[p].pc.FkSet? ==> Building(k, p, k.procs[p].pc.i)
    requires k.procs[p].pc != WtHeld(i)
    ensures |NextStep(k, p).procs| == |k.procs| && NextStep(k, p).procs[i].state == ZOMBIE
  {
    hide NextStep, CanStep, StateOk;
    Points(k, p);
    var pc := k.procs[p].pc;
    if i == p {
      ZombieKeepsState(k, p);
    } else if InSleep(pc) || InSleepLock(pc) || InYield(pc) || InExit(pc) {
      OwnSteps(k, p, i);
    } else if InFork(pc) {
      ForkSlot(k, p, i);
    } else if InWait(pc) {
      WaitSlot(k, p, i);
    } else {
      WakeSlot(k, p, i);
    }
  }

  /**
   Whatever happens next, a zombie stays one unless its own parent frees it in wait, and that is only after the
   process has left its CPU and kernel stack for good.
   */
  lemma FreedOffStack(ks: seq<Kernel>, acts: seq<Action>, j: nat, i: nat)
    requires IsRun(ks, acts) && j < |acts| && i < |ks[j].procs| && ks[j].procs[i].state == ZOMBIE
    ensures i < |ks[j + 1].procs| && (ks[j + 1].procs[i].state == ZOMBIE || Freed(ks[j], acts[j], ks[j + 1], i))
  {
    hide Boot, Inv, Enabled, Next, Freed;
    RunInv(ks, acts, j);
    ZombieNext(ks[j], acts[j], i);
  }

  lemma ZombieNext(k: Kernel, a: Action, i: nat)
    requires Inv(k) && Enabled(k, a) && i < |k.procs| && k.procs[i].state == ZOMBIE
    ensures |Next(k, a).procs| == |k.procs| && (Next(k, a).procs[i].state == ZOMBIE || Freed(k, a, Next(k, a), i))
  {
    hide Locks, Tree, NextStep, CanStep, Freed;
    if a.Step? {
      FreedInStep(k, a.p, i);
    } else {
      if a.Fail? && k.procs[a.p].pc.FkBuild? {
        SlotIsUsed(k, a.p);
      }
      hide Inv;
      OthersKeepZombies(k, a, i);
    }
  }

  lemma SlotIsUsed(k: Kernel, p: nat)
    requires Inv(k) && p < |k.procs| && k.procs[p].pc.FkBuild? && k.procs[p].pc.i < |k.procs|
    ensures k.procs[k.procs[p].pc.i].state == USED
  {
    hide Locks, ParentsOk, PidsOk, InitOk, ReparentOk, WaitsOk, RootedOk;
    assert ChildSlot(k.procs[p].pc) == Some(k.procs[p].pc.i);
  }

  /** The parent of i frees the slot in wait; i is on no CPU and will not run again. */
  ghost predicate Freed(k: Kernel, a: Action, k': Kernel, i: nat) {
    && i < |k.procs| && i < |k'.procs| && a.Step? && k.procs[i].parent == Some(a.p) && a.p < |k.procs|
    && k.procs[a.p].pc == WtHeld(i)
    && k.procs[i].pc == ExGone && k.procs[i].at.None?
    && (forall c: nat :: c < |k.cpus| ==> k.cpus[c] != On(i) && k.cpus[c] != Back(i))
    && k'.procs[i] == UnusedSlot
  }

  /** Failures, the scheduler and wakeups do not touch a zombie. */
  lemma OthersKeepZombies(k: Kernel, a: Action, i: nat)
    requires Enabled(k, a) && !a.Step? && i < |k.procs| && k.procs[i].state == ZOMBIE
    requires a.Fail? && k.procs[a.p].pc.FkBuild? ==> k.procs[k.procs[a.p].pc.i].state == USED
    ensures |Next(k, a).procs| == |k.procs| && Next(k, a).procs[i].state == ZOMBIE
  {
  }

  lemma FreedInStep(k: Kernel, p: nat, i: nat)
    requires Inv(k) && OnCpu(k, p) && CanStep(k, p) && i < |k.procs| && k.procs[i].state == ZOMBIE
    ensures |NextStep(k, p).procs| == |k.procs|
    ensures NextStep(k, p).procs[i].state == ZOMBIE || Freed(k, Step(p), NextStep(k, p), i)
  {
    hide SpinsOk, HeldOk, StatesOk, StateOk, ParentsOk, PidsOk, InitOk, ReparentOk, ForksOk, RootedOk, CanStep;
    PointOk(k, p);
    NotSelf(k, p);
    if k.procs[p].pc != WtHeld(i) {
      hide NextStep;
      ZombieStays(k, p, i);
    } else {
      assert NextStep(k, p).procs[i] == UnusedSlot;
      hide NextStep;
      HoldsIt(k, p, i);
      Reaped(k, p, i);
      forall c: nat | c < |k.cpus| ensures k.cpus[c] != On(i) && k.cpus[c] != Back(i) {
        assert k.procs[i].at != Some(c) && k.procs[i].lock != Some(OfCpu(c));
      }
    }
  }
}
