/** The process tree under fork, exit, wait and reparent (kernel/src/proc.c). */
module ProcTree {
  import opened Common
  import opened Proc
  import opened ProcLocks

  predicate Alive(r: Process) {
    r.state == SLEEPING || r.state == RUNNABLE || r.state == RUNNING
  }

  /** Parents are alive and older than their children. */
  predicate ParentsOk(k: Kernel) {
    && (forall q: nat :: q < |k.procs| && k.procs[q].parent.Some? ==>
          k.procs[q].parent.value < |k.procs| && k.procs[q].state != UNUSED)
    && (forall q: nat, p: nat {:trigger k.procs[q].parent, k.procs[p].pid} ::
         q < |k.procs| && p < |k.procs| && k.procs[q].parent == Some(p) ==>
          Alive(k.procs[p]) && k.procs[p].pid < k.procs[q].pid)
  }

  /** Pids in use are positive, different and below nextpid; init has the smallest. */
  predicate PidsOk(k: Kernel) {
    && (forall q: nat :: q < |k.procs| && k.procs[q].state != UNUSED ==> 0 < k.procs[q].pid < k.nextpid)
    && k.init < |k.procs|
    && (forall q: nat, r: nat {:trigger k.procs[q].pid, k.procs[r].pid} | q < |k.procs| && r < |k.procs| && q != r ::
          k.procs[q].state != UNUSED && k.procs[r].state != UNUSED ==> k.procs[q].pid != k.procs[r].pid)
    && (forall q: nat :: q < |k.procs| && q != k.init && k.procs[q].state != UNUSED ==>
         k.procs[k.init].pid < k.procs[q].pid)
  }

  /** The points of exit, up to the end of the process. */
  predicate Exiting(pc: Pc) {
    match pc
    case ExAcquire => true
    case Yd(_, back) => back == AtExit
    case ExScan(_) => true
    case Wk(_, _, ret) => ret != ToRelease
    case WkHeld(_, _, ret) => ret != ToRelease
    case ExLock => true
    case ExZombie => true
    case ExDrop => true
    case ExSched => true
    case ExGone => true
    case _ => false
  }

  predicate InitOk(k: Kernel) {
    && k.init < |k.procs| && Alive(k.procs[k.init]) && k.procs[k.init].parent.None?
    && !Exiting(k.procs[k.init].pc)
  }

  /** reparent has already passed table index j. */
  predicate Passed(pc: Pc, j: nat) {
    match pc
    case ExScan(i) => j < i
    case Wk(_, _, ret) => if ret.ToScan? then j < ret.i else ret == ToZombie
    case WkHeld(_, _, ret) => if ret.ToScan? then j < ret.i else ret == ToZombie
    case ExLock => true
    case ExZombie => true
    case ExDrop => true
    case ExSched => true
    case ExGone => true
    case _ => false
  }

  predicate ReparentOk(k: Kernel) {
    forall p: nat, j: nat {:trigger k.procs[p].pc, k.procs[j].parent} ::
      p < |k.procs| && j < |k.procs| && Passed(k.procs[p].pc, j) ==> k.procs[j].parent != Some(p)
  }

  /** The slot a process is building a child in. */
  function ChildSlot(pc: Pc): Option<nat> {
    match pc
    case FkBuild(i) => Some(i)
    case FkAdopt(i) => Some(i)
    case FkParent(i) => Some(i)
    case FkReady(i) => Some(i)
    case FkSet(i) => Some(i)
    case Yd(_, back) => if back.AtAdopt? || back.AtReady? then Some(back.i) else None
    case _ => None
  }

  /** fork has made the child's parent link. */
  predicate Linked(pc: Pc) {
    pc.FkReady? || pc.FkSet? || (pc.Yd? && pc.back.AtReady?)
  }

  predicate ForksOk(k: Kernel) {
    && (forall p: nat :: p < |k.procs| && ChildSlot(k.procs[p].pc).Some? ==> ChildSlot(k.procs[p].pc).value < |k.procs|)
    && (forall p: nat, i: nat {:trigger k.procs[p].pc, k.procs[i].state} ::
         p < |k.procs| && i < |k.procs| && ChildSlot(k.procs[p].pc) == Some(i) ==>
          && Building(k, p, i) && k.procs[p].pid < k.procs[i].pid
          && k.procs[i].parent == (if Linked(k.procs[p].pc) then Some(p) else None))
    && (forall p: nat, r: nat {:trigger k.procs[p].pc, k.procs[r].pc} ::
         p < |k.procs| && r < |k.procs| && p != r && ChildSlot(k.procs[p].pc).Some? ==>
          ChildSlot(k.procs[p].pc) != ChildSlot(k.procs[r].pc))
  }

  predicate WaitsOk(k: Kernel) {
    forall p: nat, i: nat {:trigger k.procs[p].pc, k.procs[i].parent} ::
      p < |k.procs| && i < |k.procs| && k.procs[p].pc == WtHeld(i) ==> k.procs[i].parent == Some(p)
  }

  /** Every process other than init has a parent once fork has finished with it. */
  predicate RootedOk(k: Kernel) {
    forall q: nat :: q < |k.procs| && q != k.init && k.procs[q].state != UNUSED && k.procs[q].state != USED ==>
      k.procs[q].parent.Some?
  }

  predicate Tree(k: Kernel) {
    ParentsOk(k) && PidsOk(k) && InitOk(k) && ReparentOk(k) && ForksOk(k) && WaitsOk(k) && RootedOk(k)
  }

  /**
   k' differs from k in the point of p and in fields the tree does not depend on; the new point claims
   nothing about the tree that is not already so.
   */
  ghost predicate Local(k: Kernel, k': Kernel, p: nat) {
    && |k'.procs| == |k.procs| && p < |k.procs| && k'.init == k.init && k'.nextpid == k.nextpid
    && (forall r: nat :: r < |k.procs| ==>
          && k'.procs[r].parent == k.procs[r].parent && k'.procs[r].pid == k.procs[r].pid
          && (k'.procs[r].state == k.procs[r].state || (Alive(k'.procs[r]) && Alive(k.procs[r])))
          && (r != p ==> k'.procs[r].pc == k.procs[r].pc))
    && k.procs[p].state != USED && k'.procs[p].pc != Free && k'.procs[p].pc != Fresh
  }

  lemma LocalParents(k: Kernel, k': Kernel, p: nat)
    requires ParentsOk(k) && Local(k, k', p)
    ensures ParentsOk(k')
  {
  }

  lemma LocalPids(k: Kernel, k': Kernel, p: nat)
    requires PidsOk(k) && Local(k, k', p)
    ensures PidsOk(k')
  {
  }

  lemma LocalInit(k: Kernel, k': Kernel, p: nat)
    requires InitOk(k) && Local(k, k', p) && (Exiting(k'.procs[p].pc) ==> p != k.init)
    ensures InitOk(k')
  {
    hide Exiting;
  }

  lemma LocalReparent(k: Kernel, k': Kernel, p: nat)
    requires ReparentOk(k) && Local(k, k', p)
    requires forall j: nat :: j < |k.procs| && Passed(k'.procs[p].pc, j) ==> k.procs[j].parent != Some(p)
    ensures ReparentOk(k')
  {
    hide Passed;
  }

  lemma LocalForks(k: Kernel, k': Kernel, p: nat)
    requires ForksOk(k) && Local(k, k', p)
    requires ChildSlot(k'.procs[p].pc) == ChildSlot(k.procs[p].pc)
    requires Linked(k'.procs[p].pc) <==> Linked(k.procs[p].pc)
    ensures ForksOk(k')
  {
    hide ChildSlot, Linked;
    forall q: nat, i: nat | q < |k.procs| && i < |k.procs| && ChildSlot(k'.procs[q].pc) == Some(i)
      ensures Building(k', q, i) && k'.procs[q].pid < k'.procs[i].pid
      ensures k'.procs[i].parent == (if Linked(k'.procs[q].pc) then Some(q) else None)
    {
      LocalBuilding(k, k', p, q, i);
    }
  }

  lemma LocalBuilding(k: Kernel, k': Kernel, p: nat, q: nat, i: nat)
    requires ForksOk(k) && Local(k, k', p) && q < |k.procs| && i < |k.procs| && ChildSlot(k.procs[q].pc) == Some(i)
    ensures Building(k', q, i) && k'.procs[q].pid < k'.procs[i].pid
    ensures k'.procs[i].parent == (if Linked(k.procs[q].pc) then Some(q) else None)
  {
    hide ChildSlot, Linked;
    assert k.procs[i].state == USED;
  }

  lemma LocalWaits(k: Kernel, k': Kernel, p: nat)
    requires WaitsOk(k) && Local(k, k', p)
    requires k'.procs[p].pc.WtHeld? ==> k'.procs[p].pc.i < |k.procs| && k.procs[k'.procs[p].pc.i].parent == Some(p)
    ensures WaitsOk(k')
  {
  }

  lemma LocalRooted(k: Kernel, k': Kernel, p: nat)
    requires RootedOk(k) && Local(k, k', p)
    ensures RootedOk(k')
  {
  }

  /** A step that only moves process p keeps the tree. */
  lemma LocalTree(k: Kernel, k': Kernel, p: nat)
    requires Tree(k) && Local(k, k', p)
    requires Exiting(k'.procs[p].pc) ==> p != k.init
    requires forall j: nat :: j < |k.procs| && Passed(k'.procs[p].pc, j) ==> k.procs[j].parent != Some(p)
    requires ChildSlot(k'.procs[p].pc) == ChildSlot(k.procs[p].pc)
    requires Linked(k'.procs[p].pc) <==> Linked(k.procs[p].pc)
    requires k'.procs[p].pc.WtHeld? ==> k'.procs[p].pc.i < |k.procs| && k.procs[k'.procs[p].pc.i].parent == Some(p)
    ensures Tree(k')
  {
    hide ParentsOk, PidsOk, InitOk, ReparentOk, ForksOk, WaitsOk, RootedOk, Exiting, Passed, ChildSlot;
    LocalParents(k, k', p);
    LocalPids(k, k', p);
    LocalInit(k, k', p);
    LocalReparent(k, k', p);
    LocalForks(k, k', p);
    LocalWaits(k, k', p);
    LocalRooted(k, k', p);
  }

  lemma SleepTree(k: Kernel, p: nat)
    requires Tree(k) && OnCpu(k, p) && CanStep(k, p) && StateOk(k.procs[p])
    requires var pc := k.procs[p].pc;
             pc.SlLock? || pc.SlDrop? || pc.SlSet? || pc.SlSched? || pc.SlBack? || pc.SlRelock?
    ensures Tree(NextStep(k, p))
  {
    hide Tree;
    if k.procs[p].pc.SlLock? || k.procs[p].pc.SlDrop? || k.procs[p].pc.SlSet? {
      SleepBegins(k, p);
    } else {
      SleepEnds(k, p);
    }
  }

  lemma SleepBegins(k: Kernel, p: nat)
    requires Tree(k) && OnCpu(k, p) && CanStep(k, p) && StateOk(k.procs[p])
    requires k.procs[p].pc.SlLock? || k.procs[p].pc.SlDrop? || k.procs[p].pc.SlSet?
    ensures Tree(NextStep(k, p))
  {
    hide ParentsOk, PidsOk, InitOk, ReparentOk, ForksOk, WaitsOk, RootedOk;
    LocalTree(k, NextStep(k, p), p);
  }

  lemma SleepEnds(k: Kernel, p: nat)
    requires Tree(k) && OnCpu(k, p) && CanStep(k, p) && StateOk(k.procs[p])
    requires k.procs[p].pc.SlSched? || k.procs[p].pc.SlBack? || k.procs[p].pc.SlRelock?
    ensures Tree(NextStep(k, p))
  {
    hide ParentsOk, PidsOk, InitOk, ReparentOk, ForksOk, WaitsOk, RootedOk;
    LocalTree(k, NextStep(k, p), p);
  }

  lemma LockTree(k: Kernel, p: nat)
    requires Tree(k) && OnCpu(k, p) && CanStep(k, p) && StateOk(k.procs[p])
    requires var pc := k.procs[p].pc;
             pc.AsAcquire? || pc.AsTest? || pc.AsTake? || pc.AsRelease? || pc.RsAcquire? || pc.RsClear? || pc.RsDone?
    ensures Tree(NextStep(k, p))
  {
    hide ParentsOk, PidsOk, InitOk, ReparentOk, ForksOk, WaitsOk, RootedOk;
    LocalTree(k, NextStep(k, p), p);
  }

  lemma YieldTree(k: Kernel, p: nat)
    requires Tree(k) && OnCpu(k, p) && CanStep(k, p) && StateOk(k.procs[p])
    requires var pc := k.procs[p].pc; pc.Yd? || pc.ForkRet?
    ensures Tree(NextStep(k, p))
  {
    hide Tree;
    var pc := k.procs[p].pc;
    if pc.Yd? && (pc.step == YdLock || pc.step == YdSet) {
      YieldBegins(k, p);
    } else {
      YieldEnds(k, p);
    }
  }

  /** What a point claims about the tree it claims while the timer has interrupted it. */
  lemma SameClaims(step: Yield, back: Rest)
    ensures Exiting(Yd(step, back)) <==> Exiting(Point(back))
    ensures forall j: nat :: !Passed(Yd(step, back), j) && !Passed(Point(back), j)
    ensures ChildSlot(Yd(step, back)) == ChildSlot(Point(back))
    ensures Linked(Yd(step, back)) <==> Linked(Point(back))
    ensures !Point(back).WtHeld? && Point(back) != Free && Point(back) != Fresh
  {
  }

  lemma YieldBegins(k: Kernel, p: nat)
    requires Tree(k) && OnCpu(k, p) && CanStep(k, p) && StateOk(k.procs[p])
    requires k.procs[p].pc.Yd? && (k.procs[p].pc.step == YdLock || k.procs[p].pc.step == YdSet)
    ensures Tree(NextStep(k, p))
  {
    hide ParentsOk, PidsOk, InitOk, ReparentOk, ForksOk, WaitsOk, RootedOk;
    ExitFacts(k, p);
    LocalTree(k, NextStep(k, p), p);
  }

  lemma YieldEnds(k: Kernel, p: nat)
    requires Tree(k) && OnCpu(k, p) && CanStep(k, p) && StateOk(k.procs[p])
    requires var pc := k.procs[p].pc; (pc.Yd? && (pc.step == YdSched || pc.step == YdBack)) || pc.ForkRet?
    ensures Tree(NextStep(k, p))
  {
    hide ParentsOk, PidsOk, InitOk, ReparentOk, ForksOk, WaitsOk, RootedOk;
    if k.procs[p].pc.Yd? {
      SameClaims(k.procs[p].pc.step, k.procs[p].pc.back);
      SameClaims(YdOut, k.procs[p].pc.back);
      ExitFacts(k, p);
      hide Exiting, Passed, ChildSlot, Linked, Point;
    }
    LocalTree(k, NextStep(k, p), p);
  }

  /** What an exiting process knows: it is not init, and the slots reparent passed are not its children. */
  lemma ExitFacts(k: Kernel, p: nat)
    requires Tree(k) && p < |k.procs|
    ensures Exiting(k.procs[p].pc) ==> p != k.init
    ensures forall j: nat :: j < |k.procs| && Passed(k.procs[p].pc, j) ==> k.procs[j].parent != Some(p)
  {
    hide Exiting, Passed;
  }

  /** Points whose wakeup belongs to exit keep what reparent has established. */
  lemma WakeTree(k: Kernel, p: nat)
    requires Tree(k) && OnCpu(k, p) && CanStep(k, p) && StateOk(k.procs[p]) && PcOk(p, k.procs[p].pc)
    requires k.procs[p].pc.Wk? || k.procs[p].pc.WkHeld?
    ensures Tree(NextStep(k, p))
  {
    hide Tree;
    if k.procs[p].pc.Wk? {
      WakeLooks(k, p);
    } else {
      WakeWakes(k, p);
    }
  }

  lemma WakeLooks(k: Kernel, p: nat)
    requires Tree(k) && OnCpu(k, p) && CanStep(k, p) && StateOk(k.procs[p]) && PcOk(p, k.procs[p].pc)
             && k.procs[p].pc.Wk?
    ensures Tree(NextStep(k, p))
  {
    hide ParentsOk, PidsOk, InitOk, ReparentOk, ForksOk, WaitsOk, RootedOk;
    ExitFacts(k, p);
    LocalTree(k, NextStep(k, p), p);
  }

  lemma WakeWakes(k: Kernel, p: nat)
    requires Tree(k) && OnCpu(k, p) && CanStep(k, p) && StateOk(k.procs[p]) && PcOk(p, k.procs[p].pc)
    requires k.procs[p].pc.WkHeld?
    ensures Tree(NextStep(k, p))
  {
    hide ParentsOk, PidsOk, InitOk, ReparentOk, ForksOk, WaitsOk, RootedOk;
    ExitFacts(k, p);
    LocalTree(k, NextStep(k, p), p);
  }

  lemma WaitTree(k: Kernel, p: nat)
    requires Tree(k) && OnCpu(k, p) && CanStep(k, p) && StateOk(k.procs[p])
    requires var pc := k.procs[p].pc;
             pc.WtAcquire? || pc.WtScan? || pc.WtDecide? || pc.WtDone? || (pc.WtHeld? && k.procs[pc.i].state != ZOMBIE)
    ensures Tree(NextStep(k, p))
  {
    hide Tree;
    if k.procs[p].pc.WtAcquire? || k.procs[p].pc.WtScan? {
      WaitScans(k, p);
    } else {
      WaitDecides(k, p);
    }
  }

  lemma WaitScans(k: Kernel, p: nat)
    requires Tree(k) && OnCpu(k, p) && CanStep(k, p) && StateOk(k.procs[p])
    requires (k.procs[p].pc.WtAcquire? || k.procs[p].pc.WtScan?)
    ensures Tree(NextStep(k, p))
  {
    hide ParentsOk, PidsOk, InitOk, ReparentOk, ForksOk, WaitsOk, RootedOk;
    LocalTree(k, NextStep(k, p), p);
  }

  lemma WaitDecides(k: Kernel, p: nat)
    requires Tree(k) && OnCpu(k, p) && CanStep(k, p) && StateOk(k.procs[p])
    requires var pc := k.procs[p].pc; pc.WtDecide? || pc.WtDone? || (pc.WtHeld? && k.procs[pc.i].state != ZOMBIE)
    ensures Tree(NextStep(k, p))
  {
    hide ParentsOk, PidsOk, InitOk, ReparentOk, ForksOk, WaitsOk, RootedOk;
    LocalTree(k, NextStep(k, p), p);
  }

  /** The points of exit that change no parent and no state. */
  lemma ExitTree(k: Kernel, p: nat)
    requires Tree(k) && OnCpu(k, p) && CanStep(k, p) && StateOk(k.procs[p])
    requires var pc := k.procs[p].pc;
             || pc.ExAcquire? || pc.ExLock? || pc.ExDrop? || pc.ExSched?
             || (pc.ExScan? && (pc.i >= |k.procs| || k.procs[pc.i].parent != Some(p)))
    ensures Tree(NextStep(k, p))
  {
    hide Tree;
    if k.procs[p].pc.ExScan? {
      ExitScans(k, p);
    } else if k.procs[p].pc.ExAcquire? || k.procs[p].pc.ExLock? {
      ExitLocks(k, p);
    } else {
      ExitLeaves(k, p);
    }
  }

  lemma ExitScans(k: Kernel, p: nat)
    requires Tree(k) && OnCpu(k, p) && CanStep(k, p) && StateOk(k.procs[p]) && k.procs[p].pc.ExScan?
    requires k.procs[p].pc.i >= |k.procs| || k.procs[k.procs[p].pc.i].parent != Some(p)
    ensures Tree(NextStep(k, p))
  {
    hide ParentsOk, PidsOk, InitOk, ReparentOk, ForksOk, WaitsOk, RootedOk;
    ExitFacts(k, p);
    LocalTree(k, NextStep(k, p), p);
  }

  lemma ExitLocks(k: Kernel, p: nat)
    requires Tree(k) && OnCpu(k, p) && CanStep(k, p) && StateOk(k.procs[p])
    requires k.procs[p].pc.ExAcquire? || k.procs[p].pc.ExLock?
    ensures Tree(NextStep(k, p))
  {
    hide ParentsOk, PidsOk, InitOk, ReparentOk, ForksOk, WaitsOk, RootedOk;
    ExitFacts(k, p);
    LocalTree(k, NextStep(k, p), p);
  }

  lemma ExitLeaves(k: Kernel, p: nat)
    requires Tree(k) && OnCpu(k, p) && CanStep(k, p) && StateOk(k.procs[p])
    requires k.procs[p].pc.ExDrop? || k.procs[p].pc.ExSched?
    ensures Tree(NextStep(k, p))
  {
    hide ParentsOk, PidsOk, InitOk, ReparentOk, ForksOk, WaitsOk, RootedOk;
    ExitFacts(k, p);
    LocalTree(k, NextStep(k, p), p);
  }

  lemma ForkScanTree(k: Kernel, p: nat)
    requires Tree(k) && OnCpu(k, p) && CanStep(k, p) && StateOk(k.procs[p])
    requires var pc := k.procs[p].pc; pc.FkScan? || (pc.FkHeld? && k.procs[pc.i].state != UNUSED)
    ensures Tree(NextStep(k, p))
  {
    hide ParentsOk, PidsOk, InitOk, ReparentOk, ForksOk, WaitsOk, RootedOk;
    if k.procs[p].pc.FkScan? {
      ForkLooks(k, p);
    } else {
      LocalTree(k, NextStep(k, p), p);
    }
  }

  lemma ForkLooks(k: Kernel, p: nat)
    requires Tree(k) && OnCpu(k, p) && CanStep(k, p) && StateOk(k.procs[p]) && k.procs[p].pc.FkScan?
    ensures Tree(NextStep(k, p))
  {
    hide ParentsOk, PidsOk, InitOk, ReparentOk, ForksOk, WaitsOk, RootedOk;
    LocalTree(k, NextStep(k, p), p);
  }

  /** The points of fork say nothing about exit. */
  lemma ForkPoint(pc: Pc)
    requires ChildSlot(pc).Some?
    ensures !Exiting(pc) && !pc.WtHeld? && forall j: nat :: !Passed(pc, j)
  {
  }

  lemma ForkTree(k: Kernel, p: nat)
    requires Tree(k) && OnCpu(k, p) && CanStep(k, p) && StateOk(k.procs[p])
    requires var pc := k.procs[p].pc; pc.FkBuild? || pc.FkAdopt? || pc.FkReady?
    ensures Tree(NextStep(k, p))
  {
    hide ParentsOk, PidsOk, InitOk, ReparentOk, ForksOk, WaitsOk, RootedOk, Exiting, Passed;
    var i, me := k.procs[p].pc.i, k.procs[p];
    assert me.state == RUNNING;
    ForkPoint(FkAdopt(i));
    ForkPoint(FkParent(i));
    ForkPoint(FkSet(i));
    hide StateOk;
    LocalTree(k, NextStep(k, p), p);
  }

  // Steps that change the tree: process p works on slot i.

  ghost predicate TwoChanged(k: Kernel, k': Kernel, p: nat, i: nat) {
    && p < |k.procs| && i < |k.procs| && |k'.procs| == |k.procs| && k'.init == k.init
    && forall r: nat :: r < |k.procs| && r != p && r != i ==> k'.procs[r] == k.procs[r]
  }

  /** Slot x as a child: its parent is alive and older. */
  predicate ChildOk(k: Kernel, x: nat)
    requires x < |k.procs|
  {
    k.procs[x].parent.Some? ==>
      var y := k.procs[x].parent.value;
      y < |k.procs| && k.procs[x].state != UNUSED && Alive(k.procs[y]) && k.procs[y].pid < k.procs[x].pid
  }

  /** Slot x as a parent: it is alive with the pid it had, or nobody's parent. */
  ghost predicate ParentOk(k: Kernel, k': Kernel, x: nat)
    requires x < |k.procs| == |k'.procs|
  {
    || (Alive(k'.procs[x]) && k'.procs[x].pid == k.procs[x].pid)
    || forall j: nat :: j < |k.procs| ==> k'.procs[j].parent != Some(x)
  }

  lemma ParentsTwo(k: Kernel, k': Kernel, p: nat, i: nat)
    requires ParentsOk(k) && TwoChanged(k, k', p, i)
    requires ChildOk(k', p) && ChildOk(k', i) && ParentOk(k, k', p) && ParentOk(k, k', i)
    ensures ParentsOk(k')
  {
    hide Alive;
    forall q: nat, r: nat | q < |k.procs| && r < |k.procs| && k'.procs[q].parent == Some(r)
      ensures Alive(k'.procs[r]) && k'.procs[r].pid < k'.procs[q].pid
    {
      if q != p && q != i {
        assert k.procs[q].parent == Some(r);
        assert Alive(k.procs[r]) && k.procs[r].pid < k.procs[q].pid;
      }
    }
  }

  /** Slot x is free, or keeps the pid it was using. */
  predicate PidKept(k: Kernel, k': Kernel, x: nat)
    requires x < |k.procs| == |k'.procs|
  {
    k'.procs[x].state == UNUSED || (k'.procs[x].pid == k.procs[x].pid && k.procs[x].state != UNUSED)
  }

  lemma PidsTwo(k: Kernel, k': Kernel, p: nat, i: nat)
    requires PidsOk(k) && TwoChanged(k, k', p, i) && k'.nextpid == k.nextpid
    requires PidKept(k, k', p) && PidKept(k, k', i) && k'.procs[k.init].pid == k.procs[k.init].pid
    ensures PidsOk(k')
  {
    forall q: nat, r: nat | q < |k.procs| && r < |k.procs| && q != r && k'.procs[q].state != UNUSED
      && k'.procs[r].state != UNUSED
      ensures k'.procs[q].pid != k'.procs[r].pid
    {
      assert k.procs[q].state != UNUSED && k.procs[r].state != UNUSED;
      assert k'.procs[q].pid == k.procs[q].pid && k'.procs[r].pid == k.procs[r].pid;
    }
  }

  lemma ReparentTwo(k: Kernel, k': Kernel, p: nat, i: nat)
    requires ReparentOk(k) && TwoChanged(k, k', p, i)
    requires forall j: nat :: j < |k.procs| && Passed(k'.procs[p].pc, j) ==> k'.procs[j].parent != Some(p)
    requires forall j: nat :: j < |k.procs| && Passed(k'.procs[i].pc, j) ==> k'.procs[j].parent != Some(i)
    requires forall r: nat :: r < |k.procs| && r != p && r != i && k'.procs[i].parent == Some(r) ==>
              !Passed(k.procs[r].pc, i)
    requires k'.procs[p].parent == k.procs[p].parent
    ensures ReparentOk(k')
  {
    hide Passed;
    forall r: nat, j: nat | r < |k.procs| && j < |k.procs| && Passed(k'.procs[r].pc, j)
      ensures k'.procs[j].parent != Some(r)
    {
      if r != p && r != i && j != i {
        assert k.procs[j].parent != Some(r);
      }
    }
  }

  /** Nobody builds a child in slot x. */
  ghost predicate NotASlot(k: Kernel, x: nat) {
    forall r: nat :: r < |k.procs| ==> ChildSlot(k.procs[r].pc) != Some(x)
  }

  lemma UnusedNotASlot(k: Kernel, x: nat)
    requires ForksOk(k) && x < |k.procs| && (k.procs[x].state != USED || k.procs[x].pc != Fresh)
    ensures NotASlot(k, x)
  {
    hide ChildSlot;
    forall r: nat | r < |k.procs| ensures ChildSlot(k.procs[r].pc) != Some(x) {
      assert k.procs[x].state == k.procs[x].state;
    }
  }

  /** Slot i is not being built by anyone but p. */
  ghost predicate SlotOf(k: Kernel, p: nat, i: nat) {
    forall r: nat :: r < |k.procs| && r != p ==> ChildSlot(k.procs[r].pc) != Some(i)
  }

  /** Process p is building a child in slot i, and the slot says so. */
  predicate Builds(k: Kernel, p: nat, i: nat)
    requires p < |k.procs|
  {
    && Building(k, p, i) && k.procs[p].pid < k.procs[i].pid
    && k.procs[i].parent == (if Linked(k.procs[p].pc) then Some(p) else None)
  }

  lemma ForksTwo(k: Kernel, k': Kernel, p: nat, i: nat)
    requires ForksOk(k) && TwoChanged(k, k', p, i) && NotASlot(k, p) && SlotOf(k, p, i)
    requires ChildSlot(k'.procs[p].pc).None? || (i != p && ChildSlot(k'.procs[p].pc) == Some(i) && Builds(k', p, i))
    requires i != p ==>
               || ChildSlot(k'.procs[i].pc).None?
               || (k'.procs[i].pc == k.procs[i].pc && k'.procs[i].pid == k.procs[i].pid)
    ensures ForksOk(k')
  {
    hide ChildSlot, Building;
    forall q: nat, j: nat | q < |k.procs| && j < |k.procs| && ChildSlot(k'.procs[q].pc) == Some(j)
      ensures Builds(k', q, j)
    {
      if q != p {
        assert ChildSlot(k.procs[q].pc) == Some(j);
        assert k.procs[j].state == k.procs[j].state;
        assert Builds(k, q, j) && j != i && j != p;
        SameSlot(k, k', q, j);
      }
    }
    forall q: nat | q < |k.procs| && ChildSlot(k'.procs[q].pc).Some?
      ensures ChildSlot(k'.procs[q].pc).value < |k.procs|
    {
    }
    forall q: nat, r: nat | q < |k.procs| && r < |k.procs| && q != r && ChildSlot(k'.procs[q].pc).Some?
      ensures ChildSlot(k'.procs[q].pc) != ChildSlot(k'.procs[r].pc)
    {
    }
  }

  lemma SameSlot(k: Kernel, k': Kernel, q: nat, j: nat)
    requires q < |k.procs| == |k'.procs| && j < |k.procs| && k'.procs[j] == k.procs[j]
    requires k'.procs[q].pid == k.procs[q].pid
    requires Builds(k, q, j) && k'.procs[q].pc == k.procs[q].pc
    ensures Builds(k', q, j)
  {
  }

  lemma WaitsTwo(k: Kernel, k': Kernel, p: nat, i: nat)
    requires WaitsOk(k) && TwoChanged(k, k', p, i) && !k'.procs[p].pc.WtHeld?
    requires k'.procs[i].pc == k.procs[i].pc || !k'.procs[i].pc.WtHeld?
    requires k'.procs[p].parent == k.procs[p].parent
    requires k'.procs[i].parent == k.procs[i].parent || forall r: nat :: r < |k.procs| && r != p ==>
              k.procs[r].pc != WtHeld(i)
    ensures WaitsOk(k')
  {
  }

  lemma InitTwo(k: Kernel, k': Kernel, p: nat, i: nat)
    requires InitOk(k) && TwoChanged(k, k', p, i) && i != k.init
    requires p == k.init ==>
               Alive(k'.procs[p]) && k'.procs[p].parent.None? && !Exiting(k'.procs[p].pc)
    ensures InitOk(k')
  {
    hide Exiting, Alive;
  }

  /** What exit knows about a child it is about to hand over. */
  lemma ReparentFacts(k: Kernel, p: nat, i: nat)
    requires Tree(k) && p < |k.procs| && i < |k.procs| && k.procs[p].pc == ExScan(i) && k.procs[i].parent == Some(p)
    ensures i != p && i != k.init && p != k.init && k.init < |k.procs|
    ensures Alive(k.procs[k.init]) && k.procs[k.init].pid < k.procs[i].pid && k.procs[i].state != UNUSED
    ensures SlotOf(k, p, i) && forall r: nat :: r < |k.procs| && r != p ==> k.procs[r].pc != WtHeld(i)
    ensures forall j: nat :: !Passed(k.procs[k.init].pc, j)
  {
    assert Exiting(k.procs[p].pc);
    assert k.procs[i].pid == k.procs[i].pid && k.procs[p].pid == k.procs[p].pid;
    forall r: nat | r < |k.procs| ensures ChildSlot(k.procs[r].pc) != Some(i) {
      assert k.procs[i].state == k.procs[i].state;
    }
    forall j: nat ensures !Passed(k.procs[k.init].pc, j) {
      assert Passed(k.procs[k.init].pc, j) ==> Exiting(k.procs[k.init].pc);
    }
  }

  lemma SelfChild(k: Kernel, x: nat)
    requires ParentsOk(k) && x < |k.procs|
    ensures ChildOk(k, x)
  {
  }

  /** Only a live process has children. */
  lemma DeadIsChildless(k: Kernel, x: nat)
    requires ParentsOk(k) && x < |k.procs| && !Alive(k.procs[x])
    ensures Childless(k, x)
  {
    hide Alive;
    forall j: nat | j < |k.procs| ensures k.procs[j].parent != Some(x) {
      assert k.procs[x].pid == k.procs[x].pid;
    }
  }

  lemma RootedTwo(k: Kernel, k': Kernel, p: nat, i: nat)
    requires RootedOk(k) && TwoChanged(k, k', p, i) && k'.procs[p].parent == k.procs[p].parent
    requires k.procs[p].state != UNUSED && k.procs[p].state != USED
    requires i == p || k'.procs[i].parent.Some? || k'.procs[i].state == UNUSED || k'.procs[i].state == USED
    ensures RootedOk(k')
  {
  }

  /** exit makes the process a zombie: by now it has no children. */
  lemma ZombieTree(k: Kernel, p: nat)
    requires Tree(k) && p < |k.procs| && k.procs[p].state == RUNNING && k.procs[p].pc == ExZombie
    ensures Tree(SetPc(SetState(k, p, ZOMBIE), p, ExDrop))
  {
    var k' := SetPc(SetState(k, p, ZOMBIE), p, ExDrop);
    hide Tree;
    ZombieParents(k, k', p);
    ZombieForks(k, k', p);
    assert Tree(k') by { AllOk(k'); }
  }

  lemma AllOk(k: Kernel)
    requires ParentsOk(k) && PidsOk(k) && InitOk(k) && ReparentOk(k) && ForksOk(k) && WaitsOk(k) && RootedOk(k)
    ensures Tree(k)
  {
  }

  lemma NotPassed(k: Kernel, x: nat)
    requires InitOk(k) && ReparentOk(k) && x < |k.procs|
    ensures k.init < |k.procs|
    ensures forall r: nat :: r < |k.procs| && Passed(k.procs[r].pc, x) ==> k.procs[x].parent != Some(r)
  {
    hide Passed;
  }

  lemma ZombieParents(k: Kernel, k': Kernel, p: nat)
    requires Tree(k) && p < |k.procs| && k.procs[p].state == RUNNING && k.procs[p].pc == ExZombie
    requires k' == SetPc(SetState(k, p, ZOMBIE), p, ExDrop)
    ensures ParentsOk(k') && PidsOk(k') && InitOk(k') && ReparentOk(k')
  {
    hide ParentsOk, PidsOk, InitOk, ReparentOk, ForksOk, WaitsOk, RootedOk;
    ExitFacts(k, p);
    SelfChild(k, p);
    NotPassed(k, p);
    assert k.procs[p].parent != Some(p);
    ParentsTwo(k, k', p, p);
    PidsTwo(k, k', p, p);
    InitTwo(k, k', p, p);
    ReparentTwo(k, k', p, p);
  }

  lemma ZombieForks(k: Kernel, k': Kernel, p: nat)
    requires Tree(k) && p < |k.procs| && k.procs[p].state == RUNNING && k.procs[p].pc == ExZombie
    requires k' == SetPc(SetState(k, p, ZOMBIE), p, ExDrop)
    ensures ForksOk(k') && RootedOk(k') && WaitsOk(k')
  {
    hide ParentsOk, PidsOk, InitOk, ReparentOk, ForksOk, WaitsOk, RootedOk;
    UnusedNotASlot(k, p);
    ForksTwo(k, k', p, p);
    RootedTwo(k, k', p, p);
    WaitsTwo(k, k', p, p);
  }

  /** Process p moves to pc and replaces slot i, not its own, by r. */
  ghost predicate Edit(k: Kernel, k': Kernel, p: nat, i: nat, pc: Pc, r: Process) {
    && TwoChanged(k, k', p, i) && i != p && i != k.init && Alive(k.procs[p])
    && k'.procs[p] == k.procs[p].(pc := pc) && k'.procs[i] == r
    && pc != Fresh && pc != Free && !pc.WtHeld? && (Exiting(pc) ==> p != k.init)
  }

  ghost predicate Childless(k: Kernel, x: nat) {
    forall j: nat :: j < |k.procs| ==> k.procs[j].parent != Some(x)
  }

  /** What r may say about its parent. */
  predicate ParentFits(k: Kernel, i: nat, r: Process) {
    r.parent.Some? ==>
      var y := r.parent.value;
      y < |k.procs| && y != i && r.state != UNUSED && Alive(k.procs[y]) && k.procs[y].pid < r.pid
  }

  /** The new point of slot i claims nothing new. */
  predicate QuietAt(old_: Process, r: Process) {
    || (r.pc == old_.pc && r.pid == old_.pid)
    || r.pc == Fresh || r.pc == Free
  }

  lemma EditParents(k: Kernel, k': Kernel, p: nat, i: nat, pc: Pc, r: Process)
    requires ParentsOk(k) && Edit(k, k', p, i, pc, r)
    requires (Alive(r) && r.pid == k.procs[i].pid) || Childless(k, i)
    requires ParentFits(k, i, r)
    ensures ParentsOk(k')
  {
    SelfChild(k, p);
    hide ParentsOk, Exiting;
    ParentsTwo(k, k', p, i);
  }

  lemma EditReparent(k: Kernel, k': Kernel, p: nat, i: nat, pc: Pc, r: Process)
    requires ReparentOk(k) && Edit(k, k', p, i, pc, r) && QuietAt(k.procs[i], r) && r.parent != Some(i)
    requires forall j: nat :: j < |k.procs| && Passed(pc, j) ==>
              (if j == i then r.parent else k.procs[j].parent) != Some(p)
    requires r.parent.Some? && r.parent.value < |k.procs| && r.parent.value != p ==>
              !Passed(k.procs[r.parent.value].pc, i)
    ensures ReparentOk(k')
  {
    assert forall j: nat :: j < |k.procs| && Passed(k.procs[i].pc, j) ==> k.procs[j].parent != Some(i);
    hide ReparentOk, Exiting, Alive;
    forall j: nat | j < |k.procs| && Passed(k'.procs[i].pc, j) ensures k'.procs[j].parent != Some(i) {
      assert j != i ==> k'.procs[j].parent == k.procs[j].parent;
    }
    hide Passed;
    ReparentTwo(k, k', p, i);
  }

  lemma EditForks(k: Kernel, k': Kernel, p: nat, i: nat, pc: Pc, r: Process)
    requires ForksOk(k) && Edit(k, k', p, i, pc, r) && QuietAt(k.procs[i], r) && SlotOf(k, p, i)
    requires ChildSlot(pc).None? || (ChildSlot(pc) == Some(i) && Builds(k', p, i))
    ensures ForksOk(k')
  {
    UnusedNotASlot(k, p);
    hide ForksOk, Exiting, SlotOf, NotASlot, Builds;
    ForksTwo(k, k', p, i);
  }

  /** What a step of process p on slot i has to show to keep the tree. */
  lemma EditTree(k: Kernel, k': Kernel, p: nat, i: nat, pc: Pc, r: Process)
    requires Tree(k) && Edit(k, k', p, i, pc, r) && QuietAt(k.procs[i], r) && PidsOk(k')
    requires (Alive(r) && r.pid == k.procs[i].pid) || Childless(k, i)
    requires ParentFits(k, i, r)
    requires forall j: nat :: j < |k.procs| && Passed(pc, j) ==>
              (if j == i then r.parent else k.procs[j].parent) != Some(p)
    requires r.parent.Some? && r.parent.value < |k.procs| && r.parent.value != p ==>
              !Passed(k.procs[r.parent.value].pc, i)
    requires SlotOf(k, p, i) && (ChildSlot(pc).None? || (ChildSlot(pc) == Some(i) && Builds(k', p, i)))
    requires r.parent == k.procs[i].parent || forall q: nat :: q < |k.procs| && q != p ==> k.procs[q].pc != WtHeld(i)
    requires r.parent.Some? || r.state == UNUSED || r.state == USED
    ensures Tree(k')
  {
    hide ParentsOk, PidsOk, ReparentOk, ForksOk, SlotOf, Builds, Passed, Exiting, ChildSlot;
    EditParents(k, k', p, i, pc, r);
    EditReparent(k, k', p, i, pc, r);
    EditForks(k, k', p, i, pc, r);
    InitTwo(k, k', p, i);
    RootedTwo(k, k', p, i);
    hide InitOk, ParentFits, Alive;
    WaitsTwo(k, k', p, i);
  }

  lemma ReparentPassed(k: Kernel, p: nat, i: nat)
    requires Tree(k) && p < |k.procs| && k.procs[p].pc == ExScan(i) && p != k.init
    ensures forall j: nat :: j < |k.procs| && Passed(Wk(ProcChan(k.init), 0, ToScan(i + 1)), j) ==>
              (if j == i then Some(k.init) else k.procs[j].parent) != Some(p)
  {
    ExitFacts(k, p);
    hide Tree;
  }

  /** exit hands a child to init. */
  lemma ReparentTree(k: Kernel, p: nat, i: nat)
    requires Tree(k) && p < |k.procs| && k.procs[p].state == RUNNING && k.procs[p].pc == ExScan(i) && i < |k.procs|
    requires k.procs[i].parent == Some(p)
    ensures Tree(SetPc(SetProc(k, i, k.procs[i].(parent := Some(k.init))), p, Wk(ProcChan(k.init), 0, ToScan(i + 1))))
  {
    var r, pc := k.procs[i].(parent := Some(k.init)), Wk(ProcChan(k.init), 0, ToScan(i + 1));
    var k' := SetPc(SetProc(k, i, r), p, pc);
    hide ParentsOk, PidsOk, InitOk, ReparentOk, ForksOk, WaitsOk, RootedOk, SlotOf, Passed, Exiting, Childless;
    hide SetPc, SetProc, Edit;
    ReparentFacts(k, p, i);
    ReparentPassed(k, p, i);
    SlotEdit(k, k', p, i, pc, r);
    if !Alive(k.procs[i]) {
      DeadIsChildless(k, i);
    }
    EditTree(k, k', p, i, pc, r);
  }

  /** Replacing slot i without touching its state and pid, or the lock of wait, is an edit. */
  lemma SlotEdit(k: Kernel, k': Kernel, p: nat, i: nat, pc: Pc, r: Process)
    requires p < |k.procs| && i < |k.procs| && i != p && i != k.init && k.init < |k.procs| && PidsOk(k)
    requires Alive(k.procs[p]) && r.state == k.procs[i].state && r.pid == k.procs[i].pid
    requires pc != Fresh && pc != Free && !pc.WtHeld? && (Exiting(pc) ==> p != k.init)
    requires k' == SetPc(SetProc(k, i, r), p, pc) || k' == SetPc(SetProc(k, i, r).(wait := None), p, pc)
    ensures Edit(k, k', p, i, pc, r) && PidsOk(k')
  {
    hide PidsOk, Exiting;
    PidsTwo(k, k', p, i);
  }

  lemma ReapFacts(k: Kernel, p: nat, i: nat)
    requires Tree(k) && p < |k.procs| && i < |k.procs| && k.procs[p].pc == WtHeld(i) && k.procs[i].state == ZOMBIE
    requires Alive(k.procs[p])
    ensures i != p && i != k.init && k.init < |k.procs| && SlotOf(k, p, i) && Childless(k, i)
    ensures forall r: nat :: r < |k.procs| && r != p ==> k.procs[r].pc != WtHeld(i)
  {
    hide Passed, ChildSlot, Exiting;
    DeadIsChildless(k, i);
    UnusedNotASlot(k, i);
    assert k.procs[i].parent == Some(p);
  }

  /** wait frees a zombie child. */
  lemma ReapTree(k: Kernel, p: nat, i: nat)
    requires Tree(k) && p < |k.procs| && k.procs[p].state == RUNNING && k.procs[p].pc == WtHeld(i) && i < |k.procs|
    requires k.procs[i].state == ZOMBIE
    ensures Tree(SetPc(SetProc(k, i, UnusedSlot), p, WtDone))
  {
    var k' := SetPc(SetProc(k, i, UnusedSlot), p, WtDone);
    hide ParentsOk, PidsOk, InitOk, ReparentOk, ForksOk, WaitsOk, RootedOk;
    ReapFacts(k, p, i);
    hide SlotOf, Childless;
    PidsTwo(k, k', p, i);
    EditTree(k, k', p, i, WtDone, UnusedSlot);
  }

  lemma PidsClaim(k: Kernel, k': Kernel, p: nat, i: nat)
    requires PidsOk(k) && TwoChanged(k, k', p, i) && i != p && i != k.init && k.procs[p].state != UNUSED
    requires k'.nextpid == k.nextpid + 1 && k'.procs[i].pid == k.nextpid && k'.procs[p].pid == k.procs[p].pid
    ensures PidsOk(k') && k.procs[p].pid < k.nextpid
  {
    assert k.procs[k.init].state != UNUSED ==> k.procs[k.init].pid < k.nextpid;
    assert k.procs[k.init].pid <= k.procs[p].pid;
    forall q: nat, r: nat | q < |k.procs| && r < |k.procs| && q != r && k'.procs[q].state != UNUSED
      && k'.procs[r].state != UNUSED
      ensures k'.procs[q].pid != k'.procs[r].pid
    {
      assert q != i ==> k'.procs[q].pid == k.procs[q].pid && (q == p || k'.procs[q].state == k.procs[q].state);
      assert r != i ==> k'.procs[r].pid == k.procs[r].pid && (r == p || k'.procs[r].state == k.procs[r].state);
    }
  }

  lemma ClaimFacts(k: Kernel, p: nat, i: nat)
    requires Tree(k) && p < |k.procs| && i < |k.procs| && k.procs[i].state == UNUSED && Alive(k.procs[p])
    ensures i != p && i != k.init && k.init < |k.procs| && SlotOf(k, p, i) && k.procs[i].parent.None? && Childless(k, i)
  {
    hide Passed, ChildSlot, Exiting;
    DeadIsChildless(k, i);
    UnusedNotASlot(k, i);
  }

  function Claimed(k: Kernel, p: nat, i: nat): Kernel
    requires p < |k.procs| && i < |k.procs|
  {
    SetPc(SetProc(k, i, k.procs[i].(state := USED, pid := k.nextpid, pc := Fresh)).(nextpid := k.nextpid + 1), p,
      FkBuild(i))
  }

  lemma ClaimEdit(k: Kernel, p: nat, i: nat, r: Process)
    requires p < |k.procs| && i < |k.procs| && PidsOk(k) && k.procs[p].state == RUNNING && i != p && i != k.init
    requires r == k.procs[i].(state := USED, pid := k.nextpid, pc := Fresh) && k.procs[i].parent.None?
    ensures Edit(k, Claimed(k, p, i), p, i, FkBuild(i), r) && PidsOk(Claimed(k, p, i)) && Builds(Claimed(k, p, i), p, i)
  {
    hide PidsOk;
    PidsClaim(k, Claimed(k, p, i), p, i);
  }

  /** allocproc takes an unused slot. */
  lemma ClaimTree(k: Kernel, p: nat, i: nat)
    requires Tree(k) && p < |k.procs| && k.procs[p].state == RUNNING && k.procs[p].pc == FkHeld(i) && i < |k.procs|
    requires k.procs[i].state == UNUSED
    ensures Tree(Claimed(k, p, i))
  {
    var r := k.procs[i].(state := USED, pid := k.nextpid, pc := Fresh);
    hide ParentsOk, PidsOk, InitOk, ReparentOk, ForksOk, WaitsOk, RootedOk;
    ClaimFacts(k, p, i);
    ClaimEdit(k, p, i, r);
    hide Claimed, Edit, Builds, SlotOf, Childless;
    EditTree(k, Claimed(k, p, i), p, i, FkBuild(i), r);
  }

  lemma BuildFacts(k: Kernel, p: nat, i: nat)
    requires Tree(k) && p < |k.procs| && i < |k.procs| && ChildSlot(k.procs[p].pc) == Some(i)
    ensures Builds(k, p, i) && i != k.init && k.init < |k.procs| && SlotOf(k, p, i) && Childless(k, i)
    ensures k.procs[i].parent.None? ==> forall r: nat :: r < |k.procs| ==> k.procs[r].pc != WtHeld(i)
  {
    hide Passed, Exiting;
    assert k.procs[i].state == USED;
    DeadIsChildless(k, i);
  }

  /** Once linked, the child is what FkReady expects of it. */
  lemma AdoptFacts(k: Kernel, k': Kernel, p: nat, i: nat, r: Process)
    requires p < |k.procs| && i < |k.procs| && k.procs[p].state == RUNNING && k.procs[p].pc == FkParent(i)
    requires Builds(k, p, i) && r == k.procs[i].(parent := Some(p)) && i != p
    requires k' == SetPc(SetProc(k, i, r).(wait := None), p, FkReady(i))
    ensures Builds(k', p, i) && QuietAt(k.procs[i], r) && ParentFits(k, i, r) && k.procs[i].parent.None?
    ensures ChildSlot(FkReady(i)) == Some(i) && !Exiting(FkReady(i)) && forall j: nat :: !Passed(FkReady(i), j)
  {
  }

  /** fork links the child to its parent. */
  lemma AdoptTree(k: Kernel, p: nat, i: nat)
    requires Tree(k) && p < |k.procs| && k.procs[p].state == RUNNING && k.procs[p].pc == FkParent(i) && i < |k.procs|
    ensures Tree(SetPc(SetProc(k, i, k.procs[i].(parent := Some(p))).(wait := None), p, FkReady(i)))
  {
    var r := k.procs[i].(parent := Some(p));
    var k' := SetPc(SetProc(k, i, r).(wait := None), p, FkReady(i));
    hide ParentsOk, PidsOk, InitOk, ReparentOk, ForksOk, WaitsOk, RootedOk;
    hide SlotOf, Childless, Edit, QuietAt, ParentFits, Passed, Exiting;
    BuildFacts(k, p, i);
    AdoptFacts(k, k', p, i, r);
    SlotEdit(k, k', p, i, FkReady(i), r);
    hide Builds, SetPc, SetProc, Alive, ChildSlot;
    EditTree(k, k', p, i, FkReady(i), r);
  }

  /** fork makes the child runnable. */
  lemma StartTree(k: Kernel, p: nat, i: nat)
    requires Tree(k) && p < |k.procs| && k.procs[p].state == RUNNING && k.procs[p].pc == FkSet(i) && i < |k.procs|
    ensures Tree(SetPc(SetProc(k, i, k.procs[i].(state := RUNNABLE, lock := None)), p, Run))
  {
    var r := k.procs[i].(state := RUNNABLE, lock := None);
    var k' := SetPc(SetProc(k, i, r), p, Run);
    hide ParentsOk, PidsOk, InitOk, ReparentOk, ForksOk, WaitsOk, RootedOk;
    BuildFacts(k, p, i);
    SelfChild(k, i);
    assert Edit(k, k', p, i, Run, r);
    hide SetPc, SetProc, SlotOf, Childless, Exiting;
    PidsTwo(k, k', p, i);
    EditTree(k, k', p, i, Run, r);
  }

  /** fork fails: the slot is freed again. */
  lemma FailTree(k: Kernel, p: nat, i: nat)
    requires Tree(k) && p < |k.procs| && k.procs[p].state == RUNNING && k.procs[p].pc == FkBuild(i) && i < |k.procs|
    ensures Tree(SetPc(SetProc(k, i, UnusedSlot), p, Run))
  {
    var k' := SetPc(SetProc(k, i, UnusedSlot), p, Run);
    hide ParentsOk, PidsOk, InitOk, ReparentOk, ForksOk, WaitsOk, RootedOk;
    BuildFacts(k, p, i);
    hide SlotOf, Childless;
    PidsTwo(k, k', p, i);
    EditTree(k, k', p, i, Run, UnusedSlot);
  }
}
