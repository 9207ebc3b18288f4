/**
 Where a preempted process goes on (yield in kernel/src/proc.c): it comes back from yield to the point at which the
 timer interrupted it.
 */
module YieldEnds {
  import opened Common
  import opened Proc
  import opened ProcLocks
  import opened ProcTree
  import opened ProcRuns
  import opened WaitEnds

  /** p was preempted at moment m, at the point `at`, and has been in that yield up to moment j. */
  ghost predicate Yielding(ks: seq<Kernel>, acts: seq<Action>, p: nat, m: nat, j: nat, at: Pc)
    requires j < |ks|
  {
    && m < j && m < |acts| && acts[m] == Preempt(p) && p < |ks[m].procs| && ks[m].procs[p].pc == at
    && forall x: nat {:trigger ks[x]} :: m < x <= j ==>
         p < |ks[x].procs| && ks[x].procs[p].pc.Yd? && Point(ks[x].procs[p].pc.back) == at
  }

  ghost predicate Preempted(ks: seq<Kernel>, acts: seq<Action>, p: nat, j: nat, at: Pc)
    requires j < |ks|
  {
    exists m: nat :: Yielding(ks, acts, p, m, j, at)
  }

  // One action.

  /** A step of another process moves p only if it frees the slot of a zombie or takes an unused one. */
  lemma OthersLeave(k: Kernel, h: nat, p: nat)
    requires OnCpu(k, h) && CanStep(k, h) && p < |k.procs| && p != h
    requires k.procs[p].state != UNUSED && k.procs[p].state != ZOMBIE
    ensures p < |NextStep(k, h).procs| && NextStep(k, h).procs[p].pc == k.procs[p].pc
  {
    hide NextStep, CanStep, Parents;
    Points(k, h);
    var pc := k.procs[h].pc;
    if InSleep(pc) || InSleepLock(pc) || InYield(pc) {
      OwnFrame(k, h, p);
    } else if pc.FkHeld? {
      ClaimFrame(k, h, p);
    } else if pc.FkParent? {
      ParentLeaves(k, h, p);
    } else if InFork(pc) {
      ForkFrame(k, h, p);
    } else if InWait(pc) {
      ReapLeaves(k, h, p);
    } else {
      ExitPoints(k, h, p);
    }
    SameSize(k, h);
  }

  lemma ParentLeaves(k: Kernel, h: nat, p: nat)
    requires OnCpu(k, h) && CanStep(k, h) && p < |k.procs| && p != h && k.procs[h].pc.FkParent?
    ensures p < |NextStep(k, h).procs| && NextStep(k, h).procs[p].pc == k.procs[p].pc
  {
  }

  lemma ReapLeaves(k: Kernel, h: nat, p: nat)
    requires OnCpu(k, h) && CanStep(k, h) && p < |k.procs| && p != h && InWait(k.procs[h].pc)
    requires k.procs[p].state != ZOMBIE
    ensures p < |NextStep(k, h).procs| && NextStep(k, h).procs[p].pc == k.procs[p].pc
  {
  }

  /** A step of p in yield stays in it, or ends at the point it goes back to. */
  lemma OwnYield(k: Kernel, p: nat)
    requires OnCpu(k, p) && CanStep(k, p) && k.procs[p].pc.Yd? && |NextStep(k, p).procs| == |k.procs|
    ensures var pc, pc' := k.procs[p].pc, NextStep(k, p).procs[p].pc;
            (pc'.Yd? && pc'.back == pc.back) || pc' == Point(pc.back)
  {
  }

  lemma NotIntoYield(k: Kernel, p: nat)
    requires OnCpu(k, p) && CanStep(k, p) && !k.procs[p].pc.Yd? && |NextStep(k, p).procs| == |k.procs|
    ensures !NextStep(k, p).procs[p].pc.Yd?
  {
  }

  /** What any action does to a process in yield. */
  lemma FromYield(k: Kernel, a: Action, p: nat)
    requires Inv(k) && Enabled(k, a) && p < |k.procs| == |Next(k, a).procs| && k.procs[p].pc.Yd?
    ensures var pc, pc' := k.procs[p].pc, Next(k, a).procs[p].pc;
            (pc'.Yd? && pc'.back == pc.back) || pc' == Point(pc.back)
  {
    hide SpinsOk, HeldOk, CpusOk, PcOk, Tree, CanStep, NextStep;
    PointOk(k, p);
    if a == Step(p) {
      OwnYield(k, p);
    } else if a.Step? {
      OthersLeave(k, a.p, p);
    } else if a.Fail? && k.procs[a.p].pc.FkBuild? {
      SlotIsUsed(k, a.p);
      hide Inv;
      OthersMove(k, a, p);
    } else {
      hide Inv;
      OthersMove(k, a, p);
    }
  }

  lemma OthersMove(k: Kernel, a: Action, p: nat)
    requires Enabled(k, a) && !a.Step? && p < |k.procs| == |Next(k, a).procs|
    requires k.procs[p].pc.Yd? && StateOk(k.procs[p])
    requires a.Fail? && k.procs[a.p].pc.FkBuild? ==> k.procs[k.procs[a.p].pc.i].state == USED
    ensures Next(k, a).procs[p].pc.Yd? && Next(k, a).procs[p].pc.back == k.procs[p].pc.back
  {
  }

  /** A process comes into yield only by being preempted. */
  lemma IntoYield(k: Kernel, a: Action, p: nat)
    requires Enabled(k, a) && p < |k.procs| == |Next(k, a).procs| && !k.procs[p].pc.Yd?
    requires Next(k, a).procs[p].pc.Yd?
    ensures a == Preempt(p) && Point(Next(k, a).procs[p].pc.back) == k.procs[p].pc
  {
    hide CanStep, NextStep;
    if a == Step(p) {
      NotIntoYield(k, p);
    } else if a.Step? {
      OthersPoint(k, a.p, p);
    }
  }

  // Runs.

  lemma {:induction false} RunYields(ks: seq<Kernel>, acts: seq<Action>, j: nat, p: nat)
    requires IsRun(ks, acts) && j <= |acts| && p < |ks[j].procs| && ks[j].procs[p].pc.Yd?
    ensures Preempted(ks, acts, p, j, Point(ks[j].procs[p].pc.back))
  {
    hide Inv, Boot, Enabled, Next, Point;
    var at := Point(ks[j].procs[p].pc.back);
    if j == 0 {
      var nproc: nat, ncpu: nat :| nproc > 0 && ks[0] == Boot(nproc, ncpu);
      BootIsNotYield(nproc, ncpu, p);
    } else {
      RunInv(ks, acts, j - 1);
      AlwaysAll(ks[j - 1], acts[j - 1]);
      if ks[j - 1].procs[p].pc.Yd? {
        RunYields(ks, acts, j - 1, p);
        FromYield(ks[j - 1], acts[j - 1], p);
        PointIsNotYield(ks[j - 1].procs[p].pc.back);
        var m: nat :| Yielding(ks, acts, p, m, j - 1, at);
        assert Yielding(ks, acts, p, m, j, at);
      } else {
        IntoYield(ks[j - 1], acts[j - 1], p);
        assert Yielding(ks, acts, p, j - 1, j, at);
      }
    }
  }

  lemma PointIsNotYield(r: Rest)
    ensures !Point(r).Yd?
  {
  }

  lemma BootIsNotYield(nproc: nat, ncpu: nat, p: nat)
    requires nproc > 0 && p < |Boot(nproc, ncpu).procs|
    ensures !Boot(nproc, ncpu).procs[p].pc.Yd?
  {
  }

  /** In every run: a process that leaves yield goes on at the very point where it was preempted. */
  lemma GoesOnThere(ks: seq<Kernel>, acts: seq<Action>, j: nat, p: nat)
    requires IsRun(ks, acts) && j < |acts| && p < |ks[j].procs| && p < |ks[j + 1].procs|
    requires ks[j].procs[p].pc.Yd? && !ks[j + 1].procs[p].pc.Yd?
    ensures Preempted(ks, acts, p, j, ks[j + 1].procs[p].pc)
  {
    hide Inv, Boot, Enabled, Next, Point, Preempted;
    RunInv(ks, acts, j);
    AlwaysAll(ks[j], acts[j]);
    RunYields(ks, acts, j, p);
    FromYield(ks[j], acts[j], p);
  }

  // Giving up the CPU.

  /** What is left to do is sched: the process has stopped running and holds nothing but its own lock. */
  predicate AtSched(pc: Pc) {
    pc.SlSched? || pc == ExSched || (pc.Yd? && pc.step == YdSched)
  }

  /**
   In every run: sched finds the process asleep, ended or ready, as its caller left it; it takes the process off its
   CPU and changes no state, and the scheduler there gets the process's lock.
   */
  lemma GivesUpCpu(ks: seq<Kernel>, acts: seq<Action>, j: nat, p: nat)
    requires IsRun(ks, acts) && j < |acts| && acts[j] == Step(p) && p < |ks[j].procs| && AtSched(ks[j].procs[p].pc)
    ensures ks[j].procs[p].at.Some? && ks[j].procs[p].at.value < |ks[j].cpus|
    ensures var r := ks[j].procs[p];
            r.state == if r.pc.SlSched? then SLEEPING else if r.pc == ExSched then ZOMBIE else RUNNABLE
    ensures var k, k', c := ks[j], ks[j + 1], ks[j].procs[p].at.value;
            && |k'.procs| == |k.procs| && k'.procs[p].at.None? && k'.procs[p].state == k.procs[p].state
            && k'.procs[p].lock == Some(OfCpu(c)) && k'.cpus == k.cpus[c := Back(p)]
  {
    hide Tree, Boot;
    RunInv(ks, acts, j);
    PointOk(ks[j], p);
    AtCpu(ks[j], p);
    hide Locks;
  }

  /** The timer may interrupt a process that runs kernel code exactly where it holds no lock and is not in yield. */
  lemma PreemptIff(k: Kernel, p: nat)
    requires Inv(k) && OnCpu(k, p)
    ensures Enabled(k, Preempt(p)) <==>
            var pc := k.procs[p].pc; SpinOf(pc) == Elsewhere && LockOf(p, pc).None? && !pc.Yd? && !pc.SlLock?
  {
    hide Tree, SpinsOk, HeldOk, CpusOk;
    PointOk(k, p);
  }
}
