/** Who becomes whose child (fork, reparent and wait in kernel/src/proc.c): orphans go to init. */
module Adoption {
  import opened Common
  import opened Proc
  import opened ProcLocks
  import opened ProcTree
  import opened ProcRuns
  import opened WaitEnds

  /** How the parent of slot i may change in an action of process h: by fork, by exit, by wait. */
  ghost predicate NewParent(k: Kernel, k': Kernel, h: nat, i: nat)
    requires h < |k.procs| && i < |k.procs| && i < |k'.procs|
  {
    var old_, new_ := k.procs[i].parent, k'.procs[i].parent;
    || (old_.None? && new_ == Some(h) && k.procs[i].state == USED)
    || (old_ == Some(h) && new_ == Some(k.init) && Exiting(k.procs[h].pc))
    || (old_ == Some(h) && new_.None? && k.procs[i].state == ZOMBIE && k'.procs[i].state == UNUSED)
  }

  lemma OwnSame(k: Kernel, h: nat, i: nat)
    requires OnCpu(k, h) && CanStep(k, h) && i < |k.procs| && |NextStep(k, h).procs| == |k.procs|
    requires var pc := k.procs[h].pc; InSleep(pc) || InSleepLock(pc) || InYield(pc)
    ensures NextStep(k, h).procs[i].parent == k.procs[i].parent
  {
  }

  lemma WakeSame(k: Kernel, h: nat, i: nat)
    requires OnCpu(k, h) && CanStep(k, h) && i < |k.procs| && |NextStep(k, h).procs| == |k.procs|
    requires k.procs[h].pc.Wk? || k.procs[h].pc.WkHeld?
    ensures NextStep(k, h).procs[i].parent == k.procs[i].parent
  {
  }

  lemma ForkChange(k: Kernel, h: nat, i: nat)
    requires OnCpu(k, h) && CanStep(k, h) && i < |k.procs| && |NextStep(k, h).procs| == |k.procs|
    requires InFork(k.procs[h].pc)
    requires ChildSlot(k.procs[h].pc).Some? ==> Builds(k, h, ChildSlot(k.procs[h].pc).value)
    ensures NextStep(k, h).procs[i].parent == k.procs[i].parent || NewParent(k, NextStep(k, h), h, i)
  {
  }

  lemma ExitChange(k: Kernel, h: nat, i: nat)
    requires OnCpu(k, h) && CanStep(k, h) && i < |k.procs| && |NextStep(k, h).procs| == |k.procs|
    requires InExit(k.procs[h].pc)
    ensures NextStep(k, h).procs[i].parent == k.procs[i].parent || NewParent(k, NextStep(k, h), h, i)
  {
  }

  lemma WaitChange(k: Kernel, h: nat, i: nat)
    requires OnCpu(k, h) && CanStep(k, h) && i < |k.procs| && |NextStep(k, h).procs| == |k.procs|
    requires InWait(k.procs[h].pc) && (k.procs[h].pc == WtHeld(i) ==> k.procs[i].parent == Some(h) && i != h)
    ensures NextStep(k, h).procs[i].parent == k.procs[i].parent || NewParent(k, NextStep(k, h), h, i)
  {
  }

  lemma StepChange(k: Kernel, h: nat, i: nat)
    requires Inv(k) && OnCpu(k, h) && CanStep(k, h) && i < |k.procs| && |NextStep(k, h).procs| == |k.procs|
    ensures NextStep(k, h).procs[i].parent == k.procs[i].parent || NewParent(k, NextStep(k, h), h, i)
  {
    hide Locks, Tree, NextStep, CanStep, NewParent;
    Points(k, h);
    NotSelf(k, h);
    var pc := k.procs[h].pc;
    if InSleep(pc) || InSleepLock(pc) || InYield(pc) {
      OwnSame(k, h, i);
    } else if InFork(pc) {
      ForkChange(k, h, i);
    } else if InExit(pc) {
      ExitChange(k, h, i);
    } else if InWait(pc) {
      if pc.WtHeld? {
        HeldChild(k, h);
      }
      WaitChange(k, h, i);
    } else {
      WakeSame(k, h, i);
    }
  }

  /** The other actions change no parent. */
  lemma OtherChange(k: Kernel, a: Action, i: nat)
    requires Enabled(k, a) && !a.Step? && i < |k.procs| && |Next(k, a).procs| == |k.procs|
    requires a.Fail? && k.procs[a.p].pc.FkBuild? ==> k.procs[k.procs[a.p].pc.i].parent.None?
    ensures Next(k, a).procs[i].parent == k.procs[i].parent
  {
  }

  lemma GivenUpSlot(k: Kernel, p: nat)
    requires Inv(k) && p < |k.procs| && k.procs[p].pc.FkBuild?
    ensures k.procs[p].pc.i < |k.procs| && k.procs[k.procs[p].pc.i].parent.None?
  {
    hide Locks, ParentsOk, PidsOk, InitOk, ReparentOk, WaitsOk, RootedOk;
    NotSelf(k, p);
  }

  /**
   In every run a process gets a parent only from the fork that makes it, loses it only by being reaped by that parent
   as a zombie, and changes it only to init, when the parent exits.
   */
  lemma OnlyInitAdopts(ks: seq<Kernel>, acts: seq<Action>, j: nat, i: nat)
    requires IsRun(ks, acts) && j < |acts| && i < |ks[j].procs| && i < |ks[j + 1].procs|
    requires ks[j + 1].procs[i].parent != ks[j].procs[i].parent
    ensures acts[j].Step? && acts[j].p < |ks[j].procs| && NewParent(ks[j], ks[j + 1], acts[j].p, i)
  {
    hide Inv, Boot, CanStep, NextStep, NewParent;
    RunInv(ks, acts, j);
    AlwaysAll(ks[j], acts[j]);
    if acts[j].Step? {
      StepChange(ks[j], acts[j].p, i);
    } else {
      if acts[j].Fail? && ks[j].procs[acts[j].p].pc.FkBuild? {
        GivenUpSlot(ks[j], acts[j].p);
      }
      OtherChange(ks[j], acts[j], i);
    }
  }
}
