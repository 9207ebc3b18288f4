/**
 How fork ends (kernel/src/proc.c): without a child only after it saw every slot in use or could not build one, and
 otherwise with a child of its own that is ready to run.
 */
module ForkEnds {
  import opened Common
  import opened Proc
  import opened ProcLocks
  import opened ProcTree
  import opened ProcRuns
  import opened WaitEnds

  /** How far allocproc's search for a slot has come. */
  function ScanAt(pc: Pc): Option<nat> {
    match pc
    case FkScan(i) => Some(i)
    case FkHeld(i) => Some(i)
    case Yd(_, back) => if back.AtScan? then Some(back.i) else None
    case _ => None
  }

  /** p is in the search throughout, from moment m to moment j. */
  ghost predicate Searching(ks: seq<Kernel>, p: nat, m: nat, j: nat)
    requires j < |ks|
  {
    forall x: nat {:trigger ks[x]} :: m <= x <= j ==> p < |ks[x].procs| && ScanAt(ks[x].procs[p].pc).Some?
  }

  /** In the search that p is in at moment j, it held slot s and found it in use. */
  ghost predicate Looked(ks: seq<Kernel>, p: nat, j: nat, s: nat)
    requires j < |ks|
  {
    exists m: nat :: m <= j && Searching(ks, p, m, j) && ks[m].procs[p].pc == FkHeld(s)
                     && s < |ks[m].procs| && ks[m].procs[s].state != UNUSED
  }

  /** Where the search can come from in one action. */
  ghost predicate Came(k: Kernel, p: nat, i: nat) {
    p < |k.procs| && var from := ScanAt(k.procs[p].pc);
      || from == Some(i)
      || (from.None? && i == 0)
      || (0 < i <= |k.procs| && k.procs[p].pc == FkHeld(i - 1) && k.procs[i - 1].state != UNUSED)
  }

  lemma YieldScan(k: Kernel, p: nat)
    requires OnCpu(k, p) && CanStep(k, p) && |NextStep(k, p).procs| == |k.procs| && InYield(k.procs[p].pc)
    requires ScanAt(NextStep(k, p).procs[p].pc).Some?
    ensures Came(k, p, ScanAt(NextStep(k, p).procs[p].pc).value)
  {
  }

  lemma ForkScan(k: Kernel, p: nat)
    requires OnCpu(k, p) && CanStep(k, p) && |NextStep(k, p).procs| == |k.procs| && InFork(k.procs[p].pc)
    requires ScanAt(NextStep(k, p).procs[p].pc).Some?
    ensures Came(k, p, ScanAt(NextStep(k, p).procs[p].pc).value)
  {
  }

  lemma OtherPoints(k: Kernel, p: nat)
    requires OnCpu(k, p) && CanStep(k, p) && |NextStep(k, p).procs| == |k.procs|
    requires !InFork(k.procs[p].pc) && !InYield(k.procs[p].pc)
    ensures ScanAt(NextStep(k, p).procs[p].pc).None?
  {
  }

  lemma ScanStep(k: Kernel, a: Action, p: nat)
    requires Enabled(k, a) && p < |k.procs| == |Next(k, a).procs| && ScanAt(Next(k, a).procs[p].pc).Some?
    ensures Came(k, p, ScanAt(Next(k, a).procs[p].pc).value)
  {
    hide CanStep, NextStep;
    if a == Step(p) {
      if InFork(k.procs[p].pc) {
        ForkScan(k, p);
      } else if InYield(k.procs[p].pc) {
        YieldScan(k, p);
      } else {
        OtherPoints(k, p);
      }
    } else if a.Step? {
      OthersPoint(k, a.p, p);
    }
  }

  /** In every run: allocproc has held every slot it passed, and found it in use. */
  lemma {:induction false} ScanLooked(ks: seq<Kernel>, acts: seq<Action>, j: nat, p: nat, s: nat)
    requires IsRun(ks, acts) && j <= |acts| && p < |ks[j].procs|
    requires ScanAt(ks[j].procs[p].pc).Some? && s < ScanAt(ks[j].procs[p].pc).value && s < |ks[j].procs|
    ensures Looked(ks, p, j, s)
  {
    hide Enabled, Next, Boot, ScanAt, Looked;
    if j == 0 {
      var nproc: nat, ncpu: nat :| nproc > 0 && ks[0] == Boot(nproc, ncpu);
      BootScan(nproc, ncpu, p);
    } else {
      var k := ks[j - 1];
      AlwaysAll(k, acts[j - 1]);
      ScanStep(k, acts[j - 1], p);
      var i := ScanAt(ks[j].procs[p].pc).value;
      if ScanAt(k.procs[p].pc) == Some(i) || s + 1 < i {
        StillIn(k, p, i);
        ScanLooked(ks, acts, j - 1, p, s);
        LookedOn(ks, p, j, s);
      } else {
        LookedNow(ks, p, j, s);
      }
    }
  }

  lemma StillIn(k: Kernel, p: nat, i: nat)
    requires Came(k, p, i) && i > 0
    ensures ScanAt(k.procs[p].pc).Some? && i <= ScanAt(k.procs[p].pc).value + 1
  {
  }

  lemma LookedOn(ks: seq<Kernel>, p: nat, j: nat, s: nat)
    requires 0 < j < |ks| && Looked(ks, p, j - 1, s) && p < |ks[j].procs| && ScanAt(ks[j].procs[p].pc).Some?
    ensures Looked(ks, p, j, s)
  {
    hide ScanAt;
    var m: nat :| m <= j - 1 && Searching(ks, p, m, j - 1) && ks[m].procs[p].pc == FkHeld(s)
                  && s < |ks[m].procs| && ks[m].procs[s].state != UNUSED;
    assert Searching(ks, p, m, j);
  }

  lemma LookedNow(ks: seq<Kernel>, p: nat, j: nat, s: nat)
    requires 0 < j < |ks| && p < |ks[j].procs| && ScanAt(ks[j].procs[p].pc).Some? && p < |ks[j - 1].procs|
    requires s < |ks[j - 1].procs| && ks[j - 1].procs[p].pc == FkHeld(s) && ks[j - 1].procs[s].state != UNUSED
    ensures Looked(ks, p, j, s)
  {
    assert Searching(ks, p, j - 1, j);
  }

  lemma BootScan(nproc: nat, ncpu: nat, p: nat)
    requires nproc > 0 && p < |Boot(nproc, ncpu).procs|
    ensures ScanAt(Boot(nproc, ncpu).procs[p].pc).None?
  {
  }

  /** In every run: fork gives up its search only after it held every slot and found it in use. */
  lemma NoSlotSeen(ks: seq<Kernel>, acts: seq<Action>, j: nat, p: nat, s: nat)
    requires IsRun(ks, acts) && j < |acts| && p < |ks[j].procs| == |ks[j + 1].procs| && s < |ks[j].procs|
    requires ScanAt(ks[j].procs[p].pc).Some? && ks[j + 1].procs[p].pc == Run
    ensures Looked(ks, p, j, s)
  {
    hide Boot, Enabled, Next, Looked;
    SearchEnds(ks[j], acts[j], p);
    ScanLooked(ks, acts, j, p, s);
  }

  lemma SearchEnds(k: Kernel, a: Action, p: nat)
    requires Enabled(k, a) && p < |k.procs| == |Next(k, a).procs| && ScanAt(k.procs[p].pc).Some?
    requires Next(k, a).procs[p].pc == Run
    ensures ScanAt(k.procs[p].pc).value >= |k.procs|
  {
    hide CanStep, NextStep;
    if a == Step(p) {
      SearchStep(k, p);
    } else if a.Step? {
      OthersPoint(k, a.p, p);
    }
  }

  lemma SearchStep(k: Kernel, p: nat)
    requires OnCpu(k, p) && CanStep(k, p) && ScanAt(k.procs[p].pc).Some? && |NextStep(k, p).procs| == |k.procs|
    requires NextStep(k, p).procs[p].pc == Run
    ensures ScanAt(k.procs[p].pc).value >= |k.procs|
  {
  }

  /** The new child: ready, not yet run, younger than its parent. */
  predicate NewChild(k: Kernel, p: nat, i: nat) {
    && p < |k.procs| && i < |k.procs| && k.procs[i].state == RUNNABLE && k.procs[i].parent == Some(p)
    && k.procs[i].pc == Fresh && k.procs[p].pid < k.procs[i].pid
  }

  /** In every run: past the search, fork returns with a new child or because building it failed. */
  lemma ReturnsChild(ks: seq<Kernel>, acts: seq<Action>, j: nat, p: nat)
    requires IsRun(ks, acts) && j < |acts| && p < |ks[j].procs| && ChildSlot(ks[j].procs[p].pc).Some?
    requires p < |ks[j + 1].procs| && ks[j + 1].procs[p].pc == Run && acts[j] != Fail(p)
    ensures exists i: nat :: i < |ks[j].procs| && ks[j].procs[i].state == USED && NewChild(ks[j + 1], p, i)
  {
    hide Boot, Enabled, Next, Inv, NewChild, ChildSlot;
    RunInv(ks, acts, j);
    AlwaysAll(ks[j], acts[j]);
    ChildMade(ks[j], acts[j], p);
  }

  lemma ChildMade(k: Kernel, a: Action, p: nat)
    requires Inv(k) && Enabled(k, a) && a != Fail(p) && p < |k.procs| == |Next(k, a).procs|
    requires ChildSlot(k.procs[p].pc).Some? && Next(k, a).procs[p].pc == Run
    ensures exists i: nat :: i < |k.procs| && k.procs[i].state == USED && NewChild(Next(k, a), p, i)
  {
    hide Locks, Tree, CanStep, NextStep, NewChild;
    if a == Step(p) {
      NotSelf(k, p);
      ChildStep(k, p);
    } else if a.Step? {
      OthersPoint(k, a.p, p);
    } else {
      NotToRun(k, a, p);
    }
  }

  lemma NotToRun(k: Kernel, a: Action, p: nat)
    requires Enabled(k, a) && !a.Step? && a != Fail(p) && p < |k.procs| == |Next(k, a).procs|
    requires Next(k, a).procs[p].pc == Run
    ensures k.procs[p].pc == Run
  {
  }

  lemma ChildStep(k: Kernel, p: nat)
    requires OnCpu(k, p) && CanStep(k, p) && ChildSlot(k.procs[p].pc).Some? && |NextStep(k, p).procs| == |k.procs|
    requires Builds(k, p, ChildSlot(k.procs[p].pc).value) && NextStep(k, p).procs[p].pc == Run
    ensures NewChild(NextStep(k, p), p, ChildSlot(k.procs[p].pc).value)
  {
  }
}
