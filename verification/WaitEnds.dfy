/**
 When wait sleeps and when it returns (kernel/src/proc.c): it sleeps only with a child and none of them a zombie, and
 returns only without children, with a child reaped, or because the caller was killed or could not be told.
 */
module WaitEnds {
  import opened Common
  import opened Proc
  import opened ProcLocks
  import opened ProcTree
  import opened ProcRuns
  import opened WaitExit

  /** Some slot below n holds a child of p. */
  ghost predicate HasChild(k: Kernel, p: nat, n: nat) {
    exists j: nat :: j < n && j < |k.procs| && k.procs[j].parent == Some(p)
  }

  /** What wait has counted is so. */
  ghost predicate KidsAt(k: Kernel, p: nat)
    requires p < |k.procs|
  {
    match k.procs[p].pc
    case WtScan(i, kids) => kids <==> HasChild(k, p, i)
    case WtDecide(kids) => kids <==> HasChild(k, p, |k.procs|)
    case SlLock(_, lk) => lk == WaitLock ==> HasChild(k, p, |k.procs|)
    case SlDrop(_, lk) => lk == WaitLock ==> HasChild(k, p, |k.procs|)
    case _ => true
  }

  /** Everybody has the parent it had. */
  ghost predicate Parents(k: Kernel, k': Kernel) {
    |k'.procs| == |k.procs| && forall r: nat :: r < |k.procs| ==> k'.procs[r].parent == k.procs[r].parent
  }

  lemma SameKids(k: Kernel, k': Kernel, p: nat, n: nat)
    requires Parents(k, k')
    ensures HasChild(k', p, n) <==> HasChild(k, p, n)
  {
    if HasChild(k, p, n) {
      var j: nat :| j < n && j < |k.procs| && k.procs[j].parent == Some(p);
      assert k'.procs[j].parent == Some(p);
    }
  }

  lemma UnmovedKids(k: Kernel, k': Kernel, p: nat)
    requires Parents(k, k') && p < |k.procs| && k'.procs[p].pc == k.procs[p].pc && KidsAt(k, p)
    ensures KidsAt(k', p)
  {
    forall n: nat ensures HasChild(k', p, n) <==> HasChild(k, p, n) {
      SameKids(k, k', p, n);
    }
    hide HasChild;
  }

  /** The points where something is claimed. */
  predicate Claims(pc: Pc) {
    pc.WtScan? || pc.WtDecide? || ((pc.SlLock? || pc.SlDrop?) && pc.lk == WaitLock)
  }

  lemma NoClaim(k: Kernel, p: nat)
    requires p < |k.procs| && !Claims(k.procs[p].pc)
    ensures KidsAt(k, p)
  {
  }

  // The steps of p itself.

  lemma ScanKids(k: Kernel, p: nat)
    requires OnCpu(k, p) && CanStep(k, p) && KidsAt(k, p) && k.procs[p].pc.WtScan?
    ensures KidsAt(NextStep(k, p), p)
  {
    var k', i := NextStep(k, p), k.procs[p].pc.i;
    if i < |k.procs| && k.procs[i].parent == Some(p) {
      NoClaim(k', p);
    } else {
      assert Parents(k, k');
      hide NextStep;
      OneFurther(k, p, i);
      SameKids(k, k', p, i);
      SameKids(k, k', p, i + 1);
      SameKids(k, k', p, |k.procs|);
      hide HasChild, Parents;
    }
  }

  lemma OneFurther(k: Kernel, p: nat, i: nat)
    ensures HasChild(k, p, i + 1) <==> HasChild(k, p, i) || (i < |k.procs| && k.procs[i].parent == Some(p))
    ensures i >= |k.procs| ==> (HasChild(k, p, i) <==> HasChild(k, p, |k.procs|))
  {
    if i < |k.procs| && k.procs[i].parent == Some(p) {
      assert i < i + 1;
    }
  }

  lemma HeldKids(k: Kernel, p: nat)
    requires OnCpu(k, p) && CanStep(k, p) && k.procs[p].pc.WtHeld? && k.procs[k.procs[p].pc.i].parent == Some(p)
    requires k.procs[p].pc.i != p
    ensures KidsAt(NextStep(k, p), p)
  {
    var k', i := NextStep(k, p), k.procs[p].pc.i;
    if k.procs[i].state == ZOMBIE {
      NoClaim(k', p);
    } else {
      OneFurther(k', p, i);
      assert k'.procs[i].parent == Some(p) && k'.procs[p].pc == WtScan(i + 1, true);
    }
  }

  lemma DecideKids(k: Kernel, p: nat)
    requires OnCpu(k, p) && CanStep(k, p) && KidsAt(k, p)
    requires var pc := k.procs[p].pc; pc.WtDecide? || pc.SlLock?
    ensures KidsAt(NextStep(k, p), p)
  {
    var k' := NextStep(k, p);
    assert Parents(k, k');
    SameKids(k, k', p, |k.procs|);
    hide HasChild, Parents;
  }

  /** A scan starts from the first slot; all other steps lead to points that claim nothing. */
  lemma StartKids(k: Kernel, p: nat)
    requires OnCpu(k, p) && CanStep(k, p)
    requires var pc := k.procs[p].pc; (InSleep(pc) && !pc.SlLock?) || pc.WtAcquire? || pc.WtDone?
    ensures KidsAt(NextStep(k, p), p)
  {
  }

  lemma LockKids(k: Kernel, p: nat)
    requires OnCpu(k, p) && CanStep(k, p)
    requires var pc := k.procs[p].pc; InSleepLock(pc) || InExit(pc) || pc.Wk? || pc.WkHeld?
    ensures !Claims(NextStep(k, p).procs[p].pc) && NextStep(k, p).procs[p].pc != WtDone
  {
  }

  lemma ForkKids(k: Kernel, p: nat)
    requires OnCpu(k, p) && CanStep(k, p)
    requires var pc := k.procs[p].pc; InYield(pc) || InFork(pc)
    ensures !Claims(NextStep(k, p).procs[p].pc) && NextStep(k, p).procs[p].pc != WtDone
  {
    hide NextStep, CanStep;
    if InYield(k.procs[p].pc) {
      YieldPoint(k, p);
    } else {
      ForkPoint(k, p);
    }
  }

  lemma YieldPoint(k: Kernel, p: nat)
    requires OnCpu(k, p) && CanStep(k, p) && InYield(k.procs[p].pc)
    ensures !Claims(NextStep(k, p).procs[p].pc) && NextStep(k, p).procs[p].pc != WtDone
  {
  }

  lemma ForkPoint(k: Kernel, p: nat)
    requires OnCpu(k, p) && CanStep(k, p) && InFork(k.procs[p].pc)
    ensures !Claims(NextStep(k, p).procs[p].pc) && NextStep(k, p).procs[p].pc != WtDone
  {
  }

  lemma OwnKids(k: Kernel, p: nat)
    requires Inv(k) && Enabled(k, Step(p)) && KidsAt(k, p)
    ensures p < |NextStep(k, p).procs| && KidsAt(NextStep(k, p), p)
  {
    hide Locks, Tree, KidsAt, NextStep, CanStep;
    Points(k, p);
    NotSelf(k, p);
    SameSize(k, p);
    var pc := k.procs[p].pc;
    if pc.WtScan? {
      ScanKids(k, p);
    } else if pc.WtHeld? {
      HeldChild(k, p);
      HeldKids(k, p);
    } else if pc.WtDecide? || pc.SlLock? {
      DecideKids(k, p);
    } else if InSleep(pc) || InWait(pc) {
      StartKids(k, p);
    } else if InYield(pc) || InFork(pc) {
      ForkKids(k, p);
      NoClaim(NextStep(k, p), p);
    } else {
      LockKids(k, p);
      NoClaim(NextStep(k, p), p);
    }
  }

  lemma SameSize(k: Kernel, p: nat)
    requires OnCpu(k, p) && CanStep(k, p)
    ensures |NextStep(k, p).procs| == |k.procs|
  {
  }

  lemma HeldChild(k: Kernel, p: nat)
    requires Inv(k) && p < |k.procs| && k.procs[p].pc.WtHeld?
    ensures k.procs[p].pc.i < |k.procs| && k.procs[k.procs[p].pc.i].parent == Some(p)
  {
    hide SpinsOk, CpusOk, StatesOk, ParentsOk, PidsOk, InitOk, ReparentOk, ForksOk, RootedOk;
    assert LockOf(p, k.procs[p].pc) == Some(k.procs[p].pc.i);
  }

  // What others do while p holds wait_lock.

  lemma OwnFrame(k: Kernel, h: nat, p: nat)
    requires OnCpu(k, h) && CanStep(k, h) && p < |k.procs| && p != h
    requires var pc := k.procs[h].pc; InSleep(pc) || InSleepLock(pc) || InYield(pc)
    ensures Parents(k, NextStep(k, h)) && NextStep(k, h).procs[p].pc == k.procs[p].pc
  {
    hide NextStep, CanStep, Parents;
    if InYield(k.procs[h].pc) {
      YieldFrame(k, h, p);
    } else {
      SleepFrame(k, h, p);
    }
  }

  lemma YieldFrame(k: Kernel, h: nat, p: nat)
    requires OnCpu(k, h) && CanStep(k, h) && p < |k.procs| && p != h && InYield(k.procs[h].pc)
    ensures Parents(k, NextStep(k, h)) && NextStep(k, h).procs[p].pc == k.procs[p].pc
  {
  }

  lemma SleepFrame(k: Kernel, h: nat, p: nat)
    requires OnCpu(k, h) && CanStep(k, h) && p < |k.procs| && p != h
    requires InSleep(k.procs[h].pc) || InSleepLock(k.procs[h].pc)
    ensures Parents(k, NextStep(k, h)) && NextStep(k, h).procs[p].pc == k.procs[p].pc
  {
  }

  lemma WakeFrame(k: Kernel, h: nat, p: nat)
    requires OnCpu(k, h) && CanStep(k, h) && p < |k.procs| && p != h && SpinOf(k.procs[h].pc) != WaitLock
    requires k.procs[h].pc.Wk? || k.procs[h].pc.WkHeld?
    ensures Parents(k, NextStep(k, h)) && NextStep(k, h).procs[p].pc == k.procs[p].pc
  {
  }

  lemma ExitFrame(k: Kernel, h: nat, p: nat)
    requires OnCpu(k, h) && CanStep(k, h) && p < |k.procs| && p != h && SpinOf(k.procs[h].pc) != WaitLock
    requires InWait(k.procs[h].pc) || InExit(k.procs[h].pc)
    ensures Parents(k, NextStep(k, h)) && NextStep(k, h).procs[p].pc == k.procs[p].pc
  {
  }

  lemma ForkFrame(k: Kernel, h: nat, p: nat)
    requires OnCpu(k, h) && CanStep(k, h) && p < |k.procs| && p != h && SpinOf(k.procs[h].pc) != WaitLock
    requires InFork(k.procs[h].pc) && !k.procs[h].pc.FkHeld?
    ensures Parents(k, NextStep(k, h)) && NextStep(k, h).procs[p].pc == k.procs[p].pc
  {
    hide NextStep, CanStep, Parents;
    if k.procs[h].pc.FkReady? || k.procs[h].pc.FkSet? {
      ReadyFrame(k, h, p);
    } else {
      BuildFrame(k, h, p);
    }
  }

  lemma ReadyFrame(k: Kernel, h: nat, p: nat)
    requires OnCpu(k, h) && CanStep(k, h) && p < |k.procs| && p != h && (k.procs[h].pc.FkReady? || k.procs[h].pc.FkSet?)
    ensures Parents(k, NextStep(k, h)) && NextStep(k, h).procs[p].pc == k.procs[p].pc
  {
  }

  lemma BuildFrame(k: Kernel, h: nat, p: nat)
    requires OnCpu(k, h) && CanStep(k, h) && p < |k.procs| && p != h
    requires var pc := k.procs[h].pc; pc.FkScan? || pc.FkBuild? || pc.FkAdopt?
    ensures Parents(k, NextStep(k, h)) && NextStep(k, h).procs[p].pc == k.procs[p].pc
  {
  }

  lemma ClaimFrame(k: Kernel, h: nat, p: nat)
    requires OnCpu(k, h) && CanStep(k, h) && p < |k.procs| && p != h && k.procs[h].pc.FkHeld?
    requires k.procs[p].state != UNUSED
    ensures Parents(k, NextStep(k, h)) && NextStep(k, h).procs[p].pc == k.procs[p].pc
  {
  }

  lemma StepFrame(k: Kernel, h: nat, p: nat)
    requires OnCpu(k, h) && CanStep(k, h) && p < |k.procs| && p != h && SpinOf(k.procs[h].pc) != WaitLock
    requires k.procs[p].state != UNUSED
    ensures Parents(k, NextStep(k, h)) && NextStep(k, h).procs[p].pc == k.procs[p].pc
  {
    hide NextStep, CanStep, SpinOf, Parents;
    Points(k, h);
    var pc := k.procs[h].pc;
    if InSleep(pc) || InSleepLock(pc) || InYield(pc) {
      OwnFrame(k, h, p);
    } else if pc.FkHeld? {
      ClaimFrame(k, h, p);
    } else if InFork(pc) {
      ForkFrame(k, h, p);
    } else if InWait(pc) || InExit(pc) {
      ExitFrame(k, h, p);
    } else {
      WakeFrame(k, h, p);
    }
  }

  /** p itself does nothing but be killed or fail to copy out. */
  lemma OtherFrame(k: Kernel, a: Action, p: nat)
    requires Enabled(k, a) && !a.Step? && p < |k.procs| && Claims(k.procs[p].pc) && k.procs[p].state == RUNNING
    requires a.Fail? && k.procs[a.p].pc.FkBuild? ==> k.procs[k.procs[a.p].pc.i].parent.None? && k.procs[a.p].pc.i != p
    ensures |Next(k, a).procs| == |k.procs|
    ensures a != Killed(p) ==> Parents(k, Next(k, a)) && Next(k, a).procs[p].pc == k.procs[p].pc
    ensures a == Killed(p) ==> !Claims(Next(k, a).procs[p].pc)
  {
    hide CanStep, NextStep;
    if a.Fail? {
      FailFrame(k, a.p, p);
    }
  }

  lemma FailFrame(k: Kernel, h: nat, p: nat)
    requires Enabled(k, Fail(h)) && p < |k.procs| && Claims(k.procs[p].pc)
    requires k.procs[h].pc.FkBuild? ==> k.procs[k.procs[h].pc.i].parent.None? && k.procs[h].pc.i != p
    ensures Parents(k, Next(k, Fail(h))) && Next(k, Fail(h)).procs[p].pc == k.procs[p].pc
  {
  }

  /** Nobody else brings p to a point that claims something. */
  lemma NoNewClaim(k: Kernel, a: Action, p: nat)
    requires Enabled(k, a) && a != Step(p) && p < |k.procs| && !Claims(k.procs[p].pc)
    ensures |Next(k, a).procs| == |k.procs| && !Claims(Next(k, a).procs[p].pc)
  {
    hide CanStep, NextStep;
    if a.Step? {
      SameSize(k, a.p);
      OthersPoint(k, a.p, p);
    }
  }

  /** A step of another process leaves the point of p alone, unless it takes or frees its slot. */
  lemma OthersPoint(k: Kernel, h: nat, p: nat)
    requires OnCpu(k, h) && CanStep(k, h) && p < |k.procs| && p != h && |NextStep(k, h).procs| == |k.procs|
    ensures NextStep(k, h).procs[p].pc in {k.procs[p].pc, Fresh, Free}
  {
    hide NextStep, CanStep, Parents;
    Points(k, h);
    var pc := k.procs[h].pc;
    if InSleep(pc) || InSleepLock(pc) || InYield(pc) {
      OwnFrame(k, h, p);
    } else if InFork(pc) {
      ForkPoints(k, h, p);
    } else {
      WaitPoints(k, h, p);
    }
  }

  lemma ForkPoints(k: Kernel, h: nat, p: nat)
    requires OnCpu(k, h) && CanStep(k, h) && p < |k.procs| && p != h && InFork(k.procs[h].pc)
    ensures p < |NextStep(k, h).procs| && NextStep(k, h).procs[p].pc in {k.procs[p].pc, Fresh}
  {
  }

  lemma WaitPoints(k: Kernel, h: nat, p: nat)
    requires OnCpu(k, h) && CanStep(k, h) && p < |k.procs| && p != h
    requires var pc := k.procs[h].pc; InWait(pc) || InExit(pc) || pc.Wk? || pc.WkHeld?
    ensures p < |NextStep(k, h).procs| && NextStep(k, h).procs[p].pc in {k.procs[p].pc, Free}
  {
    hide NextStep, CanStep;
    if InWait(k.procs[h].pc) {
      ReapPoints(k, h, p);
    } else {
      ExitPoints(k, h, p);
    }
  }

  lemma ReapPoints(k: Kernel, h: nat, p: nat)
    requires OnCpu(k, h) && CanStep(k, h) && p < |k.procs| && p != h && InWait(k.procs[h].pc)
    ensures p < |NextStep(k, h).procs| && NextStep(k, h).procs[p].pc in {k.procs[p].pc, Free}
  {
  }

  lemma ExitPoints(k: Kernel, h: nat, p: nat)
    requires OnCpu(k, h) && CanStep(k, h) && p < |k.procs| && p != h
    requires var pc := k.procs[h].pc; InExit(pc) || pc.Wk? || pc.WkHeld?
    ensures p < |NextStep(k, h).procs| && NextStep(k, h).procs[p].pc == k.procs[p].pc
  {
  }

  /** A process that has counted its children holds wait_lock and runs; a slot that fork gives up has no parent. */
  lemma ClaimHolds(k: Kernel, p: nat)
    requires Inv(k) && p < |k.procs| && Claims(k.procs[p].pc)
    ensures k.procs[p].state == RUNNING
    ensures forall h: nat :: h < |k.procs| && h != p ==> SpinOf(k.procs[h].pc) != WaitLock
  {
    hide HeldOk, CpusOk, Tree;
    PointOk(k, p);
    assert SpinOf(k.procs[p].pc) == WaitLock;
  }

  lemma NextKids(k: Kernel, a: Action, p: nat)
    requires Inv(k) && Enabled(k, a) && p < |k.procs| && KidsAt(k, p)
    ensures |Next(k, a).procs| == |k.procs| && KidsAt(Next(k, a), p)
  {
    hide Locks, Tree, KidsAt, CanStep, NextStep, Claims, SpinOf, Parents;
    if a == Step(p) {
      SameSize(k, p);
      OwnKids(k, p);
    } else if !Claims(k.procs[p].pc) {
      NoNewClaim(k, a, p);
      NoClaim(Next(k, a), p);
    } else {
      ClaimHolds(k, p);
      if a.Step? {
        SameSize(k, a.p);
        StepFrame(k, a.p, p);
        UnmovedKids(k, NextStep(k, a.p), p);
      } else {
        GivenUp(k, a, p);
        OtherFrame(k, a, p);
        if a == Killed(p) {
          NoClaim(Next(k, a), p);
        } else {
          UnmovedKids(k, Next(k, a), p);
        }
      }
    }
  }

  lemma GivenUp(k: Kernel, a: Action, p: nat)
    requires Inv(k) && Enabled(k, a) && p < |k.procs| && k.procs[p].state == RUNNING
    ensures a.Fail? && k.procs[a.p].pc.FkBuild? ==> k.procs[k.procs[a.p].pc.i].parent.None? && k.procs[a.p].pc.i != p
  {
    hide Locks, ParentsOk, PidsOk, InitOk, ReparentOk, WaitsOk, RootedOk, CanStep;
    if a.Fail? && k.procs[a.p].pc.FkBuild? {
      NotSelf(k, a.p);
    }
  }

  lemma {:induction false} RunKids(ks: seq<Kernel>, acts: seq<Action>, j: nat, p: nat)
    requires IsRun(ks, acts) && j <= |acts| && p < |ks[j].procs|
    ensures KidsAt(ks[j], p)
  {
    hide Inv, Boot, Enabled, Next, KidsAt;
    if j == 0 {
      var nproc: nat, ncpu: nat :| nproc > 0 && ks[0] == Boot(nproc, ncpu);
      BootPoints(nproc, ncpu, p);
      NoClaim(ks[0], p);
    } else {
      RunInv(ks, acts, j - 1);
      AlwaysAll(ks[j - 1], acts[j - 1]);
      RunKids(ks, acts, j - 1, p);
      NextKids(ks[j - 1], acts[j - 1], p);
    }
  }

  lemma BootPoints(nproc: nat, ncpu: nat, p: nat)
    requires nproc > 0 && p < |Boot(nproc, ncpu).procs|
    ensures !Claims(Boot(nproc, ncpu).procs[p].pc)
  {
  }

  lemma AlwaysAll(k: Kernel, a: Action)
    requires Enabled(k, a)
    ensures |Next(k, a).procs| == |k.procs|
  {
    hide CanStep, NextStep;
    if a.Step? {
      SameSize(k, a.p);
    }
  }

  // What this says about wait.

  /** In every run: wait, while scanning, has seen a child exactly if there is one below; after the scan, if any. */
  lemma WaitCounts(ks: seq<Kernel>, acts: seq<Action>, j: nat, p: nat, i: nat, kids: bool)
    requires IsRun(ks, acts) && j <= |acts| && p < |ks[j].procs|
    ensures ks[j].procs[p].pc == WtScan(i, kids) ==>
              (kids <==> exists c: nat :: c < i && c < |ks[j].procs| && ks[j].procs[c].parent == Some(p))
    ensures ks[j].procs[p].pc == WtDecide(kids) ==>
              (kids <==> exists c: nat :: c < |ks[j].procs| && ks[j].procs[c].parent == Some(p))
  {
    hide Boot, Enabled, Next;
    RunKids(ks, acts, j, p);
  }

  /** In every run: a process goes to sleep in wait only with a child, and none of its children is a zombie. */
  lemma SleepsWithChild(ks: seq<Kernel>, acts: seq<Action>, j: nat, p: nat)
    requires IsRun(ks, acts) && j <= |acts| && p < |ks[j].procs|
    requires ks[j].procs[p].pc == SlLock(ProcChan(p), WaitLock)
    ensures exists c: nat :: c < |ks[j].procs| && ks[j].procs[c].parent == Some(p)
    ensures forall c: nat :: c < |ks[j].procs| && ks[j].procs[c].parent == Some(p) ==> ks[j].procs[c].state != ZOMBIE
  {
    hide Boot, Enabled, Next, Inv, NapsOk, WokenOk, ChansOk;
    RunKids(ks, acts, j, p);
    RunWaits(ks, acts, j);
    assert PartOf(ks[j].procs[p]) == SeenAll;
  }

  /** The step freed a zombie child of p. */
  ghost predicate Reaps(k: Kernel, k': Kernel, p: nat) {
    exists c: nat :: c < |k.procs| && c < |k'.procs| && k.procs[c].parent == Some(p) && k.procs[c].state == ZOMBIE
                     && k'.procs[c].state == UNUSED
  }

  /**
   In every run: a process comes to the end of wait only without a child, by reaping a zombie child, because it was
   killed, or because the exit status could not be copied out.
   */
  lemma ReturnsOnlyDone(ks: seq<Kernel>, acts: seq<Action>, j: nat, p: nat)
    requires IsRun(ks, acts) && j < |acts| && p < |ks[j].procs| && p < |ks[j + 1].procs|
    requires ks[j].procs[p].pc != WtDone && ks[j + 1].procs[p].pc == WtDone
    ensures || acts[j] == Killed(p) || acts[j] == Fail(p)
            || !HasChild(ks[j], p, |ks[j].procs|) || Reaps(ks[j], ks[j + 1], p)
  {
    hide Boot, Inv, Enabled, Next, KidsAt, HasChild, Reaps;
    RunInv(ks, acts, j);
    RunKids(ks, acts, j, p);
    EndsOnly(ks[j], acts[j], p);
  }

  lemma EndsOnly(k: Kernel, a: Action, p: nat)
    requires Inv(k) && Enabled(k, a) && p < |k.procs| && KidsAt(k, p) && k.procs[p].pc != WtDone
    requires p < |Next(k, a).procs| && Next(k, a).procs[p].pc == WtDone
    ensures a == Killed(p) || a == Fail(p) || !HasChild(k, p, |k.procs|) || Reaps(k, Next(k, a), p)
  {
    hide Locks, Tree, CanStep, NextStep, HasChild, Reaps;
    if a == Step(p) {
      NotSelf(k, p);
      Points(k, p);
      if k.procs[p].pc.WtHeld? {
        HeldChild(k, p);
        ReapsHere(k, p);
      } else if InWait(k.procs[p].pc) {
        WaitEnd(k, p);
      } else {
        NotEnd(k, p);
      }
    } else if a.Step? {
      SameSize(k, a.p);
      OthersPoint(k, a.p, p);
    }
  }

  lemma ReapsHere(k: Kernel, p: nat)
    requires OnCpu(k, p) && CanStep(k, p) && k.procs[p].pc.WtHeld? && k.procs[p].pc.i != p
    requires k.procs[p].pc.i < |k.procs| && k.procs[k.procs[p].pc.i].parent == Some(p)
    requires NextStep(k, p).procs[p].pc == WtDone
    ensures Reaps(k, NextStep(k, p), p)
  {
    var c := k.procs[p].pc.i;
    assert NextStep(k, p).procs[c].state == UNUSED;
  }

  lemma WaitEnd(k: Kernel, p: nat)
    requires OnCpu(k, p) && CanStep(k, p) && InWait(k.procs[p].pc) && !k.procs[p].pc.WtHeld? && KidsAt(k, p)
    requires k.procs[p].pc != WtDone && NextStep(k, p).procs[p].pc == WtDone
    ensures !HasChild(k, p, |k.procs|)
  {
    hide HasChild;
  }

  lemma NotEnd(k: Kernel, p: nat)
    requires OnCpu(k, p) && CanStep(k, p) && !InWait(k.procs[p].pc)
    ensures |NextStep(k, p).procs| == |k.procs| && NextStep(k, p).procs[p].pc != WtDone
  {
    hide NextStep, CanStep, Claims;
    SameSize(k, p);
    Points(k, p);
    var pc := k.procs[p].pc;
    if InSleep(pc) {
      SleepNotEnd(k, p);
    } else if InYield(pc) || InFork(pc) {
      ForkKids(k, p);
    } else {
      LockKids(k, p);
    }
  }

  lemma SleepNotEnd(k: Kernel, p: nat)
    requires OnCpu(k, p) && CanStep(k, p) && InSleep(k.procs[p].pc)
    ensures p < |NextStep(k, p).procs| && NextStep(k, p).procs[p].pc != WtDone
  {
  }
}
