/** Who holds which lock and runs where: what every step of every process keeps. */
module ProcLocks {
  import opened Common
  import opened Proc

  /** The modelled spin lock a process holds at a point of its code. */
  function SpinOf(pc: Pc): Spin {
    match pc
    case AsTest => Inner
    case AsTake => Inner
    case AsRelease => Inner
    case RsClear => Inner
    case RsDone => Inner
    case Wk(_, _, ret) => if ret == ToRelease then Inner else WaitLock
    case WkHeld(_, _, ret) => if ret == ToRelease then Inner else WaitLock
    case SlLock(_, lk) => lk
    case SlDrop(_, lk) => lk
    case WtScan(_, _) => WaitLock
    case WtHeld(_) => WaitLock
    case WtDecide(_) => WaitLock
    case WtDone => WaitLock
    case ExScan(_) => WaitLock
    case ExLock => WaitLock
    case ExZombie => WaitLock
    case ExDrop => WaitLock
    case FkParent(_) => WaitLock
    case _ => Elsewhere
  }

  /** The process whose own lock process p holds at a point of its code. */
  function LockOf(p: nat, pc: Pc): Option<nat> {
    match pc
    case SlDrop(_, _) => Some(p)
    case SlSet(_, _) => Some(p)
    case SlSched(_, _) => Some(p)
    case SlBack(_, _) => Some(p)
    case ExZombie => Some(p)
    case ExDrop => Some(p)
    case ExSched => Some(p)
    case Yd(step, _) => if step == YdLock || step == YdOut then None else Some(p)
    case ForkRet => Some(p)
    case WkHeld(_, i, _) => Some(i)
    case WtHeld(i) => Some(i)
    case FkHeld(i) => Some(i)
    case FkBuild(i) => Some(i)
    case FkSet(i) => Some(i)
    case _ => None
  }

  /** The process state that goes with a point of its code, and whether it is on a CPU there. */
  predicate StateOk(r: Process) {
    match r.pc
    case Free => r == UnusedSlot.(lock := r.lock)
    case Fresh => (r.state == USED || r.state == RUNNABLE) && r.at.None?
    case SlOut(chan, _) => (r.state == SLEEPING || r.state == RUNNABLE) && r.at.None? && r.chan == chan
    case ExGone => r.state == ZOMBIE && r.at.None?
    case SlSched(chan, _) => r.state == SLEEPING && r.at.Some? && r.chan == chan
    case Yd(step, _) =>
      && r.state == (if step == YdSched || step == YdOut then RUNNABLE else RUNNING)
      && (step == YdOut <==> r.at.None?)
    case ExDrop => r.state == ZOMBIE && r.at.Some?
    case ExSched => r.state == ZOMBIE && r.at.Some?
    case _ => r.state == RUNNING && r.at.Some?
  }

  /** Channel and lock of sleep and wakeup go together. */
  predicate PcOk(p: nat, pc: Pc) {
    match pc
    case SlLock(chan, lk) => ChanOk(p, chan, lk)
    case SlDrop(chan, lk) => ChanOk(p, chan, lk)
    case SlSet(chan, lk) => ChanOk(p, chan, lk)
    case SlSched(chan, lk) => ChanOk(p, chan, lk)
    case SlOut(chan, lk) => ChanOk(p, chan, lk)
    case SlBack(chan, lk) => ChanOk(p, chan, lk)
    case Wk(chan, _, ret) => if ret == ToRelease then chan == LockChan else chan.ProcChan?
    case WkHeld(chan, i, ret) => i != p && if ret == ToRelease then chan == LockChan else chan.ProcChan?
    case _ => true
  }

  predicate ChanOk(p: nat, chan: Chan, lk: Spin) {
    chan == match lk case Inner => LockChan case WaitLock => ProcChan(p) case Elsewhere => OtherChan
  }

  predicate SpinsOk(k: Kernel) {
    && (k.inner.Some? ==> k.inner.value < |k.procs|)
    && (k.wait.Some? ==> k.wait.value < |k.procs|)
    && (forall p: nat :: p < |k.procs| ==> (k.inner == Some(p) <==> SpinOf(k.procs[p].pc) == Inner))
    && (forall p: nat :: p < |k.procs| ==> (k.wait == Some(p) <==> SpinOf(k.procs[p].pc) == WaitLock))
  }

  predicate HeldOk(k: Kernel) {
    && (forall p: nat :: p < |k.procs| && LockOf(p, k.procs[p].pc).Some? ==> LockOf(p, k.procs[p].pc).value < |k.procs|)
    && (forall q: nat :: q < |k.procs| && k.procs[q].lock.Some? && k.procs[q].lock.value.OfProc? ==>
          k.procs[q].lock.value.p < |k.procs|)
    && (forall p: nat, q: nat {:trigger k.procs[p].pc, k.procs[q].lock} :: p < |k.procs| && q < |k.procs| ==>
          (LockOf(p, k.procs[p].pc) == Some(q) <==> k.procs[q].lock == Some(OfProc(p))))
  }

  predicate CpusOk(k: Kernel) {
    && (forall c: nat :: c < |k.cpus| && k.cpus[c] != Idle ==> k.cpus[c].p < |k.procs|)
    && (forall q: nat :: q < |k.procs| && k.procs[q].lock.Some? && k.procs[q].lock.value.OfCpu? ==>
          k.procs[q].lock.value.c < |k.cpus|)
    && (forall p: nat :: p < |k.procs| && k.procs[p].at.Some? ==> k.procs[p].at.value < |k.cpus|)
    && (forall c: nat, q: nat {:trigger k.cpus[c], k.procs[q].lock} :: c < |k.cpus| && q < |k.procs| ==>
          (k.procs[q].lock == Some(OfCpu(c)) <==> k.cpus[c] == Picked(q) || k.cpus[c] == Back(q)))
    && (forall c: nat, q: nat {:trigger k.cpus[c], k.procs[q].at} :: c < |k.cpus| && q < |k.procs| ==>
          (k.procs[q].at == Some(c) <==> k.cpus[c] == On(q)))
  }

  predicate StatesOk(k: Kernel) {
    && k.init < |k.procs|
    && forall p: nat :: p < |k.procs| ==> StateOk(k.procs[p]) && PcOk(p, k.procs[p].pc)
  }

  predicate Locks(k: Kernel) {
    SpinsOk(k) && HeldOk(k) && CpusOk(k) && StatesOk(k)
  }

  function SetProc(k: Kernel, q: nat, r: Process): Kernel
    requires q < |k.procs|
  {
    k.(procs := k.procs[q := r])
  }

  lemma HeldRest(k: Kernel, k': Kernel)
    requires HeldOk(k) && |k'.procs| == |k.procs|
    requires forall r: nat :: r < |k.procs| ==>
               k'.procs[r].lock == k.procs[r].lock && LockOf(r, k'.procs[r].pc) == LockOf(r, k.procs[r].pc)
    ensures HeldOk(k')
  {
    hide LockOf;
  }

  lemma CpusRest(k: Kernel, k': Kernel)
    requires CpusOk(k) && |k'.procs| == |k.procs| && k'.cpus == k.cpus
    requires forall r: nat :: r < |k.procs| ==> k'.procs[r].lock == k.procs[r].lock && k'.procs[r].at == k.procs[r].at
    ensures CpusOk(k')
  {
  }

  lemma StatesRest(k: Kernel, k': Kernel, q: nat)
    requires StatesOk(k) && |k'.procs| == |k.procs| && k'.init == k.init && q < |k.procs|
    requires forall r: nat :: r < |k.procs| && r != q ==> k'.procs[r] == k.procs[r]
    requires StateOk(k'.procs[q]) && PcOk(q, k'.procs[q].pc)
    ensures StatesOk(k')
  {
    hide StateOk, PcOk;
  }

  /** A change to one process that touches no lock and no CPU. */
  lemma Replace(k: Kernel, q: nat, r: Process)
    requires Locks(k) && q < |k.procs| && r.lock == k.procs[q].lock && r.at == k.procs[q].at
    requires SpinOf(r.pc) == SpinOf(k.procs[q].pc) && LockOf(q, r.pc) == LockOf(q, k.procs[q].pc)
    requires StateOk(r) && PcOk(q, r.pc)
    ensures Locks(SetProc(k, q, r))
  {
    hide StateOk, PcOk, SpinOf, LockOf, HeldOk, CpusOk, StatesOk;
    var k' := SetProc(k, q, r);
    HeldRest(k, k');
    CpusRest(k, k');
    StatesRest(k, k', q);
  }

  /** acquire of a spin lock. */
  lemma Gain(k: Kernel, p: nat, lk: Spin, pc: Pc)
    requires Locks(k) && p < |k.procs| && lk != Elsewhere && SpinHolder(k, lk).None?
    requires SpinOf(k.procs[p].pc) == Elsewhere && SpinOf(pc) == lk && LockOf(p, pc) == LockOf(p, k.procs[p].pc)
    requires StateOk(k.procs[p].(pc := pc)) && PcOk(p, pc)
    ensures Locks(SetPc(SetSpin(k, lk, Some(p)), p, pc))
  {
    hide StateOk, PcOk, SpinOf, LockOf, HeldOk, CpusOk, StatesOk;
    var k' := SetPc(SetSpin(k, lk, Some(p)), p, pc);
    HeldRest(k, k');
    CpusRest(k, k');
    StatesRest(k, k', p);
  }

  /** release of a spin lock. */
  lemma Give(k: Kernel, p: nat, lk: Spin, pc: Pc)
    requires Locks(k) && p < |k.procs| && lk != Elsewhere
    requires SpinOf(k.procs[p].pc) == lk && SpinOf(pc) == Elsewhere && LockOf(p, pc) == LockOf(p, k.procs[p].pc)
    requires StateOk(k.procs[p].(pc := pc)) && PcOk(p, pc)
    ensures Locks(SetPc(SetSpin(k, lk, None), p, pc))
  {
    hide StateOk, PcOk, SpinOf, LockOf, HeldOk, CpusOk, StatesOk;
    var k' := SetPc(SetSpin(k, lk, None), p, pc);
    HeldRest(k, k');
    CpusRest(k, k');
    StatesRest(k, k', p);
  }

  /** The state that goes with a point of the code does not depend on who holds the lock. */
  lemma AnyLock(r: Process, h: Option<Thread>)
    requires StateOk(r)
    ensures StateOk(r.(lock := h))
  {
  }

  /** k' is k with the lock field of q and the point of p changed. */
  ghost predicate Moved(k: Kernel, k': Kernel, p: nat, q: nat, h: Option<Thread>, pc: Pc) {
    && p < |k.procs| && q < |k.procs| && |k'.procs| == |k.procs|
    && k'.cpus == k.cpus && k'.inner == k.inner && k'.wait == k.wait && k'.init == k.init
    && (forall r: nat :: r < |k.procs| ==>
          && k'.procs[r].pc == (if r == p then pc else k.procs[r].pc)
          && k'.procs[r].lock == (if r == q then h else k.procs[r].lock)
          && k'.procs[r] == k.procs[r].(pc := k'.procs[r].pc, lock := k'.procs[r].lock))
  }

  lemma MovedSpins(k: Kernel, k': Kernel, p: nat, q: nat, h: Option<Thread>, pc: Pc)
    requires SpinsOk(k) && Moved(k, k', p, q, h, pc) && SpinOf(pc) == SpinOf(k.procs[p].pc)
    ensures SpinsOk(k')
  {
    hide SpinOf;
  }

  lemma MovedStates(k: Kernel, k': Kernel, p: nat, q: nat, h: Option<Thread>, pc: Pc)
    requires StatesOk(k) && Moved(k, k', p, q, h, pc) && StateOk(k.procs[p].(pc := pc)) && PcOk(p, pc)
    ensures StatesOk(k')
  {
    hide StateOk, PcOk;
    forall r: nat | r < |k.procs| ensures StateOk(k'.procs[r]) {
      AnyLock(k.procs[r].(pc := k'.procs[r].pc), k'.procs[r].lock);
      assert k.procs[r].(pc := k.procs[r].pc) == k.procs[r];
    }
  }

  lemma MovedCpus(k: Kernel, k': Kernel, p: nat, q: nat, h: Option<Thread>, pc: Pc)
    requires CpusOk(k) && Moved(k, k', p, q, h, pc)
    requires (k.procs[q].lock.Some? ==> k.procs[q].lock.value.OfProc?) && (h.Some? ==> h.value.OfProc?)
    ensures CpusOk(k')
  {
  }

  lemma MovedHeld(k: Kernel, k': Kernel, p: nat, q: nat, h: Option<Thread>, pc: Pc)
    requires HeldOk(k) && Moved(k, k', p, q, h, pc)
    requires || (LockOf(p, k.procs[p].pc).None? && LockOf(p, pc) == Some(q) && k.procs[q].lock.None?
                 && h == Some(OfProc(p)))
             || (LockOf(p, k.procs[p].pc) == Some(q) && LockOf(p, pc).None? && h.None?)
    ensures HeldOk(k')
  {
    hide LockOf;
  }

  /** acquire of a process's own lock, by itself or by another process. */
  lemma TakeLock(k: Kernel, p: nat, q: nat, pc: Pc)
    requires Locks(k) && p < |k.procs| && LockFree(k, q)
    requires LockOf(p, k.procs[p].pc).None? && LockOf(p, pc) == Some(q) && SpinOf(pc) == SpinOf(k.procs[p].pc)
    requires StateOk(k.procs[p].(pc := pc)) && PcOk(p, pc)
    ensures Locks(SetPc(SetLock(k, q, Some(OfProc(p))), p, pc))
  {
    hide SpinsOk, HeldOk, CpusOk, StatesOk, StateOk, PcOk, SpinOf, LockOf;
    var k', h := SetPc(SetLock(k, q, Some(OfProc(p))), p, pc), Some(OfProc(p));
    assert Moved(k, k', p, q, h, pc);
    MovedSpins(k, k', p, q, h, pc);
    MovedStates(k, k', p, q, h, pc);
    MovedCpus(k, k', p, q, h, pc);
    MovedHeld(k, k', p, q, h, pc);
  }

  /** release of a process's own lock. */
  lemma DropLock(k: Kernel, p: nat, q: nat, pc: Pc)
    requires Locks(k) && p < |k.procs| && q < |k.procs|
    requires LockOf(p, k.procs[p].pc) == Some(q) && LockOf(p, pc).None? && SpinOf(pc) == SpinOf(k.procs[p].pc)
    requires StateOk(k.procs[p].(pc := pc)) && PcOk(p, pc)
    ensures Locks(SetPc(SetLock(k, q, None), p, pc))
  {
    hide SpinsOk, CpusOk, StatesOk, StateOk, PcOk, SpinOf, LockOf;
    var k' := SetPc(SetLock(k, q, None), p, pc);
    assert Moved(k, k', p, q, None, pc);
    assert k.procs[q].lock == Some(OfProc(p));
    MovedSpins(k, k', p, q, None, pc);
    MovedStates(k, k', p, q, None, pc);
    MovedCpus(k, k', p, q, None, pc);
    MovedHeld(k, k', p, q, None, pc);
  }

  /** Fields no lock invariant speaks about may change freely. */
  lemma SameShape(k: Kernel, k': Kernel)
    requires Locks(k) && k'.cpus == k.cpus && k'.inner == k.inner && k'.wait == k.wait && k'.init == k.init
    requires k'.procs == k.procs
    ensures Locks(k')
  {
    hide StateOk, PcOk, SpinOf, LockOf, HeldOk, CpusOk, StatesOk;
    HeldRest(k, k');
    CpusRest(k, k');
    if |k.procs| > 0 {
      assert StatesOk(k') by { Same(k, k'); }
    }
    Same(k, k');
  }

  lemma Same(k: Kernel, k': Kernel)
    requires StatesOk(k) && k'.init == k.init && k'.procs == k.procs
    ensures StatesOk(k')
  {
  }

  /** swtch to the scheduler. */
  lemma Off(k: Kernel, p: nat, pc: Pc)
    requires Locks(k) && p < |k.procs| && k.procs[p].at.Some? && k.procs[p].at.value < |k.cpus|
    requires LockOf(p, k.procs[p].pc) == Some(p) && LockOf(p, pc).None?
    requires SpinOf(k.procs[p].pc) == Elsewhere && SpinOf(pc) == Elsewhere
    requires StateOk(k.procs[p].(pc := pc, at := None)) && PcOk(p, pc)
    ensures Locks(SwitchOut(k, p, pc))
  {
    hide StateOk, PcOk, SpinOf, LockOf;
    var c := k.procs[p].at.value;
    AnyLock(k.procs[p].(pc := pc, at := None), Some(OfCpu(c)));
    assert k.procs[p].lock == Some(OfProc(p)) && k.cpus[c] == On(p);
  }

  /** k' is k with the lock of q passed to or from the scheduler of CPU c. */
  ghost predicate Handed(k: Kernel, k': Kernel, q: nat, h: Option<Thread>, c: nat) {
    && q < |k.procs| && c < |k.cpus| && |k'.procs| == |k.procs| && |k'.cpus| == |k.cpus|
    && k'.inner == k.inner && k'.wait == k.wait && k'.init == k.init
    && (forall r: nat :: r < |k.procs| && r != q ==> k'.procs[r] == k.procs[r])
    && k'.procs[q] == k.procs[q].(lock := h)
    && (forall d: nat :: d < |k.cpus| && d != c ==> k'.cpus[d] == k.cpus[d])
    && (k.procs[q].lock.Some? ==> k.procs[q].lock.value.OfCpu?) && (h.Some? ==> h.value.OfCpu?)
  }

  lemma HandedRest(k: Kernel, k': Kernel, q: nat, h: Option<Thread>, c: nat)
    requires SpinsOk(k) && HeldOk(k) && StatesOk(k) && Handed(k, k', q, h, c)
    ensures SpinsOk(k') && HeldOk(k') && StatesOk(k')
  {
    hide StateOk, PcOk, SpinOf, LockOf;
    AnyLock(k.procs[q], h);
  }

  lemma PickKeeps(k: Kernel, c: nat, p: nat)
    requires Locks(k) && c < |k.cpus| && k.cpus[c] == Idle && LockFree(k, p)
    ensures Locks(SetLock(k, p, Some(OfCpu(c))).(cpus := k.cpus[c := Picked(p)]))
  {
    hide SpinsOk, HeldOk, StatesOk;
    HandedRest(k, SetLock(k, p, Some(OfCpu(c))).(cpus := k.cpus[c := Picked(p)]), p, Some(OfCpu(c)), c);
  }

  lemma UnpickKeeps(k: Kernel, c: nat)
    requires Locks(k) && c < |k.cpus| && (k.cpus[c].Picked? || k.cpus[c].Back?)
    ensures k.cpus[c].p < |k.procs| && Locks(SetLock(k, k.cpus[c].p, None).(cpus := k.cpus[c := Idle]))
  {
    hide SpinsOk, HeldOk, StatesOk;
    var p := k.cpus[c].p;
    assert k.procs[p].lock == Some(OfCpu(c));
    HandedRest(k, SetLock(k, p, None).(cpus := k.cpus[c := Idle]), p, None, c);
  }

  lemma SwitchedInOk(p: nat, r: Process, c: nat)
    requires StateOk(r) && PcOk(p, r.pc) && r.state == RUNNABLE && r.at.None?
    ensures r.pc.SlOut? || (r.pc.Yd? && r.pc.step == YdOut) || r.pc == Fresh
    ensures SpinOf(r.pc) == Elsewhere && SpinOf(SwitchedIn(r.pc)) == Elsewhere
    ensures LockOf(p, r.pc).None? && LockOf(p, SwitchedIn(r.pc)) == Some(p)
    ensures StateOk(r.(state := RUNNING, pc := SwitchedIn(r.pc), lock := Some(OfProc(p)), at := Some(c)))
    ensures PcOk(p, SwitchedIn(r.pc))
  {
  }

  lemma DispatchKeeps(k: Kernel, c: nat)
    requires Locks(k) && Enabled(k, Dispatch(c))
    ensures Locks(Next(k, Dispatch(c)))
  {
    hide StateOk, PcOk, SpinOf, LockOf, SwitchedIn;
    var p := k.cpus[c].p;
    assert k.procs[p].lock == Some(OfCpu(c));
    NotRunning(k, p);
    SwitchedInOk(p, k.procs[p], c);
  }

  /** A process whose lock its scheduler holds is not on a CPU unless it is about to leave it. */
  lemma NotRunning(k: Kernel, p: nat)
    requires Locks(k) && p < |k.procs| && k.procs[p].state == RUNNABLE && k.procs[p].lock.Some?
    requires k.procs[p].lock.value.OfCpu?
    ensures k.procs[p].at.None?
  {
    assert StateOk(k.procs[p]);
    assert k.procs[p].lock != Some(OfProc(p));
  }

  lemma SleepSteps(k: Kernel, p: nat)
    requires Locks(k) && OnCpu(k, p) && CanStep(k, p)
    requires var pc := k.procs[p].pc;
             pc.SlLock? || pc.SlDrop? || pc.SlSet? || pc.SlSched? || pc.SlBack? || pc.SlRelock?
    ensures Locks(NextStep(k, p))
  {
    hide SpinsOk, HeldOk, CpusOk;
    var me := k.procs[p];
    assert StateOk(me) && PcOk(p, me.pc);
    match me.pc
    case SlLock(chan, lk) => TakeLock(k, p, p, SlDrop(chan, lk));
    case SlDrop(chan, lk) =>
      if lk == Elsewhere {
        Replace(k, p, me.(pc := SlSet(chan, lk)));
      } else {
        Give(k, p, lk, SlSet(chan, lk));
      }
    case SlSet(chan, lk) => Replace(k, p, me.(state := SLEEPING, chan := chan, pc := SlSched(chan, lk)));
    case SlSched(chan, lk) =>
      AtCpu(k, p);
      Off(k, p, SlOut(chan, lk));
    case SlBack(chan, lk) =>
      var k1 := SetProc(k, p, me.(chan := NoChan));
      Replace(k, p, me.(chan := NoChan));
      DropLock(k1, p, p, SlRelock(lk));
      assert NextStep(k, p) == SetPc(SetLock(k1, p, None), p, SlRelock(lk));
    case SlRelock(lk) =>
      if lk == Elsewhere {
        Replace(k, p, me.(pc := Run));
      } else {
        Gain(k, p, lk, Resumed(lk));
      }
  }

  lemma AtCpu(k: Kernel, p: nat)
    requires CpusOk(k) && OnCpu(k, p)
    ensures k.procs[p].at.value < |k.cpus|
  {
  }

  lemma LockSteps(k: Kernel, p: nat)
    requires Locks(k) && OnCpu(k, p) && CanStep(k, p)
    requires var pc := k.procs[p].pc;
             pc.AsAcquire? || pc.AsTest? || pc.AsTake? || pc.AsRelease? || pc.RsAcquire? || pc.RsClear? || pc.RsDone?
    ensures Locks(NextStep(k, p))
  {
    hide SpinsOk, HeldOk, CpusOk;
    var me := k.procs[p];
    assert StateOk(me) && PcOk(p, me.pc);
    match me.pc
    case AsAcquire => Gain(k, p, Inner, AsTest);
    case AsTest => Replace(k, p, me.(pc := if k.locked then SlLock(LockChan, Inner) else AsTake));
    case AsTake =>
      Replace(k, p, me.(pc := AsRelease));
      SameShape(SetPc(k, p, AsRelease), NextStep(k, p));
    case AsRelease => Give(k, p, Inner, Run);
    case RsAcquire => Gain(k, p, Inner, RsClear);
    case RsClear =>
      Replace(k, p, me.(pc := Wk(LockChan, 0, ToRelease)));
      SameShape(SetPc(k, p, Wk(LockChan, 0, ToRelease)), NextStep(k, p));
    case RsDone => Give(k, p, Inner, Run);
  }

  lemma WakeSteps(k: Kernel, p: nat)
    requires Locks(k) && OnCpu(k, p) && CanStep(k, p) && (k.procs[p].pc.Wk? || k.procs[p].pc.WkHeld?)
    ensures Locks(NextStep(k, p))
  {
    hide SpinsOk, HeldOk, CpusOk;
    var me := k.procs[p];
    assert StateOk(me) && PcOk(p, me.pc);
    match me.pc
    case Wk(chan, i, ret) =>
      if i >= |k.procs| {
        Replace(k, p, me.(pc := Returned(ret)));
      } else if i == p {
        Replace(k, p, me.(pc := Wk(chan, i + 1, ret)));
      } else {
        TakeLock(k, p, i, WkHeld(chan, i, ret));
      }
    case WkHeld(chan, i, ret) =>
      var k1 := k;
      if k.procs[i].state == SLEEPING && k.procs[i].chan == chan {
        k1 := SetState(k, i, RUNNABLE);
        HoldsIt(k, p, i);
        Woken(k, i, p);
      }
      assert k1.procs[p] == me;
      DropLock(k1, p, i, Wk(chan, i + 1, ret));
  }

  /** A sleeping process whose lock another process holds, or nobody, is off its CPU and may become RUNNABLE. */
  lemma Woken(k: Kernel, q: nat, p: nat)
    requires Locks(k) && q < |k.procs| && k.procs[q].state == SLEEPING
    requires k.procs[q].lock.None? || (k.procs[q].lock == Some(OfProc(p)) && p != q)
    ensures k.procs[q].pc.SlOut?
    ensures Locks(SetState(k, q, RUNNABLE))
  {
    assert StateOk(k.procs[q]) && PcOk(q, k.procs[q].pc);
    assert LockOf(q, k.procs[q].pc) != Some(q);
    hide SpinsOk, HeldOk, CpusOk, StatesOk;
    Replace(k, q, k.procs[q].(state := RUNNABLE));
  }

  lemma HoldsIt(k: Kernel, p: nat, q: nat)
    requires HeldOk(k) && p < |k.procs| && LockOf(p, k.procs[p].pc) == Some(q)
    ensures q < |k.procs| && k.procs[q].lock == Some(OfProc(p))
  {
  }

  lemma WaitHeldStep(k: Kernel, p: nat)
    requires Locks(k) && OnCpu(k, p) && CanStep(k, p) && k.procs[p].pc.WtHeld? && k.procs[p].pc.i != p
    ensures Locks(NextStep(k, p))
  {
    hide SpinsOk, HeldOk, CpusOk;
    var me, i := k.procs[p], k.procs[p].pc.i;
    assert StateOk(me);
    if k.procs[i].state == ZOMBIE {
      Reaped(k, p, i);
      var k1 := SetProc(k, i, UnusedSlot.(lock := k.procs[i].lock));
      DropLock(k1, p, i, WtDone);
      assert NextStep(k, p) == SetPc(SetLock(k1, i, None), p, WtDone);
    } else {
      DropLock(k, p, i, WtScan(i + 1, true));
    }
  }

  lemma WaitSteps(k: Kernel, p: nat)
    requires Locks(k) && OnCpu(k, p) && CanStep(k, p)
    requires var pc := k.procs[p].pc; pc.WtAcquire? || pc.WtScan? || pc.WtDecide? || pc.WtDone?
    ensures Locks(NextStep(k, p))
  {
    hide SpinsOk, HeldOk, CpusOk;
    var me := k.procs[p];
    assert StateOk(me) && PcOk(p, me.pc);
    match me.pc
    case WtAcquire => Gain(k, p, WaitLock, WtScan(0, false));
    case WtScan(i, kids) =>
      if i >= |k.procs| {
        Replace(k, p, me.(pc := WtDecide(kids)));
      } else if k.procs[i].parent == Some(p) {
        TakeLock(k, p, i, WtHeld(i));
      } else {
        Replace(k, p, me.(pc := WtScan(i + 1, kids)));
      }
    case WtDecide(kids) => Replace(k, p, me.(pc := if kids then SlLock(ProcChan(p), WaitLock) else WtDone));
    case WtDone => Give(k, p, WaitLock, Run);
  }

  /** A zombie whose lock its parent holds has left its kernel stack: it runs on no CPU. */
  lemma Reaped(k: Kernel, p: nat, i: nat)
    requires Locks(k) && p < |k.procs| && i < |k.procs| && p != i
    requires LockOf(p, k.procs[p].pc) == Some(i) && k.procs[i].state == ZOMBIE
    ensures k.procs[i].pc == ExGone && k.procs[i].at.None?
    ensures Locks(SetProc(k, i, UnusedSlot.(lock := k.procs[i].lock)))
  {
    assert StateOk(k.procs[i]) && PcOk(i, k.procs[i].pc);
    assert k.procs[i].lock == Some(OfProc(p));
    assert LockOf(i, k.procs[i].pc) != Some(i);
    hide SpinsOk, HeldOk, CpusOk, StatesOk;
    Replace(k, i, UnusedSlot.(lock := k.procs[i].lock));
  }

  lemma ExitSteps(k: Kernel, p: nat)
    requires Locks(k) && OnCpu(k, p) && CanStep(k, p)
    requires var pc := k.procs[p].pc; pc.ExAcquire? || pc.ExLock? || pc.ExZombie? || pc.ExDrop? || pc.ExSched?
    ensures Locks(NextStep(k, p))
  {
    hide SpinsOk, HeldOk, CpusOk;
    var me := k.procs[p];
    assert StateOk(me) && PcOk(p, me.pc);
    match me.pc
    case ExAcquire => Gain(k, p, WaitLock, ExScan(0));
    case ExLock => TakeLock(k, p, p, ExZombie);
    case ExZombie =>
      Replace(k, p, me.(state := ZOMBIE, pc := ExDrop));
      assert NextStep(k, p) == SetProc(k, p, me.(state := ZOMBIE, pc := ExDrop));
    case ExDrop => Give(k, p, WaitLock, ExSched);
    case ExSched =>
      AtCpu(k, p);
      Off(k, p, ExGone);
  }

  lemma ExScanStep(k: Kernel, p: nat)
    requires Locks(k) && OnCpu(k, p) && CanStep(k, p) && k.procs[p].pc.ExScan?
    ensures Locks(NextStep(k, p))
  {
    hide SpinsOk, HeldOk, CpusOk;
    var me, i := k.procs[p], k.procs[p].pc.i;
    assert StateOk(me);
    if i >= |k.procs| {
      Replace(k, p, me.(pc := if me.parent.Some? then Wk(ProcChan(me.parent.value), 0, ToZombie) else ExLock));
    } else if k.procs[i].parent == Some(p) {
      var k1 := SetProc(k, i, k.procs[i].(parent := Some(k.init)));
      assert StateOk(k.procs[i]) && PcOk(i, k.procs[i].pc);
      Replace(k, i, k.procs[i].(parent := Some(k.init)));
      Replace(k1, p, k1.procs[p].(pc := Wk(ProcChan(k.init), 0, ToScan(i + 1))));
    } else {
      Replace(k, p, me.(pc := ExScan(i + 1)));
    }
  }

  /** No lock is held where the timer may interrupt, and the process runs. */
  lemma PointFree(p: nat, back: Rest)
    ensures SpinOf(Point(back)) == Elsewhere && LockOf(p, Point(back)).None? && PcOk(p, Point(back))
    ensures forall r: Process :: r.pc == Point(back) ==> (StateOk(r) <==> r.state == RUNNING && r.at.Some?)
  {
  }

  lemma YieldSteps(k: Kernel, p: nat)
    requires Locks(k) && OnCpu(k, p) && CanStep(k, p)
    requires var pc := k.procs[p].pc; pc.Yd? || pc.ForkRet?
    ensures Locks(NextStep(k, p))
  {
    hide SpinsOk, HeldOk, CpusOk;
    var me := k.procs[p];
    assert StateOk(me) && PcOk(p, me.pc);
    match me.pc
    case Yd(step, back) =>
      if step == YdLock {
        TakeLock(k, p, p, Yd(YdSet, back));
      } else if step == YdSet {
        Replace(k, p, me.(state := RUNNABLE, pc := Yd(YdSched, back)));
        assert NextStep(k, p) == SetProc(k, p, me.(state := RUNNABLE, pc := Yd(YdSched, back)));
      } else if step == YdSched {
        AtCpu(k, p);
        Off(k, p, Yd(YdOut, back));
      } else {
        PointFree(p, back);
        DropLock(k, p, p, Point(back));
      }
    case ForkRet => DropLock(k, p, p, Run);
  }

  lemma ForkSteps(k: Kernel, p: nat)
    requires Locks(k) && OnCpu(k, p) && CanStep(k, p)
    requires var pc := k.procs[p].pc; pc.FkScan? || pc.FkBuild? || pc.FkAdopt? || pc.FkReady?
    ensures Locks(NextStep(k, p))
  {
    hide SpinsOk, HeldOk, CpusOk;
    var me := k.procs[p];
    assert StateOk(me) && PcOk(p, me.pc);
    match me.pc
    case FkScan(i) =>
      if i >= |k.procs| {
        Replace(k, p, me.(pc := Run));
      } else {
        TakeLock(k, p, i, FkHeld(i));
      }
    case FkBuild(i) => DropLock(k, p, i, FkAdopt(i));
    case FkAdopt(i) => Gain(k, p, WaitLock, FkParent(i));
    case FkReady(i) => TakeLock(k, p, i, FkSet(i));
  }

  /** The slot a fork works on: it is not the forking process, and it is as allocproc left it. */
  predicate Building(k: Kernel, p: nat, i: nat) {
    i < |k.procs| && i != p && k.procs[i].pc == Fresh && k.procs[i].state == USED
  }

  lemma ForkClaimStep(k: Kernel, p: nat)
    requires Locks(k) && OnCpu(k, p) && CanStep(k, p) && k.procs[p].pc.FkHeld?
    ensures Locks(NextStep(k, p))
  {
    hide SpinsOk, HeldOk, CpusOk;
    var me := k.procs[p];
    var i := me.pc.i;
    assert StateOk(me) && StateOk(k.procs[i]) && PcOk(i, k.procs[i].pc);
    if k.procs[i].state == UNUSED {
      UnusedIsFree(k.procs[i]);
      var r := k.procs[i].(state := USED, pid := k.nextpid, pc := Fresh);
      Replace(k, i, r);
      var k1 := SetProc(k, i, r);
      Replace(k1, p, me.(pc := FkBuild(i)));
      SameShape(SetPc(k1, p, FkBuild(i)), NextStep(k, p));
    } else {
      DropLock(k, p, i, FkScan(i + 1));
    }
  }

  lemma ForkParentStep(k: Kernel, p: nat)
    requires Locks(k) && OnCpu(k, p) && CanStep(k, p) && k.procs[p].pc.FkParent? && Building(k, p, k.procs[p].pc.i)
    ensures Locks(NextStep(k, p))
  {
    hide SpinsOk, HeldOk, CpusOk;
    var me, i := k.procs[p], k.procs[p].pc.i;
    assert StateOk(me) && StateOk(k.procs[i]);
    var k1 := SetProc(k, i, k.procs[i].(parent := Some(p)));
    Replace(k, i, k.procs[i].(parent := Some(p)));
    Give(k1, p, WaitLock, FkReady(i));
    assert NextStep(k, p) == SetPc(SetSpin(k1, WaitLock, None), p, FkReady(i));
  }

  lemma ForkSetStep(k: Kernel, p: nat)
    requires Locks(k) && OnCpu(k, p) && CanStep(k, p) && k.procs[p].pc.FkSet? && Building(k, p, k.procs[p].pc.i)
    ensures Locks(NextStep(k, p))
  {
    hide SpinsOk, HeldOk, CpusOk;
    var me, i := k.procs[p], k.procs[p].pc.i;
    assert StateOk(me) && StateOk(k.procs[i]);
    var k1 := SetProc(k, i, k.procs[i].(state := RUNNABLE));
    Replace(k, i, k.procs[i].(state := RUNNABLE));
    DropLock(k1, p, i, Run);
    assert NextStep(k, p) == SetPc(SetLock(k1, i, None), p, Run);
  }

  lemma UnusedIsFree(r: Process)
    requires StateOk(r) && r.state == UNUSED
    ensures r == UnusedSlot.(lock := r.lock)
  {
  }
}
