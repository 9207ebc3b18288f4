/**
 Processes, CPUs and locks (kernel/src/proc.c, kernel/src/sleeplock.c, kernel/src/spinlock.c) as one
 transition system. Every process runs its code one step at a time, over any number of CPUs and
 processes, interleaved in any order. Test-and-set and swtch are single steps.
 */
module Proc {
  import opened Common

  datatype State = UNUSED | USED | SLEEPING | RUNNABLE | RUNNING | ZOMBIE

  /** What a process sleeps on: the modelled sleep lock, a process in wait, or something else. */
  datatype Chan = NoChan | LockChan | ProcChan(p: nat) | OtherChan

  /** The spin locks modelled besides each process's own: the sleep lock's inner lock and wait_lock. */
  datatype Spin = Inner | WaitLock | Elsewhere

  /** Where wakeup returns to. */
  datatype Ret = ToRelease | ToScan(i: nat) | ToZombie

  /** A point of the code where no spin lock is held, so that the timer may interrupt it. */
  datatype Rest =
    | AtRun | AtAcquire | AtRelease | AtRelock(lk: Spin) | AtWait | AtExit
    | AtScan(i: nat) | AtAdopt(i: nat) | AtReady(i: nat)

  /** The next step of yield. */
  datatype Yield = YdLock | YdSet | YdSched | YdOut | YdBack

  /** The next step of a process's kernel code. */
  datatype Pc =
    | Run                                   // code outside the model, no spin lock held
    | Free                                  // the slot is unused
    | Fresh | ForkRet                       // forked, not yet run; forkret on first run
    // acquiresleep, releasesleep
    | AsAcquire | AsTest | AsTake | AsRelease
    | RsAcquire | RsClear | RsDone
    // sleep(chan, lk)
    | SlLock(chan: Chan, lk: Spin) | SlDrop(chan: Chan, lk: Spin) | SlSet(chan: Chan, lk: Spin)
    | SlSched(chan: Chan, lk: Spin) | SlOut(chan: Chan, lk: Spin) | SlBack(chan: Chan, lk: Spin) | SlRelock(lk: Spin)
    // wakeup(chan), at table index i
    | Wk(chan: Chan, i: nat, ret: Ret) | WkHeld(chan: Chan, i: nat, ret: Ret)
    // wait
    | WtAcquire | WtScan(i: nat, kids: bool) | WtHeld(i: nat) | WtDecide(kids: bool) | WtDone
    // exit
    | ExAcquire | ExScan(i: nat) | ExLock | ExZombie | ExDrop | ExSched | ExGone
    // fork and allocproc
    | FkScan(i: nat) | FkHeld(i: nat) | FkBuild(i: nat) | FkAdopt(i: nat) | FkParent(i: nat) | FkReady(i: nat)
    | FkSet(i: nat)
    // yield, called from the timer interrupt
    | Yd(step: Yield, back: Rest)

  datatype Thread = OfProc(p: nat) | OfCpu(c: nat)

  /** lock is the holder of p->lock; at is the CPU the process runs on. */
  datatype Process = Process(state: State, chan: Chan, pid: nat, parent: Option<nat>, pc: Pc,
                             lock: Option<Thread>, at: Option<nat>)

  /** A CPU is in its scheduler loop, or holds a process's lock before or after running it, or runs it. */
  datatype Cpu = Idle | Picked(p: nat) | On(p: nat) | Back(p: nat)

  /**
   inner and wait are the holders of the two spin locks; locked and lockpid are the sleep lock's fields;
   owner records which process last completed acquiresleep without releasesleep.
   */
  datatype Kernel = Kernel(
    procs: seq<Process>, cpus: seq<Cpu>, inner: Option<nat>, wait: Option<nat>,
    locked: bool, lockpid: nat, owner: Option<nat>, nextpid: nat, init: nat)

  datatype Action =
    | Step(p: nat)                 // the next step of a process on a CPU
    | Call(p: nat, entry: Pc)      // code outside the model calls into it
    | Preempt(p: nat)              // the timer interrupts code that holds no spin lock, and yields; in the kernel's
                                   // own code kerneltrap does not, so these are more interleavings than there are
    | Fail(p: nat)                 // allocproc or fork fails after the slot was taken, or copyout in wait
    | Killed(p: nat)               // wait returns because the caller was killed
    | Wake(q: nat)                 // kill, or a wakeup outside the model, under q's lock
    | Pick(c: nat, p: nat)         // scheduler: acquire(&p->lock)
    | Dispatch(c: nat)             // scheduler: RUNNABLE, so swtch to it
    | Skip(c: nat)                 // scheduler: not RUNNABLE, release
    | Leave(c: nat)                // scheduler: back from the process, release

  predicate OnCpu(k: Kernel, p: nat) {
    p < |k.procs| && k.procs[p].at.Some?
  }

  predicate LockFree(k: Kernel, q: nat) {
    q < |k.procs| && k.procs[q].lock.None?
  }

  function SpinHolder(k: Kernel, lk: Spin): Option<nat> {
    match lk
    case Inner => k.inner
    case WaitLock => k.wait
    case Elsewhere => None
  }

  function SetSpin(k: Kernel, lk: Spin, h: Option<nat>): Kernel {
    match lk
    case Inner => k.(inner := h)
    case WaitLock => k.(wait := h)
    case Elsewhere => k
  }

  function SetPc(k: Kernel, p: nat, pc: Pc): Kernel
    requires p < |k.procs|
  {
    k.(procs := k.procs[p := k.procs[p].(pc := pc)])
  }

  function SetLock(k: Kernel, q: nat, h: Option<Thread>): Kernel
    requires q < |k.procs|
  {
    k.(procs := k.procs[q := k.procs[q].(lock := h)])
  }

  function SetState(k: Kernel, q: nat, s: State): Kernel
    requires q < |k.procs|
  {
    k.(procs := k.procs[q := k.procs[q].(state := s)])
  }

  function Returned(ret: Ret): Pc {
    match ret
    case ToRelease => RsDone
    case ToScan(i) => ExScan(i)
    case ToZombie => ExLock
  }

  /** Where sleep resumes once it holds its lock again. */
  function Resumed(lk: Spin): Pc {
    match lk
    case Inner => AsTest
    case WaitLock => WtScan(0, false)
    case Elsewhere => Run
  }

  function Point(r: Rest): Pc {
    match r
    case AtRun => Run
    case AtAcquire => AsAcquire
    case AtRelease => RsAcquire
    case AtRelock(lk) => SlRelock(lk)
    case AtWait => WtAcquire
    case AtExit => ExAcquire
    case AtScan(i) => FkScan(i)
    case AtAdopt(i) => FkAdopt(i)
    case AtReady(i) => FkReady(i)
  }

  /** The point as one where the timer may interrupt, if it is one. */
  function RestOf(pc: Pc): (r: Option<Rest>)
    ensures r.Some? ==> Point(r.value) == pc
  {
    match pc
    case Run => Some(AtRun)
    case AsAcquire => Some(AtAcquire)
    case RsAcquire => Some(AtRelease)
    case SlRelock(lk) => Some(AtRelock(lk))
    case WtAcquire => Some(AtWait)
    case ExAcquire => Some(AtExit)
    case FkScan(i) => Some(AtScan(i))
    case FkAdopt(i) => Some(AtAdopt(i))
    case FkReady(i) => Some(AtReady(i))
    case _ => None
  }

  /** Entry points code outside the model may call; exit is not for init, nor while holding the sleep lock. */
  predicate MayCall(k: Kernel, p: nat, entry: Pc) {
    || entry == AsAcquire || entry == WtAcquire || entry == FkScan(0)
    || entry == SlLock(OtherChan, Elsewhere)
    || (entry == RsAcquire && k.owner == Some(p))
    || (entry == ExAcquire && p != k.init && k.owner != Some(p))
  }

  /** The lock a step has to acquire is free. */
  predicate CanStep(k: Kernel, p: nat)
    requires p < |k.procs|
  {
    match k.procs[p].pc
    case Run => false
    case Free => false
    case Fresh => false
    case SlOut(_, _) => false
    case ExGone => false
    case AsAcquire => k.inner.None?
    case RsAcquire => k.inner.None?
    case WtAcquire => k.wait.None?
    case ExAcquire => k.wait.None?
    case FkAdopt(_) => k.wait.None?
    case SlRelock(lk) => SpinHolder(k, lk).None?
    case SlLock(_, _) => LockFree(k, p)
    case ExLock => LockFree(k, p)
    case Yd(step, _) => step != YdOut && (step == YdLock ==> LockFree(k, p))
    case Wk(_, i, _) => i < |k.procs| && i != p ==> LockFree(k, i)
    case WtScan(i, _) => i < |k.procs| && k.procs[i].parent == Some(p) ==> LockFree(k, i)
    case WkHeld(_, i, _) => i < |k.procs|
    case WtHeld(i) => i < |k.procs|
    case FkScan(i) => i < |k.procs| ==> LockFree(k, i)
    case FkReady(i) => LockFree(k, i)
    case FkHeld(i) => i < |k.procs|
    case FkBuild(i) => i < |k.procs|
    case FkParent(i) => i < |k.procs|
    case FkSet(i) => i < |k.procs|
    case _ => true
  }

  predicate Enabled(k: Kernel, a: Action) {
    match a
    case Step(p) => OnCpu(k, p) && CanStep(k, p)
    case Call(p, entry) => OnCpu(k, p) && k.procs[p].pc == Run && MayCall(k, p, entry)
    case Preempt(p) => OnCpu(k, p) && RestOf(k.procs[p].pc).Some?
    case Fail(p) =>
      && OnCpu(k, p) && (k.procs[p].pc.FkBuild? || k.procs[p].pc.WtHeld?) && k.procs[p].pc.i < |k.procs|
      && (k.procs[p].pc.WtHeld? ==> k.procs[k.procs[p].pc.i].state == ZOMBIE)
    case Killed(p) => OnCpu(k, p) && k.procs[p].pc.WtDecide?
    case Wake(q) => LockFree(k, q) && k.procs[q].state == SLEEPING
    case Pick(c, p) => c < |k.cpus| && k.cpus[c] == Idle && LockFree(k, p)
    case Dispatch(c) =>
      c < |k.cpus| && k.cpus[c].Picked? && k.cpus[c].p < |k.procs| && k.procs[k.cpus[c].p].state == RUNNABLE
    case Skip(c) =>
      c < |k.cpus| && k.cpus[c].Picked? && k.cpus[c].p < |k.procs| && k.procs[k.cpus[c].p].state != RUNNABLE
    case Leave(c) => c < |k.cpus| && k.cpus[c].Back? && k.cpus[c].p < |k.procs|
  }

  const UnusedSlot: Process := Process(UNUSED, NoChan, 0, None, Free, None, None)

  /** swtch to the scheduler: the CPU takes over the process's lock. */
  function SwitchOut(k: Kernel, p: nat, pc: Pc): Kernel
    requires p < |k.procs| && k.procs[p].at.Some? && k.procs[p].at.value < |k.cpus|
  {
    var c := k.procs[p].at.value;
    k.(cpus := k.cpus[c := Back(p)],
       procs := k.procs[p := k.procs[p].(pc := pc, lock := Some(OfCpu(c)), at := None)])
  }

  /** Where a process continues when the scheduler switches to it. */
  function SwitchedIn(pc: Pc): Pc {
    match pc
    case SlOut(chan, lk) => SlBack(chan, lk)
    case Yd(_, back) => Yd(YdBack, back)
    case _ => ForkRet
  }

  function NextStep(k: Kernel, p: nat): Kernel
    requires OnCpu(k, p) && CanStep(k, p)
  {
    var n, me := |k.procs|, k.procs[p];
    match me.pc
    case AsAcquire => SetPc(k.(inner := Some(p)), p, AsTest)
    case AsTest => SetPc(k, p, if k.locked then SlLock(LockChan, Inner) else AsTake)
    case AsTake => SetPc(k.(locked := true, lockpid := me.pid, owner := Some(p)), p, AsRelease)
    case AsRelease => SetPc(k.(inner := None), p, Run)
    case RsAcquire => SetPc(k.(inner := Some(p)), p, RsClear)
    case RsClear => SetPc(k.(locked := false, lockpid := 0, owner := None), p, Wk(LockChan, 0, ToRelease))
    case RsDone => SetPc(k.(inner := None), p, Run)
    case SlLock(chan, lk) => SetPc(SetLock(k, p, Some(OfProc(p))), p, SlDrop(chan, lk))
    case SlDrop(chan, lk) => SetPc(SetSpin(k, lk, None), p, SlSet(chan, lk))
    case SlSet(chan, lk) => k.(procs := k.procs[p := me.(state := SLEEPING, chan := chan, pc := SlSched(chan, lk))])
    case SlSched(chan, lk) => if me.at.value < |k.cpus| then SwitchOut(k, p, SlOut(chan, lk)) else k
    case SlBack(chan, lk) => k.(procs := k.procs[p := me.(chan := NoChan, lock := None, pc := SlRelock(lk))])
    case SlRelock(lk) => SetPc(SetSpin(k, lk, Some(p)), p, Resumed(lk))
    case Wk(chan, i, ret) =>
      if i >= n then SetPc(k, p, Returned(ret))
      else if i == p then SetPc(k, p, Wk(chan, i + 1, ret))
      else SetPc(SetLock(k, i, Some(OfProc(p))), p, WkHeld(chan, i, ret))
    case WkHeld(chan, i, ret) =>
      var q := k.procs[i];
      var woken := if q.state == SLEEPING && q.chan == chan then SetState(k, i, RUNNABLE) else k;
      SetPc(SetLock(woken, i, None), p, Wk(chan, i + 1, ret))
    case WtAcquire => SetPc(k.(wait := Some(p)), p, WtScan(0, false))
    case WtScan(i, kids) =>
      if i >= n then SetPc(k, p, WtDecide(kids))
      else if k.procs[i].parent == Some(p) then SetPc(SetLock(k, i, Some(OfProc(p))), p, WtHeld(i))
      else SetPc(k, p, WtScan(i + 1, kids))
    case WtHeld(i) =>
      if k.procs[i].state == ZOMBIE then SetPc(k.(procs := k.procs[i := UnusedSlot]), p, WtDone)
      else SetPc(SetLock(k, i, None), p, WtScan(i + 1, true))
    case WtDecide(kids) => SetPc(k, p, if kids then SlLock(ProcChan(p), WaitLock) else WtDone)
    case WtDone => SetPc(k.(wait := None), p, Run)
    case ExAcquire => SetPc(k.(wait := Some(p)), p, ExScan(0))
    case ExScan(i) =>
      if i >= n then
        SetPc(k, p, if me.parent.Some? then Wk(ProcChan(me.parent.value), 0, ToZombie) else ExLock)
      else if k.procs[i].parent == Some(p) then
        SetPc(k.(procs := k.procs[i := k.procs[i].(parent := Some(k.init))]), p, Wk(ProcChan(k.init), 0, ToScan(i + 1)))
      else SetPc(k, p, ExScan(i + 1))
    case ExLock => SetPc(SetLock(k, p, Some(OfProc(p))), p, ExZombie)
    case ExZombie => SetPc(SetState(k, p, ZOMBIE), p, ExDrop)
    case ExDrop => SetPc(k.(wait := None), p, ExSched)
    case ExSched => if me.at.value < |k.cpus| then SwitchOut(k, p, ExGone) else k
    case FkScan(i) => if i >= n then SetPc(k, p, Run) else SetPc(SetLock(k, i, Some(OfProc(p))), p, FkHeld(i))
    case FkHeld(i) =>
      if k.procs[i].state == UNUSED then
        SetPc(k.(procs := k.procs[i := k.procs[i].(state := USED, pid := k.nextpid, pc := Fresh)],
                nextpid := k.nextpid + 1),
              p, FkBuild(i))
      else SetPc(SetLock(k, i, None), p, FkScan(i + 1))
    case FkBuild(i) => SetPc(SetLock(k, i, None), p, FkAdopt(i))
    case FkAdopt(i) => SetPc(k.(wait := Some(p)), p, FkParent(i))
    case FkParent(i) =>
      SetPc(k.(procs := k.procs[i := k.procs[i].(parent := Some(p))], wait := None), p, FkReady(i))
    case FkReady(i) => SetPc(SetLock(k, i, Some(OfProc(p))), p, FkSet(i))
    case FkSet(i) => SetPc(SetLock(SetState(k, i, RUNNABLE), i, None), p, Run)
    case ForkRet => SetPc(SetLock(k, p, None), p, Run)
    case Yd(step, back) =>
      if step == YdLock then SetPc(SetLock(k, p, Some(OfProc(p))), p, Yd(YdSet, back))
      else if step == YdSet then SetPc(SetState(k, p, RUNNABLE), p, Yd(YdSched, back))
      else if step == YdSched then if me.at.value < |k.cpus| then SwitchOut(k, p, Yd(YdOut, back)) else k
      else SetPc(SetLock(k, p, None), p, Point(back))
  }

  function Next(k: Kernel, a: Action): Kernel
    requires Enabled(k, a)
  {
    match a
    case Step(p) => NextStep(k, p)
    case Call(p, entry) => SetPc(k, p, entry)
    case Preempt(p) => SetPc(k, p, Yd(YdLock, RestOf(k.procs[p].pc).value))
    case Fail(p) =>
      var i := k.procs[p].pc.i;
      if k.procs[p].pc.FkBuild? then SetPc(k.(procs := k.procs[i := UnusedSlot]), p, Run)
      else SetPc(SetLock(k, i, None), p, WtDone)
    case Killed(p) => SetPc(k, p, WtDone)
    case Wake(q) => SetState(k, q, RUNNABLE)
    case Pick(c, p) => SetLock(k, p, Some(OfCpu(c))).(cpus := k.cpus[c := Picked(p)])
    case Dispatch(c) =>
      var p := k.cpus[c].p;
      var q := k.procs[p];
      k.(cpus := k.cpus[c := On(p)],
         procs := k.procs[p := q.(state := RUNNING, pc := SwitchedIn(q.pc), lock := Some(OfProc(p)), at := Some(c))])
    case Skip(c) => SetLock(k, k.cpus[c].p, None).(cpus := k.cpus[c := Idle])
    case Leave(c) => SetLock(k, k.cpus[c].p, None).(cpus := k.cpus[c := Idle])
  }
}
