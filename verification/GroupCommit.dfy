/**
 Group commit (kernel/src/log.c begin_op, log_write, end_op) over all interleavings of any number
 of processes: admission, absorption and the transaction list, without the disk below them.
 */
module GroupCommit {
  import opened Common
  import opened LogFormat
  import opened BufferCache

  /** ops[p] is None outside an operation, else Some(blocks this operation added to the list). */
  datatype Group = Group(lh: seq<nat>, ops: seq<Option<nat>>, outstanding: nat, comitting: bool)

  datatype Action =
    | Begin(p: nat)
    | Write(p: nat, b: nat)
    | End(p: nat)
    | Clear   // commit sets log.lh.n = 0
    | Finish  // end_op clears comitting

  predicate InOp(g: Group, p: nat) {
    p < |g.ops| && g.ops[p].Some?
  }

  /** begin_op's admission test; a process that fails it sleeps. */
  predicate Admits(g: Group) {
    !g.comitting && |g.lh| + (g.outstanding + 1) * MAXOPBLOCKS <= LOGBLOCKS
  }

  /** The checks at the head of log_write; `size` is log.size. */
  predicate WritePanics(g: Group, size: int) {
    |g.lh| >= LOGBLOCKS || |g.lh| >= size - 1 || g.outstanding < 1
  }

  /**
   When an action can happen. The last operation to end starts the commit, which ends with Clear
   and Finish. `budget` bounds the distinct blocks one operation adds.
   */
  predicate Enabled(g: Group, a: Action, size: int, budget: nat) {
    match a
    case Begin(p) => p < |g.ops| && g.ops[p].None? && Admits(g)
    case Write(p, b) => InOp(g, p) && !WritePanics(g, size) && (b in g.lh || g.ops[p].value < budget)
    case End(p) => InOp(g, p) && !g.comitting && g.outstanding > 0
    case Clear => g.comitting
    case Finish => g.comitting && g.lh == []
  }

  function Next(g: Group, a: Action, size: int, budget: nat): Group
    requires Enabled(g, a, size, budget)
  {
    match a
    case Begin(p) => g.(ops := g.ops[p := Some(0)], outstanding := g.outstanding + 1)
    case Write(p, b) =>
      if b in g.lh then g
      else g.(lh := g.lh + [b], ops := g.ops[p := Some(g.ops[p].value + 1)])
    case End(p) => g.(ops := g.ops[p := None], outstanding := g.outstanding - 1, comitting := g.outstanding == 1)
    case Clear => g.(lh := [])
    case Finish => g.(comitting := false)
  }

  function Initial(nproc: nat): Group {
    Group([], seq(nproc, _ => None), 0, false)
  }

  /** A run: one action of one process after another, from a log with nothing open. */
  predicate Runs(states: seq<Group>, actions: seq<Action>, nproc: nat, size: int, budget: nat) {
    && |states| == |actions| + 1 && states[0] == Initial(nproc)
    && forall k :: 0 <= k < |actions| ==>
                     Enabled(states[k], actions[k], size, budget)
                       && states[k + 1] == Next(states[k], actions[k], size, budget)
  }

  /** The states some interleaving reaches. */
  ghost predicate Reachable(g: Group, nproc: nat, size: int, budget: nat) {
    exists states, actions :: Runs(states, actions, nproc, size, budget) && states[|actions|] == g
  }

  // Sums over the process table.

  function Weight(o: Option<nat>): int {
    if o.Some? then MAXOPBLOCKS - o.value else 0
  }

  /** What the active operations may still add under the MAXOPBLOCKS reservation. */
  function Reserve(ops: seq<Option<nat>>): int {
    if ops == [] then 0 else Reserve(ops[..|ops| - 1]) + Weight(ops[|ops| - 1])
  }

  function Active(ops: seq<Option<nat>>): nat {
    if ops == [] then 0 else Active(ops[..|ops| - 1]) + if ops[|ops| - 1].Some? then 1 else 0
  }

  lemma {:induction false} SumUpdate(ops: seq<Option<nat>>, p: nat, o: Option<nat>)
    requires p < |ops|
    ensures Reserve(ops[p := o]) == Reserve(ops) - Weight(ops[p]) + Weight(o)
    ensures Active(ops[p := o]) == Active(ops) - (if ops[p].Some? then 1 else 0) + (if o.Some? then 1 else 0)
  {
    var m := |ops| - 1;
    if p == m {
      assert ops[p := o][..m] == ops[..m];
    } else {
      SumUpdate(ops[..m], p, o);
      assert ops[p := o][..m] == ops[..m][p := o];
    }
  }

  lemma {:induction false} NoneActive(ops: seq<Option<nat>>)
    requires forall p :: 0 <= p < |ops| ==> ops[p].None?
    ensures Active(ops) == 0 && Reserve(ops) == 0
  {
    if ops != [] {
      NoneActive(ops[..|ops| - 1]);
    }
  }

  lemma {:induction false} ActiveBounds(ops: seq<Option<nat>>, budget: nat)
    requires budget < MAXOPBLOCKS
    requires forall p :: 0 <= p < |ops| && ops[p].Some? ==> ops[p].value <= budget
    ensures Reserve(ops) >= Active(ops)
    ensures Reserve(ops) <= MAXOPBLOCKS * Active(ops)
    ensures Active(ops) == 0 ==> forall p :: 0 <= p < |ops| ==> ops[p].None?
  {
    if ops != [] {
      ActiveBounds(ops[..|ops| - 1], budget);
    }
  }

  /** What every interleaving keeps when an operation adds at most MAXOPBLOCKS - 1 blocks. */
  predicate Inv(g: Group, budget: nat) {
    && g.outstanding == Active(g.ops)
    && (g.comitting ==> g.outstanding == 0)
    && (!g.comitting && g.outstanding == 0 ==> g.lh == [])
    && (forall p :: 0 <= p < |g.ops| && g.ops[p].Some? ==> g.ops[p].value <= budget)
    && |g.lh| + Reserve(g.ops) <= LOGBLOCKS
    && |g.lh| < LOGBLOCKS
    && (forall t, u :: 0 <= t < u < |g.lh| ==> g.lh[t] != g.lh[u])
  }

  lemma InitialInv(nproc: nat, budget: nat)
    ensures Inv(Initial(nproc), budget)
  {
    NoneActive(Initial(nproc).ops);
  }

  lemma InvNext(g: Group, a: Action, size: int, budget: nat)
    requires budget < MAXOPBLOCKS && Inv(g, budget) && Enabled(g, a, size, budget)
    ensures Inv(Next(g, a, size, budget), budget)
  {
    ActiveBounds(g.ops, budget);
    var h := Next(g, a, size, budget);
    match a
    case Begin(p) => SumUpdate(g.ops, p, Some(0));
    case Write(p, b) =>
      if b !in g.lh {
        SumUpdate(g.ops, p, Some(g.ops[p].value + 1));
        ActiveBounds(h.ops, budget);
      }
    case End(p) => SumUpdate(g.ops, p, None);
    case Clear =>
    case Finish =>
  }

  lemma {:induction false} RunInv(states: seq<Group>, actions: seq<Action>, nproc: nat, size: int, budget: nat, k: nat)
    requires budget < MAXOPBLOCKS && Runs(states, actions, nproc, size, budget) && k <= |actions|
    ensures Inv(states[k], budget)
  {
    hide Inv, Enabled, Next;
    if k == 0 {
      InitialInv(nproc, budget);
    } else {
      RunInv(states, actions, nproc, size, budget, k - 1);
      InvNext(states[k - 1], actions[k - 1], size, budget);
    }
  }

  lemma ReachableInv(g: Group, nproc: nat, size: int, budget: nat)
    requires budget < MAXOPBLOCKS && Reachable(g, nproc, size, budget)
    ensures Inv(g, budget)
  {
    var states, actions :| Runs(states, actions, nproc, size, budget) && states[|actions|] == g;
    RunInv(states, actions, nproc, size, budget, |actions|);
  }

  /** What every interleaving keeps, however many blocks an operation adds. */
  predicate Exclusive(g: Group) {
    g.outstanding == Active(g.ops) && (g.comitting ==> g.outstanding == 0) && |g.lh| <= LOGBLOCKS
  }

  lemma {:induction false} ActiveOnes(ops: seq<Option<nat>>, p: nat)
    requires p < |ops| && ops[p].Some?
    ensures Active(ops) > 0
  {
    if p < |ops| - 1 {
      ActiveOnes(ops[..|ops| - 1], p);
    }
  }

  lemma ExclusiveNext(g: Group, a: Action, size: int, budget: nat)
    requires Exclusive(g) && Enabled(g, a, size, budget)
    ensures Exclusive(Next(g, a, size, budget))
  {
    match a
    case Begin(p) => SumUpdate(g.ops, p, Some(0));
    case Write(p, b) =>
      if b !in g.lh {
        SumUpdate(g.ops, p, Some(g.ops[p].value + 1));
      }
    case End(p) =>
      SumUpdate(g.ops, p, None);
      ActiveOnes(g.ops, p);
    case Clear =>
    case Finish =>
  }

  lemma {:induction false} RunExclusive(states: seq<Group>, actions: seq<Action>, nproc: nat, size: int, budget: nat,
                                        k: nat)
    requires Runs(states, actions, nproc, size, budget) && k <= |actions|
    ensures Exclusive(states[k])
  {
    hide Exclusive, Enabled, Next;
    if k == 0 {
      StartsExclusive(nproc);
    } else {
      RunExclusive(states, actions, nproc, size, budget, k - 1);
      ExclusiveNext(states[k - 1], actions[k - 1], size, budget);
    }
  }

  lemma StartsExclusive(nproc: nat)
    ensures Exclusive(Initial(nproc))
  {
    NoneActive(Initial(nproc).ops);
  }

  /**
   In a reachable state the list is frozen during a commit and end_op never meets one, however many blocks an
   operation adds; with fewer than MAXOPBLOCKS each the list is never full, and without an open operation it is
   empty unless a commit is running: nothing that was logged is left behind.
   */
  lemma CommitIsExclusive(g: Group, nproc: nat, size: int, budget: nat, p: nat)
    requires Reachable(g, nproc, size, budget)
    ensures g.comitting ==> g.outstanding == 0 && !InOp(g, p)
    ensures |g.lh| <= LOGBLOCKS && (budget < MAXOPBLOCKS ==> |g.lh| < LOGBLOCKS)
    ensures budget < MAXOPBLOCKS && g.outstanding == 0 && !g.comitting ==> g.lh == []
  {
    var states, actions :| Runs(states, actions, nproc, size, budget) && states[|actions|] == g;
    RunExclusive(states, actions, nproc, size, budget, |actions|);
    if InOp(g, p) {
      ActiveOnes(g.ops, p);
    }
    if budget < MAXOPBLOCKS {
      ReachableInv(g, nproc, size, budget);
    }
  }

  /** Some process is inside an operation and its next log_write would panic. */
  ghost predicate Stuck(g: Group, size: int) {
    WritePanics(g, size) && exists p :: InOp(g, p)
  }

  lemma NeverStuck(g: Group, nproc: nat, size: int, budget: nat)
    requires size > LOGBLOCKS && budget < MAXOPBLOCKS && Reachable(g, nproc, size, budget)
    ensures !Stuck(g, size)
  {
    ReachableInv(g, nproc, size, budget);
    ActiveBounds(g.ops, budget);
  }

  // The run that fills the list: three operations are admitted to an empty log and then add ten
  // blocks each.

  function Share(k: nat, p: nat): nat {
    if k <= p * MAXOPBLOCKS then 0
    else if k >= (p + 1) * MAXOPBLOCKS then MAXOPBLOCKS
    else k - p * MAXOPBLOCKS
  }

  function Filling(nproc: nat, begun: nat, k: nat): Group {
    Group(seq(k, i => i), seq(nproc, p => if 0 <= p < begun then Some(Share(k, p)) else None), begun, false)
  }

  lemma {:induction false} FillingRuns(nproc: nat, size: int, budget: nat, begun: nat, k: nat)
    returns (states: seq<Group>, actions: seq<Action>)
    requires nproc >= 3 && size > LOGBLOCKS && budget >= MAXOPBLOCKS
    requires begun <= 3 && k <= LOGBLOCKS && (k > 0 ==> begun == 3)
    ensures Runs(states, actions, nproc, size, budget) && states[|actions|] == Filling(nproc, begun, k)
    decreases k + begun
  {
    hide Enabled, Next, Filling;
    if k > 0 {
      states, actions := FillingRuns(nproc, size, budget, begun, k - 1);
      FillingStep(nproc, size, budget, k);
      states, actions := LongerRun(states, actions, nproc, size, budget, Write((k - 1) / MAXOPBLOCKS, k - 1));
    } else if begun > 0 {
      states, actions := FillingRuns(nproc, size, budget, begun - 1, 0);
      BeginStep(nproc, size, budget, begun);
      states, actions := LongerRun(states, actions, nproc, size, budget, Begin(begun - 1));
    } else {
      EmptyRun(nproc, size, budget);
      states, actions := [Filling(nproc, 0, 0)], [];
    }
  }

  lemma LongerRun(states: seq<Group>, actions: seq<Action>, nproc: nat, size: int, budget: nat, a: Action)
    returns (longer: seq<Group>, more: seq<Action>)
    requires Runs(states, actions, nproc, size, budget) && Enabled(states[|actions|], a, size, budget)
    ensures Runs(longer, more, nproc, size, budget) && longer[|more|] == Next(states[|actions|], a, size, budget)
  {
    hide Enabled, Next;
    longer, more := states + [Next(states[|actions|], a, size, budget)], actions + [a];
  }

  lemma EmptyRun(nproc: nat, size: int, budget: nat)
    ensures Runs([Filling(nproc, 0, 0)], [], nproc, size, budget)
  {
  }

  lemma BeginStep(nproc: nat, size: int, budget: nat, begun: nat)
    requires nproc >= 3 && size > LOGBLOCKS && budget >= MAXOPBLOCKS && 0 < begun <= 3
    ensures var g, a := Filling(nproc, begun - 1, 0), Begin(begun - 1);
            Enabled(g, a, size, budget) && Next(g, a, size, budget) == Filling(nproc, begun, 0)
  {
    var g, a := Filling(nproc, begun - 1, 0), Begin(begun - 1);
    assert Next(g, a, size, budget).ops == Filling(nproc, begun, 0).ops;
  }

  lemma FillingStep(nproc: nat, size: int, budget: nat, k: nat)
    requires nproc >= 3 && size > LOGBLOCKS && budget >= MAXOPBLOCKS && 0 < k <= LOGBLOCKS
    ensures var g, a := Filling(nproc, 3, k - 1), Write((k - 1) / MAXOPBLOCKS, k - 1);
            Enabled(g, a, size, budget) && Next(g, a, size, budget) == Filling(nproc, 3, k)
  {
    var g, a := Filling(nproc, 3, k - 1), Write((k - 1) / MAXOPBLOCKS, k - 1);
    assert Next(g, a, size, budget).ops == Filling(nproc, 3, k).ops;
  }

  /**
   log_write cannot panic in any interleaving if and only if every operation adds fewer than
   MAXOPBLOCKS blocks: with ten each, three admitted operations fill the list and the next
   log_write of any of them panics, absorbed or not.
   */
  lemma LogNeverOverflows(nproc: nat, size: int, budget: nat)
    requires nproc >= 3 && size > LOGBLOCKS
    ensures (forall g :: Reachable(g, nproc, size, budget) ==> !Stuck(g, size)) <==> budget < MAXOPBLOCKS
  {
    if budget < MAXOPBLOCKS {
      forall g | Reachable(g, nproc, size, budget) ensures !Stuck(g, size) {
        NeverStuck(g, nproc, size, budget);
      }
    } else {
      var states, actions := FillingRuns(nproc, size, budget, 3, LOGBLOCKS);
      var full := Filling(nproc, 3, LOGBLOCKS);
      assert Reachable(full, nproc, size, budget);
      assert InOp(full, 0);
    }
  }
}
