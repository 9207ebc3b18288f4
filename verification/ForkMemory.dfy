/**
 The memory of a new process (allocproc, fork and freeproc in kernel/src/proc.c). freeproc does not reset the size of
 the process, so a slot that is used again still has the size of its last process until fork has copied the memory.
 */
module ForkMemory {
  import opened Common
  import opened Collections
  import opened Sv39
  import opened Kalloc
  import opened PageTable
  import opened PageWalk
  import opened Mappages
  import opened Unmap
  import opened TableCost
  import opened Uvm
  import opened ProcPagetable
  import opened Uvmcopy

  /** The forking process has n pages; they and its tables are in use. */
  ghost predicate ParentOk(ram: Ram, parent: Tree, free: seq<nat>, n: nat) {
    && TreeOk(ram, parent) && UserSpace(ram, parent, n) && Tables(parent) !! Elems(free)
    && forall u: nat :: u < n ==> PageOf(ram, parent, u) !in free
  }

  /** uvmcopy finds the parent as it was, apart from the child that proc_pagetable made. */
  lemma ParentApart(ram: Ram, parent: Tree, free: seq<nat>, n: nat, more: Ram, t: Tree, rest: seq<nat>)
    requires ParentOk(ram, parent, free, n) && SameOutside(ram, more, Elems(free))
    requires Tables(t) + Elems(rest) <= Elems(free)
    ensures Apart(more, parent, t, rest, n) && forall u: nat :: u < n ==> !Unmappable(more, parent, u)
    ensures forall u: nat :: u < n ==>
              && Entry(more, parent, u) == Entry(ram, parent, u)
              && PageOf(ram, parent, u) in ram && more[PageOf(ram, parent, u)] == ram[PageOf(ram, parent, u)]
  {
    hide TreeOk, Tables, IsLeaf, PteFlags, Pte2Pa, Entry;
    TreeFrame(ram, more, parent);
    forall u: nat | u < n
      ensures Entry(more, parent, u) == Entry(ram, parent, u) && CanClear(ram, parent, u, true)
      ensures PageOf(more, parent, u) == PageOf(ram, parent, u) && PageOf(ram, parent, u) !in Elems(free)
    {
      assert CanClear(ram, parent, u, true);
    }
  }

  /** The pages a new process takes for n user pages, in terms of its first tables. */
  lemma ForkCost(m: PhysMem, t: Tree, n: nat)
    requires VmOk(m, t) && KernelTables(t) && UserSpace(m.ram, t, 0) && n <= TRAPFRAME_VPN
    ensures Affords(t, 0, n, |m.free|) <==> UserCost(n) <= |m.free|
    ensures forall u: nat :: u < n ==> !IsValid(Entry(m.ram, t, u))
  {
    hide TreeOk, Tables, NewTables, IsList, Entry, IsValid, IsLeaf;
    GrowthFits(m, t, n);
    assert Vacant(m.ram, t, 0, n) by {
      forall u: nat | u < n ensures VacantAt(m.ram, t, u) {
      }
    }
  }

  /** The child after a failed copy and with its trapframe freed: no user page, every other page of the stock free. */
  lemma FailedChild(ram: Ram, t: Tree, free: seq<nat>, more: Ram, t': Tree, rest: seq<nat>, k: nat, trapframe: nat,
                    page: Page, last: Ram, all: seq<nat>)
    requires UserSpace(ram, t, 0) && Grown(ram, t, free, more, t', rest, Cleared(k), []) && k <= TRAPFRAME_VPN
    requires Pool(t, free) == Elems(all) - {trapframe} && trapframe in all
    requires TreeOk(more, t') && trapframe in more && last == more[trapframe := page]
    ensures TreeOk(last, t') && Freeable(last, t', [trapframe] + rest, 0, Elems(all))
    ensures trapframe !in rest && trapframe !in Tables(t')
  {
    hide TreeOk, Tables, Entry, IsValid, IsLeaf, PteFlags;
    assert Elems([]) == {};
    assert Pool(t', rest) == Pool(t, free);
    assert trapframe !in Tables(t') && trapframe !in Elems(rest);
    TreeFrame(more, last, t');
    assert Elems([trapframe] + rest) == {trapframe} + Elems(rest);
    assert !IsValid(0) by { ZeroIsNothing(); }
    forall u: nat
      ensures Entry(last, t', u) == if u < k then 0 else Entry(ram, t, u)
    {
      assert Entry(last, t', u) == Entry(more, t', u);
      assert u < k ==> Cleared(k)[u] == Zero(u);
    }
    forall u: nat | u == TRAMPOLINE_VPN || u == TRAPFRAME_VPN
      ensures CanUnmap(last, t', u) && IsLeaf(Entry(last, t', u))
    {
      assert CanUnmap(ram, t, u);
    }
    assert UserPages(last, t', 0) == {};
    assert trapframe in Elems(all);
    assert Pool(t', [trapframe] + rest) == Pool(t', rest) + {trapframe} == Elems(all);
    forall u: nat | u != TRAMPOLINE_VPN && u != TRAPFRAME_VPN ensures !IsValid(Entry(last, t', u)) {
      assert !IsValid(Entry(ram, t, u));
    }
    assert UserSpace(last, t', 0);
    assert OwnedAt(last, t', [trapframe] + rest, 0, 0);
  }

  lemma ZeroIsNothing()
    ensures !IsValid(0)
  {
  }

  lemma Copies(m: PhysMem, ram: Ram, parent: Tree, mid: Ram, t: Tree, free: seq<nat>, t': Tree, data: seq<nat>, u: nat)
    requires Copying(m, mid, parent, t, free, t', data) && u < |data|
    requires Entry(mid, parent, u) == Entry(ram, parent, u)
    requires PageOf(ram, parent, u) in ram && PageOf(ram, parent, u) in mid
    requires mid[PageOf(ram, parent, u)] == ram[PageOf(ram, parent, u)]
    ensures CopyOf(ram, parent, m.ram, t', data, u)
  {
    hide TreeOk, Tables, Entry, IsValid, PteFlags, MakePte, Copying;
    CopiedPage(m, mid, parent, t, free, t', data, u);
  }

  datatype Forked = Copied | Refused | Stuck

  /**
   allocproc's memory and fork's copy of the parent's, in a slot whose last process had `stale` bytes. It succeeds
   exactly when there are pages for the trapframe, the tables and the copies. If not, everything taken is free again,
   unless a page table has to be freed while the stale size is not 0: then uvmunmap panics.
   */
  method ForkSpace(m: PhysMem, ghost parent: Tree, oldroot: nat, sz: nat, stale: nat, trampoline: nat)
    returns (r: Forked, trapframe: nat, root: nat, ghost t: Tree, ghost data: seq<nat>)
    requires m.Valid() && oldroot == parent.root && trampoline % PGSIZE == 0 && trampoline !in m.free
    requires ParentOk(m.ram, parent, m.free, PageCount(sz))
    modifies m
    ensures r.Copied? <==> 4 + UserCost(PageCount(sz)) <= |old(m.free)|
    ensures r.Stuck? <==> 4 <= |old(m.free)| < 4 + UserCost(PageCount(sz)) && stale > 0
    ensures r.Refused? ==> m.Valid() && Elems(m.free) == Elems(old(m.free))
    ensures !r.Stuck? ==> SameOutside(old(m.ram), m.ram, Elems(old(m.free)))
    ensures r.Copied? ==> VmOk(m, t) && t.root == root && |data| == PageCount(sz)
    ensures r.Copied? ==> forall u: nat :: u < |data| ==> CopyOf(old(m.ram), parent, m.ram, t, data, u)
  {
    hide TreeOk, Tables, Entry, IsList, UserSpace, KernelTables, KernelPages, Apart, Copying, CopyOf, Unmappable,
         UserCost, Affords, Grown, Cleared, ParentOk, OwnedAt, Process, Freeable, PgRoundUp;
    ghost var ram, free, n := m.ram, m.free, PageCount(sz);
    root, t, data := 0, parent, [];
    trapframe := m.Kalloc();
    if trapframe == 0 {
      return Refused, trapframe, root, t, data;
    }
    FirstPage(m, free);
    ghost var rest := m.free;
    root, t := ProcPagetable.ProcPagetable(m, trampoline, trapframe);
    SameOutsideTrans(ram, ram[trapframe := Filled(5)], m.ram, Elems(free), Elems(rest));
    if root == 0 {
      ghost var left := m.free;
      assert trapframe !in Elems(left);
      var o := m.Kfree(trapframe);
      Returned(free, left, trapframe, m.free);
      return Refused, trapframe, root, t, data;
    }
    NewProcess(m, t, rest, trampoline, trapframe);
    IsSpace(m.ram, t, m.free, Elems(rest));
    ghost var mid, left := m.ram, m.free;
    ParentApart(ram, parent, free, n, mid, t, left);
    SmallParent(ram, parent, free, n);
    ForkCost(m, t, n);
    var c;
    ghost var t';
    c, t', data := Uvmcopy.Uvmcopy(m, parent, oldroot, t, root, sz);
    assert c != Halt;
    ghost var more := m.ram;
    if c == Ok {
      forall u: nat | u < |data| ensures CopyOf(ram, parent, m.ram, t', data, u) {
        Copies(m, ram, parent, mid, t, left, t', data, u);
      }
      CopiedChild(m, mid, parent, t, left, t', data);
      SameOutsideTrans(ram, mid, m.ram, Elems(free), Pool(t, left));
      return Copied, trapframe, root, t', data;
    }
    GrownSame(mid, t, left, more, t', m.free, Cleared(|data|));
    SameOutsideTrans(ram, mid, more, Elems(free), Pool(t, left));
    var o := Freeproc(m, mid, t, left, t', |data|, root, trapframe, stale, free);
    if o == Panic {
      return Stuck, trapframe, root, t', data;
    }
    SameOutsideTrans(ram, more, m.ram, Elems(free), Elems(free));
    return Refused, trapframe, root, t', data;
  }

  /** freeproc of a process whose memory could not be copied: it panics exactly when the size it finds is not 0. */
  method Freeproc(m: PhysMem, ghost ram: Ram, ghost t: Tree, ghost free: seq<nat>, ghost t': Tree, ghost k: nat,
                  root: nat, trapframe: nat, stale: nat, ghost all: seq<nat>)
    returns (o: Outcome)
    requires VmOk(m, t') && root == t'.root && k <= TRAPFRAME_VPN && UserSpace(ram, t, 0)
    requires Grown(ram, t, free, m.ram, t', m.free, Cleared(k), [])
    requires Pool(t, free) == Elems(all) - {trapframe} && trapframe in all && trapframe in m.ram
    modifies m
    ensures o == Panic <==> stale > 0
    ensures o == Done ==> m.Valid() && Elems(m.free) == Elems(all) && SameOutside(old(m.ram), m.ram, Elems(all))
  {
    hide TreeOk, Tables, Entry, IsList, UserSpace, Grown, Cleared, Freeable, PgRoundUp;
    ghost var page, was := Filled(1)[0 := m.freelist], m.free;
    FailedChild(ram, t, free, m.ram, t', was, k, trapframe, page, m.ram[trapframe := page], all);
    o := m.Kfree(trapframe);
    ghost var freed := m.ram;
    assert trapframe in Elems(all);
    FreedVm(m, t', was, trapframe);
    o := ProcFreepagetable(m, t', root, stale, 0, Elems(all));
    NoPagesIff(stale);
    if o == Done {
      SameOutsideTrans(old(m.ram), freed, m.ram, Elems(all), Elems(all));
    }
  }

  /** The first free page is in nobody's hands but kalloc's caller's. */
  lemma FirstPage(m: PhysMem, free: seq<nat>)
    requires free != [] && Distinct(free) && m.free == free[1..]
    ensures free[0] !in m.free && Elems(m.free) == Elems(free) - {free[0]}
  {
    assert free == [free[0]] + free[1..];
  }

  lemma Returned(free: seq<nat>, rest: seq<nat>, pa: nat, last: seq<nat>)
    requires pa in free && Elems(rest) == Elems(free) - {pa} && last == [pa] + rest
    ensures Elems(last) == Elems(free)
  {
    assert Elems(last) == {pa} + Elems(rest);
  }

  lemma IsSpace(ram: Ram, t: Tree, free: seq<nat>, stock: set<nat>)
    requires Process(ram, t, free, 0, stock)
    ensures UserSpace(ram, t, 0)
  {
  }

  lemma SmallParent(ram: Ram, parent: Tree, free: seq<nat>, n: nat)
    requires ParentOk(ram, parent, free, n)
    ensures n <= TRAPFRAME_VPN
  {
  }

  lemma CopiedChild(m: PhysMem, ram: Ram, parent: Tree, t: Tree, free: seq<nat>, t': Tree, data: seq<nat>)
    requires Copying(m, ram, parent, t, free, t', data)
    ensures VmOk(m, t') && t'.root == t.root && SameOutside(ram, m.ram, Pool(t, free))
  {
  }

  lemma GrownSame(ram: Ram, t: Tree, free: seq<nat>, more: Ram, t': Tree, rest: seq<nat>, delta: map<nat, nat>)
    requires Grown(ram, t, free, more, t', rest, delta, [])
    ensures SameOutside(ram, more, Pool(t, free)) && t'.root == t.root
  {
  }

  lemma FreedVm(m: PhysMem, t: Tree, rest: seq<nat>, pa: nat)
    requires m.Valid() && TreeOk(m.ram, t) && m.free == [pa] + rest && pa !in Tables(t) && Tables(t) !! Elems(rest)
    ensures VmOk(m, t)
  {
    assert Elems(m.free) == {pa} + Elems(rest);
  }

  lemma NoPagesIff(sz: nat)
    ensures PageCount(sz) == 0 <==> sz == 0
  {
  }
}
