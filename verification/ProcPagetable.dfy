/**
 Page tables of processes (kernel/src/vm.c uvmcreate and uvmfree, kernel/src/proc.c proc_pagetable
 and proc_freepagetable) and the conservation of pages over their whole life.
 */
module ProcPagetable {
  import opened Common
  import opened Collections
  import opened Sv39
  import opened Kalloc
  import opened PageTable
  import opened PageWalk
  import opened Mappages
  import opened Unmap
  import opened Freewalk
  import opened TableCost
  import opened Uvm

  /** Exactly the page numbers below n are mapped, by entries uvmunmap accepts and to pages kfree accepts. */
  ghost predicate OnlyBelow(ram: Ram, t: Tree, n: nat) {
    && (forall u: nat :: u < n ==> CanClear(ram, t, u, true))
    && (forall u: nat :: u >= n ==> !IsValid(Entry(ram, t, u)))
  }

  lemma AfterUnmap(ram: Ram, t: Tree, free: seq<nat>, more: Ram, rest: seq<nat>, n: nat, released: seq<nat>)
    requires Unmapped(ram, t, free, more, rest, 0, n, released) && LeavesOnly(ram, t)
    ensures LeavesOnly(more, t) && TreeOk(more, t)
    ensures (forall v: nat :: !IsValid(Entry(more, t, v))) <==> forall u: nat :: u >= n ==> !IsValid(Entry(ram, t, u))
  {
    forall u: nat | u >= n ensures Entry(more, t, u) == Entry(ram, t, u) {
    }
  }

  /** The pages behind the page numbers below n. */
  function UserPages(ram: Ram, t: Tree, n: nat): set<nat> {
    set u: nat | 0 <= u < n :: PageOf(ram, t, u)
  }

  lemma {:induction false} ReleasedIsUserPages(ram: Ram, t: Tree, n: nat)
    ensures Elems(Released(ram, t, 0, n)) == UserPages(ram, t, n)
  {
    if n > 0 {
      ReleasedIsUserPages(ram, t, n - 1);
      var last, r := PageOf(ram, t, n - 1), Released(ram, t, 0, n - 1);
      assert Elems([last] + r) == {last} + Elems(r);
      assert UserPages(ram, t, n) == UserPages(ram, t, n - 1) + {last};
    }
  }

  /**
   uvmfree: with exactly the pages of [0, sz) mapped, every data page and every table goes back to
   the free list; otherwise uvmunmap or freewalk panics.
   */
  method Uvmfree(m: PhysMem, ghost t: Tree, root: nat, sz: nat, ghost lim: nat) returns (o: Outcome)
    requires VmOk(m, t) && root == t.root && LeavesOnly(m.ram, t)
    requires lim <= PageCount(sz) && (lim < PageCount(sz) ==> !CanUnmap(m.ram, t, lim))
    requires OwnedAt(m.ram, t, m.free, 0, lim)
    modifies m
    ensures o == Done <==> OnlyBelow(old(m.ram), t, PageCount(sz))
    ensures o == Done ==>
              var gone := UserPages(old(m.ram), t, PageCount(sz)) + Tables(t);
              m.Valid() && Elems(m.free) == Elems(old(m.free)) + gone && SameOutside(old(m.ram), m.ram, gone)
  {
    hide TreeOk, Tables, CanUnmap, CanClear, IsValid, Entry, Unmapped, Reach, Proper, NoLeaf, OwnedAt, LeavesOnly,
         Released;
    ghost var n := PageCount(sz);
    ghost var released := Released(m.ram, t, 0, n);
    NothingUnmapped(m.ram, t, m.free, 0, true);
    if sz > 0 {
      var p, _ := Uvmunmap(m, t, root, 0, PageCount(sz), true, lim);
      if p == Panic {
        return Panic;
      }
    }
    ghost var mid, rest := m.ram, m.free;
    assert Unmapped(old(m.ram), t, old(m.free), mid, rest, 0, n, released);
    AfterUnmap(old(m.ram), t, old(m.free), mid, rest, n, released);
    TreeReach(mid, t);
    o := Freewalk.Freewalk(m, root, 2);
    if o == Done {
      ReleasedIsUserPages(old(m.ram), t, n);
      AllGone(old(m.ram), t, old(m.free), mid, rest, n, released, m.ram, m.free);
    }
  }

  lemma AllGone(ram: Ram, t: Tree, free: seq<nat>, mid: Ram, rest: seq<nat>, n: nat, released: seq<nat>, more: Ram,
                last: seq<nat>)
    requires Unmapped(ram, t, free, mid, rest, 0, n, released)
    requires SameOutside(mid, more, Tables(t)) && Elems(last) == Elems(rest) + Tables(t)
    ensures Elems(last) == Elems(free) + (Elems(released) + Tables(t))
    ensures SameOutside(ram, more, Elems(released) + Tables(t))
  {
    assert Elems(released + free) == Elems(released) + Elems(free);
    assert Tables(t) + Elems(released) == Elems(released) + Tables(t);
    SameOutsideTrans(ram, mid, more, Elems(released) + Tables(t), Tables(t));
  }

  /** uvmcreate: a zeroed root, or 0. */
  method Uvmcreate(m: PhysMem) returns (root: nat, ghost t: Tree)
    requires m.Valid()
    modifies m
    ensures root == 0 <==> old(m.free) == []
    ensures root == 0 ==> m.Valid() && m.ram == old(m.ram) && m.free == old(m.free)
    ensures root != 0 ==>
              && t == Tree(root, map[], map[]) && VmOk(m, t) && root == old(m.free)[0] && m.free == old(m.free)[1..]
              && SameOutside(old(m.ram), m.ram, {root}) && Tables(t) == {root}
              && forall v: nat :: Entry(m.ram, t, v) == 0
  {
    root := m.Kalloc();
    t := Tree(root, map[], map[]);
    if root != 0 {
      m.Store(root, Filled(0));
      EmptyTree(m.ram, root);
      HeadTaken(old(m.free));
      assert root !in Elems(m.free);
    }
  }

  /** Tables and free pages together: what mapping kernel-owned pages leaves unchanged. */
  function Pool(t: Tree, free: seq<nat>): set<nat> {
    Tables(t) + Elems(free)
  }

  lemma EditKeepsPool(ram: Ram, t: Tree, free: seq<nat>, more: Ram, t': Tree, rest: seq<nat>, delta: map<nat, nat>)
    requires Edited(ram, t, free, more, t', rest, delta)
    ensures Pool(t', rest) == Pool(t, free) && SameOutside(ram, more, Pool(t, free))
  {
    var k := |free| - |rest|;
    assert free == free[..k] + free[k..];
    assert Elems(free) == Elems(free[..k]) + Elems(rest);
  }

  /** The entries proc_pagetable installs. */
  function KernelPages(trampoline: nat, trapframe: nat): map<nat, nat> {
    map[TRAMPOLINE_VPN := MakePte(trampoline, PTE_R + PTE_X), TRAPFRAME_VPN := MakePte(trapframe, PTE_R + PTE_W)]
  }

  /** The entry maps page pa with exactly these flags. */
  predicate Maps(pte: nat, pa: nat, flags: nat) {
    Pte2Pa(pte) == pa && PteFlags(pte) == flags
  }

  /** The user can use neither page; the trampoline can be executed, the trapframe written. */
  lemma KernelEntries(trampoline: nat, trapframe: nat)
    requires trampoline % PGSIZE == 0 && trapframe % PGSIZE == 0
    ensures var k := KernelPages(trampoline, trapframe);
            && TRAMPOLINE_VPN in k && Maps(k[TRAMPOLINE_VPN], trampoline, PTE_V + PTE_R + PTE_X)
            && TRAPFRAME_VPN in k && Maps(k[TRAPFRAME_VPN], trapframe, PTE_V + PTE_R + PTE_W)
  {
    PteRoundTrip(trampoline, PTE_R + PTE_X);
    PteRoundTrip(trapframe, PTE_R + PTE_W);
  }

  /** uvmfree(pagetable, 0) of a table with no mapping left. */
  method FreeEmpty(m: PhysMem, ghost t: Tree, root: nat)
    requires VmOk(m, t) && root == t.root && forall v: nat :: !IsValid(Entry(m.ram, t, v))
    modifies m
    ensures m.Valid() && Elems(m.free) == Pool(t, old(m.free)) && SameOutside(old(m.ram), m.ram, Tables(t))
  {
    hide TreeOk, Tables, IsValid, Entry;
    assert OwnedAt(m.ram, t, m.free, 0, 0);
    var o := Uvmfree(m, t, root, 0, 0);
    assert UserPages(old(m.ram), t, 0) == {};
  }

  lemma FirstMapping(ram: Ram, t: Tree, free: seq<nat>, more: Ram, t': Tree, rest: seq<nat>, r: Status, pte: nat)
    requires Edited(ram, t, free, more, t', rest, OneEntry(r, TRAMPOLINE, pte))
    requires forall v: nat :: Entry(ram, t, v) == 0
    ensures t'.root == t.root
    ensures forall v: nat :: Entry(more, t', v) == if r == Ok && v == TRAMPOLINE_VPN then pte else 0
  {
  }

  lemma SecondMapping(ram: Ram, t: Tree, free: seq<nat>, more: Ram, t': Tree, rest: seq<nat>, r: Status, pte: nat,
                      first: nat)
    requires Edited(ram, t, free, more, t', rest, OneEntry(r, TRAPFRAME, pte))
    requires forall v: nat :: Entry(ram, t, v) == if v == TRAMPOLINE_VPN then first else 0
    ensures t'.root == t.root
    ensures forall v: nat :: Entry(more, t', v) ==
              if v == TRAMPOLINE_VPN then first else if r == Ok && v == TRAPFRAME_VPN then pte else 0
  {
  }

  /** The tables of an address space with only the two kernel pages: a root, a middle and a bottom table. */
  predicate KernelTables(t: Tree) {
    t.mid.Keys == {PAGES / PTES / PTES - 1} && t.low.Keys == {LowKey(PAGES - 1)}
  }

  lemma TrampolineTables(root: nat, t: Tree)
    requires Added(Tree(root, map[], map[]), t, TRAMPOLINE_VPN, 1)
    ensures KernelTables(t)
  {
    RangeNext(TRAMPOLINE_VPN, 0);
  }

  lemma TrampolineCost(root: nat)
    ensures NewTables(Tree(root, map[], map[]), TRAMPOLINE_VPN, 1) == 2
  {
    var t := Tree(root, map[], map[]);
    hide NewTables, Added, MidKey, LowKey;
    NothingAdded(t, TRAMPOLINE_VPN);
    NewTablesOne(t, t, TRAMPOLINE_VPN, 0);
  }

  /** The trapframe is mapped through the same tables as the trampoline. */
  lemma TrapframeTables(t: Tree, t': Tree)
    requires KernelTables(t)
    ensures NewTables(t, TRAPFRAME_VPN, 1) == 0
    ensures Added(t, t', TRAPFRAME_VPN, 1) ==> KernelTables(t')
  {
    RangeNext(TRAPFRAME_VPN, 0);
    assert MidKey(TRAPFRAME_VPN) == PAGES / PTES / PTES - 1 && LowKey(TRAPFRAME_VPN) == LowKey(PAGES - 1);
    hide MidKey, LowKey, Mids, Lows;
  }

  /**
   proc_pagetable: it takes three pages for the tables and fails exactly when there are fewer, and
   then everything taken is returned. Trampoline and trapframe are mapped and nothing else. Mapping
   the trapframe cannot fail, because the trampoline's tables are there already.
   */
  method ProcPagetable(m: PhysMem, trampoline: nat, trapframe: nat) returns (root: nat, ghost t: Tree)
    requires m.Valid() && trampoline % PGSIZE == 0 && trapframe % PGSIZE == 0
    modifies m
    ensures m.Valid() && SameOutside(old(m.ram), m.ram, Elems(old(m.free)))
    ensures root == 0 <==> |old(m.free)| < 3
    ensures root == 0 ==> Elems(m.free) == Elems(old(m.free))
    ensures root != 0 ==> KernelTables(t) && |m.free| + 3 == |old(m.free)|
    ensures root != 0 ==> VmOk(m, t) && root == t.root && Pool(t, m.free) == Elems(old(m.free))
    ensures root != 0 ==>
              forall v: nat :: Entry(m.ram, t, v) ==
                if v in KernelPages(trampoline, trapframe) then KernelPages(trampoline, trapframe)[v] else 0
    ensures root != 0 ==>
              && Maps(Entry(m.ram, t, TRAMPOLINE_VPN), trampoline, PTE_V + PTE_R + PTE_X)
              && Maps(Entry(m.ram, t, TRAPFRAME_VPN), trapframe, PTE_V + PTE_R + PTE_W)
  {
    hide TreeOk, Tables, Edited, Entry, IsList, NewTables, Added, KernelTables, Maps;
    KernelEntries(trampoline, trapframe);
    root, t := Uvmcreate(m);
    if root == 0 {
      return;
    }
    ghost var free, ram1, t1, free1 := old(m.free), m.ram, t, m.free;
    assert Pool(t1, free1) == Elems(free) by { HeadBack(free, t1); }
    var r;
    TrampolineCost(root);
    assert TRAMPOLINE / PGSIZE == TRAMPOLINE_VPN && TRAPFRAME / PGSIZE == TRAPFRAME_VPN;
    r, t := MapPage(m, t, root, TRAMPOLINE, trampoline, PTE_R + PTE_X);
    var tramp := MakePte(trampoline, PTE_R + PTE_X);
    FirstMapping(ram1, t1, free1, m.ram, t, m.free, r, tramp);
    EditKeepsPool(ram1, t1, free1, m.ram, t, m.free, OneEntry(r, TRAMPOLINE, tramp));
    SameOutsideTrans(old(m.ram), ram1, m.ram, Elems(free), Elems(free));
    if r == NoMem {
      ghost var ram2 := m.ram;
      FreeEmpty(m, t, root);
      SameOutsideTrans(old(m.ram), ram2, m.ram, Elems(free), Tables(t));
      root := 0;
      return;
    }
    ghost var ram2, t2, free2 := m.ram, t, m.free;
    TrampolineTables(root, t);
    TrapframeTables(t, t);
    r, t := MapPage(m, t, root, TRAPFRAME, trapframe, PTE_R + PTE_W);
    if r == NoMem {
      assert false;
    }
    TrapframeTables(t2, t);
    var frame := MakePte(trapframe, PTE_R + PTE_W);
    SecondMapping(ram2, t2, free2, m.ram, t, m.free, r, frame, tramp);
    EditKeepsPool(ram2, t2, free2, m.ram, t, m.free, OneEntry(r, TRAPFRAME, frame));
    SameOutsideTrans(old(m.ram), ram2, m.ram, Elems(free), Elems(free));
  }

  lemma HeadBack(free: seq<nat>, t: Tree)
    requires free != [] && Tables(t) == {free[0]}
    ensures Pool(t, free[1..]) == Elems(free)
  {
    assert free == [free[0]] + free[1..];
  }

  /** A process's address space: n user pages from 0 on, the trampoline and the trapframe. */
  ghost predicate UserSpace(ram: Ram, t: Tree, n: nat) {
    && n <= TRAPFRAME_VPN
    && (forall u: nat :: u < n ==> CanClear(ram, t, u, true) && IsLeaf(Entry(ram, t, u)))
    && (forall u: nat :: u == TRAMPOLINE_VPN || u == TRAPFRAME_VPN ==> CanUnmap(ram, t, u) && IsLeaf(Entry(ram, t, u)))
    && (forall u: nat :: u >= n && u != TRAMPOLINE_VPN && u != TRAPFRAME_VPN ==> !IsValid(Entry(ram, t, u)))
  }

  /**
   An address space of n user pages in which every page is in use by one page number alone, made out
   of a stock of pages: its tables, its user pages and what is still free.
   */
  ghost predicate Process(ram: Ram, t: Tree, free: seq<nat>, n: nat, stock: set<nat>) {
    UserSpace(ram, t, n) && OwnedAt(ram, t, free, 0, PAGES) && Pool(t, free) + UserPages(ram, t, n) == stock
  }

  /** What freeing asks for: the pages behind the kernel's page numbers may be free already. */
  ghost predicate Freeable(ram: Ram, t: Tree, free: seq<nat>, n: nat, stock: set<nat>) {
    UserSpace(ram, t, n) && OwnedAt(ram, t, free, 0, n) && Pool(t, free) + UserPages(ram, t, n) == stock
  }

  lemma ProcessIsFreeable(ram: Ram, t: Tree, free: seq<nat>, n: nat, stock: set<nat>)
    requires Process(ram, t, free, n, stock)
    ensures Freeable(ram, t, free, n, stock)
  {
  }

  /** The kernel pages are gone and the rest is as it was. */
  ghost predicate WithoutKernelPages(ram: Ram, t: Tree, more: Ram) {
    && more.Keys == ram.Keys
    && forall u: nat :: Entry(more, t, u) == if u == TRAMPOLINE_VPN || u == TRAPFRAME_VPN then 0 else Entry(ram, t, u)
  }

  lemma UserPagesKept(ram: Ram, t: Tree, more: Ram, n: nat)
    requires n <= TRAPFRAME_VPN && WithoutKernelPages(ram, t, more)
    ensures UserPages(more, t, n) == UserPages(ram, t, n)
  {
    hide Entry, Pte2Pa;
    forall u: nat | u < n ensures PageOf(more, t, u) == PageOf(ram, t, u) {
    }
  }

  lemma SameBound(ram: Ram, t: Tree, n: nat, k: nat)
    requires OnlyBelow(ram, t, n) && OnlyBelow(ram, t, k)
    ensures k == n
  {
    hide Entry, IsValid, PteFlags, Pte2Pa;
    assert k < n ==> CanClear(ram, t, k, true) && !IsValid(Entry(ram, t, k));
    assert n < k ==> CanClear(ram, t, n, true) && !IsValid(Entry(ram, t, n));
  }

  /** After the two kernel pages are unmapped only the user pages are left, and they are still owned. */
  lemma OnlyUserPages(ram: Ram, t: Tree, free: seq<nat>, more: Ram, n: nat)
    requires UserSpace(ram, t, n) && OwnedAt(ram, t, free, 0, n) && WithoutKernelPages(ram, t, more)
    ensures OnlyBelow(more, t, n) && LeavesOnly(more, t) && OwnedAt(more, t, free, 0, n)
    ensures forall k: nat :: OnlyBelow(more, t, k) ==> k == n
  {
    hide Tables, Entry, PteFlags, Pte2Pa, IsLeaf;
    assert !IsValid(0);
    hide IsValid;
    forall u: nat | u < n ensures CanClear(more, t, u, true) && IsLeaf(Entry(more, t, u)) {
      assert CanClear(ram, t, u, true);
    }
    forall u: nat | u < n ensures CanUnmap(ram, t, u) && PageOf(more, t, u) == PageOf(ram, t, u) {
      assert CanClear(ram, t, u, true);
    }
    forall k: nat | OnlyBelow(more, t, k) ensures k == n {
      SameBound(more, t, n, k);
    }
  }

  /** proc_freepagetable's first two calls: the kernel pages are unmapped and stay allocated. */
  method DropKernelPages(m: PhysMem, ghost t: Tree, root: nat, ghost n: nat)
    requires VmOk(m, t) && root == t.root && UserSpace(m.ram, t, n)
    modifies m
    ensures VmOk(m, t) && m.free == old(m.free) && SameOutside(old(m.ram), m.ram, Tables(t))
    ensures WithoutKernelPages(old(m.ram), t, m.ram)
  {
    hide TreeOk, Tables, Entry, IsValid, IsLeaf;
    assert Elems([]) == {} && [] + old(m.free) == old(m.free);
    assert CanUnmap(m.ram, t, TRAMPOLINE_VPN) && CanUnmap(m.ram, t, TRAPFRAME_VPN);
    var o, k := Uvmunmap(m, t, root, TRAMPOLINE, 1, false, 1);
    ghost var mid := m.ram;
    assert Entry(mid, t, TRAPFRAME_VPN) == Entry(old(m.ram), t, TRAPFRAME_VPN);
    assert CanUnmap(mid, t, TRAPFRAME_VPN);
    o, k := Uvmunmap(m, t, root, TRAPFRAME, 1, false, 1);
    SameOutsideTrans(old(m.ram), mid, m.ram, Tables(t), Tables(t));
  }

  /**
   proc_freepagetable on a space of n user pages: it panics exactly when it is told another number of pages, and
   otherwise every table and every user page is free again.
   */
  method ProcFreepagetable(m: PhysMem, ghost t: Tree, root: nat, sz: nat, ghost n: nat, ghost stock: set<nat>)
    returns (o: Outcome)
    requires VmOk(m, t) && root == t.root && Freeable(m.ram, t, m.free, n, stock)
    modifies m
    ensures o == Done <==> PageCount(sz) == n
    ensures o == Done ==> m.Valid() && Elems(m.free) == stock && SameOutside(old(m.ram), m.ram, stock)
  {
    hide TreeOk, Tables, Entry, OwnedAt, UserSpace, OnlyBelow, LeavesOnly, Released, UserPages, WithoutKernelPages;
    DropKernelPages(m, t, root, n);
    ghost var mid := m.ram;
    OnlyUserPages(old(m.ram), t, old(m.free), mid, n);
    assert n <= TRAPFRAME_VPN by { SmallSpace(old(m.ram), t, n); }
    UserPagesKept(old(m.ram), t, mid, n);
    ghost var lim := if PageCount(sz) < n then PageCount(sz) else n;
    UpTo(mid, t, m.free, n, lim);
    o := Uvmfree(m, t, root, sz, lim);
    if o == Done {
      SameOutsideTrans(old(m.ram), mid, m.ram, stock, UserPages(mid, t, n) + Tables(t));
    }
  }

  lemma UpTo(ram: Ram, t: Tree, free: seq<nat>, n: nat, lim: nat)
    requires OnlyBelow(ram, t, n) && OwnedAt(ram, t, free, 0, n) && lim <= n
    ensures OwnedAt(ram, t, free, 0, lim) && (lim == n ==> !CanUnmap(ram, t, lim))
  {
    hide Entry, Tables, IsValid, PteFlags;
  }

  lemma SmallSpace(ram: Ram, t: Tree, n: nat)
    requires UserSpace(ram, t, n)
    ensures n <= TRAPFRAME_VPN && EndsAt(ram, t, n)
  {
  }

  /** One page number of a space that has grown from n to n + |data| user pages. */
  lemma GrownSpaceAt(m: PhysMem, ram: Ram, t: Tree, free: seq<nat>, t': Tree, n: nat, perm: nat, data: seq<nat>, u: nat)
    requires 2 <= perm < 1024 && perm / 2 % 8 != 0 && Growing(m, ram, t, free, t', n, perm, data)
    requires UserSpace(ram, t, n) && n + |data| <= TRAPFRAME_VPN && OwnedAt(ram, t, free, 0, PAGES)
    requires ram.Keys == m.ram.Keys
    ensures u < n + |data| ==> CanClear(m.ram, t', u, true) && IsLeaf(Entry(m.ram, t', u))
    ensures u < n + |data| ==> PageOf(m.ram, t', u) == if u < n then PageOf(ram, t, u) else data[u - n]
    ensures !(n <= u < n + |data|) ==> Entry(m.ram, t', u) == Entry(ram, t, u)
  {
    hide TreeOk, Tables, Grown, Entry, PteFlags, Pte2Pa, IsLeaf, IsValid;
    if n <= u < n + |data| {
      assert m.Managed(data[u - n]);
      DataEntry(ram, t, free, m.ram, t', m.free, n, perm, data, u - n);
      PteRoundTrip(data[u - n], perm);
    } else {
      NotInDelta(ram, t, free, m.ram, t', m.free, DataMap(n, data, perm), data, u);
      assert u < n ==> CanClear(ram, t, u, true);
    }
  }

  lemma GrownStock(m: PhysMem, ram: Ram, t: Tree, free: seq<nat>, t': Tree, n: nat, perm: nat, data: seq<nat>)
    requires perm < 1024 && Growing(m, ram, t, free, t', n, perm, data)
    ensures VmOk(m, t') && t'.root == t.root && SameOutside(ram, m.ram, Pool(t, free))
    ensures Pool(t, free) == Pool(t', m.free) + Elems(data)
  {
  }

  lemma GrownUserPages(ram: Ram, t: Tree, more: Ram, t': Tree, n: nat, data: seq<nat>)
    requires forall u: nat :: u < n + |data| ==> PageOf(more, t', u) == if u < n then PageOf(ram, t, u) else data[u - n]
    ensures UserPages(more, t', n + |data|) == UserPages(ram, t, n) + Elems(data)
  {
    hide PageOf;
    var all := UserPages(more, t', n + |data|);
    forall x | x in UserPages(ram, t, n) ensures x in all {
      var u: nat :| u < n && x == PageOf(ram, t, u);
      assert PageOf(more, t', u) == x;
    }
    forall x | x in data ensures x in all {
      var i :| 0 <= i < |data| && data[i] == x;
      assert PageOf(more, t', n + i) == x;
    }
  }

  /** What uvmalloc adds becomes part of the process, out of the same stock. */
  lemma ProcessGrown(m: PhysMem, ram: Ram, t: Tree, free: seq<nat>, t': Tree, n: nat, perm: nat, data: seq<nat>,
                     stock: set<nat>)
    requires 2 <= perm < 1024 && perm / 2 % 8 != 0 && Growing(m, ram, t, free, t', n, perm, data)
    requires Process(ram, t, free, n, stock) && n + |data| <= TRAPFRAME_VPN
    ensures Process(m.ram, t', m.free, n + |data|, stock) && VmOk(m, t') && t'.root == t.root
    ensures SameOutside(ram, m.ram, stock)
  {
    hide TreeOk, Tables, Growing, Entry, OwnedAt, CanClear, CanUnmap, IsLeaf, IsValid, PageOf, Pool, UserPages;
    GrownStock(m, ram, t, free, t', n, perm, data);
    OwnedGrown(m, ram, t, free, t', n, perm, data, 0, PAGES);
    forall u: nat
      ensures u < n + |data| ==> CanClear(m.ram, t', u, true) && IsLeaf(Entry(m.ram, t', u))
      ensures u < n + |data| ==> PageOf(m.ram, t', u) == if u < n then PageOf(ram, t, u) else data[u - n]
      ensures !(n <= u < n + |data|) ==> Entry(m.ram, t', u) == Entry(ram, t, u)
    {
      GrownSpaceAt(m, ram, t, free, t', n, perm, data, u);
    }
    GrownUserPages(ram, t, m.ram, t', n, data);
    forall u: nat | u == TRAMPOLINE_VPN || u == TRAPFRAME_VPN ensures CanUnmap(m.ram, t', u) {
      SameEntryUnmaps(ram, t, m.ram, t', u);
    }
  }

  lemma SameEntryUnmaps(ram: Ram, t: Tree, more: Ram, t': Tree, u: nat)
    requires Entry(more, t', u) == Entry(ram, t, u)
    ensures CanUnmap(more, t', u) <==> CanUnmap(ram, t, u)
  {
  }

  lemma BuiltKernelPages(ram: Ram, t: Tree, trampoline: nat, trapframe: nat, u: nat)
    requires trampoline % PGSIZE == 0 && trapframe % PGSIZE == 0
    requires Entry(ram, t, u) == if u in KernelPages(trampoline, trapframe) then KernelPages(trampoline, trapframe)[u]
                                 else 0
    ensures u == TRAMPOLINE_VPN || u == TRAPFRAME_VPN ==> CanUnmap(ram, t, u) && IsLeaf(Entry(ram, t, u))
    ensures u == TRAMPOLINE_VPN ==> PageOf(ram, t, u) == trampoline
    ensures u == TRAPFRAME_VPN ==> PageOf(ram, t, u) == trapframe
    ensures u != TRAMPOLINE_VPN && u != TRAPFRAME_VPN ==> !IsValid(Entry(ram, t, u))
  {
    PteRoundTrip(trampoline, PTE_R + PTE_X);
    PteRoundTrip(trapframe, PTE_R + PTE_W);
  }

  /** The trampoline is kernel text and the trapframe a page in use: neither is free. */
  predicate KernelOwned(free: seq<nat>, trampoline: nat, trapframe: nat) {
    && trampoline % PGSIZE == 0 && trapframe % PGSIZE == 0 && trampoline != trapframe
    && trampoline !in free && trapframe !in free
  }

  /** What proc_pagetable built is a process without user pages. */
  lemma NewProcess(m: PhysMem, t: Tree, free: seq<nat>, trampoline: nat, trapframe: nat)
    requires VmOk(m, t) && Pool(t, m.free) == Elems(free) && KernelOwned(free, trampoline, trapframe)
    requires forall v: nat :: Entry(m.ram, t, v) ==
               if v in KernelPages(trampoline, trapframe) then KernelPages(trampoline, trapframe)[v] else 0
    ensures Process(m.ram, t, m.free, 0, Elems(free))
  {
    hide TreeOk, Tables, KernelPages, Entry, IsValid, IsLeaf, PteFlags, Pte2Pa;
    forall u: nat
      ensures u == TRAMPOLINE_VPN || u == TRAPFRAME_VPN ==> CanUnmap(m.ram, t, u) && IsLeaf(Entry(m.ram, t, u))
      ensures u == TRAMPOLINE_VPN ==> PageOf(m.ram, t, u) == trampoline
      ensures u == TRAPFRAME_VPN ==> PageOf(m.ram, t, u) == trapframe
      ensures u != TRAMPOLINE_VPN && u != TRAPFRAME_VPN ==> !IsValid(Entry(m.ram, t, u))
    {
      BuiltKernelPages(m.ram, t, trampoline, trapframe, u);
    }
    assert trampoline !in Elems(free) && trapframe !in Elems(free);
    assert UserPages(m.ram, t, 0) == {};
  }

  /** The free pages that n user pages and their tables cost. */
  function UserCost(n: nat): nat {
    if n == 0 then 0 else n + 1 + (n + PTES - 1) / PTES
  }

  /**
   In terms of the tree: a process that has only its kernel pages can grow to n pages exactly when it can pay
   for them.
   */
  lemma GrowthFits(m: PhysMem, t: Tree, n: nat)
    requires VmOk(m, t) && KernelTables(t) && UserSpace(m.ram, t, 0)
    ensures Vacant(m.ram, t, 0, n) && Affords(t, 0, n, |m.free|) <==> UserCost(n) <= |m.free|
    ensures Affords(t, 0, 1, |m.free|) <==> 3 <= |m.free|
  {
    hide TreeOk, Tables, NewTables, IsList;
    m.FreeFits();
    UserTables(t, 1);
    NothingAdded(t, 0);
    if 0 < n <= PTES * PTES {
      UserTables(t, n);
    }
    if n <= PTES * PTES {
      forall u: nat | u < n ensures VacantAt(m.ram, t, u) {
      }
    }
  }

  /**
   Page conservation over a process's life: create the page table, grow it from 0 to sz, free it. The
   free set is then what it was, and no page outside it was touched. It runs through exactly when
   there are free pages for the three tables, the user pages and their tables; with fewer the free set
   is also what it was, unless growing panics, which it does exactly when it gets past the first page.
   */
  method Lifecycle(m: PhysMem, trampoline: nat, trapframe: nat, sz: nat, xperm: nat) returns (ok: bool, stopped: bool)
    requires m.Valid() && KernelOwned(m.free, trampoline, trapframe)
    requires xperm / 16 == 0 && xperm % 4 == 0
    modifies m
    ensures ok <==> 3 + UserCost(PageCount(sz)) <= |old(m.free)|
    ensures stopped <==> sz > 0 && 6 <= |old(m.free)| < 3 + UserCost(PageCount(sz))
    ensures !stopped ==> m.Valid() && Elems(m.free) == Elems(old(m.free))
    ensures !stopped ==> SameOutside(old(m.ram), m.ram, Elems(old(m.free)))
  {
    hide TreeOk, Tables, Entry, OwnedAt, UserSpace, Growing, KernelPages, Process, Vacant, Affords, Paid;
    stopped, ok := false, false;
    var root;
    ghost var t, stock := Tree(0, map[], map[]), Elems(m.free);
    root, t := ProcPagetable(m, trampoline, trapframe);
    if root == 0 {
      return;
    }
    ghost var ram, free := m.ram, m.free;
    NewProcess(m, t, old(m.free), trampoline, trapframe);
    ghost var n := PageCount(sz);
    StartsEmpty(m.ram, t, m.free, stock, sz);
    GrowthFits(m, t, n);
    var r;
    ghost var t', data;
    r, t', data := Uvmalloc(m, t, root, 0, sz, xperm);
    if r.Stopped? {
      stopped := true;
      return;
    }
    ok := r.Size?;
    ghost var pages := if r.Size? then data else [];
    var used := if r.Size? then sz else 0;
    FewPages(m, ram, t, free, t', PTE_R + PTE_U + xperm, pages);
    ProcessGrown(m, ram, t, free, t', 0, PTE_R + PTE_U + xperm, pages, stock);
    SameOutsideTrans(old(m.ram), ram, m.ram, stock, stock);
    ghost var mid := m.ram;
    ProcessIsFreeable(m.ram, t', m.free, |pages|, stock);
    var o := ProcFreepagetable(m, t', root, used, |pages|, stock);
    SameOutsideTrans(old(m.ram), mid, m.ram, stock, stock);
  }

  lemma StartsEmpty(ram: Ram, t: Tree, free: seq<nat>, stock: set<nat>, sz: nat)
    requires Process(ram, t, free, 0, stock)
    ensures UserSpace(ram, t, 0) && EndsAt(ram, t, PageCount(0)) && OwnedAt(ram, t, free, PageCount(0), PAGES)
    ensures PagesBetween(0, sz) == PageCount(sz) && PageCount(0) == 0
  {
  }

  lemma FewPages(m: PhysMem, ram: Ram, t: Tree, free: seq<nat>, t': Tree, perm: nat, data: seq<nat>)
    requires perm < 1024 && Growing(m, ram, t, free, t', 0, perm, data)
    ensures |data| <= TRAPFRAME_VPN
  {
    GrowingDistinct(m, ram, t, free, t', 0, perm, data);
    DataFits(m, data);
  }
}
