/**
 The user image exec builds (kernel/src/exec.c): the segment loop, loadseg and the two stack pages,
 over the page tables; walkaddr and uvmclear (kernel/src/vm.c).
 */
module ExecLoad {
  import opened Common
  import opened Collections
  import opened Sv39
  import opened Kalloc
  import opened PageTable
  import opened PageWalk
  import opened Mappages
  import opened Unmap
  import opened TableCost
  import opened Uvm
  import opened Uvmcopy
  import opened ProcPagetable
  import UserCopy
  import ExecStack

  type Word = n: nat | n < WORD64 witness 0

  /** A page number the user may access. */
  predicate UserAt(ram: Ram, t: Tree, v: nat) {
    v < PAGES && IsValid(Entry(ram, t, v)) && IsUser(Entry(ram, t, v))
  }

  /** walkaddr: the page the address lies in, if the user may access it; 0 otherwise. */
  method Walkaddr(m: PhysMem, ghost t: Tree, root: nat, va: nat) returns (pa: nat)
    requires VmOk(m, t) && root == t.root
    modifies m
    ensures VmOk(m, t) && m.ram == old(m.ram) && m.free == old(m.free)
    ensures pa == if va < MAXVA && UserAt(m.ram, t, va / PGSIZE) then Pte2Pa(Entry(m.ram, t, va / PGSIZE)) else 0
  {
    hide TreeOk, Tables, Entry, IsValid, IsUser;
    if va >= MAXVA {
      return 0;
    }
    var present, pte := Lookup(m, t, root, va);
    if !present || !IsUser(pte) {
      return 0;
    }
    return Pte2Pa(pte);
  }

  /** The translation that copyin and copyout use. */
  ghost function TransOf(ram: Ram, t: Tree): UserCopy.Trans {
    map v: nat | v < PAGES && UserAt(ram, t, v) :: PaAt(ram, t, v)
  }

  ghost function PaAt(ram: Ram, t: Tree, v: nat): nat {
    Pte2Pa(Entry(ram, t, v))
  }

  /** walkaddr is the lookup in that translation. */
  lemma WalkaddrIsLookup(ram: Ram, t: Tree, va: nat)
    ensures UserCopy.Walkaddr(TransOf(ram, t), va)
         == if va < MAXVA && UserAt(ram, t, va / PGSIZE) then Pte2Pa(Entry(ram, t, va / PGSIZE)) else 0
  {
    assert va / PGSIZE in TransOf(ram, t) ==> TransOf(ram, t)[va / PGSIZE] == PaAt(ram, t, va / PGSIZE);
    assert va / PGSIZE < PAGES <==> va < MAXVA;
  }

  /** A program header: the fields exec uses. */
  datatype Header = Header(load: bool, flags: nat, off: Word, vaddr: Word, filesz: Word, memsz: Word)

  /** flags2perm */
  function Flags2perm(flags: nat): (perm: nat)
    ensures perm / 16 == 0 && perm % 4 == 0
    ensures (perm / PTE_X % 2 == 1 <==> flags % 2 == 1) && (perm / PTE_W % 2 == 1 <==> flags / 2 % 2 == 1)
  {
    (if flags % 2 == 1 then PTE_X else 0) + (if flags / 2 % 2 == 1 then PTE_W else 0)
  }

  /** The flags of page number v's entry. */
  function FlagsAt(ram: Ram, t: Tree, v: nat): nat {
    PteFlags(Entry(ram, t, v))
  }

  /** The flags of a page that the user may read, and write or execute as told. */
  function UserFlags(write: bool, exec: bool): nat {
    PTE_V + PTE_R + PTE_U + (if write then PTE_W else 0) + (if exec then PTE_X else 0)
  }

  /** The flags that the pages of a segment are to have: bit 0 of the header's flags says execute, bit 1 write. */
  function SegmentFlags(ph: Header): nat {
    UserFlags(ph.flags / 2 % 2 == 1, ph.flags % 2 == 1)
  }

  /** The permissions exec asks for give exactly these flags. */
  lemma PermFlags(ph: Header)
    ensures PTE_V + PTE_R + PTE_U + Flags2perm(ph.flags) == SegmentFlags(ph)
  {
    hide Flags2perm;
    var perm := Flags2perm(ph.flags);
    assert perm == perm / 4 * 4 && perm / 4 < 4 && perm / 4 == 2 * (perm / 8) + perm / 4 % 2;
  }

  /** A process of sz bytes out of a stock of pages, whose pages the user may access, and no others. */
  ghost predicate Image(ram: Ram, t: Tree, free: seq<nat>, sz: nat, stock: set<nat>) {
    && Process(ram, t, free, PageCount(sz), stock)
    && forall v: nat :: UserAt(ram, t, v) <==> v < PageCount(sz)
  }

  /** The user pages are different pages of RAM, so there are not more of them than RAM has. */
  lemma ProcessFits(m: PhysMem, t: Tree, n: nat, stock: set<nat>)
    requires m.Valid() && Process(m.ram, t, m.free, n, stock)
    ensures n * PGSIZE <= PHYSTOP - KERNBASE
  {
    hide Pool, UserPages, Entry, IsLeaf, IsValid, Pte2Pa, PteFlags, Tables, IsList;
    var ram := m.ram;
    var pages := seq(n, (u: nat) => PageOf(ram, t, u));
    assert n <= TRAPFRAME_VPN;
    forall u: nat | u < n ensures CanClear(m.ram, t, u, true) && m.Managed(pages[u]) {
    }
    hide PageOf;
    forall x | x in pages ensures x % PGSIZE == 0 && KERNBASE <= x && x + PGSIZE <= PHYSTOP {
      assert m.Managed(x);
    }
    PagesFit(pages);
  }

  /** Stores into pages that are not tables leave the process what it is. */
  lemma ProcessFrame(ram: Ram, more: Ram, t: Tree, free: seq<nat>, sz: nat, stock: set<nat>)
    requires Image(ram, t, free, sz, stock) && more.Keys == ram.Keys
    requires forall v: nat :: Entry(more, t, v) == Entry(ram, t, v)
    ensures Image(more, t, free, sz, stock) && UserPages(more, t, PageCount(sz)) == UserPages(ram, t, PageCount(sz))
  {
    hide Entry, IsLeaf, IsValid, IsUser, Pte2Pa, PteFlags, Tables, Pool;
    var n := PageCount(sz);
    forall u: nat
      ensures PageOf(more, t, u) == PageOf(ram, t, u)
      ensures CanUnmap(more, t, u) <==> CanUnmap(ram, t, u)
      ensures CanClear(more, t, u, true) <==> CanClear(ram, t, u, true)
      ensures UserAt(more, t, u) <==> UserAt(ram, t, u)
    {
      assert Entry(more, t, u) == Entry(ram, t, u);
    }
    assert UserPages(more, t, n) == UserPages(ram, t, n);
  }

  /** What readi does to a page of the segment, and whether it delivered all the bytes asked for. */
  datatype Read = Read(put: Page -> Page, good: bool)

  datatype Loaded = AllRead | Short | NotMapped

  /** The contents of page number v. */
  function PageAt(ram: Ram, t: Tree, v: nat): Page {
    var pa := PageOf(ram, t, v);
    if pa in ram then ram[pa] else Filled(0)
  }

  /** What page number v holds after k pages were read in from va on, if it held `was`. */
  function ReadInto(va: nat, file: nat -> Read, k: nat, v: nat, was: Page): Page {
    if va / PGSIZE <= v < va / PGSIZE + k then file(v - va / PGSIZE).put(was) else was
  }

  /** Stores into pages of the image: its shape and its translations are those of memory `ram`. */
  ghost predicate Kept(m: PhysMem, ram: Ram, t: Tree, free: seq<nat>, sz: nat, stock: set<nat>)
    reads m
  {
    && VmOk(m, t) && m.free == free && Image(m.ram, t, free, sz, stock) && SameOutside(ram, m.ram, stock)
    && forall v: nat :: Entry(m.ram, t, v) == Entry(ram, t, v)
  }

  /** Where loadseg stands after k pages, from memory `ram`: those are read in, no other page has changed. */
  ghost predicate Loading(m: PhysMem, ram: Ram, t: Tree, free: seq<nat>, sz: nat, stock: set<nat>, va: nat,
                          file: nat -> Read, k: nat)
    reads m
  {
    && Kept(m, ram, t, free, sz, stock)
    && forall v: nat :: v < PageCount(sz) ==>
         PageAt(m.ram, t, v) == ReadInto(va, file, k, v, PageAt(ram, t, v))
  }

  /** The page walkaddr finds for page number v of the image: in use, by v alone. */
  lemma UserPage(m: PhysMem, t: Tree, sz: nat, stock: set<nat>, v: nat)
    requires VmOk(m, t) && Image(m.ram, t, m.free, sz, stock) && v < PageCount(sz)
    ensures UserAt(m.ram, t, v) && v < PAGES
    ensures var pa := PageOf(m.ram, t, v); pa != 0 && pa in m.ram && pa !in m.free && pa !in Tables(t) && pa in stock
    ensures forall w: nat :: w < PageCount(sz) && w != v ==> PageOf(m.ram, t, w) != PageOf(m.ram, t, v)
  {
    hide Entry, IsLeaf, IsValid, IsUser, Pte2Pa, PteFlags, Tables, TreeOk, IsList;
    assert CanClear(m.ram, t, v, true) && m.Managed(PageOf(m.ram, t, v));
    assert PageOf(m.ram, t, v) in UserPages(m.ram, t, PageCount(sz));
    forall w: nat | w < PageCount(sz) && w != v ensures PageOf(m.ram, t, w) != PageOf(m.ram, t, v) {
      assert CanClear(m.ram, t, w, true);
    }
  }

  /** One page of loadseg. */
  method LoadPage(m: PhysMem, ghost ram: Ram, ghost t: Tree, ghost free: seq<nat>, root: nat, ghost sz: nat,
                  ghost stock: set<nat>, va: nat, file: nat -> Read, k: nat)
    returns (r: Loaded)
    requires Loading(m, ram, t, free, sz, stock, va, file, k) && root == t.root && va % PGSIZE == 0
    requires va / PGSIZE + k < PageCount(sz)
    modifies m
    ensures Loading(m, ram, t, free, sz, stock, va, file, k + 1)
    ensures r == if file(k).good then AllRead else Short
  {
    hide Entry, TreeOk, Tables, Image, IsList, UserAt, PageOf, PageAt, ReadInto;
    ghost var before, v := m.ram, va / PGSIZE + k;
    UserPage(m, t, sz, stock, v);
    PageNumber(va, k);
    var pa := Walkaddr(m, t, root, va + k * PGSIZE);
    assert pa == PageOf(m.ram, t, v) by { IsPageOf(m.ram, t, v); }
    if pa == 0 {
      return NotMapped;
    }
    m.Store(pa, file(k).put(m.ram[pa]));
    PageStored(m, before, ram, t, free, sz, stock, va, file, k, pa);
    return if file(k).good then AllRead else Short;
  }

  lemma IsPageOf(ram: Ram, t: Tree, v: nat)
    ensures PageOf(ram, t, v) == Pte2Pa(Entry(ram, t, v))
  {
  }

  lemma PageNumber(va: nat, k: nat)
    requires va % PGSIZE == 0
    ensures (va + k * PGSIZE) / PGSIZE == va / PGSIZE + k
    ensures va / PGSIZE + k < PAGES ==> va + k * PGSIZE < MAXVA
  {
  }

  lemma PageStored(m: PhysMem, before: Ram, ram: Ram, t: Tree, free: seq<nat>, sz: nat, stock: set<nat>, va: nat,
                   file: nat -> Read, k: nat, pa: nat)
    requires m.Valid() && TreeOk(before, t) && Tables(t) !! Elems(m.free)
    requires m.free == free && Image(before, t, free, sz, stock) && SameOutside(ram, before, stock)
    requires forall v: nat :: Entry(before, t, v) == Entry(ram, t, v)
    requires forall v: nat :: v < PageCount(sz) ==>
               PageAt(before, t, v) == ReadInto(va, file, k, v, PageAt(ram, t, v))
    requires pa in before && pa !in Tables(t) && pa in stock && m.ram == before[pa := file(k).put(before[pa])]
    requires pa == PageOf(before, t, va / PGSIZE + k) && va / PGSIZE + k < PageCount(sz)
    requires forall w: nat :: w < PageCount(sz) && w != va / PGSIZE + k ==> PageOf(before, t, w) != pa
    ensures Loading(m, ram, t, free, sz, stock, va, file, k + 1)
  {
    hide Entry, TreeOk, Tables, IsList, UserAt, Pte2Pa, Image;
    TreeFrame(before, m.ram, t);
    ProcessFrame(before, m.ram, t, free, sz, stock);
    forall v: nat | v < PageCount(sz)
      ensures PageAt(m.ram, t, v) == ReadInto(va, file, k + 1, v, PageAt(ram, t, v))
    {
      assert Entry(m.ram, t, v) == Entry(before, t, v);
      assert PageAt(before, t, v) == ReadInto(va, file, k, v, PageAt(ram, t, v));
    }
  }

  /**
   loadseg on a segment that lies inside the image: its panic is out of reach; it fails exactly when
   some page could not be read in full, and otherwise every page of the segment was read in and no other
   page has changed.
   */
  method Loadseg(m: PhysMem, ghost t: Tree, root: nat, ghost sz: nat, ghost stock: set<nat>, va: nat, len: nat,
                 file: nat -> Read)
    returns (r: Loaded)
    requires VmOk(m, t) && root == t.root && Image(m.ram, t, m.free, sz, stock)
    requires va % PGSIZE == 0 && va + len <= sz && len < WORD32 - PGSIZE
    modifies m
    ensures r != NotMapped && (r == Short <==> exists i: nat :: i * PGSIZE < len && !file(i).good)
    ensures Kept(m, old(m.ram), t, old(m.free), sz, stock)
    ensures r == AllRead ==> Loading(m, old(m.ram), t, old(m.free), sz, stock, va, file, (len + PGSIZE - 1) / PGSIZE)
  {
    hide Loading, Kept, Image, VmOk;
    var i := 0;
    ghost var k := 0;
    LoadStart(m, t, sz, stock, va, file);
    while i < len
      invariant i == k * PGSIZE && k <= (len + PGSIZE - 1) / PGSIZE
      invariant Loading(m, old(m.ram), t, old(m.free), sz, stock, va, file, k)
      invariant forall j: nat :: j < k ==> file(j).good
    {
      Inside(va, len, sz, k);
      r := LoadPage(m, old(m.ram), t, old(m.free), root, sz, stock, va, file, i / PGSIZE);
      LoadedSome(m, old(m.ram), t, old(m.free), sz, stock, va, file, k + 1);
      if r != AllRead {
        assert k * PGSIZE < len;
        return;
      }
      i, k := i + PGSIZE, k + 1;
    }
    LoadedSome(m, old(m.ram), t, old(m.free), sz, stock, va, file, k);
    r := AllRead;
  }

  lemma Inside(va: nat, len: nat, sz: nat, k: nat)
    requires va % PGSIZE == 0 && va + len <= sz && k * PGSIZE < len
    ensures va / PGSIZE + k < PageCount(sz) && k + 1 <= (len + PGSIZE - 1) / PGSIZE
  {
  }

  lemma LoadStart(m: PhysMem, t: Tree, sz: nat, stock: set<nat>, va: nat, file: nat -> Read)
    requires VmOk(m, t) && Image(m.ram, t, m.free, sz, stock)
    ensures Loading(m, m.ram, t, m.free, sz, stock, va, file, 0)
  {
  }

  lemma LoadedSome(m: PhysMem, ram: Ram, t: Tree, free: seq<nat>, sz: nat, stock: set<nat>, va: nat,
                   file: nat -> Read, k: nat)
    requires Loading(m, ram, t, free, sz, stock, va, file, k)
    ensures Kept(m, ram, t, free, sz, stock)
  {
  }

  lemma KeptImage(m: PhysMem, ram: Ram, t: Tree, free: seq<nat>, sz: nat, stock: set<nat>)
    requires Kept(m, ram, t, free, sz, stock)
    ensures VmOk(m, t) && m.free == free && Image(m.ram, t, free, sz, stock) && SameOutside(ram, m.ram, stock)
  {
  }

  lemma LoadedAll(m: PhysMem, ram: Ram, t: Tree, free: seq<nat>, sz: nat, stock: set<nat>, va: nat,
                  file: nat -> Read, k: nat)
    requires Loading(m, ram, t, free, sz, stock, va, file, k)
    ensures forall v: nat :: v < PageCount(sz) ==>
              PageAt(m.ram, t, v) == ReadInto(va, file, k, v, PageAt(ram, t, v))
  {
  }

  /** How one header, or all of them, ends: the new size, a failure with the size reached, or a panic. */
  datatype Exec = Fine(sz: nat) | Bad(sz: nat) | Panicked | LoadsegPanic

  /** exec's three tests on a header, with 64-bit addition. */
  predicate Accepted(ph: Header) {
    ph.memsz >= ph.filesz && (ph.vaddr + ph.memsz) % WORD64 >= ph.vaddr && ph.vaddr % PGSIZE == 0
  }

  lemma NoWrap(ph: Header)
    requires Accepted(ph)
    ensures ph.vaddr + ph.memsz < WORD64
  {
  }

  /** uvmalloc grows the space to end: the pages are there to be had and can be paid for. */
  ghost predicate Grows(ram: Ram, t: Tree, free: nat, sz: nat, end: nat) {
    end >= sz ==>
      && Vacant(ram, t, PageCount(sz), PagesBetween(sz, end))
      && Affords(t, PageCount(sz), PagesBetween(sz, end), free)
  }

  /** uvmalloc cannot add even one page, and says so. */
  predicate Refuses(t: Tree, free: nat, sz: nat, end: nat) {
    end >= sz && PagesBetween(sz, end) > 0
      && (free == 0 || (PageCount(sz) < PAGES && !Affords(t, PageCount(sz), 1, free)))
  }

  /** The image before growing, in the terms uvmalloc asks for. */
  lemma ReadyToGrow(ram: Ram, t: Tree, free: seq<nat>, sz: nat, stock: set<nat>)
    requires Image(ram, t, free, sz, stock)
    ensures EndsAt(ram, t, PageCount(sz)) && OwnedAt(ram, t, free, PageCount(sz), PAGES)
    ensures PageCount(sz) <= TRAPFRAME_VPN
  {
    hide Entry, IsLeaf, IsValid, IsUser, Pte2Pa, PteFlags, Tables;
    forall u: nat | PageCount(sz) <= u && CanUnmap(ram, t, u) ensures u < PAGES {
    }
  }

  /** uvmalloc cannot have gone past the trapframe. */
  lemma StaysBelow(ram: Ram, t: Tree, free: seq<nat>, sz: nat, stock: set<nat>, k: nat)
    requires Image(ram, t, free, sz, stock) && Vacant(ram, t, PageCount(sz), k)
    ensures PageCount(sz) + k <= TRAPFRAME_VPN
  {
    hide Entry, IsLeaf, IsUser, Pte2Pa, PteFlags, Tables, OwnedAt;
    assert CanUnmap(ram, t, TRAPFRAME_VPN);
    assert PageCount(sz) + k > TRAPFRAME_VPN ==> VacantAt(ram, t, TRAPFRAME_VPN);
  }

  lemma NewSize(sz: nat, end: nat)
    requires end >= sz
    ensures PageCount(sz) + PagesBetween(sz, end) == PageCount(end)
  {
  }

  /** The image after uvmalloc grew it. */
  lemma ImageGrown(m: PhysMem, ram: Ram, t: Tree, free: seq<nat>, t': Tree, sz: nat, end: nat, perm: nat,
                   data: seq<nat>, stock: set<nat>)
    requires 2 <= perm < 1024 && perm / 2 % 8 != 0 && perm / PTE_U % 2 == 1 && Image(ram, t, free, sz, stock)
    requires end >= sz
    requires Growing(m, ram, t, free, t', PageCount(sz), perm, data) && |data| == PagesBetween(sz, end)
    requires Vacant(ram, t, PageCount(sz), |data|)
    ensures VmOk(m, t') && t'.root == t.root && Image(m.ram, t', m.free, end, stock) && SameOutside(ram, m.ram, stock)
  {
    hide Entry, IsLeaf, IsValid, IsUser, Pte2Pa, PteFlags, Tables, OwnedAt, Growing, Vacant, TreeOk, CanClear,
         CanUnmap, UserPages, Pool;
    var n := PageCount(sz);
    NewSize(sz, end);
    StaysBelow(ram, t, free, sz, stock, |data|);
    ProcessGrown(m, ram, t, free, t', n, perm, data, stock);
    forall v: nat ensures UserAt(m.ram, t', v) <==> v < n + |data| {
      if n <= v < n + |data| {
        NewEntry(m, ram, t, free, t', n, perm, data, v);
      } else {
        OldEntry(m, ram, t, free, t', n, perm, data, v);
        assert UserAt(m.ram, t', v) <==> UserAt(ram, t, v);
      }
    }
  }

  lemma NewEntry(m: PhysMem, ram: Ram, t: Tree, free: seq<nat>, t': Tree, v0: nat, perm: nat, data: seq<nat>, v: nat)
    requires perm < 1024 && perm / PTE_U % 2 == 1 && Growing(m, ram, t, free, t', v0, perm, data)
    requires v0 <= v < v0 + |data|
    ensures IsValid(Entry(m.ram, t', v)) && IsUser(Entry(m.ram, t', v)) && PageOf(m.ram, t', v) == data[v - v0]
  {
    hide Entry;
    var d := data[v - v0];
    assert DataMap(v0, data, perm)[v] == DataPte(v0, data, perm, v) == MakePte(d, perm);
    assert d in m.ram && m.Managed(d);
    PteRoundTrip(d, perm);
  }

  lemma OldEntry(m: PhysMem, ram: Ram, t: Tree, free: seq<nat>, t': Tree, v0: nat, perm: nat, data: seq<nat>, v: nat)
    requires perm < 1024 && Growing(m, ram, t, free, t', v0, perm, data) && !(v0 <= v < v0 + |data|)
    ensures Entry(m.ram, t', v) == Entry(ram, t, v)
  {
    hide Entry;
    assert v !in DataMap(v0, data, perm);
  }

  /** Growing an image keeps the contents of its pages and adds zeroed ones. */
  lemma ContentsGrown(m: PhysMem, ram: Ram, t: Tree, free: seq<nat>, t': Tree, sz: nat, perm: nat,
                      data: seq<nat>, stock: set<nat>, v: nat)
    requires perm < 1024 && perm / PTE_U % 2 == 1 && Image(ram, t, free, sz, stock)
    requires Growing(m, ram, t, free, t', PageCount(sz), perm, data) && v < PageCount(sz) + |data|
    ensures PageAt(m.ram, t', v) == if v < PageCount(sz) then PageAt(ram, t, v) else Filled(0)
  {
    hide Entry, IsLeaf, IsValid, IsUser, Pte2Pa, PteFlags, Tables, TreeOk, Pool, UserPages, IsList, UserAt;
    var n := PageCount(sz);
    if v < n {
      OldEntry(m, ram, t, free, t', n, perm, data, v);
      assert CanClear(ram, t, v, true);
      assert PageOf(ram, t, v) !in free && PageOf(ram, t, v) !in Tables(t);
    } else {
      NewEntry(m, ram, t, free, t', n, perm, data, v);
      assert data[v - n] in m.ram;
    }
  }

  /** The tables of an address space that has only the two kernel pages. */
  function BareTree(): Tree {
    Tree(0, map[PAGES / PTES / PTES - 1 := 0], map[LowKey(PAGES - 1) := 0])
  }

  /** Of `all` pages, three went to the kernel's tables, the rest to n user pages and their tables; `free` are left. */
  ghost predicate Metered(t: Tree, n: nat, free: nat, all: nat) {
    Added(BareTree(), t, 0, n) && free + 3 + n + NewTables(BareTree(), 0, n) == all
  }

  lemma BareCost(n: nat)
    requires n <= PTES * PTES
    ensures n + NewTables(BareTree(), 0, n) == UserCost(n)
  {
    if n == 0 {
      NothingAdded(BareTree(), 0);
    } else {
      UserTables(BareTree(), n);
    }
  }

  lemma AffordsMetered(t: Tree, n: nat, free: nat, all: nat, k: nat)
    requires Metered(t, n, free, all) && all * PGSIZE <= PHYSTOP - KERNBASE
    ensures Affords(t, n, k, free) <==> 3 + UserCost(n + k) <= all
    ensures Affords(t, n, k, free) ==> n + k <= PTES * PTES
  {
    hide NewTables, Added, BareTree;
    NewTablesJoin(BareTree(), t, 0, n, k);
    if n + k <= PTES * PTES {
      BareCost(n + k);
    }
  }

  /** Whether an image can grow, and whether it can grow by one page, in pages of RAM. */
  lemma CanGrow(ram: Ram, t: Tree, free: seq<nat>, sz: nat, end: nat, stock: set<nat>, all: nat)
    requires Image(ram, t, free, sz, stock) && Metered(t, PageCount(sz), |free|, all)
    requires all * PGSIZE <= PHYSTOP - KERNBASE
    ensures Grows(ram, t, |free|, sz, end) <==> (end >= sz ==> 3 + UserCost(PageCount(end)) <= all)
    ensures Refuses(t, |free|, sz, end) <==>
              end >= sz && PagesBetween(sz, end) > 0 && 3 + UserCost(PageCount(sz) + 1) > all
  {
    hide NewTables, Metered, Image, UserCost, EndsAt, OwnedAt, PagesBetween, PgRoundUp;
    ReadyToGrow(ram, t, free, sz, stock);
    if end >= sz {
      NewSize(sz, end);
      AffordsMetered(t, PageCount(sz), |free|, all, PagesBetween(sz, end));
      AffordsMetered(t, PageCount(sz), |free|, all, 1);
      if Affords(t, PageCount(sz), PagesBetween(sz, end), |free|) {
        AllVacant(ram, t, PageCount(sz), PagesBetween(sz, end));
      }
    }
  }

  lemma AllVacant(ram: Ram, t: Tree, v: nat, k: nat)
    requires EndsAt(ram, t, v) && v + k <= TRAPFRAME_VPN
    ensures Vacant(ram, t, v, k)
  {
    forall u: nat | v <= u < v + k ensures VacantAt(ram, t, u) {
    }
  }

  lemma MeterGrown(t: Tree, t': Tree, n: nat, k: nat, free: nat, rest: nat, all: nat)
    requires Metered(t, n, free, all) && Paid(t, t', n, k, free, rest)
    ensures Metered(t', n + k, rest, all)
  {
    hide NewTables, Added, BareTree;
    NewTablesJoin(BareTree(), t, 0, n, k);
    AddedJoin(BareTree(), t, t', 0, n, k);
  }

  /** What page number v of a grown space holds: what it held, or zeros if it is new. */
  function GrownPage(ram: Ram, t: Tree, n: nat, v: nat): Page {
    if v < n then PageAt(ram, t, v) else Filled(0)
  }

  /** The flags of a grown space: old pages keep theirs, new ones have those asked for. */
  function GrownFlags(ram: Ram, t: Tree, n: nat, perm: nat, v: nat): nat {
    if v < n then FlagsAt(ram, t, v) else PTE_V + PTE_R + PTE_U + perm
  }

  lemma FlagsGrown(m: PhysMem, ram: Ram, t: Tree, free: seq<nat>, t': Tree, n: nat, perm: nat, data: seq<nat>, v: nat)
    requires perm / 16 == 0 && perm % 4 == 0
    requires Growing(m, ram, t, free, t', n, PTE_R + PTE_U + perm, data) && v < n + |data|
    ensures FlagsAt(m.ram, t', v) == GrownFlags(ram, t, n, perm, v)
  {
    hide Entry, Tables, TreeOk, IsList;
    if v < n {
      OldEntry(m, ram, t, free, t', n, PTE_R + PTE_U + perm, data, v);
    } else {
      var d := data[v - n];
      assert DataMap(n, data, PTE_R + PTE_U + perm)[v] == MakePte(d, PTE_R + PTE_U + perm);
      assert d in m.ram && m.Managed(d);
      PteRoundTrip(d, PTE_R + PTE_U + perm);
    }
  }

  /** uvmalloc on an image: it grows, is left as it was, or the kernel panics, as the pages of RAM allow. */
  method GrowImage(m: PhysMem, ghost t: Tree, root: nat, sz: nat, end: nat, xperm: nat, ghost stock: set<nat>,
                   ghost all: nat)
    returns (r: Resized, ghost t': Tree)
    requires VmOk(m, t) && root == t.root && Image(m.ram, t, m.free, sz, stock) && xperm / 16 == 0 && xperm % 4 == 0
    requires Metered(t, PageCount(sz), |m.free|, all) && all * PGSIZE <= PHYSTOP - KERNBASE
    modifies m
    ensures r.Size? <==> (end >= sz ==> 3 + UserCost(PageCount(end)) <= all)
    ensures r.Failed? <==> end >= sz && PagesBetween(sz, end) > 0 && 3 + UserCost(PageCount(sz) + 1) > all
    ensures r.Size? ==>
              && r.sz == (if end >= sz then end else sz) && Image(m.ram, t', m.free, r.sz, stock)
              && Metered(t', PageCount(r.sz), |m.free|, all)
    ensures r.Size? ==> forall v: nat :: v < PageCount(r.sz) ==>
              PageAt(m.ram, t', v) == GrownPage(old(m.ram), t, PageCount(sz), v)
    ensures r.Size? ==> forall v: nat :: v < PageCount(r.sz) ==>
              FlagsAt(m.ram, t', v) == GrownFlags(old(m.ram), t, PageCount(sz), xperm, v)
    ensures r.Failed? ==> Image(m.ram, t', m.free, sz, stock)
    ensures !r.Stopped? ==> VmOk(m, t') && t'.root == root && SameOutside(old(m.ram), m.ram, stock)
  {
    hide Image, Growing, EndsAt, OwnedAt, Vacant, Affords, VmOk, Paid, PagesBetween, Metered, UserCost, PgRoundUp;
    hide PageAt, FlagsAt;
    ReadyToGrow(m.ram, t, m.free, sz, stock);
    CanGrow(m.ram, t, m.free, sz, end, stock, all);
    ghost var data;
    r, t', data := Uvmalloc(m, t, root, sz, end, xperm);
    if end >= sz && r.Size? {
      ImageGrown(m, old(m.ram), t, old(m.free), t', sz, end, PTE_R + PTE_U + xperm, data, stock);
      NewSize(sz, end);
      MeterGrown(t, t', PageCount(sz), |data|, |old(m.free)|, |m.free|, all);
      forall v: nat | v < PageCount(r.sz) ensures PageAt(m.ram, t', v) == GrownPage(old(m.ram), t, PageCount(sz), v) {
        ContentsGrown(m, old(m.ram), t, old(m.free), t', sz, PTE_R + PTE_U + xperm, data, stock, v);
      }
      forall v: nat | v < PageCount(r.sz)
        ensures FlagsAt(m.ram, t', v) == GrownFlags(old(m.ram), t, PageCount(sz), xperm, v)
      {
        FlagsGrown(m, old(m.ram), t, old(m.free), t', PageCount(sz), xperm, data, v);
      }
    }
    if r.Failed? {
      NoPages(old(m.ram), t, sz);
      ImageGrown(m, old(m.ram), t, old(m.free), t', sz, sz, PTE_R + PTE_U + xperm, [], stock);
    }
  }

  lemma NoPages(ram: Ram, t: Tree, sz: nat)
    ensures PagesBetween(sz, sz) == 0 && Vacant(ram, t, PageCount(sz), 0)
  {
  }

  /** Every page of the segment could be read in full. */
  ghost predicate Readable(ph: Header, file: nat -> Read) {
    forall i: nat :: i * PGSIZE < ph.filesz ==> file(i).good
  }

  /**
   What one header does to a space of sz bytes on a machine that had `all` free pages before exec: it
   is skipped, refused, loaded, or stops the kernel when memory runs out past the first page.
   */
  ghost function SegmentSpec(all: nat, sz: nat, ph: Header, file: nat -> Read): Exec {
    if !ph.load then Fine(sz)
    else if !Accepted(ph) then Bad(sz)
    else
      var end := ph.vaddr + ph.memsz;
      if end >= sz && 3 + UserCost(PageCount(end)) > all then
        if PagesBetween(sz, end) > 0 && 3 + UserCost(PageCount(sz) + 1) > all then Bad(sz) else Panicked
      else if sz == 0 && end == 0 then Bad(sz)
      else
        var grown := if end >= sz then end else sz;
        if Readable(ph, file) then Fine(grown) else Bad(grown)
  }

  /** What page number v holds after a header that was loaded or skipped, if it held `was` before loadseg. */
  function SegmentPage(ph: Header, file: nat -> Read, v: nat, was: Page): Page {
    if ph.load then ReadInto(ph.vaddr, file, (ph.filesz + PGSIZE - 1) / PGSIZE, v, was) else was
  }

  /** Every page of the grown image holds what it held, or zeros if it is new, with the segment read into it. */
  ghost predicate SegmentHolds(ram: Ram, t: Tree, sz: nat, more: Ram, t': Tree, grown: nat, ph: Header,
                               file: nat -> Read) {
    forall v: nat :: v < PageCount(grown) ==>
      PageAt(more, t', v) == SegmentPage(ph, file, v, GrownPage(ram, t, PageCount(sz), v))
  }

  /** Old pages of the grown image keep their flags, new ones have those of the segment. */
  ghost predicate SegmentMaps(ram: Ram, t: Tree, sz: nat, more: Ram, t': Tree, grown: nat, ph: Header) {
    forall v: nat :: v < PageCount(grown) ==>
      FlagsAt(more, t', v) == if v < PageCount(sz) then FlagsAt(ram, t, v) else SegmentFlags(ph)
  }

  /** Reading a segment in changes no entry. */
  lemma FlagsKept(m: PhysMem, ram: Ram, t: Tree, free: seq<nat>, sz: nat, stock: set<nat>, v: nat)
    requires Kept(m, ram, t, free, sz, stock)
    ensures FlagsAt(m.ram, t, v) == FlagsAt(ram, t, v)
  {
  }

  /** One header, for any fields. loadseg never panics; new pages have the permissions of the header. */
  method Segment(m: PhysMem, ghost t: Tree, root: nat, sz: nat, ph: Header,
                 file: nat -> Read, ghost stock: set<nat>, ghost all: nat)
    returns (r: Exec, ghost t': Tree)
    requires VmOk(m, t) && root == t.root && Image(m.ram, t, m.free, sz, stock)
    requires Metered(t, PageCount(sz), |m.free|, all) && all * PGSIZE <= PHYSTOP - KERNBASE
    modifies m
    ensures r == SegmentSpec(all, sz, ph, file) && r != LoadsegPanic
    ensures r.Fine? ==> Metered(t', PageCount(r.sz), |m.free|, all)
    ensures r.Fine? && ph.load ==> Accepted(ph) && ph.vaddr + ph.memsz <= r.sz
    ensures r.Fine? ==> SegmentHolds(old(m.ram), t, sz, m.ram, t', r.sz, ph, file)
    ensures r.Fine? ==> SegmentMaps(old(m.ram), t, sz, m.ram, t', r.sz, ph)
    ensures r.Fine? || r.Bad? ==>
              VmOk(m, t') && t'.root == root && Image(m.ram, t', m.free, r.sz, stock)
                && SameOutside(old(m.ram), m.ram, stock)
  {
    hide Image, VmOk, Metered, UserCost, PgRoundUp, PagesBetween, Loading, Kept, PageAt, ReadInto, FlagsAt;
    hide SegmentFlags;
    PermFlags(ph);
    t' := t;
    if !ph.load {
      return Fine(sz), t;
    }
    if ph.memsz < ph.filesz || (ph.vaddr + ph.memsz) % WORD64 < ph.vaddr || ph.vaddr % PGSIZE != 0 {
      return Bad(sz), t;
    }
    NoWrap(ph);
    var end := ph.vaddr + ph.memsz;
    var g;
    g, t' := GrowImage(m, t, root, sz, end, Flags2perm(ph.flags), stock, all);
    if g.Failed? {
      CanGrowOnce(sz, end, all);
      return Bad(sz), t';
    }
    if g.Stopped? {
      return Panicked, t';
    }
    if g.sz == 0 {
      return Bad(sz), t';
    }
    ghost var grown, rest := m.ram, m.free;
    SmallImage(m, t', g.sz, stock);
    var l := Loadseg(m, t', root, g.sz, stock, ph.vaddr, ph.filesz % WORD32, file);
    KeptImage(m, grown, t', rest, g.sz, stock);
    SameOutsideTrans(old(m.ram), grown, m.ram, stock, stock);
    if l == Short {
      return Bad(g.sz), t';
    }
    LoadedAll(m, grown, t', rest, g.sz, stock, ph.vaddr, file, (ph.filesz + PGSIZE - 1) / PGSIZE);
    forall v: nat | v < PageCount(g.sz) ensures FlagsAt(m.ram, t', v) == FlagsAt(grown, t', v) {
      FlagsKept(m, grown, t', rest, g.sz, stock, v);
    }
    return if l == NotMapped then LoadsegPanic else Fine(g.sz), t';
  }

  lemma {:induction false} CostGrows(j: nat, k: nat)
    requires j <= k
    ensures UserCost(j) <= UserCost(k)
  {
  }

  /** If one page more is too much, so is every larger size. */
  lemma CanGrowOnce(sz: nat, end: nat, all: nat)
    requires end >= sz && PagesBetween(sz, end) > 0 && 3 + UserCost(PageCount(sz) + 1) > all
    ensures 3 + UserCost(PageCount(end)) > all
  {
    NewSize(sz, end);
    CostGrows(PageCount(sz) + 1, PageCount(end));
  }

  /** An image fits in RAM, so loadseg's 32-bit sizes hold it. */
  lemma SmallImage(m: PhysMem, t: Tree, sz: nat, stock: set<nat>)
    requires VmOk(m, t) && Image(m.ram, t, m.free, sz, stock)
    ensures sz <= PHYSTOP - KERNBASE
  {
    hide Process, TreeOk;
    ProcessFits(m, t, PageCount(sz), stock);
  }

  /** What the file has for the pages of segment i. */
  function Part(file: (nat, nat) -> Read, i: nat): nat -> Read {
    (p: nat) => file(i, p)
  }

  ghost function SegmentsSpec(all: nat, sz: nat, phs: seq<Header>, file: (nat, nat) -> Read, i: nat): Exec
    requires i <= |phs|
    decreases |phs| - i
  {
    if i == |phs| then Fine(sz)
    else
      match SegmentSpec(all, sz, phs[i], Part(file, i))
      case Fine(grown) => SegmentsSpec(all, grown, phs, file, i + 1)
      case bad => bad
  }

  /** What page number v of the image holds after the first n headers: zeros, with what each of them read into it. */
  function ImagePage(phs: seq<Header>, file: (nat, nat) -> Read, n: nat, v: nat): Page
    requires n <= |phs|
  {
    if n == 0 then Filled(0)
    else SegmentPage(phs[n - 1], Part(file, n - 1), v, ImagePage(phs, file, n - 1, v))
  }

  /** An image of sz bytes is what the first n headers make of it. */
  ghost predicate ImageHolds(ram: Ram, t: Tree, sz: nat, phs: seq<Header>, file: (nat, nat) -> Read, n: nat)
    requires n <= |phs|
  {
    && (forall v: nat :: v < PageCount(sz) ==> PageAt(ram, t, v) == ImagePage(phs, file, n, v))
    && (forall v: nat :: v >= PageCount(sz) ==> ImagePage(phs, file, n, v) == Filled(0))
  }

  lemma NothingHeld(ram: Ram, t: Tree, phs: seq<Header>, file: (nat, nat) -> Read)
    ensures PageCount(0) == 0 && ImageHolds(ram, t, 0, phs, file, 0)
  {
  }

  /** A segment reads nothing into pages past its end. */
  lemma PastSegment(ph: Header, file: nat -> Read, sz: nat, v: nat, was: Page)
    requires ph.load ==> Accepted(ph) && ph.vaddr + ph.memsz <= sz
    requires v >= PageCount(sz)
    ensures SegmentPage(ph, file, v, was) == was
  {
    var k := (ph.filesz + PGSIZE - 1) / PGSIZE;
    if ph.load && ph.vaddr / PGSIZE <= v < ph.vaddr / PGSIZE + k {
      Inside(ph.vaddr, ph.filesz, sz, v - ph.vaddr / PGSIZE);
      assert false;
    }
  }

  lemma MorePages(sz: nat, grown: nat)
    requires sz <= grown
    ensures PageCount(sz) <= PageCount(grown)
  {
  }

  /** The contents of the image after one more header. */
  lemma SegmentContents(ram: Ram, t: Tree, sz: nat, more: Ram, t': Tree, grown: nat, phs: seq<Header>,
                        file: (nat, nat) -> Read, i: nat)
    requires i < |phs| && sz <= grown && ImageHolds(ram, t, sz, phs, file, i)
    requires phs[i].load ==> Accepted(phs[i]) && phs[i].vaddr + phs[i].memsz <= grown
    requires SegmentHolds(ram, t, sz, more, t', grown, phs[i], Part(file, i))
    ensures ImageHolds(more, t', grown, phs, file, i + 1)
  {
    hide PageAt, SegmentPage, PgRoundUp, Accepted, Part;
    MorePages(sz, grown);
    var n := i + 1;
    forall v: nat | v < PageCount(grown) ensures PageAt(more, t', v) == ImagePage(phs, file, n, v) {
      assert GrownPage(ram, t, PageCount(sz), v) == ImagePage(phs, file, i, v);
    }
    forall v: nat | v >= PageCount(grown) ensures ImagePage(phs, file, n, v) == Filled(0) {
      PastSegment(phs[i], Part(file, i), grown, v, Filled(0));
      assert ImagePage(phs, file, i, v) == Filled(0);
    }
  }

  /** Where a segment ends in memory. */
  function End(ph: Header): nat {
    ph.vaddr + ph.memsz
  }

  /** Header i is the first one to be loaded that reaches page number v. */
  predicate FirstOver(phs: seq<Header>, i: nat, v: nat) {
    && i < |phs| && phs[i].load && v < PageCount(End(phs[i]))
    && forall j: nat :: j < i && phs[j].load ==> PageCount(End(phs[j])) <= v
  }

  /** A page with these flags has the permissions of the first of the n headers that reaches it. */
  ghost predicate MapsAs(phs: seq<Header>, n: nat, v: nat, flags: nat) {
    exists i: nat :: i < n && FirstOver(phs, i, v) && flags == SegmentFlags(phs[i])
  }

  ghost predicate ImageMaps(ram: Ram, t: Tree, sz: nat, phs: seq<Header>, n: nat) {
    forall v: nat :: v < PageCount(sz) ==> MapsAs(phs, n, v, FlagsAt(ram, t, v))
  }

  lemma NothingMapped(ram: Ram, t: Tree, phs: seq<Header>)
    ensures ImageMaps(ram, t, 0, phs, 0)
  {
    assert PageCount(0) == 0;
  }

  /** The permissions of the image after one more header. */
  lemma MoreMaps(ram: Ram, t: Tree, sz: nat, more: Ram, t': Tree, grown: nat, phs: seq<Header>, n: nat)
    requires n < |phs| && ImageMaps(ram, t, sz, phs, n) && SegmentMaps(ram, t, sz, more, t', grown, phs[n])
    requires forall j: nat :: j < n && phs[j].load ==> End(phs[j]) <= sz
    requires grown == sz || (phs[n].load && grown == End(phs[n]))
    ensures ImageMaps(more, t', grown, phs, n + 1)
  {
    hide FlagsAt, SegmentFlags, PgRoundUp;
    forall v: nat | v < PageCount(grown) ensures MapsAs(phs, n + 1, v, FlagsAt(more, t', v)) {
      if v < PageCount(sz) {
        assert MapsAs(phs, n, v, FlagsAt(ram, t, v));
      } else {
        forall j: nat | j < n && phs[j].load ensures PageCount(End(phs[j])) <= v {
          MorePages(End(phs[j]), sz);
        }
        assert FirstOver(phs, n, v);
      }
    }
  }

  /**
   The segment loop, for any program headers: the panic in loadseg is never reached, every segment
   that was loaded lies inside the image, every page holds what the segments read into it one after the
   other, over zeros, and is mapped as the first segment that reaches it says; on failure the image is intact.
   */
  method LoadSegments(m: PhysMem, ghost t: Tree, root: nat, phs: seq<Header>, file: (nat, nat) -> Read,
                      ghost stock: set<nat>, ghost all: nat)
    returns (r: Exec, ghost t': Tree)
    requires VmOk(m, t) && root == t.root && Image(m.ram, t, m.free, 0, stock)
    requires Metered(t, 0, |m.free|, all) && all * PGSIZE <= PHYSTOP - KERNBASE
    modifies m
    ensures r == SegmentsSpec(all, 0, phs, file, 0) && r != LoadsegPanic
    ensures r.Fine? ==> Metered(t', PageCount(r.sz), |m.free|, all)
    ensures r.Fine? ==> forall i: nat :: i < |phs| && phs[i].load ==> phs[i].vaddr + phs[i].memsz <= r.sz
    ensures r.Fine? ==> ImageHolds(m.ram, t', r.sz, phs, file, |phs|)
    ensures r.Fine? ==> ImageMaps(m.ram, t', r.sz, phs, |phs|)
    ensures r.Fine? || r.Bad? ==>
              VmOk(m, t') && t'.root == root && Image(m.ram, t', m.free, r.sz, stock)
                && SameOutside(old(m.ram), m.ram, stock)
  {
    hide VmOk, Image, Metered, SegmentSpec, SegmentsSpec, Accepted, PageCount, Part, SegmentHolds, ImageHolds,
         SegmentMaps, ImageMaps;
    NothingHeld(m.ram, t, phs, file);
    NothingMapped(m.ram, t, phs);
    var sz := 0;
    t' := t;
    for i: nat := 0 to |phs|
      invariant VmOk(m, t') && t'.root == root && Image(m.ram, t', m.free, sz, stock)
      invariant SameOutside(old(m.ram), m.ram, stock)
      invariant Metered(t', PageCount(sz), |m.free|, all)
      invariant SegmentsSpec(all, 0, phs, file, 0) == SegmentsSpec(all, sz, phs, file, i)
      invariant forall j: nat :: j < i && phs[j].load ==> phs[j].vaddr + phs[j].memsz <= sz
      invariant ImageHolds(m.ram, t', sz, phs, file, i) && ImageMaps(m.ram, t', sz, phs, i)
    {
      ghost var before, was := m.ram, t';
      SegmentGrows(all, sz, phs, file, i);
      r, t' := Segment(m, t', root, sz, phs[i], Part(file, i), stock, all);
      if r.Panicked? {
        return;
      }
      SameOutsideTrans(old(m.ram), before, m.ram, stock, stock);
      if !r.Fine? {
        return;
      }
      SegmentContents(before, was, sz, m.ram, t', r.sz, phs, file, i);
      MoreMaps(before, was, sz, m.ram, t', r.sz, phs, i);
      sz := r.sz;
    }
    SegmentsEnd(all, sz, phs, file);
    r := Fine(sz);
  }

  lemma SegmentGrows(all: nat, sz: nat, phs: seq<Header>, file: (nat, nat) -> Read, i: nat)
    requires i < |phs|
    ensures var r := SegmentSpec(all, sz, phs[i], Part(file, i));
            && (r.Fine? ==> r.sz >= sz && (r.sz == sz || (phs[i].load && r.sz == End(phs[i]))))
            && SegmentsSpec(all, sz, phs, file, i) == if r.Fine? then SegmentsSpec(all, r.sz, phs, file, i + 1) else r
  {
  }

  lemma SegmentsEnd(all: nat, sz: nat, phs: seq<Header>, file: (nat, nat) -> Read)
    ensures SegmentsSpec(all, sz, phs, file, |phs|) == Fine(sz)
  {
  }

  /** *pte & ~PTE_U */
  function ClearUser(pte: nat): nat {
    if IsUser(pte) then pte - PTE_U else pte
  }

  /** Without its user bit an entry still maps the same page for the kernel. */
  lemma ClearedUser(pte: nat)
    requires IsValid(pte) && IsUser(pte) && IsLeaf(pte)
    ensures var e := ClearUser(pte);
            && IsValid(e) && !IsUser(e) && IsLeaf(e) && Pte2Pa(e) == Pte2Pa(pte) && PteFlags(e) != PTE_V
            && PteFlags(e) + PTE_U == PteFlags(pte)
  {
    var h, f := pte / 1024, pte % 1024;
    var r, l := f / 16, f % 16;
    PageBits(h, f);
    Nibbles(h, r, l);
    assert r >= 1;
    PageBits(h, f - 16);
    Nibbles(h, r - 1, l);
    assert pte == 1024 * h + (16 * r + l) && pte - 16 == 1024 * h + (16 * (r - 1) + l);
  }

  /** The user bit and the permission bits of an entry, by its flags 16 r + l. */
  lemma Nibbles(h: nat, r: nat, l: nat)
    requires l < 16
    ensures (1024 * h + (16 * r + l)) / 16 % 2 == r % 2
    ensures (1024 * h + (16 * r + l)) / 2 % 8 == l / 2
  {
    UserBit(h, r, l);
    var a := 64 * h + r;
    assert (16 * a + l) / 2 == 8 * a + l / 2;
    assert (8 * a + l / 2) % 8 == l / 2;
  }

  /** uvmclear: the user bit of one entry, and nothing else; a panic where a table is missing. */
  method Uvmclear(m: PhysMem, ghost t: Tree, root: nat, va: nat) returns (o: Outcome)
    requires VmOk(m, t) && root == t.root
    modifies m
    ensures VmOk(m, t) && m.free == old(m.free)
    ensures o == Panic <==> va >= MAXVA || Need(t, va) > 0
    ensures o == Panic ==> m.ram == old(m.ram)
    ensures o == Done ==>
              Edited(old(m.ram), t, old(m.free), m.ram, t, m.free,
                map[va / PGSIZE := ClearUser(Entry(old(m.ram), t, va / PGSIZE))])
  {
    hide VmOk, TreeOk, Edited, Entry, Need, IsSlot, Tables, ClearUser;
    var w := Find(m, t, root, va);
    if !w.Slot? {
      return Panic;
    }
    IsTree(m, t);
    SlotNeedsNone(m.ram, t, va, w);
    StoreIsEdit(m.ram, t, m.free, va / PGSIZE, w, ClearUser(Entry(m.ram, t, va / PGSIZE)));
    ClearStore(m, t, w);
    m.Store(w.page, m.ram[w.page][w.index := ClearUser(m.ram[w.page][w.index])]);
    StillVm(m, t);
    return Done;
  }

  lemma SlotNeedsNone(ram: Ram, t: Tree, va: nat, w: Walked)
    requires TreeOk(ram, t) && va < MAXVA && IsSlot(t, va / PGSIZE, w)
    ensures Need(t, va) == 0
  {
    PxDigits(va);
  }

  lemma ClearStore(m: PhysMem, t: Tree, w: Walked)
    requires VmOk(m, t) && w.Slot? && w.page in Tables(t)
    ensures m.Valid() && w.page !in m.free && Tables(t) !! Elems(m.free)
  {
    NotFree(m, t, w.page);
  }

  lemma StillVm(m: PhysMem, t: Tree)
    requires m.Valid() && TreeOk(m.ram, t) && Tables(t) !! Elems(m.free)
    ensures VmOk(m, t)
  {
  }

  /**
   What exec runs the program on: a process of whole pages, all of them the user's but the guard page
   below the stack page.
   */
  ghost predicate Guarded(ram: Ram, t: Tree, free: seq<nat>, sz: nat, stock: set<nat>) {
    && sz % PGSIZE == 0 && sz >= 2 * PGSIZE
    && Process(ram, t, free, sz / PGSIZE, stock)
    && forall v: nat :: UserAt(ram, t, v) <==> v < sz / PGSIZE && v != sz / PGSIZE - 2
  }

  /** Clearing the user bit of the guard page. */
  lemma GuardSet(ram: Ram, t: Tree, free: seq<nat>, more: Ram, sz: nat, stock: set<nat>)
    requires Image(ram, t, free, sz, stock) && sz % PGSIZE == 0 && sz >= 2 * PGSIZE
    requires var g := sz / PGSIZE - 2; Edited(ram, t, free, more, t, free, map[g := ClearUser(Entry(ram, t, g))])
    ensures Guarded(more, t, free, sz, stock) && SameOutside(ram, more, stock)
  {
    hide Entry, IsLeaf, IsValid, IsUser, Pte2Pa, PteFlags, Tables, ClearUser, OwnedAt, UserPages, Pool;
    var n, g := sz / PGSIZE, sz / PGSIZE - 2;
    assert PageCount(sz) == n;
    ImageEntry(ram, t, free, sz, stock, g);
    ClearedUser(Entry(ram, t, g));
    forall u: nat
      ensures PageOf(more, t, u) == PageOf(ram, t, u)
      ensures CanUnmap(more, t, u) <==> CanUnmap(ram, t, u)
      ensures CanClear(more, t, u, true) <==> CanClear(ram, t, u, true)
      ensures IsValid(Entry(more, t, u)) <==> IsValid(Entry(ram, t, u))
      ensures CanUnmap(ram, t, u) ==> (IsLeaf(Entry(more, t, u)) <==> IsLeaf(Entry(ram, t, u)))
      ensures u != g ==> (UserAt(more, t, u) <==> UserAt(ram, t, u))
      ensures !UserAt(more, t, g)
    {
      assert u != g ==> Entry(more, t, u) == Entry(ram, t, u);
    }
    SameOwners(ram, t, free, more, n);
    PoolInStock(ram, t, free, n, stock);
  }

  /** The guard page keeps its contents, and so does every other page. */
  lemma GuardContents(ram: Ram, t: Tree, free: seq<nat>, more: Ram, sz: nat, stock: set<nat>, v: nat)
    requires Image(ram, t, free, sz, stock) && sz % PGSIZE == 0 && sz >= 2 * PGSIZE && v < sz / PGSIZE
    requires var g := sz / PGSIZE - 2; Edited(ram, t, free, more, t, free, map[g := ClearUser(Entry(ram, t, g))])
    ensures PageAt(more, t, v) == PageAt(ram, t, v)
  {
    hide Entry, IsLeaf, IsValid, IsUser, Pte2Pa, PteFlags, Tables, ClearUser, UserPages, Pool;
    var g := sz / PGSIZE - 2;
    assert PageCount(sz) == sz / PGSIZE;
    ImageEntry(ram, t, free, sz, stock, g);
    ClearedUser(Entry(ram, t, g));
    assert CanClear(ram, t, v, true);
    assert PageOf(more, t, v) == PageOf(ram, t, v);
    assert PageOf(ram, t, v) !in free && PageOf(ram, t, v) !in Tables(t);
  }

  /** The guard page loses its user flag, and no other page loses anything. */
  lemma GuardFlags(ram: Ram, t: Tree, free: seq<nat>, more: Ram, sz: nat, stock: set<nat>, v: nat)
    requires Image(ram, t, free, sz, stock) && sz % PGSIZE == 0 && sz >= 2 * PGSIZE && v < sz / PGSIZE
    requires var g := sz / PGSIZE - 2; Edited(ram, t, free, more, t, free, map[g := ClearUser(Entry(ram, t, g))])
    ensures FlagsAt(more, t, v) == FlagsAt(ram, t, v) - if v == sz / PGSIZE - 2 then PTE_U else 0
  {
    hide Entry, IsLeaf, IsValid, IsUser, Pte2Pa, PteFlags, Tables, ClearUser, UserPages, Pool;
    var g := sz / PGSIZE - 2;
    assert PageCount(sz) == sz / PGSIZE;
    ImageEntry(ram, t, free, sz, stock, g);
    ClearedUser(Entry(ram, t, g));
  }

  lemma ImageEntry(ram: Ram, t: Tree, free: seq<nat>, sz: nat, stock: set<nat>, v: nat)
    requires Image(ram, t, free, sz, stock) && v < PageCount(sz)
    ensures IsValid(Entry(ram, t, v)) && IsUser(Entry(ram, t, v)) && IsLeaf(Entry(ram, t, v)) && CanUnmap(ram, t, v)
    ensures v < PAGES
  {
    hide Entry, IsLeaf, IsValid, IsUser, Pte2Pa, PteFlags, Tables;
    assert UserAt(ram, t, v) && CanClear(ram, t, v, true);
  }

  lemma SameOwners(ram: Ram, t: Tree, free: seq<nat>, more: Ram, n: nat)
    requires OwnedAt(ram, t, free, 0, PAGES)
    requires forall u: nat :: PageOf(more, t, u) == PageOf(ram, t, u)
    requires forall u: nat :: CanUnmap(more, t, u) <==> CanUnmap(ram, t, u)
    ensures OwnedAt(more, t, free, 0, PAGES) && UserPages(more, t, n) == UserPages(ram, t, n)
  {
    hide PageOf, CanUnmap;
  }

  lemma PoolInStock(ram: Ram, t: Tree, free: seq<nat>, n: nat, stock: set<nat>)
    requires Process(ram, t, free, n, stock)
    ensures Tables(t) + Elems(free) <= stock
  {
  }

  datatype Built = Ready(sz: nat) | GaveUp | Stuck

  /** The outcome for the two pages above an image of sz bytes. */
  function StackSpec(all: nat, sz: nat): Built {
    if 3 + UserCost(PageCount(sz) + 2) <= all then Ready(PgRoundUp(sz) + 2 * PGSIZE)
    else if 3 + UserCost(PageCount(sz) + 1) > all then GaveUp
    else Stuck
  }

  lemma TwoMore(sz: nat)
    ensures var top := PgRoundUp(sz);
            && PageCount(top) == PageCount(sz) && PageCount(top + 2 * PGSIZE) == PageCount(sz) + 2
            && PagesBetween(top, top + 2 * PGSIZE) == 2 && (top + 2 * PGSIZE) / PGSIZE == PageCount(sz) + 2
  {
  }

  /** The flags of the image with its two pages on top: the guard page is the kernel's, the stack can be written. */
  function StackFlags(ram: Ram, t: Tree, n: nat, v: nat): nat {
    if v < n then FlagsAt(ram, t, v) else if v == n then PTE_V + PTE_R + PTE_W else UserFlags(true, false)
  }

  /** The two pages above the image: a guard page and the stack. */
  method StackPages(m: PhysMem, ghost t: Tree, root: nat, sz: nat, ghost stock: set<nat>, ghost all: nat)
    returns (r: Built, ghost t': Tree)
    requires VmOk(m, t) && root == t.root && Image(m.ram, t, m.free, sz, stock)
    requires Metered(t, PageCount(sz), |m.free|, all) && all * PGSIZE <= PHYSTOP - KERNBASE
    modifies m
    ensures r == StackSpec(all, sz)
    ensures r.Ready? ==> Guarded(m.ram, t', m.free, r.sz, stock)
    ensures r.Ready? ==> forall v: nat :: v < r.sz / PGSIZE ==>
              PageAt(m.ram, t', v) == GrownPage(old(m.ram), t, PageCount(sz), v)
    ensures r.Ready? ==> forall v: nat :: v < r.sz / PGSIZE ==>
              FlagsAt(m.ram, t', v) == StackFlags(old(m.ram), t, PageCount(sz), v)
    ensures r.GaveUp? ==> Image(m.ram, t', m.free, sz, stock)
    ensures !r.Stuck? ==> VmOk(m, t') && t'.root == root && SameOutside(old(m.ram), m.ram, stock)
  {
    hide Image, VmOk, Metered, Guarded, Edited, UserCost, PgRoundUp, PagesBetween, PageAt, FlagsAt;
    var top := PgRoundUp(sz);
    Rounded(m.ram, t, m.free, sz, stock);
    TwoMore(sz);
    var g;
    g, t' := GrowImage(m, t, root, top, top + 2 * PGSIZE, PTE_W, stock, all);
    if g.Stopped? {
      return Stuck, t';
    }
    if g.Failed? {
      CanGrowOnce(top, top + 2 * PGSIZE, all);
      Rounded(m.ram, t', m.free, sz, stock);
      return GaveUp, t';
    }
    ghost var grown, rest := m.ram, m.free;
    GuardThere(m, t', top, stock);
    var o := Uvmclear(m, t', root, top);
    GuardSet(grown, t', rest, m.ram, top + 2 * PGSIZE, stock);
    forall v: nat | v < (top + 2 * PGSIZE) / PGSIZE
      ensures PageAt(m.ram, t', v) == GrownPage(old(m.ram), t, PageCount(sz), v)
    {
      assert PageAt(grown, t', v) == GrownPage(old(m.ram), t, PageCount(sz), v);
      GuardContents(grown, t', rest, m.ram, top + 2 * PGSIZE, stock, v);
    }
    forall v: nat | v < (top + 2 * PGSIZE) / PGSIZE
      ensures FlagsAt(m.ram, t', v) == StackFlags(old(m.ram), t, PageCount(sz), v)
    {
      assert FlagsAt(grown, t', v) == GrownFlags(old(m.ram), t, PageCount(sz), PTE_W, v);
      GuardFlags(grown, t', rest, m.ram, top + 2 * PGSIZE, stock, v);
    }
    SameOutsideTrans(old(m.ram), grown, m.ram, stock, stock);
    return Ready(top + 2 * PGSIZE), t';
  }

  lemma Rounded(ram: Ram, t: Tree, free: seq<nat>, sz: nat, stock: set<nat>)
    ensures Image(ram, t, free, PgRoundUp(sz), stock) <==> Image(ram, t, free, sz, stock)
    ensures PgRoundUp(sz) % PGSIZE == 0
  {
    assert PgRoundUp(PgRoundUp(sz)) == PgRoundUp(sz);
  }

  lemma GuardThere(m: PhysMem, t: Tree, top: nat, stock: set<nat>)
    requires VmOk(m, t) && top % PGSIZE == 0 && Image(m.ram, t, m.free, top + 2 * PGSIZE, stock)
    ensures top < MAXVA && Need(t, top) == 0
    ensures top / PGSIZE == (top + 2 * PGSIZE) / PGSIZE - 2
  {
    hide Image, TreeOk, IsList;
    var v := top / PGSIZE;
    assert PgRoundUp(top + 2 * PGSIZE) / PGSIZE == v + 2;
    ImageEntry(m.ram, t, m.free, top + 2 * PGSIZE, stock, v);
    ValidNeedsNone(m.ram, t, top);
  }

  lemma ValidNeedsNone(ram: Ram, t: Tree, va: nat)
    requires TreeOk(ram, t) && IsValid(Entry(ram, t, va / PGSIZE)) && va / PGSIZE < PAGES
    ensures va < MAXVA && Need(t, va) == 0
  {
    PxDigits(va);
  }

  /** A process with only its kernel pages is an empty image. */
  lemma EmptyImage(m: PhysMem, t: Tree, free: seq<nat>, trampoline: nat, trapframe: nat)
    requires VmOk(m, t) && Pool(t, m.free) == Elems(free) && KernelOwned(free, trampoline, trapframe)
    requires forall v: nat :: Entry(m.ram, t, v) ==
               if v in KernelPages(trampoline, trapframe) then KernelPages(trampoline, trapframe)[v] else 0
    ensures Image(m.ram, t, m.free, 0, Elems(free))
  {
    hide Process, TreeOk, Entry, Pte2Pa, PteFlags;
    NewProcess(m, t, free, trampoline, trapframe);
    PteRoundTrip(trampoline, PTE_R + PTE_X);
    PteRoundTrip(trapframe, PTE_R + PTE_W);
    assert PgRoundUp(0) / PGSIZE == 0;
    forall v: nat ensures !UserAt(m.ram, t, v) {
    }
  }

  /** How exec ends before it comes to the arguments, on a machine with `all` free pages. */
  ghost function ExecSpec(all: nat, phs: seq<Header>, file: (nat, nat) -> Read): Built {
    if all < 3 then GaveUp
    else
      match SegmentsSpec(all, 0, phs, file, 0)
      case Fine(sz) => StackSpec(all, sz)
      case Bad(_) => GaveUp
      case _ => Stuck
  }

  /** The permissions of the whole image. */
  ghost predicate Mapped(ram: Ram, t: Tree, sz: nat, phs: seq<Header>) {
    forall v: nat :: v < sz / PGSIZE ==>
      if v < sz / PGSIZE - 2 then MapsAs(phs, |phs|, v, FlagsAt(ram, t, v))
      else FlagsAt(ram, t, v) == if v == sz / PGSIZE - 2 then PTE_V + PTE_R + PTE_W else UserFlags(true, false)
  }

  lemma StackMapped(ram: Ram, t: Tree, sz: nat, more: Ram, t': Tree, top: nat, phs: seq<Header>)
    requires ImageMaps(ram, t, sz, phs, |phs|) && top / PGSIZE == PageCount(sz) + 2
    requires forall v: nat :: v < top / PGSIZE ==> FlagsAt(more, t', v) == StackFlags(ram, t, PageCount(sz), v)
    ensures Mapped(more, t', top, phs)
  {
    hide FlagsAt, MapsAs, PgRoundUp;
    forall v: nat | v < PageCount(sz) ensures MapsAs(phs, |phs|, v, FlagsAt(more, t', v)) {
      assert MapsAs(phs, |phs|, v, FlagsAt(ram, t, v));
    }
  }

  /**
   exec up to the argument strings, for any program headers and any file. Either the new image stands: every page
   holds what the segments read into it, over zeros, and is mapped as the first segment that reaches it says, and
   above them are a zeroed guard page and a zeroed stack page; or exec gives up and exactly the pages that were free
   before are free again; or the kernel stops in uvmalloc. Which one is decided by the number of free pages, the
   headers and the file alone. It never stops in loadseg.
   */
  method ExecImage(m: PhysMem, trampoline: nat, trapframe: nat, phs: seq<Header>, file: (nat, nat) -> Read)
    returns (r: Built, root: nat, ghost t: Tree)
    requires m.Valid() && KernelOwned(m.free, trampoline, trapframe)
    modifies m
    ensures r == ExecSpec(|old(m.free)|, phs, file)
    ensures r.Ready? ==> VmOk(m, t) && t.root == root && Guarded(m.ram, t, m.free, r.sz, Elems(old(m.free)))
    ensures r.Ready? ==> forall i: nat :: i < |phs| && phs[i].load ==> phs[i].vaddr + phs[i].memsz + 2 * PGSIZE <= r.sz
    ensures r.Ready? ==> forall v: nat :: v < r.sz / PGSIZE ==>
              PageAt(m.ram, t, v) == if v < r.sz / PGSIZE - 2 then ImagePage(phs, file, |phs|, v) else Filled(0)
    ensures r.Ready? ==> Mapped(m.ram, t, r.sz, phs)
    ensures r.GaveUp? ==> m.Valid() && Elems(m.free) == Elems(old(m.free))
    ensures !r.Stuck? ==> SameOutside(old(m.ram), m.ram, Elems(old(m.free)))
  {
    hide VmOk, Image, Guarded, KernelPages, KernelTables, Metered, Process, Freeable, SegmentsSpec, UserCost, PgRoundUp;
    hide PageAt, ImagePage, FlagsAt, ImageMaps, Mapped;
    ghost var stock, all := Elems(m.free), |m.free|;
    m.FreeFits();
    root, t := ProcPagetable.ProcPagetable(m, trampoline, trapframe);
    if root == 0 {
      return GaveUp, root, t;
    }
    EmptyImage(m, t, old(m.free), trampoline, trapframe);
    EmptyMeter(t, |m.free|);
    ghost var ram := m.ram;
    var l;
    l, t := LoadSegments(m, t, root, phs, file, stock, all);
    if l.Panicked? {
      return Stuck, root, t;
    }
    SameOutsideTrans(old(m.ram), ram, m.ram, stock, stock);
    if l.Fine? {
      ghost var loaded, was := m.ram, t;
      RoundUpMultiple(l.sz);
      TwoMore(l.sz);
      r, t := StackPages(m, t, root, l.sz, stock, all);
      if r.Stuck? {
        return;
      }
      SameOutsideTrans(old(m.ram), loaded, m.ram, stock, stock);
      if r.Ready? {
        StackMapped(loaded, was, l.sz, m.ram, t, r.sz, phs);
        return;
      }
    }
    assert Process(m.ram, t, m.free, PageCount(l.sz), stock) by { IsProcess(m.ram, t, m.free, l.sz, stock); }
    ProcessIsFreeable(m.ram, t, m.free, PageCount(l.sz), stock);
    ghost var mid := m.ram;
    var o := ProcFreepagetable(m, t, root, l.sz, PageCount(l.sz), stock);
    SameOutsideTrans(old(m.ram), mid, m.ram, stock, stock);
    r := GaveUp;
  }

  lemma EmptyMeter(t: Tree, free: nat)
    requires KernelTables(t)
    ensures Metered(t, 0, free, free + 3)
  {
    NothingAdded(BareTree(), 0);
    RangeNext(0, 0);
  }

  lemma IsProcess(ram: Ram, t: Tree, free: seq<nat>, sz: nat, stock: set<nat>)
    requires Image(ram, t, free, sz, stock)
    ensures Process(ram, t, free, PageCount(sz), stock)
  {
  }

  /** That image is what building the argument stack asks for. */
  lemma ReadyForArgs(m: PhysMem, t: Tree, sz: nat, stock: set<nat>, mem: UserCopy.Mem)
    requires VmOk(m, t) && Guarded(m.ram, t, m.free, sz, stock) && mem.Keys == m.ram.Keys
    ensures ExecStack.StackOk(TransOf(m.ram, t), mem, sz)
    ensures sz / PGSIZE - 2 !in TransOf(m.ram, t)
  {
    hide Entry, IsLeaf, IsValid, IsUser, Pte2Pa, PteFlags, Tables, TreeOk, IsList, UserPages, Pool;
    var tr, n := TransOf(m.ram, t), sz / PGSIZE;
    forall v | v in tr
      ensures v < PAGES && tr[v] == PageOf(m.ram, t, v) && tr[v] in mem && tr[v] != 0 && CanUnmap(m.ram, t, v)
    {
      assert UserAt(m.ram, t, v);
      assert CanClear(m.ram, t, v, true) && m.Managed(PageOf(m.ram, t, v));
    }
    assert UserAt(m.ram, t, n - 1) && n - 1 < PAGES;
  }
}
