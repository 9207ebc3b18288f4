/**
 Addresses and page-table entries of Sv39 (section 4.4 of the RISC-V Privileged Architecture,
 version 20211203) as kernel/inc/riscv.h computes them. Shifts and masks are written as division
 and remainder by powers of two.
 */
module Sv39 {
  const PGSIZE: nat := 4096
  const PTES: nat := 512
  const MAXVA: nat := 0x40_0000_0000
  const PAGES: nat := 0x400_0000  // MAXVA / PGSIZE

  const PTE_V: nat := 1
  const PTE_R: nat := 2
  const PTE_W: nat := 4
  const PTE_X: nat := 8
  const PTE_U: nat := 16
  const TRAMPOLINE: nat := MAXVA - PGSIZE
  const TRAPFRAME: nat := TRAMPOLINE - PGSIZE

  const WORD64: nat := 0x1_0000_0000_0000_0000

  function PgRoundUp(sz: nat): nat {
    (sz + PGSIZE - 1) / PGSIZE * PGSIZE
  }

  function PgRoundDown(a: nat): nat {
    a / PGSIZE * PGSIZE
  }

  /** (pa >> 12) << 10 */
  function Pa2Pte(pa: nat): nat {
    1024 * (pa / PGSIZE)
  }

  /** (pte >> 10) << 12 */
  function Pte2Pa(pte: nat): nat {
    pte / 1024 * PGSIZE
  }

  function PteFlags(pte: nat): nat {
    pte % 1024
  }

  predicate IsValid(pte: nat) {
    pte % 2 == 1
  }

  predicate IsUser(pte: nat) {
    pte / PTE_U % 2 == 1
  }

  /** pte & (PTE_R | PTE_W | PTE_X) != 0 */
  predicate IsLeaf(pte: nat) {
    pte / 2 % 8 != 0
  }

  /** PA2PTE(pa) | perm | PTE_V, for permission bits inside the ten flag bits. */
  function MakePte(pa: nat, perm: nat): nat
    requires perm < 1024
  {
    Pa2Pte(pa) + (perm / 2 * 2 + 1)
  }

  /** PA2PTE(pa) | PTE_V: an entry that points to a lower table. */
  function TablePte(pa: nat): nat {
    MakePte(pa, 0)
  }

  /** The index at each level: (va >> (12 + 9 * level)) & 0x1ff. */
  function Px(level: nat, va: nat): (i: nat)
    requires level <= 2
    ensures i < PTES
  {
    if level == 2 then va / 0x4000_0000 % PTES
    else if level == 1 then va / 0x20_0000 % PTES
    else va / PGSIZE % PTES
  }

  lemma LeafBits(n: nat, q: nat)
    ensures (1024 * n + (2 * q + 1)) / 2 % 8 == q % 8
  {
    assert (1024 * n + (2 * q + 1)) / 2 == 512 * n + q;
    var a, b := q / 8, q % 8;
    assert 512 * n + q == 8 * (64 * n + a) + b;
  }

  lemma UserBit(n: nat, h: nat, l: nat)
    requires l < 16
    ensures (1024 * n + (16 * h + l)) / 16 % 2 == h % 2
  {
    assert (1024 * n + (16 * h + l)) / 16 == 2 * (32 * n) + h;
  }

  lemma FlagBits(n: nat, perm: nat)
    ensures (1024 * n + (perm / 2 * 2 + 1)) / 2 % 8 == perm / 2 % 8
    ensures (1024 * n + (perm / 2 * 2 + 1)) / 16 % 2 == perm / 16 % 2
  {
    var q, h, l := perm / 2, perm / 16, perm % 16 / 2 * 2 + 1;
    LeafBits(n, q);
    assert q * 2 + 1 == 16 * h + l;
    UserBit(n, h, l);
  }

  lemma PageBits(n: nat, f: nat)
    requires f < 1024
    ensures (1024 * n + f) / 1024 == n && (1024 * n + f) % 1024 == f && (1024 * n + f) % 2 == f % 2
  {
    assert 1024 * n + f == 2 * (512 * n + f / 2) + f % 2;
  }

  /** Building an entry and taking it apart again gives back the page and the flags. */
  lemma PteRoundTrip(pa: nat, perm: nat)
    requires pa % PGSIZE == 0 && perm < 1024
    ensures Pte2Pa(MakePte(pa, perm)) == pa
    ensures PteFlags(MakePte(pa, perm)) == perm / 2 * 2 + 1
    ensures IsValid(MakePte(pa, perm))
    ensures IsLeaf(MakePte(pa, perm)) <==> perm / 2 % 8 != 0
    ensures IsUser(MakePte(pa, perm)) <==> perm / PTE_U % 2 == 1
  {
    var n := pa / PGSIZE;
    PageBits(n, perm / 2 * 2 + 1);
    FlagBits(n, perm);
  }

  /** Below MAXVA the three indices are the digits of the page number, so they identify it. */
  lemma PxDigits(va: nat)
    requires va < MAXVA
    ensures var v := va / PGSIZE;
            && Px(2, va) == v / PTES / PTES && Px(1, va) == v / PTES % PTES && Px(0, va) == v % PTES
            && v == (Px(2, va) * PTES + Px(1, va)) * PTES + Px(0, va)
  {
  }
}
