/** The argument stack that exec builds (kernel/src/exec.c). */
module ExecStack {
  import opened Blocks
  import opened Sv39
  import opened UserCopy
  import opened Names

  const MAXARG: nat := 32

  /** sp after the first k strings, ignoring bounds. */
  function SpAfter(sz: nat, args: seq<seq<Byte>>, k: nat): (sp: int)
    requires k <= |args|
    ensures sp <= sz
  {
    if k == 0 then sz else Align(SpAfter(sz, args, k - 1) - (|args[k - 1]| + 1))
  }

  /** Where string j goes. */
  function Ptr(sz: nat, args: seq<seq<Byte>>, j: nat): (p: int)
    requires j < |args|
    ensures p <= sz
  {
    SpAfter(sz, args, j + 1)
  }

  /** sp - sp % 16 */
  function Align(sp: int): (r: int)
    ensures sp - 16 < r <= sp && r % 16 == 0
  {
    sp - sp % 16
  }

  /** sp below the array of pointers and its final 0. */
  function FinalSp(sz: nat, args: seq<seq<Byte>>): (sp: int) {
    Align(SpAfter(sz, args, |args|) - (|args| + 1) * 8)
  }

  /** How building the stack ends: done, given up, or ustack written past its end. */
  datatype Pushing = Built(sp: nat) | TooBig | Overrun

  /** Everything fits in the stack page and ustack. */
  predicate ArgsFit(sz: nat, args: seq<seq<Byte>>) {
    |args| < MAXARG && FinalSp(sz, args) >= sz - PGSIZE
  }

  /** n rounded up to a multiple of 16. */
  function Rounded16(n: nat): nat {
    (n + 15) / 16 * 16
  }

  /** The bytes that the first k strings take, each with its terminator and in units of 16. */
  function StringBytes(args: seq<seq<Byte>>, k: nat): nat
    requires k <= |args|
  {
    if k == 0 then 0 else StringBytes(args, k - 1) + Rounded16(|args[k - 1]| + 1)
  }

  lemma {:induction false} SpIsSum(sz: nat, args: seq<seq<Byte>>, k: nat)
    requires sz % 16 == 0 && k <= |args|
    ensures SpAfter(sz, args, k) == sz - StringBytes(args, k)
  {
    if k > 0 {
      SpIsSum(sz, args, k - 1);
      var p, n := SpAfter(sz, args, k - 1), |args[k - 1]| + 1;
      assert p % 16 == 0;
      AlignedDown(p, n);
    }
  }

  lemma AlignedDown(p: int, n: nat)
    requires p % 16 == 0
    ensures Align(p - n) == p - Rounded16(n)
  {
  }

  /** The arguments fit exactly when there are fewer than MAXARG and strings and pointers fill no more than a page. */
  lemma FitIff(sz: nat, args: seq<seq<Byte>>)
    requires sz % 16 == 0
    ensures ArgsFit(sz, args) <==>
            |args| < MAXARG && StringBytes(args, |args|) + Rounded16(8 * (|args| + 1)) <= PGSIZE
  {
    SpIsSum(sz, args, |args|);
    assert SpAfter(sz, args, |args|) % 16 == 0;
    AlignedDown(SpAfter(sz, args, |args|), 8 * (|args| + 1));
  }

  lemma {:induction false} SpFalls(sz: nat, args: seq<seq<Byte>>, j: nat, k: nat)
    requires j <= k <= |args|
    ensures SpAfter(sz, args, k) <= SpAfter(sz, args, j)
    decreases k
  {
    if j < k {
      SpFalls(sz, args, j, k - 1);
    }
  }

  /** String j ends where string j - 1 begins or before: no two overlap. */
  lemma NoOverlap(sz: nat, args: seq<seq<Byte>>, j: nat)
    requires j < |args|
    ensures Ptr(sz, args, j) + |args[j]| + 1 <= SpAfter(sz, args, j)
    ensures j > 0 ==> SpAfter(sz, args, j) == Ptr(sz, args, j - 1)
  {
  }

  /** A 64-bit integer in memory. */
  function Le64(n: nat): (s: seq<Byte>)
    requires n < WORD64
    ensures |s| == 8 && Pack(s) == n
  {
    EightBytes();
    Digits(n, 8)
  }

  lemma EightBytes()
    ensures Power256(8) == WORD64
  {
    assert Power256(4) == 0x1_0000_0000;
  }

  /** The 64-bit integer at address va is n. */
  predicate HoldsWord(tr: Trans, mem: Mem, va: nat, n: nat) {
    Backed(tr, mem) && AllMapped(tr, va, 8) && Pack(GetBytes(tr, mem, va, 8)) == n
  }

  /** ustack in memory: the pointers one after the other. */
  function Words(ps: seq<nat>): (s: seq<Byte>)
    requires forall i: nat :: i < |ps| ==> ps[i] < WORD64
    ensures |s| == 8 * |ps|
  {
    if ps == [] then [] else Words(ps[..|ps| - 1]) + Le64(ps[|ps| - 1])
  }

  lemma {:induction false} WordAt(ps: seq<nat>, k: nat)
    requires k < |ps| && forall i: nat :: i < |ps| ==> ps[i] < WORD64
    ensures Words(ps)[8 * k..8 * k + 8] == Le64(ps[k])
  {
    var n := |ps| - 1;
    if k < n {
      WordAt(ps[..n], k);
      assert Words(ps)[8 * k..8 * k + 8] == Words(ps[..n])[8 * k..8 * k + 8];
    } else {
      assert Words(ps)[8 * k..8 * k + 8] == Le64(ps[n]);
    }
  }

  /** The bytes s are at address va. */
  predicate Holds(tr: Trans, mem: Mem, va: nat, s: seq<Byte>) {
    Backed(tr, mem) && AllMapped(tr, va, |s|) && GetBytes(tr, mem, va, |s|) == s
  }

  /** The stack page is mapped: every address from its base to its end. */
  lemma StackMapped(tr: Trans, sz: nat, va: nat, n: nat)
    requires sz % PGSIZE == 0 && sz >= PGSIZE && sz / PGSIZE - 1 in tr && sz - PGSIZE <= va && va + n <= sz
    ensures AllMapped(tr, va, n)
  {
    forall a: nat | va <= a < va + n ensures Mapped(tr, a) {
      assert a / PGSIZE == sz / PGSIZE - 1;
    }
  }

  /** Storing elsewhere leaves bytes where they are. */
  lemma HoldsStill(tr: Trans, mem: Mem, va: nat, s: seq<Byte>, at: nat, t: seq<Byte>)
    requires Backed(tr, mem) && Injective(tr) && AllMapped(tr, va, |s|) && Holds(tr, mem, at, t)
    requires (va + |s| <= at || at + |t| <= va)
    ensures Holds(tr, SetBytes(tr, mem, va, s), at, t)
  {
    var m := SetBytes(tr, mem, va, s);
    forall i: nat | i < |t| ensures GetBytes(tr, m, at, |t|)[i] == t[i] {
      assert Mapped(tr, at + i);
      SetBytesAt(tr, mem, va, s, at + i);
      assert GetBytes(tr, mem, at, |t|)[i] == t[i];
    }
  }

  /** The first k strings are in place, each with its terminator. */
  ghost predicate Pushed(tr: Trans, mem: Mem, sz: nat, args: seq<seq<Byte>>, k: nat)
    requires k <= |args|
  {
    forall j: nat {:trigger Ptr(sz, args, j)} :: j < k ==>
        Ptr(sz, args, j) >= 0 && Holds(tr, mem, Ptr(sz, args, j), args[j] + [0])
  }

  /** Nothing outside [sp, sz) changed. */
  ghost predicate OnlyFrom(tr: Trans, mem: Mem, mem': Mem, sp: int, sz: nat) {
    Backed(tr, mem) && Backed(tr, mem') && forall a: nat {:trigger Mapped(tr, a)} ::
        Mapped(tr, a) && !(sp <= a < sz) ==> ByteAt(tr, mem', a) == ByteAt(tr, mem, a)
  }

  lemma StoreOnly(tr: Trans, mem: Mem, mid: Mem, sp: int, sz: nat, va: nat, s: seq<Byte>)
    requires Injective(tr) && OnlyFrom(tr, mem, mid, sp, sz) && AllMapped(tr, va, |s|) && va <= sp && va + |s| <= sz
    ensures OnlyFrom(tr, mem, SetBytes(tr, mid, va, s), va, sz)
  {
    forall a: nat | Mapped(tr, a) && !(va <= a < sz)
      ensures ByteAt(tr, SetBytes(tr, mid, va, s), a) == ByteAt(tr, mem, a)
    {
      SetBytesAt(tr, mid, va, s, a);
    }
  }

  /** sp - n on 64-bit unsigned integers */
  function Minus64(sp: nat, n: nat): nat
    requires sp < WORD64 && n <= WORD64
  {
    if sp >= n then sp - n else sp + WORD64 - n
  }

  /** What the stack is built on: the page below sz is mapped, no page is mapped twice, all below MAXVA. */
  ghost predicate StackOk(tr: Trans, mem: Mem, sz: nat) {
    && Backed(tr, mem) && Injective(tr) && sz % PGSIZE == 0 && 2 * PGSIZE <= sz <= MAXVA
    && sz / PGSIZE - 1 in tr
  }

  /** One turn of the loop: push string k. False exactly when it does not fit. */
  method PushString(u: UserMem, sz: nat, ghost args: seq<seq<Byte>>, ghost k: nat, sp: nat, arg: seq<Byte>,
                    ghost mem0: Mem) returns (ok: bool, sp': nat)
    requires StackOk(u.tr, u.mem, sz) && k < |args| && args[k] == arg && |arg| < WORD64 / 2
    requires sp == SpAfter(sz, args, k) && sz - PGSIZE <= sp && Pushed(u.tr, u.mem, sz, args, k)
    requires OnlyFrom(u.tr, mem0, u.mem, sp, sz)
    modifies u
    ensures Backed(u.tr, u.mem)
    ensures ok <==> SpAfter(sz, args, k + 1) >= sz - PGSIZE
    ensures ok ==>
              && sp' == SpAfter(sz, args, k + 1)
              && Pushed(u.tr, u.mem, sz, args, k + 1)
              && OnlyFrom(u.tr, mem0, u.mem, sp', sz)
  {
    hide Pushed, OnlyFrom, SetBytes, SpAfter, Holds;
    NextSp(sz, args, k);
    sp' := Minus64(sp, |arg| + 1);
    AlignWrap(sp, |arg| + 1);
    sp' := sp' - sp' % 16;
    if sp' < sz - PGSIZE {
      return false, sp';
    }
    ghost var mem := u.mem;
    if sp' >= MAXVA {
      Beyond(u.tr, u.mem, sp');
    } else {
      StackMapped(u.tr, sz, sp', |arg| + 1);
    }
    ok := u.Copyout(sp', arg + [0]);
    if ok {
      PushedOne(u.tr, mem, sz, args, k, sp');
      StoreOnly(u.tr, mem0, mem, sp, sz, sp', arg + [0]);
    } else {
      assert Backed(u.tr, u.mem);
    }
  }

  lemma NextSp(sz: nat, args: seq<seq<Byte>>, k: nat)
    requires k < |args|
    ensures SpAfter(sz, args, k + 1) == Align(SpAfter(sz, args, k) - (|args[k]| + 1)) && SpAfter(sz, args, k) <= sz
  {
  }

  /** Either the subtraction stays in range and aligns as on integers, or it wraps far above MAXVA. */
  lemma AlignWrap(sp: nat, n: nat)
    requires sp <= MAXVA && n <= WORD64 / 2
    ensures var p := Minus64(sp, n);
            if sp >= n then p - p % 16 == Align(sp - n) else p - p % 16 >= MAXVA && Align(sp - n) < 0
  {
  }

  lemma Beyond(tr: Trans, mem: Mem, va: nat)
    requires Backed(tr, mem) && va >= MAXVA
    ensures !Mapped(tr, va)
  {
    assert va / PGSIZE >= PAGES;
  }

  lemma PushedOne(tr: Trans, mem: Mem, sz: nat, args: seq<seq<Byte>>, k: nat, sp: nat)
    requires Backed(tr, mem) && Injective(tr) && k < |args| && Pushed(tr, mem, sz, args, k)
    requires sp == SpAfter(sz, args, k + 1)
    requires AllMapped(tr, sp, |args[k]| + 1)
    ensures Pushed(tr, SetBytes(tr, mem, sp, args[k] + [0]), sz, args, k + 1)
  {
    hide SetBytes, SpAfter;
    var s := args[k] + [0];
    var m := SetBytes(tr, mem, sp, s);
    RoundTrip(tr, mem, sp, s);
    assert Holds(tr, m, sp, s);
    NoOverlap(sz, args, k);
    forall j: nat | j < k ensures Ptr(sz, args, j) >= 0 && Holds(tr, m, Ptr(sz, args, j), args[j] + [0]) {
      SpFalls(sz, args, j + 1, k);
      HoldsStill(tr, mem, sp, s, Ptr(sz, args, j), args[j] + [0]);
    }
  }

  /** The pointers exec collects: where each string is, and the final 0. */
  function Pointers(sz: nat, args: seq<seq<Byte>>, k: nat): (ps: seq<int>)
    requires k <= |args|
    ensures |ps| == k && forall j: nat {:trigger ps[j]} :: j < k ==> ps[j] == Ptr(sz, args, j)
  {
    if k == 0 then [] else Pointers(sz, args, k - 1) + [SpAfter(sz, args, k)]
  }

  /** What the finished stack holds. */
  ghost predicate Stacked(tr: Trans, mem: Mem, sz: nat, args: seq<seq<Byte>>, sp: nat) {
    && sp == FinalSp(sz, args) && sp % 16 == 0 && sz - PGSIZE <= sp
    && sp + 8 * (|args| + 1) <= SpAfter(sz, args, |args|) <= sz
    && Pushed(tr, mem, sz, args, |args|)
    && (forall j: nat {:trigger Ptr(sz, args, j)} :: j < |args| ==>
         Ptr(sz, args, j) >= 0 && HoldsWord(tr, mem, sp + 8 * j, Ptr(sz, args, j)))
    && HoldsWord(tr, mem, sp + 8 * |args|, 0)
  }

  /**
   The argument stack: it is built exactly when everything fits in the page below sz and there are fewer than
   MAXARG arguments. Then sp is aligned, argc pointers and a 0 are at sp, each pointer leads to its string with
   its terminator, no two pieces overlap, and nothing outside the stack page has changed. With exactly MAXARG
   arguments whose strings fit, and in no other case, the final 0 goes past the end of ustack.
   */
  method ArgStack(u: UserMem, sz: nat, args: seq<seq<Byte>>) returns (r: Pushing)
    requires StackOk(u.tr, u.mem, sz)
    requires forall j: nat :: j < |args| ==> IsString(args[j]) && |args[j]| < WORD64 / 2
    modifies u
    ensures Backed(u.tr, u.mem) && (r.Built? <==> ArgsFit(sz, args))
    ensures r.Overrun? <==> |args| == MAXARG && SpAfter(sz, args, MAXARG) >= sz - PGSIZE
    ensures r.Built? ==> Stacked(u.tr, u.mem, sz, args, r.sp) && OnlyFrom(u.tr, old(u.mem), u.mem, r.sp, sz)
  {
    hide Pushed, OnlyFrom, SpAfter;
    var sp, argc, ustack := sz, 0, [];
    StartSp(u.tr, u.mem, sz, args);
    while argc < |args|
      invariant argc <= |args| && argc <= MAXARG && StackOk(u.tr, u.mem, sz) && sp == SpAfter(sz, args, argc)
      invariant sz - PGSIZE <= sp
      invariant Pushed(u.tr, u.mem, sz, args, argc) && OnlyFrom(u.tr, old(u.mem), u.mem, sp, sz)
      invariant ustack == Pointers(sz, args, argc)
    {
      if argc >= MAXARG {
        return TooBig;
      }
      FitsSoFar(sz, args, argc + 1);
      var ok;
      ok, sp := PushString(u, sz, args, argc, sp, args[argc], old(u.mem));
      if !ok {
        if |args| == MAXARG {
          SpFalls(sz, args, argc + 1, MAXARG);
        }
        return TooBig;
      }
      ustack := ustack + [sp];
      argc := argc + 1;
    }
    if argc == MAXARG {
      return Overrun;
    }
    var ok;
    ok, sp := PushPointers(u, sz, args, sp, ustack, old(u.mem));
    return if ok then Built(sp) else TooBig;
  }

  lemma StartSp(tr: Trans, mem: Mem, sz: nat, args: seq<seq<Byte>>)
    requires Backed(tr, mem)
    ensures SpAfter(sz, args, 0) == sz && Pushed(tr, mem, sz, args, 0) && OnlyFrom(tr, mem, mem, sz, sz)
  {
  }

  lemma FitsSoFar(sz: nat, args: seq<seq<Byte>>, k: nat)
    requires k <= |args|
    ensures ArgsFit(sz, args) ==> SpAfter(sz, args, k) >= sz - PGSIZE
  {
    SpFalls(sz, args, k, |args|);
  }

  /** The end of the construction: the pointer array. */
  method PushPointers(u: UserMem, sz: nat, ghost args: seq<seq<Byte>>, sp: nat, ptrs: seq<int>, ghost mem0: Mem)
    returns (ok: bool, sp': nat)
    requires StackOk(u.tr, u.mem, sz) && |args| < MAXARG && sp == SpAfter(sz, args, |args|) && sz - PGSIZE <= sp
    requires Pushed(u.tr, u.mem, sz, args, |args|) && OnlyFrom(u.tr, mem0, u.mem, sp, sz)
    requires ptrs == Pointers(sz, args, |args|)
    modifies u
    ensures Backed(u.tr, u.mem) && (ok <==> ArgsFit(sz, args))
    ensures ok ==> Stacked(u.tr, u.mem, sz, args, sp') && OnlyFrom(u.tr, mem0, u.mem, sp', sz)
  {
    hide Pushed, OnlyFrom, SpAfter, SetBytes, Stacked, Words, Holds, AllMapped, Injective;
    PointerRange(u.tr, u.mem, sz, args);
    var ustack: seq<nat> := ptrs + [0];
    sp' := sp - |ustack| * 8;
    sp' := sp' - sp' % 16;
    if sp' < sz - PGSIZE {
      return false, sp';
    }
    StackMapped(u.tr, sz, sp', |ustack| * 8);
    ghost var mem := u.mem;
    ok := u.Copyout(sp', Words(ustack));
    StoreOnly(u.tr, mem0, mem, sp, sz, sp', Words(ustack));
    PointersIn(u.tr, mem, sz, args, sp', ustack);
  }

  lemma PointerRange(tr: Trans, mem: Mem, sz: nat, args: seq<seq<Byte>>)
    requires Pushed(tr, mem, sz, args, |args|) && sz <= MAXVA
    ensures forall j: nat {:trigger Ptr(sz, args, j)} :: j < |args| ==> 0 <= Ptr(sz, args, j) < WORD64
    ensures forall j: nat :: j < |args| ==> 0 <= Pointers(sz, args, |args|)[j] < WORD64
  {
    hide SpAfter;
    var ps := Pointers(sz, args, |args|);
    forall j: nat | j < |args| ensures 0 <= ps[j] < WORD64 {
      assert ps[j] == Ptr(sz, args, j);
    }
    assert forall j: nat {:trigger Ptr(sz, args, j)} :: j < |args| ==> ps[j] == Ptr(sz, args, j);
  }

  lemma PartOfRange(tr: Trans, mem: Mem, va: nat, s: seq<Byte>, i: nat, n: nat)
    requires Holds(tr, mem, va, s) && i + n <= |s|
    ensures Holds(tr, mem, va + i, s[i..i + n])
  {
    assert AllMapped(tr, va + i, n);
    var g, p := GetBytes(tr, mem, va + i, n), s[i..i + n];
    forall j: nat | j < n ensures g[j] == p[j] {
      assert GetBytes(tr, mem, va, |s|)[i + j] == s[i + j];
    }
  }

  lemma PointersIn(tr: Trans, mem: Mem, sz: nat, args: seq<seq<Byte>>, sp: nat, ustack: seq<nat>)
    requires Backed(tr, mem) && Injective(tr) && sz <= MAXVA && Pushed(tr, mem, sz, args, |args|)
    requires AllMapped(tr, sp, 8 * |ustack|)
    requires sp == FinalSp(sz, args) && sz - PGSIZE <= sp
    requires |ustack| == |args| + 1 && ustack[|args|] == 0
    requires forall j: nat {:trigger ustack[j]} :: j < |args| ==> ustack[j] == Ptr(sz, args, j)
    requires forall j: nat :: j < |ustack| ==> ustack[j] < WORD64
    ensures Stacked(tr, SetBytes(tr, mem, sp, Words(ustack)), sz, args, sp)
  {
    hide SpAfter, SetBytes, Pushed, Le64, Words, Pack;
    var s := Words(ustack);
    var m := SetBytes(tr, mem, sp, s);
    RoundTrip(tr, mem, sp, s);
    assert Holds(tr, m, sp, s);
    hide Holds;
    forall j: nat | j < |ustack| ensures HoldsWord(tr, m, sp + 8 * j, ustack[j]) {
      WordAt(ustack, j);
      PartOfRange(tr, m, sp, s, 8 * j, 8);
      IsWord(tr, m, sp + 8 * j, ustack[j]);
    }
    hide HoldsWord;
    StringsStay(tr, mem, sz, args, sp, s);
    assert HoldsWord(tr, m, sp + 8 * |args|, ustack[|args|]);
    forall j: nat | j < |args| ensures Ptr(sz, args, j) >= 0 && HoldsWord(tr, m, sp + 8 * j, Ptr(sz, args, j)) {
      assert ustack[j] == Ptr(sz, args, j) && HoldsWord(tr, m, sp + 8 * j, ustack[j]);
    }
  }

  lemma IsWord(tr: Trans, mem: Mem, va: nat, n: nat)
    requires n < WORD64 && Holds(tr, mem, va, Le64(n))
    ensures HoldsWord(tr, mem, va, n)
  {
  }

  lemma StringsStay(tr: Trans, mem: Mem, sz: nat, args: seq<seq<Byte>>, sp: nat, s: seq<Byte>)
    requires Backed(tr, mem) && Injective(tr) && Pushed(tr, mem, sz, args, |args|) && AllMapped(tr, sp, |s|)
    requires sp + |s| <= SpAfter(sz, args, |args|)
    ensures Pushed(tr, SetBytes(tr, mem, sp, s), sz, args, |args|)
  {
    hide SpAfter, SetBytes, Holds;
    forall j: nat | j < |args|
      ensures Ptr(sz, args, j) >= 0 && Holds(tr, SetBytes(tr, mem, sp, s), Ptr(sz, args, j), args[j] + [0])
    {
      SpFalls(sz, args, j + 1, |args|);
      HoldsStill(tr, mem, sp, s, Ptr(sz, args, j), args[j] + [0]);
    }
  }
}
