/**
 Copying between kernel and user memory (copyout, copyin, copyinstr in kernel/src/vm.c). User memory is the
 translation walkaddr computes, page number to physical page, and the bytes of the physical pages.
 */
module UserCopy {
  import opened Blocks
  import opened Sv39

  type Page = p: seq<Byte> | |p| == PGSIZE witness seq(4096, _ => 0)

  /** Page numbers with a user mapping, and the pages they lead to. */
  type Trans = map<nat, nat>
  type Mem = map<nat, Page>

  /** Every translation is below MAXVA and leads to a page that is there. */
  predicate Backed(tr: Trans, mem: Mem) {
    forall v :: v in tr ==> v < PAGES && tr[v] in mem && tr[v] != 0
  }

  /** walkaddr, for the translation it stands for */
  function Walkaddr(tr: Trans, va: nat): nat {
    if va / PGSIZE in tr then tr[va / PGSIZE] else 0
  }

  predicate Mapped(tr: Trans, va: nat) {
    va / PGSIZE in tr
  }

  // Byte by byte.

  function ByteAt(tr: Trans, mem: Mem, va: nat): Byte
    requires Backed(tr, mem) && Mapped(tr, va)
  {
    mem[tr[va / PGSIZE]][va % PGSIZE]
  }

  function SetByte(tr: Trans, mem: Mem, va: nat, b: Byte): (m: Mem)
    requires Backed(tr, mem) && Mapped(tr, va)
    ensures Backed(tr, m)
  {
    var pa := tr[va / PGSIZE];
    mem[pa := mem[pa][va % PGSIZE := b]]
  }

  predicate AllMapped(tr: Trans, va: nat, n: nat) {
    forall a: nat {:trigger Mapped(tr, a)} :: va <= a < va + n ==> Mapped(tr, a)
  }

  /** The bytes stored one after the other. */
  function SetBytes(tr: Trans, mem: Mem, va: nat, s: seq<Byte>): (m: Mem)
    requires Backed(tr, mem) && AllMapped(tr, va, |s|)
    ensures Backed(tr, m)
  {
    if s == [] then mem
    else
      var n := |s| - 1;
      assert Mapped(tr, va + n);
      SetByte(tr, SetBytes(tr, mem, va, s[..n]), va + n, s[n])
  }

  function GetBytes(tr: Trans, mem: Mem, va: nat, n: nat): (s: seq<Byte>)
    requires Backed(tr, mem) && AllMapped(tr, va, n)
    ensures |s| == n && forall i: nat {:trigger s[i]} :: i < n ==> Mapped(tr, va + i) && s[i] == ByteAt(tr, mem, va + i)
  {
    seq<Byte>(n, i requires 0 <= i < n => ByteAt(tr, mem, va + i))
  }

  /** No page is mapped at two addresses. */
  predicate Injective(tr: Trans) {
    forall u, v :: u in tr && v in tr && u != v ==> tr[u] != tr[v]
  }

  lemma SetByteAt(tr: Trans, mem: Mem, va: nat, b: Byte, a: nat)
    requires Backed(tr, mem) && Injective(tr) && Mapped(tr, va) && Mapped(tr, a)
    ensures ByteAt(tr, SetByte(tr, mem, va, b), a) == if a == va then b else ByteAt(tr, mem, a)
  {
    assert a / PGSIZE == va / PGSIZE && a % PGSIZE == va % PGSIZE ==> a == va;
  }

  /** On an injective mapping, storing bytes changes exactly their addresses. */
  lemma {:induction false} SetBytesAt(tr: Trans, mem: Mem, va: nat, s: seq<Byte>, a: nat)
    requires Backed(tr, mem) && Injective(tr) && AllMapped(tr, va, |s|) && Mapped(tr, a)
    ensures ByteAt(tr, SetBytes(tr, mem, va, s), a) == if va <= a < va + |s| then s[a - va] else ByteAt(tr, mem, a)
  {
    if s != [] {
      var n := |s| - 1;
      assert Mapped(tr, va + n);
      SetBytesAt(tr, mem, va, s[..n], a);
      SetByteAt(tr, SetBytes(tr, mem, va, s[..n]), va + n, s[n], a);
    }
  }

  /** The two addresses are the same byte of the same page. */
  predicate SameByte(tr: Trans, a: nat, b: nat)
    requires Mapped(tr, a) && Mapped(tr, b)
  {
    tr[a / PGSIZE] == tr[b / PGSIZE] && a % PGSIZE == b % PGSIZE
  }

  /** No two addresses of the range share a byte. */
  predicate NoAlias(tr: Trans, va: nat, n: nat)
    requires AllMapped(tr, va, n)
  {
    forall a: nat, b: nat {:trigger SameByte(tr, a, b)} :: va <= a < b < va + n ==>
      Mapped(tr, a) && Mapped(tr, b) && !SameByte(tr, a, b)
  }

  lemma {:induction false} StoredAt(tr: Trans, mem: Mem, va: nat, s: seq<Byte>, i: nat)
    requires Backed(tr, mem) && AllMapped(tr, va, |s|) && NoAlias(tr, va, |s|) && i < |s|
    ensures Mapped(tr, va + i) && ByteAt(tr, SetBytes(tr, mem, va, s), va + i) == s[i]
  {
    var n := |s| - 1;
    assert Mapped(tr, va + n) && Mapped(tr, va + i);
    if i < n {
      StoredAt(tr, mem, va, s[..n], i);
      assert !SameByte(tr, va + i, va + n);
    }
  }

  /** What copyout stored is what copyin reads, on every injective mapping. */
  lemma RoundTrip(tr: Trans, mem: Mem, va: nat, s: seq<Byte>)
    requires Backed(tr, mem) && Injective(tr) && AllMapped(tr, va, |s|)
    ensures GetBytes(tr, SetBytes(tr, mem, va, s), va, |s|) == s
  {
    forall a: nat, b: nat | va <= a < b < va + |s| ensures Mapped(tr, a) && Mapped(tr, b) && !SameByte(tr, a, b) {
      assert a / PGSIZE == b / PGSIZE && a % PGSIZE == b % PGSIZE ==> a == b;
    }
    StoredIsRead(tr, mem, va, s);
  }

  lemma StoredIsRead(tr: Trans, mem: Mem, va: nat, s: seq<Byte>)
    requires Backed(tr, mem) && AllMapped(tr, va, |s|) && NoAlias(tr, va, |s|)
    ensures GetBytes(tr, SetBytes(tr, mem, va, s), va, |s|) == s
  {
    var m := SetBytes(tr, mem, va, s);
    forall i: nat | i < |s| ensures GetBytes(tr, m, va, |s|)[i] == s[i] {
      StoredAt(tr, mem, va, s, i);
    }
  }

  /** Storing these n bytes and reading them back gives them back. */
  predicate ReadsBack(tr: Trans, mem: Mem, va: nat, s: seq<Byte>)
    requires Backed(tr, mem) && AllMapped(tr, va, |s|)
  {
    GetBytes(tr, SetBytes(tr, mem, va, s), va, |s|) == s
  }

  /** copyout then copyin gives back every string of n bytes exactly when no two of the addresses share a byte. */
  lemma RoundTripIff(tr: Trans, mem: Mem, va: nat, n: nat)
    requires Backed(tr, mem) && AllMapped(tr, va, n)
    ensures (forall s: seq<Byte> :: |s| == n ==> ReadsBack(tr, mem, va, s)) <==> NoAlias(tr, va, n)
  {
    if NoAlias(tr, va, n) {
      forall s: seq<Byte> | |s| == n ensures ReadsBack(tr, mem, va, s) {
        StoredIsRead(tr, mem, va, s);
      }
    } else {
      var a: nat, b: nat :| va <= a < b < va + n && !(Mapped(tr, a) && Mapped(tr, b) && !SameByte(tr, a, b));
      var s: seq<Byte> := seq(n, i => if va + i == b then 1 else 0);
      assert Mapped(tr, a) && Mapped(tr, b) && SameByte(tr, a, b);
      var m := SetBytes(tr, mem, va, s);
      assert GetBytes(tr, m, va, n)[a - va] == ByteAt(tr, m, a) == ByteAt(tr, m, b) == GetBytes(tr, m, va, n)[b - va];
      assert s[a - va] != s[b - va];
      assert !ReadsBack(tr, mem, va, s);
    }
  }

  // Page by page, as the code does it.

  function Patched(p: Page, o: nat, s: seq<Byte>): Page
    requires o + |s| <= PGSIZE
  {
    p[..o] + s + p[o + |s|..]
  }

  lemma OnePage(va: nat, n: nat, a: nat)
    requires va % PGSIZE + n <= PGSIZE && va <= a < va + n
    ensures a / PGSIZE == va / PGSIZE && a % PGSIZE == va % PGSIZE + (a - va)
  {
  }

  lemma {:induction false} PatchIsBytes(tr: Trans, mem: Mem, va: nat, s: seq<Byte>)
    requires Backed(tr, mem) && Mapped(tr, va) && va % PGSIZE + |s| <= PGSIZE
    ensures AllMapped(tr, va, |s|)
    ensures var pa := tr[va / PGSIZE]; SetBytes(tr, mem, va, s) == mem[pa := Patched(mem[pa], va % PGSIZE, s)]
  {
    forall a: nat | va <= a < va + |s| ensures Mapped(tr, a) {
      OnePage(va, |s|, a);
    }
    var pa, o := tr[va / PGSIZE], va % PGSIZE;
    if s == [] {
      assert Patched(mem[pa], o, s) == mem[pa];
    } else {
      var n := |s| - 1;
      PatchIsBytes(tr, mem, va, s[..n]);
      OnePage(va, |s|, va + n);
      assert Patched(mem[pa], o, s[..n])[o + n := s[n]] == Patched(mem[pa], o, s);
    }
  }

  lemma {:induction false} SetBytesJoin(tr: Trans, mem: Mem, va: nat, s: seq<Byte>, t: seq<Byte>)
    requires Backed(tr, mem) && AllMapped(tr, va, |s| + |t|)
    ensures AllMapped(tr, va, |s|) && AllMapped(tr, va + |s|, |t|)
    ensures SetBytes(tr, mem, va, s + t) == SetBytes(tr, SetBytes(tr, mem, va, s), va + |s|, t)
    decreases |t|
  {
    hide SetByte, Mapped, SetBytes, Backed;
    if t == [] {
      assert s + t == s;
      SetNothing(tr, SetBytes(tr, mem, va, s), va + |s|);
    } else {
      var n, all := |t| - 1, s + t;
      SetBytesJoin(tr, mem, va, s, t[..n]);
      assert all[..|all| - 1] == s + t[..n] && all[|all| - 1] == t[n];
      SetLast(tr, mem, va, all);
      SetLast(tr, SetBytes(tr, mem, va, s), va + |s|, t);
    }
  }

  lemma SetLast(tr: Trans, mem: Mem, va: nat, s: seq<Byte>)
    requires Backed(tr, mem) && AllMapped(tr, va, |s|) && s != []
    ensures var n := |s| - 1;
            && Mapped(tr, va + n) && AllMapped(tr, va, n)
            && SetBytes(tr, mem, va, s) == SetByte(tr, SetBytes(tr, mem, va, s[..n]), va + n, s[n])
  {
    assert Mapped(tr, va + |s| - 1);
  }

  class UserMem {
    const tr: Trans
    var mem: Mem

    constructor (tr: Trans, mem: Mem)
      ensures this.tr == tr && this.mem == mem
    {
      this.tr, this.mem := tr, mem;
    }

    /**
     copyout succeeds exactly when every byte of the range is mapped, and then does what storing byte after
     byte does. On failure the part before the first unmapped page has been stored.
     */
    method Copyout(dstva: nat, src: seq<Byte>) returns (ok: bool)
      requires Backed(tr, mem)
      modifies this`mem
      ensures Backed(tr, mem) && (ok <==> AllMapped(tr, dstva, |src|))
      ensures ok ==> mem == SetBytes(tr, old(mem), dstva, src)
      ensures !ok ==>
                exists k: nat :: k < |src| && AllMapped(tr, dstva, k) && !Mapped(tr, dstva + k)
                  && mem == SetBytes(tr, old(mem), dstva, src[..k])
    {
      hide SetBytes;
      var at := 0;
      SetNothing(tr, mem, dstva);
      assert src[..0] == [];
      while at < |src|
        invariant at <= |src| && Backed(tr, mem) && AllMapped(tr, dstva, at)
        invariant mem == SetBytes(tr, old(mem), dstva, src[..at])
      {
        var va := dstva + at;
        var va0 := PgRoundDown(va);
        RoundDown(va);
        var pa0 := Walkaddr(tr, va0);
        if pa0 == 0 {
          assert !Mapped(tr, va);
          return false;
        }
        var n := Min(PGSIZE - (va - va0), |src| - at);
        var chunk := src[at..at + n];
        PatchIsBytes(tr, mem, va, chunk);
        Longer(tr, dstva, at, n);
        SetBytesJoin(tr, old(mem), dstva, src[..at], chunk);
        assert src[..at] + chunk == src[..at + n];
        mem := mem[pa0 := Patched(mem[pa0], va - va0, chunk)];
        at := at + n;
      }
      assert src[..at] == src;
      return true;
    }

    /** copyin succeeds exactly when every byte of the range is mapped, and delivers these bytes. */
    method Copyin(srcva: nat, len: nat) returns (ok: bool, dst: seq<Byte>)
      requires Backed(tr, mem)
      ensures ok <==> AllMapped(tr, srcva, len)
      ensures ok ==> dst == GetBytes(tr, mem, srcva, len)
    {
      dst := [];
      while |dst| < len
        invariant |dst| <= len && AllMapped(tr, srcva, |dst|) && dst == GetBytes(tr, mem, srcva, |dst|)
      {
        var va := srcva + |dst|;
        var va0 := PgRoundDown(va);
        RoundDown(va);
        var pa0 := Walkaddr(tr, va0);
        if pa0 == 0 {
          assert !Mapped(tr, va);
          return false, dst;
        }
        var n := Min(PGSIZE - (va - va0), len - |dst|);
        var chunk := mem[pa0][va - va0..va - va0 + n];
        PatchIsBytes(tr, mem, va, chunk);
        Longer(tr, srcva, |dst|, n);
        ChunkRead(tr, mem, srcva, dst, n, chunk);
        dst := dst + chunk;
      }
      return true, dst;
    }

    /** copyinstr finds the string that starts at srcva when it ends within max bytes and all of it is mapped. */
    method Copyinstr(srcva: nat, max: nat) returns (ok: bool, dst: seq<Byte>)
      requires Backed(tr, mem)
      ensures ok ==> |dst| <= max && AllMapped(tr, srcva, |dst|) && dst == GetBytes(tr, mem, srcva, |dst|)
      ensures ok ==> |dst| > 0 && dst[|dst| - 1] == 0 && forall i: nat :: i < |dst| - 1 ==> dst[i] != 0
      ensures !ok ==> forall k: nat :: k < max ==> !EndsAt(tr, mem, srcva, k)
    {
      dst := [];
      while |dst| < max
        invariant |dst| <= max && AllMapped(tr, srcva, |dst|) && dst == GetBytes(tr, mem, srcva, |dst|)
        invariant forall i: nat :: i < |dst| ==> dst[i] != 0
      {
        var va := srcva + |dst|;
        var va0 := PgRoundDown(va);
        RoundDown(va);
        var pa0 := Walkaddr(tr, va0);
        if pa0 == 0 {
          Unterminated(tr, mem, srcva, dst, max);
          return false, dst;
        }
        var n, p := Min(PGSIZE - (va - va0), max - |dst|), 0;
        ghost var from := dst;
        while p < n
          invariant p <= n && |dst| == |from| + p && AllMapped(tr, srcva, |dst|)
          invariant dst == GetBytes(tr, mem, srcva, |dst|)
          invariant forall i: nat :: i < |dst| ==> dst[i] != 0
        {
          var c := mem[pa0][va - va0 + p];
          OnePage(va, n, va + p);
          OneByteRead(tr, mem, srcva, dst, c);
          dst := dst + [c];
          if c == 0 {
            return true, dst;
          }
          p := p + 1;
        }
      }
      Unterminated(tr, mem, srcva, dst, max);
      return false, dst;
    }
  }

  lemma SetNothing(tr: Trans, mem: Mem, va: nat)
    requires Backed(tr, mem)
    ensures SetBytes(tr, mem, va, []) == mem
  {
  }

  lemma RoundDown(va: nat)
    ensures PgRoundDown(va) <= va && PgRoundDown(va) / PGSIZE == va / PGSIZE && va - PgRoundDown(va) == va % PGSIZE
  {
  }

  lemma Longer(tr: Trans, va: nat, m: nat, n: nat)
    requires AllMapped(tr, va, m) && AllMapped(tr, va + m, n)
    ensures AllMapped(tr, va, m + n)
  {
  }

  lemma ChunkRead(tr: Trans, mem: Mem, srcva: nat, dst: seq<Byte>, n: nat, chunk: seq<Byte>)
    requires Backed(tr, mem) && AllMapped(tr, srcva, |dst| + n) && AllMapped(tr, srcva, |dst|)
    requires dst == GetBytes(tr, mem, srcva, |dst|)
    requires var va := srcva + |dst|;
             && va % PGSIZE + n <= PGSIZE && Mapped(tr, va)
             && chunk == mem[tr[va / PGSIZE]][va % PGSIZE..va % PGSIZE + n]
    ensures dst + chunk == GetBytes(tr, mem, srcva, |dst| + n)
  {
    var va, out := srcva + |dst|, GetBytes(tr, mem, srcva, |dst| + n);
    forall i: nat | i < |dst| + n ensures (dst + chunk)[i] == out[i] {
      if i >= |dst| {
        OnePage(va, n, srcva + i);
      }
    }
  }

  lemma OneByteRead(tr: Trans, mem: Mem, srcva: nat, dst: seq<Byte>, c: Byte)
    requires Backed(tr, mem) && AllMapped(tr, srcva, |dst|) && dst == GetBytes(tr, mem, srcva, |dst|)
    requires Mapped(tr, srcva + |dst|) && c == ByteAt(tr, mem, srcva + |dst|)
    ensures AllMapped(tr, srcva, |dst| + 1) && dst + [c] == GetBytes(tr, mem, srcva, |dst| + 1)
  {
  }

  /** The k-th byte is mapped, with all before it, and is zero. */
  predicate EndsAt(tr: Trans, mem: Mem, va: nat, k: nat)
    requires Backed(tr, mem)
  {
    AllMapped(tr, va, k) && Mapped(tr, va + k) && ByteAt(tr, mem, va + k) == 0
  }

  lemma Unterminated(tr: Trans, mem: Mem, srcva: nat, dst: seq<Byte>, max: nat)
    requires Backed(tr, mem) && AllMapped(tr, srcva, |dst|) && dst == GetBytes(tr, mem, srcva, |dst|)
    requires |dst| == max || !Mapped(tr, srcva + |dst|)
    requires forall i: nat :: i < |dst| ==> dst[i] != 0
    ensures forall k: nat :: k < max ==> !EndsAt(tr, mem, srcva, k)
  {
    forall k: nat | k < max ensures !EndsAt(tr, mem, srcva, k) {
      if k < |dst| {
        assert dst[k] != 0;
      }
    }
  }
}
