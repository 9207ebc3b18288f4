/** Counters that wrap: those of the pipe and the console have 32 bits, those of the disk 16. */
module Counters {
  import opened Blocks

  /** More than any two counters of one ring are apart. */
  const REACH: nat := 512

  lemma ModOf(m: nat, n: nat, q: nat, r: nat)
    requires n == m * q + r && r < m
    ensures n % m == r
  {
    var d := n / m;
    assert n == m * d + n % m;
    assert d < q ==> m * (d + 1) <= m * q;
    assert d > q ==> m * (q + 1) <= m * d;
  }

  /** A slot of a ring whose size divides the counter's range. */
  lemma SlotOf(size: nat, n: nat)
    requires 0 < size && WORD_LIMIT % size == 0
    ensures n % WORD_LIMIT % size == n % size
  {
    var q, r, m := n / WORD_LIMIT, n % WORD_LIMIT, WORD_LIMIT / size;
    assert WORD_LIMIT == size * m && n == WORD_LIMIT * q + r && r == size * (r / size) + r % size;
    assert n == size * (m * q + r / size) + r % size;
    ModOf(size, n, m * q + r / size, r % size);
  }

  /** Less than a whole ring apart, two counters have different slots. */
  lemma Other(size: nat, n: nat, k: nat)
    requires 0 < k < size
    ensures (n + k) % size != n % size
  {
    var q, r := n / size, n % size;
    assert n == size * q + r;
    if r + k < size {
      ModOf(size, n + k, q, r + k);
    } else {
      assert n + k == size * (q + 1) + (r + k - size);
      ModOf(size, n + k, q + 1, r + k - size);
    }
  }

  lemma Sum(n: nat, k: nat)
    requires k <= REACH
    ensures var r := n % WORD_LIMIT; (n + k) % WORD_LIMIT == if r + k < WORD_LIMIT then r + k else r + k - WORD_LIMIT
  {
    var q, r := n / WORD_LIMIT, n % WORD_LIMIT;
    if r + k < WORD_LIMIT {
      ModOf(WORD_LIMIT, n + k, q, r + k);
    } else {
      ModOf(WORD_LIMIT, n + k, q + 1, r + k - WORD_LIMIT);
    }
  }

  lemma StepOf(n: nat)
    ensures (n % WORD_LIMIT + 1) % WORD_LIMIT == (n + 1) % WORD_LIMIT
  {
    Sum(n, 1);
  }
}
