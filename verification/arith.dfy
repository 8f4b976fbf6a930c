/** Integer facts used by the index arithmetic of the reordering engine:
    powers of two (the batch sizes of the dose-symmetric scan) and the
    quotient/remainder identities behind stride slices and grid flattening. */
module Arith {

  /** `2 ** i`, the batch size of shuffle round `i`. */
  function Pow2(i: nat): (r: nat)
    ensures r >= 1
  {
    if i == 0 then 1 else 2 * Pow2(i - 1)
  }

  /** Powers of two grow with the exponent. */
  lemma {:induction false} Pow2Monotone(i: nat, j: nat)
    requires i <= j
    ensures Pow2(i) <= Pow2(j)
    decreases j
  {
    if i < j {
      Pow2Monotone(i, j - 1);
    }
  }

  /** Quotient and remainder are determined by any decomposition `a == q * n + r`
      with `0 <= r < n`. */
  lemma DivModUnique(a: int, n: int, q: int, r: int)
    requires n > 0 && 0 <= r < n && a == q * n + r
    ensures a / n == q && a % n == r
  {
    var q0, r0 := a / n, a % n;
    assert (q0 - q) * n == r - r0;
    assert -n < r - r0 < n;
    ProductBelowFactor(q0 - q, n);
  }

  /** A multiple of `n` strictly between `-n` and `n` is zero. */
  lemma ProductBelowFactor(d: int, n: int)
    requires n > 0 && -n < d * n < n
    ensures d == 0
  {
    if d > 0 {
      MulAtLeastFactor(d, n);
    } else if d < 0 {
      assert (-d) * n == -(d * n);
      MulAtLeastFactor(-d, n);
    }
  }

  /** A positive multiple of a positive `n` is at least `n`. */
  lemma {:induction false} MulAtLeastFactor(d: int, n: int)
    requires d >= 1 && n > 0
    ensures d * n >= n
    decreases d
  {
    if d > 1 {
      MulAtLeastFactor(d - 1, n);
      assert d * n == (d - 1) * n + n;
    }
  }

  /** Adding the divisor once adds one to the quotient and keeps the remainder. */
  lemma DivModAddDivisor(a: int, n: int)
    requires n > 0
    ensures (a + n) / n == a / n + 1
    ensures (a + n) % n == a % n
  {
    DivModUnique(a + n, n, a / n + 1, a % n);
  }

  /** The position of row `r`, column `c` in a row-major flattening with
      `cols` columns is recovered by quotient and remainder. */
  lemma RowMajorSplit(r: int, c: int, cols: int)
    requires cols > 0 && 0 <= c < cols
    ensures (r * cols + c) / cols == r
    ensures (r * cols + c) % cols == c
  {
    DivModUnique(r * cols + c, cols, r, c);
  }

  /** Row-major positions of distinct cells differ, and every position below
      `rows * cols` belongs to a cell of the grid. */
  lemma RowMajorInRange(r: int, c: int, rows: int, cols: int)
    requires 0 <= r < rows && 0 <= c < cols
    ensures 0 <= r * cols + c < rows * cols
  {
    assert r * cols <= (rows - 1) * cols;
  }

  /** Among the offsets `0..n-1`, the series `s[i::n]` that receives the element at
      index `len` is the one with `i == len % n`. */
  lemma StrideOwner(len: int, n: int, i: int)
    requires n > 0 && 0 <= i < n && len >= 0
    ensures (i <= len && (len - i) % n == 0) <==> i == len % n
  {
    if i == len % n {
      DivModUnique(len - i, n, len / n, 0);
    }
    if i <= len && (len - i) % n == 0 {
      DivModUnique(len, n, (len - i) / n, i);
    }
  }
}
