/** Facts about products and quotients. */
module Arithmetic {

  lemma {:induction false} MulMonotone(d: nat, x: nat, y: nat)
    requires x < y
    ensures d * x + d <= d * y
    decreases y
  {
    assert d * y == d * (y - 1) + d;
    if x < y - 1 {
      MulMonotone(d, x, y - 1);
    }
  }

  /** A product fits below n exactly when its factor is at most the quotient. */
  lemma FitsQuotient(d: nat, m: nat, n: nat)
    requires d > 0
    ensures d * m <= n <==> m <= n / d
  {
    var q := n / d;
    assert d * q <= n < d * q + d;
    if m < q {
      MulMonotone(d, m, q);
    }
    if q < m {
      MulMonotone(d, q, m);
    }
  }

  lemma Quotient(n: nat, d: nat, q: nat)
    requires d > 0 && d * q <= n < d * q + d
    ensures n / d == q
  {
    var p := n / d;
    if p < q {
      MulMonotone(d, p, q);
    }
    if q < p {
      MulMonotone(d, q, p);
    }
  }

  /** Taking whole parts off first or afterwards leaves the same number. */
  lemma QuotientShift(n: int, k: nat, d: nat)
    requires d > 0 && n >= d * k
    ensures (n - d * k) / d == n / d - k
  {
    var q := (n - d * k) / d;
    assert d * q <= n - d * k < d * q + d;
    assert d * (q + k) == d * q + d * k;
    Quotient(n, d, q + k);
  }

  /** A row of a matrix stored row by row lies inside the matrix. */
  lemma RowFits(i: nat, rows: nat, cols: nat)
    requires i < rows
    ensures i * cols + cols <= rows * cols
  {
    MulMonotone(cols, i, rows);
  }
}
