/**
 * Finite double sums over a rectangular index range, in the order a
 * row-major double loop visits it.  A kernel window sum is
 * GridSum(term, kheight, kwidth) for the window's term function.
 */
module Sums {

  /** f(a, 0) + ... + f(a, n-1): one row of the window, left to right. */
  function RowSum(f: (nat, nat) -> real, a: nat, n: nat): real
  {
    if n == 0 then 0.0 else RowSum(f, a, n - 1) + f(a, n - 1)
  }

  /** The sum of f over rows 0..m-1 and columns 0..n-1, row after row. */
  function GridSum(f: (nat, nat) -> real, m: nat, n: nat): real
  {
    if m == 0 then 0.0 else GridSum(f, m - 1, n) + RowSum(f, m - 1, n)
  }

  /** Two terms that agree on the range give the same row sum. */
  lemma {:induction false} RowSumExt(f: (nat, nat) -> real, g: (nat, nat) -> real, a: nat, n: nat)
    requires forall b: nat :: b < n ==> f(a, b) == g(a, b)
    ensures RowSum(f, a, n) == RowSum(g, a, n)
  {
    if n > 0 {
      RowSumExt(f, g, a, n - 1);
    }
  }

  /** Two terms that agree on the range give the same grid sum. */
  lemma {:induction false} GridSumExt(f: (nat, nat) -> real, g: (nat, nat) -> real, m: nat, n: nat)
    requires forall a: nat, b: nat :: a < m && b < n ==> f(a, b) == g(a, b)
    ensures GridSum(f, m, n) == GridSum(g, m, n)
  {
    if m > 0 {
      GridSumExt(f, g, m - 1, n);
      RowSumExt(f, g, m - 1, n);
    }
  }

  /** Multiplication distributes over addition. */
  lemma Distribute(v: real, a: real, b: real)
    ensures v * (a + b) == v * a + v * b
  {
  }

  /** The product of two non-negative reals is non-negative. */
  lemma MulNonNegative(a: real, b: real)
    requires a >= 0.0 && b >= 0.0
    ensures a * b >= 0.0
  {
  }

  /** Scaling a non-negative real by a factor of at least 1 does not shrink it. */
  lemma MulAtLeast(a: real, b: real)
    requires a >= 0.0 && b >= 1.0
    ensures a * b >= a
  {
    MulNonNegative(a, b - 1.0);
    assert a * b == a * (b - 1.0) + a;
  }

  /** Scaling every term scales the row sum. */
  lemma {:induction false} RowSumScale(f: (nat, nat) -> real, g: (nat, nat) -> real, v: real, a: nat, n: nat)
    requires forall b: nat :: b < n ==> g(a, b) == v * f(a, b)
    ensures RowSum(g, a, n) == v * RowSum(f, a, n)
  {
    if n > 0 {
      RowSumScale(f, g, v, a, n - 1);
      Distribute(v, RowSum(f, a, n - 1), f(a, n - 1));
    }
  }

  /** Scaling every term scales the grid sum. */
  lemma {:induction false} GridSumScale(f: (nat, nat) -> real, g: (nat, nat) -> real, v: real, m: nat, n: nat)
    requires forall a: nat, b: nat :: a < m && b < n ==> g(a, b) == v * f(a, b)
    ensures GridSum(g, m, n) == v * GridSum(f, m, n)
  {
    if m > 0 {
      GridSumScale(f, g, v, m - 1, n);
      RowSumScale(f, g, v, m - 1, n);
      Distribute(v, GridSum(f, m - 1, n), RowSum(f, m - 1, n));
    }
  }

  /** A row with a single non-zero term sums to that term. */
  lemma {:induction false} RowSumSingle(f: (nat, nat) -> real, a: nat, j: nat, n: nat)
    requires j < n
    requires forall b: nat :: b < n && b != j ==> f(a, b) == 0.0
    ensures RowSum(f, a, n) == f(a, j)
  {
    if n - 1 != j {
      RowSumSingle(f, a, j, n - 1);
    } else {
      RowSumZero(f, a, n - 1);
    }
  }

  /** A row whose terms are all zero sums to zero. */
  lemma {:induction false} RowSumZero(f: (nat, nat) -> real, a: nat, n: nat)
    requires forall b: nat :: b < n ==> f(a, b) == 0.0
    ensures RowSum(f, a, n) == 0.0
  {
    if n > 0 {
      RowSumZero(f, a, n - 1);
    }
  }

  /** If every row sums to v, the grid sums to m * v. */
  lemma {:induction false} GridSumOfRows(f: (nat, nat) -> real, v: real, m: nat, n: nat)
    requires forall a: nat :: a < m ==> RowSum(f, a, n) == v
    ensures GridSum(f, m, n) == m as real * v
  {
    if m > 0 {
      GridSumOfRows(f, v, m - 1, n);
      assert m as real * v == (m - 1) as real * v + v;
    }
  }

  /** A constant term v sums to m * n * v. */
  lemma GridSumConst(f: (nat, nat) -> real, v: real, m: nat, n: nat)
    requires forall a: nat, b: nat :: a < m && b < n ==> f(a, b) == v
    ensures GridSum(f, m, n) == (m * n) as real * v
  {
    forall a: nat | a < m
      ensures RowSum(f, a, n) == n as real * v
    {
      RowSumConst(f, v, a, n);
    }
    GridSumOfRows(f, n as real * v, m, n);
    assert m as real * (n as real * v) == (m * n) as real * v;
  }

  /** A row of constant terms v sums to n * v. */
  lemma {:induction false} RowSumConst(f: (nat, nat) -> real, v: real, a: nat, n: nat)
    requires forall b: nat :: b < n ==> f(a, b) == v
    ensures RowSum(f, a, n) == n as real * v
  {
    if n > 0 {
      RowSumConst(f, v, a, n - 1);
      assert n as real * v == (n - 1) as real * v + v;
    }
  }

  /** A grid with a single non-zero term sums to that term. */
  lemma {:induction false} GridSumSingle(f: (nat, nat) -> real, i: nat, j: nat, m: nat, n: nat)
    requires i < m && j < n
    requires forall a: nat, b: nat :: a < m && b < n && (a, b) != (i, j) ==> f(a, b) == 0.0
    ensures GridSum(f, m, n) == f(i, j)
  {
    if m - 1 != i {
      GridSumSingle(f, i, j, m - 1, n);
      RowSumZero(f, m - 1, n);
    } else {
      GridSumZero(f, m - 1, n);
      RowSumSingle(f, i, j, n);
    }
  }

  /** A grid whose terms are all zero sums to zero. */
  lemma {:induction false} GridSumZero(f: (nat, nat) -> real, m: nat, n: nat)
    requires forall a: nat, b: nat :: a < m && b < n ==> f(a, b) == 0.0
    ensures GridSum(f, m, n) == 0.0
  {
    if m > 0 {
      GridSumZero(f, m - 1, n);
      RowSumZero(f, m - 1, n);
    }
  }

  /** A row of non-negative terms has a non-negative sum. */
  lemma {:induction false} RowSumNonNegative(f: (nat, nat) -> real, a: nat, n: nat)
    requires forall b: nat :: b < n ==> f(a, b) >= 0.0
    ensures RowSum(f, a, n) >= 0.0
  {
    if n > 0 {
      RowSumNonNegative(f, a, n - 1);
    }
  }

  /** A row of non-negative terms sums to at least each of its terms. */
  lemma {:induction false} RowSumAtLeast(f: (nat, nat) -> real, a: nat, j: nat, n: nat)
    requires j < n
    requires forall b: nat :: b < n ==> f(a, b) >= 0.0
    ensures RowSum(f, a, n) >= f(a, j)
  {
    if j < n - 1 {
      RowSumAtLeast(f, a, j, n - 1);
    } else {
      RowSumNonNegative(f, a, n - 1);
    }
  }

  /** A grid of non-negative terms has a non-negative sum. */
  lemma {:induction false} GridSumNonNegative(f: (nat, nat) -> real, m: nat, n: nat)
    requires forall a: nat, b: nat :: a < m && b < n ==> f(a, b) >= 0.0
    ensures GridSum(f, m, n) >= 0.0
  {
    if m > 0 {
      GridSumNonNegative(f, m - 1, n);
      RowSumNonNegative(f, m - 1, n);
    }
  }

  /** A grid of non-negative terms sums to at least each of its terms. */
  lemma {:induction false} GridSumAtLeast(f: (nat, nat) -> real, i: nat, j: nat, m: nat, n: nat)
    requires i < m && j < n
    requires forall a: nat, b: nat :: a < m && b < n ==> f(a, b) >= 0.0
    ensures GridSum(f, m, n) >= f(i, j)
  {
    if i < m - 1 {
      GridSumAtLeast(f, i, j, m - 1, n);
      RowSumNonNegative(f, m - 1, n);
    } else {
      GridSumNonNegative(f, m - 1, n);
      RowSumAtLeast(f, i, j, n);
    }
  }

  /** The nine terms of a 3 x 3 grid sum, written out. */
  lemma GridSum3(f: (nat, nat) -> real)
    ensures GridSum(f, 3, 3) ==
      f(0, 0) + f(0, 1) + f(0, 2) +
      f(1, 0) + f(1, 1) + f(1, 2) +
      f(2, 0) + f(2, 1) + f(2, 2)
  {
    assert GridSum(f, 1, 3) == RowSum(f, 0, 3);
    assert GridSum(f, 2, 3) == RowSum(f, 0, 3) + RowSum(f, 1, 3);
  }

  /** The five row sums of a 5 x 5 grid sum. */
  lemma GridSum5(f: (nat, nat) -> real)
    ensures GridSum(f, 5, 5) ==
      RowSum(f, 0, 5) + RowSum(f, 1, 5) + RowSum(f, 2, 5) + RowSum(f, 3, 5) + RowSum(f, 4, 5)
    ensures forall a: nat :: RowSum(f, a, 5) == f(a, 0) + f(a, 1) + f(a, 2) + f(a, 3) + f(a, 4)
  {
    assert GridSum(f, 1, 5) == RowSum(f, 0, 5);
    assert GridSum(f, 2, 5) == RowSum(f, 0, 5) + RowSum(f, 1, 5);
    assert GridSum(f, 3, 5) == RowSum(f, 0, 5) + RowSum(f, 1, 5) + RowSum(f, 2, 5);
    forall a: nat
      ensures RowSum(f, a, 5) == f(a, 0) + f(a, 1) + f(a, 2) + f(a, 3) + f(a, 4)
    {
      assert RowSum(f, a, 1) == f(a, 0);
      assert RowSum(f, a, 2) == f(a, 0) + f(a, 1);
      assert RowSum(f, a, 3) == f(a, 0) + f(a, 1) + f(a, 2);
    }
  }
}
