/** Small arithmetic facts shared by the image and mesh modules: bounds on
    row-major grid indices and on the normalised grid coordinates. */
module Arith {

  function Min(a: int, b: int): int {
    if a <= b then a else b
  }

  function MinReal(a: real, b: real): real {
    if a <= b then a else b
  }

  function MaxReal(a: real, b: real): real {
    if a >= b then a else b
  }

  /** x raised to the n-th power. */
  function Pow(x: real, n: nat): real
    decreases n
  {
    if n == 0 then 1.0 else x * Pow(x, n - 1)
  }

  /** Scaling an inequality of reals by a non-negative factor. */
  lemma MulLeReal(a: real, b: real, c: real)
    requires 0.0 <= a && b <= c
    ensures a * b <= a * c
  {
    assert a * c - a * b == a * (c - b);
  }

  /** A bound on a * c is a bound on a * b when 0 <= a and b <= c. */
  lemma MulLeBound(a: real, b: real, c: real, bound: real)
    requires 0.0 <= a && b <= c && a * c <= bound
    ensures a * b <= bound
  {
    MulLeReal(a, b, c);
  }

  /** A lower bound on a * b is one on a * c when 0 <= a and b <= c. */
  lemma MulGeBound(a: real, b: real, c: real, bound: real)
    requires 0.0 <= a && b <= c && bound <= a * b
    ensures bound <= a * c
  {
    MulLeReal(a, b, c);
  }

  lemma MulPositive(a: real, b: real)
    requires 0.0 < a && 0.0 < b
    ensures 0.0 < a * b
  {
  }

  /** Powers of a number above 1 grow: x^n >= x for n >= 1. */
  lemma {:induction false} PowAtLeastBase(x: real, n: nat)
    requires 1.0 <= x && 1 <= n
    ensures x <= Pow(x, n)
  {
    var q := Pow(x, n - 1);
    assert Pow(x, n) == x * q;
    if n > 1 {
      PowAtLeastBase(x, n - 1);
      MulLeReal(x, 1.0, q);
    }
  }

  /** Powers of a number in (0, 1] shrink but stay positive: 0 < x^n <= x
      for n >= 1. */
  lemma {:induction false} PowAtMostBase(x: real, n: nat)
    requires 0.0 < x <= 1.0 && 1 <= n
    ensures 0.0 < Pow(x, n) <= x
  {
    var q := Pow(x, n - 1);
    assert Pow(x, n) == x * q;
    if n > 1 {
      PowAtMostBase(x, n - 1);
      MulLeReal(x, q, 1.0);
      MulPositive(x, q);
    }
  }

  /** Multiplying both sides of an inequality by a natural number. */
  lemma MulMonotone(a: int, b: int, w: nat)
    requires a <= b
    ensures a * w <= b * w
  {
    assert b * w - a * w == (b - a) * w;
  }

  /** The row-major index of cell (r, c) of an n-row, w-column grid lies
      inside the grid's n * w entries. */
  lemma IndexInGrid(r: nat, c: nat, n: nat, w: nat)
    requires r < n && c < w
    ensures r * w + c < n * w && r * w + c < w * n
  {
    MulMonotone(r + 1, n, w);
    assert (r + 1) * w == r * w + w;
  }

  /** a * b built up one row of b at a time. Row-major offsets in the mesh
      are stated with it, so that their proofs need only linear steps. */
  function Mul(a: nat, b: nat): nat
    decreases a
  {
    if a == 0 then 0 else Mul(a - 1, b) + b
  }

  lemma {:induction false} MulIsProduct(a: nat, b: nat)
    ensures Mul(a, b) == a * b
  {
    if a > 0 {
      MulIsProduct(a - 1, b);
      assert (a - 1) * b + b == a * b;
    }
  }

  /** The row-major offset of cell (r, c) lies before the end of row n - 1. */
  lemma {:induction false} RowIndexBound(r: nat, c: nat, n: nat, w: nat)
    requires r < n && c < w
    ensures Mul(r, w) + c < Mul(n, w)
    decreases n
  {
    if r < n - 1 {
      RowIndexBound(r, c, n - 1, w);
    }
  }

  /** h rows of 6 * w entries hold 6 * (w * h) entries. */
  lemma SixfoldRows(h: nat, w: nat)
    ensures Mul(h, 6 * w) == 6 * (w * h)
  {
    MulIsProduct(h, 6 * w);
    assert h * (6 * w) == 6 * (w * h);
  }

  /** Index arithmetic of the next row: (r + 1) * w == r * w + w. */
  lemma NextRow(r: nat, w: nat)
    ensures (r + 1) * w == r * w + w
  {
  }
}
