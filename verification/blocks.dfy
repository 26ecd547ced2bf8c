/** Sequences laid out as consecutive blocks of equal length, as the mesh
    builder lays out its vertex list: six vertices per cell, one row of
    cells after another. The lemmas here see the blocks only through the
    block function, so they hold for any contents. */
module Blocks {
  import opened Arith

  /** Blocks f(0), ..., f(n - 1), end to end. */
  function Concat<T>(f: nat -> seq<T>, n: nat): seq<T>
    decreases n
  {
    if n == 0 then [] else Concat(f, n - 1) + f(n - 1)
  }

  /** n blocks of m elements each fill n * m entries. */
  lemma {:induction false} ConcatLength<T>(f: nat -> seq<T>, n: nat, m: nat)
    requires forall c: nat :: c < n ==> |f(c)| == m
    ensures |Concat(f, n)| == Mul(n, m)
  {
    if n > 0 {
      ConcatLength(f, n - 1, m);
    }
  }

  /** Element t of block k sits at k * m + t. */
  lemma {:induction false} ConcatAt<T>(f: nat -> seq<T>, n: nat, m: nat, k: nat, t: nat)
    requires forall c: nat :: c < n ==> |f(c)| == m
    requires k < n && t < m
    ensures |Concat(f, n)| == Mul(n, m)
    ensures Mul(k, m) + t < Mul(n, m)
    ensures Concat(f, n)[Mul(k, m) + t] == f(k)[t]
    decreases n
  {
    ConcatLength(f, n - 1, m);
    RowIndexBound(k, t, n, m);
    if k < n - 1 {
      ConcatAt(f, n - 1, m, k, t);
    }
  }

  /** A property of every element of every block holds of the whole sequence. */
  lemma {:induction false} ConcatAll<T>(f: nat -> seq<T>, n: nat, P: T -> bool)
    requires forall c: nat, t: nat :: c < n && t < |f(c)| ==> P(f(c)[t])
    ensures forall x :: x in Concat(f, n) ==> P(x)
  {
    if n > 0 {
      ConcatAll(f, n - 1, P);
    }
  }
}
