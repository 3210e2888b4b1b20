/** Finite sums of real terms, and the few rearrangements that the proofs rest on. */
module Sums {

  function Times(a: real, b: real): real {
    a * b
  }

  /** The sum of f(0), ..., f(n - 1). */
  ghost function Sum(n: nat, f: int -> real): real {
    if n == 0 then 0.0 else Sum(n - 1, f) + f(n - 1)
  }

  lemma {:induction false} SumCongruence(n: nat, f: int -> real, g: int -> real)
    requires forall i :: 0 <= i < n ==> f(i) == g(i)
    ensures Sum(n, f) == Sum(n, g)
  {
    if n > 0 {
      SumCongruence(n - 1, f, g);
    }
  }

  lemma {:induction false} SumOfZeros(n: nat, f: int -> real)
    requires forall i :: 0 <= i < n ==> f(i) == 0.0
    ensures Sum(n, f) == 0.0
  {
    if n > 0 {
      SumOfZeros(n - 1, f);
    }
  }

  /** Termwise addition. */
  lemma {:induction false} SumOfSums(n: nat, f: int -> real, g: int -> real, h: int -> real)
    requires forall i :: 0 <= i < n ==> h(i) == f(i) + g(i)
    ensures Sum(n, h) == Sum(n, f) + Sum(n, g)
  {
    if n > 0 {
      SumOfSums(n - 1, f, g, h);
    }
  }

  /** Two terms that differ at one index only have sums that differ by that difference. */
  lemma {:induction false} SumBump(n: nat, f: int -> real, g: int -> real, at: int, delta: real)
    requires 0 <= at < n
    requires g(at) == f(at) + delta
    requires forall i :: 0 <= i < n && i != at ==> g(i) == f(i)
    ensures Sum(n, g) == Sum(n, f) + delta
  {
    if at == n - 1 {
      SumCongruence(n - 1, f, g);
    } else {
      SumBump(n - 1, f, g, at, delta);
    }
  }

  lemma {:induction false} SumNonNegative(n: nat, f: int -> real)
    requires forall i :: 0 <= i < n ==> f(i) >= 0.0
    ensures Sum(n, f) >= 0.0
  {
    if n > 0 {
      SumNonNegative(n - 1, f);
    }
  }

  /** A sum of non-negative terms is at least each of its terms. */
  lemma {:induction false} SumAtLeastTerm(n: nat, f: int -> real, at: int)
    requires 0 <= at < n
    requires forall i :: 0 <= i < n ==> f(i) >= 0.0
    ensures Sum(n, f) >= f(at)
  {
    if at == n - 1 {
      SumNonNegative(n - 1, f);
    } else {
      SumAtLeastTerm(n - 1, f, at);
    }
  }

  /** The sum of a split range. */
  lemma {:induction false} SumSplit(n: nat, m: nat, f: int -> real, g: int -> real)
    requires forall i :: 0 <= i < m ==> g(i) == f(n + i)
    ensures Sum(n + m, f) == Sum(n, f) + Sum(m, g)
  {
    if m > 0 {
      SumSplit(n, m - 1, f, g);
    }
  }

  /** Exchanging the order of a double sum. */
  lemma {:induction false} SumSwap(n: nat, m: nat, f: (int, int) -> real, rows: int -> real, cols: int -> real)
    requires forall i :: 0 <= i < n ==> rows(i) == Sum(m, j => f(i, j))
    requires forall j :: 0 <= j < m ==> cols(j) == Sum(n, i => f(i, j))
    ensures Sum(n, rows) == Sum(m, cols)
  {
    if n == 0 {
      SumOfZeros(m, cols);
    } else {
      var before := j => Sum(n - 1, i => f(i, j));
      SumSwap(n - 1, m, f, rows, before);
      var last := j => f(n - 1, j);
      SumOfSums(m, before, last, cols);
    }
  }
}
