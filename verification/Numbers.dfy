/** The numbers the programs compute with: exact reals, the NaN of 0/0, and the bound that a search for a minimum
    starts from, which every finite distance is below. */
module Numbers {
  import opened Sums

  datatype Num = NaN | Huge | Fin(v: real)

  function Add(a: Num, b: Num): Num {
    if a.Fin? && b.Fin? then Fin(a.v + b.v) else NaN
  }

  function Sub(a: Num, b: Num): Num {
    if a.Fin? && b.Fin? then Fin(a.v - b.v) else NaN
  }

  function Mul(a: Num, b: Num): Num {
    if a.Fin? && b.Fin? then Fin(Times(a.v, b.v)) else NaN
  }

  /** Division by a count.  Zero divides nothing but zero and NaN here, and both give NaN. */
  function Div(a: Num, n: int): Num
    requires n == 0 ==> a == Fin(0.0) || a == NaN
  {
    if a.Fin? && n != 0 then Fin(a.v / n as real) else NaN
  }

  /** False as soon as an operand is NaN. */
  predicate Less(a: Num, b: Num) {
    match (a, b)
    case (Fin(x), Fin(y)) => x < y
    case (Fin(_), Huge) => true
    case _ => false
  }
}

/** Quotients and remainders, for the index arithmetic of every kernel. */
module Indices {

  lemma Monotone(a: nat, b: nat, d: nat)
    requires a <= b
    ensures a * d <= b * d && d * a <= d * b
  {
    assert b * d == a * d + (b - a) * d;
  }

  lemma Product(a: nat, b: nat)
    ensures a * b >= 0
  {
  }

  lemma Associate(a: int, b: int, c: int)
    ensures (a * b) * c == a * (b * c)
  {
  }

  lemma Distribute(a: int, b: int, c: int)
    ensures a * (b + c) == a * b + a * c
  {
  }

  lemma UniqueQuotient(d: nat, q: int, r: int, s: int, u: int)
    requires 0 <= r < d && 0 <= u < d
    requires d * q + r == d * s + u
    ensures q == s && r == u
  {
    assert d * (s - q) == d * s - d * q == r - u;
    if q < s {
      Monotone(1, s - q, d);
    } else if s < q {
      assert d * (q - s) == u - r;
      Monotone(1, q - s, d);
    }
  }

  /** r + d * q divides by d into quotient q and remainder r. */
  lemma DivMod(d: nat, q: nat, r: nat)
    requires r < d
    ensures (r + d * q) / d == q && (r + d * q) % d == r
  {
    var t := r + d * q;
    assert t == d * (t / d) + t % d;
    UniqueQuotient(d, q, r, t / d, t % d);
  }

  lemma Split(t: nat, d: nat)
    requires d > 0
    ensures t == t % d + d * (t / d) && 0 <= t % d < d && t / d >= 0
  {
  }

  lemma Cancelled(k: nat, a: nat, b: nat)
    requires k > 0 && a * k == k * b
    ensures a == b
  {
    if a < b {
      Monotone(a + 1, b, k);
      Distribute(k, a, 1);
    } else if b < a {
      Monotone(b + 1, a, k);
      Distribute(k, b, 1);
    }
  }

  /** Cell (r, c) of a matrix with `rows` rows and `cols` columns lies inside it. */
  lemma InMatrix(r: nat, c: nat, rows: nat, cols: nat)
    requires r < rows && c < cols
    ensures 0 <= r + rows * c < rows * cols
  {
    Monotone(c + 1, cols, rows);
    assert rows * (c + 1) == rows * c + rows;
  }

  lemma QuotientBelow(t: nat, d: nat, n: nat)
    requires t < d * n
    ensures d > 0 && t / d < n
  {
    if t / d >= n {
      Monotone(n, t / d, d);
      Split(t, d);
      assert false;
    }
  }
}

/** Column-major matrices: entry (r, c) of a matrix with `rows` rows is cell r + rows * c. */
module ColumnMajor {
  import opened Clustering
  import opened Numbers
  import Indices

  lemma CellOf(r: nat, c: nat, rows: nat, cols: nat)
    requires r < rows && c < cols
    ensures 0 <= r + rows * c < rows * cols
    ensures (r + rows * c) % rows == r && (r + rows * c) / rows == c
  {
    Indices.InMatrix(r, c, rows, cols);
    Indices.DivMod(rows, c, r);
  }

  lemma CellSplit(t: nat, rows: nat, cols: nat)
    requires t < rows * cols
    ensures rows > 0 && t % rows < rows && t / rows < cols && t == t % rows + rows * (t / rows)
  {
    Indices.QuotientBelow(t, rows, cols);
    Indices.Split(t, rows);
  }

  function At(x: seq<real>, t: int): real {
    if 0 <= t < |x| then x[t] else 0.0
  }

  /** The n points of a flat n x p matrix. */
  ghost function Rows(x: seq<real>, n: nat, p: nat): (pts: seq<Vec>)
    ensures |pts| == n && Points(pts, p)
    ensures forall i, c :: 0 <= i < n && 0 <= c < p ==> pts[i][c] == At(x, i + n * c)
  {
    seq(n, i requires 0 <= i < n => seq(p, c requires 0 <= c < p => At(x, i + n * c)))
  }

  /** Coordinate c of centre j as a program stores it. */
  ghost function Entry(cs: seq<Center>, j: int, c: int): Num {
    if 0 <= j < |cs| && cs[j].Live? && 0 <= c < |cs[j].at| then Fin(cs[j].at[c]) else NaN
  }

  /** The flat k x p matrix cen holds the centres cs: a live one coordinate by coordinate, a dead one as NaNs. */
  ghost predicate Holds(cen: seq<Num>, cs: seq<Center>, k: nat, p: nat) {
    && k > 0 && |cen| == k * p && |cs| == k && Centers(cs, p)
    && forall t :: 0 <= t < |cen| ==> cen[t] == Entry(cs, t % k, t / k)
  }
}
