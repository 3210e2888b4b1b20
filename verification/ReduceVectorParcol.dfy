/** The parallel reduction of a matrix to the sums of its rows: rounds that halve the number of columns, first in
    global memory with one launch a round, then in the local memory of a single work-group with a barrier a round. */
module ReduceVectorParcol {
  import opened Sums
  import opened Indices
  import opened Strides

  const WORKGROUP_SIZE := 256

  function Cell(g: seq<real>): int -> real {
    i => if 0 <= i < |g| then g[i] else 0.0
  }

  /** The sum of row r of a column-major matrix: all cells that are r modulo the number of rows. */
  ghost function RowSum(g: seq<real>, rows: nat, cols: nat, r: nat): real {
    SumOfRow(Cell(g), rows, cols, r)
  }

  function Pow2(k: nat): (p: nat)
    ensures p > 0
  {
    if k == 0 then 1 else 2 * Pow2(k - 1)
  }

  ghost predicate IsPow2(n: nat) {
    exists k: nat :: n == Pow2(k)
  }

  /** Each of the first half cells has taken up its partner in the second half; what lies beyond does not matter. */
  ghost predicate Folded(now: seq<real>, was: seq<real>, half: nat) {
    2 * half <= |now| <= |was| && forall i :: 0 <= i < half ==> now[i] == was[i] + was[half + i]
  }

  // ---------- what the rounds add up ----------

  ghost function FoldAt(f: int -> real, half: nat, i: int): real {
    f(i) + f(half + i)
  }

  /** Folding the second half of the cells onto the first. */
  ghost function Fold(f: int -> real, half: nat): int -> real {
    i => FoldAt(f, half, i)
  }

  /** The rounds from one with `half` work-items on, as long as there are no fewer work-items than rows. */
  ghost function Chain(f: int -> real, half: nat, rows: nat): int -> real
    requires rows > 0
  {
    if half < rows then f else Chain(Fold(f, half), half / 2, rows)
  }

  /** Entry (r, c) of a column-major matrix. */
  ghost function EntryAt(f: int -> real, rows: nat, r: nat, c: int): real {
    f(r + rows * c)
  }

  /** The sum of row r of a column-major matrix. */
  ghost function SumOfRow(f: int -> real, rows: nat, cols: nat, r: nat): real {
    Sum(cols, c => EntryAt(f, rows, r, c))
  }

  /** A round keeps the sum of every row. */
  lemma FoldKeepsSums(f: int -> real, half: nat, rows: nat, cols: nat, r: nat)
    requires r < rows && half == rows * cols
    ensures SumOfRow(Fold(f, half), rows, cols, r) == SumOfRow(f, rows, 2 * cols, r)
  {
    hide Sum, Fold, EntryAt;
    var lower := c => EntryAt(f, rows, r, c);
    var upper := c => EntryAt(f, rows, r, cols + c);
    var both := c => EntryAt(Fold(f, half), rows, r, c);
    SumSplit(cols, cols, lower, upper);
    forall c | 0 <= c < cols
      ensures both(c) == lower(c) + upper(c)
    {
      FoldedEntry(f, half, rows, cols, c, r);
    }
    SumOfSums(cols, lower, upper, both);
    assert cols + cols == 2 * cols;
  }

  lemma FoldedEntry(f: int -> real, half: nat, rows: nat, cols: nat, c: nat, r: nat)
    requires half == rows * cols
    ensures EntryAt(Fold(f, half), rows, r, c) == EntryAt(f, rows, r, c) + EntryAt(f, rows, r, cols + c)
  {
    Distribute(rows, cols, c);
    assert FoldAt(f, half, r + rows * c) == f(r + rows * c) + f(r + rows * (cols + c));
  }

  ghost predicate SameBelow(f: int -> real, g: int -> real, m: nat) {
    forall i :: 0 <= i < m ==> f(i) == g(i)
  }

  lemma FoldReads(f: int -> real, g: int -> real, half: nat)
    requires SameBelow(f, g, 2 * half)
    ensures SameBelow(Fold(f, half), Fold(g, half), half)
  {
    hide FoldAt;
    forall i: nat | i < half
      ensures FoldAt(f, half, i) == FoldAt(g, half, i)
    {
      FoldAtReads(f, g, half, i);
    }
  }

  lemma FoldAtReads(f: int -> real, g: int -> real, half: nat, i: nat)
    requires SameBelow(f, g, 2 * half) && i < half
    ensures FoldAt(f, half, i) == FoldAt(g, half, i)
  {
    assert f(half + i) == g(half + i);
  }

  lemma SameBelowLess(f: int -> real, g: int -> real, m: nat, k: nat)
    requires SameBelow(f, g, m) && k <= m
    ensures SameBelow(f, g, k)
  {
  }

  lemma SameAt(f: int -> real, g: int -> real, m: nat, i: nat)
    requires SameBelow(f, g, m) && i < m
    ensures f(i) == g(i)
  {
  }

  /** The rounds depend on the cells that they read. */
  lemma {:induction false} ChainReads(f: int -> real, g: int -> real, half: nat, rows: nat, r: nat)
    requires r < rows && SameBelow(f, g, if 2 * half > rows then 2 * half else rows)
    ensures Chain(f, half, rows)(r) == Chain(g, half, rows)(r)
  {
    hide SameBelow, Fold;
    var m := if 2 * half > rows then 2 * half else rows;
    if half >= rows {
      FoldReads(f, g, half);
      SameBelowLess(Fold(f, half), Fold(g, half), half, if 2 * (half / 2) > rows then 2 * (half / 2) else rows);
      ChainReads(Fold(f, half), Fold(g, half), half / 2, rows, r);
    } else {
      SameAt(f, g, m, r);
    }
  }

  /** A power of two of columns: the rounds leave the sum of every row. */
  lemma {:induction false} PowerAddsUp(f: int -> real, half: nat, rows: nat, k: nat, r: nat)
    requires r < rows && (if k == 0 then half < rows else half == rows * Pow2(k - 1))
    ensures Chain(f, half, rows)(r) == SumOfRow(f, rows, Pow2(k), r)
  {
    hide SumOfRow;
    if k == 0 {
      OneColumn(f, rows, r);
    } else {
      var m := Pow2(k - 1);
      Monotone(1, m, rows);
      HalfOf(rows, k - 1);
      PowerAddsUp(Fold(f, half), half / 2, rows, k - 1, r);
      FoldKeepsSums(f, half, rows, m, r);
    }
  }

  lemma HalfOf(rows: nat, k: nat)
    requires rows > 0
    ensures if k == 0 then rows * Pow2(k) / 2 < rows else rows * Pow2(k) / 2 == rows * Pow2(k - 1)
  {
    if k > 0 {
      assert rows * Pow2(k) == 2 * (rows * Pow2(k - 1));
    }
  }

  lemma OneColumn(f: int -> real, rows: nat, r: nat)
    ensures SumOfRow(f, rows, 1, r) == f(r)
  {
    var g := c => EntryAt(f, rows, r, c);
    assert rows * 0 == 0;
    assert g(0) == f(r);
    assert Sum(1, g) == Sum(0, g) + g(0);
  }

  // ---------- when they add up the rows ----------

  /** Nothing but zeros behind the matrix. */
  ghost predicate ZeroFrom(f: int -> real, m: nat) {
    forall i :: i >= m ==> f(i) == 0.0
  }

  /** Whatever the matrix: the rounds leave the sums of its rows. */
  ghost predicate AddsUp(half: nat, rows: nat, cols: nat)
    requires rows > 0 && rows * cols >= 0
  {
    forall f: int -> real, r: nat :: ZeroFrom(f, rows * cols) && r < rows ==>
      Chain(f, half, rows)(r) == SumOfRow(f, rows, cols, r)
  }

  /** A one in a single cell. */
  ghost function Spike(at: int): int -> real {
    i => if i == at then 1.0 else 0.0
  }

  /** Rounds keep a first cell that has only zeros behind it. */
  lemma {:induction false} ChainKeepsFirst(f: int -> real, half: nat, rows: nat)
    requires rows > 0 && OnlyFirst(f, if 2 * half > rows then 2 * half else rows)
    ensures Chain(f, half, rows)(0) == f(0)
  {
    hide OnlyFirst, Fold;
    if half >= rows {
      FoldKeepsFirst(f, half, 2 * half);
      OnlyFirstLess(Fold(f, half), half, if 2 * (half / 2) > rows then 2 * (half / 2) else rows);
      ChainKeepsFirst(Fold(f, half), half / 2, rows);
    }
  }

  ghost predicate OnlyFirst(f: int -> real, m: nat) {
    forall i :: 0 < i < m ==> f(i) == 0.0
  }

  lemma OnlyFirstLess(f: int -> real, m: nat, k: nat)
    requires OnlyFirst(f, m) && k <= m
    ensures OnlyFirst(f, k)
  {
  }

  lemma FoldKeepsFirst(f: int -> real, half: nat, m: nat)
    requires half > 0 && OnlyFirst(f, m) && 2 * half <= m
    ensures OnlyFirst(Fold(f, half), half) && Fold(f, half)(0) == f(0)
  {
    hide FoldAt;
    forall i: nat | i < half
      ensures FoldAt(f, half, i) == f(i)
    {
      FoldAtAlone(f, half, i);
    }
  }

  lemma FoldAtAlone(f: int -> real, half: nat, i: nat)
    requires f(half + i) == 0.0
    ensures FoldAt(f, half, i) == f(i)
  {
  }

  /** The first round takes a one at its end to the first cell, and loses a one behind all that it reads. */
  lemma FoldOfSpike(half: nat)
    requires half > 0
    ensures OnlyFirst(Fold(Spike(half), half), half) && Fold(Spike(half), half)(0) == 1.0
    ensures OnlyFirst(Fold(Spike(2 * half), half), half) && Fold(Spike(2 * half), half)(0) == 0.0
  {
  }

  lemma NotInColumn(rows: nat, cols: nat, at: nat)
    requires rows > 0 && at % rows != 0
    ensures SumOfRow(Spike(at), rows, cols, 0) == 0.0
  {
    forall c | 0 <= c < cols
      ensures EntryAt(Spike(at), rows, 0, c) == 0.0
    {
      DivMod(rows, c, 0);
    }
    SumOfZeros(cols, c => EntryAt(Spike(at), rows, 0, c));
  }

  lemma InColumn(cols: nat, at: nat)
    requires at < cols
    ensures SumOfRow(Spike(at), 1, cols, 0) == 1.0
  {
    hide Sum;
    var here, cell := c => if at == c then 1.0 else 0.0, c => EntryAt(Spike(at), 1, 0, c);
    OneTerm(cols, at, 1.0);
    SumCongruence(cols, c => if at == c then 1.0 else 0.0, here);
    forall c | 0 <= c < cols
      ensures here(c) == cell(c)
    {
      assert 0 + 1 * c == c;
    }
    SumCongruence(cols, here, cell);
  }

  lemma OneWrongSum(f: int -> real, half: nat, rows: nat, cols: nat, r: nat)
    requires rows > 0 && rows * cols >= 0 && ZeroFrom(f, rows * cols) && r < rows
    requires Chain(f, half, rows)(r) != SumOfRow(f, rows, cols, r)
    ensures !AddsUp(half, rows, cols)
  {
    hide ZeroFrom, Chain, SumOfRow;
  }

  lemma ChainUnfolds(f: int -> real, half: nat, rows: nat)
    requires half >= rows > 0
    ensures Chain(f, half, rows) == Chain(Fold(f, half), half / 2, rows)
  {
  }

  /** The first round has to end at a whole column, or its first cell takes up a cell of another row. */
  lemma UnevenHalf(half: nat, rows: nat, cols: nat)
    requires rows > 0 && half >= rows && half < rows * cols && half % rows != 0
    ensures !AddsUp(half, rows, cols)
  {
    hide SumOfRow, Chain, AddsUp, Fold, OnlyFirst;
    var f := Spike(half);
    NotInColumn(rows, cols, half);
    ChainUnfolds(f, half, rows);
    FoldOfSpike(half);
    OnlyFirstLess(Fold(f, half), half, if 2 * (half / 2) > rows then 2 * (half / 2) else rows);
    ChainKeepsFirst(Fold(f, half), half / 2, rows);
    OneWrongSum(f, half, rows, cols, 0);
  }

  /** A single row of odd length: its last cell is never taken up. */
  lemma LastIsLost(half: nat)
    requires half >= 1
    ensures !AddsUp(half, 1, 2 * half + 1)
  {
    hide SumOfRow, Chain, AddsUp, Fold, OnlyFirst;
    var f := Spike(2 * half);
    InColumn(2 * half + 1, 2 * half);
    ChainUnfolds(f, half, 1);
    FoldOfSpike(half);
    OnlyFirstLess(Fold(f, half), half, if 2 * (half / 2) > 1 then 2 * (half / 2) else 1);
    ChainKeepsFirst(Fold(f, half), half / 2, 1);
    OneWrongSum(f, half, 1, 2 * half + 1, 0);
  }

  /** What goes wrong after the first round goes wrong from the start. */
  lemma WrongFromTheStart(half: nat, rows: nat, m: nat)
    requires rows > 0 && m > 0 && half == rows * m && 2 * half == rows * (2 * m) && !AddsUp(half / 2, rows, m)
    ensures !AddsUp(half, rows, 2 * m)
  {
    hide SumOfRow, Chain;
    var f: int -> real, r: nat :|
      ZeroFrom(f, rows * m) && r < rows && Chain(f, half / 2, rows)(r) != SumOfRow(f, rows, m, r);
    hide AddsUp, Fold, SameBelow;
    Monotone(1, m, rows);
    FoldOfZeros(f, half);
    SameBelowLess(f, Fold(f, half), half, if 2 * (half / 2) > rows then 2 * (half / 2) else rows);
    ChainReads(f, Fold(f, half), half / 2, rows, r);
    ChainUnfolds(f, half, rows);
    FoldKeepsSums(f, half, rows, m, r);
    RowReads(f, Fold(f, half), rows, m, r);
    ZeroFromMore(f, half, 2 * half);
    hide ZeroFrom;
    OneWrongSum(f, half, rows, 2 * m, r);
  }

  lemma ZeroFromMore(f: int -> real, m: nat, k: nat)
    requires ZeroFrom(f, m) && m <= k
    ensures ZeroFrom(f, k)
  {
  }

  lemma FoldOfZeros(f: int -> real, half: nat)
    requires ZeroFrom(f, half)
    ensures SameBelow(f, Fold(f, half), half)
  {
    hide FoldAt;
    forall i: nat | i < half
      ensures FoldAt(f, half, i) == f(i)
    {
      FoldAtAlone(f, half, i);
    }
  }

  lemma RowReads(f: int -> real, g: int -> real, rows: nat, cols: nat, r: nat)
    requires rows * cols >= 0 && r < rows && SameBelow(f, g, rows * cols)
    ensures SumOfRow(f, rows, cols, r) == SumOfRow(g, rows, cols, r)
  {
    hide Sum, SameBelow;
    forall c | 0 <= c < cols
      ensures f(r + rows * c) == g(r + rows * c)
    {
      InMatrix(r, c, rows, cols);
      SameAt(f, g, rows * cols, r + rows * c);
    }
    SumCongruence(cols, c => EntryAt(f, rows, r, c), c => EntryAt(g, rows, r, c));
  }

  lemma Pow2Halves(n: nat)
    ensures IsPow2(2 * n) <==> IsPow2(n)
    ensures !IsPow2(0) && IsPow2(1) && (n > 0 ==> !IsPow2(2 * n + 1))
  {
    assert Pow2(0) == 1;
    if IsPow2(n) {
      var k: nat :| n == Pow2(k);
      assert Pow2(k + 1) == 2 * n;
    }
    if k: nat :| 2 * n == Pow2(k) {
      assert n == Pow2(k - 1);
    }
    if k: nat :| 2 * n + 1 == Pow2(k) {
      assert k > 0 ==> Pow2(k) == 2 * Pow2(k - 1);
    }
  }

  lemma OneColumnAddsUp(half: nat, rows: nat)
    requires half < rows
    ensures AddsUp(half, rows, 1)
  {
    forall f: int -> real, r: nat | r < rows
      ensures Chain(f, half, rows)(r) == SumOfRow(f, rows, 1, r)
    {
      OneColumn(f, rows, r);
    }
  }

  lemma PowersAddUp(rows: nat, m: nat)
    requires rows > 0 && IsPow2(m) && rows * m >= 0 && rows * (2 * m) >= 0
    ensures AddsUp(rows * m, rows, 2 * m)
  {
    var k: nat :| m == Pow2(k);
    assert Pow2(k + 1) == 2 * m;
    forall f: int -> real, r: nat | r < rows
      ensures Chain(f, rows * m, rows)(r) == SumOfRow(f, rows, 2 * m, r)
    {
      PowerAddsUp(f, rows * m, rows, k + 1, r);
    }
  }

  /** The columns that are left after the first round. */
  lemma ColumnsOfHalf(rows: nat, cols: nat, e: nat, half: nat)
    requires cols >= 2 && e < rows && half == (rows * cols + e) / 2
    ensures rows <= half < rows * cols
    ensures cols % 2 == 0 && e <= 1 ==> half == rows * (cols / 2)
    ensures half % rows == 0 ==>
              (half / rows > 0 && half == rows * (half / rows) && cols == 2 * (half / rows) && e <= 1)
              || (rows == 1 && cols == 2 * half + 1)
  {
    Monotone(2, cols, rows);
    Split(half, rows);
    if cols % 2 == 0 && e <= 1 {
      Associate(rows, cols / 2, 2);
    }
    if half % rows == 0 {
      var m := half / rows;
      Associate(rows, m, 2);
      if cols < 2 * m {
        Monotone(cols + 1, 2 * m, rows);
        Distribute(rows, cols, 1);
      } else if cols > 2 * m {
        Monotone(2 * m + 1, cols, rows);
        Distribute(rows, 2 * m, 1);
      }
    }
  }

  /** The rounds over a matrix of `cols` columns and e cells more add up the rows, whatever the matrix, if and only if
      there is one column, or the columns are a power of two and there is at most one cell more. */
  lemma {:induction false} AddsUpIff(rows: nat, cols: nat, e: nat)
    requires cols > 0 && e < rows && rows * cols >= 0
    ensures AddsUp((rows * cols + e) / 2, rows, cols) <==> cols == 1 || (IsPow2(cols) && e <= 1)
    decreases cols
  {
    hide AddsUp, IsPow2;
    var half := (rows * cols + e) / 2;
    if cols == 1 {
      OneColumnAddsUp(half, rows);
    } else {
      ColumnsOfHalf(rows, cols, e, half);
      Pow2Halves(cols / 2);
      if half % rows != 0 {
        UnevenHalf(half, rows, cols);
        DivMod(rows, cols / 2, 0);
      } else if rows == 1 && cols == 2 * half + 1 {
        LastIsLost(half);
      } else {
        Associate(rows, half / rows, 2);
        HalfAddsUpIff(rows, half / rows);
      }
    }
  }

  lemma {:induction false} HalfAddsUpIff(rows: nat, m: nat)
    requires rows > 0 && m > 0 && rows * m >= 0 && rows * (2 * m) == 2 * (rows * m)
    ensures AddsUp(rows * m, rows, 2 * m) <==> IsPow2(m)
    decreases 2 * m - 1
  {
    hide AddsUp, IsPow2;
    if IsPow2(m) {
      PowersAddUp(rows, m);
    } else {
      Pow2Halves(1);
      assert rows * m + 0 == rows * m;
      AddsUpIff(rows, m, 0);
      WrongFromTheStart(rows * m, rows, m);
    }
  }

  /** The ids 0, ..., n - 1 of a launch or of a work-group. */
  function Ids(n: nat): (s: set<nat>)
    ensures forall i: nat :: i in s <==> i < n
  {
    if n == 0 then {} else Ids(n - 1) + {n - 1}
  }

  // ---------- the compact kernel ----------

  /** Work-item gid adds up the cells that are gid modulo the global size and keeps the sum in cell gid. */
  method CompactItem(g_data: array<real>, N: nat, gid: nat, global_size: nat)
    requires gid < global_size <= N <= g_data.Length
    modifies g_data
    ensures g_data[..] == old(g_data[..])[gid := Part(Loop(gid, global_size, N), 1, Cell(old(g_data[..])), N)]
  {
    ghost var l, f := Loop(gid, global_size, N), Cell(g_data[..]);
    var sum := 0.0;
    var i := gid;
    PartBegins(l, 1, f);
    while i < N
      modifies {}
      invariant i >= gid && IsStep(l, i) && sum == Part(l, 1, f, i)
    {
      PartLane(l, 1, f, i, 0);
      PartSkips(l, 1, f, i);
      sum := sum + g_data[i];
      i := i + global_size;
    }
    PartEnds(l, 1, f, i, N);
    g_data[gid] := sum;
  }

  /** With two cells a work-item, the loop makes two steps. */
  lemma TwoSteps(gid: nat, gs: nat, f: int -> real)
    requires gid < gs
    ensures Part(Loop(gid, gs, 2 * gs), 1, f, 2 * gs) == f(gid) + f(gid + gs)
  {
    var l := Loop(gid, gs, 2 * gs);
    PartBegins(l, 1, f);
    PartLane(l, 1, f, gid, 0);
    PartSkips(l, 1, f, gid);
    PartLane(l, 1, f, gid + gs, 0);
    PartSkips(l, 1, f, gid + gs);
    PartEnds(l, 1, f, gid + gs + gs, 2 * gs);
  }

  /** A launch over two cells a work-item, in any order of the work-items. */
  method Compact(g_data: array<real>, N: nat, global_size: nat)
    requires 0 < 2 * global_size == N <= g_data.Length
    modifies g_data
    ensures Folded(g_data[..], old(g_data[..]), global_size)
    ensures g_data[N..] == old(g_data[N..])
  {
    hide Part;
    ghost var was := g_data[..];
    var todo := Ids(global_size);
    while todo != {}
      invariant todo <= Ids(global_size)
      invariant forall i :: 0 <= i < global_size && i !in todo ==> g_data[i] == was[i] + was[global_size + i]
      invariant forall i :: 0 <= i < g_data.Length && (i >= global_size || i in todo) ==> g_data[i] == was[i]
      decreases todo
    {
      var gid :| gid in todo;
      TwoSteps(gid, global_size, Cell(g_data[..]));
      CompactItem(g_data, N, gid, global_size);
      todo := todo - {gid};
    }
  }

  // ---------- the inner kernel ----------

  /** One round of a work-group between two barriers, in any order of the work-items. */
  method Round(l_data: array<real>, local_size: nat, remaining: nat)
    requires remaining <= local_size && 2 * local_size <= l_data.Length
    modifies l_data
    ensures Folded(l_data[..], old(l_data[..]), remaining)
  {
    ghost var was := l_data[..];
    var todo := Ids(local_size);
    while todo != {}
      invariant todo <= Ids(local_size)
      invariant forall i :: 0 <= i < remaining && i !in todo ==> l_data[i] == was[i] + was[remaining + i]
      invariant forall i :: 0 <= i < l_data.Length && (i >= remaining || i in todo) ==> l_data[i] == was[i]
      decreases todo
    {
      var lid :| lid in todo;
      if lid < remaining {
        l_data[lid] := l_data[lid] + l_data[remaining + lid];
      }
      todo := todo - {lid};
    }
  }

  /** The rounds from these cells with `half` work-items on lead to the same as those from other cells. */
  ghost predicate Leads(a: seq<real>, half: nat, b: seq<real>, whole: nat, rows: nat)
    requires rows > 0
  {
    forall r: nat :: r < rows ==> Chain(Cell(a), half, rows)(r) == Chain(Cell(b), whole, rows)(r)
  }

  lemma CopyLeads(a: seq<real>, b: seq<real>, half: nat, rows: nat)
    requires 0 < rows <= 2 * half <= |a| && 2 * half <= |b| && a[..2 * half] == b[..2 * half]
    ensures Leads(a, half, b, half, rows)
  {
    hide Chain;
    forall i | 0 <= i < 2 * half
      ensures Cell(a)(i) == Cell(b)(i)
    {
      assert a[..2 * half][i] == b[..2 * half][i];
    }
    forall r: nat | r < rows
      ensures Chain(Cell(a), half, rows)(r) == Chain(Cell(b), half, rows)(r)
    {
      ChainReads(Cell(a), Cell(b), half, rows, r);
    }
  }

  lemma LeadsItself(a: seq<real>, half: nat, rows: nat)
    requires rows > 0
    ensures Leads(a, half, a, half, rows)
  {
    hide Chain;
  }

  lemma RoundLeads(now: seq<real>, was: seq<real>, half: nat, first: seq<real>, whole: nat, rows: nat)
    requires 0 < rows <= half && Folded(now, was, half) && Leads(was, half, first, whole, rows)
    ensures Leads(now, half / 2, first, whole, rows)
  {
    hide Chain, Fold;
    FoldedIsFold(now, was, half);
    hide Folded, SameBelow;
    ChainUnfolds(Cell(was), half, rows);
    SameBelowLess(Cell(now), Fold(Cell(was), half), half, if 2 * (half / 2) > rows then 2 * (half / 2) else rows);
    forall r: nat | r < rows
      ensures Chain(Cell(now), half / 2, rows)(r) == Chain(Cell(first), whole, rows)(r)
    {
      ChainReads(Cell(now), Fold(Cell(was), half), half / 2, rows, r);
    }
  }

  lemma FoldedIsFold(now: seq<real>, was: seq<real>, half: nat)
    requires Folded(now, was, half)
    ensures SameBelow(Cell(now), Fold(Cell(was), half), half)
  {
    hide FoldAt;
    forall i: nat | i < half
      ensures Cell(now)(i) == FoldAt(Cell(was), half, i)
    {
      FoldAtCell(now, was, half, i);
    }
  }

  lemma FoldAtCell(now: seq<real>, was: seq<real>, half: nat, i: nat)
    requires Folded(now, was, half) && i < half
    ensures Cell(now)(i) == FoldAt(Cell(was), half, i)
  {
    assert now[i] == was[i] + was[half + i];
  }

  lemma LeadsHere(now: seq<real>, half: nat, first: seq<real>, whole: nat, rows: nat)
    requires rows > 0 && half < rows <= |now| && Leads(now, half, first, whole, rows)
    ensures forall r: nat :: r < rows ==> now[r] == Chain(Cell(first), whole, rows)(r)
  {
    forall r: nat | r < rows
      ensures now[r] == Chain(Cell(first), whole, rows)(r)
    {
      assert Chain(Cell(now), half, rows)(r) == Cell(now)(r);
    }
  }

  /** Reduces 2 * local_size cells in local memory. */
  method Inner(g_data: array<real>, num_rows: nat, local_size: nat)
    requires 0 < num_rows <= 2 * local_size <= g_data.Length && local_size <= WORKGROUP_SIZE
    modifies g_data
    ensures forall r: nat :: r < num_rows ==> g_data[r] == Chain(Cell(old(g_data[..])), local_size, num_rows)(r)
    ensures g_data[num_rows..] == old(g_data[num_rows..])
  {
    hide Leads, Folded, Chain;
    ghost var was := g_data[..];
    var l_data := new real[2 * WORKGROUP_SIZE](i => 0.0);
    forall i | 0 <= i < 2 * local_size {
      l_data[i] := g_data[i];
    }
    var remaining: nat := local_size;
    CopyLeads(l_data[..], was, local_size, num_rows);
    while remaining >= num_rows
      modifies l_data
      invariant remaining <= local_size
      invariant Leads(l_data[..], remaining, was, local_size, num_rows)
    {
      ghost var before := l_data[..];
      Round(l_data, local_size, remaining);
      RoundLeads(l_data[..], before, remaining, was, local_size, num_rows);
      remaining := remaining / 2;
    }
    LeadsHere(l_data[..], remaining, was, local_size, num_rows);
    forall i | 0 <= i < num_rows {
      g_data[i] := l_data[i];
    }
  }

  // ---------- the host ----------

  /** The rows divide the work-group. */
  predicate FitsGroup(rows: nat)
    requires rows > 0
  {
    WORKGROUP_SIZE % rows == 0
  }

  /** No assertion fails on the way from so many cells to the rows: launches halve columns, and what is left at last is
      the rows themselves, or a matrix with so few rows that they divide the work-group. */
  predicate RunsThrough(size: nat, rows: nat)
    requires rows > 0
  {
    if size > rows && size > 2 * WORKGROUP_SIZE then
      size / 2 * 2 == size && size / 2 % rows == 0 && RunsThrough(size / 2 / 2 * 2, rows)
    else size == rows || FitsGroup(rows)
  }

  /** Reduces the first data_size cells.  It stops at an assertion exactly when it cannot run through. */
  method Reduce(data: array<real>, data_size: nat, num_cols: nat, result_rows: nat) returns (completed: bool)
    requires result_rows > 0 && num_cols > 0 && result_rows * num_cols <= data_size <= data.Length
    modifies data
    ensures completed <==> RunsThrough(data_size, result_rows)
    ensures completed ==>
              forall r: nat :: r < result_rows ==>
                data[r] == Chain(Cell(old(data[..])), data_size / 2, result_rows)(r)
    ensures data[data_size..] == old(data[data_size..])
  {
    hide Leads, Chain, Folded, FitsGroup;
    ghost var was := data[..];
    var size: nat := data_size;
    var global_size: nat := size / 2;
    LeadsItself(was, data_size / 2, result_rows);
    Monotone(1, num_cols, result_rows);
    while size > result_rows && size > 2 * WORKGROUP_SIZE
      invariant size <= data_size && global_size == size / 2
      invariant size >= result_rows || result_rows > WORKGROUP_SIZE
      invariant RunsThrough(size, result_rows) <==> RunsThrough(data_size, result_rows)
      invariant Leads(data[..], size / 2, was, data_size / 2, result_rows)
      invariant data[data_size..] == old(data[data_size..])
    {
      if !(global_size * 2 == size && global_size % result_rows == 0) {
        return false;
      }
      AtLeastRows(global_size, result_rows);
      ghost var before := data[..];
      Compact(data, size, global_size);
      Unaffected(before, data[..], size, data_size);
      RoundLeads(data[..], before, global_size, was, data_size / 2, result_rows);
      global_size := global_size / 2;
      size := global_size * 2;
    }
    if size != result_rows {
      if !FitsGroup(result_rows) {
        return false;
      }
      RowsFitGroup(result_rows);
      ghost var before := data[..];
      Inner(data, result_rows, size / 2);
      Unaffected(before, data[..], result_rows, data_size);
      assert Leads(before, size / 2, was, data_size / 2, result_rows);
      LeadsOn(before, size / 2, was, data_size / 2, result_rows);
      return true;
    }
    LeadsHere(data[..], size / 2, was, data_size / 2, result_rows);
    return true;
  }

  lemma LeadsOn(before: seq<real>, half: nat, first: seq<real>, whole: nat, rows: nat)
    requires rows > 0 && Leads(before, half, first, whole, rows)
    ensures forall r: nat :: r < rows ==> Chain(Cell(before), half, rows)(r) == Chain(Cell(first), whole, rows)(r)
  {
  }

  lemma AtLeastRows(half: nat, rows: nat)
    requires rows > 0 && half > 0 && half % rows == 0
    ensures half >= rows
  {
    if half < rows {
      DivMod(rows, 0, half);
    }
  }

  lemma RowsFitGroup(rows: nat)
    requires rows > 0 && FitsGroup(rows)
    ensures rows <= WORKGROUP_SIZE
  {
    if rows > WORKGROUP_SIZE {
      DivMod(rows, 0, WORKGROUP_SIZE);
    }
  }

  lemma Unaffected(a: seq<real>, b: seq<real>, from: nat, to: nat)
    requires |a| == |b| && from <= to <= |a| && a[from..] == b[from..]
    ensures a[to..] == b[to..]
  {
    assert a[to..] == a[from..][to - from..];
    assert b[to..] == b[from..][to - from..];
  }

  // ---------- when the host gets the sums of the rows ----------

  /** For a matrix and nothing more: there is nothing to add up, or the rows are more than the work-group has
      work-items, and evenly many, or they divide it. */
  predicate Completes(rows: nat, cols: nat)
    requires rows > 0
  {
    cols == 1 || (if rows > WORKGROUP_SIZE then rows % 2 == 0 else FitsGroup(rows))
  }

  /** Columns are a power of two, and the reduction completes. */
  ghost predicate Reduces(rows: nat, cols: nat)
    requires rows > 0
  {
    IsPow2(cols) && Completes(rows, cols)
  }

  lemma {:induction false} RunsThroughIff(rows: nat, k: nat)
    requires rows > 0
    ensures rows * Pow2(k) > 0 && (RunsThrough(rows * Pow2(k), rows) <==> Completes(rows, Pow2(k)))
  {
    hide FitsGroup;
    Monotone(1, Pow2(k), rows);
    if k > 0 {
      var half := rows * Pow2(k - 1);
      Associate(rows, Pow2(k - 1), 2);
      assert rows * Pow2(k) == 2 * half;
      Monotone(1, Pow2(k - 1), rows);
      DivMod(rows, Pow2(k - 1), 0);
      RunsThroughIff(rows, k - 1);
      if k > 1 {
        HalfOf(rows, k - 1);
        Associate(rows, Pow2(k - 2), 2);
      } else if rows > WORKGROUP_SIZE {
        LargerFitsNot(rows);
      }
    }
  }

  lemma LargerFitsNot(rows: nat)
    requires rows > WORKGROUP_SIZE
    ensures !FitsGroup(rows)
  {
    DivMod(rows, 0, WORKGROUP_SIZE);
  }

  /** Cells behind the last whole column never pass the assertions of a launch. */
  lemma RestRunsThroughIff(rows: nat, cols: nat, e: nat)
    requires cols > 0 && 0 < e < rows && rows * cols >= 0
    ensures RunsThrough(rows * cols + e, rows) <==> FitsGroup(rows) && rows * cols + e <= 2 * WORKGROUP_SIZE
  {
    hide FitsGroup;
    var size := rows * cols + e;
    Monotone(1, cols, rows);
    if size > 2 * WORKGROUP_SIZE && size / 2 * 2 == size && size / 2 % rows == 0 {
      Split(size / 2, rows);
      var m := size / 2 / rows;
      Associate(rows, m, 2);
      UniqueQuotient(rows, cols, e, 2 * m, 0);
    }
  }

  /** The reduction of a matrix and e cells more runs through and leaves the sums of the rows, whatever the matrix, if
      and only if the matrix reduces, or, with more cells, the rows divide the work-group, all cells fit it, and there
      is one column, or a power of two of columns and one cell more. */
  lemma RightIff(rows: nat, cols: nat, e: nat)
    requires cols > 0 && e < rows && rows * cols >= 0
    ensures RunsThrough(rows * cols + e, rows) && AddsUp((rows * cols + e) / 2, rows, cols) <==>
            if e == 0 then Reduces(rows, cols)
            else FitsGroup(rows) && rows * cols + e <= 2 * WORKGROUP_SIZE && (cols == 1 || (IsPow2(cols) && e == 1))
  {
    hide AddsUp, FitsGroup, IsPow2;
    AddsUpIff(rows, cols, e);
    if e > 0 {
      RestRunsThroughIff(rows, cols, e);
    } else {
      Pow2Halves(0);
      if IsPow2(cols) {
        MatrixRunsThrough(rows, cols);
      }
    }
  }

  lemma MatrixRunsThrough(rows: nat, cols: nat)
    requires rows > 0 && IsPow2(cols)
    ensures rows * cols > 0 && (RunsThrough(rows * cols, rows) <==> Completes(rows, cols))
  {
    var k: nat :| cols == Pow2(k);
    RunsThroughIff(rows, k);
  }

  /** What a reduction has left are the sums of the rows, if it is right for all matrices. */
  lemma SumsAreLeft(g: seq<real>, size: nat, rows: nat, cols: nat)
    requires 0 < rows <= size && 0 <= rows * cols <= size <= |g| && AddsUp(size / 2, rows, cols)
    requires forall i :: rows * cols <= i < size ==> g[i] == 0.0
    ensures forall r: nat :: r < rows ==> Chain(Cell(g), size / 2, rows)(r) == RowSum(g, rows, cols, r)
  {
    hide Chain, SumOfRow;
    var cut := g[..size];
    forall r: nat | r < rows
      ensures Chain(Cell(g), size / 2, rows)(r) == RowSum(g, rows, cols, r)
    {
      SameCells(cut, g, size);
      hide SameBelow;
      SameBelowLess(Cell(cut), Cell(g), size, if 2 * (size / 2) > rows then 2 * (size / 2) else rows);
      ChainReads(Cell(cut), Cell(g), size / 2, rows, r);
      SameBelowLess(Cell(cut), Cell(g), size, rows * cols);
      RowReads(Cell(cut), Cell(g), rows, cols, r);
      assert ZeroFrom(Cell(cut), rows * cols);
    }
  }

  lemma SameCells(a: seq<real>, b: seq<real>, m: nat)
    requires m <= |a| && m <= |b| && a[..m] == b[..m]
    ensures SameBelow(Cell(a), Cell(b), m)
  {
    forall i | 0 <= i < m
      ensures Cell(a)(i) == Cell(b)(i)
    {
      assert a[..m][i] == b[..m][i];
    }
  }

  /** Three rows do not divide the work-group, and 257 rows are rounded down. */
  lemma SomeDoNotComplete()
    ensures !Completes(3, 2) && !Completes(257, 2) && Completes(4, 2) && Completes(258, 2)
  {
    assert WORKGROUP_SIZE % 3 == 1;
  }

  /** Two columns of four rows and two cells more: all assertions hold, and the sums are wrong. */
  lemma SomeSumsAreWrong()
    ensures RunsThrough(10, 4) && !AddsUp(5, 4, 2)
  {
    hide AddsUp;
    assert WORKGROUP_SIZE % 4 == 0;
    AddsUpIff(4, 2, 2);
  }
}
