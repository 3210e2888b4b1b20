/** The two sequential baselines of the R statistics package: Lloyd's and MacQueen's k-means. */
module RStatsKmeans {
  import opened Sums
  import opened Clustering
  import opened Descent
  import opened Numbers
  import opened ColumnMajor
  import Indices

  // ---------- steps both programs share ----------

  /** The labels as the programs store them: one more than the index of the cluster. */
  ghost function Minus1(cl: seq<int>): (lab: seq<int>)
    ensures |lab| == |cl|
    ensures forall i :: 0 <= i < |cl| ==> lab[i] == cl[i] - 1
  {
    seq(|cl|, i requires 0 <= i < |cl| => cl[i] - 1)
  }

  /** The squared distance of point i to centre j, NaN for a dead centre. */
  method SquaredDistance(x: seq<real>, n: nat, p: nat, cen: array<Num>, k: nat, i: nat, j: nat, ghost cs: seq<Center>)
    returns (dd: Num)
    requires |x| == n * p && p > 0 && i < n && j < k && Holds(cen[..], cs, k, p)
    ensures dd == if cs[j].Live? then Fin(Dist(Rows(x, n, p)[i], cs[j])) else NaN
  {
    ghost var pt := Rows(x, n, p)[i];
    dd := Fin(0.0);
    for c := 0 to p
      invariant dd == if cs[j].Live? then Fin(SqDist(pt, cs[j].at, c)) else if c == 0 then Fin(0.0) else NaN
    {
      Indices.InMatrix(i, c, n, p);
      CellOf(j, c, k, p);
      assert cen[j + k * c] == cen[..][j + k * c] == Entry(cs, j, c);
      var tmp := Sub(Fin(x[i + n * c]), cen[j + k * c]);
      dd := Add(dd, Mul(tmp, tmp));
    }
  }

  /** The search for the nearest centre of point i.  The answer starts at what the previous search left behind, but
      whenever a centre is live it is overwritten. */
  method FindNearest(x: seq<real>, n: nat, p: nat, cen: array<Num>, k: nat, i: nat, before: int, ghost cs: seq<Center>)
    returns (inew: int)
    requires |x| == n * p && p > 0 && i < n && Holds(cen[..], cs, k, p)
    ensures HasLive(cs) ==> inew == Nearest(Rows(x, n, p)[i], cs)
    ensures !HasLive(cs) ==> inew == before
  {
    hide SqDist, Dist;
    ghost var pt := Rows(x, n, p)[i];
    var best := Huge;
    inew := before;
    for j := 0 to k
      invariant var b := Best(pt, cs, j);
                if b < 0 then best == Huge && inew == before else best == Fin(Dist(pt, cs[b])) && inew == b
    {
      var dd := SquaredDistance(x, n, p, cen, k, i, j, cs);
      if Less(dd, best) {
        best := dd;
        inew := j;
      }
    }
    BestOfNone(pt, cs, k);
  }

  lemma {:induction false} BestOfNone(x: Vec, cs: seq<Center>, m: nat)
    requires Centers(cs, |x|) && m <= |cs|
    ensures Best(x, cs, m) == -1 <==> !LiveBelow(cs, m)
  {
    if m > 0 {
      BestOfNone(x, cs, m - 1);
    }
  }

  /** Adds up and counts the points of every cluster. */
  method SumClusters(x: seq<real>, n: nat, p: nat, cen: array<Num>, k: nat, cl: array<int>, nc: array<int>)
    requires |x| == n * p && p > 0 && k > 0 && cen.Length == k * p && cl.Length == n && nc.Length == k && nc != cl
    requires Labels(Minus1(cl[..]), k)
    modifies cen, nc
    ensures forall t :: 0 <= t < k * p ==>
              0 <= t / k < p && cen[t] == Fin(Total(Rows(x, n, p), Minus1(cl[..]), t % k, t / k, n))
    ensures forall j :: 0 <= j < k ==> nc[j] == Count(Minus1(cl[..]), j, n)
  {
    hide Minus1;
    ghost var pts, lab := Rows(x, n, p), Minus1(cl[..]);
    for j := 0 to k * p
      invariant forall t :: 0 <= t < j ==> cen[t] == Fin(0.0)
    {
      cen[j] := Fin(0.0);
    }
    for j := 0 to k
      modifies nc
      invariant forall t :: 0 <= t < j ==> nc[t] == 0
    {
      nc[j] := 0;
    }
    forall t | 0 <= t < k * p
      ensures 0 <= t / k < p && Total(pts, lab, t % k, t / k, 0) == 0.0
    {
      CellSplit(t, k, p);
    }
    for i := 0 to n
      invariant forall j :: 0 <= j < k ==> nc[j] == Count(lab, j, i)
      invariant forall t :: 0 <= t < k * p ==> cen[t] == Fin(Total(pts, lab, t % k, t / k, i))
    {
      var it := cl[i] - 1;
      nc[it] := nc[it] + 1;
      AddPoint(x, n, p, cen, k, i, it, lab);
    }
  }

  /** Adds point i to the running sums of its cluster. */
  method AddPoint(x: seq<real>, n: nat, p: nat, cen: array<Num>, k: nat, i: nat, it: int, ghost lab: seq<int>)
    requires |x| == n * p && p > 0 && k > 0 && cen.Length == k * p && i < n == |lab| && it == lab[i] && 0 <= it < k
    requires forall t :: 0 <= t < k * p ==>
               0 <= t / k < p && cen[t] == Fin(Total(Rows(x, n, p), lab, t % k, t / k, i))
    modifies cen
    ensures forall t :: 0 <= t < k * p ==>
               0 <= t / k < p && cen[t] == Fin(Total(Rows(x, n, p), lab, t % k, t / k, i + 1))
  {
    ghost var pts := Rows(x, n, p);
    for c := 0 to p
      invariant forall t :: 0 <= t < k * p ==>
                  cen[t] == if t % k == it && t / k < c then Fin(Total(pts, lab, t % k, t / k, i + 1))
                            else Fin(Total(pts, lab, t % k, t / k, i))
    {
      Indices.InMatrix(i, c, n, p);
      CellOf(it, c, k, p);
      forall t | 0 <= t < k * p && t % k == it && t / k == c
        ensures t == it + c * k
      {
        CellSplit(t, k, p);
      }
      cen[it + c * k] := Add(cen[it + c * k], Fin(x[i + c * n]));
    }
  }

  /** Recomputes every centre as the mean of the points labelled with it, and counts them. */
  method UpdateCenters(x: seq<real>, n: nat, p: nat, cen: array<Num>, k: nat, cl: array<int>, nc: array<int>)
    requires |x| == n * p && p > 0 && k > 0 && cen.Length == k * p && cl.Length == n && nc.Length == k && nc != cl
    requires Labels(Minus1(cl[..]), k)
    modifies cen, nc
    ensures Holds(cen[..], Means(Rows(x, n, p), Minus1(cl[..]), k, p), k, p)
    ensures forall j :: 0 <= j < k ==> nc[j] == Count(Minus1(cl[..]), j, n)
  {
    hide Minus1, Total, Count;
    ghost var pts, lab := Rows(x, n, p), Minus1(cl[..]);
    SumClusters(x, n, p, cen, k, cl, nc);
    ghost var means := Means(pts, lab, k, p);
    assert cl[..] == old(cl[..]);
    for j := 0 to k * p
      modifies cen
      invariant forall t :: j <= t < k * p ==> 0 <= t / k < p && cen[t] == Fin(Total(pts, lab, t % k, t / k, n))
      invariant forall t :: 0 <= t < j ==> cen[t] == Entry(means, t % k, t / k)
    {
      if nc[j % k] == 0 {
        EmptyClusterHasNoTotal(pts, lab, j % k, j / k, n);
      }
      cen[j] := Div(cen[j], nc[j % k]);
    }
  }

  /** What cluster j adds to the within-cluster sum of squares, over the first m points. */
  ghost function ClusterCost(pts: seq<Vec>, lab: seq<int>, cs: seq<Center>, j: int, p: nat, m: nat): real
    requires Points(pts, p) && m <= |lab| == |pts| && Centers(cs, p) && Usable(lab, cs)
  {
    if m == 0 then 0.0
    else
      ClusterCost(pts, lab, cs, j, p, m - 1)
      + (if lab[m - 1] == j then SqDist(pts[m - 1], cs[lab[m - 1]].at, p) else 0.0)
  }

  /** The per-cluster sums of squares add up to the cost of the labelling. */
  lemma {:induction false} ClusterCostsAddUp(pts: seq<Vec>, lab: seq<int>, cs: seq<Center>, p: nat, m: nat,
                                             f: int -> real)
    requires Points(pts, p) && m <= |lab| == |pts| && Centers(cs, p) && Usable(lab, cs)
    requires forall j :: 0 <= j < |cs| ==> f(j) == ClusterCost(pts, lab, cs, j, p, m)
    ensures Sum(|cs|, f) == CostAt(pts, lab, SitesOf(cs, p), p, m)
  {
    hide SqDist;
    if m == 0 {
      SumOfZeros(|cs|, f);
    } else {
      var g := j => ClusterCost(pts, lab, cs, j, p, m - 1);
      ClusterCostsAddUp(pts, lab, cs, p, m - 1, g);
      var j := lab[m - 1];
      SumBump(|cs|, g, f, j, SqDist(pts[m - 1], cs[j].at, p));
    }
  }

  /** The within-cluster sums of squares that both programs report. */
  method SumsOfSquares(x: seq<real>, n: nat, p: nat, cen: array<Num>, k: nat, cl: array<int>, wss: array<Num>,
                       ghost cs: seq<Center>)
    requires |x| == n * p && p > 0 && Holds(cen[..], cs, k, p) && cl.Length == n && wss.Length == k && wss != cen
    requires Usable(Minus1(cl[..]), cs)
    modifies wss
    ensures forall j :: 0 <= j < k ==>
              wss[j] == Fin(ClusterCost(Rows(x, n, p), Minus1(cl[..]), cs, j, p, n))
    ensures n == 0 ==> forall j :: 0 <= j < k ==> wss[j] == Fin(0.0)
  {
    hide Minus1;
    ghost var pts, lab := Rows(x, n, p), Minus1(cl[..]);
    for j := 0 to k
      invariant forall t :: 0 <= t < j ==> wss[t] == Fin(0.0)
    {
      wss[j] := Fin(0.0);
    }
    assert cen[..] == old(cen[..]);
    for i := 0 to n
      invariant forall j :: 0 <= j < k ==> wss[j] == Fin(ClusterCost(pts, lab, cs, j, p, i))
    {
      AddSquares(x, n, p, cen, k, wss, i, cl[i] - 1, cs, lab);
    }
  }

  method AddSquares(x: seq<real>, n: nat, p: nat, cen: array<Num>, k: nat, wss: array<Num>, i: nat, it: int,
                    ghost cs: seq<Center>, ghost lab: seq<int>)
    requires |x| == n * p && p > 0 && Holds(cen[..], cs, k, p) && wss.Length == k && wss != cen
    requires i < n == |lab| && it == lab[i] && Usable(lab, cs)
    requires forall j :: 0 <= j < k ==> wss[j] == Fin(ClusterCost(Rows(x, n, p), lab, cs, j, p, i))
    modifies wss
    ensures forall j :: 0 <= j < k ==> wss[j] == Fin(ClusterCost(Rows(x, n, p), lab, cs, j, p, i + 1))
  {
    ghost var pts, was := Rows(x, n, p), wss[..];
    assert cen[..] == old(cen[..]);
    for c := 0 to p
      invariant was[it].Fin? && wss[it] == Fin(was[it].v + SqDist(pts[i], cs[it].at, c))
      invariant forall j :: 0 <= j < k && j != it ==> wss[j] == was[j]
    {
      hide ClusterCost;
      Indices.InMatrix(i, c, n, p);
      CellOf(it, c, k, p);
      assert cen[it + k * c] == old(cen[..])[it + k * c] == Entry(cs, it, c);
      var tmp := Sub(Fin(x[i + n * c]), cen[it + k * c]);
      wss[it] := Add(wss[it], Mul(tmp, tmp));
    }
    assert forall j :: 0 <= j < k ==> was[j] == Fin(ClusterCost(pts, lab, cs, j, p, i));
  }

  // ---------- Lloyd ----------

  /** Labels every point with its nearest centre and tells whether a label changed. */
  method AssignLabels(x: seq<real>, n: nat, p: nat, cen: array<Num>, k: nat, cl: array<int>, ghost cs: seq<Center>)
    returns (updated: bool)
    requires |x| == n * p && p > 0 && Holds(cen[..], cs, k, p) && cl.Length == n
    requires n > 0 ==> HasLive(cs)
    modifies cl
    ensures Minus1(cl[..]) == Assign(Rows(x, n, p), cs, p)
    ensures updated <==> cl[..] != old(cl[..])
  {
    hide Nearest;
    ghost var pts := Rows(x, n, p);
    ghost var was := cl[..];
    var inew := 0;
    updated := false;
    for i := 0 to n
      invariant forall t :: 0 <= t < i ==> cl[t] == Nearest(pts[t], cs) + 1
      invariant forall t :: i <= t < n ==> cl[t] == was[t]
      invariant updated <==> exists t :: 0 <= t < i && cl[t] != was[t]
    {
      var j := FindNearest(x, n, p, cen, k, i, inew - 1, cs);
      inew := j + 1;
      if cl[i] != inew {
        updated := true;
        cl[i] := inew;
      }
    }
    assert !updated ==> cl[..] == was;
    assert Minus1(cl[..]) == Assign(pts, cs, p);
  }

  /** No iteration before iteration m repeated the labelling of the one before it. */
  ghost predicate AllNew(pts: seq<Vec>, c0: seq<Center>, p: nat, m: nat)
    requires Points(pts, p) && Centers(c0, p) && |c0| > 0
  {
    forall t :: 1 <= t < m ==> Iterate(pts, c0, p, t + 1) != Iterate(pts, c0, p, t)
  }

  lemma StillNew(pts: seq<Vec>, c0: seq<Center>, p: nat, m: nat)
    requires Points(pts, p) && Centers(c0, p) && |c0| > 0
    ensures AllNew(pts, c0, p, 0)
    ensures AllNew(pts, c0, p, m) && (m >= 1 ==> Iterate(pts, c0, p, m + 1) != Iterate(pts, c0, p, m))
            ==> AllNew(pts, c0, p, m + 1)
  {
    hide Iterate;
  }

  /** A run that stops at the first repeated labelling ends like one that runs on, and is sure to stop in time. */
  lemma EarlyExit(pts: seq<Vec>, c0: seq<Center>, p: nat, iter: nat, maxiter: nat)
    requires Points(pts, p) && Centers(c0, p) && |c0| > 0
    requires 1 <= iter <= maxiter && AllNew(pts, c0, p, iter)
    requires iter < maxiter ==> Iterate(pts, c0, p, iter + 1) == Iterate(pts, c0, p, iter)
    ensures Iterate(pts, c0, p, iter) == Iterate(pts, c0, p, maxiter)
    ensures maxiter > Power(|c0|, |pts|) ==> iter < maxiter
  {
    hide Next, Assign, Power, Lower;
    if iter < maxiter {
      FixedForever(pts, c0, p, iter, maxiter);
    } else {
      var t := Converges(pts, c0, p);
    }
  }

  /** Lloyd's k-means. c0 is what the caller left in cen. The number of iterations that it reports is that of the first
      one to repeat the labelling before it, or maxiter + 1 if none does up to maxiter. With a positive number of points
      the outcome is that of maxiter full iterations, although the loop leaves at the first iteration that changes no
      label, which it must reach by itself within k^n iterations. */
  method KmeansLloyd(x: seq<real>, n: nat, p: nat, cen: array<Num>, k: nat, cl: array<int>, maxiter: nat,
                     nc: array<int>, wss: array<Num>, ghost c0: seq<Center>)
    returns (iterations: nat)
    requires |x| == n * p && p > 0 && cl.Length == n && nc.Length == k && wss.Length == k
    requires nc != cl && wss != cen
    requires Holds(cen[..], c0, k, p)
    requires n > 0 ==> HasLive(c0) && maxiter >= 1
    modifies cen, cl, nc, wss
    ensures n > 0 ==>
              var pts, lab := Rows(x, n, p), Minus1(cl[..]);
              && lab == Iterate(pts, c0, p, maxiter)
              && Holds(cen[..], Means(pts, lab, k, p), k, p)
              && (forall j :: 0 <= j < k ==> nc[j] == Count(lab, j, n))
              && Usable(lab, Means(pts, lab, k, p))
              && (forall j :: 0 <= j < k ==> wss[j] == Fin(ClusterCost(pts, lab, Means(pts, lab, k, p), j, p, n)))
    ensures n > 0 ==>
              var pts := Rows(x, n, p);
              && 2 <= iterations <= maxiter + 1
              && AllNew(pts, c0, p, iterations - 1)
              && (iterations <= maxiter ==> Iterate(pts, c0, p, iterations) == Iterate(pts, c0, p, iterations - 1))
              && (iterations <= maxiter ==>
                    && Next(pts, Minus1(cl[..]), k, p) == Minus1(cl[..])
                    && forall i :: 0 <= i < n ==>
                       IsNearest(pts[i], Means(pts, Minus1(cl[..]), k, p), Minus1(cl[..])[i]))
    ensures n > 0 && maxiter > Power(k, n) ==> iterations <= maxiter
    ensures n == 0 ==> iterations == 1 && cen[..] == old(cen[..]) && forall j :: 0 <= j < k ==> wss[j] == Fin(0.0)
  {
    hide Assign, Next, Iterate, Means, Count, Minus1, ClusterCost, Power, AllNew, Entry, IsNearest;
    ghost var pts := Rows(x, n, p);
    for i := 0 to n
      modifies cl
      invariant forall t :: 0 <= t < i ==> cl[t] == -1
    {
      cl[i] := -1;
    }
    assert cen[..] == old(cen[..]);
    ghost var cs := c0;
    assert Assign(pts, cs, p) == Iterate(pts, c0, p, 1) by {
      IterateOnce(pts, c0, p);
    }
    StillNew(pts, c0, p, 0);
    var iter := 0;
    var stop := false;
    while iter < maxiter && !stop
      invariant 0 <= iter <= maxiter && (stop ==> iter < maxiter && (iter >= 1 || n == 0))
      invariant Holds(cen[..], cs, k, p) && (n > 0 ==> HasLive(cs))
      invariant n == 0 ==> iter == 0 && cs == c0 && cen[..] == old(cen[..])
      invariant iter == 0 ==>
                  cs == c0 && Assign(pts, cs, p) == Iterate(pts, c0, p, 1) && forall t :: 0 <= t < n ==> cl[t] == -1
      invariant iter > 0 ==>
                  var lab := Minus1(cl[..]);
                  && lab == Iterate(pts, c0, p, iter)
                  && cs == Means(pts, lab, k, p)
                  && (forall j :: 0 <= j < k ==> nc[j] == Count(lab, j, n))
      invariant AllNew(pts, c0, p, iter)
      invariant stop && n > 0 ==> Iterate(pts, c0, p, iter + 1) == Iterate(pts, c0, p, iter)
      decreases maxiter - iter, !stop
    {
      ghost var before := Minus1(cl[..]);
      var updated := AssignLabels(x, n, p, cen, k, cl, cs);
      ghost var lab := Minus1(cl[..]);
      assert lab == Iterate(pts, c0, p, iter + 1) by {
        if iter > 0 {
          IterateStep(pts, c0, p, iter);
        }
      }
      if iter == 0 && n > 0 {
        assert cl[0] == lab[0] + 1 != -1;
      }
      if !updated {
        stop := true;
      } else {
        UpdateCenters(x, n, p, cen, k, cl, nc);
        cs := Means(pts, lab, k, p);
        UsedCentersAreLive(pts, lab, k, p);
        StillNew(pts, c0, p, iter);
        iter := iter + 1;
      }
    }
    iterations := iter + 1;
    ghost var lab := Minus1(cl[..]);
    UsedCentersAreLive(pts, lab, k, p);
    SumsOfSquares(x, n, p, cen, k, cl, wss, cs);
    if n > 0 {
      EarlyExit(pts, c0, p, iter, maxiter);
      if stop {
        IterateNext(pts, c0, p, iter);
        Settled(pts, lab, k, p);
      }
    }
  }
}
