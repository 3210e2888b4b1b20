/** MacQueen's k-means: a label that changes moves its point between two running means at once. */
module MacQueen {
  import opened Clustering
  import opened Descent
  import opened Numbers
  import opened ColumnMajor
  import opened RStatsKmeans
  import Indices

  // ---------- one reassignment ----------

  /** Point i takes the label of the mean now nearest to it. */
  ghost function Reassign(pts: seq<Vec>, lab: seq<int>, i: nat, k: nat, p: nat): (r: seq<int>)
    requires Points(pts, p) && |lab| == |pts| && Labels(lab, k) && i < |lab| && k > 0
    ensures |r| == |lab| && Labels(r, k)
  {
    lab[i := Nearest(pts[i], Means(pts, lab, k, p))]
  }

  lemma {:induction false} CountAfterMove(lab: seq<int>, i: nat, to: int, j: int, m: nat)
    requires i < |lab| && m <= |lab|
    ensures Count(lab[i := to], j, m) ==
            Count(lab, j, m) + (if i < m then (if j == to then 1 else 0) - (if j == lab[i] then 1 else 0) else 0)
  {
    if m > 0 {
      CountAfterMove(lab, i, to, j, m - 1);
    }
  }

  lemma {:induction false} TotalAfterMove(pts: seq<Vec>, lab: seq<int>, i: nat, to: int, j: int, c: nat, m: nat)
    requires i < |lab| == |pts| && m <= |lab|
    requires forall i :: 0 <= i < |pts| ==> c < |pts[i]|
    ensures Total(pts, lab[i := to], j, c, m) ==
            Total(pts, lab, j, c, m)
            + (if i < m then (if j == to then pts[i][c] else 0.0) - (if j == lab[i] then pts[i][c] else 0.0) else 0.0)
  {
    if m > 0 {
      TotalAfterMove(pts, lab, i, to, j, c, m - 1);
    }
  }

  lemma Cancel(a: real, b: real, d: real)
    requires d != 0.0 && a * d == b * d
    ensures a == b
  {
    assert (a - b) * d == 0.0;
  }

  lemma RunningMeanGains(total: real, n: real, x: real)
    requires n > 0.0
    ensures total / n + (x - total / n) / (n + 1.0) == (total + x) / (n + 1.0)
  {
    var mean, d := total / n, n + 1.0;
    var step := (x - mean) / d;
    assert mean * n == total && step * d == x - mean;
    assert (mean + step) * d == mean * n + mean + step * d == total + x;
    assert (total + x) / d * d == total + x;
    Cancel(mean + step, (total + x) / d, d);
  }

  lemma RunningMeanLoses(total: real, n: real, x: real)
    requires n > 1.0
    ensures total / n + (total / n - x) / (n - 1.0) == (total - x) / (n - 1.0)
  {
    var mean, d := total / n, n - 1.0;
    var step := (mean - x) / d;
    assert mean * n == total && step * d == mean - x;
    assert (mean + step) * d == mean * n - mean + step * d == total - x;
    assert (total - x) / d * d == total - x;
    Cancel(mean + step, (total - x) / d, d);
  }

  /** A cluster of one point has that point as its mean. */
  lemma {:induction false} LonePoint(pts: seq<Vec>, lab: seq<int>, i: nat, c: nat, m: nat)
    requires i < m <= |lab| == |pts|
    requires forall i :: 0 <= i < |pts| ==> c < |pts[i]|
    requires Count(lab, lab[i], m) == 1
    ensures Total(pts, lab, lab[i], c, m) == pts[i][c]
  {
    if i == m - 1 {
      EmptyClusterHasNoTotal(pts, lab, lab[i], c, m - 1);
    } else {
      CountIsPositive(lab, i, m - 1);
      LonePoint(pts, lab, i, c, m - 1);
    }
  }

  /** The running update of one coordinate gives the coordinate of the new mean: of the cluster that gains point i,
      of the cluster that loses it (NaN when it had no other), and of every other cluster, which keeps its own. */
  lemma RunningMeans(pts: seq<Vec>, lab: seq<int>, i: nat, to: int, k: nat, p: nat, c: nat)
    requires Points(pts, p) && |lab| == |pts| && Labels(lab, k) && i < |lab| && 0 <= to < k && to != lab[i] && c < p
    requires Mean(pts, lab, to, p).Live?
    ensures var was, now, from, x := Means(pts, lab, k, p), Means(pts, lab[i := to], k, p), lab[i], Fin(pts[i][c]);
            var fewer, more := Count(lab, from, |lab|) - 1, Count(lab, to, |lab|) + 1;
            && fewer == Count(lab[i := to], from, |lab|) && more == Count(lab[i := to], to, |lab|)
            && Entry(was, from, c).Fin? && Entry(was, to, c).Fin?
            && (fewer == 0 ==> Entry(was, from, c) == x)
            && Entry(now, from, c) == Add(Entry(was, from, c), Div(Sub(Entry(was, from, c), x), fewer))
            && Entry(now, to, c) == Add(Entry(was, to, c), Div(Sub(x, Entry(was, to, c)), more))
            && forall j :: 0 <= j < k && j != from && j != to ==> Entry(now, j, c) == Entry(was, j, c)
  {
    hide Total, Count;
    var n := |lab|;
    var from, x := lab[i], pts[i][c];
    CountIsPositive(lab, i, n);
    forall j | 0 <= j < k
      ensures Count(lab[i := to], j, n) ==
              Count(lab, j, n) + (if j == to then 1 else 0) - (if j == from then 1 else 0)
      ensures Total(pts, lab[i := to], j, c, n) ==
              Total(pts, lab, j, c, n) + (if j == to then x else 0.0) - (if j == from then x else 0.0)
    {
      CountAfterMove(lab, i, to, j, n);
      TotalAfterMove(pts, lab, i, to, j, c, n);
    }
    RunningMeanGains(Total(pts, lab, to, c, n), Count(lab, to, n) as real, x);
    if Count(lab, from, n) == 1 {
      LonePoint(pts, lab, i, c, n);
    } else {
      RunningMeanLoses(Total(pts, lab, from, c, n), Count(lab, from, n) as real, x);
    }
  }

  /** A reassignment that changes the label lowers the labelling. */
  lemma ReassignLowers(pts: seq<Vec>, lab: seq<int>, i: nat, k: nat, p: nat)
    requires Points(pts, p) && |lab| == |pts| && Labels(lab, k) && i < |lab| && k > 0
    requires Reassign(pts, lab, i, k, p) != lab
    ensures Lower(pts, Reassign(pts, lab, i, k, p), lab, k, p)
  {
    hide SqDist, Nearest, Mean, IsNearest, Lower;
    NearestIsNoFarther(pts, lab, k, p, i);
    MovingLowers(pts, Reassign(pts, lab, i, k, p), lab, k, p);
  }

  /** It even lowers the objective itself, unless the point sat exactly at its old centre. */
  lemma ReassignImproves(pts: seq<Vec>, lab: seq<int>, i: nat, k: nat, p: nat)
    requires Points(pts, p) && |lab| == |pts| && Labels(lab, k) && i < |lab| && k > 0
    requires Reassign(pts, lab, i, k, p) != lab
    requires SqDist(pts[i], SitesOf(Means(pts, lab, k, p), p)[lab[i]], p) > 0.0
    ensures Objective(pts, Reassign(pts, lab, i, k, p), k, p) < Objective(pts, lab, k, p)
  {
    hide SqDist, CostAt, LabelSum, Count, Total;
    var means, r := Means(pts, lab, k, p), Reassign(pts, lab, i, k, p);
    var s, j := SitesOf(means, p), r[i];
    UsedCentersAreLive(pts, lab, k, p);
    NearestIsNoFarther(pts, lab, k, p, i);
    NoFartherCostsNoMore(pts, r, lab, s, p, |lab|);
    MeansAreBest(pts, r, means, k, p);
    if SqDist(pts[i], s[j], p) == SqDist(pts[i], s[lab[i]], p) {
      NewMeanDiffers(pts, lab, i, j, k, p);
      AwayFromMeanIsWorse(pts, r, means, k, p, i);
    }
  }

  /** A mean that gains a point away from it moves. */
  lemma NewMeanDiffers(pts: seq<Vec>, lab: seq<int>, i: nat, to: int, k: nat, p: nat)
    requires Points(pts, p) && |lab| == |pts| && Labels(lab, k) && i < |lab| && 0 <= to < k && to != lab[i]
    requires Mean(pts, lab, to, p).Live? && Dist(pts[i], Mean(pts, lab, to, p)) > 0.0
    ensures Mean(pts, lab, to, p) != Mean(pts, lab[i := to], to, p)
  {
    hide Total, Count, SqDist;
    var was := Mean(pts, lab, to, p).at;
    ZeroDistanceIsEqual(pts[i], was, p);
    assert pts[i][..p] == pts[i] && was[..p] == was;
    var c :| 0 <= c < p && pts[i][c] != was[c];
    RunningMeans(pts, lab, i, to, k, p, c);
    var more := Count(lab, to, |lab|) + 1;
    assert Entry(Means(pts, lab[i := to], k, p), to, c) == Fin(was[c] + (pts[i][c] - was[c]) / more as real);
    NonZeroQuotient(pts[i][c] - was[c], more as real);
  }

  lemma NonZeroQuotient(a: real, b: real)
    requires a != 0.0 && b > 0.0
    ensures a / b != 0.0
  {
    assert a / b * b == a;
  }

  // ---------- passes over the points ----------

  /** The labels once the first m points of a pass have been reconsidered, one after the other. */
  ghost function Sweep(pts: seq<Vec>, lab: seq<int>, k: nat, p: nat, m: nat): (r: seq<int>)
    requires Points(pts, p) && |lab| == |pts| && Labels(lab, k) && m <= |lab| && k > 0
    ensures |r| == |lab| && Labels(r, k)
  {
    if m == 0 then lab else Reassign(pts, Sweep(pts, lab, k, p, m - 1), m - 1, k, p)
  }

  /** A pass either changes no label, and then every point it considered is at its nearest mean, or it lowers the
      labelling. */
  lemma {:induction false} SweepLowers(pts: seq<Vec>, lab: seq<int>, k: nat, p: nat, m: nat)
    requires Points(pts, p) && |lab| == |pts| && Labels(lab, k) && m <= |lab| && k > 0
    ensures var r := Sweep(pts, lab, k, p, m);
            if r == lab then
              forall i :: 0 <= i < m ==> IsNearest(pts[i], Means(pts, lab, k, p), lab[i])
            else
              Lower(pts, r, lab, k, p)
  {
    hide Mean, Nearest, IsNearest, Objective, LabelSum;
    if m > 0 {
      SweepLowers(pts, lab, k, p, m - 1);
      var before := Sweep(pts, lab, k, p, m - 1);
      var after := Sweep(pts, lab, k, p, m);
      if after != before {
        ReassignLowers(pts, before, m - 1, k, p);
      } else if after == lab {
        NearestIsNoFarther(pts, lab, k, p, m - 1);
        assert after[m - 1] == Nearest(pts[m - 1], Means(pts, lab, k, p));
      }
    }
  }

  /** Labelling r comes of one pass over labelling lab: every point in its turn has got the nearest of the means of what
      the labels were then, the new ones of the points before it and the old ones of the others. */
  ghost predicate InTurn(pts: seq<Vec>, lab: seq<int>, r: seq<int>, k: nat, p: nat)
    requires Points(pts, p) && |lab| == |pts| && k > 0
  {
    && |r| == |lab| && Labels(r, k)
    && forall i :: 0 <= i < |r| ==> r[i] == Nearest(pts[i], Means(pts, r[..i] + lab[i..], k, p))
  }

  /** After m points, a sweep has the new labels of the points before m and the old ones of the others. */
  lemma {:induction false} SweepSoFar(pts: seq<Vec>, lab: seq<int>, k: nat, p: nat, m: nat, n: nat)
    requires Points(pts, p) && |lab| == |pts| && Labels(lab, k) && m <= n <= |lab| && k > 0
    ensures Sweep(pts, lab, k, p, m) == Sweep(pts, lab, k, p, n)[..m] + lab[m..]
  {
    hide Nearest, Means;
    if n > m {
      SweepSoFar(pts, lab, k, p, m, n - 1);
      assert Sweep(pts, lab, k, p, n)[..m] == Sweep(pts, lab, k, p, n - 1)[..m];
    } else if m > 0 {
      SweepSoFar(pts, lab, k, p, m - 1, m - 1);
      assert Sweep(pts, lab, k, p, m)[m..] == lab[m..];
    }
  }

  /** Two labellings that come of one pass over the same one are equal: they agree on every point in its turn. */
  lemma {:induction false} OnePassOnly(pts: seq<Vec>, lab: seq<int>, r: seq<int>, r': seq<int>, k: nat, p: nat, m: nat)
    requires Points(pts, p) && |lab| == |pts| && k > 0 && m <= |lab|
    requires InTurn(pts, lab, r, k, p) && InTurn(pts, lab, r', k, p)
    ensures r[..m] == r'[..m]
  {
    hide Nearest, Means;
    if m > 0 {
      OnePassOnly(pts, lab, r, r', k, p, m - 1);
      assert r[..m] == r[..m - 1] + [r[m - 1]] && r'[..m] == r'[..m - 1] + [r'[m - 1]];
    }
  }

  /** The sweep over all points is the one labelling that comes of reconsidering them in turn, first to last. */
  lemma SweepIff(pts: seq<Vec>, lab: seq<int>, k: nat, p: nat, r: seq<int>)
    requires Points(pts, p) && |lab| == |pts| && Labels(lab, k) && k > 0
    ensures r == Sweep(pts, lab, k, p, |pts|) <==> InTurn(pts, lab, r, k, p)
  {
    hide Sweep, Nearest, Means;
    var all := Sweep(pts, lab, k, p, |pts|);
    forall i | 0 <= i < |all|
      ensures all[i] == Nearest(pts[i], Means(pts, all[..i] + lab[i..], k, p))
    {
      SweepSoFar(pts, lab, k, p, i, |pts|);
      SweepSoFar(pts, lab, k, p, i + 1, |pts|);
      SweepStep(pts, lab, k, p, i);
      assert all[i] == (all[..i + 1] + lab[i + 1..])[i];
    }
    if InTurn(pts, lab, r, k, p) {
      OnePassOnly(pts, lab, r, all, k, p, |pts|);
      assert r[..|pts|] == r && all[..|pts|] == all;
    }
  }

  lemma SweepStep(pts: seq<Vec>, lab: seq<int>, k: nat, p: nat, m: nat)
    requires Points(pts, p) && |lab| == |pts| && Labels(lab, k) && m < |lab| && k > 0
    ensures Sweep(pts, lab, k, p, m + 1)[m] == Nearest(pts[m], Means(pts, Sweep(pts, lab, k, p, m), k, p))
  {
    hide Nearest, Means;
  }

  /** The labels after m full passes. */
  ghost function Passes(pts: seq<Vec>, lab: seq<int>, k: nat, p: nat, m: nat): (r: seq<int>)
    requires Points(pts, p) && |lab| == |pts| && Labels(lab, k) && k > 0
    ensures |r| == |lab| && Labels(r, k)
  {
    if m == 0 then lab else Sweep(pts, Passes(pts, lab, k, p, m - 1), k, p, |pts|)
  }

  /** Each of the passes takes the points in turn. */
  lemma PassesInTurn(pts: seq<Vec>, lab: seq<int>, k: nat, p: nat, m: nat)
    requires Points(pts, p) && |lab| == |pts| && Labels(lab, k) && k > 0
    ensures Passes(pts, lab, k, p, 0) == lab
    ensures InTurn(pts, Passes(pts, lab, k, p, m), Passes(pts, lab, k, p, m + 1), k, p)
  {
    hide Sweep, InTurn;
    SweepIff(pts, Passes(pts, lab, k, p, m), k, p, Passes(pts, lab, k, p, m + 1));
  }

  /** No pass before pass m left the labels as they were. */
  ghost predicate AllChange(pts: seq<Vec>, lab: seq<int>, k: nat, p: nat, m: nat)
    requires Points(pts, p) && |lab| == |pts| && Labels(lab, k) && k > 0
  {
    forall t: nat :: t < m ==> Passes(pts, lab, k, p, t + 1) != Passes(pts, lab, k, p, t)
  }

  lemma StillChanging(pts: seq<Vec>, lab: seq<int>, k: nat, p: nat, m: nat)
    requires Points(pts, p) && |lab| == |pts| && Labels(lab, k) && k > 0
    ensures AllChange(pts, lab, k, p, 0)
    ensures AllChange(pts, lab, k, p, m) && Passes(pts, lab, k, p, m + 1) != Passes(pts, lab, k, p, m)
            ==> AllChange(pts, lab, k, p, m + 1)
  {
    hide Passes;
  }

  lemma {:induction false} PassesStayFixed(pts: seq<Vec>, lab: seq<int>, k: nat, p: nat, t: nat, m: nat)
    requires Points(pts, p) && |lab| == |pts| && Labels(lab, k) && k > 0 && t <= m
    requires Passes(pts, lab, k, p, t + 1) == Passes(pts, lab, k, p, t)
    ensures Passes(pts, lab, k, p, m) == Passes(pts, lab, k, p, t)
  {
    hide Sweep;
    if t < m {
      PassesStayFixed(pts, lab, k, p, t, m - 1);
    }
  }

  /** The first c coordinates of every centre have moved on from was to now. */
  ghost predicate Mixed(cen: seq<Num>, was: seq<Center>, now: seq<Center>, k: nat, p: nat, c: nat) {
    && k > 0 && |cen| == k * p
    && forall t :: 0 <= t < |cen| ==>
         cen[t] == if t / k < c then Entry(now, t % k, t / k) else Entry(was, t % k, t / k)
  }

  /** Moves coordinate c of point i between its old and its new running mean; nc is up to date already. */
  method MoveCoordinate(xc: real, cen: array<Num>, k: nat, p: nat, c: nat, iold: int, inew: int, fewer: int, more: int,
                        ghost was: seq<Center>, ghost now: seq<Center>)
    requires Mixed(cen[..], was, now, k, p, c) && c < p
    requires 0 <= iold < k && 0 <= inew < k && iold != inew && more > 0
    requires Entry(was, iold, c).Fin? && Entry(was, inew, c).Fin?
    requires fewer == 0 ==> Entry(was, iold, c) == Fin(xc)
    requires Entry(now, iold, c) == Add(Entry(was, iold, c), Div(Sub(Entry(was, iold, c), Fin(xc)), fewer))
    requires Entry(now, inew, c) == Add(Entry(was, inew, c), Div(Sub(Fin(xc), Entry(was, inew, c)), more))
    requires forall j :: 0 <= j < k && j != iold && j != inew ==> Entry(now, j, c) == Entry(was, j, c)
    modifies cen
    ensures Mixed(cen[..], was, now, k, p, c + 1)
  {
    hide Entry;
    CellOf(iold, c, k, p);
    CellOf(inew, c, k, p);
    assert cen[iold + k * c] == cen[..][iold + k * c];
    assert cen[inew + k * c] == cen[..][inew + k * c];
    forall t | 0 <= t < k * p
      ensures 0 <= t % k < k
      ensures t / k == c && (t % k == iold || t % k == inew) ==> t == iold + k * c || t == inew + k * c
    {
      CellSplit(t, k, p);
    }
    cen[iold + k * c] := Add(cen[iold + k * c], Div(Sub(cen[iold + k * c], Fin(xc)), fewer));
    cen[inew + k * c] := Add(cen[inew + k * c], Div(Sub(Fin(xc), cen[inew + k * c]), more));
  }

  /** Moves point i between its old and its new running mean. */
  method MovePoint(x: seq<real>, n: nat, p: nat, cen: array<Num>, k: nat, nc: array<int>, i: nat, iold: int, inew: int,
                   ghost lab: seq<int>)
    requires |x| == n * p && i < n == |lab| && Labels(lab, k) && nc.Length == k
    requires iold == lab[i] && 0 <= inew < k && inew != iold
    requires var pts := Rows(x, n, p);
             && p > 0 && Holds(cen[..], Means(pts, lab, k, p), k, p) && Mean(pts, lab, inew, p).Live?
             && forall j :: 0 <= j < k ==> nc[j] == Count(lab, j, n)
    modifies cen, nc
    ensures Holds(cen[..], Means(Rows(x, n, p), lab[i := inew], k, p), k, p)
    ensures forall j :: 0 <= j < k ==> nc[j] == Count(lab[i := inew], j, n)
  {
    hide Mean, Count, Means, Entry, Add, Sub, Div, Rows, Mixed, Holds;
    ghost var pts := Rows(x, n, p);
    ghost var was, now := Means(pts, lab, k, p), Means(pts, lab[i := inew], k, p);
    MoveCount(nc, i, iold, inew, lab);
    assert cen[..] == old(cen[..]);
    NoneMoved(cen[..], was, now, k, p);
    for c := 0 to p
      modifies cen
      invariant Mixed(cen[..], was, now, k, p, c)
    {
      PointCoordinate(x, n, p, i, c);
      RunningMeans(pts, lab, i, inew, k, p, c);
      MoveCoordinate(x[i + n * c], cen, k, p, c, iold, inew, nc[iold], nc[inew], was, now);
    }
    MeansShape(pts, lab[i := inew], k, p);
    AllMoved(cen[..], was, now, k, p);
  }

  lemma PointCoordinate(x: seq<real>, n: nat, p: nat, i: nat, c: nat)
    requires |x| == n * p && i < n && c < p
    ensures 0 <= i + n * c < |x| && Rows(x, n, p)[i][c] == x[i + n * c]
  {
    Indices.InMatrix(i, c, n, p);
  }

  lemma NoneMoved(cen: seq<Num>, was: seq<Center>, now: seq<Center>, k: nat, p: nat)
    requires Holds(cen, was, k, p)
    ensures Mixed(cen, was, now, k, p, 0)
  {
    forall t | 0 <= t < k * p
      ensures t / k >= 0
    {
      CellSplit(t, k, p);
    }
  }

  lemma AllMoved(cen: seq<Num>, was: seq<Center>, now: seq<Center>, k: nat, p: nat)
    requires Mixed(cen, was, now, k, p, p) && |now| == k && Centers(now, p)
    ensures Holds(cen, now, k, p)
  {
    forall t | 0 <= t < k * p
      ensures t / k < p
    {
      CellSplit(t, k, p);
    }
  }

  method MoveCount(nc: array<int>, i: nat, iold: int, inew: int, ghost lab: seq<int>)
    requires i < |lab| && Labels(lab, nc.Length) && iold == lab[i] && 0 <= inew < nc.Length && inew != iold
    requires forall j :: 0 <= j < nc.Length ==> nc[j] == Count(lab, j, |lab|)
    modifies nc
    ensures forall j :: 0 <= j < nc.Length ==> nc[j] == Count(lab[i := inew], j, |lab|)
  {
    nc[iold] := nc[iold] - 1;
    nc[inew] := nc[inew] + 1;
    forall j | 0 <= j < nc.Length
      ensures nc[j] == Count(lab[i := inew], j, |lab|)
    {
      CountAfterMove(lab, i, inew, j, |lab|);
    }
  }

  lemma MeansShape(pts: seq<Vec>, lab: seq<int>, k: nat, p: nat)
    requires Points(pts, p) && |lab| == |pts|
    ensures |Means(pts, lab, k, p)| == k && Centers(Means(pts, lab, k, p), p)
  {
  }

  /** One pass: every point is reconsidered against the running means. */
  method Pass(x: seq<real>, n: nat, p: nat, cen: array<Num>, k: nat, cl: array<int>, nc: array<int>, before: int)
    returns (updated: bool, left: int)
    requires |x| == n * p && p > 0 && k > 0 && cl.Length == n && nc.Length == k && nc != cl
    requires Labels(Minus1(cl[..]), k) && Holds(cen[..], Means(Rows(x, n, p), Minus1(cl[..]), k, p), k, p)
    requires forall j :: 0 <= j < k ==> nc[j] == Count(Minus1(cl[..]), j, n)
    modifies cen, cl, nc
    ensures Minus1(cl[..]) == Sweep(Rows(x, n, p), old(Minus1(cl[..])), k, p, n)
    ensures InTurn(Rows(x, n, p), old(Minus1(cl[..])), Minus1(cl[..]), k, p)
    ensures Holds(cen[..], Means(Rows(x, n, p), Minus1(cl[..]), k, p), k, p)
    ensures forall j :: 0 <= j < k ==> nc[j] == Count(Minus1(cl[..]), j, n)
    ensures updated <==> Minus1(cl[..]) != old(Minus1(cl[..]))
  {
    hide Mean, Count, Means, Entry, Holds, Nearest, Reassign, Lower, InTurn;
    ghost var pts, lab0 := Rows(x, n, p), Minus1(cl[..]);
    var inew := before;
    updated := false;
    for i := 0 to n
      invariant Minus1(cl[..]) == Sweep(pts, lab0, k, p, i)
      invariant Holds(cen[..], Means(pts, Minus1(cl[..]), k, p), k, p)
      invariant forall j :: 0 <= j < k ==> nc[j] == Count(Minus1(cl[..]), j, n)
      invariant updated ==> Lower(pts, Minus1(cl[..]), lab0, k, p)
      invariant !updated ==> Minus1(cl[..]) == lab0
    {
      ghost var lab := Minus1(cl[..]);
      UsedCentersAreLive(pts, lab, k, p);
      inew := FindNearest(x, n, p, cen, k, i, inew, Means(pts, lab, k, p));
      ReassignTo(pts, lab, i, inew, k, p);
      var iold := cl[i] - 1;
      if iold != inew {
        updated := true;
        cl[i] := inew + 1;
        assert Minus1(cl[..]) == lab[i := inew];
        MovePoint(x, n, p, cen, k, nc, i, iold, inew, lab);
        assert lab[i := inew][i] != lab[i];
        ReassignLowers(pts, lab, i, k, p);
        LowerIsTransitive(pts, lab[i := inew], lab, lab0, k, p);
      } else {
        assert lab[i := inew] == lab;
      }
    }
    left := inew;
    SweepIff(pts, lab0, k, p, Minus1(cl[..]));
    LowerIsDifferent(pts, Minus1(cl[..]), lab0, k, p);
  }

  lemma ReassignTo(pts: seq<Vec>, lab: seq<int>, i: nat, to: int, k: nat, p: nat)
    requires Points(pts, p) && |lab| == |pts| && Labels(lab, k) && i < |lab| && k > 0
    requires to == Nearest(pts[i], Means(pts, lab, k, p))
    ensures Reassign(pts, lab, i, k, p) == lab[i := to]
    ensures 0 <= to < k && Mean(pts, lab, to, p).Live?
  {
    hide Nearest, Mean;
    NearestIsNoFarther(pts, lab, k, p, i);
  }

  lemma LowerIsTransitive(pts: seq<Vec>, c: seq<int>, b: seq<int>, a: seq<int>, k: nat, p: nat)
    requires Points(pts, p) && |a| == |b| == |c| == |pts| && Labels(a, k) && Labels(b, k) && Labels(c, k)
    requires Lower(pts, c, b, k, p)
    ensures Lower(pts, b, a, k, p) || b == a ==> Lower(pts, c, a, k, p)
  {
    hide Objective, LabelSum;
  }

  lemma LowerIsDifferent(pts: seq<Vec>, b: seq<int>, a: seq<int>, k: nat, p: nat)
    requires Points(pts, p) && |a| == |b| == |pts| && Labels(a, k) && Labels(b, k)
    ensures Lower(pts, b, a, k, p) ==> b != a
  {
    hide Objective, LabelSum;
  }

  /** MacQueen's k-means.  c0 is what the caller left in cen.  The labels are those of maxiter passes, although the
      loop leaves after the first pass that changes nothing, which it must reach by itself within k^n passes; the
      centres are exactly the means of the labels at all times, and on an early exit each label is nearest.  The number
      of iterations is that of the first pass that changes nothing, or maxiter + 1. */
  method KmeansMacQueen(x: seq<real>, n: nat, p: nat, cen: array<Num>, k: nat, cl: array<int>, maxiter: nat,
                        nc: array<int>, wss: array<Num>, ghost c0: seq<Center>)
    returns (iterations: nat)
    requires |x| == n * p && p > 0 && cl.Length == n && nc.Length == k && wss.Length == k
    requires nc != cl && wss != cen
    requires Holds(cen[..], c0, k, p) && (n > 0 ==> HasLive(c0))
    modifies cen, cl, nc, wss
    ensures var pts, lab := Rows(x, n, p), Minus1(cl[..]);
            && lab == Passes(pts, Assign(pts, c0, p), k, p, maxiter)
            && Holds(cen[..], Means(pts, lab, k, p), k, p)
            && (forall j :: 0 <= j < k ==> nc[j] == Count(lab, j, n))
            && Usable(lab, Means(pts, lab, k, p))
            && (forall j :: 0 <= j < k ==> wss[j] == Fin(ClusterCost(pts, lab, Means(pts, lab, k, p), j, p, n)))
            && 1 <= iterations <= maxiter + 1
            && AllChange(pts, Assign(pts, c0, p), k, p, iterations - 1)
            && (iterations <= maxiter ==>
                  Passes(pts, Assign(pts, c0, p), k, p, iterations)
                  == Passes(pts, Assign(pts, c0, p), k, p, iterations - 1))
            && (iterations <= maxiter ==>
                  forall i :: 0 <= i < n ==> IsNearest(pts[i], Means(pts, lab, k, p), lab[i]))
    ensures maxiter >= Power(k, n) ==> iterations <= maxiter
  {
    hide Assign, Sweep, Passes, Means, Mean, Count, Minus1, ClusterCost, Power, Entry, IsNearest, Lower, InTurn,
         AllChange;
    ghost var pts := Rows(x, n, p);
    var _ := AssignLabels(x, n, p, cen, k, cl, c0);
    ghost var lab0 := Minus1(cl[..]);
    UpdateCenters(x, n, p, cen, k, cl, nc);
    var iter := 0;
    var stop := false;
    var inew := 0;
    ghost var seen: set<seq<int>> := {};
    StartOfPasses(pts, lab0, k, p);
    StillChanging(pts, lab0, k, p, 0);
    while iter < maxiter && !stop
      invariant 0 <= iter <= maxiter && (stop ==> iter < maxiter)
      invariant Labels(Minus1(cl[..]), k) && Minus1(cl[..]) == Passes(pts, lab0, k, p, iter)
      invariant Holds(cen[..], Means(pts, Minus1(cl[..]), k, p), k, p)
      invariant forall j :: 0 <= j < k ==> nc[j] == Count(Minus1(cl[..]), j, n)
      invariant |seen| == iter && Behind(pts, seen, Minus1(cl[..]), k, p)
      invariant stop ==> Passes(pts, lab0, k, p, iter + 1) == Passes(pts, lab0, k, p, iter)
      invariant AllChange(pts, lab0, k, p, iter)
      invariant stop ==> forall i :: 0 <= i < n ==>
                           IsNearest(pts[i], Means(pts, Minus1(cl[..]), k, p), Minus1(cl[..])[i])
      decreases maxiter - iter, !stop
    {
      ghost var lab := Minus1(cl[..]);
      var updated;
      updated, inew := Pass(x, n, p, cen, k, cl, nc, inew);
      NextPass(pts, lab0, k, p, iter);
      SweepLowers(pts, lab, k, p, n);
      if !updated {
        stop := true;
      } else {
        BehindIsBounded(pts, seen, lab, k, p);
        FallingKeepsBehind(pts, seen, lab, Minus1(cl[..]), k, p);
        seen := seen + {lab};
        StillChanging(pts, lab0, k, p, iter);
        iter := iter + 1;
      }
    }
    iterations := iter + 1;
    ghost var lab := Minus1(cl[..]);
    UsedCentersAreLive(pts, lab, k, p);
    SumsOfSquares(x, n, p, cen, k, cl, wss, Means(pts, lab, k, p));
    BehindIsBounded(pts, seen, lab, k, p);
    if stop {
      PassesStayFixed(pts, lab0, k, p, iter, maxiter);
    }
  }

  lemma StartOfPasses(pts: seq<Vec>, lab: seq<int>, k: nat, p: nat)
    requires Points(pts, p) && |lab| == |pts| && Labels(lab, k) && k > 0
    ensures Passes(pts, lab, k, p, 0) == lab
    ensures Behind(pts, {}, lab, k, p)
  {
  }

  lemma NextPass(pts: seq<Vec>, lab: seq<int>, k: nat, p: nat, m: nat)
    requires Points(pts, p) && |lab| == |pts| && Labels(lab, k) && k > 0
    ensures Passes(pts, lab, k, p, m + 1) == Sweep(pts, Passes(pts, lab, k, p, m), k, p, |pts|)
  {
    hide Sweep;
  }
}
