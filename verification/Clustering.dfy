/** What one Lloyd iteration means, independently of how any of the programs stores or computes it:
    points and centres are vectors of exact reals, and a centre whose cluster is empty is dead. */
module Clustering {
  import opened Sums

  type Vec = seq<real>

  /** The mean of an empty cluster is 0/0, that is NaN in every coordinate.  Its distance to a point is NaN and
      NaN is never smaller than anything, so a dead centre is never chosen. */
  datatype Center = Dead | Live(at: Vec)

  ghost predicate Points(pts: seq<Vec>, p: nat) {
    forall i :: 0 <= i < |pts| ==> |pts[i]| == p
  }

  ghost predicate Centers(cs: seq<Center>, p: nat) {
    forall j :: 0 <= j < |cs| && cs[j].Live? ==> |cs[j].at| == p
  }

  ghost predicate LiveBelow(cs: seq<Center>, m: nat)
    requires m <= |cs|
  {
    m > 0 && (cs[m - 1].Live? || LiveBelow(cs, m - 1))
  }

  ghost predicate HasLive(cs: seq<Center>) {
    LiveBelow(cs, |cs|)
  }

  lemma {:induction false} LiveIsBelow(cs: seq<Center>, j: nat, m: nat)
    requires j < m <= |cs| && cs[j].Live?
    ensures LiveBelow(cs, m)
  {
    if j < m - 1 {
      LiveIsBelow(cs, j, m - 1);
    }
  }

  function Square(r: real): real {
    Times(r, r)
  }

  /** Squared Euclidean distance over the first m coordinates. */
  function SqDist(a: Vec, b: Vec, m: nat): real
    requires m <= |a| && m <= |b|
  {
    if m == 0 then 0.0 else SqDist(a, b, m - 1) + Square(a[m - 1] - b[m - 1])
  }

  ghost function Dist(x: Vec, c: Center): real
    requires c.Live? && |c.at| == |x|
  {
    SqDist(x, c.at, |x|)
  }

  /** Index j is where a search for the nearest centre must stop: live, nearest, and the first of its equals. */
  ghost predicate IsNearest(x: Vec, cs: seq<Center>, j: int)
    requires Centers(cs, |x|)
  {
    && 0 <= j < |cs|
    && cs[j].Live?
    && (forall i :: 0 <= i < |cs| && cs[i].Live? ==> Dist(x, cs[j]) <= Dist(x, cs[i]))
    && (forall i :: 0 <= i < j && cs[i].Live? ==> Dist(x, cs[j]) < Dist(x, cs[i]))
  }

  lemma NearestIsUnique(x: Vec, cs: seq<Center>, i: int, j: int)
    requires Centers(cs, |x|)
    requires IsNearest(x, cs, i) && IsNearest(x, cs, j)
    ensures i == j
  {
  }

  /** The best of the first m centres; -1 when all of them are dead. */
  ghost function Best(x: Vec, cs: seq<Center>, m: nat): (b: int)
    requires Centers(cs, |x|) && m <= |cs|
    ensures -1 <= b < m
    ensures b >= 0 ==> cs[b].Live?
  {
    if m == 0 then -1
    else
      var b := Best(x, cs, m - 1);
      if cs[m - 1].Live? && (b < 0 || Dist(x, cs[m - 1]) < Dist(x, cs[b])) then m - 1 else b
  }

  lemma {:induction false} BestIsNearest(x: Vec, cs: seq<Center>, m: nat)
    requires Centers(cs, |x|) && m <= |cs|
    ensures var b := Best(x, cs, m);
            if b < 0 then !LiveBelow(cs, m) && forall i :: 0 <= i < m ==> cs[i].Dead?
            else
              && (forall i :: 0 <= i < m && cs[i].Live? ==> Dist(x, cs[b]) <= Dist(x, cs[i]))
              && (forall i :: 0 <= i < b && cs[i].Live? ==> Dist(x, cs[b]) < Dist(x, cs[i]))
  {
    if m > 0 {
      BestIsNearest(x, cs, m - 1);
    }
  }

  /** The label of a point.  When every centre is dead the search keeps its initial answer, label 0. */
  ghost function Nearest(x: Vec, cs: seq<Center>): (j: nat)
    requires Centers(cs, |x|)
    ensures j < |cs| || j == 0
  {
    var b := Best(x, cs, |cs|);
    if b < 0 then 0 else b
  }

  lemma NearestIsNearest(x: Vec, cs: seq<Center>)
    requires Centers(cs, |x|) && HasLive(cs)
    ensures IsNearest(x, cs, Nearest(x, cs))
  {
    BestIsNearest(x, cs, |cs|);
  }

  // ---------- labels, masses and means ----------

  ghost predicate Labels(lab: seq<int>, k: nat) {
    forall i :: 0 <= i < |lab| ==> 0 <= lab[i] < k
  }

  ghost function Assign(pts: seq<Vec>, cs: seq<Center>, p: nat): (lab: seq<int>)
    requires Points(pts, p) && Centers(cs, p)
    ensures |lab| == |pts|
    ensures |cs| > 0 ==> Labels(lab, |cs|)
  {
    seq(|pts|, i requires 0 <= i < |pts| => Nearest(pts[i], cs))
  }

  /** How many of the first m points carry label j. */
  function Count(lab: seq<int>, j: int, m: nat): nat
    requires m <= |lab|
  {
    if m == 0 then 0 else Count(lab, j, m - 1) + (if lab[m - 1] == j then 1 else 0)
  }

  /** Coordinate c of the sum of those of the first m points that carry label j. */
  function Total(pts: seq<Vec>, lab: seq<int>, j: int, c: nat, m: nat): real
    requires m <= |lab| == |pts|
    requires forall i :: 0 <= i < |pts| ==> c < |pts[i]|
  {
    if m == 0 then 0.0 else Total(pts, lab, j, c, m - 1) + (if lab[m - 1] == j then pts[m - 1][c] else 0.0)
  }

  lemma {:induction false} CountIsPositive(lab: seq<int>, i: int, m: nat)
    requires 0 <= i < m <= |lab|
    ensures Count(lab, lab[i], m) > 0
  {
    if i < m - 1 {
      CountIsPositive(lab, i, m - 1);
    }
  }

  lemma {:induction false} EmptyClusterHasNoTotal(pts: seq<Vec>, lab: seq<int>, j: int, c: nat, m: nat)
    requires m <= |lab| == |pts|
    requires forall i :: 0 <= i < |pts| ==> c < |pts[i]|
    requires Count(lab, j, m) == 0
    ensures Total(pts, lab, j, c, m) == 0.0
  {
    if m > 0 {
      EmptyClusterHasNoTotal(pts, lab, j, c, m - 1);
    }
  }

  ghost function Mean(pts: seq<Vec>, lab: seq<int>, j: int, p: nat): (c: Center)
    requires Points(pts, p) && |lab| == |pts|
    ensures c.Live? <==> Count(lab, j, |lab|) > 0
    ensures c.Live? ==> |c.at| == p
  {
    var n := Count(lab, j, |lab|);
    if n == 0 then Dead
    else Live(seq(p, c requires 0 <= c < p => Total(pts, lab, j, c, |lab|) / n as real))
  }

  ghost function Means(pts: seq<Vec>, lab: seq<int>, k: nat, p: nat): (cs: seq<Center>)
    requires Points(pts, p) && |lab| == |pts|
    ensures |cs| == k && Centers(cs, p)
    ensures forall j :: 0 <= j < k ==> cs[j] == Mean(pts, lab, j, p)
  {
    seq(k, j requires 0 <= j < k => Mean(pts, lab, j, p))
  }

  lemma UsedCentersAreLive(pts: seq<Vec>, lab: seq<int>, k: nat, p: nat)
    requires Points(pts, p) && |lab| == |pts| && Labels(lab, k)
    ensures var cs := Means(pts, lab, k, p);
            forall i :: 0 <= i < |lab| ==> cs[lab[i]].Live?
    ensures |pts| > 0 ==> HasLive(Means(pts, lab, k, p))
  {
    var cs := Means(pts, lab, k, p);
    forall i | 0 <= i < |lab|
      ensures cs[lab[i]].Live?
    {
      CountIsPositive(lab, i, |lab|);
    }
    if |pts| > 0 {
      LiveIsBelow(cs, lab[0], k);
    }
  }

  // ---------- iterations ----------

  /** The labelling that follows lab: means of lab, then the nearest of them. */
  ghost function Next(pts: seq<Vec>, lab: seq<int>, k: nat, p: nat): (r: seq<int>)
    requires Points(pts, p) && |lab| == |pts| && k > 0
    ensures |r| == |pts| && Labels(r, k)
  {
    Assign(pts, Means(pts, lab, k, p), p)
  }

  /** The labels of iteration m >= 1 of a run from centres c0 that never stops early.  The centres and masses after
      that iteration are the means and counts of these labels. */
  ghost function Iterate(pts: seq<Vec>, c0: seq<Center>, p: nat, m: nat): (lab: seq<int>)
    requires Points(pts, p) && Centers(c0, p) && |c0| > 0 && m >= 1
    ensures |lab| == |pts| && Labels(lab, |c0|)
  {
    if m == 1 then Assign(pts, c0, p) else Next(pts, Iterate(pts, c0, p, m - 1), |c0|, p)
  }

  lemma IterateOnce(pts: seq<Vec>, c0: seq<Center>, p: nat)
    requires Points(pts, p) && Centers(c0, p) && |c0| > 0
    ensures Iterate(pts, c0, p, 1) == Assign(pts, c0, p)
  {
  }

  lemma IterateNext(pts: seq<Vec>, c0: seq<Center>, p: nat, m: nat)
    requires Points(pts, p) && Centers(c0, p) && |c0| > 0 && m >= 1
    ensures Iterate(pts, c0, p, m + 1) == Next(pts, Iterate(pts, c0, p, m), |c0|, p)
  {
    hide Next;
  }

  lemma IterateStep(pts: seq<Vec>, c0: seq<Center>, p: nat, m: nat)
    requires Points(pts, p) && Centers(c0, p) && |c0| > 0 && m >= 1
    ensures Iterate(pts, c0, p, m + 1) == Assign(pts, Means(pts, Iterate(pts, c0, p, m), |c0|, p), p)
  {
    hide Assign, Means;
  }

  /** Once a labelling repeats, every later iteration repeats it: leaving the loop there loses nothing. */
  lemma {:induction false} FixedForever(pts: seq<Vec>, c0: seq<Center>, p: nat, t: nat, m: nat)
    requires Points(pts, p) && Centers(c0, p) && |c0| > 0 && 1 <= t <= m
    requires Iterate(pts, c0, p, t + 1) == Iterate(pts, c0, p, t)
    ensures Iterate(pts, c0, p, m) == Iterate(pts, c0, p, t)
  {
    hide Next;
    if t < m {
      FixedForever(pts, c0, p, t, m - 1);
    }
  }
}
