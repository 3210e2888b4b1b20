/** The reference implementation of Lloyd's algorithm: a fixed number of iterations, Kahan-compensated sums. */
module KmeansNaive {
  import opened Sums
  import opened Clustering
  import opened Descent
  import opened Numbers
  import opened ColumnMajor
  import R = RStatsKmeans
  import Indices

  /** Phase 1: every point takes the label of its nearest centroid, label 0 if there is none. */
  method AssignPoints(points: seq<real>, n: nat, p: nat, centroids: array<Num>, k: nat, labels: array<int>,
                      ghost cs: seq<Center>)
    returns (did_changes: bool)
    requires |points| == n * p && p > 0 && Holds(centroids[..], cs, k, p) && labels.Length == n
    modifies labels
    ensures labels[..] == Assign(Rows(points, n, p), cs, p)
    ensures did_changes <==> labels[..] != old(labels[..])
  {
    hide SqDist, Dist, Entry;
    ghost var pts, was := Rows(points, n, p), labels[..];
    did_changes := false;
    assert centroids[..] == old(centroids[..]);
    for q := 0 to n
      invariant forall t :: 0 <= t < q ==> labels[t] == Nearest(pts[t], cs)
      invariant forall t :: q <= t < n ==> labels[t] == was[t]
      invariant did_changes <==> exists t :: 0 <= t < q && labels[t] != was[t]
    {
      var min_centroid := NearestCentroid(points, n, p, centroids, k, q, cs);
      if min_centroid != labels[q] {
        labels[q] := min_centroid;
        did_changes := true;
      }
    }
    assert !did_changes ==> labels[..] == was;
  }

  method NearestCentroid(points: seq<real>, n: nat, p: nat, centroids: array<Num>, k: nat, q: nat,
                         ghost cs: seq<Center>)
    returns (min_centroid: int)
    requires |points| == n * p && p > 0 && Holds(centroids[..], cs, k, p) && q < n
    ensures min_centroid == Nearest(Rows(points, n, p)[q], cs)
  {
    hide SqDist, Dist, Entry;
    ghost var pt := Rows(points, n, p)[q];
    var min_distance := Huge;
    min_centroid := 0;
    for c := 0 to k
      invariant var b := Best(pt, cs, c);
                if b < 0 then min_distance == Huge && min_centroid == 0
                else min_distance == Fin(Dist(pt, cs[b])) && min_centroid == b
    {
      var distance := R.SquaredDistance(points, n, p, centroids, k, q, c, cs);
      if Less(distance, min_distance) {
        min_distance := distance;
        min_centroid := c;
      }
    }
  }

  /** Phase 2, first half: masses and compensated sums of the clusters. */
  method SumPoints(points: seq<real>, n: nat, p: nat, centroids: array<Num>, k: nat, cluster_mass: array<int>,
                   labels: array<int>)
    requires |points| == n * p && p > 0 && k > 0 && centroids.Length == k * p
    requires cluster_mass.Length == k && labels.Length == n && labels != cluster_mass && Labels(labels[..], k)
    modifies centroids, cluster_mass
    ensures forall t :: 0 <= t < k * p ==>
              0 <= t / k < p && centroids[t] == Fin(Total(Rows(points, n, p), labels[..], t % k, t / k, n))
    ensures forall c :: 0 <= c < k ==> cluster_mass[c] == Count(labels[..], c, n)
  {
    ghost var pts, lab := Rows(points, n, p), labels[..];
    var compensation := new Num[k * p](i => Fin(0.0));
    Fill(cluster_mass, 0);
    Fill(centroids, Fin(0.0));
    forall t | 0 <= t < k * p
      ensures 0 <= t / k < p && Total(pts, lab, t % k, t / k, 0) == 0.0
    {
      CellSplit(t, k, p);
    }
    assert labels[..] == lab;
    for q := 0 to n
      invariant labels[..] == lab
      invariant forall c :: 0 <= c < k ==> cluster_mass[c] == Count(lab, c, q)
      invariant forall t :: 0 <= t < k * p ==>
                  centroids[t] == Fin(Total(pts, lab, t % k, t / k, q)) && compensation[t] == Fin(0.0)
    {
      var c := labels[q];
      assert c == lab[q];
      cluster_mass[c] := cluster_mass[c] + 1;
      AddCompensated(points, n, p, centroids, compensation, k, q, c, lab);
    }
  }

  method Fill<T>(a: array<T>, value: T)
    modifies a
    ensures forall t :: 0 <= t < a.Length ==> a[t] == value
  {
    for i := 0 to a.Length
      invariant forall t :: 0 <= t < i ==> a[t] == value
    {
      a[i] := value;
    }
  }

  /** Adds point q to the sums of its cluster.  In exact arithmetic the compensation stays zero. */
  method AddCompensated(points: seq<real>, n: nat, p: nat, centroids: array<Num>, compensation: array<Num>, k: nat,
                        q: nat, c: int, ghost lab: seq<int>)
    requires |points| == n * p && p > 0 && k > 0 && centroids.Length == compensation.Length == k * p
    requires centroids != compensation && q < n == |lab| && c == lab[q] && 0 <= c < k
    requires forall t :: 0 <= t < k * p ==>
               && 0 <= t / k < p && compensation[t] == Fin(0.0)
               && centroids[t] == Fin(Total(Rows(points, n, p), lab, t % k, t / k, q))
    modifies centroids, compensation
    ensures forall t :: 0 <= t < k * p ==>
              && 0 <= t / k < p && compensation[t] == Fin(0.0)
              && centroids[t] == Fin(Total(Rows(points, n, p), lab, t % k, t / k, q + 1))
  {
    ghost var pts := Rows(points, n, p);
    for d := 0 to p
      invariant forall t :: 0 <= t < k * p ==>
                  && compensation[t] == Fin(0.0)
                  && centroids[t] == if t % k == c && t / k < d then Fin(Total(pts, lab, t % k, t / k, q + 1))
                                     else Fin(Total(pts, lab, t % k, t / k, q))
    {
      Indices.InMatrix(q, d, n, p);
      CellOf(c, d, k, p);
      forall t | 0 <= t < k * p && t % k == c && t / k == d
        ensures t == c + k * d
      {
        CellSplit(t, k, p);
      }
      var point, comp, sum := Fin(points[n * d + q]), compensation[k * d + c], centroids[k * d + c];
      var y := Sub(point, comp);
      var t := Add(sum, y);
      compensation[k * d + c] := Sub(Sub(t, sum), y);
      centroids[k * d + c] := t;
    }
  }

  /** Phase 2, second half: sums become means. */
  method DivideByMass(points: seq<real>, n: nat, p: nat, centroids: array<Num>, k: nat, cluster_mass: array<int>,
                      ghost lab: seq<int>)
    requires |points| == n * p && p > 0 && k > 0 && centroids.Length == k * p && cluster_mass.Length == k && |lab| == n
    requires forall t :: 0 <= t < k * p ==>
               0 <= t / k < p && centroids[t] == Fin(Total(Rows(points, n, p), lab, t % k, t / k, n))
    requires forall c :: 0 <= c < k ==> cluster_mass[c] == Count(lab, c, n)
    modifies centroids
    ensures Holds(centroids[..], Means(Rows(points, n, p), lab, k, p), k, p)
  {
    hide Total, Count;
    ghost var pts, means := Rows(points, n, p), Means(Rows(points, n, p), lab, k, p);
    for f := 0 to p
      invariant forall t :: 0 <= t < k * p ==>
                  centroids[t] == if t / k < f then Entry(means, t % k, t / k)
                                  else Fin(Total(pts, lab, t % k, t / k, n))
    {
      for c := 0 to k
        invariant forall t :: 0 <= t < k * p ==>
                    centroids[t] == if t / k < f || (t / k == f && t % k < c) then Entry(means, t % k, t / k)
                                    else Fin(Total(pts, lab, t % k, t / k, n))
      {
        CellOf(c, f, k, p);
        forall t | 0 <= t < k * p && t % k == c && t / k == f
          ensures t == c + k * f
        {
          CellSplit(t, k, p);
        }
        if cluster_mass[c] == 0 {
          EmptyClusterHasNoTotal(pts, lab, c, f, n);
        }
        centroids[k * f + c] := Div(centroids[k * f + c], cluster_mass[c]);
      }
      forall t | 0 <= t < k * p
        ensures t % k < k
      {
        CellSplit(t, k, p);
      }
    }
  }

  /** The whole run: max_iterations iterations, whether or not a label still changes. */
  method Run(max_iterations: nat, points: seq<real>, n: nat, p: nat, centroids: array<Num>, k: nat,
             cluster_mass: array<int>, labels: array<int>, ghost c0: seq<Center>)
    requires |points| == n * p && p > 0 && cluster_mass.Length == k && labels.Length == n && labels != cluster_mass
    requires Holds(centroids[..], c0, k, p)
    modifies centroids, cluster_mass, labels
    ensures max_iterations == 0 ==>
              centroids[..] == old(centroids[..]) && cluster_mass[..] == old(cluster_mass[..])
              && labels[..] == old(labels[..])
    ensures max_iterations > 0 ==>
              && labels[..] == Iterate(Rows(points, n, p), c0, p, max_iterations)
              && Holds(centroids[..], Means(Rows(points, n, p), labels[..], k, p), k, p)
              && forall c :: 0 <= c < k ==> cluster_mass[c] == Count(labels[..], c, n)
  {
    hide Assign, Next, Iterate, Means, Count, Total, Entry;
    ghost var pts := Rows(points, n, p);
    ghost var cs := c0;
    var iterations := 0;
    IterateOnce(pts, c0, p);
    while iterations < max_iterations
      invariant 0 <= iterations <= max_iterations
      invariant Holds(centroids[..], cs, k, p) && Assign(pts, cs, p) == Iterate(pts, c0, p, iterations + 1)
      invariant iterations == 0 ==>
                  centroids[..] == old(centroids[..]) && cluster_mass[..] == old(cluster_mass[..])
                  && labels[..] == old(labels[..])
      invariant iterations > 0 ==>
                  && labels[..] == Iterate(pts, c0, p, iterations)
                  && cs == Means(pts, labels[..], k, p)
                  && forall c :: 0 <= c < k ==> cluster_mass[c] == Count(labels[..], c, n)
    {
      var did_changes := AssignPoints(points, n, p, centroids, k, labels, cs);
      ghost var lab := labels[..];
      SumPoints(points, n, p, centroids, k, cluster_mass, labels);
      assert labels[..] == lab;
      DivideByMass(points, n, p, centroids, k, cluster_mass, lab);
      cs := Means(pts, lab, k, p);
      iterations := iterations + 1;
      IterateStep(pts, c0, p, iterations);
    }
  }

  // ---------- what every iteration keeps ----------

  /** No iteration raises the within-cluster sum of squares. */
  lemma NeverRaises(pts: seq<Vec>, c0: seq<Center>, p: nat, m: nat)
    requires Points(pts, p) && Centers(c0, p) && |c0| > 0 && m >= 1
    ensures Objective(pts, Iterate(pts, c0, p, m + 1), |c0|, p) <= Objective(pts, Iterate(pts, c0, p, m), |c0|, p)
  {
    hide Objective, LabelSum, Next;
    var lab := Iterate(pts, c0, p, m);
    IterateNext(pts, c0, p, m);
    if Next(pts, lab, |c0|, p) != lab {
      NextLowers(pts, lab, |c0|, p);
    }
  }

  /** The masses add up to the number of points. */
  lemma {:induction false} MassesAddUp(lab: seq<int>, k: nat, m: nat, mass: int -> real)
    requires m <= |lab| && Labels(lab, k)
    requires forall j :: 0 <= j < k ==> mass(j) == Count(lab, j, m) as real
    ensures Sum(k, mass) == m as real
  {
    if m == 0 {
      SumOfZeros(k, mass);
    } else {
      var before := j => if 0 <= j then Count(lab, j, m - 1) as real else 0.0;
      MassesAddUp(lab, k, m - 1, before);
      SumBump(k, before, mass, lab[m - 1], 1.0);
    }
  }

  /** The first m points added up, coordinate c, whatever their labels. */
  ghost function GrandTotal(pts: seq<Vec>, c: nat, m: nat): real
    requires m <= |pts| && forall i :: 0 <= i < |pts| ==> c < |pts[i]|
  {
    if m == 0 then 0.0 else GrandTotal(pts, c, m - 1) + pts[m - 1][c]
  }

  lemma {:induction false} TotalsAddUp(pts: seq<Vec>, lab: seq<int>, k: nat, c: nat, m: nat, total: int -> real)
    requires m <= |lab| == |pts| && Labels(lab, k) && forall i :: 0 <= i < |pts| ==> c < |pts[i]|
    requires forall j :: 0 <= j < k ==> total(j) == Total(pts, lab, j, c, m)
    ensures Sum(k, total) == GrandTotal(pts, c, m)
  {
    if m == 0 {
      SumOfZeros(k, total);
    } else {
      var before := j => Total(pts, lab, j, c, m - 1);
      TotalsAddUp(pts, lab, k, c, m - 1, before);
      SumBump(k, before, total, lab[m - 1], pts[m - 1][c]);
    }
  }

  /** Mass times centroid, summed over the live clusters, is the sum of all points. */
  lemma CentroidsBalance(pts: seq<Vec>, lab: seq<int>, k: nat, p: nat, c: nat, moment: int -> real)
    requires Points(pts, p) && |lab| == |pts| && Labels(lab, k) && c < p
    requires forall j :: 0 <= j < k ==>
               moment(j) == match Mean(pts, lab, j, p) {
                 case Dead => 0.0
                 case Live(at) => Count(lab, j, |lab|) as real * at[c]
               }
    ensures Sum(k, moment) == GrandTotal(pts, c, |pts|)
  {
    hide Count, Total;
    forall j | 0 <= j < k
      ensures moment(j) == Total(pts, lab, j, c, |lab|)
    {
      if Count(lab, j, |lab|) == 0 {
        EmptyClusterHasNoTotal(pts, lab, j, c, |lab|);
      }
    }
    TotalsAddUp(pts, lab, k, c, |pts|, moment);
  }

  lemma {:induction false} UnusedLabelHasNoMass(lab: seq<int>, j: int, m: nat)
    requires m <= |lab| && forall i :: 0 <= i < m ==> lab[i] != j
    ensures Count(lab, j, m) == 0
  {
    if m > 0 {
      UnusedLabelHasNoMass(lab, j, m - 1);
    }
  }

  /** A cluster that becomes empty stays empty. */
  lemma {:induction false} EmptyStaysEmpty(pts: seq<Vec>, c0: seq<Center>, p: nat, j: nat, m: nat, later: nat)
    requires Points(pts, p) && Centers(c0, p) && j < |c0| && 1 <= m <= later
    requires Count(Iterate(pts, c0, p, m), j, |pts|) == 0
    ensures Count(Iterate(pts, c0, p, later), j, |pts|) == 0
  {
    hide Count, Nearest, Total;
    if m < later {
      EmptyStaysEmpty(pts, c0, p, j, m, later - 1);
      var k := |c0|;
      var lab, next := Iterate(pts, c0, p, later - 1), Iterate(pts, c0, p, later);
      IterateStep(pts, c0, p, later - 1);
      forall i | 0 <= i < |pts|
        ensures next[i] != j
      {
        NearestIsNoFarther(pts, lab, k, p, i);
      }
      UnusedLabelHasNoMass(next, j, |pts|);
    }
  }
}
