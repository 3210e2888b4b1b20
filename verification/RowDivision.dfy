/** The row division that ends every iteration on a device, and what a run of iterations leaves behind. */
module RowDivision {
  import opened Clustering
  import opened Numbers
  import opened ColumnMajor

  /** Cell t of the matrix of feature sums: feature t / k of cluster t % k. */
  ghost function SumInCell(pts: seq<Vec>, lab: seq<int>, k: nat, p: nat, t: nat): real
    requires Points(pts, p) && |lab| == |pts| && k > 0
  {
    if t / k < p then Total(pts, lab, t % k, t / k, |lab|) else 0.0
  }

  lemma MeanAt(pts: seq<Vec>, lab: seq<int>, p: nat, j: nat, c: nat)
    requires Points(pts, p) && |lab| == |pts| && c < p
    ensures var count, mean := Count(lab, j, |lab|), Mean(pts, lab, j, p);
            if count == 0 then mean.Dead?
            else mean.Live? && |mean.at| == p && mean.at[c] == Total(pts, lab, j, c, |lab|) / count as real
  {
    hide Total, Count;
  }

  /** A mean is, cell by cell, a feature sum by the mass of the cluster. */
  lemma MeansByCell(pts: seq<Vec>, lab: seq<int>, k: nat, p: nat, t: nat)
    requires Points(pts, p) && |lab| == |pts| && t < k * p
    ensures 0 <= t % k < k
    ensures var count := Count(lab, t % k, |lab|) as real;
            Entry(Means(pts, lab, k, p), t % k, t / k)
            == if count == 0.0 then NaN else Fin(SumInCell(pts, lab, k, p, t) / count)
  {
    hide Total, Count, Mean;
    CellSplit(t, k, p);
    MeanAt(pts, lab, p, t % k, t / k);
  }

  /** Row division: every sum by the mass of its cluster, 0/0 for an empty one. */
  method DivideRows(centroids: array<Num>, masses: seq<real>, k: nat, p: nat, ghost pts: seq<Vec>, ghost lab: seq<int>)
    requires k > 0 && Points(pts, p) && |lab| == |pts| && centroids.Length == k * p && |masses| == k
    requires forall c :: 0 <= c < k ==> masses[c] == Count(lab, c, |lab|) as real
    requires forall t: nat :: t < k * p ==> centroids[t] == Fin(SumInCell(pts, lab, k, p, t))
    modifies centroids
    ensures Holds(centroids[..], Means(pts, lab, k, p), k, p)
  {
    hide SumInCell, Count, Means, Entry;
    ghost var means := Means(pts, lab, k, p);
    for t := 0 to k * p
      invariant forall u :: 0 <= u < t ==> centroids[u] == Entry(means, u % k, u / k)
      invariant forall u :: t <= u < k * p ==> centroids[u] == Fin(SumInCell(pts, lab, k, p, u))
    {
      MeansByCell(pts, lab, k, p, t);
      var mass := masses[t % k];
      centroids[t] := if mass == 0.0 || !centroids[t].Fin? then NaN else Fin(centroids[t].v / mass);
    }
  }

  /** What as many iterations of Lloyd's algorithm from these centres leave behind. */
  ghost predicate Outcome(points: seq<real>, n: nat, p: nat, k: nat, start: seq<Center>, iterations: nat,
                          labels: seq<int>, masses: seq<real>, centroids: seq<Num>)
    requires Centers(start, p) && |start| == k > 0 && iterations > 0
  {
    && labels == Iterate(Rows(points, n, p), start, p, iterations)
    && |masses| == k && (forall c :: 0 <= c < k ==> masses[c] == Count(labels, c, n) as real)
    && Holds(centroids, Means(Rows(points, n, p), labels, k, p), k, p)
  }

  lemma OutcomeIsUnique(points: seq<real>, n: nat, p: nat, k: nat, start: seq<Center>, iterations: nat,
                        labels: seq<int>, masses: seq<real>, centroids: seq<Num>,
                        labels': seq<int>, masses': seq<real>, centroids': seq<Num>)
    requires Centers(start, p) && |start| == k > 0 && iterations > 0
    requires Outcome(points, n, p, k, start, iterations, labels, masses, centroids)
    requires Outcome(points, n, p, k, start, iterations, labels', masses', centroids')
    ensures labels == labels' && masses == masses' && centroids == centroids'
  {
    hide Iterate, Means, Entry;
    assert forall c :: 0 <= c < k ==> masses[c] == masses'[c];
    assert forall t :: 0 <= t < |centroids| ==> centroids[t] == centroids'[t];
  }
}
