/** The sequential programs side by side. */
module Baselines {
  import opened Clustering
  import opened Numbers
  import opened ColumnMajor
  import R = RStatsKmeans
  import N = KmeansNaive

  /** A flat matrix holds just one sequence of centres, and a sequence of centres is held by just one matrix. */
  lemma HeldOnce(a: seq<Num>, b: seq<Num>, cs: seq<Center>, k: nat, p: nat)
    requires Holds(a, cs, k, p) && Holds(b, cs, k, p)
    ensures a == b
  {
    hide Entry;
    assert forall t :: 0 <= t < |a| ==> a[t] == b[t];
  }

  /** Leaving early loses nothing: Lloyd's program, which stops at the first iteration without a change, and the
      reference program, which always runs to the end, finish with the same labels (counted from one and from zero),
      masses and centres. */
  method LloydAgreesWithNaive(x: seq<real>, n: nat, p: nat, centers: seq<Num>, k: nat, m: nat, ghost c0: seq<Center>)
    returns (cl: array<int>, nc: array<int>, cen: array<Num>, labels: array<int>, mass: array<int>,
             centroids: array<Num>)
    requires |x| == n * p && p > 0 && n > 0 && m >= 1 && Holds(centers, c0, k, p) && HasLive(c0)
    ensures |cl[..]| == |labels[..]| && forall i :: 0 <= i < |cl[..]| ==> cl[..][i] == labels[..][i] + 1
    ensures nc[..] == mass[..] && cen[..] == centroids[..]
  {
    hide HasLive, Iterate, Means, Count, R.AllNew, R.ClusterCost, Next;
    cl, labels := new int[n](i => 0), new int[n](i => 0);
    nc, mass := new int[k](i => 0), new int[k](i => 0);
    cen := CopyOf(centers);
    centroids := CopyOf(centers);
    var wss := new Num[k](i => NaN);
    var iterations := R.KmeansLloyd(x, n, p, cen, k, cl, m, nc, wss, c0);
    N.Run(m, x, n, p, centroids, k, mass, labels, c0);
    ghost var lab := labels[..];
    assert R.Minus1(cl[..]) == lab;
    HeldOnce(cen[..], centroids[..], Means(Rows(x, n, p), lab, k, p), k, p);
    assert forall j :: 0 <= j < k ==> nc[j] == mass[j];
  }

  method CopyOf(s: seq<Num>) returns (a: array<Num>)
    ensures fresh(a) && a[..] == s
  {
    a := new Num[|s|](i requires 0 <= i < |s| => s[i]);
    assert a[..] == s;
  }
}
