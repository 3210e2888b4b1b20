/** The host compiles a kernel for every power of two of features, and picks one by the logarithm of the number of
    features.  The kernel reads as many features as it was compiled for. */
module KernelChoice {
  import opened Clustering
  import opened Numbers
  import opened ColumnMajor
  import opened Indices
  import opened ReduceVectorParcol

  const MAX_FEATURES := 1024

  datatype Option<T> = None | Some(value: T)

  /** The position of the highest bit. */
  function Log2(x: nat): nat
    requires x > 0
  {
    if x == 1 then 0 else Log2(x / 2) + 1
  }

  lemma {:induction false} Log2Is(x: nat)
    requires x > 0
    ensures Pow2(Log2(x)) <= x < 2 * Pow2(Log2(x))
  {
    if x > 1 {
      Log2Is(x / 2);
    }
  }

  lemma {:induction false} Log2OfPow2(k: nat)
    ensures Log2(Pow2(k)) == k
  {
    if k > 0 {
      Log2OfPow2(k - 1);
    }
  }

  lemma {:induction false} Pow2Grows(a: nat, b: nat)
    requires a < b
    ensures 2 * Pow2(a) <= Pow2(b)
  {
    if a < b - 1 {
      Pow2Grows(a, b - 1);
    }
  }

  lemma TwoThousand()
    ensures Pow2(10) == 1024 && Pow2(11) == 2048
  {
    assert Pow2(5) == 32;
  }

  /** The numbers of features that kernels are compiled for. */
  ghost predicate Prepared(kernels: seq<nat>) {
    |kernels| == 10 && forall i :: 0 <= i < |kernels| ==> kernels[i] == Pow2(i + 1)
  }

  method Prepare() returns (kernels: seq<nat>)
    ensures Prepared(kernels)
  {
    kernels := seq(Log2(MAX_FEATURES), i => 0);
    TwoThousand();
    Log2OfPow2(10);
    var d: nat := 2;
    ghost var k: nat := 1;
    while d <= MAX_FEATURES
      invariant 0 < k <= 11 && d == Pow2(k) && |kernels| == 10
      invariant forall i :: 0 <= i < k - 1 ==> kernels[i] == Pow2(i + 1)
      decreases 11 - k
    {
      Log2OfPow2(k);
      TwoThousand();
      kernels := kernels[Log2(d) - 1 := d];
      d := d * 2;
      k := k + 1;
    }
    TwoThousand();
    if k < 11 {
      if k < 10 {
        Pow2Grows(k, 10);
      }
      assert false;
    }
  }

  /** The number of features that the chosen kernel reads; none if there is no such kernel. */
  function KernelFeatures(num_features: nat): Option<nat>
    requires num_features > 0
  {
    if num_features == 1 || num_features > MAX_FEATURES then None else Some(Pow2(Log2(num_features)))
  }

  /** The choice: an index below the first kernel, for a single feature, or an assertion that fails give no kernel. */
  method Choose(kernels: seq<nat>, num_features: nat) returns (choice: Option<nat>)
    requires Prepared(kernels) && num_features > 0
    ensures choice == KernelFeatures(num_features)
    ensures choice.Some? <==> 2 <= num_features <= MAX_FEATURES
    ensures choice.Some? ==> IsPow2(choice.value) && choice.value <= num_features < 2 * choice.value
  {
    Log2Is(num_features);
    HighestPower(num_features);
    if num_features > MAX_FEATURES {
      return None;
    }
    var kernel_index := Log2(num_features) - 1;
    if kernel_index < 0 {
      return None;
    }
    TwoThousand();
    if kernel_index >= 10 {
      Pow2Grows(10, kernel_index + 1);
      assert false;
    }
    return Some(kernels[kernel_index]);
  }

  /** With 2 to 1024 features the chosen kernel reads the highest power of two of them, otherwise there is none. */
  lemma HighestPower(num_features: nat)
    requires num_features > 0
    ensures KernelFeatures(num_features).Some? <==> 2 <= num_features <= MAX_FEATURES
    ensures KernelFeatures(num_features).Some? ==>
              var d := KernelFeatures(num_features).value; IsPow2(d) && 2 <= d <= num_features < 2 * d
  {
    Log2Is(num_features);
    if 2 <= num_features <= MAX_FEATURES {
      assert KernelFeatures(num_features) == Some(Pow2(Log2(num_features)));
    }
  }

  /** The kernel reads all features. */
  ghost predicate KernelFits(num_features: nat) {
    num_features > 0 && KernelFeatures(num_features) == Some(num_features)
  }

  /** It does exactly for the powers of two from 2 to 1024. */
  lemma KernelFitsIff(num_features: nat)
    ensures KernelFits(num_features) <==> IsPow2(num_features) && 2 <= num_features <= MAX_FEATURES
  {
    if num_features > 0 && IsPow2(num_features) {
      var k: nat :| num_features == Pow2(k);
      Log2OfPow2(k);
    }
  }

  /** Otherwise it reads fewer, at least two, if there is a kernel at all. */
  lemma KernelReads(num_features: nat)
    requires 2 <= num_features <= MAX_FEATURES
    ensures KernelFeatures(num_features).Some? && 2 <= KernelFeatures(num_features).value <= num_features
  {
    Log2Is(num_features);
  }

  // ---------- what is left of points and centres ----------

  ghost function FirstFeatures(cs: seq<Center>, p: nat, d: nat): (r: seq<Center>)
    requires Centers(cs, p) && d <= p
    ensures |r| == |cs| && Centers(r, d)
  {
    seq(|cs|, j requires 0 <= j < |cs| => if cs[j].Live? then Live(cs[j].at[..d]) else Dead)
  }

  lemma {:induction false} StillLive(cs: seq<Center>, p: nat, d: nat, m: nat)
    requires Centers(cs, p) && d <= p && m <= |cs|
    ensures LiveBelow(FirstFeatures(cs, p, d), m) <==> LiveBelow(cs, m)
  {
    if m > 0 {
      StillLive(cs, p, d, m - 1);
    }
  }

  /** The first d columns of the matrix of centroids hold the first d features. */
  lemma FirstColumns(cen: seq<Num>, cs: seq<Center>, k: nat, p: nat, d: nat)
    requires Holds(cen, cs, k, p) && 0 < d <= p
    ensures 0 <= k * d <= |cen| && Holds(cen[..k * d], FirstFeatures(cs, p, d), k, d)
  {
    Monotone(d, p, k);
    Product(k, d);
    forall t | 0 <= t < k * d
      ensures cen[t] == Entry(FirstFeatures(cs, p, d), t % k, t / k)
    {
      CellSplit(t, k, d);
    }
  }

  lemma FirstRows(x: seq<real>, n: nat, p: nat, d: nat)
    requires |x| == n * p && d <= p
    ensures 0 <= n * d <= |x| && Rows(x[..n * d], n, d) == Rows(x, n, d)
  {
    Monotone(d, p, n);
    Product(n, d);
    var a, b := Rows(x[..n * d], n, d), Rows(x, n, d);
    forall i | 0 <= i < n
      ensures a[i] == b[i]
    {
      forall c | 0 <= c < d
        ensures a[i][c] == b[i][c]
      {
        InMatrix(i, c, n, d);
      }
    }
  }

  // ---------- when the labels are right ----------

  /** A point whose last feature decides: the far centre is nearer without it. */
  ghost function FarPoint(p: nat): Vec {
    seq(p, i => if i == p - 1 then 2.0 else 0.0)
  }

  ghost function FarCenters(p: nat): seq<Center> {
    [Live(seq(p, i => if i == 0 then 1.0 else if i == p - 1 then 2.0 else 0.0)), Live(seq(p, i => 0.0))]
  }

  lemma {:induction false} FarDistances(p: nat, m: nat)
    requires p >= 2 && 1 <= m <= p
    ensures SqDist(FarPoint(p), FarCenters(p)[0].at, m) == 1.0
    ensures SqDist(FarPoint(p), FarCenters(p)[1].at, m) == if m == p then 4.0 else 0.0
  {
    var x, a, b := FarPoint(p), FarCenters(p)[0].at, FarCenters(p)[1].at;
    if m == 1 {
      assert SqDist(x, a, 0) == 0.0 && SqDist(x, b, 0) == 0.0;
    } else {
      FarDistances(p, m - 1);
    }
  }

  lemma {:induction false} SameDistance(x: Vec, a: Vec, d: nat, m: nat)
    requires m <= d <= |x| && d <= |a|
    ensures SqDist(x[..d], a[..d], m) == SqDist(x, a, m)
  {
    if m > 0 {
      SameDistance(x, a, d, m - 1);
    }
  }

  /** Fewer features mislabel a point. */
  lemma FewerFeaturesMislabel(p: nat, d: nat)
    requires 0 < d < p
    ensures |FarPoint(p)| == p && Centers(FarCenters(p), p) && HasLive(FarCenters(p))
    ensures Nearest(FarPoint(p), FarCenters(p)) == 0
    ensures Nearest(FarPoint(p)[..d], FirstFeatures(FarCenters(p), p, d)) == 1
  {
    var x, cs := FarPoint(p), FarCenters(p);
    var fewer := FirstFeatures(cs, p, d);
    FarDistances(p, p);
    FarDistances(p, d);
    SameDistance(x, cs[0].at, d, d);
    SameDistance(x, cs[1].at, d, d);
    NearestOfTwo(x, cs);
    NearestOfTwo(x[..d], fewer);
  }

  lemma NearestOfTwo(x: Vec, cs: seq<Center>)
    requires |cs| == 2 && Centers(cs, |x|) && cs[0].Live? && cs[1].Live?
    ensures Nearest(x, cs) == if Dist(x, cs[1]) < Dist(x, cs[0]) then 1 else 0
    ensures HasLive(cs)
  {
    hide SqDist;
    assert Best(x, cs, 0) == -1;
    assert Best(x, cs, 1) == 0;
  }

  /** The chosen kernel labels every point as it should, whatever the centres, if and only if it reads all features. */
  lemma LabelsRightIff(p: nat)
    requires 2 <= p <= MAX_FEATURES
    ensures KernelFeatures(p).Some? && KernelFeatures(p).value <= p
    ensures var d := KernelFeatures(p).value;
            (forall x: Vec, cs: seq<Center> :: |x| == p && Centers(cs, p) && HasLive(cs) ==>
               Nearest(x[..d], FirstFeatures(cs, p, d)) == Nearest(x, cs))
            <==> KernelFits(p)
  {
    hide Nearest, HasLive;
    KernelReads(p);
    var d := KernelFeatures(p).value;
    if KernelFits(p) {
      forall x: Vec, cs: seq<Center> | |x| == p && Centers(cs, p) && HasLive(cs)
        ensures Nearest(x[..d], FirstFeatures(cs, p, d)) == Nearest(x, cs)
      {
        AllFeatures(cs, p);
        assert x[..p] == x;
      }
    } else {
      FewerFeaturesMislabel(p, d);
      var x, cs := FarPoint(p), FarCenters(p);
      assert Nearest(x[..d], FirstFeatures(cs, p, d)) != Nearest(x, cs);
    }
  }

  lemma AllFeatures(cs: seq<Center>, p: nat)
    requires Centers(cs, p)
    ensures FirstFeatures(cs, p, p) == cs
  {
    forall j | 0 <= j < |cs| && cs[j].Live?
      ensures cs[j].at[..p] == cs[j].at
    {
    }
  }

  /** Three features: the kernel reads two of them, and labels a point wrong. */
  lemma ThreeFeaturesAreTwo()
    ensures KernelFeatures(3) == Some(2) && KernelFeatures(1) == None
    ensures Centers(FarCenters(3), 3) && |FarPoint(3)| == 3
    ensures Nearest(FarPoint(3)[..2], FirstFeatures(FarCenters(3), 3, 2)) != Nearest(FarPoint(3), FarCenters(3))
  {
    hide Nearest;
    assert Log2(3) == 1 by {
      assert Log2(1) == 0;
    }
    assert Pow2(1) == 2;
    FewerFeaturesMislabel(3, 2);
  }
}
