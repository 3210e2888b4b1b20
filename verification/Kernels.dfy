/** The kernels that label points, count them and add them up, work-item by work-item.  Every work-item writes into a
    tile of its own; what a tile holds at the end is the work-item's share of the whole sum. */
module Kernels {
  import opened Sums
  import opened Clustering
  import opened Numbers
  import opened ColumnMajor
  import opened Indices
  import opened Strides
  import R = RStatsKmeans

  // ---------- what the cells of a tile count and add up ----------

  function LabelAt(lab: seq<int>, q: int): int {
    if 0 <= q < |lab| then lab[q] else -1
  }

  /** What point q adds to cell t of a k x p matrix of feature sums: cell t is (cluster, feature) = (t % k, t / k). */
  ghost function Feature(x: seq<real>, n: nat, lab: seq<int>, k: nat, t: nat): int -> real
    requires k > 0
  {
    q => if LabelAt(lab, q) == t % k then At(x, q + n * (t / k)) else 0.0
  }

  /** What point q adds to the mass of cluster c. */
  ghost function Mass(lab: seq<int>, c: nat): int -> real {
    q => if LabelAt(lab, q) == c then 1.0 else 0.0
  }

  lemma {:induction false} FeaturesAddUp(x: seq<real>, n: nat, p: nat, lab: seq<int>, k: nat, t: nat, m: nat)
    requires k > 0 && t < k * p && m <= n == |lab|
    ensures t / k < p && Sum(m, Feature(x, n, lab, k, t)) == Total(Rows(x, n, p), lab, t % k, t / k, m)
  {
    CellSplit(t, k, p);
    if m > 0 {
      FeaturesAddUp(x, n, p, lab, k, t, m - 1);
    }
  }

  lemma {:induction false} MassesAddUp(lab: seq<int>, c: nat, m: nat)
    requires m <= |lab|
    ensures Sum(m, Mass(lab, c)) == Count(lab, c, m) as real
  {
    if m > 0 {
      MassesAddUp(lab, c, m - 1);
    }
  }

  /** Cells off + lo, ..., off + hi - 1 of a buffer hold the values number lo, ..., hi - 1. */
  ghost predicate Holding(g: seq<real>, off: nat, lo: nat, hi: nat, value: int -> real) {
    off + hi <= |g| && forall i :: off + lo <= i < off + hi ==> g[i] == value(i - off)
  }

  /** Only cells off + lo, ..., off + hi - 1 of a buffer have changed. */
  ghost predicate OnlyWithin(g: seq<real>, was: seq<real>, off: nat, lo: nat, hi: nat) {
    |g| == |was| && forall i :: 0 <= i < |g| && !(off + lo <= i < off + hi) ==> g[i] == was[i]
  }

  ghost function FeatureParts(l: Loop, v: nat, x: seq<real>, n: nat, lab: seq<int>, k: nat, m: nat): int -> real
    requires v > 0 && l.stride > 0 && k > 0
  {
    t => if t < 0 then 0.0 else Part(l, v, Feature(x, n, lab, k, t), m)
  }

  ghost function MassParts(l: Loop, v: nat, lab: seq<int>, m: nat): int -> real
    requires v > 0 && l.stride > 0
  {
    c => if c < 0 then 0.0 else Part(l, v, Mass(lab, c), m)
  }

  /** The register that a kernel loads the labels of a step into. */
  ghost predicate Loaded(labels: seq<int>, lab: seq<int>, k: nat, p: nat, v: nat) {
    |labels| == v && p + v <= |lab| && labels == lab[p..p + v] && Labels(labels, k)
  }

  // ---------- steps of a loop ----------

  /** Zeroes a tile. */
  method ZeroTile(g: array<real>, off: nat, lo: nat, hi: nat)
    requires lo <= hi && off + hi <= g.Length
    modifies g
    ensures Holding(g[..], off, lo, hi, t => 0.0) && OnlyWithin(g[..], old(g[..]), off, lo, hi)
  {
    for t := lo to hi
      invariant forall i :: off + lo <= i < off + t ==> g[i] == 0.0
      invariant forall i :: 0 <= i < g.Length && !(off + lo <= i < off + hi) ==> g[i] == old(g[i])
    {
      g[off + t] := 0.0;
    }
  }

  /** Adds feature f of the points of one step. */
  method AddFeature(g: array<real>, off: nat, x: seq<real>, n: nat, k: nat, labels: seq<int>, p: nat, v: nat, f: nat,
                    ghost lab: seq<int>, ghost l: Loop, ghost w: nat)
    requires v > 0 && k > 0 && l.stride > 0 && IsStep(l, w) && p == v * w < l.bound && n * (f + 1) <= |x|
    requires |lab| == n && Loaded(labels, lab, k, p, v) && off + k * (f + 1) <= g.Length
    requires Holding(g[..], off, k * f, k * (f + 1), FeatureParts(l, v, x, n, lab, k, p))
    modifies g
    ensures Holding(g[..], off, k * f, k * (f + 1), FeatureParts(l, v, x, n, lab, k, p + v))
    ensures OnlyWithin(g[..], old(g[..]), off, k * f, k * (f + 1))
  {
    hide Part, IsStep, LabelAt;
    Product(k, f);
    Product(n, f);
    Distribute(k, f, 1);
    Distribute(n, f, 1);
    for lane := 0 to v
      invariant Holding(g[..], off, k * f, k * (f + 1), FeatureParts(l, v, x, n, lab, k, p + lane))
      invariant OnlyWithin(g[..], old(g[..]), off, k * f, k * (f + 1))
    {
      ghost var was := g[..];
      var at := off + k * f + labels[lane];
      g[at] := g[at] + x[n * f + (p + lane)];
      LaneAdded(was, g[..], off, x, n, k, labels[lane], p + lane, f, lab, l, v, w, lane);
    }
  }

  lemma LaneAdded(was: seq<real>, now: seq<real>, off: nat, x: seq<real>, n: nat, k: nat, c: int, q: nat, f: nat,
                  lab: seq<int>, l: Loop, v: nat, w: nat, lane: nat)
    requires v > 0 && k > 0 && l.stride > 0 && IsStep(l, w) && v * w < l.bound && lane < v && q == v * w + lane
    requires 0 <= c < k && q < |lab| == n && lab[q] == c && 0 <= n * f && n * f + q < |x|
    requires Holding(was, off, k * f, k * (f + 1), FeatureParts(l, v, x, n, lab, k, q))
    requires 0 <= off + k * f + c < |was| && now == was[off + k * f + c := was[off + k * f + c] + x[n * f + q]]
    ensures Holding(now, off, k * f, k * (f + 1), FeatureParts(l, v, x, n, lab, k, q + 1))
  {
    hide Part, IsStep;
    Product(k, f);
    forall i | off + k * f <= i < off + k * (f + 1)
      ensures now[i] == FeatureParts(l, v, x, n, lab, k, q + 1)(i - off)
    {
      var t := i - off;
      Distribute(k, f, 1);
      DivMod(k, f, t - k * f);
      PartLane(l, v, Feature(x, n, lab, k, t), w, lane);
    }
  }

  /** Adds features f0, ..., f1 - 1 of the points of one step. */
  method AddFeatures(g: array<real>, off: nat, x: seq<real>, n: nat, k: nat, labels: seq<int>, p: nat, v: nat,
                     f0: nat, f1: nat, ghost lab: seq<int>, ghost l: Loop, ghost w: nat)
    requires v > 0 && k > 0 && l.stride > 0 && IsStep(l, w) && p == v * w < l.bound && f0 <= f1 && n * f1 <= |x|
    requires |lab| == n && Loaded(labels, lab, k, p, v) && off + k * f1 <= g.Length
    requires Holding(g[..], off, k * f0, k * f1, FeatureParts(l, v, x, n, lab, k, p))
    modifies g
    ensures Holding(g[..], off, k * f0, k * f1, FeatureParts(l, v, x, n, lab, k, p + v))
    ensures OnlyWithin(g[..], old(g[..]), off, k * f0, k * f1)
  {
    hide Part, IsStep, Loaded, FeatureParts;
    Monotone(f0, f1, k);
    for f := f0 to f1
      invariant Holding(g[..], off, k * f0, k * f, FeatureParts(l, v, x, n, lab, k, p + v))
      invariant Holding(g[..], off, k * f, k * f1, FeatureParts(l, v, x, n, lab, k, p))
      invariant OnlyWithin(g[..], old(g[..]), off, k * f0, k * f1)
    {
      Monotone(f0, f, k);
      Monotone(f + 1, f1, k);
      Monotone(f + 1, f1, n);
      Distribute(k, f, 1);
      AddFeature(g, off, x, n, k, labels, p, v, f, lab, l, w);
    }
  }

  /** Counts the points of one step. */
  method AddMasses(g: array<real>, off: nat, k: nat, labels: seq<int>, p: nat, v: nat,
                   ghost lab: seq<int>, ghost l: Loop, ghost w: nat)
    requires v > 0 && l.stride > 0 && IsStep(l, w) && p == v * w < l.bound
    requires Loaded(labels, lab, k, p, v) && off + k <= g.Length
    requires Holding(g[..], off, 0, k, MassParts(l, v, lab, p))
    modifies g
    ensures Holding(g[..], off, 0, k, MassParts(l, v, lab, p + v))
    ensures OnlyWithin(g[..], old(g[..]), off, 0, k)
  {
    hide Part, IsStep;
    for lane := 0 to v
      invariant Holding(g[..], off, 0, k, MassParts(l, v, lab, p + lane))
      invariant OnlyWithin(g[..], old(g[..]), off, 0, k)
    {
      var at := off + labels[lane];
      g[at] := g[at] + 1.0;
      forall c: nat | c < k
        ensures Part(l, v, Mass(lab, c), p + lane + 1) == Part(l, v, Mass(lab, c), p + lane) + Mass(lab, c)(p + lane)
      {
        PartLane(l, v, Mass(lab, c), w, lane);
      }
    }
  }

  /** Nothing is added on the way from the end of a step to the next step, nor after the last one. */
  lemma NextStep(l: Loop, v: nat, x: seq<real>, n: nat, lab: seq<int>, k: nat, w: nat, g: seq<real>, off: nat,
                 lo: nat, hi: nat)
    requires v > 0 && k > 0 && l.stride > 0 && IsStep(l, w)
    ensures IsStep(l, w + l.stride) && 0 <= v * w + v <= v * (w + l.stride) == v * w + v * l.stride
    ensures Holding(g, off, lo, hi, FeatureParts(l, v, x, n, lab, k, v * w + v)) ==>
              Holding(g, off, lo, hi, FeatureParts(l, v, x, n, lab, k, v * (w + l.stride)))
    ensures Holding(g, off, lo, hi, MassParts(l, v, lab, v * w + v)) ==>
              Holding(g, off, lo, hi, MassParts(l, v, lab, v * (w + l.stride)))
  {
    hide Part, IsStep;
    PartSkips(l, v, Mass(lab, 0), w);
    forall t: nat
      ensures Part(l, v, Feature(x, n, lab, k, t), v * (w + l.stride)) ==
              Part(l, v, Feature(x, n, lab, k, t), v * w + v)
      ensures Part(l, v, Mass(lab, t), v * (w + l.stride)) == Part(l, v, Mass(lab, t), v * w + v)
    {
      PartSkips(l, v, Feature(x, n, lab, k, t), w);
      PartSkips(l, v, Mass(lab, t), w);
    }
  }

  lemma LastStep(l: Loop, v: nat, x: seq<real>, n: nat, lab: seq<int>, k: nat, w: nat, g: seq<real>, off: nat,
                 lo: nat, hi: nat)
    requires v > 0 && k > 0 && l.stride > 0 && Fits(l, v, n) && IsStep(l, w) && v * w >= l.bound && v * w >= 0
    ensures Holding(g, off, lo, hi, FeatureParts(l, v, x, n, lab, k, v * w)) ==>
              Holding(g, off, lo, hi, FeatureParts(l, v, x, n, lab, k, n))
    ensures Holding(g, off, lo, hi, MassParts(l, v, lab, v * w)) ==> Holding(g, off, lo, hi, MassParts(l, v, lab, n))
  {
    hide Part, IsStep, Fits;
    forall t: nat
      ensures Part(l, v, Feature(x, n, lab, k, t), v * w) == Part(l, v, Feature(x, n, lab, k, t), n)
      ensures Part(l, v, Mass(lab, t), v * w) == Part(l, v, Mass(lab, t), n)
    {
      PartEnds(l, v, Feature(x, n, lab, k, t), w, n);
      PartEnds(l, v, Mass(lab, t), w, n);
    }
  }

  lemma FirstStep(l: Loop, v: nat, x: seq<real>, n: nat, lab: seq<int>, k: nat, g: seq<real>, off: nat, lo: nat,
                  hi: nat)
    requires v > 0 && k > 0 && l.stride > 0
    ensures IsStep(l, l.first) && v * l.first >= 0
    ensures Holding(g, off, lo, hi, t => 0.0) ==>
              && Holding(g, off, lo, hi, FeatureParts(l, v, x, n, lab, k, v * l.first))
              && Holding(g, off, lo, hi, MassParts(l, v, lab, v * l.first))
  {
    hide Part;
    PartBegins(l, v, Mass(lab, 0));
    forall t: nat
      ensures Part(l, v, Feature(x, n, lab, k, t), v * l.first) == 0.0 && Part(l, v, Mass(lab, t), v * l.first) == 0.0
    {
      PartBegins(l, v, Feature(x, n, lab, k, t));
      PartBegins(l, v, Mass(lab, t));
    }
  }

  // ---------- the loops of one work-item ----------

  method LoadLabels(g_labels: seq<int>, k: nat, p: nat, v: nat) returns (labels: seq<int>)
    requires p + v <= |g_labels| && Labels(g_labels, k)
    ensures Loaded(labels, g_labels, k, p, v)
  {
    labels := g_labels[p..p + v];
  }

  /** Adds up features f0, ..., f1 - 1 of the points of a loop in a tile that was zero. */
  method SumFeatures(g: array<real>, off: nat, x: seq<real>, n: nat, k: nat, g_labels: seq<int>,
                     start: nat, bound: nat, step: nat, v: nat, f0: nat, f1: nat, ghost l: Loop)
    requires v > 0 && k > 0 && Fits(l, v, n) && start == v * l.first && bound == l.bound && step == v * l.stride
    requires f0 <= f1 && n * f1 <= |x| && |g_labels| == n && Labels(g_labels, k) && off + k * f1 <= g.Length
    requires Holding(g[..], off, k * f0, k * f1, t => 0.0)
    modifies g
    ensures Holding(g[..], off, k * f0, k * f1, FeatureParts(l, v, x, n, g_labels, k, n))
    ensures OnlyWithin(g[..], old(g[..]), off, k * f0, k * f1)
  {
    hide Part, IsStep, Holding, Loaded, Labels, FeatureParts;
    var p := start;
    ghost var w: nat := l.first;
    FirstStep(l, v, x, n, g_labels, k, g[..], off, k * f0, k * f1);
    Monotone(1, l.stride, v);
    while p < bound
      invariant w >= l.first && IsStep(l, w) && p == v * w
      invariant Holding(g[..], off, k * f0, k * f1, FeatureParts(l, v, x, n, g_labels, k, p))
      invariant OnlyWithin(g[..], old(g[..]), off, k * f0, k * f1)
    {
      assert v * w + v <= n;
      var labels := LoadLabels(g_labels, k, p, v);
      AddFeatures(g, off, x, n, k, labels, p, v, f0, f1, g_labels, l, w);
      NextStep(l, v, x, n, g_labels, k, w, g[..], off, k * f0, k * f1);
      p := p + step;
      w := w + l.stride;
    }
    LastStep(l, v, x, n, g_labels, k, w, g[..], off, k * f0, k * f1);
  }

  /** Counts the points of a loop in a tile that was zero. */
  method SumMasses(g: array<real>, off: nat, n: nat, k: nat, g_labels: seq<int>, start: nat, bound: nat, step: nat,
                   v: nat, ghost l: Loop)
    requires v > 0 && k > 0 && Fits(l, v, n) && start == v * l.first && bound == l.bound && step == v * l.stride
    requires |g_labels| == n && Labels(g_labels, k) && off + k <= g.Length
    requires Holding(g[..], off, 0, k, t => 0.0)
    modifies g
    ensures Holding(g[..], off, 0, k, MassParts(l, v, g_labels, n))
    ensures OnlyWithin(g[..], old(g[..]), off, 0, k)
  {
    hide Part, IsStep, Holding, Loaded, Labels, MassParts;
    var p := start;
    ghost var w: nat := l.first;
    FirstStep(l, v, [], n, g_labels, k, g[..], off, 0, k);
    Monotone(1, l.stride, v);
    while p < bound
      invariant w >= l.first && IsStep(l, w) && p == v * w
      invariant Holding(g[..], off, 0, k, MassParts(l, v, g_labels, p))
      invariant OnlyWithin(g[..], old(g[..]), off, 0, k)
    {
      assert v * w + v <= n;
      var labels := LoadLabels(g_labels, k, p, v);
      AddMasses(g, off, k, labels, p, v, g_labels, l, w);
      NextStep(l, v, [], n, g_labels, k, w, g[..], off, 0, k);
      p := p + step;
      w := w + l.stride;
    }
    LastStep(l, v, [], n, g_labels, k, w, g[..], off, 0, k);
  }

  // ---------- labelling ----------

  /** Below m, a loop has written the new label of every point it owns, and nothing else. */
  ghost predicate Labelled(g: seq<int>, was: seq<int>, lab: seq<int>, l: Loop, v: nat, m: nat)
    requires v > 0 && l.stride > 0
  {
    |g| == |was| == |lab| && forall q :: 0 <= q < |g| ==> g[q] == if q < m && Owns(l, v, q) then lab[q] else was[q]
  }

  /** The smaller of two distances; a NaN loses. */
  function Fmin(a: Num, b: Num): Num {
    if a.NaN? || Less(b, a) then b else a
  }

  /** One lane of the labelling phase.  The label starts as whatever the register holds. */
  method SelectNearest(x: seq<real>, n: nat, p: nat, cen: array<Num>, k: nat, q: nat, ghost cs: seq<Center>)
    returns (winner: int)
    requires |x| == n * p && p > 0 && Holds(cen[..], cs, k, p) && q < n && HasLive(cs)
    ensures winner == Nearest(Rows(x, n, p)[q], cs)
  {
    hide SqDist, Dist, Entry;
    ghost var pt := Rows(x, n, p)[q];
    var min_dist := Huge;
    winner := *;
    for c := 0 to k
      invariant var b := Best(pt, cs, c);
                if b < 0 then min_dist == Huge else min_dist == Fin(Dist(pt, cs[b])) && winner == b
    {
      var dist := R.SquaredDistance(x, n, p, cen, k, q, c, cs);
      var is_dist_smaller := Less(dist, min_dist);
      min_dist := Fmin(dist, min_dist);
      winner := if is_dist_smaller then c else winner;
    }
    R.BestOfNone(pt, cs, k);
  }

  /** Labels the points of one step and stores the labels. */
  method LabelStep(g_labels: array<int>, x: seq<real>, n: nat, p: nat, cen: array<Num>, k: nat, at: nat, v: nat,
                   ghost cs: seq<Center>, ghost was: seq<int>, ghost l: Loop, ghost w: nat)
    returns (labels: seq<int>)
    requires v > 0 && l.stride > 0 && IsStep(l, w) && at == v * w < l.bound && at + v <= n
    requires |x| == n * p && p > 0 && Holds(cen[..], cs, k, p) && HasLive(cs) && g_labels.Length == n
    requires Labelled(g_labels[..], was, Assign(Rows(x, n, p), cs, p), l, v, at)
    modifies g_labels
    ensures Loaded(labels, Assign(Rows(x, n, p), cs, p), k, at, v)
    ensures Labelled(g_labels[..], was, Assign(Rows(x, n, p), cs, p), l, v, at + v)
  {
    hide Nearest, Owns, Holds, HasLive, Rows;
    ShapeOfHolds(cen[..], cs, k, p);
    ghost var lab := Assign(Rows(x, n, p), cs, p);
    labels := [];
    for lane := 0 to v
      modifies {}
      invariant |labels| == lane && forall t :: 0 <= t < lane ==> labels[t] == lab[at + t]
    {
      var winner := SelectNearest(x, n, p, cen, k, at + lane, cs);
      labels := labels + [winner];
    }
    for lane := 0 to v
      invariant Labelled(g_labels[..], was, lab, l, v, at + lane)
    {
      OwnsLane(l, v, w, lane);
      g_labels[at + lane] := labels[lane];
    }
  }

  lemma ShapeOfHolds(cen: seq<Num>, cs: seq<Center>, k: nat, p: nat)
    requires Holds(cen, cs, k, p)
    ensures k > 0 && |cs| == k && Centers(cs, p)
  {
  }

  lemma OwnsLane(l: Loop, v: nat, w: nat, lane: nat)
    requires v > 0 && l.stride > 0 && IsStep(l, w) && v * w < l.bound && lane < v
    ensures v * w >= 0 && Owns(l, v, v * w + lane)
  {
    Product(v, w);
    DivMod(v, w, lane);
  }

  /** Between one step and the next, before the first step and after the last one nobody is labelled. */
  lemma LabelledNext(g: seq<int>, was: seq<int>, lab: seq<int>, l: Loop, v: nat, w: nat)
    requires v > 0 && l.stride > 0 && IsStep(l, w)
    ensures IsStep(l, w + l.stride) && 0 <= v * w + v <= v * (w + l.stride) == v * w + v * l.stride
    ensures Labelled(g, was, lab, l, v, v * w + v) ==> Labelled(g, was, lab, l, v, v * (w + l.stride))
  {
    hide Owns, IsStep;
    PartSkips(l, v, q => 0.0, w);
    forall q | v * w + v <= q < v * (w + l.stride)
      ensures !Owns(l, v, q)
    {
      Between(l, v, w, q);
    }
  }

  lemma LabelledFirst(g: seq<int>, lab: seq<int>, l: Loop, v: nat)
    requires v > 0 && l.stride > 0 && |g| == |lab|
    ensures IsStep(l, l.first) && v * l.first >= 0 && Labelled(g, g, lab, l, v, v * l.first)
  {
    Product(v, l.first);
    forall q | 0 <= q < v * l.first
      ensures !Owns(l, v, q)
    {
      QuotientBelow(q, v, l.first);
    }
  }

  lemma LabelledLast(g: seq<int>, was: seq<int>, lab: seq<int>, l: Loop, v: nat, w: nat)
    requires v > 0 && l.stride > 0 && IsStep(l, w) && v * w >= l.bound && v * w >= 0
    requires Labelled(g, was, lab, l, v, v * w)
    ensures Labelled(g, was, lab, l, v, |lab|)
  {
    forall q | v * w <= q
      ensures !Owns(l, v, q)
    {
      QuotientAtLeast(q, v, w);
    }
  }

  lemma QuotientAtLeast(q: nat, v: nat, w: nat)
    requires v > 0 && v * w <= q
    ensures v * (q / v) >= v * w
  {
    if q / v < w {
      Split(q, v);
      Monotone(q / v + 1, w, v);
      Distribute(v, q / v, 1);
      assert false;
    }
    Monotone(w, q / v, v);
  }

  /** The labelling kernel of one work-item. */
  method LabelPoints(g_labels: array<int>, x: seq<real>, n: nat, p: nat, cen: array<Num>, k: nat,
                     it: Item, local_stride: bool, v: nat, ghost cs: seq<Center>)
    requires v > 0 && it.Valid() && (if local_stride then Inside(it.groups, v, n) else v <= n + 1)
    requires |x| == n * p && p > 0 && Holds(cen[..], cs, k, p) && HasLive(cs) && g_labels.Length == n
    modifies g_labels
    ensures Labelled(g_labels[..], old(g_labels[..]), Assign(Rows(x, n, p), cs, p), LoopOf(it, local_stride, v, n), v,
                     n)
  {
    hide Owns, IsStep, Labelled, Holds, HasLive, Loaded, Assign;
    ghost var l, was := LoopOf(it, local_stride, v, n), g_labels[..];
    ShapeOfHolds(cen[..], cs, k, p);
    ghost var lab := Assign(Rows(x, n, p), cs, p);
    assert cen[..] == old(cen[..]);
    var start, bound, step := StartLoop(it, local_stride, v, n);
    LoopFits(it, local_stride, v, n);
    hide LoopOf;
    var at := start;
    ghost var w: nat := l.first;
    LabelledFirst(g_labels[..], lab, l, v);
    Monotone(1, l.stride, v);
    while at < bound
      invariant w >= l.first && IsStep(l, w) && at == v * w
      invariant Labelled(g_labels[..], was, lab, l, v, at)
    {
      assert v * w + v <= n;
      var labels := LabelStep(g_labels, x, n, p, cen, k, at, v, cs, was, l, w);
      LabelledNext(g_labels[..], was, lab, l, v, w);
      at := at + step;
      w := w + l.stride;
    }
    LabelledLast(g_labels[..], was, lab, l, v, w);
  }

  /** The loop of the fused kernel: every step labels its points, counts them and adds them up. */
  method FusedLoop(g_labels: array<int>, g_masses: array<real>, masses_off: nat, g: array<real>, off: nat,
                   x: seq<real>, n: nat, p: nat, cen: array<Num>, k: nat, start: nat, bound: nat, step: nat, v: nat,
                   ghost cs: seq<Center>, ghost lab: seq<int>, ghost l: Loop)
    requires v > 0 && k > 0 && Fits(l, v, n) && start == v * l.first && bound == l.bound && step == v * l.stride
    requires |x| == n * p && p > 0 && Holds(cen[..], cs, k, p) && HasLive(cs)
    requires g_labels.Length == n && |cs| == k && Centers(cs, p) && lab == Assign(Rows(x, n, p), cs, p)
    requires g_masses != g && masses_off + k <= g_masses.Length && k * p >= 0 && off + k * p <= g.Length
    requires Holding(g_masses[..], masses_off, 0, k, t => 0.0) && Holding(g[..], off, 0, k * p, t => 0.0)
    modifies g_labels, g_masses, g
    ensures Labelled(g_labels[..], old(g_labels[..]), lab, l, v, n)
    ensures Holding(g_masses[..], masses_off, 0, k, MassParts(l, v, lab, n))
    ensures Holding(g[..], off, 0, k * p, FeatureParts(l, v, x, n, lab, k, n))
    ensures OnlyWithin(g_masses[..], old(g_masses[..]), masses_off, 0, k)
    ensures OnlyWithin(g[..], old(g[..]), off, 0, k * p)
  {
    hide Part, IsStep, Holding, Loaded, FeatureParts, MassParts, Owns, Labelled, HasLive, Assign, Holds;
    ghost var was := g_labels[..];
    assert cen[..] == old(cen[..]);
    var at := start;
    ghost var w: nat := l.first;
    FirstStep(l, v, x, n, lab, k, g[..], off, 0, k * p);
    FirstStep(l, v, x, n, lab, k, g_masses[..], masses_off, 0, k);
    LabelledFirst(g_labels[..], lab, l, v);
    Monotone(1, l.stride, v);
    while at < bound
      invariant w >= l.first && IsStep(l, w) && at == v * w
      invariant Labelled(g_labels[..], was, lab, l, v, at)
      invariant Holding(g_masses[..], masses_off, 0, k, MassParts(l, v, lab, at))
      invariant Holding(g[..], off, 0, k * p, FeatureParts(l, v, x, n, lab, k, at))
      invariant OnlyWithin(g_masses[..], old(g_masses[..]), masses_off, 0, k)
      invariant OnlyWithin(g[..], old(g[..]), off, 0, k * p)
    {
      assert v * w + v <= n;
      var labels := LabelStep(g_labels, x, n, p, cen, k, at, v, cs, was, l, w);
      AddMasses(g_masses, masses_off, k, labels, at, v, lab, l, w);
      AddFeatures(g, off, x, n, k, labels, at, v, 0, p, lab, l, w);
      LabelledNext(g_labels[..], was, lab, l, v, w);
      NextStep(l, v, x, n, lab, k, w, g_masses[..], masses_off, 0, k);
      NextStep(l, v, x, n, lab, k, w, g[..], off, 0, k * p);
      at := at + step;
      w := w + l.stride;
    }
    LabelledLast(g_labels[..], was, lab, l, v, w);
    LastStep(l, v, x, n, lab, k, w, g_masses[..], masses_off, 0, k);
    LastStep(l, v, x, n, lab, k, w, g[..], off, 0, k * p);
  }

  lemma LoopFits(it: Item, localStride: bool, v: nat, n: nat)
    requires v > 0 && it.Valid() && (localStride ==> Inside(it.groups, v, n))
    ensures Fits(LoopOf(it, localStride, v, n), v, n)
  {
    if localStride {
      LocalFits(it, v, n);
    } else {
      GlobalFits(it, v, n);
    }
  }
}
