/** The stages of an iteration: a kernel launched over a whole device in any order of its work-items, the reduction of
    the tiles it leaves, and the addition to what earlier chunks have left.  Whatever the launch, the result is the
    sequential one. */
module Stages {
  import opened Sums
  import opened Clustering
  import opened Numbers
  import opened ColumnMajor
  import opened Indices
  import opened Strides
  import opened Kernels
  import opened Barriers
  import opened KernelChoice
  import opened ReduceVectorParcol

  /** The shape of a launch: work-groups, work-items per group, the form of the loop, and the vector length. */
  datatype Launch = Launch(groups: nat, local: nat, local_stride: bool, v: nat) {
    ghost predicate Valid(n: nat) {
      groups > 0 && local > 0 && v > 0 && (if local_stride then Inside(groups, v, n) else v <= n + 1)
    }

    function Size(): nat {
      groups * local
    }

    function ItemOf(gid: nat): (it: Item)
      requires local > 0 && gid < Size()
      ensures it.Valid() && it.Gid() == gid && it.groups == groups && it.local == local
    {
      QuotientBelow(gid, local, groups);
      Split(gid, local);
      Item(gid / local, gid % local, groups, local)
    }

    ghost function LoopOf(gid: nat, n: nat): (l: Loop)
      requires Valid(n) && gid < Size()
      ensures l.stride > 0
    {
      Strides.LoopOf(ItemOf(gid), local_stride, v, n)
    }

    /** Every point is handled by some work-item. */
    ghost predicate Complete(n: nat)
      requires Valid(n)
    {
      Covers(groups, local, local_stride, v, n)
    }
  }

  // ---------- tiles ----------

  /** The tiles of the given work-items hold what they should: tile gid is the T cells from gid * T on. */
  ghost predicate Tiles(g: seq<real>, T: nat, done: set<nat>, value: int -> int -> real) {
    forall gid :: gid in done ==> gid * T >= 0 && Holding(g, gid * T, 0, T, value(gid))
  }

  lemma TileWritten(now: seq<real>, was: seq<real>, T: nat, done: set<nat>, gid: nat, value: int -> int -> real)
    requires Tiles(was, T, done, value) && gid * T >= 0
    requires OnlyWithin(now, was, gid * T, 0, T) && Holding(now, gid * T, 0, T, value(gid))
    ensures Tiles(now, T, done + {gid}, value)
  {
    forall other | other in done + {gid}
      ensures other * T >= 0 && Holding(now, other * T, 0, T, value(other))
    {
      Product(other, T);
      if other < gid {
        Monotone(other + 1, gid, T);
        Distribute(T, other, 1);
      } else if other > gid {
        Monotone(gid + 1, other, T);
        Distribute(T, gid, 1);
      }
    }
  }

  /** Tiles that hold the shares of the work-items add up to what falls to anyone. */
  lemma TilesAddUp(g: seq<real>, T: nat, m: nat, value: int -> int -> real, t: nat, own: int -> int, n: nat,
                   f: int -> real)
    requires Tiles(g, T, Ids(m), value) && t < T
    requires forall gid: nat :: gid < m ==> value(gid)(t) == Share(n, own, gid, f)
    requires forall q :: 0 <= q < n ==> own(q) < m
    ensures RowSum(g, T, m, t) == SumOwned(n, own, f)
  {
    hide Share;
    forall gid | 0 <= gid < m
      ensures EntryAt(Cell(g), T, t, gid) == Share(n, own, gid, f)
    {
      assert gid in Ids(m);
      Product(gid, T);
      assert Holding(g, gid * T, 0, T, value(gid));
    }
    SumCongruence(m, gid => EntryAt(Cell(g), T, t, gid), gid => Share(n, own, gid, f));
    SharesAddUp(n, own, m, f);
  }

  /** Who handles which point in a launch. */
  ghost function Owner(s: Launch, n: nat): int -> int
    requires s.Valid(n)
  {
    q => if q < 0 then -1 else OwnerOf(s.groups, s.local, s.local_stride, s.v, n, q)
  }

  lemma PartsAreShares(s: Launch, n: nat, gid: nat, f: int -> real)
    requires s.Valid(n) && gid < s.Size()
    ensures Part(s.LoopOf(gid, n), s.v, f, n) == Share(n, Owner(s, n), gid, f)
  {
    PartIsShare(s.ItemOf(gid), s.local_stride, s.v, n, f, Owner(s, n));
  }

  lemma OwnersExist(s: Launch, n: nat)
    requires s.Valid(n)
    ensures forall q :: 0 <= q < n ==> Owner(s, n)(q) < s.Size()
  {
    hide OwnerOf;
    Monotone(1, s.local, s.groups);
    forall q | 0 <= q < n
      ensures Owner(s, n)(q) < s.Size()
    {
      OwnerIs(s.ItemOf(0), s.local_stride, s.v, n, q);
    }
  }

  lemma EveryPointOwned(s: Launch, n: nat)
    requires s.Valid(n) && s.Complete(n)
    ensures forall q :: 0 <= q < n ==> 0 <= Owner(s, n)(q) < s.Size()
  {
    hide OwnerOf;
    OwnersExist(s, n);
    forall q | 0 <= q < n
      ensures 0 <= Owner(s, n)(q)
    {
    }
  }

  ghost function MassTiles(s: Launch, lab: seq<int>, n: nat): int -> int -> real
    requires s.Valid(n)
  {
    gid => if 0 <= gid < s.Size() then MassParts(s.LoopOf(gid, n), s.v, lab, n) else c => 0.0
  }

  ghost function FeatureTiles(s: Launch, x: seq<real>, n: nat, lab: seq<int>, k: nat): int -> int -> real
    requires s.Valid(n) && k > 0
  {
    gid => if 0 <= gid < s.Size() then FeatureParts(s.LoopOf(gid, n), s.v, x, n, lab, k, n) else t => 0.0
  }

  // ---------- what a launch does to all points ----------

  /** The points that a launch takes have their new labels, the others keep theirs. */
  ghost function RelabelledBy(s: Launch, was: seq<int>, lab: seq<int>): (r: seq<int>)
    requires s.Valid(|lab|) && |was| == |lab|
    ensures |r| == |lab|
  {
    seq(|lab|, q requires 0 <= q < |lab| => if Owner(s, |lab|)(q) >= 0 then lab[q] else was[q])
  }

  /** The points of every cluster, as far as a launch takes them. */
  ghost function TakenMasses(s: Launch, lab: seq<int>): int -> real
    requires s.Valid(|lab|)
  {
    c => if c < 0 then 0.0 else SumOwned(|lab|, Owner(s, |lab|), Mass(lab, c))
  }

  /** Their feature sums, laid out like the matrix of centroids. */
  ghost function TakenSums(s: Launch, x: seq<real>, lab: seq<int>, k: nat): int -> real
    requires s.Valid(|lab|) && k > 0
  {
    t => if t < 0 then 0.0 else SumOwned(|lab|, Owner(s, |lab|), Feature(x, |lab|, lab, k, t))
  }

  ghost function Counts(lab: seq<int>): int -> real {
    c => if c < 0 then 0.0 else Count(lab, c, |lab|) as real
  }

  /** The sums of the features of every cluster, laid out like the matrix of centroids. */
  ghost function Totals(x: seq<real>, n: nat, p: nat, lab: seq<int>, k: nat): int -> real
    requires |lab| == n && k > 0
  {
    t => if t >= 0 && t / k < p then Total(Rows(x, n, p), lab, t % k, t / k, n) else 0.0
  }

  /** A complete launch takes all points. */
  lemma CompleteTakesAll(s: Launch, was: seq<int>, x: seq<real>, lab: seq<int>, k: nat, p: nat)
    requires s.Valid(|lab|) && s.Complete(|lab|) && k > 0 && |was| == |lab|
    ensures RelabelledBy(s, was, lab) == lab
    ensures forall c: nat :: TakenMasses(s, lab)(c) == Counts(lab)(c)
    ensures forall t: nat :: t < k * p ==> TakenSums(s, x, lab, k)(t) == Totals(x, |lab|, p, lab, k)(t)
  {
    hide SumOwned, Owner, Total, Rows, Count;
    EveryPointOwned(s, |lab|);
    forall c: nat
      ensures TakenMasses(s, lab)(c) == Counts(lab)(c)
    {
      AllOwned(|lab|, Owner(s, |lab|), Mass(lab, c));
      Kernels.MassesAddUp(lab, c, |lab|);
    }
    forall t: nat | t < k * p
      ensures TakenSums(s, x, lab, k)(t) == Totals(x, |lab|, p, lab, k)(t)
    {
      AllOwned(|lab|, Owner(s, |lab|), Feature(x, |lab|, lab, k, t));
      FeaturesAddUp(x, |lab|, p, lab, k, t, |lab|);
    }
  }

  lemma MassTilesAddUp(s: Launch, lab: seq<int>, n: nat, k: nat, g: seq<real>, c: nat)
    requires s.Valid(n) && |lab| == n && c < k
    requires Tiles(g, k, Ids(s.Size()), MassTiles(s, lab, n))
    ensures RowSum(g, k, s.Size(), c) == TakenMasses(s, lab)(c)
  {
    hide Part, Share, Owner, SumOwned;
    forall gid: nat | gid < s.Size()
      ensures MassTiles(s, lab, n)(gid)(c) == Share(n, Owner(s, n), gid, Mass(lab, c))
    {
      PartsAreShares(s, n, gid, Mass(lab, c));
    }
    OwnersExist(s, n);
    TilesAddUp(g, k, s.Size(), MassTiles(s, lab, n), c, Owner(s, n), n, Mass(lab, c));
  }

  lemma FeatureTilesAddUp(s: Launch, x: seq<real>, n: nat, p: nat, lab: seq<int>, k: nat, g: seq<real>, t: nat)
    requires s.Valid(n) && |lab| == n && k > 0 && t < k * p
    requires Tiles(g, k * p, Ids(s.Size()), FeatureTiles(s, x, n, lab, k))
    ensures RowSum(g, k * p, s.Size(), t) == TakenSums(s, x, lab, k)(t)
  {
    hide Part, Share, Owner, SumOwned;
    forall gid: nat | gid < s.Size()
      ensures FeatureTiles(s, x, n, lab, k)(gid)(t) == Share(n, Owner(s, n), gid, Feature(x, n, lab, k, t))
    {
      PartsAreShares(s, n, gid, Feature(x, n, lab, k, t));
    }
    OwnersExist(s, n);
    TilesAddUp(g, k * p, s.Size(), FeatureTiles(s, x, n, lab, k), t, Owner(s, n), n, Feature(x, n, lab, k, t));
  }

  // ---------- labelling ----------

  /** Launches the labelling kernel; the points it takes get the labels of one assignment step. */
  method LaunchLabeling(g_labels: array<int>, x: seq<real>, n: nat, p: nat, cen: array<Num>, k: nat, s: Launch,
                        ghost cs: seq<Center>)
    requires s.Valid(n)
    requires |x| == n * p && p > 0 && HasLive(cs) && Holds(cen[..], cs, k, p) && g_labels.Length == n
    modifies g_labels
    ensures g_labels[..] == RelabelledBy(s, old(g_labels[..]), Assign(Rows(x, n, p), cs, p))
  {
    hide Owns, Holds, HasLive, Assign, Owner;
    ShapeOfHolds(cen[..], cs, k, p);
    ghost var lab, first := Assign(Rows(x, n, p), cs, p), g_labels[..];
    assert cen[..] == old(cen[..]);
    OwnersExist(s, n);
    var todo := Ids(s.Size());
    while todo != {}
      invariant todo <= Ids(s.Size())
      invariant LabelledBut(g_labels[..], first, lab, s, todo)
      decreases todo
    {
      var gid :| gid in todo;
      ghost var was := g_labels[..];
      LabelPoints(g_labels, x, n, p, cen, k, s.ItemOf(gid), s.local_stride, s.v, cs);
      MoreLabelled(g_labels[..], was, first, lab, s, gid, todo);
      todo := todo - {gid};
    }
    assert g_labels[..] == RelabelledBy(s, first, lab);
  }

  /** The host labels with the kernel it chooses by the number of features: points get the labels of their first
      features only, if the kernel reads fewer of them, and nothing is launched without a kernel. */
  method LabelingUnrollVector(g_labels: array<int>, x: seq<real>, n: nat, p: nat, cen: array<Num>, k: nat, s: Launch,
                              kernels: seq<nat>, ghost cs: seq<Center>)
    returns (launched: bool)
    requires s.Valid(n) && Prepared(kernels)
    requires |x| == n * p && p > 0 && HasLive(cs) && Holds(cen[..], cs, k, p) && g_labels.Length == n
    modifies g_labels
    ensures Centers(cs, p) && (launched <==> KernelFeatures(p).Some?)
    ensures !launched ==> g_labels[..] == old(g_labels[..])
    ensures launched ==>
              var d := KernelFeatures(p).value;
              && d <= p
              && g_labels[..] == RelabelledBy(s, old(g_labels[..]), Assign(Rows(x, n, d), FirstFeatures(cs, p, d), d))
  {
    hide Holds, Assign, RelabelledBy, HasLive;
    ShapeOfHolds(cen[..], cs, k, p);
    var choice := Choose(kernels, p);
    if choice == None {
      return false;
    }
    KernelReads(p);
    var d := choice.value;
    FirstRows(x, n, p, d);
    FirstColumns(cen[..], cs, k, p, d);
    LiveFeatures(cs, p, d);
    var ro_centroids := new Num[k * d](i requires 0 <= i < k * d <= cen.Length reads cen => cen[i]);
    assert ro_centroids[..] == cen[..k * d];
    LaunchLabeling(g_labels, x[..n * d], n, d, ro_centroids, k, s, FirstFeatures(cs, p, d));
    return true;
  }

  lemma LiveFeatures(cs: seq<Center>, p: nat, d: nat)
    requires Centers(cs, p) && d <= p && HasLive(cs)
    ensures HasLive(FirstFeatures(cs, p, d))
  {
    StillLive(cs, p, d, |cs|);
  }

  /** The points of all work-items but those still to do have their new labels, the others keep theirs. */
  ghost predicate LabelledBut(g: seq<int>, first: seq<int>, lab: seq<int>, s: Launch, todo: set<nat>)
    requires s.Valid(|lab|)
  {
    |g| == |first| == |lab|
    && forall q :: 0 <= q < |lab| ==>
         g[q] == if Owner(s, |lab|)(q) >= 0 && Owner(s, |lab|)(q) !in todo then lab[q] else first[q]
  }

  lemma MoreLabelled(now: seq<int>, was: seq<int>, first: seq<int>, lab: seq<int>, s: Launch, gid: nat, todo: set<nat>)
    requires s.Valid(|lab|) && gid < s.Size() && gid in todo
    requires Labelled(now, was, lab, s.LoopOf(gid, |lab|), s.v, |lab|) && LabelledBut(was, first, lab, s, todo)
    ensures LabelledBut(now, first, lab, s, todo - {gid})
  {
    hide Owns, OwnerOf;
    var n := |lab|;
    forall q | 0 <= q < n
      ensures Owns(s.LoopOf(gid, n), s.v, q) <==> Owner(s, n)(q) == gid
    {
      OwnerIs(s.ItemOf(gid), s.local_stride, s.v, n, q);
    }
  }

  // ---------- masses ----------

  method LaunchHistogramPartPrivate(g_out: array<real>, n: nat, k: nat, g_labels: seq<int>, s: Launch)
    requires s.Valid(n) && k > 0 && |g_labels| == n && Labels(g_labels, k) && s.Size() * k <= g_out.Length
    modifies g_out
    ensures Tiles(g_out[..], k, Ids(s.Size()), MassTiles(s, g_labels, n))
  {
    hide Part, Holding, Labels, OnlyWithin, MassParts, Tiles;
    var todo := Ids(s.Size());
    NoTiles(g_out[..], k, MassTiles(s, g_labels, n));
    while todo != {}
      invariant todo <= Ids(s.Size())
      invariant Tiles(g_out[..], k, Ids(s.Size()) - todo, MassTiles(s, g_labels, n))
      decreases todo
    {
      var gid :| gid in todo;
      ghost var was := g_out[..];
      HistogramItem(g_out, n, k, g_labels, s, gid);
      TileWritten(g_out[..], was, k, Ids(s.Size()) - todo, gid, MassTiles(s, g_labels, n));
      assert Ids(s.Size()) - todo + {gid} == Ids(s.Size()) - (todo - {gid});
      todo := todo - {gid};
    }
    assert Ids(s.Size()) - {} == Ids(s.Size());
  }

  lemma NoTiles(g: seq<real>, T: nat, value: int -> int -> real)
    ensures forall ids: set<nat> :: Tiles(g, T, ids - ids, value)
  {
  }

  lemma TileInside(gid: nat, T: nat, m: nat)
    requires gid < m
    ensures 0 <= gid * T <= gid * T + T <= m * T
  {
    Product(gid, T);
    Monotone(gid + 1, m, T);
    Distribute(T, gid, 1);
  }

  /** One work-item of the histogram kernel. */
  method HistogramItem(g_out: array<real>, n: nat, k: nat, g_labels: seq<int>, s: Launch, gid: nat)
    requires s.Valid(n) && k > 0 && |g_labels| == n && Labels(g_labels, k)
    requires gid < s.Size() && s.Size() * k <= g_out.Length
    modifies g_out
    ensures gid * k >= 0 && Holding(g_out[..], gid * k, 0, k, MassTiles(s, g_labels, n)(gid))
    ensures OnlyWithin(g_out[..], old(g_out[..]), gid * k, 0, k)
  {
    hide Part, Labels, MassParts;
    var it := s.ItemOf(gid);
    TileInside(gid, k, s.Size());
    Associate(it.group, it.local, k);
    Product(it.group, it.local * k);
    var off := it.group * (it.local * k) + k * it.lid;
    assert off == gid * k;
    ZeroTile(g_out, off, 0, k);
    var start, bound, step := StartLoop(it, s.local_stride, s.v, n);
    LoopFits(it, s.local_stride, s.v, n);
    SumMasses(g_out, off, n, k, g_labels, start, bound, step, s.v, s.LoopOf(gid, n));
  }

  /** What the reduction makes of what a launch has left: the sums of the rows, when it is right for all matrices. */
  ghost function Reduced(g: seq<real>, size: nat, rows: nat): int -> real
    requires rows > 0
  {
    Chain(Cell(g), size / 2, rows)
  }

  /** Reduces what a launch has left and adds it to a matrix. */
  method ReduceAndAdd(matrix: array<real>, tmp: array<real>, rows: nat, cols: nat, size: nat) returns (completed: bool)
    requires rows > 0 && cols > 0 && rows * cols <= size <= tmp.Length && matrix.Length == rows && matrix != tmp
    modifies matrix, tmp
    ensures completed <==> RunsThrough(size, rows)
    ensures forall t: nat :: t < rows ==>
              matrix[t] == old(matrix[t]) + (if completed then Reduced(old(tmp[..]), size, rows)(t) else 0.0)
  {
    hide Chain, RunsThrough;
    completed := Reduce(tmp, size, cols, rows);
    if completed {
      MatrixAdd(matrix, tmp, rows);
    }
  }

  /** A reduction that is right for all matrices leaves the values that the rows add up to. */
  lemma ReducedIs(g: seq<real>, rows: nat, cols: nat, value: int -> real)
    requires rows > 0 && 0 < rows * cols <= |g| && Reduces(rows, cols)
    requires forall t: nat :: t < rows ==> RowSum(g, rows, cols, t) == value(t)
    ensures RunsThrough(rows * cols, rows) && forall t: nat :: t < rows ==> Reduced(g, rows * cols, rows)(t) == value(t)
  {
    hide Chain, RowSum, AddsUp, RunsThrough, Reduces;
    Monotone(1, cols, rows);
    assert rows * cols + 0 == rows * cols;
    RightIff(rows, cols, 0);
    SumsAreLeft(g, rows * cols, rows, cols);
  }

  /** Adds the first cells of a buffer to a matrix. */
  method MatrixAdd(matrix: array<real>, tmp: array<real>, size: nat)
    requires size <= matrix.Length && size <= tmp.Length && matrix != tmp
    modifies matrix
    ensures forall t :: 0 <= t < matrix.Length ==> matrix[t] == old(matrix[t]) + (if t < size then tmp[t] else 0.0)
  {
    forall t | 0 <= t < size {
      matrix[t] := matrix[t] + tmp[t];
    }
  }

  /** Reduces tiles whose rows add up to given values, and adds the values to a matrix. */
  method AddTiles(matrix: array<real>, tmp: array<real>, rows: nat, cols: nat, ghost value: int -> real)
    returns (completed: bool)
    requires rows > 0 && cols > 0 && 0 < rows * cols <= tmp.Length && matrix.Length == rows && matrix != tmp
    requires forall t: nat :: t < rows ==> RowSum(tmp[..], rows, cols, t) == value(t)
    modifies matrix, tmp
    ensures completed <==> RunsThrough(rows * cols, rows)
    ensures !completed ==> matrix[..] == old(matrix[..])
    ensures Reduces(rows, cols) ==> completed && forall t: nat :: t < rows ==> matrix[t] == old(matrix[t]) + value(t)
  {
    hide RowSum, RunsThrough, Reduces, Reduced;
    ghost var tiles := tmp[..];
    completed := ReduceAndAdd(matrix, tmp, rows, cols, rows * cols);
    if Reduces(rows, cols) {
      ReducedIs(tiles, rows, cols, value);
    }
  }

  /** Counts the points of every cluster that the launch takes and adds the counts to the masses. */
  method UpdateMasses(masses: array<real>, tmp: array<real>, n: nat, k: nat, g_labels: seq<int>, s: Launch)
    returns (completed: bool)
    requires s.Valid(n) && k > 0 && |g_labels| == n && Labels(g_labels, k)
    requires 0 < k * s.Size() <= tmp.Length && masses.Length == k && masses != tmp
    modifies masses, tmp
    ensures completed <==> RunsThrough(k * s.Size(), k)
    ensures !completed ==> masses[..] == old(masses[..])
    ensures Reduces(k, s.Size()) ==>
              completed && forall c :: 0 <= c < k ==> masses[c] == old(masses[c]) + TakenMasses(s, g_labels)(c)
  {
    hide Part, Labels, Tiles, RowSum, RunsThrough, Reduces, TakenMasses, Reduced;
    LaunchHistogramPartPrivate(tmp, n, k, g_labels, s);
    ghost var tiles := tmp[..];
    forall c | 0 <= c < k
      ensures RowSum(tiles, k, s.Size(), c) == TakenMasses(s, g_labels)(c)
    {
      MassTilesAddUp(s, g_labels, n, k, tiles, c);
    }
    completed := AddTiles(masses, tmp, k, s.Size(), TakenMasses(s, g_labels));
  }

  // ---------- feature sums ----------

  /** One work-item of the kernel that keeps all feature sums of its points. */
  method ClusterMergeItem(g: array<real>, x: seq<real>, n: nat, p: nat, k: nat, g_labels: seq<int>, s: Launch, gid: nat)
    requires s.Valid(n) && k > 0 && |x| == n * p && |g_labels| == n && Labels(g_labels, k)
    requires gid < s.Size() && s.Size() * (k * p) <= g.Length
    modifies g
    ensures gid * (k * p) >= 0 && Holding(g[..], gid * (k * p), 0, k * p, FeatureTiles(s, x, n, g_labels, k)(gid))
    ensures OnlyWithin(g[..], old(g[..]), gid * (k * p), 0, k * p)
  {
    hide Part, Labels, FeatureParts;
    var it := s.ItemOf(gid);
    Product(k, p);
    TileInside(gid, k * p, s.Size());
    assert gid * p * k == gid * (k * p) by {
      Associate(gid, p, k);
    }
    var g_cluster_offset := gid * p * k;
    ZeroTile(g, g_cluster_offset, 0, k * p);
    var start, bound, step := StartLoop(it, s.local_stride, s.v, n);
    LoopFits(it, s.local_stride, s.v, n);
    SumFeatures(g, g_cluster_offset, x, n, k, g_labels, start, bound, step, s.v, 0, p, s.LoopOf(gid, n));
  }

  method LaunchClusterMerge(g: array<real>, x: seq<real>, n: nat, p: nat, k: nat, g_labels: seq<int>, s: Launch)
    requires s.Valid(n) && k > 0 && |x| == n * p && |g_labels| == n && Labels(g_labels, k)
    requires s.Size() * (k * p) <= g.Length
    modifies g
    ensures k * p >= 0 && Tiles(g[..], k * p, Ids(s.Size()), FeatureTiles(s, x, n, g_labels, k))
  {
    hide Part, Holding, Labels, OnlyWithin, FeatureParts, Tiles;
    Product(k, p);
    var todo := Ids(s.Size());
    NoTiles(g[..], k * p, FeatureTiles(s, x, n, g_labels, k));
    while todo != {}
      invariant todo <= Ids(s.Size())
      invariant Tiles(g[..], k * p, Ids(s.Size()) - todo, FeatureTiles(s, x, n, g_labels, k))
      decreases todo
    {
      var gid :| gid in todo;
      ghost var was := g[..];
      ClusterMergeItem(g, x, n, p, k, g_labels, s, gid);
      TileWritten(g[..], was, k * p, Ids(s.Size()) - todo, gid, FeatureTiles(s, x, n, g_labels, k));
      assert Ids(s.Size()) - todo + {gid} == Ids(s.Size()) - (todo - {gid});
      todo := todo - {gid};
    }
    assert Ids(s.Size()) - {} == Ids(s.Size());
  }

  /** The centroid update by cluster merging. */
  method UpdateByClusterMerge(centroids: array<real>, tmp: array<real>, x: seq<real>, n: nat, p: nat, k: nat,
                              g_labels: seq<int>, s: Launch)
    returns (completed: bool)
    requires s.Valid(n) && k > 0 && p > 0 && |x| == n * p && |g_labels| == n && Labels(g_labels, k)
    requires 0 < k * p && 0 < (k * p) * s.Size() <= tmp.Length && centroids.Length == k * p && centroids != tmp
    modifies centroids, tmp
    ensures completed <==> RunsThrough((k * p) * s.Size(), k * p)
    ensures !completed ==> centroids[..] == old(centroids[..])
    ensures Reduces(k * p, s.Size()) ==>
              completed
                && forall t :: 0 <= t < k * p ==> centroids[t] == old(centroids[t]) + TakenSums(s, x, g_labels, k)(t)
  {
    hide Part, Labels, Tiles, RowSum, RunsThrough, Reduces, TakenSums, Reduced;
    LaunchClusterMerge(tmp, x, n, p, k, g_labels, s);
    ghost var tiles := tmp[..];
    forall t | 0 <= t < k * p
      ensures RowSum(tiles, k * p, s.Size(), t) == TakenSums(s, x, g_labels, k)(t)
    {
      FeatureTilesAddUp(s, x, n, p, g_labels, k, tiles, t);
    }
    completed := AddTiles(centroids, tmp, k * p, s.Size(), TakenSums(s, x, g_labels, k));
  }

  // ---------- feature sums, several work-items a tile ----------

  /** Work-item gid has written its stripe: W cells of the tile that it shares with C - 1 others. */
  ghost predicate Stripe(g: seq<real>, W: nat, C: nat, gid: nat, value: int -> int -> real)
    requires C > 0
  {
    && gid / C * (W * C) >= 0 && 0 <= W * (gid % C) <= W * (gid % C + 1)
    && Holding(g, gid / C * (W * C), W * (gid % C), W * (gid % C + 1), value(gid / C))
  }

  ghost predicate Stripes(g: seq<real>, W: nat, C: nat, done: set<nat>, value: int -> int -> real)
    requires C > 0
  {
    forall gid :: gid in done ==> Stripe(g, W, C, gid, value)
  }

  /** Stripes lie one after the other. */
  lemma StripeAt(W: nat, C: nat, gid: nat)
    requires C > 0
    ensures gid / C * (W * C) >= 0 && W * (gid % C) >= 0 && W * gid >= 0
    ensures gid / C * (W * C) + W * (gid % C) == W * gid
    ensures gid / C * (W * C) + W * (gid % C + 1) == W * gid + W
  {
    var q, r := gid / C, gid % C;
    Split(gid, C);
    Product(W, C);
    Product(q, W * C);
    Product(W, r);
    Product(W, gid);
    Product(C, q);
    Associate(W, C, q);
    assert q * (W * C) == W * (C * q);
    Distribute(W, C * q, r);
    Distribute(W, r, 1);
  }

  lemma StripeWritten(now: seq<real>, was: seq<real>, W: nat, C: nat, done: set<nat>, gid: nat,
                      value: int -> int -> real)
    requires C > 0 && Stripes(was, W, C, done, value) && Stripe(now, W, C, gid, value)
    requires OnlyWithin(now, was, gid / C * (W * C), W * (gid % C), W * (gid % C + 1))
    ensures Stripes(now, W, C, done + {gid}, value)
  {
    StripeAt(W, C, gid);
    forall other | other in done + {gid}
      ensures Stripe(now, W, C, other, value)
    {
      StripeAt(W, C, other);
      if other < gid {
        Monotone(other + 1, gid, W);
        Distribute(W, other, 1);
      } else if other > gid {
        Monotone(gid + 1, other, W);
        Distribute(W, gid, 1);
      }
    }
  }

  /** All stripes of a tile make up the tile. */
  lemma StripesMakeTiles(g: seq<real>, W: nat, C: nat, m: nat, value: int -> int -> real)
    requires C > 0 && Stripes(g, W, C, Ids(m * C), value) && m * (W * C) <= |g|
    ensures W * C >= 0 && Tiles(g, W * C, Ids(m), value)
  {
    Product(W, C);
    forall tile | tile in Ids(m)
      ensures tile * (W * C) >= 0 && Holding(g, tile * (W * C), 0, W * C, value(tile))
    {
      TileInside(tile, W * C, m);
      forall t: nat | t < W * C
        ensures g[tile * (W * C) + t] == value(tile)(t)
      {
        InOwnStripe(g, W, C, m, value, tile, t);
      }
    }
  }

  lemma InOwnStripe(g: seq<real>, W: nat, C: nat, m: nat, value: int -> int -> real, tile: nat, t: nat)
    requires C > 0 && Stripes(g, W, C, Ids(m * C), value) && m * (W * C) <= |g| && tile < m && t < W * C
    ensures 0 <= tile * (W * C) + t < |g| && g[tile * (W * C) + t] == value(tile)(t)
  {
    QuotientBelow(t, W, C);
    Split(t, W);
    var f := t / W;
    Product(tile, C);
    InMatrix(f, tile, C, m);
    var gid := f + C * tile;
    DivMod(C, tile, f);
    assert gid in Ids(m * C);
    assert Stripe(g, W, C, gid, value);
    TileInside(tile, W * C, m);
    Distribute(W, f, 1);
    assert Holding(g, tile * (W * C), W * f, W * (f + 1), value(tile));
  }

  /** A launch shape in which the blocks of points are those of the kernel that gives every feature to a work-item of
      its own: one item a block, the last block shorter. */
  function BlocksOf(blocks: nat): Launch {
    Launch(blocks, 1, true, 1)
  }

  /** No block size is too small for its share. */
  lemma BlocksAreComplete(blocks: nat, n: nat)
    requires blocks > 0
    ensures BlocksOf(blocks).Valid(n) && BlocksOf(blocks).Complete(n)
  {
    var it := Item(0, 0, blocks, 1);
    LocalCoversIff(it, 1, n);
    var b := (n + blocks - 1) / blocks;
    Split(n + blocks - 1, blocks);
    assert BlockSize(it, 1, n) == b;
    assert blocks * b == (n + blocks - 1) - (n + blocks - 1) % blocks;
  }

  /** The points that a work-item of that kernel sums up: those of its block, and none when it is behind all blocks. */
  ghost function BlockRange(blocks: nat, n: nat, block: nat): Loop
    requires blocks > 0 && BlocksOf(blocks).Valid(n)
  {
    if block < blocks then BlocksOf(blocks).LoopOf(block, n)
    else
      Product((n + blocks - 1) / blocks, block);
      Loop((n + blocks - 1) / blocks * block, 1, (n + blocks - 1) / blocks * block)
  }

  /** What it leaves of feature sums. */
  ghost function BlockTiles(blocks: nat, x: seq<real>, n: nat, lab: seq<int>, k: nat): int -> int -> real
    requires blocks > 0 && k > 0 && BlocksOf(blocks).Valid(n)
  {
    var inside := FeatureTiles(BlocksOf(blocks), x, n, lab, k);
    block => if 0 <= block < blocks then inside(block) else t => 0.0
  }

  /** One work-item of the kernel that sums a single feature over a block of points. */
  method FeatureSumItem(g: array<real>, x: seq<real>, n: nat, p: nat, k: nat, g_labels: seq<int>, gid: nat, blocks: nat)
    requires k > 0 && p > 0 && blocks > 0 && |x| == n * p && |g_labels| == n && Labels(g_labels, k)
    requires gid / p <= blocks && k * gid >= 0 && k * gid + k <= g.Length
    modifies g
    ensures BlocksOf(blocks).Valid(n)
    ensures Stripe(g[..], k, p, gid, BlockTiles(blocks, x, n, g_labels, k))
    ensures OnlyWithin(g[..], old(g[..]), gid / p * (k * p), k * (gid % p), k * (gid % p + 1))
  {
    hide Part, Labels, FeatureParts, Holding, OnlyWithin;
    BlocksAreComplete(blocks, n);
    Split(gid, p);
    var feature, point_block := gid % p, gid / p;
    var num_local_points := (n + blocks - 1) / blocks;
    var num_real_local_points :=
      if num_local_points * (point_block + 1) <= n then num_local_points
      else if n > num_local_points * point_block then n - num_local_points * point_block
      else 0;
    BlockLoop(blocks, n, point_block, num_local_points, num_real_local_points);
    var point_offset := num_local_points * point_block;
    StripeAt(k, p, gid);
    Distribute(k, feature, 1);
    Product(k, feature);
    var centroid_offset := k * p * point_block;
    assert centroid_offset == gid / p * (k * p);
    Monotone(feature + 1, p, n);
    ZeroTile(g, centroid_offset, k * feature, k * (feature + 1));
    ghost var zeroed := g[..];
    ghost var l := BlockRange(blocks, n, point_block);
    SumFeatures(g, centroid_offset, x, n, k, g_labels, point_offset, point_offset + num_real_local_points, 1, 1,
                feature, feature + 1, l);
    WithinTwice(g[..], zeroed, old(g[..]), centroid_offset, k * feature, k * (feature + 1));
    BlockSums(g[..], centroid_offset, k * feature, k * (feature + 1), blocks, x, n, g_labels, k, point_block);
  }

  lemma BlockSums(g: seq<real>, off: nat, lo: nat, hi: nat, blocks: nat, x: seq<real>, n: nat, lab: seq<int>, k: nat,
                  block: nat)
    requires blocks > 0 && k > 0 && |lab| == n && BlocksOf(blocks).Valid(n) && BlockRange(blocks, n, block).stride > 0
    requires Holding(g, off, lo, hi, FeatureParts(BlockRange(blocks, n, block), 1, x, n, lab, k, n))
    ensures Holding(g, off, lo, hi, BlockTiles(blocks, x, n, lab, k)(block))
  {
    hide Part;
    if block >= blocks {
      forall t: nat
        ensures Part(BlockRange(blocks, n, block), 1, Feature(x, n, lab, k, t), n) == 0.0
      {
        NothingOwned(BlockRange(blocks, n, block), Feature(x, n, lab, k, t), n);
      }
    }
  }

  lemma NothingOwned(l: Loop, f: int -> real, n: nat)
    requires l.stride == 1 && l.bound == l.first
    ensures Part(l, 1, f, n) == 0.0
  {
    forall q: int
      ensures !Owns(l, 1, q)
    {
      assert q / 1 == q;
    }
    SumOfZeros(n, q => if Owns(l, 1, q) then f(q) else 0.0);
  }

  lemma WithinTwice(c: seq<real>, b: seq<real>, a: seq<real>, off: nat, lo: nat, hi: nat)
    requires OnlyWithin(c, b, off, lo, hi) && OnlyWithin(b, a, off, lo, hi)
    ensures OnlyWithin(c, a, off, lo, hi)
  {
  }

  /** The block of points of a work-item is the range of one loop. */
  lemma BlockLoop(blocks: nat, n: nat, block: nat, size: nat, real_size: nat)
    requires blocks > 0 && block <= blocks && size == (n + blocks - 1) / blocks
    requires real_size == if size * (block + 1) > n then (if n > size * block then n - size * block else 0) else size
    ensures BlocksOf(blocks).Valid(n)
    ensures var l := BlockRange(blocks, n, block);
            l.first == size * block >= 0 && l.stride == 1 && l.bound == size * block + real_size && Fits(l, 1, n)
  {
    hide Inside, BlockRange, Fits;
    BlocksAreComplete(blocks, n);
    Distribute(size, block, 1);
    Product(size, block);
    if block < blocks {
      InsideBlock(blocks, n, block, size, size * block);
    } else {
      BehindLast(blocks, n, size, size * block);
    }
  }

  lemma BehindLast(blocks: nat, n: nat, size: nat, begin: nat)
    requires blocks > 0 && size == (n + blocks - 1) / blocks && begin == size * blocks && BlocksOf(blocks).Valid(n)
    ensures begin >= n && BlockRange(blocks, n, blocks) == Loop(begin, 1, begin)
            && Fits(BlockRange(blocks, n, blocks), 1, n)
  {
    Split(n + blocks - 1, blocks);
  }

  lemma InsideBlock(blocks: nat, n: nat, block: nat, size: nat, begin: nat)
    requires block < blocks && size == (n + blocks - 1) / blocks && begin == size * block && BlocksOf(blocks).Valid(n)
    ensures var l := BlockRange(blocks, n, block);
            l == Loop(begin, 1, begin + RealBlockSize(begin, size, n)) && Fits(l, 1, n)
  {
    hide Inside, Fits;
    var it := BlocksOf(blocks).ItemOf(block);
    assert it.group == block && it.lid == 0 by {
      DivMod(1, block, 0);
    }
    assert BlockSize(it, 1, n) == size;
    assert block * size == begin;
    LocalFits(it, 1, n);
  }

  lemma NoStripes(g: seq<real>, W: nat, C: nat, value: int -> int -> real)
    requires C > 0
    ensures forall ids: set<nat> :: Stripes(g, W, C, ids - ids, value)
  {
  }

  /** The centroid update with a work-item for every feature of every block of points.  Work-items behind the last whole
      block leave zeros, and the host reduces all cells. */
  method UpdateByFeatureSum(centroids: array<real>, tmp: array<real>, x: seq<real>, n: nat, p: nat, k: nat,
                            g_labels: seq<int>, global_size: nat)
    returns (completed: bool)
    requires k > 0 && p > 0 && |x| == n * p && |g_labels| == n && Labels(g_labels, k)
    requires p <= global_size && 0 < k * p <= k * global_size <= tmp.Length
    requires centroids.Length == k * p && centroids != tmp
    modifies centroids, tmp
    ensures completed <==> RunsThrough(k * global_size, k * p)
    ensures !completed ==> centroids[..] == old(centroids[..])
    ensures SumsRight(global_size, p, k) ==>
              completed
                && forall t :: 0 <= t < k * p ==> centroids[t] == old(centroids[t]) + Totals(x, n, p, g_labels, k)(t)
  {
    hide Part, Labels, Tiles, RowSum, RunsThrough, Total, Stripe, Stripes, OnlyWithin, BlockTiles, Reduced, SumsRight;
    var num_point_blocks := global_size / p;
    LaunchSizes(global_size, p, k);
    BlocksAreComplete(num_point_blocks, n);
    ghost var value := BlockTiles(num_point_blocks, x, n, g_labels, k);
    var todo := Ids(global_size);
    NoStripes(tmp[..], k, p, value);
    while todo != {}
      modifies tmp
      invariant todo <= Ids(global_size)
      invariant Stripes(tmp[..], k, p, Ids(global_size) - todo, value)
      decreases todo
    {
      var gid :| gid in todo;
      ghost var was := tmp[..];
      ItemInside(gid, global_size, p, k);
      FeatureSumItem(tmp, x, n, p, k, g_labels, gid, num_point_blocks);
      StripeWritten(tmp[..], was, k, p, Ids(global_size) - todo, gid, value);
      assert Ids(global_size) - todo + {gid} == Ids(global_size) - (todo - {gid});
      todo := todo - {gid};
    }
    assert Ids(global_size) - {} == Ids(global_size);
    ghost var tiles := tmp[..];
    completed := ReduceAndAdd(centroids, tmp, k * p, num_point_blocks, k * global_size);
    if SumsRight(global_size, p, k) {
      FeatureSumsLeft(tiles, x, n, p, k, g_labels, global_size);
    }
  }

  /** The reduction of all cells of such a launch is right, whatever the tiles hold. */
  ghost predicate SumsRight(global_size: nat, p: nat, k: nat)
    requires 0 < p <= global_size && k > 0
  {
    LaunchSizes(global_size, p, k);
    RunsThrough(k * global_size, k * p) && AddsUp(k * global_size / 2, k * p, global_size / p)
  }

  /** It is if and only if the features divide the launch and the tiles reduce, or the rows divide the reducing
      work-group, all cells fit it, and there is one block, or a power of two of blocks and one cell more. */
  lemma SumsRightIff(global_size: nat, p: nat, k: nat)
    requires 0 < p <= global_size && k > 0
    ensures k * p > 0 && (k * p) * (global_size / p) >= 0 && k * (global_size % p) >= 0 && k * global_size >= 0
    ensures SumsRight(global_size, p, k) <==>
            if global_size % p == 0 then Reduces(k * p, global_size / p)
            else && FitsGroup(k * p) && k * global_size <= 2 * WORKGROUP_SIZE
                 && (global_size / p == 1 || (IsPow2(global_size / p) && k * (global_size % p) == 1))
  {
    hide AddsUp, RunsThrough, Reduces, FitsGroup, IsPow2;
    LaunchSizes(global_size, p, k);
    RightIff(k * p, global_size / p, k * (global_size % p));
    if global_size % p == 0 {
      assert k * 0 == 0;
    } else {
      Monotone(1, global_size % p, k);
    }
  }

  /** One cluster, four features and ten work-items: the host accepts the launch, and the sums are wrong. */
  lemma SomeFeatureSumsAreWrong()
    ensures RunsThrough(1 * 10, 1 * 4) && !SumsRight(10, 4, 1)
  {
    SomeSumsAreWrong();
  }

  lemma FeatureSumsLeft(tiles: seq<real>, x: seq<real>, n: nat, p: nat, k: nat, lab: seq<int>, global_size: nat)
    requires 0 < p <= global_size && k > 0 && |lab| == n && 0 < k * p && 0 <= k * global_size <= |tiles|
    requires global_size / p > 0 && BlocksOf(global_size / p).Valid(n)
    requires Stripes(tiles, k, p, Ids(global_size), BlockTiles(global_size / p, x, n, lab, k))
    requires SumsRight(global_size, p, k)
    ensures RunsThrough(k * global_size, k * p)
    ensures forall t: nat :: t < k * p ==> Reduced(tiles, k * global_size, k * p)(t) == Totals(x, n, p, lab, k)(t)
  {
    hide Chain, AddsUp, RunsThrough, RowSum, Tiles, Total, Stripes;
    var blocks := global_size / p;
    var s := BlocksOf(blocks);
    LaunchSizes(global_size, p, k);
    BlocksAreComplete(blocks, n);
    WholeTiles(tiles, k, p, blocks, global_size, BlockTiles(blocks, x, n, lab, k), FeatureTiles(s, x, n, lab, k));
    forall t: nat | t < k * p
      ensures RowSum(tiles, k * p, blocks, t) == Totals(x, n, p, lab, k)(t)
    {
      FeatureTilesAddUp(s, x, n, p, lab, k, tiles, t);
      CompleteTakesAll(s, lab, x, lab, k, p);
    }
    RestIsZero(tiles, k, p, blocks, global_size, BlockTiles(blocks, x, n, lab, k));
    SumsAreLeft(tiles, k * global_size, k * p, blocks);
  }

  lemma WholeTiles(g: seq<real>, k: nat, p: nat, blocks: nat, global_size: nat, value: int -> int -> real,
                   inside: int -> int -> real)
    requires p > 0 && 0 <= blocks * p <= global_size && 0 <= blocks * (k * p) <= |g|
    requires Stripes(g, k, p, Ids(global_size), value) && forall b :: 0 <= b < blocks ==> value(b) == inside(b)
    ensures k * p >= 0 && Tiles(g, k * p, Ids(blocks), inside)
  {
    hide Holding, Stripe;
    assert Stripes(g, k, p, Ids(blocks * p), value);
    StripesMakeTiles(g, k, p, blocks, value);
  }

  /** Behind the whole tiles there are zeros. */
  lemma RestIsZero(g: seq<real>, k: nat, p: nat, blocks: nat, global_size: nat, value: int -> int -> real)
    requires p > 0 && k > 0 && 0 <= (k * p) * blocks <= k * global_size <= |g| && blocks == global_size / p
    requires Stripes(g, k, p, Ids(global_size), value) && forall t :: value(blocks)(t) == 0.0
    ensures forall i :: (k * p) * blocks <= i < k * global_size ==> g[i] == 0.0
  {
    forall i | (k * p) * blocks <= i < k * global_size
      ensures g[i] == 0.0
    {
      RestCell(g, k, p, blocks, global_size, value, i);
    }
  }

  lemma RestCell(g: seq<real>, k: nat, p: nat, blocks: nat, global_size: nat, value: int -> int -> real, i: nat)
    requires p > 0 && k > 0 && 0 <= (k * p) * blocks <= i < k * global_size <= |g| && blocks == global_size / p
    requires Stripes(g, k, p, Ids(global_size), value) && forall t :: value(blocks)(t) == 0.0
    ensures g[i] == 0.0
  {
    var gid := i / k;
    Split(i, k);
    QuotientBelow(i, k, global_size);
    assert gid in Ids(global_size);
    assert Stripe(g, k, p, gid, value);
    StripeAt(k, p, gid);
    Split(global_size, p);
    Associate(k, p, blocks);
    Product(p, blocks);
    VectorFrom(i, k, p * blocks);
    InLastBlock(gid, p, blocks, global_size);
  }

  lemma InLastBlock(gid: nat, p: nat, blocks: nat, global_size: nat)
    requires p > 0 && p * blocks <= gid < global_size && blocks == global_size / p
    ensures gid / p == blocks
  {
    Split(global_size, p);
    DivMod(p, blocks, gid - p * blocks);
  }

  lemma LaunchSizes(global_size: nat, p: nat, k: nat)
    requires 0 < p <= global_size && k > 0
    ensures var blocks := global_size / p;
            && blocks > 0 && k * p > 0 && 0 <= blocks * p <= global_size
            && 0 < (k * p) * blocks == blocks * (k * p) <= k * global_size
            && k * global_size == (k * p) * blocks + k * (global_size % p) && k * (global_size % p) < k * p
            && k * (global_size % p) >= 0
  {
    var blocks, r := global_size / p, global_size % p;
    Split(global_size, p);
    Monotone(1, p, k);
    Associate(k, p, blocks);
    Distribute(k, p * blocks, r);
    Monotone(r + 1, p, k);
    Distribute(k, r, 1);
    Product(k, r);
    if blocks == 0 {
      assert false;
    }
    Monotone(1, blocks, k * p);
  }

  lemma ItemInside(gid: nat, global_size: nat, p: nat, k: nat)
    requires p > 0 && gid < global_size
    ensures 0 <= gid / p <= global_size / p && 0 <= k * gid && k * gid + k <= k * global_size
  {
    Split(gid, p);
    Split(global_size, p);
    if gid / p > global_size / p {
      Monotone(global_size / p + 1, gid / p, p);
      Distribute(p, global_size / p, 1);
    }
    Product(k, gid);
    Monotone(gid + 1, global_size, k);
    Distribute(k, gid, 1);
  }

  /** One work-item of the two-dimensional launch: row `row` strides over the points, column `col` keeps `width` of the
      features. */
  method ParDimItem(g: array<real>, x: seq<real>, n: nat, p: nat, k: nat, g_labels: seq<int>, s: Launch, row: nat,
                    col: nat, num_col_tiles: nat, width: nat)
    requires s.Valid(n) && k > 0 && |x| == n * p && |g_labels| == n && Labels(g_labels, k)
    requires row < s.Size() && col < num_col_tiles && p == num_col_tiles * width && s.Size() * (k * p) <= g.Length
    modifies g
    ensures ParDimCells(g[..], row, col, k, width, num_col_tiles, FeatureTiles(s, x, n, g_labels, k))
    ensures 0 <= width * col && 0 <= k * (width * col) <= k * (width * (col + 1)) && row * (k * p) >= 0
    ensures OnlyWithin(g[..], old(g[..]), row * (k * p), k * (width * col), k * (width * (col + 1)))
  {
    hide Part, Labels, FeatureParts, Holding, OnlyWithin;
    var it := s.ItemOf(row);
    Product(width, col);
    var g_feature_base := width * col;
    Distribute(width, col, 1);
    Monotone(col + 1, num_col_tiles, width);
    Monotone(width * col, width * (col + 1), k);
    Monotone(width * (col + 1), p, k);
    Monotone(width * (col + 1), p, n);
    Product(k, p);
    TileInside(row, k * p, s.Size());
    Product(k, width * col);
    var g_cluster_offset := num_col_tiles * row * width * k;
    ClusterOffset(num_col_tiles, row, width, k, p);
    ZeroTile(g, g_cluster_offset, k * g_feature_base, k * (g_feature_base + width));
    ghost var zeroed := g[..];
    var start, bound, step := StartLoop(it, s.local_stride, s.v, n);
    LoopFits(it, s.local_stride, s.v, n);
    SumFeatures(g, g_cluster_offset, x, n, k, g_labels, start, bound, step, s.v, g_feature_base, g_feature_base + width,
                s.LoopOf(row, n));
    WithinTwice(g[..], zeroed, old(g[..]), g_cluster_offset, k * g_feature_base, k * (g_feature_base + width));
  }

  lemma ClusterOffset(cols: nat, row: nat, width: nat, k: nat, p: nat)
    requires p == cols * width
    ensures cols * row * width * k == row * (k * p) >= 0
  {
    assert cols * row * width == row * p by {
      Associate(row, cols, width);
    }
    Associate(row, p, k);
    Product(p, k);
    Product(row, k * p);
  }

  ghost predicate ParDimCells(g: seq<real>, row: nat, col: nat, k: nat, width: nat, cols: nat,
                              value: int -> int -> real) {
    && row * (k * (cols * width)) >= 0 && 0 <= k * (width * col) <= k * (width * (col + 1))
    && Holding(g, row * (k * (cols * width)), k * (width * col), k * (width * (col + 1)), value(row))
  }

  /** Work-item (row, col) writes stripe number row * cols + col, of width * k cells. */
  lemma ParDimStripe(row: nat, col: nat, k: nat, width: nat, cols: nat)
    requires col < cols
    ensures k * width >= 0 && 0 <= col + cols * row && (col + cols * row) / cols == row
            && (col + cols * row) % cols == col
    ensures row * (k * width * cols) == row * (k * (cols * width))
    ensures k * width * col == k * (width * col) && k * width * (col + 1) == k * (width * (col + 1))
  {
    Product(k, width);
    Product(cols, row);
    DivMod(cols, row, col);
    Associate(k, width, cols);
    Associate(k, width, col);
    Associate(k, width, col + 1);
  }

  /** The centroid update that also divides the features among work-items.  Its work-items wait for their group in every
      step of their loops, so all of them have to make the same steps. */
  method UpdateByParDim(centroids: array<real>, tmp: array<real>, x: seq<real>, n: nat, p: nat, k: nat,
                        g_labels: seq<int>, s: Launch, num_col_tiles: nat, width: nat)
    returns (completed: bool)
    requires s.Valid(n) && k > 0 && p > 0 && |x| == n * p && |g_labels| == n && Labels(g_labels, k)
    requires InStep(s.groups, s.local, s.local_stride, s.v, n)
    requires p == num_col_tiles * width && 0 < k * p && 0 < (k * p) * s.Size() <= tmp.Length
    requires centroids.Length == k * p && centroids != tmp
    modifies centroids, tmp
    ensures completed <==> RunsThrough((k * p) * s.Size(), k * p)
    ensures !completed ==> centroids[..] == old(centroids[..])
    ensures Reduces(k * p, s.Size()) ==>
              completed
                && forall t :: 0 <= t < k * p ==> centroids[t] == old(centroids[t]) + TakenSums(s, x, g_labels, k)(t)
  {
    hide Part, Labels, Tiles, RowSum, RunsThrough, Reduces, TakenSums, Reduced, Stripe, Stripes, OnlyWithin,
         FeatureTiles, Holding, InStep;
    ghost var value := FeatureTiles(s, x, n, g_labels, k);
    assert num_col_tiles > 0;
    Monotone(1, p, k);
    ghost var W := k * width;
    Product(s.Size(), num_col_tiles);
    var items := s.Size() * num_col_tiles;
    var todo := Ids(items);
    NoStripes(tmp[..], W, num_col_tiles, value);
    while todo != {}
      modifies tmp
      invariant todo <= Ids(items)
      invariant Stripes(tmp[..], W, num_col_tiles, Ids(items) - todo, value)
      decreases todo
    {
      var at :| at in todo;
      QuotientBelow(at, num_col_tiles, s.Size());
      Split(at, num_col_tiles);
      ghost var was := tmp[..];
      ParDimItem(tmp, x, n, p, k, g_labels, s, at / num_col_tiles, at % num_col_tiles, num_col_tiles, width);
      ParDimWritten(tmp[..], was, at, k, width, num_col_tiles, p, Ids(items) - todo, value);
      assert Ids(items) - todo + {at} == Ids(items) - (todo - {at});
      todo := todo - {at};
    }
    assert Ids(items) - {} == Ids(items);
    Associate(k, width, num_col_tiles);
    StripesMakeTiles(tmp[..], W, num_col_tiles, s.Size(), value);
    ghost var tiles := tmp[..];
    forall t | 0 <= t < k * p
      ensures RowSum(tiles, k * p, s.Size(), t) == TakenSums(s, x, g_labels, k)(t)
    {
      FeatureTilesAddUp(s, x, n, p, g_labels, k, tiles, t);
    }
    completed := AddTiles(centroids, tmp, k * p, s.Size(), TakenSums(s, x, g_labels, k));
  }

  lemma ParDimWritten(now: seq<real>, was: seq<real>, at: nat, k: nat, width: nat, cols: nat, p: nat, done: set<nat>,
                      value: int -> int -> real)
    requires cols > 0 && p == cols * width && k * width >= 0 && Stripes(was, k * width, cols, done, value)
    requires ParDimCells(now, at / cols, at % cols, k, width, cols, value)
    requires var row, col := at / cols, at % cols;
             OnlyWithin(now, was, row * (k * p), k * (width * col), k * (width * (col + 1)))
    ensures Stripes(now, k * width, cols, done + {at}, value)
  {
    hide Holding, OnlyWithin, Stripes;
    Split(at, cols);
    ParDimStripe(at / cols, at % cols, k, width, cols);
    StripeWritten(now, was, k * width, cols, done, at, value);
  }

  /** How the host is told to launch this kernel: the first dimension of the global size, both dimensions of the local
      size, features of a work-item, work-items of a group side by side, and points of a vector. */
  datatype ParDimConfig = ParDimConfig(global_size: nat, local_size_0: nat, local_size_1: nat, thread_features: nat,
                                       local_features: nat, v: nat)
  {
    predicate Valid() {
      thread_features > 0 && local_features > 0
    }

    function LocalFeatures(p: nat): nat {
      if local_features < p then local_features else p
    }

    /** Tiles of features, side by side. */
    function ColTiles(p: nat): nat
      requires Valid()
    {
      p / thread_features
    }

    function Rows(p: nat): nat
      requires Valid() && ColTiles(p) > 0
    {
      global_size / ColTiles(p)
    }

    function LocalRows(p: nat): nat
      requires Valid() && ColTiles(p) > 0
    {
      if ColTiles(p) == 1 then local_size_0 else local_size_0 / LocalFeatures(p)
    }

    function LocalCols(p: nat): nat
      requires Valid() && ColTiles(p) > 0
    {
      if ColTiles(p) == 1 then local_size_1 else LocalFeatures(p)
    }

    /** The assertions of the host hold, and whole work-groups make up the launch. */
    predicate Accepted(p: nat)
      requires Valid()
    {
      && p > 0 && ColTiles(p) > 0 && p % (thread_features * LocalFeatures(p)) == 0
      && Rows(p) > 0 && LocalRows(p) > 0 && LocalCols(p) > 0
      && Rows(p) % LocalRows(p) == 0 && ColTiles(p) % LocalCols(p) == 0
    }

    /** The rows of the launch. */
    function RowLaunch(p: nat, local_stride: bool): Launch
      requires Valid() && Accepted(p)
    {
      Launch(Rows(p) / LocalRows(p), LocalRows(p), local_stride, v)
    }
  }

  /** An accepted launch splits all features among its columns, and none of its groups is cut off. */
  lemma AcceptedLaunch(c: ParDimConfig, p: nat, local_stride: bool)
    requires c.Valid() && c.Accepted(p)
    ensures p == c.ColTiles(p) * c.thread_features && c.RowLaunch(p, local_stride).Size() == c.Rows(p) > 0
  {
    var f := c.LocalFeatures(p);
    Product(c.thread_features, f);
    Split(p, c.thread_features * f);
    Associate(c.thread_features, f, p / (c.thread_features * f));
    DivMod(c.thread_features, f * (p / (c.thread_features * f)), 0);
    Split(c.Rows(p), c.LocalRows(p));
  }

  /** A two-dimensional launch that keeps to what the host was told: `tiles` columns have all features between them;
      with one column, groups are just as large as they were told to be and make up the whole launch; with several, they
      have the local features side by side and as many rows as fit into the local size, and there are as many rows as
      fit into the global size. */
  ghost predicate Splits(c: ParDimConfig, p: nat, tiles: nat, groups: nat, local: nat) {
    && groups > 0 && local > 0 && tiles > 0 && tiles * c.thread_features == p
    && groups * local * tiles <= c.global_size < (groups * local + 1) * tiles
    && var side := if c.local_features < p then c.local_features else p;
       && (exists m: nat :: m * side == tiles)
       && if tiles == 1 then local == c.local_size_0 && c.local_size_1 == 1
          else local * side <= c.local_size_0 < (local + 1) * side
  }

  /** The quotient is the number whose multiple by d fits. */
  lemma QuotientFits(t: nat, d: nat, q: nat)
    requires d > 0
    ensures q == t / d <==> q * d <= t < (q + 1) * d
  {
    Split(t, d);
    assert q * d == d * q && (q + 1) * d == d * q + d by {
      Distribute(d, q, 1);
    }
    if q * d <= t < (q + 1) * d {
      DivMod(d, q, t - d * q);
    }
  }

  /** Multiples leave no remainder. */
  lemma DividesIff(t: nat, d: nat)
    requires d > 0
    ensures t % d == 0 <==> exists m: nat :: m * d == t
  {
    Split(t, d);
    if t % d == 0 {
      assert t / d * d == t;
    }
    if m: nat :| m * d == t {
      DivMod(d, m, 0);
    }
  }

  /** What is known of an accepted launch: its sizes are those of such a launch. */
  lemma AcceptedSplits(c: ParDimConfig, p: nat)
    requires c.Valid() && c.Accepted(p)
    ensures Splits(c, p, c.ColTiles(p), c.Rows(p) / c.LocalRows(p), c.LocalRows(p))
  {
    var tiles, rows, local, side := c.ColTiles(p), c.Rows(p), c.LocalRows(p), c.LocalFeatures(p);
    AcceptedLaunch(c, p, false);
    QuotientFits(c.global_size, tiles, rows);
    TilesSide(p, c.thread_features, side, tiles);
    if tiles == 1 {
      assert c.local_size_1 == 1;
    } else {
      QuotientFits(c.local_size_0, side, local);
    }
    if rows / local == 0 {
      Split(rows, local);
    }
  }

  /** With whole tiles, the features split by side and width exactly if the tiles split by side. */
  lemma TilesSide(p: nat, width: nat, side: nat, tiles: nat)
    requires width > 0 && side > 0 && p == tiles * width
    ensures width * side > 0 && (p % (width * side) == 0 <==> exists m: nat :: m * side == tiles)
  {
    Monotone(1, side, width);
    DividesIff(p, width * side);
    if m: nat :| m * (width * side) == p {
      Associate(m, side, width);
      Cancelled(width, m * side, tiles);
    }
    if m: nat :| m * side == tiles {
      Associate(m, side, width);
      assert m * (width * side) == p;
    }
  }

  /** There is only one such launch, and the host accepts it. */
  lemma SplitsAccepted(c: ParDimConfig, p: nat, tiles: nat, groups: nat, local: nat)
    requires c.Valid() && Splits(c, p, tiles, groups, local)
    ensures c.Accepted(p) && tiles == c.ColTiles(p) && local == c.LocalRows(p) && groups == c.Rows(p) / c.LocalRows(p)
  {
    hide Splits;
    SplitsColumns(c, p, tiles, groups, local);
    SplitsRows(c, p, tiles, groups, local);
    Product(groups, local);
    Monotone(1, local, groups);
    DivMod(local, groups, 0);
  }

  lemma SplitsColumns(c: ParDimConfig, p: nat, tiles: nat, groups: nat, local: nat)
    requires c.Valid() && Splits(c, p, tiles, groups, local)
    ensures p > 0 && tiles == c.ColTiles(p) > 0 && p % (c.thread_features * c.LocalFeatures(p)) == 0
    ensures c.LocalCols(p) > 0 && c.ColTiles(p) % c.LocalCols(p) == 0 && groups > 0 && local > 0
  {
    Monotone(1, tiles, c.thread_features);
    DivMod(c.thread_features, tiles, 0);
    TilesSide(p, c.thread_features, c.LocalFeatures(p), tiles);
    DividesIff(tiles, c.LocalFeatures(p));
  }

  lemma SplitsRows(c: ParDimConfig, p: nat, tiles: nat, groups: nat, local: nat)
    requires c.Valid() && Splits(c, p, tiles, groups, local) && tiles == c.ColTiles(p) > 0 && p > 0
    ensures c.Rows(p) == groups * local && c.LocalRows(p) == local
  {
    Product(groups, local);
    QuotientFits(c.global_size, tiles, groups * local);
    if tiles != 1 {
      QuotientFits(c.local_size_0, c.LocalFeatures(p), local);
    }
  }

  /** The host accepts what it was told exactly if there is such a launch, and then it is the one that it makes. */
  lemma AcceptedIff(c: ParDimConfig, p: nat, local_stride: bool)
    requires c.Valid()
    ensures c.Accepted(p) <==> exists tiles, groups, local :: Splits(c, p, tiles, groups, local)
    ensures forall tiles, groups, local :: Splits(c, p, tiles, groups, local) ==>
              && c.Accepted(p) && tiles == c.ColTiles(p)
              && c.RowLaunch(p, local_stride) == Launch(groups, local, local_stride, c.v)
  {
    hide Splits;
    if c.Accepted(p) {
      AcceptedSplits(c, p);
    }
    forall tiles, groups, local | Splits(c, p, tiles, groups, local)
      ensures && c.Accepted(p) && tiles == c.ColTiles(p)
              && c.RowLaunch(p, local_stride) == Launch(groups, local, local_stride, c.v)
    {
      SplitsAccepted(c, p, tiles, groups, local);
    }
  }

  /** Where everything divides, groups are as large as they were told to be, and so is the launch. */
  lemma AsLargeAsTold(c: ParDimConfig, p: nat, local_stride: bool)
    requires c.Valid() && c.Accepted(p) && c.ColTiles(p) > 1
    requires c.local_size_0 % c.LocalFeatures(p) == 0 && c.global_size % c.ColTiles(p) == 0
    ensures var s := c.RowLaunch(p, local_stride);
            s.local * c.LocalFeatures(p) == c.local_size_0 && s.Size() * c.ColTiles(p) == c.global_size
  {
    AcceptedLaunch(c, p, local_stride);
    Split(c.local_size_0, c.LocalFeatures(p));
    Split(c.global_size, c.ColTiles(p));
  }

  /** Eight work-items in groups of four, two features of four side by side: one group of two rows. */
  lemma FourTilesAreAccepted()
    ensures var c := ParDimConfig(8, 4, 1, 1, 2, 1);
            c.Valid() && c.Accepted(4) && c.ColTiles(4) == 4 && c.RowLaunch(4, false) == Launch(1, 2, false, 1)
  {
  }

  /** The host's call: it derives a two-dimensional launch from what it was told, and stops if it cannot. */
  method UpdateFeatureSumPardim(centroids: array<real>, x: seq<real>, n: nat, p: nat, k: nat, g_labels: seq<int>,
                                c: ParDimConfig, local_stride: bool)
    returns (completed: bool)
    requires c.Valid() && k > 0 && |x| == n * p && |g_labels| == n && Labels(g_labels, k) && centroids.Length == k * p
    requires c.Accepted(p) ==> var s := c.RowLaunch(p, local_stride);
                               s.Valid(n) && InStep(s.groups, s.local, s.local_stride, s.v, n)
    modifies centroids
    ensures completed <==> c.Accepted(p) && 0 < (k * p) * c.Rows(p) && RunsThrough((k * p) * c.Rows(p), k * p)
    ensures !completed ==> centroids[..] == old(centroids[..])
    ensures c.Accepted(p) && k * p > 0 && Reduces(k * p, c.Rows(p)) ==>
              completed && forall t :: 0 <= t < k * p ==>
                centroids[t] == old(centroids[t]) + TakenSums(c.RowLaunch(p, local_stride), x, g_labels, k)(t)
  {
    hide RunsThrough, Reduces, TakenSums, InStep, Labels;
    if !c.Accepted(p) {
      return false;
    }
    AcceptedLaunch(c, p, local_stride);
    var num_feature_tiles, rows := c.ColTiles(p), c.Rows(p);
    var s := c.RowLaunch(p, local_stride);
    Monotone(1, p, k);
    Monotone(1, rows, k * p);
    var tmp := new real[(k * p) * rows](i => 0.0);
    completed := UpdateByParDim(centroids, tmp, x, n, p, k, g_labels, s, num_feature_tiles, c.thread_features);
  }

  // ---------- the fused kernel with private tiles ----------

  /** One work-item of the fused kernel: every step labels its points, counts them and adds them up. */
  method FusedItem(g_labels: array<int>, g_masses: array<real>, g: array<real>, x: seq<real>, n: nat, p: nat,
                   cen: array<Num>, k: nat, s: Launch, gid: nat, ghost cs: seq<Center>, ghost lab: seq<int>)
    requires s.Valid(n) && gid < s.Size() && s.Size() * k <= g_masses.Length && s.Size() * (k * p) <= g.Length
    requires g_masses != g && |x| == n * p && p > 0 && Holds(cen[..], cs, k, p) && HasLive(cs)
    requires g_labels.Length == n && |cs| == k && Centers(cs, p) && lab == Assign(Rows(x, n, p), cs, p)
    modifies g_labels, g_masses, g
    ensures Labelled(g_labels[..], old(g_labels[..]), lab, s.LoopOf(gid, n), s.v, n)
    ensures gid * k >= 0 && Holding(g_masses[..], gid * k, 0, k, MassTiles(s, lab, n)(gid))
    ensures OnlyWithin(g_masses[..], old(g_masses[..]), gid * k, 0, k)
    ensures k > 0 && gid * (k * p) >= 0 && Holding(g[..], gid * (k * p), 0, k * p, FeatureTiles(s, x, n, lab, k)(gid))
    ensures OnlyWithin(g[..], old(g[..]), gid * (k * p), 0, k * p)
  {
    hide Part, IsStep, Holding, Loaded, FeatureParts, MassParts, Owns, Labelled, OnlyWithin, HasLive, Assign, Holds;
    ShapeOfHolds(cen[..], cs, k, p);
    var it := s.ItemOf(gid);
    Product(k, p);
    TileInside(gid, k, s.Size());
    TileInside(gid, k * p, s.Size());
    Associate(gid, p, k);
    var g_cluster_offset := gid * p * k;
    assert g_cluster_offset == gid * (k * p);
    var g_masses_offset := gid * k;
    assert cen[..] == old(cen[..]);
    ZeroTile(g, g_cluster_offset, 0, k * p);
    ghost var zeroed := g[..];
    ZeroTile(g_masses, g_masses_offset, 0, k);
    ghost var zeroedMasses := g_masses[..];
    var start, bound, step := StartLoop(it, s.local_stride, s.v, n);
    LoopFits(it, s.local_stride, s.v, n);
    FusedLoop(g_labels, g_masses, g_masses_offset, g, g_cluster_offset, x, n, p, cen, k, start, bound, step, s.v, cs,
              lab,
              s.LoopOf(gid, n));
    WithinTwice(g[..], zeroed, old(g[..]), g_cluster_offset, 0, k * p);
    WithinTwice(g_masses[..], zeroedMasses, old(g_masses[..]), g_masses_offset, 0, k);
  }

  /** The fused kernel: labels, masses and feature sums of one assignment step, as far as the launch takes the
      points. */
  method UpdateFused(g_labels: array<int>, masses: array<real>, tmp_masses: array<real>, centroids: array<real>,
                     tmp: array<real>, x: seq<real>, n: nat, p: nat, cen: array<Num>, k: nat, s: Launch,
                     ghost cs: seq<Center>)
    returns (completed: bool)
    requires s.Valid(n) && KernelFits(p)
    requires |x| == n * p && Holds(cen[..], cs, k, p) && HasLive(cs) && g_labels.Length == n
    requires 0 < k * s.Size() <= tmp_masses.Length && 0 < k * p && 0 < (k * p) * s.Size() <= tmp.Length
    requires masses.Length == k && centroids.Length == k * p
    requires masses != tmp_masses && centroids != tmp && tmp != tmp_masses && masses != centroids
    requires masses != tmp && centroids != tmp_masses
    modifies g_labels, masses, tmp_masses, centroids, tmp
    ensures k > 0 && |cs| == k && Centers(cs, p)
    ensures var lab := Assign(Rows(x, n, p), cs, p); g_labels[..] == RelabelledBy(s, old(g_labels[..]), lab)
    ensures completed <==> RunsThrough((k * p) * s.Size(), k * p) && RunsThrough(k * s.Size(), k)
    ensures Reduces(k * p, s.Size()) && Reduces(k, s.Size()) ==>
              var lab := Assign(Rows(x, n, p), cs, p);
              && completed
              && (forall c :: 0 <= c < k ==> masses[c] == old(masses[c]) + TakenMasses(s, lab)(c))
              && (forall t :: 0 <= t < k * p ==> centroids[t] == old(centroids[t]) + TakenSums(s, x, lab, k)(t))
  {
    hide Part, Tiles, RowSum, RunsThrough, Reduces, TakenMasses, TakenSums, Reduced, Holds, HasLive, Assign,
         FeatureTiles, MassTiles, Owner, RelabelledBy;
    ShapeOfHolds(cen[..], cs, k, p);
    ghost var lab := Assign(Rows(x, n, p), cs, p);
    LaunchFused(g_labels, tmp_masses, tmp, x, n, p, cen, k, s, cs, lab);
    ghost var tiles, massTiles := tmp[..], tmp_masses[..];
    forall t | 0 <= t < k * p
      ensures RowSum(tiles, k * p, s.Size(), t) == TakenSums(s, x, lab, k)(t)
    {
      FeatureTilesAddUp(s, x, n, p, lab, k, tiles, t);
    }
    forall c | 0 <= c < k
      ensures RowSum(massTiles, k, s.Size(), c) == TakenMasses(s, lab)(c)
    {
      MassTilesAddUp(s, lab, n, k, massTiles, c);
    }
    var first := AddTiles(centroids, tmp, k * p, s.Size(), TakenSums(s, x, lab, k));
    completed := AddTiles(masses, tmp_masses, k, s.Size(), TakenMasses(s, lab));
    completed := first && completed;
  }

  /** Launches the fused kernel in any order of the work-items. */
  method LaunchFused(g_labels: array<int>, g_masses: array<real>, g: array<real>, x: seq<real>, n: nat, p: nat,
                     cen: array<Num>, k: nat, s: Launch, ghost cs: seq<Center>, ghost lab: seq<int>)
    requires s.Valid(n) && s.Size() * k <= g_masses.Length && s.Size() * (k * p) <= g.Length
    requires g_masses != g && |x| == n * p && p > 0 && Holds(cen[..], cs, k, p) && HasLive(cs)
    requires g_labels.Length == n && |cs| == k && Centers(cs, p) && lab == Assign(Rows(x, n, p), cs, p)
    modifies g_labels, g_masses, g
    ensures g_labels[..] == RelabelledBy(s, old(g_labels[..]), lab)
    ensures Tiles(g_masses[..], k, Ids(s.Size()), MassTiles(s, lab, n))
    ensures k > 0 && k * p >= 0 && Tiles(g[..], k * p, Ids(s.Size()), FeatureTiles(s, x, n, lab, k))
  {
    hide Part, Tiles, Holds, HasLive, Assign, FeatureTiles, MassTiles, OnlyWithin, Owns, Holding, Owner;
    ShapeOfHolds(cen[..], cs, k, p);
    Product(k, p);
    assert cen[..] == old(cen[..]);
    ghost var first := g_labels[..];
    OwnersExist(s, n);
    var todo := Ids(s.Size());
    NoTiles(g[..], k * p, FeatureTiles(s, x, n, lab, k));
    NoTiles(g_masses[..], k, MassTiles(s, lab, n));
    while todo != {}
      invariant todo <= Ids(s.Size())
      invariant Tiles(g[..], k * p, Ids(s.Size()) - todo, FeatureTiles(s, x, n, lab, k))
      invariant Tiles(g_masses[..], k, Ids(s.Size()) - todo, MassTiles(s, lab, n))
      invariant LabelledBut(g_labels[..], first, lab, s, todo)
      decreases todo
    {
      var gid :| gid in todo;
      ghost var was, wasMasses, wasLabels := g[..], g_masses[..], g_labels[..];
      FusedItem(g_labels, g_masses, g, x, n, p, cen, k, s, gid, cs, lab);
      TileWritten(g[..], was, k * p, Ids(s.Size()) - todo, gid, FeatureTiles(s, x, n, lab, k));
      TileWritten(g_masses[..], wasMasses, k, Ids(s.Size()) - todo, gid, MassTiles(s, lab, n));
      MoreLabelled(g_labels[..], wasLabels, first, lab, s, gid, todo);
      assert Ids(s.Size()) - todo + {gid} == Ids(s.Size()) - (todo - {gid});
      todo := todo - {gid};
    }
    assert Ids(s.Size()) - {} == Ids(s.Size());
    assert g_labels[..] == RelabelledBy(s, first, lab);
  }
}
