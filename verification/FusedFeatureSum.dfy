/** The fused kernel whose work-items divide the work in two ways: point by point while they label, and then, behind a
    barrier, feature by feature for blocks of the points that the whole work-group has just labelled. */
module FusedFeatureSum {
  import opened Sums
  import opened Clustering
  import opened Numbers
  import opened ColumnMajor
  import opened Indices
  import opened Strides
  import opened Kernels
  import opened Stages
  import opened ReduceVectorParcol
  import opened KernelChoice
  import R = RStatsKmeans

  /** A launch with global strides, for p features and k clusters, ntf features a thread. */
  datatype Shape = Shape(groups: nat, local: nat, v: nat, p: nat, k: nat, ntf: nat) {
    /** Threads that share a block of points. */
    function BlockSize(): nat
      requires ntf > 0
    {
      p / ntf
    }

    function Blocks(): nat
      requires ntf > 0 && BlockSize() > 0
    {
      local / BlockSize()
    }

    ghost predicate Valid() {
      && groups > 0 && v > 0 && k > 0 && ntf > 0
      && BlockSize() > 0 && local > 0 && local % BlockSize() == 0
    }

    function Launch(): Launch {
      Stages.Launch(groups, local, false, v)
    }

    function GlobalSize(): nat {
      groups * local
    }

    /** Rows of the local matrix of feature sums: the features of every block. */
    function Rows(): nat
      requires ntf > 0 && BlockSize() > 0
    {
      p * Blocks()
    }
  }

  /** A work-group is made up of whole blocks. */
  lemma WholeBlocks(s: Shape)
    requires s.Valid()
    ensures s.local == s.BlockSize() * s.Blocks() && s.Blocks() > 0 && s.p > 0
  {
    Split(s.local, s.BlockSize());
    Split(s.p, s.ntf);
  }

  // ---------- who adds which point ----------

  /** The tile that point q is added to: the block of its owner, counted over all work-groups. */
  ghost function TileOwner(s: Shape, n: nat): int -> int
    requires s.Valid() && s.v <= n + 1
  {
    q => if Owner(s.Launch(), n)(q) < 0 then -1 else Owner(s.Launch(), n)(q) / s.BlockSize()
  }

  /** The tile of block b of a work-group. */
  function Tile(s: Shape, group: nat, b: nat): nat
    requires s.ntf > 0 && s.BlockSize() > 0
  {
    group * s.Blocks() + b
  }

  lemma TileOwnerIs(s: Shape, n: nat, q: nat)
    requires s.Valid() && s.v <= n + 1
    ensures s.GlobalSize() > 0
    ensures TileOwner(s, n)(q) == if s.v * (q / s.v) + s.v <= n then q / s.v % s.GlobalSize() / s.BlockSize() else -1
  {
    Monotone(1, s.local, s.groups);
    assert Owner(s.Launch(), n)(q) == if s.v * (q / s.v) + s.v <= n then q / s.v % s.GlobalSize() else -1;
    Split(q / s.v, s.GlobalSize());
  }

  /** Where round t of a work-group starts, in vectors. */
  ghost function Base(s: Shape, group: nat, t: nat): nat {
    s.local * group + s.GlobalSize() * t
  }

  /** Vectors per round: a work-group handles s.local of them, then the other work-groups have their turns. */
  lemma RoundResidue(s: Shape, group: nat, t: nat, w: nat)
    requires s.Valid() && group < s.groups && Base(s, group, t) <= w < Base(s, group, t) + s.GlobalSize()
    ensures s.GlobalSize() > 0
    ensures var u, gid := w - Base(s, group, t), w % s.GlobalSize();
            if u < s.local then gid == s.local * group + u
            else gid < s.local * group || gid >= s.local * group + s.local
  {
    var gs := s.GlobalSize();
    Monotone(1, s.local, s.groups);
    Product(s.local, group);
    Monotone(group + 1, s.groups, s.local);
    Distribute(s.local, group, 1);
    var r := s.local * group + (w - Base(s, group, t));
    if r < gs {
      DivMod(gs, t, r);
    } else {
      Distribute(gs, t, 1);
      DivMod(gs, t + 1, r - gs);
    }
  }

  /** Ids of the threads of block b of a work-group: a run of BlockSize ids. */
  lemma BlockIds(s: Shape, group: nat, b: nat, gid: nat)
    requires s.Valid() && b < s.Blocks()
    ensures var from := s.local * group + s.BlockSize() * b;
            gid / s.BlockSize() == Tile(s, group, b) <==> 0 <= from <= gid < from + s.BlockSize()
    ensures s.BlockSize() * b + s.BlockSize() <= s.local
  {
    var d := s.BlockSize();
    WholeBlocks(s);
    Associate(d, s.Blocks(), group);
    Product(s.Blocks(), group);
    Distribute(d, s.Blocks() * group, b);
    Product(d, s.Blocks() * group + b);
    Monotone(b + 1, s.Blocks(), d);
    Distribute(d, b, 1);
    var from := d * Tile(s, group, b);
    Split(gid, d);
    if from <= gid < from + d {
      DivMod(d, Tile(s, group, b), gid - from);
    }
  }

  /** In a round of a work-group, block b adds the points of its own run of vectors, as far as there are whole ones. */
  lemma TileOwnerInRound(s: Shape, n: nat, group: nat, t: nat, b: nat, q: nat)
    requires s.Valid() && s.v <= n + 1 && group < s.groups && b < s.Blocks()
    requires Base(s, group, t) <= q / s.v < Base(s, group, t) + s.GlobalSize()
    ensures var w, from := q / s.v, Base(s, group, t) + s.BlockSize() * b;
            TileOwner(s, n)(q) == Tile(s, group, b) <==> s.v * w + s.v <= n && 0 <= from <= w < from + s.BlockSize()
  {
    hide TileOwner;
    var w := q / s.v;
    RoundResidue(s, group, t, w);
    Product(s.BlockSize(), b);
    Product(s.local, group);
    Product(group, s.Blocks());
    BlockIds(s, group, b, w % s.GlobalSize());
    TileOwnerIs(s, n, q);
  }

  // ---------- progress of a block ----------

  /** What a block has to have added from the points before m. */
  ghost function Added(s: Shape, n: nat, tile: int, f: int -> real, m: nat): real
    requires s.Valid() && s.v <= n + 1
  {
    Share(m, TileOwner(s, n), tile, f)
  }

  lemma AddedIdle(s: Shape, n: nat, tile: int, f: int -> real, a: nat, b: nat)
    requires s.Valid() && s.v <= n + 1 && a <= b
    requires forall q :: a <= q < b ==> TileOwner(s, n)(q) != tile
    ensures Added(s, n, tile, f, b) == Added(s, n, tile, f, a)
  {
    hide TileOwner;
    var g := q => if TileOwner(s, n)(q) == tile then f(q) else 0.0;
    SumSplit(a, b - a, g, q => 0.0);
    SumOfZeros(b - a, q => 0.0);
  }

  /** How many vectors there are among the next `vectors` from point `begin` on. */
  function RealPoints(n: nat, begin: nat, vectors: nat, v: nat): nat
    requires v > 0
  {
    if begin + vectors * v >= n then (if n > begin then (n - begin) / v else 0) else vectors
  }

  /** How many vectors of its run a block really has. */
  function RealBlockPoints(s: Shape, n: nat, from: nat): nat
    requires s.ntf > 0 && s.v > 0 && s.BlockSize() > 0
  {
    Product(s.v, from);
    RealPoints(n, s.v * from, s.BlockSize(), s.v)
  }

  lemma RealIsWhole(s: Shape, n: nat, from: nat, w: nat)
    requires s.Valid() && from <= w
    ensures RealBlockPoints(s, n, from) <= s.BlockSize()
    ensures w < from + RealBlockPoints(s, n, from) <==> w < from + s.BlockSize() && s.v * w + s.v <= n
  {
    var v, d := s.v, s.BlockSize();
    Product(v, from);
    Distribute(v, from, w - from);
    Monotone(from, w, v);
    if v * from + d * v >= n {
      if n > v * from {
        var rest := n - v * from;
        Split(rest, v);
        QuotientBound(rest, v, d);
        VectorsBelow(rest, v, w - from);
      }
    } else if w < from + d {
      Monotone(w - from + 1, d, v);
      Distribute(v, w - from, 1);
    }
  }

  lemma QuotientBound(rest: nat, v: nat, d: nat)
    requires v > 0 && rest <= d * v
    ensures rest / v <= d
  {
    Split(rest, v);
    if rest / v > d {
      Monotone(d + 1, rest / v, v);
      Distribute(v, d, 1);
    }
  }

  lemma VectorsBelow(rest: nat, v: nat, u: nat)
    requires v > 0
    ensures u < rest / v <==> v * u + v <= rest
  {
    Split(rest, v);
    Distribute(v, u, 1);
    if u < rest / v {
      Monotone(u + 1, rest / v, v);
    } else {
      Monotone(rest / v, u, v);
    }
  }

  /** Until its run begins, and from the end of its run to the next round, a block has nothing to add. */
  lemma AddedAround(s: Shape, n: nat, group: nat, t: nat, b: nat, f: int -> real)
    requires s.Valid() && s.v <= n + 1 && group < s.groups && b < s.Blocks()
    ensures var base, tile := Base(s, group, t), Tile(s, group, b);
            var from := base + s.BlockSize() * b;
            && 0 <= s.v * base <= s.v * from && Added(s, n, tile, f, s.v * from) == Added(s, n, tile, f, s.v * base)
            && Base(s, group, t + 1) == base + s.GlobalSize() >= from + RealBlockPoints(s, n, from)
            && 0 <= s.v * (from + RealBlockPoints(s, n, from))
            && s.v * Base(s, group, t + 1) >= 0
            && Added(s, n, tile, f, s.v * Base(s, group, t + 1))
               == Added(s, n, tile, f, s.v * (from + RealBlockPoints(s, n, from)))
  {
    hide TileOwner, Added, RealBlockPoints;
    var base, tile := Base(s, group, t), Tile(s, group, b);
    Product(s.BlockSize(), b);
    BlockIds(s, group, b, 0);
    var from := base + s.BlockSize() * b;
    var real_end := from + RealBlockPoints(s, n, from);
    RealIsWhole(s, n, from, from);
    Distribute(s.GlobalSize(), t, 1);
    Monotone(1, s.groups, s.local);
    var next := base + s.GlobalSize();
    Monotone(base, from, s.v);
    Monotone(real_end, next, s.v);
    Product(s.v, base);
    Product(s.v, real_end);
    forall q | s.v * base <= q < s.v * from || s.v * real_end <= q < s.v * next
      ensures TileOwner(s, n)(q) != tile
    {
      NotInRun(s, n, group, t, b, q);
    }
    AddedIdle(s, n, tile, f, s.v * base, s.v * from);
    AddedIdle(s, n, tile, f, s.v * real_end, s.v * next);
  }

  lemma NotInRun(s: Shape, n: nat, group: nat, t: nat, b: nat, q: nat)
    requires s.Valid() && s.v <= n + 1 && group < s.groups && b < s.Blocks() && s.BlockSize() * b >= 0
    requires var base := Base(s, group, t);
             var from := base + s.BlockSize() * b;
             || s.v * base <= q < s.v * from
             || s.v * (from + RealBlockPoints(s, n, from)) <= q < s.v * (base + s.GlobalSize())
    ensures TileOwner(s, n)(q) != Tile(s, group, b)
  {
    hide TileOwner, RealBlockPoints;
    var base, w := Base(s, group, t), q / s.v;
    var from := base + s.BlockSize() * b;
    var real_end := from + RealBlockPoints(s, n, from);
    BlockIds(s, group, b, 0);
    RealIsWhole(s, n, from, from);
    Monotone(1, s.groups, s.local);
    VectorBetween(q, s.v, base, from);
    VectorBetween(q, s.v, real_end, base + s.GlobalSize());
    TileOwnerInRound(s, n, group, t, b, q);
    if from <= w {
      RealIsWhole(s, n, from, w);
    }
  }

  lemma VectorBetween(q: nat, v: nat, a: nat, b: nat)
    requires v > 0
    ensures v * a <= q < v * b ==> a <= q / v < b
  {
    if v * a <= q < v * b {
      QuotientBelow(q, v, b);
      if q / v < a {
        Split(q, v);
        Monotone(q / v + 1, a, v);
        Distribute(v, q / v, 1);
      }
    }
  }

  /** One lane of one vector of the run. */
  lemma AddedLane(s: Shape, n: nat, group: nat, t: nat, b: nat, f: int -> real, w: nat, lane: nat)
    requires s.Valid() && s.v <= n + 1 && group < s.groups && b < s.Blocks() && lane < s.v
    requires var from := Base(s, group, t) + s.BlockSize() * b;
             0 <= from <= w < from + RealBlockPoints(s, n, from)
    ensures 0 <= s.v * w && s.v * w + s.v <= n
    ensures Added(s, n, Tile(s, group, b), f, s.v * w + lane + 1) ==
            Added(s, n, Tile(s, group, b), f, s.v * w + lane) + f(s.v * w + lane)
  {
    hide TileOwner, RealBlockPoints;
    Product(s.v, w);
    Product(s.BlockSize(), b);
    var from := Base(s, group, t) + s.BlockSize() * b;
    RealIsWhole(s, n, from, w);
    DivMod(s.v, w, lane);
    BlockIds(s, group, b, 0);
    Monotone(1, s.groups, s.local);
    TileOwnerInRound(s, n, group, t, b, s.v * w + lane);
  }

  /** Nothing before the first round, and nothing after the last one. */
  lemma AddedEnds(s: Shape, n: nat, group: nat, t: nat, b: nat, f: int -> real)
    requires s.Valid() && s.v <= n + 1 && group < s.groups && b < s.Blocks()
    ensures s.v * Base(s, group, t) >= 0
    ensures t == 0 ==> Added(s, n, Tile(s, group, b), f, s.v * Base(s, group, t)) == 0.0
    ensures s.v * Base(s, group, t) >= n - s.v + 1 ==>
              Added(s, n, Tile(s, group, b), f, s.v * Base(s, group, t)) == Added(s, n, Tile(s, group, b), f, n)
  {
    hide TileOwner;
    var m, tile := s.v * Base(s, group, t), Tile(s, group, b);
    Product(s.v, Base(s, group, t));
    if t == 0 {
      forall q | 0 <= q < m
        ensures TileOwner(s, n)(q) != tile
      {
        BeforeGroup(s, n, group, b, q);
      }
      AddedIdle(s, n, tile, f, 0, m);
    }
    if m >= n - s.v + 1 {
      forall q: nat | m <= q < n || n <= q < m
        ensures TileOwner(s, n)(q) != tile
      {
        AfterAll(s, n, Base(s, group, t), q);
      }
      if m <= n {
        AddedIdle(s, n, tile, f, m, n);
      } else {
        AddedIdle(s, n, tile, f, n, m);
      }
    }
  }

  lemma BeforeGroup(s: Shape, n: nat, group: nat, b: nat, q: nat)
    requires s.Valid() && s.v <= n + 1 && group < s.groups && b < s.Blocks() && q < s.v * (s.local * group)
    ensures TileOwner(s, n)(q) != Tile(s, group, b)
  {
    hide TileOwner;
    Product(s.local, group);
    QuotientBelow(q, s.v, s.local * group);
    Monotone(group, s.groups, s.local);
    TileOwnerIs(s, n, q);
    DivMod(s.GlobalSize(), 0, q / s.v);
    Product(s.BlockSize(), b);
    Product(group, s.Blocks());
    BlockIds(s, group, b, q / s.v);
  }

  lemma AfterAll(s: Shape, n: nat, base: nat, q: nat)
    requires s.Valid() && s.v <= n + 1 && s.v * base >= n - s.v + 1 && (s.v * base <= q || n <= q)
    ensures TileOwner(s, n)(q) == -1
  {
    hide TileOwner;
    TileOwnerIs(s, n, q);
    Split(q, s.v);
    if s.v * base <= q {
      QuotientAtLeast(q, s.v, base);
    }
  }

  // ---------- the local matrix of feature sums ----------

  /** What a work-group works on: n points x, whose labels are going to be lab. */
  datatype Env = Env(s: Shape, x: seq<real>, n: nat, lab: seq<int>, group: nat) {
    ghost predicate Valid() {
      && s.Valid() && s.v <= n + 1 && group < s.groups
      && |lab| == n && Labels(lab, s.k) && |x| == n * s.p
    }
  }

  /** Cell i of the local matrix belongs to a cluster, a block of the work-group and a feature. */
  function ClusterOf(s: Shape, i: nat): nat
    requires s.Valid()
  {
    WholeBlocks(s);
    Monotone(1, s.Blocks(), s.p);
    i / s.Rows()
  }

  function BlockOf(s: Shape, i: nat): nat
    requires s.Valid()
  {
    WholeBlocks(s);
    Monotone(1, s.Blocks(), s.p);
    i % s.Rows() / s.p
  }

  function FeatureOf(s: Shape, i: nat): nat
    requires s.Valid()
  {
    WholeBlocks(s);
    Monotone(1, s.Blocks(), s.p);
    i % s.Rows() % s.p
  }

  lemma CellIndex(s: Shape, c: nat, b: nat, f: nat)
    requires s.Valid() && c < s.k && b < s.Blocks() && f < s.p
    ensures var i := s.Rows() * c + (s.p * b + f);
            0 <= i < s.k * s.Rows() && ClusterOf(s, i) == c && BlockOf(s, i) == b && FeatureOf(s, i) == f
  {
    Product(s.p, b);
    InMatrix(f, b, s.p, s.Blocks());
    InMatrix(f + s.p * b, c, s.Rows(), s.k);
    DivMod(s.Rows(), c, f + s.p * b);
    DivMod(s.p, b, f);
  }

  lemma CellParts(s: Shape, i: nat)
    requires s.Valid() && i < s.k * s.Rows()
    ensures ClusterOf(s, i) < s.k && BlockOf(s, i) < s.Blocks() && FeatureOf(s, i) < s.p
    ensures i == s.Rows() * ClusterOf(s, i) + (s.p * BlockOf(s, i) + FeatureOf(s, i))
  {
    WholeBlocks(s);
    Monotone(1, s.Blocks(), s.p);
    Split(i, s.Rows());
    assert i < s.Rows() * s.k;
    QuotientBelow(i, s.Rows(), s.k);
    Split(i % s.Rows(), s.p);
    QuotientBelow(i % s.Rows(), s.p, s.Blocks());
  }

  /** The thread that adds to cell i: one of the threads of its block, according to the feature. */
  ghost predicate Mine(s: Shape, lid: nat, i: nat)
    requires s.Valid()
  {
    BlockOf(s, i) == lid / s.BlockSize() && FeatureOf(s, i) % s.BlockSize() == lid % s.BlockSize()
  }

  /** What cell i holds once the points before m have been added. */
  ghost function CellSum(e: Env, i: nat, m: nat): real
    requires e.Valid()
  {
    Added(e.s, e.n, Tile(e.s, e.group, BlockOf(e.s, i)),
          Feature(e.x, e.n, e.lab, e.s.k, ClusterOf(e.s, i) + e.s.k * FeatureOf(e.s, i)), m)
  }

  /** In the middle of its work, a thread has got to `lower` with the features before f, to `mid` with feature f, and to
      `upper` with the others; all cells of other threads are as they were. */
  ghost predicate CellsAt(e: Env, g: seq<real>, was: seq<real>, lid: nat, f: nat, lower: nat, mid: nat, upper: nat)
    requires e.Valid()
  {
    |g| == |was| == e.s.k * e.s.Rows()
    && forall i :: 0 <= i < |g| ==>
         g[i] == if !Mine(e.s, lid, i) then was[i]
                 else CellSum(e, i, if FeatureOf(e.s, i) < f then lower
                                    else if FeatureOf(e.s, i) == f then mid
                                    else upper)
  }

  /** The next feature of a thread is one block size away. */
  lemma NextFeature(e: Env, g: seq<real>, was: seq<real>, lid: nat, f: nat, lower: nat, upper: nat)
    requires e.Valid() && f % e.s.BlockSize() == lid % e.s.BlockSize()
    requires CellsAt(e, g, was, lid, f, lower, lower, upper)
    ensures CellsAt(e, g, was, lid, f + e.s.BlockSize(), lower, upper, upper)
    ensures (f + e.s.BlockSize()) % e.s.BlockSize() == lid % e.s.BlockSize()
  {
    hide CellSum, BlockOf, FeatureOf, ClusterOf;
    var d := e.s.BlockSize();
    NextResidue(f, f, d);
    forall i | 0 <= i < |g| && Mine(e.s, lid, i)
      ensures FeatureOf(e.s, i) <= f || FeatureOf(e.s, i) >= f + d
    {
      NextResidue(f, FeatureOf(e.s, i), d);
    }
  }

  lemma NextResidue(f: nat, g: nat, d: nat)
    requires d > 0 && g % d == f % d
    ensures (f + d) % d == f % d && (g <= f || g >= f + d)
  {
    Split(f, d);
    Split(g, d);
    Distribute(d, f / d, 1);
    DivMod(d, f / d + 1, f % d);
    if f / d < g / d {
      Monotone(f / d + 1, g / d, d);
    } else {
      Monotone(g / d, f / d, d);
    }
  }

  /** All cells of a thread have got to m; the cells of other threads are as they were. */
  ghost predicate AllAt(e: Env, g: seq<real>, was: seq<real>, lid: nat, m: nat)
    requires e.Valid()
  {
    |g| == |was| == e.s.k * e.s.Rows()
    && forall i :: 0 <= i < |g| ==> g[i] == if !Mine(e.s, lid, i) then was[i] else CellSum(e, i, m)
  }

  /** The features of a thread start at its position in the block. */
  lemma FirstFeature(e: Env, g: seq<real>, was: seq<real>, lid: nat, f: nat, lower: nat, upper: nat)
    requires e.Valid() && AllAt(e, g, was, lid, upper) && f == lid % e.s.BlockSize()
    ensures CellsAt(e, g, was, lid, f, lower, upper, upper)
  {
    hide CellSum, BlockOf, FeatureOf, ClusterOf;
    var d := e.s.BlockSize();
    forall i | 0 <= i < |g| && Mine(e.s, lid, i)
      ensures FeatureOf(e.s, i) >= f
    {
      Split(FeatureOf(e.s, i), d);
      Product(d, FeatureOf(e.s, i) / d);
    }
  }

  /** Once it is past the last feature, a thread has got through with all of them. */
  lemma LastFeature(e: Env, g: seq<real>, was: seq<real>, lid: nat, f: nat, lower: nat, mid: nat, upper: nat)
    requires e.Valid() && CellsAt(e, g, was, lid, f, lower, mid, upper) && f >= e.s.p
    ensures AllAt(e, g, was, lid, lower)
  {
    hide CellSum, BlockOf, FeatureOf, ClusterOf;
    forall i | 0 <= i < |g|
      ensures FeatureOf(e.s, i) < e.s.p
    {
      CellParts(e.s, i);
    }
  }

  // ---------- the centroid phase ----------

  /** Vector w is one of those that block b of the work-group has to add in round t. */
  ghost predicate InRun(e: Env, t: nat, b: nat, w: nat)
    requires e.Valid()
  {
    var from := Base(e.s, e.group, t) + e.s.BlockSize() * b;
    b < e.s.Blocks() && 0 <= from <= w < from + RealBlockPoints(e.s, e.n, from)
  }

  /** A vector load of v values. */
  function VLoad(x: seq<real>, at: nat, v: nat): (r: seq<real>)
    ensures |r| == v && forall lane :: 0 <= lane < v ==> r[lane] == At(x, at + lane)
  {
    seq(v, lane requires 0 <= lane < v => At(x, at + lane))
  }

  lemma LaneAdded(e: Env, t: nat, g: seq<real>, now: seq<real>, was: seq<real>, lid: nat, f: nat, lower: nat,
                  upper: nat, w: nat, lane: nat, c: int, q: nat, at: nat)
    requires e.Valid() && lid < e.s.local && f < e.s.p && f % e.s.BlockSize() == lid % e.s.BlockSize() && lane < e.s.v
    requires InRun(e, t, lid / e.s.BlockSize(), w)
    requires q == e.s.v * w + lane < e.n && c == e.lab[q] && CellsAt(e, g, was, lid, f, lower, q, upper)
    requires at == e.s.Rows() * c + (e.s.p * (lid / e.s.BlockSize()) + f) && at < |g|
    requires now == g[at := g[at] + At(e.x, q + e.n * f)]
    ensures CellsAt(e, now, was, lid, f, lower, q + 1, upper)
  {
    hide CellSum, FeatureOf, ClusterOf, BlockOf, Mine, InRun;
    MineIs(e, t, lid, f, w, c);
    forall i: nat | i < |g| && Mine(e.s, lid, i) && FeatureOf(e.s, i) == f
      ensures CellSum(e, i, q + 1) == CellSum(e, i, q) + (if i == at then At(e.x, q + e.n * f) else 0.0)
    {
      CellOfLane(e, t, lid, f, w, lane, c, i);
    }
    CellsAdvance(e, g, now, was, lid, f, lower, q, upper, at, At(e.x, q + e.n * f));
  }

  /** Adding to the one cell of feature f that a point counts for takes that feature one point further. */
  lemma CellsAdvance(e: Env, g: seq<real>, now: seq<real>, was: seq<real>, lid: nat, f: nat, lower: nat, mid: nat,
                     upper: nat, at: nat, value: real)
    requires e.Valid() && CellsAt(e, g, was, lid, f, lower, mid, upper)
    requires at < |g| && Mine(e.s, lid, at) && FeatureOf(e.s, at) == f && now == g[at := g[at] + value]
    requires forall i: nat :: i < |g| && Mine(e.s, lid, i) && FeatureOf(e.s, i) == f ==>
               CellSum(e, i, mid + 1) == CellSum(e, i, mid) + (if i == at then value else 0.0)
    ensures CellsAt(e, now, was, lid, f, lower, mid + 1, upper)
  {
    hide CellSum, FeatureOf, Mine;
  }

  /** The cell that a thread adds feature f of a point in cluster c to. */
  lemma MineIs(e: Env, t: nat, lid: nat, f: nat, w: nat, c: int)
    requires e.Valid() && lid < e.s.local && f < e.s.p && f % e.s.BlockSize() == lid % e.s.BlockSize() && 0 <= c < e.s.k
    requires InRun(e, t, lid / e.s.BlockSize(), w)
    ensures var at := e.s.Rows() * c + (e.s.p * (lid / e.s.BlockSize()) + f);
            0 <= at < e.s.k * e.s.Rows() && Mine(e.s, lid, at) && FeatureOf(e.s, at) == f && ClusterOf(e.s, at) == c
  {
    hide FeatureOf, ClusterOf, BlockOf;
    CellIndex(e.s, c, lid / e.s.BlockSize(), f);
  }

  /** A lane adds to the one cell of its thread that stands for its feature and its cluster. */
  lemma CellOfLane(e: Env, t: nat, lid: nat, f: nat, w: nat, lane: nat, c: int, i: nat)
    requires e.Valid() && lid < e.s.local && f < e.s.p && lane < e.s.v && InRun(e, t, lid / e.s.BlockSize(), w)
    requires i < e.s.k * e.s.Rows() && Mine(e.s, lid, i) && FeatureOf(e.s, i) == f
    requires 0 <= e.s.v * w + lane < e.n && c == e.lab[e.s.v * w + lane]
    ensures var q := e.s.v * w + lane;
            && CellSum(e, i, q + 1) == CellSum(e, i, q) + (if ClusterOf(e.s, i) == c then At(e.x, q + e.n * f) else 0.0)
            && (ClusterOf(e.s, i) == c <==> i == e.s.Rows() * c + (e.s.p * (lid / e.s.BlockSize()) + f))
  {
    hide CellSum, FeatureOf, ClusterOf, BlockOf, InRun;
    CellParts(e.s, i);
    CellGrows(e, t, i, w, lane);
    CellIndex(e.s, c, lid / e.s.BlockSize(), f);
  }

  lemma CellGrows(e: Env, t: nat, i: nat, w: nat, lane: nat)
    requires e.Valid() && i < e.s.k * e.s.Rows() && lane < e.s.v && InRun(e, t, BlockOf(e.s, i), w)
    ensures var q := e.s.v * w + lane;
            0 <= q < e.n
            && CellSum(e, i, q + 1) == CellSum(e, i, q) +
                 (if ClusterOf(e.s, i) == e.lab[q] then At(e.x, q + e.n * FeatureOf(e.s, i)) else 0.0)
  {
    hide Added, FeatureOf, ClusterOf, BlockOf, RealBlockPoints;
    CellParts(e.s, i);
    var c, f := ClusterOf(e.s, i), FeatureOf(e.s, i);
    Product(e.s.k, f);
    DivMod(e.s.k, f, c);
    AddedLane(e.s, e.n, e.group, t, BlockOf(e.s, i), Feature(e.x, e.n, e.lab, e.s.k, c + e.s.k * f), w, lane);
  }

  /** A thread adds one feature of one vector of points. */
  method AddLanes(ghost e: Env, s: Shape, ghost t: nat, lid: nat, f: nat, point: seq<real>, labels: seq<int>,
                  l_new_centroids: array<real>, ghost was: seq<real>, ghost w: nat)
    requires e.Valid() && s == e.s && lid < s.local && f < s.p && f % s.BlockSize() == lid % s.BlockSize()
    requires InRun(e, t, lid / s.BlockSize(), w) && 0 <= s.v * w && s.v * w + s.v <= e.n
    requires Loaded(labels, e.lab, s.k, s.v * w, s.v)
    requires s.v * w + e.n * f >= 0 && point == VLoad(e.x, s.v * w + e.n * f, s.v)
    requires CellsAt(e, l_new_centroids[..], was, lid, f, s.v * w + s.v, s.v * w, s.v * w)
    modifies l_new_centroids
    ensures CellsAt(e, l_new_centroids[..], was, lid, f, s.v * w + s.v, s.v * w + s.v, s.v * w)
  {
    hide CellsAt, InRun;
    var block := lid / s.BlockSize();
    ghost var lower := s.v * w + s.v;
    InRunBlock(e, t, block, w);
    SizeOfCells(e, l_new_centroids[..], was, lid, f, lower, s.v * w, s.v * w);
    for lane := 0 to s.v
      invariant CellsAt(e, l_new_centroids[..], was, lid, f, lower, s.v * w + lane, s.v * w)
    {
      assert labels[lane] == e.lab[s.v * w + lane];
      CellIndex(s, labels[lane], block, f);
      ghost var before := l_new_centroids[..];
      var at := s.p * s.Blocks() * labels[lane] + (s.p * block + f);
      l_new_centroids[at] := l_new_centroids[at] + point[lane];
      LaneAdded(e, t, before, l_new_centroids[..], was, lid, f, lower, s.v * w, w, lane, labels[lane],
                s.v * w + lane, at);
    }
  }

  lemma InRunBlock(e: Env, t: nat, b: nat, w: nat)
    requires e.Valid() && InRun(e, t, b, w)
    ensures b < e.s.Blocks()
  {
  }

  lemma SizeOfCells(e: Env, g: seq<real>, was: seq<real>, lid: nat, f: nat, lower: nat, mid: nat, upper: nat)
    requires e.Valid() && CellsAt(e, g, was, lid, f, lower, mid, upper)
    ensures |g| == e.s.k * e.s.Rows()
  {
  }

  /** What the threads of a work-group, except those still to do, have left behind for each other before the barrier. */
  ghost predicate SharedBut(e: Env, t: nat, todo: set<nat>, l_points: seq<seq<real>>, l_labels: seq<seq<int>>)
    requires e.Valid()
  {
    && |l_points| == e.s.local * e.s.p && |l_labels| == e.s.local
    && forall u: nat :: u < e.s.local && u !in todo ==> SharedBy(e, t, u, l_points, l_labels)
  }

  ghost predicate Shared(e: Env, t: nat, l_points: seq<seq<real>>, l_labels: seq<seq<int>>)
    requires e.Valid()
  {
    SharedBut(e, t, {}, l_points, l_labels)
  }

  /** Thread u has cached its vector of points and the labels of them, if it had a vector. */
  ghost predicate SharedBy(e: Env, t: nat, u: nat, l_points: seq<seq<real>>, l_labels: seq<seq<int>>)
    requires e.Valid() && u < |l_labels|
  {
    var at := e.s.v * (Base(e.s, e.group, t) + u);
    at >= 0 && (at + e.s.v <= e.n ==>
                  && Loaded(l_labels[u], e.lab, e.s.k, at, e.s.v)
                  && forall f: nat :: f < e.s.p ==> CachedPoint(e, at, u, f, l_points))
  }

  ghost predicate CachedPoint(e: Env, at: nat, u: nat, f: nat, l_points: seq<seq<real>>)
    requires e.Valid()
  {
    && 0 <= e.s.local * f + u < |l_points| && at + e.n * f >= 0
    && l_points[e.s.local * f + u] == VLoad(e.x, at + e.n * f, e.s.v)
  }

  /** A thread adds its features of vector w, which thread bp of the group has cached. */
  method AddVector(ghost e: Env, s: Shape, ghost t: nat, lid: nat, bp: nat, l_points: array<seq<real>>,
                   l_labels: array<seq<int>>, l_new_centroids: array<real>, ghost was: seq<real>, ghost w: nat)
    requires e.Valid() && s == e.s && lid < s.local && bp < s.local && w == Base(s, e.group, t) + bp
    requires Shared(e, t, l_points[..], l_labels[..]) && InRun(e, t, lid / s.BlockSize(), w)
    requires 0 <= s.v * w && s.v * w + s.v <= e.n && AllAt(e, l_new_centroids[..], was, lid, s.v * w)
    modifies l_new_centroids
    ensures AllAt(e, l_new_centroids[..], was, lid, s.v * w + s.v)
  {
    hide CellsAt, AllAt, InRun, CachedPoint, Loaded;
    var labels := l_labels[bp];
    assert SharedBy(e, t, bp, l_points[..], l_labels[..]);
    var f := lid % s.BlockSize();
    ghost var lower, upper := s.v * w + s.v, s.v * w;
    FirstFeature(e, l_new_centroids[..], was, lid, f, lower, upper);
    NextResidue(lid, lid, s.BlockSize());
    assert f % s.BlockSize() == lid % s.BlockSize() by {
      Split(lid, s.BlockSize());
      DivMod(s.BlockSize(), 0, f);
    }
    while f < s.p
      modifies l_new_centroids
      invariant f % s.BlockSize() == lid % s.BlockSize()
      invariant CellsAt(e, l_new_centroids[..], was, lid, f, lower, upper, upper)
    {
      ReadCached(e, s.v * w, bp, f, l_points[..]);
      var point := l_points[s.local * f + bp];
      AddLanes(e, s, t, lid, f, point, labels, l_new_centroids, was, w);
      NextFeature(e, l_new_centroids[..], was, lid, f, lower, upper);
      f := f + s.BlockSize();
    }
    LastFeature(e, l_new_centroids[..], was, lid, f, lower, upper, upper);
  }

  lemma ReadCached(e: Env, at: nat, u: nat, f: nat, l_points: seq<seq<real>>)
    requires e.Valid() && CachedPoint(e, at, u, f, l_points)
    ensures 0 <= e.s.local * f + u < |l_points| && at + e.n * f >= 0
    ensures l_points[e.s.local * f + u] == VLoad(e.x, at + e.n * f, e.s.v)
  {
  }

  /** A thread adds its features of the points of its block. */
  method CentroidPhase(ghost e: Env, s: Shape, n: nat, ghost t: nat, lid: nat, group_offset: nat,
                       l_points: array<seq<real>>, l_labels: array<seq<int>>, l_new_centroids: array<real>)
    requires e.Valid() && s == e.s && n == e.n && lid < s.local && group_offset == s.v * Base(s, e.group, t)
    requires Shared(e, t, l_points[..], l_labels[..])
    requires AllAt(e, l_new_centroids[..], l_new_centroids[..], lid, group_offset)
    modifies l_new_centroids
    ensures s.v * Base(s, e.group, t + 1) >= 0
    ensures AllAt(e, l_new_centroids[..], old(l_new_centroids[..]), lid, s.v * Base(s, e.group, t + 1))
  {
    hide AllAt, Shared, BlockRange, Base;
    var block_points_offset, num_real_block_points := PhaseStart(e, s, n, t, lid, group_offset);
    AddBlock(e, s, t, lid, block_points_offset, num_real_block_points, l_points, l_labels, l_new_centroids);
  }

  /** Where the block of a thread begins among the points of the work-group, and how many vectors it has. */
  method PhaseStart(ghost e: Env, s: Shape, n: nat, ghost t: nat, lid: nat, group_offset: nat)
    returns (block_points_offset: nat, num_real_block_points: nat)
    requires e.Valid() && s == e.s && n == e.n && lid < s.local && group_offset == s.v * Base(s, e.group, t)
    ensures BlockRange(e, t, lid, block_points_offset, num_real_block_points)
  {
    hide RealPoints, Base, BlockRange;
    var block_size := s.p / s.ntf;
    var block := lid / block_size;
    BlockOfThread(s, lid);
    var num_block_points := s.local / (s.local / block_size);
    assert num_block_points == block_size;
    block_points_offset := num_block_points * block;
    Product(s.v, block_points_offset);
    var g_block_points_offset := group_offset + s.v * block_points_offset;
    num_real_block_points := RealPoints(n, g_block_points_offset, num_block_points, s.v);
    PhaseOffsets(e, t, lid, block_points_offset, g_block_points_offset, num_real_block_points);
  }

  /** The vectors of the block of a thread, as positions in the work-group. */
  ghost predicate BlockRange(e: Env, t: nat, lid: nat, first: nat, count: nat)
    requires e.Valid()
  {
    && first == e.s.BlockSize() * (lid / e.s.BlockSize())
    && count == RealBlockPoints(e.s, e.n, Base(e.s, e.group, t) + first)
  }

  method AddBlock(ghost e: Env, s: Shape, ghost t: nat, lid: nat, first: nat, count: nat, l_points: array<seq<real>>,
                  l_labels: array<seq<int>>, l_new_centroids: array<real>)
    requires e.Valid() && s == e.s && lid < s.local && BlockRange(e, t, lid, first, count)
    requires Shared(e, t, l_points[..], l_labels[..]) && s.v * Base(s, e.group, t) >= 0
    requires AllAt(e, l_new_centroids[..], l_new_centroids[..], lid, s.v * Base(s, e.group, t))
    modifies l_new_centroids
    ensures s.v * Base(s, e.group, t + 1) >= 0
    ensures AllAt(e, l_new_centroids[..], old(l_new_centroids[..]), lid, s.v * Base(s, e.group, t + 1))
  {
    hide AllAt, Shared, Base, BlockRange, InRun;
    ghost var was, base := l_new_centroids[..], Base(s, e.group, t);
    AllAround(e, l_new_centroids[..], was, lid, t, first, count);
    for bp := first to first + count
      modifies l_new_centroids
      invariant s.v * (base + bp) >= 0 && AllAt(e, l_new_centroids[..], was, lid, s.v * (base + bp))
    {
      StepOfPhase(e, t, lid, bp, first, count);
      AddVector(e, s, t, lid, bp, l_points, l_labels, l_new_centroids, was, base + bp);
    }
    AllAround(e, l_new_centroids[..], was, lid, t, first, count);
  }

  lemma PhaseOffsets(e: Env, t: nat, lid: nat, offset: nat, begin: nat, count: nat)
    requires e.Valid() && lid < e.s.local && offset == e.s.BlockSize() * (lid / e.s.BlockSize())
    requires begin == e.s.v * Base(e.s, e.group, t) + e.s.v * offset
    requires count == RealPoints(e.n, begin, e.s.BlockSize(), e.s.v)
    ensures BlockRange(e, t, lid, offset, count)
  {
    hide Base, RealPoints;
    Distribute(e.s.v, Base(e.s, e.group, t), offset);
  }

  lemma StepOfPhase(e: Env, t: nat, lid: nat, bp: nat, first: nat, count: nat)
    requires e.Valid() && lid < e.s.local && BlockRange(e, t, lid, first, count) && first <= bp < first + count
    ensures var w := Base(e.s, e.group, t) + bp;
            && bp < e.s.local && InRun(e, t, lid / e.s.BlockSize(), w)
            && 0 <= e.s.v * w && e.s.v * w + e.s.v <= e.n && e.s.v * (w + 1) == e.s.v * w + e.s.v
  {
    hide RealBlockPoints, Base;
    BlockOfThread(e.s, lid);
    var w := Base(e.s, e.group, t) + bp;
    RealIsWhole(e.s, e.n, Base(e.s, e.group, t) + first, w);
    Distribute(e.s.v, w, 1);
    Product(e.s.v, w);
  }

  lemma BlockOfThread(s: Shape, lid: nat)
    requires s.Valid() && lid < s.local
    ensures s.local / s.Blocks() == s.BlockSize()
    ensures var b := lid / s.BlockSize();
            0 <= b < s.Blocks() && 0 <= s.BlockSize() * b && s.BlockSize() * b + s.BlockSize() <= s.local
  {
    WholeBlocks(s);
    DivMod(s.Blocks(), s.BlockSize(), 0);
    QuotientBelow(lid, s.BlockSize(), s.Blocks());
    Split(lid, s.BlockSize());
    var b := lid / s.BlockSize();
    Product(s.BlockSize(), b);
    Distribute(s.BlockSize(), b, 1);
    Monotone(b + 1, s.Blocks(), s.BlockSize());
  }

  /** Nothing changes for the cells of a thread before the run of its block and after it. */
  lemma AllAround(e: Env, g: seq<real>, was: seq<real>, lid: nat, t: nat, first: nat, count: nat)
    requires e.Valid() && lid < e.s.local && BlockRange(e, t, lid, first, count)
    ensures var s, base := e.s, Base(e.s, e.group, t);
            && 0 <= s.v * base && 0 <= s.v * (base + first) && 0 <= s.v * (base + (first + count))
            && 0 <= s.v * Base(s, e.group, t + 1)
            && (AllAt(e, g, was, lid, s.v * base) ==> AllAt(e, g, was, lid, s.v * (base + first)))
            && (AllAt(e, g, was, lid, s.v * (base + (first + count))) ==>
                  AllAt(e, g, was, lid, s.v * Base(s, e.group, t + 1)))
  {
    hide Added, RealBlockPoints, ClusterOf, BlockOf, FeatureOf, Base;
    BlockOfThread(e.s, lid);
    var s, base, b := e.s, Base(e.s, e.group, t), lid / e.s.BlockSize();
    AddedAround(s, e.n, e.group, t, b, q => 0.0);
    assert base + (first + count) == base + s.BlockSize() * b + RealBlockPoints(s, e.n, base + s.BlockSize() * b);
    forall i | 0 <= i < |g| && Mine(s, lid, i)
      ensures CellSum(e, i, s.v * (base + first)) == CellSum(e, i, s.v * base)
      ensures CellSum(e, i, s.v * Base(s, e.group, t + 1)) == CellSum(e, i, s.v * (base + (first + count)))
    {
      AddedAround(s, e.n, e.group, t, b, Feature(e.x, e.n, e.lab, s.k, ClusterOf(s, i) + s.k * FeatureOf(s, i)));
    }
  }

  /** The thread that adds to cell i. */
  ghost function ThreadOf(s: Shape, i: nat): nat
    requires s.Valid()
  {
    Product(s.BlockSize(), BlockOf(s, i));
    s.BlockSize() * BlockOf(s, i) + FeatureOf(s, i) % s.BlockSize()
  }

  /** Every cell has one thread, so no two threads of a phase write the same cell. */
  lemma OneThread(s: Shape, i: nat, lid: nat)
    requires s.Valid() && i < s.k * s.Rows()
    ensures Mine(s, lid, i) <==> ThreadOf(s, i) == lid
    ensures ThreadOf(s, i) < s.local
  {
    hide BlockOf, FeatureOf;
    var d, b, r := s.BlockSize(), BlockOf(s, i), FeatureOf(s, i) % s.BlockSize();
    CellParts(s, i);
    WholeBlocks(s);
    Product(d, b);
    Monotone(b + 1, s.Blocks(), d);
    Distribute(d, b, 1);
    DivMod(d, b, r);
    Split(lid, d);
  }

  /** The cells of the threads still to do are at m0, the others at m1. */
  ghost predicate GroupAt(e: Env, g: seq<real>, todo: set<nat>, m0: nat, m1: nat)
    requires e.Valid()
  {
    |g| == e.s.k * e.s.Rows()
    && forall i :: 0 <= i < |g| ==> g[i] == CellSum(e, i, if ThreadOf(e.s, i) in todo then m0 else m1)
  }

  lemma ThreadDone(e: Env, now: seq<real>, was: seq<real>, todo: set<nat>, lid: nat, m0: nat, m1: nat)
    requires e.Valid() && GroupAt(e, was, todo, m0, m1)
    ensures lid in todo ==> AllAt(e, was, was, lid, m0)
    ensures AllAt(e, now, was, lid, m1) ==> GroupAt(e, now, todo - {lid}, m0, m1)
  {
    hide CellSum, ThreadOf, Mine;
    forall i | 0 <= i < |was|
      ensures Mine(e.s, lid, i) <==> ThreadOf(e.s, i) == lid
    {
      OneThread(e.s, i, lid);
    }
  }

  lemma PhaseDone(e: Env, g: seq<real>, m0: nat, m1: nat)
    requires e.Valid() && GroupAt(e, g, {}, m0, m1)
    ensures GroupAt(e, g, Ids(e.s.local), m1, m1)
  {
    hide CellSum, ThreadOf;
  }

  /** The centroid phase of a work-group, in any order of its threads. */
  method CentroidPhases(ghost e: Env, s: Shape, n: nat, ghost t: nat, group_offset: nat, l_points: array<seq<real>>,
                        l_labels: array<seq<int>>, l_new_centroids: array<real>)
    requires e.Valid() && s == e.s && n == e.n && group_offset == s.v * Base(s, e.group, t)
    requires Shared(e, t, l_points[..], l_labels[..])
    requires GroupAt(e, l_new_centroids[..], Ids(s.local), group_offset, group_offset)
    modifies l_new_centroids
    ensures s.v * Base(s, e.group, t + 1) >= 0
    ensures GroupAt(e, l_new_centroids[..], Ids(s.local), s.v * Base(s, e.group, t + 1), s.v * Base(s, e.group, t + 1))
  {
    hide AllAt, Shared, GroupAt, Base;
    Product(s.v, Base(s, e.group, t + 1));
    ghost var m1 := s.v * Base(s, e.group, t + 1);
    var todo := Ids(s.local);
    OthersFirst(e, l_new_centroids[..], group_offset, m1);
    while todo != {}
      modifies l_new_centroids
      invariant todo <= Ids(s.local) && GroupAt(e, l_new_centroids[..], todo, group_offset, m1)
      decreases todo
    {
      var lid :| lid in todo;
      ghost var was := l_new_centroids[..];
      ThreadDone(e, was, was, todo, lid, group_offset, m1);
      CentroidPhase(e, s, n, t, lid, group_offset, l_points, l_labels, l_new_centroids);
      ThreadDone(e, l_new_centroids[..], was, todo, lid, group_offset, m1);
      todo := todo - {lid};
    }
    PhaseDone(e, l_new_centroids[..], group_offset, m1);
  }

  lemma OthersFirst(e: Env, g: seq<real>, m0: nat, m1: nat)
    requires e.Valid() && GroupAt(e, g, Ids(e.s.local), m0, m0)
    ensures GroupAt(e, g, Ids(e.s.local), m0, m1)
  {
    hide CellSum, ThreadOf;
    forall i | 0 <= i < |g|
      ensures ThreadOf(e.s, i) in Ids(e.s.local)
    {
      OneThread(e.s, i, 0);
    }
  }

  // ---------- the labelling phase ----------

  /** The labels are those of one assignment step from the old centroids. */
  ghost predicate Assigned(e: Env, cen: seq<Num>, cs: seq<Center>)
    requires e.Valid()
  {
    && e.s.p > 0 && Holds(cen, cs, e.s.k, e.s.p) && HasLive(cs)
    && e.lab == Assign(ColumnMajor.Rows(e.x, e.n, e.s.p), cs, e.s.p)
  }

  /** The squared distance of a cached point to a centroid. */
  method CachedDistance(ghost e: Env, s: Shape, ghost at: nat, lid: nat, lane: nat, l_points: array<seq<real>>,
                        cen: array<Num>, c: nat, ghost cs: seq<Center>)
    returns (dist: Num)
    requires e.Valid() && s == e.s && Assigned(e, cen[..], cs) && c < s.k && lane < s.v && at + s.v <= e.n
    requires forall f: nat :: f < s.p ==> CachedPoint(e, at, lid, f, l_points[..])
    ensures var pt := ColumnMajor.Rows(e.x, e.n, s.p)[at + lane];
            dist == if cs[c].Live? then Fin(Dist(pt, cs[c])) else NaN
  {
    hide CachedPoint, Assign, HasLive;
    ghost var pt := ColumnMajor.Rows(e.x, e.n, s.p)[at + lane];
    dist := Fin(0.0);
    for f := 0 to s.p
      invariant dist == if cs[c].Live? then Fin(SqDist(pt, cs[c].at, f)) else if f == 0 then Fin(0.0) else NaN
    {
      ReadCached(e, at, lid, f, l_points[..]);
      CellOf(c, f, s.k, s.p);
      assert cen[c + s.k * f] == cen[..][c + s.k * f] == Entry(cs, c, f);
      assert pt[f] == At(e.x, at + lane + e.n * f) == l_points[s.local * f + lid][lane];
      var difference := Sub(Fin(l_points[s.local * f + lid][lane]), cen[c + s.k * f]);
      dist := Add(dist, Mul(difference, difference));
    }
  }

  /** The label of one lane. */
  method LabelLane(ghost e: Env, s: Shape, ghost at: nat, lid: nat, lane: nat, l_points: array<seq<real>>,
                   cen: array<Num>, ghost cs: seq<Center>)
    returns (winner: int)
    requires e.Valid() && s == e.s && Assigned(e, cen[..], cs) && lane < s.v && at + s.v <= e.n
    requires forall f: nat :: f < s.p ==> CachedPoint(e, at, lid, f, l_points[..])
    ensures winner == e.lab[at + lane]
  {
    hide CachedPoint, SqDist, Dist, Entry;
    ghost var pt := ColumnMajor.Rows(e.x, e.n, s.p)[at + lane];
    var min_dist := Huge;
    winner := *;
    for c := 0 to s.k
      invariant var b := Best(pt, cs, c);
                if b < 0 then min_dist == Huge else min_dist == Fin(Dist(pt, cs[b])) && winner == b
    {
      var dist := CachedDistance(e, s, at, lid, lane, l_points, cen, c, cs);
      var is_dist_smaller := Less(dist, min_dist);
      min_dist := Fmin(dist, min_dist);
      winner := if is_dist_smaller then c else winner;
    }
    R.BestOfNone(pt, cs, s.k);
  }

  /** Thread lid caches its vector of points. */
  method CachePoints(ghost e: Env, s: Shape, x: seq<real>, n: nat, at: nat, lid: nat, l_points: array<seq<real>>)
    requires e.Valid() && s == e.s && x == e.x && n == e.n && lid < s.local && l_points.Length == s.local * s.p
    modifies l_points
    ensures forall f: nat :: f < s.p ==> CachedPoint(e, at, lid, f, l_points[..])
    ensures forall i :: 0 <= i < l_points.Length && i % s.local != lid ==> l_points[i] == old(l_points[i])
  {
    hide CachedPoint;
    ghost var was := l_points[..];
    for f := 0 to s.p
      invariant CachedBelow(e, at, lid, f, l_points[..], was)
    {
      Product(n, f);
      CellOf(lid, f, s.local, s.p);
      ghost var before := l_points[..];
      l_points[s.local * f + lid] := VLoad(x, n * f + at, s.v);
      CachedMore(e, at, lid, f, before, l_points[..], was);
    }
  }

  /** Thread lid has cached its first f features, and nothing else has changed. */
  ghost predicate CachedBelow(e: Env, at: nat, lid: nat, f: nat, g: seq<seq<real>>, was: seq<seq<real>>)
    requires e.Valid()
  {
    && |g| == |was| && (forall h: nat :: h < f ==> CachedPoint(e, at, lid, h, g))
    && forall i :: 0 <= i < |g| && i % e.s.local != lid ==> g[i] == was[i]
  }

  lemma CachedMore(e: Env, at: nat, lid: nat, f: nat, before: seq<seq<real>>, now: seq<seq<real>>, was: seq<seq<real>>)
    requires e.Valid() && lid < e.s.local && f < e.s.p && |before| == e.s.local * e.s.p
    requires CachedBelow(e, at, lid, f, before, was) && 0 <= e.s.local * f + lid < |before| && e.n * f + at >= 0
    requires now == before[e.s.local * f + lid := VLoad(e.x, e.n * f + at, e.s.v)]
    ensures CachedBelow(e, at, lid, f + 1, now, was)
  {
    var i := e.s.local * f + lid;
    CellOf(lid, f, e.s.local, e.s.p);
    hide VLoad;
    forall h: nat | h < f + 1
      ensures CachedPoint(e, at, lid, h, now)
    {
      if h < f {
        assert CachedPoint(e, at, lid, h, before);
        CellOf(lid, h, e.s.local, e.s.p);
      }
    }
  }

  /** What the loop of a thread has counted in cell i of the local masses once it is past the points before m. */
  ghost function MassSum(e: Env, i: nat, m: nat): real
    requires e.Valid()
  {
    Part(ThreadLoop(e, i % e.s.local), e.s.v, Mass(e.lab, i / e.s.local), m)
  }

  ghost function ThreadLoop(e: Env, lid: nat): (l: Loop)
    requires e.Valid() && lid < e.s.local
    ensures l.stride > 0
  {
    Product(e.s.local, e.group);
    Monotone(1, e.s.local, e.s.groups);
    Loop(e.s.local * e.group + lid, e.s.GlobalSize(), e.n - e.s.v + 1)
  }

  /** Every round of the work-group is a step of the loop of each of its threads. */
  lemma RoundIsStep(e: Env, t: nat, lid: nat)
    requires e.Valid() && lid < e.s.local
    ensures IsStep(ThreadLoop(e, lid), Base(e.s, e.group, t) + lid)
    ensures Base(e.s, e.group, t + 1) + lid == Base(e.s, e.group, t) + lid + ThreadLoop(e, lid).stride
    ensures e.s.v * (Base(e.s, e.group, t) + lid) >= 0
  {
    Monotone(1, e.s.local, e.s.groups);
    Product(e.s.GlobalSize(), t);
    DivMod(e.s.GlobalSize(), t, 0);
    Distribute(e.s.GlobalSize(), t, 1);
    Product(e.s.v, Base(e.s, e.group, t) + lid);
  }

  /** Thread `u` has counted the points before round t, and those of round t unless it is still to do. */
  ghost function Counted(e: Env, t: nat, todo: set<nat>, u: nat): nat
    requires e.Valid()
  {
    Product(e.s.v, Base(e.s, e.group, t) + u);
    e.s.v * (Base(e.s, e.group, t) + u) + (if u in todo then 0 else e.s.v)
  }

  ghost predicate MassesAt(e: Env, g: seq<real>, t: nat, todo: set<nat>)
    requires e.Valid()
  {
    |g| == e.s.local * e.s.k
    && forall i :: 0 <= i < |g| ==> g[i] == MassSum(e, i, Counted(e, t, todo, i % e.s.local))
  }

  /** A thread that has no vector in a round has nothing to count in it. */
  lemma NothingToCount(e: Env, t: nat, lid: nat, f: int -> real)
    requires e.Valid() && lid < e.s.local
    ensures var at := e.s.v * (Base(e.s, e.group, t) + lid);
            at >= 0 && (at + e.s.v > e.n ==>
              Part(ThreadLoop(e, lid), e.s.v, f, at + e.s.v) == Part(ThreadLoop(e, lid), e.s.v, f, at))
  {
    RoundIsStep(e, t, lid);
    var w := Base(e.s, e.group, t) + lid;
    var at := e.s.v * w;
    if at + e.s.v > e.n {
      forall q | at <= q < at + e.s.v
        ensures !Owns(ThreadLoop(e, lid), e.s.v, q)
      {
        DivMod(e.s.v, w, q - at);
      }
      Idle(ThreadLoop(e, lid), e.s.v, f, at, at + e.s.v);
    }
  }

  lemma ThreadSkips(e: Env, now: seq<real>, t: nat, todo: set<nat>, lid: nat)
    requires e.Valid() && lid < e.s.local && MassesAt(e, now, t, todo)
    requires e.s.v * (Base(e.s, e.group, t) + lid) + e.s.v > e.n
    ensures MassesAt(e, now, t, todo - {lid})
  {
    hide MassSum, Counted, Base;
    forall i | 0 <= i < |now|
      ensures i % e.s.local >= 0
      ensures MassSum(e, i, Counted(e, t, todo - {lid}, i % e.s.local)) ==
              MassSum(e, i, Counted(e, t, todo, i % e.s.local))
    {
      CellSkips(e, t, todo, lid, i);
    }
  }

  lemma CellSkips(e: Env, t: nat, todo: set<nat>, lid: nat, i: nat)
    requires e.Valid() && lid < e.s.local && e.s.v * (Base(e.s, e.group, t) + lid) + e.s.v > e.n
    ensures i % e.s.local >= 0
    ensures MassSum(e, i, Counted(e, t, todo - {lid}, i % e.s.local)) ==
            MassSum(e, i, Counted(e, t, todo, i % e.s.local))
  {
    hide Part, ThreadLoop, Base;
    Split(i, e.s.local);
    if i % e.s.local == lid {
      NothingToCount(e, t, lid, Mass(e.lab, i / e.s.local));
    }
  }

  /** Thread lid counts the points of its vector. */
  method CountPoints(ghost e: Env, s: Shape, ghost t: nat, ghost at: nat, lid: nat, labels: seq<int>,
                     l_masses: array<real>, ghost todo: set<nat>)
    requires e.Valid() && s == e.s && lid in todo && lid < s.local
    requires at == s.v * (Base(s, e.group, t) + lid) && at + s.v <= e.n && Loaded(labels, e.lab, s.k, at, s.v)
    requires MassesAt(e, l_masses[..], t, todo)
    modifies l_masses
    ensures MassesAt(e, l_masses[..], t, todo - {lid})
  {
    hide Part, ThreadLoop, Base;
    ghost var was := l_masses[..];
    for lane := 0 to s.v
      invariant |l_masses[..]| == |was|
      invariant forall i :: 0 <= i < |was| ==>
                  l_masses[i] == if i % s.local == lid then MassSum(e, i, at + lane) else was[i]
    {
      CellOf(lid, labels[lane], s.local, s.k);
      forall i | 0 <= i < |was| && i % s.local == lid
        ensures MassSum(e, i, at + lane + 1) ==
                MassSum(e, i, at + lane) + (if i / s.local == labels[lane] then 1.0 else 0.0)
        ensures i / s.local == labels[lane] ==> i == s.local * labels[lane] + lid
      {
        Split(i, s.local);
        LaneCounted(e, t, lid, lane, i);
      }
      var c := s.local * labels[lane] + lid;
      l_masses[c] := l_masses[c] + 1.0;
    }
  }

  lemma LaneCounted(e: Env, t: nat, lid: nat, lane: nat, i: nat)
    requires e.Valid() && lid < e.s.local && lane < e.s.v && i % e.s.local == lid && i / e.s.local >= 0
    requires e.s.v * (Base(e.s, e.group, t) + lid) + e.s.v <= e.n
    ensures var q := e.s.v * (Base(e.s, e.group, t) + lid) + lane;
            0 <= q < e.n && MassSum(e, i, q + 1) == MassSum(e, i, q) + (if i / e.s.local == e.lab[q] then 1.0 else 0.0)
  {
    RoundIsStep(e, t, lid);
    hide Base, Part;
    PartLane(ThreadLoop(e, lid), e.s.v, Mass(e.lab, i / e.s.local), Base(e.s, e.group, t) + lid, lane);
  }

  // ---------- labels ----------

  /** Point q is handled by some thread of the work-group. */
  ghost predicate InGroup(e: Env, q: int)
    requires e.Valid()
  {
    Owner(e.s.Launch(), e.n)(q) >= 0 && Owner(e.s.Launch(), e.n)(q) / e.s.local == e.group
  }

  /** The labels of the rounds before round t, and of the threads done in round t, are stored. */
  ghost predicate LabelsAt(e: Env, g: seq<int>, was: seq<int>, t: nat, todo: set<nat>)
    requires e.Valid()
  {
    |g| == |was| == e.n
    && forall q :: 0 <= q < e.n ==>
         g[q] == if InGroup(e, q) && Reached(e, t, todo, q / e.s.v) then e.lab[q] else was[q]
  }

  ghost predicate Reached(e: Env, t: nat, todo: set<nat>, w: nat) {
    var base := Base(e.s, e.group, t);
    w < base || (w < base + e.s.local && w - base !in todo)
  }

  /** In a round, the work-group handles exactly its own run of vectors, as far as there are whole ones. */
  lemma InGroupInRound(e: Env, t: nat, q: nat)
    requires e.Valid() && Base(e.s, e.group, t) <= q / e.s.v < Base(e.s, e.group, t) + e.s.GlobalSize()
    ensures InGroup(e, q) <==> q / e.s.v < Base(e.s, e.group, t) + e.s.local && e.s.v * (q / e.s.v) + e.s.v <= e.n
  {
    hide Base;
    var s, gid := e.s, q / e.s.v % e.s.GlobalSize();
    RoundResidue(s, e.group, t, q / s.v);
    assert Owner(s.Launch(), e.n)(q) == if s.v * (q / s.v) + s.v <= e.n then gid else -1;
    Split(gid, s.local);
    Product(s.local, e.group);
    if s.local * e.group <= gid < s.local * e.group + s.local {
      DivMod(s.local, e.group, gid - s.local * e.group);
    }
  }

  lemma LabelsStored(e: Env, now: seq<int>, before: seq<int>, was: seq<int>, t: nat, todo: set<nat>, lid: nat, at: nat)
    requires e.Valid() && lid < e.s.local && lid in todo && at == e.s.v * (Base(e.s, e.group, t) + lid)
    requires LabelsAt(e, before, was, t, todo) && |now| == |before|
    requires forall q :: 0 <= q < |now| ==>
               now[q] == if at + e.s.v <= e.n && at <= q < at + e.s.v then e.lab[q] else before[q]
    ensures LabelsAt(e, now, was, t, todo - {lid})
  {
    hide InGroup, Base;
    var w := Base(e.s, e.group, t) + lid;
    Monotone(1, e.s.groups, e.s.local);
    forall q | 0 <= q < e.n
      ensures q / e.s.v == w <==> at <= q < at + e.s.v
      ensures q / e.s.v == w ==> (InGroup(e, q) <==> at + e.s.v <= e.n)
    {
      Split(q, e.s.v);
      if at <= q < at + e.s.v {
        DivMod(e.s.v, w, q - at);
      }
      if q / e.s.v == w {
        InGroupInRound(e, t, q);
      }
    }
  }

  lemma SharedMore(e: Env, t: nat, todo: set<nat>, lid: nat, lp: seq<seq<real>>, ll: seq<seq<int>>,
                   lp': seq<seq<real>>, ll': seq<seq<int>>)
    requires e.Valid() && lid < e.s.local && SharedBut(e, t, todo, lp, ll) && |lp'| == |lp| && |ll'| == |ll|
    requires forall i :: 0 <= i < |lp| && i % e.s.local != lid ==> lp'[i] == lp[i]
    requires forall u :: 0 <= u < |ll| && u != lid ==> ll'[u] == ll[u]
    requires SharedBy(e, t, lid, lp', ll')
    ensures SharedBut(e, t, todo - {lid}, lp', ll')
  {
    hide Base;
    forall u: nat | u < e.s.local && u !in todo - {lid}
      ensures SharedBy(e, t, u, lp', ll')
    {
      if u != lid {
        assert SharedBy(e, t, u, lp, ll);
        SharedKept(e, t, u, lid, lp, ll, lp', ll');
      }
    }
  }

  lemma SharedKept(e: Env, t: nat, u: nat, lid: nat, lp: seq<seq<real>>, ll: seq<seq<int>>,
                   lp': seq<seq<real>>, ll': seq<seq<int>>)
    requires e.Valid() && u < e.s.local && u != lid && u < |ll| && |lp'| == |lp| == e.s.local * e.s.p && |ll'| == |ll|
    requires forall i :: 0 <= i < |lp| && i % e.s.local != lid ==> lp'[i] == lp[i]
    requires ll'[u] == ll[u] && SharedBy(e, t, u, lp, ll)
    ensures SharedBy(e, t, u, lp', ll')
  {
    hide Base, VLoad;
    var at := e.s.v * (Base(e.s, e.group, t) + u);
    if at + e.s.v <= e.n {
      forall f: nat | f < e.s.p
        ensures CachedPoint(e, at, u, f, lp')
      {
        assert CachedPoint(e, at, u, f, lp);
        CellOf(u, f, e.s.local, e.s.p);
      }
    }
  }

  /** The labelling phase of one thread: if it has a vector of points left, it caches, labels and counts them. */
  method LabelPhase(ghost e: Env, s: Shape, x: seq<real>, n: nat, cen: array<Num>, ghost t: nat, lid: nat,
                    group_offset: nat, l_points: array<seq<real>>, l_labels: array<seq<int>>, l_masses: array<real>,
                    g_labels: array<int>, ghost cs: seq<Center>, ghost todo: set<nat>, ghost was: seq<int>)
    requires e.Valid() && s == e.s && x == e.x && n == e.n && lid in todo && lid < s.local && Assigned(e, cen[..], cs)
    requires group_offset == s.v * Base(s, e.group, t)
    requires SharedBut(e, t, todo, l_points[..], l_labels[..])
    requires MassesAt(e, l_masses[..], t, todo) && LabelsAt(e, g_labels[..], was, t, todo)
    modifies l_points, l_labels, l_masses, g_labels
    ensures SharedBut(e, t, todo - {lid}, l_points[..], l_labels[..])
    ensures MassesAt(e, l_masses[..], t, todo - {lid}) && LabelsAt(e, g_labels[..], was, t, todo - {lid})
  {
    hide MassesAt, Assigned, Base, LabelsAt, Loaded;
    ghost var lp, ll, before := l_points[..], l_labels[..], g_labels[..];
    Distribute(s.v, Base(s, e.group, t), lid);
    Product(s.v, lid);
    var at := group_offset + s.v * lid;
    SizeOfLabels(e, g_labels[..], was, t, todo);
    if at < n - s.v + 1 {
      LabelPoints(e, s, x, n, cen, t, lid, at, l_points, l_labels, l_masses, g_labels, cs, todo);
    } else {
      ThreadSkips(e, l_masses[..], t, todo, lid);
    }
    LabelsStored(e, g_labels[..], before, was, t, todo, lid, at);
    SharedMore(e, t, todo, lid, lp, ll, l_points[..], l_labels[..]);
  }

  /** A thread that has a vector of points caches, labels and counts them. */
  method LabelPoints(ghost e: Env, s: Shape, x: seq<real>, n: nat, cen: array<Num>, ghost t: nat, lid: nat, at: nat,
                     l_points: array<seq<real>>, l_labels: array<seq<int>>, l_masses: array<real>,
                     g_labels: array<int>, ghost cs: seq<Center>, ghost todo: set<nat>)
    requires e.Valid() && s == e.s && x == e.x && n == e.n && lid in todo && lid < s.local && Assigned(e, cen[..], cs)
    requires at == s.v * (Base(s, e.group, t) + lid) && at + s.v <= n && g_labels.Length == n
    requires l_points.Length == s.local * s.p && l_labels.Length == s.local && MassesAt(e, l_masses[..], t, todo)
    modifies l_points, l_labels, l_masses, g_labels
    ensures SharedBy(e, t, lid, l_points[..], l_labels[..])
    ensures forall i :: 0 <= i < l_points.Length && i % s.local != lid ==> l_points[i] == old(l_points[i])
    ensures forall u :: 0 <= u < l_labels.Length && u != lid ==> l_labels[u] == old(l_labels[u])
    ensures forall q :: 0 <= q < n ==> g_labels[q] == if at <= q < at + s.v then e.lab[q] else old(g_labels[q])
    ensures MassesAt(e, l_masses[..], t, todo - {lid})
  {
    hide MassesAt, Assigned, Base, CachedPoint;
    assert cen[..] == old(cen[..]);
    CachePoints(e, s, x, n, at, lid, l_points);
    var labels := LabelVector(e, s, at, lid, l_points, cen, cs);
    l_labels[lid] := labels;
    VStore(g_labels, at, labels);
    assert l_masses[..] == old(l_masses[..]);
    CountPoints(e, s, t, at, lid, labels, l_masses, todo);
  }

  /** A vector store. */
  method VStore(g: array<int>, at: nat, r: seq<int>)
    requires at + |r| <= g.Length
    modifies g
    ensures forall q :: 0 <= q < g.Length ==> g[q] == if at <= q < at + |r| then r[q - at] else old(g[q])
  {
    for lane := 0 to |r|
      invariant forall q :: 0 <= q < g.Length ==> g[q] == if at <= q < at + lane then r[q - at] else old(g[q])
    {
      g[at + lane] := r[lane];
    }
  }

  lemma SizeOfLabels(e: Env, g: seq<int>, was: seq<int>, t: nat, todo: set<nat>)
    requires e.Valid() && LabelsAt(e, g, was, t, todo)
    ensures |g| == e.n
  {
  }

  method LabelVector(ghost e: Env, s: Shape, ghost at: nat, lid: nat, l_points: array<seq<real>>, cen: array<Num>,
                     ghost cs: seq<Center>)
    returns (labels: seq<int>)
    requires e.Valid() && s == e.s && Assigned(e, cen[..], cs) && at + s.v <= e.n
    requires forall f: nat :: f < s.p ==> CachedPoint(e, at, lid, f, l_points[..])
    ensures Loaded(labels, e.lab, s.k, at, s.v)
  {
    hide Assigned, CachedPoint;
    labels := [];
    for lane := 0 to s.v
      invariant |labels| == lane && forall i :: 0 <= i < lane ==> labels[i] == e.lab[at + i]
    {
      var winner := LabelLane(e, s, at, lid, lane, l_points, cen, cs);
      labels := labels + [winner];
    }
  }

  /** The labelling phase of a work-group, in any order of its threads. */
  method LabelPhases(ghost e: Env, s: Shape, x: seq<real>, n: nat, cen: array<Num>, ghost t: nat, group_offset: nat,
                     l_points: array<seq<real>>, l_labels: array<seq<int>>, l_masses: array<real>, g_labels: array<int>,
                     ghost cs: seq<Center>, ghost was: seq<int>)
    requires e.Valid() && s == e.s && x == e.x && n == e.n && Assigned(e, cen[..], cs)
    requires group_offset == s.v * Base(s, e.group, t)
    requires l_points.Length == s.local * s.p && l_labels.Length == s.local
    requires MassesAt(e, l_masses[..], t, Ids(s.local)) && LabelsAt(e, g_labels[..], was, t, Ids(s.local))
    modifies l_points, l_labels, l_masses, g_labels
    ensures Shared(e, t, l_points[..], l_labels[..])
    ensures MassesAt(e, l_masses[..], t, {}) && LabelsAt(e, g_labels[..], was, t, {})
  {
    hide MassesAt, LabelsAt, Assigned, Base, SharedBy;
    assert cen[..] == old(cen[..]);
    var todo := Ids(s.local);
    while todo != {}
      invariant todo <= Ids(s.local) && SharedBut(e, t, todo, l_points[..], l_labels[..])
      invariant MassesAt(e, l_masses[..], t, todo) && LabelsAt(e, g_labels[..], was, t, todo)
      decreases todo
    {
      var lid :| lid in todo;
      LabelPhase(e, s, x, n, cen, t, lid, group_offset, l_points, l_labels, l_masses, g_labels, cs, todo, was);
      todo := todo - {lid};
    }
  }

  // ---------- the rounds of a work-group ----------

  lemma CountingBegins(e: Env, lid: nat, f: int -> real)
    requires e.Valid() && lid < e.s.local
    ensures Part(ThreadLoop(e, lid), e.s.v, f, Counted(e, 0, Ids(e.s.local), lid)) == 0.0
  {
    hide Part;
    assert e.s.GlobalSize() * 0 == 0;
    PartBegins(ThreadLoop(e, lid), e.s.v, f);
  }

  lemma CountingGoesOn(e: Env, t: nat, lid: nat, f: int -> real)
    requires e.Valid() && lid < e.s.local
    ensures Part(ThreadLoop(e, lid), e.s.v, f, Counted(e, t + 1, Ids(e.s.local), lid))
            == Part(ThreadLoop(e, lid), e.s.v, f, Counted(e, t, {}, lid))
  {
    hide Part, Base;
    RoundIsStep(e, t, lid);
    PartSkips(ThreadLoop(e, lid), e.s.v, f, Base(e.s, e.group, t) + lid);
  }

  lemma CountingEnds(e: Env, t: nat, lid: nat, f: int -> real)
    requires e.Valid() && lid < e.s.local && e.s.v * Base(e.s, e.group, t) >= e.n - e.s.v + 1
    ensures Part(ThreadLoop(e, lid), e.s.v, f, Counted(e, t, Ids(e.s.local), lid))
            == Part(ThreadLoop(e, lid), e.s.v, f, e.n)
  {
    hide Part, Base;
    RoundIsStep(e, t, lid);
    Monotone(Base(e.s, e.group, t), Base(e.s, e.group, t) + lid, e.s.v);
    ThreadLoopIs(e, lid);
    PartEnds(ThreadLoop(e, lid), e.s.v, f, Base(e.s, e.group, t) + lid, e.n);
  }

  lemma MassesBegin(e: Env, g: seq<real>)
    requires e.Valid() && |g| == e.s.local * e.s.k && forall i :: 0 <= i < |g| ==> g[i] == 0.0
    ensures MassesAt(e, g, 0, Ids(e.s.local))
  {
    hide Part, ThreadLoop, Counted;
    forall i | 0 <= i < |g|
      ensures MassSum(e, i, Counted(e, 0, Ids(e.s.local), i % e.s.local)) == 0.0
    {
      CellSplit(i, e.s.local, e.s.k);
      CountingBegins(e, i % e.s.local, Mass(e.lab, i / e.s.local));
    }
  }

  lemma CellCountingGoesOn(e: Env, t: nat, i: nat)
    requires e.Valid() && i < e.s.local * e.s.k
    ensures i % e.s.local >= 0
    ensures MassSum(e, i, Counted(e, t + 1, Ids(e.s.local), i % e.s.local))
            == MassSum(e, i, Counted(e, t, {}, i % e.s.local))
  {
    hide Part, ThreadLoop, Counted;
    CellSplit(i, e.s.local, e.s.k);
    CountingGoesOn(e, t, i % e.s.local, Mass(e.lab, i / e.s.local));
  }

  lemma MassesNext(e: Env, g: seq<real>, t: nat)
    requires e.Valid() && MassesAt(e, g, t, {})
    ensures MassesAt(e, g, t + 1, Ids(e.s.local))
  {
    hide MassSum, Counted;
    forall i | 0 <= i < |g|
      ensures i % e.s.local >= 0
      ensures MassSum(e, i, Counted(e, t + 1, Ids(e.s.local), i % e.s.local))
              == MassSum(e, i, Counted(e, t, {}, i % e.s.local))
    {
      CellCountingGoesOn(e, t, i);
    }
  }

  /** After the last round, cell i holds the share of its thread. */
  lemma MassesEnd(e: Env, g: seq<real>, t: nat)
    requires e.Valid() && MassesAt(e, g, t, Ids(e.s.local)) && e.s.v * Base(e.s, e.group, t) >= e.n - e.s.v + 1
    ensures forall i :: 0 <= i < |g| ==> i % e.s.local < e.s.local && g[i] == MassSum(e, i, e.n)
  {
    hide MassSum, Counted, Base;
    forall i | 0 <= i < |g|
      ensures i % e.s.local < e.s.local && g[i] == MassSum(e, i, e.n)
    {
      CellEnds(e, t, i);
    }
  }

  lemma CellEnds(e: Env, t: nat, i: nat)
    requires e.Valid() && e.s.v * Base(e.s, e.group, t) >= e.n - e.s.v + 1
    ensures 0 <= i % e.s.local < e.s.local
    ensures MassSum(e, i, Counted(e, t, Ids(e.s.local), i % e.s.local)) == MassSum(e, i, e.n)
  {
    hide Part, ThreadLoop, Counted, Base;
    Split(i, e.s.local);
    CountingEnds(e, t, i % e.s.local, Mass(e.lab, i / e.s.local));
  }

  /** The loop of a thread is the loop of its work-item. */
  lemma ThreadLoopIs(e: Env, lid: nat)
    requires e.Valid() && lid < e.s.local
    ensures 0 <= e.s.local * e.group + lid < e.s.GlobalSize() && e.s.Launch().Valid(e.n)
    ensures ThreadLoop(e, lid) == e.s.Launch().LoopOf(e.s.local * e.group + lid, e.n)
    ensures Fits(ThreadLoop(e, lid), e.s.v, e.n)
  {
    Monotone(1, e.s.local, e.s.groups);
    InMatrix(lid, e.group, e.s.local, e.s.groups);
    GlobalFits(e.s.Launch().ItemOf(e.s.local * e.group + lid), e.s.v, e.n);
  }

  lemma LabelsBegin(e: Env, g: seq<int>)
    requires e.Valid() && |g| == e.n
    ensures LabelsAt(e, g, g, 0, Ids(e.s.local))
  {
    forall q | 0 <= q < e.n && q / e.s.v < Base(e.s, e.group, 0)
      ensures !InGroup(e, q)
    {
      BeforeItsTurn(e, q);
    }
  }

  lemma BeforeItsTurn(e: Env, q: nat)
    requires e.Valid() && 0 <= q / e.s.v < Base(e.s, e.group, 0)
    ensures !InGroup(e, q)
  {
    var s, w := e.s, q / e.s.v;
    assert s.GlobalSize() * 0 == 0;
    Monotone(e.group, s.groups, s.local);
    Monotone(1, s.local, s.groups);
    DivMod(s.GlobalSize(), 0, w);
    assert Owner(s.Launch(), e.n)(q) == if s.v * w + s.v <= e.n then w else -1;
    QuotientBelow(w, s.local, e.group);
  }

  lemma LabelsNext(e: Env, g: seq<int>, was: seq<int>, t: nat)
    requires e.Valid() && LabelsAt(e, g, was, t, {})
    ensures LabelsAt(e, g, was, t + 1, Ids(e.s.local))
  {
    hide InGroup;
    Distribute(e.s.GlobalSize(), t, 1);
    Monotone(1, e.s.groups, e.s.local);
    forall q | 0 <= q < e.n && Base(e.s, e.group, t) + e.s.local <= q / e.s.v < Base(e.s, e.group, t + 1)
      ensures !InGroup(e, q)
    {
      InGroupInRound(e, t, q);
    }
  }

  lemma LabelsEnd(e: Env, g: seq<int>, was: seq<int>, t: nat)
    requires e.Valid() && LabelsAt(e, g, was, t, Ids(e.s.local)) && e.s.v * Base(e.s, e.group, t) >= e.n - e.s.v + 1
    ensures |g| == |was| == e.n && forall q :: 0 <= q < e.n ==> g[q] == if InGroup(e, q) then e.lab[q] else was[q]
  {
    forall q | 0 <= q < e.n && InGroup(e, q)
      ensures q / e.s.v < Base(e.s, e.group, t)
    {
      if q / e.s.v >= Base(e.s, e.group, t) {
        Monotone(Base(e.s, e.group, t), q / e.s.v, e.s.v);
      }
    }
  }

  lemma SumsBegin(e: Env, g: seq<real>)
    requires e.Valid() && |g| == e.s.k * e.s.Rows() && forall i :: 0 <= i < |g| ==> g[i] == 0.0
    ensures e.s.v * Base(e.s, e.group, 0) >= 0
    ensures GroupAt(e, g, Ids(e.s.local), e.s.v * Base(e.s, e.group, 0), e.s.v * Base(e.s, e.group, 0))
  {
    hide Added, Base, ClusterOf, FeatureOf, BlockOf, ThreadOf;
    Product(e.s.v, Base(e.s, e.group, 0));
    forall i | 0 <= i < |g|
      ensures CellSum(e, i, e.s.v * Base(e.s, e.group, 0)) == 0.0
    {
      CellParts(e.s, i);
      AddedEnds(e.s, e.n, e.group, 0, BlockOf(e.s, i),
                Feature(e.x, e.n, e.lab, e.s.k, ClusterOf(e.s, i) + e.s.k * FeatureOf(e.s, i)));
    }
  }

  lemma SumsEnd(e: Env, g: seq<real>, t: nat)
    requires e.Valid() && e.s.v * Base(e.s, e.group, t) >= 0 && e.s.v * Base(e.s, e.group, t) >= e.n - e.s.v + 1
    requires GroupAt(e, g, Ids(e.s.local), e.s.v * Base(e.s, e.group, t), e.s.v * Base(e.s, e.group, t))
    ensures |g| == e.s.k * e.s.Rows() && forall i :: 0 <= i < |g| ==> g[i] == CellSum(e, i, e.n)
  {
    hide Added, Base, ClusterOf, FeatureOf, BlockOf, ThreadOf;
    forall i | 0 <= i < |g|
      ensures CellSum(e, i, e.s.v * Base(e.s, e.group, t)) == CellSum(e, i, e.n)
    {
      CellParts(e.s, i);
      AddedEnds(e.s, e.n, e.group, t, BlockOf(e.s, i),
                Feature(e.x, e.n, e.lab, e.s.k, ClusterOf(e.s, i) + e.s.k * FeatureOf(e.s, i)));
    }
  }

  /** The rounds of a work-group.  The bounds depend on the group only, so all its threads meet at every barrier: one
      before the labelling phase of a round, one before its centroid phase, and one after the last round. */
  method Rounds(ghost e: Env, s: Shape, x: seq<real>, n: nat, cen: array<Num>, group: nat, l_masses: array<real>,
                l_new_centroids: array<real>, g_labels: array<int>, ghost cs: seq<Center>)
    requires e.Valid() && s == e.s && x == e.x && n == e.n && group == e.group && Assigned(e, cen[..], cs)
    requires l_masses.Length == s.local * s.k && l_new_centroids.Length == s.k * s.Rows()
    requires l_masses != l_new_centroids && g_labels.Length == n
    modifies l_masses, l_new_centroids, g_labels
    ensures forall i :: 0 <= i < l_masses.Length ==> i % s.local < s.local && l_masses[i] == MassSum(e, i, n)
    ensures forall i :: 0 <= i < l_new_centroids.Length ==> l_new_centroids[i] == CellSum(e, i, n)
    ensures forall q :: 0 <= q < n ==> g_labels[q] == if InGroup(e, q) then e.lab[q] else old(g_labels[q])
  {
    hide MassesAt, LabelsAt, GroupAt, Assigned, SharedBut, Shared, InGroup, MassSum, CellSum, Base;
    ghost var was := g_labels[..];
    assert cen[..] == old(cen[..]);
    var l_points := new seq<real>[s.local * s.p](i => []);
    var l_labels := new seq<int>[s.local](i => []);
    ZeroLocal(e, s, l_masses, l_new_centroids);
    LabelsBegin(e, g_labels[..]);
    ghost var t := 0;
    var group_offset := group * s.local * s.v;
    FirstRound(s, group);
    while group_offset < n - s.v + 1
      modifies l_points, l_labels, l_masses, l_new_centroids, g_labels
      invariant group_offset == s.v * Base(s, group, t)
      invariant MassesAt(e, l_masses[..], t, Ids(s.local)) && LabelsAt(e, g_labels[..], was, t, Ids(s.local))
      invariant GroupAt(e, l_new_centroids[..], Ids(s.local), group_offset, group_offset)
      decreases n - group_offset
    {
      RoundOf(e, s, x, n, cen, t, group_offset, l_points, l_labels, l_masses, l_new_centroids, g_labels, cs, was);
      NextRound(s, group, t);
      group_offset := group_offset + s.v * s.GlobalSize();
      t := t + 1;
    }
    MassesEnd(e, l_masses[..], t);
    SumsEnd(e, l_new_centroids[..], t);
    LabelsEnd(e, g_labels[..], was, t);
  }

  lemma FirstRound(s: Shape, group: nat)
    ensures group * s.local * s.v == s.v * Base(s, group, 0) >= 0
  {
    assert s.GlobalSize() * 0 == 0;
    Product(group, s.local);
    Product(group * s.local, s.v);
  }

  lemma NextRound(s: Shape, group: nat, t: nat)
    requires s.Valid()
    ensures s.v * Base(s, group, t + 1) == s.v * Base(s, group, t) + s.v * s.GlobalSize()
    ensures s.v * s.GlobalSize() > 0
  {
    Distribute(s.GlobalSize(), t, 1);
    Distribute(s.v, Base(s, group, t), s.GlobalSize());
    Monotone(1, s.local, s.groups);
    Monotone(1, s.GlobalSize(), s.v);
  }

  /** Zeroes the local buffers. */
  method ZeroLocal(ghost e: Env, s: Shape, l_masses: array<real>, l_new_centroids: array<real>)
    requires e.Valid() && s == e.s && l_masses != l_new_centroids
    requires l_masses.Length == s.local * s.k && l_new_centroids.Length == s.k * s.Rows()
    modifies l_masses, l_new_centroids
    ensures MassesAt(e, l_masses[..], 0, Ids(s.local)) && s.v * Base(s, e.group, 0) >= 0
    ensures GroupAt(e, l_new_centroids[..], Ids(s.local), s.v * Base(s, e.group, 0), s.v * Base(s, e.group, 0))
  {
    hide MassesAt, GroupAt, Base;
    ZeroTile(l_new_centroids, 0, 0, s.k * s.Rows());
    SumsBegin(e, l_new_centroids[..]);
    ghost var sums := l_new_centroids[..];
    ZeroTile(l_masses, 0, 0, s.local * s.k);
    assert l_new_centroids[..] == sums;
    MassesBegin(e, l_masses[..]);
  }

  /** One round: barrier, labelling phase, barrier, centroid phase. */
  method RoundOf(ghost e: Env, s: Shape, x: seq<real>, n: nat, cen: array<Num>, ghost t: nat, group_offset: nat,
                 l_points: array<seq<real>>, l_labels: array<seq<int>>, l_masses: array<real>,
                 l_new_centroids: array<real>, g_labels: array<int>, ghost cs: seq<Center>, ghost was: seq<int>)
    requires e.Valid() && s == e.s && x == e.x && n == e.n && Assigned(e, cen[..], cs)
    requires group_offset == s.v * Base(s, e.group, t) && l_masses != l_new_centroids
    requires l_points.Length == s.local * s.p && l_labels.Length == s.local
    requires MassesAt(e, l_masses[..], t, Ids(s.local)) && LabelsAt(e, g_labels[..], was, t, Ids(s.local))
    requires GroupAt(e, l_new_centroids[..], Ids(s.local), group_offset, group_offset)
    modifies l_points, l_labels, l_masses, l_new_centroids, g_labels
    ensures s.v * Base(s, e.group, t + 1) >= 0
    ensures MassesAt(e, l_masses[..], t + 1, Ids(s.local)) && LabelsAt(e, g_labels[..], was, t + 1, Ids(s.local))
    ensures GroupAt(e, l_new_centroids[..], Ids(s.local), s.v * Base(s, e.group, t + 1), s.v * Base(s, e.group, t + 1))
  {
    hide MassesAt, LabelsAt, GroupAt, Assigned, SharedBut, Shared, Base;
    LabelPhases(e, s, x, n, cen, t, group_offset, l_points, l_labels, l_masses, g_labels, cs, was);
    assert l_new_centroids[..] == old(l_new_centroids[..]);
    MassesNext(e, l_masses[..], t);
    LabelsNext(e, g_labels[..], was, t);
    ghost var masses, labels := l_masses[..], g_labels[..];
    CentroidPhases(e, s, n, t, group_offset, l_points, l_labels, l_new_centroids);
    assert l_masses[..] == masses && g_labels[..] == labels;
  }

  // ---------- copying out ----------

  ghost function SumTiles(s: Shape, x: seq<real>, n: nat, lab: seq<int>): int -> int -> real
    requires s.Valid() && s.v <= n + 1
  {
    tile => t => if t < 0 then 0.0 else Added(s, n, tile, Feature(x, n, lab, s.k, t), n)
  }

  /** A thread copies out its masses. */
  method WriteMasses(ghost e: Env, s: Shape, n: nat, group: nat, lid: nat, l_masses: array<real>, g_masses: array<real>)
    requires e.Valid() && s == e.s && n == e.n && group == e.group && lid < s.local
    requires l_masses.Length == s.local * s.k && s.GlobalSize() * s.k <= g_masses.Length && l_masses != g_masses
    requires forall i :: 0 <= i < l_masses.Length ==> i % s.local < s.local && l_masses[i] == MassSum(e, i, n)
    modifies g_masses
    ensures s.Launch().Valid(n) && 0 <= s.local * group + lid < s.GlobalSize() && (s.local * group + lid) * s.k >= 0
    ensures Holding(g_masses[..], (s.local * group + lid) * s.k, 0, s.k,
                    MassTiles(s.Launch(), e.lab, n)(s.local * group + lid))
    ensures OnlyWithin(g_masses[..], old(g_masses[..]), (s.local * group + lid) * s.k, 0, s.k)
  {
    hide Part, ThreadLoop;
    ThreadLoopIs(e, lid);
    var gid := s.local * group + lid;
    TileInside(gid, s.k, s.GlobalSize());
    var g_masses_offset := gid * s.k;
    for c := 0 to s.k
      invariant forall i :: g_masses_offset <= i < g_masses_offset + c ==>
                  g_masses[i] == Part(ThreadLoop(e, lid), s.v, Mass(e.lab, i - g_masses_offset), n)
      invariant OnlyWithin(g_masses[..], old(g_masses[..]), g_masses_offset, 0, s.k)
    {
      CellOf(lid, c, s.local, s.k);
      g_masses[g_masses_offset + c] := l_masses[s.local * c + lid];
    }
  }

  /** The threads of a block copy out its feature sums. */
  method WriteBlock(ghost e: Env, s: Shape, n: nat, group: nat, b: nat, l_new_centroids: array<real>,
                    g_new_centroids: array<real>)
    requires e.Valid() && s == e.s && n == e.n && group == e.group && b < s.Blocks()
    requires l_new_centroids.Length == s.k * s.Rows() && l_new_centroids != g_new_centroids
    requires s.groups * s.Blocks() * (s.k * s.p) <= g_new_centroids.Length
    requires forall i :: 0 <= i < l_new_centroids.Length ==> l_new_centroids[i] == CellSum(e, i, n)
    modifies g_new_centroids
    ensures Tile(s, group, b) < s.groups * s.Blocks() && 0 <= Tile(s, group, b) * (s.k * s.p) && s.k * s.p >= 0
    ensures Holding(g_new_centroids[..], Tile(s, group, b) * (s.k * s.p), 0, s.k * s.p,
                    SumTiles(s, e.x, n, e.lab)(Tile(s, group, b)))
    ensures OnlyWithin(g_new_centroids[..], old(g_new_centroids[..]), Tile(s, group, b) * (s.k * s.p), 0, s.k * s.p)
  {
    hide Added, ClusterOf, BlockOf, FeatureOf;
    Product(s.k, s.p);
    Product(group, s.Blocks());
    InMatrix(b, group, s.Blocks(), s.groups);
    TileInside(Tile(s, group, b), s.k * s.p, s.groups * s.Blocks());
    var size := s.k * s.p;
    var tile_offset := Tile(s, group, b) * size;
    for i := 0 to size
      invariant forall j :: tile_offset <= j < tile_offset + i ==>
                  g_new_centroids[j] == SumTiles(s, e.x, n, e.lab)(Tile(s, group, b))(j - tile_offset)
      invariant OnlyWithin(g_new_centroids[..], old(g_new_centroids[..]), tile_offset, 0, size)
    {
      CellSplit(i, s.k, s.p);
      CellIndex(s, i % s.k, b, i / s.k);
      g_new_centroids[tile_offset + i] := l_new_centroids[s.p * s.Blocks() * (i % s.k) + (s.p * b + i / s.k)];
    }
  }

  /** The ids first, ..., first + n - 1. */
  ghost function Run(first: nat, n: nat): (ids: set<nat>)
    ensures forall i: nat :: i in ids <==> first <= i < first + n
  {
    if n == 0 then {} else Run(first, n - 1) + {first + n - 1}
  }

  /** All threads of a work-group copy out their masses. */
  method WriteAllMasses(ghost e: Env, s: Shape, n: nat, group: nat, l_masses: array<real>, g_masses: array<real>,
                        ghost done: set<nat>)
    requires e.Valid() && s == e.s && n == e.n && group == e.group && s.Launch().Valid(n)
    requires l_masses.Length == s.local * s.k && s.GlobalSize() * s.k <= g_masses.Length && l_masses != g_masses
    requires forall i :: 0 <= i < l_masses.Length ==> i % s.local < s.local && l_masses[i] == MassSum(e, i, n)
    requires Tiles(g_masses[..], s.k, done, MassTiles(s.Launch(), e.lab, n))
    modifies g_masses
    ensures s.local * group >= 0
    ensures Tiles(g_masses[..], s.k, done + Run(s.local * group, s.local), MassTiles(s.Launch(), e.lab, n))
  {
    hide Tiles, MassTiles, MassSum, Holding, OnlyWithin;
    Product(s.local, group);
    ghost var first := s.local * group;
    assert done + Run(first, 0) == done;
    for lid := 0 to s.local
      invariant Tiles(g_masses[..], s.k, done + Run(first, lid), MassTiles(s.Launch(), e.lab, n))
    {
      ghost var was := g_masses[..];
      WriteMasses(e, s, n, group, lid, l_masses, g_masses);
      TileWritten(g_masses[..], was, s.k, done + Run(first, lid), first + lid, MassTiles(s.Launch(), e.lab, n));
      assert done + Run(first, lid) + {first + lid} == done + Run(first, lid + 1);
    }
  }

  /** All blocks of a work-group copy out their feature sums. */
  method WriteAllBlocks(ghost e: Env, s: Shape, n: nat, group: nat, l_new_centroids: array<real>,
                        g_new_centroids: array<real>, ghost done: set<nat>)
    requires e.Valid() && s == e.s && n == e.n && group == e.group
    requires l_new_centroids.Length == s.k * s.Rows() && l_new_centroids != g_new_centroids
    requires s.groups * s.Blocks() * (s.k * s.p) <= g_new_centroids.Length && s.k * s.p >= 0
    requires forall i :: 0 <= i < l_new_centroids.Length ==> l_new_centroids[i] == CellSum(e, i, n)
    requires Tiles(g_new_centroids[..], s.k * s.p, done, SumTiles(s, e.x, n, e.lab))
    modifies g_new_centroids
    ensures group * s.Blocks() >= 0
    ensures Tiles(g_new_centroids[..], s.k * s.p, done + Run(group * s.Blocks(), s.Blocks()),
                  SumTiles(s, e.x, n, e.lab))
  {
    hide Tiles, SumTiles, CellSum, Holding, OnlyWithin;
    Product(group, s.Blocks());
    ghost var first := group * s.Blocks();
    assert done + Run(first, 0) == done;
    for b := 0 to s.Blocks()
      invariant Tiles(g_new_centroids[..], s.k * s.p, done + Run(first, b), SumTiles(s, e.x, n, e.lab))
    {
      ghost var was := g_new_centroids[..];
      WriteBlock(e, s, n, group, b, l_new_centroids, g_new_centroids);
      TileWritten(g_new_centroids[..], was, s.k * s.p, done + Run(first, b), first + b, SumTiles(s, e.x, n, e.lab));
      assert done + Run(first, b) + {first + b} == done + Run(first, b + 1);
    }
  }

  // ---------- the launch ----------

  /** The members of the work-groups that are not still to do. */
  ghost function MembersOutside(groups: nat, per: nat, todo: set<nat>): (ids: set<nat>)
    requires per > 0
    ensures forall i: nat :: i in ids <==> i < groups * per && i / per !in todo
  {
    set i | i in Ids(groups * per) && i / per !in todo
  }

  lemma GroupLeaves(groups: nat, per: nat, todo: set<nat>, group: nat)
    requires per > 0 && group < groups && group in todo
    ensures group * per >= 0
    ensures MembersOutside(groups, per, todo) + Run(group * per, per) == MembersOutside(groups, per, todo - {group})
  {
    Product(group, per);
    Monotone(group + 1, groups, per);
    Distribute(per, group, 1);
    forall i: nat
      ensures i in Run(group * per, per) <==> i / per == group
    {
      Split(i, per);
      if group * per <= i < group * per + per {
        DivMod(per, group, i - group * per);
      }
    }
  }

  lemma InSomeGroup(i: nat, groups: nat, per: nat)
    requires i < groups * per
    ensures per > 0 && i / per in Ids(groups)
  {
    QuotientBelow(i, per, groups);
    Split(i, per);
  }

  lemma NobodyOutside(groups: nat, per: nat)
    requires per > 0
    ensures MembersOutside(groups, per, Ids(groups)) == {}
    ensures groups * per >= 0 && MembersOutside(groups, per, {}) == Ids(groups * per)
  {
    Product(groups, per);
    hide MembersOutside, Ids;
    forall i: nat | i in MembersOutside(groups, per, Ids(groups))
      ensures false
    {
      InSomeGroup(i, groups, per);
    }
  }

  /** Labels of the work-groups that are not still to do; the others are the first ones. */
  ghost predicate GroupsLabelled(s: Shape, n: nat, g: seq<int>, first: seq<int>, lab: seq<int>, todo: set<nat>)
    requires s.Valid() && s.v <= n + 1
  {
    |g| == |first| == |lab| == n
    && forall q :: 0 <= q < n ==>
         g[q] == if Owner(s.Launch(), n)(q) >= 0 && Owner(s.Launch(), n)(q) / s.local !in todo then lab[q] else first[q]
  }

  /** The fused kernel, in any order of the work-groups. */
  method LaunchFusedFeatureSum(s: Shape, x: seq<real>, n: nat, cen: array<Num>, g_new_centroids: array<real>,
                               g_masses: array<real>, g_labels: array<int>, ghost cs: seq<Center>, ghost lab: seq<int>)
    requires Env(s, x, n, lab, 0).Valid() && Assigned(Env(s, x, n, lab, 0), cen[..], cs)
    requires s.GlobalSize() * s.k <= g_masses.Length && s.groups * s.Blocks() * (s.k * s.p) <= g_new_centroids.Length
    requires g_masses != g_new_centroids && g_labels.Length == n && s.k * s.p >= 0
    modifies g_new_centroids, g_masses, g_labels
    ensures s.Launch().Valid(n) && s.groups * s.Blocks() >= 0
    ensures GroupsLabelled(s, n, g_labels[..], old(g_labels[..]), lab, {})
    ensures Tiles(g_masses[..], s.k, Ids(s.GlobalSize()), MassTiles(s.Launch(), lab, n))
    ensures Tiles(g_new_centroids[..], s.k * s.p, Ids(s.groups * s.Blocks()), SumTiles(s, x, n, lab))
  {
    hide Tiles, MassTiles, SumTiles, GroupsLabelled, Assigned, MembersOutside, Ids;
    NobodyOutside(s.groups, s.local);
    WholeBlocks(s);
    NobodyOutside(s.groups, s.Blocks());
    StartLaunch(s, x, n, lab, g_new_centroids[..], g_masses[..], g_labels[..]);
    var todo := Ids(s.groups);
    ghost var all, first := todo, g_labels[..];
    while todo != {}
      invariant todo <= all
      invariant GroupsLabelled(s, n, g_labels[..], first, lab, todo)
      invariant Tiles(g_masses[..], s.k, MembersOutside(s.groups, s.local, todo), MassTiles(s.Launch(), lab, n))
      invariant Tiles(g_new_centroids[..], s.k * s.p, MembersOutside(s.groups, s.Blocks(), todo),
                      SumTiles(s, x, n, lab))
      decreases todo
    {
      var group :| group in todo;
      RunGroup(s, x, n, cen, group, g_new_centroids, g_masses, g_labels, cs, lab, first, todo);
      todo := todo - {group};
    }
  }

  lemma StartLaunch(s: Shape, x: seq<real>, n: nat, lab: seq<int>, g: seq<real>, masses: seq<real>, labels: seq<int>)
    requires Env(s, x, n, lab, 0).Valid() && |labels| == n && s.k * s.p >= 0
    ensures s.Launch().Valid(n)
    ensures GroupsLabelled(s, n, labels, labels, lab, Ids(s.groups))
    ensures Tiles(masses, s.k, {}, MassTiles(s.Launch(), lab, n)) && Tiles(g, s.k * s.p, {}, SumTiles(s, x, n, lab))
  {
    hide OwnerOf;
    Monotone(1, s.local, s.groups);
    forall q | 0 <= q < n && Owner(s.Launch(), n)(q) >= 0
      ensures Owner(s.Launch(), n)(q) / s.local in Ids(s.groups)
    {
      OwnerIs(s.Launch().ItemOf(0), false, s.v, n, q);
      QuotientBelow(Owner(s.Launch(), n)(q), s.local, s.groups);
    }
  }

  /** One work-group: its rounds, the last barrier, and copying out. */
  method RunGroup(s: Shape, x: seq<real>, n: nat, cen: array<Num>, group: nat, g_new_centroids: array<real>,
                  g_masses: array<real>, g_labels: array<int>, ghost cs: seq<Center>, ghost lab: seq<int>,
                  ghost first: seq<int>, ghost todo: set<nat>)
    requires Env(s, x, n, lab, 0).Valid() && Assigned(Env(s, x, n, lab, 0), cen[..], cs) && group in todo
    requires s.GlobalSize() * s.k <= g_masses.Length && s.groups * s.Blocks() * (s.k * s.p) <= g_new_centroids.Length
    requires g_masses != g_new_centroids && g_labels.Length == n && s.k * s.p >= 0 && s.Launch().Valid(n)
             && s.Blocks() > 0
    requires todo <= Ids(s.groups) && GroupsLabelled(s, n, g_labels[..], first, lab, todo)
    requires Tiles(g_masses[..], s.k, MembersOutside(s.groups, s.local, todo), MassTiles(s.Launch(), lab, n))
    requires Tiles(g_new_centroids[..], s.k * s.p, MembersOutside(s.groups, s.Blocks(), todo), SumTiles(s, x, n, lab))
    modifies g_new_centroids, g_masses, g_labels
    ensures GroupsLabelled(s, n, g_labels[..], first, lab, todo - {group})
    ensures Tiles(g_masses[..], s.k, MembersOutside(s.groups, s.local, todo - {group}), MassTiles(s.Launch(), lab, n))
    ensures Tiles(g_new_centroids[..], s.k * s.p, MembersOutside(s.groups, s.Blocks(), todo - {group}),
                  SumTiles(s, x, n, lab))
  {
    hide Tiles, MassTiles, SumTiles, GroupsLabelled, MembersOutside, MassSum, CellSum, InGroup;
    ghost var e := Env(s, x, n, lab, group);
    assert group in Ids(s.groups);
    Product(s.local, s.k);
    Product(s.k, s.Rows());
    var l_masses := new real[s.local * s.k];
    var l_new_centroids := new real[s.k * s.Rows()];
    ghost var labels, masses, sums := g_labels[..], g_masses[..], g_new_centroids[..];
    Rounds(e, s, x, n, cen, group, l_masses, l_new_centroids, g_labels, cs);
    assert g_masses[..] == masses && g_new_centroids[..] == sums;
    GroupLabels(e, g_labels[..], labels, first, todo);
    ghost var labelled := g_labels[..];
    WriteAllMasses(e, s, n, group, l_masses, g_masses, MembersOutside(s.groups, s.local, todo));
    GroupLeaves(s.groups, s.local, todo, group);
    WriteAllBlocks(e, s, n, group, l_new_centroids, g_new_centroids, MembersOutside(s.groups, s.Blocks(), todo));
    GroupLeaves(s.groups, s.Blocks(), todo, group);
    assert g_labels[..] == labelled;
  }

  lemma GroupLabels(e: Env, now: seq<int>, was: seq<int>, first: seq<int>, todo: set<nat>)
    requires e.Valid() && GroupsLabelled(e.s, e.n, was, first, e.lab, todo) && |now| == e.n
    requires forall q :: 0 <= q < e.n ==> now[q] == if InGroup(e, q) then e.lab[q] else was[q]
    ensures GroupsLabelled(e.s, e.n, now, first, e.lab, todo - {e.group})
  {
    hide Owner;
  }

  // ---------- the host ----------

  /** Features per thread, as the host chooses them. */
  function ThreadFeatures(local: nat, p: nat): nat
    requires local > 0
  {
    if local >= p then 1 else p / local
  }

  function HostShape(groups: nat, local: nat, v: nat, p: nat, k: nat): Shape
    requires local > 0
  {
    Shape(groups, local, v, p, k, ThreadFeatures(local, p))
  }

  /** The sizes of the host are those of the kernel: the local matrix of feature sums, the buffer of tiles, and the
      number of tiles. */
  ghost predicate SizesMatch(s: Shape)
    requires s.Valid()
  {
    && s.local * s.ntf * s.k == s.k * s.Rows()
    && s.GlobalSize() * s.k * s.ntf == s.groups * s.Blocks() * (s.k * s.p)
    && s.GlobalSize() * s.ntf / s.p == s.groups * s.Blocks()
  }

  /** The launch is a valid one with matching sizes exactly when one of the local size and the number of features
      divides the other. */
  lemma HostSizesMatchIff(groups: nat, local: nat, v: nat, p: nat, k: nat)
    requires groups > 0 && local > 0 && v > 0 && p > 0 && k > 0
    ensures var s := HostShape(groups, local, v, p, k);
            s.ntf > 0 && (s.Valid() && SizesMatch(s) <==> local % p == 0 || p % local == 0)
  {
    hide SizesMatch;
    var s := HostShape(groups, local, v, p, k);
    if local >= p {
      LargeGroup(s);
    } else {
      SmallGroup(s);
    }
  }

  /** Three threads for ten features: three features a thread, and a local buffer of nine rows for ten. */
  lemma SizesMayDiffer(groups: nat, v: nat, k: nat)
    requires groups > 0 && v > 0 && k > 0
    ensures var s := HostShape(groups, 3, v, 10, k);
            s.Valid() && s.local * s.ntf * s.k < s.k * s.Rows()
  {
    var s := HostShape(groups, 3, v, 10, k);
    assert s.ntf == 3 && s.BlockSize() == 3 && s.Blocks() == 1 && s.Rows() == 10;
  }

  /** Three features and one thread: the host plans three features a thread, and the kernel divides its two by that, so
      that its blocks have no threads. */
  lemma FewerFeaturesThanPlanned(groups: nat, v: nat, k: nat)
    requires groups > 0 && v > 0 && k > 0
    ensures var s := HostShape(groups, 1, v, 3, k);
            s.Valid() && SizesMatch(s) && KernelFeatures(3) == Some(2) && KernelFeatures(3).value / s.ntf == 0
  {
    HostSizesMatchIff(groups, 1, v, 3, k);
    ThreeFeaturesAreTwo();
  }

  lemma LargeGroup(s: Shape)
    requires s.groups > 0 && s.local >= s.p > 0 && s.v > 0 && s.k > 0 && s.ntf == 1
    ensures s.Valid() && SizesMatch(s) <==> s.local % s.p == 0
    ensures s.p % s.local == 0 ==> s.local % s.p == 0
  {
    hide SizesMatch;
    assert s.BlockSize() == s.p;
    if s.local % s.p == 0 {
      Balanced(s);
    }
    if s.p % s.local == 0 {
      Multiple(s.p, s.local);
    }
  }

  lemma SmallGroup(s: Shape)
    requires s.groups > 0 && 0 < s.local < s.p && s.v > 0 && s.k > 0 && s.ntf == s.p / s.local
    ensures s.ntf > 0 && (s.Valid() && SizesMatch(s) <==> s.p % s.local == 0) && s.local % s.p != 0
  {
    hide SizesMatch;
    BlockIsLarge(s.local, s.p);
    DivMod(s.p, 0, s.local);
    if s.p % s.local == 0 {
      Balanced(s);
    }
    if s.Valid() && SizesMatch(s) {
      MatchingDivides(s);
    }
  }

  lemma MatchingDivides(s: Shape)
    requires s.Valid() && SizesMatch(s) && s.local < s.p && s.ntf == s.p / s.local && s.BlockSize() >= s.local
    ensures s.p % s.local == 0
  {
    Multiple(s.local, s.BlockSize());
    assert s.Rows() == s.p;
    Cancelled(s.k, s.local * s.ntf, s.p);
    DivMod(s.local, s.ntf, 0);
  }

  /** A positive multiple of d that is at most d is d. */
  lemma Multiple(a: nat, d: nat)
    requires d > 0 && 0 < a <= d && a % d == 0
    ensures a == d && a / d == 1
  {
    Split(a, d);
    if a / d > 1 {
      Monotone(2, a / d, d);
    }
  }

  lemma BlockIsLarge(local: nat, p: nat)
    requires 0 < local < p
    ensures p / local > 0 && p / (p / local) >= local
    ensures p % local == 0 ==> p / (p / local) == local
  {
    Split(p, local);
    var q := p / local;
    if q == 0 {
      assert false;
    }
    Split(p, q);
    if p / q < local {
      Monotone(p / q + 1, local, q);
      Distribute(q, p / q, 1);
    }
    if p % local == 0 {
      DivMod(q, local, 0);
    }
  }

  lemma Balanced(s: Shape)
    requires s.groups > 0 && s.local > 0 && s.v > 0 && s.p > 0 && s.k > 0 && s.ntf == ThreadFeatures(s.local, s.p)
    requires if s.local >= s.p then s.local % s.p == 0 else s.p % s.local == 0
    ensures s.Valid() && SizesMatch(s)
  {
    if s.local >= s.p {
      assert s.BlockSize() == s.p && s.ntf == 1;
    } else {
      BlockIsLarge(s.local, s.p);
      assert s.BlockSize() == s.local;
      DivMod(s.local, 1, 0);
    }
    WholeBlocks(s);
    assert s.local * s.ntf == s.p * s.Blocks() by {
      Split(s.local, s.p);
      Split(s.p, s.local);
    }
    SizesFrom(s);
  }

  lemma SizesFrom(s: Shape)
    requires s.Valid() && s.local * s.ntf == s.p * s.Blocks() && s.p > 0
    ensures SizesMatch(s)
  {
    var tiles := s.groups * s.Blocks();
    Product(s.groups, s.Blocks());
    assert s.GlobalSize() * s.ntf == s.p * tiles by {
      Associate(s.groups, s.local, s.ntf);
      Associate(s.groups, s.p, s.Blocks());
      Associate(s.p, s.groups, s.Blocks());
    }
    DivMod(s.p, tiles, 0);
    assert s.GlobalSize() * s.k * s.ntf == s.GlobalSize() * s.ntf * s.k == tiles * (s.k * s.p) by {
      Associate(s.GlobalSize(), s.k, s.ntf);
      Associate(s.GlobalSize(), s.ntf, s.k);
      Associate(tiles, s.p, s.k);
    }
    assert s.local * s.ntf * s.k == s.k * s.Rows();
  }

  lemma SumTilesAddUp(s: Shape, x: seq<real>, n: nat, lab: seq<int>, g: seq<real>, t: nat)
    requires Env(s, x, n, lab, 0).Valid() && s.Launch().Valid(n) && t < s.k * s.p
    requires s.groups * s.Blocks() >= 0 && Tiles(g, s.k * s.p, Ids(s.groups * s.Blocks()), SumTiles(s, x, n, lab))
    ensures RowSum(g, s.k * s.p, s.groups * s.Blocks(), t) == TakenSums(s.Launch(), x, lab, s.k)(t)
  {
    hide TileOwner, Share, Tiles, RowSum, Owner, SumOwned;
    OwnersExist(s.Launch(), n);
    forall q | 0 <= q < n
      ensures TileOwner(s, n)(q) < s.groups * s.Blocks()
      ensures TileOwner(s, n)(q) >= 0 <==> Owner(s.Launch(), n)(q) >= 0
    {
      TileInLaunch(s, n, q);
    }
    var f := Feature(x, n, lab, s.k, t);
    TilesAddUp(g, s.k * s.p, s.groups * s.Blocks(), SumTiles(s, x, n, lab), t, TileOwner(s, n), n, f);
    SameOwned(n, TileOwner(s, n), Owner(s.Launch(), n), f);
  }

  lemma SameOwned(n: nat, own: int -> int, other: int -> int, f: int -> real)
    requires forall q :: 0 <= q < n ==> (own(q) >= 0 <==> other(q) >= 0)
    ensures SumOwned(n, own, f) == SumOwned(n, other, f)
  {
    SumCongruence(n, q => if own(q) >= 0 then f(q) else 0.0, q => if other(q) >= 0 then f(q) else 0.0);
  }

  lemma TileInLaunch(s: Shape, n: nat, q: nat)
    requires s.Valid() && s.v <= n + 1 && Owner(s.Launch(), n)(q) < s.GlobalSize()
    ensures TileOwner(s, n)(q) < s.groups * s.Blocks()
    ensures TileOwner(s, n)(q) >= 0 <==> Owner(s.Launch(), n)(q) >= 0
  {
    hide Owner;
    WholeBlocks(s);
    Associate(s.groups, s.Blocks(), s.BlockSize());
    Product(s.groups, s.Blocks());
    var o := Owner(s.Launch(), n)(q);
    if o >= 0 {
      QuotientBelow(o, s.BlockSize(), s.groups * s.Blocks());
      Split(o, s.BlockSize());
    }
  }

  /** The sizes of the buffers that the host allocates. */
  ghost predicate HostSizes(groups: nat, local: nat, p: nat, k: nat, masses: nat, tiles: nat)
    requires local > 0
  {
    groups * local * k <= masses && groups * local * k * ThreadFeatures(local, p) <= tiles
  }

  /** No assertion fails in the reductions of the tiles of the blocks and of those of the threads. */
  ghost predicate TilesRunThrough(s: Shape)
    requires s.Valid()
  {
    LaunchIsLarge(s);
    && RunsThrough((s.k * s.p) * (s.groups * s.Blocks()), s.k * s.p)
    && RunsThrough(s.k * (s.groups * s.local), s.k)
  }

  /** Both the tiles of the blocks and those of the threads can be reduced. */
  ghost predicate TilesReduce(s: Shape)
    requires s.Valid()
  {
    LaunchIsLarge(s);
    Reduces(s.k * s.p, s.groups * s.Blocks()) && Reduces(s.k, s.groups * s.local)
  }

  /** The fused kernel: labels, masses and feature sums of one assignment step, as far as the launch takes the points.
      Each of them contributes each of its features once, to the cluster that is nearest to it. */
  method UpdateFusedFeatureSum(groups: nat, local: nat, v: nat, x: seq<real>, n: nat, p: nat, k: nat, cen: array<Num>,
                               g_labels: array<int>, masses: array<real>, new_masses: array<real>,
                               new_centroids: array<real>, tmp_new_centroids: array<real>, ghost cs: seq<Center>)
    returns (completed: bool)
    requires KernelFits(p) && groups > 0 && local > 0 && 0 < v <= n + 1 && (local % p == 0 || p % local == 0)
    requires |x| == n * p && Holds(cen[..], cs, k, p) && HasLive(cs) && g_labels.Length == n
    requires HostSizes(groups, local, p, k, new_masses.Length, tmp_new_centroids.Length)
    requires masses.Length == k && new_centroids.Length == k * p
    requires masses != new_masses && new_centroids != tmp_new_centroids && tmp_new_centroids != new_masses
    requires masses != new_centroids && masses != tmp_new_centroids && new_centroids != new_masses
    modifies g_labels, masses, new_masses, new_centroids, tmp_new_centroids
    ensures k > 0 && |cs| == k && Centers(cs, p) && Launch(groups, local, false, v).Valid(n)
    ensures HostShape(groups, local, v, p, k).Valid()
    ensures var s, lab := Launch(groups, local, false, v), Assign(ColumnMajor.Rows(x, n, p), cs, p);
            g_labels[..] == RelabelledBy(s, old(g_labels[..]), lab)
    ensures completed <==> TilesRunThrough(HostShape(groups, local, v, p, k))
    ensures TilesReduce(HostShape(groups, local, v, p, k)) ==>
              var s, lab := Launch(groups, local, false, v), Assign(ColumnMajor.Rows(x, n, p), cs, p);
              && completed
              && (forall c :: 0 <= c < k ==> masses[c] == old(masses[c]) + TakenMasses(s, lab)(c))
              && (forall t :: 0 <= t < new_centroids.Length ==>
                    new_centroids[t] == old(new_centroids[t]) + TakenSums(s, x, lab, k)(t))
  {
    hide Tiles, RowSum, RunsThrough, Reduces, TakenMasses, TakenSums, Reduced, Holds, HasLive, Assign, MassTiles,
         SumTiles, SizesMatch, Owner;
    ShapeOfHolds(cen[..], cs, k, p);
    ghost var lab := Assign(ColumnMajor.Rows(x, n, p), cs, p);
    Monotone(1, p, k);
    var num_thread_features := if local >= p then 1 else p / local;
    var s := Shape(groups, local, v, p, k, num_thread_features);
    HostSizesMatchIff(groups, local, v, p, k);
    var num_tiles := groups * local * num_thread_features / p;
    TilesFit(s);
    ghost var first := g_labels[..];
    LaunchFusedFeatureSum(s, x, n, cen, tmp_new_centroids, new_masses, g_labels, cs, lab);
    AllLabelled(s, n, g_labels[..], first, lab);
    ghost var tiles, massTiles := tmp_new_centroids[..], new_masses[..];
    forall t: nat | t < k * p
      ensures RowSum(tiles, k * p, num_tiles, t) == TakenSums(s.Launch(), x, lab, k)(t)
    {
      SumTilesAddUp(s, x, n, lab, tiles, t);
    }
    forall c: nat | c < k
      ensures RowSum(massTiles, k, groups * local, c) == TakenMasses(s.Launch(), lab)(c)
    {
      MassTilesAddUp(s.Launch(), lab, n, k, massTiles, c);
    }
    LaunchIsLarge(s);
    var added := AddTiles(new_centroids, tmp_new_centroids, k * p, num_tiles, TakenSums(s.Launch(), x, lab, k));
    completed := AddTiles(masses, new_masses, k, groups * local, TakenMasses(s.Launch(), lab));
    completed := added && completed;
  }

  lemma LaunchIsLarge(s: Shape)
    requires s.Valid()
    ensures 0 < s.k * s.p && 0 < s.k * (s.groups * s.local) == s.groups * s.local * s.k && 0 < s.groups * s.Blocks()
    ensures 0 < (s.k * s.p) * (s.groups * s.Blocks())
  {
    WholeBlocks(s);
    Monotone(1, s.local, s.groups);
    Monotone(1, s.groups * s.local, s.k);
    Monotone(1, s.Blocks(), s.groups);
    Monotone(1, s.p, s.k);
    Monotone(1, s.groups * s.Blocks(), s.k * s.p);
  }

  lemma TilesFit(s: Shape)
    requires s.Valid() && SizesMatch(s)
    ensures s.groups * s.Blocks() * (s.k * s.p) == (s.k * s.p) * (s.GlobalSize() * s.ntf / s.p)
    ensures s.groups * s.Blocks() * (s.k * s.p) == s.GlobalSize() * s.k * s.ntf
    ensures s.GlobalSize() * s.ntf / s.p == s.groups * s.Blocks() >= 0
  {
    Product(s.groups, s.Blocks());
  }

  lemma AllLabelled(s: Shape, n: nat, g: seq<int>, first: seq<int>, lab: seq<int>)
    requires s.Valid() && s.Launch().Valid(n) && GroupsLabelled(s, n, g, first, lab, {})
    ensures g == RelabelledBy(s.Launch(), first, lab)
  {
    hide Owner;
    forall q | 0 <= q < n
      ensures g[q] == RelabelledBy(s.Launch(), first, lab)[q]
    {
    }
  }
}
