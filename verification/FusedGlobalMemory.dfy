/** The fused feature-sum kernel without local memory, for single points, with either kind of strides: tiles are added
    up where they are in global memory. */
module FusedGlobalMemory {
  import opened Sums
  import opened Clustering
  import opened Numbers
  import opened ColumnMajor
  import opened Indices
  import opened Strides
  import opened Kernels
  import opened Stages
  import opened ReduceVectorParcol
  import opened KernelChoice
  import FusedLocalStride
  import GroupHistograms
  import F = FusedFeatureSum

  /** With local strides, rounds stay in their blocks, or one block has all points. */
  predicate RoundsFit(groups: nat, local: nat, n: nat)
    requires groups > 0 && local > 0
  {
    var block := (n + groups - 1) / groups;
    block % local == 0 || n <= block
  }

  /** That is when every point is taken once. */
  lemma FitIff(groups: nat, local: nat, n: nat)
    requires groups > 0 && local > 0
    ensures var r := FusedLocalStride.Rounds(n, groups, local, 1);
            r.Valid() && (RoundsFit(groups, local, n)
                          <==> forall q: nat :: q < n ==> FusedLocalStride.Times(r, groups, q) == 1)
  {
    hide FusedLocalStride.Times;
    var r := FusedLocalStride.Rounds(n, groups, local, 1);
    FusedLocalStride.OnceIff(r);
    Split(n + groups - 1, groups);
    assert r.Block() == (n + groups - 1) / groups;
  }

  /** What a launch works on: n points x, whose labels are going to be lab. */
  datatype Work = Work(s: F.Shape, local_stride: bool, x: seq<real>, n: nat, lab: seq<int>) {
    ghost predicate Valid() {
      && s.Valid() && s.v == 1 && |lab| == n && Labels(lab, s.k) && |x| == n * s.p
      && (local_stride ==> RoundsFit(s.groups, s.local, n))
    }

    function Launch(): Launch {
      Stages.Launch(s.groups, s.local, local_stride, 1)
    }

    /** Points per work-group. */
    function Block(): nat
      requires s.groups > 0
    {
      (n + s.groups - 1) / s.groups
    }

    /** Where a work-group begins, how far its rounds are apart, and where it ends. */
    function Start(group: nat): nat
      requires s.groups > 0
    {
      Product(group, Block());
      if local_stride then group * Block() else group * s.local
    }

    function Stride(): nat {
      if local_stride then s.local else s.groups * s.local
    }

    function Bound(group: nat): nat
      requires s.groups > 0
    {
      Product(group, Block());
      if local_stride then group * Block() + RealBlockSize(group * Block(), Block(), n) else n
    }

    function Round(group: nat, t: nat): nat
      requires s.groups > 0
    {
      Start(group) + Stride() * t
    }

    /** The work-item that takes a point. */
    ghost function Place(): int -> int
      requires s.groups > 0 && s.local > 0
    {
      q => if 0 <= q < n then OwnerOf(s.groups, s.local, local_stride, 1, n, q) else -1
    }

    /** The tile that it is added to. */
    ghost function TilePlace(): int -> int
      requires s.Valid()
    {
      q => if Place()(q) < 0 then -1 else Place()(q) / s.BlockSize()
    }

    function Gid(group: nat, lid: nat): nat {
      group * s.local + lid
    }
  }

  // ---------- who takes which point ----------

  /** A point has its place in its block, or its residue. */
  lemma PlaceIs(w: Work, q: nat)
    requires w.Valid() && q < w.n
    ensures w.Block() > 0 && w.s.groups * w.s.local > 0
    ensures if w.local_stride then
              q / w.Block() < w.s.groups
              && w.Place()(q) == q / w.Block() * w.s.local + q % w.Block() % w.s.local
            else w.Place()(q) == q % (w.s.groups * w.s.local)
  {
    var b := w.Block();
    Monotone(1, w.s.local, w.s.groups);
    Split(w.n + w.s.groups - 1, w.s.groups);
    assert BlockSize(Item(0, 0, w.s.groups, w.s.local), 1, w.n) == b;
    if q / b >= w.s.groups {
      Split(q, b);
      Monotone(w.s.groups, q / b, b);
    }
  }

  /** It is a work-item of this work-group. */
  predicate InGroup(w: Work, group: nat, gid: int) {
    w.Gid(group, 0) <= gid < w.Gid(group, w.s.local)
  }

  /** In a round, a work-item takes the point at its own position, as far as there is one, and nobody else in the group
      takes any of the points up to the next round. */
  lemma InRound(w: Work, group: nat, t: nat, q: nat)
    requires w.Valid() && group < w.s.groups && w.Round(group, t) < w.Bound(group)
    requires w.Round(group, t) <= q < w.Round(group, t) + w.Stride() && q < w.n
    ensures var u := q - w.Round(group, t);
            if u < w.s.local then w.Place()(q) == w.Gid(group, u) else !InGroup(w, group, w.Place()(q))
  {
    hide OwnerOf;
    PlaceIs(w, q);
    var u := q - w.Round(group, t);
    Product(group, w.s.local);
    if w.local_stride {
      RoundInBlock(group, w.Block(), w.s.local, t, w.n);
      DivMod(w.Block(), group, w.s.local * t + u);
      DivMod(w.s.local, t, u);
    } else {
      var size := w.s.groups * w.s.local;
      Monotone(group + 1, w.s.groups, w.s.local);
      Distribute(w.s.local, group, 1);
      if group * w.s.local + u < size {
        DivMod(size, t, group * w.s.local + u);
      } else {
        Distribute(size, t, 1);
        DivMod(size, t + 1, group * w.s.local + u - size);
      }
    }
  }

  /** A round that begins in a block of whole rounds stays in it. */
  lemma RoundInBlock(group: nat, block: nat, local: nat, t: nat, n: nat)
    requires local > 0 && (block % local == 0 || n <= block) && group * block >= 0 && local * t >= 0
    requires group * block + local * t < group * block + RealBlockSize(group * block, block, n)
    ensures local * t + local <= block || (group == 0 && n <= block)
  {
    if block % local == 0 {
      Split(block, local);
      if t >= block / local {
        Monotone(block / local, t, local);
      }
      Monotone(t + 1, block / local, local);
      Distribute(local, t, 1);
    } else if group > 0 {
      Monotone(1, group, block);
    }
  }

  /** Before its first round, and from its end on, the points are not those of a work-group. */
  lemma OutsideRounds(w: Work, group: nat, t: nat, q: nat)
    requires w.Valid() && group < w.s.groups && q < w.n
    requires q < w.Start(group) || (w.Round(group, t) >= w.Bound(group) && q >= w.Round(group, t))
    ensures !InGroup(w, group, w.Place()(q))
  {
    hide OwnerOf, RoundsFit;
    PlaceIs(w, q);
    Product(group, w.s.local);
    if w.local_stride {
      OutsideBlock(w.Block(), group, w.s.local, w.n, q, w.Round(group, t));
    } else {
      Monotone(group, w.s.groups, w.s.local);
      DivMod(w.s.groups * w.s.local, 0, q);
    }
  }

  lemma OutsideBlock(d: nat, group: nat, local: nat, n: nat, q: nat, m: nat)
    requires d > 0 && local > 0 && q < n && group * d >= 0
    requires q < group * d || (m >= group * d + RealBlockSize(group * d, d, n) && q >= m >= group * d)
    ensures var gid := q / d * local + q % d % local; gid < group * local || gid >= group * local + local
  {
    Split(q, d);
    Split(q % d, local);
    assert d * group == group * d;
    Apart(q / d, group, local, q % d % local);
  }

  /** Work-items of different groups have different ids. */
  lemma Apart(a: nat, b: nat, local: nat, lid: nat)
    requires a != b && lid < local
    ensures a * local + lid < b * local || a * local + lid >= b * local + local
  {
    if a < b {
      Monotone(a + 1, b, local);
      Distribute(local, a, 1);
    } else {
      Monotone(b + 1, a, local);
      Distribute(local, b, 1);
    }
  }

  // ---------- shares of the points so far ----------

  lemma ShareIdle(own: int -> int, tile: int, f: int -> real, a: nat, b: nat)
    requires a <= b && forall q :: a <= q < b ==> own(q) != tile
    ensures Share(b, own, tile, f) == Share(a, own, tile, f)
  {
    SumSplit(a, b - a, q => if own(q) == tile then f(q) else 0.0, q => 0.0);
    SumOfZeros(b - a, q => 0.0);
  }

  /** Nothing has a share before the first round, and all of a share is there after the last one. */
  lemma ShareEnds(w: Work, group: nat, own: int -> int, tile: int, f: int -> real)
    requires w.Valid() && group < w.s.groups
    requires forall q :: own(q) == tile ==> 0 <= q < w.n && InGroup(w, group, w.Place()(q))
    ensures w.Round(group, 0) == w.Start(group) && Share(w.Start(group), own, tile, f) == 0.0
    ensures forall t: nat :: w.Round(group, t) >= w.Bound(group) ==>
              Share(w.Round(group, t), own, tile, f) == Share(w.n, own, tile, f)
  {
    hide Share, Work.Place, InGroup, Work.Start, Work.Bound, Work.Stride;
    assert w.Stride() * 0 == 0;
    forall q | 0 <= q < w.Start(group)
      ensures own(q) != tile
    {
      if q < w.n {
        OutsideRounds(w, group, 0, q);
      }
    }
    ShareIdle(own, tile, f, 0, w.Start(group));
    NoShareYet(own, tile, f);
    forall t: nat | w.Round(group, t) >= w.Bound(group)
      ensures Share(w.Round(group, t), own, tile, f) == Share(w.n, own, tile, f)
    {
      AllShared(w, group, t, own, tile, f);
    }
  }

  lemma NoShareYet(own: int -> int, tile: int, f: int -> real)
    ensures Share(0, own, tile, f) == 0.0
  {
  }

  lemma AllShared(w: Work, group: nat, t: nat, own: int -> int, tile: int, f: int -> real)
    requires w.Valid() && group < w.s.groups && w.Round(group, t) >= w.Bound(group)
    requires forall q :: own(q) == tile ==> 0 <= q < w.n && InGroup(w, group, w.Place()(q))
    ensures Share(w.Round(group, t), own, tile, f) == Share(w.n, own, tile, f)
  {
    hide Share, Work.Place, InGroup, Work.Round, Work.Bound;
    var m := w.Round(group, t);
    forall q | m <= q < w.n || w.n <= q < m
      ensures own(q) != tile
    {
      if q < w.n {
        OutsideRounds(w, group, t, q);
      }
    }
    if m <= w.n {
      ShareIdle(own, tile, f, m, w.n);
    } else {
      ShareIdle(own, tile, f, w.n, m);
    }
  }

  // ---------- cells of a buffer ----------

  /** Which thread of a work-group writes a cell, and what the cell holds when the points before m are done. */
  datatype Cells = Cells(writer: int -> int, value: (int, nat) -> real)

  /** Only a thread's own cells have changed; they have got to m. */
  ghost predicate ThreadAt(g: seq<real>, was: seq<real>, c: Cells, lid: int, m: nat) {
    |g| == |was| && forall i :: 0 <= i < |g| ==> g[i] == if c.writer(i) == lid then c.value(i, m) else was[i]
  }

  /** In the middle of a phase: cells of threads still to do are at m0, those of the others at m1, and cells of no
      thread of the group are as they were. */
  ghost predicate PhaseAt(g: seq<real>, was: seq<real>, c: Cells, all: set<int>, todo: set<int>, m0: nat, m1: nat) {
    && |g| == |was| && todo <= all
    && forall i :: 0 <= i < |g| ==>
         g[i] == if c.writer(i) !in all then was[i] else c.value(i, if c.writer(i) in todo then m0 else m1)
  }

  lemma ThreadBegins(g: seq<real>, was: seq<real>, c: Cells, all: set<int>, todo: set<int>, m0: nat, m1: nat, lid: int)
    requires PhaseAt(g, was, c, all, todo, m0, m1) && lid in todo
    ensures ThreadAt(g, g, c, lid, m0)
  {
  }

  lemma ThreadEnds(now: seq<real>, g: seq<real>, was: seq<real>, c: Cells, all: set<int>, todo: set<int>, m0: nat,
                   m1: nat, lid: int)
    requires PhaseAt(g, was, c, all, todo, m0, m1) && lid in todo && ThreadAt(now, g, c, lid, m1)
    ensures PhaseAt(now, was, c, all, todo - {lid}, m0, m1)
  {
  }

  // ---------- the cells of the kernel ----------

  /** The masses of work-item gid are the k cells from gid * k on. */
  ghost function MassCells(w: Work, group: nat): Cells
    requires w.Valid()
  {
    Cells(i => i / w.s.k - group * w.s.local,
          (i: int, m: nat) => Share(m, w.Place(), i / w.s.k, Mass(w.lab, AsNat(i % w.s.k))))
  }

  function AsNat(t: int): nat {
    if t < 0 then 0 else t
  }

  /** Cell i belongs to tile i / (k * p), and in it to a feature and a cluster. */
  function TileOf(s: F.Shape, i: int): int
    requires s.Valid()
  {
    PositiveSizes(s);
    i / (s.k * s.p)
  }

  function FeatureOf(s: F.Shape, i: int): int
    requires s.Valid()
  {
    PositiveSizes(s);
    i % (s.k * s.p) / s.k
  }

  lemma PositiveSizes(s: F.Shape)
    requires s.Valid()
    ensures s.p > 0 && s.k * s.p > 0
  {
    F.WholeBlocks(s);
    Monotone(1, s.p, s.k);
  }

  /** The sum that cell i is for, with the points before m. */
  ghost function SumIn(w: Work, i: int, m: nat): real
    requires w.Valid()
  {
    PositiveSizes(w.s);
    Share(m, w.TilePlace(), TileOf(w.s, i), Feature(w.x, w.n, w.lab, w.s.k, AsNat(i % (w.s.k * w.s.p))))
  }

  /** The features of a tile are dealt out to the threads of its block. */
  ghost function SumCells(w: Work, group: nat): Cells
    requires w.Valid()
  {
    Cells(i => TileOf(w.s, i) * w.s.BlockSize() + FeatureOf(w.s, i) % w.s.BlockSize() - group * w.s.local,
          (i: int, m: nat) => SumIn(w, i, m))
  }

  /** Before the first round the threads of a block zero its tile, cell by cell in turn. */
  ghost function ZeroCells(s: F.Shape, group: nat): Cells
    requires s.Valid()
  {
    PositiveSizes(s);
    Cells(i => TileOf(s, i) * s.BlockSize() + i % (s.k * s.p) % s.BlockSize() - group * s.local,
          (i: int, m: nat) => 0.0)
  }

  // ---------- the centroid phase ----------

  /** A thread has got to q + 1 with the features before f, and to q with the others. */
  ghost predicate FeaturesAt(w: Work, group: nat, g: seq<real>, was: seq<real>, lid: nat, f: nat, q: nat)
    requires w.Valid()
  {
    && |g| == |was|
    && forall i :: 0 <= i < |g| ==>
         g[i] == if SumCells(w, group).writer(i) != lid then was[i]
                 else SumIn(w, i, if FeatureOf(w.s, i) < f then q + 1 else q)
  }

  /** The cell for feature f of a point in cluster c. */
  function CellFor(s: F.Shape, tile: nat, f: nat, c: nat): nat {
    tile * (s.k * s.p) + s.k * f + c
  }

  lemma CellIs(s: F.Shape, tile: nat, f: nat, c: nat)
    requires s.Valid() && f < s.p && c < s.k
    ensures var i := CellFor(s, tile, f, c);
            TileOf(s, i) == tile && FeatureOf(s, i) == f && s.k * s.p > 0 && i % (s.k * s.p) % s.k == c
            && i % (s.k * s.p) == s.k * f + c
    ensures tile * (s.k * s.p) >= 0 && s.k * f >= 0
  {
    PositiveSizes(s);
    Product(tile, s.k * s.p);
    Product(s.k, f);
    InMatrix(c, f, s.k, s.p);
    DivMod(s.k * s.p, tile, c + s.k * f);
    DivMod(s.k, f, c);
  }

  lemma CellParts(s: F.Shape, i: nat)
    requires s.Valid()
    ensures s.k * s.p > 0 && TileOf(s, i) >= 0 && 0 <= FeatureOf(s, i) < s.p
    ensures i == CellFor(s, TileOf(s, i), FeatureOf(s, i), i % (s.k * s.p) % s.k)
  {
    PositiveSizes(s);
    Split(i, s.k * s.p);
    Split(i % (s.k * s.p), s.k);
    QuotientBelow(i % (s.k * s.p), s.k, s.p);
  }

  /** The block and the position in it that make up an id. */
  lemma IdIs(s: F.Shape, gid: nat, tile: nat, r: nat)
    requires s.Valid() && r < s.BlockSize()
    ensures tile * s.BlockSize() + r == gid <==> tile == gid / s.BlockSize() && r == gid % s.BlockSize()
  {
    Split(gid, s.BlockSize());
    DivMod(s.BlockSize(), tile, r);
  }

  /** Which cells a thread writes. */
  lemma WriterIs(w: Work, group: nat, lid: nat, i: nat)
    requires w.Valid()
    ensures var gid := w.Gid(group, lid);
            SumCells(w, group).writer(i) == lid
            <==> TileOf(w.s, i) == gid / w.s.BlockSize() && FeatureOf(w.s, i) % w.s.BlockSize() == gid % w.s.BlockSize()
  {
    hide TileOf, FeatureOf;
    CellParts(w.s, i);
    Product(group, w.s.local);
    Split(FeatureOf(w.s, i), w.s.BlockSize());
    IdIs(w.s, w.Gid(group, lid), TileOf(w.s, i), FeatureOf(w.s, i) % w.s.BlockSize());
  }

  lemma SumGrows(w: Work, i: nat, q: nat)
    requires w.Valid() && q < w.n
    ensures w.s.k * w.s.p > 0 && i % (w.s.k * w.s.p) >= 0
    ensures SumIn(w, i, q + 1) == SumIn(w, i, q) +
              (if w.TilePlace()(q) == TileOf(w.s, i) && w.lab[q] == i % (w.s.k * w.s.p) % w.s.k then
                 At(w.x, q + w.n * FeatureOf(w.s, i))
               else 0.0)
  {
    hide Work.TilePlace;
    CellParts(w.s, i);
  }

  /** A thread's cells for one feature: only that of the point's cluster has something to add. */
  lemma CellGains(w: Work, group: nat, lid: nat, f: nat, q: nat, i: nat)
    requires w.Valid() && f < w.s.p && q < w.n && SumCells(w, group).writer(i) == lid
    requires var gid := w.Gid(group, lid);
             && gid / w.s.BlockSize() >= 0 && f % w.s.BlockSize() == gid % w.s.BlockSize()
             && w.TilePlace()(q) == gid / w.s.BlockSize()
    ensures FeatureOf(w.s, i) <= f || FeatureOf(w.s, i) >= f + w.s.BlockSize()
    ensures var at := CellFor(w.s, w.Gid(group, lid) / w.s.BlockSize(), f, w.lab[q]);
            FeatureOf(w.s, i) == f ==>
              SumIn(w, i, q + 1) == SumIn(w, i, q) + if i == at then At(w.x, q + w.n * f) else 0.0
  {
    hide SumIn, Work.TilePlace, TileOf, FeatureOf, SumCells;
    WriterIs(w, group, lid, i);
    CellParts(w.s, i);
    F.NextResidue(f, FeatureOf(w.s, i), w.s.BlockSize());
    SumGrows(w, i, q);
    CellIs(w.s, w.Gid(group, lid) / w.s.BlockSize(), f, w.lab[q]);
  }

  lemma CellIsOwn(w: Work, group: nat, lid: nat, f: nat, c: nat)
    requires w.Valid() && f < w.s.p && c < w.s.k && w.Gid(group, lid) / w.s.BlockSize() >= 0
    requires f % w.s.BlockSize() == w.Gid(group, lid) % w.s.BlockSize()
    ensures var at := CellFor(w.s, w.Gid(group, lid) / w.s.BlockSize(), f, c);
            SumCells(w, group).writer(at) == lid && FeatureOf(w.s, at) == f
  {
    hide TileOf, FeatureOf, SumCells, CellFor;
    CellIs(w.s, w.Gid(group, lid) / w.s.BlockSize(), f, c);
    WriterIs(w, group, lid, CellFor(w.s, w.Gid(group, lid) / w.s.BlockSize(), f, c));
  }

  /** A thread adds one feature of one point to the one cell that it counts for. */
  lemma FeatureAdded(w: Work, group: nat, g: seq<real>, now: seq<real>, was: seq<real>, lid: nat, f: nat, q: nat,
                     at: nat)
    requires w.Valid() && f < w.s.p && q < w.n && FeaturesAt(w, group, g, was, lid, f, q)
    requires var gid := w.Gid(group, lid);
             && gid / w.s.BlockSize() >= 0 && f % w.s.BlockSize() == gid % w.s.BlockSize()
             && w.TilePlace()(q) == gid / w.s.BlockSize() && at == CellFor(w.s, gid / w.s.BlockSize(), f, w.lab[q])
    requires at < |g| && now == g[at := g[at] + At(w.x, q + w.n * f)]
    ensures FeaturesAt(w, group, now, was, lid, f + w.s.BlockSize(), q)
    ensures (f + w.s.BlockSize()) % w.s.BlockSize() == w.Gid(group, lid) % w.s.BlockSize()
  {
    hide SumIn, Work.TilePlace, FeatureOf, SumCells, CellFor, FeaturesAt;
    F.NextResidue(f, f, w.s.BlockSize());
    CellIsOwn(w, group, lid, f, w.lab[q]);
    forall i: nat | i < |g| && SumCells(w, group).writer(i) == lid
      ensures FeatureOf(w.s, i) <= f || FeatureOf(w.s, i) >= f + w.s.BlockSize()
      ensures FeatureOf(w.s, i) == f ==>
                SumIn(w, i, q + 1) == SumIn(w, i, q) + if i == at then At(w.x, q + w.n * f) else 0.0
    {
      CellGains(w, group, lid, f, q, i);
    }
    FeaturesAdvance(w, group, g, now, was, lid, f, f + w.s.BlockSize(), q, at, At(w.x, q + w.n * f));
  }

  lemma FeaturesAdvance(w: Work, group: nat, g: seq<real>, now: seq<real>, was: seq<real>, lid: nat, f: nat, next: nat,
                        q: nat, at: nat, value: real)
    requires w.Valid() && FeaturesAt(w, group, g, was, lid, f, q) && f < next
    requires at < |g| && SumCells(w, group).writer(at) == lid && FeatureOf(w.s, at) == f
             && now == g[at := g[at] + value]
    requires forall i: nat :: i < |g| && SumCells(w, group).writer(i) == lid ==>
               && (FeatureOf(w.s, i) <= f || FeatureOf(w.s, i) >= next)
               && (FeatureOf(w.s, i) == f ==> SumIn(w, i, q + 1) == SumIn(w, i, q) + if i == at then value else 0.0)
    ensures FeaturesAt(w, group, now, was, lid, next, q)
  {
    hide SumIn, FeatureOf, SumCells;
  }

  lemma FeaturesBegin(w: Work, group: nat, g: seq<real>, was: seq<real>, lid: nat, f: nat, q: nat)
    requires w.Valid() && ThreadAt(g, was, SumCells(w, group), lid, q) && f == w.Gid(group, lid) % w.s.BlockSize()
    ensures FeaturesAt(w, group, g, was, lid, f, q) && f % w.s.BlockSize() == f
  {
    hide SumIn, TileOf, FeatureOf;
    var bs := w.s.BlockSize();
    Split(w.Gid(group, lid), bs);
    DivMod(bs, 0, f);
    forall i | 0 <= i < |g| && SumCells(w, group).writer(i) == lid
      ensures FeatureOf(w.s, i) >= f
    {
      WriterIs(w, group, lid, i);
      CellParts(w.s, i);
      Split(FeatureOf(w.s, i), bs);
      Product(bs, FeatureOf(w.s, i) / bs);
    }
  }

  lemma FeaturesEnd(w: Work, group: nat, g: seq<real>, was: seq<real>, lid: nat, f: nat, q: nat)
    requires w.Valid() && FeaturesAt(w, group, g, was, lid, f, q) && f >= w.s.p
    ensures ThreadAt(g, was, SumCells(w, group), lid, q + 1)
  {
    hide SumIn, TileOf, FeatureOf;
    forall i | 0 <= i < |g|
      ensures FeatureOf(w.s, i) < w.s.p
    {
      CellParts(w.s, i);
    }
  }

  /** The tiles of all blocks of the launch. */
  lemma TileInside(w: Work, group: nat, lid: nat, f: nat, c: nat)
    requires w.Valid() && group < w.s.groups && lid < w.s.local && f < w.s.p && c < w.s.k
    ensures var tile := w.Gid(group, lid) / w.s.BlockSize();
            && 0 <= tile < w.s.groups * w.s.Blocks() && tile * (w.s.k * w.s.p) >= 0
            && 0 <= CellFor(w.s, tile, f, c) < w.s.groups * w.s.Blocks() * (w.s.k * w.s.p)
  {
    F.WholeBlocks(w.s);
    Product(group, w.s.local);
    Monotone(group + 1, w.s.groups, w.s.local);
    Distribute(w.s.local, group, 1);
    Associate(w.s.groups, w.s.Blocks(), w.s.BlockSize());
    Product(w.s.groups, w.s.Blocks());
    var tile := w.Gid(group, lid) / w.s.BlockSize();
    QuotientBelow(w.Gid(group, lid), w.s.BlockSize(), w.s.groups * w.s.Blocks());
    Split(w.Gid(group, lid), w.s.BlockSize());
    InMatrix(c, f, w.s.k, w.s.p);
    InMatrix(c + w.s.k * f, tile, w.s.k * w.s.p, w.s.groups * w.s.Blocks());
    Product(tile, w.s.k * w.s.p);
  }

  /** A thread adds its features of one point of its block. */
  method AddPoint(ghost w: Work, s: F.Shape, group: nat, lid: nat, g: array<real>, x: seq<real>, n: nat, q: nat,
                  c: int, ghost was: seq<real>)
    requires w.Valid() && s == w.s && x == w.x && n == w.n && group < s.groups && lid < s.local
    requires g.Length >= s.groups * s.Blocks() * (s.k * s.p) && q < n && c == w.lab[q]
    requires w.TilePlace()(q) == w.Gid(group, lid) / s.BlockSize()
    requires ThreadAt(g[..], was, SumCells(w, group), lid, q)
    modifies g
    ensures ThreadAt(g[..], was, SumCells(w, group), lid, q + 1)
  {
    hide FeaturesAt, ThreadAt, CellFor, Work.TilePlace;
    Product(group, s.local);
    var gid := group * s.local + lid;
    var l_feature, tile := gid % s.BlockSize(), gid / s.BlockSize();
    Split(gid, s.BlockSize());
    var f := l_feature;
    FeaturesBegin(w, group, g[..], was, lid, f, q);
    while f < s.p
      invariant f % s.BlockSize() == l_feature && FeaturesAt(w, group, g[..], was, lid, f, q)
    {
      TileInside(w, group, lid, f, c);
      PointInside(n, f, s.p, q);
      ghost var before := g[..];
      var at := CellFor(s, tile, f, c);
      g[at] := g[at] + x[n * f + q];
      FeatureAdded(w, group, before, g[..], was, lid, f, q, at);
      f := f + s.BlockSize();
    }
    FeaturesEnd(w, group, g[..], was, lid, f, q);
  }

  lemma PointInside(n: nat, f: nat, p: nat, q: nat)
    requires f < p && q < n
    ensures 0 <= n * f + q < n * p
  {
    InMatrix(q, f, n, p);
  }

  /** Where the block of a thread begins in its group, and its tile. */
  function First(s: F.Shape, lid: nat): nat
    requires s.Valid()
  {
    Split(lid, s.BlockSize());
    Product(s.BlockSize(), lid / s.BlockSize());
    s.BlockSize() * (lid / s.BlockSize())
  }

  function HomeTile(w: Work, group: nat, lid: nat): nat
    requires w.s.Valid()
  {
    Split(w.Gid(group, lid), w.s.BlockSize());
    w.Gid(group, lid) / w.s.BlockSize()
  }

  /** Groups are made up of blocks, so an id's block is that of its position in the group. */
  lemma BlockInGroup(s: F.Shape, group: nat, u: nat)
    requires s.Valid()
    ensures group * s.local >= 0 && (group * s.local + u) / s.BlockSize() == group * s.Blocks() + u / s.BlockSize()
  {
    F.WholeBlocks(s);
    Product(group, s.local);
    Product(group, s.Blocks());
    Split(u, s.BlockSize());
    Associate(s.BlockSize(), s.Blocks(), group);
    Distribute(s.BlockSize(), s.Blocks() * group, u / s.BlockSize());
    DivMod(s.BlockSize(), group * s.Blocks() + u / s.BlockSize(), u % s.BlockSize());
  }

  /** In a round, the tile of a thread's block gets the points of the block. */
  lemma TileInRound(w: Work, group: nat, t: nat, lid: nat, q: nat)
    requires w.Valid() && group < w.s.groups && lid < w.s.local && w.Round(group, t) < w.Bound(group)
    requires w.Round(group, t) <= q < w.Round(group, t) + w.Stride() && q < w.n
    ensures var from := w.Round(group, t) + First(w.s, lid);
            w.TilePlace()(q) == HomeTile(w, group, lid) <==> from <= q < from + w.s.BlockSize()
  {
    hide Work.Place, Work.Round, Work.Bound;
    InRound(w, group, t, q);
    var u, bs := q - w.Round(group, t), w.s.BlockSize();
    F.BlockOfThread(w.s, lid);
    BlockInGroup(w.s, group, lid);
    Product(group, w.s.Blocks());
    Split(lid, bs);
    if u < w.s.local {
      BlockInGroup(w.s, group, u);
      Split(u, bs);
      if bs * (lid / bs) <= u < bs * (lid / bs) + bs {
        DivMod(bs, lid / bs, u - bs * (lid / bs));
      }
    } else {
      OtherGroup(w.s, group, lid, w.Place()(q));
    }
  }

  lemma OtherGroup(s: F.Shape, group: nat, lid: nat, gid: int)
    requires s.Valid() && lid < s.local && group * s.local >= 0
    requires gid < group * s.local || gid >= group * s.local + s.local
    ensures gid >= 0 ==> gid / s.BlockSize() != (group * s.local + lid) / s.BlockSize()
  {
    if gid >= 0 {
      var bs, b := s.BlockSize(), lid / s.BlockSize();
      BlockInGroup(s, group, lid);
      F.BlockOfThread(s, lid);
      F.WholeBlocks(s);
      Split(gid, bs);
      Distribute(bs, group * s.Blocks(), b);
      Associate(bs, s.Blocks(), group);
      Distribute(bs, gid / bs, 1);
    }
  }

  /** A thread adds its features of the points of its block in a round. */
  method AddBlock(ghost w: Work, s: F.Shape, group: nat, ghost t: nat, group_offset: nat, lid: nat, g: array<real>,
                  x: seq<real>, n: nat, l_labels: array<int>)
    requires w.Valid() && s == w.s && x == w.x && n == w.n && group < s.groups && lid < s.local
    requires group_offset == w.Round(group, t) < w.Bound(group) && l_labels.Length == s.local
    requires forall u :: 0 <= u < s.local && group_offset + u < n ==> l_labels[u] == w.lab[group_offset + u]
    requires g.Length >= s.groups * s.Blocks() * (s.k * s.p)
    requires ThreadAt(g[..], g[..], SumCells(w, group), lid, group_offset)
    modifies g
    ensures ThreadAt(g[..], old(g[..]), SumCells(w, group), lid, group_offset + w.Stride())
  {
    hide ThreadAt, Work.TilePlace, Work.Round, Work.Bound, Work.Valid, Work.Stride, SumCells;
    ghost var was := g[..];
    ValidShape(w);
    F.WholeBlocks(s);
    F.BlockOfThread(s, lid);
    var block_size := s.p / s.ntf;
    var num_blocks := s.local / block_size;
    var num_block_points := s.local / num_blocks;
    var block_points_offset := num_block_points * (lid / block_size);
    var num_real_block_points := F.RealPoints(n, group_offset + block_points_offset, num_block_points, 1);
    BeforeBlock(w, group, t, lid, g[..], was);
    for bp := block_points_offset to block_points_offset + num_real_block_points
      invariant ThreadAt(g[..], was, SumCells(w, group), lid, group_offset + bp)
    {
      var c := l_labels[bp];
      TileInRound(w, group, t, lid, group_offset + bp);
      AddPoint(w, s, group, lid, g, x, n, group_offset + bp, c, was);
    }
    BehindBlock(w, group, t, lid, g[..], was);
  }

  lemma ValidShape(w: Work)
    requires w.Valid()
    ensures w.s.Valid() && w.s.v == 1 && w.Stride() >= w.s.local
  {
    Monotone(1, w.s.groups, w.s.local);
  }

  lemma BeforeBlock(w: Work, group: nat, t: nat, lid: nat, g: seq<real>, was: seq<real>)
    requires w.Valid() && group < w.s.groups && lid < w.s.local && w.Round(group, t) < w.Bound(group)
    requires ThreadAt(g, was, SumCells(w, group), lid, w.Round(group, t))
    ensures var m := w.Round(group, t) + First(w.s, lid);
            ThreadAt(g, was, SumCells(w, group), lid, m)
  {
    hide Work.TilePlace, Work.Round, Work.Bound, SumIn, SumCells, RoundsFit;
    var m := w.Round(group, t) + First(w.s, lid);
    F.BlockOfThread(w.s, lid);
    ValidShape(w);
    forall i | 0 <= i < |g| && SumCells(w, group).writer(i) == lid
      ensures SumCells(w, group).value(i, m) == SumCells(w, group).value(i, w.Round(group, t))
    {
      SumIdle(w, group, t, lid, i, w.Round(group, t), m);
    }
  }

  lemma BehindBlock(w: Work, group: nat, t: nat, lid: nat, g: seq<real>, was: seq<real>)
    requires w.Valid() && group < w.s.groups && lid < w.s.local && w.Round(group, t) < w.Bound(group)
    requires var first := w.Round(group, t) + First(w.s, lid);
             ThreadAt(g, was, SumCells(w, group), lid, first + F.RealPoints(w.n, first, w.s.BlockSize(), 1))
    ensures ThreadAt(g, was, SumCells(w, group), lid, w.Round(group, t) + w.Stride())
  {
    hide Work.TilePlace, Work.Round, Work.Bound, SumIn, SumCells, RoundsFit;
    var first := w.Round(group, t) + First(w.s, lid);
    var m := first + F.RealPoints(w.n, first, w.s.BlockSize(), 1);
    F.BlockOfThread(w.s, lid);
    ValidShape(w);
    forall i | 0 <= i < |g| && SumCells(w, group).writer(i) == lid
      ensures SumCells(w, group).value(i, w.Round(group, t) + w.Stride()) == SumCells(w, group).value(i, m)
    {
      SumIdle(w, group, t, lid, i, m, w.Round(group, t) + w.Stride());
    }
  }

  /** Points that are not those of its block change nothing for the cells of a thread. */
  lemma SumIdle(w: Work, group: nat, t: nat, lid: nat, i: nat, a: nat, b: nat)
    requires w.Valid() && group < w.s.groups && lid < w.s.local && w.Round(group, t) < w.Bound(group)
    requires SumCells(w, group).writer(i) == lid && w.Round(group, t) <= a <= b <= w.Round(group, t) + w.Stride()
    requires var from := w.Round(group, t) + First(w.s, lid);
             b <= from || a >= w.n || a >= from + w.s.BlockSize()
    ensures SumCells(w, group).value(i, b) == SumCells(w, group).value(i, a)
  {
    hide Work.Round, Work.Bound, TileOf, FeatureOf, OwnerOf, Share, First, RoundsFit;
    WriterIs(w, group, lid, i);
    PositiveSizes(w.s);
    forall q | a <= q < b
      ensures w.TilePlace()(q) != TileOf(w.s, i)
    {
      TileInRoundOrNot(w, group, t, lid, q);
    }
    ShareIdle(w.TilePlace(), TileOf(w.s, i), Feature(w.x, w.n, w.lab, w.s.k, AsNat(i % (w.s.k * w.s.p))), a, b);
  }

  lemma TileInRoundOrNot(w: Work, group: nat, t: nat, lid: nat, q: nat)
    requires w.Valid() && group < w.s.groups && lid < w.s.local && w.Round(group, t) < w.Bound(group)
    requires w.Round(group, t) <= q < w.Round(group, t) + w.Stride()
    ensures var from := w.Round(group, t) + First(w.s, lid);
            w.TilePlace()(q) == HomeTile(w, group, lid) ==> from <= q < from + w.s.BlockSize() && q < w.n
  {
    hide Work.Round, Work.Bound, Work.TilePlace, HomeTile, First, RoundsFit;
    if q < w.n {
      TileInRound(w, group, t, lid, q);
    } else {
      NoTile(w, group, lid, q);
    }
  }

  lemma NoTile(w: Work, group: nat, lid: nat, q: nat)
    requires w.Valid() && q >= w.n
    ensures w.TilePlace()(q) < HomeTile(w, group, lid)
  {
    assert w.Place()(q) == -1;
  }

  // ---------- the labelling phase ----------

  /** The labels are those of one assignment step from the old centroids. */
  ghost predicate Assigned(w: Work, cen: seq<Num>, cs: seq<Center>)
    requires w.Valid()
  {
    PositiveSizes(w.s);
    Holds(cen, cs, w.s.k, w.s.p) && HasLive(cs) && w.lab == Assign(ColumnMajor.Rows(w.x, w.n, w.s.p), cs, w.s.p)
  }

  /** The group's points before m are labelled, and those of the round that begins at m whose threads are done. */
  ghost predicate LabelsAt(w: Work, group: nat, g: seq<int>, was: seq<int>, m: nat, todo: set<int>)
    requires w.Valid()
  {
    && |g| == |was| == w.n
    && forall q :: 0 <= q < w.n ==>
         g[q] == if InGroup(w, group, w.Place()(q)) && (q < m || (q < m + w.s.local && q - m !in todo)) then w.lab[q]
                 else was[q]
  }

  /** The labels that the threads leave for each other in a round. */
  ghost predicate Shared(w: Work, l_labels: seq<int>, m: nat, todo: set<int>)
    requires w.Valid()
  {
    |l_labels| == w.s.local
    && forall u :: 0 <= u < w.s.local && u !in todo && m + u < w.n ==> l_labels[u] == w.lab[m + u]
  }

  /** In a round, a work-item gets just the point at its position. */
  lemma OwnInRound(w: Work, group: nat, t: nat, lid: nat, q: nat)
    requires w.Valid() && group < w.s.groups && lid < w.s.local && w.Round(group, t) < w.Bound(group)
    requires w.Round(group, t) <= q < w.Round(group, t) + w.Stride()
    ensures w.Place()(q) == w.Gid(group, lid) <==> q == w.Round(group, t) + lid && q < w.n
  {
    hide Work.Round, Work.Bound, OwnerOf, RoundsFit;
    if q < w.n {
      InRound(w, group, t, q);
    }
  }

  lemma MassGains(w: Work, group: nat, t: nat, lid: nat, c: nat)
    requires w.Valid() && group < w.s.groups && lid < w.s.local && w.Round(group, t) < w.Bound(group)
    ensures var m, gid, f := w.Round(group, t), w.Gid(group, lid), Mass(w.lab, c);
            Share(m + w.Stride(), w.Place(), gid, f) == Share(m, w.Place(), gid, f) +
              if m + lid < w.n && w.lab[m + lid] == c then 1.0 else 0.0
  {
    hide Work.Round, Work.Bound, Work.Place, RoundsFit;
    var m, gid, f := w.Round(group, t), w.Gid(group, lid), Mass(w.lab, c);
    ValidShape(w);
    forall q | m <= q < m + w.Stride()
      ensures w.Place()(q) == gid <==> q == m + lid && q < w.n
    {
      OwnInRound(w, group, t, lid, q);
    }
    ShareIdle(w.Place(), gid, f, m, m + lid);
    ShareIdle(w.Place(), gid, f, m + lid + 1, m + w.Stride());
    assert Share(m + lid + 1, w.Place(), gid, f) ==
           Share(m + lid, w.Place(), gid, f) + if w.Place()(m + lid) == gid then f(m + lid) else 0.0;
  }

  /** The cells of the masses that a thread writes. */
  lemma MassCellIs(w: Work, group: nat, lid: nat, c: nat)
    requires w.Valid() && group < w.s.groups && lid < w.s.local && c < w.s.k
    ensures var i := w.Gid(group, lid) * w.s.k + c;
            && 0 <= i < w.s.groups * w.s.local * w.s.k && i / w.s.k == w.Gid(group, lid) && i % w.s.k == c
            && MassCells(w, group).writer(i) == lid
  {
    var gid := w.Gid(group, lid);
    Product(group, w.s.local);
    Monotone(group + 1, w.s.groups, w.s.local);
    Distribute(w.s.local, group, 1);
    DivMod(w.s.k, gid, c);
    InMatrix(c, gid, w.s.k, w.s.groups * w.s.local);
  }

  lemma MassesGain(w: Work, group: nat, t: nat, lid: nat, g: seq<real>, now: seq<real>, was: seq<real>)
    requires w.Valid() && group < w.s.groups && lid < w.s.local && w.Round(group, t) < w.Bound(group)
    requires ThreadAt(g, was, MassCells(w, group), lid, w.Round(group, t)) && |g| >= w.s.groups * w.s.local * w.s.k
    requires var p := w.Round(group, t) + lid;
             if p < w.n then
               var at := w.Gid(group, lid) * w.s.k + w.lab[p]; 0 <= at < |g| && now == g[at := g[at] + 1.0]
             else now == g
    ensures ThreadAt(now, was, MassCells(w, group), lid, w.Round(group, t) + w.Stride())
  {
    hide Work.Round, Work.Bound, Work.Place, RoundsFit, Share, Work.Stride;
    var p := w.Round(group, t) + lid;
    if p < w.n {
      MassCellIs(w, group, lid, w.lab[p]);
    }
    forall i: nat | i < |g| && MassCells(w, group).writer(i) == lid
      ensures i % w.s.k >= 0
      ensures MassCells(w, group).value(i, w.Round(group, t) + w.Stride()) ==
              MassCells(w, group).value(i, w.Round(group, t)) + if p < w.n && w.lab[p] == i % w.s.k then 1.0 else 0.0
      ensures p < w.n && w.lab[p] == i % w.s.k ==> i == w.Gid(group, lid) * w.s.k + w.lab[p]
    {
      MassCellGains(w, group, t, lid, i);
    }
  }

  lemma MassCellGains(w: Work, group: nat, t: nat, lid: nat, i: nat)
    requires w.Valid() && group < w.s.groups && lid < w.s.local && w.Round(group, t) < w.Bound(group)
    requires MassCells(w, group).writer(i) == lid
    ensures i % w.s.k >= 0
    ensures var p := w.Round(group, t) + lid;
            && MassCells(w, group).value(i, w.Round(group, t) + w.Stride()) ==
                 MassCells(w, group).value(i, w.Round(group, t)) +
                   (if p < w.n && w.lab[p] == i % w.s.k then 1.0 else 0.0)
            && (p < w.n && w.lab[p] == i % w.s.k ==> i == w.Gid(group, lid) * w.s.k + w.lab[p])
  {
    hide Work.Round, Work.Bound, Work.Place, RoundsFit, Share, Work.Stride;
    Split(i, w.s.k);
    assert i / w.s.k == w.Gid(group, lid) && AsNat(i % w.s.k) == i % w.s.k;
    MassGains(w, group, t, lid, i % w.s.k);
  }

  lemma LabelsGain(w: Work, group: nat, t: nat, lid: nat, g: seq<int>, now: seq<int>, was: seq<int>, todo: set<int>)
    requires w.Valid() && group < w.s.groups && lid < w.s.local && lid in todo && w.Round(group, t) < w.Bound(group)
    requires LabelsAt(w, group, g, was, w.Round(group, t), todo)
    requires var p := w.Round(group, t) + lid; now == if p < w.n then g[p := w.lab[p]] else g
    ensures LabelsAt(w, group, now, was, w.Round(group, t), todo - {lid})
  {
    hide Work.Round, Work.Bound, Work.Place, RoundsFit;
    var p := w.Round(group, t) + lid;
    ValidShape(w);
    if p < w.n {
      InRound(w, group, t, p);
    }
  }

  /** A thread labels and counts its point of a round, if there is one. */
  method LabelPoint(ghost w: Work, s: F.Shape, group: nat, ghost t: nat, group_offset: nat, lid: nat, x: seq<real>,
                    n: nat, cen: array<Num>, l_labels: array<int>, g_labels: array<int>, g_masses: array<real>,
                    ghost cs: seq<Center>, ghost todo: set<int>, ghost was: seq<int>)
    requires w.Valid() && s == w.s && x == w.x && n == w.n && group < s.groups && lid < s.local && lid in todo
    requires group_offset == w.Round(group, t) < w.Bound(group) && Assigned(w, cen[..], cs)
    requires l_labels != g_labels && g_masses.Length >= s.groups * s.local * s.k
    requires Shared(w, l_labels[..], group_offset, todo) && LabelsAt(w, group, g_labels[..], was, group_offset, todo)
    requires ThreadAt(g_masses[..], g_masses[..], MassCells(w, group), lid, group_offset)
    modifies l_labels, g_labels, g_masses
    ensures Shared(w, l_labels[..], group_offset, todo - {lid})
    ensures LabelsAt(w, group, g_labels[..], was, group_offset, todo - {lid})
    ensures ThreadAt(g_masses[..], old(g_masses[..]), MassCells(w, group), lid, group_offset + w.Stride())
  {
    hide LabelsAt, ThreadAt, MassCells, Work.Round, Work.Bound, Work.Stride, RoundsFit, HasLive, Holds, Nearest;
    ghost var labels, masses := g_labels[..], g_masses[..];
    SizeOfLabels(w, group, labels, was, group_offset, todo);
    var p := group_offset + lid;
    if p < n {
      PositiveSizes(s);
      var winner := SelectNearest(x, n, s.p, cen, s.k, p, cs);
      assert winner == w.lab[p];
      MassCellIs(w, group, lid, winner);
      l_labels[lid] := winner;
      g_labels[p] := winner;
      Product(group, s.local);
      var at := (group * s.local + lid) * s.k + winner;
      g_masses[at] := g_masses[at] + 1.0;
    }
    LabelsGain(w, group, t, lid, labels, g_labels[..], was, todo);
    MassesGain(w, group, t, lid, masses, g_masses[..], masses);
  }

  lemma SizeOfLabels(w: Work, group: nat, g: seq<int>, was: seq<int>, m: nat, todo: set<int>)
    requires w.Valid() && LabelsAt(w, group, g, was, m, todo)
    ensures |g| == w.n
  {
  }

  // ---------- the rounds of a work-group ----------

  /** Before a round that begins at m: labels, masses and sums have got to m. */
  ghost predicate LabelledTo(w: Work, group: nat, g: seq<int>, was: seq<int>, m: nat)
    requires w.Valid()
  {
    LabelsAt(w, group, g, was, m, Ids(w.s.local))
  }

  ghost predicate AddedTo(g: seq<real>, was: seq<real>, c: Cells, local: nat, m: nat) {
    PhaseAt(g, was, c, Ids(local), Ids(local), m, m)
  }

  lemma PhaseBegins(g: seq<real>, was: seq<real>, c: Cells, local: nat, m: nat, next: nat)
    ensures AddedTo(g, was, c, local, m) <==> PhaseAt(g, was, c, Ids(local), Ids(local), m, next)
    ensures AddedTo(g, was, c, local, next) <==> PhaseAt(g, was, c, Ids(local), {}, m, next)
  {
  }

  lemma LabelsNext(w: Work, group: nat, t: nat, g: seq<int>, was: seq<int>)
    requires w.Valid() && group < w.s.groups && w.Round(group, t) < w.Bound(group)
    requires LabelsAt(w, group, g, was, w.Round(group, t), {})
    ensures LabelledTo(w, group, g, was, w.Round(group, t) + w.Stride())
  {
    hide Work.Round, Work.Bound, Work.Place, RoundsFit;
    var m := w.Round(group, t);
    ValidShape(w);
    forall q: nat | q < w.n && m + w.s.local <= q < m + w.Stride()
      ensures !InGroup(w, group, w.Place()(q))
    {
      InRound(w, group, t, q);
    }
  }

  /** The labelling phase of a work-group, in any order of its threads. */
  method LabelPhase(ghost w: Work, s: F.Shape, group: nat, ghost t: nat, group_offset: nat, x: seq<real>, n: nat,
                    cen: array<Num>, l_labels: array<int>, g_labels: array<int>, g_masses: array<real>,
                    ghost cs: seq<Center>, ghost was: seq<int>, ghost massesWere: seq<real>)
    requires w.Valid() && s == w.s && x == w.x && n == w.n && group < s.groups
    requires group_offset == w.Round(group, t) < w.Bound(group) && Assigned(w, cen[..], cs)
    requires l_labels != g_labels && l_labels.Length == s.local && g_masses.Length >= s.groups * s.local * s.k
    requires LabelledTo(w, group, g_labels[..], was, group_offset)
    requires AddedTo(g_masses[..], massesWere, MassCells(w, group), s.local, group_offset)
    modifies l_labels, g_labels, g_masses
    ensures Shared(w, l_labels[..], group_offset, {})
    ensures LabelledTo(w, group, g_labels[..], was, group_offset + w.Stride())
    ensures AddedTo(g_masses[..], massesWere, MassCells(w, group), s.local, group_offset + w.Stride())
  {
    hide LabelsAt, PhaseAt, ThreadAt, MassCells, Work.Round, Work.Bound, Work.Stride, RoundsFit, AddedTo, Assigned,
         Work.Valid;
    ghost var next, c := group_offset + w.Stride(), MassCells(w, group);
    PhaseBegins(g_masses[..], massesWere, c, s.local, group_offset, next);
    var todo: set<int> := Ids(s.local);
    assert cen[..] == old(cen[..]);
    while todo != {}
      invariant todo <= Ids(s.local) && Shared(w, l_labels[..], group_offset, todo)
      invariant LabelsAt(w, group, g_labels[..], was, group_offset, todo)
      invariant PhaseAt(g_masses[..], massesWere, c, Ids(s.local), todo, group_offset, next)
      decreases todo
    {
      var lid :| lid in todo;
      ghost var before := g_masses[..];
      ThreadBegins(before, massesWere, c, Ids(s.local), todo, group_offset, next, lid);
      LabelPoint(w, s, group, t, group_offset, lid, x, n, cen, l_labels, g_labels, g_masses, cs, todo, was);
      ThreadEnds(g_masses[..], before, massesWere, c, Ids(s.local), todo, group_offset, next, lid);
      todo := todo - {lid};
    }
    PhaseBegins(g_masses[..], massesWere, c, s.local, group_offset, next);
    LabelsNext(w, group, t, g_labels[..], was);
  }

  /** The centroid phase, likewise. */
  method CentroidPhase(ghost w: Work, s: F.Shape, group: nat, ghost t: nat, group_offset: nat, x: seq<real>, n: nat,
                       l_labels: array<int>, g: array<real>, ghost was: seq<real>)
    requires w.Valid() && s == w.s && x == w.x && n == w.n && group < s.groups
    requires group_offset == w.Round(group, t) < w.Bound(group) && l_labels.Length == s.local
    requires Shared(w, l_labels[..], group_offset, {}) && g.Length >= s.groups * s.Blocks() * (s.k * s.p)
    requires AddedTo(g[..], was, SumCells(w, group), s.local, group_offset)
    modifies g
    ensures AddedTo(g[..], was, SumCells(w, group), s.local, group_offset + w.Stride())
  {
    hide PhaseAt, ThreadAt, SumCells, Work.Round, Work.Bound, Work.Stride, RoundsFit, AddedTo, Work.Valid;
    ghost var next, c := group_offset + w.Stride(), SumCells(w, group);
    PhaseBegins(g[..], was, c, s.local, group_offset, next);
    var todo: set<int> := Ids(s.local);
    while todo != {}
      invariant todo <= Ids(s.local) && PhaseAt(g[..], was, c, Ids(s.local), todo, group_offset, next)
      decreases todo
    {
      var lid :| lid in todo;
      ghost var before := g[..];
      ThreadBegins(before, was, c, Ids(s.local), todo, group_offset, next, lid);
      AddBlock(w, s, group, t, group_offset, lid, g, x, n, l_labels);
      ThreadEnds(g[..], before, was, c, Ids(s.local), todo, group_offset, next, lid);
      todo := todo - {lid};
    }
    PhaseBegins(g[..], was, c, s.local, group_offset, next);
  }

  // ---------- zeroing ----------

  lemma PhaseGrows(now: seq<real>, g: seq<real>, was: seq<real>, c: Cells, done: set<int>, lid: int, m: nat)
    requires PhaseAt(g, was, c, done, {}, m, m) && ThreadAt(now, g, c, lid, m)
    ensures PhaseAt(now, was, c, done + {lid}, {}, m, m)
  {
  }

  lemma ZeroWriterIs(s: F.Shape, group: nat, lid: nat, i: nat)
    requires s.Valid()
    ensures s.k * s.p > 0
    ensures var gid := group * s.local + lid;
            ZeroCells(s, group).writer(i) == lid
            <==> i / (s.k * s.p) == gid / s.BlockSize() && i % (s.k * s.p) % s.BlockSize() == gid % s.BlockSize()
  {
    PositiveSizes(s);
    Product(group, s.local);
    Split(i, s.k * s.p);
    Split(i % (s.k * s.p), s.BlockSize());
    IdIs(s, group * s.local + lid, i / (s.k * s.p), i % (s.k * s.p) % s.BlockSize());
  }

  /** A thread zeroes its cells of the tile of its block. */
  method ZeroSums(ghost w: Work, s: F.Shape, group: nat, lid: nat, g: array<real>)
    requires w.Valid() && s == w.s && group < s.groups && lid < s.local
    requires g.Length >= s.groups * s.Blocks() * (s.k * s.p)
    modifies g
    ensures ThreadAt(g[..], old(g[..]), ZeroCells(s, group), lid, 0)
  {
    hide ZeroCells, OnlyWithin;
    PositiveSizes(s);
    Product(group, s.local);
    var gid := group * s.local + lid;
    Split(gid, s.BlockSize());
    TileInside(w, group, lid, s.p - 1, s.k - 1);
    Distribute(s.k, s.p - 1, 1);
    var l_feature, tile_offset := gid % s.BlockSize(), gid / s.BlockSize() * (s.k * s.p);
    GroupHistograms.ZeroStrided(g, tile_offset, s.k * s.p, l_feature, s.BlockSize());
    forall i: nat | i < g.Length
      ensures g[i] == if ZeroCells(s, group).writer(i) == lid then 0.0 else old(g[i])
    {
      ZeroedCell(s, group, lid, i, g[..], old(g[..]));
    }
    ZeroIsZero(s, group);
  }

  lemma ZeroIsZero(s: F.Shape, group: nat)
    requires s.Valid()
    ensures forall i, m: nat :: ZeroCells(s, group).value(i, m) == 0.0
  {
  }

  lemma ZeroedCell(s: F.Shape, group: nat, lid: nat, i: nat, g: seq<real>, was: seq<real>)
    requires s.Valid() && group * s.local >= 0 && s.k * s.p >= 0
    requires var gid, T := group * s.local + lid, s.k * s.p;
             var off := gid / s.BlockSize() * T;
             && 0 <= off && off + T <= |g| && OnlyWithin(g, was, off, 0, T) && i < |g|
             && (forall c: nat :: c < T && c % s.BlockSize() != gid % s.BlockSize() ==> g[off + c] == was[off + c])
             && (forall c: nat :: c < T && c % s.BlockSize() == gid % s.BlockSize() ==> g[off + c] == 0.0)
    ensures g[i] == if ZeroCells(s, group).writer(i) == lid then 0.0 else was[i]
  {
    hide ZeroCells;
    var gid, T := group * s.local + lid, s.k * s.p;
    var tile := gid / s.BlockSize();
    ZeroWriterIs(s, group, lid, i);
    Split(gid, s.BlockSize());
    Split(i, T);
    if tile * T <= i < tile * T + T {
      DivMod(T, tile, i - tile * T);
      assert g[tile * T + (i - tile * T)] == g[i];
    }
  }

  /** A thread of the group belongs to a tile of the group. */
  lemma TilesOfGroup(s: F.Shape, group: nat, tile: nat, r: nat)
    requires s.Valid() && r < s.BlockSize()
    ensures 0 <= tile * s.BlockSize() + r - group * s.local < s.local
            <==> group * s.Blocks() <= tile < group * s.Blocks() + s.Blocks()
  {
    var bs, B := s.BlockSize(), s.Blocks();
    F.WholeBlocks(s);
    Associate(bs, B, group);
    Product(group, B);
    var base := group * B;
    assert group * s.local == bs * base;
    Distribute(bs, base, B);
    if tile < base {
      Monotone(tile + 1, base, bs);
      Distribute(bs, tile, 1);
    } else if tile < base + B {
      Monotone(base, tile, bs);
      Monotone(tile + 1, base + B, bs);
      Distribute(bs, tile, 1);
    } else {
      Monotone(base + B, tile, bs);
    }
  }

  /** Whoever zeroes a cell, it is a thread of the group that adds to it. */
  lemma SameWriters(w: Work, group: nat, i: nat)
    requires w.Valid()
    ensures ZeroCells(w.s, group).writer(i) in Ids(w.s.local) <==> SumCells(w, group).writer(i) in Ids(w.s.local)
  {
    hide TileOf, FeatureOf, Work.Valid;
    ValidShape(w);
    CellParts(w.s, i);
    Split(FeatureOf(w.s, i), w.s.BlockSize());
    Split(i % (w.s.k * w.s.p), w.s.BlockSize());
    TilesOfGroup(w.s, group, TileOf(w.s, i), FeatureOf(w.s, i) % w.s.BlockSize());
    TilesOfGroup(w.s, group, TileOf(w.s, i), i % (w.s.k * w.s.p) % w.s.BlockSize());
  }

  /** The points of a tile of the group are those of the group. */
  lemma TileIsOfGroup(w: Work, group: nat, lid: nat, q: int)
    requires w.Valid() && group < w.s.groups && lid < w.s.local && w.TilePlace()(q) == HomeTile(w, group, lid)
    ensures 0 <= q < w.n && InGroup(w, group, w.Place()(q))
  {
    hide OwnerOf, RoundsFit;
    Product(group, w.s.local);
    if !InGroup(w, group, w.Place()(q)) {
      OtherGroup(w.s, group, lid, w.Place()(q));
    }
  }

  /** The sums of a group before its first round, and behind its last one. */
  lemma SumsAtEnds(w: Work, group: nat, i: nat)
    requires w.Valid() && group < w.s.groups && SumCells(w, group).writer(i) in Ids(w.s.local)
    ensures SumIn(w, i, w.Start(group)) == 0.0 && w.Round(group, 0) == w.Start(group)
    ensures forall t: nat :: w.Round(group, t) >= w.Bound(group) ==> SumIn(w, i, w.Round(group, t)) == SumIn(w, i, w.n)
  {
    hide Work.Start, Work.Bound, Work.Stride, Work.Round, Work.TilePlace, Work.Place, RoundsFit, InGroup, TileOf,
         FeatureOf, Share;
    var lid: nat := SumCells(w, group).writer(i);
    PositiveSizes(w.s);
    WriterIs(w, group, lid, i);
    forall q | w.TilePlace()(q) == TileOf(w.s, i)
      ensures 0 <= q < w.n && InGroup(w, group, w.Place()(q))
    {
      TileIsOfGroup(w, group, lid, q);
    }
    ShareEnds(w, group, w.TilePlace(), TileOf(w.s, i),
              Feature(w.x, w.n, w.lab, w.s.k, AsNat(i % (w.s.k * w.s.p))));
  }

  lemma MassesAtEnds(w: Work, group: nat, i: nat)
    requires w.Valid() && group < w.s.groups && MassCells(w, group).writer(i) in Ids(w.s.local)
    ensures var value := MassCells(w, group).value;
            && value(i, w.Start(group)) == 0.0 && w.Round(group, 0) == w.Start(group)
            && forall t: nat :: w.Round(group, t) >= w.Bound(group) ==> value(i, w.Round(group, t)) == value(i, w.n)
  {
    hide Work.Start, Work.Bound, Work.Stride, Work.Round, OwnerOf, RoundsFit, Share;
    Product(group, w.s.local);
    ShareEnds(w, group, w.Place(), i / w.s.k, Mass(w.lab, AsNat(i % w.s.k)));
  }

  /** The zeroed cells are ready for the first round. */
  lemma SumsZeroed(w: Work, group: nat, g: seq<real>, was: seq<real>)
    requires w.Valid() && group < w.s.groups && PhaseAt(g, was, ZeroCells(w.s, group), Ids(w.s.local), {}, 0, 0)
    ensures AddedTo(g, was, SumCells(w, group), w.s.local, w.Start(group))
  {
    hide Work.Start, RoundsFit, Work.Valid, TileOf, FeatureOf, SumIn;
    ValidShape(w);
    forall i: nat | i < |g|
      ensures ZeroCells(w.s, group).writer(i) in Ids(w.s.local) <==> SumCells(w, group).writer(i) in Ids(w.s.local)
      ensures SumCells(w, group).writer(i) in Ids(w.s.local) ==> SumIn(w, i, w.Start(group)) == 0.0
    {
      SameWriters(w, group, i);
      if SumCells(w, group).writer(i) in Ids(w.s.local) {
        SumsAtEnds(w, group, i);
      }
    }
  }

  /** A thread zeroes its masses. */
  method ZeroMasses(ghost w: Work, s: F.Shape, group: nat, lid: nat, g: array<real>)
    requires w.Valid() && s == w.s && group < s.groups && lid < s.local && g.Length >= s.groups * s.local * s.k
    modifies g
    ensures ThreadAt(g[..], old(g[..]), MassCells(w, group), lid, w.Start(group))
  {
    hide Work.Start, RoundsFit, Share, OnlyWithin;
    Product(group, s.local);
    var gid := group * s.local + lid;
    MassCellIs(w, group, lid, s.k - 1);
    Product(gid, s.k);
    ZeroTile(g, gid * s.k, 0, s.k);
    forall i: nat | i < g.Length
      ensures g[i] == if MassCells(w, group).writer(i) == lid then MassCells(w, group).value(i, w.Start(group))
                      else old(g[i])
    {
      ZeroedMass(w, group, lid, i, g[..], old(g[..]));
    }
  }

  lemma ZeroedMass(w: Work, group: nat, lid: nat, i: nat, g: seq<real>, was: seq<real>)
    requires w.Valid() && group < w.s.groups && lid < w.s.local && i < |g|
    requires var off := w.Gid(group, lid) * w.s.k;
             off >= 0 && OnlyWithin(g, was, off, 0, w.s.k) && Holding(g, off, 0, w.s.k, t => 0.0)
    ensures g[i] == if MassCells(w, group).writer(i) ==
            lid then MassCells(w, group).value(i, w.Start(group)) else was[i]
  {
    hide Work.Start, RoundsFit, Share;
    var gid := w.Gid(group, lid);
    Split(i, w.s.k);
    if gid * w.s.k <= i < gid * w.s.k + w.s.k {
      DivMod(w.s.k, gid, i - gid * w.s.k);
    }
    if MassCells(w, group).writer(i) == lid {
      assert lid in Ids(w.s.local);
      MassesAtEnds(w, group, i);
    }
  }

  /** The threads of a work-group zero what they are going to add to, in any order. */
  method ZeroGroup(ghost w: Work, s: F.Shape, group: nat, g_masses: array<real>, g: array<real>)
    requires w.Valid() && s == w.s && group < s.groups && g_masses != g
    requires g_masses.Length >= s.groups * s.local * s.k && g.Length >= s.groups * s.Blocks() * (s.k * s.p)
    modifies g_masses, g
    ensures AddedTo(g_masses[..], old(g_masses[..]), MassCells(w, group), s.local, w.Start(group))
    ensures AddedTo(g[..], old(g[..]), SumCells(w, group), s.local, w.Start(group))
  {
    hide PhaseAt, ThreadAt, MassCells, SumCells, ZeroCells, Work.Start, RoundsFit, AddedTo, Work.Valid;
    ghost var masses, sums, m := g_masses[..], g[..], w.Start(group);
    ghost var all: set<int> := Ids(s.local);
    ValidShape(w);
    var todo: set<int> := Ids(s.local);
    NothingDone(masses, MassCells(w, group), m);
    NothingDone(sums, ZeroCells(s, group), 0);
    assert all - todo == {};
    while todo != {}
      invariant todo <= all && PhaseAt(g_masses[..], masses, MassCells(w, group), all - todo, {}, m, m)
      invariant PhaseAt(g[..], sums, ZeroCells(s, group), all - todo, {}, 0, 0)
      decreases todo
    {
      var lid :| lid in todo;
      ghost var done, massesThen, sumsThen := all - todo, g_masses[..], g[..];
      ZeroMasses(w, s, group, lid, g_masses);
      PhaseGrows(g_masses[..], massesThen, masses, MassCells(w, group), done, lid, m);
      ghost var massesNow := g_masses[..];
      ZeroSums(w, s, group, lid, g);
      PhaseGrows(g[..], sumsThen, sums, ZeroCells(s, group), done, lid, 0);
      assert g_masses[..] == massesNow && done + {lid} == all - (todo - {lid});
      todo := todo - {lid};
    }
    assert all - {} == all;
    SumsZeroed(w, group, g[..], sums);
    PhaseBegins(g_masses[..], masses, MassCells(w, group), s.local, m, m);
  }

  lemma NothingDone(g: seq<real>, c: Cells, m: nat)
    ensures PhaseAt(g, g, c, Ids(0), {}, m, m) && Ids(0) == {}
  {
  }

  // ---------- a work-group ----------

  /** What a work-group leaves behind. */
  ghost predicate GroupDone(w: Work, group: nat, labels: seq<int>, labelsWere: seq<int>, masses: seq<real>,
                            massesWere: seq<real>, sums: seq<real>, sumsWere: seq<real>)
    requires w.Valid()
  {
    && |labels| == |labelsWere| == w.n
    && (forall q :: 0 <= q < w.n ==> labels[q] == if InGroup(w, group, w.Place()(q)) then w.lab[q] else labelsWere[q])
    && AddedTo(masses, massesWere, MassCells(w, group), w.s.local, w.n)
    && AddedTo(sums, sumsWere, SumCells(w, group), w.s.local, w.n)
  }

  lemma LabelsBegin(w: Work, group: nat, g: seq<int>)
    requires w.Valid() && group < w.s.groups && |g| == w.n
    ensures LabelledTo(w, group, g, g, w.Start(group)) && w.Round(group, 0) == w.Start(group)
  {
    hide Work.Start, Work.Place, Work.Bound, Work.Stride, RoundsFit;
    assert w.Stride() * 0 == 0;
    forall q: nat | q < w.n && q < w.Start(group)
      ensures !InGroup(w, group, w.Place()(q))
    {
      OutsideRounds(w, group, 0, q);
    }
  }

  lemma AllDone(w: Work, group: nat, t: nat, labels: seq<int>, labelsWere: seq<int>, masses: seq<real>,
                massesWere: seq<real>, sums: seq<real>, sumsWere: seq<real>)
    requires w.Valid() && group < w.s.groups && w.Round(group, t) >= w.Bound(group)
    requires LabelledTo(w, group, labels, labelsWere, w.Round(group, t))
    requires AddedTo(masses, massesWere, MassCells(w, group), w.s.local, w.Round(group, t))
    requires AddedTo(sums, sumsWere, SumCells(w, group), w.s.local, w.Round(group, t))
    ensures GroupDone(w, group, labels, labelsWere, masses, massesWere, sums, sumsWere)
  {
    hide Work.Start, Work.Place, Work.Bound, Work.Round, RoundsFit, SumIn, MassCells, TileOf, FeatureOf;
    forall q: nat | q < w.n && q >= w.Round(group, t)
      ensures !InGroup(w, group, w.Place()(q))
    {
      OutsideRounds(w, group, t, q);
    }
    forall i: nat | i < |masses| && MassCells(w, group).writer(i) in Ids(w.s.local)
      ensures MassCells(w, group).value(i, w.Round(group, t)) == MassCells(w, group).value(i, w.n)
    {
      MassesAtEnds(w, group, i);
    }
    forall i: nat | i < |sums| && SumCells(w, group).writer(i) in Ids(w.s.local)
      ensures SumCells(w, group).value(i, w.Round(group, t)) == SumCells(w, group).value(i, w.n)
    {
      SumsAtEnds(w, group, i);
    }
  }

  lemma NextRound(w: Work, group: nat, t: nat)
    requires w.s.groups > 0
    ensures w.Round(group, t + 1) == w.Round(group, t) + w.Stride()
  {
    Distribute(w.Stride(), t, 1);
  }

  /** Where the rounds of a work-group begin, how far apart they are, and where they end. */
  method StartRounds(ghost w: Work, s: F.Shape, local_stride: bool, n: nat, group: nat)
    returns (start: nat, bound: nat, step: nat)
    requires w.Valid() && s == w.s && local_stride == w.local_stride && n == w.n && group < s.groups
    ensures start == w.Start(group) && bound == w.Bound(group) && step == w.Stride() > 0
  {
    ValidShape(w);
    if local_stride {
      var iter_block_size := (n + s.groups - 1) / s.groups;
      Product(group, iter_block_size);
      var group_start_offset := group * iter_block_size;
      var real_iter_block_size := RealBlockSize(group_start_offset, iter_block_size, n);
      start, bound, step := group_start_offset, group_start_offset + real_iter_block_size, s.local;
    } else {
      Product(group, s.local);
      start, bound, step := group * s.local, n, s.groups * s.local;
    }
  }

  /** A work-group zeroes its tiles and masses, and then labels and adds up round by round, with a barrier before each
      of the phases of a round. The bounds depend on the group only, so all its threads meet at every barrier. */
  method WorkGroup(ghost w: Work, s: F.Shape, local_stride: bool, x: seq<real>, n: nat, cen: array<Num>, group: nat,
                   g_labels: array<int>, g_masses: array<real>, g: array<real>, ghost cs: seq<Center>)
    requires w.Valid() && s == w.s && local_stride == w.local_stride && x == w.x && n == w.n && group < s.groups
    requires Assigned(w, cen[..], cs) && g_masses != g && g_labels.Length == n
    requires g_masses.Length >= s.groups * s.local * s.k && g.Length >= s.groups * s.Blocks() * (s.k * s.p)
    modifies g_labels, g_masses, g
    ensures GroupDone(w, group, g_labels[..], old(g_labels[..]), g_masses[..], old(g_masses[..]), g[..], old(g[..]))
  {
    hide GroupDone, LabelledTo, AddedTo, Work.Start, Work.Stride, Work.Bound, Work.Round, RoundsFit, Assigned,
         MassCells, SumCells, Shared, Work.Valid;
    ValidShape(w);
    ghost var labels, masses, sums := g_labels[..], g_masses[..], g[..];
    assert cen[..] == old(cen[..]);
    ZeroGroup(w, s, group, g_masses, g);
    LabelsBegin(w, group, g_labels[..]);
    var l_labels := new int[s.local];
    var start, bound, step := StartRounds(w, s, local_stride, n, group);
    var group_offset := start;
    ghost var t: nat := 0;
    while group_offset < bound
      modifies l_labels, g_labels, g_masses, g
      invariant group_offset == w.Round(group, t) && LabelledTo(w, group, g_labels[..], labels, group_offset)
      invariant AddedTo(g_masses[..], masses, MassCells(w, group), s.local, group_offset)
      invariant AddedTo(g[..], sums, SumCells(w, group), s.local, group_offset)
    {
      ghost var sumsThen := g[..];
      LabelPhase(w, s, group, t, group_offset, x, n, cen, l_labels, g_labels, g_masses, cs, labels, masses);
      assert g[..] == sumsThen;
      ghost var labelsNow, massesNow := g_labels[..], g_masses[..];
      CentroidPhase(w, s, group, t, group_offset, x, n, l_labels, g, sums);
      assert g_labels[..] == labelsNow && g_masses[..] == massesNow;
      NextRound(w, group, t);
      group_offset := group_offset + step;
      t := t + 1;
    }
    AllDone(w, group, t, g_labels[..], labels, g_masses[..], masses, g[..], sums);
  }

  // ---------- the launch ----------

  /** The points of the groups that are not still to do are labelled. */
  ghost predicate LabelledBut(w: Work, g: seq<int>, first: seq<int>, todo: set<int>)
    requires w.Valid()
  {
    && |g| == |first| == w.n
    && forall q :: 0 <= q < w.n ==>
         g[q] == if w.Place()(q) >= 0 && w.Place()(q) / w.s.local !in todo then w.lab[q] else first[q]
  }

  /** The tiles of those groups hold what they should. */
  ghost predicate CellsBut(g: seq<real>, size: int, per: int, value: int -> real, todo: set<int>)
    requires per > 0
  {
    size <= |g| && forall i :: 0 <= i < size && i / per !in todo ==> g[i] == value(i)
  }

  ghost function MassValue(w: Work): int -> real
    requires w.Valid()
  {
    i => Share(w.n, w.Place(), i / w.s.k, Mass(w.lab, AsNat(i % w.s.k)))
  }

  ghost function SumValue(w: Work): int -> real
    requires w.Valid()
  {
    i => SumIn(w, i, w.n)
  }

  /** Cells of the masses, and of the tiles, of a work-group. */
  function MassesPerGroup(s: F.Shape): (per: nat)
    requires s.Valid()
    ensures per > 0
  {
    Monotone(1, s.k, s.local);
    s.local * s.k
  }

  function CellsPerGroup(s: F.Shape): (per: nat)
    requires s.Valid()
    ensures per > 0
  {
    PositiveSizes(s);
    F.WholeBlocks(s);
    Monotone(1, s.k * s.p, s.Blocks());
    s.Blocks() * (s.k * s.p)
  }

  /** Runs of `per` ids belong to the groups. */
  lemma GroupOf(id: nat, group: nat, per: nat)
    requires per > 0
    ensures group * per <= id < group * per + per <==> id / per == group
  {
    Split(id, per);
    Product(group, per);
    if group * per <= id < group * per + per {
      DivMod(per, group, id - group * per);
    }
  }

  /** The cells of a group are those of its threads. */
  lemma CellsOfGroup(w: Work, group: nat, i: nat)
    requires w.Valid()
    ensures MassCells(w, group).writer(i) in Ids(w.s.local) <==> i / MassesPerGroup(w.s) == group
    ensures SumCells(w, group).writer(i) in Ids(w.s.local) <==> i / CellsPerGroup(w.s) == group
  {
    hide Work.Valid;
    ValidShape(w);
    MassCellsOfGroup(w.s, group, i);
    PositiveSizes(w.s);
    F.WholeBlocks(w.s);
    CellParts(w.s, i);
    Split(FeatureOf(w.s, i), w.s.BlockSize());
    TilesOfGroup(w.s, group, TileOf(w.s, i), FeatureOf(w.s, i) % w.s.BlockSize());
    GroupOf(TileOf(w.s, i), group, w.s.Blocks());
    QuotientTwice(i, w.s.k * w.s.p, w.s.Blocks());
  }

  lemma MassCellsOfGroup(s: F.Shape, group: nat, i: nat)
    requires s.Valid()
    ensures 0 <= i / s.k - group * s.local < s.local <==> i / MassesPerGroup(s) == group
  {
    Split(i, s.k);
    Product(group, s.local);
    GroupOf(i / s.k, group, s.local);
    QuotientTwice(i, s.k, s.local);
  }

  /** Dividing twice is dividing by the product. */
  lemma QuotientTwice(i: nat, a: nat, b: nat)
    requires a > 0 && b > 0
    ensures b * a > 0 && i / (b * a) == i / a / b
  {
    Strides.BlockOf(i, a, b);
  }

  /** A work-group adds its cells to those that are done. */
  lemma CellsDone(now: seq<real>, was: seq<real>, c: Cells, local: nat, m: nat, size: int, per: int, value: int -> real,
                  todo: set<int>, group: nat)
    requires per > 0 && AddedTo(now, was, c, local, m) && CellsBut(was, size, per, value, todo)
    requires forall i: nat :: i < |was| ==> (c.writer(i) in Ids(local) <==> i / per == group)
    requires forall i: nat :: i < |was| ==> c.value(i, m) == value(i)
    ensures CellsBut(now, size, per, value, todo - {group})
  {
  }

  lemma LabelsDone(w: Work, group: nat, now: seq<int>, was: seq<int>, first: seq<int>, todo: set<int>)
    requires w.Valid() && |now| == |was| && LabelledBut(w, was, first, todo)
    requires forall q :: 0 <= q < w.n ==> now[q] == if InGroup(w, group, w.Place()(q)) then w.lab[q] else was[q]
    ensures LabelledBut(w, now, first, todo - {group})
  {
    hide Work.Place, RoundsFit;
    Product(group, w.s.local);
    forall q | 0 <= q < w.n && w.Place()(q) >= 0
      ensures InGroup(w, group, w.Place()(q)) <==> w.Place()(q) / w.s.local == group
    {
      GroupOf(w.Place()(q), group, w.s.local);
    }
  }

  lemma GroupEnds(w: Work, group: nat, labels: seq<int>, labelsWere: seq<int>, masses: seq<real>, massesWere: seq<real>,
                  sums: seq<real>, sumsWere: seq<real>, first: seq<int>, todo: set<int>)
    requires w.Valid() && GroupDone(w, group, labels, labelsWere, masses, massesWere, sums, sumsWere)
    requires LabelledBut(w, labelsWere, first, todo)
    requires CellsBut(massesWere, w.s.groups * w.s.local * w.s.k, MassesPerGroup(w.s), MassValue(w), todo)
    requires CellsBut(sumsWere, w.s.groups * w.s.Blocks() * (w.s.k * w.s.p), CellsPerGroup(w.s), SumValue(w), todo)
    ensures LabelledBut(w, labels, first, todo - {group})
    ensures CellsBut(masses, w.s.groups * w.s.local * w.s.k, MassesPerGroup(w.s), MassValue(w), todo - {group})
    ensures CellsBut(sums, w.s.groups * w.s.Blocks() * (w.s.k * w.s.p), CellsPerGroup(w.s), SumValue(w), todo - {group})
  {
    hide AddedTo, CellsBut, LabelledBut, Work.Place, RoundsFit, SumIn, Share, TileOf, FeatureOf, MassesPerGroup,
         CellsPerGroup;
    forall i: nat
      ensures MassCells(w, group).writer(i) in Ids(w.s.local) <==> i / MassesPerGroup(w.s) == group
      ensures SumCells(w, group).writer(i) in Ids(w.s.local) <==> i / CellsPerGroup(w.s) == group
    {
      CellsOfGroup(w, group, i);
    }
    LabelsDone(w, group, labels, labelsWere, first, todo);
    CellsDone(masses, massesWere, MassCells(w, group), w.s.local, w.n, w.s.groups * w.s.local * w.s.k,
              MassesPerGroup(w.s), MassValue(w), todo, group);
    CellsDone(sums, sumsWere, SumCells(w, group), w.s.local, w.n, w.s.groups * w.s.Blocks() * (w.s.k * w.s.p),
              CellsPerGroup(w.s), SumValue(w), todo, group);
  }

  /** At first everything is still to do. */
  lemma AllToDo(w: Work, labels: seq<int>, g: seq<real>, size: nat, per: nat, value: int -> real)
    requires w.Valid() && |labels| == w.n && per > 0 && size == w.s.groups * per <= |g|
    ensures LabelledBut(w, labels, labels, Ids(w.s.groups)) && CellsBut(g, size, per, value, Ids(w.s.groups))
  {
    hide OwnerOf, RoundsFit;
    forall q: nat | q < w.n && w.Place()(q) >= 0
      ensures w.Place()(q) / w.s.local in Ids(w.s.groups)
    {
      PlaceInside(w, q);
      QuotientBelow(w.Place()(q), w.s.local, w.s.groups);
    }
    forall i: nat | i < size
      ensures i / per in Ids(w.s.groups)
    {
      QuotientBelow(i, per, w.s.groups);
      Split(i, per);
    }
  }

  lemma PlaceInside(w: Work, q: nat)
    requires w.Valid() && q < w.n
    ensures 0 <= w.Place()(q) < w.s.local * w.s.groups && w.Place()(q) == Owner(w.Launch(), w.n)(q)
    ensures w.Launch().Valid(w.n)
  {
    OwnerIs(Item(0, 0, w.s.groups, w.s.local), w.local_stride, 1, w.n, q);
    PlaceIs(w, q);
    Split(q, w.Block());
    Split(q % w.Block(), w.s.local);
    Product(q / w.Block(), w.s.local);
    Split(q, w.s.groups * w.s.local);
  }

  /** The kernel, in any order of its work-groups. */
  method Launch(ghost w: Work, s: F.Shape, local_stride: bool, x: seq<real>, n: nat, cen: array<Num>,
                g_labels: array<int>, g_masses: array<real>, g: array<real>, ghost cs: seq<Center>)
    requires w.Valid() && s == w.s && local_stride == w.local_stride && x == w.x && n == w.n
    requires Assigned(w, cen[..], cs) && g_masses != g && g_labels.Length == n
    requires g_masses.Length >= s.groups * s.local * s.k && g.Length >= s.groups * s.Blocks() * (s.k * s.p)
    modifies g_labels, g_masses, g
    ensures LabelledBut(w, g_labels[..], old(g_labels[..]), {})
    ensures CellsBut(g_masses[..], s.groups * s.local * s.k, MassesPerGroup(s), MassValue(w), {})
    ensures CellsBut(g[..], s.groups * s.Blocks() * (s.k * s.p), CellsPerGroup(s), SumValue(w), {})
  {
    hide GroupDone, LabelledBut, CellsBut, RoundsFit, Assigned, MassValue, SumValue, Work.Valid;
    ValidShape(w);
    ghost var first := g_labels[..];
    assert cen[..] == old(cen[..]);
    Associate(s.groups, s.local, s.k);
    Associate(s.groups, s.Blocks(), s.k * s.p);
    Product(s.groups, MassesPerGroup(s));
    Product(s.groups, CellsPerGroup(s));
    AllToDo(w, first, g_masses[..], s.groups * s.local * s.k, MassesPerGroup(s), MassValue(w));
    AllToDo(w, first, g[..], s.groups * s.Blocks() * (s.k * s.p), CellsPerGroup(s), SumValue(w));
    var todo: set<int> := Ids(s.groups);
    while todo != {}
      invariant todo <= Ids(s.groups) && LabelledBut(w, g_labels[..], first, todo)
      invariant CellsBut(g_masses[..], s.groups * s.local * s.k, MassesPerGroup(s), MassValue(w), todo)
      invariant CellsBut(g[..], s.groups * s.Blocks() * (s.k * s.p), CellsPerGroup(s), SumValue(w), todo)
      decreases todo
    {
      var group :| group in todo;
      ghost var labels, masses, sums := g_labels[..], g_masses[..], g[..];
      WorkGroup(w, s, local_stride, x, n, cen, group, g_labels, g_masses, g, cs);
      GroupEnds(w, group, g_labels[..], labels, g_masses[..], masses, g[..], sums, first, todo);
      todo := todo - {group};
    }
  }

  // ---------- the host ----------

  lemma AllLabelled(w: Work, g: seq<int>, first: seq<int>)
    requires w.Valid() && LabelledBut(w, g, first, {})
    ensures w.Launch().Valid(w.n) && g == RelabelledBy(w.Launch(), first, w.lab)
  {
    hide Owner, Work.Place, RoundsFit;
    WorkLaunch(w);
    forall q: nat | q < w.n
      ensures g[q] == RelabelledBy(w.Launch(), first, w.lab)[q]
    {
      PlaceInside(w, q);
    }
  }

  lemma WorkLaunch(w: Work)
    requires w.Valid()
    ensures w.Launch().Valid(w.n)
  {
  }

  /** What falls to anyone is what the launch takes. */
  lemma SameTaken(w: Work, own: int -> int, f: int -> real)
    requires w.Valid() && w.Launch().Valid(w.n)
    requires forall q :: 0 <= q < w.n ==> (own(q) >= 0 <==> w.Place()(q) >= 0)
    ensures SumOwned(w.n, own, f) == SumOwned(w.n, Owner(w.Launch(), w.n), f)
  {
    hide Owner, Work.Place, RoundsFit;
    forall q: nat | q < w.n
      ensures own(q) >= 0 <==> Owner(w.Launch(), w.n)(q) >= 0
    {
      PlaceInside(w, q);
    }
    F.SameOwned(w.n, own, Owner(w.Launch(), w.n), f);
  }

  lemma MassesAddUp(w: Work, g: seq<real>, c: nat)
    requires w.Valid() && w.Launch().Valid(w.n) && c < w.s.k && w.s.groups * w.s.local >= 0
    requires CellsBut(g, w.s.groups * w.s.local * w.s.k, MassesPerGroup(w.s), MassValue(w), {})
    ensures RowSum(g, w.s.k, w.s.groups * w.s.local, c) == TakenMasses(w.Launch(), w.lab)(c)
  {
    hide Owner, Work.Place, RoundsFit, Share, SumOwned, RowSum, Tiles;
    var size := w.s.groups * w.s.local;
    MassTilesHold(w, g);
    forall q | 0 <= q < w.n
      ensures w.Place()(q) < size
    {
      PlaceInside(w, q);
    }
    TilesAddUp(g, w.s.k, size, MassTile(w), c, w.Place(), w.n, Mass(w.lab, c));
    SameTaken(w, w.Place(), Mass(w.lab, c));
  }

  ghost function MassTile(w: Work): int -> int -> real
    requires w.Valid()
  {
    gid => t => if t < 0 then 0.0 else Share(w.n, w.Place(), gid, Mass(w.lab, t))
  }

  lemma MassTilesHold(w: Work, g: seq<real>)
    requires w.Valid() && w.s.groups * w.s.local >= 0
    requires CellsBut(g, w.s.groups * w.s.local * w.s.k, MassesPerGroup(w.s), MassValue(w), {})
    ensures Tiles(g, w.s.k, Ids(w.s.groups * w.s.local), MassTile(w))
  {
    hide Work.Place, RoundsFit, Share;
    var size := w.s.groups * w.s.local;
    forall gid | gid in Ids(size)
      ensures gid * w.s.k >= 0 && Holding(g, gid * w.s.k, 0, w.s.k, MassTile(w)(gid))
    {
      Product(gid, w.s.k);
      Monotone(gid + 1, size, w.s.k);
      Distribute(w.s.k, gid, 1);
      forall i: nat | gid * w.s.k <= i < gid * w.s.k + w.s.k
        ensures g[i] == MassTile(w)(gid)(i - gid * w.s.k)
      {
        DivMod(w.s.k, gid, i - gid * w.s.k);
      }
    }
  }

  lemma SumsAddUp(w: Work, g: seq<real>, t: nat)
    requires w.Valid() && w.Launch().Valid(w.n) && t < w.s.k * w.s.p && w.s.groups * w.s.Blocks() >= 0
    requires CellsBut(g, w.s.groups * w.s.Blocks() * (w.s.k * w.s.p), CellsPerGroup(w.s), SumValue(w), {})
    ensures RowSum(g, w.s.k * w.s.p, w.s.groups * w.s.Blocks(), t) == TakenSums(w.Launch(), w.x, w.lab, w.s.k)(t)
  {
    hide Owner, Work.TilePlace, RoundsFit, Share, SumOwned, RowSum, Tiles;
    var tiles := w.s.groups * w.s.Blocks();
    SumTilesHold(w, g);
    forall q | 0 <= q < w.n
      ensures w.TilePlace()(q) < tiles && (w.TilePlace()(q) >= 0 <==> w.Place()(q) >= 0)
    {
      TilePlaceInside(w, q);
    }
    TilesAddUp(g, w.s.k * w.s.p, tiles, SumTile(w), t, w.TilePlace(), w.n, Feature(w.x, w.n, w.lab, w.s.k, t));
    SameTaken(w, w.TilePlace(), Feature(w.x, w.n, w.lab, w.s.k, t));
  }

  lemma TilePlaceInside(w: Work, q: nat)
    requires w.Valid() && q < w.n
    ensures w.TilePlace()(q) < w.s.groups * w.s.Blocks() && (w.TilePlace()(q) >= 0 <==> w.Place()(q) >= 0)
  {
    hide Work.Place, RoundsFit;
    PlaceInside(w, q);
    TileBelow(w.s, w.Place()(q));
  }

  lemma TileBelow(s: F.Shape, id: nat)
    requires s.Valid() && id < s.local * s.groups
    ensures 0 <= id / s.BlockSize() < s.groups * s.Blocks()
  {
    F.WholeBlocks(s);
    Associate(s.BlockSize(), s.Blocks(), s.groups);
    Product(s.groups, s.Blocks());
    Split(id, s.BlockSize());
    QuotientBelow(id, s.BlockSize(), s.groups * s.Blocks());
  }

  ghost function SumTile(w: Work): int -> int -> real
    requires w.Valid()
  {
    tile => t => if t < 0 then 0.0 else Share(w.n, w.TilePlace(), tile, Feature(w.x, w.n, w.lab, w.s.k, t))
  }

  lemma SumTilesHold(w: Work, g: seq<real>)
    requires w.Valid() && w.s.groups * w.s.Blocks() >= 0
    requires CellsBut(g, w.s.groups * w.s.Blocks() * (w.s.k * w.s.p), CellsPerGroup(w.s), SumValue(w), {})
    ensures w.s.k * w.s.p >= 0 && Tiles(g, w.s.k * w.s.p, Ids(w.s.groups * w.s.Blocks()), SumTile(w))
  {
    hide Work.TilePlace, RoundsFit, Share;
    PositiveSizes(w.s);
    var tiles, T := w.s.groups * w.s.Blocks(), w.s.k * w.s.p;
    forall tile | tile in Ids(tiles)
      ensures tile * T >= 0 && Holding(g, tile * T, 0, T, SumTile(w)(tile))
    {
      Product(tile, T);
      Monotone(tile + 1, tiles, T);
      Distribute(T, tile, 1);
      forall i: nat | tile * T <= i < tile * T + T
        ensures g[i] == SumTile(w)(tile)(i - tile * T)
      {
        DivMod(T, tile, i - tile * T);
      }
    }
  }

  /** The fused kernel without local memory, for single points: labels, masses and feature sums of one assignment step.
      With local strides its rounds have to stay in their blocks. */
  method UpdateFusedGlobal(groups: nat, local: nat, local_stride: bool, x: seq<real>, n: nat, p: nat, k: nat,
                           cen: array<Num>, g_labels: array<int>, masses: array<real>, new_masses: array<real>,
                           new_centroids: array<real>, tmp_new_centroids: array<real>, ghost cs: seq<Center>)
    returns (completed: bool)
    requires KernelFits(p) && groups > 0 && local > 0 && (local % p == 0 || p % local == 0)
    requires local_stride ==> RoundsFit(groups, local, n)
    requires |x| == n * p && Holds(cen[..], cs, k, p) && HasLive(cs) && g_labels.Length == n
    requires F.HostSizes(groups, local, p, k, new_masses.Length, tmp_new_centroids.Length)
    requires masses.Length == k && new_centroids.Length == k * p
    requires masses != new_masses && new_centroids != tmp_new_centroids && tmp_new_centroids != new_masses
    requires masses != new_centroids && masses != tmp_new_centroids && new_centroids != new_masses
    modifies g_labels, masses, new_masses, new_centroids, tmp_new_centroids
    ensures k > 0 && |cs| == k && Centers(cs, p) && Stages.Launch(groups, local, local_stride, 1).Valid(n)
    ensures F.HostShape(groups, local, 1, p, k).Valid()
    ensures var s, lab := Stages.Launch(groups, local, local_stride, 1), Assign(ColumnMajor.Rows(x, n, p), cs, p);
            s.Complete(n) && g_labels[..] == lab
    ensures completed <==> F.TilesRunThrough(F.HostShape(groups, local, 1, p, k))
    ensures F.TilesReduce(F.HostShape(groups, local, 1, p, k)) ==>
              var s, lab := Stages.Launch(groups, local, local_stride, 1), Assign(ColumnMajor.Rows(x, n, p), cs, p);
              && completed
              && (forall c :: 0 <= c < k ==> masses[c] == old(masses[c]) + TakenMasses(s, lab)(c))
              && (forall t :: 0 <= t < new_centroids.Length ==>
                    new_centroids[t] == old(new_centroids[t]) + TakenSums(s, x, lab, k)(t))
  {
    hide CellsBut, LabelledBut, RowSum, RunsThrough, Reduces, TakenMasses, TakenSums, Reduced, Holds, HasLive, Assign,
         F.SizesMatch, Owner, RoundsFit, MassValue, SumValue;
    ShapeOfHolds(cen[..], cs, k, p);
    ghost var lab := Assign(ColumnMajor.Rows(x, n, p), cs, p);
    Monotone(1, p, k);
    var num_thread_features := if local >= p then 1 else p / local;
    var s := F.Shape(groups, local, 1, p, k, num_thread_features);
    F.HostSizesMatchIff(groups, local, 1, p, k);
    var num_tiles := groups * local * num_thread_features / p;
    F.TilesFit(s);
    ghost var w := Work(s, local_stride, x, n, lab);
    ghost var first := g_labels[..];
    Launch(w, s, local_stride, x, n, cen, g_labels, new_masses, tmp_new_centroids, cs);
    AllLabelled(w, g_labels[..], first);
    Everything(w, first);
    ghost var tiles, massTiles := tmp_new_centroids[..], new_masses[..];
    forall t: nat | t < k * p
      ensures RowSum(tiles, k * p, num_tiles, t) == TakenSums(w.Launch(), x, lab, k)(t)
    {
      SumsAddUp(w, tiles, t);
    }
    forall c: nat | c < k
      ensures RowSum(massTiles, k, groups * local, c) == TakenMasses(w.Launch(), lab)(c)
    {
      MassesAddUp(w, massTiles, c);
    }
    F.LaunchIsLarge(s);
    var added := AddTiles(new_centroids, tmp_new_centroids, k * p, num_tiles, TakenSums(w.Launch(), x, lab, k));
    completed := AddTiles(masses, new_masses, k, groups * local, TakenMasses(w.Launch(), lab));
    completed := added && completed;
  }

  /** Such a launch takes all points. */
  lemma Everything(w: Work, first: seq<int>)
    requires w.Valid() && |first| == w.n && w.Launch().Valid(w.n)
    ensures w.Launch().Complete(w.n) && RelabelledBy(w.Launch(), first, w.lab) == w.lab
  {
    hide Work.Place, RoundsFit, Owner, OwnerOf;
    forall q: nat | q < w.n
      ensures Owner(w.Launch(), w.n)(q) >= 0
    {
      PlaceInside(w, q);
    }
    CompleteWhenOwned(w.Launch(), w.n);
  }

  lemma CompleteWhenOwned(s: Stages.Launch, n: nat)
    requires s.Valid(n) && forall q: nat :: q < n ==> Owner(s, n)(q) >= 0
    ensures s.Complete(n)
  {
    hide OwnerOf;
    forall q: nat | q < n
      ensures OwnerOf(s.groups, s.local, s.local_stride, s.v, n, q) >= 0
    {
      assert Owner(s, n)(q) >= 0;
    }
  }
}
