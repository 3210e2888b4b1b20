/** The three stages on up to three devices: every device keeps its own buffers, devices that coincide share them, and
    what one stage has computed is copied to where the next one looks for it. */
module KmeansThreeStage {
  import opened Clustering
  import opened Numbers
  import opened ColumnMajor
  import opened Kernels
  import opened Stages
  import opened Updates
  import opened KernelChoice
  import opened RowDivision

  /** The buffers of the devices for labelling (ll), mass update (mu) and centroid update (cu). */
  class BufferMap {
    const queue_ll: int
    const queue_mu: int
    const queue_cu: int

    const points_ll: array<real>
    const points_cu: array<real>
    const centroids_ll: array<Num>
    const centroids_cu: array<Num>
    const labels_ll: array<int>
    const labels_mu: array<int>
    const labels_cu: array<int>
    const masses_mu: array<real>
    const masses_cu: array<real>

    /** Buffers are shared exactly between phases on the same queue. */
    ghost predicate Valid(n: nat, p: nat, k: nat) {
      && points_ll.Length == points_cu.Length == n * p
      && centroids_ll.Length == centroids_cu.Length == k * p
      && labels_ll.Length == labels_mu.Length == labels_cu.Length == n
      && masses_mu.Length == masses_cu.Length == k
      && (points_ll == points_cu <==> queue_ll == queue_cu)
      && (centroids_ll == centroids_cu <==> queue_ll == queue_cu)
      && (labels_ll == labels_mu <==> queue_ll == queue_mu)
      && (labels_ll == labels_cu <==> queue_ll == queue_cu)
      && (labels_mu == labels_cu <==> queue_mu == queue_cu)
      && (masses_mu == masses_cu <==> queue_mu == queue_cu)
      && {masses_mu, masses_cu} !! {points_ll, points_cu}
    }

    /** Allocates the buffers and copies points and centroids to the devices. */
    constructor (q_ll: int, q_mu: int, q_cu: int, n: nat, p: nat, k: nat, host_points: seq<real>,
                 host_centroids: seq<Num>)
      requires |host_points| == n * p && |host_centroids| == k * p
      ensures Valid(n, p, k) && queue_ll == q_ll && queue_mu == q_mu && queue_cu == q_cu
      ensures fresh(centroids_ll) && fresh(centroids_cu) && fresh(labels_ll) && fresh(labels_mu) && fresh(labels_cu)
      ensures fresh(masses_mu) && fresh(masses_cu)
      ensures points_ll[..] == points_cu[..] == host_points && centroids_ll[..] == centroids_cu[..] == host_centroids
    {
      queue_ll, queue_mu, queue_cu := q_ll, q_mu, q_cu;
      var p_ll, p_cu := TwoCopies(host_points, q_ll == q_cu);
      points_ll, points_cu := p_ll, p_cu;
      var c_ll, c_cu := TwoCopies(host_centroids, q_ll == q_cu);
      centroids_ll, centroids_cu := c_ll, c_cu;
      var l_ll, l_mu := TwoCopies(seq(n, i => 0), q_mu == q_ll);
      var l_cu := if q_cu == q_ll then l_ll else l_mu;
      if q_cu != q_ll && q_cu != q_mu {
        l_cu := new int[n](i => 0);
      }
      labels_ll, labels_mu, labels_cu := l_ll, l_mu, l_cu;
      var m_mu, m_cu := TwoCopies(seq(k, i => 0.0), q_cu == q_mu);
      masses_mu, masses_cu := m_mu, m_cu;
    }

    method SyncCentroids(ghost n: nat, ghost p: nat, ghost k: nat)
      requires Valid(n, p, k)
      modifies centroids_ll
      ensures centroids_ll[..] == centroids_cu[..] == old(centroids_cu[..])
    {
      if queue_cu != queue_ll {
        Copy(centroids_cu, centroids_ll);
      }
    }

    method SyncLabels(ghost n: nat, ghost p: nat, ghost k: nat)
      requires Valid(n, p, k)
      modifies labels_mu, labels_cu
      ensures labels_ll[..] == labels_mu[..] == labels_cu[..] == old(labels_ll[..])
    {
      if queue_ll != queue_mu {
        Copy(labels_ll, labels_mu);
      }
      if queue_ll != queue_cu && queue_mu != queue_cu {
        Copy(labels_ll, labels_cu);
      }
    }

    method SyncMasses(ghost n: nat, ghost p: nat, ghost k: nat)
      requires Valid(n, p, k)
      modifies masses_cu
      ensures masses_cu[..] == masses_mu[..] == old(masses_mu[..])
    {
      if queue_mu != queue_cu {
        Copy(masses_mu, masses_cu);
      }
    }
  }

  /** The buffers of two phases: one and the same if they share a device. */
  method TwoCopies<T>(data: seq<T>, shared: bool) returns (a: array<T>, b: array<T>)
    ensures fresh(a) && fresh(b) && a[..] == b[..] == data && (a == b <==> shared)
  {
    a := new T[|data|](i requires 0 <= i < |data| => data[i]);
    assert a[..] == data;
    b := a;
    if !shared {
      b := new T[|data|](i requires 0 <= i < |data| => data[i]);
      assert b[..] == data;
    }
  }

  method Copy<T>(from: array<T>, to: array<T>)
    requires from != to && from.Length == to.Length
    modifies to
    ensures to[..] == from[..]
  {
    forall i | 0 <= i < from.Length {
      to[i] := from[i];
    }
  }

  method Fill<T>(a: array<T>, value: T)
    modifies a
    ensures forall i :: 0 <= i < a.Length ==> a[i] == value
  {
    forall i | 0 <= i < a.Length {
      a[i] := value;
    }
  }

  // ---------- the stages ----------

  method MassStage(masses: array<real>, n: nat, k: nat, labels: seq<int>, m: MassUpdate)
    requires MassReady(m, n, k) && MassTakesAll(m, n, k) && |labels| == n && Labels(labels, k) && masses.Length == k
    requires forall c :: 0 <= c < k ==> masses[c] == 0.0
    modifies masses
    ensures forall c :: 0 <= c < k ==> masses[c] == Count(labels, c, n) as real
  {
    hide MassReady, MassTakesAll, Labels, Count, MassesBy;
    UpdateMassesBy(masses, n, k, labels, m);
    AllMassesTaken(m, n, k, labels);
  }

  method CentroidStage(centroids: array<Num>, points: seq<real>, n: nat, p: nat, k: nat, labels: seq<int>,
                       u: CentroidUpdate)
    requires SumsReady(u, n, p, k) && SumsTakeAll(u, n, p, k) && |points| == n * p
    requires |labels| == n && Labels(labels, k) && centroids.Length == k * p
    requires forall t :: 0 <= t < k * p ==> centroids[t] == Fin(0.0)
    modifies centroids
    ensures forall t :: 0 <= t < k * p ==> centroids[t] == Fin(Totals(points, n, p, labels, k)(t))
  {
    hide SumsReady, SumsTakeAll, Labels, Total, SumsBy;
    PositiveSizes(u, n, p, k);
    var sums := new real[k * p](i => 0.0);
    UpdateSumsBy(sums, points, n, p, k, labels, u);
    AllSumsTaken(u, points, n, p, k, labels);
    forall t | 0 <= t < k * p {
      centroids[t] := Add(centroids[t], Fin(sums[t]));
    }
  }

  lemma SumsByCell(points: seq<real>, n: nat, p: nat, k: nat, lab: seq<int>)
    requires |lab| == n && k > 0
    ensures forall t: nat :: Totals(points, n, p, lab, k)(t) == SumInCell(Rows(points, n, p), lab, k, p, t)
  {
    hide Total, Rows;
  }

  // ---------- a run ----------

  /** The state between two iterations: the centroid update's device has the centroids. */
  ghost predicate Between(b: BufferMap, n: nat, p: nat, k: nat, points: seq<real>, cs: seq<Center>)
    reads b.points_ll, b.points_cu, b.centroids_cu
  {
    && b.Valid(n, p, k) && b.points_ll[..] == b.points_cu[..] == points && Holds(b.centroids_cu[..], cs, k, p)
  }

  /** The launches of the three stages, each with a kernel of its own. */
  datatype Shapes = Shapes(ll: Launch, mu: MassUpdate, cu: CentroidUpdate)

  ghost predicate AllLaunchable(s: Shapes, n: nat, p: nat, k: nat) {
    && KernelFits(p) && s.ll.Valid(n) && s.ll.Complete(n)
    && MassReady(s.mu, n, k) && MassTakesAll(s.mu, n, k) && SumsReady(s.cu, n, p, k) && SumsTakeAll(s.cu, n, p, k)
  }

  /** One iteration.  Afterwards all devices that need them have the new labels, masses and centroids. */
  method Iteration(b: BufferMap, s: Shapes, kernels: seq<nat>, points: seq<real>, n: nat, p: nat, k: nat,
                   ghost cs: seq<Center>)
    requires k > 0 && |points| == n * p && AllLaunchable(s, n, p, k) && Prepared(kernels)
             && Between(b, n, p, k, points, cs)
    requires (n > 0 ==> HasLive(cs)) && |cs| == k && Centers(cs, p)
    modifies b.centroids_ll, b.centroids_cu, b.labels_ll, b.labels_mu, b.labels_cu, b.masses_mu, b.masses_cu
    ensures var lab := Assign(Rows(points, n, p), cs, p);
            && b.labels_ll[..] == lab
            && (forall c :: 0 <= c < k ==> b.masses_mu[c] == Count(lab, c, n) as real)
            && Between(b, n, p, k, points, Means(Rows(points, n, p), lab, k, p))
  {
    hide Holds, HasLive, Assign, Count, Total, MassReady, SumsReady, MassTakesAll, SumsTakeAll, Means;
    ghost var lab := Assign(Rows(points, n, p), cs, p);
    LabelsOfAssign(points, n, p, k, cs);
    b.SyncCentroids(n, p, k);
    Label(b, s.ll, kernels, points, n, p, k, cs);
    Fill(b.masses_mu, 0.0);
    Fill(b.centroids_cu, Fin(0.0));
    b.SyncLabels(n, p, k);
    assert b.labels_ll[..] == b.labels_mu[..] == b.labels_cu[..] == lab;
    MassStage(b.masses_mu, n, k, b.labels_mu[..], s.mu);
    b.SyncMasses(n, p, k);
    assert forall c :: 0 <= c < k ==> b.masses_cu[..][c] == b.masses_mu[..][c];
    CentroidStage(b.centroids_cu, b.points_cu[..], n, p, k, b.labels_cu[..], s.cu);
    SumsByCell(points, n, p, k, lab);
    DivideRows(b.centroids_cu, b.masses_cu[..], k, p, Rows(points, n, p), lab);
  }

  /** The labelling stage; without points there is nothing to launch. */
  method Label(b: BufferMap, s: Launch, kernels: seq<nat>, points: seq<real>, n: nat, p: nat, k: nat,
               ghost cs: seq<Center>)
    requires KernelFits(p) && Prepared(kernels)
    requires b.Valid(n, p, k) && |points| == n * p && s.Valid(n) && s.Complete(n)
    requires b.points_ll[..] == points && Holds(b.centroids_ll[..], cs, k, p) && (n > 0 ==> HasLive(cs))
             && Centers(cs, p)
    modifies b.labels_ll
    ensures b.labels_ll[..] == Assign(Rows(points, n, p), cs, p)
  {
    hide Holds, HasLive, RelabelledBy;
    if n > 0 {
      ghost var was, lab := b.labels_ll[..], Assign(Rows(points, n, p), cs, p);
      var launched := LabelingUnrollVector(b.labels_ll, b.points_ll[..], n, p, b.centroids_ll, k, s, kernels, cs);
      AllFeatures(cs, p);
      CompleteTakesAll(s, was, [], lab, 1, 0);
    }
  }

  lemma LabelsOfAssign(points: seq<real>, n: nat, p: nat, k: nat, cs: seq<Center>)
    requires |cs| == k > 0 && Centers(cs, p)
    ensures Labels(Assign(Rows(points, n, p), cs, p), k) && |Assign(Rows(points, n, p), cs, p)| == n
  {
  }

  /** An initializer overwrites the centroids of the labelling device; without one the host's centroids stay. */
  datatype Initializer = Absent | Present(centroids: seq<Num>)

  /** The centroids a run really starts from. Those of an initializer survive exactly when labelling and centroid update
      share their device: otherwise the first synchronisation replaces them by the host's. */
  ghost function StartOf(q_ll: int, q_cu: int, initializer: Initializer, c0: seq<Center>,
                         c1: seq<Center>): seq<Center> {
    if initializer.Present? && q_ll == q_cu then c1 else c0
  }

  ghost predicate GoodStart(cen: seq<Num>, cs: seq<Center>, n: nat, p: nat, k: nat) {
    Holds(cen, cs, k, p) && |cs| == k && Centers(cs, p) && (n > 0 ==> HasLive(cs))
  }

  /** The centres of the next iteration, from those of this one. */
  ghost function CentersAt(points: seq<real>, n: nat, p: nat, k: nat, start: seq<Center>,
                           iterations: nat): (cs: seq<Center>)
    requires Centers(start, p) && |start| == k > 0
    ensures Centers(cs, p) && |cs| == k
  {
    if iterations == 0 then start
    else Means(Rows(points, n, p), Iterate(Rows(points, n, p), start, p, iterations), k, p)
  }

  lemma NextCenters(points: seq<real>, n: nat, p: nat, k: nat, start: seq<Center>, iterations: nat)
    requires Centers(start, p) && |start| == k > 0 && (n > 0 ==> HasLive(start))
    ensures n > 0 ==> HasLive(CentersAt(points, n, p, k, start, iterations))
    ensures Assign(Rows(points, n, p), CentersAt(points, n, p, k, start, iterations), p)
            == Iterate(Rows(points, n, p), start, p, iterations + 1)
  {
    hide Assign, Means;
    if iterations == 0 {
      IterateOnce(Rows(points, n, p), start, p);
    } else {
      IterateStep(Rows(points, n, p), start, p, iterations);
      UsedCentersAreLive(Rows(points, n, p), Iterate(Rows(points, n, p), start, p, iterations), k, p);
    }
  }

  /** A whole run on the devices behind three queues, which may coincide in any way. */
  method Run(q_ll: int, q_mu: int, q_cu: int, host_points: seq<real>, n: nat, p: nat, k: nat, host_centroids: seq<Num>,
             initializer: Initializer, max_iterations: nat, s: Shapes, ghost c0: seq<Center>, ghost c1: seq<Center>)
    returns (labels: seq<int>, masses: seq<real>, centroids: seq<Num>)
    requires k > 0 && |host_points| == n * p && AllLaunchable(s, n, p, k)
    requires GoodStart(host_centroids, c0, n, p, k)
    requires initializer.Present? ==> GoodStart(initializer.centroids, c1, n, p, k)
    ensures var start := StartOf(q_ll, q_cu, initializer, c0, c1);
            && Centers(start, p) && |start| == k
            && (max_iterations > 0 ==> Outcome(host_points, n, p, k, start, max_iterations, labels, masses, centroids))
  {
    hide Holds, HasLive, Assign, Count, Means, MassReady, SumsReady, MassTakesAll, SumsTakeAll;
    ShapeOfHolds(host_centroids, c0, k, p);
    SizeOfHolds(host_centroids, c0, k, p);
    var kernels := Prepare();
    var b := new BufferMap(q_ll, q_mu, q_cu, n, p, k, host_points, host_centroids);
    if initializer.Present? {
      SizeOfHolds(initializer.centroids, c1, k, p);
      forall t | 0 <= t < k * p {
        b.centroids_ll[t] := initializer.centroids[t];
      }
      assert b.centroids_ll[..] == initializer.centroids;
      assert q_ll == q_cu ==> b.centroids_cu[..] == initializer.centroids;
      assert q_ll != q_cu ==> b.centroids_cu[..] == host_centroids;
    }
    ghost var start := StartOf(q_ll, q_cu, initializer, c0, c1);
    assert Holds(b.centroids_cu[..], start, k, p);
    for iterations := 0 to max_iterations
      invariant Between(b, n, p, k, host_points, CentersAt(host_points, n, p, k, start, iterations))
      invariant iterations > 0 ==>
                  Outcome(host_points, n, p, k, start, iterations, b.labels_ll[..], b.masses_mu[..], b.centroids_cu[..])
    {
      NextCenters(host_points, n, p, k, start, iterations);
      Iteration(b, s, kernels, host_points, n, p, k, CentersAt(host_points, n, p, k, start, iterations));
    }
    labels, masses, centroids := b.labels_ll[..], b.masses_mu[..], b.centroids_cu[..];
  }

  lemma SizeOfHolds(cen: seq<Num>, cs: seq<Center>, k: nat, p: nat)
    requires Holds(cen, cs, k, p)
    ensures |cen| == k * p
  {
  }

  /** Two points and two clusters: the initializer swaps the clusters, and so do the labels, but only if labelling and
      centroid update share their device. */
  lemma InitializerMayBeLost(points: seq<real>, c0: seq<Center>, c1: seq<Center>, cen: seq<Num>)
    requires points == [0.0, 6.0, 0.0, 0.0]
    requires c0 == [Live([0.0, 0.0]), Live([6.0, 0.0])] && c1 == [Live([6.0, 0.0]), Live([0.0, 0.0])]
    ensures StartOf(0, 0, Present(cen), c0, c1) == c1 && StartOf(0, 1, Present(cen), c0, c1) == c0
    ensures Iterate(Rows(points, 2, 2), c1, 2, 1) == [1, 0]
    ensures Iterate(Rows(points, 2, 2), c0, 2, 1) == [0, 1]
  {
    hide Iterate, Nearest, HasLive;
    var pts := Rows(points, 2, 2);
    assert pts[0] == [0.0, 0.0] && pts[1] == [6.0, 0.0];
    IterateOnce(pts, c0, 2);
    IterateOnce(pts, c1, 2);
    forall i | 0 <= i < 2
      ensures Nearest(pts[i], c0) == i && Nearest(pts[i], c1) == 1 - i
    {
      NearestOfTwo(pts[i], c0);
      NearestOfTwo(pts[i], c1);
      SqDistOfTwo(pts[i], c0[0].at);
      SqDistOfTwo(pts[i], c0[1].at);
    }
  }

  lemma SqDistOfTwo(a: Vec, b: Vec)
    requires |a| == |b| == 2
    ensures SqDist(a, b, 2) == Square(a[0] - b[0]) + Square(a[1] - b[1])
  {
    assert SqDist(a, b, 0) == 0.0;
    assert SqDist(a, b, 1) == Square(a[0] - b[0]);
  }

  /** Placement is transparent: two runs that differ only in their queues give the same result, unless there is an
      initializer and just one of them has labelling and centroid update on the same device. */
  method RunsAgree(q_ll: int, q_mu: int, q_cu: int, r_ll: int, r_mu: int, r_cu: int, host_points: seq<real>,
                   n: nat, p: nat, k: nat, host_centroids: seq<Num>, initializer: Initializer, max_iterations: nat,
                   s: Shapes, s': Shapes, ghost c0: seq<Center>, ghost c1: seq<Center>)
    returns (labels: seq<int>, masses: seq<real>, centroids: seq<Num>,
             labels': seq<int>, masses': seq<real>, centroids': seq<Num>)
    requires k > 0 && |host_points| == n * p && max_iterations > 0
    requires AllLaunchable(s, n, p, k) && AllLaunchable(s', n, p, k)
    requires GoodStart(host_centroids, c0, n, p, k)
    requires initializer.Present? ==> GoodStart(initializer.centroids, c1, n, p, k) && (q_ll == q_cu <==> r_ll == r_cu)
    ensures labels == labels' && masses == masses' && centroids == centroids'
  {
    hide AllLaunchable, Outcome, GoodStart;
    labels, masses, centroids := Run(q_ll, q_mu, q_cu, host_points, n, p, k, host_centroids, initializer,
                                     max_iterations, s, c0, c1);
    labels', masses', centroids' := Run(r_ll, r_mu, r_cu, host_points, n, p, k, host_centroids, initializer,
                                        max_iterations, s', c0, c1);
    OutcomeIsUnique(host_points, n, p, k, StartOf(q_ll, q_cu, initializer, c0, c1), max_iterations,
                    labels, masses, centroids, labels', masses', centroids');
  }
}
