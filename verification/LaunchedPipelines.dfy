/** The buffered pipelines with the stages they really enqueue: an iteration comes out right for every job if and only
    if every launch takes all points of every buffer. */
module LaunchedPipelines {
  import opened Sums
  import opened Clustering
  import opened Numbers
  import opened ColumnMajor
  import opened Indices
  import opened Strides
  import opened Kernels
  import opened Stages
  import opened Updates
  import opened KernelChoice
  import Barriers
  import ReduceVectorParcol
  import opened BufferCache
  import opened ChunkSchedule
  import opened PartitionMatrix
  import opened ChunkwiseLloyd
  import opened LaunchedStages
  import opened KmeansBuffered
  import PipelineOrder

  // ---------- launches that take all points keep the promises of their stages ----------

  lemma LabelingMeets(ll: Launch, k: nat, cen: seq<Num>, cs: seq<Center>, l: Layout)
    requires l.Valid() && KernelFits(l.dims) && Holds(cen, cs, k, l.dims)
    requires forall n: nat :: Occurs(l, n) ==> ll.Valid(n) && ll.Complete(n)
    ensures Centers(cs, l.dims) && IsLabeling(LabelingOf(ll, k, l.dims, cen), cs, l)
  {
    hide KeepsPoints, Stage, Assign, FirstFeatures, KernelLabels, LabelWords, Coordinates, HasLive;
    var p := l.dims;
    ShapeOfHolds(cen, cs, k, p);
    var f: Effect := (x: seq<real>, was: seq<Word>) => (LabeledBy(ll, k, p, cen, x, was), []);
    StageKeepsPoints(f);
    forall x: seq<real>, was: seq<Word> | Occurs(l, |was|) && |x| == |was| * p && HasLive(cs)
      ensures Stage(f)([Coordinates(x), was])
              == ([Coordinates(x), LabelWords(Assign(Rows(x, |was|, p), cs, p))], [])
    {
      StageOn(f, x, was);
      LabelsOfKernel(k, p, cen, cs, x, |was|);
      AllFeatures(cs, p);
      AllRelabelled(ll, was, KernelLabels(k, p, cen, x, |was|));
    }
  }

  lemma AllRelabelled(ll: Launch, was: seq<Word>, lab: seq<int>)
    requires ll.Valid(|lab|) && ll.Complete(|lab|) && |was| == |lab|
    ensures Relabel(ll, was, lab) == LabelWords(lab)
  {
    hide Owner;
    EveryPointOwned(ll, |lab|);
  }

  lemma MassUpdateMeets(m: MassUpdate, k: nat, l: Layout)
    requires l.Valid() && forall n: nat :: Occurs(l, n) ==> MassReady(m, n, k) && MassTakesAll(m, n, k)
    ensures IsMassUpdate(MassUpdateOf(m, k), l, k)
  {
    hide MassReady, MassTakesAll, MassesBy, LabelWords, Labels;
    forall lab: seq<int> | Occurs(l, |lab|)
      ensures MassUpdateOf(m, k)([LabelWords(lab)]) == ([LabelWords(lab)], Masses(lab, k))
    {
      IntsOfLabels(lab);
      AllMassesTaken(m, |lab|, k, lab);
      assert MassAdditions(m, k, lab) == Masses(lab, k);
    }
  }

  lemma CentroidUpdateMeets(u: CentroidUpdate, k: nat, l: Layout)
    requires l.Valid() && k > 0
    requires forall n: nat :: Occurs(l, n) ==> SumsReady(u, n, l.dims, k) && SumsTakeAll(u, n, l.dims, k)
    ensures IsCentroidUpdate(CentroidUpdateOf(u, l.dims, k), l, k)
  {
    hide KeepsPoints, Stage, SumsReady, SumsTakeAll, SumsBy, LabelWords, Coordinates, Labels, SumsOf;
    var p := l.dims;
    var f: Effect := (x: seq<real>, was: seq<Word>) => (was, Zeros(k) + SumAdditions(u, p, k, x, Ints(was)));
    StageKeepsPoints(f);
    forall x: seq<real>, lab: seq<int> | Occurs(l, |lab|) && |x| == |lab| * p
      ensures Stage(f)([Coordinates(x), LabelWords(lab)])
              == ([Coordinates(x), LabelWords(lab)], Zeros(k) + SumsOf(x, lab, k, p))
    {
      StageOn(f, x, LabelWords(lab));
      IntsOfLabels(lab);
      AllSumsAdded(u, x, lab, p, k);
    }
  }

  lemma AllSumsAdded(u: CentroidUpdate, x: seq<real>, lab: seq<int>, p: nat, k: nat)
    requires k > 0 && SumsReady(u, |lab|, p, k) && SumsTakeAll(u, |lab|, p, k)
    ensures SumAdditions(u, p, k, x, lab) == SumsOf(x, lab, k, p)
  {
    hide SumsReady, SumsTakeAll, SumsBy, Total;
    PositiveSizes(u, |lab|, p, k);
    AllSumsTaken(u, x, |lab|, p, k, lab);
  }

  lemma FusedMeets(u: FusedUpdate, k: nat, cen: seq<Num>, cs: seq<Center>, l: Layout)
    requires l.Valid() && Holds(cen, cs, k, l.dims)
    requires forall n: nat :: Occurs(l, n) ==> FusedReady(u, n, l.dims, k) && u.Shape().Complete(n)
    ensures k > 0 && Centers(cs, l.dims) && IsFused(FusedOf(u, k, l.dims, cen), cs, l, k)
  {
    hide KeepsPoints, Stage, Assign, FirstFeatures, KernelLabels, LabelWords, Coordinates, HasLive, SumsOf, TakenMasses,
         TakenSums, FusedReady;
    var p := l.dims;
    ShapeOfHolds(cen, cs, k, p);
    var f: Effect := (x: seq<real>, was: seq<Word>) =>
      (LabeledBy(u.Shape(), k, p, cen, x, was), FusedAdditions(u, k, p, cen, x, |was|));
    StageKeepsPoints(f);
    forall x: seq<real>, was: seq<Word> | Occurs(l, |was|) && |x| == |was| * p && HasLive(cs)
      ensures var lab := Assign(Rows(x, |was|, p), cs, p);
              Stage(f)([Coordinates(x), was])
              == ([Coordinates(x), LabelWords(lab)], Masses(lab, k) + SumsOf(x, lab, k, p))
    {
      ReadyShape(u, |was|, p, k);
      var lab := KernelLabels(k, p, cen, x, |was|);
      StageOn(f, x, was);
      LabelsOfKernel(k, p, cen, cs, x, |was|);
      AllFeatures(cs, p);
      AllRelabelled(u.Shape(), was, lab);
      AllFused(u.Shape(), x, lab, p, k);
    }
  }

  lemma AllFused(s: Launch, x: seq<real>, lab: seq<int>, p: nat, k: nat)
    requires k > 0 && k * p > 0 && s.Valid(|lab|) && s.Complete(|lab|)
    ensures Additions(k, TakenMasses(s, lab)) == Masses(lab, k)
    ensures Additions(k * p, TakenSums(s, x, lab, k)) == SumsOf(x, lab, k, p)
  {
    hide Total, TakenMasses, TakenSums;
    CompleteTakesAll(s, lab, x, lab, k, p);
  }

  // ---------- the runs ----------

  /** The three-stage pipeline with launches of these shapes. */
  method RunThreeLaunches(host_points: seq<real>, n: nat, p: nat, k: nat, host_centroids: seq<Num>,
                          host_labels: seq<Word>, buffer_size: nat, cpu: bool, pool_size: nat, max_iterations: nat,
                          f_labeling: seq<Num> -> Kernel, f_mass_update: Kernel, f_centroid_update: Kernel,
                          tie: PipelineOrder.Tie, ghost ll: Launch, ghost mu: MassUpdate, ghost cu: CentroidUpdate,
                          ghost c0: seq<Center>)
    returns (labels: seq<Word>, masses: seq<real>, centroids: seq<Num>)
    requires KernelFits(p) && |host_points| == n * p && |host_labels| == n
    requires Holds(host_centroids, c0, k, p) && (n > 0 ==> HasLive(c0))
    requires buffer_size > 0 && buffer_size % p == 0 && pool_size >= 4 * buffer_size && |tie.waits| == 3
    requires forall cen :: f_labeling(cen) == LabelingOf(ll, k, p, cen)
    requires f_mass_update == MassUpdateOf(mu, k) && f_centroid_update == CentroidUpdateOf(cu, p, k)
    requires var l := LayoutOfRun(n, p, buffer_size); AllReadyOn(l, k, ll, mu, cu) && AllTakenOn(l, k, ll, mu, cu)
    ensures Centers(c0, p) && |c0| == k > 0
    ensures max_iterations > 0 && PipelineOrder.Tied(tie, PipelineOrder.THREE_STAGES, max_iterations) ==>
              OutcomeInWords(host_points, n, p, k, c0, max_iterations, labels, masses, centroids)
    ensures max_iterations == 0 ==> labels == host_labels && centroids == host_centroids
  {
    hide Holds, IsLabeling, IsMassUpdate, IsCentroidUpdate, LabelingOf, MassUpdateOf, CentroidUpdateOf, OutcomeInWords,
         HasLive, MassReady, SumsReady, MassTakesAll, SumsTakeAll, Occurs;
    ShapeOfHolds(host_centroids, c0, k, p);
    ghost var l := LayoutOfRun(n, p, buffer_size);
    forall cen, cs | Holds(cen, cs, k, p)
      ensures Centers(cs, l.dims) && IsLabeling(f_labeling(cen), cs, l)
    {
      LabelingMeets(ll, k, cen, cs, l);
    }
    MassUpdateMeets(mu, k, l);
    CentroidUpdateMeets(cu, k, l);
    labels, masses, centroids :=
      RunThreeStages(host_points, n, p, k, host_centroids, host_labels, buffer_size, cpu, pool_size, max_iterations,
                     f_labeling, f_mass_update, f_centroid_update, tie, c0);
  }

  /** The single-stage pipeline with any of the fused kernels. */
  method RunFusedLaunches(host_points: seq<real>, n: nat, p: nat, k: nat, host_centroids: seq<Num>,
                          host_labels: seq<Word>, buffer_size: nat, cpu: bool, pool_size: nat, max_iterations: nat,
                          f_fused: seq<Num> -> Kernel, tie: PipelineOrder.Tie, ghost u: FusedUpdate,
                          ghost c0: seq<Center>)
    returns (labels: seq<Word>, masses: seq<real>, centroids: seq<Num>)
    requires KernelFits(p) && |host_points| == n * p && |host_labels| == n
    requires Holds(host_centroids, c0, k, p) && (n > 0 ==> HasLive(c0))
    requires buffer_size > 0 && buffer_size % p == 0 && pool_size >= 4 * buffer_size && |tie.waits| == 1
    requires forall cen :: f_fused(cen) == FusedOf(u, k, p, cen)
    requires forall m: nat :: Occurs(LayoutOfRun(n, p, buffer_size), m) ==>
               FusedReady(u, m, p, k) && u.Shape().Complete(m)
    ensures Centers(c0, p) && |c0| == k > 0
    ensures max_iterations > 0 && PipelineOrder.Tied(tie, PipelineOrder.ONE_STAGE, max_iterations) ==>
              OutcomeInWords(host_points, n, p, k, c0, max_iterations, labels, masses, centroids)
    ensures max_iterations == 0 ==> labels == host_labels && centroids == host_centroids
  {
    hide Holds, IsFused, FusedOf, OutcomeInWords, HasLive, FusedReady, Occurs;
    ShapeOfHolds(host_centroids, c0, k, p);
    ghost var l := LayoutOfRun(n, p, buffer_size);
    forall cen, cs | Holds(cen, cs, k, p)
      ensures Centers(cs, l.dims) && IsFused(f_fused(cen), cs, l, k)
    {
      FusedMeets(u, k, cen, cs, l);
    }
    labels, masses, centroids :=
      RunSingleStage(host_points, n, p, k, host_centroids, host_labels, buffer_size, cpu, pool_size, max_iterations,
                     f_fused, tie, c0);
  }

  // ---------- a job that goes wrong ----------

  /** All coordinates are one, and all centres the origin. */
  ghost function OnesJob(l: Layout, k: nat): Job {
    Job(l, seq(l.Size(), i => 1.0), seq(l.Size(), i => 1.0), k)
  }

  lemma OnesJobIsValid(l: Layout, k: nat)
    requires l.Valid() && k > 0
    ensures OnesJob(l, k).Valid()
  {
    forall b: nat, v: nat, i: nat | IsCell(l, b, v, i)
      ensures 0 <= Dest(l, b, v, i) < l.Size() && 0 <= Source(l, b, v, i) < l.Size()
    {
      CellInside(l, b, v, i);
    }
  }

  ghost function Origins(k: nat, p: nat): (cs: seq<Center>)
    ensures |cs| == k && Centers(cs, p)
  {
    seq(k, j => Live(seq(p, c => 0.0)))
  }

  ghost function ZeroMatrix(k: nat, p: nat): seq<Num> {
    Product(k, p);
    seq(k * p, t => Fin(0.0))
  }

  lemma OriginsAreHeld(k: nat, p: nat)
    requires k > 0
    ensures Holds(ZeroMatrix(k, p), Origins(k, p), k, p) && HasLive(Origins(k, p))
  {
    Product(k, p);
    LiveIsBelow(Origins(k, p), 0, k);
    forall t: nat | t < k * p
      ensures Entry(Origins(k, p), t % k, t / k) == Fin(0.0)
    {
      CellSplit(t, k, p);
    }
  }

  // ---------- a label that nobody touches ----------

  /** Only labels can change, and the label of point g stays. */
  ghost predicate KeepsLabel(j: Job, s: Plain, word: Word, g: nat) {
    exists labels: seq<Word> :: s.mem == Memory(j, labels) && g < |labels| == j.l.dim && labels[g] == word
  }

  /** The stage leaves the label of point g alone, whatever the buffer holds. */
  ghost predicate LeavesLabel(j: Job, f: Effect, g: nat)
    requires j.l.Valid()
  {
    && (forall x: seq<real>, was: seq<Word> :: |f(x, was).0| == |was|)
    && forall b: nat, x: seq<real>, was: seq<Word> {:trigger Before(j.l, b), f(x, was)} ::
         b < NumChunks(j.l.dim, j.l.bufdim) && |was| == Before(j.l, b + 1) - Before(j.l, b)
         && Before(j.l, b) <= g < Before(j.l, b + 1) ==>
           f(x, was).0[g - Before(j.l, b)] == was[g - Before(j.l, b)]
  }

  lemma EffectOnLabel(j: Job, f: Effect, b: nat, x: seq<real>, labels: seq<Word>, g: nat)
    requires j.l.Valid() && b < NumChunks(j.l.dim, j.l.bufdim) && LeavesLabel(j, f, g) && g < |labels| == j.l.dim
    requires Before(j.l, b) <= Before(j.l, b + 1) <= j.l.dim
    ensures var run := labels[Before(j.l, b)..Before(j.l, b + 1)];
            |f(x, run).0| == |run| && Overlay(labels, Before(j.l, b), f(x, run).0)[g] == labels[g]
  {
    hide NumChunks, Before;
    var run := labels[Before(j.l, b)..Before(j.l, b + 1)];
    assert |f(x, run).0| == |run|;
  }

  lemma StageKeepsLabel(j: Job, r: Runnable, f: Effect, b: nat, s: Plain, word: Word, g: nat)
    requires j.Valid() && b < NumChunks(j.l.dim, j.l.bufdim) && r.kernel == Stage(f) && KeepsLabel(j, s, word, g)
    requires Ready(r, j.Sizes(), j.Steps()) && r.uses == j.PointsAndLabels() && Shapes(s.mem, j.Sizes())
    requires LeavesLabel(j, f, g)
    ensures KeepsLabel(j, Fire(r, b, s, j.Sizes(), j.Steps()), word, g)
  {
    hide IsPartition, KeepsLengths, Fire, Coordinates, BufferOf, NumChunks, Memory, Stage, LeavesLabel, Overlay, Before,
         Shapes, GoodUses, Plus;
    var labels :| s.mem == Memory(j, labels) && g < |labels| == j.l.dim && labels[g] == word;
    BuffersOf(j, labels, b);
    SizeOfPartition(j);
    var x, run := BufferOf(j.l, j.dst, b), labels[Before(j.l, b)..Before(j.l, b + 1)];
    EffectOnLabel(j, f, b, x, labels, g);
    StageOn(f, x, run);
    FireBoth(j, r, b, s, labels, f(x, run).0, f(x, run).1);
  }

  lemma {:induction false} LabelStays(j: Job, r: Runnable, f: Effect, b: nat, s: Plain, word: Word, g: nat)
    requires j.Valid() && b <= NumChunks(j.l.dim, j.l.bufdim) && r.kernel == Stage(f) && KeepsLabel(j, s, word, g)
    requires Ready(r, j.Sizes(), j.Steps()) && r.uses == j.PointsAndLabels() && Shapes(s.mem, j.Sizes())
    requires LeavesLabel(j, f, g)
    ensures KeepsLabel(j, FireEach(r, b, s, j.Sizes(), j.Steps()), word, g)
  {
    hide IsPartition, Ready, Fire, NumChunks, KeepsLabel, LeavesLabel, Shapes, Stage;
    if b > 0 {
      LabelStays(j, r, f, b - 1, s, word, g);
      StageKeepsLabel(j, r, f, b - 1, FireEach(r, b - 1, s, j.Sizes(), j.Steps()), word, g);
    }
  }

  /** Counting changes no labels at all. */
  lemma {:induction false} CountingKeepsLabel(j: Job, r: Runnable, b: nat, s: Plain, word: Word, g: nat)
    requires j.Valid() && b <= NumChunks(j.l.dim, j.l.bufdim) && KeepsLabel(j, s, word, g)
    requires forall contents: seq<seq<Word>> :: r.kernel(contents).0 == contents
    requires Ready(r, j.Sizes(), j.Steps()) && r.uses == j.LabelsOnly() && Shapes(s.mem, j.Sizes())
    ensures KeepsLabel(j, FireEach(r, b, s, j.Sizes(), j.Steps()), word, g)
  {
    hide IsPartition, KeepsLengths, Fire, NumChunks, Memory, Shapes;
    if b > 0 {
      CountingKeepsLabel(j, r, b - 1, s, word, g);
      var t := FireEach(r, b - 1, s, j.Sizes(), j.Steps());
      var labels :| t.mem == Memory(j, labels) && g < |labels| == j.l.dim && labels[g] == word;
      BuffersOf(j, labels, b - 1);
      var run := labels[Before(j.l, b - 1)..Before(j.l, b)];
      FireLabels(j, r, b - 1, t, labels, r.kernel([run]).1);
    }
  }

  /** A point that the labelling launch leaves out keeps its label. */
  lemma LeftOutLeavesLabel(j: Job, ll: Launch, cen: seq<Num>, f: Effect, b0: nat, q: nat)
    requires j.Valid() && b0 < NumChunks(j.l.dim, j.l.bufdim) && 0 <= j.l.bufdim * b0 < j.l.dim && q < j.l.Real(b0)
    requires ll.Valid(j.l.Real(b0)) && Owner(ll, j.l.Real(b0))(q) < 0
    requires forall x: seq<real>, was: seq<Word> :: f(x, was).0 == LabeledBy(ll, j.k, j.l.dims, cen, x, was)
    ensures LeavesLabel(j, f, j.l.bufdim * b0 + q)
  {
    hide IsPartition, NumChunks, Owner, LabeledBy, Before;
    var g, m := j.l.bufdim * b0 + q, j.l.Real(b0);
    forall b: nat, x: seq<real>, was: seq<Word> |
        b < NumChunks(j.l.dim, j.l.bufdim) && |was| == Before(j.l, b + 1) - Before(j.l, b)
        && Before(j.l, b) <= g < Before(j.l, b + 1)
      ensures f(x, was).0[g - Before(j.l, b)] == was[g - Before(j.l, b)]
    {
      OneBuffer(j, b, b0, g);
      LeftOutStays(ll, j.k, j.l.dims, cen, x, was, q);
    }
  }

  lemma LeftOutStays(ll: Launch, k: nat, p: nat, cen: seq<Num>, x: seq<real>, was: seq<Word>, q: nat)
    requires q < |was| && ll.Valid(|was|) && Owner(ll, |was|)(q) < 0
    ensures LabeledBy(ll, k, p, cen, x, was)[q] == was[q]
  {
    hide Owner, KernelLabels;
  }

  lemma OneBuffer(j: Job, b: nat, b0: nat, g: nat)
    requires j.l.Valid() && b < NumChunks(j.l.dim, j.l.bufdim) && j.l.bufdim * b0 < j.l.dim
    requires 0 <= j.l.bufdim * b0 <= g < j.l.bufdim * b0 + j.l.Real(b0) && Before(j.l, b) <= g < Before(j.l, b + 1)
    ensures b == b0 && Before(j.l, b) == j.l.bufdim * b0 && Before(j.l, b + 1) - Before(j.l, b) == j.l.Real(b0)
  {
    Distribute(j.l.bufdim, b, 1);
    Distribute(j.l.bufdim, b0, 1);
    if b < b0 {
      Monotone(b + 1, b0, j.l.bufdim);
    } else if b > b0 {
      Monotone(b0 + 1, b, j.l.bufdim);
    }
  }

  // ---------- masses and sums that fall short ----------

  /** Whoever is left out is missing in the sum. */
  lemma OwnedFallsShort(n: nat, own: int -> int, f: int -> real, q: nat)
    requires forall i :: 0 <= i < n ==> f(i) >= 0.0
    ensures SumOwned(n, own, f) <= Sum(n, f)
    ensures q < n && own(q) < 0 && f(q) > 0.0 ==> SumOwned(n, own, f) < Sum(n, f)
  {
    var left := i => if own(i) >= 0 then 0.0 else f(i);
    var owned := i => if own(i) >= 0 then f(i) else 0.0;
    SumOfSums(n, owned, left, f);
    SumNonNegative(n, left);
    if q < n {
      SumAtLeastTerm(n, left, q);
    }
  }

  lemma MassesFallShort(m: MassUpdate, run: seq<int>, k: nat, c: nat, q: nat)
    requires MassReady(m, |run|, k)
    ensures MassesBy(m, run, k)(c) <= Count(run, c, |run|) as real
    ensures m.PartPrivate? && q < |run| && Owner(m.launch, |run|)(q) < 0 && run[q] == c ==>
              MassesBy(m, run, k)(c) < Count(run, c, |run|) as real
  {
    hide Owner, SumOwned, ReduceVectorParcol.Reduces;
    if m.PartPrivate? {
      MassesAddUp(run, c, |run|);
      OwnedFallsShort(|run|, Owner(m.launch, |run|), Mass(run, c), q);
    }
  }

  /** The kernel leaves out point q of n points. */
  ghost predicate LeavesOut(m: MassUpdate, n: nat, q: nat) {
    m.PartPrivate? && m.launch.Valid(n) && q < n && Owner(m.launch, n)(q) < 0
  }

  /** The count of its cluster is too small from its buffer on. */
  lemma {:induction false} CountsFallShort(j: Job, r: Runnable, m: MassUpdate, lab: seq<int>, b: nat, s: Plain, b0: nat,
                                           q: nat, c: nat)
    requires j.Valid() && |lab| == j.l.dim && c < j.k && b <= NumChunks(j.l.dim, j.l.bufdim)
    requires forall n: nat :: Occurs(j.l, n) ==> MassReady(m, n, j.k)
    requires Ready(r, j.Sizes(), j.Steps()) && r == Runnable(MassUpdateOf(m, j.k), j.LabelsOnly())
    requires Shapes(s.mem, j.Sizes()) && s.mem == Memory(j, LabelWords(lab)) && Accumulated(j, s.acc, lab, 0, 0)
    requires InPart(j, m, b0, q, lab, c)
    ensures Before(j.l, b) <= j.l.dim
    ensures var t := FireEach(r, b, s, j.Sizes(), j.Steps());
            t.mem == s.mem && |t.acc| == |s.acc| > c && Short(t.acc[c], Count(lab, c, Before(j.l, b)) as real, b > b0)
  {
    hide IsPartition, Ready, Fire, NumChunks, Memory, Shapes, Accumulated, MassReady, InPart, MassUpdateOf, Before;
    if b == 0 {
      NothingCounted(j, s.acc, lab, c);
      StartsAtZero(j, LabelWords(lab), lab);
    } else {
      CountsFallShort(j, r, m, lab, b - 1, s, b0, q, c);
      OneCountFallsShort(j, r, m, lab, b - 1, FireEach(r, b - 1, s, j.Sizes(), j.Steps()), b0, q, c);
    }
  }

  /** At most so much, and less if so asked. */
  predicate Short(x: real, most: real, less: bool) {
    x <= most && (less ==> x < most)
  }

  /** The kernel leaves out point q of buffer b0, which is in cluster c. */
  ghost predicate InPart(j: Job, m: MassUpdate, b0: nat, q: nat, lab: seq<int>, c: nat) {
    && 0 <= j.l.bufdim * b0 < j.l.dim && LeavesOut(m, j.l.Real(b0), q)
    && 0 <= j.l.bufdim * b0 + q < |lab| && lab[j.l.bufdim * b0 + q] == c
  }

  lemma NothingCounted(j: Job, acc: seq<real>, lab: seq<int>, c: nat)
    requires j.Valid() && Accumulated(j, acc, lab, 0, 0) && c < j.k
    ensures c < |acc| && acc[c] == 0.0
  {
  }

  lemma OneCountFallsShort(j: Job, r: Runnable, m: MassUpdate, lab: seq<int>, b: nat, s: Plain, b0: nat, q: nat, c: nat)
    requires j.Valid() && |lab| == j.l.dim && c < j.k && b < NumChunks(j.l.dim, j.l.bufdim) && Before(j.l, b) <= j.l.dim
    requires forall n: nat :: Occurs(j.l, n) ==> MassReady(m, n, j.k)
    requires Ready(r, j.Sizes(), j.Steps()) && r == Runnable(MassUpdateOf(m, j.k), j.LabelsOnly())
    requires Shapes(s.mem, j.Sizes()) && s.mem == Memory(j, LabelWords(lab)) && c < |s.acc|
    requires InPart(j, m, b0, q, lab, c) && Short(s.acc[c], Count(lab, c, Before(j.l, b)) as real, b > b0)
    ensures Before(j.l, b + 1) <= j.l.dim
    ensures var t := Fire(r, b, s, j.Sizes(), j.Steps());
            && t.mem == s.mem && |t.acc| == |s.acc|
            && Short(t.acc[c], Count(lab, c, Before(j.l, b + 1)) as real, b + 1 > b0)
  {
    hide IsPartition, KeepsLengths, Fire, Coordinates, BufferOf, NumChunks, Memory, MassReady, Count, MassesBy, Owner;
    BuffersOf(j, LabelWords(lab), b);
    var from, to := Before(j.l, b), Before(j.l, b + 1);
    var run := lab[from..to];
    assert LabelWords(lab)[from..to] == LabelWords(run);
    IntsOfLabels(run);
    FireLabels(j, r, b, s, LabelWords(lab), MassAdditions(m, j.k, run));
    CountOfRun(lab, c, from, to - from);
    MassesFallShort(m, run, j.k, c, q);
  }

  lemma SumsFallShort(u: CentroidUpdate, x: seq<real>, run: seq<int>, p: nat, k: nat, t: nat, q: nat)
    requires SumsReady(u, |run|, p, k) && t < k * p && forall i :: 0 <= i < |x| ==> x[i] >= 0.0
    ensures SumsBy(u, x, run, p, k)(t) <= Totals(x, |run|, p, run, k)(t)
    ensures !u.FeatureSum? && q < |run| && Owner(u.launch, |run|)(q) < 0 && Feature(x, |run|, run, k, t)(q) > 0.0 ==>
              SumsBy(u, x, run, p, k)(t) < Totals(x, |run|, p, run, k)(t)
  {
    hide Owner, SumOwned, ReduceVectorParcol.Reduces, Total, Barriers.InStep;
    if !u.FeatureSum? {
      FeaturesAddUp(x, |run|, p, run, k, t, |run|);
      OwnedFallsShort(|run|, Owner(u.launch, |run|), Feature(x, |run|, run, k, t), q);
    }
  }

  /** The kernel leaves out point q of n points. */
  ghost predicate SumsLeaveOut(u: CentroidUpdate, n: nat, q: nat) {
    !u.FeatureSum? && u.launch.Valid(n) && q < n && Owner(u.launch, n)(q) < 0
  }

  ghost predicate InPartOfSums(j: Job, u: CentroidUpdate, b0: nat, q: nat, lab: seq<int>, c: nat) {
    && 0 <= j.l.bufdim * b0 < j.l.dim && SumsLeaveOut(u, j.l.Real(b0), q)
    && 0 <= j.l.bufdim * b0 + q < |lab| && lab[j.l.bufdim * b0 + q] == c
  }

  lemma OnesInBuffer(j: Job, b: nat)
    requires j.l.Valid() && j == OnesJob(j.l, j.k) && 0 <= j.l.bufdim * b < j.l.dim
    ensures var x := BufferOf(j.l, j.dst, b); |x| == j.l.Real(b) * j.l.dims && forall i :: 0 <= i < |x| ==> x[i] == 1.0
  {
    BufferInside(j.l, b);
    Product(j.l.BufferSize(), b);
  }

  lemma FeatureOfOnes(x: seq<real>, run: seq<int>, p: nat, k: nat, c: nat, q: nat)
    requires |x| == |run| * p && p > 0 && c < k && (forall i :: 0 <= i < |x| ==> x[i] == 1.0)
    ensures q < |run| && run[q] == c ==> Feature(x, |run|, run, k, c)(q) == 1.0
  {
    DivMod(k, 0, c);
    Monotone(1, p, |run|);
  }

  /** The points of a buffer add no more than they should. */
  lemma BufferFallsShort(j: Job, u: CentroidUpdate, lab: seq<int>, b: nat, b0: nat, q: nat, c: nat)
    requires j.Valid() && j == OnesJob(j.l, j.k) && |lab| == j.l.dim && c < j.k && c < j.k * j.l.dims
    requires 0 <= j.l.bufdim * b < j.l.dim && SumsReady(u, j.l.Real(b), j.l.dims, j.k)
             && InPartOfSums(j, u, b0, q, lab, c)
    ensures 0 <= Before(j.l, b) <= Before(j.l, b + 1) <= j.l.dim
    ensures var x, run := BufferOf(j.l, j.dst, b), lab[Before(j.l, b)..Before(j.l, b + 1)];
            var more := SumAdditions(u, j.l.dims, j.k, x, run);
            && |more| == j.k * j.l.dims
            && Short(SumAt(j.src, lab, j.k, j.l.dims, c, Before(j.l, b)) + more[c],
                     SumAt(j.src, lab, j.k, j.l.dims, c, Before(j.l, b + 1)), b == b0)
  {
    hide IsPartition, BufferOf, SumsReady, SumsBy, Owner, Total;
    SumsOfBuffer(j.l, j.src, j.dst, b, lab, j.k, c);
    Distribute(j.l.bufdim, b, 1);
    var x, run := BufferOf(j.l, j.dst, b), lab[Before(j.l, b)..Before(j.l, b + 1)];
    OnesInBuffer(j, b);
    PositiveSizes(u, |run|, j.l.dims, j.k);
    FeatureOfOnes(x, run, j.l.dims, j.k, c, q);
    SumsFallShort(u, x, run, j.l.dims, j.k, c, q);
  }

  /** The centroid stage on one buffer. */
  lemma FireSums(j: Job, r: Runnable, u: CentroidUpdate, lab: seq<int>, b: nat, s: Plain)
    requires j.Valid() && |lab| == j.l.dim && b < NumChunks(j.l.dim, j.l.bufdim)
    requires Ready(r, j.Sizes(), j.Steps()) && r == Runnable(CentroidUpdateOf(u, j.l.dims, j.k), j.PointsAndLabels())
    requires Shapes(s.mem, j.Sizes()) && s.mem == Memory(j, LabelWords(lab))
    ensures 0 <= j.l.bufdim * b < j.l.dim && 0 <= Before(j.l, b) <= Before(j.l, b + 1) <= j.l.dim
    ensures var x, run := BufferOf(j.l, j.dst, b), lab[Before(j.l, b)..Before(j.l, b + 1)];
            Fire(r, b, s, j.Sizes(), j.Steps())
            == Plain(s.mem, Plus(s.acc, Zeros(j.k) + SumAdditions(u, j.l.dims, j.k, x, run)))
  {
    hide IsPartition, KeepsLengths, Fire, Coordinates, BufferOf, NumChunks, Memory, SumAdditions, Stage, Plus;
    BuffersOf(j, LabelWords(lab), b);
    SizeOfPartition(j);
    var from, to, p, k := Before(j.l, b), Before(j.l, b + 1), j.l.dims, j.k;
    var run, x := lab[from..to], BufferOf(j.l, j.dst, b);
    assert LabelWords(lab)[from..to] == LabelWords(run);
    assert Overlay(LabelWords(lab), from, LabelWords(run)) == LabelWords(lab);
    IntsOfLabels(run);
    var f: Effect := (x: seq<real>, was: seq<Word>) => (was, Zeros(k) + SumAdditions(u, p, k, x, Ints(was)));
    StageOn(f, x, LabelWords(run));
    FireBoth(j, r, b, s, LabelWords(lab), LabelWords(run), Zeros(k) + SumAdditions(u, p, k, x, run));
  }

  /** The sum of a cluster's first feature is too small from the buffer of the left-out point on; masses stay. */
  lemma {:induction false} SumsFallShortOfAll(j: Job, r: Runnable, u: CentroidUpdate, lab: seq<int>, b: nat, s: Plain,
                                              b0: nat, q: nat, c: nat)
    requires j.Valid() && j == OnesJob(j.l, j.k) && |lab| == j.l.dim && c < j.k && c < j.k * j.l.dims
    requires b <= NumChunks(j.l.dim, j.l.bufdim)
    requires forall n: nat :: Occurs(j.l, n) ==> SumsReady(u, n, j.l.dims, j.k)
    requires Ready(r, j.Sizes(), j.Steps()) && r == Runnable(CentroidUpdateOf(u, j.l.dims, j.k), j.PointsAndLabels())
    requires Shapes(s.mem, j.Sizes()) && s.mem == Memory(j, LabelWords(lab)) && j.k + c < |s.acc|
             && s.acc[j.k + c] == 0.0
    requires InPartOfSums(j, u, b0, q, lab, c)
    ensures Before(j.l, b) <= j.l.dim
    ensures var t := FireEach(r, b, s, j.Sizes(), j.Steps());
            && t.mem == s.mem && |t.acc| == |s.acc|
            && Short(t.acc[j.k + c], SumAt(j.src, lab, j.k, j.l.dims, c, Before(j.l, b)), b > b0)
  {
    hide IsPartition, KeepsLengths, Fire, NumChunks, Memory, Shapes, SumsReady, InPartOfSums, CentroidUpdateOf, Before,
         SumAdditions, BufferOf, Occurs, SumAt;
    if b == 0 {
      StartsAtZero(j, LabelWords(lab), lab);
      NothingSummed(j, lab, c);
    } else {
      SumsFallShortOfAll(j, r, u, lab, b - 1, s, b0, q, c);
      var t := FireEach(r, b - 1, s, j.Sizes(), j.Steps());
      FireSums(j, r, u, lab, b - 1, t);
      LengthOccurs(j.l, b - 1);
      BufferFallsShort(j, u, lab, b - 1, b0, q, c);
    }
  }

  lemma NothingSummed(j: Job, lab: seq<int>, c: nat)
    requires j.Valid() && |lab| == j.l.dim
    ensures SumAt(j.src, lab, j.k, j.l.dims, c, 0) == 0.0
  {
  }

  // ---------- right for every job ----------

  /** The three stages with launches of these shapes. */
  ghost function Launched(l: Layout, k: nat, ll: Launch, mu: MassUpdate, cu: CentroidUpdate,
                          cen: seq<Num>): seq<Runnable> {
    ThreeStages(l.BufferSize(), l.bufdim, LabelingOf(ll, k, l.dims, cen), MassUpdateOf(mu, k),
                CentroidUpdateOf(cu, l.dims, k))
  }

  /** Whatever the points and the centroids: the stages together are one iteration. */
  ghost predicate IteratesAlways(l: Layout, k: nat, ll: Launch, mu: MassUpdate, cu: CentroidUpdate) {
    forall j: Job, cen: seq<Num>, cs: seq<Center> ::
      j.Valid() && j.l == l && j.k == k && |cs| == k && Centers(cs, l.dims) && Holds(cen, cs, k, l.dims)
        && HasLive(cs) ==>
        Iterates(j, Launched(l, k, ll, mu, cu, cen), Assign(j.Points(), cs, l.dims))
  }

  lemma ResultOfIterates(j: Job, rs: seq<Runnable>, lab: seq<int>, labels: seq<Word>, acc: seq<real>)
    requires j.Valid() && |lab| == j.l.dim == |labels| && Iterates(j, rs, lab) && Accumulated(j, acc, lab, 0, 0)
    ensures AllReady(rs, j.Sizes(), j.Steps()) && IterationResult(j, rs, lab, labels, acc)
  {
    hide IterationResult, Accumulated;
  }

  /** The states between the stages. */
  lemma StagesInOrder(j: Job, rs: seq<Runnable>, lab: seq<int>, labels: seq<Word>, acc: seq<real>)
    requires j.Valid() && |lab| == j.l.dim == |labels| && |rs| == 3 && AllReady(rs, j.Sizes(), j.Steps())
    requires IterationResult(j, rs, lab, labels, acc)
    ensures Shapes(Memory(j, labels), j.Sizes())
    ensures var n, s := NumChunks(j.l.dim, j.l.bufdim), Plain(Memory(j, labels), acc);
            var s1 := FireEach(rs[0], n, s, j.Sizes(), j.Steps());
            var s2 := FireEach(rs[1], n, s1, j.Sizes(), j.Steps());
            var s3 := FireEach(rs[2], n, s2, j.Sizes(), j.Steps());
            s3.mem == Memory(j, LabelWords(lab)) && Accumulated(j, s3.acc, lab, |lab|, |lab|)
  {
    hide IsPartition, FireEach, Accumulated, Ready, Memory, NumChunks;
    JobShapes(j, labels);
    var n, s := NumChunks(j.l.dim, j.l.bufdim), Plain(Memory(j, labels), acc);
    assert RunnableMajor(rs, n, s, j.Sizes(), j.Steps(), 0) == s;
    var s1 := FireEach(rs[0], n, s, j.Sizes(), j.Steps());
    assert RunnableMajor(rs, n, s, j.Sizes(), j.Steps(), 1) == s1;
    assert RunnableMajor(rs, n, s, j.Sizes(), j.Steps(), 2) == FireEach(rs[1], n, s1, j.Sizes(), j.Steps());
  }

  /** If the labelling launch leaves out a point, labels that were wrong stay wrong. */
  lemma LeftOutOfLabels(j: Job, ll: Launch, mu: MassUpdate, cu: CentroidUpdate, cen: seq<Num>, lab: seq<int>, b0: nat,
                        q: nat)
    requires j.Valid() && |lab| == j.l.dim && b0 < NumChunks(j.l.dim, j.l.bufdim) && 0 <= j.l.bufdim * b0 < j.l.dim
    requires q < j.l.Real(b0) && ll.Valid(j.l.Real(b0)) && Owner(ll, j.l.Real(b0))(q) < 0
    ensures !Iterates(j, Launched(j.l, j.k, ll, mu, cu, cen), lab)
  {
    hide Iterates, IterationResult, FireEach, KeepsLabel, LeavesLabel, IsPartition, NumChunks, Memory, Accumulated,
         Ready, Owner, Stage, LabeledBy, SumAdditions, MassAdditions;
    var rs := Launched(j.l, j.k, ll, mu, cu, cen);
    if Iterates(j, rs, lab) {
      var wrong, g := LabelWords(seq(|lab|, i requires 0 <= i < |lab| => lab[i] + 1)), j.l.bufdim * b0 + q;
      Product(j.k, j.l.dims);
      var acc := Zeros(j.k + j.k * j.l.dims);
      NothingAccumulated(j, acc, lab);
      ResultOfIterates(j, rs, lab, wrong, acc);
      StagesInOrder(j, rs, lab, wrong, acc);
      Distribute(j.l.bufdim, b0, 1);
      var n, s := NumChunks(j.l.dim, j.l.bufdim), Plain(Memory(j, wrong), acc);
      Untouched(j, s, wrong, g);
      var labeled: Effect := (x: seq<real>, was: seq<Word>) => (LabeledBy(ll, j.k, j.l.dims, cen, x, was), []);
      LeftOutLeavesLabel(j, ll, cen, labeled, b0, q);
      LabelStays(j, rs[0], labeled, n, s, wrong[g], g);
      var s1 := FireEach(rs[0], n, s, j.Sizes(), j.Steps());
      CountingKeepsLabel(j, rs[1], n, s1, wrong[g], g);
      var s2 := FireEach(rs[1], n, s1, j.Sizes(), j.Steps());
      var f: Effect := (x: seq<real>, was: seq<Word>) => (was,
                                                          Zeros(j.k) + SumAdditions(cu, j.l.dims, j.k, x, Ints(was)));
      SumsLeaveLabels(j, f, g);
      LabelStays(j, rs[2], f, n, s2, wrong[g], g);
      StillWrong(j, FireEach(rs[2], n, s2, j.Sizes(), j.Steps()), lab, wrong[g], g);
    }
  }

  lemma Untouched(j: Job, s: Plain, labels: seq<Word>, g: nat)
    requires s.mem == Memory(j, labels) && g < |labels| == j.l.dim
    ensures KeepsLabel(j, s, labels[g], g)
  {
    hide Memory;
  }

  lemma SumsLeaveLabels(j: Job, f: Effect, g: nat)
    requires j.l.Valid() && forall x: seq<real>, was: seq<Word> :: f(x, was).0 == was
    ensures LeavesLabel(j, f, g)
  {
    hide NumChunks, Before;
  }

  lemma StillWrong(j: Job, s: Plain, lab: seq<int>, word: Word, g: nat)
    requires |lab| == j.l.dim && g < |lab| && KeepsLabel(j, s, word, g) && word != Label(lab[g])
    ensures s.mem != Memory(j, LabelWords(lab))
  {
  }

  /** The centroid stage leaves the masses alone. */
  lemma {:induction false} MassesStay(j: Job, r: Runnable, u: CentroidUpdate, lab: seq<int>, b: nat, s: Plain)
    requires j.Valid() && |lab| == j.l.dim && b <= NumChunks(j.l.dim, j.l.bufdim)
    requires Ready(r, j.Sizes(), j.Steps()) && r == Runnable(CentroidUpdateOf(u, j.l.dims, j.k), j.PointsAndLabels())
    requires Shapes(s.mem, j.Sizes()) && s.mem == Memory(j, LabelWords(lab)) && j.k <= |s.acc|
    ensures var t := FireEach(r, b, s, j.Sizes(), j.Steps());
            t.mem == s.mem && |t.acc| == |s.acc| && forall i :: 0 <= i < j.k ==> t.acc[i] == s.acc[i]
  {
    hide IsPartition, KeepsLengths, Fire, NumChunks, Memory, Shapes, CentroidUpdateOf, Before, SumAdditions, BufferOf;
    if b > 0 {
      MassesStay(j, r, u, lab, b - 1, s);
      FireSums(j, r, u, lab, b - 1, FireEach(r, b - 1, s, j.Sizes(), j.Steps()));
    }
  }

  lemma AccumulatedMass(j: Job, acc: seq<real>, lab: seq<int>, m: nat, q: nat, c: nat)
    requires j.Valid() && |lab| == j.l.dim && m <= |lab| && q <= |lab| && Accumulated(j, acc, lab, m, q) && c < j.k
    ensures j.k <= |acc| && acc[c] == Count(lab, c, m) as real
  {
  }

  lemma AccumulatedSum(j: Job, acc: seq<real>, lab: seq<int>, m: nat, q: nat, t: nat)
    requires j.Valid() && |lab| == j.l.dim && m <= |lab| && q <= |lab| && Accumulated(j, acc, lab, m, q)
             && t < j.k * j.l.dims
    ensures j.k + t < |acc| && acc[j.k + t] == SumAt(j.src, lab, j.k, j.l.dims, t, q)
  {
  }

  /** A left-out point of cluster c: its mass is not what it should be after the last two stages. */
  lemma MassIsShort(j: Job, rs: seq<Runnable>, mu: MassUpdate, cu: CentroidUpdate, lab: seq<int>, s1: Plain, b0: nat,
                    q: nat, c: nat)
    requires j.Valid() && |lab| == j.l.dim && c < j.k && |rs| == 3 && AllReady(rs, j.Sizes(), j.Steps())
    requires forall n: nat :: Occurs(j.l, n) ==> MassReady(mu, n, j.k)
    requires rs[1] == Runnable(MassUpdateOf(mu, j.k), j.LabelsOnly())
    requires rs[2] == Runnable(CentroidUpdateOf(cu, j.l.dims, j.k), j.PointsAndLabels())
    requires Shapes(s1.mem, j.Sizes()) && s1.mem == Memory(j, LabelWords(lab)) && Accumulated(j, s1.acc, lab, 0, 0)
    requires b0 < NumChunks(j.l.dim, j.l.bufdim) && InPart(j, mu, b0, q, lab, c)
    ensures var n := NumChunks(j.l.dim, j.l.bufdim);
            var s2 := FireEach(rs[1], n, s1, j.Sizes(), j.Steps());
            !Accumulated(j, FireEach(rs[2], n, s2, j.Sizes(), j.Steps()).acc, lab, |lab|, |lab|)
  {
    hide IsPartition, NumChunks, Memory, Accumulated, KeepsLengths, GoodUses, FireEach, MassReady, InPart, MassUpdateOf,
         CentroidUpdateOf, Shapes, Count, Before, Occurs;
    var n := NumChunks(j.l.dim, j.l.bufdim);
    AllBuffers(j, LabelWords(lab), lab);
    AccumulatedMass(j, s1.acc, lab, 0, 0, c);
    CountsFallShort(j, rs[1], mu, lab, n, s1, b0, q, c);
    var s2 := FireEach(rs[1], n, s1, j.Sizes(), j.Steps());
    MassesStay(j, rs[2], cu, lab, n, s2);
    var s3 := FireEach(rs[2], n, s2, j.Sizes(), j.Steps());
    if Accumulated(j, s3.acc, lab, |lab|, |lab|) {
      AccumulatedMass(j, s3.acc, lab, |lab|, |lab|, c);
      assert false;
    }
  }

  /** If labels are right and the mass update leaves out a point, a mass is too small. */
  lemma LeftOutOfMasses(j: Job, ll: Launch, mu: MassUpdate, cu: CentroidUpdate, cen: seq<Num>, cs: seq<Center>, b0: nat,
                        q: nat)
    requires j.Valid() && KernelFits(j.l.dims) && |cs| == j.k && Holds(cen, cs, j.k, j.l.dims) && HasLive(cs)
    requires AllReadyOn(j.l, j.k, ll, mu, cu) && forall n: nat :: Occurs(j.l, n) ==> ll.Complete(n)
    requires b0 < NumChunks(j.l.dim, j.l.bufdim) && 0 <= j.l.bufdim * b0 < j.l.dim && LeavesOut(mu, j.l.Real(b0), q)
    ensures Centers(cs, j.l.dims) && !Iterates(j, Launched(j.l, j.k, ll, mu, cu, cen), Assign(j.Points(), cs, j.l.dims))
  {
    hide IterationResult, FireEach, IsPartition, NumChunks, Memory, Accumulated, KeepsLengths, Occurs, Holds, HasLive,
         LabelingOf, MassUpdateOf, CentroidUpdateOf, MassReady, SumsReady, IsLabeling, Assign, Before, Relabelled;
    ShapeOfHolds(cen, cs, j.k, j.l.dims);
    var rs, lab := Launched(j.l, j.k, ll, mu, cu, cen), Assign(j.Points(), cs, j.l.dims);
    if Iterates(j, rs, lab) {
      var s1 := AfterLabeling(j, ll, mu, cu, cen, cs);
      Distribute(j.l.bufdim, b0, 1);
      var c := LabelOf(j, cs, j.l.bufdim * b0 + q);
      MassIsShort(j, rs, mu, cu, lab, s1, b0, q, c);
    }
  }

  lemma LabelOf(j: Job, cs: seq<Center>, g: nat) returns (c: nat)
    requires j.Valid() && |cs| == j.k && Centers(cs, j.l.dims) && g < j.l.dim
    ensures c < j.k && Assign(j.Points(), cs, j.l.dims)[g] == c
  {
    LabelsOfAssign(j, cs);
    c := Assign(j.Points(), cs, j.l.dims)[g];
  }

  /** The state after a labelling that takes all points, from which the other stages have to go on to the result. */
  lemma AfterLabeling(j: Job, ll: Launch, mu: MassUpdate, cu: CentroidUpdate, cen: seq<Num>, cs: seq<Center>)
    returns (s1: Plain)
    requires j.Valid() && KernelFits(j.l.dims) && |cs| == j.k && Centers(cs, j.l.dims) && Holds(cen, cs, j.k, j.l.dims)
    requires HasLive(cs) && AllReadyOn(j.l, j.k, ll, mu, cu) && forall n: nat :: Occurs(j.l, n) ==> ll.Complete(n)
    requires Iterates(j, Launched(j.l, j.k, ll, mu, cu, cen), Assign(j.Points(), cs, j.l.dims))
    ensures AllReady(Launched(j.l, j.k, ll, mu, cu, cen), j.Sizes(), j.Steps())
    ensures var rs, lab, n := Launched(j.l, j.k, ll, mu, cu, cen), Assign(j.Points(), cs, j.l.dims),
            NumChunks(j.l.dim, j.l.bufdim);
            && Shapes(s1.mem, j.Sizes()) && s1.mem == Memory(j, LabelWords(lab)) && Accumulated(j, s1.acc, lab, 0, 0)
            && var s2 := FireEach(rs[1], n, s1, j.Sizes(), j.Steps());
               Accumulated(j, FireEach(rs[2], n, s2, j.Sizes(), j.Steps()).acc, lab, |lab|, |lab|)
  {
    hide IterationResult, FireEach, IsPartition, NumChunks, Memory, Accumulated, KeepsLengths, Occurs, Holds, HasLive,
         LabelingOf, MassUpdateOf, CentroidUpdateOf, MassReady, SumsReady, IsLabeling, Assign, Before, Relabelled,
         Shapes;
    var rs, lab := Launched(j.l, j.k, ll, mu, cu, cen), Assign(j.Points(), cs, j.l.dims);
    LabelingMeets(ll, j.k, cen, cs, j.l);
    Product(j.k, j.l.dims);
    var acc := Zeros(j.k + j.k * j.l.dims);
    NothingAccumulated(j, acc, lab);
    ResultOfIterates(j, rs, lab, LabelWords(lab), acc);
    hide Iterates;
    StagesInOrder(j, rs, lab, LabelWords(lab), acc);
    var n, s := NumChunks(j.l.dim, j.l.bufdim), Plain(Memory(j, LabelWords(lab)), acc);
    AllBuffers(j, LabelWords(lab), lab);
    LabelingOfAll(j, rs[0], cs, n, s, LabelWords(lab));
    s1 := FireEach(rs[0], n, s, j.Sizes(), j.Steps());
  }

  /** If labels and masses are right and the centroid update leaves out a point of ones, a sum is too small. */
  lemma LeftOutOfSums(j: Job, ll: Launch, mu: MassUpdate, cu: CentroidUpdate, cen: seq<Num>, cs: seq<Center>, b0: nat,
                      q: nat)
    requires j.Valid() && j == OnesJob(j.l, j.k)
    requires KernelFits(j.l.dims) && |cs| == j.k && Holds(cen, cs, j.k, j.l.dims) && HasLive(cs)
    requires AllReadyOn(j.l, j.k, ll, mu, cu)
    requires forall n: nat :: Occurs(j.l, n) ==> ll.Complete(n) && MassTakesAll(mu, n, j.k)
    requires b0 < NumChunks(j.l.dim, j.l.bufdim) && 0 <= j.l.bufdim * b0 < j.l.dim && SumsLeaveOut(cu, j.l.Real(b0), q)
    ensures Centers(cs, j.l.dims) && !Iterates(j, Launched(j.l, j.k, ll, mu, cu, cen), Assign(j.Points(), cs, j.l.dims))
  {
    hide IterationResult, FireEach, IsPartition, NumChunks, Memory, Accumulated, KeepsLengths, Occurs, Holds, HasLive,
         LabelingOf, MassUpdateOf, CentroidUpdateOf, MassReady, SumsReady, IsMassUpdate, MassTakesAll, Assign, Before,
         SumAt;
    ShapeOfHolds(cen, cs, j.k, j.l.dims);
    var rs, lab := Launched(j.l, j.k, ll, mu, cu, cen), Assign(j.Points(), cs, j.l.dims);
    if Iterates(j, rs, lab) {
      var s1 := AfterLabeling(j, ll, mu, cu, cen, cs);
      hide Iterates;
      var n := NumChunks(j.l.dim, j.l.bufdim);
      LabelsOfAssign(j, cs);
      AllBuffers(j, LabelWords(lab), lab);
      MassUpdateMeets(mu, j.k, j.l);
      MassesOfAll(j, rs[1], lab, n, s1, 0);
      var s2 := FireEach(rs[1], n, s1, j.Sizes(), j.Steps());
      Distribute(j.l.bufdim, b0, 1);
      var c := LabelOf(j, cs, j.l.bufdim * b0 + q);
      Monotone(1, j.l.dims, j.k);
      AccumulatedSum(j, s2.acc, lab, |lab|, 0, c);
      NothingSummed(j, lab, c);
      SumsFallShortOfAll(j, rs[2], cu, lab, n, s2, b0, q, c);
      AccumulatedSum(j, FireEach(rs[2], n, s2, j.Sizes(), j.Steps()).acc, lab, |lab|, |lab|, c);
      assert false;
    }
  }

  /** A point that some launch leaves out. */
  lemma SomeLeftOut(s: Launch, n: nat) returns (q: nat)
    requires s.Valid(n) && !s.Complete(n)
    ensures q < n && Owner(s, n)(q) < 0
  {
    q :| q < n && OwnerOf(s.groups, s.local, s.local_stride, s.v, n, q) < 0;
  }

  /** With launches that are defined on all buffers, the three stages are an iteration for every job if and only if
      every launch takes all points of the full buffers, if there are any, and of the last one. */
  lemma IteratesIff(l: Layout, k: nat, ll: Launch, mu: MassUpdate, cu: CentroidUpdate)
    requires l.Valid() && k > 0 && KernelFits(l.dims) && AllReadyOn(l, k, ll, mu, cu)
    ensures IteratesAlways(l, k, ll, mu, cu) <==> AllTakenOn(l, k, ll, mu, cu)
  {
    hide Iterates, MassReady, SumsReady, Occurs, Holds, HasLive, Assign, Launched, IsPartition;
    if AllTakenOn(l, k, ll, mu, cu) {
      forall j: Job, cen: seq<Num>, cs: seq<Center> |
          j.Valid() && j.l == l && j.k == k && |cs| == k && Centers(cs, l.dims) && Holds(cen, cs, k, l.dims)
            && HasLive(cs)
        ensures Iterates(j, Launched(l, k, ll, mu, cu, cen), Assign(j.Points(), cs, l.dims))
      {
        LaunchedIterate(j, ll, mu, cu, cen, cs);
      }
    } else {
      OnesJobIsValid(l, k);
      OriginsAreHeld(k, l.dims);
      WrongForOnes(l, k, ll, mu, cu);
      var j, cen, cs := OnesJob(l, k), ZeroMatrix(k, l.dims), Origins(k, l.dims);
      assert !Iterates(j, Launched(l, k, ll, mu, cu, cen), Assign(j.Points(), cs, l.dims));
    }
  }

  lemma LaunchedIterate(j: Job, ll: Launch, mu: MassUpdate, cu: CentroidUpdate, cen: seq<Num>, cs: seq<Center>)
    requires j.Valid() && KernelFits(j.l.dims) && |cs| == j.k && Centers(cs, j.l.dims) && Holds(cen, cs, j.k, j.l.dims)
    requires HasLive(cs) && AllReadyOn(j.l, j.k, ll, mu, cu) && AllTakenOn(j.l, j.k, ll, mu, cu)
    ensures Iterates(j, Launched(j.l, j.k, ll, mu, cu, cen), Assign(j.Points(), cs, j.l.dims))
  {
    hide Iterates, MassReady, SumsReady, MassTakesAll, SumsTakeAll, Occurs, Holds, HasLive, Assign, IsLabeling,
         IsMassUpdate, IsCentroidUpdate, LabelingOf, MassUpdateOf, CentroidUpdateOf;
    LabelingMeets(ll, j.k, cen, cs, j.l);
    MassUpdateMeets(mu, j.k, j.l);
    CentroidUpdateMeets(cu, j.k, j.l);
    ThreeStagesIterate(j, LabelingOf(ll, j.k, j.l.dims, cen), MassUpdateOf(mu, j.k),
                       CentroidUpdateOf(cu, j.l.dims, j.k), cs);
  }

  lemma WrongForOnes(l: Layout, k: nat, ll: Launch, mu: MassUpdate, cu: CentroidUpdate)
    requires l.Valid() && k > 0 && KernelFits(l.dims) && AllReadyOn(l, k, ll, mu, cu) && !AllTakenOn(l, k, ll, mu, cu)
    ensures OnesJob(l, k).Valid()
    ensures !Iterates(OnesJob(l, k), Launched(l, k, ll, mu, cu, ZeroMatrix(k, l.dims)),
                      Assign(OnesJob(l, k).Points(), Origins(k, l.dims), l.dims))
  {
    hide Iterates, MassReady, SumsReady, Occurs, Holds, HasLive, Assign, Launched, IsPartition,
         ReduceVectorParcol.Reduces, Barriers.InStep;
    OnesJobIsValid(l, k);
    OriginsAreHeld(k, l.dims);
    var j, cen, cs := OnesJob(l, k), ZeroMatrix(k, l.dims), Origins(k, l.dims);
    if n: nat :| Occurs(l, n) && !ll.Complete(n) {
      var b := BufferOfLength(l, n);
      var q := SomeLeftOut(ll, n);
      LeftOutOfLabels(j, ll, mu, cu, cen, Assign(j.Points(), cs, l.dims), b, q);
    } else if n: nat :| Occurs(l, n) && !MassTakesAll(mu, n, k) {
      var b := BufferOfLength(l, n);
      var q := LeftOutOfCount(mu, n, k);
      LeftOutOfMasses(j, ll, mu, cu, cen, cs, b, q);
    } else {
      var n: nat :| Occurs(l, n) && !SumsTakeAll(cu, n, l.dims, k);
      var b := BufferOfLength(l, n);
      var q := LeftOutOfSum(cu, n, l.dims, k);
      LeftOutOfSums(j, ll, mu, cu, cen, cs, b, q);
    }
  }

  lemma LeftOutOfCount(m: MassUpdate, n: nat, k: nat) returns (q: nat)
    requires MassReady(m, n, k) && !MassTakesAll(m, n, k)
    ensures LeavesOut(m, n, q)
  {
    q := SomeLeftOut(m.launch, n);
  }

  lemma LeftOutOfSum(u: CentroidUpdate, n: nat, p: nat, k: nat) returns (q: nat)
    requires SumsReady(u, n, p, k) && !SumsTakeAll(u, n, p, k)
    ensures SumsLeaveOut(u, n, q)
  {
    q := SomeLeftOut(u.launch, n);
  }

  // ---------- the fused pipeline ----------

  ghost function LaunchedFused(l: Layout, k: nat, u: FusedUpdate, cen: seq<Num>): seq<Runnable> {
    SingleStage(l.BufferSize(), l.bufdim, FusedOf(u, k, l.dims, cen))
  }

  ghost predicate FusedIteratesAlways(l: Layout, k: nat, u: FusedUpdate) {
    forall j: Job, cen: seq<Num>, cs: seq<Center> ::
      j.Valid() && j.l == l && j.k == k && |cs| == k && Centers(cs, l.dims) && Holds(cen, cs, k, l.dims)
        && HasLive(cs) ==>
        Iterates(j, LaunchedFused(l, k, u, cen), Assign(j.Points(), cs, l.dims))
  }

  /** Whoever the fused launch leaves out keeps a wrong label. */
  lemma LeftOutOfFused(j: Job, u: FusedUpdate, cen: seq<Num>, lab: seq<int>, b0: nat, q: nat)
    requires j.Valid() && |lab| == j.l.dim && b0 < NumChunks(j.l.dim, j.l.bufdim) && 0 <= j.l.bufdim * b0 < j.l.dim
    requires q < j.l.Real(b0) && u.Shape().Valid(j.l.Real(b0)) && Owner(u.Shape(), j.l.Real(b0))(q) < 0
    ensures !Iterates(j, LaunchedFused(j.l, j.k, u, cen), lab)
  {
    hide Iterates, FireEach, KeepsLabel, LeavesLabel, IsPartition, NumChunks, Memory, Accumulated, Ready,
         Owner, Stage, LabeledBy, FusedAdditions;
    var rs := LaunchedFused(j.l, j.k, u, cen);
    if Iterates(j, rs, lab) {
      var wrong, g := LabelWords(seq(|lab|, i requires 0 <= i < |lab| => lab[i] + 1)), j.l.bufdim * b0 + q;
      Product(j.k, j.l.dims);
      var acc := Zeros(j.k + j.k * j.l.dims);
      NothingAccumulated(j, acc, lab);
      ResultOfIterates(j, rs, lab, wrong, acc);
      Distribute(j.l.bufdim, b0, 1);
      JobShapes(j, wrong);
      var n, s := NumChunks(j.l.dim, j.l.bufdim), Plain(Memory(j, wrong), acc);
      assert RunnableMajor(rs, n, s, j.Sizes(), j.Steps(), 0) == s;
      Untouched(j, s, wrong, g);
      var f: Effect := (x: seq<real>, was: seq<Word>) =>
        (LabeledBy(u.Shape(), j.k, j.l.dims, cen, x, was), FusedAdditions(u, j.k, j.l.dims, cen, x, |was|));
      LeftOutLeavesLabel(j, u.Shape(), cen, f, b0, q);
      LabelStays(j, rs[0], f, n, s, wrong[g], g);
      StillWrong(j, FireEach(rs[0], n, s, j.Sizes(), j.Steps()), lab, wrong[g], g);
    }
  }

  /** The same for the fused stage, with any of its kernels. */
  lemma FusedIteratesIff(l: Layout, k: nat, u: FusedUpdate)
    requires l.Valid() && k > 0 && forall n: nat :: Occurs(l, n) ==> FusedReady(u, n, l.dims, k)
    ensures FusedIteratesAlways(l, k, u)
            <==> forall n: nat :: Occurs(l, n) ==> u.Shape().Valid(n) && u.Shape().Complete(n)
  {
    hide Iterates, Occurs, Holds, HasLive, Assign, IsPartition, IsFused, FusedOf, FusedReady;
    forall n: nat | Occurs(l, n)
      ensures u.Shape().Valid(n)
    {
      ReadyShape(u, n, l.dims, k);
    }
    if n: nat :| Occurs(l, n) && !u.Shape().Complete(n) {
      OnesJobIsValid(l, k);
      OriginsAreHeld(k, l.dims);
      var j, cen, cs := OnesJob(l, k), ZeroMatrix(k, l.dims), Origins(k, l.dims);
      var b := BufferOfLength(l, n);
      var q := SomeLeftOut(u.Shape(), n);
      LeftOutOfFused(j, u, cen, Assign(j.Points(), cs, l.dims), b, q);
    } else {
      forall j: Job, cen: seq<Num>, cs: seq<Center> |
          j.Valid() && j.l == l && j.k == k && |cs| == k && Centers(cs, l.dims) && Holds(cen, cs, k, l.dims)
            && HasLive(cs)
        ensures Iterates(j, LaunchedFused(l, k, u, cen), Assign(j.Points(), cs, l.dims))
      {
        FusedMeets(u, k, cen, cs, l);
        SingleStageIterates(j, FusedOf(u, k, l.dims, cen), cs);
      }
    }
  }

  /** Vectors of two: buffers of four points are taken, and the last one of a single point is left out. */
  lemma LastBufferMayBeLeft(p: nat)
    requires p > 0
    ensures var l, s := Layout(p, 5, 4), Launch(1, 1, false, 2);
            l.Valid() && Occurs(l, 4) && s.Valid(4) && s.Complete(4) && Occurs(l, 1) && s.Valid(1) && !s.Complete(1)
  {
    GlobalCoversIff(1, 1, 2, 4);
    GlobalCoversIff(1, 1, 2, 1);
  }
}
