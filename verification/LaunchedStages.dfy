/** The stages that the pipelines enqueue are launches of the kernels on the buffers of the job.  What they do to a
    buffer is a function of its contents, which the kernels compute; a launch that leaves out points in some buffer
    makes an iteration go wrong. */
module LaunchedStages {
  import opened Clustering
  import opened Numbers
  import opened ColumnMajor
  import opened Indices
  import opened Strides
  import opened Kernels
  import opened Stages
  import opened Updates
  import opened KernelChoice
  import opened ReduceVectorParcol
  import opened BufferCache
  import opened ChunkSchedule
  import opened PartitionMatrix
  import opened ChunkwiseLloyd
  import FusedFeatureSum
  import FusedGlobalMemory

  // ---------- contents of buffers ----------

  function Reals(w: seq<Word>): (x: seq<real>)
    ensures |x| == |w|
  {
    seq(|w|, i requires 0 <= i < |w| => if w[i].Coordinate? then w[i].r else 0.0)
  }

  function Ints(w: seq<Word>): (lab: seq<int>)
    ensures |lab| == |w|
  {
    seq(|w|, i requires 0 <= i < |w| => if w[i].Label? then w[i].l else 0)
  }

  lemma RealsOfCoordinates(x: seq<real>)
    ensures Reals(Coordinates(x)) == x
  {
  }

  lemma IntsOfLabels(lab: seq<int>)
    ensures Ints(LabelWords(lab)) == lab
  {
  }

  /** What a stage makes of points and labels: new labels, and what it adds to the accumulators. */
  type Effect = (seq<real>, seq<Word>) -> (seq<Word>, seq<real>)

  ghost function StageResult(f: Effect, contents: seq<seq<Word>>): (r: (seq<seq<Word>>, seq<real>))
    ensures |contents| == 2 ==> |r.0| == 2 && r.0[0] == contents[0] && |r.0[1]| == |contents[1]|
  {
    if |contents| == 2 && |f(Reals(contents[0]), contents[1]).0| == |contents[1]| then
      var r := f(Reals(contents[0]), contents[1]);
      ([contents[0], r.0], r.1)
    else (contents, [])
  }

  ghost function Stage(f: Effect): Kernel {
    contents => StageResult(f, contents)
  }

  lemma StageKeepsPoints(f: Effect)
    ensures KeepsPoints(Stage(f))
  {
    hide StageResult;
  }

  lemma StageOn(f: Effect, x: seq<real>, was: seq<Word>)
    requires |f(x, was).0| == |was|
    ensures Stage(f)([Coordinates(x), was]) == ([Coordinates(x), f(x, was).0], f(x, was).1)
  {
    RealsOfCoordinates(x);
  }

  // ---------- the centres that a matrix of centroids holds ----------

  ghost function CentersOf(cen: seq<Num>, k: nat, p: nat): (cs: seq<Center>)
    ensures |cs| == k && Centers(cs, p)
  {
    seq(k, j requires 0 <= j < k => CenterOf(cen, k, p, j))
  }

  /** Coordinate c of centroid j. */
  ghost function NumAt(cen: seq<Num>, k: nat, j: nat, c: int): Num {
    var t := j + k * c;
    if 0 <= t < |cen| then cen[t] else NaN
  }

  ghost function CenterOf(cen: seq<Num>, k: nat, p: nat, j: nat): (c: Center)
    ensures c.Live? ==> |c.at| == p
  {
    if forall c :: 0 <= c < p ==> NumAt(cen, k, j, c).Fin? then
      Live(seq(p, c requires 0 <= c < p => NumAt(cen, k, j, c).v))
    else Dead
  }

  lemma CentersAreHeld(cen: seq<Num>, cs: seq<Center>, k: nat, p: nat)
    requires Holds(cen, cs, k, p) && p > 0
    ensures CentersOf(cen, k, p) == cs
  {
    forall j | 0 <= j < k
      ensures CenterOf(cen, k, p, j) == cs[j]
    {
      CenterIsHeld(cen, cs, k, p, j);
    }
  }

  lemma CenterIsHeld(cen: seq<Num>, cs: seq<Center>, k: nat, p: nat, j: nat)
    requires Holds(cen, cs, k, p) && p > 0 && j < k
    ensures CenterOf(cen, k, p, j) == cs[j]
  {
    hide NumAt;
    forall c: nat | c < p
      ensures NumAt(cen, k, j, c) == Entry(cs, j, c)
    {
      NumIsHeld(cen, cs, k, p, j, c);
    }
    hide Holds;
    if cs[j].Dead? {
      assert NumAt(cen, k, j, 0) == NaN;
    } else {
      assert CenterOf(cen, k, p, j).at == cs[j].at;
    }
  }

  lemma NumIsHeld(cen: seq<Num>, cs: seq<Center>, k: nat, p: nat, j: nat, c: nat)
    requires Holds(cen, cs, k, p) && j < k && c < p
    ensures NumAt(cen, k, j, c) == Entry(cs, j, c)
  {
    CellOf(j, c, k, p);
  }

  // ---------- what launches do to a buffer ----------

  /** The labels that the chosen kernel finds. */
  ghost function KernelLabels(k: nat, p: nat, cen: seq<Num>, x: seq<real>, m: nat): (lab: seq<int>)
    requires p > 0 && KernelFeatures(p).Some?
    ensures |lab| == m
  {
    Log2Is(p);
    var d := KernelFeatures(p).value;
    Assign(Rows(x, m, d), FirstFeatures(CentersOf(cen, k, p), p, d), d)
  }

  /** Points that the launch takes are relabelled, the others are not. */
  ghost function Relabel(ll: Launch, was: seq<Word>, lab: seq<int>): (r: seq<Word>)
    requires ll.Valid(|lab|) && |was| == |lab|
    ensures |r| == |lab|
  {
    seq(|lab|, q requires 0 <= q < |lab| => if Owner(ll, |lab|)(q) >= 0 then Label(lab[q]) else was[q])
  }

  ghost function LabeledBy(ll: Launch, k: nat, p: nat, cen: seq<Num>, x: seq<real>, was: seq<Word>): (r: seq<Word>)
    ensures |r| == |was|
  {
    if p > 0 && KernelFeatures(p).Some? && ll.Valid(|was|) then Relabel(ll, was, KernelLabels(k, p, cen, x, |was|))
    else was
  }

  ghost function Additions(n: nat, value: int -> real): (r: seq<real>)
    ensures |r| == n && forall i :: 0 <= i < n ==> r[i] == value(i)
  {
    seq(n, i => value(i))
  }

  ghost function MassAdditions(m: MassUpdate, k: nat, lab: seq<int>): (r: seq<real>) {
    if MassReady(m, |lab|, k) then Additions(k, MassesBy(m, lab, k)) else []
  }

  ghost function SumAdditions(u: CentroidUpdate, p: nat, k: nat, x: seq<real>, lab: seq<int>): (r: seq<real>) {
    if SumsReady(u, |lab|, p, k) then Additions(k * p, SumsBy(u, x, lab, p, k)) else []
  }

  /** The labelling stage. */
  ghost function LabelingOf(ll: Launch, k: nat, p: nat, cen: seq<Num>): Kernel {
    Stage((x, was) => (LabeledBy(ll, k, p, cen, x, was), []))
  }

  /** The mass stage. */
  ghost function MassUpdateOf(m: MassUpdate, k: nat): Kernel {
    contents => (contents, if |contents| == 1 then MassAdditions(m, k, Ints(contents[0])) else [])
  }

  /** The centroid stage. */
  ghost function CentroidUpdateOf(u: CentroidUpdate, p: nat, k: nat): Kernel {
    Stage((x, was) => (was, Zeros(k) + SumAdditions(u, p, k, x, Ints(was))))
  }

  /** The fused update by any of its kernels: tiles for every work-item, or for every block of threads, in local memory
      or without it. */
  datatype FusedUpdate =
    | FusedMerge(launch: Launch)
    | FusedSum(groups: nat, local: nat, v: nat)
    | FusedGlobal(groups: nat, local: nat, local_stride: bool)
  {
    /** Which of its points it takes. */
    function Shape(): Launch {
      match this
      case FusedMerge(launch) => launch
      case FusedSum(groups, local, v) => Launch(groups, local, false, v)
      case FusedGlobal(groups, local, local_stride) => Launch(groups, local, local_stride, 1)
    }
  }

  /** The launch is defined for n points, its kernel reads all features, its buffers have the right sizes, and its tiles
      can be reduced. */
  ghost predicate FusedReady(u: FusedUpdate, n: nat, p: nat, k: nat) {
    KernelFits(p) && k > 0 && k * p > 0 && u.Shape().Valid(n) &&
    match u
    case FusedMerge(s) => Reduces(k, s.Size()) && Reduces(k * p, s.Size())
    case FusedSum(groups, local, v) =>
      && (local % p == 0 || p % local == 0)
      && var s := FusedFeatureSum.HostShape(groups, local, v, p, k); s.Valid() && FusedFeatureSum.TilesReduce(s)
    case FusedGlobal(groups, local, local_stride) =>
      && (local % p == 0 || p % local == 0) && (local_stride ==> FusedGlobalMemory.RoundsFit(groups, local, n))
      && var s := FusedFeatureSum.HostShape(groups, local, 1, p, k); s.Valid() && FusedFeatureSum.TilesReduce(s)
  }

  lemma ReadyShape(u: FusedUpdate, n: nat, p: nat, k: nat)
    requires FusedReady(u, n, p, k)
    ensures KernelFits(p) && k > 0 && k * p > 0 && u.Shape().Valid(n)
  {
  }

  /** The fused stage counts and adds up the points that it labels. */
  ghost function FusedAdditions(u: FusedUpdate, k: nat, p: nat, cen: seq<Num>, x: seq<real>, m: nat): (r: seq<real>) {
    if FusedReady(u, m, p, k) then
      var lab := KernelLabels(k, p, cen, x, m);
      Additions(k, TakenMasses(u.Shape(), lab)) + Additions(k * p, TakenSums(u.Shape(), x, lab, k))
    else []
  }

  ghost function FusedOf(u: FusedUpdate, k: nat, p: nat, cen: seq<Num>): Kernel {
    Stage((x, was) => (LabeledBy(u.Shape(), k, p, cen, x, was), FusedAdditions(u, k, p, cen, x, |was|)))
  }

  // ---------- the kernels compute these functions ----------

  lemma WordsRelabelled(ll: Launch, was: seq<int>, lab: seq<int>)
    requires ll.Valid(|lab|) && |was| == |lab|
    ensures Relabel(ll, LabelWords(was), lab) == LabelWords(RelabelledBy(ll, was, lab))
  {
    hide Owner;
  }

  lemma LabelsOfKernel(k: nat, p: nat, cen: seq<Num>, cs: seq<Center>, x: seq<real>, m: nat)
    requires p > 0 && KernelFeatures(p).Some? && Holds(cen, cs, k, p)
    ensures Centers(cs, p) && KernelFeatures(p).value <= p
    ensures var d := KernelFeatures(p).value;
            KernelLabels(k, p, cen, x, m) == Assign(Rows(x, m, d), FirstFeatures(cs, p, d), d)
  {
    hide Assign, FirstFeatures, Holds;
    ShapeOfHolds(cen, cs, k, p);
    CentersAreHeld(cen, cs, k, p);
    Log2Is(p);
  }

  /** The labelling of a buffer. */
  method LabelChunk(labels: array<int>, x: seq<real>, n: nat, p: nat, cen: array<Num>, k: nat, ll: Launch,
                    kernels: seq<nat>, ghost cs: seq<Center>)
    requires ll.Valid(n) && Prepared(kernels) && labels.Length == n
    requires |x| == n * p && p > 0 && HasLive(cs) && Holds(cen[..], cs, k, p)
    modifies labels
    ensures LabelingOf(ll, k, p, old(cen[..]))([Coordinates(x), LabelWords(old(labels[..]))])
            == ([Coordinates(x), LabelWords(labels[..])], [])
  {
    hide HasLive, Holds, RelabelledBy, Relabel, Assign, KernelLabels, FirstFeatures, Coordinates, LabelWords;
    ghost var was, first := labels[..], cen[..];
    ghost var f: Effect := (x: seq<real>, was: seq<Word>) => (LabeledBy(ll, k, p, first, x, was), []);
    var launched := LabelingUnrollVector(labels, x, n, p, cen, k, ll, kernels, cs);
    StageOn(f, x, LabelWords(was));
    if launched {
      LabelsOfKernel(k, p, first, cs, x, n);
      WordsRelabelled(ll, was, KernelLabels(k, p, first, x, n));
    }
    assert LabeledBy(ll, k, p, first, x, LabelWords(was)) == LabelWords(labels[..]);
  }

  /** The counting of a buffer. */
  method CountChunk(masses: array<real>, n: nat, k: nat, labels: seq<int>, m: MassUpdate)
    requires MassReady(m, n, k) && |labels| == n && Labels(labels, k) && masses.Length == k
    modifies masses
    ensures MassUpdateOf(m, k)([LabelWords(labels)]).0 == [LabelWords(labels)]
    ensures masses[..] == Plus(old(masses[..]), MassUpdateOf(m, k)([LabelWords(labels)]).1)
  {
    hide MassReady, Labels, MassesBy;
    UpdateMassesBy(masses, n, k, labels, m);
    IntsOfLabels(labels);
  }

  /** The adding up of a buffer, into the accumulators behind the masses. */
  method SumChunk(acc: array<real>, x: seq<real>, n: nat, p: nat, k: nat, labels: seq<int>, u: CentroidUpdate)
    requires SumsReady(u, n, p, k) && |x| == n * p && |labels| == n && Labels(labels, k)
    requires k * p >= 0 && acc.Length == k + k * p
    modifies acc
    ensures var r := CentroidUpdateOf(u, p, k)([Coordinates(x), LabelWords(labels)]);
            && r.0 == [Coordinates(x), LabelWords(labels)] && acc[..] == Plus(old(acc[..]), r.1)
  {
    hide SumsReady, Labels, SumsBy, Coordinates, LabelWords;
    PositiveSizes(u, n, p, k);
    var sums := new real[k * p](i => 0.0);
    UpdateSumsBy(sums, x, n, p, k, labels, u);
    forall t | 0 <= t < k * p {
      acc[k + t] := acc[k + t] + sums[t];
    }
    ghost var f: Effect := (x: seq<real>, was: seq<Word>) => (was, Zeros(k) + SumAdditions(u, p, k, x, Ints(was)));
    StageOn(f, x, LabelWords(labels));
    IntsOfLabels(labels);
    ghost var more := Zeros(k) + SumAdditions(u, p, k, x, labels);
    forall i | 0 <= i < k + k * p
      ensures acc[i] == old(acc[i]) + more[i]
    {
    }
  }

  /** Masses and feature sums of the fused cluster merge kernel. */
  method MergeSums(labels: array<int>, masses: array<real>, sums: array<real>, x: seq<real>, n: nat, p: nat,
                   cen: array<Num>, k: nat, s: Launch, ghost cs: seq<Center>)
    requires FusedReady(FusedMerge(s), n, p, k) && masses != sums && masses.Length == k && sums.Length == k * p
    requires |x| == n * p && Holds(cen[..], cs, k, p) && HasLive(cs) && labels.Length == n
    modifies labels, masses, sums
    ensures |cs| == k && Centers(cs, p)
    ensures var lab := Assign(Rows(x, n, p), cs, p);
            && labels[..] == RelabelledBy(s, old(labels[..]), lab)
            && (forall c :: 0 <= c < k ==> masses[c] == old(masses[c]) + TakenMasses(s, lab)(c))
            && (forall t :: 0 <= t < k * p ==> sums[t] == old(sums[t]) + TakenSums(s, x, lab, k)(t))
  {
    hide HasLive, Holds, RelabelledBy, Assign, Reduces, RunsThrough, TakenMasses, TakenSums;
    CellsOfLaunch(s, n, k);
    CellsOfLaunch(s, n, k * p);
    var tmp_masses, tmp := new real[k * s.Size()](i => 0.0), new real[(k * p) * s.Size()](i => 0.0);
    var completed := UpdateFused(labels, masses, tmp_masses, sums, tmp, x, n, p, cen, k, s, cs);
  }

  /** The same for the fused feature-sum kernel, in buffers of the sizes that the host chooses. */
  method BlockSums(labels: array<int>, masses: array<real>, sums: array<real>, x: seq<real>, n: nat, p: nat,
                   cen: array<Num>, k: nat, groups: nat, local: nat, v: nat, ghost cs: seq<Center>)
    requires FusedReady(FusedSum(groups, local, v), n, p, k)
    requires masses != sums && masses.Length == k && sums.Length == k * p
    requires |x| == n * p && Holds(cen[..], cs, k, p) && HasLive(cs) && labels.Length == n
    modifies labels, masses, sums
    ensures |cs| == k && Centers(cs, p)
    ensures var s, lab := Launch(groups, local, false, v), Assign(Rows(x, n, p), cs, p);
            && labels[..] == RelabelledBy(s, old(labels[..]), lab)
            && (forall c :: 0 <= c < k ==> masses[c] == old(masses[c]) + TakenMasses(s, lab)(c))
            && (forall t :: 0 <= t < k * p ==> sums[t] == old(sums[t]) + TakenSums(s, x, lab, k)(t))
  {
    hide HasLive, Holds, RelabelledBy, Assign, Reduces, RunsThrough, TakenMasses, TakenSums,
         FusedFeatureSum.TilesReduce, FusedFeatureSum.TilesRunThrough;
    var thread_features := FusedFeatureSum.ThreadFeatures(local, p);
    var size := groups * local * k;
    Product(groups * local, k);
    Product(size, thread_features);
    var new_masses, new_centroids := new real[size](i => 0.0), new real[size * thread_features](i => 0.0);
    var completed := FusedFeatureSum.UpdateFusedFeatureSum(groups, local, v, x, n, p, k, cen, labels, masses,
                                                           new_masses,
                                                           sums, new_centroids, cs);
  }

  /** And for that kernel without local memory. */
  method GlobalSums(labels: array<int>, masses: array<real>, sums: array<real>, x: seq<real>, n: nat, p: nat,
                    cen: array<Num>, k: nat, groups: nat, local: nat, local_stride: bool, ghost cs: seq<Center>)
    requires FusedReady(FusedGlobal(groups, local, local_stride), n, p, k)
    requires masses != sums && masses.Length == k && sums.Length == k * p
    requires |x| == n * p && Holds(cen[..], cs, k, p) && HasLive(cs) && labels.Length == n
    modifies labels, masses, sums
    ensures |cs| == k && Centers(cs, p)
    ensures var s, lab := Launch(groups, local, local_stride, 1), Assign(Rows(x, n, p), cs, p);
            && labels[..] == RelabelledBy(s, old(labels[..]), lab)
            && (forall c :: 0 <= c < k ==> masses[c] == old(masses[c]) + TakenMasses(s, lab)(c))
            && (forall t :: 0 <= t < k * p ==> sums[t] == old(sums[t]) + TakenSums(s, x, lab, k)(t))
  {
    hide HasLive, Holds, Assign, Reduces, RunsThrough, TakenMasses, TakenSums, FusedFeatureSum.TilesReduce,
         FusedFeatureSum.TilesRunThrough, FusedGlobalMemory.RoundsFit;
    ghost var was := labels[..];
    var thread_features := FusedFeatureSum.ThreadFeatures(local, p);
    var size := groups * local * k;
    Product(groups * local, k);
    Product(size, thread_features);
    var new_masses, new_centroids := new real[size](i => 0.0), new real[size * thread_features](i => 0.0);
    var completed :=
      FusedGlobalMemory.UpdateFusedGlobal(groups, local, local_stride, x, n, p, k, cen, labels, masses, new_masses,
                                          sums, new_centroids, cs);
    CompleteRelabels(Launch(groups, local, local_stride, 1), was, labels[..]);
  }

  lemma CompleteRelabels(s: Launch, was: seq<int>, lab: seq<int>)
    requires s.Valid(|lab|) && s.Complete(|lab|) && |was| == |lab|
    ensures RelabelledBy(s, was, lab) == lab
  {
    hide Owner;
    EveryPointOwned(s, |lab|);
  }

  /** Masses and feature sums of the fused kernels. */
  method FusedSums(labels: array<int>, x: seq<real>, n: nat, p: nat, cen: array<Num>, k: nat, u: FusedUpdate,
                   ghost cs: seq<Center>)
    returns (masses: array<real>, sums: array<real>)
    requires FusedReady(u, n, p, k)
    requires |x| == n * p && Holds(cen[..], cs, k, p) && HasLive(cs) && labels.Length == n
    modifies labels
    ensures fresh(masses) && fresh(sums) && masses.Length == k && 0 < k * p == sums.Length
    ensures var s, lab := u.Shape(), KernelLabels(k, p, old(cen[..]), x, n);
            && labels[..] == RelabelledBy(s, old(labels[..]), lab)
            && (forall c :: 0 <= c < k ==> masses[c] == TakenMasses(s, lab)(c))
            && (forall t :: 0 <= t < k * p ==> sums[t] == TakenSums(s, x, lab, k)(t))
  {
    hide HasLive, Holds, RelabelledBy, Assign, KernelLabels, FirstFeatures, Reduces, RunsThrough, TakenMasses,
         TakenSums, FusedReady;
    ghost var first := cen[..];
    ReadyShape(u, n, p, k);
    masses, sums := new real[k](i => 0.0), new real[k * p](i => 0.0);
    match u {
      case FusedMerge(s) => MergeSums(labels, masses, sums, x, n, p, cen, k, s, cs);
      case FusedSum(groups, local, v) =>
        BlockSums(labels, masses, sums, x, n, p, cen, k, groups, local, v, cs);
      case FusedGlobal(groups, local, local_stride) =>
        GlobalSums(labels, masses, sums, x, n, p, cen, k, groups, local, local_stride, cs);
    }
    LabelsOfKernel(k, p, first, cs, x, n);
    AllFeatures(cs, p);
  }

  lemma FusedEffect(u: FusedUpdate, k: nat, p: nat, cen: seq<Num>, x: seq<real>, was: seq<int>)
    requires FusedReady(u, |was|, p, k)
    ensures KernelFits(p) && k * p > 0 && u.Shape().Valid(|was|)
    ensures var s, lab := u.Shape(), KernelLabels(k, p, cen, x, |was|);
            FusedOf(u, k, p, cen)([Coordinates(x), LabelWords(was)])
            == ([Coordinates(x), LabelWords(RelabelledBy(s, was, lab))],
                Additions(k, TakenMasses(s, lab)) + Additions(k * p, TakenSums(s, x, lab, k)))
  {
    hide Relabel, RelabelledBy, KernelLabels, Coordinates, LabelWords, Reduces, TakenMasses, TakenSums, FusedReady;
    ReadyShape(u, |was|, p, k);
    var f: Effect := (x: seq<real>, was: seq<Word>) =>
      (LabeledBy(u.Shape(), k, p, cen, x, was), FusedAdditions(u, k, p, cen, x, |was|));
    StageOn(f, x, LabelWords(was));
    WordsRelabelled(u.Shape(), was, KernelLabels(k, p, cen, x, |was|));
  }

  /** The fused stage on a buffer, by any of the kernels. */
  method FusedChunk(labels: array<int>, acc: array<real>, x: seq<real>, n: nat, p: nat, cen: array<Num>, k: nat,
                    u: FusedUpdate, ghost cs: seq<Center>)
    requires FusedReady(u, n, p, k) && k * p >= 0
    requires |x| == n * p && Holds(cen[..], cs, k, p) && HasLive(cs) && labels.Length == n && acc.Length == k + k * p
    modifies labels, acc
    ensures var r := FusedOf(u, k, p, old(cen[..]))([Coordinates(x), LabelWords(old(labels[..]))]);
            r.0 == [Coordinates(x), LabelWords(labels[..])] && acc[..] == Plus(old(acc[..]), r.1)
  {
    hide HasLive, Holds, RelabelledBy, KernelLabels, Coordinates, LabelWords, FusedOf, FusedReady, TakenMasses,
         TakenSums;
    FusedEffect(u, k, p, cen[..], x, labels[..]);
    ghost var r := FusedOf(u, k, p, cen[..])([Coordinates(x), LabelWords(labels[..])]);
    var masses, sums := FusedSums(labels, x, n, p, cen, k, u, cs);
    ghost var now := labels[..];
    forall t | 0 <= t < k + k * p {
      acc[t] := acc[t] + if t < k then masses[t] else sums[t - k];
    }
    assert labels[..] == now;
    forall i | 0 <= i < k + k * p
      ensures acc[i] == old(acc[i]) + r.1[i]
    {
    }
  }

  // ---------- launches that take all points ----------

  /** Launches that are defined on all buffers of the job. */
  ghost predicate AllReadyOn(l: Layout, k: nat, ll: Launch, m: MassUpdate, u: CentroidUpdate)
    requires l.Valid()
  {
    forall n: nat :: Occurs(l, n) ==> ll.Valid(n) && MassReady(m, n, k) && SumsReady(u, n, l.dims, k)
  }

  /** Launches that take all points of all buffers of the job. */
  ghost predicate AllTakenOn(l: Layout, k: nat, ll: Launch, m: MassUpdate, u: CentroidUpdate)
    requires l.Valid() && AllReadyOn(l, k, ll, m, u)
  {
    forall n: nat :: Occurs(l, n) ==> ll.Complete(n) && MassTakesAll(m, n, k) && SumsTakeAll(u, n, l.dims, k)
  }

  /** Loops over the whole launch take all points of all buffers exactly if the vector length divides the full buffers,
      if there are any, and the last one. */
  lemma GlobalTakesAllIff(l: Layout, s: Launch)
    requires l.Valid() && s.groups > 0 && s.local > 0 && s.v > 0 && !s.local_stride
    ensures (forall n: nat :: Occurs(l, n) ==> s.Valid(n) && s.Complete(n))
            <==> (l.bufdim <= l.dim ==> l.bufdim % s.v == 0) && l.dim % l.bufdim % s.v == 0
  {
    DivMod(s.v, 0, 0);
    Split(l.dim, l.bufdim);
    forall n: nat | Occurs(l, n)
      ensures s.Valid(n) && s.Complete(n) <==> n % s.v == 0
    {
      GlobalTakesIff(s, n);
    }
    if l.bufdim <= l.dim {
      assert Occurs(l, l.bufdim);
    }
    if l.dim % l.bufdim > 0 {
      assert Occurs(l, l.dim % l.bufdim);
    }
  }

  lemma GlobalTakesIff(s: Launch, n: nat)
    requires s.groups > 0 && s.local > 0 && s.v > 0 && !s.local_stride && n > 0
    ensures s.Valid(n) && s.Complete(n) <==> n % s.v == 0
  {
    GlobalCoversIff(s.groups, s.local, s.v, n);
    Split(n, s.v);
    if n % s.v == 0 && n / s.v > 0 {
      Monotone(1, n / s.v, s.v);
    }
  }

  /** Loops over blocks do exactly if the vector length divides these lengths and the blocks reach the end. */
  lemma LocalTakesIff(s: Launch, n: nat)
    requires s.groups > 0 && s.local > 0 && s.v > 0 && s.local_stride && n > 0
    ensures s.Valid(n) && s.Complete(n) <==> n % s.v == 0 && BlocksCover(Item(0, 0, s.groups, s.local), s.v, n)
  {
    var it := Item(0, 0, s.groups, s.local);
    LocalCoversIff(it, s.v, n);
    if BlocksCover(it, s.v, n) && n % s.v != 0 {
      BlocksBreak(s.groups, s.local, s.v, n);
    }
  }

  /** Blocks that reach the end of broken vectors are not inside. */
  lemma BlocksBreak(groups: nat, local: nat, v: nat, n: nat)
    requires groups > 0 && local > 0 && v > 0 && n % v != 0 && BlocksCover(Item(0, 0, groups, local), v, n)
    ensures !Inside(groups, v, n)
  {
    hide BlockSize;
    var it := Item(0, 0, groups, local);
    VectorsOfIs(it, v, n);
    BlockStart(it, v, n);
    var d := VectorsOf(groups, v, n);
    Associate(groups, d, v);
    Product(groups, d);
    Split(n, v);
    if n / v >= groups * d {
      Monotone(groups * d, n / v, v);
    }
  }
}
