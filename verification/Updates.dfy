/** The kernels that a mass update and a centroid update can be made of, and what all of them have in common. */
module Updates {
  import opened Clustering
  import opened Indices
  import opened Stages
  import opened GroupHistograms
  import opened Barriers
  import opened ReduceVectorParcol

  /** The mass update by any of its kernels: bins for every work-item, or for every work-group. */
  datatype MassUpdate = PartPrivate(launch: Launch) | PartGroup(launch: Launch, in_local_memory: bool)

  /** The centroid update by any of its kernels. */
  datatype CentroidUpdate =
    | ClusterMerge(launch: Launch)
    | FeatureSum(global_size: nat)
    | ParDim(launch: Launch, num_col_tiles: nat, width: nat)

  /** The launch is defined for n points, and its tiles can be reduced. */
  ghost predicate MassReady(m: MassUpdate, n: nat, k: nat) {
    k > 0 &&
    match m
    case PartPrivate(s) => s.Valid(n) && Reduces(k, s.Size())
    case PartGroup(s, _) => OneByOne(s) && Reduces(k, s.groups)
  }

  /** The launch is defined for n points, barriers are met, and its tiles can be reduced. */
  ghost predicate SumsReady(u: CentroidUpdate, n: nat, p: nat, k: nat) {
    p > 0 && k > 0 && k * p > 0 &&
    match u
    case ClusterMerge(s) => s.Valid(n) && Reduces(k * p, s.Size())
    case FeatureSum(global_size) => p <= global_size && SumsRight(global_size, p, k)
    case ParDim(s, num_col_tiles, width) =>
      && s.Valid(n) && Reduces(k * p, s.Size())
      && p == num_col_tiles * width && InStep(s.groups, s.local, s.local_stride, s.v, n)
  }

  /** All points are counted. */
  ghost predicate MassTakesAll(m: MassUpdate, n: nat, k: nat)
    requires MassReady(m, n, k)
  {
    match m
    case PartPrivate(s) => s.Complete(n)
    case PartGroup(_, _) => true
  }

  /** All points are added up. */
  ghost predicate SumsTakeAll(u: CentroidUpdate, n: nat, p: nat, k: nat)
    requires SumsReady(u, n, p, k)
  {
    match u
    case ClusterMerge(s) => s.Complete(n)
    case FeatureSum(_) => true
    case ParDim(s, _, _) => s.Complete(n)
  }

  /** The points of every cluster, as far as the kernel takes them. */
  ghost function MassesBy(m: MassUpdate, lab: seq<int>, k: nat): int -> real
    requires MassReady(m, |lab|, k)
  {
    match m
    case PartPrivate(s) => TakenMasses(s, lab)
    case PartGroup(_, _) => Counts(lab)
  }

  /** Their feature sums. */
  ghost function SumsBy(u: CentroidUpdate, x: seq<real>, lab: seq<int>, p: nat, k: nat): int -> real
    requires SumsReady(u, |lab|, p, k)
  {
    match u
    case ClusterMerge(s) => TakenSums(s, x, lab, k)
    case FeatureSum(_) => Totals(x, |lab|, p, lab, k)
    case ParDim(s, _, _) => TakenSums(s, x, lab, k)
  }

  lemma AllMassesTaken(m: MassUpdate, n: nat, k: nat, lab: seq<int>)
    requires |lab| == n && MassReady(m, n, k) && MassTakesAll(m, n, k)
    ensures forall c: nat :: MassesBy(m, lab, k)(c) == Counts(lab)(c)
  {
    hide Reduces, TakenMasses, Counts;
    if m.PartPrivate? {
      CompleteTakesAll(m.launch, lab, [], lab, k, 0);
    }
  }

  lemma AllSumsTaken(u: CentroidUpdate, x: seq<real>, n: nat, p: nat, k: nat, lab: seq<int>)
    requires |lab| == n && SumsReady(u, n, p, k) && SumsTakeAll(u, n, p, k)
    ensures forall t: nat :: t < k * p ==> SumsBy(u, x, lab, p, k)(t) == Totals(x, n, p, lab, k)(t)
  {
    hide Reduces, TakenSums, Totals;
    if !u.FeatureSum? {
      CompleteTakesAll(u.launch, lab, x, lab, k, p);
    }
  }

  lemma PositiveSizes(u: CentroidUpdate, n: nat, p: nat, k: nat)
    requires SumsReady(u, n, p, k)
    ensures p > 0 && k > 0 && k * p > 0
  {
  }

  lemma CellsOfLaunch(s: Launch, n: nat, rows: nat)
    requires s.Valid(n) && rows > 0
    ensures 0 < s.Size() && 0 < rows * s.Size()
  {
    Monotone(1, s.local, s.groups);
    Monotone(1, s.Size(), rows);
  }

  /** Counts the points by the chosen kernel. */
  method UpdateMassesBy(masses: array<real>, n: nat, k: nat, labels: seq<int>, m: MassUpdate)
    requires MassReady(m, n, k) && |labels| == n && Labels(labels, k) && masses.Length == k
    modifies masses
    ensures forall c :: 0 <= c < k ==> masses[c] == old(masses[c]) + MassesBy(m, labels, k)(c)
  {
    hide Reduces, RunsThrough, TakenMasses, Labels, Count;
    match m {
      case PartPrivate(s) =>
        CellsOfLaunch(s, n, k);
        var tmp := new real[k * s.Size()](i => 0.0);
        var completed := UpdateMasses(masses, tmp, n, k, labels, s);
      case PartGroup(s, in_local_memory) =>
        Monotone(1, s.groups, k);
        var tmp := new real[k * s.groups](i => 0.0);
        var completed := UpdateMassesByGroup(masses, tmp, n, k, labels, s, in_local_memory);
    }
  }

  /** Adds up the features by the chosen kernel. */
  method UpdateSumsBy(sums: array<real>, points: seq<real>, n: nat, p: nat, k: nat, labels: seq<int>, u: CentroidUpdate)
    requires SumsReady(u, n, p, k) && |points| == n * p && |labels| == n && Labels(labels, k) && sums.Length == k * p
    modifies sums
    ensures forall t :: 0 <= t < k * p ==> sums[t] == old(sums[t]) + SumsBy(u, points, labels, p, k)(t)
  {
    hide Reduces, RunsThrough, TakenSums, SumsRight, InStep, Labels, Total;
    match u {
      case ClusterMerge(s) =>
        CellsOfLaunch(s, n, k * p);
        var tmp := new real[(k * p) * s.Size()](i => 0.0);
        var completed := UpdateByClusterMerge(sums, tmp, points, n, p, k, labels, s);
      case FeatureSum(global_size) =>
        LaunchSizes(global_size, p, k);
        var tmp := new real[k * global_size](i => 0.0);
        var completed := UpdateByFeatureSum(sums, tmp, points, n, p, k, labels, global_size);
      case ParDim(s, num_col_tiles, width) =>
        CellsOfLaunch(s, n, k * p);
        var tmp := new real[(k * p) * s.Size()](i => 0.0);
        var completed := UpdateByParDim(sums, tmp, points, n, p, k, labels, s, num_col_tiles, width);
    }
  }
}
