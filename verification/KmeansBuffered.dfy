/** The buffered pipelines: points and labels live in host memory and pass through the software cache, chunk by chunk;
    masses and centroids stay on the device.  An iteration enqueues either three stages or one fused stage. */
module KmeansBuffered {
  import opened Clustering
  import opened Numbers
  import opened ColumnMajor
  import opened Indices
  import opened BufferCache
  import opened ChunkSchedule
  import opened PartitionMatrix
  import opened ChunkwiseLloyd
  import opened RowDivision
  import opened Scheduler
  import Schedules
  import StagingBuffers
  import PipelineOrder

  /** The objects that the cache knows: points that are only read, and labels. */
  ghost function ObjectsOf(j: Job): seq<ObjectInfo> {
    [ObjectInfo(0, ReadOnly), ObjectInfo(j.l.Size(), ReadOnly), ObjectInfo(j.l.dim, ReadWrite)]
  }

  /** The enqueued functions together are one iteration with labels lab, whatever the labels were before. */
  ghost predicate Iterates(j: Job, rs: seq<Runnable>, lab: seq<int>)
    requires j.Valid() && |lab| == j.l.dim
  {
    && AllReady(rs, j.Sizes(), j.Steps())
    && SingleDeviceScheduler.AllHave(rs, j.Sizes(), j.Steps(), NumChunks(j.l.dim, j.l.bufdim)) && |rs| > 0
    && (forall q :: 0 <= q < |rs| ==>
          Ready(rs[q], j.Sizes(), j.Steps()) && SingleDeviceScheduler.RespectsModes(rs[q], ObjectsOf(j)))
    && forall labels: seq<Word>, acc: seq<real> :: |labels| == |lab| && Accumulated(j, acc, lab, 0, 0) ==>
         IterationResult(j, rs, lab, labels, acc)
  }

  ghost predicate IterationResult(j: Job, rs: seq<Runnable>, lab: seq<int>, labels: seq<Word>, acc: seq<real>)
    requires j.Valid() && |lab| == j.l.dim == |labels| && AllReady(rs, j.Sizes(), j.Steps())
  {
    JobShapes(j, labels);
    var t := RunnableMajor(rs, NumChunks(j.l.dim, j.l.bufdim), Plain(Memory(j, labels), acc), j.Sizes(), j.Steps(),
                           |rs|);
    t.mem == Memory(j, LabelWords(lab)) && Accumulated(j, t.acc, lab, |lab|, |lab|)
  }

  lemma AllBuffers(j: Job, labels: seq<Word>, lab: seq<int>)
    requires j.Valid() && |labels| == |lab| == j.l.dim
    ensures Before(j.l, NumChunks(j.l.dim, j.l.bufdim)) == j.l.dim
    ensures Relabelled(labels, lab, j.l.dim) == LabelWords(lab)
  {
    var l, n := j.l, NumChunks(j.l.dim, j.l.bufdim);
    Split(l.dim + l.bufdim - 1, l.bufdim);
    assert lab[..l.dim] == lab;
  }

  /** Three stages, as they are enqueued. */
  function ThreeStages(buffer_size: nat, labels_size: nat, labeling: Kernel, mass_update: Kernel,
                       centroid_update: Kernel)
    : seq<Runnable>
  {
    [Runnable(labeling, [Use(1, buffer_size), Use(2, labels_size)]), Runnable(mass_update, [Use(2, labels_size)]),
     Runnable(centroid_update, [Use(1, buffer_size), Use(2, labels_size)])]
  }

  // ---------- the commands of a run ----------

  function ObjectIds(uses: seq<Use>): seq<nat> {
    seq(|uses|, l requires 0 <= l < |uses| => uses[l].object_id)
  }

  /** The objects that every function works on, which the commands of a run depend on. */
  function ObjectsUsed(rs: seq<Runnable>): seq<seq<nat>> {
    seq(|rs|, r requires 0 <= r < |rs| => ObjectIds(rs[r].uses))
  }

  ghost function ModesOf(objects: seq<ObjectInfo>): seq<ObjectMode> {
    seq(|objects|, o requires 0 <= o < |objects| => objects[o].mode)
  }

  /** Both pipelines fetch the points, which are only read, before the labels, which are written back. */
  lemma PipelinesUse(j: Job, labeling: Kernel, mass_update: Kernel, centroid_update: Kernel, fused: Kernel)
    ensures var modes := ModesOf(ObjectsOf(j));
            && StagingBuffers.Pipelined(
                 ObjectsUsed(ThreeStages(j.l.BufferSize(), j.l.bufdim, labeling, mass_update, centroid_update)), modes)
            && StagingBuffers.Pipelined(ObjectsUsed(SingleStage(j.l.BufferSize(), j.l.bufdim, fused)), modes)
  {
    var three := ThreeStages(j.l.BufferSize(), j.l.bufdim, labeling, mass_update, centroid_update);
    var one := SingleStage(j.l.BufferSize(), j.l.bufdim, fused);
    assert ObjectIds(three[0].uses) == [1, 2] == ObjectIds(three[2].uses) && ObjectIds(three[1].uses) == [2];
    assert ObjectIds(one[0].uses) == [1, 2];
    assert ObjectsUsed(three) == [[1, 2], [2], [1, 2]] && ObjectsUsed(one) == [[1, 2]];
    assert ModesOf(ObjectsOf(j)) == [ReadOnly, ReadOnly, ReadWrite];
  }

  /** What the pipelines enqueue in m iterations, beginning with an empty cache. */
  ghost function SetupOf(j: Job, rs: seq<Runnable>, touches: seq<set<PipelineOrder.Buffer>>, tie: PipelineOrder.Tie)
    : PipelineOrder.Setup
    requires j.l.bufdim > 0
  {
    PipelineOrder.Setup(ObjectsUsed(rs), ModesOf(ObjectsOf(j)), touches, tie, NumChunks(j.l.dim, j.l.bufdim))
  }

  /** So everything completes in the order of the program, at every slot, chunk and buffer and in every schedule, if and
      only if the functions of a pipeline are tied to the clearings and divisions of the host. */
  lemma PipelinesInOrder(j: Job, labeling: Kernel, mass_update: Kernel, centroid_update: Kernel, fused: Kernel, m: nat,
                         tie: PipelineOrder.Tie, fused_tie: PipelineOrder.Tie)
    requires j.Valid() && j.l.dim > 0 && m > 0 && |tie.waits| == 3 && |fused_tie.waits| == 1
    ensures var su := SetupOf(j, ThreeStages(j.l.BufferSize(), j.l.bufdim, labeling, mass_update, centroid_update),
                              PipelineOrder.THREE_STAGES, tie);
            su.Valid() && ((forall p :: Schedules.AlwaysInOrder(PipelineOrder.PipelineLog(m, su, map[]).0, p))
                           <==> PipelineOrder.Tied(tie, PipelineOrder.THREE_STAGES, m))
    ensures var su := SetupOf(j, SingleStage(j.l.BufferSize(), j.l.bufdim, fused), PipelineOrder.ONE_STAGE, fused_tie);
            su.Valid() && ((forall p :: Schedules.AlwaysInOrder(PipelineOrder.PipelineLog(m, su, map[]).0, p))
                           <==> PipelineOrder.Tied(fused_tie, PipelineOrder.ONE_STAGE, m))
  {
    hide StagingBuffers.PointsSettled, Schedules.AlwaysInOrder, PipelineOrder.PipelineLog, PipelineOrder.Tied,
         NumChunks;
    PipelinesUse(j, labeling, mass_update, centroid_update, fused);
    var three := SetupOf(j, ThreeStages(j.l.BufferSize(), j.l.bufdim, labeling, mass_update, centroid_update),
                         PipelineOrder.THREE_STAGES, tie);
    var one := SetupOf(j, SingleStage(j.l.BufferSize(), j.l.bufdim, fused), PipelineOrder.ONE_STAGE, fused_tie);
    SomeChunk(j.l.dim, j.l.bufdim);
    forall turn: nat | turn < Schedules.QUEUES
      ensures StagingBuffers.PointsSettled([], map[], turn)
    {
      StagingBuffers.NextRunIsSettled(0, one.uses, one.modes, map[], turn);
    }
    PipelineOrder.InOrderIff(m, three, map[]);
    PipelineOrder.InOrderIff(m, one, map[]);
  }

  lemma SomeChunk(size: nat, step: nat)
    requires size > 0 && step > 0
    ensures NumChunks(size, step) > 0
  {
    Split(size + step - 1, step);
  }

  /** A function that the scheduler can run on the objects of the job. */
  ghost predicate Fits(j: Job, r: Runnable)
    requires j.Valid()
  {
    || (r.uses == j.PointsAndLabels() && KeepsPoints(r.kernel))
    || (r.uses == j.LabelsOnly() && forall contents: seq<seq<Word>> :: |contents| == 1 ==>
        r.kernel(contents).0 == contents)
  }

  lemma FitsUses(j: Job, r: Runnable)
    requires j.Valid() && Fits(j, r)
    ensures GoodUses(r.uses, j.Sizes(), j.Steps())
  {
    hide IsPartition;
    Monotone(1, j.l.bufdim, j.l.dims);
  }

  lemma FitsLengths(j: Job, r: Runnable)
    requires j.Valid() && Fits(j, r)
    ensures KeepsLengths(r)
  {
    hide IsPartition, KeepsPoints;
    forall contents: seq<seq<Word>> | |contents| == |r.uses|
      ensures |r.kernel(contents).0| == |contents|
      ensures forall l :: 0 <= l < |contents| ==> |r.kernel(contents).0[l]| == |contents[l]|
    {
      if r.uses == j.PointsAndLabels() {
        PointsAreKept(r.kernel, contents);
      }
    }
  }

  lemma PointsAreKept(r: Kernel, contents: seq<seq<Word>>)
    requires KeepsPoints(r) && |contents| == 2
    ensures |r(contents).0| == 2 && r(contents).0[0] == contents[0] && |r(contents).0[1]| == |contents[1]|
  {
  }

  lemma FitsModes(j: Job, r: Runnable)
    requires j.Valid() && Fits(j, r) && KeepsLengths(r)
    ensures SingleDeviceScheduler.RespectsModes(r, ObjectsOf(j))
  {
    hide IsPartition, KeepsPoints, KeepsLengths;
    forall contents: seq<seq<Word>>, l |
        |contents| == |r.uses| && 0 <= l < |contents| && ObjectsOf(j)[r.uses[l].object_id].mode == ReadOnly
      ensures |r.kernel(contents).0| == |contents| && r.kernel(contents).0[l] == contents[l]
    {
      if r.uses == j.PointsAndLabels() {
        PointsAreKept(r.kernel, contents);
      }
    }
  }

  lemma FitsChunks(j: Job, r: Runnable)
    requires j.Valid() && Fits(j, r) && Ready(r, j.Sizes(), j.Steps())
    ensures ChunksOf(r, j.Sizes(), j.Steps()) == NumChunks(j.l.dim, j.l.bufdim)
  {
    hide IsPartition, NumChunks, KeepsLengths, KeepsPoints;
    ChunksAlign(j.l, 0);
  }

  lemma FitsIsReady(j: Job, r: Runnable)
    requires j.Valid() && Fits(j, r)
    ensures Ready(r, j.Sizes(), j.Steps()) && SingleDeviceScheduler.RespectsModes(r, ObjectsOf(j))
    ensures ChunksOf(r, j.Sizes(), j.Steps()) == NumChunks(j.l.dim, j.l.bufdim)
  {
    hide Fits, IsPartition, NumChunks, KeepsLengths, SingleDeviceScheduler.RespectsModes, ChunksOf;
    FitsUses(j, r);
    FitsLengths(j, r);
    FitsModes(j, r);
    FitsChunks(j, r);
  }

  lemma StagesReady(j: Job, rs: seq<Runnable>)
    requires j.Valid() && |rs| > 0 && forall q :: 0 <= q < |rs| ==> Fits(j, rs[q])
    ensures AllReady(rs, j.Sizes(), j.Steps())
    ensures SingleDeviceScheduler.AllHave(rs, j.Sizes(), j.Steps(), NumChunks(j.l.dim, j.l.bufdim))
    ensures forall q :: 0 <= q < |rs| ==>
              Ready(rs[q], j.Sizes(), j.Steps()) && SingleDeviceScheduler.RespectsModes(rs[q], ObjectsOf(j))
  {
    hide Fits, IsPartition, NumChunks, KeepsLengths, GoodUses, SingleDeviceScheduler.RespectsModes, ChunksOf;
    forall q | 0 <= q < |rs|
      ensures Ready(rs[q], j.Sizes(), j.Steps()) && SingleDeviceScheduler.RespectsModes(rs[q], ObjectsOf(j))
      ensures ChunksOf(rs[q], j.Sizes(), j.Steps()) == NumChunks(j.l.dim, j.l.bufdim)
    {
      FitsIsReady(j, rs[q]);
    }
  }

  lemma ThreeStagesIterate(j: Job, labeling: Kernel, mass_update: Kernel, centroid_update: Kernel, cs: seq<Center>)
    requires j.Valid() && |cs| == j.k && Centers(cs, j.l.dims) && (j.l.dim > 0 ==> HasLive(cs))
    requires IsLabeling(labeling, cs, j.l) && IsMassUpdate(mass_update, j.l, j.k)
    requires IsCentroidUpdate(centroid_update, j.l, j.k)
    ensures Iterates(j, ThreeStages(j.l.BufferSize(), j.l.bufdim, labeling, mass_update, centroid_update),
                     Assign(j.Points(), cs, j.l.dims))
  {
    hide IsPartition, NumChunks, FireEach, Assign, Accumulated, HasLive, Ready, KeepsLengths,
         SingleDeviceScheduler.AllHave, SingleDeviceScheduler.RespectsModes, AllReady;
    var rs, lab := ThreeStages(j.l.BufferSize(), j.l.bufdim, labeling, mass_update, centroid_update),
        Assign(j.Points(), cs, j.l.dims);
    StagesReady(j, rs);
    hide IsLabeling, IsMassUpdate, IsCentroidUpdate;
    forall labels: seq<Word>, acc: seq<real> | |labels| == |lab| && Accumulated(j, acc, lab, 0, 0)
      ensures IterationResult(j, rs, lab, labels, acc)
    {
      ThreeStagesResult(j, labeling, mass_update, centroid_update, cs, labels, acc);
    }
  }

  lemma ThreeStagesResult(j: Job, labeling: Kernel, mass_update: Kernel, centroid_update: Kernel, cs: seq<Center>,
                          labels: seq<Word>, acc: seq<real>)
    requires j.Valid() && |cs| == j.k && Centers(cs, j.l.dims) && (j.l.dim > 0 ==> HasLive(cs)) && |labels| == j.l.dim
    requires IsLabeling(labeling, cs, j.l) && IsMassUpdate(mass_update, j.l, j.k)
    requires IsCentroidUpdate(centroid_update, j.l, j.k)
    requires AllReady(ThreeStages(j.l.BufferSize(), j.l.bufdim, labeling, mass_update, centroid_update), j.Sizes(),
                      j.Steps())
    requires Accumulated(j, acc, Assign(j.Points(), cs, j.l.dims), 0, 0)
    ensures IterationResult(j, ThreeStages(j.l.BufferSize(), j.l.bufdim, labeling, mass_update, centroid_update),
                            Assign(j.Points(), cs, j.l.dims),
                            labels, acc)
  {
    hide IsPartition, NumChunks, FireEach, Assign, Accumulated, HasLive, IsLabeling, IsMassUpdate, IsCentroidUpdate,
         Ready, Memory, Before, Relabelled;
    var rs, lab := ThreeStages(j.l.BufferSize(), j.l.bufdim, labeling, mass_update, centroid_update),
        Assign(j.Points(), cs, j.l.dims);
    var n, s := NumChunks(j.l.dim, j.l.bufdim), Plain(Memory(j, labels), acc);
    JobShapes(j, labels);
    JobShapes(j, LabelWords(lab));
    AllBuffers(j, labels, lab);
    LabelingOfAll(j, rs[0], cs, n, s, labels);
    var s1 := FireEach(rs[0], n, s, j.Sizes(), j.Steps());
    MassesOfAll(j, rs[1], lab, n, s1, 0);
    var s2 := FireEach(rs[1], n, s1, j.Sizes(), j.Steps());
    SumsOfAll(j, rs[2], lab, n, s2, |lab|);
    assert RunnableMajor(rs, n, s, j.Sizes(), j.Steps(), 1) == s1;
    assert RunnableMajor(rs, n, s, j.Sizes(), j.Steps(), 2) == s2;
  }

  /** The fused stage alone. */
  function SingleStage(buffer_size: nat, labels_size: nat, fused: Kernel): seq<Runnable> {
    [Runnable(fused, [Use(1, buffer_size), Use(2, labels_size)])]
  }

  lemma SingleStageIterates(j: Job, fused: Kernel, cs: seq<Center>)
    requires j.Valid() && |cs| == j.k && Centers(cs, j.l.dims) && (j.l.dim > 0 ==> HasLive(cs))
    requires IsFused(fused, cs, j.l, j.k)
    ensures Iterates(j, SingleStage(j.l.BufferSize(), j.l.bufdim, fused), Assign(j.Points(), cs, j.l.dims))
  {
    hide IsPartition, NumChunks, FireEach, Assign, Accumulated, HasLive, Ready, KeepsLengths,
         SingleDeviceScheduler.AllHave, SingleDeviceScheduler.RespectsModes, AllReady;
    var rs, lab := SingleStage(j.l.BufferSize(), j.l.bufdim, fused), Assign(j.Points(), cs, j.l.dims);
    StagesReady(j, rs);
    hide IsFused;
    forall labels: seq<Word>, acc: seq<real> | |labels| == |lab| && Accumulated(j, acc, lab, 0, 0)
      ensures IterationResult(j, rs, lab, labels, acc)
    {
      SingleStageResult(j, fused, cs, labels, acc);
    }
  }

  lemma SingleStageResult(j: Job, fused: Kernel, cs: seq<Center>, labels: seq<Word>, acc: seq<real>)
    requires j.Valid() && |cs| == j.k && Centers(cs, j.l.dims) && (j.l.dim > 0 ==> HasLive(cs)) && |labels| == j.l.dim
    requires IsFused(fused, cs, j.l, j.k)
             && AllReady(SingleStage(j.l.BufferSize(), j.l.bufdim, fused), j.Sizes(), j.Steps())
    requires Accumulated(j, acc, Assign(j.Points(), cs, j.l.dims), 0, 0)
    ensures IterationResult(j, SingleStage(j.l.BufferSize(), j.l.bufdim, fused), Assign(j.Points(), cs, j.l.dims),
                            labels, acc)
  {
    hide IsPartition, NumChunks, FireEach, Assign, Accumulated, HasLive, IsFused, Ready, Memory, Before, Relabelled;
    var rs, lab := SingleStage(j.l.BufferSize(), j.l.bufdim, fused), Assign(j.Points(), cs, j.l.dims);
    var n, s := NumChunks(j.l.dim, j.l.bufdim), Plain(Memory(j, labels), acc);
    JobShapes(j, labels);
    AllBuffers(j, labels, lab);
    FusedOfAll(j, rs[0], cs, n, s, labels);
    assert RunnableMajor(rs, n, s, j.Sizes(), j.Steps(), 0) == s;
  }

  // ---------- an iteration ----------

  lemma SizesOfObjects(j: Job)
    ensures Sizes(ObjectsOf(j)) == j.Sizes()
  {
  }

  /** The scheduler and its cache are set up for the job and idle. */
  ghost predicate Idle(j: Job, scheduler: SingleDeviceScheduler)
    reads scheduler, scheduler.cache
  {
    && scheduler.cache.Valid() && scheduler.cache.holders == multiset{} && scheduler.run_queue == []
    && scheduler.cache.objects == ObjectsOf(j) && scheduler.cache.step == j.Steps()
    && InTurn(scheduler.cache.slots, scheduler.cache.step)
  }

  /** Zeroes the accumulators, enqueues the stages and runs them. */
  method RunStages(scheduler: SingleDeviceScheduler, rs: seq<Runnable>, k: nat, p: nat, ghost j: Job,
                   ghost lab: seq<int>, ghost labels: seq<Word>)
    requires j.Valid() && k == j.k && p == j.l.dims && |lab| == j.l.dim == |labels| && Iterates(j, rs, lab)
    requires Idle(j, scheduler) && Shows(scheduler.cache, Memory(j, labels))
    modifies scheduler`run_queue, scheduler`acc, scheduler.cache`host, scheduler.cache`slots,
             scheduler.cache`slot_lock, scheduler.cache`holders
    ensures Idle(j, scheduler) && Shows(scheduler.cache, Memory(j, LabelWords(lab)))
    ensures Accumulated(j, scheduler.acc, lab, |lab|, |lab|)
  {
    hide IsPartition, NumChunks, Accumulated, Ready, Shows, RunnableMajor, SimpleBufferCache.Valid, Memory,
         SingleDeviceScheduler.RespectsModes;
    Product(k, p);
    scheduler.acc := Zeros(k + k * p);
    NothingAccumulated(j, scheduler.acc, lab);
    for q := 0 to |rs|
      modifies scheduler`run_queue
      invariant scheduler.run_queue == rs[..q]
    {
      var ok := scheduler.Enqueue(rs[q]);
    }
    assert rs[..|rs|] == rs;
    SizesOfObjects(j);
    JobShapes(j, labels);
    ghost var acc := scheduler.acc;
    RoundsOf(j, rs);
    var ret := scheduler.Run(Memory(j, labels));
    assert IterationResult(j, rs, lab, labels, acc);
  }

  lemma NothingAccumulated(j: Job, acc: seq<real>, lab: seq<int>)
    requires j.Valid() && j.k * j.l.dims >= 0 && acc == Zeros(j.k + j.k * j.l.dims)
    ensures Accumulated(j, acc, lab, 0, 0)
  {
  }

  lemma RoundsOf(j: Job, rs: seq<Runnable>)
    requires j.Valid() && |rs| > 0 && AllReady(rs, j.Sizes(), j.Steps())
    requires SingleDeviceScheduler.AllHave(rs, j.Sizes(), j.Steps(), NumChunks(j.l.dim, j.l.bufdim))
    ensures SingleDeviceScheduler.Rounds(rs, j.Sizes(), j.Steps()) == NumChunks(j.l.dim, j.l.bufdim)
    ensures SingleDeviceScheduler.Matching(rs, j.Sizes(), j.Steps())
    ensures SingleDeviceScheduler.AllHave(rs, j.Sizes(), j.Steps(), 0)
            || SingleDeviceScheduler.NoneIsEmpty(rs, j.Sizes(), j.Steps())
  {
    hide IsPartition, NumChunks, Ready, ChunksOf;
  }

  /** Divides what the stages have accumulated. */
  method DivideAccumulators(acc: seq<real>, k: nat, p: nat, ghost j: Job,
                            ghost lab: seq<int>) returns (centroids: seq<Num>)
    requires j.Valid() && k == j.k && p == j.l.dims && |lab| == j.l.dim && Accumulated(j, acc, lab, |lab|, |lab|)
    ensures Holds(centroids, Means(j.Points(), lab, k, p), k, p)
  {
    hide IsPartition, SumAt, Accumulated, SumInCell, Count;
    Product(k, p);
    SizeOfAccumulators(j, acc, lab, |lab|, |lab|);
    var sums := new Num[k * p](t requires 0 <= t < k * p => Fin(acc[k + t]));
    forall t: nat | t < k * p
      ensures sums[t] == Fin(SumInCell(j.Points(), lab, k, p, t))
    {
      SumOfAccumulators(j, acc, lab, t);
    }
    MassesOfAccumulators(j, acc, lab);
    DivideRows(sums, acc[..k], k, p, j.Points(), lab);
    centroids := sums[..];
  }

  lemma SizeOfAccumulators(j: Job, acc: seq<real>, lab: seq<int>, m: nat, q: nat)
    requires j.Valid() && m <= |lab| && q <= |lab| && Accumulated(j, acc, lab, m, q)
    ensures j.k * j.l.dims >= 0 && |acc| == j.k + j.k * j.l.dims
  {
  }

  lemma SumOfAccumulators(j: Job, acc: seq<real>, lab: seq<int>, t: nat)
    requires j.Valid() && |lab| == j.l.dim && Accumulated(j, acc, lab, |lab|, |lab|) && t < j.k * j.l.dims
    ensures j.k + t < |acc| && acc[j.k + t] == SumInCell(j.Points(), lab, j.k, j.l.dims, t)
  {
    hide IsPartition, Total, Count, Rows;
    assert acc[j.k + t] == SumAt(j.src, lab, j.k, j.l.dims, t, |lab|);
  }

  // ---------- a whole run ----------

  /** Partitions the points and makes them and the labels known to a new cache. */
  method Prepare(host_points: seq<real>, n: nat, p: nat, ghost k: nat, host_labels: seq<Word>, buffer_size: nat,
                 cpu: bool, pool_size: nat)
    returns (scheduler: SingleDeviceScheduler, ghost j: Job)
    requires p > 0 && k > 0 && |host_points| == n * p && |host_labels| == n
    requires buffer_size > 0 && buffer_size % p == 0 && pool_size >= 4 * buffer_size
    ensures j.Valid() && j.l == Layout(p, n, buffer_size / p) && j.src == host_points && j.k == k
    ensures fresh(scheduler) && fresh(scheduler.cache) && Idle(j, scheduler)
    ensures scheduler.cache.buffer_size == buffer_size
    ensures Shows(scheduler.cache, Memory(j, host_labels))
  {
    hide IsPartition, SimpleBufferCache.Valid, SimpleBufferCache.View, InTurn;
    var dst := new real[|host_points|](i => 0.0);
    var ret := PartitionMatrix.PartitionMatrix(host_points, dst, |host_points|, p, buffer_size);
    Monotone(1, buffer_size / p, p);
    MultipleOfFeatures(n, p, buffer_size);
    assert dst[..|host_points|] == dst[..];
    j := Job(Layout(p, n, buffer_size / p), host_points, dst[..], k);
    EnoughSlots(pool_size, buffer_size);
    var cache := new SimpleBufferCache(buffer_size, cpu, pool_size);
    var points_handle := cache.AddObject(Coordinates(dst[..]), ReadOnly, buffer_size);
    var labels_handle := cache.AddObject(host_labels, ReadWrite, buffer_size / p);
    ShapeOfCache(cache);
    NothingCached(cache.slots, cache.step);
    assert cache.View(1) == Coordinates(dst[..]) && cache.View(2) == host_labels;
    JobShapes(j, host_labels);
    SizesOfObjects(j);
    assert Shows(cache, Memory(j, host_labels));
    scheduler := new SingleDeviceScheduler(cache, []);
  }

  lemma ShapeOfCache(cache: SimpleBufferCache)
    requires cache.Valid()
    ensures cache.Shape()
  {
  }

  lemma MultipleOfFeatures(n: nat, p: nat, buffer_size: nat)
    requires p > 0 && buffer_size > 0 && buffer_size % p == 0
    ensures n * p % p == 0 && n * p / p == n && p * (buffer_size / p) == buffer_size
            && 0 < buffer_size / p <= buffer_size
  {
    DivMod(p, n, 0);
    Split(buffer_size, p);
    Monotone(1, p, buffer_size / p);
  }

  lemma EnoughSlots(pool_size: nat, buffer_size: nat)
    requires buffer_size > 0 && pool_size >= 4 * buffer_size
    ensures pool_size / buffer_size >= 4
  {
    if pool_size / buffer_size < 4 {
      Split(pool_size, buffer_size);
      Monotone(pool_size / buffer_size + 1, 4, buffer_size);
      Distribute(buffer_size, pool_size / buffer_size, 1);
    }
  }

  /** Reads all labels back to the host, chunk by chunk. */
  method ReadBack(scheduler: SingleDeviceScheduler, n: nat, labels_content_size: nat, ghost j: Job,
                  ghost labels: seq<Word>)
    returns (host_labels: seq<Word>)
    requires j.Valid() && n == j.l.dim == |labels| && labels_content_size == j.l.bufdim
    requires Idle(j, scheduler) && Shows(scheduler.cache, Memory(j, labels))
    requires scheduler.cache.buffer_size >= labels_content_size
    modifies scheduler.cache`host
    ensures host_labels == labels
  {
    hide IsPartition, SimpleBufferCache.View;
    var cache := scheduler.cache;
    SizesOfObjects(j);
    assert cache.IsObject(2) && cache.View(2) == labels;
    var iter: nat := 0;
    ghost var b: nat := 0;
    while iter < n
      invariant iter == labels_content_size * b
      invariant cache.Valid() && cache.View(2) == labels && |cache.host| == 3 && |cache.host[2]| == n
      invariant forall a :: 0 <= a < iter && a < n ==> cache.host[2][a] == labels[a]
      decreases n - iter
    {
      var iter_step := if iter + labels_content_size > n then n else iter + labels_content_size;
      DivMod(labels_content_size, b, 0);
      Distribute(labels_content_size, b, 1);
      ghost var before := cache.host[2];
      var ret := cache.Read(2, iter, iter_step);
      assert cache.IsObject(2);
      assert cache.host[2][iter..iter_step] == labels[iter..iter_step];
      forall a | 0 <= a < iter_step
        ensures cache.host[2][a] == labels[a]
      {
        if a < iter {
          assert cache.InObject(2, a);
        } else {
          assert cache.host[2][iter..iter_step][a - iter] == labels[iter..iter_step][a - iter];
        }
      }
      iter := iter + labels_content_size;
      b := b + 1;
    }
    host_labels := cache.host[2];
  }

  /** The labelling stage, given the centroids on the device. */
  ghost predicate LabelingStage(f: seq<Num> -> Kernel, l: Layout, k: nat)
    requires l.Valid()
  {
    forall cen, cs :: Holds(cen, cs, k, l.dims) ==> IsLabeling(f(cen), cs, l)
  }

  ghost predicate FusedStage(f: seq<Num> -> Kernel, l: Layout, k: nat)
    requires l.Valid()
  {
    forall cen, cs :: Holds(cen, cs, k, l.dims) ==> IsFused(f(cen), cs, l, k)
  }

  /** How the points of a run are laid out in buffers. */
  function LayoutOfRun(n: nat, p: nat, buffer_size: nat): (l: Layout)
    requires p > 0 && buffer_size > 0 && buffer_size % p == 0
    ensures l.Valid() && l.dims == p && l.dim == n
  {
    MultipleOfFeatures(n, p, buffer_size);
    Layout(p, n, buffer_size / p)
  }

  /** Where a run stands after some iterations: the centroids on the device, and the labels that the cache shows. */
  ghost predicate Reached(j: Job, iterations: nat, c0: seq<Center>, cen: seq<Num>, cs: seq<Center>, labels: seq<Word>)
    requires j.Valid()
  {
    && |c0| == j.k && Centers(c0, j.l.dims) && |cs| == j.k && Holds(cen, cs, j.k, j.l.dims)
    && (j.l.dim > 0 ==> HasLive(cs)) && |labels| == j.l.dim
    && if iterations == 0 then cs == c0
       else
         var lab := Iterate(j.Points(), c0, j.l.dims, iterations);
         cs == Means(j.Points(), lab, j.k, j.l.dims) && labels == LabelWords(lab)
  }

  lemma NextReached(j: Job, iterations: nat, c0: seq<Center>, cen: seq<Num>, cs: seq<Center>, labels: seq<Word>,
                    cen': seq<Num>)
    requires j.Valid() && Reached(j, iterations, c0, cen, cs, labels)
    requires Holds(cen', Means(j.Points(), Assign(j.Points(), cs, j.l.dims), j.k, j.l.dims), j.k, j.l.dims)
    ensures Assign(j.Points(), cs, j.l.dims) == Iterate(j.Points(), c0, j.l.dims, iterations + 1)
    ensures Reached(j, iterations + 1, c0, cen', Means(j.Points(), Assign(j.Points(), cs, j.l.dims), j.k, j.l.dims),
                    LabelWords(Assign(j.Points(), cs, j.l.dims)))
  {
    hide IsPartition, Assign, Means, Holds;
    var lab := Assign(j.Points(), cs, j.l.dims);
    if iterations == 0 {
      IterateOnce(j.Points(), c0, j.l.dims);
    } else {
      IterateStep(j.Points(), c0, j.l.dims, iterations);
    }
    LabelsOfAssign(j, cs);
    UsedCentersAreLive(j.Points(), lab, j.k, j.l.dims);
  }

  lemma LabelsOfAssign(j: Job, cs: seq<Center>)
    requires j.Valid() && |cs| == j.k && Centers(cs, j.l.dims)
    ensures Labels(Assign(j.Points(), cs, j.l.dims), j.k) && |Assign(j.Points(), cs, j.l.dims)| == j.l.dim
  {
  }

  /** What a run leaves behind, with the labels as the words of the label buffers. */
  ghost predicate OutcomeInWords(host_points: seq<real>, n: nat, p: nat, k: nat, c0: seq<Center>, iterations: nat,
                                 labels: seq<Word>, masses: seq<real>, centroids: seq<Num>)
    requires Centers(c0, p) && |c0| == k > 0 && iterations > 0
  {
    var lab := Iterate(Rows(host_points, n, p), c0, p, iterations);
    labels == LabelWords(lab) && Outcome(host_points, n, p, k, c0, iterations, lab, masses, centroids)
  }

  /** Runs the stages of one iteration, divides, and swaps the centroids. */
  method RunIteration(scheduler: SingleDeviceScheduler, rs: seq<Runnable>, n: nat, p: nat, k: nat, ghost j: Job,
                      ghost iterations: nat, ghost c0: seq<Center>, ghost cen: seq<Num>, ghost cs: seq<Center>,
                      ghost shown: seq<Word>)
    returns (device_old_centroids: seq<Num>, masses: seq<real>)
    requires j.Valid() && n == j.l.dim && p == j.l.dims && k == j.k && Reached(j, iterations, c0, cen, cs, shown)
    requires Centers(cs, p) && |cs| == k && |shown| == n && Iterates(j, rs, Assign(j.Points(), cs, p))
    requires Idle(j, scheduler) && Shows(scheduler.cache, Memory(j, shown))
    modifies scheduler`run_queue, scheduler`acc, scheduler.cache`host, scheduler.cache`slots,
             scheduler.cache`slot_lock, scheduler.cache`holders
    ensures Idle(j, scheduler) && Shows(scheduler.cache, Memory(j, LabelWords(Assign(j.Points(), cs, p))))
    ensures Reached(j, iterations + 1, c0, device_old_centroids, Means(j.Points(), Assign(j.Points(), cs, p), k, p),
                    LabelWords(Assign(j.Points(), cs, p)))
    ensures Centers(c0, p) && |c0| == k > 0
    ensures OutcomeInWords(j.src, n, p, k, c0, iterations + 1, LabelWords(Assign(j.Points(), cs, p)), masses,
                           device_old_centroids)
  {
    hide IsPartition, Assign, Means, Holds, Iterates, Accumulated, Shows, SimpleBufferCache.Valid, Memory, Idle;
    ghost var lab := Assign(j.Points(), cs, p);
    LabelsOfAssign(j, cs);
    RunStages(scheduler, rs, k, p, j, lab, shown);
    var new_centroids := DivideAccumulators(scheduler.acc, k, p, j, lab);
    MassesOfAccumulators(j, scheduler.acc, lab);
    masses := scheduler.acc[..k];
    NextReached(j, iterations, c0, cen, cs, shown, new_centroids);
    device_old_centroids := new_centroids;
  }

  /** The three-stage pipeline.  The order of the program is that of all schedules if its functions are tied to the
      host. */
  method RunThreeStages(host_points: seq<real>, n: nat, p: nat, k: nat, host_centroids: seq<Num>,
                        host_labels: seq<Word>, buffer_size: nat, cpu: bool, pool_size: nat, max_iterations: nat,
                        f_labeling: seq<Num> -> Kernel, f_mass_update: Kernel, f_centroid_update: Kernel,
                        tie: PipelineOrder.Tie, ghost c0: seq<Center>)
    returns (labels: seq<Word>, masses: seq<real>, centroids: seq<Num>)
    requires p > 0 && |host_points| == n * p && |host_labels| == n && Holds(host_centroids, c0, k, p)
             && (n > 0 ==> HasLive(c0))
    requires buffer_size > 0 && buffer_size % p == 0 && pool_size >= 4 * buffer_size && |tie.waits| == 3
    requires var l := LayoutOfRun(n, p, buffer_size);
             && LabelingStage(f_labeling, l, k) && IsMassUpdate(f_mass_update, l, k)
             && k > 0 && IsCentroidUpdate(f_centroid_update, l, k)
    ensures Centers(c0, p) && |c0| == k
    ensures max_iterations > 0 && PipelineOrder.Tied(tie, PipelineOrder.THREE_STAGES, max_iterations) ==>
              OutcomeInWords(host_points, n, p, k, c0, max_iterations, labels, masses, centroids)
    ensures max_iterations == 0 ==> labels == host_labels && centroids == host_centroids
  {
    hide IsPartition, Assign, Means, Holds, IsLabeling, IsMassUpdate, IsCentroidUpdate, Iterates, Shows, OutcomeInWords,
         Idle, LabelingStage, SimpleBufferCache.Valid, Memory, ThreeStages, HasLive, Reached;
    var scheduler;
    ghost var j;
    scheduler, j := Prepare(host_points, n, p, k, host_labels, buffer_size, cpu, pool_size);
    MultipleOfFeatures(n, p, buffer_size);
    centroids, masses := host_centroids, [];
    ghost var cs, shown := c0, host_labels;
    ShapeOfCentroids(host_centroids, c0, k, p);
    NothingReached(j, c0, host_centroids, host_labels);
    for iterations := 0 to max_iterations
      invariant Idle(j, scheduler) && Shows(scheduler.cache, Memory(j, shown))
      invariant Reached(j, iterations, c0, centroids, cs, shown)
      invariant iterations == 0 ==> centroids == host_centroids && shown == host_labels
      invariant iterations > 0 ==> OutcomeInWords(host_points, n, p, k, c0, iterations, shown, masses, centroids)
    {
      ReachedShape(j, iterations, c0, centroids, cs, shown);
      LabelingOfStage(f_labeling, j.l, k, centroids, cs);
      var rs := ThreeStages(buffer_size, buffer_size / p, f_labeling(centroids), f_mass_update, f_centroid_update);
      ThreeStagesIterate(j, f_labeling(centroids), f_mass_update, f_centroid_update, cs);
      centroids, masses := RunIteration(scheduler, rs, n, p, k, j, iterations, c0, centroids, cs, shown);
      shown := LabelWords(Assign(j.Points(), cs, p));
      cs := Means(j.Points(), Assign(j.Points(), cs, p), k, p);
    }
    ReachedShape(j, max_iterations, c0, centroids, cs, shown);
    labels := ReadBack(scheduler, n, buffer_size / p, j, shown);
    if max_iterations > 0 && !PipelineOrder.Tied(tie, PipelineOrder.THREE_STAGES, max_iterations) {
      // Commands may take effect in another order, and nothing is known of what they leave.
      labels, masses, centroids := *, *, *;
    }
  }

  lemma NothingReached(j: Job, c0: seq<Center>, cen: seq<Num>, labels: seq<Word>)
    requires j.Valid() && Holds(cen, c0, j.k, j.l.dims) && (j.l.dim > 0 ==> HasLive(c0)) && |labels| == j.l.dim
    ensures Reached(j, 0, c0, cen, c0, labels)
  {
  }

  lemma ReachedShape(j: Job, iterations: nat, c0: seq<Center>, cen: seq<Num>, cs: seq<Center>, labels: seq<Word>)
    requires j.Valid() && Reached(j, iterations, c0, cen, cs, labels)
    ensures |cs| == j.k && Centers(cs, j.l.dims) && Holds(cen, cs, j.k, j.l.dims) && |labels| == j.l.dim
    ensures j.l.dim > 0 ==> HasLive(cs)
  {
  }

  lemma LabelingOfStage(f: seq<Num> -> Kernel, l: Layout, k: nat, cen: seq<Num>, cs: seq<Center>)
    requires l.Valid() && LabelingStage(f, l, k) && Holds(cen, cs, k, l.dims)
    ensures Centers(cs, l.dims) && IsLabeling(f(cen), cs, l)
  {
  }

  /** The single-stage pipeline, likewise. */
  method RunSingleStage(host_points: seq<real>, n: nat, p: nat, k: nat, host_centroids: seq<Num>,
                        host_labels: seq<Word>, buffer_size: nat, cpu: bool, pool_size: nat, max_iterations: nat,
                        f_fused: seq<Num> -> Kernel, tie: PipelineOrder.Tie, ghost c0: seq<Center>)
    returns (labels: seq<Word>, masses: seq<real>, centroids: seq<Num>)
    requires p > 0 && |host_points| == n * p && |host_labels| == n && Holds(host_centroids, c0, k, p)
             && (n > 0 ==> HasLive(c0))
    requires buffer_size > 0 && buffer_size % p == 0 && pool_size >= 4 * buffer_size && |tie.waits| == 1
    requires FusedStage(f_fused, LayoutOfRun(n, p, buffer_size), k)
    ensures Centers(c0, p) && |c0| == k > 0
    ensures max_iterations > 0 && PipelineOrder.Tied(tie, PipelineOrder.ONE_STAGE, max_iterations) ==>
              OutcomeInWords(host_points, n, p, k, c0, max_iterations, labels, masses, centroids)
    ensures max_iterations == 0 ==> labels == host_labels && centroids == host_centroids
  {
    hide IsPartition, Assign, Means, Holds, IsFused, Iterates, Shows, OutcomeInWords, Idle,
         FusedStage, SimpleBufferCache.Valid, Memory, SingleStage, HasLive, Reached;
    ShapeOfCentroids(host_centroids, c0, k, p);
    var scheduler;
    ghost var j;
    scheduler, j := Prepare(host_points, n, p, k, host_labels, buffer_size, cpu, pool_size);
    MultipleOfFeatures(n, p, buffer_size);
    centroids, masses := host_centroids, [];
    ghost var cs, shown := c0, host_labels;
    NothingReached(j, c0, host_centroids, host_labels);
    for iterations := 0 to max_iterations
      invariant Idle(j, scheduler) && Shows(scheduler.cache, Memory(j, shown))
      invariant Reached(j, iterations, c0, centroids, cs, shown)
      invariant iterations == 0 ==> centroids == host_centroids && shown == host_labels
      invariant iterations > 0 ==> OutcomeInWords(host_points, n, p, k, c0, iterations, shown, masses, centroids)
    {
      ReachedShape(j, iterations, c0, centroids, cs, shown);
      FusedOfStage(f_fused, j.l, k, centroids, cs);
      var rs := SingleStage(buffer_size, buffer_size / p, f_fused(centroids));
      SingleStageIterates(j, f_fused(centroids), cs);
      centroids, masses := RunIteration(scheduler, rs, n, p, k, j, iterations, c0, centroids, cs, shown);
      shown := LabelWords(Assign(j.Points(), cs, p));
      cs := Means(j.Points(), Assign(j.Points(), cs, p), k, p);
    }
    ReachedShape(j, max_iterations, c0, centroids, cs, shown);
    labels := ReadBack(scheduler, n, buffer_size / p, j, shown);
    if max_iterations > 0 && !PipelineOrder.Tied(tie, PipelineOrder.ONE_STAGE, max_iterations) {
      // Commands may take effect in another order, and nothing is known of what they leave.
      labels, masses, centroids := *, *, *;
    }
  }

  lemma FusedOfStage(f: seq<Num> -> Kernel, l: Layout, k: nat, cen: seq<Num>, cs: seq<Center>)
    requires l.Valid() && FusedStage(f, l, k) && Holds(cen, cs, k, l.dims)
    ensures k > 0 && Centers(cs, l.dims) && IsFused(f(cen), cs, l, k)
  {
  }

  lemma ShapeOfCentroids(cen: seq<Num>, cs: seq<Center>, k: nat, p: nat)
    requires Holds(cen, cs, k, p)
    ensures k > 0 && |cs| == k && Centers(cs, p)
  {
  }

  lemma MassesOfAccumulators(j: Job, acc: seq<real>, lab: seq<int>)
    requires j.Valid() && Accumulated(j, acc, lab, |lab|, |lab|)
    ensures j.k <= |acc| && forall c :: 0 <= c < j.k ==> acc[..j.k][c] == Count(lab, c, |lab|) as real
  {
  }
}
