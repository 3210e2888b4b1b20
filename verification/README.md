# Lloyd's k-means on OpenCL devices: a Dafny model

The repository clusters points with Lloyd's algorithm on OpenCL devices, whose memory may be too small for the points.
This project models its four cores and proves that they fit together:

* **Iterations** (`Clustering`, `Descent`, `RStatsKmeans`, `MacQueen`, `KmeansNaive`, `Baselines`). `Clustering` says
  what an iteration means, on vectors of exact reals. `Descent` proves that iterations descend, settle within k^n steps
  and never repeat a labelling. The three sequential programs are methods over flat column-major arrays, proved to
  compute these iterations, with early exit, running means and Kahan compensation.
* **Kernels** (`Strides`, `Barriers`, `Kernels`, `KernelChoice`, `ReduceVectorParcol`, `Stages`, `Updates`,
  `GroupHistograms`, `FusedFeatureSum`, `FusedLocalStride`, `FusedGlobalMemory`, `WorkItems`, `InterleavedRounds`,
  `InterleavedTiles`). `Strides` says which work-item handles which point in both loop forms, and when every point is
  handled; `Barriers` says when the work-items of a group make the same steps. `Kernels` and `FusedFeatureSum` are the
  kernels, work-item by work-item, over the buffers they write; `ReduceVectorParcol` folds what they leave;
  `KernelChoice` is the choice of a kernel by the number of features; `Stages` launches, reduces and adds, and says what
  a launch does that takes only some of the points. Launches take their work-items in any order. `GroupHistograms` has
  the histograms whose bins a work-group shares, under every interleaving of the atomic increments. `WorkItems` proves
  once and for all that finer interleavings make no difference when work-items keep to cells of their own;
  `InterleavedRounds` and `InterleavedTiles` apply it to a round of the reduction and to the cluster merge kernel, load
  by load and store by store.
* **Cache and scheduler** (`BufferCache`, `CacheRuns`, `ChunkSchedule`, `Scheduler`, `Schedules`, `Commands`,
  `StagingBuffers`, `HandingOver`, `RunMeaning`, `IoThread`). The cache is a class whose view of memory is the device
  content where a chunk that may be written is cached and the host content elsewhere. The scheduler is a class that runs
  kernels chunk by chunk over the cache; `ChunkSchedule` proves that this is the same as running kernel after kernel on
  whole objects. `Schedules` says in which orders commands and copy tasks may complete, given queues, wait lists and
  waits of the host, when that is always the order of creation at some place, and that if it is so everywhere then
  nothing but the order of creation matters. `Commands` gives the commands of a run with their wait lists and the slots
  they work on; it and `StagingBuffers` prove what every schedule of them keeps. `HandingOver` and `RunMeaning` say
  which chunks are copied where, and that the commands of a run leave in host and device buffers what its functions do
  to whole objects. `IoThread` is the queue of an I/O thread as a state machine over single accesses.
* **Pipelines** (`PartitionMatrix`, `ChunkwiseLloyd`, `RowDivision`, `PipelineOrder`, `PipelineMeaning`, `LostCounts`,
  `KmeansBuffered`, `LaunchedStages`, `LaunchedPipelines`, `KmeansThreeStage`, `ThreeQueues`). The points are
  partitioned into buffers, pass through cache and scheduler in one or three stages, and the labels are read back: the
  outcome is that of the same number of iterations on the unpartitioned points, provided that the runs of the scheduler
  are tied to the host's own commands. `PipelineOrder` says exactly when they are, and `PipelineMeaning` that every
  schedule then leaves what the program says. `LaunchedStages` makes the stages out of launches of kernels, which may
  leave points out, and `LaunchedPipelines` proves exactly when the pipelines are right with them. `KmeansThreeStage`
  composes kernels and reductions on up to three devices with shared or separate buffers, and `ThreeQueues` says when
  the order of its commands is that of the program.

`Sums` and `Numbers` hold finite sums, numbers with NaN, quotients and remainders, and column-major matrices.

## How the code is represented

* Numbers are exact reals, extended by NaN and by the bound a search for a minimum starts from (`Numbers.Num`). The mean
  of an empty cluster is 0/0, that is NaN in every coordinate, and a NaN distance is never smaller (section 5.11 of IEEE
  754-2008): such a centre is *dead* and is never chosen. Counts on devices are reals too, so that one reduction serves
  masses and feature sums.
* Chunks, offsets and buffer sizes count cells (a coordinate or a label) instead of bytes; labels and coordinates are
  equally wide. The parallel vectors that describe the cache slots of a device are one vector of records. An address in
  an object is an offset, and -1 is the null pointer.
* In `BufferCache`, `Scheduler`, `KmeansBuffered` and `LaunchedPipelines` a command takes effect when it is enqueued.
  That this is sound is the subject of `Commands`, `StagingBuffers` and `PipelineOrder`: if a pipeline is *tied* to the
  host (`PipelineOrder.Tied`), then whatever works on one slot, one staging buffer, one chunk of the host's memory or
  one buffer that stays on the device completes in the order of creation in every schedule, and every complete schedule
  leaves the memory that the order of the program leaves (`AsTheProgramSays`, `EveryScheduleShows`). Otherwise the
  pipelines promise nothing: their methods forget the outcome. Reading the results back comes after all of that, since
  the host waits for it.
* A kernel that the scheduler runs is a function from chunk contents to chunk contents and to additions to the
  accumulators on the device. `ChunkwiseLloyd` says what the pipelines need of such functions on the buffer lengths that
  occur (`IsLabeling` and its siblings). The functions of real launches are in `LaunchedStages`, whose methods prove
  that the kernels of `Stages` compute them on every buffer, whether or not the launch takes all of its points.
* An `assert` of the host code that fails ends the operation: `ReduceVectorParcol.Reduce` then returns false.
* The cache is used as the scheduler uses it: every object with one chunk size that fits a buffer, with two slots for
  every object, and `write_and_get` only on a miss.

## Where the code does less than one might expect

* The buffered pipelines clear masses and sums and divide rows on the queue of the host, and run the stages on the two
  queues of the scheduler. No wait list has an event of a clearing or a division in it, and the host only waits for the
  scheduler's queues. So a schedule is permitted in which the masses are cleared after a whole run has counted them
  (`CountsMayBeLost`), and another one in which labels are found with sums that are not divided yet. The order of the
  program is kept in every schedule if and only if the host uses the scheduler's first queue, or every function that
  touches masses, sums or centroids waits for an event of the host by which they are ready, or an earlier function does
  (`TiedIff`, `InOrderIff`). As they are written the pipelines do not (`NotTiedAsWritten`); one event in the first wait
  list would do (`OneEventTies`).
* The stages on up to three devices fill none of their wait lists either: everything is in order in every schedule if
  and only if the three stages share one queue; otherwise labels may be copied before they are found
  (`ThreeQueues.InOrderIff`).
* Kernels are compiled for 2, 4, ..., 1024 features, and the host picks one by the highest bit of the number of
  features. So with 3 features a kernel reads 2 of them, and a single feature picks no kernel. The chosen kernel reads
  all features exactly for the powers of two from 2 to 1024, and labels are right for all points and centres exactly
  then (`KernelFitsIff`, `LabelsRightIff`, `ThreeFeaturesAreTwo`, `FewerFeaturesThanPlanned`).
* The reduction of a matrix runs through its assertions and leaves the sums of its rows exactly if the columns are a
  power of two and there is one column, or there are more than 256 rows and evenly many, or the rows divide 256
  (`RightIff`, `RunsThroughIff`, `SomeDoNotComplete`). An odd number of rows above 256 is rounded down by the last
  halving.
* The centroid update with a work-item for every feature of every block hands all cells of its launch to the reduction,
  also those behind the last whole block. When the number of features does not divide the global size the sums are wrong
  but for a few small launches, although no assertion fails (`SumsRightIff`, `SomeFeatureSumsAreWrong`).
* The centroid update that divides features among work-items has a barrier inside its loop over the points. All
  work-items of a group meet it exactly if the vectors fill up whole rows of the group (`GlobalInStepIff`,
  `LocalInStepIff`, `SomeBarriersAreMissed`).
* Loops over the block of a work-group handle all points exactly if the blocks, rounded down to whole vectors, are long
  enough; loops over the whole launch exactly if the points are whole vectors (`LocalCoversIff`, `GlobalCoversIff`,
  `BlocksMayFallShort`, `LastPointMayBeLeft`). Loops over blocks stay inside the points exactly if no block ends within
  a vector (`InsideIff`).
* The pipelines pass buffers of a full length and a shorter last one to the same launches. Their iterations come out
  right for every job exactly if the launches take all points of both; with loops over the whole launch, if the vector
  length divides both lengths (`IteratesIff`, `FusedIteratesIff`, `GlobalTakesAllIff`, `LastBufferMayBeLeft`).
* The buffers that the host allocates for the fused feature-sum kernel fit exactly if one of local size and number of
  features divides the other (`HostSizesMatchIff`, `SizesMayDiffer`).
* The fused feature-sum kernel with local strides takes every point once exactly if the points are whole vectors and the
  blocks of the work-groups reach the end and are whole rounds, or the first block holds all points. Otherwise points
  behind the blocks are left out, or a group runs on into the next block and points are counted twice
  (`FusedLocalStride.OnceIff`, `SomePointsAreTakenTwice`). Without local memory, which is how that form is built, it
  also sums other points than it labels unless vectors are single points (`PositionsAgreeIff`). With single points and
  blocks of whole rounds labels, masses and sums are right (`UpdateFusedGlobal`).
* The centroids of an initializer are lost when labelling and centroid update are on different devices: the first
  synchronisation overwrites them (`KmeansThreeStage.Run`, `KmeansThreeStage.RunsAgree`,
  `KmeansThreeStage.InitializerMayBeLost`).
* Unlocking sets no event, and evicting a chunk of an object that is only read creates none. So when a function works on
  one such object of more than two chunks, the task that copies the third chunk to the staging buffer may do so before
  the first chunk has been transferred from there (`OneObjectInOrderIff`). The pipelines are safe, because the labels
  that they fetch after the points are written back (`PipelineAlwaysInOrder`).
* `partition_matrix` refuses a buffer size that the number of features does not divide, and the pipelines do not look at
  its answer; their theorems ask for a buffer size that is divisible.

Check the whole project with `dafny verify dfyconfig.toml`.

## Model

| member | source | states |
|---|---|---|
| Clustering.BestIsNearest | kmeans_naive.cpp:49-63 | The search by strict comparison ends at the lowest-numbered of the nearest live centres, and only finds none if all are dead |
| Clustering.NearestIsNearest | kmeans_naive.cpp:48-69 | The label of a point is a live centre nearest to it, strictly nearer than all before it |
| Clustering.UsedCentersAreLive | kmeans_naive.cpp:80-100 | After an update every label in use names a live centre, so a search always finds one |
| Clustering.FixedForever | kmeans_naive.cpp:42-103 | Once a labelling repeats, every later iteration repeats it |
| Descent.Steiner | baselines/r_stats_kmeans.c:83-91 | The cost at any sites is the cost at the means plus the masses times the squared offsets from the means |
| Descent.MeansAreBest | baselines/r_stats_kmeans.c:73-80 | No sites give a labelling a lower within-cluster sum of squares than the means |
| Descent.NextLowers | baselines/r_stats_kmeans.c:50-81 | An iteration that changes the labels lowers the pair (sum of squares at the means, sum of labels) lexicographically, because ties go to the lowest index |
| Descent.LoweredThroughout | baselines/r_stats_kmeans.c:50-81 | While labellings keep changing each is lower than all earlier ones, so none comes back |
| Descent.Converges | baselines/r_stats_kmeans.c:50-81 | Without any iteration limit the loop reaches an iteration without a change, within k^n iterations |
| Descent.Settled | baselines/r_stats_kmeans.c:72 | An iteration changes nothing if and only if every point is at the nearest mean of all clusters |
| RStatsKmeans.FindNearest | baselines/r_stats_kmeans.c:54-66 | The inner search finds the label of the point whenever a centre is live, and otherwise keeps what the previous search left |
| RStatsKmeans.UpdateCenters | baselines/r_stats_kmeans.c:74-80 | Afterwards the flat matrix holds exactly the means of the labelled points, dead where a cluster is empty, and the counts are right |
| RStatsKmeans.ClusterCostsAddUp | baselines/r_stats_kmeans.c:84-91 | The sums of squares reported per cluster add up to the cost of the labelling |
| RStatsKmeans.SumsOfSquares | baselines/r_stats_kmeans.c:84-91 | The reported sums are the costs of the clusters at the final centres |
| RStatsKmeans.EarlyExit | baselines/r_stats_kmeans.c:72 | Leaving at the first repeated labelling ends like running on, and happens before the limit when the limit exceeds k^n |
| RStatsKmeans.KmeansLloyd | baselines/r_stats_kmeans.c:42-92 | Labels, centres, counts and sums of squares are those of maxiter full iterations; on an early exit every label is nearest and the next iteration would change nothing; the reported number is that of the first iteration to repeat the labelling before it, or maxiter + 1 if none does; and n = 0 leaves the centres alone |
| MacQueen.RunningMeans | baselines/r_stats_kmeans.c:142-151 | The running update gives every coordinate of every centre of the new labelling: gained, lost (NaN when the cluster empties) or unchanged |
| MacQueen.ReassignLowers | baselines/r_stats_kmeans.c:129-152 | Every single reassignment lowers the pair (sum of squares, sum of labels) |
| MacQueen.ReassignImproves | baselines/r_stats_kmeans.c:142-151 | A reassignment strictly lowers the sum of squares unless the point is at distance zero from its old centre |
| MacQueen.MovePoint | baselines/r_stats_kmeans.c:142-151 | Moving a point in place keeps the centres equal to the means, and the counts right |
| MacQueen.SweepLowers | baselines/r_stats_kmeans.c:128-153 | A pass either leaves every point at its nearest mean or lowers the labelling |
| MacQueen.SweepIff | baselines/r_stats_kmeans.c:128-153 | Reconsidering the points from first to last, each against the labels as they are then, determines the labels after a pass |
| MacQueen.PassesInTurn | baselines/r_stats_kmeans.c:128-153 | Every pass of the program is one |
| MacQueen.Pass | baselines/r_stats_kmeans.c:128-152 | A pass takes the points in turn: every point gets the nearest of the means of what the labels are then, new ones before it and old ones behind; centres equal means after each step, and the pass reports whether it changed anything |
| MacQueen.KmeansMacQueen | baselines/r_stats_kmeans.c:94-165 | Labels are those of maxiter passes, centres are exactly the means of the final labels, on an early exit every label is nearest, the reported number is that of the first pass that changes nothing, or maxiter + 1, and k^n passes always suffice |
| KmeansNaive.AssignPoints | kmeans_naive.cpp:48-69 | Labels become one assignment step; the flag tells whether one of them changed |
| KmeansNaive.AddCompensated | kmeans_naive.cpp:84-93 | In exact arithmetic the compensation stays zero and the sums are plain sums |
| KmeansNaive.Run | kmeans_naive.cpp:42-103 | After any number of iterations labels, masses and centroids are those of that many iterations of the specification; none leaves everything as it was |
| KmeansNaive.NeverRaises | kmeans_naive.cpp:47-100 | An iteration never raises the within-cluster sum of squares |
| KmeansNaive.MassesAddUp | kmeans_naive.cpp:80-83 | The masses add up to the number of points |
| KmeansNaive.CentroidsBalance | kmeans_naive.cpp:80-100 | Mass times centroid, added over the clusters, is the total of all points |
| KmeansNaive.EmptyStaysEmpty | kmeans_naive.cpp:47-100 | A cluster that becomes empty is empty in all later iterations |
| Baselines.LloydAgreesWithNaive | baselines/r_stats_kmeans.c:42-92 | The program with early exit and the one without end with the same labels (up to the offset of one), masses and centres |
| Strides.GlobalOwns | cl_kernels/lloyd_labeling_vp_clcp.cl:101-105 | A loop over the whole launch handles a point exactly if its vector is whole and is the work-item's global id modulo the global size |
| Strides.LocalOwns | cl_kernels/lloyd_labeling_vp_clcp.cl:82-99 | A loop over the block of a work-group handles a point exactly if its vector lies in that block at a position that is the local id modulo the local size, whatever the number of points |
| Strides.OwnerIs | cl_kernels/lloyd_labeling_vp_clcp.cl:81-106 | In both forms a point is handled by the loop of one work-item only, its owner |
| Strides.GlobalCoversIff | cl_kernels/lloyd_labeling_vp_clcp.cl:101-105 | All points are handled if and only if they are whole vectors |
| Strides.LocalCoversIff | cl_kernels/lloyd_labeling_vp_clcp.cl:82-99 | All points are handled if and only if the rounded-down blocks together reach the end |
| Strides.InsideIff | cl_kernels/lloyd_labeling_vp_clcp.cl:82-99 | Loops over blocks read and write nothing behind the points if and only if no group has a block that ends within a vector |
| Strides.BlocksMayFallShort | cl_kernels/lloyd_labeling_vp_clcp.cl:84-86 | A launch in which the rounded-down blocks miss a point |
| Strides.LastPointMayBeLeft | cl_kernels/lloyd_labeling_vp_clcp.cl:101-105 | A launch in which the last point is left out |
| Strides.StartLoop | cl_kernels/lloyd_cluster_merge.cl:98-122 | What a kernel computes before its loop is the start, bound and step of that loop, with the saturating subtraction |
| Strides.SharesAddUp | cl_kernels/reduce_vector_parcol.cl:63-75 | The shares of all work-items add up to the sum over the points that somebody handles |
| Strides.PartIsShare | cl_kernels/histogram_part_private.cl:69-131 | A work-item that ran its whole loop has added exactly its share |
| Barriers.GlobalInStepIff | cl_kernels/lloyd_feature_sum_pardim.cl:136-156 | With loops over the whole launch all work-items of every group meet the barrier in the same steps if and only if the local size divides the number of whole vectors |
| Barriers.LocalInStepIff | cl_kernels/lloyd_feature_sum_pardim.cl:113-134 | With loops over blocks they do if and only if every block, also one that is cut short, is whole rows of vectors |
| Barriers.SomeBarriersAreMissed | cl_kernels/lloyd_feature_sum_pardim.cl:136-156 | A launch that takes all points and in which one row of a group makes a step more than the other |
| Kernels.SelectNearest | cl_kernels/lloyd_labeling_vp_clcp.cl:123-151 | The select and fmin search, from an arbitrary register, finds the label of the point |
| Kernels.LabelPoints | cl_kernels/lloyd_labeling_vp_clcp.cl:70-155 | A work-item writes the new label of every point it owns and nothing else |
| Kernels.SumMasses | cl_kernels/histogram_part_private.cl:69-131 | A work-item counts the labels of exactly the points of its loop, in a tile of its own |
| Kernels.SumFeatures | cl_kernels/lloyd_cluster_merge.cl:98-172 | A work-item adds up exactly the points of its loop by cluster and feature, and writes no cell outside its features |
| Kernels.FusedLoop | cl_kernels/lloyd_fused_cluster_merge.cl:147-283 | One loop labels, counts and adds up the same points, each in buffers of its own |
| KernelChoice.Prepare | cl_kernels/labeling_unroll_vector.hpp:87-137 | Kernel number i is compiled for 2^(i+1) features, up to 1024 |
| KernelChoice.Choose | cl_kernels/labeling_unroll_vector.hpp:239 | The chosen kernel reads as many features as the highest power of two that is at most their number; there is none for a single feature or above 1024 |
| KernelChoice.HighestPower | utility.hpp:65-71 | For 2 to 1024 features the chosen kernel reads a power of two of them that is at most their number and more than half of it, and there is no kernel otherwise |
| KernelChoice.KernelFitsIff | cl_kernels/fused_feature_sum.hpp:315 | The chosen kernel reads all features if and only if their number is a power of two from 2 to 1024 |
| KernelChoice.FewerFeaturesMislabel | cl_kernels/labeling_unroll_vector.hpp:239 | Whatever the numbers of features and of those that are read, if fewer are read then a point and two centres exist that are labelled wrong |
| KernelChoice.LabelsRightIff | cl_kernels/labeling_unroll_vector.hpp:168-272 | The chosen kernel labels every point right for all centres if and only if it reads all features |
| KernelChoice.ThreeFeaturesAreTwo | utility.hpp:65-71 | With three features the kernel for two is chosen and mislabels a point; with one feature there is no kernel |
| ReduceVectorParcol.CompactItem | cl_kernels/reduce_vector_parcol.cl:64-75 | A work-item replaces its cell by the sum of the cells congruent to it modulo the global size |
| ReduceVectorParcol.Compact | cl_kernels/reduce_vector_parcol.hpp:111-128 | In any order of the work-items a launch folds the second half of the cells onto the first |
| ReduceVectorParcol.FoldKeepsSums | cl_kernels/reduce_vector_parcol.cl:40-50 | Folding half of the columns onto the others keeps the sum of every row |
| ReduceVectorParcol.Inner | cl_kernels/reduce_vector_parcol.cl:25-54 | The rounds of one work-group, in any order within a round, fold the cells again and again down to one column |
| ReduceVectorParcol.Reduce | cl_kernels/reduce_vector_parcol.hpp:95-155 | For any number of cells and rows the first cells end as the chain of foldings makes them, cells beyond the data stay, and it completes exactly if no assertion fails on the way |
| ReduceVectorParcol.AddsUpIff | cl_kernels/reduce_vector_parcol.cl:40-75 | The chain of foldings, with fewer cells than a column behind the matrix, leaves the sums of the rows of every matrix if and only if there is one column, or a power of two of columns and at most one cell behind |
| ReduceVectorParcol.RightIff | cl_kernels/reduce_vector_parcol.hpp:95-155 | The reduction completes and is right for every matrix, with or without cells behind it, exactly under a condition on rows, columns and cells |
| ReduceVectorParcol.RunsThroughIff | cl_kernels/reduce_vector_parcol.hpp:111-138 | For rows times 2^k cells all assertions hold if and only if there is one column, or rows are above 256 and even, or divide 256 |
| ReduceVectorParcol.SomeDoNotComplete | cl_kernels/reduce_vector_parcol.hpp:111-138 | Numbers of rows with which it does not complete, beside some with which it does |
| ReduceVectorParcol.SomeSumsAreWrong | cl_kernels/reduce_vector_parcol.hpp:95-155 | Ten cells and four rows: the reduction completes, and the sums of two columns come out wrong |
| WorkItems.RunsAsIfAlone | cl_kernels/lloyd_cluster_merge.cl:98-172 | Under every interleaving of single steps a work-item that keeps to its own cells finds registers and cells as if it ran alone |
| WorkItems.AnyScheduleWillDo | cl_kernels/lloyd_cluster_merge.cl:98-172 | Any two schedules that let everybody finish leave the same memory |
| InterleavedRounds.RoundFolds | cl_kernels/reduce_vector_parcol.cl:45-49 | A round with its loads and stores interleaved in any way folds the first half and touches nothing else |
| InterleavedTiles.ProgramAlone | cl_kernels/lloyd_cluster_merge.cl:79-172 | A program of loads, additions and stores does the updates of a tile in their order |
| InterleavedTiles.TilesAsAlone | cl_kernels/lloyd_cluster_merge.cl:79-172 | When every work-item keeps to its tile, every interleaving of single loads and stores leaves in each tile what its work-item makes of it alone |
| InterleavedTiles.MergeInterleaved | cl_kernels/lloyd_cluster_merge.cl:79-172 | Every interleaving of the loads and stores of the cluster merge kernel leaves the shares of the feature sums in the tiles, as running the work-items one by one does |
| Stages.TilesAddUp | cl_kernels/reduce_vector_parcol.hpp:95-155 | Tiles that hold the shares of the work-items have the whole sums as row sums |
| Stages.LaunchLabeling | cl_kernels/lloyd_labeling_vp_clcp.cl:70-155 | A launch of any shape, in any order, gives the points that it takes the labels of one assignment step and leaves the others |
| Stages.LabelingUnrollVector | cl_kernels/labeling_unroll_vector.hpp:168-272 | The host launches nothing without a kernel, and otherwise labels by the features that the chosen kernel reads |
| Stages.CompleteTakesAll | cl_kernels/lloyd_labeling_vp_clcp.cl:81-106 | A complete launch takes all points: labels, counts and sums are those of the whole |
| Stages.LaunchHistogramPartPrivate | cl_kernels/histogram_part_private.cl:47-141 | Afterwards every work-item's tile holds its share of the counts |
| Stages.UpdateMasses | cl_kernels/mass_update_part_private.hpp:226-245 | Launch, reduction and addition add the counts of the points that the launch takes; it completes exactly if no assertion of the reduction fails |
| GroupHistograms.NoPointIsLeft | cl_kernels/histogram_part_local.cl:48-72 | Taking points one by one, both loop forms handle every point, whatever the launch |
| GroupHistograms.OneMoreCounted | cl_kernels/histogram_part_global.cl:73-82 | Whichever work-item makes the next increment, the bins go on being what the group has counted so far |
| GroupHistograms.SharesOfGroup | cl_kernels/histogram_part_global.cl:22-28 | The shares of the work-items of a group add up to the share of the group |
| GroupHistograms.CountGroup | cl_kernels/histogram_part_global.cl:49-82 | Under every interleaving of the atomic increments of a group, shared bins end as the group's share of the counts, and the loops end |
| GroupHistograms.FillRows | cl_kernels/histogram_part_local.cl:38-44 | A work-item writes the bins that are its id modulo the local size, and no others |
| GroupHistograms.ZeroStrided | cl_kernels/histogram_part_global.cl:38-45 | The same for the strided zeroing loop |
| GroupHistograms.GroupGlobal | cl_kernels/histogram_part_global.cl:36-83 | A work-group leaves its share of the counts in its slice of the output, whatever was there, and touches nothing else |
| GroupHistograms.GroupLocal | cl_kernels/histogram_part_local.cl:38-94 | The same with bins in local memory that are zeroed, counted in and copied out between barriers |
| GroupHistograms.GroupTilesAddUp | cl_kernels/mass_update_part_global.hpp:165-173 | The slices of the groups have the true counts as row sums, as the tiles of single work-items have |
| GroupHistograms.UpdateMassesByGroup | cl_kernels/mass_update_part_local.hpp:145-218 | Launch of either kernel in any order, reduction and addition add the true count of every cluster to the masses |
| Stages.UpdateByClusterMerge | cl_kernels/centroid_update_cluster_merge.hpp:247-270 | The same for the feature sums of every cluster, with private tiles |
| Stages.FeatureSumItem | cl_kernels/lloyd_feature_sum.cl:37-85 | A work-item writes the sums of its one feature over its block of points into its stripe of the block's tile, and nothing else |
| Stages.UpdateByFeatureSum | cl_kernels/centroid_update_feature_sum.hpp:134-206 | The same for all points with a work-item for every feature of every block, for every global size that the host accepts and that leaves right sums |
| Stages.SumsRightIff | cl_kernels/centroid_update_feature_sum.hpp:181-193 | Exactly when the reduction of all cells of such a launch leaves the feature sums |
| Stages.SomeFeatureSumsAreWrong | cl_kernels/centroid_update_feature_sum.hpp:134-193 | One cluster, four features and ten work-items: all assertions hold and the sums are wrong |
| Stages.ParDimItem | cl_kernels/lloyd_feature_sum_pardim.cl:72-222 | A work-item of the two-dimensional launch writes the sums of its features over its points into its stripe, and nothing else; whether its group meets the barrier in the loop is the caller's to see to |
| Stages.UpdateByParDim | cl_kernels/centroid_update_feature_sum_pardim.hpp:166-306 | The same feature sums with features divided among work-items, when all work-items of a group meet the barrier in the loop |
| Stages.AcceptedLaunch | cl_kernels/centroid_update_feature_sum_pardim.hpp:166-206 | If the assertions of the host hold, the columns of the launch that it derives have all features between them, and its groups all rows |
| Stages.AcceptedIff | cl_kernels/centroid_update_feature_sum_pardim.hpp:166-206 | The host accepts its configuration exactly if columns, groups and rows exist that split all features, have the local features side by side, and fit as tightly as they can into local and global size; they are unique, and those it launches |
| Stages.AsLargeAsTold | cl_kernels/centroid_update_feature_sum_pardim.hpp:183-201 | Where everything divides, a work-group and the launch have as many work-items as they were told to have |
| Stages.FourTilesAreAccepted | cl_kernels/centroid_update_feature_sum_pardim.hpp:183-201 | Eight work-items in groups of four with two of four features side by side: one group of two rows |
| Stages.UpdateFeatureSumPardim | cl_kernels/centroid_update_feature_sum_pardim.hpp:151-306 | The host's call: it stops unless the features split evenly and work-groups fill up the two-dimensional launch, and otherwise adds the feature sums of the points that the rows take |
| Stages.UpdateFused | cl_kernels/fused_cluster_merge.hpp:350-410 | With a kernel that reads all features the fused kernel labels, counts and adds up the points that the launch takes |
| FusedFeatureSum.RoundResidue | cl_kernels/lloyd_fused_feature_sum.cl:176-183 | In a round a work-group handles its own run of vectors, one for each thread, and the other work-groups handle the rest |
| FusedFeatureSum.TileOwnerInRound | cl_kernels/lloyd_fused_feature_sum.cl:102-116 | In a round a block adds the points of its run of vectors, as far as there are whole ones, and no other points |
| FusedFeatureSum.RealIsWhole | cl_kernels/lloyd_fused_feature_sum.cl:278-287 | The computed number of real block points is the number of whole vectors left in the run |
| FusedFeatureSum.OneThread | cl_kernels/lloyd_fused_feature_sum.cl:112-116 | Every cell of the local feature sums is written by one thread only |
| FusedFeatureSum.LabelPhase | cl_kernels/lloyd_fused_feature_sum.cl:193-268 | A thread caches, labels and counts its vector of points, if it has one, and leaves what the others left |
| FusedFeatureSum.CentroidPhase | cl_kernels/lloyd_fused_feature_sum.cl:278-343 | A thread adds its features of all points that its block has in the round, once each, to the cells that are its own |
| FusedFeatureSum.CentroidPhases | cl_kernels/lloyd_fused_feature_sum.cl:289-343 | All threads together, in any order, bring every cell of the local sums to the next round |
| FusedFeatureSum.Rounds | cl_kernels/lloyd_fused_feature_sum.cl:176-345 | The rounds of a work-group end with the masses of each thread, the sums of each block, and the labels of its points; bounds depend on the group only, so barriers are met by all |
| FusedFeatureSum.LaunchFusedFeatureSum | cl_kernels/lloyd_fused_feature_sum.cl:83-374 | After a launch in any order the mass tiles hold the shares of the threads and the centroid tiles the shares of the blocks |
| FusedFeatureSum.SumTilesAddUp | cl_kernels/fused_feature_sum.hpp:385-399 | The tiles of all blocks add up to the feature sums of all points: every point and feature once, at the point's nearest cluster |
| FusedFeatureSum.HostSizesMatchIff | cl_kernels/fused_feature_sum.hpp:224-276 | Local buffer, tile buffer and number of tiles match the kernel if and only if local size or number of features divides the other |
| FusedFeatureSum.SizesMayDiffer | cl_kernels/fused_feature_sum.hpp:266-270 | Sizes for which the local buffer is too small |
| FusedFeatureSum.FewerFeaturesThanPlanned | cl_kernels/fused_feature_sum.hpp:224-315 | Three features and one thread: the sizes match, but the kernel for two features divides by a block size of 0 |
| FusedFeatureSum.UpdateFusedFeatureSum | cl_kernels/fused_feature_sum.hpp:191-441 | Labels, masses and feature sums of the points that the launch takes, whatever the number of groups, the local size and the vector length, when the sizes match and the kernel reads all features |
| Updates.UpdateMassesBy | cl_kernels/mass_update_part_private.hpp:226-245 | Any of the mass kernels adds the counts of the points that it takes |
| Updates.UpdateSumsBy | cl_kernels/centroid_update_cluster_merge.hpp:247-270 | Any of the centroid kernels adds the feature sums of the points that it takes |
| FusedLocalStride.Launch | cl_kernels/lloyd_fused_feature_sum.cl:158-193 | With local strides the rounds of all groups take each point as often as there are groups with a round that begins in their block and covers it |
| FusedLocalStride.TakesIff | cl_kernels/lloyd_fused_feature_sum.cl:170-193 | A group takes a whole vector exactly if the vector's round begins before the vectors of the group's block run out |
| FusedLocalStride.OnceIff | cl_kernels/lloyd_fused_feature_sum.cl:158-193 | Every point is taken exactly once if and only if points are whole vectors, blocks reach the end, and blocks are whole rounds or the first has all points |
| FusedLocalStride.SomePointsAreTakenTwice | cl_kernels/lloyd_fused_feature_sum.cl:158-193 | A launch in which a point is taken by two groups |
| FusedLocalStride.PositionsAgreeIff | cl_kernels/lloyd_fused_feature_sum.cl:290-306 | Without local memory, the points summed up for a position are those labelled for it if and only if vectors are single points or there is one thread |
| FusedGlobalMemory.FitIff | cl_kernels/lloyd_fused_feature_sum.cl:158-193 | With single points, a condition on block and local size holds exactly when local strides take every point once |
| FusedGlobalMemory.InRound | cl_kernels/lloyd_fused_feature_sum.cl:158-193 | In a round a work-item takes the point at its own position, and nobody else in its group takes a point up to the next round, with either kind of strides |
| FusedGlobalMemory.LabelPoint | cl_kernels/lloyd_fused_feature_sum.cl:193-270 | A thread labels and counts its point of a round, if there is one, in global memory |
| FusedGlobalMemory.AddBlock | cl_kernels/lloyd_fused_feature_sum.cl:272-343 | A thread adds its features of the points of its block to its own cells of the block's tile in global memory |
| FusedGlobalMemory.WorkGroup | cl_kernels/lloyd_fused_feature_sum.cl:83-345 | A work-group, its threads in any order in every phase, labels the points that are its own and leaves their shares in its tiles, whatever was there |
| FusedGlobalMemory.UpdateFusedGlobal | cl_kernels/fused_feature_sum.hpp:191-441 | With single points the kernels without local memory give the labels, masses and feature sums of all points, with loops over the whole launch or over blocks of whole rounds |
| BufferCache.SimpleBufferCache.constructor | simple_buffer_cache.cpp:52-102 | A cache with empty, free slots, as many as the pool has room for |
| BufferCache.SimpleBufferCache.AddObject | simple_buffer_cache.cpp:105-115 | Ids are handed out in order, and the other objects keep their values |
| BufferCache.SimpleBufferCache.FindBufferId | simple_buffer_cache.cpp:554-574 | The id of a buffer is its offset, and is refused for unknown objects and foreign addresses |
| BufferCache.SimpleBufferCache.FindCacheSlot | simple_buffer_cache.cpp:576-600 | Finds a slot with the chunk, -2 if there is none, -1 only for an invalid request |
| BufferCache.SimpleBufferCache.AssignCacheSlot | simple_buffer_cache.cpp:602-621 | Finds the first of the two slots of the object that is free, and fails only if both are locked |
| BufferCache.SimpleBufferCache.TryReadLock | simple_buffer_cache.cpp:430-457 | Readers share, a writer excludes |
| BufferCache.SimpleBufferCache.TryWriteLock | simple_buffer_cache.cpp:459-481 | A writer needs a free slot |
| BufferCache.SimpleBufferCache.ContentIsView | simple_buffer_cache.cpp:130-182 | A device buffer agrees with the view of memory on its chunk, in every mode but the transient one |
| BufferCache.SimpleBufferCache.Read | simple_buffer_cache.cpp:290-378 | Afterwards the host has the viewed value of the chunk; no view changes, and no other host cell |
| BufferCache.SimpleBufferCache.EvictCacheSlot | simple_buffer_cache.cpp:380-428 | The slot is empty and no view has changed, because a chunk that may be dirty is written back |
| BufferCache.SimpleBufferCache.WriteAndGet | simple_buffer_cache.cpp:184-288 | Succeeds exactly if the range is valid and a slot is free; then the chunk is in a slot locked for writing, by one holder, no other lock and no view has changed |
| BufferCache.SimpleBufferCache.Get | simple_buffer_cache.cpp:130-182 | Succeeds exactly if the range is valid and the chunk's slot can be locked or a slot is free, and then hands out that slot and changes no other: a cached chunk has one reader more, a fetched one is locked for writing; views stay, locked slots stay, and a refusal changes nothing |
| BufferCache.SimpleBufferCache.NotTwice | simple_buffer_cache.cpp:576-600 | No chunk is in two slots |
| BufferCache.SimpleBufferCache.HeldIsCached | simple_buffer_cache.cpp:483-514 | A chunk that somebody holds is in a slot, so unlocking finds it |
| BufferCache.SimpleBufferCache.Unlock | simple_buffer_cache.cpp:483-541 | Succeeds exactly for a lock that was handed out and not returned, and returns just that one: the slot has one reader less or is free |
| BufferCache.SimpleBufferCache.Store | simple_buffer_cache.cpp:237-248 | A kernel that writes its locked buffer changes the view on that chunk only, whether the buffer is a copy or the host memory itself |
| CacheRuns.LocksAndSlotsAreSafe | simple_buffer_cache.cpp:430-481 | A lock is free if and only if its count is 0, a writer is alone, counts are outstanding holders, slot s belongs to object s/2+1, and no chunk is cached twice |
| CacheRuns.GiveBack | simple_buffer_cache.cpp:483-541 | Every lock that is held can be given back |
| CacheRuns.Serve | simple_buffer_cache.cpp:130-541 | Any sequence of requests, granted or refused, keeps the invariants and all views; a chunk that is locked and not given back stays in its slot, every request to get it is refused while it is locked for writing, and granted while it is locked for reading, which counts one reader more each time |
| CacheRuns.GetTwice | test/buffer_cache.cpp:253-275 | Whoever gets a chunk first has it alone until it is given back, and then readers share it |
| ChunkSchedule.FiresCommute | single_device_scheduler.cpp:283-327 | Kernels on different chunks commute, in memory and in additive accumulators |
| ChunkSchedule.LoopInterchange | single_device_scheduler.cpp:136-220 | All kernels chunk by chunk is kernel after kernel on whole objects, in the order of enqueueing |
| ChunkSchedule.ChunksPartition | single_device_scheduler.cpp:291-296 | Every cell of an object is in exactly one chunk, a short last one included |
| Scheduler.SingleDeviceScheduler.RegisterBuffers | single_device_scheduler.cpp:411-442 | The number of chunks, or -1 if two objects differ in it |
| Scheduler.SingleDeviceScheduler.Register | single_device_scheduler.cpp:110-131 | The common number of rounds, and -1 exactly if the functions do not agree |
| Scheduler.SingleDeviceScheduler.ActivateBuffers | single_device_scheduler.cpp:283-327 | The chunk of an object is locked once, however many functions use it, and a slot is always to be had |
| Scheduler.SingleDeviceScheduler.ChoiceInTurn | simple_buffer_cache.cpp:602-621 | Beside a lock on the chunk before, a chunk gets the first slot of its object if its number is even, and the second one if it is odd |
| Scheduler.SingleDeviceScheduler.BufferInTurn | single_device_scheduler.cpp:133-220 | So every chunk state has the slots whose turn it is, and runs keep it so |
| Scheduler.SingleDeviceScheduler.DeactivateBuffers | single_device_scheduler.cpp:329-356 | Every lock is returned once, the first time an object is deactivated |
| Scheduler.SingleDeviceScheduler.RunRound | single_device_scheduler.cpp:164-219 | A round never fails, runs all functions on its chunk, and adds one chunk state to at most one that is alive |
| Scheduler.SingleDeviceScheduler.Retire | single_device_scheduler.cpp:143-162 | The locks of the oldest chunk state are returned, those of the other one stay |
| Scheduler.SingleDeviceScheduler.RunRounds | single_device_scheduler.cpp:133-220 | With at most two chunk states alive, all rounds succeed, compute the chunk-by-chunk meaning, and keep the slots in turn |
| Scheduler.SingleDeviceScheduler.Run | single_device_scheduler.cpp:108-259 | Returns 1 exactly if the functions agree on the number of chunks; then memory and accumulators are as after running each function on whole objects, and no lock is left; otherwise nothing changed |
| Schedules.SomethingCanComplete | simple_buffer_cache.cpp:257-284 | Whatever has completed, if something is pending then something pending can complete |
| Schedules.EverythingCompletes | simple_buffer_cache.cpp:345-375 | Every partial schedule can be continued until everything has completed: no deadlock |
| Schedules.OrderedIff | simple_buffer_cache.cpp:237-288 | What works on a place completes in the order of creation in every schedule if and only if each of it leads to all that is younger, through queues, wait lists and waits of the host |
| Schedules.AsCreated | single_device_scheduler.cpp:133-259 | A complete schedule that keeps the order of creation at every place leaves the memory that the order of creation leaves, whatever the commands do to their places |
| Commands.Recorder.Get | simple_buffer_cache.cpp:184-288 | Creates nothing for a cached chunk; otherwise writes back what a written object has in the slot, and fills the slot, with these wait lists |
| Commands.Recorder.Run | single_device_scheduler.cpp:133-220 | A run, chunk by chunk and function by function, records the log that `RunLog` gives, and leaves in the slots what it says |
| Commands.RunIsSound | single_device_scheduler.cpp:133-220 | In the log of every run the kernels are in the order (chunk, function), each waiting for the one before, on the two queues in turn; everything works on slots and chunks whose turn it is on its queue; every kernel finds its chunks in its slots; and every copy task is waited for |
| HandingOver.RunHandsOn | simple_buffer_cache.cpp:184-428 | In the log of every run a transfer from a slot is followed by a task that waits for it and copies to just the chunk of the host that was loaded there; a transfer to a slot waits for the task that copied its chunk; and what may have been written is read back, after the last kernel, before something else is loaded |
| RunMeaning.FetchShows | simple_buffer_cache.cpp:184-288 | Fetching a chunk, with or without a write-back, changes nothing of what host and device buffers show of the objects, and leaves the chunk in its slot |
| RunMeaning.RunShows | single_device_scheduler.cpp:133-220 | The commands of a run, done to the contents of host, staging and device buffers, leave in them what the functions do to whole objects, chunk by chunk, whatever the functions compute and the slots held before |
| Commands.KernelsCompleteInOrder | single_device_scheduler.cpp:193-216 | In every schedule that respects wait lists, queues and I/O threads the kernels complete in total (chunk, function) order |
| Commands.DeviceInOrder | single_device_scheduler.cpp:133-220 | In every schedule all kernels and transfers that work on one slot complete in the order of creation, because a slot takes its turn on one queue |
| Commands.InputsAreInPlace | simple_buffer_cache.cpp:237-288 | In every schedule a kernel that completes finds its chunk of each object in the slot: its transfer and copy task have completed, or it was there from the start; no transfer of a later chunk has |
| StagingBuffers.WrittenBackInOrder | simple_buffer_cache.cpp:345-375 | In every run, all that works on the staging buffer of an object that is written back is in order, through the barrier of the write-back |
| StagingBuffers.PointsStayInOrder | kmeans_three_stage_buffered.hpp:209-337 | In every run of a pipeline the staging buffers of the points are in order, because the labels are fetched after the points |
| StagingBuffers.PipelineAlwaysInOrder | single_device_scheduler.cpp:133-220 | In every schedule of a run of a pipeline all staging buffers complete their work in the order of creation |
| StagingBuffers.PipelineKernelsWait | single_device_scheduler.cpp:164-216 | In every run of a pipeline each kernel waits for what was created right before it: the transfer of the labels of its chunk, or the kernel before |
| StagingBuffers.NextRunIsSettled | kmeans_three_stage_buffered.hpp:136-339 | What one run leaves in the slots suits the next one, and so does an empty cache |
| StagingBuffers.OneObjectInOrderIff | simple_buffer_cache.cpp:380-428 | For a function of one object the staging buffers are in order in all schedules if and only if the object is not read only or has at most two chunks |
| IoThread.ExecutedIsPrefix | simple_buffer_cache.cpp:646-661 | In every reachable state the executed tasks are a prefix of the pushed ones, so they are in order and each is once |
| IoThread.FlagNeverSeen | simple_buffer_cache.cpp:673-704 | Nobody who acquires the mutex finds the flag set, and no pusher ever sleeps |
| IoThread.JoinReturnsLast | simple_buffer_cache.cpp:640-661 | When join has returned, exactly the tasks pushed before the first sentinel have been executed |
| IoThread.RestsOnlyWhenDone | simple_buffer_cache.cpp:673-704 | No wake-up is lost: threads come to rest only when all pushes and joins are done and the worker has ended or has nothing to do |
| PartitionMatrix.PartitionMatrix | buffer_helper.cpp:16-87 | Refuses dimensions that do not divide, changing nothing; otherwise every cell of every buffer is the right cell of the source, nothing beyond is written, and the number of buffers is returned |
| PartitionMatrix.CellInside | buffer_helper.cpp:61-82 | All reads and writes are in bounds, and a buffer's cells stay inside the buffer |
| PartitionMatrix.CellsAreDistinct | buffer_helper.cpp:78-82 | No two copies read or write the same cell |
| PartitionMatrix.SourceIsCell | buffer_helper.cpp:58-84 | Every source cell goes to some buffer |
| PartitionMatrix.DestIsCell | buffer_helper.cpp:58-84 | Every destination cell is written |
| PartitionMatrix.PartitionIsBijective | buffer_helper.cpp:58-84 | Source and partition determine each other, so the reverse gather inverts it |
| PartitionMatrix.ChunksAlign | kmeans_three_stage_buffered.hpp:209-219 | Chunk i of the points and chunk i of the labels are about the same points, and there are equally many of both |
| ChunkwiseLloyd.TileOfPoints | buffer_helper.cpp:58-84 | A buffer is a column-major tile of consecutive points |
| ChunkwiseLloyd.LabelsOfBuffer | kmeans_three_stage_buffered.hpp:153-207 | Labelling a buffer gives the run of the labels of the whole that belongs to it |
| ChunkwiseLloyd.SumsOfBuffer | kmeans_three_stage_buffered.hpp:269-325 | The feature sums of a buffer are what the sums of all points grow by |
| ChunkwiseLloyd.LabelingOfAll | kmeans_three_stage_buffered.hpp:209-219 | A labelling stage that is right on the buffer lengths that occur stores one assignment step of the unpartitioned points |
| ChunkwiseLloyd.MassesOfAll | kmeans_three_stage_buffered.hpp:259-267 | Such a mass stage over all buffers accumulates the counts of the whole |
| ChunkwiseLloyd.SumsOfAll | kmeans_three_stage_buffered.hpp:327-337 | Such a centroid stage over all buffers accumulates the feature sums of the whole |
| ChunkwiseLloyd.FusedOfAll | kmeans_single_stage_buffered.hpp:155-228 | Such a fused stage over all buffers does all three |
| PipelineOrder.TiedIff | kmeans_three_stage_buffered.hpp:136-352 | The commands of all iterations on masses, sums and centroids complete in the order of creation in every schedule if and only if the host uses the scheduler's first queue or the functions wait for events of the host by which the buffers are ready |
| PipelineOrder.OrderedEverywhere | kmeans_three_stage_buffered.hpp:136-352 | Then so does everything at slots, staging buffers and chunks of the host |
| PipelineOrder.InOrderIff | kmeans_three_stage_buffered.hpp:136-352 | Everything at every place is in order in every schedule if and only if the pipeline is tied |
| PipelineOrder.AsTheProgramSays | kmeans_three_stage_buffered.hpp:136-352 | Every complete schedule of a tied pipeline leaves the memory that its commands leave one after the other, as the program enqueues them |
| PipelineMeaning.PipelineShows | kmeans_three_stage_buffered.hpp:133-355 | In the order of the program the buffers show what the iterations do to whole objects and accumulators: clearing, all functions on all chunks, dividing |
| PipelineMeaning.EveryScheduleShows | kmeans_three_stage_buffered.hpp:133-355 | And so they do after every complete schedule of a pipeline that is tied to the host |
| PipelineOrder.NotTiedAsWritten | kmeans_single_stage_buffered.hpp:138-244 | As they are written, neither pipeline is tied |
| PipelineOrder.OneEventTies | kmeans_three_stage_buffered.hpp:144-219 | Both would be if their first function waited for the clearing of the sums |
| LostCounts.CountsMayBeLost | kmeans_three_stage_buffered.hpp:136-339 | As they are written, a permitted schedule of any first iteration clears the masses when all kernels are through: counts that are positive in the order of the program are zero in that one |
| KmeansBuffered.PipelinesInOrder | kmeans_three_stage_buffered.hpp:209-352 | For both pipelines and every job with points: everything at every place is in the order of the program in every schedule if and only if the pipeline is tied |
| KmeansBuffered.RunStages | kmeans_three_stage_buffered.hpp:136-339 | In the order of the program, zeroing, enqueueing and running leave the new labels in the cache's view and masses and sums in the accumulators |
| KmeansBuffered.RunIteration | kmeans_three_stage_buffered.hpp:133-355 | In the order of the program, an iteration leaves labels, masses and means of one more iteration of the specification |
| RowDivision.DivideRows | kmeans_three_stage_buffered.hpp:341-352 | Row division in place turns sums and masses into the means, dead where a cluster is empty |
| RowDivision.OutcomeIsUnique | kmeans_three_stage.hpp:117-242 | Labels, masses and centroids of an outcome are determined by points, start and number of iterations |
| KmeansBuffered.ReadBack | kmeans_three_stage_buffered.hpp:383-412 | Reading all chunks back gives the host all labels |
| KmeansBuffered.RunThreeStages | kmeans_three_stage_buffered.hpp:60-415 | With stages that are right on the lengths that occur, and tied to the host (`Tied`), labels, masses and centroids are those of as many iterations on the unpartitioned points; no iterations leave labels and centroids as they were |
| KmeansBuffered.RunSingleStage | kmeans_single_stage_buffered.hpp:120-304 | The same for the pipeline with one fused stage, if it is tied |
| LaunchedStages.LabelChunk | kmeans_three_stage_buffered.hpp:153-207 | On every buffer the labelling kernel computes the labelling stage of its launch, whichever points it takes |
| LaunchedStages.CountChunk | kmeans_three_stage_buffered.hpp:221-257 | The same for the mass kernels |
| LaunchedStages.SumChunk | kmeans_three_stage_buffered.hpp:269-325 | The same for the centroid kernels |
| LaunchedStages.FusedChunk | kmeans_single_stage_buffered.hpp:155-228 | The same for the fused kernels: cluster merge, and feature sum with local memory or without it |
| LaunchedStages.GlobalTakesAllIff | kmeans_three_stage_buffered.hpp:209-219 | Loops over the whole launch take all points of all buffers if and only if the vector length divides the full buffers, if there are any, and the last one |
| LaunchedStages.LocalTakesIff | cl_kernels/lloyd_labeling_vp_clcp.cl:82-99 | Loops over blocks take all points of a buffer if and only if its points are whole vectors and the blocks reach the end |
| LaunchedPipelines.RunThreeLaunches | kmeans_three_stage_buffered.hpp:60-415 | The pipeline with launches that take all points, if it is tied to the host, gives the iterations on the unpartitioned points, with any of the mass and centroid kernels |
| LaunchedPipelines.RunFusedLaunches | kmeans_single_stage_buffered.hpp:120-304 | The same with any of the fused kernels |
| LaunchedPipelines.IteratesIff | kmeans_three_stage_buffered.hpp:136-339 | An iteration of launches is right for all points, labels and centroids of a layout if and only if every launch takes all points of every buffer |
| LaunchedPipelines.FusedIteratesIff | kmeans_single_stage_buffered.hpp:120-228 | The same for any of the fused kernels |
| LaunchedPipelines.LastBufferMayBeLeft | kmeans_three_stage_buffered.hpp:209-219 | A launch that takes all points of a full buffer and leaves out those of a shorter last one |
| KmeansThreeStage.BufferMap.constructor | kmeans_three_stage.hpp:340-511 | Buffers of two phases are one and the same exactly if their queues are equal |
| KmeansThreeStage.BufferMap.SyncCentroids | kmeans_three_stage.hpp:571-621 | The labelling device has the centroids of the update device |
| KmeansThreeStage.BufferMap.SyncLabels | kmeans_three_stage.hpp:623-724 | All devices have the labels of the labelling device, for every pattern of shared queues |
| KmeansThreeStage.BufferMap.SyncMasses | kmeans_three_stage.hpp:726-738 | The update device has the masses |
| KmeansThreeStage.Iteration | kmeans_three_stage.hpp:119-219 | One iteration, from any combination of kernels and reductions, leaves labels, masses and means where the next one looks for them |
| KmeansThreeStage.Run | kmeans_three_stage.hpp:100-243 | A whole run gives the iterations of the specification for every pattern of queues and every combination of kernels that reads all features, started from the initializer's centroids only if labelling and centroid update share a queue |
| KmeansThreeStage.RunsAgree | kmeans_three_stage.hpp:117-242 | Placement is transparent: runs that differ in queues and launch shapes agree, unless an initializer meets different sharing of labelling and centroid update |
| ThreeQueues.InOrderIff | kmeans_three_stage.hpp:117-219 | The commands of all iterations, at every buffer, complete in the order of the program in every schedule if and only if the three stages share one queue |
| KmeansThreeStage.InitializerMayBeLost | kmeans_three_stage.hpp:571-621 | Two points and two starts with different labels: sharing a queue or not decides which start counts |

## Left out

- Floating-point rounding, infinities, and NaN beyond dead centres: numbers are exact.
- Overflow of 32-bit and 64-bit integers, and the wrap-around of NUM_POINTS - VEC_LEN + 1 when there are fewer than VEC_LEN - 1 points, which the kernels' loops are required not to meet.
- Points without coordinates: a distance is then 0 even to an empty cluster; the number of features is at least 1.
- OpenCL itself: contexts, programs, kernel arguments, device selection, memory fences, profiling. Queues, wait lists and work-groups are kept as what they guarantee.
- KmeansThreeStage.Iteration: its steps take effect in the order of the program, which all schedules keep only on one queue (`ThreeQueues.InOrderIff`).
- KmeansThreeStage.Run: the same.
- KmeansThreeStage.RunsAgree: the same.
- ThreeQueues.InOrderIff: is about devices that are no CPUs; on a CPU buffers are mapped for copying.
- Empty events in wait lists count as completed.
- BufferCache.SimpleBufferCache.ContentIsView: says nothing about transient objects, whose buffers hold whatever was there; they are part of the lock and slot invariants.
- BufferCache.SimpleBufferCache.AddObject: asks for two slots for every object; the code takes any number of objects and would look for their slots behind the last one.
- BufferCache.SimpleBufferCache.Read: takes ranges of one object that are whole chunks, as the scheduler and the pipelines ask for them; the code cuts an object at any address.
- BufferCache.SimpleBufferCache.Get: takes whole chunks only, as above.
- BufferCache.SimpleBufferCache.WriteAndGet: takes whole chunks only, and only on a miss, which is how it is reached.
- Scheduler.SingleDeviceScheduler.Register: leaves out queues that mix functions on empty objects with others: a count of 0 passes for a barrier and is skipped.
- Scheduler.SingleDeviceScheduler.Run: leaves out the same queues, since get then answers 0 without a buffer and the kernel takes the front of an empty list; transient objects, whose kernels have no defined input; and binary functions with one object twice.
- Commands.Recorder.Get: records the commands of a device that is no CPU; on a CPU the buffers are the host memory and there are no transfers.
- Commands.Recorder.Run: the same.
- KmeansBuffered.RunThreeStages: promises nothing when the pipeline is not tied, as it is not when written (`NotTiedAsWritten`); `PipelinesInOrder` is why.
- KmeansBuffered.RunSingleStage: the same.
- LaunchedPipelines.RunThreeLaunches: the same.
- LaunchedPipelines.RunFusedLaunches: the same.
- RunMeaning.RunShows: is about objects that are no transient ones, whose buffers hold whatever was there, and gives every buffer one value.
- StagingBuffers.PipelineKernelsWait: is about pipelines; elsewhere a kernel need not wait for the transfer of its first object when the second one is cached, and only comes after it because both are on one queue.
- Several devices in one cache, and device look-up: there is one device.
- FusedFeatureSum.LaunchFusedFeatureSum: has global strides and local memory; the forms without local memory are in `FusedGlobalMemory`, for single points.
- FusedGlobalMemory.UpdateFusedGlobal: has vectors of single points; with longer ones the form without local memory does not sum what it labels (`PositionsAgreeIff`), and what it computes then is not modelled.
- FusedLocalStride.Launch: says which points the rounds with local strides take and how often, for all vector lengths; labels and sums are those of `FusedGlobalMemory`.
- Stages.UpdateFused: asks for a kernel that reads all features.
- FusedFeatureSum.UpdateFusedFeatureSum: the same, and for a local size that divides the number of features or is divided by it, without which the buffers do not fit (`HostSizesMatchIff`).
- Stages.UpdateByParDim: takes the launch as given; `UpdateFeatureSumPardim` derives it.
- Kernels.SumMasses: writes its tile in global memory; the copy in local memory is left out.
- Kernels.SumFeatures: the same for the tiles of lloyd_cluster_merge and lloyd_feature_sum_pardim.
- Stages.ParDimItem: the same.
- Kernels.FusedLoop: the same for points and tiles of lloyd_fused_cluster_merge.
- Stages.LaunchHistogramPartPrivate: the same for histogram_part_private.
- lloyd_feature_sum_sequential_v, which leaves out the points behind the last whole vector of a block.
- KmeansThreeStage.BufferMap.SyncCentroids: copies; the mapped copy on CPU devices is left out.
- KmeansThreeStage.BufferMap.SyncLabels: the same.
- shrink_centroids and shrink_masses: host buffers have their final sizes.
- The cle:: interfaces, kmeans_gpu_assisted, benchmarks, configuration, timers, csv and image files, cluster generation: plumbing, or superseded.
