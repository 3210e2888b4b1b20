/** Lloyd's iteration over points that were cut into buffers: labelling, counting and adding up buffer by buffer gives
    the labels, masses and sums of the whole. */
module ChunkwiseLloyd {
  import opened Clustering
  import opened ColumnMajor
  import opened Indices
  import opened BufferCache
  import opened ChunkSchedule
  import opened PartitionMatrix

  function Coordinates(x: seq<real>): (w: seq<Word>)
    ensures |w| == |x| && forall i :: 0 <= i < |x| ==> w[i] == Coordinate(x[i])
  {
    seq(|x|, i requires 0 <= i < |x| => Coordinate(x[i]))
  }

  function LabelWords(lab: seq<int>): (w: seq<Word>)
    ensures |w| == |lab| && forall i :: 0 <= i < |lab| ==> w[i] == Label(lab[i])
  {
    seq(|lab|, i requires 0 <= i < |lab| => Label(lab[i]))
  }

  function Zeros(n: nat): (r: seq<real>)
    ensures |r| == n && forall i :: 0 <= i < n ==> r[i] == 0.0
  {
    seq(n, i => 0.0)
  }

  ghost function Masses(lab: seq<int>, k: nat): (r: seq<real>)
    ensures |r| == k && forall c :: 0 <= c < k ==> r[c] == Count(lab, c, |lab|) as real
  {
    seq(k, c => Count(lab, c, |lab|) as real)
  }

  /** The feature sums of m points x, a column-major k x p matrix. */
  ghost function SumsOf(x: seq<real>, lab: seq<int>, k: nat, p: nat): (r: seq<real>)
    requires k > 0
    ensures k * p >= 0 && |r| == k * p
  {
    Product(k, p);
    seq(k * p, t requires 0 <= t < k * p => SumAt(x, lab, k, p, t, |lab|))
  }

  /** Cell t of the feature sums of the first m points. */
  ghost function SumAt(x: seq<real>, lab: seq<int>, k: nat, p: nat, t: nat, m: nat): real
    requires k > 0 && m <= |lab|
  {
    if t / k < p then Total(Rows(x, |lab|, p), lab, t % k, t / k, m) else 0.0
  }

  // ---------- what the stages promise ----------

  /** A function of a buffer of points and the buffer of their labels leaves the points alone. */
  ghost predicate KeepsPoints(r: Kernel) {
    forall contents: seq<seq<Word>> :: |contents| == 2 ==>
      && |r(contents).0| == 2 && r(contents).0[0] == contents[0] && |r(contents).0[1]| == |contents[1]|
  }

  /** The lengths of the buffers: that of a full one, if there is one, and that of the last one, if it is cut short. */
  predicate Occurs(l: Layout, m: nat)
    requires l.Valid()
  {
    m > 0 && ((m == l.bufdim && l.bufdim <= l.dim) || m == l.dim % l.bufdim)
  }

  /** The labelling stage: in a buffer of the job, every point takes the label of its nearest centroid. */
  ghost predicate IsLabeling(r: Kernel, cs: seq<Center>, l: Layout)
    requires l.Valid() && Centers(cs, l.dims)
  {
    && KeepsPoints(r)
    && forall x: seq<real>, was: seq<Word> :: Occurs(l, |was|) && |x| == |was| * l.dims && HasLive(cs) ==>
         r([Coordinates(x), was]) == ([Coordinates(x), LabelWords(Assign(Rows(x, |was|, l.dims), cs, l.dims))], [])
  }

  /** The mass stage: counts the labels of a buffer, and adds the counts to the first k accumulators. */
  ghost predicate IsMassUpdate(r: Kernel, l: Layout, k: nat)
    requires l.Valid()
  {
    && (forall contents: seq<seq<Word>> :: |contents| == 1 ==> r(contents).0 == contents)
    && forall lab: seq<int> :: Occurs(l, |lab|) && Labels(lab, k) ==>
         r([LabelWords(lab)]) == ([LabelWords(lab)], Masses(lab, k))
  }

  /** The centroid stage: adds the points of every cluster to the accumulators behind the masses. */
  ghost predicate IsCentroidUpdate(r: Kernel, l: Layout, k: nat)
    requires l.Valid() && k > 0
  {
    && KeepsPoints(r)
    && forall x: seq<real>, lab: seq<int> :: Occurs(l, |lab|) && |x| == |lab| * l.dims && Labels(lab, k) ==>
         r([Coordinates(x), LabelWords(lab)])
         == ([Coordinates(x), LabelWords(lab)], Zeros(k) + SumsOf(x, lab, k, l.dims))
  }

  /** The fused stage does all of it. */
  ghost predicate IsFused(r: Kernel, cs: seq<Center>, l: Layout, k: nat)
    requires l.Valid() && Centers(cs, l.dims) && k > 0
  {
    && KeepsPoints(r)
    && forall x: seq<real>, was: seq<Word> :: Occurs(l, |was|) && |x| == |was| * l.dims && HasLive(cs) ==>
         var lab := Assign(Rows(x, |was|, l.dims), cs, l.dims);
         r([Coordinates(x), was]) == ([Coordinates(x), LabelWords(lab)], Masses(lab, k) + SumsOf(x, lab, k, l.dims))
  }

  // ---------- one buffer ----------

  /** Points before buffer b. */
  function Before(l: Layout, b: nat): nat {
    if l.bufdim * b < l.dim then l.bufdim * b else l.dim
  }

  /** Buffer b of the partitioned points. */
  ghost function BufferOf(l: Layout, dst: seq<real>, b: nat): (x: seq<real>)
    requires l.Valid() && |dst| == l.Size() && l.bufdim * b < l.dim
    ensures |x| == l.Real(b) * l.dims
  {
    BufferInside(l, b);
    Product(l.BufferSize(), b);
    dst[l.BufferSize() * b..l.BufferSize() * b + l.dims * l.Real(b)]
  }

  /** A buffer is a column-major tile of consecutive points. */
  lemma TileOfPoints(l: Layout, src: seq<real>, dst: seq<real>, b: nat, r: nat)
    requires l.Valid() && IsPartition(l, src, dst) && l.bufdim * b < l.dim && r < l.Real(b)
    ensures l.bufdim * b + r < l.dim
    ensures Rows(BufferOf(l, dst, b), l.Real(b), l.dims)[r] == Rows(src, l.dim, l.dims)[l.bufdim * b + r]
  {
    Distribute(l.bufdim, b, 1);
    var tile, m := BufferOf(l, dst, b), l.Real(b);
    var left, right := Rows(tile, m, l.dims)[r], Rows(src, l.dim, l.dims)[l.bufdim * b + r];
    forall c | 0 <= c < l.dims
      ensures left[c] == right[c]
    {
      TileCell(l, src, dst, b, r, c);
    }
  }

  lemma TileCell(l: Layout, src: seq<real>, dst: seq<real>, b: nat, r: nat, c: nat)
    requires l.Valid() && IsPartition(l, src, dst) && l.bufdim * b < l.dim && r < l.Real(b) && c < l.dims
    ensures At(BufferOf(l, dst, b), r + l.Real(b) * c) == At(src, l.bufdim * b + r + l.dim * c)
  {
    CellMoved(l, src, dst, b, r, c);
    hide IsPartition, BufferOf;
    InMatrix(r, c, l.Real(b), l.dims);
    InBuffer(l, dst, b, r + l.Real(b) * c);
  }

  lemma CellMoved(l: Layout, src: seq<real>, dst: seq<real>, b: nat, r: nat, c: nat)
    requires l.Valid() && IsPartition(l, src, dst) && l.bufdim * b < l.dim && r < l.Real(b) && c < l.dims
    ensures At(dst, l.BufferSize() * b + (r + l.Real(b) * c)) == At(src, l.bufdim * b + r + l.dim * c)
  {
    CellInside(l, b, c, r);
    assert IsCell(l, b, c, r);
    assert dst[Dest(l, b, c, r)] == src[Source(l, b, c, r)];
  }

  lemma InBuffer(l: Layout, dst: seq<real>, b: nat, i: nat)
    requires l.Valid() && |dst| == l.Size() && l.bufdim * b < l.dim && i < l.Real(b) * l.dims
    ensures At(BufferOf(l, dst, b), i) == At(dst, l.BufferSize() * b + i)
  {
    BufferInside(l, b);
    Product(l.BufferSize(), b);
  }

  /** The labels of a buffer are a run of the labels of all points. */
  lemma LabelsOfBuffer(l: Layout, src: seq<real>, dst: seq<real>, b: nat, cs: seq<Center>)
    requires l.Valid() && IsPartition(l, src, dst) && l.bufdim * b < l.dim && Centers(cs, l.dims)
    ensures var lab := Assign(Rows(src, l.dim, l.dims), cs, l.dims);
            && Before(l, b) == l.bufdim * b && Before(l, b + 1) == l.bufdim * b + l.Real(b) <= l.dim
            && Assign(Rows(BufferOf(l, dst, b), l.Real(b), l.dims), cs, l.dims) == lab[Before(l, b)..Before(l, b + 1)]
  {
    hide Nearest;
    Distribute(l.bufdim, b, 1);
    var lab := Assign(Rows(src, l.dim, l.dims), cs, l.dims);
    var tile := Rows(BufferOf(l, dst, b), l.Real(b), l.dims);
    forall r | 0 <= r < l.Real(b)
      ensures Assign(tile, cs, l.dims)[r] == lab[Before(l, b) + r]
    {
      TileOfPoints(l, src, dst, b, r);
    }
    assert Assign(tile, cs, l.dims) == lab[Before(l, b)..Before(l, b + 1)];
  }

  // ---------- sums over buffers ----------

  lemma {:induction false} CountOfRun(lab: seq<int>, c: int, a: nat, m: nat)
    requires a + m <= |lab|
    ensures Count(lab, c, a + m) == Count(lab, c, a) + Count(lab[a..a + m], c, m)
  {
    if m > 0 {
      CountOfRun(lab, c, a, m - 1);
      CountOfPrefix(lab[a..a + m], lab[a..a + (m - 1)], c, m - 1);
    }
  }

  lemma {:induction false} CountOfPrefix(lab: seq<int>, lab': seq<int>, c: int, m: nat)
    requires m <= |lab| && m <= |lab'| && lab[..m] == lab'[..m]
    ensures Count(lab, c, m) == Count(lab', c, m)
  {
    if m > 0 {
      assert lab[m - 1] == lab[..m][m - 1] == lab'[..m][m - 1] == lab'[m - 1];
      assert lab[..m - 1] == lab[..m][..m - 1] == lab'[..m][..m - 1] == lab'[..m - 1];
      CountOfPrefix(lab, lab', c, m - 1);
    }
  }

  /** Totals of a run of points, which are the points of a buffer. */
  lemma {:induction false} TotalOfRun(pts: seq<Vec>, lab: seq<int>, part: seq<Vec>, run: seq<int>, j: int, c: nat,
                                      p: nat, a: nat, m: nat)
    requires Points(pts, p) && Points(part, p) && |lab| == |pts| && |run| == |part| && c < p
    requires a + m <= |lab| && m <= |part|
    requires forall r :: 0 <= r < m ==> part[r] == pts[a + r] && run[r] == lab[a + r]
    ensures Total(pts, lab, j, c, a + m) == Total(pts, lab, j, c, a) + Total(part, run, j, c, m)
  {
    if m > 0 {
      TotalOfRun(pts, lab, part, run, j, c, p, a, m - 1);
      assert part[m - 1] == pts[a + (m - 1)] && run[m - 1] == lab[a + (m - 1)];
    }
  }

  /** The sums of a buffer are what the sums of all points grow by. */
  lemma SumsOfBuffer(l: Layout, src: seq<real>, dst: seq<real>, b: nat, lab: seq<int>, k: nat, t: nat)
    requires l.Valid() && IsPartition(l, src, dst) && l.bufdim * b < l.dim && |lab| == l.dim && k > 0 && t < k * l.dims
    ensures Before(l, b) <= Before(l, b + 1) == Before(l, b) + l.Real(b) <= |lab|
    ensures var run := lab[Before(l, b)..Before(l, b + 1)];
            SumAt(src, lab, k, l.dims, t, Before(l, b + 1)) ==
            SumAt(src, lab, k, l.dims, t, Before(l, b)) + SumsOf(BufferOf(l, dst, b), run, k, l.dims)[t]
  {
    hide Total, BufferOf;
    Distribute(l.bufdim, b, 1);
    CellSplit(t, k, l.dims);
    var run, m := lab[Before(l, b)..Before(l, b + 1)], l.Real(b);
    var part, pts := Rows(BufferOf(l, dst, b), m, l.dims), Rows(src, l.dim, l.dims);
    forall r | 0 <= r < m
      ensures part[r] == pts[Before(l, b) + r]
    {
      TileOfPoints(l, src, dst, b, r);
    }
    TotalOfRun(pts, lab, part, run, t % k, t / k, l.dims, Before(l, b), m);
  }

  // ---------- one function on one buffer ----------

  /** The job: n = l.dim points src with l.dims features, cut into dst, and k clusters. */
  datatype Job = Job(l: Layout, src: seq<real>, dst: seq<real>, k: nat) {
    ghost predicate Valid() {
      l.Valid() && IsPartition(l, src, dst) && k > 0
    }

    /** Object 1 holds the partitioned points, object 2 the labels. */
    ghost function Sizes(): seq<nat> {
      [0, l.Size(), l.dim]
    }

    ghost function Steps(): seq<nat> {
      [1, l.BufferSize(), l.bufdim]
    }

    function PointsAndLabels(): seq<Use> {
      [Use(1, l.BufferSize()), Use(2, l.bufdim)]
    }

    function LabelsOnly(): seq<Use> {
      [Use(2, l.bufdim)]
    }

    ghost function Points(): seq<Vec> {
      Rows(src, l.dim, l.dims)
    }
  }

  /** The memory of the job with these labels. */
  function Memory(j: Job, labels: seq<Word>): seq<seq<Word>> {
    [[], Coordinates(j.dst), labels]
  }

  lemma JobShapes(j: Job, labels: seq<Word>)
    requires j.Valid() && |labels| == j.l.dim
    ensures Shapes(Memory(j, labels), j.Sizes()) && GoodUses(j.PointsAndLabels(), j.Sizes(), j.Steps())
    ensures GoodUses(j.LabelsOnly(), j.Sizes(), j.Steps())
  {
    Monotone(1, j.l.bufdim, j.l.dims);
  }

  lemma LengthOccurs(l: Layout, b: nat)
    requires l.Valid() && l.bufdim * b < l.dim
    ensures Occurs(l, l.Real(b))
  {
    Distribute(l.bufdim, b, 1);
    Product(l.bufdim, b);
    if l.bufdim * (b + 1) > l.dim {
      DivMod(l.bufdim, b, l.dim - l.bufdim * b);
    } else {
      Monotone(1, b + 1, l.bufdim);
    }
  }

  /** Every such length is that of a buffer. */
  lemma BufferOfLength(l: Layout, m: nat) returns (b: nat)
    requires l.Valid() && Occurs(l, m)
    ensures b < NumChunks(l.dim, l.bufdim) && 0 <= l.bufdim * b < l.dim && m == l.Real(b)
  {
    Split(l.dim, l.bufdim);
    Split(l.dim + l.bufdim - 1, l.bufdim);
    b := if m == l.dim % l.bufdim then l.dim / l.bufdim else 0;
    Product(l.bufdim, b);
    Distribute(l.bufdim, b, 1);
    if b >= NumChunks(l.dim, l.bufdim) {
      Monotone(NumChunks(l.dim, l.bufdim), b, l.bufdim);
      assert false;
    }
  }

  /** What the functions find in the buffers with index b. */
  lemma BuffersOf(j: Job, labels: seq<Word>, b: nat)
    requires j.Valid() && |labels| == j.l.dim && b < NumChunks(j.l.dim, j.l.bufdim)
    ensures var l, mem := j.l, Memory(j, labels);
            && 0 <= l.bufdim * b < l.dim && Before(l, b) == l.bufdim * b
            && Before(l, b + 1) == l.bufdim * b + l.Real(b) <= l.dim && Occurs(l, l.Real(b))
            && Cut(mem, Use(1, l.BufferSize()), b) == Coordinates(BufferOf(l, j.dst, b))
            && Cut(mem, Use(2, l.bufdim), b) == labels[Before(l, b)..Before(l, b + 1)]
  {
    hide IsPartition;
    var l := j.l;
    ChunksAlign(l, b);
    LengthOccurs(l, b);
    Product(l.bufdim, b);
    Product(l.BufferSize(), b);
    BufferInside(l, b);
    Distribute(l.bufdim, b, 1);
    assert |j.dst| == l.Size() by {
      SizeOfPartition(j);
    }
    SliceOfCoordinates(j.dst, l.BufferSize() * b, l.BufferSize() * b + l.dims * l.Real(b));
  }

  lemma SizeOfPartition(j: Job)
    requires j.Valid()
    ensures |j.dst| == |j.src| == j.l.Size()
  {
  }

  lemma SliceOfCoordinates(x: seq<real>, a: nat, b: nat)
    requires a <= b <= |x|
    ensures Coordinates(x)[a..b] == Coordinates(x[a..b])
  {
  }

  /** One function of points and labels on the buffers with index b. */
  lemma FireBoth(j: Job, r: Runnable, b: nat, s: Plain, labels: seq<Word>, out: seq<Word>, add: seq<real>)
    requires j.Valid() && |labels| == j.l.dim && b < NumChunks(j.l.dim, j.l.bufdim) && s.mem == Memory(j, labels)
    requires Ready(r, j.Sizes(), j.Steps()) && r.uses == j.PointsAndLabels() && Shapes(s.mem, j.Sizes())
    requires 0 <= j.l.bufdim * b < j.l.dim && Before(j.l, b) <= Before(j.l, b + 1) <= j.l.dim
    requires r.kernel([Coordinates(BufferOf(j.l, j.dst, b)), labels[Before(j.l, b)..Before(j.l, b + 1)]])
             == ([Coordinates(BufferOf(j.l, j.dst, b)), out], add)
    ensures Fire(r, b, s, j.Sizes(), j.Steps()) ==
            Plain(Memory(j, Overlay(labels, Before(j.l, b), out)), Plus(s.acc, add))
  {
    hide IsPartition, KeepsLengths, Cut, BufferOf, Coordinates, Plus;
    BuffersOf(j, labels, b);
    SizeOfPartition(j);
    var tile := Coordinates(BufferOf(j.l, j.dst, b));
    assert Inputs(s.mem, r.uses, b) == [tile, labels[Before(j.l, b)..Before(j.l, b + 1)]];
    var first := Put(s.mem, r.uses[0], b, tile);
    PointsStay(j, labels, b);
    assert PutAll(s.mem, r.uses, b, [tile, out], 1) == first == s.mem;
    assert PutAll(s.mem, r.uses, b, [tile, out], 2) == Put(s.mem, r.uses[1], b, out);
  }

  /** Writing back what was read changes nothing. */
  lemma PointsStay(j: Job, labels: seq<Word>, b: nat)
    requires j.Valid() && |labels| == j.l.dim && b < NumChunks(j.l.dim, j.l.bufdim) && 0 <= j.l.bufdim * b < j.l.dim
    ensures Put(Memory(j, labels), Use(1, j.l.BufferSize()), b, Coordinates(BufferOf(j.l, j.dst, b))) ==
            Memory(j, labels)
  {
    hide IsPartition;
    SizeOfPartition(j);
    BufferInside(j.l, b);
    Product(j.l.BufferSize(), b);
    var m, tile := Coordinates(j.dst), Coordinates(BufferOf(j.l, j.dst, b));
    assert Overlay(m, j.l.BufferSize() * b, tile) == m;
  }

  /** One function of the labels only. */
  lemma FireLabels(j: Job, r: Runnable, b: nat, s: Plain, labels: seq<Word>, add: seq<real>)
    requires j.Valid() && |labels| == j.l.dim && b < NumChunks(j.l.dim, j.l.bufdim) && s.mem == Memory(j, labels)
    requires Ready(r, j.Sizes(), j.Steps()) && r.uses == j.LabelsOnly() && Shapes(s.mem, j.Sizes())
    requires Before(j.l, b) <= Before(j.l, b + 1) <= j.l.dim
    requires var run := labels[Before(j.l, b)..Before(j.l, b + 1)];
             r.kernel([run]) == ([run], add)
    ensures Fire(r, b, s, j.Sizes(), j.Steps()) == Plain(s.mem, Plus(s.acc, add))
  {
    hide IsPartition, KeepsLengths, Cut, BufferOf, Plus;
    BuffersOf(j, labels, b);
    var run := labels[Before(j.l, b)..Before(j.l, b + 1)];
    assert Inputs(s.mem, r.uses, b) == [run];
    assert Overlay(labels, Before(j.l, b), run) == labels;
    assert PutAll(s.mem, r.uses, b, [run], 1) == Put(s.mem, r.uses[0], b, run) == s.mem;
  }

  // ---------- one function on all buffers ----------

  /** Labels of the first m points new, the others as they were. */
  ghost function Relabelled(labels: seq<Word>, lab: seq<int>, m: nat): (r: seq<Word>)
    requires m <= |lab| == |labels|
    ensures |r| == |labels|
  {
    LabelWords(lab[..m]) + labels[m..]
  }

  lemma RelabelledMore(labels: seq<Word>, lab: seq<int>, a: nat, b: nat)
    requires a <= b <= |lab| == |labels|
    ensures Overlay(Relabelled(labels, lab, a), a, LabelWords(lab[a..b])) == Relabelled(labels, lab, b)
  {
  }

  /** What the accumulators hold: masses of the first m points, and feature sums of the first q. */
  ghost predicate Accumulated(j: Job, acc: seq<real>, lab: seq<int>, m: nat, q: nat)
    requires j.Valid() && m <= |lab| && q <= |lab|
  {
    && j.k * j.l.dims >= 0 && |acc| == j.k + j.k * j.l.dims
    && forall i :: 0 <= i < |acc| ==>
         acc[i] == if i < j.k then Count(lab, i, m) as real else SumAt(j.src, lab, j.k, j.l.dims, i - j.k, q)
  }

  lemma NothingAdded(acc: seq<real>)
    ensures Plus(acc, []) == acc
  {
  }

  lemma LabelingOn(r: Kernel, cs: seq<Center>, l: Layout, x: seq<real>, was: seq<Word>, run: seq<int>)
    requires l.Valid() && Centers(cs, l.dims) && IsLabeling(r, cs, l) && Occurs(l, |was|) && |x| == |was| * l.dims
    requires HasLive(cs) && run == Assign(Rows(x, |was|, l.dims), cs, l.dims)
    ensures r([Coordinates(x), was]) == ([Coordinates(x), LabelWords(run)], [])
  {
  }

  lemma LabelingOfOne(j: Job, r: Runnable, cs: seq<Center>, b: nat, s: Plain, labels: seq<Word>)
    requires j.Valid() && |labels| == j.l.dim && b < NumChunks(j.l.dim, j.l.bufdim)
    requires Ready(r, j.Sizes(), j.Steps()) && r.uses == j.PointsAndLabels() && Shapes(s.mem, j.Sizes())
    requires Centers(cs, j.l.dims) && (j.l.dim > 0 ==> HasLive(cs)) && IsLabeling(r.kernel, cs, j.l)
    requires Before(j.l, b) <= j.l.dim
    requires s.mem == Memory(j, Relabelled(labels, Assign(j.Points(), cs, j.l.dims), Before(j.l, b)))
    ensures Before(j.l, b + 1) <= j.l.dim
    ensures Fire(r, b, s, j.Sizes(), j.Steps()) ==
            Plain(Memory(j, Relabelled(labels, Assign(j.Points(), cs, j.l.dims), Before(j.l, b + 1))), s.acc)
  {
    hide IsPartition, KeepsLengths, Assign, Fire, Coordinates, BufferOf, NumChunks, Overlay, IsLabeling, Memory, Plus;
    var lab := Assign(j.Points(), cs, j.l.dims);
    var now := Relabelled(labels, lab, Before(j.l, b));
    BuffersOf(j, now, b);
    SizeOfPartition(j);
    LabelsOfBuffer(j.l, j.src, j.dst, b, cs);
    var run := lab[Before(j.l, b)..Before(j.l, b + 1)];
    LabelingOn(r.kernel, cs, j.l, BufferOf(j.l, j.dst, b), now[Before(j.l, b)..Before(j.l, b + 1)], run);
    FireBoth(j, r, b, s, now, LabelWords(run), []);
    RelabelledMore(labels, lab, Before(j.l, b), Before(j.l, b + 1));
    NothingAdded(s.acc);
  }

  lemma {:induction false} LabelingOfAll(j: Job, r: Runnable, cs: seq<Center>, b: nat, s: Plain, labels: seq<Word>)
    requires j.Valid() && |labels| == j.l.dim && b <= NumChunks(j.l.dim, j.l.bufdim) && s.mem == Memory(j, labels)
    requires Ready(r, j.Sizes(), j.Steps()) && r.uses == j.PointsAndLabels() && Shapes(s.mem, j.Sizes())
    requires Centers(cs, j.l.dims) && (j.l.dim > 0 ==> HasLive(cs)) && IsLabeling(r.kernel, cs, j.l)
    ensures Before(j.l, b) <= j.l.dim
    ensures FireEach(r, b, s, j.Sizes(), j.Steps()) ==
            Plain(Memory(j, Relabelled(labels, Assign(j.Points(), cs, j.l.dims), Before(j.l, b))), s.acc)
  {
    hide IsPartition, Ready, Assign, Fire, NumChunks, Memory, IsLabeling, Shapes, HasLive;
    if b == 0 {
      StartsAtZero(j, labels, Assign(j.Points(), cs, j.l.dims));
    } else {
      LabelingOfAll(j, r, cs, b - 1, s, labels);
      LabelingOfOne(j, r, cs, b - 1, FireEach(r, b - 1, s, j.Sizes(), j.Steps()), labels);
    }
  }

  lemma StartsAtZero(j: Job, labels: seq<Word>, lab: seq<int>)
    requires |labels| == |lab| == j.l.dim
    ensures Before(j.l, 0) == 0 && Relabelled(labels, lab, 0) == labels
  {
    assert j.l.bufdim * 0 == 0;
  }

  lemma MassesOfOne(j: Job, r: Runnable, lab: seq<int>, b: nat, s: Plain, q: nat)
    requires j.Valid() && |lab| == j.l.dim && Labels(lab, j.k) && b < NumChunks(j.l.dim, j.l.bufdim) && q <= |lab|
    requires Ready(r, j.Sizes(), j.Steps()) && r.uses == j.LabelsOnly() && Shapes(s.mem, j.Sizes())
    requires s.mem == Memory(j, LabelWords(lab)) && IsMassUpdate(r.kernel, j.l, j.k)
    requires Before(j.l, b) <= j.l.dim && Accumulated(j, s.acc, lab, Before(j.l, b), q)
    ensures Before(j.l, b + 1) <= j.l.dim
    ensures var t := Fire(r, b, s, j.Sizes(), j.Steps());
            t.mem == s.mem && Accumulated(j, t.acc, lab, Before(j.l, b + 1), q)
  {
    hide IsPartition, KeepsLengths, Fire, Coordinates, BufferOf, NumChunks, SumAt, Memory, Accumulated;
    BuffersOf(j, LabelWords(lab), b);
    var from, to := Before(j.l, b), Before(j.l, b + 1);
    var run := lab[from..to];
    assert LabelWords(lab)[from..to] == LabelWords(run);
    FireLabels(j, r, b, s, LabelWords(lab), Masses(run, j.k));
    MassesGrow(j, s.acc, lab, from, to, q);
  }

  lemma {:induction false} MassesOfAll(j: Job, r: Runnable, lab: seq<int>, b: nat, s: Plain, q: nat)
    requires j.Valid() && |lab| == j.l.dim && Labels(lab, j.k) && b <= NumChunks(j.l.dim, j.l.bufdim) && q <= |lab|
    requires Ready(r, j.Sizes(), j.Steps()) && r.uses == j.LabelsOnly() && Shapes(s.mem, j.Sizes())
    requires s.mem == Memory(j, LabelWords(lab)) && IsMassUpdate(r.kernel, j.l, j.k) && Accumulated(j, s.acc, lab, 0, q)
    ensures Before(j.l, b) <= j.l.dim
    ensures var t := FireEach(r, b, s, j.Sizes(), j.Steps());
            t.mem == s.mem && Accumulated(j, t.acc, lab, Before(j.l, b), q)
  {
    hide IsPartition, Ready, Fire, NumChunks, Memory, IsMassUpdate, Shapes, Accumulated, Labels;
    if b == 0 {
      StartsAtZero(j, LabelWords(lab), lab);
    } else {
      MassesOfAll(j, r, lab, b - 1, s, q);
      MassesOfOne(j, r, lab, b - 1, FireEach(r, b - 1, s, j.Sizes(), j.Steps()), q);
    }
  }

  lemma MassesGrow(j: Job, acc: seq<real>, lab: seq<int>, from: nat, to: nat, q: nat)
    requires j.Valid() && from <= to <= |lab| && q <= |lab| && Accumulated(j, acc, lab, from, q)
    ensures Accumulated(j, Plus(acc, Masses(lab[from..to], j.k)), lab, to, q)
  {
    hide IsPartition, SumAt;
    forall c | 0 <= c < j.k
      ensures Count(lab, c, to) == Count(lab, c, from) + Count(lab[from..to], c, to - from)
    {
      CountOfRun(lab, c, from, to - from);
    }
  }

  lemma SumsOfOne(j: Job, r: Runnable, lab: seq<int>, b: nat, s: Plain, m: nat)
    requires j.Valid() && |lab| == j.l.dim && Labels(lab, j.k) && b < NumChunks(j.l.dim, j.l.bufdim) && m <= |lab|
    requires Ready(r, j.Sizes(), j.Steps()) && r.uses == j.PointsAndLabels() && Shapes(s.mem, j.Sizes())
    requires s.mem == Memory(j, LabelWords(lab)) && IsCentroidUpdate(r.kernel, j.l, j.k)
    requires Before(j.l, b) <= j.l.dim && Accumulated(j, s.acc, lab, m, Before(j.l, b))
    ensures Before(j.l, b + 1) <= j.l.dim
    ensures var t := Fire(r, b, s, j.Sizes(), j.Steps());
            t.mem == s.mem && Accumulated(j, t.acc, lab, m, Before(j.l, b + 1))
  {
    hide IsPartition, KeepsLengths, Fire, Coordinates, BufferOf, NumChunks, SumsOf, Accumulated, KeepsPoints, Memory;
    BuffersOf(j, LabelWords(lab), b);
    SizeOfPartition(j);
    var from, to := Before(j.l, b), Before(j.l, b + 1);
    var run, x := lab[from..to], BufferOf(j.l, j.dst, b);
    assert LabelWords(lab)[from..to] == LabelWords(run);
    assert Overlay(LabelWords(lab), from, LabelWords(run)) == LabelWords(lab);
    FireBoth(j, r, b, s, LabelWords(lab), LabelWords(run), Zeros(j.k) + SumsOf(x, run, j.k, j.l.dims));
    SumsGrow(j, s.acc, lab, b, m);
  }

  lemma {:induction false} SumsOfAll(j: Job, r: Runnable, lab: seq<int>, b: nat, s: Plain, m: nat)
    requires j.Valid() && |lab| == j.l.dim && Labels(lab, j.k) && b <= NumChunks(j.l.dim, j.l.bufdim) && m <= |lab|
    requires Ready(r, j.Sizes(), j.Steps()) && r.uses == j.PointsAndLabels() && Shapes(s.mem, j.Sizes())
    requires s.mem == Memory(j, LabelWords(lab)) && IsCentroidUpdate(r.kernel, j.l, j.k)
             && Accumulated(j, s.acc, lab, m, 0)
    ensures Before(j.l, b) <= j.l.dim
    ensures var t := FireEach(r, b, s, j.Sizes(), j.Steps());
            t.mem == s.mem && Accumulated(j, t.acc, lab, m, Before(j.l, b))
  {
    hide IsPartition, Ready, Fire, NumChunks, Memory, IsCentroidUpdate, Shapes, Accumulated, Labels;
    if b == 0 {
      StartsAtZero(j, LabelWords(lab), lab);
    } else {
      SumsOfAll(j, r, lab, b - 1, s, m);
      SumsOfOne(j, r, lab, b - 1, FireEach(r, b - 1, s, j.Sizes(), j.Steps()), m);
    }
  }

  lemma SumsGrow(j: Job, acc: seq<real>, lab: seq<int>, b: nat, m: nat)
    requires j.Valid() && |lab| == j.l.dim && 0 <= j.l.bufdim * b < j.l.dim && m <= |lab| && |j.dst| == j.l.Size()
    requires Before(j.l, b) <= Before(j.l, b + 1) <= |lab| && Accumulated(j, acc, lab, m, Before(j.l, b))
    ensures var run := lab[Before(j.l, b)..Before(j.l, b + 1)];
            Accumulated(j, Plus(acc, Zeros(j.k) + SumsOf(BufferOf(j.l, j.dst, b), run, j.k, j.l.dims)), lab, m,
                        Before(j.l, b + 1))
  {
    hide IsPartition, SumAt, BufferOf, Before;
    var run := lab[Before(j.l, b)..Before(j.l, b + 1)];
    forall t: nat | t < j.k * j.l.dims
      ensures SumAt(j.src, lab, j.k, j.l.dims, t, Before(j.l, b + 1)) ==
              SumAt(j.src, lab, j.k, j.l.dims, t, Before(j.l, b)) +
                SumsOf(BufferOf(j.l, j.dst, b), run, j.k, j.l.dims)[t]
    {
      SumsOfBuffer(j.l, j.src, j.dst, b, lab, j.k, t);
    }
  }

  lemma FusedOfOne(j: Job, r: Runnable, cs: seq<Center>, b: nat, s: Plain, labels: seq<Word>)
    requires j.Valid() && |labels| == j.l.dim && b < NumChunks(j.l.dim, j.l.bufdim)
    requires Ready(r, j.Sizes(), j.Steps()) && r.uses == j.PointsAndLabels() && Shapes(s.mem, j.Sizes())
    requires Centers(cs, j.l.dims) && (j.l.dim > 0 ==> HasLive(cs)) && IsFused(r.kernel, cs, j.l, j.k)
    requires Before(j.l, b) <= j.l.dim
    requires var lab := Assign(j.Points(), cs, j.l.dims);
             && s.mem == Memory(j, Relabelled(labels, lab, Before(j.l, b)))
             && Accumulated(j, s.acc, lab, Before(j.l, b), Before(j.l, b))
    ensures Before(j.l, b + 1) <= j.l.dim
    ensures var lab, t := Assign(j.Points(), cs, j.l.dims), Fire(r, b, s, j.Sizes(), j.Steps());
            && t.mem == Memory(j, Relabelled(labels, lab, Before(j.l, b + 1)))
            && Accumulated(j, t.acc, lab, Before(j.l, b + 1), Before(j.l, b + 1))
  {
    hide IsPartition, KeepsLengths, Assign, Fire, Coordinates, BufferOf, NumChunks, Overlay, Accumulated, Masses,
         SumsOf, KeepsPoints, Memory;
    var lab := Assign(j.Points(), cs, j.l.dims);
    var now := Relabelled(labels, lab, Before(j.l, b));
    BuffersOf(j, now, b);
    SizeOfPartition(j);
    LabelsOfBuffer(j.l, j.src, j.dst, b, cs);
    var run, x := lab[Before(j.l, b)..Before(j.l, b + 1)], BufferOf(j.l, j.dst, b);
    FireBoth(j, r, b, s, now, LabelWords(run), Masses(run, j.k) + SumsOf(x, run, j.k, j.l.dims));
    RelabelledMore(labels, lab, Before(j.l, b), Before(j.l, b + 1));
    BothGrow(j, s.acc, lab, b);
  }

  lemma {:induction false} FusedOfAll(j: Job, r: Runnable, cs: seq<Center>, b: nat, s: Plain, labels: seq<Word>)
    requires j.Valid() && |labels| == j.l.dim && b <= NumChunks(j.l.dim, j.l.bufdim) && s.mem == Memory(j, labels)
    requires Ready(r, j.Sizes(), j.Steps()) && r.uses == j.PointsAndLabels() && Shapes(s.mem, j.Sizes())
    requires Centers(cs, j.l.dims) && (j.l.dim > 0 ==> HasLive(cs)) && IsFused(r.kernel, cs, j.l, j.k)
    requires Accumulated(j, s.acc, Assign(j.Points(), cs, j.l.dims), 0, 0)
    ensures Before(j.l, b) <= j.l.dim
    ensures var lab, t := Assign(j.Points(), cs, j.l.dims), FireEach(r, b, s, j.Sizes(), j.Steps());
            && t.mem == Memory(j, Relabelled(labels, lab, Before(j.l, b)))
            && Accumulated(j, t.acc, lab, Before(j.l, b), Before(j.l, b))
  {
    hide IsPartition, Ready, Assign, Fire, NumChunks, Memory, IsFused, Shapes, HasLive, Accumulated;
    if b == 0 {
      StartsAtZero(j, labels, Assign(j.Points(), cs, j.l.dims));
    } else {
      FusedOfAll(j, r, cs, b - 1, s, labels);
      FusedOfOne(j, r, cs, b - 1, FireEach(r, b - 1, s, j.Sizes(), j.Steps()), labels);
    }
  }

  lemma BothGrow(j: Job, acc: seq<real>, lab: seq<int>, b: nat)
    requires j.Valid() && |lab| == j.l.dim && 0 <= j.l.bufdim * b < j.l.dim && |j.dst| == j.l.Size()
    requires Before(j.l, b) <= Before(j.l, b + 1) <= |lab|
    requires Accumulated(j, acc, lab, Before(j.l, b), Before(j.l, b))
    ensures var run := lab[Before(j.l, b)..Before(j.l, b + 1)];
            Accumulated(j, Plus(acc, Masses(run, j.k) + SumsOf(BufferOf(j.l, j.dst, b), run, j.k, j.l.dims)), lab,
                        Before(j.l, b + 1), Before(j.l, b + 1))
  {
    hide IsPartition, SumAt, BufferOf, Before;
    var run := lab[Before(j.l, b)..Before(j.l, b + 1)];
    var masses, sums := Masses(run, j.k), SumsOf(BufferOf(j.l, j.dst, b), run, j.k, j.l.dims);
    MassesGrow(j, acc, lab, Before(j.l, b), Before(j.l, b + 1), Before(j.l, b));
    SumsGrow(j, Plus(acc, masses), lab, b, Before(j.l, b + 1));
    assert Plus(Plus(acc, masses), Zeros(j.k) + sums) == Plus(acc, masses + sums);
  }
}
