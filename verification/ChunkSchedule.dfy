/** What the scheduler promises: kernels applied chunk by chunk to plain memory, and why the order of chunks and
    kernels does not matter. */
module ChunkSchedule {
  import opened BufferCache
  import Indices

  /** A kernel maps the contents of one chunk of each of its objects to their new contents, and to what it adds to the
      accumulators that it keeps in device memory of its own. */
  type Kernel = seq<seq<Word>> -> (seq<seq<Word>>, seq<real>)

  datatype Use = Use(object_id: nat, step: nat)

  /** An enqueued function: unary with one use, binary with two. */
  datatype Runnable = Runnable(kernel: Kernel, uses: seq<Use>)

  /** The memory of all objects, and the accumulators. */
  datatype Plain = Plain(mem: seq<seq<Word>>, acc: seq<real>)

  function Plus(a: seq<real>, b: seq<real>): (r: seq<real>)
    ensures |r| == |a|
  {
    seq(|a|, i requires 0 <= i < |a| => if i < |b| then a[i] + b[i] else a[i])
  }

  lemma PlusCommutes(a: seq<real>, b: seq<real>, c: seq<real>)
    ensures Plus(Plus(a, b), c) == Plus(Plus(a, c), b)
  {
  }

  /** Number of chunks of an object. */
  function NumChunks(size: nat, step: nat): nat
    requires step > 0
  {
    (size + step - 1) / step
  }

  // ---------- applying a kernel to one chunk ----------

  ghost predicate Shapes(mem: seq<seq<Word>>, sizes: seq<nat>) {
    |mem| == |sizes| && forall o :: 0 <= o < |mem| ==> |mem[o]| == sizes[o]
  }

  /** The uses name objects, each at most once, and cut them into chunks of their own step. */
  ghost predicate GoodUses(uses: seq<Use>, sizes: seq<nat>, step: seq<nat>) {
    && |sizes| == |step| && 1 <= |uses| <= 2
    && (forall l :: 0 <= l < |uses| ==>
          1 <= uses[l].object_id < |sizes| && uses[l].step == step[uses[l].object_id] && uses[l].step > 0)
    && (|uses| == 2 ==> uses[0].object_id != uses[1].object_id)
  }

  /** A kernel keeps the length of each buffer. */
  ghost predicate KeepsLengths(r: Runnable) {
    forall contents: seq<seq<Word>> :: |contents| == |r.uses| ==>
      && |r.kernel(contents).0| == |contents|
      && forall l :: 0 <= l < |contents| ==> |r.kernel(contents).0[l]| == |contents[l]|
  }

  /** Chunk i of an object, empty beyond its end. */
  ghost function Cut(mem: seq<seq<Word>>, u: Use, i: nat): seq<Word>
    requires u.object_id < |mem|
  {
    var m := mem[u.object_id];
    if u.step * i < |m| then m[u.step * i..ChunkEnd(|m|, u.step, u.step * i)] else []
  }

  ghost function Inputs(mem: seq<seq<Word>>, uses: seq<Use>, i: nat): (c: seq<seq<Word>>)
    requires forall l :: 0 <= l < |uses| ==> uses[l].object_id < |mem|
    ensures |c| == |uses|
  {
    seq(|uses|, l requires 0 <= l < |uses| => Cut(mem, uses[l], i))
  }

  ghost function Put(mem: seq<seq<Word>>, u: Use, i: nat, c: seq<Word>): (r: seq<seq<Word>>)
    requires u.object_id < |mem|
    ensures |r| == |mem| && forall o :: 0 <= o < |mem| ==> |r[o]| == |mem[o]|
  {
    mem[u.object_id := Overlay(mem[u.object_id], u.step * i, c)]
  }

  /** The first m results stored. */
  ghost function PutAll(mem: seq<seq<Word>>, uses: seq<Use>, i: nat, outs: seq<seq<Word>>, m: nat): (r: seq<seq<Word>>)
    requires m <= |uses| == |outs| && forall l :: 0 <= l < |uses| ==> uses[l].object_id < |mem|
    ensures |r| == |mem| && forall o :: 0 <= o < |mem| ==> |r[o]| == |mem[o]|
  {
    if m == 0 then mem else Put(PutAll(mem, uses, i, outs, m - 1), uses[m - 1], i, outs[m - 1])
  }

  ghost predicate Ready(r: Runnable, sizes: seq<nat>, step: seq<nat>) {
    GoodUses(r.uses, sizes, step) && KeepsLengths(r)
  }

  /** One kernel on one chunk. */
  ghost function Fire(r: Runnable, i: nat, s: Plain, sizes: seq<nat>, step: seq<nat>): (t: Plain)
    requires Ready(r, sizes, step) && Shapes(s.mem, sizes)
    ensures Shapes(t.mem, sizes) && |t.acc| == |s.acc|
  {
    var out := r.kernel(Inputs(s.mem, r.uses, i));
    Plain(PutAll(s.mem, r.uses, i, out.0, |r.uses|), Plus(s.acc, out.1))
  }

  ghost predicate AllReady(rs: seq<Runnable>, sizes: seq<nat>, step: seq<nat>) {
    forall k :: 0 <= k < |rs| ==> Ready(rs[k], sizes, step)
  }

  /** The first m runnables on chunk i. */
  ghost function FireAll(rs: seq<Runnable>, i: nat, s: Plain, sizes: seq<nat>, step: seq<nat>, m: nat): (t: Plain)
    requires AllReady(rs, sizes, step) && Shapes(s.mem, sizes) && m <= |rs|
    ensures Shapes(t.mem, sizes) && |t.acc| == |s.acc|
  {
    if m == 0 then s else Fire(rs[m - 1], i, FireAll(rs, i, s, sizes, step, m - 1), sizes, step)
  }

  /** Chunk by chunk, as the scheduler runs: all of the first m runnables on each of the first n chunks. */
  ghost function ChunkMajor(rs: seq<Runnable>, n: nat, s: Plain, sizes: seq<nat>, step: seq<nat>, m: nat): (t: Plain)
    requires AllReady(rs, sizes, step) && Shapes(s.mem, sizes) && m <= |rs|
    ensures Shapes(t.mem, sizes) && |t.acc| == |s.acc|
  {
    if n == 0 then s else FireAll(rs, n - 1, ChunkMajor(rs, n - 1, s, sizes, step, m), sizes, step, m)
  }

  /** One runnable on its whole objects. */
  ghost function FireEach(r: Runnable, n: nat, s: Plain, sizes: seq<nat>, step: seq<nat>): (t: Plain)
    requires Ready(r, sizes, step) && Shapes(s.mem, sizes)
    ensures Shapes(t.mem, sizes) && |t.acc| == |s.acc|
  {
    if n == 0 then s else Fire(r, n - 1, FireEach(r, n - 1, s, sizes, step), sizes, step)
  }

  /** Runnable by runnable, in the order they were enqueued, each on its whole objects. */
  ghost function RunnableMajor(rs: seq<Runnable>, n: nat, s: Plain, sizes: seq<nat>, step: seq<nat>, m: nat): (t: Plain)
    requires AllReady(rs, sizes, step) && Shapes(s.mem, sizes) && m <= |rs|
    ensures Shapes(t.mem, sizes) && |t.acc| == |s.acc|
  {
    if m == 0 then s else FireEach(rs[m - 1], n, RunnableMajor(rs, n, s, sizes, step, m - 1), sizes, step)
  }

  // ---------- different chunks are independent ----------

  /** Chunk indices i < j name ranges that do not overlap. */
  lemma IndexApart(step: nat, i: nat, j: nat)
    requires i < j
    ensures step * i + step <= step * j
  {
    Indices.Monotone(i + 1, j, step);
    assert step * (i + 1) == step * i + step;
  }

  lemma CutBeside(mem: seq<seq<Word>>, u: Use, i: nat, v: Use, j: nat, c: seq<Word>)
    requires u.object_id < |mem| && v.object_id < |mem| && i != j && |c| <= v.step
    requires u.object_id == v.object_id ==> u.step == v.step
    ensures Cut(Put(mem, v, j, c), u, i) == Cut(mem, u, i)
  {
    if u.object_id == v.object_id {
      IndexApart(u.step, if i < j then i else j, if i < j then j else i);
    }
  }

  lemma PutsCommute(mem: seq<seq<Word>>, u: Use, i: nat, c: seq<Word>, v: Use, j: nat, d: seq<Word>)
    requires u.object_id < |mem| && v.object_id < |mem| && i != j && |c| <= u.step && |d| <= v.step
    requires u.object_id == v.object_id ==> u.step == v.step
    ensures Put(Put(mem, u, i, c), v, j, d) == Put(Put(mem, v, j, d), u, i, c)
  {
    var a, b := Put(Put(mem, u, i, c), v, j, d), Put(Put(mem, v, j, d), u, i, c);
    if u.object_id == v.object_id {
      IndexApart(u.step, if i < j then i else j, if i < j then j else i);
      assert a[u.object_id] == b[u.object_id];
    }
  }

  ghost predicate Fitting(uses: seq<Use>, outs: seq<seq<Word>>) {
    |outs| == |uses| && forall l :: 0 <= l < |uses| ==> |outs[l]| <= uses[l].step
  }

  lemma {:induction false} PutAllCommutesWithPut(mem: seq<seq<Word>>, us: seq<Use>, i: nat, outs: seq<seq<Word>>,
                                                 m: nat, v: Use, j: nat, d: seq<Word>, sizes: seq<nat>, step: seq<nat>)
    requires GoodUses(us, sizes, step) && Fitting(us, outs) && m <= |us| && Shapes(mem, sizes)
    requires 1 <= v.object_id < |mem| && v.step == step[v.object_id] && |d| <= v.step && i != j
    ensures Put(PutAll(mem, us, i, outs, m), v, j, d) == PutAll(Put(mem, v, j, d), us, i, outs, m)
  {
    hide Put;
    if m > 0 {
      PutAllCommutesWithPut(mem, us, i, outs, m - 1, v, j, d, sizes, step);
      PutsCommute(PutAll(mem, us, i, outs, m - 1), us[m - 1], i, outs[m - 1], v, j, d);
    }
  }

  lemma {:induction false} PutAllsCommute(mem: seq<seq<Word>>, us: seq<Use>, i: nat, outs: seq<seq<Word>>,
                                          vs: seq<Use>, j: nat, douts: seq<seq<Word>>, m: nat,
                                          sizes: seq<nat>, step: seq<nat>)
    requires GoodUses(us, sizes, step) && GoodUses(vs, sizes, step) && Shapes(mem, sizes) && i != j
    requires Fitting(us, outs) && Fitting(vs, douts) && m <= |vs|
    ensures PutAll(PutAll(mem, us, i, outs, |us|), vs, j, douts, m) ==
            PutAll(PutAll(mem, vs, j, douts, m), us, i, outs, |us|)
  {
    hide Put;
    if m > 0 {
      PutAllsCommute(mem, us, i, outs, vs, j, douts, m - 1, sizes, step);
      PutAllCommutesWithPut(PutAll(mem, vs, j, douts, m - 1), us, i, outs, |us|, vs[m - 1], j, douts[m - 1], sizes,
                            step);
    }
  }

  lemma {:induction false} InputsBeside(mem: seq<seq<Word>>, us: seq<Use>, i: nat, vs: seq<Use>, j: nat,
                                        douts: seq<seq<Word>>, m: nat, sizes: seq<nat>, step: seq<nat>)
    requires GoodUses(us, sizes, step) && GoodUses(vs, sizes, step) && Shapes(mem, sizes) && i != j
    requires Fitting(vs, douts) && m <= |vs|
    ensures Inputs(PutAll(mem, vs, j, douts, m), us, i) == Inputs(mem, us, i)
  {
    hide Put, Cut;
    if m > 0 {
      InputsBeside(mem, us, i, vs, j, douts, m - 1, sizes, step);
      forall l | 0 <= l < |us|
        ensures Cut(PutAll(mem, vs, j, douts, m), us[l], i) == Cut(PutAll(mem, vs, j, douts, m - 1), us[l], i)
      {
        CutBeside(PutAll(mem, vs, j, douts, m - 1), us[l], i, vs[m - 1], j, douts[m - 1]);
      }
    }
  }

  lemma OutputsFit(r: Runnable, i: nat, mem: seq<seq<Word>>, sizes: seq<nat>, step: seq<nat>)
    requires Ready(r, sizes, step) && Shapes(mem, sizes)
    ensures Fitting(r.uses, r.kernel(Inputs(mem, r.uses, i)).0)
  {
    var c := Inputs(mem, r.uses, i);
    assert |c| == |r.uses|;
    forall l | 0 <= l < |r.uses|
      ensures |r.kernel(c).0[l]| <= r.uses[l].step
    {
      assert |r.kernel(c).0[l]| == |c[l]|;
    }
  }

  /** Kernels on different chunks commute. */
  lemma FiresCommute(q: Runnable, i: nat, r: Runnable, j: nat, s: Plain, sizes: seq<nat>, step: seq<nat>)
    requires Ready(q, sizes, step) && Ready(r, sizes, step) && Shapes(s.mem, sizes) && i != j
    ensures Fire(r, j, Fire(q, i, s, sizes, step), sizes, step) == Fire(q, i, Fire(r, j, s, sizes, step), sizes, step)
  {
    hide Put, Cut, Inputs, PutAll, Plus, KeepsLengths;
    var a, b := q.kernel(Inputs(s.mem, q.uses, i)), r.kernel(Inputs(s.mem, r.uses, j));
    OutputsFit(q, i, s.mem, sizes, step);
    OutputsFit(r, j, s.mem, sizes, step);
    InputsBeside(s.mem, r.uses, j, q.uses, i, a.0, |q.uses|, sizes, step);
    InputsBeside(s.mem, q.uses, i, r.uses, j, b.0, |r.uses|, sizes, step);
    PutAllsCommute(s.mem, q.uses, i, a.0, r.uses, j, b.0, |r.uses|, sizes, step);
    PlusCommutes(s.acc, a.1, b.1);
  }

  /** One runnable on earlier chunks commutes with all others on a later chunk. */
  lemma {:induction false} FireCommutesWithAll(q: Runnable, i: nat, rs: seq<Runnable>, j: nat, s: Plain,
                                               sizes: seq<nat>, step: seq<nat>, m: nat)
    requires Ready(q, sizes, step) && AllReady(rs, sizes, step) && Shapes(s.mem, sizes) && m <= |rs| && i != j
    ensures FireAll(rs, j, Fire(q, i, s, sizes, step), sizes, step, m) ==
            Fire(q, i, FireAll(rs, j, s, sizes, step, m), sizes, step)
  {
    hide Fire, Ready;
    if m > 0 {
      FireCommutesWithAll(q, i, rs, j, s, sizes, step, m - 1);
      FiresCommute(q, i, rs[m - 1], j, FireAll(rs, j, s, sizes, step, m - 1), sizes, step);
    }
  }

  lemma {:induction false} EachCommutesWithAll(q: Runnable, n: nat, rs: seq<Runnable>, j: nat, s: Plain,
                                               sizes: seq<nat>, step: seq<nat>, m: nat)
    requires Ready(q, sizes, step) && AllReady(rs, sizes, step) && Shapes(s.mem, sizes) && m <= |rs| && n <= j
    ensures FireAll(rs, j, FireEach(q, n, s, sizes, step), sizes, step, m) ==
            FireEach(q, n, FireAll(rs, j, s, sizes, step, m), sizes, step)
  {
    hide Fire, FireAll, Ready;
    if n > 0 {
      EachCommutesWithAll(q, n - 1, rs, j, s, sizes, step, m);
      FireCommutesWithAll(q, n - 1, rs, j, FireEach(q, n - 1, s, sizes, step), sizes, step, m);
    }
  }

  /** The last runnable can be taken out of the loop over chunks. */
  lemma {:induction false} SplitLast(rs: seq<Runnable>, n: nat, s: Plain, sizes: seq<nat>, step: seq<nat>, m: nat)
    requires AllReady(rs, sizes, step) && Shapes(s.mem, sizes) && m < |rs|
    ensures ChunkMajor(rs, n, s, sizes, step, m + 1) ==
            FireEach(rs[m], n, ChunkMajor(rs, n, s, sizes, step, m), sizes, step)
  {
    hide Fire, Ready;
    if n > 0 {
      SplitLast(rs, n - 1, s, sizes, step, m);
      EachCommutesWithAll(rs[m], n - 1, rs, n - 1, ChunkMajor(rs, n - 1, s, sizes, step, m), sizes, step, m);
    }
  }

  /** Running all kernels chunk by chunk is running each kernel on whole objects, in the order of enqueueing. */
  lemma {:induction false} LoopInterchange(rs: seq<Runnable>, n: nat, s: Plain, sizes: seq<nat>, step: seq<nat>, m: nat)
    requires AllReady(rs, sizes, step) && Shapes(s.mem, sizes) && m <= |rs|
    ensures ChunkMajor(rs, n, s, sizes, step, m) == RunnableMajor(rs, n, s, sizes, step, m)
  {
    hide Fire, FireAll, Ready, FireEach;
    if m > 0 {
      LoopInterchange(rs, n, s, sizes, step, m - 1);
      SplitLast(rs, n, s, sizes, step, m - 1);
    } else {
      NoRunnables(rs, n, s, sizes, step);
    }
  }

  lemma {:induction false} NoRunnables(rs: seq<Runnable>, n: nat, s: Plain, sizes: seq<nat>, step: seq<nat>)
    requires AllReady(rs, sizes, step) && Shapes(s.mem, sizes)
    ensures ChunkMajor(rs, n, s, sizes, step, 0) == s
  {
    if n > 0 {
      NoRunnables(rs, n - 1, s, sizes, step);
    }
  }

  /** Every cell of an object is in exactly one of its chunks, the last of which may be short. */
  lemma ChunksPartition(size: nat, step: nat, a: nat)
    requires step > 0 && a < size
    ensures a / step < NumChunks(size, step)
    ensures forall i: nat :: (i < NumChunks(size, step) && step * i <= a < ChunkEnd(size, step, step * i)) <==>
            i == a / step
  {
    Indices.Split(a, step);
    var n := NumChunks(size, step);
    Indices.Split(size + step - 1, step);
    if n <= a / step {
      Indices.Monotone(n, a / step, step);
      assert false;
    }
    forall i: nat
      ensures (step * i <= a < step * i + step) <==> i == a / step
    {
      if step * i <= a < step * i + step {
        Indices.UniqueQuotient(step, i, a - step * i, a / step, a % step);
      }
    }
  }

  /** A chunk index stays inside the object. */
  lemma ChunkInside(size: nat, step: nat, i: nat)
    requires step > 0 && i < NumChunks(size, step)
    ensures step * i < size && (step * i) % step == 0
    ensures Chunk(size, step, step * i, ChunkEnd(size, step, step * i))
  {
    Indices.Split(size + step - 1, step);
    Indices.Monotone(i + 1, NumChunks(size, step), step);
    assert step * (i + 1) == step * i + step;
    Indices.DivMod(step, i, 0);
  }
}
