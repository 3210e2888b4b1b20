/** What a whole pipeline leaves behind: in every complete schedule of a pipeline that is tied to the host, the buffers
    show what its iterations do, clearing, running all functions on all chunks and dividing, one after the other. */
module PipelineMeaning {
  import opened BufferCache
  import opened Schedules
  import opened Commands
  import opened StagingBuffers
  import opened RunMeaning
  import P = PipelineOrder

  /** The buffers that the functions touch in iteration i. */
  ghost function TouchesIn(su: P.Setup, i: nat): (touches: seq<set<nat>>)
    ensures |touches| == |su.touches|
  {
    seq(|su.touches|, r requires 0 <= r < |su.touches| => P.GlobalsOf(su.touches[r], i))
  }

  /** Masses and sums of iteration i. */
  function Accumulators(i: nat): set<nat> {
    {P.MASSES, P.GlobalOf(P.Sums, i)}
  }

  ghost function Cleared<V>(w: World<V>, i: nat, st: Shown<V>): Shown<V> {
    Shown(st.view, (g: nat) => if g in Accumulators(i) then w.zero else st.globals(g))
  }

  ghost function DivisionInputs<V>(i: nat, st: Shown<V>): map<Place, V> {
    map p | p in (set g | g in Accumulators(i) :: Global(g)) :: Found(st, p, 0)
  }

  ghost function Divided<V>(w: World<V>, i: nat, st: Shown<V>): Shown<V> {
    var inputs := DivisionInputs(i, st);
    Shown(st.view, (g: nat) => if g in Accumulators(i) then w.divide(Global(g), inputs) else st.globals(g))
  }

  /** What the first m iterations do to what the buffers show. */
  ghost function Iterations<V>(w: World<V>, su: P.Setup, m: nat, st: Shown<V>): Shown<V>
    requires su.Valid() && su.modes == w.modes
  {
    if m == 0 then st
    else
      var before := Iterations(w, su, m - 1, st);
      Divided(w, m - 1, OnChunks(w, su.uses, TouchesIn(su, m - 1), su.chunks, Cleared(w, m - 1, before)))
  }

  /** Buffers 0, 1 and 2 are those that stay on the device; chunks are inside what there is. */
  ghost predicate Fits(su: P.Setup, z: Bounds) {
    su.Valid() && z.objects == |su.modes| && su.chunks <= z.chunks && z.buffers == 3
    && forall r, l :: 0 <= r < |su.uses| && 0 <= l < |su.uses[r]| ==> su.modes[su.uses[r][l]] != Transient
  }

  lemma FitsIsMeaningful(su: P.Setup, z: Bounds, i: nat)
    requires Fits(su, z)
    ensures Meaningful(su.uses, su.modes, TouchesIn(su, i), z)
  {
    forall r: nat, g | g in TouchedBy(TouchesIn(su, i), r)
      ensures g < z.buffers
    {
      var b :| b in su.touches[r] && g == P.GlobalOf(b, i);
    }
  }

  // ---------- one iteration ----------

  /** Commands of the same kind on the same places do the same. */
  lemma {:induction false} SameExec<V>(log: seq<Command>, other: seq<Command>, w: World<V>, m: Memory<V>)
    requires |log| == |other|
    requires forall i :: 0 <= i < |log| ==>
               log[i].kind == other[i].kind && log[i].slots == other[i].slots && log[i].globals == other[i].globals
    ensures Exec(log, w, m) == Exec(other, w, m)
  {
    hide EffectOf;
    if log != [] {
      var n := |log| - 1;
      SameExec(log[..n], other[..n], w, m);
      SameEffect(log[n], other[n], w, Exec(log[..n], w, m));
    }
  }

  lemma SameEffect<V>(c: Command, d: Command, w: World<V>, m: Memory<V>)
    requires c.kind == d.kind && c.slots == d.slots && c.globals == d.globals
    ensures EffectOf(c, w)(m) == EffectOf(d, w)(m)
  {
    forall p
      ensures On(c, p) <==> On(d, p)
    {
    }
    assert Inputs(c, m) == Inputs(d, m);
  }

  lemma SegmentIsTagged<V>(run: seq<Command>, su: P.Setup, base: nat, i: nat, w: World<V>, m: Memory<V>)
    requires su.Valid() && InLanes(run)
    ensures Exec(P.Segment(run, su, base, i), w, m) == Exec(Tagged(run, TouchesIn(su, i)), w, m)
  {
    hide P.Shifted, P.EventsOf, Exec;
    var segment, tagged := P.Segment(run, su, base, i), Tagged(run, TouchesIn(su, i));
    forall x | 0 <= x < |run|
      ensures segment[x].kind == tagged[x].kind && segment[x].slots == tagged[x].slots
              && segment[x].globals == tagged[x].globals
    {
      assert InLane(run[x]);
    }
    SameExec(segment, tagged, w, m);
  }

  lemma ClearsShow<V>(su: P.Setup, i: nat, held: map<nat, nat>, w: World<V>, m: Memory<V>, st: Shown<V>, z: Bounds)
    requires Shows(m, held, w.modes, st, z) && z.buffers == 3
    ensures Shows(Exec(P.Clears(su, i), w, m), held, w.modes, Cleared(w, i, st), z)
  {
    var clears := P.Clears(su, i);
    assert clears == [] + [clears[0]] + [clears[1]];
    ExecNext([], clears[0], w, m);
    ExecNext([] + [clears[0]], clears[1], w, m);
    GlobalsOnly(m, Exec(clears, w, m), held, w.modes, st, Cleared(w, i, st), z);
  }

  /** Commands that change buffers on the device only, and make them show something else. */
  lemma GlobalsOnly<V>(m: Memory<V>, r: Memory<V>, held: map<nat, nat>, modes: seq<ObjectMode>, st: Shown<V>,
                       now: Shown<V>, z: Bounds)
    requires Shows(m, held, modes, st, z) && r.Keys == m.Keys && now.view == st.view
    requires forall p: Place :: p in m && !p.Global? ==> r[p] == m[p]
    requires forall g: nat :: g < z.buffers ==> r[Global(g)] == now.globals(g)
    ensures Shows(r, held, modes, now, z)
  {
    forall o: nat, b: nat | 1 <= o < |modes| && modes[o] != Transient && b < z.chunks
      ensures ShowsChunk(r, held, modes[o], now.view(o, b), o, b)
    {
      assert ShowsChunk(m, held, modes[o], st.view(o, b), o, b);
    }
  }

  lemma EndsShow<V>(log: seq<Command>, from: nat, su: P.Setup, i: nat, held: map<nat, nat>, w: World<V>, m: Memory<V>,
                    st: Shown<V>, z: Bounds)
    requires Shows(m, held, w.modes, st, z) && z.buffers == 3
    ensures Shows(Exec(P.Ends(log, from, su, i), w, m), held, w.modes, Divided(w, i, st), z)
  {
    hide P.ToFinish;
    var ends := P.Ends(log, from, su, i);
    assert ends == [] + [ends[0]] + [ends[1]];
    ExecNext([], ends[0], w, m);
    ExecNext([] + [ends[0]], ends[1], w, m);
    NothingDone(w, m);
    WaitDoesNothing(ends[0], w, m);
    DivideShows(ends[1], i, held, w, m, st, z);
  }

  lemma WaitDoesNothing<V>(c: Command, w: World<V>, m: Memory<V>)
    requires c.kind.HostWait?
    ensures EffectOf(c, w)(m) == m
  {
  }

  lemma DivideShows<V>(c: Command, i: nat, held: map<nat, nat>, w: World<V>, m: Memory<V>, st: Shown<V>, z: Bounds)
    requires Shows(m, held, w.modes, st, z) && z.buffers == 3
    requires c.kind.Divide? && c.slots == {} && c.globals == Accumulators(i)
    ensures Shows(EffectOf(c, w)(m), held, w.modes, Divided(w, i, st), z)
  {
    hide Inputs, DivisionInputs, Whole, ShowsChunk;
    DivisionFinds(c, i, m, st, z);
    DivideKeeps(c, i, w, m, z);
    GlobalsOnly(m, EffectOf(c, w)(m), held, w.modes, st, Divided(w, i, st), z);
  }

  lemma DivisionFinds<V>(c: Command, i: nat, m: Memory<V>, st: Shown<V>, z: Bounds)
    requires Whole(m, z) && z.buffers == 3 && forall g: nat :: g < z.buffers ==> m[Global(g)] == st.globals(g)
    requires c.kind.Divide? && c.slots == {} && c.globals == Accumulators(i)
    ensures Inputs(c, m) == DivisionInputs(i, st)
  {
    forall p
      ensures p in m && On(c, p) <==> p in (set g | g in Accumulators(i) :: Global(g))
    {
      if p.Global? {
        assert On(c, p) <==> p.id in Accumulators(i);
      } else {
        assert !On(c, p);
      }
    }
  }

  /** A division works on buffers on the device only. */
  lemma DivideKeeps<V>(c: Command, i: nat, w: World<V>, m: Memory<V>, z: Bounds)
    requires Whole(m, z) && z.buffers == 3 && c.kind.Divide? && c.slots == {} && c.globals == Accumulators(i)
    ensures forall p: Place :: p in m && !p.Global? ==> EffectOf(c, w)(m)[p] == m[p]
    ensures forall g: nat :: g < z.buffers ==>
              EffectOf(c, w)(m)[Global(g)]
              == if g in Accumulators(i) then w.divide(Global(g), Inputs(c, m)) else m[Global(g)]
  {
    hide Inputs;
  }

  // ---------- all iterations ----------

  lemma IterationShows<V>(log: seq<Command>, run: (seq<Command>, map<nat, nat>), su: P.Setup, i: nat,
                          held: map<nat, nat>, w: World<V>, m: Memory<V>, st: Shown<V>, z: Bounds)
    requires Fits(su, z) && su.modes == w.modes && Inside(held, z.chunks)
    requires run == RunLog(su.chunks, su.uses, su.modes, held)
    requires Shows(Exec(log, w, m), held, w.modes, st, z)
    ensures var ran := OnChunks(w, su.uses, TouchesIn(su, i), su.chunks, Cleared(w, i, st));
            Shows(Exec(P.OneIteration(log, run.0, su, i), w, m), run.1, w.modes, Divided(w, i, ran), z)
    ensures Inside(run.1, z.chunks)
  {
    hide Shows, Exec, RunLog, OnChunks, Cleared, Divided, Inside, P.Segment, P.Clears, P.Ends, Meaningful;
    var clears, segment := P.Clears(su, i), P.Segment(run.0, su, |log|, i);
    var started := P.Started(log, run.0, su, i);
    var ends := P.Ends(started, |log| + 2, su, i);
    var m1 := Exec(log, w, m);
    ClearsShow(su, i, held, w, m1, st, z);
    var m2 := Exec(clears, w, m1);
    FitsIsMeaningful(su, z, i);
    RunShows(su.chunks, su.uses, held, w, TouchesIn(su, i), m2, Cleared(w, i, st), z);
    RunInLanes(su, held, z);
    SegmentIsTagged(run.0, su, |log|, i, w, m2);
    var m3 := Exec(segment, w, m2);
    EndsShow(started, |log| + 2, su, i, run.1, w, m3,
             OnChunks(w, su.uses, TouchesIn(su, i), su.chunks, Cleared(w, i, st)), z);
    ExecOn(log, clears, w, m);
    ExecOn(log + clears, segment, w, m);
    ExecOn(started, ends, w, m);
  }

  lemma RunInLanes(su: P.Setup, held: map<nat, nat>, z: Bounds)
    requires su.Valid() && Inside(held, z.chunks)
    ensures InLanes(RunLog(su.chunks, su.uses, su.modes, held).0)
  {
    hide RunLog, InLanes, KernelChain, FindsChunk, Backward;
    var kernels := RunIsSound(su.chunks, su.uses, su.modes, held);
  }

  /** In the order of the program, the buffers show what the iterations do. */
  lemma {:induction false} PipelineShows<V>(iterations: nat, su: P.Setup, start: map<nat, nat>, w: World<V>,
                                            m: Memory<V>, st: Shown<V>, z: Bounds)
    requires Fits(su, z) && su.modes == w.modes && Inside(start, z.chunks) && Shows(m, start, w.modes, st, z)
    ensures var r := P.PipelineLog(iterations, su, start);
            Shows(Exec(r.0, w, m), r.1, w.modes, Iterations(w, su, iterations, st), z) && Inside(r.1, z.chunks)
  {
    hide Shows, Exec, RunLog, OnChunks, Cleared, Divided, Inside, P.OneIteration, Fits;
    FitsIsValid(su, z);
    if iterations == 0 {
      NothingDone(w, m);
    } else {
      PipelineShows(iterations - 1, su, start, w, m, st, z);
      var before := P.PipelineLog(iterations - 1, su, start);
      IterationShows(before.0, RunLog(su.chunks, su.uses, su.modes, before.1), su, iterations - 1, before.1, w, m,
                     Iterations(w, su, iterations - 1, st), z);
    }
  }

  lemma FitsIsValid(su: P.Setup, z: Bounds)
    requires Fits(su, z)
    ensures su.Valid()
  {
  }

  /** And so in every schedule in which everything completes, if the pipeline is tied to the host: labels and points,
      masses, sums and centroids are those of the iterations, wherever they are. */
  lemma EveryScheduleShows<V(!new)>(iterations: nat, su: P.Setup, start: map<nat, nat>, w: World<V>, order: seq<nat>,
                                    m: Memory<V>, st: Shown<V>, z: Bounds)
    requires Fits(su, z) && su.modes == w.modes && Inside(start, z.chunks) && Shows(m, start, w.modes, st, z)
    requires Pipelined(su.uses, su.modes) && P.Tied(su.tie, su.touches, iterations)
    requires forall turn: nat :: turn < QUEUES ==> PointsSettled([], start, turn)
    requires var log := P.PipelineLog(iterations, su, start).0; Schedule(log, order) && Complete(order, |log|)
    ensures var r := P.PipelineLog(iterations, su, start);
            && (forall a :: 0 <= a < |order| ==> order[a] < |EffectsOf(r.0, w)|)
            && Shows(InTurn(EffectsOf(r.0, w), order, m), r.1, w.modes, Iterations(w, su, iterations, st), z)
  {
    hide Shows, Exec, P.PipelineLog, PointsSettled, Pipelined, P.Tied, Schedule, InTurn, Local, EffectOf, Iterations;
    var log := P.PipelineLog(iterations, su, start).0;
    forall i | 0 <= i < |log|
      ensures Local(log[i], EffectsOf(log, w)[i])
    {
      EffectIsLocal(log[i], w);
    }
    P.AsTheProgramSays(iterations, su, start, EffectsOf(log, w), order, m);
    ExecIsInTurn(log, w, m, |log|);
    assert log[..|log|] == log;
    PipelineShows(iterations, su, start, w, m, st, z);
  }
}
