/** A launch whose work-items each add up a tile of their own, with its loads and stores interleaved in any way: every
    tile comes out as if its work-item had run alone. */
module InterleavedTiles {
  import opened Clustering
  import opened ColumnMajor
  import opened Indices
  import opened Strides
  import opened Kernels
  import opened Stages
  import opened ReduceVectorParcol
  import opened WorkItems
  import I = InterleavedRounds

  /** What a kernel does to its tile: it zeroes a cell, or adds a value to it. */
  datatype Update = Zero(cell: nat) | Plus(cell: nat, value: real)

  function Updated(mem: seq<real>, u: Update): (r: seq<real>)
    ensures |r| == |mem|
  {
    if u.cell >= |mem| then mem else mem[u.cell := if u.Zero? then 0.0 else mem[u.cell] + u.value]
  }

  /** The updates in their order. */
  function Apply(mem: seq<real>, us: seq<Update>): (r: seq<real>)
    ensures |r| == |mem|
  {
    if us == [] then mem else Updated(Apply(mem, us[..|us| - 1]), us[|us| - 1])
  }

  lemma {:induction false} ApplyBoth(mem: seq<real>, us: seq<Update>, vs: seq<Update>)
    ensures Apply(mem, us + vs) == Apply(Apply(mem, us), vs)
  {
    if vs == [] {
      assert us + vs == us;
    } else {
      ApplyBoth(mem, us, vs[..|vs| - 1]);
      assert (us + vs)[..|us + vs| - 1] == us + vs[..|vs| - 1];
    }
  }

  // ---------- single loads and stores ----------

  function DoSet(value: real, regs: Regs, mem: seq<real>): (Regs, seq<real>) {
    ([value], mem)
  }

  function DoIncrease(value: real, regs: Regs, mem: seq<real>): (Regs, seq<real>) {
    ([At(regs, 0) + value], mem)
  }

  /** Sets the register. */
  function Set(value: real): Step {
    (regs, mem) => DoSet(value, regs, mem)
  }

  /** Adds to the register what was read from a buffer that the launch only reads. */
  function Increase(value: real): Step {
    (regs, mem) => DoIncrease(value, regs, mem)
  }

  /** An update is a load, an addition and a store. */
  function StepsOf(u: Update): (steps: seq<Step>)
    ensures |steps| == 3
  {
    [I.Load(u.cell), if u.Zero? then Set(0.0) else Increase(u.value), I.Store(u.cell)]
  }

  function Program(us: seq<Update>): (program: seq<Step>)
    ensures |program| == 3 * |us|
  {
    if us == [] then [] else Program(us[..|us| - 1]) + StepsOf(us[|us| - 1])
  }

  lemma {:induction false} StepsOfProgram(us: seq<Update>, m: nat)
    requires m < 3 * |us|
    ensures Program(us)[m] == StepsOf(us[m / 3])[m % 3]
  {
    if m < 3 * (|us| - 1) {
      StepsOfProgram(us[..|us| - 1], m);
    }
  }

  lemma {:induction false} AloneInBoth(program: seq<Step>, more: seq<Step>, regs: Regs, mem: seq<real>, m: nat)
    requires m <= |more|
    ensures var r := Alone(program, regs, mem, |program|);
            Alone(program + more, regs, mem, |program| + m) == Alone(more, r.0, r.1, m)
  {
    if m > 0 {
      AloneInBoth(program, more, regs, mem, m - 1);
    } else {
      AloneInPrefix(program, more, regs, mem, |program|);
    }
  }

  lemma {:induction false} AloneInPrefix(program: seq<Step>, more: seq<Step>, regs: Regs, mem: seq<real>, m: nat)
    requires m <= |program|
    ensures Alone(program + more, regs, mem, m) == Alone(program, regs, mem, m)
  {
    if m > 0 {
      AloneInPrefix(program, more, regs, mem, m - 1);
    }
  }

  lemma UpdateAlone(u: Update, regs: Regs, mem: seq<real>)
    requires u.cell < |mem|
    ensures Alone(StepsOf(u), regs, mem, 3).1 == Updated(mem, u)
  {
    var steps := StepsOf(u);
    assert Alone(steps, regs, mem, 0) == (regs, mem);
    assert Alone(steps, regs, mem, 1) == ([mem[u.cell]], mem);
    var value := if u.Zero? then 0.0 else mem[u.cell] + u.value;
    assert Alone(steps, regs, mem, 2) == ([value], mem);
    assert Alone(steps, regs, mem, 3) == I.DoStore(u.cell, [value], mem);
  }

  /** Alone, a work-item makes its updates in their order. */
  lemma {:induction false} ProgramAlone(us: seq<Update>, regs: Regs, mem: seq<real>)
    requires forall m :: 0 <= m < |us| ==> us[m].cell < |mem|
    ensures Alone(Program(us), regs, mem, |Program(us)|).1 == Apply(mem, us)
  {
    hide Alone, StepsOf;
    if us == [] {
      assert Alone([], regs, mem, 0) == (regs, mem) by {
        NoSteps(regs, mem);
      }
    } else {
      var init, u := us[..|us| - 1], us[|us| - 1];
      ProgramAlone(init, regs, mem);
      var r := Alone(Program(init), regs, mem, |Program(init)|);
      AloneInBoth(Program(init), StepsOf(u), regs, mem, 3);
      UpdateAlone(u, r.0, r.1);
    }
  }

  lemma NoSteps(regs: Regs, mem: seq<real>)
    ensures Alone([], regs, mem, 0) == (regs, mem)
  {
  }

  // ---------- tiles of their own ----------

  /** Every work-item keeps to its tile, the T cells from number gid * T on. */
  ghost predicate InTiles(us: seq<seq<Update>>, T: nat) {
    forall gid, m :: 0 <= gid < |us| && 0 <= m < |us[gid]| ==>
                       gid * T <= us[gid][m].cell < gid * T + T
  }

  ghost function TileOwner(items: nat, T: nat): Ownership {
    c => if T > 0 && 0 <= c < T * items then c / T else -1
  }

  function ProgramsOf(us: seq<seq<Update>>): (programs: Programs)
    ensures |programs| == |us| && forall gid :: 0 <= gid < |us| ==> programs[gid] == Program(us[gid])
  {
    seq(|us|, gid requires 0 <= gid < |us| => Program(us[gid]))
  }

  lemma OwnTile(items: nat, T: nat, gid: nat, c: nat)
    requires gid < items && gid * T <= c < gid * T + T
    ensures TileOwner(items, T)(c) == gid && c < T * items
  {
    DivMod(T, gid, c - gid * T);
    InMatrix(c - gid * T, gid, T, items);
  }

  lemma StepsAreConfined(u: Update, own: Ownership, i: int)
    requires own(u.cell) == i
    ensures forall m :: 0 <= m < 3 ==> Confined(StepsOf(u)[m], own, i)
  {
    hide At;
    AccessIsConfined(u.cell, own, i);
    assert Confined(Set(0.0), own, i) && Confined(Increase(if u.Zero? then 0.0 else u.value), own, i);
  }

  /** Loads and stores of a cell of one's own. */
  lemma AccessIsConfined(c: nat, own: Ownership, i: int)
    requires own(c) == i
    ensures Confined(I.Load(c), own, i) && Confined(I.Store(c), own, i)
  {
    forall regs: Regs, a, b | Agree(own, i, a, b)
      ensures At(a, c) == At(b, c) && I.Load(c)(regs, a).0 == I.Load(c)(regs, b).0
    {
      if 0 <= c < |a| {
        assert a[c] == b[c];
      }
    }
  }

  lemma TilesAreConfined(us: seq<seq<Update>>, T: nat)
    requires InTiles(us, T)
    ensures AllConfined(ProgramsOf(us), TileOwner(|us|, T))
  {
    hide Confined, StepsOf, TileOwner;
    forall gid, m | 0 <= gid < |us| && 0 <= m < |ProgramsOf(us)[gid]|
      ensures Confined(ProgramsOf(us)[gid][m], TileOwner(|us|, T), gid)
    {
      var u := us[gid][m / 3];
      OwnTile(|us|, T, gid, u.cell);
      StepsAreConfined(u, TileOwner(|us|, T), gid);
      StepsOfProgram(us[gid], m);
    }
  }

  /** Nobody has started yet. */
  function Start(items: nat, mem: seq<real>): State {
    State(seq(items, i => 0), seq(items, i => []), mem)
  }

  ghost predicate Finishes(us: seq<seq<Update>>, mem: seq<real>, schedule: seq<nat>) {
    Turns(schedule, |us|)
    && forall i :: 0 <= i < |us| ==> Interleave(ProgramsOf(us), Start(|us|, mem), schedule).pc[i] == |Program(us[i])|
  }

  /** Whatever the schedule, once all work-items are done every tile holds what its work-item makes of it alone. */
  lemma TilesAsAlone(us: seq<seq<Update>>, T: nat, mem: seq<real>, schedule: seq<nat>, gid: nat, c: nat)
    requires InTiles(us, T) && |us| * T <= |mem| && gid < |us| && gid * T <= c < gid * T + T
    requires Finishes(us, mem, schedule)
    ensures var end := Interleave(ProgramsOf(us), Start(|us|, mem), schedule).mem;
            c < |mem| == |end| && end[c] == Apply(mem, us[gid])[c]
  {
    hide Interleave, AllConfined, Alone, Program, Apply, TileOwner;
    var programs, own, start := ProgramsOf(us), TileOwner(|us|, T), Start(|us|, mem);
    TilesAreConfined(us, T);
    OwnTile(|us|, T, gid, c);
    SizeStays(programs, own, start, schedule);
    RunsAsIfAlone(programs, own, start, schedule, gid);
    forall m | 0 <= m < |us[gid]|
      ensures us[gid][m].cell < |mem|
    {
      OwnTile(|us|, T, gid, us[gid][m].cell);
    }
    ProgramAlone(us[gid], start.regs[gid], mem);
  }

  // ---------- the cluster merge kernel ----------

  /** All updates are to cells off + lo, ..., off + hi - 1. */
  ghost predicate Inside(us: seq<Update>, off: nat, lo: nat, hi: nat) {
    forall m :: 0 <= m < |us| ==> off + lo <= us[m].cell < off + hi
  }

  function Zeros(off: nat, m: nat): seq<Update> {
    if m == 0 then [] else Zeros(off, m - 1) + [Zero(off + (m - 1))]
  }

  /** Adds feature f of the first m points of a vector from point q on. */
  function LaneUpdates(off: nat, x: seq<real>, n: nat, k: nat, lab: seq<int>, q: nat, f: nat, m: nat): seq<Update>
    requires Labels(lab, k) && q + m <= |lab|
  {
    if m == 0 then []
    else
      Product(k, f);
      LaneUpdates(off, x, n, k, lab, q, f, m - 1)
      + [Plus(off + k * f + lab[q + (m - 1)], At(x, n * f + (q + (m - 1))))]
  }

  /** Adds the first m features of the vector of v points from point q on. */
  function VectorUpdates(off: nat, x: seq<real>, n: nat, k: nat, lab: seq<int>, q: nat, v: nat, m: nat): seq<Update>
    requires Labels(lab, k) && q + v <= |lab|
  {
    if m == 0 then [] else VectorUpdates(off, x, n, k, lab, q, v, m - 1) + LaneUpdates(off, x, n, k, lab, q, m - 1, v)
  }

  /** The loop from vector w on. */
  ghost function LoopUpdates(off: nat, x: seq<real>, n: nat, p: nat, k: nat, lab: seq<int>, v: nat, l: Loop, w: nat):
    seq<Update>
    requires v > 0 && Labels(lab, k) && |lab| == n && Fits(l, v, n) && w >= l.first
    decreases l.bound - v * w
  {
    if v * w >= l.bound then []
    else
      Product(v, w);
      Distribute(v, w, l.stride);
      Monotone(1, l.stride, v);
      VectorUpdates(off, x, n, k, lab, v * w, v, p) + LoopUpdates(off, x, n, p, k, lab, v, l, w + l.stride)
  }

  lemma {:induction false} ZerosHold(mem: seq<real>, off: nat, m: nat)
    requires off + m <= |mem|
    ensures Holding(Apply(mem, Zeros(off, m)), off, 0, m, t => 0.0) && Inside(Zeros(off, m), off, 0, m)
  {
    if m > 0 {
      ZerosHold(mem, off, m - 1);
    }
  }

  lemma {:induction false} LanesHold(mem: seq<real>, off: nat, x: seq<real>, n: nat, k: nat, lab: seq<int>, v: nat,
                                     f: nat, m: nat, l: Loop, w: nat)
    requires v > 0 && k > 0 && l.stride > 0 && IsStep(l, w) && 0 <= v * w < l.bound && m <= v && v * w + v <= n
    requires |lab| == n && Labels(lab, k) && n * (f + 1) <= |x| && off + k * (f + 1) <= |mem|
    requires Holding(mem, off, k * f, k * (f + 1), FeatureParts(l, v, x, n, lab, k, v * w))
    ensures var us := LaneUpdates(off, x, n, k, lab, v * w, f, m);
            && Inside(us, off, k * f, k * (f + 1)) && OnlyWithin(Apply(mem, us), mem, off, k * f, k * (f + 1))
            && Holding(Apply(mem, us), off, k * f, k * (f + 1), FeatureParts(l, v, x, n, lab, k, v * w + m))
  {
    hide Part, IsStep, FeatureParts, Holding, Apply, Inside, OnlyWithin;
    Product(k, f);
    if m == 0 {
      NothingApplied(mem, off, k * f, k * (f + 1));
    } else {
      LanesHold(mem, off, x, n, k, lab, v, f, m - 1, l, w);
      Product(n, f);
      Distribute(k, f, 1);
      Distribute(n, f, 1);
      var q := v * w + (m - 1);
      var init := LaneUpdates(off, x, n, k, lab, v * w, f, m - 1);
      var was, u := Apply(mem, init), Plus(off + k * f + lab[q], At(x, n * f + q));
      OneMore(mem, init, u, off, k * f, k * (f + 1));
      LaneAdded(was, Updated(was, u), off, x, n, k, lab[q], q, f, lab, l, v, w, m - 1);
    }
  }

  lemma NothingApplied(mem: seq<real>, off: nat, lo: nat, hi: nat)
    ensures Apply(mem, []) == mem && Inside([], off, lo, hi) && OnlyWithin(mem, mem, off, lo, hi)
  {
  }

  lemma OneMore(mem: seq<real>, us: seq<Update>, u: Update, off: nat, lo: nat, hi: nat)
    requires Inside(us, off, lo, hi) && OnlyWithin(Apply(mem, us), mem, off, lo, hi) && off + lo <= u.cell < off + hi
    ensures Apply(mem, us + [u]) == Updated(Apply(mem, us), u)
    ensures Inside(us + [u], off, lo, hi) && OnlyWithin(Apply(mem, us + [u]), mem, off, lo, hi)
  {
    assert (us + [u])[..|us|] == us;
  }

  lemma {:induction false} VectorHolds(mem: seq<real>, off: nat, x: seq<real>, n: nat, p: nat, k: nat, lab: seq<int>,
                                       v: nat, m: nat, l: Loop, w: nat)
    requires v > 0 && k > 0 && l.stride > 0 && IsStep(l, w) && 0 <= v * w < l.bound && v * w + v <= n && m <= p
    requires |lab| == n && Labels(lab, k) && |x| == n * p && off + k * p <= |mem|
    requires Holding(mem, off, 0, k * p, FeatureParts(l, v, x, n, lab, k, v * w))
    ensures var us := VectorUpdates(off, x, n, k, lab, v * w, v, m);
            && k * m >= 0 && Inside(us, off, 0, k * m) && OnlyWithin(Apply(mem, us), mem, off, 0, k * m)
            && Holding(Apply(mem, us), off, 0, k * m, FeatureParts(l, v, x, n, lab, k, v * w + v))
  {
    hide Part, IsStep, FeatureParts, Holding, Apply, Inside, OnlyWithin, LaneUpdates;
    Product(k, m);
    if m == 0 {
      NothingApplied(mem, off, 0, 0);
      HoldsNothing(mem, off, k * p, FeatureParts(l, v, x, n, lab, k, v * w),
                   FeatureParts(l, v, x, n, lab, k, v * w + v));
    } else {
      VectorHolds(mem, off, x, n, p, k, lab, v, m - 1, l, w);
      var init, last := VectorUpdates(off, x, n, k, lab, v * w, v, m - 1),
          LaneUpdates(off, x, n, k, lab, v * w, m - 1, v);
      Monotone(m, p, k);
      Monotone(m, p, n);
      Distribute(k, m - 1, 1);
      Product(k, m - 1);
      var was := Apply(mem, init);
      HoldsBehind(mem, was, off, k * (m - 1), k * m, k * p, FeatureParts(l, v, x, n, lab, k, v * w));
      LanesHold(was, off, x, n, k, lab, v, m - 1, v, l, w);
      ApplyBoth(mem, init, last);
      HoldsMore(mem, was, Apply(was, last), init, last, off, k * (m - 1), k * m,
                FeatureParts(l, v, x, n, lab, k, v * w + v));
    }
  }

  lemma HoldsNothing(mem: seq<real>, off: nat, hi: nat, was: int -> real, value: int -> real)
    requires Holding(mem, off, 0, hi, was)
    ensures Holding(mem, off, 0, 0, value)
  {
  }

  /** What is behind the cells that have changed is held still. */
  lemma HoldsBehind(mem: seq<real>, now: seq<real>, off: nat, lo: nat, mid: nat, hi: nat, value: int -> real)
    requires lo <= mid <= hi && Holding(mem, off, 0, hi, value) && OnlyWithin(now, mem, off, 0, lo)
    ensures Holding(now, off, lo, mid, value)
  {
  }

  lemma HoldsMore(mem: seq<real>, was: seq<real>, now: seq<real>, us: seq<Update>, vs: seq<Update>, off: nat, lo: nat,
                  hi: nat, value: int -> real)
    requires lo <= hi && OnlyWithin(was, mem, off, 0, lo) && OnlyWithin(now, was, off, lo, hi)
    requires Holding(was, off, 0, lo, value) && Holding(now, off, lo, hi, value)
    requires Inside(us, off, 0, lo) && Inside(vs, off, lo, hi)
    ensures OnlyWithin(now, mem, off, 0, hi) && Holding(now, off, 0, hi, value) && Inside(us + vs, off, 0, hi)
  {
  }

  lemma {:induction false} LoopHolds(mem: seq<real>, off: nat, x: seq<real>, n: nat, p: nat, k: nat, lab: seq<int>,
                                     v: nat, l: Loop, w: nat)
    requires v > 0 && k > 0 && Fits(l, v, n) && w >= l.first && IsStep(l, w)
    requires |lab| == n && Labels(lab, k) && |x| == n * p && k * p >= 0 && off + k * p <= |mem| && v * w >= 0
    requires Holding(mem, off, 0, k * p, FeatureParts(l, v, x, n, lab, k, v * w))
    ensures var us := LoopUpdates(off, x, n, p, k, lab, v, l, w);
            && Inside(us, off, 0, k * p)
            && Holding(Apply(mem, us), off, 0, k * p, FeatureParts(l, v, x, n, lab, k, n))
    decreases l.bound - v * w
  {
    hide Part, IsStep, FeatureParts, Holding, Apply, Inside, OnlyWithin, VectorUpdates;
    if v * w >= l.bound {
      NothingApplied(mem, off, 0, k * p);
      LastStep(l, v, x, n, lab, k, w, mem, off, 0, k * p);
    } else {
      var next := v * (w + l.stride);
      assert v * w + v <= n;
      VectorHolds(mem, off, x, n, p, k, lab, v, p, l, w);
      var first := VectorUpdates(off, x, n, k, lab, v * w, v, p);
      NextStep(l, v, x, n, lab, k, w, Apply(mem, first), off, 0, k * p);
      Monotone(1, l.stride, v);
      LoopHolds(Apply(mem, first), off, x, n, p, k, lab, v, l, w + l.stride);
      var rest := LoopUpdates(off, x, n, p, k, lab, v, l, w + l.stride);
      ApplyBoth(mem, first, rest);
      InsideBoth(first, rest, off, k * p);
    }
  }

  lemma InsideBoth(us: seq<Update>, vs: seq<Update>, off: nat, hi: nat)
    requires Inside(us, off, 0, hi) && Inside(vs, off, 0, hi)
    ensures Inside(us + vs, off, 0, hi)
  {
  }

  /** A work-item zeroes its tile and adds up its points. */
  ghost function MergeUpdates(s: Launch, x: seq<real>, n: nat, p: nat, k: nat, lab: seq<int>, gid: nat): seq<Update>
    requires s.Valid(n) && Labels(lab, k) && |lab| == n && gid < s.Size()
  {
    LoopFits(s.ItemOf(gid), s.local_stride, s.v, n);
    Product(k, p);
    Product(gid, k * p);
    var l := s.LoopOf(gid, n);
    Zeros(gid * (k * p), k * p) + LoopUpdates(gid * (k * p), x, n, p, k, lab, s.v, l, l.first)
  }

  lemma MergeAlone(s: Launch, x: seq<real>, n: nat, p: nat, k: nat, lab: seq<int>, gid: nat, mem: seq<real>)
    requires s.Valid(n) && k > 0 && |x| == n * p && Labels(lab, k) && |lab| == n && gid < s.Size()
    requires s.Size() * (k * p) <= |mem|
    ensures var us, off := MergeUpdates(s, x, n, p, k, lab, gid), gid * (k * p);
            && off >= 0 && k * p >= 0 && Inside(us, off, 0, k * p)
            && Holding(Apply(mem, us), off, 0, k * p, FeatureTiles(s, x, n, lab, k)(gid))
  {
    hide Part, IsStep, FeatureParts, Holding, Apply, Inside, Zeros, LoopUpdates;
    LoopFits(s.ItemOf(gid), s.local_stride, s.v, n);
    Product(k, p);
    TileInside(gid, k * p, s.Size());
    var l, off, T := s.LoopOf(gid, n), gid * (k * p), k * p;
    ZerosHold(mem, off, T);
    var zeroed := Apply(mem, Zeros(off, T));
    FirstStep(l, s.v, x, n, lab, k, zeroed, off, 0, T);
    LoopHolds(zeroed, off, x, n, p, k, lab, s.v, l, l.first);
    var rest := LoopUpdates(off, x, n, p, k, lab, s.v, l, l.first);
    ApplyBoth(mem, Zeros(off, T), rest);
    InsideBoth(Zeros(off, T), rest, off, T);
  }

  ghost function AllMergeUpdates(s: Launch, x: seq<real>, n: nat, p: nat, k: nat, lab: seq<int>): (us: seq<seq<Update>>)
    requires s.Valid(n) && Labels(lab, k) && |lab| == n
    ensures |us| == s.Size() && forall gid :: 0 <= gid < |us| ==> us[gid] == MergeUpdates(s, x, n, p, k, lab, gid)
  {
    seq(s.Size(), gid requires 0 <= gid < s.Size() => MergeUpdates(s, x, n, p, k, lab, gid))
  }

  /** Whatever the schedule of its loads and stores, the cluster merge kernel leaves in every tile the feature sums of
      the points of its work-item. */
  lemma MergeInterleaved(s: Launch, x: seq<real>, n: nat, p: nat, k: nat, lab: seq<int>, mem: seq<real>,
                         schedule: seq<nat>)
    requires s.Valid(n) && k > 0 && |x| == n * p && Labels(lab, k) && |lab| == n && s.Size() * (k * p) <= |mem|
    requires Finishes(AllMergeUpdates(s, x, n, p, k, lab), mem, schedule)
    ensures var us := AllMergeUpdates(s, x, n, p, k, lab);
            var end := Interleave(ProgramsOf(us), Start(|us|, mem), schedule).mem;
            k * p >= 0 && Tiles(end, k * p, Ids(s.Size()), FeatureTiles(s, x, n, lab, k))
  {
    hide Interleave, Apply, MergeUpdates, FeatureTiles;
    var us: seq<seq<Update>>, T := AllMergeUpdates(s, x, n, p, k, lab), k * p;
    Product(k, p);
    forall gid: nat, m: nat | gid < |us| && m < |us[gid]|
      ensures gid * T <= us[gid][m].cell < gid * T + T
    {
      MergeAlone(s, x, n, p, k, lab, gid, mem);
    }
    var end := Interleave(ProgramsOf(us), Start(|us|, mem), schedule).mem;
    forall gid | gid in Ids(s.Size())
      ensures gid * T >= 0 && Holding(end, gid * T, 0, T, FeatureTiles(s, x, n, lab, k)(gid))
    {
      MergeAlone(s, x, n, p, k, lab, gid, mem);
      TileInside(gid, T, s.Size());
      forall c | gid * T <= c < gid * T + T
        ensures c < |end| && end[c] == Apply(mem, us[gid])[c]
      {
        TilesAsAlone(us, T, mem, schedule, gid, c);
      }
      TilesAsAloneSize(us, T, mem, schedule);
    }
  }

  lemma TilesAsAloneSize(us: seq<seq<Update>>, T: nat, mem: seq<real>, schedule: seq<nat>)
    requires InTiles(us, T) && Finishes(us, mem, schedule)
    ensures |Interleave(ProgramsOf(us), Start(|us|, mem), schedule).mem| == |mem|
  {
    hide Interleave, AllConfined;
    TilesAreConfined(us, T);
    SizeStays(ProgramsOf(us), TileOwner(|us|, T), Start(|us|, mem), schedule);
  }
}
