/** What the commands of a run do to the contents of host, staging and device buffers. The host's memory and the device
    buffers together show the objects; a run leaves on them what its kernels do, chunk by chunk and function by
    function, wherever the chunks are. */
module RunMeaning {
  import opened BufferCache
  import opened Schedules
  import opened Commands

  /** The modes of the objects, what a kernel leaves at a place, given what it finds at all of its places, what clearing
      leaves, and what a division leaves. */
  datatype World<!V> = World(modes: seq<ObjectMode>, kernel: (nat, nat, Place, map<Place, V>) -> V, zero: V,
                             divide: (Place, map<Place, V>) -> V)
  {
    predicate Written(s: nat) {
      s / QUEUES + 1 < |modes| && modes[s / QUEUES + 1] == ReadWrite
    }
  }

  // ---------- what commands do ----------

  ghost function Inputs<V>(c: Command, m: Memory<V>): map<Place, V> {
    map p | p in m && On(c, p) :: m[p]
  }

  /** What a command leaves at a place that it works on. */
  ghost function NewValue<V>(c: Command, w: World<V>, m: Memory<V>, p: Place): V
    requires p in m
  {
    match c.kind
    case Kernel(chunk, r) => if p.Device? && !w.Written(p.slot) then m[p] else w.kernel(r, chunk, p, Inputs(c, m))
    case ToDevice(_) => if p.Device? && Staging(p.slot) in m then m[Staging(p.slot)] else m[p]
    case FromDevice => if p.Staging? && Device(p.slot) in m then m[Device(p.slot)] else m[p]
    case CopyTask(chunk, back) =>
      if !back && p.Staging? && Host(p.slot / QUEUES + 1, chunk) in m then m[Host(p.slot / QUEUES + 1, chunk)]
      else if back && p.Host? && p.oid > 0 && SlotOf(p.oid, chunk) in c.slots && Staging(SlotOf(p.oid, chunk)) in m then
        m[Staging(SlotOf(p.oid, chunk))]
      else m[p]
    case Clear => if p.Global? then w.zero else m[p]
    case Divide => if p.Global? then w.divide(p, Inputs(c, m)) else m[p]
    case Barrier => m[p]
    case Copy => m[p]
    case HostWait => m[p]
  }

  ghost function EffectOf<V>(c: Command, w: World<V>): Effect<V> {
    (m: Memory<V>) => map p | p in m :: if On(c, p) then NewValue(c, w, m, p) else m[p]
  }

  /** Commands read and write nothing but the places that they work on. */
  lemma EffectIsLocal<V(!new)>(c: Command, w: World<V>)
    ensures Local(c, EffectOf(c, w))
  {
    forall s: Memory<V>, t: Memory<V> | Alike(c, s, t)
      ensures Alike(c, EffectOf(c, w)(s), EffectOf(c, w)(t))
    {
      assert Inputs(c, s) == Inputs(c, t);
      forall p | p in s && On(c, p)
        ensures NewValue(c, w, s, p) == NewValue(c, w, t, p)
      {
        SameNewValue(c, w, s, t, p);
      }
    }
  }

  lemma SameNewValue<V>(c: Command, w: World<V>, s: Memory<V>, t: Memory<V>, p: Place)
    requires Alike(c, s, t) && p in s && On(c, p) && Inputs(c, s) == Inputs(c, t)
    ensures NewValue(c, w, s, p) == NewValue(c, w, t, p)
  {
    if c.kind.CopyTask? && p.Staging? {
      assert On(c, Host(p.slot / QUEUES + 1, c.kind.chunk));
    }
  }

  /** The commands of a log, one after the other. */
  ghost function Exec<V>(log: seq<Command>, w: World<V>, m: Memory<V>): (r: Memory<V>)
    ensures r.Keys == m.Keys
  {
    if log == [] then m else EffectOf(log[|log| - 1], w)(Exec(log[..|log| - 1], w, m))
  }

  ghost function EffectsOf<V>(log: seq<Command>, w: World<V>): (effects: seq<Effect<V>>)
    ensures |effects| == |log|
  {
    seq(|log|, i requires 0 <= i < |log| => EffectOf(log[i], w))
  }

  lemma {:induction false} ExecIsInTurn<V>(log: seq<Command>, w: World<V>, m: Memory<V>, n: nat)
    requires n <= |log|
    ensures InTurn(EffectsOf(log, w), Creation(n), m) == Exec(log[..n], w, m)
  {
    hide EffectOf;
    if n > 0 {
      ExecIsInTurn(log, w, m, n - 1);
      assert Creation(n)[..n - 1] == Creation(n - 1) && log[..n][..n - 1] == log[..n - 1];
    }
  }

  lemma ExecNext<V>(log: seq<Command>, c: Command, w: World<V>, m: Memory<V>)
    ensures Exec(log + [c], w, m) == EffectOf(c, w)(Exec(log, w, m))
  {
    hide EffectOf;
    assert (log + [c])[..|log|] == log;
  }

  lemma {:induction false} ExecOn<V>(log: seq<Command>, more: seq<Command>, w: World<V>, m: Memory<V>)
    ensures Exec(log + more, w, m) == Exec(more, w, Exec(log, w, m))
    decreases |more|
  {
    hide EffectOf;
    if more == [] {
      assert log + more == log;
    } else {
      var init := more[..|more| - 1];
      ExecOn(log, init, w, m);
      assert (log + more)[..|log + more| - 1] == log + init;
    }
  }

  // ---------- what the buffers show ----------

  /** The chunks of the objects, wherever they are, and the buffers that stay on the device. */
  datatype Shown<!V> = Shown(view: (nat, nat) -> V, globals: nat -> V)

  /** All slots of the objects, so many chunks of each of them, and so many buffers that stay on the device. */
  datatype Bounds = Bounds(objects: nat, chunks: nat, buffers: nat)

  ghost predicate Whole<V>(m: Memory<V>, z: Bounds) {
    && (forall s: nat :: s / QUEUES + 1 < z.objects ==> Device(s) in m && Staging(s) in m)
    && (forall o: nat, b: nat :: 1 <= o < z.objects && b < z.chunks ==> Host(o, b) in m)
    && forall g: nat :: g < z.buffers ==> Global(g) in m
  }

  /** A chunk that is in its slot is right on the device, and also on the host if it is only read; any other chunk is
      right on the host. */
  ghost predicate ShowsChunk<V>(m: Memory<V>, held: map<nat, nat>, mode: ObjectMode, value: V, o: nat, b: nat)
    requires o > 0 && Device(SlotOf(o, b)) in m && Host(o, b) in m
  {
    var s := SlotOf(o, b);
    if s in held && held[s] == b then m[Device(s)] == value && (mode == ReadOnly ==> m[Host(o, b)] == value)
    else m[Host(o, b)] == value
  }

  ghost predicate Shows<V>(m: Memory<V>, held: map<nat, nat>, modes: seq<ObjectMode>, st: Shown<V>, z: Bounds) {
    && Whole(m, z) && z.objects == |modes|
    && (forall o: nat, b: nat :: 1 <= o < |modes| && modes[o] != Transient && b < z.chunks ==>
          ShowsChunk(m, held, modes[o], st.view(o, b), o, b))
    && forall g: nat :: g < z.buffers ==> m[Global(g)] == st.globals(g)
  }

  /** The slots hold chunks that there are. */
  ghost predicate Inside(held: map<nat, nat>, chunks: nat) {
    Turns(held) && forall s :: s in held ==> held[s] < chunks
  }

  lemma FillDoes<V>(at: nat, queue: nat, waits: set<nat>, s: nat, chunk: nat, w: World<V>, m: Memory<V>)
    requires Device(s) in m && Staging(s) in m && Host(s / QUEUES + 1, chunk) in m
    ensures var r := Exec(Fill(at, queue, waits, s, chunk), w, m);
            && r[Device(s)] == m[Host(s / QUEUES + 1, chunk)]
            && forall p :: p in m && p != Device(s) && p != Staging(s) ==> r[p] == m[p]
  {
    var fill := Fill(at, queue, waits, s, chunk);
    assert fill == [] + [fill[0]] + [fill[1]];
    ExecNext([], fill[0], w, m);
    ExecNext([] + [fill[0]], fill[1], w, m);
  }

  lemma ReadBackDoes<V>(at: nat, queue: nat, waits: set<nat>, s: nat, chunk: nat, w: World<V>, m: Memory<V>)
    requires Device(s) in m && Staging(s) in m && Host(s / QUEUES + 1, chunk) in m && SlotOf(s / QUEUES + 1, chunk) == s
    ensures var r := Exec(ReadBack(at, queue, waits, s, chunk), w, m);
            && r[Host(s / QUEUES + 1, chunk)] == m[Device(s)]
            && forall p :: p in m && p != Host(s / QUEUES + 1, chunk) && p != Staging(s) ==> r[p] == m[p]
  {
    var back := ReadBack(at, queue, waits, s, chunk);
    assert back == [] + [back[0]] + [back[1]] + [back[2]];
    ExecNext([], back[0], w, m);
    ExecNext([] + [back[0]], back[1], w, m);
    ExecNext([] + [back[0]] + [back[1]], back[2], w, m);
    var m1 := EffectOf(back[0], w)(m);
    assert m1[Staging(s)] == m[Device(s)];
    var m2 := EffectOf(back[1], w)(m1);
    assert On(back[1], Host(s / QUEUES + 1, chunk));
    assert m2[Host(s / QUEUES + 1, chunk)] == m[Device(s)];
  }

  /** Slots of different objects, or of chunks in turn, are different. */
  lemma SlotsApart(o: nat, b: nat, oid: nat, chunk: nat)
    requires o > 0 && oid > 0
    ensures SlotOf(o, b) == SlotOf(oid, chunk) <==> o == oid && b % QUEUES == chunk % QUEUES
  {
  }

  /** Once it is filled, slot s shows its chunk; everything else is as before. */
  lemma FilledShows<V>(m: Memory<V>, r: Memory<V>, held: map<nat, nat>, modes: seq<ObjectMode>, st: Shown<V>, z: Bounds,
                       oid: nat, chunk: nat)
    requires Shows(m, held, modes, st, z) && Inside(held, z.chunks) && 1 <= oid < |modes| && chunk < z.chunks
    requires modes[oid] == ReadOnly || SlotOf(oid, chunk) !in held
    requires !(SlotOf(oid, chunk) in held && held[SlotOf(oid, chunk)] == chunk)
    requires r.Keys == m.Keys && r[Device(SlotOf(oid, chunk))] == m[Host(oid, chunk)]
    requires forall p :: p in m && p != Device(SlotOf(oid, chunk)) && p != Staging(SlotOf(oid, chunk)) ==> r[p] == m[p]
    ensures Shows(r, held[SlotOf(oid, chunk) := chunk], modes, st, z)
  {
    var s := SlotOf(oid, chunk);
    forall o: nat, b: nat | 1 <= o < |modes| && modes[o] != Transient && b < z.chunks
      ensures ShowsChunk(r, held[s := chunk], modes[o], st.view(o, b), o, b)
    {
      SlotsApart(o, b, oid, chunk);
      assert ShowsChunk(m, held, modes[o], st.view(o, b), o, b);
    }
  }

  /** Reading a chunk back makes the host show it, and its slot might as well be empty. */
  lemma ReadBackShows<V>(m: Memory<V>, r: Memory<V>, held: map<nat, nat>, modes: seq<ObjectMode>, st: Shown<V>,
                         z: Bounds, oid: nat, s: nat)
    requires Shows(m, held, modes, st, z) && Inside(held, z.chunks) && 1 <= oid < |modes| && modes[oid] == ReadWrite
    requires s in held && s == SlotOf(oid, held[s])
    requires r.Keys == m.Keys && r[Host(oid, held[s])] == m[Device(s)]
    requires forall p :: p in m && p != Host(oid, held[s]) && p != Staging(s) ==> r[p] == m[p]
    ensures Shows(r, held - {s}, modes, st, z)
  {
    forall o: nat, b: nat | 1 <= o < |modes| && modes[o] != Transient && b < z.chunks
      ensures ShowsChunk(r, held - {s}, modes[o], st.view(o, b), o, b)
    {
      SlotsApart(o, b, oid, held[s]);
      assert ShowsChunk(m, held, modes[o], st.view(o, b), o, b);
    }
  }

  /** Fetching a chunk changes nothing of what is shown, whatever was in its slot. */
  lemma FetchShows<V>(at: nat, waits: set<nat>, oid: nat, chunk: nat, held: map<nat, nat>, w: World<V>, m: Memory<V>,
                      st: Shown<V>, z: Bounds)
    requires Shows(m, held, w.modes, st, z) && Inside(held, z.chunks) && 1 <= oid < |w.modes| && chunk < z.chunks
    ensures var s := SlotOf(oid, chunk);
            && Shows(Exec(Fetch(at, waits, s, chunk, held, w.modes[oid]), w, m), held[s := chunk], w.modes, st, z)
            && Inside(held[s := chunk], z.chunks)
  {
    hide ShowsChunk, ReadBack, Fill, Exec;
    var s, queue, mode := SlotOf(oid, chunk), chunk % QUEUES, w.modes[oid];
    var fetch := Fetch(at, waits, s, chunk, held, mode);
    if s in held && held[s] == chunk {
      NothingDone(w, m);
      assert held[s := chunk] == held;
    } else if mode == Transient {
      NothingDone(w, m);
      TransientShows(m, held, w.modes, st, z, oid, chunk);
    } else if s in held && mode == ReadWrite {
      var back, fill := ReadBack(at, queue, waits, s, held[s]), Fill(at + 3, queue, waits + {at + 2}, s, chunk);
      SlotsApart(oid, held[s], oid, chunk);
      ReadBackDoes(at, queue, waits, s, held[s], w, m);
      var m1 := Exec(back, w, m);
      ReadBackShows(m, m1, held, w.modes, st, z, oid, s);
      FillDoes(at + 3, queue, waits + {at + 2}, s, chunk, w, m1);
      FilledShows(m1, Exec(fill, w, m1), held - {s}, w.modes, st, z, oid, chunk);
      ExecOn(back, fill, w, m);
      assert (held - {s})[s := chunk] == held[s := chunk];
    } else {
      FillDoes(at, queue, waits, s, chunk, w, m);
      FilledShows(m, Exec(fetch, w, m), held, w.modes, st, z, oid, chunk);
    }
  }

  lemma NothingDone<V>(w: World<V>, m: Memory<V>)
    ensures Exec([], w, m) == m
  {
  }

  lemma TransientShows<V>(m: Memory<V>, held: map<nat, nat>, modes: seq<ObjectMode>, st: Shown<V>, z: Bounds, oid: nat,
                          chunk: nat)
    requires Shows(m, held, modes, st, z) && 1 <= oid < |modes| && modes[oid] == Transient
    ensures Shows(m, held[SlotOf(oid, chunk) := chunk], modes, st, z)
  {
    forall o: nat, b: nat | 1 <= o < |modes| && modes[o] != Transient && b < z.chunks
      ensures ShowsChunk(m, held[SlotOf(oid, chunk) := chunk], modes[o], st.view(o, b), o, b)
    {
      SlotsApart(o, b, oid, chunk);
      assert ShowsChunk(m, held, modes[o], st.view(o, b), o, b);
    }
  }

  // ---------- kernels ----------

  /** What a kernel finds at a place is what is shown. */
  ghost function Found<V>(st: Shown<V>, p: Place, chunk: nat): V {
    match p
    case Device(s) => st.view(s / QUEUES + 1, chunk)
    case Staging(s) => st.view(s / QUEUES + 1, chunk)
    case Host(o, b) => st.view(o, b)
    case Global(g) => st.globals(g)
  }

  ghost function KernelPlaces(objects: seq<nat>, touched: set<nat>, chunk: nat): set<Place>
    requires forall l :: 0 <= l < |objects| ==> objects[l] > 0
  {
    (set s | s in SlotsOf(objects, chunk) :: Device(s)) + (set g | g in touched :: Global(g))
  }

  ghost function ShownInputs<V>(objects: seq<nat>, touched: set<nat>, chunk: nat, st: Shown<V>): map<Place, V>
    requires forall l :: 0 <= l < |objects| ==> objects[l] > 0
  {
    map p | p in KernelPlaces(objects, touched, chunk) :: Found(st, p, chunk)
  }

  /** A function on a chunk, done to what is shown: it changes its chunk of the objects that may be written, and the
      buffers that it touches. */
  ghost function Apply<V>(w: World<V>, objects: seq<nat>, touched: set<nat>, r: nat, chunk: nat, st: Shown<V>): Shown<V>
    requires forall l :: 0 <= l < |objects| ==> objects[l] > 0
  {
    var inputs := ShownInputs(objects, touched, chunk, st);
    Shown((o: nat, b: nat) =>
            if b == chunk && o in objects && o < |w.modes| && w.modes[o] == ReadWrite then
              w.kernel(r, chunk, Device(SlotOf(o, chunk)), inputs)
            else st.view(o, b),
          (g: nat) => if g in touched then w.kernel(r, chunk, Global(g), inputs) else st.globals(g))
  }

  lemma InputsAreShown<V>(c: Command, objects: seq<nat>, touched: set<nat>, r: nat, chunk: nat, held: map<nat, nat>,
                          w: World<V>, m: Memory<V>, st: Shown<V>, z: Bounds)
    requires Shows(m, held, w.modes, st, z) && chunk < z.chunks && forall g :: g in touched ==> g < z.buffers
    requires forall l :: 0 <= l < |objects| ==>
               1 <= objects[l] < |w.modes| && w.modes[objects[l]] != Transient
               && SlotOf(objects[l], chunk) in held && held[SlotOf(objects[l], chunk)] == chunk
    requires c.kind == Kernel(chunk, r) && c.slots == SlotsOf(objects, chunk) && c.globals == touched
    ensures Inputs(c, m) == ShownInputs(objects, touched, chunk, st)
  {
    hide Shows;
    KernelOn(c, objects, touched, r, chunk);
    forall p
      ensures p in KernelPlaces(objects, touched, chunk) ==> p in m && m[p] == Found(st, p, chunk)
    {
      PlaceIsShown(objects, touched, chunk, held, w, m, st, z, p);
    }
    hide On, KernelPlaces, Found;
    assert Inputs(c, m).Keys == ShownInputs(objects, touched, chunk, st).Keys;
  }

  /** A kernel works on the slots of its objects and on the buffers that it touches. */
  lemma KernelOn(c: Command, objects: seq<nat>, touched: set<nat>, r: nat, chunk: nat)
    requires forall l :: 0 <= l < |objects| ==> objects[l] > 0
    requires c.kind == Kernel(chunk, r) && c.slots == SlotsOf(objects, chunk) && c.globals == touched
    ensures forall p :: On(c, p) <==> p in KernelPlaces(objects, touched, chunk)
  {
    hide SlotsOf;
  }

  lemma PlaceIsShown<V>(objects: seq<nat>, touched: set<nat>, chunk: nat, held: map<nat, nat>, w: World<V>,
                        m: Memory<V>, st: Shown<V>, z: Bounds, p: Place)
    requires Shows(m, held, w.modes, st, z) && chunk < z.chunks && forall g :: g in touched ==> g < z.buffers
    requires forall l :: 0 <= l < |objects| ==>
               1 <= objects[l] < |w.modes| && w.modes[objects[l]] != Transient
               && SlotOf(objects[l], chunk) in held && held[SlotOf(objects[l], chunk)] == chunk
    ensures p in KernelPlaces(objects, touched, chunk) ==> p in m && m[p] == Found(st, p, chunk)
  {
    if p in KernelPlaces(objects, touched, chunk) && p.Device? {
      var l :| 0 <= l < |objects| && p.slot == SlotOf(objects[l], chunk);
      assert ShowsChunk(m, held, w.modes[objects[l]], st.view(objects[l], chunk), objects[l], chunk);
    }
  }

  lemma KernelShows<V>(c: Command, objects: seq<nat>, touched: set<nat>, r: nat, chunk: nat, held: map<nat, nat>,
                       w: World<V>, m: Memory<V>, st: Shown<V>, z: Bounds)
    requires Shows(m, held, w.modes, st, z) && chunk < z.chunks && forall g :: g in touched ==> g < z.buffers
    requires forall l :: 0 <= l < |objects| ==>
               1 <= objects[l] < |w.modes| && w.modes[objects[l]] != Transient
               && SlotOf(objects[l], chunk) in held && held[SlotOf(objects[l], chunk)] == chunk
    requires c.kind == Kernel(chunk, r) && c.slots == SlotsOf(objects, chunk) && c.globals == touched
    ensures Shows(EffectOf(c, w)(m), held, w.modes, Apply(w, objects, touched, r, chunk, st), z)
  {
    hide Inputs, ShownInputs;
    InputsAreShown(c, objects, touched, r, chunk, held, w, m, st, z);
    var r', next := EffectOf(c, w)(m), Apply(w, objects, touched, r, chunk, st);
    forall o: nat, b: nat | 1 <= o < |w.modes| && w.modes[o] != Transient && b < z.chunks
      ensures ShowsChunk(r', held, w.modes[o], next.view(o, b), o, b)
    {
      assert ShowsChunk(m, held, w.modes[o], st.view(o, b), o, b);
      if o in objects {
        var l :| 0 <= l < |objects| && objects[l] == o;
        SlotsApart(o, b, o, chunk);
        assert SlotOf(o, chunk) in c.slots;
      } else if SlotOf(o, b) in c.slots {
        var l :| 0 <= l < |objects| && SlotOf(o, b) == SlotOf(objects[l], chunk);
        SlotsApart(o, b, objects[l], chunk);
      }
    }
  }

  // ---------- runs ----------

  /** The buffers that a function touches, beside its objects. */
  function TouchedBy(touches: seq<set<nat>>, r: nat): set<nat> {
    if r < |touches| then touches[r] else {}
  }

  /** The kernels of a run with the buffers that they touch. */
  function Tag(c: Command, touches: seq<set<nat>>): Command {
    if c.kind.Kernel? then c.(globals := TouchedBy(touches, c.kind.runnable)) else c
  }

  function Tagged(log: seq<Command>, touches: seq<set<nat>>): (r: seq<Command>)
    ensures |r| == |log|
  {
    seq(|log|, i requires 0 <= i < |log| => Tag(log[i], touches))
  }

  lemma TaggedOn(log: seq<Command>, more: seq<Command>, touches: seq<set<nat>>)
    ensures Tagged(log + more, touches) == Tagged(log, touches) + Tagged(more, touches)
  {
  }

  lemma FetchIsTagged(at: nat, waits: set<nat>, s: nat, chunk: nat, held: map<nat, nat>, mode: ObjectMode,
                      touches: seq<set<nat>>)
    ensures var fetch := Fetch(at, waits, s, chunk, held, mode); Tagged(fetch, touches) == fetch
  {
  }

  /** The functions of a run: none of them works on a transient object. */
  ghost predicate Meaningful(uses: seq<seq<nat>>, modes: seq<ObjectMode>, touches: seq<set<nat>>, z: Bounds) {
    && GoodUses(uses, modes) && z.objects == |modes|
    && (forall r, l :: 0 <= r < |uses| && 0 <= l < |uses[r]| ==> modes[uses[r][l]] != Transient)
    && forall r: nat, g :: g in TouchedBy(touches, r) ==> g < z.buffers
  }

  /** The first r functions on a chunk, done to what is shown. */
  ghost function OnChunk<V>(w: World<V>, uses: seq<seq<nat>>, touches: seq<set<nat>>, r: nat, chunk: nat,
                            st: Shown<V>): Shown<V>
    requires GoodUses(uses, w.modes) && r <= |uses|
  {
    if r == 0 then st
    else Apply(w, uses[r - 1], TouchedBy(touches, r - 1), r - 1, chunk, OnChunk(w, uses, touches, r - 1, chunk, st))
  }

  /** All functions on the first n chunks, chunk by chunk. */
  ghost function OnChunks<V>(w: World<V>, uses: seq<seq<nat>>, touches: seq<set<nat>>, n: nat, st: Shown<V>): Shown<V>
    requires GoodUses(uses, w.modes)
  {
    if n == 0 then st else OnChunk(w, uses, touches, |uses|, n - 1, OnChunks(w, uses, touches, n - 1, st))
  }

  /** After these commands the buffers show this. */
  ghost predicate LogShows<V>(log: seq<Command>, held: map<nat, nat>, w: World<V>, touches: seq<set<nat>>, m: Memory<V>,
                              st: Shown<V>, z: Bounds)
  {
    Shows(Exec(Tagged(log, touches), w, m), held, w.modes, st, z) && Inside(held, z.chunks)
  }

  lemma LockOneShows<V>(a: Making, oid: nat, chunk: nat, w: World<V>, touches: seq<set<nat>>, m: Memory<V>,
                        st: Shown<V>, z: Bounds)
    requires 1 <= oid < |w.modes| && chunk < z.chunks && LogShows(a.log, a.held, w, touches, m, st, z)
    ensures var r := LockOne(a, oid, chunk, w.modes); LogShows(r.log, r.held, w, touches, m, st, z)
  {
    hide Shows, Exec, Fetch, Tagged, Inside;
    if oid !in a.active {
      var s := SlotOf(oid, chunk);
      var fetch := Fetch(|a.log|, a.waits, s, chunk, a.held, w.modes[oid]);
      FetchShows(|a.log|, a.waits, oid, chunk, a.held, w, Exec(Tagged(a.log, touches), w, m), st, z);
      FetchIsTagged(|a.log|, a.waits, s, chunk, a.held, w.modes[oid], touches);
      TaggedOn(a.log, fetch, touches);
      ExecOn(Tagged(a.log, touches), fetch, w, m);
    }
  }

  lemma {:induction false} ActivateFirstShows<V>(a: Making, uses: seq<seq<nat>>, r: nat, chunk: nat, w: World<V>,
                                                 touches: seq<set<nat>>, m: Memory<V>, st: Shown<V>, z: Bounds)
    requires GoodUses(uses, w.modes) && r <= |uses| && chunk < z.chunks && LogShows(a.log, a.held, w, touches, m, st, z)
    ensures var b := ActivateFirst(a, uses, r, chunk, w.modes); LogShows(b.log, b.held, w, touches, m, st, z)
  {
    hide LogShows, LockOne;
    if r > 0 {
      ActivateFirstShows(a, uses, r - 1, chunk, w, touches, m, st, z);
      var before, objects := ActivateFirst(a, uses, r - 1, chunk, w.modes), uses[r - 1];
      if |objects| == 1 {
        LockOneShows(before, objects[0], chunk, w, touches, m, st, z);
      } else {
        LockOneShows(before.(event := NONE), objects[0], chunk, w, touches, m, st, z);
        var fst := LockOne(before.(event := NONE), objects[0], chunk, w.modes);
        LockOneShows(fst.(event := before.event, waits := WaitList(fst.event)), objects[1], chunk, w, touches, m, st,
                     z);
      }
    }
  }

  /** Objects that are active are in their slots. */
  lemma {:induction false} ActivateFirstHolds(a: Making, uses: seq<seq<nat>>, r: nat, chunk: nat,
                                              modes: seq<ObjectMode>)
    requires GoodUses(uses, modes) && r <= |uses| && AllHeld(a.held, a.active, chunk)
    ensures var b := ActivateFirst(a, uses, r, chunk, modes); AllHeld(b.held, b.active, chunk)
  {
    hide AllHeld, LockOne;
    if r > 0 {
      ActivateFirstHolds(a, uses, r - 1, chunk, modes);
      var before, objects := ActivateFirst(a, uses, r - 1, chunk, modes), uses[r - 1];
      if |objects| == 1 {
        LockOneHolds(before, objects[0], chunk, modes);
      } else {
        LockOneHolds(before.(event := NONE), objects[0], chunk, modes);
        var fst := LockOne(before.(event := NONE), objects[0], chunk, modes);
        LockOneHolds(fst.(event := before.event, waits := WaitList(fst.event)), objects[1], chunk, modes);
      }
    }
  }

  lemma LockOneHolds(a: Making, oid: nat, chunk: nat, modes: seq<ObjectMode>)
    requires 1 <= oid < |modes| && AllHeld(a.held, a.active, chunk)
    ensures var r := LockOne(a, oid, chunk, modes); AllHeld(r.held, r.active, chunk)
  {
    hide AllHeld, Fetch;
    if oid !in a.active {
      OthersHeld(a.held, a.active, oid, chunk);
    }
  }

  /** So all objects of a round are. */
  lemma RoundIsHeld(before: (seq<Command>, map<nat, nat>), uses: seq<seq<nat>>, chunk: nat, modes: seq<ObjectMode>)
    requires GoodUses(uses, modes)
    ensures var a := ActivateFirst(Making(before.0, before.1, {}, NONE, {}), uses, |uses|, chunk, modes);
            forall q, l :: 0 <= q < |uses| && 0 <= l < |uses[q]| ==>
              SlotOf(uses[q][l], chunk) in a.held && a.held[SlotOf(uses[q][l], chunk)] == chunk
  {
    hide AllHeld, ActivateFirst;
    var m := Making(before.0, before.1, {}, NONE, {});
    var a := ActivateFirst(m, uses, |uses|, chunk, modes);
    NoneHeld(before.1, chunk);
    ActivateFirstHolds(m, uses, |uses|, chunk, modes);
    forall q, l | 0 <= q < |uses| && 0 <= l < |uses[q]|
      ensures SlotOf(uses[q][l], chunk) in a.held && a.held[SlotOf(uses[q][l], chunk)] == chunk
    {
      AllActive(m, uses, |uses|, chunk, modes, q);
      ActiveIsHeld(a.held, a.active, uses[q], chunk);
    }
  }

  lemma {:induction false} KernelsShow<V>(log: seq<Command>, held: map<nat, nat>, waits: set<nat>, uses: seq<seq<nat>>,
                                          r: nat, chunk: nat, w: World<V>, touches: seq<set<nat>>, m: Memory<V>,
                                          st: Shown<V>, z: Bounds)
    requires Meaningful(uses, w.modes, touches, z) && r <= |uses| && chunk < z.chunks
    requires LogShows(log, held, w, touches, m, st, z)
    requires forall q, l :: 0 <= q < |uses| && 0 <= l < |uses[q]| ==>
               SlotOf(uses[q][l], chunk) in held && held[SlotOf(uses[q][l], chunk)] == chunk
    ensures LogShows(log + KernelsOf(|log|, waits, uses, r, chunk), held, w, touches, m,
                     OnChunk(w, uses, touches, r, chunk, st), z)
  {
    hide Shows, Exec, Tagged, Inside, EffectOf, Apply;
    var ks := KernelsOf(|log|, waits, uses, r, chunk);
    if r == 0 {
      assert log + ks == log;
    } else {
      KernelsShow(log, held, waits, uses, r - 1, chunk, w, touches, m, st, z);
      var before := log + KernelsOf(|log|, waits, uses, r - 1, chunk);
      var c := ks[r - 1];
      assert log + ks == before + [c];
      TaggedOn(before, [c], touches);
      OneTagged(c, touches);
      ExecNext(Tagged(before, touches), Tag(c, touches), w, m);
      KernelShows(Tag(c, touches), uses[r - 1], TouchedBy(touches, r - 1), r - 1, chunk, held, w,
                  Exec(Tagged(before, touches), w, m), OnChunk(w, uses, touches, r - 1, chunk, st), z);
    }
  }

  lemma OneTagged(c: Command, touches: seq<set<nat>>)
    ensures Tagged([c], touches) == [Tag(c, touches)]
  {
  }

  /** A run leaves on what the buffers show what its functions do to it, chunk by chunk, whatever the slots held before
      and whatever had to be written back on the way. */
  lemma {:induction false} RunShows<V>(n: nat, uses: seq<seq<nat>>, start: map<nat, nat>, w: World<V>,
                                       touches: seq<set<nat>>, m: Memory<V>, st: Shown<V>, z: Bounds)
    requires Meaningful(uses, w.modes, touches, z) && n <= z.chunks && Inside(start, z.chunks)
    requires Shows(m, start, w.modes, st, z)
    ensures var r := RunLog(n, uses, w.modes, start);
            && Shows(Exec(Tagged(r.0, touches), w, m), r.1, w.modes, OnChunks(w, uses, touches, n, st), z)
            && Inside(r.1, z.chunks)
  {
    hide Shows, Exec, ActivateFirst, KernelsOf, OnChunk, AllHeld, Inside;
    if n == 0 {
      assert Tagged([], touches) == [];
      NothingDone(w, m);
    } else {
      RunShows(n - 1, uses, start, w, touches, m, st, z);
      var before, chunk, now := RunLog(n - 1, uses, w.modes, start), n - 1, OnChunks(w, uses, touches, n - 1, st);
      var a0 := Making(before.0, before.1, {}, NONE, {});
      var a := ActivateFirst(a0, uses, |uses|, chunk, w.modes);
      ActivateFirstShows(a0, uses, |uses|, chunk, w, touches, m, now, z);
      RoundIsHeld(before, uses, chunk, w.modes);
      KernelsShow(a.log, a.held, a.waits + WaitList(|before.0| - 1), uses, |uses|, chunk, w, touches, m, now, z);
    }
  }
}
