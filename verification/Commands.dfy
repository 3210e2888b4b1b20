/** The commands and copy tasks that a run of the scheduler creates, and what every schedule of them keeps. */
module Commands {
  import opened BufferCache
  import opened Schedules
  import Indices

  /** An event variable that nothing was assigned to. */
  const NONE := -1

  /** The slot that chunk number `chunk` of an object occupies: the two slots of an object take turns. */
  function SlotOf(oid: nat, chunk: nat): (s: nat)
    requires oid > 0
    ensures s % QUEUES == chunk % QUEUES && s / QUEUES + 1 == oid
  {
    First(oid) + chunk % QUEUES
  }

  /** A wait list from an event, which may be empty. */
  function WaitList(event: int): (waits: set<nat>)
    ensures forall w: nat :: w in waits <==> w == event
  {
    if event < 0 then {} else {event as nat}
  }

  // ---------- the log of a run ----------

  /** Everything is on the queue, or the I/O thread of the queue, whose turn it is for all of its slots and chunks. */
  ghost predicate InLanes(log: seq<Command>) {
    forall i :: 0 <= i < |log| ==> InLane(log[i])
  }

  /** All slots belong to objects of the cache. */
  ghost predicate SlotsInside(log: seq<Command>, modes: seq<ObjectMode>) {
    forall i, s :: 0 <= i < |log| && s in log[i].slots ==> s / QUEUES + 1 < |modes|
  }

  ghost predicate InLane(c: Command) {
    && !c.kind.HostWait? && c.queue < QUEUES && c.globals == {}
    && (forall s :: s in c.slots ==> c.queue == s % QUEUES)
    && (c.kind.CopyTask? ==> c.queue == c.kind.chunk % QUEUES)
  }

  /** The chunk whose transfer to slot s was enqueued last, or else the one that was there before; -1 for none. */
  ghost function Loaded(start: map<nat, nat>, log: seq<Command>, s: nat): int {
    if log == [] then if s in start then start[s] else -1
    else
      var c := log[|log| - 1];
      if c.kind.ToDevice? && s in c.slots then c.kind.chunk else Loaded(start, log[..|log| - 1], s)
  }

  lemma LoadedGrows(start: map<nat, nat>, log: seq<Command>, c: Command, s: nat)
    ensures Loaded(start, log + [c], s) ==
            if c.kind.ToDevice? && s in c.slots then c.kind.chunk else Loaded(start, log, s)
  {
    assert (log + [c])[..|log|] == log;
  }

  /** The slots of the objects that a function works on. */
  function SlotsOf(objects: seq<nat>, chunk: nat): (slots: set<nat>)
    requires forall l :: 0 <= l < |objects| ==> objects[l] > 0
    ensures forall l :: 0 <= l < |objects| ==> SlotOf(objects[l], chunk) in slots
    ensures forall s :: s in slots ==> s % QUEUES == chunk % QUEUES
  {
    set l | 0 <= l < |objects| :: SlotOf(objects[l], chunk)
  }

  lemma SlotsOfAreInside(objects: seq<nat>, chunk: nat, modes: seq<ObjectMode>)
    requires forall l :: 0 <= l < |objects| ==> 0 < objects[l] < |modes|
    ensures forall s :: s in SlotsOf(objects, chunk) ==> s / QUEUES + 1 < |modes|
  {
  }

  predicate GoodUses(uses: seq<seq<nat>>, modes: seq<ObjectMode>) {
    && |uses| > 0
    && forall r :: 0 <= r < |uses| ==>
      1 <= |uses[r]| <= 2 && forall l :: 0 <= l < |uses[r]| ==> 1 <= uses[r][l] < |modes|
  }

  /** The kernels of the log, in the order of creation: all functions on chunk 0, then on chunk 1, and so on, each of
      them waiting for the one before it, on the queues in turn, and working on the slots of its objects. */
  ghost predicate KernelChain(log: seq<Command>, kernels: seq<nat>, uses: seq<seq<nat>>, modes: seq<ObjectMode>) {
    && GoodUses(uses, modes)
    && (forall m :: 0 <= m < |kernels| ==>
          var chunk, r := m / |uses|, m % |uses|;
          && kernels[m] < |log| && log[kernels[m]].kind == Kernel(chunk, r)
          && log[kernels[m]].queue == chunk % QUEUES && log[kernels[m]].slots == SlotsOf(uses[r], chunk))
    && (forall m :: 0 < m < |kernels| ==> kernels[m - 1] in log[kernels[m]].waits)
    && (forall i :: 0 <= i < |log| && log[i].kind.Kernel? ==> i in kernels)
  }

  /** Kernel i of the log finds its chunk of all of its objects in its slots. */
  ghost predicate FindsChunk(log: seq<Command>, i: nat, start: map<nat, nat>, uses: seq<seq<nat>>,
                             modes: seq<ObjectMode>)
    requires i < |log| && log[i].kind.Kernel? && GoodUses(uses, modes)
  {
    var chunk, r := log[i].kind.chunk, log[i].kind.runnable;
    r < |uses| && forall l :: 0 <= l < |uses[r]| && modes[uses[r][l]] != Transient ==>
                     Loaded(start, log[..i], SlotOf(uses[r][l], chunk)) == chunk
  }

  /** What every command of the log keeps to. */
  ghost predicate Sound(log: seq<Command>, kernels: seq<nat>, start: map<nat, nat>, uses: seq<seq<nat>>,
                        modes: seq<ObjectMode>)
  {
    && Backward(log) && InLanes(log) && SlotsInside(log, modes) && KernelChain(log, kernels, uses, modes)
    && forall i :: 0 <= i < |log| && log[i].kind.Kernel? ==> FindsChunk(log, i, start, uses, modes)
  }

  lemma StillFinds(log: seq<Command>, c: Command, i: nat, start: map<nat, nat>, uses: seq<seq<nat>>,
                   modes: seq<ObjectMode>)
    requires i < |log| && log[i].kind.Kernel? && GoodUses(uses, modes) && FindsChunk(log, i, start, uses, modes)
    ensures FindsChunk(log + [c], i, start, uses, modes)
  {
    assert (log + [c])[..i] == log[..i];
  }

  ghost predicate AllKnown(log: seq<Command>, waits: set<nat>) {
    forall w :: w in waits ==> w < |log|
  }

  /** The event is empty or one of the log. */
  ghost predicate Known(log: seq<Command>, event: int) {
    event < |log|
  }

  /** Every slot holds a chunk whose turn it is. */
  ghost predicate Turns(held: map<nat, nat>) {
    forall s :: s in held ==> held[s] % QUEUES == s % QUEUES
  }

  /** The slots hold what was transferred to them last. */
  ghost predicate Holds(held: map<nat, nat>, start: map<nat, nat>, log: seq<Command>, modes: seq<ObjectMode>) {
    && Turns(held)
    && forall s :: s in held && s / QUEUES + 1 < |modes| && modes[s / QUEUES + 1] != Transient ==>
                     Loaded(start, log, s) == held[s]
  }

  /** Reading a chunk back: a transfer to the staging buffer, a copy task that waits for it, and a barrier that waits
      for the task. */
  function ReadBack(at: nat, queue: nat, waits: set<nat>, s: nat, chunk: nat): seq<Command> {
    [Command(FromDevice, queue, waits, {s}, {}), Command(CopyTask(chunk, true), queue, {at}, {s}, {}),
     Command(Barrier, queue, {at + 1}, {}, {})]
  }

  /** Filling a slot: a task copies the chunk to the staging buffer, and a transfer waits for the task. */
  function Fill(at: nat, queue: nat, waits: set<nat>, s: nat, chunk: nat): seq<Command> {
    [Command(CopyTask(chunk, false), queue, waits, {s}, {}), Command(ToDevice(chunk), queue, {at}, {s}, {})]
  }

  /** What getting a chunk creates. */
  function Fetch(at: nat, waits: set<nat>, s: nat, chunk: nat, held: map<nat, nat>, mode: ObjectMode): seq<Command> {
    var queue := chunk % QUEUES;
    if mode == Transient || (s in held && held[s] == chunk) then []
    else if s in held && mode == ReadWrite then
      ReadBack(at, queue, waits, s, held[s]) + Fill(at + 3, queue, waits + {at + 2}, s, chunk)
    else Fill(at, queue, waits, s, chunk)
  }

  /** A log in the making: what the slots hold, which objects the round has active, the last event, and what the next
      chunk waits for. */
  datatype Making = Making(log: seq<Command>, held: map<nat, nat>, active: set<nat>, event: int, waits: set<nat>)

  /** Locks the chunk of one object, unless it is active. */
  function LockOne(m: Making, oid: nat, chunk: nat, modes: seq<ObjectMode>): (r: Making)
    requires 1 <= oid < |modes|
    ensures m.log <= r.log
  {
    if oid in m.active then m
    else
      var s := SlotOf(oid, chunk);
      var log := m.log + Fetch(|m.log|, m.waits, s, chunk, m.held, modes[oid]);
      Making(log, m.held[s := chunk], m.active + {oid}, if |log| == |m.log| then NONE else |log| - 1, m.waits)
  }

  /** Locks the chunks of the one or two objects of a function, the second one after the first. */
  function Activate(m: Making, objects: seq<nat>, chunk: nat, modes: seq<ObjectMode>): (r: Making)
    requires 1 <= |objects| <= 2 && forall l :: 0 <= l < |objects| ==> 1 <= objects[l] < |modes|
    ensures m.log <= r.log
  {
    if |objects| == 1 then LockOne(m, objects[0], chunk, modes)
    else
      var fst := LockOne(m.(event := NONE), objects[0], chunk, modes);
      LockOne(fst.(event := m.event, waits := WaitList(fst.event)), objects[1], chunk, modes)
  }

  /** Locks the chunks of the first r functions. */
  function ActivateFirst(m: Making, uses: seq<seq<nat>>, r: nat, chunk: nat, modes: seq<ObjectMode>): (a: Making)
    requires GoodUses(uses, modes) && r <= |uses|
    ensures m.log <= a.log
  {
    if r == 0 then m
    else
      var before := ActivateFirst(m, uses, r - 1, chunk, modes);
      var after := Activate(before, uses[r - 1], chunk, modes);
      after.(waits := if after.event == NONE then before.waits else WaitList(after.event))
  }

  /** The kernels of the first r functions on a chunk; the first one waits as told, the others for the one before. */
  function KernelsOf(at: nat, waits: set<nat>, uses: seq<seq<nat>>, r: nat, chunk: nat): (ks: seq<Command>)
    requires r <= |uses| && forall q, l :: 0 <= q < |uses| && 0 <= l < |uses[q]| ==> uses[q][l] > 0
    ensures |ks| == r
  {
    if r == 0 then []
    else
      KernelsOf(at, waits, uses, r - 1, chunk)
      + [Command(Kernel(chunk, r - 1), chunk % QUEUES, if r == 1 then waits else {at + r - 2},
                 SlotsOf(uses[r - 1], chunk), {})]
  }

  /** The slots of the active objects hold the chunk. */
  ghost predicate AllHeld(held: map<nat, nat>, active: set<nat>, chunk: nat) {
    forall o :: o in active ==> o > 0 && SlotOf(o, chunk) in held && held[SlotOf(o, chunk)] == chunk
  }

  lemma NoneHeld(held: map<nat, nat>, chunk: nat)
    ensures AllHeld(held, {}, chunk)
  {
  }

  lemma OthersHeld(held: map<nat, nat>, active: set<nat>, oid: nat, chunk: nat)
    requires AllHeld(held, active, chunk) && oid > 0
    ensures AllHeld(held[SlotOf(oid, chunk) := chunk], active + {oid}, chunk)
  {
  }

  /** After all functions have activated their objects, all of them are active. */
  lemma {:induction false} AllActive(m: Making, uses: seq<seq<nat>>, r: nat, chunk: nat, modes: seq<ObjectMode>, q: nat)
    requires GoodUses(uses, modes) && q < r <= |uses|
    ensures forall l :: 0 <= l < |uses[q]| ==> uses[q][l] in ActivateFirst(m, uses, r, chunk, modes).active
  {
    hide Fetch;
    if q < r - 1 {
      AllActive(m, uses, r - 1, chunk, modes, q);
    }
  }

  /** The log and the slots after one more round. */
  function Round(before: (seq<Command>, map<nat, nat>), uses: seq<seq<nat>>, chunk: nat, modes: seq<ObjectMode>):
    (r: (seq<Command>, map<nat, nat>))
    requires GoodUses(uses, modes)
    ensures before.0 < r.0
  {
    var a := ActivateFirst(Making(before.0, before.1, {}, NONE, {}), uses, |uses|, chunk, modes);
    (a.log + KernelsOf(|a.log|, a.waits + WaitList(|before.0| - 1), uses, |uses|, chunk), a.held)
  }

  /** The log after n rounds, and what the slots hold then. */
  function RunLog(n: nat, uses: seq<seq<nat>>, modes: seq<ObjectMode>,
                  start: map<nat, nat>): (r: (seq<Command>, map<nat, nat>))
    requires GoodUses(uses, modes)
  {
    if n == 0 then ([], start) else Round(RunLog(n - 1, uses, modes, start), uses, n - 1, modes)
  }

  lemma NextChunk(chunk: nat, d: nat)
    ensures (chunk + 1) * d == chunk * d + d
  {
  }

  /** The log of a scheduler and its cache. */
  class Recorder {
    const modes: seq<ObjectMode>
    const uses: seq<seq<nat>>
    var held: map<nat, nat>
    var log: seq<Command>

    /** The slots may hold chunks from an earlier run, each in its turn. */
    constructor (modes: seq<ObjectMode>, uses: seq<seq<nat>>, start: map<nat, nat>)
      ensures log == [] && held == start && this.uses == uses && this.modes == modes
    {
      log, held := [], start;
      this.modes, this.uses := modes, uses;
    }

    /** Creates a command. */
    method Create(kind: Kind, queue: nat, waits: set<nat>, slots: set<nat>) returns (event: nat)
      modifies this`log
      ensures event == |old(log)| && log == old(log) + [Command(kind, queue, waits, slots, {})]
    {
      event := |log|;
      log := log + [Command(kind, queue, waits, slots, {})];
    }

    /** Reads a chunk back.  Nothing to do for a chunk that is not cached or cannot have changed. */
    method Read(oid: nat, chunk: nat, queue: nat, waits: set<nat>) returns (finish_event: int)
      requires 1 <= oid < |modes| && queue == chunk % QUEUES
      modifies this`log
      ensures var s := SlotOf(oid, chunk);
              if modes[oid] == ReadWrite && s in held && held[s] == chunk then
                log == old(log) + ReadBack(|old(log)|, queue, waits, s, chunk) && finish_event == |log| - 1
              else log == old(log) && finish_event == NONE
    {
      finish_event := NONE;
      var s := SlotOf(oid, chunk);
      if modes[oid] == ReadOnly || modes[oid] == Transient || s !in held || held[s] != chunk {
        return;
      }
      var read_event := Create(FromDevice, queue, waits, {s});
      var task := Create(CopyTask(chunk, true), queue, {read_event}, {s});
      finish_event := Create(Barrier, queue, {task}, {});
    }

    /** Gets a chunk: nothing to do if it is cached; otherwise what its slot holds is written back, and it is copied to
        the staging buffer and transferred from there. */
    method Get(oid: nat, chunk: nat, queue: nat, waits: set<nat>) returns (event: int)
      requires Turns(held) && 1 <= oid < |modes| && queue == chunk % QUEUES
      modifies this`log, this`held
      ensures Turns(held)
      ensures var s := SlotOf(oid, chunk);
              && held == old(held)[s := chunk]
              && log == old(log) + Fetch(|old(log)|, waits, s, chunk, old(held), modes[oid])
      ensures event == if |log| == |old(log)| then NONE else |log| - 1
    {
      var s := SlotOf(oid, chunk);
      if s in held && held[s] == chunk {
        assert log + [] == log && held[s := chunk] == held;
        return NONE;
      }
      var evict_event := NONE;
      if s in held {
        evict_event := Read(oid, held[s], queue, waits);
      }
      held := held[s := chunk];
      if modes[oid] == Transient {
        assert log + [] == log;
        return evict_event;
      }
      assert waits + WaitList(NONE) == waits;
      var task := Create(CopyTask(chunk, false), queue, waits + WaitList(evict_event), {s});
      event := Create(ToDevice(chunk), queue, {task}, {s});
      assert log == old(log) + Fetch(|old(log)|, waits, s, chunk, old(held), modes[oid]);
    }

    /** Locks the chunk of one object, unless it is active. */
    method ActivateBuffer(oid: nat, chunk: nat, queue: nat, waits: set<nat>, active: set<nat>, before: int)
      returns (last_event: int, active': set<nat>)
      requires Turns(held) && 1 <= oid < |modes| && queue == chunk % QUEUES
      modifies this`log, this`held
      ensures Turns(held)
      ensures Making(log, held, active', last_event, waits) ==
              LockOne(Making(old(log), old(held), active, before, waits), oid, chunk, modes)
    {
      hide Fetch;
      last_event, active' := before, active;
      if oid !in active {
        last_event := Get(oid, chunk, queue, waits);
        active' := active + {oid};
      }
    }

    /** Activates the one or two buffers of a function. */
    method ActivateBuffers(r: nat, chunk: nat, queue: nat, waits: set<nat>, active: set<nat>, before: int)
      returns (last_event: int, active': set<nat>)
      requires Turns(held) && r < |uses| && queue == chunk % QUEUES && GoodUses(uses, modes)
      modifies this`log, this`held
      ensures Turns(held)
      ensures Making(log, held, active', last_event, {}) ==
              Activate(Making(old(log), old(held), active, before, waits), uses[r], chunk, modes).(waits := {})
    {
      hide Fetch, LockOne;
      if |uses[r]| == 1 {
        last_event, active' := ActivateBuffer(uses[r][0], chunk, queue, waits, active, before);
        return;
      }
      var fst_event;
      fst_event, active' := ActivateBuffer(uses[r][0], chunk, queue, waits, active, NONE);
      last_event, active' := ActivateBuffer(uses[r][1], chunk, queue, WaitList(fst_event), active', before);
    }

    /** Activates the buffers of all functions. */
    method ActivateAll(chunk: nat, queue: nat) returns (waits: set<nat>)
      requires Turns(held) && queue == chunk % QUEUES && GoodUses(uses, modes)
      modifies this`log, this`held
      ensures Turns(held)
      ensures var a := ActivateFirst(Making(old(log), old(held), {}, NONE, {}), uses, |uses|, chunk, modes);
              log == a.log && held == a.held && waits == a.waits
    {
      hide Activate;
      waits := {};
      var activate_event, active := NONE, {};
      for r := 0 to |uses|
        invariant Turns(held)
        invariant Making(log, held, active, activate_event, waits) ==
                  ActivateFirst(Making(old(log), old(held), {}, NONE, {}), uses, r, chunk, modes)
      {
        activate_event, active := ActivateBuffers(r, chunk, queue, waits, active, activate_event);
        if activate_event != NONE {
          waits := WaitList(activate_event);
        }
      }
    }

    /** Enqueues the kernels of all functions on a chunk. */
    method RunKernels(chunk: nat, queue: nat, waits: set<nat>) returns (run_event: int)
      requires queue == chunk % QUEUES && GoodUses(uses, modes)
      modifies this`log
      ensures run_event == |log| - 1
      ensures log == old(log) + KernelsOf(|old(log)|, waits, uses, |uses|, chunk)
    {
      var run_wait_list := waits;
      run_event := NONE;
      for r := 0 to |uses|
        invariant |log| == |old(log)| + r
        invariant r > 0 ==> run_event == |log| - 1
        invariant run_wait_list == if r == 0 then waits else {|log| - 1}
        invariant log == old(log) + KernelsOf(|old(log)|, waits, uses, r, chunk)
      {
        run_event := Create(Kernel(chunk, r), queue, run_wait_list, SlotsOf(uses[r], chunk));
        run_wait_list := WaitList(run_event);
      }
    }

    /** One round of the scheduler: activates the buffers of a chunk and enqueues all kernels on it. */
    method RunRound(chunk: nat, queue: nat, trans_loop_run_event: int) returns (run_event: int)
      requires Turns(held) && queue == chunk % QUEUES && GoodUses(uses, modes) && trans_loop_run_event == |log| - 1
      modifies this`log, this`held
      ensures Turns(held) && run_event == |log| - 1
      ensures (log, held) == Round((old(log), old(held)), uses, chunk, modes)
    {
      hide ActivateFirst, KernelsOf;
      var waits := ActivateAll(chunk, queue);
      run_event := RunKernels(chunk, queue, waits + WaitList(trans_loop_run_event));
    }

    /** The loop over the chunks, on the queues in turn.  Unlocking creates nothing and sets no event. */
    method Run(num_buffers: nat)
      requires Turns(held) && log == [] && GoodUses(uses, modes)
      modifies this`log, this`held
      ensures Turns(held) && (log, held) == RunLog(num_buffers, uses, modes, old(held))
    {
      hide Round;
      var current_queue := 0;
      var trans_loop_run_event := NONE;
      for current_index := 0 to num_buffers
        invariant Turns(held) && current_queue == current_index % QUEUES && trans_loop_run_event == |log| - 1
        invariant (log, held) == RunLog(current_index, uses, modes, old(held))
      {
        trans_loop_run_event := RunRound(current_index, current_queue, trans_loop_run_event);
        current_queue := (current_queue + 1) % QUEUES;
      }
    }
  }

  // ---------- what the log of a run keeps to ----------

  lemma FillLoads(start: map<nat, nat>, log: seq<Command>, at: nat, queue: nat, waits: set<nat>, s: nat, chunk: nat,
                  t: nat)
    ensures Loaded(start, log + Fill(at, queue, waits, s, chunk), t) == if t == s then chunk else Loaded(start, log, t)
  {
    var fill := Fill(at, queue, waits, s, chunk);
    assert log + fill == log + [fill[0]] + [fill[1]];
    LoadedGrows(start, log, fill[0], t);
    LoadedGrows(start, log + [fill[0]], fill[1], t);
  }

  lemma ReadBackLoads(start: map<nat, nat>, log: seq<Command>, at: nat, queue: nat, waits: set<nat>, s: nat, chunk: nat,
                      t: nat)
    ensures Loaded(start, log + ReadBack(at, queue, waits, s, chunk), t) == Loaded(start, log, t)
  {
    var back := ReadBack(at, queue, waits, s, chunk);
    assert log + back == log + [back[0]] + [back[1]] + [back[2]];
    LoadedGrows(start, log, back[0], t);
    LoadedGrows(start, log + [back[0]], back[1], t);
    LoadedGrows(start, log + [back[0]] + [back[1]], back[2], t);
  }

  lemma ActiveIsHeld(held: map<nat, nat>, active: set<nat>, objects: seq<nat>, chunk: nat)
    requires AllHeld(held, active, chunk) && forall l :: 0 <= l < |objects| ==> objects[l] in active
    ensures forall l :: 0 <= l < |objects| ==>
              objects[l] > 0 && SlotOf(objects[l], chunk) in held && held[SlotOf(objects[l], chunk)] == chunk
  {
  }

  lemma FindsHeld(log: seq<Command>, c: Command, held: map<nat, nat>, start: map<nat, nat>, uses: seq<seq<nat>>,
                  modes: seq<ObjectMode>)
    requires GoodUses(uses, modes) && Holds(held, start, log, modes) && c.kind.Kernel? && c.kind.runnable < |uses|
    requires var chunk, objects := c.kind.chunk, uses[c.kind.runnable];
             forall l :: 0 <= l < |objects| ==>
               SlotOf(objects[l], chunk) in held && held[SlotOf(objects[l], chunk)] == chunk
    ensures FindsChunk(log + [c], |log|, start, uses, modes)
  {
    assert (log + [c])[..|log|] == log;
  }

  lemma SoundWithKernel(log: seq<Command>, kernels: seq<nat>, c: Command, held: map<nat, nat>, start: map<nat, nat>,
                        uses: seq<seq<nat>>, modes: seq<ObjectMode>)
    requires Sound(log, kernels, start, uses, modes) && Holds(held, start, log, modes) && AllKnown(log, c.waits)
    requires c.kind.Kernel? && c.kind.runnable < |uses| && c.queue == c.kind.chunk % QUEUES && c.globals == {}
    requires c.slots == SlotsOf(uses[c.kind.runnable], c.kind.chunk)
    requires |kernels| == c.kind.chunk * |uses| + c.kind.runnable
             && (|kernels| > 0 ==> kernels[|kernels| - 1] in c.waits)
    requires var chunk, objects := c.kind.chunk, uses[c.kind.runnable];
             forall l :: 0 <= l < |objects| ==>
               SlotOf(objects[l], chunk) in held && held[SlotOf(objects[l], chunk)] == chunk
    ensures Sound(log + [c], kernels + [|log|], start, uses, modes)
  {
    hide Holds, FindsChunk, KernelChain, GoodUses;
    RoundAndFunction(c.kind.chunk, |uses|, c.kind.runnable);
    ChainWithKernel(log, kernels, c, uses, modes);
    UsesAreGood(uses, modes, c.kind.runnable, c.kind.chunk);
    forall i | 0 <= i < |log + [c]| && (log + [c])[i].kind.Kernel?
      ensures FindsChunk(log + [c], i, start, uses, modes)
    {
      if i < |log| {
        StillFinds(log, c, i, start, uses, modes);
      } else {
        FindsHeld(log, c, held, start, uses, modes);
      }
    }
  }

  lemma UsesAreGood(uses: seq<seq<nat>>, modes: seq<ObjectMode>, r: nat, chunk: nat)
    requires GoodUses(uses, modes) && r < |uses|
    ensures forall s :: s in SlotsOf(uses[r], chunk) ==> s / QUEUES + 1 < |modes|
  {
    SlotsOfAreInside(uses[r], chunk, modes);
  }

  lemma ChainWithKernel(log: seq<Command>, kernels: seq<nat>, c: Command, uses: seq<seq<nat>>, modes: seq<ObjectMode>)
    requires KernelChain(log, kernels, uses, modes) && c.kind.Kernel? && c.queue == c.kind.chunk % QUEUES
    requires c.kind == Kernel(|kernels| / |uses|, |kernels| % |uses|)
    requires c.slots == SlotsOf(uses[c.kind.runnable], c.kind.chunk)
    requires |kernels| > 0 ==> kernels[|kernels| - 1] in c.waits
    ensures KernelChain(log + [c], kernels + [|log|], uses, modes) && GoodUses(uses, modes)
  {
  }

  lemma KernelKeeps(log: seq<Command>, c: Command, held: map<nat, nat>, start: map<nat, nat>, modes: seq<ObjectMode>)
    requires c.kind.Kernel? && Holds(held, start, log, modes)
    ensures Holds(held, start, log + [c], modes)
  {
    hide Loaded;
    forall s: nat
      ensures Loaded(start, log + [c], s) == Loaded(start, log, s)
    {
      LoadedGrows(start, log, c, s);
    }
  }

  lemma RoundAndFunction(chunk: nat, d: nat, r: nat)
    requires r < d
    ensures (chunk * d + r) / d == chunk && (chunk * d + r) % d == r
  {
    Indices.DivMod(d, chunk, r);
  }

  lemma FetchLoads(log: seq<Command>, waits: set<nat>, s: nat, chunk: nat, held: map<nat, nat>, start: map<nat, nat>,
                   modes: seq<ObjectMode>, oid: nat)
    requires 1 <= oid < |modes| && s == SlotOf(oid, chunk) && Holds(held, start, log, modes)
    ensures Holds(held[s := chunk], start, log + Fetch(|log|, waits, s, chunk, held, modes[oid]), modes)
  {
    hide Loaded, ReadBack, Fill;
    var at, queue := |log|, chunk % QUEUES;
    var fetch := Fetch(at, waits, s, chunk, held, modes[oid]);
    if modes[oid] == Transient || (s in held && held[s] == chunk) {
      assert log + fetch == log;
      assert s in held && held[s] == chunk ==> held[s := chunk] == held;
    } else {
      forall t: nat
        ensures Loaded(start, log + fetch, t) == if t == s then chunk else Loaded(start, log, t)
      {
        if s in held && modes[oid] == ReadWrite {
          var back := ReadBack(at, queue, waits, s, held[s]);
          ReadBackLoads(start, log, at, queue, waits, s, held[s], t);
          FillLoads(start, log + back, at + 3, queue, waits + {at + 2}, s, chunk, t);
          assert log + fetch == log + back + Fill(at + 3, queue, waits + {at + 2}, s, chunk);
        } else {
          FillLoads(start, log, at, queue, waits, s, chunk, t);
        }
      }
    }
  }

  lemma SoundWithCommand(log: seq<Command>, kernels: seq<nat>, c: Command, start: map<nat, nat>, uses: seq<seq<nat>>,
                         modes: seq<ObjectMode>)
    requires Sound(log, kernels, start, uses, modes) && !c.kind.Kernel? && InLane(c) && AllKnown(log, c.waits)
    requires SlotsInside([c], modes)
    ensures Sound(log + [c], kernels, start, uses, modes)
  {
    hide FindsChunk, GoodUses, InLane;
    assert [c][0] == c;
    forall i | 0 <= i < |log + [c]| && (log + [c])[i].kind.Kernel?
      ensures FindsChunk(log + [c], i, start, uses, modes)
    {
      StillFinds(log, c, i, start, uses, modes);
    }
  }

  /** Every copy task is what the next command of its queue waits for. */
  ghost predicate TasksAwaited(log: seq<Command>) {
    forall i: nat :: i < |log| && log[i].kind.CopyTask? ==>
                       i + 1 < |log| && !log[i + 1].kind.CopyTask? && i in log[i + 1].waits
  }

  lemma FetchSound(log: seq<Command>, kernels: seq<nat>, waits: set<nat>, s: nat, chunk: nat, held: map<nat, nat>,
                   start: map<nat, nat>, uses: seq<seq<nat>>, modes: seq<ObjectMode>, mode: ObjectMode)
    requires Sound(log, kernels, start, uses, modes) && TasksAwaited(log) && AllKnown(log, waits) && Turns(held)
    requires s % QUEUES == chunk % QUEUES && s / QUEUES + 1 < |modes|
    ensures var after := log + Fetch(|log|, waits, s, chunk, held, mode);
            Sound(after, kernels, start, uses, modes) && TasksAwaited(after)
  {
    hide Sound;
    var fetch := Fetch(|log|, waits, s, chunk, held, mode);
    if fetch == [] {
      assert log + fetch == log;
    } else if |fetch| == 2 {
      TwoSound(log, kernels, fetch[0], fetch[1], start, uses, modes);
    } else {
      var three := log + [fetch[0], fetch[1]] + [fetch[2]];
      TwoSound(log, kernels, fetch[0], fetch[1], start, uses, modes);
      SoundWithCommand(log + [fetch[0], fetch[1]], kernels, fetch[2], start, uses, modes);
      TwoSound(three, kernels, fetch[3], fetch[4], start, uses, modes);
      assert log + fetch == three + [fetch[3], fetch[4]];
    }
  }

  lemma TwoSound(log: seq<Command>, kernels: seq<nat>, c: Command, d: Command, start: map<nat, nat>,
                 uses: seq<seq<nat>>, modes: seq<ObjectMode>)
    requires Sound(log, kernels, start, uses, modes) && !c.kind.Kernel? && !d.kind.Kernel? && InLane(c) && InLane(d)
    requires AllKnown(log, c.waits) && AllKnown(log + [c], d.waits) && SlotsInside([c, d], modes)
    ensures Sound(log + [c, d], kernels, start, uses, modes)
  {
    hide Sound, InLane;
    assert SlotsInside([c], modes) && SlotsInside([d], modes) by {
      assert [c, d][0] == c && [c, d][1] == d;
    }
    SoundWithCommand(log, kernels, c, start, uses, modes);
    SoundWithCommand(log + [c], kernels, d, start, uses, modes);
    assert log + [c, d] == log + [c] + [d];
  }

  /** A log in the making that keeps to everything, whose active objects are in their slots. */
  ghost predicate SoundMaking(m: Making, kernels: seq<nat>, chunk: nat, start: map<nat, nat>, uses: seq<seq<nat>>,
                              modes: seq<ObjectMode>)
  {
    && Sound(m.log, kernels, start, uses, modes) && TasksAwaited(m.log) && Holds(m.held, start, m.log, modes)
    && AllKnown(m.log, m.waits) && Known(m.log, m.event) && AllHeld(m.held, m.active, chunk)
  }

  lemma LockOneSound(m: Making, kernels: seq<nat>, oid: nat, chunk: nat, start: map<nat, nat>, uses: seq<seq<nat>>,
                     modes: seq<ObjectMode>)
    requires 1 <= oid < |modes| && SoundMaking(m, kernels, chunk, start, uses, modes)
    ensures SoundMaking(LockOne(m, oid, chunk, modes), kernels, chunk, start, uses, modes)
  {
    hide Sound, TasksAwaited, Holds, Fetch, AllHeld;
    if oid !in m.active {
      var s := SlotOf(oid, chunk);
      HeldTurns(m.held, start, m.log, modes);
      FetchSound(m.log, kernels, m.waits, s, chunk, m.held, start, uses, modes, modes[oid]);
      FetchLoads(m.log, m.waits, s, chunk, m.held, start, modes, oid);
      OthersHeld(m.held, m.active, oid, chunk);
    }
  }

  lemma HeldTurns(held: map<nat, nat>, start: map<nat, nat>, log: seq<Command>, modes: seq<ObjectMode>)
    requires Holds(held, start, log, modes)
    ensures Turns(held)
  {
  }

  lemma {:induction false} ActivateFirstSound(m: Making, kernels: seq<nat>, r: nat, chunk: nat, start: map<nat, nat>,
                                              uses: seq<seq<nat>>, modes: seq<ObjectMode>)
    requires GoodUses(uses, modes) && r <= |uses| && SoundMaking(m, kernels, chunk, start, uses, modes)
    ensures SoundMaking(ActivateFirst(m, uses, r, chunk, modes), kernels, chunk, start, uses, modes)
  {
    hide Sound, TasksAwaited, Holds, AllHeld, LockOne;
    if r > 0 {
      ActivateFirstSound(m, kernels, r - 1, chunk, start, uses, modes);
      var before, objects := ActivateFirst(m, uses, r - 1, chunk, modes), uses[r - 1];
      if |objects| == 1 {
        LockOneSound(before, kernels, objects[0], chunk, start, uses, modes);
      } else {
        LockOneSound(before.(event := NONE), kernels, objects[0], chunk, start, uses, modes);
        var fst := LockOne(before.(event := NONE), objects[0], chunk, modes);
        LockOneSound(fst.(event := before.event, waits := WaitList(fst.event)), kernels, objects[1], chunk, start, uses,
                     modes);
      }
    }
  }

  /** The kernels of the first r functions, enqueued one after the other. */
  lemma {:induction false} KernelsSound(log: seq<Command>, kernels: seq<nat>, held: map<nat, nat>, waits: set<nat>,
                                        r: nat, chunk: nat, start: map<nat, nat>, uses: seq<seq<nat>>,
                                        modes: seq<ObjectMode>)
    returns (more: seq<nat>)
    requires r <= |uses| && GoodUses(uses, modes) && Sound(log, kernels, start, uses, modes) && TasksAwaited(log)
    requires Holds(held, start, log, modes) && AllKnown(log, waits) && |kernels| == chunk * |uses|
    requires |kernels| > 0 ==> kernels[|kernels| - 1] in waits
    requires forall q, l :: 0 <= q < |uses| && 0 <= l < |uses[q]| ==>
               SlotOf(uses[q][l], chunk) in held && held[SlotOf(uses[q][l], chunk)] == chunk
    ensures var after := log + KernelsOf(|log|, waits, uses, r, chunk);
            && Sound(after, more, start, uses, modes) && TasksAwaited(after) && Holds(held, start, after, modes)
            && kernels <= more && |more| == chunk * |uses| + r
            && (r > 0 ==> |more| > 0 && more[|more| - 1] == |after| - 1)
  {
    hide Sound, Holds;
    var ks := KernelsOf(|log|, waits, uses, r, chunk);
    if r == 0 {
      assert log + ks == log;
      more := kernels;
    } else {
      more := KernelsSound(log, kernels, held, waits, r - 1, chunk, start, uses, modes);
      var before := log + KernelsOf(|log|, waits, uses, r - 1, chunk);
      assert log + ks == before + [ks[r - 1]];
      KernelKeeps(before, ks[r - 1], held, start, modes);
      SoundWithKernel(before, more, ks[r - 1], held, start, uses, modes);
      more := more + [|before|];
    }
  }

  /** In every run: kernels are created chunk by chunk and function by function, each waiting for the one before it, on
      the queues in turn; each finds its chunks in its slots; everything works on slots and chunks whose turn it is on
      its queue, and copy tasks are waited for. */
  lemma {:induction false} RunIsSound(n: nat, uses: seq<seq<nat>>, modes: seq<ObjectMode>, start: map<nat, nat>)
    returns (kernels: seq<nat>)
    requires GoodUses(uses, modes) && Turns(start)
    ensures var r := RunLog(n, uses, modes, start);
            && Sound(r.0, kernels, start, uses, modes) && TasksAwaited(r.0) && Holds(r.1, start, r.0, modes)
            && |kernels| == n * |uses| && (n > 0 ==> |kernels| > 0 && kernels[|kernels| - 1] == |r.0| - 1)
  {
    hide Sound, TasksAwaited, Holds, Round;
    if n == 0 {
      kernels := [];
      NothingIsSound(uses, modes, start);
    } else {
      kernels := RunIsSound(n - 1, uses, modes, start);
      kernels := RoundSound(RunLog(n - 1, uses, modes, start), kernels, n - 1, start, uses, modes);
    }
  }

  lemma NothingIsSound(uses: seq<seq<nat>>, modes: seq<ObjectMode>, start: map<nat, nat>)
    requires GoodUses(uses, modes) && Turns(start)
    ensures Sound([], [], start, uses, modes) && TasksAwaited([]) && Holds(start, start, [], modes)
  {
  }

  lemma RoundSound(before: (seq<Command>, map<nat, nat>), kernels: seq<nat>, chunk: nat, start: map<nat, nat>,
                   uses: seq<seq<nat>>, modes: seq<ObjectMode>)
    returns (more: seq<nat>)
    requires GoodUses(uses, modes) && Sound(before.0, kernels, start, uses, modes) && TasksAwaited(before.0)
    requires Holds(before.1, start, before.0, modes) && |kernels| == chunk * |uses|
    requires if chunk > 0 then |kernels| > 0 && kernels[|kernels| - 1] == |before.0| - 1 else kernels == []
    ensures var r := Round(before, uses, chunk, modes);
            && Sound(r.0, more, start, uses, modes) && TasksAwaited(r.0) && Holds(r.1, start, r.0, modes)
            && |more| == (chunk + 1) * |uses| > 0 && more[|more| - 1] == |r.0| - 1
  {
    hide Sound, TasksAwaited, Holds, AllHeld, ActivateFirst, KernelsOf;
    var m := Making(before.0, before.1, {}, NONE, {});
    var a := ActivateFirst(m, uses, |uses|, chunk, modes);
    NoneHeld(before.1, chunk);
    ActivateFirstSound(m, kernels, |uses|, chunk, start, uses, modes);
    forall q, l | 0 <= q < |uses| && 0 <= l < |uses[q]|
      ensures SlotOf(uses[q][l], chunk) in a.held && a.held[SlotOf(uses[q][l], chunk)] == chunk
    {
      AllActive(m, uses, |uses|, chunk, modes, q);
      ActiveIsHeld(a.held, a.active, uses[q], chunk);
    }
    more := KernelsSound(a.log, kernels, a.held, a.waits + WaitList(|before.0| - 1), |uses|, chunk, start, uses, modes);
    NextChunk(chunk, |uses|);
  }

  // ---------- what every schedule of a run keeps ----------

  /** In every schedule the kernels complete in one order: chunk by chunk, and on each chunk in the order in which the
      functions were enqueued. */
  lemma {:induction false} KernelsCompleteInOrder(log: seq<Command>, kernels: seq<nat>, uses: seq<seq<nat>>,
                                                  modes: seq<ObjectMode>, order: seq<nat>, a: nat, l: nat, m: nat)
    requires KernelChain(log, kernels, uses, modes) && Schedule(log, order)
    requires l < m < |kernels| && a < |order| && order[a] == kernels[m]
    ensures kernels[l] in order[..a]
  {
    assert Needs(log, order[a], kernels[m - 1]);
    assert kernels[m - 1] in order[..a];
    if l < m - 1 {
      var b :| 0 <= b < a && order[b] == kernels[m - 1];
      KernelsCompleteInOrder(log, kernels, uses, modes, order, b, l, m - 1);
      var c :| 0 <= c < b && order[c] == kernels[l];
      assert order[..a][c] == kernels[l];
    }
  }

  /** All commands that work on the device buffer of one slot complete in the order in which they were created: a slot
      takes its turn on one queue only. */
  lemma DeviceInOrder(log: seq<Command>, order: seq<nat>, s: nat, i: nat, j: nat, a: nat)
    requires InLanes(log) && Schedule(log, order) && i < j < |log| && On(log[i], Device(s)) && On(log[j], Device(s))
    requires a < |order| && order[a] == j
    ensures i in order[..a]
  {
    assert Needs(log, j, i);
  }

  lemma YoungerIsPending(log: seq<Command>, order: seq<nat>, s: nat, i: nat, j: nat, a: nat)
    requires InLanes(log) && Schedule(log, order) && i < j < |log| && On(log[i], Device(s)) && On(log[j], Device(s))
    requires a < |order| && order[a] == i
    ensures j !in order[..a]
  {
    assert Needs(log, j, i);
  }

  /** Command t is a transfer to slot s that leaves it with what is loaded there before command i. */
  ghost predicate LastTransfer(log: seq<Command>, s: nat, t: nat, i: nat) {
    && t < i <= |log| && log[t].kind.ToDevice? && s in log[t].slots
    && forall u :: t < u < i && log[u].kind.ToDevice? ==> s !in log[u].slots
  }

  /** What is loaded came with the last transfer, or was there from the start. */
  lemma {:induction false} LoadedByTransfer(start: map<nat, nat>, log: seq<Command>, s: nat, i: nat)
    requires i <= |log|
    ensures (exists t: nat :: LastTransfer(log, s, t, i) && log[t].kind.chunk == Loaded(start, log[..i], s))
            || ((forall t :: 0 <= t < i && log[t].kind.ToDevice? ==> s !in log[t].slots)
                && Loaded(start, log[..i], s) == if s in start then start[s] else -1)
  {
    if i > 0 {
      var c := log[i - 1];
      assert log[..i][..i - 1] == log[..i - 1];
      if c.kind.ToDevice? && s in c.slots {
        assert LastTransfer(log, s, i - 1, i);
      } else {
        LoadedByTransfer(start, log, s, i - 1);
        if t: nat :| LastTransfer(log, s, t, i - 1) && log[t].kind.chunk == Loaded(start, log[..i - 1], s) {
          assert LastTransfer(log, s, t, i);
        }
      }
    }
  }

  /** In every schedule a kernel that completes finds its chunk in the slot of each of its objects: the transfer of that
      chunk has completed, and the copy task that it waits for; or the chunk was there from the start, and no transfer
      has replaced it. Transfers of later chunks have not completed. */
  lemma InputsAreInPlace(log: seq<Command>, kernels: seq<nat>, start: map<nat, nat>, uses: seq<seq<nat>>,
                         modes: seq<ObjectMode>, order: seq<nat>, a: nat, l: nat)
    requires Sound(log, kernels, start, uses, modes) && Schedule(log, order) && a < |order|
             && log[order[a]].kind.Kernel?
    requires log[order[a]].kind.runnable < |uses| && l < |uses[log[order[a]].kind.runnable]|
    requires modes[uses[log[order[a]].kind.runnable][l]] != Transient
    ensures var k, chunk := order[a], log[order[a]].kind.chunk;
            var s := SlotOf(uses[log[k].kind.runnable][l], chunk);
            && (forall t: nat :: t in order[..a] && log[t].kind.ToDevice? && s in log[t].slots ==> t < k)
            && ((exists t: nat :: LastTransfer(log, s, t, k) && log[t].kind.chunk == chunk && t in order[..a]
                                  && log[t].waits <= set w | w in order[..a])
                || (s in start && start[s] == chunk
                    && forall t: nat :: t in order[..a] && log[t].kind.ToDevice? ==> s !in log[t].slots))
  {
    var k, chunk := order[a], log[order[a]].kind.chunk;
    var s := SlotOf(uses[log[k].kind.runnable][l], chunk);
    assert FindsChunk(log, k, start, uses, modes);
    KernelSlots(log, kernels, uses, modes, k);
    forall t: nat | k < t < |log| && log[t].kind.ToDevice? && s in log[t].slots
      ensures t !in order[..a]
    {
      YoungerIsPending(log, order, s, k, t, a);
    }
    LoadedByTransfer(start, log, s, k);
    if t: nat :| LastTransfer(log, s, t, k) && log[t].kind.chunk == Loaded(start, log[..k], s) {
      DeviceInOrder(log, order, s, t, k, a);
      WaitsToo(log, order, t, a);
    }
  }

  lemma KernelSlots(log: seq<Command>, kernels: seq<nat>, uses: seq<seq<nat>>, modes: seq<ObjectMode>, k: nat)
    requires KernelChain(log, kernels, uses, modes) && k < |log| && log[k].kind.Kernel?
    ensures log[k].kind.runnable < |uses| && log[k].slots == SlotsOf(uses[log[k].kind.runnable], log[k].kind.chunk)
  {
    var m :| 0 <= m < |kernels| && kernels[m] == k;
    Indices.Split(m, |uses|);
  }

  /** What a completed command waited for has completed. */
  lemma WaitsToo(log: seq<Command>, order: seq<nat>, t: nat, a: nat)
    requires Schedule(log, order) && a <= |order| && t in order[..a] && t < |log|
    ensures log[t].waits <= set w | w in order[..a]
  {
    var b :| 0 <= b < a && order[b] == t;
    forall w | w in log[t].waits
      ensures w in order[..a]
    {
      assert Needs(log, order[b], w);
      var c :| 0 <= c < b && order[c] == w;
      assert order[..a][c] == w;
    }
  }
}
