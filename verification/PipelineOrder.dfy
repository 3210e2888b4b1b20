/** The commands of a whole pipeline: beside the runs of the scheduler on its two queues the host clears masses and sums
    and divides rows on a queue of its own, and only waits for the scheduler's queues. */
module PipelineOrder {
  import opened BufferCache
  import opened Schedules
  import opened Commands
  import opened StagingBuffers
  import opened Indices

  /** What stays on the device: the centroids of an iteration, and the masses and sums that it accumulates. */
  datatype Buffer = Centroids | Masses | Sums

  /** Centroids are made ready by the division of the iteration before, masses and sums by being cleared, in this order.
      */
  function Rank(b: Buffer): nat {
    match b
    case Centroids => 0
    case Masses => 1
    case Sums => 2
  }

  const MASSES := 2

  /** The matrices of centroids and of sums change places after every iteration. */
  function GlobalOf(b: Buffer, i: nat): nat {
    match b
    case Centroids => i % 2
    case Masses => MASSES
    case Sums => (i + 1) % 2
  }

  /** The queue of the host, and for every enqueued function the buffers whose being ready is an event that its kernels
      wait for. */
  datatype Tie = Tie(host_queue: nat, waits: seq<set<Buffer>>)

  /** The functions of a pipeline: what they use of the cache and of the buffers, and how they are tied to the host. */
  datatype Setup = Setup(uses: seq<seq<nat>>, modes: seq<ObjectMode>, touches: seq<set<Buffer>>, tie: Tie,
                         chunks: nat) {
    ghost predicate Valid() {
      GoodUses(uses, modes) && |touches| == |uses| == |tie.waits|
    }
  }

  // ---------- the log of a pipeline ----------

  ghost function Shifted(waits: set<nat>, d: nat): set<nat> {
    set w | w in waits :: w + d
  }

  lemma InShifted(waits: set<nat>, d: nat, w: nat)
    ensures w in waits ==> w + d in Shifted(waits, d)
    ensures w in Shifted(waits, d) ==> w >= d && w - d in waits
  {
  }

  /** The events of the host in iteration i, whose commands start at `base`. */
  ghost function EventsOf(bs: set<Buffer>, base: nat, i: nat): set<nat> {
    (if Centroids in bs && i > 0 && base > 0 then {base - 1} else {})
    + (if Masses in bs then {base} else {}) + (if Sums in bs then {base + 1} else {})
  }

  ghost function GlobalsOf(bs: set<Buffer>, i: nat): set<nat> {
    set b | b in bs :: GlobalOf(b, i)
  }

  /** A command of the scheduler in the log of the pipeline. */
  ghost function Moved(c: Command, su: Setup, base: nat, i: nat): (r: Command)
    requires su.Valid()
    ensures r.kind == c.kind && r.queue == c.queue && r.slots == c.slots && Shifted(c.waits, base + 2) <= r.waits
  {
    var waits := Shifted(c.waits, base + 2);
    if c.kind.Kernel? && c.kind.runnable < |su.uses| then
      var r := c.kind.runnable;
      Command(c.kind, c.queue, waits + EventsOf(su.tie.waits[r], base, i), c.slots, GlobalsOf(su.touches[r], i))
    else Command(c.kind, c.queue, waits, c.slots, {})
  }

  ghost function Segment(run: seq<Command>, su: Setup, base: nat, i: nat): (r: seq<Command>)
    requires su.Valid()
    ensures |r| == |run| && forall x :: 0 <= x < |run| ==> r[x] == Moved(run[x], su, base, i)
  {
    seq(|run|, x requires 0 <= x < |run| => Moved(run[x], su, base, i))
  }

  /** Clearing the masses, and the sums. */
  ghost function Clears(su: Setup, i: nat): seq<Command> {
    [Command(Clear, su.tie.host_queue, {}, {}, {MASSES}), Command(Clear, su.tie.host_queue, {}, {},
                                                                  {GlobalOf(Sums, i)})]
  }

  /** What finishing the scheduler's queues waits for. */
  ghost function ToFinish(log: seq<Command>, from: nat): (waits: set<nat>)
    ensures forall w: nat :: w in waits <==> from <= w < |log| && !log[w].kind.CopyTask?
  {
    set w: nat | from <= w < |log| && !log[w].kind.CopyTask?
  }

  /** The scheduler has been told to run, and its queues are to be finished. */
  ghost function Started(log: seq<Command>, run: seq<Command>, su: Setup, i: nat): seq<Command>
    requires su.Valid()
  {
    log + Clears(su, i) + Segment(run, su, |log|, i)
  }

  /** Finishing the queues, and the division. */
  ghost function Ends(log: seq<Command>, from: nat, su: Setup, i: nat): seq<Command> {
    [Command(HostWait, 0, ToFinish(log, from), {}, {}),
     Command(Divide, su.tie.host_queue, {}, {}, {MASSES, GlobalOf(Sums, i)})]
  }

  ghost function OneIteration(log: seq<Command>, run: seq<Command>, su: Setup, i: nat): (r: seq<Command>)
    requires su.Valid()
    ensures log <= r && |r| == |log| + |run| + 4
  {
    var started := Started(log, run, su, i);
    started + Ends(started, |log| + 2, su, i)
  }

  /** The log of m iterations, and what the slots hold then. */
  ghost function PipelineLog(m: nat, su: Setup, start: map<nat, nat>): (seq<Command>, map<nat, nat>)
    requires su.Valid()
  {
    if m == 0 then ([], start)
    else
      var before := PipelineLog(m - 1, su, start);
      var run := RunLog(su.chunks, su.uses, su.modes, before.1);
      (OneIteration(before.0, run.0, su, m - 1), run.1)
  }

  // ---------- when fills and divisions are in order ----------

  /** The host uses the scheduler's first queue; or every function that touches a buffer, or one before it, waits for an
      event by which the buffer is ready.  In the first iteration the centroids are ready anyway. */
  predicate Tied(tie: Tie, touches: seq<set<Buffer>>, m: nat)
    requires |tie.waits| == |touches|
  {
    tie.host_queue == 0
    || forall r, b :: 0 <= r < |touches| && b in touches[r] && (b != Centroids || m > 1) ==> Awaited(tie, r, b)
  }

  predicate Awaited(tie: Tie, r: nat, b: Buffer)
    requires r < |tie.waits|
  {
    exists q, e :: 0 <= q <= r && e in tie.waits[q] && Rank(e) >= Rank(b)
  }

  /** What is known of the log before an iteration: all of the scheduler's commands lead to the host's last wait, and
      the host's own end in a division. */
  ghost predicate Settled(log: seq<Command>, su: Setup) {
    log == []
    || (|log| >= 2 && log[|log| - 2].kind.HostWait? && log[|log| - 1].kind.Divide?
        && log[|log| - 1].queue == su.tie.host_queue
        && forall x: nat :: x < |log| ==> OfHost(log[x], su) || Leads(log, x, |log| - 2))
  }

  predicate OfHost(c: Command, su: Setup) {
    (c.kind.Clear? || c.kind.Divide?) && c.queue == su.tie.host_queue && c.slots == {}
  }

  // ---------- the shape of an iteration ----------

  /** A run of the scheduler is part of the log from command d on; its commands may wait for more. */
  ghost predicate Contains(log: seq<Command>, run: seq<Command>, d: nat) {
    && d + |run| <= |log|
    && forall x :: 0 <= x < |run| ==>
         log[d + x].kind == run[x].kind && log[d + x].queue == run[x].queue
           && Shifted(run[x].waits, d) <= log[d + x].waits
  }

  lemma {:induction false} LeadsInside(log: seq<Command>, run: seq<Command>, d: nat, x: nat, y: nat)
    requires Contains(log, run, d) && y < |run| && Leads(run, x, y)
    ensures d + y < |log| && Leads(log, d + x, d + y)
    decreases y
  {
    hide Shifted;
    if x != y {
      var w: nat :| w < y && Needs(run, y, w) && Leads(run, x, w);
      LeadsInside(log, run, d, x, w);
      InShifted(run[y].waits, d, w);
      assert Needs(log, d + y, d + w);
    }
  }

  /** The log goes on with two clearings, the run, the host's wait for it, and the division. */
  ghost predicate Shape(log: seq<Command>, run: seq<Command>, su: Setup, i: nat, after: seq<Command>)
    requires su.Valid()
  {
    var d, h := |log| + 2, |log| + 2 + |run|;
    && |after| == h + 2 && log <= after && after[|log|] == Clears(su, i)[0] && after[|log| + 1] == Clears(su, i)[1]
    && (forall x: nat :: x < |run| ==> after[d + x] == Moved(run[x], su, |log|, i))
    && after[h].kind.HostWait? && after[h].globals == {} && after[h].slots == {}
    && (forall x: nat :: x < |run| && !run[x].kind.CopyTask? ==> d + x in after[h].waits)
    && after[h + 1] == Command(Divide, su.tie.host_queue, {}, {}, {MASSES, GlobalOf(Sums, i)})
  }

  lemma ShapeOf(log: seq<Command>, run: seq<Command>, su: Setup, i: nat)
    requires su.Valid()
    ensures Shape(log, run, su, i, OneIteration(log, run, su, i))
  {
    hide Shifted, Moved, Started, ToFinish;
    StartedIs(log, run, su, i);
    WhatIsFinished(log, run, su, i);
  }

  lemma StartedIs(log: seq<Command>, run: seq<Command>, su: Setup, i: nat)
    requires su.Valid()
    ensures var started, d := Started(log, run, su, i), |log| + 2;
            && |started| == d + |run| && log <= started
            && started[|log|] == Clears(su, i)[0] && started[|log| + 1] == Clears(su, i)[1]
            && forall x: nat :: x < |run| ==> started[d + x] == Moved(run[x], su, |log|, i)
  {
    hide Shifted, Moved;
  }

  lemma WhatIsFinished(log: seq<Command>, run: seq<Command>, su: Setup, i: nat)
    requires su.Valid()
    ensures forall x: nat :: x < |run| && !run[x].kind.CopyTask? ==>
              |log| + 2 + x in ToFinish(Started(log, run, su, i), |log| + 2)
  {
    hide Shifted, Moved, Started, Clears;
    StartedIs(log, run, su, i);
    var started, d := Started(log, run, su, i), |log| + 2;
    forall x: nat | x < |run| && !run[x].kind.CopyTask?
      ensures d + x in ToFinish(started, d)
    {
      assert started[d + x] == Moved(run[x], su, |log|, i);
    }
  }

  lemma RunInside(log: seq<Command>, run: seq<Command>, su: Setup, i: nat)
    requires su.Valid()
    ensures Contains(OneIteration(log, run, su, i), run, |log| + 2)
  {
    hide OneIteration, Shifted, Moved;
    ShapeOf(log, run, su, i);
  }

  /** Finishing the scheduler's queues waits for all of a run, also for the copy tasks. */
  lemma RunIsFinished(log: seq<Command>, run: seq<Command>, su: Setup, i: nat, x: nat)
    requires su.Valid() && TasksAwaited(run) && x < |run|
    ensures var after, d := OneIteration(log, run, su, i), |log| + 2; Leads(after, d + x, d + |run|)
  {
    hide OneIteration, Shifted;
    ShapeOf(log, run, su, i);
    var after, d := OneIteration(log, run, su, i), |log| + 2;
    assert Leads(after, d + x, d + x);
    if run[x].kind.CopyTask? {
      var y := x + 1;
      InShifted(run[y].waits, d, x);
      assert Needs(after, d + y, d + x);
      assert Needs(after, d + |run|, d + y);
    } else {
      assert Needs(after, d + |run|, d + x);
    }
  }

  lemma StillSettled(log: seq<Command>, run: seq<Command>, su: Setup, i: nat)
    requires su.Valid() && TasksAwaited(run) && Settled(log, su)
    ensures Settled(OneIteration(log, run, su, i), su)
  {
    hide OneIteration, TasksAwaited;
    ShapeOf(log, run, su, i);
    var after, d := OneIteration(log, run, su, i), |log| + 2;
    var h := d + |run|;
    forall x: nat | x < |after|
      ensures OfHost(after[x], su) || Leads(after, x, h)
    {
      if x < |log| {
        if !OfHost(log[x], su) {
          LeadsGrows(log, after, x, |log| - 2);
          assert Needs(after, h, |log| - 2);
        }
      } else if d <= x < h {
        RunIsFinished(log, run, su, i, x - d);
      }
    }
  }

  // ---------- kernels come after what the host has made ready ----------

  lemma {:induction false} ChainLeads(run: seq<Command>, kernels: seq<nat>, uses: seq<seq<nat>>, modes: seq<ObjectMode>,
                                      l: nat, m: nat)
    requires Backward(run) && KernelChain(run, kernels, uses, modes) && l <= m < |kernels|
    ensures kernels[m] < |run| && Leads(run, kernels[l], kernels[m])
  {
    if l < m {
      ChainLeads(run, kernels, uses, modes, l, m - 1);
      assert Needs(run, kernels[m], kernels[m - 1]);
    }
  }

  /** The place of a kernel among the kernels. */
  lemma KernelNumber(run: seq<Command>, kernels: seq<nat>, uses: seq<seq<nat>>, modes: seq<ObjectMode>, x: nat)
    returns (m: nat)
    requires KernelChain(run, kernels, uses, modes) && x < |run| && run[x].kind.Kernel?
    ensures m < |kernels| && kernels[m] == x && run[x].kind.runnable < |uses|
    ensures m == run[x].kind.chunk * |uses| + run[x].kind.runnable
  {
    hide SlotsOf;
    m :| 0 <= m < |kernels| && kernels[m] == x;
    assert run[kernels[m]].kind == Kernel(m / |uses|, m % |uses|) && |uses| > 0;
    hide *;
    Split(m, |uses|);
  }

  /** The newest command of the host by which a buffer is ready. */
  ghost function ReadyAt(b: Buffer, base: nat): int {
    base - 1 + Rank(b)
  }

  /** An event that a kernel waits for is the newest of its kind. */
  lemma EventIs(bs: set<Buffer>, e: Buffer, base: nat, i: nat)
    requires e in bs && (e == Centroids ==> i > 0 && base > 0)
    ensures ReadyAt(e, base) >= 0 && ReadyAt(e, base) in EventsOf(bs, base, i)
  {
  }

  lemma EventOf(bs: set<Buffer>, base: nat, i: nat, w: nat) returns (e: Buffer)
    requires w in EventsOf(bs, base, i)
    ensures e in bs && w == ReadyAt(e, base)
  {
    e := if w == base - 1 then Centroids else if w == base then Masses else Sums;
  }

  /** What the host has done to a buffer that a kernel touches is not newer than what makes it ready. */
  lemma NotNewer(log: seq<Command>, run: seq<Command>, su: Setup, i: nat, after: seq<Command>, h: nat, b: Buffer)
    requires su.Valid() && Shape(log, run, su, i, after) && h < |log| + 2 && GlobalOf(b, i) in after[h].globals
    ensures h <= ReadyAt(b, |log|)
  {
  }

  /** A command of the host on a buffer leads to every kernel of the iteration that touches it. */
  lemma HostToKernel(log: seq<Command>, run: seq<Command>, su: Setup, i: nat, after: seq<Command>, kernels: seq<nat>,
                     h: nat, x: nat, b: Buffer, m: nat)
    requires su.Valid() && Shape(log, run, su, i, after) && Contains(after, run, |log| + 2)
    requires Backward(run) && KernelChain(run, kernels, su.uses, su.modes) && (i > 0 <==> |log| > 0)
    requires h < |log| + 2 && OfHost(after[h], su) && x < |run| && run[x].kind.Kernel?
             && run[x].kind.runnable < |su.uses|
    requires b in su.touches[run[x].kind.runnable] && GlobalOf(b, i) in after[h].globals
    requires i < m && Tied(su.tie, su.touches, m)
    requires |log| > 0 ==> after[|log| - 1].kind.Divide? && after[|log| - 1].queue == su.tie.host_queue
    ensures Leads(after, h, |log| + 2 + x)
  {
    hide Shape, Contains, KernelChain, Backward, OfHost, Leads;
    var at := KernelNumber(run, kernels, su.uses, su.modes, x);
    if su.tie.host_queue == 0 {
      ByQueue(log, run, su, i, after, kernels, h, at);
    } else {
      NotNewer(log, run, su, i, after, h, b);
      var r := run[x].kind.runnable;
      assert Awaited(su.tie, r, b);
      var q, e :| 0 <= q <= r && e in su.tie.waits[q] && Rank(e) >= Rank(b);
      ByEvent(log, run, su, i, after, kernels, h, at, run[x].kind.chunk, q, e);
    }
  }

  /** On the scheduler's first queue the host is ahead of the first kernel, and that of all others. */
  lemma ByQueue(log: seq<Command>, run: seq<Command>, su: Setup, i: nat, after: seq<Command>, kernels: seq<nat>, h: nat,
                at: nat)
    requires su.Valid() && Shape(log, run, su, i, after) && Contains(after, run, |log| + 2)
    requires Backward(run) && KernelChain(run, kernels, su.uses, su.modes) && at < |kernels|
    requires h < |log| + 2 && OfHost(after[h], su) && su.tie.host_queue == 0
    ensures kernels[at] < |run| && |log| + 2 + kernels[at] < |after| && Leads(after, h, |log| + 2 + kernels[at])
  {
    hide Shape, Contains, KernelChain, Backward;
    FirstKernel(run, kernels, su.uses, su.modes);
    KernelsMoved(log, run, su, i, after, kernels[0]);
    var first := |log| + 2 + kernels[0];
    assert Leads(after, h, h);
    assert Needs(after, first, h);
    ChainLeads(run, kernels, su.uses, su.modes, 0, at);
    LeadsInside(after, run, |log| + 2, kernels[0], kernels[at]);
    LeadsOn(after, h, first, |log| + 2 + kernels[at]);
  }

  /** Otherwise a kernel of the same chunk waits for an event of the host that is no older. */
  lemma ByEvent(log: seq<Command>, run: seq<Command>, su: Setup, i: nat, after: seq<Command>, kernels: seq<nat>, h: nat,
                at: nat, chunk: nat, q: nat, e: Buffer)
    requires su.Valid() && Shape(log, run, su, i, after) && Contains(after, run, |log| + 2)
    requires Backward(run) && KernelChain(run, kernels, su.uses, su.modes) && at < |kernels|
    requires h < |log| + 2 && OfHost(after[h], su) && h <= ReadyAt(e, |log|)
    requires |log| > 0 ==> after[|log| - 1].kind.Divide? && after[|log| - 1].queue == su.tie.host_queue
    requires q < |su.uses| && chunk * |su.uses| + q <= at && e in su.tie.waits[q] && (|log| > 0 ==> i > 0)
    ensures kernels[at] < |run| && |log| + 2 + kernels[at] < |after| && Leads(after, h, |log| + 2 + kernels[at])
  {
    hide Shape, Contains, KernelChain, Backward;
    EventIs(su.tie.waits[q], e, |log|, i);
    var event, number := ReadyAt(e, |log|), chunk * |su.uses| + q;
    KernelAt(run, kernels, su.uses, su.modes, chunk, q, at);
    KernelsMoved(log, run, su, i, after, kernels[number]);
    EventOnLane(log, run, su, i, after, h, event);
    var waiting := |log| + 2 + kernels[number];
    assert Needs(after, waiting, event);
    ChainLeads(run, kernels, su.uses, su.modes, number, at);
    LeadsInside(after, run, |log| + 2, kernels[number], kernels[at]);
    LeadsOn(after, h, waiting, |log| + 2 + kernels[at]);
  }

  lemma FirstKernel(run: seq<Command>, kernels: seq<nat>, uses: seq<seq<nat>>, modes: seq<ObjectMode>)
    requires KernelChain(run, kernels, uses, modes) && |kernels| > 0
    ensures kernels[0] < |run| && run[kernels[0]].kind.Kernel? && run[kernels[0]].queue == 0
  {
    Indices.DivMod(|uses|, 0, 0);
  }

  /** The kernel of an earlier function on the same chunk. */
  lemma KernelAt(run: seq<Command>, kernels: seq<nat>, uses: seq<seq<nat>>, modes: seq<ObjectMode>, chunk: nat, q: nat,
                 at: nat)
    requires KernelChain(run, kernels, uses, modes) && at < |kernels| && q < |uses| && chunk * |uses| + q <= at
    ensures 0 <= chunk * |uses| + q < |kernels| && kernels[chunk * |uses| + q] < |run|
    ensures run[kernels[chunk * |uses| + q]].kind == Kernel(chunk, q)
  {
    Indices.Product(chunk, |uses|);
    RoundAndFunction(chunk, |uses|, q);
  }

  lemma KernelsMoved(log: seq<Command>, run: seq<Command>, su: Setup, i: nat, after: seq<Command>, x: nat)
    requires su.Valid() && Shape(log, run, su, i, after) && x < |run| && run[x].kind.Kernel?
    ensures |log| + 2 + x < |after|
    ensures var c := after[|log| + 2 + x];
            && c.kind == run[x].kind && c.queue == run[x].queue
            && (run[x].kind.runnable < |su.uses| ==> EventsOf(su.tie.waits[run[x].kind.runnable], |log|, i) <= c.waits)
  {
    hide Shifted, EventsOf;
  }

  /** The events of the host are on one queue, in the order of their ranks. */
  lemma EventOnLane(log: seq<Command>, run: seq<Command>, su: Setup, i: nat, after: seq<Command>, h: nat, event: nat)
    requires su.Valid() && Shape(log, run, su, i, after) && h <= event && |log| - 1 <= event < |log| + 2
    requires OfHost(after[h], su)
    requires |log| > 0 ==> after[|log| - 1].kind.Divide? && after[|log| - 1].queue == su.tie.host_queue
    ensures Leads(after, h, event)
  {
    hide Moved;
    assert Leads(after, h, h);
    if h < event {
      assert Needs(after, event, h);
    }
  }

  // ---------- one more iteration ----------

  /** What an iteration adds to a log, whose run and kernels keep to what they should. */
  ghost predicate Step(log: seq<Command>, run: seq<Command>, su: Setup, i: nat, after: seq<Command>,
                       kernels: seq<nat>) {
    && su.Valid() && Shape(log, run, su, i, after) && Contains(after, run, |log| + 2) && Settled(log, su)
    && Backward(run) && InLanes(run) && TasksAwaited(run) && KernelChain(run, kernels, su.uses, su.modes)
    && (i > 0 <==> |log| > 0)
  }

  lemma StepIs(log: seq<Command>, run: seq<Command>, su: Setup, i: nat, after: seq<Command>, kernels: seq<nat>)
    requires Step(log, run, su, i, after, kernels)
    ensures su.Valid() && Shape(log, run, su, i, after) && Contains(after, run, |log| + 2) && Settled(log, su)
    ensures |after| == |log| + |run| + 4 && log <= after && Backward(run)
    ensures |log| > 0 ==> |log| >= 2 && log[|log| - 1].kind.Divide? && log[|log| - 1].queue == su.tie.host_queue
  {
    hide KernelChain, InLanes, TasksAwaited, Contains, Moved;
  }

  /** What kind of command is where. */
  lemma WhoIsWhere(log: seq<Command>, run: seq<Command>, su: Setup, i: nat, after: seq<Command>, y: nat)
    requires su.Valid() && Shape(log, run, su, i, after) && |log| <= y < |after| && InLanes(run)
    ensures if |log| + 2 <= y < |log| + 2 + |run| then
              var c := run[y - |log| - 2];
              && after[y] == Moved(c, su, |log|, i)
              && (forall p: Place :: !p.Global? ==> (On(after[y], p) <==> On(c, p)))
            else if y == |log| + 2 + |run| then forall p :: !On(after[y], p)
            else OfHost(after[y], su) && forall p: Place :: !p.Global? ==> !On(after[y], p)
  {
    hide Shifted, EventsOf, GlobalsOf;
    if |log| + 2 <= y < |log| + 2 + |run| {
      var x := y - |log| - 2;
      assert after[|log| + 2 + x] == Moved(run[x], su, |log|, i);
      assert InLane(run[x]);
    }
  }

  /** Whatever buffer a kernel of the log touches, its function does. */
  lemma TouchedBy(c: Command, su: Setup, base: nat, i: nat, g: nat)
    returns (b: Buffer)
    requires su.Valid() && InLane(c) && g in Moved(c, su, base, i).globals
    ensures c.kind.Kernel? && c.kind.runnable < |su.uses| && b in su.touches[c.kind.runnable] && GlobalOf(b, i) == g
  {
    hide Shifted, EventsOf;
    b :| b in su.touches[c.kind.runnable] && GlobalOf(b, i) == g;
  }

  /** A command of the host leads to all younger ones on its buffers. */
  lemma HostLeads(log: seq<Command>, run: seq<Command>, su: Setup, i: nat, after: seq<Command>, kernels: seq<nat>,
                  m: nat, x: nat, y: nat, g: nat)
    requires Step(log, run, su, i, after, kernels) && x < |log| + 2 && x < y < |after| && |log| <= y
    requires OfHost(after[x], su) && g in after[x].globals && g in after[y].globals
    requires i < m && Tied(su.tie, su.touches, m)
    ensures Leads(after, x, y)
  {
    hide Shape, Contains, KernelChain, Moved, TasksAwaited, Settled, Tied, InLanes, InLane, Backward;
    StepIs(log, run, su, i, after, kernels);
    WhoIsWhere(log, run, su, i, after, y);
    assert On(after[y], Global(g));
    if |log| + 2 <= y < |log| + 2 + |run| {
      var z := y - |log| - 2;
      AllInLane(run, z);
      var b := TouchedBy(run[z], su, |log|, i, g);
      HostToKernel(log, run, su, i, after, kernels, x, z, b, m);
    } else {
      assert Leads(after, x, x);
      assert Needs(after, y, x);
    }
  }

  lemma AllInLane(run: seq<Command>, z: nat)
    requires InLanes(run) && z < |run|
    ensures InLane(run[z])
  {
  }

  /** Kernels of one run come one after the other. */
  lemma KernelsLead(run: seq<Command>, kernels: seq<nat>, su: Setup, x: nat, y: nat)
    requires Backward(run) && KernelChain(run, kernels, su.uses, su.modes) && x < y < |run|
    requires run[x].kind.Kernel? && run[y].kind.Kernel?
    ensures Leads(run, x, y)
  {
    hide KernelChain, Backward, Leads;
    var l := KernelNumber(run, kernels, su.uses, su.modes, x);
    var m := KernelNumber(run, kernels, su.uses, su.modes, y);
    if l <= m {
      ChainLeads(run, kernels, su.uses, su.modes, l, m);
    } else {
      ChainLeads(run, kernels, su.uses, su.modes, m, l);
      LeadsForward(run, y, x);
    }
  }

  /** A command of the run leads to all younger ones on its places. */
  lemma RunLeads(log: seq<Command>, run: seq<Command>, su: Setup, i: nat, after: seq<Command>, kernels: seq<nat>,
                 p: Place, x: nat, y: nat)
    requires Step(log, run, su, i, after, kernels) && |log| + 2 <= x < |log| + 2 + |run| && x < y < |after|
    requires On(after[x], p) && On(after[y], p) && (!p.Global? ==> Ordered(run, p))
    requires after == OneIteration(log, run, su, i)
    ensures Leads(after, x, y)
  {
    hide Shape, Contains, KernelChain, Moved, TasksAwaited, Settled, InLanes, InLane, Backward, OneIteration, Leads, On;
    StepIs(log, run, su, i, after, kernels);
    WhoIsWhere(log, run, su, i, after, x);
    WhoIsWhere(log, run, su, i, after, y);
    var z := x - |log| - 2;
    AllInLane(run, z);
    if y < |log| + 2 + |run| {
      var u := y - |log| - 2;
      AllInLane(run, u);
      if p.Global? {
        BothTouch(after[x], after[y], p);
        var b := TouchedBy(run[z], su, |log|, i, p.id);
        b := TouchedBy(run[u], su, |log|, i, p.id);
        KernelsLead(run, kernels, su, z, u);
      }
      LeadsInside(after, run, |log| + 2, z, u);
    } else {
      RunIsFinished(log, run, su, i, z);
      AfterWait(log, run, su, i, after, x, y);
    }
  }

  lemma BothTouch(c: Command, d: Command, p: Place)
    requires p.Global? && On(c, p) && On(d, p)
    ensures p.id in c.globals && p.id in d.globals
  {
  }

  lemma AfterWait(log: seq<Command>, run: seq<Command>, su: Setup, i: nat, after: seq<Command>, x: nat, y: nat)
    requires su.Valid() && Shape(log, run, su, i, after) && |log| + 2 + |run| < y < |after|
    requires Leads(after, x, |log| + 2 + |run|)
    ensures Leads(after, x, y)
  {
    hide Moved;
    assert Needs(after, y, |log| + 2 + |run|);
  }

  /** Whatever was ordered at a place stays so in one more iteration. */
  lemma StepOrdered(log: seq<Command>, run: seq<Command>, su: Setup, i: nat, after: seq<Command>, kernels: seq<nat>,
                    m: nat, p: Place)
    requires Step(log, run, su, i, after, kernels) && after == OneIteration(log, run, su, i) && Ordered(log, p)
    requires if p.Global? then i < m && Tied(su.tie, su.touches, m) else Ordered(run, p)
    ensures Ordered(after, p)
  {
    hide Shape, Contains, KernelChain, Moved, TasksAwaited, InLanes, Tied, OneIteration, Leads, Backward;
    StepIs(log, run, su, i, after, kernels);
    forall x: nat, y: nat | x < y < |after| && On(after[x], p) && On(after[y], p)
      ensures Leads(after, x, y)
    {
      if y < |log| {
        LeadsGrows(log, after, x, y);
      } else if x < |log| && !OfHost(log[x], su) {
        LeadsGrows(log, after, x, |log| - 2);
        OldWait(log, after, x, y);
      } else if x < |log| + 2 {
        OfHostTouches(log, run, su, i, after, x, p);
        BothTouch(after[x], after[y], p);
        HostLeads(log, run, su, i, after, kernels, m, x, y, p.id);
      } else {
        WhoIsWhere(log, run, su, i, after, x);
        if x < |log| + 2 + |run| {
          RunLeads(log, run, su, i, after, kernels, p, x, y);
        } else {
          LastIsLast(log, run, after, x, y);
        }
      }
    }
  }

  lemma LastIsLast(log: seq<Command>, run: seq<Command>, after: seq<Command>, x: nat, y: nat)
    requires |after| == |log| + |run| + 4 && |log| + 2 + |run| <= x < y < |after|
    ensures x == |log| + 2 + |run|
  {
  }

  lemma OldWait(log: seq<Command>, after: seq<Command>, x: nat, y: nat)
    requires log <= after && |log| >= 2 && log[|log| - 2].kind.HostWait? && |log| <= y < |after|
    requires Leads(after, x, |log| - 2)
    ensures Leads(after, x, y)
  {
    assert Needs(after, y, |log| - 2);
  }

  /** Commands of the host work on nothing but buffers that stay on the device. */
  lemma OfHostTouches(log: seq<Command>, run: seq<Command>, su: Setup, i: nat, after: seq<Command>, x: nat, p: Place)
    requires su.Valid() && Shape(log, run, su, i, after) && x < |log| + 2 && On(after[x], p)
    requires x < |log| ==> OfHost(log[x], su)
    ensures p.Global? && OfHost(after[x], su)
  {
    hide Moved;
  }

  // ---------- whole pipelines ----------

  lemma {:induction false} TiedLess(su: Setup, m: nat)
    requires su.Valid() && m > 0 && Tied(su.tie, su.touches, m)
    ensures Tied(su.tie, su.touches, m - 1)
  {
    hide Awaited;
  }

  lemma {:induction false} SlotsTakeTurns(m: nat, su: Setup, start: map<nat, nat>)
    requires su.Valid() && Turns(start)
    ensures Turns(PipelineLog(m, su, start).1)
  {
    hide RunLog, OneIteration;
    if m > 0 {
      SlotsTakeTurns(m - 1, su, start);
      var before := PipelineLog(m - 1, su, start);
      var kernels := RunIsSound(su.chunks, su.uses, su.modes, before.1);
      HeldTurns(RunLog(su.chunks, su.uses, su.modes, before.1).1, before.1,
                RunLog(su.chunks, su.uses, su.modes, before.1).0, su.modes);
    }
  }

  /** The next iteration of a pipeline, whose run keeps to what it should. */
  lemma NextStep(m: nat, su: Setup, start: map<nat, nat>) returns (kernels: seq<nat>)
    requires su.Valid() && Turns(start) && Settled(PipelineLog(m, su, start).0, su)
    requires m > 0 <==> |PipelineLog(m, su, start).0| > 0
    ensures var before := PipelineLog(m, su, start);
            var run := RunLog(su.chunks, su.uses, su.modes, before.1).0;
            Step(before.0, run, su, m, OneIteration(before.0, run, su, m), kernels)
  {
    hide RunLog, OneIteration, Shape, Contains, Settled, TasksAwaited, KernelChain, Holds;
    var before := PipelineLog(m, su, start);
    var run := RunLog(su.chunks, su.uses, su.modes, before.1).0;
    SlotsTakeTurns(m, su, start);
    kernels := RunIsSound(su.chunks, su.uses, su.modes, before.1);
    ShapeOf(before.0, run, su, m);
    RunInside(before.0, run, su, m);
  }

  lemma {:induction false} AllSettledSoFar(m: nat, su: Setup, start: map<nat, nat>)
    requires su.Valid() && Turns(start)
    ensures Settled(PipelineLog(m, su, start).0, su) && (m > 0 <==> |PipelineLog(m, su, start).0| > 0)
  {
    hide RunLog, OneIteration, Settled, TasksAwaited, Sound, Holds;
    if m == 0 {
      NothingIsSettled(su);
    } else {
      AllSettledSoFar(m - 1, su, start);
      var before := PipelineLog(m - 1, su, start);
      SlotsTakeTurns(m - 1, su, start);
      var kernels := RunIsSound(su.chunks, su.uses, su.modes, before.1);
      StillSettled(before.0, RunLog(su.chunks, su.uses, su.modes, before.1).0, su, m - 1);
    }
  }

  lemma NothingIsSettled(su: Setup)
    ensures Settled([], su)
  {
  }

  /** What holds of a place in every run of the scheduler, and of buffers if the functions are tied to the host, holds
      in the whole pipeline: work is in the order of creation. */
  lemma {:induction false} PipelineOrdered(m: nat, su: Setup, start: map<nat, nat>, p: Place)
    requires su.Valid() && Turns(start)
    requires if p.Global? then Tied(su.tie, su.touches, m) else RunsOrdered(m, su, start, p)
    ensures Ordered(PipelineLog(m, su, start).0, p)
  {
    hide RunLog, OneIteration, Settled, Step, Tied, On, Leads;
    if m > 0 {
      if p.Global? {
        TiedLess(su, m);
      }
      PipelineOrdered(m - 1, su, start, p);
      AllSettledSoFar(m - 1, su, start);
      var kernels := NextStep(m - 1, su, start);
      var before := PipelineLog(m - 1, su, start);
      var run := RunLog(su.chunks, su.uses, su.modes, before.1).0;
      StepOrdered(before.0, run, su, m - 1, OneIteration(before.0, run, su, m - 1), kernels, m, p);
    }
  }

  /** In the runs of the first m iterations the work on a place is in order. */
  ghost predicate RunsOrdered(m: nat, su: Setup, start: map<nat, nat>, p: Place)
    requires su.Valid()
  {
    forall i: nat :: i < m ==> Ordered(RunLog(su.chunks, su.uses, su.modes, PipelineLog(i, su, start).1).0, p)
  }

  lemma StepBackward(log: seq<Command>, run: seq<Command>, su: Setup, i: nat)
    requires su.Valid() && Backward(log) && Backward(run)
    ensures Backward(OneIteration(log, run, su, i))
  {
    hide Shifted, GlobalsOf;
    var after, d := OneIteration(log, run, su, i), |log| + 2;
    forall y: nat, w | y < |after| && w in after[y].waits
      ensures w < y
    {
      if d <= y < d + |run| {
        var c := run[y - d];
        assert after[y] == Moved(c, su, |log|, i);
        InShifted(c.waits, d, w);
      }
    }
  }

  lemma NothingWaits()
    ensures Backward([])
  {
  }

  lemma {:induction false} PipelineBackward(m: nat, su: Setup, start: map<nat, nat>)
    requires su.Valid() && Turns(start)
    ensures Backward(PipelineLog(m, su, start).0)
  {
    hide RunLog, OneIteration, Backward, KernelChain, Holds, TasksAwaited;
    if m == 0 {
      NothingWaits();
    } else {
      PipelineBackward(m - 1, su, start);
      var before := PipelineLog(m - 1, su, start);
      SlotsTakeTurns(m - 1, su, start);
      var kernels := RunIsSound(su.chunks, su.uses, su.modes, before.1);
      StepBackward(before.0, RunLog(su.chunks, su.uses, su.modes, before.1).0, su, m - 1);
    }
  }

  // ---------- untied functions ----------

  /** Commands from number `from` on are no kernels, and on the queue of the chunk. */
  ghost predicate Plain(log: seq<Command>, from: nat, chunk: nat) {
    forall x: nat :: from <= x < |log| ==> !log[x].kind.Kernel? && log[x].queue == chunk % QUEUES
  }

  lemma LockOnePlain(m: Making, oid: nat, chunk: nat, modes: seq<ObjectMode>, from: nat)
    requires 1 <= oid < |modes| && Plain(m.log, from, chunk)
    ensures Plain(LockOne(m, oid, chunk, modes).log, from, chunk)
  {
  }

  lemma {:induction false} ActivateFirstPlain(m: Making, uses: seq<seq<nat>>, r: nat, chunk: nat,
                                              modes: seq<ObjectMode>, from: nat)
    requires GoodUses(uses, modes) && r <= |uses| && Plain(m.log, from, chunk)
    ensures Plain(ActivateFirst(m, uses, r, chunk, modes).log, from, chunk)
  {
    hide LockOne, Plain;
    if r > 0 {
      ActivateFirstPlain(m, uses, r - 1, chunk, modes, from);
      var before, objects := ActivateFirst(m, uses, r - 1, chunk, modes), uses[r - 1];
      if |objects| == 1 {
        LockOnePlain(before, objects[0], chunk, modes, from);
      } else {
        LockOnePlain(before.(event := NONE), objects[0], chunk, modes, from);
        var fst := LockOne(before.(event := NONE), objects[0], chunk, modes);
        LockOnePlain(fst.(event := before.event, waits := WaitList(fst.event)), objects[1], chunk, modes, from);
      }
    }
  }

  lemma {:induction false} KernelsAre(at: nat, waits: set<nat>, uses: seq<seq<nat>>, r: nat, chunk: nat)
    requires r <= |uses| && forall q, l :: 0 <= q < |uses| && 0 <= l < |uses[q]| ==> uses[q][l] > 0
    ensures forall q: nat :: q < r ==>
              KernelsOf(at, waits, uses, r, chunk)[q].kind == Kernel(chunk, q)
              && KernelsOf(at, waits, uses, r, chunk)[q].queue == chunk % QUEUES
  {
    if r > 0 {
      KernelsAre(at, waits, uses, r - 1, chunk);
    }
  }

  /** A run begins with commands on the first queue that are no kernels, and the kernels of the first chunk. */
  ghost predicate BeginsWith(run: seq<Command>, k0: nat, functions: nat) {
    && k0 + functions <= |run|
    && (forall x: nat :: x < k0 + functions ==> run[x].queue == 0)
    && (forall x: nat :: x < k0 ==> !run[x].kind.Kernel?)
    && forall q: nat :: q < functions ==> run[k0 + q].kind == Kernel(0, q)
  }

  lemma {:induction false} RunBegins(n: nat, uses: seq<seq<nat>>, modes: seq<ObjectMode>, start: map<nat, nat>)
    returns (k0: nat)
    requires GoodUses(uses, modes) && n > 0
    ensures BeginsWith(RunLog(n, uses, modes, start).0, k0, |uses|)
    decreases n
  {
    hide ActivateFirst, KernelsOf;
    if n == 1 {
      assert RunLog(0, uses, modes, start) == ([], start);
      var m := Making([], start, {}, NONE, {});
      var a := ActivateFirst(m, uses, |uses|, 0, modes);
      ActivateFirstPlain(m, uses, |uses|, 0, modes, 0);
      KernelsAre(|a.log|, a.waits + WaitList(-1), uses, |uses|, 0);
      k0 := |a.log|;
      var ks := KernelsOf(|a.log|, a.waits + WaitList(-1), uses, |uses|, 0);
      assert RunLog(1, uses, modes, start).0 == a.log + ks;
      forall x: nat | x < k0 + |uses|
        ensures (a.log + ks)[x].queue == 0
      {
        if x >= k0 {
          assert (a.log + ks)[x] == ks[x - k0];
        }
      }
    } else {
      k0 := RunBegins(n - 1, uses, modes, start);
      BeginsToo(RunLog(n - 1, uses, modes, start).0, RunLog(n, uses, modes, start).0, k0, |uses|);
    }
  }

  lemma BeginsToo(run: seq<Command>, more: seq<Command>, k0: nat, functions: nat)
    requires BeginsWith(run, k0, functions) && run <= more
    ensures BeginsWith(more, k0, functions)
  {
  }

  /** All commands before command h, and those of the run up to command k. */
  ghost predicate Among(h: nat, d: nat, k: nat, w: nat) {
    w < h || d <= w <= k
  }

  /** The kernels of the first chunk up to function r need nothing of the host from the buffer's being ready on, if
      neither they nor a function before them waits for it. */
  lemma NeedsAreAmong(log: seq<Command>, run: seq<Command>, su: Setup, i: nat, after: seq<Command>, k0: nat, r: nat,
                      b: Buffer, j: nat, w: nat)
    requires su.Valid() && Shape(log, run, su, i, after) && Settled(log, su) && Backward(log) && Backward(run)
    requires BeginsWith(run, k0, |su.uses|) && r < |su.uses| && !Awaited(su.tie, r, b) && su.tie.host_queue != 0
    requires ReadyAt(b, |log|) >= 0 && Among(ReadyAt(b, |log|), |log| + 2, |log| + 2 + k0 + r, j)
    requires w < j && Needs(after, j, w)
    ensures Among(ReadyAt(b, |log|), |log| + 2, |log| + 2 + k0 + r, w)
  {
    hide Shifted, GlobalsOf, Leads;
    if j >= |log| + 2 {
      var d := |log| + 2;
      var c := run[j - d];
      assert after[d + (j - d)] == Moved(c, su, |log|, i);
      if w in after[j].waits {
        InShifted(c.waits, d, w);
        if w !in Shifted(c.waits, d) {
          var q := j - d - k0;
          assert c.kind == Kernel(0, q);
          var e := EventOf(su.tie.waits[q], |log|, i, w);
          assert Rank(e) < Rank(b);
        }
      }
    }
  }

  lemma UntiedBreaks(log: seq<Command>, run: seq<Command>, su: Setup, i: nat, after: seq<Command>, k0: nat, r: nat,
                     b: Buffer)
    requires su.Valid() && Shape(log, run, su, i, after) && Settled(log, su) && Backward(log) && Backward(run)
    requires BeginsWith(run, k0, |su.uses|) && r < |su.uses| && !Awaited(su.tie, r, b) && su.tie.host_queue != 0
    requires b in su.touches[r] && ReadyAt(b, |log|) >= 0
    requires b == Centroids ==> GlobalOf(Centroids, i) in log[|log| - 1].globals
    ensures !Ordered(after, Global(GlobalOf(b, i)))
  {
    hide Shape, Settled, Backward, Shifted, BeginsWith, Awaited, Leads;
    var h, d, k := ReadyAt(b, |log|), |log| + 2, |log| + 2 + k0 + r;
    UntiedTouch(log, run, su, i, after, k0, r, b);
    var inside := set w: nat | w <= k && Among(h, d, k, w);
    forall j: nat, w: nat | j in inside && j < |after| && w < j && Needs(after, j, w)
      ensures w in inside
    {
      NeedsAreAmong(log, run, su, i, after, k0, r, b, j, w);
    }
    NotLed(after, inside, h, k);
  }

  lemma UntiedTouch(log: seq<Command>, run: seq<Command>, su: Setup, i: nat, after: seq<Command>, k0: nat, r: nat,
                    b: Buffer)
    requires su.Valid() && Shape(log, run, su, i, after) && BeginsWith(run, k0, |su.uses|) && r < |su.uses|
    requires b in su.touches[r] && ReadyAt(b, |log|) >= 0
    requires b == Centroids ==> GlobalOf(Centroids, i) in log[|log| - 1].globals
    ensures var h, k, p := ReadyAt(b, |log|), |log| + 2 + k0 + r, Global(GlobalOf(b, i));
            h < k < |after| && On(after[h], p) && On(after[k], p)
  {
    hide Shifted, EventsOf;
    assert after[|log| + 2 + (k0 + r)] == Moved(run[k0 + r], su, |log|, i);
    assert run[k0 + r].kind == Kernel(0, r);
  }

  /** Of two functions that are not tied, some schedule completes a kernel before its buffer is ready. */
  lemma UntiedSomewhere(m: nat, su: Setup, start: map<nat, nat>) returns (g: nat)
    requires su.Valid() && Turns(start) && su.chunks > 0 && m > 0 && !Tied(su.tie, su.touches, m)
    ensures !Ordered(PipelineLog(m, su, start).0, Global(g))
  {
    hide RunLog, OneIteration, Settled, Backward, Shape, Contains, Step, Awaited, Leads, KernelChain, BeginsWith;
    var r, b :| 0 <= r < |su.touches| && b in su.touches[r] && (b != Centroids || m > 1) && !Awaited(su.tie, r, b);
    var i := if b == Centroids then 1 else 0;
    AllSettledSoFar(i, su, start);
    PipelineBackward(i, su, start);
    var kernels := NextStep(i, su, start);
    var before := PipelineLog(i, su, start);
    var run := RunLog(su.chunks, su.uses, su.modes, before.1).0;
    var k0 := RunBegins(su.chunks, su.uses, su.modes, before.1);
    var after := OneIteration(before.0, run, su, i);
    StepIs(before.0, run, su, i, after, kernels);
    DividesSums(i, su, start);
    UntiedBreaks(before.0, run, su, i, after, k0, r, b);
    g := GlobalOf(b, i);
    assert PipelineLog(i + 1, su, start).0 == after;
    PipelinesGrow(i + 1, m, su, start);
    StillBroken(after, PipelineLog(m, su, start).0, Global(g));
  }

  lemma {:induction false} PipelinesGrow(i: nat, m: nat, su: Setup, start: map<nat, nat>)
    requires su.Valid() && i <= m
    ensures PipelineLog(i, su, start).0 <= PipelineLog(m, su, start).0
    decreases m
  {
    hide RunLog, OneIteration;
    if i < m {
      PipelinesGrow(i, m - 1, su, start);
    }
  }

  /** After the first iteration its sums are the next centroids, and the division has been at them. */
  lemma DividesSums(i: nat, su: Setup, start: map<nat, nat>)
    requires su.Valid() && i <= 1
    ensures var log := PipelineLog(i, su, start).0;
            i == 1 ==> |log| > 0 && GlobalOf(Centroids, 1) in log[|log| - 1].globals
  {
    hide RunLog, OneIteration, Moved;
    if i == 1 {
      ShapeOf([], RunLog(su.chunks, su.uses, su.modes, start).0, su, 0);
      assert PipelineLog(0, su, start) == ([], start);
    }
  }

  /** The commands on masses, sums and centroids complete in the order of creation in every schedule if and only if the
      functions are tied to the host. */
  lemma TiedIff(m: nat, su: Setup, start: map<nat, nat>)
    requires su.Valid() && Turns(start) && su.chunks > 0 && m > 0
    ensures (forall g: nat :: AlwaysInOrder(PipelineLog(m, su, start).0, Global(g))) <==> Tied(su.tie, su.touches, m)
  {
    hide PipelineLog, AlwaysInOrder, Ordered, Tied, Backward;
    var log := PipelineLog(m, su, start).0;
    PipelineBackward(m, su, start);
    if Tied(su.tie, su.touches, m) {
      forall g: nat
        ensures AlwaysInOrder(log, Global(g))
      {
        PipelineOrdered(m, su, start, Global(g));
        OrderedIff(log, Global(g));
      }
    } else {
      var g := UntiedSomewhere(m, su, start);
      OrderedIff(log, Global(g));
    }
  }

  // ---------- the whole memory ----------

  /** Device buffers and chunks of the host are worked on from one queue or thread only. */
  lemma LanesOrder(run: seq<Command>, p: Place)
    requires InLanes(run) && (p.Device? || p.Host?)
    ensures Ordered(run, p)
  {
    forall i: nat, j: nat | i < j < |run| && On(run[i], p) && On(run[j], p)
      ensures Leads(run, i, j)
    {
      assert InLane(run[i]) && InLane(run[j]);
      assert Needs(run, j, i) && Leads(run, i, i);
    }
  }

  lemma NoSuchSlot(run: seq<Command>, modes: seq<ObjectMode>, s: nat)
    requires SlotsInside(run, modes) && s / QUEUES + 1 >= |modes|
    ensures Ordered(run, Staging(s))
  {
  }

  /** A run of a pipeline is in order at all slots and all chunks of the host. */
  lemma RunOrdered(su: Setup, start: map<nat, nat>, p: Place)
    requires su.Valid() && Pipelined(su.uses, su.modes) && Turns(start) && !p.Global?
    requires forall turn: nat :: turn < QUEUES ==> PointsSettled([], start, turn)
    ensures Ordered(RunLog(su.chunks, su.uses, su.modes, start).0, p)
  {
    hide RunLog, Ordered, Pipelined, KernelChain, Holds, TasksAwaited, LedTo, Untouched;
    var run := RunLog(su.chunks, su.uses, su.modes, start);
    var kernels := RunIsSound(su.chunks, su.uses, su.modes, start);
    if p.Device? || p.Host? {
      LanesOrder(run.0, p);
    } else if p.slot < QUEUES {
      PointsStayInOrder(su.chunks, su.uses, su.modes, start, p.slot);
    } else {
      ModesOfPipeline(su.uses, su.modes);
      if p.slot / QUEUES + 1 < |su.modes| {
        WrittenBackInOrder(su.chunks, su.uses, su.modes, start);
        assert IsWrittenBack(p.slot, su.modes);
      } else {
        NoSuchSlot(run.0, su.modes, p.slot);
      }
    }
  }

  lemma ModesOfPipeline(uses: seq<seq<nat>>, modes: seq<ObjectMode>)
    requires Pipelined(uses, modes)
    ensures |modes| == 3 && modes[LABELS] == ReadWrite
  {
  }

  lemma {:induction false} PointsSettledSoFar(m: nat, su: Setup, start: map<nat, nat>, turn: nat)
    requires su.Valid() && Pipelined(su.uses, su.modes) && turn < QUEUES && PointsSettled([], start, turn)
    ensures PointsSettled([], PipelineLog(m, su, start).1, turn)
  {
    hide RunLog, OneIteration, PointsSettled, Pipelined;
    if m > 0 {
      PointsSettledSoFar(m - 1, su, start, turn);
      NextRunIsSettled(su.chunks, su.uses, su.modes, PipelineLog(m - 1, su, start).1, turn);
    }
  }

  /** A pipeline whose functions are tied to the host is in order everywhere: at all slots, all chunks of the host and
      all buffers that stay on the device. */
  lemma OrderedEverywhere(m: nat, su: Setup, start: map<nat, nat>, p: Place)
    requires su.Valid() && Pipelined(su.uses, su.modes) && Turns(start) && Tied(su.tie, su.touches, m)
    requires forall turn: nat :: turn < QUEUES ==> PointsSettled([], start, turn)
    ensures Ordered(PipelineLog(m, su, start).0, p)
  {
    hide RunLog, PipelineLog, PointsSettled, Pipelined, Ordered, Tied;
    if !p.Global? {
      forall i: nat | i < m
        ensures Ordered(RunLog(su.chunks, su.uses, su.modes, PipelineLog(i, su, start).1).0, p)
      {
        SlotsTakeTurns(i, su, start);
        forall turn: nat | turn < QUEUES
          ensures PointsSettled([], PipelineLog(i, su, start).1, turn)
        {
          PointsSettledSoFar(i, su, start, turn);
        }
        RunOrdered(su, PipelineLog(i, su, start).1, p);
      }
    }
    PipelineOrdered(m, su, start, p);
  }

  /** Everything that works on some place completes in the order of creation in every schedule if and only if the
      pipeline is tied to the host. */
  lemma InOrderIff(m: nat, su: Setup, start: map<nat, nat>)
    requires su.Valid() && Pipelined(su.uses, su.modes) && Turns(start) && su.chunks > 0 && m > 0
    requires forall turn: nat :: turn < QUEUES ==> PointsSettled([], start, turn)
    ensures (forall p :: AlwaysInOrder(PipelineLog(m, su, start).0, p)) <==> Tied(su.tie, su.touches, m)
  {
    hide PipelineLog, AlwaysInOrder, Ordered, Tied, PointsSettled, Pipelined;
    TiedIff(m, su, start);
    if Tied(su.tie, su.touches, m) {
      forall p
        ensures AlwaysInOrder(PipelineLog(m, su, start).0, p)
      {
        OrderedEverywhere(m, su, start, p);
        OrderedAlways(PipelineLog(m, su, start).0, p);
      }
    }
  }

  /** Then every schedule in which everything completes leaves the memory that the commands leave one after the other,
      as the program enqueues them, whatever the commands do to the places that they work on. */
  lemma AsTheProgramSays<V(!new)>(m: nat, su: Setup, start: map<nat, nat>, effects: seq<Effect<V>>, order: seq<nat>,
                                  memory: Memory<V>)
    requires su.Valid() && Pipelined(su.uses, su.modes) && Turns(start) && Tied(su.tie, su.touches, m)
    requires forall turn: nat :: turn < QUEUES ==> PointsSettled([], start, turn)
    requires var log := PipelineLog(m, su, start).0;
             AllLocal(log, effects) && Schedule(log, order) && Complete(order, |log|)
    ensures InTurn(effects, order, memory) == InTurn(effects, Creation(|effects|), memory)
  {
    hide PipelineLog, PointsSettled, Pipelined, Ordered, Tied, CompletesInOrder, Local, On, Schedule, InTurn;
    var log := PipelineLog(m, su, start).0;
    forall p
      ensures CompletesInOrder(log, order, p)
    {
      OrderedEverywhere(m, su, start, p);
      OrderedKeeps(log, p, order);
    }
    AsCreated(log, effects, order, memory);
  }

  // ---------- the pipelines as they are written ----------

  /** Labelling, mass update and centroid update. */
  const THREE_STAGES: seq<set<Buffer>> := [{Centroids}, {Masses}, {Sums}]

  /** All at once. */
  const ONE_STAGE: seq<set<Buffer>> := [{Centroids, Masses, Sums}]

  /** The host has a queue of its own, and no event of it is in a wait list. */
  function AsWritten(functions: nat): Tie {
    Tie(2, seq(functions, r => {}))
  }

  /** As they are written, neither of the pipelines is tied. */
  lemma NotTiedAsWritten(m: nat)
    requires m > 0
    ensures !Tied(AsWritten(3), THREE_STAGES, m) && !Tied(AsWritten(1), ONE_STAGE, m)
  {
    assert Masses in THREE_STAGES[1] && !Awaited(AsWritten(3), 1, Masses);
    assert Masses in ONE_STAGE[0] && !Awaited(AsWritten(1), 0, Masses);
  }

  /** It is enough that the labelling waits for the sums' being cleared. */
  lemma OneEventTies(host_queue: nat, m: nat)
    ensures Tied(Tie(host_queue, [{Sums}, {}, {}]), THREE_STAGES, m) && Tied(Tie(host_queue, [{Sums}]), ONE_STAGE, m)
  {
    forall r, b | 0 <= r < 3 && b in THREE_STAGES[r]
      ensures Awaited(Tie(host_queue, [{Sums}, {}, {}]), r, b)
    {
      assert Sums in [{Sums}, {}, {}][0] && Rank(Sums) >= Rank(b);
    }
    forall b | b in ONE_STAGE[0]
      ensures Awaited(Tie(host_queue, [{Sums}]), 0, b)
    {
      assert Sums in [{Sums}][0] && Rank(Sums) >= Rank(b);
    }
  }
}
