/** The staging buffers of the slots: the copy tasks and transfers that work on one complete in the order in which they
    were created if the object is written back before its slot is filled again, or if another object is fetched after
    it. */
module StagingBuffers {
  import opened BufferCache
  import opened Commands
  import opened Schedules

  // ---------- one staging buffer ----------

  /** Everything that works on the staging buffer of slot s leads to command h. */
  ghost predicate LedTo(log: seq<Command>, s: nat, h: nat) {
    h < |log| && forall i :: 0 <= i < |log| && On(log[i], Staging(s)) ==> Leads(log, i, h)
  }

  ghost predicate Untouched(log: seq<Command>, s: nat) {
    forall i :: 0 <= i < |log| ==> !On(log[i], Staging(s))
  }

  /** A command that does not work on a staging buffer changes nothing there. */
  lemma OthersStay(log: seq<Command>, c: Command, s: nat)
    requires !On(c, Staging(s))
    ensures Ordered(log, Staging(s)) ==> Ordered(log + [c], Staging(s))
    ensures forall h :: LedTo(log, s, h) ==> LedTo(log + [c], s, h)
    ensures Untouched(log, s) ==> Untouched(log + [c], s)
  {
    forall i: nat, j: nat | j < |log| && Leads(log, i, j)
      ensures Leads(log + [c], i, j)
    {
      LeadsGrows(log, log + [c], i, j);
    }
  }

  /** A command that needs one that all work on a staging buffer leads to comes after all of it. */
  lemma NextInOrder(log: seq<Command>, c: Command, s: nat, h: nat)
    requires LedTo(log, s, h) && Needs(log + [c], |log|, h)
    ensures Ordered(log, Staging(s)) ==> Ordered(log + [c], Staging(s))
    ensures LedTo(log + [c], s, |log|)
  {
    forall i: nat, j: nat | j < |log| && Leads(log, i, j)
      ensures Leads(log + [c], i, j)
    {
      LeadsGrows(log, log + [c], i, j);
    }
    forall i | 0 <= i < |log| && On(log[i], Staging(s))
      ensures Leads(log + [c], i, |log|)
    {
      assert Leads(log + [c], i, h);
    }
  }

  /** The first to work on a staging buffer has nothing to wait for. */
  lemma FirstInOrder(log: seq<Command>, c: Command, s: nat)
    requires Untouched(log, s)
    ensures Ordered(log + [c], Staging(s)) && LedTo(log + [c], s, |log|)
  {
    assert Leads(log + [c], |log|, |log|);
  }

  /** A transfer to slot s is what everything on its staging buffer leads to. */
  ghost predicate EndsInTransfer(log: seq<Command>, s: nat) {
    exists h: nat :: LedTo(log, s, h) && log[h].kind.ToDevice? && log[h].queue == s % QUEUES
  }

  /** The staging buffer of a slot that is written back before it is filled again. */
  ghost predicate Settled(log: seq<Command>, held: map<nat, nat>, s: nat) {
    Ordered(log, Staging(s)) && (if s in held then Untouched(log, s) || EndsInTransfer(log, s) else Untouched(log, s))
  }

  ghost predicate IsWrittenBack(s: nat, modes: seq<ObjectMode>) {
    s / QUEUES + 1 < |modes| && modes[s / QUEUES + 1] == ReadWrite
  }

  /** What is known of the staging buffer of slot t stays so after more commands. */
  ghost predicate StaysAt(log: seq<Command>, after: seq<Command>, t: nat) {
    && log <= after
    && (Ordered(log, Staging(t)) ==> Ordered(after, Staging(t)))
    && (forall h: nat :: LedTo(log, t, h) ==> LedTo(after, t, h))
    && (Untouched(log, t) ==> Untouched(after, t))
  }

  /** All slots but one stay as they are. */
  ghost predicate SameBeside(log: seq<Command>, after: seq<Command>, s: nat) {
    forall t: nat :: t != s ==> StaysAt(log, after, t)
  }

  lemma OneBeside(log: seq<Command>, c: Command, s: nat)
    requires c.slots <= {s}
    ensures SameBeside(log, log + [c], s)
  {
    forall t: nat | t != s
      ensures StaysAt(log, log + [c], t)
    {
      OthersStay(log, c, t);
    }
  }

  lemma BesideTwice(log: seq<Command>, middle: seq<Command>, after: seq<Command>, s: nat)
    requires SameBeside(log, middle, s) && SameBeside(middle, after, s)
    ensures SameBeside(log, after, s)
  {
    hide Ordered, LedTo, Untouched;
    forall t: nat | t != s
      ensures StaysAt(log, after, t)
    {
      assert StaysAt(log, middle, t) && StaysAt(middle, after, t);
    }
  }

  lemma SameAsIs(log: seq<Command>, s: nat)
    ensures SameBeside(log, log, s)
  {
  }

  lemma TwoBeside(log: seq<Command>, c: Command, d: Command, s: nat)
    requires c.slots <= {s} && d.slots <= {s}
    ensures SameBeside(log, log + [c, d], s)
  {
    hide SameBeside;
    OneBeside(log, c, s);
    OneBeside(log + [c], d, s);
    assert log + [c, d] == log + [c] + [d];
    BesideTwice(log, log + [c], log + [c, d], s);
  }

  /** Reading back comes after everything that leads to something on the queue, and before what waits for its
      barrier. */
  lemma ReadBackInOrder(log: seq<Command>, queue: nat, waits: set<nat>, s: nat, chunk: nat)
    requires Ordered(log, Staging(s)) && (Untouched(log, s) || EndsInTransfer(log, s)) && queue == s % QUEUES
    ensures var after := log + ReadBack(|log|, queue, waits, s, chunk);
            Ordered(after, Staging(s)) && LedTo(after, s, |log| + 2)
  {
    hide Ordered, LedTo, Untouched, SameBeside;
    var back := ReadBack(|log|, queue, waits, s, chunk);
    var one, two := log + [back[0]], log + [back[0]] + [back[1]];
    assert log + back == two + [back[2]];
    if Untouched(log, s) {
      FirstInOrder(log, back[0], s);
    } else {
      var h := HeadOf(log, s);
      NextInOrder(log, back[0], s, h);
    }
    NextInOrder(one, back[1], s, |log|);
    NextInOrder(two, back[2], s, |log| + 1);
  }

  lemma HeadOf(log: seq<Command>, s: nat) returns (h: nat)
    requires EndsInTransfer(log, s)
    ensures LedTo(log, s, h) && h < |log| && log[h].kind.ToDevice? && log[h].queue == s % QUEUES
  {
    h :| LedTo(log, s, h) && log[h].kind.ToDevice? && log[h].queue == s % QUEUES;
  }

  /** Command h is waited for, or ahead on the I/O thread. */
  ghost predicate BeforeTask(log: seq<Command>, waits: set<nat>, queue: nat, h: nat) {
    h in waits || (h < |log| && log[h].kind.CopyTask? && log[h].queue == queue)
  }

  /** Filling comes after everything that leads to an event it waits for, or to a task ahead of its own. */
  lemma FillInOrder(log: seq<Command>, queue: nat, waits: set<nat>, s: nat, chunk: nat)
    requires Ordered(log, Staging(s)) && queue == s % QUEUES
    requires Untouched(log, s) || exists h: nat :: BeforeTask(log, waits, queue, h) && LedTo(log, s, h)
    ensures var after := log + Fill(|log|, queue, waits, s, chunk);
            Ordered(after, Staging(s)) && EndsInTransfer(after, s) && LedTo(after, s, |log| + 1)
  {
    hide Ordered, LedTo, Untouched, SameBeside;
    var fill := Fill(|log|, queue, waits, s, chunk);
    var one := log + [fill[0]];
    assert log + fill == one + [fill[1]];
    if Untouched(log, s) {
      FirstInOrder(log, fill[0], s);
    } else {
      var h: nat :| BeforeTask(log, waits, queue, h) && LedTo(log, s, h);
      NextInOrder(log, fill[0], s, h);
    }
    NextInOrder(one, fill[1], s, |log|);
    assert LedTo(log + fill, s, |log| + 1);
  }

  /** A slot that is written back before it is filled stays in order, whatever getting the chunk waits for. */
  lemma FetchInOrder(log: seq<Command>, waits: set<nat>, s: nat, chunk: nat, held: map<nat, nat>)
    requires s % QUEUES == chunk % QUEUES && Settled(log, held, s)
    ensures var after := log + Fetch(|log|, waits, s, chunk, held, ReadWrite);
            Settled(after, held[s := chunk], s)
  {
    hide Ordered, LedTo, Untouched, EndsInTransfer, SameBeside;
    var at, queue := |log|, chunk % QUEUES;
    var fetch := Fetch(at, waits, s, chunk, held, ReadWrite);
    if fetch == [] {
      assert log + fetch == log && held[s := chunk] == held;
    } else if s in held {
      var back := ReadBack(at, queue, waits, s, held[s]);
      ReadBackInOrder(log, queue, waits, s, held[s]);
      assert BeforeTask(log + back, waits + {at + 2}, queue, at + 2);
      FillInOrder(log + back, queue, waits + {at + 2}, s, chunk);
      assert log + fetch == log + back + Fill(at + 3, queue, waits + {at + 2}, s, chunk);
    } else {
      FillInOrder(log, queue, waits, s, chunk);
    }
  }

  lemma FetchBeside(log: seq<Command>, waits: set<nat>, s: nat, chunk: nat, held: map<nat, nat>, mode: ObjectMode)
    ensures SameBeside(log, log + Fetch(|log|, waits, s, chunk, held, mode), s)
  {
    hide SameBeside;
    var fetch := Fetch(|log|, waits, s, chunk, held, mode);
    if fetch == [] {
      assert log + fetch == log;
      SameAsIs(log, s);
    } else if |fetch| == 2 {
      TwoBeside(log, fetch[0], fetch[1], s);
    } else {
      var one, three := log + [fetch[0], fetch[1]], log + [fetch[0], fetch[1]] + [fetch[2]];
      TwoBeside(log, fetch[0], fetch[1], s);
      OneBeside(one, fetch[2], s);
      TwoBeside(three, fetch[3], fetch[4], s);
      BesideTwice(log, one, three, s);
      assert log + fetch == three + [fetch[3], fetch[4]];
      BesideTwice(log, three, log + fetch, s);
    }
  }

  lemma SettledBeside(log: seq<Command>, after: seq<Command>, held: map<nat, nat>, s: nat, chunk: nat, t: nat)
    requires SameBeside(log, after, s) && t != s && Settled(log, held, t)
    ensures Settled(after, held[s := chunk], t)
  {
    hide Ordered, Untouched, LedTo;
    assert StaysAt(log, after, t);
    if !Untouched(log, t) {
      var h := HeadOf(log, t);
      assert LedTo(after, t, h);
    }
  }

  lemma FetchSettles(log: seq<Command>, waits: set<nat>, s: nat, chunk: nat, held: map<nat, nat>,
                     modes: seq<ObjectMode>, oid: nat)
    requires 1 <= oid < |modes| && s == SlotOf(oid, chunk)
    requires forall t: nat :: IsWrittenBack(t, modes) ==> Settled(log, held, t)
    ensures var after := log + Fetch(|log|, waits, s, chunk, held, modes[oid]);
            forall t: nat :: IsWrittenBack(t, modes) ==> Settled(after, held[s := chunk], t)
  {
    hide Settled, SameBeside, Fetch;
    var after := log + Fetch(|log|, waits, s, chunk, held, modes[oid]);
    FetchBeside(log, waits, s, chunk, held, modes[oid]);
    if modes[oid] == ReadWrite {
      FetchInOrder(log, waits, s, chunk, held);
    }
    forall t: nat | IsWrittenBack(t, modes)
      ensures Settled(after, held[s := chunk], t)
    {
      if t != s {
        SettledBeside(log, after, held, s, chunk, t);
      }
    }
  }

  // ---------- objects that are written back ----------

  /** All staging buffers of objects that are written back are settled. */
  ghost predicate AllSettled(log: seq<Command>, held: map<nat, nat>, modes: seq<ObjectMode>) {
    forall s: nat :: IsWrittenBack(s, modes) ==> Settled(log, held, s)
  }

  lemma LockOneSettles(m: Making, oid: nat, chunk: nat, modes: seq<ObjectMode>)
    requires 1 <= oid < |modes| && AllSettled(m.log, m.held, modes)
    ensures var a := LockOne(m, oid, chunk, modes); AllSettled(a.log, a.held, modes)
  {
    hide Settled, Fetch;
    if oid !in m.active {
      FetchSettles(m.log, m.waits, SlotOf(oid, chunk), chunk, m.held, modes, oid);
    }
  }

  lemma {:induction false} ActivateFirstSettles(m: Making, uses: seq<seq<nat>>, r: nat, chunk: nat,
                                                modes: seq<ObjectMode>)
    requires GoodUses(uses, modes) && r <= |uses| && AllSettled(m.log, m.held, modes)
    ensures var a := ActivateFirst(m, uses, r, chunk, modes); AllSettled(a.log, a.held, modes)
  {
    hide AllSettled, LockOne;
    if r > 0 {
      ActivateFirstSettles(m, uses, r - 1, chunk, modes);
      var before, objects := ActivateFirst(m, uses, r - 1, chunk, modes), uses[r - 1];
      if |objects| == 1 {
        LockOneSettles(before, objects[0], chunk, modes);
      } else {
        LockOneSettles(before.(event := NONE), objects[0], chunk, modes);
        var fst := LockOne(before.(event := NONE), objects[0], chunk, modes);
        LockOneSettles(fst.(event := before.event, waits := WaitList(fst.event)), objects[1], chunk, modes);
      }
    }
  }

  lemma KernelsSettle(log: seq<Command>, held: map<nat, nat>, at: nat, waits: set<nat>, uses: seq<seq<nat>>, chunk: nat,
                      modes: seq<ObjectMode>)
    requires GoodUses(uses, modes) && AllSettled(log, held, modes)
    ensures AllSettled(log + KernelsOf(at, waits, uses, |uses|, chunk), held, modes)
  {
    hide Ordered, LedTo, Untouched, KernelsOf;
    var after := log + KernelsOf(at, waits, uses, |uses|, chunk);
    forall s: nat | IsWrittenBack(s, modes)
      ensures Settled(after, held, s)
    {
      assert Settled(log, held, s);
      KernelsStay(log, at, waits, uses, |uses|, chunk, s);
      if !Untouched(log, s) {
        var h := HeadOf(log, s);
        assert LedTo(after, s, h);
      }
    }
  }

  /** In every run the staging buffers of objects that are written back are in order. */
  lemma {:induction false} WrittenBackInOrder(n: nat, uses: seq<seq<nat>>, modes: seq<ObjectMode>, start: map<nat, nat>)
    requires GoodUses(uses, modes)
    ensures var r := RunLog(n, uses, modes, start); AllSettled(r.0, r.1, modes)
  {
    hide Settled, ActivateFirst, KernelsOf;
    if n == 0 {
      NothingToSettle(start, modes);
    } else {
      WrittenBackInOrder(n - 1, uses, modes, start);
      SettledByRound(RunLog(n - 1, uses, modes, start), uses, n - 1, modes);
    }
  }

  lemma NothingToSettle(start: map<nat, nat>, modes: seq<ObjectMode>)
    ensures AllSettled([], start, modes)
  {
  }

  lemma SettledByRound(before: (seq<Command>, map<nat, nat>), uses: seq<seq<nat>>, chunk: nat, modes: seq<ObjectMode>)
    requires GoodUses(uses, modes) && AllSettled(before.0, before.1, modes)
    ensures var r := Round(before, uses, chunk, modes); AllSettled(r.0, r.1, modes)
  {
    hide AllSettled, ActivateFirst, KernelsOf;
    var m := Making(before.0, before.1, {}, NONE, {});
    var a := ActivateFirst(m, uses, |uses|, chunk, modes);
    ActivateFirstSettles(m, uses, |uses|, chunk, modes);
    KernelsSettle(a.log, a.held, |a.log|, a.waits + WaitList(|before.0| - 1), uses, chunk, modes);
  }

  // ---------- staging buffers of objects that are only read ----------

  const POINTS := 1

  const LABELS := 2

  /** The functions of a pipeline: points that are only read and labels that are written, and the first function works
      on both. */
  ghost predicate Pipelined(uses: seq<seq<nat>>, modes: seq<ObjectMode>) {
    && GoodUses(uses, modes) && |modes| == 3 && modes[POINTS] == ReadOnly && modes[LABELS] == ReadWrite
    && uses[0] == [POINTS, LABELS] && forall r, l :: 0 <= r < |uses| && 0 <= l < |uses[r]| ==> uses[r][l] <= LABELS
  }

  /** A task on the I/O thread whose turn it is is what everything on a staging buffer leads to. */
  ghost predicate EndsInTask(log: seq<Command>, s: nat) {
    exists h: nat :: LedTo(log, s, h) && log[h].kind.CopyTask? && log[h].queue == s % QUEUES
  }

  /** The slots of points and labels with this turn hold the same chunk, and the staging buffer of the points is in
      order, also with the tasks to come. */
  ghost predicate PointsSettled(log: seq<Command>, held: map<nat, nat>, turn: nat)
    requires turn < QUEUES
  {
    var s, t := SlotOf(POINTS, turn), SlotOf(LABELS, turn);
    && Ordered(log, Staging(s)) && (s in held <==> t in held) && (s in held ==> held[s] == held[t])
    && (Untouched(log, s) || EndsInTask(log, s))
  }

  lemma TaskOf(log: seq<Command>, s: nat) returns (h: nat)
    requires EndsInTask(log, s)
    ensures LedTo(log, s, h) && h < |log| && log[h].kind.CopyTask? && log[h].queue == s % QUEUES
  {
    h :| LedTo(log, s, h) && log[h].kind.CopyTask? && log[h].queue == s % QUEUES;
  }

  lemma TaskStays(log: seq<Command>, after: seq<Command>, s: nat)
    requires StaysAt(log, after, s) && (Untouched(log, s) || EndsInTask(log, s))
    ensures Untouched(after, s) || EndsInTask(after, s)
  {
    hide Ordered, LedTo, Untouched;
    if !Untouched(log, s) {
      var h := TaskOf(log, s);
      assert LedTo(after, s, h);
    }
  }

  /** A chunk of another object that is got after an event has a task that comes after it. */
  lemma TaskAfter(log: seq<Command>, waits: set<nat>, t: nat, chunk: nat, held: map<nat, nat>, s: nat, h: nat)
    requires s != t && s % QUEUES == chunk % QUEUES && Ordered(log, Staging(s)) && LedTo(log, s, h) && h in waits
    requires !(t in held && held[t] == chunk)
    ensures var after := log + Fetch(|log|, waits, t, chunk, held, ReadWrite);
            Ordered(after, Staging(s)) && EndsInTask(after, s)
  {
    hide Ordered, LedTo, Untouched;
    var fetch := Fetch(|log|, waits, t, chunk, held, ReadWrite);
    var before := log + fetch[..|fetch| - 2];
    var task := fetch[|fetch| - 2];
    assert log + fetch == before + [task] + [fetch[|fetch| - 1]];
    if |fetch| == 2 {
      assert before == log;
    } else {
      TwoBeside(log, fetch[0], fetch[1], t);
      OneBeside(log + [fetch[0], fetch[1]], fetch[2], t);
      assert before == log + [fetch[0], fetch[1]] + [fetch[2]];
      assert StaysAt(log, log + [fetch[0], fetch[1]], s) && StaysAt(log + [fetch[0], fetch[1]], before, s);
    }
    NextInOrder(before, task, s, h);
    OthersStay(before + [task], fetch[|fetch| - 1], s);
    assert LedTo(log + fetch, s, |before|);
  }

  /** Locking a chunk of points and of labels keeps the points settled. */
  lemma PointsFetched(m: Making, chunk: nat, modes: seq<ObjectMode>, turn: nat)
    requires |modes| > 2 && modes[POINTS] == ReadOnly && modes[LABELS] == ReadWrite
    requires m.active == {} && m.waits == {} && turn < QUEUES && PointsSettled(m.log, m.held, turn)
    ensures var a := Activate(m, [POINTS, LABELS], chunk, modes);
            a.active == {POINTS, LABELS} && PointsSettled(a.log, a.held, turn)
  {
    hide Ordered, LedTo, Untouched, Fetch;
    var s, t := SlotOf(POINTS, chunk), SlotOf(LABELS, chunk);
    var fst := LockOne(m.(event := NONE), POINTS, chunk, modes);
    var waits := WaitList(fst.event);
    var a := Activate(m, [POINTS, LABELS], chunk, modes);
    assert a.log == fst.log + Fetch(|fst.log|, waits, t, chunk, fst.held, ReadWrite);
    FetchBeside(m.log, {}, s, chunk, m.held, ReadOnly);
    FetchBeside(fst.log, waits, t, chunk, fst.held, ReadWrite);
    if turn != chunk % QUEUES {
      var u := SlotOf(POINTS, turn);
      assert StaysAt(m.log, fst.log, u) && StaysAt(fst.log, a.log, u);
      TaskStays(m.log, fst.log, u);
      TaskStays(fst.log, a.log, u);
    } else if s in m.held && m.held[s] == chunk {
      assert a.log == m.log by {
        NothingToFetch(m.log, {}, s, chunk, m.held, ReadOnly);
        NothingToFetch(fst.log, waits, t, chunk, fst.held, ReadWrite);
      }
    } else {
      FirstPoints(m, chunk, s);
      TaskAfter(fst.log, waits, t, chunk, fst.held, s, |m.log| + 1);
    }
  }

  lemma NothingToFetch(log: seq<Command>, waits: set<nat>, s: nat, chunk: nat, held: map<nat, nat>, mode: ObjectMode)
    requires s in held && held[s] == chunk
    ensures log + Fetch(|log|, waits, s, chunk, held, mode) == log
  {
  }

  lemma FirstPoints(m: Making, chunk: nat, s: nat)
    requires s % QUEUES == chunk % QUEUES && !(s in m.held && m.held[s] == chunk)
    requires Ordered(m.log, Staging(s)) && (Untouched(m.log, s) || EndsInTask(m.log, s))
    ensures var log := m.log + Fetch(|m.log|, {}, s, chunk, m.held, ReadOnly);
            |log| == |m.log| + 2 && Ordered(log, Staging(s)) && LedTo(log, s, |m.log| + 1)
  {
    hide Ordered, LedTo, Untouched;
    if !Untouched(m.log, s) {
      var h := TaskOf(m.log, s);
      assert BeforeTask(m.log, {}, chunk % QUEUES, h);
    }
    FillInOrder(m.log, chunk % QUEUES, {}, s, chunk);
  }

  /** Objects that are active need nothing. */
  lemma NothingToActivate(m: Making, objects: seq<nat>, chunk: nat, modes: seq<ObjectMode>)
    requires 1 <= |objects| <= 2
    requires forall l :: 0 <= l < |objects| ==> 1 <= objects[l] < |modes| && objects[l] in m.active
    ensures var a := Activate(m, objects, chunk, modes);
            a.log == m.log && a.held == m.held && a.active == m.active && a.event == m.event
  {
    hide Fetch;
  }

  lemma FirstActivates(m: Making, chunk: nat, modes: seq<ObjectMode>)
    requires |modes| > 2
    ensures POINTS in Activate(m, [POINTS, LABELS], chunk, modes).active
    ensures LABELS in Activate(m, [POINTS, LABELS], chunk, modes).active
  {
    hide Fetch;
  }

  /** The functions after the first one find everything active. */
  lemma {:induction false} FirstActivatesAll(m: Making, uses: seq<seq<nat>>, r: nat, chunk: nat, modes: seq<ObjectMode>)
    requires Pipelined(uses, modes) && 1 <= r <= |uses| && m.active == {}
    ensures var a, b := Activate(m, uses[0], chunk, modes), ActivateFirst(m, uses, r, chunk, modes);
            && b.log == a.log && b.held == a.held && b.active == a.active && b.event == a.event
            && b.waits == if a.event == NONE then m.waits else WaitList(a.event)
  {
    hide Activate;
    if r > 1 {
      FirstActivatesAll(m, uses, r - 1, chunk, modes);
      FirstActivates(m, chunk, modes);
      NothingToActivate(ActivateFirst(m, uses, r - 1, chunk, modes), uses[r - 1], chunk, modes);
    } else {
      assert ActivateFirst(m, uses, 0, chunk, modes) == m;
    }
  }

  lemma {:induction false} KernelsStay(log: seq<Command>, at: nat, waits: set<nat>, uses: seq<seq<nat>>, r: nat,
                                       chunk: nat, s: nat)
    requires r <= |uses| && forall q, l :: 0 <= q < |uses| && 0 <= l < |uses[q]| ==> uses[q][l] > 0
    ensures StaysAt(log, log + KernelsOf(at, waits, uses, r, chunk), s)
  {
    hide Ordered, LedTo, Untouched;
    var kernels := KernelsOf(at, waits, uses, r, chunk);
    if r == 0 {
      assert log + kernels == log;
    } else {
      KernelsStay(log, at, waits, uses, r - 1, chunk, s);
      var before := log + KernelsOf(at, waits, uses, r - 1, chunk);
      assert log + kernels == before + [kernels[r - 1]];
      OthersStay(before, kernels[r - 1], s);
    }
  }

  /** In a run of a pipeline the staging buffers of the points are in order, too: the task that brings the labels of a
      chunk waits for the transfer of its points, and the tasks of later chunks queue up behind it. */
  lemma {:induction false} PointsStayInOrder(n: nat, uses: seq<seq<nat>>, modes: seq<ObjectMode>, start: map<nat, nat>,
                                             turn: nat)
    requires Pipelined(uses, modes) && turn < QUEUES && PointsSettled([], start, turn)
    ensures var r := RunLog(n, uses, modes, start); PointsSettled(r.0, r.1, turn)
  {
    hide PointsSettled, Round;
    if n > 0 {
      PointsStayInOrder(n - 1, uses, modes, start, turn);
      PointsOfRound(RunLog(n - 1, uses, modes, start), uses, n - 1, modes, turn);
    }
  }

  lemma PointsOfRound(before: (seq<Command>, map<nat, nat>), uses: seq<seq<nat>>, chunk: nat, modes: seq<ObjectMode>,
                      turn: nat)
    requires Pipelined(uses, modes) && turn < QUEUES && PointsSettled(before.0, before.1, turn)
    ensures var r := Round(before, uses, chunk, modes); PointsSettled(r.0, r.1, turn)
  {
    hide PointsSettled, ActivateFirst, KernelsOf, Activate;
    var m := Making(before.0, before.1, {}, NONE, {});
    var a := ActivateFirst(m, uses, |uses|, chunk, modes);
    PointsFetched(m, chunk, modes, turn);
    FirstActivatesAll(m, uses, |uses|, chunk, modes);
    SettledWithKernels(a.log, a.held, turn, |a.log|, a.waits + WaitList(|before.0| - 1), uses, chunk);
  }

  lemma SettledWithKernels(log: seq<Command>, held: map<nat, nat>, turn: nat, at: nat, waits: set<nat>,
                           uses: seq<seq<nat>>, chunk: nat)
    requires turn < QUEUES && PointsSettled(log, held, turn)
    requires forall q, l :: 0 <= q < |uses| && 0 <= l < |uses[q]| ==> uses[q][l] > 0
    ensures PointsSettled(log + KernelsOf(at, waits, uses, |uses|, chunk), held, turn)
  {
    hide Ordered, LedTo, Untouched, KernelsOf;
    var s := SlotOf(POINTS, turn);
    KernelsStay(log, at, waits, uses, |uses|, chunk, s);
    TaskStays(log, log + KernelsOf(at, waits, uses, |uses|, chunk), s);
  }

  // ---------- what kernels wait for ----------

  /** Every kernel waits for what was created right before it. */
  ghost predicate KernelsWait(log: seq<Command>) {
    forall i: nat :: 0 < i < |log| && log[i].kind.Kernel? ==> i - 1 in log[i].waits
  }

  /** What the first function of a pipeline activates ends in an event, if it creates anything. */
  lemma LastEvent(m: Making, chunk: nat, modes: seq<ObjectMode>)
    requires |modes| > 2 && modes[POINTS] == ReadOnly && modes[LABELS] == ReadWrite
    requires m.active == {} && m.event == NONE && PointsSettled(m.log, m.held, chunk % QUEUES)
    ensures var a := Activate(m, [POINTS, LABELS], chunk, modes);
            && (a.log == m.log ==> a.event == NONE) && (a.log != m.log ==> a.event == |a.log| - 1)
            && forall i: nat :: |m.log| <= i < |a.log| ==> !a.log[i].kind.Kernel?
  {
    hide Ordered, LedTo, Untouched;
    var s, t := SlotOf(POINTS, chunk), SlotOf(LABELS, chunk);
    var fst := LockOne(m.(event := NONE), POINTS, chunk, modes);
    if s in m.held && m.held[s] == chunk {
      NothingToFetch(m.log, m.waits, s, chunk, m.held, ReadOnly);
      NothingToFetch(fst.log, WaitList(fst.event), t, chunk, fst.held, ReadWrite);
    }
  }

  lemma {:induction false} KernelsWaitOn(log: seq<Command>, waits: set<nat>, uses: seq<seq<nat>>, r: nat, chunk: nat)
    requires r <= |uses| && forall q, l :: 0 <= q < |uses| && 0 <= l < |uses[q]| ==> uses[q][l] > 0
    requires KernelsWait(log) && (|log| > 0 ==> |log| - 1 in waits)
    ensures KernelsWait(log + KernelsOf(|log|, waits, uses, r, chunk))
  {
    hide SlotsOf;
    var ks := KernelsOf(|log|, waits, uses, r, chunk);
    if r == 0 {
      assert log + ks == log;
    } else {
      KernelsWaitOn(log, waits, uses, r - 1, chunk);
      assert log + ks == log + KernelsOf(|log|, waits, uses, r - 1, chunk) + [ks[r - 1]];
    }
  }

  /** In every run of a pipeline each kernel waits for what was created right before it: the transfer of the labels of
      its chunk, or the kernel before. */
  lemma {:induction false} PipelineKernelsWait(n: nat, uses: seq<seq<nat>>, modes: seq<ObjectMode>,
                                               start: map<nat, nat>)
    requires Pipelined(uses, modes) && forall turn: nat :: turn < QUEUES ==> PointsSettled([], start, turn)
    ensures KernelsWait(RunLog(n, uses, modes, start).0)
  {
    hide PointsSettled, ActivateFirst, KernelsOf, Activate, KernelsWait;
    if n == 0 {
      NothingWaits();
    } else {
      PipelineKernelsWait(n - 1, uses, modes, start);
      var before, chunk := RunLog(n - 1, uses, modes, start), n - 1;
      PointsStayInOrder(n - 1, uses, modes, start, chunk % QUEUES);
      var m := Making(before.0, before.1, {}, NONE, {});
      var a := ActivateFirst(m, uses, |uses|, chunk, modes);
      LastEvent(m, chunk, modes);
      FirstActivatesAll(m, uses, |uses|, chunk, modes);
      StillWaiting(before.0, a.log);
      KernelsWaitOn(a.log, a.waits + WaitList(|before.0| - 1), uses, |uses|, chunk);
    }
  }

  lemma NothingWaits()
    ensures KernelsWait([])
  {
  }

  lemma StillWaiting(log: seq<Command>, after: seq<Command>)
    requires log <= after && KernelsWait(log)
    requires forall i: nat :: |log| <= i < |after| ==> !after[i].kind.Kernel?
    ensures KernelsWait(after)
  {
  }

  /** Nothing is cached at first, and what one run of a pipeline leaves in the slots suits the next one. */
  lemma NextRunIsSettled(n: nat, uses: seq<seq<nat>>, modes: seq<ObjectMode>, start: map<nat, nat>, turn: nat)
    requires Pipelined(uses, modes) && turn < QUEUES
    ensures PointsSettled([], map[], turn)
    ensures PointsSettled([], start, turn) ==> PointsSettled([], RunLog(n, uses, modes, start).1, turn)
  {
    hide Ordered, Untouched, RunLog;
    NothingTouches(SlotOf(POINTS, turn));
    if PointsSettled([], start, turn) {
      PointsStayInOrder(n, uses, modes, start, turn);
    }
  }

  lemma NothingTouches(s: nat)
    ensures Untouched([], s) && Ordered([], Staging(s))
  {
  }

  /** In every run of a pipeline, whatever the schedule, all staging buffers complete their work in the order of
      creation. */
  lemma PipelineAlwaysInOrder(n: nat, uses: seq<seq<nat>>, modes: seq<ObjectMode>, start: map<nat, nat>)
    requires Pipelined(uses, modes) && forall turn: nat :: turn < QUEUES ==> PointsSettled([], start, turn)
    ensures forall s: nat :: s <= SlotOf(LABELS, 1) ==> AlwaysInOrder(RunLog(n, uses, modes, start).0, Staging(s))
  {
    hide Ordered, RunLog, LedTo, Untouched, AlwaysInOrder;
    var r := RunLog(n, uses, modes, start);
    WrittenBackInOrder(n, uses, modes, start);
    forall s: nat | s <= SlotOf(LABELS, 1)
      ensures AlwaysInOrder(r.0, Staging(s))
    {
      if s < QUEUES {
        PointsStayInOrder(n, uses, modes, start, s);
      } else {
        assert IsWrittenBack(s, modes);
      }
      OrderedAlways(r.0, Staging(s));
    }
  }

  // ---------- a function of one object ----------

  /** One round of a function of one object that is only read and not cached: a task, a transfer and a kernel. */
  function RoundOfOne(at: nat, chunk: nat): seq<Command> {
    var queue := chunk % QUEUES;
    [Command(CopyTask(chunk, false), queue, {}, {queue}, {}), Command(ToDevice(chunk), queue, {at}, {queue}, {}),
     Command(Kernel(chunk, 0), queue, WaitList(at + 1) + WaitList(at - 1), {queue}, {})]
  }

  /** The log of a function of one object of this mode, with nothing cached at the start. */
  function LogOfOne(n: nat, mode: ObjectMode): seq<Command> {
    RunLog(n, [[POINTS]], [ReadOnly, mode], map[]).0
  }

  lemma OneRound(before: (seq<Command>, map<nat, nat>), chunk: nat, mode: ObjectMode)
    requires mode != ReadWrite && !(chunk % QUEUES in before.1 && before.1[chunk % QUEUES] == chunk)
    ensures var r := Round(before, [[POINTS]], chunk, [ReadOnly, mode]);
            && r.1 == before.1[chunk % QUEUES := chunk]
            && if mode == ReadOnly then r.0 == before.0 + RoundOfOne(|before.0|, chunk)
               else r.0 == before.0 + KernelsOf(|before.0|, WaitList(|before.0| - 1), [[POINTS]], 1, chunk)
  {
    var uses, modes, s := [[POINTS]], [ReadOnly, mode], SlotOf(POINTS, chunk);
    var m := Making(before.0, before.1, {}, NONE, {});
    var a := Activate(m, uses[0], chunk, modes);
    assert ActivateFirst(m, uses, 0, chunk, modes) == m;
    assert a.held == before.1[s := chunk];
    assert SlotsOf(uses[0], chunk) == {s} by {
      assert uses[0][0] == POINTS;
    }
    if mode == ReadOnly {
      assert a.log == before.0 + Fill(|before.0|, chunk % QUEUES, {}, s, chunk);
      assert KernelsOf(|a.log|, WaitList(a.event) + WaitList(|before.0| - 1), uses, 1, chunk)
             == [RoundOfOne(|before.0|, chunk)[2]];
    } else {
      assert a.log == before.0 + [] == before.0;
      assert {} + WaitList(|before.0| - 1) == WaitList(|before.0| - 1);
    }
  }

  /** The slots hold older chunks only, so every round fetches. */
  lemma {:induction false} OlderChunks(n: nat, mode: ObjectMode, s: nat)
    requires mode != ReadWrite
    ensures var held := RunLog(n, [[POINTS]], [ReadOnly, mode], map[]).1; s in held ==> held[s] < n
  {
    hide Round;
    if n > 0 {
      OlderChunks(n - 1, mode, s);
      OlderChunks(n - 1, mode, (n - 1) % QUEUES);
      OneRound(RunLog(n - 1, [[POINTS]], [ReadOnly, mode], map[]), n - 1, mode);
    }
  }

  lemma NextOfOne(n: nat, mode: ObjectMode)
    requires n > 0 && mode != ReadWrite
    ensures var log := LogOfOne(n - 1, mode);
            if mode == ReadOnly then LogOfOne(n, mode) == log + RoundOfOne(|log|, n - 1)
            else LogOfOne(n, mode) == log + KernelsOf(|log|, WaitList(|log| - 1), [[POINTS]], 1, n - 1)
  {
    hide Round;
    OlderChunks(n - 1, mode, (n - 1) % QUEUES);
    OneRound(RunLog(n - 1, [[POINTS]], [ReadOnly, mode], map[]), n - 1, mode);
  }

  lemma {:induction false} TransientUntouched(n: nat, s: nat)
    ensures Untouched(LogOfOne(n, Transient), s)
  {
    hide Untouched, RunLog;
    if n > 0 {
      TransientUntouched(n - 1, s);
      NextOfOne(n, Transient);
      var log := LogOfOne(n - 1, Transient);
      KernelsStay(log, |log|, WaitList(|log| - 1), [[POINTS]], 1, n - 1, s);
    } else {
      assert RunLog(0, [[POINTS]], [ReadOnly, Transient], map[]).0 == [] by {
        NothingYet(Transient);
      }
      NothingTouches(s);
    }
  }

  lemma NothingYet(mode: ObjectMode)
    ensures LogOfOne(0, mode) == []
  {
  }

  /** The first two chunks go to different slots. */
  lemma TwoChunks(n: nat, s: nat)
    requires n <= 2
    ensures Ordered(LogOfOne(n, ReadOnly), Staging(s))
  {
    hide RunLog;
    NothingYet(ReadOnly);
    if n >= 1 {
      NextOfOne(1, ReadOnly);
      assert LogOfOne(1, ReadOnly) == RoundOfOne(0, 0);
    }
    if n == 2 {
      NextOfOne(2, ReadOnly);
      assert LogOfOne(2, ReadOnly) == RoundOfOne(0, 0) + RoundOfOne(3, 1);
    }
    var log := LogOfOne(n, ReadOnly);
    forall i, j | 0 <= i < j < |log| && On(log[i], Staging(s)) && On(log[j], Staging(s))
      ensures Leads(log, i, j)
    {
      assert Needs(log, j, i);
      assert Leads(log, i, i);
    }
  }

  /** The third chunk goes to the slot of the first one, and its task need not wait for the first transfer. */
  lemma {:induction false} ThirdChunk(n: nat)
    requires n >= 3
    ensures RoundOfOne(0, 0) + RoundOfOne(3, 1) + RoundOfOne(6, 2) <= LogOfOne(n, ReadOnly)
    decreases n
  {
    hide RunLog;
    NextOfOne(n, ReadOnly);
    if n == 3 {
      NothingYet(ReadOnly);
      NextOfOne(1, ReadOnly);
      NextOfOne(2, ReadOnly);
      assert LogOfOne(1, ReadOnly) == RoundOfOne(0, 0);
      assert LogOfOne(2, ReadOnly) == RoundOfOne(0, 0) + RoundOfOne(3, 1);
    } else {
      ThirdChunk(n - 1);
    }
  }

  lemma Overwritten(log: seq<Command>)
    requires RoundOfOne(0, 0) + RoundOfOne(3, 1) + RoundOfOne(6, 2) <= log
    ensures Schedule(log, [0, 6]) && !CompletesInOrder(log, [0, 6], Staging(0))
  {
    var begun, order := RoundOfOne(0, 0) + RoundOfOne(3, 1) + RoundOfOne(6, 2), [0, 6];
    assert forall i :: 0 <= i < |begun| ==> log[i] == begun[i];
    forall a, w: nat | 0 <= a < |order| && Needs(log, order[a], w)
      ensures w in order[..a]
    {
      assert w < order[a] && order[a] == 6 && log[w] == begun[w];
      assert w == 0 == order[..a][0];
    }
    assert On(log[1], Staging(0)) && On(log[6], Staging(0));
    assert order[1] == 6 && 1 !in order[..1];
  }

  /** A function of one object, nothing cached at the start: in every schedule its staging buffers do their work in
      order if and only if the object is not read only or has no more than two chunks. Otherwise the task of the third
      chunk may overwrite the first chunk before it has been transferred. */
  lemma OneObjectInOrderIff(n: nat, mode: ObjectMode)
    ensures (forall s: nat :: s < QUEUES ==> AlwaysInOrder(LogOfOne(n, mode), Staging(s))) <==>
            mode != ReadOnly || n <= 2
  {
    hide Ordered, CompletesInOrder, Schedule, RunLog, RoundOfOne;
    var log := LogOfOne(n, mode);
    if mode == ReadOnly && n > 2 {
      ThirdChunk(n);
      Overwritten(log);
      assert !AlwaysInOrder(log, Staging(0));
    } else {
      forall s: nat | s < QUEUES
        ensures AlwaysInOrder(log, Staging(s))
      {
        match mode {
          case ReadWrite =>
            WrittenBackInOrder(n, [[POINTS]], [ReadOnly, mode], map[]);
            assert IsWrittenBack(s, [ReadOnly, mode]);
          case Transient =>
            TransientUntouched(n, s);
            UntouchedInOrder(log, s);
          case ReadOnly => TwoChunks(n, s);
        }
        OrderedAlways(log, Staging(s));
      }
    }
  }

  lemma UntouchedInOrder(log: seq<Command>, s: nat)
    requires Untouched(log, s)
    ensures Ordered(log, Staging(s))
  {
  }
}
