/** From device to host and back: which chunk the copy tasks of a run are about, and what waits for them. */
module HandingOver {
  import opened BufferCache
  import opened Schedules
  import opened Commands

  /** A transfer from a slot is followed by the task that copies what was loaded there to its chunk of the host. */
  ghost predicate WritesBack(start: map<nat, nat>, log: seq<Command>, i: nat, s: nat)
    requires i < |log|
  {
    && i + 1 < |log| && log[i + 1].kind.CopyTask? && log[i + 1].kind.back && s in log[i + 1].slots
    && log[i + 1].kind.chunk == Loaded(start, log[..i], s) && i in log[i + 1].waits
  }

  /** A transfer of a chunk to slots waits for the task that copies it from the host to their staging buffers. */
  ghost predicate IsFilled(log: seq<Command>, i: nat)
    requires i < |log| && log[i].kind.ToDevice?
  {
    i > 0 && log[i - 1].kind == CopyTask(log[i].kind.chunk, false) && log[i - 1].slots == log[i].slots
    && i - 1 in log[i].waits
  }

  /** Since the last kernel, and the last transfer to it, slot s has been read back. */
  ghost predicate ReadBackBefore(log: seq<Command>, i: nat, s: nat)
    requires i <= |log|
  {
    exists w: nat :: w < i && log[w].kind.FromDevice? && s in log[w].slots
                     && forall l :: w < l < i ==> !log[l].kind.Kernel? && !log[l].kind.ToDevice?
  }

  /** What is loaded in a slot of an object that is written is written back before something else is loaded. */
  ghost predicate KeepsWritten(start: map<nat, nat>, log: seq<Command>, i: nat, modes: seq<ObjectMode>)
    requires i < |log| && log[i].kind.ToDevice?
  {
    forall s | s in log[i].slots && s / QUEUES + 1 < |modes| && modes[s / QUEUES + 1] == ReadWrite
               && Loaded(start, log[..i], s) != -1 ::
      ReadBackBefore(log, i, s)
  }

  ghost predicate HandedOn(start: map<nat, nat>, log: seq<Command>, modes: seq<ObjectMode>) {
    forall i: nat :: i < |log| ==>
      && (log[i].kind.FromDevice? ==> forall s :: s in log[i].slots ==> WritesBack(start, log, i, s))
      && (log[i].kind.ToDevice? ==> IsFilled(log, i) && KeepsWritten(start, log, i, modes))
  }

  /** What is handed on in a log goes on being so when the log goes on. */
  lemma StillHandedOn(start: map<nat, nat>, log: seq<Command>, after: seq<Command>, modes: seq<ObjectMode>, i: nat)
    requires log <= after && HandedOn(start, log, modes) && i < |log|
    ensures after[i].kind.FromDevice? ==> forall s :: s in after[i].slots ==> WritesBack(start, after, i, s)
    ensures after[i].kind.ToDevice? ==> IsFilled(after, i) && KeepsWritten(start, after, i, modes)
  {
    hide Loaded;
    assert after[..i] == log[..i] && after[i] == log[i];
    if log[i].kind.ToDevice? {
      forall s | ReadBackBefore(log, i, s)
        ensures ReadBackBefore(after, i, s)
      {
        var w: nat :| w < i && log[w].kind.FromDevice? && s in log[w].slots
                      && forall l :: w < l < i ==> !log[l].kind.Kernel? && !log[l].kind.ToDevice?;
        assert after[w] == log[w];
      }
    }
  }

  lemma FillHandsOn(start: map<nat, nat>, log: seq<Command>, queue: nat, waits: set<nat>, s: nat, chunk: nat,
                    modes: seq<ObjectMode>)
    requires HandedOn(start, log, modes) && s / QUEUES + 1 < |modes|
    requires modes[s / QUEUES + 1] == ReadWrite && Loaded(start, log, s) != -1 ==> ReadBackBefore(log, |log|, s)
    ensures HandedOn(start, log + Fill(|log|, queue, waits, s, chunk), modes)
  {
    hide Loaded;
    var after := log + Fill(|log|, queue, waits, s, chunk);
    forall i: nat | i < |after|
      ensures after[i].kind.FromDevice? ==> forall t :: t in after[i].slots ==> WritesBack(start, after, i, t)
      ensures after[i].kind.ToDevice? ==> IsFilled(after, i) && KeepsWritten(start, after, i, modes)
    {
      if i < |log| {
        StillHandedOn(start, log, after, modes, i);
      } else if i == |log| + 1 {
        assert after[..i] == log + [after[|log|]];
        LoadedGrows(start, log, after[|log|], s);
        if ReadBackBefore(log, |log|, s) {
          var w: nat :| w < |log| && log[w].kind.FromDevice? && s in log[w].slots
                        && forall l :: w < l < |log| ==> !log[l].kind.Kernel? && !log[l].kind.ToDevice?;
          assert after[w] == log[w] && forall l :: w < l < i ==> !after[l].kind.Kernel? && !after[l].kind.ToDevice?;
        }
      }
    }
  }

  lemma ReadBackHandsOn(start: map<nat, nat>, log: seq<Command>, queue: nat, waits: set<nat>, s: nat, chunk: nat,
                        modes: seq<ObjectMode>)
    requires HandedOn(start, log, modes) && Loaded(start, log, s) == chunk
    ensures var after := log + ReadBack(|log|, queue, waits, s, chunk);
            HandedOn(start, after, modes) && ReadBackBefore(after, |after|, s)
  {
    hide Loaded;
    var after := log + ReadBack(|log|, queue, waits, s, chunk);
    forall i: nat | i < |after|
      ensures after[i].kind.FromDevice? ==> forall t :: t in after[i].slots ==> WritesBack(start, after, i, t)
      ensures after[i].kind.ToDevice? ==> IsFilled(after, i) && KeepsWritten(start, after, i, modes)
    {
      if i < |log| {
        StillHandedOn(start, log, after, modes, i);
      } else if i == |log| {
        assert after[..i] == log;
      }
    }
    assert after[|log|].kind.FromDevice? && s in after[|log|].slots;
  }

  /** The slots hold what is loaded there, and nothing else is loaded anywhere. */
  ghost predicate HandsOn(start: map<nat, nat>, log: seq<Command>, held: map<nat, nat>, modes: seq<ObjectMode>) {
    && HandedOn(start, log, modes) && Holds(held, start, log, modes)
    && forall s: nat :: s !in held ==> Loaded(start, log, s) == -1
  }

  lemma FetchHandsOn(start: map<nat, nat>, log: seq<Command>, waits: set<nat>, oid: nat, chunk: nat,
                     held: map<nat, nat>, modes: seq<ObjectMode>)
    requires 1 <= oid < |modes| && HandsOn(start, log, held, modes)
    ensures var s := SlotOf(oid, chunk);
            HandsOn(start, log + Fetch(|log|, waits, s, chunk, held, modes[oid]), held[s := chunk], modes)
  {
    hide Loaded, HandedOn, ReadBackBefore, ReadBack, Fill;
    var s, queue := SlotOf(oid, chunk), chunk % QUEUES;
    var fetch := Fetch(|log|, waits, s, chunk, held, modes[oid]);
    FetchLoads(log, waits, s, chunk, held, start, modes, oid);
    NothingElse(start, log, waits, s, chunk, held, modes[oid]);
    if modes[oid] == Transient || (s in held && held[s] == chunk) {
      assert log + fetch == log;
    } else if s in held && modes[oid] == ReadWrite {
      var back := ReadBack(|log|, queue, waits, s, held[s]);
      ReadBackHandsOn(start, log, queue, waits, s, held[s], modes);
      ThreeMore(log, queue, waits, s, held[s]);
      FillHandsOn(start, log + back, queue, waits + {|log| + 2}, s, chunk, modes);
      assert log + fetch == log + back + Fill(|log| + 3, queue, waits + {|log| + 2}, s, chunk);
    } else {
      FillHandsOn(start, log, queue, waits, s, chunk, modes);
    }
  }

  lemma ThreeMore(log: seq<Command>, queue: nat, waits: set<nat>, s: nat, chunk: nat)
    ensures |log + ReadBack(|log|, queue, waits, s, chunk)| == |log| + 3
  {
  }

  /** A fetch loads nothing into other slots. */
  lemma NothingElse(start: map<nat, nat>, log: seq<Command>, waits: set<nat>, s: nat, chunk: nat, held: map<nat, nat>,
                    mode: ObjectMode)
    requires forall t: nat :: t !in held ==> Loaded(start, log, t) == -1
    ensures forall t: nat :: t !in held[s := chunk] ==>
              Loaded(start, log + Fetch(|log|, waits, s, chunk, held, mode), t) == -1
  {
    hide Loaded, ReadBack, Fill;
    var at, queue := |log|, chunk % QUEUES;
    var fetch := Fetch(at, waits, s, chunk, held, mode);
    forall t: nat | t !in held[s := chunk]
      ensures Loaded(start, log + fetch, t) == -1
    {
      if fetch == [] {
        assert log + fetch == log;
      } else if s in held && mode == ReadWrite {
        var back := ReadBack(at, queue, waits, s, held[s]);
        ReadBackLoads(start, log, at, queue, waits, s, held[s], t);
        FillLoads(start, log + back, at + 3, queue, waits + {at + 2}, s, chunk, t);
        assert log + fetch == log + back + Fill(at + 3, queue, waits + {at + 2}, s, chunk);
      } else {
        FillLoads(start, log, at, queue, waits, s, chunk, t);
      }
    }
  }

  lemma LockOneHandsOn(start: map<nat, nat>, m: Making, oid: nat, chunk: nat, modes: seq<ObjectMode>)
    requires 1 <= oid < |modes| && HandsOn(start, m.log, m.held, modes)
    ensures var r := LockOne(m, oid, chunk, modes); HandsOn(start, r.log, r.held, modes)
  {
    hide HandsOn, Fetch;
    if oid !in m.active {
      FetchHandsOn(start, m.log, m.waits, oid, chunk, m.held, modes);
    }
  }

  lemma {:induction false} ActivateFirstHandsOn(start: map<nat, nat>, m: Making, uses: seq<seq<nat>>, r: nat,
                                                chunk: nat, modes: seq<ObjectMode>)
    requires GoodUses(uses, modes) && r <= |uses| && HandsOn(start, m.log, m.held, modes)
    ensures var a := ActivateFirst(m, uses, r, chunk, modes); HandsOn(start, a.log, a.held, modes)
  {
    hide HandsOn, LockOne;
    if r > 0 {
      ActivateFirstHandsOn(start, m, uses, r - 1, chunk, modes);
      var before, objects := ActivateFirst(m, uses, r - 1, chunk, modes), uses[r - 1];
      if |objects| == 1 {
        LockOneHandsOn(start, before, objects[0], chunk, modes);
      } else {
        LockOneHandsOn(start, before.(event := NONE), objects[0], chunk, modes);
        var fst := LockOne(before.(event := NONE), objects[0], chunk, modes);
        LockOneHandsOn(start, fst.(event := before.event, waits := WaitList(fst.event)), objects[1], chunk, modes);
      }
    }
  }

  lemma {:induction false} KernelsHandOn(start: map<nat, nat>, log: seq<Command>, held: map<nat, nat>, waits: set<nat>,
                                         uses: seq<seq<nat>>, r: nat, chunk: nat, modes: seq<ObjectMode>)
    requires GoodUses(uses, modes) && r <= |uses| && HandsOn(start, log, held, modes)
    ensures HandsOn(start, log + KernelsOf(|log|, waits, uses, r, chunk), held, modes)
  {
    hide Loaded, HandedOn, Holds;
    var ks := KernelsOf(|log|, waits, uses, r, chunk);
    if r == 0 {
      assert log + ks == log;
    } else {
      KernelsHandOn(start, log, held, waits, uses, r - 1, chunk, modes);
      var before := log + KernelsOf(|log|, waits, uses, r - 1, chunk);
      assert log + ks == before + [ks[r - 1]];
      KernelKeeps(before, ks[r - 1], held, start, modes);
      KernelHandsOn(start, before, ks[r - 1], modes);
      forall s: nat | s !in held
        ensures Loaded(start, before + [ks[r - 1]], s) == -1
      {
        LoadedGrows(start, before, ks[r - 1], s);
      }
    }
  }

  lemma KernelHandsOn(start: map<nat, nat>, log: seq<Command>, c: Command, modes: seq<ObjectMode>)
    requires HandedOn(start, log, modes) && c.kind.Kernel?
    ensures HandedOn(start, log + [c], modes)
  {
    hide Loaded, WritesBack, IsFilled, KeepsWritten;
    var after := log + [c];
    forall i: nat | i < |after|
      ensures after[i].kind.FromDevice? ==> forall t :: t in after[i].slots ==> WritesBack(start, after, i, t)
      ensures after[i].kind.ToDevice? ==> IsFilled(after, i) && KeepsWritten(start, after, i, modes)
    {
      if i < |log| {
        StillHandedOn(start, log, after, modes, i);
      }
    }
  }

  /** In every run: what is transferred from a slot is copied to the chunk of the host that was loaded there; what is
      transferred to a slot has been copied from its chunk of the host; and nothing that may have been written is
      replaced in a slot before it is written back. */
  lemma {:induction false} RunHandsOn(n: nat, uses: seq<seq<nat>>, modes: seq<ObjectMode>, start: map<nat, nat>)
    requires GoodUses(uses, modes) && Turns(start)
    ensures var r := RunLog(n, uses, modes, start); HandedOn(start, r.0, modes) && HandsOn(start, r.0, r.1, modes)
  {
    hide HandedOn, ActivateFirst, KernelsOf;
    if n == 0 {
      NothingHandsOn(start, modes);
    } else {
      RunHandsOn(n - 1, uses, modes, start);
      var before := RunLog(n - 1, uses, modes, start);
      var m := Making(before.0, before.1, {}, NONE, {});
      var a := ActivateFirst(m, uses, |uses|, n - 1, modes);
      ActivateFirstHandsOn(start, m, uses, |uses|, n - 1, modes);
      KernelsHandOn(start, a.log, a.held, a.waits + WaitList(|before.0| - 1), uses, |uses|, n - 1, modes);
    }
  }

  lemma NothingHandsOn(start: map<nat, nat>, modes: seq<ObjectMode>)
    requires Turns(start)
    ensures HandsOn(start, [], start, modes)
  {
  }
}
