/** What the order of the host's commands is about: as the pipelines are written, a schedule of the first iteration may
    clear the masses after they have been counted. */
module LostCounts {
  import opened BufferCache
  import opened Schedules
  import opened Commands
  import opened PipelineOrder

  /** A kernel adds one where it touches the masses, and clearing sets them to zero; nothing else matters here. */
  function CountingEffect(c: Command): Effect<int> {
    (s: Memory<int>) =>
      if Global(MASSES) !in s || MASSES !in c.globals then s
      else if c.kind.Clear? then s[Global(MASSES) := 0]
      else if c.kind.Kernel? then s[Global(MASSES) := s[Global(MASSES)] + 1]
      else s
  }

  ghost function Counting(log: seq<Command>): (effects: seq<Effect<int>>)
    ensures |effects| == |log|
  {
    seq(|log|, i requires 0 <= i < |log| => CountingEffect(log[i]))
  }

  lemma CountingIsLocal(log: seq<Command>)
    ensures AllLocal(log, Counting(log))
  {
    forall i | 0 <= i < |log|
      ensures Local(log[i], Counting(log)[i])
    {
    }
  }

  /** The whole run, the host's wait for it, and then the two clearings and the division. */
  ghost function ClearingsLate(n: nat): (order: seq<nat>)
    ensures |order| == n + 4 && forall a :: 0 <= a < n + 1 ==> order[a] == a + 2
    ensures order[n + 1] == 0 && order[n + 2] == 1 && order[n + 3] == n + 3
  {
    seq(n + 1, x requires 0 <= x < n + 1 => x + 2) + [0, 1, n + 3]
  }

  lemma LateIsComplete(n: nat)
    ensures Complete(ClearingsLate(n), n + 4)
  {
    var order := ClearingsLate(n);
    forall i: nat | i < n + 4
      ensures i in order
    {
      assert order[if i < 2 then n + 1 + i else if i == n + 3 then i else i - 2] == i;
    }
  }

  /** What the commands of the first iteration need, as the pipelines are written: those of the scheduler nothing of the
      host, and its finishing nothing but those of the scheduler. */
  lemma NeedsAsWritten(run: seq<Command>, su: Setup, after: seq<Command>, j: nat, w: nat)
    requires su.Valid() && su.tie == AsWritten(|su.uses|) && Shape([], run, su, 0, after) && Backward(run)
             && InLanes(run)
    requires after == OneIteration([], run, su, 0) && j < |after| && Needs(after, j, w)
    ensures if 2 <= j < |run| + 3 then 2 <= w < j else w < j && (j < 2 ==> w < 2)
  {
    hide Shifted, OneIteration, Moved;
    FinishNeeds(run, su, w);
    if 2 <= j < |run| + 2 {
      assert after[2 + (j - 2)] == Moved(run[j - 2], su, 0, 0);
      NothingOfHost(run[j - 2], su);
      AllInLane(run, j - 2);
      if w in after[j].waits {
        InShifted(run[j - 2].waits, 2, w);
      } else if w >= 2 {
        assert w < j;
      }
    }
  }

  /** As the pipelines are written, a command of the scheduler waits for nothing else. */
  lemma NothingOfHost(c: Command, su: Setup)
    requires su.Valid() && su.tie == AsWritten(|su.uses|)
    ensures Moved(c, su, 0, 0).waits == Shifted(c.waits, 2)
  {
  }

  lemma FinishNeeds(run: seq<Command>, su: Setup, w: nat)
    requires su.Valid()
    ensures var after := OneIteration([], run, su, 0);
            w in after[|run| + 2].waits ==> 2 <= w < |run| + 2
  {
    hide Shifted, Moved, Started;
    StartedIs([], run, su, 0);
  }

  /** As the pipelines are written, some schedule clears masses and sums when the whole run is over. */
  lemma ClearedLate(su: Setup, start: map<nat, nat>)
    requires su.Valid() && Turns(start) && su.tie == AsWritten(|su.uses|)
    ensures var log := PipelineLog(1, su, start).0;
            |log| >= 4 && Schedule(log, ClearingsLate(|log| - 4)) && Complete(ClearingsLate(|log| - 4), |log|)
  {
    hide RunLog, Shape, OneIteration, Needs, Sound;
    assert PipelineLog(0, su, start) == ([], start);
    var run := RunLog(su.chunks, su.uses, su.modes, start).0;
    var log := OneIteration([], run, su, 0);
    var kernels := RunIsSound(su.chunks, su.uses, su.modes, start);
    SoundRun(run, kernels, start, su.uses, su.modes);
    ShapeOf([], run, su, 0);
    LateIsComplete(|run|);
    var order := ClearingsLate(|run|);
    forall a, w: nat | 0 <= a < |order| && Needs(log, order[a], w)
      ensures w in order[..a]
    {
      NeedsAsWritten(run, su, log, order[a], w);
      var b := if w < 2 then |run| + 1 + w else w - 2;
      assert order[..a][b] == w;
    }
  }

  lemma SoundRun(run: seq<Command>, kernels: seq<nat>, start: map<nat, nat>, uses: seq<seq<nat>>,
                 modes: seq<ObjectMode>)
    requires Sound(run, kernels, start, uses, modes)
    ensures Backward(run) && InLanes(run)
  {
  }

  /** The count that is left when the commands complete in this order. */
  ghost function CountLeft(log: seq<Command>, order: seq<nat>, memory: Memory<int>): int
    requires (forall a :: 0 <= a < |order| ==> order[a] < |log|) && Global(MASSES) in memory
  {
    CountStays(log, order, memory);
    InTurn(Counting(log), order, memory)[Global(MASSES)]
  }

  lemma {:induction false} CountStays(log: seq<Command>, order: seq<nat>, memory: Memory<int>)
    requires (forall a :: 0 <= a < |order| ==> order[a] < |log|) && Global(MASSES) in memory
    ensures Global(MASSES) in InTurn(Counting(log), order, memory)
  {
    if order != [] {
      CountStays(log, order[..|order| - 1], memory);
    }
  }

  /** Once the masses are cleared, the count is positive as soon as a kernel has touched them. */
  lemma {:induction false} CountIsPositive(log: seq<Command>, k: nat, n: nat, memory: Memory<int>)
    requires 0 < k < |log| && 0 < n <= |log| && Global(MASSES) in memory
    requires log[0].kind.Clear? && MASSES in log[0].globals && log[k].kind.Kernel? && MASSES in log[k].globals
    requires forall j :: 0 < j < |log| && MASSES in log[j].globals ==> !log[j].kind.Clear?
    ensures CountLeft(log, Creation(n), memory) >= if n > k then 1 else 0
  {
    assert Creation(n)[..n - 1] == Creation(n - 1);
    CountStays(log, Creation(n - 1), memory);
    if n > 1 {
      CountIsPositive(log, k, n - 1, memory);
    }
  }

  /** When a command that clears the masses comes last but for two that do not count, the count is zero. */
  lemma LateCountIsZero(log: seq<Command>, memory: Memory<int>)
    requires |log| >= 4 && Global(MASSES) in memory && log[0].kind.Clear? && MASSES in log[0].globals
    requires MASSES !in log[1].globals && log[|log| - 1].kind.Divide?
    ensures var order := ClearingsLate(|log| - 4);
            (forall a :: 0 <= a < |order| ==> order[a] < |log|) && CountLeft(log, order, memory) == 0
  {
    hide InTurn;
    var n := |log| - 4;
    var order := ClearingsLate(n);
    CountStays(log, order[..n + 1], memory);
    OneMoreTurn(log, order, n + 1, memory);
    OneMoreTurn(log, order, n + 2, memory);
    OneMoreTurn(log, order, n + 3, memory);
    assert order[..n + 4] == order;
  }

  lemma OneMoreTurn(log: seq<Command>, order: seq<nat>, a: nat, memory: Memory<int>)
    requires a < |order| && forall b :: 0 <= b < |order| ==> order[b] < |log|
    ensures InTurn(Counting(log), order[..a + 1], memory)
            == CountingEffect(log[order[a]])(InTurn(Counting(log), order[..a], memory))
  {
    assert order[..a + 1][..a] == order[..a];
  }

  /** So all counts may be lost: in the order of the program some are left after the first iteration, and in that
      schedule none. */
  lemma CountsMayBeLost(su: Setup, start: map<nat, nat>, r: nat, memory: Memory<int>)
    requires su.Valid() && Turns(start) && su.tie == AsWritten(|su.uses|) && su.chunks > 0
    requires r < |su.touches| && Masses in su.touches[r] && Global(MASSES) in memory
    ensures var log := PipelineLog(1, su, start).0;
            && |log| >= 4 && AllLocal(log, Counting(log))
            && var late := ClearingsLate(|log| - 4);
               && Schedule(log, late) && Complete(late, |log|)
               && CountLeft(log, Creation(|log|), memory) > 0 && CountLeft(log, late, memory) == 0
  {
    hide RunLog, OneIteration, Schedule, Complete, CountLeft, AllLocal, BeginsWith, Shifted;
    ClearedLate(su, start);
    assert PipelineLog(0, su, start) == ([], start);
    var run := RunLog(su.chunks, su.uses, su.modes, start).0;
    var log := OneIteration([], run, su, 0);
    ShapeOf([], run, su, 0);
    var k0 := RunBegins(su.chunks, su.uses, su.modes, start);
    CountingIsLocal(log);
    OneClearing(run, su, log, k0, r);
    CountIsPositive(log, 2 + k0 + r, |log|, memory);
    LateCountIsZero(log, memory);
  }

  lemma OneClearing(run: seq<Command>, su: Setup, after: seq<Command>, k0: nat, r: nat)
    requires su.Valid() && Shape([], run, su, 0, after) && BeginsWith(run, k0, |su.uses|)
    requires r < |su.touches| && Masses in su.touches[r]
    ensures |after| == |run| + 4 && 2 + k0 + r < |after|
    ensures after[2 + k0 + r].kind.Kernel? && MASSES in after[2 + k0 + r].globals
    ensures after[0].kind.Clear? && MASSES in after[0].globals && MASSES !in after[1].globals
    ensures after[|after| - 1].kind.Divide?
    ensures forall j :: 0 < j < |after| && MASSES in after[j].globals ==> !after[j].kind.Clear?
  {
    hide Shifted;
    assert after[2 + (k0 + r)] == Moved(run[k0 + r], su, 0, 0) && run[k0 + r].kind == Kernel(0, r);
    assert GlobalOf(Masses, 0) == MASSES;
    forall j | 0 < j < |after| && MASSES in after[j].globals
      ensures !after[j].kind.Clear?
    {
      if 2 <= j < |run| + 2 {
        assert after[2 + (j - 2)] == Moved(run[j - 2], su, 0, 0);
      }
    }
  }
}
