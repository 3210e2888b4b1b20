/** The I/O thread of a queue: any number of threads push copy tasks, one worker takes and executes them.
    Every access to the mutex, the flag, the list and the condition variable is a step of its own, and steps
    interleave in any way. */
module IoThread {

  /** What is pushed: a copy task, or the null pointer that ends the worker. */
  datatype Task = Copy(id: nat) | Stop

  /** Where a pushing thread is.  It has the mutex from Has to Notified, except while it sleeps. */
  datatype Pusher = Outside | Wants(t: Task) | Has(t: Task) | Sleeping(t: Task) | Marked(t: Task) | Listed(t: Task)
                  | Cleared(t: Task) | Notified(t: Task) | Joining | Returned

  /** Where the worker is.  It has the mutex from HasIt to Told. */
  datatype Worker = WantsIt | HasIt | Asleep | MarkedIt | Taken(t: Task) | Unmarked(t: Task) | Told(t: Task)
                  | Got(t: Task) | Exited

  /** The shared state, what the threads still have to push (Stop stands for a call of join), and two histories: all
      that was pushed, and all that was executed. */
  datatype State = State(mutex: int, queue_locked: bool, tasks: seq<Task>, pushers: seq<Pusher>,
                         scripts: seq<seq<Task>>,
                         worker: Worker, pushed: seq<Task>, executed: seq<Task>)

  /** A thread's turn, or a sleeper that wakes for no reason. */
  datatype Move = Turn(i: nat) | WorkerTurn | Wake(i: nat) | WakeWorker

  const FREE := -1

  function Woken(p: Pusher): Pusher {
    if p.Sleeping? then Wants(p.t) else p
  }

  /** Everybody who sleeps on the condition variable is sent back to acquire the mutex. */
  function NotifyAll(s: State): State {
    s.(pushers := seq(|s.pushers|, i requires 0 <= i < |s.pushers| => Woken(s.pushers[i])),
       worker := if s.worker.Asleep? then WantsIt else s.worker)
  }

  function At(s: State, i: nat, p: Pusher): State
    requires i < |s.pushers|
  {
    s.(pushers := s.pushers[i := p])
  }

  /** The next step of a pusher; it stays where it is if it cannot step. */
  function PusherStep(s: State, i: nat): (t: State)
    requires i < |s.pushers| == |s.scripts|
    ensures |t.pushers| == |s.pushers| && |t.scripts| == |s.scripts|
  {
    match s.pushers[i]
    case Outside =>
      if s.scripts[i] == [] then s
      else At(s, i, Wants(s.scripts[i][0])).(scripts := s.scripts[i := s.scripts[i][1..]])
    case Wants(t) => if s.mutex == FREE then At(s, i, Has(t)).(mutex := i) else s
    case Has(t) =>
      if s.queue_locked then At(s, i, Sleeping(t)).(mutex := FREE)
      else At(s, i, Marked(t)).(queue_locked := true)
    case Sleeping(_) => s
    case Marked(t) => At(s, i, Listed(t)).(tasks := s.tasks + [t], pushed := s.pushed + [t])
    case Listed(t) => At(s, i, Cleared(t)).(queue_locked := false)
    case Cleared(t) => At(NotifyAll(s), i, Notified(t))
    case Notified(t) => At(s, i, if t.Stop? then Joining else Outside).(mutex := FREE)
    case Joining => if s.worker.Exited? then At(s, i, Returned) else s
    case Returned => s
  }

  function WorkerStep(s: State): (t: State)
    ensures |t.pushers| == |s.pushers| && |t.scripts| == |s.scripts|
  {
    match s.worker
    case WantsIt => if s.mutex == FREE then s.(worker := HasIt, mutex := |s.pushers|) else s
    case HasIt =>
      if s.queue_locked || s.tasks == [] then s.(worker := Asleep, mutex := FREE)
      else s.(worker := MarkedIt, queue_locked := true)
    case Asleep => s
    case MarkedIt => if s.tasks == [] then s else s.(worker := Taken(s.tasks[0]), tasks := s.tasks[1..])
    case Taken(t) => s.(worker := Unmarked(t), queue_locked := false)
    case Unmarked(t) => NotifyAll(s).(worker := Told(t))
    case Told(t) => s.(worker := Got(t), mutex := FREE)
    case Got(t) => if t.Stop? then s.(worker := Exited) else s.(worker := WantsIt, executed := s.executed + [t])
    case Exited => s
  }

  function Do(s: State, m: Move): (t: State)
    requires |s.pushers| == |s.scripts|
    ensures |t.pushers| == |s.pushers| && |t.scripts| == |s.scripts|
  {
    match m
    case Turn(i) => if i < |s.pushers| then PusherStep(s, i) else s
    case WorkerTurn => WorkerStep(s)
    case Wake(i) => if i < |s.pushers| then At(s, i, Woken(s.pushers[i])) else s
    case WakeWorker => if s.worker.Asleep? then s.(worker := WantsIt) else s
  }

  /** After launch: nothing pushed, nobody inside. */
  function Launched(scripts: seq<seq<Task>>): State {
    State(FREE, false, [], seq(|scripts|, i => Outside), scripts, WantsIt, [], [])
  }

  ghost function Run(scripts: seq<seq<Task>>, moves: seq<Move>): (s: State)
    ensures |s.pushers| == |s.scripts| == |scripts|
  {
    if moves == [] then Launched(scripts) else Do(Run(scripts, moves[..|moves| - 1]), moves[|moves| - 1])
  }

  // ---------- invariant ----------

  predicate Inside(p: Pusher) {
    p.Has? || p.Marked? || p.Listed? || p.Cleared? || p.Notified?
  }

  predicate WorkerInside(w: Worker) {
    w.HasIt? || w.MarkedIt? || w.Taken? || w.Unmarked? || w.Told?
  }

  /** The task that the worker has taken and not executed. */
  function InHand(w: Worker): seq<Task> {
    match w
    case Taken(t) => [t]
    case Unmarked(t) => [t]
    case Told(t) => [t]
    case Got(t) => [t]
    case Exited => [Stop]
    case _ => []
  }

  /** The owner of the mutex is the one thread inside. */
  ghost predicate Exclusive(s: State) {
    && |s.pushers| == |s.scripts| && FREE <= s.mutex <= |s.pushers|
    && (forall i :: 0 <= i < |s.pushers| ==> (Inside(s.pushers[i]) <==> s.mutex == i))
    && (WorkerInside(s.worker) <==> s.mutex == |s.pushers|)
  }

  /** The flag is set only between two steps of the thread that is inside; nobody who enters finds it set, and so no
      pusher ever sleeps. */
  ghost predicate FlagIsPrivate(s: State) {
    && (s.queue_locked ==>
          || (0 <= s.mutex < |s.pushers| && (s.pushers[s.mutex].Marked? || s.pushers[s.mutex].Listed?))
          || s.worker.MarkedIt? || s.worker.Taken?)
    && (forall i :: 0 <= i < |s.pushers| ==> !s.pushers[i].Sleeping?)
  }

  /** Tasks leave in the order in which they came. */
  ghost predicate Ordered(s: State) {
    && s.executed + InHand(s.worker) + s.tasks == s.pushed
    && (forall k :: 0 <= k < |s.executed| ==> s.executed[k].Copy?)
    && (s.worker.MarkedIt? ==> s.tasks != [])
  }

  /** A sleeping worker is woken for a task that is listed: somebody inside has yet to notify. */
  ghost predicate NoLostWakeup(s: State) {
    s.worker.Asleep? && s.tasks != [] ==>
      0 <= s.mutex < |s.pushers| && (s.pushers[s.mutex].Listed? || s.pushers[s.mutex].Cleared?)
  }

  /** What thread p knows: what it has listed was pushed, join waits for the sentinel, and returns after the worker has
      ended. */
  ghost predicate Knows(p: Pusher, pushed: seq<Task>, exited: bool) {
    && (p.Listed? || p.Cleared? || p.Notified? ==> p.t in pushed)
    && (p.Joining? ==> Stop in pushed)
    && (p.Returned? ==> exited)
  }

  ghost predicate JoinWaits(s: State) {
    forall i :: 0 <= i < |s.pushers| ==> Knows(s.pushers[i], s.pushed, s.worker.Exited?)
  }

  ghost predicate Inv(s: State) {
    Exclusive(s) && FlagIsPrivate(s) && Ordered(s) && NoLostWakeup(s) && JoinWaits(s)
  }

  lemma ExclusiveStays(s: State, m: Move)
    requires Exclusive(s)
    ensures Exclusive(Do(s, m))
  {
    hide PusherStep, WorkerStep;
    match m
    case Turn(i) =>
      if i < |s.pushers| {
        ExclusiveOfPusher(s, i);
      }
    case WorkerTurn => ExclusiveOfWorker(s);
    case Wake(_) =>
    case WakeWorker =>
  }

  lemma ExclusiveOfPusher(s: State, i: nat)
    requires i < |s.pushers| && Exclusive(s)
    ensures Exclusive(PusherStep(s, i))
  {
  }

  lemma ExclusiveOfWorker(s: State)
    requires Exclusive(s)
    ensures Exclusive(WorkerStep(s))
  {
  }

  lemma FlagStaysPrivate(s: State, m: Move)
    requires Exclusive(s) && FlagIsPrivate(s)
    ensures FlagIsPrivate(Do(s, m))
  {
  }

  lemma OrderStays(s: State, m: Move)
    requires |s.pushers| == |s.scripts| && Ordered(s)
    ensures Ordered(Do(s, m))
  {
    hide PusherStep, WorkerStep;
    match m
    case Turn(i) =>
      if i < |s.pushers| {
        OrderOfPusher(s, i);
      }
    case WorkerTurn => OrderOfWorker(s);
    case Wake(_) =>
    case WakeWorker =>
  }

  lemma OrderOfPusher(s: State, i: nat)
    requires i < |s.pushers| == |s.scripts| && Ordered(s)
    ensures Ordered(PusherStep(s, i))
  {
    if s.pushers[i].Marked? {
      assert s.executed + InHand(s.worker) + (s.tasks + [s.pushers[i].t]) == s.pushed + [s.pushers[i].t];
    }
  }

  lemma OrderOfWorker(s: State)
    requires Ordered(s)
    ensures Ordered(WorkerStep(s))
  {
    if s.worker.MarkedIt? {
      assert s.tasks == [s.tasks[0]] + s.tasks[1..];
    }
  }

  lemma WakeupsStay(s: State, m: Move)
    requires Exclusive(s) && FlagIsPrivate(s) && NoLostWakeup(s)
    ensures NoLostWakeup(Do(s, m))
  {
  }

  lemma JoinsStay(s: State, m: Move)
    requires |s.pushers| == |s.scripts| && JoinWaits(s)
    ensures JoinWaits(Do(s, m))
  {
    hide Knows, PusherStep, WorkerStep;
    var t := Do(s, m);
    forall i | 0 <= i < |t.pushers|
      ensures Knows(t.pushers[i], t.pushed, t.worker.Exited?)
    {
      assert Knows(s.pushers[i], s.pushed, s.worker.Exited?);
      match m {
        case Turn(j) =>
          if j < |s.pushers| {
            StillKnows(s, i, j);
          }
        case WorkerTurn => KnowsOfWorker(s, i);
        case Wake(j) => KnowsWoken(s.pushers[i], s.pushed, s.worker.Exited?);
        case WakeWorker =>
      }
    }
  }

  lemma KnowsWoken(p: Pusher, pushed: seq<Task>, exited: bool)
    requires Knows(p, pushed, exited)
    ensures Knows(Woken(p), pushed, exited)
  {
  }

  lemma StillKnows(s: State, i: nat, j: nat)
    requires |s.pushers| == |s.scripts| && i < |s.pushers| && j < |s.pushers|
    requires Knows(s.pushers[i], s.pushed, s.worker.Exited?) && Knows(s.pushers[j], s.pushed, s.worker.Exited?)
    ensures var t := PusherStep(s, j); Knows(t.pushers[i], t.pushed, t.worker.Exited?)
  {
    KnowsWoken(s.pushers[i], s.pushed, s.worker.Exited?);
  }

  lemma KnowsOfWorker(s: State, i: nat)
    requires i < |s.pushers| && Knows(s.pushers[i], s.pushed, s.worker.Exited?)
    ensures var t := WorkerStep(s); i < |t.pushers| && Knows(t.pushers[i], t.pushed, t.worker.Exited?)
  {
    KnowsWoken(s.pushers[i], s.pushed, s.worker.Exited?);
  }

  /** The invariant holds in every state that any run reaches. */
  lemma {:induction false} Always(scripts: seq<seq<Task>>, moves: seq<Move>)
    ensures Inv(Run(scripts, moves))
  {
    hide Exclusive, FlagIsPrivate, Ordered, NoLostWakeup, JoinWaits, Do;
    if moves == [] {
      Initially(scripts);
    } else {
      Always(scripts, moves[..|moves| - 1]);
      var s, m := Run(scripts, moves[..|moves| - 1]), moves[|moves| - 1];
      ExclusiveStays(s, m);
      FlagStaysPrivate(s, m);
      OrderStays(s, m);
      WakeupsStay(s, m);
      JoinsStay(s, m);
    }
  }

  lemma Initially(scripts: seq<seq<Task>>)
    ensures Inv(Launched(scripts))
  {
  }

  // ---------- what the protocol promises ----------

  /** Executed tasks are the first ones that were pushed, in the order of pushing: each of them once. */
  lemma ExecutedIsPrefix(scripts: seq<seq<Task>>, moves: seq<Move>)
    ensures var s := Run(scripts, moves); s.executed <= s.pushed
  {
    Always(scripts, moves);
  }

  /** Whoever is about to test the flag finds it clear, so waiting for it never happens. */
  lemma FlagNeverSeen(scripts: seq<seq<Task>>, moves: seq<Move>)
    ensures var s := Run(scripts, moves);
            && (s.worker.HasIt? ==> !s.queue_locked)
            && forall i :: 0 <= i < |s.pushers| ==> !s.pushers[i].Sleeping? && (s.pushers[i].Has? ==> !s.queue_locked)
  {
    Always(scripts, moves);
  }

  /** When join returns, everything pushed before the first sentinel has been executed, and nothing else. */
  lemma JoinReturnsLast(scripts: seq<seq<Task>>, moves: seq<Move>, i: nat)
    requires i < |scripts| && Run(scripts, moves).pushers[i].Returned?
    ensures var s := Run(scripts, moves);
            && |s.executed| < |s.pushed| && s.pushed[|s.executed|] == Stop
            && s.pushed[..|s.executed|] == s.executed
            && forall k :: 0 <= k < |s.executed| ==> s.pushed[k].Copy?
  {
    Always(scripts, moves);
    var s := Run(scripts, moves);
    assert s.pushed == s.executed + ([Stop] + s.tasks);
  }

  /** Nobody can make a step, short of waking up for no reason. */
  ghost predicate Stuck(s: State)
    requires |s.pushers| == |s.scripts|
  {
    WorkerStep(s) == s && forall i :: 0 <= i < |s.pushers| ==> PusherStep(s, i) == s
  }

  /** Thread i has pushed all it had to, and its join, if any, has returned. */
  ghost predicate Done(s: State, i: nat)
    requires |s.pushers| == |s.scripts| && i < |s.pushers|
  {
    (s.pushers[i].Outside? && s.scripts[i] == []) || s.pushers[i].Returned?
  }

  /** Threads only come to rest when everything has been pushed, every join has returned, and the worker has ended or
      has nothing left to do. */
  lemma RestsOnlyWhenDone(scripts: seq<seq<Task>>, moves: seq<Move>)
    requires Stuck(Run(scripts, moves))
    ensures var s := Run(scripts, moves);
            && (forall i :: 0 <= i < |s.pushers| ==> Done(s, i))
            && (s.worker.Exited? || (s.worker.Asleep? && s.tasks == [] && s.executed == s.pushed))
  {
    hide NotifyAll;
    Always(scripts, moves);
    var s := Run(scripts, moves);
    assert s.mutex == FREE by {
      if 0 <= s.mutex < |s.pushers| {
        assert PusherStep(s, s.mutex) == s;
        InsideSteps(s, s.mutex);
      }
      if s.mutex == |s.pushers| {
        WorkerInsideSteps(s);
      }
    }
    if s.worker.Asleep? {
      NothingLeft(s);
    }
    forall i | 0 <= i < |s.pushers|
      ensures Done(s, i)
    {
      if !Done(s, i) {
        if s.pushers[i].Joining? {
          assert Knows(s.pushers[i], s.pushed, s.worker.Exited?);
        }
        OutsideSteps(s, i);
        assert false;
      }
    }
  }

  /** A thread that is inside can always step. */
  lemma InsideSteps(s: State, i: nat)
    requires |s.pushers| == |s.scripts| && i < |s.pushers| && Inside(s.pushers[i])
    ensures PusherStep(s, i) != s
  {
    assert PusherStep(s, i).pushers[i] != s.pushers[i];
  }

  lemma WorkerInsideSteps(s: State)
    requires Inv(s) && WorkerInside(s.worker)
    ensures WorkerStep(s) != s
  {
    assert WorkerStep(s).worker != s.worker;
  }

  /** When the mutex is free, and the worker has ended if it is waited for, any thread that is not done can step. */
  lemma OutsideSteps(s: State, i: nat)
    requires Inv(s) && s.mutex == FREE && i < |s.pushers| && !Done(s, i) && (s.pushers[i].Joining? ==> s.worker.Exited?)
    ensures PusherStep(s, i) != s
  {
    assert PusherStep(s, i).pushers[i] != s.pushers[i];
  }

  /** A worker that sleeps while the mutex is free has executed everything, and met no sentinel. */
  lemma NothingLeft(s: State)
    requires Inv(s) && s.mutex == FREE && s.worker.Asleep?
    ensures s.tasks == [] && s.executed == s.pushed && Stop !in s.pushed
  {
  }
}
