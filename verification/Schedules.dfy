/** Commands and copy tasks with wait lists, and what all schedules of them have in common. Commands of a queue complete
    in the order in which they were enqueued, so do the copy tasks of an I/O thread, each of them completes after the
    events in its wait list, and the host creates nothing while it waits. */
module Schedules {

  /** A kernel, a transfer, a barrier, the clearing of a buffer, a row division or a copy from buffer to buffer goes to
      a queue; a copy task of a chunk goes to the I/O thread of a queue; and the host may wait for events. */
  datatype Kind =
    | Kernel(chunk: nat, runnable: nat)
    | ToDevice(chunk: nat)
    | FromDevice
    | Barrier
    | CopyTask(chunk: nat, back: bool)
    | Clear
    | Divide
    | Copy
    | HostWait

  /** A command or task with the events it waits for, named by their place in the log, and what it works on: slots of
      the cache, and buffers that stay on the device. */
  datatype Command = Command(kind: Kind, queue: nat, waits: set<nat>, slots: set<nat>, globals: set<nat>)

  const QUEUES := 2

  /** Memory that commands work on: the device buffer and the staging buffer of a slot, a chunk of an object of the
      host, and a buffer that stays on the device. */
  datatype Place = Device(slot: nat) | Staging(slot: nat) | Host(oid: nat, chunk: nat) | Global(id: nat)

  /** Kernels and transfers work on device buffers, transfers and copy tasks on staging buffers, and copy tasks on
      chunks of the object that the slot belongs to. */
  ghost predicate On(c: Command, p: Place) {
    match p
    case Device(s) => s in c.slots && (c.kind.Kernel? || c.kind.ToDevice? || c.kind.FromDevice?)
    case Staging(s) => s in c.slots && (c.kind.CopyTask? || c.kind.ToDevice? || c.kind.FromDevice?)
    case Host(o, b) => c.kind.CopyTask? && c.kind.chunk == b && exists s :: s in c.slots && s / QUEUES + 1 == o
    case Global(g) => g in c.globals
  }

  /** Both are on the same queue, or on the I/O thread of the same queue. */
  predicate SameLane(c: Command, d: Command) {
    c.queue == d.queue && (c.kind.CopyTask? <==> d.kind.CopyTask?) && !c.kind.HostWait? && !d.kind.HostWait?
  }

  /** What must have completed before command i can: its wait list, what is ahead of it in its queue or thread, and what
      the host waited for before. */
  ghost predicate Needs(log: seq<Command>, i: nat, w: nat)
    requires i < |log|
  {
    w in log[i].waits || (w < i && (SameLane(log[w], log[i]) || log[w].kind.HostWait?))
  }

  /** An order of completion that respects all of that. */
  ghost predicate Schedule(log: seq<Command>, order: seq<nat>) {
    && (forall a :: 0 <= a < |order| ==> order[a] < |log|)
    && (forall a, b :: 0 <= a < b < |order| ==> order[a] != order[b])
    && (forall a, w: nat :: 0 <= a < |order| && Needs(log, order[a], w) ==> w in order[..a])
  }

  /** Everything waits for what was created before it. */
  ghost predicate Backward(log: seq<Command>) {
    forall i :: 0 <= i < |log| ==> forall w :: w in log[i].waits ==> w < i
  }

  /** As long as something is pending, something can complete: the run cannot deadlock. */
  lemma {:induction false} SomethingCanComplete(log: seq<Command>, order: seq<nat>, pending: nat) returns (i: nat)
    requires Backward(log) && Schedule(log, order) && pending < |log| && pending !in order
    ensures i <= pending && i !in order && Schedule(log, order + [i])
  {
    if exists w: nat :: Needs(log, pending, w) && w !in order {
      var w: nat :| Needs(log, pending, w) && w !in order;
      assert w < pending;
      i := SomethingCanComplete(log, order, w);
    } else {
      i := pending;
      var longer := order + [i];
      forall a, w: nat | 0 <= a < |longer| && Needs(log, longer[a], w)
        ensures w in longer[..a]
      {
        assert longer[..a] == order[..a];
        assert order[..|order|] == order;
      }
    }
  }

  /** Commands and tasks not in the order yet, up to n. */
  ghost function Pending(order: seq<nat>, n: nat): set<nat> {
    set i: nat | i in Below(n) && i !in order
  }

  ghost function Below(n: nat): (s: set<nat>)
    ensures forall i: nat :: i in s <==> i < n
  {
    if n == 0 then {} else Below(n - 1) + {n - 1}
  }

  /** Every schedule can be continued until everything has completed. */
  lemma EverythingCompletes(log: seq<Command>, begun: seq<nat>) returns (order: seq<nat>)
    requires Backward(log) && Schedule(log, begun)
    ensures Schedule(log, order) && begun <= order && forall i: nat :: i < |log| ==> i in order
  {
    order := begun;
    while Pending(order, |log|) != {}
      invariant Schedule(log, order) && begun <= order
      decreases |Pending(order, |log|)|
    {
      var pending :| pending in Pending(order, |log|);
      var i := SomethingCanComplete(log, order, pending);
      assert Pending(order + [i], |log|) == Pending(order, |log|) - {i};
      assert i in Pending(order, |log|);
      order := order + [i];
    }
    forall i: nat | i < |log|
      ensures i in order
    {
      assert i !in Pending(order, |log|);
    }
  }

  // ---------- what has to come first ----------

  /** Command i has completed before command j can. */
  ghost predicate Leads(log: seq<Command>, i: nat, j: nat)
    requires j < |log|
  {
    i == j || exists w: nat :: w < j && Needs(log, j, w) && Leads(log, i, w)
  }

  lemma {:induction false} LeadsInOrder(log: seq<Command>, order: seq<nat>, i: nat, j: nat, a: nat)
    requires Schedule(log, order) && a < |order| && order[a] == j && i != j && Leads(log, i, j)
    ensures i in order[..a]
    decreases j
  {
    var w: nat :| w < j && Needs(log, j, w) && Leads(log, i, w);
    assert w in order[..a];
    if i != w {
      var b :| 0 <= b < a && order[b] == w;
      LeadsInOrder(log, order, i, w, b);
      var c :| 0 <= c < b && order[c] == i;
      assert order[..a][c] == i;
    }
  }

  lemma {:induction false} LeadsGrows(log: seq<Command>, after: seq<Command>, i: nat, j: nat)
    requires log <= after && j < |log| && Leads(log, i, j)
    ensures Leads(after, i, j)
    decreases j
  {
    if i != j {
      var w: nat :| w < j && Needs(log, j, w) && Leads(log, i, w);
      LeadsGrows(log, after, i, w);
      assert Needs(after, j, w);
    }
  }

  lemma {:induction false} LeadsShrinks(log: seq<Command>, after: seq<Command>, i: nat, j: nat)
    requires log <= after && j < |log| && Leads(after, i, j)
    ensures Leads(log, i, j)
    decreases j
  {
    if i != j {
      var w: nat :| w < j && Needs(after, j, w) && Leads(after, i, w);
      LeadsShrinks(log, after, i, w);
      assert Needs(log, j, w);
    }
  }

  lemma {:induction false} LeadsForward(log: seq<Command>, i: nat, j: nat)
    requires j < |log| && Leads(log, i, j)
    ensures i <= j
    decreases j
  {
    if i != j {
      var w: nat :| w < j && Needs(log, j, w) && Leads(log, i, w);
      LeadsForward(log, i, w);
    }
  }

  lemma {:induction false} LeadsOn(log: seq<Command>, i: nat, j: nat, k: nat)
    requires j < |log| && k < |log| && Leads(log, i, j) && Leads(log, j, k)
    ensures Leads(log, i, k)
    decreases k
  {
    if j != k {
      var w: nat :| w < k && Needs(log, k, w) && Leads(log, j, w);
      LeadsOn(log, i, j, w);
    }
  }

  /** Something that needs nothing outside of a set of commands is led to from inside of it only. */
  lemma {:induction false} NotLed(log: seq<Command>, inside: set<nat>, i: nat, j: nat)
    requires j < |log| && j in inside && i !in inside
    requires forall k: nat, w: nat :: k in inside && k < |log| && w < k && Needs(log, k, w) ==> w in inside
    ensures !Leads(log, i, j)
    decreases j
  {
    if Leads(log, i, j) {
      var w: nat :| w < j && Needs(log, j, w) && Leads(log, i, w);
      NotLed(log, inside, i, w);
    }
  }

  // ---------- what all schedules keep ----------

  /** Of any two commands or tasks that work on a place, the older one leads to the younger one. */
  ghost predicate Ordered(log: seq<Command>, p: Place) {
    forall i: nat, j: nat :: i < j < |log| && On(log[i], p) && On(log[j], p) ==> Leads(log, i, j)
  }

  lemma StillBroken(log: seq<Command>, after: seq<Command>, p: Place)
    requires log <= after && !Ordered(log, p)
    ensures !Ordered(after, p)
  {
    hide On, Leads;
    var i: nat, j: nat :| i < j < |log| && On(log[i], p) && On(log[j], p) && !Leads(log, i, j);
    if Leads(after, i, j) {
      LeadsShrinks(log, after, i, j);
    }
  }

  /** In this schedule, what works on a place completes in the order of creation. */
  ghost predicate CompletesInOrder(log: seq<Command>, order: seq<nat>, p: Place) {
    forall i: nat, j: nat, a: nat |
      i < j < |log| && On(log[i], p) && On(log[j], p) && a < |order| && order[a] == j ::
      i in order[..a]
  }

  ghost predicate AlwaysInOrder(log: seq<Command>, p: Place) {
    forall order :: Schedule(log, order) ==> CompletesInOrder(log, order, p)
  }

  /** The commands up to command j that lead to it, in the order of creation. */
  ghost function Before(log: seq<Command>, j: nat, m: nat): (order: seq<nat>)
    requires j < |log| && m <= |log|
    ensures forall w: nat :: w in order <==> w < m && Leads(log, w, j)
    ensures forall a :: 0 <= a < |order| ==> order[a] < m
    ensures forall a, b :: 0 <= a < b < |order| ==> order[a] < order[b]
  {
    if m == 0 then [] else Before(log, j, m - 1) + if Leads(log, m - 1, j) then [m - 1] else []
  }

  /** Nothing but what leads to a command has to complete before it. */
  lemma BeforeIsSchedule(log: seq<Command>, j: nat)
    requires Backward(log) && j < |log|
    ensures Schedule(log, Before(log, j, |log|)) && j in Before(log, j, |log|)
  {
    var order := Before(log, j, |log|);
    forall a, w: nat | 0 <= a < |order| && Needs(log, order[a], w)
      ensures w in order[..a]
    {
      assert order[a] in order;
      assert w < order[a] && Leads(log, w, order[a]) by {
        assert Leads(log, w, w);
      }
      LeadsOn(log, w, order[a], j);
      assert w in order;
      var b :| 0 <= b < |order| && order[b] == w;
      assert b < a;
      assert order[..a][b] == w;
    }
  }

  lemma OrderedKeeps(log: seq<Command>, p: Place, order: seq<nat>)
    requires Ordered(log, p) && Schedule(log, order)
    ensures CompletesInOrder(log, order, p)
  {
    hide On, Schedule, Leads;
    forall i: nat, j: nat, a: nat |
        i < j < |log| && On(log[i], p) && On(log[j], p) && a < |order| && order[a] == j
      ensures i in order[..a]
    {
      LeadsInOrder(log, order, i, j, a);
    }
  }

  lemma OrderedAlways(log: seq<Command>, p: Place)
    requires Ordered(log, p)
    ensures AlwaysInOrder(log, p)
  {
    hide Ordered, Schedule, CompletesInOrder;
    forall order | Schedule(log, order)
      ensures CompletesInOrder(log, order, p)
    {
      OrderedKeeps(log, p, order);
    }
  }

  lemma SomeScheduleBreaks(log: seq<Command>, p: Place, i: nat, j: nat)
    requires Backward(log) && i < j < |log| && On(log[i], p) && On(log[j], p) && !Leads(log, i, j)
    ensures !AlwaysInOrder(log, p)
  {
    hide On, Schedule, Leads;
    var order := Before(log, j, |log|);
    BeforeIsSchedule(log, j);
    var a :| 0 <= a < |order| && order[a] == j;
    assert i !in order[..a] by {
      assert i !in order;
    }
    assert !CompletesInOrder(log, order, p);
  }

  /** All schedules keep the order of creation at a place if and only if whatever works there leads on: wait lists,
      queues and threads imply it, or some schedule breaks it. */
  lemma OrderedIff(log: seq<Command>, p: Place)
    requires Backward(log)
    ensures AlwaysInOrder(log, p) <==> Ordered(log, p)
  {
    hide On, Schedule, Leads, Backward, CompletesInOrder;
    if Ordered(log, p) {
      OrderedAlways(log, p);
    } else {
      var i: nat, j: nat :| i < j < |log| && On(log[i], p) && On(log[j], p) && !Leads(log, i, j);
      SomeScheduleBreaks(log, p, i, j);
    }
  }

  // ---------- schedules that keep the order everywhere ----------

  /** What is where; the places that matter are the same all the time. */
  type Memory<!V> = map<Place, V>

  type Effect<!V> = Memory<V> -> Memory<V>

  ghost predicate Alike<V>(c: Command, s: Memory<V>, t: Memory<V>) {
    s.Keys == t.Keys && forall p :: p in s && On(c, p) ==> s[p] == t[p]
  }

  /** A command reads and writes nothing but the places that it works on. */
  ghost predicate Local<V(!new)>(c: Command, f: Effect<V>) {
    && (forall s: Memory<V> :: f(s).Keys == s.Keys && forall p :: p in s && !On(c, p) ==> f(s)[p] == s[p])
    && (forall s: Memory<V>, t: Memory<V> :: Alike(c, s, t) ==> Alike(c, f(s), f(t)))
  }

  ghost predicate AllLocal<V(!new)>(log: seq<Command>, effects: seq<Effect<V>>) {
    |effects| == |log| && forall i :: 0 <= i < |log| ==> Local(log[i], effects[i])
  }

  /** The commands take effect in this order. */
  ghost function InTurn<V>(effects: seq<Effect<V>>, order: seq<nat>, s: Memory<V>): Memory<V>
    requires forall a :: 0 <= a < |order| ==> order[a] < |effects|
  {
    if order == [] then s else effects[order[|order| - 1]](InTurn(effects, order[..|order| - 1], s))
  }

  /** The order of creation. */
  ghost function Creation(n: nat): (order: seq<nat>)
    ensures |order| == n && forall a :: 0 <= a < n ==> order[a] == a
  {
    seq(n, a requires 0 <= a < n => a)
  }

  /** Commands that work on nothing in common can change places. */
  lemma Commute<V(!new)>(c: Command, d: Command, f: Effect<V>, g: Effect<V>, s: Memory<V>)
    requires Local(c, f) && Local(d, g) && forall p :: !(On(c, p) && On(d, p))
    ensures f(g(s)) == g(f(s))
  {
    hide On;
    assert Alike(c, s, g(s)) && Alike(d, s, f(s));
    forall p | p in s
      ensures f(g(s))[p] == g(f(s))[p]
    {
      if On(c, p) {
        assert Alike(c, f(s), f(g(s)));
      } else if On(d, p) {
        assert Alike(d, g(s), g(f(s)));
      }
    }
  }

  /** A command that what completes after it has nothing to do with might as well come last. */
  lemma {:induction false} MoveToEnd<V(!new)>(log: seq<Command>, effects: seq<Effect<V>>, order: seq<nat>, a: nat,
                                              s: Memory<V>)
    requires AllLocal(log, effects) && a < |order| && forall b :: 0 <= b < |order| ==> order[b] < |log|
    requires forall b, p :: a < b < |order| ==> !(On(log[order[b]], p) && On(log[order[a]], p))
    ensures InTurn(effects, order, s) == InTurn(effects, order[..a] + order[a + 1..] + [order[a]], s)
  {
    hide On, Local;
    var rest, moved := order[..a] + order[a + 1..], order[..a] + order[a + 1..] + [order[a]];
    assert moved[..|moved| - 1] == rest;
    if a == |order| - 1 {
      assert rest == order[..|order| - 1];
    } else {
      var init, last := order[..|order| - 1], order[|order| - 1];
      MoveToEnd(log, effects, init, a, s);
      var middle := init[..a] + init[a + 1..];
      assert (middle + [order[a]])[..|middle|] == middle;
      assert rest[..|rest| - 1] == middle;
      Commute(log[last], log[order[a]], effects[last], effects[order[a]], InTurn(effects, middle, s));
    }
  }

  /** The first n numbers in some order. */
  ghost predicate Complete(order: seq<nat>, n: nat) {
    && |order| == n
    && (forall a :: 0 <= a < |order| ==> order[a] < n)
    && (forall a, b :: 0 <= a < b < |order| ==> order[a] != order[b])
    && (forall i: nat :: i < n ==> i in order)
  }

  lemma {:induction false} SameTurns<V>(effects: seq<Effect<V>>, more: seq<Effect<V>>, order: seq<nat>, s: Memory<V>)
    requires effects <= more && forall a :: 0 <= a < |order| ==> order[a] < |effects|
    ensures InTurn(effects, order, s) == InTurn(more, order, s)
  {
    if order != [] {
      SameTurns(effects, more, order[..|order| - 1], s);
    }
  }

  /** A complete schedule that keeps the order of creation at every place leaves the memory that the order of creation
      leaves. */
  lemma {:induction false} AsCreated<V(!new)>(log: seq<Command>, effects: seq<Effect<V>>, order: seq<nat>, s: Memory<V>)
    requires AllLocal(log, effects) && Complete(order, |log|) && forall p :: CompletesInOrder(log, order, p)
    ensures InTurn(effects, order, s) == InTurn(effects, Creation(|log|), s)
    decreases |log|
  {
    hide On, Local, CompletesInOrder, InTurn, Creation;
    if log == [] {
      NothingCreated(order);
    } else {
      var n := |log| - 1;
      assert n in order;
      var a :| 0 <= a < |order| && order[a] == n;
      LastIsFree(log, order, a);
      MoveToEnd(log, effects, order, a, s);
      var rest := order[..a] + order[a + 1..];
      WithoutLast(log, order, a);
      AsCreated(log[..n], effects[..n], rest, s);
      AtLast(effects, n, rest, s);
      AtLast(effects, n, Creation(n), s);
      assert Creation(n + 1) == Creation(n) + [n];
    }
  }

  lemma NothingCreated(order: seq<nat>)
    requires Complete(order, 0)
    ensures order == Creation(0)
  {
  }

  lemma AtLast<V>(effects: seq<Effect<V>>, n: nat, order: seq<nat>, s: Memory<V>)
    requires |effects| == n + 1 && forall a :: 0 <= a < |order| ==> order[a] < n
    ensures InTurn(effects, order + [n], s) == effects[n](InTurn(effects[..n], order, s))
  {
    SameTurns(effects[..n], effects, order, s);
    assert (order + [n])[..|order|] == order;
  }

  /** What completes after the youngest command works on nothing that it works on. */
  lemma LastIsFree(log: seq<Command>, order: seq<nat>, a: nat)
    requires Complete(order, |log|) && a < |order| && order[a] == |log| - 1
    requires forall p :: CompletesInOrder(log, order, p)
    ensures forall b, p :: a < b < |order| ==> !(On(log[order[b]], p) && On(log[order[a]], p))
  {
    hide On;
    forall b, p | a < b < |order|
      ensures !(On(log[order[b]], p) && On(log[order[a]], p))
    {
      assert order[b] !in order[..a] && order[b] < order[a];
      assert CompletesInOrder(log, order, p);
    }
  }

  lemma WithoutLast(log: seq<Command>, order: seq<nat>, a: nat)
    requires Complete(order, |log|) && a < |order| && order[a] == |log| - 1
    requires forall p :: CompletesInOrder(log, order, p)
    ensures var rest, n := order[..a] + order[a + 1..], |log| - 1;
            Complete(rest, n) && forall p :: CompletesInOrder(log[..n], rest, p)
  {
    hide On;
    var rest, n := order[..a] + order[a + 1..], |log| - 1;
    forall i: nat | i < n
      ensures i in rest
    {
      assert i in order;
      var b :| 0 <= b < |order| && order[b] == i;
      assert rest[if b < a then b else b - 1] == i;
    }
    forall p, i: nat, j: nat, b: nat |
        i < j < n && On(log[..n][i], p) && On(log[..n][j], p) && b < |rest| && rest[b] == j
      ensures i in rest[..b]
    {
      var at := if b < a then b else b + 1;
      assert CompletesInOrder(log, order, p) && order[at] == j;
      var c :| 0 <= c < at && order[c] == i;
      assert rest[..b][if c < a then c else c - 1] == i;
    }
  }
}
