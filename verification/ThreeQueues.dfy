/** The commands of the three stages on up to three devices.  None of the wait lists is ever filled, so what one queue
    computes is only waited for where the host waits for a copy. */
module ThreeQueues {
  import opened Schedules

  /** The buffers that belong to a queue. */
  function LabelsAt(queue: nat): nat { 3 * queue }

  function MassesAt(queue: nat): nat { 3 * queue + 1 }

  function CentroidsAt(queue: nat): nat { 3 * queue + 2 }

  /** Copies from one buffer to another, unless they are the same, and waits for it. */
  function CopyTo(log: seq<Command>, from: nat, to: nat, queue: nat): (r: seq<Command>)
    ensures log <= r
  {
    if from == to then log
    else log + [Command(Copy, queue, {}, {}, {from, to}), Command(HostWait, 0, {|log|}, {}, {})]
  }

  /** Labelling, and clearing what the other stages add to. */
  function LabelAndClear(ll: nat, mu: nat, cu: nat): (r: seq<Command>)
  {
    [Command(Kernel(0, 0), ll, {}, {}, {CentroidsAt(ll), LabelsAt(ll)}), Command(Clear, mu, {}, {}, {MassesAt(mu)}),
     Command(Clear, cu, {}, {}, {CentroidsAt(cu)})]
  }

  /** The labels are copied to the other devices. */
  function SyncLabels(log: seq<Command>, ll: nat, mu: nat, cu: nat): (r: seq<Command>)
    ensures log <= r
  {
    var first := CopyTo(log, LabelsAt(ll), LabelsAt(mu), mu);
    if ll == cu || mu == cu then first else CopyTo(first, LabelsAt(ll), LabelsAt(cu), cu)
  }

  function Counted(log: seq<Command>, mu: nat, cu: nat): (r: seq<Command>)
    ensures log <= r
  {
    CopyTo(log + [Command(Kernel(0, 1), mu, {}, {}, {LabelsAt(mu), MassesAt(mu)})], MassesAt(mu), MassesAt(cu), cu)
  }

  function AddUpAndDivide(cu: nat): (r: seq<Command>) {
    [Command(Kernel(0, 2), cu, {}, {}, {LabelsAt(cu), MassesAt(cu), CentroidsAt(cu)}),
     Command(Divide, cu, {}, {}, {MassesAt(cu), CentroidsAt(cu)})]
  }

  /** The commands up to the copies of the labels. */
  function Labelled(log: seq<Command>, ll: nat, mu: nat, cu: nat): (r: seq<Command>)
    ensures log <= r
  {
    SyncLabels(CopyTo(log, CentroidsAt(cu), CentroidsAt(ll), ll) + LabelAndClear(ll, mu, cu), ll, mu, cu)
  }

  /** The commands of m iterations. */
  function Log(m: nat, ll: nat, mu: nat, cu: nat): (r: seq<Command>) {
    if m == 0 then [] else Counted(Labelled(Log(m - 1, ll, mu, cu), ll, mu, cu), mu, cu) + AddUpAndDivide(cu)
  }

  // ---------- when everything is in order ----------

  ghost predicate AllOn(log: seq<Command>, queue: nat) {
    forall i :: 0 <= i < |log| ==> log[i].queue == queue && !log[i].kind.CopyTask? && !log[i].kind.HostWait?
  }

  lemma {:induction false} OneQueue(m: nat, queue: nat)
    ensures AllOn(Log(m, queue, queue, queue), queue)
  {
    if m > 0 {
      OneQueue(m - 1, queue);
    }
  }

  lemma AllOnIsOrdered(log: seq<Command>, queue: nat, p: Place)
    requires AllOn(log, queue)
    ensures Ordered(log, p)
  {
    forall i: nat, j: nat | i < j < |log| && On(log[i], p) && On(log[j], p)
      ensures Leads(log, i, j)
    {
      assert Needs(log, j, i) && Leads(log, i, i);
    }
  }

  lemma CopyBackward(log: seq<Command>, from: nat, to: nat, queue: nat)
    requires Backward(log)
    ensures Backward(CopyTo(log, from, to, queue))
  {
  }

  lemma {:induction false} LogBackward(m: nat, ll: nat, mu: nat, cu: nat)
    ensures Backward(Log(m, ll, mu, cu))
  {
    hide CopyTo;
    if m > 0 {
      var log := Log(m - 1, ll, mu, cu);
      LogBackward(m - 1, ll, mu, cu);
      CopyBackward(log, CentroidsAt(cu), CentroidsAt(ll), ll);
      var a := CopyTo(log, CentroidsAt(cu), CentroidsAt(ll), ll) + LabelAndClear(ll, mu, cu);
      CopyBackward(a, LabelsAt(ll), LabelsAt(mu), mu);
      CopyBackward(CopyTo(a, LabelsAt(ll), LabelsAt(mu), mu), LabelsAt(ll), LabelsAt(cu), cu);
      var b := Labelled(log, ll, mu, cu) + [Command(Kernel(0, 1), mu, {}, {}, {LabelsAt(mu), MassesAt(mu)})];
      CopyBackward(b, MassesAt(mu), MassesAt(cu), cu);
    }
  }

  lemma {:induction false} LogGrows(m: nat, ll: nat, mu: nat, cu: nat)
    requires m > 0
    ensures Labelled([], ll, mu, cu) <= Log(m, ll, mu, cu)
  {
    hide Labelled, Counted;
    assert Log(0, ll, mu, cu) == [];
    if m > 1 {
      LogGrows(m - 1, ll, mu, cu);
    }
  }

  /** On different queues the labels may be copied before the labelling has completed, already in the first iteration.
      */
  lemma LabelsCopiedEarly(ll: nat, mu: nat, cu: nat)
    requires !(ll == mu == cu)
    ensures !Ordered(Labelled([], ll, mu, cu), Global(LabelsAt(ll)))
  {
    var log := Labelled([], ll, mu, cu);
    var x: nat := if ll == cu then 0 else 2;
    var j := x + 3;
    assert log[x].kind == Kernel(0, 0) && log[x + 1].queue == mu && log[x + 2].queue == cu;
    assert log[j].kind == Copy && log[j].queue != ll && LabelsAt(ll) in log[j].globals;
    var inside := set w: nat | w <= j && (w < x || log[w].queue != ll);
    forall i: nat, w: nat | i in inside && i < |log| && w < i && Needs(log, i, w)
      ensures w in inside
    {
    }
    NotLed(log, inside, x, j);
    assert On(log[x], Global(LabelsAt(ll))) && On(log[j], Global(LabelsAt(ll)));
  }

  /** All buffers are worked on in the order of the program in every schedule if and only if the three stages share one
      queue. */
  lemma InOrderIff(m: nat, ll: nat, mu: nat, cu: nat)
    requires m > 0
    ensures (forall p :: AlwaysInOrder(Log(m, ll, mu, cu), p)) <==> ll == mu == cu
  {
    hide AlwaysInOrder, Ordered, Log, Labelled, Backward;
    var log := Log(m, ll, mu, cu);
    LogBackward(m, ll, mu, cu);
    if ll == mu == cu {
      OneQueue(m, ll);
      forall p
        ensures AlwaysInOrder(log, p)
      {
        AllOnIsOrdered(log, ll, p);
        OrderedIff(log, p);
      }
    } else {
      LabelsCopiedEarly(ll, mu, cu);
      LogGrows(m, ll, mu, cu);
      StillBroken(Labelled([], ll, mu, cu), log, Global(LabelsAt(ll)));
      OrderedIff(log, Global(LabelsAt(ll)));
    }
  }
}
