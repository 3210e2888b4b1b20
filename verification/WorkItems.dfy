/** Work-items of a launch, or of a phase between two barriers, interleave in any way, down to single loads and stores.
    When no one touches what another one writes, the interleaving does not matter. */
module WorkItems {

  /** A register file of a work-item. */
  type Regs = seq<real>

  /** One load, store or computation: what it does to the registers and to the memory. */
  type Step = (Regs, seq<real>) -> (Regs, seq<real>)

  /** The programs of the work-items. */
  type Programs = seq<seq<Step>>

  /** Cell c belongs to work-item own(c); the cells of nobody (-1) are only read. */
  type Ownership = int -> int

  ghost predicate Agree(own: Ownership, i: int, a: seq<real>, b: seq<real>) {
    |a| == |b| && forall c :: 0 <= c < |a| && (own(c) == i || own(c) == -1) ==> a[c] == b[c]
  }

  /** A step of work-item i depends only on cells that are its own or nobody's, and writes only its own. */
  ghost predicate Confined(step: Step, own: Ownership, i: int) {
    && (forall regs, a {:trigger step(regs, a)} ::
          |step(regs, a).1| == |a| && forall c :: 0 <= c < |a| && own(c) != i ==> step(regs, a).1[c] == a[c])
    && (forall regs, a, b {:trigger step(regs, a), step(regs, b)} ::
          Agree(own, i, a, b) ==>
            step(regs, a).0 == step(regs, b).0 && Agree(own, i, step(regs, a).1, step(regs, b).1))
  }

  ghost predicate AllConfined(programs: Programs, own: Ownership) {
    forall i, k :: 0 <= i < |programs| && 0 <= k < |programs[i]| ==> Confined(programs[i][k], own, i)
  }

  /** Who has got how far, with which registers, and the memory all of them share. */
  datatype State = State(pc: seq<nat>, regs: seq<Regs>, mem: seq<real>)

  ghost predicate Ready(programs: Programs, s: State) {
    |s.pc| == |s.regs| == |programs| && forall i :: 0 <= i < |programs| ==> s.pc[i] <= |programs[i]|
  }

  /** A schedule names work-items only. */
  ghost predicate Turns(schedule: seq<nat>, items: nat) {
    forall m :: 0 <= m < |schedule| ==> schedule[m] < items
  }

  /** Work-item i makes its next step, if it has one left. */
  ghost function Turn(programs: Programs, s: State, i: nat): (t: State)
    requires Ready(programs, s) && i < |programs|
    ensures Ready(programs, t)
  {
    if s.pc[i] == |programs[i]| then s
    else
      var r := programs[i][s.pc[i]](s.regs[i], s.mem);
      State(s.pc[i := s.pc[i] + 1], s.regs[i := r.0], r.1)
  }

  /** The work-items take turns as the schedule says. */
  ghost function Interleave(programs: Programs, s: State, schedule: seq<nat>): (t: State)
    requires Ready(programs, s) && Turns(schedule, |programs|)
    ensures Ready(programs, t)
  {
    if schedule == [] then s
    else Turn(programs, Interleave(programs, s, schedule[..|schedule| - 1]), schedule[|schedule| - 1])
  }

  /** The first k steps of one work-item, with the launch to itself. */
  ghost function Alone(program: seq<Step>, regs: Regs, mem: seq<real>, k: nat): (Regs, seq<real>)
    requires k <= |program|
  {
    if k == 0 then (regs, mem)
    else
      var r := Alone(program, regs, mem, k - 1);
      program[k - 1](r.0, r.1)
  }

  /** Whatever the schedule, every work-item finds its registers and its cells as if it had run alone, and the cells of
      nobody as they were. */
  lemma {:induction false} RunsAsIfAlone(programs: Programs, own: Ownership, s: State, schedule: seq<nat>, i: nat)
    requires Ready(programs, s) && AllConfined(programs, own) && i < |programs|
    requires Turns(schedule, |programs|)
    requires forall x :: 0 <= x < |programs| ==> s.pc[x] == 0
    ensures var t := Interleave(programs, s, schedule);
            var solo := Alone(programs[i], s.regs[i], s.mem, t.pc[i]);
            t.regs[i] == solo.0 && Agree(own, i, t.mem, solo.1)
  {
    hide Confined;
    if schedule != [] {
      var init, x := schedule[..|schedule| - 1], schedule[|schedule| - 1];
      RunsAsIfAlone(programs, own, s, init, i);
      var u := Interleave(programs, s, init);
      if u.pc[x] < |programs[x]| {
        var step := programs[x][u.pc[x]];
        if x == i {
          ConfinedAgrees(step, own, i, u.regs[i], u.mem, Alone(programs[i], s.regs[i], s.mem, u.pc[i]).1);
        } else {
          ConfinedLeaves(step, own, x, i, u.regs[x], u.mem);
        }
      }
    }
  }

  lemma ConfinedAgrees(step: Step, own: Ownership, i: int, regs: Regs, a: seq<real>, b: seq<real>)
    requires Confined(step, own, i) && Agree(own, i, a, b)
    ensures step(regs, a).0 == step(regs, b).0 && Agree(own, i, step(regs, a).1, step(regs, b).1)
  {
  }

  lemma ConfinedLeaves(step: Step, own: Ownership, x: int, i: int, regs: Regs, a: seq<real>)
    requires Confined(step, own, x) && x != i && x >= 0
    ensures Agree(own, i, step(regs, a).1, a)
  {
  }

  /** Two schedules that let everybody finish leave the same memory, so the launch means what running the work-items
      one after the other means. */
  lemma AnyScheduleWillDo(programs: Programs, own: Ownership, s: State, one: seq<nat>, other: seq<nat>)
    requires Ready(programs, s) && AllConfined(programs, own)
    requires |programs| > 0 && Turns(one, |programs|) && Turns(other, |programs|)
    requires forall x :: 0 <= x < |programs| ==> s.pc[x] == 0
    requires forall c :: 0 <= c < |s.mem| ==> -1 <= own(c) < |programs|
    requires var t, u := Interleave(programs, s, one), Interleave(programs, s, other);
             forall x :: 0 <= x < |programs| ==> t.pc[x] == u.pc[x] == |programs[x]|
    ensures Interleave(programs, s, one).mem == Interleave(programs, s, other).mem
  {
    hide Interleave, AllConfined, Alone;
    var t, u := Interleave(programs, s, one), Interleave(programs, s, other);
    SizeStays(programs, own, s, one);
    SizeStays(programs, own, s, other);
    forall c | 0 <= c < |t.mem|
      ensures t.mem[c] == u.mem[c]
    {
      var i := if own(c) >= 0 then own(c) else 0;
      RunsAsIfAlone(programs, own, s, one, i);
      RunsAsIfAlone(programs, own, s, other, i);
    }
  }

  lemma {:induction false} SizeStays(programs: Programs, own: Ownership, s: State, schedule: seq<nat>)
    requires Ready(programs, s) && AllConfined(programs, own) && Turns(schedule, |programs|)
    ensures |Interleave(programs, s, schedule).mem| == |s.mem|
  {
    if schedule != [] {
      SizeStays(programs, own, s, schedule[..|schedule| - 1]);
    }
  }
}
