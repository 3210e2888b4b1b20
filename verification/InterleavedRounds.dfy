/** A round of the reduction with its loads and stores interleaved in any way: it folds the matrix all the same. */
module InterleavedRounds {
  import opened ColumnMajor
  import opened WorkItems
  import opened ReduceVectorParcol

  /** Loads a cell into the register. */
  function DoLoad(c: int, regs: Regs, mem: seq<real>): (Regs, seq<real>) {
    ([At(mem, c)], mem)
  }

  /** Adds a cell to the register. */
  function DoAdd(c: int, regs: Regs, mem: seq<real>): (Regs, seq<real>) {
    ([At(regs, 0) + At(mem, c)], mem)
  }

  /** Stores the register. */
  function DoStore(c: int, regs: Regs, mem: seq<real>): (Regs, seq<real>) {
    (regs, if 0 <= c < |mem| then mem[c := At(regs, 0)] else mem)
  }

  function Load(c: int): Step {
    (regs, mem) => DoLoad(c, regs, mem)
  }

  function AddFrom(c: int): Step {
    (regs, mem) => DoAdd(c, regs, mem)
  }

  function Store(c: int): Step {
    (regs, mem) => DoStore(c, regs, mem)
  }

  /** Work-item i adds cell half + i to cell i, one memory access at a time. */
  function FoldProgram(half: nat, i: nat): seq<Step> {
    [Load(i), AddFrom(half + i), Store(i)]
  }

  function RoundPrograms(half: nat): (programs: Programs)
    ensures |programs| == half && forall i :: 0 <= i < half ==> programs[i] == FoldProgram(half, i)
  {
    seq(half, i requires 0 <= i < half => FoldProgram(half, i))
  }

  /** Both cells that a work-item touches are its own, and the rest is nobody's. */
  ghost function RoundOwner(half: nat): Ownership {
    c => if 0 <= c < half then c else if half <= c < 2 * half then c - half else -1
  }

  lemma StepsAreConfined(half: nat, i: nat, c: int)
    requires i < half && RoundOwner(half)(c) == i
    ensures Confined(Load(c), RoundOwner(half), i)
    ensures Confined(AddFrom(c), RoundOwner(half), i)
    ensures Confined(Store(c), RoundOwner(half), i)
  {
    forall regs: Regs, a, b | Agree(RoundOwner(half), i, a, b)
      ensures At(a, c) == At(b, c)
      ensures Load(c)(regs, a).0 == Load(c)(regs, b).0 && AddFrom(c)(regs, a).0 == AddFrom(c)(regs, b).0
    {
      if 0 <= c < |a| {
        assert a[c] == b[c];
      }
    }
  }

  lemma RoundIsConfined(half: nat)
    ensures AllConfined(RoundPrograms(half), RoundOwner(half))
  {
    hide Confined, Load, AddFrom, Store;
    forall i, k | 0 <= i < half && 0 <= k < 3
      ensures Confined(RoundPrograms(half)[i][k], RoundOwner(half), i)
    {
      StepsAreConfined(half, i, i);
      StepsAreConfined(half, i, half + i);
    }
  }

  lemma FoldsAlone(half: nat, i: nat, mem: seq<real>)
    requires i < half && 2 * half <= |mem|
    ensures Alone(FoldProgram(half, i), [], mem, 3).1 == mem[i := mem[i] + mem[half + i]]
  {
    hide Load, AddFrom, Store, Alone;
    var first, second := mem[i], mem[i] + mem[half + i];
    StepsDo(mem, i, half + i);
    ThreeSteps(Load(i), AddFrom(half + i), Store(i), mem, [first], [second]);
  }

  lemma ThreeSteps(a: Step, b: Step, c: Step, mem: seq<real>, one: Regs, two: Regs)
    requires a([], mem) == (one, mem) && b(one, mem) == (two, mem)
    ensures Alone([a, b, c], [], mem, 3) == c(two, mem)
  {
    var program := [a, b, c];
    assert Alone(program, [], mem, 0) == ([], mem);
    assert Alone(program, [], mem, 1) == a([], mem);
    assert Alone(program, [], mem, 2) == b(one, mem);
  }

  lemma StepsDo(mem: seq<real>, i: nat, j: nat)
    requires i < |mem| && j < |mem|
    ensures Load(i)([], mem) == ([mem[i]], mem)
    ensures AddFrom(j)([mem[i]], mem) == ([mem[i] + mem[j]], mem)
    ensures Store(i)([mem[i] + mem[j]], mem).1 == mem[i := mem[i] + mem[j]]
  {
    assert DoLoad(i, [], mem).0 == [mem[i]];
    assert DoAdd(j, [mem[i]], mem).0 == [mem[i] + mem[j]];
  }

  /** Nobody has started yet. */
  function Start(half: nat, mem: seq<real>): State {
    State(seq(half, i => 0), seq(half, i => []), mem)
  }

  /** Whatever the schedule: once every work-item of the round is done, the first half has taken up the second, and
      nothing else has changed. */
  lemma RoundFolds(half: nat, mem: seq<real>, schedule: seq<nat>)
    requires half > 0 && 2 * half <= |mem| && Turns(schedule, half)
    requires forall x :: 0 <= x < half ==> Interleave(RoundPrograms(half), Start(half, mem), schedule).pc[x] == 3
    ensures var end := Interleave(RoundPrograms(half), Start(half, mem), schedule).mem;
            Folded(end, mem, half) && |end| == |mem| && forall c :: half <= c < |mem| ==> end[c] == mem[c]
  {
    hide Interleave, AllConfined, Confined, Alone;
    var programs, own := RoundPrograms(half), RoundOwner(half);
    var start := Start(half, mem);
    RoundIsConfined(half);
    SizeStays(programs, own, start, schedule);
    var end := Interleave(programs, start, schedule).mem;
    forall c | 0 <= c < half
      ensures end[c] == mem[c] + mem[half + c]
    {
      EndOf(half, mem, schedule, c, c);
    }
    forall c | half <= c < |mem|
      ensures end[c] == mem[c]
    {
      EndOf(half, mem, schedule, if c < 2 * half then c - half else 0, c);
    }
  }

  /** What work-item i leaves in a cell that is its own or nobody's. */
  lemma EndOf(half: nat, mem: seq<real>, schedule: seq<nat>, i: nat, c: nat)
    requires i < half && 2 * half <= |mem| && Turns(schedule, half) && c < |mem|
    requires RoundOwner(half)(c) == i || RoundOwner(half)(c) == -1
    requires forall x :: 0 <= x < half ==> Interleave(RoundPrograms(half), Start(half, mem), schedule).pc[x] == 3
    ensures var end := Interleave(RoundPrograms(half), Start(half, mem), schedule).mem;
            c < |end| && end[c] == mem[i := mem[i] + mem[half + i]][c]
  {
    hide Interleave, AllConfined, Confined, Alone;
    RoundIsConfined(half);
    SizeStays(RoundPrograms(half), RoundOwner(half), Start(half, mem), schedule);
    RunsAsIfAlone(RoundPrograms(half), RoundOwner(half), Start(half, mem), schedule, i);
    FoldsAlone(half, i, mem);
  }
}
