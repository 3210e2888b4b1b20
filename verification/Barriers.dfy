/** A barrier inside a loop is met by all work-items of a group only if all of them make the same steps. */
module Barriers {
  import opened Indices
  import opened Strides

  /** The loop makes step number t. */
  ghost predicate Makes(l: Loop, v: nat, t: nat) {
    v * (l.first + l.stride * t) < l.bound
  }

  /** Any two work-items of a group make the same steps. */
  ghost predicate InStep(groups: nat, local: nat, localStride: bool, v: nat, n: nat)
    requires v > 0
  {
    forall a: Item, b: Item, t: nat ::
      a.Valid() && b.Valid() && a.groups == b.groups == groups && a.local == b.local == local && a.group == b.group ==>
        (Makes(LoopOf(a, localStride, v, n), v, t) <==> Makes(LoopOf(b, localStride, v, n), v, t))
  }

  /** Thread lid of a group that has `vectors` vectors makes step t. */
  predicate HasStep(vectors: nat, local: nat, lid: nat, t: nat) {
    lid + local * t < vectors
  }

  lemma StepsOfAll(vectors: nat, local: nat, a: nat, b: nat, t: nat)
    requires a < local && b < local && vectors % local == 0
    ensures HasStep(vectors, local, a, t) <==> HasStep(vectors, local, b, t)
  {
    Split(vectors, local);
    var m := vectors / local;
    if t < m {
      Monotone(t + 1, m, local);
      Distribute(local, t, 1);
    } else {
      Monotone(m, t, local);
    }
  }

  /** The step in which the first thread still has a vector and the last one has none. */
  lemma LastStepOfFirst(vectors: nat, local: nat) returns (t: nat)
    requires local > 0 && vectors % local != 0
    ensures t == vectors / local && HasStep(vectors, local, 0, t) && !HasStep(vectors, local, local - 1, t)
  {
    Split(vectors, local);
    t := vectors / local;
  }

  // ---------- loops over the whole launch ----------

  /** In step t of the group, its threads are thread 0 and onwards in a row of local many, number group + groups * t. */
  lemma MakesGlobal(it: Item, v: nat, n: nat, t: nat)
    requires 0 < v <= n + 1 && it.Valid()
    ensures it.group + it.groups * t >= 0 && n / v >= 0
    ensures Makes(LoopOf(it, false, v, n), v, t) <==> HasStep(n / v, it.local, it.lid, it.group + it.groups * t)
  {
    var l, w := LoopOf(it, false, v, n), it.lid + it.local * (it.group + it.groups * t);
    Product(it.groups, t);
    Product(it.local, it.group + it.groups * t);
    Distribute(it.local, it.group, it.groups * t);
    Associate(it.local, it.groups, t);
    assert l.first + l.stride * t == w;
    WholeVector(w, v, n);
  }

  lemma WholeVector(w: nat, v: nat, n: nat)
    requires v > 0
    ensures v * w < n - v + 1 <==> w < n / v
  {
    Split(n, v);
    Distribute(v, w, 1);
    if w < n / v {
      Monotone(w + 1, n / v, v);
    } else {
      Monotone(n / v, w, v);
    }
  }

  /** With loops over the whole launch, barriers are met exactly if the whole vectors fill up rows of local many. */
  lemma GlobalInStepIff(groups: nat, local: nat, v: nat, n: nat)
    requires 0 < v <= n + 1 && groups > 0 && local > 0
    ensures InStep(groups, local, false, v, n) <==> n / v % local == 0
  {
    hide Makes, LoopOf;
    Split(n, v);
    var N := n / v;
    if N % local == 0 {
      forall a: Item, b: Item, t: nat |
          a.Valid() && b.Valid() && a.groups == b.groups == groups && a.local == b.local == local && a.group == b.group
        ensures Makes(LoopOf(a, false, v, n), v, t) <==> Makes(LoopOf(b, false, v, n), v, t)
      {
        MakesGlobal(a, v, n, t);
        MakesGlobal(b, v, n, t);
        StepsOfAll(N, local, a.lid, b.lid, a.group + groups * t);
      }
    } else {
      var row := LastStepOfFirst(N, local);
      Split(N, local);
      Split(row, groups);
      var a, b := Item(row % groups, 0, groups, local), Item(row % groups, local - 1, groups, local);
      MakesGlobal(a, v, n, row / groups);
      MakesGlobal(b, v, n, row / groups);
      assert !(Makes(LoopOf(a, false, v, n), v, row / groups) <==> Makes(LoopOf(b, false, v, n), v, row / groups));
    }
  }

  // ---------- loops over the block of a work-group ----------

  /** The vectors of a group: those of its block, as far as there are any. */
  function VectorsIn(group: nat, d: nat, vectors: nat): nat {
    if group * d + d <= vectors then d else if group * d < vectors then vectors - group * d else 0
  }

  lemma MakesLocal(it: Item, v: nat, n: nat, t: nat)
    requires v > 0 && it.Valid() && Inside(it.groups, v, n)
    ensures n / v >= 0
    ensures Makes(LoopOf(it, true, v, n), v, t) <==>
            HasStep(VectorsIn(it.group, VectorsOf(it.groups, v, n), n / v), it.local, it.lid, t)
  {
    hide VectorsOf, BlockSize, LocalLoop, Inside, BlockEnd;
    var d := VectorsOf(it.groups, v, n);
    VectorsOfIs(it, v, n);
    LocalLoopIs(it, v, n);
    LocalFits(it, v, n);
    Product(it.local, t);
    Split(n, v);
    var from, w := it.group * d, it.group * d + it.lid + it.local * t;
    EndOfBlock(from, w, d, v, n);
  }

  /** As far as vectors are whole, the loop goes on until the end of the block or of the vectors. */
  lemma EndOfBlock(from: nat, w: nat, d: nat, v: nat, n: nat)
    requires v > 0 && from <= w && (v * w < BlockEnd(from, d, v, n) ==> v * w + v <= n)
    ensures v * w < BlockEnd(from, d, v, n) <==> w < from + d && w < n / v
  {
    Split(n, v);
    Distribute(v, w, 1);
    Distribute(v, from, d);
    Monotone(from, w, v);
    if w < n / v {
      Monotone(w + 1, n / v, v);
    } else {
      Monotone(n / v, w, v);
    }
    if w < from + d {
      Monotone(w + 1, from + d, v);
    } else {
      Monotone(from + d, w, v);
    }
  }

  /** Blocks are rows of local many vectors, and so are the vectors of a block that is cut short. */
  ghost predicate WholeRows(groups: nat, d: nat, vectors: nat, local: nat)
    requires local > 0
  {
    if vectors < groups * d then vectors % local == 0 && (vectors <= d || d % local == 0) else d % local == 0
  }

  /** With loops over the block of the work-group, barriers are met exactly if all blocks are whole rows. */
  lemma LocalInStepIff(groups: nat, local: nat, v: nat, n: nat)
    requires v > 0 && groups > 0 && local > 0 && Inside(groups, v, n)
    ensures InStep(groups, local, true, v, n) <==> WholeRows(groups, VectorsOf(groups, v, n), n / v, local)
  {
    hide Makes, LoopOf, VectorsOf, VectorsIn, WholeRows, Inside;
    Split(n, v);
    var N, d := n / v, VectorsOf(groups, v, n);
    if WholeRows(groups, d, N, local) {
      forall a: Item, b: Item, t: nat |
          a.Valid() && b.Valid() && a.groups == b.groups == groups && a.local == b.local == local && a.group == b.group
        ensures Makes(LoopOf(a, true, v, n), v, t) <==> Makes(LoopOf(b, true, v, n), v, t)
      {
        MakesLocal(a, v, n, t);
        MakesLocal(b, v, n, t);
        RowsOfGroup(groups, d, N, local, a.group);
        StepsOfAll(VectorsIn(a.group, d, N), local, a.lid, b.lid, t);
      }
    } else {
      var group := BrokenRow(groups, d, N, local);
      var t := LastStepOfFirst(VectorsIn(group, d, N), local);
      var a, b := Item(group, 0, groups, local), Item(group, local - 1, groups, local);
      MakesLocal(a, v, n, t);
      MakesLocal(b, v, n, t);
      assert !(Makes(LoopOf(a, true, v, n), v, t) <==> Makes(LoopOf(b, true, v, n), v, t));
    }
  }

  lemma RowsOfGroup(groups: nat, d: nat, vectors: nat, local: nat, group: nat)
    requires local > 0 && group < groups && WholeRows(groups, d, vectors, local)
    ensures VectorsIn(group, d, vectors) % local == 0
  {
    Product(group, d);
    Monotone(group + 1, groups, d);
    Distribute(d, group, 1);
    DivMod(local, 0, 0);
    if group * d + d > vectors && group * d < vectors {
      if group > 0 {
        Monotone(1, group, d);
        WholeRowsBefore(group, d, local);
      }
      RestOfRows(group * d, vectors, local);
    }
  }

  /** Whole rows before leave whole rows behind. */
  lemma RestOfRows(from: nat, vectors: nat, local: nat)
    requires local > 0 && from <= vectors && vectors % local == 0 && from % local == 0
    ensures (vectors - from) % local == 0
  {
    Split(from, local);
    Split(vectors, local);
    Distribute(local, from / local, vectors / local - from / local);
    DivMod(local, vectors / local - from / local, 0);
  }

  lemma WholeRowsBefore(group: nat, d: nat, local: nat)
    requires local > 0 && d % local == 0
    ensures group * d >= 0 && group * d % local == 0
  {
    Split(d, local);
    var m := d / local;
    Associate(group, local, m);
    Associate(local, group, m);
    Product(group, m);
    Product(group, d);
    DivMod(local, group * m, 0);
  }

  /** A group whose vectors are not whole rows. */
  lemma BrokenRow(groups: nat, d: nat, vectors: nat, local: nat) returns (group: nat)
    requires local > 0 && groups > 0 && !WholeRows(groups, d, vectors, local)
    ensures group < groups && VectorsIn(group, d, vectors) % local != 0
  {
    Monotone(1, groups, d);
    group := 0;
    if vectors < groups * d && vectors > d && d % local == 0 {
      QuotientBelow(vectors, d, groups);
      Split(vectors, d);
      group := vectors / d;
      WholeRowsBefore(group, d, local);
      if vectors % d % local == 0 {
        SumOfRows(group * d, vectors % d, local);
      }
      DivMod(local, 0, 0);
    }
  }

  lemma SumOfRows(a: nat, b: nat, local: nat)
    requires local > 0 && a % local == 0 && b % local == 0
    ensures (a + b) % local == 0
  {
    Split(a, local);
    Split(b, local);
    Distribute(local, a / local, b / local);
    DivMod(local, a / local + b / local, 0);
  }

  /** One group of two rows and three points: the first row makes two steps, the second one only one. */
  lemma SomeBarriersAreMissed()
    ensures Covers(1, 2, false, 1, 3) && !InStep(1, 2, false, 1, 3)
  {
    GlobalCoversIff(1, 2, 1, 3);
    GlobalInStepIff(1, 2, 1, 3);
  }
}
