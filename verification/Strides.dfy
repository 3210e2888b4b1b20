/** How the strided loops of the kernels divide the points among work-items, and why partial sums over the work-items
    add up to the whole sum. */
module Strides {
  import opened Sums
  import opened Indices

  /** Work-item lid of a work-group. */
  datatype Item = Item(group: nat, lid: nat, groups: nat, local: nat) {
    ghost predicate Valid() {
      group < groups && lid < local
    }

    function Gid(): nat {
      group * local + lid
    }

    function GlobalSize(): nat {
      groups * local
    }
  }

  /** The loop p = v * first; p < bound; p += v * stride, whose step at p handles the points p, ..., p + v - 1. */
  datatype Loop = Loop(first: nat, stride: nat, bound: int)

  /** Some step of the loop handles point q. */
  ghost predicate Owns(l: Loop, v: nat, q: int)
    requires v > 0 && l.stride > 0
  {
    q >= 0 && q / v >= l.first && (q / v - l.first) % l.stride == 0 && v * (q / v) < l.bound
  }

  /** Every step of the loop stays below n. */
  ghost predicate Fits(l: Loop, v: nat, n: nat) {
    l.stride > 0 && forall w: nat {:trigger v * w} :: l.first <= w && v * w < l.bound ==> v * w + v <= n
  }

  // ---------- the two forms of the loop ----------

  function GlobalLoop(it: Item, v: nat, n: nat): Loop {
    Loop(it.Gid(), it.GlobalSize(), n - v + 1)
  }

  /** Points per work-group, rounded down to whole vectors. */
  function BlockSize(it: Item, v: nat, n: nat): nat
    requires v > 0 && it.groups > 0
  {
    var b := (n + it.groups - 1) / it.groups;
    b - b % v
  }

  function RealBlockSize(begin: nat, block: nat, n: nat): nat {
    if begin + block > n then (if n > begin then n - begin else 0) else block
  }

  function LocalLoop(it: Item, v: nat, n: nat): Loop
    requires v > 0 && it.groups > 0
  {
    var block := BlockSize(it, v, n);
    var begin := it.group * block;
    Product(it.group, block);
    Loop(begin / v + it.lid, it.local, begin + RealBlockSize(begin, block, n))
  }

  function LoopOf(it: Item, localStride: bool, v: nat, n: nat): (l: Loop)
    requires v > 0 && it.Valid()
    ensures l.stride > 0
  {
    Monotone(1, it.local, it.groups);
    if localStride then LocalLoop(it, v, n) else GlobalLoop(it, v, n)
  }

  /** What a kernel computes before its loop. */
  method StartLoop(it: Item, local_stride: bool, v: nat, n: nat) returns (start: nat, bound: nat, step: nat)
    requires v > 0 && it.Valid() && (local_stride || v <= n + 1)
    ensures var l := LoopOf(it, local_stride, v, n);
            start == v * l.first && bound == l.bound && step == v * l.stride
  {
    if local_stride {
      var block_size := (n + it.groups - 1) / it.groups;
      block_size := block_size - block_size % v;
      Product(it.group, block_size);
      var group_start_offset := it.group * block_size;
      BlockStart(it, v, n);
      Distribute(v, group_start_offset / v, it.lid);
      Product(v, it.lid);
      Product(v, it.local);
      start := group_start_offset + v * it.lid;
      var real_block_size := RealBlockSize(group_start_offset, block_size, n);
      bound, step := group_start_offset + real_block_size, v * it.local;
    } else {
      Product(v, it.Gid());
      Product(v, it.GlobalSize());
      start, bound, step := it.Gid() * v, n - v + 1, v * it.GlobalSize();
    }
  }

  /** Blocks consist of whole vectors. */
  lemma BlockStart(it: Item, v: nat, n: nat)
    requires v > 0 && it.groups > 0
    ensures var block := BlockSize(it, v, n);
            block == v * (block / v) && it.group * block == v * (it.group * (block / v))
            && it.group * block / v == it.group * (block / v)
  {
    var b := (n + it.groups - 1) / it.groups;
    var d := b / v;
    Split(b, v);
    DivMod(v, d, 0);
    Associate(it.group, d, v);
    Product(it.group, d);
    DivMod(v, it.group * d, 0);
  }

  // ---------- who owns a point ----------

  lemma GlobalFits(it: Item, v: nat, n: nat)
    requires v > 0 && it.Valid()
    ensures Fits(GlobalLoop(it, v, n), v, n)
  {
    Monotone(1, it.local, it.groups);
  }

  lemma {:induction false} GlobalOwns(it: Item, v: nat, n: nat, q: nat)
    requires v > 0 && it.Valid()
    ensures it.GlobalSize() > it.Gid()
    ensures Owns(GlobalLoop(it, v, n), v, q) <==> v * (q / v) + v <= n && q / v % it.GlobalSize() == it.Gid()
  {
    var gs, gid := it.GlobalSize(), it.Gid();
    InMatrix(it.lid, it.group, it.local, it.groups);
    SameResidue(q / v, gid, gs);
  }

  /** w is reached from a by steps of d exactly when it is a modulo d and not below a. */
  lemma SameResidue(w: nat, a: nat, d: nat)
    requires a < d
    ensures w >= a && (w - a) % d == 0 <==> w % d == a
  {
    Split(w, d);
    if w >= a {
      Split(w - a, d);
      if (w - a) % d == 0 {
        UniqueQuotient(d, (w - a) / d, a, w / d, w % d);
      }
      if w % d == a {
        DivMod(d, w / d, 0);
      }
    } else if w % d == a {
      Product(d, w / d);
    }
  }

  /** The work-groups together reach the end when each of them works on its own block. */
  ghost predicate BlocksCover(it: Item, v: nat, n: nat)
    requires v > 0 && it.groups > 0
  {
    n <= it.groups * BlockSize(it, v, n)
  }

  /** The blocks hold whole vectors only: there is no broken one, or it lies behind all blocks. */
  ghost predicate Inside(groups: nat, v: nat, n: nat)
    requires v > 0 && groups > 0
  {
    n % v == 0 || Behind(n / v, groups, VectorsOf(groups, v, n))
  }

  /** Vectors in the block of each work-group. */
  function VectorsOf(groups: nat, v: nat, n: nat): nat
    requires v > 0 && groups > 0
  {
    Split(BlockSize(Item(0, 0, groups, 1), v, n), v);
    BlockSize(Item(0, 0, groups, 1), v, n) / v
  }

  /** Vector w lies behind all blocks of d vectors. */
  ghost predicate Behind(w: int, groups: nat, d: nat) {
    w >= groups * d
  }

  lemma VectorsOfIs(it: Item, v: nat, n: nat)
    requires v > 0 && it.groups > 0
    ensures VectorsOf(it.groups, v, n) == BlockSize(it, v, n) / v
  {
    SameBlockSize(it, v, n);
  }

  lemma LocalFits(it: Item, v: nat, n: nat)
    requires v > 0 && it.Valid() && Inside(it.groups, v, n)
    ensures Fits(LocalLoop(it, v, n), v, n)
  {
    hide BlockSize, LocalLoop, BlockEnd, Behind, VectorsOf;
    var l, d := LocalLoop(it, v, n), VectorsOf(it.groups, v, n);
    VectorsOfIs(it, v, n);
    LocalLoopIs(it, v, n);
    forall w: nat | l.first <= w && v * w < l.bound
      ensures v * w + v <= n
    {
      WholeInBlock(w, v, it.group, it.groups, d, n);
    }
  }

  /** The loop of a work-item in a block of d vectors. */
  lemma LocalLoopIs(it: Item, v: nat, n: nat)
    requires v > 0 && it.groups > 0
    ensures var l, d := LocalLoop(it, v, n), BlockSize(it, v, n) / v;
            && it.group * d >= 0 && l.first == it.group * d + it.lid && l.stride == it.local
            && l.bound == BlockEnd(it.group * d, d, v, n)
  {
    hide BlockSize;
    BlockStart(it, v, n);
    Product(it.group, BlockSize(it, v, n) / v);
  }

  /** Where the loop over a block of d vectors ends that begins with vector number `from`. */
  function BlockEnd(from: int, d: nat, v: nat, n: nat): int {
    if v * from + v * d > n then (if n > v * from then n else v * from) else v * from + v * d
  }

  lemma WholeInBlock(w: nat, v: nat, group: nat, groups: nat, d: nat, n: nat)
    requires v > 0 && group < groups && (n % v == 0 || Behind(n / v, groups, d))
    requires v * w < BlockEnd(group * d, d, v, n) && w >= group * d
    ensures v * w + v <= n
  {
    Product(group, d);
    var from := group * d;
    Monotone(from, w, v);
    Distribute(v, w, 1);
    Split(n, v);
    if n / v <= w {
      Monotone(n / v, w, v);
      Monotone(group + 1, groups, d);
      Distribute(d, group, 1);
      Monotone(from + d, w, v);
      Distribute(v, from, d);
    } else {
      Monotone(w + 1, n / v, v);
    }
  }

  /** The steps that a loop makes stay below n. */
  ghost predicate StepsInside(l: Loop, v: nat, n: nat)
    requires l.stride > 0
  {
    forall w: nat :: IsStep(l, w) && v * w < l.bound ==> v * w + v <= n
  }

  /** No work-item reads or writes behind the points exactly if the blocks hold whole vectors only. */
  lemma InsideIff(groups: nat, local: nat, v: nat, n: nat)
    requires v > 0 && groups > 0 && local > 0
    ensures (forall it: Item :: it.Valid() && it.groups == groups && it.local == local ==>
               LocalLoop(it, v, n).stride > 0 && StepsInside(LocalLoop(it, v, n), v, n))
            <==> Inside(groups, v, n)
  {
    hide BlockSize, LocalLoop, Inside;
    if Inside(groups, v, n) {
      forall it: Item | it.Valid() && it.groups == groups && it.local == local
        ensures LocalLoop(it, v, n).stride > 0 && StepsInside(LocalLoop(it, v, n), v, n)
      {
        LocalLoopIs(it, v, n);
        LocalFits(it, v, n);
      }
    } else {
      var it := BrokenStep(groups, local, v, n);
    }
  }

  /** Otherwise some work-item steps on the broken vector. */
  lemma BrokenStep(groups: nat, local: nat, v: nat, n: nat) returns (it: Item)
    requires v > 0 && groups > 0 && local > 0 && !Inside(groups, v, n)
    ensures it.Valid() && it.groups == groups && it.local == local && LocalLoop(it, v, n).stride > 0
    ensures !StepsInside(LocalLoop(it, v, n), v, n)
  {
    hide BlockSize, LocalLoop, Owns, IsStep, BlockEnd, Behind, VectorsOf;
    var w, d := n / v, VectorsOf(groups, v, n);
    BrokenVector(n, v);
    it := ItemAt(w, d, groups, local);
    VectorsOfIs(it, v, n);
    LocalLoopIs(it, v, n);
    LocalOwns(it, v, n, v * w);
    OwnedStep(LocalLoop(it, v, n), v, w);
  }

  lemma BrokenVector(n: nat, v: nat)
    requires v > 0 && n % v != 0
    ensures n / v >= 0 && 0 <= v * (n / v) < n < v * (n / v) + v && v * (n / v) / v == n / v
  {
    Split(n, v);
    Product(v, n / v);
    DivMod(v, n / v, 0);
  }

  lemma OwnedStep(l: Loop, v: nat, w: nat)
    requires v > 0 && l.stride > 0 && 0 <= v * w && Owns(l, v, v * w)
    ensures IsStep(l, w) && v * w < l.bound
  {
    DivMod(v, w, 0);
  }

  lemma ItemAt(w: nat, d: nat, groups: nat, local: nat) returns (it: Item)
    requires !Behind(w, groups, d) && local > 0
    ensures it.Valid() && it.groups == groups && it.local == local && d > 0
    ensures w / d == it.group && w % d % local == it.lid
  {
    QuotientBelow(w, d, groups);
    Split(w, d);
    Split(w % d, local);
    it := Item(w / d, w % d % local, groups, local);
  }

  /** The quotients behind the place of point q: its vector, and the place of that vector in its block of d vectors. */
  lemma BlockOf(q: nat, v: nat, d: nat)
    requires v > 0 && d > 0
    ensures v * d > 0 && q / (v * d) == q / v / d && q % (v * d) / v == q / v % d
    ensures q / v == d * (q / (v * d)) + q % (v * d) / v
  {
    Monotone(1, d, v);
    var w, r := q / v, q % v;
    Split(q, v);
    Split(w, d);
    var s := v * (w % d) + r;
    Associate(v, d, w / d);
    Distribute(v, w % d, d * (w / d));
    Monotone(w % d + 1, d, v);
    Distribute(v, w % d, 1);
    Product(v, w % d);
    DivMod(v * d, w / d, s);
    DivMod(v, w % d, r);
  }

  /** The loop of a work-item in its block handles the vectors of the block whose position is the local id, modulo the
      local size. */
  lemma LocalOwns(it: Item, v: nat, n: nat, q: nat)
    requires v > 0 && it.Valid() && q < n
    ensures var d := BlockSize(it, v, n) / v;
            Owns(LocalLoop(it, v, n), v, q) <==> d > 0 && q / v / d == it.group && q / v % d % it.local == it.lid
  {
    hide BlockSize, LocalLoop, BlockEnd;
    var block := BlockSize(it, v, n);
    var l, d, w := LocalLoop(it, v, n), block / v, q / v;
    LocalLoopIs(it, v, n);
    Split(q, v);
    InBlock(w, v, it.group, d, n);
    if d > 0 && w >= it.group * d && w < it.group * d + d {
      DivMod(d, it.group, w - it.group * d);
      SameResidue(w - it.group * d, it.lid, it.local);
    } else if d > 0 {
      Split(w, d);
      Distribute(d, w / d, 1);
    }
  }

  lemma VectorInside(q: nat, v: nat, n: nat)
    requires v > 0 && q < n && n % v == 0
    ensures v * (q / v) + v <= n
  {
    Split(q, v);
    Split(n, v);
    Distribute(v, q / v, 1);
    if q / v >= n / v {
      Monotone(n / v, q / v, v);
    } else {
      Monotone(q / v + 1, n / v, v);
    }
  }

  /** The bound of a block cuts off what lies after the block. */
  lemma InBlock(w: nat, v: nat, group: nat, d: nat, n: nat)
    requires v > 0 && v * w < n
    ensures w >= group * d ==> (v * w < BlockEnd(group * d, d, v, n) <==> w < group * d + d)
  {
    Product(group, d);
    var from := group * d;
    Distribute(v, from, d);
    if w >= from {
      Monotone(from, w, v);
      if w < from + d {
        Monotone(w + 1, from + d, v);
        Distribute(v, w, 1);
      } else {
        Monotone(from + d, w, v);
      }
    }
  }

  // ---------- every point once ----------

  /** The work-item that handles vector w when blocks have d vectors; -1 when none does. */
  function PlaceOf(w: nat, d: nat, groups: nat, local: nat): int
    requires local > 0
  {
    if d > 0 && w / d < groups then w / d * local + w % d % local else -1
  }

  lemma PlaceIs(w: nat, d: nat, it: Item)
    requires it.Valid()
    ensures PlaceOf(w, d, it.groups, it.local) == it.Gid() <==> d > 0 && w / d == it.group && w % d % it.local == it.lid
    ensures PlaceOf(w, d, it.groups, it.local) < it.GlobalSize()
    ensures PlaceOf(w, d, it.groups, it.local) >= 0 <==> d > 0 && w / d < it.groups
  {
    InMatrix(it.lid, it.group, it.local, it.groups);
    Product(it.group, it.local);
    if d > 0 && w / d < it.groups {
      var group, lid := w / d, w % d % it.local;
      Split(w, d);
      Split(w % d, it.local);
      InMatrix(lid, group, it.local, it.groups);
      Product(group, it.local);
      if group * it.local + lid == it.Gid() {
        UniqueQuotient(it.local, group, lid, it.group, it.lid);
      }
    }
  }

  /** The global id of the work-item that handles point q; -1 when none does. */
  function OwnerOf(groups: nat, local: nat, localStride: bool, v: nat, n: nat, q: nat): int
    requires v > 0 && groups > 0 && local > 0
  {
    Monotone(1, local, groups);
    if localStride then PlaceOf(q / v, BlockSize(Item(0, 0, groups, local), v, n) / v, groups, local)
    else if v * (q / v) + v <= n then q / v % (groups * local) else -1
  }

  /** Exactly the owner's loop handles a point, so no two work-items ever handle the same one. */
  lemma OwnerIs(it: Item, localStride: bool, v: nat, n: nat, q: nat)
    requires v > 0 && it.Valid() && q < n
    ensures Owns(LoopOf(it, localStride, v, n), v, q) <==>
            OwnerOf(it.groups, it.local, localStride, v, n, q) == it.Gid()
    ensures OwnerOf(it.groups, it.local, localStride, v, n, q) < it.GlobalSize()
  {
    hide Owns, BlockSize, LocalLoop, GlobalLoop, PlaceOf;
    Monotone(1, it.local, it.groups);
    if localStride {
      LocalOwns(it, v, n, q);
      SameBlockSize(it, v, n);
      PlaceIs(q / v, BlockSize(it, v, n) / v, it);
    } else {
      GlobalOwns(it, v, n, q);
    }
  }

  lemma SameBlockSize(it: Item, v: nat, n: nat)
    requires v > 0 && it.groups > 0
    ensures BlockSize(it, v, n) == BlockSize(Item(0, 0, it.groups, it.local), v, n)
  {
  }

  ghost predicate Covers(groups: nat, local: nat, localStride: bool, v: nat, n: nat)
    requires v > 0 && groups > 0 && local > 0
  {
    forall q: nat :: q < n ==> OwnerOf(groups, local, localStride, v, n, q) >= 0
  }

  /** The loops that stride over the whole launch handle every point exactly when the points are whole vectors. */
  lemma GlobalCoversIff(groups: nat, local: nat, v: nat, n: nat)
    requires v > 0 && groups > 0 && local > 0
    ensures Covers(groups, local, false, v, n) <==> n % v == 0
  {
    Monotone(1, local, groups);
    if n % v == 0 {
      forall q: nat | q < n
        ensures OwnerOf(groups, local, false, v, n, q) >= 0
      {
        VectorInside(q, v, n);
      }
    } else {
      Split(n, v);
      UniqueQuotient(v, n / v, n % v - 1, (n - 1) / v, (n - 1) % v);
      Product(v, n / v);
      assert OwnerOf(groups, local, false, v, n, n - 1) < 0;
    }
  }

  /** Those that stride over the block of their work-group do exactly when the blocks, which are rounded down to whole
      vectors, are long enough. */
  lemma LocalCoversIff(it: Item, v: nat, n: nat)
    requires v > 0 && it.groups > 0 && it.local > 0
    ensures Covers(it.groups, it.local, true, v, n) <==> BlocksCover(it, v, n)
  {
    hide BlockSize, PlaceOf;
    SameBlockSize(it, v, n);
    BlockStart(it, v, n);
    var d := BlockSize(it, v, n) / v;
    forall q: nat | q < n
      ensures OwnerOf(it.groups, it.local, true, v, n, q) >= 0 <==> d > 0 && q / v / d < it.groups
    {
      PlaceIs(q / v, d, Item(0, 0, it.groups, it.local));
    }
    Associate(it.groups, d, v);
    if BlocksCover(it, v, n) {
      forall q: nat | q < n
        ensures d > 0 && q / v / d < it.groups
      {
        WithinBlocks(q, v, d, it.groups);
      }
    } else {
      Product(it.groups, d);
      VectorFrom(n - 1, v, it.groups * d);
      if d > 0 {
        BeyondBlocks((n - 1) / v, d, it.groups);
      }
      assert OwnerOf(it.groups, it.local, true, v, n, n - 1) < 0;
    }
  }

  lemma VectorFrom(q: nat, v: nat, w: nat)
    requires v > 0 && v * w <= q
    ensures q / v >= w
  {
    Split(q, v);
    if q / v < w {
      Monotone(q / v + 1, w, v);
      Distribute(v, q / v, 1);
    }
  }

  /** Two work-groups and vectors of four: of twelve points, each work-group takes its six rounded down to four, and
      nobody takes point 8. */
  lemma BlocksMayFallShort()
    ensures 12 % 4 == 0 && !Covers(2, 1, true, 4, 12)
  {
    assert BlockSize(Item(0, 0, 2, 1), 4, 12) == 4;
    assert OwnerOf(2, 1, true, 4, 12, 8) < 0;
  }

  /** With vectors of two, nobody takes the last of five points. */
  lemma LastPointMayBeLeft()
    ensures !Covers(1, 1, false, 2, 5)
  {
    assert OwnerOf(1, 1, false, 2, 5, 4) < 0;
  }

  lemma WithinBlocks(q: nat, v: nat, d: nat, groups: nat)
    requires v > 0 && q < v * (groups * d)
    ensures d > 0 && q / v / d < groups
  {
    Product(groups, d);
    QuotientBelow(q, v, groups * d);
    QuotientBelow(q / v, d, groups);
  }

  lemma BeyondBlocks(w: nat, d: nat, groups: nat)
    requires d > 0
    ensures w >= groups * d ==> w / d >= groups
  {
    Split(w, d);
    if w / d < groups {
      Monotone(w / d + 1, groups, d);
      Distribute(d, w / d, 1);
    }
  }

  // ---------- shares of a sum ----------

  /** The part of f(0) + ... + f(n - 1) that falls to work-item i. */
  ghost function Share(n: nat, own: int -> int, i: int, f: int -> real): real {
    Sum(n, q => if own(q) == i then f(q) else 0.0)
  }

  /** The part that falls to anyone. */
  ghost function SumOwned(n: nat, own: int -> int, f: int -> real): real {
    Sum(n, q => if own(q) >= 0 then f(q) else 0.0)
  }

  /** The shares of all work-items add up to what falls to anyone. */
  lemma SharesAddUp(n: nat, own: int -> int, m: nat, f: int -> real)
    requires forall q :: 0 <= q < n ==> own(q) < m
    ensures Sum(m, i => Share(n, own, i, f)) == SumOwned(n, own, f)
  {
    var terms := (i, q) => if own(q) == i then f(q) else 0.0;
    var rows := i => Share(n, own, i, f);
    var cols := q => Sum(m, i => terms(i, q));
    var owned := q => if own(q) >= 0 then f(q) else 0.0;
    forall i | 0 <= i < m
      ensures rows(i) == Sum(n, q => terms(i, q))
    {
      SumCongruence(n, q => if own(q) == i then f(q) else 0.0, q => terms(i, q));
    }
    SumSwap(m, n, terms, rows, cols);
    forall q | 0 <= q < n
      ensures cols(q) == owned(q)
    {
      if own(q) >= 0 {
        OneTerm(m, own(q), f(q));
        SumCongruence(m, i => if own(q) == i then f(q) else 0.0, i => terms(i, q));
      } else {
        SumOfZeros(m, i => terms(i, q));
      }
    }
    SumCongruence(n, cols, owned);
  }

  /** When every index has an owner, that is the whole sum. */
  lemma AllOwned(n: nat, own: int -> int, f: int -> real)
    requires forall q :: 0 <= q < n ==> own(q) >= 0
    ensures SumOwned(n, own, f) == Sum(n, f)
  {
    SumCongruence(n, q => if own(q) >= 0 then f(q) else 0.0, f);
  }

  lemma OneTerm(m: nat, at: int, x: real)
    requires 0 <= at < m
    ensures Sum(m, i => if at == i then x else 0.0) == x
  {
    SumOfZeros(m, i => 0.0);
    SumBump(m, i => 0.0, i => if at == i then x else 0.0, at, x);
  }

  // ---------- progress of a loop ----------

  /** What the loop has to add from the points before m. */
  ghost function Part(l: Loop, v: nat, f: int -> real, m: nat): real
    requires v > 0 && l.stride > 0
  {
    Sum(m, q => if Owns(l, v, q) then f(q) else 0.0)
  }

  /** Vector w is handled by some step of the loop, if it is not beyond the bound. */
  ghost predicate IsStep(l: Loop, w: nat)
    requires l.stride > 0
  {
    w >= l.first && (w - l.first) % l.stride == 0
  }

  lemma Idle(l: Loop, v: nat, f: int -> real, a: nat, b: nat)
    requires v > 0 && l.stride > 0 && a <= b
    requires forall q :: a <= q < b ==> !Owns(l, v, q)
    ensures Part(l, v, f, b) == Part(l, v, f, a)
  {
    var g := q => if Owns(l, v, q) then f(q) else 0.0;
    SumSplit(a, b - a, g, q => 0.0);
    SumOfZeros(b - a, q => 0.0);
  }

  lemma PartBegins(l: Loop, v: nat, f: int -> real)
    requires v > 0 && l.stride > 0
    ensures v * l.first >= 0 && Part(l, v, f, v * l.first) == 0.0
  {
    Product(v, l.first);
    forall q | 0 <= q < v * l.first
      ensures !Owns(l, v, q)
    {
      QuotientBelow(q, v, l.first);
    }
    Idle(l, v, f, 0, v * l.first);
  }

  /** One lane of one step. */
  lemma PartLane(l: Loop, v: nat, f: int -> real, w: nat, lane: nat)
    requires v > 0 && l.stride > 0 && IsStep(l, w) && v * w < l.bound && lane < v
    ensures v * w >= 0 && Part(l, v, f, v * w + lane + 1) == Part(l, v, f, v * w + lane) + f(v * w + lane)
  {
    Product(v, w);
    DivMod(v, w, lane);
    assert Owns(l, v, v * w + lane);
  }

  /** Nothing between one step and the next. */
  lemma PartSkips(l: Loop, v: nat, f: int -> real, w: nat)
    requires v > 0 && l.stride > 0 && IsStep(l, w)
    ensures IsStep(l, w + l.stride)
    ensures 0 <= v * w + v <= v * (w + l.stride) == v * w + v * l.stride
    ensures Part(l, v, f, v * (w + l.stride)) == Part(l, v, f, v * w + v)
  {
    var a, d := w - l.first, l.stride;
    Split(a, d);
    DivMod(d, a / d + 1, 0);
    Distribute(d, a / d, 1);
    Distribute(v, w, d);
    Monotone(1, d, v);
    Product(v, w);
    forall q | v * w + v <= q < v * (w + d)
      ensures !Owns(l, v, q)
    {
      Between(l, v, w, q);
    }
    Idle(l, v, f, v * w + v, v * (w + d));
  }

  lemma Between(l: Loop, v: nat, w: nat, q: nat)
    requires v > 0 && l.stride > 0 && IsStep(l, w) && v * w + v <= q < v * (w + l.stride)
    ensures !Owns(l, v, q)
  {
    var u := q / v;
    QuotientBelow(q, v, w + l.stride);
    Split(q, v);
    if u <= w {
      Monotone(u, w, v);
    } else {
      Split(w - l.first, l.stride);
      Split(u - l.first, l.stride);
      if (u - l.first) % l.stride == 0 {
        DivMod(l.stride, (w - l.first) / l.stride, u - w);
      }
    }
  }

  /** Beyond the bound the loop has nothing left to add. */
  lemma PartEnds(l: Loop, v: nat, f: int -> real, w: nat, n: nat)
    requires v > 0 && Fits(l, v, n) && IsStep(l, w) && v * w >= l.bound
    ensures Part(l, v, f, v * w) == Part(l, v, f, n)
  {
    Product(v, w);
    forall q: nat | v * w <= q < n || n <= q < v * w
      ensures !Owns(l, v, q)
    {
      Split(q, v);
      if w <= q / v {
        Monotone(w, q / v, v);
      }
      if v * w <= q {
        if q / v < w {
          Monotone(q / v + 1, w, v);
          Distribute(v, q / v, 1);
        }
      }
    }
    if v * w <= n {
      Idle(l, v, f, v * w, n);
    } else {
      Idle(l, v, f, n, v * w);
    }
  }

  /** A work-item that ran its whole loop has added its share. */
  lemma PartIsShare(it: Item, localStride: bool, v: nat, n: nat, f: int -> real, own: int -> int)
    requires v > 0 && it.Valid()
    requires forall q: nat :: q < n ==> own(q) == OwnerOf(it.groups, it.local, localStride, v, n, q)
    ensures Part(LoopOf(it, localStride, v, n), v, f, n) == Share(n, own, it.Gid(), f)
  {
    hide OwnerOf, Owns, LoopOf;
    var l := LoopOf(it, localStride, v, n);
    forall q | 0 <= q < n
      ensures Owns(l, v, q) <==> own(q) == it.Gid()
    {
      OwnerIs(it, localStride, v, n, q);
    }
    SumCongruence(n, q => if Owns(l, v, q) then f(q) else 0.0, q => if own(q) == it.Gid() then f(q) else 0.0);
  }
}
