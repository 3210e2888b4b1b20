/** The rounds of the fused kernel when each work-group strides over its own block of points.  A round always takes a
    vector for every thread, so the last round of a group may run on into the block of the next group. */
module FusedLocalStride {
  import opened Indices
  import opened Strides

  /** A launch with local strides over n points: v points a vector. */
  datatype Rounds = Rounds(n: nat, groups: nat, local: nat, v: nat) {
    ghost predicate Valid() {
      groups > 0 && local > 0 && 0 < v <= n + 1
    }

    /** Points per work-group, in whole vectors. */
    function Block(): nat
      requires groups > 0 && v > 0
    {
      BlockSize(Item(0, 0, groups, local), v, n)
    }

    function Vectors(): nat
      requires groups > 0 && v > 0
    {
      Block() / v
    }

    /** Where the block of a group ends, or the points do. */
    function Bound(group: nat): nat
      requires groups > 0 && v > 0
    {
      Product(group, Block());
      group * Block() + RealBlockSize(group * Block(), Block(), n)
    }
  }

  /** Some round of the group takes vector w: the round begins in the block, and the vector is whole. */
  ghost predicate Takes(r: Rounds, group: nat, w: int)
    requires r.Valid()
  {
    var begin := group * r.Vectors();
    w >= begin && r.v * w + r.v <= r.n && r.v * (begin + r.local * ((w - begin) / r.local)) < r.Bound(group)
  }

  /** How many of the first m groups take point q. */
  ghost function Times(r: Rounds, m: nat, q: nat): nat
    requires r.Valid()
  {
    if m == 0 then 0 else Times(r, m - 1, q) + if Takes(r, m - 1, q / r.v) then 1 else 0
  }

  lemma Blocks(r: Rounds, group: nat)
    requires r.Valid()
    ensures r.Block() == r.v * r.Vectors() && group * r.Vectors() >= 0
    ensures group * r.Block() == r.v * (group * r.Vectors())
    ensures r.Bound(group) == BlockEnd(group * r.Vectors(), r.Vectors(), r.v, r.n)
  {
    var it := Item(group, 0, r.groups, r.local);
    SameBlockSize(it, r.v, r.n);
    BlockStart(it, r.v, r.n);
    Product(group, r.Vectors());
  }

  // ---------- the loops ----------

  /** All rounds of a group, or those before the t-th and the threads before `lid` in it, have taken their points. */
  ghost predicate TakenTo(r: Rounds, seen: seq<nat>, group: nat, upTo: nat)
    requires r.Valid()
  {
    |seen| == r.n
    && forall q :: 0 <= q < r.n ==>
         seen[q] == Times(r, group, q)
                    + if group * r.Vectors() <= q / r.v < upTo && r.v * (q / r.v) + r.v <= r.n then 1 else 0
  }

  /** The kernel takes the points for labelling, counting and summing up; `seen` records how often it takes each. */
  method Launch(r: Rounds, seen: array<nat>)
    requires r.Valid() && seen.Length == r.n && forall q :: 0 <= q < r.n ==> seen[q] == 0
    modifies seen
    ensures forall q :: 0 <= q < r.n ==> seen[q] == Times(r, r.groups, q)
  {
    hide Takes, TakenTo;
    for group := 0 to r.groups
      invariant forall q :: 0 <= q < r.n ==> seen[q] == Times(r, group, q)
    {
      var iter_block_size := (r.n + r.groups - 1) / r.groups;
      iter_block_size := iter_block_size - iter_block_size % r.v;
      assert iter_block_size == r.Block();
      Product(group, iter_block_size);
      var group_start_offset := group * iter_block_size;
      var real_iter_block_size := RealBlockSize(group_start_offset, iter_block_size, r.n);
      GroupRounds(r, group, group_start_offset, group_start_offset + real_iter_block_size, seen);
    }
  }

  method GroupRounds(r: Rounds, group: nat, begin: nat, end: nat, seen: array<nat>)
    requires r.Valid() && begin == group * r.Block() && end == r.Bound(group)
    requires seen.Length == r.n && forall q :: 0 <= q < r.n ==> seen[q] == Times(r, group, q)
    modifies seen
    ensures forall q :: 0 <= q < r.n ==> seen[q] == Times(r, group + 1, q)
  {
    hide Takes, Times, TakenTo;
    Blocks(r, group);
    var group_offset := begin;
    ghost var t, first: nat := 0, group * r.Vectors();
    GroupBegins(r, seen[..], group);
    Monotone(1, r.local, r.v);
    while group_offset < end
      invariant t >= 0 && first + r.local * t >= 0 && group_offset == r.v * (first + r.local * t)
      invariant t > 0 ==> 0 <= r.local * (t - 1) && r.v * (first + r.local * (t - 1)) < end
      invariant TakenTo(r, seen[..], group, first + r.local * t)
      decreases end - group_offset
    {
      ghost var from := first + r.local * t;
      for lid := 0 to r.local
        invariant TakenTo(r, seen[..], group, from + lid)
      {
        Product(r.v, lid);
        Distribute(r.v, from, lid);
        var p := group_offset + lid * r.v;
        ghost var was := seen[..];
        SizeTaken(r, was, group, from + lid);
        if p < r.n - r.v + 1 {
          TakeVector(r.v, p, seen);
        }
        ThreadTakes(r, seen[..], was, group, from + lid);
      }
      Distribute(r.local, t, 1);
      Distribute(r.v, from, r.local);
      Product(r.local, t);
      group_offset := group_offset + r.v * r.local;
      t := t + 1;
    }
    GroupEnds(r, seen[..], group, t);
  }

  /** The points of one vector. */
  method TakeVector(v: nat, p: nat, seen: array<nat>)
    requires p + v <= seen.Length
    modifies seen
    ensures forall q :: 0 <= q < seen.Length ==> seen[q] == old(seen[q]) + if p <= q < p + v then 1 else 0
  {
    for lane := 0 to v
      invariant forall q :: 0 <= q < seen.Length ==> seen[q] == old(seen[q]) + if p <= q < p + lane then 1 else 0
    {
      seen[p + lane] := seen[p + lane] + 1;
    }
  }

  lemma SizeTaken(r: Rounds, seen: seq<nat>, group: nat, upTo: nat)
    requires r.Valid() && TakenTo(r, seen, group, upTo)
    ensures |seen| == r.n
  {
  }

  lemma GroupBegins(r: Rounds, seen: seq<nat>, group: nat)
    requires r.Valid() && |seen| == r.n && forall q :: 0 <= q < r.n ==> seen[q] == Times(r, group, q)
    ensures group * r.Vectors() + r.local * 0 >= 0 && TakenTo(r, seen, group, group * r.Vectors() + r.local * 0)
  {
    Product(group, r.Vectors());
    assert r.local * 0 == 0;
  }

  lemma ThreadTakes(r: Rounds, now: seq<nat>, was: seq<nat>, group: nat, w: nat)
    requires r.Valid() && TakenTo(r, was, group, w) && |now| == |was| && w >= group * r.Vectors()
    requires forall q :: 0 <= q < |now| ==>
               now[q] == was[q] + if r.v * w + r.v <= r.n && r.v * w <= q < r.v * w + r.v then 1 else 0
    ensures TakenTo(r, now, group, w + 1)
  {
    hide Times;
    forall q | 0 <= q < r.n
      ensures q / r.v == w <==> r.v * w <= q < r.v * w + r.v
    {
      Split(q, r.v);
      Product(r.v, w);
      if r.v * w <= q < r.v * w + r.v {
        DivMod(r.v, w, q - r.v * w);
      }
    }
  }

  /** The rounds of a group have taken what the group takes. */
  lemma GroupEnds(r: Rounds, seen: seq<nat>, group: nat, t: nat)
    requires r.Valid() && 0 <= group * r.Vectors() + r.local * t
             && TakenTo(r, seen, group, group * r.Vectors() + r.local * t)
    requires r.v * (group * r.Vectors() + r.local * t) >= r.Bound(group)
    requires t > 0 ==> 0 <= r.local * (t - 1) && r.v * (group * r.Vectors() + r.local * (t - 1)) < r.Bound(group)
    ensures forall q :: 0 <= q < r.n ==> seen[q] == Times(r, group + 1, q)
  {
    Product(group, r.Vectors());
    forall q: nat | q < r.n && r.v * (q / r.v) + r.v <= r.n && q / r.v >= group * r.Vectors()
      ensures Takes(r, group, q / r.v) <==> q / r.v < group * r.Vectors() + r.local * t
    {
      RoundOf(r, group, t, q / r.v);
    }
  }

  lemma RoundOf(r: Rounds, group: nat, t: nat, w: nat)
    requires r.Valid() && 0 <= group * r.Vectors() <= w && r.v * w + r.v <= r.n
    requires r.v * (group * r.Vectors() + r.local * t) >= r.Bound(group)
    requires t > 0 ==> 0 <= r.local * (t - 1) && r.v * (group * r.Vectors() + r.local * (t - 1)) < r.Bound(group)
    ensures Takes(r, group, w) <==> w < group * r.Vectors() + r.local * t
  {
    var begin, L := group * r.Vectors(), r.local;
    var u := (w - begin) / L;
    Split(w - begin, L);
    Product(L, u);
    Product(L, t);
    if u < t {
      Monotone(u, t - 1, L);
      Monotone(begin + L * u, begin + L * (t - 1), r.v);
      Monotone(u + 1, t, L);
      Distribute(L, u, 1);
    } else {
      Monotone(t, u, L);
      Monotone(begin + L * t, begin + L * u, r.v);
    }
  }

  // ---------- every point once ----------

  /** Every point is in a block, and blocks are whole rounds, or else the first block has everything. */
  ghost predicate WholeRounds(r: Rounds)
    requires r.Valid() && r.v * r.local > 0
  {
    && r.n % r.v == 0 && r.n <= r.groups * r.Block()
    && (r.Block() % (r.v * r.local) == 0 || r.n <= r.Block())
  }

  /** A block is whole rounds when its vectors are. */
  lemma WholeRoundsOfVectors(r: Rounds)
    requires r.Valid()
    ensures r.v * r.local > 0
    ensures r.Block() % (r.v * r.local) == 0 <==> r.Vectors() % r.local == 0
  {
    var d := r.Vectors();
    Blocks(r, 0);
    BlockOf(r.Block(), r.v, r.local);
    Split(d, r.local);
    Associate(r.v, r.local, d / r.local);
    Product(r.local, d / r.local);
    if d % r.local == 0 {
      DivMod(r.v * r.local, d / r.local, 0);
    } else if r.Block() % (r.v * r.local) == 0 {
      DivMod(r.v, 0, 0);
    }
  }

  /** A group takes a whole vector if the vector's round begins before the group's block has run out of vectors. */
  lemma TakesIff(r: Rounds, group: nat, w: nat)
    requires r.Valid() && r.v * w + r.v <= r.n
    ensures Takes(r, group, w) <==>
            w >= group * r.Vectors() && r.local * ((w - group * r.Vectors()) / r.local) < r.Vectors()
  {
    var d, begin := r.Vectors(), group * r.Vectors();
    Blocks(r, group);
    if w >= begin {
      var u := (w - begin) / r.local;
      Split(w - begin, r.local);
      Product(r.local, u);
      var start := begin + r.local * u;
      Monotone(start, w, r.v);
      InBlock(start, r.v, group, d, r.n);
    }
  }

  /** The round of position x begins before position d. */
  lemma RoundBegins(x: nat, d: nat, local: nat)
    requires local > 0
    ensures x < d ==> local * (x / local) < d
    ensures d % local == 0 ==> (local * (x / local) < d <==> x < d)
  {
    Split(x, local);
    Split(d, local);
    if x >= d && d % local == 0 && x / local < d / local {
      Monotone(x / local + 1, d / local, local);
      Distribute(local, x / local, 1);
    } else if x >= d && d % local == 0 {
      Monotone(d / local, x / local, local);
    }
  }

  /** Nobody takes a point behind the last whole vector. */
  lemma {:induction false} RestIsLeft(r: Rounds, m: nat, q: nat)
    requires r.Valid() && r.v * (q / r.v) + r.v > r.n
    ensures Times(r, m, q) == 0
  {
    if m > 0 {
      RestIsLeft(r, m - 1, q);
    }
  }

  lemma {:induction false} TakenBy(r: Rounds, m: nat, q: nat, home: int)
    requires r.Valid() && forall g: nat :: g < m ==> (Takes(r, g, q / r.v) <==> g == home)
    ensures Times(r, m, q) == if 0 <= home < m then 1 else 0
  {
    hide Takes;
    if m > 0 {
      TakenBy(r, m - 1, q, home);
    }
  }

  lemma {:induction false} TakenAtLeast(r: Rounds, m: nat, q: nat, a: nat, b: nat)
    requires r.Valid() && a < b && Takes(r, a, q / r.v) && Takes(r, b, q / r.v)
    ensures m > a ==> Times(r, m, q) >= 1
    ensures m > b ==> Times(r, m, q) >= 2
  {
    hide Takes;
    if m > 0 {
      TakenAtLeast(r, m - 1, q, a, b);
    }
  }

  lemma WholeRoundsSuffice(r: Rounds, q: nat)
    requires r.Valid() && r.v * r.local > 0 && WholeRounds(r) && q < r.n
    ensures Times(r, r.groups, q) == 1
  {
    hide Takes, Times;
    var d, w := r.Vectors(), q / r.v;
    WholeRoundsOfVectors(r);
    Blocks(r, 0);
    VectorInside(q, r.v, r.n);
    Split(q, r.v);
    Associate(r.groups, d, r.v);
    WithinBlocks(q, r.v, d, r.groups);
    Split(w, d);
    forall g: nat | g < r.groups
      ensures Takes(r, g, w) <==> g == w / d
    {
      OwnBlock(r, g, w);
    }
    TakenBy(r, r.groups, q, w / d);
  }

  lemma OwnBlock(r: Rounds, g: nat, w: nat)
    requires r.Valid() && r.Vectors() > 0 && r.v * w + r.v <= r.n
    requires r.Vectors() % r.local == 0 || r.n <= r.Block()
    ensures Takes(r, g, w) <==> g == w / r.Vectors()
  {
    hide Takes;
    var d := r.Vectors();
    TakesIff(r, g, w);
    Blocks(r, g);
    if r.n <= r.Block() && w >= d {
      Monotone(d, w, r.v);
    }
    HomeOf(w, g, d, r.local);
  }

  lemma InHome(w: nat, g: nat, d: nat)
    requires d > 0
    ensures g * d >= 0 && (g * d <= w < g * d + d <==> g == w / d)
  {
    Product(g, d);
    Split(w, d);
    if g * d <= w < g * d + d {
      DivMod(d, g, w - g * d);
    }
  }

  /** The block of a position, when rounds do not leave their block or there is one block. */
  lemma HomeOf(w: nat, g: nat, d: nat, local: nat)
    requires d > 0 && local > 0 && (d % local == 0 || w < d)
    ensures w >= g * d && local * ((w - g * d) / local) < d <==> g == w / d
  {
    InHome(w, g, d);
    if w >= g * d {
      RoundBegins(w - g * d, d, local);
    }
  }

  /** The ways in which blocks fail to be whole rounds. */
  lemma Failing(r: Rounds)
    requires r.Valid() && r.v * r.local > 0 && !WholeRounds(r)
    ensures r.n > 0
    ensures r.n % r.v == 0 ==>
              if r.Vectors() % r.local != 0 then r.n > r.Block() else r.n > r.groups * r.Block()
  {
    WholeRoundsOfVectors(r);
    Monotone(1, r.groups, r.Block());
  }

  /** A point that is not taken exactly once. */
  lemma Mistaken(r: Rounds) returns (q: nat)
    requires r.Valid() && r.v * r.local > 0 && !WholeRounds(r)
    ensures q < r.n && Times(r, r.groups, q) != 1
  {
    hide Takes, Times, WholeRounds;
    Failing(r);
    q := r.n - 1;
    if r.n % r.v != 0 {
      LastIsBroken(r);
      RestIsLeft(r, r.groups, q);
    } else if r.Vectors() % r.local != 0 {
      q := r.Block();
      SecondBlock(r);
      TakenAtLeast(r, r.groups, q, 0, 1);
    } else {
      BehindBlocks(r, q / r.v);
      TakenBy(r, r.groups, q, -1);
    }
  }

  lemma LastIsBroken(r: Rounds)
    requires r.Valid() && r.n % r.v != 0
    ensures r.n > 0 && r.v * ((r.n - 1) / r.v) + r.v > r.n
  {
    Split(r.n, r.v);
    Product(r.v, r.n / r.v);
    UniqueQuotient(r.v, r.n / r.v, r.n % r.v - 1, (r.n - 1) / r.v, (r.n - 1) % r.v);
  }

  /** The first vector of the second block is taken by its own group and by the first one, which runs on. */
  lemma SecondBlock(r: Rounds)
    requires r.Valid() && r.n % r.v == 0 && r.Vectors() % r.local != 0 && r.n > r.Block()
    ensures r.groups > 1 && Takes(r, 0, r.Block() / r.v) && Takes(r, 1, r.Block() / r.v)
  {
    hide Takes;
    var d := r.Vectors();
    Blocks(r, 0);
    VectorInside(r.Block(), r.v, r.n);
    TakesIff(r, 0, d);
    TakesIff(r, 1, d);
    Split(d, r.local);
    assert r.local * 0 == 0;
  }

  /** If the blocks do not reach the end, no group takes the last point. */
  lemma BehindBlocks(r: Rounds, w: int)
    requires r.Valid() && r.n > 0 && w == (r.n - 1) / r.v && r.n % r.v == 0 && r.n > r.groups * r.Block()
    requires r.Vectors() % r.local == 0
    ensures forall g: nat :: g < r.groups ==> !Takes(r, g, w)
  {
    hide Takes;
    var d := r.Vectors();
    Blocks(r, r.groups);
    VectorInside(r.n - 1, r.v, r.n);
    Split(r.n - 1, r.v);
    if w < r.groups * d {
      Monotone(w + 1, r.groups * d, r.v);
      Distribute(r.v, w, 1);
    }
    forall g: nat | g < r.groups
      ensures !Takes(r, g, w)
    {
      TakesIff(r, g, w);
      Monotone(g + 1, r.groups, d);
      Distribute(d, g, 1);
      RoundBegins(w - g * d, d, r.local);
    }
  }

  /** Every point is taken once if and only if the blocks reach the end and are whole rounds, or one block has
      it all. */
  lemma OnceIff(r: Rounds)
    requires r.Valid()
    ensures r.v * r.local > 0
    ensures (forall q: nat :: q < r.n ==> Times(r, r.groups, q) == 1) <==> WholeRounds(r)
  {
    hide Times, WholeRounds;
    Monotone(1, r.local, r.v);
    if WholeRounds(r) {
      forall q: nat | q < r.n
        ensures Times(r, r.groups, q) == 1
      {
        WholeRoundsSuffice(r, q);
      }
    } else {
      var q := Mistaken(r);
    }
  }

  /** Two groups of two threads: of six points, the first group takes its own three and the first of the other three. */
  lemma SomePointsAreTakenTwice()
    ensures var r := Rounds(6, 2, 2, 1); r.Valid() && Times(r, 2, 3) == 2 && Times(r, 2, 2) == 1
  {
    var r := Rounds(6, 2, 2, 1);
    assert r.Block() == 3 && r.Bound(0) == 3 && r.Bound(1) == 6;
    assert Takes(r, 0, 3) && Takes(r, 1, 3) && Takes(r, 0, 2) && !Takes(r, 1, 2);
    assert Times(r, 1, 3) == 1 && Times(r, 1, 2) == 1;
  }

  /** The first point whose features a thread adds for position bp. */
  function SummedAt(group_offset: nat, bp: nat): nat {
    group_offset + bp
  }

  /** The first point that thread bp labels. */
  function LabelledAt(group_offset: nat, bp: nat, v: nat): int {
    group_offset + bp * v
  }

  /** Without local memory, the sums take position bp of a round for a point, and the labels take it for a vector: they
      mean the same points exactly if vectors are single points, or there is just one thread. */
  lemma PositionsAgreeIff(v: nat, local: nat, group_offset: nat)
    requires v > 0
    ensures (forall bp: nat :: bp < local ==> SummedAt(group_offset, bp) == LabelledAt(group_offset, bp, v))
            <==> v == 1 || local <= 1
  {
    if v > 1 && local > 1 {
      assert SummedAt(group_offset, 1) != LabelledAt(group_offset, 1, v);
    }
  }
}
