/** The histogram kernels that keep one row of bins per work-group.  The work-items of a group share the bins, so their
    atomic increments interleave; whatever the interleaving, the bins end up as the group's share of the counts. */
module GroupHistograms {
  import opened Sums
  import opened Clustering
  import opened Indices
  import opened Strides
  import opened Kernels
  import opened Stages
  import opened ReduceVectorParcol

  /** These kernels take the points one by one. */
  ghost predicate OneByOne(s: Launch) {
    s.groups > 0 && s.local > 0 && s.v == 1
  }

  /** Then there is no remainder to lose, in either form of the loop. */
  lemma NoPointIsLeft(s: Launch, n: nat)
    requires OneByOne(s)
    ensures s.Valid(n) && s.Complete(n)
  {
    if s.local_stride {
      var it := Item(0, 0, s.groups, s.local);
      LocalCoversIff(it, 1, n);
      Split(n + s.groups - 1, s.groups);
      assert BlockSize(it, 1, n) == (n + s.groups - 1) / s.groups;
    } else {
      GlobalCoversIff(s.groups, s.local, 1, n);
    }
  }

  // ---------- the share of a group ----------

  /** The work-group that handles a point. */
  ghost function GroupOwner(s: Launch, n: nat): int -> int
    requires s.Valid(n)
  {
    q => if Owner(s, n)(q) < 0 then -1 else Owner(s, n)(q) / s.local
  }

  ghost function GroupTiles(s: Launch, lab: seq<int>, n: nat): int -> int -> real
    requires s.Valid(n)
  {
    group => c => if c < 0 then 0.0 else Share(n, GroupOwner(s, n), group, Mass(lab, c))
  }

  /** The number of work-item i of a group in the whole launch. */
  function NumberOf(group: int, local: nat, i: int): int {
    group * local + i
  }

  /** The shares of the work-items of a group add up to the share of the group. */
  lemma SharesOfGroup(n: nat, own: int -> int, groupOwn: int -> int, local: nat, group: nat, f: int -> real)
    requires local > 0
    requires forall q :: 0 <= q < n ==> own(q) >= 0 && groupOwn(q) == own(q) / local
    ensures Sum(local, i => Share(n, own, NumberOf(group, local, i), f)) == Share(n, groupOwn, group, f)
  {
    hide NumberOf, Sum;
    var terms := (i, q) => if own(q) == NumberOf(group, local, i) then f(q) else 0.0;
    var rows := i => Share(n, own, NumberOf(group, local, i), f);
    var cols := q => Sum(local, i => terms(i, q));
    var mine := q => if groupOwn(q) == group then f(q) else 0.0;
    forall i | 0 <= i < local
      ensures rows(i) == Sum(n, q => terms(i, q))
    {
      var x := NumberOf(group, local, i);
      SumCongruence(n, q => if own(q) == x then f(q) else 0.0, q => terms(i, q));
    }
    SumSwap(local, n, terms, rows, cols);
    forall q | 0 <= q < n
      ensures cols(q) == mine(q)
    {
      OnePlace(own(q), local, group, f(q), i => terms(i, q));
    }
    SumCongruence(n, cols, mine);
  }

  /** At most one work-item of a group has number o, and one has it exactly when o lies in the group. */
  lemma OnePlace(o: nat, local: nat, group: nat, x: real, terms: int -> real)
    requires local > 0 && forall i :: 0 <= i < local ==> terms(i) == if o == NumberOf(group, local, i) then x else 0.0
    ensures Sum(local, terms) == if o / local == group then x else 0.0
  {
    hide Sum, NumberOf;
    forall i: nat | i < local
      ensures o == NumberOf(group, local, i) <==> o / local == group && i == o % local
    {
      NumberIs(o, local, group, i);
    }
    if o / local == group {
      OneTerm(local, o % local, x);
      SumCongruence(local, i => if o % local == i then x else 0.0, terms);
    } else {
      SumOfZeros(local, terms);
    }
  }

  lemma NumberIs(o: nat, local: nat, group: nat, i: nat)
    requires i < local
    ensures o == NumberOf(group, local, i) <==> o / local == group && i == o % local
  {
    Split(o, local);
    DivMod(local, group, i);
  }

  // ---------- how far a group has got ----------

  function ItemIn(s: Launch, group: nat, i: nat): (it: Item)
    requires group < s.groups && i < s.local
    ensures it.Valid()
  {
    Item(group, i, s.groups, s.local)
  }

  ghost function LoopIn(s: Launch, n: nat, group: nat, i: nat): (l: Loop)
    requires OneByOne(s) && group < s.groups && i < s.local
    ensures l.stride > 0
  {
    Strides.LoopOf(ItemIn(s, group, i), s.local_stride, 1, n)
  }

  /** Work-item i is about to handle point at[i], or is done. */
  ghost predicate Underway(s: Launch, n: nat, group: nat, at: seq<nat>)
    requires OneByOne(s) && group < s.groups
  {
    |at| == s.local && forall i :: 0 <= i < s.local ==> IsStep(LoopIn(s, n, group, i), at[i])
  }

  /** What work-item i has counted in bin c so far. */
  ghost function CountedBy(s: Launch, n: nat, lab: seq<int>, group: nat, at: seq<nat>, c: nat): int -> real
    requires OneByOne(s) && group < s.groups && |at| == s.local
  {
    i => if 0 <= i < s.local then Part(LoopIn(s, n, group, i), 1, Mass(lab, c), at[i]) else 0.0
  }

  /** What the group has counted so far. */
  ghost function Counted(s: Launch, n: nat, lab: seq<int>, group: nat, at: seq<nat>): int -> real
    requires OneByOne(s) && group < s.groups && |at| == s.local
  {
    c => if c < 0 then 0.0 else Sum(s.local, CountedBy(s, n, lab, group, at, c))
  }

  lemma NothingCounted(s: Launch, n: nat, lab: seq<int>, group: nat, at: seq<nat>)
    requires OneByOne(s) && group < s.groups && |at| == s.local
    requires forall i :: 0 <= i < s.local ==> at[i] == LoopIn(s, n, group, i).first
    ensures Underway(s, n, group, at)
    ensures forall c: nat :: Counted(s, n, lab, group, at)(c) == 0.0
  {
    hide Part;
    forall c: nat
      ensures Counted(s, n, lab, group, at)(c) == 0.0
    {
      forall i | 0 <= i < s.local
        ensures CountedBy(s, n, lab, group, at, c)(i) == 0.0
      {
        PartBegins(LoopIn(s, n, group, i), 1, Mass(lab, c));
      }
      SumOfZeros(s.local, CountedBy(s, n, lab, group, at, c));
    }
  }

  /** One increment: work-item i moves on, and the bin of its point counts one more. */
  lemma OneMoreCounted(s: Launch, n: nat, lab: seq<int>, group: nat, at: seq<nat>, i: nat, next: seq<nat>)
    requires OneByOne(s) && group < s.groups && Underway(s, n, group, at) && i < s.local
    requires at[i] < LoopIn(s, n, group, i).bound && next == at[i := at[i] + LoopIn(s, n, group, i).stride]
    ensures Underway(s, n, group, next)
    ensures forall c: nat ::
              Counted(s, n, lab, group, next)(c) == Counted(s, n, lab, group, at)(c) + Mass(lab, c)(at[i])
  {
    hide Part, IsStep, LoopIn;
    var l := LoopIn(s, n, group, i);
    PartSkips(l, 1, q => 0.0, at[i]);
    forall c: nat
      ensures Counted(s, n, lab, group, next)(c) == Counted(s, n, lab, group, at)(c) + Mass(lab, c)(at[i])
    {
      PartLane(l, 1, Mass(lab, c), at[i], 0);
      PartSkips(l, 1, Mass(lab, c), at[i]);
      SumBump(s.local, CountedBy(s, n, lab, group, at, c), CountedBy(s, n, lab, group, next, c), i,
              Mass(lab, c)(at[i]));
    }
  }

  lemma AllCounted(s: Launch, n: nat, lab: seq<int>, group: nat, at: seq<nat>)
    requires OneByOne(s) && s.Valid(n) && group < s.groups && Underway(s, n, group, at)
    requires forall i :: 0 <= i < s.local ==> at[i] >= LoopIn(s, n, group, i).bound
    ensures forall c: nat :: Counted(s, n, lab, group, at)(c) == GroupTiles(s, lab, n)(group)(c)
  {
    hide Part, IsStep, OwnerOf, Share;
    NoPointIsLeft(s, n);
    EveryPointOwned(s, n);
    forall c: nat
      ensures Counted(s, n, lab, group, at)(c) == GroupTiles(s, lab, n)(group)(c)
    {
      var f := Mass(lab, c);
      forall i | 0 <= i < s.local
        ensures CountedBy(s, n, lab, group, at, c)(i) == Share(n, Owner(s, n), NumberOf(group, s.local, i), f)
      {
        LoopFits(ItemIn(s, group, i), s.local_stride, 1, n);
        PartEnds(LoopIn(s, n, group, i), 1, f, at[i], n);
        PartIsShare(ItemIn(s, group, i), s.local_stride, 1, n, f, Owner(s, n));
      }
      SumCongruence(s.local, CountedBy(s, n, lab, group, at, c),
                    i => Share(n, Owner(s, n), NumberOf(group, s.local, i), f));
      SharesOfGroup(n, Owner(s, n), GroupOwner(s, n), s.local, group, f);
    }
  }

  // ---------- the bins of a group ----------

  /** The points that the work-items still have to go. */
  ghost function Left(at: seq<nat>, bound: seq<nat>): nat
    requires |at| == |bound|
  {
    if at == [] then 0
    else Left(at[1..], bound[1..]) + if at[0] < bound[0] then bound[0] - at[0] else 0
  }

  lemma {:induction false} LessLeft(at: seq<nat>, bound: seq<nat>, i: nat, further: nat)
    requires |at| == |bound| && i < |at| && at[i] < bound[i] && at[i] < further
    ensures Left(at[i := further], bound) < Left(at, bound)
  {
    var next := at[i := further];
    if i == 0 {
      assert next[1..] == at[1..];
    } else {
      assert next[1..] == at[1..][i - 1 := further];
      LessLeft(at[1..], bound[1..], i - 1, further);
    }
  }

  /** What the work-items of a group compute before their loops. */
  method StartGroup(s: Launch, n: nat, group: nat) returns (at: seq<nat>, bound: seq<nat>, step: nat)
    requires OneByOne(s) && group < s.groups
    ensures |at| == |bound| == s.local
    ensures forall i :: 0 <= i < s.local ==>
              var l := LoopIn(s, n, group, i);
              at[i] == l.first && bound[i] == l.bound && step == l.stride
  {
    at, bound, step := [], [], 1;
    for i := 0 to s.local
      invariant |at| == |bound| == i
      invariant forall x :: 0 <= x < i ==>
                  var l := LoopIn(s, n, group, x);
                  at[x] == l.first && bound[x] == l.bound && step == l.stride
    {
      var a, b, d := StartLoop(ItemIn(s, group, i), s.local_stride, 1, n);
      at, bound, step := at + [a], bound + [b], d;
    }
  }

  /** The counting phase: as long as some work-item has a point to count, any of them makes the next increment. */
  method CountGroup(bins: array<real>, off: nat, n: nat, k: nat, g_in: seq<int>, s: Launch, group: nat)
    requires OneByOne(s) && s.Valid(n) && group < s.groups && |g_in| == n && Labels(g_in, k) && off + k <= bins.Length
    requires Holding(bins[..], off, 0, k, t => 0.0)
    modifies bins
    ensures Holding(bins[..], off, 0, k, GroupTiles(s, g_in, n)(group))
    ensures OnlyWithin(bins[..], old(bins[..]), off, 0, k)
  {
    hide Part, IsStep, LoopIn, Counted, GroupTiles, Left;
    var at, bound, step := StartGroup(s, n, group);
    NothingCounted(s, n, g_in, group, at);
    while exists i :: 0 <= i < s.local && at[i] < bound[i]
      invariant Underway(s, n, group, at)
      invariant Holding(bins[..], off, 0, k, Counted(s, n, g_in, group, at))
      invariant OnlyWithin(bins[..], old(bins[..]), off, 0, k)
      decreases Left(at, bound)
    {
      var i :| 0 <= i < s.local && at[i] < bound[i];
      BoundInside(s, n, group, i, at[i]);
      var cluster := g_in[at[i]];
      bins[off + cluster] := bins[off + cluster] + 1.0;
      OneMoreCounted(s, n, g_in, group, at, i, at[i := at[i] + step]);
      LessLeft(at, bound, i, at[i] + step);
      at := at[i := at[i] + step];
    }
    AllCounted(s, n, g_in, group, at);
  }

  lemma BoundInside(s: Launch, n: nat, group: nat, i: nat, q: nat)
    requires OneByOne(s) && s.Valid(n) && group < s.groups && i < s.local
    requires IsStep(LoopIn(s, n, group, i), q) && q < LoopIn(s, n, group, i).bound
    ensures q < n
  {
    LoopFits(ItemIn(s, group, i), s.local_stride, 1, n);
    assert 1 * q + 1 <= n;
  }

  // ---------- the phases around the counting ----------

  /** Work-item lid takes the bins that are lid modulo the local size. */
  ghost predicate Taken(bins: seq<real>, off: nat, k: nat, local: nat, done: set<nat>, upTo: nat, value: int -> real)
    requires local > 0
  {
    off + k <= |bins| && forall c: nat :: c < k && c < upTo && c % local in done ==> bins[off + c] == value(c)
  }

  /** The one bin of work-item lid among `local` bins in a row. */
  lemma OnlyBin(c: nat, lid: nat, local: nat, m: nat)
    requires lid < local
    ensures local * m >= 0 && (local * m + lid) % local == lid
    ensures c % local == lid && local * m <= c < local * m + local ==> c == local * m + lid
    ensures c % local == lid && local * m + lid <= c < local * m + lid + local ==> c == local * m + lid
  {
    Product(local, m);
    DivMod(local, m, lid);
    Split(c, local);
    if c / local < m {
      Monotone(c / local + 1, m, local);
      Distribute(local, c / local, 1);
    } else if c / local > m {
      Monotone(m + 1, c / local, local);
      Distribute(local, m, 1);
    }
  }

  lemma AllTaken(bins: seq<real>, off: nat, k: nat, local: nat, value: int -> real)
    requires local > 0 && Taken(bins, off, k, local, Ids(local), k, value)
    ensures Holding(bins, off, 0, k, value)
  {
    forall i | off <= i < off + k
      ensures bins[i] == value(i - off)
    {
      Split(i - off, local);
      assert (i - off) % local in Ids(local);
    }
  }
  /** Bins taken before, and those of work-item lid, are left alone by work on others. */
  lemma MoreTaken(bins: seq<real>, was: seq<real>, off: nat, k: nat, local: nat, done: set<nat>, lid: nat,
                  value: int -> real)
    requires local > 0 && Taken(was, off, k, local, done, k, value) && |bins| == |was|
    requires forall c: nat :: c < k && c % local != lid ==> bins[off + c] == was[off + c]
    requires forall c: nat :: c < k && c % local == lid ==> bins[off + c] == value(c)
    ensures Taken(bins, off, k, local, done + {lid}, k, value)
  {
  }

  /** Work-item lid takes its bins: it looks at every row of bins and skips the one beyond the last bin. */
  method FillRows(bins: array<real>, off: nat, k: nat, lid: nat, local: nat, value: seq<real>)
    requires lid < local && off + k <= bins.Length && |value| == k
    modifies bins
    ensures forall c: nat :: c < k && c % local != lid ==> bins[off + c] == old(bins[off + c])
    ensures forall c: nat :: c < k && c % local == lid ==> bins[off + c] == value[c]
    ensures OnlyWithin(bins[..], old(bins[..]), off, 0, k)
  {
    var r := 0;
    ghost var m: nat := 0;
    while r < k
      invariant r == local * m
      invariant forall c: nat :: c < k && (c % local != lid || c >= r) ==> bins[off + c] == old(bins[off + c])
      invariant forall c: nat :: c < k && c % local == lid && c < r ==> bins[off + c] == value[c]
      invariant OnlyWithin(bins[..], old(bins[..]), off, 0, k)
    {
      var c := r + lid;
      forall b: nat | b < k
        ensures c % local == lid && (b % local == lid && r <= b < r + local ==> b == c)
      {
        OnlyBin(b, lid, local, m);
      }
      if c < k {
        bins[off + c] := value[c];
      }
      Distribute(local, m, 1);
      r, m := r + local, m + 1;
    }
  }

  /** The same for a work-item that starts at its own first bin. */
  method ZeroStrided(bins: array<real>, off: nat, k: nat, lid: nat, local: nat)
    requires lid < local && off + k <= bins.Length
    modifies bins
    ensures forall c: nat :: c < k && c % local != lid ==> bins[off + c] == old(bins[off + c])
    ensures forall c: nat :: c < k && c % local == lid ==> bins[off + c] == 0.0
    ensures OnlyWithin(bins[..], old(bins[..]), off, 0, k)
  {
    var r := lid;
    ghost var m: nat := 0;
    FirstBins(lid, local);
    while r < k
      invariant r == local * m + lid
      invariant forall c: nat :: c < k && (c % local != lid || c >= r) ==> bins[off + c] == old(bins[off + c])
      invariant forall c: nat :: c < k && c % local == lid && c < r ==> bins[off + c] == 0.0
      invariant OnlyWithin(bins[..], old(bins[..]), off, 0, k)
    {
      forall b: nat | b < k
        ensures r % local == lid && (b % local == lid && r <= b < r + local ==> b == r)
      {
        OnlyBin(b, lid, local, m);
      }
      OnlyBin(r, lid, local, m);
      assert r % local == lid;
      bins[off + r] := 0.0;
      Distribute(local, m, 1);
      r, m := r + local, m + 1;
    }
  }

  lemma FirstBins(lid: nat, local: nat)
    requires lid < local
    ensures forall c: nat :: c < lid ==> c % local != lid
  {
    forall c: nat | c < lid
      ensures c % local != lid
    {
      OnlyBin(c, c, local, 0);
    }
  }

  /** A phase of a work-group between two barriers, its work-items in any order: together they take all bins. */
  method FillAll(bins: array<real>, off: nat, k: nat, local: nat, value: seq<real>)
    requires local > 0 && off + k <= bins.Length && |value| == k
    modifies bins
    ensures bins[off..off + k] == value && OnlyWithin(bins[..], old(bins[..]), off, 0, k)
  {
    ghost var want := c => if 0 <= c < k then value[c] else 0.0;
    var todo := Ids(local);
    while todo != {}
      invariant todo <= Ids(local)
      invariant Taken(bins[..], off, k, local, Ids(local) - todo, k, want)
      invariant OnlyWithin(bins[..], old(bins[..]), off, 0, k)
      decreases todo
    {
      var lid :| lid in todo;
      ghost var was := bins[..];
      FillRows(bins, off, k, lid, local, value);
      MoreTaken(bins[..], was, off, k, local, Ids(local) - todo, lid, want);
      assert Ids(local) - todo + {lid} == Ids(local) - (todo - {lid});
      todo := todo - {lid};
    }
    assert Ids(local) - {} == Ids(local);
    AllTaken(bins[..], off, k, local, want);
    assert forall c :: 0 <= c < k ==> bins[..][off + c] == want(c);
  }

  method ZeroAll(bins: array<real>, off: nat, k: nat, local: nat)
    requires local > 0 && off + k <= bins.Length
    modifies bins
    ensures Holding(bins[..], off, 0, k, t => 0.0) && OnlyWithin(bins[..], old(bins[..]), off, 0, k)
  {
    var todo := Ids(local);
    while todo != {}
      invariant todo <= Ids(local)
      invariant Taken(bins[..], off, k, local, Ids(local) - todo, k, t => 0.0)
      invariant OnlyWithin(bins[..], old(bins[..]), off, 0, k)
      decreases todo
    {
      var lid :| lid in todo;
      ghost var was := bins[..];
      ZeroStrided(bins, off, k, lid, local);
      MoreTaken(bins[..], was, off, k, local, Ids(local) - todo, lid, t => 0.0);
      assert Ids(local) - todo + {lid} == Ids(local) - (todo - {lid});
      todo := todo - {lid};
    }
    assert Ids(local) - {} == Ids(local);
    AllTaken(bins[..], off, k, local, t => 0.0);
  }

  // ---------- the two kernels ----------

  /** One work-group of the kernel whose bins are in global memory: zero them, barrier, count. */
  method GroupGlobal(g_out: array<real>, n: nat, k: nat, g_in: seq<int>, s: Launch, group: nat)
    requires OneByOne(s) && s.Valid(n) && group < s.groups && |g_in| == n && Labels(g_in, k)
    requires s.groups * k <= g_out.Length
    modifies g_out
    ensures group * k >= 0 && Holding(g_out[..], group * k, 0, k, GroupTiles(s, g_in, n)(group))
    ensures OnlyWithin(g_out[..], old(g_out[..]), group * k, 0, k)
  {
    hide Holding, OnlyWithin, Labels, GroupTiles;
    TileInside(group, k, s.groups);
    var group_offset := group * k;
    ghost var was := g_out[..];
    ZeroAll(g_out, group_offset, k, s.local);
    ghost var zeroed := g_out[..];
    CountGroup(g_out, group_offset, n, k, g_in, s, group);
    WithinTwice(g_out[..], zeroed, was, group_offset, 0, k);
  }

  /** One work-group of the kernel whose bins are in local memory: zero them, barrier, count, barrier, copy them out. */
  method GroupLocal(g_out: array<real>, l_bins: array<real>, n: nat, k: nat, g_in: seq<int>, s: Launch, group: nat)
    requires OneByOne(s) && s.Valid(n) && group < s.groups && |g_in| == n && Labels(g_in, k)
    requires s.groups * k <= g_out.Length && l_bins.Length == k && l_bins != g_out
    modifies g_out, l_bins
    ensures group * k >= 0 && Holding(g_out[..], group * k, 0, k, GroupTiles(s, g_in, n)(group))
    ensures OnlyWithin(g_out[..], old(g_out[..]), group * k, 0, k)
  {
    hide OnlyWithin, Labels, GroupTiles;
    TileInside(group, k, s.groups);
    FillAll(l_bins, 0, k, s.local, seq(k, _ => 0.0));
    assert l_bins[..] == l_bins[0..k];
    CountGroup(l_bins, 0, n, k, g_in, s, group);
    var group_offset := group * k;
    FillAll(g_out, group_offset, k, s.local, l_bins[..]);
    forall i | group_offset <= i < group_offset + k
      ensures g_out[i] == GroupTiles(s, g_in, n)(group)(i - group_offset)
    {
      assert g_out[i] == g_out[group_offset..group_offset + k][i - group_offset] == l_bins[..][i - group_offset];
    }
  }

  /** Launches either kernel over all work-groups, in any order. */
  method LaunchGroups(g_out: array<real>, n: nat, k: nat, g_in: seq<int>, s: Launch, in_local_memory: bool)
    requires OneByOne(s) && s.Valid(n) && |g_in| == n && Labels(g_in, k) && s.groups * k <= g_out.Length
    modifies g_out
    ensures Tiles(g_out[..], k, Ids(s.groups), GroupTiles(s, g_in, n))
  {
    hide Holding, Labels, OnlyWithin, GroupTiles, Tiles;
    var todo := Ids(s.groups);
    NoTiles(g_out[..], k, GroupTiles(s, g_in, n));
    while todo != {}
      modifies g_out
      invariant todo <= Ids(s.groups)
      invariant Tiles(g_out[..], k, Ids(s.groups) - todo, GroupTiles(s, g_in, n))
      decreases todo
    {
      var group :| group in todo;
      ghost var was := g_out[..];
      if in_local_memory {
        var l_bins := new real[k];
        GroupLocal(g_out, l_bins, n, k, g_in, s, group);
      } else {
        GroupGlobal(g_out, n, k, g_in, s, group);
      }
      TileWritten(g_out[..], was, k, Ids(s.groups) - todo, group, GroupTiles(s, g_in, n));
      assert Ids(s.groups) - todo + {group} == Ids(s.groups) - (todo - {group});
      todo := todo - {group};
    }
    assert Ids(s.groups) - {} == Ids(s.groups);
  }

  /** Whatever the launch, the tiles of the work-groups add up to the counts, as those of single work-items do. */
  lemma GroupTilesAddUp(s: Launch, lab: seq<int>, n: nat, k: nat, g: seq<real>, c: nat)
    requires OneByOne(s) && s.Valid(n) && |lab| == n && c < k
    requires Tiles(g, k, Ids(s.groups), GroupTiles(s, lab, n))
    ensures RowSum(g, k, s.groups, c) == Count(lab, c, n) as real
  {
    hide Share, Owner, SumOwned;
    NoPointIsLeft(s, n);
    EveryPointOwned(s, n);
    forall q | 0 <= q < n
      ensures 0 <= GroupOwner(s, n)(q) < s.groups
    {
      QuotientBelow(Owner(s, n)(q), s.local, s.groups);
      Split(Owner(s, n)(q), s.local);
    }
    TilesAddUp(g, k, s.groups, GroupTiles(s, lab, n), c, GroupOwner(s, n), n, Mass(lab, c));
    AllOwned(n, GroupOwner(s, n), Mass(lab, c));
    Kernels.MassesAddUp(lab, c, n);
  }

  /** The mass update by either kernel: one column per work-group is left to reduce. */
  method UpdateMassesByGroup(masses: array<real>, tmp: array<real>, n: nat, k: nat, g_labels: seq<int>, s: Launch,
                             in_local_memory: bool)
    returns (completed: bool)
    requires OneByOne(s) && k > 0 && |g_labels| == n && Labels(g_labels, k)
    requires 0 < k * s.groups <= tmp.Length && masses.Length == k && masses != tmp
    modifies masses, tmp
    ensures completed <==> RunsThrough(k * s.groups, k)
    ensures !completed ==> masses[..] == old(masses[..])
    ensures Reduces(k, s.groups) ==>
              completed && forall c :: 0 <= c < k ==> masses[c] == old(masses[c]) + Counts(g_labels)(c)
  {
    hide Labels, Tiles, RowSum, RunsThrough, Reduces, Reduced, Count, GroupTiles;
    NoPointIsLeft(s, n);
    LaunchGroups(tmp, n, k, g_labels, s, in_local_memory);
    ghost var tiles := tmp[..];
    forall c | 0 <= c < k
      ensures RowSum(tiles, k, s.groups, c) == Counts(g_labels)(c)
    {
      GroupTilesAddUp(s, g_labels, n, k, tiles, c);
    }
    completed := AddTiles(masses, tmp, k, s.groups, Counts(g_labels));
  }
}
