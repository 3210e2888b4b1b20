/** Lloyd's iteration descends.  The objective of a labelling is its within-cluster sum of squares at its own means;
    moving labels to nearest means never raises it, and ties go to the lowest label, so (objective, sum of labels)
    falls lexicographically whenever a label changes. */
module Descent {
  import opened Sums
  import opened Clustering
  import Indices

  // ---------- one point, two centres ----------

  /** The cross term of |x - z|^2 = |x - a|^2 + |a - z|^2 + 2 <x - a, a - z>. */
  ghost function Cross(x: Vec, a: Vec, z: Vec, m: nat): real
    requires m <= |x| && m <= |a| && m <= |z|
  {
    if m == 0 then 0.0 else Cross(x, a, z, m - 1) + (x[m - 1] - a[m - 1]) * (a[m - 1] - z[m - 1])
  }

  lemma SquareOfSum(u: real, v: real)
    ensures Square(u + v) == Square(u) + Square(v) + 2.0 * (u * v)
  {
  }

  lemma {:induction false} Expand(x: Vec, a: Vec, z: Vec, m: nat)
    requires m <= |x| && m <= |a| && m <= |z|
    ensures SqDist(x, z, m) == SqDist(x, a, m) + SqDist(a, z, m) + 2.0 * Cross(x, a, z, m)
  {
    if m > 0 {
      Expand(x, a, z, m - 1);
      var c := m - 1;
      SquareOfSum(x[c] - a[c], a[c] - z[c]);
      assert (x[c] - a[c]) + (a[c] - z[c]) == x[c] - z[c];
    }
  }

  lemma TimesPositive(a: real, b: real)
    requires a > 0.0 && b > 0.0
    ensures Times(a, b) > 0.0 && Times(-a, -b) > 0.0
  {
  }

  lemma SquareIsPositive(d: real)
    requires d != 0.0
    ensures Square(d) > 0.0
  {
    TimesPositive(if d > 0.0 then d else -d, if d > 0.0 then d else -d);
  }

  lemma {:induction false} SqDistNonNegative(a: Vec, b: Vec, m: nat)
    requires m <= |a| && m <= |b|
    ensures SqDist(a, b, m) >= 0.0
  {
    if m > 0 {
      SqDistNonNegative(a, b, m - 1);
      var d := a[m - 1] - b[m - 1];
      if d != 0.0 {
        SquareIsPositive(d);
      }
    }
  }

  lemma {:induction false} ZeroDistanceIsEqual(a: Vec, b: Vec, m: nat)
    requires m <= |a| && m <= |b|
    ensures SqDist(a, b, m) == 0.0 <==> a[..m] == b[..m]
  {
    if m > 0 {
      ZeroDistanceIsEqual(a, b, m - 1);
      SqDistNonNegative(a, b, m - 1);
      assert a[..m] == a[..m - 1] + [a[m - 1]];
      assert b[..m] == b[..m - 1] + [b[m - 1]];
      var d := a[m - 1] - b[m - 1];
      if d != 0.0 {
        SquareIsPositive(d);
      }
      if a[..m] == b[..m] {
        assert a[..m][..m - 1] == b[..m][..m - 1];
        assert a[..m][m - 1] == b[..m][m - 1];
      }
    }
  }

  // ---------- regrouping by cluster ----------

  /** One vector per label; the value at a dead centre is irrelevant because no label uses it. */
  ghost predicate Sites(s: seq<Vec>, k: nat, p: nat) {
    |s| == k && forall j :: 0 <= j < k ==> |s[j]| == p
  }

  /** The cost of the first m points at the sites their labels name. */
  ghost function CostAt(pts: seq<Vec>, lab: seq<int>, s: seq<Vec>, p: nat, m: nat): real
    requires Points(pts, p) && m <= |lab| == |pts| && Labels(lab, |s|) && Sites(s, |s|, p)
  {
    if m == 0 then 0.0
    else CostAt(pts, lab, s, p, m - 1) + SqDist(pts[m - 1], s[lab[m - 1]], p)
  }

  /** What cluster j contributes to the sum of cross terms, from its total and its count alone. */
  ghost function Offset(pts: seq<Vec>, lab: seq<int>, j: int, a: Vec, z: Vec, m: nat, c: nat): real
    requires Points(pts, |a|) && m <= |lab| == |pts| && |a| == |z| && c <= |a|
  {
    if c == 0 then 0.0
    else
      Offset(pts, lab, j, a, z, m, c - 1)
      + (Total(pts, lab, j, c - 1, m) - Count(lab, j, m) as real * a[c - 1]) * (a[c - 1] - z[c - 1])
  }

  lemma {:induction false} OffsetGrows(pts: seq<Vec>, lab: seq<int>, j: int, a: Vec, z: Vec, m: nat, c: nat)
    requires Points(pts, |a|) && m < |lab| == |pts| && |a| == |z| && c <= |a|
    ensures Offset(pts, lab, j, a, z, m + 1, c)
         == Offset(pts, lab, j, a, z, m, c) + (if lab[m] == j then Cross(pts[m], a, z, c) else 0.0)
  {
    if c > 0 {
      OffsetGrows(pts, lab, j, a, z, m, c - 1);
      if lab[m] == j {
        var total, count := Total(pts, lab, j, c - 1, m), Count(lab, j, m) as real;
        var x, y, w := pts[m][c - 1], a[c - 1], a[c - 1] - z[c - 1];
        assert (total + x - (count + 1.0) * y) * w == (total - count * y) * w + (x - y) * w by {
          assert (count + 1.0) * y == count * y + y;
        }
      }
    }
  }

  /** What cluster j pays for sitting at z instead of at a. */
  ghost function Gap(lab: seq<int>, j: int, a: Vec, z: Vec, m: nat): real
    requires m <= |lab| && |a| == |z|
  {
    Count(lab, j, m) as real * SqDist(a, z, |a|)
  }

  /** One more point changes the gap and the offset of its own cluster only. */
  lemma OnePointMore(pts: seq<Vec>, lab: seq<int>, j: int, a: Vec, z: Vec, m: nat)
    requires Points(pts, |a|) && m < |lab| == |pts| && |a| == |z|
    ensures Gap(lab, j, a, z, m + 1) == Gap(lab, j, a, z, m) + (if lab[m] == j then SqDist(a, z, |a|) else 0.0)
    ensures Offset(pts, lab, j, a, z, m + 1, |a|)
         == Offset(pts, lab, j, a, z, m, |a|) + (if lab[m] == j then Cross(pts[m], a, z, |a|) else 0.0)
  {
    hide SqDist, Cross;
    OffsetGrows(pts, lab, j, a, z, m, |a|);
    var n, d := Count(lab, j, m) as real, SqDist(a, z, |a|);
    assert (n + 1.0) * d == n * d + d;
  }

  /** The cost at other sites z exceeds the cost at a by exactly what the counts, totals and distances say. */
  lemma {:induction false} Regroup(pts: seq<Vec>, lab: seq<int>, a: seq<Vec>, z: seq<Vec>, p: nat, m: nat,
                                   gap: int -> real, offset: int -> real)
    requires Points(pts, p) && m <= |lab| == |pts| && Labels(lab, |a|) && |a| == |z|
    requires Sites(a, |a|, p) && Sites(z, |a|, p)
    requires forall j :: 0 <= j < |a| ==> gap(j) == Gap(lab, j, a[j], z[j], m)
    requires forall j :: 0 <= j < |a| ==> offset(j) == Offset(pts, lab, j, a[j], z[j], m, p)
    ensures CostAt(pts, lab, z, p, m)
         == CostAt(pts, lab, a, p, m) + Sum(|a|, gap) + 2.0 * Sum(|a|, offset)
  {
    hide SqDist, Cross, Sum;
    if m == 0 {
      forall j | 0 <= j < |a|
        ensures offset(j) == 0.0 && gap(j) == 0.0
      {
        OffsetOfNothing(pts, lab, j, a[j], z[j], p);
      }
      SumOfZeros(|a|, gap);
      SumOfZeros(|a|, offset);
    } else {
      hide Count, Offset, Total, Gap;
      var i, l := m - 1, lab[m - 1];
      var gap0 := j => if 0 <= j < |a| then Gap(lab, j, a[j], z[j], i) else 0.0;
      var offset0 := j => if 0 <= j < |a| then Offset(pts, lab, j, a[j], z[j], i, p) else 0.0;
      Regroup(pts, lab, a, z, p, i, gap0, offset0);
      forall j | 0 <= j < |a|
        ensures gap(j) == gap0(j) + (if j == l then SqDist(a[j], z[j], p) else 0.0)
        ensures offset(j) == offset0(j) + (if j == l then Cross(pts[i], a[j], z[j], p) else 0.0)
      {
        OnePointMore(pts, lab, j, a[j], z[j], i);
      }
      SumBump(|a|, gap0, gap, l, SqDist(a[l], z[l], p));
      SumBump(|a|, offset0, offset, l, Cross(pts[i], a[l], z[l], p));
      Expand(pts[i], a[l], z[l], p);
    }
  }

  lemma {:induction false} OffsetOfNothing(pts: seq<Vec>, lab: seq<int>, j: int, a: Vec, z: Vec, c: nat)
    requires Points(pts, |a|) && |lab| == |pts| && |a| == |z| && c <= |a|
    ensures Offset(pts, lab, j, a, z, 0, c) == 0.0
  {
    if c > 0 {
      OffsetOfNothing(pts, lab, j, a, z, c - 1);
    }
  }

  /** At the mean of a cluster its cross terms cancel; an empty cluster has none. */
  lemma {:induction false} OffsetAtMean(pts: seq<Vec>, lab: seq<int>, j: int, a: Vec, z: Vec, c: nat)
    requires Points(pts, |a|) && |lab| == |pts| && |a| == |z| && c <= |a|
    requires Mean(pts, lab, j, |a|).Live? ==> a == Mean(pts, lab, j, |a|).at
    ensures Offset(pts, lab, j, a, z, |lab|, c) == 0.0
  {
    if c > 0 {
      OffsetAtMean(pts, lab, j, a, z, c - 1);
      var total, n := Total(pts, lab, j, c - 1, |lab|), Count(lab, j, |lab|);
      if n == 0 {
        EmptyClusterHasNoTotal(pts, lab, j, c - 1, |lab|);
      } else {
        assert a[c - 1] == total / n as real;
      }
      assert total - n as real * a[c - 1] == 0.0;
    }
  }

  // ---------- cost at centres ----------

  ghost function SitesOf(cs: seq<Center>, p: nat): (s: seq<Vec>)
    requires Centers(cs, p)
    ensures Sites(s, |cs|, p)
    ensures forall j :: 0 <= j < |cs| && cs[j].Live? ==> s[j] == cs[j].at
  {
    seq(|cs|, j requires 0 <= j < |cs| => if cs[j].Live? then cs[j].at else seq(p, c => 0.0))
  }

  /** Every label names a live centre. */
  ghost predicate Usable(lab: seq<int>, cs: seq<Center>) {
    Labels(lab, |cs|) && forall i :: 0 <= i < |lab| ==> cs[lab[i]].Live?
  }

  /** The within-cluster sum of squares of a labelling at given centres. */
  ghost function Cost(pts: seq<Vec>, lab: seq<int>, cs: seq<Center>, p: nat): real
    requires Points(pts, p) && |lab| == |pts| && Centers(cs, p) && Labels(lab, |cs|)
  {
    CostAt(pts, lab, SitesOf(cs, p), p, |lab|)
  }

  /** The objective of a labelling: its cost at its own means. */
  ghost function Objective(pts: seq<Vec>, lab: seq<int>, k: nat, p: nat): real
    requires Points(pts, p) && |lab| == |pts| && Labels(lab, k)
  {
    Cost(pts, lab, Means(pts, lab, k, p), p)
  }

  /** Steiner's identity for a whole labelling: the cost at any centres is the objective plus, for every cluster, its
      mass times the squared distance from its mean. */
  lemma Steiner(pts: seq<Vec>, lab: seq<int>, cs: seq<Center>, k: nat, p: nat) returns (gap: int -> real)
    requires Points(pts, p) && |lab| == |pts| && Labels(lab, k) && |cs| == k && Centers(cs, p)
    ensures Cost(pts, lab, cs, p) == Objective(pts, lab, k, p) + Sum(k, gap)
    ensures forall j :: 0 <= j < k ==>
              gap(j) == Gap(lab, j, SitesOf(Means(pts, lab, k, p), p)[j], SitesOf(cs, p)[j], |lab|)
    ensures forall j :: 0 <= j < k ==> gap(j) >= 0.0
  {
    hide SqDist, Count, Offset, Total, Sum;
    var means := Means(pts, lab, k, p);
    var a, z := SitesOf(means, p), SitesOf(cs, p);
    gap := j => if 0 <= j < k then Gap(lab, j, a[j], z[j], |lab|) else 0.0;
    var offset := j => if 0 <= j < k then Offset(pts, lab, j, a[j], z[j], |lab|, p) else 0.0;
    forall j | 0 <= j < k
      ensures offset(j) == 0.0
    {
      OffsetAtMean(pts, lab, j, a[j], z[j], p);
    }
    Regroup(pts, lab, a, z, p, |lab|, gap, offset);
    SumOfZeros(k, offset);
    forall j | 0 <= j < k
      ensures gap(j) >= 0.0
    {
      SqDistNonNegative(a[j], z[j], p);
    }
  }

  /** No centres cost less than the means. */
  lemma MeansAreBest(pts: seq<Vec>, lab: seq<int>, cs: seq<Center>, k: nat, p: nat)
    requires Points(pts, p) && |lab| == |pts| && Labels(lab, k) && |cs| == k && Centers(cs, p)
    ensures Objective(pts, lab, k, p) <= Cost(pts, lab, cs, p)
  {
    var gap := Steiner(pts, lab, cs, k, p);
    SumNonNegative(k, gap);
  }

  /** A used cluster that is away from its mean makes the cost strictly larger. */
  lemma AwayFromMeanIsWorse(pts: seq<Vec>, lab: seq<int>, cs: seq<Center>, k: nat, p: nat, i: nat)
    requires Points(pts, p) && |lab| == |pts| && Labels(lab, k) && |cs| == k && Centers(cs, p) && i < |lab|
    requires Usable(lab, cs) && cs[lab[i]] != Mean(pts, lab, lab[i], p)
    ensures Objective(pts, lab, k, p) < Cost(pts, lab, cs, p)
  {
    hide SqDist, Count, Total, Sum, CostAt;
    var gap := Steiner(pts, lab, cs, k, p);
    var j := lab[i];
    UsedCentersAreLive(pts, lab, k, p);
    var a, z := SitesOf(Means(pts, lab, k, p), p)[j], SitesOf(cs, p)[j];
    ZeroDistanceIsEqual(a, z, p);
    assert a[..p] == a && z[..p] == z;
    SqDistNonNegative(a, z, p);
    CountIsPositive(lab, i, |lab|);
    assert gap(j) > 0.0;
    SumAtLeastTerm(k, gap, j);
  }

  // ---------- one iteration ----------

  ghost function LabelSum(lab: seq<int>, m: nat): int
    requires m <= |lab|
  {
    if m == 0 then 0 else LabelSum(lab, m - 1) + lab[m - 1]
  }

  /** Labelling b is lower than labelling a: a smaller objective, or the same objective and smaller labels. */
  ghost predicate Lower(pts: seq<Vec>, b: seq<int>, a: seq<int>, k: nat, p: nat)
    requires Points(pts, p) && |a| == |b| == |pts| && Labels(a, k) && Labels(b, k)
  {
    || Objective(pts, b, k, p) < Objective(pts, a, k, p)
    || (Objective(pts, b, k, p) == Objective(pts, a, k, p) && LabelSum(b, |b|) < LabelSum(a, |a|))
  }

  /** Each label of b names a centre no farther than the label of a does, and a lower one when it is no nearer. */
  ghost predicate NoFarther(pts: seq<Vec>, b: seq<int>, a: seq<int>, s: seq<Vec>, p: nat)
    requires Points(pts, p) && |a| == |b| == |pts| && Labels(a, |s|) && Labels(b, |s|) && Sites(s, |s|, p)
  {
    forall i :: 0 <= i < |a| ==>
      var db, da := SqDist(pts[i], s[b[i]], p), SqDist(pts[i], s[a[i]], p);
      db < da || (db == da && b[i] <= a[i])
  }

  lemma {:induction false} NoFartherCostsNoMore(pts: seq<Vec>, b: seq<int>, a: seq<int>, s: seq<Vec>, p: nat, m: nat)
    requires Points(pts, p) && m <= |a| == |b| == |pts| && Labels(a, |s|) && Labels(b, |s|) && Sites(s, |s|, p)
    requires NoFarther(pts, b, a, s, p)
    ensures CostAt(pts, b, s, p, m) <= CostAt(pts, a, s, p, m)
    ensures CostAt(pts, b, s, p, m) == CostAt(pts, a, s, p, m) ==>
              forall i :: 0 <= i < m ==> SqDist(pts[i], s[b[i]], p) == SqDist(pts[i], s[a[i]], p) && b[i] <= a[i]
  {
    hide SqDist;
    if m > 0 {
      NoFartherCostsNoMore(pts, b, a, s, p, m - 1);
    }
  }

  lemma {:induction false} SmallerLabels(b: seq<int>, a: seq<int>, m: nat)
    requires m <= |a| == |b|
    requires forall i :: 0 <= i < m ==> b[i] <= a[i]
    ensures LabelSum(b, m) <= LabelSum(a, m)
    ensures LabelSum(b, m) == LabelSum(a, m) ==> b[..m] == a[..m]
  {
    if m > 0 {
      SmallerLabels(b, a, m - 1);
      assert b[..m] == b[..m - 1] + [b[m - 1]] && a[..m] == a[..m - 1] + [a[m - 1]];
    }
  }

  /** Moving labels to centres no farther away, with ties going down, lowers the labelling. */
  lemma MovingLowers(pts: seq<Vec>, b: seq<int>, a: seq<int>, k: nat, p: nat)
    requires Points(pts, p) && |a| == |b| == |pts| && Labels(a, k) && Labels(b, k)
    requires NoFarther(pts, b, a, SitesOf(Means(pts, a, k, p), p), p)
    requires a != b
    ensures Lower(pts, b, a, k, p)
  {
    hide SqDist, CostAt, LabelSum;
    var means := Means(pts, a, k, p);
    NoFartherCostsNoMore(pts, b, a, SitesOf(means, p), p, |a|);
    MeansAreBest(pts, b, means, k, p);
    assert Objective(pts, b, k, p) <= Cost(pts, b, means, p) <= Objective(pts, a, k, p);
    if Objective(pts, b, k, p) == Objective(pts, a, k, p) {
      SmallerLabels(b, a, |a|);
      assert b[..|a|] == b && a[..|a|] == a;
    }
  }

  lemma NearestIsNoFarther(pts: seq<Vec>, lab: seq<int>, k: nat, p: nat, i: nat)
    requires Points(pts, p) && |lab| == |pts| && Labels(lab, k) && i < |lab|
    ensures var means := Means(pts, lab, k, p);
            var s, j := SitesOf(means, p), Nearest(pts[i], means);
            && IsNearest(pts[i], means, j)
            && (SqDist(pts[i], s[j], p) < SqDist(pts[i], s[lab[i]], p)
                || (SqDist(pts[i], s[j], p) == SqDist(pts[i], s[lab[i]], p) && j <= lab[i]))
  {
    hide SqDist, Mean;
    UsedCentersAreLive(pts, lab, k, p);
    NearestIsNearest(pts[i], Means(pts, lab, k, p));
  }

  /** An iteration that changes a label lowers the labelling. */
  lemma NextLowers(pts: seq<Vec>, lab: seq<int>, k: nat, p: nat)
    requires Points(pts, p) && |lab| == |pts| && Labels(lab, k) && k > 0
    requires Next(pts, lab, k, p) != lab
    ensures Lower(pts, Next(pts, lab, k, p), lab, k, p)
  {
    hide SqDist, Mean, Nearest, IsNearest;
    var s, b := SitesOf(Means(pts, lab, k, p), p), Next(pts, lab, k, p);
    forall i | 0 <= i < |lab|
      ensures SqDist(pts[i], s[b[i]], p) < SqDist(pts[i], s[lab[i]], p)
              || (SqDist(pts[i], s[b[i]], p) == SqDist(pts[i], s[lab[i]], p) && b[i] <= lab[i])
    {
      NearestIsNoFarther(pts, lab, k, p, i);
    }
    MovingLowers(pts, b, lab, k, p);
  }

  // ---------- termination ----------

  function Power(k: nat, n: nat): nat {
    if n == 0 then 1 else k * Power(k, n - 1)
  }

  /** The labellings in s, each with one more label j. */
  ghost function Append(s: set<seq<int>>, j: int): set<seq<int>> {
    set rest | rest in s :: rest + [j]
  }

  /** The labellings in s, each with one more label below k. */
  ghost function Extend(s: set<seq<int>>, k: nat): (r: set<seq<int>>)
    ensures forall rest, j :: rest in s && 0 <= j < k ==> rest + [j] in r
  {
    if k == 0 then {} else Extend(s, k - 1) + Append(s, k - 1)
  }

  /** Every labelling of n points with k labels. */
  ghost function Space(k: nat, n: nat): (s: set<seq<int>>)
    ensures forall lab: seq<int> :: |lab| == n && Labels(lab, k) ==> lab in s
  {
    if n == 0 then {[]}
    else
      var shorter := Space(k, n - 1);
      assert forall lab: seq<int> :: |lab| == n && Labels(lab, k) ==>
               lab[..n - 1] in shorter && 0 <= lab[n - 1] < k && lab == lab[..n - 1] + [lab[n - 1]];
      Extend(shorter, k)
  }

  lemma {:induction false} AppendSize(s: set<seq<int>>, j: int)
    ensures |Append(s, j)| <= |s|
  {
    if s == {} {
      assert Append(s, j) == {};
    } else {
      var x :| x in s;
      AppendSize(s - {x}, j);
      assert Append(s, j) == Append(s - {x}, j) + {x + [j]};
    }
  }

  lemma {:induction false} ExtendSize(s: set<seq<int>>, k: nat)
    ensures |Extend(s, k)| <= k * |s|
  {
    hide Append;
    if k > 0 {
      ExtendSize(s, k - 1);
      AppendSize(s, k - 1);
      assert k * |s| == (k - 1) * |s| + |s|;
    }
  }

  lemma {:induction false} SpaceSize(k: nat, n: nat)
    ensures |Space(k, n)| <= Power(k, n)
  {
    hide Extend;
    if n > 0 {
      SpaceSize(k, n - 1);
      ExtendSize(Space(k, n - 1), k);
      Indices.Monotone(|Space(k, n - 1)|, Power(k, n - 1), k);
    }
  }

  /** A set of labellings that a run has left behind, all of them above the present one. */
  ghost predicate Behind(pts: seq<Vec>, seen: set<seq<int>>, lab: seq<int>, k: nat, p: nat)
    requires Points(pts, p) && |lab| == |pts| && Labels(lab, k)
  {
    forall past :: past in seen ==> |past| == |pts| && Labels(past, k) && Lower(pts, lab, past, k, p)
  }

  /** The present labelling is new, so a run that keeps falling cannot have left every labelling behind. */
  lemma BehindIsBounded(pts: seq<Vec>, seen: set<seq<int>>, lab: seq<int>, k: nat, p: nat)
    requires Points(pts, p) && |lab| == |pts| && Labels(lab, k)
    requires Behind(pts, seen, lab, k, p)
    ensures lab !in seen
    ensures |seen| < Power(k, |pts|)
  {
    hide Objective, LabelSum, Space;
    var all := Space(k, |pts|);
    assert seen + {lab} <= all;
    SpaceSize(k, |pts|);
    Cardinality(seen + {lab}, all);
  }

  lemma {:induction false} Cardinality(a: set<seq<int>>, b: set<seq<int>>)
    requires a <= b
    ensures |a| <= |b|
  {
    if a != {} {
      var x :| x in a;
      Cardinality(a - {x}, b - {x});
    }
  }

  lemma FallingKeepsBehind(pts: seq<Vec>, seen: set<seq<int>>, lab: seq<int>, lower: seq<int>, k: nat, p: nat)
    requires Points(pts, p) && |lab| == |lower| == |pts| && Labels(lab, k) && Labels(lower, k)
    requires Behind(pts, seen, lab, k, p) && Lower(pts, lower, lab, k, p)
    ensures Behind(pts, seen + {lab}, lower, k, p)
  {
    hide Objective, LabelSum;
  }

  /** Without any limit on iterations the labels still settle: within k^n iterations one repeats its labelling. */
  lemma Converges(pts: seq<Vec>, c0: seq<Center>, p: nat) returns (t: nat)
    requires Points(pts, p) && Centers(c0, p) && |c0| > 0
    ensures 1 <= t <= Power(|c0|, |pts|)
    ensures Iterate(pts, c0, p, t + 1) == Iterate(pts, c0, p, t)
    ensures forall m :: 1 <= m < t ==> Lower(pts, Iterate(pts, c0, p, m + 1), Iterate(pts, c0, p, m), |c0|, p)
  {
    hide Objective, LabelSum, Assign, Next, Power;
    var k := |c0|;
    t := 1;
    var seen: set<seq<int>> := {};
    BehindIsBounded(pts, seen, Iterate(pts, c0, p, 1), k, p);
    while Iterate(pts, c0, p, t + 1) != Iterate(pts, c0, p, t)
      invariant 1 <= t <= Power(k, |pts|)
      invariant |seen| == t - 1
      invariant Behind(pts, seen, Iterate(pts, c0, p, t), k, p)
      invariant forall m :: 1 <= m < t ==> Lower(pts, Iterate(pts, c0, p, m + 1), Iterate(pts, c0, p, m), k, p)
      decreases Power(k, |pts|) - t
    {
      var lab := Iterate(pts, c0, p, t);
      NextLowers(pts, lab, k, p);
      BehindIsBounded(pts, seen, lab, k, p);
      FallingKeepsBehind(pts, seen, lab, Iterate(pts, c0, p, t + 1), k, p);
      seen := seen + {lab};
      BehindIsBounded(pts, seen, Iterate(pts, c0, p, t + 1), k, p);
      t := t + 1;
    }
  }

  /** As long as labellings keep changing, each is lower than all before it; so none of them ever comes back. */
  lemma {:induction false} LoweredThroughout(pts: seq<Vec>, c0: seq<Center>, p: nat, s: nat, t: nat)
    requires Points(pts, p) && Centers(c0, p) && |c0| > 0 && 1 <= s < t
    requires forall m :: s <= m < t ==> Iterate(pts, c0, p, m + 1) != Iterate(pts, c0, p, m)
    ensures Lower(pts, Iterate(pts, c0, p, t), Iterate(pts, c0, p, s), |c0|, p)
    ensures Iterate(pts, c0, p, t) != Iterate(pts, c0, p, s)
  {
    hide Objective, LabelSum, Assign, Next;
    IterateNext(pts, c0, p, t - 1);
    assert Iterate(pts, c0, p, (t - 1) + 1) != Iterate(pts, c0, p, t - 1);
    NextLowers(pts, Iterate(pts, c0, p, t - 1), |c0|, p);
    if s < t - 1 {
      LoweredThroughout(pts, c0, p, s, t - 1);
    }
  }

  /** A labelling that the next iteration repeats is settled: every point has the nearest mean of all clusters. */
  lemma Settled(pts: seq<Vec>, lab: seq<int>, k: nat, p: nat)
    requires Points(pts, p) && |lab| == |pts| && Labels(lab, k) && k > 0
    ensures Next(pts, lab, k, p) == lab <==>
            forall i :: 0 <= i < |pts| ==> IsNearest(pts[i], Means(pts, lab, k, p), lab[i])
  {
    hide Means, IsNearest, Nearest;
    UsedCentersAreLive(pts, lab, k, p);
    var means := Means(pts, lab, k, p);
    forall i | 0 <= i < |pts|
      ensures Next(pts, lab, k, p)[i] == lab[i] <==> IsNearest(pts[i], means, lab[i])
    {
      NearestIsNearest(pts[i], means);
      if IsNearest(pts[i], means, lab[i]) {
        NearestIsUnique(pts[i], means, lab[i], Nearest(pts[i], means));
      }
    }
  }
}
