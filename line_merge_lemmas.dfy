/**
 * What the first-fit merge guarantees about its groups and its output.
 *
 * `Partition` and `FirstFit` are a declarative description of the groups:
 * `GroupingPartition` and `GroupingFirstFit` show that the pass produces
 * groups of that description, and `GroupingUnique` shows that it is the
 * only grouping of that description, so the two definitions agree.
 */
module LineMergeLemmas {
  import opened Geometry
  import opened LineMerge

  ghost predicate Increasing(g: seq<nat>)
  {
    forall a, b :: 0 <= a < b < |g| ==> g[a] < g[b]
  }

  ghost predicate InSomeGroup(groups: seq<seq<nat>>, i: nat)
  {
    exists j :: 0 <= j < |groups| && i in groups[j]
  }

  ghost predicate AllIncreasing(groups: seq<seq<nat>>)
  {
    forall j :: 0 <= j < |groups| ==> Increasing(groups[j])
  }

  ghost predicate Covers(groups: seq<seq<nat>>, n: nat)
  {
    forall i :: 0 <= i < n ==> InSomeGroup(groups, i)
  }

  ghost predicate Disjoint(groups: seq<seq<nat>>)
  {
    forall i, j1, j2 :: 0 <= j1 < |groups| && 0 <= j2 < |groups| && i in groups[j1] && i in groups[j2] ==> j1 == j2
  }

  ghost predicate OrderedByFirst(groups: seq<seq<nat>>)
    requires forall j :: 0 <= j < |groups| ==> |groups[j]| > 0
  {
    forall j1, j2 :: 0 <= j1 < j2 < |groups| ==> groups[j1][0] < groups[j2][0]
  }

  /**
   * The groups partition the indices `0 .. n-1`: every group is non-empty
   * and increasing, every index lies in exactly one group, and groups are
   * ordered by their first member.
   */
  ghost predicate Partition(groups: seq<seq<nat>>, n: nat)
  {
    && WellFormed(groups, n)
    && AllIncreasing(groups)
    && Covers(groups, n)
    && Disjoint(groups)
    && OrderedByFirst(groups)
  }

  /**
   * First-fit membership: every member after the first matches its group's
   * reference, and no member matches the reference of an earlier group.
   */
  ghost predicate FirstFit(lines: seq<Segment>, groups: seq<seq<nat>>, angleThreshold: real, distanceThreshold: real)
  {
    && WellFormed(groups, |lines|)
    && forall j, k :: 0 <= j < |groups| && 0 <= k < |groups[j]| ==>
         && (0 < k ==> Matches(lines[groups[j][k]], lines[groups[j][0]], angleThreshold, distanceThreshold))
         && (forall j' :: 0 <= j' < j ==> !Matches(lines[groups[j][k]], lines[groups[j'][0]], angleThreshold, distanceThreshold))
  }

  // ---------------------------------------------------------------------
  // One placement step

  lemma PlacedMember(groups: seq<seq<nat>>, n: nat, j: nat, q: nat, i: nat)
    requires WellFormed(groups, n) && j <= |groups|
    requires q < |Place(groups, j, n)| && i in Place(groups, j, n)[q]
    ensures (i == n && q == j) || (i < n && q < |groups| && i in groups[q])
  {
    var p := Place(groups, j, n);
    if q < |groups| && q == j {
      assert p[q] == groups[q] + [n];
    } else if q < |groups| {
      assert p[q] == groups[q];
    } else {
      assert p[q] == [n];
    }
  }

  lemma PlaceAt(groups: seq<seq<nat>>, j: nat, i: nat, q: nat)
    requires j <= |groups| && q < |Place(groups, j, i)|
    ensures |Place(groups, j, i)| == if j < |groups| then |groups| else |groups| + 1
    ensures Place(groups, j, i)[q] == if q != j then groups[q] else if j < |groups| then groups[q] + [i] else [i]
  {
  }

  lemma PlaceIncreasing(groups: seq<seq<nat>>, n: nat, j: nat)
    requires WellFormed(groups, n) && AllIncreasing(groups) && j <= |groups|
    ensures AllIncreasing(Place(groups, j, n))
  {
    var p := Place(groups, j, n);
    forall q | 0 <= q < |p|
      ensures Increasing(p[q])
    {
      PlaceAt(groups, j, n, q);
    }
  }

  lemma PlaceCovers(groups: seq<seq<nat>>, n: nat, j: nat)
    requires Covers(groups, n) && j <= |groups|
    ensures Covers(Place(groups, j, n), n + 1)
  {
    var p := Place(groups, j, n);
    forall i | 0 <= i < n + 1
      ensures InSomeGroup(p, i)
    {
      if i == n {
        PlaceAt(groups, j, n, j);
        assert n in p[j];
      } else {
        assert InSomeGroup(groups, i);
        var q :| 0 <= q < |groups| && i in groups[q];
        PlaceAt(groups, j, n, q);
        assert i in p[q];
      }
    }
  }

  lemma PlaceDisjoint(groups: seq<seq<nat>>, n: nat, j: nat)
    requires WellFormed(groups, n) && Disjoint(groups) && j <= |groups|
    ensures Disjoint(Place(groups, j, n))
  {
    var p := Place(groups, j, n);
    forall i, q1, q2 | 0 <= q1 < |p| && 0 <= q2 < |p| && i in p[q1] && i in p[q2]
      ensures q1 == q2
    {
      PlacedMember(groups, n, j, q1, i);
      PlacedMember(groups, n, j, q2, i);
    }
  }

  lemma PlaceOrdered(groups: seq<seq<nat>>, n: nat, j: nat)
    requires WellFormed(groups, n) && OrderedByFirst(groups) && j <= |groups|
    ensures WellFormed(Place(groups, j, n), n + 1) && OrderedByFirst(Place(groups, j, n))
  {
    var p := Place(groups, j, n);
    forall q | 0 <= q < |p|
      ensures |p[q]| > 0 && p[q][0] == (if q < |groups| then groups[q][0] else n)
      ensures forall k :: 0 <= k < |p[q]| ==> p[q][k] < n + 1
    {
      PlaceAt(groups, j, n, q);
    }
  }

  lemma PlacePartition(groups: seq<seq<nat>>, n: nat, j: nat)
    requires Partition(groups, n) && j <= |groups|
    ensures Partition(Place(groups, j, n), n + 1)
  {
    PlaceIncreasing(groups, n, j);
    PlaceCovers(groups, n, j);
    PlaceDisjoint(groups, n, j);
    PlaceOrdered(groups, n, j);
  }

  lemma PlaceFirstFit(lines: seq<Segment>, n: nat, angleThreshold: real, distanceThreshold: real)
    requires 0 < n <= |lines|
    requires FirstFit(lines, Grouping(lines, n - 1, angleThreshold, distanceThreshold), angleThreshold, distanceThreshold)
    ensures FirstFit(lines, Grouping(lines, n, angleThreshold, distanceThreshold), angleThreshold, distanceThreshold)
  {
    var m := n - 1;
    var groups := Grouping(lines, m, angleThreshold, distanceThreshold);
    var j := FirstMatch(lines, groups, lines[m], 0, angleThreshold, distanceThreshold);
    var p := Place(groups, j, m);
    assert p == Grouping(lines, n, angleThreshold, distanceThreshold);
    assert forall q :: 0 <= q < |groups| ==> p[q] == if q == j then groups[q] + [m] else groups[q];
    assert j == |groups| ==> p[j] == [m];
    forall q, k | 0 <= q < |p| && 0 <= k < |p[q]|
      ensures 0 < k ==> Matches(lines[p[q][k]], lines[p[q][0]], angleThreshold, distanceThreshold)
      ensures forall q' :: 0 <= q' < q ==> !Matches(lines[p[q][k]], lines[p[q'][0]], angleThreshold, distanceThreshold)
    {
      if q < |groups| && k < |groups[q]| {
        assert p[q][k] == groups[q][k];
      } else {
        assert q == j && p[q][k] == m;
      }
    }
  }

  // ---------------------------------------------------------------------
  // The pass produces a first-fit partition, and no other

  /** The groups partition the input indices (ordered by first member). */
  lemma {:induction false} GroupingPartition(lines: seq<Segment>, n: nat, angleThreshold: real, distanceThreshold: real)
    requires n <= |lines|
    ensures Partition(Grouping(lines, n, angleThreshold, distanceThreshold), n)
  {
    if n > 0 {
      GroupingPartition(lines, n - 1, angleThreshold, distanceThreshold);
      GroupingStepPartition(lines, n, angleThreshold, distanceThreshold);
    }
  }

  lemma GroupingStepPartition(lines: seq<Segment>, n: nat, angleThreshold: real, distanceThreshold: real)
    requires 0 < n <= |lines|
    requires Partition(Grouping(lines, n - 1, angleThreshold, distanceThreshold), n - 1)
    ensures Partition(Grouping(lines, n, angleThreshold, distanceThreshold), n)
  {
    var m := n - 1;
    var g := Grouping(lines, m, angleThreshold, distanceThreshold);
    var j := FirstMatch(lines, g, lines[m], 0, angleThreshold, distanceThreshold);
    PlacePartition(g, m, j);
    assert Place(g, j, m) == Grouping(lines, n, angleThreshold, distanceThreshold);
  }

  /** Every segment sits in the first group, in creation order, whose reference it matches. */
  lemma {:induction false} GroupingFirstFit(lines: seq<Segment>, n: nat, angleThreshold: real, distanceThreshold: real)
    requires n <= |lines|
    ensures FirstFit(lines, Grouping(lines, n, angleThreshold, distanceThreshold), angleThreshold, distanceThreshold)
  {
    if n > 0 {
      GroupingFirstFit(lines, n - 1, angleThreshold, distanceThreshold);
      PlaceFirstFit(lines, n, angleThreshold, distanceThreshold);
    }
  }

  /** The largest index closes its group, and when it is alone there, its group is the last one. */
  lemma LastIndexPosition(groups: seq<seq<nat>>, n: nat) returns (j: nat)
    requires n > 0 && Partition(groups, n)
    ensures j < |groups| && groups[j][|groups[j]| - 1] == n - 1
    ensures |groups[j]| == 1 ==> j == |groups| - 1
  {
    var m := n - 1;
    assert InSomeGroup(groups, m);
    j :| 0 <= j < |groups| && m in groups[j];
    var last := |groups[j]| - 1;
    var p :| 0 <= p < |groups[j]| && groups[j][p] == m;
    assert groups[j][p] <= groups[j][last] < n;
    if last == 0 {
      var z := |groups| - 1;
      assert groups[j][0] <= groups[z][0] < n;
      assert m in groups[z];
    }
  }

  /** A partition of `0 .. n-1` is some smaller grouping with `n - 1` placed into it. */
  lemma RemoveLast(groups: seq<seq<nat>>, n: nat) returns (h: seq<seq<nat>>, j: nat)
    requires n > 0 && Partition(groups, n)
    ensures j <= |h| && groups == Place(h, j, n - 1)
    ensures forall q :: 0 <= q < |h| ==> 0 < |h[q]| <= |groups[q]| && h[q] == groups[q][..|h[q]|]
    ensures j < |groups| && groups[j][|groups[j]| - 1] == n - 1
  {
    var m := n - 1;
    j := LastIndexPosition(groups, n);
    var last := |groups[j]| - 1;
    if last == 0 {
      h := groups[..j];
      assert groups[j] == [m];
      assert groups == h + [[m]];
    } else {
      h := groups[j := groups[j][..last]];
      assert groups[j] == h[j] + [m];
      assert groups == h[j := h[j] + [m]];
    }
  }

  lemma UnplaceWellFormed(h: seq<seq<nat>>, j: nat, m: nat)
    requires j <= |h| && forall q :: 0 <= q < |h| ==> |h[q]| > 0
    requires WellFormed(Place(h, j, m), m + 1) && AllIncreasing(Place(h, j, m)) && Disjoint(Place(h, j, m))
    ensures WellFormed(h, m)
  {
    var p := Place(h, j, m);
    PlaceAt(h, j, m, j);
    assert m in p[j];
    forall q, k | 0 <= q < |h| && 0 <= k < |h[q]|
      ensures h[q][k] < m
    {
      PlaceAt(h, j, m, q);
      assert p[q][k] == h[q][k];
      if q == j {
        assert p[j][k] < p[j][|h[j]|];
      } else {
        assert h[q][k] in p[q];
      }
    }
  }

  lemma UnplaceIncreasing(h: seq<seq<nat>>, j: nat, m: nat)
    requires j <= |h| && AllIncreasing(Place(h, j, m))
    ensures AllIncreasing(h)
  {
    var p := Place(h, j, m);
    forall q | 0 <= q < |h|
      ensures Increasing(h[q])
    {
      PlaceAt(h, j, m, q);
      assert Increasing(p[q]);
      assert forall a :: 0 <= a < |h[q]| ==> h[q][a] == p[q][a];
    }
  }

  lemma UnplaceCovers(h: seq<seq<nat>>, j: nat, m: nat)
    requires j <= |h| && Covers(Place(h, j, m), m + 1)
    ensures Covers(h, m)
  {
    var p := Place(h, j, m);
    forall i | 0 <= i < m
      ensures InSomeGroup(h, i)
    {
      assert InSomeGroup(p, i);
      var q :| 0 <= q < |p| && i in p[q];
      var k :| 0 <= k < |p[q]| && p[q][k] == i;
      PlaceAt(h, j, m, q);
      assert q < |h| && k < |h[q]| && h[q][k] == i;
    }
  }

  lemma UnplaceDisjoint(h: seq<seq<nat>>, j: nat, m: nat)
    requires j <= |h| && Disjoint(Place(h, j, m))
    ensures Disjoint(h)
  {
    var p := Place(h, j, m);
    forall i, q1, q2 | 0 <= q1 < |h| && 0 <= q2 < |h| && i in h[q1] && i in h[q2]
      ensures q1 == q2
    {
      PlaceAt(h, j, m, q1);
      PlaceAt(h, j, m, q2);
      assert i in p[q1] && i in p[q2];
    }
  }

  lemma UnplaceOrdered(h: seq<seq<nat>>, j: nat, m: nat)
    requires j <= |h| && forall q :: 0 <= q < |h| ==> |h[q]| > 0
    requires WellFormed(Place(h, j, m), m + 1) && OrderedByFirst(Place(h, j, m))
    ensures OrderedByFirst(h)
  {
    var p := Place(h, j, m);
    forall q | 0 <= q < |h|
      ensures h[q][0] == p[q][0]
    {
      PlaceAt(h, j, m, q);
    }
  }

  lemma UnplacePartition(h: seq<seq<nat>>, j: nat, m: nat)
    requires j <= |h| && forall q :: 0 <= q < |h| ==> |h[q]| > 0
    requires Partition(Place(h, j, m), m + 1)
    ensures Partition(h, m)
  {
    UnplaceWellFormed(h, j, m);
    UnplaceIncreasing(h, j, m);
    UnplaceCovers(h, j, m);
    UnplaceDisjoint(h, j, m);
    UnplaceOrdered(h, j, m);
  }

  /** Group `q` starts at index `q` or later, since first members strictly increase. */
  lemma {:induction false} FirstAtLeastPosition(groups: seq<seq<nat>>, n: nat, q: nat)
    requires WellFormed(groups, n) && OrderedByFirst(groups) && q < |groups|
    ensures groups[q][0] >= q
  {
    if q > 0 {
      FirstAtLeastPosition(groups, n, q - 1);
    }
  }

  /** There are never more groups than indices. */
  lemma GroupCountBound(groups: seq<seq<nat>>, n: nat)
    requires WellFormed(groups, n) && OrderedByFirst(groups)
    ensures |groups| <= n
  {
    if |groups| > 0 {
      FirstAtLeastPosition(groups, n, |groups| - 1);
    }
  }

  lemma UnplaceFirstFit(lines: seq<Segment>, h: seq<seq<nat>>, j: nat, m: nat, angleThreshold: real, distanceThreshold: real)
    requires j <= |h| && WellFormed(h, m) && m < |lines|
    requires FirstFit(lines, Place(h, j, m), angleThreshold, distanceThreshold)
    ensures FirstFit(lines, h, angleThreshold, distanceThreshold)
    ensures FirstMatch(lines, h, lines[m], 0, angleThreshold, distanceThreshold) == j
  {
    var p := Place(h, j, m);
    forall q, k | 0 <= q < |h| && 0 <= k < |h[q]|
      ensures 0 < k ==> Matches(lines[h[q][k]], lines[h[q][0]], angleThreshold, distanceThreshold)
      ensures forall q' :: 0 <= q' < q ==> !Matches(lines[h[q][k]], lines[h[q'][0]], angleThreshold, distanceThreshold)
    {
      PlaceAt(h, j, m, q);
      assert p[q][k] == h[q][k] && p[q][0] == h[q][0];
      forall q' | 0 <= q' < q
        ensures p[q'][0] == h[q'][0]
      {
        PlaceAt(h, j, m, q');
      }
    }
    // where the last index went: after the members of group j, or alone in a new group
    PlaceAt(h, j, m, j);
    var last := |p[j]| - 1;
    assert p[j][last] == m;
    assert last == 0 <==> j == |h|;
    forall q' | 0 <= q' < j
      ensures !Matches(lines[m], lines[h[q'][0]], angleThreshold, distanceThreshold)
    {
      PlaceAt(h, j, m, q');
    }
    var r := FirstMatch(lines, h, lines[m], 0, angleThreshold, distanceThreshold);
    assert j < |h| ==> Matches(lines[m], lines[h[j][0]], angleThreshold, distanceThreshold);
    assert r == j;
  }

  /** Two descriptions agree: the only first-fit partition of `0 .. n-1` is the pass's grouping. */
  lemma {:induction false} GroupingUnique(lines: seq<Segment>, groups: seq<seq<nat>>, n: nat,
                                          angleThreshold: real, distanceThreshold: real)
    requires n <= |lines|
    requires Partition(groups, n) && FirstFit(lines, groups, angleThreshold, distanceThreshold)
    ensures groups == Grouping(lines, n, angleThreshold, distanceThreshold)
    decreases n
  {
    if n == 0 {
      GroupCountBound(groups, n);
    } else {
      var m := n - 1;
      var h, j := RemoveLast(groups, n);
      UnplacePartition(h, j, m);
      UnplaceFirstFit(lines, h, j, m, angleThreshold, distanceThreshold);
      GroupingUnique(lines, h, m, angleThreshold, distanceThreshold);
    }
  }

  /**
   * A segment at least `angleThreshold` away in angle from a group's
   * reference is never placed in that group: only the reference itself can
   * be that far from it.
   */
  lemma AngleSeparation(lines: seq<Segment>, angleThreshold: real, distanceThreshold: real)
    ensures
      var g := Grouping(lines, |lines|, angleThreshold, distanceThreshold);
      forall j, k :: 0 <= j < |g| && 0 <= k < |g[j]| && Abs(lines[g[j][k]].angle - lines[g[j][0]].angle) >= angleThreshold
        ==> k == 0
  {
    GroupingFirstFit(lines, |lines|, angleThreshold, distanceThreshold);
  }

  // ---------------------------------------------------------------------
  // Representatives

  lemma {:induction false} SumWithin(xs: seq<real>, lo: real, hi: real)
    requires forall k :: 0 <= k < |xs| ==> lo <= xs[k] <= hi
    ensures (|xs| as real) * lo <= Sum(xs) <= (|xs| as real) * hi
  {
    if xs != [] {
      var init := xs[..|xs| - 1];
      SumWithin(init, lo, hi);
      assert (|xs| as real) * lo == (|init| as real) * lo + lo;
      assert (|xs| as real) * hi == (|init| as real) * hi + hi;
    }
  }

  lemma {:induction false} SumStrictlyWithin(xs: seq<real>, lo: real, hi: real)
    requires |xs| > 0
    requires forall k :: 0 <= k < |xs| ==> lo < xs[k] < hi
    ensures (|xs| as real) * lo < Sum(xs) < (|xs| as real) * hi
  {
    var init := xs[..|xs| - 1];
    if init != [] {
      SumStrictlyWithin(init, lo, hi);
    }
    assert (|xs| as real) * lo == (|init| as real) * lo + lo;
    assert (|xs| as real) * hi == (|init| as real) * hi + hi;
  }

  /** A mean lies within any bounds its values lie within. */
  lemma MeanWithin(xs: seq<real>, lo: real, hi: real)
    requires |xs| > 0
    requires forall k :: 0 <= k < |xs| ==> lo <= xs[k] <= hi
    ensures lo <= Mean(xs) <= hi
  {
    SumWithin(xs, lo, hi);
    var n := |xs| as real;
    var m := Mean(xs);
    assert m * n == Sum(xs);
    assert (m - lo) * n >= 0.0 && (hi - m) * n >= 0.0;
  }

  lemma MeanStrictlyWithin(xs: seq<real>, lo: real, hi: real)
    requires |xs| > 0
    requires forall k :: 0 <= k < |xs| ==> lo < xs[k] < hi
    ensures lo < Mean(xs) < hi
  {
    SumStrictlyWithin(xs, lo, hi);
    var n := |xs| as real;
    var m := Mean(xs);
    assert m * n == Sum(xs);
    assert (m - lo) * n > 0.0 && (hi - m) * n > 0.0;
  }

  lemma {:induction false} IntSumWithin(xs: seq<int>, lo: int, hi: int)
    requires forall k :: 0 <= k < |xs| ==> lo <= xs[k] <= hi
    ensures |xs| * lo <= IntSum(xs) <= |xs| * hi
  {
    if xs != [] {
      var init := xs[..|xs| - 1];
      IntSumWithin(init, lo, hi);
      assert |xs| * lo == |init| * lo + lo;
      assert |xs| * hi == |init| * hi + hi;
    }
  }

  lemma ProductOrder(a: int, b: int, n: int)
    requires n > 0
    ensures a < b <==> a * n < b * n
  {
    if a < b {
      assert b * n - a * n == (b - a) * n;
    } else {
      assert a * n - b * n == (a - b) * n;
    }
  }

  lemma DivisionBounds(s: int, n: int)
    requires 0 <= s && 0 < n
    ensures 0 <= s / n
    ensures (s / n) * n <= s < (s / n + 1) * n
  {
    var q, r := s / n, s % n;
    assert s == q * n + r && 0 <= r < n;
    assert (q + 1) * n == q * n + n;
    if q < 0 {
      assert q * n <= -n by { ProductOrder(q, 0, n); }
    }
  }

  /** `TruncMean` rounds the integer mean toward zero. */
  lemma TruncMeanBounds(xs: seq<int>)
    requires |xs| > 0
    ensures var s, n, i := IntSum(xs), |xs|, TruncMean(xs);
      && (0 <= s ==> 0 <= i && i * n <= s < (i + 1) * n)
      && (s < 0 ==> i <= 0 && (i - 1) * n < s <= i * n)
  {
    var s, n, i := IntSum(xs), |xs|, TruncMean(xs);
    if 0 <= s {
      DivisionBounds(s, n);
    } else {
      DivisionBounds(-s, n);
      var q := (-s) / n;
      assert i == -q;
      assert (i - 1) * n == -((q + 1) * n);
      assert i * n == -(q * n);
    }
  }

  lemma RealProductOrder(a: real, b: real, n: real)
    requires n > 0.0
    ensures a < b <==> a * n < b * n
    ensures a <= b <==> a * n <= b * n
  {
    var an, bn := a * n, b * n;
    assert bn - an == (b - a) * n;
  }

  lemma QuotientOrder(a: real, b: real, n: real)
    requires n > 0.0
    ensures a * n <= b <==> a <= b / n
    ensures a * n < b <==> a < b / n
  {
    var m := b / n;
    assert m * n == b;
    RealProductOrder(a, m, n);
  }

  lemma CastProduct(a: int, b: int)
    ensures (a * b) as real == (a as real) * (b as real)
  {
  }

  /** Comparisons of an integer with an integer product carry over to the reals. */
  lemma CastCompare(s: int, n: int, t: int)
    ensures t * n <= s <==> (t as real) * (n as real) <= s as real
    ensures t * n < s <==> (t as real) * (n as real) < s as real
  {
    CastProduct(t, n);
  }

  /** Real bounds `lo * n <= s < hi * n` put `s / n` in `[lo, hi)`, and likewise with the strictness swapped. */
  lemma QuotientBetween(s: real, n: real, lo: real, hi: real)
    requires n > 0.0
    ensures lo * n <= s < hi * n ==> lo <= s / n < hi
    ensures lo * n < s <= hi * n ==> lo < s / n <= hi
  {
    QuotientOrder(lo, s, n);
    QuotientOrder(hi, s, n);
  }

  lemma TruncatedQuotient(s: int, n: int, t: int)
    requires n > 0
    requires 0 <= s ==> 0 <= t && t * n <= s < (t + 1) * n
    requires s < 0 ==> t <= 0 && (t - 1) * n < s <= t * n
    ensures
      var m := (s as real) / (n as real);
      && (0.0 <= m ==> t as real <= m < t as real + 1.0)
      && (m < 0.0 ==> t as real - 1.0 < m <= t as real)
  {
    if 0 <= s {
      QuotientFloor(s, n, t);
    } else {
      QuotientCeiling(s, n, t);
    }
  }

  /** `t * n <= s < (t + 1) * n` puts the real quotient `s / n` in `[t, t + 1)`. */
  lemma QuotientFloor(s: int, n: int, t: int)
    requires n > 0 && t * n <= s < (t + 1) * n
    ensures t as real <= (s as real) / (n as real) < t as real + 1.0
  {
    var sr, nr, tr := s as real, n as real, t as real;
    CastCompare(s, n, t);
    CastCompare(s, n, t + 1);
    assert tr * nr <= sr < (tr + 1.0) * nr;
    QuotientBetween(sr, nr, tr, tr + 1.0);
  }

  /** `(t - 1) * n < s <= t * n` puts the real quotient `s / n` in `(t - 1, t]`. */
  lemma QuotientCeiling(s: int, n: int, t: int)
    requires n > 0 && (t - 1) * n < s <= t * n
    ensures t as real - 1.0 < (s as real) / (n as real) <= t as real
  {
    var sr, nr, tr := s as real, n as real, t as real;
    CastCompare(s, n, t);
    CastCompare(s, n, t - 1);
    assert (tr - 1.0) * nr < sr <= tr * nr;
    QuotientBetween(sr, nr, tr - 1.0, tr);
  }

  /** `TruncMean` is the real mean of the values truncated toward zero, as `int(np.mean(...))` computes it. */
  lemma TruncMeanIsTruncatedMean(xs: seq<int>)
    requires |xs| > 0
    ensures
      var m := (IntSum(xs) as real) / (|xs| as real);
      var i := TruncMean(xs) as real;
      && (0.0 <= m ==> i <= m < i + 1.0)
      && (m < 0.0 ==> i - 1.0 < m <= i)
  {
    TruncMeanBounds(xs);
    TruncatedQuotient(IntSum(xs), |xs|, TruncMean(xs));
  }

  /** A truncated mean lies within any integer bounds its values lie within. */
  lemma TruncMeanWithin(xs: seq<int>, lo: int, hi: int)
    requires |xs| > 0
    requires forall k :: 0 <= k < |xs| ==> lo <= xs[k] <= hi
    ensures lo <= TruncMean(xs) <= hi
  {
    var s, n, t := IntSum(xs), |xs|, TruncMean(xs);
    IntSumWithin(xs, lo, hi);
    TruncMeanBounds(xs);
    if s >= 0 {
      ProductOrder(hi, t, n);
      ProductOrder(t, lo, n);
      assert (t + 1) * n > s;
      ProductOrder(lo, t + 1, n);
    } else {
      ProductOrder(t, lo, n);
      ProductOrder(t - 1, hi, n);
      ProductOrder(hi, t, n);
    }
  }

  /**
   * Each endpoint coordinate of a representative lies between the smallest
   * and the largest value of that coordinate among the group's members; in
   * particular members that agree on a coordinate keep it.
   */
  lemma RepresentativeCoordWithin(lines: seq<Segment>, group: seq<nat>, c: Coord, lo: int, hi: int)
    requires |group| > 0 && InRange(group, lines)
    requires forall k :: 0 <= k < |group| ==> lo <= CoordOf(lines[group[k]], c) <= hi
    ensures lo <= CoordOf(Representative(lines, group), c) <= hi
  {
    if |group| > 1 {
      var xs := Coordinates(lines, group, c);
      TruncMeanWithin(xs, lo, hi);
      var r := Representative(lines, group);
      assert CoordOf(r, c) == TruncMean(xs) by {
        match c
        case X1 =>
        case Y1 =>
        case X2 =>
        case Y2 =>
      }
    }
  }

  /** The representative's angle lies between the smallest and the largest member angle. */
  lemma RepresentativeAngleWithin(lines: seq<Segment>, group: seq<nat>, lo: real, hi: real)
    requires |group| > 0 && InRange(group, lines)
    requires forall k :: 0 <= k < |group| ==> lo <= lines[group[k]].angle <= hi
    ensures lo <= Representative(lines, group).angle <= hi
  {
    if |group| > 1 {
      MeanWithin(Angles(lines, group), lo, hi);
    }
  }

  /**
   * The singleton shortcut agrees with the averaging formula: every
   * representative is the truncated mean of each coordinate and the exact
   * mean angle of its group.
   */
  lemma RepresentativeIsMean(lines: seq<Segment>, group: seq<nat>)
    requires |group| > 0 && InRange(group, lines)
    ensures forall c :: CoordOf(Representative(lines, group), c) == TruncMean(Coordinates(lines, group, c))
    ensures Representative(lines, group).angle == Mean(Angles(lines, group))
  {
    if |group| == 1 {
      var angles := Angles(lines, group);
      assert angles[..0] == [] && Sum(angles) == angles[0];
    }
  }

  /** A group whose later members are within the angle threshold of its reference keeps a mean angle within it too. */
  lemma RepresentativeAngleNear(lines: seq<Segment>, group: seq<nat>, angleThreshold: real)
    requires |group| > 1 && InRange(group, lines)
    requires forall k :: 0 < k < |group| ==> Abs(lines[group[k]].angle - lines[group[0]].angle) < angleThreshold
    ensures Abs(Representative(lines, group).angle - lines[group[0]].angle) < angleThreshold
  {
    var ref := lines[group[0]].angle;
    assert Abs(lines[group[1]].angle - ref) < angleThreshold;
    var xs := Angles(lines, group);
    forall k | 0 <= k < |group|
      ensures ref - angleThreshold < xs[k] < ref + angleThreshold
    {
    }
    MeanStrictlyWithin(xs, ref - angleThreshold, ref + angleThreshold);
  }

  /** One more segment places the next index into the groups so far. */
  lemma GroupingStep(lines: seq<Segment>, n: nat, angleThreshold: real, distanceThreshold: real)
    requires n < |lines|
    ensures
      var g := Grouping(lines, n, angleThreshold, distanceThreshold);
      Grouping(lines, n + 1, angleThreshold, distanceThreshold)
        == Place(g, FirstMatch(lines, g, lines[n], 0, angleThreshold, distanceThreshold), n)
  {
  }

  /** The search for a group looks only at arena entries that group indices reach. */
  lemma {:induction false} FirstMatchOnPrefix(lines: seq<Segment>, n: nat, groups: seq<seq<nat>>, line: Segment, from: nat,
                                              angleThreshold: real, distanceThreshold: real)
    requires n <= |lines| && WellFormed(groups, n) && from <= |groups|
    ensures FirstMatch(lines[..n], groups, line, from, angleThreshold, distanceThreshold)
         == FirstMatch(lines, groups, line, from, angleThreshold, distanceThreshold)
    decreases |groups| - from
  {
    if from < |groups| {
      assert lines[..n][groups[from][0]] == lines[groups[from][0]];
      FirstMatchOnPrefix(lines, n, groups, line, from + 1, angleThreshold, distanceThreshold);
    }
  }

  /** One more group adds its representative at the end. */
  lemma RepresentativesStep(lines: seq<Segment>, groups: seq<seq<nat>>, k: nat)
    requires WellFormed(groups, |lines|) && k < |groups|
    ensures Representatives(lines, groups[..k + 1]) == Representatives(lines, groups[..k]) + [Representative(lines, groups[k])]
  {
    assert groups[..k + 1][..k] == groups[..k];
  }

  /** Entry `q` of the representatives is the representative of group `q`. */
  lemma {:induction false} RepresentativesAt(lines: seq<Segment>, groups: seq<seq<nat>>, q: nat)
    requires WellFormed(groups, |lines|) && q < |groups|
    ensures Representatives(lines, groups)[q] == Representative(lines, groups[q])
    decreases |groups|
  {
    if q < |groups| - 1 {
      var init := groups[..|groups| - 1];
      RepresentativesAt(lines, init, q);
      assert Representatives(lines, groups)[q] == Representatives(lines, init)[q];
    }
  }

  /** The merged list has one entry per group, each that group's representative. */
  lemma MergeAt(lines: seq<Segment>, angleThreshold: real, distanceThreshold: real, q: nat)
    requires |lines| > 0 && q < |Grouping(lines, |lines|, angleThreshold, distanceThreshold)|
    ensures
      var g := Grouping(lines, |lines|, angleThreshold, distanceThreshold);
      var out := Merge(lines, angleThreshold, distanceThreshold);
      |out| == |g| && out[q] == Representative(lines, g[q])
  {
    RepresentativesAt(lines, Grouping(lines, |lines|, angleThreshold, distanceThreshold), q);
  }

  /**
   * Output order and singletons: the merged list has one segment per group,
   * in group-creation order, and a group with one member yields that input
   * segment unchanged, angle included.
   */
  lemma MergedSingleton(lines: seq<Segment>, angleThreshold: real, distanceThreshold: real)
    ensures
      var g := Grouping(lines, |lines|, angleThreshold, distanceThreshold);
      var out := Merge(lines, angleThreshold, distanceThreshold);
      && |out| == |g|
      && forall q :: 0 <= q < |g| && |g[q]| == 1 ==> out[q] == lines[g[q][0]]
  {
    var g := Grouping(lines, |lines|, angleThreshold, distanceThreshold);
    var out := Merge(lines, angleThreshold, distanceThreshold);
    forall q | 0 <= q < |g| && |g[q]| == 1
      ensures out[q] == lines[g[q][0]]
    {
      MergeAt(lines, angleThreshold, distanceThreshold, q);
    }
  }

  /**
   * A merged segment that stands for more than one input has an angle
   * within the angle threshold of its group's reference segment.
   */
  lemma MergedAngleNearReference(lines: seq<Segment>, angleThreshold: real, distanceThreshold: real)
    ensures
      var g := Grouping(lines, |lines|, angleThreshold, distanceThreshold);
      var out := Merge(lines, angleThreshold, distanceThreshold);
      && |out| == |g|
      && forall q :: 0 <= q < |g| && |g[q]| > 1 ==> Abs(out[q].angle - lines[g[q][0]].angle) < angleThreshold
  {
    if |lines| > 0 {
      var g := Grouping(lines, |lines|, angleThreshold, distanceThreshold);
      GroupingFirstFit(lines, |lines|, angleThreshold, distanceThreshold);
      RepresentativesAngleNear(lines, g, angleThreshold);
    }
  }

  /** Groups whose members are all near their reference in angle have representatives near it too. */
  lemma RepresentativesAngleNear(lines: seq<Segment>, groups: seq<seq<nat>>, angleThreshold: real)
    requires WellFormed(groups, |lines|)
    requires forall q, k :: 0 <= q < |groups| && 0 < k < |groups[q]| ==>
      Abs(lines[groups[q][k]].angle - lines[groups[q][0]].angle) < angleThreshold
    ensures forall q :: 0 <= q < |groups| && |groups[q]| > 1 ==>
      Abs(Representatives(lines, groups)[q].angle - lines[groups[q][0]].angle) < angleThreshold
  {
    forall q | 0 <= q < |groups| && |groups[q]| > 1
      ensures Abs(Representatives(lines, groups)[q].angle - lines[groups[q][0]].angle) < angleThreshold
    {
      var group := groups[q];
      assert InRange(group, lines);
      RepresentativeAngleNear(lines, group, angleThreshold);
      RepresentativesAt(lines, groups, q);
    }
  }
}
