/**
 * Specification of the detector's line merging: a single first-fit pass
 * that puts every segment into the first existing group whose reference
 * segment (the group's first member) is close in angle and in endpoint
 * position, and then replaces every group by one representative segment.
 *
 * Groups are sequences of indices into the input, as in the detector's
 * own arena of segments. `Grouping` is the grouping after the first `n`
 * segments; `Merge` is the list the detector returns.
 */
module LineMerge {
  import opened Geometry

  function Min(a: nat, b: nat): (m: nat)
    ensures m <= a && m <= b
    ensures m == a || m == b
  {
    if a <= b then a else b
  }

  /**
   * The join test between a segment and a group's reference: the angles
   * differ by less than the angle threshold and the smaller of the two
   * same-index endpoint distances (A to A, B to B) is below the distance
   * threshold.
   */
  predicate Matches(line: Segment, ref: Segment, angleThreshold: real, distanceThreshold: real)
    ensures Matches(line, ref, angleThreshold, distanceThreshold) <==>
      && Abs(line.angle - ref.angle) < angleThreshold
      && (WithinDistance(SqDist(line.a, ref.a), distanceThreshold) || WithinDistance(SqDist(line.b, ref.b), distanceThreshold))
  {
    && Abs(line.angle - ref.angle) < angleThreshold
    && WithinDistance(Min(SqDist(line.a, ref.a), SqDist(line.b, ref.b)), distanceThreshold)
  }

  /** Every group is non-empty and holds only indices below `n`. */
  predicate WellFormed(groups: seq<seq<nat>>, n: nat)
  {
    forall j :: 0 <= j < |groups| ==>
      |groups[j]| > 0 && forall k :: 0 <= k < |groups[j]| ==> groups[j][k] < n
  }

  /**
   * The index of the first group, from `from` on, whose reference segment
   * `line` matches; `|groups|` when there is none.
   */
  function FirstMatch(lines: seq<Segment>, groups: seq<seq<nat>>, line: Segment, from: nat,
                      angleThreshold: real, distanceThreshold: real): (j: nat)
    requires WellFormed(groups, |lines|)
    requires from <= |groups|
    ensures from <= j <= |groups|
    ensures j < |groups| ==> Matches(line, lines[groups[j][0]], angleThreshold, distanceThreshold)
    ensures forall k :: from <= k < j ==> !Matches(line, lines[groups[k][0]], angleThreshold, distanceThreshold)
    decreases |groups| - from
  {
    if from == |groups| then from
    else if Matches(line, lines[groups[from][0]], angleThreshold, distanceThreshold) then from
    else FirstMatch(lines, groups, line, from + 1, angleThreshold, distanceThreshold)
  }

  /** Index `i` joins group `j`, or starts a new group when `j == |groups|`. */
  function Place(groups: seq<seq<nat>>, j: nat, i: nat): (r: seq<seq<nat>>)
    requires j <= |groups|
  {
    if j < |groups| then groups[j := groups[j] + [i]] else groups + [[i]]
  }

  /** The groups after the first `n` segments have been placed. */
  function Grouping(lines: seq<Segment>, n: nat, angleThreshold: real, distanceThreshold: real): (groups: seq<seq<nat>>)
    requires n <= |lines|
    ensures WellFormed(groups, n)
    ensures n == 0 ==> |groups| == 0
    ensures n > 0 ==> 1 <= |groups| <= n
  {
    if n == 0 then []
    else
      var g := Grouping(lines, n - 1, angleThreshold, distanceThreshold);
      var j := FirstMatch(lines, g, lines[n - 1], 0, angleThreshold, distanceThreshold);
      Place(g, j, n - 1)
  }

  // ---------------------------------------------------------------------
  // Representatives

  datatype Coord = X1 | Y1 | X2 | Y2

  function CoordOf(s: Segment, c: Coord): int
  {
    match c
    case X1 => s.a.x
    case Y1 => s.a.y
    case X2 => s.b.x
    case Y2 => s.b.y
  }

  predicate InRange(group: seq<nat>, lines: seq<Segment>)
  {
    forall k :: 0 <= k < |group| ==> group[k] < |lines|
  }

  /** One coordinate of every member of a group, in group order. */
  function Coordinates(lines: seq<Segment>, group: seq<nat>, c: Coord): (xs: seq<int>)
    requires InRange(group, lines)
    ensures |xs| == |group|
    ensures forall k :: 0 <= k < |group| ==> xs[k] == CoordOf(lines[group[k]], c)
  {
    seq(|group|, k requires 0 <= k < |group| => CoordOf(lines[group[k]], c))
  }

  /** The angle of every member of a group, in group order. */
  function Angles(lines: seq<Segment>, group: seq<nat>): (xs: seq<real>)
    requires InRange(group, lines)
    ensures |xs| == |group|
    ensures forall k :: 0 <= k < |group| ==> xs[k] == lines[group[k]].angle
  {
    seq(|group|, k requires 0 <= k < |group| => lines[group[k]].angle)
  }

  function Sum(xs: seq<real>): real
  {
    if xs == [] then 0.0 else Sum(xs[..|xs| - 1]) + xs[|xs| - 1]
  }

  function IntSum(xs: seq<int>): int
  {
    if xs == [] then 0 else IntSum(xs[..|xs| - 1]) + xs[|xs| - 1]
  }

  /** The arithmetic mean, exact. */
  function Mean(xs: seq<real>): real
    requires |xs| > 0
  {
    Sum(xs) / (|xs| as real)
  }

  /**
   * The mean of integers converted to an integer by truncation toward zero:
   * `s / n` rounded toward zero, whatever the sign of `s`.
   */
  function TruncMean(xs: seq<int>): (m: int)
    requires |xs| > 0
    ensures IntSum(xs) >= 0 ==> m >= 0
    ensures IntSum(xs) <= 0 ==> m <= 0
    ensures |xs| == 1 ==> m == xs[0]
  {
    assert |xs| == 1 ==> xs[..0] == [] && IntSum(xs) == xs[0];
    var s, n := IntSum(xs), |xs|;
    if s >= 0 then s / n else -((-s) / n)
  }

  /**
   * The segment a group collapses to: a single member unchanged, otherwise
   * the truncated mean of each endpoint coordinate and the mean angle.
   */
  function Representative(lines: seq<Segment>, group: seq<nat>): Segment
    requires |group| > 0 && InRange(group, lines)
  {
    if |group| == 1 then lines[group[0]]
    else
      Segment(Point(TruncMean(Coordinates(lines, group, X1)), TruncMean(Coordinates(lines, group, Y1))),
              Point(TruncMean(Coordinates(lines, group, X2)), TruncMean(Coordinates(lines, group, Y2))),
              Mean(Angles(lines, group)))
  }

  /** The representatives of a list of groups, in group order. */
  function Representatives(lines: seq<Segment>, groups: seq<seq<nat>>): (out: seq<Segment>)
    requires WellFormed(groups, |lines|)
    ensures |out| == |groups|
  {
    if groups == [] then []
    else Representatives(lines, groups[..|groups| - 1]) + [Representative(lines, groups[|groups| - 1])]
  }

  /** The result of merging: one representative per group, in group-creation order. */
  function Merge(lines: seq<Segment>, angleThreshold: real, distanceThreshold: real): (out: seq<Segment>)
    ensures |lines| == 0 ==> out == []
    ensures |lines| > 0 ==> 1 <= |out| <= |lines|
  {
    if |lines| == 0 then []
    else Representatives(lines, Grouping(lines, |lines|, angleThreshold, distanceThreshold))
  }
}
