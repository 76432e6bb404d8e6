/**
 * The merge on concrete inputs: a worked example of averaging, the
 * detector's own test input under the default thresholds, a reversed
 * segment that is not recognised as similar, and an input on which merging
 * the merged output again changes it.
 */
module MergeExamples {
  import opened Geometry
  import opened LineMerge

  function S(x1: int, y1: int, x2: int, y2: int, angle: real): Segment
  {
    Segment(Point(x1, y1), Point(x2, y2), angle)
  }

  // ---------------------------------------------------------------------
  // Small evaluation steps

  lemma PairSum(a: int, b: int)
    ensures IntSum([a, b]) == a + b
  {
    assert [a, b][..1] == [a];
    assert [a][..0] == [];
    assert IntSum([a]) == IntSum([]) + a;
    assert IntSum([a, b]) == IntSum([a]) + b;
  }

  lemma PairRealSum(a: real, b: real)
    ensures Sum([a, b]) == a + b
  {
    assert [a, b][..1] == [a];
    assert [a][..0] == [];
    assert Sum([a]) == Sum([]) + a;
    assert Sum([a, b]) == Sum([a]) + b;
  }

  /** The representative of a two-member group, coordinate by coordinate. */
  lemma PairRepresentative(lines: seq<Segment>, i: nat, j: nat)
    requires i < |lines| && j < |lines|
    ensures Representative(lines, [i, j]) ==
      Segment(Point(TruncMean([lines[i].a.x, lines[j].a.x]), TruncMean([lines[i].a.y, lines[j].a.y])),
              Point(TruncMean([lines[i].b.x, lines[j].b.x]), TruncMean([lines[i].b.y, lines[j].b.y])),
              (lines[i].angle + lines[j].angle) / 2.0)
  {
    assert Coordinates(lines, [i, j], X1) == [lines[i].a.x, lines[j].a.x];
    assert Coordinates(lines, [i, j], Y1) == [lines[i].a.y, lines[j].a.y];
    assert Coordinates(lines, [i, j], X2) == [lines[i].b.x, lines[j].b.x];
    assert Coordinates(lines, [i, j], Y2) == [lines[i].b.y, lines[j].b.y];
    assert Angles(lines, [i, j]) == [lines[i].angle, lines[j].angle];
    PairRealSum(lines[i].angle, lines[j].angle);
  }

  lemma PairTruncMean(a: int, b: int, m: int)
    requires 0 <= a + b && m == (a + b) / 2
    ensures TruncMean([a, b]) == m
  {
    PairSum(a, b);
  }

  lemma MergeOneGroup(lines: seq<Segment>, angleThreshold: real, distanceThreshold: real, g: seq<seq<nat>>)
    requires |lines| > 0 && |g| == 1 && Grouping(lines, |lines|, angleThreshold, distanceThreshold) == g
    ensures WellFormed(g, |lines|)
    ensures Merge(lines, angleThreshold, distanceThreshold) == [Representative(lines, g[0])]
  {
    assert g[..0] == [];
  }

  lemma MergeTwoGroups(lines: seq<Segment>, angleThreshold: real, distanceThreshold: real, g: seq<seq<nat>>)
    requires |lines| > 0 && |g| == 2 && Grouping(lines, |lines|, angleThreshold, distanceThreshold) == g
    ensures WellFormed(g, |lines|)
    ensures Merge(lines, angleThreshold, distanceThreshold) == [Representative(lines, g[0]), Representative(lines, g[1])]
  {
    var first := g[..1];
    assert first == [g[0]] && first[..0] == [];
    assert Representatives(lines, g) == Representatives(lines, first) + [Representative(lines, g[1])];
  }

  // ---------------------------------------------------------------------
  // Averaging

  function PairLines(): seq<Segment>
  {
    [S(0, 0, 10, 10, 45.0), S(2, 2, 12, 12, 45.0)]
  }

  lemma PairGrouping()
    ensures Grouping(PairLines(), 2, 10.0, 5.0) == [[0, 1]]
  {
    var lines := PairLines();
    var g1 := Grouping(lines, 1, 10.0, 5.0);
    assert g1 == [[0]];
    assert Matches(lines[1], lines[0], 10.0, 5.0);
    assert FirstMatch(lines, g1, lines[1], 0, 10.0, 5.0) == 0;
    assert g1[0] + [1] == [0, 1];
    assert Grouping(lines, 2, 10.0, 5.0) == Place(g1, 0, 1);
  }

  /** Two parallel segments two pixels apart collapse into their mean. */
  lemma AveragedPair()
    ensures Merge(PairLines(), 10.0, 5.0) == [S(1, 1, 11, 11, 45.0)]
  {
    var lines := PairLines();
    PairGrouping();
    MergeOneGroup(lines, 10.0, 5.0, [[0, 1]]);
    PairRepresentative(lines, 0, 1);
    PairTruncMean(0, 2, 1);
    PairTruncMean(10, 12, 11);
  }

  // ---------------------------------------------------------------------
  // The detector's own test input

  function TestLines(): seq<Segment>
  {
    [S(0, 0, 10, 10, 45.0), S(1, 1, 11, 11, 46.0), S(20, 20, 30, 30, 90.0)]
  }

  lemma TestGrouping()
    ensures Grouping(TestLines(), 3, 10.0, 20.0) == [[0, 1], [2]]
  {
    var lines := TestLines();
    var g1 := Grouping(lines, 1, 10.0, 20.0);
    assert g1 == [[0]];
    assert Matches(lines[1], lines[0], 10.0, 20.0);
    assert FirstMatch(lines, g1, lines[1], 0, 10.0, 20.0) == 0;
    assert g1[0] + [1] == [0, 1];
    var g2 := Grouping(lines, 2, 10.0, 20.0);
    assert g2 == Place(g1, 0, 1) == [[0, 1]];
    assert !Matches(lines[2], lines[0], 10.0, 20.0);
    assert FirstMatch(lines, g2, lines[2], 0, 10.0, 20.0) == 1;
    assert Grouping(lines, 3, 10.0, 20.0) == Place(g2, 1, 2);
  }

  /**
   * The detector's test input under the merge's default thresholds 10 and
   * 20: the first two segments merge (coordinates truncated, angle
   * averaged exactly), the third is 45 degrees off and stays alone.
   */
  lemma DefaultThresholdsExample()
    ensures Merge(TestLines(), 10.0, 20.0) == [S(0, 0, 10, 10, 45.5), S(20, 20, 30, 30, 90.0)]
  {
    var lines := TestLines();
    TestGrouping();
    MergeTwoGroups(lines, 10.0, 20.0, [[0, 1], [2]]);
    PairRepresentative(lines, 0, 1);
    PairTruncMean(0, 1, 0);
    PairTruncMean(10, 11, 10);
  }

  // ---------------------------------------------------------------------
  // Swapped endpoints

  /**
   * A horizontal segment and the same segment with its endpoints swapped,
   * given directly to the merge with equal angles (the length filter would
   * give the reversed one 180 degrees).
   */
  function SwappedLines(): seq<Segment>
  {
    [S(0, 0, 100, 0, 0.0), S(100, 0, 0, 0, 0.0)]
  }

  lemma SwappedGrouping()
    ensures Grouping(SwappedLines(), 2, 10.0, 20.0) == [[0], [1]]
  {
    var lines := SwappedLines();
    var g1 := Grouping(lines, 1, 10.0, 20.0);
    assert g1 == [[0]];
    assert SqDist(lines[1].a, lines[0].a) == 10000 && SqDist(lines[1].b, lines[0].b) == 10000;
    assert !Matches(lines[1], lines[0], 10.0, 20.0);
    assert FirstMatch(lines, g1, lines[1], 0, 10.0, 20.0) == 1;
    assert Grouping(lines, 2, 10.0, 20.0) == Place(g1, 1, 1);
  }

  /**
   * Only same-index endpoints are compared: a segment and the same segment
   * with its endpoints swapped are not merged.
   */
  lemma SwappedEndpointsNotMerged()
    ensures Merge(SwappedLines(), 10.0, 20.0) == SwappedLines()
  {
    SwappedGrouping();
    MergeTwoGroups(SwappedLines(), 10.0, 20.0, [[0], [1]]);
  }

  // ---------------------------------------------------------------------
  // Merging twice

  /** Three vertical segments; the third lies between the other two. */
  function SpreadLines(): seq<Segment>
  {
    [S(0, 0, 0, 100, 90.0), S(25, 0, 25, 100, 90.0), S(18, 0, 18, 100, 90.0)]
  }

  lemma SpreadFirstTwo()
    ensures Grouping(SpreadLines(), 2, 10.0, 20.0) == [[0], [1]]
  {
    var lines := SpreadLines();
    var g1 := Grouping(lines, 1, 10.0, 20.0);
    assert g1 == [[0]];
    assert SqDist(lines[1].a, lines[0].a) == 625 && SqDist(lines[1].b, lines[0].b) == 625;
    assert !Matches(lines[1], lines[0], 10.0, 20.0);
    assert FirstMatch(lines, g1, lines[1], 0, 10.0, 20.0) == 1;
    assert Grouping(lines, 2, 10.0, 20.0) == Place(g1, 1, 1);
  }

  lemma SpreadGrouping()
    ensures Grouping(SpreadLines(), 3, 10.0, 20.0) == [[0, 2], [1]]
  {
    var lines := SpreadLines();
    SpreadFirstTwo();
    var g2: seq<seq<nat>> := [[0], [1]];
    assert SqDist(lines[2].a, lines[0].a) == 324;
    assert Matches(lines[2], lines[0], 10.0, 20.0);
    assert FirstMatch(lines, g2, lines[2], 0, 10.0, 20.0) == 0;
    assert g2[0] + [2] == [0, 2];
    assert Grouping(lines, 3, 10.0, 20.0) == Place(g2, 0, 2);
  }

  /** The first merge: the outer segment and the middle one average to x = 9. */
  function SpreadOnce(): seq<Segment>
  {
    [S(9, 0, 9, 100, 90.0), S(25, 0, 25, 100, 90.0)]
  }

  lemma SpreadMerge()
    ensures Merge(SpreadLines(), 10.0, 20.0) == SpreadOnce()
  {
    var lines := SpreadLines();
    SpreadGrouping();
    MergeTwoGroups(lines, 10.0, 20.0, [[0, 2], [1]]);
    PairRepresentative(lines, 0, 2);
    PairTruncMean(0, 18, 9);
    PairTruncMean(0, 0, 0);
    PairTruncMean(100, 100, 100);
  }

  lemma RemergeGrouping()
    ensures Grouping(SpreadOnce(), 2, 10.0, 20.0) == [[0, 1]]
  {
    var lines := SpreadOnce();
    var g1 := Grouping(lines, 1, 10.0, 20.0);
    assert g1 == [[0]];
    assert SqDist(lines[1].a, lines[0].a) == 256;
    assert Matches(lines[1], lines[0], 10.0, 20.0);
    assert FirstMatch(lines, g1, lines[1], 0, 10.0, 20.0) == 0;
    assert g1[0] + [1] == [0, 1];
    assert Grouping(lines, 2, 10.0, 20.0) == Place(g1, 0, 1);
  }

  /** The second merge: the two representatives are 16 pixels apart and merge. */
  lemma RemergeSpread()
    ensures Merge(SpreadOnce(), 10.0, 20.0) == [S(17, 0, 17, 100, 90.0)]
  {
    var lines := SpreadOnce();
    RemergeGrouping();
    MergeOneGroup(lines, 10.0, 20.0, [[0, 1]]);
    PairRepresentative(lines, 0, 1);
    PairTruncMean(9, 25, 17);
    PairTruncMean(0, 0, 0);
    PairTruncMean(100, 100, 100);
  }

  /**
   * Merging is not idempotent: the representative of a group can land
   * within the distance threshold of a group it did not join, so merging
   * the merged segments again merges further.
   */
  lemma MergeNotIdempotent()
    ensures var once := Merge(SpreadLines(), 10.0, 20.0);
      Merge(once, 10.0, 20.0) != once
  {
    SpreadMerge();
    RemergeSpread();
  }
}
