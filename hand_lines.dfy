/**
 * The hand-line detector: its two thresholds, the merge pass as the
 * detector runs it (an arena of segments and a list of index groups,
 * filled by nested loops), the length-filtered collection of Hough
 * segments, and the call that feeds one into the other with the
 * detector's own thresholds.
 */
module HandLines {
  import opened Wrappers
  import opened Geometry
  import opened LineMerge
  import opened LengthFilter
  import opened LineMergeLemmas

  class HandLinesDetector {
    const angleThreshold: real
    const distanceThreshold: real

    constructor(angleThreshold: real := 15.0, distanceThreshold: real := 25.0)
      ensures this.angleThreshold == angleThreshold
      ensures this.distanceThreshold == distanceThreshold
    {
      this.angleThreshold := angleThreshold;
      this.distanceThreshold := distanceThreshold;
    }

    /**
     * Merges similar segments: each segment joins the first group whose
     * first member it matches, or starts a new group; each group then
     * yields one segment.
     */
    static method MergeSimilarLines(lines: seq<Segment>, angleThreshold: real := 10.0, distanceThreshold: real := 20.0)
      returns (finalLines: seq<Segment>)
      ensures finalLines == Merge(lines, angleThreshold, distanceThreshold)
    {
      if |lines| == 0 {
        return [];
      }

      var mergedLines: seq<Segment> := [];
      var groups: seq<seq<nat>> := [];

      for n := 0 to |lines|
        invariant mergedLines == lines[..n]
        invariant groups == Grouping(lines, n, angleThreshold, distanceThreshold)
      {
        var line := lines[n];
        FirstMatchOnPrefix(lines, n, groups, line, 0, angleThreshold, distanceThreshold);
        groups := JoinGroup(mergedLines, groups, line, angleThreshold, distanceThreshold);
        GroupingStep(lines, n, angleThreshold, distanceThreshold);
        mergedLines := mergedLines + [line];
        assert mergedLines == lines[..n + 1];
      }

      assert mergedLines == lines;
      finalLines := FinalLines(mergedLines, groups);
    }

    /** The closing loop of the merge: one segment per group, in group order. */
    static method FinalLines(mergedLines: seq<Segment>, groups: seq<seq<nat>>) returns (finalLines: seq<Segment>)
      requires WellFormed(groups, |mergedLines|)
      ensures finalLines == Representatives(mergedLines, groups)
    {
      finalLines := [];
      for k := 0 to |groups|
        invariant finalLines == Representatives(mergedLines, groups[..k])
      {
        var group := groups[k];
        if |group| == 1 {
          finalLines := finalLines + [mergedLines[group[0]]];
        } else {
          var x1Avg := TruncMean(Coordinates(mergedLines, group, X1));
          var y1Avg := TruncMean(Coordinates(mergedLines, group, Y1));
          var x2Avg := TruncMean(Coordinates(mergedLines, group, X2));
          var y2Avg := TruncMean(Coordinates(mergedLines, group, Y2));
          var angleAvg := Mean(Angles(mergedLines, group));
          finalLines := finalLines + [Segment(Point(x1Avg, y1Avg), Point(x2Avg, y2Avg), angleAvg)];
        }
        RepresentativesStep(mergedLines, groups, k);
      }
      assert groups[..|groups|] == groups;
    }

    /**
     * One step of the merge pass: `line`, about to be appended to the arena
     * `mergedLines`, joins the first group whose first member it matches,
     * or starts a new group.
     */
    static method JoinGroup(mergedLines: seq<Segment>, groups: seq<seq<nat>>, line: Segment,
                            angleThreshold: real, distanceThreshold: real)
      returns (newGroups: seq<seq<nat>>)
      requires WellFormed(groups, |mergedLines|)
      ensures newGroups
        == Place(groups, FirstMatch(mergedLines, groups, line, 0, angleThreshold, distanceThreshold), |mergedLines|)
    {
      var index: nat := |mergedLines|;
      var matched := false;
      ghost var target := FirstMatch(mergedLines, groups, line, 0, angleThreshold, distanceThreshold);
      newGroups := groups;

      var j := 0;
      while j < |newGroups|
        invariant newGroups == groups && !matched
        invariant 0 <= j <= |groups|
        invariant FirstMatch(mergedLines, groups, line, j, angleThreshold, distanceThreshold) == target
      {
        var refLine := mergedLines[newGroups[j][0]];
        if Abs(line.angle - refLine.angle) < angleThreshold {
          var dist := Min(SqDist(line.a, refLine.a), SqDist(line.b, refLine.b));
          if WithinDistance(dist, distanceThreshold) {
            newGroups := newGroups[j := newGroups[j] + [index]];
            matched := true;
            break;
          }
        }
        j := j + 1;
      }

      if !matched {
        newGroups := newGroups + [[index]];
      }
    }

    /**
     * The detector's collection of segments: for each scale in order, every
     * Hough detection longer than 50 pixels, with its absolute angle.
     */
    method ProcessImage(houghLines: seq<Option<seq<Detection>>>, angleOf: (int, int) -> real)
      returns (allDetectedLines: seq<Segment>)
      requires |houghLines| == |Scales|
      ensures allDetectedLines == DetectedLines(houghLines, angleOf)
    {
      allDetectedLines := [];
      for s := 0 to |houghLines|
        invariant allDetectedLines == DetectedLines(houghLines[..s], angleOf)
      {
        var lines := houghLines[s];
        if lines.Some? {
          var ds := lines.value;
          for i := 0 to |ds|
            invariant allDetectedLines == DetectedLines(houghLines[..s], angleOf) + Kept(ds[..i], angleOf)
          {
            var d := ds[i];
            var angle := Abs(angleOf(d.y2 - d.y1, d.x2 - d.x1));
            var length := SqDist(Point(d.x2, d.y2), Point(d.x1, d.y1));
            if LongerThan50(length) {
              allDetectedLines := allDetectedLines + [Segment(Point(d.x1, d.y1), Point(d.x2, d.y2), angle)];
            }
            KeptStep(ds, i, angleOf);
          }
          assert ds[..|ds|] == ds;
        }
        DetectedLinesStep(houghLines, s, angleOf);
      }
      assert houghLines[..|houghLines|] == houghLines;
    }

    /**
     * Detects and merges: the segments the length filter keeps, merged with
     * this detector's thresholds rather than the merge's own defaults.
     */
    method Call(houghLines: seq<Option<seq<Detection>>>, angleOf: (int, int) -> real)
      returns (mergedLines: seq<Segment>)
      requires |houghLines| == |Scales|
      ensures mergedLines == Merge(DetectedLines(houghLines, angleOf), angleThreshold, distanceThreshold)
    {
      var allDetectedLines := ProcessImage(houghLines, angleOf);
      mergedLines := MergeSimilarLines(allDetectedLines, angleThreshold, distanceThreshold);
    }
  }

  /** A detector built without arguments has thresholds 15 and 25. */
  method DefaultDetector() returns (detector: HandLinesDetector)
    ensures detector.angleThreshold == 15.0 && detector.distanceThreshold == 25.0
  {
    detector := new HandLinesDetector();
  }
}
