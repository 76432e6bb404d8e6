/**
 * The minimum-length filter of the detector's image processing: for each
 * blur scale in order, each segment the Hough transform reports is kept,
 * with its angle, exactly when it is longer than 50 pixels.
 *
 * The Hough transform and the angle computation are outside the model:
 * each scale's Hough result is an input (`None` when the transform found
 * nothing), and the angle in degrees of a direction `(dy, dx)` before the
 * absolute value is taken is the parameter `angleOf`.
 */
module LengthFilter {
  import opened Wrappers
  import opened Geometry

  /** One Hough detection `[x1, y1, x2, y2]`. */
  datatype Detection = Detection(x1: int, y1: int, x2: int, y2: int)

  /** The Gaussian kernel sizes of the three scales, in processing order. */
  const Scales: seq<(int, int)> := [(7, 7), (9, 9), (11, 11)]

  function Start(d: Detection): Point { Point(d.x1, d.y1) }

  function End(d: Detection): Point { Point(d.x2, d.y2) }

  /** The test `sqrt((x2-x1)^2 + (y2-y1)^2) > 50`. */
  predicate Long(d: Detection)
  {
    LongerThan50(SqDist(End(d), Start(d)))
  }

  /** A detection as a segment: its two endpoints and the absolute value of its angle. */
  function ToSegment(d: Detection, angleOf: (int, int) -> real): (s: Segment)
    ensures s.a == Start(d) && s.b == End(d)
    ensures s.angle >= 0.0
    ensures Long(d) <==> LongerThan50(SqLength(s))
  {
    Segment(Start(d), End(d), Abs(angleOf(d.y2 - d.y1, d.x2 - d.x1)))
  }

  /** The segments kept from one scale's detections, in detection order. */
  function Kept(ds: seq<Detection>, angleOf: (int, int) -> real): seq<Segment>
  {
    if ds == [] then []
    else
      var last := ds[|ds| - 1];
      Kept(ds[..|ds| - 1], angleOf) + (if Long(last) then [ToSegment(last, angleOf)] else [])
  }

  /** The segments kept from one scale; a scale without detections contributes nothing. */
  function ScaleLines(result: Option<seq<Detection>>, angleOf: (int, int) -> real): seq<Segment>
  {
    match result
    case None => []
    case Some(ds) => Kept(ds, angleOf)
  }

  /** All kept segments, scale by scale. */
  function DetectedLines(results: seq<Option<seq<Detection>>>, angleOf: (int, int) -> real): seq<Segment>
  {
    if results == [] then []
    else DetectedLines(results[..|results| - 1], angleOf) + ScaleLines(results[|results| - 1], angleOf)
  }

  // ---------------------------------------------------------------------
  // Properties

  /** Filtering one more detection appends its segment when it is long. */
  lemma KeptStep(ds: seq<Detection>, i: nat, angleOf: (int, int) -> real)
    requires i < |ds|
    ensures Kept(ds[..i + 1], angleOf)
      == Kept(ds[..i], angleOf) + (if Long(ds[i]) then [ToSegment(ds[i], angleOf)] else [])
  {
    assert ds[..i + 1][..i] == ds[..i];
  }

  /** Collecting one more scale appends that scale's kept segments. */
  lemma DetectedLinesStep(results: seq<Option<seq<Detection>>>, s: nat, angleOf: (int, int) -> real)
    requires s < |results|
    ensures DetectedLines(results[..s + 1], angleOf) == DetectedLines(results[..s], angleOf) + ScaleLines(results[s], angleOf)
  {
    assert results[..s + 1][..s] == results[..s];
  }

  /** Filtering preserves order: the kept segments of `a + b` are those of `a`, then those of `b`. */
  lemma {:induction false} KeptAppend(a: seq<Detection>, b: seq<Detection>, angleOf: (int, int) -> real)
    ensures Kept(a + b, angleOf) == Kept(a, angleOf) + Kept(b, angleOf)
    decreases |b|
  {
    if b != [] {
      var init := b[..|b| - 1];
      assert (a + b)[..|a + b| - 1] == a + init;
      assert (a + b)[|a + b| - 1] == b[|b| - 1];
      KeptAppend(a, init, angleOf);
    } else {
      assert a + b == a;
    }
  }

  /** A kept segment comes from a long detection. */
  lemma {:induction false} KeptSource(ds: seq<Detection>, angleOf: (int, int) -> real, s: Segment) returns (i: nat)
    requires s in Kept(ds, angleOf)
    ensures i < |ds| && Long(ds[i]) && ToSegment(ds[i], angleOf) == s
  {
    var init := ds[..|ds| - 1];
    if s in Kept(init, angleOf) {
      i := KeptSource(init, angleOf, s);
      assert init[i] == ds[i];
    } else {
      i := |ds| - 1;
    }
  }

  /** Every long detection is kept. */
  lemma {:induction false} KeptIncludes(ds: seq<Detection>, angleOf: (int, int) -> real, i: nat)
    requires i < |ds| && Long(ds[i])
    ensures ToSegment(ds[i], angleOf) in Kept(ds, angleOf)
  {
    var init := ds[..|ds| - 1];
    if i < |init| {
      assert init[i] == ds[i];
      KeptIncludes(init, angleOf, i);
    }
  }

  /** A segment is kept exactly when some long detection yields it. */
  lemma {:induction false} KeptMembership(ds: seq<Detection>, angleOf: (int, int) -> real, s: Segment)
    ensures s in Kept(ds, angleOf) <==> exists i :: 0 <= i < |ds| && Long(ds[i]) && ToSegment(ds[i], angleOf) == s
  {
    if s in Kept(ds, angleOf) {
      var i := KeptSource(ds, angleOf, s);
    }
    if exists i :: 0 <= i < |ds| && Long(ds[i]) && ToSegment(ds[i], angleOf) == s {
      var i :| 0 <= i < |ds| && Long(ds[i]) && ToSegment(ds[i], angleOf) == s;
      KeptIncludes(ds, angleOf, i);
    }
  }

  /** Every kept segment is longer than 50 pixels and has a non-negative angle. */
  lemma {:induction false} KeptAreLong(ds: seq<Detection>, angleOf: (int, int) -> real)
    ensures forall s :: s in Kept(ds, angleOf) ==> LongerThan50(SqLength(s)) && s.angle >= 0.0
  {
    forall s | s in Kept(ds, angleOf)
      ensures LongerThan50(SqLength(s)) && s.angle >= 0.0
    {
      var i := KeptSource(ds, angleOf, s);
    }
  }

  /** Nothing is dropped when every detection is long, and nothing is kept when none is. */
  lemma {:induction false} KeptCount(ds: seq<Detection>, angleOf: (int, int) -> real)
    ensures |Kept(ds, angleOf)| <= |ds|
    ensures (forall i :: 0 <= i < |ds| ==> Long(ds[i])) ==> |Kept(ds, angleOf)| == |ds|
    ensures (forall i :: 0 <= i < |ds| ==> !Long(ds[i])) ==> Kept(ds, angleOf) == []
  {
    if ds != [] {
      var init := ds[..|ds| - 1];
      KeptCount(init, angleOf);
      assert forall i :: 0 <= i < |init| ==> init[i] == ds[i];
    }
  }

  /** Scales are concatenated in order. */
  lemma {:induction false} DetectedLinesAppend(a: seq<Option<seq<Detection>>>, b: seq<Option<seq<Detection>>>,
                                               angleOf: (int, int) -> real)
    ensures DetectedLines(a + b, angleOf) == DetectedLines(a, angleOf) + DetectedLines(b, angleOf)
    decreases |b|
  {
    if b != [] {
      var init := b[..|b| - 1];
      assert (a + b)[..|a + b| - 1] == a + init;
      assert (a + b)[|a + b| - 1] == b[|b| - 1];
      DetectedLinesAppend(a, init, angleOf);
    } else {
      assert a + b == a;
    }
  }

  /** A detected segment comes from some scale. */
  lemma {:induction false} DetectedLinesSource(results: seq<Option<seq<Detection>>>, angleOf: (int, int) -> real, s: Segment)
    returns (k: nat)
    requires s in DetectedLines(results, angleOf)
    ensures k < |results| && s in ScaleLines(results[k], angleOf)
  {
    var init := results[..|results| - 1];
    if s in DetectedLines(init, angleOf) {
      k := DetectedLinesSource(init, angleOf, s);
      assert init[k] == results[k];
    } else {
      k := |results| - 1;
    }
  }

  /** Whatever a scale keeps is detected. */
  lemma {:induction false} DetectedLinesIncludes(results: seq<Option<seq<Detection>>>, angleOf: (int, int) -> real,
                                                 k: nat, s: Segment)
    requires k < |results| && s in ScaleLines(results[k], angleOf)
    ensures s in DetectedLines(results, angleOf)
  {
    var init := results[..|results| - 1];
    if k < |init| {
      assert init[k] == results[k];
      DetectedLinesIncludes(init, angleOf, k, s);
    }
  }

  /** A segment is detected exactly when some scale keeps it. */
  lemma DetectedLinesMembership(results: seq<Option<seq<Detection>>>, angleOf: (int, int) -> real, s: Segment)
    ensures s in DetectedLines(results, angleOf) <==> exists k :: 0 <= k < |results| && s in ScaleLines(results[k], angleOf)
  {
    if s in DetectedLines(results, angleOf) {
      var k := DetectedLinesSource(results, angleOf, s);
    }
    if exists k :: 0 <= k < |results| && s in ScaleLines(results[k], angleOf) {
      var k :| 0 <= k < |results| && s in ScaleLines(results[k], angleOf);
      DetectedLinesIncludes(results, angleOf, k, s);
    }
  }

  /** Every detected segment, from whichever scale, passed the length test. */
  lemma DetectedLinesAreLong(results: seq<Option<seq<Detection>>>, angleOf: (int, int) -> real)
    ensures forall s :: s in DetectedLines(results, angleOf) ==> LongerThan50(SqLength(s)) && s.angle >= 0.0
  {
    forall s | s in DetectedLines(results, angleOf)
      ensures LongerThan50(SqLength(s)) && s.angle >= 0.0
    {
      var k := DetectedLinesSource(results, angleOf, s);
      match results[k]
      case Some(ds) => KeptAreLong(ds, angleOf);
    }
  }
}
