/**
 * Line segments as the hand-line detector sees them: two integer pixel
 * endpoints and an angle in degrees, plus the two distance tests the
 * detector applies to them.
 *
 * The detector compares `sqrt(d) < t` and `sqrt(d) > 50` for an integer
 * squared distance `d`. Dafny has no square root, so both tests are stated
 * on squared quantities, and the lemmas below show that the squared form
 * agrees with the root form for every non-negative root of `d`.
 */
module Geometry {

  datatype Point = Point(x: int, y: int)

  /** A detected or merged segment `((x1, y1), (x2, y2), angle)`. */
  datatype Segment = Segment(a: Point, b: Point, angle: real)

  function Abs(r: real): (m: real)
    ensures m >= 0.0
    ensures m == r || m == -r
  {
    if r < 0.0 then -r else r
  }

  /** Squared Euclidean distance between two pixels. */
  function SqDist(p: Point, q: Point): (d: nat)
    ensures d == 0 <==> p == q
  {
    var dx := p.x - q.x;
    var dy := p.y - q.y;
    SquareNonNegative(dx);
    SquareNonNegative(dy);
    SquareZero(dx);
    SquareZero(dy);
    dx * dx + dy * dy
  }

  lemma SquareNonNegative(v: int)
    ensures v * v >= 0
  {
    if v < 0 {
      assert v * v == (-v) * (-v);
    }
  }

  lemma SquareZero(v: int)
    ensures v * v == 0 <==> v == 0
  {
    if v > 0 {
      assert v * v >= v;
    } else if v < 0 {
      assert v * v == (-v) * (-v);
      assert (-v) * (-v) >= -v;
    }
  }

  /**
   * The test `sqrt(d) < t` on a squared distance `d`. A square root is
   * never negative, so a threshold that is not positive admits nothing.
   */
  predicate WithinDistance(d: nat, t: real)
  {
    0.0 < t && (d as real) < t * t
  }

  /** Squared length of a segment, `(x2-x1)^2 + (y2-y1)^2`. */
  function SqLength(s: Segment): nat
  {
    SqDist(s.b, s.a)
  }

  /** The detector's minimum-length test `length > 50`, on the squared length. */
  predicate LongerThan50(d: nat)
  {
    d > 2500
  }

  lemma SquaresOrdered(s: real, t: real)
    requires 0.0 <= s && 0.0 <= t
    ensures s < t <==> s * s < t * t
  {
    var ss, st, tt := s * s, s * t, t * t;
    if s < t {
      assert ss <= st;
      assert st < tt;
    } else {
      assert tt <= st;
      assert st <= ss;
    }
  }

  /**
   * `WithinDistance` is the root test: for every non-negative `s` with
   * `s * s == d`, `sqrt(d) = s < t` holds exactly when `WithinDistance(d, t)`.
   */
  lemma WithinDistanceIsRootTest(d: nat, t: real, s: real)
    requires 0.0 <= s && s * s == d as real
    ensures WithinDistance(d, t) <==> s < t
  {
    if 0.0 < t {
      SquaresOrdered(s, t);
    }
  }

  /**
   * Taking the smaller squared distance and then the root is taking the
   * smaller root: `min(sqrt(d1), sqrt(d2)) < t` exactly when the smaller
   * of `d1`, `d2` passes `WithinDistance`.
   */
  lemma MinWithinDistanceIsRootTest(d1: nat, d2: nat, t: real, s1: real, s2: real)
    requires 0.0 <= s1 && s1 * s1 == d1 as real
    requires 0.0 <= s2 && s2 * s2 == d2 as real
    ensures WithinDistance(if d1 <= d2 then d1 else d2, t) <==> (if s1 <= s2 then s1 else s2) < t
  {
    SquaresOrdered(s1, s2);
    SquaresOrdered(s2, s1);
    if d1 <= d2 {
      WithinDistanceIsRootTest(d1, t, s1);
    } else {
      WithinDistanceIsRootTest(d2, t, s2);
    }
  }

  /** `LongerThan50` is the root test `sqrt(d) > 50` in the same sense. */
  lemma LongerThan50IsRootTest(d: nat, s: real)
    requires 0.0 <= s && s * s == d as real
    ensures LongerThan50(d) <==> s > 50.0
  {
    SquaresOrdered(50.0, s);
  }
}
