/**
 * Screen positions and gesture samples, and the movement test the recognizer
 * applies to pointer updates. Coordinates are exact reals: Unity's single
 * precision floats and their rounding are not modelled.
 */
module Geometry {

  /** A screen position (Unity's Vector2). */
  datatype Vec2 = Vec2(x: real, y: real)

  /** A sample of a gesture (the $P library's Point): a position and the stroke it belongs to. */
  datatype Point = Point(x: real, y: real, strokeId: int)

  /** The square of the Euclidean distance between two positions. */
  function SqDist(a: Vec2, b: Vec2): (d: real)
    ensures d >= 0.0
  {
    var dx := a.x - b.x;
    var dy := a.y - b.y;
    dx * dx + dy * dy
  }

  /**
   * Whether `p` lies strictly farther than `threshold` from `anchor`, that is
   * `Vector2.Distance(p, anchor) > threshold`, decided without a square root.
   * A negative threshold is exceeded by every distance.
   */
  predicate Beyond(p: Vec2, anchor: Vec2, threshold: real)
    ensures threshold < 0.0 ==> Beyond(p, anchor, threshold)
    ensures threshold >= 0.0 && p == anchor ==> !Beyond(p, anchor, threshold)
  {
    threshold < 0.0 || SqDist(p, anchor) > threshold * threshold
  }

  /** `Beyond` is exactly the comparison of the true distance `dist` with the threshold. */
  lemma BeyondIsDistanceTest(p: Vec2, anchor: Vec2, threshold: real, dist: real)
    requires dist >= 0.0 && dist * dist == SqDist(p, anchor)
    ensures Beyond(p, anchor, threshold) <==> dist > threshold
  {
    if threshold >= 0.0 {
      if dist > threshold {
        calc {
          dist * dist;
        >  { StrictScale(dist, threshold, dist); }
          threshold * dist;
        == dist * threshold;
        >= { WeakScale(dist, threshold, threshold); }
          threshold * threshold;
        }
      } else {
        calc {
          dist * dist;
        <= { WeakScale(threshold, dist, dist); }
          threshold * dist;
        == dist * threshold;
        <= { WeakScale(threshold, dist, threshold); }
          threshold * threshold;
        }
      }
    }
  }

  lemma StrictScale(a: real, b: real, c: real)
    requires a > b && c > 0.0
    ensures a * c > b * c
  {
  }

  lemma WeakScale(a: real, b: real, c: real)
    requires a >= b && c >= 0.0
    ensures a * c >= b * c
  {
  }
}
