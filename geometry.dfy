/** Points of the map plane and the approximate point equality of explore.cpp. */
module Geometry {

  /** A position in the map frame, in map units (a ROS point without its z). */
  datatype Point = Point(x: real, y: real)

  /** Two points closer than this are the same goal. */
  const Epsilon: real := 0.01

  function Abs(r: real): (a: real)
    ensures a >= 0.0 && (a == r || a == -r)
  {
    if r < 0.0 then -r else r
  }

  /** Squared Euclidean distance. */
  function Dist2(one: Point, two: Point): (d: real)
    ensures d >= 0.0
  {
    (one.x - two.x) * (one.x - two.x) + (one.y - two.y) * (one.y - two.y)
  }

  /**
   * operator==: the points are "equal" when their Euclidean distance is below
   * Epsilon. Written without the square root: distance < Epsilon exactly when
   * the squared distance is below Epsilon squared (see SameIffRootBelowEpsilon).
   */
  function Same(one: Point, two: Point): (r: bool)
    ensures one == two ==> r
    ensures r ==> Abs(one.x - two.x) < Epsilon && Abs(one.y - two.y) < Epsilon
  {
    var dx, dy := one.x - two.x, one.y - two.y;
    if Dist2(one, two) < Epsilon * Epsilon then
      SquareBelowBound(dx, dy * dy);
      SquareBelowBound(dy, dx * dx);
      true
    else false
  }

  /** A coordinate difference whose square, plus something non-negative, stays
      below Epsilon squared is itself below Epsilon in size. */
  lemma SquareBelowBound(d: real, rest: real)
    requires rest >= 0.0 && d * d + rest < Epsilon * Epsilon
    ensures Abs(d) < Epsilon
  {
  }

  /** Any non-negative d with d * d the squared distance is the distance the
      source computes with sqrt; Same holds exactly when that d is below Epsilon. */
  lemma SameIffRootBelowEpsilon(one: Point, two: Point, d: real)
    requires d >= 0.0 && d * d == Dist2(one, two)
    ensures Same(one, two) <==> d < Epsilon
  {
    if d < Epsilon {
      assert d * d <= d * Epsilon;
      assert d * Epsilon < Epsilon * Epsilon;
    } else {
      assert d * d >= d * Epsilon;
      assert d * Epsilon >= Epsilon * Epsilon;
    }
  }

  lemma SameReflexive(p: Point)
    ensures Same(p, p)
  {
  }

  lemma SameSymmetric(one: Point, two: Point)
    ensures Same(one, two) <==> Same(two, one)
  {
  }

  /** Same is not transitive: three points 0.006 apart on a line. */
  lemma SameNotTransitive()
    ensures Same(Point(0.0, 0.0), Point(0.006, 0.0))
    ensures Same(Point(0.006, 0.0), Point(0.012, 0.0))
    ensures !Same(Point(0.0, 0.0), Point(0.012, 0.0))
  {
  }
}
