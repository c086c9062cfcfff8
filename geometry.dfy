/**
 * Plane geometry of a link's rendered path: points with exact real
 * coordinates, path segments, the single cubic "S-curve" that joins a link's
 * source to its destination, and the local control-point construction used
 * when a link is routed through waypoints.
 */
module Geometry {

  datatype Point = Point(x: real, y: real)

  function Add(p: Point, q: Point): Point { Point(p.x + q.x, p.y + q.y) }

  function Sub(p: Point, q: Point): Point { Point(p.x - q.x, p.y - q.y) }

  function Scale(k: real, p: Point): Point { Point(k * p.x, k * p.y) }

  /** One drawing command of a painter path; every command ends at `target`. */
  datatype Segment =
    | MoveTo(target: Point)
    | QuadTo(ctrl: Point, target: Point)
    | CubicTo(ctrl1: Point, ctrl2: Point, target: Point)

  type Path = seq<Segment>

  /** Where the drawing pen is after the last command of a non-empty path. */
  function EndPoint(path: Path): Point
    requires path != []
  {
    path[|path| - 1].target
  }

  /**
   * The S-curve from `start` to `end`: a move to `start` and one cubic whose
   * two control points sit half-way across horizontally, the first at the
   * height of `start` and the second at the height of `end`, so the curve
   * leaves the source and enters the destination horizontally.
   */
  function SimpleCurve(start: Point, end: Point): (path: Path)
    ensures |path| == 2 && path[0] == MoveTo(start) && path[1].CubicTo?
    ensures EndPoint(path) == end
    ensures path[1].ctrl1 == Point((start.x + end.x) / 2.0, start.y)
    ensures path[1].ctrl2 == Point((start.x + end.x) / 2.0, end.y)
  {
    var dx := (end.x - start.x) * 0.5;
    var dy := end.y - start.y;
    var c1 := Point(start.x + dx, start.y + dy * 0.0);
    var c2 := Point(start.x + dx, start.y + dy * 1.0);
    [MoveTo(start), CubicTo(c1, c2, end)]
  }

  /** Every point a path mentions, control points included. */
  function PathPoints(path: Path): (s: set<Point>)
  {
    if path == [] then {}
    else
      var rest := PathPoints(path[1..]);
      match path[0]
      case MoveTo(p) => {p} + rest
      case QuadTo(c, p) => {c, p} + rest
      case CubicTo(c1, c2, p) => {c1, c2, p} + rest
  }

  /** A curve from a point to itself collapses to that single point. */
  lemma SimpleCurveDegenerate(a: Point)
    ensures PathPoints(SimpleCurve(a, a)) == {a}
  {
    var path := SimpleCurve(a, a);
    assert path[1..][1..] == [];
    assert PathPoints(path[1..]) == {path[1].ctrl1, path[1].ctrl2, a};
  }

  /** Reversing the direction of the curve swaps its control points. */
  lemma SimpleCurveReversed(a: Point, b: Point)
    ensures SimpleCurve(b, a)[1].ctrl1 == SimpleCurve(a, b)[1].ctrl2
    ensures SimpleCurve(b, a)[1].ctrl2 == SimpleCurve(a, b)[1].ctrl1
  {
  }

  /**
   * The two Bezier control points placed around the middle point `p1` of the
   * triple `p0, p1, p2`, with tension `t` and the chord lengths
   * `d01 = |p1 - p0|` and `d12 = |p2 - p1|`. Both lie on the line through
   * `p1` parallel to `p2 - p0`, on either side of `p1` at distances in the
   * ratio of the chords.
   */
  function ControlPoints(p0: Point, p1: Point, p2: Point, t: real, d01: real, d12: real): (r: (Point, Point))
    requires 0.0 <= d01 && 0.0 <= d12 && 0.0 < d01 + d12
    ensures Sub(p1, r.0) == Scale(t * d01 / (d01 + d12), Sub(p2, p0))
    ensures Sub(r.1, p1) == Scale(t * d12 / (d01 + d12), Sub(p2, p0))
  {
    var fa := t * d01 / (d01 + d12);
    var fb := t * d12 / (d01 + d12);
    var ctrl1 := Point(p1.x - fa * (p2.x - p0.x), p1.y - fa * (p2.y - p0.y));
    var ctrl2 := Point(p1.x + fb * (p2.x - p0.x), p1.y + fb * (p2.y - p0.y));
    (ctrl1, ctrl2)
  }

  /** The two scaling factors of the construction add up to the tension. */
  lemma ScalingFactorsSum(t: real, d01: real, d12: real)
    requires 0.0 <= d01 && 0.0 <= d12 && 0.0 < d01 + d12
    ensures t * d01 / (d01 + d12) + t * d12 / (d01 + d12) == t
  {
  }

  /**
   * The control points span a segment parallel to `p2 - p0` and `t` times
   * as long, and `p1` lies on that segment at fraction `d01 / (d01 + d12)`
   * from the first control point: the middle waypoint is on the tangent the
   * two neighbouring curve pieces share.
   */
  lemma ControlPointsSpanMiddle(p0: Point, p1: Point, p2: Point, t: real, d01: real, d12: real)
    requires 0.0 <= d01 && 0.0 <= d12 && 0.0 < d01 + d12
    ensures var (c1, c2) := ControlPoints(p0, p1, p2, t, d01, d12);
            var lambda := d01 / (d01 + d12);
            && Sub(c2, c1) == Scale(t, Sub(p2, p0))
            && 0.0 <= lambda <= 1.0
            && p1 == Add(c1, Scale(lambda, Sub(c2, c1)))
  {
    var (c1, c2) := ControlPoints(p0, p1, p2, t, d01, d12);
    var s := d01 + d12;
    var fa, fb := t * d01 / s, t * d12 / s;
    var v := Sub(p2, p0);
    ScalingFactorsSum(t, d01, d12);
    assert c1 == Point(p1.x - fa * v.x, p1.y - fa * v.y);
    assert c2 == Point(p1.x + fb * v.x, p1.y + fb * v.y);
    assert (fa + fb) * v.x == t * v.x && (fa + fb) * v.y == t * v.y;
    assert Sub(c2, c1) == Scale(t, v);
    var lambda := d01 / s;
    assert lambda * t == fa;
    assert lambda * (t * v.x) == fa * v.x && lambda * (t * v.y) == fa * v.y;
  }
}
