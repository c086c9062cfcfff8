/**
 * A smooth path through an ordered list of waypoints. Every consecutive
 * triple of waypoints contributes two control points around its middle
 * waypoint. The path is a move to the first waypoint, a quadratic piece into
 * the second, one cubic piece into each further waypoint but the last, and a
 * closing quadratic piece into the last waypoint.
 */
module Spline {
  import opened Geometry

  /** The length of the chord between two points (the source's sqrt of the squared distance). */
  type Distance = (Point, Point) -> real

  /**
   * What the control-point construction needs of the chord lengths along the
   * waypoints: they are never negative, and no two consecutive chords are
   * both empty (three coincident waypoints would divide zero by zero).
   */
  predicate Admissible(w: seq<Point>, dist: Distance)
  {
    && (forall i :: 0 <= i < |w| - 1 ==> 0.0 <= dist(w[i], w[i + 1]))
    && (forall i :: 0 <= i < |w| - 2 ==> 0.0 < dist(w[i], w[i + 1]) + dist(w[i + 1], w[i + 2]))
  }

  lemma AdmissibleTail(w: seq<Point>, dist: Distance)
    requires |w| > 0 && Admissible(w, dist)
    ensures Admissible(w[1..], dist)
  {
  }

  /** The two control points of the triple that starts at waypoint `i`. */
  function TriplePair(w: seq<Point>, t: real, dist: Distance, i: int): (Point, Point)
    requires Admissible(w, dist) && 0 <= i < |w| - 2
  {
    ControlPoints(w[i], w[i + 1], w[i + 2], t, dist(w[i], w[i + 1]), dist(w[i + 1], w[i + 2]))
  }

  /** Reference definition of the control-point list, triple by triple from the front. */
  function ControlPointList(w: seq<Point>, t: real, dist: Distance): (c: seq<Point>)
    requires Admissible(w, dist)
    ensures |c| == if |w| < 3 then 0 else 2 * (|w| - 2)
    decreases |w|
  {
    if |w| < 3 then []
    else
      AdmissibleTail(w, dist);
      var pair := TriplePair(w, t, dist, 0);
      [pair.0, pair.1] + ControlPointList(w[1..], t, dist)
  }

  /** Two control points per consecutive triple, in the order of the triples. */
  lemma {:induction false} ControlPointListAt(w: seq<Point>, t: real, dist: Distance)
    requires Admissible(w, dist)
    ensures |ControlPointList(w, t, dist)| == if |w| < 3 then 0 else 2 * (|w| - 2)
    ensures forall i :: 0 <= i < |w| - 2 ==>
              && ControlPointList(w, t, dist)[2 * i] == TriplePair(w, t, dist, i).0
              && ControlPointList(w, t, dist)[2 * i + 1] == TriplePair(w, t, dist, i).1
    decreases |w|
  {
    if |w| >= 3 {
      var v := w[1..];
      AdmissibleTail(w, dist);
      ControlPointListAt(v, t, dist);
      var c := ControlPointList(w, t, dist);
      forall i | 0 <= i < |w| - 2
        ensures c[2 * i] == TriplePair(w, t, dist, i).0 && c[2 * i + 1] == TriplePair(w, t, dist, i).1
      {
        if i > 0 {
          assert v[i - 1] == w[i] && v[i] == w[i + 1] && v[i + 1] == w[i + 2];
          assert TriplePair(v, t, dist, i - 1) == TriplePair(w, t, dist, i);
          assert c[2 * i] == ControlPointList(v, t, dist)[2 * (i - 1)];
          assert c[2 * i + 1] == ControlPointList(v, t, dist)[2 * (i - 1) + 1];
        }
      }
    }
  }

  /**
   * The first loop of the spline builder: walks the triples of waypoints and
   * appends each triple's two control points to the list.
   */
  method ComputeControlPoints(w: seq<Point>, t: real, dist: Distance) returns (controls: seq<Point>)
    requires Admissible(w, dist)
    ensures controls == ControlPointList(w, t, dist)
  {
    controls := [];
    var i := 0;
    while i < |w| - 2
      invariant 0 <= i && (i == 0 || i <= |w| - 2)
      invariant |controls| == 2 * i
      invariant forall k :: 0 <= k < i ==>
                  controls[2 * k] == TriplePair(w, t, dist, k).0 && controls[2 * k + 1] == TriplePair(w, t, dist, k).1
    {
      var pair := TriplePair(w, t, dist, i);
      controls := controls + [pair.0, pair.1];
      i := i + 1;
    }
    ControlPointListAt(w, t, dist);
    var reference := ControlPointList(w, t, dist);
    forall j | 0 <= j < |controls| ensures controls[j] == reference[j] {
      var k := j / 2;
      assert 0 <= k < i;
      assert reference[2 * k] == TriplePair(w, t, dist, k).0 && reference[2 * k + 1] == TriplePair(w, t, dist, k).1;
      if j % 2 == 0 {
        assert j == 2 * k;
      } else {
        assert j == 2 * k + 1;
      }
    }
  }

  /** Cubic pieces into `targets`, the k-th using controls `2k` and `2k + 1`. */
  function Cubics(targets: seq<Point>, ctrls: seq<Point>): Path
    requires |ctrls| == 2 * |targets|
  {
    if targets == [] then []
    else [CubicTo(ctrls[0], ctrls[1], targets[0])] + Cubics(targets[1..], ctrls[2..])
  }

  lemma {:induction false} CubicsAt(targets: seq<Point>, ctrls: seq<Point>)
    requires |ctrls| == 2 * |targets|
    ensures |Cubics(targets, ctrls)| == |targets|
    ensures forall j :: 0 <= j < |targets| ==>
              Cubics(targets, ctrls)[j] == CubicTo(ctrls[2 * j], ctrls[2 * j + 1], targets[j])
  {
    if targets != [] {
      CubicsAt(targets[1..], ctrls[2..]);
      forall j | 0 < j < |targets|
        ensures Cubics(targets, ctrls)[j] == CubicTo(ctrls[2 * j], ctrls[2 * j + 1], targets[j])
      {
        assert Cubics(targets, ctrls)[j] == Cubics(targets[1..], ctrls[2..])[j - 1];
        assert ctrls[2..][2 * (j - 1)] == ctrls[2 * j];
      }
    }
  }

  /** Reference definition of the assembled path for `n >= 3` waypoints and `2 (n - 2)` controls. */
  function SplinePath(w: seq<Point>, c: seq<Point>): Path
    requires |w| >= 3 && |c| == 2 * (|w| - 2)
  {
    var n := |w|;
    [MoveTo(w[0]), QuadTo(c[0], w[1])] + Cubics(w[2..n - 1], c[1..2 * n - 5]) + [QuadTo(c[2 * n - 5], w[n - 1])]
  }

  /**
   * The path has one segment per waypoint: a move to the first, a quadratic
   * piece into the second with control 0, cubic piece `k` (for the waypoints
   * strictly between the second and the last) with controls `2k - 3` and
   * `2k - 2`, and a closing quadratic piece with the last control, `2n - 5`.
   */
  lemma SplinePathShape(w: seq<Point>, c: seq<Point>)
    requires |w| >= 3 && |c| == 2 * (|w| - 2)
    ensures var path, n := SplinePath(w, c), |w|;
            && |path| == n
            && path[0] == MoveTo(w[0])
            && path[1] == QuadTo(c[0], w[1])
            && (forall k :: 2 <= k < n - 1 ==> path[k] == CubicTo(c[2 * k - 3], c[2 * k - 2], w[k]))
            && path[n - 1] == QuadTo(c[2 * n - 5], w[n - 1])
  {
    var n := |w|;
    var targets, ctrls := w[2..n - 1], c[1..2 * n - 5];
    CubicsAt(targets, ctrls);
    var path := SplinePath(w, c);
    forall k | 2 <= k < n - 1 ensures path[k] == CubicTo(c[2 * k - 3], c[2 * k - 2], w[k]) {
      assert path[k] == Cubics(targets, ctrls)[k - 2];
      assert ctrls[2 * (k - 2)] == c[2 * k - 3] && ctrls[2 * (k - 2) + 1] == c[2 * k - 2];
    }
  }

  /** Segment `k` of the path ends at waypoint `k`: it starts at the first waypoint and ends at the last. */
  lemma SplinePathVisitsWaypoints(w: seq<Point>, c: seq<Point>)
    requires |w| >= 3 && |c| == 2 * (|w| - 2)
    ensures |SplinePath(w, c)| == |w|
    ensures forall k :: 0 <= k < |w| ==> SplinePath(w, c)[k].target == w[k]
    ensures EndPoint(SplinePath(w, c)) == w[|w| - 1]
  {
    SplinePathShape(w, c);
  }

  datatype Kind = Move | Quad | Cubic

  function KindOf(s: Segment): Kind
  {
    match s
    case MoveTo(_) => Move
    case QuadTo(_, _) => Quad
    case CubicTo(_, _, _) => Cubic
  }

  /** How many segments of a path are of kind `k`. */
  function Count(path: Path, k: Kind): nat
  {
    if path == [] then 0 else (if KindOf(path[0]) == k then 1 else 0) + Count(path[1..], k)
  }

  lemma {:induction false} CountAppend(a: Path, b: Path, k: Kind)
    ensures Count(a + b, k) == Count(a, k) + Count(b, k)
  {
    if a == [] {
      assert a + b == b;
    } else {
      assert (a + b)[0] == a[0] && (a + b)[1..] == a[1..] + b;
      CountAppend(a[1..], b, k);
    }
  }

  lemma {:induction false} CountCubics(targets: seq<Point>, ctrls: seq<Point>, k: Kind)
    requires |ctrls| == 2 * |targets|
    ensures Count(Cubics(targets, ctrls), k) == if k == Cubic then |targets| else 0
  {
    if targets != [] {
      CountCubics(targets[1..], ctrls[2..], k);
    }
  }

  /**
   * For `n` waypoints the path draws `n - 1` curve pieces after its move:
   * two quadratic pieces and `n - 3` cubic ones.
   */
  lemma SplinePathCounts(w: seq<Point>, c: seq<Point>)
    requires |w| >= 3 && |c| == 2 * (|w| - 2)
    ensures Count(SplinePath(w, c), Move) == 1
    ensures Count(SplinePath(w, c), Quad) == 2
    ensures Count(SplinePath(w, c), Cubic) == |w| - 3
  {
    var n := |w|;
    var first, second := MoveTo(w[0]), QuadTo(c[0], w[1]);
    var middle := Cubics(w[2..n - 1], c[1..2 * n - 5]);
    var last := QuadTo(c[2 * n - 5], w[n - 1]);
    assert SplinePath(w, c) == [first] + [second] + middle + [last];
    forall k: Kind
      ensures Count(SplinePath(w, c), k) == Count([first], k) + Count([second], k) + Count(middle, k) + Count([last], k)
    {
      CountAppend([first], [second], k);
      CountAppend([first] + [second], middle, k);
      CountAppend([first] + [second] + middle, [last], k);
    }
    forall k: Kind ensures Count(middle, k) == if k == Cubic then n - 3 else 0 {
      CountCubics(w[2..n - 1], c[1..2 * n - 5], k);
    }
    forall s: Segment, k: Kind ensures Count([s], k) == if KindOf(s) == k then 1 else 0 {
      assert [s][1..] == [];
    }
  }

  /**
   * The second loop of the spline builder: two cursors, one over the
   * waypoints and one over the control points, advance while the segments
   * are appended: the quadratic first piece, the cubic middle pieces, the
   * quadratic last piece.
   */
  method AssemblePath(w: seq<Point>, controls: seq<Point>) returns (path: Path)
    requires |w| >= 3 && |controls| == 2 * (|w| - 2)
    ensures path == SplinePath(w, controls)
  {
    var n := |w|;
    var nextWaypoint, ctrl := 0, 0;
    path := [MoveTo(w[nextWaypoint])];
    nextWaypoint := nextWaypoint + 1;
    path := path + [QuadTo(controls[ctrl], w[nextWaypoint])];
    ctrl, nextWaypoint := ctrl + 1, nextWaypoint + 1;
    var i := 2;
    while i < n - 1
      invariant 2 <= i <= n - 1
      invariant nextWaypoint == i && ctrl == 2 * i - 3
      invariant |path| == i
      invariant path[0] == MoveTo(w[0]) && path[1] == QuadTo(controls[0], w[1])
      invariant forall k :: 2 <= k < i ==> path[k] == CubicTo(controls[2 * k - 3], controls[2 * k - 2], w[k])
    {
      path := path + [CubicTo(controls[ctrl], controls[ctrl + 1], w[nextWaypoint])];
      nextWaypoint := nextWaypoint + 1;
      ctrl := ctrl + 2;
      i := i + 1;
    }
    path := path + [QuadTo(controls[ctrl], w[nextWaypoint])];
    SplinePathShape(w, controls);
  }
}
