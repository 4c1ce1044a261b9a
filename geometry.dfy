/**
 * Plane geometry shared by the whole model.
 *
 * Coordinates are exact reals. Distances that the simulator only compares
 * (against a threshold or against each other) are modelled by their squares,
 * which order points identically and avoid a square root.
 */
module Geometry {

  datatype Option<T> = None | Some(value: T)

  /** A point of the plane (java.awt.geom.Point2D.Double). */
  datatype Point = Point(x: real, y: real)

  /** A straight segment from p1 to p2 (java.awt.geom.Line2D.Double). */
  datatype Segment = Segment(p1: Point, p2: Point)

  function Abs(r: real): (a: real)
    ensures a >= 0.0
    ensures a == r || a == -r
  {
    if r < 0.0 then -r else r
  }

  function Sq(r: real): (s: real)
    ensures s >= 0.0
  {
    r * r
  }

  /** Squared Euclidean distance. */
  function Dist2(a: Point, b: Point): (d: real)
    ensures d >= 0.0
    ensures a == b ==> d == 0.0
  {
    Sq(a.x - b.x) + Sq(a.y - b.y)
  }

  /** Squared length of a segment. */
  function Length2(s: Segment): (d: real)
    ensures d >= 0.0
  {
    Dist2(s.p1, s.p2)
  }

  /**
   * Squared distance from p to the closest point of segment s
   * (the square of Line2D.ptSegDist): the projection parameter is clamped
   * to [0, 1], and a degenerate segment measures the distance to its end.
   */
  function SegDist2(s: Segment, p: Point): (d: real)
    ensures d >= 0.0
    ensures s.p1 == s.p2 ==> d == Dist2(p, s.p1)
  {
    var dx := s.p2.x - s.p1.x;
    var dy := s.p2.y - s.p1.y;
    var len2 := Length2(s);
    if len2 == 0.0 then Dist2(p, s.p1)
    else
      var t := ((p.x - s.p1.x) * dx + (p.y - s.p1.y) * dy) / len2;
      var tc := if t < 0.0 then 0.0 else if t > 1.0 then 1.0 else t;
      Dist2(p, Point(s.p1.x + tc * dx, s.p1.y + tc * dy))
  }
}
