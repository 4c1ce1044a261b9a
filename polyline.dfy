/**
 * MultiLine2D: an editable polyline (the lawn border or an obstacle).
 *
 * The object keeps its vertices and its `closed` flag as fields that
 * `AddPoint` and `ClosePath` update in place. The read-only queries walk the
 * vertex list; they are written here over the vertex sequence, so that the
 * arena queries of the Ground module can use them on any polyline.
 */
module Polyline {
  import opened Geometry

  /** Pick tolerance of the editor, in pixels (MultiLine2D.ED). */
  const ED: real := 4.0

  class MultiLine {
    var points: seq<Point>
    var closed: bool

    constructor ()
      ensures points == [] && !closed
    {
      points := [];
      closed := false;
    }

    /** addPoint: append one vertex at the end. */
    method AddPoint(p: Point)
      modifies this
      ensures points == old(points) + [p]
      ensures closed == old(closed)
    {
      points := points + [p];
    }

    /** closePath: mark the polyline closed; the vertices stay as they are. */
    method ClosePath()
      modifies this
      ensures closed
      ensures points == old(points)
    {
      closed := true;
    }
  }

  /**
   * getLine(n): the n-th segment. Index n < size-1 joins vertex n to vertex
   * n+1, the last index joins the last vertex back to the first one (whether
   * or not the polyline is closed), and any other index has no segment.
   */
  function GetLine(pts: seq<Point>, n: nat): (r: Option<Segment>)
    ensures r.Some? <==> n < |pts|
    ensures r.Some? ==> r.value.p1 == pts[n]
  {
    if |pts| > n + 1 then Some(Segment(pts[n], pts[n + 1]))
    else if |pts| == n + 1 then Some(Segment(pts[n], pts[0]))
    else None
  }

  /** getPoint(int): the n-th vertex, if there is one. */
  function GetPoint(pts: seq<Point>, n: nat): (r: Option<Point>)
    ensures r.Some? <==> n < |pts|
    ensures r.Some? ==> r.value == pts[n]
  {
    if |pts| > n then Some(pts[n]) else None
  }

  /** The segments getLine(0) .. getLine(size-1) enumerate: a closed ring. */
  function Ring(pts: seq<Point>): (r: seq<Segment>)
    ensures |r| == |pts|
  {
    seq(|pts|, i requires 0 <= i < |pts| => Segment(pts[i], pts[(i + 1) % |pts|]))
  }

  /** getLine walks the vertices as a ring: index n joins vertex n to vertex (n+1) mod size. */
  lemma GetLineWraps(pts: seq<Point>, n: nat)
    requires n < |pts|
    ensures GetLine(pts, n) == Some(Segment(pts[n], pts[(n + 1) % |pts|]))
    ensures GetLine(pts, n) == Some(Ring(pts)[n])
  {
    if n + 1 < |pts| {
      assert (n + 1) % |pts| == n + 1;
    } else {
      assert (n + 1) % |pts| == 0;
    }
  }

  /**
   * Appending a vertex keeps every vertex index, and moves only the
   * wrap-around segment: the former last segment now ends at the new vertex.
   */
  lemma AddPointKeepsIndices(pts: seq<Point>, p: Point)
    ensures forall i: nat :: i < |pts| ==> GetPoint(pts + [p], i) == GetPoint(pts, i)
    ensures GetPoint(pts + [p], |pts|) == Some(p)
    ensures forall i: nat :: i + 1 < |pts| ==> GetLine(pts + [p], i) == GetLine(pts, i)
    ensures |pts| > 0 ==> GetLine(pts + [p], |pts| - 1) == Some(Segment(pts[|pts| - 1], p))
    ensures GetLine(pts + [p], |pts|) == Some(Segment(p, (pts + [p])[0]))
  {
  }

  /**
   * The segments that ptSegDist, getCollidingLine and the drawing walk: each
   * vertex joined to the next, and the closing segment only when closed.
   */
  function Segments(pts: seq<Point>, closed: bool): (r: seq<Segment>)
    ensures |pts| == 0 ==> r == []
    ensures |pts| > 0 ==> |r| == |pts| - 1 + (if closed then 1 else 0)
    ensures forall i :: 0 <= i < |pts| - 1 ==> r[i] == Segment(pts[i], pts[i + 1])
    ensures closed && |pts| > 0 ==> r[|r| - 1] == Segment(pts[|pts| - 1], pts[0])
  {
    var open := seq(if |pts| == 0 then 0 else |pts| - 1, i requires 0 <= i < |pts| - 1 => Segment(pts[i], pts[i + 1]));
    if closed && |pts| > 0 then open + [Segment(pts[|pts| - 1], pts[0])] else open
  }

  /**
   * A closed polyline's segments are exactly the ring getLine enumerates; an
   * open one lacks only the last, wrap-around segment of that ring.
   */
  lemma SegmentsVersusRing(pts: seq<Point>, closed: bool)
    requires |pts| > 0
    ensures closed ==> Segments(pts, closed) == Ring(pts)
    ensures !closed ==> Segments(pts, closed) == Ring(pts)[..|pts| - 1]
  {
    var segs, ring := Segments(pts, closed), Ring(pts);
    forall i | 0 <= i < |pts| - 1
      ensures segs[i] == ring[i]
    {
      GetLineWraps(pts, i);
    }
    if closed {
      GetLineWraps(pts, |pts| - 1);
    }
  }

  /** A vertex is picked when it lies within ED of tp along both axes. */
  predicate NearVertex(v: Point, tp: Point)
  {
    Abs(v.x - tp.x) < ED && Abs(v.y - tp.y) < ED
  }

  /** A segment is picked when tp lies closer than ED to it. */
  predicate NearSegment(s: Segment, tp: Point)
  {
    SegDist2(s, tp) < ED * ED
  }

  /** getPoint(Point2D): the first vertex near tp, if any. */
  method FindVertex(pts: seq<Point>, tp: Point) returns (r: Option<Point>)
    ensures r.None? <==> forall k :: 0 <= k < |pts| ==> !NearVertex(pts[k], tp)
    ensures r.Some? ==> exists k :: 0 <= k < |pts| && r.value == pts[k] && NearVertex(pts[k], tp)
                                    && forall j :: 0 <= j < k ==> !NearVertex(pts[j], tp)
  {
    var k := 0;
    while k < |pts|
      invariant 0 <= k <= |pts|
      invariant forall j :: 0 <= j < k ==> !NearVertex(pts[j], tp)
    {
      if NearVertex(pts[k], tp) {
        return Some(pts[k]);
      }
      k := k + 1;
    }
    return None;
  }

  /**
   * The walk of getLine2D stops at vertex k when that vertex is near tp or
   * when the segment arriving at it is.
   */
  predicate StopsAt(pts: seq<Point>, tp: Point, k: nat)
    requires k < |pts|
  {
    NearVertex(pts[k], tp) || (k > 0 && NearSegment(Segment(pts[k - 1], pts[k]), tp))
  }

  /** A stop with none before it is the first stop: no other index is. */
  lemma FirstStopUnique(pts: seq<Point>, tp: Point, k: nat)
    requires k < |pts| && StopsAt(pts, tp, k) && forall j: nat :: j < k ==> !StopsAt(pts, tp, j)
    ensures forall m: nat :: m < |pts| && StopsAt(pts, tp, m) && (forall j: nat :: j < m ==> !StopsAt(pts, tp, j)) ==> m == k
  {
  }

  /**
   * getLine2D: the first segment near tp, but nothing when a vertex near tp
   * comes first (a vertex pick wins over a segment pick); the closing
   * segment is tried last and only when closed.
   */
  method GetLine2D(pts: seq<Point>, closed: bool, tp: Point) returns (r: Option<Segment>)
    ensures forall k: nat :: k < |pts| && StopsAt(pts, tp, k) && (forall j: nat :: j < k ==> !StopsAt(pts, tp, j)) ==>
              r == (if NearVertex(pts[k], tp) then None else Some(Segment(pts[k - 1], pts[k])))
    ensures (forall k: nat :: k < |pts| ==> !StopsAt(pts, tp, k)) ==>
              r == (if closed && |pts| > 0 && NearSegment(Segment(pts[|pts| - 1], pts[0]), tp)
                    then Some(Segment(pts[|pts| - 1], pts[0])) else None)
    ensures r.Some? ==> r.value in Segments(pts, closed) && NearSegment(r.value, tp)
    ensures (forall k :: 0 <= k < |pts| ==> !NearVertex(pts[k], tp)) ==>
              (r.Some? <==> exists s :: s in Segments(pts, closed) && NearSegment(s, tp))
  {
    ghost var segs := Segments(pts, closed);
    var k: nat := 0;
    while k < |pts|
      invariant k <= |pts|
      invariant forall j: nat :: j < k ==> !StopsAt(pts, tp, j)
    {
      if NearVertex(pts[k], tp) {
        assert StopsAt(pts, tp, k);
        FirstStopUnique(pts, tp, k);
        return None;
      }
      if k > 0 && NearSegment(Segment(pts[k - 1], pts[k]), tp) {
        assert StopsAt(pts, tp, k);
        FirstStopUnique(pts, tp, k);
        assert segs[k - 1] == Segment(pts[k - 1], pts[k]);
        assert segs[k - 1] in segs;
        return Some(Segment(pts[k - 1], pts[k]));
      }
      k := k + 1;
    }
    if closed && |pts| > 0 && NearSegment(Segment(pts[|pts| - 1], pts[0]), tp) {
      assert segs[|segs| - 1] == Segment(pts[|pts| - 1], pts[0]);
      return Some(Segment(pts[|pts| - 1], pts[0]));
    }
    forall s | s in segs
      ensures !NearSegment(s, tp)
    {
      var i :| 0 <= i < |segs| && segs[i] == s;
      if i < |pts| - 1 {
        assert !StopsAt(pts, tp, i + 1);
      }
    }
    return None;
  }

  /**
   * ptSegDist: the smallest (squared) distance from p to a segment of the
   * polyline; None stands for Double.MAX_VALUE, returned when the polyline
   * has no segment at all.
   */
  method PtSegDist(pts: seq<Point>, closed: bool, p: Point) returns (r: Option<real>)
    ensures r.None? <==> |Segments(pts, closed)| == 0
    ensures r.Some? ==> forall s :: s in Segments(pts, closed) ==> r.value <= SegDist2(s, p)
    ensures r.Some? ==> exists s :: s in Segments(pts, closed) && r.value == SegDist2(s, p)
  {
    var segs := Segments(pts, closed);
    if |pts| == 0 {
      return None;
    }
    var best: Option<real> := None;
    ghost var closest: Segment := Segment(p, p);
    var k := 1;
    while k < |pts|
      invariant 1 <= k <= |pts|
      invariant best.None? <==> k == 1
      invariant best.Some? ==> forall j :: 0 <= j < k - 1 ==> best.value <= SegDist2(segs[j], p)
      invariant best.Some? ==> closest in segs[..k - 1] && best.value == SegDist2(closest, p)
    {
      var d := SegDist2(Segment(pts[k - 1], pts[k]), p);
      if best.None? || d < best.value {
        best := Some(d);
        closest := segs[k - 1];
      }
      k := k + 1;
    }
    if closed {
      var d := SegDist2(Segment(pts[|pts| - 1], pts[0]), p);
      if best.None? || d < best.value {
        best := Some(d);
        closest := segs[|segs| - 1];
      }
    }
    assert segs[..|segs|] == segs;
    return best;
  }

  /**
   * getCollidingLine: the first segment, in walking order, that crosses
   * check; the closing segment comes last and only when closed.
   * Segment intersection (Line2D.intersectsLine) is a parameter.
   */
  method CollidingLine(pts: seq<Point>, closed: bool, check: Segment, intersects: (Segment, Segment) -> bool)
    returns (r: Option<Segment>)
    ensures r.None? <==> forall i :: 0 <= i < |Segments(pts, closed)| ==> !intersects(Segments(pts, closed)[i], check)
    ensures r.Some? ==> exists i :: 0 <= i < |Segments(pts, closed)| && r.value == Segments(pts, closed)[i]
                                    && intersects(r.value, check)
                                    && forall j :: 0 <= j < i ==> !intersects(Segments(pts, closed)[j], check)
  {
    var segs := Segments(pts, closed);
    if |pts| == 0 {
      return None;
    }
    var k := 1;
    while k < |pts|
      invariant 1 <= k <= |pts|
      invariant forall j :: 0 <= j < k - 1 ==> !intersects(segs[j], check)
    {
      var l := Segment(pts[k - 1], pts[k]);
      if intersects(l, check) {
        assert l == segs[k - 1];
        return Some(l);
      }
      k := k + 1;
    }
    if closed {
      var l := Segment(pts[|pts| - 1], pts[0]);
      if intersects(l, check) {
        return Some(l);
      }
    }
    return None;
  }

  /** Index of the vertex before i on the ring (the shoelace's "j"). */
  function Prev(n: nat, i: nat): (j: nat)
    requires i < n
    ensures j < n
  {
    if i == 0 then n - 1 else i - 1
  }

  function ShoelaceTerm(pts: seq<Point>, i: nat): real
    requires i < |pts|
  {
    var j := Prev(|pts|, i);
    (pts[j].x + pts[i].x) * (pts[j].y - pts[i].y)
  }

  /** Sum of the first k shoelace terms. */
  function ShoelaceSum(pts: seq<Point>, k: nat): real
    requires k <= |pts|
  {
    if k == 0 then 0.0 else ShoelaceSum(pts, k - 1) + ShoelaceTerm(pts, k - 1)
  }

  /** The enclosed area: zero unless closed with at least three vertices. */
  function AreaOf(pts: seq<Point>, closed: bool): (a: real)
    ensures a >= 0.0
    ensures !closed || |pts| < 3 ==> a == 0.0
  {
    if !closed || |pts| < 3 then 0.0 else Abs(ShoelaceSum(pts, |pts|) / 2.0)
  }

  /** getArea: the shoelace loop. */
  method Area(pts: seq<Point>, closed: bool) returns (a: real)
    ensures a == AreaOf(pts, closed)
    ensures a >= 0.0
  {
    if !closed || |pts| < 3 {
      return 0.0;
    }
    var area := 0.0;
    var j := |pts| - 1;
    var i := 0;
    while i < |pts|
      invariant 0 <= i <= |pts|
      invariant i == 0 ==> j == |pts| - 1
      invariant i > 0 ==> j == i - 1
      invariant area == ShoelaceSum(pts, i)
    {
      assert j == Prev(|pts|, i);
      var term := (pts[j].x + pts[i].x) * (pts[j].y - pts[i].y);
      assert term == ShoelaceTerm(pts, i);
      area := area + term;
      j := i;
      i := i + 1;
    }
    return Abs(area / 2.0);
  }

  function Translate(pts: seq<Point>, dx: real, dy: real): (r: seq<Point>)
    ensures |r| == |pts|
    ensures forall i :: 0 <= i < |pts| ==> r[i] == Point(pts[i].x + dx, pts[i].y + dy)
  {
    seq(|pts|, i requires 0 <= i < |pts| => Point(pts[i].x + dx, pts[i].y + dy))
  }

  lemma Distribute(a: real, c: real, b: real)
    ensures (a + c) * b == a * b + c * b
  {
  }

  lemma Factor(c: real, u: real, v: real)
    ensures c * u + c * v == c * (u + v)
  {
  }

  /** The telescoping term: how far the first k shoelace terms fall from the last vertex in y. */
  function Drop(pts: seq<Point>, k: nat): real
    requires k <= |pts|
  {
    if k == 0 then 0.0 else pts[|pts| - 1].y - pts[k - 1].y
  }

  /** Shifting by (dx, dy) adds 2 dx times the y-difference to one shoelace term. */
  lemma TermTranslated(pts: seq<Point>, dx: real, dy: real, i: nat)
    requires i < |pts|
    ensures ShoelaceTerm(Translate(pts, dx, dy), i)
            == ShoelaceTerm(pts, i) + 2.0 * dx * (pts[Prev(|pts|, i)].y - pts[i].y)
  {
    var t := Translate(pts, dx, dy);
    var j := Prev(|pts|, i);
    Distribute(pts[j].x + pts[i].x, 2.0 * dx, pts[j].y - pts[i].y);
    assert t[j].x + t[i].x == (pts[j].x + pts[i].x) + 2.0 * dx;
  }

  /** Partial shoelace sums of a shifted polygon differ by a telescoping term. */
  lemma {:induction false} ShoelaceSumTranslated(pts: seq<Point>, dx: real, dy: real, k: nat)
    requires k <= |pts|
    ensures ShoelaceSum(Translate(pts, dx, dy), k) == ShoelaceSum(pts, k) + 2.0 * dx * Drop(pts, k)
  {
    if k > 0 {
      var i := k - 1;
      ShoelaceSumTranslated(pts, dx, dy, i);
      TermTranslated(pts, dx, dy, i);
      var b := pts[Prev(|pts|, i)].y - pts[i].y;
      assert Drop(pts, i) + b == Drop(pts, k);
      Factor(2.0 * dx, Drop(pts, i), b);
    }
  }

  /** getArea does not depend on where the polygon lies: shifting it keeps the area. */
  lemma AreaTranslationInvariant(pts: seq<Point>, closed: bool, dx: real, dy: real)
    ensures AreaOf(Translate(pts, dx, dy), closed) == AreaOf(pts, closed)
  {
    if closed && |pts| >= 3 {
      ShoelaceSumTranslated(pts, dx, dy, |pts|);
    }
  }

  /** The unit square, walked counter-clockwise, has area 1. */
  lemma UnitSquareArea()
    ensures AreaOf([Point(0.0, 0.0), Point(1.0, 0.0), Point(1.0, 1.0), Point(0.0, 1.0)], true) == 1.0
  {
    var sq := [Point(0.0, 0.0), Point(1.0, 0.0), Point(1.0, 1.0), Point(0.0, 1.0)];
    assert ShoelaceSum(sq, 4) == -2.0;
  }
}
