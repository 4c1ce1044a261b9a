/**
 * GroundModel: the arena, made of one border polyline and a list of obstacle
 * polylines, with a calibration factor in centimetres per pixel.
 *
 * The list of obstacles and the calibration are fields that the editing
 * operations update in place. The two ray queries walk every segment that
 * getLine enumerates (obstacles first, then the border); the intersection
 * point of two segments (GeomUtil.getIntersectPoint) is a parameter.
 */
module Ground {
  import opened Geometry
  import opened Polyline
  import opened Zones

  /** Segment-intersection oracle: the crossing point of two segments, if any. */
  type Intersector = (Segment, Segment) -> Option<Point>

  /**
   * The arena as the mower reads it while it drives: the border and
   * obstacle vertices, the calibration, and the ground-model and geometry
   * queries whose bodies are not part of this model (getChargingStation,
   * getZonePoints, getPerimeterLength, getDistOnPerimeter,
   * getPointAtDistOnPerimeter, isInside and its overload with a tolerance,
   * getCollidingLine,
   * GeomUtil.getIntersectPoint and GeomUtil.getColinearPointWithLength).
   */
  datatype Arena = Arena(
    border: seq<Point>,
    obstacles: seq<seq<Point>>,
    calibration: real,
    chargingStation: Option<Point>,
    zones: seq<ZonePoint>,
    perimeterLength: real,
    distOnPerimeter: Point -> real,
    pointAtDist: real -> Option<Point>,
    isInside: Point -> bool,
    isInsideWithin: (Point, real) -> bool,
    collidingLine: Segment -> Option<Segment>,
    intersectPoint: Intersector,
    colinearPoint: (Point, Point, real) -> Point)

  /**
   * What the model expects of those queries: a non-empty border, a
   * positive calibration and perimeter length, perimeter distances in
   * [0, L), and a point for every perimeter distance in [0, L).
   */
  ghost predicate ValidArena(a: Arena)
  {
    |a.border| > 0 && a.calibration > 0.0 && a.perimeterLength > 0.0
    && (forall p :: 0.0 <= a.distOnPerimeter(p) < a.perimeterLength)
    && (forall d :: 0.0 <= d < a.perimeterLength ==> a.pointAtDist(d).Some?)
  }

  /** Where a point lands when it is snapped onto the border: the point at its own perimeter distance. */
  function Snap(a: Arena, p: Point): (q: Point)
    requires ValidArena(a)
  {
    a.pointAtDist(a.distOnPerimeter(p)).value
  }

  /**
   * The zone a point belongs to, as every mower model identifies it: the
   * first zone i with dist(zone i-1) < d <= dist(zone i), where d is the
   * point's perimeter distance; zone 0 when none matches.
   */
  function ZoneAt(a: Arena, p: Point): (z: nat)
    ensures |a.zones| > 0 ==> z < |a.zones|
    ensures |a.zones| == 0 ==> z == 0
  {
    ZoneOfIsFirstMatch(ZoneDistances(a.zones, a.distOnPerimeter), a.distOnPerimeter(p));
    ZoneOf(ZoneDistances(a.zones, a.distOnPerimeter), a.distOnPerimeter(p))
  }

  /**
   * The point V3 and V4 aim at when they move to zone `best`: halfway along
   * the perimeter from the previous zone point to the zone's own point.
   */
  function ZoneMidpoint(a: Arena, best: nat): (d: real)
    requires ValidArena(a) && best < |a.zones|
    ensures 0.0 <= d < a.perimeterLength
    ensures a.pointAtDist(d).Some?
  {
    var dPrev := a.distOnPerimeter(a.zones[PrevZone(best, |a.zones|)].point);
    var dTarget := a.distOnPerimeter(a.zones[best].point);
    WrappedMidpointRange(dPrev, dTarget, a.perimeterLength);
    WrappedMidpoint(dPrev, dTarget, a.perimeterLength)
  }

  /** The midpoint computation shared by AutoMowerModelV3 and V4, with its wrap below L. */
  method AimAtZone(a: Arena, bestTargetZone: nat) returns (target: Option<Point>)
    requires ValidArena(a) && bestTargetZone < |a.zones|
    ensures target == a.pointAtDist(ZoneMidpoint(a, bestTargetZone))
    ensures target.Some?
  {
    var zones := a.zones;
    var n := |zones|;
    var perimeterLen := a.perimeterLength;
    var dTarget := a.distOnPerimeter(zones[bestTargetZone].point);
    var dPrev := a.distOnPerimeter(zones[(bestTargetZone - 1 + n) % n].point);
    var dMid;
    if dTarget < dPrev {
      dMid := (dPrev + dTarget + perimeterLen) / 2.0;
      if dMid >= perimeterLen {
        dMid := dMid - perimeterLen;
      }
    } else {
      dMid := (dPrev + dTarget) / 2.0;
    }
    target := a.pointAtDist(dMid);
  }

  /**
   * The candidate segments of the ray queries: for each polyline in turn,
   * getLine(0) .. getLine(size-1), wrap-around segment included.
   */
  function Candidates(polys: seq<seq<Point>>): (r: seq<Segment>)
    ensures polys == [] ==> r == []
  {
    if |polys| == 0 then [] else Candidates(polys[..|polys| - 1]) + Ring(polys[|polys| - 1])
  }

  /** Every vertex of every polyline starts one candidate segment, so the count of candidates is the count of vertices. */
  lemma {:induction false} CandidatesCount(polys: seq<seq<Point>>)
    ensures |Candidates(polys)| == VertexCount(polys)
  {
    if |polys| > 0 {
      CandidatesCount(polys[..|polys| - 1]);
    }
  }

  function VertexCount(polys: seq<seq<Point>>): nat
  {
    if |polys| == 0 then 0 else VertexCount(polys[..|polys| - 1]) + |polys[|polys| - 1]|
  }

  /** Candidate i is the earliest of the hits nearest to p1. */
  predicate NearestHit(cands: seq<Segment>, given: Segment, p1: Point, ip: Intersector, i: int)
  {
    0 <= i < |cands| && ip(cands[i], given).Some?
    && (forall j :: 0 <= j < i && ip(cands[j], given).Some? ==>
          Dist2(p1, ip(cands[j], given).value) > Dist2(p1, ip(cands[i], given).value))
    && (forall j :: i < j < |cands| && ip(cands[j], given).Some? ==>
          Dist2(p1, ip(cands[j], given).value) >= Dist2(p1, ip(cands[i], given).value))
  }

  predicate NoHit(cands: seq<Segment>, given: Segment, ip: Intersector)
  {
    forall i :: 0 <= i < |cands| ==> ip(cands[i], given).None?
  }

  /** The candidates, in order, whose crossing point lies at squared distance m from p1. */
  function HitsAt(cands: seq<Segment>, given: Segment, p1: Point, ip: Intersector, m: real): (r: seq<Segment>)
    ensures |r| <= |cands|
    ensures forall s :: s in r ==> s in cands && ip(s, given).Some? && Dist2(p1, ip(s, given).value) == m
  {
    if |cands| == 0 then []
    else
      var c := cands[|cands| - 1];
      HitsAt(cands[..|cands| - 1], given, p1, ip, m)
      + (if ip(c, given).Some? && Dist2(p1, ip(c, given).value) == m then [c] else [])
  }

  /** m is the smallest positive squared distance from p1 at which some candidate is hit. */
  predicate IsMinPositiveHit(cands: seq<Segment>, given: Segment, p1: Point, ip: Intersector, m: real)
  {
    m > 0.0
    && (exists i :: 0 <= i < |cands| && ip(cands[i], given).Some? && Dist2(p1, ip(cands[i], given).value) == m)
    && (forall i :: 0 <= i < |cands| && ip(cands[i], given).Some? && Dist2(p1, ip(cands[i], given).value) > 0.0 ==>
          Dist2(p1, ip(cands[i], given).value) >= m)
  }

  predicate NoPositiveHit(cands: seq<Segment>, given: Segment, p1: Point, ip: Intersector)
  {
    forall i :: 0 <= i < |cands| && ip(cands[i], given).Some? ==> Dist2(p1, ip(cands[i], given).value) == 0.0
  }

  lemma {:induction false} HitsAtNone(cands: seq<Segment>, given: Segment, p1: Point, ip: Intersector, m: real)
    requires forall i :: 0 <= i < |cands| && ip(cands[i], given).Some? ==> Dist2(p1, ip(cands[i], given).value) != m
    ensures HitsAt(cands, given, p1, ip, m) == []
  {
    if |cands| > 0 {
      HitsAtNone(cands[..|cands| - 1], given, p1, ip, m);
    }
  }

  /**
   * Removing an element: java.util.List.remove(Object) drops the first
   * occurrence and leaves the list unchanged when the element is absent.
   */
  function RemoveFirst<T(==)>(s: seq<T>, x: T): (r: seq<T>)
  {
    if |s| == 0 then []
    else if s[0] == x then s[1..]
    else [s[0]] + RemoveFirst(s[1..], x)
  }

  /** RemoveFirst takes exactly one occurrence of x out of the multiset of elements, and none when x is absent. */
  lemma {:induction false} RemoveFirstMultiset<T>(s: seq<T>, x: T)
    ensures multiset(RemoveFirst(s, x)) == multiset(s) - multiset{x}
    ensures x in s ==> |RemoveFirst(s, x)| == |s| - 1
    ensures x !in s ==> RemoveFirst(s, x) == s
  {
    if |s| > 0 {
      assert s == [s[0]] + s[1..];
      if s[0] != x {
        RemoveFirstMultiset(s[1..], x);
      }
    }
  }

  /** A pick near tp: a vertex within ED on both axes, or a segment closer than ED. */
  predicate Picked(pts: seq<Point>, closed: bool, tp: Point)
  {
    (exists k :: 0 <= k < |pts| && NearVertex(pts[k], tp))
    || (exists s :: s in Segments(pts, closed) && NearSegment(s, tp))
  }

  class GroundModel {
    var border: MultiLine
    var obstacles: seq<MultiLine>
    /** Centimetres per pixel. */
    var calibration: real
    var highlightedPoint: Option<Point>
    var highlightedLine: Option<Segment>

    constructor ()
      ensures obstacles == [] && calibration == 10.0
      ensures border.points == [] && !border.closed
      ensures highlightedPoint.None? && highlightedLine.None?
    {
      border := new MultiLine();
      obstacles := [];
      calibration := 10.0;
      highlightedPoint := None;
      highlightedLine := None;
    }

    /** The vertex lists the ray queries walk: the obstacles, then the border. */
    function Polys(): (r: seq<seq<Point>>)
      reads this, obstacles, border
      ensures |r| == |obstacles| + 1
      ensures forall k :: 0 <= k < |obstacles| ==> r[k] == obstacles[k].points
      ensures r[|obstacles|] == border.points
    {
      seq(|obstacles|, k requires 0 <= k < |obstacles| reads this, obstacles => obstacles[k].points) + [border.points]
    }

    /** addObstacle: append the polyline to the obstacles. */
    method AddObstacle(o: MultiLine)
      modifies this
      ensures obstacles == old(obstacles) + [o]
      ensures border == old(border) && calibration == old(calibration)
      ensures highlightedPoint == old(highlightedPoint) && highlightedLine == old(highlightedLine)
    {
      obstacles := obstacles + [o];
    }

    /** removeObstacle: drop the polyline from the obstacles and clear both highlights. */
    method RemoveObstacle(o: MultiLine)
      modifies this
      ensures obstacles == RemoveFirst(old(obstacles), o)
      ensures border == old(border) && calibration == old(calibration)
      ensures highlightedPoint.None? && highlightedLine.None?
    {
      obstacles := RemoveFirst(obstacles, o);
      highlightedLine := None;
      highlightedPoint := None;
    }

    /**
     * setCalibration: centimetres per pixel of a measured line, i.e. its
     * length in centimetres over its Euclidean length in pixels, which the
     * caller passes as `length` (the square root of the squared length).
     */
    method SetCalibration(line: Segment, lengthInCm: int, length: real)
      requires length > 0.0 && length * length == Length2(line)
      modifies this
      ensures calibration * length == lengthInCm as real
      ensures border == old(border) && obstacles == old(obstacles)
      ensures highlightedPoint == old(highlightedPoint) && highlightedLine == old(highlightedLine)
    {
      calibration := lengthInCm as real / length;
    }

    /** getObstacle: the first obstacle that has a vertex or a segment near tp. */
    method GetObstacle(tp: Point) returns (r: Option<MultiLine>)
      ensures r.None? <==> forall k :: 0 <= k < |obstacles| ==> !Picked(obstacles[k].points, obstacles[k].closed, tp)
      ensures r.Some? ==> exists k :: 0 <= k < |obstacles| && r.value == obstacles[k]
                                      && Picked(obstacles[k].points, obstacles[k].closed, tp)
                                      && forall j :: 0 <= j < k ==> !Picked(obstacles[j].points, obstacles[j].closed, tp)
    {
      var k := 0;
      while k < |obstacles|
        invariant 0 <= k <= |obstacles|
        invariant forall j :: 0 <= j < k ==> !Picked(obstacles[j].points, obstacles[j].closed, tp)
      {
        var o := obstacles[k];
        var line := GetLine2D(o.points, o.closed, tp);
        var vertex := FindVertex(o.points, tp);
        if line.Some? || vertex.Some? {
          return Some(o);
        }
        k := k + 1;
      }
      return None;
    }

    /**
     * getCollisionPoint: the crossing point nearest to p1 of the segment
     * p1-p2 with any candidate segment; on equal distances the earlier
     * candidate is kept. None when nothing is crossed.
     */
    method GetCollisionPoint(p1: Point, p2: Point, ip: Intersector) returns (found: Option<Point>)
      ensures found.None? <==> NoHit(Candidates(Polys()), Segment(p1, p2), ip)
      ensures found.Some? ==> exists i :: NearestHit(Candidates(Polys()), Segment(p1, p2), p1, ip, i)
                                          && found == ip(Candidates(Polys())[i], Segment(p1, p2))
    {
      var given := Segment(p1, p2);
      var polys := Polys();
      found := None;
      var best := 0.0;
      ghost var done: seq<Segment> := [];
      ghost var bi := -1;
      var k := 0;
      while k < |polys|
        invariant 0 <= k <= |polys|
        invariant done == Candidates(polys[..k])
        invariant NearestSoFar(done, given, p1, ip, found, bi)
        invariant found.Some? ==> best == Dist2(p1, found.value)
      {
        var pts := polys[k];
        var i := 0;
        while i < |pts|
          invariant 0 <= i <= |pts|
          invariant done == Candidates(polys[..k]) + Ring(pts)[..i]
          invariant NearestSoFar(done, given, p1, ip, found, bi)
          invariant found.Some? ==> best == Dist2(p1, found.value)
        {
          var l := GetLine(pts, i).value;
          GetLineWraps(pts, i);
          var hit := ip(l, given);
          var nearer := hit.Some? && (found.None? || Dist2(p1, hit.value) < best);
          NearestStep(done, l, given, p1, ip, found, bi, nearer);
          done := done + [l];
          RingPrefixStep(pts, i);
          if nearer {
            found := hit;
            best := Dist2(p1, hit.value);
            bi := |done| - 1;
          }
          i := i + 1;
        }
        CandidatesStep(polys, k);
        k := k + 1;
      }
      assert polys[..|polys|] == polys;
    }

    /**
     * getCollisionLines: every candidate segment, in order, crossed at the
     * smallest positive distance from p1; crossings at p1 itself are ignored.
     */
    method GetCollisionLines(p1: Point, p2: Point, ip: Intersector) returns (result: seq<Segment>)
      ensures result == [] <==> NoPositiveHit(Candidates(Polys()), Segment(p1, p2), p1, ip)
      ensures result != [] ==> exists m :: IsMinPositiveHit(Candidates(Polys()), Segment(p1, p2), p1, ip, m)
                                           && result == HitsAt(Candidates(Polys()), Segment(p1, p2), p1, ip, m)
    {
      var given := Segment(p1, p2);
      var polys := Polys();
      result := [];
      var best: Option<real> := None;
      ghost var done: seq<Segment> := [];
      var k := 0;
      while k < |polys|
        invariant 0 <= k <= |polys|
        invariant done == Candidates(polys[..k])
        invariant LinesSoFar(done, given, p1, ip, best, result)
      {
        var pts := polys[k];
        var i := 0;
        while i < |pts|
          invariant 0 <= i <= |pts|
          invariant done == Candidates(polys[..k]) + Ring(pts)[..i]
          invariant LinesSoFar(done, given, p1, ip, best, result)
        {
          var l := GetLine(pts, i).value;
          GetLineWraps(pts, i);
          best, result := ConsiderLine(done, l, given, p1, ip, best, result);
          done := done + [l];
          RingPrefixStep(pts, i);
          i := i + 1;
        }
        CandidatesStep(polys, k);
        k := k + 1;
      }
      assert polys[..|polys|] == polys;
      LinesDone(done, given, p1, ip, best, result);
    }
  }

  lemma RingPrefixStep(pts: seq<Point>, i: nat)
    requires i < |pts|
    ensures Ring(pts)[..i + 1] == Ring(pts)[..i] + [Ring(pts)[i]]
  {
  }

  lemma CandidatesStep(polys: seq<seq<Point>>, k: nat)
    requires k < |polys|
    ensures Candidates(polys[..k + 1]) == Candidates(polys[..k]) + Ring(polys[k])[..|polys[k]|]
  {
    assert polys[..k + 1][..k] == polys[..k];
    assert Ring(polys[k])[..|polys[k]|] == Ring(polys[k]);
  }

  /** Loop state of getCollisionPoint after walking the candidates in done. */
  predicate NearestSoFar(done: seq<Segment>, given: Segment, p1: Point, ip: Intersector, found: Option<Point>, bi: int)
  {
    (found.None? <==> NoHit(done, given, ip))
    && (found.Some? ==> NearestHit(done, given, p1, ip, bi) && found == ip(done[bi], given))
  }

  lemma NearestStep(done: seq<Segment>, l: Segment, given: Segment, p1: Point, ip: Intersector,
                    found: Option<Point>, bi: int, nearer: bool)
    requires NearestSoFar(done, given, p1, ip, found, bi)
    requires nearer == (ip(l, given).Some? && (found.None? || Dist2(p1, ip(l, given).value) < Dist2(p1, found.value)))
    ensures nearer ==> NearestSoFar(done + [l], given, p1, ip, ip(l, given), |done|)
    ensures !nearer ==> NearestSoFar(done + [l], given, p1, ip, found, bi)
  {
    var next := done + [l];
    assert next[|done|] == l;
    assert forall j :: 0 <= j < |done| ==> next[j] == done[j];
  }

  /** Loop state of getCollisionLines after walking the candidates in done. */
  predicate LinesSoFar(done: seq<Segment>, given: Segment, p1: Point, ip: Intersector, best: Option<real>, result: seq<Segment>)
  {
    (best.None? <==> NoPositiveHit(done, given, p1, ip))
    && (best.None? ==> result == [])
    && (best.Some? ==> IsMinPositiveHit(done, given, p1, ip, best.value)
                       && result == HitsAt(done, given, p1, ip, best.value) && result != [])
  }

  /**
   * One step of getCollisionLines: a crossing nearer than the best so far
   * restarts the result, one at the same distance joins it, anything else
   * leaves it alone.
   */
  method ConsiderLine(ghost done: seq<Segment>, l: Segment, given: Segment, p1: Point, ip: Intersector,
                      best: Option<real>, result: seq<Segment>)
    returns (best': Option<real>, result': seq<Segment>)
    requires LinesSoFar(done, given, p1, ip, best, result)
    ensures LinesSoFar(done + [l], given, p1, ip, best', result')
  {
    var hit := ip(l, given);
    var d := if hit.Some? then Dist2(p1, hit.value) else 0.0;
    if hit.Some? && d > 0.0 && (best.None? || d < best.value) {
      LinesNearer(done, l, given, p1, ip, best, result);
      best', result' := Some(d), [l];
    } else if hit.Some? && d > 0.0 && best.Some? && d == best.value {
      LinesTie(done, l, given, p1, ip, best, result);
      best', result' := best, result + [l];
    } else {
      LinesSame(done, l, given, p1, ip, best, result);
      best', result' := best, result;
    }
  }

  /** Once every candidate is walked, the loop state is the promise of getCollisionLines. */
  lemma LinesDone(cands: seq<Segment>, given: Segment, p1: Point, ip: Intersector, best: Option<real>, result: seq<Segment>)
    requires LinesSoFar(cands, given, p1, ip, best, result)
    ensures result == [] <==> NoPositiveHit(cands, given, p1, ip)
    ensures result != [] ==> exists m :: IsMinPositiveHit(cands, given, p1, ip, m)
                                         && result == HitsAt(cands, given, p1, ip, m)
  {
    if best.Some? {
      assert IsMinPositiveHit(cands, given, p1, ip, best.value);
    }
  }

  lemma LinesNearer(done: seq<Segment>, l: Segment, given: Segment, p1: Point, ip: Intersector,
                    best: Option<real>, result: seq<Segment>)
    requires LinesSoFar(done, given, p1, ip, best, result)
    requires ip(l, given).Some? && Dist2(p1, ip(l, given).value) > 0.0
    requires best.None? || Dist2(p1, ip(l, given).value) < best.value
    ensures LinesSoFar(done + [l], given, p1, ip, Some(Dist2(p1, ip(l, given).value)), [l])
  {
    var d := Dist2(p1, ip(l, given).value);
    var next := done + [l];
    assert next[|done|] == l;
    assert next[..|next| - 1] == done;
    assert forall j :: 0 <= j < |done| ==> next[j] == done[j];
    HitsAtNone(done, given, p1, ip, d);
  }

  lemma LinesTie(done: seq<Segment>, l: Segment, given: Segment, p1: Point, ip: Intersector,
                 best: Option<real>, result: seq<Segment>)
    requires LinesSoFar(done, given, p1, ip, best, result)
    requires ip(l, given).Some? && best.Some? && Dist2(p1, ip(l, given).value) == best.value
    ensures LinesSoFar(done + [l], given, p1, ip, best, result + [l])
  {
    var next := done + [l];
    assert next[|done|] == l;
    assert next[..|next| - 1] == done;
    assert forall j :: 0 <= j < |done| ==> next[j] == done[j];
  }

  lemma LinesSame(done: seq<Segment>, l: Segment, given: Segment, p1: Point, ip: Intersector,
                  best: Option<real>, result: seq<Segment>)
    requires LinesSoFar(done, given, p1, ip, best, result)
    requires ip(l, given).Some? ==> Dist2(p1, ip(l, given).value) == 0.0
                                    || (best.Some? && Dist2(p1, ip(l, given).value) > best.value)
    ensures LinesSoFar(done + [l], given, p1, ip, best, result)
  {
    var next := done + [l];
    assert next[|done|] == l;
    assert next[..|next| - 1] == done;
    assert forall j :: 0 <= j < |done| ==> next[j] == done[j];
  }
}
