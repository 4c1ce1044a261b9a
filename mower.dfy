/**
 * AbstractAutoMowerModel: the mower itself. One tick of its run loop
 * (charging timer, battery drain, low-battery switch, depletion, segment
 * completion), calculateNextSegment for every state, the queries it makes
 * of the arena (nearest border vertex, touching segments) and the
 * dispatch of collisions and moves to the zone-balancing policy of the
 * concrete model.
 *
 * The thread, the wall clock and the UI are not modelled: a tick takes the
 * simulated seconds dtSim as a parameter. The random and trigonometric
 * heading choices of the MOWING state are the oracle functions of a
 * Navigator.
 */
module Mower {
  import opened Geometry
  import opened Polyline
  import opened Zones
  import opened Ground
  import opened Coverage
  import ZonesV2
  import ZonesV3
  import ZonesV4

  /** AbstractAutoMowerModel.State. */
  datatype State = Mowing | SeekingBorder | FollowingBorder | Charging | EdgeCutting | Stopped | TransitioningToZone

  /**
   * The concrete model and the statistics it keeps: AutoMowerModel
   * (version 1) keeps none, AutoMowerModelV2 counts collisions per zone,
   * V3 also remembers the total at its last transition, V4 sums driven
   * centimetres per zone and remembers the metres at its last transition.
   */
  datatype Policy =
    | Standard
    | ZoneStatistics(stats: map<int, int>)
    | SmartBalancing(stats: map<int, int>, lastTransitionCollisionCount: int)
    | DistanceBased(distances: map<int, real>, lastTransitionTotalDistanceM: real)

  /** getModelVersion of each concrete model: a different number for each. */
  function ModelVersion(p: Policy): (v: int)
    ensures 1 <= v <= 4
  {
    match p
    case Standard => 1
    case ZoneStatistics(_) => 2
    case SmartBalancing(_, _) => 3
    case DistanceBased(_, _) => 4
  }

  const CHARGING_TIME_S: real := 3.0
  /** chargeRateWhPerSec: stored and saved with the mower, but nothing writes it and charging takes CHARGING_TIME_S whatever it is. */
  const CHARGE_RATE_WH_PER_SEC: real := 0.5
  const LOW_BATTERY_SHARE: real := 0.10
  const DOCK_RADIUS: real := 12.0
  const TARGET_RADIUS: real := 5.0
  const BORDER_ARRIVAL: real := 1.0
  const SPAWN_DOCK_RADIUS: real := 2.0
  const MIN_SEGMENT_LENGTH2: real := 0.001
  const SEGMENT_END_EPS: real := 0.001
  const NAV_EPS: real := 0.05
  const TOUCH_EPS: real := 1.0
  const MAX_RAY_ATTEMPTS: nat := 200
  const RAY_LENGTH: real := 10000.0

  /**
   * The random and trigonometric choices of the MOWING state:
   * heading(p) is a random direction end one unit from p;
   * turn(hit, normal) is calculateBounceDirection's end point, the wall
   * normal rotated by a random angle of at most 90 degrees and scaled to 100;
   * sweep(p) is the result of the systematic search around a corner;
   * nudge(wall, p) is the emergency direction perpendicular to the wall;
   * jitter(p, dirEnd, i) is the direction of raycast attempt i + 1 after
   * attempt i aimed at dirEnd.
   */
  datatype Navigator = Navigator(
    heading: Point -> Point,
    turn: (Point, Point) -> Point,
    sweep: Point -> Option<Point>,
    nudge: (Segment, Point) -> Point,
    jitter: (Point, Point, nat) -> Point)

  // ---------------------------------------------------------------------
  // getNearestBorderIndex / findNearestBorderPoint

  /** The scan of getNearestBorderIndex from index i on, best index so far `best`. */
  function NearestFrom(pts: seq<Point>, p: Point, i: nat, best: nat): (k: nat)
    requires best < |pts| && i <= |pts|
    ensures k < |pts|
    decreases |pts| - i
  {
    if i == |pts| then best
    else NearestFrom(pts, p, i + 1, if Dist2(p, pts[i]) < Dist2(p, pts[best]) then i else best)
  }

  /** Index of the border vertex nearest to p; the first one on ties. */
  function NearestIndex(pts: seq<Point>, p: Point): (k: nat)
    requires |pts| > 0
    ensures k < |pts|
  {
    NearestFrom(pts, p, 1, 0)
  }

  lemma {:induction false} NearestFromIsFirstMinimum(pts: seq<Point>, p: Point, i: nat, best: nat)
    requires best < i <= |pts|
    requires forall j :: 0 <= j < i ==> Dist2(p, pts[best]) <= Dist2(p, pts[j])
    requires forall j :: 0 <= j < best ==> Dist2(p, pts[j]) > Dist2(p, pts[best])
    ensures forall j :: 0 <= j < |pts| ==> Dist2(p, pts[NearestFrom(pts, p, i, best)]) <= Dist2(p, pts[j])
    ensures forall j :: 0 <= j < NearestFrom(pts, p, i, best) ==>
              Dist2(p, pts[j]) > Dist2(p, pts[NearestFrom(pts, p, i, best)])
    decreases |pts| - i
  {
    if i < |pts| {
      NearestFromIsFirstMinimum(pts, p, i + 1, if Dist2(p, pts[i]) < Dist2(p, pts[best]) then i else best);
    }
  }

  /** No border vertex is nearer to p than the chosen one, and every earlier vertex is strictly farther. */
  lemma NearestIsFirstMinimum(pts: seq<Point>, p: Point)
    requires |pts| > 0
    ensures forall j :: 0 <= j < |pts| ==> Dist2(p, pts[NearestIndex(pts, p)]) <= Dist2(p, pts[j])
    ensures forall j :: 0 <= j < NearestIndex(pts, p) ==> Dist2(p, pts[j]) > Dist2(p, pts[NearestIndex(pts, p)])
  {
    NearestFromIsFirstMinimum(pts, p, 1, 0);
  }

  /**
   * getNearestBorderIndex: the first vertex at the smallest distance from p
   * (0 for an empty border). Distances are compared squared.
   */
  method GetNearestBorderIndex(pts: seq<Point>, p: Point) returns (best: nat)
    ensures |pts| == 0 ==> best == 0
    ensures |pts| > 0 ==> best == NearestIndex(pts, p)
    ensures |pts| > 0 ==> best < |pts| && forall j :: 0 <= j < |pts| ==> Dist2(p, pts[best]) <= Dist2(p, pts[j])
  {
    best := 0;
    var minD: Option<real> := None;
    var i := 0;
    while i < |pts|
      invariant 0 <= i <= |pts|
      invariant i == 0 ==> best == 0 && minD.None?
      invariant i > 0 ==> best < i && minD == Some(Dist2(p, pts[best]))
                          && NearestFrom(pts, p, i, best) == NearestIndex(pts, p)
    {
      var d := Dist2(p, pts[i]);
      if minD.None? || d < minD.value {
        minD := Some(d);
        best := i;
      }
      i := i + 1;
    }
    if |pts| > 0 {
      NearestIsFirstMinimum(pts, p);
    }
  }

  /**
   * findNearestBorderPoint: the vertex getNearestBorderIndex picks (the two
   * loops of the source make the same choice); None for an empty border.
   */
  method FindNearestBorderPoint(pts: seq<Point>, p: Point) returns (best: Option<Point>)
    ensures best.None? <==> |pts| == 0
    ensures best.Some? ==> best.value == pts[NearestIndex(pts, p)]
  {
    if |pts| == 0 {
      return None;
    }
    var i := GetNearestBorderIndex(pts, p);
    return Some(pts[i]);
  }

  // ---------------------------------------------------------------------
  // findTouchingLines

  /** The segments of segs, in order, that pass closer than TOUCH_EPS to p. */
  function Touching(segs: seq<Segment>, p: Point): (r: seq<Segment>)
    ensures |r| <= |segs|
  {
    if |segs| == 0 then []
    else
      var last := segs[|segs| - 1];
      var init := Touching(segs[..|segs| - 1], p);
      if SegDist2(last, p) < TOUCH_EPS * TOUCH_EPS then init + [last] else init
  }

  /** A segment is touching exactly when it is one of segs and passes closer than TOUCH_EPS to p. */
  lemma {:induction false} TouchingMembers(segs: seq<Segment>, p: Point)
    ensures forall s :: s in Touching(segs, p) <==> s in segs && SegDist2(s, p) < TOUCH_EPS * TOUCH_EPS
  {
    if |segs| > 0 {
      var last := segs[|segs| - 1];
      TouchingMembers(segs[..|segs| - 1], p);
      assert forall s :: s in segs <==> s in segs[..|segs| - 1] || s == last;
    }
  }

  lemma TouchingStep(done: seq<Segment>, l: Segment, p: Point)
    ensures Touching(done + [l], p) ==
              Touching(done, p) + (if SegDist2(l, p) < TOUCH_EPS * TOUCH_EPS then [l] else [])
  {
    assert (done + [l])[..|done|] == done;
  }

  /** One segment of findTouchingLines: kept when it passes closer than TOUCH_EPS to p. */
  method AddIfTouching(ghost done: seq<Segment>, l: Segment, p: Point, res: seq<Segment>) returns (res': seq<Segment>)
    requires res == Touching(done, p)
    ensures res' == Touching(done + [l], p)
  {
    TouchingStep(done, l, p);
    res' := res;
    if SegDist2(l, p) < TOUCH_EPS * TOUCH_EPS {
      res' := res + [l];
    }
  }

  /** checkMultiLine: the touching segments of one polyline, wrap-around included, appended in order. */
  method CheckMultiLine(ghost done: seq<Segment>, pts: seq<Point>, p: Point, res: seq<Segment>) returns (res': seq<Segment>)
    requires res == Touching(done, p)
    ensures res' == Touching(done + Ring(pts), p)
  {
    res' := res;
    ghost var cur := done;
    var i := 0;
    while i < |pts|
      invariant 0 <= i <= |pts|
      invariant cur == done + Ring(pts)[..i]
      invariant res' == Touching(cur, p)
    {
      var l := GetLine(pts, i).value;
      GetLineWraps(pts, i);
      res' := AddIfTouching(cur, l, p, res');
      cur := cur + [l];
      RingPrefixStep(pts, i);
      i := i + 1;
    }
    assert Ring(pts)[..|pts|] == Ring(pts);
  }

  /**
   * findTouchingLines: every segment of the border, then of each obstacle,
   * wrap-around segments included, that passes closer than 1 to p.
   */
  method FindTouchingLines(a: Arena, p: Point) returns (res: seq<Segment>)
    ensures res == Touching(Candidates([a.border] + a.obstacles), p)
  {
    var polys := [a.border] + a.obstacles;
    res := [];
    var k := 0;
    while k < |polys|
      invariant 0 <= k <= |polys|
      invariant res == Touching(Candidates(polys[..k]), p)
    {
      res := CheckMultiLine(Candidates(polys[..k]), polys[k], p, res);
      CandidatesStep(polys, k);
      assert Ring(polys[k])[..|polys[k]|] == Ring(polys[k]);
      k := k + 1;
    }
    assert polys[..|polys|] == polys;
  }

  // ---------------------------------------------------------------------
  // Stops on a border segment (FOLLOWING_BORDER and TRANSITIONING_TO_ZONE)

  /**
   * The foot of the perpendicular from q onto the segment from `from` to
   * `to`, when the segment is longer than the minimum and the foot lies
   * strictly between its ends.
   */
  function Foot(from: Point, to: Point, q: Point): (r: Option<Point>)
    ensures r.Some? ==> exists t :: 0.0 < t < 1.0 && r.value == Along(from, to, t)
  {
    if Len2(from, to) <= MIN_SEGMENT_LENGTH2 then None
    else
      var t := FootParam(from, to, q);
      if 0.0 < t < 1.0 then Some(Along(from, to, t)) else None
  }

  /** The squared length of the segment from `from` to `to`. */
  function Len2(from: Point, to: Point): real
  {
    (to.x - from.x) * (to.x - from.x) + (to.y - from.y) * (to.y - from.y)
  }

  /** The parameter of the foot of the perpendicular from q on the line through from and to. */
  function FootParam(from: Point, to: Point, q: Point): real
    requires Len2(from, to) > 0.0
  {
    ((q.x - from.x) * (to.x - from.x) + (q.y - from.y) * (to.y - from.y)) / Len2(from, to)
  }

  /** The point at parameter t on the line through from and to. */
  function Along(from: Point, to: Point, t: real): Point
  {
    Point(from.x + t * (to.x - from.x), from.y + t * (to.y - from.y))
  }

  /** Squared distance from q to the point at parameter s, expanded in s. */
  lemma DistAlong(from: Point, to: Point, q: Point, s: real, ax: real, ay: real, dx: real, dy: real)
    requires ax == q.x - from.x && ay == q.y - from.y && dx == to.x - from.x && dy == to.y - from.y
    ensures Dist2(q, Along(from, to, s)) == Parabola(ax * ax + ay * ay, ax * dx + ay * dy, dx * dx + dy * dy, s)
  {
    var ps := Along(from, to, s);
    var ex, ey := ax - s * dx, ay - s * dy;
    assert q.x - ps.x == ex && q.y - ps.y == ey;
    assert Dist2(q, ps) == ex * ex + ey * ey;
    PlaneExpand(ax, ay, dx, dy, s);
  }

  lemma PlaneExpand(ax: real, ay: real, dx: real, dy: real, s: real)
    ensures (ax - s * dx) * (ax - s * dx) + (ay - s * dy) * (ay - s * dy)
            == (ax * ax + ay * ay) - 2.0 * s * (ax * dx + ay * dy) + s * s * (dx * dx + dy * dy)
  {
    SquareExpand(ax, dx, s);
    SquareExpand(ay, dy, s);
  }

  lemma SquareExpand(a: real, d: real, s: real)
    ensures (a - s * d) * (a - s * d) == a * a - 2.0 * s * (a * d) + s * s * (d * d)
  {
  }

  /** The foot is the point of the line through from and to nearest to q. */
  lemma FootIsNearest(from: Point, to: Point, q: Point, s: real)
    requires Foot(from, to, q).Some?
    ensures Dist2(q, Foot(from, to, q).value) <= Dist2(q, Along(from, to, s))
  {
    var ax, ay, dx, dy := q.x - from.x, q.y - from.y, to.x - from.x, to.y - from.y;
    var c, pp, len2 := ax * ax + ay * ay, ax * dx + ay * dy, dx * dx + dy * dy;
    var t := FootParam(from, to, q);
    DivTimes(pp, len2);
    DistAlong(from, to, q, t, ax, ay, dx, dy);
    DistAlong(from, to, q, s, ax, ay, dx, dy);
    QuadraticMinimum(c, pp, len2, s, t);
  }

  lemma DivTimes(p: real, l: real)
    requires l > 0.0
    ensures (p / l) * l == p
  {
  }

  function Parabola(c: real, pp: real, len2: real, s: real): real
  {
    c - 2.0 * s * pp + s * s * len2
  }

  /** The parabola with len2 > 0 is smallest at t = pp/len2. */
  lemma QuadraticMinimum(c: real, pp: real, len2: real, s: real, t: real)
    requires len2 > 0.0 && t * len2 == pp
    ensures Parabola(c, pp, len2, t) <= Parabola(c, pp, len2, s)
  {
    var d := s - t;
    assert s * pp == s * t * len2;
    assert t * pp == t * t * len2;
    assert s * s * len2 == (t + d) * (t + d) * len2;
    assert (t + d) * (t + d) * len2 == t * t * len2 + 2.0 * t * d * len2 + d * d * len2;
    assert d * d * len2 >= 0.0;
  }

  /** Where the mower stops on the segment to `next` because it passes within radius of q. */
  function StopNear(from: Point, next: Point, q: Point, radius: real): (r: Option<Point>)
    ensures r.Some? ==> Dist2(r.value, q) < radius * radius
    ensures r.Some? ==> Foot(from, next, q) == r
  {
    var f := Foot(from, next, q);
    if f.Some? && Dist2(f.value, q) < radius * radius then f else None
  }

  /** One step forward along the border and one back give the index started from. */
  lemma StepBackCancels(i: int, n: int)
    requires 0 <= i < n
    ensures ((i + 1) % n - 1 + n) % n == i
  {
    if i + 1 == n {
      ModOfMultiple(n);
      ModOfSmall(n - 1, n);
    } else {
      ModOfSmall(i + 1, n);
      ModOfShifted(i, n);
    }
  }

  lemma ModOfSmall(a: int, n: int)
    requires 0 <= a < n
    ensures a % n == a
  {
  }

  lemma ModOfShifted(a: int, n: int)
    requires 0 <= a < n
    ensures (a + n) % n == a
  {
  }

  lemma ModOfMultiple(n: int)
    requires n > 0
    ensures n % n == 0
  {
  }

  // ---------------------------------------------------------------------
  // calculateBounceDirection

  /**
   * The wall normal (-wy, wx) of calculateBounceDirection, flipped so that
   * it points to the side of prevPoint. The source normalises the wall
   * vector first; a positive factor does not change the side, so the
   * normal is kept unnormalised here.
   */
  function BounceNormal(wall: Segment, hit: Point, prev: Point): (n: Point)
  {
    var nx := -(wall.p2.y - wall.p1.y);
    var ny := wall.p2.x - wall.p1.x;
    if nx * (prev.x - hit.x) + ny * (prev.y - hit.y) < 0.0 then Point(-nx, -ny) else Point(nx, ny)
  }

  /** The normal is perpendicular to the wall, as long as the wall, and faces prevPoint. */
  lemma BounceNormalFacesBack(wall: Segment, hit: Point, prev: Point)
    ensures var n := BounceNormal(wall, hit, prev);
            n.x * (wall.p2.x - wall.p1.x) + n.y * (wall.p2.y - wall.p1.y) == 0.0
            && n.x * n.x + n.y * n.y == Length2(wall)
            && n.x * (prev.x - hit.x) + n.y * (prev.y - hit.y) >= 0.0
  {
  }

  /**
   * calculateBounceDirection: the hit point itself for a wall shorter than
   * 0.0001, otherwise the oracle's rotation of the normal that faces prevPoint.
   */
  function BounceDirection(wall: Segment, hit: Point, prev: Point, turn: (Point, Point) -> Point): (p: Point)
    ensures Length2(wall) < 0.00000001 ==> p == hit
    ensures Length2(wall) >= 0.00000001 ==> p == turn(hit, BounceNormal(wall, hit, prev))
  {
    if Length2(wall) < 0.00000001 then hit else turn(hit, BounceNormal(wall, hit, prev))
  }

  // ---------------------------------------------------------------------
  // The raycast of the MOWING state

  function Midpoint(p: Point, q: Point): Point
  {
    Point((p.x + q.x) / 2.0, (p.y + q.y) / 2.0)
  }

  /** A hit the mower accepts as the end of its next segment: farther than NAV_EPS, with a clear midpoint. */
  predicate Accepted(a: Arena, pos: Point, hit: Point)
  {
    Dist2(pos, hit) > NAV_EPS * NAV_EPS && a.isInsideWithin(Midpoint(pos, hit), NAV_EPS)
  }

  /**
   * One raycast attempt towards dirEnd: the step of length 1 must be clear,
   * then a ray from 0.1 ahead over RAY_LENGTH must hit a wall at a point
   * the mower accepts.
   */
  function Probe(a: Arena, pos: Point, dirEnd: Point): (hit: Option<Point>)
    ensures hit.Some? ==> Accepted(a, pos, hit.value)
  {
    if !a.isInsideWithin(a.colinearPoint(pos, dirEnd, 1.0), NAV_EPS) then None
    else
      var startPoint := a.colinearPoint(pos, dirEnd, 0.1);
      var ray := Segment(startPoint, a.colinearPoint(startPoint, dirEnd, RAY_LENGTH));
      var wall := a.collidingLine(ray);
      if wall.None? then None
      else
        var hit := a.intersectPoint(wall.value, ray);
        if hit.Some? && Accepted(a, pos, hit.value) then hit else None
  }

  /** Attempts i, i+1, .. of the raycast: the accepted hit, if any, and the number of attempts made in all. */
  function Search(a: Arena, jitter: (Point, Point, nat) -> Point, pos: Point, dirEnd: Point, i: nat)
    : (r: (Option<Point>, nat))
    requires i <= MAX_RAY_ATTEMPTS
    decreases MAX_RAY_ATTEMPTS - i
  {
    if i == MAX_RAY_ATTEMPTS then (None, i)
    else
      var hit := Probe(a, pos, dirEnd);
      if hit.Some? then (hit, i + 1) else Search(a, jitter, pos, jitter(pos, dirEnd, i), i + 1)
  }

  /** The raycast makes at most MAX_RAY_ATTEMPTS attempts, all of them when it finds nothing. */
  lemma {:induction false} SearchBounded(a: Arena, jitter: (Point, Point, nat) -> Point, pos: Point, dirEnd: Point, i: nat)
    requires i <= MAX_RAY_ATTEMPTS
    ensures var r := Search(a, jitter, pos, dirEnd, i);
            i <= r.1 <= MAX_RAY_ATTEMPTS
            && (r.0.None? ==> r.1 == MAX_RAY_ATTEMPTS)
            && (r.0.Some? ==> i < r.1 && Accepted(a, pos, r.0.value))
    decreases MAX_RAY_ATTEMPTS - i
  {
    if i < MAX_RAY_ATTEMPTS && Probe(a, pos, dirEnd).None? {
      SearchBounded(a, jitter, pos, jitter(pos, dirEnd, i), i + 1);
    }
  }

  /**
   * The raycast loop of calculateNextSegment: up to MAX_RAY_ATTEMPTS
   * attempts, re-aimed by the jitter oracle after every attempt that
   * finds no acceptable hit.
   */
  method Raycast(a: Arena, jitter: (Point, Point, nat) -> Point, pos: Point, dirEnd0: Point)
    returns (hit: Option<Point>, attempts: nat)
    ensures (hit, attempts) == Search(a, jitter, pos, dirEnd0, 0)
    ensures attempts <= MAX_RAY_ATTEMPTS
    ensures hit.None? ==> attempts == MAX_RAY_ATTEMPTS
    ensures hit.Some? ==> attempts > 0 && Accepted(a, pos, hit.value)
  {
    SearchBounded(a, jitter, pos, dirEnd0, 0);
    var dirEnd := dirEnd0;
    var i := 0;
    while i < MAX_RAY_ATTEMPTS
      invariant 0 <= i <= MAX_RAY_ATTEMPTS
      invariant Search(a, jitter, pos, dirEnd0, 0) == Search(a, jitter, pos, dirEnd, i)
    {
      var h := ProbeOnce(a, pos, dirEnd);
      if h.Some? {
        return h, i + 1;
      }
      dirEnd := jitter(pos, dirEnd, i);
      i := i + 1;
    }
    return None, MAX_RAY_ATTEMPTS;
  }

  /** One attempt of the raycast loop: the probe point, the ray, the wall it meets and the hit's checks. */
  method ProbeOnce(a: Arena, pos: Point, dirEnd: Point) returns (hit: Option<Point>)
    ensures hit == Probe(a, pos, dirEnd)
  {
    hit := None;
    var testPoint := a.colinearPoint(pos, dirEnd, 1.0);
    if a.isInsideWithin(testPoint, NAV_EPS) {
      var startPoint := a.colinearPoint(pos, dirEnd, 0.1);
      var far := a.colinearPoint(startPoint, dirEnd, RAY_LENGTH);
      var ray := Segment(startPoint, far);
      var hitWall := a.collidingLine(ray);
      if hitWall.Some? {
        var h := a.intersectPoint(hitWall.value, ray);
        if h.Some? && Dist2(pos, h.value) > NAV_EPS * NAV_EPS {
          var mid := Point((pos.x + h.value.x) / 2.0, (pos.y + h.value.y) / 2.0);
          if a.isInsideWithin(mid, NAV_EPS) {
            hit := h;
          }
        }
      }
    }
  }

  // ---------------------------------------------------------------------
  // Edge cutting

  /**
   * The edge-cutting direction: -1 when the first border edge turns
   * counter-clockwise as seen from the dock (positive cross product of
   * dock-to-vertex and vertex-to-next), +1 otherwise and without a dock.
   */
  function EdgeDirection(dock: Option<Point>, v: Point, vNext: Point): (dir: int)
    ensures dir == -1 || dir == 1
    ensures dir == -1 <==> dock.Some? && Cross(dock.value, v, vNext) > 0.0
  {
    if dock.Some? && Cross(dock.value, v, vNext) > 0.0 then -1 else 1
  }

  function Cross(o: Point, v: Point, w: Point): real
  {
    (v.x - o.x) * (w.y - v.y) - (v.y - o.y) * (w.x - v.x)
  }

  /** The next vertex index in direction dir stays on the border. */
  lemma EdgeStepInRange(i: int, dir: int, n: int)
    requires 0 <= i && n > 0 && (dir == -1 || dir == 1)
    ensures 0 <= (i + dir + n) % n < n
  {
  }

  // ---------------------------------------------------------------------
  // The mower's state

  /** Every field of the mower as one value. */
  datatype MowerView = MowerView(
    state: State,
    position: Option<Point>,
    segmentStart: Option<Point>,
    transitionTarget: Option<Point>,
    line: Option<Segment>,
    trace: seq<Point>,
    ground: Option<Arena>,
    borderIndex: int,
    edgePointsLeft: int,
    edgeDirection: int,
    battery: real,
    capacity: real,
    consumption: real,
    speed: real,
    mowingWidth: real,
    runtime: real,
    chargingTime: real,
    transitionDistance: real,
    navigationErrors: int,
    collisions: int,
    policy: Policy,
    coverage: CoverageGrid)

  /**
   * What every state of the mower satisfies. The battery may dip below
   * zero inside a tick, before the tick clamps it; between ticks it is
   * also non-negative (AutoMower.Powered).
   */
  ghost predicate Consistent(v: MowerView)
  {
    (v.ground.Some? ==> ValidArena(v.ground.value))
    && v.borderIndex >= 0
    && (v.edgeDirection == -1 || v.edgeDirection == 1)
    && (v.policy.ZoneStatistics? ==> AllNonNegative(v.policy.stats))
    && (v.policy.SmartBalancing? ==> AllPositive(v.policy.stats))
    && v.capacity > 0.0 && v.battery <= v.capacity
    && v.speed >= 0.0 && v.consumption >= 0.0 && v.mowingWidth >= 0.0
  }

  /**
   * The onCollision hook of the concrete model: its new statistics and
   * what the mower has to do. Without a ground model nothing happens.
   */
  ghost function PolicyStep(p: Policy, pos: Point, ground: Option<Arena>): (r: (Policy, Outcome))
    requires ground.Some? ==> ValidArena(ground.value)
    requires p.SmartBalancing? ==> AllPositive(p.stats)
    ensures ground.None? ==> r.1 == Keep
  {
    match p
    case Standard => (p, Keep)
    case ZoneStatistics(s) =>
      var d := ZonesV2.Decide(s, pos, ground);
      (ZoneStatistics(d.0), d.1)
    case SmartBalancing(s, last) =>
      var d := ZonesV3.Decide(s, last, pos, ground);
      (SmartBalancing(d.0, d.1), d.2)
    case DistanceBased(dist, lastM) =>
      var d := ZonesV4.Decide(dist, lastM, pos, ground);
      (DistanceBased(dist, d.0), d.1)
  }

  /**
   * The mower after a collision at pos has been reported to its model: the
   * statistics are updated, and a move to another zone sets the transition
   * target; when that target is a point the mower starts
   * TRANSITIONING_TO_ZONE from its collision point snapped onto the border,
   * at the border vertex nearest to it, and an artificial collision is
   * counted when the model asks for one.
   */
  ghost function Reacted(v: MowerView, pos: Point): (w: MowerView)
    requires Consistent(v)
    ensures w == v.(policy := w.policy, transitionTarget := w.transitionTarget, state := w.state,
                    position := w.position, borderIndex := w.borderIndex, collisions := w.collisions)
    ensures v.position.Some? ==> w.position.Some?
    ensures w.collisions == v.collisions || w.collisions == v.collisions + 1
    ensures w.state == v.state || w.state == TransitioningToZone
    ensures w.policy.ZoneStatistics? ==> AllNonNegative(w.policy.stats)
    ensures w.policy.SmartBalancing? ==> AllPositive(w.policy.stats)
  {
    var r := PolicyStep(v.policy, pos, v.ground);
    assert r.0.ZoneStatistics? ==> AllNonNegative(r.0.stats) by {
      if v.policy.ZoneStatistics? {
        ZonesV2.CountsStayNonNegative(v.policy.stats, pos, v.ground);
      }
    }
    Applied(v.(policy := r.0), r.1)
  }

  /** The mower after it has carried out the outcome of a collision. */
  ghost function Applied(v: MowerView, o: Outcome): (w: MowerView)
    requires v.ground.Some? || o.Keep?
    requires v.ground.Some? ==> |v.ground.value.border| > 0
    ensures w == v.(transitionTarget := w.transitionTarget, state := w.state, position := w.position,
                    borderIndex := w.borderIndex, collisions := w.collisions)
    ensures v.position.Some? ==> w.position.Some?
    ensures w.collisions == v.collisions || w.collisions == v.collisions + 1
    ensures w.state == v.state || w.state == TransitioningToZone
  {
    match o
    case Keep => v
    case Aim(_, target, snap, artificial) =>
      if target.None? then v.(transitionTarget := None)
      else v.(transitionTarget := target, state := TransitioningToZone, position := Some(snap),
              borderIndex := NearestIndex(v.ground.value.border, snap),
              collisions := if artificial then v.collisions + 1 else v.collisions)
  }

  /** handleCollision's hit point: where the wall meets the current segment, or the wall's start. */
  function CollisionPoint(a: Arena, line: Option<Segment>, wall: Segment): Point
  {
    if line.Some? && a.intersectPoint(wall, line.value).Some? then a.intersectPoint(wall, line.value).value
    else wall.p1
  }

  /**
   * handleCollision: one more collision at the hit point, reported to the
   * model; the new segment runs from where the mower then stands to the
   * hit point, and the mower goes MOWING unless the model changed its state.
   */
  ghost function Collided(v: MowerView, wall: Segment): (w: MowerView)
    requires Consistent(v) && v.ground.Some? && v.position.Some?
    ensures w.state == TransitioningToZone || w.state == Mowing
    ensures w.collisions >= v.collisions + 1
  {
    var hit := CollisionPoint(v.ground.value, v.line, wall);
    var r := Reacted(v.(collisions := v.collisions + 1), hit);
    r.(line := Some(Segment(r.position.value, hit)), state := if r.state == v.state then Mowing else r.state)
  }

  /** The fields calculateNextSegment never writes. */
  ghost predicate PlanningFrame(v: MowerView, w: MowerView)
  {
    w.trace == v.trace && w.ground == v.ground && w.battery == v.battery && w.capacity == v.capacity
    && w.consumption == v.consumption && w.speed == v.speed && w.mowingWidth == v.mowingWidth
    && w.runtime == v.runtime && w.transitionDistance == v.transitionDistance
    && w.edgePointsLeft == v.edgePointsLeft && w.edgeDirection == v.edgeDirection && w.coverage == v.coverage
  }

  /** The MOWING mower is still short of its segment's end (by more than 0.001). */
  ghost predicate MidSegment(v: MowerView)
  {
    v.line.Some? && v.position.Some? && v.position.value != v.line.value.p2
    && Dist2(v.position.value, v.line.value.p2) > SEGMENT_END_EPS * SEGMENT_END_EPS
  }

  /**
   * After a navigation error: at the dock and CHARGING with a fresh timer
   * and an empty segment there, or STOPPED on an empty segment where it
   * stands when there is no dock.
   */
  ghost predicate Recovered(w: MowerView)
  {
    w.ground.Some? && w.position.Some?
    && var dock := w.ground.value.chargingStation;
    (dock.Some? ==> w.position == dock && w.state == Charging && w.chargingTime == 0.0
                    && w.line == Some(Segment(dock.value, dock.value)))
    && (dock.None? ==> w.state == Stopped && w.line == Some(Segment(w.position.value, w.position.value)))
  }

  /**
   * The accepted raycast hit h: one more collision at h, reported to the
   * model, and the new segment from where the mower then stands to h.
   */
  ghost function Hit(v: MowerView, h: Point): (w: MowerView)
    requires Consistent(v) && v.position.Some?
    ensures w.collisions == v.collisions + 1 || w.collisions == v.collisions + 2
    ensures w.position.Some? && w.line == Some(Segment(w.position.value, h)) && w.segmentStart == w.position
  {
    var r := Reacted(v.(collisions := v.collisions + 1), h);
    r.(line := Some(Segment(r.position.value, h)), segmentStart := r.position)
  }

  /**
   * A navigation error: one more counted; the mower goes CHARGING at the
   * dock with a fresh timer, or STOPPED where it stands without one, on an
   * empty segment either way.
   */
  ghost function Lost(v: MowerView): (w: MowerView)
    requires v.ground.Some? && v.position.Some?
    ensures Recovered(w) && w.navigationErrors == v.navigationErrors + 1
  {
    var dock := v.ground.value.chargingStation;
    var p := v.position.value;
    if dock.Some? then
      v.(navigationErrors := v.navigationErrors + 1, position := dock, state := Charging, chargingTime := 0.0,
         line := Some(Segment(dock.value, dock.value)))
    else v.(navigationErrors := v.navigationErrors + 1, state := Stopped, line := Some(Segment(p, p)))
  }

  /**
   * The MOWING planner, from v to w: nothing while mid-segment; otherwise
   * either a new segment from where the mower stands, or one more
   * navigation error and the recovery.
   */
  ghost predicate Replanned(v: MowerView, w: MowerView)
  {
    PlanningFrame(v, w)
    && (MidSegment(v) ==> w == v)
    && (!MidSegment(v) ==>
          w.position.Some? && w.line.Some? && w.collisions >= v.collisions
          && (w.navigationErrors == v.navigationErrors || w.navigationErrors == v.navigationErrors + 1)
          && (w.navigationErrors == v.navigationErrors ==>
                w.line.value.p1 == w.position.value && w.segmentStart == w.position
                && w.chargingTime == v.chargingTime)
          && (w.navigationErrors == v.navigationErrors + 1 ==> Recovered(w)))
  }

  /**
   * EDGE_CUTTING: with no vertex left the mower stops on an empty segment;
   * otherwise it heads for the next vertex in its direction.
   */
  ghost predicate EdgeStepped(v: MowerView, w: MowerView)
    requires v.ground.Some? && v.position.Some? && |v.ground.value.border| > 0
    requires v.borderIndex >= 0 && (v.edgeDirection == -1 || v.edgeDirection == 1)
  {
    var p := v.position.value;
    var pts := v.ground.value.border;
    var n := |pts|;
    var i := (v.borderIndex + v.edgeDirection + n) % n;
    if v.edgePointsLeft <= 0 then w == v.(state := Stopped, line := Some(Segment(p, p)))
    else w == v.(borderIndex := i, line := Some(Segment(p, pts[i])), segmentStart := Some(p))
  }

  /**
   * FOLLOWING_BORDER: within DOCK_RADIUS of the dock the mower starts
   * CHARGING on an empty segment; otherwise it heads for the next vertex,
   * or for the foot of the dock on the way there when that comes within
   * DOCK_RADIUS of the dock, in which case the index steps back again.
   */
  ghost predicate Followed(v: MowerView, w: MowerView)
    requires v.ground.Some? && v.position.Some? && |v.ground.value.border| > 0 && v.borderIndex >= 0
  {
    var p := v.position.value;
    var pts := v.ground.value.border;
    var dock := v.ground.value.chargingStation;
    var n := |pts|;
    var i := (v.borderIndex + 1) % n;
    var stop := if dock.Some? then StopNear(p, pts[i], dock.value, DOCK_RADIUS) else None;
    if dock.Some? && Dist2(p, dock.value) < DOCK_RADIUS * DOCK_RADIUS then
      w == v.(state := Charging, line := Some(Segment(p, p)))
    else if stop.Some? then
      w == v.(borderIndex := (i - 1 + n) % n, line := Some(Segment(p, stop.value)), segmentStart := Some(p))
    else
      w == v.(borderIndex := i, line := Some(Segment(p, pts[i])), segmentStart := Some(p))
  }

  /** TRANSITIONING_TO_ZONE, before arrival: the next vertex, or the foot of the target on the way there. */
  ghost predicate Transited(v: MowerView, w: MowerView)
    requires v.ground.Some? && v.position.Some? && |v.ground.value.border| > 0 && v.borderIndex >= 0
    requires v.transitionTarget.Some?
  {
    var p := v.position.value;
    var pts := v.ground.value.border;
    var i := (v.borderIndex + 1) % |pts|;
    var stop := StopNear(p, pts[i], v.transitionTarget.value, TARGET_RADIUS);
    w == v.(borderIndex := i, line := Some(Segment(p, if stop.Some? then stop.value else pts[i])),
            segmentStart := Some(p))
  }

  /** The transition target is reached: none is set, or the mower is within TARGET_RADIUS of it. */
  ghost predicate Arrived(v: MowerView)
    requires v.position.Some?
  {
    v.transitionTarget.None? || Dist2(v.position.value, v.transitionTarget.value) < TARGET_RADIUS * TARGET_RADIUS
  }

  /** The segments the mower touches where it stands: those of the border and the obstacles within TOUCH_EPS. */
  function TouchingAt(a: Arena, p: Point): (r: seq<Segment>)
    ensures forall s :: s in r <==> s in Candidates([a.border] + a.obstacles) && SegDist2(s, p) < TOUCH_EPS * TOUCH_EPS
  {
    TouchingMembers(Candidates([a.border] + a.obstacles), p);
    Touching(Candidates([a.border] + a.obstacles), p)
  }

  /**
   * The heading of the MOWING planner once a segment is done: a free
   * heading at the start, right after a bounce or away from any wall; a
   * bounce off a single touched wall, reported as a collision; at a corner
   * the sweep's first clear direction, else a nudge off the first touched
   * wall, reported to the model without counting a collision.
   */
  ghost predicate Headed(v: MowerView, w: MowerView, nav: Navigator, dirEnd: Point)
    requires Consistent(v) && v.ground.Some? && v.position.Some?
  {
    var p := v.position.value;
    var touching := TouchingAt(v.ground.value, p);
    if v.line.None? || Dist2(p, v.line.value.p1) < NAV_EPS * NAV_EPS || |touching| == 0 then
      w == v && dirEnd == nav.heading(p)
    else if |touching| == 1 then
      w == Reacted(v.(collisions := v.collisions + 1), p)
      && dirEnd == BounceDirection(touching[0], w.position.value, v.line.value.p1, nav.turn)
    else if nav.sweep(p).Some? then
      w == v && dirEnd == nav.sweep(p).value
    else
      w == Reacted(v, p) && dirEnd == nav.nudge(touching[0], p)
  }

  /**
   * SEEKING_BORDER: the path to the nearest border vertex; a wall on it is
   * handled as a collision; within BORDER_ARRIVAL of the vertex the mower
   * starts FOLLOWING_BORDER from it at once.
   */
  ghost predicate Sought(v: MowerView, w: MowerView)
    requires Consistent(v) && v.ground.Some? && v.position.Some?
  {
    var a := v.ground.value;
    var p := v.position.value;
    var k := NearestIndex(a.border, p);
    var path := Segment(p, a.border[k]);
    var u := v.(line := Some(path), segmentStart := Some(p));
    match a.collidingLine(path)
    case Some(wall) => w == Collided(v, wall)
    case None =>
      if Dist2(p, a.border[k]) < BORDER_ARRIVAL * BORDER_ARRIVAL then
        Followed(u.(state := FollowingBorder, borderIndex := k), w)
      else w == u
  }

  /** calculateNextSegment as a whole, from v to w. */
  ghost predicate Planned(v: MowerView, w: MowerView)
    requires Consistent(v) && v.position.Some?
  {
    if v.state == Stopped || v.ground.None? then w == v
    else
      var p := v.position.value;
      match v.state
      case Charging => w == v.(line := Some(Segment(p, p)))
      case SeekingBorder => Sought(v, w)
      case EdgeCutting => EdgeStepped(v, w)
      case FollowingBorder => Followed(v, w)
      case TransitioningToZone =>
        if Arrived(v) then Replanned(v.(state := Mowing, transitionTarget := None), w) else Transited(v, w)
      case Mowing => Replanned(v, w)
  }

  /** calculateNextSegment never writes the trace, the battery, the configuration or the coverage. */
  lemma PlannedFrame(v: MowerView, w: MowerView)
    requires Consistent(v) && v.position.Some? && Planned(v, w)
    ensures PlanningFrame(v, w)
  {
  }

  /** Choosing a heading only reports collisions: no field the planner keeps is written, and no navigation error is counted. */
  lemma HeadedFrame(v: MowerView, w: MowerView, nav: Navigator, dirEnd: Point)
    requires Consistent(v) && v.ground.Some? && v.position.Some? && Headed(v, w, nav, dirEnd)
    ensures PlanningFrame(v, w) && w.position.Some? && w.collisions >= v.collisions
    ensures w.navigationErrors == v.navigationErrors && w.chargingTime == v.chargingTime
  {
  }

  /** A heading followed by an accepted hit is a MOWING plan with one more collision at least. */
  lemma HitReplanned(v: MowerView, u: MowerView, h: Point, w: MowerView)
    requires Consistent(u) && u.position.Some? && !MidSegment(v) && w == Hit(u, h)
    requires PlanningFrame(v, u) && u.collisions >= v.collisions
    requires u.navigationErrors == v.navigationErrors && u.chargingTime == v.chargingTime
    ensures Replanned(v, w) && w.collisions > v.collisions && w.navigationErrors == v.navigationErrors
  {
    assert PlanningFrame(u, w);
  }

  /** A heading after which every raycast fails is a MOWING plan with one more navigation error. */
  lemma LostReplanned(v: MowerView, u: MowerView, w: MowerView)
    requires u.ground.Some? && u.position.Some? && !MidSegment(v) && w == Lost(u)
    requires PlanningFrame(v, u) && u.collisions >= v.collisions && u.navigationErrors == v.navigationErrors
    ensures Replanned(v, w) && w.navigationErrors == v.navigationErrors + 1
  {
    assert PlanningFrame(u, w);
  }

  /** Seeking the border never stops the mower and always leaves it a segment. */
  lemma SoughtKeepsGoing(v: MowerView, w: MowerView)
    requires Consistent(v) && v.ground.Some? && v.position.Some? && v.state != Stopped && Sought(v, w)
    ensures w.state != Stopped && w.line.Some?
  {
  }

  /** A mower that is not stopped has a segment after calculateNextSegment. */
  lemma PlannedHasSegment(v: MowerView, w: MowerView)
    requires Consistent(v) && v.position.Some? && Planned(v, w)
    requires v.state != Stopped && v.ground.Some?
    ensures w.line.Some?
  {
  }

  lemma DrainNonNegative(moveDist: real, consumption: real)
    requires moveDist >= 0.0 && consumption >= 0.0
    ensures moveDist * consumption >= 0.0
  {
  }

  /** Moving the mower along its segment keeps the invariant. */
  lemma MovedConsistent(v: MowerView, w: MowerView)
    requires Consistent(v) && w == v.(position := w.position, line := w.line)
    ensures Consistent(w)
  {
  }

  /** The distance driven in dt seconds at the given speed, in cm. */
  function Travel(speed: real, dt: real): (d: real)
    ensures speed >= 0.0 && dt >= 0.0 ==> d >= 0.0
  {
    speed * dt
  }

  /** The charge left after driving moveDist cm at the given consumption per cm. */
  function Drained(battery: real, moveDist: real, consumption: real): (b: real)
    ensures moveDist >= 0.0 && consumption >= 0.0 ==> b <= battery
  {
    assert moveDist >= 0.0 && consumption >= 0.0 ==> moveDist * consumption >= 0.0 by {
      if moveDist >= 0.0 && consumption >= 0.0 {
        DrainNonNegative(moveDist, consumption);
      }
    }
    battery - moveDist * consumption
  }

  // ---------------------------------------------------------------------
  // The stages of one pass of runMower outside CHARGING

  /** The drain: the battery loses moveDist times the consumption, and a transit adds moveDist to its distance. */
  ghost function AfterDrain(v: MowerView, moveDist: real): (w: MowerView)
    ensures Consistent(v) && moveDist >= 0.0 ==> Consistent(w)
    ensures w.battery == Drained(v.battery, moveDist, v.consumption)
    ensures w == v.(battery := w.battery, transitionDistance := w.transitionDistance)
  {
    v.(battery := Drained(v.battery, moveDist, v.consumption),
       transitionDistance := v.transitionDistance + (if v.state == TransitioningToZone then moveDist else 0.0))
  }

  /** The low-battery switch: a MOWING mower below LOW_BATTERY_SHARE of its capacity plans as SEEKING_BORDER. */
  ghost predicate LowSwitched(v: MowerView, w: MowerView)
    requires Consistent(v) && v.position.Some?
  {
    if v.state == Mowing && v.battery < v.capacity * LOW_BATTERY_SHARE then Planned(v.(state := SeekingBorder), w)
    else w == v
  }

  /** The empty battery: none left, and the mower teleported to the dock and CHARGING, or STOPPED without one. */
  ghost function Depleted(v: MowerView): (w: MowerView)
    requires v.ground.Some?
    ensures w.battery == 0.0
    ensures var dock := v.ground.value.chargingStation;
            (dock.Some? ==> w.position == dock && w.state == Charging && w.chargingTime == 0.0)
            && (dock.None? ==> w.state == Stopped && w.position == v.position)
  {
    var dock := v.ground.value.chargingStation;
    if dock.Some? then v.(battery := 0.0, position := dock, state := Charging, chargingTime := 0.0)
    else v.(battery := 0.0, state := Stopped)
  }

  /** A mower without a segment plans one; one with a segment keeps it. */
  ghost predicate Segmented(v: MowerView, w: MowerView)
    requires Consistent(v) && v.position.Some?
  {
    if v.line.Some? then w == v else Planned(v, w)
  }

  /** A step of pixelDist reaches the end of the segment. */
  ghost predicate Reaches(v: MowerView, pixelDist: real)
    requires v.position.Some? && v.line.Some?
  {
    pixelDist >= 0.0 && pixelDist * pixelDist >= Dist2(v.position.value, v.line.value.p2)
  }

  /** A step that stops short of the segment's end and moves the mower (and so mows). */
  ghost predicate StepsAlong(v: MowerView, pixelDist: real)
    requires v.position.Some? && v.line.Some?
  {
    !Reaches(v, pixelDist) && pixelDist > 0.0
  }

  /** Where a step of pixelDist towards the segment's end takes the mower. */
  ghost function StepPoint(v: MowerView, pixelDist: real): Point
    requires v.position.Some? && v.line.Some? && v.ground.Some?
  {
    v.ground.value.colinearPoint(v.position.value, v.line.value.p2, pixelDist)
  }

  /**
   * The move along the segment: a step that reaches the end puts the mower
   * there, appends the end to the trace, counts an edge-cutting vertex and
   * plans the next segment; a shorter positive step moves the mower along
   * its segment, which now starts there; otherwise nothing happens.
   */
  ghost predicate Advanced(v: MowerView, w: MowerView, pixelDist: real)
    requires Consistent(v) && v.position.Some? && v.line.Some? && v.ground.Some?
  {
    var end := v.line.value.p2;
    if Reaches(v, pixelDist) then
      Planned(v.(position := Some(end), trace := v.trace + [end],
                 edgePointsLeft := if v.state == EdgeCutting then v.edgePointsLeft - 1 else v.edgePointsLeft), w)
    else if pixelDist > 0.0 then
      var np := StepPoint(v, pixelDist);
      w == v.(position := Some(np), line := Some(Segment(np, end)))
    else w == v
  }

  /** The move reported to the model: the distance-based model books it on its zones; the others ignore it. */
  ghost function AfterMove(v: MowerView, moveDist: real, prev: Point): (w: MowerView)
    requires v.position.Some?
    ensures w == v.(policy := w.policy)
    ensures !v.policy.DistanceBased? ==> w == v
    ensures v.policy.DistanceBased? ==>
              w.policy == DistanceBased(ZonesV4.OnMove(v.policy.distances, moveDist, prev, v.position.value, v.ground),
                                        v.policy.lastTransitionTotalDistanceM)
  {
    if v.policy.DistanceBased? then
      v.(policy := DistanceBased(ZonesV4.OnMove(v.policy.distances, moveDist, prev, v.position.value, v.ground),
                                 v.policy.lastTransitionTotalDistanceM))
    else v
  }

  /** The coverage grid after a mowing pass at p, which an uninitialised grid ignores. */
  ghost function Swath(cells: seq<seq<int>>, initialized: bool, minX: int, minY: int, p: Point, radius: real)
    : seq<seq<int>>
  {
    if initialized then Mow(cells, Trunc(p.x) - minX, Trunc(p.y) - minY, Ceil(radius), radius * radius) else cells
  }

  /**
   * The coverage grid after a driving pass of moveDist from v through mid
   * and ready: mowed around the new point, with half the mowing width as
   * radius, exactly when the mower, still charged, stops short of its
   * segment's end.
   */
  ghost function DriveSwath(cells: seq<seq<int>>, initialized: bool, minX: int, minY: int,
                            v: MowerView, moveDist: real, mid: MowerView, ready: MowerView): seq<seq<int>>
  {
    if v.ground.Some? && v.ground.value.calibration != 0.0 then
      var pixelDist := moveDist / v.ground.value.calibration;
      if mid.battery > 0.0 && ready.position.Some? && ready.line.Some? && ready.ground.Some? && StepsAlong(ready, pixelDist)
      then Swath(cells, initialized, minX, minY, StepPoint(ready, pixelDist), (v.mowingWidth / 2.0) / v.ground.value.calibration)
      else cells
    else cells
  }

  /**
   * A MOWING mower whose drive leaves a charge below the low-battery share
   * heads for the border: the pass plans a SEEKING_BORDER step, which keeps
   * the mower going with a segment, so no further segment is planned
   * before the step is driven.
   */
  lemma LowBatterySeeks(v: MowerView, moveDist: real, mid: MowerView, ready: MowerView, moved: MowerView, w: MowerView)
    requires Consistent(v) && v.position.Some? && v.ground.Some? && moveDist >= 0.0
    requires Drove(v, moveDist, mid, ready, moved, w)
    requires v.state == Mowing
    requires 0.0 < Drained(v.battery, moveDist, v.consumption) < v.capacity * LOW_BATTERY_SHARE
    ensures Sought(AfterDrain(v, moveDist).(state := SeekingBorder), mid)
    ensures mid.state != Stopped && mid.battery > 0.0 && ready == mid
  {
    var d := AfterDrain(v, moveDist).(state := SeekingBorder);
    assert Planned(d, mid);
    PlannedFrame(d, mid);
    SoughtKeepsGoing(d, mid);
  }

  /** DriveSwath spelled out for a drive whose distance in pixels and mowing radius are known. */
  lemma DriveSwathAt(cells: seq<seq<int>>, initialized: bool, minX: int, minY: int,
                     v: MowerView, moveDist: real, mid: MowerView, ready: MowerView, pixelDist: real, radius: real)
    requires v.ground.Some? && v.ground.value.calibration != 0.0
    requires pixelDist == moveDist / v.ground.value.calibration
    requires radius == (v.mowingWidth / 2.0) / v.ground.value.calibration
    requires mid.battery > 0.0 ==> ready.position.Some? && ready.line.Some? && ready.ground.Some?
    ensures DriveSwath(cells, initialized, minX, minY, v, moveDist, mid, ready)
            == if mid.battery > 0.0 && StepsAlong(ready, pixelDist)
               then Swath(cells, initialized, minX, minY, StepPoint(ready, pixelDist), radius)
               else cells
  {
  }

  /**
   * One pass of runMower outside CHARGING, from v to w, through the
   * intermediate views mid (after the drain and the low-battery switch),
   * ready (once a segment is planned) and moved (after the move along it).
   * An empty battery ends the pass at mid; otherwise the mower moves along
   * its segment and the model hears of the move from the position at the
   * start of the pass.
   */
  ghost predicate Drove(v: MowerView, moveDist: real, mid: MowerView, ready: MowerView, moved: MowerView, w: MowerView)
    requires Consistent(v) && v.position.Some? && v.ground.Some? && moveDist >= 0.0
  {
    LowSwitched(AfterDrain(v, moveDist), mid)
    && Consistent(mid) && mid.position.Some? && mid.ground == v.ground
    && (mid.battery <= 0.0 ==> w == Depleted(mid))
    && (mid.battery > 0.0 ==>
          Segmented(mid, ready)
          && Consistent(ready) && ready.position.Some? && ready.line.Some? && ready.ground == v.ground
          && Advanced(ready, moved, moveDist / v.ground.value.calibration)
          && moved.position.Some?
          && w == AfterMove(moved, moveDist, v.position.value))
  }

  /** The stages of a pass, each as its method leaves it, make up Drove. */
  lemma DroveIntro(v: MowerView, moveDist: real, mid: MowerView, ready: MowerView, moved: MowerView, w: MowerView)
    requires Consistent(v) && v.position.Some? && v.ground.Some? && moveDist >= 0.0
    requires LowSwitched(AfterDrain(v, moveDist), mid) && Consistent(mid) && mid.position.Some? && mid.ground == v.ground
    requires mid.battery <= 0.0 ==> w == Depleted(mid)
    requires mid.battery > 0.0 ==>
               Segmented(mid, ready)
               && Consistent(ready) && ready.position.Some? && ready.line.Some? && ready.ground == v.ground
               && Advanced(ready, moved, moveDist / v.ground.value.calibration)
               && moved.position.Some?
               && w == AfterMove(moved, moveDist, v.position.value)
    ensures Drove(v, moveDist, mid, ready, moved, w)
  {
  }

  /**
   * What a pass does to the battery, the trace and the counters: an empty
   * battery is clamped to zero and the mower is at the dock and CHARGING,
   * or STOPPED without one; otherwise the battery holds what the drive
   * left; a transit adds the distance driven; the trace gains at most the
   * one point of a completed segment.
   */
  lemma DroveBattery(v: MowerView, moveDist: real, mid: MowerView, ready: MowerView, moved: MowerView, w: MowerView)
    requires Consistent(v) && v.position.Some? && v.ground.Some? && moveDist >= 0.0
    requires Drove(v, moveDist, mid, ready, moved, w)
    ensures var drained := Drained(v.battery, moveDist, v.consumption);
            var dock := v.ground.value.chargingStation;
            (drained <= 0.0 ==> w.battery == 0.0 && (dock.Some? ==> w.position == dock && w.state == Charging)
                                && (dock.None? ==> w.state == Stopped))
            && (drained > 0.0 ==> w.battery == drained)
            && w.transitionDistance == v.transitionDistance + (if v.state == TransitioningToZone then moveDist else 0.0)
    ensures v.trace <= w.trace && |w.trace| <= |v.trace| + 1
    ensures w.capacity == v.capacity && w.runtime == v.runtime
  {
    var d := AfterDrain(v, moveDist);
    if d.state == Mowing && d.battery < d.capacity * LOW_BATTERY_SHARE {
      PlannedFrame(d.(state := SeekingBorder), mid);
    }
    assert PlanningFrame(d, mid);
    if mid.battery > 0.0 {
      if mid.line.None? {
        PlannedFrame(mid, ready);
      }
      assert PlanningFrame(mid, ready);
      var pixelDist := moveDist / v.ground.value.calibration;
      AdvancedTrace(ready, moved, pixelDist);
      if Reaches(ready, pixelDist) {
        var end := ready.line.value.p2;
        PlannedFrame(ready.(position := Some(end), trace := ready.trace + [end],
                            edgePointsLeft := if ready.state == EdgeCutting then ready.edgePointsLeft - 1
                                              else ready.edgePointsLeft), moved);
      }
    }
  }

  /**
   * The trace grows by exactly the segment's end when the step reaches it,
   * and an edge-cutting mower then has one vertex less to go; otherwise
   * neither changes.
   */
  lemma AdvancedTrace(v: MowerView, w: MowerView, pixelDist: real)
    requires Consistent(v) && v.position.Some? && v.line.Some? && v.ground.Some? && Advanced(v, w, pixelDist)
    ensures var end := v.line.value.p2;
            if Reaches(v, pixelDist) then
              w.trace == v.trace + [end]
              && w.edgePointsLeft == if v.state == EdgeCutting then v.edgePointsLeft - 1 else v.edgePointsLeft
            else w.trace == v.trace && w.edgePointsLeft == v.edgePointsLeft
  {
    if Reaches(v, pixelDist) {
      var end := v.line.value.p2;
      PlannedFrame(v.(position := Some(end), trace := v.trace + [end],
                      edgePointsLeft := if v.state == EdgeCutting then v.edgePointsLeft - 1 else v.edgePointsLeft), w);
    }
  }

  /**
   * Where startInternal puts the mower: on the charging station when there
   * is one; otherwise where it stands, unless it stands nowhere or outside
   * the lawn, in which case on the first border vertex.
   */
  function SpawnPoint(a: Arena, pos: Option<Point>): (p: Point)
    requires |a.border| > 0
    ensures a.chargingStation.Some? ==> p == a.chargingStation.value
    ensures a.chargingStation.None? && pos.Some? && a.isInside(pos.value) ==> p == pos.value
    ensures a.chargingStation.None? && (pos.None? || !a.isInside(pos.value)) ==> p == a.border[0]
  {
    if a.chargingStation.Some? then a.chargingStation.value
    else if pos.None? || !a.isInside(pos.value) then a.border[0]
    else pos.value
  }

  /** The safety check of startInternal: inside the lawn, or within SPAWN_DOCK_RADIUS of the dock. */
  predicate SpawnSafe(a: Arena, p: Point)
  {
    a.isInside(p)
    || (a.chargingStation.Some? && Dist2(p, a.chargingStation.value) < SPAWN_DOCK_RADIUS * SPAWN_DOCK_RADIUS)
  }

  /** With a charging station the start always passes the safety check. */
  lemma DockedSpawnIsSafe(a: Arena, pos: Option<Point>)
    requires |a.border| > 0 && a.chargingStation.Some?
    ensures SpawnSafe(a, SpawnPoint(a, pos))
  {
    assert Dist2(a.chargingStation.value, a.chargingStation.value) == 0.0;
  }

  /**
   * The edge-cutting set-up of startInternal: at the border vertex nearest
   * to p, with every vertex to go, in the direction EdgeDirection gives.
   */
  ghost function EdgeStart(v: MowerView, a: Arena, p: Point): (w: MowerView)
    requires |a.border| > 0
    ensures 0 <= w.borderIndex < |a.border| && w.position == Some(a.border[w.borderIndex])
    ensures w.edgePointsLeft == |a.border|
  {
    var pts := a.border;
    var i := NearestIndex(pts, p);
    v.(borderIndex := i, position := Some(pts[i]), edgePointsLeft := |pts|,
       edgeDirection := EdgeDirection(a.chargingStation, pts[i], pts[(i + 1) % |pts|]))
  }

  /**
   * FOLLOWING_BORDER away from the dock moves one vertex on; when it stops
   * short at the dock instead, the index stepped forward and back again
   * is the one it started from, and the stop lies within DOCK_RADIUS.
   */
  lemma {:induction false} FollowedIndex(v: MowerView, w: MowerView)
    requires v.ground.Some? && v.position.Some? && 0 <= v.borderIndex < |v.ground.value.border|
    requires Followed(v, w)
    requires var dock := v.ground.value.chargingStation;
             !(dock.Some? && Dist2(v.position.value, dock.value) < DOCK_RADIUS * DOCK_RADIUS)
    ensures var pts := v.ground.value.border;
            var dock := v.ground.value.chargingStation;
            var i := (v.borderIndex + 1) % |pts|;
            var stop := if dock.Some? then StopNear(v.position.value, pts[i], dock.value, DOCK_RADIUS) else None;
            w.state == v.state && w.line.Some? && w.line.value.p1 == v.position.value
            && (stop.None? ==> w.borderIndex == i && w.line.value.p2 == pts[i])
            && (stop.Some? ==> w.borderIndex == v.borderIndex
                               && Dist2(w.line.value.p2, dock.value) < DOCK_RADIUS * DOCK_RADIUS)
  {
    StepBackCancels(v.borderIndex, |v.ground.value.border|);
  }

  /** EDGE_CUTTING stays on the border, and ends STOPPED on an empty segment when no vertex is left. */
  lemma EdgeSteppedInRange(v: MowerView, w: MowerView)
    requires v.ground.Some? && v.position.Some? && |v.ground.value.border| > 0
    requires v.borderIndex >= 0 && (v.edgeDirection == -1 || v.edgeDirection == 1)
    requires EdgeStepped(v, w)
    ensures 0 <= w.borderIndex && (v.edgePointsLeft > 0 ==> w.borderIndex < |v.ground.value.border|)
    ensures v.edgePointsLeft <= 0 ==> w.state == Stopped && w.line.value.p1 == w.line.value.p2
    ensures v.edgePointsLeft > 0 ==> w.line == Some(Segment(v.position.value, v.ground.value.border[w.borderIndex]))
  {
    EdgeStepInRange(v.borderIndex, v.edgeDirection, |v.ground.value.border|);
  }

  class AutoMower {
    var state: State
    var position: Option<Point>
    var segmentStart: Option<Point>
    var transitionTarget: Option<Point>
    var line: Option<Segment>
    /** The visual trace: one point per completed segment. */
    var trace: seq<Point>
    var ground: Option<Arena>
    var borderIndex: int
    var edgePointsLeft: int
    var edgeDirection: int
    var battery: real
    var capacity: real
    var consumption: real
    var speed: real
    var mowingWidth: real
    var runtime: real
    var chargingTime: real
    var transitionDistance: real
    var navigationErrors: int
    var collisions: int
    var policy: Policy
    var coverage: CoverageGrid

    ghost function View(): MowerView
      reads this
    {
      MowerView(state, position, segmentStart, transitionTarget, line, trace, ground, borderIndex,
                edgePointsLeft, edgeDirection, battery, capacity, consumption, speed, mowingWidth,
                runtime, chargingTime, transitionDistance, navigationErrors, collisions, policy, coverage)
    }

    /**
     * The mower's invariant. The coverage grid keeps its own (CoverageGrid.Valid),
     * which only a tick needs.
     */
    ghost predicate Valid()
      reads this
    {
      Consistent(View())
    }

    /** A new mower of the given model: stopped, nowhere, with a full battery of 50 Wh. */
    constructor (p: Policy)
      requires p.ZoneStatistics? ==> AllNonNegative(p.stats)
      requires p.SmartBalancing? ==> AllPositive(p.stats)
      ensures Valid() && fresh(coverage) && coverage.Valid()
      ensures View() == MowerView(Stopped, None, None, None, None, [], None, 0, -1, 1,
                                  50.0, 50.0, 0.00045, 1000.0 / 36.0, 14.0, 0.0, 0.0, 0.0, 0, 0, p, coverage)
    {
      state, position, segmentStart, transitionTarget, line := Stopped, None, None, None, None;
      trace, ground, borderIndex, edgePointsLeft, edgeDirection := [], None, 0, -1, 1;
      battery, capacity, consumption := 50.0, 50.0, 0.00045;
      speed, mowingWidth := 1000.0 / 36.0, 14.0;
      runtime, chargingTime, transitionDistance := 0.0, 0.0, 0.0;
      navigationErrors, collisions := 0, 0;
      policy := p;
      coverage := new CoverageGrid();
    }

    /** getModelVersion. */
    function Version(): (v: int)
      reads this
      ensures v == ModelVersion(policy)
    {
      ModelVersion(policy)
    }

    predicate IsStopped()
      reads this
    {
      state == Stopped
    }

    predicate IsCharging()
      reads this
    {
      state == Charging
    }

    predicate IsReturningToDock()
      reads this
    {
      state == SeekingBorder || state == FollowingBorder
    }

    /** stop and cancel: the mower stops; nothing else changes. */
    method Stop()
      requires Valid()
      modifies this
      ensures Valid() && View() == old(View()).(state := Stopped)
    {
      state := Stopped;
    }

    method Cancel()
      requires Valid()
      modifies this
      ensures Valid() && View() == old(View()).(state := Stopped)
    {
      state := Stopped;
    }

    /** resume: back to MOWING (the run-loop thread it starts is not modelled). */
    method Resume()
      requires Valid()
      modifies this
      ensures Valid() && View() == old(View()).(state := Mowing)
    {
      state := Mowing;
    }

    // -------------------------------------------------------------------
    // Collisions

    /** onCollision of the concrete model, with the changes it makes to the mower. */
    method OnCollision(pos: Point)
      requires Valid()
      modifies this
      ensures Valid()
      ensures View() == Reacted(old(View()), pos)
    {
      var outcome := Consult(pos);
      Apply(outcome);
    }

    /** The model's statistics after a collision at pos, and what it asks the mower to do. */
    method Consult(pos: Point) returns (outcome: Outcome)
      requires Valid()
      modifies this
      ensures Valid()
      ensures (policy, outcome) == PolicyStep(old(policy), pos, ground)
      ensures View() == old(View()).(policy := policy)
    {
      outcome := Keep;
      match policy {
        case Standard =>
        case ZoneStatistics(s) =>
          var next, o := ZonesV2.OnCollision(s, pos, ground);
          policy, outcome := ZoneStatistics(next), o;
        case SmartBalancing(s, last) =>
          var next, nextLast, o := ZonesV3.OnCollision(s, last, pos, ground);
          policy, outcome := SmartBalancing(next, nextLast), o;
        case DistanceBased(dist, lastM) =>
          var nextLastM, o := ZonesV4.OnCollision(dist, lastM, pos, ground);
          policy, outcome := DistanceBased(dist, nextLastM), o;
      }
    }

    /** Carries out the outcome of a collision: a new transition target, and the move onto the border. */
    method Apply(outcome: Outcome)
      requires Valid() && (ground.Some? || outcome.Keep?)
      modifies this
      ensures Valid()
      ensures View() == Applied(old(View()), outcome)
    {
      if outcome.Aim? && outcome.target.None? {
        transitionTarget := None;
      } else if outcome.Aim? {
        AimAt(outcome.target.value, outcome.snap, outcome.artificial);
      }
    }

    /** The move towards another zone: TRANSITIONING_TO_ZONE from the snapped point, at its nearest vertex. */
    method AimAt(target: Point, snap: Point, artificial: bool)
      requires Valid() && ground.Some?
      modifies this
      ensures Valid()
      ensures View() == old(View()).(transitionTarget := Some(target), state := TransitioningToZone,
                                     position := Some(snap), borderIndex := NearestIndex(old(ground).value.border, snap),
                                     collisions := if artificial then old(collisions) + 1 else old(collisions))
    {
      var i := GetNearestBorderIndex(ground.value.border, snap);
      var n := if artificial then collisions + 1 else collisions;
      transitionTarget, state, position, borderIndex, collisions := Some(target), TransitioningToZone, Some(snap), i, n;
    }

    /** incrementCollisionCount: one more collision, reported to the model. */
    method IncrementCollisionCount(pos: Point)
      requires Valid()
      modifies this
      ensures Valid()
      ensures View() == Reacted(old(View()).(collisions := old(collisions) + 1), pos)
    {
      collisions := collisions + 1;
      OnCollision(pos);
    }
  
    /** handleCollision, for the path towards the border that runs into a wall. */
    method HandleCollision(wall: Segment)
      requires Valid() && ground.Some? && position.Some?
      modifies this
      ensures Valid()
      ensures View() == Collided(old(View()), wall)
    {
      var hit := wall.p1;
      if line.Some? {
        var h := ground.value.intersectPoint(wall, line.value);
        if h.Some? {
          hit := h.value;
        }
      }
      var oldState := state;
      IncrementCollisionCount(hit);
      line := Some(Segment(position.value, hit));
      if state == oldState {
        state := Mowing;
      }
    }

    // -------------------------------------------------------------------
    // calculateNextSegment, state by state

    /** EDGE_CUTTING. */
    method NextEdge()
      requires Valid() && ground.Some? && position.Some?
      modifies this
      ensures Valid()
      ensures EdgeStepped(old(View()), View())
    {
      var p := position.value;
      if edgePointsLeft <= 0 {
        state := Stopped;
        line := Some(Segment(p, p));
        return;
      }
      var pts := ground.value.border;
      EdgeStepInRange(borderIndex, edgeDirection, |pts|);
      borderIndex := (borderIndex + edgeDirection + |pts|) % |pts|;
      line := Some(Segment(p, pts[borderIndex]));
      segmentStart := Some(p);
    }

    /** FOLLOWING_BORDER. */
    method NextFollowing()
      requires Valid() && ground.Some? && position.Some?
      modifies this
      ensures Valid()
      ensures Followed(old(View()), View())
    {
      var p := position.value;
      var dock := ground.value.chargingStation;
      if dock.Some? && Dist2(p, dock.value) < DOCK_RADIUS * DOCK_RADIUS {
        state := Charging;
        line := Some(Segment(p, p));
        return;
      }
      var pts := ground.value.border;
      var n := |pts|;
      borderIndex := (borderIndex + 1) % n;
      var next := pts[borderIndex];
      if dock.Some? {
        var stop := StopNear(p, next, dock.value, DOCK_RADIUS);
        if stop.Some? {
          next := stop.value;
          borderIndex := (borderIndex - 1 + n) % n;
        }
      }
      line := Some(Segment(p, next));
      segmentStart := Some(p);
    }

    /** TRANSITIONING_TO_ZONE, before arrival. */
    method NextTransitStep()
      requires Valid() && ground.Some? && position.Some? && transitionTarget.Some?
      modifies this
      ensures Valid()
      ensures Transited(old(View()), View())
    {
      var p := position.value;
      var pts := ground.value.border;
      borderIndex := (borderIndex + 1) % |pts|;
      var next := pts[borderIndex];
      var stop := StopNear(p, next, transitionTarget.value, TARGET_RADIUS);
      if stop.Some? {
        next := stop.value;
      }
      line := Some(Segment(p, next));
      segmentStart := Some(p);
    }
  
    /** The heading of the MOWING planner (see Headed). */
    method ChooseHeading(nav: Navigator) returns (dirEnd: Point)
      requires Valid() && ground.Some? && position.Some?
      modifies this
      ensures Valid() && position.Some?
      ensures Headed(old(View()), View(), nav, dirEnd)
    {
      var p := position.value;
      var touching := FindTouchingLines(ground.value, p);
      if line.None? || Dist2(p, line.value.p1) < NAV_EPS * NAV_EPS || |touching| == 0 {
        dirEnd := nav.heading(p);
      } else if |touching| == 1 {
        var prev := line.value.p1;
        IncrementCollisionCount(p);
        dirEnd := BounceDirection(touching[0], position.value, prev, nav.turn);
      } else {
        var found := nav.sweep(p);
        if found.Some? {
          dirEnd := found.value;
        } else {
          dirEnd := nav.nudge(touching[0], p);
          OnCollision(p);
        }
      }
    }

    /**
     * MOWING: nothing while the segment is unfinished; otherwise a heading,
     * then the raycast. An accepted hit is counted as a collision and ends
     * the new segment; when every attempt fails the mower counts a
     * navigation error and is recovered to the dock, or stops without one.
     */
    method NextMowing(nav: Navigator)
      returns (ghost hit: Option<Point>, ghost from: Point, ghost attempts: nat, ghost u: MowerView, ghost dirEnd: Point)
      requires Valid() && ground.Some? && position.Some?
      modifies this
      ensures Valid() && position.Some?
      ensures Replanned(old(View()), View())
      ensures MidSegment(old(View())) ==> attempts == 0
      ensures attempts <= MAX_RAY_ATTEMPTS && (!MidSegment(old(View())) && hit.None? ==> attempts == MAX_RAY_ATTEMPTS)
      ensures !MidSegment(old(View())) && hit.Some? ==>
                navigationErrors == old(navigationErrors) && collisions > old(collisions)
                && line == Some(Segment(position.value, hit.value)) && Accepted(ground.value, from, hit.value)
      ensures !MidSegment(old(View())) && hit.None? ==> navigationErrors == old(navigationErrors) + 1
      ensures !MidSegment(old(View())) ==>
                Consistent(u) && u.ground == old(ground) && u.position == Some(from)
                && Headed(old(View()), u, nav, dirEnd)
                && (hit, attempts) == Search(u.ground.value, nav.jitter, from, dirEnd, 0)
                && (hit.Some? ==> View() == Hit(u, hit.value))
                && (hit.None? ==> View() == Lost(u))
    {
      from, hit, attempts, u, dirEnd := position.value, None, 0, View(), position.value;
      if line.Some? && position.value != line.value.p2
         && Dist2(position.value, line.value.p2) > SEGMENT_END_EPS * SEGMENT_END_EPS {
        return;
      }
      ghost var v := View();
      var heading := ChooseHeading(nav);
      dirEnd := heading;
      HeadedFrame(v, View(), nav, heading);
      u := View();
      var q := position.value;
      from := q;
      var h, tries := Raycast(ground.value, nav.jitter, q, heading);
      hit, attempts := h, tries;
      if h.Some? {
        TakeHit(h.value);
        HitReplanned(v, u, h.value, View());
      } else {
        Recover();
        LostReplanned(v, u, View());
      }
    }

    /** The accepted raycast hit: a collision there, and the new segment towards it. */
    method TakeHit(h: Point)
      requires Valid() && position.Some?
      modifies this
      ensures Valid() && position.Some?
      ensures View() == Hit(old(View()), h)
    {
      IncrementCollisionCount(h);
      line := Some(Segment(position.value, h));
      segmentStart := position;
    }

    /** A navigation error: one more counted, and the mower recovered to the dock or stopped. */
    method Recover()
      requires Valid() && ground.Some? && position.Some?
      modifies this
      ensures View() == Lost(old(View()))
      ensures Valid() && Recovered(View())
    {
      var dock := ground.value.chargingStation;
      if dock.Some? {
        navigationErrors, position, state, chargingTime, line :=
          navigationErrors + 1, dock, Charging, 0.0, Some(Segment(dock.value, dock.value));
      } else {
        navigationErrors, line, state := navigationErrors + 1, Some(Segment(position.value, position.value)), Stopped;
      }
    }

    /** SEEKING_BORDER (see Sought). */
    method NextSeeking()
      requires Valid() && ground.Some? && position.Some?
      modifies this
      ensures Valid() && position.Some?
      ensures Sought(old(View()), View())
    {
      ghost var v := View();
      var p := position.value;
      var target := FindNearestBorderPoint(ground.value.border, p);
      var path := Segment(p, target.value);
      var wall := ground.value.collidingLine(path);
      if wall.Some? {
        HandleCollision(wall.value);
        return;
      }
      line := Some(path);
      segmentStart := Some(p);
      ghost var u := View();
      assert u == v.(line := Some(path), segmentStart := Some(p));
      if Dist2(p, target.value) < BORDER_ARRIVAL * BORDER_ARRIVAL {
        state := FollowingBorder;
        borderIndex := GetNearestBorderIndex(ground.value.border, p);
        assert View() == u.(state := FollowingBorder, borderIndex := NearestIndex(v.ground.value.border, p));
        NextFollowing();
      }
    }

    /** calculateNextSegment (see Planned). */
    method NextSegment(nav: Navigator)
      requires Valid() && position.Some?
      modifies this
      ensures Valid() && position.Some?
      ensures Planned(old(View()), View())
    {
      if state == Stopped || ground.None? {
        return;
      }
      var p := position.value;
      match state {
        case Charging =>
          line := Some(Segment(p, p));
        case SeekingBorder =>
          NextSeeking();
        case EdgeCutting =>
          NextEdge();
        case FollowingBorder =>
          NextFollowing();
        case TransitioningToZone =>
          if transitionTarget.None? || Dist2(p, transitionTarget.value) < TARGET_RADIUS * TARGET_RADIUS {
            state, transitionTarget := Mowing, None;
            ghost var hit, from, attempts, u, dirEnd := NextMowing(nav);
          } else {
            NextTransitStep();
          }
        case Mowing =>
          ghost var hit, from, attempts, u, dirEnd := NextMowing(nav);
      }
    }
  
    /** Between ticks the battery holds between empty and full. */
    predicate Powered()
      reads this
    {
      0.0 <= battery <= capacity
    }

    // -------------------------------------------------------------------
    // One pass of runMower

    /**
     * One pass of the run loop over dtSim simulated seconds. A missing
     * position or ground model makes the source throw, which its loop
     * turns into STOPPED.
     */
    method Tick(dtSim: real, nav: Navigator) returns (ghost mid: MowerView, ghost ready: MowerView, ghost moved: MowerView)
      requires Valid() && Powered() && coverage.Valid() && state != Stopped && dtSim >= 0.0
      modifies this, coverage, coverage.grid
      ensures Valid() && Powered() && coverage.Valid() && coverage == old(coverage)
      ensures runtime == old(runtime) + dtSim
      ensures old(position).None? ==> state == Stopped
      ensures old(trace) <= trace && |trace| <= |old(trace)| + 1
      ensures old(position).Some? && old(state) == Charging ==>
                (old(chargingTime) + dtSim < CHARGING_TIME_S ==>
                   View() == old(View()).(runtime := runtime, chargingTime := old(chargingTime) + dtSim))
                && (old(chargingTime) + dtSim >= CHARGING_TIME_S ==>
                      battery == capacity
                      && Planned(old(View()).(runtime := old(runtime) + dtSim, battery := old(capacity),
                                              state := Mowing, chargingTime := 0.0), View()))
      ensures old(position).Some? && old(state) != Charging && old(ground).None? ==> state == Stopped
      ensures old(position).None? || old(state) == Charging || old(ground).None? ==>
                coverage.cells == old(coverage.cells)
      ensures old(position).Some? && old(state) != Charging && old(ground).Some? ==>
                var moveDist := Travel(old(speed), dtSim);
                var drained := Drained(old(battery), moveDist, old(consumption));
                var dock := old(ground).value.chargingStation;
                (drained <= 0.0 ==> battery == 0.0 && (dock.Some? ==> position == dock && state == Charging)
                                    && (dock.None? ==> state == Stopped))
                && (drained > 0.0 ==> battery == drained)
                && transitionDistance == old(transitionDistance)
                     + (if old(state) == TransitioningToZone then moveDist else 0.0)
      ensures old(position).Some? && old(state) != Charging && old(ground).Some? ==>
                var start := old(View()).(runtime := old(runtime) + dtSim);
                Drove(start, Travel(old(speed), dtSim), mid, ready, moved, View())
                && coverage.cells == DriveSwath(old(coverage.cells), old(coverage.coverageInitialized), old(coverage.gridMinX),
                                                old(coverage.gridMinY), start, Travel(old(speed), dtSim), mid, ready)
    {
      if position.None? {
        runtime := runtime + dtSim;
        state := Stopped;
        mid, ready, moved := View(), View(), View();
        return;
      }
      if state == Charging {
        runtime := runtime + dtSim;
        mid, ready, moved := View(), View(), View();
        assert mid == old(View()).(runtime := old(runtime) + dtSim);
        ChargeTick(dtSim, nav);
        return;
      }
      if ground.None? {
        runtime := runtime + dtSim;
        state := Stopped;
        mid, ready, moved := View(), View(), View();
        return;
      }
      ghost var start;
      start, mid, ready, moved := DriveTick(dtSim, nav);
      DroveBattery(start, Travel(old(speed), dtSim), mid, ready, moved, View());
    }

    /**
     * The driving part of one pass: the runtime grows by dtSim, then the
     * mower drives as Drive says.
     */
    method DriveTick(dtSim: real, nav: Navigator)
      returns (ghost start: MowerView, ghost mid: MowerView, ghost ready: MowerView, ghost moved: MowerView)
      requires Valid() && Powered() && coverage.Valid() && position.Some? && ground.Some?
      requires state != Stopped && state != Charging && dtSim >= 0.0
      modifies this, coverage, coverage.grid
      ensures Valid() && coverage.Valid() && coverage == old(coverage)
      ensures start == old(View()).(runtime := old(runtime) + dtSim)
      ensures Drove(start, Travel(old(speed), dtSim), mid, ready, moved, View())
      ensures coverage.cells == DriveSwath(old(coverage.cells), old(coverage.coverageInitialized), old(coverage.gridMinX),
                                           old(coverage.gridMinY), start, Travel(old(speed), dtSim), mid, ready)
    {
      runtime := runtime + dtSim;
      start := View();
      mid, ready, moved := Drive(dtSim, nav);
    }

    /** CHARGING: the timer runs; after CHARGING_TIME_S the battery is full and the mower goes MOWING. */
    method ChargeTick(dtSim: real, nav: Navigator)
      requires Valid() && Powered() && position.Some? && state == Charging
      modifies this
      ensures Valid() && Powered() && position.Some?
      ensures old(chargingTime) + dtSim < CHARGING_TIME_S ==>
                View() == old(View()).(chargingTime := old(chargingTime) + dtSim)
      ensures old(chargingTime) + dtSim >= CHARGING_TIME_S ==>
                Planned(old(View()).(battery := old(capacity), state := Mowing, chargingTime := 0.0), View())
                && battery == capacity
    {
      chargingTime := chargingTime + dtSim;
      if chargingTime >= CHARGING_TIME_S {
        battery, state, chargingTime := capacity, Mowing, 0.0;
        ghost var v := View();
        NextSegment(nav);
        PlannedFrame(v, View());
      }
    }
  
    /**
     * Every state but CHARGING: the battery drains by the distance driven;
     * an empty battery teleports the mower to the dock, or stops it
     * without one; otherwise it drives along its segment and the model
     * hears of the move.
     */
    method Drive(dtSim: real, nav: Navigator) returns (ghost mid: MowerView, ghost ready: MowerView, ghost moved: MowerView)
      requires Valid() && Powered() && coverage.Valid() && position.Some? && ground.Some?
      requires state != Stopped && state != Charging && dtSim >= 0.0
      modifies this, coverage, coverage.grid
      ensures Valid() && coverage.Valid() && coverage == old(coverage)
      ensures Drove(old(View()), Travel(old(speed), dtSim), mid, ready, moved, View())
      ensures coverage.cells == DriveSwath(old(coverage.cells), old(coverage.coverageInitialized), old(coverage.gridMinX),
                                           old(coverage.gridMinY), old(View()), Travel(old(speed), dtSim), mid, ready)
    {
      var moveDist := Travel(speed, dtSim);
      var prev := position.value;
      ghost var v := View();
      ghost var cells, initialized, minX, minY := coverage.cells, coverage.coverageInitialized,
                                                  coverage.gridMinX, coverage.gridMinY;
      ghost var pixelDist := moveDist / ground.value.calibration;
      ghost var radius := (mowingWidth / 2.0) / ground.value.calibration;
      assert pixelDist == moveDist / v.ground.value.calibration;
      assert radius == (v.mowingWidth / 2.0) / v.ground.value.calibration;
      var halted;
      halted, mid := Prepare(moveDist, nav);
      ready, moved := View(), View();
      assert coverage.cells == cells && coverage.coverageInitialized == initialized;
      assert coverage.gridMinX == minX && coverage.gridMinY == minY;
      assert (mowingWidth / 2.0) / ground.value.calibration == radius;
      assert moveDist / ground.value.calibration == pixelDist;
      if !halted {
        moved := Move(moveDist, prev, nav);
        assert coverage.cells == if StepsAlong(ready, pixelDist)
                                 then Swath(cells, initialized, minX, minY, StepPoint(ready, pixelDist), radius)
                                 else cells;
      }
      DriveSwathAt(cells, initialized, minX, minY, v, moveDist, mid, ready, pixelDist, radius);
      DroveIntro(old(View()), moveDist, mid, ready, moved, View());
    }

    /** The move along the segment (see Advanced), then reported to the model from prev (see AfterMove). */
    method Move(moveDist: real, prev: Point, nav: Navigator) returns (ghost moved: MowerView)
      requires Valid() && coverage.Valid() && position.Some? && ground.Some? && line.Some?
      modifies this, coverage, coverage.grid
      ensures Valid() && coverage.Valid() && coverage == old(coverage)
      ensures battery == old(battery) && transitionDistance == old(transitionDistance) && runtime == old(runtime)
      ensures old(trace) <= trace && |trace| <= |old(trace)| + 1
      ensures var pixelDist := moveDist / old(ground).value.calibration;
              Advanced(old(View()), moved, pixelDist) && moved.position.Some?
              && View() == AfterMove(moved, moveDist, prev)
              && coverage.cells == if StepsAlong(old(View()), pixelDist)
                                   then Swath(old(coverage.cells), old(coverage.coverageInitialized),
                                              old(coverage.gridMinX), old(coverage.gridMinY),
                                              StepPoint(old(View()), pixelDist),
                                              (old(mowingWidth) / 2.0) / old(ground).value.calibration)
                                   else old(coverage.cells)
    {
      Advance(moveDist / ground.value.calibration, nav);
      moved := View();
      Moved(moveDist, prev);
    }

    /**
     * The part of a drive before the move: the drain, the low-battery
     * switch, the empty battery (which ends the tick: halted) and a
     * segment planned for a mower without one.
     */
    method Prepare(moveDist: real, nav: Navigator) returns (halted: bool, ghost mid: MowerView)
      requires Valid() && Powered() && position.Some? && ground.Some?
      requires state != Stopped && state != Charging && moveDist >= 0.0
      modifies this
      ensures Valid() && position.Some? && ground == old(ground) && coverage == old(coverage)
      ensures trace == old(trace) && runtime == old(runtime)
      ensures var drained := Drained(old(battery), moveDist, old(consumption));
              var dock := old(ground).value.chargingStation;
              (halted <==> drained <= 0.0)
              && (halted ==> battery == 0.0 && (dock.Some? ==> position == dock && state == Charging)
                             && (dock.None? ==> state == Stopped))
              && (!halted ==> battery == drained && line.Some? && battery <= capacity)
              && transitionDistance == old(transitionDistance)
                   + (if old(state) == TransitioningToZone then moveDist else 0.0)
      ensures LowSwitched(AfterDrain(old(View()), moveDist), mid)
              && Consistent(mid) && mid.position.Some? && mid.ground == old(ground)
      ensures halted <==> mid.battery <= 0.0
      ensures halted ==> View() == Depleted(mid)
      ensures !halted ==> Segmented(mid, View())
      ensures mowingWidth == old(mowingWidth)
    {
      Drain(moveDist);
      SeekIfLow(nav);
      mid := View();
      halted := battery <= 0.0;
      if halted {
        Deplete();
      } else {
        EnsureSegment(nav);
      }
    }

    /** The battery drains by moveDist times the consumption; a transit adds moveDist to the transition distance. */
    method Drain(moveDist: real)
      requires Valid() && moveDist >= 0.0
      modifies this
      ensures Valid()
      ensures View() == AfterDrain(old(View()), moveDist)
    {
      DrainNonNegative(moveDist, consumption);
      battery := battery - moveDist * consumption;
      if state == TransitioningToZone {
        transitionDistance := transitionDistance + moveDist;
      }
    }

    /** A MOWING mower below LOW_BATTERY_SHARE of its capacity starts SEEKING_BORDER. */
    method SeekIfLow(nav: Navigator)
      requires Valid() && position.Some? && ground.Some? && state != Stopped
      modifies this
      ensures Valid() && position.Some? && state != Stopped
      ensures PlanningFrame(old(View()), View())
      ensures LowSwitched(old(View()), View())
    {
      if state == Mowing && battery < capacity * LOW_BATTERY_SHARE {
        state := SeekingBorder;
        ghost var v := View();
        NextSegment(nav);
        PlannedFrame(v, View());
        SoughtKeepsGoing(v, View());
      }
    }

    /** The empty battery: none left, and the mower teleported to the dock, or stopped without one. */
    method Deplete()
      requires Valid() && battery <= 0.0 && ground.Some?
      modifies this
      ensures Valid() && Powered()
      ensures View() == Depleted(old(View()))
    {
      battery := 0.0;
      var dock := ground.value.chargingStation;
      if dock.Some? {
        position, state, chargingTime := dock, Charging, 0.0;
      } else {
        state := Stopped;
      }
    }

    /** A mower without a segment plans one first. */
    method EnsureSegment(nav: Navigator)
      requires Valid() && position.Some? && ground.Some? && state != Stopped
      modifies this
      ensures Valid() && position.Some? && line.Some?
      ensures Segmented(old(View()), View())
      ensures PlanningFrame(old(View()), View())
    {
      if line.None? {
        ghost var v := View();
        NextSegment(nav);
        PlannedFrame(v, View());
        PlannedHasSegment(v, View());
      }
    }

    /** onMove of the concrete model: the distance-based model books the move on its zones. */
    method Moved(moveDist: real, prev: Point)
      requires Valid() && position.Some?
      modifies this
      ensures Valid()
      ensures View() == AfterMove(old(View()), moveDist, prev)
    {
      if policy.DistanceBased? {
        policy := DistanceBased(ZonesV4.OnMove(policy.distances, moveDist, prev, position.value, ground),
                                policy.lastTransitionTotalDistanceM);
      }
    }

    /**
     * The move along the segment: a step that reaches its end completes
     * it; a shorter positive step moves the mower along it.
     */
    method Advance(pixelDist: real, nav: Navigator)
      requires Valid() && coverage.Valid() && position.Some? && ground.Some? && line.Some?
      modifies this, coverage, coverage.grid
      ensures Valid() && coverage.Valid() && coverage == old(coverage) && position.Some?
      ensures PlanningFrame(old(View()).(trace := trace, edgePointsLeft := edgePointsLeft), View())
      ensures battery == old(battery) && transitionDistance == old(transitionDistance) && runtime == old(runtime)
      ensures old(trace) <= trace && |trace| <= |old(trace)| + 1
      ensures Advanced(old(View()), View(), pixelDist)
      ensures coverage.cells == if StepsAlong(old(View()), pixelDist)
                                then Swath(old(coverage.cells), old(coverage.coverageInitialized),
                                           old(coverage.gridMinX), old(coverage.gridMinY), StepPoint(old(View()), pixelDist),
                                           (old(mowingWidth) / 2.0) / old(ground).value.calibration)
                                else old(coverage.cells)
      ensures var end := old(line).value.p2;
              if Reaches(old(View()), pixelDist) then
                trace == old(trace) + [end]
                && edgePointsLeft == if old(state) == EdgeCutting then old(edgePointsLeft) - 1 else old(edgePointsLeft)
              else trace == old(trace) && edgePointsLeft == old(edgePointsLeft)
    {
      ghost var v := View();
      var p := position.value;
      var end := line.value.p2;
      if pixelDist >= 0.0 && pixelDist * pixelDist >= Dist2(p, end) {
        CompleteSegment(nav);
      } else if pixelDist > 0.0 {
        StepAlong(pixelDist, (mowingWidth / 2.0) / ground.value.calibration);
        MovedConsistent(v, View());
      }
      AdvancedTrace(v, View(), pixelDist);
    }

    /**
     * The segment is done: the mower stands at its end, which joins the
     * trace; an edge-cutting mower has one vertex less to go; the next
     * segment is planned.
     */
    method CompleteSegment(nav: Navigator)
      requires Valid() && position.Some? && line.Some?
      modifies this
      ensures Valid() && position.Some?
      ensures var end := old(line).value.p2;
              trace == old(trace) + [end]
              && Planned(old(View()).(position := Some(end), trace := old(trace) + [end],
                                      edgePointsLeft := if old(state) == EdgeCutting then old(edgePointsLeft) - 1
                                                        else old(edgePointsLeft)), View())
      ensures PlanningFrame(old(View()).(trace := trace, edgePointsLeft := edgePointsLeft), View())
    {
      var end := line.value.p2;
      position := Some(end);
      trace := trace + [end];
      if state == EdgeCutting {
        edgePointsLeft := edgePointsLeft - 1;
      }
      ghost var v := View();
      NextSegment(nav);
      PlannedFrame(v, View());
    }

    /**
     * A step of pixelDist towards the segment's end: the mower moves there,
     * its segment now starts there, and the disc of pixelRadius around it
     * is mowed.
     */
    method StepAlong(pixelDist: real, pixelRadius: real)
      requires coverage.Valid() && position.Some? && ground.Some? && line.Some?
      modifies this, coverage, coverage.grid
      ensures coverage.Valid() && coverage == old(coverage)
      ensures var end := old(line).value.p2;
              var np := old(ground).value.colinearPoint(old(position).value, end, pixelDist);
              View() == old(View()).(position := Some(np), line := Some(Segment(np, end)))
              && coverage.cells == Swath(old(coverage.cells), old(coverage.coverageInitialized),
                                         old(coverage.gridMinX), old(coverage.gridMinY), np, pixelRadius)
    {
      var end := line.value.p2;
      var np := ground.value.colinearPoint(position.value, end, pixelDist);
      coverage.UpdateCoverage(np, pixelRadius);
      position := Some(np);
      line := Some(Segment(np, end));
    }
  
    // -------------------------------------------------------------------
    // startInternal

    /**
     * start (startState MOWING) and startEdgeCutting (EDGE_CUTTING): the
     * mower takes the ground model and the visual trace, spawns (see
     * SpawnPoint) and marks the spawn point on the trace. A spawn that fails
     * the safety check ends the start there. Otherwise the battery is
     * filled, the coverage grid is laid over the border's bounding box
     * (minX, minY, width, height), an edge-cutting mower moves to its first
     * vertex (see EdgeStart), and the first segment is planned.
     */
    method Start(visualTrace: seq<Point>, a: Arena, minX: int, minY: int, width: nat, height: nat,
                 startState: State, nav: Navigator)
      requires Valid() && Powered() && coverage.Valid() && ValidArena(a)
      requires startState == Mowing || startState == EdgeCutting
      modifies this, coverage
      ensures Valid() && Powered() && coverage.Valid() && coverage == old(coverage)
      ensures ground == Some(a) && position.Some?
      ensures var spawn := SpawnPoint(a, old(position));
              var u := old(View()).(trace := visualTrace + [spawn], ground := Some(a), position := Some(spawn));
              (!SpawnSafe(a, spawn) ==> View() == u)
              && (SpawnSafe(a, spawn) ==>
                    var w := u.(battery := old(capacity), state := startState);
                    Planned(if startState == EdgeCutting then EdgeStart(w, a, spawn) else w, View()))
      ensures SpawnSafe(a, SpawnPoint(a, old(position))) ==>
                coverage.coverageInitialized && coverage.mowedPixels == 0
                && coverage.cells == InitialCells(minX, minY, width + 1, height + 1, a.isInside)
    {
      var spawn := Spawn(visualTrace, a);
      if !SpawnSafe(a, spawn) {
        return;
      }
      battery, state := capacity, startState;
      coverage.InitCoverage(minX, minY, width, height, a.isInside);
      if state == EdgeCutting {
        StartEdge();
      }
      ghost var v := View();
      NextSegment(nav);
      PlannedFrame(v, View());
    }

    /** The spawn of startInternal, with the spawn point marked on the visual trace. */
    method Spawn(visualTrace: seq<Point>, a: Arena) returns (spawn: Point)
      requires Valid() && ValidArena(a)
      modifies this
      ensures Valid() && spawn == SpawnPoint(a, old(position))
      ensures View() == old(View()).(trace := visualTrace + [spawn], ground := Some(a), position := Some(spawn))
    {
      ground := Some(a);
      var station := a.chargingStation;
      if station.Some? {
        position := station;
      } else if position.None? || !a.isInside(position.value) {
        position := Some(a.border[0]);
      }
      spawn := position.value;
      trace := visualTrace + [spawn];
    }

    /** The edge-cutting set-up (see EdgeStart). */
    method StartEdge()
      requires Valid() && ground.Some? && position.Some?
      modifies this
      ensures Valid()
      ensures View() == EdgeStart(old(View()), old(ground).value, old(position).value)
    {
      var pts := ground.value.border;
      var i := GetNearestBorderIndex(pts, position.value);
      borderIndex := i;
      position := Some(pts[i]);
      edgePointsLeft := |pts|;
      edgeDirection := EdgeDirection(ground.value.chargingStation, pts[i], pts[(i + 1) % |pts|]);
    }
  }
}
