/**
 * Worked examples on a 100 x 100 square garden with two zones of 50% each:
 * zone 0 ends at (50, 0) and zone 1 at (100, 100). Perimeter distances run
 * counter-clockwise from (0, 0), so the perimeter is 400 long, (50, 0) lies
 * at 50 and (100, 100) at 200. These are the arenas of the repository's
 * AutoMowerModelV3 tests.
 */
module Scenarios {
  import opened Geometry
  import opened Zones
  import opened Ground
  import ZonesV3
  import ZonesV4

  /** Arc length along the square's edges for points on them; 0 elsewhere. */
  function SquareDist(p: Point): (d: real)
    ensures 0.0 <= d < 400.0
  {
    if p.y == 0.0 && 0.0 <= p.x < 100.0 then p.x
    else if p.x == 100.0 && 0.0 <= p.y < 100.0 then 100.0 + p.y
    else if p.y == 100.0 && 0.0 < p.x <= 100.0 then 300.0 - p.x
    else if p.x == 0.0 && 0.0 < p.y <= 100.0 then 400.0 - p.y
    else 0.0
  }

  /** The point at a perimeter distance of the square. */
  function SquarePoint(d: real): (r: Option<Point>)
    ensures 0.0 <= d < 400.0 ==> r.Some? && SquareDist(r.value) == d
  {
    if 0.0 <= d < 100.0 then Some(Point(d, 0.0))
    else if 100.0 <= d < 200.0 then Some(Point(100.0, d - 100.0))
    else if 200.0 <= d < 300.0 then Some(Point(300.0 - d, 100.0))
    else if 300.0 <= d < 400.0 then Some(Point(0.0, 400.0 - d))
    else None
  }

  function Square(): (a: Arena)
    ensures ValidArena(a)
  {
    Arena([Point(0.0, 0.0), Point(100.0, 0.0), Point(100.0, 100.0), Point(0.0, 100.0)],
          [], 1.0, None,
          [ZonePoint(Point(50.0, 0.0), 50), ZonePoint(Point(100.0, 100.0), 50)],
          400.0, SquareDist, SquarePoint,
          (p: Point) => 0.0 <= p.x <= 100.0 && 0.0 <= p.y <= 100.0,
          (p: Point, eps: real) => -eps <= p.x <= 100.0 + eps && -eps <= p.y <= 100.0 + eps,
          (s: Segment) => None, (s: Segment, t: Segment) => None, (p: Point, q: Point, len: real) => q)
  }

  /**
   * After twenty collisions in zone 0 the twenty-first one moves the mower:
   * zone 0 holds all 21 collisions against a target of half, zone 1 is
   * starved by 50%, so it aims at (100, 25), the midpoint of zone 1 at
   * perimeter distance 125, snaps to (20, 0), and counts one artificial
   * collision for zone 1.
   */
  lemma V3MovesOnTwentyFirstCollision()
    ensures ZonesV3.Decide(map[0 := 20], 0, Point(20.0, 0.0), Some(Square()))
            == (map[0 := 21, 1 := 1], 21, Aim(1, Some(Point(100.0, 25.0)), Point(20.0, 0.0), true))
  {
    var a := Square();
    assert ZoneAt(a, Point(20.0, 0.0)) == 0;
    CountTotalRemove(map[0 := 20], 0);
    assert map[0 := 20] - {0} == map[];
    var merged := Merge(map[0 := 20], 0, 1);
    assert merged == map[0 := 21];
    assert ZonesV3.TotalAfter(map[0 := 20], 0) == 21;
    var ds := ZonesV3.Deficits(merged, 21, a.zones);
    assert ds == [50.0 / 100.0 - 21.0 / 21.0, 50.0 / 100.0 - 0.0 / 21.0];
    assert Scan(ds, 1) == (-1, 0.0);
    assert Scan(ds, 2) == (1, ds[1]);
    assert BestZone(ds) == 1 && MaxDeficit(ds) == 0.5;
    assert ZoneMidpoint(a, 1) == 125.0;
  }

  /**
   * With 15 collisions in each zone a collision in zone 0 leaves the mower
   * mowing: zone 0's surplus is only 1/62 and zone 1's deficit the same,
   * far below 8%, and zone 1 lies 175 ahead, beyond a quarter of 400.
   */
  lemma V3StaysWhenBalanced()
    ensures ZonesV3.Decide(map[0 := 15, 1 := 15], 0, Point(25.0, 0.0), Some(Square()))
            == (map[0 := 16, 1 := 15], 0, Keep)
  {
    var a := Square();
    var stats := map[0 := 15, 1 := 15];
    assert ZoneAt(a, Point(25.0, 0.0)) == 0;
    CountTotalRemove(stats, 0);
    assert stats - {0} == map[1 := 15];
    CountTotalRemove(map[1 := 15], 1);
    assert map[1 := 15] - {1} == map[];
    var merged := Merge(stats, 0, 1);
    assert merged == map[0 := 16, 1 := 15];
    assert ZonesV3.TotalAfter(stats, 0) == 31;
    var ds := ZonesV3.Deficits(merged, 31, a.zones);
    assert ds == [50.0 / 100.0 - 16.0 / 31.0, 50.0 / 100.0 - 15.0 / 31.0];
    assert Scan(ds, 1) == (-1, 0.0);
    assert Scan(ds, 2) == (1, ds[1]);
    assert BestZone(ds) == 1 && MaxDeficit(ds) == 1.0 / 62.0;
    assert ForwardDistance(200.0, 25.0, 400.0) == 175.0 by {
      ForwardDistanceRange(200.0, 25.0, 400.0);
    }
  }

  /** A one-metre move from zone 0 into zone 1 is credited half to each. */
  lemma V4SplitsCrossingMove()
    ensures ZonesV4.OnMove(map[], 100.0, Point(20.0, 0.0), Point(100.0, 50.0), Some(Square()))
            == map[0 := 50.0, 1 := 50.0]
  {
    var a := Square();
    assert ZoneAt(a, Point(20.0, 0.0)) == 0;
    assert ZoneAt(a, Point(100.0, 50.0)) == 1;
  }

  /**
   * After 60 m driven all in zone 0 a collision there moves the mower to
   * the midpoint of zone 1, records 60 m as the distance of the move and
   * adds no artificial distance.
   */
  lemma V4MovesAfterSixtyMetres()
    ensures ZonesV4.Decide(map[0 := 6000.0], 0.0, Point(20.0, 0.0), Some(Square()))
            == (60.0, Aim(1, Some(Point(100.0, 25.0)), Point(20.0, 0.0), false))
  {
    var a := Square();
    ZonesV4.DistanceTotalRemove(map[0 := 6000.0], 0);
    assert map[0 := 6000.0] - {0} == map[];
    assert ZonesV4.DistanceTotal(map[0 := 6000.0]) == 6000.0;
    assert ZoneAt(a, Point(20.0, 0.0)) == 0;
    var ds := ZonesV4.Deficits(map[0 := 6000.0], 6000.0, a.zones);
    assert ds == [50.0 / 100.0 - 6000.0 / 6000.0, 50.0 / 100.0 - 0.0 / 6000.0];
    assert Scan(ds, 1) == (-1, 0.0);
    assert Scan(ds, 2) == (1, ds[1]);
    assert BestZone(ds) == 1 && MaxDeficit(ds) == 0.5;
    assert ZoneMidpoint(a, 1) == 125.0;
  }
}
