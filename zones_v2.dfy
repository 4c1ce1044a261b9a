/**
 * AutoMowerModelV2: per-zone collision counts, and every twentieth
 * collision a move towards the zone that is furthest behind its share.
 *
 * The counts are the map that onCollision merges into; the changes to the
 * mower itself (state, position, border index, global collision counter)
 * come back as an Outcome that the Mower applies.
 */
module ZonesV2 {
  import opened Geometry
  import opened Zones
  import opened Ground

  /** Deficit of each zone: its ideal share of all collisions minus its actual count. */
  function Deficits(stats: map<int, int>, total: int, zones: seq<ZonePoint>): (ds: seq<real>)
    ensures |ds| == |zones|
    ensures forall i :: 0 <= i < |zones| ==>
              ds[i] == total as real * (zones[i].percentage as real / 100.0) - Get(stats, i) as real
  {
    seq(|zones|, i requires 0 <= i < |zones| =>
      total as real * (zones[i].percentage as real / 100.0) - Get(stats, i) as real)
  }

  /**
   * The midpoint of the target zone as V2 computes it: halfway from the
   * previous zone point to the target zone point, adding L when the zone
   * wraps, without bringing the result back below L.
   */
  function Midpoint(dPrev: real, dTarget: real, perimeter: real): real
  {
    if dTarget < dPrev then (dPrev + dTarget + perimeter) / 2.0 else (dPrev + dTarget) / 2.0
  }

  /**
   * The rebalancing step on the counts after the collision was merged:
   * move towards the most starved zone unless it is the zone just hit.
   */
  function Rebalance(merged: map<int, int>, total: int, zone: nat, pos: Point, a: Arena): (r: (map<int, int>, Outcome))
    requires ValidArena(a) && |a.zones| > 0
  {
    var ds := Deficits(merged, total, a.zones);
    BestZoneIsFirstMaximum(ds);
    var best := BestZone(ds);
    if best == -1 || best == zone then (merged, Keep)
    else
      var n := |a.zones|;
      var dTarget := a.distOnPerimeter(a.zones[best].point);
      var dPrev := a.distOnPerimeter(a.zones[PrevZone(best, n)].point);
      var target := a.pointAtDist(Midpoint(dPrev, dTarget, a.perimeterLength));
      if target.None? then (merged, Aim(best, None, Snap(a, pos), true))
      else (Merge(merged, best, 1), Aim(best, target, Snap(a, pos), true))
  }

  /** The whole of onCollision, as a function of the counts before the collision. */
  ghost function Decide(stats: map<int, int>, pos: Point, ground: Option<Arena>): (r: (map<int, int>, Outcome))
    requires ground.Some? ==> ValidArena(ground.value)
  {
    if ground.None? || |ground.value.zones| == 0 then (stats, Keep)
    else
      var a := ground.value;
      var zone := ZoneAt(a, pos);
      var merged := Merge(stats, zone, 1);
      var total := CountTotal(merged);
      if total % 20 != 19 then (merged, Keep) else Rebalance(merged, total, zone, pos, a)
  }

  /**
   * onCollision of AutoMowerModelV2: zone lookup, count, and on every
   * collision whose total leaves 19 modulo 20, the move to the most
   * starved zone.
   */
  method OnCollision(stats: map<int, int>, pos: Point, ground: Option<Arena>)
    returns (next: map<int, int>, outcome: Outcome)
    requires ground.Some? ==> ValidArena(ground.value)
    ensures (next, outcome) == Decide(stats, pos, ground)
  {
    if ground.None? {
      return stats, Keep;
    }
    var a := ground.value;
    var zones := a.zones;
    if |zones| == 0 {
      return stats, Keep;
    }
    var d := a.distOnPerimeter(pos);
    var zoneIdx := LocateZone(zones, a.distOnPerimeter, d);
    next := Merge(stats, zoneIdx, 1);
    var totalCollisions := SumCounts(next);
    outcome := Keep;
    if totalCollisions % 20 == 19 {
      next, outcome := RebalanceStep(next, totalCollisions, zoneIdx, pos, a);
    }
  }

  /** The rebalancing branch of onCollision. */
  method RebalanceStep(merged: map<int, int>, totalCollisions: int, zoneIdx: nat, pos: Point, a: Arena)
    returns (next: map<int, int>, outcome: Outcome)
    requires ValidArena(a) && |a.zones| > 0
    ensures (next, outcome) == Rebalance(merged, totalCollisions, zoneIdx, pos, a)
  {
    var zones := a.zones;
    var n := |zones|;
    next, outcome := merged, Keep;
    var perimeterLen := a.perimeterLength;
    var ds := Deficits(merged, totalCollisions, zones);
    var bestTargetZone, _ := FindBestZone(ds);
    BestZoneIsFirstMaximum(ds);
    if bestTargetZone != -1 && bestTargetZone != zoneIdx {
      var dTarget := a.distOnPerimeter(zones[bestTargetZone].point);
      var dPrev := a.distOnPerimeter(zones[(bestTargetZone - 1 + n) % n].point);
      var dMid;
      if dTarget < dPrev {
        dMid := (dPrev + dTarget + perimeterLen) / 2.0;
      } else {
        dMid := (dPrev + dTarget) / 2.0;
      }
      var target := a.pointAtDist(dMid);
      var snap := a.pointAtDist(a.distOnPerimeter(pos)).value;
      if target.Some? {
        next := Merge(next, bestTargetZone, 1);
      }
      outcome := Aim(bestTargetZone, target, snap, true);
    }
  }

  /**
   * Without a ground model or without zones nothing changes. Otherwise the
   * collision is counted for its zone, raising that count and the total
   * by exactly one; only a move to a target point adds one more,
   * artificial, collision for the target zone, and no other count changes.
   */
  lemma CountsEachCollision(stats: map<int, int>, pos: Point, ground: Option<Arena>)
    requires ground.Some? ==> ValidArena(ground.value)
    ensures ground.None? || |ground.value.zones| == 0 ==> Decide(stats, pos, ground) == (stats, Keep)
    ensures ground.Some? && |ground.value.zones| > 0 ==>
              var next := Decide(stats, pos, ground).0;
              var outcome := Decide(stats, pos, ground).1;
              var zone := ZoneAt(ground.value, pos);
              var extra := if outcome.Aim? && outcome.target.Some? then 1 else 0;
              zone < |ground.value.zones|
              && CountTotal(next) == CountTotal(stats) + 1 + extra
              && (outcome.Aim? ==> outcome.zone != zone)
              && Get(next, zone) == Get(stats, zone) + 1
              && (outcome.Aim? ==> Get(next, outcome.zone) == Get(stats, outcome.zone) + extra)
              && forall j :: j != zone && (outcome.Keep? || j != outcome.zone) ==> Get(next, j) == Get(stats, j)
  {
    if ground.Some? && |ground.value.zones| > 0 {
      var a := ground.value;
      var zone := ZoneAt(a, pos);
      ZoneOfIsFirstMatch(ZoneDistances(a.zones, a.distOnPerimeter), a.distOnPerimeter(pos));
      var merged := Merge(stats, zone, 1);
      CountTotalMerge(stats, zone, 1);
      var outcome := Decide(stats, pos, ground).1;
      if outcome.Aim? && outcome.target.Some? {
        CountTotalMerge(merged, outcome.zone, 1);
      }
    }
  }

  /**
   * Counts that are never negative stay so, and the total that the
   * every-twentieth test looks at is then never negative either, so the
   * remainder taken here is the one Java's truncating `%` gives.
   */
  lemma CountsStayNonNegative(stats: map<int, int>, pos: Point, ground: Option<Arena>)
    requires ground.Some? ==> ValidArena(ground.value)
    requires AllNonNegative(stats)
    ensures AllNonNegative(Decide(stats, pos, ground).0)
    ensures ground.Some? && |ground.value.zones| > 0 ==>
              CountTotal(Merge(stats, ZoneAt(ground.value, pos), 1)) >= 1
  {
    if ground.Some? && |ground.value.zones| > 0 {
      var zone := ZoneAt(ground.value, pos);
      var merged := Merge(stats, zone, 1);
      assert AllNonNegative(merged) by {
        forall k | k in merged
          ensures merged[k] >= 0
        {
          assert Get(merged, k) == merged[k];
        }
      }
      CountTotalMerge(stats, zone, 1);
      CountTotalNonNegative(stats);
      var next := Decide(stats, pos, ground).0;
      forall k | k in next
        ensures next[k] >= 0
      {
        assert Get(next, k) == next[k];
        assert Get(next, k) >= Get(merged, k);
      }
    }
  }

  /**
   * A move is only ever decided on a collision that brings the total to 19
   * modulo 20, and it goes to the zone with the largest positive deficit
   * (the first one on ties), never to the zone just hit.
   */
  lemma MovesToMostStarvedZone(stats: map<int, int>, pos: Point, ground: Option<Arena>)
    requires ground.Some? ==> ValidArena(ground.value)
    requires Decide(stats, pos, ground).1.Aim?
    ensures ground.Some? && |ground.value.zones| > 0
    ensures var a := ground.value;
            var merged := Merge(stats, ZoneAt(a, pos), 1);
            var total := CountTotal(merged);
            var ds := Deficits(merged, total, a.zones);
            var best := Decide(stats, pos, ground).1.zone;
            total % 20 == 19 && total == CountTotal(stats) + 1
            && 0 <= best < |a.zones| && best != ZoneAt(a, pos)
            && ds[best] > 0.0
            && (forall i :: 0 <= i < best ==> ds[i] < ds[best])
            && (forall i :: best < i < |a.zones| ==> ds[i] <= ds[best])
  {
    var a := ground.value;
    var merged := Merge(stats, ZoneAt(a, pos), 1);
    CountTotalMerge(stats, ZoneAt(a, pos), 1);
    BestZoneIsFirstMaximum(Deficits(merged, CountTotal(merged), a.zones));
  }

  /**
   * V2's midpoint agrees with the wrapped midpoint of V3 and V4 whenever
   * it stays below L; otherwise it exceeds it by exactly L. For perimeter
   * distances it never reaches 3L/2.
   */
  lemma MidpointVersusWrapped(dPrev: real, dTarget: real, perimeter: real)
    requires perimeter > 0.0
    requires 0.0 <= dPrev < perimeter && 0.0 <= dTarget < perimeter
    ensures 0.0 <= Midpoint(dPrev, dTarget, perimeter) < 1.5 * perimeter
    ensures Midpoint(dPrev, dTarget, perimeter) < perimeter ==>
              Midpoint(dPrev, dTarget, perimeter) == WrappedMidpoint(dPrev, dTarget, perimeter)
    ensures Midpoint(dPrev, dTarget, perimeter) >= perimeter ==>
              Midpoint(dPrev, dTarget, perimeter) == WrappedMidpoint(dPrev, dTarget, perimeter) + perimeter
  {
  }

  /** On a perimeter of 100, the zone from 90 round to 30 gets the midpoint 110, past the end of the perimeter. */
  lemma MidpointCanPassPerimeter()
    ensures Midpoint(90.0, 30.0, 100.0) == 110.0
    ensures WrappedMidpoint(90.0, 30.0, 100.0) == 10.0
  {
  }
}
