/**
 * AutoMowerModelV3: per-zone collision counts with a smarter trigger. The
 * mower leaves its zone only after a minimum stay, only while that zone
 * is over its share, and only when the most starved zone is critically
 * behind or lies close ahead along the perimeter.
 */
module ZonesV3 {
  import opened Geometry
  import opened Zones
  import opened Ground

  const CRITICAL_DEFICIT_THRESHOLD: real := 0.08
  const SURPLUS_LEAVE_THRESHOLD: real := 0.05
  const MIN_COLLISIONS_PER_STAY: int := 15
  const OPPORTUNISTIC_DIST_RATIO: real := 0.25

  /** Share of zone i in the counts, as a fraction of the total. */
  function ActualShare(stats: map<int, int>, total: int, i: int): real
    requires total > 0
  {
    Get(stats, i) as real / total as real
  }

  /** Deficit of each zone: its target fraction minus its actual fraction. */
  function Deficits(stats: map<int, int>, total: int, zones: seq<ZonePoint>): (ds: seq<real>)
    requires total > 0
    ensures |ds| == |zones|
    ensures forall i :: 0 <= i < |zones| ==>
              ds[i] == zones[i].percentage as real / 100.0 - ActualShare(stats, total, i)
  {
    seq(|zones|, i requires 0 <= i < |zones| =>
      zones[i].percentage as real / 100.0 - ActualShare(stats, total, i))
  }

  /** How far the current zone is over its target fraction. */
  function Surplus(stats: map<int, int>, total: int, zones: seq<ZonePoint>, zone: nat): real
    requires total > 0 && zone < |zones|
  {
    ActualShare(stats, total, zone) - zones[zone].percentage as real / 100.0
  }

  /**
   * The trigger of a transition from `zone` to `best` after `total`
   * collisions, the last transition having happened at `last`.
   */
  predicate Triggers(a: Arena, total: int, last: int, zone: nat, best: int, surplus: real, maxDeficit: real, pos: Point)
    requires ValidArena(a) && zone < |a.zones|
  {
    total > 20 && best != -1 && best != zone
    && total - last >= MIN_COLLISIONS_PER_STAY && surplus > 0.0
    && 0 <= best < |a.zones|
    && (maxDeficit > CRITICAL_DEFICIT_THRESHOLD
        || (ForwardDistance(a.distOnPerimeter(a.zones[best].point), a.distOnPerimeter(pos), a.perimeterLength)
              < a.perimeterLength * OPPORTUNISTIC_DIST_RATIO
            && surplus > SURPLUS_LEAVE_THRESHOLD))
  }

  /** The decision on the counts after the collision was merged. */
  function Evaluate(merged: map<int, int>, total: int, last: int, zone: nat, pos: Point, a: Arena)
    : (r: (map<int, int>, int, Outcome))
    requires ValidArena(a) && zone < |a.zones| && total > 0
  {
    var ds := Deficits(merged, total, a.zones);
    BestZoneIsFirstMaximum(ds);
    var best := BestZone(ds);
    var surplus := Surplus(merged, total, a.zones, zone);
    if !Triggers(a, total, last, zone, best, surplus, MaxDeficit(ds), pos) then (merged, last, Keep)
    else
      var target := a.pointAtDist(ZoneMidpoint(a, best));
      if target.None? then (merged, total, Aim(best, None, Snap(a, pos), true))
      else (Merge(merged, best, 1), total, Aim(best, target, Snap(a, pos), true))
  }

  /**
   * The total number of collisions once the new one has been merged in:
   * one more than before, and positive because every recorded count is.
   */
  ghost function TotalAfter(stats: map<int, int>, zone: int): (t: int)
    requires AllPositive(stats)
    ensures t == CountTotal(stats) + 1
    ensures t >= 1
  {
    CountTotalMerge(stats, zone, 1);
    CountTotalPositive(stats);
    CountTotal(Merge(stats, zone, 1))
  }

  /**
   * The whole of onCollision: the new counts, the new
   * lastTransitionCollisionCount and what the mower has to do.
   */
  ghost function Decide(stats: map<int, int>, last: int, pos: Point, ground: Option<Arena>)
    : (r: (map<int, int>, int, Outcome))
    requires AllPositive(stats)
    requires ground.Some? ==> ValidArena(ground.value)
  {
    if ground.None? || |ground.value.zones| == 0 then (stats, last, Keep)
    else
      var a := ground.value;
      var zone := ZoneAt(a, pos);
      Evaluate(Merge(stats, zone, 1), TotalAfter(stats, zone), last, zone, pos, a)
  }

  /** onCollision of AutoMowerModelV3. */
  method OnCollision(stats: map<int, int>, last: int, pos: Point, ground: Option<Arena>)
    returns (next: map<int, int>, nextLast: int, outcome: Outcome)
    requires AllPositive(stats)
    requires ground.Some? ==> ValidArena(ground.value)
    ensures (next, nextLast, outcome) == Decide(stats, last, pos, ground)
    ensures AllPositive(next)
  {
    if ground.None? {
      return stats, last, Keep;
    }
    var a := ground.value;
    var zones := a.zones;
    if |zones| == 0 {
      return stats, last, Keep;
    }
    var d := a.distOnPerimeter(pos);
    var zoneIdx := LocateZone(zones, a.distOnPerimeter, d);
    var merged := Merge(stats, zoneIdx, 1);
    var totalCollisions := SumCounts(merged);
    assert zoneIdx == ZoneAt(a, pos);
    assert totalCollisions == TotalAfter(stats, zoneIdx);
    next, nextLast, outcome := EvaluateStep(merged, totalCollisions, last, zoneIdx, pos, a);
    if outcome.Aim? && outcome.target.Some? {
      assert next == Merge(merged, outcome.zone, 1);
    }
  }

  /** The imbalance check and transition of onCollision, after the count. */
  method EvaluateStep(merged: map<int, int>, totalCollisions: int, last: int, zoneIdx: nat, pos: Point, a: Arena)
    returns (next: map<int, int>, nextLast: int, outcome: Outcome)
    requires ValidArena(a) && zoneIdx < |a.zones| && totalCollisions > 0
    ensures (next, nextLast, outcome) == Evaluate(merged, totalCollisions, last, zoneIdx, pos, a)
  {
    var zones := a.zones;
    var currentZoneSurplus := Get(merged, zoneIdx) as real / totalCollisions as real
                              - zones[zoneIdx].percentage as real / 100.0;
    var ds := Deficits(merged, totalCollisions, zones);
    var bestTargetZone, maxDeficitValue := FindBestZone(ds);
    BestZoneIsFirstMaximum(ds);
    var shouldTransition := CheckTrigger(a, totalCollisions, last, zoneIdx, bestTargetZone,
                                         currentZoneSurplus, maxDeficitValue, pos);
    next, nextLast, outcome := merged, last, Keep;
    if shouldTransition {
      nextLast := totalCollisions;
      next, outcome := TransitionStep(merged, bestTargetZone, pos, a);
    }
  }

  /** The three nested conditions of onCollision that decide whether to move. */
  method CheckTrigger(a: Arena, totalCollisions: int, last: int, zoneIdx: nat, bestTargetZone: int,
                      currentZoneSurplus: real, maxDeficitValue: real, pos: Point)
    returns (shouldTransition: bool)
    requires ValidArena(a) && zoneIdx < |a.zones| && -1 <= bestTargetZone < |a.zones|
    ensures shouldTransition == Triggers(a, totalCollisions, last, zoneIdx, bestTargetZone,
                                         currentZoneSurplus, maxDeficitValue, pos)
  {
    shouldTransition := false;
    if totalCollisions > 20 && bestTargetZone != -1 && bestTargetZone != zoneIdx {
      var stayLength := totalCollisions - last;
      if stayLength >= MIN_COLLISIONS_PER_STAY && currentZoneSurplus > 0.0 {
        var perimeterLen := a.perimeterLength;
        var dTarget := a.distOnPerimeter(a.zones[bestTargetZone].point);
        var dCurrent := a.distOnPerimeter(pos);
        var distToTarget := FMod(dTarget - dCurrent + perimeterLen, perimeterLen);
        var opportunistic := distToTarget < perimeterLen * OPPORTUNISTIC_DIST_RATIO;
        if maxDeficitValue > CRITICAL_DEFICIT_THRESHOLD {
          shouldTransition := true;
        } else if opportunistic && currentZoneSurplus > SURPLUS_LEAVE_THRESHOLD {
          shouldTransition := true;
        }
      }
    }
  }

  /** The move: aim at the midpoint of the target zone and count one artificial collision there. */
  method TransitionStep(merged: map<int, int>, bestTargetZone: nat, pos: Point, a: Arena)
    returns (next: map<int, int>, outcome: Outcome)
    requires ValidArena(a) && bestTargetZone < |a.zones|
    ensures var target := a.pointAtDist(ZoneMidpoint(a, bestTargetZone));
            outcome == Aim(bestTargetZone, target, Snap(a, pos), true)
            && next == (if target.Some? then Merge(merged, bestTargetZone, 1) else merged)
  {
    var target := AimAtZone(a, bestTargetZone);
    var snap := a.pointAtDist(a.distOnPerimeter(pos)).value;
    next := merged;
    if target.Some? {
      next := Merge(next, bestTargetZone, 1);
    }
    outcome := Aim(bestTargetZone, target, snap, true);
  }

  /**
   * A transition needs more than 20 collisions, a target other than the
   * zone just hit, a stay of at least 15 collisions since the last
   * transition and a current zone over its share; given those it happens
   * exactly when the deficit is critical or the target lies less than a
   * quarter of the perimeter ahead while the surplus exceeds 5%.
   */
  lemma TransitionTrigger(stats: map<int, int>, last: int, pos: Point, a: Arena)
    requires AllPositive(stats)
    requires ValidArena(a) && |a.zones| > 0
    ensures var zone := ZoneAt(a, pos);
            var merged := Merge(stats, zone, 1);
            var total := TotalAfter(stats, zone);
            var ds := Deficits(merged, total, a.zones);
            var best := BestZone(ds);
            var surplus := Surplus(merged, total, a.zones, zone);
            Decide(stats, last, pos, Some(a)).2.Aim? <==>
              total > 20 && best != -1 && best != zone
              && total - last >= 15 && surplus > 0.0
              && 0 <= best < |a.zones|
              && (MaxDeficit(ds) > 0.08
                  || (ForwardDistance(a.distOnPerimeter(a.zones[best].point), a.distOnPerimeter(pos), a.perimeterLength)
                        < a.perimeterLength / 4.0
                      && surplus > 0.05))
  {
  }

  /**
   * On a transition lastTransitionCollisionCount becomes the total before
   * the artificial collision, the target zone gets that one collision, the
   * target is a zone other than the one just hit, and the wrapped midpoint
   * always names a point, so the move always starts.
   */
  lemma TransitionBookkeeping(stats: map<int, int>, last: int, pos: Point, a: Arena)
    requires AllPositive(stats)
    requires ValidArena(a)
    requires Decide(stats, last, pos, Some(a)).2.Aim?
    ensures |a.zones| > 0
    ensures var (next, nextLast, outcome) := Decide(stats, last, pos, Some(a));
            var zone := ZoneAt(a, pos);
            nextLast == CountTotal(stats) + 1
            && outcome.target.Some? && outcome.artificial
            && outcome.zone != zone && 0 <= outcome.zone < |a.zones|
            && next == Merge(Merge(stats, zone, 1), outcome.zone, 1)
            && CountTotal(next) == CountTotal(stats) + 2
  {
    var zone := ZoneAt(a, pos);
    var merged := Merge(stats, zone, 1);
    var total := TotalAfter(stats, zone);
    var ds := Deficits(merged, total, a.zones);
    BestZoneIsFirstMaximum(ds);
    var best := BestZone(ds);
    CountTotalMerge(merged, best, 1);
  }

  /**
   * Without a ground model or without zones a collision changes nothing.
   * Otherwise its zone count rises by one; when the mower stays, that is
   * the only change and the total rises by one.
   */
  lemma CountsEachCollision(stats: map<int, int>, last: int, pos: Point, ground: Option<Arena>)
    requires AllPositive(stats)
    requires ground.Some? ==> ValidArena(ground.value)
    ensures ground.None? || |ground.value.zones| == 0 ==> Decide(stats, last, pos, ground) == (stats, last, Keep)
    ensures ground.Some? && |ground.value.zones| > 0 ==>
              var (next, nextLast, outcome) := Decide(stats, last, pos, ground);
              var zone := ZoneAt(ground.value, pos);
              Get(next, zone) == Get(stats, zone) + 1
              && (outcome.Keep? ==> next == Merge(stats, zone, 1) && nextLast == last
                                    && CountTotal(next) == CountTotal(stats) + 1)
  {
    if ground.Some? && |ground.value.zones| > 0 {
      var a := ground.value;
      var zone := ZoneAt(a, pos);
      CountTotalMerge(stats, zone, 1);
      var outcome := Decide(stats, last, pos, ground).2;
      if outcome.Aim? {
        TransitionBookkeeping(stats, last, pos, a);
      }
    }
  }
}
