/**
 * AutoMowerModelV4: the same smart transition as V3, but balanced on the
 * distance driven in each zone (in centimetres) instead of on collision
 * counts. A move inside one zone is credited to it in full; a move that
 * crosses from one zone into another is split half and half.
 */
module ZonesV4 {
  import opened Geometry
  import opened Zones
  import opened Ground

  const CRITICAL_DEFICIT_THRESHOLD: real := 0.08
  const SURPLUS_LEAVE_THRESHOLD: real := 0.05
  const MIN_DISTANCE_M_PER_STAY: real := 50.0
  const OPPORTUNISTIC_DIST_RATIO: real := 0.25
  /** Balancing waits for 10 m of driving in total. */
  const MIN_TOTAL_DIST_CM: real := 1000.0

  /** Map.getOrDefault(k, 0.0) on the distance statistics. */
  function GetDist(m: map<int, real>, k: int): real
  {
    if k in m then m[k] else 0.0
  }

  /** Map.merge(k, v, Double::sum). */
  function MergeDist(m: map<int, real>, k: int, v: real): (r: map<int, real>)
    ensures GetDist(r, k) == GetDist(m, k) + v
    ensures forall j :: j != k ==> GetDist(r, j) == GetDist(m, j)
    ensures r.Keys == m.Keys + {k}
  {
    m[k := GetDist(m, k) + v]
  }

  /** The sum of all distances. */
  ghost function DistanceTotal(m: map<int, real>): real
    decreases |m.Keys|
  {
    if m.Keys == {} then 0.0
    else
      var k := PickKey(m);
      m[k] + DistanceTotal(m - {k})
  }

  lemma {:induction false} DistanceTotalRemove(m: map<int, real>, k: int)
    requires k in m
    ensures DistanceTotal(m) == m[k] + DistanceTotal(m - {k})
    decreases |m.Keys|
  {
    var j := PickKey(m);
    if j != k {
      DistanceTotalRemove(m - {j}, k);
      DistanceTotalRemove(m - {k}, j);
      assert m - {j} - {k} == m - {k} - {j};
    }
  }

  /** Merging v into one entry raises the total by exactly v. */
  lemma DistanceTotalMerge(m: map<int, real>, k: int, v: real)
    ensures DistanceTotal(MergeDist(m, k, v)) == DistanceTotal(m) + v
  {
    var r := MergeDist(m, k, v);
    DistanceTotalRemove(r, k);
    if k in m {
      DistanceTotalRemove(m, k);
      assert r - {k} == m - {k};
    } else {
      assert r - {k} == m;
    }
  }

  /** The stream sum of the distances. */
  method SumDistances(m: map<int, real>) returns (t: real)
    ensures t == DistanceTotal(m)
  {
    t := 0.0;
    var rest := m;
    while rest.Keys != {}
      invariant t + DistanceTotal(rest) == DistanceTotal(m)
      decreases |rest.Keys|
    {
      KeyExists(rest);
      var k :| k in rest.Keys;
      DistanceTotalRemove(rest, k);
      t := t + rest[k];
      rest := rest - {k};
    }
  }

  /** getZoneAt: zone 0 without a ground model. */
  function ZoneOfPoint(ground: Option<Arena>, p: Point): (z: nat)
    ensures ground.Some? && |ground.value.zones| > 0 ==> z < |ground.value.zones|
  {
    if ground.None? then 0 else ZoneAt(ground.value, p)
  }

  /**
   * onMove: a move of distCm centimetres from p1 to p2 is credited to the
   * zone of both ends when they agree, and split half and half between
   * them when they do not. Without a ground model, or for a move of no
   * length, nothing changes; otherwise the total rises by distCm.
   */
  function OnMove(dstats: map<int, real>, distCm: real, p1: Point, p2: Point, ground: Option<Arena>)
    : (r: map<int, real>)
    ensures ground.None? || distCm <= 0.0 ==> r == dstats
    ensures ground.Some? && distCm > 0.0 ==>
              var z1 := ZoneOfPoint(ground, p1);
              var z2 := ZoneOfPoint(ground, p2);
              DistanceTotal(r) == DistanceTotal(dstats) + distCm
              && (z1 == z2 ==> GetDist(r, z1) == GetDist(dstats, z1) + distCm)
              && (z1 != z2 ==> GetDist(r, z1) == GetDist(dstats, z1) + distCm / 2.0
                               && GetDist(r, z2) == GetDist(dstats, z2) + distCm / 2.0)
              && forall j :: j != z1 && j != z2 ==> GetDist(r, j) == GetDist(dstats, j)
  {
    if ground.None? || distCm <= 0.0 then dstats
    else
      var z1 := ZoneOfPoint(ground, p1);
      var z2 := ZoneOfPoint(ground, p2);
      if z1 == z2 then
        DistanceTotalMerge(dstats, z1, distCm);
        MergeDist(dstats, z1, distCm)
      else
        var half := MergeDist(dstats, z1, distCm / 2.0);
        DistanceTotalMerge(dstats, z1, distCm / 2.0);
        DistanceTotalMerge(half, z2, distCm / 2.0);
        MergeDist(half, z2, distCm / 2.0)
  }

  /** Deficit of each zone: its target fraction minus its fraction of the distance. */
  function Deficits(dstats: map<int, real>, total: real, zones: seq<ZonePoint>): (ds: seq<real>)
    requires total > 0.0
    ensures |ds| == |zones|
    ensures forall i :: 0 <= i < |zones| ==>
              ds[i] == zones[i].percentage as real / 100.0 - GetDist(dstats, i) / total
  {
    seq(|zones|, i requires 0 <= i < |zones| =>
      zones[i].percentage as real / 100.0 - GetDist(dstats, i) / total)
  }

  /** How far the current zone is over its target fraction. */
  function Surplus(dstats: map<int, real>, total: real, zones: seq<ZonePoint>, zone: nat): real
    requires total > 0.0 && zone < |zones|
  {
    GetDist(dstats, zone) / total - zones[zone].percentage as real / 100.0
  }

  /**
   * The trigger of a move from `zone` to `best` with totalM metres driven,
   * the last move having happened at lastM metres.
   */
  predicate Triggers(a: Arena, totalM: real, lastM: real, zone: nat, best: int, surplus: real, maxDeficit: real, pos: Point)
    requires ValidArena(a) && zone < |a.zones|
  {
    best != -1 && best != zone
    && totalM - lastM >= MIN_DISTANCE_M_PER_STAY && surplus > 0.0
    && 0 <= best < |a.zones|
    && (maxDeficit > CRITICAL_DEFICIT_THRESHOLD
        || (ForwardDistance(a.distOnPerimeter(a.zones[best].point), a.distOnPerimeter(pos), a.perimeterLength)
              < a.perimeterLength * OPPORTUNISTIC_DIST_RATIO
            && surplus > SURPLUS_LEAVE_THRESHOLD))
  }

  /** The decision once at least 10 m have been driven. */
  function Evaluate(dstats: map<int, real>, totalCm: real, lastM: real, pos: Point, a: Arena)
    : (r: (real, Outcome))
    requires ValidArena(a) && |a.zones| > 0 && totalCm >= MIN_TOTAL_DIST_CM
  {
    var zone := ZoneAt(a, pos);
    var ds := Deficits(dstats, totalCm, a.zones);
    BestZoneIsFirstMaximum(ds);
    var best := BestZone(ds);
    var totalM := totalCm / 100.0;
    if !Triggers(a, totalM, lastM, zone, best, Surplus(dstats, totalCm, a.zones, zone), MaxDeficit(ds), pos)
    then (lastM, Keep)
    else (totalM, Aim(best, a.pointAtDist(ZoneMidpoint(a, best)), Snap(a, pos), false))
  }

  /**
   * The whole of onCollision: the new lastTransitionTotalDistanceM and what
   * the mower has to do. The distance statistics never change here.
   */
  ghost function Decide(dstats: map<int, real>, lastM: real, pos: Point, ground: Option<Arena>)
    : (r: (real, Outcome))
    requires ground.Some? ==> ValidArena(ground.value)
  {
    if ground.None? || |ground.value.zones| == 0 || DistanceTotal(dstats) < MIN_TOTAL_DIST_CM then (lastM, Keep)
    else Evaluate(dstats, DistanceTotal(dstats), lastM, pos, ground.value)
  }

  /** onCollision of AutoMowerModelV4. */
  method OnCollision(dstats: map<int, real>, lastM: real, pos: Point, ground: Option<Arena>)
    returns (nextLastM: real, outcome: Outcome)
    requires ground.Some? ==> ValidArena(ground.value)
    ensures (nextLastM, outcome) == Decide(dstats, lastM, pos, ground)
  {
    if ground.None? {
      return lastM, Keep;
    }
    var a := ground.value;
    var zones := a.zones;
    if |zones| == 0 {
      return lastM, Keep;
    }
    var totalDistCm := SumDistances(dstats);
    if totalDistCm < MIN_TOTAL_DIST_CM {
      return lastM, Keep;
    }
    nextLastM, outcome := Assess(dstats, totalDistCm, lastM, pos, a);
  }

  /** onCollision once at least 10 m have been driven (see Evaluate). */
  method Assess(dstats: map<int, real>, totalDistCm: real, lastM: real, pos: Point, a: Arena)
    returns (nextLastM: real, outcome: Outcome)
    requires ValidArena(a) && |a.zones| > 0 && totalDistCm >= MIN_TOTAL_DIST_CM
    ensures (nextLastM, outcome) == Evaluate(dstats, totalDistCm, lastM, pos, a)
  {
    var zones := a.zones;
    var totalDistM := totalDistCm / 100.0;
    var d := a.distOnPerimeter(pos);
    var currentZone := LocateZone(zones, a.distOnPerimeter, d);
    assert currentZone == ZoneAt(a, pos);
    var currentZoneSurplusPct := GetDist(dstats, currentZone) / totalDistCm
                                 - zones[currentZone].percentage as real / 100.0;
    var ds := Deficits(dstats, totalDistCm, zones);
    var bestTargetZone, maxDeficitPct := FindBestZone(ds);
    BestZoneIsFirstMaximum(ds);
    var shouldTransition := CheckTrigger(a, totalDistM, lastM, currentZone, bestTargetZone,
                                         currentZoneSurplusPct, maxDeficitPct, pos);
    assert currentZoneSurplusPct == Surplus(dstats, totalDistCm, zones, currentZone);
    assert shouldTransition == Triggers(a, totalDistM, lastM, ZoneAt(a, pos), BestZone(ds),
                                        Surplus(dstats, totalDistCm, zones, ZoneAt(a, pos)), MaxDeficit(ds), pos);
    if !shouldTransition {
      return lastM, Keep;
    }
    var target := AimAtZone(a, bestTargetZone);
    var snap := a.pointAtDist(a.distOnPerimeter(pos)).value;
    nextLastM, outcome := totalDistM, Aim(bestTargetZone, target, snap, false);
  }

  /** The nested conditions of onCollision that decide whether to move. */
  method CheckTrigger(a: Arena, totalDistM: real, lastM: real, currentZone: nat, bestTargetZone: int,
                      currentZoneSurplusPct: real, maxDeficitPct: real, pos: Point)
    returns (shouldTransition: bool)
    requires ValidArena(a) && currentZone < |a.zones| && -1 <= bestTargetZone < |a.zones|
    ensures shouldTransition == Triggers(a, totalDistM, lastM, currentZone, bestTargetZone,
                                         currentZoneSurplusPct, maxDeficitPct, pos)
  {
    shouldTransition := false;
    if bestTargetZone != -1 && bestTargetZone != currentZone {
      var stayLengthM := totalDistM - lastM;
      if stayLengthM >= MIN_DISTANCE_M_PER_STAY && currentZoneSurplusPct > 0.0 {
        var perimeterLen := a.perimeterLength;
        var dTarget := a.distOnPerimeter(a.zones[bestTargetZone].point);
        var dCurrent := a.distOnPerimeter(pos);
        var distToTargetPerim := FMod(dTarget - dCurrent + perimeterLen, perimeterLen);
        var opportunistic := distToTargetPerim < perimeterLen * OPPORTUNISTIC_DIST_RATIO;
        if maxDeficitPct > CRITICAL_DEFICIT_THRESHOLD {
          shouldTransition := true;
        } else if opportunistic && currentZoneSurplusPct > SURPLUS_LEAVE_THRESHOLD {
          shouldTransition := true;
        }
      }
    }
  }

  /**
   * Before 10 m of driving, without a ground model or without zones,
   * nothing moves. A move goes to a zone other than the current one, with
   * a point always found, after at least 50 m since the previous move and
   * only out of a zone over its share; it records the total in metres and
   * adds no artificial distance.
   */
  lemma MoveConditions(dstats: map<int, real>, lastM: real, pos: Point, ground: Option<Arena>)
    requires ground.Some? ==> ValidArena(ground.value)
    ensures ground.None? || |ground.value.zones| == 0 || DistanceTotal(dstats) < 1000.0 ==>
              Decide(dstats, lastM, pos, ground) == (lastM, Keep)
    ensures Decide(dstats, lastM, pos, ground).1.Aim? ==>
              var (nextLastM, outcome) := Decide(dstats, lastM, pos, ground);
              var a := ground.value;
              var total := DistanceTotal(dstats);
              var zone := ZoneAt(a, pos);
              |a.zones| > 0 && total >= 1000.0
              && nextLastM == total / 100.0
              && nextLastM - lastM >= 50.0
              && 0 <= outcome.zone < |a.zones| && outcome.zone != zone
              && outcome.target.Some? && !outcome.artificial
              && Surplus(dstats, total, a.zones, zone) > 0.0
              && Deficits(dstats, total, a.zones)[outcome.zone] > 0.0
  {
    if ground.Some? && |ground.value.zones| > 0 && DistanceTotal(dstats) >= 1000.0 {
      var a := ground.value;
      BestZoneIsFirstMaximum(Deficits(dstats, DistanceTotal(dstats), a.zones));
    }
  }
}
