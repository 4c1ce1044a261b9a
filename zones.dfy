/**
 * What the three zone-balancing mowers share: the zone points, the lookup
 * of the zone a perimeter distance falls in, the per-zone collision counts,
 * the search for the most starved zone and the perimeter arithmetic of a
 * transition.
 *
 * A zone point marks the END of its zone on the perimeter: zone 0 covers
 * distances up to the first zone point (and everything past the last one),
 * zone i covers the half-open interval after zone point i-1 up to zone
 * point i.
 */
module Zones {
  import opened Geometry

  /** ZonePoint: a marker on the border and the share of work its zone should get, in percent. */
  datatype ZonePoint = ZonePoint(point: Point, percentage: int)

  /** Perimeter distance of every zone point. */
  function ZoneDistances(zones: seq<ZonePoint>, dist: Point -> real): (r: seq<real>)
    ensures |r| == |zones|
    ensures forall i :: 0 <= i < |zones| ==> r[i] == dist(zones[i].point)
  {
    seq(|zones|, i requires 0 <= i < |zones| => dist(zones[i].point))
  }

  /** Distance d belongs to zone i: up to zd[0] for zone 0, (zd[i-1], zd[i]] otherwise. */
  predicate InZone(zd: seq<real>, d: real, i: nat)
    requires i < |zd|
  {
    if i == 0 then d <= zd[0] else zd[i - 1] < d <= zd[i]
  }

  /** The first zone from index i on that contains d; 0 when none does. */
  function ZoneFrom(zd: seq<real>, d: real, i: nat): (z: nat)
    requires i <= |zd|
    decreases |zd| - i
  {
    if i == |zd| then 0 else if InZone(zd, d, i) then i else ZoneFrom(zd, d, i + 1)
  }

  /** The zone of perimeter distance d: the first matching interval, zone 0 when none matches. */
  function ZoneOf(zd: seq<real>, d: real): nat
  {
    ZoneFrom(zd, d, 0)
  }

  lemma {:induction false} ZoneFromFacts(zd: seq<real>, d: real, i: nat)
    requires i <= |zd|
    ensures ZoneFrom(zd, d, i) == 0 || i <= ZoneFrom(zd, d, i) < |zd|
    ensures (exists k :: i <= k < |zd| && InZone(zd, d, k)) ==>
              i <= ZoneFrom(zd, d, i) < |zd| && InZone(zd, d, ZoneFrom(zd, d, i))
              && forall j :: i <= j < ZoneFrom(zd, d, i) ==> !InZone(zd, d, j)
    ensures (forall k :: i <= k < |zd| ==> !InZone(zd, d, k)) ==> ZoneFrom(zd, d, i) == 0
    decreases |zd| - i
  {
    if i < |zd| && !InZone(zd, d, i) {
      ZoneFromFacts(zd, d, i + 1);
    }
  }

  /**
   * The zone lookup is a first-match search: the result is a valid index,
   * it is the first interval that contains d when there is one, and zone 0
   * otherwise.
   */
  lemma ZoneOfIsFirstMatch(zd: seq<real>, d: real)
    ensures |zd| > 0 ==> ZoneOf(zd, d) < |zd|
    ensures |zd| == 0 ==> ZoneOf(zd, d) == 0
    ensures (exists k :: 0 <= k < |zd| && InZone(zd, d, k)) ==>
              InZone(zd, d, ZoneOf(zd, d)) && forall j :: 0 <= j < ZoneOf(zd, d) ==> !InZone(zd, d, j)
    ensures (forall k :: 0 <= k < |zd| ==> !InZone(zd, d, k)) ==> ZoneOf(zd, d) == 0
  {
    ZoneFromFacts(zd, d, 0);
  }

  predicate Ascending(zd: seq<real>)
  {
    forall i, j :: 0 <= i < j < |zd| ==> zd[i] <= zd[j]
  }

  /**
   * With zone points listed in perimeter order the intervals do not
   * overlap, so the first match is the only one: zone i > 0 is exactly the
   * interval (zd[i-1], zd[i]], and zone 0 is what lies up to zd[0] or past
   * the last zone point.
   */
  lemma ZoneOfAscending(zd: seq<real>, d: real, i: nat)
    requires Ascending(zd) && 0 < i < |zd|
    ensures ZoneOf(zd, d) == i <==> zd[i - 1] < d <= zd[i]
    ensures ZoneOf(zd, d) == 0 <==> d <= zd[0] || d > zd[|zd| - 1]
  {
    ZoneOfIsFirstMatch(zd, d);
    if zd[i - 1] < d <= zd[i] {
      assert InZone(zd, d, i);
    }
    if d > zd[0] && d <= zd[|zd| - 1] {
      var k := FirstAtLeast(zd, d, 0);
      assert InZone(zd, d, k);
    }
  }

  /** In an ascending list whose last entry reaches d, the first entry that reaches d. */
  lemma {:induction false} FirstAtLeastExists(zd: seq<real>, d: real, i: nat)
    requires Ascending(zd) && 0 < |zd| && i < |zd| && d <= zd[|zd| - 1]
    requires i == 0 || zd[i - 1] < d
    ensures exists k :: i <= k < |zd| && d <= zd[k] && (k == 0 || zd[k - 1] < d)
    decreases |zd| - i
  {
    if d > zd[i] {
      FirstAtLeastExists(zd, d, i + 1);
    }
  }

  function FirstAtLeast(zd: seq<real>, d: real, i: nat): (k: nat)
    requires Ascending(zd) && 0 < |zd| && i < |zd| && d <= zd[|zd| - 1]
    requires i == 0 || zd[i - 1] < d
    ensures i <= k < |zd| && d <= zd[k] && (k == 0 || zd[k - 1] < d)
    decreases |zd| - i
  {
    if d <= zd[i] then i else FirstAtLeast(zd, d, i + 1)
  }

  /**
   * The lookup loop of onCollision (and getZoneAt): the perimeter distance
   * of each zone point is asked for afresh, and the first match wins.
   */
  method LocateZone(zones: seq<ZonePoint>, dist: Point -> real, d: real) returns (z: nat)
    ensures z == ZoneOf(ZoneDistances(zones, dist), d)
  {
    ghost var zd := ZoneDistances(zones, dist);
    ZoneFromFacts(zd, d, 0);
    z := 0;
    var found := false;
    var i := 0;
    while i < |zones| && !found
      invariant 0 <= i <= |zones|
      invariant !found ==> ZoneFrom(zd, d, i) == ZoneOf(zd, d) && z == 0
      invariant found ==> z == ZoneOf(zd, d)
    {
      var ziDist := dist(zones[i].point);
      if i == 0 {
        if d <= ziDist {
          z := 0;
          found := true;
        }
      } else {
        var prevZiDist := dist(zones[i - 1].point);
        if d > prevZiDist && d <= ziDist {
          z := i;
          found := true;
        }
      }
      i := i + 1;
    }
    if !found {
      z := 0;
    }
  }

  /** Map.getOrDefault(k, 0). */
  function Get(m: map<int, int>, k: int): int
  {
    if k in m then m[k] else 0
  }

  /** Map.merge(k, v, Integer::sum): add v to the entry of k, creating it when absent. */
  function Merge(m: map<int, int>, k: int, v: int): (r: map<int, int>)
    ensures k in r && Get(r, k) == Get(m, k) + v
    ensures forall j :: j != k ==> Get(r, j) == Get(m, j)
    ensures r.Keys == m.Keys + {k}
  {
    m[k := Get(m, k) + v]
  }

  lemma KeyExists<V>(m: map<int, V>)
    requires m.Keys != {}
    ensures exists k :: k in m.Keys
  {
    if forall k :: k !in m.Keys {
      assert false;
    }
  }

  /** Some key of a non-empty map. */
  ghost function PickKey<V>(m: map<int, V>): (k: int)
    requires m.Keys != {}
    ensures k in m.Keys
  {
    KeyExists(m);
    var k :| k in m.Keys; k
  }

  /** The sum of all counts. */
  ghost function CountTotal(m: map<int, int>): int
    decreases |m.Keys|
  {
    if m.Keys == {} then 0
    else
      var k := PickKey(m);
      m[k] + CountTotal(m - {k})
  }

  lemma {:induction false} CountTotalRemove(m: map<int, int>, k: int)
    requires k in m
    ensures CountTotal(m) == m[k] + CountTotal(m - {k})
    decreases |m.Keys|
  {
    var j := PickKey(m);
    if j != k {
      CountTotalRemove(m - {j}, k);
      CountTotalRemove(m - {k}, j);
      assert m - {j} - {k} == m - {k} - {j};
    }
  }

  /** Merging v into one entry raises the total by exactly v. */
  lemma CountTotalMerge(m: map<int, int>, k: int, v: int)
    ensures CountTotal(Merge(m, k, v)) == CountTotal(m) + v
  {
    var r := Merge(m, k, v);
    CountTotalRemove(r, k);
    if k in m {
      CountTotalRemove(m, k);
      assert r - {k} == m - {k};
    } else {
      assert r - {k} == m;
    }
  }

  /** Counts that were only ever raised are positive, and so is their total once there is one. */
  predicate AllPositive(m: map<int, int>)
  {
    forall k :: k in m ==> m[k] > 0
  }

  lemma {:induction false} CountTotalPositive(m: map<int, int>)
    requires AllPositive(m)
    ensures CountTotal(m) >= |m.Keys|
    decreases |m.Keys|
  {
    if m.Keys != {} {
      var k := PickKey(m);
      CountTotalPositive(m - {k});
    }
  }

  /** Counts that start empty and are only ever raised never go below zero. */
  predicate AllNonNegative(m: map<int, int>)
  {
    forall k :: k in m ==> m[k] >= 0
  }

  lemma {:induction false} CountTotalNonNegative(m: map<int, int>)
    requires AllNonNegative(m)
    ensures CountTotal(m) >= 0
    decreases |m.Keys|
  {
    if m.Keys != {} {
      var k := PickKey(m);
      CountTotalNonNegative(m - {k});
    }
  }

  /** The stream sum of the counts. */
  method SumCounts(m: map<int, int>) returns (t: int)
    ensures t == CountTotal(m)
  {
    t := 0;
    var rest := m;
    while rest.Keys != {}
      invariant t + CountTotal(rest) == CountTotal(m)
      decreases |rest.Keys|
    {
      KeyExists(rest);
      var k :| k in rest.Keys;
      CountTotalRemove(rest, k);
      t := t + rest[k];
      rest := rest - {k};
    }
  }

  /**
   * The search for the most starved zone, after its first k candidates:
   * the best index so far (-1 for none) and its deficit (0 for none).
   * A candidate replaces the best only when strictly larger.
   */
  function Scan(ds: seq<real>, k: nat): (r: (int, real))
    requires k <= |ds|
  {
    if k == 0 then (-1, 0.0)
    else
      var prev := Scan(ds, k - 1);
      if ds[k - 1] > prev.1 then (k - 1, ds[k - 1]) else prev
  }

  function BestZone(ds: seq<real>): int
  {
    Scan(ds, |ds|).0
  }

  function MaxDeficit(ds: seq<real>): real
  {
    Scan(ds, |ds|).1
  }

  lemma {:induction false} ScanFacts(ds: seq<real>, k: nat)
    requires k <= |ds|
    ensures Scan(ds, k).0 == -1 <==> forall i :: 0 <= i < k ==> ds[i] <= 0.0
    ensures Scan(ds, k).0 == -1 ==> Scan(ds, k).1 == 0.0
    ensures Scan(ds, k).0 != -1 ==>
              var b := Scan(ds, k).0;
              0 <= b < k && Scan(ds, k).1 == ds[b] && ds[b] > 0.0
              && (forall i :: 0 <= i < b ==> ds[i] < ds[b])
              && (forall i :: b < i < k ==> ds[i] <= ds[b])
  {
    if k > 0 {
      ScanFacts(ds, k - 1);
    }
  }

  /**
   * The chosen zone has the largest positive deficit, the first such index
   * on ties; -1 (with deficit 0) exactly when no deficit is positive.
   */
  lemma BestZoneIsFirstMaximum(ds: seq<real>)
    ensures BestZone(ds) == -1 <==> forall i :: 0 <= i < |ds| ==> ds[i] <= 0.0
    ensures BestZone(ds) == -1 ==> MaxDeficit(ds) == 0.0
    ensures BestZone(ds) != -1 ==>
              0 <= BestZone(ds) < |ds| && MaxDeficit(ds) == ds[BestZone(ds)] > 0.0
              && (forall i :: 0 <= i < BestZone(ds) ==> ds[i] < ds[BestZone(ds)])
              && (forall i :: BestZone(ds) < i < |ds| ==> ds[i] <= ds[BestZone(ds)])
  {
    ScanFacts(ds, |ds|);
  }

  /** The loop that looks for the most starved zone. */
  method FindBestZone(ds: seq<real>) returns (best: int, maxDeficit: real)
    ensures best == BestZone(ds) && maxDeficit == MaxDeficit(ds)
  {
    best, maxDeficit := -1, 0.0;
    var i := 0;
    while i < |ds|
      invariant 0 <= i <= |ds|
      invariant (best, maxDeficit) == Scan(ds, i)
    {
      if ds[i] > maxDeficit {
        maxDeficit := ds[i];
        best := i;
      }
      i := i + 1;
    }
  }

  /** Index of the zone before zone i, cyclically: (i - 1 + n) % n. */
  function PrevZone(i: int, n: int): (j: int)
    requires 0 <= i < n
    ensures 0 <= j < n
    ensures j == (if i == 0 then n - 1 else i - 1)
  {
    (i - 1 + n) % n
  }

  /**
   * Java's % on doubles (fmod): the remainder keeps the sign of x. For the
   * non-negative arguments used here it is the floored remainder.
   */
  function FMod(x: real, m: real): real
    requires m > 0.0
  {
    if x >= 0.0 then x - m * (x / m).Floor as real
    else -((-x) - m * ((-x) / m).Floor as real)
  }

  lemma QuotientBounds(x: real, m: real, lo: real, hi: real)
    requires m > 0.0 && lo * m <= x < hi * m
    ensures lo <= x / m < hi
  {
    assert (x / m) * m == x;
  }

  /**
   * How far ahead the target zone point lies along the perimeter,
   * (dTarget - dCurrent + L) % L.
   */
  function ForwardDistance(dTarget: real, dCurrent: real, perimeter: real): real
    requires perimeter > 0.0
  {
    FMod(dTarget - dCurrent + perimeter, perimeter)
  }

  /**
   * For two perimeter distances the forward distance lies in [0, L) and is
   * the distance from dCurrent to dTarget walking forwards, wrapping at L.
   */
  lemma ForwardDistanceRange(dTarget: real, dCurrent: real, perimeter: real)
    requires perimeter > 0.0
    requires 0.0 <= dTarget < perimeter && 0.0 <= dCurrent < perimeter
    ensures 0.0 <= ForwardDistance(dTarget, dCurrent, perimeter) < perimeter
    ensures dTarget >= dCurrent ==> ForwardDistance(dTarget, dCurrent, perimeter) == dTarget - dCurrent
    ensures dTarget < dCurrent ==> ForwardDistance(dTarget, dCurrent, perimeter) == dTarget - dCurrent + perimeter
  {
    var x := dTarget - dCurrent + perimeter;
    assert 0.0 < x < 2.0 * perimeter;
    if x >= perimeter {
      QuotientBounds(x, perimeter, 1.0, 2.0);
      assert (x / perimeter).Floor == 1;
    } else {
      QuotientBounds(x, perimeter, 0.0, 1.0);
      assert (x / perimeter).Floor == 0;
    }
  }

  /**
   * The midpoint of a zone on the perimeter as AutoMowerModelV3 and V4
   * compute it: halfway from the previous zone point to the target zone
   * point, going forwards past L when the zone wraps, then brought back
   * below L.
   */
  function WrappedMidpoint(dPrev: real, dTarget: real, perimeter: real): real
  {
    if dTarget < dPrev then
      var m := (dPrev + dTarget + perimeter) / 2.0;
      if m >= perimeter then m - perimeter else m
    else (dPrev + dTarget) / 2.0
  }

  /**
   * The wrapped midpoint is a perimeter distance, and it lies halfway
   * along the forward walk from the previous zone point to the target one.
   */
  lemma WrappedMidpointRange(dPrev: real, dTarget: real, perimeter: real)
    requires perimeter > 0.0
    requires 0.0 <= dPrev < perimeter && 0.0 <= dTarget < perimeter
    ensures 0.0 <= WrappedMidpoint(dPrev, dTarget, perimeter) < perimeter
    ensures ForwardDistance(WrappedMidpoint(dPrev, dTarget, perimeter), dPrev, perimeter) * 2.0
            == ForwardDistance(dTarget, dPrev, perimeter)
  {
    var m := WrappedMidpoint(dPrev, dTarget, perimeter);
    ForwardDistanceRange(dTarget, dPrev, perimeter);
    ForwardDistanceRange(m, dPrev, perimeter);
  }

  /** What onCollision asks of the mower. */
  datatype Outcome =
    | Keep
      /**
       * transitionTargetPoint is set to target; when it is a point the mower
       * switches to TRANSITIONING_TO_ZONE and snaps to `snap`, and when
       * `artificial` holds the global collision counter also goes up by one.
       */
    | Aim(zone: int, target: Option<Point>, snap: Point, artificial: bool)
}
