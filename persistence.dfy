/**
 * ProjectData: the plain records a project is saved as and loaded from.
 *
 * Each record copies the fields of one simulation object; the conversions
 * back build fresh objects from the copies. The serialisation to and from
 * JSON is not part of this model, only the copies on either side of it.
 */
module Persistence {
  import opened Geometry
  import opened Zones
  import opened Polyline
  import opened Mower

  /** PointDTO: the two coordinates of a point. */
  datatype PointDto = PointDto(x: real, y: real)

  /** new PointDTO(p). */
  function FromPoint(p: Point): (d: PointDto)
    ensures d.x == p.x && d.y == p.y
  {
    PointDto(p.x, p.y)
  }

  /** PointDTO.toPoint. */
  function ToPoint(d: PointDto): (p: Point)
    ensures p.x == d.x && p.y == d.y
  {
    Point(d.x, d.y)
  }

  /** Saving a point and loading it back gives the same point. */
  lemma PointRoundTrip(p: Point)
    ensures ToPoint(FromPoint(p)) == p
  {
  }

  /** ZonePointDTO: the coordinates of a zone point and its percentage. */
  datatype ZonePointDto = ZonePointDto(x: real, y: real, percentage: int)

  /** new ZonePointDTO(zp). */
  function FromZonePoint(zp: ZonePoint): (d: ZonePointDto)
    ensures d.x == zp.point.x && d.y == zp.point.y && d.percentage == zp.percentage
  {
    ZonePointDto(zp.point.x, zp.point.y, zp.percentage)
  }

  /** ZonePointDTO.toZonePoint. */
  function ToZonePoint(d: ZonePointDto): (zp: ZonePoint)
    ensures zp.point.x == d.x && zp.point.y == d.y && zp.percentage == d.percentage
  {
    ZonePoint(Point(d.x, d.y), d.percentage)
  }

  /** A zone point keeps both its place and its percentage through a save and a load. */
  lemma ZonePointRoundTrip(zp: ZonePoint)
    ensures ToZonePoint(FromZonePoint(zp)) == zp
  {
  }

  /** The points of a polyline mapped one by one to records, in order. */
  function FromPoints(pts: seq<Point>): (r: seq<PointDto>)
    ensures |r| == |pts|
    ensures forall i :: 0 <= i < |pts| ==> r[i] == FromPoint(pts[i])
  {
    if pts == [] then [] else [FromPoint(pts[0])] + FromPoints(pts[1..])
  }

  /** The records mapped one by one back to points, in order. */
  function ToPoints(ds: seq<PointDto>): (r: seq<Point>)
    ensures |r| == |ds|
    ensures forall i :: 0 <= i < |ds| ==> r[i] == ToPoint(ds[i])
  {
    if ds == [] then [] else [ToPoint(ds[0])] + ToPoints(ds[1..])
  }

  /** Converting one more record appends one more point. */
  lemma ToPointsAppend(ds: seq<PointDto>, d: PointDto)
    ensures ToPoints(ds + [d]) == ToPoints(ds) + [ToPoint(d)]
  {
  }

  /** A list of points comes back from its records unchanged, in the same order. */
  lemma {:induction false} PointsRoundTrip(pts: seq<Point>)
    ensures ToPoints(FromPoints(pts)) == pts
    decreases |pts|
  {
    if pts != [] {
      PointsRoundTrip(pts[1..]);
      assert FromPoints(pts) == [FromPoint(pts[0])] + FromPoints(pts[1..]);
    }
  }

  /**
   * MultiLineDTO without its colour: the vertex records (null when the
   * file has none) and the closed flag.
   */
  datatype MultiLineDto = MultiLineDto(points: Option<seq<PointDto>>, closed: bool)

  /** The vertex records a polyline is rebuilt from: none when the list is null. */
  function StoredPoints(d: MultiLineDto): (r: seq<PointDto>)
    ensures d.points.None? ==> r == []
    ensures d.points.Some? ==> r == d.points.value
  {
    if d.points.Some? then d.points.value else []
  }

  /** new MultiLineDTO(ml): every vertex, in order, and the closed flag. */
  function FromMultiLine(ml: MultiLine): (d: MultiLineDto)
    reads ml
    ensures d.points.Some? && ToPoints(d.points.value) == ml.points
    ensures d.closed == ml.closed
  {
    PointsRoundTrip(ml.points);
    MultiLineDto(Some(FromPoints(ml.points)), ml.closed)
  }

  /**
   * MultiLineDTO.toMultiLine: a fresh polyline gets every stored vertex
   * appended in order, then is closed when the record says so.
   */
  method ToMultiLine(d: MultiLineDto) returns (ml: MultiLine)
    ensures fresh(ml)
    ensures ml.points == ToPoints(StoredPoints(d))
    ensures ml.closed == d.closed
  {
    ml := new MultiLine();
    var ds := StoredPoints(d);
    var i := 0;
    while i < |ds|
      invariant 0 <= i <= |ds|
      invariant ml.points == ToPoints(ds[..i]) && !ml.closed
    {
      ToPointsAppend(ds[..i], ds[i]);
      assert ds[..i + 1] == ds[..i] + [ds[i]];
      ml.AddPoint(ToPoint(ds[i]));
      i := i + 1;
    }
    assert ds[..i] == ds;
    if d.closed {
      ml.ClosePath();
    }
  }

  /** Saving a polyline and loading it back gives the same vertices in the same order and the same closed flag. */
  lemma MultiLineRoundTrip(pts: seq<Point>, closed: bool)
    ensures var d := MultiLineDto(Some(FromPoints(pts)), closed);
            ToPoints(StoredPoints(d)) == pts && d.closed == closed
  {
    PointsRoundTrip(pts);
  }

  /** MowerDTO: the mower's settings, its position (null when it has none) and its model version. */
  datatype MowerDto = MowerDto(
    speedInCmPerSec: real,
    mowingWidthInCm: real,
    batteryCapacityWh: real,
    energyConsumptionWhPerCm: real,
    chargeRateWhPerSec: real,
    currentPosition: Option<PointDto>,
    version: int)

  /** The no-argument MowerDTO a file without a mower section loads as. */
  function DefaultMowerDto(): (d: MowerDto)
    ensures d.batteryCapacityWh == 50.0 && d.energyConsumptionWhPerCm == 0.00045
    ensures d.chargeRateWhPerSec == 0.02 && d.version == 1
    ensures d.speedInCmPerSec == 0.0 && d.mowingWidthInCm == 0.0 && d.currentPosition.None?
  {
    MowerDto(0.0, 0.0, 50.0, 0.00045, 0.02, None, 1)
  }

  /** A record without a version reads as the first model, the standard one. */
  lemma DefaultIsStandardModel()
    ensures forall p: Policy :: ModelVersion(p) == DefaultMowerDto().version <==> p.Standard?
  {
  }

  /** new MowerDTO(mower): settings copied, position copied when there is one, version of the mower's model. */
  function FromMower(m: AutoMower): (d: MowerDto)
    reads m
    ensures d.version == ModelVersion(m.policy)
    ensures d.currentPosition.None? <==> m.position.None?
    ensures m.position.Some? ==> ToPoint(d.currentPosition.value) == m.position.value
    ensures d.speedInCmPerSec == m.speed && d.mowingWidthInCm == m.mowingWidth
    ensures d.batteryCapacityWh == m.capacity && d.energyConsumptionWhPerCm == m.consumption
    ensures d.chargeRateWhPerSec == CHARGE_RATE_WH_PER_SEC
  {
    MowerDto(m.speed, m.mowingWidth, m.capacity, m.consumption, CHARGE_RATE_WH_PER_SEC,
             if m.position.Some? then Some(FromPoint(m.position.value)) else None,
             ModelVersion(m.policy))
  }

  /** The saved version tells the four mower models apart, so a loader can pick the same kind again. */
  lemma VersionIdentifiesModel(p: Policy, q: Policy)
    requires ModelVersion(p) == ModelVersion(q)
    ensures p.Standard? <==> q.Standard?
    ensures p.ZoneStatistics? <==> q.ZoneStatistics?
    ensures p.SmartBalancing? <==> q.SmartBalancing?
    ensures p.DistanceBased? <==> q.DistanceBased?
  {
  }

  /** ProjectData: every part of a saved project; each may be missing (null) in a file. */
  datatype ProjectData = ProjectData(
    border: Option<MultiLineDto>,
    obstacles: Option<seq<MultiLineDto>>,
    calibration: real,
    mower: Option<MowerDto>,
    backgroundImageBase64: Option<string>,
    chargingStation: Option<PointDto>,
    zonePoints: Option<seq<ZonePointDto>>)

  /** The zone points mapped one by one to records, in order. */
  function FromZonePoints(zs: seq<ZonePoint>): (r: seq<ZonePointDto>)
    ensures |r| == |zs|
    ensures forall i :: 0 <= i < |zs| ==> r[i] == FromZonePoint(zs[i])
  {
    if zs == [] then [] else [FromZonePoint(zs[0])] + FromZonePoints(zs[1..])
  }

  /** The zone records mapped one by one back to zone points, in order. */
  function ToZonePoints(ds: seq<ZonePointDto>): (r: seq<ZonePoint>)
    ensures |r| == |ds|
    ensures forall i :: 0 <= i < |ds| ==> r[i] == ToZonePoint(ds[i])
  {
    if ds == [] then [] else [ToZonePoint(ds[0])] + ToZonePoints(ds[1..])
  }

  /** The zone points come back from their records unchanged, in the same order. */
  lemma {:induction false} ZonePointsRoundTrip(zs: seq<ZonePoint>)
    ensures ToZonePoints(FromZonePoints(zs)) == zs
    decreases |zs|
  {
    if zs != [] {
      ZonePointsRoundTrip(zs[1..]);
      assert FromZonePoints(zs) == [FromZonePoint(zs[0])] + FromZonePoints(zs[1..]);
    }
  }
}
