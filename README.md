# AutoMower core, modelled in Dafny

A model of the simulation core of AutoMower, a robotic lawn mower simulator.
A mower drives straight segments across a lawn bounded by a border polyline
and obstacle polylines, bounces off walls at random, returns along the
border to a charging station when its battery runs low, and, in three
further models, balances its work between zones of the border.

The modules follow the Java classes:

- `Geometry`: points, segments and squared distances.
- `Polyline`: `MultiLine2D`. It is a class whose `AddPoint` and `ClosePath`
  update the vertex list in place. It has the queries over the vertices
  (`getLine`, `getPoint`, `getLine2D`, `ptSegDist`, `getCollidingLine`,
  `getArea`).
- `Ground`: `GroundModel` as a class (obstacle list, calibration, the two
  ray queries). `Arena` is the read-only view of the ground the mower
  drives on. Its queries whose bodies are not part of this model are
  function fields: perimeter distance, point at a perimeter distance,
  `isInside`, segment intersection, the colinear point.
- `Zones`: the zone lookup, the collision counts and the deficit search
  shared by the zone models.
- `ZonesV2`, `ZonesV3`, `ZonesV4`: `onCollision` (and `onMove` for V4) of
  `AutoMowerModelV2`, `V3` and `V4`. Each is a method with the source's
  loops, proved against a `Decide` function, with lemmas about when a
  model moves the mower.
- `Coverage`: the coverage grid, an `array2` that `InitCoverage` and
  `UpdateCoverage` fill and mow in place, proved against `InitialCells`
  and `Mow` on sequences.
- `Mower`: `AbstractAutoMowerModel` as the class `AutoMower`, with one
  method per step of `calculateNextSegment` and of the run loop.
  - `Tick` is one pass of `runMower`.
  - `Start` is `startInternal`.
  - Each planner method is specified by a ghost predicate over a snapshot
    of the mower's fields (`MowerView`): `Planned`, `Sought`, `Followed`,
    `EdgeStepped`, `Transited`, `Replanned`.
  - Lemmas about those predicates state what the planner promises.
- `Persistence`: the `ProjectData` records with their round trips.
- `Scenarios`: concrete arenas on which V3 and V4 are shown to move, or
  not, as their code says.

Real numbers model doubles. Distance thresholds are compared on squares
(`d < 12` as `Dist2 < 144`). The random angles, the trigonometric turns and
the jitter of the raycast are the `Navigator` parameter of the planner:
the model holds for any choice they make.

## Model

| member | source | states |
|---|---|---|
| Geometry.Dist2 | src/main/java/de/in/autoMower/sim/AbstractAutoMowerModel.java:563 | a squared distance is never negative and is 0 from a point to itself; every `distance(..) < r` test of the source is compared on squares |
| Geometry.SegDist2 | src/main/java/de/in/autoMower/sim/AbstractAutoMowerModel.java:552 | the squared point-to-segment distance is never negative, and for a segment of length 0 it is the squared distance to its end point |
| Polyline.MultiLine.constructor | src/main/java/de/in/autoMower/sim/MultiLine2D.java:37-43 | a new polyline has no vertices and is open |
| Polyline.MultiLine.AddPoint | src/main/java/de/in/autoMower/sim/MultiLine2D.java:62-64 | the vertex is appended at the end and the closed flag is unchanged |
| Polyline.MultiLine.ClosePath | src/main/java/de/in/autoMower/sim/MultiLine2D.java:121-123 | the polyline becomes closed and keeps its vertices |
| Polyline.GetLine | src/main/java/de/in/autoMower/sim/MultiLine2D.java:157-163 | a segment exists exactly for the indices below the vertex count, and it starts at vertex n |
| Polyline.GetPoint | src/main/java/de/in/autoMower/sim/MultiLine2D.java:165-169 | a vertex exists exactly for the indices below the vertex count, and it is vertex n |
| Polyline.Ring | src/main/java/de/in/autoMower/sim/MultiLine2D.java:157-163 | getLine enumerates as many segments as there are vertices |
| Polyline.GetLineWraps | src/main/java/de/in/autoMower/sim/MultiLine2D.java:157-163 | segment n joins vertex n to vertex (n+1) mod size, so the last one closes the ring whether or not the polyline is closed |
| Polyline.AddPointKeepsIndices | src/main/java/de/in/autoMower/sim/MultiLine2D.java:157-169 | appending a vertex keeps every earlier vertex and every earlier inner segment, and moves the closing segment onto the new vertex |
| Polyline.Segments | src/main/java/de/in/autoMower/sim/MultiLine2D.java:125-148 | the segments the editor and ray queries walk: consecutive vertex pairs, plus the closing segment only when closed |
| Polyline.SegmentsVersusRing | src/main/java/de/in/autoMower/sim/MultiLine2D.java:157-163 | the walked segments equal the getLine ring when closed and the ring without its last segment when open |
| Polyline.FindVertex | src/main/java/de/in/autoMower/sim/MultiLine2D.java:150-155 | no result exactly when no vertex is within ED on both axes; otherwise a vertex of the polyline that is |
| Polyline.GetLine2D | src/main/java/de/in/autoMower/sim/MultiLine2D.java:125-148 | the first stop decides: a near vertex gives nothing, a near segment gives that segment; the closing segment is tried last and only when closed |
| Polyline.PtSegDist | src/main/java/de/in/autoMower/sim/MultiLine2D.java:204-224 | no result exactly when there is no segment; otherwise the smallest squared distance to any walked segment, attained by one of them |
| Polyline.CollidingLine | src/main/java/de/in/autoMower/sim/MultiLine2D.java:226-249 | no result exactly when no walked segment intersects the line; otherwise one of the walked segments |
| Polyline.Prev | src/main/java/de/in/autoMower/sim/MultiLine2D.java:195-198 | the shoelace predecessor index stays in range |
| Polyline.AreaOf | src/main/java/de/in/autoMower/sim/MultiLine2D.java:190-202 | the area is never negative and is 0 unless the polyline is closed with at least three vertices |
| Polyline.Area | src/main/java/de/in/autoMower/sim/MultiLine2D.java:190-202 | the shoelace loop computes AreaOf |
| Polyline.TermTranslated | src/main/java/de/in/autoMower/sim/MultiLine2D.java:197-198 | shifting the polygon by (dx, dy) changes one shoelace term by exactly 2·dx times its y-difference |
| Polyline.ShoelaceSumTranslated | src/main/java/de/in/autoMower/sim/MultiLine2D.java:195-199 | partial shoelace sums of a shifted polygon differ from the original by a telescoping term |
| Polyline.AreaTranslationInvariant | src/main/java/de/in/autoMower/sim/MultiLine2D.java:190-202 | shifting a polygon does not change its area |
| Polyline.UnitSquareArea | src/main/java/de/in/autoMower/sim/MultiLine2D.java:190-202 | the unit square has area 1 |
| Ground.GroundModel.constructor | src/main/java/de/in/autoMower/sim/GroundModel.java:34-41 | an empty open border, no obstacles, calibration 10 cm per pixel, nothing highlighted |
| Ground.GroundModel.Polys | src/main/java/de/in/autoMower/sim/GroundModel.java:148-149 | the polylines the ray queries walk: the obstacles in order, then the border |
| Ground.GroundModel.AddObstacle | src/main/java/de/in/autoMower/sim/GroundModel.java:72-75 | the obstacle is appended; border, calibration and highlights are unchanged |
| Ground.GroundModel.RemoveObstacle | src/main/java/de/in/autoMower/sim/GroundModel.java:77-82 | the first occurrence of the obstacle is removed and both highlights are cleared |
| Ground.RemoveFirstMultiset | src/main/java/de/in/autoMower/sim/GroundModel.java:77-78 | removing takes exactly one occurrence out when present and changes nothing when absent |
| Ground.GroundModel.SetCalibration | src/main/java/de/in/autoMower/sim/GroundModel.java:138-142 | calibration times the line length equals the given length in cm; nothing else changes |
| Ground.GroundModel.GetObstacle | src/main/java/de/in/autoMower/sim/GroundModel.java:131-136 | no result exactly when no obstacle has a vertex or segment near the point; otherwise one of the obstacles |
| Ground.Candidates | src/main/java/de/in/autoMower/sim/GroundModel.java:150-152 | the candidate segments: getLine(0..size-1) of every polyline, in order |
| Ground.CandidatesCount | src/main/java/de/in/autoMower/sim/GroundModel.java:150-152 | there is one candidate segment per vertex |
| Ground.HitsAt | src/main/java/de/in/autoMower/sim/GroundModel.java:156-163 | the candidates hit at a given squared distance are candidates whose crossing point lies at that distance |
| Ground.GroundModel.GetCollisionPoint | src/main/java/de/in/autoMower/sim/GroundModel.java:169-188 | no result exactly when nothing is crossed; otherwise the crossing point of the earliest candidate nearest to p1 |
| Ground.GroundModel.GetCollisionLines | src/main/java/de/in/autoMower/sim/GroundModel.java:144-167 | empty exactly when nothing is crossed at a positive distance; otherwise every candidate crossed at the smallest positive distance, in order |
| Ground.ConsiderLine | src/main/java/de/in/autoMower/sim/GroundModel.java:152-163 | one candidate step keeps the loop state: the result holds exactly the candidates seen so far that are crossed at the smallest positive distance |
| Ground.LinesDone | src/main/java/de/in/autoMower/sim/GroundModel.java:144-166 | the loop state over all candidates yields the promise of getCollisionLines (empty iff no positive crossing, else the hits at the minimum distance) |
| Ground.ZoneAt | src/main/java/de/in/autoMower/sim/AutoMowerModelV4.java:51-74 | the zone of a point is an index of a zone point, or 0 when there are none |
| Ground.ZoneMidpoint | src/main/java/de/in/autoMower/sim/AutoMowerModelV3.java:126-136 | the midpoint of the target zone is a perimeter distance in [0, L) that has a point |
| Ground.AimAtZone | src/main/java/de/in/autoMower/sim/AutoMowerModelV3.java:138-139 | the transition target is the point at the zone midpoint, and there always is one |
| Zones.ZoneDistances | src/main/java/de/in/autoMower/sim/AutoMowerModelV2.java:44-53 | the perimeter distance of every zone point, in order |
| Zones.ZoneOfIsFirstMatch | src/main/java/de/in/autoMower/sim/AutoMowerModelV2.java:39-65 | the zone is the first interval containing the distance, or zone 0 when none does |
| Zones.ZoneOfAscending | src/main/java/de/in/autoMower/sim/AutoMowerModelV2.java:36-37 | with zone points in perimeter order zone i is exactly (Z(i-1), Z(i)] and zone 0 is up to Z0 or past the last point |
| Zones.LocateZone | src/main/java/de/in/autoMower/sim/AutoMowerModelV2.java:39-65 | the lookup loop returns the first matching zone (ZoneOf) |
| Zones.Merge | src/main/java/de/in/autoMower/sim/AutoMowerModelV2.java:67 | merge adds v to one key, creating it, and leaves every other count unchanged |
| Zones.CountTotalMerge | src/main/java/de/in/autoMower/sim/AutoMowerModelV2.java:67-69 | merging v into one entry raises the total by exactly v |
| Zones.CountTotalNonNegative | src/main/java/de/in/autoMower/sim/AutoMowerModelV2.java:68 | with non-negative counts the summed total is non-negative |
| Zones.CountTotalPositive | src/main/java/de/in/autoMower/sim/AutoMowerModelV3.java:77-84 | with positive counts the total is at least the number of zones counted, so the share divisions have a positive divisor |
| Zones.SumCounts | src/main/java/de/in/autoMower/sim/AutoMowerModelV2.java:69 | the stream sum equals the total of the counts |
| Zones.BestZoneIsFirstMaximum | src/main/java/de/in/autoMower/sim/AutoMowerModelV2.java:73-84 | the chosen zone has the largest positive deficit and is the first such index; -1 exactly when no deficit is positive |
| Zones.FindBestZone | src/main/java/de/in/autoMower/sim/AutoMowerModelV2.java:73-84 | the search loop returns BestZone and its deficit |
| Zones.PrevZone | src/main/java/de/in/autoMower/sim/AutoMowerModelV2.java:91 | the previous zone index, cyclically, in range |
| Zones.ForwardDistanceRange | src/main/java/de/in/autoMower/sim/AutoMowerModelV3.java:113-114 | the forward distance along the perimeter lies in [0, L) and equals the plain difference or the difference plus L |
| Zones.WrappedMidpointRange | src/main/java/de/in/autoMower/sim/AutoMowerModelV3.java:129-136 | the wrapped midpoint lies in [0, L) and halfway along the perimeter from the previous zone point |
| ZonesV2.Deficits | src/main/java/de/in/autoMower/sim/AutoMowerModelV2.java:76-79 | the deficit of each zone is its ideal share of all collisions minus its count |
| ZonesV2.OnCollision | src/main/java/de/in/autoMower/sim/AutoMowerModelV2.java:26-115 | the new counts and the requested move are those of Decide |
| ZonesV2.RebalanceStep | src/main/java/de/in/autoMower/sim/AutoMowerModelV2.java:70-113 | the rebalancing branch computes Rebalance |
| ZonesV2.CountsEachCollision | src/main/java/de/in/autoMower/sim/AutoMowerModelV2.java:27-67 | without ground or zones nothing changes; otherwise the collision zone gets exactly one more count, plus one for the target zone on a move |
| ZonesV2.CountsStayNonNegative | src/main/java/de/in/autoMower/sim/AutoMowerModelV2.java:16-70 | counts that start empty and only gain never go negative through onCollision, and the total compared with 19 mod 20 is then at least 1, where Java's truncating remainder and the one here agree |
| ZonesV2.MovesToMostStarvedZone | src/main/java/de/in/autoMower/sim/AutoMowerModelV2.java:70-113 | a move happens only when the total is 19 mod 20, towards the zone of largest deficit, which is not the collision zone |
| ZonesV2.MidpointVersusWrapped | src/main/java/de/in/autoMower/sim/AutoMowerModelV2.java:93-99 | the V2 midpoint is below 1.5 L and agrees with the wrapped midpoint of V3 and V4, or exceeds it by exactly L |
| ZonesV2.MidpointCanPassPerimeter | src/main/java/de/in/autoMower/sim/AutoMowerModelV2.java:93-99 | on a perimeter of 100 the zone from 90 round to 30 gets the midpoint 110, past the end, where V3 and V4 give 10 |
| ZonesV3.Deficits | src/main/java/de/in/autoMower/sim/AutoMowerModelV3.java:89-92 | the deficit of each zone is its target fraction minus its actual fraction |
| ZonesV3.TotalAfter | src/main/java/de/in/autoMower/sim/AutoMowerModelV3.java:75-77 | the total after the merge is the previous total plus one, so it is positive |
| ZonesV3.OnCollision | src/main/java/de/in/autoMower/sim/AutoMowerModelV3.java:41-149 | the new counts, last transition count and requested move are those of Decide, and all counts stay positive |
| ZonesV3.EvaluateStep | src/main/java/de/in/autoMower/sim/AutoMowerModelV3.java:77-148 | the imbalance check computes Evaluate |
| ZonesV3.CheckTrigger | src/main/java/de/in/autoMower/sim/AutoMowerModelV3.java:106-122 | the nested conditions equal the Triggers predicate |
| ZonesV3.TransitionStep | src/main/java/de/in/autoMower/sim/AutoMowerModelV3.java:124-147 | a move aims at the target zone midpoint and counts one artificial collision for the target zone |
| ZonesV3.TransitionTrigger | src/main/java/de/in/autoMower/sim/AutoMowerModelV3.java:106-122 | a move needs more than 20 collisions, a target other than the current zone, a stay of at least 15 and a surplus, then a critical deficit or an opportunistic target |
| ZonesV3.TransitionBookkeeping | src/main/java/de/in/autoMower/sim/AutoMowerModelV3.java:124-147 | on a move the last transition count becomes the total and the target zone gets one more count |
| ZonesV3.CountsEachCollision | src/main/java/de/in/autoMower/sim/AutoMowerModelV3.java:42-75 | without ground or zones nothing changes; otherwise the collision zone gets one more count |
| ZonesV4.MergeDist | src/main/java/de/in/autoMower/sim/AutoMowerModelV4.java:43-47 | merge adds the distance to one key and leaves the others |
| ZonesV4.DistanceTotalMerge | src/main/java/de/in/autoMower/sim/AutoMowerModelV4.java:43-47 | merging v into one entry raises the total distance by exactly v |
| ZonesV4.SumDistances | src/main/java/de/in/autoMower/sim/AutoMowerModelV4.java:85 | the stream sum equals the total distance |
| ZonesV4.ZoneOfPoint | src/main/java/de/in/autoMower/sim/AutoMowerModelV4.java:51-74 | the zone of a point is a zone index when there are zones |
| ZonesV4.OnMove | src/main/java/de/in/autoMower/sim/AutoMowerModelV4.java:35-49 | without ground or with no distance nothing changes; otherwise the whole move goes to its zone, or half to each of two zones |
| ZonesV4.Deficits | src/main/java/de/in/autoMower/sim/AutoMowerModelV4.java:101-104 | the deficit of each zone is its target fraction minus its fraction of the distance |
| ZonesV4.OnCollision | src/main/java/de/in/autoMower/sim/AutoMowerModelV4.java:77-158 | the new last transition distance and requested move are those of Decide |
| ZonesV4.Assess | src/main/java/de/in/autoMower/sim/AutoMowerModelV4.java:89-157 | past the 10 m gate, the new last transition distance and the move are those of Evaluate: a move only when Triggers holds, aimed at the deficit zone's midpoint with the snapped collision point |
| ZonesV4.CheckTrigger | src/main/java/de/in/autoMower/sim/AutoMowerModelV4.java:111-128 | the nested conditions equal the Triggers predicate |
| ZonesV4.MoveConditions | src/main/java/de/in/autoMower/sim/AutoMowerModelV4.java:85-128 | nothing moves before 10 m, without ground or without zones; a move needs a stay of at least 50 m and a surplus |
| Scenarios.V3MovesOnTwentyFirstCollision | src/main/java/de/in/autoMower/sim/AutoMowerModelV3.java:107-147 | on a 100 x 100 square with two zones, the 21st collision in zone 0 moves the mower to zone 1 |
| Scenarios.V3StaysWhenBalanced | src/main/java/de/in/autoMower/sim/AutoMowerModelV3.java:106-122 | with 15 collisions in each zone a collision in zone 0 does not move the mower |
| Scenarios.V4SplitsCrossingMove | src/main/java/de/in/autoMower/sim/AutoMowerModelV4.java:42-48 | a 1 m move from zone 0 into zone 1 is credited half to each |
| Scenarios.V4MovesAfterSixtyMetres | src/main/java/de/in/autoMower/sim/AutoMowerModelV4.java:111-156 | after 60 m all in zone 0 a collision there moves the mower to zone 1 |
| Coverage.Trunc | src/main/java/de/in/autoMower/sim/AbstractAutoMowerModel.java:786-787 | the int cast of a double truncates toward zero |
| Coverage.Ceil | src/main/java/de/in/autoMower/sim/AbstractAutoMowerModel.java:784 | the ceiling is the smallest integer at or above its argument |
| Coverage.CountUpdate | src/main/java/de/in/autoMower/sim/AbstractAutoMowerModel.java:802-803 | writing one cell changes a count by at most that cell |
| Coverage.MowedWithinLawn | src/main/java/de/in/autoMower/sim/AbstractAutoMowerModel.java:810-813 | mowed pixels never outnumber lawn pixels |
| Coverage.InitialCells | src/main/java/de/in/autoMower/sim/AbstractAutoMowerModel.java:761-775 | the initial grid is w x h, with 1 exactly where the pixel is inside the lawn and no mowed pixel |
| Coverage.Mow | src/main/java/de/in/autoMower/sim/AbstractAutoMowerModel.java:794-807 | mowing keeps the grid shape, turns every lawn cell of the disc to mowed and changes nothing else |
| Coverage.MowIdempotent | src/main/java/de/in/autoMower/sim/AbstractAutoMowerModel.java:796-807 | mowing the same spot twice is the same as mowing it once |
| Coverage.MowKeepsLawn | src/main/java/de/in/autoMower/sim/AbstractAutoMowerModel.java:796-807 | mowing keeps the number of lawn pixels and never lowers the number mowed |
| Coverage.SquareHoldsDisc | src/main/java/de/in/autoMower/sim/AbstractAutoMowerModel.java:789-801 | every cell of the disc lies in the square the loops walk |
| Coverage.Ratio | src/main/java/de/in/autoMower/sim/AbstractAutoMowerModel.java:810-813 | the ratio is in [0, 1], 0 when there is no lawn, and ratio times lawn equals mowed |
| Coverage.MowDisc | src/main/java/de/in/autoMower/sim/AbstractAutoMowerModel.java:796-807 | the loops over the square leave the array holding Mow of the old grid, with the counters equal to the lawn and mowed counts |
| Coverage.InitGrid | src/main/java/de/in/autoMower/sim/AbstractAutoMowerModel.java:765-775 | the loops over the grid leave the array holding InitialCells, the lawn counter equal to its lawn count and nothing mowed |
| Coverage.CoverageGrid.constructor | src/main/java/de/in/autoMower/sim/AbstractAutoMowerModel.java:745-749 | no grid yet, not initialised, both counters 0 |
| Coverage.CoverageGrid.InitCoverage | src/main/java/de/in/autoMower/sim/AbstractAutoMowerModel.java:751-777 | a fresh grid of (width+1) x (height+1) cells over the bounding box holds InitialCells, with nothing mowed |
| Coverage.CoverageGrid.UpdateCoverage | src/main/java/de/in/autoMower/sim/AbstractAutoMowerModel.java:779-808 | nothing changes before initialisation; afterwards the grid becomes Mow around the truncated position with radius ceil(r) and squared radius r*r |
| Coverage.CoverageGrid.CoveragePercentage | src/main/java/de/in/autoMower/sim/AbstractAutoMowerModel.java:810-814 | the coverage is in [0, 1], 0 when there is no lawn, and coverage times lawn equals mowed |
| Mower.ModelVersion | src/main/java/de/in/autoMower/sim/AutoMowerModelV4.java:195-198 | each model reports a version from 1 to 4 |
| Mower.NearestIndex | src/main/java/de/in/autoMower/sim/AbstractAutoMowerModel.java:572-586 | the nearest vertex index is a valid index of a non-empty border |
| Mower.NearestFromIsFirstMinimum | src/main/java/de/in/autoMower/sim/AbstractAutoMowerModel.java:578-584 | from any point of the scan, no vertex is nearer than the one chosen and every earlier vertex is strictly farther |
| Mower.NearestIsFirstMinimum | src/main/java/de/in/autoMower/sim/AbstractAutoMowerModel.java:572-586 | no border vertex is nearer than the chosen one, and every earlier vertex is strictly farther |
| Mower.GetNearestBorderIndex | src/main/java/de/in/autoMower/sim/AbstractAutoMowerModel.java:572-586 | the loop returns 0 on an empty border and otherwise the first nearest vertex |
| Mower.FindNearestBorderPoint | src/main/java/de/in/autoMower/sim/AbstractAutoMowerModel.java:557-570 | no result exactly when the border is empty; otherwise the vertex at NearestIndex |
| Mower.TouchingMembers | src/main/java/de/in/autoMower/sim/AbstractAutoMowerModel.java:549-555 | a segment is kept exactly when it is a candidate and passes closer than 1 to the point |
| Mower.AddIfTouching | src/main/java/de/in/autoMower/sim/AbstractAutoMowerModel.java:549-555 | one candidate step: the result grows by the segment exactly when it touches, keeping the kept segments in order |
| Mower.CheckMultiLine | src/main/java/de/in/autoMower/sim/AbstractAutoMowerModel.java:549-555 | the loop over one polyline appends exactly its touching segments, wrap-around included, in order |
| Mower.FindTouchingLines | src/main/java/de/in/autoMower/sim/AbstractAutoMowerModel.java:536-547 | the loops collect the touching segments of the border, then of each obstacle, in order |
| Mower.TouchingAt | src/main/java/de/in/autoMower/sim/AbstractAutoMowerModel.java:536-547 | a segment is touching exactly when it belongs to the border or an obstacle and passes closer than 1 |
| Mower.Foot | src/main/java/de/in/autoMower/sim/AbstractAutoMowerModel.java:359-365 | a projection, when there is one, lies strictly inside the segment |
| Mower.FootIsNearest | src/main/java/de/in/autoMower/sim/AbstractAutoMowerModel.java:359-365 | the projection is the point of the line nearest to the dock or target |
| Mower.QuadraticMinimum | src/main/java/de/in/autoMower/sim/AbstractAutoMowerModel.java:361 | the parameter t = (ap . d) / len2 minimises the squared distance along the line |
| Mower.StopNear | src/main/java/de/in/autoMower/sim/AbstractAutoMowerModel.java:354-373 | a stop, when there is one, is the projection and lies within the radius of the point |
| Mower.StepBackCancels | src/main/java/de/in/autoMower/sim/AbstractAutoMowerModel.java:350-369 | one step forward and one back along the border give the index started from |
| Mower.BounceNormalFacesBack | src/main/java/de/in/autoMower/sim/AbstractAutoMowerModel.java:647-662 | the bounce normal is perpendicular to the wall and points towards the previous position |
| Mower.BounceDirection | src/main/java/de/in/autoMower/sim/AbstractAutoMowerModel.java:647-673 | a wall shorter than 0.0001 gives the hit point; otherwise the turn of the back-facing normal at the hit point |
| Mower.Probe | src/main/java/de/in/autoMower/sim/AbstractAutoMowerModel.java:485-511 | a hit accepted by one raycast attempt is farther than 0.05 with its midpoint inside |
| Mower.SearchBounded | src/main/java/de/in/autoMower/sim/AbstractAutoMowerModel.java:484-516 | the raycast makes at most 200 attempts; a hit it returns is accepted, and no hit means all 200 attempts failed |
| Mower.ProbeOnce | src/main/java/de/in/autoMower/sim/AbstractAutoMowerModel.java:485-511 | one attempt of the raycast loop finds exactly the hit Probe describes |
| Mower.Raycast | src/main/java/de/in/autoMower/sim/AbstractAutoMowerModel.java:482-516 | the loop returns the hit and attempt count of Search: at most 200 attempts, exactly 200 when nothing is accepted |
| Mower.EdgeDirection | src/main/java/de/in/autoMower/sim/AbstractAutoMowerModel.java:176-191 | the direction is -1 exactly when there is a dock and the first edge turns left as seen from it, and +1 otherwise |
| Mower.EdgeStepInRange | src/main/java/de/in/autoMower/sim/AbstractAutoMowerModel.java:334 | the next edge-cutting index stays on the border |
| Mower.PolicyStep | src/main/java/de/in/autoMower/sim/AbstractAutoMowerModel.java:696-697 | without a ground model a collision asks the mower for no move |
| Mower.Reacted | src/main/java/de/in/autoMower/sim/AbstractAutoMowerModel.java:687-690 | reporting a collision changes only the policy, target, state, position, index and collision count; the count rises by at most one, the state becomes TRANSITIONING_TO_ZONE or stays, and the V2 counts stay non-negative and the V3 counts positive |
| Mower.Applied | src/main/java/de/in/autoMower/sim/AutoMowerModelV2.java:101-112 | carrying out a move changes only target, state, position, index and the artificial collision |
| Mower.Collided | src/main/java/de/in/autoMower/sim/AbstractAutoMowerModel.java:592-602 | after handleCollision the mower is MOWING or TRANSITIONING_TO_ZONE with at least one more collision |
| Mower.PlannedFrame | src/main/java/de/in/autoMower/sim/AbstractAutoMowerModel.java:294-534 | calculateNextSegment never writes the trace, battery, configuration, runtime or coverage |
| Mower.SoughtKeepsGoing | src/main/java/de/in/autoMower/sim/AbstractAutoMowerModel.java:303-323 | seeking the border never stops the mower and always leaves it a segment |
| Mower.PlannedHasSegment | src/main/java/de/in/autoMower/sim/AbstractAutoMowerModel.java:294-534 | a mower that is not stopped has a segment after calculateNextSegment |
| Mower.FollowedIndex | src/main/java/de/in/autoMower/sim/AbstractAutoMowerModel.java:341-377 | away from the dock, following moves one vertex on; a stop short at the dock keeps the index and lies within 12 of the dock |
| Mower.EdgeSteppedInRange | src/main/java/de/in/autoMower/sim/AbstractAutoMowerModel.java:325-338 | edge cutting stays on the border, heads for the new vertex, and ends STOPPED on an empty segment when no vertex is left |
| Mower.DrainNonNegative | src/main/java/de/in/autoMower/sim/AbstractAutoMowerModel.java:228 | driving never adds charge |
| Mower.MovedConsistent | src/main/java/de/in/autoMower/sim/AbstractAutoMowerModel.java:264-276 | moving along the segment keeps the mower invariant |
| Mower.Travel | src/main/java/de/in/autoMower/sim/AbstractAutoMowerModel.java:226 | a non-negative speed over a non-negative time drives a non-negative distance |
| Mower.Drained | src/main/java/de/in/autoMower/sim/AbstractAutoMowerModel.java:228 | driving a non-negative distance at a non-negative consumption never raises the charge |
| Mower.AfterDrain | src/main/java/de/in/autoMower/sim/AbstractAutoMowerModel.java:226-232 | the drain keeps the mower invariant, sets the drained charge and changes only battery and transition distance |
| Mower.Depleted | src/main/java/de/in/autoMower/sim/AbstractAutoMowerModel.java:239-255 | an empty battery reads 0; with a dock the mower stands there CHARGING with the timer reset, without one it is STOPPED where it was |
| Mower.Hit | src/main/java/de/in/autoMower/sim/AbstractAutoMowerModel.java:499-509 | an accepted hit raises the collision count by one or two (the model hook may add one), and the new segment runs from the mower to the hit |
| Mower.Lost | src/main/java/de/in/autoMower/sim/AbstractAutoMowerModel.java:518-532 | a failed search counts one navigation error and leaves a recovered mower: CHARGING at the dock or STOPPED, on an empty segment |
| Mower.HitReplanned | src/main/java/de/in/autoMower/sim/AbstractAutoMowerModel.java:415-509 | a hit taken after a heading was chosen is a Replanned mowing step |
| Mower.LostReplanned | src/main/java/de/in/autoMower/sim/AbstractAutoMowerModel.java:415-532 | a failed search after a heading was chosen is a Replanned mowing step |
| Mower.AfterMove | src/main/java/de/in/autoMower/sim/AbstractAutoMowerModel.java:278 | onMove changes only the policy, and only the distance-based model's, by OnMove with the distance and both positions |
| Mower.AdvancedTrace | src/main/java/de/in/autoMower/sim/AbstractAutoMowerModel.java:261-270 | a step that reaches the segment end appends exactly that end to the trace and counts an edge point while EDGE_CUTTING; a shorter step leaves trace and counter alone |
| Mower.DroveIntro | src/main/java/de/in/autoMower/sim/AbstractAutoMowerModel.java:225-279 | the drain, low-battery switch, depletion, segment, step and onMove phases in source order make up one Drove pass |
| Mower.DroveBattery | src/main/java/de/in/autoMower/sim/AbstractAutoMowerModel.java:226-255 | a Drove pass leaves the drained charge, or 0 with the mower at the dock CHARGING or STOPPED without one; the transition distance grows by the distance exactly in transit; at most one trace point is added |
| Mower.LowBatterySeeks | src/main/java/de/in/autoMower/sim/AbstractAutoMowerModel.java:234-237 | a MOWING mower left with a charge between 0 and 10% of capacity plans a SEEKING_BORDER step (Sought), keeps going, and drives that step without planning another first |
| Mower.SpawnPoint | src/main/java/de/in/autoMower/sim/AbstractAutoMowerModel.java:144-152 | the spawn is the dock if there is one, else the current position if inside, else border vertex 0 |
| Mower.DockedSpawnIsSafe | src/main/java/de/in/autoMower/sim/AbstractAutoMowerModel.java:156-162 | with a charging station the start always passes the safety check |
| Mower.EdgeStart | src/main/java/de/in/autoMower/sim/AbstractAutoMowerModel.java:169-191 | edge cutting starts at a border vertex, with one vertex left to cut per border point |
| Mower.AutoMower.constructor | src/main/java/de/in/autoMower/sim/AbstractAutoMowerModel.java:23-67 | a stopped mower with no position, a full 50 Wh battery, speed 1000/36 cm/s, width 14 cm, consumption 0.00045 Wh/cm, border index 0, edge-point counter -1; a V2 model starts from non-negative counts and a V3 model from positive ones, as their empty maps that only gain do |
| Mower.AutoMower.Version | src/main/java/de/in/autoMower/sim/AutoMowerModelV4.java:195-198 | the version is that of the mower's model |
| Mower.AutoMower.Stop | src/main/java/de/in/autoMower/sim/AbstractAutoMowerModel.java:622-624 | the mower is STOPPED and nothing else changes |
| Mower.AutoMower.Cancel | src/main/java/de/in/autoMower/sim/AbstractAutoMowerModel.java:634-636 | the mower is STOPPED and nothing else changes |
| Mower.AutoMower.Resume | src/main/java/de/in/autoMower/sim/AbstractAutoMowerModel.java:642-645 | the mower is MOWING and nothing else changes |
| Mower.AutoMower.OnCollision | src/main/java/de/in/autoMower/sim/AbstractAutoMowerModel.java:696-697 | the mower after the model hook is Reacted |
| Mower.AutoMower.Consult | src/main/java/de/in/autoMower/sim/AbstractAutoMowerModel.java:696-697 | the policy and requested move are those of PolicyStep; nothing else changes |
| Mower.AutoMower.Apply | src/main/java/de/in/autoMower/sim/AutoMowerModelV2.java:101-112 | the mower after the move is Applied |
| Mower.AutoMower.AimAt | src/main/java/de/in/autoMower/sim/AutoMowerModelV2.java:101-112 | TRANSITIONING_TO_ZONE towards the target, from the snapped point, at its nearest vertex |
| Mower.AutoMower.IncrementCollisionCount | src/main/java/de/in/autoMower/sim/AbstractAutoMowerModel.java:687-690 | one more collision, then the model hook |
| Mower.AutoMower.HandleCollision | src/main/java/de/in/autoMower/sim/AbstractAutoMowerModel.java:592-602 | the mower after handleCollision is Collided |
| Mower.AutoMower.NextEdge | src/main/java/de/in/autoMower/sim/AbstractAutoMowerModel.java:325-338 | the edge-cutting step is EdgeStepped |
| Mower.AutoMower.NextFollowing | src/main/java/de/in/autoMower/sim/AbstractAutoMowerModel.java:341-378 | the border-following step is Followed |
| Mower.AutoMower.NextTransitStep | src/main/java/de/in/autoMower/sim/AbstractAutoMowerModel.java:388-412 | the transit step is Transited |
| Mower.AutoMower.ChooseHeading | src/main/java/de/in/autoMower/sim/AbstractAutoMowerModel.java:421-480 | the heading is Headed: free, a bounce off a single wall, a sweep at a corner, or a nudge away from the first wall |
| Mower.AutoMower.NextMowing | src/main/java/de/in/autoMower/sim/AbstractAutoMowerModel.java:415-533 | the mowing step is Replanned; the ray is cast along the chosen Headed heading and its outcome is exactly Search from the mower's position; a hit gives Hit (a collision reported, a segment to the hit), no hit after 200 attempts gives Lost (one more navigation error, then CHARGING at the dock or STOPPED) |
| Mower.AutoMower.TakeHit | src/main/java/de/in/autoMower/sim/AbstractAutoMowerModel.java:499-509 | the mower after the accepted hit is Hit: the collision is reported through the model hook, and the hit becomes the end of a segment from the mower's position |
| Mower.AutoMower.Recover | src/main/java/de/in/autoMower/sim/AbstractAutoMowerModel.java:518-532 | the mower after a failed search is Lost: one more navigation error, then CHARGING at the dock or STOPPED without one, on an empty segment |
| Mower.AutoMower.NextSeeking | src/main/java/de/in/autoMower/sim/AbstractAutoMowerModel.java:303-323 | the seeking step is Sought |
| Mower.AutoMower.NextSegment | src/main/java/de/in/autoMower/sim/AbstractAutoMowerModel.java:294-534 | calculateNextSegment is Planned and keeps the invariant |
| Mower.AutoMower.Tick | src/main/java/de/in/autoMower/sim/AbstractAutoMowerModel.java:203-291 | one pass of the run loop: runtime grows by dt; without a position or ground model the mower stops; CHARGING runs the timer and, once it reaches 3 s, fills the battery, resets the timer and resumes MOWING with a planned segment; the grid is untouched in these passes; otherwise the pass is Drove: drain, the low-battery switch to SEEKING_BORDER with a new plan, depletion to the dock or STOPPED, a segment planned if missing, the step or segment completion with its new plan, and onMove; the coverage grid is mowed (DriveSwath) exactly when the step stops short of the segment end |
| Mower.AutoMower.DriveTick | src/main/java/de/in/autoMower/sim/AbstractAutoMowerModel.java:211-279 | outside CHARGING, a pass adds dt to the runtime and then is Drove from that mower, with the coverage grid changed exactly as DriveSwath says |
| Mower.AutoMower.ChargeTick | src/main/java/de/in/autoMower/sim/AbstractAutoMowerModel.java:216-224 | the timer runs; once it reaches 3 s the battery is full, the mower is MOWING and a segment is planned |
| Mower.AutoMower.Drive | src/main/java/de/in/autoMower/sim/AbstractAutoMowerModel.java:225-279 | a driving pass is Drove from the mower before it, and the coverage grid is DriveSwath: the swath around the new point exactly when the step stops short of the segment end |
| Mower.AutoMower.Prepare | src/main/java/de/in/autoMower/sim/AbstractAutoMowerModel.java:226-259 | the drained mower goes through LowSwitched (below 10% while MOWING: SEEKING_BORDER and a new plan); it halts exactly when the battery is then empty, with the mower Depleted; otherwise a missing segment is planned (Segmented) |
| Mower.AutoMower.Drain | src/main/java/de/in/autoMower/sim/AbstractAutoMowerModel.java:226-232 | the mower after the drain is AfterDrain: the battery drops by distance times consumption, a transit adds the distance, nothing else changes |
| Mower.AutoMower.SeekIfLow | src/main/java/de/in/autoMower/sim/AbstractAutoMowerModel.java:234-237 | the mower is LowSwitched: a MOWING mower below 10% of capacity starts SEEKING_BORDER and is Planned; otherwise nothing changes |
| Mower.AutoMower.Deplete | src/main/java/de/in/autoMower/sim/AbstractAutoMowerModel.java:239-255 | the mower is Depleted: battery 0, then CHARGING at the dock with the timer reset, or STOPPED in place without one |
| Mower.AutoMower.EnsureSegment | src/main/java/de/in/autoMower/sim/AbstractAutoMowerModel.java:257-259 | the mower is Segmented: without a segment it is Planned; with one nothing changes |
| Mower.AutoMower.Moved | src/main/java/de/in/autoMower/sim/AbstractAutoMowerModel.java:278 | the mower is AfterMove: the distance-based model books the move with OnMove; other models change nothing |
| Mower.AutoMower.Advance | src/main/java/de/in/autoMower/sim/AbstractAutoMowerModel.java:261-277 | the mower is Advanced: a step that reaches the end stands there, appends it to the trace, counts an edge point and is Planned; a shorter positive step moves along the segment; the coverage grid gets the swath exactly for the shorter step |
| Mower.AutoMower.Move | src/main/java/de/in/autoMower/sim/AbstractAutoMowerModel.java:261-278 | the step is Advanced, then AfterMove books it; battery, runtime and coverage object stay, and the coverage grid gets the swath exactly for a step short of the end |
| Mower.AutoMower.CompleteSegment | src/main/java/de/in/autoMower/sim/AbstractAutoMowerModel.java:263-270 | the mower stands at the segment end, which is appended to the trace, and the next segment is planned |
| Mower.AutoMower.StepAlong | src/main/java/de/in/autoMower/sim/AbstractAutoMowerModel.java:271-276 | the mower moves towards the end, its segment now starts there, and the coverage grid is mowed around it |
| Mower.AutoMower.Start | src/main/java/de/in/autoMower/sim/AbstractAutoMowerModel.java:139-199 | the spawn rule; an unsafe spawn stops early; a safe one fills the battery, sets the state, initialises the coverage and plans the first segment |
| Mower.AutoMower.Spawn | src/main/java/de/in/autoMower/sim/AbstractAutoMowerModel.java:140-154 | the spawn is SpawnPoint and is appended to the visual trace |
| Mower.AutoMower.StartEdge | src/main/java/de/in/autoMower/sim/AbstractAutoMowerModel.java:169-191 | the edge-cutting set-up is EdgeStart |
| Persistence.FromPoint | src/main/java/de/in/autoMower/sim/ProjectData.java:22-25 | the record holds the point's x and y |
| Persistence.ToPoint | src/main/java/de/in/autoMower/sim/ProjectData.java:27-29 | the point has the record's x and y |
| Persistence.PointRoundTrip | src/main/java/de/in/autoMower/sim/ProjectData.java:22-29 | saving and loading a point gives the same point |
| Persistence.FromZonePoint | src/main/java/de/in/autoMower/sim/ProjectData.java:41-45 | the record holds the zone point's coordinates and percentage |
| Persistence.ToZonePoint | src/main/java/de/in/autoMower/sim/ProjectData.java:47-49 | the zone point has the record's coordinates and percentage |
| Persistence.ZonePointRoundTrip | src/main/java/de/in/autoMower/sim/ProjectData.java:41-49 | a zone point keeps its place and its percentage through a save and a load |
| Persistence.FromPoints | src/main/java/de/in/autoMower/sim/ProjectData.java:62 | one record per vertex, in order |
| Persistence.ToPoints | src/main/java/de/in/autoMower/sim/ProjectData.java:69-73 | one point per record, in order |
| Persistence.PointsRoundTrip | src/main/java/de/in/autoMower/sim/ProjectData.java:61-73 | a vertex list comes back unchanged, in the same order |
| Persistence.StoredPoints | src/main/java/de/in/autoMower/sim/ProjectData.java:69 | a null list of records rebuilds no vertices |
| Persistence.FromMultiLine | src/main/java/de/in/autoMower/sim/ProjectData.java:61-65 | the record holds every vertex in order and the closed flag |
| Persistence.ToMultiLine | src/main/java/de/in/autoMower/sim/ProjectData.java:67-77 | a fresh polyline with the stored vertices in order (none for a null list), closed exactly when the record says so |
| Persistence.MultiLineRoundTrip | src/main/java/de/in/autoMower/sim/ProjectData.java:61-77 | saving and loading a polyline keeps its vertices, their order and its closed flag |
| Persistence.DefaultMowerDto | src/main/java/de/in/autoMower/sim/ProjectData.java:84-89 | the no-argument record: 50 Wh, 0.00045 Wh/cm, 0.02 Wh/s, version 1, no position |
| Persistence.DefaultIsStandardModel | src/main/java/de/in/autoMower/sim/ProjectData.java:89 | a record without a version reads as the standard model |
| Persistence.FromMower | src/main/java/de/in/autoMower/sim/ProjectData.java:94-104 | settings copied, the version of the mower's model, and a position exactly when the mower has one, equal to it |
| Persistence.VersionIdentifiesModel | src/main/java/de/in/autoMower/sim/ProjectData.java:103 | equal versions mean the same kind of model |
| Persistence.FromZonePoints | src/main/java/de/in/autoMower/sim/MenuBar.java:113-116 | one record per zone point, in order |
| Persistence.ToZonePoints | src/main/java/de/in/autoMower/sim/ProjectData.java:47-49 | one zone point per record, in order |
| Persistence.ZonePointsRoundTrip | src/test/java/de/in/autoMower/sim/ZonePointTest.java:107-116 | a list of zone points comes back unchanged, in the same order |

## Left out

- Threads, wall-clock time and the UI refresh of `runMower`: `Tick` is one pass of the loop with `dtSim` given. `timeScale` is folded into it.
- `Random`, `Math.cos`/`sin`/`atan2`/`toRadians`: the headings they produce are the `Navigator` parameter. Every contract holds for any heading.
- `GeomUtil.getIntersectPoint`, `getColinearPointWithLength`, `GroundModel.isInside` (both overloads), `getDistOnPerimeter`, `getPointAtDistOnPerimeter`, `getPerimeterLength`, `getZonePoints`, `getChargingStation`, `getCollidingLine` and `MultiLine2D.contains` are function fields of `Arena`. Their source is not part of this model. `ValidArena` states what the model expects of them: a non-empty border, positive calibration and perimeter, perimeter distances in [0, L), and a point for every such distance.
- `MultiLine2D.getBounds` (the bounding box of the coverage grid) is passed to `Start` as parameters.
- Mower.AutoMower.Tick: the run loop catches every exception and stops the mower. The model keeps the two such paths callers can reach as STOPPED: a tick without a position, and a non-charging tick without a ground model. It does not model an exception thrown inside the oracles.
- Mower.AutoMower.Drive: the `currentLine == null` crash after `calculateNextSegment` cannot happen in the model, because a mower that is not stopped always has a segment after planning (`PlannedHasSegment`). The branch is therefore absent.
- Mower.AutoMower.HandleCollision: when the mower has no segment, the source hands a null line to `getIntersectPoint` (AbstractAutoMowerModel.java:593), whose behaviour on null is outside this model. The model then takes the wall's first point, the source's own fallback for a missing intersection.
- Mower.AutoMower.Spawn: the source makes the mower's visual trace the same object as the polyline it was given and appends to it in place, so the caller sees every new point. The model keeps the trace as a sequence owned by the mower, so that sharing is not modelled.
- Ground.GroundModel.SetCalibration: a zero-length measuring line is excluded. Java divides by the zero length and stores Infinity, or NaN for 0 cm, and the reals here have neither.
- Mower.AutoMower.NextSeeking: `findNearestBorderPoint` returning null makes the source stop. With a valid arena the border is never empty, so that branch is absent.
- Mower.AutoMower.Tick: the dock teleport on an empty battery skips `onMove` for that pass, as the source's `continue` does.
- Mower.AutoMower.NextTransitStep: unlike following, a stop on the way to the transition target does not step the border index back. The model follows the code.
- Mower.AutoMower.NextEdge: when no edge point is left the mower goes STOPPED, as the code does.
- ZonesV2.Midpoint: the V2 midpoint is not reduced modulo the perimeter, so it can exceed L (`MidpointCanPassPerimeter`). The model keeps it as written and hands it to the perimeter oracle unchanged.
- `chargeRateWhPerSec` is never written and charging always takes 3 s. It is the constant `CHARGE_RATE_WH_PER_SEC`, used only when saving.
- Setters and getters that only copy a field (`setSpeedInCmPerSec`, `setCurrentPosition`, `getCurrentLine`, `getTimeScale`, ...), `toString`, `getModelName`, `createNewInstance`: they only move a value.
- Drawing and messages (`draw`, `drawStats`, `mouseMoved`, `showErrorMessage`, `showInfoMessage`, `updateUI`): display only.
- The `colorRGB` of `MultiLineDTO` and the colour of `MultiLine2D`: display only.
- JSON serialisation (Jackson), the background image (`ImageIO`, Base64) and the `GroundModel` constructor's read of `ground.png`: file and image I/O.
- Integer widths: `int` and `long` counters are unbounded integers here. Their overflow would need more than 2^31 collisions or pixels.
