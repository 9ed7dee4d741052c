/**
 * The `Borehole` dataclass and the three methods that fill its derived
 * state: `_calculate_depths` (the sampled depths), `calculate_drilling_pathNEW`
 * and `calculate_drilling_pathOLD` (the drilling path). Each method is proved
 * to leave in its field the value the matching specification function
 * gives, and nothing else changes.
 */
module BoreholeModel {
  import opened Wrappers
  import opened Numerics
  import opened BoreholeData
  import DepthGrid
  import PathStepping
  import PathSegments

  /** `if v not in depths: depths.append(v)`. */
  method AppendIfAbsent(depths: seq<real>, v: real) returns (r: seq<real>)
    ensures r == DepthGrid.AppendAbsent(depths, v)
  {
    r := depths;
    if v !in r {
      r := r + [v];
    }
  }

  /**
   * The loop `_calculate_depths` runs over the casings and again over the
   * lithology intervals: each `depth_from`, then each `depth_to`, is
   * appended when the list does not already hold it.
   */
  method AppendMissing(depths: seq<real>, spans: seq<(real, real)>) returns (r: seq<real>)
    ensures r == DepthGrid.AddBoundaries(depths, spans)
  {
    r := depths;
    var i := 0;
    while i < |spans|
      invariant 0 <= i <= |spans|
      invariant r == DepthGrid.AddBoundaries(depths, spans[..i])
    {
      var (depthFrom, depthTo) := spans[i];
      var next := AppendIfAbsent(r, depthFrom);
      next := AppendIfAbsent(next, depthTo);
      DepthGrid.AddBoundariesStep(depths, spans, i, r, next);
      r := next;
      i := i + 1;
    }
    assert spans[..i] == spans;
  }

  /**
   * The inner loop of `calculate_drilling_pathNEW`: walks the survey,
   * keeping as lower station the last one at or above `depth`, and stops at
   * the first station below it, the upper one.
   */
  method FindStations(survey: seq<SurveySegment>, depth: real)
    returns (lowerSegment: Option<SurveySegment>, upperSegment: Option<SurveySegment>)
    ensures var j := PathStepping.FirstDeeper(survey, depth);
      lowerSegment == (if j == 0 then None else Some(survey[j - 1])) &&
      upperSegment == (if j < |survey| then Some(survey[j]) else None)
  {
    lowerSegment, upperSegment := None, None;
    var s := 0;
    while s < |survey|
      invariant 0 <= s <= |survey|
      invariant upperSegment.None?
      invariant forall t :: 0 <= t < s ==> survey[t].depth <= depth
      invariant lowerSegment == if s == 0 then None else Some(survey[s - 1])
    {
      var segment := survey[s];
      if segment.depth <= depth {
        lowerSegment := Some(segment);
      } else if segment.depth > depth && upperSegment.None? {
        upperSegment := Some(segment);
        break;
      }
      s := s + 1;
    }
    PathStepping.FirstDeeperIs(survey, depth, s);
  }

  /**
   * One pass of the loop of `calculate_drilling_pathNEW`: search the survey
   * for the last station at or above `depth` and the first one below it and,
   * when both exist, append the point stepped from the path's last one.
   */
  method StepToDepth(path: seq<PathPoint>, survey: seq<SurveySegment>, depth: real, ops: FloatOps)
    returns (r: seq<PathPoint>)
    requires |path| >= 1
    ensures var next := PathStepping.NextPoint(path[|path| - 1], survey, depth, ops);
      r == if next.Some? then path + [next.value] else path
  {
    var lowerSegment, upperSegment := FindStations(survey, depth);
    r := path;
    if lowerSegment.Some? && upperSegment.Some? {
      // lines 134-148: the interpolation ratio and the displacement
      var newPoint := PathStepping.StepPoint(path[|path| - 1], lowerSegment.value, upperSegment.value, depth, ops);
      r := path + [newPoint];
    }
  }

  /** The loop of `calculate_drilling_pathNEW` over all the sampled depths. */
  method StepAlongDepths(path: seq<PathPoint>, survey: seq<SurveySegment>, depths: seq<real>, ops: FloatOps)
    returns (r: seq<PathPoint>)
    requires |path| >= 1
    ensures r == PathStepping.PathAfter(path, survey, depths, ops)
  {
    r := path;
    var k := 0;
    while k < |depths|
      invariant 0 <= k <= |depths|
      invariant r == PathStepping.PathAfter(path, survey, depths[..k], ops)
    {
      var next := StepToDepth(r, survey, depths[k], ops);
      PathStepping.PathAfterStep(path, survey, depths, k, ops, r, next);
      r := next;
      k := k + 1;
    }
    assert depths[..k] == depths;
  }

  /**
   * The inner loop of `calculate_drilling_pathOLD` (`for j in range(count)`):
   * each point is the one before moved by the fixed step and labelled
   * `startDepth + j * interval`. Also returns the loop's last point and last
   * `current_depth`, which the remainder step reuses.
   */
  method StepInterval(start: PathPoint, stepX: real, stepY: real, stepZ: real, startDepth: real, interval: real, count: int)
    returns (points: seq<PathPoint>, lastPoint: PathPoint, currentDepth: real)
    ensures points == PathSegments.Steps(start, stepX, stepY, stepZ, startDepth, interval, if count > 0 then count else 0)
    ensures lastPoint == if count > 0 then points[count - 1] else start
    ensures count > 0 ==> currentDepth == PathSegments.StepDepth(startDepth, interval, count - 1)
  {
    lastPoint := start;
    points := [];
    // only meaningful once the loop has run at least once
    currentDepth := startDepth;
    var j := 0;
    while j < count
      invariant 0 <= j && (j <= count || j == 0)
      invariant points == PathSegments.Steps(start, stepX, stepY, stepZ, startDepth, interval, j)
      invariant lastPoint == if j == 0 then start else points[j - 1]
      invariant j > 0 ==> currentDepth == PathSegments.StepDepth(startDepth, interval, j - 1)
    {
      var newX := lastPoint.x + stepX;
      var newY := lastPoint.y + stepY;
      var newZ := lastPoint.z + stepZ;
      currentDepth := startDepth + j as real * interval;
      var newPoint := PathPoint(newX, newY, newZ, Some(currentDepth));
      PathSegments.StepsExtend(start, stepX, stepY, stepZ, startDepth, interval, j);
      assert currentDepth == PathSegments.StepDepth(startDepth, interval, j);
      assert points + [newPoint] == PathSegments.Steps(start, stepX, stepY, stepZ, startDepth, interval, j + 1);
      points := points + [newPoint];
      assert points[j] == newPoint;
      lastPoint := newPoint;
      j := j + 1;
    }
  }

  /**
   * The body of `calculate_drilling_pathOLD`'s loop for one station pair:
   * `int(total / interval) + 1` points, each the one before moved by the
   * fixed step of the deeper station's direction and labelled
   * `prev.depth + j * interval`, then, when the remainder is positive, a
   * point moved by the remainder, labelled with the last `current_depth`.
   */
  method SegmentOf(start: PathPoint, prevSegment: SurveySegment, currSegment: SurveySegment, interval: real, ops: FloatOps)
    returns (points: seq<PathPoint>)
    requires 0.0 < interval
    ensures points == PathSegments.Segment(start, prevSegment, currSegment, interval, ops)
  {
    var totalDistance := currSegment.depth - prevSegment.depth;
    var inclination := DegToRad(currSegment.dip);
    var azimuth := DegToRad(currSegment.azimuth);
    // the names are the source's: the x step is the one it calls dy
    var dxPerInterval := PathSegments.AlongY(interval, inclination, azimuth, ops);
    var dyPerInterval := PathSegments.AlongX(interval, inclination, azimuth, ops);
    var dzPerInterval := PathSegments.AlongZ(-interval, inclination, ops);
    var numIntervals := PathSegments.IntervalCount(totalDistance, interval);
    var lastPoint, currentDepth;
    points, lastPoint, currentDepth :=
      StepInterval(start, dyPerInterval, dxPerInterval, dzPerInterval, prevSegment.depth, interval, numIntervals + 1);
    assert |points| == PathSegments.StepCount(totalDistance, interval);
    PathSegments.SegmentFromSteps(start, prevSegment, currSegment, interval, ops, points);
    var remainingDistance := totalDistance - numIntervals as real * interval;
    assert remainingDistance == PathSegments.Remainder(totalDistance, interval);
    if remainingDistance > 0.0 {
      PathSegments.PositiveRemainderAfterSteps(totalDistance, interval);
      var newX := lastPoint.x + PathSegments.AlongX(remainingDistance, inclination, azimuth, ops);
      var newY := lastPoint.y + PathSegments.AlongY(remainingDistance, inclination, azimuth, ops);
      var newZ := lastPoint.z - PathSegments.AlongZ(remainingDistance, inclination, ops);
      var finalPoint := PathPoint(newX, newY, newZ, Some(currentDepth));
      points := points + [finalPoint];
    }
  }

  /**
   * The loop of `calculate_drilling_pathOLD`: for each consecutive station
   * pair, append that pair's points to the path.
   */
  method AppendSegments(path: seq<PathPoint>, survey: seq<SurveySegment>, interval: real, ops: FloatOps)
    returns (r: seq<PathPoint>)
    requires |path| >= 1 && 0.0 < interval
    ensures r == PathSegments.SegmentsAfter(path, survey, interval, ops)
  {
    r := path;
    if |survey| < 2 {
      return;
    }
    var i := 1;
    while i < |survey|
      invariant 1 <= i <= |survey|
      invariant r == PathSegments.SegmentsAfter(path, survey[..i], interval, ops)
    {
      var points := SegmentOf(r[|r| - 1], survey[i - 1], survey[i], interval, ops);
      PathSegments.SegmentsAfterStep(path, survey, i, interval, ops, r, points);
      r := r + points;
      i := i + 1;
    }
    assert survey[..i] == survey;
  }

  class Borehole {
    var holeId: string
    var easting: real
    var northing: real
    var elevation: real
    var maxDepth: real
    var drillingRadius: real
    var drillingXyzPath: seq<PathPoint>
    var drillingSurvey: seq<SurveySegment>
    var casings: Option<seq<Casing>>
    var intervals: Option<seq<Interval>>
    var drillingDepths: Option<seq<real>>

    /** The dataclass constructor; `_drilling_depths` starts as `None`. */
    constructor (holeId: string, easting: real, northing: real, elevation: real, maxDepth: real,
                 drillingRadius: real, drillingXyzPath: seq<PathPoint>, drillingSurvey: seq<SurveySegment>,
                 casings: Option<seq<Casing>>, intervals: Option<seq<Interval>>)
      ensures this.holeId == holeId && this.easting == easting && this.northing == northing
      ensures this.elevation == elevation && this.maxDepth == maxDepth && this.drillingRadius == drillingRadius
      ensures this.drillingXyzPath == drillingXyzPath && this.drillingSurvey == drillingSurvey
      ensures this.casings == casings && this.intervals == intervals && this.drillingDepths == None
    {
      this.holeId, this.easting, this.northing, this.elevation := holeId, easting, northing, elevation;
      this.maxDepth, this.drillingRadius := maxDepth, drillingRadius;
      this.drillingXyzPath, this.drillingSurvey := drillingXyzPath, drillingSurvey;
      this.casings, this.intervals, this.drillingDepths := casings, intervals, None;
    }

    /** The collar's position at depth 0, where both path methods start. */
    function CollarPoint(): (p: PathPoint)
      reads this
      ensures p.x == easting && p.y == northing && p.z == elevation && p.depth == Some(0.0)
    {
      PathPoint(easting, northing, elevation, Some(0.0))
    }

    /**
     * `_calculate_depths(spacing)`: stores the sorted depth list and changes
     * no other field.
     */
    method CalculateDepths(spacing: real, ops: FloatOps)
      requires spacing != 0.0
      modifies this`drillingDepths
      ensures drillingDepths == Some(DepthGrid.DrillingDepths(maxDepth, spacing, casings, intervals, ops))
    {
      // 1) the regular grid, then max_depth, each rounded
      var digits := DepthGrid.Digits(maxDepth, spacing, ops);
      var depths := DepthGrid.Arange(maxDepth, spacing);
      depths := depths + [maxDepth];
      depths := DepthGrid.RoundAll(depths, digits, ops);

      // 2) casing boundaries not yet present, 3) then interval boundaries
      depths := AppendMissing(depths, DepthGrid.CasingSpans(casings));
      depths := AppendMissing(depths, DepthGrid.IntervalSpans(intervals));
      drillingDepths := Some(DepthGrid.SortAscending(depths));
    }
    /**
     * `calculate_drilling_pathNEW(interval)`: restarts the path at the
     * collar, recomputes the depths with `interval` as spacing, then steps
     * the path along them.
     */
    method CalculateDrillingPathNew(interval: real, ops: FloatOps)
      requires interval != 0.0
      modifies this`drillingXyzPath, this`drillingDepths
      ensures drillingDepths == Some(DepthGrid.DrillingDepths(maxDepth, interval, casings, intervals, ops))
      ensures drillingXyzPath == PathStepping.DrillingPathNew(CollarPoint(), drillingSurvey, drillingDepths.value, ops)
    {
      drillingXyzPath := [CollarPoint()];
      CalculateDepths(interval, ops);
      drillingXyzPath := StepAlongDepths(drillingXyzPath, drillingSurvey, drillingDepths.value, ops);
    }

    /**
     * `calculate_drilling_pathOLD(interval)`: restarts the path at the
     * collar, then for each consecutive station pair appends that pair's
     * points.
     */
    method CalculateDrillingPathOld(interval: real, ops: FloatOps)
      requires 0.0 < interval
      modifies this`drillingXyzPath
      ensures drillingXyzPath == PathSegments.DrillingPathOld(CollarPoint(), drillingSurvey, interval, ops)
    {
      drillingXyzPath := AppendSegments([CollarPoint()], drillingSurvey, interval, ops);
    }
  }
}
