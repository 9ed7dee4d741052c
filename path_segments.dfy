/**
 * What `Borehole.calculate_drilling_pathOLD` computes: for each consecutive
 * pair of survey stations, `int(total / interval) + 1` points stepped by a
 * fixed displacement taken from the deeper station's dip and azimuth, then one
 * more point for the remainder of the segment when it is positive.
 */
module PathSegments {
  import opened Wrappers
  import opened Numerics
  import opened BoreholeData

  /** `num_intervals = int(total_distance / interval)`, truncated toward zero. */
  function IntervalCount(total: real, interval: real): int
    requires 0.0 < interval
  {
    Trunc(total / interval)
  }

  /** How many times `range(num_intervals + 1)` runs. */
  function StepCount(total: real, interval: real): nat
    requires 0.0 < interval
  {
    var num := IntervalCount(total, interval);
    if num + 1 > 0 then num + 1 else 0
  }

  /**
   * On a pair going down the loop runs `int(total / interval) + 1` times; on
   * a pair going up at most once (once when the rise is below one interval).
   */
  lemma StepCountBounds(total: real, interval: real)
    requires 0.0 < interval
    ensures 0.0 <= total ==> StepCount(total, interval) == IntervalCount(total, interval) + 1
    ensures total < 0.0 ==> StepCount(total, interval) <= 1
  {
    TruncBounds(total / interval);
    if 0.0 <= total {
      assert 0.0 <= total / interval;
    } else {
      assert total / interval < 0.0;
    }
  }

  /** `total_distance - num_intervals * interval`. */
  function Remainder(total: real, interval: real): real
    requires 0.0 < interval
  {
    total - IntervalCount(total, interval) as real * interval
  }

  /** A positive remainder only happens after at least one step, on a segment going down. */
  lemma PositiveRemainderAfterSteps(total: real, interval: real)
    requires 0.0 < interval
    requires Remainder(total, interval) > 0.0
    ensures 0.0 <= total && IntervalCount(total, interval) >= 0
  {
    TruncBounds(total / interval);
  }

  /** `current_depth = prev_segment.depth + j * interval`. */
  function StepDepth(start: real, interval: real, j: int): real
  {
    start + j as real * interval
  }

  /**
   * The points of the inner loop: `count` points, each the one before moved
   * by (stepX, stepY, stepZ), the j-th labelled `start + j * interval`.
   */
  function Steps(last: PathPoint, stepX: real, stepY: real, stepZ: real, start: real, interval: real, count: nat): (r: seq<PathPoint>)
    ensures |r| == count
  {
    if count == 0 then []
    else
      var init := Steps(last, stepX, stepY, stepZ, start, interval, count - 1);
      var before := if init == [] then last else init[|init| - 1];
      init + [PathPoint(before.x + stepX, before.y + stepY, before.z + stepZ, Some(StepDepth(start, interval, count - 1)))]
  }

  /** The j-th point of the inner loop carries the depth `start + j * interval`. */
  lemma {:induction false} StepsDepths(last: PathPoint, stepX: real, stepY: real, stepZ: real, start: real, interval: real, count: nat)
    ensures forall j :: 0 <= j < count ==>
      Steps(last, stepX, stepY, stepZ, start, interval, count)[j].depth == Some(StepDepth(start, interval, j))
  {
    if count > 0 {
      StepsDepths(last, stepX, stepY, stepZ, start, interval, count - 1);
      var init := Steps(last, stepX, stepY, stepZ, start, interval, count - 1);
      assert forall j :: 0 <= j < count - 1 ==> Steps(last, stepX, stepY, stepZ, start, interval, count)[j] == init[j];
    }
  }

  /** `q` is `p` moved by (stepX, stepY, stepZ). */
  ghost predicate SteppedFrom(p: PathPoint, q: PathPoint, stepX: real, stepY: real, stepZ: real)
  {
    q.x == p.x + stepX && q.y == p.y + stepY && q.z == p.z + stepZ
  }

  /** Each point of the inner loop is the one before it (the segment's start for the first) plus one step. */
  lemma {:induction false} StepsDisplacement(last: PathPoint, stepX: real, stepY: real, stepZ: real, start: real, interval: real, count: nat)
    ensures count > 0 ==> SteppedFrom(last, Steps(last, stepX, stepY, stepZ, start, interval, count)[0], stepX, stepY, stepZ)
    ensures forall j :: 1 <= j < count ==>
      SteppedFrom(Steps(last, stepX, stepY, stepZ, start, interval, count)[j - 1],
                  Steps(last, stepX, stepY, stepZ, start, interval, count)[j], stepX, stepY, stepZ)
  {
    if count > 0 {
      StepsDisplacement(last, stepX, stepY, stepZ, start, interval, count - 1);
      var init := Steps(last, stepX, stepY, stepZ, start, interval, count - 1);
      var r := Steps(last, stepX, stepY, stepZ, start, interval, count);
      assert forall j :: 0 <= j < count - 1 ==> r[j] == init[j];
    }
  }

  /** How many points one survey pair adds: the steps, plus one when the remainder is positive. */
  function SegmentPoints(prev: SurveySegment, curr: SurveySegment, interval: real): nat
    requires 0.0 < interval
  {
    var total := curr.depth - prev.depth;
    StepCount(total, interval) + if Remainder(total, interval) > 0.0 then 1 else 0
  }

  /** `length * sin(inclination) * cos(azimuth)`: the displacement the code adds to x. */
  function AlongX(length: real, inclination: real, azimuth: real, ops: FloatOps): real
  {
    length * ops.sin(inclination) * ops.cos(azimuth)
  }

  /** `length * sin(inclination) * sin(azimuth)`: the displacement the code adds to y. */
  function AlongY(length: real, inclination: real, azimuth: real, ops: FloatOps): real
  {
    length * ops.sin(inclination) * ops.sin(azimuth)
  }

  /** `length * cos(inclination)`: the vertical part of a length along the hole. */
  function AlongZ(length: real, inclination: real, ops: FloatOps): real
  {
    length * ops.cos(inclination)
  }

  /**
   * Lines 163-217: the points one survey pair adds after `last`. A positive
   * remainder adds a last point whose depth label repeats the last step's
   * (`current_depth` is not advanced for it).
   */
  function Segment(last: PathPoint, prev: SurveySegment, curr: SurveySegment, interval: real, ops: FloatOps): seq<PathPoint>
    requires 0.0 < interval
  {
    var total := curr.depth - prev.depth;
    var inclination := DegToRad(curr.dip);
    var azimuth := DegToRad(curr.azimuth);
    var stepX := AlongX(interval, inclination, azimuth, ops);
    var stepY := AlongY(interval, inclination, azimuth, ops);
    var stepZ := AlongZ(-interval, inclination, ops);
    var num := IntervalCount(total, interval);
    var steps := Steps(last, stepX, stepY, stepZ, prev.depth, interval, StepCount(total, interval));
    var end := if steps == [] then last else steps[|steps| - 1];
    var remaining := Remainder(total, interval);
    if remaining > 0.0 then
      steps + [PathPoint(end.x + AlongX(remaining, inclination, azimuth, ops),
                         end.y + AlongY(remaining, inclination, azimuth, ops),
                         end.z - AlongZ(remaining, inclination, ops),
                         Some(StepDepth(prev.depth, interval, num)))]
    else steps
  }

  /** The inner loop's next iteration appends one step to the points so far. */
  lemma StepsExtend(last: PathPoint, stepX: real, stepY: real, stepZ: real, start: real, interval: real, j: nat)
    ensures var init := Steps(last, stepX, stepY, stepZ, start, interval, j);
      var before := if j == 0 then last else init[j - 1];
      Steps(last, stepX, stepY, stepZ, start, interval, j + 1) ==
        init + [PathPoint(before.x + stepX, before.y + stepY, before.z + stepZ, Some(StepDepth(start, interval, j)))]
  {
  }

  /** `Segment` spelled out: the steps, then the remainder point when the remainder is positive. */
  lemma SegmentFromSteps(last: PathPoint, prev: SurveySegment, curr: SurveySegment, interval: real, ops: FloatOps,
                         steps: seq<PathPoint>)
    requires 0.0 < interval
    requires var inclination := DegToRad(curr.dip);
      var azimuth := DegToRad(curr.azimuth);
      steps == Steps(last, AlongX(interval, inclination, azimuth, ops), AlongY(interval, inclination, azimuth, ops),
                     AlongZ(-interval, inclination, ops), prev.depth, interval, StepCount(curr.depth - prev.depth, interval))
    ensures var total := curr.depth - prev.depth;
      var inclination := DegToRad(curr.dip);
      var azimuth := DegToRad(curr.azimuth);
      var end := if steps == [] then last else steps[|steps| - 1];
      var remaining := Remainder(total, interval);
      Segment(last, prev, curr, interval, ops) ==
        if remaining > 0.0 then
          steps + [PathPoint(end.x + AlongX(remaining, inclination, azimuth, ops),
                             end.y + AlongY(remaining, inclination, azimuth, ops),
                             end.z - AlongZ(remaining, inclination, ops),
                             Some(StepDepth(prev.depth, interval, IntervalCount(total, interval))))]
        else steps
  {
  }

  /**
   * A station pair adds `SegmentPoints` points; with a positive remainder
   * the last one carries the same depth label as the step before it.
   */
  lemma SegmentShape(last: PathPoint, prev: SurveySegment, curr: SurveySegment, interval: real, ops: FloatOps)
    requires 0.0 < interval
    ensures |Segment(last, prev, curr, interval, ops)| == SegmentPoints(prev, curr, interval)
    ensures var r := Segment(last, prev, curr, interval, ops);
      Remainder(curr.depth - prev.depth, interval) > 0.0 ==> |r| >= 2 && r[|r| - 1].depth == r[|r| - 2].depth
  {
    var total := curr.depth - prev.depth;
    var inclination := DegToRad(curr.dip);
    var azimuth := DegToRad(curr.azimuth);
    var stepX := AlongX(interval, inclination, azimuth, ops);
    var stepY := AlongY(interval, inclination, azimuth, ops);
    var stepZ := AlongZ(-interval, inclination, ops);
    var count := StepCount(total, interval);
    StepsDepths(last, stepX, stepY, stepZ, prev.depth, interval, count);
    if Remainder(total, interval) > 0.0 {
      PositiveRemainderAfterSteps(total, interval);
      var steps := Steps(last, stepX, stepY, stepZ, prev.depth, interval, count);
      assert steps[count - 1].depth == Some(StepDepth(prev.depth, interval, count - 1));
    }
  }

  /** The path after the survey pairs up to the end of `survey`, starting from `path`. */
  function SegmentsAfter(path: seq<PathPoint>, survey: seq<SurveySegment>, interval: real, ops: FloatOps): (r: seq<PathPoint>)
    requires |path| >= 1 && 0.0 < interval
    ensures |path| <= |r|
  {
    if |survey| < 2 then path
    else
      var init := SegmentsAfter(path, survey[..|survey| - 1], interval, ops);
      init + Segment(init[|init| - 1], survey[|survey| - 2], survey[|survey| - 1], interval, ops)
  }

  /** The pairs only append: the starting path is kept as a prefix. */
  lemma {:induction false} SegmentsAfterKeeps(path: seq<PathPoint>, survey: seq<SurveySegment>, interval: real, ops: FloatOps)
    requires |path| >= 1 && 0.0 < interval
    ensures SegmentsAfter(path, survey, interval, ops)[..|path|] == path
  {
    if |survey| >= 2 {
      SegmentsAfterKeeps(path, survey[..|survey| - 1], interval, ops);
      var init := SegmentsAfter(path, survey[..|survey| - 1], interval, ops);
      var segment := Segment(init[|init| - 1], survey[|survey| - 2], survey[|survey| - 1], interval, ops);
      assert (init + segment)[..|path|] == init[..|path|];
    }
  }

  /** One more station adds the segment of the pair it closes. */
  lemma SegmentsAfterStep(path: seq<PathPoint>, survey: seq<SurveySegment>, i: nat, interval: real, ops: FloatOps,
                          current: seq<PathPoint>, points: seq<PathPoint>)
    requires |path| >= 1 && 0.0 < interval && 1 <= i < |survey|
    requires current == SegmentsAfter(path, survey[..i], interval, ops)
    requires points == Segment(current[|current| - 1], survey[i - 1], survey[i], interval, ops)
    ensures SegmentsAfter(path, survey[..i + 1], interval, ops) == current + points
  {
    var s := survey[..i + 1];
    assert s[..|s| - 1] == survey[..i];
    assert s[|s| - 2] == survey[i - 1] && s[|s| - 1] == survey[i];
  }

  /** `calculate_drilling_pathOLD`'s path, starting at the collar point. */
  function DrillingPathOld(collar: PathPoint, survey: seq<SurveySegment>, interval: real, ops: FloatOps): seq<PathPoint>
    requires 0.0 < interval
  {
    SegmentsAfter([collar], survey, interval, ops)
  }

  /** Points added by all survey pairs up to the end of `survey`. */
  function PairPoints(survey: seq<SurveySegment>, interval: real): nat
    requires 0.0 < interval
  {
    if |survey| < 2 then 0
    else PairPoints(survey[..|survey| - 1], interval) + SegmentPoints(survey[|survey| - 2], survey[|survey| - 1], interval)
  }

  /**
   * The old path holds the collar, then for each consecutive station pair
   * its steps (`int(total / interval) + 1` on a pair going down) and a
   * remainder point when the remainder is positive.
   */
  lemma {:induction false} DrillingPathOldLength(collar: PathPoint, survey: seq<SurveySegment>, interval: real, ops: FloatOps)
    requires 0.0 < interval
    ensures |DrillingPathOld(collar, survey, interval, ops)| == 1 + PairPoints(survey, interval)
    ensures DrillingPathOld(collar, survey, interval, ops)[0] == collar
  {
    SegmentsAfterLength([collar], survey, interval, ops);
    SegmentsAfterKeeps([collar], survey, interval, ops);
    var r := DrillingPathOld(collar, survey, interval, ops);
    assert r[..1] == [collar];
    assert r[0] == r[..1][0];
  }

  lemma {:induction false} SegmentsAfterLength(path: seq<PathPoint>, survey: seq<SurveySegment>, interval: real, ops: FloatOps)
    requires |path| >= 1 && 0.0 < interval
    ensures |SegmentsAfter(path, survey, interval, ops)| == |path| + PairPoints(survey, interval)
  {
    if |survey| >= 2 {
      SegmentsAfterLength(path, survey[..|survey| - 1], interval, ops);
      var init := SegmentsAfter(path, survey[..|survey| - 1], interval, ops);
      SegmentShape(init[|init| - 1], survey[|survey| - 2], survey[|survey| - 1], interval, ops);
    }
  }

  /** On a pair going down, the steps are `int(total / interval) + 1`. */
  lemma SegmentPointsDownward(prev: SurveySegment, curr: SurveySegment, interval: real)
    requires 0.0 < interval && prev.depth <= curr.depth
    ensures SegmentPoints(prev, curr, interval) ==
      Trunc((curr.depth - prev.depth) / interval) + 1 +
      (if curr.depth - prev.depth - Trunc((curr.depth - prev.depth) / interval) as real * interval > 0.0 then 1 else 0)
  {
  }
}
