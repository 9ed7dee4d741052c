/**
 * What `Borehole.calculate_drilling_pathNEW` computes: for each sampled depth,
 * the pair of survey stations around it (by a linear search that stops at the
 * first station deeper than the depth), and one new point stepped from the
 * last point of the path. The displacement is the one the code writes, not
 * the textbook minimum-curvature increment.
 */
module PathStepping {
  import opened Wrappers
  import opened Numerics
  import opened BoreholeData
  import opened Sequences

  /**
   * Index of the first station strictly deeper than `d` (|survey| when none
   * is). The search keeps as lower station the last one before it.
   */
  function FirstDeeper(survey: seq<SurveySegment>, d: real): (j: nat)
    ensures j <= |survey|
    ensures forall k :: 0 <= k < j ==> survey[k].depth <= d
    ensures j < |survey| ==> survey[j].depth > d
  {
    if survey == [] || survey[0].depth > d then 0
    else 1 + FirstDeeper(survey[1..], d)
  }

  /** `(depth - lower.depth) / (upper.depth - lower.depth)`. */
  function Ratio(d: real, lower: SurveySegment, upper: SurveySegment): (ratio: real)
    requires lower.depth <= d < upper.depth
    ensures 0.0 <= ratio < 1.0
    ensures ratio == 0.0 <==> d == lower.depth
  {
    var ratio := (d - lower.depth) / (upper.depth - lower.depth);
    QuotientBelowOne(d - lower.depth, upper.depth - lower.depth);
    ratio
  }

  lemma QuotientBelowOne(num: real, den: real)
    requires 0.0 <= num < den
    ensures num / den < 1.0
  {
    assert num / den * den == num;
  }

  /** Lines 134-148: the point at depth `d`, stepped from `prev`. */
  function StepPoint(prev: PathPoint, lower: SurveySegment, upper: SurveySegment, d: real, ops: FloatOps): PathPoint
    requires lower.depth <= d < upper.depth
  {
    var ratio := Ratio(d, lower, upper);
    var dipLower := DegToRad(lower.dip);
    var azimuthLower := DegToRad(lower.azimuth);
    var dipUpper := DegToRad(upper.dip);
    var azimuthUpper := DegToRad(upper.azimuth);
    PathPoint(prev.x + ratio * (ops.sin(azimuthUpper) - ops.sin(azimuthLower)),
              prev.y + ratio * (ops.cos(azimuthUpper) - ops.cos(azimuthLower)),
              prev.z - ratio * (ops.cos(dipLower) + ops.cos(dipUpper)),
              Some(d))
  }

  /** The point one sampled depth adds, or `None` when no station pair brackets it. */
  function NextPoint(prev: PathPoint, survey: seq<SurveySegment>, d: real, ops: FloatOps): (p: Option<PathPoint>)
    ensures p.Some? <==> 0 < FirstDeeper(survey, d) < |survey|
    ensures p.Some? ==> p.value.depth == Some(d)
  {
    var j := FirstDeeper(survey, d);
    if 0 < j < |survey| then Some(StepPoint(prev, survey[j - 1], survey[j], d, ops)) else None
  }

  /** The sampled depths that get a point, in order. */
  function Bracketed(survey: seq<SurveySegment>, depths: seq<real>): (r: seq<real>)
    ensures |r| <= |depths|
  {
    if depths == [] then []
    else
      var init := Bracketed(survey, depths[..|depths| - 1]);
      var d := depths[|depths| - 1];
      if 0 < FirstDeeper(survey, d) < |survey| then init + [d] else init
  }

  /**
   * The path after the loop over `depths`, starting from `path`: `path` is
   * kept, and one point follows per bracketed depth, each computed from the
   * point before it.
   */
  function PathAfter(path: seq<PathPoint>, survey: seq<SurveySegment>, depths: seq<real>, ops: FloatOps): (r: seq<PathPoint>)
    requires |path| >= 1
    ensures |r| == |path| + |Bracketed(survey, depths)|
    ensures r[..|path|] == path
  {
    if depths == [] then path
    else
      var init := PathAfter(path, survey, depths[..|depths| - 1], ops);
      var next := NextPoint(init[|init| - 1], survey, depths[|depths| - 1], ops);
      if next.Some? then init + [next.value] else init
  }

  /** Each point after `path` is the one `NextPoint` steps from the point before it. */
  lemma {:induction false} PathAfterChained(path: seq<PathPoint>, survey: seq<SurveySegment>, depths: seq<real>,
                                            ops: FloatOps, i: nat)
    requires |path| >= 1
    requires |path| <= i < |PathAfter(path, survey, depths, ops)|
    ensures NextPoint(PathAfter(path, survey, depths, ops)[i - 1], survey, Bracketed(survey, depths)[i - |path|], ops) ==
      Some(PathAfter(path, survey, depths, ops)[i])
  {
    var init := depths[..|depths| - 1];
    var d := depths[|depths| - 1];
    var prev := PathAfter(path, survey, init, ops);
    var r := PathAfter(path, survey, depths, ops);
    var b := Bracketed(survey, depths);
    var bInit := Bracketed(survey, init);
    var next := NextPoint(prev[|prev| - 1], survey, d, ops);
    assert r == if next.Some? then prev + [next.value] else prev;
    assert b == if next.Some? then bInit + [d] else bInit;
    if i < |prev| {
      PathAfterChained(path, survey, init, ops, i);
      assert r[i - 1] == prev[i - 1] && r[i] == prev[i] && b[i - |path|] == bInit[i - |path|];
    } else {
      assert r[i - 1] == prev[|prev| - 1] && r[i] == next.value && b[i - |path|] == d;
    }
  }

  /** The linear search's stopping index characterises `FirstDeeper`. */
  lemma {:induction false} FirstDeeperIs(survey: seq<SurveySegment>, d: real, j: nat)
    requires j <= |survey|
    requires forall k :: 0 <= k < j ==> survey[k].depth <= d
    requires j < |survey| ==> survey[j].depth > d
    ensures FirstDeeper(survey, d) == j
  {
    if j > 0 {
      assert survey[0].depth <= d;
      FirstDeeperIs(survey[1..], d, j - 1);
    }
  }

  /** One more sampled depth adds at most the one point `NextPoint` gives. */
  lemma PathAfterStep(path: seq<PathPoint>, survey: seq<SurveySegment>, depths: seq<real>, k: nat, ops: FloatOps,
                      current: seq<PathPoint>, next: seq<PathPoint>)
    requires |path| >= 1 && k < |depths|
    requires current == PathAfter(path, survey, depths[..k], ops)
    requires var p := NextPoint(current[|current| - 1], survey, depths[k], ops);
      next == if p.Some? then current + [p.value] else current
    ensures PathAfter(path, survey, depths[..k + 1], ops) == next
  {
    assert depths[..k + 1][..k] == depths[..k];
  }

  ghost predicate SurveyAscending(survey: seq<SurveySegment>)
  {
    forall i, j :: 0 <= i < j < |survey| ==> survey[i].depth <= survey[j].depth
  }

  /**
   * On a survey sorted by depth, a sampled depth gets a point exactly when a
   * station lies at or above it and another strictly below it; in particular
   * a depth at or beyond the last station gets none.
   */
  lemma BracketedIffStationsAround(survey: seq<SurveySegment>, d: real)
    requires SurveyAscending(survey)
    ensures 0 < FirstDeeper(survey, d) < |survey| <==>
      (exists k :: 0 <= k < |survey| && survey[k].depth <= d) &&
      (exists k :: 0 <= k < |survey| && survey[k].depth > d)
  {
    var j := FirstDeeper(survey, d);
    if j == 0 && |survey| > 0 {
      forall k | 0 <= k < |survey| ensures survey[k].depth > d {
        assert survey[0].depth <= survey[k].depth || k == 0;
      }
    }
    if 0 < j < |survey| {
      assert survey[j - 1].depth <= d && survey[j].depth > d;
    }
  }

  /** A depth bracketed on a station's own depth adds a point at the previous position. */
  lemma StationDepthRepeatsPosition(prev: PathPoint, survey: seq<SurveySegment>, d: real, ops: FloatOps)
    requires 0 < FirstDeeper(survey, d) < |survey|
    requires survey[FirstDeeper(survey, d) - 1].depth == d
    ensures NextPoint(prev, survey, d, ops).value.x == prev.x
    ensures NextPoint(prev, survey, d, ops).value.y == prev.y
    ensures NextPoint(prev, survey, d, ops).value.z == prev.z
  {
    var j := FirstDeeper(survey, d);
    var ratio := Ratio(d, survey[j - 1], survey[j]);
    assert ratio == 0.0;
    var p := StepPoint(prev, survey[j - 1], survey[j], d, ops);
    assert NextPoint(prev, survey, d, ops) == Some(p);
    assert p.x == prev.x + ratio * (ops.sin(DegToRad(survey[j].azimuth)) - ops.sin(DegToRad(survey[j - 1].azimuth)));
    assert p.y == prev.y + ratio * (ops.cos(DegToRad(survey[j].azimuth)) - ops.cos(DegToRad(survey[j - 1].azimuth)));
    assert p.z == prev.z - ratio * (ops.cos(DegToRad(survey[j - 1].dip)) + ops.cos(DegToRad(survey[j].dip)));
  }

  /** The bracketed depths are exactly the sampled depths that have a station pair around them. */
  lemma {:induction false} BracketedMembers(survey: seq<SurveySegment>, depths: seq<real>, d: real)
    ensures d in Bracketed(survey, depths) <==> d in depths && 0 < FirstDeeper(survey, d) < |survey|
  {
    if depths != [] {
      var init := depths[..|depths| - 1];
      BracketedMembers(survey, init, d);
      assert depths == init + [depths[|depths| - 1]];
    }
  }

  /**
   * The loop keeps the sampled order and every copy of a bracketed depth: the
   * bracketed depths are a subsequence of the sampled ones, and a bracketed
   * depth occurs as often as it was sampled.
   */
  lemma {:induction false} BracketedInOrder(survey: seq<SurveySegment>, depths: seq<real>)
    ensures IsSubsequence(Bracketed(survey, depths), depths)
    ensures forall d :: multiset(Bracketed(survey, depths))[d] == (if 0 < FirstDeeper(survey, d) < |survey| then multiset(depths)[d] else 0)
  {
    if depths != [] {
      var init := depths[..|depths| - 1];
      var d := depths[|depths| - 1];
      var bInit := Bracketed(survey, init);
      BracketedInOrder(survey, init);
      SubsequenceExtend(bInit, init, d);
      assert depths == init + [d];
      assert multiset(depths) == multiset(init) + multiset{d};
      if 0 < FirstDeeper(survey, d) < |survey| {
        assert Bracketed(survey, depths) == bInit + [d];
        assert multiset(Bracketed(survey, depths)) == multiset(bInit) + multiset{d};
      } else {
        assert Bracketed(survey, depths) == bInit;
      }
    }
  }

  /**
   * `calculate_drilling_pathNEW`'s path: the collar point at depth 0, then one
   * point per bracketed depth, carrying that depth, each stepped from the
   * point before it.
   */
  function DrillingPathNew(collar: PathPoint, survey: seq<SurveySegment>, depths: seq<real>, ops: FloatOps): seq<PathPoint>
  {
    PathAfter([collar], survey, depths, ops)
  }

  lemma DrillingPathNewShape(collar: PathPoint, survey: seq<SurveySegment>, depths: seq<real>, ops: FloatOps)
    ensures |DrillingPathNew(collar, survey, depths, ops)| == 1 + |Bracketed(survey, depths)|
    ensures DrillingPathNew(collar, survey, depths, ops)[0] == collar
    ensures forall i :: 1 <= i < |DrillingPathNew(collar, survey, depths, ops)| ==>
      DrillingPathNew(collar, survey, depths, ops)[i].depth == Some(Bracketed(survey, depths)[i - 1])
  {
    var path := [collar];
    var r := PathAfter(path, survey, depths, ops);
    var b := Bracketed(survey, depths);
    assert r[0] == r[..1][0];
    forall i | 1 <= i < |r| ensures r[i].depth == Some(b[i - 1]) {
      PathAfterChained(path, survey, depths, ops, i);
    }
  }
}
