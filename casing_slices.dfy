/**
 * The data checks and path slicing that `src/example5_spheres_cylinders_and_cones.py`
 * performs before it sweeps a circle profile along a borehole path: the two
 * ordered validity checks, the casing depth window, and the conversion of
 * path points to plain `(x, y, z)` triples.
 */
module CasingSlices {
  import opened Wrappers
  import opened BoreholeData
  import BoreholeModel
  import PathStepping
  import Numerics
  import opened Sequences

  /** The two `ValueError`s of `validate_borehole_data`. */
  datatype ValidationError = NonPositiveRadius(radius: real) | TooFewPathPoints

  /**
   * `validate_borehole_data`: `None` when the borehole may be swept, otherwise
   * the error it raises. The radius is checked before the path, so a borehole
   * failing both checks reports its radius.
   */
  function ValidateBoreholeData(borehole: BoreholeModel.Borehole): (r: Option<ValidationError>)
    reads borehole
    ensures r == None <==> borehole.drillingRadius > 0.0 && |borehole.drillingXyzPath| >= 2
    ensures borehole.drillingRadius <= 0.0 ==> r == Some(NonPositiveRadius(borehole.drillingRadius))
    ensures r == Some(TooFewPathPoints) <==> borehole.drillingRadius > 0.0 && |borehole.drillingXyzPath| < 2
  {
    if borehole.drillingRadius <= 0.0 then Some(NonPositiveRadius(borehole.drillingRadius))
    else if |borehole.drillingXyzPath| < 2 then Some(TooFewPathPoints)
    else None
  }

  /** `casing.depth_from <= depth <= casing.depth_to`. */
  predicate InCasing(depth: real, casing: Casing)
  {
    casing.depthFrom <= depth <= casing.depthTo
  }

  /**
   * The comprehension that cuts a casing's stretch out of a drilling path.
   * Comparing `depth_from` with a point's missing depth raises `TypeError`.
   */
  function FilterByCasing(path: seq<PathPoint>, casing: Casing): (r: Result<seq<PathPoint>, TypeError>)
    ensures r.Err? <==> exists i :: 0 <= i < |path| && path[i].depth.None?
    ensures r.Ok? ==> forall p :: p in r.value <==> p in path && p.depth.Some? && InCasing(p.depth.value, casing)
    ensures r.Ok? ==> IsSubsequence(r.value, path)
  {
    if path == [] then Ok([])
    else if path[0].depth.None? then Err(TypeError)
    else
      var rest := FilterByCasing(path[1..], casing);
      if rest.Err? then
        assert path[1..][0] == path[1];
        rest
      else if InCasing(path[0].depth.value, casing) then Ok([path[0]] + rest.value)
      else Ok(rest.value)
  }

  /**
   * The filter keeps every copy of a point inside the window, not just one:
   * a point occurs in the slice exactly as often as in the path when its
   * depth lies in the casing, and not at all otherwise. With the order kept,
   * this fixes the slice completely.
   */
  lemma {:induction false} FilterByCasingCopies(path: seq<PathPoint>, casing: Casing)
    requires FilterByCasing(path, casing).Ok?
    ensures forall p :: multiset(FilterByCasing(path, casing).value)[p] == (if p.depth.Some? && InCasing(p.depth.value, casing) then multiset(path)[p] else 0)
  {
    if path != [] {
      FilterByCasingCopies(path[1..], casing);
      assert path == [path[0]] + path[1..];
    }
  }

  /** The `(x, y, z)` triples `create_borehole_cylinder` hands to the sweep. */
  function ToTuples(path: seq<PathPoint>): (r: seq<(real, real, real)>)
    ensures |r| == |path|
    ensures forall i :: 0 <= i < |path| ==> r[i] == (path[i].x, path[i].y, path[i].z)
  {
    if path == [] then [] else [(path[0].x, path[0].y, path[0].z)] + ToTuples(path[1..])
  }

  /** A subsequence of a path gives a subsequence of its triples: the sweep of a casing follows the borehole's own course. */
  lemma {:induction false} TuplesOfSubsequence(a: seq<PathPoint>, b: seq<PathPoint>)
    requires IsSubsequence(a, b)
    ensures IsSubsequence(ToTuples(a), ToTuples(b))
  {
    if a != [] {
      assert b != [];
      if a[0] == b[0] {
        TuplesOfSubsequence(a[1..], b[1..]);
        assert ToTuples(a)[0] == ToTuples(b)[0];
        assert ToTuples(a)[1..] == ToTuples(a[1..]);
      } else {
        TuplesOfSubsequence(a, b[1..]);
        if ToTuples(a)[0] == ToTuples(b)[0] {
          SubsequenceDropHead(ToTuples(a), ToTuples(b[1..]));
        }
      }
      assert ToTuples(b)[1..] == ToTuples(b[1..]);
    }
  }

  /**
   * Every point of a path built by `calculate_drilling_pathNEW` from a collar
   * with a depth carries a depth, so cutting a casing out of it never raises.
   */
  lemma NewPathSlicesCleanly(collar: PathPoint, survey: seq<SurveySegment>, depths: seq<real>,
                             ops: Numerics.FloatOps, casing: Casing)
    requires collar.depth.Some?
    ensures FilterByCasing(PathStepping.DrillingPathNew(collar, survey, depths, ops), casing).Ok?
  {
    PathStepping.DrillingPathNewShape(collar, survey, depths, ops);
  }
}
