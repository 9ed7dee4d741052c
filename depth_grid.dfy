/**
 * The depth grid `Borehole._calculate_depths` stores in `_drilling_depths`:
 * a rounded regular grid ending in `max_depth`, then every casing and
 * lithology-interval boundary not already present, then sorted.
 * These functions specify the grid; the loops live in `Borehole.CalculateDepths`.
 */
module DepthGrid {
  import opened Wrappers
  import opened Numerics
  import opened BoreholeData

  /** `np.arange(0.0, stop, step)`: k*step for every k below ceil(stop/step). */
  function Arange(stop: real, step: real): seq<real>
    requires step != 0.0
  {
    var n := Ceil(stop / step);
    seq(if n < 0 then 0 else n, k => k as real * step)
  }

  /**
   * With a positive step, `np.arange(0.0, stop, step)` is every multiple of
   * the step strictly below `stop`, ascending: the next multiple is not below it.
   */
  lemma ArangeMultiples(stop: real, step: real)
    requires step != 0.0
    ensures var r := Arange(stop, step);
      forall k :: 0 <= k < |r| ==> r[k] == k as real * step
    ensures var r := Arange(stop, step);
      0.0 < step ==> forall k :: 0 <= k < |r| ==> r[k] < stop
    ensures var r := Arange(stop, step);
      0.0 < step ==> stop <= |r| as real * step
  {
    var n := Ceil(stop / step);
    CeilBounds(stop / step);
    ArangeBounds(stop, step, n, Arange(stop, step));
  }

  lemma ArangeBounds(stop: real, step: real, n: int, r: seq<real>)
    requires step != 0.0 && stop / step <= n as real < stop / step + 1.0
    requires |r| == if n < 0 then 0 else n
    requires forall k :: 0 <= k < |r| ==> r[k] == k as real * step
    ensures 0.0 < step ==> forall k :: 0 <= k < |r| ==> r[k] < stop
    ensures 0.0 < step ==> stop <= |r| as real * step
  {
    if 0.0 < step {
      assert stop / step * step == stop;
      forall k | 0 <= k < |r| ensures r[k] < stop {
        assert k as real < stop / step;
        MulBelow(k as real, stop / step, step);
      }
      if n < 0 {
        assert stop / step < 0.0;
        MulAtLeast(stop / step, 0.0, step);
      } else {
        MulAtLeast(stop / step, n as real, step);
      }
    }
  }

  lemma MulBelow(a: real, b: real, c: real)
    requires 0.0 < c && a < b
    ensures a * c < b * c
  {
  }

  lemma MulAtLeast(a: real, b: real, c: real)
    requires 0.0 < c && a <= b
    ensures a * c <= b * c
  {
  }

  /** `max(count_significant_figures(spacing), count_significant_figures(max_depth))`. */
  function Digits(maxDepth: real, spacing: real, ops: FloatOps): nat
  {
    var a := CountSignificantFigures(ops.repr(spacing));
    var b := CountSignificantFigures(ops.repr(maxDepth));
    if a < b then b else a
  }

  /** The list comprehension `[round(d, digits) for d in depths]`. */
  function RoundAll(depths: seq<real>, digits: nat, ops: FloatOps): (r: seq<real>)
    ensures |r| == |depths|
    ensures forall k :: 0 <= k < |r| ==> r[k] == ops.round(depths[k], digits)
  {
    seq(|depths|, k requires 0 <= k < |depths| => ops.round(depths[k], digits))
  }

  /**
   * Step 1 of `_calculate_depths`: every multiple of `spacing` strictly below
   * `max_depth`, then `max_depth`, each rounded to `Digits` places.
   */
  function Grid(maxDepth: real, spacing: real, ops: FloatOps): (r: seq<real>)
    requires spacing != 0.0
    ensures |r| == |Arange(maxDepth, spacing)| + 1
    ensures r[|r| - 1] == ops.round(maxDepth, Digits(maxDepth, spacing, ops))
    ensures forall k :: 0 <= k < |r| - 1 ==>
      r[k] == ops.round(Arange(maxDepth, spacing)[k], Digits(maxDepth, spacing, ops))
  {
    RoundAll(Arange(maxDepth, spacing) + [maxDepth], Digits(maxDepth, spacing, ops), ops)
  }

  /** `if v not in depths: depths.append(v)`. */
  function AppendAbsent(depths: seq<real>, v: real): (r: seq<real>)
  {
    if v in depths then depths else depths + [v]
  }

  /** The `(depth_from, depth_to)` pairs of the casings; `None` reads as no casings. */
  function CasingSpans(casings: Option<seq<Casing>>): (r: seq<(real, real)>)
    ensures casings.None? ==> r == []
    ensures casings.Some? ==> |r| == |casings.value|
    ensures casings.Some? ==>
      forall k :: 0 <= k < |r| ==> r[k] == (casings.value[k].depthFrom, casings.value[k].depthTo)
  {
    match casings
    case None => []
    case Some(cs) => seq(|cs|, k requires 0 <= k < |cs| => (cs[k].depthFrom, cs[k].depthTo))
  }

  /** The `(depth_from, depth_to)` pairs of the lithology intervals; `None` reads as none. */
  function IntervalSpans(intervals: Option<seq<Interval>>): (r: seq<(real, real)>)
    ensures intervals.None? ==> r == []
    ensures intervals.Some? ==> |r| == |intervals.value|
    ensures intervals.Some? ==>
      forall k :: 0 <= k < |r| ==> r[k] == (intervals.value[k].depthFrom, intervals.value[k].depthTo)
  {
    match intervals
    case None => []
    case Some(ivs) => seq(|ivs|, k requires 0 <= k < |ivs| => (ivs[k].depthFrom, ivs[k].depthTo))
  }

  ghost predicate Distinct(s: seq<real>)
  {
    forall i, j :: 0 <= i < j < |s| ==> s[i] != s[j]
  }

  /** A value of `spans`, as a `depth_from` or a `depth_to`. */
  ghost predicate IsBoundary(spans: seq<(real, real)>, v: real)
  {
    exists k :: 0 <= k < |spans| && (spans[k].0 == v || spans[k].1 == v)
  }

  /**
   * Steps 2 and 3 of `_calculate_depths`: for each span in order, append its
   * `depth_from`, then its `depth_to`, each only when not yet in the list.
   */
  function AddBoundaries(depths: seq<real>, spans: seq<(real, real)>): seq<real>
    decreases |spans|
  {
    if spans == [] then depths
    else
      var last := spans[|spans| - 1];
      AppendAbsent(AppendAbsent(AddBoundaries(depths, spans[..|spans| - 1]), last.0), last.1)
  }

  /**
   * Adding boundaries keeps the old list as a prefix and puts every
   * boundary in the list.
   */
  lemma {:induction false} AddBoundariesKeeps(depths: seq<real>, spans: seq<(real, real)>)
    ensures var r := AddBoundaries(depths, spans);
      |depths| <= |r| && r[..|depths|] == depths
    ensures var r := AddBoundaries(depths, spans);
      forall k :: 0 <= k < |spans| ==> spans[k].0 in r && spans[k].1 in r
    decreases |spans|
  {
    if spans != [] {
      var init := spans[..|spans| - 1];
      AddBoundariesKeeps(depths, init);
      var prev := AddBoundaries(depths, init);
      var last := spans[|spans| - 1];
      var mid := AppendAbsent(prev, last.0);
      var r := AppendAbsent(mid, last.1);
      AppendAbsentGrows(prev, last.0);
      AppendAbsentGrows(mid, last.1);
      assert r[..|depths|] == mid[..|depths|] == prev[..|depths|];
      forall k | 0 <= k < |spans| ensures spans[k].0 in r && spans[k].1 in r {
        if k < |spans| - 1 {
          assert spans[k] == init[k];
        }
      }
    }
  }

  /** Appending an absent value keeps the list as a prefix, and the value is then present. */
  lemma AppendAbsentGrows(s: seq<real>, v: real)
    ensures var r := AppendAbsent(s, v);
      |s| <= |r| && r[..|s|] == s && v in r && forall x :: x in s ==> x in r
  {
  }

  /**
   * The part of `r` after `depths` holds only boundaries of `spans` that
   * `depths` lacks, each once.
   */
  ghost predicate FreshTail(depths: seq<real>, r: seq<real>, spans: seq<(real, real)>)
  {
    && |depths| <= |r| && r[..|depths|] == depths
    && (forall i :: |depths| <= i < |r| ==> r[i] !in depths && IsBoundary(spans, r[i]))
    && Distinct(r[|depths|..])
  }

  lemma AppendAbsentFresh(depths: seq<real>, prev: seq<real>, spans: seq<(real, real)>, v: real)
    requires FreshTail(depths, prev, spans) && IsBoundary(spans, v)
    ensures FreshTail(depths, AppendAbsent(prev, v), spans)
  {
    if v !in prev {
      var r := prev + [v];
      assert r[..|depths|] == prev[..|depths|];
      var t := r[|depths|..];
      forall i, j | 0 <= i < j < |t| ensures t[i] != t[j] {
        if j == |t| - 1 {
          assert t[i] == prev[|depths| + i];
        } else {
          assert t[i] == prev[|depths|..][i] && t[j] == prev[|depths|..][j];
        }
      }
    }
  }

  lemma FreshTailWider(depths: seq<real>, r: seq<real>, spans: seq<(real, real)>)
    requires spans != []
    requires FreshTail(depths, r, spans[..|spans| - 1])
    ensures FreshTail(depths, r, spans)
  {
    forall i | |depths| <= i < |r| ensures IsBoundary(spans, r[i]) {
      var init := spans[..|spans| - 1];
      var k :| 0 <= k < |init| && (init[k].0 == r[i] || init[k].1 == r[i]);
      assert spans[k] == init[k];
    }
  }

  /** What adding boundaries appends is only boundaries that were absent, each once. */
  lemma {:induction false} AddBoundariesFresh(depths: seq<real>, spans: seq<(real, real)>)
    ensures FreshTail(depths, AddBoundaries(depths, spans), spans)
    decreases |spans|
  {
    if spans == [] {
      assert AddBoundaries(depths, spans)[|depths|..] == [];
    } else {
      var init := spans[..|spans| - 1];
      AddBoundariesFresh(depths, init);
      var prev := AddBoundaries(depths, init);
      var last := spans[|spans| - 1];
      FreshTailWider(depths, prev, spans);
      assert IsBoundary(spans, last.0) && IsBoundary(spans, last.1) by {
        assert spans[|spans| - 1] == last;
      }
      AppendAbsentFresh(depths, prev, spans, last.0);
      AppendAbsentFresh(depths, AppendAbsent(prev, last.0), spans, last.1);
    }
  }

  ghost predicate Ascending(s: seq<real>)
  {
    forall i, j :: 0 <= i < j < |s| ==> s[i] <= s[j]
  }

  /** Insert `v` into a list after every leading element below it. */
  function Insert(v: real, s: seq<real>): seq<real>
  {
    if s == [] || v <= s[0] then [v] + s
    else [s[0]] + Insert(v, s[1..])
  }

  /** Python's `sorted` on a list of floats, as an insertion sort. */
  function SortAscending(s: seq<real>): seq<real>
  {
    if s == [] then []
    else Insert(s[|s| - 1], SortAscending(s[..|s| - 1]))
  }

  /** Inserting adds exactly one occurrence of `v`. */
  lemma {:induction false} InsertPermutes(v: real, s: seq<real>)
    ensures multiset(Insert(v, s)) == multiset(s) + multiset{v}
  {
    if s != [] && v > s[0] {
      InsertPermutes(v, s[1..]);
      assert s == [s[0]] + s[1..];
    }
  }

  /** Inserting into an ascending list keeps it ascending. */
  lemma {:induction false} InsertAscending(v: real, s: seq<real>)
    requires Ascending(s)
    ensures Ascending(Insert(v, s))
  {
    if s != [] && v > s[0] {
      var tail := s[1..];
      AscendingTail(s);
      InsertAscending(v, tail);
      InsertAbove(v, tail, s[0]);
      AscendingCons(s[0], Insert(v, tail));
    }
  }

  lemma AscendingTail(s: seq<real>)
    requires Ascending(s) && s != []
    ensures Ascending(s[1..])
  {
    forall i, j | 0 <= i < j < |s| - 1 ensures s[1..][i] <= s[1..][j] {
      assert s[1..][i] == s[i + 1] && s[1..][j] == s[j + 1];
    }
  }

  lemma AscendingCons(a: real, t: seq<real>)
    requires Ascending(t)
    requires forall j :: 0 <= j < |t| ==> a <= t[j]
    ensures Ascending([a] + t)
  {
    var r := [a] + t;
    forall i, j | 0 <= i < j < |r| ensures r[i] <= r[j] {
      assert r[j] == t[j - 1];
      if i > 0 {
        assert r[i] == t[i - 1];
      }
    }
  }

  /** A lower bound of `v` and of every element of `s` bounds every element after inserting. */
  lemma {:induction false} InsertAbove(v: real, s: seq<real>, m: real)
    requires m <= v && forall j :: 0 <= j < |s| ==> m <= s[j]
    ensures forall j :: 0 <= j < |Insert(v, s)| ==> m <= Insert(v, s)[j]
  {
    if s != [] && v > s[0] {
      InsertAbove(v, s[1..], m);
      var rest := Insert(v, s[1..]);
      assert Insert(v, s) == [s[0]] + rest;
      forall j | 0 <= j < |Insert(v, s)| ensures m <= Insert(v, s)[j] {
        if j > 0 {
          assert Insert(v, s)[j] == rest[j - 1];
        }
      }
    } else {
      forall j | 0 <= j < |Insert(v, s)| ensures m <= Insert(v, s)[j] {
        if j > 0 {
          assert Insert(v, s)[j] == s[j - 1];
        }
      }
    }
  }

  /** `sorted` returns an ascending permutation of its input. */
  lemma {:induction false} SortAscendingSorted(s: seq<real>)
    ensures Ascending(SortAscending(s))
    ensures multiset(SortAscending(s)) == multiset(s)
  {
    if s != [] {
      SortAscendingSorted(s[..|s| - 1]);
      InsertAscending(s[|s| - 1], SortAscending(s[..|s| - 1]));
      InsertPermutes(s[|s| - 1], SortAscending(s[..|s| - 1]));
      assert s == s[..|s| - 1] + [s[|s| - 1]];
    }
  }

  /**
   * The list `_calculate_depths` builds before sorting: the rounded grid,
   * then the casing boundaries, then the lithology-interval boundaries.
   */
  function CollectedDepths(maxDepth: real, spacing: real, casings: Option<seq<Casing>>,
                           intervals: Option<seq<Interval>>, ops: FloatOps): seq<real>
    requires spacing != 0.0
  {
    AddBoundaries(AddBoundaries(Grid(maxDepth, spacing, ops), CasingSpans(casings)), IntervalSpans(intervals))
  }

  /** The value `_calculate_depths` stores in `_drilling_depths`. */
  function DrillingDepths(maxDepth: real, spacing: real, casings: Option<seq<Casing>>,
                          intervals: Option<seq<Interval>>, ops: FloatOps): seq<real>
    requires spacing != 0.0
  {
    SortAscending(CollectedDepths(maxDepth, spacing, casings, intervals, ops))
  }

  lemma {:induction false} DistinctOnce(t: seq<real>, v: real)
    requires Distinct(t) && v in t
    ensures multiset(t)[v] == 1
  {
    assert t == [t[0]] + t[1..];
    if t[0] == v {
      assert v !in t[1..] by {
        forall j | 0 <= j < |t| - 1 ensures t[1..][j] != v {
          assert t[1..][j] == t[j + 1];
        }
      }
    } else {
      assert Distinct(t[1..]) by {
        forall i, j | 0 <= i < j < |t| - 1 ensures t[1..][i] != t[1..][j] {
          assert t[1..][i] == t[i + 1] && t[1..][j] == t[j + 1];
        }
      }
      DistinctOnce(t[1..], v);
    }
  }

  /**
   * How often a value occurs once the boundaries are added: as often as
   * before when it was already present, once when it is an absent boundary,
   * never otherwise.
   */
  lemma BoundaryOccurrences(depths: seq<real>, spans: seq<(real, real)>, v: real)
    ensures multiset(AddBoundaries(depths, spans))[v] ==
      if v in depths then multiset(depths)[v]
      else if IsBoundary(spans, v) then 1
      else 0
  {
    var r := AddBoundaries(depths, spans);
    AddBoundariesKeeps(depths, spans);
    AddBoundariesFresh(depths, spans);
    var t := r[|depths|..];
    assert r == depths + t;
    assert multiset(r) == multiset(depths) + multiset(t);
    if v in depths || !IsBoundary(spans, v) {
      assert v !in t;
    } else {
      var k :| 0 <= k < |spans| && (spans[k].0 == v || spans[k].1 == v);
      assert v in r;
      assert v in t;
      DistinctOnce(t, v);
    }
  }

  /**
   * `_drilling_depths` is ascending; it holds every rounded grid value and
   * every casing and interval boundary, and nothing else. A value of the
   * grid occurs as often as in the grid (the grid is not deduplicated); a
   * boundary absent from the grid occurs exactly once, however many casings
   * or intervals share it.
   */
  lemma DrillingDepthsComplete(maxDepth: real, spacing: real, casings: Option<seq<Casing>>,
                               intervals: Option<seq<Interval>>, ops: FloatOps, v: real)
    requires spacing != 0.0
    ensures Ascending(DrillingDepths(maxDepth, spacing, casings, intervals, ops))
    ensures v in DrillingDepths(maxDepth, spacing, casings, intervals, ops) <==>
      v in Grid(maxDepth, spacing, ops) || IsBoundary(CasingSpans(casings), v) || IsBoundary(IntervalSpans(intervals), v)
    ensures v in Grid(maxDepth, spacing, ops) ==>
      multiset(DrillingDepths(maxDepth, spacing, casings, intervals, ops))[v] == multiset(Grid(maxDepth, spacing, ops))[v]
    ensures v !in Grid(maxDepth, spacing, ops) && (IsBoundary(CasingSpans(casings), v) || IsBoundary(IntervalSpans(intervals), v)) ==>
      multiset(DrillingDepths(maxDepth, spacing, casings, intervals, ops))[v] == 1
  {
    var g := Grid(maxDepth, spacing, ops);
    var c := CasingSpans(casings);
    var inner := AddBoundaries(g, c);
    var outer := AddBoundaries(inner, IntervalSpans(intervals));
    BoundaryOccurrences(g, c, v);
    BoundaryOccurrences(inner, IntervalSpans(intervals), v);
    assert (v in inner) == (multiset(inner)[v] > 0);
    assert (v in g) == (multiset(g)[v] > 0);
    assert (v in outer) == (multiset(outer)[v] > 0);
    var d := DrillingDepths(maxDepth, spacing, casings, intervals, ops);
    SortAscendingSorted(outer);
    assert multiset(d) == multiset(outer);
    assert (v in d) == (multiset(d)[v] > 0);
  }

  /** Every casing's and every interval's `depth_from` and `depth_to` end up in `_drilling_depths`. */
  lemma BoundariesSampled(maxDepth: real, spacing: real, casings: Option<seq<Casing>>,
                          intervals: Option<seq<Interval>>, ops: FloatOps)
    requires spacing != 0.0
    ensures casings.Some? ==> forall k :: 0 <= k < |casings.value| ==>
      casings.value[k].depthFrom in DrillingDepths(maxDepth, spacing, casings, intervals, ops) &&
      casings.value[k].depthTo in DrillingDepths(maxDepth, spacing, casings, intervals, ops)
    ensures intervals.Some? ==> forall k :: 0 <= k < |intervals.value| ==>
      intervals.value[k].depthFrom in DrillingDepths(maxDepth, spacing, casings, intervals, ops) &&
      intervals.value[k].depthTo in DrillingDepths(maxDepth, spacing, casings, intervals, ops)
  {
    var c := CasingSpans(casings);
    var iv := IntervalSpans(intervals);
    if casings.Some? {
      forall k | 0 <= k < |casings.value|
        ensures casings.value[k].depthFrom in DrillingDepths(maxDepth, spacing, casings, intervals, ops)
        ensures casings.value[k].depthTo in DrillingDepths(maxDepth, spacing, casings, intervals, ops)
      {
        assert c[k] == (casings.value[k].depthFrom, casings.value[k].depthTo);
        DrillingDepthsComplete(maxDepth, spacing, casings, intervals, ops, casings.value[k].depthFrom);
        DrillingDepthsComplete(maxDepth, spacing, casings, intervals, ops, casings.value[k].depthTo);
      }
    }
    if intervals.Some? {
      forall k | 0 <= k < |intervals.value|
        ensures intervals.value[k].depthFrom in DrillingDepths(maxDepth, spacing, casings, intervals, ops)
        ensures intervals.value[k].depthTo in DrillingDepths(maxDepth, spacing, casings, intervals, ops)
      {
        assert iv[k] == (intervals.value[k].depthFrom, intervals.value[k].depthTo);
        DrillingDepthsComplete(maxDepth, spacing, casings, intervals, ops, intervals.value[k].depthFrom);
        DrillingDepthsComplete(maxDepth, spacing, casings, intervals, ops, intervals.value[k].depthTo);
      }
    }
  }

  /** Adding the boundaries of one more span is two more conditional appends. */
  lemma AddBoundariesStep(depths: seq<real>, spans: seq<(real, real)>, i: nat, current: seq<real>, next: seq<real>)
    requires i < |spans|
    requires current == AddBoundaries(depths, spans[..i])
    requires next == AppendAbsent(AppendAbsent(current, spans[i].0), spans[i].1)
    ensures AddBoundaries(depths, spans[..i + 1]) == next
  {
    assert spans[..i + 1][..i] == spans[..i];
  }
}
