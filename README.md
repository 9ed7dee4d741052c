# Borehole paths and Leapfrog export records, in Dafny

This project models the computational core of the `ifc-geology-example`
repository, which builds IFC and DXF geometry for geological boreholes. The
model covers four pieces.

- **The borehole package** (`src/borehole/borehole.py`):
  - `count_significant_figures`;
  - the depth sampler `Borehole._calculate_depths`. It builds a regular grid, then adds `max_depth`, then adds each casing and lithology boundary that is not already in the list, then sorts;
  - the two path builders `calculate_drilling_pathNEW` and `calculate_drilling_pathOLD`. NEW interpolates between the stations around each sampled depth. OLD steps each pair of survey stations in fixed increments.
- **The minimum-curvature routine `calculate_xyz`** of the dip/azimuth/depth example.
- **The checks and slicing that come before a borehole is swept into a DXF mesh:** `validate_borehole_data`, the casing depth window, and the conversion of points to `(x, y, z)` triples.
- **The record shaping of the Leapfrog Works IFC export:**
  - `add_pset_attributes`;
  - `get_related_elements_from_storey`;
  - the composition of the interval and collar tables, up to the point where they are written to CSV.

Floating-point primitives are uninterpreted. These are sin, cos, tan, acos, Python's `round` and `str` of a float. They travel in `Numerics.FloatOps`, so every property holds for any implementation of them. Degrees-to-radians, `int()` truncation and the element count of `np.arange` are modelled exactly. Python numbers are Dafny `real`s.

Code that works step by step is modelled as imperative Dafny:
- the `Borehole` dataclass is a class whose methods assign its fields;
- the loops are methods with loop invariants. Each is proved equal to a specification function, and the properties are proved as lemmas about those functions.

Pure code (string stripping, comprehensions, record flattening) is modelled as functions.

Modules, file by file:

| file | module | models |
|---|---|---|
| `wrappers.dfy` | `Wrappers` | `None`/value, a raised exception/value, and Python's `TypeError` |
| `numerics.dfy` | `Numerics` | the float primitives, `deg_to_rad`/`np.radians`, `int()`, and the length of `np.arange` |
| `borehole_data.dfy` | `BoreholeData` | the dataclasses and `count_significant_figures` |
| `depth_grid.dfy` | `DepthGrid` | what `_calculate_depths` computes |
| `path_stepping.dfy` | `PathStepping` | what `calculate_drilling_pathNEW` computes |
| `path_segments.dfy` | `PathSegments` | what `calculate_drilling_pathOLD` computes |
| `borehole.dfy` | `BoreholeModel` | the `Borehole` class and the loops of its three methods |
| `min_curvature.dfy` | `MinimumCurvature` | `calculate_xyz` |
| `casing_slices.dfy` | `CasingSlices` | `validate_borehole_data`, the casing filter, the tuple conversion |
| `leapfrog_values.dfy` | `PyValues` | Python values, `==`, `>` and `max` as the export uses them |
| `leapfrog_export.dfy` | `LeapfrogExport` | `add_pset_attributes`, `get_related_elements_from_storey`, `compose_leapfrog_csv_data_from_elem_info` |

## Model

| member | source | states |
|---|---|---|
| Numerics.DegToRad | ifc-geology-example/example6_dip_azi_depth.py:15-16 | 180 degrees is pi, 0 is 0, and the sign of the angle is kept |
| Numerics.DegToRadLinear | ifc-geology-example/example6_dip_azi_depth.py:15-16 | the conversion preserves sums and scalar multiples |
| Numerics.Trunc | src/borehole/borehole.py:177 | definition: `int()` on a float cuts toward zero, the floor for a non-negative value and minus the floor of the negation otherwise; its bounds are `TruncBounds` |
| Numerics.Ceil | src/borehole/borehole.py:80 | definition: the least integer at or above the value, which is how many elements `np.arange` yields; its bounds are `CeilBounds` |
| Numerics.TruncBounds | src/borehole/borehole.py:177 | `int()` of a float lies within one of it, on the side of zero |
| Numerics.CeilBounds | src/borehole/borehole.py:80 | the element count of `np.arange` is the least integer at or above `stop/step` |
| BoreholeData.RStrip | src/borehole/borehole.py:17 | `rstrip(c)` gives a prefix; every dropped character is `c` and the result does not end in `c` |
| BoreholeData.LStrip | src/borehole/borehole.py:18-20 | `lstrip(c)` gives a suffix; every dropped character is `c` and the result does not start with `c` |
| BoreholeData.CountSignificantFigures | src/borehole/borehole.py:11-27 | the count is at most the text's length. Without a point it is 0 exactly when the text is all zeros. With a single point it is 0 exactly when the text holds only zeros and the point |
| BoreholeData.NoLeadingFiguresLeft | src/borehole/borehole.py:20 | stripping leading zeros leaves nothing exactly when the text is all zeros |
| BoreholeData.NoFiguresLeft | src/borehole/borehole.py:16-25 | for a text with one point, the three strips leave nothing exactly when the text holds only zeros and that point |
| BoreholeData.DecimalPointCounted | src/borehole/borehole.py:16-27 | a decimal text with a significant first and last digit counts every character, the point included ("1.5" counts 3) |
| DepthGrid.Arange | src/borehole/borehole.py:80 | definition: `np.arange(0.0, stop, step)` as the exact multiples `k * step` for `k` below the clipped `Ceil(stop/step)`; `ArangeMultiples` states what they are |
| DepthGrid.Digits | src/borehole/borehole.py:78 | definition: the larger of the significant-figure counts of `str(spacing)` and `str(max_depth)`; `Grid` rounds to it |
| DepthGrid.ArangeMultiples | src/borehole/borehole.py:80 | `np.arange(0, stop, step)` is the k-th multiple of the step at position k. With a positive step every element is below `stop`, and the next multiple is not |
| DepthGrid.Grid | src/borehole/borehole.py:78-82 | the grid is the arange multiples then `max_depth`, each rounded to the larger significant-figure count of spacing and `max_depth` |
| DepthGrid.AddBoundaries | src/borehole/borehole.py:85-96 | definition: for each span in order, `depth_from` then `depth_to`, each appended only when absent; `AddBoundariesKeeps`, `AddBoundariesFresh`, `AddBoundariesStep` and `BoundaryOccurrences` state what it does |
| DepthGrid.AddBoundariesKeeps | src/borehole/borehole.py:85-96 | adding boundaries keeps the list so far as a prefix and puts every `depth_from` and `depth_to` in the list |
| DepthGrid.AppendAbsentGrows | src/borehole/borehole.py:86-89 | a conditional append keeps the list as a prefix and leaves the value present |
| DepthGrid.AddBoundariesFresh | src/borehole/borehole.py:85-96 | what is appended is only boundaries the list lacked, each once |
| DepthGrid.AddBoundariesStep | src/borehole/borehole.py:85-89 | one more casing or interval appends its `depth_from`, then its `depth_to`, each only when absent |
| DepthGrid.BoundaryOccurrences | src/borehole/borehole.py:85-96 | a value already present keeps its count; an absent boundary occurs once; nothing else is added |
| DepthGrid.InsertPermutes | src/borehole/borehole.py:98 | inserting adds exactly one occurrence of the value |
| DepthGrid.InsertAscending | src/borehole/borehole.py:98 | inserting into an ascending list keeps it ascending |
| DepthGrid.SortAscendingSorted | src/borehole/borehole.py:98 | `sorted` returns an ascending permutation of its input |
| DepthGrid.SortAscending | src/borehole/borehole.py:98 | definition: `sorted` on a list of floats, as an insertion sort; `SortAscendingSorted` states that it is an ascending permutation |
| DepthGrid.DrillingDepths | src/borehole/borehole.py:77-98 | definition: the rounded grid, then the casing boundaries, then the interval boundaries, sorted; `DrillingDepthsComplete` states what it holds |
| DepthGrid.DrillingDepthsComplete | src/borehole/borehole.py:77-98 | `_drilling_depths` is ascending and holds exactly the rounded grid values and the boundaries. A grid value occurs as often as in the grid, because the grid is not deduplicated. A boundary absent from the grid occurs once, however many casings or intervals share it |
| DepthGrid.BoundariesSampled | src/borehole/borehole.py:84-96 | every casing's and every interval's `depth_from` and `depth_to` end up in `_drilling_depths` |
| PathStepping.FirstDeeper | src/borehole/borehole.py:124-129 | the search stops at the first station strictly below the depth; every station before it is at or above the depth |
| PathStepping.FirstDeeperIs | src/borehole/borehole.py:124-129 | any index with those two properties is the one the search stops at |
| PathStepping.Ratio | src/borehole/borehole.py:134 | the ratio lies in [0, 1), and it is 0 exactly when the depth is the lower station's |
| PathStepping.StepPoint | src/borehole/borehole.py:134-148 | definition: the previous point moved by ratio times (sin of upper minus sin of lower azimuth, cos of upper minus cos of lower azimuth, minus the sum of the two dip cosines), labelled with the depth; `PathAfterChained` and `StationDepthRepeatsPosition` are about it |
| PathStepping.NextPoint | src/borehole/borehole.py:121-149 | a depth gets a point exactly when a station lies before the stopping index and one lies at it; the point carries that depth |
| PathStepping.Bracketed | src/borehole/borehole.py:119-132 | the depths that get a point are at most the sampled depths; `BracketedMembers` and `BracketedInOrder` say which, in what order and how often |
| PathStepping.BracketedInOrder | src/borehole/borehole.py:119-149 | the depths that get a point keep the sampled order, and a bracketed depth occurs exactly as often as it was sampled, so a repeated sampled depth adds a point each time |
| PathStepping.BracketedMembers | src/borehole/borehole.py:119-132 | a depth gets a point exactly when it is sampled and bracketed by the search |
| PathStepping.BracketedIffStationsAround | src/borehole/borehole.py:121-132 | on a survey ordered by depth, a depth is bracketed exactly when one station lies at or above it and another strictly below it. So depths at or beyond the last station add nothing |
| PathStepping.PathAfter | src/borehole/borehole.py:119-149 | the loop keeps the path so far and appends one point per bracketed depth |
| PathStepping.PathAfterChained | src/borehole/borehole.py:143-149 | each appended point is the one `NextPoint` computes from the point before it |
| PathStepping.PathAfterStep | src/borehole/borehole.py:119-149 | one more sampled depth appends at most the one point stepped from the last point |
| PathStepping.StationDepthRepeatsPosition | src/borehole/borehole.py:134-148 | a depth equal to the lower station's gives a point at the previous point's x, y, z |
| PathStepping.DrillingPathNewShape | src/borehole/borehole.py:113-149 | the path is the collar, then one point per bracketed depth, each carrying that depth |
| PathStepping.DrillingPathNew | src/borehole/borehole.py:113-149 | definition: the collar point followed by the points of the loop over the sampled depths; `DrillingPathNewShape` states its shape |
| PathSegments.StepCountBounds | src/borehole/borehole.py:177-183 | on a pair going down the inner loop runs `int(total/interval) + 1` times; on a pair going up it runs at most once |
| PathSegments.IntervalCount | src/borehole/borehole.py:177 | definition: `num_intervals`, the truncated quotient of the pair's depth difference by the interval |
| PathSegments.StepCount | src/borehole/borehole.py:183 | definition: how often `range(num_intervals + 1)` runs, `num_intervals + 1` clipped at 0; `StepCountBounds` bounds it |
| PathSegments.PositiveRemainderAfterSteps | src/borehole/borehole.py:211-212 | a positive remainder only occurs on a pair going down, after at least one step |
| PathSegments.Steps | src/borehole/borehole.py:183-208 | the inner loop appends exactly `count` points |
| PathSegments.StepsDepths | src/borehole/borehole.py:190-206 | the j-th step carries depth `prev.depth + j * interval` |
| PathSegments.StepsDisplacement | src/borehole/borehole.py:185-187 | each step is the point before it moved by the fixed per-interval displacement |
| PathSegments.StepsExtend | src/borehole/borehole.py:183-208 | one more iteration appends one step to the points so far |
| PathSegments.SegmentFromSteps | src/borehole/borehole.py:163-217 | a pair's points are its steps, then the remainder point when the remainder is positive |
| PathSegments.Segment | src/borehole/borehole.py:163-217 | definition: the steps along the deeper station's direction with x and y taken from `dy`/`dx` as the code swaps them, then, for a positive remainder, one point moved by the remainder and labelled with the last `current_depth`; `SegmentShape` and `SegmentFromSteps` are about it |
| PathSegments.SegmentShape | src/borehole/borehole.py:177-217 | a pair adds its step count plus one when the remainder is positive. The remainder point repeats the last step's depth label |
| PathSegments.SegmentPointsDownward | src/borehole/borehole.py:177-216 | on a pair going down the pair adds `int(total/interval) + 1` points, plus one for a positive remainder |
| PathSegments.SegmentsAfter | src/borehole/borehole.py:161-217 | the outer loop never shortens the path |
| PathSegments.SegmentsAfterKeeps | src/borehole/borehole.py:161-217 | the outer loop keeps the starting path as a prefix |
| PathSegments.SegmentsAfterStep | src/borehole/borehole.py:161-217 | one more station appends the points of the pair it closes |
| PathSegments.SegmentsAfterLength | src/borehole/borehole.py:161-217 | the path grows by the points of every consecutive pair |
| PathSegments.DrillingPathOldLength | src/borehole/borehole.py:155-217 | the old path is the collar plus the points of every consecutive station pair |
| PathSegments.DrillingPathOld | src/borehole/borehole.py:159-217 | definition: the collar point followed by the segments of every consecutive station pair; `DrillingPathOldLength` states its length |
| BoreholeModel.AppendIfAbsent | src/borehole/borehole.py:86-89 | appends the value exactly when it is absent |
| BoreholeModel.AppendMissing | src/borehole/borehole.py:85-96 | the loop over casings or intervals gives the list with the absent boundaries appended in order |
| BoreholeModel.FindStations | src/borehole/borehole.py:121-129 | the lower station is the one before the stopping index (None when that index is 0); the upper station is the one at it (None past the end) |
| BoreholeModel.StepToDepth | src/borehole/borehole.py:119-149 | one outer iteration appends the point for the depth, or nothing when the depth is not bracketed |
| BoreholeModel.StepAlongDepths | src/borehole/borehole.py:119-149 | the loop over the sampled depths computes the stepped path |
| BoreholeModel.StepInterval | src/borehole/borehole.py:183-208 | the inner loop's points are the steps, and it leaves the last point and its depth |
| BoreholeModel.SegmentOf | src/borehole/borehole.py:163-217 | one outer iteration computes the pair's steps and remainder point |
| BoreholeModel.AppendSegments | src/borehole/borehole.py:161-217 | the outer loop appends the points of every consecutive pair |
| BoreholeModel.Borehole.constructor | src/borehole/borehole.py:55-67 | the dataclass stores its fields, and `_drilling_depths` starts as None |
| BoreholeModel.Borehole.CalculateDepths | src/borehole/borehole.py:69-98 | stores the sorted depth list and changes no other field |
| BoreholeModel.Borehole.CalculateDrillingPathNew | src/borehole/borehole.py:109-149 | resets the path to the collar, recomputes the depths with `interval` as spacing, and stores the stepped path. Survey, casings and intervals are untouched |
| BoreholeModel.Borehole.CalculateDrillingPathOld | src/borehole/borehole.py:155-217 | resets the path to the collar and stores it with every pair's points appended; nothing else changes |
| MinimumCurvature.Clamp | ifc-geology-example/example6_dip_azi_depth.py:69-71 | the cosine handed to `acos` lies in [-1, 1]; it is kept inside that range and cut to the nearer end outside it |
| MinimumCurvature.DoglegCos | ifc-geology-example/example6_dip_azi_depth.py:57-68 | definition: `cos(dip2)cos(dip1) + sin(dip2)sin(dip1)cos(azi2 - azi1)` on the stations' angles in radians |
| MinimumCurvature.Dogleg | ifc-geology-example/example6_dip_azi_depth.py:69-71 | definition: `acos` of the clamped dogleg cosine |
| MinimumCurvature.RatioFactor | ifc-geology-example/example6_dip_azi_depth.py:74 | the ratio factor is 1 when the dogleg is 0 |
| MinimumCurvature.Step | ifc-geology-example/example6_dip_azi_depth.py:57-89 | definition: `rf * delta_md` times the average of the two stations' direction components (sin·cos, sin·sin, cos); `StraightPair` and `PairDisplacement` are about it |
| MinimumCurvature.Endpoint | ifc-geology-example/example6_dip_azi_depth.py:31-39 | definition: the single station's depth times (sin·cos, sin·sin, -cos) of its dip and azimuth; `SingleStationEndpoint` is about it |
| MinimumCurvature.Track | ifc-geology-example/example6_dip_azi_depth.py:51-95 | the accumulation yields one position per station |
| MinimumCurvature.CalculateXyz | ifc-geology-example/example6_dip_azi_depth.py:20-97 | the result is empty, or the origin and the endpoint, or the accumulated positions, by the number of stations |
| MinimumCurvature.Coordinates | ifc-geology-example/example6_dip_azi_depth.py:20-97 | definition: no coordinates for no station, the origin and the endpoint for one, the running positions for more; `CoordinatesShape` states its shape |
| MinimumCurvature.AccumulatePairs | ifc-geology-example/example6_dip_azi_depth.py:26-97 | the loop over station pairs, from the origin, yields the accumulated positions |
| MinimumCurvature.EndpointDisplacement | ifc-geology-example/example6_dip_azi_depth.py:31-39 | the single-station displacement is depth times (sin·cos, sin·sin, -cos) |
| MinimumCurvature.PairDisplacement | ifc-geology-example/example6_dip_azi_depth.py:53-89 | one pass computes the displacement from the clamped dogleg, its ratio factor and the averaged direction |
| MinimumCurvature.TrackStep | ifc-geology-example/example6_dip_azi_depth.py:91-95 | one more station appends the last position plus one displacement |
| MinimumCurvature.TrackChained | ifc-geology-example/example6_dip_azi_depth.py:63-95 | each position is the previous one plus the displacement of its station pair |
| MinimumCurvature.TrackStartsAtOrigin | ifc-geology-example/example6_dip_azi_depth.py:26-27 | the first position is the origin |
| MinimumCurvature.CoordinatesShape | ifc-geology-example/example6_dip_azi_depth.py:20-97 | there are 0, 2 or n coordinates for 0, 1 or n >= 2 stations. The first is (0, 0, 0), and from the second station on each is the previous one plus `rf·Δmd·(average direction)` |
| MinimumCurvature.SingleStationEndpoint | ifc-geology-example/example6_dip_azi_depth.py:29-48 | a single station gives exactly the origin and depth × (sin·cos, sin·sin, -cos) of its dip and azimuth |
| MinimumCurvature.StraightPair | ifc-geology-example/example6_dip_azi_depth.py:63-89 | two stations with the same direction give dogleg 0, ratio factor 1, and a step of the measured length along that direction |
| MinimumCurvature.VerticalHoleOrientation | ifc-geology-example/example6_dip_azi_depth.py:37-89 | a vertical hole of length d ends at z = -d as one station but at z = +d as two stations |
| CasingSlices.ValidateBoreholeData | src/example5_spheres_cylinders_and_cones.py:12-23 | it passes exactly when the radius is positive and the path has two or more points. A radius <= 0 is reported first, even when the path is also too short. Passing changes nothing |
| CasingSlices.FilterByCasing | src/example5_spheres_cylinders_and_cones.py:132-135 | it raises `TypeError` exactly when a point has no depth. Otherwise it keeps exactly the points with `depth_from <= depth <= depth_to`, as an order-preserving subsequence |
| CasingSlices.FilterByCasingCopies | src/example5_spheres_cylinders_and_cones.py:132-135 | a point inside the window occurs in the slice exactly as often as in the path, and a point outside it not at all; with the order kept this fixes the slice |
| CasingSlices.ToTuples | src/example5_spheres_cylinders_and_cones.py:49 | the conversion keeps the length and order, and each point's x, y, z |
| CasingSlices.TuplesOfSubsequence | src/example5_spheres_cylinders_and_cones.py:49 | the triples of a casing slice are a subsequence of the triples of the whole path |
| CasingSlices.NewPathSlicesCleanly | src/example5_spheres_cylinders_and_cones.py:132-135 | a path built by `calculate_drilling_pathNEW` has a depth on every point, so the filter never raises on it |
| PyValues.PyEqEquivalence | ifc-geology-example/example1_parse-leapfrog-boreholes-to-csv.py:129-131 | `==` is reflexive, symmetric and transitive on the exported values |
| PyValues.PyEq | ifc-geology-example/example1_parse-leapfrog-boreholes-to-csv.py:129 | definition: `==` on the exported values, numbers by value with `True` as 1, strings by content, `None` only with `None`, any other pair unequal |
| PyValues.StrLess | ifc-geology-example/example1_parse-leapfrog-boreholes-to-csv.py:130 | definition: `<` on strings, the first differing code point decides and a proper prefix is smaller; `GreaterAsymmetric` and `GreaterTransitive` rest on its order lemmas |
| PyValues.Greater | ifc-geology-example/example1_parse-leapfrog-boreholes-to-csv.py:130 | `>` is defined exactly between two numbers or two strings |
| PyValues.GreaterAsymmetric | ifc-geology-example/example1_parse-leapfrog-boreholes-to-csv.py:130-131 | a value above another is neither below nor equal to it |
| PyValues.GreaterTransitive | ifc-geology-example/example1_parse-leapfrog-boreholes-to-csv.py:130 | `>` is transitive, also through a value that is not above |
| PyValues.MaxIndex | ifc-geology-example/example1_parse-leapfrog-boreholes-to-csv.py:130 | `max` raises exactly when some element cannot be compared with the first. Otherwise it returns an element that every earlier one is below and no later one is above, so a tie goes to the first |
| LeapfrogExport.AddPsetAttributes | ifc-geology-example/example1_parse-leapfrog-boreholes-to-csv.py:60-65 | the set is exactly the `pset_name.property_name` strings over all psets and their properties |
| LeapfrogExport.PsetAttributeNamesUnion | ifc-geology-example/example1_parse-leapfrog-boreholes-to-csv.py:60-65 | the names of two property-set dicts with distinct set names, taken together, are the union of their names. The caller that takes this union is not part of this model |
| LeapfrogExport.ContainedIds | ifc-geology-example/example1_parse-leapfrog-boreholes-to-csv.py:54-58 | the flattened ids are exactly the related ids of the relations, with their total count |
| LeapfrogExport.ContainedIdsInOrder | ifc-geology-example/example1_parse-leapfrog-boreholes-to-csv.py:54-58 | the `k`-th id of relation `i` sits at position `k` after all ids of the relations before `i`: relation by relation, each in its own order |
| LeapfrogExport.GetRelatedElementsFromStorey | ifc-geology-example/example1_parse-leapfrog-boreholes-to-csv.py:48-58 | the result is None exactly for a non-storey; otherwise it is the related ids in nesting order |
| LeapfrogExport.FlattenInterval | ifc-geology-example/example1_parse-leapfrog-boreholes-to-csv.py:110-123 | the row has the ten base columns plus the `Attributes` keys. An attribute wins over a base column of the same name, and a missing `Attributes` pset adds nothing |
| LeapfrogExport.FlattenedIdentity | ifc-geology-example/example1_parse-leapfrog-boreholes-to-csv.py:112-115 | `id`, `global_id`, `name` and `level` are copied as `id`, `global_id`, `lithology_name` and `hole_id` |
| LeapfrogExport.FlattenedGeometry | ifc-geology-example/example1_parse-leapfrog-boreholes-to-csv.py:116-121 | without a bounding box all six geometric columns are None. With one, x and y are the box centre, z and `from_mNN` the box top, `to_mNN` the box bottom, and the diameter is the mean of the x and y lengths |
| LeapfrogExport.ReadableIntervals | ifc-geology-example/example1_parse-leapfrog-boreholes-to-csv.py:108-124 | there is one readable interval per input interval, in input order |
| LeapfrogExport.FlattenIntervals | ifc-geology-example/example1_parse-leapfrog-boreholes-to-csv.py:108-124 | the loop appends the readable intervals |
| LeapfrogExport.RelatedIntervals | ifc-geology-example/example1_parse-leapfrog-boreholes-to-csv.py:129 | a row is related exactly when its `hole_id` equals the collar\'s name; `RelatedIntervalsInOrder` states order and copies |
| LeapfrogExport.RelatedIntervalsInOrder | ifc-geology-example/example1_parse-leapfrog-boreholes-to-csv.py:129 | the related rows are a subsequence of the rows, in their order, and each related row occurs as often as in the rows |
| LeapfrogExport.ZValues | ifc-geology-example/example1_parse-leapfrog-boreholes-to-csv.py:130 | the list holds the `z` column of each row, in order |
| LeapfrogExport.FirstWithZ | ifc-geology-example/example1_parse-leapfrog-boreholes-to-csv.py:131 | the index is of the first row whose `z` equals the value |
| LeapfrogExport.CollarRowOf | ifc-geology-example/example1_parse-leapfrog-boreholes-to-csv.py:128-141 | definition: the collar's row from the related rows, the `max` of their `z` and the `x`, `y` of the first row with that `z`, or `None`s; `CollarRowIsTop` and `CollarRowRaises` state what it is |
| LeapfrogExport.CollarRowIsTop | ifc-geology-example/example1_parse-leapfrog-boreholes-to-csv.py:128-142 | the collar row names its collar. Its x, y, z are None without related rows. Otherwise z is a related `z` that none is above, and x and y come from the first related row with that `z` |
| LeapfrogExport.CollarRowRaises | ifc-geology-example/example1_parse-leapfrog-boreholes-to-csv.py:130 | a collar raises exactly when it has two or more related rows and one of their `z` values cannot be compared with the first |
| LeapfrogExport.MapOrRaise | ifc-geology-example/example1_parse-leapfrog-boreholes-to-csv.py:127-142 | the loop raises exactly when one of its items raises; otherwise it yields one result per item, in order |
| LeapfrogExport.ReadableCollars | ifc-geology-example/example1_parse-leapfrog-boreholes-to-csv.py:127-142 | it raises exactly when some collar raises; otherwise there is one collar row per collar, in order |
| LeapfrogExport.ComposeCollars | ifc-geology-example/example1_parse-leapfrog-boreholes-to-csv.py:127-142 | the loop appends the collar rows, or stops at the first `TypeError` |
| LeapfrogExport.ComposedTables | ifc-geology-example/example1_parse-leapfrog-boreholes-to-csv.py:101-143 | the result is None exactly for a file not from Leapfrog Works. It raises exactly when the file is from Leapfrog Works and some collar's `max` raises. Otherwise the interval table is the readable intervals and the collar table the readable collars built from them |
| LeapfrogExport.ComposeLeapfrogCsvData | ifc-geology-example/example1_parse-leapfrog-boreholes-to-csv.py:101-143 | the function composes those tables, or raises the collars' `TypeError` |

## Left out

- `Borehole.calculate_drilling_path` (src/borehole/borehole.py:219-243) delegates to the external `wellpathpy` library, which is not part of this model.
- Floating-point accuracy is not modelled.
  - sin, cos, tan, acos, `round` and `str` of a float are uninterpreted functions.
  - `np.arange` is modelled as the exact multiples `k * step`, not as numpy's accumulated floats.
  - NaN and infinities are not modelled.
  - Python ints and floats are both unbounded reals.
- IFC and DXF construction through ifcopenshell and ezdxf is left out: the profile sweep, the meshes, saving files, the modelspace, `get_objects_data_by_class`, `get_bbox_test` and `calc_volumes`. These are library calls. The bounding box is an abstract record.
- CSV writing (`write_list_of_dict_to_csv`, example1 lines 144-147), logging, the `verbose` prints and the `__main__` drivers are left out. They do I/O only.
- The groundwater, inclined-drilling, spherical-arc and other example scripts are not part of this model.
- `BoreholeModel.Borehole.constructor`: Python's default arguments are not modelled. These are `spacing=1` of `_calculate_depths`, `interval=0.10` of both path methods, and the `None` defaults of `casings`, `intervals` and `_drilling_depths`. The constructor takes `casings` and `intervals` explicitly and always starts `_drilling_depths` at `None`; a caller passing a depth list to the dataclass is not modelled.
- `Borehole.CalculateDepths`: requires a non-zero spacing. numpy's error for a zero `np.arange` step is not modelled.
- `Borehole.CalculateDrillingPathNew` (and `CalculateDepths` inside it) requires a non-zero interval for the same reason.
- `Borehole.CalculateDrillingPathOld`: requires a positive interval. The `ZeroDivisionError` of a zero interval is not modelled, and neither is a negative one.
- `BoreholeModel.StepAlongDepths`, `AppendSegments`, `AppendMissing`: the path methods build their lists as local values and assign the field once. Python appends to `self.drilling_xyzpath` in place, and nothing can observe the list in between, so aliasing is not modelled.
- `LeapfrogExport.FlattenInterval`: rows are maps. The key order of the Python dictionaries is not modelled; it only affects the column order of the CSV that is not written here.
- `LeapfrogExport.GetRelatedElementsFromStorey`: the element's entity name is taken as given and compared exactly with `"IFCBUILDINGSTOREY"`. How ifcopenshell's `is_a()` spells it is not part of this model.
- `LeapfrogExport.ComposeLeapfrogCsvData`: `app_info` is reduced to its `ApplicationFullName`. The rows are reduced to the fields the function reads.
- `CasingSlices.ValidateBoreholeData`: the `ValueError` messages are reduced to the error kind and the offending radius.
- The single-station and multi-station branches of `calculate_xyz` point z in opposite directions. This is stated in `MinimumCurvature.VerticalHoleOrientation` rather than corrected, since the code does not say which one is intended.
