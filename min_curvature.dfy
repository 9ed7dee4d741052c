/**
 * `calculate_xyz` of the dip/azimuth/depth example: the position of a
 * borehole relative to its collar at each survey station, by the minimum
 * curvature method. The trigonometric functions are uninterpreted, so what is
 * proved is the structure of the computation: the case split on the number
 * of stations, the starting origin, the clamp before `acos`, the ratio
 * factor's fallback and the accumulation of one displacement per station
 * pair.
 */
module MinimumCurvature {
  import opened Numerics

  /** A survey station: measured depth, dip and azimuth, in degrees. */
  datatype SurveyStation = SurveyStation(depth: real, dip: real, azimuth: real)

  /** An `(x, y, z)` tuple of the result. */
  datatype Coord = Coord(x: real, y: real, z: real)

  const Origin: Coord := Coord(0.0, 0.0, 0.0)

  function Add(p: Coord, d: Coord): Coord
  {
    Coord(p.x + d.x, p.y + d.y, p.z + d.z)
  }

  /** `max(-1, min(1, v))`: the cosine handed to `acos` always lies in its domain. */
  function Clamp(v: real): (c: real)
    ensures -1.0 <= c <= 1.0
    ensures -1.0 <= v <= 1.0 ==> c == v
    ensures 1.0 < v ==> c == 1.0
    ensures v < -1.0 ==> c == -1.0
  {
    var upper := if 1.0 <= v then 1.0 else v;
    if upper <= -1.0 then -1.0 else upper
  }

  /** `cos_dls`: the cosine of the angle between the two stations' directions. */
  function DoglegCos(s1: SurveyStation, s2: SurveyStation, ops: FloatOps): real
  {
    var dip1 := DegToRad(s1.dip);
    var dip2 := DegToRad(s2.dip);
    var azi1 := DegToRad(s1.azimuth);
    var azi2 := DegToRad(s2.azimuth);
    ops.cos(dip2) * ops.cos(dip1) + ops.sin(dip2) * ops.sin(dip1) * ops.cos(azi2 - azi1)
  }

  /** `dls`: the dogleg angle, `acos` of the clamped cosine. */
  function Dogleg(s1: SurveyStation, s2: SurveyStation, ops: FloatOps): real
  {
    ops.acos(Clamp(DoglegCos(s1, s2, ops)))
  }

  /** `rf`: `2 / dls * tan(dls / 2)`, or 1 on a straight pair where the dogleg is 0. */
  function RatioFactor(dls: real, ops: FloatOps): (rf: real)
    ensures dls == 0.0 ==> rf == 1.0
  {
    if dls != 0.0 then 2.0 / dls * ops.tan(dls / 2.0) else 1.0
  }

  /** `rf * delta_md * (a + b) / 2`: the measured length times the average of two direction components. */
  function Increment(rf: real, deltaMd: real, a: real, b: real): real
  {
    rf * deltaMd * (a + b) / 2.0
  }

  /** The displacement from station `s1` to station `s2`. */
  function Step(s1: SurveyStation, s2: SurveyStation, ops: FloatOps): Coord
  {
    var dip1 := DegToRad(s1.dip);
    var dip2 := DegToRad(s2.dip);
    var azi1 := DegToRad(s1.azimuth);
    var azi2 := DegToRad(s2.azimuth);
    var rf := RatioFactor(Dogleg(s1, s2, ops), ops);
    var deltaMd := s2.depth - s1.depth;
    Coord(Increment(rf, deltaMd, ops.sin(dip1) * ops.cos(azi1), ops.sin(dip2) * ops.cos(azi2)),
          Increment(rf, deltaMd, ops.sin(dip1) * ops.sin(azi1), ops.sin(dip2) * ops.sin(azi2)),
          Increment(rf, deltaMd, ops.cos(dip1), ops.cos(dip2)))
  }

  /** The endpoint of a single station: its depth along its direction, with z taken downwards. */
  function Endpoint(station: SurveyStation, ops: FloatOps): Coord
  {
    var dip := DegToRad(station.dip);
    var azi := DegToRad(station.azimuth);
    Coord(station.depth * ops.sin(dip) * ops.cos(azi),
          station.depth * ops.sin(dip) * ops.sin(azi),
          -station.depth * ops.cos(dip))
  }

  /**
   * Positions after each station of `survey`, starting at the origin and
   * moving by `step` of each consecutive station pair.
   */
  function Track(survey: seq<SurveyStation>, step: (SurveyStation, SurveyStation) -> Coord): (r: seq<Coord>)
    requires |survey| >= 1
    ensures |r| == |survey|
  {
    if |survey| == 1 then [Origin]
    else
      var init := Track(survey[..|survey| - 1], step);
      init + [Add(init[|init| - 1], step(survey[|survey| - 2], survey[|survey| - 1]))]
  }

  /** The minimum curvature displacement as a function of a station pair. */
  function StepOf(ops: FloatOps): (SurveyStation, SurveyStation) -> Coord
  {
    (s1, s2) => Step(s1, s2, ops)
  }

  /** What `calculate_xyz` returns. */
  function Coordinates(survey: seq<SurveyStation>, ops: FloatOps): seq<Coord>
  {
    if |survey| == 0 then []
    else if |survey| == 1 then [Origin, Add(Origin, Endpoint(survey[0], ops))]
    else Track(survey, StepOf(ops))
  }

  /**
   * `calculate_xyz`: no station gives no coordinates, a single station the
   * origin and its endpoint, and more stations the origin and then the running
   * position after each station pair.
   */
  method CalculateXyz(surveyData: seq<SurveyStation>, ops: FloatOps) returns (coordinates: seq<Coord>)
    ensures coordinates == Coordinates(surveyData, ops)
  {
    if |surveyData| == 0 {
      return [];
    }
    if |surveyData| == 1 {
      var x, y, z := 0.0, 0.0, 0.0;
      coordinates := [Coord(x, y, z)];
      var deltaX, deltaY, deltaZ := EndpointDisplacement(surveyData[0], ops);
      x, y, z := x + deltaX, y + deltaY, z + deltaZ;
      coordinates := coordinates + [Coord(x, y, z)];
      assert coordinates[1] == Add(Origin, Endpoint(surveyData[0], ops));
      return;
    }
    coordinates := AccumulatePairs(surveyData, ops, StepOf(ops));
  }

  /**
   * The loop of `calculate_xyz` over the consecutive station pairs, from the
   * origin. The ghost `step` is `Step` itself, passed as a function value so
   * that the track only unfolds the displacement of the pair at hand.
   */
  method AccumulatePairs(surveyData: seq<SurveyStation>, ops: FloatOps, ghost step: (SurveyStation, SurveyStation) -> Coord)
    returns (coordinates: seq<Coord>)
    requires |surveyData| >= 1
    requires forall s1, s2 {:trigger Step(s1, s2, ops)} :: step(s1, s2) == Step(s1, s2, ops)
    ensures coordinates == Track(surveyData, step)
  {
    var x, y, z := 0.0, 0.0, 0.0;
    coordinates := [Coord(x, y, z)];
    var i := 1;
    while i < |surveyData|
      invariant 1 <= i <= |surveyData|
      invariant coordinates == Track(surveyData[..i], step)
      invariant Coord(x, y, z) == coordinates[i - 1]
    {
      var deltaX, deltaY, deltaZ := PairDisplacement(surveyData[i - 1], surveyData[i], ops);
      x, y, z := x + deltaX, y + deltaY, z + deltaZ;
      var next := coordinates + [Coord(x, y, z)];
      TrackStep(surveyData, i, step, coordinates, next);
      coordinates := next;
      i := i + 1;
    }
    assert surveyData[..i] == surveyData;
  }

  /** The single-station branch of `calculate_xyz`: the displacement to the endpoint. */
  method EndpointDisplacement(firstStation: SurveyStation, ops: FloatOps) returns (deltaX: real, deltaY: real, deltaZ: real)
    ensures Coord(deltaX, deltaY, deltaZ) == Endpoint(firstStation, ops)
  {
    var depth := firstStation.depth;
    var dip := DegToRad(firstStation.dip);
    var azi := DegToRad(firstStation.azimuth);
    deltaX := depth * ops.sin(dip) * ops.cos(azi);
    deltaY := depth * ops.sin(dip) * ops.sin(azi);
    // negative: z is taken downwards here
    deltaZ := -depth * ops.cos(dip);
  }

  /**
   * One pass of `calculate_xyz`'s loop: the dogleg between the two stations,
   * its ratio factor, and the displacement along the average direction.
   */
  method PairDisplacement(station1: SurveyStation, station2: SurveyStation, ops: FloatOps)
    returns (deltaX: real, deltaY: real, deltaZ: real)
    ensures Coord(deltaX, deltaY, deltaZ) == Step(station1, station2, ops)
  {
    var dip1 := DegToRad(station1.dip);
    var dip2 := DegToRad(station2.dip);
    var azi1 := DegToRad(station1.azimuth);
    var azi2 := DegToRad(station2.azimuth);
    var deltaMd := station2.depth - station1.depth;
    var cosDls := DoglegCos(station1, station2, ops);
    // constrained to [-1, 1] before acos
    var dls := ops.acos(Clamp(cosDls));
    var rf := if dls != 0.0 then 2.0 / dls * ops.tan(dls / 2.0) else 1.0;
    deltaX := rf * deltaMd * (ops.sin(dip1) * ops.cos(azi1) + ops.sin(dip2) * ops.cos(azi2)) / 2.0;
    deltaY := rf * deltaMd * (ops.sin(dip1) * ops.sin(azi1) + ops.sin(dip2) * ops.sin(azi2)) / 2.0;
    deltaZ := rf * deltaMd * (ops.cos(dip1) + ops.cos(dip2)) / 2.0;
  }

  /** One more station adds the position one step on from the last. */
  lemma TrackStep(survey: seq<SurveyStation>, i: nat, step: (SurveyStation, SurveyStation) -> Coord,
                  current: seq<Coord>, next: seq<Coord>)
    requires 1 <= i < |survey|
    requires current == Track(survey[..i], step)
    requires next == current + [Add(current[i - 1], step(survey[i - 1], survey[i]))]
    ensures Track(survey[..i + 1], step) == next
  {
    var s := survey[..i + 1];
    assert s[..|s| - 1] == survey[..i];
    assert s[|s| - 2] == survey[i - 1] && s[|s| - 1] == survey[i];
  }

  /** Each position is the one before it plus the step between their stations. */
  lemma {:induction false} TrackChained(survey: seq<SurveyStation>, step: (SurveyStation, SurveyStation) -> Coord, i: nat)
    requires 1 <= i < |survey|
    ensures Track(survey, step)[i] == Add(Track(survey, step)[i - 1], step(survey[i - 1], survey[i]))
  {
    var init := survey[..|survey| - 1];
    if i < |survey| - 1 {
      TrackChained(init, step, i);
      assert init[i - 1] == survey[i - 1] && init[i] == survey[i];
    }
  }

  lemma {:induction false} TrackStartsAtOrigin(survey: seq<SurveyStation>, step: (SurveyStation, SurveyStation) -> Coord)
    requires |survey| >= 1
    ensures Track(survey, step)[0] == Origin
  {
    if |survey| > 1 {
      TrackStartsAtOrigin(survey[..|survey| - 1], step);
    }
  }

  /**
   * The shape of the result: empty for no station, two coordinates for one,
   * one per station otherwise; it always starts at the origin, and from the
   * second station on each coordinate is the previous one plus one step.
   */
  lemma CoordinatesShape(survey: seq<SurveyStation>, ops: FloatOps)
    ensures var r := Coordinates(survey, ops);
      |r| == (if |survey| == 0 then 0 else if |survey| == 1 then 2 else |survey|)
    ensures |survey| >= 1 ==> Coordinates(survey, ops)[0] == Origin
    ensures |survey| >= 2 ==> forall i :: 1 <= i < |survey| ==>
      Coordinates(survey, ops)[i] == Add(Coordinates(survey, ops)[i - 1], Step(survey[i - 1], survey[i], ops))
  {
    if |survey| >= 2 {
      var step := StepOf(ops);
      TrackStartsAtOrigin(survey, step);
      forall i | 1 <= i < |survey|
        ensures Track(survey, step)[i] == Add(Track(survey, step)[i - 1], Step(survey[i - 1], survey[i], ops))
      {
        TrackChained(survey, step, i);
      }
    }
  }

  /** A single station ends at its depth along its own direction, z pointing down. */
  lemma SingleStationEndpoint(station: SurveyStation, ops: FloatOps)
    ensures var r := Coordinates([station], ops);
      var dip := DegToRad(station.dip);
      var azi := DegToRad(station.azimuth);
      && |r| == 2 && r[0] == Origin
      && r[1].x == station.depth * ops.sin(dip) * ops.cos(azi)
      && r[1].y == station.depth * ops.sin(dip) * ops.sin(azi)
      && r[1].z == -(station.depth * ops.cos(dip))
  {
    var dip := DegToRad(station.dip);
    assert -station.depth * ops.cos(dip) == -(station.depth * ops.cos(dip));
  }

  /**
   * Between two stations with the same direction the path is straight: for
   * trigonometry with cos 0 = 1, acos 1 = 0 and sin² + cos² = 1 at the dip,
   * the dogleg is 0, the ratio factor 1, and the step is the measured length
   * along that direction.
   */
  lemma StraightPair(s1: SurveyStation, s2: SurveyStation, ops: FloatOps)
    requires s1.dip == s2.dip && s1.azimuth == s2.azimuth
    requires ops.cos(0.0) == 1.0 && ops.acos(1.0) == 0.0
    requires var dip := DegToRad(s1.dip);
      ops.sin(dip) * ops.sin(dip) + ops.cos(dip) * ops.cos(dip) == 1.0
    ensures var dip := DegToRad(s1.dip);
      var azi := DegToRad(s1.azimuth);
      var length := s2.depth - s1.depth;
      Step(s1, s2, ops) == Coord(length * (ops.sin(dip) * ops.cos(azi)),
                                 length * (ops.sin(dip) * ops.sin(azi)),
                                 length * ops.cos(dip))
  {
    var dip := DegToRad(s1.dip);
    var azi := DegToRad(s1.azimuth);
    assert DegToRad(s2.azimuth) - DegToRad(s1.azimuth) == 0.0;
    assert DoglegCos(s1, s2, ops) == 1.0;
    assert Dogleg(s1, s2, ops) == 0.0;
  }

  /**
   * The vertical axis is not oriented the same way in the two cases: a
   * vertical hole (dip 0) of length `d` ends at z = -d when given as one
   * station, and at z = +d when given as stations at 0 and `d`.
   */
  lemma VerticalHoleOrientation(d: real, ops: FloatOps)
    requires 0.0 < d
    requires ops.cos(0.0) == 1.0 && ops.sin(0.0) == 0.0 && ops.acos(1.0) == 0.0
    ensures Coordinates([SurveyStation(d, 0.0, 0.0)], ops)[1].z == -d
    ensures Coordinates([SurveyStation(0.0, 0.0, 0.0), SurveyStation(d, 0.0, 0.0)], ops)[1].z == d
  {
    var s1 := SurveyStation(0.0, 0.0, 0.0);
    var s2 := SurveyStation(d, 0.0, 0.0);
    StraightPair(s1, s2, ops);
    var survey := [s1, s2];
    assert survey[..1] == [s1];
    assert Track(survey, StepOf(ops)) == [Origin, Add(Origin, Step(s1, s2, ops))];
  }
}
