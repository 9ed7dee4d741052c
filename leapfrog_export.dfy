/**
 * The record shaping of `example1_parse-leapfrog-boreholes-to-csv.py`, with
 * the IFC entities it reads abstracted as plain records: the `pset.prop`
 * names of a property-set dictionary, the ids contained in a building
 * storey, and the interval and collar tables composed for a Leapfrog Works
 * export.
 */
module LeapfrogExport {
  import opened Wrappers
  import opened PyValues
  import opened Sequences

  // ---------------------------------------------------------------- psets

  /** A property-set dictionary: pset name to its properties. */
  type PropertySets = map<string, map<string, Value>>

  /** The name `add_pset_attributes` gives a property of a pset. */
  function Dotted(psetName: string, propertyName: string): string
  {
    psetName + "." + propertyName
  }

  /** The dotted names of the properties of the psets named in `names`. */
  function DottedNames(psets: PropertySets, names: set<string>): set<string>
  {
    set psetName, propertyName | psetName in names && psetName in psets && propertyName in psets[psetName] ::
      Dotted(psetName, propertyName)
  }

  /** The dotted names of all properties of all psets. */
  function PsetAttributeNames(psets: PropertySets): set<string>
  {
    DottedNames(psets, psets.Keys)
  }

  /** `add_pset_attributes`: one dotted name per pset and property, gathered into a set. */
  method AddPsetAttributes(psets: PropertySets) returns (psetAttributes: set<string>)
    ensures psetAttributes == PsetAttributeNames(psets)
    ensures forall psetName, propertyName :: psetName in psets && propertyName in psets[psetName] ==>
      Dotted(psetName, propertyName) in psetAttributes
    ensures forall a :: a in psetAttributes ==>
      exists psetName, propertyName :: psetName in psets && propertyName in psets[psetName] && a == Dotted(psetName, propertyName)
  {
    psetAttributes := {};
    var pending := psets.Keys;
    while pending != {}
      invariant pending <= psets.Keys
      invariant psetAttributes == DottedNames(psets, psets.Keys - pending)
      decreases pending
    {
      var psetName :| psetName in pending;
      var psetData := psets[psetName];
      var properties := psetData.Keys;
      ghost var done := psets.Keys - pending;
      while properties != {}
        invariant properties <= psetData.Keys
        invariant psetAttributes ==
          DottedNames(psets, done) + set propertyName | propertyName in psetData.Keys - properties :: Dotted(psetName, propertyName)
        decreases properties
      {
        var propertyName :| propertyName in properties;
        psetAttributes := psetAttributes + {Dotted(psetName, propertyName)};
        properties := properties - {propertyName};
      }
      pending := pending - {psetName};
      assert psets.Keys - pending == done + {psetName};
    }
  }

  /**
   * The attribute names of two property-set dicts whose set names differ,
   * taken together, are the union of the names of each: this is the union an
   * element's property sets and quantity sets are joined by.
   */
  lemma PsetAttributeNamesUnion(psets: PropertySets, qtos: PropertySets)
    requires psets.Keys !! qtos.Keys
    ensures PsetAttributeNames(psets + qtos) == PsetAttributeNames(psets) + PsetAttributeNames(qtos)
  {
    var both := psets + qtos;
    forall a | a in PsetAttributeNames(both) ensures a in PsetAttributeNames(psets) + PsetAttributeNames(qtos) {
      var psetName, propertyName :| psetName in both && propertyName in both[psetName] && a == Dotted(psetName, propertyName);
      if psetName in qtos {
        assert a in PsetAttributeNames(qtos);
      } else {
        assert a in PsetAttributeNames(psets);
      }
    }
  }

  // -------------------------------------------------------------- storeys

  /** An `IfcRelContainedInSpatialStructure`: the ids of the elements it relates. */
  datatype ContainmentRel = ContainmentRel(relatedElements: seq<int>)

  /** An IFC element: its entity name, as `is_a()` gives it, and the containment relations it holds. */
  datatype SpatialElement = SpatialElement(entityName: string, containsElements: seq<ContainmentRel>)

  /** The related ids of all relations, relation by relation. */
  function ContainedIds(rels: seq<ContainmentRel>): (ids: seq<int>)
    ensures |ids| == SumOfSizes(rels)
    ensures forall id :: id in ids <==> exists i :: 0 <= i < |rels| && id in rels[i].relatedElements
  {
    if rels == [] then []
    else
      var init := rels[..|rels| - 1];
      assert forall i :: 0 <= i < |init| ==> init[i] == rels[i];
      ContainedIds(init) + rels[|rels| - 1].relatedElements
  }

  /** The number of related ids over all relations. */
  function SumOfSizes(rels: seq<ContainmentRel>): nat
  {
    if rels == [] then 0 else SumOfSizes(rels[..|rels| - 1]) + |rels[|rels| - 1].relatedElements|
  }

  /**
   * The ids come relation by relation and, inside a relation, in its own
   * order: the `k`-th id of relation `i` sits after all ids of the relations
   * before it.
   */
  lemma {:induction false} ContainedIdsInOrder(rels: seq<ContainmentRel>, i: nat, k: nat)
    requires i < |rels| && k < |rels[i].relatedElements|
    ensures SumOfSizes(rels[..i]) + k < |ContainedIds(rels)|
    ensures ContainedIds(rels)[SumOfSizes(rels[..i]) + k] == rels[i].relatedElements[k]
  {
    var init := rels[..|rels| - 1];
    var last := rels[|rels| - 1].relatedElements;
    assert ContainedIds(rels) == ContainedIds(init) + last;
    if i < |init| {
      assert init[i] == rels[i];
      ContainedIdsInOrder(init, i, k);
      assert rels[..i] == init[..i];
    } else {
      assert rels[..i] == init;
    }
  }

  /** `get_related_elements_from_storey`: `None` for anything but a storey, else the contained ids in nesting order. */
  method GetRelatedElementsFromStorey(elem: SpatialElement) returns (r: Option<seq<int>>)
    ensures r.None? <==> elem.entityName != "IFCBUILDINGSTOREY"
    ensures r.Some? ==> r.value == ContainedIds(elem.containsElements)
  {
    if elem.entityName != "IFCBUILDINGSTOREY" {
      return None;
    }
    var rels := elem.containsElements;
    var relatedElems := [];
    for i := 0 to |rels|
      invariant relatedElems == ContainedIds(rels[..i])
    {
      var related := rels[i].relatedElements;
      for j := 0 to |related|
        invariant relatedElems == ContainedIds(rels[..i]) + related[..j]
      {
        relatedElems := relatedElems + [related[j]];
        assert related[..j + 1] == related[..j] + [related[j]];
      }
      assert rels[..i + 1][..i] == rels[..i];
      assert related[..|related|] == related;
    }
    assert rels[..|rels|] == rels;
    return Some(relatedElems);
  }

  // ------------------------------------------------------------ intervals

  datatype Point3 = Point3(x: real, y: real, z: real)

  /** The bounding box record of an element's shape. */
  datatype BBox = BBox(minPoint: Point3, maxPoint: Point3, centerPoint: Point3,
                       xLength: real, yLength: real, zLength: real)

  /** An interval element as `get_objects_data_by_class` describes it (the fields the export reads). */
  datatype IntervalInfo = IntervalInfo(id: int, globalId: Value, name: Value, level: Value,
                                       bbox: Option<BBox>, propertySets: PropertySets)

  /** A collar (building storey) as `get_objects_data_by_class` describes it (the fields the export reads). */
  datatype CollarInfo = CollarInfo(globalId: Value, name: Value)

  /** A flattened record: column name to value. */
  type Row = map<string, Value>

  /** The columns every flattened interval has before its attributes are merged in. */
  const IntervalColumns: set<string> :=
    {"id", "global_id", "lithology_name", "hole_id", "x", "y", "z", "from_mNN", "to_mNN", "drilling_diameter"}

  /** The columns taken from the bounding box. */
  const GeometryColumns: set<string> := {"x", "y", "z", "from_mNN", "to_mNN", "drilling_diameter"}

  /** The interval's `Attributes` pset, or nothing. */
  function AttributesOf(interval: IntervalInfo): map<string, Value>
  {
    if "Attributes" in interval.propertySets then interval.propertySets["Attributes"] else map[]
  }

  /** The base columns of a flattened interval; the geometric ones are `None` without a bounding box. */
  function BaseRow(interval: IntervalInfo): Row
  {
    var box := interval.bbox;
    map["id" := VInt(interval.id),
        "global_id" := interval.globalId,
        "lithology_name" := interval.name,
        "hole_id" := interval.level,
        "x" := if box.Some? then VFloat(box.value.centerPoint.x) else VNone,
        "y" := if box.Some? then VFloat(box.value.centerPoint.y) else VNone,
        "z" := if box.Some? then VFloat(box.value.maxPoint.z) else VNone,
        "from_mNN" := if box.Some? then VFloat(box.value.maxPoint.z) else VNone,
        "to_mNN" := if box.Some? then VFloat(box.value.minPoint.z) else VNone,
        "drilling_diameter" := if box.Some? then VFloat((box.value.xLength + box.value.yLength) / 2.0) else VNone]
  }

  /** One readable interval: the base columns, then the `Attributes` entries, which win on a shared name. */
  function FlattenInterval(interval: IntervalInfo): (row: Row)
    ensures row.Keys == IntervalColumns + AttributesOf(interval).Keys
    ensures forall k :: k in AttributesOf(interval) ==> row[k] == AttributesOf(interval)[k]
    ensures forall k :: k in IntervalColumns && k !in AttributesOf(interval) ==> row[k] == BaseRow(interval)[k]
  {
    BaseRow(interval) + AttributesOf(interval)
  }

  /**
   * The identifying columns of a flattened interval that its attributes do
   * not override are its own fields under their export names.
   */
  lemma FlattenedIdentity(interval: IntervalInfo)
    ensures var row := FlattenInterval(interval); var attrs := AttributesOf(interval);
      ("id" !in attrs ==> row["id"] == VInt(interval.id)) &&
      ("global_id" !in attrs ==> row["global_id"] == interval.globalId) &&
      ("lithology_name" !in attrs ==> row["lithology_name"] == interval.name) &&
      ("hole_id" !in attrs ==> row["hole_id"] == interval.level)
  {
  }

  /**
   * The geometric columns of a flattened interval that its attributes do not
   * override: all `None` without a bounding box; with one, the position is
   * the box's centre and top, the interval runs from the box's top to its
   * bottom, and the diameter is the mean horizontal extent.
   */
  lemma FlattenedGeometry(interval: IntervalInfo)
    ensures var row := FlattenInterval(interval); var attrs := AttributesOf(interval);
      (interval.bbox.None? ==> forall k :: k in GeometryColumns && k !in attrs ==> row[k] == VNone) &&
      (interval.bbox.Some? ==> var box := interval.bbox.value;
         ("x" !in attrs ==> row["x"] == VFloat(box.centerPoint.x)) &&
         ("y" !in attrs ==> row["y"] == VFloat(box.centerPoint.y)) &&
         ("z" !in attrs ==> row["z"] == VFloat(box.maxPoint.z)) &&
         ("from_mNN" !in attrs ==> row["from_mNN"] == VFloat(box.maxPoint.z)) &&
         ("to_mNN" !in attrs ==> row["to_mNN"] == VFloat(box.minPoint.z)) &&
         ("drilling_diameter" !in attrs ==> row["drilling_diameter"] == VFloat((box.xLength + box.yLength) / 2.0)))
  {
  }

  /** Every row carries the base interval columns. */
  predicate HasIntervalColumns(rows: seq<Row>)
  {
    forall k :: 0 <= k < |rows| ==> IntervalColumns <= rows[k].Keys
  }

  /** The readable intervals, one per interval, in order. */
  function ReadableIntervals(intervals: seq<IntervalInfo>): (rows: seq<Row>)
    ensures |rows| == |intervals|
    ensures forall k :: 0 <= k < |intervals| ==> rows[k] == FlattenInterval(intervals[k])
    ensures HasIntervalColumns(rows)
  {
    if intervals == [] then []
    else [FlattenInterval(intervals[0])] + ReadableIntervals(intervals[1..])
  }

  // -------------------------------------------------------------- collars

  /** A readable collar. */
  datatype CollarRow = CollarRow(globalId: Value, holeId: Value, x: Value, y: Value, z: Value)

  /** The rows whose `hole_id` equals the collar's name, in order. */
  function RelatedIntervals(name: Value, rows: seq<Row>): (related: seq<Row>)
    requires HasIntervalColumns(rows)
    ensures HasIntervalColumns(related)
    ensures forall row :: row in related <==> row in rows && PyEq(name, row["hole_id"])
  {
    if rows == [] then []
    else
      var rest := RelatedIntervals(name, rows[1..]);
      if PyEq(name, rows[0]["hole_id"]) then [rows[0]] + rest else rest
  }

  /**
   * The comprehension keeps the rows in their order and keeps every copy of a
   * related row, so "the first related row" is the first such row of the file.
   */
  lemma {:induction false} RelatedIntervalsInOrder(name: Value, rows: seq<Row>)
    requires HasIntervalColumns(rows)
    ensures IsSubsequence(RelatedIntervals(name, rows), rows)
    ensures forall row :: multiset(RelatedIntervals(name, rows))[row] == (if "hole_id" in row && PyEq(name, row["hole_id"]) then multiset(rows)[row] else 0)
  {
    if rows != [] {
      RelatedIntervalsInOrder(name, rows[1..]);
      assert rows == [rows[0]] + rows[1..];
      if !PyEq(name, rows[0]["hole_id"]) {
        SubsequenceWiden(RelatedIntervals(name, rows), rows);
      }
    }
  }

  /** The `z` column of each row. */
  function ZValues(rows: seq<Row>): (zs: seq<Value>)
    requires HasIntervalColumns(rows)
    ensures |zs| == |rows| && forall k :: 0 <= k < |rows| ==> zs[k] == rows[k]["z"]
  {
    if rows == [] then [] else [rows[0]["z"]] + ZValues(rows[1..])
  }

  /** The position of the first row whose `z` equals `z`, or `|rows|` when there is none. */
  function FirstWithZ(rows: seq<Row>, z: Value): (f: nat)
    requires HasIntervalColumns(rows)
    ensures f <= |rows|
    ensures f < |rows| ==> PyEq(rows[f]["z"], z)
    ensures forall k :: 0 <= k < f ==> !PyEq(rows[k]["z"], z)
  {
    if rows == [] then 0
    else if PyEq(rows[0]["z"], z) then 0
    else 1 + FirstWithZ(rows[1..], z)
  }

  /**
   * One readable collar: `z` is the `max` of the related rows' `z`, and `x`
   * and `y` come from the first related row whose `z` equals it; all three
   * are `None` when no row is related. `max` raises when the `z` values
   * cannot be compared.
   */
  function CollarRowOf(collar: CollarInfo, rows: seq<Row>): Result<CollarRow, TypeError>
    requires HasIntervalColumns(rows)
  {
    var related := RelatedIntervals(collar.name, rows);
    if |related| == 0 then Ok(CollarRow(collar.globalId, collar.name, VNone, VNone, VNone))
    else
      match MaxIndex(ZValues(related))
      case Err(e) => Err(e)
      case Ok(top) =>
        var z := related[top]["z"];
        PyEqEquivalence(z, z, z);
        var first := FirstWithZ(related, z);
        Ok(CollarRow(collar.globalId, collar.name, related[first]["x"], related[first]["y"], z))
  }

  /**
   * A collar row names its collar. With no related row its position is
   * `None`; otherwise its `z` is one of the related `z` values and none of
   * them is above it, and its `x` and `y` are those of the first related row
   * whose `z` equals it.
   */
  lemma CollarRowIsTop(collar: CollarInfo, rows: seq<Row>)
    requires HasIntervalColumns(rows)
    requires CollarRowOf(collar, rows).Ok?
    ensures var c := CollarRowOf(collar, rows).value; var related := RelatedIntervals(collar.name, rows);
      c.globalId == collar.globalId && c.holeId == collar.name &&
      (|related| == 0 ==> c.x == VNone && c.y == VNone && c.z == VNone) &&
      (|related| > 0 ==>
         (exists k :: 0 <= k < |related| && c.z == related[k]["z"]) &&
         (forall k :: 0 <= k < |related| ==> Greater(related[k]["z"], c.z) != Ok(true)) &&
         (exists f :: 0 <= f < |related| && PyEq(related[f]["z"], c.z) &&
            (forall k :: 0 <= k < f ==> !PyEq(related[k]["z"], c.z)) &&
            c.x == related[f]["x"] && c.y == related[f]["y"]))
  {
    var related := RelatedIntervals(collar.name, rows);
    if |related| > 0 {
      var zs := ZValues(related);
      var top := MaxIndex(zs).value;
      var z := related[top]["z"];
      forall k | 0 <= k < |related| ensures Greater(related[k]["z"], z) != Ok(true) {
        if k < top {
          GreaterAsymmetric(zs[top], zs[k]);
        } else if k == top && Greater(z, z) == Ok(true) {
          GreaterAsymmetric(z, z);
        }
      }
    }
  }

  /** `max` raises for a collar exactly when its related `z` values are not all comparable with the first. */
  lemma CollarRowRaises(collar: CollarInfo, rows: seq<Row>)
    requires HasIntervalColumns(rows)
    ensures var related := RelatedIntervals(collar.name, rows);
      CollarRowOf(collar, rows).Err? <==>
        |related| >= 2 && exists k :: 0 <= k < |related| && !Comparable(related[k]["z"], related[0]["z"])
  {
    var related := RelatedIntervals(collar.name, rows);
    if |related| > 0 {
      var zs := ZValues(related);
      assert forall k :: 0 <= k < |related| ==> zs[k] == related[k]["z"];
    }
  }

  /** `f` applied to each element in order, or the first `TypeError` one of the calls raises. */
  function MapOrRaise<A, B>(f: A -> Result<B, TypeError>, xs: seq<A>): (r: Result<seq<B>, TypeError>)
    ensures r.Err? <==> exists k :: 0 <= k < |xs| && f(xs[k]).Err?
    ensures r.Ok? ==> |r.value| == |xs| && forall k :: 0 <= k < |xs| ==> f(xs[k]) == Ok(r.value[k])
  {
    if xs == [] then Ok([])
    else
      var init := xs[..|xs| - 1];
      assert forall k :: 0 <= k < |init| ==> init[k] == xs[k];
      match MapOrRaise(f, init)
      case Err(e) => Err(e)
      case Ok(done) =>
        match f(xs[|xs| - 1])
        case Err(e) => Err(e)
        case Ok(y) => Ok(done + [y])
  }

  /** The readable collars in order, or the first `TypeError` one of them raises. */
  function ReadableCollars(collars: seq<CollarInfo>, rows: seq<Row>): (r: Result<seq<CollarRow>, TypeError>)
    requires HasIntervalColumns(rows)
    ensures r.Err? <==> exists k :: 0 <= k < |collars| && CollarRowOf(collars[k], rows).Err?
    ensures r.Ok? ==> |r.value| == |collars| && forall k :: 0 <= k < |collars| ==> CollarRowOf(collars[k], rows) == Ok(r.value[k])
  {
    MapOrRaise(c => CollarRowOf(c, rows), collars)
  }

  /** The two tables an export writes. */
  datatype LeapfrogTables = LeapfrogTables(collars: seq<CollarRow>, intervals: seq<Row>)

  /** What `compose_leapfrog_csv_data_from_elem_info` assembles before writing its two files. */
  function ComposedTables(applicationFullName: string, intervals: seq<IntervalInfo>, collars: seq<CollarInfo>):
    (r: Result<Option<LeapfrogTables>, TypeError>)
    ensures applicationFullName != "Leapfrog Works" <==> r == Ok(None)
    ensures r.Ok? && r.value.Some? ==> r.value.value.intervals == ReadableIntervals(intervals)
    ensures r.Err? <==> applicationFullName == "Leapfrog Works" && ReadableCollars(collars, ReadableIntervals(intervals)).Err?
    ensures r.Ok? && r.value.Some? ==> Ok(r.value.value.collars) == ReadableCollars(collars, ReadableIntervals(intervals))
  {
    if applicationFullName != "Leapfrog Works" then Ok(None)
    else
      var rows := ReadableIntervals(intervals);
      match ReadableCollars(collars, rows)
      case Err(e) => Err(e)
      case Ok(collarRows) => Ok(Some(LeapfrogTables(collarRows, rows)))
  }

  /**
   * `compose_leapfrog_csv_data_from_elem_info` up to the file writes: `None`
   * for a file from any other application; otherwise one readable interval
   * per interval, then one readable collar per collar, or the `TypeError`
   * the first failing `max` raises.
   */
  method ComposeLeapfrogCsvData(applicationFullName: string, intervalsData: seq<IntervalInfo>, collarData: seq<CollarInfo>)
    returns (r: Result<Option<LeapfrogTables>, TypeError>)
    ensures r == ComposedTables(applicationFullName, intervalsData, collarData)
  {
    if applicationFullName != "Leapfrog Works" {
      return Ok(None);
    }
    var readableIntervals := FlattenIntervals(intervalsData);
    var readableCollars := ComposeCollars(collarData, readableIntervals);
    if readableCollars.Err? {
      return Err(readableCollars.error);
    }
    return Ok(Some(LeapfrogTables(readableCollars.value, readableIntervals)));
  }

  /** The loop of lines 108-124: one readable interval appended per interval. */
  method FlattenIntervals(intervalsData: seq<IntervalInfo>) returns (readableIntervals: seq<Row>)
    ensures readableIntervals == ReadableIntervals(intervalsData)
  {
    readableIntervals := [];
    for i := 0 to |intervalsData|
      invariant |readableIntervals| == i
      invariant forall k :: 0 <= k < i ==> readableIntervals[k] == FlattenInterval(intervalsData[k])
    {
      readableIntervals := readableIntervals + [FlattenInterval(intervalsData[i])];
    }
  }

  /** The loop of lines 127-142: one readable collar appended per collar, unless a `max` raises. */
  method ComposeCollars(collarData: seq<CollarInfo>, readableIntervals: seq<Row>) returns (r: Result<seq<CollarRow>, TypeError>)
    requires HasIntervalColumns(readableIntervals)
    ensures r == ReadableCollars(collarData, readableIntervals)
  {
    var readableCollars := [];
    for i := 0 to |collarData|
      invariant |readableCollars| == i
      invariant forall k :: 0 <= k < i ==> CollarRowOf(collarData[k], readableIntervals) == Ok(readableCollars[k])
    {
      var collar := CollarRowOf(collarData[i], readableIntervals);
      if collar.Err? {
        ghost var whole := ReadableCollars(collarData, readableIntervals);
        assert whole.Err? && whole.error == collar.error == TypeError;
        return Err(collar.error);
      }
      readableCollars := readableCollars + [collar.value];
    }
    ghost var whole := ReadableCollars(collarData, readableIntervals);
    assert whole.Ok? && whole.value == readableCollars by {
      assert forall k :: 0 <= k < |collarData| ==> whole.value[k] == readableCollars[k];
    }
    return Ok(readableCollars);

  }
}
