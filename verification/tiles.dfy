/**
  The vector-tile service: the simplification tolerance chosen for a zoom
  level, and the assembly of the spatial query's rows into a GeoJSON
  FeatureCollection.

  Tolerances are counted in tenths (0.1 is 1, 20.0 is 200) so that they
  are integers. The spatial query is an input (`QueryResult`), and the
  geometry column's GeoJSON text is decoded by a `decode` parameter that
  stands for `json.loads`.
 */
module Tiles {
  import opened Wrappers
  import opened Json

  // ---------------------------------------------------------------------
  // Simplification tolerance

  /** `simplification_factor_for_zoom`, in tenths. */
  function SimplificationTenths(z: int): (r: int)
    ensures r in {1, 10, 50, 100, 200}
  {
    if z >= 15 then 1
    else if z >= 12 then 10
    else if z >= 9 then 50
    else if z >= 6 then 100
    else 200
  }

  /** The tolerance as Python prints the float into the query text. */
  function SimplificationText(z: int): (r: string)
    ensures r in {"0.1", "1.0", "5.0", "10.0", "20.0"}
  {
    match SimplificationTenths(z)
    case 1 => "0.1"
    case 10 => "1.0"
    case 50 => "5.0"
    case 100 => "10.0"
    case _ => "20.0"
  }

  /** The tolerance never grows as the zoom level grows, and the two ends of the scale are fixed. */
  lemma {:induction false} SimplificationMonotone(z1: int, z2: int)
    requires z1 <= z2
    ensures SimplificationTenths(z2) <= SimplificationTenths(z1)
    ensures z2 >= 15 ==> SimplificationTenths(z2) == 1
    ensures z1 < 6 ==> SimplificationTenths(z1) == 200
  {
  }

  /** The printed tolerance is the tenths count written as a decimal. */
  lemma {:induction false} SimplificationTextAgrees(z: int)
    ensures SimplificationTenths(z) == 1 <==> SimplificationText(z) == "0.1"
    ensures SimplificationTenths(z) == 200 <==> SimplificationText(z) == "20.0"
    ensures SimplificationTenths(z) == 10 <==> SimplificationText(z) == "1.0"
    ensures SimplificationTenths(z) == 50 <==> SimplificationText(z) == "5.0"
    ensures SimplificationTenths(z) == 100 <==> SimplificationText(z) == "10.0"
  {
  }

  // ---------------------------------------------------------------------
  // Feature assembly

  /** One row of the tile query. */
  datatype TileRow = TileRow(
    id: Value,
    featureId: Value,
    featureType: Value,
    properties: Value,
    geometry: Value,
    sourceSystem: Value,
    isSynced: Value)

  datatype QueryResult = QueryResult(status: string, message: Value, data: seq<TileRow>)

  datatype TileFeature = TileFeature(id: Value, properties: map<string, Value>, geometry: Value)

  datatype Tile = Tile(features: seq<TileFeature>, bbox: (int, int, int, int))

  /** The keys the row's own columns set, overriding the stored properties. */
  const OverriddenKeys: set<string> := {"id", "feature_type", "source_system", "is_synced"}

  /** The rows whose geometry is truthy, in query order. */
  function Kept(rows: seq<TileRow>): (r: seq<TileRow>)
    ensures |r| <= |rows|
    ensures forall i :: 0 <= i < |r| ==> Truthy(r[i].geometry) && r[i] in rows
    ensures forall i :: 0 <= i < |rows| && Truthy(rows[i].geometry) ==> rows[i] in r
    ensures |rows| == 1 ==> r == if Truthy(rows[0].geometry) then rows else []
    decreases |rows|
  {
    if rows == [] then []
    else
      assert forall i :: 1 <= i < |rows| ==> rows[i] == rows[1..][i - 1];
      (if Truthy(rows[0].geometry) then [rows[0]] else []) + Kept(rows[1..])
  }

  /**
    The feature of one kept row: the stored properties (`None` counts as
    `{}`) with the four column values laid over them, and the decoded
    geometry. Stored properties that are not a dict, or a geometry that is
    not text or does not decode, raise.
   */
  function FeatureOf(row: TileRow, decode: string -> Result<Value, string>): (r: Result<TileFeature, string>)
    ensures r.Ok? ==> && r.value.id == row.featureId && row.geometry.Str?
                      && Ok(r.value.geometry) == decode(row.geometry.s)
  {
    var stored := Or(row.properties, Obj(map[]));
    if !stored.Obj? then Err("'" + TypeName(stored) + "' object is not a mapping")
    else
      var props := stored.fields + map[
        "id" := row.featureId,
        "feature_type" := row.featureType,
        "source_system" := row.sourceSystem,
        "is_synced" := row.isSynced];
      if !row.geometry.Str? then Err("the JSON object must be str, bytes or bytearray, not " + TypeName(row.geometry))
      else
        match decode(row.geometry.s)
        case Err(e) => Err(e)
        case Ok(g) => Ok(TileFeature(row.featureId, props, g))
  }

  /**
    The columns override same-named stored properties, and every other
    stored property is carried over unchanged.
   */
  lemma {:induction false} ColumnsOverrideProperties(row: TileRow, decode: string -> Result<Value, string>)
    requires FeatureOf(row, decode).Ok?
    ensures var p := FeatureOf(row, decode).value.properties;
      && p["id"] == row.featureId && p["feature_type"] == row.featureType
      && p["source_system"] == row.sourceSystem && p["is_synced"] == row.isSynced
      && p.Keys == Or(row.properties, Obj(map[])).fields.Keys + OverriddenKeys
      && forall k :: k in Or(row.properties, Obj(map[])).fields && k !in OverriddenKeys ==>
           p[k] == Or(row.properties, Obj(map[])).fields[k]
  {
  }

  /** The features of the given rows, in order; the first row that raises makes the call raise. */
  function Features(rows: seq<TileRow>, decode: string -> Result<Value, string>): (r: Result<seq<TileFeature>, string>)
    ensures r.Ok? <==> forall i :: 0 <= i < |rows| ==> FeatureOf(rows[i], decode).Ok?
    ensures r.Ok? ==> |r.value| == |rows|
    ensures r.Ok? ==> forall i :: 0 <= i < |rows| ==> FeatureOf(rows[i], decode) == Ok(r.value[i])
    ensures r.Err? ==> exists i :: FirstFailing(rows, decode, i) && FeatureOf(rows[i], decode) == Err(r.error)
    decreases |rows|
  {
    if rows == [] then Ok([])
    else
      match FeatureOf(rows[0], decode)
      case Err(e) =>
        assert FirstFailing(rows, decode, 0);
        Err(e)
      case Ok(f) =>
        match Features(rows[1..], decode)
        case Err(e) =>
          var i :| FirstFailing(rows[1..], decode, i) && FeatureOf(rows[1..][i], decode) == Err(e);
          FirstFailingAfterHead(rows, decode, i);
          Err(e)
        case Ok(fs) =>
          assert forall i :: 1 <= i < |rows| ==> rows[i] == rows[1..][i - 1];
          Ok([f] + fs)
  }

  /** Behind a head that converts, the first failing row of the tail is the first failing row. */
  lemma {:induction false} FirstFailingAfterHead(rows: seq<TileRow>, decode: string -> Result<Value, string>, i: int)
    requires rows != [] && FeatureOf(rows[0], decode).Ok? && FirstFailing(rows[1..], decode, i)
    ensures FirstFailing(rows, decode, i + 1) && rows[i + 1] == rows[1..][i]
  {
    forall j | 0 <= j < i + 1 ensures FeatureOf(rows[j], decode).Ok? {
      if j > 0 {
        assert rows[j] == rows[1..][j - 1];
      }
    }
  }

  /** Row `i` is the first whose feature raises. */
  predicate FirstFailing(rows: seq<TileRow>, decode: string -> Result<Value, string>, i: int) {
    0 <= i < |rows| && FeatureOf(rows[i], decode).Err? && forall j :: 0 <= j < i ==> FeatureOf(rows[j], decode).Ok?
  }

  /** The loop over the query rows: rows without a geometry are skipped, the others become features. */
  function Assemble(rows: seq<TileRow>, decode: string -> Result<Value, string>): (r: Result<seq<TileFeature>, string>) {
    Features(Kept(rows), decode)
  }

  /** Rows without a geometry contribute nothing: dropping them leaves the tile unchanged. */
  lemma {:induction false} EmptyGeometryRowsSkipped(rows: seq<TileRow>, decode: string -> Result<Value, string>)
    ensures Assemble(rows, decode) == Assemble(Kept(rows), decode)
  {
    KeptIdempotent(rows);
  }

  /**
    Filtering a concatenation filters each part: with the one-row case of
    `Kept`, this fixes the result as the rows with a geometry, in query
    order, each as often as it occurs.
   */
  lemma {:induction false} KeptAppend(a: seq<TileRow>, b: seq<TileRow>)
    ensures Kept(a + b) == Kept(a) + Kept(b)
    decreases |a|
  {
    if a != [] {
      assert (a + b)[1..] == a[1..] + b;
      KeptAppend(a[1..], b);
    } else {
      assert a + b == b;
    }
  }

  lemma {:induction false} KeptIdempotent(rows: seq<TileRow>)
    ensures Kept(Kept(rows)) == Kept(rows)
    decreases |rows|
  {
    if rows != [] {
      KeptIdempotent(rows[1..]);
      var k := Kept(rows);
      if Truthy(rows[0].geometry) {
        assert k == [rows[0]] + Kept(rows[1..]);
        assert k[0] == rows[0] && k[1..] == Kept(rows[1..]);
      } else {
        assert k == Kept(rows[1..]);
      }
    }
  }

  /** The part of `get_vector_tile` after the query: a failed query raises; otherwise the assembled collection. */
  function GetVectorTile(result: QueryResult, bbox: (int, int, int, int), decode: string -> Result<Value, string>)
    : (r: Result<Tile, string>)
    ensures result.status != "success" ==> r == Err("Error executing spatial query: " + PyStr(result.message))
    ensures result.status == "success" ==> (r.Ok? <==> Assemble(result.data, decode).Ok?)
    ensures result.status == "success" && r.Err? ==> Assemble(result.data, decode) == Err(r.error)
    ensures r.Ok? ==> r.value.bbox == bbox && Assemble(result.data, decode) == Ok(r.value.features)
  {
    if result.status != "success" then Err("Error executing spatial query: " + PyStr(result.message))
    else
      match Assemble(result.data, decode)
      case Err(e) => Err(e)
      case Ok(fs) => Ok(Tile(fs, bbox))
  }
}
