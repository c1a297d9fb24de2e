/**
  The pure record-shaping steps of the ETL pipeline: renaming columns by
  field mappings, turning a loaded row into a spatial-feature record, and
  the sync records written after a load from JCHARRISPACS into PostgreSQL.

  A dataset is a table of rows keyed by column name. The `geometry` column
  holds a geometry's WKT text (`Str`) or nothing (`Null`); the geometry
  objects themselves are not part of the model.
 */
module EtlRecords {
  import opened Wrappers
  import opened Json
  import Text

  datatype Dataset = Dataset(columns: seq<string>, rows: seq<map<string, Value>>)

  /** Distinct column names, and every row holds exactly the columns. */
  predicate WellFormed(d: Dataset) {
    && (forall i, j :: 0 <= i < j < |d.columns| ==> d.columns[i] != d.columns[j])
    && (forall i :: 0 <= i < |d.rows| ==> d.rows[i].Keys == (set c | c in d.columns))
  }

  type Table = d: Dataset | WellFormed(d) witness Dataset([], [])

  // ---------------------------------------------------------------------
  // Field mappings

  /**
    One field mapping `result[target] = result[source]`, applied only when
    the source column exists. A new target column goes to the end; an
    existing one keeps its place.
   */
  function MapField(d: Table, target: string, source: string): (r: Table)
    ensures source !in d.columns ==> r == d
    ensures |r.rows| == |d.rows| && d.columns <= r.columns
    ensures source in d.columns ==>
      && target in r.columns
      && forall i :: 0 <= i < |r.rows| ==> r.rows[i][target] == d.rows[i][source]
    ensures forall i, c :: 0 <= i < |d.rows| && c in d.columns && c != target ==> r.rows[i][c] == d.rows[i][c]
    ensures forall c :: c in r.columns ==> c in d.columns || c == target
  {
    if source !in d.columns then d
    else
      var columns := if target in d.columns then d.columns else d.columns + [target];
      var rows := seq(|d.rows|, i requires 0 <= i < |d.rows| => d.rows[i][target := d.rows[i][source]]);
      assert forall i :: 0 <= i < |rows| ==> rows[i].Keys == (set c | c in columns);
      Dataset(columns, rows)
  }

  /** The targets of a mapping list. */
  predicate Targets(ms: seq<(string, string)>, c: string) {
    exists k :: 0 <= k < |ms| && ms[k].0 == c
  }

  /**
    The field mappings of a transformation, in the order the mapping dict
    lists them. A column that no mapping targets keeps its values in every
    row; no row is added or removed; no column is dropped.
   */
  function ApplyMappings(d: Table, ms: seq<(string, string)>): (r: Table)
    ensures |r.rows| == |d.rows| && d.columns <= r.columns
    ensures forall i, c :: 0 <= i < |d.rows| && c in d.columns && !Targets(ms, c) ==> r.rows[i][c] == d.rows[i][c]
    ensures forall c :: c in r.columns ==> c in d.columns || Targets(ms, c)
    decreases |ms|
  {
    if ms == [] then d
    else
      var d1 := MapField(d, ms[0].0, ms[0].1);
      var r := ApplyMappings(d1, ms[1..]);
      assert forall c :: Targets(ms[1..], c) ==> Targets(ms, c) by {
        forall c | Targets(ms[1..], c) ensures Targets(ms, c) {
          var k :| 0 <= k < |ms[1..]| && ms[1..][k].0 == c;
          assert ms[k + 1].0 == c;
        }
      }
      assert Targets(ms, ms[0].0) by { assert ms[0].0 == ms[0].0; }
      r
  }

  /** Mappings whose sources are all absent change nothing. */
  lemma {:induction false} MappingsFromAbsentColumns(d: Table, ms: seq<(string, string)>)
    requires forall k :: 0 <= k < |ms| ==> ms[k].1 !in d.columns
    ensures ApplyMappings(d, ms) == d
    decreases |ms|
  {
    if ms != [] {
      assert MapField(d, ms[0].0, ms[0].1) == d;
      MappingsFromAbsentColumns(d, ms[1..]);
    }
  }

  /** The mappings applied to one row on its own: each copies its source key to its target key when the row has the source. */
  function RowAfter(row: map<string, Value>, ms: seq<(string, string)>): (r: map<string, Value>)
    ensures row.Keys <= r.Keys
    decreases |ms|
  {
    if ms == [] then row
    else RowAfter(if ms[0].1 in row then row[ms[0].0 := row[ms[0].1]] else row, ms[1..])
  }

  /** Applying the mappings to the table applies them to every row independently. */
  lemma {:induction false} ApplyMappingsRowwise(d: Table, ms: seq<(string, string)>)
    ensures forall i :: 0 <= i < |d.rows| ==> ApplyMappings(d, ms).rows[i] == RowAfter(d.rows[i], ms)
    decreases |ms|
  {
    if ms != [] {
      var (t, src) := ms[0];
      var d1 := MapField(d, t, src);
      ApplyMappingsRowwise(d1, ms[1..]);
      forall i | 0 <= i < |d.rows| ensures d1.rows[i] == if src in d.rows[i] then d.rows[i][t := d.rows[i][src]] else d.rows[i] {
        assert src in d.rows[i] <==> src in d.columns;
      }
    }
  }

  /** The source of the last mapping to `target`, if any mapping targets it. */
  function LastSourceFor(ms: seq<(string, string)>, target: string): (r: Option<string>)
    ensures r.Some? <==> Targets(ms, target)
    ensures r.Some? ==> exists k :: 0 <= k < |ms| && ms[k] == (target, r.value)
    decreases |ms|
  {
    if ms == [] then None
    else
      var later := LastSourceFor(ms[1..], target);
      assert Targets(ms[1..], target) ==> Targets(ms, target) by {
        if Targets(ms[1..], target) {
          var k :| 0 <= k < |ms[1..]| && ms[1..][k].0 == target;
          assert ms[k + 1].0 == target;
        }
      }
      assert Targets(ms, target) && ms[0].0 != target ==> Targets(ms[1..], target) by {
        if Targets(ms, target) && ms[0].0 != target {
          var k :| 0 <= k < |ms| && ms[k].0 == target;
          assert ms[1..][k - 1].0 == target;
        }
      }
      if later.Some? then
        var k :| 0 <= k < |ms[1..]| && ms[1..][k] == (target, later.value);
        assert ms[k + 1] == (target, later.value);
        later
      else if ms[0].0 == target then Some(ms[0].1)
      else None
  }

  /**
    When every source is an existing column that no mapping overwrites,
    each mapped target ends up holding, in every row, the value of the
    source of the last mapping to it.
   */
  lemma {:induction false} LastMappingDecides(d: Table, ms: seq<(string, string)>)
    requires forall k :: 0 <= k < |ms| ==> ms[k].1 in d.columns && !Targets(ms, ms[k].1)
    ensures forall i, t :: 0 <= i < |d.rows| && Targets(ms, t) ==> HoldsLastSource(d, ms, i, t)
  {
    forall i, t | 0 <= i < |d.rows| && Targets(ms, t) ensures HoldsLastSource(d, ms, i, t) {
      LastMappingAt(d, ms, i, t);
    }
  }

  /** Row `i` of the mapped table holds, under `t`, row `i`'s value of the last source mapped to `t`. */
  predicate HoldsLastSource(d: Table, ms: seq<(string, string)>, i: int, t: string) {
    && 0 <= i < |d.rows| && LastSourceFor(ms, t).Some?
    && t in ApplyMappings(d, ms).columns && LastSourceFor(ms, t).value in d.rows[i]
    && ApplyMappings(d, ms).rows[i][t] == d.rows[i][LastSourceFor(ms, t).value]
  }

  /** The sources of the remaining mappings stay existing, never-overwritten columns after the first mapping. */
  lemma {:induction false} SourcesKeptInTail(d: Table, ms: seq<(string, string)>)
    requires ms != []
    requires forall k :: 0 <= k < |ms| ==> ms[k].1 in d.columns && !Targets(ms, ms[k].1)
    ensures var d1 := MapField(d, ms[0].0, ms[0].1);
      forall k :: 0 <= k < |ms[1..]| ==> ms[1..][k].1 in d1.columns && !Targets(ms[1..], ms[1..][k].1)
  {
    var tail := ms[1..];
    forall k | 0 <= k < |tail| ensures !Targets(tail, tail[k].1) {
      assert tail[k] == ms[k + 1];
    }
  }

  /** `LastMappingDecides` for one row and one target. */
  lemma {:induction false} LastMappingAt(d: Table, ms: seq<(string, string)>, i: int, t: string)
    requires 0 <= i < |d.rows| && Targets(ms, t)
    requires forall k :: 0 <= k < |ms| ==> ms[k].1 in d.columns && !Targets(ms, ms[k].1)
    ensures HoldsLastSource(d, ms, i, t)
    decreases |ms|
  {
    var d1 := MapField(d, ms[0].0, ms[0].1);
    if Targets(ms[1..], t) {
      SourcesKeptInTail(d, ms);
      LastMappingAt(d1, ms[1..], i, t);
      LastMappingThroughHead(d, ms, i, t);
    } else {
      LastMappingIsHead(d, ms, i, t);
    }
  }

  /** A target the later mappings set keeps what they give it, the first mapping having touched no source of theirs. */
  lemma {:induction false} LastMappingThroughHead(d: Table, ms: seq<(string, string)>, i: int, t: string)
    requires ms != [] && Targets(ms[1..], t)
    requires forall k :: 0 <= k < |ms| ==> ms[k].1 in d.columns && !Targets(ms, ms[k].1)
    requires HoldsLastSource(MapField(d, ms[0].0, ms[0].1), ms[1..], i, t)
    ensures HoldsLastSource(d, ms, i, t)
  {
    var tail := ms[1..];
    var src := LastSourceFor(tail, t).value;
    var k :| 0 <= k < |tail| && tail[k] == (t, src);
    assert ms[k + 1] == tail[k];
    assert src != ms[0].0 by { assert !Targets(ms, ms[k + 1].1); }
    assert LastSourceFor(ms, t) == Some(src);
    assert ApplyMappings(d, ms) == ApplyMappings(MapField(d, ms[0].0, ms[0].1), tail);
  }

  /** A target only the first mapping sets holds its source, which no mapping overwrites. */
  lemma {:induction false} LastMappingIsHead(d: Table, ms: seq<(string, string)>, i: int, t: string)
    requires 0 <= i < |d.rows| && Targets(ms, t) && ms != [] && !Targets(ms[1..], t)
    requires forall k :: 0 <= k < |ms| ==> ms[k].1 in d.columns && !Targets(ms, ms[k].1)
    ensures HoldsLastSource(d, ms, i, t)
  {
    var (t0, s0) := ms[0];
    var d1 := MapField(d, t0, s0);
    assert ApplyMappings(d, ms) == ApplyMappings(d1, ms[1..]);
    assert t == t0;
    assert ms[0].1 == s0;
    assert !Targets(ms, s0);
  }

  /** The last mapping to a target decides it: a single mapping from an existing column copies it. */
  lemma {:induction false} MappingCopiesSource(d: Table, target: string, source: string)
    requires source in d.columns
    ensures var r := ApplyMappings(d, [(target, source)]);
      target in r.columns && forall i :: 0 <= i < |r.rows| ==> r.rows[i][target] == d.rows[i][source]
  {
    assert ApplyMappings(d, [(target, source)]) == ApplyMappings(MapField(d, target, source), []);
  }

  // ---------------------------------------------------------------------
  // Rows into spatial-feature records

  datatype SpatialFeature = SpatialFeature(
    featureId: string,
    featureType: Value,
    properties: map<string, Value>,
    geometry: string,
    sourceSystem: Value,
    isSynced: bool)

  /** The keys lifted out of a row's properties into the record's own columns. */
  const Reserved: set<string> := {"feature_id", "id", "feature_type", "source_system"}

  /** The fallback id of the n-th inserted row. */
  function GeneratedId(n: nat): (r: string)
    ensures Text.StartsWith(r, "feature_")
  {
    "feature_" + Text.ShowNat(n)
  }

  /**
    Turn the `index`-th row into a spatial-feature record and the raw id
    the load reports for it. The id falls back from `feature_id` to `id` to
    a generated one, the type to "unknown", the source system to the load
    parameter (itself defaulting to "unknown"); the four reserved keys and
    the geometry leave the properties. A row whose geometry has no WKT
    raises the attribute error Python would raise.
   */
  function FeatureOfRow(row: map<string, Value>, index: nat, params: map<string, Value>)
    : (r: Result<(SpatialFeature, Value), string>)
  {
    if "geometry" !in row then Err("'Series' object has no attribute 'geometry'")
    else match row["geometry"]
      case Str(wkt) =>
        var raw := Or(Or(Get(row, "feature_id", Null), Get(row, "id", Null)), Str(GeneratedId(index)));
        var featureType := Or(Get(row, "feature_type", Null), Str("unknown"));
        var source := Or(Get(row, "source_system", Null), Get(params, "source_system", Str("unknown")));
        var kept := row - Reserved - {"geometry"};
        Ok((SpatialFeature(PyStr(raw), featureType, kept, "SRID=4326;" + wkt, source, true), raw))
      case g => Err("'" + TypeName(g) + "' object has no attribute 'wkt'")
  }

  /** What shaping one row yields: the id, type and source-system fallbacks, the stripped properties and the geometry errors. */
  lemma {:induction false} FeatureOfRowShape(row: map<string, Value>, index: nat, params: map<string, Value>)
    ensures FeatureOfRow(row, index, params).Ok? <==> "geometry" in row && row["geometry"].Str?
    ensures FeatureOfRow(row, index, params).Err? && "geometry" !in row ==> FeatureOfRow(row, index, params).error == "'Series' object has no attribute 'geometry'"
    ensures FeatureOfRow(row, index, params).Err? && "geometry" in row ==>
      FeatureOfRow(row, index, params).error == "'" + TypeName(row["geometry"]) + "' object has no attribute 'wkt'"
    ensures FeatureOfRow(row, index, params).Ok? ==>
      var (f, raw) := FeatureOfRow(row, index, params).value;
      && f.geometry == "SRID=4326;" + row["geometry"].s
      && f.isSynced
      && f.featureId == PyStr(raw)
      && (if "feature_id" in row && Truthy(row["feature_id"]) then raw == row["feature_id"]
          else if "id" in row && Truthy(row["id"]) then raw == row["id"]
          else raw == Str(GeneratedId(index)))
      && (if "feature_type" in row && Truthy(row["feature_type"]) then f.featureType == row["feature_type"]
          else f.featureType == Str("unknown"))
      && (if "source_system" in row && Truthy(row["source_system"]) then f.sourceSystem == row["source_system"]
          else f.sourceSystem == Get(params, "source_system", Str("unknown")))
      && f.properties.Keys == row.Keys - Reserved - {"geometry"}
      && (forall k | k in f.properties :: f.properties[k] == row[k])
  {
  }

  /**
    Apply `f` to the positions `start`, ..., `start + n - 1` in turn,
    collecting the results and stopping at the first error, as a loop
    whose body may raise does.
   */
  function Traverse<T>(f: nat -> Result<T, string>, start: nat, n: nat): (r: Result<seq<T>, string>)
    ensures r.Ok? <==> forall k :: start <= k < start + n ==> f(k).Ok?
    ensures r.Ok? ==> |r.value| == n && forall k :: 0 <= k < n ==> r.value[k] == f(start + k).value
    ensures r.Err? ==> exists k :: (start <= k < start + n && f(k) == Err(r.error)
      && forall j :: start <= j < k ==> f(j).Ok?)
    decreases n
  {
    if n == 0 then Ok([])
    else
      var head := f(start);
      if head.Err? then Err(head.error)
      else
        var tail := Traverse(f, start + 1, n - 1);
        if tail.Err? then Err(tail.error)
        else
          var r := [head.value] + tail.value;
          assert forall k :: 0 <= k < n ==> r[k] == f(start + k).value by {
            forall k | 0 <= k < n ensures r[k] == f(start + k).value {
              if k > 0 { assert r[k] == tail.value[k - 1]; }
            }
          }
          Ok(r)
  }

  /** The shaping of the row at position `k`. */
  function RowAt(rows: seq<map<string, Value>>, params: map<string, Value>, k: nat): (r: Result<(SpatialFeature, Value), string>)
    ensures k < |rows| ==> r == FeatureOfRow(rows[k], k, params)
  {
    if k < |rows| then FeatureOfRow(rows[k], k, params) else Err("row index out of range")
  }

  /**
    Shape every row of a load into `spatial_features`. On success there is
    one record per row, in row order, each shaped with the number of rows
    inserted before it; otherwise the error is that of the first row that
    fails.
   */
  function ShapeRows(rows: seq<map<string, Value>>, params: map<string, Value>)
    : (r: Result<seq<(SpatialFeature, Value)>, string>)
    ensures r.Ok? <==> forall k :: 0 <= k < |rows| ==> RowAt(rows, params, k).Ok?
    ensures r.Ok? ==> |r.value| == |rows| && forall k :: 0 <= k < |rows| ==> RowAt(rows, params, k) == Ok(r.value[k])
    ensures r.Err? ==> exists k :: (0 <= k < |rows| && RowAt(rows, params, k) == Err(r.error)
      && forall j :: 0 <= j < k ==> RowAt(rows, params, j).Ok?)
  {
    var f := (k: nat) => RowAt(rows, params, k);
    FirstFailingRow(rows, params, f);
    Traverse(f, 0, |rows|)
  }

  /** Traversing the rows' shapings stops at a row that fails, after rows that all succeed. */
  lemma {:induction false} FirstFailingRow(rows: seq<map<string, Value>>, params: map<string, Value>, f: nat -> Result<(SpatialFeature, Value), string>)
    requires forall k :: f(k) == RowAt(rows, params, k)
    ensures Traverse(f, 0, |rows|).Err? ==> exists k :: (0 <= k < |rows| && RowAt(rows, params, k) == Err(Traverse(f, 0, |rows|).error)
      && forall j :: 0 <= j < k ==> RowAt(rows, params, j).Ok?)
  {
    var t := Traverse(f, 0, |rows|);
    if t.Err? {
      var k :| 0 <= k < |rows| && f(k) == Err(t.error) && forall j :: 0 <= j < k ==> f(j).Ok?;
      assert RowAt(rows, params, k) == Err(t.error);
    }
  }

  /** Rows with neither a truthy `feature_id` nor a truthy `id` get the ids feature_0, feature_1, ... */
  lemma {:induction false} GeneratedIdsFollowRowOrder(rows: seq<map<string, Value>>, params: map<string, Value>, k: nat)
    requires ShapeRows(rows, params).Ok? && k < |rows|
    requires "feature_id" !in rows[k] || !Truthy(rows[k]["feature_id"])
    requires "id" !in rows[k] || !Truthy(rows[k]["id"])
    ensures ShapeRows(rows, params).value[k].1 == Str(GeneratedId(k))
  {
    FeatureOfRowShape(rows[k], k, params);
  }

  /** Generated ids of different rows differ. */
  lemma {:induction false} GeneratedIdsDistinct(m: nat, n: nat)
    requires m != n
    ensures GeneratedId(m) != GeneratedId(n)
  {
    Text.ParseShowNat(m);
    Text.ParseShowNat(n);
    var a := GeneratedId(m);
    var b := GeneratedId(n);
    assert a[8..] == Text.ShowNat(m);
    assert b[8..] == Text.ShowNat(n);
  }

  // ---------------------------------------------------------------------
  // Sync records

  datatype SyncRecord = SyncRecord(
    sourceSystem: string,
    entityType: string,
    entityId: nat,
    targetId: Option<string>,
    direction: string,
    status: string)

  /** The record for one stored feature. */
  function SyncRecordFor(entity: nat, direction: string, source: string): (r: SyncRecord)
    ensures r.entityId == entity && r.entityType == "SpatialFeature"
    ensures r.targetId == None && r.status == "completed"
  {
    SyncRecord(source, "SpatialFeature", entity, None, direction, "completed")
  }

  /** The record for one listed id: one if the store knows it, none otherwise. */
  function RecordsOf(id: Value, lookup: Value -> Option<nat>, direction: string, source: string): (r: seq<SyncRecord>)
    ensures |r| <= 1
  {
    match lookup(id)
    case Some(e) => [SyncRecordFor(e, direction, source)]
    case None => []
  }

  /**
    One sync record per listed feature id that the feature store knows
    (`lookup` returns its row id), in list order; ids it does not know are
    skipped.
   */
  function SyncRecords(ids: seq<Value>, lookup: Value -> Option<nat>, direction: string, source: string)
    : (r: seq<SyncRecord>)
    ensures |r| <= |ids|
    decreases |ids|
  {
    if ids == [] then []
    else
      RecordsOf(ids[0], lookup, direction, source) + SyncRecords(ids[1..], lookup, direction, source)
  }

  /**
    The row id of the first stored feature whose `feature_id` is the given
    text; rows are numbered from 1 in table order.
   */
  function StoredRowId(table: seq<SpatialFeature>, featureId: string): (r: Option<nat>)
    ensures r.None? <==> forall k :: 0 <= k < |table| ==> table[k].featureId != featureId
    ensures r.Some? ==> 1 <= r.value <= |table| && table[r.value - 1].featureId == featureId
    ensures r.Some? ==> forall k :: 0 <= k < r.value - 1 ==> table[k].featureId != featureId
    decreases |table|
  {
    if table == [] then None
    else if table[0].featureId == featureId then Some(1)
    else
      var rest := StoredRowId(table[1..], featureId);
      assert forall k :: 1 <= k < |table| ==> table[k] == table[1..][k - 1];
      match rest
      case None => None
      case Some(n) => Some(n + 1)
  }

  /** `lookup` answers a string id as the query over `table` does. */
  ghost predicate LooksUpTable(lookup: Value -> Option<nat>, table: seq<SpatialFeature>) {
    forall x: string :: lookup(Str(x)) == StoredRowId(table, x)
  }

  /**
    Ids that name, in order, the records appended after `earlier` all
    resolve, each to the first row of the table that carries it.
   */
  lemma {:induction false} InsertedIdsResolve(earlier: seq<SpatialFeature>, inserted: seq<SpatialFeature>, ids: seq<Value>, lookup: Value -> Option<nat>)
    requires LooksUpTable(lookup, earlier + inserted)
    requires ids != [] ==> |ids| == |inserted|
    requires forall k :: 0 <= k < |ids| ==> ids[k].Str? && inserted[k].featureId == PyStr(ids[k])
    ensures forall k :: 0 <= k < |ids| ==>
      lookup(ids[k]) == StoredRowId(earlier + inserted, ids[k].s) && StoredRowId(earlier + inserted, ids[k].s).Some?
  {
    var table := earlier + inserted;
    forall k | 0 <= k < |ids|
      ensures lookup(ids[k]) == StoredRowId(table, ids[k].s) && StoredRowId(table, ids[k].s).Some?
    {
      assert table[|earlier| + k] == inserted[k];
      assert ids[k] == Str(ids[k].s);
    }
  }

  /**
    The inbound sync records of string ids that name, in order, the rows
    appended after `earlier`, written with a lookup that reads the whole
    table: one completed record per id, naming the first row with that id.
   */
  lemma {:induction false} SyncedNameRows(synced: seq<SyncRecord>, ids: seq<Value>, lookup: Value -> Option<nat>, earlier: seq<SpatialFeature>, inserted: seq<SpatialFeature>)
    requires synced == SyncRecords(ids, lookup, "inbound", "jcharrispacs")
    requires LooksUpTable(lookup, earlier + inserted)
    requires ids != [] ==> |ids| == |inserted|
    requires forall k :: 0 <= k < |ids| ==> ids[k].Str? && inserted[k].featureId == PyStr(ids[k])
    ensures var table := earlier + inserted;
      && |synced| == |ids|
      && forall k :: 0 <= k < |ids| ==>
           && StoredRowId(table, ids[k].s).Some?
           && synced[k].entityId == StoredRowId(table, ids[k].s).value
           && table[synced[k].entityId - 1].featureId == ids[k].s
           && synced[k].entityType == "SpatialFeature" && synced[k].status == "completed"
  {
    InsertedIdsResolve(earlier, inserted, ids, lookup);
    SyncRecordsAllKnown(ids, lookup, "inbound", "jcharrispacs");
  }

  /** Some listed id resolves to the stored row `entity`. */
  predicate Known(ids: seq<Value>, lookup: Value -> Option<nat>, entity: nat) {
    exists i :: 0 <= i < |ids| && lookup(ids[i]) == Some(entity)
  }

  lemma {:induction false} KnownInTail(ids: seq<Value>, lookup: Value -> Option<nat>, entity: nat)
    requires ids != [] && Known(ids[1..], lookup, entity)
    ensures Known(ids, lookup, entity)
  {
    var i :| 0 <= i < |ids[1..]| && lookup(ids[1..][i]) == Some(entity);
    assert ids[i + 1] == ids[1..][i];
  }

  /** Each record is the completed record of some id in `ids` that the store knows. */
  predicate FromKnownIds(records: seq<SyncRecord>, ids: seq<Value>, lookup: Value -> Option<nat>, direction: string, source: string) {
    forall k :: 0 <= k < |records| ==>
      records[k] == SyncRecordFor(records[k].entityId, direction, source) && Known(ids, lookup, records[k].entityId)
  }

  /** Every sync record is the completed record of some listed id that the store knows. */
  lemma {:induction false} SyncRecordsFromKnownIds(ids: seq<Value>, lookup: Value -> Option<nat>, direction: string, source: string)
    ensures FromKnownIds(SyncRecords(ids, lookup, direction, source), ids, lookup, direction, source)
    decreases |ids|
  {
    if ids != [] {
      var here := RecordsOf(ids[0], lookup, direction, source);
      var rest := SyncRecords(ids[1..], lookup, direction, source);
      SyncRecordsFromKnownIds(ids[1..], lookup, direction, source);
      FromKnownInTail(rest, ids, lookup, direction, source);
      FromKnownHead(ids, lookup, direction, source);
      FromKnownAppend(here, rest, ids, lookup, direction, source);
    }
  }

  lemma {:induction false} FromKnownInTail(records: seq<SyncRecord>, ids: seq<Value>, lookup: Value -> Option<nat>, direction: string, source: string)
    requires ids != [] && FromKnownIds(records, ids[1..], lookup, direction, source)
    ensures FromKnownIds(records, ids, lookup, direction, source)
  {
    forall k | 0 <= k < |records| ensures Known(ids, lookup, records[k].entityId) {
      KnownInTail(ids, lookup, records[k].entityId);
    }
  }

  lemma {:induction false} FromKnownHead(ids: seq<Value>, lookup: Value -> Option<nat>, direction: string, source: string)
    requires ids != []
    ensures FromKnownIds(RecordsOf(ids[0], lookup, direction, source), ids, lookup, direction, source)
  {
    var h := RecordsOf(ids[0], lookup, direction, source);
    if h != [] {
      assert lookup(ids[0]) == Some(h[0].entityId);
    }
  }

  lemma {:induction false} FromKnownAppend(a: seq<SyncRecord>, b: seq<SyncRecord>, ids: seq<Value>, lookup: Value -> Option<nat>, direction: string, source: string)
    requires FromKnownIds(a, ids, lookup, direction, source) && FromKnownIds(b, ids, lookup, direction, source)
    ensures FromKnownIds(a + b, ids, lookup, direction, source)
  {
    forall k | |a| <= k < |a + b|
      ensures (a + b)[k] == SyncRecordFor((a + b)[k].entityId, direction, source) && Known(ids, lookup, (a + b)[k].entityId)
    {
      assert (a + b)[k] == b[k - |a|];
    }
  }

  /** When the store knows every listed id, there is exactly one record per id, in list order. */
  lemma {:induction false} SyncRecordsAllKnown(ids: seq<Value>, lookup: Value -> Option<nat>, direction: string, source: string)
    requires forall i :: 0 <= i < |ids| ==> lookup(ids[i]).Some?
    ensures var r := SyncRecords(ids, lookup, direction, source);
      |r| == |ids| && forall i :: 0 <= i < |ids| ==> r[i] == SyncRecordFor(lookup(ids[i]).value, direction, source)
    decreases |ids|
  {
    if ids != [] {
      assert forall i :: 0 <= i < |ids[1..]| ==> ids[1..][i] == ids[i + 1];
      SyncRecordsAllKnown(ids[1..], lookup, direction, source);
      var r := SyncRecords(ids, lookup, direction, source);
      assert r == [SyncRecordFor(lookup(ids[0]).value, direction, source)] + SyncRecords(ids[1..], lookup, direction, source);
    }
  }

  /** When the store knows none of the listed ids, no record is written. */
  lemma {:induction false} SyncRecordsNoneKnown(ids: seq<Value>, lookup: Value -> Option<nat>, direction: string, source: string)
    requires forall i :: 0 <= i < |ids| ==> lookup(ids[i]).None?
    ensures SyncRecords(ids, lookup, direction, source) == []
    decreases |ids|
  {
    if ids != [] {
      assert forall i :: 0 <= i < |ids[1..]| ==> ids[1..][i] == ids[i + 1];
      SyncRecordsNoneKnown(ids[1..], lookup, direction, source);
    }
  }

  /** Sync records of a concatenation are the concatenation of the sync records. */
  lemma {:induction false} SyncRecordsAppend(a: seq<Value>, b: seq<Value>, lookup: Value -> Option<nat>, direction: string, source: string)
    ensures SyncRecords(a + b, lookup, direction, source)
         == SyncRecords(a, lookup, direction, source) + SyncRecords(b, lookup, direction, source)
    decreases |a|
  {
    if a == [] {
      assert a + b == b;
    } else {
      var h := RecordsOf(a[0], lookup, direction, source);
      var x := SyncRecords(a[1..], lookup, direction, source);
      var y := SyncRecords(b, lookup, direction, source);
      calc {
        SyncRecords(a + b, lookup, direction, source);
      == { SyncRecordsCons(a + b, lookup, direction, source);
           assert (a + b)[0] == a[0] && (a + b)[1..] == a[1..] + b; }
        h + SyncRecords(a[1..] + b, lookup, direction, source);
      == { SyncRecordsAppend(a[1..], b, lookup, direction, source); }
        h + (x + y);
      == { AppendAssoc(h, x, y); }
        (h + x) + y;
      == { SyncRecordsCons(a, lookup, direction, source); }
        SyncRecords(a, lookup, direction, source) + y;
      }
    }
  }

  lemma {:induction false} SyncRecordsCons(ids: seq<Value>, lookup: Value -> Option<nat>, direction: string, source: string)
    requires ids != []
    ensures SyncRecords(ids, lookup, direction, source)
         == RecordsOf(ids[0], lookup, direction, source) + SyncRecords(ids[1..], lookup, direction, source)
  {
  }

  lemma {:induction false} AppendAssoc<T>(a: seq<T>, b: seq<T>, c: seq<T>)
    ensures a + (b + c) == (a + b) + c
  {
  }
}
