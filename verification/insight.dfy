/**
  The AI-insight service: starting an agent run, the background executor
  (the same task lifecycle as ETL jobs), the coordinates-to-Point branch of
  the data-conversion agent, and the rule checks and summary of the audit
  agent.

  Database answers (the feature row, the geometry validity, the envelope,
  the PostGIS-backed conversions) and the spatial-query agent are inputs.
 */
module Insight {
  import opened Wrappers
  import opened Json
  import Text
  import Tasks

  const AgentIds: seq<string> := ["spatial_query_agent", "data_convert_agent", "audit_agent"]

  const DefaultCrs := Str("EPSG:4326")

  // ---------------------------------------------------------------------
  // Coordinates -> GeoJSON Point

  /** A GeoJSON Point as the agent builds it. */
  function Point(x: Value, y: Value): (r: Value)
    ensures r.Obj? && r.fields.Keys == {"type", "coordinates"}
  {
    Obj(map["type" := Str("Point"), "coordinates" := Arr([x, y])])
  }

  /** `float(p.strip())` for one piece, on integers. */
  function PieceValue(p: string): (r: Option<int>) {
    Text.ParseInt(Text.Strip(p))
  }

  /**
    `float(x.strip())` for each piece, in order, with `strip` standing for
    `str.strip`; the first piece that is no number raises.
   */
  function ParseEach(strip: string -> string, pieces: seq<string>): (r: Result<seq<Value>, string>)
    ensures r.Ok? ==> |r.value| == |pieces|
  {
    if pieces == [] then Ok([])
    else
      match Text.ParseInt(strip(pieces[0]))
      case None => Err("could not convert string to float: '" + strip(pieces[0]) + "'")
      case Some(n) =>
        var rest := ParseEach(strip, pieces[1..]);
        if rest.Err? then Err(rest.error) else Ok([Int(n)] + rest.value)
  }

  lemma {:induction false} ParseEachMeaning(strip: string -> string, pieces: seq<string>)
    ensures var r := ParseEach(strip, pieces);
      r.Err? <==> exists k :: 0 <= k < |pieces| && Text.ParseInt(strip(pieces[k])).None?
    ensures var r := ParseEach(strip, pieces);
      r.Ok? ==> forall k :: 0 <= k < |pieces| ==>
        Text.ParseInt(strip(pieces[k])).Some? && r.value[k] == Int(Text.ParseInt(strip(pieces[k])).value)
  {
    if pieces != [] {
      ParseEachMeaning(strip, pieces[1..]);
      assert forall k :: 1 <= k < |pieces| ==> pieces[k] == pieces[1..][k - 1];
      if Text.ParseInt(strip(pieces[0])).Some? && ParseEach(strip, pieces[1..]).Err? {
        var k :| 0 <= k < |pieces[1..]| && Text.ParseInt(strip(pieces[1..][k])).None?;
        assert Text.ParseInt(strip(pieces[k + 1])).None?;
      }
    }
  }

  /** The comma-separated pieces of the coordinates text, each read as a number. */
  function ParseCoordinates(pieces: seq<string>): (r: Result<seq<Value>, string>)
    ensures r.Ok? ==> |r.value| == |pieces|
  {
    ParseEach(Text.Strip, pieces)
  }

  /** Parsing fails exactly when some piece is no number; otherwise each coordinate is its piece's number. */
  lemma {:induction false} ParseCoordinatesMeaning(pieces: seq<string>)
    ensures var r := ParseCoordinates(pieces);
      r.Err? <==> exists k :: 0 <= k < |pieces| && PieceValue(pieces[k]).None?
    ensures var r := ParseCoordinates(pieces);
      r.Ok? ==> forall k :: 0 <= k < |pieces| ==> PieceValue(pieces[k]).Some? && r.value[k] == Int(PieceValue(pieces[k]).value)
  {
    ParseEachMeaning(Text.Strip, pieces);
  }

  /**
    The coordinates branch of the data-conversion agent: a string is split
    on commas and each piece read as a number; any other (truthy) value is
    taken as the coordinate list itself. Fewer than two coordinates raise;
    otherwise the Point is built from the first two.
   */
  function CoordinatesToPoint(sourceData: Value): (r: Result<Value, string>)
    ensures sourceData.Arr? ==>
      if |sourceData.items| < 2 then r == Err("At least two coordinates (x,y) are required")
      else r == Ok(Point(sourceData.items[0], sourceData.items[1]))
    ensures sourceData.Str? ==>
      var pieces := Text.SplitOn(sourceData.s, ",");
      && ((exists k :: 0 <= k < |pieces| && PieceValue(pieces[k]).None?) ==> r.Err?)
      && ((forall k :: 0 <= k < |pieces| ==> PieceValue(pieces[k]).Some?) ==>
            if |pieces| < 2 then r == Err("At least two coordinates (x,y) are required")
            else r == Ok(Point(Int(PieceValue(pieces[0]).value), Int(PieceValue(pieces[1]).value))))
  {
    match sourceData
    case Str(s) =>
      ParseCoordinatesMeaning(Text.SplitOn(s, ","));
      (match ParseCoordinates(Text.SplitOn(s, ","))
       case Err(e) => Err(e)
       case Ok(coords) =>
         if |coords| < 2 then Err("At least two coordinates (x,y) are required")
         else Ok(Point(coords[0], coords[1])))
    case Arr(xs) =>
      if |xs| < 2 then Err("At least two coordinates (x,y) are required") else Ok(Point(xs[0], xs[1]))
    case Obj(m) =>
      if |m| < 2 then Err("At least two coordinates (x,y) are required") else Err("0")
    case _ => Err("object of type '" + TypeName(sourceData) + "' has no len()")
  }

  /** The text of an integer is one comma-free piece that reads back as the integer. */
  lemma {:induction false} IntegerPiece(n: int)
    ensures Text.NoChar(Text.ShowInt(n), ',')
    ensures Text.ParseInt(Text.Strip(Text.ShowInt(n))) == Some(n)
  {
    var a := Text.ShowInt(n);
    forall k | 0 <= k < |a| ensures a[k] != ',' { assert a[k] == '-' || Text.IsDigit(a[k]); }
    assert !Text.IsSpace(a[0]) && !Text.IsSpace(a[|a| - 1]);
    Text.StripUnpadded(a);
    Text.ParseShowInt(n);
  }

  /** Two comma-free pieces that read as numbers, joined by a comma, give the Point of those numbers. */
  lemma {:induction false} CommaPairToPoint(a: string, b: string, x: int, y: int)
    requires Text.NoChar(a, ',') && Text.NoChar(b, ',')
    requires Text.ParseInt(Text.Strip(a)) == Some(x) && Text.ParseInt(Text.Strip(b)) == Some(y)
    ensures CoordinatesToPoint(Str(a + "," + b)) == Ok(Point(Int(x), Int(y)))
  {
    Text.SplitOnFirst(a, ",", b);
    Text.SplitOnNone(b, ",");
    assert Text.SplitOn(a + "," + b, ",") == [a, b];
    TwoPiecesToPoint(a + "," + b, x, y);
  }

  /** Text that splits into exactly two numeric pieces gives the Point of their numbers. */
  lemma {:induction false} TwoPiecesToPoint(s: string, x: int, y: int)
    requires |Text.SplitOn(s, ",")| == 2
    requires PieceValue(Text.SplitOn(s, ",")[0]) == Some(x) && PieceValue(Text.SplitOn(s, ",")[1]) == Some(y)
    ensures CoordinatesToPoint(Str(s)) == Ok(Point(Int(x), Int(y)))
  {
    var pieces := Text.SplitOn(s, ",");
    forall k | 0 <= k < |pieces| ensures PieceValue(pieces[k]).Some? {
      assert k == 0 || k == 1;
    }
  }

  /** The text "x,y" of two integers converts to the Point (x, y). */
  lemma {:induction false} CoordinatePairRoundTrip(x: int, y: int)
    ensures CoordinatesToPoint(Str(Text.ShowInt(x) + "," + Text.ShowInt(y))) == Ok(Point(Int(x), Int(y)))
  {
    IntegerPiece(x);
    IntegerPiece(y);
    CommaPairToPoint(Text.ShowInt(x), Text.ShowInt(y), x, y);
  }

  /** The conversion record of a successful data-conversion run. */
  function Converted(conversion: string, sourceCrs: Value, targetCrs: Value, result: Value): (r: Value)
    ensures r.Obj? && r.fields.Keys == {"conversion", "source_crs", "target_crs", "result"}
  {
    Obj(map["conversion" := Str(conversion), "source_crs" := sourceCrs, "target_crs" := targetCrs, "result" := result])
  }

  /**
    The data-conversion agent. The three parameters must be truthy; WKT to
    GeoJSON and GeoJSON to WKT are answered by the database
    (`dbConversion`); coordinates to GeoJSON builds a Point; every other
    pair of formats raises. The CRS entries default to EPSG:4326.
   */
  function RunDataConvertAgent(params: map<string, Value>, dbConversion: Result<Value, string>): (r: Result<Value, string>)
    ensures var sf := Get(params, "source_format", Null);
      var tf := Get(params, "target_format", Null);
      var sd := Get(params, "source_data", Null);
      && (!Truthy(sf) || !Truthy(tf) || !Truthy(sd) ==> r == Err("source_format, target_format, and source_data are required"))
      && (Truthy(sd) && sf == Str("coordinates") && tf == Str("geojson") ==>
            match CoordinatesToPoint(sd)
            case Err(e) => r == Err(e)
            case Ok(p) => r == Ok(Converted("coordinates_to_geojson",
                                    Get(params, "source_crs", DefaultCrs), Get(params, "target_crs", DefaultCrs), p)))
      && (Truthy(sf) && Truthy(tf) && Truthy(sd)
          && !(sf == Str("coordinates") && tf == Str("geojson"))
          && !(sf == Str("wkt") && tf == Str("geojson"))
          && !(sf == Str("geojson") && tf == Str("wkt")) ==>
            r == Err("Unsupported conversion: " + PyStr(sf) + " to " + PyStr(tf)))
  {
    var sf := Get(params, "source_format", Null);
    var tf := Get(params, "target_format", Null);
    var sd := Get(params, "source_data", Null);
    if !Truthy(sf) || !Truthy(tf) || !Truthy(sd) then Err("source_format, target_format, and source_data are required")
    else if (sf == Str("wkt") && tf == Str("geojson")) || (sf == Str("geojson") && tf == Str("wkt")) then dbConversion
    else if sf == Str("coordinates") && tf == Str("geojson") then
      var p :- CoordinatesToPoint(sd);
      Ok(Converted("coordinates_to_geojson", Get(params, "source_crs", DefaultCrs), Get(params, "target_crs", DefaultCrs), p))
    else Err("Unsupported conversion: " + PyStr(sf) + " to " + PyStr(tf))
  }

  // ---------------------------------------------------------------------
  // The audit agent

  /** An axis-aligned box [min_x, min_y, max_x, max_y]. */
  datatype Box = Box(minX: int, minY: int, maxX: int, maxY: int)

  /** The bounds the audit checks against when none are given. */
  const DefaultBounds := Box(-180, -90, 180, 90)

  /** A box as the four-number list the parameters carry. */
  function BoxValue(b: Box): (v: Value)
    ensures v.Arr? && |v.items| == 4
    ensures v.items[0] == Int(b.minX) && v.items[1] == Int(b.minY) && v.items[2] == Int(b.maxX) && v.items[3] == Int(b.maxY)
  {
    Arr([Int(b.minX), Int(b.minY), Int(b.maxX), Int(b.maxY)])
  }

  /** The box a list of four integers stands for; `None` for any other value. */
  function BoxOf(v: Value): (r: Option<Box>)
    ensures r.Some? ==> BoxValue(r.value) == v
    ensures forall b :: v == BoxValue(b) ==> r == Some(b)
  {
    if v.Arr? && |v.items| == 4 && v.items[0].Int? && v.items[1].Int? && v.items[2].Int? && v.items[3].Int? then
      var b := Box(v.items[0].i, v.items[1].i, v.items[2].i, v.items[3].i);
      assert BoxValue(b).items == v.items;
      Some(b)
    else None
  }

  /** A list of names as the list of strings the parameters carry. */
  function StrItems(names: seq<string>): (r: seq<Value>)
    ensures |r| == |names| && forall k :: 0 <= k < |r| ==> r[k] == Str(names[k])
  {
    if names == [] then [] else [Str(names[0])] + StrItems(names[1..])
  }

  /** The names a list of strings holds; `None` when some item is no string. */
  function StringsOf(items: seq<Value>): (r: Option<seq<string>>)
    ensures r.Some? ==> StrItems(r.value) == items
    ensures forall names :: items == StrItems(names) ==> r == Some(names)
  {
    if forall k :: 0 <= k < |items| ==> items[k].Str? then
      var names := seq(|items|, k requires 0 <= k < |items| => items[k].s);
      assert StrItems(names) == items;
      assert forall other :: items == StrItems(other) ==> other == names by {
        forall other | items == StrItems(other) ensures other == names {
          assert |other| == |names|;
          assert forall k :: 0 <= k < |other| ==> StrItems(other)[k] == Str(other[k]);
        }
      }
      Some(names)
    else
      assert forall names :: items != StrItems(names) by {
        forall names ensures items != StrItems(names) {
          var k :| 0 <= k < |items| && !items[k].Str?;
        }
      }
      None
  }

  datatype ValidationResult = ValidationResult(rule: string, passed: bool, message: string, boxes: Option<(Box, Box)>)

  /** A recorded repair; `applied` holds the auto_correct parameter as given. */
  datatype Correction = Correction(rule: string, original: Value, corrected: Value, applied: Value)

  datatype Summary = Summary(totalChecks: nat, passed: nat, failed: nat, correctionsApplied: nat)

  datatype AuditReport = AuditReport(
    featureId: Value,
    results: seq<ValidationResult>,
    corrections: seq<Correction>,
    summary: Summary)

  /**
    The audit agent's parameters: the feature id, rule selection and
    auto-correct flag as given, the required fields as a list of names and
    the bounds as four integers.
   */
  datatype AuditParams = AuditParams(
    featureId: Value,
    rules: Value,
    autoCorrect: Value,
    requiredFields: seq<string>,
    bounds: Box)

  /**
    The audit agent's parameters read from the task's with `dict.get`:
    feature_id must be truthy; rules default to [], auto_correct to False,
    required_fields to [] and bounds to [-180, -90, 180, 90]. `Ok(None)`
    when required_fields is not a list of strings or bounds not a list of
    four integers: the model does not follow the agent on those shapes.
   */
  function AuditParamsOf(params: map<string, Value>): (r: Result<Option<AuditParams>, string>)
    ensures r.Err? <==> !Truthy(Get(params, "feature_id", Null))
    ensures r.Err? ==> r.error == "feature_id is required"
    ensures r.Ok? ==>
      (r.value.Some? <==>
        (exists names :: Get(params, "required_fields", Arr([])) == Arr(StrItems(names)))
        && (exists b :: Get(params, "bounds", BoxValue(DefaultBounds)) == BoxValue(b)))
    ensures r.Ok? && r.value.Some? ==>
      var p := r.value.value;
      && p.featureId == Get(params, "feature_id", Null)
      && p.rules == Get(params, "rules", Arr([]))
      && p.autoCorrect == Get(params, "auto_correct", Bool(false))
      && Arr(StrItems(p.requiredFields)) == Get(params, "required_fields", Arr([]))
      && BoxValue(p.bounds) == Get(params, "bounds", BoxValue(DefaultBounds))
  {
    var featureId := Get(params, "feature_id", Null);
    var required := Get(params, "required_fields", Arr([]));
    var bounds := BoxOf(Get(params, "bounds", BoxValue(DefaultBounds)));
    if !Truthy(featureId) then Err("feature_id is required")
    else if !required.Arr? || StringsOf(required.items).None? || bounds.None? then
      assert !((exists names :: required == Arr(StrItems(names)))
               && (exists b :: Get(params, "bounds", BoxValue(DefaultBounds)) == BoxValue(b))) by {
        if required.Arr? && StringsOf(required.items).Some? {
          assert forall b :: Get(params, "bounds", BoxValue(DefaultBounds)) != BoxValue(b);
        }
      }
      Ok(None)
    else
      assert required == Arr(StrItems(StringsOf(required.items).value));
      assert Get(params, "bounds", BoxValue(DefaultBounds)) == BoxValue(bounds.value);
      Ok(Some(AuditParams(featureId, Get(params, "rules", Arr([])), Get(params, "auto_correct", Bool(false)),
                          StringsOf(required.items).value, bounds.value)))
  }

  /** The stored feature the audit reads. */
  datatype StoredFeature = StoredFeature(properties: map<string, Value>, geometry: Value)

  /**
    The database's answers: the feature (if found), the validity verdict
    and reason (if that query succeeds), the repaired geometry (if the
    repair query returns one) and the envelope (if that query succeeds).
   */
  datatype AuditWorld = AuditWorld(
    feature: Option<StoredFeature>,
    validity: Option<(bool, string)>,
    repaired: Option<Value>,
    envelope: Option<Box>)

  /** The required fields missing from the properties, in the order they are listed. */
  function MissingFields(fields: seq<string>, props: map<string, Value>): (r: seq<string>)
    ensures forall f {:trigger f in r} :: f in r <==> f in fields && f !in props
    ensures |r| <= |fields|
    ensures |fields| == 1 ==> r == if fields[0] in props then [] else fields
  {
    if fields == [] then []
    else (if fields[0] in props then [] else [fields[0]]) + MissingFields(fields[1..], props)
  }

  /** Each missing field is listed as often as the required fields list it; present ones not at all. */
  lemma {:induction false} MissingFieldsCounts(fields: seq<string>, props: map<string, Value>)
    ensures forall f :: multiset(MissingFields(fields, props))[f] == if f in props then 0 else multiset(fields)[f]
  {
    if fields != [] {
      MissingFieldsCounts(fields[1..], props);
      assert fields == [fields[0]] + fields[1..];
      var head := if fields[0] in props then [] else [fields[0]];
      assert MissingFields(fields, props) == head + MissingFields(fields[1..], props);
      assert multiset(MissingFields(fields, props)) == multiset(head) + multiset(MissingFields(fields[1..], props));
      assert multiset(fields) == multiset{fields[0]} + multiset(fields[1..]);
    }
  }

  /** The missing fields of a concatenation are those of each part, in order: the list is a filter. */
  lemma {:induction false} MissingFieldsAppend(a: seq<string>, b: seq<string>, props: map<string, Value>)
    ensures MissingFields(a + b, props) == MissingFields(a, props) + MissingFields(b, props)
  {
    if a != [] {
      MissingFieldsAppend(a[1..], b, props);
      MissingFieldsCons(a[0], a[1..] + b, props);
      MissingFieldsCons(a[0], a[1..], props);
      assert [a[0]] + (a[1..] + b) == a + b;
      assert [a[0]] + a[1..] == a;
    }
    else {
      assert a + b == b;
    }
  }

  lemma {:induction false} MissingFieldsCons(x: string, rest: seq<string>, props: map<string, Value>)
    ensures MissingFields([x] + rest, props) == (if x in props then [] else [x]) + MissingFields(rest, props)
  {
    assert ([x] + rest)[1..] == rest;
  }

  /** The required-properties rule: passes iff every listed field is a key, and names exactly the missing ones. */
  function RequiredPropertiesCheck(fields: seq<string>, props: map<string, Value>): (r: ValidationResult)
    ensures r.rule == "required_properties" && r.boxes.None?
    ensures r.passed <==> forall k :: 0 <= k < |fields| ==> fields[k] in props
    ensures r.passed ==> r.message == "All required fields present"
    ensures !r.passed ==> r.message == "Missing required fields: " + Text.Join(MissingFields(fields, props), ", ")
  {
    var missing := MissingFields(fields, props);
    assert missing == [] <==> forall k :: 0 <= k < |fields| ==> fields[k] in props by {
      if missing != [] { assert missing[0] in missing; }
      if exists k :: 0 <= k < |fields| && fields[k] !in props {
        var k :| 0 <= k < |fields| && fields[k] !in props;
        assert fields[k] in fields;
        assert fields[k] in missing;
      }
    }
    ValidationResult("required_properties", missing == [],
      if missing != [] then "Missing required fields: " + Text.Join(missing, ", ") else "All required fields present",
      None)
  }

  predicate InBox(x: int, y: int, b: Box) {
    b.minX <= x <= b.maxX && b.minY <= y <= b.maxY
  }

  /** The coordinate-bounds rule: the feature's envelope must lie inside the expected bounds. */
  function BoundsCheck(envelope: Box, expected: Box): (r: ValidationResult)
    ensures r.rule == "coordinate_bounds" && r.boxes == Some((envelope, expected))
    ensures r.passed <==> (envelope.minX >= expected.minX && envelope.minY >= expected.minY
                        && envelope.maxX <= expected.maxX && envelope.maxY <= expected.maxY)
    ensures r.message == if r.passed then "Coordinates within bounds" else "Coordinates out of bounds"
  {
    var within := envelope.minX >= expected.minX && envelope.minY >= expected.minY
                && envelope.maxX <= expected.maxX && envelope.maxY <= expected.maxY;
    ValidationResult("coordinate_bounds", within,
      if !within then "Coordinates out of bounds" else "Coordinates within bounds", Some((envelope, expected)))
  }

  /** For a non-empty envelope the rule passes exactly when every point of the envelope is inside the bounds. */
  lemma {:induction false} BoundsCheckIsContainment(envelope: Box, expected: Box)
    requires envelope.minX <= envelope.maxX && envelope.minY <= envelope.maxY
    ensures BoundsCheck(envelope, expected).passed <==>
      forall x, y :: InBox(x, y, envelope) ==> InBox(x, y, expected)
  {
    if forall x, y :: InBox(x, y, envelope) ==> InBox(x, y, expected) {
      assert InBox(envelope.minX, envelope.minY, envelope);
      assert InBox(envelope.maxX, envelope.maxY, envelope);
    }
  }

  function CountPassed(results: seq<ValidationResult>): (n: nat)
    ensures n <= |results|
  {
    if results == [] then 0 else (if results[0].passed then 1 else 0) + CountPassed(results[1..])
  }

  function CountFailed(results: seq<ValidationResult>): (n: nat)
    ensures n <= |results|
  {
    if results == [] then 0 else (if results[0].passed then 0 else 1) + CountFailed(results[1..])
  }

  function CountApplied(corrections: seq<Correction>): (n: nat)
    ensures n <= |corrections|
  {
    if corrections == [] then 0 else (if Truthy(corrections[0].applied) then 1 else 0) + CountApplied(corrections[1..])
  }

  /** Every check either passed or failed. */
  lemma {:induction false} PassedPlusFailed(results: seq<ValidationResult>)
    ensures CountPassed(results) + CountFailed(results) == |results|
  {
    if results != [] {
      PassedPlusFailed(results[1..]);
    }
  }

  /** The summary block of a report. */
  function Summarize(results: seq<ValidationResult>, corrections: seq<Correction>): (r: Summary)
    ensures r.totalChecks == |results| && r.passed + r.failed == r.totalChecks
    ensures r.passed == CountPassed(results) && r.correctionsApplied <= |corrections|
  {
    PassedPlusFailed(results);
    Summary(|results|, CountPassed(results), CountFailed(results), CountApplied(corrections))
  }

  /**
    A rule runs when it is named in the rule selection (Python's `in`:
    list membership, dict key or substring) or when the selection is falsy.
   */
  predicate RuleEnabled(rules: Value, rule: string) {
    Contains(rules, rule) == Some(true) || !Truthy(rules)
  }

  /** The geometry-validity rule's result, when the rule is enabled and its query answers. */
  function GeometryResults(p: AuditParams, w: AuditWorld): (rs: seq<ValidationResult>)
    ensures |rs| <= 1 && forall x :: x in rs ==> x.rule == "valid_geometry" && w.validity.Some? && x.passed == w.validity.value.0
    ensures rs != [] <==> RuleEnabled(p.rules, "valid_geometry") && w.validity.Some?
  {
    if RuleEnabled(p.rules, "valid_geometry") && w.validity.Some? then
      var (ok, reason) := w.validity.value;
      [ValidationResult("valid_geometry", ok, if !ok then reason else "Geometry is valid", None)]
    else []
  }

  /** The required-properties rule's result, when the rule is enabled. */
  function PropertyResults(p: AuditParams, feature: StoredFeature): (rs: seq<ValidationResult>)
    ensures |rs| <= 1 && forall x :: x in rs ==> x == RequiredPropertiesCheck(p.requiredFields, feature.properties)
    ensures rs != [] <==> RuleEnabled(p.rules, "required_properties")
  {
    if RuleEnabled(p.rules, "required_properties") then [RequiredPropertiesCheck(p.requiredFields, feature.properties)]
    else []
  }

  /** The coordinate-bounds rule's result, when the rule is enabled and the envelope query answers. */
  function BoundsResults(p: AuditParams, w: AuditWorld): (rs: seq<ValidationResult>)
    ensures |rs| <= 1 && forall x :: x in rs ==> w.envelope.Some? && x == BoundsCheck(w.envelope.value, p.bounds)
    ensures rs != [] <==> RuleEnabled(p.rules, "coordinate_bounds") && w.envelope.Some?
  {
    if RuleEnabled(p.rules, "coordinate_bounds") && w.envelope.Some? then [BoundsCheck(w.envelope.value, p.bounds)]
    else []
  }

  /** The position of a rule in the order the agent runs them. */
  function RuleRank(rule: string): nat {
    if rule == "valid_geometry" then 0 else if rule == "required_properties" then 1 else 2
  }

  /** The results of the enabled rules, in the order the agent runs them. */
  function Checks(p: AuditParams, feature: StoredFeature, w: AuditWorld): (rs: seq<ValidationResult>)
    ensures |rs| <= 3
    ensures forall x :: x in rs ==> RuleEnabled(p.rules, x.rule)
  {
    GeometryResults(p, w) + PropertyResults(p, feature) + BoundsResults(p, w)
  }

  /**
    The geometry-validity rule has a result exactly when it is enabled
    and the validity query answers, and the result carries that answer.
   */
  lemma {:induction false} ChecksValidity(p: AuditParams, feature: StoredFeature, w: AuditWorld)
    ensures (exists x :: x in Checks(p, feature, w) && x.rule == "valid_geometry") <==>
      RuleEnabled(p.rules, "valid_geometry") && w.validity.Some?
    ensures forall x :: x in Checks(p, feature, w) && x.rule == "valid_geometry" ==>
      w.validity.Some? && x.passed == w.validity.value.0
  {
    var g := GeometryResults(p, w);
    assert Checks(p, feature, w) == g + PropertyResults(p, feature) + BoundsResults(p, w);
    assert g != [] ==> g[0] in g;
  }

  /**
    The required-properties rule has a result exactly when it is enabled,
    and the result is the check of the required fields on the feature.
   */
  lemma {:induction false} ChecksRequiredProperties(p: AuditParams, feature: StoredFeature, w: AuditWorld)
    ensures (exists x :: x in Checks(p, feature, w) && x.rule == "required_properties") <==>
      RuleEnabled(p.rules, "required_properties")
    ensures forall x :: x in Checks(p, feature, w) && x.rule == "required_properties" ==>
      x == RequiredPropertiesCheck(p.requiredFields, feature.properties)
  {
    var q := PropertyResults(p, feature);
    assert Checks(p, feature, w) == GeometryResults(p, w) + q + BoundsResults(p, w);
    assert q != [] ==> q[0] in q;
  }

  /**
    The coordinate-bounds rule has a result exactly when it is enabled and
    the envelope query answers, and the result compares that envelope
    with the requested bounds.
   */
  lemma {:induction false} ChecksBounds(p: AuditParams, feature: StoredFeature, w: AuditWorld)
    ensures (exists x :: x in Checks(p, feature, w) && x.rule == "coordinate_bounds") <==>
      RuleEnabled(p.rules, "coordinate_bounds") && w.envelope.Some?
    ensures forall x :: x in Checks(p, feature, w) && x.rule == "coordinate_bounds" ==>
      w.envelope.Some? && x == BoundsCheck(w.envelope.value, p.bounds)
  {
    var b := BoundsResults(p, w);
    assert Checks(p, feature, w) == GeometryResults(p, w) + PropertyResults(p, feature) + b;
    assert b != [] ==> b[0] in b;
  }

  /** The results come in the order geometry validity, required properties, coordinate bounds, each at most once. */
  lemma {:induction false} ChecksInRuleOrder(p: AuditParams, feature: StoredFeature, w: AuditWorld)
    ensures var rs := Checks(p, feature, w);
      forall j, k :: 0 <= j < k < |rs| ==> RuleRank(rs[j].rule) < RuleRank(rs[k].rule)
  {
    RankedThree(GeometryResults(p, w), PropertyResults(p, feature), BoundsResults(p, w));
  }

  /** Three at-most-single lists of the first, second and third rule, joined, run in rule order. */
  lemma {:induction false} RankedThree(g: seq<ValidationResult>, q: seq<ValidationResult>, b: seq<ValidationResult>)
    requires |g| <= 1 && |q| <= 1 && |b| <= 1
    requires forall x :: x in g ==> RuleRank(x.rule) == 0
    requires forall x :: x in q ==> RuleRank(x.rule) == 1
    requires forall x :: x in b ==> RuleRank(x.rule) == 2
    ensures forall j, k :: 0 <= j < k < |g + q + b| ==> RuleRank((g + q + b)[j].rule) < RuleRank((g + q + b)[k].rule)
  {
    var rs := g + q + b;
    forall j, k | 0 <= j < k < |rs| ensures RuleRank(rs[j].rule) < RuleRank(rs[k].rule) {
      if j < |g| {
        assert rs[j] == g[j];
        if k < |g| + |q| { assert rs[k] == q[k - |g|]; } else { assert rs[k] == b[k - |g| - |q|]; }
      } else {
        assert rs[j] == q[j - |g|] && rs[k] == b[k - |g| - |q|];
      }
    }
  }

  /** The repair recorded for an invalid geometry under auto-correct, when the repair query returns one. */
  function Repairs(p: AuditParams, feature: StoredFeature, w: AuditWorld): (cs: seq<Correction>)
    ensures cs != [] <==>
      RuleEnabled(p.rules, "valid_geometry") && w.validity.Some? && !w.validity.value.0
      && Truthy(p.autoCorrect) && w.repaired.Some?
    ensures cs != [] ==> cs == [Correction("valid_geometry", feature.geometry, w.repaired.value, p.autoCorrect)]
    ensures CountApplied(cs) == |cs|
  {
    if GeometryResults(p, w) != [] && !w.validity.value.0 && Truthy(p.autoCorrect) && w.repaired.Some? then
      [Correction("valid_geometry", feature.geometry, w.repaired.value, p.autoCorrect)]
    else []
  }

  /**
    The audit agent: feature_id must be truthy and name a stored feature;
    the rule selection must support `in`; then, in order, the
    geometry-validity rule (when its query answers), the required-properties
    rule and the coordinate-bounds rule (when the envelope query answers),
    each only when enabled; a repair is recorded for an invalid geometry
    when auto-correct is on and a repair exists.
   */
  function RunAuditAgent(p: AuditParams, w: AuditWorld): (r: Result<AuditReport, string>)
    ensures !Truthy(p.featureId) ==> r == Err("feature_id is required")
    ensures Truthy(p.featureId) && w.feature.None? ==> r == Err("Feature " + PyStr(p.featureId) + " not found")
    ensures Truthy(p.featureId) && w.feature.Some? && Contains(p.rules, "valid_geometry").None? ==>
      r == Err("argument of type '" + TypeName(p.rules) + "' is not iterable")
    ensures r.Ok? <==> Truthy(p.featureId) && w.feature.Some? && Contains(p.rules, "valid_geometry").Some?
    ensures r.Ok? ==> r.value.featureId == p.featureId
    ensures r.Ok? ==> r.value.results == Checks(p, w.feature.value, w)
    ensures r.Ok? ==> r.value.corrections == Repairs(p, w.feature.value, w)
    ensures r.Ok? ==> (r.value.summary.totalChecks == |r.value.results|
      && r.value.summary.passed == CountPassed(r.value.results)
      && r.value.summary.passed + r.value.summary.failed == |r.value.results|)
    ensures r.Ok? ==> r.value.summary.correctionsApplied == |r.value.corrections|
  {
    if !Truthy(p.featureId) then Err("feature_id is required")
    else if w.feature.None? then Err("Feature " + PyStr(p.featureId) + " not found")
    else if Contains(p.rules, "valid_geometry").None? then Err("argument of type '" + TypeName(p.rules) + "' is not iterable")
    else
      var results := Checks(p, w.feature.value, w);
      var corrections := Repairs(p, w.feature.value, w);
      Ok(AuditReport(p.featureId, results, corrections, Summarize(results, corrections)))
  }

  /** With an empty rule list and every query answering, all three rules run, in order. */
  lemma {:induction false} EmptyRulesRunEveryRule(p: AuditParams, w: AuditWorld)
    requires Truthy(p.featureId) && w.feature.Some? && w.validity.Some? && w.envelope.Some?
    requires p.rules == Arr([])
    ensures RunAuditAgent(p, w).Ok?
    ensures var rs := RunAuditAgent(p, w).value.results;
      |rs| == 3 && rs[0].rule == "valid_geometry" && rs[1].rule == "required_properties" && rs[2].rule == "coordinate_bounds"
  {
    var rs := RunAuditAgent(p, w).value.results;
    assert rs == GeometryResults(p, w) + PropertyResults(p, w.feature.value) + BoundsResults(p, w);
  }

  /**
    Parameters holding only a feature id take the defaults: every rule,
    no auto-correct, no required fields, and the whole-world bounds.
   */
  lemma {:induction false} FeatureIdOnlyTakesDefaults(featureId: Value)
    requires Truthy(featureId)
    ensures AuditParamsOf(map["feature_id" := featureId]) ==
      Ok(Some(AuditParams(featureId, Arr([]), Bool(false), [], DefaultBounds)))
  {
    var params := map["feature_id" := featureId];
    assert Get(params, "required_fields", Arr([])) == Arr(StrItems([]));
    assert Get(params, "bounds", BoxValue(DefaultBounds)) == BoxValue(DefaultBounds);
  }

  // ---------------------------------------------------------------------
  // The agent task lifecycle

  datatype AgentOutput = Queried(query: Value) | Conversion(conversion: Value) | Audited(report: AuditReport)

  type AgentTasks = Tasks.Store<map<string, Value>, AgentOutput>

  /**
    The outside world of one agent run: the spatial-query agent's outcome,
    the database-backed conversions, the audit queries, and the audit
    outcome when required_fields or bounds have a shape `AuditParamsOf`
    does not read.
   */
  datatype AgentWorld = AgentWorld(
    spatialQuery: Result<Value, string>,
    dbConversion: Result<Value, string>,
    audit: AuditWorld,
    unreadAudit: Result<AuditReport, string>)

  /**
    Start an agent run: an unknown agent id raises before anything is
    written; otherwise a pending task of type "AI_<agent id>" is recorded
    with the parameters, and its id returned.
   */
  function RunAgent(s: AgentTasks, agentId: string, params: map<string, Value>, userId: Option<nat>, now: int)
    : (r: Result<(AgentTasks, nat), string>)
    ensures agentId !in AgentIds <==> r.Err?
    ensures r.Err? ==> r.error == "Unknown agent ID: " + agentId
    ensures r.Ok? ==>
      var (t, id) := r.value;
      && id in t.tasks && (Tasks.Valid(s) ==> Tasks.Valid(t) && id !in s.tasks)
      && t.tasks[id].status == Tasks.Pending && t.tasks[id].taskType == "AI_" + agentId
      && t.tasks[id].parameters == params && t.registry == s.registry
  {
    if agentId !in AgentIds then Err("Unknown agent ID: " + agentId)
    else Ok(Tasks.Create(s, "AI_" + agentId, params, userId, now))
  }

  /**
    The body of a run: dispatch on the agent id. The audit agent reads its
    parameters from the task's, so a task without a truthy feature_id fails
    with the source's message before any query.
   */
  function RunAgentBody(agentId: string, params: map<string, Value>, w: AgentWorld): (r: Result<AgentOutput, string>)
    ensures agentId !in AgentIds ==> r == Err("Unknown agent ID: " + agentId)
    ensures agentId == "spatial_query_agent" ==> (r.Ok? <==> w.spatialQuery.Ok?)
    ensures agentId == "data_convert_agent" ==>
      match RunDataConvertAgent(params, w.dbConversion)
      case Ok(v) => r == Ok(Conversion(v))
      case Err(e) => r == Err(e)
    ensures agentId == "audit_agent" && !Truthy(Get(params, "feature_id", Null)) ==> r == Err("feature_id is required")
    ensures agentId == "audit_agent" && AuditParamsOf(params).Ok? && AuditParamsOf(params).value.Some? ==>
      match RunAuditAgent(AuditParamsOf(params).value.value, w.audit)
      case Ok(report) => r == Ok(Audited(report))
      case Err(e) => r == Err(e)
  {
    if agentId == "spatial_query_agent" then
      var v :- w.spatialQuery; Ok(Queried(v))
    else if agentId == "data_convert_agent" then
      var v :- RunDataConvertAgent(params, w.dbConversion); Ok(Conversion(v))
    else if agentId == "audit_agent" then
      var decoded :- AuditParamsOf(params);
      var report :- if decoded.Some? then RunAuditAgent(decoded.value, w.audit) else w.unreadAudit;
      Ok(Audited(report))
    else Err("Unknown agent ID: " + agentId)
  }

  /**
    The background executor for task `id`: running and registered; then
    completed with the agent's output, or failed with the error text; in
    both cases the registry entry goes.
   */
  function ExecuteAgentTask(s: AgentTasks, id: nat, agentId: string, params: map<string, Value>, w: AgentWorld, now: int)
    : (r: AgentTasks)
    ensures id !in s.tasks ==> r == s
    ensures Tasks.Valid(s) ==> Tasks.Valid(r)
    ensures Tasks.OthersUnchanged(s, r, id) && r.tasks.Keys == s.tasks.Keys
    ensures id in s.tasks ==>
      && id !in r.registry
      && r.tasks[id].startedAt == Some(now) && r.tasks[id].completedAt == Some(now)
      && match RunAgentBody(agentId, params, w)
         case Ok(out) => r.tasks[id].status == Tasks.Completed && r.tasks[id].result == Some(out)
         case Err(e) => r.tasks[id].status == Tasks.Failed && r.tasks[id].errorMessage == Some(e)
  {
    if id !in s.tasks then s
    else
      var started := Tasks.Start(s, id, now);
      match RunAgentBody(agentId, params, w)
      case Ok(out) => Tasks.Retire(Tasks.Succeed(started, id, out, now), id)
      case Err(e) => Tasks.Fail(started, id, e, now)
  }

  /** An audit task whose parameters carry no feature_id ends failed with "feature_id is required". */
  lemma {:induction false} AuditWithoutFeatureIdFails(s: AgentTasks, id: nat, params: map<string, Value>, w: AgentWorld, now: int)
    requires id in s.tasks && "feature_id" !in params
    ensures var u := ExecuteAgentTask(s, id, "audit_agent", params, w, now);
      u.tasks[id].status == Tasks.Failed && u.tasks[id].errorMessage == Some("feature_id is required")
  {
    assert RunAgentBody("audit_agent", params, w) == Err("feature_id is required");
  }

  /** A task recorded for an agent id and then executed ends completed or failed, and is not registered. */
  lemma {:induction false} RunThenExecute(s: AgentTasks, agentId: string, params: map<string, Value>, userId: Option<nat>, w: AgentWorld, t0: int, t1: int)
    requires Tasks.Valid(s) && agentId in AgentIds
    ensures var (t, id) := RunAgent(s, agentId, params, userId, t0).value;
      var u := ExecuteAgentTask(t, id, agentId, params, w, t1);
      && u.tasks[id].status in {Tasks.Completed, Tasks.Failed}
      && id !in u.registry && Tasks.Valid(u)
  {
  }
}
