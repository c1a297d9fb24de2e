/**
  The correction validators of the audit agent: a correction of a
  feature's geometry, of its properties, or of anything else, is judged
  valid or not with a reason.

  Each validator receives the original and corrected feature as decoded
  JSON. Any exception inside the geometry and properties validators is
  caught and turned into an invalid verdict; the model writes that case
  as `ValidationError`. Distances are compared squared: the source takes
  a square root and compares it with 1.0, which is the same test.
 */
module Corrections {
  import opened Wrappers
  import opened Json

  datatype Reason =
    | TypeChanged(from: Value, to: Value)
    | MovedTooFar(squaredDistance: int)
    | GeometryValid
    | PropertyRemoved(name: string)
    | PropertyChanged(name: string, before: Value, after: Value)
    | PropertiesValid
    | NoChange
    | CorrectionValid
    | ValidationError

  /** The `(valid, reason)` pair a validator returns. */
  datatype Verdict = Verdict(valid: bool, reason: Reason)

  /**
    The reason as the source words it. The distance of `MovedTooFar` is a
    floating-point square root and the text of a caught exception is
    Python's, so neither has a rendering here.
   */
  function ReasonText(reason: Reason): (r: Option<string>)
    ensures r.None? <==> reason.MovedTooFar? || reason.ValidationError?
  {
    match reason
    case TypeChanged(a, b) => Some("Geometry type changed from " + PyStr(a) + " to " + PyStr(b))
    case GeometryValid => Some("Geometry correction appears valid")
    case PropertyRemoved(p) => Some("Required property '" + p + "' was removed")
    case PropertyChanged(p, a, b) => Some("Required property '" + p + "' was changed from '" + PyStr(a) + "' to '" + PyStr(b) + "'")
    case PropertiesValid => Some("Properties correction appears valid")
    case NoChange => Some("No change detected between original and corrected values")
    case CorrectionValid => Some("Correction appears valid")
    case _ => None
  }

  const Invalid := Verdict(false, ValidationError)

  // ---------------------------------------------------------------------
  // Geometry corrections

  /** `coords[i]` as a number for the subtraction; `None` where indexing or subtracting raises. */
  function CoordinateAt(coords: Value, i: nat): (r: Option<int>)
    ensures r.Some? ==> coords.Arr? && i < |coords.items| && AsNumber(coords.items[i]) == r
  {
    match coords
    case Arr(xs) => if i < |xs| then AsNumber(xs[i]) else None
    case _ => None
  }

  /** The squared distance between two positions, or `None` where the source raises. */
  function SquaredMove(before: Value, after: Value): (r: Option<int>)
    ensures r.Some? ==> r.value >= 0
  {
    match (CoordinateAt(before, 0), CoordinateAt(after, 0), CoordinateAt(before, 1), CoordinateAt(after, 1))
    case (Some(x0), Some(x1), Some(y0), Some(y1)) =>
      var dx := x0 - x1;
      var dy := y0 - y1;
      Some(dx * dx + dy * dy)
    case _ => None
  }

  /** The geometry of a feature, `{}` when absent; `None` where `.get` raises. */
  function GeometryOf(feature: Value): (r: Option<map<string, Value>>)
    ensures r.Some? <==> feature.Obj? && Get(feature.fields, "geometry", Obj(map[])).Obj?
  {
    if !feature.Obj? then None
    else
      var g := Get(feature.fields, "geometry", Obj(map[]));
      if g.Obj? then Some(g.fields) else None
  }

  /** `_validate_geometry_correction`. */
  function GeometryCheck(original: Value, corrected: Value): (r: Verdict)
    ensures r.valid ==> GeometryOf(original).Some? && GeometryOf(corrected).Some?
    ensures r.valid ==> r.reason == GeometryValid
  {
    match (GeometryOf(original), GeometryOf(corrected))
    case (Some(og), Some(cg)) =>
      var ot := Get(og, "type", Str(""));
      var ct := Get(cg, "type", Str(""));
      if !PyEq(ot, ct) then Verdict(false, TypeChanged(ot, ct))
      else if ot == Str("Point") && ct == Str("Point") then
        var oc := Get(og, "coordinates", Arr([Int(0), Int(0)]));
        var cc := Get(cg, "coordinates", Arr([Int(0), Int(0)]));
        match SquaredMove(oc, cc)
        case None => Invalid
        case Some(d) =>
          if d > 1 then Verdict(false, MovedTooFar(d)) else Verdict(true, GeometryValid)
      else Verdict(true, GeometryValid)
    case _ => Invalid
  }

  /** The type a geometry declares, `""` when absent. */
  function TypeOf(g: map<string, Value>): (t: Value) {
    Get(g, "type", Str(""))
  }

  /** A geometry whose type differs between original and corrected is never accepted. */
  lemma {:induction false} TypeChangeIsInvalid(original: Value, corrected: Value)
    requires GeometryOf(original).Some? && GeometryOf(corrected).Some?
    requires !PyEq(TypeOf(GeometryOf(original).value), TypeOf(GeometryOf(corrected).value))
    ensures !GeometryCheck(original, corrected).valid
    ensures GeometryCheck(original, corrected).reason
      == TypeChanged(TypeOf(GeometryOf(original).value), TypeOf(GeometryOf(corrected).value))
  {
  }

  /** A feature whose geometry is the Point `[x, y]`. */
  function PointFeature(x: int, y: int): (f: Value)
    ensures GeometryOf(f).Some? && TypeOf(GeometryOf(f).value) == Str("Point")
  {
    Obj(map["geometry" := Obj(map["type" := Str("Point"), "coordinates" := Arr([Int(x), Int(y)])])])
  }

  /** A Point correction is accepted iff it moves the point by at most 1 (squared distance at most 1). */
  lemma {:induction false} PointMoveRule(x0: int, y0: int, x1: int, y1: int)
    ensures var r := GeometryCheck(PointFeature(x0, y0), PointFeature(x1, y1));
      && (r.valid <==> (x0 - x1) * (x0 - x1) + (y0 - y1) * (y0 - y1) <= 1)
      && (!r.valid ==> r.reason == MovedTooFar((x0 - x1) * (x0 - x1) + (y0 - y1) * (y0 - y1)))
  {
    var og := GeometryOf(PointFeature(x0, y0)).value;
    var cg := GeometryOf(PointFeature(x1, y1)).value;
    assert Get(og, "coordinates", Arr([Int(0), Int(0)])) == Arr([Int(x0), Int(y0)]);
    assert Get(cg, "coordinates", Arr([Int(0), Int(0)])) == Arr([Int(x1), Int(y1)]);
    assert SquaredMove(Arr([Int(x0), Int(y0)]), Arr([Int(x1), Int(y1)]))
        == Some((x0 - x1) * (x0 - x1) + (y0 - y1) * (y0 - y1));
  }

  /** A geometry of the same non-Point type is accepted whatever its coordinates. */
  lemma {:induction false} SameTypeNonPointIsValid(original: Value, corrected: Value)
    requires GeometryOf(original).Some? && GeometryOf(corrected).Some?
    requires TypeOf(GeometryOf(original).value) == TypeOf(GeometryOf(corrected).value) != Str("Point")
    ensures GeometryCheck(original, corrected) == Verdict(true, GeometryValid)
  {
    PyEqReflexive(TypeOf(GeometryOf(original).value));
  }

  // ---------------------------------------------------------------------
  // Properties corrections

  /** The properties whose removal or change makes a correction invalid, in the order they are checked. */
  const RequiredProperties: seq<string> := ["id", "name", "feature_type"]

  /** `props[key]` after `key in props` held; `None` where the subscript raises. */
  function Index(props: Value, key: string): (r: Option<Value>)
    requires Contains(props, key) == Some(true)
    ensures r.Some? <==> props.Obj?
  {
    match props
    case Obj(m) => Some(m[key])
    case _ => None
  }

  /** The loop over the required properties: the first one removed or changed decides. */
  function CheckRequired(op: Value, cp: Value, names: seq<string>): (r: Verdict)
    ensures r.valid ==> r.reason == PropertiesValid
    decreases |names|
  {
    if names == [] then Verdict(true, PropertiesValid)
    else
      var p := names[0];
      match Contains(op, p)
      case None => Invalid
      case Some(false) => CheckRequired(op, cp, names[1..])
      case Some(true) =>
        match Contains(cp, p)
        case None => Invalid
        case Some(false) => Verdict(false, PropertyRemoved(p))
        case Some(true) =>
          match (Index(op, p), Index(cp, p))
          case (Some(a), Some(b)) =>
            if !PyEq(a, b) then Verdict(false, PropertyChanged(p, a, b))
            else CheckRequired(op, cp, names[1..])
          case _ => Invalid
  }

  /** The properties of a feature, `{}` when absent; `None` where `.get` raises. */
  function PropertiesOf(feature: Value): (r: Option<Value>)
    ensures r.Some? <==> feature.Obj?
  {
    if feature.Obj? then Some(Get(feature.fields, "properties", Obj(map[]))) else None
  }

  /** `_validate_properties_correction`. */
  function PropertiesCheck(original: Value, corrected: Value): (r: Verdict)
    ensures r.valid ==> original.Obj? && corrected.Obj? && r.reason == PropertiesValid
  {
    match (PropertiesOf(original), PropertiesOf(corrected))
    case (Some(op), Some(cp)) => CheckRequired(op, cp, RequiredProperties)
    case _ => Invalid
  }

  /** A required property of the original that the correction keeps with an equal value. */
  predicate Kept(m: map<string, Value>, n: map<string, Value>, p: string) {
    p in m ==> p in n && PyEq(m[p], n[p])
  }

  /**
    Between two dicts, the check passes iff every listed property present
    in the original is present in the correction with an equal value.
   */
  lemma {:induction false} CheckRequiredRule(m: map<string, Value>, n: map<string, Value>, names: seq<string>)
    ensures CheckRequired(Obj(m), Obj(n), names).valid <==> forall i :: 0 <= i < |names| ==> Kept(m, n, names[i])
    decreases |names|
  {
    if names != [] {
      CheckRequiredRule(m, n, names[1..]);
      assert forall i :: 1 <= i < |names| ==> names[i] == names[1..][i - 1];
    }
  }

  /** Over dict properties, a correction is invalid iff it removes or changes id, name or feature_type. */
  lemma {:induction false} PropertiesRule(m: map<string, Value>, n: map<string, Value>)
    ensures PropertiesCheck(Obj(map["properties" := Obj(m)]), Obj(map["properties" := Obj(n)])).valid
      <==> Kept(m, n, "id") && Kept(m, n, "name") && Kept(m, n, "feature_type")
  {
    CheckRequiredRule(m, n, RequiredProperties);
    assert forall i :: 0 <= i < 3 ==> RequiredProperties[i] in {"id", "name", "feature_type"};
  }

  /** The part of a dict the properties check reads. */
  function RequiredPart(m: map<string, Value>): (r: map<string, Value>)
    ensures forall p :: p in RequiredProperties ==> (p in r <==> p in m) && (p in m ==> r[p] == m[p])
    ensures forall p :: p in r ==> p in RequiredProperties
  {
    map p | p in m && p in RequiredProperties :: m[p]
  }

  /** Keys other than id, name and feature_type never change the verdict. */
  lemma {:induction false} OtherKeysIgnored(m: map<string, Value>, n: map<string, Value>, names: seq<string>)
    requires forall i :: 0 <= i < |names| ==> names[i] in RequiredProperties
    ensures CheckRequired(Obj(m), Obj(n), names) == CheckRequired(Obj(RequiredPart(m)), Obj(RequiredPart(n)), names)
    decreases |names|
  {
    if names != [] {
      OtherKeysIgnored(m, n, names[1..]);
    }
  }

  // ---------------------------------------------------------------------
  // Generic corrections and the dispatch

  /** `_validate_generic_correction`: a correction is accepted iff it changes something. */
  function GenericCheck(original: Value, corrected: Value): (r: Verdict)
    ensures r.valid ==> r.reason == CorrectionValid
    ensures !r.valid ==> r.reason == NoChange
  {
    if PyEq(original, corrected) then Verdict(false, NoChange) else Verdict(true, CorrectionValid)
  }

  /** Resubmitting the original value as its own correction is always rejected. */
  lemma {:induction false} UnchangedIsRejected(v: Value)
    ensures GenericCheck(v, v) == Verdict(false, NoChange)
  {
    PyEqReflexive(v);
  }

  datatype Validation = Validation(
    status: string,
    valid: bool,
    reason: Reason,
    featureId: string,
    correctionType: string)

  /** `validate_correction`: dispatches on the correction type and echoes the feature and type. */
  function ValidateCorrection(featureId: string, correctionType: string, original: Value, corrected: Value): (r: Validation)
    ensures r.status == "success" && r.featureId == featureId && r.correctionType == correctionType
    ensures correctionType == "geometry" ==> (r.valid, r.reason) == (GeometryCheck(original, corrected).valid, GeometryCheck(original, corrected).reason)
    ensures correctionType == "properties" ==> (r.valid, r.reason) == (PropertiesCheck(original, corrected).valid, PropertiesCheck(original, corrected).reason)
    ensures correctionType != "geometry" && correctionType != "properties" ==> (r.valid <==> !PyEq(original, corrected))
  {
    var v :=
      if correctionType == "geometry" then GeometryCheck(original, corrected)
      else if correctionType == "properties" then PropertiesCheck(original, corrected)
      else GenericCheck(original, corrected);
    Validation("success", v.valid, v.reason, featureId, correctionType)
  }
}
