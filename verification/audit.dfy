/**
  The audit-log service: validating and recording an audit entry, logging
  an API request, and the change history of a feature, whose per-entry
  change list is a diff of the before and after states.

  The database is a sequence of log rows in insertion order, and the
  history reads a feature's rows in that order (the query's ordering by
  timestamp, newest first, is not modelled); the username and feature-id
  lookups are maps from the looked-up text to the row id. Python's
  iteration order of a `set` of property names is not specified, so it is
  a parameter `keyOrder` that lists a set's elements.
 */
module Audit {
  import opened Wrappers
  import opened Json
  import Text

  datatype AuditLog = AuditLog(
    id: nat,
    action: Value,
    entityType: Value,
    entityId: Value,
    beforeState: Value,
    afterState: Value,
    userId: Value,
    featureId: Value,
    ipAddress: Option<string>,
    timestamp: int)

  const RequiredMessage := "action, entity_type, and entity_id are required"

  // ---------------------------------------------------------------------
  // Creating a log entry

  /** Python's `str.isdigit()` restricted to ASCII digits. */
  predicate IsDigitString(s: string) {
    s != [] && forall i :: 0 <= i < |s| ==> Text.IsDigit(s[i])
  }

  /**
    A user or feature reference as the entry stores it: a text that is not
    all digits is looked up by name and replaced by the row id it names, or
    by `None` when nothing matches; anything else is kept as given.
   */
  function Resolve(v: Value, lookup: map<string, nat>): (r: Value)
    ensures !v.Str? || IsDigitString(v.s) ==> r == v
    ensures v.Str? && !IsDigitString(v.s) ==> (r.Null? || r.Int?) && (r.Int? <==> v.s in lookup)
    ensures r.Int? && !v.Int? ==> v.Str? && v.s in lookup && r.i == lookup[v.s]
  {
    match v
    case Str(s) =>
      if IsDigitString(s) then v
      else if s in lookup then Int(lookup[s])
      else Null
    case _ => v
  }

  /**
    A value written to one of the table's integer columns (entity_id,
    user_id, feature_id): `None` and integers are stored as they are; the
    database reads a string as integer text (surrounding blanks and a sign
    allowed) and rejects any other; booleans, lists and dicts are rejected.
   */
  function IntColumn(v: Value): (r: Result<Value, string>)
    ensures r.Ok? ==> r.value.Null? || r.value.Int?
    ensures v.Null? || v.Int? ==> r == Ok(v)
    ensures v.Str? ==> (r.Ok? <==> Text.ParseInt(Text.Strip(v.s)).Some?)
    ensures v.Str? && r.Ok? ==> r.value == Int(Text.ParseInt(Text.Strip(v.s)).value)
    ensures v.Bool? || v.Arr? || v.Obj? ==> r.Err?
  {
    match v
    case Null => Ok(v)
    case Int(_) => Ok(v)
    case Str(s) =>
      (match Text.ParseInt(Text.Strip(s))
       case Some(n) => Ok(Int(n))
       case None => Err("invalid input syntax for type integer: \"" + s + "\""))
    case _ => Err("column is of type integer but expression is of type " + TypeName(v))
  }

  /** A reference that is `None` or a string always resolves to a value the integer column accepts. */
  lemma {:induction false} ResolvedTextStored(v: Value, lookup: map<string, nat>)
    requires v.Null? || v.Str?
    ensures IntColumn(Resolve(v, lookup)).Ok?
  {
    if v.Str? && IsDigitString(v.s) {
      var a := v.s;
      assert !Text.IsSpace(a[0]) && !Text.IsSpace(a[|a| - 1]);
      Text.StripUnpadded(a);
      Text.ParseNatDigits(a);
    }
  }

  /** A digit string names the number it spells, both as a reference and as a stored column value. */
  lemma {:induction false} DigitTextStoredAsNumber(n: nat, lookup: map<string, nat>)
    ensures Resolve(Str(Text.ShowNat(n)), lookup) == Str(Text.ShowNat(n))
    ensures IntColumn(Str(Text.ShowNat(n))) == Ok(Int(n))
  {
    var a := Text.ShowNat(n);
    assert IsDigitString(a);
    assert !Text.IsSpace(a[0]) && !Text.IsSpace(a[|a| - 1]);
    Text.StripUnpadded(a);
    Text.ParseShowInt(n);
    assert Text.ShowInt(n) == a;
  }

  /**
    The three integer columns of a new entry, in column order: the entity
    id as given, and the user and feature references once resolved; the
    first value the database rejects makes the insert fail.
   */
  function Columns(data: map<string, Value>, users: map<string, nat>, features: map<string, nat>)
    : (r: Result<(Value, Value, Value), string>)
    ensures r.Ok? <==>
      && IntColumn(Get(data, "entity_id", Null)).Ok?
      && IntColumn(Resolve(Get(data, "user_id", Null), users)).Ok?
      && IntColumn(Resolve(Get(data, "feature_id", Null), features)).Ok?
    ensures r.Ok? ==> r.value == (
      IntColumn(Get(data, "entity_id", Null)).value,
      IntColumn(Resolve(Get(data, "user_id", Null), users)).value,
      IntColumn(Resolve(Get(data, "feature_id", Null), features)).value)
    ensures IntColumn(Get(data, "entity_id", Null)).Err? ==> r == Err(IntColumn(Get(data, "entity_id", Null)).error)
  {
    var e :- IntColumn(Get(data, "entity_id", Null));
    var u :- IntColumn(Resolve(Get(data, "user_id", Null), users));
    var f :- IntColumn(Resolve(Get(data, "feature_id", Null), features));
    Ok((e, u, f))
  }

  /** The largest id in the table, 0 for an empty one. */
  function MaxId(store: seq<AuditLog>): (m: nat)
    ensures forall i :: 0 <= i < |store| ==> store[i].id <= m
    decreases |store|
  {
    if store == [] then 0
    else
      var rest := MaxId(store[1..]);
      assert forall i :: 1 <= i < |store| ==> store[i] == store[1..][i - 1];
      if store[0].id > rest then store[0].id else rest
  }

  /** Whether the validation of `create_audit_log` admits a request. */
  predicate HasRequiredFields(data: map<string, Value>) {
    && Truthy(Get(data, "action", Null))
    && Truthy(Get(data, "entity_type", Null))
    && Truthy(Get(data, "entity_id", Null))
  }

  /**
    `create_audit_log`: rejects the request unless action, entity_type and
    entity_id are all present and truthy; the insert fails when an integer
    column rejects its value; otherwise appends one entry that carries the
    request's fields, as the columns store them, and a fresh id, and
    returns that id.
   */
  function CreateAuditLog(
    store: seq<AuditLog>, data: map<string, Value>,
    users: map<string, nat>, features: map<string, nat>, ip: Option<string>, now: int)
    : (r: Result<(seq<AuditLog>, nat), string>)
    ensures !HasRequiredFields(data) ==> r == Err(RequiredMessage)
    ensures HasRequiredFields(data) ==> (r.Ok? <==> Columns(data, users, features).Ok?)
    ensures HasRequiredFields(data) && Columns(data, users, features).Err? ==> r == Err(Columns(data, users, features).error)
    ensures r.Ok? ==>
      var (store', id) := r.value;
      && |store'| == |store| + 1 && store'[..|store|] == store
      && (forall i :: 0 <= i < |store| ==> store[i].id < id)
      && var e := store'[|store|];
      && e.id == id
      && e.action == data["action"] && e.entityType == data["entity_type"]
      && e.entityId == IntColumn(data["entity_id"]).value
      && e.beforeState == Get(data, "before_state", Null) && e.afterState == Get(data, "after_state", Null)
      && e.userId == IntColumn(Resolve(Get(data, "user_id", Null), users)).value
      && e.featureId == IntColumn(Resolve(Get(data, "feature_id", Null), features)).value
      && e.ipAddress == ip && e.timestamp == now
  {
    if !HasRequiredFields(data) then Err(RequiredMessage)
    else Insert(store, data, users, features, ip, now)
  }

  /** The insert of a validated request: the columns as stored, a fresh id, appended. */
  function Insert(
    store: seq<AuditLog>, data: map<string, Value>,
    users: map<string, nat>, features: map<string, nat>, ip: Option<string>, now: int)
    : (r: Result<(seq<AuditLog>, nat), string>)
    requires "action" in data && "entity_type" in data
  {
    var (entityId, userId, featureId) :- Columns(data, users, features);
    var id := MaxId(store) + 1;
    var entry := AuditLog(
      id, data["action"], data["entity_type"], entityId,
      Get(data, "before_state", Null), Get(data, "after_state", Null), userId, featureId, ip, now);
    Ok((store + [entry], id))
  }

  /** A feature referenced by its row id written as digits is stored under that id. */
  lemma {:induction false} DigitFeatureReferenceStored(
    store: seq<AuditLog>, data: map<string, Value>,
    users: map<string, nat>, features: map<string, nat>, ip: Option<string>, now: int, n: nat)
    requires "feature_id" in data && data["feature_id"] == Str(Text.ShowNat(n))
    requires CreateAuditLog(store, data, users, features, ip, now).Ok?
    ensures var store' := CreateAuditLog(store, data, users, features, ip, now).value.0;
      store'[|store|].featureId == Int(n) && store'[|store|] in RowsOf(store', n)
  {
    DigitTextStoredAsNumber(n, features);
    var store' := CreateAuditLog(store, data, users, features, ip, now).value.0;
    assert store'[|store|] in store';
  }

  /** The request data `log_api_request` builds, with entity id 0 as a placeholder. */
  function ApiRequestData(verb: string, url: string, headers: map<string, string>, userId: Option<string>, action: string, clientHost: Option<string>)
    : (data: map<string, Value>)
    ensures "entity_type" in data && "entity_id" in data && "action" in data
    ensures data["entity_type"] == Str("api") && data["entity_id"] == Int(0) && data["action"] == Str(action)
    ensures "before_state" in data && "user_id" in data && "after_state" in data
    ensures data["before_state"] == Null && data["user_id"] == (match userId case Some(u) => Str(u) case None => Null)
    ensures data["after_state"].Obj? && data["after_state"].fields.Keys == {"method", "url", "headers"}
  {
    map[
      "action" := Str(action),
      "entity_type" := Str("api"),
      "entity_id" := Int(0),
      "user_id" := (match userId case Some(u) => Str(u) case None => Null),
      "before_state" := Null,
      "after_state" := Obj(map[
        "method" := Str(verb),
        "url" := Str(url),
        "headers" := Obj(map k | k in headers :: Str(headers[k]))]),
      "ip_address" := match clientHost case Some(h) => Str(h) case None => Null]
  }

  /**
    `log_api_request`: builds the request data and creates the entry with
    no request object; any error is logged and swallowed, so the table is
    then left as it was.
   */
  function LogApiRequest(
    store: seq<AuditLog>, verb: string, url: string, headers: map<string, string>, userId: Option<string>,
    action: string, clientHost: Option<string>, users: map<string, nat>, features: map<string, nat>, now: int)
    : (store': seq<AuditLog>)
    ensures |store| <= |store'| <= |store| + 1 && store'[..|store|] == store
  {
    match CreateAuditLog(store, ApiRequestData(verb, url, headers, userId, action, clientHost), users, features, None, now)
    case Ok((s, _)) => s
    case Err(_) => store
  }

  /** As written, an API request is never recorded: the placeholder entity id 0 is falsy. */
  lemma {:induction false} ApiRequestsAreNeverLogged(
    store: seq<AuditLog>, verb: string, url: string, headers: map<string, string>, userId: Option<string>,
    action: string, clientHost: Option<string>, users: map<string, nat>, features: map<string, nat>, now: int)
    ensures LogApiRequest(store, verb, url, headers, userId, action, clientHost, users, features, now) == store
  {
    var data := ApiRequestData(verb, url, headers, userId, action, clientHost);
    assert !Truthy(data["entity_id"]);
    assert !HasRequiredFields(data);
  }

  /** The validation `create_audit_log` evidently intends: entity_id must be present, and 0 is an id. */
  predicate HasRequiredFieldsCorrected(data: map<string, Value>) {
    && Truthy(Get(data, "action", Null))
    && Truthy(Get(data, "entity_type", Null))
    && Get(data, "entity_id", Null) != Null
  }

  /** `create_audit_log` with the corrected validation; otherwise identical. */
  function CreateAuditLogCorrected(
    store: seq<AuditLog>, data: map<string, Value>,
    users: map<string, nat>, features: map<string, nat>, ip: Option<string>, now: int)
    : (r: Result<(seq<AuditLog>, nat), string>)
    ensures !HasRequiredFieldsCorrected(data) ==> r == Err(RequiredMessage)
    ensures HasRequiredFieldsCorrected(data) ==> (r.Ok? <==> Columns(data, users, features).Ok?)
    ensures HasRequiredFields(data) ==> r == CreateAuditLog(store, data, users, features, ip, now)
  {
    if !HasRequiredFieldsCorrected(data) then Err(RequiredMessage)
    else Insert(store, data, users, features, ip, now)
  }

  /** `log_api_request` over the corrected validation. */
  function LogApiRequestCorrected(
    store: seq<AuditLog>, verb: string, url: string, headers: map<string, string>, userId: Option<string>,
    action: string, clientHost: Option<string>, users: map<string, nat>, features: map<string, nat>, now: int)
    : (store': seq<AuditLog>)
    ensures |store| <= |store'| <= |store| + 1 && store'[..|store|] == store
  {
    match CreateAuditLogCorrected(store, ApiRequestData(verb, url, headers, userId, action, clientHost), users, features, None, now)
    case Ok((s, _)) => s
    case Err(_) => store
  }

  /**
    With the corrected validation every API request with a non-empty action
    is recorded, as an `api` entry with entity id 0 whose after state holds
    the method, URL and headers.
   */
  lemma {:induction false} ApiRequestsAreLoggedCorrected(
    store: seq<AuditLog>, verb: string, url: string, headers: map<string, string>, userId: Option<string>,
    action: string, clientHost: Option<string>, users: map<string, nat>, features: map<string, nat>, now: int)
    requires action != ""
    ensures var store' := LogApiRequestCorrected(store, verb, url, headers, userId, action, clientHost, users, features, now);
      && |store'| == |store| + 1 && store'[..|store|] == store
      && store'[|store|].action == Str(action)
      && store'[|store|].entityType == Str("api") && store'[|store|].entityId == Int(0)
      && store'[|store|].beforeState == Null
      && store'[|store|].afterState.Obj? && store'[|store|].afterState.fields["url"] == Str(url)
  {
    var data := ApiRequestData(verb, url, headers, userId, action, clientHost);
    assert HasRequiredFieldsCorrected(data);
    ResolvedTextStored(data["user_id"], users);
    assert Get(data, "feature_id", Null) == Null;
  }

  // ---------------------------------------------------------------------
  // The before/after diff

  datatype Change =
    | Added(property: string, value: Value)
    | Removed(property: string, value: Value)
    | Modified(property: string, before: Value, after: Value)
    | GeometryModified

  /** The change one property name contributes; `None` when its value is unchanged. */
  function PropertyChange(before: map<string, Value>, after: map<string, Value>, key: string): (r: Option<Change>)
    ensures r.Some? ==> !r.value.GeometryModified? && r.value.property == key
  {
    if key !in before then Some(Added(key, Get(after, key, Null)))
    else if key !in after then Some(Removed(key, before[key]))
    else if !PyEq(before[key], after[key]) then Some(Modified(key, before[key], after[key]))
    else None
  }

  /** An optional change as a list of zero or one. */
  function Listed(c: Option<Change>): (r: seq<Change>)
    ensures |r| <= 1 && (r == [] <==> c.None?)
  {
    match c
    case Some(x) => [x]
    case None => []
  }

  /** The property changes, one name at a time in the iteration order `order`. */
  function PropertyChanges(before: map<string, Value>, after: map<string, Value>, order: seq<string>): (r: seq<Change>)
    ensures |r| <= |order|
    ensures forall i :: 0 <= i < |r| ==> !r[i].GeometryModified? && r[i].property in order
    decreases |order|
  {
    if order == [] then []
    else
      var here := Listed(PropertyChange(before, after, order[0]));
      here + PropertyChanges(before, after, order[1..])
  }

  /** The changes recorded for one property name. */
  function ChangesFor(cs: seq<Change>, key: string): (r: seq<Change>)
    ensures |r| <= |cs|
    decreases |cs|
  {
    if cs == [] then []
    else (if !cs[0].GeometryModified? && cs[0].property == key then [cs[0]] else []) + ChangesFor(cs[1..], key)
  }

  lemma {:induction false} ChangesForAppend(a: seq<Change>, b: seq<Change>, key: string)
    ensures ChangesFor(a + b, key) == ChangesFor(a, key) + ChangesFor(b, key)
    decreases |a|
  {
    if a == [] {
      assert a + b == b;
    } else {
      assert (a + b)[1..] == a[1..] + b;
      ChangesForAppend(a[1..], b, key);
    }
  }

  lemma {:induction false} ChangesForAbsent(cs: seq<Change>, key: string)
    requires forall i :: 0 <= i < |cs| ==> cs[i].GeometryModified? || cs[i].property != key
    ensures ChangesFor(cs, key) == []
    decreases |cs|
  {
    if cs != [] {
      ChangesForAbsent(cs[1..], key);
    }
  }

  /** A list with no repeated element, as a `set` iterates. */
  predicate Distinct(order: seq<string>) {
    forall i, j :: 0 <= i < j < |order| ==> order[i] != order[j]
  }

  /** Each name of a repetition-free order yields exactly its own change, and a name outside it none. */
  lemma {:induction false} ChangesPerKey(before: map<string, Value>, after: map<string, Value>, order: seq<string>, key: string)
    requires Distinct(order)
    ensures key in order ==> ChangesFor(PropertyChanges(before, after, order), key) == Listed(PropertyChange(before, after, key))
    ensures key !in order ==> ChangesFor(PropertyChanges(before, after, order), key) == []
    decreases |order|
  {
    if order != [] {
      var c := PropertyChange(before, after, order[0]);
      var rest := PropertyChanges(before, after, order[1..]);
      assert PropertyChanges(before, after, order) == Listed(c) + rest;
      ChangesForAppend(Listed(c), rest, key);
      DistinctTail(order);
      ChangesPerKey(before, after, order[1..], key);
      if order[0] == key {
        ChangesForListed(c, key);
      } else {
        ChangesForAbsent(Listed(c), key);
      }
    }
  }

  lemma {:induction false} DistinctTail(order: seq<string>)
    requires order != [] && Distinct(order)
    ensures Distinct(order[1..]) && order[0] !in order[1..]
    ensures forall x :: x in order <==> x == order[0] || x in order[1..]
  {
    assert order == [order[0]] + order[1..];
  }

  /** A change of the given name is kept whole. */
  lemma {:induction false} ChangesForListed(c: Option<Change>, key: string)
    requires c.Some? ==> !c.value.GeometryModified? && c.value.property == key
    ensures ChangesFor(Listed(c), key) == Listed(c)
  {
    if c.Some? {
      assert Listed(c)[1..] == [];
    }
  }

  /** `order` lists the set `keys` once each. */
  predicate Enumerates(order: seq<string>, keys: set<string>) {
    && Distinct(order)
    && (forall k :: k in order ==> k in keys)
    && (forall k :: k in keys ==> k in order)
  }

  /**
    Over an iteration of the union of the property names, a name only in
    `after` is reported added, one only in `before` removed, one in both
    with unequal values modified with both values, and every other name
    not at all; no name is reported twice.
   */
  lemma {:induction false} PropertyDiff(before: map<string, Value>, after: map<string, Value>, order: seq<string>, key: string)
    requires Enumerates(order, before.Keys + after.Keys)
    ensures var cs := ChangesFor(PropertyChanges(before, after, order), key);
      && (key !in before && key in after ==> cs == [Added(key, after[key])])
      && (key in before && key !in after ==> cs == [Removed(key, before[key])])
      && (key in before && key in after && !PyEq(before[key], after[key]) ==> cs == [Modified(key, before[key], after[key])])
      && (key in before && key in after && PyEq(before[key], after[key]) ==> cs == [])
      && (key !in before && key !in after ==> cs == [])
  {
    ChangesPerKey(before, after, order, key);
  }

  /** The message Python gives for a missing attribute. */
  function NoAttribute(v: Value, attr: string): (msg: string) {
    "'" + TypeName(v) + "' object has no attribute '" + attr + "'"
  }

  /** A state that can be diffed: a dict whose `properties`, if present, is a dict. */
  predicate Diffable(state: Value) {
    state.Obj? && Get(state.fields, "properties", Obj(map[])).Obj?
  }

  function Properties(state: Value): (m: map<string, Value>)
    requires Diffable(state)
  {
    Get(state.fields, "properties", Obj(map[])).fields
  }

  function Geometry(state: Value): (g: Value)
    requires state.Obj?
  {
    Get(state.fields, "geometry", Null)
  }

  /**
    The change list of one history entry. It is empty unless both states
    are truthy; a truthy state that is not a dict, or whose properties are
    not a dict, raises.
   */
  function StateChanges(before: Value, after: Value, keyOrder: set<string> -> seq<string>): (r: Result<seq<Change>, string>)
    ensures !(Truthy(before) && Truthy(after)) ==> r == Ok([])
    ensures r.Ok? <==> !(Truthy(before) && Truthy(after)) || (Diffable(before) && Diffable(after))
    ensures r.Ok? && Truthy(before) && Truthy(after) ==>
      r.value[..|r.value| - CountGeometry(r.value)]
        == PropertyChanges(Properties(before), Properties(after), keyOrder(Properties(before).Keys + Properties(after).Keys))
  {
    if !(Truthy(before) && Truthy(after)) then Ok([])
    else if !before.Obj? then Err(NoAttribute(before, "get"))
    else if !after.Obj? then Err(NoAttribute(after, "get"))
    else
      var bp := Get(before.fields, "properties", Obj(map[]));
      var ap := Get(after.fields, "properties", Obj(map[]));
      if !bp.Obj? then Err(NoAttribute(bp, "keys"))
      else if !ap.Obj? then Err(NoAttribute(ap, "keys"))
      else
        var props := PropertyChanges(bp.fields, ap.fields, keyOrder(bp.fields.Keys + ap.fields.Keys));
        var geometry := if PyEq(Geometry(before), Geometry(after)) then [] else [GeometryModified];
        CountGeometryOf(props, geometry);
        assert (props + geometry)[..|props|] == props;
        Ok(props + geometry)
  }

  /** The number of `geometry_modified` entries. */
  function CountGeometry(cs: seq<Change>): (n: nat)
    ensures n <= |cs|
    decreases |cs|
  {
    if cs == [] then 0
    else (if cs[0].GeometryModified? then 1 else 0) + CountGeometry(cs[1..])
  }

  lemma {:induction false} CountGeometryOf(props: seq<Change>, geometry: seq<Change>)
    requires forall i :: 0 <= i < |props| ==> !props[i].GeometryModified?
    requires forall i :: 0 <= i < |geometry| ==> geometry[i].GeometryModified?
    ensures CountGeometry(props + geometry) == |geometry|
    decreases |props|, |geometry|
  {
    if props != [] {
      assert (props + geometry)[1..] == props[1..] + geometry;
      CountGeometryOf(props[1..], geometry);
    } else if geometry != [] {
      assert (props + geometry)[1..] == props + geometry[1..];
      CountGeometryOf(props, geometry[1..]);
    } else {
      assert props + geometry == [];
    }
  }

  /**
    Exactly one `geometry_modified` entry, at the end of the list, iff both
    states are truthy and their geometries differ; none otherwise.
   */
  lemma {:induction false} GeometryModifiedOnce(before: Value, after: Value, keyOrder: set<string> -> seq<string>)
    requires StateChanges(before, after, keyOrder).Ok?
    ensures var cs := StateChanges(before, after, keyOrder).value;
      && (CountGeometry(cs) == 1 <==> Truthy(before) && Truthy(after) && !PyEq(Geometry(before), Geometry(after)))
      && CountGeometry(cs) <= 1
      && (CountGeometry(cs) == 1 ==> cs[|cs| - 1] == GeometryModified)
  {
    if Truthy(before) && Truthy(after) {
      var bp := Properties(before);
      var ap := Properties(after);
      var props := PropertyChanges(bp, ap, keyOrder(bp.Keys + ap.Keys));
      var geometry := if PyEq(Geometry(before), Geometry(after)) then [] else [GeometryModified];
      assert StateChanges(before, after, keyOrder).value == props + geometry;
      CountGeometryOf(props, geometry);
    }
  }

  // ---------------------------------------------------------------------
  // The change history of a feature

  datatype HistoryEntry = HistoryEntry(
    id: nat,
    action: Value,
    changes: seq<Change>,
    userId: Value,
    ipAddress: Option<string>,
    timestamp: int)

  /** The rows of the log table whose feature reference is `feature`, in table order. */
  function RowsOf(store: seq<AuditLog>, feature: nat): (r: seq<AuditLog>)
    ensures |r| <= |store|
    ensures forall i :: 0 <= i < |r| ==> r[i].featureId == Int(feature) && r[i] in store
    ensures forall i :: 0 <= i < |store| && store[i].featureId == Int(feature) ==> store[i] in r
    decreases |store|
  {
    if store == [] then []
    else
      var rest := RowsOf(store[1..], feature);
      assert forall i :: 1 <= i < |store| ==> store[i] == store[1..][i - 1];
      (if store[0].featureId == Int(feature) then [store[0]] else []) + rest
  }

  /** SQL `LIMIT limit OFFSET offset` over an ordered result. */
  function Page<T>(xs: seq<T>, limit: nat, offset: nat): (r: seq<T>)
    ensures |r| <= limit
    ensures forall i :: 0 <= i < |r| ==> offset + i < |xs| && r[i] == xs[offset + i]
    ensures offset + limit <= |xs| ==> |r| == limit
    ensures |r| == if offset >= |xs| then 0 else if limit < |xs| - offset then limit else |xs| - offset
  {
    var lo := if offset < |xs| then offset else |xs|;
    var hi := if offset + limit < |xs| then offset + limit else |xs|;
    xs[lo..hi]
  }

  /** One history entry per row, in row order; the first row whose diff raises makes the whole call raise. */
  function Entries(rows: seq<AuditLog>, keyOrder: set<string> -> seq<string>): (r: Result<seq<HistoryEntry>, string>)
    ensures r.Ok? <==> forall i :: 0 <= i < |rows| ==> StateChanges(rows[i].beforeState, rows[i].afterState, keyOrder).Ok?
    ensures r.Ok? ==> |r.value| == |rows| && forall i :: 0 <= i < |rows| ==>
      && r.value[i].id == rows[i].id && r.value[i].action == rows[i].action
      && Ok(r.value[i].changes) == StateChanges(rows[i].beforeState, rows[i].afterState, keyOrder)
    decreases |rows|
  {
    if rows == [] then Ok([])
    else
      var row := rows[0];
      assert forall i :: 1 <= i < |rows| ==> rows[i] == rows[1..][i - 1];
      match StateChanges(row.beforeState, row.afterState, keyOrder)
      case Err(e) => Err(e)
      case Ok(changes) =>
        match Entries(rows[1..], keyOrder)
        case Err(e) => Err(e)
        case Ok(rest) =>
          Ok([HistoryEntry(row.id, row.action, changes, row.userId, row.ipAddress, row.timestamp)] + rest)
  }

  /**
    `get_changes_by_feature`: an unknown feature has an empty history;
    otherwise one entry per page row of that feature's log rows.
   */
  function FeatureHistory(
    features: map<string, nat>, store: seq<AuditLog>, featureId: string, limit: nat, offset: nat,
    keyOrder: set<string> -> seq<string>)
    : (r: Result<seq<HistoryEntry>, string>)
    ensures featureId !in features ==> r == Ok([])
    ensures featureId in features ==> r == Entries(Page(RowsOf(store, features[featureId]), limit, offset), keyOrder)
    ensures r.Ok? ==> |r.value| <= limit && forall i :: 0 <= i < |r.value| ==>
      exists j :: 0 <= j < |store| && store[j].id == r.value[i].id && store[j].featureId == Int(features[featureId])
  {
    if featureId !in features then Ok([])
    else
      var rows := Page(RowsOf(store, features[featureId]), limit, offset);
      var r := Entries(rows, keyOrder);
      assert r.Ok? ==> forall i :: 0 <= i < |r.value| ==> rows[i] in store && rows[i].featureId == Int(features[featureId]);
      r
  }
}
