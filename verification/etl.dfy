/**
  The ETL service: submitting a job, the background executor that runs
  extract -> transform -> load (and, for JCHARRISPACS into PostgreSQL, the
  sync records), cancellation, and the status query.

  Everything the executor does outside the process is a parameter: the
  extractors, the field calculations and spatial transforms, the outcome
  of database and file writes, and the feature lookup used for sync
  records. Timestamps are one abstract clock reading `now`.
 */
module Etl {
  import opened Wrappers
  import opened Json
  import Tasks
  import opened EtlRecords

  /**
    A submitted job specification. `source` and `target` are the tags as
    sent; `transformation` is `None` when the spec's transformation entry
    is absent or empty, otherwise its field mappings in dict order.
   */
  datatype JobSpec = JobSpec(
    source: Value,
    target: Value,
    sourceParams: Value,
    targetParams: map<string, Value>,
    transformation: Option<seq<(string, string)>>)

  /** What a load reports: a database table, or a GeoJSON file. */
  datatype LoadResult =
    | TableLoad(table: string, inserted: nat, features: Option<seq<Value>>)
    | FileLoad(file: string, featureCount: nat)

  /**
    The outside world of one run. `extract` reads a source (tag, params);
    `postMapping` stands for the field calculations and spatial transforms
    that follow the field mappings; `tableWrite`, `fileWrite` and
    `syncFailure` are the errors those writes raise, if any; `findFeature`
    is the stored feature a listed id resolves to.
   */
  datatype Connectors = Connectors(
    extract: (string, Value) -> Result<Table, string>,
    postMapping: Table -> Result<Table, string>,
    tableWrite: Option<string>,
    fileWrite: Option<string>,
    findFeature: Value -> Option<nat>,
    syncFailure: Option<string>)

  type Jobs = Tasks.Store<JobSpec, LoadResult>

  /** The job table with its registry, the `spatial_features` table, and the sync records. */
  datatype EtlState = EtlState(jobs: Jobs, features: seq<SpatialFeature>, syncLog: seq<SyncRecord>)

  const CancelMessage := "Job cancelled by user"

  // ---------------------------------------------------------------------
  // Submission

  /**
    Record a new ETL job: pending, type "ETL", parameters the spec, and the
    submitting user's id when the user is known. Returns the new job's id.
   */
  function StartEtlJob(s: EtlState, spec: JobSpec, userId: Option<nat>, now: int): (r: (EtlState, nat))
    ensures Tasks.Valid(s.jobs) ==> Tasks.Valid(r.0.jobs) && r.1 !in s.jobs.tasks
    ensures r.1 in r.0.jobs.tasks
    ensures var t := r.0.jobs.tasks[r.1];
      t.status == Tasks.Pending && t.taskType == "ETL" && t.parameters == spec && t.userId == userId
    ensures r.0.features == s.features && r.0.syncLog == s.syncLog
    ensures Tasks.Valid(s.jobs) ==> Tasks.OthersUnchanged(s.jobs, r.0.jobs, r.1)
  {
    var (jobs, id) := Tasks.Create(s.jobs, "ETL", spec, userId, now);
    (s.(jobs := jobs), id)
  }

  // ---------------------------------------------------------------------
  // The pipeline

  predicate SupportedSource(v: Value) {
    v == Str("jcharrispacs") || v == Str("shapefile") || v == Str("geojson")
  }

  predicate SupportedTarget(v: Value) {
    v == Str("postgresql") || v == Str("geojson")
  }

  /** Read the source, or raise for a source tag the service does not know. */
  function Extract(spec: JobSpec, io: Connectors): (r: Result<Table, string>)
    ensures !SupportedSource(spec.source) ==> r == Err("Unsupported source: " + PyStr(spec.source))
    ensures SupportedSource(spec.source) ==> r == io.extract(spec.source.s, spec.sourceParams)
  {
    if SupportedSource(spec.source) then io.extract(spec.source.s, spec.sourceParams)
    else Err("Unsupported source: " + PyStr(spec.source))
  }

  /** A falsy transformation entry skips the whole step; otherwise the mappings run first. */
  function Transform(d: Table, spec: JobSpec, io: Connectors): (r: Result<Table, string>)
    ensures spec.transformation.None? ==> r == Ok(d)
    ensures spec.transformation.Some? ==> r == io.postMapping(ApplyMappings(d, spec.transformation.value))
  {
    match spec.transformation
    case None => Ok(d)
    case Some(ms) => io.postMapping(ApplyMappings(d, ms))
  }

  /** The raw ids of shaped rows, in row order. */
  function RawIds(shaped: seq<(SpatialFeature, Value)>): (r: seq<Value>)
    ensures |r| == |shaped| && forall k :: 0 <= k < |r| ==> r[k] == shaped[k].1
  {
    seq(|shaped|, k requires 0 <= k < |shaped| => shaped[k].1)
  }

  /** The records of shaped rows, in row order. */
  function Records(shaped: seq<(SpatialFeature, Value)>): (r: seq<SpatialFeature>)
    ensures |r| == |shaped| && forall k :: 0 <= k < |r| ==> r[k] == shaped[k].0
  {
    seq(|shaped|, k requires 0 <= k < |shaped| => shaped[k].0)
  }

  /**
    Load into PostgreSQL. A falsy table name raises; the schema defaults to
    "public". Into `spatial_features` every row becomes a feature record
    and the result lists the raw ids; any other table is written whole and
    only counted. Returns the result and the feature records inserted.
   */
  function LoadToPostgresql(d: Table, params: map<string, Value>, io: Connectors)
    : (r: Result<(LoadResult, seq<SpatialFeature>), string>)
    ensures !Truthy(Get(params, "table_name", Null)) ==> r == Err("Table name is required for PostgreSQL loading")
    ensures r.Ok? ==> (r.value.0.TableLoad?
      && r.value.0.table == PyStr(Get(params, "schema", Str("public"))) + "." + PyStr(params["table_name"])
      && r.value.0.inserted == |d.rows|)
    ensures r.Ok? && params["table_name"] == Str("spatial_features") ==>
      && r.value.0.features.Some? && |r.value.0.features.value| == |d.rows| == |r.value.1|
      && forall k :: 0 <= k < |d.rows| ==>
           RowAt(d.rows, params, k) == Ok((r.value.1[k], r.value.0.features.value[k]))
    ensures r.Ok? && params["table_name"] != Str("spatial_features") ==>
      r.value.0.features.None? && r.value.1 == []
    ensures Truthy(Get(params, "table_name", Null)) && io.tableWrite.Some? ==> r.Err?
  {
    var table := Get(params, "table_name", Null);
    if !Truthy(table) then Err("Table name is required for PostgreSQL loading")
    else
      var qualified := PyStr(Get(params, "schema", Str("public"))) + "." + PyStr(table);
      if table == Str("spatial_features") then
        var shaped :- ShapeRows(d.rows, params);
        if io.tableWrite.Some? then Err(io.tableWrite.value)
        else Ok((TableLoad(qualified, |shaped|, Some(RawIds(shaped))), Records(shaped)))
      else if io.tableWrite.Some? then Err(io.tableWrite.value)
      else Ok((TableLoad(qualified, |d.rows|, None), []))
  }

  /** Write a GeoJSON file. A falsy file path raises. */
  function LoadToGeojson(d: Table, params: map<string, Value>, io: Connectors): (r: Result<LoadResult, string>)
    ensures !Truthy(Get(params, "file_path", Null)) ==> r == Err("File path is required for GeoJSON loading")
    ensures Truthy(Get(params, "file_path", Null)) && io.fileWrite.Some? ==> r == Err(io.fileWrite.value)
    ensures r.Ok? ==> r.value == FileLoad(PyStr(params["file_path"]), |d.rows|)
  {
    var path := Get(params, "file_path", Null);
    if !Truthy(path) then Err("File path is required for GeoJSON loading")
    else if io.fileWrite.Some? then Err(io.fileWrite.value)
    else Ok(FileLoad(PyStr(path), |d.rows|))
  }

  /** Load to the target, or raise for a target tag the service does not know. */
  function Load(d: Table, spec: JobSpec, io: Connectors): (r: Result<(LoadResult, seq<SpatialFeature>), string>)
    ensures !SupportedTarget(spec.target) ==> r == Err("Unsupported target: " + PyStr(spec.target))
    ensures spec.target == Str("geojson") ==> r.Ok? ==> r.value.1 == []
  {
    if spec.target == Str("postgresql") then LoadToPostgresql(d, spec.targetParams, io)
    else if spec.target == Str("geojson") then
      var res :- LoadToGeojson(d, spec.targetParams, io);
      Ok((res, []))
    else Err("Unsupported target: " + PyStr(spec.target))
  }

  /** Extract, transform, load: the first step that raises decides the error. */
  function RunPipeline(spec: JobSpec, io: Connectors): (r: Result<(LoadResult, seq<SpatialFeature>), string>)
    ensures !SupportedSource(spec.source) ==> r == Err("Unsupported source: " + PyStr(spec.source))
    ensures SupportedSource(spec.source) && !SupportedTarget(spec.target) ==>
      r.Err? && (r.error == "Unsupported target: " + PyStr(spec.target)
                 || Extract(spec, io).Err? || Transform(Extract(spec, io).value, spec, io).Err?)
    ensures r.Ok? ==> SupportedSource(spec.source) && SupportedTarget(spec.target)
  {
    var d :- Extract(spec, io);
    var t :- Transform(d, spec, io);
    Load(t, spec, io)
  }

  /** Sync records are written only for JCHARRISPACS loaded into PostgreSQL. */
  predicate NeedsSync(spec: JobSpec) {
    spec.source == Str("jcharrispacs") && spec.target == Str("postgresql")
  }

  /** `result.get("features", [])`. */
  function ListedFeatures(res: LoadResult): (r: seq<Value>)
    ensures res.FileLoad? ==> r == []
  {
    if res.TableLoad? && res.features.Some? then res.features.value else []
  }

  // ---------------------------------------------------------------------
  // The executor

  /** How a run of an existing job ends, independently of the state it runs in. */
  datatype Outcome = Done(result: LoadResult, inserted: seq<SpatialFeature>, synced: seq<SyncRecord>)
                   | Broken(message: string, stored: Option<LoadResult>, inserted: seq<SpatialFeature>)

  /** The outcome of running a spec: pipeline errors, then the sync step's own failure. */
  function Run(spec: JobSpec, io: Connectors): (o: Outcome)
    ensures RunPipeline(spec, io).Err? ==> o == Broken(RunPipeline(spec, io).error, None, [])
    ensures o.Done? ==> RunPipeline(spec, io).Ok? && o.result == RunPipeline(spec, io).value.0
    ensures o.Done? && !NeedsSync(spec) ==> o.synced == []
    ensures o.Broken? && o.stored.Some? ==> NeedsSync(spec) && io.syncFailure == Some(o.message)
  {
    match RunPipeline(spec, io)
    case Err(e) => Broken(e, None, [])
    case Ok((res, inserted)) =>
      if !NeedsSync(spec) then Done(res, inserted, [])
      else if io.syncFailure.Some? then Broken(io.syncFailure.value, Some(res), inserted)
      else Done(res, inserted, SyncRecords(ListedFeatures(res), io.findFeature, "inbound", "jcharrispacs"))
  }

  /**
    The background executor for job `id`, as one uninterrupted sequence of
    steps: start (running, registered); then either the pipeline raises
    and the job fails, or it completes with its result, the sync records
    are written if due, and the registry entry goes. A failing sync step
    turns the completed job into a failed one that keeps its result. Rows
    inserted by a load stay inserted whatever happens after it.
   */
  function ExecuteEtlJob(s: EtlState, id: nat, spec: JobSpec, io: Connectors, now: int): (r: EtlState)
    ensures id !in s.jobs.tasks ==> r == s
    ensures Tasks.Valid(s.jobs) ==> Tasks.Valid(r.jobs)
    ensures Tasks.OthersUnchanged(s.jobs, r.jobs, id) && r.jobs.tasks.Keys == s.jobs.tasks.Keys
    ensures id in s.jobs.tasks ==>
      var t := r.jobs.tasks[id];
      var o := Run(spec, io);
      && id !in r.jobs.registry
      && t.startedAt == Some(now) && t.completedAt == Some(now)
      && t.parameters == s.jobs.tasks[id].parameters && t.taskType == s.jobs.tasks[id].taskType
      && (o.Done? ==> t.status == Tasks.Completed && t.result == Some(o.result)
                      && r.features == s.features + o.inserted && r.syncLog == s.syncLog + o.synced)
      && (o.Broken? ==> t.status == Tasks.Failed && t.errorMessage == Some(o.message)
                        && r.features == s.features + o.inserted && r.syncLog == s.syncLog)
      && (o.Broken? && o.stored.Some? ==> t.result == o.stored)
  {
    if id !in s.jobs.tasks then s
    else
      var started := Tasks.Start(s.jobs, id, now);
      match Run(spec, io)
      case Broken(msg, None, inserted) =>
        s.(jobs := Tasks.Fail(started, id, msg, now), features := s.features + inserted)
      case Broken(msg, Some(res), inserted) =>
        s.(jobs := Tasks.Fail(Tasks.Succeed(started, id, res, now), id, msg, now), features := s.features + inserted)
      case Done(res, inserted, synced) =>
        s.(jobs := Tasks.Retire(Tasks.Succeed(started, id, res, now), id),
           features := s.features + inserted, syncLog := s.syncLog + synced)
  }

  /** A job whose source tag is unknown ends failed with the source in its message, and nothing is written. */
  lemma {:induction false} UnsupportedSourceFails(s: EtlState, id: nat, spec: JobSpec, io: Connectors, now: int)
    requires id in s.jobs.tasks && !SupportedSource(spec.source)
    ensures var r := ExecuteEtlJob(s, id, spec, io, now);
      && r.jobs.tasks[id].status == Tasks.Failed
      && r.jobs.tasks[id].errorMessage == Some("Unsupported source: " + PyStr(spec.source))
      && r.features == s.features && r.syncLog == s.syncLog
  {
  }

  /** A job whose data arrives but whose target tag is unknown ends failed with the target in its message. */
  lemma {:induction false} UnsupportedTargetFails(s: EtlState, id: nat, spec: JobSpec, io: Connectors, now: int)
    requires id in s.jobs.tasks && SupportedSource(spec.source) && !SupportedTarget(spec.target)
    requires Extract(spec, io).Ok? && Transform(Extract(spec, io).value, spec, io).Ok?
    ensures var r := ExecuteEtlJob(s, id, spec, io, now);
      && r.jobs.tasks[id].status == Tasks.Failed
      && r.jobs.tasks[id].errorMessage == Some("Unsupported target: " + PyStr(spec.target))
  {
  }

  /**
    A run of JCHARRISPACS into `spatial_features` in which every listed id
    resolves writes exactly one sync record per inserted row, in row order.
   */
  lemma {:induction false} OneSyncRecordPerFeature(s: EtlState, id: nat, spec: JobSpec, io: Connectors, now: int)
    requires id in s.jobs.tasks && NeedsSync(spec) && io.syncFailure.None?
    requires Run(spec, io).Done?
    requires var res := Run(spec, io).result;
      res.TableLoad? && res.features.Some? && forall k :: 0 <= k < |res.features.value| ==> io.findFeature(res.features.value[k]).Some?
    ensures var r := ExecuteEtlJob(s, id, spec, io, now);
      var ids := Run(spec, io).result.features.value;
      && |r.syncLog| == |s.syncLog| + |ids|
      && forall k :: 0 <= k < |ids| ==>
           && r.syncLog[|s.syncLog| + k].entityId == io.findFeature(ids[k]).value
           && r.syncLog[|s.syncLog| + k].entityType == "SpatialFeature"
           && r.syncLog[|s.syncLog| + k].status == "completed"
  {
    var ids := Run(spec, io).result.features.value;
    RunSynced(spec, io);
    ExecuteSyncLog(s, id, spec, io, now);
    LoggedRecords(ExecuteEtlJob(s, id, spec, io, now).syncLog, s.syncLog, ids, io.findFeature);
  }

  /**
    A run of JCHARRISPACS into PostgreSQL whose feature lookup reads the
    feature table as it stands after the load (`earlier` followed by the
    inserted rows), and whose listed ids are strings, writes one sync
    record per listed id, in order, each naming the row of the first
    stored feature with that id. The executor appends exactly these
    records to the job state's log (ExecuteSyncLog).
   */
  lemma {:induction false} SyncRecordsNameInsertedRows(spec: JobSpec, io: Connectors, earlier: seq<SpatialFeature>)
    requires NeedsSync(spec) && io.syncFailure.None? && Run(spec, io).Done?
    requires LooksUpTable(io.findFeature, earlier + Run(spec, io).inserted)
    requires forall k :: 0 <= k < |ListedFeatures(Run(spec, io).result)| ==> ListedFeatures(Run(spec, io).result)[k].Str?
    ensures var o := Run(spec, io);
      var ids := ListedFeatures(o.result);
      var table := earlier + o.inserted;
      && |o.synced| == |ids|
      && forall k :: 0 <= k < |ids| ==>
           && StoredRowId(table, ids[k].s).Some?
           && o.synced[k].entityId == StoredRowId(table, ids[k].s).value
           && table[o.synced[k].entityId - 1].featureId == ids[k].s
           && o.synced[k].entityType == "SpatialFeature" && o.synced[k].status == "completed"
  {
    var o := Run(spec, io);
    InsertedMatchListed(spec, io);
    RunSynced(spec, io);
    SyncedNameRows(o.synced, ListedFeatures(o.result), io.findFeature, earlier, o.inserted);
  }

  /** The ids a synced load lists are the texts of the feature records it inserted, one per record. */
  lemma {:induction false} InsertedMatchListed(spec: JobSpec, io: Connectors)
    requires NeedsSync(spec) && Run(spec, io).Done?
    ensures var o := Run(spec, io);
      var ids := ListedFeatures(o.result);
      ids != [] ==> |ids| == |o.inserted| && forall k :: 0 <= k < |ids| ==> o.inserted[k].featureId == PyStr(ids[k])
  {
    var o := Run(spec, io);
    var d := Extract(spec, io).value;
    var t := Transform(d, spec, io).value;
    var params := spec.targetParams;
    var loaded := LoadToPostgresql(t, params, io);
    assert loaded.Ok? && loaded.value == (o.result, o.inserted);
    var ids := ListedFeatures(o.result);
    if ids != [] {
      assert params["table_name"] == Str("spatial_features");
      forall k | 0 <= k < |ids| ensures o.inserted[k].featureId == PyStr(ids[k]) {
        assert RowAt(t.rows, params, k) == Ok((o.inserted[k], ids[k]));
        FeatureOfRowShape(t.rows[k], k, params);
      }
    }
  }

  /** The log after a sync of ids that all resolve: the earlier entries, then one completed record per id. */
  lemma {:induction false} LoggedRecords(log: seq<SyncRecord>, earlier: seq<SyncRecord>, ids: seq<Value>, lookup: Value -> Option<nat>)
    requires log == earlier + SyncRecords(ids, lookup, "inbound", "jcharrispacs")
    requires forall k :: 0 <= k < |ids| ==> lookup(ids[k]).Some?
    ensures |log| == |earlier| + |ids|
    ensures forall k :: 0 <= k < |ids| ==>
      && log[|earlier| + k].entityId == lookup(ids[k]).value
      && log[|earlier| + k].entityType == "SpatialFeature"
      && log[|earlier| + k].status == "completed"
  {
    var synced := SyncRecords(ids, lookup, "inbound", "jcharrispacs");
    SyncRecordsAllKnown(ids, lookup, "inbound", "jcharrispacs");
    forall k | 0 <= k < |ids| ensures log[|earlier| + k] == synced[k] {
    }
  }

  /** A job whose run completes appends exactly the run's sync records to the log. */
  lemma {:induction false} ExecuteSyncLog(s: EtlState, id: nat, spec: JobSpec, io: Connectors, now: int)
    requires id in s.jobs.tasks && Run(spec, io).Done?
    ensures ExecuteEtlJob(s, id, spec, io, now).syncLog == s.syncLog + Run(spec, io).synced
  {
  }

  /** A completed run that needed syncing wrote the records of the ids its load listed. */
  lemma {:induction false} RunSynced(spec: JobSpec, io: Connectors)
    requires NeedsSync(spec) && Run(spec, io).Done?
    ensures Run(spec, io).synced == SyncRecords(ListedFeatures(Run(spec, io).result), io.findFeature, "inbound", "jcharrispacs")
  {
  }

  // ---------------------------------------------------------------------
  // Cancellation and status

  /**
    Cancel a job. A job that is not registered is cancelled only while it
    is pending or running; an unknown id, or any other status, answers
    false and changes nothing. A registered job is marked cancelled
    whatever its status and leaves the registry; the executor itself is
    not stopped.
   */
  function CancelEtlJob(s: EtlState, id: nat, now: int): (r: (EtlState, bool))
    ensures r.1 <==> (id in s.jobs.registry
      || (id in s.jobs.tasks && s.jobs.tasks[id].status in {Tasks.Pending, Tasks.Running}))
    ensures !r.1 ==> r.0 == s
    ensures r.1 && id in s.jobs.tasks ==>
      && id in r.0.jobs.tasks
      && r.0.jobs.tasks[id].status == Tasks.Cancelled
      && r.0.jobs.tasks[id].errorMessage == Some(CancelMessage)
      && r.0.jobs.tasks[id].completedAt == Some(now)
    ensures id !in r.0.jobs.registry
    ensures r.0.features == s.features && r.0.syncLog == s.syncLog
    ensures Tasks.Valid(s.jobs) ==> Tasks.Valid(r.0.jobs)
    ensures Tasks.OthersUnchanged(s.jobs, r.0.jobs, id)
  {
    if id !in s.jobs.registry then
      if id !in s.jobs.tasks || s.jobs.tasks[id].status !in {Tasks.Pending, Tasks.Running} then (s, false)
      else (s.(jobs := Tasks.MarkCancelled(s.jobs, id, CancelMessage, now)), true)
    else
      (s.(jobs := Tasks.MarkCancelled(s.jobs, id, CancelMessage, now)), true)
  }

  /** The status of a job: none for an unknown id; the elapsed time only while registered. */
  function GetEtlJobStatus(s: EtlState, id: nat, now: int): (r: Option<Tasks.StatusView<JobSpec, LoadResult>>)
    ensures r.None? <==> id !in s.jobs.tasks
    ensures r.Some? ==> r.value.task == s.jobs.tasks[id]
    ensures r.Some? ==> (r.value.elapsed.Some? <==> id in s.jobs.registry)
  {
    Tasks.Query(s.jobs, id, now)
  }

  /** Once its executor has returned, a job reports no elapsed time. */
  lemma {:induction false} FinishedJobHasNoElapsedTime(s: EtlState, id: nat, spec: JobSpec, io: Connectors, t0: int, t1: int)
    requires id in s.jobs.tasks
    ensures var v := GetEtlJobStatus(ExecuteEtlJob(s, id, spec, io, t0), id, t1);
      v.Some? && v.value.elapsed.None? && v.value.task.status in {Tasks.Completed, Tasks.Failed}
  {
  }

  /** A cancel while the executor runs is overwritten when the run completes. */
  lemma {:induction false} CancelDuringRunIsLost(s: EtlState, id: nat, res: LoadResult, t0: int, t1: int, t2: int)
    requires id in s.jobs.tasks
    ensures var running := s.(jobs := Tasks.Start(s.jobs, id, t0));
      var (cancelled, ok) := CancelEtlJob(running, id, t1);
      var done := Tasks.Succeed(cancelled.jobs, id, res, t2);
      ok && done.tasks[id].status == Tasks.Completed
  {
  }
}
