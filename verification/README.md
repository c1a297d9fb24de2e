# TerraFusion platform core, modelled in Dafny

This project models the core of the TerraFusion geospatial platform. Its
services move spatial features between systems, audit corrections to them
and serve them as map tiles. Seven parts are modelled:

- **Task lifecycle** (`Tasks`). The ETL service and the insight service
  share one lifecycle: a task record moves through pending, running,
  completed, failed and cancelled. An in-memory registry of running work
  records each task's start time, and the status query reports elapsed
  time only while the task is registered.
- **ETL pipeline** (`Etl`, `EtlRecords`). `start_etl_job`,
  `execute_etl_job`, `cancel_etl_job` and `get_etl_job_status`, plus the
  pieces of the pipeline:
  - dispatch on the source and target tags;
  - field mappings;
  - shaping rows into `SpatialFeature` records, with generated
    `feature_<n>` ids;
  - the GeoJSON file load;
  - sync records for JCHARRISPACS imports.
- **Insight agents** (`Insight`). `run_agent` and `execute_agent_task`;
  the data-conversion agent's coordinate parsing; and the audit agent's
  three rules and their summary.
- **Geometry conversion tools** (`Wkt`). GeoJSON ↔ WKT for Point,
  LineString and Polygon, the SRID transform and the SQL Server
  placeholder.
- **Audit log** (`Audit`, `Corrections`). `create_audit_log`,
  `log_api_request` and the per-feature change history with its
  before/after property diff. Also the MCP audit agent's
  correction-validation rules.
- **Map bounds and tiles** (`Bounds`, `Tiles`). The client's
  `getBoundsFromGeoJSON` and `getBoundsFromCoordinates`; the tile
  service's zoom-dependent simplification; and the assembly of query rows
  into a FeatureCollection.
- **Agent manager** (`Agents`). Agents with their ordered capability
  lists, and the manager's registry. It supports lookup by id, type and
  capability, the dispatch of a process request to the chosen agent, and
  idempotent initialisation.

Two support modules are shared: `Json` models Python/JSON values with
Python truthiness and equality, and `Text` models the string functions
the source relies on (`strip`, `upper`, `split`, `replace`, `int()`);
`upper` is exact only where the upper-case form has an ASCII letter.

Databases, files and external services are parameters: a query result, a
lookup map or a connector function stands for each.

## Model

| member | source | states |
|---|---|---|
| Tasks.Create | services/terra_flow/etl.py:24-64 | a new task is pending, gets an id not in use, and leaves every other task and the registry unchanged |
| Tasks.Start | services/terra_flow/etl.py:80-92 | the task becomes running and is registered with its start time; other tasks are untouched; an unknown id changes nothing |
| Tasks.Succeed | services/terra_flow/etl.py:125-128 | the task becomes completed, holding its result and completion time; other tasks are untouched |
| Tasks.Fail | services/terra_flow/etl.py:138-151 | the task becomes failed with its message and leaves the registry; other tasks are untouched |
| Tasks.MarkCancelled | services/terra_flow/etl.py:547-578 | the task becomes cancelled with its message and completion time, and leaves the registry |
| Tasks.Retire | services/terra_flow/etl.py:134-136 | the task leaves the running registry and its record is unchanged |
| Tasks.Query | services/terra_flow/etl.py:437-478 | no view for an unknown id; otherwise the stored record, with an elapsed time exactly when the task is registered |
| Tasks.CancelledThenStarted | services/terra_flow/etl.py:80-92 | a task cancelled while pending is still started and registered by its executor |
| Tasks.CancelWhileRunningIsOverwritten | services/terra_flow/etl.py:125-136 | a cancel during a run is overwritten: the task ends completed, still holding the cancel message |
| Tasks.CompletedThenFailed | services/terra_flow/etl.py:125-151 | when follow-up work fails after completion, the task ends failed but keeps its result |
| Etl.StartEtlJob | services/terra_flow/etl.py:24-64 | creates one pending job with a fresh id; features, the sync log and the other jobs are unchanged |
| Etl.Extract | services/terra_flow/etl.py:102-109 | an unknown source tag fails with "Unsupported source: <tag>"; a known one calls its extractor |
| Etl.Transform | services/terra_flow/etl.py:111-113 | without transformation parameters the data passes through; otherwise the field mappings are applied first |
| Etl.LoadToPostgresql | services/terra_flow/etl.py:286-340 | a falsy table name fails with "Table name is required …"; loading into spatial_features writes one record per row with the listed ids; a failed write fails the load |
| Etl.LoadToGeojson | services/terra_flow/etl.py:369-396 | a falsy file path fails; a failed write fails with its error; success reports the path and the row count |
| Etl.Load | services/terra_flow/etl.py:116-122 | an unknown target tag fails with "Unsupported target: <tag>"; a GeoJSON load writes no feature records |
| Etl.RunPipeline | services/terra_flow/etl.py:100-122 | an unknown source fails before the target is checked; success implies both tags are supported |
| Etl.Run | services/terra_flow/etl.py:100-133 | a pipeline error breaks the run with that message; a done run carries the pipeline's result; sync records exist only for JCHARRISPACS → PostgreSQL |
| Etl.ExecuteEtlJob | services/terra_flow/etl.py:66-153 | an unknown job id changes nothing; otherwise only this job's record changes and it ends completed or failed, out of the registry |
| Etl.UnsupportedSourceFails | services/terra_flow/etl.py:108-109 | a job with an unknown source ends failed with the source in its message, and no feature or sync record is written |
| Etl.UnsupportedTargetFails | services/terra_flow/etl.py:121-122 | a job whose data loads but whose target is unknown ends failed with the target in its message |
| Etl.OneSyncRecordPerFeature | services/terra_flow/etl.py:130-131 | a JCHARRISPACS → spatial_features run whose listed ids all resolve appends exactly one completed sync record per id, in order |
| Etl.ExecuteSyncLog | services/terra_flow/etl.py:125-132 | a job whose run completes gets exactly the run's sync records appended to the log after the earlier ones |
| Etl.InsertedMatchListed | services/terra_flow/etl.py:310-333 | the ids a spatial_features load lists are, one for one and in order, the ids of the records it inserted |
| Etl.SyncRecordsNameInsertedRows | services/terra_flow/etl.py:417-433 | with a lookup that queries the table after the load, each listed string id gets one completed SpatialFeature record, in order, naming the first table row that carries that id |
| Etl.CancelEtlJob | services/terra_flow/etl.py:531-580 | answers true exactly for a registered job or a pending/running one; true marks it cancelled and unregisters it; false changes nothing |
| Etl.GetEtlJobStatus | services/terra_flow/etl.py:437-478 | no status for an unknown job; an elapsed time exactly while the job is registered |
| Etl.FinishedJobHasNoElapsedTime | services/terra_flow/etl.py:134-136 | once its executor returns, a job is completed or failed and reports no elapsed time |
| Etl.CancelDuringRunIsLost | services/terra_flow/etl.py:125 | a cancel accepted during a run is overwritten by the completion |
| EtlRecords.MapField | services/terra_flow/etl.py:256-259 | a mapping from an absent column changes nothing; otherwise the target column copies the source column and other columns keep their values |
| EtlRecords.ApplyMappings | services/terra_flow/etl.py:252-259 | the row count is kept; columns that no mapping targets keep their values; the only new columns are mapping targets |
| EtlRecords.ApplyMappingsRowwise | services/terra_flow/etl.py:252-259 | the mapped table's row i is row i with the mappings applied to it alone, one after another |
| EtlRecords.LastSourceFor | services/terra_flow/etl.py:256-259 | there is a last source for a target exactly when some mapping targets it, and that mapping is in the list |
| EtlRecords.LastMappingDecides | services/terra_flow/etl.py:256-259 | when the sources are existing columns no mapping overwrites, every targeted column holds, in every row, the value of the source of the last mapping to it |
| EtlRecords.MappingsFromAbsentColumns | services/terra_flow/etl.py:258 | mappings whose sources are all missing leave the table unchanged |
| EtlRecords.MappingCopiesSource | services/terra_flow/etl.py:258-259 | after one mapping, every row's target equals its source |
| EtlRecords.GeneratedId | services/terra_flow/etl.py:314 | a generated id has the prefix "feature_" |
| EtlRecords.FeatureOfRowShape | services/terra_flow/etl.py:310-331 | a row shapes into a record exactly when it has a text geometry (the error text otherwise); the record takes the id, type and source fallbacks and drops those keys from its properties |
| EtlRecords.ShapeRows | services/terra_flow/etl.py:310-333 | succeeds exactly when every row shapes; one record per row in row order, each the shaping of its own row at its own position; a failure carries the error of the first row that fails |
| EtlRecords.GeneratedIdsFollowRowOrder | services/terra_flow/etl.py:314 | a row with no id gets the id feature_<k>, where k is its position |
| EtlRecords.GeneratedIdsDistinct | services/terra_flow/etl.py:314 | different positions generate different ids |
| EtlRecords.SyncRecordFor | services/terra_flow/etl.py:424-432 | a sync record is a completed SpatialFeature record for the given entity, with no target id |
| EtlRecords.SyncRecords | services/terra_flow/etl.py:417-433 | at most one record per listed id |
| EtlRecords.SyncRecordsFromKnownIds | services/terra_flow/etl.py:417-433 | every record is the completed SpatialFeature record of a listed id that the store resolves |
| EtlRecords.SyncRecordsAllKnown | services/terra_flow/etl.py:417-433 | when every listed id resolves, one record per id, in list order, for that id's entity |
| EtlRecords.SyncRecordsNoneKnown | services/terra_flow/etl.py:417-433 | when no listed id resolves, no record is written |
| EtlRecords.SyncRecordsAppend | services/terra_flow/etl.py:417-433 | the sync records of a concatenation are the concatenation of the sync records |
| EtlRecords.StoredRowId | services/terra_flow/etl.py:419 | the 1-based row of the first table record with that feature id, or none exactly when no record has it |
| EtlRecords.SyncedNameRows | services/terra_flow/etl.py:417-433 | records written with a lookup over the table, for string ids naming the appended rows, are one completed record per id naming the first row that carries it |
| Insight.ParseCoordinatesMeaning | services/terra_insight/ai.py:465-486 | fails exactly when some piece is not an integer; otherwise one number per piece |
| Insight.CoordinatesToPoint | services/terra_insight/ai.py:465-486 | a list of two or more items becomes a Point of its first two, a shorter one fails with the two-coordinates message; a string split on commas fails when a piece is not a number, fails with the same message under two pieces, and otherwise is the Point of the first two pieces' numbers |
| Insight.CommaPairToPoint | services/terra_insight/ai.py:465-486 | two comma-free numeric pieces joined by a comma give the Point of their numbers |
| Insight.CoordinatePairRoundTrip | services/terra_insight/ai.py:465-486 | printing two integers as "x,y" and converting back gives the Point of those integers |
| Insight.RunDataConvertAgent | services/terra_insight/ai.py:393-493 | missing formats, unsupported conversions and conversion errors produce the source's messages; a coordinates → point conversion wraps its result |
| Insight.MissingFields | services/terra_insight/ai.py:595-599 | a field is listed exactly when it is required and absent; a single required field is listed alone or not at all |
| Insight.MissingFieldsCounts | services/terra_insight/ai.py:597-599 | each absent field is listed as many times as it is required, and a present field not at all |
| Insight.MissingFieldsAppend | services/terra_insight/ai.py:597-599 | the missing fields of a concatenation are the missing fields of each part, in order, so the loop keeps the required order |
| Insight.RequiredPropertiesCheck | services/terra_insight/ai.py:593-605 | passes exactly when every required field is present; otherwise its message lists the missing ones |
| Insight.BoundsCheck | services/terra_insight/ai.py:608-634 | passes exactly when the envelope lies inside the expected box, with the source's two messages |
| Insight.BoundsCheckIsContainment | services/terra_insight/ai.py:608-634 | passing means both corners of the envelope lie inside the expected box |
| Insight.PassedPlusFailed | services/terra_insight/ai.py:648-653 | passed plus failed checks equals the number of checks |
| Insight.Summarize | services/terra_insight/ai.py:648-653 | the summary counts every check once, as passed or as failed |
| Insight.RunAuditAgent | services/terra_insight/ai.py:495-658 | a falsy feature id, an unknown feature and a rules value that cannot be searched give the source's errors, and nothing else fails; a report carries the feature id, the enabled rules' checks and the repairs, with a summary that counts them |
| Insight.AuditParamsOf | services/terra_insight/ai.py:505-609 | the parameters fail with "feature_id is required" exactly when the feature id is missing or falsy; otherwise each field is the given value or the source's default (no rules, no auto-correct, no required fields, the whole-earth box) |
| Insight.FeatureIdOnlyTakesDefaults | services/terra_insight/ai.py:507-509 | parameters holding only a feature id read as that id with every default |
| Insight.Checks | services/terra_insight/ai.py:544-642 | at most three results, each from an enabled rule |
| Insight.ChecksValidity | services/terra_insight/ai.py:544-561 | the validity rule has a result exactly when it is enabled and the validity query answers, and that result passes as the query says |
| Insight.ChecksRequiredProperties | services/terra_insight/ai.py:593-605 | the required-properties rule has a result exactly when it is enabled, and it is the check of the required fields on the feature's properties |
| Insight.ChecksBounds | services/terra_insight/ai.py:608-642 | the bounds rule has a result exactly when it is enabled and the envelope query answers, and it compares that envelope with the requested box |
| Insight.ChecksInRuleOrder | services/terra_insight/ai.py:544-642 | the results come in the order validity, required properties, bounds |
| Insight.Repairs | services/terra_insight/ai.py:563-580 | a correction exists exactly when validity is checked and fails, auto-correct is truthy and the repair query answers; it is then the single valid_geometry correction from the stored to the repaired geometry, marked applied |
| Insight.EmptyRulesRunEveryRule | services/terra_insight/ai.py:544-642 | an empty rule list runs all three checks, in order, when both queries answer |
| Insight.RunAgent | services/terra_insight/ai.py:71-115 | an unknown agent id fails with "Unknown agent ID: …"; a known one creates a pending task |
| Insight.RunAgentBody | services/terra_insight/ai.py:145-154 | dispatches on the agent id: an unknown id fails; the data-conversion agent's outcome is its conversion; the audit agent fails without a feature id and otherwise runs on the parameters decoded from the request |
| Insight.ExecuteAgentTask | services/terra_insight/ai.py:117-181 | only this task's record changes; it ends completed with the agent's output or failed with the agent's error, out of the registry |
| Insight.AuditWithoutFeatureIdFails | services/terra_insight/ai.py:511-512 | an audit task whose parameters have no feature_id ends failed with "feature_id is required" |
| Insight.RunThenExecute | services/terra_insight/ai.py:71-181 | a task created by run_agent and then executed ends completed or failed |
| Wkt.GeoJsonToWkt | app/mcp/tools/transform_tools.py:70-119 | fails exactly when the writer fails, with the tool's prefix; an unsupported type names the upper-cased type |
| Wkt.WktToGeoJson | app/mcp/tools/transform_tools.py:20-68 | success yields a Point, LineString or Polygon; text without a known keyword fails with "Unsupported WKT type" |
| Wkt.WktToGeoJsonCorrected | app/mcp/tools/transform_tools.py:50-61 | agrees with the reader as written on everything but Polygons |
| Wkt.TransformSrid | app/mcp/tools/transform_tools.py:121-146 | the geometry comes back unchanged, whatever the SRIDs |
| Wkt.SqlServerToGeoJson | app/mcp/tools/transform_tools.py:148-173 | whatever the bytes, the Point at [0, 0], the value both the placeholder path and the error path return |
| Wkt.PointText | app/mcp/tools/transform_tools.py:88-89 | a Point is written as POINT(x y) |
| Wkt.LineStringText | app/mcp/tools/transform_tools.py:91-93 | a LineString is written as LINESTRING(x y, …) |
| Wkt.PolygonText | app/mcp/tools/transform_tools.py:95-112 | a Polygon is written as POLYGON((…)), and one ring gives just its path |
| Wkt.TypeIsCaseInsensitive | app/mcp/tools/transform_tools.py:85 | the writer treats GeoJSON type names case-insensitively |
| Wkt.ShortPointFails | app/mcp/tools/transform_tools.py:88-89 | a Point with fewer than two coordinates fails with "list index out of range" |
| Wkt.LeadingSpaceIgnored | app/mcp/tools/transform_tools.py:32 | leading whitespace does not change what the reader returns |
| Wkt.PointRoundTrip | app/mcp/tools/transform_tools.py:37-41 | reading back a written Point gives the same Point |
| Wkt.LineStringRoundTrip | app/mcp/tools/transform_tools.py:43-48 | reading back a written LineString gives the same LineString |
| Wkt.PolygonRoundTrip | app/mcp/tools/transform_tools.py:50-61 | reading back a written one-ring Polygon gives the same Polygon |
| Wkt.CorrectedPolygonRoundTrip | app/mcp/tools/transform_tools.py:104-112 | with the separator the writer uses, every written Polygon, holes included, reads back unchanged |
| Wkt.HolesDoNotRoundTrip | app/mcp/tools/transform_tools.py:54-56 | a written Polygon with a hole fails to read back as written, and reads back with the corrected reader |
| Audit.Resolve | services/terra_audit/audit.py:47-54 | digit strings and non-strings pass through; other strings become the looked-up id, or null when unknown |
| Audit.IntColumn | services/common/models.py:101-105 | an integer column keeps null and integers, reads a string as the integer it spells (an error otherwise), and rejects booleans, lists and objects |
| Audit.Columns | services/terra_audit/audit.py:56-68 | the entry's entity, user and feature columns succeed exactly when each value fits its integer column, and are then those integer values |
| Audit.ResolvedTextStored | services/terra_audit/audit.py:51-54 | a null or string reference, once resolved, always fits its integer column |
| Audit.DigitTextStoredAsNumber | services/terra_audit/audit.py:52 | a digit string passes the lookup untouched and is stored as the number it spells |
| Audit.DigitFeatureReferenceStored | services/terra_audit/audit.py:52-64 | a feature reference given as the digits of n is stored as feature n, so the entry appears in that feature's history rows |
| Audit.CreateAuditLog | services/terra_audit/audit.py:14-76 | fails with the required-fields message when action, entity type or entity id is falsy, and with the column error when an integer column cannot take its value; otherwise, as far as the database's checks are modelled, appends one entry with a fresh id, the given fields and the integer column values |
| Audit.ApiRequestData | services/terra_audit/audit.py:332-362 | the logged request has entity type "api", entity id 0 and the method, URL and headers as its after-state |
| Audit.LogApiRequest | services/terra_audit/audit.py:332-370 | never raises: the log grows by at most one entry and keeps its earlier entries |
| Audit.ApiRequestsAreNeverLogged | services/terra_audit/audit.py:355 | as written, an API request never produces an entry |
| Audit.CreateAuditLogCorrected | services/terra_audit/audit.py:27-32 | the required-fields error exactly when the corrected check fails (a falsy action or entity type, or a missing entity id); otherwise fails exactly when an integer column cannot take its value; equal to create_audit_log whenever the original check passes |
| Audit.ApiRequestsAreLoggedCorrected | services/terra_audit/audit.py:332-370 | with the entity-id check corrected, an API request with an action appends exactly one "api" entry, as far as the database's checks are modelled |
| Audit.PropertyDiff | services/terra_audit/audit.py:278-302 | per property key: exactly one Added, Removed or Modified change when the values differ or one side lacks the key; none otherwise |
| Audit.ChangesPerKey | services/terra_audit/audit.py:280-302 | a key listed once contributes exactly its own change; an unlisted key contributes none |
| Audit.StateChanges | services/terra_audit/audit.py:270-312 | no changes when either state is falsy; otherwise succeeds exactly when both can be diffed, and the property part is the per-key diff |
| Audit.GeometryModifiedOnce | services/terra_audit/audit.py:304-312 | at most one geometry change, last in the list, present exactly when both states are truthy and the geometries differ |
| Audit.RowsOf | services/terra_audit/audit.py:256 | exactly the log entries of the feature |
| Audit.Page | services/terra_audit/audit.py:259 | the rows from the offset on, as many as the limit allows and the list holds |
| Audit.Entries | services/terra_audit/audit.py:314-325 | one history entry per row, and it fails exactly when some row's diff fails |
| Audit.FeatureHistory | services/terra_audit/audit.py:231-330 | an unknown feature has an empty history; otherwise the entries of the page of that feature's rows, at most limit, each from a log row of that feature |
| Corrections.GeometryCheck | app/mcp/agents/audit_agent.py:63-95 | a valid verdict needs both geometries to be dicts, an absent one counting as {}, and reports "Geometry correction appears valid" |
| Corrections.TypeChangeIsInvalid | app/mcp/agents/audit_agent.py:73-77 | a changed geometry type is rejected with the type-change reason |
| Corrections.PointMoveRule | app/mcp/agents/audit_agent.py:80-91 | a Point correction is valid exactly when it moves by at most 1 |
| Corrections.SameTypeNonPointIsValid | app/mcp/agents/audit_agent.py:93-95 | a same-type non-Point correction is valid |
| Corrections.CheckRequiredRule | app/mcp/agents/audit_agent.py:105-113 | the check passes exactly when no required property is removed or changed |
| Corrections.PropertiesRule | app/mcp/agents/audit_agent.py:97-115 | a properties correction is valid exactly when id, name and feature_type are kept |
| Corrections.OtherKeysIgnored | app/mcp/agents/audit_agent.py:105-113 | properties other than the required three do not affect the verdict |
| Corrections.GenericCheck | app/mcp/agents/audit_agent.py:117-125 | a valid verdict reports "Correction appears valid"; an invalid one reports no change |
| Corrections.UnchangedIsRejected | app/mcp/agents/audit_agent.py:121-125 | an unchanged feature is rejected |
| Corrections.ValidateCorrection | app/mcp/agents/audit_agent.py:19-61 | dispatches on the correction type; for any other type, valid exactly when the feature changed; echoes the feature id and type |
| Bounds.GetBoundsFromGeoJson | app/static/js/maplibre.js:251-315 | no bounds without data; returned bounds keep none of the four sentinel values |
| Bounds.ProcessIsFold | app/static/js/maplibre.js:259-293 | walking a geometry's nested coordinates equals folding its flat position list |
| Bounds.ScanIsFold | app/static/js/maplibre.js:295-308 | scanning a collection, feature or bare geometry folds all its positions from the sentinel |
| Bounds.FeatureCollectionUnion | app/static/js/maplibre.js:296-299 | the box of a concatenated collection is the union of the two boxes |
| Bounds.HullIsTight | app/static/js/maplibre.js:259-293 | the hull encloses every position and each edge is attained by one |
| Bounds.GetBoundsCorrected | app/static/js/maplibre.js:251-315 | no bounds exactly when there is no position; otherwise an ordered box enclosing every position |
| Bounds.AsWrittenIsSentinelTested | app/static/js/maplibre.js:310-312 | the function as written is the corrected bounds with any sentinel-valued box dropped |
| Bounds.BoundsEnclose | app/static/js/maplibre.js:251-315 | returned bounds enclose every position of the input |
| Bounds.AntimeridianPointHasNoBounds | app/static/js/maplibre.js:254-257 | a Point at longitude 180 gets no bounds as written, but its own box when corrected |
| Bounds.GetBoundsFromCoordinates | app/static/js/maplibre.js:461-477 | null exactly for a missing or empty list; otherwise encloses every position, and is the exact hull for on-earth positions |
| Tiles.SimplificationTenths | services/terra_map/tiles.py:287-308 | the tolerance is one of 0.1, 1, 5, 10 and 20 |
| Tiles.SimplificationMonotone | services/terra_map/tiles.py:299-308 | the tolerance never grows with the zoom level; it is 0.1 from zoom 15 and 20 below zoom 6 |
| Tiles.SimplificationTextAgrees | services/terra_map/tiles.py:299-308 | the printed tolerance is the decimal of the tenths count |
| Tiles.Kept | services/terra_map/tiles.py:84-85 | exactly the rows with a geometry, drawn from the input; a single row is kept iff its geometry is truthy |
| Tiles.KeptAppend | services/terra_map/tiles.py:81-85 | filtering a concatenation filters each part, so with the one-row case the result is the rows with a geometry in query order, duplicates kept |
| Tiles.FeatureOf | services/terra_map/tiles.py:87-99 | a feature carries the row's feature id and the decoded geometry text |
| Tiles.ColumnsOverrideProperties | services/terra_map/tiles.py:89-96 | the row's columns override same-named stored properties, and other stored properties are kept |
| Tiles.Features | services/terra_map/tiles.py:82-99 | succeeds exactly when every row becomes a feature; one feature per row, in order, each that row's feature; an error is the error of the first row that fails |
| Tiles.KeptIdempotent | services/terra_map/tiles.py:84-85 | filtering out the rows without a geometry twice is the same as once |
| Tiles.EmptyGeometryRowsSkipped | services/terra_map/tiles.py:84-85 | dropping the rows without a geometry leaves the tile unchanged |
| Tiles.GetVectorTile | services/terra_map/tiles.py:77-105 | a failed query raises with its message; a successful one succeeds exactly when its rows assemble, with the assembly's error otherwise; the tile carries the bbox and the assembled features |
| Agents.NewAgent | services/ai_agents/__init__.py:22-34 | a new agent carries its id, type and description, with no capabilities |
| Agents.RegisterCapability | services/ai_agents/__init__.py:51-62 | appends one capability at the end and keeps the rest |
| Agents.CapabilitiesInOrder | services/ai_agents/__init__.py:59-71 | the capabilities are listed in registration order |
| Agents.Find | services/ai_agents/agent_manager.py:58-61 | the position of the agent with that id, or none if no agent has it |
| Agents.Register | services/ai_agents/agent_manager.py:51-62 | a new id is appended; a known id replaces its agent in place; other agents are kept |
| Agents.GetAgent | services/ai_agents/agent_manager.py:64-74 | finds the registered agent with that id, or none exactly when no agent has it |
| Agents.RegisterThenGet | services/ai_agents/agent_manager.py:51-74 | after registering an agent it is found by its id, and lookups of other ids are unchanged |
| Agents.GetAgentsByType | services/ai_agents/agent_manager.py:76-86 | exactly the registered agents of that type |
| Agents.RegisterNewByType | services/ai_agents/agent_manager.py:51-86 | registering a new agent appends it to its type's list and to no other |
| Agents.ProcessWithAgent | services/ai_agents/agent_manager.py:114-135 | an unknown id fails with "Agent not found: …"; a known one dispatches with the given options |
| Agents.ProcessWithAgentType | services/ai_agents/agent_manager.py:137-159 | fails exactly when no agent has the type; otherwise dispatches to the first registered agent of it |
| Agents.ProcessWithBestAgent | services/ai_agents/agent_manager.py:161-197 | fails exactly when no agent has the capability; otherwise dispatches to the first that has it, with the capability added to the options |
| Agents.Initialize | services/ai_agents/agent_manager.py:26-49 | an initialized manager is left alone; otherwise the factories' agents are registered up to the first that raises, whose error is re-raised, and the manager is initialized exactly when none raised |
| Agents.RegisterUntilError | services/ai_agents/agent_manager.py:33-42 | registers in order until the first factory that raises and reports its error; no error exactly when every factory built; earlier agents stay registered |
| Agents.InitializeIdempotent | services/ai_agents/agent_manager.py:30-31 | after a successful initialisation, another call changes nothing and raises nothing |
| Agents.InitializeRetriesAfterFailure | services/ai_agents/agent_manager.py:33-49 | after a failed initialisation the manager is still uninitialized, so a later call with working factories registers them all and initializes it, keeping what the first call registered |

## Left out

- Databases and files are out of scope: SQLAlchemy sessions, PostGIS queries and file writes. The model takes a query result, a lookup map or a connector function instead, and a connector's error text stands for the raised exception.
- Floating point is not modelled. Coordinates are integers, and the tile tolerance is counted in tenths.
- Insight.ParseCoordinatesMeaning, Insight.CoordinatesToPoint and Wkt.WktToGeoJson: Python's `float()` (services/terra_insight/ai.py:468; app/mcp/tools/transform_tools.py:40,47,58) is read as `int()` on the stripped text. A decimal ("1.5"), an exponent ("1e3"), "inf", "nan", a digit group with underscores, or digits outside ASCII (Python's `float()` takes every Unicode decimal digit, so "POINT(\u0661 \u0662)" reads as POINT(1 2)) is reported as a failure here, where the source accepts it. The failure text quotes the piece in single quotes, where Python prints its repr: a piece holding `'` is shown in double quotes there, and backslashes and unprintable characters are escaped.
- Corrections.PointMoveRule: the Point move is compared as a squared distance against 1, not as `sqrt(dx²+dy²) > 1.0`. The same verdict follows, but the rejection message's float distance is not rendered: `ReasonText` has no text for `MovedTooFar`.
- Corrections.ValidateCorrection: an exception raised inside a check is the single `ValidationError` reason. Its message text is not modelled.
- Audit.StateChanges: Python's set iteration order over the union of property keys is a parameter (`keyOrder`). `PropertyDiff` holds for any order that lists each key once.
- Audit.FeatureHistory: the user and feature detail dictionaries attached to each entry are left out.
- Audit.RowsOf: the query's ordering by timestamp, newest first, is not modelled; the feature's rows are taken in log order, so the page holds rows of that feature but not necessarily the newest ones.
- Audit.Resolve: `str.isdigit` is modelled for ASCII digits only.
- Audit.IntColumn: the database's conversion into an integer column is modelled as an optional sign, surrounding whitespace and ASCII digits. The whitespace stripped is every character Python's `str.strip` removes, while PostgreSQL skips only ASCII blanks, so a value padded with a no-break space (U+00A0) is stored here where the database rejects it. PostgreSQL's other integer spellings (underscores, non-decimal prefixes) and its range limits are not modelled, and the error texts for non-string values stand for the driver's messages.
- Audit.CreateAuditLog: the database's own constraints on the new row are not modelled, so success here is success up to them. The user and feature columns are foreign keys to `users` and `spatial_features` (services/common/models.py:104-105), so an id naming no such row makes the insert raise. `action` and `entity_type` are `String(32)` columns and `ip_address` a `String(64)` column (services/common/models.py:99-100,106), so a longer text is rejected. A list or dict action or entity type cannot be adapted by the driver for a text column. Each of these raises in the source, and the model appends the entry.
- Audit.ApiRequestsAreLoggedCorrected: the same database constraints are not modelled. An action longer than 32 characters, or a digit user id naming no user, would make the corrected insert raise, and the request would go unlogged.
- Text.Upper: Python's `upper()` is modelled exactly for ASCII letters and for the seventeen non-ASCII characters whose upper-case form contains an ASCII letter (such as ß, ı and the ligatures ﬁ, ﬂ); every other character, such as é, is kept as it is. The keyword dispatch of Wkt.GeoJsonToWkt and Wkt.WktToGeoJson compares only against ASCII words, so its outcome is exact; but the "Unsupported GeoJSON type: " error of Wkt.GeoJsonToWkt prints the type as upper-cased here, so for the type "é" the source says "É" where the model says "é".
- Etl.ExecuteEtlJob: the job spec is typed here, while the source takes an unchecked dictionary whose endpoint checks only that `source` and `target` are present (services/terra_flow/app.py:31-49). Shapes on which the source's job ends failed are not representable: a null or non-dict `target_params` (the `.get` at services/terra_flow/etl.py:297 raises), a truthy non-dict `transformation` (etl.py:255) or `field_mappings` (the `.items()` at etl.py:257), and a list or dict source field, which is unhashable in the column test at etl.py:258.
- Etl.Transform: the transformation is an optional list of string pairs, so the failures of a truthy non-dict `transformation` or `field_mappings` and of an unhashable source field (services/terra_flow/etl.py:255-258) are not modelled; see the Etl.ExecuteEtlJob line above.
- Json.PyStr: Python's `str()` is modelled for null, booleans, integers and strings; a list renders as "[...]" and a dict as "{...}", not as Python's repr. The texts that embed such a value are therefore exact only for scalars: the feature id of EtlRecords.FeatureOfRow, the "Unsupported source"/"Unsupported target" errors of Etl.Extract and Etl.Load, the table name of Etl.LoadToPostgresql and the path of Etl.LoadToGeojson, the "Unsupported conversion" error of Insight.RunDataConvertAgent, the "Feature … not found" error of Insight.RunAuditAgent, the reasons of Corrections.ReasonText, and the query error of Tiles.GetVectorTile.
- Insight.AuditParamsOf: `required_fields` must be a list of strings and `bounds` a list of four integers. Any other shape is read as "not decoded", and the audit outcome is then the `unreadAudit` parameter of the agent world. The source reads these two only when their rule is enabled; the model reads them up front, so a malformed one in a disabled rule is also left to that parameter.
- Insight.RunAgent: the spatial-query and other agents' bodies (geopandas, the LLM client) are an `AgentWorld` parameter. Threads, the clock and `time.time()` are parameters too.
- EtlRecords.ApplyMappings: the `eval`-based field calculations and the buffer, simplify and centroid transforms are a `postMapping` connector, not modelled.
- Etl.SyncRecordsNameInsertedRows: covers only listed ids that are strings. The load lists the raw feature id (services/terra_flow/etl.py:314,333), which is an integer whenever the row's `feature_id` or `id` column holds one; only the stored record gets `str()` of it. Such integer listed ids, which the load does produce, are not covered. The database row id is modelled as the 1-based position of the record in the feature table.
- Etl.Extract: the three extractors (JCHARRISPACS client, shapefile, GeoJSON file) are connector functions.
- Bounds.GetBoundsFromGeoJson: malformed coordinates (JavaScript's NaN propagation through `Math.min`) are not modelled; positions are integer pairs. A feature whose `geometry` is null makes the source throw a TypeError (app/static/js/maplibre.js:298 and 303); here every feature has a geometry, so that throw is not modelled. The map DOM, layers and event handlers in the same file are not part of this model.
- Tiles.GetVectorTile: tile-to-bbox conversion (mercantile) and the SQL text are not modelled; the bbox is an input and `json.loads` is a `decode` parameter.
- Agents.Initialize: the six built-in agent factories are a `built` parameter, holding what each factory returned or the message of what it raised; the OpenAI and Anthropic agent bodies and the `get_agent_manager` singleton are not part of this model. The process request is modelled as the dispatch it makes (agent id and options), not the agent's own `process` body.
- Agents.ProcessWithBestAgent: the source writes the capability into the caller's own options dictionary (services/ai_agents/agent_manager.py:193-195), so the caller sees it afterwards. The model returns the dispatched options, equal to that mutated dictionary, but does not model the aliasing.
- Wkt.GeoJsonToWkt: the input is a typed `Geometry`, not a dictionary. A dictionary without a `type` or `coordinates` key stands as the geometry with `.get`'s defaults, the type "" and an empty coordinate list, so it takes the "Unsupported GeoJSON type: " error; that mapping is by convention and is not proved.
- Wkt.GeoJsonToWkt: a string argument, which the tool first reads with `json.loads` (app/mcp/tools/transform_tools.py:82-83), is not modelled; a string that is no JSON, or JSON that is no object, is not covered.
- Wkt.LineStringRoundTrip: requires a non-empty path. An empty LineString writes `LINESTRING()`, which does not read back.

## Findings

| source | as written | input that shows it | evidently intended | confidence | as-written member | corrected member |
|---|---|---|---|---|---|---|
| app/mcp/tools/transform_tools.py:50-61 | the WKT reader splits polygon rings on `"),("` but the writer at lines 104-112 joins them with `"), ("` | the GeoJSON Polygon with an outer ring and one hole; its WKT fails to read back with "could not convert string to float" | rings split on the writer's separator, so every written Polygon reads back | not executed | Wkt.HolesDoNotRoundTrip | Wkt.CorrectedPolygonRoundTrip |
| app/static/js/maplibre.js:310-312 | a box in which any of the four running values still equals its starting sentinel (180, 90, -180, -90) is read as "nothing visited" and returns null | a bare Point at [180, lat]: its box is never moved off the sentinel on minLng | null only when no position was visited | not executed | Bounds.AntimeridianPointHasNoBounds | Bounds.GetBoundsCorrected |
| services/terra_audit/audit.py:355 | `log_api_request` passes entity_id 0, which the falsy check at line 31 rejects; the error is swallowed | any API request | the request is logged with entity id 0 | not executed | Audit.ApiRequestsAreNeverLogged | Audit.ApiRequestsAreLoggedCorrected |
