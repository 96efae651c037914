/** Stage 5's publisher, visualize_transits_module/scripts/db_writer.py: for one star,
    check that its three artifacts exist, upload the two images to object storage and
    insert the result record into the database. The storage client, the database and
    the file system are outside the model: what they do is described by a `SinkEnv`,
    and the script's effects are an event trace. */
module DbWriter {
  import opened Values
  import opened PyStr

  /** The directories the artifacts are looked for in, relative to the working
      directory. */
  const ProcessedDir: string := "Process_Light_Curve_Module/data/processed"
  const VisualizeDataDir: string := "visualize_transits_module/data"
  const ResultsDir: string := "Analyze_Module/results"

  /** The artifact paths for a star ID. */
  function ProcessedPngPath(ticId: string): string {
    ProcessedDir + "/" + ticId + "_processed.png"
  }

  function MetricsPngPath(ticId: string): string {
    VisualizeDataDir + "/" + ticId + "_processed_metrics.png"
  }

  function ResultsJsonPath(ticId: string): string {
    ResultsDir + "/" + ticId + "_processed_results.json"
  }

  /** The object names the two images are uploaded under. */
  function ProcessedObjectName(ticId: string): string {
    ticId + "_processed.png"
  }

  function MetricsObjectName(ticId: string): string {
    ticId + "_processed_metrics.png"
  }

  /** What the environment does when the script runs. */
  datatype SinkEnv = SinkEnv(
    present: string -> bool,          // os.path.exists
    processedBucket: Option<string>,  // MINIO_BUCKET_PROCESSED, None when unset
    visualizeBucket: Option<string>,  // MINIO_BUCKET_VISUALIZE, None when unset
    clientOk: bool,                   // building the MinIO client succeeds
    processedPut: bool,               // fput_object of the processed image succeeds
    metricsPut: bool,                 // fput_object of the metrics image succeeds
    results: Option<Json>,            // the parsed results file, None when unreadable
    dbOk: bool)                       // connect, execute and commit succeed

  /** `upload_to_minio(bucket, file_path, object_name)`: True only once the put has
      happened; False for a client error, a missing file, an unset bucket or a failed
      put. */
  function UploadToMinio(bucket: Option<string>, filePath: string, clientOk: bool,
                         present: string -> bool, putOk: bool): (ok: bool)
    ensures ok ==> present(filePath) && bucket.Some?
    ensures !clientOk || !putOk ==> !ok
    ensures clientOk && present(filePath) && bucket.Some? && putOk ==> ok
  {
    clientOk && present(filePath) && bucket.Some? && putOk
  }

  /** The row `insert_results_into_oracle` binds. */
  datatype Row = Row(starId: string, period: Json, duration: Json, depth: Json, power: Json)

  /** The binding of the insert: the star ID and the record's four fields, unchanged;
      None when the record is not an object or lacks one of them (the lookup raises). */
  function BindInsert(starId: string, data: Json): (r: Option<Row>)
    ensures r.Some? <==>
      data.JObject? && "period" in data.fields && "duration" in data.fields &&
      "depth" in data.fields && "power" in data.fields
    ensures r.Some? ==>
      r.value.starId == starId && r.value.period == data.fields["period"] &&
      r.value.duration == data.fields["duration"] && r.value.depth == data.fields["depth"] &&
      r.value.power == data.fields["power"]
  {
    match data
    case JObject(f) =>
      if "period" in f && "duration" in f && "depth" in f && "power" in f then
        Some(Row(starId, f["period"], f["duration"], f["depth"], f["power"]))
      else None
    case _ => None
  }

  /** `insert_results_into_oracle(star_id, result_data)`: True once committed. */
  function InsertResults(starId: string, data: Json, dbOk: bool): (ok: bool)
    ensures ok ==> (data.JObject? && "period" in data.fields && "duration" in data.fields &&
                    "depth" in data.fields && "power" in data.fields)
    ensures !dbOk ==> !ok
    ensures ok <== dbOk && BindInsert(starId, data).Some?
  {
    dbOk && BindInsert(starId, data).Some?
  }

  /** The detector's failure record `{}` is never inserted. */
  lemma EmptyRecordNeverInserted(starId: string, dbOk: bool)
    ensures BindInsert(starId, JObject(map[])).None?
    ensures !InsertResults(starId, JObject(map[]), dbOk)
  {
  }

  datatype DbEvent =
    | MissingFile(path: string)                              // logged, then main returns
    | Uploaded(bucket: Option<string>, objectName: string, path: string, ok: bool)
    | ResultsUnreadable(path: string)                        // open or json.load raised
    | Inserted(row: Option<Row>, committed: bool)

  /** What the script does, in order: nothing when no ID is given (`sys.argv[1]` raises
      while the module loads); the first missing artifact, checked in the order
      processed image, metrics image, results file; otherwise both uploads and then the
      insert, whatever the uploads returned. */
  function DbWriterEvents(argv: seq<string>, env: SinkEnv): seq<DbEvent> {
    if |argv| < 2 then []
    else
      var id := argv[1];
      var png, metrics, results := ProcessedPngPath(id), MetricsPngPath(id), ResultsJsonPath(id);
      if !env.present(png) then [MissingFile(png)]
      else if !env.present(metrics) then [MissingFile(metrics)]
      else if !env.present(results) then [MissingFile(results)]
      else
        [Uploaded(env.processedBucket, ProcessedObjectName(id), png,
                  UploadToMinio(env.processedBucket, png, env.clientOk, env.present, env.processedPut)),
         Uploaded(env.visualizeBucket, MetricsObjectName(id), metrics,
                  UploadToMinio(env.visualizeBucket, metrics, env.clientOk, env.present, env.metricsPut))] +
        (match env.results
         case None => [ResultsUnreadable(results)]
         case Some(data) => [Inserted(BindInsert(id, data), InsertResults(id, data, env.dbOk))])
  }

  /** Running `db_writer.py` with `sys.argv == argv`: `main()` checks, uploads and
      inserts step by step, returning early on the first missing file. */
  method DbWriterMain(argv: seq<string>, env: SinkEnv) returns (trace: seq<DbEvent>)
    ensures trace == DbWriterEvents(argv, env)
  {
    trace := [];
    if |argv| < 2 {
      return;
    }
    var ticId := argv[1];
    var png, metrics, results := ProcessedPngPath(ticId), MetricsPngPath(ticId), ResultsJsonPath(ticId);
    if !env.present(png) {
      trace := trace + [MissingFile(png)];
      return;
    }
    if !env.present(metrics) {
      trace := trace + [MissingFile(metrics)];
      return;
    }
    if !env.present(results) {
      trace := trace + [MissingFile(results)];
      return;
    }
    var ok := UploadToMinio(env.processedBucket, png, env.clientOk, env.present, env.processedPut);
    trace := trace + [Uploaded(env.processedBucket, ProcessedObjectName(ticId), png, ok)];
    ok := UploadToMinio(env.visualizeBucket, metrics, env.clientOk, env.present, env.metricsPut);
    trace := trace + [Uploaded(env.visualizeBucket, MetricsObjectName(ticId), metrics, ok)];
    if env.results.None? {
      trace := trace + [ResultsUnreadable(results)];
      return;
    }
    var data := env.results.value;
    var committed := InsertResults(ticId, data, env.dbOk);
    trace := trace + [Inserted(BindInsert(ticId, data), committed)];
  }

  /** The existence gate: nothing is uploaded or inserted unless all three artifacts
      exist, and the first missing one, in the order processed image, metrics image,
      results file, ends the run with that single report. */
  lemma SinksOnlyAfterGate(argv: seq<string>, env: SinkEnv)
    requires |argv| >= 2
    ensures var id := argv[1]; var t := DbWriterEvents(argv, env);
      (exists k :: 0 <= k < |t| && !t[k].MissingFile?) <==>
        env.present(ProcessedPngPath(id)) && env.present(MetricsPngPath(id)) && env.present(ResultsJsonPath(id))
    ensures var t := DbWriterEvents(argv, env);
      (exists k :: 0 <= k < |t| && t[k].MissingFile?) ==> |t| == 1
    ensures var id := argv[1]; var t := DbWriterEvents(argv, env);
      (!env.present(ProcessedPngPath(id)) ==> t == [MissingFile(ProcessedPngPath(id))]) &&
      (env.present(ProcessedPngPath(id)) && !env.present(MetricsPngPath(id)) ==>
         t == [MissingFile(MetricsPngPath(id))]) &&
      ((env.present(ProcessedPngPath(id)) && env.present(MetricsPngPath(id)) &&
        !env.present(ResultsJsonPath(id))) ==> t == [MissingFile(ResultsJsonPath(id))])
  {
    var t := DbWriterEvents(argv, env);
    if |t| > 1 {
      assert !t[0].MissingFile?;
    }
  }

  /** With the gate passed the two uploads come first, in order, and the file check
      inside each upload cannot fail; then comes one insert attempt, or the report of
      an unreadable results file. */
  lemma UploadsThenInsert(argv: seq<string>, env: SinkEnv)
    requires |argv| >= 2
    requires var id := argv[1];
      env.present(ProcessedPngPath(id)) && env.present(MetricsPngPath(id)) && env.present(ResultsJsonPath(id))
    ensures var id := argv[1]; var t := DbWriterEvents(argv, env);
      |t| == 3 && t[0].Uploaded? && t[0].path == ProcessedPngPath(id) && t[1].Uploaded? &&
      t[1].path == MetricsPngPath(id) &&
      (t[0].ok <==> env.clientOk && env.processedBucket.Some? && env.processedPut) &&
      (t[1].ok <==> env.clientOk && env.visualizeBucket.Some? && env.metricsPut) &&
      (env.results.None? ==> t[2] == ResultsUnreadable(ResultsJsonPath(id))) &&
      (env.results.Some? ==>
         t[2].Inserted? && t[2].row == BindInsert(id, env.results.value) &&
         (t[2].committed <==> env.dbOk && BindInsert(id, env.results.value).Some?))
  {
  }

  /** The insert does not depend on the uploads: two runs that differ only in what the
      storage does end in the same insert attempt. */
  lemma InsertIgnoresUploads(argv: seq<string>, env1: SinkEnv, env2: SinkEnv)
    requires |argv| >= 2
    requires env1.present == env2.present && env1.results == env2.results && env1.dbOk == env2.dbOk
    requires var id := argv[1];
      env1.present(ProcessedPngPath(id)) && env1.present(MetricsPngPath(id)) && env1.present(ResultsJsonPath(id))
    ensures |DbWriterEvents(argv, env1)| == |DbWriterEvents(argv, env2)| == 3
    ensures DbWriterEvents(argv, env1)[2] == DbWriterEvents(argv, env2)[2]
  {
  }

  /** Uploaded objects are named after the files' basenames. */
  lemma ObjectNamesAreBasenames(ticId: string)
    requires '/' !in ticId
    ensures Basename(ProcessedPngPath(ticId)) == ProcessedObjectName(ticId)
    ensures Basename(MetricsPngPath(ticId)) == MetricsObjectName(ticId)
  {
    DirsAreRelative();
    NotInConcat('/', ticId, "_processed.png");
    JoinTemplate(ProcessedDir, ticId, "_processed.png");
    BasenameOfJoin(ProcessedDir, ProcessedObjectName(ticId));
    NotInConcat('/', ticId, "_processed_metrics.png");
    JoinTemplate(VisualizeDataDir, ticId, "_processed_metrics.png");
    BasenameOfJoin(VisualizeDataDir, MetricsObjectName(ticId));
  }

  /** The three directories have no trailing `/`, and the name suffixes no `/` at all. */
  lemma DirsAreRelative()
    ensures ProcessedDir != [] && ProcessedDir[|ProcessedDir| - 1] != '/'
    ensures VisualizeDataDir != [] && VisualizeDataDir[|VisualizeDataDir| - 1] != '/'
    ensures ResultsDir != [] && ResultsDir[|ResultsDir| - 1] != '/'
    ensures '/' !in "_processed.png" && '/' !in "_processed_metrics.png"
  {
  }
}
