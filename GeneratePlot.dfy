/** Stage 5's plot, visualize_transits_module/scripts/generate_plot.py: read a result
    record, pull out its four metrics and save a bar chart of them next to the module's
    data. Reading the file, drawing and saving are outside the model: the parsed JSON
    (or None when it cannot be read), whether the path exists and whether saving
    succeeded are parameters. */
module GeneratePlot {
  import opened Values
  import opened PyStr
  import opened TransitDetection

  /** The record keys the plot reads, and the bar labels, in plotting order. */
  const MetricKeys: seq<string> := ["period", "duration", "depth", "power"]
  const MetricLabels: seq<string> := ["Period", "Duration", "Depth", "Power"]

  /** The default `results.get(key, 0)` supplies for a missing key. */
  const Zero: Json := JNum(Num(0.0))

  /** `results.get(key, 0)`. */
  function Metric(fields: map<string, Json>, key: string): Json {
    if key in fields then fields[key] else Zero
  }

  /** `values = [period, duration, depth, power]`. */
  function MetricValues(fields: map<string, Json>): (vs: seq<Json>)
    ensures |vs| == |MetricLabels| == |MetricKeys|
    ensures forall i :: 0 <= i < |vs| ==> vs[i] == Metric(fields, MetricKeys[i])
  {
    [Metric(fields, "period"), Metric(fields, "duration"), Metric(fields, "depth"), Metric(fields, "power")]
  }

  /** Each bar shows the record's value under its key, or 0 when the key is missing;
      a key present with `null` keeps its `null`. */
  lemma MetricDefaults(fields: map<string, Json>, i: nat)
    requires i < |MetricKeys|
    ensures MetricKeys[i] in fields ==> MetricValues(fields)[i] == fields[MetricKeys[i]]
    ensures MetricKeys[i] !in fields ==> MetricValues(fields)[i] == Zero
    ensures MetricKeys[i] in fields && fields[MetricKeys[i]] == JNull ==> MetricValues(fields)[i] == JNull
  {
  }

  /** The record the detector writes on failure, `{}`, plots four zeros. */
  lemma EmptyRecordPlotsZeros()
    ensures MetricValues(map[]) == [Zero, Zero, Zero, Zero]
  {
  }

  /** A detector record plots the period, duration, depth and power of the grid point
      it describes, in that order. */
  lemma CandidatePlotsItsFields(g: BlsResults, k: nat)
    requires k < |g.period| && k < |g.duration| && k < |g.depth| && k < |g.power|
    ensures MetricValues(Candidate(g, k)) ==
      [Real(g.period[k]), Real(g.duration[k]), Real(g.depth[k]), Real(g.power[k])]
  {
  }

  /** The directory the chart is saved in. */
  const MetricsDir: string := "visualize_transits_module/data"

  /** The chart's path: the record file's basename with `_results.json` replaced by
      `_metrics.png`, inside the module's data directory. */
  function MetricsPath(resultsPath: string): string {
    Join(Join("visualize_transits_module", "data"),
         Replace(Basename(resultsPath), "_results.json", "_metrics.png"))
  }

  /** `_results.json` has one `.`, at position 8, and no `/`. */
  lemma ResultsSuffix()
    ensures '/' !in "_results.json" && "_results.json"[8] == '.'
    ensures forall j :: 0 <= j < |"_results.json"| && j != 8 ==> "_results.json"[j] != '.'
  {
  }

  /** `<stem>_results.json` becomes `<stem>_metrics.png` when the stem has no `.`. */
  lemma ChartName(stem: string)
    requires '.' !in stem
    ensures Replace(stem + "_results.json", "_results.json", "_metrics.png") == stem + "_metrics.png"
  {
    ResultsSuffix();
    ReplaceMarkedSuffix(stem, "_results.json", "_metrics.png", 8);
  }

  /** A record file `<stem>_results.json` whose stem has no `.` charts as
      `visualize_transits_module/data/<stem>_metrics.png`. */
  lemma MetricsOfResultsFile(dir: string, stem: string)
    requires '.' !in stem && '/' !in stem
    ensures MetricsPath(Join(dir, stem + "_results.json")) == MetricsDir + "/" + stem + "_metrics.png"
  {
    ResultsSuffix();
    RenamedInDir(dir, stem, "_results.json", "_metrics.png", 8);
    MetricsDirIsRelative();
    JoinTemplate(MetricsDir, stem, "_metrics.png");
  }

  lemma MetricsDirIsRelative()
    ensures Join("visualize_transits_module", "data") == MetricsDir
    ensures MetricsDir[|MetricsDir| - 1] != '/' && "_metrics.png"[0] != '/'
  {
  }

  /** A chart, as far as the pipeline sees it: where it was saved, its labels and the
      values plotted against them. */
  datatype Chart = Chart(outputPath: string, labels: seq<string>, values: seq<Json>)

  /** Every way `generate_visualization` raises: each is logged and re-raised. */
  datatype PlotError =
    | LoadFailed    // the file could not be opened or parsed
    | NotAnObject   // the JSON is not an object: `.get` raises AttributeError
    | SaveFailed    // makedirs or any of the matplotlib calls raised

  /** `generate_visualization(results_path)`; `loaded` is the parsed file or None. */
  function GenerateVisualization(resultsPath: string, loaded: Option<Json>, saved: bool)
    : (r: Result<Chart, PlotError>)
    ensures r.Ok? <==> loaded.Some? && loaded.value.JObject? && saved
    ensures loaded.None? ==> r == Err(LoadFailed)
    ensures r.Ok? ==>
      r.value.outputPath == MetricsPath(resultsPath) && r.value.labels == MetricLabels &&
      r.value.values == MetricValues(loaded.value.fields)
  {
    match loaded
    case None => Err(LoadFailed)
    case Some(doc) =>
      if !doc.JObject? then Err(NotAnObject)
      else if !saved then Err(SaveFailed)
      else Ok(Chart(MetricsPath(resultsPath), MetricLabels, MetricValues(doc.fields)))
  }

  /** The exit status of `python generate_plot.py <results_path>`. `argv` is
      `sys.argv`, program name included; `present` is `os.path.exists(argv[1])`. An
      exception re-raised by `generate_visualization` ends the interpreter with status 1. */
  function PlotExitCode(argv: seq<string>, present: bool, loaded: Option<Json>, saved: bool): (code: int)
    ensures code == 0 || code == 1
    ensures |argv| != 2 ==> code == 1
    ensures |argv| == 2 && !present ==> code == 1
    ensures code == 0 <==> |argv| == 2 && present && GenerateVisualization(argv[1], loaded, saved).Ok?
  {
    if |argv| != 2 then 1
    else if !present then 1
    else match GenerateVisualization(argv[1], loaded, saved)
      case Err(_) => 1
      case Ok(_) => 0
  }
}
