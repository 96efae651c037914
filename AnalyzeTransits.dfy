/** Stage 4's driver, Analyze_Module/scripts/analyze_transits.py: check, read and mask
    one processed light curve, gate it on a minimum sample count, run the detector and
    write the result record; and the script's loop over a directory, which hands every
    written record to the visualization stage. File reads, the BLS search, the JSON
    write and the child process are outcome parameters. */
module AnalyzeTransits {
  import opened Values
  import opened PyStr
  import opened LightCurve
  import opened TransitDetection

  /** The fewest valid samples the analysis accepts. */
  const MinSamples: nat := 10

  /** What the environment supplies for one processed file. */
  datatype FileEnv = FileEnv(
    present: bool,            // os.path.exists(file_path)
    columns: Option<Series>,  // TIME, PDCSAP_FLUX, PDCSAP_FLUX_ERR, or None if reading raised
    search: Option<BlsResults>, // what the BLS search returns, or None if it raised
    written: bool)            // makedirs and the JSON write succeeded

  /** Every way `analyze_transit` returns False. */
  datatype AnalyzeError =
    | FileMissing
    | ReadFailed
    | ShapeMismatch          // columns numpy cannot mask together
    | TooFewSamples(count: nat)
    | DetectorCallFailed     // the exception raised by the call to run_bls
    | WriteFailed

  /** A successful analysis: where the record was written, and the record. */
  datatype Analysis = Analysis(resultsPath: string, record: Record)

  /** The results path: the file's basename with `.fits` replaced by `_results.json`,
      inside the output directory. */
  function ResultsPath(filePath: string, outputDir: string): string {
    Join(outputDir, Replace(Basename(filePath), ".fits", "_results.json"))
  }

  /** The steps of `analyze_transit` before detection: existence, reading, the NaN mask
      and the minimum-sample gate; the masked series on success. */
  function Gate(env: FileEnv): (r: Result<Series, AnalyzeError>)
    ensures r.Ok? ==> Aligned(r.value) && Clean(r.value) && |r.value.time| >= MinSamples
    ensures r.Ok? ==> env.columns.Some? && Aligned(env.columns.value) && r.value == Mask(env.columns.value)
    ensures r.Ok? <==> (env.present && env.columns.Some? && Aligned(env.columns.value) &&
                        ValidCount(env.columns.value) >= MinSamples)
    ensures (env.present && env.columns.Some? && Aligned(env.columns.value) &&
             ValidCount(env.columns.value) < MinSamples) ==>
      r == Err(TooFewSamples(ValidCount(env.columns.value)))
  {
    if !env.present then Err(FileMissing)
    else match env.columns
      case None => Err(ReadFailed)
      case Some(s) =>
        if !Aligned(s) then Err(ShapeMismatch)
        else
          MaskKeepsValidSamples(s);
          MaskIsClean(s);
          var masked := Mask(s);
          if |masked.time| < MinSamples then Err(TooFewSamples(|masked.time|)) else Ok(masked)
  }

  /** `analyze_transit` as written: line 64 passes four arguments to the three-parameter
      `run_bls`, so every file that passes the gate ends in the TypeError handler. */
  function AnalyzeTransitAsWritten(filePath: string, outputDir: string, env: FileEnv)
    : (r: Result<Analysis, AnalyzeError>)
    ensures r.Err?
    ensures Gate(env).Err? ==> r.error == Gate(env).error
    ensures Gate(env).Ok? ==> r.error == DetectorCallFailed
  {
    match Gate(env)
    case Err(e) => Err(e)
    case Ok(_) => Err(DetectorCallFailed)
  }

  /** `analyze_transit` with the evidently intended call `run_bls(time, flux, flux_err)`:
      the gated, masked series goes to the detector, and its record to the results path. */
  function AnalyzeTransit(filePath: string, outputDir: string, env: FileEnv): (r: Result<Analysis, AnalyzeError>)
    ensures !env.present ==> r == Err(FileMissing)
    ensures r.Ok? <==> Gate(env).Ok? && env.written
    ensures r.Ok? ==> r.value.resultsPath == ResultsPath(filePath, outputDir)
    ensures r.Ok? ==> r.value.record == RunBls(Gate(env).value.time, Gate(env).value.flux,
                                               Gate(env).value.fluxErr, env.search)
  {
    match Gate(env)
    case Err(e) => Err(e)
    case Ok(s) =>
      if !env.written then Err(WriteFailed)
      else Ok(Analysis(ResultsPath(filePath, outputDir), RunBls(s.time, s.flux, s.fluxErr, env.search)))
  }

  /** The discrepancy: on every file that passes the gate and could be written, the
      code as written fails where the intended call succeeds; no file ever succeeds. */
  lemma AsWrittenRejectsEveryGatedFile(filePath: string, outputDir: string, env: FileEnv)
    ensures AnalyzeTransitAsWritten(filePath, outputDir, env).Err?
    ensures Gate(env).Ok? && env.written ==>
      AnalyzeTransitAsWritten(filePath, outputDir, env) == Err(DetectorCallFailed) &&
      AnalyzeTransit(filePath, outputDir, env).Ok?
  {
  }

  /** The gate at its boundary: nine valid samples are rejected, ten go on. */
  lemma MinimumSampleBoundary(env: FileEnv)
    requires env.present && env.columns.Some? && Aligned(env.columns.value)
    ensures ValidCount(env.columns.value) == 9 ==> Gate(env) == Err(TooFewSamples(9))
    ensures ValidCount(env.columns.value) == 10 ==> Gate(env).Ok? && |Gate(env).value.time| == 10
  {
    MaskKeepsValidSamples(env.columns.value);
  }

  /** Past the gate the detector's own empty-input and length guards cannot fire: the
      record is empty exactly when the search raised or has no usable best index. */
  lemma RecordEmptyOnlyOnSearchFailure(filePath: string, outputDir: string, env: FileEnv)
    requires AnalyzeTransit(filePath, outputDir, env).Ok?
    ensures AnalyzeTransit(filePath, outputDir, env).value.record == map[] <==>
      env.search.None? || !Selectable(env.search.value)
  {
  }

  /** `ID_processed.fits` yields `ID_processed_results.json` in the output directory. */
  lemma ResultsOfProcessedFile(dir: string, id: string, outputDir: string)
    requires '.' !in id && '/' !in id
    ensures ResultsPath(Join(dir, id + "_processed.fits"), outputDir) ==
            Join(outputDir, id + "_processed_results.json")
  {
    var stem := id + "_processed";
    ProcessedSuffix();
    NotInConcat('.', id, "_processed");
    NotInConcat('/', id, "_processed");
    FitsSuffix();
    RenamedInDir(dir, stem, ".fits", "_results.json", 0);
    Associative(id, "_processed", ".fits");
    Associative(id, "_processed", "_results.json");
  }

  /** The literals the processed-file names are built from. */
  lemma ProcessedSuffix()
    ensures '.' !in "_processed" && '/' !in "_processed"
    ensures "_processed" + ".fits" == "_processed.fits"
    ensures "_processed" + "_results.json" == "_processed_results.json"
  {
  }

  /** The environment of `trigger_visualize(results_path)`. */
  datatype VisualizeEnv = VisualizeEnv(
    scriptPresent: bool,  // visualize_transits_module/scripts/generate_plot.py exists
    run: RunOutcome)      // how the child process started with check=True ended

  /** `trigger_visualize`: Some(True) when the script exists and the child process
      exited 0; Some(False) when the script is missing (no child is started) or the
      child exited non-zero; None when starting it raised anything else: only
      `CalledProcessError` is caught, so that exception leaves the function. */
  function TriggerVisualize(v: VisualizeEnv): (r: Option<bool>)
    ensures r == Some(true) <==> v.scriptPresent && v.run == ExitedZero
    ensures r.None? <==> v.scriptPresent && v.run == LaunchRaised
  {
    if !v.scriptPresent then Some(false)
    else match v.run
      case ExitedZero => Some(true)
      case ExitedNonZero => Some(false)
      case LaunchRaised => None
  }

  /** Configuration entries the main block reads; None when the file is missing or
      unparseable. */
  datatype AnalyzeConfig = AnalyzeConfig(processedFitsPath: string, outputDir: string)

  datatype AnalyzeEvent =
    | Analyzed(path: string, ok: bool)
    | Visualized(resultsPath: string, ok: bool)
    | VisualizeRaised(resultsPath: string)  // the exception that ends the script

  /** An event of the visualization hand-off, returned or raised. */
  predicate IsVisualize(e: AnalyzeEvent) {
    e.Visualized? || e.VisualizeRaised?
  }

  /** A trace that ends with an escaped exception: the script stops there. */
  predicate Halted(t: seq<AnalyzeEvent>) {
    t != [] && t[|t| - 1].VisualizeRaised?
  }

  /** The hand-off event for a results path and what `trigger_visualize` did. */
  function HandOff(resultsPath: string, triggered: Option<bool>): AnalyzeEvent {
    if triggered.Some? then Visualized(resultsPath, triggered.value) else VisualizeRaised(resultsPath)
  }

  /** What the main loop does for one listed name, given whether its analysis
      succeeded and what the visualization trigger would do. */
  function StepEvents(dir: string, outputDir: string, name: string, analysed: bool, triggered: Option<bool>)
    : seq<AnalyzeEvent>
  {
    if !EndsWith(name, ".fits") then []
    else
      var path := Join(dir, name);
      if analysed then
        [Analyzed(path, true), HandOff(Join(outputDir, Replace(name, ".fits", "_results.json")), triggered)]
      else [Analyzed(path, false)]
  }

  /** The step for the listed name at position `i`, with the corrected `AnalyzeTransit`
      (as written, no analysis succeeds, so no step would hand off). */
  function StepAt(dir: string, outputDir: string, name: string, i: nat,
                  files: nat -> FileEnv, vis: nat -> VisualizeEnv): seq<AnalyzeEvent>
  {
    StepEvents(dir, outputDir, name, AnalyzeTransit(Join(dir, name), outputDir, files(i)).Ok?,
               TriggerVisualize(vis(i)))
  }

  /** The shape of one step: nothing for a non-`.fits` name; otherwise one Analyzed
      event for the file, followed, on success only, by one hand-off event, which halts
      the script exactly when the trigger raised. */
  lemma StepShape(dir: string, outputDir: string, name: string, analysed: bool, triggered: Option<bool>)
    ensures var s := StepEvents(dir, outputDir, name, analysed, triggered);
      (!EndsWith(name, ".fits") ==> s == []) &&
      (EndsWith(name, ".fits") ==>
        s[0] == Analyzed(Join(dir, name), s[0].ok) &&
        (|s| == 1 || (|s| == 2 && s[0].ok && IsVisualize(s[1]) &&
                      s[1].resultsPath == Join(outputDir, Replace(name, ".fits", "_results.json"))))) &&
      (EndsWith(name, ".fits") ==>
        s[0].ok == analysed && (analysed <==> |s| == 2) &&
        (analysed ==> s[1] == HandOff(Join(outputDir, Replace(name, ".fits", "_results.json")), triggered))) &&
      (Halted(s) <==> EndsWith(name, ".fits") && analysed && triggered.None?) &&
      AnalyzedPaths(s) == (if EndsWith(name, ".fits") then [Join(dir, name)] else [])
  {
    var s := StepEvents(dir, outputDir, name, analysed, triggered);
    if |s| == 2 {
      assert s[..1] == [s[0]];
      assert s[..1][..0] == [];
      assert AnalyzedPaths(s[..1]) == AnalyzedPaths([]) + [s[0].path];
      assert AnalyzedPaths(s) == AnalyzedPaths(s[..1]);
    } else if |s| == 1 {
      assert s[..0] == [];
    }
  }

  /** As written, no analysis succeeds, so a step never hands anything to the plot
      stage. */
  lemma AsWrittenNeverHandsOff(dir: string, outputDir: string, name: string, env: FileEnv,
                               triggered: Option<bool>)
    ensures var s := StepEvents(dir, outputDir, name,
                                AnalyzeTransitAsWritten(Join(dir, name), outputDir, env).Ok?, triggered);
      forall k :: 0 <= k < |s| ==> !IsVisualize(s[k])
  {
  }

  /** The events of the main loop over the first |names| listed names: once a trigger
      has raised, the later names are never reached. */
  function MainEvents(dir: string, outputDir: string, names: seq<string>,
                      files: nat -> FileEnv, vis: nat -> VisualizeEnv): seq<AnalyzeEvent>
  {
    if names == [] then []
    else
      var n := |names| - 1;
      var before := MainEvents(dir, outputDir, names[..n], files, vis);
      if Halted(before) then before else before + StepAt(dir, outputDir, names[n], n, files, vis)
  }

  /** Once the events of a prefix of the listing halt, those are all the events. */
  lemma {:induction false} HaltedStays(dir: string, outputDir: string, names: seq<string>, j: nat,
                                       files: nat -> FileEnv, vis: nat -> VisualizeEnv)
    requires j <= |names|
    requires Halted(MainEvents(dir, outputDir, names[..j], files, vis))
    ensures MainEvents(dir, outputDir, names, files, vis) == MainEvents(dir, outputDir, names[..j], files, vis)
    decreases |names|
  {
    if j < |names| {
      var n := |names| - 1;
      assert names[..n][..j] == names[..j];
      HaltedStays(dir, outputDir, names[..n], j, files, vis);
    } else {
      assert names[..j] == names;
    }
  }

  /** Before a halt, the next listed name adds its step to the events. */
  lemma MainEventsStep(dir: string, outputDir: string, names: seq<string>, i: nat,
                       files: nat -> FileEnv, vis: nat -> VisualizeEnv)
    requires i < |names|
    requires !Halted(MainEvents(dir, outputDir, names[..i], files, vis))
    ensures MainEvents(dir, outputDir, names[..i + 1], files, vis) ==
      MainEvents(dir, outputDir, names[..i], files, vis) + StepAt(dir, outputDir, names[i], i, files, vis)
  {
    assert names[..i + 1][..i] == names[..i];
  }

  /** The `__main__` block. `makedirsOk` is whether `os.makedirs(output_dir)` returned
      (it is not in a try block); `listing` is `os.listdir` of the processed directory
      (None when it raises); either failure ends the script with an uncaught exception,
      status 1. The i-th listed file's environment and visualization outcome are
      `files(i)` and `vis(i)`; a trigger that raises ends the script, status 1, at
      that file. */
  method AnalyzeMain(config: Option<AnalyzeConfig>, makedirsOk: bool, listing: Option<seq<string>>,
                     files: nat -> FileEnv, vis: nat -> VisualizeEnv)
    returns (exitCode: int, trace: seq<AnalyzeEvent>)
    ensures config.None? || !makedirsOk || listing.None? ==> exitCode == 1 && trace == []
    ensures config.Some? && makedirsOk && listing.Some? ==>
      trace == MainEvents(config.value.processedFitsPath, config.value.outputDir, listing.value, files, vis) &&
      exitCode == (if Halted(trace) then 1 else 0)
  {
    if config.None? || !makedirsOk || listing.None? {
      return 1, [];
    }
    var dir, outputDir := config.value.processedFitsPath, config.value.outputDir;
    var names := listing.value;
    trace := [];
    var i := 0;
    while i < |names|
      invariant 0 <= i <= |names|
      invariant trace == MainEvents(dir, outputDir, names[..i], files, vis)
      invariant !Halted(trace)
    {
      MainEventsStep(dir, outputDir, names, i, files, vis);
      var name := names[i];
      if EndsWith(name, ".fits") {
        var path := Join(dir, name);
        var success := AnalyzeTransit(path, outputDir, files(i)).Ok?;
        if success {
          var resultsPath := Join(outputDir, Replace(name, ".fits", "_results.json"));
          var triggered := TriggerVisualize(vis(i));
          if triggered.None? {
            trace := trace + [Analyzed(path, true), VisualizeRaised(resultsPath)];
            HaltedStays(dir, outputDir, names, i + 1, files, vis);
            return 1, trace;
          }
          trace := trace + [Analyzed(path, true), Visualized(resultsPath, triggered.value)];
        } else {
          trace := trace + [Analyzed(path, false)];
        }
      }
      i := i + 1;
    }
    assert names[..|names|] == names;
    exitCode := 0;
  }

  /** Without a trigger that raises, the script never halts early. */
  lemma {:induction false} NoRaiseNoHalt(dir: string, outputDir: string, names: seq<string>,
                                         files: nat -> FileEnv, vis: nat -> VisualizeEnv)
    requires forall i :: 0 <= i < |names| ==> TriggerVisualize(vis(i)).Some?
    ensures !Halted(MainEvents(dir, outputDir, names, files, vis))
  {
    if names != [] {
      var n := |names| - 1;
      NoRaiseNoHalt(dir, outputDir, names[..n], files, vis);
      var before := MainEvents(dir, outputDir, names[..n], files, vis);
      var step := StepAt(dir, outputDir, names[n], n, files, vis);
      StepShape(dir, outputDir, names[n], AnalyzeTransit(Join(dir, names[n]), outputDir, files(n)).Ok?,
                TriggerVisualize(vis(n)));
      if step != [] {
        assert (before + step)[|before + step| - 1] == step[|step| - 1];
      } else {
        assert before + step == before;
      }
    }
  }

  /** The paths the main loop analyses: every `.fits` name, in listing order. */
  function FitsPaths(dir: string, names: seq<string>): seq<string> {
    if names == [] then []
    else FitsPaths(dir, names[..|names| - 1]) +
         (if EndsWith(names[|names| - 1], ".fits") then [Join(dir, names[|names| - 1])] else [])
  }

  /** The paths of the Analyzed events of a trace, in order. */
  function AnalyzedPaths(trace: seq<AnalyzeEvent>): seq<string> {
    if trace == [] then []
    else AnalyzedPaths(trace[..|trace| - 1]) +
         (if trace[|trace| - 1].Analyzed? then [trace[|trace| - 1].path] else [])
  }

  lemma {:induction false} AnalyzedPathsAppend(a: seq<AnalyzeEvent>, b: seq<AnalyzeEvent>)
    ensures AnalyzedPaths(a + b) == AnalyzedPaths(a) + AnalyzedPaths(b)
  {
    if b != [] {
      var n := |b| - 1;
      assert (a + b)[..|a + b| - 1] == a + b[..n];
      AnalyzedPathsAppend(a, b[..n]);
    } else {
      assert a + b == a;
    }
  }

  /** One failure does not stop the loop: the analysed paths are the `.fits` names, in
      order, up to the file whose trigger raised, and all of them when none did. */
  lemma {:induction false} EveryFitsFileAnalysed(dir: string, outputDir: string, names: seq<string>,
                                                 files: nat -> FileEnv, vis: nat -> VisualizeEnv)
    ensures var t := MainEvents(dir, outputDir, names, files, vis);
      AnalyzedPaths(t) <= FitsPaths(dir, names) &&
      (!Halted(t) ==> AnalyzedPaths(t) == FitsPaths(dir, names))
  {
    if names != [] {
      var n := |names| - 1;
      EveryFitsFileAnalysed(dir, outputDir, names[..n], files, vis);
      var before := MainEvents(dir, outputDir, names[..n], files, vis);
      var extra := if EndsWith(names[n], ".fits") then [Join(dir, names[n])] else [];
      assert FitsPaths(dir, names) == FitsPaths(dir, names[..n]) + extra;
      if !Halted(before) {
        var step := StepAt(dir, outputDir, names[n], n, files, vis);
        AnalyzedPathsAppend(before, step);
        StepShape(dir, outputDir, names[n], AnalyzeTransit(Join(dir, names[n]), outputDir, files(n)).Ok?,
                  TriggerVisualize(vis(n)));
      } else {
        PrefixOfAppend(AnalyzedPaths(before), FitsPaths(dir, names[..n]), extra);
      }
    }
  }

  lemma PrefixOfAppend(a: seq<string>, b: seq<string>, c: seq<string>)
    requires a <= b
    ensures a <= b + c
  {
    assert (b + c)[..|b|] == b;
  }

  /** Every hand-off event directly follows the successful analysis whose results
      path it passes on. */
  predicate VisualizeFollowsSuccess(t: seq<AnalyzeEvent>, outputDir: string) {
    forall k :: 0 <= k < |t| && IsVisualize(t[k]) ==>
      k > 0 && t[k - 1].Analyzed? && t[k - 1].ok &&
      t[k].resultsPath == ResultsPath(t[k - 1].path, outputDir)
  }

  /** For a listed name, the loop's results path is the one analyze_transit writes. */
  lemma ListedResultsPath(dir: string, name: string, outputDir: string)
    requires '/' !in name
    ensures ResultsPath(Join(dir, name), outputDir) == Join(outputDir, Replace(name, ".fits", "_results.json"))
  {
    BasenameOfJoin(dir, name);
  }

  lemma StepFollowsSuccess(dir: string, outputDir: string, name: string, analysed: bool, triggered: Option<bool>)
    requires '/' !in name
    ensures var s := StepEvents(dir, outputDir, name, analysed, triggered);
      VisualizeFollowsSuccess(s, outputDir) && (s != [] ==> s[0].Analyzed?)
  {
    var s := StepEvents(dir, outputDir, name, analysed, triggered);
    if EndsWith(name, ".fits") && analysed {
      ListedResultsPath(dir, name, outputDir);
      var path := Join(dir, name);
      var results := Join(outputDir, Replace(name, ".fits", "_results.json"));
      assert s == [Analyzed(path, true), HandOff(results, triggered)];
      assert results == ResultsPath(path, outputDir);
    }
  }

  lemma FollowsSuccessAppend(a: seq<AnalyzeEvent>, b: seq<AnalyzeEvent>, outputDir: string)
    requires VisualizeFollowsSuccess(a, outputDir) && VisualizeFollowsSuccess(b, outputDir)
    requires b != [] ==> !IsVisualize(b[0])
    ensures VisualizeFollowsSuccess(a + b, outputDir)
  {
    var t := a + b;
    forall k | 0 <= k < |t| && IsVisualize(t[k])
      ensures k > 0 && t[k - 1].Analyzed? && t[k - 1].ok &&
        t[k].resultsPath == ResultsPath(t[k - 1].path, outputDir)
    {
      if k < |a| {
        assert t[k] == a[k];
        assert t[k - 1] == a[k - 1];
      } else {
        assert t[k] == b[k - |a|];
        assert t[k - 1] == b[k - 1 - |a|];
      }
    }
  }

  /** Visualization is triggered, or its trigger raises, only right after a successful
      analysis, and with the results path that analysis wrote (listed names contain no
      `/`). */
  lemma {:induction false} VisualizeOnlyAfterSuccess(dir: string, outputDir: string, names: seq<string>,
                                                     files: nat -> FileEnv, vis: nat -> VisualizeEnv)
    requires forall i :: 0 <= i < |names| ==> '/' !in names[i]
    ensures VisualizeFollowsSuccess(MainEvents(dir, outputDir, names, files, vis), outputDir)
  {
    if names != [] {
      var n := |names| - 1;
      VisualizeOnlyAfterSuccess(dir, outputDir, names[..n], files, vis);
      if Halted(MainEvents(dir, outputDir, names[..n], files, vis)) {
        return;
      }
      StepFollowsSuccess(dir, outputDir, names[n], AnalyzeTransit(Join(dir, names[n]), outputDir, files(n)).Ok?,
                         TriggerVisualize(vis(n)));
      FollowsSuccessAppend(MainEvents(dir, outputDir, names[..n], files, vis),
                           StepAt(dir, outputDir, names[n], n, files, vis), outputDir);
    }
  }
}
