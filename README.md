# Exoplanet transit pipeline — a Dafny model

A model of the logic that Exoplanet_Transit_Detector's own scripts add around the
libraries they call. The pipeline is a chain of five command-line stages. Each stage
names its output files from its input files' names.

1. **Catalog IDs.** `fetch_star_ids.py` queries the MAST catalog named in its
   configuration (for instance the TESS Input Catalog). It appends the first N IDs to a
   list, one `TIC <id>` line each.
2. **Download.** `fetch_star_data.py` loads its configuration and reads the ID list.
   It downloads one light curve per ID to `<id with spaces as _>.fits`. It starts the
   next stage when at least one download succeeded.
3. **Preprocessing.** `process_lightcurve.py` does two things to every raw `.fits` file:
   - it cleans the file's samples: it flattens the time column and drops samples
     whose time or flux is NaN;
   - it saves a preview image `<name>_processed.png`.
4. **Analysis.** `analyze_transits.py` gates each processed file on at least 10 valid
   samples. It is meant to run the Box Least Squares detector in
   `transit_detection.py`, which picks the first grid point of highest power, write
   `<name>_results.json` and then start the plot stage. As written, the call to the
   detector passes one argument too many, so every file that passes the gate fails,
   nothing is written and the plot stage is never started (see "## Findings"). The
   model has both the code as written and the corrected call.
5. **Publishing.** `generate_plot.py` charts the four metrics as
   `<name>_metrics.png`. `db_writer.py` checks that a star's three artifacts exist,
   uploads the two images and inserts the record.

Libraries, files, the network and child processes are not modelled. Each one is a
parameter: the outcome it produced, or, in a batch loop, an outcome indexed by the
item's position. Python's `str.replace`, `str.strip`, `str.endswith` and POSIX
`os.path.join`/`basename` are modelled exactly in `PyStr`. A Python `float` is a
`Sample`, which is NaN, an infinity or a real. Only `np.isnan` is ever tested, so
infinities are kept by the mask.

Files:

| file | contents |
|---|---|
| `Values.dfy` | the shared types: Option, Result, Sample, Json |
| `PyStr.dfy` | the string and path operations |
| `LightCurve.dfy` | the time flattening and the NaN mask |
| `FetchStarIds.dfy` | stage 1 |
| `FetchStarData.dfy` | stage 2 |
| `ProcessLightcurve.dfy` | stage 3 |
| `TransitDetection.dfy` | the detector of stage 4 |
| `AnalyzeTransits.dfy` | the driver of stage 4 |
| `GeneratePlot.dfy` | the plot of stage 5 |
| `DbWriter.dfy` | the publisher of stage 5 |
| `Pipeline.dfy` | lemmas across stages |

Facts about the code that the model follows:
- **Mask test.** The code keeps samples that are not NaN (`process_lightcurve.py:50`,
  `analyze_transits.py:54`), so `LightCurve.Keep` admits `Inf`.
- **Flattening.** Only the time column is flattened (`process_lightcurve.py:46-47`).
- **Period range.** The detector has no period-range check, and the `(0.5, 30)`
  range at `transit_detection.py:24` is never used.
- **Processed FITS.** Preprocessing writes only the preview PNG; no processed light
  curve file is saved (`ProcessLightcurve.NoProcessedFitsWritten`).
- **Trigger result.** The download stage's `main` reports success whenever a download
  succeeded, whatever `trigger_next_module` returned. One exception to this: when an
  exception escapes the trigger (a missing `process_lightcurve_script` entry, or a
  child process that cannot be launched), `main`'s handler returns False.
- **Saved-count log message.** `save_star_ids` logs that it saved N IDs, after
  writing min(rows, N) lines.

## Model

| member | source | states |
|---|---|---|
| `PyStr.ReplaceAbsent` | Process_Light_Curve_Module/scripts/process_lightcurve.py:69 | `str.replace` of a pattern that does not occur returns the string unchanged |
| `PyStr.ReplaceAtEnd` | Process_Light_Curve_Module/scripts/process_lightcurve.py:69 | when the only occurrence of the pattern is the final one, only that suffix is rewritten |
| `PyStr.ReplaceMarkedSuffix` | Analyze_Module/scripts/analyze_transits.py:70 | a suffix holding a character that occurs once in it and never in the stem is the only occurrence, so replacing it yields stem + replacement |
| `PyStr.ReplaceChar` | Data_Download_Module/scripts/fetch_star_data.py:84 | replacing one character by another keeps the length and maps each position independently |
| `PyStr.Strip` | Data_Download_Module/scripts/fetch_star_data.py:100 | `strip()` is no longer than the line and neither starts nor ends with whitespace |
| `PyStr.StripIsTrimmedSlice` | Data_Download_Module/scripts/fetch_star_data.py:100 | `strip()` is a slice with only whitespace around it; it is empty iff the line is all whitespace, and otherwise has non-space ends |
| `PyStr.StripTrimmed` | Data_Download_Module/scripts/fetch_star_data.py:100 | stripping a string without edge whitespace changes nothing |
| `PyStr.Basename` | Process_Light_Curve_Module/scripts/process_lightcurve.py:69 | `basename` is a slash-free suffix preceded by `/` or by nothing |
| `PyStr.BasenameUnique` | Process_Light_Curve_Module/scripts/process_lightcurve.py:69 | those three properties determine the basename |
| `PyStr.BasenameOfJoin` | Process_Light_Curve_Module/scripts/process_lightcurve.py:83 | the basename of `join(dir, name)` is `name` for a slash-free listed name |
| `PyStr.JoinKeepsName` | Process_Light_Curve_Module/scripts/process_lightcurve.py:69 | `join(dir, name)` ends with a relative `name` |
| `LightCurve.FlattenTime` | Process_Light_Curve_Module/scripts/process_lightcurve.py:45-47 | a 1-D column is kept; a 2-D column becomes its first sub-column, row by row; a width-0 grid has no column 0 and fails |
| `LightCurve.ValidMask` | Process_Light_Curve_Module/scripts/process_lightcurve.py:50 | one entry per sample, true iff neither time nor flux is NaN |
| `LightCurve.Kept` | Process_Light_Curve_Module/scripts/process_lightcurve.py:55-57 | the selected positions: in range, selected, strictly ascending, and every selected position is listed |
| `LightCurve.SelectAt` | Process_Light_Curve_Module/scripts/process_lightcurve.py:55-57 | boolean indexing returns, in order, the element at each selected position |
| `LightCurve.SelectAll` | Process_Light_Curve_Module/scripts/process_lightcurve.py:55-57 | an all-true mask returns its input |
| `LightCurve.MaskKeepsValidSamples` | Process_Light_Curve_Module/scripts/process_lightcurve.py:50-57 | the masked columns stay aligned with one entry per valid sample; entry k of all three comes from one source position; order is kept; a position is kept iff its time and flux are not NaN, whatever flux_err holds |
| `LightCurve.MaskIsClean` | Process_Light_Curve_Module/scripts/process_lightcurve.py:50-57 | no NaN time or flux survives the mask |
| `LightCurve.MaskOfCleanIsIdentity` | Process_Light_Curve_Module/scripts/process_lightcurve.py:50-57 | masking a clean series returns it unchanged |
| `LightCurve.MaskIdempotent` | Process_Light_Curve_Module/scripts/process_lightcurve.py:50-57 | masking twice equals masking once |
| `ProcessLightcurve.ProcessLightCurve` | Process_Light_Curve_Module/scripts/process_lightcurve.py:33-77 | True iff the file was read, the time column flattened, the columns align, at least one sample is valid and the image was saved; an unreadable file fails; on success the preview path is the derived one and the series is clean and non-empty |
| `ProcessLightcurve.ProcessedSeriesIsMaskedRaw` | Process_Light_Curve_Module/scripts/process_lightcurve.py:41-57 | the plotted series is the raw flux columns and the flattened time, masked together |
| `ProcessLightcurve.PreviewOfRawFile` | Process_Light_Curve_Module/scripts/process_lightcurve.py:69 | `<stem>.fits` previews as `<output_dir>/<stem>_processed.png` |
| `ProcessLightcurve.NoProcessedFitsWritten` | Process_Light_Curve_Module/scripts/process_lightcurve.py:68-70 | the only artifact written for a raw file ends in `.png`; no `_processed.fits` is produced |
| `ProcessLightcurve.ProcessAllLightcurves` | Process_Light_Curve_Module/scripts/process_lightcurve.py:79-96 | one event per listed name, in order; a name is processed iff it ends with `.fits`; each attempt is independent of the others; a failing listing does nothing |
| `TransitDetection.ArgMax` | Analyze_Module/scripts/transit_detection.py:31-33 | `np.argmax` is the first index of the highest power |
| `TransitDetection.FirstMaxUnique` | Analyze_Module/scripts/transit_detection.py:31-33 | only one index is the first maximum |
| `TransitDetection.Candidate` | Analyze_Module/scripts/transit_detection.py:39-44 | the record has exactly the keys period, duration, depth and power |
| `TransitDetection.RunBls` | Analyze_Module/scripts/transit_detection.py:5-48 | `{}` for empty input, mismatched lengths or a failed search; non-empty iff the inputs are usable and the grid has a readable best index; a non-empty record has exactly the four keys |
| `TransitDetection.RunBlsReportsBest` | Analyze_Module/scripts/transit_detection.py:31-44 | a non-empty record is the candidate at the first index of highest power, and its power is at least every grid power |
| `AnalyzeTransits.Gate` | Analyze_Module/scripts/analyze_transits.py:41-60 | passes iff the file exists, was read, aligns and has at least 10 valid samples, handing on exactly the NaN mask of the columns read, which is clean and aligned; otherwise it reports the number of samples it found |
| `AnalyzeTransits.AnalyzeTransitAsWritten` | Analyze_Module/scripts/analyze_transits.py:64 | as written, analysis always fails: with the gate's error, or, past the gate, because of the four-argument call |
| `AnalyzeTransits.AnalyzeTransit` | Analyze_Module/scripts/analyze_transits.py:38-89 | with the three-argument call: a missing file fails; success iff the gate passes and the write succeeds; the record is the detector's on the gated series, written to the derived results path |
| `AnalyzeTransits.AsWrittenRejectsEveryGatedFile` | Analyze_Module/scripts/analyze_transits.py:64 | every file the intended code accepts is rejected by the code as written |
| `AnalyzeTransits.MinimumSampleBoundary` | Analyze_Module/scripts/analyze_transits.py:58-60 | 9 valid samples are rejected; 10 go on |
| `AnalyzeTransits.RecordEmptyOnlyOnSearchFailure` | Analyze_Module/scripts/analyze_transits.py:54-64 | past the gate, the record is `{}` exactly when the search failed or had no usable best index |
| `AnalyzeTransits.ResultsOfProcessedFile` | Analyze_Module/scripts/analyze_transits.py:70 | `ID_processed.fits` gives `<output_dir>/ID_processed_results.json` |
| `AnalyzeTransits.ListedResultsPath` | Analyze_Module/scripts/analyze_transits.py:145 | the results path the loop hands the plot stage is the path `analyze_transit` wrote |
| `AnalyzeTransits.StepShape` | Analyze_Module/scripts/analyze_transits.py:135-151 | per listed name: nothing for a non-`.fits` name; otherwise one analysis event for that path whose flag is the analysis outcome, followed, exactly when the analysis succeeded, by the hand-off event for the results path carrying what the trigger did; the step halts the script exactly when the analysis succeeded and the trigger raised |
| `AnalyzeTransits.AsWrittenNeverHandsOff` | Analyze_Module/scripts/analyze_transits.py:64 | with the detector call as written, no listed file is ever handed to the plot stage |
| `AnalyzeTransits.AnalyzeMain` | Analyze_Module/scripts/analyze_transits.py:114-151 | a missing config, a failed `makedirs` or a failed listing exits 1 with no file handled; otherwise the listed names are handled in order with the corrected `AnalyzeTransit`, the loop stops at a trigger that raised, and the exit status is 1 exactly then, else 0 |
| `AnalyzeTransits.NoRaiseNoHalt` | Analyze_Module/scripts/analyze_transits.py:95-112 | when no visualization trigger raises, the loop runs over the whole listing |
| `AnalyzeTransits.EveryFitsFileAnalysed` | Analyze_Module/scripts/analyze_transits.py:135-138 | the analysed paths are the `.fits` names in listing order, up to the file whose trigger raised, and all of them when none did; a failed analysis does not stop the loop |
| `AnalyzeTransits.VisualizeOnlyAfterSuccess` | Analyze_Module/scripts/analyze_transits.py:141-148 | every hand-off, returned or raised, directly follows a successful analysis and is given the results path that analysis wrote |
| `AnalyzeTransits.TriggerVisualize` | Analyze_Module/scripts/analyze_transits.py:95-112 | returns True exactly when the plot script exists and the child process exits 0; the exception escapes exactly when the script exists and launching it raised something other than `CalledProcessError` |
| `FetchStarIds.Truncate` | Data_Download_Module/scripts/fetch_star_ids.py:79 | `rows[:N]` is a prefix of length min(len, N) for N >= 0, or all but the last -N rows for N < 0 |
| `FetchStarIds.WrittenLineCount` | Data_Download_Module/scripts/fetch_star_ids.py:79-80 | the text written for k IDs has exactly k line ends |
| `FetchStarIds.WrittenAppend` | Data_Download_Module/scripts/fetch_star_ids.py:79-80 | the lines are written in row order: writing a + b is writing a, then b |
| `FetchStarIds.SaveStarIds` | Data_Download_Module/scripts/fetch_star_ids.py:75-86 | the earlier content stays an unchanged prefix; what follows is one `TIC <id>` line for each of the first N rows, in order; nothing is written when the file cannot be opened |
| `FetchStarIds.SavedLineCount` | Data_Download_Module/scripts/fetch_star_ids.py:78-80 | for N >= 0 the list gains exactly min(rows, N) lines |
| `FetchStarIds.QueryStarCatalog` | Data_Download_Module/scripts/fetch_star_ids.py:38-72 | a failed query yields None; the warning is logged iff fewer than N rows came back |
| `FetchStarIds.FetchIdsMain` | Data_Download_Module/scripts/fetch_star_ids.py:89-98 | IDs are saved only when the query returned a result; a failed query leaves the list untouched |
| `FetchStarData.LoadConfig` | Data_Download_Module/scripts/fetch_star_data.py:16-30 | a missing or invalid file gives None; otherwise the loop over the five keys computes the adjusted configuration |
| `FetchStarData.AdjustedConfigChangesOnlyPaths` | Data_Download_Module/scripts/fetch_star_data.py:24-26 | no entry is added or dropped; unlisted entries are unchanged; each listed entry that is present is joined onto the root; a listed entry that is not a string makes loading fail |
| `FetchStarData.RawFileName` | Data_Download_Module/scripts/fetch_star_data.py:84 | the name is the ID with each space turned into `_`, then `.fits`; the stem has the ID's length and no space |
| `FetchStarData.FetchStarData` | Data_Download_Module/scripts/fetch_star_data.py:67-94 | success iff the file was found, downloaded and written and `raw_data_dir` is configured; the file then goes to `raw_data_dir/<raw name>`; no result or any exception gives None |
| `FetchStarData.NonBlankAppend` | Data_Download_Module/scripts/fetch_star_data.py:100 | the loaded IDs of two runs of lines are those of each run, in file order |
| `FetchStarData.NonBlankEntries` | Data_Download_Module/scripts/fetch_star_data.py:100 | no loaded ID is empty or has whitespace at an end |
| `FetchStarData.NonBlankOfLine` | Data_Download_Module/scripts/fetch_star_data.py:100 | a line is kept, stripped, exactly when it is not all whitespace |
| `FetchStarData.LoadStarIds` | Data_Download_Module/scripts/fetch_star_data.py:96-106 | gives a list exactly when the `star_ids_file` entry exists and the file was read; the list is exactly the non-blank lines of the file, stripped, in file order, so at most one ID per line, each non-empty and already stripped |
| `FetchStarData.FileLinesAppend` | Data_Download_Module/scripts/fetch_star_data.py:99-100 | appending one newline-terminated line to a file that is empty or ends with a line break adds exactly that line after the file's own lines |
| `FetchStarData.FileLinesOfLine` | Data_Download_Module/scripts/fetch_star_data.py:99-100 | a newline-terminated line yields one line |
| `FetchStarData.TriggerNextModule` | Data_Download_Module/scripts/fetch_star_data.py:108-128 | returns True exactly when the configured script path is a string, the path exists and the child process exits 0 |
| `FetchStarData.FetchResults` | Data_Download_Module/scripts/fetch_star_data.py:150-158 | one result per ID, in order, each that ID's own fetch outcome |
| `FetchStarData.CountSaved` | Data_Download_Module/scripts/fetch_star_data.py:154-155 | the success count is at most the number of IDs, and positive iff some fetch succeeded |
| `FetchStarData.FetchAll` | Data_Download_Module/scripts/fetch_star_data.py:149-158 | the loop attempts every ID once, in order, and the counter equals the number of non-None results |
| `FetchStarData.FetchMain` | Data_Download_Module/scripts/fetch_star_data.py:131-178 | returns False, triggers nothing and fetches nothing when the config is missing, invalid or empty, logging cannot be set up, or the ID list is missing or empty; otherwise it fetches every ID in order, calls `trigger_next_module` exactly when some fetch succeeded, and returns True exactly when it called it and no exception escaped; exits 1 iff the result is False |
| `FetchStarData.TriggerOutcomeIgnored` | Data_Download_Module/scripts/fetch_star_data.py:163-166 | unless an exception escapes, the trigger returns a value, so its True or False does not change `main`'s result |
| `GeneratePlot.MetricValues` | visualize_transits_module/scripts/generate_plot.py:27-36 | four values, in the order of the labels Period, Duration, Depth, Power, each the record's entry for its key or the default |
| `GeneratePlot.MetricDefaults` | visualize_transits_module/scripts/generate_plot.py:27-30 | a present key gives its value, so a present null stays null; a missing key gives 0 |
| `GeneratePlot.EmptyRecordPlotsZeros` | visualize_transits_module/scripts/generate_plot.py:27-30 | the detector's `{}` plots four zeros |
| `GeneratePlot.CandidatePlotsItsFields` | visualize_transits_module/scripts/generate_plot.py:35-36 | a detector record plots the period, duration, depth and power of its grid point, in that order |
| `GeneratePlot.ChartName` | visualize_transits_module/scripts/generate_plot.py:45 | `<stem>_results.json` becomes `<stem>_metrics.png` |
| `GeneratePlot.MetricsOfResultsFile` | visualize_transits_module/scripts/generate_plot.py:44-45 | the chart for `<dir>/<stem>_results.json` is `visualize_transits_module/data/<stem>_metrics.png` |
| `GeneratePlot.GenerateVisualization` | visualize_transits_module/scripts/generate_plot.py:19-52 | it succeeds iff the file parsed to an object and the save succeeded; every failure is an error, re-raised; on success the chart is at the derived path, with the fixed labels and the record's values |
| `GeneratePlot.PlotExitCode` | visualize_transits_module/scripts/generate_plot.py:54-68 | exits 1 for an argument count other than one, for a missing file, and for a failed generation; 0 exactly when generation succeeded |
| `DbWriter.BindInsert` | visualize_transits_module/scripts/db_writer.py:83-89 | binds the star ID and the four record fields unchanged; gives nothing when the record is not an object or lacks a field |
| `DbWriter.UploadToMinio` | visualize_transits_module/scripts/db_writer.py:44-65 | True only when the file exists and a bucket is named; False whenever the client cannot be built or the put fails; True when all four hold |
| `DbWriter.InsertResults` | visualize_transits_module/scripts/db_writer.py:67-102 | True only for an object record holding all four fields; False whenever the database fails; True when the database works and the row binds |
| `DbWriter.EmptyRecordNeverInserted` | visualize_transits_module/scripts/db_writer.py:83-89 | the detector's `{}` is never inserted |
| `DbWriter.DbWriterMain` | visualize_transits_module/scripts/db_writer.py:104-143 | the script's events are those of the ordered check, upload and insert sequence |
| `DbWriter.SinksOnlyAfterGate` | visualize_transits_module/scripts/db_writer.py:108-117 | something beyond a missing-file report happens iff all three artifacts exist; otherwise the single report names the first missing one, checked in the order processed image, metrics image, results file |
| `DbWriter.UploadsThenInsert` | visualize_transits_module/scripts/db_writer.py:119-135 | past the gate, both uploads come first, each succeeding iff the client, the bucket and the put do; then one insert of the bound record, committed iff the database works and the row binds, or the report of an unreadable results file |
| `DbWriter.InsertIgnoresUploads` | visualize_transits_module/scripts/db_writer.py:119-135 | the insert does not depend on what the uploads did |
| `DbWriter.ObjectNamesAreBasenames` | visualize_transits_module/scripts/db_writer.py:29-30 | the uploaded object names are the basenames of the uploaded paths |
| `Pipeline.Listed` | Data_Download_Module/scripts/fetch_star_ids.py:80 | the IDs the list holds: `TIC <id>` for each row, in order |
| `Pipeline.TicLineLoads` | Data_Download_Module/scripts/fetch_star_ids.py:80 | one written line reads back as the single ID `TIC <id>` |
| `Pipeline.SaveThenLoad` | Data_Download_Module/scripts/fetch_star_ids.py:78-80 | loading the list after the append returns the earlier IDs followed by `TIC <id>` for each appended row, in order |
| `Pipeline.TicIdRawName` | Data_Download_Module/scripts/fetch_star_data.py:84 | the ID `TIC <n>` is saved as `TIC_<n>.fits` |
| `Pipeline.PreviewIsPublished` | visualize_transits_module/scripts/db_writer.py:29 | the preview of `TIC_<n>.fits` is the processed image the publisher looks for |
| `Pipeline.ResultsArePublished` | visualize_transits_module/scripts/db_writer.py:31 | analysing `<id>_processed.fits` writes the results file the publisher reads |
| `Pipeline.MetricsArePublished` | visualize_transits_module/scripts/db_writer.py:30 | the chart derived from that results file is the metrics image the publisher uploads |

## Left out

- **Foreign numerics.** The BLS model and `autopower` (`transit_detection.py:21-28`)
  are a floating-point library. Their output is an uninterpreted grid. A grid holding
  NaN powers is not modelled: numpy's `argmax` would return the first NaN.
- **Library I/O.** All of the following are outcome parameters:
  - FITS reading;
  - lightkurve search and download;
  - the astroquery query;
  - matplotlib;
  - MinIO;
  - Oracle;
  - `os.path.exists`, `os.makedirs` and `os.listdir`;
  - `subprocess.run`.
- **Logging and environment.** `setup_logging` in every script, and the environment
  and credential loading in `db_writer.py`, are left out. Only their success is
  modelled, where the code tests it.
- **Text decoding.** File contents are already-decoded text. A `\r` is treated as a
  line break, which gives the same IDs as Python's universal newlines.
- **Uncommon columns.** Only the preprocessing stage's time column may be two-
  dimensional in the model. Two-dimensional flux and flux-error columns in
  preprocessing, two-dimensional columns of any kind in analysis, and columns of more
  than two dimensions are not modelled: numpy's broadcasting of such masks is not
  captured.
- **Configuration shape.** A top-level JSON value that is not an object is not
  modelled. The configuration is an object of entries.
- **`num_star_ids` type.** A non-integer `num_star_ids` is not modelled.
- **Catalog IDs.** Each row is its `ID` text. A row without an `ID` column is not
  modelled.
- **Rereading the configuration.** `trigger_next_module` re-reads the configuration.
  The model assumes the file is unchanged between the two reads.
- **Stage 3 `main`.** It only reads configuration entries and calls
  `process_all_lightcurves`, which is modelled.
- **Analysis configuration.** The analysis script's configuration entries and the
  `config` argument of `analyze_transit` are one optional value.
- `AnalyzeTransits.AnalyzeMain`: an escaped exception (from `os.makedirs`, from
  `os.listdir`, or from launching the plot script) is one "exit status 1" outcome;
  the traceback and the log lines are not modelled.
- `AnalyzeTransits.Gate`, `ProcessLightcurve.ProcessLightCurve`: columns of
  mismatched length are one `ShapeMismatch` error, checked before the zero-valid test.
  numpy raises at a different step for them, but it always raises.
- `FetchStarData.FileLinesAppend`: states the split for one appended line, not for
  arbitrary appended text. `save_star_ids` appends min(rows, N) lines in one call,
  one line per `file.write`; `Pipeline.SaveThenLoad` composes the single-line steps
  by induction over the written IDs.
- `FetchStarData.FetchStarData`: returns the saved path where the source returns the
  elapsed time. The caller only tests it against None.
- **Context files.** The backup script, `manually_extract_fits.py`, the `pass` stubs
  in `update_config.py` and the smoke tests are not part of this model.
- **Concurrency.** The code has none.

## Findings

| source | as written | input that shows it | evidently intended | confidence | as-written member | corrected member |
|---|---|---|---|---|---|---|
| Analyze_Module/scripts/analyze_transits.py:64 | `run_bls(time, flux, flux_err, config)`; `run_bls` takes three parameters (`transit_detection.py:5`), so the TypeError is caught at lines 87-89 and the file is reported as failed | any existing file with 10 or more valid samples | `run_bls(time, flux, flux_err)`, whose record is written as `<name>_results.json` | not executed | `AnalyzeTransits.AnalyzeTransitAsWritten` | `AnalyzeTransits.AnalyzeTransit` |
