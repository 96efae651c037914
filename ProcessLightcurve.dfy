/** Stage 3, Process_Light_Curve_Module/scripts/process_lightcurve.py: clean one raw
    light curve and render a preview image of it, and sweep a directory of raw files.
    Reading FITS, plotting and saving the figure are outside the model: the table read
    from the file and whether `savefig` succeeded are parameters. */
module ProcessLightcurve {
  import opened Values
  import opened PyStr
  import opened LightCurve

  /** The three columns read from HDU 1 of a raw FITS file. Only the time column may
      be multi-dimensional; the flux columns are taken as they are. */
  datatype RawTable = RawTable(time: TimeColumn, flux: seq<Sample>, fluxErr: seq<Sample>)

  /** Every way `process_lightcurve` ends in its `except` clause and returns False. */
  datatype ProcessError =
    | ReadFailed          // fits.open or the column lookup raised
    | NoTimeColumnZero    // time[:, 0] on a grid of width 0 (IndexError)
    | ShapeMismatch       // columns of different lengths: numpy cannot mask them
    | NoValidData         // the ValueError raised when valid.sum() == 0
    | SaveFailed          // makedirs or savefig raised

  /** A successful run: the preview written and the cleaned series it shows. */
  datatype Preview = Preview(plotPath: string, series: Series)

  /** The preview path: the raw file's basename with `.fits` replaced by
      `_processed.png`, inside the output directory. */
  function PreviewPath(filePath: string, outputDir: string): string {
    Join(outputDir, Replace(Basename(filePath), ".fits", "_processed.png"))
  }

  /** `process_lightcurve(file_path, output_dir)`. */
  function ProcessLightCurve(filePath: string, outputDir: string, table: Option<RawTable>, saved: bool)
    : (r: Result<Preview, ProcessError>)
    ensures table.None? ==> r == Err(ReadFailed)
    ensures r.Ok? <==>
      table.Some? && FlattenTime(table.value.time).Some? &&
      (var s := Series(FlattenTime(table.value.time).value, table.value.flux, table.value.fluxErr);
       Aligned(s) && ValidCount(s) > 0 && saved)
    ensures r.Ok? ==> r.value.plotPath == PreviewPath(filePath, outputDir)
    ensures r.Ok? ==> Aligned(r.value.series) && Clean(r.value.series) && |r.value.series.time| > 0
  {
    match table
    case None => Err(ReadFailed)
    case Some(t) =>
      match FlattenTime(t.time)
      case None => Err(NoTimeColumnZero)
      case Some(time) =>
        var s := Series(time, t.flux, t.fluxErr);
        if !Aligned(s) then Err(ShapeMismatch)
        else if ValidCount(s) == 0 then Err(NoValidData)
        else if !saved then Err(SaveFailed)
        else
          MaskIsClean(s);
          MaskKeepsValidSamples(s);
          Ok(Preview(PreviewPath(filePath, outputDir), Mask(s)))
  }

  /** The cleaned series is the raw flux, its uncertainty and the (flattened) time,
      masked together; the flux columns are never flattened. */
  lemma ProcessedSeriesIsMaskedRaw(filePath: string, outputDir: string, t: RawTable, saved: bool)
    requires ProcessLightCurve(filePath, outputDir, Some(t), saved).Ok?
    ensures FlattenTime(t.time).Some?
    ensures var s := Series(FlattenTime(t.time).value, t.flux, t.fluxErr);
      Aligned(s) && ProcessLightCurve(filePath, outputDir, Some(t), saved).value.series == Mask(s)
  {
  }

  /** A raw file `<stem>.fits` whose stem has no `.` previews as `<stem>_processed.png`
      in the output directory. */
  lemma PreviewOfRawFile(dir: string, stem: string, outputDir: string)
    requires '.' !in stem && '/' !in stem
    ensures PreviewPath(Join(dir, stem + ".fits"), outputDir) == Join(outputDir, stem + "_processed.png")
  {
    FitsSuffix();
    RenamedInDir(dir, stem, ".fits", "_processed.png", 0);
  }

  /** The only artifact the stage writes for a raw file is a `.png`: no
      `_processed.fits` is produced for the analysis stage to read. */
  lemma NoProcessedFitsWritten(dir: string, stem: string, outputDir: string)
    requires '.' !in stem && '/' !in stem
    ensures EndsWith(PreviewPath(Join(dir, stem + ".fits"), outputDir), ".png")
  {
    PreviewOfRawFile(dir, stem, outputDir);
    PngNameEndsWithPng(stem, outputDir);
  }

  lemma PngNameEndsWithPng(stem: string, outputDir: string)
    requires '/' !in stem
    ensures EndsWith(Join(outputDir, stem + "_processed.png"), ".png")
  {
    var name := stem + "_processed" + ".png";
    assert name == stem + "_processed.png";
    assert name[0] != '/' by {
      if stem != [] {
        assert name[0] == stem[0];
      }
    }
    JoinKeepsName(outputDir, name);
    EndsWithAppend(stem + "_processed", ".png");
    EndsWithTransitive(Join(outputDir, name), name, ".png");
  }

  datatype SweepEvent =
    | Skipped(name: string)              // not a `.fits` name
    | Attempted(path: string, ok: bool)  // process_lightcurve was called; its result

  /** The event `process_all_lightcurves` logs for the listing entry at position `i`. */
  function SweepStep(rawDir: string, processedDir: string, name: string, table: Option<RawTable>, saved: bool)
    : SweepEvent
  {
    if EndsWith(name, ".fits") then
      Attempted(Join(rawDir, name), ProcessLightCurve(Join(rawDir, name), processedDir, table, saved).Ok?)
    else Skipped(name)
  }

  /** `process_all_lightcurves(raw_data_dir, processed_data_dir)`. `listing` is
      `os.listdir(raw_data_dir)` (None when it raises); the file read and the figure
      save of the i-th listed entry are `tables(i)` and `saved(i)`. Every `.fits` entry
      is processed once, in listing order, whatever happened to the others. */
  method ProcessAllLightcurves(rawDir: string, processedDir: string, listing: Option<seq<string>>,
                               tables: nat -> Option<RawTable>, saved: nat -> bool)
    returns (trace: seq<SweepEvent>)
    ensures listing.None? ==> trace == []
    ensures listing.Some? ==> |trace| == |listing.value|
    ensures listing.Some? ==> forall i :: 0 <= i < |trace| ==>
      (trace[i].Attempted? <==> EndsWith(listing.value[i], ".fits")) &&
      trace[i] == SweepStep(rawDir, processedDir, listing.value[i], tables(i), saved(i))
  {
    trace := [];
    if listing.None? {
      return;
    }
    var names := listing.value;
    var i := 0;
    while i < |names|
      invariant 0 <= i <= |names|
      invariant |trace| == i
      invariant forall k :: 0 <= k < i ==>
        trace[k] == SweepStep(rawDir, processedDir, names[k], tables(k), saved(k))
    {
      var name := names[i];
      var event;
      if EndsWith(name, ".fits") {
        var path := Join(rawDir, name);
        var result := ProcessLightCurve(path, processedDir, tables(i), saved(i));
        event := Attempted(path, result.Ok?);
      } else {
        event := Skipped(name);
      }
      trace := trace + [event];
      i := i + 1;
    }
  }
}
