/** How the stages' names fit together: an ID the first stage writes is read back by
    the download stage, becomes a raw file name, a preview image, and (through the
    `_processed.fits` name the analysis stage expects) a results file and a metrics
    chart, all matching the paths the publisher looks for. */
module Pipeline {
  import opened PyStr
  import FetchStarIds
  import FetchStarData
  import ProcessLightcurve
  import AnalyzeTransits
  import GeneratePlot
  import DbWriter

  /** The IDs the list holds for the catalog IDs `ids`, one `TIC <id>` each. */
  function Listed(ids: seq<string>): (r: seq<string>)
    ensures |r| == |ids|
    ensures forall i :: 0 <= i < |ids| ==> r[i] == "TIC " + ids[i]
  {
    if ids == [] then [] else Listed(ids[..|ids| - 1]) + ["TIC " + ids[|ids| - 1]]
  }

  /** A catalog ID that survives the round trip through the list file: non-empty, with
      no line break and no whitespace at its end. */
  predicate ListableId(id: string) {
    id != [] && !IsSpace(id[|id| - 1]) && forall i :: 0 <= i < |id| ==> !FetchStarData.IsLineBreak(id[i])
  }

  lemma TicLineLoads(id: string)
    requires ListableId(id)
    ensures FetchStarData.FileLines(FetchStarIds.TicLine(id)) == ["TIC " + id]
    ensures FetchStarData.NonBlank(["TIC " + id]) == ["TIC " + id]
  {
    var line := "TIC " + id;
    assert forall i :: 0 <= i < |line| ==> line[i] == (if i < 4 then "TIC "[i] else id[i - 4]);
    FetchStarData.FileLinesOfLine(line);
    assert FetchStarIds.TicLine(id) == line + "\n";
    assert line[|line| - 1] == id[|id| - 1];
    StripTrimmed(line);
    FetchStarData.NonBlankOfLine(line);
  }

  /** Appending lines keeps the content ending with a line break. */
  lemma WrittenEndsWithBreak(prior: string, ids: seq<string>)
    requires FetchStarData.EndsLine(prior)
    ensures FetchStarData.EndsLine(prior + FetchStarIds.Written(ids))
  {
    var c := prior + FetchStarIds.Written(ids);
    if ids != [] {
      var last := FetchStarIds.TicLine(ids[|ids| - 1]);
      assert c == (prior + FetchStarIds.Written(ids[..|ids| - 1])) + last;
      assert c[|c| - 1] == last[|last| - 1];
    } else {
      assert c == prior;
    }
  }

  /** One appended line loads as one more ID. */
  lemma SaveOneThenLoad(before: string, id: string)
    requires FetchStarData.EndsLine(before)
    requires ListableId(id)
    ensures FetchStarData.LoadedIds(before + FetchStarIds.TicLine(id)) ==
      FetchStarData.LoadedIds(before) + ["TIC " + id]
  {
    var line := "TIC " + id;
    assert forall i :: 0 <= i < |line| ==> line[i] == (if i < 4 then "TIC "[i] else id[i - 4]);
    FetchStarData.FileLinesAppend(before, line);
    assert before + FetchStarIds.TicLine(id) == before + line + "\n";
    TicLineLoads(id);
    FetchStarData.NonBlankAppend(FetchStarData.FileLines(before), ["TIC " + id]);
  }

  /** Loading the list after `save_star_ids` appended `ids` returns what it returned
      before, followed by `TIC <id>` for each appended ID, in order: the earlier content
      must be empty or end with a line break. */
  lemma {:induction false} SaveThenLoad(prior: string, ids: seq<string>)
    requires FetchStarData.EndsLine(prior)
    requires forall i :: 0 <= i < |ids| ==> ListableId(ids[i])
    ensures FetchStarData.LoadedIds(prior + FetchStarIds.Written(ids)) ==
      FetchStarData.LoadedIds(prior) + Listed(ids)
  {
    if ids == [] {
      assert prior + FetchStarIds.Written(ids) == prior;
    } else {
      var n := |ids| - 1;
      var init := ids[..n];
      assert forall i :: 0 <= i < |init| ==> init[i] == ids[i];
      SaveThenLoad(prior, init);
      var before := prior + FetchStarIds.Written(init);
      var line := FetchStarIds.TicLine(ids[n]);
      var entry := "TIC " + ids[n];
      assert FetchStarIds.Written(ids) == FetchStarIds.Written(init) + line;
      WrittenEndsWithBreak(prior, init);
      SaveOneThenLoad(before, ids[n]);
      assert Listed(ids) == Listed(init) + [entry];
      calc {
        FetchStarData.LoadedIds(prior + FetchStarIds.Written(ids));
        { Associative(prior, FetchStarIds.Written(init), line); }
        FetchStarData.LoadedIds(before + line);
        FetchStarData.LoadedIds(before) + [entry];
        (FetchStarData.LoadedIds(prior) + Listed(init)) + [entry];
        { Associative(FetchStarData.LoadedIds(prior), Listed(init), [entry]); }
        FetchStarData.LoadedIds(prior) + (Listed(init) + [entry]);
      }
    }
  }

  /** The list line `TIC <n>` becomes the raw file `TIC_<n>.fits`. */
  lemma TicIdRawName(n: string)
    requires ' ' !in n
    ensures FetchStarData.RawFileName("TIC " + n) == "TIC_" + n + ".fits"
  {
    var id := "TIC " + n;
    var r := FetchStarData.RawFileName(id);
    var expected := "TIC_" + n + ".fits";
    assert |r| == |expected|;
    forall i | 0 <= i < |r| ensures r[i] == expected[i] {
      if i < |id| {
        assert id[i] == (if i < 4 then "TIC "[i] else n[i - 4]);
      } else {
        assert r[i] == r[|id|..][i - |id|];
      }
    }
  }

  /** `TIC_` holds no `.` and no `/`, so neither does `TIC_<n>` when `n` holds none. */
  lemma TicStem(n: string)
    requires '.' !in n && '/' !in n
    ensures '.' !in "TIC_" + n && '/' !in "TIC_" + n
  {
    assert '.' !in "TIC_" && '/' !in "TIC_";
    NotInConcat('.', "TIC_", n);
    NotInConcat('/', "TIC_", n);
  }

  /** The preprocessed image of a raw file `TIC_<n>.fits`, written to the directory the
      publisher reads from, is where the publisher looks for ID `TIC_<n>`. */
  lemma PreviewIsPublished(rawDir: string, n: string)
    requires '.' !in n && '/' !in n
    ensures var id := "TIC_" + n;
      ProcessLightcurve.PreviewPath(Join(rawDir, id + ".fits"), DbWriter.ProcessedDir) ==
      DbWriter.ProcessedPngPath(id)
  {
    var id := "TIC_" + n;
    TicStem(n);
    ProcessLightcurve.PreviewOfRawFile(rawDir, id, DbWriter.ProcessedDir);
    DbWriter.DirsAreRelative();
    JoinTemplate(DbWriter.ProcessedDir, id, "_processed.png");
  }

  /** The analysis of `<id>_processed.fits`, written to `Analyze_Module/results`, is the
      results file the publisher reads for `<id>`. */
  lemma ResultsArePublished(processedDir: string, id: string)
    requires '.' !in id && '/' !in id
    ensures AnalyzeTransits.ResultsPath(Join(processedDir, id + "_processed.fits"), DbWriter.ResultsDir) ==
      DbWriter.ResultsJsonPath(id)
  {
    AnalyzeTransits.ResultsOfProcessedFile(processedDir, id, DbWriter.ResultsDir);
    DbWriter.DirsAreRelative();
    assert "_processed_results.json"[0] != '/';
    JoinTemplate(DbWriter.ResultsDir, id, "_processed_results.json");
  }

  /** The chart generated from the results file the publisher reads for `<id>` is the
      metrics image it uploads. */
  lemma MetricsArePublished(id: string)
    requires '.' !in id && '/' !in id
    ensures GeneratePlot.MetricsPath(DbWriter.ResultsJsonPath(id)) == DbWriter.MetricsPngPath(id)
  {
    var stem := id + "_processed";
    AnalyzeTransits.ProcessedSuffix();
    NotInConcat('.', id, "_processed");
    NotInConcat('/', id, "_processed");
    DbWriter.DirsAreRelative();
    assert "_processed_results.json"[0] != '/';
    JoinTemplate(DbWriter.ResultsDir, id, "_processed_results.json");
    Associative(id, "_processed", "_results.json");
    GeneratePlot.MetricsOfResultsFile(DbWriter.ResultsDir, stem);
    MetricsName(id);
  }

  /** The chart name for `<id>_processed` is the metrics image name the publisher
      uses, in the same directory. */
  lemma MetricsName(id: string)
    ensures GeneratePlot.MetricsDir + "/" + (id + "_processed") + "_metrics.png" == DbWriter.MetricsPngPath(id)
  {
    assert GeneratePlot.MetricsDir == DbWriter.VisualizeDataDir;
    assert "_processed" + "_metrics.png" == "_processed_metrics.png";
    Associative(id, "_processed", "_metrics.png");
  }
}
