/** Stage 2, Data_Download_Module/scripts/fetch_star_data.py: load the configuration,
    read the ID list, download one light curve per ID and, when at least one download
    succeeded, start the preprocessing stage. The lightkurve search and download, the
    logging set-up and the child process are outcome parameters; files are their
    parsed or textual content. */
module FetchStarData {
  import opened Values
  import opened PyStr

  /** A configuration file: a JSON object. */
  type Config = map<string, Json>

  /** The entries `load_config` resolves against the project root, in loop order. */
  const PathKeys: seq<string> :=
    ["output_path", "fetch_star_ids_log", "raw_data_dir", "star_ids_file", "fetch_star_data_log"]

  /** What `load_config` returns for the parsed file `config`: None when a listed entry
      holds something other than a string (`os.path.join` raises TypeError); otherwise
      the same entries, with every listed string entry joined onto the root. */
  function AdjustedConfig(root: string, config: Config): Option<Config> {
    if exists k :: k in PathKeys && k in config && !config[k].JStr? then None
    else Some(map k | k in config :: if k in PathKeys && config[k].JStr? then JStr(Join(root, config[k].s)) else config[k])
  }

  /** `load_config()`: `file` is the parsed `config.json`, or None when it is missing or
      not valid JSON. The loop rewrites the listed entries one at a time. */
  method LoadConfig(root: string, file: Option<Config>) returns (r: Option<Config>)
    ensures file.None? ==> r.None?
    ensures file.Some? ==> r == AdjustedConfig(root, file.value)
  {
    if file.None? {
      return None;
    }
    var config := file.value;
    var c := config;
    var i := 0;
    while i < |PathKeys|
      invariant 0 <= i <= |PathKeys|
      invariant c.Keys == config.Keys
      invariant forall j :: 0 <= j < i && PathKeys[j] in config ==> config[PathKeys[j]].JStr?
      invariant forall k :: k in config ==>
        c[k] == (if k in PathKeys[..i] then JStr(Join(root, config[k].s)) else config[k])
    {
      var key := PathKeys[i];
      assert key !in PathKeys[..i];
      if key in c {
        if !c[key].JStr? {
          return None;
        }
        c := c[key := JStr(Join(root, c[key].s))];
      }
      i := i + 1;
    }
    assert PathKeys[..|PathKeys|] == PathKeys;
    forall k | k in PathKeys && k in config
      ensures config[k].JStr?
    {
      var j :| 0 <= j < |PathKeys| && PathKeys[j] == k;
    }
    var m := map k | k in config :: if k in PathKeys && config[k].JStr? then JStr(Join(root, config[k].s)) else config[k];
    assert c == m;
    r := Some(c);
  }

  /** Resolving paths adds and drops no entry, leaves every unlisted entry as it is and
      prefixes each listed one with the root; it fails exactly on a listed entry that is
      not a string. */
  lemma AdjustedConfigChangesOnlyPaths(root: string, config: Config)
    ensures AdjustedConfig(root, config).None? <==>
      exists k :: k in PathKeys && k in config && !config[k].JStr?
    ensures AdjustedConfig(root, config).Some? ==>
      var c := AdjustedConfig(root, config).value;
      c.Keys == config.Keys &&
      (forall k :: k in config && k !in PathKeys ==> c[k] == config[k]) &&
      (forall k :: k in config && k in PathKeys ==>
        config[k].JStr? && c[k] == JStr(Join(root, config[k].s)))
  {
  }

  /** The file name a star's light curve is saved under: every space of the ID
      replaced by an underscore, then `.fits`. The stem keeps the ID's length and its
      other characters, and holds no space. */
  function RawFileName(starId: string): (r: string)
    ensures |r| == |starId| + 5 && r[|starId|..] == ".fits"
    ensures forall i :: 0 <= i < |starId| ==> r[i] == (if starId[i] == ' ' then '_' else starId[i])
    ensures ' ' !in r[..|starId|]
  {
    ReplaceChar(starId, ' ', '_');
    Replace(starId, " ", "_") + ".fits"
  }

  /** How the lightkurve calls for one star ended. */
  datatype FetchOutcome =
    | NoLightCurve   // the search returned no result
    | FetchRaised    // the search, the download, makedirs or the write raised
    | Saved          // the first file found was downloaded and written

  /** `fetch_star_data(star_id, config)`: the path the light curve was written to, or
      None on failure. The source returns the elapsed time instead of the path; only
      its being None matters to the caller. */
  function FetchStarData(starId: string, config: Config, outcome: FetchOutcome): (r: Option<string>)
    ensures r.Some? <==> outcome.Saved? && "raw_data_dir" in config && config["raw_data_dir"].JStr?
    ensures r.Some? ==> r.value == Join(config["raw_data_dir"].s, RawFileName(starId))
  {
    if outcome.NoLightCurve? then None
    else if "raw_data_dir" !in config || !config["raw_data_dir"].JStr? then None
    else if outcome.FetchRaised? then None
    else Some(Join(config["raw_data_dir"].s, RawFileName(starId)))
  }

  /** Python's text-mode line breaks: `\n`, and `\r` (universal newlines turn `\r` and
      `\r\n` into `\n`). Splitting at each of them may only add empty lines, which the
      loader drops. */
  predicate IsLineBreak(c: char) {
    c == '\n' || c == '\r'
  }

  /** Empty, or ending with a line break: appending starts a new line. */
  predicate EndsLine(s: string) {
    s == [] || IsLineBreak(s[|s| - 1])
  }

  /** The index of the last line break before `hi`, or -1 when there is none. */
  function LastBreak(s: string, hi: nat): (p: int)
    requires hi <= |s|
    ensures -1 <= p < hi
    ensures forall i :: p < i < hi ==> !IsLineBreak(s[i])
    ensures p >= 0 ==> IsLineBreak(s[p])
    decreases hi
  {
    if hi == 0 then -1 else if IsLineBreak(s[hi - 1]) then hi - 1 else LastBreak(s, hi - 1)
  }

  /** The lines of `s[..hi]`, without their line breaks, where the last line runs to
      `hi` whether or not a break follows it. */
  function OpenLines(s: string, hi: nat): seq<string>
    requires hi <= |s|
    decreases hi
  {
    var p := LastBreak(s, hi);
    if p < 0 then [s[..hi]] else OpenLines(s, p) + [s[p + 1..hi]]
  }

  /** The lines of a text file, without their line breaks: what iterating over the
      file yields, less the trailing newline of each line. A final break ends the last
      line rather than starting an empty one. */
  function FileLines(s: string): seq<string> {
    if s == [] then []
    else if IsLineBreak(s[|s| - 1]) then OpenLines(s, |s| - 1)
    else OpenLines(s, |s|)
  }

  /** The comprehension `[line.strip() for line in file if line.strip()]`. */
  function NonBlank(lines: seq<string>): seq<string> {
    if lines == [] then []
    else NonBlank(lines[..|lines| - 1]) +
         (if Strip(lines[|lines| - 1]) != [] then [Strip(lines[|lines| - 1])] else [])
  }

  /** The IDs read from the text of the ID list. */
  function LoadedIds(content: string): seq<string> {
    NonBlank(FileLines(content))
  }

  /** `load_star_ids(config)`: `content` is the text of the ID list, or None when it
      cannot be opened or read. */
  function LoadStarIds(config: Config, content: Option<string>): (r: Option<seq<string>>)
    ensures r.Some? <==> "star_ids_file" in config && content.Some?
    ensures r.Some? ==> r.value == LoadedIds(content.value)
    ensures r.Some? ==> |r.value| <= |FileLines(content.value)|
    ensures r.Some? ==> forall i :: 0 <= i < |r.value| ==> r.value[i] != [] && Strip(r.value[i]) == r.value[i]
  {
    if "star_ids_file" !in config || content.None? then None
    else
      NonBlankEntries(FileLines(content.value));
      NonBlankLength(FileLines(content.value));
      Some(LoadedIds(content.value))
  }

  lemma {:induction false} NonBlankAppend(a: seq<string>, b: seq<string>)
    ensures NonBlank(a + b) == NonBlank(a) + NonBlank(b)
  {
    if b != [] {
      var n := |b| - 1;
      assert (a + b)[..|a + b| - 1] == a + b[..n];
      NonBlankAppend(a, b[..n]);
    } else {
      assert a + b == a;
    }
  }

  /** Filtering keeps at most one entry per line. */
  lemma {:induction false} NonBlankLength(lines: seq<string>)
    ensures |NonBlank(lines)| <= |lines|
  {
    if lines != [] {
      NonBlankLength(lines[..|lines| - 1]);
    }
  }

  /** Every loaded ID is non-empty and has no whitespace at either end: entries are
      stripped lines. */
  lemma {:induction false} NonBlankEntries(lines: seq<string>)
    ensures forall i :: 0 <= i < |NonBlank(lines)| ==>
      NonBlank(lines)[i] != [] && Strip(NonBlank(lines)[i]) == NonBlank(lines)[i]
  {
    if lines != [] {
      var n := |lines| - 1;
      NonBlankEntries(lines[..n]);
      var s := Strip(lines[n]);
      if s != [] {
        StripIsTrimmedSlice(lines[n]);
        StripTrimmed(s);
      }
    }
  }

  /** A line is kept, stripped, exactly when it is not all whitespace. */
  lemma NonBlankOfLine(line: string)
    ensures NonBlank([line]) == (if forall k :: 0 <= k < |line| ==> IsSpace(line[k]) then [] else [Strip(line)])
  {
    StripIsTrimmedSlice(line);
    assert [line][..0] == [];
  }

  /** A file that ends with a line break, with one more newline-terminated line
      appended, reads as its lines followed by that line. */
  lemma FileLinesAppend(a: string, line: string)
    requires EndsLine(a)
    requires forall i :: 0 <= i < |line| ==> !IsLineBreak(line[i])
    ensures FileLines(a + line + "\n") == FileLines(a) + [line]
  {
    AppendedLineEnds(a, line);
    AppendedLineLast(a, line);
    if a != [] {
      OpenLinesPrefix(a, line + "\n", |a| - 1);
    }
  }

  /** A newline-terminated line yields one line. */
  lemma FileLinesOfLine(line: string)
    requires forall i :: 0 <= i < |line| ==> !IsLineBreak(line[i])
    ensures FileLines(line + "\n") == [line]
  {
    FileLinesAppend([], line);
    assert [] + line == line;
  }

  /** The breaks within `a` are found at the same places in `a + t`. */
  lemma {:induction false} LastBreakPrefix(a: string, t: string, hi: nat)
    requires hi <= |a|
    ensures LastBreak(a + t, hi) == LastBreak(a, hi)
    decreases hi
  {
    if hi > 0 {
      assert (a + t)[hi - 1] == a[hi - 1];
      if !IsLineBreak(a[hi - 1]) {
        LastBreakPrefix(a, t, hi - 1);
      }
    }
  }

  /** The lines within `a` are the same in `a + t`. */
  lemma {:induction false} OpenLinesPrefix(a: string, t: string, hi: nat)
    requires hi <= |a|
    ensures OpenLines(a + t, hi) == OpenLines(a, hi)
    decreases hi
  {
    var s := a + t;
    LastBreakPrefix(a, t, hi);
    var p := LastBreak(a, hi);
    assert s[..hi] == a[..hi];
    if p >= 0 {
      assert s[p + 1..hi] == a[p + 1..hi];
      OpenLinesPrefix(a, t, p);
    }
  }

  /** Over a run without breaks, the last break stays the one before the run. */
  lemma {:induction false} LastBreakSkips(s: string, lo: nat, hi: nat)
    requires lo <= hi <= |s|
    requires forall i :: lo <= i < hi ==> !IsLineBreak(s[i])
    ensures LastBreak(s, hi) == LastBreak(s, lo)
    decreases hi
  {
    if lo < hi {
      LastBreakSkips(s, lo, hi - 1);
    }
  }

  /** In `a + (line + tail)`, when `line` holds no break, the last break before the
      end of `line` is the last one of `a`. */
  lemma LastBreakOfAppended(a: string, line: string, tail: string)
    requires EndsLine(a)
    requires forall i :: 0 <= i < |line| ==> !IsLineBreak(line[i])
    ensures LastBreak(a + (line + tail), |a| + |line|) == |a| - 1
  {
    var s := a + (line + tail);
    forall i | |a| <= i < |a| + |line| ensures !IsLineBreak(s[i]) {
      assert s[i] == line[i - |a|];
    }
    LastBreakSkips(s, |a|, |a| + |line|);
    if a != [] {
      assert s[|a| - 1] == a[|a| - 1];
    }
  }

  /** The lines of `a + line + "\n"` end where `line` does. */
  lemma AppendedLineEnds(a: string, line: string)
    ensures FileLines(a + line + "\n") == OpenLines(a + (line + "\n"), |a| + |line|)
  {
    var s := a + line + "\n";
    assert s == a + (line + "\n");
    assert IsLineBreak(s[|s| - 1]);
  }

  /** When the last break before `hi` is just before `lo`, the last line is `s[lo..hi]`. */
  lemma LastLine(s: string, lo: nat, hi: nat)
    requires lo <= hi <= |s|
    requires LastBreak(s, hi) == lo - 1
    ensures OpenLines(s, hi) == (if lo == 0 then [] else OpenLines(s, lo - 1)) + [s[lo..hi]]
  {
    if lo == 0 {
      assert s[..hi] == s[lo..hi];
    }
  }

  /** The last line of `a + line + "\n"` is `line`, after the lines of `a`. */
  lemma AppendedLineLast(a: string, line: string)
    requires EndsLine(a)
    requires forall i :: 0 <= i < |line| ==> !IsLineBreak(line[i])
    ensures OpenLines(a + (line + "\n"), |a| + |line|) ==
      (if a == [] then [] else OpenLines(a + (line + "\n"), |a| - 1)) + [line]
  {
    LastBreakOfAppended(a, line, "\n");
    LastLine(a + (line + "\n"), |a|, |a| + |line|);
    MiddleSlice(a, line, "\n");
  }

  lemma MiddleSlice(a: string, line: string, tail: string)
    ensures (a + (line + tail))[|a|..|a| + |line|] == line
  {
  }

  /** `trigger_next_module()` on the configuration it reloads: Some(True) when the
      script exists and ran to exit 0, Some(False) when it is missing or failed; None
      when an exception escapes it. A missing or non-string `process_lightcurve_script`
      entry makes `os.path.join` raise TypeError, which escapes. */
  function TriggerNextModule(root: string, config: Config, scriptExists: bool, run: RunOutcome): (r: Option<bool>)
    ensures r == Some(true) <==>
      "process_lightcurve_script" in config && config["process_lightcurve_script"].JStr? &&
      Join(root, config["process_lightcurve_script"].s) != [] && scriptExists && run == ExitedZero
  {
    if "process_lightcurve_script" !in config || !config["process_lightcurve_script"].JStr? then None
    else
      var next := Join(root, config["process_lightcurve_script"].s);
      if next != [] && scriptExists then
        match run
        case ExitedZero => Some(true)
        case ExitedNonZero => Some(false)
        case LaunchRaised => None
      else Some(false)
  }

  /** The per-ID results of the loop of `main`, in ID order. */
  function FetchResults(ids: seq<string>, config: Config, fetches: nat -> FetchOutcome): (rs: seq<Option<string>>)
    ensures |rs| == |ids|
    ensures forall i :: 0 <= i < |ids| ==> rs[i] == FetchStarData(ids[i], config, fetches(i))
  {
    if ids == [] then []
    else
      var n := |ids| - 1;
      FetchResults(ids[..n], config, fetches) + [FetchStarData(ids[n], config, fetches(n))]
  }

  /** `successful_fetches`: how many results are not None. */
  function CountSaved(rs: seq<Option<string>>): (n: nat)
    ensures n <= |rs|
    ensures n > 0 <==> exists i :: 0 <= i < |rs| && rs[i].Some?
  {
    if rs == [] then 0
    else CountSaved(rs[..|rs| - 1]) + (if rs[|rs| - 1].Some? then 1 else 0)
  }

  lemma CountSavedAppend(rs: seq<Option<string>>, x: Option<string>)
    ensures CountSaved(rs + [x]) == CountSaved(rs) + (if x.Some? then 1 else 0)
  {
    assert (rs + [x])[..|rs|] == rs;
  }

  /** The per-ID results are determined pointwise. */
  lemma FetchResultsPointwise(ids: seq<string>, config: Config, fetches: nat -> FetchOutcome,
                              rs: seq<Option<string>>)
    requires |rs| == |ids|
    requires forall k :: 0 <= k < |ids| ==> rs[k] == FetchStarData(ids[k], config, fetches(k))
    ensures rs == FetchResults(ids, config, fetches)
  {
  }

  /** What `main` has once its three early checks pass: the loaded configuration
      (non-empty, with a log file the logging set-up could open) and the non-empty
      list of IDs. */
  function StartUp(root: string, file: Option<Config>, loggingOk: bool, idsFile: Option<string>)
    : Option<(Config, seq<string>)>
  {
    if file.None? then None
    else match AdjustedConfig(root, file.value)
      case None => None
      case Some(config) =>
        if config == map[] then None
        else if !("fetch_star_data_log" in config && loggingOk) then None
        else match LoadStarIds(config, idsFile)
          case None => None
          case Some(ids) => if ids == [] then None else Some((config, ids))
  }

  /** The loop of `main`: every ID is attempted once, in order, whatever happened to
      the earlier ones, and `successes` counts the results that are not None. */
  method FetchAll(ids: seq<string>, config: Config, fetches: nat -> FetchOutcome)
    returns (results: seq<Option<string>>, successes: nat)
    ensures results == FetchResults(ids, config, fetches)
    ensures successes == CountSaved(results)
  {
    results := [];
    successes := 0;
    var i := 0;
    while i < |ids|
      invariant 0 <= i <= |ids| && |results| == i
      invariant forall k :: 0 <= k < i ==> results[k] == FetchStarData(ids[k], config, fetches(k))
      invariant successes == CountSaved(results)
    {
      var result := FetchStarData(ids[i], config, fetches(i));
      CountSavedAppend(results, result);
      results := results + [result];
      if result.Some? {
        successes := successes + 1;
      }
      i := i + 1;
    }
    FetchResultsPointwise(ids, config, fetches, results);
  }

  /** `main()` and the `__main__` block around it. The configuration is read again by
      `trigger_next_module`; the model assumes the file did not change in between.
      `fetches(i)` is what happened to the i-th ID; `results` holds the per-ID results
      in order, `triggered` whether `trigger_next_module` was called, `ok` what `main`
      returns, `exitCode` the script's exit status. */
  method FetchMain(root: string, file: Option<Config>, loggingOk: bool, idsFile: Option<string>,
                   fetches: nat -> FetchOutcome, scriptExists: bool, run: RunOutcome)
    returns (ok: bool, exitCode: int, results: seq<Option<string>>, triggered: bool)
    ensures StartUp(root, file, loggingOk, idsFile).None? ==> !ok && !triggered && results == []
    ensures StartUp(root, file, loggingOk, idsFile).Some? ==>
      var (config, ids) := StartUp(root, file, loggingOk, idsFile).value;
      results == FetchResults(ids, config, fetches) &&
      (triggered <==> CountSaved(results) > 0) &&
      (ok <==> triggered && TriggerNextModule(root, config, scriptExists, run).Some?)
    ensures triggered <==> StartUp(root, file, loggingOk, idsFile).Some? && CountSaved(results) > 0
    ensures ok ==> triggered
    ensures exitCode == (if ok then 0 else 1)
  {
    results := [];
    ok := false;
    triggered := false;
    exitCode := 1;
    var loaded := LoadConfig(root, file);
    if loaded.None? || loaded.value == map[] {
      return;
    }
    var config := loaded.value;
    if !("fetch_star_data_log" in config && loggingOk) {
      return;
    }
    var starIds := LoadStarIds(config, idsFile);
    if starIds.None? || starIds.value == [] {
      return;
    }
    var ids := starIds.value;
    assert StartUp(root, file, loggingOk, idsFile) == Some((config, ids));
    var successes;
    results, successes := FetchAll(ids, config, fetches);
    if successes > 0 {
      triggered := true;
      var returned := TriggerNextModule(root, config, scriptExists, run);
      ok := returned.Some?;
    }
    exitCode := if ok then 0 else 1;
  }

  /** The hand-off ignores how the child process ended: unless an exception escapes
      `trigger_next_module`, it returns a value, so `main` reports success exactly when
      at least one download succeeded, whether the child process ran, failed or was
      never found. */
  lemma TriggerOutcomeIgnored(root: string, config: Config, scriptExists: bool, run: RunOutcome)
    requires "process_lightcurve_script" in config && config["process_lightcurve_script"].JStr?
    requires !run.LaunchRaised?
    ensures TriggerNextModule(root, config, scriptExists, run).Some?
  {
  }
}
