/** Stage 1, Data_Download_Module/scripts/fetch_star_ids.py: query the catalog named
    in the configuration and append the first N star IDs to the ID list, one `TIC <id>` line each.
    The catalog query and the file are outside the model: the query's rows (their
    `ID` column, as text) or its failure, and whether the list could be opened for append, are
    parameters; the file is its text content. */
module FetchStarIds {
  import opened Values

  /** The line written for one catalog row. */
  function TicLine(id: string): string {
    "TIC " + id + "\n"
  }

  /** Python's slice `xs[:n]`: the first `n` elements, or for a negative `n` all but
      the last `-n`, in both cases capped by the length. */
  function Truncate<T>(xs: seq<T>, n: int): (r: seq<T>)
    ensures r <= xs
    ensures n >= 0 ==> |r| == (if n < |xs| then n else |xs|)
    ensures n < 0 ==> |r| == (if -n < |xs| then |xs| + n else 0)
  {
    if n >= 0 then (if n < |xs| then xs[..n] else xs)
    else if -n < |xs| then xs[..|xs| + n]
    else []
  }

  /** The text the loop of `save_star_ids` appends for `ids`, in order. */
  function Written(ids: seq<string>): string {
    if ids == [] then []
    else Written(ids[..|ids| - 1]) + TicLine(ids[|ids| - 1])
  }

  /** Number of newline characters in `s`. */
  function Newlines(s: string): nat {
    if s == [] then 0 else Newlines(s[..|s| - 1]) + (if s[|s| - 1] == '\n' then 1 else 0)
  }

  lemma {:induction false} NewlinesAppend(a: string, b: string)
    ensures Newlines(a + b) == Newlines(a) + Newlines(b)
  {
    if b != [] {
      assert (a + b)[..|a + b| - 1] == a + b[..|b| - 1];
      NewlinesAppend(a, b[..|b| - 1]);
    } else {
      assert a + b == a;
    }
  }

  lemma {:induction false} NewlinesAbsent(s: string)
    requires '\n' !in s
    ensures Newlines(s) == 0
  {
    if s != [] {
      var t := s[..|s| - 1];
      assert forall i :: 0 <= i < |t| ==> t[i] == s[i];
      NewlinesAbsent(t);
    }
  }

  /** One written line per ID: the appended text holds exactly `|ids|` line ends when
      no ID contains one. */
  lemma {:induction false} WrittenLineCount(ids: seq<string>)
    requires forall i :: 0 <= i < |ids| ==> '\n' !in ids[i]
    ensures Newlines(Written(ids)) == |ids|
  {
    if ids != [] {
      var n := |ids| - 1;
      WrittenLineCount(ids[..n]);
      NewlinesAppend(Written(ids[..n]), TicLine(ids[n]));
      NewlinesAppend("TIC " + ids[n], "\n");
      NewlinesAppend("TIC ", ids[n]);
      NewlinesAbsent(ids[n]);
      NewlinesAbsent("TIC ");
      assert TicLine(ids[n]) == "TIC " + ids[n] + "\n";
    }
  }

  /** Appending the lines for `a` and then for `b` writes the lines for `a + b`. */
  lemma {:induction false} WrittenAppend(a: seq<string>, b: seq<string>)
    ensures Written(a + b) == Written(a) + Written(b)
  {
    if b != [] {
      var n := |b| - 1;
      assert (a + b)[..|a + b| - 1] == a + b[..n];
      WrittenAppend(a, b[..n]);
    } else {
      assert a + b == a;
    }
  }

  /** `save_star_ids(query_results)`: the list file as it is after the call, given its
      earlier content. It is opened for append, so that content stays as it was; when
      it cannot be opened (the error is only logged) nothing is written. */
  method SaveStarIds(prior: string, ids: seq<string>, numStarIds: int, writable: bool)
    returns (content: string)
    ensures prior <= content
    ensures writable ==> content == prior + Written(Truncate(ids, numStarIds))
    ensures !writable ==> content == prior
  {
    content := prior;
    if !writable {
      return;
    }
    var rows := Truncate(ids, numStarIds);
    var i := 0;
    while i < |rows|
      invariant 0 <= i <= |rows|
      invariant content == prior + Written(rows[..i])
    {
      assert rows[..i + 1][..i] == rows[..i];
      content := content + TicLine(rows[i]);
      i := i + 1;
    }
    assert rows[..|rows|] == rows;
  }

  /** With a non-negative count the list gains exactly min(rows, N) lines. */
  lemma SavedLineCount(prior: string, ids: seq<string>, numStarIds: int)
    requires numStarIds >= 0
    requires forall i :: 0 <= i < |ids| ==> '\n' !in ids[i]
    ensures Newlines(prior + Written(Truncate(ids, numStarIds))) ==
      Newlines(prior) + (if numStarIds < |ids| then numStarIds else |ids|)
  {
    var rows := Truncate(ids, numStarIds);
    forall i | 0 <= i < |rows| ensures '\n' !in rows[i] {
      assert rows[i] == ids[i];
    }
    WrittenLineCount(rows);
    NewlinesAppend(prior, Written(rows));
  }

  /** What `query_star_catalog` logs about the size of its result. */
  datatype QueryLog =
    | QueryFailed             // the query raised: an error is logged
    | FewerThanRequested      // the warning: fewer rows than num_star_ids
    | EnoughRows              // the debug message confirming the count

  /** The result check of `query_star_catalog`: the rows, or None when the query
      raised; the warning is logged exactly when fewer than N rows came back. */
  function QueryStarCatalog(query: Option<seq<string>>, numStarIds: int): (r: (Option<seq<string>>, QueryLog))
    ensures r.0 == query
    ensures r.1 == FewerThanRequested <==> query.Some? && |query.value| < numStarIds
    ensures r.1 == QueryFailed <==> query.None?
  {
    match query
    case None => (None, QueryFailed)
    case Some(rows) => (Some(rows), if |rows| < numStarIds then FewerThanRequested else EnoughRows)
  }

  /** The `__main__` block: query, then save only a result that is not None. Returns
      the list's content afterwards and the query's log entry. */
  method FetchIdsMain(query: Option<seq<string>>, numStarIds: int, prior: string, writable: bool)
    returns (content: string, log: QueryLog)
    ensures query.None? ==> content == prior && log == QueryFailed
    ensures query.Some? && writable ==> content == prior + Written(Truncate(query.value, numStarIds))
    ensures query.Some? && !writable ==> content == prior
    ensures log == FewerThanRequested <==> query.Some? && |query.value| < numStarIds
  {
    var (results, l) := QueryStarCatalog(query, numStarIds);
    log := l;
    content := prior;
    if results.Some? {
      content := SaveStarIds(prior, results.value, numStarIds, writable);
    }
  }
}
