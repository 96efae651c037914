/** Values shared by every stage of the pipeline: optional and fallible results,
    a floating-point sample as numpy sees it, and the JSON documents the stages
    exchange (configuration files and result records). */
module Values {

  datatype Option<+T> = None | Some(value: T)

  datatype Result<+T, +E> = Ok(value: T) | Err(error: E)

  /** One IEEE-754 double as far as the pipeline looks at it: `np.isnan` is the only
      test the code applies, so infinities are kept apart from NaN. */
  datatype Sample = NaN | Inf(negative: bool) | Num(x: real)

  predicate IsNaN(s: Sample) {
    s.NaN?
  }

  /** A parsed JSON document (Python's `json.load` result). Python's json module also
      reads and writes the non-standard tokens NaN and Infinity, hence `Sample`. */
  datatype Json =
    | JNull
    | JBool(b: bool)
    | JNum(n: Sample)
    | JStr(s: string)
    | JList(items: seq<Json>)
    | JObject(fields: map<string, Json>)

  /** A JSON number holding a real value. */
  function Real(x: real): Json {
    JNum(Num(x))
  }

  /** How a child process started with `subprocess.run(..., check=True)` ended. */
  datatype RunOutcome =
    | ExitedZero     // the child process ran and exited 0
    | ExitedNonZero  // CalledProcessError, which the callers catch
    | LaunchRaised   // any other exception (the interpreter not found, ...), not caught
}
