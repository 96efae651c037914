/** Stage 4's detector, Analyze_Module/scripts/transit_detection.py: the guards
    `run_bls` puts around astropy's Box Least Squares search and its choice of the
    best candidate. The search itself is foreign numerics; its outcome is a parameter:
    the grid of periods, durations, depths and powers `autopower` returns, or None
    when building the model or searching raised. */
module TransitDetection {
  import opened Values

  /** The columns of the `autopower` result that `run_bls` reads, one entry per
      grid point. */
  datatype BlsResults = BlsResults(period: seq<real>, duration: seq<real>, depth: seq<real>, power: seq<real>)

  /** A result record as `json.dump` writes it: a flat object. */
  type Record = map<string, Json>

  const CandidateKeys: set<string> := {"period", "duration", "depth", "power"}

  /** `k` is where `np.argmax` stops: the first index of the largest power. */
  predicate IsFirstMax(p: seq<real>, k: nat) {
    k < |p| && (forall j :: 0 <= j < |p| ==> p[j] <= p[k]) && (forall j :: 0 <= j < k ==> p[j] < p[k])
  }

  /** `np.argmax(power)`, scanning the grid in order. */
  function ArgMax(p: seq<real>): (k: nat)
    requires |p| > 0
    ensures IsFirstMax(p, k)
  {
    if |p| == 1 then 0
    else
      var k := ArgMax(p[..|p| - 1]);
      if p[|p| - 1] > p[k] then |p| - 1 else k
  }

  /** Only one index is the first maximum. */
  lemma FirstMaxUnique(p: seq<real>, k1: nat, k2: nat)
    requires IsFirstMax(p, k1) && IsFirstMax(p, k2)
    ensures k1 == k2
  {
    assert p[k1] <= p[k2] && p[k2] <= p[k1];
  }

  /** The search outcome has a best index the other columns can be read at: otherwise
      `np.argmax` of an empty array raises ValueError, or indexing raises IndexError. */
  predicate Selectable(g: BlsResults) {
    |g.power| > 0 && ArgMax(g.power) < |g.period| && ArgMax(g.power) < |g.duration| &&
    ArgMax(g.power) < |g.depth|
  }

  /** The record `run_bls` returns for a grid point. */
  function Candidate(g: BlsResults, k: nat): (r: Record)
    requires k < |g.period| && k < |g.duration| && k < |g.depth| && k < |g.power|
    ensures r.Keys == CandidateKeys
  {
    map["period" := Real(g.period[k]), "duration" := Real(g.duration[k]),
        "depth" := Real(g.depth[k]), "power" := Real(g.power[k])]
  }

  /** The guards of `run_bls`: all three arrays non-empty, and of one length. */
  predicate InputUsable(time: seq<Sample>, flux: seq<Sample>, fluxErr: seq<Sample>) {
    |time| > 0 && |flux| > 0 && |fluxErr| > 0 && |time| == |flux| && |flux| == |fluxErr|
  }

  /** `run_bls(time, flux, flux_err)`: the empty record `{}` for empty or mismatched
      input and for any exception; otherwise the candidate at the best power. */
  function RunBls(time: seq<Sample>, flux: seq<Sample>, fluxErr: seq<Sample>, search: Option<BlsResults>)
    : (r: Record)
    ensures |time| == 0 || |flux| == 0 || |fluxErr| == 0 ==> r == map[]
    ensures |time| != |flux| || |flux| != |fluxErr| ==> r == map[]
    ensures search.None? ==> r == map[]
    ensures r != map[] <==> InputUsable(time, flux, fluxErr) && search.Some? && Selectable(search.value)
    ensures r != map[] ==> r.Keys == CandidateKeys
  {
    if |time| == 0 || |flux| == 0 || |fluxErr| == 0 then map[]
    else if |time| != |flux| || |flux| != |fluxErr| then map[]
    else match search
      case None => map[]
      case Some(g) =>
        if |g.power| == 0 then map[]
        else
          var k := ArgMax(g.power);
          if k < |g.period| && k < |g.duration| && k < |g.depth| then Candidate(g, k) else map[]
  }

  /** A non-empty result describes one grid point, the first of highest power: its
      period, duration and depth are read at that point, and the reported power is
      the power there, at least every power on the grid. */
  lemma RunBlsReportsBest(time: seq<Sample>, flux: seq<Sample>, fluxErr: seq<Sample>, g: BlsResults)
    requires RunBls(time, flux, fluxErr, Some(g)) != map[]
    ensures exists k: nat ::
      (IsFirstMax(g.power, k) && k < |g.period| && k < |g.duration| && k < |g.depth| &&
       RunBls(time, flux, fluxErr, Some(g)) == Candidate(g, k))
    ensures var r := RunBls(time, flux, fluxErr, Some(g));
      r["power"].JNum? && r["power"].n.Num? &&
      forall j :: 0 <= j < |g.power| ==> g.power[j] <= r["power"].n.x
  {
    var k := ArgMax(g.power);
    assert IsFirstMax(g.power, k);
  }
}
