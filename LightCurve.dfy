/** The sample cleaning shared by the preprocessing and analysis stages: collapsing a
    multi-dimensional time column to its first sub-column, and the NaN mask
    `~np.isnan(time) & ~np.isnan(flux)` applied by boolean indexing to all three
    columns. */
module LightCurve {
  import opened Values

  /** A FITS table column as numpy hands it over: one value per row, or a fixed number
      of values per row (a two-dimensional array of shape rows x width). */
  datatype Column = Flat(values: seq<Sample>) | Grid(rows: seq<seq<Sample>>, width: nat)

  /** numpy arrays are rectangular: every row of a grid column has the same width. */
  type TimeColumn = c: Column | c.Grid? ==> forall i :: 0 <= i < |c.rows| ==> |c.rows[i]| == c.width
    witness Flat([])

  /** `time[:, 0]` when `len(time.shape) > 1`, else `time` unchanged. A grid of width 0
      has no column 0, and numpy raises IndexError (None here). */
  function FlattenTime(c: TimeColumn): (r: Option<seq<Sample>>)
    ensures c.Flat? ==> r == Some(c.values)
    ensures c.Grid? ==> (r.Some? <==> c.width > 0)
    ensures c.Grid? && r.Some? ==>
      |r.value| == |c.rows| && forall i :: 0 <= i < |c.rows| ==> r.value[i] == c.rows[i][0]
  {
    match c
    case Flat(values) => Some(values)
    case Grid(rows, width) =>
      if width == 0 then None else Some(seq(|rows|, i requires 0 <= i < |rows| => rows[i][0]))
  }

  /** The three columns of a light curve: time, flux and flux uncertainty. */
  datatype Series = Series(time: seq<Sample>, flux: seq<Sample>, fluxErr: seq<Sample>)

  predicate Aligned(s: Series) {
    |s.time| == |s.flux| == |s.fluxErr|
  }

  /** The mask's test at one index. Only NaN is rejected (`np.isnan`), so infinite
      values pass, and the flux uncertainty is not consulted. */
  predicate Keep(t: Sample, f: Sample) {
    !IsNaN(t) && !IsNaN(f)
  }

  /** No sample the mask would drop. */
  predicate Clean(s: Series)
    requires Aligned(s)
  {
    forall i :: 0 <= i < |s.time| ==> Keep(s.time[i], s.flux[i])
  }

  /** The boolean array `valid`. */
  function ValidMask(s: Series): (m: seq<bool>)
    requires Aligned(s)
    ensures |m| == |s.time|
    ensures forall i :: 0 <= i < |m| ==> (m[i] <==> Keep(s.time[i], s.flux[i]))
  {
    seq(|s.time|, i requires 0 <= i < |s.time| => Keep(s.time[i], s.flux[i]))
  }

  /** The positions a boolean mask selects, in ascending order. */
  function Kept(m: seq<bool>): (ks: seq<nat>)
    ensures forall k :: 0 <= k < |ks| ==> ks[k] < |m| && m[ks[k]]
    ensures forall a, b :: 0 <= a < b < |ks| ==> ks[a] < ks[b]
    ensures forall i :: 0 <= i < |m| && m[i] ==> i in ks
  {
    if m == [] then []
    else Kept(m[..|m| - 1]) + (if m[|m| - 1] then [|m| - 1] else [])
  }

  /** Boolean indexing `xs[m]`: the elements at the positions `m` selects. */
  function Select<T>(xs: seq<T>, m: seq<bool>): seq<T>
    requires |xs| == |m|
  {
    if xs == [] then []
    else Select(xs[..|xs| - 1], m[..|m| - 1]) + (if m[|m| - 1] then [xs[|xs| - 1]] else [])
  }

  /** Boolean indexing returns the element at each selected position, in order. */
  lemma {:induction false} SelectAt<T>(xs: seq<T>, m: seq<bool>)
    requires |xs| == |m|
    ensures |Select(xs, m)| == |Kept(m)|
    ensures forall k :: 0 <= k < |Kept(m)| ==> Select(xs, m)[k] == xs[Kept(m)[k]]
  {
    if xs != [] {
      var n := |xs| - 1;
      SelectAt(xs[..n], m[..n]);
      assert Kept(m) == Kept(m[..n]) + (if m[n] then [n] else []);
    }
  }

  /** A mask that selects everything returns its input. */
  lemma {:induction false} SelectAll<T>(xs: seq<T>, m: seq<bool>)
    requires |xs| == |m|
    requires forall i :: 0 <= i < |m| ==> m[i]
    ensures Select(xs, m) == xs
  {
    if xs != [] {
      var n := |xs| - 1;
      SelectAll(xs[..n], m[..n]);
      assert xs[..n] + [xs[n]] == xs;
    }
  }

  /** `valid.sum()`. */
  function ValidCount(s: Series): nat
    requires Aligned(s)
  {
    |Kept(ValidMask(s))|
  }

  /** `time[valid]`, `flux[valid]`, `flux_err[valid]`. */
  function Mask(s: Series): Series
    requires Aligned(s)
  {
    var m := ValidMask(s);
    Series(Select(s.time, m), Select(s.flux, m), Select(s.fluxErr, m))
  }

  /** What masking keeps: the three columns stay aligned, with one entry per valid
      sample; entry k of every column comes from the same source position, positions
      ascend (relative order is kept), and a position is kept exactly when its time and
      flux are not NaN, whatever its uncertainty holds. */
  lemma MaskKeepsValidSamples(s: Series)
    requires Aligned(s)
    ensures var r := Mask(s); var ks := Kept(ValidMask(s));
      Aligned(r) && |r.time| == ValidCount(s) &&
      (forall k :: 0 <= k < |ks| ==>
        r.time[k] == s.time[ks[k]] && r.flux[k] == s.flux[ks[k]] && r.fluxErr[k] == s.fluxErr[ks[k]]) &&
      (forall a, b :: 0 <= a < b < |ks| ==> ks[a] < ks[b]) &&
      (forall i :: 0 <= i < |s.time| ==> (i in ks <==> Keep(s.time[i], s.flux[i])))
  {
    var m := ValidMask(s);
    SelectAt(s.time, m);
    SelectAt(s.flux, m);
    SelectAt(s.fluxErr, m);
  }

  /** Masked output contains no NaN time or flux. */
  lemma MaskIsClean(s: Series)
    requires Aligned(s)
    ensures Aligned(Mask(s)) && Clean(Mask(s))
  {
    MaskKeepsValidSamples(s);
  }

  /** Masking a clean series returns it unchanged. */
  lemma MaskOfCleanIsIdentity(s: Series)
    requires Aligned(s) && Clean(s)
    ensures Mask(s) == s
  {
    var m := ValidMask(s);
    SelectAll(s.time, m);
    SelectAll(s.flux, m);
    SelectAll(s.fluxErr, m);
  }

  /** Masking is idempotent. */
  lemma MaskIdempotent(s: Series)
    requires Aligned(s)
    ensures Aligned(Mask(s)) && Mask(Mask(s)) == Mask(s)
  {
    MaskIsClean(s);
    MaskOfCleanIsIdentity(Mask(s));
  }

  /** Light-curve files end in `.fits`; its `.` occurs once, first, and the suffix
      holds no `/`. */
  lemma FitsSuffix()
    ensures '/' !in ".fits" && ".fits"[0] == '.'
    ensures forall j :: 0 <= j < |".fits"| && j != 0 ==> ".fits"[j] != '.'
  {
  }
}
