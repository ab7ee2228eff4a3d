/**
 * The per-column statistics of the metrics engine, one cell at a time: period
 * differences, percentage changes, and trailing-window mean, standard
 * deviation and z-score. A missing cell is a pandas NaN. The square root
 * behind the standard deviation is a parameter `sqrt`.
 */
module Stats {
  import opened Wrappers
  import opened Panels

  function Sum(vs: seq<real>): real
  {
    if vs == [] then 0.0 else Sum(vs[..|vs| - 1]) + vs[|vs| - 1]
  }

  function Mean(vs: seq<real>): real
    requires |vs| > 0
  {
    Sum(vs) / (|vs| as real)
  }

  /** The sum of squared deviations from `m`. */
  function SquaredDeviations(vs: seq<real>, m: real): real
  {
    if vs == [] then 0.0
    else SquaredDeviations(vs[..|vs| - 1], m) + Square(vs[|vs| - 1] - m)
  }

  function Square(d: real): real
  {
    d * d
  }

  /** The sample variance (`ddof=1`, the pandas default). */
  function Variance(vs: seq<real>): real
    requires |vs| >= 2
  {
    SquaredDeviations(vs, Mean(vs)) / ((|vs| - 1) as real)
  }

  /** The trailing window of `w` rows ending at row `i`, when every one of them is present (`min_periods = window`). */
  function Window(x: Column, w: nat, i: nat): (r: Option<seq<real>>)
    requires i < |x|
    ensures r.Some? <==> 0 < w <= i + 1 && forall j :: i + 1 - w <= j <= i ==> x[j].Some?
    ensures r.Some? ==> |r.value| == w && forall k :: 0 <= k < w ==> x[i + 1 - w + k] == Some(r.value[k])
  {
    if w == 0 || w > i + 1 then None
    else if forall j :: i + 1 - w <= j <= i ==> x[j].Some? then
      Some(seq(w, k requires 0 <= k < w => x[i + 1 - w + k].value))
    else None
  }

  /** `series.diff(p)` at row `i`. */
  function DiffAt(x: Column, p: nat, i: nat): (r: Cell)
    requires i < |x|
    ensures r.Some? <==> p <= i && x[i].Some? && x[i - p].Some?
    ensures r.Some? ==> x[i].value == x[i - p].value + r.value
  {
    if p <= i && x[i].Some? && x[i - p].Some? then Some(x[i].value - x[i - p].value) else None
  }

  /**
   * `series.pct_change(p, fill_method=None) * 100` at row `i`. A zero base is
   * missing here; in floating point it is an infinity or a NaN.
   */
  function PctChangeAt(x: Column, p: nat, i: nat): (r: Cell)
    requires i < |x|
    ensures r.Some? <==> p <= i && x[i].Some? && x[i - p].Some? && x[i - p].value != 0.0
    ensures r.Some? ==> x[i].value == x[i - p].value * (1.0 + r.value / 100.0)
  {
    if p <= i && x[i].Some? && x[i - p].Some? && x[i - p].value != 0.0 then
      var a, b := x[i].value, x[i - p].value;
      var pct := (a / b - 1.0) * 100.0;
      assert pct / 100.0 == a / b - 1.0;
      assert b * (a / b) == a;
      Some(pct)
    else None
  }

  /** `series.rolling(w).mean()` at row `i`. */
  function RollingMeanAt(x: Column, w: nat, i: nat): (r: Cell)
    requires i < |x|
    ensures r.Some? <==> Window(x, w, i).Some?
    ensures r.Some? ==> r.value * (w as real) == Sum(Window(x, w, i).value)
  {
    match Window(x, w, i)
    case None => None
    case Some(vs) => Some(Mean(vs))
  }

  /** `series.rolling(w).std()` at row `i`: missing below two rows, as the sample deviation is undefined there. */
  function RollingStdAt(x: Column, w: nat, i: nat, sqrt: real -> real): (r: Cell)
    requires i < |x|
    ensures r.Some? <==> 2 <= w && Window(x, w, i).Some?
    ensures r.Some? ==> r.value == sqrt(Variance(Window(x, w, i).value))
  {
    match Window(x, w, i)
    case None => None
    case Some(vs) => if |vs| < 2 then None else Some(sqrt(Variance(vs)))
  }

  /** `(series - ma) / std.replace(0, nan)` at row `i`, with mean and deviation over the same window. */
  function ZScoreAt(x: Column, w: nat, i: nat, sqrt: real -> real): (r: Cell)
    requires i < |x|
    ensures r.Some? <==> RollingStdAt(x, w, i, sqrt).Some? && RollingStdAt(x, w, i, sqrt).value != 0.0
    ensures r.Some? ==> RollingMeanAt(x, w, i).Some? && x[i].Some?
    ensures r.Some? ==>
      x[i].value == RollingMeanAt(x, w, i).value + r.value * RollingStdAt(x, w, i, sqrt).value
  {
    var ma := RollingMeanAt(x, w, i);
    var sd := RollingStdAt(x, w, i, sqrt);
    if sd.None? || sd.value == 0.0 then None
    else
      assert x[i + 1 - w + (w - 1)] == x[i];
      var z := (x[i].value - ma.value) / sd.value;
      assert z * sd.value == x[i].value - ma.value;
      Some(z)
  }

  /** One whole column, computed row by row. */
  function DiffColumn(x: Column, p: nat): (r: Column)
    ensures |r| == |x|
  {
    seq(|x|, i requires 0 <= i < |x| => DiffAt(x, p, i))
  }

  function PctChangeColumn(x: Column, p: nat): (r: Column)
    ensures |r| == |x|
  {
    seq(|x|, i requires 0 <= i < |x| => PctChangeAt(x, p, i))
  }

  function RollingMeanColumn(x: Column, w: nat): (r: Column)
    ensures |r| == |x|
  {
    seq(|x|, i requires 0 <= i < |x| => RollingMeanAt(x, w, i))
  }

  function RollingStdColumn(x: Column, w: nat, sqrt: real -> real): (r: Column)
    ensures |r| == |x|
  {
    seq(|x|, i requires 0 <= i < |x| => RollingStdAt(x, w, i, sqrt))
  }

  function ZScoreColumn(x: Column, w: nat, sqrt: real -> real): (r: Column)
    ensures |r| == |x|
  {
    seq(|x|, i requires 0 <= i < |x| => ZScoreAt(x, w, i, sqrt))
  }

  /** Every value bounded by `lo` and `hi` bounds the sum by `n * lo` and `n * hi`. */
  lemma {:induction false} SumBounds(vs: seq<real>, lo: real, hi: real)
    requires forall k :: 0 <= k < |vs| ==> lo <= vs[k] <= hi
    ensures (|vs| as real) * lo <= Sum(vs) <= (|vs| as real) * hi
  {
    if vs != [] {
      SumBounds(vs[..|vs| - 1], lo, hi);
    }
  }

  /** The rolling mean lies between the smallest and the largest value of its window. */
  lemma RollingMeanBounds(x: Column, w: nat, i: nat, lo: real, hi: real)
    requires i < |x|
    requires forall j :: i + 1 - w <= j <= i && 0 <= j ==> x[j].Some? ==> lo <= x[j].value <= hi
    ensures RollingMeanAt(x, w, i).Some? ==> lo <= RollingMeanAt(x, w, i).value <= hi
  {
    if Window(x, w, i).Some? {
      var vs := Window(x, w, i).value;
      forall k | 0 <= k < |vs|
        ensures lo <= vs[k] <= hi
      {
        assert x[i + 1 - w + k] == Some(vs[k]);
      }
      SumBounds(vs, lo, hi);
      QuotientBounds(Sum(vs), w as real, lo, hi);
    }
  }

  /** A quotient of a value between `n * lo` and `n * hi` by a positive `n` lies between `lo` and `hi`. */
  lemma QuotientBounds(s: real, n: real, lo: real, hi: real)
    requires n > 0.0 && n * lo <= s <= n * hi
    ensures lo <= s / n <= hi
  {
    assert (s / n) * n == s;
  }

  /** The squared deviations from `m` of values that all equal `m` sum to zero. */
  lemma {:induction false} SquaredDeviationsConstant(vs: seq<real>, m: real)
    requires forall k :: 0 <= k < |vs| ==> vs[k] == m
    ensures SquaredDeviations(vs, m) == 0.0
  {
    if vs != [] {
      SquaredDeviationsConstant(vs[..|vs| - 1], m);
    }
  }

  lemma {:induction false} SumConstant(vs: seq<real>, c: real)
    requires forall k :: 0 <= k < |vs| ==> vs[k] == c
    ensures Sum(vs) == (|vs| as real) * c
  {
    if vs != [] {
      SumConstant(vs[..|vs| - 1], c);
    }
  }

  /** The sample variance of a constant window is zero. */
  lemma VarianceOfConstant(vs: seq<real>)
    requires |vs| >= 2
    requires forall k :: 0 <= k < |vs| ==> vs[k] == vs[0]
    ensures Mean(vs) == vs[0] && Variance(vs) == 0.0
  {
    SumConstant(vs, vs[0]);
    SquaredDeviationsConstant(vs, vs[0]);
  }

  /**
   * With a square root that maps zero to zero, the z-score is missing on a
   * window whose values are all equal: the zero-deviation guard.
   */
  lemma ZScoreConstantWindow(x: Column, w: nat, i: nat, sqrt: real -> real)
    requires i < |x| && sqrt(0.0) == 0.0
    requires Window(x, w, i).Some?
    requires forall j :: i + 1 - w <= j <= i ==> x[j] == x[i]
    ensures ZScoreAt(x, w, i, sqrt).None?
  {
    var vs := Window(x, w, i).value;
    if 2 <= w {
      forall k | 0 <= k < |vs|
        ensures vs[k] == vs[0]
      {
        assert x[i + 1 - w + k] == Some(vs[k]);
        assert x[i + 1 - w] == Some(vs[0]);
      }
      VarianceOfConstant(vs);
    }
  }
}
