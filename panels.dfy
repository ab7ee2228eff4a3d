/**
 * The in-memory panel: a wide table whose rows are indexed by date and whose
 * named columns hold optional numbers (a missing cell is a pandas NaN).
 */
module Panels {
  import opened Wrappers
  import opened Sequences

  /** A calendar day, counted in days, so that consecutive days differ by one. */
  type Date = int

  /** One cell of the panel; None is a missing value. */
  type Cell = Option<real>

  /** One column, aligned with the panel's dates. */
  type Column = seq<Cell>

  /**
   * `dates` is the row index, `names` the column order and `cols` the columns
   * by name.
   */
  datatype Panel = Panel(dates: seq<Date>, names: seq<string>, cols: map<string, Column>)

  /** Rows in ascending date order, distinct column names, one full-length column per name. */
  predicate WellFormed(p: Panel)
  {
    && Increasing(p.dates)
    && Distinct(p.names)
    && (forall n :: n in p.names ==> n in p.cols)
    && (forall n :: n in p.cols ==> n in p.names)
    && (forall n :: n in p.cols ==> |p.cols[n]| == |p.dates|)
  }

  /** The empty DataFrame: no rows and no columns. */
  const EmptyPanel: Panel := Panel([], [], map[])

  /** pandas `DataFrame.empty`: no rows or no columns. */
  predicate IsEmpty(p: Panel)
  {
    |p.dates| == 0 || |p.names| == 0
  }

  /** `df[name] = col`: replaces the column in place when it exists, appends it otherwise. */
  function SetColumn(p: Panel, name: string, col: Column): Panel
  {
    Panel(p.dates, if name in p.names then p.names else p.names + [name], p.cols[name := col])
  }

  lemma SetColumnWellFormed(p: Panel, name: string, col: Column)
    requires WellFormed(p) && |col| == |p.dates|
    ensures WellFormed(SetColumn(p, name, col))
    ensures SetColumn(p, name, col).names[..|p.names|] == p.names
  {
  }

  /** A column of `n` missing cells (`np.nan` broadcast over the index). */
  function AllMissing(n: nat): (r: Column)
    ensures |r| == n
    ensures forall i :: 0 <= i < n ==> r[i].None?
  {
    seq(n, _ => None)
  }

  /** The row of the last present cell (the last row of `col.dropna()`), if any. */
  function LastPresent(col: Column): (r: Option<nat>)
    ensures r.None? <==> forall i :: 0 <= i < |col| ==> col[i].None?
    ensures r.Some? ==> r.value < |col| && col[r.value].Some?
    ensures r.Some? ==> forall i :: r.value < i < |col| ==> col[i].None?
  {
    if |col| == 0 then None
    else if col[|col| - 1].Some? then Some(|col| - 1)
    else LastPresent(col[..|col| - 1])
  }

  /** The row at which `d` stands in `dates`, if it does. */
  function IndexOf(dates: seq<Date>, d: Date): (r: Option<nat>)
    ensures r.None? <==> d !in dates
    ensures r.Some? ==> r.value < |dates| && dates[r.value] == d
  {
    if |dates| == 0 then None
    else if dates[|dates| - 1] == d then Some(|dates| - 1)
    else IndexOf(dates[..|dates| - 1], d)
  }

  lemma IndexOfIncreasing(dates: seq<Date>, k: nat)
    requires Increasing(dates) && k < |dates|
    ensures IndexOf(dates, dates[k]) == Some(k)
  {
    var r := IndexOf(dates, dates[k]);
    assert r.Some?;
    assert dates[r.value] == dates[k];
  }

  /** The ascending union of two ascending date sequences (the outer join of two indexes). */
  function Merge(a: seq<Date>, b: seq<Date>): (r: seq<Date>)
    requires Increasing(a) && Increasing(b)
    ensures Increasing(r)
    ensures forall x :: x in r <==> x in a || x in b
    decreases |a| + |b|
  {
    if a == [] then b
    else if b == [] then a
    else if a[0] < b[0] then
      var rest := Merge(a[1..], b);
      assert forall x :: x in rest ==> a[0] < x by { HeadBelow(a); HeadBelow(b); }
      ConsIncreasing(a[0], rest);
      [a[0]] + rest
    else if b[0] < a[0] then
      var rest := Merge(a, b[1..]);
      assert forall x :: x in rest ==> b[0] < x by { HeadBelow(a); HeadBelow(b); }
      ConsIncreasing(b[0], rest);
      [b[0]] + rest
    else
      var rest := Merge(a[1..], b[1..]);
      assert forall x :: x in rest ==> a[0] < x by { HeadBelow(a); HeadBelow(b); }
      ConsIncreasing(a[0], rest);
      [a[0]] + rest
  }

  lemma ConsIncreasing(x: Date, s: seq<Date>)
    requires Increasing(s) && forall y :: y in s ==> x < y
    ensures Increasing([x] + s)
  {
    var r := [x] + s;
    forall i, j | 0 <= i < j < |r|
      ensures r[i] < r[j]
    {
      if i > 0 {
        assert r[i] == s[i - 1] && r[j] == s[j - 1];
      } else {
        assert r[j] == s[j - 1];
        assert r[j] in s;
      }
    }
  }

  lemma HeadBelow(a: seq<Date>)
    requires Increasing(a) && a != []
    ensures forall x :: x in a[1..] ==> a[0] < x
    ensures forall x :: x in a ==> a[0] <= x
  {
  }
}
