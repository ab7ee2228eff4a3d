/**
 * The metrics engine: loads the observations as a wide panel (optionally on a
 * daily calendar with values carried forward), adds the derived metrics, then
 * one frame of change statistics and one of rolling statistics per column,
 * and joins them all onto the panel.
 */
module Metrics {
  import opened Wrappers
  import opened Sequences
  import opened Panels
  import opened Config
  import opened Database
  import opened Formulas
  import opened Frames
  import opened Dicts
  import Stats

  /** Every calendar day from `lo` to `hi`: the index `asfreq("D")` produces. */
  function Days(lo: Date, hi: Date): (r: seq<Date>)
    requires lo <= hi
    ensures |r| == hi - lo + 1 && forall i :: 0 <= i < |r| ==> r[i] == lo + i
    ensures Increasing(r)
  {
    seq(hi - lo + 1, i requires 0 <= i < hi - lo + 1 => lo + i)
  }

  /** The raw cell of column `n` on date `d`; a date without a row is missing. */
  function RawCell(p: Panel, n: string, d: Date): Cell
    requires WellFormed(p) && n in p.cols
  {
    match IndexOf(p.dates, d)
    case None => None
    case Some(j) => p.cols[n][j]
  }

  /** The value `ffill` leaves at row `i`: the last present cell at or before `i`. */
  function Carried(col: Column, i: nat): Cell
    requires i < |col|
  {
    match LastPresent(col[..i + 1])
    case None => None
    case Some(j) => col[j]
  }

  /** `Series.ffill()`: each missing cell takes the value of the nearest present cell above it. */
  function FFill(col: Column): (r: Column)
    ensures |r| == |col|
    ensures forall i :: 0 <= i < |col| ==> r[i] == Carried(col, i)
  {
    if |col| == 0 then []
    else
      var n := |col| - 1;
      var pre := FFill(col[..n]);
      var cell := if col[n].Some? then col[n] else if n == 0 then None else pre[n - 1];
      forall i | 0 <= i < n
        ensures Carried(col[..n], i) == Carried(col, i)
      {
        assert col[..n][..i + 1] == col[..i + 1];
      }
      assert col[..n + 1] == col;
      assert col[..n][..n] == col[..n];
      pre + [cell]
  }

  /** Carrying forward: the value kept at row `i` is the last present cell at or before it, or missing when there is none. */
  lemma CarriedValue(col: Column, i: nat)
    requires i < |col|
    ensures Carried(col, i).None? ==> forall k :: 0 <= k <= i ==> col[k].None?
    ensures Carried(col, i).Some? ==> LastPresent(col[..i + 1]).Some?
    ensures LastPresent(col[..i + 1]).Some? ==>
      var j := LastPresent(col[..i + 1]).value;
      j <= i && col[j] == Carried(col, i) && forall k :: j < k <= i ==> col[k].None?
  {
    var prefix := col[..i + 1];
    assert forall k :: 0 <= k <= i ==> prefix[k] == col[k];
    match LastPresent(prefix)
    case None =>
    case Some(j) =>
      assert col[j] == Carried(col, i);
  }

  /** The row a present carried value comes from: nothing is present after it up to row `i`. */
  lemma CarriedSource(col: Column, i: nat) returns (j: nat)
    requires i < |col| && Carried(col, i).Some?
    ensures j <= i && col[j] == Carried(col, i)
    ensures forall k :: j < k <= i ==> col[k].None?
  {
    CarriedValue(col, i);
    j := LastPresent(col[..i + 1]).value;
  }

  /** `df.asfreq("D")` for one column: its raw cell on each day of `days`. */
  function Reindexed(p: Panel, n: string, days: seq<Date>): (r: Column)
    requires WellFormed(p) && n in p.cols
    ensures |r| == |days| && forall k :: 0 <= k < |days| ==> r[k] == RawCell(p, n, days[k])
  {
    seq(|days|, k requires 0 <= k < |days| => RawCell(p, n, days[k]))
  }

  /** `df.asfreq("D").ffill()` on a non-empty panel. */
  function FillDaily(p: Panel): (r: Panel)
    requires WellFormed(p) && |p.dates| > 0
    ensures WellFormed(r) && r.names == p.names && |r.dates| > 0
    ensures r.dates == Days(p.dates[0], p.dates[|p.dates| - 1])
    ensures forall n :: n in p.cols ==> n in r.cols && r.cols[n] == FFill(Reindexed(p, n, r.dates))
  {
    var days := Days(p.dates[0], p.dates[|p.dates| - 1]);
    Panel(days, p.names, map n | n in p.cols :: FFill(Reindexed(p, n, days)))
  }

  /** The filled panel runs over every day from the first to the last raw date. */
  lemma FillDailyCalendar(p: Panel)
    requires WellFormed(p) && |p.dates| > 0
    ensures var r := FillDaily(p);
      && r.dates[0] == p.dates[0] && r.dates[|r.dates| - 1] == p.dates[|p.dates| - 1]
      && forall i :: 0 <= i < |r.dates| ==> r.dates[i] == p.dates[0] + i
  {
  }

  /** A filled cell is missing only when its column has no value on or before that day. */
  lemma FillDailyMissing(p: Panel, n: string, i: nat)
    requires WellFormed(p) && |p.dates| > 0 && n in p.cols
    requires i < |FillDaily(p).dates| && FillDaily(p).cols[n][i].None?
    ensures forall e :: p.dates[0] <= e <= FillDaily(p).dates[i] ==> RawCell(p, n, e).None?
  {
    DaysMissing(p, n, p.dates[0], p.dates[|p.dates| - 1], i);
  }

  /** On the calendar `lo..hi`, nothing carried to day `lo + i` means no raw value from `lo` to that day. */
  lemma DaysMissing(p: Panel, n: string, lo: Date, hi: Date, i: nat)
    requires WellFormed(p) && n in p.cols && lo <= hi && i <= hi - lo
    requires Carried(Reindexed(p, n, Days(lo, hi)), i).None?
    ensures forall e :: lo <= e <= lo + i ==> RawCell(p, n, e).None?
  {
    var raw := Reindexed(p, n, Days(lo, hi));
    CarriedValue(raw, i);
    forall e | lo <= e <= lo + i
      ensures RawCell(p, n, e).None?
    {
      assert raw[e - lo].None?;
    }
  }

  /**
   * A present filled cell holds the most recent value of its column on or
   * before that day: the raw value of some earlier day, with nothing present
   * between that day and this one.
   */
  lemma FillDailyCarries(p: Panel, n: string, i: nat) returns (e: Date)
    requires WellFormed(p) && |p.dates| > 0 && n in p.cols
    requires i < |FillDaily(p).dates| && FillDaily(p).cols[n][i].Some?
    ensures p.dates[0] <= e <= FillDaily(p).dates[i]
    ensures RawCell(p, n, e) == FillDaily(p).cols[n][i]
    ensures forall e' :: e < e' <= FillDaily(p).dates[i] ==> RawCell(p, n, e').None?
  {
    var lo, hi := p.dates[0], p.dates[|p.dates| - 1];
    e := DaysCarry(p, n, lo, hi, i);
  }

  /** The day a carried value on the calendar `lo..hi` comes from. */
  lemma DaysCarry(p: Panel, n: string, lo: Date, hi: Date, i: nat) returns (e: Date)
    requires WellFormed(p) && n in p.cols && lo <= hi && i <= hi - lo
    requires Carried(Reindexed(p, n, Days(lo, hi)), i).Some?
    ensures lo <= e <= lo + i
    ensures RawCell(p, n, e) == Carried(Reindexed(p, n, Days(lo, hi)), i)
    ensures forall e' :: e < e' <= lo + i ==> RawCell(p, n, e').None?
  {
    var days := Days(lo, hi);
    var raw := Reindexed(p, n, days);
    var j := CarriedSource(raw, i);
    e := lo + j;
    assert days[j] == e;
    assert raw[j] == RawCell(p, n, e);
    forall e' | e < e' <= lo + i
      ensures RawCell(p, n, e').None?
    {
      var k := e' - lo;
      assert j < k <= i && days[k] == e';
      assert raw[k].None? && raw[k] == RawCell(p, n, days[k]);
    }
  }

  /** Where the raw panel holds an observation, the filled panel holds the same value on that day. */
  lemma FillDailyAgrees(p: Panel, n: string, j: nat)
    requires WellFormed(p) && n in p.cols && j < |p.dates| && p.cols[n][j].Some?
    ensures var r := FillDaily(p);
      && 0 <= p.dates[j] - p.dates[0] < |r.dates|
      && r.dates[p.dates[j] - p.dates[0]] == p.dates[j]
      && r.cols[n][p.dates[j] - p.dates[0]] == p.cols[n][j]
  {
    var r := FillDaily(p);
    var i := p.dates[j] - p.dates[0];
    if j > 0 {
      assert p.dates[0] < p.dates[j];
    }
    if j < |p.dates| - 1 {
      assert p.dates[j] < p.dates[|p.dates| - 1];
    }
    assert 0 <= i < |r.dates| && r.dates[i] == p.dates[j];
    IndexOfIncreasing(p.dates, j);
    var raw := Reindexed(p, n, r.dates);
    assert raw[i] == p.cols[n][j];
    assert r.cols[n][i] == Carried(raw, i);
    assert raw[..i + 1][i] == raw[i];
    assert LastPresent(raw[..i + 1]) == Some(i);
  }

  /** `load_base_data`: the wide panel of the configured series, daily and carried forward when `ffill`. */
  function BaseData(t: Table, cfg: Config, start: Option<Date>, end: Option<Date>, ffill: bool): (r: Panel)
    requires TableOrdered(t)
    ensures WellFormed(r)
  {
    var raw := AllObservations(t, SeriesKeys(cfg), start, end);
    if IsEmpty(raw) then raw
    else if ffill then FillDaily(raw)
    else raw
  }

  /** The loaded panel is empty exactly when no configured series has a row in range; else it has one column per such series. */
  lemma BaseDataColumns(t: Table, cfg: Config, start: Option<Date>, end: Option<Date>, ffill: bool)
    requires TableOrdered(t)
    ensures var r := BaseData(t, cfg, start, end, ffill);
      && (IsEmpty(r) <==> forall k :: k in SeriesKeys(cfg) ==> RangeRows(SeriesOf(t, k), start, end) == [])
      && (IsEmpty(r) ==> r == EmptyPanel)
      && (forall k :: k in r.names <==> k in SeriesKeys(cfg) && RangeRows(SeriesOf(t, k), start, end) != [])
  {
    AllObservationsColumns(t, SeriesKeys(cfg), start, end);
  }

  /** `load_base_data`: reads the configured series from the store, then fills when asked to. */
  method LoadBaseData(store: Store, cfg: Config, start: Option<Date>, end: Option<Date>, ffill: bool) returns (df: Panel)
    requires store.Valid()
    ensures df == BaseData(store.observations, cfg, start, end, ffill)
  {
    df := store.GetAllObservations(SeriesKeys(cfg), start, end);
    if IsEmpty(df) {
      return;
    }
    if ffill {
      df := FillDaily(df);
    }
  }

  /** `calculate_derived`: each definition is evaluated against the growing result and assigned to its key. */
  method CalculateDerived(defs: seq<DerivedDef>, df: Panel) returns (result: Panel)
    requires WellFormed(df)
    ensures result == DerivedSpec(defs, df)
  {
    result := df;
    for i := 0 to |defs|
      invariant result == DerivedSpec(defs[..i], df)
    {
      assert defs[..i + 1][..i] == defs[..i];
      var d := defs[i];
      var col := FormulaColumn(d.formula, result);
      if col.Some? {
        result := SetColumn(result, d.key, col.value);
      } else {
        result := SetColumn(result, d.key, AllMissing(|result.dates|));
      }
    }
    assert defs[..|defs|] == defs;
  }

  /** Change statistics take no square root: the argument `StatsFrame` asks for is never applied. */
  function NoRoot(v: real): real
  {
    v
  }

  /** Assigning one more statistic to a frame. */
  lemma StatsFrameSnoc(dates: seq<Date>, column: string, x: Column, stats: seq<(string, Stat)>, s: (string, Stat), sqrt: real -> real)
    ensures StatsFrame(dates, column, x, stats + [s], sqrt) ==
            SetColumn(StatsFrame(dates, column, x, stats, sqrt), StatName(column, s.0), StatColumn(s.1, x, sqrt))
  {
    assert (stats + [s])[..|stats|] == stats;
  }

  /** One iteration of `calculate_changes`: a known type assigns its column, another type changes nothing. */
  lemma ChangeStep(dates: seq<Date>, column: string, x: Column, defs: seq<ChangeDef>, i: nat)
    requires i < |defs|
    ensures var before := StatsFrame(dates, column, x, ChangeStats(defs[..i]), NoRoot);
      var d := defs[i];
      StatsFrame(dates, column, x, ChangeStats(defs[..i + 1]), NoRoot) == match d.kind
        case Diff => SetColumn(before, StatName(column, d.name), Stats.DiffColumn(x, d.periods))
        case PctChange => SetColumn(before, StatName(column, d.name), Stats.PctChangeColumn(x, d.periods))
        case OtherChange(_) => before
  {
    assert defs[..i + 1][..i] == defs[..i];
    var d := defs[i];
    var stats := ChangeStats(defs[..i]);
    match d.kind
    case Diff => StatsFrameSnoc(dates, column, x, stats, (d.name, DiffStat(d.periods)), NoRoot);
    case PctChange => StatsFrameSnoc(dates, column, x, stats, (d.name, PctStat(d.periods)), NoRoot);
    case OtherChange(_) =>
  }

  /** One iteration of `calculate_rolling`: a known type assigns its column, another type changes nothing. */
  lemma RollingStep(dates: seq<Date>, column: string, x: Column, defs: seq<RollingDef>, i: nat, sqrt: real -> real)
    requires i < |defs|
    ensures var before := StatsFrame(dates, column, x, RollingStats(defs[..i]), sqrt);
      var d := defs[i];
      StatsFrame(dates, column, x, RollingStats(defs[..i + 1]), sqrt) == match d.kind
        case RollingMean => SetColumn(before, StatName(column, d.name), Stats.RollingMeanColumn(x, d.window))
        case RollingStd => SetColumn(before, StatName(column, d.name), Stats.RollingStdColumn(x, d.window, sqrt))
        case ZScore => SetColumn(before, StatName(column, d.name), Stats.ZScoreColumn(x, d.window, sqrt))
        case OtherRolling(_) => before
  {
    assert defs[..i + 1][..i] == defs[..i];
    var d := defs[i];
    var stats := RollingStats(defs[..i]);
    match d.kind
    case RollingMean => StatsFrameSnoc(dates, column, x, stats, (d.name, MeanStat(d.window)), sqrt);
    case RollingStd => StatsFrameSnoc(dates, column, x, stats, (d.name, StdStat(d.window)), sqrt);
    case ZScore => StatsFrameSnoc(dates, column, x, stats, (d.name, ZStat(d.window)), sqrt);
    case OtherRolling(_) =>
  }

  /** `calculate_changes`: one column per change definition of type `diff` or `pct_change`, on the panel's dates. */
  method CalculateChanges(defs: seq<ChangeDef>, df: Panel, column: string) returns (result: Panel)
    requires WellFormed(df) && column in df.cols
    ensures result == StatsFrame(df.dates, column, df.cols[column], ChangeStats(defs), NoRoot)
  {
    var series := df.cols[column];
    result := EmptyFrame(df.dates);
    for i := 0 to |defs|
      invariant result == StatsFrame(df.dates, column, series, ChangeStats(defs[..i]), NoRoot)
    {
      ChangeStep(df.dates, column, series, defs, i);
      var d := defs[i];
      match d.kind
      case Diff =>
        result := SetColumn(result, StatName(column, d.name), Stats.DiffColumn(series, d.periods));
      case PctChange =>
        result := SetColumn(result, StatName(column, d.name), Stats.PctChangeColumn(series, d.periods));
      case OtherChange(_) =>
    }
    assert defs[..|defs|] == defs;
  }

  /** `calculate_rolling`: one column per rolling definition of type `rolling_mean`, `rolling_std` or `zscore`. */
  method CalculateRolling(defs: seq<RollingDef>, df: Panel, column: string, sqrt: real -> real) returns (result: Panel)
    requires WellFormed(df) && column in df.cols
    ensures result == StatsFrame(df.dates, column, df.cols[column], RollingStats(defs), sqrt)
  {
    var series := df.cols[column];
    result := EmptyFrame(df.dates);
    for i := 0 to |defs|
      invariant result == StatsFrame(df.dates, column, series, RollingStats(defs[..i]), sqrt)
    {
      RollingStep(df.dates, column, series, defs, i, sqrt);
      var d := defs[i];
      match d.kind
      case RollingMean =>
        result := SetColumn(result, StatName(column, d.name), Stats.RollingMeanColumn(series, d.window));
      case RollingStd =>
        result := SetColumn(result, StatName(column, d.name), Stats.RollingStdColumn(series, d.window, sqrt));
      case ZScore =>
        result := SetColumn(result, StatName(column, d.name), Stats.ZScoreColumn(series, d.window, sqrt));
      case OtherRolling(_) =>
    }
    assert defs[..|defs|] == defs;
  }

  /** The frame `calculate_changes` returns for column `c`. */
  function ChangeFrame(d: Panel, c: string, defs: seq<ChangeDef>): (r: Panel)
    requires WellFormed(d) && c in d.cols
  {
    StatsFrame(d.dates, c, d.cols[c], ChangeStats(defs), NoRoot)
  }

  /** The frame `calculate_rolling` returns for column `c`. */
  function RollingFrame(d: Panel, c: string, defs: seq<RollingDef>, sqrt: real -> real): (r: Panel)
    requires WellFormed(d) && c in d.cols
  {
    StatsFrame(d.dates, c, d.cols[c], RollingStats(defs), sqrt)
  }

  /** The change frames of `cols`, one per column, in order. */
  function ChangeFrames(d: Panel, cols: seq<string>, defs: seq<ChangeDef>): (r: seq<Panel>)
    requires WellFormed(d) && forall c :: c in cols ==> c in d.cols
    ensures |r| == |cols| && forall k :: 0 <= k < |cols| ==> r[k] == ChangeFrame(d, cols[k], defs)
  {
    seq(|cols|, k requires 0 <= k < |cols| => ChangeFrame(d, cols[k], defs))
  }

  /** The rolling frames of `cols`, one per column, in order. */
  function RollingFrames(d: Panel, cols: seq<string>, defs: seq<RollingDef>, sqrt: real -> real): (r: seq<Panel>)
    requires WellFormed(d) && forall c :: c in cols ==> c in d.cols
    ensures |r| == |cols| && forall k :: 0 <= k < |cols| ==> r[k] == RollingFrame(d, cols[k], defs, sqrt)
  {
    seq(|cols|, k requires 0 <= k < |cols| => RollingFrame(d, cols[k], defs, sqrt))
  }

  lemma ChangeFramesSnoc(d: Panel, cols: seq<string>, i: nat, defs: seq<ChangeDef>)
    requires WellFormed(d) && (forall c :: c in cols ==> c in d.cols) && i < |cols|
    ensures ChangeFrames(d, cols[..i + 1], defs) == ChangeFrames(d, cols[..i], defs) + [ChangeFrame(d, cols[i], defs)]
  {
    var a, b := ChangeFrames(d, cols[..i + 1], defs), ChangeFrames(d, cols[..i], defs) + [ChangeFrame(d, cols[i], defs)];
    forall k | 0 <= k < |a|
      ensures a[k] == b[k]
    {
      assert cols[..i + 1][k] == cols[k];
    }
  }

  lemma RollingFramesSnoc(d: Panel, cols: seq<string>, i: nat, defs: seq<RollingDef>, sqrt: real -> real)
    requires WellFormed(d) && (forall c :: c in cols ==> c in d.cols) && i < |cols|
    ensures RollingFrames(d, cols[..i + 1], defs, sqrt) == RollingFrames(d, cols[..i], defs, sqrt) + [RollingFrame(d, cols[i], defs, sqrt)]
  {
    var a, b := RollingFrames(d, cols[..i + 1], defs, sqrt), RollingFrames(d, cols[..i], defs, sqrt) + [RollingFrame(d, cols[i], defs, sqrt)];
    forall k | 0 <= k < |a|
      ensures a[k] == b[k]
    {
      assert cols[..i + 1][k] == cols[k];
    }
  }

  /** Every change frame, then every rolling frame: the order of the joins. */
  function MetricFrames(d: Panel, cfg: Config, sqrt: real -> real): seq<Panel>
    requires WellFormed(d)
  {
    ChangeFrames(d, d.names, cfg.changes) + RollingFrames(d, d.names, cfg.rolling, sqrt)
  }

  /** Every frame is well formed and on the panel's dates, so each can be joined. */
  lemma MetricFramesJoinable(d: Panel, cfg: Config, sqrt: real -> real)
    requires WellFormed(d)
    ensures Joinable(d, MetricFrames(d, cfg, sqrt))
  {
    var cf, rf := ChangeFrames(d, d.names, cfg.changes), RollingFrames(d, d.names, cfg.rolling, sqrt);
    forall k | 0 <= k < |cf|
      ensures WellFormed(cf[k]) && cf[k].dates == d.dates
    {
      var c := d.names[k];
      StatsFrameWellFormed(d.dates, c, d.cols[c], ChangeStats(cfg.changes), NoRoot);
    }
    forall k | 0 <= k < |rf|
      ensures WellFormed(rf[k]) && rf[k].dates == d.dates
    {
      var c := d.names[k];
      StatsFrameWellFormed(d.dates, c, d.cols[c], RollingStats(cfg.rolling), sqrt);
    }
    assert MetricFrames(d, cfg, sqrt) == cf + rf;
  }

  /** The panel whose columns are given statistics: the loaded panel with the derived metrics added. */
  function DerivedPanel(t: Table, cfg: Config, start: Option<Date>, end: Option<Date>, ffill: bool): (r: Panel)
    requires TableOrdered(t)
    ensures WellFormed(r)
  {
    DerivedSpec(cfg.derived, BaseData(t, cfg, start, end, ffill))
  }

  /**
   * `calculate_all_metrics`: an empty load is returned as it is; otherwise the
   * derived panel joined with every frame. A join whose columns overlap
   * raises in pandas, which is the failure here.
   */
  function AllMetrics(t: Table, cfg: Config, start: Option<Date>, end: Option<Date>, ffill: bool, sqrt: real -> real): (r: Result<Panel, MetricsError>)
    requires TableOrdered(t)
    ensures r.Success? ==> WellFormed(r.value)
  {
    if IsEmpty(BaseData(t, cfg, start, end, ffill)) then Success(BaseData(t, cfg, start, end, ffill))
    else
      var d := DerivedPanel(t, cfg, start, end, ffill);
      MetricFramesJoinable(d, cfg, sqrt);
      JoinAll(d, MetricFrames(d, cfg, sqrt))
  }

  /** One more join: a refused join stays refused. */
  lemma JoinAllSnoc(df: Panel, frames: seq<Panel>, m: nat)
    requires Joinable(df, frames) && m < |frames|
    ensures JoinAll(df, frames[..m + 1]) == match JoinAll(df, frames[..m])
      case Failure(e) => Failure(e)
      case Success(p) => Join(p, frames[m])
  {
    assert frames[..m + 1][..m] == frames[..m];
  }

  /** The first loop of `calculate_all_metrics`: the change frame and the rolling frame of every column, in column order. */
  method CollectFrames(df: Panel, cfg: Config, sqrt: real -> real) returns (changesDfs: seq<Panel>, rollingDfs: seq<Panel>)
    requires WellFormed(df)
    ensures changesDfs == ChangeFrames(df, df.names, cfg.changes)
    ensures rollingDfs == RollingFrames(df, df.names, cfg.rolling, sqrt)
  {
    var allColumns := df.names;
    changesDfs, rollingDfs := [], [];
    for i := 0 to |allColumns|
      invariant changesDfs == ChangeFrames(df, allColumns[..i], cfg.changes)
      invariant rollingDfs == RollingFrames(df, allColumns[..i], cfg.rolling, sqrt)
    {
      ChangeFramesSnoc(df, allColumns, i, cfg.changes);
      RollingFramesSnoc(df, allColumns, i, cfg.rolling, sqrt);
      var c := CalculateChanges(cfg.changes, df, allColumns[i]);
      var w := CalculateRolling(cfg.rolling, df, allColumns[i], sqrt);
      changesDfs := changesDfs + [c];
      rollingDfs := rollingDfs + [w];
    }
    assert allColumns[..|allColumns|] == allColumns;
  }

  /** The join loops of `calculate_all_metrics`: every change frame, then every rolling frame, joined to `df` in turn. */
  method JoinFrames(df: Panel, changesDfs: seq<Panel>, rollingDfs: seq<Panel>) returns (r: Result<Panel, MetricsError>)
    requires Joinable(df, changesDfs + rollingDfs)
    ensures r == JoinAll(df, changesDfs + rollingDfs)
  {
    var frames := changesDfs + rollingDfs;
    r := Success(df);
    for k := 0 to |changesDfs|
      invariant r == JoinAll(df, frames[..k])
    {
      JoinAllSnoc(df, frames, k);
      assert frames[k] == changesDfs[k];
      if r.Success? {
        r := Join(r.value, changesDfs[k]);
      }
    }
    for m := |changesDfs| to |frames|
      invariant r == JoinAll(df, frames[..m])
    {
      JoinAllSnoc(df, frames, m);
      assert frames[m] == rollingDfs[m - |changesDfs|];
      if r.Success? {
        r := Join(r.value, rollingDfs[m - |changesDfs|]);
      }
    }
    assert frames[..|frames|] == frames;
  }

  /** `calculate_all_metrics`: loads, derives, computes every frame, then joins them. */
  method CalculateAllMetrics(store: Store, cfg: Config, start: Option<Date>, end: Option<Date>, ffill: bool, sqrt: real -> real)
    returns (r: Result<Panel, MetricsError>)
    requires store.Valid()
    ensures r == AllMetrics(store.observations, cfg, start, end, ffill, sqrt)
  {
    var df := LoadBaseData(store, cfg, start, end, ffill);
    if IsEmpty(df) {
      return Success(df);
    }
    df := CalculateDerived(cfg.derived, df);
    assert df == DerivedPanel(store.observations, cfg, start, end, ffill);
    var changesDfs, rollingDfs := CollectFrames(df, cfg, sqrt);
    assert changesDfs + rollingDfs == MetricFrames(df, cfg, sqrt);
    MetricFramesJoinable(df, cfg, sqrt);
    r := JoinFrames(df, changesDfs, rollingDfs);
  }

  /** The suffixes of every statistic of known type: change suffixes, then rolling suffixes. */
  function StatSuffixes(cfg: Config): seq<string>
  {
    Suffixes(ChangeStats(cfg.changes)) + Suffixes(RollingStats(cfg.rolling))
  }

  /** A name belongs to a sequence of frames when one of the frames has it. */
  lemma {:induction false} AllNamesMember(frames: seq<Panel>, n: string)
    ensures n in AllNames(frames) <==> exists k :: 0 <= k < |frames| && n in frames[k].names
    decreases |frames|
  {
    if frames != [] {
      var m := |frames| - 1;
      var pre := frames[..m];
      AllNamesMember(pre, n);
      assert forall k :: 0 <= k < m ==> pre[k] == frames[k];
      if n !in frames[m].names && exists k :: 0 <= k < |frames| && n in frames[k].names {
        var k :| 0 <= k < |frames| && n in frames[k].names;
        assert k < m && n in pre[k].names;
      }
    }
  }

  /** A statistics frame of column `c` names exactly the columns `{c}_{suffix}` of its statistics. */
  lemma FrameNamesMember(dates: seq<Date>, c: string, x: Column, stats: seq<(string, Stat)>, sqrt: real -> real, n: string)
    ensures n in StatsFrame(dates, c, x, stats, sqrt).names <==> exists s :: s in Suffixes(stats) && n == StatName(c, s)
  {
    StatsFrameNames(dates, c, x, stats, sqrt);
    var names := StatNames(c, Suffixes(stats));
    if n in names {
      var j :| 0 <= j < |names| && names[j] == n;
      assert Suffixes(stats)[j] in Suffixes(stats);
    }
    if exists s :: s in Suffixes(stats) && n == StatName(c, s) {
      var s :| s in Suffixes(stats) && n == StatName(c, s);
      var j :| 0 <= j < |Suffixes(stats)| && Suffixes(stats)[j] == s;
      assert names[j] == n;
    }
  }

  /** The frame at position `i` is the change frame of column `i`. */
  lemma MetricFramesChangeAt(d: Panel, cfg: Config, sqrt: real -> real, i: nat)
    requires WellFormed(d) && i < |d.names|
    ensures |MetricFrames(d, cfg, sqrt)| == 2 * |d.names|
    ensures MetricFrames(d, cfg, sqrt)[i] == StatsFrame(d.dates, d.names[i], d.cols[d.names[i]], ChangeStats(cfg.changes), NoRoot)
  {
    var cf, rf := ChangeFrames(d, d.names, cfg.changes), RollingFrames(d, d.names, cfg.rolling, sqrt);
    assert MetricFrames(d, cfg, sqrt) == cf + rf;
    assert (cf + rf)[i] == cf[i];
  }

  /** The frame at position `|names| + i` is the rolling frame of column `i`. */
  lemma MetricFramesRollingAt(d: Panel, cfg: Config, sqrt: real -> real, i: nat)
    requires WellFormed(d) && i < |d.names|
    ensures |MetricFrames(d, cfg, sqrt)| == 2 * |d.names|
    ensures MetricFrames(d, cfg, sqrt)[|d.names| + i] == StatsFrame(d.dates, d.names[i], d.cols[d.names[i]], RollingStats(cfg.rolling), sqrt)
  {
    var cf, rf := ChangeFrames(d, d.names, cfg.changes), RollingFrames(d, d.names, cfg.rolling, sqrt);
    assert MetricFrames(d, cfg, sqrt) == cf + rf;
    assert (cf + rf)[|d.names| + i] == rf[i];
  }

  /** Every name the frames add is `{c}_{suffix}` for a column `c` of the panel and the suffix of a known statistic. */
  lemma MetricFramesNamesSound(d: Panel, cfg: Config, sqrt: real -> real, n: string)
    requires WellFormed(d) && n in AllNames(MetricFrames(d, cfg, sqrt))
    ensures exists c, s :: c in d.names && s in StatSuffixes(cfg) && n == StatName(c, s)
  {
    var frames := MetricFrames(d, cfg, sqrt);
    var names := d.names;
    AllNamesMember(frames, n);
    var k :| 0 <= k < |frames| && n in frames[k].names;
    assert |frames| == 2 * |names| by {
      if names != [] {
        MetricFramesChangeAt(d, cfg, sqrt, 0);
      }
    }
    var i := if k < |names| then k else k - |names|;
    var c := names[i];
    var s;
    if k < |names| {
      assert frames[k] == StatsFrame(d.dates, c, d.cols[c], ChangeStats(cfg.changes), NoRoot) by {
        MetricFramesChangeAt(d, cfg, sqrt, i);
      }
      s := FrameNameSuffix(d.dates, c, d.cols[c], ChangeStats(cfg.changes), NoRoot, n);
    } else {
      assert frames[k] == StatsFrame(d.dates, c, d.cols[c], RollingStats(cfg.rolling), sqrt) by {
        MetricFramesRollingAt(d, cfg, sqrt, i);
      }
      s := FrameNameSuffix(d.dates, c, d.cols[c], RollingStats(cfg.rolling), sqrt, n);
    }
    assert s in StatSuffixes(cfg);
  }

  /** The suffix behind a name of a statistics frame. */
  lemma FrameNameSuffix(dates: seq<Date>, c: string, x: Column, stats: seq<(string, Stat)>, sqrt: real -> real, n: string) returns (s: string)
    requires n in StatsFrame(dates, c, x, stats, sqrt).names
    ensures s in Suffixes(stats) && n == StatName(c, s)
  {
    FrameNamesMember(dates, c, x, stats, sqrt, n);
    s :| s in Suffixes(stats) && n == StatName(c, s);
  }

  /** Every `{c}_{suffix}` for a column `c` of the panel and the suffix of a known statistic is added by some frame. */
  lemma MetricFramesNamesComplete(d: Panel, cfg: Config, sqrt: real -> real, c: string, s: string)
    requires WellFormed(d) && c in d.names && s in StatSuffixes(cfg)
    ensures StatName(c, s) in AllNames(MetricFrames(d, cfg, sqrt))
  {
    var frames := MetricFrames(d, cfg, sqrt);
    var n := StatName(c, s);
    var i :| 0 <= i < |d.names| && d.names[i] == c;
    if s in Suffixes(ChangeStats(cfg.changes)) {
      assert i < |frames| && n in frames[i].names by {
        MetricFramesChangeAt(d, cfg, sqrt, i);
        FrameNamesMember(d.dates, c, d.cols[c], ChangeStats(cfg.changes), NoRoot, n);
      }
    } else {
      assert |d.names| + i < |frames| && n in frames[|d.names| + i].names by {
        MetricFramesRollingAt(d, cfg, sqrt, i);
        FrameNamesMember(d.dates, c, d.cols[c], RollingStats(cfg.rolling), sqrt, n);
      }
    }
    AllNamesMember(frames, n);
  }

  /** No configured series has a row in range exactly when the result is empty, and then it is the empty table. */
  lemma AllMetricsEmpty(t: Table, cfg: Config, start: Option<Date>, end: Option<Date>, ffill: bool, sqrt: real -> real)
    requires TableOrdered(t)
    ensures var r := AllMetrics(t, cfg, start, end, ffill, sqrt);
      && ((forall k :: k in SeriesKeys(cfg) ==> RangeRows(SeriesOf(t, k), start, end) == []) <==> r.Success? && IsEmpty(r.value))
      && (r.Success? && IsEmpty(r.value) ==> r.value == EmptyPanel)
  {
    var base := BaseData(t, cfg, start, end, ffill);
    BaseDataColumns(t, cfg, start, end, ffill);
    if !IsEmpty(base) {
      var d := DerivedPanel(t, cfg, start, end, ffill);
      DerivedNames(cfg.derived, base);
      assert base.names[0] in d.names;
      MetricFramesJoinable(d, cfg, sqrt);
      JoinAllNames(d, MetricFrames(d, cfg, sqrt));
    }
  }

  /**
   * The columns of `calculate_all_metrics`: the derived panel's columns, then
   * the frames' columns, provided no two coincide (else the join fails); the
   * frames' columns are exactly the `{c}_{suffix}` for each column `c` of the
   * derived panel and each known statistic, so statistics columns get no
   * statistics of their own.
   */
  lemma AllMetricsColumns(t: Table, cfg: Config, start: Option<Date>, end: Option<Date>, ffill: bool, sqrt: real -> real)
    requires TableOrdered(t) && !IsEmpty(BaseData(t, cfg, start, end, ffill))
    ensures var d := DerivedPanel(t, cfg, start, end, ffill);
      var added := AllNames(MetricFrames(d, cfg, sqrt));
      var r := AllMetrics(t, cfg, start, end, ffill, sqrt);
      && d.names == Dedup(BaseData(t, cfg, start, end, ffill).names + DerivedKeyList(cfg.derived))
      && (r.Success? <==> Distinct(d.names + added))
      && (r.Success? ==> r.value.names == d.names + added)
      && forall n :: n in added <==> exists c, s :: c in d.names && s in StatSuffixes(cfg) && n == StatName(c, s)
  {
    var d := DerivedPanel(t, cfg, start, end, ffill);
    DerivedNames(cfg.derived, BaseData(t, cfg, start, end, ffill));
    MetricFramesJoinable(d, cfg, sqrt);
    JoinAllNames(d, MetricFrames(d, cfg, sqrt));
    var added := AllNames(MetricFrames(d, cfg, sqrt));
    forall n | n in added
      ensures exists c, s :: c in d.names && s in StatSuffixes(cfg) && n == StatName(c, s)
    {
      MetricFramesNamesSound(d, cfg, sqrt, n);
    }
    forall c, s | c in d.names && s in StatSuffixes(cfg)
      ensures StatName(c, s) in added
    {
      MetricFramesNamesComplete(d, cfg, sqrt, c, s);
    }
  }

  /** After the joins, a statistic of frame `i` is a column of the result holding that statistic. */
  lemma JoinedStat(d: Panel, frames: seq<Panel>, i: nat, c: string, stats: seq<(string, Stat)>, sqrt: real -> real, k: nat)
    requires Joinable(d, frames) && JoinAll(d, frames).Success? && i < |frames|
    requires c in d.cols && frames[i] == StatsFrame(d.dates, c, d.cols[c], stats, sqrt)
    requires k < |stats| && LastOfSuffix(stats, k)
    ensures StatName(c, stats[k].0) in JoinAll(d, frames).value.cols
    ensures JoinAll(d, frames).value.cols[StatName(c, stats[k].0)] == StatColumn(stats[k].1, d.cols[c], sqrt)
  {
    var n := StatName(c, stats[k].0);
    StatsFrameCell(d.dates, c, d.cols[c], stats, sqrt, k);
    assert n in frames[i].cols && frames[i].cols[n] == StatColumn(stats[k].1, d.cols[c], sqrt);
    JoinAllFrameCell(d, frames, i, n);
  }

  /** In the joined panel, the change column `{c}_{suffix}` holds the change statistic of column `c`. */
  lemma JoinedChangeCells(d: Panel, cfg: Config, sqrt: real -> real, c: string, k: nat)
    requires WellFormed(d) && Joinable(d, MetricFrames(d, cfg, sqrt)) && JoinAll(d, MetricFrames(d, cfg, sqrt)).Success?
    requires c in d.names && k < |ChangeStats(cfg.changes)| && LastOfSuffix(ChangeStats(cfg.changes), k)
    ensures var r := JoinAll(d, MetricFrames(d, cfg, sqrt)).value;
      var s := ChangeStats(cfg.changes)[k];
      StatName(c, s.0) in r.cols && r.cols[StatName(c, s.0)] == StatColumn(s.1, d.cols[c], NoRoot)
  {
    var frames := MetricFrames(d, cfg, sqrt);
    var i :| 0 <= i < |d.names| && d.names[i] == c;
    assert i < |frames| && frames[i] == StatsFrame(d.dates, c, d.cols[c], ChangeStats(cfg.changes), NoRoot) by {
      MetricFramesChangeAt(d, cfg, sqrt, i);
    }
    var s := ChangeStats(cfg.changes)[k];
    var r := JoinAll(d, frames).value;
    assert StatName(c, s.0) in r.cols && r.cols[StatName(c, s.0)] == StatColumn(s.1, d.cols[c], NoRoot) by {
      JoinedStat(d, frames, i, c, ChangeStats(cfg.changes), NoRoot, k);
    }
  }

  /** In the joined panel, the rolling column `{c}_{suffix}` holds the rolling statistic of column `c`. */
  lemma JoinedRollingCells(d: Panel, cfg: Config, sqrt: real -> real, c: string, k: nat)
    requires WellFormed(d) && Joinable(d, MetricFrames(d, cfg, sqrt)) && JoinAll(d, MetricFrames(d, cfg, sqrt)).Success?
    requires c in d.names && k < |RollingStats(cfg.rolling)| && LastOfSuffix(RollingStats(cfg.rolling), k)
    ensures var r := JoinAll(d, MetricFrames(d, cfg, sqrt)).value;
      var s := RollingStats(cfg.rolling)[k];
      StatName(c, s.0) in r.cols && r.cols[StatName(c, s.0)] == StatColumn(s.1, d.cols[c], sqrt)
  {
    var frames := MetricFrames(d, cfg, sqrt);
    var i :| 0 <= i < |d.names| && d.names[i] == c;
    var j := |d.names| + i;
    assert j < |frames| && frames[j] == StatsFrame(d.dates, c, d.cols[c], RollingStats(cfg.rolling), sqrt) by {
      MetricFramesRollingAt(d, cfg, sqrt, i);
    }
    var s := RollingStats(cfg.rolling)[k];
    var r := JoinAll(d, frames).value;
    assert StatName(c, s.0) in r.cols && r.cols[StatName(c, s.0)] == StatColumn(s.1, d.cols[c], sqrt) by {
      JoinedStat(d, frames, j, c, RollingStats(cfg.rolling), sqrt, k);
    }
  }

  /**
   * The cells of `calculate_all_metrics`: each column of the derived panel is
   * kept, and the column `{c}_{suffix}` of a known statistic holds that
   * statistic of column `c` (for a suffix configured twice, the later one).
   */
  lemma AllMetricsCells(t: Table, cfg: Config, start: Option<Date>, end: Option<Date>, ffill: bool, sqrt: real -> real)
    requires TableOrdered(t) && !IsEmpty(BaseData(t, cfg, start, end, ffill))
    requires AllMetrics(t, cfg, start, end, ffill, sqrt).Success?
    ensures var d := DerivedPanel(t, cfg, start, end, ffill);
      var r := AllMetrics(t, cfg, start, end, ffill, sqrt).value;
      && (forall n :: n in d.cols ==> n in r.cols && r.cols[n] == d.cols[n])
      && (forall c, k :: c in d.names && 0 <= k < |ChangeStats(cfg.changes)| && LastOfSuffix(ChangeStats(cfg.changes), k) ==>
            var s := ChangeStats(cfg.changes)[k];
            StatName(c, s.0) in r.cols && r.cols[StatName(c, s.0)] == StatColumn(s.1, d.cols[c], NoRoot))
      && (forall c, k :: c in d.names && 0 <= k < |RollingStats(cfg.rolling)| && LastOfSuffix(RollingStats(cfg.rolling), k) ==>
            var s := RollingStats(cfg.rolling)[k];
            StatName(c, s.0) in r.cols && r.cols[StatName(c, s.0)] == StatColumn(s.1, d.cols[c], sqrt))
  {
    var d := DerivedPanel(t, cfg, start, end, ffill);
    MetricFramesJoinable(d, cfg, sqrt);
    forall n | n in d.cols {
      JoinAllKeepsBase(d, MetricFrames(d, cfg, sqrt), n);
    }
    forall c, k | c in d.names && 0 <= k < |ChangeStats(cfg.changes)| && LastOfSuffix(ChangeStats(cfg.changes), k) {
      JoinedChangeCells(d, cfg, sqrt, c, k);
    }
    forall c, k | c in d.names && 0 <= k < |RollingStats(cfg.rolling)| && LastOfSuffix(RollingStats(cfg.rolling), k) {
      JoinedRollingCells(d, cfg, sqrt, c, k);
    }
  }
}
