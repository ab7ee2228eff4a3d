/**
 * The two queries of the metrics engine over the full metrics panel: the
 * latest value of every series and derived metric with its statistics at that
 * date, and a single metric value at a given date or at its latest date.
 */
module MetricQueries {
  import opened Wrappers
  import opened Sequences
  import opened Panels
  import opened Config
  import opened Database
  import opened Frames
  import opened Dicts
  import opened Metrics

  /** A value of a per-metric dict: a number, or the date under `"date"`. */
  datatype Entry = Number(x: real) | Day(d: Date)

  /** The suffixes `get_latest_values` looks up: every change name, then every rolling name, whatever the type. */
  function LookupSuffixes(cfg: Config): (r: seq<string>)
    ensures |r| == |cfg.changes| + |cfg.rolling|
    ensures forall i :: 0 <= i < |cfg.changes| ==> r[i] == cfg.changes[i].name
    ensures forall i :: 0 <= i < |cfg.rolling| ==> r[|cfg.changes| + i] == cfg.rolling[i].name
  {
    seq(|cfg.changes|, i requires 0 <= i < |cfg.changes| => cfg.changes[i].name)
      + seq(|cfg.rolling|, i requires 0 <= i < |cfg.rolling| => cfg.rolling[i].name)
  }

  /** The cell of column `n` at row `row`, when the column exists and the cell is present. */
  function PresentCell(p: Panel, n: string, row: nat): Option<real>
    requires WellFormed(p) && row < |p.dates|
  {
    if n in p.cols && p.cols[n][row].Some? then p.cols[n][row] else None
  }

  /** The dict `{"value": v, "date": d}` a key's entry starts from. */
  function Initial(v: real, d: Date): (r: Dict<Entry>)
    ensures Distinct(Keys(r))
  {
    [("value", Number(v)), ("date", Day(d))]
  }

  /** The entry after the loop over `suffixes`: each present `{key}_{suffix}` cell at `row` is stored under `suffix`. */
  function StatEntries(p: Panel, key: string, row: nat, suffixes: seq<string>, init: Dict<Entry>): (r: Dict<Entry>)
    requires WellFormed(p) && row < |p.dates| && Distinct(Keys(init))
    ensures Distinct(Keys(r))
  {
    if suffixes == [] then init
    else
      var pre := StatEntries(p, key, row, suffixes[..|suffixes| - 1], init);
      var s := suffixes[|suffixes| - 1];
      var cell := PresentCell(p, StatName(key, s), row);
      if cell.Some? then Put(pre, s, Number(cell.value)) else pre
  }

  /** The dict `get_latest_values` stores for `key`, or None when the key is skipped. */
  function LatestEntry(p: Panel, key: string, suffixes: seq<string>): (r: Option<Dict<Entry>>)
    requires WellFormed(p)
    ensures r.Some? ==> Distinct(Keys(r.value))
  {
    if key !in p.cols then None
    else
      match LastPresent(p.cols[key])
      case None => None
      case Some(row) => Some(StatEntries(p, key, row, suffixes, Initial(p.cols[key][row].value, p.dates[row])))
  }

  /** The result dict after the loop over the first `|keys|` keys. */
  function LatestSpec(p: Panel, keys: seq<string>, suffixes: seq<string>): (r: Dict<Dict<Entry>>)
    requires WellFormed(p)
    ensures Distinct(Keys(r))
  {
    if keys == [] then []
    else
      var pre := LatestSpec(p, keys[..|keys| - 1], suffixes);
      var k := keys[|keys| - 1];
      var e := LatestEntry(p, k, suffixes);
      if e.Some? then Put(pre, k, e.value) else pre
  }

  /**
   * `get_latest_values`: the full panel with forward fill and no date range;
   * an empty dict for an empty panel; a refused join raises, which is the failure.
   */
  function LatestValues(t: Table, cfg: Config, sqrt: real -> real): (r: Result<Dict<Dict<Entry>>, MetricsError>)
    requires TableOrdered(t)
  {
    match AllMetrics(t, cfg, None, None, true, sqrt)
    case Failure(e) => Failure(e)
    case Success(df) =>
      if IsEmpty(df) then Success([])
      else Success(LatestSpec(df, SeriesKeys(cfg) + DerivedKeys(cfg), LookupSuffixes(cfg)))
  }

  /**
   * A suffix looked up at the latest row holds the statistic's cell at that
   * row when the statistic column exists and is present there; any other name
   * keeps what the starting dict holds.
   */
  lemma {:induction false} StatEntriesLookup(p: Panel, key: string, row: nat, suffixes: seq<string>, init: Dict<Entry>, s: string)
    requires WellFormed(p) && row < |p.dates| && Distinct(Keys(init))
    ensures Get(StatEntries(p, key, row, suffixes, init), s) ==
      if s in suffixes && PresentCell(p, StatName(key, s), row).Some? then Some(Number(PresentCell(p, StatName(key, s), row).value))
      else Get(init, s)
    decreases |suffixes|
  {
    if suffixes != [] {
      var pre := suffixes[..|suffixes| - 1];
      StatEntriesLookup(p, key, row, pre, init, s);
      assert s in suffixes <==> s in pre || s == suffixes[|suffixes| - 1];
    }
  }

  /** A key is in the result exactly when it is looked up and has an entry; it then holds that entry. */
  lemma {:induction false} LatestSpecLookup(p: Panel, keys: seq<string>, suffixes: seq<string>, k: string)
    requires WellFormed(p)
    ensures Get(LatestSpec(p, keys, suffixes), k) == if k in keys then LatestEntry(p, k, suffixes) else None
    decreases |keys|
  {
    if keys != [] {
      var pre := keys[..|keys| - 1];
      LatestSpecLookup(p, pre, suffixes, k);
      assert k in keys <==> k in pre || k == keys[|keys| - 1];
    }
  }

  /**
   * A key has an entry exactly when its column exists and has a present cell;
   * the entry's row is the last present one, its `"value"` that cell (unless a
   * statistic suffix is itself named `"value"`) and its `"date"` that row's date.
   */
  lemma LatestEntryRow(p: Panel, key: string, suffixes: seq<string>) returns (row: nat)
    requires WellFormed(p)
    ensures LatestEntry(p, key, suffixes).Some? <==>
      key in p.cols && exists i :: 0 <= i < |p.cols[key]| && p.cols[key][i].Some?
    ensures LatestEntry(p, key, suffixes).Some? ==>
      && row < |p.dates| && p.cols[key][row].Some?
      && (forall i :: row < i < |p.dates| ==> p.cols[key][i].None?)
      && LatestEntry(p, key, suffixes).value == StatEntries(p, key, row, suffixes, Initial(p.cols[key][row].value, p.dates[row]))
      && ("value" !in suffixes ==> Get(LatestEntry(p, key, suffixes).value, "value") == Some(Number(p.cols[key][row].value)))
      && ("date" !in suffixes ==> Get(LatestEntry(p, key, suffixes).value, "date") == Some(Day(p.dates[row])))
  {
    row := 0;
    if LatestEntry(p, key, suffixes).Some? {
      row := LastPresent(p.cols[key]).value;
      var init := Initial(p.cols[key][row].value, p.dates[row]);
      StatEntriesLookup(p, key, row, suffixes, init, "value");
      StatEntriesLookup(p, key, row, suffixes, init, "date");
      assert Get(init, "date") == Some(Day(p.dates[row]));
    }
  }

  /** With no series rows at all the result is the empty dict. */
  lemma LatestValuesEmpty(t: Table, cfg: Config, sqrt: real -> real)
    requires TableOrdered(t)
    requires forall k :: k in SeriesKeys(cfg) ==> RangeRows(SeriesOf(t, k), None, None) == []
    ensures LatestValues(t, cfg, sqrt) == Success([])
  {
    AllMetricsEmpty(t, cfg, None, None, true, sqrt);
  }

  /** The inner loop of `get_latest_values`: the entry of `key`, whose last present cell is at `row`. */
  method CollectEntry(p: Panel, key: string, row: nat, suffixes: seq<string>) returns (metrics: Dict<Entry>)
    requires WellFormed(p) && key in p.cols && row < |p.dates| && p.cols[key][row].Some?
    ensures metrics == StatEntries(p, key, row, suffixes, Initial(p.cols[key][row].value, p.dates[row]))
  {
    var init := Initial(p.cols[key][row].value, p.dates[row]);
    metrics := init;
    for j := 0 to |suffixes|
      invariant metrics == StatEntries(p, key, row, suffixes[..j], init)
    {
      assert suffixes[..j + 1][..j] == suffixes[..j];
      var col := StatName(key, suffixes[j]);
      if col in p.cols {
        var val := p.cols[col][row];
        if val.Some? {
          metrics := Put(metrics, suffixes[j], Number(val.value));
        }
      }
    }
    assert suffixes[..|suffixes|] == suffixes;
  }

  /** The outer loop of `get_latest_values`: one entry per key that has one, later duplicates overwriting in place. */
  method CollectLatest(df: Panel, keys: seq<string>, suffixes: seq<string>) returns (result: Dict<Dict<Entry>>)
    requires WellFormed(df)
    ensures result == LatestSpec(df, keys, suffixes)
  {
    result := [];
    for i := 0 to |keys|
      invariant result == LatestSpec(df, keys[..i], suffixes)
    {
      assert keys[..i + 1][..i] == keys[..i];
      var key := keys[i];
      if key in df.cols {
        var last := LastPresent(df.cols[key]);
        if last.Some? {
          var metrics := CollectEntry(df, key, last.value, suffixes);
          result := Put(result, key, metrics);
        }
      }
    }
    assert keys[..|keys|] == keys;
  }

  /** `get_latest_values` over the store. */
  method GetLatestValues(store: Store, cfg: Config, sqrt: real -> real) returns (r: Result<Dict<Dict<Entry>>, MetricsError>)
    requires store.Valid()
    ensures r == LatestValues(store.observations, cfg, sqrt)
  {
    var all := CalculateAllMetrics(store, cfg, None, None, true, sqrt);
    if all.Failure? {
      return Failure(all.error);
    }
    if IsEmpty(all.value) {
      return Success([]);
    }
    var result := CollectLatest(all.value, SeriesKeys(cfg) + DerivedKeys(cfg), LookupSuffixes(cfg));
    r := Success(result);
  }

  /** The column of a metric type: the key itself for `"value"`, otherwise `{key}_{type}`. */
  function MetricColumn(key: string, metricType: string): string
  {
    if metricType == "value" then key else StatName(key, metricType)
  }

  /**
   * `get_metric_value` on the panel: None for an empty panel, an unknown
   * column or an all-missing column; otherwise the cell at `date` when that
   * date is a row and its cell is present, or the last present cell when no
   * date is given.
   */
  function MetricValueIn(df: Panel, key: string, metricType: string, date: Option<Date>): Option<real>
    requires WellFormed(df)
  {
    var col := MetricColumn(key, metricType);
    if IsEmpty(df) || col !in df.cols then None
    else
      match LastPresent(df.cols[col])
      case None => None
      case Some(last) =>
        match date
        case None => df.cols[col][last]
        case Some(d) =>
          match IndexOf(df.dates, d)
          case None => None
          case Some(i) => df.cols[col][i]
  }

  /** `get_metric_value` over the full panel with forward fill; a refused join raises, which is the failure. */
  function MetricValue(t: Table, cfg: Config, sqrt: real -> real, key: string, metricType: string, date: Option<Date>): Result<Option<real>, MetricsError>
    requires TableOrdered(t)
  {
    match AllMetrics(t, cfg, None, None, true, sqrt)
    case Failure(e) => Failure(e)
    case Success(df) => Success(MetricValueIn(df, key, metricType, date))
  }

  /**
   * Without a date the answer is the last present cell of the metric's column,
   * and None exactly when the panel is empty, the column is absent or all missing.
   */
  lemma MetricValueLatest(df: Panel, key: string, metricType: string) returns (row: nat)
    requires WellFormed(df)
    ensures var col := MetricColumn(key, metricType);
      && (MetricValueIn(df, key, metricType, None).None? <==>
            IsEmpty(df) || col !in df.cols || forall i :: 0 <= i < |df.dates| ==> df.cols[col][i].None?)
      && (MetricValueIn(df, key, metricType, None).Some? ==>
            && row < |df.dates| && df.cols[col][row] == MetricValueIn(df, key, metricType, None)
            && forall i :: row < i < |df.dates| ==> df.cols[col][i].None?)
  {
    row := 0;
    var col := MetricColumn(key, metricType);
    if !IsEmpty(df) && col in df.cols && LastPresent(df.cols[col]).Some? {
      row := LastPresent(df.cols[col]).value;
    }
  }

  /**
   * With a date the answer is the present cell of the metric's column on that
   * date, and None when the date is not a row or its cell is missing.
   */
  lemma MetricValueOnDate(df: Panel, key: string, metricType: string, d: Date)
    requires WellFormed(df)
    ensures var col := MetricColumn(key, metricType);
      MetricValueIn(df, key, metricType, Some(d)) ==
        if !IsEmpty(df) && col in df.cols && d in df.dates then df.cols[col][IndexOf(df.dates, d).value] else None
  {
    var col := MetricColumn(key, metricType);
    if !IsEmpty(df) && col in df.cols && d in df.dates {
      var i := IndexOf(df.dates, d).value;
      if df.cols[col][i].Some? {
        assert LastPresent(df.cols[col]).Some?;
      }
    }
  }

  /** `get_metric_value` over the store. */
  method GetMetricValue(store: Store, cfg: Config, sqrt: real -> real, key: string, metricType: string, date: Option<Date>)
    returns (r: Result<Option<real>, MetricsError>)
    requires store.Valid()
    ensures r == MetricValue(store.observations, cfg, sqrt, key, metricType, date)
  {
    var all := CalculateAllMetrics(store, cfg, None, None, true, sqrt);
    if all.Failure? {
      return Failure(all.error);
    }
    r := Success(MetricValueIn(all.value, key, metricType, date));
  }
}
