/**
 * The daily summary job: among the latest values, the metrics whose one-day
 * change `d1` is significant for their unit, in the order of the latest values.
 */
module Scheduler {
  import opened Wrappers
  import opened Sequences
  import opened Panels
  import opened Config
  import opened Database
  import opened Dicts
  import opened Frames
  import opened Metrics
  import opened MetricQueries

  /** `(config.get_series(key) or config.get_derived(key) or {}).get("unit", "")`. */
  function UnitOf(cfg: Config, key: string): string
  {
    match FindByKey(cfg.series, (d: SeriesDef) => d.key, key)
    case Some(d) => d.unit
    case None =>
      match FindByKey(cfg.derived, (d: DerivedDef) => d.key, key)
      case Some(d) => d.unit
      case None => ""
  }

  function Abs(x: real): (r: real)
    ensures r >= 0.0 && (r == x || r == -x)
  {
    if x < 0.0 then -x else x
  }

  /** The units that have a threshold; for these `abs(d1)` is computed. */
  predicate HasThreshold(unit: string)
  {
    unit == "percent" || unit == "bps" || unit == "usd_billions" || unit == "usd_millions" || unit == "ratio"
  }

  /** The significance thresholds on the one-day change, all strict. */
  predicate IsSignificant(unit: string, d1: real)
  {
    if unit == "percent" || unit == "bps" then Abs(d1) > 2.0
    else if unit == "usd_billions" then Abs(d1) > 10.0
    else if unit == "usd_millions" then Abs(d1) > 10000.0
    else if unit == "ratio" then Abs(d1) > 0.01
    else false
  }

  /**
   * Significance depends on the size of the change only: it ignores the
   * sign, it is kept by any larger change, it needs a unit with a threshold,
   * and no change of at most 0.01 is ever significant.
   */
  lemma SignificanceBySize(unit: string, d1: real, e: real)
    ensures IsSignificant(unit, d1) == IsSignificant(unit, -d1)
    ensures IsSignificant(unit, d1) && Abs(e) >= Abs(d1) ==> IsSignificant(unit, e)
    ensures IsSignificant(unit, d1) ==> HasThreshold(unit) && Abs(d1) > 0.01
  {
  }

  /** One line of the summary. */
  datatype Significant = Significant(key: string, value: Option<Entry>, d1: real)

  /**
   * The loop over `latest.items()`: keys without `d1` are skipped; None when
   * `abs` raises because a `d1` that is to be measured is not a number.
   */
  function Selection(latest: Dict<Dict<Entry>>, cfg: Config): Option<seq<Significant>>
  {
    if latest == [] then Some([])
    else
      var pre := Selection(latest[..|latest| - 1], cfg);
      var key, metrics := latest[|latest| - 1].0, latest[|latest| - 1].1;
      if pre.None? then None
      else
        var d1: Option<Entry> := Get(metrics, "d1");
        if d1.None? then pre
        else if d1.value.Day? then (if HasThreshold(UnitOf(cfg, key)) then None else pre)
        else if IsSignificant(UnitOf(cfg, key), d1.value.x) then Some(pre.value + [Significant(key, Get(metrics, "value"), d1.value.x)])
        else pre
  }

  /** No entry has a `d1` that is a date. */
  predicate NumericChanges(latest: Dict<Dict<Entry>>)
  {
    forall i :: 0 <= i < |latest| ==> !(Get(latest[i].1, "d1").Some? && Get(latest[i].1, "d1").value.Day?)
  }

  /** When every `d1` is a number the selection never raises. */
  lemma {:induction false} SelectionSucceeds(latest: Dict<Dict<Entry>>, cfg: Config)
    requires NumericChanges(latest)
    ensures Selection(latest, cfg).Some?
  {
    if latest != [] {
      var pre := latest[..|latest| - 1];
      assert forall i :: 0 <= i < |pre| ==> pre[i] == latest[i];
      SelectionSucceeds(pre, cfg);
    }
  }

  /** The line an entry of the latest values yields: its key, a numeric significant `d1` and its `value`. */
  predicate Yields(entry: (string, Dict<Entry>), cfg: Config, s: Significant)
  {
    && entry.0 == s.key
    && Get(entry.1, "d1") == Some(Number(s.d1))
    && IsSignificant(UnitOf(cfg, s.key), s.d1)
    && Get(entry.1, "value") == s.value
  }

  /** A line is selected exactly when some entry of the latest values yields it. */
  lemma {:induction false} SelectionMembers(latest: Dict<Dict<Entry>>, cfg: Config, s: Significant)
    requires Selection(latest, cfg).Some?
    ensures s in Selection(latest, cfg).value <==> exists i :: 0 <= i < |latest| && Yields(latest[i], cfg, s)
  {
    if latest != [] {
      var n := |latest| - 1;
      var pre := latest[..n];
      assert Selection(pre, cfg).Some?;
      SelectionMembers(pre, cfg, s);
      ExistsSplit(latest, pre, e => Yields(e, cfg, s));
      var last := Get(latest[n].1, "d1");
      if last.Some? && last.value.Number? && IsSignificant(UnitOf(cfg, latest[n].0), last.value.x) {
        var line := Significant(latest[n].0, Get(latest[n].1, "value"), last.value.x);
        assert Selection(latest, cfg).value == Selection(pre, cfg).value + [line];
        assert Yields(latest[n], cfg, s) <==> s == line;
      } else {
        assert Selection(latest, cfg).value == Selection(pre, cfg).value;
        assert !Yields(latest[n], cfg, s);
      }
    }
  }

  /** Some element satisfies `f` iff one before the last does or the last does. */
  lemma ExistsSplit<T>(xs: seq<T>, pre: seq<T>, f: T -> bool)
    requires xs != [] && pre == xs[..|xs| - 1]
    ensures (exists i :: 0 <= i < |xs| && f(xs[i])) <==> (exists i :: 0 <= i < |pre| && f(pre[i])) || f(xs[|xs| - 1])
  {
    if exists i :: 0 <= i < |xs| && f(xs[i]) {
      var i :| 0 <= i < |xs| && f(xs[i]);
      if i < |pre| {
        assert f(pre[i]);
      }
    }
  }

  /** The loop of `job_daily_summary`; None when it raises. */
  method SelectSignificant(latest: Dict<Dict<Entry>>, cfg: Config) returns (r: Option<seq<Significant>>)
    ensures r == Selection(latest, cfg)
  {
    var significant: seq<Significant> := [];
    for i := 0 to |latest|
      invariant Selection(latest[..i], cfg) == Some(significant)
    {
      assert latest[..i + 1][..i] == latest[..i];
      var key, metrics := latest[i].0, latest[i].1;
      var d1 := Get(metrics, "d1");
      if d1.None? {
        continue;
      }
      var unit := UnitOf(cfg, key);
      if d1.value.Day? {
        if HasThreshold(unit) {
          assert Selection(latest[..i + 1], cfg) == None;
          SelectionStaysFailed(latest, cfg, i + 1);
          assert latest[..|latest|] == latest;
          return None;
        }
        continue;
      }
      if IsSignificant(unit, d1.value.x) {
        significant := significant + [Significant(key, Get(metrics, "value"), d1.value.x)];
      }
    }
    assert latest[..|latest|] == latest;
    r := Some(significant);
  }

  /** Once the loop has raised, it has raised for every longer prefix. */
  lemma {:induction false} SelectionStaysFailed(latest: Dict<Dict<Entry>>, cfg: Config, i: nat)
    requires i <= |latest| && Selection(latest[..i], cfg).None?
    ensures Selection(latest, cfg).None?
    decreases |latest| - i
  {
    if i < |latest| {
      assert latest[..i + 1][..i] == latest[..i];
      SelectionStaysFailed(latest, cfg, i + 1);
    } else {
      assert latest[..i] == latest;
    }
  }

  /** A `d1` of a latest-values entry is always a number: only statistics are stored under suffixes. */
  lemma LatestChangesNumeric(p: Panel, keys: seq<string>, suffixes: seq<string>)
    requires WellFormed(p)
    ensures NumericChanges(LatestSpec(p, keys, suffixes))
  {
    var m := LatestSpec(p, keys, suffixes);
    forall i | 0 <= i < |m|
      ensures !(Get(m[i].1, "d1").Some? && Get(m[i].1, "d1").value.Day?)
    {
      EntryChangeNumeric(p, keys, suffixes, i);
    }
  }

  lemma EntryChangeNumeric(p: Panel, keys: seq<string>, suffixes: seq<string>, i: nat)
    requires WellFormed(p) && i < |LatestSpec(p, keys, suffixes)|
    ensures var m := LatestSpec(p, keys, suffixes);
      !(Get(m[i].1, "d1").Some? && Get(m[i].1, "d1").value.Day?)
  {
    var m := LatestSpec(p, keys, suffixes);
    var k := m[i].0;
    assert Get(m, k) == Some(m[i].1) by {
      assert Keys(m)[i] == k;
      assert forall j :: 0 <= j < |m| && j != i ==> Keys(m)[j] != Keys(m)[i];
      GetDistinct(m, i);
    }
    LatestSpecLookup(p, keys, suffixes, k);
    var row := LatestEntryRow(p, k, suffixes);
    var init := Initial(p.cols[k][row].value, p.dates[row]);
    StatEntriesLookup(p, k, row, suffixes, init, "d1");
    assert Get(init, "d1") == None by {
      assert Keys(init) == ["value", "date"];
    }
  }

  /** What `job_daily_summary` sends: nothing when a step raises or nothing is significant. */
  function DailySummary(obs: Table, cfg: Config, sqrt: real -> real): Option<seq<Significant>>
    requires TableOrdered(obs)
  {
    match LatestValues(obs, cfg, sqrt)
    case Failure(_) => None
    case Success(latest) =>
      match Selection(latest, cfg)
      case None => None
      case Some(s) => if s == [] then None else Some(s)
  }

  /** Every `d1` of the latest values is a number. */
  lemma LatestValuesNumeric(obs: Table, cfg: Config, sqrt: real -> real)
    requires TableOrdered(obs) && LatestValues(obs, cfg, sqrt).Success?
    ensures NumericChanges(LatestValues(obs, cfg, sqrt).value)
  {
    var df := AllMetrics(obs, cfg, None, None, true, sqrt).value;
    if !IsEmpty(df) {
      LatestChangesNumeric(df, SeriesKeys(cfg) + DerivedKeys(cfg), LookupSuffixes(cfg));
    }
  }

  /** The selection itself never raises: a summary is sent exactly when the latest values exist and some change is significant. */
  lemma DailySummarySent(obs: Table, cfg: Config, sqrt: real -> real)
    requires TableOrdered(obs)
    ensures LatestValues(obs, cfg, sqrt).Success? ==> Selection(LatestValues(obs, cfg, sqrt).value, cfg).Some?
    ensures DailySummary(obs, cfg, sqrt).Some? <==>
      LatestValues(obs, cfg, sqrt).Success? && Selection(LatestValues(obs, cfg, sqrt).value, cfg) != Some([])
  {
    var r := LatestValues(obs, cfg, sqrt);
    if r.Success? {
      LatestValuesNumeric(obs, cfg, sqrt);
      SelectionSucceeds(r.value, cfg);
    }
  }

  /** `job_daily_summary`, the summary it sends. */
  method JobDailySummary(store: Store, cfg: Config, sqrt: real -> real) returns (sent: Option<seq<Significant>>)
    requires store.Valid()
    ensures sent == DailySummary(store.observations, cfg, sqrt)
  {
    var latest := GetLatestValues(store, cfg, sqrt);
    if latest.Failure? {
      return None;
    }
    var significant := SelectSignificant(latest.value, cfg);
    if significant.None? || significant.value == [] {
      return None;
    }
    sent := significant;
  }
}
