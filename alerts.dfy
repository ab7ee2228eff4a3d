/**
 * Alert evaluation: the identity of an alert definition, the context a rule
 * is evaluated in, the evaluation of one rule and of all of them, the state
 * machine `ok`/`breach` kept in the store with its transition log, and the
 * current breaches grouped by severity.
 */
module Alerts {
  import opened Wrappers
  import opened Sequences
  import opened Panels
  import opened Config
  import opened Database
  import opened Frames
  import opened Dicts
  import opened Metrics
  import opened Rules

  // ---------------------------------------------------------------------
  // Alert identities
  // ---------------------------------------------------------------------

  /** `hash(rule) % 10000`: Python's `%` with a positive modulus is never negative, as Dafny's is not. */
  function Bucket(h: int): (b: nat)
    ensures b < 10000
    ensures (h - b) % 10000 == 0
    ensures 0 <= h < 10000 ==> b == h
  {
    h % 10000
  }

  predicate IsDigit(c: char)
  {
    '0' <= c <= '9'
  }

  predicate AllDigits(s: string)
  {
    forall i :: 0 <= i < |s| ==> IsDigit(s[i])
  }

  function DigitChar(d: nat): (c: char)
    requires d < 10
    ensures IsDigit(c) && c as int - '0' as int == d
  {
    ('0' as int + d) as char
  }

  /** `str(n)` for a natural number: decimal digits without leading zeros. */
  function Digits(n: nat): (r: string)
    ensures |r| > 0 && AllDigits(r)
    ensures r[0] == '0' <==> n == 0
  {
    if n < 10 then [DigitChar(n)] else Digits(n / 10) + [DigitChar(n % 10)]
  }

  /** The number a string of decimal digits denotes. */
  function ParseDigits(s: string): nat
    requires AllDigits(s)
  {
    if s == [] then 0 else ParseDigits(s[..|s| - 1]) * 10 + (s[|s| - 1] as int - '0' as int)
  }

  lemma {:induction false} ParseDigitsOfDigits(n: nat)
    ensures ParseDigits(Digits(n)) == n
  {
    if n >= 10 {
      var s := Digits(n);
      assert s[..|s| - 1] == Digits(n / 10);
      ParseDigitsOfDigits(n / 10);
    }
  }

  /**
   * `make_alert_id`: key, severity and the rule's hash bucket, joined by
   * colons. The string hash is a parameter: Python salts it per interpreter
   * process, so the identity is stable within one process only.
   */
  function MakeAlertId(a: AlertDef, hash: string -> int): string
  {
    a.key + ":" + a.severity + ":" + Digits(Bucket(hash(a.ruleText)))
  }

  /** The text before the first colon and the text after it; all of `s` and nothing when it has none. */
  function Field(s: string): (string, string)
  {
    if s == [] then ([], [])
    else if s[0] == ':' then ([], s[1..])
    else
      var f := Field(s[1..]);
      ([s[0]] + f.0, f.1)
  }

  lemma {:induction false} FieldOfJoin(a: string, b: string)
    requires ':' !in a
    ensures Field(a + ":" + b) == (a, b)
  {
    if a == [] {
      assert a + ":" + b == [':'] + b;
    } else {
      assert (a + ":" + b)[0] == a[0] && a[0] in a;
      assert (a + ":" + b)[1..] == a[1..] + ":" + b;
      assert forall c :: c in a[1..] ==> c in a;
      FieldOfJoin(a[1..], b);
      assert [a[0]] + a[1..] == a;
    }
  }

  /** Reads an alert identity back into its key, severity and hash bucket. */
  function ParseAlertId(id: string): Option<(string, string, nat)>
  {
    var (key, rest) := Field(id);
    var (severity, bucket) := Field(rest);
    if bucket != [] && AllDigits(bucket) then Some((key, severity, ParseDigits(bucket))) else None
  }

  /** An identity gives back the key, the severity and the bucket it was made from, when the first two have no colon. */
  lemma AlertIdRoundTrip(a: AlertDef, hash: string -> int)
    requires ':' !in a.key && ':' !in a.severity
    ensures ParseAlertId(MakeAlertId(a, hash)) == Some((a.key, a.severity, Bucket(hash(a.ruleText))))
  {
    var d := Digits(Bucket(hash(a.ruleText)));
    assert MakeAlertId(a, hash) == a.key + ":" + (a.severity + ":" + d);
    FieldOfJoin(a.key, a.severity + ":" + d);
    FieldOfJoin(a.severity, d);
    ParseDigitsOfDigits(Bucket(hash(a.ruleText)));
  }

  /** Two definitions share an identity only when they share key, severity and hash bucket. */
  lemma AlertIdsDiffer(a: AlertDef, b: AlertDef, hash: string -> int)
    requires ':' !in a.key && ':' !in a.severity && ':' !in b.key && ':' !in b.severity
    requires MakeAlertId(a, hash) == MakeAlertId(b, hash)
    ensures a.key == b.key && a.severity == b.severity && Bucket(hash(a.ruleText)) == Bucket(hash(b.ruleText))
  {
    AlertIdRoundTrip(a, hash);
    AlertIdRoundTrip(b, hash);
  }

  // ---------------------------------------------------------------------
  // The context of a rule
  // ---------------------------------------------------------------------

  /** The statistics a rule may name besides `value`. */
  const AlertSuffixes: seq<string> := ["d1", "d5", "d20", "pct1", "pct5", "ma5", "ma20", "std20", "zscore20"]

  /** What column `col` contributes: its cell at `row` when present, else its last present cell. */
  function SuffixValue(df: Panel, col: string, row: nat): Option<real>
    requires WellFormed(df) && row < |df.dates|
  {
    if col !in df.cols then None
    else if df.cols[col][row].Some? then df.cols[col][row]
    else
      match LastPresent(df.cols[col])
      case None => None
      case Some(j) => df.cols[col][j]
  }

  /**
   * A suffix has a value exactly when its column exists with a present cell,
   * and the value is the cell at `row`, or, when that one is missing, the
   * latest present cell of the column.
   */
  lemma SuffixValueRow(df: Panel, col: string, row: nat) returns (j: nat)
    requires WellFormed(df) && row < |df.dates|
    ensures SuffixValue(df, col, row).Some? <==> col in df.cols && exists i :: 0 <= i < |df.dates| && df.cols[col][i].Some?
    ensures SuffixValue(df, col, row).Some? ==>
      && j < |df.dates| && df.cols[col][j] == SuffixValue(df, col, row)
      && (j == row || (df.cols[col][row].None? && forall i :: j < i < |df.dates| ==> df.cols[col][i].None?))
  {
    j := row;
    if col in df.cols && df.cols[col][row].None? {
      var last := LastPresent(df.cols[col]);
      if last.Some? {
        j := last.value;
      }
    }
  }

  /** The context after the loop over `suffixes`: each suffix with a value is stored under its own name. */
  function ContextEntries(df: Panel, key: string, row: nat, suffixes: seq<string>, init: Dict<real>): (r: Dict<real>)
    requires WellFormed(df) && row < |df.dates| && Distinct(Keys(init))
    ensures Distinct(Keys(r))
  {
    if suffixes == [] then init
    else
      var pre := ContextEntries(df, key, row, suffixes[..|suffixes| - 1], init);
      var s := suffixes[|suffixes| - 1];
      var v := SuffixValue(df, StatName(key, s), row);
      if v.Some? then Put(pre, s, v.value) else pre
  }

  lemma {:induction false} ContextEntriesLookup(df: Panel, key: string, row: nat, suffixes: seq<string>, init: Dict<real>, s: string)
    requires WellFormed(df) && row < |df.dates| && Distinct(Keys(init))
    ensures Get(ContextEntries(df, key, row, suffixes, init), s) ==
      if s in suffixes && SuffixValue(df, StatName(key, s), row).Some? then SuffixValue(df, StatName(key, s), row)
      else Get(init, s)
    decreases |suffixes|
  {
    if suffixes != [] {
      var pre := suffixes[..|suffixes| - 1];
      ContextEntriesLookup(df, key, row, pre, init, s);
      assert s in suffixes <==> s in pre || s == suffixes[|suffixes| - 1];
    }
  }

  /** The dict `{"value": v}` a context starts from. */
  function ValueOnly(v: real): (r: Dict<real>)
    ensures Distinct(Keys(r))
  {
    [("value", v)]
  }

  /** `get_alert_context` over a given metrics panel. */
  function AlertContext(df: Panel, key: string): Dict<real>
    requires WellFormed(df)
  {
    if IsEmpty(df) || key !in df.cols then []
    else
      match LastPresent(df.cols[key])
      case None => []
      case Some(row) => ContextEntries(df, key, row, AlertSuffixes, ValueOnly(df.cols[key][row].value))
  }

  /**
   * The context is empty exactly when the panel is empty or the key has no
   * present cell. Otherwise `value` is the key's latest present cell, each
   * of the nine statistics is its suffix value at that row, and no other
   * name is bound.
   */
  lemma AlertContextLookup(df: Panel, key: string, s: string) returns (row: nat)
    requires WellFormed(df)
    ensures AlertContext(df, key) == [] <==>
      IsEmpty(df) || key !in df.cols || forall i :: 0 <= i < |df.dates| ==> df.cols[key][i].None?
    ensures AlertContext(df, key) != [] ==>
      && row < |df.dates| && df.cols[key][row].Some?
      && (forall i :: row < i < |df.dates| ==> df.cols[key][i].None?)
      && Get(AlertContext(df, key), s) ==
        if s == "value" then df.cols[key][row]
        else if s in AlertSuffixes then SuffixValue(df, StatName(key, s), row)
        else None
  {
    row := 0;
    if !IsEmpty(df) && key in df.cols && LastPresent(df.cols[key]).Some? {
      row := LastPresent(df.cols[key]).value;
      var init := ValueOnly(df.cols[key][row].value);
      assert "value" !in AlertSuffixes;
      ContextEntriesLookup(df, key, row, AlertSuffixes, init, s);
      ContextEntriesLookup(df, key, row, AlertSuffixes, init, "value");
      assert Get(init, "value") == Some(df.cols[key][row].value);
      if s != "value" {
        assert Keys(init) == ["value"];
      }
    }
  }

  /** `get_alert_context`, with its loop over the suffixes. */
  method GetAlertContext(df: Panel, key: string) returns (ctx: Dict<real>)
    requires WellFormed(df)
    ensures ctx == AlertContext(df, key)
  {
    if IsEmpty(df) || key !in df.cols {
      return [];
    }
    var last := LastPresent(df.cols[key]);
    if last.None? {
      return [];
    }
    var row := last.value;
    ctx := ValueOnly(df.cols[key][row].value);
    for i := 0 to |AlertSuffixes|
      invariant ctx == ContextEntries(df, key, row, AlertSuffixes[..i], ValueOnly(df.cols[key][row].value))
    {
      assert AlertSuffixes[..i + 1][..i] == AlertSuffixes[..i];
      var col := StatName(key, AlertSuffixes[i]);
      var v := SuffixValue(df, col, row);
      if v.Some? {
        ctx := Put(ctx, AlertSuffixes[i], v.value);
      }
    }
    assert AlertSuffixes[..|AlertSuffixes|] == AlertSuffixes;
  }

  // ---------------------------------------------------------------------
  // Evaluating alerts
  // ---------------------------------------------------------------------

  /** The dict `evaluate_alert` returns; `error` is absent unless there was no data. */
  datatype AlertResult = AlertResult(
    alertId: string,
    key: string,
    ruleText: string,
    severity: string,
    note: string,
    category: string,
    triggered: bool,
    value: Option<real>,
    context: Dict<real>,
    stateChanged: bool,
    previousState: Option<AlertState>,
    error: Option<string>)

  /** `evaluate_alert` over a given metrics panel. */
  function EvaluateAlert(a: AlertDef, df: Panel, hash: string -> int): AlertResult
    requires WellFormed(df)
  {
    var ctx := AlertContext(df, a.key);
    var base := AlertResult(MakeAlertId(a, hash), a.key, a.ruleText, a.severity, a.note, a.category,
      false, Get(ctx, "value"), ctx, false, None, None);
    if ctx == [] then base.(error := Some("No data available"))
    else base.(triggered := EvaluateRule(a.rule, ctx))
  }

  /**
   * A result reports "No data available" exactly when it has no value, which
   * happens exactly when the panel has no present cell for the key; it is
   * triggered exactly when there is a value and the rule holds in the context,
   * whose `value` is the key's latest present cell.
   */
  lemma EvaluateAlertOutcome(a: AlertDef, df: Panel, hash: string -> int) returns (row: nat)
    requires WellFormed(df)
    ensures var r := EvaluateAlert(a, df, hash);
      && (r.error.Some? <==> r.value.None?)
      && (r.value.None? <==> IsEmpty(df) || a.key !in df.cols || forall i :: 0 <= i < |df.dates| ==> df.cols[a.key][i].None?)
      && (r.triggered <==> r.value.Some? && EvaluateRule(a.rule, r.context))
      && (r.value.Some? ==> row < |df.dates| && r.value == df.cols[a.key][row] && forall i :: row < i < |df.dates| ==> df.cols[a.key][i].None?)
      && !r.stateChanged && r.previousState.None?
  {
    row := AlertContextLookup(df, a.key, "value");
  }

  /**
   * A rule that always reaches one of the nine statistics, for a metric
   * without that statistic's column, raises a `NameError` and never triggers.
   */
  lemma MissingStatisticNeverTriggers(a: AlertDef, df: Panel, hash: string -> int, s: string)
    requires WellFormed(df)
    requires s in AlertSuffixes && s in StrictNames(a.rule) && StatName(a.key, s) !in df.cols
    ensures !EvaluateAlert(a, df, hash).triggered
  {
    var ctx := AlertContext(df, a.key);
    if ctx != [] {
      assert Lookup(ctx, s).None? by {
        var _ := AlertContextLookup(df, a.key, s);
        SuffixesUnbound(s);
      }
      UnknownNameIsFalse(a.rule, ctx, s);
    }
  }

  /** No statistic is called `value` or shadows a name of the evaluation scope. */
  lemma SuffixesUnbound(s: string)
    requires s in AlertSuffixes
    ensures s != "value" && s != "__builtins__" && s !in BuiltinNames
  {
  }

  /** The results of `evaluate_all_alerts`, one per definition in order. */
  function Evaluations(alerts: seq<AlertDef>, df: Panel, hash: string -> int): (r: seq<AlertResult>)
    requires WellFormed(df)
    ensures |r| == |alerts|
  {
    if alerts == [] then []
    else Evaluations(alerts[..|alerts| - 1], df, hash) + [EvaluateAlert(alerts[|alerts| - 1], df, hash)]
  }

  /** One result per definition, the `i`-th one from the `i`-th definition. */
  lemma {:induction false} EvaluationsAt(alerts: seq<AlertDef>, df: Panel, hash: string -> int, i: nat)
    requires WellFormed(df) && i < |alerts|
    ensures Evaluations(alerts, df, hash)[i] == EvaluateAlert(alerts[i], df, hash)
  {
    var pre := alerts[..|alerts| - 1];
    if i < |pre| {
      EvaluationsAt(pre, df, hash, i);
    }
  }

  /** `evaluate_all_alerts` over a given metrics panel. */
  method EvaluateAllAlerts(alerts: seq<AlertDef>, df: Panel, hash: string -> int) returns (results: seq<AlertResult>)
    requires WellFormed(df)
    ensures results == Evaluations(alerts, df, hash)
  {
    results := [];
    for i := 0 to |alerts|
      invariant results == Evaluations(alerts[..i], df, hash)
    {
      assert alerts[..i + 1][..i] == alerts[..i];
      results := results + [EvaluateAlert(alerts[i], df, hash)];
    }
    assert alerts[..|alerts|] == alerts;
  }

  // ---------------------------------------------------------------------
  // State tracking
  // ---------------------------------------------------------------------

  /** The alert part of the store, and the results that fired so far. */
  datatype Tracking = Tracking(states: map<string, AlertStateRow>, log: seq<LogEntry>, clock: nat, fired: seq<AlertResult>)

  function NewState(r: AlertResult): AlertState
  {
    if r.triggered then Breach else Ok
  }

  /**
   * One alert of `check_alerts_with_state`: the new state is always written;
   * a change is logged and marked on the result; a change into `breach` fires.
   */
  function TrackOne(t: Tracking, r: AlertResult): Tracking
  {
    var s := NewState(r);
    var prev := ReportedChange(t.states, r.alertId, s);
    var states := t.states[r.alertId := WrittenRow(t.states, r.alertId, s, r.value, t.clock)];
    if prev.None? then Tracking(states, t.log, t.clock + 1, t.fired)
    else
      var changed := r.(stateChanged := true, previousState := prev);
      Tracking(states, t.log + [LogEntry(r.alertId, r.severity, prev.value, s, r.value, r.note)], t.clock + 1,
        if s == Breach then t.fired + [changed] else t.fired)
  }

  /**
   * After one alert: its state is `breach` iff it triggered and no other
   * alert's row changes; the log grows by one entry iff the state changed;
   * the alert fires iff it went from `ok` (or no row) to `breach`.
   */
  lemma TrackOneSpec(t: Tracking, r: AlertResult)
    ensures var u := TrackOne(t, r);
      && u.states.Keys == t.states.Keys + {r.alertId}
      && u.states[r.alertId].state == (if r.triggered then Breach else Ok)
      && u.states[r.alertId].lastValue == r.value
      && (forall id :: id in t.states && id != r.alertId ==> u.states[id] == t.states[id])
      && u.clock == t.clock + 1
      && (u.log == t.log <==> PreviousState(t.states, r.alertId) == NewState(r))
      && (u.log != t.log ==> u.log == t.log + [LogEntry(r.alertId, r.severity, PreviousState(t.states, r.alertId), NewState(r), r.value, r.note)])
      && (u.fired != t.fired <==> PreviousState(t.states, r.alertId) == Ok && r.triggered)
      && (u.fired != t.fired ==> u.fired == t.fired + [r.(stateChanged := true, previousState := Some(Ok))])
  {
    var u := TrackOne(t, r);
    if PreviousState(t.states, r.alertId) != NewState(r) {
      assert |u.log| == |t.log| + 1;
      if r.triggered {
        assert |u.fired| == |t.fired| + 1;
      }
    }
  }

  /** One alert only appends to the log and the fired list, and what it fires is a triggered change from `ok`. */
  lemma TrackOneGrows(t: Tracking, r: AlertResult)
    ensures var u := TrackOne(t, r);
      && u.clock == t.clock + 1
      && |t.fired| <= |u.fired| && u.fired[..|t.fired|] == t.fired
      && |t.log| <= |u.log| && u.log[..|t.log|] == t.log
      && forall i :: |t.fired| <= i < |u.fired| ==>
        u.fired[i].triggered && u.fired[i].stateChanged && u.fired[i].previousState == Some(Ok)
  {
    var u := TrackOne(t, r);
    assert u.fired == t.fired || u.fired == t.fired + [r.(stateChanged := true, previousState := Some(Ok))] by {
      TrackOneSpec(t, r);
    }
    assert u.log == t.log || (|u.log| == |t.log| + 1 && u.log[..|t.log|] == t.log);
  }

  /** `severity_filter and severity not in severity_filter` skips: an absent or empty filter keeps all. */
  predicate Selected(filter: Option<seq<string>>, severity: string)
  {
    filter.None? || filter.value == [] || severity in filter.value
  }

  /** The definitions the filter keeps, in order. */
  function Chosen(alerts: seq<AlertDef>, filter: Option<seq<string>>): (r: seq<AlertDef>)
    ensures forall a :: a in r <==> a in alerts && Selected(filter, a.severity)
  {
    if alerts == [] then []
    else
      var pre := alerts[..|alerts| - 1];
      var a := alerts[|alerts| - 1];
      assert alerts == pre + [a];
      Chosen(pre, filter) + (if Selected(filter, a.severity) then [a] else [])
  }

  /** The same alert, or a sequence of alerts, tracked one result after the other. */
  function Replay(t: Tracking, rs: seq<AlertResult>): Tracking
  {
    if rs == [] then t else TrackOne(Replay(t, rs[..|rs| - 1]), rs[|rs| - 1])
  }

  /** The loop of `check_alerts_with_state`: each kept definition evaluated on the panel, then tracked in order. */
  function TrackAll(t: Tracking, alerts: seq<AlertDef>, df: Panel, hash: string -> int, filter: Option<seq<string>>): Tracking
    requires WellFormed(df)
  {
    Replay(t, Evaluations(Chosen(alerts, filter), df, hash))
  }

  /** One more definition: tracked when the filter keeps it, skipped otherwise. */
  lemma TrackAllSnoc(t: Tracking, alerts: seq<AlertDef>, df: Panel, hash: string -> int, filter: Option<seq<string>>, i: nat)
    requires WellFormed(df) && i < |alerts|
    ensures TrackAll(t, alerts[..i + 1], df, hash, filter) ==
      if Selected(filter, alerts[i].severity) then TrackOne(TrackAll(t, alerts[..i], df, hash, filter), EvaluateAlert(alerts[i], df, hash))
      else TrackAll(t, alerts[..i], df, hash, filter)
  {
    assert alerts[..i + 1][..i] == alerts[..i];
    var c := Chosen(alerts[..i], filter);
    if Selected(filter, alerts[i].severity) {
      var rs := Evaluations(c, df, hash);
      assert (c + [alerts[i]])[..|c|] == c;
      assert Evaluations(c + [alerts[i]], df, hash) == rs + [EvaluateAlert(alerts[i], df, hash)];
      assert (rs + [EvaluateAlert(alerts[i], df, hash)])[..|rs|] == rs;
    } else {
      assert c + [] == c;
    }
  }

  /** A result for another identity leaves a row (or its absence) as it is. */
  lemma {:induction false} ReplayOthers(t: Tracking, rs: seq<AlertResult>, id: string)
    requires forall i :: 0 <= i < |rs| ==> rs[i].alertId != id
    ensures var u := Replay(t, rs);
      (id in u.states <==> id in t.states) && (id in t.states ==> u.states[id] == t.states[id])
  {
    if rs != [] {
      ReplayOthers(t, rs[..|rs| - 1], id);
    }
  }

  /** An identity that no kept definition has keeps its row (or its absence). */
  lemma TrackAllOthers(t: Tracking, alerts: seq<AlertDef>, df: Panel, hash: string -> int, filter: Option<seq<string>>, id: string)
    requires WellFormed(df)
    requires forall i :: 0 <= i < |alerts| && Selected(filter, alerts[i].severity) ==> MakeAlertId(alerts[i], hash) != id
    ensures var u := TrackAll(t, alerts, df, hash, filter);
      (id in u.states <==> id in t.states) && (id in t.states ==> u.states[id] == t.states[id])
  {
    var c := Chosen(alerts, filter);
    var rs := Evaluations(c, df, hash);
    forall k | 0 <= k < |rs|
      ensures rs[k].alertId != id
    {
      EvaluationsAt(c, df, hash, k);
      assert c[k] in c;
      var j :| 0 <= j < |alerts| && alerts[j] == c[k];
    }
    ReplayOthers(t, rs, id);
  }

  /** Results only append to the log and the fired list, and what fires is a triggered change from `ok`. */
  lemma {:induction false} ReplayGrows(t: Tracking, rs: seq<AlertResult>)
    ensures var u := Replay(t, rs);
      && u.clock == t.clock + |rs|
      && |t.fired| <= |u.fired| && u.fired[..|t.fired|] == t.fired
      && |t.log| <= |u.log| && u.log[..|t.log|] == t.log
      && forall i :: |t.fired| <= i < |u.fired| ==>
        u.fired[i].triggered && u.fired[i].stateChanged && u.fired[i].previousState == Some(Ok)
  {
    if rs != [] {
      var p := Replay(t, rs[..|rs| - 1]);
      ReplayGrows(t, rs[..|rs| - 1]);
      var u := TrackOne(p, rs[|rs| - 1]);
      TrackOneGrows(p, rs[|rs| - 1]);
      assert u.fired[..|t.fired|] == p.fired[..|p.fired|][..|t.fired|];
      assert u.log[..|t.log|] == p.log[..|p.log|][..|t.log|];
    }
  }

  /**
   * `check_alerts_with_state` returns only alerts that went from `ok` to
   * `breach`; the log only grows; the clock advances once per kept definition.
   */
  lemma TrackAllFired(t: Tracking, alerts: seq<AlertDef>, df: Panel, hash: string -> int, filter: Option<seq<string>>)
    requires WellFormed(df) && t.fired == []
    ensures var u := TrackAll(t, alerts, df, hash, filter);
      && |t.log| <= |u.log| && u.log[..|t.log|] == t.log
      && u.clock == t.clock + |Chosen(alerts, filter)|
      && forall i :: 0 <= i < |u.fired| ==>
        u.fired[i].triggered && u.fired[i].stateChanged && u.fired[i].previousState == Some(Ok)
  {
    ReplayGrows(t, Evaluations(Chosen(alerts, filter), df, hash));
  }

  /** `check_alerts_with_state` on the store's observations; a refused join raises before any state is written. */
  function CheckAlerts(t: Tracking, obs: Table, cfg: Config, filter: Option<seq<string>>, hash: string -> int, sqrt: real -> real): Result<Tracking, MetricsError>
    requires TableOrdered(obs)
  {
    match AllMetrics(obs, cfg, None, None, true, sqrt)
    case Failure(e) => Failure(e)
    case Success(df) => Success(TrackAll(t, cfg.alerts, df, hash, filter))
  }

  /**
   * One alert of `check_alerts_with_state`, writing the store: the new state,
   * and a log entry on a change; returns the result when it fires.
   */
  method TrackInStore(store: Store, res: AlertResult, ghost fired: seq<AlertResult>) returns (fires: seq<AlertResult>)
    modifies store
    ensures Tracking(store.alertStates, store.alertLog, store.clock, fired + fires)
      == TrackOne(Tracking(old(store.alertStates), old(store.alertLog), old(store.clock), fired), res)
    ensures store.observations == old(store.observations) && store.derivedMetrics == old(store.derivedMetrics)
  {
    var s := NewState(res);
    var prev := store.UpdateAlertState(res.alertId, s, res.value);
    fires := [];
    if prev.Some? {
      var changed := res.(stateChanged := true, previousState := prev);
      store.LogAlertTransition(LogEntry(changed.alertId, changed.severity, prev.value, s, changed.value, changed.note));
      if s == Breach {
        fires := [changed];
      }
    }
    assert fired + [] == fired;
  }

  /** The loop of `check_alerts_with_state`, writing the store. */
  method TrackAlerts(store: Store, alerts: seq<AlertDef>, df: Panel, hash: string -> int, filter: Option<seq<string>>, notify: bool)
    returns (fired: seq<AlertResult>, notified: seq<AlertResult>)
    requires WellFormed(df)
    modifies store
    ensures Tracking(store.alertStates, store.alertLog, store.clock, fired)
      == TrackAll(Tracking(old(store.alertStates), old(store.alertLog), old(store.clock), []), alerts, df, hash, filter)
    ensures notified == if notify then fired else []
    ensures store.observations == old(store.observations) && store.derivedMetrics == old(store.derivedMetrics)
  {
    ghost var t0 := Tracking(store.alertStates, store.alertLog, store.clock, []);
    assert alerts[..0] == [];
    fired, notified := [], [];
    for i := 0 to |alerts|
      invariant Tracking(store.alertStates, store.alertLog, store.clock, fired) == TrackAll(t0, alerts[..i], df, hash, filter)
      invariant notified == if notify then fired else []
      invariant store.observations == old(store.observations) && store.derivedMetrics == old(store.derivedMetrics)
    {
      TrackAllSnoc(t0, alerts, df, hash, filter, i);
      var a := alerts[i];
      if Selected(filter, a.severity) {
        var res := EvaluateAlert(a, df, hash);
        var fires := TrackInStore(store, res, fired);
        fired := fired + fires;
        if notify {
          notified := notified + fires;
        }
      }
    }
    assert alerts[..|alerts|] == alerts;
  }

  /**
   * `check_alerts_with_state`: returns the alerts that went into `breach`;
   * with a callback, each of them is passed to it once, in order.
   */
  method CheckAlertsWithState(store: Store, cfg: Config, filter: Option<seq<string>>, notify: bool, hash: string -> int, sqrt: real -> real)
    returns (r: Result<seq<AlertResult>, MetricsError>, notified: seq<AlertResult>)
    requires store.Valid()
    modifies store
    ensures store.Valid()
    ensures store.observations == old(store.observations) && store.derivedMetrics == old(store.derivedMetrics)
    ensures match CheckAlerts(Tracking(old(store.alertStates), old(store.alertLog), old(store.clock), []), old(store.observations), cfg, filter, hash, sqrt)
      case Failure(e) =>
        r == Failure(e) && store.alertStates == old(store.alertStates) && store.alertLog == old(store.alertLog) && store.clock == old(store.clock)
      case Success(t) =>
        r == Success(t.fired) && store.alertStates == t.states && store.alertLog == t.log && store.clock == t.clock
    ensures notified == if notify && r.Success? then r.value else []
  {
    var all := CalculateAllMetrics(store, cfg, None, None, true, sqrt);
    if all.Failure? {
      return Failure(all.error), [];
    }
    var fired;
    fired, notified := TrackAlerts(store, cfg.alerts, all.value, hash, filter, notify);
    r := Success(fired);
  }

  // ---------------------------------------------------------------------
  // Repeated checks of one alert
  // ---------------------------------------------------------------------

  /** The state before the `|bs|`-th check: the initial one, then the last one set. */
  function LastState(prev: AlertState, bs: seq<AlertState>): AlertState
  {
    if bs == [] then prev else bs[|bs| - 1]
  }

  /** The number of checks whose state differs from the one before it. */
  function Changes(prev: AlertState, bs: seq<AlertState>): nat
  {
    if bs == [] then 0
    else
      var pre := bs[..|bs| - 1];
      Changes(prev, pre) + (if LastState(prev, pre) != bs[|bs| - 1] then 1 else 0)
  }

  /** The number of checks that go from `ok` to `breach`. */
  function Rises(prev: AlertState, bs: seq<AlertState>): nat
  {
    if bs == [] then 0
    else
      var pre := bs[..|bs| - 1];
      Rises(prev, pre) + (if LastState(prev, pre) == Ok && bs[|bs| - 1] == Breach then 1 else 0)
  }

  function NewStates(rs: seq<AlertResult>): (bs: seq<AlertState>)
    ensures |bs| == |rs| && forall i :: 0 <= i < |rs| ==> bs[i] == NewState(rs[i])
  {
    seq(|rs|, i requires 0 <= i < |rs| => NewState(rs[i]))
  }

  /**
   * Over repeated checks of one alert, the log gains one entry per change of
   * state and the alert fires once per rise from `ok` to `breach`: a breach
   * that persists is reported once.
   */
  lemma {:induction false} ReplaySameAlert(t: Tracking, rs: seq<AlertResult>, id: string)
    requires forall i :: 0 <= i < |rs| ==> rs[i].alertId == id
    ensures var u := Replay(t, rs);
      && PreviousState(u.states, id) == LastState(PreviousState(t.states, id), NewStates(rs))
      && |u.log| == |t.log| + Changes(PreviousState(t.states, id), NewStates(rs))
      && |u.fired| == |t.fired| + Rises(PreviousState(t.states, id), NewStates(rs))
      && u.clock == t.clock + |rs|
  {
    if rs != [] {
      var pre := rs[..|rs| - 1];
      var bs, bpre := NewStates(rs), NewStates(pre);
      assert bs[..|bs| - 1] == bpre;
      ReplaySameAlert(t, pre, id);
      TrackOneSpec(Replay(t, pre), rs[|rs| - 1]);
    }
  }

  /**
   * Four checks of a new alert that is quiet, triggered, still triggered and
   * quiet again log exactly the transitions `ok` to `breach` and back, and
   * fire once, with the result of the second check.
   */
  lemma {:induction false} FourChecks(t: Tracking, rs: seq<AlertResult>, id: string)
    requires |rs| == 4 && forall i :: 0 <= i < 4 ==> rs[i].alertId == id
    requires id !in t.states
    requires !rs[0].triggered && rs[1].triggered && rs[2].triggered && !rs[3].triggered
    ensures Replay(t, rs).log == t.log + [
      LogEntry(id, rs[1].severity, Ok, Breach, rs[1].value, rs[1].note),
      LogEntry(id, rs[3].severity, Breach, Ok, rs[3].value, rs[3].note)]
    ensures Replay(t, rs).fired == t.fired + [rs[1].(stateChanged := true, previousState := Some(Ok))]
    ensures PreviousState(Replay(t, rs).states, id) == Ok
  {
    assert rs[..3][..2] == rs[..2] && rs[..2][..1] == rs[..1] && rs[..1][..0] == [];
    var t1 := TrackOne(t, rs[0]);
    assert Replay(t, rs[..1]) == t1;
    var t2 := TrackOne(t1, rs[1]);
    assert Replay(t, rs[..2]) == t2;
    var t3 := TrackOne(t2, rs[2]);
    assert Replay(t, rs[..3]) == t3;
    assert rs[..4] == rs;
    TrackOneSpec(t, rs[0]);
    TrackOneSpec(t1, rs[1]);
    TrackOneSpec(t2, rs[2]);
    TrackOneSpec(t3, rs[3]);
  }

  // ---------------------------------------------------------------------
  // Current breaches
  // ---------------------------------------------------------------------

  /** The triggered results, in order. */
  function Breaches(rs: seq<AlertResult>): seq<AlertResult>
  {
    if rs == [] then []
    else Breaches(rs[..|rs| - 1]) + (if rs[|rs| - 1].triggered then [rs[|rs| - 1]] else [])
  }

  lemma {:induction false} BreachesMembers(rs: seq<AlertResult>, x: AlertResult)
    ensures x in Breaches(rs) <==> x in rs && x.triggered
  {
    if rs != [] {
      BreachesMembers(rs[..|rs| - 1], x);
      assert rs == rs[..|rs| - 1] + [rs[|rs| - 1]];
    }
  }

  /** Filtering keeps the order: the breaches of two runs of results are the breaches of each, one after the other. */
  lemma {:induction false} BreachesConcat(a: seq<AlertResult>, b: seq<AlertResult>)
    ensures Breaches(a + b) == Breaches(a) + Breaches(b)
    decreases |b|
  {
    if b == [] {
      assert a + b == a;
    } else {
      var pre := b[..|b| - 1];
      assert (a + b)[..|a + b| - 1] == a + pre;
      var last := b[|b| - 1];
      assert (a + b)[|a + b| - 1] == last;
      BreachesConcat(a, pre);
      var tail := if last.triggered then [last] else [];
      assert Breaches(a + b) == Breaches(a) + Breaches(pre) + tail;
      assert Breaches(b) == Breaches(pre) + tail;
    }
  }

  /** `get_current_breaches`: all alerts evaluated on the full metrics panel, the triggered ones kept. */
  function CurrentBreaches(obs: Table, cfg: Config, hash: string -> int, sqrt: real -> real): Result<seq<AlertResult>, MetricsError>
    requires TableOrdered(obs)
  {
    match AllMetrics(obs, cfg, None, None, true, sqrt)
    case Failure(e) => Failure(e)
    case Success(df) => Success(Breaches(Evaluations(cfg.alerts, df, hash)))
  }

  method GetCurrentBreaches(store: Store, cfg: Config, hash: string -> int, sqrt: real -> real) returns (r: Result<seq<AlertResult>, MetricsError>)
    requires store.Valid()
    ensures r == CurrentBreaches(store.observations, cfg, hash, sqrt)
  {
    var all := CalculateAllMetrics(store, cfg, None, None, true, sqrt);
    if all.Failure? {
      return Failure(all.error);
    }
    var results := EvaluateAllAlerts(cfg.alerts, all.value, hash);
    r := Success(Breaches(results));
  }

  /** A breach is a triggered result of one of the definitions. */
  lemma BreachesOfEvaluations(alerts: seq<AlertDef>, df: Panel, hash: string -> int, x: AlertResult)
    requires WellFormed(df)
    ensures x in Breaches(Evaluations(alerts, df, hash)) <==>
      x.triggered && exists i :: 0 <= i < |alerts| && x == EvaluateAlert(alerts[i], df, hash)
  {
    var rs := Evaluations(alerts, df, hash);
    BreachesMembers(rs, x);
    if x in rs {
      var i :| 0 <= i < |rs| && rs[i] == x;
      EvaluationsAt(alerts, df, hash, i);
    }
    if exists i :: 0 <= i < |alerts| && x == EvaluateAlert(alerts[i], df, hash) {
      var i :| 0 <= i < |alerts| && x == EvaluateAlert(alerts[i], df, hash);
      EvaluationsAt(alerts, df, hash, i);
      assert rs[i] == x;
    }
  }

  /** The current breaches are the triggered results of the definitions evaluated on the full metrics panel. */
  lemma CurrentBreachesMembers(obs: Table, cfg: Config, hash: string -> int, sqrt: real -> real, x: AlertResult)
    requires TableOrdered(obs)
    requires CurrentBreaches(obs, cfg, hash, sqrt).Success?
    ensures x in CurrentBreaches(obs, cfg, hash, sqrt).value <==>
      x.triggered && exists i :: 0 <= i < |cfg.alerts| && x == EvaluateAlert(cfg.alerts[i], AllMetrics(obs, cfg, None, None, true, sqrt).value, hash)
  {
    BreachesOfEvaluations(cfg.alerts, AllMetrics(obs, cfg, None, None, true, sqrt).value, hash, x);
  }

  // ---------------------------------------------------------------------
  // Breach summary
  // ---------------------------------------------------------------------

  /** The dict `get_breach_summary` returns. */
  datatype BreachSummary = BreachSummary(critical: seq<AlertResult>, warning: seq<AlertResult>, info: seq<AlertResult>)

  /** The summary after the loop over `breaches`: each goes to the list of its severity, other severities are dropped. */
  function Summarize(breaches: seq<AlertResult>): BreachSummary
  {
    if breaches == [] then BreachSummary([], [], [])
    else
      var s := Summarize(breaches[..|breaches| - 1]);
      var b := breaches[|breaches| - 1];
      if b.severity == "critical" then s.(critical := s.critical + [b])
      else if b.severity == "warning" then s.(warning := s.warning + [b])
      else if b.severity == "info" then s.(info := s.info + [b])
      else s
  }

  /** The results of one severity, in order. */
  function WithSeverity(rs: seq<AlertResult>, severity: string): (r: seq<AlertResult>)
    ensures forall x :: x in r <==> x in rs && x.severity == severity
  {
    if rs == [] then []
    else
      var pre := rs[..|rs| - 1];
      assert rs == pre + [rs[|rs| - 1]];
      WithSeverity(pre, severity) + (if rs[|rs| - 1].severity == severity then [rs[|rs| - 1]] else [])
  }

  /** Each list of the summary is the breaches of its severity, in their order. */
  lemma {:induction false} SummarizeBySeverity(breaches: seq<AlertResult>)
    ensures Summarize(breaches) ==
      BreachSummary(WithSeverity(breaches, "critical"), WithSeverity(breaches, "warning"), WithSeverity(breaches, "info"))
  {
    if breaches != [] {
      SummarizeBySeverity(breaches[..|breaches| - 1]);
    }
  }

  /** The loop of `get_breach_summary`. */
  method SummarizeBreaches(breaches: seq<AlertResult>) returns (s: BreachSummary)
    ensures s == Summarize(breaches)
  {
    s := BreachSummary([], [], []);
    for i := 0 to |breaches|
      invariant s == Summarize(breaches[..i])
    {
      assert breaches[..i + 1][..i] == breaches[..i];
      var b := breaches[i];
      if b.severity == "critical" {
        s := s.(critical := s.critical + [b]);
      } else if b.severity == "warning" {
        s := s.(warning := s.warning + [b]);
      } else if b.severity == "info" {
        s := s.(info := s.info + [b]);
      }
    }
    assert breaches[..|breaches|] == breaches;
  }

  /** `get_breach_summary`. */
  function BreachSummaryOf(obs: Table, cfg: Config, hash: string -> int, sqrt: real -> real): Result<BreachSummary, MetricsError>
    requires TableOrdered(obs)
  {
    match CurrentBreaches(obs, cfg, hash, sqrt)
    case Failure(e) => Failure(e)
    case Success(bs) => Success(Summarize(bs))
  }

  method GetBreachSummary(store: Store, cfg: Config, hash: string -> int, sqrt: real -> real) returns (r: Result<BreachSummary, MetricsError>)
    requires store.Valid()
    ensures r == BreachSummaryOf(store.observations, cfg, hash, sqrt)
  {
    var bs := GetCurrentBreaches(store, cfg, hash, sqrt);
    if bs.Failure? {
      return Failure(bs.error);
    }
    var summary := SummarizeBreaches(bs.value);
    r := Success(summary);
  }
}
