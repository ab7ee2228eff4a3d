/**
 * The keyed store behind the engine: per-series observation rows, derived
 * metric rows, one state row per alert identity and the append-only
 * transition log. The SQL, connections and schema set-up are not modelled;
 * each table is a field of the `Store` class and each query a function of it.
 */
module Database {
  import opened Wrappers
  import opened Sequences
  import opened Panels

  /** One stored `(date, value)` row of a series. */
  datatype Row = Row(date: Date, value: real)

  /** Strictly ascending dates, so at most one row per date: the `UNIQUE(series_key, date)` constraint. */
  predicate Ordered(rows: seq<Row>)
  {
    forall i, j :: 0 <= i < j < |rows| ==> rows[i].date < rows[j].date
  }

  /** The value stored for date `d`, if any. */
  function ValueAt(rows: seq<Row>, d: Date): Option<real>
  {
    if rows == [] then None
    else if rows[0].date == d then Some(rows[0].value)
    else ValueAt(rows[1..], d)
  }

  lemma ValueAtIndex(rows: seq<Row>, k: nat)
    requires Ordered(rows) && k < |rows|
    ensures ValueAt(rows, rows[k].date) == Some(rows[k].value)
  {
    if k > 0 {
      ValueAtIndex(rows[1..], k - 1);
    }
  }

  lemma ValueAtPresent(rows: seq<Row>, d: Date)
    requires ValueAt(rows, d).Some?
    ensures Row(d, ValueAt(rows, d).value) in rows
  {
    if rows[0].date != d {
      ValueAtPresent(rows[1..], d);
    }
  }

  lemma ValueAtBelowHead(rows: seq<Row>, d: Date)
    requires Ordered(rows) && rows != [] && d < rows[0].date
    ensures ValueAt(rows, d).None?
  {
    if ValueAt(rows, d).Some? {
      ValueAtPresent(rows, d);
    }
  }

  /** The single-row upsert `INSERT ... ON CONFLICT(series_key, date) DO UPDATE SET value = excluded.value`. */
  function Insert(rows: seq<Row>, r: Row): (res: seq<Row>)
    requires Ordered(rows)
    ensures Ordered(res)
    ensures forall x :: x in res ==> x == r || x in rows
    ensures forall d :: ValueAt(res, d) == if d == r.date then Some(r.value) else ValueAt(rows, d)
  {
    if rows == [] then [r]
    else if r.date < rows[0].date then
      ValueAtBelowHead(rows, r.date);
      [r] + rows
    else if r.date == rows[0].date then
      assert forall d :: d != r.date ==> ValueAt(rows, d) == ValueAt(rows[1..], d);
      assert Ordered(rows[1..]);
      [r] + rows[1..]
    else
      var tail := Insert(rows[1..], r);
      assert forall x :: x in rows[1..] ==> rows[0].date < x.date;
      [rows[0]] + tail
  }

  /** The rows of a series after `executemany` of the upsert over `batch`, one row after another. */
  function Upserted(rows: seq<Row>, batch: seq<Row>): (res: seq<Row>)
    requires Ordered(rows)
    ensures Ordered(res)
    decreases |batch|
  {
    if batch == [] then rows else Upserted(Insert(rows, batch[0]), batch[1..])
  }

  /** The value carried by the last row of `batch` dated `d`, if any: the row that wins the conflicts. */
  function LastInBatch(batch: seq<Row>, d: Date): Option<real>
  {
    if batch == [] then None
    else
      var later := LastInBatch(batch[1..], d);
      if later.Some? then later
      else if batch[0].date == d then Some(batch[0].value)
      else None
  }

  /** After an upsert each date holds the last batch value for it, or its old value when the batch has none. */
  lemma {:induction false} UpsertedValue(rows: seq<Row>, batch: seq<Row>, d: Date)
    requires Ordered(rows)
    ensures ValueAt(Upserted(rows, batch), d) ==
              if LastInBatch(batch, d).Some? then LastInBatch(batch, d) else ValueAt(rows, d)
    decreases |batch|
  {
    if batch != [] {
      UpsertedValue(Insert(rows, batch[0]), batch[1..], d);
    }
  }

  /** Two row sequences that store the same value for every date are both empty or both not. */
  lemma EmptyAgree(a: seq<Row>, b: seq<Row>)
    requires forall d :: ValueAt(a, d) == ValueAt(b, d)
    ensures a == [] <==> b == []
  {
    if a != [] {
      assert ValueAt(b, a[0].date).Some?;
      ValueAtPresent(b, a[0].date);
    }
    if b != [] {
      assert ValueAt(a, b[0].date).Some?;
      ValueAtPresent(a, b[0].date);
    }
  }

  /** Two ordered, non-empty row sequences that agree on every date start with the same row. */
  lemma HeadsAgree(a: seq<Row>, b: seq<Row>)
    requires Ordered(a) && Ordered(b) && a != [] && b != []
    requires forall d :: ValueAt(a, d) == ValueAt(b, d)
    ensures a[0] == b[0]
  {
    assert ValueAt(b, a[0].date).Some?;
    ValueAtPresent(b, a[0].date);
    var j :| 0 <= j < |b| && b[j] == Row(a[0].date, ValueAt(b, a[0].date).value);
    assert b[0].date <= a[0].date;
    assert ValueAt(a, b[0].date).Some?;
    ValueAtPresent(a, b[0].date);
    var i :| 0 <= i < |a| && a[i] == Row(b[0].date, ValueAt(a, b[0].date).value);
    assert a[0].date <= b[0].date;
  }

  /** Two ordered row sequences that store the same value for every date are equal. */
  lemma {:induction false} OrderedExtensional(a: seq<Row>, b: seq<Row>)
    requires Ordered(a) && Ordered(b)
    requires forall d :: ValueAt(a, d) == ValueAt(b, d)
    ensures a == b
    decreases |a| + |b|
  {
    if a != [] && b != [] {
      HeadsAgree(a, b);
      assert Ordered(a[1..]) && Ordered(b[1..]);
      forall d
        ensures ValueAt(a[1..], d) == ValueAt(b[1..], d)
      {
        if d == a[0].date {
          if a[1..] != [] {
            ValueAtBelowHead(a[1..], d);
          }
          if b[1..] != [] {
            ValueAtBelowHead(b[1..], d);
          }
        } else {
          assert ValueAt(a, d) == ValueAt(a[1..], d);
          assert ValueAt(b, d) == ValueAt(b[1..], d);
        }
      }
      OrderedExtensional(a[1..], b[1..]);
      assert a == [a[0]] + a[1..] && b == [b[0]] + b[1..];
    } else {
      EmptyAgree(a, b);
    }
  }

  /** Upserting the same batch again changes nothing: one row per date, holding the same value. */
  lemma UpsertIdempotent(rows: seq<Row>, batch: seq<Row>)
    requires Ordered(rows)
    ensures Upserted(Upserted(rows, batch), batch) == Upserted(rows, batch)
  {
    var once := Upserted(rows, batch);
    forall d
      ensures ValueAt(Upserted(once, batch), d) == ValueAt(once, d)
    {
      UpsertedValue(once, batch, d);
      UpsertedValue(rows, batch, d);
    }
    OrderedExtensional(Upserted(once, batch), once);
  }

  /** The optional `date >= start` and `date <= end` filters of the range queries. */
  predicate InRange(d: Date, start: Option<Date>, end: Option<Date>)
  {
    (start.None? || start.value <= d) && (end.None? || d <= end.value)
  }

  /** `SELECT date, value ... WHERE date >= start AND date <= end ORDER BY date`. */
  function RangeRows(rows: seq<Row>, start: Option<Date>, end: Option<Date>): (res: seq<Row>)
    requires Ordered(rows)
    ensures Ordered(res)
    ensures forall x :: x in res <==> x in rows && InRange(x.date, start, end)
  {
    if rows == [] then []
    else
      var tail := RangeRows(rows[1..], start, end);
      assert Ordered(rows[1..]);
      assert forall x :: x in rows <==> x == rows[0] || x in rows[1..];
      if InRange(rows[0].date, start, end) then
        assert forall x :: x in tail ==> rows[0].date < x.date;
        [rows[0]] + tail
      else tail
  }

  /** `ORDER BY date DESC LIMIT 1`: the row with the greatest date, if any. */
  function Latest(rows: seq<Row>): (r: Option<Row>)
    requires Ordered(rows)
    ensures r.None? <==> rows == []
    ensures r.Some? ==> r.value in rows && forall x :: x in rows ==> x.date <= r.value.date
  {
    if rows == [] then None else Some(rows[|rows| - 1])
  }

  /** The dates of a series, in order. */
  function DatesOf(rows: seq<Row>): (r: seq<Date>)
    requires Ordered(rows)
    ensures Increasing(r) && |r| == |rows|
    ensures forall i :: 0 <= i < |rows| ==> r[i] == rows[i].date
  {
    seq(|rows|, i requires 0 <= i < |rows| => rows[i].date)
  }

  lemma DatesOfValueAt(rows: seq<Row>, d: Date)
    requires Ordered(rows)
    ensures d in DatesOf(rows) <==> ValueAt(rows, d).Some?
  {
    var ds := DatesOf(rows);
    if d in ds {
      var k :| 0 <= k < |ds| && ds[k] == d;
      ValueAtIndex(rows, k);
    }
    if ValueAt(rows, d).Some? {
      ValueAtPresent(rows, d);
      var k :| 0 <= k < |rows| && rows[k] == Row(d, ValueAt(rows, d).value);
      assert ds[k] == d;
    }
  }

  /** A table: the rows of each key, each in date order. */
  type Table = map<string, seq<Row>>

  predicate TableOrdered(t: Table)
  {
    forall k :: k in t ==> Ordered(t[k])
  }

  /** The rows of `key`; a key never written has none. */
  function SeriesOf(t: Table, key: string): (rows: seq<Row>)
    requires TableOrdered(t)
    ensures Ordered(rows)
  {
    if key in t then t[key] else []
  }

  /** The effect of `upsert_observations` / `upsert_derived_metrics` on a table. */
  function UpsertTable(t: Table, key: string, batch: seq<Row>): (r: Table)
    requires TableOrdered(t)
    ensures TableOrdered(r)
  {
    if batch == [] then t else t[key := Upserted(SeriesOf(t, key), batch)]
  }

  /** Re-running the same upsert leaves the table as one run left it. */
  lemma UpsertTableIdempotent(t: Table, key: string, batch: seq<Row>)
    requires TableOrdered(t)
    ensures UpsertTable(UpsertTable(t, key, batch), key, batch) == UpsertTable(t, key, batch)
  {
    if batch != [] {
      UpsertIdempotent(SeriesOf(t, key), batch);
    }
  }

  /** The keys of `get_all_observations` that have rows in range, in first-occurrence order. */
  function PresentKeys(t: Table, keys: seq<string>, start: Option<Date>, end: Option<Date>): (r: seq<string>)
    requires TableOrdered(t)
    ensures Distinct(r)
    ensures forall k :: k in r <==> k in keys && RangeRows(SeriesOf(t, k), start, end) != []
  {
    if keys == [] then []
    else
      var pre := PresentKeys(t, keys[..|keys| - 1], start, end);
      var k := keys[|keys| - 1];
      assert forall x :: x in keys <==> x in keys[..|keys| - 1] || x == k;
      if RangeRows(SeriesOf(t, k), start, end) != [] && k !in pre then pre + [k] else pre
  }

  /** One more key: it joins the present keys when its series has rows in range and it is not there yet. */
  lemma PresentKeysSnoc(t: Table, keys: seq<string>, i: nat, start: Option<Date>, end: Option<Date>)
    requires TableOrdered(t) && i < |keys|
    ensures PresentKeys(t, keys[..i + 1], start, end) ==
      var pre := PresentKeys(t, keys[..i], start, end);
      if RangeRows(SeriesOf(t, keys[i]), start, end) != [] && keys[i] !in pre then pre + [keys[i]] else pre
  {
    assert keys[..i + 1][..i] == keys[..i];
  }

  /** The per-series frames collected by `get_all_observations` for the keys in `order`. */
  function Frames(t: Table, order: seq<string>, start: Option<Date>, end: Option<Date>): (dfs: map<string, seq<Row>>)
    requires TableOrdered(t)
    ensures forall k :: k in dfs <==> k in order
    ensures forall k :: k in dfs ==> dfs[k] == RangeRows(SeriesOf(t, k), start, end)
  {
    if order == [] then map[]
    else
      var k := order[|order| - 1];
      assert forall x :: x in order <==> x in order[..|order| - 1] || x == k;
      Frames(t, order[..|order| - 1], start, end)[k := RangeRows(SeriesOf(t, k), start, end)]
  }

  lemma FramesExtend(t: Table, order: seq<string>, start: Option<Date>, end: Option<Date>, k: string)
    requires TableOrdered(t)
    ensures Frames(t, order, start, end)[k := RangeRows(SeriesOf(t, k), start, end)] ==
            Frames(t, if k in order then order else order + [k], start, end)
  {
    if k !in order {
      var extended := order + [k];
      assert extended[..|order|] == order;
      assert extended[|extended| - 1] == k;
    }
  }

  /** The union of the dates of the series named in `order`, ascending. */
  function UnionDates(order: seq<string>, dfs: map<string, seq<Row>>): (r: seq<Date>)
    requires forall k :: k in order ==> k in dfs && Ordered(dfs[k])
    ensures Increasing(r)
    ensures forall d :: d in r ==> exists k :: k in order && ValueAt(dfs[k], d).Some?
    ensures forall k, d :: k in order && ValueAt(dfs[k], d).Some? ==> d in r
  {
    if order == [] then []
    else
      var pre := UnionDates(order[..|order| - 1], dfs);
      var k := order[|order| - 1];
      var own := DatesOf(dfs[k]);
      assert forall d :: d in own <==> ValueAt(dfs[k], d).Some? by {
        forall d ensures d in own <==> ValueAt(dfs[k], d).Some? { DatesOfValueAt(dfs[k], d); }
      }
      assert forall x :: x in order <==> x in order[..|order| - 1] || x == k;
      Merge(pre, own)
  }

  /** `pd.DataFrame(dfs).sort_index()`: one column per collected series over the union of their dates. */
  function WidePanel(order: seq<string>, dfs: map<string, seq<Row>>): (p: Panel)
    requires Distinct(order)
    requires forall k :: k in order ==> k in dfs && Ordered(dfs[k])
    ensures WellFormed(p)
  {
    if order == [] then EmptyPanel
    else
      var dates := UnionDates(order, dfs);
      Panel(dates, order,
            map k | k in order :: seq(|dates|, i requires 0 <= i < |dates| => ValueAt(dfs[k], dates[i])))
  }

  /** `get_all_observations(keys, start, end)` over the observations table. */
  function AllObservations(t: Table, keys: seq<string>, start: Option<Date>, end: Option<Date>): (p: Panel)
    requires TableOrdered(t)
    ensures WellFormed(p)
  {
    var order := PresentKeys(t, keys, start, end);
    WidePanel(order, Frames(t, order, start, end))
  }

  /** No column for a series without rows in range; an empty table when every series is empty. */
  lemma AllObservationsColumns(t: Table, keys: seq<string>, start: Option<Date>, end: Option<Date>)
    requires TableOrdered(t)
    ensures var p := AllObservations(t, keys, start, end);
      && (forall k :: k in p.names <==> k in keys && RangeRows(SeriesOf(t, k), start, end) != [])
      && (p == EmptyPanel <==> forall k :: k in keys ==> RangeRows(SeriesOf(t, k), start, end) == [])
      && (p != EmptyPanel ==> !IsEmpty(p))
  {
    var order := PresentKeys(t, keys, start, end);
    var p := AllObservations(t, keys, start, end);
    if order != [] {
      var k := order[0];
      var rows := RangeRows(SeriesOf(t, k), start, end);
      DatesOfValueAt(rows, rows[0].date);
      ValueAtIndex(rows, 0);
      assert rows[0].date in p.dates;
    }
  }

  /** Every cell of the wide table is the observation of its series on its date, within the range. */
  lemma AllObservationsCells(t: Table, keys: seq<string>, start: Option<Date>, end: Option<Date>, k: string, i: nat)
    requires TableOrdered(t)
    requires var p := AllObservations(t, keys, start, end); k in p.names && i < |p.dates|
    ensures var p := AllObservations(t, keys, start, end);
      && p.cols[k][i] == ValueAt(RangeRows(SeriesOf(t, k), start, end), p.dates[i])
      && (p.cols[k][i].Some? ==> InRange(p.dates[i], start, end) && ValueAt(SeriesOf(t, k), p.dates[i]) == p.cols[k][i])
  {
    var p := AllObservations(t, keys, start, end);
    var rows := RangeRows(SeriesOf(t, k), start, end);
    if p.cols[k][i].Some? {
      var d := p.dates[i];
      ValueAtPresent(rows, d);
      var row := Row(d, ValueAt(rows, d).value);
      assert row in SeriesOf(t, k);
      var j :| 0 <= j < |SeriesOf(t, k)| && SeriesOf(t, k)[j] == row;
      ValueAtIndex(SeriesOf(t, k), j);
    }
  }

  datatype AlertState = Ok | Breach

  /** A row of `alert_state`; the two times are readings of the store's clock. */
  datatype AlertStateRow = AlertStateRow(state: AlertState, lastValue: Option<real>, lastTransitionTime: nat, updatedAt: nat)

  /** A row of `alerts_log`. */
  datatype LogEntry = LogEntry(alertId: string, severity: string, stateFrom: AlertState, stateTo: AlertState, value: Option<real>, note: string)

  /** The state an alert is in before an update: its stored state, or `ok` when it was never stored. */
  function PreviousState(states: map<string, AlertStateRow>, id: string): AlertState
  {
    if id in states then states[id].state else Ok
  }

  /** The row `update_alert_state` writes (an UPDATE of the existing row or an INSERT of a new one). */
  function WrittenRow(states: map<string, AlertStateRow>, id: string, state: AlertState, value: Option<real>, now: nat): (r: AlertStateRow)
    ensures r.state == state && r.lastValue == value && r.updatedAt == now
    ensures r.lastTransitionTime == if id in states && states[id].state == state then states[id].lastTransitionTime else now
  {
    if id in states then
      AlertStateRow(state, value, if states[id].state != state then now else states[id].lastTransitionTime, now)
    else
      AlertStateRow(state, value, now, now)
  }

  /** What `update_alert_state` returns: the previous state when it differs from the new one. */
  function ReportedChange(states: map<string, AlertStateRow>, id: string, state: AlertState): (r: Option<AlertState>)
    ensures r.Some? <==> PreviousState(states, id) != state
    ensures r.Some? ==> r.value == PreviousState(states, id) && r.value != state
  {
    var prev := PreviousState(states, id);
    if prev != state then Some(prev) else None
  }

  class Store {
    var observations: Table
    var derivedMetrics: Table
    var alertStates: map<string, AlertStateRow>
    var alertLog: seq<LogEntry>
    /** The clock that stamps alert-state rows; it advances on every state write. */
    var clock: nat

    ghost predicate Valid()
      reads this
    {
      TableOrdered(observations) && TableOrdered(derivedMetrics)
    }

    constructor ()
      ensures Valid()
      ensures observations == map[] && derivedMetrics == map[] && alertStates == map[] && alertLog == [] && clock == 0
    {
      observations, derivedMetrics, alertStates, alertLog, clock := map[], map[], map[], [], 0;
    }

    /** `upsert_observations`: returns the number of input rows, not the number of rows changed. */
    method UpsertObservations(key: string, batch: seq<Row>) returns (n: nat)
      requires Valid()
      modifies this
      ensures Valid()
      ensures n == |batch|
      ensures observations == UpsertTable(old(observations), key, batch)
      ensures batch == [] ==> observations == old(observations)
      ensures derivedMetrics == old(derivedMetrics) && alertStates == old(alertStates)
      ensures alertLog == old(alertLog) && clock == old(clock)
    {
      if batch == [] {
        return 0;
      }
      observations := UpsertTable(observations, key, batch);
      n := |batch|;
    }

    /** `upsert_derived_metrics`, the same upsert on the derived-metrics table. */
    method UpsertDerivedMetrics(key: string, batch: seq<Row>) returns (n: nat)
      requires Valid()
      modifies this
      ensures Valid()
      ensures n == |batch|
      ensures derivedMetrics == UpsertTable(old(derivedMetrics), key, batch)
      ensures observations == old(observations) && alertStates == old(alertStates)
      ensures alertLog == old(alertLog) && clock == old(clock)
    {
      if batch == [] {
        return 0;
      }
      derivedMetrics := UpsertTable(derivedMetrics, key, batch);
      n := |batch|;
    }

    /** `get_observations`: the rows of `key` within the range, in ascending date order. */
    function GetObservations(key: string, start: Option<Date>, end: Option<Date>): (rows: seq<Row>)
      reads this
      requires Valid()
      ensures Ordered(rows)
      ensures forall x :: x in rows <==> x in SeriesOf(observations, key) && InRange(x.date, start, end)
    {
      RangeRows(SeriesOf(observations, key), start, end)
    }

    /** `get_derived_metric`: the same range query on the derived-metrics table. */
    function GetDerivedMetric(key: string, start: Option<Date>, end: Option<Date>): (rows: seq<Row>)
      reads this
      requires Valid()
      ensures Ordered(rows)
      ensures forall x :: x in rows <==> x in SeriesOf(derivedMetrics, key) && InRange(x.date, start, end)
    {
      RangeRows(SeriesOf(derivedMetrics, key), start, end)
    }

    /** `get_latest_observation`: the row with the greatest date, or None for a series without rows. */
    function GetLatestObservation(key: string): (r: Option<Row>)
      reads this
      requires Valid()
      ensures r.None? <==> SeriesOf(observations, key) == []
      ensures r.Some? ==> r.value in SeriesOf(observations, key)
      ensures r.Some? ==> forall x :: x in SeriesOf(observations, key) ==> x.date <= r.value.date
    {
      Latest(SeriesOf(observations, key))
    }

    /** `get_all_observations`: collects the non-empty series in a loop, then builds the wide table. */
    method GetAllObservations(keys: seq<string>, start: Option<Date>, end: Option<Date>) returns (p: Panel)
      requires Valid()
      ensures p == AllObservations(observations, keys, start, end)
    {
      var order: seq<string> := [];
      var dfs: map<string, seq<Row>> := map[];
      for i := 0 to |keys|
        invariant order == PresentKeys(observations, keys[..i], start, end)
        invariant dfs == Frames(observations, order, start, end)
      {
        PresentKeysSnoc(observations, keys, i, start, end);
        var rows := GetObservations(keys[i], start, end);
        if rows != [] {
          FramesExtend(observations, order, start, end, keys[i]);
          if keys[i] !in order {
            order := order + [keys[i]];
          }
          dfs := dfs[keys[i] := rows];
        }
      }
      assert keys[..|keys|] == keys;
      p := WidePanel(order, dfs);
    }

    /** `get_alert_state`: the stored row, if any; an alert without one counts as `ok`. */
    function GetAlertState(id: string): (r: Option<AlertStateRow>)
      reads this
      ensures r.None? <==> id !in alertStates
      ensures r.None? ==> PreviousState(alertStates, id) == Ok
      ensures r.Some? ==> r.value.state == PreviousState(alertStates, id)
    {
      if id in alertStates then Some(alertStates[id]) else None
    }

    /**
     * `update_alert_state`: always writes the new state and value; the
     * transition time moves only when the state differs or the row is new;
     * returns the previous state (`ok` for an unknown id) iff it differs.
     */
    method UpdateAlertState(id: string, state: AlertState, value: Option<real>) returns (prev: Option<AlertState>)
      modifies this
      ensures alertStates == old(alertStates)[id := WrittenRow(old(alertStates), id, state, value, old(clock))]
      ensures prev == ReportedChange(old(alertStates), id, state)
      ensures clock == old(clock) + 1
      ensures observations == old(observations) && derivedMetrics == old(derivedMetrics) && alertLog == old(alertLog)
    {
      var now := clock;
      prev := ReportedChange(alertStates, id, state);
      alertStates := alertStates[id := WrittenRow(alertStates, id, state, value, now)];
      clock := clock + 1;
    }

    /** `log_alert_transition`: appends one entry and leaves the earlier ones as they were. */
    method LogAlertTransition(entry: LogEntry)
      modifies this
      ensures alertLog == old(alertLog) + [entry]
      ensures observations == old(observations) && derivedMetrics == old(derivedMetrics)
      ensures alertStates == old(alertStates) && clock == old(clock)
    {
      alertLog := alertLog + [entry];
    }
  }
}
