# fed_monitor core in Dafny

This project models the computational core of fed_monitor, a monitor for Federal Reserve and money-market data, and proves properties of that model.

- **Store.** Observations and derived values sit in a keyed store with at most one row per (key, date). The store also keeps one OK/BREACH state row per alert identity and an append-only log of state transitions.
- **Metrics engine.** It loads the observations into a date-indexed wide panel. With forward fill, the panel goes on a contiguous daily calendar and values are carried forward. The engine then adds derived columns from configured arithmetic expressions. For every column it adds change statistics (`diff`, `pct_change`) and rolling statistics (mean, standard deviation, z-score), each under the name `{column}_{name}`.
- **Alerts.** Each alert rule is evaluated in a context of the metric's latest value and nine statistics. The rule evaluator is restricted: only `abs`, `min`, `max`, `True` and `False` are in scope, and any exception makes the rule false. The evaluator runs a two-state machine per alert identity: every pass writes the state, a change of state is logged, and only a change from OK to BREACH is reported and notified. Current breaches are grouped by severity.
- **Daily summary.** From the latest values, the job keeps the metrics whose one-day change `d1` is significant for their unit.

Modules follow the program's structure:

- `Database`: the `Store` class, whose methods are the store operations and whose functions are its queries.
- `Panels`: the panel datatype.
- `Config`: the parsed configuration.
- `Stats`: per-cell statistics.
- `Formulas`: derived metrics.
- `Frames`: statistics frames and joins.
- `Metrics`: the panel pipeline.
- `MetricQueries`: latest values and single metric values.
- `Rules`: rule evaluation.
- `Alerts`: identity, context, evaluation, state tracking and breaches.
- `Scheduler`: the significance selection of the daily summary.
- `Sequences`, `Dicts` and `Wrappers`: shared helpers.

Each loop of the source is a `method` proved equal to a specification function. The source's properties are proved as lemmas about those functions.

Modelling choices:

- A Python `dict` is an insertion-ordered association list (`Dicts.Dict`). Assigning to an existing key keeps its position.
- Dates are whole days (`int`), so consecutive days differ by one.
- Numbers are exact reals, and a missing cell (NaN) is `None`.
- Rule texts and derived-metric expressions arrive already parsed into small syntax trees.
- Rule and expression evaluation treat a division by zero as an error or a missing cell, where floating point would give an infinity.
- Python's `hash`, the square root behind the rolling standard deviation, and the notification callback are parameters of the model.

Three behaviours of the code are easy to misread; the model takes each as the code has it:

- **Derived definitions see earlier ones.** `calculate_derived` evaluates each expression with `result.eval`, and `result` already holds every earlier derived column (src/metrics.py:62-75). A later definition can therefore refer to an earlier one, and a raw column it reassigns is the reassigned one (`Formulas.DerivedSeesEarlier`).
- **Overlapping column names raise.** `df.join` raises in pandas when two frames share a column name, so `calculate_all_metrics` and everything built on it fail (src/metrics.py:174-178). The model returns a `Failure(ColumnsOverlap(name))`.
- **Statistic types are handled unevenly.** `get_latest_values` looks up every configured statistic name whatever its type (src/metrics.py:218). `calculate_changes` and `calculate_rolling` skip a statistic of unknown type.

## Model

| member | source | states |
|---|---|---|
| Config.SeriesKeys | src/config.py:71-74 | the series keys are distinct, and are exactly the keys of the series definitions |
| Config.SeriesKeysOrder | src/config.py:71-74 | the series keys are listed in first-occurrence order: a key listed before another occurs among the definitions before every occurrence of the other |
| Config.DerivedKeys | src/config.py:88-91 | the derived keys are distinct, and are exactly the keys of the derived definitions |
| Config.DerivedKeysOrder | src/config.py:88-91 | the derived keys are listed in first-occurrence order among the derived definitions |
| Config.FindByKey | src/config.py:67-69 | `get_series` / `get_derived`: None iff no definition has the key; otherwise a definition with that key |
| Config.FindByKeyIsLast | src/config.py:22-23 | the dict built by the comprehension keeps the last definition with the key: no later definition has it |
| Sequences.Dedup | src/config.py:22-23 | the keys of a dict built from a sequence: distinct, and the same elements |
| Sequences.DedupOrder | src/config.py:22-23 | the dict's key order is first-occurrence order: an element listed before another occurs in the sequence before every occurrence of the other |
| Sequences.AppendNewIsDedup | src/metrics.py:65-75 | assigning columns in turn to a frame with distinct names gives the first-occurrence order of old names followed by new ones |
| Dicts.Get | scripts/run_scheduler.py:84 | `d.get(k)` is None iff `k` is not a key; otherwise it is a value stored under `k` |
| Dicts.Put | src/metrics.py:224-226 | `d[k] = v` keeps keys distinct, adds `k` at the end only when it is new, makes `k` map to `v` and leaves other keys unchanged |
| Dicts.GetDistinct | src/metrics.py:226 | an entry whose key appears nowhere else is what a lookup of that key finds |
| Panels.SetColumnWellFormed | src/metrics.py:72 | assigning a full-length column keeps the panel well formed and keeps the earlier column order |
| Panels.AllMissing | src/metrics.py:75 | the all-NaN column has one missing cell per row |
| Panels.LastPresent | src/metrics.py:205-209 | the last row of `dropna()`: present, nothing present after it, and None iff the column is all missing |
| Panels.IndexOf | src/metrics.py:267 | `series.loc[date]`: None iff the date is not a row; otherwise the row of that date |
| Panels.Merge | src/database.py:217-218 | the union of two ascending date indexes is ascending and holds the dates of both |
| Database.Insert | src/database.py:155-161 | one upsert keeps one row per date, sets the value of the row's date and leaves every other date's value unchanged |
| Database.Upserted | src/database.py:153-161 | upserting a batch keeps the rows strictly ordered by date, one per date |
| Database.UpsertedValue | src/database.py:155-161 | after a batch, each date holds the last batch value for it, or its old value when the batch has none |
| Database.OrderedExtensional | src/database.py:54 | under the uniqueness constraint a series is determined by its value on each date |
| Database.UpsertIdempotent | src/database.py:155-161 | re-upserting the same batch leaves the rows exactly as one upsert left them |
| Database.UpsertTableIdempotent | src/database.py:155-161 | re-running an upsert of a key leaves the whole table as one run left it |
| Database.UpsertTable | src/database.py:139-161 | an upsert keeps every series of the table ordered with one row per date |
| Database.RangeRows | src/database.py:176-186 | the rows with start ≤ date ≤ end (each bound optional), and only those, in ascending date order |
| Database.Latest | src/database.py:226-234 | None iff there are no rows; otherwise a stored row whose date is the greatest |
| Database.PresentKeys | src/database.py:208-212 | the keys kept by `get_all_observations`: distinct, and exactly the requested keys with rows in range |
| Database.Frames | src/database.py:208-212 | the collected dict holds, for each kept key, its rows in range |
| Database.UnionDates | src/database.py:217-218 | the row index is ascending and is exactly the dates on which some kept series has a row |
| Database.WidePanel | src/database.py:214-219 | the wide table is well formed |
| Database.AllObservations | src/database.py:199-219 | `get_all_observations` yields a well-formed panel |
| Database.AllObservationsColumns | src/database.py:208-219 | a series gets a column iff it has rows in range; the result is the empty table iff no series has any, and otherwise it is not empty |
| Database.AllObservationsCells | src/database.py:208-219 | each cell is the observation of its series on its date; a present cell is in range and equals the stored value |
| Database.WrittenRow | src/database.py:330-341 | the written row holds the new state, the value and the current time; its transition time moves only when the state differs or the row is new |
| Database.ReportedChange | src/database.py:324-345 | the previous state (`ok` for an unknown id) is returned iff it differs from the new state |
| Database.Store.constructor | src/database.py:47-96 | a new store has empty tables and an empty log |
| Database.Store.UpsertObservations | src/database.py:133-164 | returns the number of input rows (0 for an empty batch, which changes nothing), applies the upsert to the series, and changes no other table |
| Database.Store.UpsertDerivedMetrics | src/database.py:240-266 | the same upsert on the derived-metrics table, with the same count, touching no other table |
| Database.Store.GetObservations | src/database.py:167-196 | exactly the stored rows of the key within the range, in ascending date order |
| Database.Store.GetDerivedMetric | src/database.py:269-295 | exactly the stored derived rows of the key within the range, in ascending date order |
| Database.Store.GetLatestObservation | src/database.py:222-234 | None iff the series has no rows; otherwise a stored row with the greatest date |
| Database.Store.GetAllObservations | src/database.py:199-219 | the collection loop builds exactly the wide table of `AllObservations` |
| Database.Store.GetAlertState | src/database.py:301-309 | None iff the alert has no row, in which case it counts as `ok`; otherwise the row holds the alert's current state |
| Database.Store.UpdateAlertState | src/database.py:312-345 | always writes the new state and value; returns the previous state iff it changed; advances the clock; leaves other tables alone |
| Database.Store.LogAlertTransition | src/database.py:348-362 | appends exactly one entry and keeps every earlier entry and every other table |
| Stats.Window | src/metrics.py:129 | a trailing window exists iff all `w` rows up to row `i` exist and are present, and it holds those values |
| Stats.DiffAt | src/metrics.py:100-101 | present iff `i ≥ p` and both endpoints are present, and then `x[i] = x[i−p] + d` |
| Stats.PctChangeAt | src/metrics.py:102-103 | present iff `i ≥ p`, both endpoints are present and the base is non-zero, and then `x[i] = x[i−p]·(1 + pct/100)` |
| Stats.RollingMeanAt | src/metrics.py:128-129 | present iff the full window is present, and then `mean · w` is the window's sum |
| Stats.RollingStdAt | src/metrics.py:130-131 | present iff the full window is present and has at least two rows, and then it is the root of the sample variance |
| Stats.ZScoreAt | src/metrics.py:132-135 | present iff the deviation is present and non-zero (never a division by zero), and then `x = ma + z·std` |
| Stats.RollingMeanBounds | src/metrics.py:128-129 | the rolling mean lies between any lower and upper bound of its window |
| Stats.VarianceOfConstant | src/metrics.py:130-131 | the mean of a constant window is its value and the sample variance is zero |
| Stats.ZScoreConstantWindow | src/metrics.py:132-135 | on a constant window the z-score is missing (the zero-deviation guard), given a root that maps 0 to 0 |
| Formulas.FormulaColumn | src/metrics.py:69-72 | an expression gives a column iff every name it uses is a column, and then the column spans every row |
| Formulas.EvalCellLocal | src/metrics.py:72 | an expression's cell depends only on the columns it names |
| Formulas.FormulaColumnLocal | src/metrics.py:72 | adding other columns to the panel does not change an expression's column |
| Formulas.DerivedStep | src/metrics.py:69-75 | one definition keeps the panel well formed and on the same dates |
| Formulas.DerivedStepNames | src/metrics.py:72-75 | the key is appended as a column only when it is not already one |
| Formulas.DerivedSpec | src/metrics.py:63-77 | `calculate_derived` keeps the panel well formed and on the same dates |
| Formulas.DerivedNames | src/metrics.py:63-77 | the resulting columns are the input columns in order, then each new derived key once, in first-definition order |
| Formulas.DerivedKeepsInputs | src/metrics.py:63-77 | a column that no definition assigns keeps every cell |
| Formulas.DerivedHasKeys | src/metrics.py:65-75 | every derived key and every input column is a column of the result, even when its expression fails |
| Formulas.DerivedSeesEarlier | src/metrics.py:65-75 | a definition is evaluated against the panel holding every earlier one; a failing expression gives an all-missing column |
| Frames.StatNameInjective | src/metrics.py:101 | `{column}_{suffix}` names of one column differ when the suffixes differ |
| Frames.ChangeStats | src/metrics.py:95-103 | only the change definitions of known type produce a statistic |
| Frames.RollingStats | src/metrics.py:123-135 | only the rolling definitions of known type produce a statistic |
| Frames.StatsFrame | src/metrics.py:92 | a statistics frame is indexed by the panel's dates |
| Frames.StatsFrameWellFormed | src/metrics.py:92-105 | a statistics frame is well formed |
| Frames.StatsFrameNames | src/metrics.py:95-103 | a frame holds one `{column}_{suffix}` column per distinct suffix, in first-occurrence order |
| Frames.StatsFrameCell | src/metrics.py:95-105 | a statistic that no later one with the same suffix overrides is a column holding that statistic of the base column |
| Frames.Join | src/metrics.py:176 | `join` fails iff the frames share a column name; otherwise the columns are the left's then the right's, each with its cells |
| Frames.JoinAll | src/metrics.py:175-178 | successful joins give a well-formed panel on the same dates |
| Frames.JoinAllKeepsFailure | src/metrics.py:175-178 | once a join is refused, the outcome is that refusal |
| Frames.JoinAllNames | src/metrics.py:175-178 | the joins succeed iff all names are distinct, and then the columns are the panel's followed by every frame's |
| Frames.JoinAllKeepsBase | src/metrics.py:175-178 | the panel's own columns keep their cells through the joins |
| Frames.JoinAllFrameCell | src/metrics.py:175-178 | a frame's column keeps its cells through the joins |
| Metrics.Days | src/metrics.py:47 | `asfreq("D")` gives every day from the first date to the last, ascending |
| Metrics.FFill | src/metrics.py:47 | each cell of `ffill()` is the carried value at its row |
| Metrics.CarriedValue | src/metrics.py:47 | a carried cell is missing iff no cell is present up to it; otherwise it is the last present cell |
| Metrics.CarriedSource | src/metrics.py:47 | a present carried cell comes from an earlier-or-same row with nothing present in between |
| Metrics.Reindexed | src/metrics.py:47 | reindexing puts each column's raw cell on each calendar day, missing where there was no row |
| Metrics.FillDaily | src/metrics.py:45-47 | the filled panel keeps the columns, runs over the daily calendar and holds the forward-filled reindexed columns |
| Metrics.FillDailyCalendar | src/metrics.py:45-47 | the filled index runs day by day from the first raw date to the last |
| Metrics.FillDailyMissing | src/metrics.py:45-47 | a filled cell is missing only when its column has no value on or before that day |
| Metrics.DaysMissing | src/metrics.py:47 | nothing carried to a day means no raw value from the first day to that one |
| Metrics.FillDailyCarries | src/metrics.py:45-47 | a present filled cell is the raw value of an earlier-or-same day, with no raw value in between |
| Metrics.DaysCarry | src/metrics.py:47 | the day a carried value on the calendar comes from |
| Metrics.FillDailyAgrees | src/metrics.py:45-47 | where the raw panel holds an observation, the filled panel holds the same value on that day |
| Metrics.BaseData | src/metrics.py:36-49 | `load_base_data` yields a well-formed panel |
| Metrics.BaseDataColumns | src/metrics.py:39-42 | the load is empty iff no configured series has rows in range, and is then the empty table; otherwise there is one column per series with rows |
| Metrics.LoadBaseData | src/metrics.py:20-49 | reads the store and fills as `BaseData` says |
| Metrics.CalculateDerived | src/metrics.py:52-77 | the loop over definitions yields `DerivedSpec` |
| Metrics.ChangeStep | src/metrics.py:95-103 | one iteration assigns a diff or pct_change column under `{column}_{name}` and skips other types |
| Metrics.RollingStep | src/metrics.py:123-135 | one iteration assigns a mean, std or zscore column under `{column}_{name}` and skips other types |
| Metrics.CalculateChanges | src/metrics.py:80-105 | the loop yields the statistics frame of the known change definitions |
| Metrics.CalculateRolling | src/metrics.py:108-137 | the loop yields the statistics frame of the known rolling definitions |
| Metrics.ChangeFrames | src/metrics.py:170-171 | one change frame per column, in column order |
| Metrics.RollingFrames | src/metrics.py:170-172 | one rolling frame per column, in column order |
| Metrics.MetricFramesJoinable | src/metrics.py:170-178 | every frame is well formed and on the panel's dates |
| Metrics.MetricFramesChangeAt | src/metrics.py:170-176 | the `i`-th frame joined is the change frame of the `i`-th column |
| Metrics.MetricFramesRollingAt | src/metrics.py:170-178 | after all change frames, the `i`-th frame joined is the rolling frame of the `i`-th column |
| Metrics.MetricFramesNamesSound | src/metrics.py:170-178 | every added column is `{c}_{suffix}` for a panel column `c` and a known statistic |
| Metrics.MetricFramesNamesComplete | src/metrics.py:170-178 | every `{c}_{suffix}` of a panel column and a known statistic is added |
| Metrics.DerivedPanel | src/metrics.py:157-163 | the panel given statistics is well formed |
| Metrics.AllMetrics | src/metrics.py:140-180 | a successful `calculate_all_metrics` gives a well-formed panel |
| Metrics.CollectFrames | src/metrics.py:166-172 | the first loop yields the change and rolling frames of every column, in order |
| Metrics.JoinFrames | src/metrics.py:174-178 | the join loops yield the joins of all change frames, then all rolling frames |
| Metrics.CalculateAllMetrics | src/metrics.py:140-180 | the whole pipeline over the store yields `AllMetrics` |
| Metrics.AllMetricsEmpty | src/metrics.py:157-160 | the output is empty iff no configured series has rows in range, and is then the empty table |
| Metrics.AllMetricsColumns | src/metrics.py:163-180 | the output has the raw and derived columns, then exactly one `{c}_{suffix}` per column and known statistic, if no names clash (else it fails); stat columns get no statistics |
| Metrics.AllMetricsCells | src/metrics.py:163-180 | the raw and derived columns keep their cells, and each `{c}_{suffix}` holds that statistic of column `c` |
| Metrics.JoinedChangeCells | src/metrics.py:171-176 | after the joins a change column holds the change statistic of its base column |
| Metrics.JoinedRollingCells | src/metrics.py:172-178 | after the joins a rolling column holds the rolling statistic of its base column |
| MetricQueries.LookupSuffixes | src/metrics.py:218 | the suffixes looked up are every change name, then every rolling name |
| MetricQueries.StatEntriesLookup | src/metrics.py:217-224 | a suffix holds the present statistic at the latest row, or what the entry already held |
| MetricQueries.LatestSpecLookup | src/metrics.py:199-226 | a key is in the result iff it is configured and has an entry, and it then holds that entry |
| MetricQueries.LatestEntryRow | src/metrics.py:200-226 | a key has an entry iff its column exists with a present cell; the entry is built at the last present row with its value and date |
| MetricQueries.LatestValuesEmpty | src/metrics.py:190-193 | with no series rows the result is the empty dict |
| MetricQueries.CollectEntry | src/metrics.py:212-224 | the inner loop yields the entry of the key at its latest row |
| MetricQueries.CollectLatest | src/metrics.py:199-226 | the outer loop yields the result dict |
| MetricQueries.GetLatestValues | src/metrics.py:183-228 | `get_latest_values` over the store yields `LatestValues` |
| MetricQueries.MetricValueLatest | src/metrics.py:252-271 | without a date: None iff the panel is empty or the column is absent or all missing; otherwise the last present cell |
| MetricQueries.MetricValueOnDate | src/metrics.py:258-269 | with a date: the column's present cell on that date, and None when the date is not a row or the cell is missing |
| MetricQueries.GetMetricValue | src/metrics.py:231-271 | `get_metric_value` over the store yields `MetricValue` |
| Rules.Lookup | src/alerts.py:40-49 | a name resolves iff it is a context variable, `__builtins__`, or one of abs, min, max, True, False |
| Rules.MinOfLeast | src/alerts.py:43 | `min` returns one of its arguments, and none is smaller |
| Rules.MaxOfGreatest | src/alerts.py:43 | `max` returns one of its arguments, and none is greater |
| Rules.EvalArgs | src/alerts.py:49 | the evaluated arguments are as many as the arguments |
| Rules.UnknownNameIsFalse | src/alerts.py:50-53 | a name that is always reached and that nothing defines makes evaluation raise and the rule false |
| Rules.UnknownArgIsError | src/alerts.py:50-53 | such a name among call arguments makes their evaluation raise |
| Rules.EvalLocal | src/alerts.py:40-49 | only the names a rule mentions matter: contexts resolving them alike give the same value |
| Rules.EvalArgsLocal | src/alerts.py:40-49 | the same for call arguments |
| Rules.AndRule | src/alerts.py:49 | `a and b` holds iff both hold |
| Rules.OrRule | src/alerts.py:49 | `a or b` holds iff either holds, except that a raising left operand makes it false |
| Rules.ShortCircuit | src/alerts.py:49 | `False and x` is false without evaluating `x` |
| Alerts.Bucket | src/alerts.py:24 | `h % 10000` is in 0..9999, congruent to `h`, and is `h` itself when that is already in range |
| Alerts.Digits | src/alerts.py:24 | `str(n)` is a non-empty string of digits with a leading zero only for 0 |
| Alerts.ParseDigitsOfDigits | src/alerts.py:24 | reading the digits back gives the number |
| Alerts.AlertIdRoundTrip | src/alerts.py:18-24 | an identity reads back into its key, severity and hash bucket when key and severity have no colon |
| Alerts.AlertIdsDiffer | src/alerts.py:18-24 | two definitions share an identity only when they share key, severity and bucket |
| Alerts.SuffixValueRow | src/alerts.py:95-107 | a statistic has a value iff its column exists with a present cell; the value is the cell at the latest date, else the latest present cell |
| Alerts.ContextEntries | src/alerts.py:90-107 | the context keeps distinct names |
| Alerts.ContextEntriesLookup | src/alerts.py:90-107 | a looked-up suffix holds its value, and any other name keeps what the context held |
| Alerts.AlertContextLookup | src/alerts.py:75-109 | empty iff the panel is empty, the key is absent or all missing; otherwise `value` is the latest present cell, each of the nine suffixes its value at that date, and nothing else is bound |
| Alerts.GetAlertContext | src/alerts.py:59-109 | the loop over the suffixes builds `AlertContext` |
| Alerts.EvaluateAlertOutcome | src/alerts.py:123-153 | error iff no value iff no data for the key; triggered iff there is a value and the rule holds; value is the latest present cell; no state change yet |
| Alerts.MissingStatisticNeverTriggers | src/alerts.py:130-151 | a rule that always reaches a statistic the metric lacks never triggers |
| Alerts.SuffixesUnbound | src/alerts.py:88 | no statistic name is `value` or shadows a name of the evaluation scope |
| Alerts.Evaluations | src/alerts.py:168-171 | one result per alert definition |
| Alerts.EvaluationsAt | src/alerts.py:168-171 | the `i`-th result is the evaluation of the `i`-th definition |
| Alerts.EvaluateAllAlerts | src/alerts.py:156-173 | the loop yields `Evaluations` |
| Alerts.TrackOneSpec | src/alerts.py:204-237 | the new state is breach iff triggered and is always written with the value; no other row changes; a log entry iff the state changed; it fires iff it went from ok to breach |
| Alerts.TrackOneGrows | src/alerts.py:204-237 | one alert only appends to the log and the fired list, and what fires is a triggered change from ok |
| Alerts.Chosen | src/alerts.py:197-202 | the kept definitions are those whose severity passes the filter (all when it is absent or empty) |
| Alerts.TrackAllSnoc | src/alerts.py:197-237 | one more definition is tracked when the filter keeps it and skipped otherwise |
| Alerts.ReplayOthers | src/alerts.py:211-215 | results for other identities leave an alert's row as it was |
| Alerts.TrackAllOthers | src/alerts.py:197-237 | an identity that no kept definition has keeps its row |
| Alerts.ReplayGrows | src/alerts.py:197-237 | a run only appends to the log and the fired list |
| Alerts.TrackAllFired | src/alerts.py:195-239 | only alerts going from ok to breach are returned; the log only grows; the clock advances once per kept definition |
| Alerts.TrackInStore | src/alerts.py:204-237 | one alert's writes to the store are those of `TrackOne` |
| Alerts.TrackAlerts | src/alerts.py:197-239 | the loop's writes to the store are those of `TrackAll`; the callback receives exactly the returned alerts, in order |
| Alerts.CheckAlertsWithState | src/alerts.py:176-239 | a failing metrics computation changes nothing; otherwise the store holds the tracked states, log and clock, and the result is the fired alerts |
| Alerts.NewStates | src/alerts.py:208 | each result's new state is breach iff it triggered |
| Alerts.ReplaySameAlert | src/alerts.py:208-237 | over repeated checks of one alert the log gains one entry per change and the alert fires once per rise from ok to breach |
| Alerts.FourChecks | src/alerts.py:208-237 | checks quiet, triggered, triggered, quiet of a new alert log exactly ok→breach (second check) then breach→ok (fourth check), fire exactly once with the second result marked changed from ok, and end in ok |
| Alerts.BreachesMembers | src/alerts.py:250 | a breach is exactly a triggered result |
| Alerts.BreachesConcat | src/alerts.py:250 | filtering for breaches keeps the order |
| Alerts.GetCurrentBreaches | src/alerts.py:242-250 | `get_current_breaches` over the store yields `CurrentBreaches` |
| Alerts.BreachesOfEvaluations | src/alerts.py:249-250 | a breach is a triggered evaluation of one of the definitions |
| Alerts.CurrentBreachesMembers | src/alerts.py:242-250 | the current breaches are the triggered results of the definitions on the full metrics panel |
| Alerts.WithSeverity | src/alerts.py:268-271 | the results of one severity, and only those |
| Alerts.SummarizeBySeverity | src/alerts.py:262-273 | each list of the summary is the breaches of its severity, in order; other severities are dropped |
| Alerts.SummarizeBreaches | src/alerts.py:262-273 | the loop yields `Summarize` |
| Alerts.GetBreachSummary | src/alerts.py:253-273 | `get_breach_summary` over the store yields `BreachSummaryOf` |
| Scheduler.Abs | scripts/run_scheduler.py:94 | `abs(d1)` is non-negative and is `d1` or `−d1` |
| Scheduler.SignificanceBySize | scripts/run_scheduler.py:92-100 | significance ignores the sign, is kept by larger changes, needs a unit with a threshold, and needs a change above 0.01 |
| Scheduler.SelectionSucceeds | scripts/run_scheduler.py:83-100 | when every `d1` is a number the selection never raises |
| Scheduler.SelectionMembers | scripts/run_scheduler.py:83-107 | a line is selected iff some entry has that key, a numeric significant `d1` and that `value` |
| Scheduler.SelectionStaysFailed | scripts/run_scheduler.py:83-100 | once the loop has raised, it has raised for the whole map |
| Scheduler.SelectSignificant | scripts/run_scheduler.py:82-107 | the loop yields `Selection`, which skips entries without `d1` and keeps the latest-values order |
| Scheduler.LatestChangesNumeric | src/metrics.py:217-224 | every `d1` of the latest values is a number |
| Scheduler.LatestValuesNumeric | src/metrics.py:190-228 | every `d1` of a successful `get_latest_values` is a number |
| Scheduler.DailySummarySent | scripts/run_scheduler.py:109-110 | the selection never raises on the latest values, and a summary is sent iff they exist and the selection is non-empty |
| Scheduler.JobDailySummary | scripts/run_scheduler.py:78-110 | the job sends `DailySummary` |

## Left out

- Connection handling, schema set-up and the fetch log (`init_db`, `get_connection`, `log_fetch`, `get_fetch_history`) are I/O. The tables are fields of `Database.Store`.
- Wall-clock timestamps (`datetime.utcnow`, `CURRENT_TIMESTAMP`) are readings of the counter `Store.clock`. The `created_at` and `triggered_at` columns are not modelled.
- The `id` columns and SQL `NULL` observation values are not modelled. Stored observation values are reals.
- Date strings and their parsing and formatting are whole-day integers.
- Python's salted `hash` of the rule text is a parameter. Alert identities are stable within one process only, and nothing is claimed across processes.
- The square root of `rolling().std()` is a parameter. Floating-point rounding, infinities and NaN propagation are out of scope: values are exact reals and a missing cell is `None`.
- Stats.PctChangeAt: a zero base is a missing cell here. In pandas it is an infinity or a NaN, which the code does not guard.
- The `periods` of a change and the `window` of a rolling statistic are natural numbers. With a negative `periods` pandas computes a forward difference or percentage change, and a negative `window` raises; neither is modelled.
- Reading the YAML configuration and the global singleton (`get_config`) are out of scope. The engine takes a parsed `Config.Config`.
- The text of derived-metric expressions and alert rules, and the grammars of `DataFrame.eval` and the restricted `eval`, are out of scope. The model takes them parsed into `Config.Formula` and `Config.Rule`.
- Rule syntax outside the modelled trees is `Unsupported`, which evaluates to an error (false). This covers chained comparisons, attribute access, calls with keyword arguments and iteration of one argument by `min`/`max`.
- The warnings printed by `calculate_derived` and `evaluate_rule` are not modelled.
- The `df is None` paths of `get_alert_context` and `evaluate_all_alerts` are left out. The model evaluates on a given panel; `check_alerts_with_state`, `get_current_breaches` and `get_breach_summary` compute that panel from the store first.
- The notification callback is modelled as the sequence `notified` of results passed to it. Sending them (Telegram) is I/O.
- `store_derived_metrics` in `src/metrics.py` is not part of this model. `Store.UpsertDerivedMetrics` is the store operation it calls.
- The HTTP client, the notifier, the dashboard, the export script, the command-line scripts and the scheduler wiring (`scripts/run_scheduler.py` outside the significance selection) are not part of this model.
- A join whose column names overlap raises in pandas. Here it is a `Failure(ColumnsOverlap(name))` of the metrics computation, and every operation above it returns that failure.
