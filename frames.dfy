/**
 * The statistics frames of the metrics engine and their joins: for one base
 * column, a frame on the same dates holding one `{column}_{name}` column per
 * configured statistic of a known type; and the left joins that attach the
 * frames to the panel.
 */
module Frames {
  import opened Wrappers
  import opened Sequences
  import opened Panels
  import opened Config
  import Stats

  /** The name `f"{column}_{suffix}"` of a statistics column. */
  function StatName(column: string, suffix: string): string
  {
    column + "_" + suffix
  }

  lemma StatNameInjective(column: string, a: string, b: string)
    ensures StatName(column, a) == StatName(column, b) ==> a == b
  {
    if StatName(column, a) == StatName(column, b) {
      var n := |column| + 1;
      assert a == StatName(column, a)[n..];
      assert b == StatName(column, b)[n..];
    }
  }

  /** A statistic of a known type. */
  datatype Stat =
    | DiffStat(periods: nat)
    | PctStat(periods: nat)
    | MeanStat(window: nat)
    | StdStat(window: nat)
    | ZStat(window: nat)

  /** The change statistics of known type, with their suffixes, in configuration order; other types are skipped. */
  function ChangeStats(defs: seq<ChangeDef>): (r: seq<(string, Stat)>)
    ensures |r| <= |defs|
  {
    if defs == [] then []
    else
      var pre := ChangeStats(defs[..|defs| - 1]);
      var d := defs[|defs| - 1];
      match d.kind
      case Diff => pre + [(d.name, DiffStat(d.periods))]
      case PctChange => pre + [(d.name, PctStat(d.periods))]
      case OtherChange(_) => pre
  }

  /** The rolling statistics of known type, with their suffixes, in configuration order. */
  function RollingStats(defs: seq<RollingDef>): (r: seq<(string, Stat)>)
    ensures |r| <= |defs|
  {
    if defs == [] then []
    else
      var pre := RollingStats(defs[..|defs| - 1]);
      var d := defs[|defs| - 1];
      match d.kind
      case RollingMean => pre + [(d.name, MeanStat(d.window))]
      case RollingStd => pre + [(d.name, StdStat(d.window))]
      case ZScore => pre + [(d.name, ZStat(d.window))]
      case OtherRolling(_) => pre
  }

  /** The column a statistic computes from `x`. */
  function StatColumn(s: Stat, x: Column, sqrt: real -> real): (r: Column)
    ensures |r| == |x|
  {
    match s
    case DiffStat(p) => Stats.DiffColumn(x, p)
    case PctStat(p) => Stats.PctChangeColumn(x, p)
    case MeanStat(w) => Stats.RollingMeanColumn(x, w)
    case StdStat(w) => Stats.RollingStdColumn(x, w, sqrt)
    case ZStat(w) => Stats.ZScoreColumn(x, w, sqrt)
  }

  function Suffixes(stats: seq<(string, Stat)>): (r: seq<string>)
    ensures |r| == |stats| && forall k :: 0 <= k < |stats| ==> r[k] == stats[k].0
  {
    seq(|stats|, k requires 0 <= k < |stats| => stats[k].0)
  }

  function StatNames(column: string, suffixes: seq<string>): (r: seq<string>)
    ensures |r| == |suffixes| && forall k :: 0 <= k < |suffixes| ==> r[k] == StatName(column, suffixes[k])
  {
    seq(|suffixes|, k requires 0 <= k < |suffixes| => StatName(column, suffixes[k]))
  }

  /** The empty frame `pd.DataFrame(index=dates)`. */
  function EmptyFrame(dates: seq<Date>): Panel
  {
    Panel(dates, [], map[])
  }

  /** The frame after assigning the first `|stats|` statistics of column `column` (values `x`). */
  function StatsFrame(dates: seq<Date>, column: string, x: Column, stats: seq<(string, Stat)>, sqrt: real -> real): (r: Panel)
    ensures r.dates == dates
  {
    if stats == [] then EmptyFrame(dates)
    else
      var pre := StatsFrame(dates, column, x, stats[..|stats| - 1], sqrt);
      var s := stats[|stats| - 1];
      SetColumn(pre, StatName(column, s.0), StatColumn(s.1, x, sqrt))
  }

  /** A frame over ascending dates whose columns all have one cell per date is well formed. */
  lemma {:induction false} StatsFrameWellFormed(dates: seq<Date>, column: string, x: Column, stats: seq<(string, Stat)>, sqrt: real -> real)
    requires Increasing(dates) && |x| == |dates|
    ensures WellFormed(StatsFrame(dates, column, x, stats, sqrt))
    decreases |stats|
  {
    if stats != [] {
      var pre := StatsFrame(dates, column, x, stats[..|stats| - 1], sqrt);
      var s := stats[|stats| - 1];
      StatsFrameWellFormed(dates, column, x, stats[..|stats| - 1], sqrt);
      SetColumnWellFormed(pre, StatName(column, s.0), StatColumn(s.1, x, sqrt));
    }
  }

  /** No later statistic has the same suffix as statistic `k`: its column is the one that stays. */
  predicate LastOfSuffix(stats: seq<(string, Stat)>, k: nat)
    requires k < |stats|
  {
    forall j :: k < j < |stats| ==> stats[j].0 != stats[k].0
  }

  /** A frame holds one column per distinct suffix, in first-occurrence order. */
  lemma {:induction false} StatsFrameNames(dates: seq<Date>, column: string, x: Column, stats: seq<(string, Stat)>, sqrt: real -> real)
    ensures var r := StatsFrame(dates, column, x, stats, sqrt);
      && r.names == AppendNew([], StatNames(column, Suffixes(stats)))
      && r.names == Dedup(StatNames(column, Suffixes(stats)))
    decreases |stats|
  {
    var names := StatNames(column, Suffixes(stats));
    if stats != [] {
      var n := |stats| - 1;
      StatsFrameNames(dates, column, x, stats[..n], sqrt);
      assert names[..n] == StatNames(column, Suffixes(stats[..n]));
    }
    AppendNewIsDedup([], names);
    assert [] + names == names;
  }

  /** A statistic that no later one overrides is a column of the frame, holding that statistic of `x`. */
  lemma {:induction false} StatsFrameCell(dates: seq<Date>, column: string, x: Column, stats: seq<(string, Stat)>, sqrt: real -> real, k: nat)
    requires k < |stats| && LastOfSuffix(stats, k)
    ensures StatName(column, stats[k].0) in StatsFrame(dates, column, x, stats, sqrt).cols
    ensures StatsFrame(dates, column, x, stats, sqrt).cols[StatName(column, stats[k].0)] == StatColumn(stats[k].1, x, sqrt)
    decreases |stats|
  {
    var n := |stats| - 1;
    var pre := stats[..n];
    var before := StatsFrame(dates, column, x, pre, sqrt);
    assert StatsFrame(dates, column, x, stats, sqrt).cols
      == before.cols[StatName(column, stats[n].0) := StatColumn(stats[n].1, x, sqrt)];
    if k < n {
      assert stats[k] == pre[k] && LastOfSuffix(pre, k);
      StatsFrameCell(dates, column, x, pre, sqrt, k);
      StatNameInjective(column, stats[k].0, stats[n].0);
    }
  }

  datatype MetricsError =
      /** `DataFrame.join` refused two frames that share a column name. */
      ColumnsOverlap(name: string)

  /** The first name of `b` that also is in `a`, if any. */
  function FirstShared(a: seq<string>, b: seq<string>): (r: Option<string>)
    ensures r.None? <==> forall n :: n in b ==> n !in a
    ensures r.Some? ==> r.value in a && r.value in b
  {
    if b == [] then None
    else if b[0] in a then Some(b[0])
    else FirstShared(a, b[1..])
  }

  /** `a.join(b)` for frames on the same dates: b's columns after a's, or an error on a shared name. */
  function Join(a: Panel, b: Panel): (r: Result<Panel, MetricsError>)
    requires WellFormed(a) && WellFormed(b) && a.dates == b.dates
    ensures r.Failure? <==> exists n :: n in b.names && n in a.names
    ensures r.Success? ==> WellFormed(r.value) && r.value.dates == a.dates && r.value.names == a.names + b.names
    ensures r.Success? ==> forall n :: n in a.cols ==> r.value.cols[n] == a.cols[n]
    ensures r.Success? ==> forall n :: n in b.cols ==> r.value.cols[n] == b.cols[n]
  {
    match FirstShared(a.names, b.names)
    case Some(n) => Failure(ColumnsOverlap(n))
    case None =>
      var j := Panel(a.dates, a.names + b.names, a.cols + b.cols);
      assert Distinct(j.names) by {
        forall i, k | 0 <= i < k < |j.names|
          ensures j.names[i] != j.names[k]
        {
          if k >= |a.names| && i < |a.names| {
            assert j.names[k] in b.names;
          }
        }
      }
      Success(j)
  }

  /** The names of all `frames`, one after another. */
  function AllNames(frames: seq<Panel>): seq<string>
  {
    if frames == [] then [] else AllNames(frames[..|frames| - 1]) + frames[|frames| - 1].names
  }

  /** Frames that can all be joined to `df`: well formed and on its dates. */
  predicate Joinable(df: Panel, frames: seq<Panel>)
  {
    WellFormed(df) && forall k :: 0 <= k < |frames| ==> WellFormed(frames[k]) && frames[k].dates == df.dates
  }

  /** `for f in frames: df = df.join(f)`; the first refused join ends the loop with its error. */
  function JoinAll(df: Panel, frames: seq<Panel>): (r: Result<Panel, MetricsError>)
    requires Joinable(df, frames)
    ensures r.Success? ==> WellFormed(r.value) && r.value.dates == df.dates
  {
    if frames == [] then Success(df)
    else
      var pre := frames[..|frames| - 1];
      assert Joinable(df, pre);
      match JoinAll(df, pre)
      case Failure(e) => Failure(e)
      case Success(p) => Join(p, frames[|frames| - 1])
  }

  /** Once a join has been refused, joining more frames keeps that error. */
  lemma {:induction false} JoinAllKeepsFailure(df: Panel, frames: seq<Panel>, i: nat)
    requires Joinable(df, frames) && i <= |frames|
    requires JoinAll(df, frames[..i]).Failure?
    ensures JoinAll(df, frames) == JoinAll(df, frames[..i])
    decreases |frames|
  {
    if |frames| > i {
      var pre := frames[..|frames| - 1];
      assert pre[..i] == frames[..i];
      JoinAllKeepsFailure(df, pre, i);
    } else {
      assert frames[..i] == frames;
    }
  }

  /** The joins succeed exactly when all names are distinct, and then the result has `df`'s columns followed by each frame's. */
  lemma {:induction false} JoinAllNames(df: Panel, frames: seq<Panel>)
    requires Joinable(df, frames)
    ensures JoinAll(df, frames).Success? <==> Distinct(df.names + AllNames(frames))
    ensures JoinAll(df, frames).Success? ==> JoinAll(df, frames).value.names == df.names + AllNames(frames)
    decreases |frames|
  {
    if frames == [] {
      assert df.names + AllNames(frames) == df.names;
    } else {
      var m := |frames| - 1;
      var pre := frames[..m];
      assert Joinable(df, pre);
      JoinAllNames(df, pre);
      assert df.names + AllNames(frames) == (df.names + AllNames(pre)) + frames[m].names;
      DistinctConcat(df.names + AllNames(pre), frames[m].names);
    }
  }

  /** After successful joins the columns of `df` keep their cells. */
  lemma {:induction false} JoinAllKeepsBase(df: Panel, frames: seq<Panel>, n: string)
    requires Joinable(df, frames) && JoinAll(df, frames).Success? && n in df.cols
    ensures n in JoinAll(df, frames).value.cols && JoinAll(df, frames).value.cols[n] == df.cols[n]
    decreases |frames|
  {
    if frames != [] {
      var pre := frames[..|frames| - 1];
      assert Joinable(df, pre);
      JoinAllKeepsBase(df, pre, n);
    }
  }

  /** After successful joins, a column of frame `k` holds that frame's cells. */
  lemma {:induction false} JoinAllFrameCell(df: Panel, frames: seq<Panel>, k: nat, n: string)
    requires Joinable(df, frames) && JoinAll(df, frames).Success?
    requires k < |frames| && n in frames[k].cols
    ensures n in JoinAll(df, frames).value.cols && JoinAll(df, frames).value.cols[n] == frames[k].cols[n]
    decreases |frames|
  {
    var m := |frames| - 1;
    if k < m {
      var pre := frames[..m];
      assert Joinable(df, pre) && pre[k] == frames[k];
      JoinAllFrameCell(df, pre, k, n);
    }
  }
}
