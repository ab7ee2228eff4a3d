/**
 * Derived metrics: each configured expression is evaluated row by row
 * against the panel built so far (`DataFrame.eval`), and its column is
 * added to the panel. An expression naming a column the panel does not have
 * fails as a whole and leaves an all-missing column instead.
 */
module Formulas {
  import opened Wrappers
  import opened Sequences
  import opened Panels
  import opened Config

  /** Every column the formula names is in the panel; otherwise `eval` raises. */
  predicate Resolves(f: Formula, p: Panel)
  {
    match f
    case Literal(_) => true
    case Ref(n) => n in p.cols
    case Negate(a) => Resolves(a, p)
    case Binary(_, a, b) => Resolves(a, p) && Resolves(b, p)
  }

  /**
   * Column arithmetic on one row. A missing operand gives a missing result
   * (NaN propagation); a division by zero is missing here, where floating
   * point would give an infinity.
   */
  function Arith(op: ArithOp, x: real, y: real): Cell
  {
    match op
    case Add => Some(x + y)
    case Sub => Some(x - y)
    case Mul => Some(x * y)
    case Div => if y == 0.0 then None else Some(x / y)
  }

  function EvalCell(f: Formula, p: Panel, i: nat): Cell
    requires WellFormed(p) && i < |p.dates| && Resolves(f, p)
  {
    match f
    case Literal(x) => Some(x)
    case Ref(n) => p.cols[n][i]
    case Negate(a) =>
      var v := EvalCell(a, p, i);
      if v.Some? then Some(-v.value) else None
    case Binary(op, a, b) =>
      var x, y := EvalCell(a, p, i), EvalCell(b, p, i);
      if x.Some? && y.Some? then Arith(op, x.value, y.value) else None
  }

  /** `result.eval(expr)`: the whole column, or None when the expression names an unknown column. */
  function FormulaColumn(f: Formula, p: Panel): (r: Option<Column>)
    requires WellFormed(p)
    ensures r.Some? <==> Resolves(f, p)
    ensures r.Some? ==> |r.value| == |p.dates|
  {
    if Resolves(f, p) then Some(seq(|p.dates|, i requires 0 <= i < |p.dates| => EvalCell(f, p, i)))
    else None
  }

  /** Two panels over the same dates that agree on the columns a formula names give it the same value. */
  lemma {:induction false} EvalCellLocal(f: Formula, p: Panel, q: Panel, i: nat)
    requires WellFormed(p) && WellFormed(q) && p.dates == q.dates && i < |p.dates|
    requires Resolves(f, p)
    requires forall n :: n in p.cols && n in q.cols ==> p.cols[n] == q.cols[n]
    requires forall n :: n in p.cols ==> n in q.cols
    ensures Resolves(f, q) && EvalCell(f, p, i) == EvalCell(f, q, i)
  {
    match f
    case Literal(_) =>
    case Ref(_) =>
    case Negate(a) =>
      EvalCellLocal(a, p, q, i);
    case Binary(_, a, b) =>
      EvalCellLocal(a, p, q, i);
      EvalCellLocal(b, p, q, i);
  }

  lemma {:induction false} ResolvesWider(f: Formula, p: Panel, q: Panel)
    requires Resolves(f, p) && forall n :: n in p.cols ==> n in q.cols
    ensures Resolves(f, q)
  {
    match f
    case Literal(_) =>
    case Ref(_) =>
    case Negate(a) =>
      ResolvesWider(a, p, q);
    case Binary(_, a, b) =>
      ResolvesWider(a, p, q);
      ResolvesWider(b, p, q);
  }

  /**
   * A formula's column depends only on the columns it names: a panel that
   * keeps those columns as they are, whatever else it adds, gives the same column.
   */
  lemma FormulaColumnLocal(f: Formula, p: Panel, q: Panel)
    requires WellFormed(p) && WellFormed(q) && p.dates == q.dates && Resolves(f, p)
    requires forall n :: n in p.cols ==> n in q.cols && q.cols[n] == p.cols[n]
    ensures FormulaColumn(f, q) == FormulaColumn(f, p)
  {
    ResolvesWider(f, p, q);
    var a, b := FormulaColumn(f, p).value, FormulaColumn(f, q).value;
    forall i | 0 <= i < |p.dates|
      ensures a[i] == b[i]
    {
      EvalCellLocal(f, p, q, i);
    }
    assert a == b;
  }

  /** One loop step of `calculate_derived`: assign the evaluated column, or all-missing when evaluation fails. */
  function DerivedStep(p: Panel, d: DerivedDef): (r: Panel)
    requires WellFormed(p)
    ensures WellFormed(r) && r.dates == p.dates
  {
    var col := FormulaColumn(d.formula, p);
    var value := if col.Some? then col.value else AllMissing(|p.dates|);
    SetColumnWellFormed(p, d.key, value);
    SetColumn(p, d.key, value)
  }

  lemma DerivedStepNames(p: Panel, d: DerivedDef)
    requires WellFormed(p)
    ensures DerivedStep(p, d).names == if d.key in p.names then p.names else p.names + [d.key]
  {
  }

  /** The panel after the first `|defs|` iterations of `calculate_derived`. */
  function DerivedSpec(defs: seq<DerivedDef>, p: Panel): (r: Panel)
    requires WellFormed(p)
    ensures WellFormed(r) && r.dates == p.dates
  {
    if defs == [] then p else DerivedStep(DerivedSpec(defs[..|defs| - 1], p), defs[|defs| - 1])
  }

  function DerivedKeyList(defs: seq<DerivedDef>): (r: seq<string>)
    ensures |r| == |defs| && forall k :: 0 <= k < |defs| ==> r[k] == defs[k].key
  {
    seq(|defs|, k requires 0 <= k < |defs| => defs[k].key)
  }

  /**
   * The columns after `calculate_derived`: the input columns in their order,
   * then each new derived key once, in first-definition order.
   */
  lemma {:induction false} DerivedNames(defs: seq<DerivedDef>, p: Panel)
    requires WellFormed(p)
    ensures DerivedSpec(defs, p).names == AppendNew(p.names, DerivedKeyList(defs))
    ensures DerivedSpec(defs, p).names == Dedup(p.names + DerivedKeyList(defs))
    decreases |defs|
  {
    if defs != [] {
      var pre := defs[..|defs| - 1];
      DerivedNames(pre, p);
      assert DerivedKeyList(defs)[..|defs| - 1] == DerivedKeyList(pre);
    }
    AppendNewIsDedup(p.names, DerivedKeyList(defs));
  }

  /** A column that no definition assigns keeps every cell of the input. */
  lemma {:induction false} DerivedKeepsInputs(defs: seq<DerivedDef>, p: Panel, n: string)
    requires WellFormed(p) && n in p.cols
    requires forall k :: 0 <= k < |defs| ==> defs[k].key != n
    ensures n in DerivedSpec(defs, p).cols && DerivedSpec(defs, p).cols[n] == p.cols[n]
    decreases |defs|
  {
    if defs != [] {
      DerivedKeepsInputs(defs[..|defs| - 1], p, n);
    }
  }

  /** After the loop every derived key is a column, and so is every input column. */
  lemma {:induction false} DerivedHasKeys(defs: seq<DerivedDef>, p: Panel)
    requires WellFormed(p)
    ensures forall j :: 0 <= j < |defs| ==> defs[j].key in DerivedSpec(defs, p).cols
    ensures forall n :: n in p.cols ==> n in DerivedSpec(defs, p).cols
    decreases |defs|
  {
    if defs != [] {
      DerivedHasKeys(defs[..|defs| - 1], p);
    }
  }

  /**
   * Definition `k` is evaluated against the panel that already holds every
   * earlier definition, so a later expression can name an earlier derived key;
   * when it names an unknown column its key holds an all-missing column.
   */
  lemma DerivedSeesEarlier(defs: seq<DerivedDef>, p: Panel, k: nat)
    requires WellFormed(p) && k < |defs|
    ensures forall j :: 0 <= j < k ==> defs[j].key in DerivedSpec(defs[..k], p).cols
    ensures var before := DerivedSpec(defs[..k], p);
            DerivedSpec(defs[..k + 1], p).cols[defs[k].key] ==
              if Resolves(defs[k].formula, before) then FormulaColumn(defs[k].formula, before).value
              else AllMissing(|p.dates|)
  {
    DerivedHasKeys(defs[..k], p);
    assert forall j :: 0 <= j < k ==> defs[..k][j] == defs[j];
    assert defs[..k + 1][..k] == defs[..k];
  }
}
