/**
 * The parsed configuration the engine reads: series, derived metrics, change
 * and rolling statistics, and alerts. Expression texts arrive already parsed
 * into syntax trees; reading and parsing the YAML file is not part of this model.
 */
module Config {
  import opened Wrappers
  import opened Sequences

  datatype ArithOp = Add | Sub | Mul | Div

  /** A derived-metric expression over panel columns, as given to `DataFrame.eval`. */
  datatype Formula =
    | Literal(x: real)
    | Ref(name: string)
    | Negate(operand: Formula)
    | Binary(op: ArithOp, left: Formula, right: Formula)

  datatype CmpOp = Lt | Le | Gt | Ge | Eq | Ne

  /**
   * An alert rule, as given to the restricted `eval`. `Name` is an identifier
   * looked up at evaluation time, `Call` a call of a named function, and
   * `Unsupported` any text outside this grammar (a syntax error, an attribute
   * access, a subscript, ...), which evaluation rejects.
   */
  datatype Rule =
    | Num(x: real)
    | Truth(b: bool)
    | Name(id: string)
    | Minus(operand: Rule)
    | Not(operand: Rule)
    | Arith(op: ArithOp, left: Rule, right: Rule)
    | Compare(cmp: CmpOp, left: Rule, right: Rule)
    | And(left: Rule, right: Rule)
    | Or(left: Rule, right: Rule)
    | Call(callee: string, args: seq<Rule>)
    | Unsupported

  /** `metrics.changes[*].type`; any other tag is skipped by the statistics step. */
  datatype ChangeKind = Diff | PctChange | OtherChange(tag: string)

  datatype ChangeDef = ChangeDef(name: string, kind: ChangeKind, periods: nat)

  /** `metrics.rolling[*].type`; any other tag is skipped by the statistics step. */
  datatype RollingKind = RollingMean | RollingStd | ZScore | OtherRolling(tag: string)

  datatype RollingDef = RollingDef(name: string, kind: RollingKind, window: nat)

  /** A raw series; a missing `unit` is the empty string. */
  datatype SeriesDef = SeriesDef(key: string, externalId: string, displayLabel: string, unit: string)

  datatype DerivedDef = DerivedDef(key: string, formula: Formula, unit: string)

  /** `ruleText` is the rule as written (it feeds the alert identity), `rule` its parse. */
  datatype AlertDef = AlertDef(key: string, ruleText: string, rule: Rule, severity: string, note: string, category: string)

  datatype Config = Config(
    series: seq<SeriesDef>,
    derived: seq<DerivedDef>,
    changes: seq<ChangeDef>,
    rolling: seq<RollingDef>,
    alerts: seq<AlertDef>)

  /** `config.series_keys`: the keys of the dict built from `series`, in first-occurrence order. */
  function SeriesKeys(c: Config): (r: seq<string>)
    ensures Distinct(r)
    ensures forall i :: 0 <= i < |c.series| ==> c.series[i].key in r
    ensures forall k :: k in r ==> exists i :: 0 <= i < |c.series| && c.series[i].key == k
  {
    var keys := seq(|c.series|, i requires 0 <= i < |c.series| => c.series[i].key);
    forall k | k in keys
      ensures exists i :: 0 <= i < |c.series| && c.series[i].key == k
    {
      var i :| 0 <= i < |keys| && keys[i] == k;
      assert c.series[i].key == k;
    }
    assert forall i :: 0 <= i < |c.series| ==> keys[i] == c.series[i].key && keys[i] in keys;
    Dedup(keys)
  }

  /** `config.derived_keys`. */
  function DerivedKeys(c: Config): (r: seq<string>)
    ensures Distinct(r)
    ensures forall i :: 0 <= i < |c.derived| ==> c.derived[i].key in r
    ensures forall k :: k in r ==> exists i :: 0 <= i < |c.derived| && c.derived[i].key == k
  {
    var keys := seq(|c.derived|, i requires 0 <= i < |c.derived| => c.derived[i].key);
    forall k | k in keys
      ensures exists i :: 0 <= i < |c.derived| && c.derived[i].key == k
    {
      var i :| 0 <= i < |keys| && keys[i] == k;
      assert c.derived[i].key == k;
    }
    assert forall i :: 0 <= i < |c.derived| ==> keys[i] == c.derived[i].key && keys[i] in keys;
    Dedup(keys)
  }

  /**
   * `config.get_series(key)` and `config.get_derived(key)`: the entry that
   * `{d["key"]: d for d in defs}` holds under `key`.
   */
  function FindByKey<T(==)>(defs: seq<T>, keyOf: T -> string, key: string): (r: Option<T>)
    ensures r.None? <==> forall i :: 0 <= i < |defs| ==> keyOf(defs[i]) != key
    ensures r.Some? ==> keyOf(r.value) == key && r.value in defs
  {
    if defs == [] then None
    else if keyOf(defs[|defs| - 1]) == key then Some(defs[|defs| - 1])
    else
      var pre := defs[..|defs| - 1];
      assert forall i :: 0 <= i < |pre| ==> pre[i] == defs[i];
      FindByKey(pre, keyOf, key)
  }

  /** The dict keeps the last definition with the key: no later one has it. */
  lemma {:induction false} FindByKeyIsLast<T>(defs: seq<T>, keyOf: T -> string, key: string)
    requires FindByKey(defs, keyOf, key).Some?
    ensures exists i ::
      && 0 <= i < |defs|
      && defs[i] == FindByKey(defs, keyOf, key).value
      && forall j :: i < j < |defs| ==> keyOf(defs[j]) != key
  {
    var n := |defs| - 1;
    if keyOf(defs[n]) != key {
      var pre := defs[..n];
      FindByKeyIsLast(pre, keyOf, key);
      var i :| 0 <= i < |pre| && pre[i] == FindByKey(pre, keyOf, key).value &&
        (forall j :: i < j < |pre| ==> keyOf(pre[j]) != key);
      assert forall j :: i < j < |defs| ==> keyOf(defs[j]) != key by {
        assert forall j :: i < j < n ==> defs[j] == pre[j];
      }
    }
  }

  /** The keys of `series` come out in the order in which each first occurs among the definitions. */
  lemma SeriesKeysOrder(c: Config, i: nat, j: nat, b: nat)
    requires i < j < |SeriesKeys(c)| && b < |c.series| && c.series[b].key == SeriesKeys(c)[j]
    ensures exists a :: 0 <= a < b && c.series[a].key == SeriesKeys(c)[i]
  {
    var keys := seq(|c.series|, k requires 0 <= k < |c.series| => c.series[k].key);
    DedupOrder(keys, i, j, b);
    var a :| 0 <= a < b && keys[..b][a] == SeriesKeys(c)[i];
    assert c.series[a].key == SeriesKeys(c)[i];
  }

  /** The keys of `derived` come out in the order in which each first occurs among the definitions. */
  lemma DerivedKeysOrder(c: Config, i: nat, j: nat, b: nat)
    requires i < j < |DerivedKeys(c)| && b < |c.derived| && c.derived[b].key == DerivedKeys(c)[j]
    ensures exists a :: 0 <= a < b && c.derived[a].key == DerivedKeys(c)[i]
  {
    var keys := seq(|c.derived|, k requires 0 <= k < |c.derived| => c.derived[k].key);
    DedupOrder(keys, i, j, b);
    var a :| 0 <= a < b && keys[..b][a] == DerivedKeys(c)[i];
    assert c.derived[a].key == DerivedKeys(c)[i];
  }
}
