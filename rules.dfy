/**
 * Alert rules evaluated the way `eval(rule, {"__builtins__": safe_builtins},
 * context)` evaluates them: names are looked up in the context first, then in
 * the globals (whose only entry is `__builtins__`), then among the safe
 * builtins `abs`, `min`, `max`, `True` and `False`. Every exception (an
 * unknown name, a type error, a division by zero) makes the rule false.
 */
module Rules {
  import opened Wrappers
  import opened Config
  import opened Dicts

  /**
   * A Python value a rule can produce. Booleans are the numbers 1 and 0, as
   * `bool` is a subclass of `int`; `Function` is one of the safe builtins and
   * `BuiltinsDict` the dict bound to `__builtins__`.
   */
  datatype Value = Scalar(x: real) | Function(f: Builtin) | BuiltinsDict

  /** The callable safe builtins. */
  datatype Builtin = Abs | Min | Max

  function FromBool(b: bool): Value
  {
    Scalar(if b then 1.0 else 0.0)
  }

  /** Python truthiness: a non-zero number, any function and the non-empty builtins dict. */
  predicate Truthy(v: Value)
  {
    match v
    case Scalar(x) => x != 0.0
    case Function(_) => true
    case BuiltinsDict => true
  }

  /** The names the safe builtins provide. */
  const BuiltinNames: seq<string> := ["abs", "min", "max", "True", "False"]

  /** Name resolution: context, then globals, then safe builtins; None is a `NameError`. */
  function Lookup(ctx: Dict<real>, id: string): (r: Option<Value>)
    ensures r.Some? <==> id in Keys(ctx) || id == "__builtins__" || id in BuiltinNames
  {
    match Get(ctx, id)
    case Some(x) => Some(Scalar(x))
    case None =>
      if id == "__builtins__" then Some(BuiltinsDict)
      else if id == "True" then Some(FromBool(true))
      else if id == "False" then Some(FromBool(false))
      else if id == "abs" then Some(Function(Abs))
      else if id == "min" then Some(Function(Min))
      else if id == "max" then Some(Function(Max))
      else None
  }

  function ArithValue(op: ArithOp, a: Value, b: Value): Option<Value>
  {
    if !a.Scalar? || !b.Scalar? then None
    else
      match op
      case Add => Some(Scalar(a.x + b.x))
      case Sub => Some(Scalar(a.x - b.x))
      case Mul => Some(Scalar(a.x * b.x))
      case Div => if b.x == 0.0 then None else Some(Scalar(a.x / b.x))
  }

  /** Comparisons: numbers compare by value; `==` and `!=` compare anything; ordering anything else is a `TypeError`. */
  function CompareValue(cmp: CmpOp, a: Value, b: Value): Option<Value>
  {
    if cmp == Eq then Some(FromBool(a == b))
    else if cmp == Ne then Some(FromBool(a != b))
    else if !a.Scalar? || !b.Scalar? then None
    else if cmp == Lt then Some(FromBool(a.x < b.x))
    else if cmp == Le then Some(FromBool(a.x <= b.x))
    else if cmp == Gt then Some(FromBool(a.x > b.x))
    else Some(FromBool(a.x >= b.x))
  }

  predicate AllScalars(vs: seq<Value>)
  {
    forall i :: 0 <= i < |vs| ==> vs[i].Scalar?
  }

  /** `min(*vs)` of numbers: the first least one. */
  function MinOf(vs: seq<Value>): real
    requires |vs| > 0 && AllScalars(vs)
  {
    if |vs| == 1 then vs[0].x
    else
      var m := MinOf(vs[..|vs| - 1]);
      if vs[|vs| - 1].x < m then vs[|vs| - 1].x else m
  }

  /** `max(*vs)` of numbers: the first greatest one. */
  function MaxOf(vs: seq<Value>): real
    requires |vs| > 0 && AllScalars(vs)
  {
    if |vs| == 1 then vs[0].x
    else
      var m := MaxOf(vs[..|vs| - 1]);
      if vs[|vs| - 1].x > m then vs[|vs| - 1].x else m
  }

  /** `min` returns one of its arguments, and none is smaller. */
  lemma {:induction false} MinOfLeast(vs: seq<Value>) returns (k: nat)
    requires |vs| > 0 && AllScalars(vs)
    ensures k < |vs| && vs[k].x == MinOf(vs)
    ensures forall i :: 0 <= i < |vs| ==> MinOf(vs) <= vs[i].x
  {
    if |vs| == 1 {
      k := 0;
    } else {
      var pre := vs[..|vs| - 1];
      assert forall i :: 0 <= i < |pre| ==> pre[i] == vs[i];
      k := MinOfLeast(pre);
      if vs[|vs| - 1].x < MinOf(pre) {
        k := |vs| - 1;
      }
    }
  }

  /** `max` returns one of its arguments, and none is greater. */
  lemma {:induction false} MaxOfGreatest(vs: seq<Value>) returns (k: nat)
    requires |vs| > 0 && AllScalars(vs)
    ensures k < |vs| && vs[k].x == MaxOf(vs)
    ensures forall i :: 0 <= i < |vs| ==> vs[i].x <= MaxOf(vs)
  {
    if |vs| == 1 {
      k := 0;
    } else {
      var pre := vs[..|vs| - 1];
      assert forall i :: 0 <= i < |pre| ==> pre[i] == vs[i];
      k := MaxOfGreatest(pre);
      if vs[|vs| - 1].x > MaxOf(pre) {
        k := |vs| - 1;
      }
    }
  }

  /**
   * Calling a value. `abs` takes one number; `min` and `max` take two or more
   * numbers (one argument is iterated, and no rule value is iterable in this
   * model); any other call is a `TypeError`.
   */
  function Apply(f: Value, args: seq<Value>): Option<Value>
  {
    match f
    case Function(Abs) =>
      if |args| == 1 && args[0].Scalar? then Some(Scalar(if args[0].x < 0.0 then -args[0].x else args[0].x)) else None
    case Function(Min) =>
      if |args| >= 2 && AllScalars(args) then Some(Scalar(MinOf(args))) else None
    case Function(Max) =>
      if |args| >= 2 && AllScalars(args) then Some(Scalar(MaxOf(args))) else None
    case _ => None
  }

  /** The value of a rule; None when evaluating it raises. `and` and `or` return an operand and short-circuit. */
  function Eval(r: Rule, ctx: Dict<real>): Option<Value>
    decreases r
  {
    match r
    case Num(x) => Some(Scalar(x))
    case Truth(b) => Some(FromBool(b))
    case Name(id) => Lookup(ctx, id)
    case Minus(a) =>
      var v := Eval(a, ctx);
      if v.Some? && v.value.Scalar? then Some(Scalar(-v.value.x)) else None
    case Not(a) =>
      var v := Eval(a, ctx);
      if v.Some? then Some(FromBool(!Truthy(v.value))) else None
    case Arith(op, a, b) =>
      var x, y := Eval(a, ctx), Eval(b, ctx);
      if x.Some? && y.Some? then ArithValue(op, x.value, y.value) else None
    case Compare(cmp, a, b) =>
      var x, y := Eval(a, ctx), Eval(b, ctx);
      if x.Some? && y.Some? then CompareValue(cmp, x.value, y.value) else None
    case And(a, b) =>
      var x := Eval(a, ctx);
      if x.None? then None else if !Truthy(x.value) then x else Eval(b, ctx)
    case Or(a, b) =>
      var x := Eval(a, ctx);
      if x.None? then None else if Truthy(x.value) then x else Eval(b, ctx)
    case Call(callee, args) =>
      var f := Lookup(ctx, callee);
      var vs := EvalArgs(args, ctx);
      if f.Some? && vs.Some? then Apply(f.value, vs.value) else None
    case Unsupported => None
  }

  /** The arguments of a call, left to right; None when one of them raises. */
  function EvalArgs(args: seq<Rule>, ctx: Dict<real>): (r: Option<seq<Value>>)
    ensures r.Some? ==> |r.value| == |args|
    decreases args
  {
    if args == [] then Some([])
    else
      var pre := EvalArgs(args[..|args| - 1], ctx);
      var last := Eval(args[|args| - 1], ctx);
      if pre.Some? && last.Some? then Some(pre.value + [last.value]) else None
  }

  /** `evaluate_rule`: never raises; the truthiness of the rule's value, and false on any exception. */
  function EvaluateRule(r: Rule, ctx: Dict<real>): bool
  {
    match Eval(r, ctx)
    case None => false
    case Some(v) => Truthy(v)
  }

  /** The names a rule mentions, callees included. */
  function Names(r: Rule): seq<string>
    decreases r
  {
    match r
    case Name(id) => [id]
    case Minus(a) => Names(a)
    case Not(a) => Names(a)
    case Arith(_, a, b) => Names(a) + Names(b)
    case Compare(_, a, b) => Names(a) + Names(b)
    case And(a, b) => Names(a) + Names(b)
    case Or(a, b) => Names(a) + Names(b)
    case Call(callee, args) => [callee] + ArgNames(args)
    case _ => []
  }

  function ArgNames(args: seq<Rule>): seq<string>
    decreases args
  {
    if args == [] then []
    else
      ArgNames(args[..|args| - 1]) + Names(args[|args| - 1])
  }

  /** The names evaluation always reaches: the right operand of `and` and `or` may be skipped. */
  function StrictNames(r: Rule): seq<string>
    decreases r
  {
    match r
    case Name(id) => [id]
    case Minus(a) => StrictNames(a)
    case Not(a) => StrictNames(a)
    case Arith(_, a, b) => StrictNames(a) + StrictNames(b)
    case Compare(_, a, b) => StrictNames(a) + StrictNames(b)
    case And(a, _) => StrictNames(a)
    case Or(a, _) => StrictNames(a)
    case Call(callee, args) => [callee] + StrictArgNames(args)
    case _ => []
  }

  function StrictArgNames(args: seq<Rule>): seq<string>
    decreases args
  {
    if args == [] then []
    else
      StrictArgNames(args[..|args| - 1]) + StrictNames(args[|args| - 1])
  }

  /**
   * A name that evaluation always reaches and that neither the context nor the
   * scope defines raises a `NameError`, so the rule is false.
   */
  lemma {:induction false} UnknownNameIsFalse(r: Rule, ctx: Dict<real>, id: string)
    requires id in StrictNames(r) && Lookup(ctx, id).None?
    ensures Eval(r, ctx).None? && !EvaluateRule(r, ctx)
    decreases r
  {
    match r
    case Name(_) =>
    case Minus(a) => UnknownNameIsFalse(a, ctx, id);
    case Not(a) => UnknownNameIsFalse(a, ctx, id);
    case Arith(_, a, b) =>
      if id in StrictNames(a) { UnknownNameIsFalse(a, ctx, id); } else { UnknownNameIsFalse(b, ctx, id); }
    case Compare(_, a, b) =>
      if id in StrictNames(a) { UnknownNameIsFalse(a, ctx, id); } else { UnknownNameIsFalse(b, ctx, id); }
    case And(a, _) => UnknownNameIsFalse(a, ctx, id);
    case Or(a, _) => UnknownNameIsFalse(a, ctx, id);
    case Call(callee, args) =>
      if id != callee {
        UnknownArgIsError(args, ctx, id);
      }
  }

  lemma {:induction false} UnknownArgIsError(args: seq<Rule>, ctx: Dict<real>, id: string)
    requires id in StrictArgNames(args) && Lookup(ctx, id).None?
    ensures EvalArgs(args, ctx).None?
    decreases args
  {
    var pre := args[..|args| - 1];
    if id in StrictArgNames(pre) {
      UnknownArgIsError(pre, ctx, id);
    } else {
      UnknownNameIsFalse(args[|args| - 1], ctx, id);
    }
  }

  /**
   * Only the names a rule mentions matter: two contexts that resolve each of
   * them alike give the rule the same value.
   */
  lemma {:induction false} EvalLocal(r: Rule, c1: Dict<real>, c2: Dict<real>)
    requires forall id :: id in Names(r) ==> Lookup(c1, id) == Lookup(c2, id)
    ensures Eval(r, c1) == Eval(r, c2)
    decreases r
  {
    match r
    case Num(_) =>
    case Truth(_) =>
    case Name(_) =>
    case Minus(a) => EvalLocal(a, c1, c2);
    case Not(a) => EvalLocal(a, c1, c2);
    case Arith(_, a, b) => EvalLocal(a, c1, c2); EvalLocal(b, c1, c2);
    case Compare(_, a, b) => EvalLocal(a, c1, c2); EvalLocal(b, c1, c2);
    case And(a, b) => EvalLocal(a, c1, c2); EvalLocal(b, c1, c2);
    case Or(a, b) => EvalLocal(a, c1, c2); EvalLocal(b, c1, c2);
    case Call(callee, args) => EvalArgsLocal(args, c1, c2);
    case Unsupported =>
  }

  lemma {:induction false} EvalArgsLocal(args: seq<Rule>, c1: Dict<real>, c2: Dict<real>)
    requires forall id :: id in ArgNames(args) ==> Lookup(c1, id) == Lookup(c2, id)
    ensures EvalArgs(args, c1) == EvalArgs(args, c2)
    decreases args
  {
    if args != [] {
      EvalArgsLocal(args[..|args| - 1], c1, c2);
      EvalLocal(args[|args| - 1], c1, c2);
    }
  }

  /** `a and b` holds exactly when both hold: a falsy or failing left operand ends the evaluation. */
  lemma AndRule(a: Rule, b: Rule, ctx: Dict<real>)
    ensures EvaluateRule(And(a, b), ctx) == (EvaluateRule(a, ctx) && EvaluateRule(b, ctx))
  {
  }

  /** `a or b` holds when either holds, except that a failing left operand makes the whole rule false. */
  lemma OrRule(a: Rule, b: Rule, ctx: Dict<real>)
    ensures EvaluateRule(Or(a, b), ctx) == (Eval(a, ctx).Some? && (EvaluateRule(a, ctx) || EvaluateRule(b, ctx)))
  {
  }

  /** `False and x` is false whatever `x` is, even a name nothing defines. */
  lemma ShortCircuit(b: Rule, ctx: Dict<real>)
    ensures Eval(And(Truth(false), b), ctx) == Some(FromBool(false))
  {
  }

}
