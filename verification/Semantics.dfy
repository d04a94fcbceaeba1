/** The reference meaning of checked programs, without registers or jumps.

    Expressions evaluate structurally.  Statements take a fuel argument that
    only loop iterations use up; `OutOfFuel` means "not finished yet".
 */
module Semantics {
  import opened Wrappers
  import opened Runtime
  import opened Ast

  datatype Eval<+T> =
    | Yields(value: T, world: World)
    | Faults(message: string, world: World)
    | Unmatched  // a match expression without a matching arm; the coverage check excludes it
  {
    predicate IsFailure() { !Yields? }
    function PropagateFailure<U>(): Eval<U>
      requires IsFailure()
    {
      match this
      case Faults(m, w) => Faults(m, w)
      case Unmatched => Unmatched
    }
    function Extract(): (T, World)
      requires !IsFailure()
    {
      (value, world)
    }
  }

  function FromEffect(effect: Effect): Eval<Value> {
    match effect
    case Done(v, w) => Yields(v, w)
    case Trap(m, w) => Faults(m, w)
  }

  type Bindings = seq<(string, Value)>

  datatype PatternResult = Matches(bindings: Bindings) | Fails | PatternFaults(message: string)

  function BindAll(w: World, bs: Bindings): World
    decreases |bs|
  {
    if bs == [] then w else BindAll(BindVar(w, bs[0].0, bs[0].1), bs[1..])
  }

  function Lookup(bs: Bindings, name: string): Value {
    if bs == [] then Nil else if bs[0].0 == name then bs[0].1 else Lookup(bs[1..], name)
  }

  /** The same bindings listed in the order of `names`. */
  function Reorder(bs: Bindings, names: seq<string>): (r: Bindings)
    ensures |r| == |names|
    ensures forall i :: 0 <= i < |names| ==> r[i] == (names[i], Lookup(bs, names[i]))
  {
    seq(|names|, i requires 0 <= i < |names| => (names[i], Lookup(bs, names[i])))
  }

  /** Pattern matching tries components left to right and OR-alternatives in order. */
  function MatchPattern(rt: Runtime, p: Pattern, v: Value, w: World): PatternResult
    decreases p
  {
    match p
    case Wildcard => Matches([])
    case Bind(name) => Matches([(name, v)])
    case LiteralPattern(c) => if ValuesEqual(v, c) then Matches([]) else Fails
    case RecordPattern(parts) => MatchComponents(rt, parts, v, w)
    case VariantPattern(e, n, parts) =>
      if v.Variant? && v.enumName == e && v.variantName == n then MatchComponents(rt, parts, v, w) else Fails
    case OrPattern(first, others) =>
      match MatchPattern(rt, first, v, w) {
        case Fails => MatchAlternatives(rt, others, PatternNames(first), v, w)
        case r => r
      }
  }

  function MatchComponents(rt: Runtime, parts: List<Component>, v: Value, w: World): PatternResult
    decreases parts
  {
    match parts
    case Empty => Matches([])
    case Cons(part, rest) =>
      match Apply(rt, SelectorPrim(part.selector), [v], w)
      case Trap(m, _) => PatternFaults(m)
      case Done(component, _) =>
        match MatchPattern(rt, part.pattern, component, w)
        case Matches(bs) =>
          (match MatchComponents(rt, rest, v, w)
           case Matches(rest) => Matches(bs + rest)
           case r => r)
        case r => r
  }

  function MatchAlternatives(rt: Runtime, others: List<Pattern>, merged: seq<string>, v: Value, w: World): PatternResult
    decreases others
  {
    match others
    case Empty => Fails
    case Cons(other, rest) =>
      match MatchPattern(rt, other, v, w)
      case Matches(bs) => Matches(Reorder(bs, merged))
      case Fails => MatchAlternatives(rt, rest, merged, v, w)
      case r => r
  }

  /** `old op= value`: the old value is checked before the right-hand side runs, the right-hand side after. */
  function EvalCompound(rt: Runtime, op: ArithmeticOp, role: string, old': Value, value: Expr, w: World): Eval<Value>
    decreases value, 1
  {
    var (checkedOld, w1) :- FromEffect(Apply(rt, AssertNumber(CompoundMessage(op, role)), [old'], w));
    var (v, w2) :- EvalExpr(rt, value, w1);
    var (checkedValue, w3) :- FromEffect(Apply(rt, AssertNumber(CompoundMessage(op, "value")), [v], w2));
    FromEffect(Apply(rt, Arithmetic(op), [checkedOld, checkedValue], w3))
  }

  function EvalExpr(rt: Runtime, e: Expr, w: World): Eval<Value>
    decreases e, 0
  {
    match e
    case Literal(c) => Yields(c, w)
    case Variable(name) => FromEffect(ReadVar(w, name))
    case Assign(name, value) =>
      var (v, w1) :- EvalExpr(rt, value, w);
      FromEffect(UpdateVar(w1, name, v))
    case CompoundAssign(op, name, value) =>
      var (old', w1) :- FromEffect(ReadVar(w, name));
      var (v, w2) :- EvalCompound(rt, op, "variable", old', value, w1);
      FromEffect(UpdateVar(w2, name, v))
    case IndexCompoundAssign(op, collection, index, value) =>
      var (c, w1) :- EvalExpr(rt, collection, w);
      var (i, w2) :- EvalExpr(rt, index, w1);
      var (old', w3) :- FromEffect(Apply(rt, Index, [c, i], w2));
      var (v, w4) :- EvalCompound(rt, op, "target", old', value, w3);
      var (_, w5) :- FromEffect(Apply(rt, AssignIndex, [c, i, v], w4));
      Yields(v, w5)
    case FieldCompoundAssign(op, target, field, value) =>
      var (o, w1) :- EvalExpr(rt, target, w);
      var (old', w2) :- FromEffect(Apply(rt, Field(field), [o], w1));
      var (v, w3) :- EvalCompound(rt, op, "target", old', value, w2);
      var (_, w4) :- FromEffect(Apply(rt, AssignField(field), [o, v], w3));
      Yields(v, w4)
    case Grouping(inner) => EvalExpr(rt, inner, w)
    case Operation(prim, operands) =>
      var (vs, w1) :- EvalOperands(rt, operands, w);
      FromEffect(Apply(rt, prim, vs, w1))
    case Logical(isOr, left, right) =>
      var (l, w1) :- EvalExpr(rt, left, w);
      if Truthy(l) == isOr then Yields(l, w1) else EvalExpr(rt, right, w1)
    case MatchExpr(scrutinee, arms) =>
      var (v, w1) :- EvalExpr(rt, scrutinee, w);
      EvalArms(rt, arms, v, w1)
    case Lambda(f) => FromEffect(Apply(rt, MakeClosure(f.functionLabel, f.parameters), [], w))
  }

  function EvalOperands(rt: Runtime, es: List<Expr>, w: World): Eval<seq<Value>>
    decreases es, 0
  {
    match es
    case Empty => Yields([], w)
    case Cons(e, rest) =>
      var (v, w1) :- EvalExpr(rt, e, w);
      var (vs, w2) :- EvalOperands(rt, rest, w1);
      Yields([v] + vs, w2)
  }

  /** Whether the arm is taken, and the world after its bindings and guard. */
  function EvalGuard(rt: Runtime, guard: Option<Expr>, w: World): Eval<bool>
    decreases guard, 0
  {
    match guard
    case None => Yields(true, w)
    case Some(g) =>
      var (v, w1) :- EvalExpr(rt, g, w);
      Yields(Truthy(v), w1)
  }

  /** Whether an arm is taken: its pattern matches, its bindings are stored, its guard holds. */
  function TryArm(rt: Runtime, pattern: Pattern, guard: Option<Expr>, v: Value, w: World): Eval<bool>
    decreases guard, 1
  {
    match MatchPattern(rt, pattern, v, w)
    case Matches(bs) => EvalGuard(rt, guard, BindAll(w, bs))
    case Fails => Yields(false, w)
    case PatternFaults(m) => Faults(m, w)
  }

  function EvalArms(rt: Runtime, arms: List<ExprArm>, v: Value, w: World): Eval<Value>
    decreases arms, 0
  {
    match arms
    case Empty => Unmatched
    case Cons(arm, rest) =>
      var (taken, w1) :- TryArm(rt, arm.pattern, arm.guard, v, w);
      if taken then EvalExpr(rt, arm.value, w1) else EvalArms(rt, rest, v, w1)
  }

  datatype Outcome =
    | Normal(world: World)
    | Broke(world: World)
    | Continued(world: World)
    | Returned(value: Value, world: World)
    | Faulted(message: string, world: World)
    | NoArm
    | OutOfFuel

  /** The outcome of a statement whose expression did not yield a value. */
  function Abort<T>(r: Eval<T>): Outcome
    requires !r.Yields?
  {
    match r
    case Faults(m, w) => Faulted(m, w)
    case Unmatched => NoArm
  }

  function Exec(rt: Runtime, s: Stmt, w: World, fuel: nat): Outcome
    decreases fuel, s, 0
  {
    match s
    case Let(name, e) =>
      (match EvalExpr(rt, e, w)
       case Yields(v, w1) => Normal(BindVar(w1, name, v))
       case r => Abort(r))
    case Print(e) =>
      (match EvalExpr(rt, e, w)
       case Yields(v, w1) => Normal(Emit(w1, v))
       case r => Abort(r))
    case Evaluate(e) =>
      (match EvalExpr(rt, e, w)
       case Yields(_, w1) => Normal(w1)
       case r => Abort(r))
    case Return(None) => Returned(Nil, w)
    case Return(Some(e)) =>
      (match EvalExpr(rt, e, w)
       case Yields(v, w1) => Returned(v, w1)
       case r => Abort(r))
    case Break => Broke(w)
    case Continue => Continued(w)
    case Block(body) => ExecAll(rt, body, w, fuel)
    case If(c, t, e) =>
      (match EvalExpr(rt, c, w)
       case Yields(v, w1) =>
         if Truthy(v) then Exec(rt, t, w1, fuel) else ExecOption(rt, e, w1, fuel)
       case r => Abort(r))
    case While(c, body) =>
      (match EvalExpr(rt, c, w)
       case Yields(v, w1) =>
         if !Truthy(v) then Normal(w1)
         else if fuel == 0 then OutOfFuel
         else
           (match Exec(rt, body, w1, fuel)
            case Normal(w2) => Exec(rt, s, w2, fuel - 1)
            case Continued(w2) => Exec(rt, s, w2, fuel - 1)
            case Broke(w2) => Normal(w2)
            case r => r)
       case r => Abort(r))
    case For(init, test, increment, body) =>
      (match ExecOption(rt, init, w, fuel)
       case Normal(w1) => ExecFor(rt, test, increment, body, w1, fuel)
       case r => r)
    case ForIn(item, iterable, body) =>
      // The iterable is evaluated once and its length is taken once, before the first iteration.
      (match EvalIterable(rt, item, iterable, w)
       case Yields((collection, length), w1) => ExecForIn(rt, item, collection, length, 0, body, w1, fuel)
       case r => Abort(r))
    case Match(e, arms) =>
      (match EvalExpr(rt, e, w)
       case Yields(v, w1) => ExecArms(rt, arms, v, w1, fuel)
       case r => Abort(r))
    case Function(name, f) =>
      (match Apply(rt, MakeClosure(f.functionLabel, f.parameters), [], BindVar(w, name, Nil))
       case Trap(m, w1) => Faulted(m, w1)
       case Done(v, w1) =>
         match UpdateVar(w1, name, v)
         case Trap(m, w2) => Faulted(m, w2)
         case Done(_, w2) => Normal(w2))
  }

  function ExecOption(rt: Runtime, s: Option<Stmt>, w: World, fuel: nat): Outcome
    decreases fuel, s, 0
  {
    match s
    case None => Normal(w)
    case Some(inner) => Exec(rt, inner, w, fuel)
  }

  function ExecAll(rt: Runtime, ss: List<Stmt>, w: World, fuel: nat): Outcome
    decreases fuel, ss, 0
  {
    match ss
    case Empty => Normal(w)
    case Cons(s, rest) =>
      match Exec(rt, s, w, fuel)
      case Normal(w1) => ExecAll(rt, rest, w1, fuel)
      case r => r
  }

  /** A `for` loop after its initializer; the increment runs after the body and after `continue`. */
  function ExecFor(rt: Runtime, test: Option<Expr>, increment: Option<Expr>, body: Stmt, w: World, fuel: nat): Outcome
    decreases fuel, body, 1
  {
    match EvalGuard(rt, test, w)
    case Yields(go, w1) =>
      if !go then Normal(w1)
      else if fuel == 0 then OutOfFuel
      else
        (match Exec(rt, body, w1, fuel)
         case Normal(w2) => ExecIncrement(rt, test, increment, body, w2, fuel - 1)
         case Continued(w2) => ExecIncrement(rt, test, increment, body, w2, fuel - 1)
         case Broke(w2) => Normal(w2)
         case r => r)
    case r => Abort(r)
  }

  function ExecIncrement(rt: Runtime, test: Option<Expr>, increment: Option<Expr>, body: Stmt, w: World, fuel: nat): Outcome
    decreases fuel, body, 2
  {
    match EvalGuard(rt, increment, w)  // run for its effects; its value is dropped
    case Yields(_, w1) => ExecFor(rt, test, increment, body, w1, fuel)
    case r => Abort(r)
  }

  function EvalIterable(rt: Runtime, item: string, iterable: Expr, w: World): Eval<(Value, nat)> {
    var (v, w1) :- EvalExpr(rt, iterable, w);
    var (collection, w2) :- FromEffect(Apply(rt, AssertArray, [v], w1));
    var w3 := BindVar(w2, item, Nil);
    match rt.length(w3.heap, collection)
    case None => Faults("len", w3)
    case Some(n) => Yields((collection, n), w3)
  }

  /** Iterations `i` onwards: elements are read from the live collection, the length is the snapshot. */
  function ExecForIn(
    rt: Runtime, item: string, collection: Value, length: nat, i: nat, body: Stmt, w: World, fuel: nat
  ): Outcome
    decreases fuel, body, 1
  {
    if i >= length then Normal(w)
    else if fuel == 0 then OutOfFuel
    else
      match rt.index(w.heap, collection, Number(i as real))
      case None => Faulted("index", w)
      case Some(v) =>
        match UpdateVar(w, item, v)
        case Trap(m, w1) => Faulted(m, w1)
        case Done(_, w1) =>
          match Exec(rt, body, w1, fuel)
          case Normal(w2) => ExecForIn(rt, item, collection, length, i + 1, body, w2, fuel - 1)
          case Continued(w2) => ExecForIn(rt, item, collection, length, i + 1, body, w2, fuel - 1)
          case Broke(w2) => Normal(w2)
          case r => r
  }

  function ExecArms(rt: Runtime, arms: List<StmtArm>, v: Value, w: World, fuel: nat): Outcome
    decreases fuel, arms, 0
  {
    match arms
    case Empty => Normal(w)
    case Cons(arm, rest) =>
      match TryArm(rt, arm.pattern, arm.guard, v, w)
      case Yields(taken, w1) =>
        if taken then Exec(rt, arm.body, w1, fuel) else ExecArms(rt, rest, v, w1, fuel)
      case r => Abort(r)
  }
}
