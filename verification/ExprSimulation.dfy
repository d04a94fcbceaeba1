/** Compiled expressions: the machine reaches the end of the code with the value
    in the result register, or traps with the same message and world, exactly as
    the reference evaluation says; earlier registers are preserved.
 */
module ExprSimulation {
  import opened Wrappers
  import opened Runtime
  import opened Ast
  import opened Semantics
  import opened IR
  import opened Lowering
  import opened FunctionTables
  import opened CodeEquations
  import opened Placement
  import opened PatternSimulation

  /** The machine agrees with an evaluation: at `end` with the value in `result`, or trapped alike. */
  predicate YieldsTo(r: Eval<Value>, m: State, m': State, base: Register, end: nat, result: Register)
    requires m.Running?
  {
    match r
    case Yields(v, w) => Lands(m, m', base, end, w) && result in m'.regs && m'.regs[result] == v
    case Faults(message, w) => m' == Trapped(message, w)
    case Unmatched => true
  }

  /** A guard falls through when it holds and goes to `fail` when it does not. */
  predicate GuardLands(r: Eval<bool>, m: State, m': State, base: Register, end: nat, fail: nat)
    requires m.Running?
  {
    match r
    case Yields(taken, w) => Lands(m, m', base, if taken then end else fail, w)
    case Faults(message, w) => m' == Trapped(message, w)
    case Unmatched => true
  }

  predicate Placed(p: Program, e: Expr, at: Place) {
    CodeAt(p, at.code, ExprCode(e, at)) && TableAt(p, at.fns, ExprFunctions(e, at))
  }

  /** An evaluation after a run that kept the registers below `base`. */
  lemma YieldsAfter(
    r: Eval<Value>, m: State, m1: State, m2: State, base: Register, base1: Register, end: nat, result: Register
  )
    requires m.Running? && m1.Running? && base <= base1
    requires Lands(m, m1, base, m1.pc, m1.world)
    requires YieldsTo(r, m1, m2, base1, end, result)
    ensures YieldsTo(r, m, m2, base, end, result)
  {
    hide Agree;
    match r
    case Yields(_, _) => LandsTrans(m, m1, m2, base, base1);
    case Faults(_, _) =>
    case Unmatched =>
  }

  /** A successful evaluation leaves the machine running, with the value in its register. */
  lemma YieldsRuns(r: Eval<Value>, m: State, m1: State, base: Register, end: nat, result: Register)
    requires m.Running? && YieldsTo(r, m, m1, base, end, result)
    ensures r.Yields? ==>
      && m1.Running? && m1.pc == end && m1.world == r.world
      && result in m1.regs && m1.regs[result] == r.value
      && Lands(m, m1, base, m1.pc, m1.world)
  {
  }

  /** A failed evaluation fails the enclosing one in the same way. */
  lemma YieldsAbort(
    r: Eval<Value>, m: State, m1: State, base: Register, end: nat, result: Register, outerEnd: nat, outerResult: Register
  )
    requires m.Running? && YieldsTo(r, m, m1, base, end, result) && !r.Yields?
    ensures YieldsTo(r, m, m1, base, outerEnd, outerResult)
  {
  }

  /** One primitive applied to registers that hold `vs`. */
  lemma ComputeYields(
    rt: Runtime, p: Program, m: State, dest: Register, prim: Prim, args: seq<Register>, vs: seq<Value>
  ) returns (m': State)
    requires m.Running? && m.pc < |p.code| && p.code[m.pc] == Compute(dest, prim, args)
    requires |args| == |vs| && forall i :: 0 <= i < |args| ==> args[i] in m.regs && m.regs[args[i]] == vs[i]
    ensures Runs(rt, p, m, 1, m')
    ensures YieldsTo(FromEffect(Apply(rt, prim, vs, m.world)), m, m', dest, m.pc + 1, dest)
  {
    hide Apply, Runs;
    DoCompute(rt, p, m, dest, prim, args, vs);
    m' := Finish(m, dest, Apply(rt, prim, vs, m.world));
  }

  lemma LoadYields(rt: Runtime, p: Program, m: State, dest: Register, name: string) returns (m': State)
    requires m.Running? && m.pc < |p.code| && p.code[m.pc] == LoadVar(dest, User(name))
    ensures Runs(rt, p, m, 1, m')
    ensures YieldsTo(FromEffect(ReadVar(m.world, name)), m, m', dest, m.pc + 1, dest)
  {
    hide Runs;
    DoLoad(rt, p, m, dest, User(name));
    m' := Finish(m, dest, LoadVariable(m, User(name)));
  }

  lemma AssignYields(rt: Runtime, p: Program, m: State, source: Register, name: string, base: Register) returns (m': State)
    requires m.Running? && m.pc < |p.code| && p.code[m.pc] == AssignVar(User(name), source) && source in m.regs
    ensures Runs(rt, p, m, 1, m')
    ensures YieldsTo(FromEffect(UpdateVar(m.world, name, m.regs[source])), m, m', base, m.pc + 1, source)
  {
    hide Runs;
    DoAssign(rt, p, m, User(name), source);
    m' := Assigned(m, User(name), m.regs[source]);
  }

  // ------------------------------------------------------------------ expressions

  lemma GroupingTransparent(rt: Runtime, p: Program, e: Expr, at: Place, w: World)
    requires e.Grouping?
    ensures ExprOk(e) == ExprOk(e.inner) && Placed(p, e, at) == Placed(p, e.inner, at)
    ensures EvalExpr(rt, e, w) == EvalExpr(rt, e.inner, w)
    ensures ExprEnd(e, at) == ExprEnd(e.inner, at) && ResultOf(e, at) == ResultOf(e.inner, at)
  {
  }

  lemma {:induction false} SimExpr(rt: Runtime, p: Program, e: Expr, at: Place, m: State) returns (n: nat, m': State)
    requires m.Running? && m.pc == at.code && ExprOk(e) && Placed(p, e, at)
    ensures Runs(rt, p, m, n, m')
    ensures YieldsTo(EvalExpr(rt, e, m.world), m, m', at.regs, ExprEnd(e, at).code, ResultOf(e, at))
    decreases e, 1
  {
    hide *;
    match e
    case Literal(_) => n, m' := SimLiteral(rt, p, e, at, m);
    case Variable(_) => n, m' := SimVariable(rt, p, e, at, m);
    case Assign(_, _) => n, m' := SimAssign(rt, p, e, at, m);
    case CompoundAssign(_, _, _) => n, m' := SimVariableCompound(rt, p, e, at, m);
    case IndexCompoundAssign(_, _, _, _) => n, m' := SimIndexCompound(rt, p, e, at, m);
    case FieldCompoundAssign(_, _, _, _) => n, m' := SimFieldCompound(rt, p, e, at, m);
    case Grouping(inner) =>
      GroupingTransparent(rt, p, e, at, m.world);
      n, m' := SimExpr(rt, p, inner, at, m);
    case Operation(_, _) => n, m' := SimOperation(rt, p, e, at, m);
    case Logical(_, _, _) => n, m' := SimLogical(rt, p, e, at, m);
    case MatchExpr(_, _) => n, m' := SimMatchExpr(rt, p, e, at, m);
    case Lambda(_) => n, m' := SimLambda(rt, p, e, at, m);
  }

  lemma SimLiteral(rt: Runtime, p: Program, e: Expr, at: Place, m: State) returns (n: nat, m': State)
    requires e.Literal? && m.Running? && m.pc == at.code && Placed(p, e, at)
    ensures Runs(rt, p, m, n, m')
    ensures YieldsTo(EvalExpr(rt, e, m.world), m, m', at.regs, ExprEnd(e, at).code, ResultOf(e, at))
  {
    hide Runs, Apply;
    InstrAt(p, at.code, ExprCode(e, at), 0);
    m' := ComputeYields(rt, p, m, at.regs, Constant(e.constant), [], []);
    ApplyConstant(rt, e.constant, m.world);
    n := 1;
  }

  lemma SimVariable(rt: Runtime, p: Program, e: Expr, at: Place, m: State) returns (n: nat, m': State)
    requires e.Variable? && m.Running? && m.pc == at.code && Placed(p, e, at)
    ensures Runs(rt, p, m, n, m')
    ensures YieldsTo(EvalExpr(rt, e, m.world), m, m', at.regs, ExprEnd(e, at).code, ResultOf(e, at))
  {
    hide Runs, Apply;
    InstrAt(p, at.code, ExprCode(e, at), 0);
    m' := LoadYields(rt, p, m, at.regs, e.name);
    n := 1;
  }

  lemma SimLambda(rt: Runtime, p: Program, e: Expr, at: Place, m: State) returns (n: nat, m': State)
    requires e.Lambda? && m.Running? && m.pc == at.code && Placed(p, e, at)
    ensures Runs(rt, p, m, n, m')
    ensures YieldsTo(EvalExpr(rt, e, m.world), m, m', at.regs, ExprEnd(e, at).code, ResultOf(e, at))
  {
    hide Runs, Apply;
    InstrAt(p, at.code, ExprCode(e, at), 0);
    FunctionEntry(p, e.def, Skip(at, 1, 1));
    var index := StmtsEnd(e.def.body, Inner(at)).fns;
    DoMakeFunction(rt, p, m, at.regs, index);
    n, m' := 1, Finish(m, at.regs, Apply(rt, MakeClosure(e.def.functionLabel, e.def.parameters), [], m.world));
  }

  /** The table entry a closure refers to is the closure's own function. */
  lemma FunctionEntry(p: Program, f: FunctionDef, at: Place)
    requires TableAt(p, at.fns, FunctionTable(f, at))
    ensures
      var index := StmtsEnd(f.body, Inner(at)).fns;
      && index < |p.functions|
      && p.functions[index].functionLabel == f.functionLabel
      && p.functions[index].parameters == f.parameters
  {
    hide StmtsFunctions, StmtsEnd, BodyCode;
    var table := FunctionTable(f, at);
    var last := |table| - 1;
    TableEntry(p, at.fns, table, last);
    assert at.fns + last == StmtsEnd(f.body, Inner(at)).fns;
  }

  lemma AssignPlaced(p: Program, e: Expr, at: Place)
    requires e.Assign? && Placed(p, e, at)
    ensures Placed(p, e.value, at)
    ensures
      var pc := ExprEnd(e.value, at).code;
      pc < |p.code| && p.code[pc] == AssignVar(User(e.name), ResultOf(e.value, at))
  {
    var last := [AssignVar(User(e.name), ResultOf(e.value, at))];
    CodeSplit(p, at.code, ExprCode(e.value, at), last);
    InstrAt(p, ExprEnd(e.value, at).code, last, 0);
  }

  lemma {:induction false} SimAssign(rt: Runtime, p: Program, e: Expr, at: Place, m: State) returns (n: nat, m': State)
    requires e.Assign? && m.Running? && m.pc == at.code && ExprOk(e) && Placed(p, e, at)
    ensures Runs(rt, p, m, n, m')
    ensures YieldsTo(EvalExpr(rt, e, m.world), m, m', at.regs, ExprEnd(e, at).code, ResultOf(e, at))
    decreases e, 0
  {
    hide Runs, Apply, Agree, Placed, ExprCode, ExprFunctions;
    AssignPlaced(p, e, at);
    n, m' := SimExpr(rt, p, e.value, at, m);
    var r := EvalExpr(rt, e.value, m.world);
    if r.Yields? {
      var m2 := AssignYields(rt, p, m', ResultOf(e, at), e.name, at.regs);
      RunsThen(rt, p, m, n, m', 1, m2);
      YieldsAfter(FromEffect(UpdateVar(r.world, e.name, r.value)), m, m', m2, at.regs, at.regs,
                  m'.pc + 1, ResultOf(e, at));
      n, m' := n + 1, m2;
    }
  }

  // ------------------------------------------------------------ compound assignment

  lemma CompoundPlaced(p: Program, op: ArithmeticOp, role: string, old': Register, value: Expr, at: Place)
    requires CodeAt(p, at.code, CompoundCode(op, role, old', value, at))
    ensures
      var at1 := Skip(at, 1, 1);
      var end := ExprEnd(value, at1);
      && at.code < |p.code|
      && p.code[at.code] == Compute(at.regs, AssertNumber(CompoundMessage(op, role)), [old'])
      && CodeAt(p, at1.code, ExprCode(value, at1))
      && end.code + 1 < |p.code|
      && p.code[end.code]
         == Compute(end.regs, AssertNumber(CompoundMessage(op, "value")), [ResultOf(value, at1)])
      && p.code[end.code + 1] == Compute(end.regs + 1, Arithmetic(op), [at.regs, end.regs])
  {
    hide *;
    var at1 := Skip(at, 1, 1);
    var end := ExprEnd(value, at1);
    var first := [Compute(at.regs, AssertNumber(CompoundMessage(op, role)), [old'])];
    var last := [Compute(end.regs, AssertNumber(CompoundMessage(op, "value")), [ResultOf(value, at1)]),
                 Compute(end.regs + 1, Arithmetic(op), [at.regs, end.regs])];
    CompoundParts(op, role, old', value, at);
    CodeSplit(p, at.code, first + ExprCode(value, at1), last);
    CodeSplit(p, at.code, first, ExprCode(value, at1));
    InstrAt(p, at.code, first, 0);
    InstrAt(p, end.code, last, 0);
    InstrAt(p, end.code, last, 1);
  }

  lemma {:induction false} SimCompound(
    rt: Runtime, p: Program, op: ArithmeticOp, role: string, old': Register, value: Expr, at: Place, m: State
  ) returns (n: nat, m': State)
    requires m.Running? && m.pc == at.code && ExprOk(value) && old' < at.regs && old' in m.regs
    requires CodeAt(p, at.code, CompoundCode(op, role, old', value, at))
    requires TableAt(p, at.fns, ExprFunctions(value, Skip(at, 1, 1)))
    ensures Runs(rt, p, m, n, m')
    ensures YieldsTo(EvalCompound(rt, op, role, m.regs[old'], value, m.world), m, m',
                     at.regs, CompoundEnd(value, at).code, CompoundEnd(value, at).regs - 1)
    decreases value, 3
  {
    hide *;
    var at1, end := Skip(at, 1, 1), CompoundEnd(value, at);
    var prim := AssertNumber(CompoundMessage(op, role));
    SkipPlaces(at);
    CompoundPlaced(p, op, role, old', value, at);
    PlacedHere(p, value, at1);
    CompoundStep(rt, op, role, m.regs[old'], value, m.world);
    var m1 := ComputeYields(rt, p, m, at.regs, prim, [old'], [m.regs[old']]);
    n, m' := 1, m1;
    var r0 := FromEffect(Apply(rt, prim, [m.regs[old']], m.world));
    YieldsRuns(r0, m, m1, at.regs, at1.code, at.regs);
    if r0.Yields? {
      var n2, m2 := SimCompoundRest(rt, p, op, r0.value, value, at, m1);
      RunsThen(rt, p, m, 1, m1, n2, m2);
      n, m' := 1 + n2, m2;
      YieldsAfter(CompoundRest(rt, op, r0.value, value, r0.world), m, m1, m2, at.regs, at1.regs, end.code, end.regs - 1);
    } else {
      YieldsAbort(r0, m, m1, at.regs, at1.code, at.regs, end.code, end.regs - 1);
    }
  }

  lemma CompoundStep(rt: Runtime, op: ArithmeticOp, role: string, old': Value, value: Expr, w: World)
    ensures EvalCompound(rt, op, role, old', value, w)
         == var r := FromEffect(Apply(rt, AssertNumber(CompoundMessage(op, role)), [old'], w));
            if r.Yields? then CompoundRest(rt, op, r.value, value, r.world) else r
  {
    hide EvalExpr, Apply, FromEffect, CompoundMessage;
  }

  /** `EvalCompound` after the old value has been checked. */
  function CompoundRest(rt: Runtime, op: ArithmeticOp, checkedOld: Value, value: Expr, w: World): Eval<Value> {
    var (v, w2) :- EvalExpr(rt, value, w);
    var (checkedValue, w3) :- FromEffect(Apply(rt, AssertNumber(CompoundMessage(op, "value")), [v], w2));
    FromEffect(Apply(rt, Arithmetic(op), [checkedOld, checkedValue], w3))
  }

  lemma {:induction false} SimCompoundRest(
    rt: Runtime, p: Program, op: ArithmeticOp, checkedOld: Value, value: Expr, at: Place, m: State
  ) returns (n: nat, m': State)
    requires m.Running? && m.pc == at.code + 1 && ExprOk(value)
    requires at.regs in m.regs && m.regs[at.regs] == checkedOld
    requires Placed(p, value, Skip(at, 1, 1))
    requires
      var at1 := Skip(at, 1, 1);
      var end := ExprEnd(value, at1);
      && end.code + 1 < |p.code|
      && p.code[end.code]
         == Compute(end.regs, AssertNumber(CompoundMessage(op, "value")), [ResultOf(value, at1)])
      && p.code[end.code + 1] == Compute(end.regs + 1, Arithmetic(op), [at.regs, end.regs])
    ensures Runs(rt, p, m, n, m')
    ensures YieldsTo(CompoundRest(rt, op, checkedOld, value, m.world), m, m',
                     at.regs + 1, CompoundEnd(value, at).code, CompoundEnd(value, at).regs - 1)
    decreases value, 2
  {
    hide Runs, Apply, Agree, Placed, CompoundMessage, EvalExpr, ExprOk, ResultOf, ExprEnd, ExprCode, ExprFunctions;
    var at1 := Skip(at, 1, 1);
    var end := ExprEnd(value, at1);
    var n1, m1 := SimExpr(rt, p, value, at1, m);
    n, m' := n1, m1;
    var r := EvalExpr(rt, value, m.world);
    if r.Yields? {
      LandsKeeps(m, m1, at1.regs, at.regs);
      var prim := AssertNumber(CompoundMessage(op, "value"));
      var m2 := ComputeYields(rt, p, m1, end.regs, prim, [ResultOf(value, at1)], [r.value]);
      RunsThen(rt, p, m, n1, m1, 1, m2);
      YieldsAfter(FromEffect(Apply(rt, prim, [r.value], r.world)), m, m1, m2, at1.regs, end.regs, end.code + 1, end.regs);
      n, m' := n1 + 1, m2;
      if m2.Running? {
        LandsKeeps(m, m2, at1.regs, at.regs);
        var m3 := ComputeYields(rt, p, m2, end.regs + 1, Arithmetic(op), [at.regs, end.regs], [checkedOld, m2.regs[end.regs]]);
        RunsThen(rt, p, m, n1 + 1, m2, 1, m3);
        YieldsAfter(FromEffect(Apply(rt, Arithmetic(op), [checkedOld, m2.regs[end.regs]], m2.world)), m, m2, m3,
                    at1.regs, end.regs + 1, end.code + 2, end.regs + 1);
        n, m' := n1 + 2, m3;
      }
    }
  }

  lemma VariableCompoundPlaced(p: Program, e: Expr, at: Place)
    requires e.CompoundAssign? && Placed(p, e, at)
    ensures
      var at1 := Skip(at, 1, 1);
      var end := CompoundEnd(e.value, at1);
      && at.code < |p.code| && p.code[at.code] == LoadVar(at.regs, User(e.name))
      && CodeAt(p, at1.code, CompoundCode(e.op, "variable", at.regs, e.value, at1))
      && TableAt(p, at.fns, ExprFunctions(e.value, Skip(at1, 1, 1)))
      && end.code < |p.code| && p.code[end.code] == AssignVar(User(e.name), ResultOf(e, at))
  {
    hide *;
    var at1 := Skip(at, 1, 1);
    var code := CompoundCode(e.op, "variable", at.regs, e.value, at1);
    var first, last := [LoadVar(at.regs, User(e.name))], [AssignVar(User(e.name), ResultOf(e, at))];
    PlacedHere(p, e, at);
    VariableCompoundParts(e, at);
    CodeSplit(p, at.code, first + code, last);
    CodeSplit(p, at.code, first, code);
    InstrAt(p, at.code, first, 0);
    InstrAt(p, CompoundEnd(e.value, at1).code, last, 0);
  }

  lemma {:induction false} SimVariableCompound(rt: Runtime, p: Program, e: Expr, at: Place, m: State)
    returns (n: nat, m': State)
    requires e.CompoundAssign? && m.Running? && m.pc == at.code && ExprOk(e) && Placed(p, e, at)
    ensures Runs(rt, p, m, n, m')
    ensures YieldsTo(EvalExpr(rt, e, m.world), m, m', at.regs, ExprEnd(e, at).code, ResultOf(e, at))
    decreases e, 0
  {
    hide Runs, Apply, Agree, Placed, ExprCode, ExprFunctions, TableAt, CodeAt, CompoundCode, CompoundEnd, EvalCompound;
    VariableCompoundPlaced(p, e, at);
    var at1 := Skip(at, 1, 1);
    var end := CompoundEnd(e.value, at1);
    var m1 := LoadYields(rt, p, m, at.regs, e.name);
    n, m' := 1, m1;
    if m1.Running? {
      var n2, m2 := SimCompound(rt, p, e.op, "variable", at.regs, e.value, at1, m1);
      RunsThen(rt, p, m, 1, m1, n2, m2);
      var r := EvalCompound(rt, e.op, "variable", m1.regs[at.regs], e.value, m1.world);
      YieldsAfter(r, m, m1, m2, at.regs, at1.regs, end.code, end.regs - 1);
      n, m' := 1 + n2, m2;
      if r.Yields? {
        var m3 := AssignYields(rt, p, m2, end.regs - 1, e.name, at.regs);
        RunsThen(rt, p, m, 1 + n2, m2, 1, m3);
        YieldsAfter(FromEffect(UpdateVar(r.world, e.name, r.value)), m, m2, m3, at.regs, at.regs, end.code + 1, end.regs - 1);
        n, m' := n2 + 2, m3;
      }
    }
  }

  lemma PlacedHere(p: Program, e: Expr, at: Place)
    ensures Placed(p, e, at) <==> CodeAt(p, at.code, ExprCode(e, at)) && TableAt(p, at.fns, ExprFunctions(e, at))
  {
  }

  lemma IndexCompoundTables(p: Program, e: Expr, at: Place)
    requires e.IndexCompoundAssign? && TableAt(p, at.fns, ExprFunctions(e, at))
    ensures
      var at1 := ExprEnd(e.collection, at);
      var at2 := ExprEnd(e.index, at1);
      var at3 := Skip(at2, 1, 1);
      && TableAt(p, at.fns, ExprFunctions(e.collection, at))
      && TableAt(p, at1.fns, ExprFunctions(e.index, at1))
      && TableAt(p, at3.fns, ExprFunctions(e.value, Skip(at3, 1, 1)))
  {
    hide *;
    var at1 := ExprEnd(e.collection, at);
    var at3 := Skip(ExprEnd(e.index, at1), 1, 1);
    var t1, t2, t3 := ExprFunctions(e.collection, at), ExprFunctions(e.index, at1), ExprFunctions(e.value, Skip(at3, 1, 1));
    IndexCompoundParts(e, at);
    TableSplit(p, at.fns, t1 + t2, t3);
    TableSplit(p, at.fns, t1, t2);
  }

  lemma IndexCompoundPlaced(p: Program, e: Expr, at: Place)
    requires e.IndexCompoundAssign? && Placed(p, e, at)
    ensures
      var at1 := ExprEnd(e.collection, at);
      var at2 := ExprEnd(e.index, at1);
      var at3 := Skip(at2, 1, 1);
      var c, i, result := ResultOf(e.collection, at), ResultOf(e.index, at1), ResultOf(e, at);
      var end := CompoundEnd(e.value, at3);
      && Placed(p, e.collection, at)
      && Placed(p, e.index, at1)
      && at2.code < |p.code| && p.code[at2.code] == Compute(at2.regs, Index, [c, i])
      && CodeAt(p, at3.code, CompoundCode(e.op, "target", at2.regs, e.value, at3))
      && TableAt(p, at3.fns, ExprFunctions(e.value, Skip(at3, 1, 1)))
      && end.code < |p.code| && p.code[end.code] == Compute(result + 1, AssignIndex, [c, i, result])
  {
    hide *;
    var at1 := ExprEnd(e.collection, at);
    var at2 := ExprEnd(e.index, at1);
    var at3 := Skip(at2, 1, 1);
    var c, i, result := ResultOf(e.collection, at), ResultOf(e.index, at1), ResultOf(e, at);
    var access := [Compute(at2.regs, Index, [c, i])];
    var code := CompoundCode(e.op, "target", at2.regs, e.value, at3);
    var last := [Compute(result + 1, AssignIndex, [c, i, result])];
    PlacedHere(p, e, at);
    IndexCompoundParts(e, at);
    CodeSplit(p, at.code, ExprCode(e.collection, at) + ExprCode(e.index, at1) + access + code, last);
    CodeSplit(p, at.code, ExprCode(e.collection, at) + ExprCode(e.index, at1) + access, code);
    CodeSplit(p, at.code, ExprCode(e.collection, at) + ExprCode(e.index, at1), access);
    CodeSplit(p, at.code, ExprCode(e.collection, at), ExprCode(e.index, at1));
    InstrAt(p, at2.code, access, 0);
    InstrAt(p, CompoundEnd(e.value, at3).code, last, 0);
    IndexCompoundTables(p, e, at);
    PlacedHere(p, e.collection, at);
    PlacedHere(p, e.index, at1);
  }

  /** An access, a compound update of its value, and the store back: `EvalExpr` after the operands. */
  function AccessUpdate(
    rt: Runtime, op: ArithmeticOp, read: Prim, write: Prim, operands: seq<Value>, value: Expr, w: World
  ): Eval<Value> {
    var (old', w3) :- FromEffect(Apply(rt, read, operands, w));
    var (v, w4) :- EvalCompound(rt, op, "target", old', value, w3);
    var (_, w5) :- FromEffect(Apply(rt, write, operands + [v], w4));
    Yields(v, w5)
  }

  function WithLast(args: seq<Register>, last: Register): seq<Register> {
    args + [last]
  }

  lemma OperandsKept(
    m: State, m2: State, base: Register, args: seq<Register>, vs: seq<Value>, last: Register, v: Value
  )
    requires m.Running? && m2.Running? && Lands(m, m2, base, m2.pc, m2.world) && |args| == |vs|
    requires forall i :: 0 <= i < |args| ==> args[i] < base && args[i] in m.regs && m.regs[args[i]] == vs[i]
    requires last in m2.regs && m2.regs[last] == v
    ensures
      var stored := WithLast(args, last);
      && |stored| == |vs + [v]|
      && forall i :: 0 <= i < |stored| ==> stored[i] in m2.regs && m2.regs[stored[i]] == (vs + [v])[i]
  {
  }

  /** The access at `at`, with the operand values in the registers `args`. */
  lemma {:induction false} SimAccessUpdate(
    rt: Runtime, p: Program, op: ArithmeticOp, read: Prim, write: Prim, args: seq<Register>, vs: seq<Value>,
    value: Expr, at: Place, m: State
  ) returns (n: nat, m': State)
    requires m.Running? && m.pc == at.code && ExprOk(value)
    requires |args| == |vs|
    requires forall i :: 0 <= i < |args| ==> args[i] < at.regs && args[i] in m.regs && m.regs[args[i]] == vs[i]
    requires
      var at3 := Skip(at, 1, 1);
      var end := CompoundEnd(value, at3);
      && at.code < |p.code| && p.code[at.code] == Compute(at.regs, read, args)
      && CodeAt(p, at3.code, CompoundCode(op, "target", at.regs, value, at3))
      && TableAt(p, at3.fns, ExprFunctions(value, Skip(at3, 1, 1)))
      && end.code < |p.code| && p.code[end.code] == Compute(end.regs, write, WithLast(args, end.regs - 1))
    ensures Runs(rt, p, m, n, m')
    ensures
      var end := CompoundEnd(value, Skip(at, 1, 1));
      YieldsTo(AccessUpdate(rt, op, read, write, vs, value, m.world), m, m', at.regs, end.code + 1, end.regs - 1)
    decreases value, 4
  {
    hide *;
    var at3 := Skip(at, 1, 1);
    var end := CompoundEnd(value, at3);
    SkipPlaces(at);
    AccessStep(rt, op, read, write, vs, value, m.world);
    var m1 := ComputeYields(rt, p, m, at.regs, read, args, vs);
    n, m' := 1, m1;
    var r0 := FromEffect(Apply(rt, read, vs, m.world));
    YieldsRuns(r0, m, m1, at.regs, at3.code, at.regs);
    if r0.Yields? {
      var n2, m2 := SimCompound(rt, p, op, "target", at.regs, value, at3, m1);
      RunsThen(rt, p, m, 1, m1, n2, m2);
      n, m' := 1 + n2, m2;
      var r := EvalCompound(rt, op, "target", r0.value, value, r0.world);
      YieldsAfter(r, m, m1, m2, at.regs, at3.regs, end.code, end.regs - 1);
      YieldsRuns(r, m, m2, at.regs, end.code, end.regs - 1);
      if r.Yields? {
        var stored := WithLast(args, end.regs - 1);
        OperandsKept(m, m2, at.regs, args, vs, end.regs - 1, r.value);
        var m3 := ComputeYields(rt, p, m2, end.regs, write, stored, vs + [r.value]);
        RunsThen(rt, p, m, 1 + n2, m2, 1, m3);
        n, m' := n2 + 2, m3;
        StoreBack(FromEffect(Apply(rt, write, vs + [r.value], m2.world)), m, m2, m3, at.regs, end, r.value);
      } else {
        YieldsAbort(r, m, m2, at.regs, end.code, end.regs - 1, end.code + 1, end.regs - 1);
      }
    } else {
      YieldsAbort(r0, m, m1, at.regs, at3.code, at.regs, end.code + 1, end.regs - 1);
    }
  }

  lemma SkipPlaces(at: Place)
    ensures
      var at1 := Skip(at, 1, 1);
      at1.code == at.code + 1 && at1.regs == at.regs + 1 && at1.fns == at.fns
  {
  }

  lemma AccessStep(
    rt: Runtime, op: ArithmeticOp, read: Prim, write: Prim, vs: seq<Value>, value: Expr, w: World
  )
    ensures AccessUpdate(rt, op, read, write, vs, value, w)
         == var r0 := FromEffect(Apply(rt, read, vs, w));
            if !r0.Yields? then r0
            else
              var r := EvalCompound(rt, op, "target", r0.value, value, r0.world);
              if r.Yields? then WithValue(FromEffect(Apply(rt, write, vs + [r.value], r.world)), r.value) else r
  {
    hide EvalCompound, Apply, FromEffect;
  }

  function WithValue(r: Eval<Value>, v: Value): Eval<Value> {
    match r
    case Yields(_, w) => Yields(v, w)
    case _ => r
  }

  /** The store's own result is dropped; the updated value stays in the register before it. */
  lemma StoreBack(r: Eval<Value>, m: State, m2: State, m3: State, base: Register, end: Place, v: Value)
    requires m.Running? && m2.Running? && base < end.regs
    requires Lands(m, m2, base, m2.pc, m2.world)
    requires end.regs - 1 in m2.regs && m2.regs[end.regs - 1] == v
    requires YieldsTo(r, m2, m3, end.regs, end.code + 1, end.regs)
    ensures YieldsTo(WithValue(r, v), m, m3, base, end.code + 1, end.regs - 1)
  {
    hide Agree;
    match r
    case Yields(_, _) =>
      LandsTrans(m, m2, m3, base, end.regs);
      LandsKeeps(m2, m3, end.regs, end.regs - 1);
    case Faults(_, _) =>
    case Unmatched =>
  }

  lemma IndexCompoundMeans(rt: Runtime, e: Expr, w: World)
    requires e.IndexCompoundAssign?
    ensures
      var r1 := EvalExpr(rt, e.collection, w);
      EvalExpr(rt, e, w)
      == if !r1.Yields? then r1
         else
           var r2 := EvalExpr(rt, e.index, r1.world);
           if !r2.Yields? then r2
           else AccessUpdate(rt, e.op, Index, AssignIndex, [r1.value, r2.value], e.value, r2.world)
  {
    hide Apply, EvalCompound;
    var r1 := EvalExpr(rt, e.collection, w);
    if r1.Yields? {
      var r2 := EvalExpr(rt, e.index, r1.world);
      if r2.Yields? {
        assert forall v: Value :: [r1.value, r2.value] + [v] == [r1.value, r2.value, v];
      }
    }
  }

  lemma {:induction false} SimIndexCompound(rt: Runtime, p: Program, e: Expr, at: Place, m: State)
    returns (n: nat, m': State)
    requires e.IndexCompoundAssign? && m.Running? && m.pc == at.code && ExprOk(e) && Placed(p, e, at)
    ensures Runs(rt, p, m, n, m')
    ensures YieldsTo(EvalExpr(rt, e, m.world), m, m', at.regs, ExprEnd(e, at).code, ResultOf(e, at))
    decreases e, 0
  {
    hide Runs, Apply, Agree, Placed, ExprCode, ExprFunctions, TableAt, CodeAt, CompoundCode, CompoundEnd, EvalCompound;
    hide EvalExpr, AccessUpdate;
    IndexCompoundMeans(rt, e, m.world);
    IndexCompoundPlaced(p, e, at);
    var at1 := ExprEnd(e.collection, at);
    var at2 := ExprEnd(e.index, at1);
    var c, i := ResultOf(e.collection, at), ResultOf(e.index, at1);
    var n1, m1 := SimExpr(rt, p, e.collection, at, m);
    n, m' := n1, m1;
    var r1 := EvalExpr(rt, e.collection, m.world);
    if r1.Yields? {
      var n2, m2 := SimExpr(rt, p, e.index, at1, m1);
      RunsThen(rt, p, m, n1, m1, n2, m2);
      n, m' := n1 + n2, m2;
      var r2 := EvalExpr(rt, e.index, r1.world);
      YieldsAfter(r2, m, m1, m2, at.regs, at1.regs, at2.code, i);
      if r2.Yields? {
        LandsKeeps(m1, m2, at1.regs, c);
        var n3, m3 := SimAccessUpdate(rt, p, e.op, Index, AssignIndex, [c, i], [r1.value, r2.value], e.value, at2, m2);
        RunsThen(rt, p, m, n1 + n2, m2, n3, m3);
        n, m' := n1 + n2 + n3, m3;
        var end := CompoundEnd(e.value, Skip(at2, 1, 1));
        YieldsAfter(AccessUpdate(rt, e.op, Index, AssignIndex, [r1.value, r2.value], e.value, r2.world),
                    m, m2, m3, at.regs, at2.regs, end.code + 1, end.regs - 1);
      }
    }
  }

  lemma FieldCompoundPlaced(p: Program, e: Expr, at: Place)
    requires e.FieldCompoundAssign? && Placed(p, e, at)
    ensures
      var at1 := ExprEnd(e.target, at);
      var at3 := Skip(at1, 1, 1);
      var o, result := ResultOf(e.target, at), ResultOf(e, at);
      var end := CompoundEnd(e.value, at3);
      && Placed(p, e.target, at)
      && at1.code < |p.code| && p.code[at1.code] == Compute(at1.regs, Field(e.field), [o])
      && CodeAt(p, at3.code, CompoundCode(e.op, "target", at1.regs, e.value, at3))
      && TableAt(p, at3.fns, ExprFunctions(e.value, Skip(at3, 1, 1)))
      && end.code < |p.code| && p.code[end.code] == Compute(result + 1, AssignField(e.field), [o, result])
  {
    hide *;
    var at1 := ExprEnd(e.target, at);
    var at3 := Skip(at1, 1, 1);
    var o, result := ResultOf(e.target, at), ResultOf(e, at);
    var access := [Compute(at1.regs, Field(e.field), [o])];
    var code := CompoundCode(e.op, "target", at1.regs, e.value, at3);
    var last := [Compute(result + 1, AssignField(e.field), [o, result])];
    PlacedHere(p, e, at);
    FieldCompoundParts(e, at);
    CodeSplit(p, at.code, ExprCode(e.target, at) + access + code, last);
    CodeSplit(p, at.code, ExprCode(e.target, at) + access, code);
    CodeSplit(p, at.code, ExprCode(e.target, at), access);
    InstrAt(p, at1.code, access, 0);
    InstrAt(p, CompoundEnd(e.value, at3).code, last, 0);
    TableSplit(p, at.fns, ExprFunctions(e.target, at), ExprFunctions(e.value, Skip(at3, 1, 1)));
    PlacedHere(p, e.target, at);
  }

  lemma {:induction false} SimFieldCompound(rt: Runtime, p: Program, e: Expr, at: Place, m: State)
    returns (n: nat, m': State)
    requires e.FieldCompoundAssign? && m.Running? && m.pc == at.code && ExprOk(e) && Placed(p, e, at)
    ensures Runs(rt, p, m, n, m')
    ensures YieldsTo(EvalExpr(rt, e, m.world), m, m', at.regs, ExprEnd(e, at).code, ResultOf(e, at))
    decreases e, 0
  {
    hide Runs, Apply, Agree, Placed, ExprCode, ExprFunctions, TableAt, CodeAt, CompoundCode, CompoundEnd, EvalCompound;
    FieldCompoundPlaced(p, e, at);
    var at1 := ExprEnd(e.target, at);
    var o := ResultOf(e.target, at);
    var n1, m1 := SimExpr(rt, p, e.target, at, m);
    n, m' := n1, m1;
    var r1 := EvalExpr(rt, e.target, m.world);
    if r1.Yields? {
      var n3, m3 := SimAccessUpdate(rt, p, e.op, Field(e.field), AssignField(e.field), [o], [r1.value], e.value, at1, m1);
      RunsThen(rt, p, m, n1, m1, n3, m3);
      n, m' := n1 + n3, m3;
      var end := CompoundEnd(e.value, Skip(at1, 1, 1));
      YieldsAfter(AccessUpdate(rt, e.op, Field(e.field), AssignField(e.field), [r1.value], e.value, r1.world),
                  m, m1, m3, at.regs, at1.regs, end.code + 1, end.regs - 1);
      assert forall v: Value :: [r1.value] + [v] == [r1.value, v];
    }
  }

  // ------------------------------------------------------------ operations and logic

  lemma OperationPlaced(p: Program, e: Expr, at: Place)
    requires e.Operation? && Placed(p, e, at)
    ensures CodeAt(p, at.code, OperandsCode(e.operands, at)) && TableAt(p, at.fns, OperandsFunctions(e.operands, at))
    ensures
      var end := OperandsEnd(e.operands, at);
      end.code < |p.code| && p.code[end.code] == Compute(end.regs, e.prim, ResultsOf(e.operands, at))
  {
    hide *;
    var end := OperandsEnd(e.operands, at);
    var last := [Compute(end.regs, e.prim, ResultsOf(e.operands, at))];
    PlacedHere(p, e, at);
    OperationParts(e, at);
    CodeSplit(p, at.code, OperandsCode(e.operands, at), last);
    InstrAt(p, end.code, last, 0);
  }

  lemma {:induction false} SimOperation(rt: Runtime, p: Program, e: Expr, at: Place, m: State)
    returns (n: nat, m': State)
    requires e.Operation? && m.Running? && m.pc == at.code && ExprOk(e) && Placed(p, e, at)
    ensures Runs(rt, p, m, n, m')
    ensures YieldsTo(EvalExpr(rt, e, m.world), m, m', at.regs, ExprEnd(e, at).code, ResultOf(e, at))
    decreases e, 0
  {
    hide Runs, Apply, Agree, Placed, ExprCode, ExprFunctions, TableAt, CodeAt, OperandsCode, OperandsFunctions;
    OperationPlaced(p, e, at);
    var end := OperandsEnd(e.operands, at);
    n, m' := SimOperands(rt, p, e.operands, at, m);
    var r := EvalOperands(rt, e.operands, m.world);
    if r.Yields? {
      var m2 := ComputeYields(rt, p, m', end.regs, e.prim, ResultsOf(e.operands, at), r.value);
      RunsThen(rt, p, m, n, m', 1, m2);
      YieldsAfter(FromEffect(Apply(rt, e.prim, r.value, r.world)), m, m', m2, at.regs, end.regs, end.code + 1, end.regs);
      n, m' := n + 1, m2;
    }
  }

  /** All operand values sit in their result registers. */
  predicate OperandsLand(
    r: Eval<seq<Value>>, m: State, m': State, base: Register, end: nat, results: seq<Register>
  )
    requires m.Running?
  {
    match r
    case Yields(vs, w) =>
      && Lands(m, m', base, end, w)
      && |results| == |vs|
      && forall i :: 0 <= i < |results| ==> results[i] in m'.regs && m'.regs[results[i]] == vs[i]
    case Faults(message, w) => m' == Trapped(message, w)
    case Unmatched => true
  }

  lemma OperandsPlaced(p: Program, es: List<Expr>, at: Place)
    requires es.Cons? && CodeAt(p, at.code, OperandsCode(es, at)) && TableAt(p, at.fns, OperandsFunctions(es, at))
    ensures
      var at1 := ExprEnd(es.head, at);
      && Placed(p, es.head, at)
      && CodeAt(p, at1.code, OperandsCode(es.tail, at1))
      && TableAt(p, at1.fns, OperandsFunctions(es.tail, at1))
  {
    hide CodeAt, TableAt, ExprEnd, ExprCode, ExprFunctions;
    var at1 := ExprEnd(es.head, at);
    CodeSplit(p, at.code, ExprCode(es.head, at), OperandsCode(es.tail, at1));
    TableSplit(p, at.fns, ExprFunctions(es.head, at), OperandsFunctions(es.tail, at1));
  }

  lemma {:induction false} SimOperands(rt: Runtime, p: Program, es: List<Expr>, at: Place, m: State)
    returns (n: nat, m': State)
    requires m.Running? && m.pc == at.code && ExprsOk(es)
    requires CodeAt(p, at.code, OperandsCode(es, at)) && TableAt(p, at.fns, OperandsFunctions(es, at))
    ensures Runs(rt, p, m, n, m')
    ensures OperandsLand(EvalOperands(rt, es, m.world), m, m', at.regs, OperandsEnd(es, at).code, ResultsOf(es, at))
    decreases es, 0
  {
    hide *;
    match es
    case Empty =>
      n, m' := 0, m;
      NoOperands(rt, p, at, m);
    case Cons(e, rest) =>
      var at1 := ExprEnd(e, at);
      OperandsPlaced(p, es, at);
      OperandsStep(rt, es, at, m.world);
      n, m' := SimExpr(rt, p, e, at, m);
      var r := EvalExpr(rt, e, m.world);
      YieldsRuns(r, m, m', at.regs, at1.code, ResultOf(e, at));
      if r.Yields? {
        var n2, m2 := SimOperands(rt, p, rest, at1, m');
        RunsThen(rt, p, m, n, m', n2, m2);
        JoinOperands(rt, e, rest, at, m, m', m2, r.value, EvalOperands(rt, rest, r.world));
        n, m' := n + n2, m2;
      } else {
        OperandsAbort(r, m, m', at.regs, OperandsEnd(es, at).code, ResultsOf(es, at), at1.code, ResultOf(e, at));
      }
  }

  lemma NoOperands(rt: Runtime, p: Program, at: Place, m: State)
    requires m.Running? && m.pc == at.code
    ensures Runs(rt, p, m, 0, m)
    ensures OperandsLand(EvalOperands(rt, Empty, m.world), m, m, at.regs, OperandsEnd(Empty, at).code, ResultsOf(Empty, at))
  {
  }

  lemma OperandsStep(rt: Runtime, es: List<Expr>, at: Place, w: World)
    requires es.Cons?
    ensures ExprsOk(es) == (ExprOk(es.head) && ExprsOk(es.tail))
    ensures OperandsEnd(es, at) == OperandsEnd(es.tail, ExprEnd(es.head, at))
    ensures ResultsOf(es, at) == [ResultOf(es.head, at)] + ResultsOf(es.tail, ExprEnd(es.head, at))
    ensures EvalOperands(rt, es, w)
         == match EvalExpr(rt, es.head, w)
            case Yields(v, w1) =>
              (match EvalOperands(rt, es.tail, w1)
               case Yields(vs, w2) => Yields([v] + vs, w2)
               case Faults(message, w2) => Faults(message, w2)
               case Unmatched => Unmatched)
            case Faults(message, w1) => Faults(message, w1)
            case Unmatched => Unmatched
  {
    hide EvalExpr, ExprEnd, ExprOk, ResultOf;
  }

  lemma OperandsAbort(
    r: Eval<Value>, m: State, m': State, base: Register, end: nat, results: seq<Register>, end1: nat, result: Register
  )
    requires m.Running? && YieldsTo(r, m, m', base, end1, result) && !r.Yields?
    ensures match r
            case Yields(_, _) => true
            case Faults(message, w) => OperandsLand(Faults(message, w), m, m', base, end, results)
            case Unmatched => OperandsLand(Unmatched, m, m', base, end, results)
  {
  }

  lemma JoinOperands(
    rt: Runtime, e: Expr, rest: List<Expr>, at: Place, m: State, m1: State, m2: State, v: Value, r: Eval<seq<Value>>
  )
    requires m.Running? && m1.Running?
    requires YieldsTo(Yields(v, m1.world), m, m1, at.regs, ExprEnd(e, at).code, ResultOf(e, at))
    requires OperandsLand(r, m1, m2, ExprEnd(e, at).regs, OperandsEnd(rest, ExprEnd(e, at)).code,
                          ResultsOf(rest, ExprEnd(e, at)))
    ensures match r
            case Yields(vs, w) =>
              OperandsLand(Yields([v] + vs, w), m, m2, at.regs, OperandsEnd(rest, ExprEnd(e, at)).code,
                           [ResultOf(e, at)] + ResultsOf(rest, ExprEnd(e, at)))
            case Faults(message, w) =>
              OperandsLand(Faults(message, w), m, m2, at.regs, OperandsEnd(rest, ExprEnd(e, at)).code,
                           [ResultOf(e, at)] + ResultsOf(rest, ExprEnd(e, at)))
            case Unmatched =>
              OperandsLand(Unmatched, m, m2, at.regs, OperandsEnd(rest, ExprEnd(e, at)).code,
                           [ResultOf(e, at)] + ResultsOf(rest, ExprEnd(e, at)))
  {
    hide Agree, ResultsOf, ResultOf, OperandsEnd, ExprEnd;
    if r.Yields? {
      LandsTrans(m, m1, m2, at.regs, ExprEnd(e, at).regs);
      LandsKeeps(m1, m2, ExprEnd(e, at).regs, ResultOf(e, at));
    }
  }

  lemma LogicalPlaced(p: Program, e: Expr, at: Place)
    requires e.Logical? && Placed(p, e, at)
    ensures
      var at1 := ExprEnd(e.left, at);
      var at2 := Skip(at1, 2, 1);
      var end := ExprEnd(e.right, at2);
      && Placed(p, e.left, at)
      && at1.code + 1 < |p.code|
      && p.code[at1.code] == Copy(at1.regs, ResultOf(e.left, at))
      && p.code[at1.code + 1] == JumpIf(at1.regs, e.isOr, ExprEnd(e, at).code)
      && Placed(p, e.right, at2)
      && end.code < |p.code| && p.code[end.code] == Copy(at1.regs, ResultOf(e.right, at2))
  {
    hide *;
    var at1 := ExprEnd(e.left, at);
    var at2 := Skip(at1, 2, 1);
    var test := [Copy(at1.regs, ResultOf(e.left, at)), JumpIf(at1.regs, e.isOr, ExprEnd(e, at).code)];
    var last := [Copy(at1.regs, ResultOf(e.right, at2))];
    PlacedHere(p, e, at);
    LogicalParts(e, at);
    CodeSplit(p, at.code, ExprCode(e.left, at) + test + ExprCode(e.right, at2), last);
    CodeSplit(p, at.code, ExprCode(e.left, at) + test, ExprCode(e.right, at2));
    CodeSplit(p, at.code, ExprCode(e.left, at), test);
    InstrAt(p, at1.code, test, 0);
    InstrAt(p, at1.code, test, 1);
    InstrAt(p, ExprEnd(e.right, at2).code, last, 0);
    TableSplit(p, at.fns, ExprFunctions(e.left, at), ExprFunctions(e.right, at2));
    PlacedHere(p, e.left, at);
    PlacedHere(p, e.right, at2);
  }

  lemma {:induction false} SimLogical(rt: Runtime, p: Program, e: Expr, at: Place, m: State)
    returns (n: nat, m': State)
    requires e.Logical? && m.Running? && m.pc == at.code && ExprOk(e) && Placed(p, e, at)
    ensures Runs(rt, p, m, n, m')
    ensures YieldsTo(EvalExpr(rt, e, m.world), m, m', at.regs, ExprEnd(e, at).code, ResultOf(e, at))
    decreases e, 0
  {
    hide Runs, Placed, ExprCode, ExprFunctions, Apply;
    LogicalPlaced(p, e, at);
    var at1 := ExprEnd(e.left, at);
    var at2 := Skip(at1, 2, 1);
    var result := at1.regs;
    var n1, m1 := SimExpr(rt, p, e.left, at, m);
    n, m' := n1, m1;
    var l := EvalExpr(rt, e.left, m.world);
    if l.Yields? {
      DoCopy(rt, p, m1, result, ResultOf(e.left, at));
      var m2 := m1.(pc := m1.pc + 1, regs := m1.regs[result := l.value]);
      RunsThen(rt, p, m, n1, m1, 1, m2);
      DoJumpIf(rt, p, m2, result, e.isOr, ExprEnd(e, at).code);
      var m3 := m2.(pc := if Truthy(l.value) == e.isOr then ExprEnd(e, at).code else m2.pc + 1);
      RunsThen(rt, p, m, n1 + 1, m2, 1, m3);
      n, m' := n1 + 2, m3;
      if Truthy(l.value) != e.isOr {
        var n4, m4 := SimLogicalRight(rt, p, e, at, m3);
        RunsThen(rt, p, m, n1 + 2, m3, n4, m4);
        n, m' := n1 + 2 + n4, m4;
        assert Lands(m, m3, at.regs, m3.pc, m3.world);
        YieldsAfter(EvalExpr(rt, e.right, l.world), m, m3, m4, at.regs, result, ExprEnd(e, at).code, result);
      }
    }
  }

  lemma {:induction false} SimLogicalRight(rt: Runtime, p: Program, e: Expr, at: Place, m: State)
    returns (n: nat, m': State)
    requires e.Logical? && ExprOk(e.right)
    requires
      var at2 := Skip(ExprEnd(e.left, at), 2, 1);
      var end := ExprEnd(e.right, at2);
      && m.Running? && m.pc == at2.code
      && Placed(p, e.right, at2)
      && end.code < |p.code| && p.code[end.code] == Copy(ExprEnd(e.left, at).regs, ResultOf(e.right, at2))
    ensures Runs(rt, p, m, n, m')
    ensures YieldsTo(EvalExpr(rt, e.right, m.world), m, m', ExprEnd(e.left, at).regs, ExprEnd(e, at).code,
                     ExprEnd(e.left, at).regs)
    decreases e.right, 5
  {
    hide Runs, Placed, ExprCode, ExprFunctions, Apply;
    var at2 := Skip(ExprEnd(e.left, at), 2, 1);
    var result := ExprEnd(e.left, at).regs;
    n, m' := SimExpr(rt, p, e.right, at2, m);
    var r := EvalExpr(rt, e.right, m.world);
    if r.Yields? {
      DoCopy(rt, p, m', result, ResultOf(e.right, at2));
      var m2 := m'.(pc := m'.pc + 1, regs := m'.regs[result := r.value]);
      RunsThen(rt, p, m, n, m', 1, m2);
      n, m' := n + 1, m2;
    }
  }

  // ----------------------------------------------------------------- match expressions

  lemma {:induction false} StoreRuns(rt: Runtime, p: Program, bound: Bound, bs: Bindings, m: State)
    requires m.Running? && CodeAt(p, m.pc, StoreBindings(bound)) && Holds(bound, bs, m.regs)
    ensures Runs(rt, p, m, |bound|, m.(pc := m.pc + |bound|, world := BindAll(m.world, bs)))
    decreases |bound|
  {
    if bound != [] {
      hide Runs, CodeAt;
      var store := StoreVar(User(bound[0].0), bound[0].1);
      InstrAt(p, m.pc, StoreBindings(bound), 0);
      CodeSplit(p, m.pc, [store], StoreBindings(bound[1..]));
      DoStore(rt, p, m, store.variable, store.source);
      var m1 := m.(pc := m.pc + 1, world := BindVar(m.world, bs[0].0, bs[0].1));
      StoreRuns(rt, p, bound[1..], bs[1..], m1);
      RunsThen(rt, p, m, 1, m1, |bound| - 1, m.(pc := m.pc + |bound|, world := BindAll(m.world, bs)));
    }
  }

  /** The pattern, the stores of its bindings and the guard of an arm. */
  predicate TestPlaced(p: Program, pattern: Pattern, guard: Option<Expr>, v: Register, at: Place, fail: nat) {
    var at1 := GuardPlace(pattern, at);
    && CodeAt(p, at.code, BindCode(pattern, v, at, fail))
    && CodeAt(p, at1.code, GuardCode(guard, at1, fail))
    && TableAt(p, at1.fns, GuardFunctions(guard, at1))
  }

  lemma BindPlaced(p: Program, pattern: Pattern, v: Register, at: Place, fail: nat)
    requires CodeAt(p, at.code, BindCode(pattern, v, at, fail))
    ensures CodeAt(p, at.code, PatternCode(pattern, v, at, fail))
    ensures CodeAt(p, PatternEnd(pattern, at).code, StoreBindings(PatternBindings(pattern, v, at)))
    ensures GuardPlace(pattern, at).code == PatternEnd(pattern, at).code + |PatternBindings(pattern, v, at)|
  {
    hide CodeAt, PatternCode, StoreBindings, PatternBindings, PatternEnd, PatternNames;
    CodeSplit(p, at.code, PatternCode(pattern, v, at, fail), StoreBindings(PatternBindings(pattern, v, at)));
  }

  /** An arm's pattern and stores: a match lands at the guard with the bindings stored. */
  lemma SimBind(rt: Runtime, p: Program, pattern: Pattern, v: Register, at: Place, fail: nat, m: State)
    returns (n: nat, m': State)
    requires m.Running? && m.pc == at.code && v < at.regs && v in m.regs
    requires PatternOk(pattern) && CodeAt(p, at.code, BindCode(pattern, v, at, fail))
    ensures Runs(rt, p, m, n, m')
    ensures match MatchPattern(rt, pattern, m.regs[v], m.world)
            case Matches(bs) => Lands(m, m', at.regs, GuardPlace(pattern, at).code, BindAll(m.world, bs))
            case Fails => Lands(m, m', at.regs, fail, m.world)
            case PatternFaults(message) => m' == Trapped(message, m.world)
  {
    hide Runs, CodeAt, PatternCode, StoreBindings, PatternBindings, PatternEnd, GuardPlace, MatchPattern, BindAll, Agree,
      Holds, PatternOk, BindCode;
    BindPlaced(p, pattern, v, at, fail);
    n, m' := SimPattern(rt, p, pattern, v, at, fail, m);
    var r := MatchPattern(rt, pattern, m.regs[v], m.world);
    if r.Matches? {
      var bound := PatternBindings(pattern, v, at);
      StoreRuns(rt, p, bound, r.bindings, m');
      var m2 := m'.(pc := m'.pc + |bound|, world := BindAll(m'.world, r.bindings));
      RunsThen(rt, p, m, n, m', |bound|, m2);
      n, m' := n + |bound|, m2;
    }
  }

  lemma GuardPlaced(p: Program, guard: Option<Expr>, at: Place, fail: nat)
    requires guard.Some?
    requires CodeAt(p, at.code, GuardCode(guard, at, fail)) && TableAt(p, at.fns, GuardFunctions(guard, at))
    ensures Placed(p, guard.value, at)
    ensures
      var end := ExprEnd(guard.value, at);
      && end.code < |p.code| && p.code[end.code] == JumpIf(ResultOf(guard.value, at), false, fail)
      && GuardEnd(guard, at).code == end.code + 1
  {
    hide CodeAt, TableAt, ExprEnd, ExprCode, ResultOf, ExprFunctions;
    var jump := [JumpIf(ResultOf(guard.value, at), false, fail)];
    CodeSplit(p, at.code, ExprCode(guard.value, at), jump);
    InstrAt(p, ExprEnd(guard.value, at).code, jump, 0);
  }

  lemma {:induction false} SimGuard(rt: Runtime, p: Program, guard: Option<Expr>, at: Place, fail: nat, m: State)
    returns (n: nat, m': State)
    requires m.Running? && m.pc == at.code && (guard.Some? ==> ExprOk(guard.value))
    requires CodeAt(p, at.code, GuardCode(guard, at, fail)) && TableAt(p, at.fns, GuardFunctions(guard, at))
    ensures Runs(rt, p, m, n, m')
    ensures GuardLands(EvalGuard(rt, guard, m.world), m, m', at.regs, GuardEnd(guard, at).code, fail)
    decreases guard, 0
  {
    hide *;
    match guard
    case None =>
      n, m' := 0, m;
      NoGuard(rt, p, at, fail, m);
    case Some(g) =>
      GuardPlaced(p, guard, at, fail);
      n, m' := SimExpr(rt, p, g, at, m);
      var r := EvalExpr(rt, g, m.world);
      YieldsRuns(r, m, m', at.regs, ExprEnd(g, at).code, ResultOf(g, at));
      if r.Yields? {
        DoJumpIf(rt, p, m', ResultOf(g, at), false, fail);
        var m2 := m'.(pc := if Truthy(r.value) then m'.pc + 1 else fail);
        RunsThen(rt, p, m, n, m', 1, m2);
        GuardDone(rt, g, at, fail, m, m', m2);
        n, m' := n + 1, m2;
      } else {
        GuardDone(rt, g, at, fail, m, m', m');
      }
  }

  lemma NoGuard(rt: Runtime, p: Program, at: Place, fail: nat, m: State)
    requires m.Running? && m.pc == at.code
    ensures Runs(rt, p, m, 0, m)
    ensures GuardLands(EvalGuard(rt, None, m.world), m, m, at.regs, GuardEnd(None, at).code, fail)
  {
  }

  lemma GuardDone(rt: Runtime, g: Expr, at: Place, fail: nat, m: State, m1: State, m2: State)
    requires m.Running? && YieldsTo(EvalExpr(rt, g, m.world), m, m1, at.regs, ExprEnd(g, at).code, ResultOf(g, at))
    requires match EvalExpr(rt, g, m.world)
             case Yields(v, _) => m2 == m1.(pc := if Truthy(v) then m1.pc + 1 else fail)
             case _ => m2 == m1
    ensures GuardLands(EvalGuard(rt, Some(g), m.world), m, m2, at.regs, GuardEnd(Some(g), at).code, fail)
  {
    hide ExprEnd, EvalExpr, ResultOf;
  }

  /** A whole arm test: falls through to the arm's body or goes to the next arm. */
  lemma {:induction false} SimTest(
    rt: Runtime, p: Program, pattern: Pattern, guard: Option<Expr>, v: Register, at: Place, fail: nat, m: State
  ) returns (n: nat, m': State)
    requires m.Running? && m.pc == at.code && v < at.regs && v in m.regs
    requires PatternOk(pattern) && GuardOk(guard) && TestPlaced(p, pattern, guard, v, at, fail)
    ensures Runs(rt, p, m, n, m')
    ensures GuardLands(TryArm(rt, pattern, guard, m.regs[v], m.world), m, m', at.regs,
                       GuardEnd(guard, GuardPlace(pattern, at)).code, fail)
    decreases guard, 1
  {
    hide Runs, CodeAt, TableAt, BindCode, GuardCode, GuardFunctions, GuardEnd, GuardPlace, EvalGuard, MatchPattern, BindAll,
      PatternOk, Agree;
    n, m' := SimBind(rt, p, pattern, v, at, fail, m);
    var r := MatchPattern(rt, pattern, m.regs[v], m.world);
    if r.Matches? {
      var at1 := GuardPlace(pattern, at);
      var n2, m2 := SimGuard(rt, p, guard, at1, fail, m');
      RunsThen(rt, p, m, n, m', n2, m2);
      if m2.Running? && EvalGuard(rt, guard, m'.world).Yields? {
        LandsTrans(m, m', m2, at.regs, at1.regs);
      }
      n, m' := n + n2, m2;
    }
  }

  predicate ArmsPlaced(p: Program, arms: List<ExprArm>, v: Register, result: Register, at: Place, end: nat) {
    CodeAt(p, at.code, ExprArmsCode(arms, v, result, at, end)) && TableAt(p, at.fns, ExprArmsFunctions(arms, at))
  }

  /** The value of an arm placed at `at`, the copy to the shared result and the jump to the end. */
  predicate BodyPlaced(p: Program, arm: ExprArm, result: Register, at: Place, end: nat) {
    var done := ExprEnd(arm.value, at);
    && Placed(p, arm.value, at)
    && done.code + 1 < |p.code|
    && p.code[done.code] == Copy(result, ResultOf(arm.value, at)) && p.code[done.code + 1] == Jump(end)
  }

  lemma ArmsPlacedHere(p: Program, arms: List<ExprArm>, v: Register, result: Register, at: Place, end: nat)
    ensures ArmsPlaced(p, arms, v, result, at, end)
        <==> CodeAt(p, at.code, ExprArmsCode(arms, v, result, at, end)) && TableAt(p, at.fns, ExprArmsFunctions(arms, at))
  {
  }

  lemma ExprArmsPlaced(p: Program, arms: List<ExprArm>, v: Register, result: Register, at: Place, end: nat)
    requires arms.Cons? && ArmsPlaced(p, arms, v, result, at, end)
    ensures
      var arm, rest := arms.head, arms.tail;
      var at2 := GuardEnd(arm.guard, GuardPlace(arm.pattern, at));
      var done := ExprEnd(arm.value, at2);
      var next := Skip(done, 2, 0);
      && TestPlaced(p, arm.pattern, arm.guard, v, at, next.code)
      && BodyPlaced(p, arm, result, at2, end)
      && ArmsPlaced(p, rest, v, result, next, end)
  {
    hide *;
    var arm, rest := arms.head, arms.tail;
    var at1 := GuardPlace(arm.pattern, at);
    var at2 := GuardEnd(arm.guard, at1);
    var done := ExprEnd(arm.value, at2);
    var next := Skip(done, 2, 0);
    var bind, guard := BindCode(arm.pattern, v, at, next.code), GuardCode(arm.guard, at1, next.code);
    var leave := [Copy(result, ResultOf(arm.value, at2)), Jump(end)];
    ArmsPlacedHere(p, arms, v, result, at, end);
    ExprArmsParts(arms, v, result, at, end);
    ArmSplit(p, at.code, bind, guard, ExprCode(arm.value, at2), leave, ExprArmsCode(rest, v, result, next, end));
    InstrAt(p, done.code, leave, 0);
    InstrAt(p, done.code, leave, 1);
    TableSplit(p, at.fns, GuardFunctions(arm.guard, at1) + ExprFunctions(arm.value, at2), ExprArmsFunctions(rest, next));
    TableSplit(p, at.fns, GuardFunctions(arm.guard, at1), ExprFunctions(arm.value, at2));
    PlacedHere(p, arm.value, at2);
    TestPlacedHere(p, arm.pattern, arm.guard, v, at, next.code);
    ArmPlacedHere(p, arm, rest, v, result, at2, next, end);
  }

  lemma ArmPlacedHere(
    p: Program, arm: ExprArm, rest: List<ExprArm>, v: Register, result: Register, at: Place, next: Place, end: nat
  )
    requires Placed(p, arm.value, at)
    requires
      var done := ExprEnd(arm.value, at);
      && done.code + 1 < |p.code|
      && p.code[done.code] == Copy(result, ResultOf(arm.value, at)) && p.code[done.code + 1] == Jump(end)
    requires CodeAt(p, next.code, ExprArmsCode(rest, v, result, next, end))
    requires TableAt(p, next.fns, ExprArmsFunctions(rest, next))
    ensures BodyPlaced(p, arm, result, at, end) && ArmsPlaced(p, rest, v, result, next, end)
  {
  }

  lemma TestPlacedHere(p: Program, pattern: Pattern, guard: Option<Expr>, v: Register, at: Place, fail: nat)
    requires CodeAt(p, at.code, BindCode(pattern, v, at, fail))
    requires
      var at1 := GuardPlace(pattern, at);
      CodeAt(p, at1.code, GuardCode(guard, at1, fail)) && TableAt(p, at1.fns, GuardFunctions(guard, at1))
    ensures TestPlaced(p, pattern, guard, v, at, fail)
  {
  }

  lemma ArmSplit(p: Program, pc: nat, a: seq<Instr>, b: seq<Instr>, c: seq<Instr>, d: seq<Instr>, e: seq<Instr>)
    requires CodeAt(p, pc, a + b + c + d + e)
    ensures CodeAt(p, pc, a) && CodeAt(p, pc + |a|, b) && CodeAt(p, pc + |a| + |b|, c)
    ensures CodeAt(p, pc + |a| + |b| + |c|, d) && CodeAt(p, pc + |a| + |b| + |c| + |d|, e)
  {
    hide *;
    CodeSplit(p, pc, a + b + c + d, e);
    CodeSplit(p, pc, a + b + c, d);
    CodeSplit(p, pc, a + b, c);
    CodeSplit(p, pc, a, b);
  }

  lemma ArmStep(rt: Runtime, arms: List<ExprArm>, v: Value, w: World, r: Eval<bool>)
    requires arms.Cons? && r == TryArm(rt, arms.head.pattern, arms.head.guard, v, w)
    ensures EvalArms(rt, arms, v, w)
         == match r
            case Yields(taken, w1) => if taken then EvalExpr(rt, arms.head.value, w1) else EvalArms(rt, arms.tail, v, w1)
            case Faults(message, w1) => Faults(message, w1)
            case Unmatched => Unmatched
  {
    hide TryArm, EvalExpr;
  }

  lemma ArmPlaces(arm: ExprArm, at: Place)
    ensures
      var at2 := GuardEnd(arm.guard, GuardPlace(arm.pattern, at));
      var next := Skip(ExprEnd(arm.value, at2), 2, 0);
      at.regs <= at2.regs <= next.regs
  {
  }

  lemma ExprArmsOkParts(arms: List<ExprArm>)
    requires arms.Cons? && ExprArmsOk(arms)
    ensures PatternOk(arms.head.pattern) && GuardOk(arms.head.guard) && ExprOk(arms.head.value) && ExprArmsOk(arms.tail)
  {
  }

  /** What follows an arm test: at the body or at the next arm with `v` intact, or trapped. */
  lemma TestDone(
    r: Eval<bool>, m: State, m1: State, base1: Register, base: Register, taken: nat, next: nat, v: Register,
    end: nat, result: Register
  )
    requires m.Running? && base <= base1 && v < base1 && v in m.regs && GuardLands(r, m, m1, base1, taken, next)
    ensures match r
            case Yields(b, w) =>
              && m1.Running? && m1.world == w && m1.pc == (if b then taken else next)
              && v in m1.regs && m1.regs[v] == m.regs[v]
              && Lands(m, m1, base, m1.pc, m1.world)
            case Faults(message, w) => YieldsTo(Faults(message, w), m, m1, base, end, result)
            case Unmatched => YieldsTo(Unmatched, m, m1, base, end, result)
  {
  }

  /** The arms in order: the first one taken leaves its value in `result`. */
  lemma NoArms(rt: Runtime, p: Program, v: Value, m: State, base: Register, end: nat, result: Register)
    requires m.Running?
    ensures Runs(rt, p, m, 0, m) && YieldsTo(EvalArms(rt, Empty, v, m.world), m, m, base, end, result)
  {
  }

  lemma {:induction false} SimExprArms(
    rt: Runtime, p: Program, arms: List<ExprArm>, v: Register, result: Register, at: Place, end: nat, base: Register, m: State
  ) returns (n: nat, m': State)
    requires m.Running? && m.pc == at.code && v < at.regs && v in m.regs && base <= result < at.regs
    requires ExprArmsOk(arms) && ArmsPlaced(p, arms, v, result, at, end)
    ensures Runs(rt, p, m, n, m')
    ensures YieldsTo(EvalArms(rt, arms, m.regs[v], m.world), m, m', base, end, result)
    decreases arms, 0
  {
    hide *;
    match arms
    case Empty =>
      n, m' := 0, m;
      NoArms(rt, p, m.regs[v], m, base, end, result);
    case Cons(arm, rest) =>
      ExprArmsPlaced(p, arms, v, result, at, end);
      ExprArmsOkParts(arms);
      var at2 := GuardEnd(arm.guard, GuardPlace(arm.pattern, at));
      var next := Skip(ExprEnd(arm.value, at2), 2, 0);
      ArmPlaces(arm, at);
      var n1, m1 := SimTest(rt, p, arm.pattern, arm.guard, v, at, next.code, m);
      n, m' := n1, m1;
      var r := TryArm(rt, arm.pattern, arm.guard, m.regs[v], m.world);
      ArmStep(rt, arms, m.regs[v], m.world, r);
      TestDone(r, m, m1, at.regs, base, at2.code, next.code, v, end, result);
      if r.Yields? {
        var n2, m2;
        if r.value {
          n2, m2 := SimTakenArm(rt, p, arm, result, at2, end, base, m1);
        } else {
          n2, m2 := SimExprArms(rt, p, rest, v, result, next, end, base, m1);
        }
        RunsThen(rt, p, m, n1, m1, n2, m2);
        n, m' := n1 + n2, m2;
        YieldsAfter(EvalArms(rt, arms, m.regs[v], m.world), m, m1, m2, base, base, end, result);
      }
  }

  /** The value of the taken arm, its copy to the shared result, and the jump to the end. */
  lemma {:induction false} SimTakenArm(
    rt: Runtime, p: Program, arm: ExprArm, result: Register, at: Place, end: nat, base: Register, m: State
  ) returns (n: nat, m': State)
    requires m.Running? && m.pc == at.code && base <= result && base <= at.regs && ExprOk(arm.value)
    requires BodyPlaced(p, arm, result, at, end)
    ensures Runs(rt, p, m, n, m')
    ensures YieldsTo(EvalExpr(rt, arm.value, m.world), m, m', base, end, result)
    decreases arm, 0
  {
    hide Runs, Placed, ExprEnd, ExprCode, ExprFunctions, EvalExpr, ResultOf, ExprOk;
    n, m' := SimExpr(rt, p, arm.value, at, m);
    var r := EvalExpr(rt, arm.value, m.world);
    if r.Yields? {
      DoCopy(rt, p, m', result, ResultOf(arm.value, at));
      var m2 := m'.(pc := m'.pc + 1, regs := m'.regs[result := r.value]);
      RunsThen(rt, p, m, n, m', 1, m2);
      DoJump(rt, p, m2, end);
      RunsThen(rt, p, m, n + 1, m2, 1, m2.(pc := end));
      n, m' := n + 2, m2.(pc := end);
    }
  }

  lemma MatchExprPlaced(p: Program, e: Expr, at: Place)
    requires e.MatchExpr? && Placed(p, e, at)
    ensures
      var at1 := Skip(ExprEnd(e.scrutinee, at), 0, 1);
      && Placed(p, e.scrutinee, at)
      && at1.code == ExprEnd(e.scrutinee, at).code && at1.fns == ExprEnd(e.scrutinee, at).fns
      && at1.regs == ExprEnd(e.scrutinee, at).regs + 1
      && ArmsPlaced(p, e.arms, ResultOf(e.scrutinee, at), ResultOf(e, at), at1, ExprEnd(e, at).code)
  {
    hide *;
    var at1 := Skip(ExprEnd(e.scrutinee, at), 0, 1);
    var v, result, end := ResultOf(e.scrutinee, at), ResultOf(e, at), ExprEnd(e, at).code;
    PlacedHere(p, e, at);
    MatchExprParts(e, at);
    CodeSplit(p, at.code, ExprCode(e.scrutinee, at), ExprArmsCode(e.arms, v, result, at1, end));
    TableSplit(p, at.fns, ExprFunctions(e.scrutinee, at), ExprArmsFunctions(e.arms, at1));
    PlacedHere(p, e.scrutinee, at);
    ArmsPlacedHere(p, e.arms, v, result, at1, end);
  }

  lemma {:induction false} SimMatchExpr(rt: Runtime, p: Program, e: Expr, at: Place, m: State)
    returns (n: nat, m': State)
    requires e.MatchExpr? && m.Running? && m.pc == at.code && ExprOk(e) && Placed(p, e, at)
    ensures Runs(rt, p, m, n, m')
    ensures YieldsTo(EvalExpr(rt, e, m.world), m, m', at.regs, ExprEnd(e, at).code, ResultOf(e, at))
    decreases e, 0
  {
    hide Runs, Placed, ExprCode, ExprFunctions, CodeAt, TableAt, ArmsPlaced, Agree, Apply;
    MatchExprPlaced(p, e, at);
    var at1 := Skip(ExprEnd(e.scrutinee, at), 0, 1);
    var v, result, end := ResultOf(e.scrutinee, at), ResultOf(e, at), ExprEnd(e, at).code;
    n, m' := SimExpr(rt, p, e.scrutinee, at, m);
    var r := EvalExpr(rt, e.scrutinee, m.world);
    if r.Yields? {
      var n2, m2 := SimExprArms(rt, p, e.arms, v, result, at1, end, at.regs, m');
      RunsThen(rt, p, m, n, m', n2, m2);
      YieldsAfter(EvalArms(rt, e.arms, r.value, r.world), m, m', m2, at.regs, at.regs, end, result);
      n, m' := n + n2, m2;
    }
  }
}
