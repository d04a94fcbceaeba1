/** Each compilation step as a relation between drafts, and how the steps of one
    syntactic form add up to its structural code.
 */
module CompilerSteps {
  import opened Runtime
  import opened Ast
  import opened IR
  import opened Lowering
  import opened FunctionTables
  import opened CodeEquations
  import opened BackPatching
  import opened IRBuilder
  import opened Drafts

  /** An expression compiled on draft `d`. */
  predicate ExprBuilt(d: Draft, d': Draft, e: Expr, result: Register) {
    && Built(d, d', ExprCode(e, Here(d)), ExprEnd(e, Here(d)), ExprFunctions(e, Here(d)))
    && result == ResultOf(e, Here(d))
  }

  lemma ExprPlace(d: Draft, d': Draft, e: Expr, result: Register)
    requires ExprBuilt(d, d', e, result)
    ensures Built(d, d', ExprCode(e, Here(d)), ExprEnd(e, Here(d)), ExprFunctions(e, Here(d)))
    ensures result == ResultOf(e, Here(d)) && Here(d') == ExprEnd(e, Here(d)) && d'.loops == d.loops
  {
    hide ExprCode, ExprFunctions, ExprEnd, ResultOf, Built;
    BuiltPlace(d, d', ExprCode(e, Here(d)), ExprEnd(e, Here(d)), ExprFunctions(e, Here(d)));
  }

  lemma IsExpr(d: Draft, d': Draft, e: Expr, result: Register, code: seq<Instr>, end: Place, fs: seq<FunctionBody>)
    requires Built(d, d', code, end, fs)
    requires code == ExprCode(e, Here(d)) && end == ExprEnd(e, Here(d)) && fs == ExprFunctions(e, Here(d))
    requires result == ResultOf(e, Here(d))
    ensures ExprBuilt(d, d', e, result)
  {
  }

  /** One instruction that takes `regs` registers. */
  predicate Emits(d: Draft, d': Draft, i: Instr, regs: nat) {
    Built(d, d', [i], Skip(Here(d), 1, regs), [])
  }

  lemma EmitsPlace(d: Draft, d': Draft, i: Instr, regs: nat)
    requires Emits(d, d', i, regs)
    ensures Built(d, d', [i], Skip(Here(d), 1, regs), []) && Here(d') == Skip(Here(d), 1, regs) && d'.loops == d.loops
  {
    hide Built;
    BuiltPlace(d, d', [i], Skip(Here(d), 1, regs), []);
  }

  lemma Emitting(d: Draft, d': Draft, i: Instr, regs: nat)
    requires d' == Draft(Append(d.build, [i], d.build.active.registerCount + regs, []), d.loops, d.serial)
    ensures Emits(d, d', i, regs)
  {
    BuiltInstr(d, d', i, regs);
  }

  lemma ThenEmits(
    d: Draft, d1: Draft, d2: Draft, code: seq<Instr>, end: Place, fs: seq<FunctionBody>, i: Instr, regs: nat
  )
    requires Built(d, d1, code, end, fs) && Emits(d1, d2, i, regs)
    ensures Built(d, d2, code + [i], Skip(end, 1, regs), fs) && Here(d2) == Skip(end, 1, regs)
  {
    hide Built;
    BuiltPlace(d, d1, code, end, fs);
    EmitsPlace(d1, d2, i, regs);
    BuiltMore(d, d1, d2, code, end, fs, [i], Skip(end, 1, regs));
  }

  /** The first instruction of a form. */
  lemma FirstEmits(d: Draft, d1: Draft, i: Instr, regs: nat)
    requires Emits(d, d1, i, regs)
    ensures Built(d, d1, [i], Skip(Here(d), 1, regs), []) && Here(d1) == Skip(Here(d), 1, regs)
  {
    EmitsPlace(d, d1, i, regs);
  }

  lemma ThenExpr(
    d: Draft, d1: Draft, d2: Draft, code: seq<Instr>, end: Place, fs: seq<FunctionBody>, e: Expr, result: Register
  )
    requires Built(d, d1, code, end, fs) && ExprBuilt(d1, d2, e, result)
    ensures Built(d, d2, code + ExprCode(e, end), ExprEnd(e, end), fs + ExprFunctions(e, end))
    ensures Here(d2) == ExprEnd(e, end) && result == ResultOf(e, end) && Here(d1) == end
  {
    hide *;
    BuiltPlace(d, d1, code, end, fs);
    ExprPlace(d1, d2, e, result);
    BuiltThen(d, d1, d2, code, end, fs, ExprCode(e, end), ExprEnd(e, end), ExprFunctions(e, end));
  }

  lemma LiteralBuilt(e: Expr, d: Draft, d1: Draft, result: Register)
    requires e.Literal? && result == Here(d).regs && Emits(d, d1, Compute(result, Constant(e.constant), []), 1)
    ensures ExprBuilt(d, d1, e, result)
  {
    hide Built;
  }

  lemma VariableBuilt(e: Expr, d: Draft, d1: Draft, result: Register)
    requires e.Variable? && result == Here(d).regs && Emits(d, d1, LoadVar(result, User(e.name)), 1)
    ensures ExprBuilt(d, d1, e, result)
  {
    hide Built;
  }

  lemma AssignBuilt(e: Expr, d: Draft, d1: Draft, d2: Draft, value: Register)
    requires e.Assign? && ExprBuilt(d, d1, e.value, value) && Emits(d1, d2, AssignVar(User(e.name), value), 0)
    ensures ExprBuilt(d, d2, e, value)
  {
    hide *;
    var at := Here(d);
    ExprPlace(d, d1, e.value, value);
    ThenEmits(d, d1, d2, ExprCode(e.value, at), ExprEnd(e.value, at), ExprFunctions(e.value, at),
              AssignVar(User(e.name), value), 0);
    AssignParts(e, at);
    IsExpr(d, d2, e, value, ExprCode(e, at), ExprEnd(e, at), ExprFunctions(e, at));
  }

  /** The checks and the operation of a compound assignment. */
  predicate CompoundBuilt(d: Draft, d': Draft, op: ArithmeticOp, role: string, old': Register, value: Expr) {
    Built(d, d', CompoundCode(op, role, old', value, Here(d)), CompoundEnd(value, Here(d)),
          ExprFunctions(value, Skip(Here(d), 1, 1)))
  }

  lemma CompoundSteps(
    d: Draft, d1: Draft, d2: Draft, d3: Draft, d4: Draft, op: ArithmeticOp, role: string, old': Register, value: Expr,
    checkedOld: Register, v: Register, checkedValue: Register, result: Register
  )
    requires checkedOld == Here(d).regs && checkedValue == Here(d2).regs && result == Here(d3).regs
    requires Emits(d, d1, Compute(checkedOld, AssertNumber(CompoundMessage(op, role)), [old']), 1)
    requires ExprBuilt(d1, d2, value, v)
    requires Emits(d2, d3, Compute(checkedValue, AssertNumber(CompoundMessage(op, "value")), [v]), 1)
    requires Emits(d3, d4, Compute(result, Arithmetic(op), [checkedOld, checkedValue]), 1)
    ensures CompoundBuilt(d, d4, op, role, old', value) && result == CompoundEnd(value, Here(d)).regs - 1
  {
    hide *;
    var at := Here(d);
    var at1 := Skip(at, 1, 1);
    var first := Compute(checkedOld, AssertNumber(CompoundMessage(op, role)), [old']);
    var check := Compute(checkedValue, AssertNumber(CompoundMessage(op, "value")), [v]);
    var last := Compute(result, Arithmetic(op), [checkedOld, checkedValue]);
    var code, end, fs := [first] + ExprCode(value, at1), ExprEnd(value, at1), [] + ExprFunctions(value, at1);
    FirstEmits(d, d1, first, 1);
    ThenExpr(d, d1, d2, [first], at1, [], value, v);
    ThenEmits(d, d2, d3, code, end, fs, check, 1);
    ThenEmits(d, d3, d4, code + [check], Skip(end, 1, 1), fs, last, 1);
    SkipTwice(end, 1, 1, 1, 1);
    CompoundParts(op, role, old', value, at);
    CompoundPlaces(value, at);
    SkipSizes(end, 1, 1);
    SkipSizes(end, 2, 2);
    assert fs == ExprFunctions(value, at1);
    assert code + [check] + [last] == code + [check, last];
    IsCompound(d, d4, op, role, old', value);
  }

  lemma SkipSizes(at: Place, code: nat, regs: nat)
    ensures Skip(at, code, regs).code == at.code + code && Skip(at, code, regs).regs == at.regs + regs
    ensures Skip(at, code, regs).syns == at.syns && Skip(at, code, regs).fns == at.fns
  {
  }

  lemma IsCompound(d: Draft, d': Draft, op: ArithmeticOp, role: string, old': Register, value: Expr)
    ensures CompoundBuilt(d, d', op, role, old', value)
        <==> Built(d, d', CompoundCode(op, role, old', value, Here(d)), CompoundEnd(value, Here(d)),
                   ExprFunctions(value, Skip(Here(d), 1, 1)))
  {
  }

  lemma ThenCompound(
    d: Draft, d1: Draft, d2: Draft, code: seq<Instr>, end: Place, fs: seq<FunctionBody>,
    op: ArithmeticOp, role: string, old': Register, value: Expr
  )
    requires Built(d, d1, code, end, fs) && CompoundBuilt(d1, d2, op, role, old', value)
    ensures Built(d, d2, code + CompoundCode(op, role, old', value, end), CompoundEnd(value, end),
                  fs + ExprFunctions(value, Skip(end, 1, 1)))
    ensures Here(d2) == CompoundEnd(value, end)
  {
    hide *;
    BuiltPlace(d, d1, code, end, fs);
    IsCompound(d1, d2, op, role, old', value);
    BuiltPlace(d1, d2, CompoundCode(op, role, old', value, end), CompoundEnd(value, end), ExprFunctions(value, Skip(end, 1, 1)));
    BuiltThen(d, d1, d2, code, end, fs, CompoundCode(op, role, old', value, end), CompoundEnd(value, end),
              ExprFunctions(value, Skip(end, 1, 1)));
  }

  lemma VariableCompoundBuilt(e: Expr, d: Draft, d1: Draft, d2: Draft, d3: Draft, old': Register, result: Register)
    requires e.CompoundAssign? && old' == Here(d).regs && Emits(d, d1, LoadVar(old', User(e.name)), 1)
    requires CompoundBuilt(d1, d2, e.op, "variable", old', e.value) && result == CompoundEnd(e.value, Here(d1)).regs - 1
    requires Emits(d2, d3, AssignVar(User(e.name), result), 0)
    ensures ExprBuilt(d, d3, e, result)
  {
    hide *;
    var at := Here(d);
    var at1 := Skip(at, 1, 1);
    var first := LoadVar(old', User(e.name));
    FirstEmits(d, d1, first, 1);
    ThenCompound(d, d1, d2, [first], at1, [], e.op, "variable", old', e.value);
    var code, end := CompoundCode(e.op, "variable", old', e.value, at1), CompoundEnd(e.value, at1);
    var fs := [] + ExprFunctions(e.value, Skip(at1, 1, 1));
    ThenEmits(d, d2, d3, [first] + code, end, fs, AssignVar(User(e.name), result), 0);
    VariableCompoundParts(e, at);
    IsExpr(d, d3, e, result, [first] + code + [AssignVar(User(e.name), result)], Skip(end, 1, 0), fs);
  }

  lemma IndexCompoundBuilt(
    e: Expr, d: Draft, d1: Draft, d2: Draft, d3: Draft, d4: Draft, d5: Draft,
    c: Register, i: Register, old': Register, result: Register, dest: Register
  )
    requires e.IndexCompoundAssign? && ExprBuilt(d, d1, e.collection, c) && ExprBuilt(d1, d2, e.index, i)
    requires old' == Here(d2).regs && Emits(d2, d3, Compute(old', Index, [c, i]), 1)
    requires CompoundBuilt(d3, d4, e.op, "target", old', e.value) && result == CompoundEnd(e.value, Here(d3)).regs - 1
    requires dest == Here(d4).regs && Emits(d4, d5, Compute(dest, AssignIndex, [c, i, result]), 1)
    ensures ExprBuilt(d, d5, e, result)
  {
    hide *;
    var at := Here(d);
    var at1 := ExprEnd(e.collection, at);
    var at2 := ExprEnd(e.index, at1);
    var at3 := Skip(at2, 1, 1);
    var read, write := Compute(old', Index, [c, i]), Compute(dest, AssignIndex, [c, i, result]);
    ExprPlace(d, d1, e.collection, c);
    ThenExpr(d, d1, d2, ExprCode(e.collection, at), at1, ExprFunctions(e.collection, at), e.index, i);
    var code, fs := ExprCode(e.collection, at) + ExprCode(e.index, at1),
                    ExprFunctions(e.collection, at) + ExprFunctions(e.index, at1);
    ThenEmits(d, d2, d3, code, at2, fs, read, 1);
    ThenCompound(d, d3, d4, code + [read], at3, fs, e.op, "target", old', e.value);
    var compound, end := CompoundCode(e.op, "target", old', e.value, at3), CompoundEnd(e.value, at3);
    var fs' := fs + ExprFunctions(e.value, Skip(at3, 1, 1));
    ThenEmits(d, d4, d5, code + [read] + compound, end, fs', write, 1);
    IndexCompoundParts(e, at);
    IsExpr(d, d5, e, result, code + [read] + compound + [write], Skip(end, 1, 1), fs');
  }

  lemma FieldCompoundBuilt(
    e: Expr, d: Draft, d1: Draft, d3: Draft, d4: Draft, d5: Draft,
    o: Register, old': Register, result: Register, dest: Register
  )
    requires e.FieldCompoundAssign? && ExprBuilt(d, d1, e.target, o)
    requires old' == Here(d1).regs && Emits(d1, d3, Compute(old', Field(e.field), [o]), 1)
    requires CompoundBuilt(d3, d4, e.op, "target", old', e.value) && result == CompoundEnd(e.value, Here(d3)).regs - 1
    requires dest == Here(d4).regs && Emits(d4, d5, Compute(dest, AssignField(e.field), [o, result]), 1)
    ensures ExprBuilt(d, d5, e, result)
  {
    hide *;
    var at := Here(d);
    var at1 := ExprEnd(e.target, at);
    var at3 := Skip(at1, 1, 1);
    var read, write := Compute(old', Field(e.field), [o]), Compute(dest, AssignField(e.field), [o, result]);
    var code, fs := ExprCode(e.target, at), ExprFunctions(e.target, at);
    ExprPlace(d, d1, e.target, o);
    ThenEmits(d, d1, d3, code, at1, fs, read, 1);
    ThenCompound(d, d3, d4, code + [read], at3, fs, e.op, "target", old', e.value);
    var compound, end := CompoundCode(e.op, "target", old', e.value, at3), CompoundEnd(e.value, at3);
    var fs' := fs + ExprFunctions(e.value, Skip(at3, 1, 1));
    ThenEmits(d, d4, d5, code + [read] + compound, end, fs', write, 1);
    FieldCompoundParts(e, at);
    IsExpr(d, d5, e, result, code + [read] + compound + [write], Skip(end, 1, 1), fs');
  }

  predicate OperandsBuilt(d: Draft, d': Draft, es: List<Expr>, results: seq<Register>) {
    && Built(d, d', OperandsCode(es, Here(d)), OperandsEnd(es, Here(d)), OperandsFunctions(es, Here(d)))
    && results == ResultsOf(es, Here(d))
  }

  /** The operands still to be compiled, from `here` on, complete the operand code that began at `at`. */
  predicate OperandsLeft(
    d: Draft, d': Draft, es: List<Expr>, rest: List<Expr>, done: seq<Instr>, fs: seq<FunctionBody>, results: seq<Register>
  ) {
    var at, here := Here(d), Here(d');
    && Built(d, d', done, here, fs)
    && done + OperandsCode(rest, here) == OperandsCode(es, at)
    && fs + OperandsFunctions(rest, here) == OperandsFunctions(es, at)
    && results + ResultsOf(rest, here) == ResultsOf(es, at)
    && OperandsEnd(rest, here) == OperandsEnd(es, at)
    && ExprsOk(rest) == ExprsOk(es)
  }

  lemma OperandsStart(d: Draft, es: List<Expr>)
    ensures OperandsLeft(d, d, es, es, [], [], [])
  {
    hide OperandsCode, OperandsFunctions, ResultsOf, OperandsEnd, ExprsOk;
    BuiltNothing(d);
  }

  lemma OperandsNext(
    d: Draft, d1: Draft, d2: Draft, es: List<Expr>, rest: List<Expr>, done: seq<Instr>, fs: seq<FunctionBody>,
    results: seq<Register>, r: Register
  )
    requires rest.Cons? && OperandsLeft(d, d1, es, rest, done, fs, results) && ExprBuilt(d1, d2, rest.head, r)
    requires ExprOk(rest.head)
    ensures
      var here := Here(d1);
      OperandsLeft(d, d2, es, rest.tail, done + ExprCode(rest.head, here), fs + ExprFunctions(rest.head, here), results + [r])
  {
    hide Built, ExprBuilt, OperandsCode, OperandsFunctions, ResultsOf, OperandsEnd, ExprCode, ExprEnd, ExprFunctions, ResultOf;
    var here := Here(d1);
    ThenExpr(d, d1, d2, done, here, fs, rest.head, r);
    OperandsParts(rest, here);
    var at1 := ExprEnd(rest.head, here);
    assert done + (ExprCode(rest.head, here) + OperandsCode(rest.tail, at1))
        == done + ExprCode(rest.head, here) + OperandsCode(rest.tail, at1);
    assert fs + (ExprFunctions(rest.head, here) + OperandsFunctions(rest.tail, at1))
        == fs + ExprFunctions(rest.head, here) + OperandsFunctions(rest.tail, at1);
    assert results + ([r] + ResultsOf(rest.tail, at1)) == results + [r] + ResultsOf(rest.tail, at1);
  }

  lemma OperandsDone(
    d: Draft, d': Draft, es: List<Expr>, done: seq<Instr>, fs: seq<FunctionBody>, results: seq<Register>
  )
    requires OperandsLeft(d, d', es, Empty, done, fs, results)
    ensures OperandsBuilt(d, d', es, results) && ExprsOk(es)
  {
    hide Built;
    assert done + [] == done && fs + [] == fs && results + [] == results;
  }

  lemma OperationBuilt(e: Expr, d: Draft, d1: Draft, d2: Draft, args: seq<Register>, dest: Register)
    requires e.Operation? && OperandsBuilt(d, d1, e.operands, args)
    requires dest == Here(d1).regs && Emits(d1, d2, Compute(dest, e.prim, args), 1)
    ensures ExprBuilt(d, d2, e, dest)
  {
    hide *;
    var at := Here(d);
    var code, end, fs := OperandsCode(e.operands, at), OperandsEnd(e.operands, at), OperandsFunctions(e.operands, at);
    OperandsPlace(d, d1, e.operands, args);
    ThenEmits(d, d1, d2, code, end, fs, Compute(dest, e.prim, args), 1);
    OperationParts(e, at);
    IsExpr(d, d2, e, dest, code + [Compute(dest, e.prim, args)], Skip(end, 1, 1), fs);
  }

  lemma OperandsPlace(d: Draft, d': Draft, es: List<Expr>, results: seq<Register>)
    requires OperandsBuilt(d, d', es, results)
    ensures Built(d, d', OperandsCode(es, Here(d)), OperandsEnd(es, Here(d)), OperandsFunctions(es, Here(d)))
    ensures results == ResultsOf(es, Here(d)) && Here(d') == OperandsEnd(es, Here(d)) && |results| == Length(es)
  {
    hide Built, OperandsCode, OperandsEnd, OperandsFunctions, ResultsOf;
    BuiltPlace(d, d', OperandsCode(es, Here(d)), OperandsEnd(es, Here(d)), OperandsFunctions(es, Here(d)));
  }

  lemma LogicalBuilt(
    e: Expr, d: Draft, d1: Draft, d2: Draft, d3: Draft, d4: Draft, d5: Draft, left: Register, right: Register,
    result: Register
  )
    requires e.Logical? && ExprBuilt(d, d1, e.left, left) && ExprBuilt(d3, d4, e.right, right)
    requires result == Here(d1).regs && Emits(d1, d2, Copy(result, left), 1)
    requires Emits(d2, d3, JumpIf(result, e.isOr, 0), 0)
    requires Emits(d4, d5, Copy(result, right), 0)
    ensures Patchable(d5.build.active.code, 0, [Here(d2).code])
    ensures ExprBuilt(d, Patched(d5, [Here(d2).code], Here(d5).code), e, result)
  {
    hide *;
    var at := Here(d);
    var at1 := ExprEnd(e.left, at);
    var at2 := Skip(at1, 2, 1);
    var copy, jump, last := Copy(result, left), JumpIf(result, e.isOr, 0), Copy(result, right);
    var a, fs := ExprCode(e.left, at), ExprFunctions(e.left, at);
    ExprPlace(d, d1, e.left, left);
    ThenEmits(d, d1, d2, a, at1, fs, copy, 1);
    ThenEmits(d, d2, d3, a + [copy], Skip(at1, 1, 1), fs, jump, 0);
    SkipTwice(at1, 1, 1, 1, 0);
    SkipSizes(at1, 1, 1);
    ThenExpr(d, d3, d4, a + [copy] + [jump], at2, fs, e.right, right);
    var b, end, fs' := ExprCode(e.right, at2), ExprEnd(e.right, at2), fs + ExprFunctions(e.right, at2);
    ThenEmits(d, d4, d5, a + [copy] + [jump] + b, end, fs', last, 0);
    LogicalParts(e, at);
    var position, target := Here(d2).code, Here(d5).code;
    var code := a + [copy] + [jump] + (b + [last]);
    assert a + [copy] + [jump] + b + [last] == code;
    JumpIfTarget(result, e.isOr, target);
    PatchMiddle(a + [copy], jump, b + [last], at.code, target);
    BuiltPlace(d, d2, a + [copy], Skip(at1, 1, 1), fs);
    BuiltPatched(d, d5, code, Skip(end, 1, 0), fs', [position], target);
    var jump' := JumpIf(result, e.isOr, target);
    assert a + [copy] + [jump'] + (b + [last]) == a + [copy, jump'] + b + [last];
    IsExpr(d, Patched(d5, [position], target), e, result, a + [copy, jump'] + b + [last], Skip(end, 1, 0), fs');
  }

  lemma JumpIfTarget(condition: Register, onTrue: bool, target: nat)
    ensures IsJump(JumpIf(condition, onTrue, 0))
    ensures WithTarget(JumpIf(condition, onTrue, 0), target) == JumpIf(condition, onTrue, target)
  {
  }
}
