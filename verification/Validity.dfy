/** Lowered streams always pass the checks of the IR validator on registers, jump targets,
    function indices, map pairs and struct fields.  Constants, names and bindings sit in the
    instructions themselves here, so the validator's checks of the constant pool, the name
    table and the binding table have no counterpart.
 */
module Validity {
  import opened Wrappers
  import opened Runtime
  import opened Ast
  import opened IR
  import opened Lowering
  import opened FunctionTables
  import opened CodeEquations
  import opened PatternSimulation
  import opened BackPatching

  /** The registers an instruction mentions. */
  function Registers(i: Instr): seq<Register> {
    match i
    case Compute(dest, _, arguments) => [dest] + arguments
    case MakeFunction(dest, _) => [dest]
    case Copy(dest, source) => [dest, source]
    case LoadVar(dest, _) => [dest]
    case StoreVar(_, source) => [source]
    case AssignVar(_, source) => [source]
    case PrintValue(source) => [source]
    case ReturnValue(source) => [source]
    case Jump(_) => []
    case JumpIf(condition, _, _) => [condition]
  }

  predicate Below(rs: seq<Register>, limit: nat) {
    forall r :: r in rs ==> r < limit
  }

  /** The validator's checks of one instruction, without those of the constant, name and binding tables. */
  predicate InstrValid(i: Instr, registers: nat, length: nat, functions: nat) {
    && Below(Registers(i), registers)
    && (IsJump(i) ==> i.target <= length)
    && (i.MakeFunction? ==> i.functionIndex < functions)
    && (i.Compute? ==> OperandsFit(i.prim, |i.arguments|))
  }

  predicate StreamValid(code: seq<Instr>, registers: nat, length: nat, functions: nat) {
    forall i :: 0 <= i < |code| ==> InstrValid(code[i], registers, length, functions)
  }

  lemma ValidConcat(a: seq<Instr>, b: seq<Instr>, registers: nat, length: nat, functions: nat)
    requires StreamValid(a, registers, length, functions) && StreamValid(b, registers, length, functions)
    ensures StreamValid(a + b, registers, length, functions)
  {
    hide InstrValid;
  }

  lemma ValidMore(code: seq<Instr>, registers: nat, length: nat, functions: nat, more: nat)
    requires StreamValid(code, registers, length, functions) && registers <= more
    ensures StreamValid(code, more, length, functions)
  {
    forall i | 0 <= i < |code| ensures InstrValid(code[i], more, length, functions) {
      assert InstrValid(code[i], registers, length, functions);
    }
  }

  lemma ValidOne(i: Instr, registers: nat, length: nat, functions: nat)
    requires InstrValid(i, registers, length, functions)
    ensures StreamValid([i], registers, length, functions)
  {
  }

  /** A tail of one or two instructions. */
  lemma ValidThen(code: seq<Instr>, before: nat, i: Instr, registers: nat, length: nat, functions: nat)
    requires StreamValid(code, before, length, functions) && before <= registers
    requires InstrValid(i, registers, length, functions)
    ensures StreamValid(code + [i], registers, length, functions)
  {
    hide InstrValid, StreamValid;
    ValidMore(code, before, length, functions, registers);
    ValidOne(i, registers, length, functions);
    ValidConcat(code, [i], registers, length, functions);
  }

  lemma ValidJoin(a: seq<Instr>, before: nat, b: seq<Instr>, registers: nat, length: nat, functions: nat)
    requires StreamValid(a, before, length, functions) && before <= registers
    requires StreamValid(b, registers, length, functions)
    ensures StreamValid(a + b, registers, length, functions)
  {
    hide InstrValid, StreamValid;
    ValidMore(a, before, length, functions, registers);
    ValidConcat(a, b, registers, length, functions);
  }

  // -------------------------------------------------------------------- patterns

  lemma {:induction false} MergeValid(
    bs: Bound, merged: seq<string>, base: Register, registers: nat, length: nat, functions: nat
  )
    requires forall i :: 0 <= i < |bs| ==> bs[i].0 in merged && bs[i].1 < registers
    requires base + |merged| <= registers
    ensures StreamValid(MergeCode(bs, merged, base), registers, length, functions)
    decreases |bs|
  {
    if bs != [] {
      IndexOfMember(merged, bs[0].0);
      MergeValid(bs[1..], merged, base, registers, length, functions);
      var copy := Copy(base + IndexOf(merged, bs[0].0), bs[0].1);
      ValidOne(copy, registers, length, functions);
      ValidConcat([copy], MergeCode(bs[1..], merged, base), registers, length, functions);
    }
  }

  lemma {:induction false} StoresValid(bs: Bound, registers: nat, length: nat, functions: nat)
    requires forall i :: 0 <= i < |bs| ==> bs[i].1 < registers
    ensures StreamValid(StoreBindings(bs), registers, length, functions)
    decreases |bs|
  {
    if bs != [] {
      StoresValid(bs[1..], registers, length, functions);
      ValidOne(StoreVar(User(bs[0].0), bs[0].1), registers, length, functions);
      ValidConcat([StoreVar(User(bs[0].0), bs[0].1)], StoreBindings(bs[1..]), registers, length, functions);
    }
  }

  lemma {:induction false} PatternValid(p: Pattern, v: Register, at: Place, fail: nat, length: nat, functions: nat)
    requires PatternOk(p) && v < at.regs && fail <= length && PatternEnd(p, at).code <= length
    ensures StreamValid(PatternCode(p, v, at, fail), PatternEnd(p, at).regs, length, functions)
    decreases p, 1
  {
    match p
    case Wildcard =>
    case Bind(_) =>
    case LiteralPattern(c) =>
      var r := at.regs + 2;
      ValidOne(Compute(at.regs, Constant(c), []), r, length, functions);
      ValidThen([Compute(at.regs, Constant(c), [])], r, Compute(at.regs + 1, Equal, [v, at.regs]), r, length, functions);
      ValidThen([Compute(at.regs, Constant(c), [])] + [Compute(at.regs + 1, Equal, [v, at.regs])], r,
                JumpIf(at.regs + 1, false, fail), r, length, functions);
      assert PatternCode(p, v, at, fail)
          == [Compute(at.regs, Constant(c), [])] + [Compute(at.regs + 1, Equal, [v, at.regs])]
             + [JumpIf(at.regs + 1, false, fail)];
    case RecordPattern(parts) => ComponentsValid(parts, v, at, fail, length, functions);
    case VariantPattern(e, n, parts) =>
      var at1 := Skip(at, 2, 1);
      ComponentsValid(parts, v, at1, fail, length, functions);
      var tag, jump := Compute(at.regs, VariantTag(e, n), [v]), JumpIf(at.regs, false, fail);
      ValidOne(tag, at1.regs, length, functions);
      ValidThen([tag], at1.regs, jump, at1.regs, length, functions);
      ValidJoin([tag] + [jump], at1.regs, ComponentsCode(parts, v, at1, fail), ComponentsEnd(parts, at1).regs, length, functions);
      assert [tag] + [jump] == [tag, jump];
    case OrPattern(_, _) => OrValid(p, v, at, fail, length, functions);
  }

  lemma {:induction false} ComponentsValid(
    parts: List<Component>, v: Register, at: Place, fail: nat, length: nat, functions: nat
  )
    requires ComponentsOk(parts) && v < at.regs && fail <= length && ComponentsEnd(parts, at).code <= length
    ensures StreamValid(ComponentsCode(parts, v, at, fail), ComponentsEnd(parts, at).regs, length, functions)
    decreases parts, 0
  {
    match parts
    case Empty =>
    case Cons(part, rest) =>
      var at1 := Skip(at, 1, 1);
      var at2 := PatternEnd(part.pattern, at1);
      var end := ComponentsEnd(rest, at2);
      PatternValid(part.pattern, at.regs, at1, fail, length, functions);
      ComponentsValid(rest, v, at2, fail, length, functions);
      var select := Compute(at.regs, SelectorPrim(part.selector), [v]);
      ValidOne(select, at1.regs, length, functions);
      ValidJoin([select], at1.regs, PatternCode(part.pattern, at.regs, at1, fail), at2.regs, length, functions);
      ValidJoin([select] + PatternCode(part.pattern, at.regs, at1, fail), at2.regs, ComponentsCode(rest, v, at2, fail),
                end.regs, length, functions);
  }

  /** An alternative with its merge copies and exit jump. */
  lemma AlternativeValid(
    other: Pattern, v: Register, at: Place, fail: nat, merged: seq<string>, base: Register, rest: List<Pattern>, end: nat,
    registers: nat, length: nat, functions: nat
  )
    requires StreamValid(PatternCode(other, v, at, fail), PatternEnd(other, at).regs, length, functions)
    requires v < at.regs && (forall n :: n in PatternNames(other) ==> n in merged) && end <= length
    requires PatternEnd(other, at).regs <= registers && base + |merged| <= registers
    ensures StreamValid(PatternCode(other, v, at, fail) + MergeCode(PatternBindings(other, v, at), merged, base)
                        + ExitJump(rest, end), registers, length, functions)
  {
    hide PatternEnd, PatternCode, MergeCode, PatternBindings, PatternNames, StreamValid;
    BindingsFit(other, v, at);
    var bs := PatternBindings(other, v, at);
    forall i | 0 <= i < |bs| ensures bs[i].0 in merged && bs[i].1 < registers {
      assert PatternNames(other)[i] in PatternNames(other);
    }
    MergeValid(bs, merged, base, registers, length, functions);
    ValidJoin(PatternCode(other, v, at, fail), PatternEnd(other, at).regs, MergeCode(bs, merged, base), registers, length,
              functions);
    ExitValid(rest, end, registers, length, functions);
    ValidConcat(PatternCode(other, v, at, fail) + MergeCode(bs, merged, base), ExitJump(rest, end), registers, length,
                functions);
  }

  lemma ExitValid(rest: List<Pattern>, end: nat, registers: nat, length: nat, functions: nat)
    requires end <= length
    ensures StreamValid(ExitJump(rest, end), registers, length, functions)
  {
  }

  lemma {:induction false} OrValid(p: Pattern, v: Register, at: Place, fail: nat, length: nat, functions: nat)
    requires p.OrPattern? && PatternOk(p) && v < at.regs && fail <= length && PatternEnd(p, at).code <= length
    ensures StreamValid(PatternCode(p, v, at, fail), PatternEnd(p, at).regs, length, functions)
    decreases p, 0
  {
    hide PatternCode, MergeCode, PatternBindings, AlternativesCode, StreamValid, PatternNames;
    var names, base, next := PatternNames(p.first), PatternEnd(p.first, at).regs, OrNext(p, at);
    var end := AlternativesEnd(p.others, next);
    OrParts(p, v, at, fail);
    PatternValid(p.first, v, at, NextOr(p.others, next, fail), length, functions);
    AlternativeValid(p.first, v, at, NextOr(p.others, next, fail), names, base, p.others, end.code, next.regs, length,
                     functions);
    AlternativesValid(p.others, names, base, v, next, fail, end.code, length, functions);
    ValidJoin(PatternCode(p.first, v, at, NextOr(p.others, next, fail))
              + MergeCode(PatternBindings(p.first, v, at), names, base) + ExitJump(p.others, end.code), next.regs,
              AlternativesCode(p.others, names, base, v, next, fail, end.code), end.regs, length, functions);
  }

  lemma {:induction false} AlternativesValid(
    others: List<Pattern>, names: seq<string>, base: Register, v: Register, at: Place, fail: nat, end: nat,
    length: nat, functions: nat
  )
    requires AlternativesOk(others, names) && v < at.regs && base + |names| <= at.regs
    requires fail <= length && end <= length && AlternativesEnd(others, at).code <= length
    ensures StreamValid(AlternativesCode(others, names, base, v, at, fail, end), AlternativesEnd(others, at).regs, length,
                        functions)
    decreases others, 0
  {
    match others
    case Empty =>
    case Cons(other, rest) =>
      hide PatternCode, MergeCode, PatternBindings, AlternativesCode, StreamValid;
      var next := AlternativeNext(other, rest, at);
      AlternativesParts(others, names, base, v, at, fail, end);
      PatternValid(other, v, at, NextOr(rest, next, fail), length, functions);
      AlternativeValid(other, v, at, NextOr(rest, next, fail), names, base, rest, end, next.regs, length, functions);
      AlternativesValid(rest, names, base, v, next, fail, end, length, functions);
      ValidJoin(PatternCode(other, v, at, NextOr(rest, next, fail))
                + MergeCode(PatternBindings(other, v, at), names, base) + ExitJump(rest, end), next.regs,
                AlternativesCode(rest, names, base, v, next, fail, end), AlternativesEnd(rest, next).regs, length, functions);
  }

  // ----------------------------------------------------------------- expressions

  predicate TableValid(fs: seq<FunctionBody>, functions: nat) {
    forall i :: 0 <= i < |fs| ==> StreamValid(fs[i].code, fs[i].registerCount, |fs[i].code|, functions)
  }

  lemma TableConcat(a: seq<FunctionBody>, b: seq<FunctionBody>, functions: nat)
    requires TableValid(a, functions) && TableValid(b, functions)
    ensures TableValid(a + b, functions)
  {
    hide StreamValid;
  }

  /** The code of an expression is valid up to its end, and so are the functions in it. */
  predicate ExprFits(e: Expr, at: Place, length: nat, functions: nat) {
    && StreamValid(ExprCode(e, at), ExprEnd(e, at).regs, length, functions)
    && TableValid(ExprFunctions(e, at), functions)
  }

  lemma ExprFitsIs(e: Expr, at: Place, length: nat, functions: nat)
    ensures ExprFits(e, at, length, functions)
        <==> && StreamValid(ExprCode(e, at), ExprEnd(e, at).regs, length, functions)
             && TableValid(ExprFunctions(e, at), functions)
  {
    hide StreamValid, TableValid;
  }

  lemma ComputeValid(dest: Register, prim: Prim, arguments: seq<Register>, registers: nat, length: nat, functions: nat)
    requires dest < registers && Below(arguments, registers) && OperandsFit(prim, |arguments|)
    ensures InstrValid(Compute(dest, prim, arguments), registers, length, functions)
  {
  }

  lemma {:induction false} ExprValid(e: Expr, at: Place, length: nat, functions: nat)
    requires ExprOk(e) && ExprEnd(e, at).code <= length && ExprEnd(e, at).fns <= functions
    ensures ExprFits(e, at, length, functions)
    decreases e, 1
  {
    match e
    case Literal(_) =>
    case Variable(_) =>
    case Assign(_, _) => AssignValid(e, at, length, functions);
    case CompoundAssign(_, _, _) => VariableCompoundValid(e, at, length, functions);
    case IndexCompoundAssign(_, _, _, _) => IndexCompoundValid(e, at, length, functions);
    case FieldCompoundAssign(_, _, _, _) => FieldCompoundValid(e, at, length, functions);
    case Grouping(inner) =>
      ExprValid(inner, at, length, functions);
    case Operation(_, _) => OperationValid(e, at, length, functions);
    case Logical(_, _, _) => LogicalValid(e, at, length, functions);
    case MatchExpr(_, _) => MatchExprValid(e, at, length, functions);
    case Lambda(_) => LambdaValid(e, at, length, functions);
  }

  lemma {:induction false} AssignValid(e: Expr, at: Place, length: nat, functions: nat)
    requires e.Assign? && ExprOk(e) && ExprEnd(e, at).code <= length && ExprEnd(e, at).fns <= functions
    ensures ExprFits(e, at, length, functions)
    decreases e, 0
  {
    hide StreamValid, TableValid, ExprCode, ExprFunctions, ExprFits;
    AssignParts(e, at);
    ExprValid(e.value, at, length, functions);
    ExprFitsIs(e.value, at, length, functions);
    ExprFitsIs(e, at, length, functions);
    var end := ExprEnd(e.value, at);
    ValidThen(ExprCode(e.value, at), end.regs, AssignVar(User(e.name), ResultOf(e.value, at)), end.regs, length, functions);
  }

  lemma {:induction false} CompoundValid(
    op: ArithmeticOp, role: string, old': Register, value: Expr, at: Place, length: nat, functions: nat
  )
    requires ExprOk(value) && old' < at.regs && CompoundEnd(value, at).code <= length && CompoundEnd(value, at).fns <= functions
    ensures StreamValid(CompoundCode(op, role, old', value, at), CompoundEnd(value, at).regs, length, functions)
    ensures TableValid(ExprFunctions(value, Skip(at, 1, 1)), functions)
    decreases value, 2
  {
    hide StreamValid, TableValid, ExprCode, ExprFunctions, ExprFits, CompoundCode, CompoundMessage;
    var at1, end := Skip(at, 1, 1), CompoundEnd(value, at);
    var end1 := ExprEnd(value, at1);
    CompoundParts(op, role, old', value, at);
    ExprValid(value, at1, length, functions);
    ExprFitsIs(value, at1, length, functions);
    var first := Compute(at.regs, AssertNumber(CompoundMessage(op, role)), [old']);
    var check := Compute(end1.regs, AssertNumber(CompoundMessage(op, "value")), [ResultOf(value, at1)]);
    var last := Compute(end1.regs + 1, Arithmetic(op), [at.regs, end1.regs]);
    ValidOne(first, at1.regs, length, functions);
    ValidJoin([first], at1.regs, ExprCode(value, at1), end1.regs, length, functions);
    ValidThen([first] + ExprCode(value, at1), end1.regs, check, end.regs, length, functions);
    ValidThen([first] + ExprCode(value, at1) + [check], end.regs, last, end.regs, length, functions);
    assert [first] + ExprCode(value, at1) + [check] + [last] == [first] + ExprCode(value, at1) + [check, last];
  }

  lemma {:induction false} VariableCompoundValid(e: Expr, at: Place, length: nat, functions: nat)
    requires e.CompoundAssign? && ExprOk(e) && ExprEnd(e, at).code <= length && ExprEnd(e, at).fns <= functions
    ensures ExprFits(e, at, length, functions)
    decreases e, 0
  {
    hide StreamValid, TableValid, ExprCode, ExprFunctions, ExprFits, CompoundCode, CompoundEnd;
    VariableCompoundParts(e, at);
    var at1 := Skip(at, 1, 1);
    var end, load := CompoundEnd(e.value, at1), LoadVar(at.regs, User(e.name));
    CompoundValid(e.op, "variable", at.regs, e.value, at1, length, functions);
    ValidOne(load, at1.regs, length, functions);
    var code := CompoundCode(e.op, "variable", at.regs, e.value, at1);
    ValidJoin([load], at1.regs, code, end.regs, length, functions);
    ValidThen([load] + code, end.regs, AssignVar(User(e.name), ResultOf(e, at)), end.regs, length, functions);
    ExprFitsIs(e, at, length, functions);
  }

  lemma {:induction false} IndexCompoundValid(e: Expr, at: Place, length: nat, functions: nat)
    requires e.IndexCompoundAssign? && ExprOk(e) && ExprEnd(e, at).code <= length && ExprEnd(e, at).fns <= functions
    ensures ExprFits(e, at, length, functions)
    decreases e, 0
  {
    hide StreamValid, TableValid, ExprCode, ExprFunctions, ExprFits, CompoundCode, CompoundEnd, ExprEnd;
    IndexCompoundParts(e, at);
    var at1 := ExprEnd(e.collection, at);
    var at2 := ExprEnd(e.index, at1);
    var at3 := Skip(at2, 1, 1);
    var end := CompoundEnd(e.value, at3);
    var c, i, result := ResultOf(e.collection, at), ResultOf(e.index, at1), ResultOf(e, at);
    ExprValid(e.collection, at, length, functions);
    ExprFitsIs(e.collection, at, length, functions);
    ExprValid(e.index, at1, length, functions);
    ExprFitsIs(e.index, at1, length, functions);
    CompoundValid(e.op, "target", at2.regs, e.value, at3, length, functions);
    var code := ExprCode(e.collection, at) + ExprCode(e.index, at1);
    var read, write := Compute(at2.regs, Index, [c, i]), Compute(result + 1, AssignIndex, [c, i, result]);
    var compound := CompoundCode(e.op, "target", at2.regs, e.value, at3);
    ValidJoin(ExprCode(e.collection, at), at1.regs, ExprCode(e.index, at1), at2.regs, length, functions);
    ValidThen(code, at2.regs, read, at3.regs, length, functions);
    ValidJoin(code + [read], at3.regs, compound, end.regs, length, functions);
    ValidThen(code + [read] + compound, end.regs, write, end.regs + 1, length, functions);
    TableConcat(ExprFunctions(e.collection, at), ExprFunctions(e.index, at1), functions);
    TableConcat(ExprFunctions(e.collection, at) + ExprFunctions(e.index, at1), ExprFunctions(e.value, Skip(at3, 1, 1)),
                functions);
    ExprFitsIs(e, at, length, functions);
  }

  lemma {:induction false} FieldCompoundValid(e: Expr, at: Place, length: nat, functions: nat)
    requires e.FieldCompoundAssign? && ExprOk(e) && ExprEnd(e, at).code <= length && ExprEnd(e, at).fns <= functions
    ensures ExprFits(e, at, length, functions)
    decreases e, 0
  {
    hide StreamValid, TableValid, ExprCode, ExprFunctions, ExprFits, CompoundCode, CompoundEnd, ExprEnd;
    FieldCompoundParts(e, at);
    var at1 := ExprEnd(e.target, at);
    var at3 := Skip(at1, 1, 1);
    var end := CompoundEnd(e.value, at3);
    var o, result, code := ResultOf(e.target, at), ResultOf(e, at), ExprCode(e.target, at);
    ExprValid(e.target, at, length, functions);
    ExprFitsIs(e.target, at, length, functions);
    CompoundValid(e.op, "target", at1.regs, e.value, at3, length, functions);
    var read, write := Compute(at1.regs, Field(e.field), [o]), Compute(result + 1, AssignField(e.field), [o, result]);
    var compound := CompoundCode(e.op, "target", at1.regs, e.value, at3);
    ValidThen(code, at1.regs, read, at3.regs, length, functions);
    ValidJoin(code + [read], at3.regs, compound, end.regs, length, functions);
    ValidThen(code + [read] + compound, end.regs, write, end.regs + 1, length, functions);
    TableConcat(ExprFunctions(e.target, at), ExprFunctions(e.value, Skip(at3, 1, 1)), functions);
    ExprFitsIs(e, at, length, functions);
  }

  lemma {:induction false} OperandsValid(es: List<Expr>, at: Place, length: nat, functions: nat)
    requires ExprsOk(es) && OperandsEnd(es, at).code <= length && OperandsEnd(es, at).fns <= functions
    ensures StreamValid(OperandsCode(es, at), OperandsEnd(es, at).regs, length, functions)
    ensures TableValid(OperandsFunctions(es, at), functions) && Below(ResultsOf(es, at), OperandsEnd(es, at).regs)
    decreases es, 0
  {
    match es
    case Empty =>
    case Cons(e, rest) =>
      hide StreamValid, TableValid, ExprCode, ExprFunctions, ExprFits, OperandsCode, OperandsFunctions;
      var at1 := ExprEnd(e, at);
      OperandsParts(es, at);
      ExprValid(e, at, length, functions);
      ExprFitsIs(e, at, length, functions);
      OperandsValid(rest, at1, length, functions);
      ValidJoin(ExprCode(e, at), at1.regs, OperandsCode(rest, at1), OperandsEnd(rest, at1).regs, length, functions);
      TableConcat(ExprFunctions(e, at), OperandsFunctions(rest, at1), functions);
  }

  lemma {:induction false} OperationValid(e: Expr, at: Place, length: nat, functions: nat)
    requires e.Operation? && ExprOk(e) && ExprEnd(e, at).code <= length && ExprEnd(e, at).fns <= functions
    ensures ExprFits(e, at, length, functions)
    decreases e, 0
  {
    hide StreamValid, TableValid, ExprCode, ExprFunctions, ExprFits, OperandsCode, OperandsFunctions;
    OperationParts(e, at);
    OperandsValid(e.operands, at, length, functions);
    var end := OperandsEnd(e.operands, at);
    var args := ResultsOf(e.operands, at);
    ComputeValid(end.regs, e.prim, args, end.regs + 1, length, functions);
    ValidThen(OperandsCode(e.operands, at), end.regs, Compute(end.regs, e.prim, args), end.regs + 1, length, functions);
    ExprFitsIs(e, at, length, functions);
  }

  lemma {:induction false} LogicalValid(e: Expr, at: Place, length: nat, functions: nat)
    requires e.Logical? && ExprOk(e) && ExprEnd(e, at).code <= length && ExprEnd(e, at).fns <= functions
    ensures ExprFits(e, at, length, functions)
    decreases e, 0
  {
    hide StreamValid, TableValid, ExprCode, ExprFunctions, ExprFits, ExprEnd;
    LogicalParts(e, at);
    var at1 := ExprEnd(e.left, at);
    var at2 := Skip(at1, 2, 1);
    var end, result, left, right := ExprEnd(e.right, at2), at1.regs, ExprCode(e.left, at), ExprCode(e.right, at2);
    ExprValid(e.left, at, length, functions);
    ExprFitsIs(e.left, at, length, functions);
    ExprValid(e.right, at2, length, functions);
    ExprFitsIs(e.right, at2, length, functions);
    var copy, jump := Copy(result, ResultOf(e.left, at)), JumpIf(result, e.isOr, ExprEnd(e, at).code);
    ValidThen(left, at1.regs, copy, at2.regs, length, functions);
    ValidThen(left + [copy], at2.regs, jump, at2.regs, length, functions);
    ValidJoin(left + [copy] + [jump], at2.regs, right, end.regs, length, functions);
    ValidThen(left + [copy] + [jump] + right, end.regs, Copy(result, ResultOf(e.right, at2)), end.regs, length, functions);
    assert left + [copy] + [jump] + right + [Copy(result, ResultOf(e.right, at2))]
        == left + [copy, jump] + right + [Copy(result, ResultOf(e.right, at2))];
    TableConcat(ExprFunctions(e.left, at), ExprFunctions(e.right, at2), functions);
    ExprFitsIs(e, at, length, functions);
  }

  lemma {:induction false} GuardValid(guard: Option<Expr>, at: Place, fail: nat, length: nat, functions: nat)
    requires GuardOk(guard) && fail <= length
    requires GuardEnd(guard, at).code <= length && GuardEnd(guard, at).fns <= functions
    ensures StreamValid(GuardCode(guard, at, fail), GuardEnd(guard, at).regs, length, functions)
    ensures TableValid(GuardFunctions(guard, at), functions)
    decreases guard, 0
  {
    match guard
    case None =>
    case Some(g) =>
      hide StreamValid, TableValid, ExprCode, ExprFunctions, ExprFits;
      ExprValid(g, at, length, functions);
      ExprFitsIs(g, at, length, functions);
      var end := ExprEnd(g, at);
      ValidThen(ExprCode(g, at), end.regs, JumpIf(ResultOf(g, at), false, fail), end.regs, length, functions);
  }

  /** An arm test is valid up to the arm's body. */
  lemma {:induction false} TestValid(
    pattern: Pattern, guard: Option<Expr>, v: Register, at: Place, fail: nat, length: nat, functions: nat
  )
    requires PatternOk(pattern) && GuardOk(guard) && v < at.regs && fail <= length
    requires
      var end := GuardEnd(guard, GuardPlace(pattern, at));
      end.code <= length && end.fns <= functions
    ensures
      var at1 := GuardPlace(pattern, at);
      var end := GuardEnd(guard, at1);
      && StreamValid(BindCode(pattern, v, at, fail) + GuardCode(guard, at1, fail), end.regs, length, functions)
      && TableValid(GuardFunctions(guard, at1), functions)
    decreases guard, 1
  {
    hide StreamValid, TableValid, PatternCode, PatternBindings, StoreBindings, PatternEnd, BindCode, GuardCode,
      GuardFunctions, GuardEnd, GuardOk;
    var at1 := GuardPlace(pattern, at);
    var bs := PatternBindings(pattern, v, at);
    PatternValid(pattern, v, at, fail, length, functions);
    BindingsFit(pattern, v, at);
    StoresValid(bs, at1.regs, length, functions);
    BindCodeIs(pattern, v, at, fail);
    ValidConcat(PatternCode(pattern, v, at, fail), StoreBindings(bs), at1.regs, length, functions);
    GuardValid(guard, at1, fail, length, functions);
    ValidJoin(BindCode(pattern, v, at, fail), at1.regs, GuardCode(guard, at1, fail), GuardEnd(guard, at1).regs, length,
              functions);
  }

  lemma BindCodeIs(pattern: Pattern, v: Register, at: Place, fail: nat)
    ensures BindCode(pattern, v, at, fail)
         == PatternCode(pattern, v, at, fail) + StoreBindings(PatternBindings(pattern, v, at))
  {
    hide PatternCode, StoreBindings, PatternBindings;
  }

  lemma NoExprArms(
    arms: List<ExprArm>, v: Register, result: Register, at: Place, end: nat, length: nat, functions: nat
  )
    requires arms.Empty?
    ensures StreamValid(ExprArmsCode(arms, v, result, at, end), ExprArmsEnd(arms, at).regs, length, functions)
    ensures TableValid(ExprArmsFunctions(arms, at), functions)
  {
  }

  lemma {:induction false} ExprArmsValid(
    arms: List<ExprArm>, v: Register, result: Register, at: Place, end: nat, length: nat, functions: nat
  )
    requires ExprArmsOk(arms) && v < at.regs && result < at.regs && end <= length
    requires ExprArmsEnd(arms, at).code <= length && ExprArmsEnd(arms, at).fns <= functions
    ensures StreamValid(ExprArmsCode(arms, v, result, at, end), ExprArmsEnd(arms, at).regs, length, functions)
    ensures TableValid(ExprArmsFunctions(arms, at), functions)
    decreases arms, 0
  {
    hide StreamValid, TableValid, ExprCode, ExprFunctions, ExprFits, ExprArmsCode, ExprArmsFunctions, BindCode, GuardCode,
      GuardFunctions, ExprEnd, GuardPlace, GuardEnd, GuardOk;
    match arms
    case Empty => NoExprArms(arms, v, result, at, end, length, functions);
    case Cons(arm, rest) =>
      var at1 := GuardPlace(arm.pattern, at);
      var at2 := GuardEnd(arm.guard, at1);
      var done := ExprEnd(arm.value, at2);
      var next, last := Skip(done, 2, 0), ExprArmsEnd(arms, at);
      ExprArmsParts(arms, v, result, at, end);
      TestValid(arm.pattern, arm.guard, v, at, next.code, length, functions);
      ExprValid(arm.value, at2, length, functions);
      ExprFitsIs(arm.value, at2, length, functions);
      ExprArmsValid(rest, v, result, next, end, length, functions);
      var test := BindCode(arm.pattern, v, at, next.code) + GuardCode(arm.guard, at1, next.code);
      var copy, leave := Copy(result, ResultOf(arm.value, at2)), Jump(end);
      ValidJoin(test, at2.regs, ExprCode(arm.value, at2), done.regs, length, functions);
      ValidThen(test + ExprCode(arm.value, at2), done.regs, copy, done.regs, length, functions);
      ValidThen(test + ExprCode(arm.value, at2) + [copy], done.regs, leave, done.regs, length, functions);
      assert test + ExprCode(arm.value, at2) + [copy] + [leave] == test + ExprCode(arm.value, at2) + [copy, leave];
      ValidJoin(test + ExprCode(arm.value, at2) + [copy, leave], done.regs, ExprArmsCode(rest, v, result, next, end),
                last.regs, length, functions);
      TableConcat(GuardFunctions(arm.guard, at1), ExprFunctions(arm.value, at2), functions);
      TableConcat(GuardFunctions(arm.guard, at1) + ExprFunctions(arm.value, at2), ExprArmsFunctions(rest, next), functions);
  }

  lemma {:induction false} MatchExprValid(e: Expr, at: Place, length: nat, functions: nat)
    requires e.MatchExpr? && ExprOk(e) && ExprEnd(e, at).code <= length && ExprEnd(e, at).fns <= functions
    ensures ExprFits(e, at, length, functions)
    decreases e, 0
  {
    hide StreamValid, TableValid, ExprCode, ExprFunctions, ExprFits, ExprArmsCode, ExprArmsFunctions;
    MatchExprParts(e, at);
    var end1 := ExprEnd(e.scrutinee, at);
    var at1 := Skip(end1, 0, 1);
    var v, result, end := ResultOf(e.scrutinee, at), end1.regs, ExprArmsEnd(e.arms, at1);
    ExprValid(e.scrutinee, at, length, functions);
    ExprFitsIs(e.scrutinee, at, length, functions);
    ExprArmsValid(e.arms, v, result, at1, end.code, length, functions);
    ValidJoin(ExprCode(e.scrutinee, at), end1.regs, ExprArmsCode(e.arms, v, result, at1, end.code), end.regs, length,
              functions);
    TableConcat(ExprFunctions(e.scrutinee, at), ExprArmsFunctions(e.arms, at1), functions);
    ExprFitsIs(e, at, length, functions);
  }

  // ------------------------------------------------------------------- functions

  lemma {:induction false} FunctionValid(f: FunctionDef, at: Place, functions: nat)
    requires StmtsOk(f.body, false) && FunctionEnd(f, at).fns <= functions
    ensures TableValid(FunctionTable(f, at), functions)
    decreases f, 0
  {
    hide StreamValid, TableValid, StmtsCode, StmtsFunctions, StmtsFit;
    var start, end := Inner(at), StmtsEnd(f.body, Inner(at));
    var length := end.code + 2;
    StmtsValid(f.body, start, NoLoop, length, functions);
    StmtsFitIs(f.body, start, NoLoop, length, functions);
    var load, leave := Compute(end.regs, Constant(Nil), []), ReturnValue(end.regs);
    ValidThen(StmtsCode(f.body, start, NoLoop), end.regs, load, end.regs + 1, length, functions);
    ValidThen(StmtsCode(f.body, start, NoLoop) + [load], end.regs + 1, leave, end.regs + 1, length, functions);
    var code := StmtsCode(f.body, start, NoLoop) + [load] + [leave];
    assert BodyCode(f.body, at) == code;
    var body := FunctionBody(f.functionLabel, f.parameters, code, end.regs + 1);
    OneFunction(body, functions);
    TableConcat(StmtsFunctions(f.body, start), [body], functions);
  }

  lemma OneFunction(body: FunctionBody, functions: nat)
    requires StreamValid(body.code, body.registerCount, |body.code|, functions)
    ensures TableValid([body], functions)
  {
    hide StreamValid;
  }

  lemma {:induction false} LambdaValid(e: Expr, at: Place, length: nat, functions: nat)
    requires e.Lambda? && ExprOk(e) && ExprEnd(e, at).code <= length && ExprEnd(e, at).fns <= functions
    ensures ExprFits(e, at, length, functions)
    decreases e, 0
  {
    hide TableValid, FunctionTable, StmtsEnd;
    FunctionValid(e.def, Skip(at, 1, 1), functions);
    assert Inner(Skip(at, 1, 1)) == Inner(at);
    ValidOne(MakeFunction(at.regs, StmtsEnd(e.def.body, Inner(at)).fns), ExprEnd(e, at).regs, length, functions);
  }

  // ------------------------------------------------------------------ statements

  predicate TargetsFit(loop: Targets, length: nat) {
    BreakTarget(loop) <= length && ContinueTarget(loop) <= length
  }

  predicate StmtFits(s: Stmt, at: Place, loop: Targets, length: nat, functions: nat) {
    && StreamValid(StmtCode(s, at, loop), StmtEnd(s, at).regs, length, functions)
    && TableValid(StmtFunctions(s, at), functions)
  }

  lemma StmtFitsIs(s: Stmt, at: Place, loop: Targets, length: nat, functions: nat)
    ensures StmtFits(s, at, loop, length, functions)
        <==> && StreamValid(StmtCode(s, at, loop), StmtEnd(s, at).regs, length, functions)
             && TableValid(StmtFunctions(s, at), functions)
  {
    hide StreamValid, TableValid;
  }

  predicate StmtsFit(ss: List<Stmt>, at: Place, loop: Targets, length: nat, functions: nat) {
    && StreamValid(StmtsCode(ss, at, loop), StmtsEnd(ss, at).regs, length, functions)
    && TableValid(StmtsFunctions(ss, at), functions)
  }

  lemma StmtsFitIs(ss: List<Stmt>, at: Place, loop: Targets, length: nat, functions: nat)
    ensures StmtsFit(ss, at, loop, length, functions)
        <==> && StreamValid(StmtsCode(ss, at, loop), StmtsEnd(ss, at).regs, length, functions)
             && TableValid(StmtsFunctions(ss, at), functions)
  {
    hide StreamValid, TableValid;
  }

  lemma {:induction false} StmtsValid(ss: List<Stmt>, at: Place, loop: Targets, length: nat, functions: nat)
    requires StmtsOk(ss, loop.Loop?) && TargetsFit(loop, length)
    requires StmtsEnd(ss, at).code <= length && StmtsEnd(ss, at).fns <= functions
    ensures StmtsFit(ss, at, loop, length, functions)
    decreases ss, 0
  {
    match ss
    case Empty =>
    case Cons(s, rest) =>
      hide StreamValid, TableValid, StmtCode, StmtFunctions, StmtFits, StmtsCode, StmtsFunctions, StmtsFit, TargetsFit;
      var at1 := StmtEnd(s, at);
      StmtsCodeParts(ss, at, loop);
      StmtValid(s, at, loop, length, functions);
      StmtFitsIs(s, at, loop, length, functions);
      StmtsValid(rest, at1, loop, length, functions);
      StmtsFitIs(rest, at1, loop, length, functions);
      ValidJoin(StmtCode(s, at, loop), at1.regs, StmtsCode(rest, at1, loop), StmtsEnd(rest, at1).regs, length, functions);
      TableConcat(StmtFunctions(s, at), StmtsFunctions(rest, at1), functions);
      StmtsFitIs(ss, at, loop, length, functions);
  }

  lemma {:induction false} StmtValid(s: Stmt, at: Place, loop: Targets, length: nat, functions: nat)
    requires StmtOk(s, loop.Loop?) && TargetsFit(loop, length)
    requires StmtEnd(s, at).code <= length && StmtEnd(s, at).fns <= functions
    ensures StmtFits(s, at, loop, length, functions)
    decreases s, 2
  {
    hide StmtFits;
    match s
    case Let(_, _) => OneExprValid(s, at, loop, length, functions);
    case Print(_) => OneExprValid(s, at, loop, length, functions);
    case Evaluate(_) => BareExprValid(s, at, loop, length, functions);
    case Return(_) =>
      if s.result.Some? {
        OneExprValid(s, at, loop, length, functions);
      } else {
        LeafValid(s, at, loop, length, functions);
      }
    case Break => LeafValid(s, at, loop, length, functions);
    case Continue => LeafValid(s, at, loop, length, functions);
    case Block(_) => BlockValid(s, at, loop, length, functions);
    case If(_, _, _) => IfValid(s, at, loop, length, functions);
    case While(_, _) => WhileValid(s, at, loop, length, functions);
    case For(_, _, _, _) => ForStmtValid(s, at, loop, length, functions);
    case ForIn(_, _, _) => ForInValid(s, at, loop, length, functions);
    case Match(_, _) => MatchValid(s, at, loop, length, functions);
    case Function(_, _) => FunctionStmtValid(s, at, loop, length, functions);
  }

  lemma {:induction false} BareExprValid(s: Stmt, at: Place, loop: Targets, length: nat, functions: nat)
    requires s.Evaluate? && StmtOk(s, loop.Loop?) && StmtEnd(s, at).code <= length && StmtEnd(s, at).fns <= functions
    ensures StmtFits(s, at, loop, length, functions)
    decreases s, 1
  {
    hide StreamValid, TableValid, ExprCode, ExprFunctions;
    ExprValid(s.value, at, length, functions);
  }

  lemma LeafValid(s: Stmt, at: Place, loop: Targets, length: nat, functions: nat)
    requires s.Break? || s.Continue? || s == Return(None)
    requires TargetsFit(loop, length) && StmtEnd(s, at).code <= length
    ensures StmtFits(s, at, loop, length, functions)
  {
  }

  lemma {:induction false} BlockValid(s: Stmt, at: Place, loop: Targets, length: nat, functions: nat)
    requires s.Block? && StmtOk(s, loop.Loop?) && TargetsFit(loop, length)
    requires StmtEnd(s, at).code <= length && StmtEnd(s, at).fns <= functions
    ensures StmtFits(s, at, loop, length, functions)
    decreases s, 1
  {
    hide StreamValid, TableValid, StmtsCode, StmtsFunctions;
    StmtsValid(s.body, at, loop, length, functions);
  }

  lemma {:induction false} FunctionStmtValid(s: Stmt, at: Place, loop: Targets, length: nat, functions: nat)
    requires s.Function? && StmtOk(s, loop.Loop?) && StmtEnd(s, at).code <= length && StmtEnd(s, at).fns <= functions
    ensures StmtFits(s, at, loop, length, functions)
    decreases s, 1
  {
    hide TableValid, StmtsEnd;
    FunctionValid(s.def, Skip(at, 2, 1), functions);
  }

  lemma {:induction false} OneExprValid(s: Stmt, at: Place, loop: Targets, length: nat, functions: nat)
    requires s.Let? || s.Print? || (s.Return? && s.result.Some?)
    requires StmtOk(s, loop.Loop?) && StmtEnd(s, at).code <= length && StmtEnd(s, at).fns <= functions
    ensures StmtFits(s, at, loop, length, functions)
    decreases s, 1
  {
    hide StreamValid, TableValid, ExprCode, ExprFunctions, ExprFits, StmtFits;
    var e := match s case Let(_, e) => e case Print(e) => e case Return(r) => r.value;
    var r, end := ResultOf(e, at), ExprEnd(e, at);
    var last := match s case Let(name, _) => StoreVar(User(name), r) case Print(_) => PrintValue(r) case Return(_) => ReturnValue(r);
    ExprValid(e, at, length, functions);
    ExprFitsIs(e, at, length, functions);
    ValidThen(ExprCode(e, at), end.regs, last, end.regs, length, functions);
    StmtFitsIs(s, at, loop, length, functions);
  }

  lemma {:induction false} InitValid(init: Option<Stmt>, at: Place, loop: Targets, length: nat, functions: nat)
    requires (init.Some? ==> StmtOk(init.value, loop.Loop?)) && TargetsFit(loop, length)
    requires InitEnd(init, at).code <= length && InitEnd(init, at).fns <= functions
    ensures StreamValid(InitCode(init, at, loop), InitEnd(init, at).regs, length, functions)
    ensures TableValid(InitFunctions(init, at), functions)
    decreases init, 0
  {
    match init
    case None =>
    case Some(s) =>
      hide StmtFits, StmtCode, StmtFunctions, StreamValid, TableValid;
      StmtValid(s, at, loop, length, functions);
      StmtFitsIs(s, at, loop, length, functions);
  }

  lemma {:induction false} IncrementValid(increment: Option<Expr>, at: Place, length: nat, functions: nat)
    requires GuardOk(increment) && IncrementEnd(increment, at).code <= length && IncrementEnd(increment, at).fns <= functions
    ensures StreamValid(IncrementCode(increment, at), IncrementEnd(increment, at).regs, length, functions)
    ensures TableValid(IncrementFunctions(increment, at), functions)
    decreases increment, 0
  {
    match increment
    case None =>
    case Some(e) =>
      hide ExprFits, ExprCode, ExprFunctions, StreamValid, TableValid;
      ExprValid(e, at, length, functions);
      ExprFitsIs(e, at, length, functions);
  }

  lemma LeaveValid(s: Stmt, at: Place, registers: nat, length: nat, functions: nat)
    requires s.If? && StmtEnd(s, at).code <= length
    ensures StreamValid(LeaveThen(s, at), registers, length, functions)
  {
    hide StmtEnd;
  }

  lemma {:induction false} IfValid(s: Stmt, at: Place, loop: Targets, length: nat, functions: nat)
    requires s.If? && StmtOk(s, loop.Loop?) && TargetsFit(loop, length)
    requires StmtEnd(s, at).code <= length && StmtEnd(s, at).fns <= functions
    ensures StmtFits(s, at, loop, length, functions)
    decreases s, 1
  {
    hide StreamValid, TableValid, ExprCode, ExprFunctions, ExprFits, StmtFits, StmtCode, StmtFunctions, StmtEnd, InitCode,
      InitFunctions, InitEnd, ElsePlace, LeaveThen, TargetsFit, ExprEnd;
    var test, at1, at3 := ExprEnd(s.condition, at), Skip(ExprEnd(s.condition, at), 1, 0), ElsePlace(s, at);
    var at2, end := StmtEnd(s.thenBranch, at1), InitEnd(s.elseBranch, at3);
    IfPlaces(s, at);
    IfCodeParts(s, at, loop);
    IfFunctionParts(s, at);
    IfRegisters(s, at);
    ExprValid(s.condition, at, length, functions);
    ExprFitsIs(s.condition, at, length, functions);
    StmtValid(s.thenBranch, at1, loop, length, functions);
    StmtFitsIs(s.thenBranch, at1, loop, length, functions);
    InitValid(s.elseBranch, at3, loop, length, functions);
    LeaveValid(s, at, end.regs, length, functions);
    var jump := JumpIf(ResultOf(s.condition, at), false, at3.code);
    var code := ExprCode(s.condition, at) + [jump];
    ValidThen(ExprCode(s.condition, at), test.regs, jump, test.regs, length, functions);
    ValidJoin(code, test.regs, StmtCode(s.thenBranch, at1, loop), at2.regs, length, functions);
    code := code + StmtCode(s.thenBranch, at1, loop);
    ValidJoin(code, at2.regs, LeaveThen(s, at), end.regs, length, functions);
    ValidJoin(code + LeaveThen(s, at), end.regs, InitCode(s.elseBranch, at3, loop), end.regs, length, functions);
    TableConcat(ExprFunctions(s.condition, at), StmtFunctions(s.thenBranch, at1), functions);
    TableConcat(ExprFunctions(s.condition, at) + StmtFunctions(s.thenBranch, at1), InitFunctions(s.elseBranch, at3), functions);
    StmtFitsIs(s, at, loop, length, functions);
  }

  lemma IfRegisters(s: Stmt, at: Place)
    requires s.If?
    ensures ElsePlace(s, at).regs == StmtEnd(s.thenBranch, Skip(ExprEnd(s.condition, at), 1, 0)).regs
    ensures Skip(ExprEnd(s.condition, at), 1, 0).regs == ExprEnd(s.condition, at).regs
  {
    hide StmtEnd, ExprEnd;
  }

  lemma {:induction false} WhileValid(s: Stmt, at: Place, loop: Targets, length: nat, functions: nat)
    requires s.While? && StmtOk(s, loop.Loop?) && StmtEnd(s, at).code <= length && StmtEnd(s, at).fns <= functions
    ensures StmtFits(s, at, loop, length, functions)
    decreases s, 1
  {
    hide StreamValid, TableValid, ExprCode, ExprFunctions, ExprFits, StmtFits, StmtCode, StmtFunctions, ExprEnd;
    var test, at1, end := ExprEnd(s.condition, at), Skip(ExprEnd(s.condition, at), 1, 0), StmtEnd(s, at).code;
    var inner, last := Loop(at.code, end), StmtEnd(s.loopBody, at1);
    WhileCodeParts(s, at, loop);
    ExprValid(s.condition, at, length, functions);
    ExprFitsIs(s.condition, at, length, functions);
    StmtValid(s.loopBody, at1, inner, length, functions);
    StmtFitsIs(s.loopBody, at1, inner, length, functions);
    var jump := JumpIf(ResultOf(s.condition, at), false, end);
    ValidThen(ExprCode(s.condition, at), test.regs, jump, test.regs, length, functions);
    ValidJoin(ExprCode(s.condition, at) + [jump], test.regs, StmtCode(s.loopBody, at1, inner), last.regs, length, functions);
    ValidThen(ExprCode(s.condition, at) + [jump] + StmtCode(s.loopBody, at1, inner), last.regs, Jump(at.code), last.regs,
              length, functions);
    TableConcat(ExprFunctions(s.condition, at), StmtFunctions(s.loopBody, at1), functions);
    StmtFitsIs(s, at, loop, length, functions);
  }

  lemma {:induction false} ForStmtValid(s: Stmt, at: Place, loop: Targets, length: nat, functions: nat)
    requires s.For? && StmtOk(s, loop.Loop?) && TargetsFit(loop, length)
    requires StmtEnd(s, at).code <= length && StmtEnd(s, at).fns <= functions
    ensures StmtFits(s, at, loop, length, functions)
    decreases s, 1
  {
    hide StreamValid, TableValid, StmtFits, StmtCode, StmtFunctions, StmtEnd, InitCode, InitFunctions, InitEnd, LoopEnd,
      LoopFunctions, ForCode, TargetsFit;
    var start := InitEnd(s.init, at);
    ForStmtParts(s, at, loop);
    InitValid(s.init, at, loop, length, functions);
    ForLoopValid(s, start, loop.Loop?, length, functions);
    ValidJoin(InitCode(s.init, at, loop), start.regs, ForCode(s, start), LoopEnd(s, start).regs, length, functions);
    TableConcat(InitFunctions(s.init, at), LoopFunctions(s, start), functions);
    StmtFitsIs(s, at, loop, length, functions);
  }

  lemma ForRegisters(s: Stmt, start: Place)
    requires s.For?
    ensures
      var at1 := IncrementPlace(s.test, start);
      var at2 := Skip(IncrementEnd(s.increment, at1), 1, 0);
      && at1.regs == GuardEnd(s.test, start).regs && at2.regs == IncrementEnd(s.increment, at1).regs
      && LoopEnd(s, start).regs == StmtEnd(s.loopBody, at2).regs && LoopEnd(s, start).fns == StmtEnd(s.loopBody, at2).fns
  {
    hide GuardEnd, IncrementEnd, StmtEnd;
  }

  /** The part of a `for` after its initializer. */
  lemma {:induction false} ForLoopValid(s: Stmt, start: Place, inLoop: bool, length: nat, functions: nat)
    requires s.For? && StmtOk(s, inLoop) && LoopEnd(s, start).code <= length && LoopEnd(s, start).fns <= functions
    ensures StreamValid(ForCode(s, start), LoopEnd(s, start).regs, length, functions)
    ensures TableValid(LoopFunctions(s, start), functions)
    decreases s, 0
  {
    hide StreamValid, TableValid, StmtFits, StmtCode, StmtFunctions, StmtEnd, GuardCode, GuardFunctions, GuardEnd,
      IncrementCode, IncrementFunctions, IncrementEnd, IncrementPlace, LoopEnd, LoopFunctions, ForCode;
    var test, at1 := GuardEnd(s.test, start), IncrementPlace(s.test, start);
    var increment, end := IncrementEnd(s.increment, at1), LoopEnd(s, start);
    var at2 := Skip(increment, 1, 0);
    var inner, last := Loop(at1.code, end.code), StmtEnd(s.loopBody, at2);
    ForPlaces(s, start);
    ForCodeParts(s, start);
    ForRegisters(s, start);
    GuardValid(s.test, start, end.code, length, functions);
    IncrementValid(s.increment, at1, length, functions);
    StmtValid(s.loopBody, at2, inner, length, functions);
    StmtFitsIs(s.loopBody, at2, inner, length, functions);
    var code := GuardCode(s.test, start, end.code);
    ValidThen(code, test.regs, Jump(at2.code), test.regs, length, functions);
    code := code + [Jump(at2.code)];
    ValidJoin(code, test.regs, IncrementCode(s.increment, at1), increment.regs, length, functions);
    code := code + IncrementCode(s.increment, at1);
    ValidThen(code, increment.regs, Jump(start.code), increment.regs, length, functions);
    code := code + [Jump(start.code)];
    ValidJoin(code, increment.regs, StmtCode(s.loopBody, at2, inner), last.regs, length, functions);
    ValidThen(code + StmtCode(s.loopBody, at2, inner), last.regs, Jump(at1.code), last.regs, length, functions);
    var table := GuardFunctions(s.test, start);
    TableConcat(table, IncrementFunctions(s.increment, at1), functions);
    TableConcat(table + IncrementFunctions(s.increment, at1), StmtFunctions(s.loopBody, at2), functions);
  }

  /** The fixed parts of a `for-in`: set-up, test and increment. */
  lemma ForInSetupValid(at: Place, item: string, iterable: Register, r: Register, length: nat, functions: nat)
    requires iterable < r
    ensures StreamValid(ForInSetup(at, item, iterable, r), r + 14, length, functions)
  {
  }

  lemma ForInTestValid(at: Place, item: string, r: Register, start: nat, end: nat, length: nat, functions: nat)
    requires start + 14 <= length && end <= length
    ensures StreamValid(ForInTest(at, item, start, r + 5, end), r + 14, length, functions)
  {
  }

  lemma ForInIncrementValid(at: Place, r: Register, start: nat, length: nat, functions: nat)
    requires start + 14 <= length
    ensures StreamValid(ForInIncrement(at, start, r + 11), r + 14, length, functions)
  {
  }

  lemma {:induction false} ForInValid(s: Stmt, at: Place, loop: Targets, length: nat, functions: nat)
    requires s.ForIn? && StmtOk(s, loop.Loop?) && StmtEnd(s, at).code <= length && StmtEnd(s, at).fns <= functions
    ensures StmtFits(s, at, loop, length, functions)
    decreases s, 1
  {
    hide StreamValid, TableValid, ExprCode, ExprFunctions, ExprFits, StmtFits, StmtCode, StmtFunctions, ExprEnd, ForInSetup,
      ForInTest, ForInIncrement;
    var at0, at2 := at.(syns := at.syns + 3), BodyPlace(s, at);
    var at1, end := ExprEnd(s.iterable, at0), StmtEnd(s, at).code;
    var start, r, v := at1.code + 9, at1.regs, ResultOf(s.iterable, at0);
    var inner, last := Loop(start + 9, end), StmtEnd(s.loopBody, at2);
    ForInCodeParts(s, at, loop);
    ExprValid(s.iterable, at0, length, functions);
    ExprFitsIs(s.iterable, at0, length, functions);
    StmtValid(s.loopBody, at2, inner, length, functions);
    StmtFitsIs(s.loopBody, at2, inner, length, functions);
    ForInSetupValid(at, s.item, v, r, length, functions);
    ForInTestValid(at, s.item, r, start, end, length, functions);
    ForInIncrementValid(at, r, start, length, functions);
    var code := ExprCode(s.iterable, at0);
    ValidJoin(code, r, ForInSetup(at, s.item, v, r), r + 14, length, functions);
    code := code + ForInSetup(at, s.item, v, r);
    ValidConcat(code, ForInTest(at, s.item, start, r + 5, end), r + 14, length, functions);
    code := code + ForInTest(at, s.item, start, r + 5, end);
    ValidConcat(code, ForInIncrement(at, start, r + 11), r + 14, length, functions);
    code := code + ForInIncrement(at, start, r + 11);
    ValidJoin(code, r + 14, StmtCode(s.loopBody, at2, inner), last.regs, length, functions);
    ValidThen(code + StmtCode(s.loopBody, at2, inner), last.regs, Jump(start + 9), last.regs, length, functions);
    TableConcat(ExprFunctions(s.iterable, at0), StmtFunctions(s.loopBody, at2), functions);
    StmtFitsIs(s, at, loop, length, functions);
  }

  lemma {:induction false} StmtArmsValid(
    arms: List<StmtArm>, v: Register, at: Place, loop: Targets, end: nat, length: nat, functions: nat
  )
    requires StmtArmsOk(arms, loop.Loop?) && TargetsFit(loop, length) && v < at.regs && end <= length
    requires StmtArmsEnd(arms, at).code <= length && StmtArmsEnd(arms, at).fns <= functions
    ensures StreamValid(StmtArmsCode(arms, v, at, loop, end), StmtArmsEnd(arms, at).regs, length, functions)
    ensures TableValid(StmtArmsFunctions(arms, at), functions)
    decreases arms, 0
  {
    match arms
    case Empty =>
    case Cons(arm, rest) =>
      hide StreamValid, TableValid, StmtCode, StmtFunctions, StmtFits, StmtArmsCode, StmtArmsFunctions, BindCode, GuardCode,
        GuardFunctions, TargetsFit;
      var at1 := GuardPlace(arm.pattern, at);
      var at2 := GuardEnd(arm.guard, at1);
      var done := StmtEnd(arm.body, at2);
      var next, last := Skip(done, 1, 0), StmtArmsEnd(arms, at);
      StmtArmsParts(arms, v, at, loop, end);
      TestValid(arm.pattern, arm.guard, v, at, next.code, length, functions);
      StmtValid(arm.body, at2, loop, length, functions);
      StmtFitsIs(arm.body, at2, loop, length, functions);
      StmtArmsValid(rest, v, next, loop, end, length, functions);
      var code := BindCode(arm.pattern, v, at, next.code) + GuardCode(arm.guard, at1, next.code);
      ValidJoin(code, at2.regs, StmtCode(arm.body, at2, loop), done.regs, length, functions);
      code := code + StmtCode(arm.body, at2, loop);
      ValidThen(code, done.regs, Jump(end), done.regs, length, functions);
      ValidJoin(code + [Jump(end)], done.regs, StmtArmsCode(rest, v, next, loop, end), last.regs, length, functions);
      TableConcat(GuardFunctions(arm.guard, at1), StmtFunctions(arm.body, at2), functions);
      TableConcat(GuardFunctions(arm.guard, at1) + StmtFunctions(arm.body, at2), StmtArmsFunctions(rest, next), functions);
  }

  lemma {:induction false} MatchValid(s: Stmt, at: Place, loop: Targets, length: nat, functions: nat)
    requires s.Match? && StmtOk(s, loop.Loop?) && TargetsFit(loop, length)
    requires StmtEnd(s, at).code <= length && StmtEnd(s, at).fns <= functions
    ensures StmtFits(s, at, loop, length, functions)
    decreases s, 1
  {
    hide StreamValid, TableValid, ExprCode, ExprFunctions, ExprFits, StmtFits, StmtCode, StmtFunctions, StmtEnd, ExprEnd,
      StmtArmsCode, StmtArmsFunctions, StmtArmsEnd, TargetsFit;
    var at1, v, end := ExprEnd(s.scrutinee, at), ResultOf(s.scrutinee, at), StmtEnd(s, at);
    MatchStmtParts(s, at, loop);
    ExprValid(s.scrutinee, at, length, functions);
    ExprFitsIs(s.scrutinee, at, length, functions);
    StmtArmsValid(s.arms, v, at1, loop, end.code, length, functions);
    ValidJoin(ExprCode(s.scrutinee, at), at1.regs, StmtArmsCode(s.arms, v, at1, loop, end.code), end.regs, length, functions);
    TableConcat(ExprFunctions(s.scrutinee, at), StmtArmsFunctions(s.arms, at1), functions);
    StmtFitsIs(s, at, loop, length, functions);
  }

  // ------------------------------------------------------------------- programs

  method RegistersBelow(rs: seq<Register>, limit: nat) returns (ok: bool)
    ensures ok == Below(rs, limit)
  {
    for k := 0 to |rs|
      invariant forall j :: 0 <= j < k ==> rs[j] < limit
    {
      if rs[k] >= limit {
        assert rs[k] in rs;
        return false;
      }
    }
    return true;
  }

  /** The validator's pass over one stream. */
  method ValidateStream(code: seq<Instr>, registers: nat, functions: nat) returns (ok: bool)
    ensures ok == StreamValid(code, registers, |code|, functions)
  {
    for index := 0 to |code|
      invariant forall i :: 0 <= i < index ==> InstrValid(code[i], registers, |code|, functions)
    {
      var instruction := code[index];
      var below := RegistersBelow(Registers(instruction), registers);
      if !below {
        return false;
      }
      if instruction.MakeFunction? && instruction.functionIndex >= functions {
        return false;
      }
      if instruction.Compute? && !OperandsFit(instruction.prim, |instruction.arguments|) {
        return false;
      }
      if IsJump(instruction) && instruction.target > |code| {
        return false;
      }
    }
    return true;
  }

  /** A whole program as the IR validator takes it, without the three tables: `registers` is the register count of the main stream. */
  predicate ProgramValid(p: Program, registers: nat) {
    && StreamValid(p.code, registers, |p.code|, |p.functions|)
    && TableValid(p.functions, |p.functions|)
  }

  /** Rebuilding a program accepts exactly the valid streams with dependency offsets inside the main stream. */
  method ValidateProgram(p: Program, registers: nat, offsets: seq<nat>) returns (ok: bool)
    ensures ok == (ProgramValid(p, registers) && forall k :: 0 <= k < |offsets| ==> offsets[k] <= |p.code|)
  {
    hide StreamValid;
    ok := ValidateStream(p.code, registers, |p.functions|);
    if !ok {
      return;
    }
    for index := 0 to |p.functions|
      invariant forall i :: 0 <= i < index ==>
        StreamValid(p.functions[i].code, p.functions[i].registerCount, |p.functions[i].code|, |p.functions|)
    {
      ok := ValidateStream(p.functions[index].code, p.functions[index].registerCount, |p.functions|);
      if !ok {
        return;
      }
    }
    for k := 0 to |offsets|
      invariant forall j :: 0 <= j < k ==> offsets[j] <= |p.code|
    {
      if offsets[k] > |p.code| {
        return false;
      }
    }
    return true;
  }

  /** Every program the checker accepts lowers to IR that passes these checks. */
  lemma LoweredValid(program: List<Stmt>)
    requires StmtsOk(program, false)
    ensures ProgramValid(Lower(program), StmtsEnd(program, Start).regs)
  {
    hide StreamValid, TableValid, StmtsCode, StmtsFunctions, StmtsFit, StmtsEnd;
    var end := StmtsEnd(program, Start);
    StmtsValid(program, Start, NoLoop, end.code, end.fns);
    StmtsFitIs(program, Start, NoLoop, end.code, end.fns);
  }

  // ------------------------------------------------------------ what validity is good for

  /** The two register files hold the same below the limit. */
  predicate AgreeBelow(a: map<Register, Value>, b: map<Register, Value>, limit: nat) {
    forall r :: 0 <= r < limit ==> (r in a <==> r in b) && (r in a ==> a[r] == b[r])
  }

  /** The two register files hold the same from the limit on. */
  ghost predicate AgreeFrom(a: map<Register, Value>, b: map<Register, Value>, limit: nat) {
    forall r :: r >= limit ==> (r in a <==> r in b) && (r in a ==> a[r] == b[r])
  }

  /** States that differ at most in registers from the limit on. */
  predicate SameButAbove(m: State, n: State, limit: nat) {
    if m.Running? && n.Running? then
      m.pc == n.pc && m.hidden == n.hidden && m.world == n.world && AgreeBelow(m.regs, n.regs, limit)
    else m == n
  }

  lemma ReadsAgree(a: map<Register, Value>, b: map<Register, Value>, rs: seq<Register>, limit: nat)
    requires AgreeBelow(a, b, limit) && Below(rs, limit)
    ensures ReadsReady(a, rs) <==> ReadsReady(b, rs)
    ensures ReadsReady(a, rs) ==> ReadAll(a, rs) == ReadAll(b, rs)
  {
    assert forall r :: r in rs ==> (r in a <==> r in b);
    if ReadsReady(a, rs) {
      assert forall i :: 0 <= i < |rs| ==> rs[i] in rs && ReadAll(a, rs)[i] == ReadAll(b, rs)[i];
    }
  }

  lemma ReadAgrees(a: map<Register, Value>, b: map<Register, Value>, r: Register, limit: nat)
    requires AgreeBelow(a, b, limit) && r < limit
    ensures (r in a <==> r in b) && (r in a ==> a[r] == b[r])
  {
  }

  lemma WriteAgrees(a: map<Register, Value>, b: map<Register, Value>, r: Register, v: Value, limit: nat)
    requires AgreeBelow(a, b, limit) && r < limit
    ensures AgreeBelow(a[r := v], b[r := v], limit) && AgreeFrom(a, a[r := v], limit)
  {
  }

  lemma FinishInside(m: State, n: State, dest: Register, effect: Effect, limit: nat)
    requires m.Running? && n.Running? && SameButAbove(m, n, limit) && dest < limit
    ensures SameButAbove(Finish(m, dest, effect), Finish(n, dest, effect), limit)
    ensures Finish(m, dest, effect).Running? ==> AgreeFrom(m.regs, Finish(m, dest, effect).regs, limit)
  {
    hide AgreeBelow, AgreeFrom;
    if effect.Done? {
      WriteAgrees(m.regs, n.regs, dest, effect.value, limit);
    }
  }

  lemma AgreeSame(a: map<Register, Value>, limit: nat)
    ensures AgreeFrom(a, a, limit)
  {
  }

  /** A step of an accepted stream neither reads nor writes a register at or above the count, and stays
      in the stream or leaves at its end. */
  lemma StepInside(rt: Runtime, p: Program, m: State, n: State, limit: nat)
    requires StreamValid(p.code, limit, |p.code|, |p.functions|)
    requires m.Running? && n.Running? && m.pc < |p.code| && SameButAbove(m, n, limit)
    ensures SameButAbove(Step(rt, p, m), Step(rt, p, n), limit)
    ensures
      var m' := Step(rt, p, m);
      m'.Running? ==> m'.pc <= |p.code| && AgreeFrom(m.regs, m'.regs, limit)
  {
    hide Apply, AgreeBelow, AgreeFrom, ReadsReady;
    var i := p.code[m.pc];
    assert InstrValid(i, limit, |p.code|, |p.functions|);
    AgreeSame(m.regs, limit);
    match i
    case Compute(dest, prim, arguments) =>
      assert dest in Registers(i) && forall r :: r in arguments ==> r in Registers(i);
      ReadsAgree(m.regs, n.regs, arguments, limit);
      if ReadsReady(m.regs, arguments) {
        FinishInside(m, n, dest, Apply(rt, prim, ReadAll(m.regs, arguments), m.world), limit);
      }
    case MakeFunction(dest, index) =>
      assert dest in Registers(i);
      var f := p.functions[index];
      FinishInside(m, n, dest, Apply(rt, MakeClosure(f.functionLabel, f.parameters), [], m.world), limit);
    case Copy(dest, source) =>
      assert dest in Registers(i) && source in Registers(i);
      ReadAgrees(m.regs, n.regs, source, limit);
      if source in m.regs {
        WriteAgrees(m.regs, n.regs, dest, m.regs[source], limit);
      }
    case LoadVar(dest, x) =>
      assert dest in Registers(i);
      FinishInside(m, n, dest, LoadVariable(m, x), limit);
    case StoreVar(_, source) => SourceAgrees(m, n, i, source, limit);
    case AssignVar(_, source) => SourceAgrees(m, n, i, source, limit);
    case PrintValue(source) => SourceAgrees(m, n, i, source, limit);
    case ReturnValue(source) => SourceAgrees(m, n, i, source, limit);
    case Jump(_) =>
    case JumpIf(condition, _, _) => SourceAgrees(m, n, i, condition, limit);
  }

  lemma SourceAgrees(m: State, n: State, i: Instr, source: Register, limit: nat)
    requires m.Running? && n.Running? && AgreeBelow(m.regs, n.regs, limit)
    requires Below(Registers(i), limit) && [source] == Registers(i)
    ensures (source in m.regs <==> source in n.regs) && (source in m.regs ==> m.regs[source] == n.regs[source])
  {
    assert source in Registers(i);
    ReadAgrees(m.regs, n.regs, source, limit);
  }

  /** So whole runs of an accepted stream do not depend on the registers at or above the count, and
      leave them alone. */
  lemma {:induction false} RunInside(rt: Runtime, p: Program, m: State, n: State, limit: nat, k: nat)
    requires StreamValid(p.code, limit, |p.code|, |p.functions|)
    requires m.Running? && m.pc <= |p.code| && SameButAbove(m, n, limit)
    ensures SameButAbove(Steps(rt, p, m, k), Steps(rt, p, n, k), limit)
    ensures
      var m' := Steps(rt, p, m, k);
      m'.Running? ==> m'.pc <= |p.code| && AgreeFrom(m.regs, m'.regs, limit)
    decreases k
  {
    hide Step, StreamValid, AgreeBelow;
    if m.pc == |p.code| {
      HaltedStays(rt, p, m, k);
      HaltedStays(rt, p, n, k);
    } else if k > 0 {
      StepInside(rt, p, m, n, limit);
      var m', n' := Step(rt, p, m), Step(rt, p, n);
      if m'.Running? && n'.Running? {
        RunInside(rt, p, m', n', limit, k - 1);
      } else {
        assert m' == n';
        HaltedSame(rt, p, m', k - 1);
      }
    }
  }

  lemma HaltedSame(rt: Runtime, p: Program, m: State, k: nat)
    requires !m.Running?
    ensures Steps(rt, p, m, k) == m
  {
    HaltedStays(rt, p, m, k);
  }
}
