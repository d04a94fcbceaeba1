/** The definitions of the emitted code and of the function table, unfolded once per
    syntactic form, for proofs that keep the definitions folded.
 */
module CodeEquations {
  import opened Wrappers
  import opened Runtime
  import opened Ast
  import opened IR
  import opened Lowering
  import opened FunctionTables

  lemma ComponentsParts(parts: List<Component>, v: Register, at: Place, fail: nat)
    requires parts.Cons?
    ensures
      var at1 := Skip(at, 1, 1);
      var at2 := PatternEnd(parts.head.pattern, at1);
      && at1.code == at.code + 1
      && ComponentsCode(parts, v, at, fail)
         == [Compute(at.regs, SelectorPrim(parts.head.selector), [v])]
            + PatternCode(parts.head.pattern, at.regs, at1, fail) + ComponentsCode(parts.tail, v, at2, fail)
  {
    hide PatternCode, PatternEnd;
  }

  lemma OrParts(pattern: Pattern, v: Register, at: Place, fail: nat)
    requires pattern.OrPattern?
    ensures
      var next, names := OrNext(pattern, at), PatternNames(pattern.first);
      var base, end := PatternEnd(pattern.first, at).regs, AlternativesEnd(pattern.others, next).code;
      PatternCode(pattern, v, at, fail)
      == PatternCode(pattern.first, v, at, NextOr(pattern.others, next, fail))
         + MergeCode(PatternBindings(pattern.first, v, at), names, base)
         + ExitJump(pattern.others, end)
         + AlternativesCode(pattern.others, names, base, v, next, fail, end)
  {
    hide MergeCode, ExitJump, AlternativesCode, PatternBindings, OrNext, PatternNames, PatternEnd, AlternativesEnd;
    assert PatternCode(pattern, v, at, fail) == OrCode(pattern, v, at, fail);
  }

  lemma AlternativesParts(
    others: List<Pattern>, names: seq<string>, base: Register, v: Register, at: Place, fail: nat, end: nat
  )
    requires others.Cons?
    ensures
      var other, rest := others.head, others.tail;
      var next := AlternativeNext(other, rest, at);
      && next.code == PatternEnd(other, at).code + |PatternNames(other)| + JumpOut(rest)
      && AlternativesCode(others, names, base, v, at, fail, end)
         == PatternCode(other, v, at, NextOr(rest, next, fail))
            + MergeCode(PatternBindings(other, v, at), names, base)
            + ExitJump(rest, end)
            + AlternativesCode(rest, names, base, v, next, fail, end)
  {
  }

  lemma CompoundParts(op: ArithmeticOp, role: string, old': Register, value: Expr, at: Place)
    ensures
      var at1 := Skip(at, 1, 1);
      var end := ExprEnd(value, at1);
      && at1.code == at.code + 1
      && CompoundCode(op, role, old', value, at)
         == [Compute(at.regs, AssertNumber(CompoundMessage(op, role)), [old'])]
            + ExprCode(value, at1)
            + [Compute(end.regs, AssertNumber(CompoundMessage(op, "value")), [ResultOf(value, at1)]),
               Compute(end.regs + 1, Arithmetic(op), [at.regs, end.regs])]
  {
    hide ExprCode, ExprEnd, CompoundMessage, ResultOf;
  }

  lemma VariableCompoundParts(e: Expr, at: Place)
    requires e.CompoundAssign?
    ensures
      var at1 := Skip(at, 1, 1);
      var end := CompoundEnd(e.value, at1);
      && at1.code == at.code + 1 && at1.fns == at.fns && at1.regs == at.regs + 1
      && ResultOf(e, at) == end.regs - 1
      && ExprEnd(e, at) == Skip(end, 1, 0)
      && ExprCode(e, at)
         == [LoadVar(at.regs, User(e.name))] + CompoundCode(e.op, "variable", at.regs, e.value, at1)
            + [AssignVar(User(e.name), ResultOf(e, at))]
      && ExprFunctions(e, at) == ExprFunctions(e.value, Skip(at1, 1, 1))
  {
    hide CompoundCode, CompoundEnd;
    assert ExprCode(e, at) == VariableCompoundCode(e, at);
    assert Skip(Skip(at, 1, 1), 1, 1) == Skip(at, 2, 2);
  }

  lemma IndexCompoundParts(e: Expr, at: Place)
    requires e.IndexCompoundAssign?
    ensures
      var at1 := ExprEnd(e.collection, at);
      var at2 := ExprEnd(e.index, at1);
      var at3 := Skip(at2, 1, 1);
      var c, i, result := ResultOf(e.collection, at), ResultOf(e.index, at1), ResultOf(e, at);
      && at3.code == at2.code + 1 && at3.fns == at2.fns && at3.regs == at2.regs + 1
      && result == CompoundEnd(e.value, at3).regs - 1
      && ExprEnd(e, at) == Skip(CompoundEnd(e.value, at3), 1, 1)
      && ExprCode(e, at)
         == ExprCode(e.collection, at) + ExprCode(e.index, at1) + [Compute(at2.regs, Index, [c, i])]
            + CompoundCode(e.op, "target", at2.regs, e.value, at3) + [Compute(result + 1, AssignIndex, [c, i, result])]
      && ExprFunctions(e, at)
         == ExprFunctions(e.collection, at) + ExprFunctions(e.index, at1) + ExprFunctions(e.value, Skip(at3, 1, 1))
  {
    hide CompoundCode, CompoundEnd, ExprEnd;
    var at2 := ExprEnd(e.index, ExprEnd(e.collection, at));
    assert Skip(Skip(at2, 1, 1), 1, 1) == Skip(at2, 2, 2);
    assert ExprCode(e, at) == IndexCompoundCode(e, at);
    assert ExprFunctions(e, at) == IndexCompoundFunctions(e, at);
    CompoundResults(e, at);
  }

  lemma FieldCompoundParts(e: Expr, at: Place)
    requires e.FieldCompoundAssign?
    ensures
      var at1 := ExprEnd(e.target, at);
      var at3 := Skip(at1, 1, 1);
      var o, result := ResultOf(e.target, at), ResultOf(e, at);
      && at3.code == at1.code + 1 && at3.fns == at1.fns && at3.regs == at1.regs + 1
      && result == CompoundEnd(e.value, at3).regs - 1
      && ExprEnd(e, at) == Skip(CompoundEnd(e.value, at3), 1, 1)
      && ExprCode(e, at)
         == ExprCode(e.target, at) + [Compute(at1.regs, Field(e.field), [o])]
            + CompoundCode(e.op, "target", at1.regs, e.value, at3) + [Compute(result + 1, AssignField(e.field), [o, result])]
      && ExprFunctions(e, at) == ExprFunctions(e.target, at) + ExprFunctions(e.value, Skip(at3, 1, 1))
  {
    hide CompoundCode, CompoundEnd, ExprEnd;
    var at1 := ExprEnd(e.target, at);
    assert Skip(Skip(at1, 1, 1), 1, 1) == Skip(at1, 2, 2);
    assert ExprCode(e, at) == FieldCompoundCode(e, at);
    assert ExprFunctions(e, at) == FieldCompoundFunctions(e, at);
    CompoundResults(e, at);
  }

  lemma CompoundResults(e: Expr, at: Place)
    ensures e.IndexCompoundAssign? ==>
      var end := CompoundEnd(e.value, Skip(ExprEnd(e.index, ExprEnd(e.collection, at)), 1, 1));
      ResultOf(e, at) == end.regs - 1 && ExprEnd(e, at) == Skip(end, 1, 1)
    ensures e.FieldCompoundAssign? ==>
      var end := CompoundEnd(e.value, Skip(ExprEnd(e.target, at), 1, 1));
      ResultOf(e, at) == end.regs - 1 && ExprEnd(e, at) == Skip(end, 1, 1)
  {
    hide CompoundEnd;
  }

  lemma OperationParts(e: Expr, at: Place)
    requires e.Operation?
    ensures
      var end := OperandsEnd(e.operands, at);
      && ResultOf(e, at) == end.regs && ExprEnd(e, at) == Skip(end, 1, 1)
      && ExprCode(e, at) == OperandsCode(e.operands, at) + [Compute(end.regs, e.prim, ResultsOf(e.operands, at))]
      && ExprFunctions(e, at) == OperandsFunctions(e.operands, at)
  {
    hide OperandsCode, OperandsEnd, ResultsOf, OperandsFunctions;
  }

  lemma LogicalParts(e: Expr, at: Place)
    requires e.Logical?
    ensures
      var at1 := ExprEnd(e.left, at);
      var at2 := Skip(at1, 2, 1);
      && at2.code == at1.code + 2 && at2.fns == at1.fns && at2.regs == at1.regs + 1
      && ResultOf(e, at) == at1.regs && ExprEnd(e, at) == Skip(ExprEnd(e.right, at2), 1, 0)
      && ExprCode(e, at)
         == ExprCode(e.left, at) + [Copy(at1.regs, ResultOf(e.left, at)), JumpIf(at1.regs, e.isOr, ExprEnd(e, at).code)]
            + ExprCode(e.right, at2) + [Copy(at1.regs, ResultOf(e.right, at2))]
      && ExprFunctions(e, at) == ExprFunctions(e.left, at) + ExprFunctions(e.right, at2)
  {
    assert ExprCode(e, at) == LogicalCode(e, at);
    assert ExprFunctions(e, at) == LogicalFunctions(e, at);
  }

  lemma MatchExprParts(e: Expr, at: Place)
    requires e.MatchExpr?
    ensures
      var v, result := ResultOf(e.scrutinee, at), ExprEnd(e.scrutinee, at).regs;
      var at1 := Skip(ExprEnd(e.scrutinee, at), 0, 1);
      && at1.code == ExprEnd(e.scrutinee, at).code && at1.fns == ExprEnd(e.scrutinee, at).fns && at1.regs == result + 1
      && ResultOf(e, at) == result && ExprEnd(e, at) == ExprArmsEnd(e.arms, at1)
      && ExprCode(e, at)
         == ExprCode(e.scrutinee, at) + ExprArmsCode(e.arms, v, result, at1, ExprArmsEnd(e.arms, at1).code)
      && ExprFunctions(e, at) == ExprFunctions(e.scrutinee, at) + ExprArmsFunctions(e.arms, at1)
  {
    hide ExprArmsCode, ExprArmsFunctions, ExprArmsEnd;
    assert ExprFunctions(e, at) == MatchExprFunctions(e, at);
  }

  lemma ExprArmsParts(arms: List<ExprArm>, v: Register, result: Register, at: Place, end: nat)
    requires arms.Cons?
    ensures
      var arm, rest := arms.head, arms.tail;
      var at1 := GuardPlace(arm.pattern, at);
      var at2 := GuardEnd(arm.guard, at1);
      var done := ExprEnd(arm.value, at2);
      var next := Skip(done, 2, 0);
      && at1.fns == at.fns && next.code == done.code + 2 && next.fns == done.fns && next.regs == done.regs
      && ExprArmsEnd(arms, at) == ExprArmsEnd(rest, next)
      && ExprArmsCode(arms, v, result, at, end)
         == BindCode(arm.pattern, v, at, next.code) + GuardCode(arm.guard, at1, next.code) + ExprCode(arm.value, at2)
            + [Copy(result, ResultOf(arm.value, at2)), Jump(end)] + ExprArmsCode(rest, v, result, next, end)
      && ExprArmsFunctions(arms, at)
         == GuardFunctions(arm.guard, at1) + ExprFunctions(arm.value, at2) + ExprArmsFunctions(rest, next)
  {
    hide ExprCode, ExprEnd, GuardPlace, GuardEnd, BindCode, GuardCode, ResultOf, ExprFunctions, GuardFunctions;
  }

  /** Where the branch that is not taken continues. */
  function ElsePlace(s: Stmt, at: Place): Place
    requires s.If?
  {
    Skip(StmtEnd(s.thenBranch, Skip(ExprEnd(s.condition, at), 1, 0)), if s.elseBranch.Some? then 1 else 0, 0)
  }

  /** The jump over the `else` branch. */
  function LeaveThen(s: Stmt, at: Place): (code: seq<Instr>)
    requires s.If?
    ensures |code| == if s.elseBranch.Some? then 1 else 0
  {
    if s.elseBranch.Some? then [Jump(StmtEnd(s, at).code)] else []
  }

  lemma LeaveHere(s: Stmt, at: Place)
    requires s.If? && s.elseBranch.Some?
    ensures LeaveThen(s, at) == [Jump(StmtEnd(s, at).code)]
  {
    hide StmtEnd;
  }

  lemma IfCodeParts(s: Stmt, at: Place, loop: Targets)
    requires s.If?
    ensures
      var at1 := Skip(ExprEnd(s.condition, at), 1, 0);
      var at3 := ElsePlace(s, at);
      StmtCode(s, at, loop)
      == ExprCode(s.condition, at) + [JumpIf(ResultOf(s.condition, at), false, at3.code)]
         + StmtCode(s.thenBranch, at1, loop) + LeaveThen(s, at) + InitCode(s.elseBranch, at3, loop)
  {
    hide ExprCode, ExprEnd, ResultOf, StmtEnd;
    var at1 := Skip(ExprEnd(s.condition, at), 1, 0);
    var at3 := ElsePlace(s, at);
    assert StmtCode(s, at, loop) == IfCode(s, at, loop);
    if s.elseBranch.None? {
      assert InitCode(s.elseBranch, at3, loop) == [];
    } else {
      assert InitCode(s.elseBranch, at3, loop) == StmtCode(s.elseBranch.value, at3, loop);
    }
  }

  lemma IfFunctionParts(s: Stmt, at: Place)
    requires s.If?
    ensures StmtFunctions(s, at)
         == ExprFunctions(s.condition, at) + StmtFunctions(s.thenBranch, Skip(ExprEnd(s.condition, at), 1, 0))
            + InitFunctions(s.elseBranch, ElsePlace(s, at))
  {
    hide ExprFunctions, ExprEnd, StmtEnd;
    assert StmtFunctions(s, at) == IfFunctions(s, at);
  }

  lemma IfPlaces(s: Stmt, at: Place)
    requires s.If?
    ensures
      var test := ExprEnd(s.condition, at);
      var at1 := Skip(test, 1, 0);
      var at2 := StmtEnd(s.thenBranch, at1);
      var at3 := ElsePlace(s, at);
      && at1.code == test.code + 1 && at1.fns == test.fns
      && at3.code == at2.code + (if s.elseBranch.Some? then 1 else 0) && at3.fns == at2.fns
      && Before(at, at1) && Before(at, at3)
      && StmtEnd(s, at) == InitEnd(s.elseBranch, at3)
      && (s.elseBranch.None? ==> StmtEnd(s, at).code == at2.code)
  {
    hide ExprEnd;
  }

  lemma WhileCodeParts(s: Stmt, at: Place, loop: Targets)
    requires s.While?
    ensures
      var test := ExprEnd(s.condition, at);
      var at1 := Skip(test, 1, 0);
      var end := StmtEnd(s, at).code;
      && at1.code == test.code + 1 && at1.fns == test.fns && Before(at, at1) && at.code <= test.code
      && end == StmtEnd(s.loopBody, at1).code + 1
      && StmtCode(s, at, loop)
         == ExprCode(s.condition, at) + [JumpIf(ResultOf(s.condition, at), false, end)]
            + StmtCode(s.loopBody, at1, Loop(at.code, end)) + [Jump(at.code)]
      && StmtFunctions(s, at) == ExprFunctions(s.condition, at) + StmtFunctions(s.loopBody, at1)
  {
    hide ExprCode, ExprEnd, ResultOf, ExprFunctions;
    assert StmtCode(s, at, loop) == WhileCode(s, at);
    assert StmtFunctions(s, at) == WhileFunctions(s, at);
  }

  lemma ForPlaces(s: Stmt, start: Place)
    requires s.For?
    ensures
      var test, at1 := GuardEnd(s.test, start), IncrementPlace(s.test, start);
      var last := IncrementEnd(s.increment, at1);
      var at2 := Skip(last, 1, 0);
      && at1.code == test.code + 1 && at1.fns == test.fns && at2.code == last.code + 1 && at2.fns == last.fns
      && start.code <= test.code && Before(start, test) && Before(start, at1) && Before(at1, at2) && Before(start, at2)
      && LoopEnd(s, start).code == StmtEnd(s.loopBody, at2).code + 1
  {
    hide GuardEnd, IncrementEnd, StmtEnd;
  }

  lemma ForCodeParts(s: Stmt, start: Place)
    requires s.For?
    ensures
      var at1 := IncrementPlace(s.test, start);
      var at2 := Skip(IncrementEnd(s.increment, at1), 1, 0);
      var end := LoopEnd(s, start).code;
      && ForCode(s, start)
         == GuardCode(s.test, start, end) + [Jump(at2.code)] + IncrementCode(s.increment, at1) + [Jump(start.code)]
            + StmtCode(s.loopBody, at2, Loop(at1.code, end)) + [Jump(at1.code)]
      && LoopFunctions(s, start)
         == GuardFunctions(s.test, start) + IncrementFunctions(s.increment, at1) + StmtFunctions(s.loopBody, at2)
  {
    hide GuardEnd, IncrementEnd, GuardCode, IncrementCode, IncrementPlace, StmtCode, LoopEnd, GuardFunctions,
      IncrementFunctions, StmtFunctions;
  }

  lemma StmtArmsParts(arms: List<StmtArm>, v: Register, at: Place, loop: Targets, end: nat)
    requires arms.Cons?
    ensures
      var arm, rest := arms.head, arms.tail;
      var at1 := GuardPlace(arm.pattern, at);
      var at2 := GuardEnd(arm.guard, at1);
      var done := StmtEnd(arm.body, at2);
      var next := Skip(done, 1, 0);
      && at1.fns == at.fns && next.code == done.code + 1 && next.fns == done.fns
      && Before(at, at2) && Before(at, next)
      && StmtArmsEnd(arms, at) == StmtArmsEnd(rest, next)
      && StmtArmsCode(arms, v, at, loop, end)
         == BindCode(arm.pattern, v, at, next.code) + GuardCode(arm.guard, at1, next.code)
            + StmtCode(arm.body, at2, loop) + [Jump(end)] + StmtArmsCode(rest, v, next, loop, end)
      && StmtArmsFunctions(arms, at)
         == GuardFunctions(arm.guard, at1) + StmtFunctions(arm.body, at2) + StmtArmsFunctions(rest, next)
  {
    hide GuardPlace, GuardEnd, StmtEnd, BindCode, GuardCode, StmtCode, GuardFunctions, StmtFunctions;
  }

  function BodyPlace(s: Stmt, at: Place): Place
    requires s.ForIn?
  {
    Skip(ExprEnd(s.iterable, at.(syns := at.syns + 3)), 23, 14)
  }

  lemma ForInCodeParts(s: Stmt, at: Place, loop: Targets)
    requires s.ForIn?
    ensures
      var at0 := at.(syns := at.syns + 3);
      var at1, at2 := ExprEnd(s.iterable, at0), BodyPlace(s, at);
      var start, end := at1.code + 9, StmtEnd(s, at).code;
      && Before(at, at0) && at0.fns == at.fns && at0.code == at.code && at0.regs == at.regs
      && Before(at0, at1) && at2.code == start + 14 && at2.fns == at1.fns && Before(at, at1) && Before(at, at2)
      && at.syns + 3 <= at2.syns && at.regs <= at1.regs
      && end == StmtEnd(s.loopBody, at2).code + 1
      && StmtCode(s, at, loop)
         == ExprCode(s.iterable, at0) + ForInSetup(at, s.item, ResultOf(s.iterable, at0), at1.regs)
            + ForInTest(at, s.item, start, at1.regs + 5, end) + ForInIncrement(at, start, at1.regs + 11)
            + StmtCode(s.loopBody, at2, Loop(start + 9, end)) + [Jump(start + 9)]
      && StmtFunctions(s, at) == ExprFunctions(s.iterable, at0) + StmtFunctions(s.loopBody, at2)
  {
    hide ExprCode, ExprEnd, ResultOf, ExprFunctions, ForInSetup, ForInTest, ForInIncrement;
    assert StmtCode(s, at, loop) == ForInCode(s, at);
    assert StmtFunctions(s, at) == ForInFunctions(s, at);
  }

  lemma ForInSizes(at: Place, item: string, iterable: Register, r: Register, start: nat, end: nat)
    ensures |ForInSetup(at, item, iterable, r)| == 9
    ensures |ForInTest(at, item, start, r, end)| == 9
    ensures |ForInIncrement(at, start, r)| == 5
  {
  }

  lemma ForStmtParts(s: Stmt, at: Place, loop: Targets)
    requires s.For?
    ensures StmtEnd(s, at) == LoopEnd(s, InitEnd(s.init, at))
    ensures StmtCode(s, at, loop) == InitCode(s.init, at, loop) + ForCode(s, InitEnd(s.init, at))
    ensures StmtFunctions(s, at) == InitFunctions(s.init, at) + LoopFunctions(s, InitEnd(s.init, at))
  {
    hide InitCode, InitEnd, InitFunctions, ForCode, LoopFunctions, LoopEnd;
    assert StmtCode(s, at, loop) == ForStmtCode(s, at, loop);
  }

  lemma MatchStmtParts(s: Stmt, at: Place, loop: Targets)
    requires s.Match?
    ensures
      var at1, v, end := ExprEnd(s.scrutinee, at), ResultOf(s.scrutinee, at), StmtEnd(s, at).code;
      && end == StmtArmsEnd(s.arms, at1).code && StmtEnd(s, at) == StmtArmsEnd(s.arms, at1)
      && StmtCode(s, at, loop) == ExprCode(s.scrutinee, at) + StmtArmsCode(s.arms, v, at1, loop, end)
      && StmtFunctions(s, at) == ExprFunctions(s.scrutinee, at) + StmtArmsFunctions(s.arms, at1)
  {
    hide ExprCode, ExprEnd, ExprFunctions, ResultOf, StmtArmsCode, StmtArmsFunctions, StmtArmsEnd;
    assert StmtCode(s, at, loop) == MatchCode(s, at, loop);
    assert StmtFunctions(s, at) == MatchFunctions(s, at);
  }

  lemma StmtsCodeParts(ss: List<Stmt>, at: Place, loop: Targets)
    requires ss.Cons?
    ensures
      var at1 := StmtEnd(ss.head, at);
      && StmtsEnd(ss, at) == StmtsEnd(ss.tail, at1)
      && StmtsCode(ss, at, loop) == StmtCode(ss.head, at, loop) + StmtsCode(ss.tail, at1, loop)
      && StmtsFunctions(ss, at) == StmtFunctions(ss.head, at) + StmtsFunctions(ss.tail, at1)
  {
    hide StmtCode, StmtEnd, StmtFunctions;
  }

  lemma AssignParts(e: Expr, at: Place)
    requires e.Assign?
    ensures ExprCode(e, at) == ExprCode(e.value, at) + [AssignVar(User(e.name), ResultOf(e.value, at))]
    ensures ExprEnd(e, at) == Skip(ExprEnd(e.value, at), 1, 0) && ResultOf(e, at) == ResultOf(e.value, at)
    ensures ExprFunctions(e, at) == ExprFunctions(e.value, at)
  {
  }

  lemma CompoundPlaces(value: Expr, at: Place)
    ensures CompoundEnd(value, at) == Skip(ExprEnd(value, Skip(at, 1, 1)), 2, 2)
  {
    hide ExprEnd;
  }

  lemma OperandsParts(es: List<Expr>, at: Place)
    requires es.Cons?
    ensures
      var at1 := ExprEnd(es.head, at);
      && OperandsEnd(es, at) == OperandsEnd(es.tail, at1)
      && ResultsOf(es, at) == [ResultOf(es.head, at)] + ResultsOf(es.tail, at1)
      && OperandsCode(es, at) == ExprCode(es.head, at) + OperandsCode(es.tail, at1)
      && OperandsFunctions(es, at) == ExprFunctions(es.head, at) + OperandsFunctions(es.tail, at1)
  {
    hide ExprEnd, ExprCode, ExprFunctions, ResultOf;
  }
}
