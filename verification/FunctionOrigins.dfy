/** Every stream of a lowered program's function table is the stream of a function of the
    source, so the preservation of function bodies holds for all of them.
 */
module FunctionOrigins {
  import opened Wrappers
  import opened Runtime
  import opened Ast
  import opened Semantics
  import opened IR
  import opened Lowering
  import opened FunctionTables
  import opened CodeEquations
  import opened Placement
  import opened LoweringCorrectness

  /** Entry `k` of the table is the stream of `f`, compiled at `at` with its nested functions before it. */
  ghost predicate OriginIs(p: Program, k: nat, f: FunctionDef, at: Place) {
    StmtsOk(f.body, false) && TableAt(p, at.fns, FunctionTable(f, at)) && StmtsEnd(f.body, Inner(at)).fns == k
  }

  ghost predicate HasOrigin(p: Program, k: nat) {
    exists f, at :: OriginIs(p, k, f, at)
  }

  lemma {:induction false} FunctionOrigin(p: Program, f: FunctionDef, at: Place, k: nat)
    requires StmtsOk(f.body, false) && TableAt(p, at.fns, FunctionTable(f, at)) && at.fns <= k < FunctionEnd(f, at).fns
    ensures HasOrigin(p, k)
    decreases f, 0
  {
    hide TableAt, BodyCode, StmtsEnd, StmtsOk;
    if k < StmtsEnd(f.body, Inner(at)).fns {
      var table := FunctionTable(f, at);
      TableSplit(p, at.fns, StmtsFunctions(f.body, Inner(at)), [table[|table| - 1]]);
      StmtsOrigin(p, f.body, Inner(at), false, k);
    } else {
      assert OriginIs(p, k, f, at);
    }
  }

  lemma {:induction false} ExprOrigin(p: Program, e: Expr, at: Place, k: nat)
    requires ExprOk(e) && TableAt(p, at.fns, ExprFunctions(e, at)) && at.fns <= k < ExprEnd(e, at).fns
    ensures HasOrigin(p, k)
    decreases e, 1
  {
    hide TableAt, HasOrigin, FunctionTable;
    match e
    case Assign(_, v) => ExprOrigin(p, v, at, k);
    case CompoundAssign(_, _, v) =>
      CompoundPlaces(v, Skip(at, 1, 1));
      VariableCompoundParts(e, at);
      ExprOrigin(p, v, Skip(at, 2, 2), k);
    case IndexCompoundAssign(_, _, _, _) => IndexCompoundOrigin(p, e, at, k);
    case FieldCompoundAssign(_, _, _, _) => FieldCompoundOrigin(p, e, at, k);
    case Grouping(inner) => ExprOrigin(p, inner, at, k);
    case Operation(_, operands) => OperandsOrigin(p, operands, at, k);
    case Logical(_, _, _) => LogicalOrigin(p, e, at, k);
    case MatchExpr(_, _) => MatchExprOrigin(p, e, at, k);
    case Lambda(f) => FunctionOrigin(p, f, Skip(at, 1, 1), k);
    case _ =>
  }

  lemma {:induction false} IndexCompoundOrigin(p: Program, e: Expr, at: Place, k: nat)
    requires e.IndexCompoundAssign? && ExprOk(e)
    requires TableAt(p, at.fns, ExprFunctions(e, at)) && at.fns <= k < ExprEnd(e, at).fns
    ensures HasOrigin(p, k)
    decreases e, 0
  {
    hide TableAt, HasOrigin, ExprEnd, ExprCode, ExprFunctions, CompoundCode, CompoundEnd;
    IndexCompoundParts(e, at);
    var at1 := ExprEnd(e.collection, at);
    var at2 := ExprEnd(e.index, at1);
    var at3 := Skip(Skip(at2, 1, 1), 1, 1);
    CompoundPlaces(e.value, Skip(at2, 1, 1));
    var a, b, c := ExprFunctions(e.collection, at), ExprFunctions(e.index, at1), ExprFunctions(e.value, at3);
    TableSplit(p, at.fns, a + b, c);
    TableSplit(p, at.fns, a, b);
    if k < at1.fns {
      ExprOrigin(p, e.collection, at, k);
    } else if k < at2.fns {
      ExprOrigin(p, e.index, at1, k);
    } else {
      ExprOrigin(p, e.value, at3, k);
    }
  }

  lemma {:induction false} FieldCompoundOrigin(p: Program, e: Expr, at: Place, k: nat)
    requires e.FieldCompoundAssign? && ExprOk(e)
    requires TableAt(p, at.fns, ExprFunctions(e, at)) && at.fns <= k < ExprEnd(e, at).fns
    ensures HasOrigin(p, k)
    decreases e, 0
  {
    hide TableAt, HasOrigin, ExprEnd, ExprCode, ExprFunctions, CompoundCode, CompoundEnd;
    FieldCompoundParts(e, at);
    var at1 := ExprEnd(e.target, at);
    var at2 := Skip(Skip(at1, 1, 1), 1, 1);
    CompoundPlaces(e.value, Skip(at1, 1, 1));
    TableSplit(p, at.fns, ExprFunctions(e.target, at), ExprFunctions(e.value, at2));
    if k < at1.fns {
      ExprOrigin(p, e.target, at, k);
    } else {
      ExprOrigin(p, e.value, at2, k);
    }
  }

  lemma {:induction false} OperandsOrigin(p: Program, es: List<Expr>, at: Place, k: nat)
    requires ExprsOk(es) && TableAt(p, at.fns, OperandsFunctions(es, at)) && at.fns <= k < OperandsEnd(es, at).fns
    ensures HasOrigin(p, k)
    decreases es, 0
  {
    hide TableAt, HasOrigin, ExprEnd, ExprFunctions;
    match es
    case Empty =>
    case Cons(e, rest) =>
      var at1 := ExprEnd(e, at);
      TableSplit(p, at.fns, ExprFunctions(e, at), OperandsFunctions(rest, at1));
      if k < at1.fns {
        ExprOrigin(p, e, at, k);
      } else {
        OperandsOrigin(p, rest, at1, k);
      }
  }

  lemma {:induction false} LogicalOrigin(p: Program, e: Expr, at: Place, k: nat)
    requires e.Logical? && ExprOk(e) && TableAt(p, at.fns, ExprFunctions(e, at)) && at.fns <= k < ExprEnd(e, at).fns
    ensures HasOrigin(p, k)
    decreases e, 0
  {
    hide TableAt, HasOrigin, ExprEnd, ExprCode, ExprFunctions;
    LogicalParts(e, at);
    var at1 := ExprEnd(e.left, at);
    var at2 := Skip(at1, 2, 1);
    TableSplit(p, at.fns, ExprFunctions(e.left, at), ExprFunctions(e.right, at2));
    if k < at1.fns {
      ExprOrigin(p, e.left, at, k);
    } else {
      ExprOrigin(p, e.right, at2, k);
    }
  }

  lemma {:induction false} MatchExprOrigin(p: Program, e: Expr, at: Place, k: nat)
    requires e.MatchExpr? && ExprOk(e) && TableAt(p, at.fns, ExprFunctions(e, at)) && at.fns <= k < ExprEnd(e, at).fns
    ensures HasOrigin(p, k)
    decreases e, 0
  {
    hide TableAt, HasOrigin, ExprEnd, ExprCode, ExprFunctions, ExprArmsCode, ExprArmsEnd, ExprArmsFunctions;
    MatchExprParts(e, at);
    var at1 := ExprEnd(e.scrutinee, at);
    var at2 := Skip(at1, 0, 1);
    TableSplit(p, at.fns, ExprFunctions(e.scrutinee, at), ExprArmsFunctions(e.arms, at2));
    if k < at1.fns {
      ExprOrigin(p, e.scrutinee, at, k);
    } else {
      ExprArmsOrigin(p, e.arms, at2, k);
    }
  }

  lemma {:induction false} GuardOrigin(p: Program, guard: Option<Expr>, at: Place, k: nat)
    requires GuardOk(guard) && TableAt(p, at.fns, GuardFunctions(guard, at)) && at.fns <= k < GuardEnd(guard, at).fns
    ensures HasOrigin(p, k)
    decreases guard, 0
  {
    hide TableAt, HasOrigin, ExprEnd, ExprFunctions;
    if guard.Some? {
      ExprOrigin(p, guard.value, at, k);
    }
  }

  lemma {:induction false} ExprArmsOrigin(p: Program, arms: List<ExprArm>, at: Place, k: nat)
    requires ExprArmsOk(arms) && TableAt(p, at.fns, ExprArmsFunctions(arms, at)) && at.fns <= k < ExprArmsEnd(arms, at).fns
    ensures HasOrigin(p, k)
    decreases arms, 0
  {
    hide TableAt, HasOrigin, ExprEnd, ExprCode, ExprFunctions, GuardFunctions, GuardEnd, GuardPlace, GuardOk,
      ExprArmsFunctions, ExprArmsCode;
    match arms
    case Empty =>
    case Cons(arm, rest) =>
      ExprArmsParts(arms, 0, 0, at, 0);
      var at1 := GuardPlace(arm.pattern, at);
      var at2 := GuardEnd(arm.guard, at1);
      var done := ExprEnd(arm.value, at2);
      var next := Skip(done, 2, 0);
      var a, b := GuardFunctions(arm.guard, at1), ExprFunctions(arm.value, at2);
      TableSplit(p, at.fns, a + b, ExprArmsFunctions(rest, next));
      TableSplit(p, at.fns, a, b);
      if k < at2.fns {
        GuardOrigin(p, arm.guard, at1, k);
      } else if k < done.fns {
        ExprOrigin(p, arm.value, at2, k);
      } else {
        ExprArmsOrigin(p, rest, next, k);
      }
  }

  // ------------------------------------------------------------------ statements

  lemma {:induction false} StmtsOrigin(p: Program, ss: List<Stmt>, at: Place, inLoop: bool, k: nat)
    requires StmtsOk(ss, inLoop) && TableAt(p, at.fns, StmtsFunctions(ss, at)) && at.fns <= k < StmtsEnd(ss, at).fns
    ensures HasOrigin(p, k)
    decreases ss, 0
  {
    hide TableAt, HasOrigin, StmtEnd, StmtFunctions;
    match ss
    case Empty =>
    case Cons(s, rest) =>
      var at1 := StmtEnd(s, at);
      TableSplit(p, at.fns, StmtFunctions(s, at), StmtsFunctions(rest, at1));
      if k < at1.fns {
        StmtOrigin(p, s, at, inLoop, k);
      } else {
        StmtsOrigin(p, rest, at1, inLoop, k);
      }
  }

  lemma {:induction false} StmtOrigin(p: Program, s: Stmt, at: Place, inLoop: bool, k: nat)
    requires StmtOk(s, inLoop) && TableAt(p, at.fns, StmtFunctions(s, at)) && at.fns <= k < StmtEnd(s, at).fns
    ensures HasOrigin(p, k)
    decreases s, 2
  {
    hide TableAt, HasOrigin, ExprEnd, ExprFunctions, FunctionTable, StmtsEnd, StmtsFunctions;
    match s
    case Let(_, e) => ExprOrigin(p, e, at, k);
    case Print(e) => ExprOrigin(p, e, at, k);
    case Evaluate(e) => ExprOrigin(p, e, at, k);
    case Return(e) =>
      if e.Some? {
        ExprOrigin(p, e.value, at, k);
      }
    case Break =>
    case Continue =>
    case Block(body) => StmtsOrigin(p, body, at, inLoop, k);
    case If(_, _, _) => IfOrigin(p, s, at, inLoop, k);
    case While(_, _) => WhileOrigin(p, s, at, inLoop, k);
    case For(_, _, _, _) => ForOrigin(p, s, at, inLoop, k);
    case ForIn(_, _, _) => ForInOrigin(p, s, at, inLoop, k);
    case Match(_, _) => MatchOrigin(p, s, at, inLoop, k);
    case Function(_, f) => FunctionOrigin(p, f, Skip(at, 2, 1), k);
  }

  lemma {:induction false} InitOrigin(p: Program, init: Option<Stmt>, at: Place, inLoop: bool, k: nat)
    requires (init.Some? ==> StmtOk(init.value, inLoop)) && TableAt(p, at.fns, InitFunctions(init, at))
    requires at.fns <= k < InitEnd(init, at).fns
    ensures HasOrigin(p, k)
    decreases init, 0
  {
    hide TableAt, HasOrigin, StmtEnd, StmtFunctions;
    if init.Some? {
      StmtOrigin(p, init.value, at, inLoop, k);
    }
  }

  lemma {:induction false} IfOrigin(p: Program, s: Stmt, at: Place, inLoop: bool, k: nat)
    requires s.If? && StmtOk(s, inLoop) && TableAt(p, at.fns, StmtFunctions(s, at)) && at.fns <= k < StmtEnd(s, at).fns
    ensures HasOrigin(p, k)
    decreases s, 1
  {
    hide TableAt, HasOrigin, ExprEnd, ExprFunctions, StmtEnd, StmtFunctions, InitFunctions, InitEnd, ElsePlace;
    IfFunctionParts(s, at);
    IfPlaces(s, at);
    var test, at1, at3 := ExprEnd(s.condition, at), Skip(ExprEnd(s.condition, at), 1, 0), ElsePlace(s, at);
    var a, b := ExprFunctions(s.condition, at), StmtFunctions(s.thenBranch, at1);
    TableSplit(p, at.fns, a + b, InitFunctions(s.elseBranch, at3));
    TableSplit(p, at.fns, a, b);
    if k < test.fns {
      ExprOrigin(p, s.condition, at, k);
    } else if k < at3.fns {
      StmtOrigin(p, s.thenBranch, at1, inLoop, k);
    } else {
      InitOrigin(p, s.elseBranch, at3, inLoop, k);
    }
  }

  lemma {:induction false} WhileOrigin(p: Program, s: Stmt, at: Place, inLoop: bool, k: nat)
    requires s.While? && StmtOk(s, inLoop) && TableAt(p, at.fns, StmtFunctions(s, at)) && at.fns <= k < StmtEnd(s, at).fns
    ensures HasOrigin(p, k)
    decreases s, 1
  {
    hide TableAt, HasOrigin, ExprEnd, ExprFunctions, StmtFunctions, StmtCode;
    WhileCodeParts(s, at, NoLoop);
    var test, at1 := ExprEnd(s.condition, at), Skip(ExprEnd(s.condition, at), 1, 0);
    TableSplit(p, at.fns, ExprFunctions(s.condition, at), StmtFunctions(s.loopBody, at1));
    if k < test.fns {
      ExprOrigin(p, s.condition, at, k);
    } else {
      StmtOrigin(p, s.loopBody, at1, true, k);
    }
  }

  lemma {:induction false} ForOrigin(p: Program, s: Stmt, at: Place, inLoop: bool, k: nat)
    requires s.For? && StmtOk(s, inLoop) && TableAt(p, at.fns, StmtFunctions(s, at)) && at.fns <= k < StmtEnd(s, at).fns
    ensures HasOrigin(p, k)
    decreases s, 1
  {
    hide TableAt, HasOrigin, StmtEnd, StmtFunctions, InitFunctions, InitEnd, LoopFunctions, LoopEnd, InitCode, ForCode,
      StmtCode;
    ForStmtParts(s, at, NoLoop);
    var start := InitEnd(s.init, at);
    TableSplit(p, at.fns, InitFunctions(s.init, at), LoopFunctions(s, start));
    if k < start.fns {
      InitOrigin(p, s.init, at, inLoop, k);
    } else {
      ForLoopOrigin(p, s, start, inLoop, k);
    }
  }

  lemma {:induction false} ForLoopOrigin(p: Program, s: Stmt, start: Place, inLoop: bool, k: nat)
    requires s.For? && StmtOk(s, inLoop) && TableAt(p, start.fns, LoopFunctions(s, start))
    requires start.fns <= k < LoopEnd(s, start).fns
    ensures HasOrigin(p, k)
    decreases s, 0
  {
    hide TableAt, HasOrigin, StmtEnd, StmtFunctions, GuardFunctions, GuardEnd, IncrementFunctions, IncrementEnd,
      IncrementPlace, LoopFunctions, ForCode, StmtCode, GuardCode, IncrementCode;
    ForPlaces(s, start);
    ForCodeParts(s, start);
    var test, at1 := GuardEnd(s.test, start), IncrementPlace(s.test, start);
    var increment := IncrementEnd(s.increment, at1);
    var at2 := Skip(increment, 1, 0);
    var a, b := GuardFunctions(s.test, start), IncrementFunctions(s.increment, at1);
    TableSplit(p, start.fns, a + b, StmtFunctions(s.loopBody, at2));
    TableSplit(p, start.fns, a, b);
    if k < test.fns {
      GuardOrigin(p, s.test, start, k);
    } else if k < increment.fns {
      IncrementOrigin(p, s.increment, at1, k);
    } else {
      StmtOrigin(p, s.loopBody, at2, true, k);
    }
  }

  lemma {:induction false} IncrementOrigin(p: Program, increment: Option<Expr>, at: Place, k: nat)
    requires GuardOk(increment) && TableAt(p, at.fns, IncrementFunctions(increment, at))
    requires at.fns <= k < IncrementEnd(increment, at).fns
    ensures HasOrigin(p, k)
    decreases increment, 0
  {
    hide TableAt, HasOrigin, ExprEnd, ExprFunctions;
    if increment.Some? {
      ExprOrigin(p, increment.value, at, k);
    }
  }

  lemma {:induction false} ForInOrigin(p: Program, s: Stmt, at: Place, inLoop: bool, k: nat)
    requires s.ForIn? && StmtOk(s, inLoop) && TableAt(p, at.fns, StmtFunctions(s, at)) && at.fns <= k < StmtEnd(s, at).fns
    ensures HasOrigin(p, k)
    decreases s, 1
  {
    hide TableAt, HasOrigin, ExprEnd, ExprFunctions, StmtFunctions, StmtCode;
    ForInCodeParts(s, at, NoLoop);
    var at0, at2 := at.(syns := at.syns + 3), BodyPlace(s, at);
    var at1 := ExprEnd(s.iterable, at0);
    TableSplit(p, at.fns, ExprFunctions(s.iterable, at0), StmtFunctions(s.loopBody, at2));
    if k < at1.fns {
      ExprOrigin(p, s.iterable, at0, k);
    } else {
      StmtOrigin(p, s.loopBody, at2, true, k);
    }
  }

  lemma {:induction false} MatchOrigin(p: Program, s: Stmt, at: Place, inLoop: bool, k: nat)
    requires s.Match? && StmtOk(s, inLoop) && TableAt(p, at.fns, StmtFunctions(s, at)) && at.fns <= k < StmtEnd(s, at).fns
    ensures HasOrigin(p, k)
    decreases s, 1
  {
    hide TableAt, HasOrigin, ExprEnd, ExprFunctions, StmtFunctions, StmtCode, StmtEnd, StmtArmsEnd, StmtArmsCode,
      StmtArmsFunctions;
    MatchStmtParts(s, at, NoLoop);
    var at1 := ExprEnd(s.scrutinee, at);
    TableSplit(p, at.fns, ExprFunctions(s.scrutinee, at), StmtArmsFunctions(s.arms, at1));
    if k < at1.fns {
      ExprOrigin(p, s.scrutinee, at, k);
    } else {
      StmtArmsOrigin(p, s.arms, at1, inLoop, k);
    }
  }

  lemma {:induction false} StmtArmsOrigin(p: Program, arms: List<StmtArm>, at: Place, inLoop: bool, k: nat)
    requires StmtArmsOk(arms, inLoop) && TableAt(p, at.fns, StmtArmsFunctions(arms, at))
    requires at.fns <= k < StmtArmsEnd(arms, at).fns
    ensures HasOrigin(p, k)
    decreases arms, 0
  {
    hide TableAt, HasOrigin, StmtEnd, StmtCode, StmtFunctions, GuardFunctions, GuardEnd, GuardPlace, GuardOk,
      StmtArmsFunctions, StmtArmsCode;
    match arms
    case Empty =>
    case Cons(arm, rest) =>
      StmtArmsParts(arms, 0, at, NoLoop, 0);
      var at1 := GuardPlace(arm.pattern, at);
      var at2 := GuardEnd(arm.guard, at1);
      var done := StmtEnd(arm.body, at2);
      var next := Skip(done, 1, 0);
      var a, b := GuardFunctions(arm.guard, at1), StmtFunctions(arm.body, at2);
      TableSplit(p, at.fns, a + b, StmtArmsFunctions(rest, next));
      TableSplit(p, at.fns, a, b);
      if k < at2.fns {
        GuardOrigin(p, arm.guard, at1, k);
      } else if k < done.fns {
        StmtOrigin(p, arm.body, at2, inLoop, k);
      } else {
        StmtArmsOrigin(p, rest, next, inLoop, k);
      }
  }

  // -------------------------------------------------------------------- programs

  /** Every entry of a lowered program's table is the stream of one of its functions. */
  lemma EveryStreamHasOrigin(program: List<Stmt>, k: nat)
    requires StmtsOk(program, false) && k < |Lower(program).functions|
    ensures HasOrigin(Lower(program), k)
  {
    hide StmtsFunctions, StmtsCode, StmtsEnd, HasOrigin;
    var p := Lower(program);
    assert p.functions[0..|p.functions|] == p.functions;
    StmtsOrigin(p, program, Start, false, k);
  }

  /** Running any stream of the table runs the body of the function it comes from: it returns
      what the body returns, or nil when the body runs off its end. */
  lemma EveryStreamPreserved(rt: Runtime, program: List<Stmt>, k: nat, w: World, fuel: nat)
    returns (f: FunctionDef, n: nat)
    requires StmtsOk(program, false) && k < |Lower(program).functions|
    ensures StmtsOk(f.body, false)
    ensures
      var p := Lower(program);
      var stream := p.functions[k];
      var q, r := p.(code := stream.code), ExecAll(rt, f.body, w, fuel);
      && stream.functionLabel == f.functionLabel && stream.parameters == f.parameters
      && (Finishes(r) ==>
           Halted(q, Steps(rt, q, Initial(w), n)) && Ends(q, CallResult(r), Steps(rt, q, Initial(w), n)))
      && (r.OutOfFuel? ==> !Halted(q, Steps(rt, q, Initial(w), fuel)))
      && (Finishes(r) || r.OutOfFuel? || r.NoArm?)
  {
    hide *;
    var p := Lower(program);
    EveryStreamHasOrigin(program, k);
    var at;
    f, at := OriginOf(p, k);
    FunctionStream(p, f, at);
    n := FunctionPreserved(rt, p, f, at, w, fuel);
  }

  lemma OriginOf(p: Program, k: nat) returns (f: FunctionDef, at: Place)
    requires HasOrigin(p, k)
    ensures StmtsOk(f.body, false) && TableAt(p, at.fns, FunctionTable(f, at)) && StmtsEnd(f.body, Inner(at)).fns == k
  {
    hide TableAt, FunctionTable, StmtsOk, StmtsEnd;
    f, at :| OriginIs(p, k, f, at);
  }
}
