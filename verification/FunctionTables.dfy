/** The function table that lowering builds beside the main stream.

    Every function and lambda gets its own stream; its entry follows the
    entries of the functions nested in it.
 */
module FunctionTables {
  import opened Wrappers
  import opened Runtime
  import opened Ast
  import opened IR
  import opened Lowering

  /** The stream of a function: its body and a final `return nil`. */
  function BodyCode(body: List<Stmt>, at: Place): seq<Instr>
    decreases body, 2
  {
    var r := StmtsEnd(body, Inner(at)).regs;
    StmtsCode(body, Inner(at), NoLoop) + [Compute(r, Constant(Nil), []), ReturnValue(r)]
  }

  /** The table entries of a function: nested functions first. */
  function FunctionTable(f: FunctionDef, at: Place): (fs: seq<FunctionBody>)
    ensures |fs| == FunctionEnd(f, at).fns - at.fns
    decreases f, 0
  {
    StmtsFunctions(f.body, Inner(at))
    + [FunctionBody(f.functionLabel, f.parameters, BodyCode(f.body, at), StmtsEnd(f.body, Inner(at)).regs + 1)]
  }

  function ExprFunctions(e: Expr, at: Place): (fs: seq<FunctionBody>)
    ensures |fs| == ExprEnd(e, at).fns - at.fns
    decreases e, 1
  {
    match e
    case Literal(_) => []
    case Variable(_) => []
    case Assign(_, v) => ExprFunctions(v, at)
    case CompoundAssign(_, _, v) => ExprFunctions(v, Skip(at, 2, 2))
    case IndexCompoundAssign(_, _, _, _) => IndexCompoundFunctions(e, at)
    case FieldCompoundAssign(_, _, _, _) => FieldCompoundFunctions(e, at)
    case Grouping(inner) => ExprFunctions(inner, at)
    case Operation(_, operands) => OperandsFunctions(operands, at)
    case Logical(_, _, _) => LogicalFunctions(e, at)
    case MatchExpr(_, _) => MatchExprFunctions(e, at)
    case Lambda(f) => FunctionTable(f, Skip(at, 1, 1))
  }

  function IndexCompoundFunctions(e: Expr, at: Place): (fs: seq<FunctionBody>)
    requires e.IndexCompoundAssign?
    ensures |fs| == ExprEnd(e, at).fns - at.fns
    decreases e, 0
  {
    var at1 := ExprEnd(e.collection, at);
    ExprFunctions(e.collection, at)
    + ExprFunctions(e.index, at1)
    + ExprFunctions(e.value, Skip(ExprEnd(e.index, at1), 2, 2))
  }

  function FieldCompoundFunctions(e: Expr, at: Place): (fs: seq<FunctionBody>)
    requires e.FieldCompoundAssign?
    ensures |fs| == ExprEnd(e, at).fns - at.fns
    decreases e, 0
  {
    ExprFunctions(e.target, at) + ExprFunctions(e.value, Skip(ExprEnd(e.target, at), 2, 2))
  }

  function LogicalFunctions(e: Expr, at: Place): (fs: seq<FunctionBody>)
    requires e.Logical?
    ensures |fs| == ExprEnd(e, at).fns - at.fns
    decreases e, 0
  {
    ExprFunctions(e.left, at) + ExprFunctions(e.right, Skip(ExprEnd(e.left, at), 2, 1))
  }

  function MatchExprFunctions(e: Expr, at: Place): (fs: seq<FunctionBody>)
    requires e.MatchExpr?
    ensures |fs| == ExprEnd(e, at).fns - at.fns
    decreases e, 0
  {
    ExprFunctions(e.scrutinee, at) + ExprArmsFunctions(e.arms, Skip(ExprEnd(e.scrutinee, at), 0, 1))
  }

  function OperandsFunctions(es: List<Expr>, at: Place): (fs: seq<FunctionBody>)
    ensures |fs| == OperandsEnd(es, at).fns - at.fns
    decreases es, 0
  {
    match es
    case Empty => []
    case Cons(e, rest) => ExprFunctions(e, at) + OperandsFunctions(rest, ExprEnd(e, at))
  }

  function GuardFunctions(guard: Option<Expr>, at: Place): (fs: seq<FunctionBody>)
    ensures |fs| == GuardEnd(guard, at).fns - at.fns
    decreases guard, 0
  {
    match guard case None => [] case Some(g) => ExprFunctions(g, at)
  }

  function ExprArmsFunctions(arms: List<ExprArm>, at: Place): (fs: seq<FunctionBody>)
    ensures |fs| == ExprArmsEnd(arms, at).fns - at.fns
    decreases arms, 0
  {
    match arms
    case Empty => []
    case Cons(arm, rest) =>
      var at1 := GuardPlace(arm.pattern, at);
      var at2 := GuardEnd(arm.guard, at1);
      GuardFunctions(arm.guard, at1)
      + ExprFunctions(arm.value, at2)
      + ExprArmsFunctions(rest, Skip(ExprEnd(arm.value, at2), 2, 0))
  }

  function StmtFunctions(s: Stmt, at: Place): (fs: seq<FunctionBody>)
    ensures |fs| == StmtEnd(s, at).fns - at.fns
    decreases s, 1
  {
    match s
    case Let(_, e) => ExprFunctions(e, at)
    case Print(e) => ExprFunctions(e, at)
    case Evaluate(e) => ExprFunctions(e, at)
    case Return(e) => GuardFunctions(e, at)
    case Break => []
    case Continue => []
    case Block(body) => StmtsFunctions(body, at)
    case If(_, _, _) => IfFunctions(s, at)
    case While(_, _) => WhileFunctions(s, at)
    case For(init, _, _, _) => InitFunctions(init, at) + LoopFunctions(s, InitEnd(init, at))
    case ForIn(_, _, _) => ForInFunctions(s, at)
    case Match(_, _) => MatchFunctions(s, at)
    case Function(_, f) => FunctionTable(f, Skip(at, 2, 1))
  }

  function IfFunctions(s: Stmt, at: Place): (fs: seq<FunctionBody>)
    requires s.If?
    ensures |fs| == StmtEnd(s, at).fns - at.fns
    decreases s, 0
  {
    var at1 := Skip(ExprEnd(s.condition, at), 1, 0);
    ExprFunctions(s.condition, at)
    + StmtFunctions(s.thenBranch, at1)
    + InitFunctions(s.elseBranch, Skip(StmtEnd(s.thenBranch, at1), 1, 0))
  }

  function WhileFunctions(s: Stmt, at: Place): (fs: seq<FunctionBody>)
    requires s.While?
    ensures |fs| == StmtEnd(s, at).fns - at.fns
    decreases s, 0
  {
    ExprFunctions(s.condition, at) + StmtFunctions(s.loopBody, Skip(ExprEnd(s.condition, at), 1, 0))
  }

  function MatchFunctions(s: Stmt, at: Place): (fs: seq<FunctionBody>)
    requires s.Match?
    ensures |fs| == StmtEnd(s, at).fns - at.fns
    decreases s, 0
  {
    ExprFunctions(s.scrutinee, at) + StmtArmsFunctions(s.arms, ExprEnd(s.scrutinee, at))
  }

  function ForInFunctions(s: Stmt, at: Place): (fs: seq<FunctionBody>)
    requires s.ForIn?
    ensures |fs| == StmtEnd(s, at).fns - at.fns
    decreases s, 0
  {
    var at0 := at.(syns := at.syns + 3);
    ExprFunctions(s.iterable, at0) + StmtFunctions(s.loopBody, Skip(ExprEnd(s.iterable, at0), 23, 14))
  }

  function InitFunctions(init: Option<Stmt>, at: Place): (fs: seq<FunctionBody>)
    ensures |fs| == InitEnd(init, at).fns - at.fns
    decreases init, 0
  {
    match init case None => [] case Some(s) => StmtFunctions(s, at)
  }

  function IncrementFunctions(increment: Option<Expr>, at: Place): (fs: seq<FunctionBody>)
    ensures |fs| == IncrementEnd(increment, at).fns - at.fns
    decreases increment, 0
  {
    match increment case None => [] case Some(e) => ExprFunctions(e, at)
  }

  function LoopFunctions(s: Stmt, start: Place): (fs: seq<FunctionBody>)
    requires s.For?
    ensures |fs| == LoopEnd(s, start).fns - start.fns
    decreases s, 0
  {
    var at1 := IncrementPlace(s.test, start);
    GuardFunctions(s.test, start)
    + IncrementFunctions(s.increment, at1)
    + StmtFunctions(s.loopBody, Skip(IncrementEnd(s.increment, at1), 1, 0))
  }

  function StmtsFunctions(ss: List<Stmt>, at: Place): (fs: seq<FunctionBody>)
    ensures |fs| == StmtsEnd(ss, at).fns - at.fns
    decreases ss, 0
  {
    match ss
    case Empty => []
    case Cons(s, rest) => StmtFunctions(s, at) + StmtsFunctions(rest, StmtEnd(s, at))
  }

  function StmtArmsFunctions(arms: List<StmtArm>, at: Place): (fs: seq<FunctionBody>)
    ensures |fs| == StmtArmsEnd(arms, at).fns - at.fns
    decreases arms, 0
  {
    match arms
    case Empty => []
    case Cons(arm, rest) =>
      var at1 := GuardPlace(arm.pattern, at);
      var at2 := GuardEnd(arm.guard, at1);
      GuardFunctions(arm.guard, at1)
      + StmtFunctions(arm.body, at2)
      + StmtArmsFunctions(rest, Skip(StmtEnd(arm.body, at2), 1, 0))
  }

  /** The whole program: the main stream and the function table. */
  function Lower(program: List<Stmt>): Program {
    Program(StmtsCode(program, Start, NoLoop), StmtsFunctions(program, Start))
  }
}
