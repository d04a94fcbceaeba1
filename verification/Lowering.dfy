/** What lowering emits, stated as structural functions of the syntax tree.

    A `Place` is the compiler's position: the next instruction, register,
    synthetic serial and function index.  The `...End` functions say where a
    tree placed at `at` ends, the `...Code` functions give its instructions
    with every jump target already final.  The back-patching compiler is
    proved to build exactly this code.
 */
module Lowering {
  import opened Wrappers
  import opened Runtime
  import opened Ast
  import opened IR

  datatype Place = Place(code: nat, regs: nat, syns: nat, fns: nat)

  const Start := Place(0, 0, 0, 0)

  /** Move past `code` instructions that allocate `regs` registers. */
  function Skip(at: Place, code: nat, regs: nat): Place {
    at.(code := at.code + code, regs := at.regs + regs)
  }

  predicate Before(a: Place, b: Place) {
    a.code <= b.code && a.regs <= b.regs && a.syns <= b.syns && a.fns <= b.fns
  }

  // ---------------------------------------------------------------- patterns

  function PatternEnd(p: Pattern, at: Place): (r: Place)
    ensures Before(at, r) && r.syns == at.syns && r.fns == at.fns
    decreases p, 1
  {
    match p
    case Wildcard => at
    case Bind(_) => at
    case LiteralPattern(_) => Skip(at, 3, 2)
    case RecordPattern(parts) => ComponentsEnd(parts, at)
    case VariantPattern(_, _, parts) => ComponentsEnd(parts, Skip(at, 2, 1))
    case OrPattern(_, others) => AlternativesEnd(others, OrNext(p, at))
  }

  /** Where the second alternative starts. */
  function OrNext(p: Pattern, at: Place): (r: Place)
    requires p.OrPattern?
    ensures Before(at, r) && r.syns == at.syns && r.fns == at.fns
    decreases p, 0
  {
    var n := |PatternNames(p.first)|;
    Skip(PatternEnd(p.first, at), n + JumpOut(p.others), n)
  }

  /** Every alternative but the last is followed by a jump to the end of the OR-pattern. */
  function JumpOut(others: List<Pattern>): nat {
    match others case Empty => 0 case Cons(_, _) => 1
  }

  function ComponentsEnd(parts: List<Component>, at: Place): (r: Place)
    ensures Before(at, r) && r.syns == at.syns && r.fns == at.fns
    decreases parts, 0
  {
    match parts
    case Empty => at
    case Cons(part, rest) => ComponentsEnd(rest, PatternEnd(part.pattern, Skip(at, 1, 1)))
  }

  function AlternativeNext(other: Pattern, rest: List<Pattern>, at: Place): (r: Place)
    ensures Before(at, r) && r.syns == at.syns && r.fns == at.fns
    decreases other, 2
  {
    Skip(PatternEnd(other, at), |PatternNames(other)| + JumpOut(rest), 0)
  }

  function AlternativesEnd(others: List<Pattern>, at: Place): (r: Place)
    ensures Before(at, r) && r.syns == at.syns && r.fns == at.fns
    decreases others, 0
  {
    match others
    case Empty => at
    case Cons(other, rest) => AlternativesEnd(rest, AlternativeNext(other, rest, at))
  }

  type Bound = seq<(string, Register)>

  /** Where each binding of the pattern lives once the pattern has matched. */
  function PatternBindings(p: Pattern, v: Register, at: Place): (bs: Bound)
    ensures |bs| == |PatternNames(p)|
    decreases p
  {
    match p
    case Wildcard => []
    case LiteralPattern(_) => []
    case Bind(name) => [(name, v)]
    case RecordPattern(parts) => ComponentBindings(parts, v, at)
    case VariantPattern(_, _, parts) => ComponentBindings(parts, v, Skip(at, 2, 1))
    case OrPattern(first, _) => SharedRegisters(PatternNames(first), PatternEnd(first, at).regs)
  }

  function ComponentBindings(parts: List<Component>, v: Register, at: Place): (bs: Bound)
    ensures |bs| == |ComponentNames(parts)|
    decreases parts
  {
    match parts
    case Empty => []
    case Cons(part, rest) =>
      PatternBindings(part.pattern, at.regs, Skip(at, 1, 1))
      + ComponentBindings(rest, v, PatternEnd(part.pattern, Skip(at, 1, 1)))
  }

  /** The merged registers of an OR-pattern, allocated in the first alternative's binding order. */
  function SharedRegisters(names: seq<string>, base: Register): (bs: Bound)
    ensures |bs| == |names|
  {
    if names == [] then [] else [(names[0], base)] + SharedRegisters(names[1..], base + 1)
  }

  /** Position of a name in the merged order. */
  function IndexOf(names: seq<string>, name: string): nat {
    if names == [] || names[0] == name then 0 else 1 + IndexOf(names[1..], name)
  }

  /** Copy each binding of an alternative to its shared register. */
  function MergeCode(bs: Bound, merged: seq<string>, base: Register): (code: seq<Instr>)
    ensures |code| == |bs|
  {
    if bs == [] then []
    else [Copy(base + IndexOf(merged, bs[0].0), bs[0].1)] + MergeCode(bs[1..], merged, base)
  }

  function PatternCode(p: Pattern, v: Register, at: Place, fail: nat): (code: seq<Instr>)
    ensures |code| == PatternEnd(p, at).code - at.code
    decreases p, 1
  {
    match p
    case Wildcard => []
    case Bind(_) => []
    case LiteralPattern(c) =>
      [Compute(at.regs, Constant(c), []),
       Compute(at.regs + 1, Equal, [v, at.regs]),
       JumpIf(at.regs + 1, false, fail)]
    case RecordPattern(parts) => ComponentsCode(parts, v, at, fail)
    case VariantPattern(e, n, parts) =>
      [Compute(at.regs, VariantTag(e, n), [v]), JumpIf(at.regs, false, fail)]
      + ComponentsCode(parts, v, Skip(at, 2, 1), fail)
    case OrPattern(_, _) => OrCode(p, v, at, fail)
  }

  /** Alternatives in order: a failing one goes on to the next, a matching one copies its
      bindings to the shared registers and leaves. */
  function OrCode(p: Pattern, v: Register, at: Place, fail: nat): (code: seq<Instr>)
    requires p.OrPattern?
    ensures |code| == PatternEnd(p, at).code - at.code
    decreases p, 0
  {
    var names := PatternNames(p.first);
    var base := PatternEnd(p.first, at).regs;
    var next := OrNext(p, at);
    var end := AlternativesEnd(p.others, next).code;
    PatternCode(p.first, v, at, NextOr(p.others, next, fail))
    + MergeCode(PatternBindings(p.first, v, at), names, base)
    + ExitJump(p.others, end)
    + AlternativesCode(p.others, names, base, v, next, fail, end)
  }

  /** A failing alternative goes to the next one, the last one to the enclosing fail target. */
  function NextOr(others: List<Pattern>, next: Place, fail: nat): nat {
    match others case Empty => fail case Cons(_, _) => next.code
  }

  function ExitJump(others: List<Pattern>, end: nat): (code: seq<Instr>)
    ensures |code| == JumpOut(others)
  {
    match others case Empty => [] case Cons(_, _) => [Jump(end)]
  }

  function ComponentsCode(parts: List<Component>, v: Register, at: Place, fail: nat): (code: seq<Instr>)
    ensures |code| == ComponentsEnd(parts, at).code - at.code
    decreases parts, 0
  {
    match parts
    case Empty => []
    case Cons(part, rest) =>
      [Compute(at.regs, SelectorPrim(part.selector), [v])]
      + PatternCode(part.pattern, at.regs, Skip(at, 1, 1), fail)
      + ComponentsCode(rest, v, PatternEnd(part.pattern, Skip(at, 1, 1)), fail)
  }

  function AlternativesCode(
    others: List<Pattern>, names: seq<string>, base: Register, v: Register, at: Place, fail: nat, end: nat
  ): (code: seq<Instr>)
    ensures |code| == AlternativesEnd(others, at).code - at.code
    decreases others, 0
  {
    match others
    case Empty => []
    case Cons(other, rest) =>
      var next := AlternativeNext(other, rest, at);
      PatternCode(other, v, at, NextOr(rest, next, fail))
      + MergeCode(PatternBindings(other, v, at), names, base)
      + ExitJump(rest, end)
      + AlternativesCode(rest, names, base, v, next, fail, end)
  }

  function StoreBindings(bs: Bound): (code: seq<Instr>)
    ensures |code| == |bs|
  {
    if bs == [] then [] else [StoreVar(User(bs[0].0), bs[0].1)] + StoreBindings(bs[1..])
  }

  // ------------------------------------------------------------- expressions

  function ExprEnd(e: Expr, at: Place): (r: Place)
    ensures Before(at, r) && at.regs < r.regs
    decreases e, 0
  {
    match e
    case Literal(_) => Skip(at, 1, 1)
    case Variable(_) => Skip(at, 1, 1)
    case Assign(_, v) => Skip(ExprEnd(v, at), 1, 0)
    case CompoundAssign(_, _, v) => Skip(CompoundEnd(v, Skip(at, 1, 1)), 1, 0)
    case IndexCompoundAssign(_, c, i, v) =>
      Skip(CompoundEnd(v, Skip(ExprEnd(i, ExprEnd(c, at)), 1, 1)), 1, 1)
    case FieldCompoundAssign(_, o, _, v) => Skip(CompoundEnd(v, Skip(ExprEnd(o, at), 1, 1)), 1, 1)
    case Grouping(inner) => ExprEnd(inner, at)
    case Operation(_, operands) => Skip(OperandsEnd(operands, at), 1, 1)
    case Logical(_, l, r) => Skip(ExprEnd(r, Skip(ExprEnd(l, at), 2, 1)), 1, 0)
    case MatchExpr(s, arms) => ExprArmsEnd(arms, Skip(ExprEnd(s, at), 0, 1))
    case Lambda(f) => FunctionEnd(f, Skip(at, 1, 1))
  }

  /** The checks and the operation around the right-hand side of a compound assignment. */
  function CompoundEnd(value: Expr, at: Place): (r: Place)
    ensures Before(at, r) && at.regs + 3 < r.regs
    decreases value, 1
  {
    Skip(ExprEnd(value, Skip(at, 1, 1)), 2, 2)
  }

  function OperandsEnd(es: List<Expr>, at: Place): (r: Place)
    ensures Before(at, r)
    decreases es, 0
  {
    match es
    case Empty => at
    case Cons(e, rest) => OperandsEnd(rest, ExprEnd(e, at))
  }

  function GuardEnd(guard: Option<Expr>, at: Place): (r: Place)
    ensures Before(at, r)
    decreases guard, 0
  {
    match guard
    case None => at
    case Some(g) => Skip(ExprEnd(g, at), 1, 0)
  }

  /** After the pattern and the stores of its bindings. */
  function GuardPlace(p: Pattern, at: Place): (r: Place)
    ensures Before(at, r) && r.syns == at.syns && r.fns == at.fns
  {
    Skip(PatternEnd(p, at), |PatternNames(p)|, 0)
  }

  function ExprArmsEnd(arms: List<ExprArm>, at: Place): (r: Place)
    ensures Before(at, r)
    decreases arms, 0
  {
    match arms
    case Empty => at
    case Cons(arm, rest) =>
      ExprArmsEnd(rest, Skip(ExprEnd(arm.value, GuardEnd(arm.guard, GuardPlace(arm.pattern, at))), 2, 0))
  }

  /** A function body goes to its own stream, which starts at instruction and register zero. */
  function Inner(at: Place): Place {
    at.(code := 0, regs := 0)
  }

  /** What a function shares with its surroundings are the synthetic serials and the
      function table, which gets the nested functions and then the function itself. */
  function FunctionEnd(f: FunctionDef, at: Place): (r: Place)
    ensures Before(at, r) && at.code == r.code && at.regs == r.regs
    decreases f, 0
  {
    var body := StmtsEnd(f.body, Inner(at));
    at.(syns := body.syns, fns := body.fns + 1)
  }

  /** The register that holds the expression's value. */
  function ResultOf(e: Expr, at: Place): (r: Register)
    ensures at.regs <= r < ExprEnd(e, at).regs
    decreases e
  {
    match e
    case Assign(_, v) => ResultOf(v, at)
    case CompoundAssign(_, _, v) => CompoundEnd(v, Skip(at, 1, 1)).regs - 1
    case IndexCompoundAssign(_, c, i, v) => CompoundEnd(v, Skip(ExprEnd(i, ExprEnd(c, at)), 1, 1)).regs - 1
    case FieldCompoundAssign(_, o, _, v) => CompoundEnd(v, Skip(ExprEnd(o, at), 1, 1)).regs - 1
    case Grouping(inner) => ResultOf(inner, at)
    case Operation(_, operands) => OperandsEnd(operands, at).regs
    case Logical(_, l, _) => ExprEnd(l, at).regs
    case MatchExpr(s, _) => ExprEnd(s, at).regs
    case _ => at.regs
  }

  function ResultsOf(es: List<Expr>, at: Place): (rs: seq<Register>)
    ensures |rs| == Length(es)
    decreases es
  {
    match es
    case Empty => []
    case Cons(e, rest) => [ResultOf(e, at)] + ResultsOf(rest, ExprEnd(e, at))
  }

  function ExprCode(e: Expr, at: Place): (code: seq<Instr>)
    ensures |code| == ExprEnd(e, at).code - at.code
    decreases e, 1
  {
    match e
    case Literal(c) => [Compute(at.regs, Constant(c), [])]
    case Variable(name) => [LoadVar(at.regs, User(name))]
    case Assign(name, value) => ExprCode(value, at) + [AssignVar(User(name), ResultOf(value, at))]
    case CompoundAssign(_, _, _) => VariableCompoundCode(e, at)
    case IndexCompoundAssign(_, _, _, _) => IndexCompoundCode(e, at)
    case FieldCompoundAssign(_, _, _, _) => FieldCompoundCode(e, at)
    case Grouping(inner) => ExprCode(inner, at)
    case Operation(prim, operands) =>
      OperandsCode(operands, at) + [Compute(ResultOf(e, at), prim, ResultsOf(operands, at))]
    case Logical(_, _, _) => LogicalCode(e, at)
    case MatchExpr(s, arms) =>
      ExprCode(s, at)
      + ExprArmsCode(arms, ResultOf(s, at), ResultOf(e, at), Skip(ExprEnd(s, at), 0, 1), ExprEnd(e, at).code)
    case Lambda(f) => [MakeFunction(at.regs, StmtsEnd(f.body, Inner(at)).fns)]
  }

  function VariableCompoundCode(e: Expr, at: Place): (code: seq<Instr>)
    requires e.CompoundAssign?
    ensures |code| == ExprEnd(e, at).code - at.code
    decreases e, 0
  {
    [LoadVar(at.regs, User(e.name))]
    + CompoundCode(e.op, "variable", at.regs, e.value, Skip(at, 1, 1))
    + [AssignVar(User(e.name), ResultOf(e, at))]
  }

  function IndexCompoundCode(e: Expr, at: Place): (code: seq<Instr>)
    requires e.IndexCompoundAssign?
    ensures |code| == ExprEnd(e, at).code - at.code
    decreases e, 0
  {
    var at1 := ExprEnd(e.collection, at);
    var at2 := ExprEnd(e.index, at1);
    var c, i, result := ResultOf(e.collection, at), ResultOf(e.index, at1), ResultOf(e, at);
    ExprCode(e.collection, at)
    + ExprCode(e.index, at1)
    + [Compute(at2.regs, Index, [c, i])]
    + CompoundCode(e.op, "target", at2.regs, e.value, Skip(at2, 1, 1))
    + [Compute(result + 1, AssignIndex, [c, i, result])]
  }

  function FieldCompoundCode(e: Expr, at: Place): (code: seq<Instr>)
    requires e.FieldCompoundAssign?
    ensures |code| == ExprEnd(e, at).code - at.code
    decreases e, 0
  {
    var at1 := ExprEnd(e.target, at);
    var o, result := ResultOf(e.target, at), ResultOf(e, at);
    ExprCode(e.target, at)
    + [Compute(at1.regs, Field(e.field), [o])]
    + CompoundCode(e.op, "target", at1.regs, e.value, Skip(at1, 1, 1))
    + [Compute(result + 1, AssignField(e.field), [o, result])]
  }

  /** Short circuit: the left value is copied to the result, which the right value may overwrite. */
  function LogicalCode(e: Expr, at: Place): (code: seq<Instr>)
    requires e.Logical?
    ensures |code| == ExprEnd(e, at).code - at.code
    decreases e, 0
  {
    var result := ResultOf(e, at);
    var at1 := Skip(ExprEnd(e.left, at), 2, 1);
    ExprCode(e.left, at)
    + [Copy(result, ResultOf(e.left, at)), JumpIf(result, e.isOr, ExprEnd(e, at).code)]
    + ExprCode(e.right, at1)
    + [Copy(result, ResultOf(e.right, at1))]
  }

  /** Check the old value, run the right-hand side, check it, combine; the result is in the last register. */
  function CompoundCode(op: ArithmeticOp, role: string, old': Register, value: Expr, at: Place): (code: seq<Instr>)
    ensures |code| == CompoundEnd(value, at).code - at.code
    decreases value, 2
  {
    var at1 := Skip(at, 1, 1);
    var r := ExprEnd(value, at1).regs;
    [Compute(at.regs, AssertNumber(CompoundMessage(op, role)), [old'])]
    + ExprCode(value, at1)
    + [Compute(r, AssertNumber(CompoundMessage(op, "value")), [ResultOf(value, at1)]),
       Compute(r + 1, Arithmetic(op), [at.regs, r])]
  }

  function OperandsCode(es: List<Expr>, at: Place): (code: seq<Instr>)
    ensures |code| == OperandsEnd(es, at).code - at.code
    decreases es, 0
  {
    match es
    case Empty => []
    case Cons(e, rest) => ExprCode(e, at) + OperandsCode(rest, ExprEnd(e, at))
  }

  function GuardCode(guard: Option<Expr>, at: Place, fail: nat): (code: seq<Instr>)
    ensures |code| == GuardEnd(guard, at).code - at.code
    decreases guard, 0
  {
    match guard
    case None => []
    case Some(g) => ExprCode(g, at) + [JumpIf(ResultOf(g, at), false, fail)]
  }

  /** The pattern test of an arm and the stores of its bindings. */
  function BindCode(p: Pattern, v: Register, at: Place, fail: nat): (code: seq<Instr>)
    ensures |code| == GuardPlace(p, at).code - at.code
  {
    PatternCode(p, v, at, fail) + StoreBindings(PatternBindings(p, v, at))
  }

  function ExprArmsCode(arms: List<ExprArm>, v: Register, result: Register, at: Place, end: nat): (code: seq<Instr>)
    ensures |code| == ExprArmsEnd(arms, at).code - at.code
    decreases arms, 0
  {
    match arms
    case Empty => []
    case Cons(arm, rest) =>
      var at1 := GuardPlace(arm.pattern, at);
      var at2 := GuardEnd(arm.guard, at1);
      var next := Skip(ExprEnd(arm.value, at2), 2, 0);
      BindCode(arm.pattern, v, at, next.code)
      + GuardCode(arm.guard, at1, next.code)
      + ExprCode(arm.value, at2)
      + [Copy(result, ResultOf(arm.value, at2)), Jump(end)]
      + ExprArmsCode(rest, v, result, next, end)
  }

  // -------------------------------------------------------------- statements

  function StmtEnd(s: Stmt, at: Place): (r: Place)
    ensures Before(at, r)
    decreases s, 1
  {
    match s
    case Let(_, e) => Skip(ExprEnd(e, at), 1, 0)
    case Print(e) => Skip(ExprEnd(e, at), 1, 0)
    case Evaluate(e) => ExprEnd(e, at)
    case Return(None) => Skip(at, 2, 1)
    case Return(Some(e)) => Skip(ExprEnd(e, at), 1, 0)
    case Break => Skip(at, 1, 0)
    case Continue => Skip(at, 1, 0)
    case Block(body) => StmtsEnd(body, at)
    case If(c, t, e) =>
      var at1 := StmtEnd(t, Skip(ExprEnd(c, at), 1, 0));
      (match e case None => at1 case Some(s') => StmtEnd(s', Skip(at1, 1, 0)))
    case While(c, body) => Skip(StmtEnd(body, Skip(ExprEnd(c, at), 1, 0)), 1, 0)
    case For(init, _, _, _) => LoopEnd(s, InitEnd(init, at))
    case ForIn(_, e, body) =>
      Skip(StmtEnd(body, Skip(ExprEnd(e, at.(syns := at.syns + 3)), 23, 14)), 1, 0)
    case Match(e, arms) => StmtArmsEnd(arms, ExprEnd(e, at))
    case Function(_, f) => FunctionEnd(f, Skip(at, 4, 2))
  }

  function InitEnd(init: Option<Stmt>, at: Place): (r: Place)
    ensures Before(at, r)
    decreases init, 0
  {
    match init case None => at case Some(s) => StmtEnd(s, at)
  }

  function IncrementEnd(increment: Option<Expr>, at: Place): (r: Place)
    ensures Before(at, r)
    decreases increment, 0
  {
    match increment case None => at case Some(e) => ExprEnd(e, at)
  }

  /** Where the increment of a `for` loop starts: after the test and the jump over the increment. */
  function IncrementPlace(test: Option<Expr>, start: Place): (r: Place)
    ensures Before(start, r)
    decreases test, 1
  {
    Skip(GuardEnd(test, start), 1, 0)
  }

  /** The end of a `for` statement whose initializer ends at `start`. */
  function LoopEnd(s: Stmt, start: Place): (r: Place)
    requires s.For?
    ensures Before(start, r)
    decreases s, 0
  {
    var body := Skip(IncrementEnd(s.increment, IncrementPlace(s.test, start)), 1, 0);
    Skip(StmtEnd(s.loopBody, body), 1, 0)
  }

  function StmtsEnd(ss: List<Stmt>, at: Place): (r: Place)
    ensures Before(at, r)
    decreases ss, 0
  {
    match ss
    case Empty => at
    case Cons(s, rest) => StmtsEnd(rest, StmtEnd(s, at))
  }

  function StmtArmsEnd(arms: List<StmtArm>, at: Place): (r: Place)
    ensures Before(at, r)
    decreases arms, 0
  {
    match arms
    case Empty => at
    case Cons(arm, rest) =>
      StmtArmsEnd(rest, Skip(StmtEnd(arm.body, GuardEnd(arm.guard, GuardPlace(arm.pattern, at))), 1, 0))
  }

  /** Where `continue` and `break` go; a function body starts without an enclosing loop. */
  datatype Targets = NoLoop | Loop(continueTarget: nat, breakTarget: nat)

  function BreakTarget(loop: Targets): nat {
    match loop case NoLoop => 0 case Loop(_, b) => b
  }

  function ContinueTarget(loop: Targets): nat {
    match loop case NoLoop => 0 case Loop(c, _) => c
  }

  function IterName(at: Place): VarName { Synthetic("for_in_iter", at.syns) }
  function IndexName(at: Place): VarName { Synthetic("for_in_index", at.syns + 1) }
  function LengthName(at: Place): VarName { Synthetic("for_in_len", at.syns + 2) }

  /** `for-in` set-up after the iterable: snapshot the collection and its length, start at index zero. */
  function ForInSetup(at: Place, item: string, iterable: Register, r: Register): seq<Instr> {
    [Compute(r, AssertArray, [iterable]),
     StoreVar(IterName(at), r),
     Compute(r + 1, Constant(Number(0.0)), []),
     StoreVar(IndexName(at), r + 1),
     Compute(r + 2, Constant(Nil), []),
     StoreVar(User(item), r + 2),
     LoadVar(r + 3, IterName(at)),
     Compute(r + 4, Len, [r + 3]),
     StoreVar(LengthName(at), r + 4)]
  }

  /** The test and the element fetch of one iteration, and the jump over the increment. */
  function ForInTest(at: Place, item: string, start: nat, r: Register, end: nat): seq<Instr> {
    [LoadVar(r, IndexName(at)),
     LoadVar(r + 1, LengthName(at)),
     Compute(r + 2, Compare(Less), [r, r + 1]),
     JumpIf(r + 2, false, end),
     LoadVar(r + 3, IterName(at)),
     LoadVar(r + 4, IndexName(at)),
     Compute(r + 5, Index, [r + 3, r + 4]),
     AssignVar(User(item), r + 5),
     Jump(start + 14)]
  }

  /** The increment, which sits before the body. */
  function ForInIncrement(at: Place, start: nat, r: Register): seq<Instr> {
    [LoadVar(r, IndexName(at)),
     Compute(r + 1, Constant(Number(1.0)), []),
     Compute(r + 2, Arithmetic(Add), [r, r + 1]),
     AssignVar(IndexName(at), r + 2),
     Jump(start)]
  }

  function StmtCode(s: Stmt, at: Place, loop: Targets): (code: seq<Instr>)
    ensures |code| == StmtEnd(s, at).code - at.code
    decreases s, 1
  {
    match s
    case Let(name, e) => ExprCode(e, at) + [StoreVar(User(name), ResultOf(e, at))]
    case Print(e) => ExprCode(e, at) + [PrintValue(ResultOf(e, at))]
    case Evaluate(e) => ExprCode(e, at)
    case Return(None) => [Compute(at.regs, Constant(Nil), []), ReturnValue(at.regs)]
    case Return(Some(e)) => ExprCode(e, at) + [ReturnValue(ResultOf(e, at))]
    case Break => [Jump(BreakTarget(loop))]
    case Continue => [Jump(ContinueTarget(loop))]
    case Block(body) => StmtsCode(body, at, loop)
    case If(_, _, _) => IfCode(s, at, loop)
    case While(_, _) => WhileCode(s, at)
    case For(_, _, _, _) => ForStmtCode(s, at, loop)
    case ForIn(_, _, _) => ForInCode(s, at)
    case Match(_, _) => MatchCode(s, at, loop)
    case Function(name, f) => FunctionStmtCode(name, at, StmtsEnd(f.body, Inner(at)).fns)
  }

  function ForStmtCode(s: Stmt, at: Place, loop: Targets): (code: seq<Instr>)
    requires s.For?
    ensures |code| == StmtEnd(s, at).code - at.code
    decreases s, 0, 1
  {
    InitCode(s.init, at, loop) + ForCode(s, InitEnd(s.init, at))
  }

  function MatchCode(s: Stmt, at: Place, loop: Targets): (code: seq<Instr>)
    requires s.Match?
    ensures |code| == StmtEnd(s, at).code - at.code
    decreases s, 0
  {
    ExprCode(s.scrutinee, at)
    + StmtArmsCode(s.arms, ResultOf(s.scrutinee, at), ExprEnd(s.scrutinee, at), loop, StmtEnd(s, at).code)
  }

  /** The name is bound to nil first, then to the closure. */
  function FunctionStmtCode(name: string, at: Place, index: nat): (code: seq<Instr>)
    ensures |code| == 4
  {
    [Compute(at.regs, Constant(Nil), []),
     StoreVar(User(name), at.regs),
     MakeFunction(at.regs + 1, index),
     AssignVar(User(name), at.regs + 1)]
  }

  function IfCode(s: Stmt, at: Place, loop: Targets): (code: seq<Instr>)
    requires s.If?
    ensures |code| == StmtEnd(s, at).code - at.code
    decreases s, 0
  {
    var at1 := Skip(ExprEnd(s.condition, at), 1, 0);
    var at2 := StmtEnd(s.thenBranch, at1);
    match s.elseBranch
    case None =>
      ExprCode(s.condition, at) + [JumpIf(ResultOf(s.condition, at), false, at2.code)]
      + StmtCode(s.thenBranch, at1, loop)
    case Some(e) =>
      ExprCode(s.condition, at) + [JumpIf(ResultOf(s.condition, at), false, at2.code + 1)]
      + StmtCode(s.thenBranch, at1, loop)
      + [Jump(StmtEnd(s, at).code)]
      + StmtCode(e, Skip(at2, 1, 0), loop)
  }

  function WhileCode(s: Stmt, at: Place): (code: seq<Instr>)
    requires s.While?
    ensures |code| == StmtEnd(s, at).code - at.code
    decreases s, 0
  {
    var end := StmtEnd(s, at).code;
    ExprCode(s.condition, at) + [JumpIf(ResultOf(s.condition, at), false, end)]
    + StmtCode(s.loopBody, Skip(ExprEnd(s.condition, at), 1, 0), Loop(at.code, end))
    + [Jump(at.code)]
  }

  /** A `for` loop after its initializer: test, jump over the increment, increment, body. */
  function ForCode(s: Stmt, start: Place): (code: seq<Instr>)
    requires s.For?
    ensures |code| == LoopEnd(s, start).code - start.code
    decreases s, 0, 0
  {
    var end := LoopEnd(s, start).code;
    var at1 := IncrementPlace(s.test, start);
    var at2 := Skip(IncrementEnd(s.increment, at1), 1, 0);
    GuardCode(s.test, start, end)
    + [Jump(at2.code)]
    + IncrementCode(s.increment, at1)
    + [Jump(start.code)]
    + StmtCode(s.loopBody, at2, Loop(at1.code, end))
    + [Jump(at1.code)]
  }

  function ForInCode(s: Stmt, at: Place): (code: seq<Instr>)
    requires s.ForIn?
    ensures |code| == StmtEnd(s, at).code - at.code
    decreases s, 0
  {
    var at0 := at.(syns := at.syns + 3);
    var at1 := ExprEnd(s.iterable, at0);
    var start := at1.code + 9;
    var end := StmtEnd(s, at).code;
    ExprCode(s.iterable, at0)
    + ForInSetup(at, s.item, ResultOf(s.iterable, at0), at1.regs)
    + ForInTest(at, s.item, start, at1.regs + 5, end)
    + ForInIncrement(at, start, at1.regs + 11)
    + StmtCode(s.loopBody, Skip(at1, 23, 14), Loop(start + 9, end))
    + [Jump(start + 9)]
  }

  function InitCode(init: Option<Stmt>, at: Place, loop: Targets): (code: seq<Instr>)
    ensures |code| == InitEnd(init, at).code - at.code
    decreases init, 0
  {
    match init case None => [] case Some(s) => StmtCode(s, at, loop)
  }

  function IncrementCode(increment: Option<Expr>, at: Place): (code: seq<Instr>)
    ensures |code| == IncrementEnd(increment, at).code - at.code
    decreases increment, 0
  {
    match increment case None => [] case Some(e) => ExprCode(e, at)
  }

  function StmtsCode(ss: List<Stmt>, at: Place, loop: Targets): (code: seq<Instr>)
    ensures |code| == StmtsEnd(ss, at).code - at.code
    decreases ss, 0
  {
    match ss
    case Empty => []
    case Cons(s, rest) => StmtCode(s, at, loop) + StmtsCode(rest, StmtEnd(s, at), loop)
  }

  function StmtArmsCode(arms: List<StmtArm>, v: Register, at: Place, loop: Targets, end: nat): (code: seq<Instr>)
    ensures |code| == StmtArmsEnd(arms, at).code - at.code
    decreases arms, 0
  {
    match arms
    case Empty => []
    case Cons(arm, rest) =>
      var at1 := GuardPlace(arm.pattern, at);
      var at2 := GuardEnd(arm.guard, at1);
      var next := Skip(StmtEnd(arm.body, at2), 1, 0);
      BindCode(arm.pattern, v, at, next.code)
      + GuardCode(arm.guard, at1, next.code)
      + StmtCode(arm.body, at2, loop)
      + [Jump(end)]
      + StmtArmsCode(rest, v, next, loop, end)
  }
}
