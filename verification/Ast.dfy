/** The checked syntax tree that lowering reads: names are resolved, and the
    checker's records (pattern bindings, payload indices) are already in place.
 */
module Ast {
  import opened Wrappers
  import opened Runtime

  datatype Selector = MemberField(name: string) | PayloadField(index: nat)

  datatype Pattern =
    | Wildcard
    | Bind(name: string)
    | LiteralPattern(constant: Value)
    | RecordPattern(parts: List<Component>)
    | VariantPattern(enumName: string, variantName: string, parts: List<Component>)
    | OrPattern(first: Pattern, others: List<Pattern>)

  datatype Component = Component(selector: Selector, pattern: Pattern)

  datatype FunctionDef = FunctionDef(functionLabel: string, parameters: seq<string>, body: List<Stmt>)

  datatype ExprArm = ExprArm(pattern: Pattern, guard: Option<Expr>, value: Expr)

  datatype StmtArm = StmtArm(pattern: Pattern, guard: Option<Expr>, body: Stmt)

  datatype Expr =
    | Literal(constant: Value)
    | Variable(name: string)
    | Assign(name: string, value: Expr)
    | CompoundAssign(op: ArithmeticOp, name: string, value: Expr)
    | IndexCompoundAssign(op: ArithmeticOp, collection: Expr, index: Expr, value: Expr)
    | FieldCompoundAssign(op: ArithmeticOp, target: Expr, field: string, value: Expr)
    | Grouping(inner: Expr)
    | Operation(prim: Prim, operands: List<Expr>)  // unary, binary, call, literal, access: operands left to right
    | Logical(isOr: bool, left: Expr, right: Expr)
    | MatchExpr(scrutinee: Expr, arms: List<ExprArm>)
    | Lambda(def: FunctionDef)

  datatype Stmt =
    | Let(name: string, initializer: Expr)
    | Print(value: Expr)
    | Evaluate(value: Expr)
    | Return(result: Option<Expr>)
    | Break
    | Continue
    | Block(body: List<Stmt>)
    | If(condition: Expr, thenBranch: Stmt, elseBranch: Option<Stmt>)
    | While(condition: Expr, loopBody: Stmt)
    | For(init: Option<Stmt>, test: Option<Expr>, increment: Option<Expr>, loopBody: Stmt)
    | ForIn(item: string, iterable: Expr, loopBody: Stmt)
    | Match(scrutinee: Expr, arms: List<StmtArm>)
    | Function(name: string, def: FunctionDef)

  /** The message of the number checks around a compound assignment. */
  function CompoundMessage(op: ArithmeticOp, role: string): string {
    var lexeme := match op case Add => "+=" case Subtract => "-=" case Multiply => "*=" case Divide => "/=";
    "`" + lexeme + "` expects number " + role
  }

  function SelectorPrim(s: Selector): Prim {
    match s
    case MemberField(name) => Field(name)
    case PayloadField(i) => VariantField(i)
  }

  /** The names a pattern binds, in binding order; an OR-pattern takes its first alternative's order. */
  function PatternNames(p: Pattern): seq<string>
    decreases p
  {
    match p
    case Wildcard => []
    case LiteralPattern(_) => []
    case Bind(name) => [name]
    case RecordPattern(parts) => ComponentNames(parts)
    case VariantPattern(_, _, parts) => ComponentNames(parts)
    case OrPattern(first, _) => PatternNames(first)
  }

  function ComponentNames(parts: List<Component>): seq<string>
    decreases parts
  {
    match parts
    case Empty => []
    case Cons(part, rest) => PatternNames(part.pattern) + ComponentNames(rest)
  }

  predicate Distinct(names: seq<string>) {
    forall i, j :: 0 <= i < j < |names| ==> names[i] != names[j]
  }

  /** The alternative binds exactly the merged names, each once. */
  predicate SameBindings(merged: seq<string>, alternative: seq<string>) {
    && Distinct(alternative)
    && |alternative| == |merged|
    && forall n :: n in alternative ==> n in merged
  }

  /** The OR-pattern checks lowering makes; it raises a compile error when one fails. */
  predicate PatternOk(p: Pattern)
    decreases p
  {
    match p
    case RecordPattern(parts) => ComponentsOk(parts)
    case VariantPattern(_, _, parts) => ComponentsOk(parts)
    case OrPattern(first, others) =>
      PatternOk(first) && Distinct(PatternNames(first)) && AlternativesOk(others, PatternNames(first))
    case _ => true
  }

  predicate ComponentsOk(parts: List<Component>)
    decreases parts
  {
    match parts
    case Empty => true
    case Cons(part, rest) => PatternOk(part.pattern) && ComponentsOk(rest)
  }

  predicate AlternativesOk(others: List<Pattern>, merged: seq<string>)
    decreases others
  {
    match others
    case Empty => true
    case Cons(other, rest) =>
      && PatternOk(other)
      && SameBindings(merged, PatternNames(other))
      && AlternativesOk(rest, merged)
  }

  function Length<T>(xs: List<T>): nat {
    match xs
    case Empty => 0
    case Cons(_, tail) => 1 + Length(tail)
  }

  /** Maps take key/value pairs and structs one value per field name. */
  predicate OperandsFit(prim: Prim, count: nat) {
    match prim
    case MakeMap => count % 2 == 0
    case MakeStruct(_, fieldNames) => count == |fieldNames|
    case _ => true
  }

  predicate ExprOk(e: Expr)
    decreases e
  {
    match e
    case Literal(_) => true
    case Variable(_) => true
    case Assign(_, v) => ExprOk(v)
    case CompoundAssign(_, _, v) => ExprOk(v)
    case IndexCompoundAssign(_, c, i, v) => ExprOk(c) && ExprOk(i) && ExprOk(v)
    case FieldCompoundAssign(_, o, _, v) => ExprOk(o) && ExprOk(v)
    case Grouping(inner) => ExprOk(inner)
    case Operation(prim, operands) => OperandsFit(prim, Length(operands)) && ExprsOk(operands)
    case Logical(_, l, r) => ExprOk(l) && ExprOk(r)
    case MatchExpr(s, arms) => ExprOk(s) && ExprArmsOk(arms)
    case Lambda(f) => StmtsOk(f.body, false)
  }

  predicate ExprsOk(es: List<Expr>)
    decreases es
  {
    match es
    case Empty => true
    case Cons(e, rest) => ExprOk(e) && ExprsOk(rest)
  }

  predicate GuardOk(g: Option<Expr>)
    decreases g
  {
    g.Some? ==> ExprOk(g.value)
  }

  predicate ExprArmsOk(arms: List<ExprArm>)
    decreases arms
  {
    match arms
    case Empty => true
    case Cons(arm, rest) =>
      && PatternOk(arm.pattern)
      && GuardOk(arm.guard)
      && ExprOk(arm.value)
      && ExprArmsOk(rest)
  }

  /** What lowering accepts; `inLoop` says whether a loop of the same function encloses the statement. */
  predicate StmtOk(s: Stmt, inLoop: bool)
    decreases s
  {
    match s
    case Let(_, e) => ExprOk(e)
    case Print(e) => ExprOk(e)
    case Evaluate(e) => ExprOk(e)
    case Return(e) => GuardOk(e)
    case Break => inLoop
    case Continue => inLoop
    case Block(body) => StmtsOk(body, inLoop)
    case If(c, t, e) => ExprOk(c) && StmtOk(t, inLoop) && (e.Some? ==> StmtOk(e.value, inLoop))
    case While(c, body) => ExprOk(c) && StmtOk(body, true)
    case For(init, test, increment, body) =>
      && (init.Some? ==> StmtOk(init.value, inLoop))
      && GuardOk(test) && GuardOk(increment) && StmtOk(body, true)
    case ForIn(_, e, body) => ExprOk(e) && StmtOk(body, true)
    case Match(e, arms) => ExprOk(e) && StmtArmsOk(arms, inLoop)
    case Function(_, f) => StmtsOk(f.body, false)
  }

  predicate StmtsOk(ss: List<Stmt>, inLoop: bool)
    decreases ss
  {
    match ss
    case Empty => true
    case Cons(s, rest) => StmtOk(s, inLoop) && StmtsOk(rest, inLoop)
  }

  predicate StmtArmsOk(arms: List<StmtArm>, inLoop: bool)
    decreases arms
  {
    match arms
    case Empty => true
    case Cons(arm, rest) =>
      && PatternOk(arm.pattern)
      && GuardOk(arm.guard)
      && StmtOk(arm.body, inLoop)
      && StmtArmsOk(rest, inLoop)
  }
}
