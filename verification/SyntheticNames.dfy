/** Which synthetic variables a lowered program makes: three for every `for-in` loop, numbered in
    the order of the loops, in the main stream and the streams of its functions together.
 */
module SyntheticNames {
  import opened Wrappers
  import opened Runtime
  import opened Ast
  import opened IR
  import opened Lowering
  import opened FunctionTables
  import opened CodeEquations

  /** The synthetic variable with a serial number: the prefixes take turns. */
  function NameAt(serial: nat): VarName {
    Synthetic(PrefixAt(serial), serial)
  }

  function PrefixAt(serial: nat): string {
    if serial % 3 == 0 then "for_in_iter" else if serial % 3 == 1 then "for_in_index" else "for_in_len"
  }

  /** The synthetic variables with serial numbers from `a` up to `b`. */
  function Made(a: nat, b: nat): set<VarName> {
    set k: nat | a <= k < b :: NameAt(k)
  }

  lemma MadeSplit(a: nat, b: nat, c: nat)
    requires a <= b <= c
    ensures Made(a, b) + Made(b, c) == Made(a, c)
  {
  }

  lemma MadeThree(a: nat)
    ensures Made(a, a + 3) == {NameAt(a), NameAt(a + 1), NameAt(a + 2)}
  {
  }

  function VariableOf(i: Instr): Option<VarName> {
    match i
    case LoadVar(_, x) => Some(x)
    case StoreVar(x, _) => Some(x)
    case AssignVar(x, _) => Some(x)
    case _ => None
  }

  /** The synthetic variables in a stream. */
  function SyntheticsOf(code: seq<Instr>): set<VarName> {
    if code == [] then {}
    else
      var x := VariableOf(code[0]);
      (if x.Some? && x.value.Synthetic? then {x.value} else {}) + SyntheticsOf(code[1..])
  }

  function TableSynthetics(fs: seq<FunctionBody>): set<VarName> {
    if fs == [] then {} else SyntheticsOf(fs[0].code) + TableSynthetics(fs[1..])
  }

  lemma {:induction false} SyntheticsConcat(a: seq<Instr>, b: seq<Instr>)
    ensures SyntheticsOf(a + b) == SyntheticsOf(a) + SyntheticsOf(b)
  {
    if a == [] {
      assert a + b == b;
    } else {
      SyntheticsConcat(a[1..], b);
      assert (a + b)[1..] == a[1..] + b && (a + b)[0] == a[0];
    }
  }

  lemma {:induction false} TablesConcat(a: seq<FunctionBody>, b: seq<FunctionBody>)
    ensures TableSynthetics(a + b) == TableSynthetics(a) + TableSynthetics(b)
  {
    hide SyntheticsOf;
    if a == [] {
      assert a + b == b;
    } else {
      TablesConcat(a[1..], b);
      assert (a + b)[1..] == a[1..] + b && (a + b)[0] == a[0];
    }
  }

  /** The code and the functions in it use the synthetic variables with serials from `a` up to `b`, and no other. */
  predicate Owns(code: seq<Instr>, fs: seq<FunctionBody>, a: nat, b: nat) {
    && a <= b && a % 3 == 0 && b % 3 == 0
    && SyntheticsOf(code) + TableSynthetics(fs) == Made(a, b)
  }

  predicate NoSynthetics(code: seq<Instr>) {
    SyntheticsOf(code) == {}
  }

  lemma OwnsNothing(a: nat)
    requires a % 3 == 0
    ensures Owns([], [], a, a)
  {
  }

  lemma OwnsJoin(
    c1: seq<Instr>, f1: seq<FunctionBody>, c2: seq<Instr>, f2: seq<FunctionBody>, a: nat, b: nat, c: nat
  )
    requires Owns(c1, f1, a, b) && Owns(c2, f2, b, c)
    ensures Owns(c1 + c2, f1 + f2, a, c)
  {
    hide SyntheticsOf, TableSynthetics, Made;
    SyntheticsConcat(c1, c2);
    TablesConcat(f1, f2);
    MadeSplit(a, b, c);
  }

  lemma OwnsAfter(code: seq<Instr>, fs: seq<FunctionBody>, a: nat, b: nat, plain: seq<Instr>)
    requires Owns(code, fs, a, b) && NoSynthetics(plain)
    ensures Owns(code + plain, fs, a, b)
  {
    hide SyntheticsOf, TableSynthetics, Made;
    SyntheticsConcat(code, plain);
  }

  lemma OwnsBefore(plain: seq<Instr>, code: seq<Instr>, fs: seq<FunctionBody>, a: nat, b: nat)
    requires Owns(code, fs, a, b) && NoSynthetics(plain)
    ensures Owns(plain + code, fs, a, b)
  {
    hide SyntheticsOf, TableSynthetics, Made;
    SyntheticsConcat(plain, code);
  }

  lemma PlainOne(i: Instr)
    requires var x := VariableOf(i); x.None? || x.value.User?
    ensures NoSynthetics([i])
  {
    assert [i][1..] == [];
  }

  lemma PlainTwo(i: Instr, j: Instr)
    requires var x := VariableOf(i); x.None? || x.value.User?
    requires var x := VariableOf(j); x.None? || x.value.User?
    ensures NoSynthetics([i, j])
  {
    PlainOne(i);
    PlainOne(j);
    PlainJoin([i], [j]);
    assert [i] + [j] == [i, j];
  }

  lemma PlainJoin(a: seq<Instr>, b: seq<Instr>)
    requires NoSynthetics(a) && NoSynthetics(b)
    ensures NoSynthetics(a + b)
  {
    SyntheticsConcat(a, b);
  }

  // ----------------------------------------------------------------------- patterns

  lemma {:induction false} StoresPlain(bs: Bound)
    ensures NoSynthetics(StoreBindings(bs))
  {
    if bs != [] {
      PlainOne(StoreVar(User(bs[0].0), bs[0].1));
      StoresPlain(bs[1..]);
      PlainJoin([StoreVar(User(bs[0].0), bs[0].1)], StoreBindings(bs[1..]));
    }
  }

  lemma {:induction false} MergePlain(bs: Bound, merged: seq<string>, base: Register)
    ensures NoSynthetics(MergeCode(bs, merged, base))
  {
    if bs != [] {
      var copy := Copy(base + IndexOf(merged, bs[0].0), bs[0].1);
      PlainOne(copy);
      MergePlain(bs[1..], merged, base);
      PlainJoin([copy], MergeCode(bs[1..], merged, base));
    }
  }

  lemma ExitPlain(rest: List<Pattern>, end: nat)
    ensures NoSynthetics(ExitJump(rest, end))
  {
    if rest.Cons? {
      PlainOne(Jump(end));
    }
  }

  lemma LiteralPlain(c: Value, v: Register, at: Place, fail: nat)
    ensures NoSynthetics(PatternCode(LiteralPattern(c), v, at, fail))
  {
    PlainOne(Compute(at.regs, Constant(c), []));
    PlainTwo(Compute(at.regs + 1, Equal, [v, at.regs]), JumpIf(at.regs + 1, false, fail));
    PlainJoin([Compute(at.regs, Constant(c), [])],
              [Compute(at.regs + 1, Equal, [v, at.regs]), JumpIf(at.regs + 1, false, fail)]);
    assert [Compute(at.regs, Constant(c), [])]
           + [Compute(at.regs + 1, Equal, [v, at.regs]), JumpIf(at.regs + 1, false, fail)]
        == PatternCode(LiteralPattern(c), v, at, fail);
  }

  lemma {:induction false} PatternPlain(p: Pattern, v: Register, at: Place, fail: nat)
    ensures NoSynthetics(PatternCode(p, v, at, fail))
    decreases p, 1
  {
    hide NoSynthetics, AlternativesCode, MergeCode, ExitJump, ComponentsCode;
    match p
    case Wildcard => NothingPlain();
    case Bind(_) => NothingPlain();
    case LiteralPattern(c) => LiteralPlain(c, v, at, fail);
    case RecordPattern(parts) => ComponentsPlain(parts, v, at, fail);
    case VariantPattern(e, n, parts) =>
      ComponentsPlain(parts, v, Skip(at, 2, 1), fail);
      PlainTwo(Compute(at.regs, VariantTag(e, n), [v]), JumpIf(at.regs, false, fail));
      PlainJoin([Compute(at.regs, VariantTag(e, n), [v]), JumpIf(at.regs, false, fail)],
                ComponentsCode(parts, v, Skip(at, 2, 1), fail));
    case OrPattern(_, _) => OrPlain(p, v, at, fail);
  }

  lemma NothingPlain()
    ensures NoSynthetics([])
  {
  }

  lemma {:induction false} OrPlain(p: Pattern, v: Register, at: Place, fail: nat)
    requires p.OrPattern?
    ensures NoSynthetics(PatternCode(p, v, at, fail))
    decreases p, 0
  {
    hide *;
    var next, names := OrNext(p, at), PatternNames(p.first);
    var base, end := PatternEnd(p.first, at).regs, AlternativesEnd(p.others, next).code;
    var code, merge := PatternCode(p.first, v, at, NextOr(p.others, next, fail)),
                       MergeCode(PatternBindings(p.first, v, at), names, base);
    OrParts(p, v, at, fail);
    PatternPlain(p.first, v, at, NextOr(p.others, next, fail));
    MergePlain(PatternBindings(p.first, v, at), names, base);
    ExitPlain(p.others, end);
    AlternativesPlain(p.others, names, base, v, next, fail, end);
    PlainJoin(code, merge);
    PlainJoin(code + merge, ExitJump(p.others, end));
    PlainJoin(code + merge + ExitJump(p.others, end), AlternativesCode(p.others, names, base, v, next, fail, end));
  }

  lemma NoAlternatives(names: seq<string>, base: Register, v: Register, at: Place, fail: nat, end: nat)
    ensures NoSynthetics(AlternativesCode(Empty, names, base, v, at, fail, end))
  {
  }

  lemma {:induction false} AlternativesPlain(
    others: List<Pattern>, names: seq<string>, base: Register, v: Register, at: Place, fail: nat, end: nat
  )
    ensures NoSynthetics(AlternativesCode(others, names, base, v, at, fail, end))
    decreases others, 0
  {
    hide *;
    match others
    case Empty => NoAlternatives(names, base, v, at, fail, end);
    case Cons(other, rest) =>
      var next := AlternativeNext(other, rest, at);
      var code, merge := PatternCode(other, v, at, NextOr(rest, next, fail)),
                         MergeCode(PatternBindings(other, v, at), names, base);
      AlternativesParts(others, names, base, v, at, fail, end);
      PatternPlain(other, v, at, NextOr(rest, next, fail));
      MergePlain(PatternBindings(other, v, at), names, base);
      ExitPlain(rest, end);
      AlternativesPlain(rest, names, base, v, next, fail, end);
      PlainJoin(code, merge);
      PlainJoin(code + merge, ExitJump(rest, end));
      PlainJoin(code + merge + ExitJump(rest, end), AlternativesCode(rest, names, base, v, next, fail, end));
  }

  lemma NoComponents(v: Register, at: Place, fail: nat)
    ensures NoSynthetics(ComponentsCode(Empty, v, at, fail))
  {
  }

  lemma {:induction false} ComponentsPlain(parts: List<Component>, v: Register, at: Place, fail: nat)
    ensures NoSynthetics(ComponentsCode(parts, v, at, fail))
    decreases parts, 0
  {
    hide *;
    match parts
    case Empty => NoComponents(v, at, fail);
    case Cons(part, rest) =>
      var at1 := Skip(at, 1, 1);
      var at2 := PatternEnd(part.pattern, at1);
      var select, code := Compute(at.regs, SelectorPrim(part.selector), [v]), PatternCode(part.pattern, at.regs, at1, fail);
      ComponentsParts(parts, v, at, fail);
      PatternPlain(part.pattern, at.regs, at1, fail);
      ComponentsPlain(rest, v, at2, fail);
      ComputePlain(at.regs, SelectorPrim(part.selector), [v]);
      PlainJoin([select], code);
      PlainJoin([select] + code, ComponentsCode(rest, v, at2, fail));
  }

  lemma ComputePlain(dest: Register, prim: Prim, arguments: seq<Register>)
    ensures NoSynthetics([Compute(dest, prim, arguments)])
  {
    PlainOne(Compute(dest, prim, arguments));
  }

  // -------------------------------------------------------------------- expressions

  predicate ExprOwns(e: Expr, at: Place) {
    Owns(ExprCode(e, at), ExprFunctions(e, at), at.syns, ExprEnd(e, at).syns)
  }

  lemma LeafOwns(e: Expr, at: Place)
    requires (e.Literal? || e.Variable?) && at.syns % 3 == 0
    ensures ExprOwns(e, at)
  {
    hide SyntheticsOf, TableSynthetics, Made;
    OwnsNothing(at.syns);
    PlainOne(if e.Literal? then Compute(at.regs, Constant(e.constant), []) else LoadVar(at.regs, User(e.name)));
    OwnsAfter([], [], at.syns, at.syns, ExprCode(e, at));
    assert [] + ExprCode(e, at) == ExprCode(e, at);
  }

  lemma {:induction false} ExprNames(e: Expr, at: Place)
    requires at.syns % 3 == 0
    ensures ExprOwns(e, at)
    decreases e, 1
  {
    hide ExprOwns;
    match e
    case Literal(_) => LeafOwns(e, at);
    case Variable(_) => LeafOwns(e, at);
    case Assign(_, _) => AssignNames(e, at);
    case CompoundAssign(_, _, _) => VariableCompoundNames(e, at);
    case IndexCompoundAssign(_, _, _, _) => IndexCompoundNames(e, at);
    case FieldCompoundAssign(_, _, _, _) => FieldCompoundNames(e, at);
    case Grouping(inner) =>
      ExprNames(inner, at);
      GroupingOwns(e, at);
    case Operation(_, _) => OperationNames(e, at);
    case Logical(_, _, _) => LogicalNames(e, at);
    case MatchExpr(_, _) => MatchExprNames(e, at);
    case Lambda(_) => LambdaNames(e, at);
  }

  lemma GroupingOwns(e: Expr, at: Place)
    requires e.Grouping? && ExprOwns(e.inner, at)
    ensures ExprOwns(e, at)
  {
    hide Owns;
  }

  lemma {:induction false} AssignNames(e: Expr, at: Place)
    requires e.Assign? && at.syns % 3 == 0
    ensures ExprOwns(e, at)
    decreases e, 0
  {
    hide Owns, ExprCode, ExprFunctions, ExprEnd, NoSynthetics;
    AssignParts(e, at);
    ExprNames(e.value, at);
    var assign := AssignVar(User(e.name), ResultOf(e.value, at));
    PlainOne(assign);
    OwnsAfter(ExprCode(e.value, at), ExprFunctions(e.value, at), at.syns, ExprEnd(e.value, at).syns, [assign]);
  }

  lemma {:induction false} CompoundNames(op: ArithmeticOp, role: string, old': Register, value: Expr, at: Place)
    requires at.syns % 3 == 0
    ensures Owns(CompoundCode(op, role, old', value, at), ExprFunctions(value, Skip(at, 1, 1)), at.syns,
                 CompoundEnd(value, at).syns)
    decreases value, 2
  {
    hide Owns, ExprCode, ExprFunctions, ExprEnd, NoSynthetics, CompoundCode, CompoundEnd, CompoundMessage;
    var at1 := Skip(at, 1, 1);
    var end := ExprEnd(value, at1);
    CompoundParts(op, role, old', value, at);
    CompoundPlaces(value, at);
    ExprNames(value, at1);
    var first := [Compute(at.regs, AssertNumber(CompoundMessage(op, role)), [old'])];
    var check := Compute(end.regs, AssertNumber(CompoundMessage(op, "value")), [ResultOf(value, at1)]);
    var last := Compute(end.regs + 1, Arithmetic(op), [at.regs, end.regs]);
    ComputePlain(at.regs, AssertNumber(CompoundMessage(op, role)), [old']);
    PlainTwo(check, last);
    OwnsBefore(first, ExprCode(value, at1), ExprFunctions(value, at1), at.syns, end.syns);
    OwnsAfter(first + ExprCode(value, at1), ExprFunctions(value, at1), at.syns, end.syns, [check, last]);
  }

  lemma {:induction false} VariableCompoundNames(e: Expr, at: Place)
    requires e.CompoundAssign? && at.syns % 3 == 0
    ensures ExprOwns(e, at)
    decreases e, 0
  {
    hide Owns, ExprCode, ExprFunctions, ExprEnd, NoSynthetics, CompoundCode, CompoundEnd;
    VariableCompoundParts(e, at);
    var at1 := Skip(at, 1, 1);
    var end, load, assign := CompoundEnd(e.value, at1), LoadVar(at.regs, User(e.name)),
                             AssignVar(User(e.name), ResultOf(e, at));
    var code, fs := CompoundCode(e.op, "variable", at.regs, e.value, at1), ExprFunctions(e.value, Skip(at1, 1, 1));
    CompoundNames(e.op, "variable", at.regs, e.value, at1);
    PlainOne(load);
    PlainOne(assign);
    OwnsBefore([load], code, fs, at.syns, end.syns);
    OwnsAfter([load] + code, fs, at.syns, end.syns, [assign]);
  }

  lemma {:induction false} IndexCompoundNames(e: Expr, at: Place)
    requires e.IndexCompoundAssign? && at.syns % 3 == 0
    ensures ExprOwns(e, at)
    decreases e, 0
  {
    hide Owns, ExprCode, ExprFunctions, ExprEnd, NoSynthetics, CompoundCode, CompoundEnd;
    IndexCompoundParts(e, at);
    var at1 := ExprEnd(e.collection, at);
    var at2 := ExprEnd(e.index, at1);
    var at3 := Skip(at2, 1, 1);
    var end := CompoundEnd(e.value, at3);
    var c, i, result := ResultOf(e.collection, at), ResultOf(e.index, at1), ResultOf(e, at);
    ExprNames(e.collection, at);
    OwnsThirds(ExprCode(e.collection, at), ExprFunctions(e.collection, at), at.syns, at1.syns);
    ExprNames(e.index, at1);
    OwnsThirds(ExprCode(e.index, at1), ExprFunctions(e.index, at1), at1.syns, at2.syns);
    CompoundNames(e.op, "target", at2.regs, e.value, at3);
    var f1, f2, f3 := ExprFunctions(e.collection, at), ExprFunctions(e.index, at1), ExprFunctions(e.value, Skip(at3, 1, 1));
    var code := ExprCode(e.collection, at) + ExprCode(e.index, at1);
    var compound := CompoundCode(e.op, "target", at2.regs, e.value, at3);
    var read, write := [Compute(at2.regs, Index, [c, i])], [Compute(result + 1, AssignIndex, [c, i, result])];
    ComputePlain(at2.regs, Index, [c, i]);
    ComputePlain(result + 1, AssignIndex, [c, i, result]);
    OwnsJoin(ExprCode(e.collection, at), f1, ExprCode(e.index, at1), f2, at.syns, at1.syns, at2.syns);
    OwnsAfter(code, f1 + f2, at.syns, at2.syns, read);
    OwnsJoin(code + read, f1 + f2, compound, f3, at.syns, at2.syns, end.syns);
    OwnsAfter(code + read + compound, f1 + f2 + f3, at.syns, end.syns, write);
  }

  lemma OwnsThirds(code: seq<Instr>, fs: seq<FunctionBody>, a: nat, b: nat)
    requires Owns(code, fs, a, b)
    ensures a <= b && b % 3 == 0
  {
  }

  lemma {:induction false} FieldCompoundNames(e: Expr, at: Place)
    requires e.FieldCompoundAssign? && at.syns % 3 == 0
    ensures ExprOwns(e, at)
    decreases e, 0
  {
    hide Owns, ExprCode, ExprFunctions, ExprEnd, NoSynthetics, CompoundCode, CompoundEnd;
    FieldCompoundParts(e, at);
    var at1 := ExprEnd(e.target, at);
    var at3 := Skip(at1, 1, 1);
    var end := CompoundEnd(e.value, at3);
    var o, result := ResultOf(e.target, at), ResultOf(e, at);
    var code, f1, f2 := ExprCode(e.target, at), ExprFunctions(e.target, at), ExprFunctions(e.value, Skip(at3, 1, 1));
    ExprNames(e.target, at);
    OwnsThirds(code, f1, at.syns, at1.syns);
    CompoundNames(e.op, "target", at1.regs, e.value, at3);
    var compound := CompoundCode(e.op, "target", at1.regs, e.value, at3);
    var read, write := [Compute(at1.regs, Field(e.field), [o])], [Compute(result + 1, AssignField(e.field), [o, result])];
    ComputePlain(at1.regs, Field(e.field), [o]);
    ComputePlain(result + 1, AssignField(e.field), [o, result]);
    OwnsAfter(code, f1, at.syns, at1.syns, read);
    OwnsJoin(code + read, f1, compound, f2, at.syns, at1.syns, end.syns);
    OwnsAfter(code + read + compound, f1 + f2, at.syns, end.syns, write);
  }

  lemma NoOperands(at: Place)
    requires at.syns % 3 == 0
    ensures Owns(OperandsCode(Empty, at), OperandsFunctions(Empty, at), at.syns, OperandsEnd(Empty, at).syns)
  {
  }

  lemma {:induction false} OperandsNames(es: List<Expr>, at: Place)
    requires at.syns % 3 == 0
    ensures Owns(OperandsCode(es, at), OperandsFunctions(es, at), at.syns, OperandsEnd(es, at).syns)
    decreases es, 0
  {
    hide Owns, ExprCode, ExprFunctions, ExprEnd, OperandsCode, OperandsFunctions, OperandsEnd;
    match es
    case Empty => NoOperands(at);
    case Cons(e, rest) =>
      var at1 := ExprEnd(e, at);
      OperandsParts(es, at);
      ExprNames(e, at);
      OwnsThirds(ExprCode(e, at), ExprFunctions(e, at), at.syns, at1.syns);
      OperandsNames(rest, at1);
      OwnsJoin(ExprCode(e, at), ExprFunctions(e, at), OperandsCode(rest, at1), OperandsFunctions(rest, at1), at.syns,
               at1.syns, OperandsEnd(rest, at1).syns);
  }

  lemma {:induction false} OperationNames(e: Expr, at: Place)
    requires e.Operation? && at.syns % 3 == 0
    ensures ExprOwns(e, at)
    decreases e, 0
  {
    hide Owns, ExprCode, ExprFunctions, ExprEnd, NoSynthetics, OperandsCode, OperandsFunctions, OperandsEnd;
    OperationParts(e, at);
    OperandsNames(e.operands, at);
    var end, args := OperandsEnd(e.operands, at), ResultsOf(e.operands, at);
    ComputePlain(end.regs, e.prim, args);
    OwnsAfter(OperandsCode(e.operands, at), OperandsFunctions(e.operands, at), at.syns, end.syns,
              [Compute(end.regs, e.prim, args)]);
  }

  lemma {:induction false} LogicalNames(e: Expr, at: Place)
    requires e.Logical? && at.syns % 3 == 0
    ensures ExprOwns(e, at)
    decreases e, 0
  {
    hide Owns, ExprCode, ExprFunctions, ExprEnd, NoSynthetics;
    LogicalParts(e, at);
    var at1 := ExprEnd(e.left, at);
    var at2 := Skip(at1, 2, 1);
    var end, result, left, right := ExprEnd(e.right, at2), at1.regs, ExprCode(e.left, at), ExprCode(e.right, at2);
    var f1, f2 := ExprFunctions(e.left, at), ExprFunctions(e.right, at2);
    ExprNames(e.left, at);
    OwnsThirds(left, f1, at.syns, at1.syns);
    ExprNames(e.right, at2);
    var copy, jump := Copy(result, ResultOf(e.left, at)), JumpIf(result, e.isOr, ExprEnd(e, at).code);
    var last := Copy(result, ResultOf(e.right, at2));
    PlainTwo(copy, jump);
    PlainOne(last);
    OwnsAfter(left, f1, at.syns, at1.syns, [copy, jump]);
    OwnsJoin(left + [copy, jump], f1, right, f2, at.syns, at1.syns, end.syns);
    OwnsAfter(left + [copy, jump] + right, f1 + f2, at.syns, end.syns, [last]);
  }

  lemma NoGuard(at: Place, fail: nat)
    requires at.syns % 3 == 0
    ensures Owns(GuardCode(None, at, fail), GuardFunctions(None, at), at.syns, GuardEnd(None, at).syns)
  {
  }

  lemma {:induction false} GuardNames(guard: Option<Expr>, at: Place, fail: nat)
    requires at.syns % 3 == 0
    ensures Owns(GuardCode(guard, at, fail), GuardFunctions(guard, at), at.syns, GuardEnd(guard, at).syns)
    decreases guard, 0
  {
    hide Owns, ExprCode, ExprFunctions, ExprEnd, NoSynthetics;
    match guard
    case None => NoGuard(at, fail);
    case Some(g) =>
      ExprNames(g, at);
      PlainOne(JumpIf(ResultOf(g, at), false, fail));
      OwnsAfter(ExprCode(g, at), ExprFunctions(g, at), at.syns, ExprEnd(g, at).syns,
                [JumpIf(ResultOf(g, at), false, fail)]);
  }

  /** The test of an arm: its pattern, the stores of its bindings and its guard. */
  lemma {:induction false} TestNames(pattern: Pattern, guard: Option<Expr>, v: Register, at: Place, fail: nat)
    requires at.syns % 3 == 0
    ensures
      var at1 := GuardPlace(pattern, at);
      Owns(BindCode(pattern, v, at, fail) + GuardCode(guard, at1, fail), GuardFunctions(guard, at1), at.syns,
           GuardEnd(guard, at1).syns)
    decreases guard, 1
  {
    hide Owns, NoSynthetics, PatternCode, StoreBindings, PatternBindings, GuardCode, GuardFunctions, GuardEnd;
    var at1 := GuardPlace(pattern, at);
    var bs := PatternBindings(pattern, v, at);
    PatternPlain(pattern, v, at, fail);
    StoresPlain(bs);
    PlainJoin(PatternCode(pattern, v, at, fail), StoreBindings(bs));
    GuardNames(guard, at1, fail);
    OwnsBefore(BindCode(pattern, v, at, fail), GuardCode(guard, at1, fail), GuardFunctions(guard, at1), at.syns,
               GuardEnd(guard, at1).syns);
  }

  lemma NoExprArms(v: Register, result: Register, at: Place, end: nat)
    requires at.syns % 3 == 0
    ensures Owns(ExprArmsCode(Empty, v, result, at, end), ExprArmsFunctions(Empty, at), at.syns,
                 ExprArmsEnd(Empty, at).syns)
  {
  }

  lemma {:induction false} ExprArmsNames(arms: List<ExprArm>, v: Register, result: Register, at: Place, end: nat)
    requires at.syns % 3 == 0
    ensures Owns(ExprArmsCode(arms, v, result, at, end), ExprArmsFunctions(arms, at), at.syns, ExprArmsEnd(arms, at).syns)
    decreases arms, 0
  {
    hide Owns, NoSynthetics, ExprCode, ExprFunctions, ExprEnd, ExprArmsCode, ExprArmsFunctions, ExprArmsEnd, BindCode,
      GuardCode, GuardFunctions, GuardEnd;
    match arms
    case Empty => NoExprArms(v, result, at, end);
    case Cons(arm, rest) =>
      var at1 := GuardPlace(arm.pattern, at);
      var at2 := GuardEnd(arm.guard, at1);
      var done := ExprEnd(arm.value, at2);
      var next := Skip(done, 2, 0);
      ExprArmsParts(arms, v, result, at, end);
      var code := BindCode(arm.pattern, v, at, next.code) + GuardCode(arm.guard, at1, next.code);
      var f1, f2, f3 := GuardFunctions(arm.guard, at1), ExprFunctions(arm.value, at2), ExprArmsFunctions(rest, next);
      TestNames(arm.pattern, arm.guard, v, at, next.code);
      OwnsThirds(code, f1, at.syns, at2.syns);
      ExprNames(arm.value, at2);
      OwnsThirds(ExprCode(arm.value, at2), f2, at2.syns, done.syns);
      ExprArmsNames(rest, v, result, next, end);
      OwnsJoin(code, f1, ExprCode(arm.value, at2), f2, at.syns, at2.syns, done.syns);
      code := code + ExprCode(arm.value, at2);
      var leave := [Copy(result, ResultOf(arm.value, at2)), Jump(end)];
      PlainTwo(Copy(result, ResultOf(arm.value, at2)), Jump(end));
      OwnsAfter(code, f1 + f2, at.syns, done.syns, leave);
      OwnsJoin(code + leave, f1 + f2, ExprArmsCode(rest, v, result, next, end), f3, at.syns, done.syns,
               ExprArmsEnd(rest, next).syns);
  }

  lemma {:induction false} MatchExprNames(e: Expr, at: Place)
    requires e.MatchExpr? && at.syns % 3 == 0
    ensures ExprOwns(e, at)
    decreases e, 0
  {
    hide Owns, ExprCode, ExprFunctions, ExprEnd, ExprArmsCode, ExprArmsFunctions, ExprArmsEnd;
    MatchExprParts(e, at);
    var end1 := ExprEnd(e.scrutinee, at);
    var at1 := Skip(end1, 0, 1);
    var v, end := ResultOf(e.scrutinee, at), ExprArmsEnd(e.arms, at1);
    ExprNames(e.scrutinee, at);
    OwnsThirds(ExprCode(e.scrutinee, at), ExprFunctions(e.scrutinee, at), at.syns, end1.syns);
    ExprArmsNames(e.arms, v, end1.regs, at1, end.code);
    OwnsJoin(ExprCode(e.scrutinee, at), ExprFunctions(e.scrutinee, at), ExprArmsCode(e.arms, v, end1.regs, at1, end.code),
             ExprArmsFunctions(e.arms, at1), at.syns, end1.syns, end.syns);
  }

  // ---------------------------------------------------------------------- functions

  /** The streams of a function and of the functions nested in it. */
  lemma {:induction false} FunctionNames(f: FunctionDef, at: Place)
    requires at.syns % 3 == 0
    ensures Owns([], FunctionTable(f, at), at.syns, FunctionEnd(f, at).syns)
    decreases f, 0
  {
    hide Owns, StmtsCode, StmtsFunctions, StmtsEnd, NoSynthetics;
    var start, end := Inner(at), StmtsEnd(f.body, Inner(at));
    var last := [Compute(end.regs, Constant(Nil), []), ReturnValue(end.regs)];
    StmtsNames(f.body, start, NoLoop);
    PlainTwo(Compute(end.regs, Constant(Nil), []), ReturnValue(end.regs));
    OwnsAfter(StmtsCode(f.body, start, NoLoop), StmtsFunctions(f.body, start), at.syns, end.syns, last);
    TableOwns(StmtsFunctions(f.body, start),
              FunctionBody(f.functionLabel, f.parameters, BodyCode(f.body, at), end.regs + 1), at.syns, end.syns);
  }

  lemma TableOwns(fs: seq<FunctionBody>, body: FunctionBody, a: nat, b: nat)
    requires Owns(body.code, fs, a, b)
    ensures Owns([], fs + [body], a, b)
  {
    hide SyntheticsOf, Made;
    TablesConcat(fs, [body]);
    assert [body][1..] == [];
    NothingPlain();
  }

  lemma {:induction false} LambdaNames(e: Expr, at: Place)
    requires e.Lambda? && at.syns % 3 == 0
    ensures ExprOwns(e, at)
    decreases e, 0
  {
    hide Owns, FunctionTable, StmtsEnd, NoSynthetics;
    FunctionNames(e.def, Skip(at, 1, 1));
    var make := MakeFunction(at.regs, StmtsEnd(e.def.body, Inner(at)).fns);
    PlainOne(make);
    OwnsAfter([], FunctionTable(e.def, Skip(at, 1, 1)), at.syns, FunctionEnd(e.def, Skip(at, 1, 1)).syns, [make]);
    assert [] + [make] == [make];
  }

  // --------------------------------------------------------------------- statements

  predicate StmtOwns(s: Stmt, at: Place, loop: Targets) {
    Owns(StmtCode(s, at, loop), StmtFunctions(s, at), at.syns, StmtEnd(s, at).syns)
  }

  lemma NoStatements(at: Place, loop: Targets)
    requires at.syns % 3 == 0
    ensures Owns(StmtsCode(Empty, at, loop), StmtsFunctions(Empty, at), at.syns, StmtsEnd(Empty, at).syns)
  {
  }

  lemma {:induction false} StmtsNames(ss: List<Stmt>, at: Place, loop: Targets)
    requires at.syns % 3 == 0
    ensures Owns(StmtsCode(ss, at, loop), StmtsFunctions(ss, at), at.syns, StmtsEnd(ss, at).syns)
    decreases ss, 0
  {
    hide Owns, StmtCode, StmtFunctions, StmtEnd, StmtsCode, StmtsFunctions, StmtsEnd;
    match ss
    case Empty => NoStatements(at, loop);
    case Cons(s, rest) =>
      var at1 := StmtEnd(s, at);
      StmtsCodeParts(ss, at, loop);
      StmtNames(s, at, loop);
      OwnsThirds(StmtCode(s, at, loop), StmtFunctions(s, at), at.syns, at1.syns);
      StmtsNames(rest, at1, loop);
      OwnsJoin(StmtCode(s, at, loop), StmtFunctions(s, at), StmtsCode(rest, at1, loop), StmtsFunctions(rest, at1), at.syns,
               at1.syns, StmtsEnd(rest, at1).syns);
  }

  lemma {:induction false} StmtNames(s: Stmt, at: Place, loop: Targets)
    requires at.syns % 3 == 0
    ensures StmtOwns(s, at, loop)
    decreases s, 2
  {
    hide StmtOwns;
    match s
    case Let(_, _) => OneExprNames(s, at, loop);
    case Print(_) => OneExprNames(s, at, loop);
    case Evaluate(_) => BareNames(s, at, loop);
    case Return(result) =>
      if result.Some? {
        OneExprNames(s, at, loop);
      } else {
        LeafNames(s, at, loop);
      }
    case Break => LeafNames(s, at, loop);
    case Continue => LeafNames(s, at, loop);
    case Block(_) => BlockNames(s, at, loop);
    case If(_, _, _) => IfNames(s, at, loop);
    case While(_, _) => WhileNames(s, at, loop);
    case For(_, _, _, _) => ForStmtNames(s, at, loop);
    case ForIn(_, _, _) => ForInNames(s, at, loop);
    case Match(_, _) => MatchNames(s, at, loop);
    case Function(_, _) => FunctionStmtNames(s, at, loop);
  }

  lemma {:induction false} OneExprNames(s: Stmt, at: Place, loop: Targets)
    requires (s.Let? || s.Print? || (s.Return? && s.result.Some?)) && at.syns % 3 == 0
    ensures StmtOwns(s, at, loop)
    decreases s, 1
  {
    hide Owns, ExprCode, ExprFunctions, ExprEnd, NoSynthetics;
    var e := match s case Let(_, e) => e case Print(e) => e case Return(r) => r.value;
    var r := ResultOf(e, at);
    var last := match s case Let(name, _) => StoreVar(User(name), r) case Print(_) => PrintValue(r) case Return(_) => ReturnValue(r);
    ExprNames(e, at);
    PlainOne(last);
    OwnsAfter(ExprCode(e, at), ExprFunctions(e, at), at.syns, ExprEnd(e, at).syns, [last]);
    assert StmtCode(s, at, loop) == ExprCode(e, at) + [last];
    assert StmtFunctions(s, at) == ExprFunctions(e, at) by {
      if s.Return? {
        assert GuardFunctions(s.result, at) == ExprFunctions(e, at);
      }
    }
    assert StmtEnd(s, at).syns == ExprEnd(e, at).syns;
  }

  lemma {:induction false} BareNames(s: Stmt, at: Place, loop: Targets)
    requires s.Evaluate? && at.syns % 3 == 0
    ensures StmtOwns(s, at, loop)
    decreases s, 1
  {
    hide Owns, ExprCode, ExprFunctions, ExprEnd;
    ExprNames(s.value, at);
  }

  lemma LeafNames(s: Stmt, at: Place, loop: Targets)
    requires (s.Break? || s.Continue? || s == Return(None)) && at.syns % 3 == 0
    ensures StmtOwns(s, at, loop)
  {
    hide SyntheticsOf, TableSynthetics, Made, NoSynthetics;
    OwnsNothing(at.syns);
    var code := StmtCode(s, at, loop);
    if s.Return? {
      PlainTwo(Compute(at.regs, Constant(Nil), []), ReturnValue(at.regs));
    } else {
      PlainOne(Jump(if s.Break? then BreakTarget(loop) else ContinueTarget(loop)));
    }
    OwnsAfter([], [], at.syns, at.syns, code);
    assert [] + code == code;
  }

  lemma {:induction false} BlockNames(s: Stmt, at: Place, loop: Targets)
    requires s.Block? && at.syns % 3 == 0
    ensures StmtOwns(s, at, loop)
    decreases s, 1
  {
    hide Owns, StmtsCode, StmtsFunctions, StmtsEnd;
    StmtsNames(s.body, at, loop);
  }

  lemma {:induction false} FunctionStmtNames(s: Stmt, at: Place, loop: Targets)
    requires s.Function? && at.syns % 3 == 0
    ensures StmtOwns(s, at, loop)
    decreases s, 1
  {
    hide Owns, FunctionTable, StmtsEnd, NoSynthetics;
    var index, fs := StmtsEnd(s.def.body, Inner(at)).fns, FunctionTable(s.def, Skip(at, 2, 1));
    FunctionNames(s.def, Skip(at, 2, 1));
    PlainTwo(Compute(at.regs, Constant(Nil), []), StoreVar(User(s.name), at.regs));
    PlainTwo(MakeFunction(at.regs + 1, index), AssignVar(User(s.name), at.regs + 1));
    var first := [Compute(at.regs, Constant(Nil), []), StoreVar(User(s.name), at.regs)];
    var last := [MakeFunction(at.regs + 1, index), AssignVar(User(s.name), at.regs + 1)];
    OwnsAfter([], fs, at.syns, FunctionEnd(s.def, Skip(at, 2, 1)).syns, first);
    OwnsAfter([] + first, fs, at.syns, FunctionEnd(s.def, Skip(at, 2, 1)).syns, last);
    assert [] + first + last == FunctionStmtCode(s.name, at, index);
    assert StmtCode(s, at, loop) == FunctionStmtCode(s.name, at, index);
    assert StmtFunctions(s, at) == fs;
    assert StmtEnd(s, at).syns == FunctionEnd(s.def, Skip(at, 2, 1)).syns;
  }

  lemma NoInit(at: Place, loop: Targets)
    requires at.syns % 3 == 0
    ensures Owns(InitCode(None, at, loop), InitFunctions(None, at), at.syns, InitEnd(None, at).syns)
  {
  }

  lemma {:induction false} InitNames(init: Option<Stmt>, at: Place, loop: Targets)
    requires at.syns % 3 == 0
    ensures Owns(InitCode(init, at, loop), InitFunctions(init, at), at.syns, InitEnd(init, at).syns)
    decreases init, 0
  {
    hide Owns, StmtCode, StmtFunctions, StmtEnd;
    match init
    case None => NoInit(at, loop);
    case Some(s) => StmtNames(s, at, loop);
  }

  lemma NoIncrement(at: Place)
    requires at.syns % 3 == 0
    ensures Owns(IncrementCode(None, at), IncrementFunctions(None, at), at.syns, IncrementEnd(None, at).syns)
  {
  }

  lemma {:induction false} IncrementNames(increment: Option<Expr>, at: Place)
    requires at.syns % 3 == 0
    ensures Owns(IncrementCode(increment, at), IncrementFunctions(increment, at), at.syns, IncrementEnd(increment, at).syns)
    decreases increment, 0
  {
    hide Owns, ExprCode, ExprFunctions, ExprEnd;
    match increment
    case None => NoIncrement(at);
    case Some(e) => ExprNames(e, at);
  }

  lemma LeavePlain(s: Stmt, at: Place)
    requires s.If?
    ensures NoSynthetics(LeaveThen(s, at))
  {
    hide StmtEnd;
    if s.elseBranch.Some? {
      PlainOne(Jump(StmtEnd(s, at).code));
    } else {
      NothingPlain();
    }
  }

  lemma {:induction false} IfNames(s: Stmt, at: Place, loop: Targets)
    requires s.If? && at.syns % 3 == 0
    ensures StmtOwns(s, at, loop)
    decreases s, 1
  {
    hide Owns, ExprCode, ExprFunctions, ExprEnd, StmtCode, StmtFunctions, StmtEnd, InitCode, InitFunctions, InitEnd,
      LeaveThen, NoSynthetics;
    var test, at1, at3 := ExprEnd(s.condition, at), Skip(ExprEnd(s.condition, at), 1, 0), ElsePlace(s, at);
    var at2, end := StmtEnd(s.thenBranch, at1), InitEnd(s.elseBranch, at3);
    IfPlaces(s, at);
    IfCodeParts(s, at, loop);
    IfFunctionParts(s, at);
    var jump := JumpIf(ResultOf(s.condition, at), false, at3.code);
    var code, f1, f2 := ExprCode(s.condition, at), ExprFunctions(s.condition, at), StmtFunctions(s.thenBranch, at1);
    ExprNames(s.condition, at);
    OwnsThirds(code, f1, at.syns, test.syns);
    StmtNames(s.thenBranch, at1, loop);
    OwnsThirds(StmtCode(s.thenBranch, at1, loop), f2, at1.syns, at2.syns);
    InitNames(s.elseBranch, at3, loop);
    PlainOne(jump);
    LeavePlain(s, at);
    OwnsAfter(code, f1, at.syns, test.syns, [jump]);
    OwnsJoin(code + [jump], f1, StmtCode(s.thenBranch, at1, loop), f2, at.syns, test.syns, at2.syns);
    code := code + [jump] + StmtCode(s.thenBranch, at1, loop);
    OwnsAfter(code, f1 + f2, at.syns, at2.syns, LeaveThen(s, at));
    OwnsJoin(code + LeaveThen(s, at), f1 + f2, InitCode(s.elseBranch, at3, loop), InitFunctions(s.elseBranch, at3), at.syns,
             at2.syns, end.syns);
  }

  lemma {:induction false} WhileNames(s: Stmt, at: Place, loop: Targets)
    requires s.While? && at.syns % 3 == 0
    ensures StmtOwns(s, at, loop)
    decreases s, 1
  {
    hide Owns, ExprCode, ExprFunctions, ExprEnd, StmtCode, StmtFunctions, NoSynthetics;
    var test, at1, end := ExprEnd(s.condition, at), Skip(ExprEnd(s.condition, at), 1, 0), StmtEnd(s, at).code;
    var inner, last := Loop(at.code, end), StmtEnd(s.loopBody, at1);
    WhileCodeParts(s, at, loop);
    var jump := JumpIf(ResultOf(s.condition, at), false, end);
    var code, f1, f2 := ExprCode(s.condition, at), ExprFunctions(s.condition, at), StmtFunctions(s.loopBody, at1);
    ExprNames(s.condition, at);
    OwnsThirds(code, f1, at.syns, test.syns);
    StmtNames(s.loopBody, at1, inner);
    PlainOne(jump);
    PlainOne(Jump(at.code));
    OwnsAfter(code, f1, at.syns, test.syns, [jump]);
    OwnsJoin(code + [jump], f1, StmtCode(s.loopBody, at1, inner), f2, at.syns, test.syns, last.syns);
    OwnsAfter(code + [jump] + StmtCode(s.loopBody, at1, inner), f1 + f2, at.syns, last.syns, [Jump(at.code)]);
  }

  lemma {:induction false} ForStmtNames(s: Stmt, at: Place, loop: Targets)
    requires s.For? && at.syns % 3 == 0
    ensures StmtOwns(s, at, loop)
    decreases s, 1
  {
    hide Owns, StmtCode, StmtFunctions, StmtEnd, InitCode, InitFunctions, InitEnd, ForCode, LoopFunctions, LoopEnd;
    var start := InitEnd(s.init, at);
    ForStmtParts(s, at, loop);
    InitNames(s.init, at, loop);
    OwnsThirds(InitCode(s.init, at, loop), InitFunctions(s.init, at), at.syns, start.syns);
    ForLoopNames(s, start);
    OwnsJoin(InitCode(s.init, at, loop), InitFunctions(s.init, at), ForCode(s, start), LoopFunctions(s, start), at.syns,
             start.syns, LoopEnd(s, start).syns);
  }

  lemma ForEndSyns(s: Stmt, start: Place)
    requires s.For?
    ensures
      var at1 := IncrementPlace(s.test, start);
      && at1.syns == GuardEnd(s.test, start).syns
      && LoopEnd(s, start).syns == StmtEnd(s.loopBody, Skip(IncrementEnd(s.increment, at1), 1, 0)).syns
  {
    hide GuardEnd, IncrementEnd, StmtEnd;
  }

  lemma {:induction false} ForLoopNames(s: Stmt, start: Place)
    requires s.For? && start.syns % 3 == 0
    ensures Owns(ForCode(s, start), LoopFunctions(s, start), start.syns, LoopEnd(s, start).syns)
    decreases s, 0
  {
    hide Owns, StmtCode, StmtFunctions, StmtEnd, GuardCode, GuardFunctions, GuardEnd, IncrementCode, IncrementFunctions,
      IncrementEnd, IncrementPlace, LoopEnd, LoopFunctions, ForCode, NoSynthetics;
    var test, at1 := GuardEnd(s.test, start), IncrementPlace(s.test, start);
    var increment, end := IncrementEnd(s.increment, at1), LoopEnd(s, start);
    var at2 := Skip(increment, 1, 0);
    var inner, last := Loop(at1.code, end.code), StmtEnd(s.loopBody, at2);
    ForEndSyns(s, start);
    ForCodeParts(s, start);
    var code, f1 := GuardCode(s.test, start, end.code), GuardFunctions(s.test, start);
    var f2, f3 := IncrementFunctions(s.increment, at1), StmtFunctions(s.loopBody, at2);
    GuardNames(s.test, start, end.code);
    OwnsThirds(code, f1, start.syns, test.syns);
    IncrementNames(s.increment, at1);
    OwnsThirds(IncrementCode(s.increment, at1), f2, at1.syns, increment.syns);
    StmtNames(s.loopBody, at2, inner);
    PlainOne(Jump(at2.code));
    PlainOne(Jump(start.code));
    PlainOne(Jump(at1.code));
    OwnsAfter(code, f1, start.syns, test.syns, [Jump(at2.code)]);
    code := code + [Jump(at2.code)];
    OwnsJoin(code, f1, IncrementCode(s.increment, at1), f2, start.syns, test.syns, increment.syns);
    code := code + IncrementCode(s.increment, at1);
    OwnsAfter(code, f1 + f2, start.syns, increment.syns, [Jump(start.code)]);
    code := code + [Jump(start.code)];
    OwnsJoin(code, f1 + f2, StmtCode(s.loopBody, at2, inner), f3, start.syns, increment.syns, last.syns);
    OwnsAfter(code + StmtCode(s.loopBody, at2, inner), f1 + f2 + f3, start.syns, last.syns, [Jump(at1.code)]);
  }

  // --- for-in

  lemma {:induction false} SyntheticsWithin(code: seq<Instr>, names: set<VarName>)
    requires forall i :: 0 <= i < |code| ==> NamesWithin(code[i], names)
    ensures SyntheticsOf(code) <= names
  {
    hide VariableOf;
    if code != [] {
      SyntheticsWithin(code[1..], names);
      assert NamesWithin(code[0], names);
    }
  }

  predicate NamesWithin(i: Instr, names: set<VarName>) {
    var x := VariableOf(i);
    x.None? || x.value.User? || x.value in names
  }

  lemma {:induction false} SyntheticsHave(code: seq<Instr>, i: nat)
    requires i < |code| && VariableOf(code[i]).Some? && VariableOf(code[i]).value.Synthetic?
    ensures VariableOf(code[i]).value in SyntheticsOf(code)
  {
    if i > 0 {
      SyntheticsHave(code[1..], i - 1);
    }
  }

  /** Set-up, test and increment use the three names of the loop. */
  lemma FixedNames(at: Place, item: string, iterable: Register, r: Register, start: nat, end: nat)
    requires at.syns % 3 == 0
    ensures
      SyntheticsOf(ForInSetup(at, item, iterable, r) + ForInTest(at, item, start, r + 5, end)
                   + ForInIncrement(at, start, r + 11))
      == Made(at.syns, at.syns + 3)
  {
    hide SyntheticsOf, Made;
    var setup, test, increment :=
      ForInSetup(at, item, iterable, r), ForInTest(at, item, start, r + 5, end), ForInIncrement(at, start, r + 11);
    MadeThree(at.syns);
    SyntheticsWithin(setup, Made(at.syns, at.syns + 3));
    SyntheticsWithin(test, Made(at.syns, at.syns + 3));
    SyntheticsWithin(increment, Made(at.syns, at.syns + 3));
    SyntheticsHave(setup, 1);
    SyntheticsHave(setup, 3);
    SyntheticsHave(setup, 8);
    SyntheticsConcat(setup, test);
    SyntheticsConcat(setup + test, increment);
  }

  lemma OwnsFixed(code: seq<Instr>, fs: seq<FunctionBody>, a: nat, b: nat, fixed: seq<Instr>)
    requires Owns(code, fs, a + 3, b) && SyntheticsOf(fixed) == Made(a, a + 3)
    ensures Owns(code + fixed, fs, a, b)
  {
    hide SyntheticsOf, TableSynthetics, Made;
    SyntheticsConcat(code, fixed);
    MadeSplit(a, a + 3, b);
  }

  lemma {:induction false} ForInNames(s: Stmt, at: Place, loop: Targets)
    requires s.ForIn? && at.syns % 3 == 0
    ensures StmtOwns(s, at, loop)
    decreases s, 1
  {
    hide Owns, ExprCode, ExprFunctions, ExprEnd, StmtCode, StmtFunctions, ForInSetup, ForInTest, ForInIncrement,
      NoSynthetics, Made, SyntheticsOf;
    var at0, at2 := at.(syns := at.syns + 3), BodyPlace(s, at);
    var at1, end := ExprEnd(s.iterable, at0), StmtEnd(s, at).code;
    var start, r, v := at1.code + 9, at1.regs, ResultOf(s.iterable, at0);
    var inner, last := Loop(start + 9, end), StmtEnd(s.loopBody, at2);
    ForInCodeParts(s, at, loop);
    var code, f1, f2 := ExprCode(s.iterable, at0), ExprFunctions(s.iterable, at0), StmtFunctions(s.loopBody, at2);
    var setup, test, increment :=
      ForInSetup(at, s.item, v, r), ForInTest(at, s.item, start, r + 5, end), ForInIncrement(at, start, r + 11);
    var body := StmtCode(s.loopBody, at2, inner);
    ExprNames(s.iterable, at0);
    OwnsThirds(code, f1, at0.syns, at1.syns);
    FixedNames(at, s.item, v, r, start, end);
    OwnsFixed(code, f1, at.syns, at1.syns, setup + test + increment);
    assert code + (setup + test + increment) == code + setup + test + increment;
    StmtNames(s.loopBody, at2, inner);
    PlainOne(Jump(start + 9));
    code := code + setup + test + increment;
    OwnsJoin(code, f1, body, f2, at.syns, at1.syns, last.syns);
    OwnsAfter(code + body, f1 + f2, at.syns, last.syns, [Jump(start + 9)]);
    ForInEndSyns(s, at);
  }

  lemma ForInEndSyns(s: Stmt, at: Place)
    requires s.ForIn?
    ensures StmtEnd(s, at).syns == StmtEnd(s.loopBody, BodyPlace(s, at)).syns
    ensures BodyPlace(s, at).syns == ExprEnd(s.iterable, at.(syns := at.syns + 3)).syns
  {
    hide ExprEnd;
  }

  lemma NoStmtArms(v: Register, at: Place, loop: Targets, end: nat)
    requires at.syns % 3 == 0
    ensures Owns(StmtArmsCode(Empty, v, at, loop, end), StmtArmsFunctions(Empty, at), at.syns, StmtArmsEnd(Empty, at).syns)
  {
  }

  lemma {:induction false} StmtArmsNames(arms: List<StmtArm>, v: Register, at: Place, loop: Targets, end: nat)
    requires at.syns % 3 == 0
    ensures Owns(StmtArmsCode(arms, v, at, loop, end), StmtArmsFunctions(arms, at), at.syns, StmtArmsEnd(arms, at).syns)
    decreases arms, 0
  {
    hide Owns, NoSynthetics, StmtCode, StmtFunctions, StmtEnd, StmtArmsCode, StmtArmsFunctions, StmtArmsEnd, BindCode,
      GuardCode, GuardFunctions, GuardEnd;
    match arms
    case Empty => NoStmtArms(v, at, loop, end);
    case Cons(arm, rest) =>
      var at1 := GuardPlace(arm.pattern, at);
      var at2 := GuardEnd(arm.guard, at1);
      var done := StmtEnd(arm.body, at2);
      var next := Skip(done, 1, 0);
      StmtArmsParts(arms, v, at, loop, end);
      var code, body := BindCode(arm.pattern, v, at, next.code) + GuardCode(arm.guard, at1, next.code),
                        StmtCode(arm.body, at2, loop);
      var f1, f2, f3 := GuardFunctions(arm.guard, at1), StmtFunctions(arm.body, at2), StmtArmsFunctions(rest, next);
      TestNames(arm.pattern, arm.guard, v, at, next.code);
      OwnsThirds(code, f1, at.syns, at2.syns);
      StmtNames(arm.body, at2, loop);
      OwnsThirds(body, f2, at2.syns, done.syns);
      StmtArmsNames(rest, v, next, loop, end);
      PlainOne(Jump(end));
      OwnsJoin(code, f1, body, f2, at.syns, at2.syns, done.syns);
      OwnsAfter(code + body, f1 + f2, at.syns, done.syns, [Jump(end)]);
      OwnsJoin(code + body + [Jump(end)], f1 + f2, StmtArmsCode(rest, v, next, loop, end), f3, at.syns, done.syns,
               StmtArmsEnd(rest, next).syns);
  }

  lemma {:induction false} MatchNames(s: Stmt, at: Place, loop: Targets)
    requires s.Match? && at.syns % 3 == 0
    ensures StmtOwns(s, at, loop)
    decreases s, 1
  {
    hide Owns, ExprCode, ExprFunctions, ExprEnd, StmtCode, StmtFunctions, StmtEnd, StmtArmsCode, StmtArmsFunctions,
      StmtArmsEnd;
    var at1, v, end := ExprEnd(s.scrutinee, at), ResultOf(s.scrutinee, at), StmtEnd(s, at);
    MatchStmtParts(s, at, loop);
    ExprNames(s.scrutinee, at);
    OwnsThirds(ExprCode(s.scrutinee, at), ExprFunctions(s.scrutinee, at), at.syns, at1.syns);
    StmtArmsNames(s.arms, v, at1, loop, end.code);
    OwnsJoin(ExprCode(s.scrutinee, at), ExprFunctions(s.scrutinee, at), StmtArmsCode(s.arms, v, at1, loop, end.code),
             StmtArmsFunctions(s.arms, at1), at.syns, at1.syns, end.syns);
  }

  // ------------------------------------------------------------------ whole programs

  /** The synthetic variables of all streams of a program. */
  function ProgramSynthetics(p: Program): set<VarName> {
    SyntheticsOf(p.code) + TableSynthetics(p.functions)
  }

  /** How many serial numbers lowering hands out. */
  function Serials(program: List<Stmt>): nat {
    StmtsEnd(program, Start).syns
  }

  /** The streams of a lowered program use exactly the names that were handed out. */
  lemma NamesExactly(program: List<Stmt>)
    ensures ProgramSynthetics(Lower(program)) == Made(0, Serials(program)) && Serials(program) % 3 == 0
  {
    hide SyntheticsOf, TableSynthetics, Made, StmtsCode, StmtsFunctions, StmtsEnd;
    StmtsNames(program, Start, NoLoop);
  }
}
