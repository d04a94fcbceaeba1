/** Programs whose match expressions always have an arm to take: a condition on the syntax under
    which no run ends without one.
 */
module Coverage {
  import opened Wrappers
  import opened Runtime
  import opened Ast
  import opened Semantics
  import opened IR
  import opened FunctionTables
  import opened LoweringCorrectness

  /** A pattern that no value fails, though reading a component may trap. */
  predicate Irrefutable(p: Pattern)
    decreases p
  {
    match p
    case Wildcard => true
    case Bind(_) => true
    case LiteralPattern(_) => false
    case RecordPattern(parts) => IrrefutableParts(parts)
    case VariantPattern(_, _, _) => false
    case OrPattern(first, others) => Irrefutable(first) || SomeIrrefutable(others)
  }

  predicate IrrefutableParts(parts: List<Component>)
    decreases parts
  {
    match parts
    case Empty => true
    case Cons(part, rest) => Irrefutable(part.pattern) && IrrefutableParts(rest)
  }

  predicate SomeIrrefutable(others: List<Pattern>)
    decreases others
  {
    match others
    case Empty => false
    case Cons(other, rest) => Irrefutable(other) || SomeIrrefutable(rest)
  }

  lemma {:induction false} NeverFails(rt: Runtime, p: Pattern, v: Value, w: World)
    requires Irrefutable(p)
    ensures !MatchPattern(rt, p, v, w).Fails?
    decreases p
  {
    match p
    case RecordPattern(parts) => PartsNeverFail(rt, parts, v, w);
    case OrPattern(first, others) =>
      if Irrefutable(first) {
        NeverFails(rt, first, v, w);
      } else {
        OthersNeverFail(rt, others, PatternNames(first), v, w);
      }
    case _ =>
  }

  lemma {:induction false} PartsNeverFail(rt: Runtime, parts: List<Component>, v: Value, w: World)
    requires IrrefutableParts(parts)
    ensures !MatchComponents(rt, parts, v, w).Fails?
    decreases parts
  {
    hide Apply;
    if parts.Cons? {
      var component := Apply(rt, SelectorPrim(parts.head.selector), [v], w);
      if component.Done? {
        NeverFails(rt, parts.head.pattern, component.value, w);
        PartsNeverFail(rt, parts.tail, v, w);
      }
    }
  }

  lemma {:induction false} OthersNeverFail(
    rt: Runtime, others: List<Pattern>, merged: seq<string>, v: Value, w: World
  )
    requires SomeIrrefutable(others)
    ensures !MatchAlternatives(rt, others, merged, v, w).Fails?
    decreases others
  {
    hide Reorder;
    if Irrefutable(others.head) {
      NeverFails(rt, others.head, v, w);
    } else {
      OthersNeverFail(rt, others.tail, merged, v, w);
    }
  }

  // Which patterns are irrefutable is exact: the others fail some value.

  /** Records are taken apart by named fields only, as the checker demands. */
  predicate ByName(p: Pattern)
    decreases p
  {
    match p
    case RecordPattern(parts) => PartsByName(parts)
    case OrPattern(first, others) => ByName(first) && AllByName(others)
    case _ => true
  }

  predicate PartsByName(parts: List<Component>)
    decreases parts
  {
    match parts
    case Empty => true
    case Cons(part, rest) => part.selector.MemberField? && ByName(part.pattern) && PartsByName(rest)
  }

  predicate AllByName(others: List<Pattern>)
    decreases others
  {
    match others
    case Empty => true
    case Cons(other, rest) => ByName(other) && AllByName(rest)
  }

  /** The text is longer than every text that the pattern is compared with. */
  predicate Longer(text: string, p: Pattern)
    decreases p
  {
    match p
    case LiteralPattern(c) => c.Text? ==> |c.s| < |text|
    case RecordPattern(parts) => LongerParts(text, parts)
    case OrPattern(first, others) => Longer(text, first) && LongerAll(text, others)
    case _ => true
  }

  predicate LongerParts(text: string, parts: List<Component>)
    decreases parts
  {
    match parts
    case Empty => true
    case Cons(part, rest) => Longer(text, part.pattern) && LongerParts(text, rest)
  }

  predicate LongerAll(text: string, others: List<Pattern>)
    decreases others
  {
    match others
    case Empty => true
    case Cons(other, rest) => Longer(text, other) && LongerAll(text, rest)
  }

  /** A runtime in which every field of everything holds this text. */
  function AlwaysField(text: string): Runtime {
    Runtime((prim, args, w) => Done(Nil, w), (h, v) => None, (h, c, i) => None, (h, o, n) => Some(Text(text)))
  }

  lemma {:induction false} FailsLonger(p: Pattern, text: string, w: World)
    requires ByName(p) && Longer(text, p)
    ensures
      var r := MatchPattern(AlwaysField(text), p, Text(text), w);
      if Irrefutable(p) then r.Matches? else r.Fails?
    decreases p
  {
    hide Reorder, AlwaysField;
    match p
    case RecordPattern(parts) => PartsFailLonger(parts, text, w);
    case OrPattern(first, others) =>
      FailsLonger(first, text, w);
      OthersFailLonger(others, PatternNames(first), text, w);
    case _ =>
  }

  lemma {:induction false} PartsFailLonger(parts: List<Component>, text: string, w: World)
    requires PartsByName(parts) && LongerParts(text, parts)
    ensures
      var r := MatchComponents(AlwaysField(text), parts, Text(text), w);
      if IrrefutableParts(parts) then r.Matches? else r.Fails?
    decreases parts
  {
    hide Apply, AlwaysField;
    if parts.Cons? {
      AlwaysText(parts.head.selector, text, w);
      FailsLonger(parts.head.pattern, text, w);
      PartsFailLonger(parts.tail, text, w);
    }
  }

  lemma AlwaysText(selector: Selector, text: string, w: World)
    requires selector.MemberField?
    ensures Apply(AlwaysField(text), SelectorPrim(selector), [Text(text)], w) == Done(Text(text), w)
  {
  }

  lemma {:induction false} OthersFailLonger(others: List<Pattern>, merged: seq<string>, text: string, w: World)
    requires AllByName(others) && LongerAll(text, others)
    ensures
      var r := MatchAlternatives(AlwaysField(text), others, merged, Text(text), w);
      if SomeIrrefutable(others) then r.Matches? else r.Fails?
    decreases others
  {
    hide Reorder, AlwaysField;
    if others.Cons? {
      FailsLonger(others.head, text, w);
      OthersFailLonger(others.tail, merged, text, w);
    }
  }

  /** A longer text than all of a pattern exists. */
  lemma {:induction false} LongerExists(p: Pattern) returns (n: nat)
    ensures forall text: string :: |text| >= n ==> Longer(text, p)
    decreases p
  {
    match p
    case LiteralPattern(c) => n := if c.Text? then |c.s| + 1 else 0;
    case RecordPattern(parts) => n := LongerPartsExists(parts);
    case OrPattern(first, others) =>
      var a := LongerExists(first);
      var b := LongerAllExists(others);
      n := a + b;
    case _ => n := 0;
  }

  lemma {:induction false} LongerPartsExists(parts: List<Component>) returns (n: nat)
    ensures forall text: string :: |text| >= n ==> LongerParts(text, parts)
    decreases parts
  {
    n := 0;
    if parts.Cons? {
      var a := LongerExists(parts.head.pattern);
      var b := LongerPartsExists(parts.tail);
      n := a + b;
    }
  }

  lemma {:induction false} LongerAllExists(others: List<Pattern>) returns (n: nat)
    ensures forall text: string :: |text| >= n ==> LongerAll(text, others)
    decreases others
  {
    n := 0;
    if others.Cons? {
      var a := LongerExists(others.head);
      var b := LongerAllExists(others.tail);
      n := a + b;
    }
  }

  /** A pattern is irrefutable exactly when no value fails it in any runtime. */
  lemma IrrefutableExactly(p: Pattern, w: World)
    requires ByName(p)
    ensures Irrefutable(p) <==> forall rt, v :: !MatchPattern(rt, p, v, w).Fails?
  {
    hide MatchPattern;
    if Irrefutable(p) {
      forall rt, v ensures !MatchPattern(rt, p, v, w).Fails? {
        NeverFails(rt, p, v, w);
      }
    } else {
      var n := LongerExists(p);
      var text: string := seq(n, _ => 'x');
      FailsLonger(p, text, w);
      assert MatchPattern(AlwaysField(text), p, Text(text), w).Fails?;
    }
  }

  // -------------------------------------------------------------------- expressions

  /** Some arm has no guard and a pattern that no value fails. */
  predicate Covers(arms: List<ExprArm>) {
    match arms
    case Empty => false
    case Cons(arm, rest) => (Irrefutable(arm.pattern) && arm.guard.None?) || Covers(rest)
  }

  /** Every match expression that is evaluated has such an arm. */
  predicate Covered(e: Expr)
    decreases e
  {
    match e
    case Literal(_) => true
    case Variable(_) => true
    case Assign(_, v) => Covered(v)
    case CompoundAssign(_, _, v) => Covered(v)
    case IndexCompoundAssign(_, c, i, v) => Covered(c) && Covered(i) && Covered(v)
    case FieldCompoundAssign(_, o, _, v) => Covered(o) && Covered(v)
    case Grouping(inner) => Covered(inner)
    case Operation(_, operands) => CoveredAll(operands)
    case Logical(_, l, r) => Covered(l) && Covered(r)
    case MatchExpr(s, arms) => Covered(s) && Covers(arms) && CoveredArms(arms)
    case Lambda(_) => true
  }

  predicate CoveredAll(es: List<Expr>)
    decreases es
  {
    match es
    case Empty => true
    case Cons(e, rest) => Covered(e) && CoveredAll(rest)
  }

  predicate CoveredGuard(guard: Option<Expr>)
    decreases guard
  {
    guard.Some? ==> Covered(guard.value)
  }

  predicate CoveredArms(arms: List<ExprArm>)
    decreases arms
  {
    match arms
    case Empty => true
    case Cons(arm, rest) => CoveredGuard(arm.guard) && Covered(arm.value) && CoveredArms(rest)
  }

  lemma {:induction false} CoveredEval(rt: Runtime, e: Expr, w: World)
    requires Covered(e)
    ensures !EvalExpr(rt, e, w).Unmatched?
    decreases e, 1
  {
    hide Apply, EvalCompound;
    match e
    case Assign(_, v) => CoveredEval(rt, v, w);
    case CompoundAssign(op, name, v) =>
      var old' := FromEffect(ReadVar(w, name));
      if old'.Yields? {
        CoveredCompound(rt, op, "variable", old'.value, v, old'.world);
      }
    case IndexCompoundAssign(op, c, i, v) => CoveredIndexCompound(rt, e, w);
    case FieldCompoundAssign(op, o, field, v) =>
      CoveredEval(rt, o, w);
      var target := EvalExpr(rt, o, w);
      if target.Yields? {
        var old' := FromEffect(Apply(rt, Field(field), [target.value], target.world));
        if old'.Yields? {
          CoveredCompound(rt, op, "target", old'.value, v, old'.world);
        }
      }
    case Grouping(inner) => CoveredEval(rt, inner, w);
    case Operation(_, operands) => CoveredOperands(rt, operands, w);
    case Logical(_, l, r) =>
      CoveredEval(rt, l, w);
      var left := EvalExpr(rt, l, w);
      if left.Yields? {
        CoveredEval(rt, r, left.world);
      }
    case MatchExpr(s, arms) =>
      CoveredEval(rt, s, w);
      var scrutinee := EvalExpr(rt, s, w);
      if scrutinee.Yields? {
        CoveredEvalArms(rt, arms, scrutinee.value, scrutinee.world);
      }
    case _ =>
  }

  lemma {:induction false} CoveredIndexCompound(rt: Runtime, e: Expr, w: World)
    requires e.IndexCompoundAssign? && Covered(e)
    ensures !EvalExpr(rt, e, w).Unmatched?
    decreases e, 0
  {
    hide Apply, EvalCompound;
    CoveredEval(rt, e.collection, w);
    var c := EvalExpr(rt, e.collection, w);
    if c.Yields? {
      CoveredEval(rt, e.index, c.world);
      var i := EvalExpr(rt, e.index, c.world);
      if i.Yields? {
        var old' := FromEffect(Apply(rt, Index, [c.value, i.value], i.world));
        if old'.Yields? {
          CoveredCompound(rt, e.op, "target", old'.value, e.value, old'.world);
        }
      }
    }
  }

  lemma {:induction false} CoveredCompound(
    rt: Runtime, op: ArithmeticOp, role: string, old': Value, value: Expr, w: World
  )
    requires Covered(value)
    ensures !EvalCompound(rt, op, role, old', value, w).Unmatched?
    decreases value, 2
  {
    hide Apply, EvalExpr, CompoundMessage;
    var checked := FromEffect(Apply(rt, AssertNumber(CompoundMessage(op, role)), [old'], w));
    if checked.Yields? {
      CoveredEval(rt, value, checked.world);
    }
  }

  lemma {:induction false} CoveredOperands(rt: Runtime, es: List<Expr>, w: World)
    requires CoveredAll(es)
    ensures !EvalOperands(rt, es, w).Unmatched?
    decreases es, 0
  {
    if es.Cons? {
      CoveredEval(rt, es.head, w);
      var first := EvalExpr(rt, es.head, w);
      if first.Yields? {
        CoveredOperands(rt, es.tail, first.world);
      }
    }
  }

  lemma {:induction false} CoveredTry(rt: Runtime, pattern: Pattern, guard: Option<Expr>, v: Value, w: World)
    requires CoveredGuard(guard)
    ensures !TryArm(rt, pattern, guard, v, w).Unmatched?
    ensures
      var taken := TryArm(rt, pattern, guard, v, w);
      Irrefutable(pattern) && guard.None? && taken.Yields? ==> taken.value
    decreases guard, 1
  {
    hide MatchPattern, BindAll, EvalExpr;
    if Irrefutable(pattern) {
      NeverFails(rt, pattern, v, w);
    }
    var matched := MatchPattern(rt, pattern, v, w);
    if matched.Matches? && guard.Some? {
      CoveredEval(rt, guard.value, BindAll(w, matched.bindings));
    }
  }

  lemma {:induction false} CoveredEvalArms(rt: Runtime, arms: List<ExprArm>, v: Value, w: World)
    requires CoveredArms(arms) && Covers(arms)
    ensures !EvalArms(rt, arms, v, w).Unmatched?
    decreases arms, 0
  {
    hide TryArm, Irrefutable, EvalExpr;
    CoveredTry(rt, arms.head.pattern, arms.head.guard, v, w);
    var taken := TryArm(rt, arms.head.pattern, arms.head.guard, v, w);
    if taken.Yields? {
      if taken.value {
        CoveredEval(rt, arms.head.value, taken.world);
      } else {
        CoveredEvalArms(rt, arms.tail, v, taken.world);
      }
    }
  }

  // --------------------------------------------------------------------- statements

  predicate CoveredStmt(s: Stmt)
    decreases s
  {
    match s
    case Let(_, e) => Covered(e)
    case Print(e) => Covered(e)
    case Evaluate(e) => Covered(e)
    case Return(e) => CoveredGuard(e)
    case Break => true
    case Continue => true
    case Block(body) => CoveredStmts(body)
    case If(c, t, e) => Covered(c) && CoveredStmt(t) && (e.Some? ==> CoveredStmt(e.value))
    case While(c, body) => Covered(c) && CoveredStmt(body)
    case For(init, test, increment, body) =>
      (init.Some? ==> CoveredStmt(init.value)) && CoveredGuard(test) && CoveredGuard(increment) && CoveredStmt(body)
    case ForIn(_, e, body) => Covered(e) && CoveredStmt(body)
    case Match(e, arms) => Covered(e) && CoveredStmtArms(arms)
    case Function(_, _) => true
  }

  predicate CoveredStmts(ss: List<Stmt>)
    decreases ss
  {
    match ss
    case Empty => true
    case Cons(s, rest) => CoveredStmt(s) && CoveredStmts(rest)
  }

  predicate CoveredStmtArms(arms: List<StmtArm>)
    decreases arms
  {
    match arms
    case Empty => true
    case Cons(arm, rest) => CoveredGuard(arm.guard) && CoveredStmt(arm.body) && CoveredStmtArms(rest)
  }

  lemma CoveredTest(rt: Runtime, guard: Option<Expr>, w: World)
    requires CoveredGuard(guard)
    ensures !EvalGuard(rt, guard, w).Unmatched?
  {
    hide EvalExpr;
    if guard.Some? {
      CoveredEval(rt, guard.value, w);
    }
  }

  lemma {:induction false} CoveredExec(rt: Runtime, s: Stmt, w: World, fuel: nat)
    requires CoveredStmt(s)
    ensures !Exec(rt, s, w, fuel).NoArm?
    decreases fuel, s, 1
  {
    hide EvalExpr, Apply, EvalGuard, TryArm, Covered;
    match s
    case Let(_, e) => CoveredEval(rt, e, w);
    case Print(e) => CoveredEval(rt, e, w);
    case Evaluate(e) => CoveredEval(rt, e, w);
    case Return(e) =>
      if e.Some? {
        CoveredEval(rt, e.value, w);
      }
    case Block(body) => CoveredExecAll(rt, body, w, fuel);
    case If(c, t, e) =>
      CoveredEval(rt, c, w);
      var test := EvalExpr(rt, c, w);
      if test.Yields? {
        if Truthy(test.value) {
          CoveredExec(rt, t, test.world, fuel);
        } else {
          CoveredOption(rt, e, test.world, fuel);
        }
      }
    case While(_, _) => CoveredWhile(rt, s, w, fuel);
    case For(init, test, increment, body) =>
      CoveredOption(rt, init, w, fuel);
      var started := ExecOption(rt, init, w, fuel);
      if started.Normal? {
        CoveredFor(rt, test, increment, body, started.world, fuel);
      }
    case ForIn(item, iterable, body) =>
      CoveredIterable(rt, item, iterable, w);
      var r := EvalIterable(rt, item, iterable, w);
      if r.Yields? {
        CoveredForIn(rt, item, r.value.0, r.value.1, 0, body, r.world, fuel);
      }
    case Match(e, arms) =>
      CoveredEval(rt, e, w);
      var scrutinee := EvalExpr(rt, e, w);
      if scrutinee.Yields? {
        CoveredExecArms(rt, arms, scrutinee.value, scrutinee.world, fuel);
      }
    case _ =>
  }

  lemma {:induction false} CoveredOption(rt: Runtime, s: Option<Stmt>, w: World, fuel: nat)
    requires s.Some? ==> CoveredStmt(s.value)
    ensures !ExecOption(rt, s, w, fuel).NoArm?
    decreases fuel, s, 0
  {
    hide Exec;
    if s.Some? {
      CoveredExec(rt, s.value, w, fuel);
    }
  }

  lemma {:induction false} CoveredExecAll(rt: Runtime, ss: List<Stmt>, w: World, fuel: nat)
    requires CoveredStmts(ss)
    ensures !ExecAll(rt, ss, w, fuel).NoArm?
    decreases fuel, ss, 0
  {
    hide Exec;
    if ss.Cons? {
      CoveredExec(rt, ss.head, w, fuel);
      var first := Exec(rt, ss.head, w, fuel);
      if first.Normal? {
        CoveredExecAll(rt, ss.tail, first.world, fuel);
      }
    }
  }

  lemma {:induction false} CoveredWhile(rt: Runtime, s: Stmt, w: World, fuel: nat)
    requires s.While? && CoveredStmt(s)
    ensures !Exec(rt, s, w, fuel).NoArm?
    decreases fuel, s, 0
  {
    hide EvalExpr, Covered;
    CoveredEval(rt, s.condition, w);
    var test := EvalExpr(rt, s.condition, w);
    if test.Yields? && Truthy(test.value) && fuel > 0 {
      CoveredExec(rt, s.loopBody, test.world, fuel);
      var turn := Exec(rt, s.loopBody, test.world, fuel);
      if turn.Normal? || turn.Continued? {
        CoveredExec(rt, s, turn.world, fuel - 1);
      }
    }
  }

  lemma {:induction false} CoveredFor(
    rt: Runtime, test: Option<Expr>, increment: Option<Expr>, body: Stmt, w: World, fuel: nat
  )
    requires CoveredGuard(test) && CoveredGuard(increment) && CoveredStmt(body)
    ensures !ExecFor(rt, test, increment, body, w, fuel).NoArm?
    decreases fuel, body, 2
  {
    hide EvalGuard, Exec, CoveredGuard;
    CoveredTest(rt, test, w);
    var go := EvalGuard(rt, test, w);
    if go.Yields? && go.value && fuel > 0 {
      CoveredExec(rt, body, go.world, fuel);
      var turn := Exec(rt, body, go.world, fuel);
      if turn.Normal? || turn.Continued? {
        CoveredIncrement(rt, test, increment, body, turn.world, fuel - 1);
      }
    }
  }

  lemma {:induction false} CoveredIncrement(
    rt: Runtime, test: Option<Expr>, increment: Option<Expr>, body: Stmt, w: World, fuel: nat
  )
    requires CoveredGuard(test) && CoveredGuard(increment) && CoveredStmt(body)
    ensures !ExecIncrement(rt, test, increment, body, w, fuel).NoArm?
    decreases fuel, body, 3
  {
    hide EvalGuard, ExecFor, CoveredGuard;
    CoveredTest(rt, increment, w);
    var done := EvalGuard(rt, increment, w);
    if done.Yields? {
      CoveredFor(rt, test, increment, body, done.world, fuel);
    }
  }

  lemma CoveredIterable(rt: Runtime, item: string, iterable: Expr, w: World)
    requires Covered(iterable)
    ensures !EvalIterable(rt, item, iterable, w).Unmatched?
  {
    hide EvalExpr, Apply;
    CoveredEval(rt, iterable, w);
  }

  lemma {:induction false} CoveredForIn(
    rt: Runtime, item: string, collection: Value, length: nat, i: nat, body: Stmt, w: World, fuel: nat
  )
    requires CoveredStmt(body)
    ensures !ExecForIn(rt, item, collection, length, i, body, w, fuel).NoArm?
    decreases fuel, body, 2
  {
    hide Exec;
    if i < length && fuel > 0 {
      var v := rt.index(w.heap, collection, Number(i as real));
      if v.Some? {
        var stored := UpdateVar(w, item, v.value);
        if stored.Done? {
          CoveredExec(rt, body, stored.world, fuel);
          var turn := Exec(rt, body, stored.world, fuel);
          if turn.Normal? || turn.Continued? {
            CoveredForIn(rt, item, collection, length, i + 1, body, turn.world, fuel - 1);
          }
        }
      }
    }
  }

  lemma {:induction false} CoveredExecArms(rt: Runtime, arms: List<StmtArm>, v: Value, w: World, fuel: nat)
    requires CoveredStmtArms(arms)
    ensures !ExecArms(rt, arms, v, w, fuel).NoArm?
    decreases fuel, arms, 0
  {
    hide TryArm, Exec;
    if arms.Cons? {
      CoveredTry(rt, arms.head.pattern, arms.head.guard, v, w);
      var taken := TryArm(rt, arms.head.pattern, arms.head.guard, v, w);
      if taken.Yields? {
        if taken.value {
          CoveredExec(rt, arms.head.body, taken.world, fuel);
        } else {
          CoveredExecArms(rt, arms.tail, v, taken.world, fuel);
        }
      }
    }
  }

  // ------------------------------------------------------------------ whole programs

  /** A covered program: a halted machine ended as the source does. */
  lemma CoveredReflected(rt: Runtime, program: List<Stmt>, w: World, n: nat)
    requires StmtsOk(program, false) && CoveredStmts(program)
    requires Halted(Lower(program), Steps(rt, Lower(program), Initial(w), n))
    ensures Ends(Lower(program), ExecAll(rt, program, w, n), Steps(rt, Lower(program), Initial(w), n))
  {
    hide *;
    CoveredExecAll(rt, program, w, n);
    ProgramReflected(rt, program, w, n);
  }

  /** A covered program: the machine halts exactly when the source finishes. */
  lemma CoveredTermination(rt: Runtime, program: List<Stmt>, w: World)
    requires StmtsOk(program, false) && CoveredStmts(program)
    ensures
      var p := Lower(program);
      (exists n :: Halted(p, Steps(rt, p, Initial(w), n))) <==> (exists fuel :: Finishes(ExecAll(rt, program, w, fuel)))
  {
    hide *;
    forall fuel: nat ensures !ExecAll(rt, program, w, fuel).NoArm? {
      CoveredExecAll(rt, program, w, fuel);
    }
    TerminationAgrees(rt, program, w);
  }
}
