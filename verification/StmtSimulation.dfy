/** Compiled statements: for every outcome of the reference execution the machine
    reaches the matching place with the same world, and a statement that does not
    finish keeps the machine running.
 */
module StmtSimulation {
  import opened Wrappers
  import opened Runtime
  import opened Ast
  import opened Semantics
  import opened IR
  import opened Lowering
  import opened FunctionTables
  import opened CodeEquations
  import opened Placement
  import opened PatternSimulation
  import opened ExprSimulation

  /** Synthetic variables numbered below `limit` keep their values. */
  predicate KeepsHidden(a: map<VarName, Value>, b: map<VarName, Value>, limit: nat) {
    forall x :: x in a && x.Synthetic? && x.serial < limit ==> x in b && b[x] == a[x]
  }

  /** `m'` runs on at `pc` in world `w`; registers and synthetic variables from before `at` are kept. */
  predicate Reaches(m: State, m': State, at: Place, pc: nat, w: World)
    requires m.Running?
  {
    && m'.Running?
    && m'.pc == pc
    && m'.world == w
    && Agree(m.regs, m'.regs, at.regs)
    && KeepsHidden(m.hidden, m'.hidden, at.syns)
  }

  /** The machine after `n` steps agrees with the outcome of the statement placed at `at`. */
  predicate StmtLands(
    r: Outcome, p: Program, m: State, m': State, n: nat, fuel: nat, at: Place, end: nat, loop: Targets
  )
    requires m.Running?
  {
    match r
    case Normal(w) => Reaches(m, m', at, end, w)
    case Broke(w) => loop.Loop? && Reaches(m, m', at, BreakTarget(loop), w)
    case Continued(w) => loop.Loop? && Reaches(m, m', at, ContinueTarget(loop), w)
    case Returned(v, w) => m' == State.Returned(v, w)
    case Faulted(message, w) => m' == Trapped(message, w)
    case NoArm => true
    case OutOfFuel => n >= fuel && !Halted(p, m')
  }

  predicate StmtPlaced(p: Program, s: Stmt, at: Place, loop: Targets) {
    CodeAt(p, at.code, StmtCode(s, at, loop)) && TableAt(p, at.fns, StmtFunctions(s, at))
  }

  predicate StmtsPlaced(p: Program, ss: List<Stmt>, at: Place, loop: Targets) {
    CodeAt(p, at.code, StmtsCode(ss, at, loop)) && TableAt(p, at.fns, StmtsFunctions(ss, at))
  }

  lemma ReachesSelf(m: State, at: Place)
    requires m.Running?
    ensures Reaches(m, m, at, m.pc, m.world)
  {
  }

  lemma ReachesTrans(m: State, m1: State, m2: State, at: Place, at1: Place)
    requires m.Running? && m1.Running? && Before(at, at1)
    requires Reaches(m, m1, at, m1.pc, m1.world)
    requires m2.Running? && Reaches(m1, m2, at1, m2.pc, m2.world)
    ensures Reaches(m, m2, at, m2.pc, m2.world)
  {
  }

  /** A statement run after a run from an earlier place. */
  lemma StmtAfter(
    r: Outcome, p: Program, m: State, m1: State, m2: State, n1: nat, n2: nat, fuel: nat, fuel2: nat,
    at: Place, at1: Place, end: nat, loop: Targets
  )
    requires m.Running? && m1.Running? && Before(at, at1) && fuel <= n1 + fuel2
    requires Reaches(m, m1, at, m1.pc, m1.world)
    requires StmtLands(r, p, m1, m2, n2, fuel2, at1, end, loop)
    ensures StmtLands(r, p, m, m2, n1 + n2, fuel, at, end, loop)
  {
    hide Agree, KeepsHidden;
    if r.Normal? || r.Broke? || r.Continued? {
      ReachesTrans(m, m1, m2, at, at1);
    }
  }

  /** An expression inside a statement: it yields its value, or its failure is the statement's. */
  lemma AfterExpr(
    r: Eval<Value>, p: Program, m: State, m1: State, at: Place, end: nat, result: Register,
    n: nat, fuel: nat, stmtEnd: nat, loop: Targets
  )
    requires m.Running? && YieldsTo(r, m, m1, at.regs, end, result)
    ensures r.Yields? ==>
      && m1.Running? && m1.pc == end && m1.world == r.world
      && result in m1.regs && m1.regs[result] == r.value
      && Reaches(m, m1, at, m1.pc, m1.world)
    ensures !r.Yields? ==> StmtLands(Abort(r), p, m, m1, n, fuel, at, stmtEnd, loop)
  {
  }

  /** The same for an arm test or guard. */
  lemma AfterGuard(
    r: Eval<bool>, p: Program, m: State, m1: State, at: Place, end: nat, fail: nat,
    n: nat, fuel: nat, stmtEnd: nat, loop: Targets
  )
    requires m.Running? && GuardLands(r, m, m1, at.regs, end, fail)
    ensures r.Yields? ==>
      && m1.Running? && m1.pc == (if r.value then end else fail) && m1.world == r.world
      && Reaches(m, m1, at, m1.pc, m1.world)
    ensures !r.Yields? ==> StmtLands(Abort(r), p, m, m1, n, fuel, at, stmtEnd, loop)
  {
  }

  /** The last instruction of a statement leaves registers and synthetic variables alone. */
  lemma ThenWorld(m: State, m1: State, at: Place, pc: nat, w: World)
    requires m.Running? && m1.Running? && Reaches(m, m1, at, m1.pc, m1.world)
    ensures Reaches(m, m1.(pc := pc, world := w), at, pc, w)
  {
  }

  lemma IsNormal(
    p: Program, m: State, m1: State, n: nat, fuel: nat, at: Place, end: nat, loop: Targets
  )
    requires m.Running? && m1.Running? && Reaches(m, m1, at, end, m1.world)
    ensures StmtLands(Normal(m1.world), p, m, m1, n, fuel, at, end, loop)
  {
  }

  lemma IsUnfinished(p: Program, m: State, n: nat, fuel: nat, at: Place, end: nat, loop: Targets)
    requires m.Running? && m.pc < |p.code| && n >= fuel
    ensures StmtLands(OutOfFuel, p, m, m, n, fuel, at, end, loop)
  {
  }

  // ------------------------------------------------------------------- dispatch

  lemma {:induction false} SimStmt(
    rt: Runtime, p: Program, s: Stmt, at: Place, loop: Targets, m: State, fuel: nat
  ) returns (n: nat, m': State)
    requires m.Running? && m.pc == at.code && StmtOk(s, loop.Loop?) && StmtPlaced(p, s, at, loop)
    ensures Runs(rt, p, m, n, m')
    ensures StmtLands(Exec(rt, s, m.world, fuel), p, m, m', n, fuel, at, StmtEnd(s, at).code, loop)
    decreases fuel, s, 4
  {
    hide *;
    match s
    case Let(_, _) => n, m' := SimSimple(rt, p, s, at, loop, m, fuel);
    case Print(_) => n, m' := SimSimple(rt, p, s, at, loop, m, fuel);
    case Evaluate(_) => n, m' := SimEvaluate(rt, p, s, at, loop, m, fuel);
    case Return(result) =>
      if result.None? {
        n, m' := SimReturnNil(rt, p, s, at, loop, m, fuel);
      } else {
        n, m' := SimSimple(rt, p, s, at, loop, m, fuel);
      }
    case Break => n, m' := SimBreak(rt, p, s, at, loop, m, fuel);
    case Continue => n, m' := SimBreak(rt, p, s, at, loop, m, fuel);
    case Block(body) =>
      BlockParts(rt, p, s, at, loop, m.world, fuel);
      n, m' := SimStmts(rt, p, body, at, loop, m, fuel);
    case If(_, _, _) => n, m' := SimIf(rt, p, s, at, loop, m, fuel);
    case While(_, _) => n, m' := SimWhile(rt, p, s, at, loop, m, fuel);
    case For(_, _, _, _) => n, m' := SimForStmt(rt, p, s, at, loop, m, fuel);
    case ForIn(_, _, _) => n, m' := SimForInStmt(rt, p, s, at, loop, m, fuel);
    case Match(_, _) => n, m' := SimMatch(rt, p, s, at, loop, m, fuel);
    case Function(_, _) => n, m' := SimFunctionStmt(rt, p, s, at, loop, m, fuel);
  }

  lemma BlockParts(rt: Runtime, p: Program, s: Stmt, at: Place, loop: Targets, w: World, fuel: nat)
    requires s.Block?
    ensures StmtOk(s, loop.Loop?) == StmtsOk(s.body, loop.Loop?)
    ensures StmtPlaced(p, s, at, loop) == StmtsPlaced(p, s.body, at, loop)
    ensures Exec(rt, s, w, fuel) == ExecAll(rt, s.body, w, fuel)
    ensures StmtEnd(s, at) == StmtsEnd(s.body, at)
  {
  }

  // ----------------------------------------------------------- simple statements

  /** The expression of a `let`, `print` or `return e` statement. */
  function Operand(s: Stmt): Expr
    requires s.Let? || s.Print? || (s.Return? && s.result.Some?)
  {
    match s
    case Let(_, e) => e
    case Print(e) => e
    case Return(e) => e.value
  }

  /** The instruction after it. */
  function LastInstr(s: Stmt, source: Register): Instr
    requires s.Let? || s.Print? || (s.Return? && s.result.Some?)
  {
    match s
    case Let(name, _) => StoreVar(User(name), source)
    case Print(_) => PrintValue(source)
    case Return(_) => ReturnValue(source)
  }

  /** What it does. */
  function LastEffect(s: Stmt, v: Value, w: World): Outcome
    requires s.Let? || s.Print? || (s.Return? && s.result.Some?)
  {
    match s
    case Let(name, _) => Normal(BindVar(w, name, v))
    case Print(_) => Normal(Emit(w, v))
    case Return(_) => Outcome.Returned(v, w)
  }

  lemma SimpleParts(rt: Runtime, p: Program, s: Stmt, at: Place, loop: Targets, w: World, fuel: nat)
    requires s.Let? || s.Print? || (s.Return? && s.result.Some?)
    requires StmtOk(s, loop.Loop?) && StmtPlaced(p, s, at, loop)
    ensures ExprOk(Operand(s)) && TableAt(p, at.fns, ExprFunctions(Operand(s), at))
    ensures CodeAt(p, at.code, ExprCode(Operand(s), at) + [LastInstr(s, ResultOf(Operand(s), at))])
    ensures StmtEnd(s, at).code == ExprEnd(Operand(s), at).code + 1
    ensures
      var r := EvalExpr(rt, Operand(s), w);
      Exec(rt, s, w, fuel) == if r.Yields? then LastEffect(s, r.value, r.world) else Abort(r)
  {
    hide CodeAt, TableAt, ExprCode, ExprEnd, ExprFunctions, ResultOf, EvalExpr, ExprOk, BindVar, Emit;
    if s.Return? {
      assert GuardFunctions(s.result, at) == ExprFunctions(s.result.value, at);
    }
  }

  lemma SimSimple(
    rt: Runtime, p: Program, s: Stmt, at: Place, loop: Targets, m: State, fuel: nat
  ) returns (n: nat, m': State)
    requires s.Let? || s.Print? || (s.Return? && s.result.Some?)
    requires m.Running? && m.pc == at.code && StmtOk(s, loop.Loop?) && StmtPlaced(p, s, at, loop)
    ensures Runs(rt, p, m, n, m')
    ensures StmtLands(Exec(rt, s, m.world, fuel), p, m, m', n, fuel, at, StmtEnd(s, at).code, loop)
  {
    hide *;
    SimpleParts(rt, p, s, at, loop, m.world, fuel);
    var e, end := Operand(s), StmtEnd(s, at).code;
    var last := [LastInstr(s, ResultOf(e, at))];
    CodeSplit(p, at.code, ExprCode(e, at), last);
    InstrAt(p, ExprEnd(e, at).code, last, 0);
    PlacedHere(p, e, at);
    n, m' := SimExpr(rt, p, e, at, m);
    var r := EvalExpr(rt, e, m.world);
    AfterExpr(r, p, m, m', at, ExprEnd(e, at).code, ResultOf(e, at), n, fuel, end, loop);
    if r.Yields? {
      var m2 := LastRuns(rt, p, s, at, loop, m, m', r.value, ResultOf(e, at), end, n + 1, fuel);
      RunsThen(rt, p, m, n, m', 1, m2);
      n, m' := n + 1, m2;
    }
  }

  lemma LastRuns(
    rt: Runtime, p: Program, s: Stmt, at: Place, loop: Targets, m: State, m1: State, v: Value, source: Register,
    end: nat, n: nat, fuel: nat
  ) returns (m': State)
    requires s.Let? || s.Print? || (s.Return? && s.result.Some?)
    requires m.Running? && m1.Running? && Reaches(m, m1, at, m1.pc, m1.world)
    requires source in m1.regs && m1.regs[source] == v && end == m1.pc + 1
    requires m1.pc < |p.code| && p.code[m1.pc] == LastInstr(s, source)
    ensures Runs(rt, p, m1, 1, m')
    ensures StmtLands(LastEffect(s, v, m1.world), p, m, m', n, fuel, at, end, loop)
  {
    hide Runs, Reaches, Halted;
    match s
    case Let(name, _) =>
      DoStore(rt, p, m1, User(name), source);
      m' := m1.(pc := end, world := BindVar(m1.world, name, v));
      ThenWorld(m, m1, at, end, m'.world);
    case Print(_) =>
      DoPrint(rt, p, m1, source);
      m' := m1.(pc := end, world := Emit(m1.world, v));
      ThenWorld(m, m1, at, end, m'.world);
    case Return(_) =>
      DoReturn(rt, p, m1, source);
      m' := State.Returned(v, m1.world);
  }

  lemma EvaluateParts(rt: Runtime, p: Program, s: Stmt, at: Place, loop: Targets, w: World, fuel: nat)
    requires s.Evaluate? && StmtOk(s, loop.Loop?) && StmtPlaced(p, s, at, loop)
    ensures ExprOk(s.value) && Placed(p, s.value, at) && StmtEnd(s, at) == ExprEnd(s.value, at)
    ensures
      var r := EvalExpr(rt, s.value, w);
      Exec(rt, s, w, fuel) == if r.Yields? then Normal(r.world) else Abort(r)
  {
    hide CodeAt, TableAt, ExprCode, ExprEnd, ExprFunctions, EvalExpr;
  }

  lemma SimEvaluate(
    rt: Runtime, p: Program, s: Stmt, at: Place, loop: Targets, m: State, fuel: nat
  ) returns (n: nat, m': State)
    requires s.Evaluate?
    requires m.Running? && m.pc == at.code && StmtOk(s, loop.Loop?) && StmtPlaced(p, s, at, loop)
    ensures Runs(rt, p, m, n, m')
    ensures StmtLands(Exec(rt, s, m.world, fuel), p, m, m', n, fuel, at, StmtEnd(s, at).code, loop)
  {
    hide *;
    EvaluateParts(rt, p, s, at, loop, m.world, fuel);
    n, m' := SimExpr(rt, p, s.value, at, m);
    var r := EvalExpr(rt, s.value, m.world);
    var end := StmtEnd(s, at).code;
    AfterExpr(r, p, m, m', at, end, ResultOf(s.value, at), n, fuel, end, loop);
    if r.Yields? {
      IsNormal(p, m, m', n, fuel, at, end, loop);
    }
  }

  lemma SimReturnNil(
    rt: Runtime, p: Program, s: Stmt, at: Place, loop: Targets, m: State, fuel: nat
  ) returns (n: nat, m': State)
    requires s.Return? && s.result.None?
    requires m.Running? && m.pc == at.code && StmtPlaced(p, s, at, loop)
    ensures Runs(rt, p, m, n, m')
    ensures StmtLands(Exec(rt, s, m.world, fuel), p, m, m', n, fuel, at, StmtEnd(s, at).code, loop)
  {
    hide CodeAt, Runs, Reaches, Halted, Apply;
    InstrAt(p, at.code, StmtCode(s, at, loop), 0);
    InstrAt(p, at.code, StmtCode(s, at, loop), 1);
    ApplyConstant(rt, Nil, m.world);
    DoCompute(rt, p, m, at.regs, Constant(Nil), [], []);
    var m1 := m.(pc := m.pc + 1, regs := m.regs[at.regs := Nil]);
    DoReturn(rt, p, m1, at.regs);
    n, m' := 2, State.Returned(Nil, m.world);
    RunsThen(rt, p, m, 1, m1, 1, m');
  }

  lemma SimBreak(
    rt: Runtime, p: Program, s: Stmt, at: Place, loop: Targets, m: State, fuel: nat
  ) returns (n: nat, m': State)
    requires s.Break? || s.Continue?
    requires m.Running? && m.pc == at.code && StmtOk(s, loop.Loop?) && StmtPlaced(p, s, at, loop)
    ensures Runs(rt, p, m, n, m')
    ensures StmtLands(Exec(rt, s, m.world, fuel), p, m, m', n, fuel, at, StmtEnd(s, at).code, loop)
  {
    hide CodeAt, Runs, Reaches, Halted;
    InstrAt(p, at.code, StmtCode(s, at, loop), 0);
    var target := if s.Break? then BreakTarget(loop) else ContinueTarget(loop);
    DoJump(rt, p, m, target);
    n, m' := 1, m.(pc := target);
    ReachesSelf(m, at);
    ThenWorld(m, m, at, target, m.world);
  }

  /** The name is bound before the closure is made, so the function sees itself. */
  lemma SimFunctionStmt(
    rt: Runtime, p: Program, s: Stmt, at: Place, loop: Targets, m: State, fuel: nat
  ) returns (n: nat, m': State)
    requires s.Function?
    requires m.Running? && m.pc == at.code && StmtPlaced(p, s, at, loop)
    ensures Runs(rt, p, m, n, m')
    ensures StmtLands(Exec(rt, s, m.world, fuel), p, m, m', n, fuel, at, StmtEnd(s, at).code, loop)
  {
    hide Runs, Halted, Apply, CodeAt, FunctionTable, StmtsEnd, BindVar, ReadVar, UpdateVar;
    var index := StmtsEnd(s.def.body, Inner(at)).fns;
    FunctionPlaced(p, s, at, loop);
    ApplyConstant(rt, Nil, m.world);
    DoCompute(rt, p, m, at.regs, Constant(Nil), [], []);
    var m1 := m.(pc := m.pc + 1, regs := m.regs[at.regs := Nil]);
    DoStore(rt, p, m1, User(s.name), at.regs);
    var m2 := m1.(pc := m1.pc + 1, world := BindVar(m1.world, s.name, Nil));
    RunsThen(rt, p, m, 1, m1, 1, m2);
    DoMakeFunction(rt, p, m2, at.regs + 1, index);
    var made := Apply(rt, MakeClosure(s.def.functionLabel, s.def.parameters), [], m2.world);
    var m3 := Finish(m2, at.regs + 1, made);
    RunsThen(rt, p, m, 2, m2, 1, m3);
    n, m' := 3, m3;
    if made.Done? {
      var m4 := AssignUser(rt, p, m3, s.name, at.regs + 1);
      RunsThen(rt, p, m, 3, m3, 1, m4);
      n, m' := 4, m4;
    }
  }

  lemma AssignUser(rt: Runtime, p: Program, m: State, name: string, source: Register) returns (m': State)
    requires m.Running? && m.pc < |p.code| && p.code[m.pc] == AssignVar(User(name), source) && source in m.regs
    ensures Runs(rt, p, m, 1, m')
    ensures match UpdateVar(m.world, name, m.regs[source])
            case Done(_, w) => m' == m.(pc := m.pc + 1, world := w)
            case Trap(message, w) => m' == Trapped(message, w)
  {
    hide Runs;
    DoAssign(rt, p, m, User(name), source);
    m' := Assigned(m, User(name), m.regs[source]);
  }

  lemma FunctionPlaced(p: Program, s: Stmt, at: Place, loop: Targets)
    requires s.Function? && StmtPlaced(p, s, at, loop)
    ensures
      var index := StmtsEnd(s.def.body, Inner(at)).fns;
      && at.code + 3 < |p.code|
      && p.code[at.code] == Compute(at.regs, Constant(Nil), [])
      && p.code[at.code + 1] == StoreVar(User(s.name), at.regs)
      && p.code[at.code + 2] == MakeFunction(at.regs + 1, index)
      && p.code[at.code + 3] == AssignVar(User(s.name), at.regs + 1)
      && index < |p.functions|
      && p.functions[index].functionLabel == s.def.functionLabel
      && p.functions[index].parameters == s.def.parameters
  {
    hide CodeAt, TableAt, FunctionTable, StmtsEnd;
    var code := StmtCode(s, at, loop);
    InstrAt(p, at.code, code, 0);
    InstrAt(p, at.code, code, 1);
    InstrAt(p, at.code, code, 2);
    InstrAt(p, at.code, code, 3);
    FunctionEntry(p, s.def, Skip(at, 2, 1));
    assert Inner(Skip(at, 2, 1)) == Inner(at);
  }

  // ---------------------------------------------------------- sequences and branches

  lemma StmtsParts(rt: Runtime, p: Program, ss: List<Stmt>, at: Place, loop: Targets, w: World, fuel: nat)
    requires ss.Cons? && StmtsOk(ss, loop.Loop?) && StmtsPlaced(p, ss, at, loop)
    ensures
      var at1 := StmtEnd(ss.head, at);
      && StmtOk(ss.head, loop.Loop?) && StmtsOk(ss.tail, loop.Loop?) && Before(at, at1)
      && StmtsEnd(ss, at) == StmtsEnd(ss.tail, at1)
      && CodeAt(p, at.code, StmtCode(ss.head, at, loop) + StmtsCode(ss.tail, at1, loop))
      && TableAt(p, at.fns, StmtFunctions(ss.head, at) + StmtsFunctions(ss.tail, at1))
    ensures
      var r := Exec(rt, ss.head, w, fuel);
      ExecAll(rt, ss, w, fuel) == if r.Normal? then ExecAll(rt, ss.tail, r.world, fuel) else r
  {
    hide CodeAt, TableAt, StmtCode, StmtEnd, StmtFunctions, Exec, StmtOk;
  }

  lemma StmtPlacedHere(p: Program, s: Stmt, at: Place, loop: Targets)
    ensures StmtPlaced(p, s, at, loop)
        <==> CodeAt(p, at.code, StmtCode(s, at, loop)) && TableAt(p, at.fns, StmtFunctions(s, at))
  {
  }

  lemma StmtsPlacedHere(p: Program, ss: List<Stmt>, at: Place, loop: Targets)
    ensures StmtsPlaced(p, ss, at, loop)
        <==> CodeAt(p, at.code, StmtsCode(ss, at, loop)) && TableAt(p, at.fns, StmtsFunctions(ss, at))
  {
  }

  /** What a finished statement leaves behind. */
  lemma StmtRuns(
    r: Outcome, p: Program, m: State, m1: State, n: nat, fuel: nat, at: Place, end: nat, loop: Targets
  )
    requires m.Running? && StmtLands(r, p, m, m1, n, fuel, at, end, loop)
    ensures r.Normal? ==>
      m1.Running? && m1.pc == end && m1.world == r.world && Reaches(m, m1, at, m1.pc, m1.world)
    ensures r.Broke? ==>
      && loop.Loop? && m1.Running? && m1.pc == BreakTarget(loop) && m1.world == r.world
      && Reaches(m, m1, at, m1.pc, m1.world)
    ensures r.Continued? ==>
      && loop.Loop? && m1.Running? && m1.pc == ContinueTarget(loop) && m1.world == r.world
      && Reaches(m, m1, at, m1.pc, m1.world)
  {
  }

  /** A statement that does not end normally ends whatever it is part of. */
  lemma StmtPasses(
    r: Outcome, p: Program, m: State, m1: State, n: nat, fuel: nat, at: Place, end: nat, outerEnd: nat, loop: Targets
  )
    requires m.Running? && StmtLands(r, p, m, m1, n, fuel, at, end, loop) && !r.Normal?
    ensures StmtLands(r, p, m, m1, n, fuel, at, outerEnd, loop)
  {
  }

  lemma {:induction false} SimStmts(
    rt: Runtime, p: Program, ss: List<Stmt>, at: Place, loop: Targets, m: State, fuel: nat
  ) returns (n: nat, m': State)
    requires m.Running? && m.pc == at.code && StmtsOk(ss, loop.Loop?) && StmtsPlaced(p, ss, at, loop)
    ensures Runs(rt, p, m, n, m')
    ensures StmtLands(ExecAll(rt, ss, m.world, fuel), p, m, m', n, fuel, at, StmtsEnd(ss, at).code, loop)
    decreases fuel, ss, 0
  {
    hide *;
    match ss
    case Empty =>
      n, m' := 0, m;
      NoStmts(rt, p, at, loop, m, fuel);
    case Cons(s, rest) =>
      var at1 := StmtEnd(s, at);
      StmtsParts(rt, p, ss, at, loop, m.world, fuel);
      CodeSplit(p, at.code, StmtCode(s, at, loop), StmtsCode(rest, at1, loop));
      TableSplit(p, at.fns, StmtFunctions(s, at), StmtsFunctions(rest, at1));
      StmtPlacedHere(p, s, at, loop);
      StmtsPlacedHere(p, rest, at1, loop);
      n, m' := SimStmt(rt, p, s, at, loop, m, fuel);
      var r := Exec(rt, s, m.world, fuel);
      StmtRuns(r, p, m, m', n, fuel, at, at1.code, loop);
      if r.Normal? {
        var n2, m2 := SimStmts(rt, p, rest, at1, loop, m', fuel);
        RunsThen(rt, p, m, n, m', n2, m2);
        StmtAfter(ExecAll(rt, rest, r.world, fuel), p, m, m', m2, n, n2, fuel, fuel, at, at1, StmtsEnd(ss, at).code, loop);
        n, m' := n + n2, m2;
      } else {
        StmtPasses(r, p, m, m', n, fuel, at, at1.code, StmtsEnd(ss, at).code, loop);
      }
  }

  lemma NoStmts(rt: Runtime, p: Program, at: Place, loop: Targets, m: State, fuel: nat)
    requires m.Running? && m.pc == at.code
    ensures Runs(rt, p, m, 0, m)
    ensures StmtLands(ExecAll(rt, Empty, m.world, fuel), p, m, m, 0, fuel, at, StmtsEnd(Empty, at).code, loop)
  {
  }

  predicate OptionPlaced(p: Program, s: Option<Stmt>, at: Place, loop: Targets) {
    CodeAt(p, at.code, InitCode(s, at, loop)) && TableAt(p, at.fns, InitFunctions(s, at))
  }

  lemma OptionPlacedHere(p: Program, s: Option<Stmt>, at: Place, loop: Targets)
    requires CodeAt(p, at.code, InitCode(s, at, loop)) && TableAt(p, at.fns, InitFunctions(s, at))
    ensures OptionPlaced(p, s, at, loop)
  {
  }

  lemma OptionParts(rt: Runtime, p: Program, s: Option<Stmt>, at: Place, loop: Targets, w: World, fuel: nat)
    requires s.Some? && OptionPlaced(p, s, at, loop)
    ensures StmtPlaced(p, s.value, at, loop)
    ensures InitEnd(s, at) == StmtEnd(s.value, at) && ExecOption(rt, s, w, fuel) == Exec(rt, s.value, w, fuel)
  {
    hide CodeAt, TableAt, StmtCode, StmtEnd, StmtFunctions, Exec;
  }

  /** An `else` branch or a `for` initializer, which may be absent. */
  lemma {:induction false} SimOption(
    rt: Runtime, p: Program, s: Option<Stmt>, at: Place, loop: Targets, m: State, fuel: nat
  ) returns (n: nat, m': State)
    requires m.Running? && m.pc == at.code && OptionPlaced(p, s, at, loop)
    requires s.Some? ==> StmtOk(s.value, loop.Loop?)
    ensures Runs(rt, p, m, n, m')
    ensures StmtLands(ExecOption(rt, s, m.world, fuel), p, m, m', n, fuel, at, InitEnd(s, at).code, loop)
    decreases fuel, s, 0
  {
    hide *;
    match s
    case None =>
      n, m' := 0, m;
      NoOption(rt, p, at, loop, m, fuel);
    case Some(inner) =>
      OptionParts(rt, p, s, at, loop, m.world, fuel);
      n, m' := SimStmt(rt, p, inner, at, loop, m, fuel);
  }

  lemma NoOption(rt: Runtime, p: Program, at: Place, loop: Targets, m: State, fuel: nat)
    requires m.Running? && m.pc == at.code
    ensures Runs(rt, p, m, 0, m)
    ensures StmtLands(ExecOption(rt, None, m.world, fuel), p, m, m, 0, fuel, at, InitEnd(None, at).code, loop)
  {
  }

  lemma IfMeaning(rt: Runtime, s: Stmt, inLoop: bool, w: World, fuel: nat)
    requires s.If? && StmtOk(s, inLoop)
    ensures ExprOk(s.condition) && StmtOk(s.thenBranch, inLoop)
    ensures s.elseBranch.Some? ==> StmtOk(s.elseBranch.value, inLoop)
    ensures
      var r := EvalExpr(rt, s.condition, w);
      Exec(rt, s, w, fuel)
      == if !r.Yields? then Abort(r)
         else if Truthy(r.value) then Exec(rt, s.thenBranch, r.world, fuel)
         else ExecOption(rt, s.elseBranch, r.world, fuel)
  {
    hide ExprOk, EvalExpr, ExecOption;
  }

  lemma IfPlaced(p: Program, s: Stmt, at: Place, loop: Targets)
    requires s.If? && StmtPlaced(p, s, at, loop)
    ensures
      var test := ExprEnd(s.condition, at);
      var at1 := Skip(test, 1, 0);
      var at2 := StmtEnd(s.thenBranch, at1);
      var at3 := ElsePlace(s, at);
      && Placed(p, s.condition, at)
      && test.code < |p.code| && p.code[test.code] == JumpIf(ResultOf(s.condition, at), false, at3.code)
      && StmtPlaced(p, s.thenBranch, at1, loop)
      && (s.elseBranch.Some? ==> at2.code < |p.code| && p.code[at2.code] == Jump(StmtEnd(s, at).code))
      && OptionPlaced(p, s.elseBranch, at3, loop)
  {
    hide *;
    var test := ExprEnd(s.condition, at);
    var at1 := Skip(test, 1, 0);
    var at2 := StmtEnd(s.thenBranch, at1);
    var at3 := ElsePlace(s, at);
    var jump := [JumpIf(ResultOf(s.condition, at), false, at3.code)];
    StmtPlacedHere(p, s, at, loop);
    IfCodeParts(s, at, loop);
    IfFunctionParts(s, at);
    IfPlaces(s, at);
    ArmSplit(p, at.code, ExprCode(s.condition, at), jump, StmtCode(s.thenBranch, at1, loop), LeaveThen(s, at),
             InitCode(s.elseBranch, at3, loop));
    InstrAt(p, test.code, jump, 0);
    if s.elseBranch.Some? {
      LeaveHere(s, at);
      InstrAt(p, at2.code, LeaveThen(s, at), 0);
    }
    var t1, t2 := ExprFunctions(s.condition, at), StmtFunctions(s.thenBranch, at1);
    TableSplit(p, at.fns, t1 + t2, InitFunctions(s.elseBranch, at3));
    TableSplit(p, at.fns, t1, t2);
    PlacedHere(p, s.condition, at);
    StmtPlacedHere(p, s.thenBranch, at1, loop);
    OptionPlacedHere(p, s.elseBranch, at3, loop);
  }

  lemma {:induction false} SimIf(
    rt: Runtime, p: Program, s: Stmt, at: Place, loop: Targets, m: State, fuel: nat
  ) returns (n: nat, m': State)
    requires s.If?
    requires m.Running? && m.pc == at.code && StmtOk(s, loop.Loop?) && StmtPlaced(p, s, at, loop)
    ensures Runs(rt, p, m, n, m')
    ensures StmtLands(Exec(rt, s, m.world, fuel), p, m, m', n, fuel, at, StmtEnd(s, at).code, loop)
    decreases fuel, s, 3
  {
    hide *;
    IfMeaning(rt, s, loop.Loop?, m.world, fuel);
    IfPlaced(p, s, at, loop);
    IfPlaces(s, at);
    var test, end := ExprEnd(s.condition, at), StmtEnd(s, at).code;
    var condition := ResultOf(s.condition, at);
    var n1, m1 := SimExpr(rt, p, s.condition, at, m);
    n, m' := n1, m1;
    var r := EvalExpr(rt, s.condition, m.world);
    AfterExpr(r, p, m, m1, at, test.code, condition, n1, fuel, end, loop);
    if r.Yields? {
      var m2 := TestRuns(rt, p, at, condition, ElsePlace(s, at).code, m, m1);
      RunsThen(rt, p, m, n1, m1, 1, m2);
      var n3, m3, at';
      if Truthy(r.value) {
        at' := Skip(test, 1, 0);
        n3, m3 := SimThen(rt, p, s, at, loop, m2, fuel);
      } else {
        at' := ElsePlace(s, at);
        n3, m3 := SimOption(rt, p, s.elseBranch, at', loop, m2, fuel);
      }
      RunsThen(rt, p, m, n1 + 1, m2, n3, m3);
      StmtAfter(Exec(rt, s, m.world, fuel), p, m, m2, m3, n1 + 1, n3, fuel, fuel, at, at', end, loop);
      n, m' := n1 + 1 + n3, m3;
    }
  }

  /** A jump taken when the condition is false. */
  lemma TestRuns(rt: Runtime, p: Program, at: Place, condition: Register, target: nat, m: State, m1: State)
    returns (m2: State)
    requires m.Running? && m1.Running? && Reaches(m, m1, at, m1.pc, m1.world) && condition in m1.regs
    requires m1.pc < |p.code| && p.code[m1.pc] == JumpIf(condition, false, target)
    ensures Runs(rt, p, m1, 1, m2)
    ensures m2 == m1.(pc := if Truthy(m1.regs[condition]) then m1.pc + 1 else target)
    ensures Reaches(m, m2, at, m2.pc, m2.world)
  {
    hide Reaches, Runs;
    DoJumpIf(rt, p, m1, condition, false, target);
    m2 := m1.(pc := if Truthy(m1.regs[condition]) then m1.pc + 1 else target);
    ThenWorld(m, m1, at, m2.pc, m1.world);
  }

  /** The `then` branch and the jump over the `else` branch. */
  lemma {:induction false} SimThen(
    rt: Runtime, p: Program, s: Stmt, at: Place, loop: Targets, m: State, fuel: nat
  ) returns (n: nat, m': State)
    requires s.If? && StmtOk(s.thenBranch, loop.Loop?)
    requires
      var at1 := Skip(ExprEnd(s.condition, at), 1, 0);
      var at2 := StmtEnd(s.thenBranch, at1);
      && m.Running? && m.pc == at1.code && StmtPlaced(p, s.thenBranch, at1, loop)
      && (s.elseBranch.Some? ==> at2.code < |p.code| && p.code[at2.code] == Jump(StmtEnd(s, at).code))
    ensures Runs(rt, p, m, n, m')
    ensures StmtLands(Exec(rt, s.thenBranch, m.world, fuel), p, m, m', n, fuel,
                      Skip(ExprEnd(s.condition, at), 1, 0), StmtEnd(s, at).code, loop)
    decreases fuel, s, 2
  {
    hide *;
    IfPlaces(s, at);
    var at1, end := Skip(ExprEnd(s.condition, at), 1, 0), StmtEnd(s, at).code;
    var at2 := StmtEnd(s.thenBranch, at1);
    n, m' := SimStmt(rt, p, s.thenBranch, at1, loop, m, fuel);
    if s.elseBranch.Some? {
      var n2, m2 := ThenJump(rt, p, Exec(rt, s.thenBranch, m.world, fuel), m, m', n, fuel, at1, at2.code, end, loop);
      RunsThen(rt, p, m, n, m', n2, m2);
      n, m' := n + n2, m2;
    }
  }

  /** A statement followed by a jump to `target`. */
  lemma ThenJump(
    rt: Runtime, p: Program, r: Outcome, m: State, m1: State, n: nat, fuel: nat, at: Place, end: nat, target: nat,
    loop: Targets
  ) returns (n2: nat, m2: State)
    requires m.Running? && StmtLands(r, p, m, m1, n, fuel, at, end, loop)
    requires end < |p.code| && p.code[end] == Jump(target)
    ensures Runs(rt, p, m1, n2, m2)
    ensures StmtLands(r, p, m, m2, n + n2, fuel, at, target, loop)
  {
    hide Reaches;
    n2, m2 := 0, m1;
    if r.Normal? {
      hide Runs;
      StmtRuns(r, p, m, m1, n, fuel, at, end, loop);
      DoJump(rt, p, m1, target);
      ThenWorld(m, m1, at, target, m1.world);
      n2, m2 := 1, m1.(pc := target);
    }
  }

  // ---------------------------------------------------------------------- loops

  /** After a loop body: at the continue point, past the loop, or out of both. */
  predicate BodyLands(
    r: Outcome, p: Program, m: State, m': State, n: nat, fuel: nat, at: Place, next: nat, end: nat
  )
    requires m.Running?
  {
    match r
    case Normal(w) => Reaches(m, m', at, next, w)
    case Continued(w) => Reaches(m, m', at, next, w)
    case Broke(w) => Reaches(m, m', at, end, w)
    case Returned(v, w) => m' == State.Returned(v, w)
    case Faulted(message, w) => m' == Trapped(message, w)
    case NoArm => true
    case OutOfFuel => n >= fuel && !Halted(p, m')
  }

  /** A loop body and the jump after it; `break` and `continue` reach this loop's own targets. */
  lemma {:induction false} SimBody(
    rt: Runtime, p: Program, body: Stmt, at: Place, next: nat, end: nat, m: State, fuel: nat
  ) returns (n: nat, m': State)
    requires m.Running? && m.pc == at.code && StmtOk(body, true) && StmtPlaced(p, body, at, Loop(next, end))
    requires
      var last := StmtEnd(body, at).code;
      last < |p.code| && p.code[last] == Jump(next)
    ensures Runs(rt, p, m, n, m')
    ensures BodyLands(Exec(rt, body, m.world, fuel), p, m, m', n, fuel, at, next, end)
    decreases fuel, body, 5
  {
    hide *;
    var loop := Loop(next, end);
    var r := Exec(rt, body, m.world, fuel);
    var n1, m1 := SimStmt(rt, p, body, at, loop, m, fuel);
    var n2, m2 := ThenJump(rt, p, r, m, m1, n1, fuel, at, StmtEnd(body, at).code, next, loop);
    RunsThen(rt, p, m, n1, m1, n2, m2);
    n, m' := n1 + n2, m2;
    BodyDone(r, p, m, m', n, fuel, at, next, end);
  }

  lemma BodyDone(r: Outcome, p: Program, m: State, m1: State, n: nat, fuel: nat, at: Place, next: nat, end: nat)
    requires m.Running? && StmtLands(r, p, m, m1, n, fuel, at, next, Loop(next, end))
    ensures BodyLands(r, p, m, m1, n, fuel, at, next, end)
  {
    hide Reaches;
  }

  predicate GoesOn(r: Outcome) {
    r.Normal? || r.Continued?
  }

  /** What a loop makes of a body that does not go on to the next iteration. */
  function Leaves(r: Outcome): Outcome
  {
    if r.Broke? then Normal(r.world) else r
  }

  /** The run of a body as part of the loop at `at`. */
  lemma AfterBody(
    r: Outcome, p: Program, m: State, m1: State, m2: State, n1: nat, n2: nat, fuel: nat, at: Place, at1: Place,
    next: nat, end: nat, loop: Targets
  )
    requires m.Running? && m1.Running? && Before(at, at1) && Reaches(m, m1, at, m1.pc, m1.world)
    requires BodyLands(r, p, m1, m2, n2, fuel, at1, next, end)
    ensures GoesOn(r) ==>
      m2.Running? && m2.pc == next && m2.world == r.world && Reaches(m1, m2, at1, m2.pc, m2.world)
      && Reaches(m, m2, at, m2.pc, m2.world)
    ensures !GoesOn(r) ==> StmtLands(Leaves(r), p, m, m2, n1 + n2, fuel, at, end, loop)
  {
    hide Agree, KeepsHidden;
    if r.Normal? || r.Continued? || r.Broke? {
      ReachesTrans(m, m1, m2, at, at1);
    }
  }

  lemma WhileMeaning(rt: Runtime, s: Stmt, inLoop: bool, w: World, fuel: nat)
    requires s.While? && StmtOk(s, inLoop)
    ensures ExprOk(s.condition) && StmtOk(s.loopBody, true)
    ensures
      var r := EvalExpr(rt, s.condition, w);
      Exec(rt, s, w, fuel)
      == if !r.Yields? then Abort(r)
         else if !Truthy(r.value) then Normal(r.world)
         else if fuel == 0 then OutOfFuel
         else
           var b := Exec(rt, s.loopBody, r.world, fuel);
           if GoesOn(b) then Exec(rt, s, b.world, fuel - 1) else Leaves(b)
  {
    hide ExprOk, EvalExpr;
  }

  lemma WhilePlaced(p: Program, s: Stmt, at: Place, loop: Targets)
    requires s.While? && StmtPlaced(p, s, at, loop)
    ensures
      var test := ExprEnd(s.condition, at);
      var at1 := Skip(test, 1, 0);
      var last, end := StmtEnd(s.loopBody, at1).code, StmtEnd(s, at).code;
      && Before(at, at1) && at1.code == test.code + 1 && end == last + 1 && at.code < |p.code|
      && Placed(p, s.condition, at)
      && test.code < |p.code| && p.code[test.code] == JumpIf(ResultOf(s.condition, at), false, end)
      && StmtPlaced(p, s.loopBody, at1, Loop(at.code, end))
      && last < |p.code| && p.code[last] == Jump(at.code)
  {
    hide *;
    var test := ExprEnd(s.condition, at);
    var at1 := Skip(test, 1, 0);
    var last, end := StmtEnd(s.loopBody, at1).code, StmtEnd(s, at).code;
    var jump, back := [JumpIf(ResultOf(s.condition, at), false, end)], [Jump(at.code)];
    var body := StmtCode(s.loopBody, at1, Loop(at.code, end));
    StmtPlacedHere(p, s, at, loop);
    WhileCodeParts(s, at, loop);
    CodeSplit(p, at.code, ExprCode(s.condition, at) + jump + body, back);
    CodeSplit(p, at.code, ExprCode(s.condition, at) + jump, body);
    CodeSplit(p, at.code, ExprCode(s.condition, at), jump);
    InstrAt(p, test.code, jump, 0);
    InstrAt(p, last, back, 0);
    TableSplit(p, at.fns, ExprFunctions(s.condition, at), StmtFunctions(s.loopBody, at1));
    PlacedHere(p, s.condition, at);
    StmtPlacedHere(p, s.loopBody, at1, Loop(at.code, end));
  }

  lemma {:induction false} SimWhile(
    rt: Runtime, p: Program, s: Stmt, at: Place, loop: Targets, m: State, fuel: nat
  ) returns (n: nat, m': State)
    requires s.While?
    requires m.Running? && m.pc == at.code && StmtOk(s, loop.Loop?) && StmtPlaced(p, s, at, loop)
    ensures Runs(rt, p, m, n, m')
    ensures StmtLands(Exec(rt, s, m.world, fuel), p, m, m', n, fuel, at, StmtEnd(s, at).code, loop)
    decreases fuel, s, 3
  {
    hide *;
    WhileMeaning(rt, s, loop.Loop?, m.world, fuel);
    WhilePlaced(p, s, at, loop);
    var test, end := ExprEnd(s.condition, at), StmtEnd(s, at).code;
    var at1 := Skip(test, 1, 0);
    var n1, m1 := SimExpr(rt, p, s.condition, at, m);
    n, m' := n1, m1;
    var r := EvalExpr(rt, s.condition, m.world);
    AfterExpr(r, p, m, m1, at, test.code, ResultOf(s.condition, at), n1, fuel, end, loop);
    if r.Yields? {
      var m2 := TestRuns(rt, p, at, ResultOf(s.condition, at), end, m, m1);
      RunsThen(rt, p, m, n1, m1, 1, m2);
      n, m' := n1 + 1, m2;
      if !Truthy(r.value) {
        IsNormal(p, m, m2, n, fuel, at, end, loop);
      } else if fuel == 0 {
        n, m' := 0, m;
        RunsNone(rt, p, m);
        IsUnfinished(p, m, 0, 0, at, end, loop);
      } else {
        n, m' := SimTurn(rt, p, s, at, loop, m, n1 + 1, m2, fuel);
      }
    }
  }

  lemma RunsNone(rt: Runtime, p: Program, m: State)
    ensures Runs(rt, p, m, 0, m)
  {
  }

  /** One turn of a `while` loop whose condition held, and the turns after it. */
  lemma {:induction false} SimTurn(
    rt: Runtime, p: Program, s: Stmt, at: Place, loop: Targets, m: State, n2: nat, m2: State, fuel: nat
  ) returns (n: nat, m': State)
    requires s.While? && StmtOk(s, loop.Loop?) && StmtPlaced(p, s, at, loop) && fuel > 0 && n2 > 0
    requires m.Running? && Runs(rt, p, m, n2, m2) && m2.Running? && Reaches(m, m2, at, m2.pc, m2.world)
    requires m2.pc == ExprEnd(s.condition, at).code + 1
    ensures Runs(rt, p, m, n, m')
    ensures
      var b := Exec(rt, s.loopBody, m2.world, fuel);
      StmtLands(if GoesOn(b) then Exec(rt, s, b.world, fuel - 1) else Leaves(b),
                p, m, m', n, fuel, at, StmtEnd(s, at).code, loop)
    decreases fuel, s, 2
  {
    hide *;
    WhileMeaning(rt, s, loop.Loop?, m.world, fuel);
    WhilePlaced(p, s, at, loop);
    var at1, end := Skip(ExprEnd(s.condition, at), 1, 0), StmtEnd(s, at).code;
    var n3, m3 := SimBody(rt, p, s.loopBody, at1, at.code, end, m2, fuel);
    RunsThen(rt, p, m, n2, m2, n3, m3);
    n, m' := n2 + n3, m3;
    var b := Exec(rt, s.loopBody, m2.world, fuel);
    AfterBody(b, p, m, m2, m3, n2, n3, fuel, at, at1, at.code, end, loop);
    AboutGoesOn(b);
    if GoesOn(b) {
      var n4, m4 := SimWhile(rt, p, s, at, loop, m3, fuel - 1);
      RunsThen(rt, p, m, n, m3, n4, m4);
      BeforeSelf(at);
      StmtAfter(Exec(rt, s, b.world, fuel - 1), p, m, m3, m4, n, n4, fuel, fuel - 1, at, at, end, loop);
      n, m' := n + n4, m4;
    }
  }

  lemma AboutGoesOn(r: Outcome)
    ensures GoesOn(r) <==> r.Normal? || r.Continued?
  {
  }

  lemma BeforeSelf(at: Place)
    ensures Before(at, at)
  {
  }

  // ------------------------------------------------------------------ for loops

  lemma ForParts(rt: Runtime, p: Program, s: Stmt, at: Place, loop: Targets, w: World, fuel: nat)
    requires s.For? && StmtOk(s, loop.Loop?) && StmtPlaced(p, s, at, loop)
    ensures s.init.Some? ==> StmtOk(s.init.value, loop.Loop?)
    ensures Before(at, InitEnd(s.init, at)) && StmtEnd(s, at) == LoopEnd(s, InitEnd(s.init, at))
    ensures CodeAt(p, at.code, InitCode(s.init, at, loop) + ForCode(s, InitEnd(s.init, at)))
    ensures TableAt(p, at.fns, InitFunctions(s.init, at) + LoopFunctions(s, InitEnd(s.init, at)))
    ensures
      var r := ExecOption(rt, s.init, w, fuel);
      Exec(rt, s, w, fuel) == if r.Normal? then ExecFor(rt, s.test, s.increment, s.loopBody, r.world, fuel) else r
  {
    hide CodeAt, TableAt, InitCode, InitEnd, InitFunctions, ForCode, LoopFunctions, ExecOption, ExecFor, LoopEnd;
    assert StmtCode(s, at, loop) == ForStmtCode(s, at, loop);
  }

  predicate LoopPlaced(p: Program, s: Stmt, start: Place)
    requires s.For?
  {
    CodeAt(p, start.code, ForCode(s, start)) && TableAt(p, start.fns, LoopFunctions(s, start))
  }

  lemma LoopPlacedHere(p: Program, s: Stmt, start: Place)
    requires s.For?
    ensures LoopPlaced(p, s, start)
        <==> CodeAt(p, start.code, ForCode(s, start)) && TableAt(p, start.fns, LoopFunctions(s, start))
  {
  }

  lemma {:induction false} SimForStmt(
    rt: Runtime, p: Program, s: Stmt, at: Place, loop: Targets, m: State, fuel: nat
  ) returns (n: nat, m': State)
    requires s.For?
    requires m.Running? && m.pc == at.code && StmtOk(s, loop.Loop?) && StmtPlaced(p, s, at, loop)
    ensures Runs(rt, p, m, n, m')
    ensures StmtLands(Exec(rt, s, m.world, fuel), p, m, m', n, fuel, at, StmtEnd(s, at).code, loop)
    decreases fuel, s, 3
  {
    hide *;
    ForParts(rt, p, s, at, loop, m.world, fuel);
    var start, end := InitEnd(s.init, at), StmtEnd(s, at).code;
    CodeSplit(p, at.code, InitCode(s.init, at, loop), ForCode(s, start));
    TableSplit(p, at.fns, InitFunctions(s.init, at), LoopFunctions(s, start));
    OptionPlacedHere(p, s.init, at, loop);
    LoopPlacedHere(p, s, start);
    n, m' := SimOption(rt, p, s.init, at, loop, m, fuel);
    var r := ExecOption(rt, s.init, m.world, fuel);
    StmtRuns(r, p, m, m', n, fuel, at, start.code, loop);
    if r.Normal? {
      var n2, m2 := SimFor(rt, p, s, start, loop, m', fuel);
      RunsThen(rt, p, m, n, m', n2, m2);
      StmtAfter(ExecFor(rt, s.test, s.increment, s.loopBody, r.world, fuel), p, m, m', m2, n, n2, fuel, fuel,
                at, start, end, loop);
      n, m' := n + n2, m2;
    } else {
      StmtPasses(r, p, m, m', n, fuel, at, start.code, end, loop);
    }
  }

  lemma ForMeaning(rt: Runtime, s: Stmt, inLoop: bool, w: World, fuel: nat)
    requires s.For? && StmtOk(s, inLoop)
    ensures (s.test.Some? ==> ExprOk(s.test.value)) && (s.increment.Some? ==> ExprOk(s.increment.value))
    ensures StmtOk(s.loopBody, true)
    ensures
      var r := EvalGuard(rt, s.test, w);
      ExecFor(rt, s.test, s.increment, s.loopBody, w, fuel)
      == if !r.Yields? then Abort(r)
         else if !r.value then Normal(r.world)
         else if fuel == 0 then OutOfFuel
         else
           var b := Exec(rt, s.loopBody, r.world, fuel);
           if GoesOn(b) then ExecIncrement(rt, s.test, s.increment, s.loopBody, b.world, fuel - 1) else Leaves(b)
    ensures
      var r := EvalGuard(rt, s.increment, w);
      ExecIncrement(rt, s.test, s.increment, s.loopBody, w, fuel)
      == if r.Yields? then ExecFor(rt, s.test, s.increment, s.loopBody, r.world, fuel) else Abort(r)
  {
    hide ExprOk, EvalGuard, Exec;
  }

  predicate IncrementPlaced(p: Program, increment: Option<Expr>, at: Place) {
    CodeAt(p, at.code, IncrementCode(increment, at)) && TableAt(p, at.fns, IncrementFunctions(increment, at))
  }

  lemma IncrementPlacedHere(p: Program, increment: Option<Expr>, at: Place)
    requires CodeAt(p, at.code, IncrementCode(increment, at)) && TableAt(p, at.fns, IncrementFunctions(increment, at))
    ensures IncrementPlaced(p, increment, at)
  {
  }

  lemma ForPlaced(p: Program, s: Stmt, start: Place)
    requires s.For? && LoopPlaced(p, s, start)
    ensures
      var test, at1 := GuardEnd(s.test, start), IncrementPlace(s.test, start);
      var increment := IncrementEnd(s.increment, at1);
      var at2 := Skip(increment, 1, 0);
      var last, end := StmtEnd(s.loopBody, at2).code, LoopEnd(s, start).code;
      && CodeAt(p, start.code, GuardCode(s.test, start, end)) && TableAt(p, start.fns, GuardFunctions(s.test, start))
      && test.code < |p.code| && p.code[test.code] == Jump(at2.code)
      && IncrementPlaced(p, s.increment, at1)
      && increment.code < |p.code| && p.code[increment.code] == Jump(start.code)
      && StmtPlaced(p, s.loopBody, at2, Loop(at1.code, end))
      && last < |p.code| && p.code[last] == Jump(at1.code)
  {
    hide *;
    var test, at1 := GuardEnd(s.test, start), IncrementPlace(s.test, start);
    var increment := IncrementEnd(s.increment, at1);
    var at2 := Skip(increment, 1, 0);
    var last, end := StmtEnd(s.loopBody, at2).code, LoopEnd(s, start).code;
    var guard, over, inc, again := GuardCode(s.test, start, end), [Jump(at2.code)], IncrementCode(s.increment, at1),
                                   [Jump(start.code)];
    var body, back := StmtCode(s.loopBody, at2, Loop(at1.code, end)), [Jump(at1.code)];
    LoopPlacedHere(p, s, start);
    ForPlaces(s, start);
    ForCodeParts(s, start);
    CodeSplit(p, start.code, guard + over + inc + again + body, back);
    ArmSplit(p, start.code, guard, over, inc, again, body);
    InstrAt(p, test.code, over, 0);
    InstrAt(p, increment.code, again, 0);
    InstrAt(p, last, back, 0);
    var t1, t2 := GuardFunctions(s.test, start), IncrementFunctions(s.increment, at1);
    TableSplit(p, start.fns, t1 + t2, StmtFunctions(s.loopBody, at2));
    TableSplit(p, start.fns, t1, t2);
    IncrementPlacedHere(p, s.increment, at1);
    StmtPlacedHere(p, s.loopBody, at2, Loop(at1.code, end));
  }

  /** Iterations of a `for` loop, from its test. */
  lemma {:induction false} SimFor(
    rt: Runtime, p: Program, s: Stmt, start: Place, loop: Targets, m: State, fuel: nat
  ) returns (n: nat, m': State)
    requires s.For? && StmtOk(s, loop.Loop?) && LoopPlaced(p, s, start)
    requires m.Running? && m.pc == start.code
    ensures Runs(rt, p, m, n, m')
    ensures StmtLands(ExecFor(rt, s.test, s.increment, s.loopBody, m.world, fuel), p, m, m', n, fuel,
                      start, LoopEnd(s, start).code, loop)
    decreases fuel, s, 1
  {
    hide *;
    ForMeaning(rt, s, loop.Loop?, m.world, fuel);
    ForPlaces(s, start);
    ForPlaced(p, s, start);
    var test, end := GuardEnd(s.test, start), LoopEnd(s, start).code;
    var at2 := Skip(IncrementEnd(s.increment, IncrementPlace(s.test, start)), 1, 0);
    var n1, m1 := SimGuard(rt, p, s.test, start, end, m);
    n, m' := n1, m1;
    var r := EvalGuard(rt, s.test, m.world);
    AfterGuard(r, p, m, m1, start, test.code, end, n1, fuel, end, loop);
    if r.Yields? {
      if !r.value {
        IsNormal(p, m, m1, n, fuel, start, end, loop);
      } else if fuel == 0 {
        n, m' := 0, m;
        RunsNone(rt, p, m);
        IsUnfinished(p, m, 0, 0, start, end, loop);
      } else {
        DoJump(rt, p, m1, at2.code);
        var m2 := m1.(pc := at2.code);
        RunsThen(rt, p, m, n1, m1, 1, m2);
        ThenWorld(m, m1, start, at2.code, m1.world);
        n, m' := SimForTurn(rt, p, s, start, loop, m, n1 + 1, m2, fuel);
      }
    }
  }

  /** The body, the increment, and the iterations after it. */
  lemma {:induction false} SimForTurn(
    rt: Runtime, p: Program, s: Stmt, start: Place, loop: Targets, m: State, n2: nat, m2: State, fuel: nat
  ) returns (n: nat, m': State)
    requires s.For? && StmtOk(s, loop.Loop?) && LoopPlaced(p, s, start) && fuel > 0 && n2 > 0
    requires m.Running? && Runs(rt, p, m, n2, m2) && m2.Running? && Reaches(m, m2, start, m2.pc, m2.world)
    requires m2.pc == Skip(IncrementEnd(s.increment, IncrementPlace(s.test, start)), 1, 0).code
    ensures Runs(rt, p, m, n, m')
    ensures
      var b := Exec(rt, s.loopBody, m2.world, fuel);
      StmtLands(if GoesOn(b) then ExecIncrement(rt, s.test, s.increment, s.loopBody, b.world, fuel - 1) else Leaves(b),
                p, m, m', n, fuel, start, LoopEnd(s, start).code, loop)
    decreases fuel, s, 0
  {
    hide *;
    ForMeaning(rt, s, loop.Loop?, m2.world, fuel);
    ForPlaces(s, start);
    ForPlaced(p, s, start);
    var at1, end := IncrementPlace(s.test, start), LoopEnd(s, start).code;
    var at2 := Skip(IncrementEnd(s.increment, at1), 1, 0);
    var n3, m3 := SimBody(rt, p, s.loopBody, at2, at1.code, end, m2, fuel);
    RunsThen(rt, p, m, n2, m2, n3, m3);
    n, m' := n2 + n3, m3;
    var b := Exec(rt, s.loopBody, m2.world, fuel);
    AfterBody(b, p, m, m2, m3, n2, n3, fuel, start, at2, at1.code, end, loop);
    AboutGoesOn(b);
    if GoesOn(b) {
      var n4, m4 := SimIncrement(rt, p, s, start, loop, m3, fuel - 1);
      RunsThen(rt, p, m, n, m3, n4, m4);
      BeforeSelf(start);
      StmtAfter(ExecIncrement(rt, s.test, s.increment, s.loopBody, b.world, fuel - 1), p, m, m3, m4, n, n4,
                fuel, fuel - 1, start, start, end, loop);
      n, m' := n + n4, m4;
    }
  }

  /** The increment sits before the body and jumps back to the test. */
  lemma {:induction false} SimIncrement(
    rt: Runtime, p: Program, s: Stmt, start: Place, loop: Targets, m: State, fuel: nat
  ) returns (n: nat, m': State)
    requires s.For? && StmtOk(s, loop.Loop?) && LoopPlaced(p, s, start)
    requires m.Running? && m.pc == IncrementPlace(s.test, start).code
    ensures Runs(rt, p, m, n, m')
    ensures StmtLands(ExecIncrement(rt, s.test, s.increment, s.loopBody, m.world, fuel), p, m, m', n, fuel,
                      start, LoopEnd(s, start).code, loop)
    decreases fuel, s, 2
  {
    hide *;
    ForMeaning(rt, s, loop.Loop?, m.world, fuel);
    ForPlaces(s, start);
    ForPlaced(p, s, start);
    var at1, end := IncrementPlace(s.test, start), LoopEnd(s, start).code;
    var n1, m1 := SimEffect(rt, p, s.increment, at1, m);
    n, m' := n1, m1;
    var r := EvalGuard(rt, s.increment, m.world);
    BeforeRegs(start, at1);
    GuardBelow(r, m, m1, at1.regs, start.regs, IncrementEnd(s.increment, at1).code);
    AfterGuard(r, p, m, m1, start, IncrementEnd(s.increment, at1).code, IncrementEnd(s.increment, at1).code,
               n1, fuel, end, loop);
    if r.Yields? {
      DoJump(rt, p, m1, start.code);
      var m2 := m1.(pc := start.code);
      RunsThen(rt, p, m, n1, m1, 1, m2);
      ThenWorld(m, m1, start, start.code, m1.world);
      var n3, m3 := SimFor(rt, p, s, start, loop, m2, fuel);
      RunsThen(rt, p, m, n1 + 1, m2, n3, m3);
      BeforeSelf(start);
      StmtAfter(ExecFor(rt, s.test, s.increment, s.loopBody, r.world, fuel), p, m, m2, m3, n1 + 1, n3, fuel, fuel,
                start, start, end, loop);
      n, m' := n1 + 1 + n3, m3;
    }
  }

  lemma GuardBelow(r: Eval<bool>, m: State, m1: State, base1: Register, base: Register, end: nat)
    requires m.Running? && base <= base1 && GuardLands(r, m, m1, base1, end, end)
    ensures GuardLands(r, m, m1, base, end, end)
  {
  }

  lemma EffectParts(rt: Runtime, p: Program, e: Expr, at: Place, m: State, m1: State)
    ensures IncrementPlaced(p, Some(e), at) ==> Placed(p, e, at)
    ensures IncrementEnd(Some(e), at) == ExprEnd(e, at)
    ensures
      m.Running? && YieldsTo(EvalExpr(rt, e, m.world), m, m1, at.regs, ExprEnd(e, at).code, ResultOf(e, at))
      ==> GuardLands(EvalGuard(rt, Some(e), m.world), m, m1, at.regs, ExprEnd(e, at).code, ExprEnd(e, at).code)
  {
    hide CodeAt, TableAt, ExprCode, ExprEnd, ExprFunctions, EvalExpr, ResultOf;
  }

  /** An optional expression run for its effects; its value is dropped. */
  lemma SimEffect(rt: Runtime, p: Program, e: Option<Expr>, at: Place, m: State) returns (n: nat, m': State)
    requires m.Running? && m.pc == at.code && (e.Some? ==> ExprOk(e.value)) && IncrementPlaced(p, e, at)
    ensures Runs(rt, p, m, n, m')
    ensures GuardLands(EvalGuard(rt, e, m.world), m, m', at.regs, IncrementEnd(e, at).code, IncrementEnd(e, at).code)
  {
    hide *;
    match e
    case None =>
      n, m' := 0, m;
      NoEffect(rt, p, at, m);
    case Some(value) =>
      EffectParts(rt, p, value, at, m, m);
      n, m' := SimExpr(rt, p, value, at, m);
      EffectParts(rt, p, value, at, m, m');
  }

  lemma NoEffect(rt: Runtime, p: Program, at: Place, m: State)
    requires m.Running? && m.pc == at.code
    ensures Runs(rt, p, m, 0, m)
    ensures GuardLands(EvalGuard(rt, None, m.world), m, m, at.regs, IncrementEnd(None, at).code, IncrementEnd(None, at).code)
  {
  }

  // ------------------------------------------------------------- match statements

  predicate StmtArmsPlaced(p: Program, arms: List<StmtArm>, v: Register, at: Place, loop: Targets, end: nat) {
    CodeAt(p, at.code, StmtArmsCode(arms, v, at, loop, end)) && TableAt(p, at.fns, StmtArmsFunctions(arms, at))
  }

  lemma StmtArmsPlacedHere(p: Program, arms: List<StmtArm>, v: Register, at: Place, loop: Targets, end: nat)
    ensures StmtArmsPlaced(p, arms, v, at, loop, end)
        <==> CodeAt(p, at.code, StmtArmsCode(arms, v, at, loop, end)) && TableAt(p, at.fns, StmtArmsFunctions(arms, at))
  {
  }

  lemma StmtArmPlaced(p: Program, arms: List<StmtArm>, v: Register, at: Place, loop: Targets, end: nat)
    requires arms.Cons? && StmtArmsPlaced(p, arms, v, at, loop, end)
    ensures
      var arm, rest := arms.head, arms.tail;
      var at2 := GuardEnd(arm.guard, GuardPlace(arm.pattern, at));
      var done := StmtEnd(arm.body, at2);
      var next := Skip(done, 1, 0);
      && TestPlaced(p, arm.pattern, arm.guard, v, at, next.code)
      && StmtPlaced(p, arm.body, at2, loop)
      && done.code < |p.code| && p.code[done.code] == Jump(end)
      && StmtArmsPlaced(p, rest, v, next, loop, end)
  {
    hide *;
    var arm, rest := arms.head, arms.tail;
    var at1 := GuardPlace(arm.pattern, at);
    var at2 := GuardEnd(arm.guard, at1);
    var done := StmtEnd(arm.body, at2);
    var next := Skip(done, 1, 0);
    StmtArmsPlacedHere(p, arms, v, at, loop, end);
    StmtArmsParts(arms, v, at, loop, end);
    ArmSplit(p, at.code, BindCode(arm.pattern, v, at, next.code), GuardCode(arm.guard, at1, next.code),
             StmtCode(arm.body, at2, loop), [Jump(end)], StmtArmsCode(rest, v, next, loop, end));
    InstrAt(p, done.code, [Jump(end)], 0);
    var t1, t2 := GuardFunctions(arm.guard, at1), StmtFunctions(arm.body, at2);
    TableSplit(p, at.fns, t1 + t2, StmtArmsFunctions(rest, next));
    TableSplit(p, at.fns, t1, t2);
    TestPlacedHere(p, arm.pattern, arm.guard, v, at, next.code);
    StmtPlacedHere(p, arm.body, at2, loop);
    StmtArmsPlacedHere(p, rest, v, next, loop, end);
  }

  lemma StmtArmsMeaning(rt: Runtime, arms: List<StmtArm>, inLoop: bool, v: Value, w: World, fuel: nat)
    requires arms.Cons? && StmtArmsOk(arms, inLoop)
    ensures PatternOk(arms.head.pattern) && GuardOk(arms.head.guard) && StmtOk(arms.head.body, inLoop)
    ensures StmtArmsOk(arms.tail, inLoop)
    ensures
      var r := TryArm(rt, arms.head.pattern, arms.head.guard, v, w);
      ExecArms(rt, arms, v, w, fuel)
      == if !r.Yields? then Abort(r)
         else if r.value then Exec(rt, arms.head.body, r.world, fuel)
         else ExecArms(rt, arms.tail, v, r.world, fuel)
  {
    hide TryArm, Exec, StmtOk, PatternOk, GuardOk;
  }

  lemma NoStmtArms(rt: Runtime, p: Program, v: Value, at: Place, loop: Targets, m: State, fuel: nat, end: nat)
    requires m.Running? && m.pc == at.code && end == StmtArmsEnd(Empty, at).code
    ensures Runs(rt, p, m, 0, m)
    ensures StmtLands(ExecArms(rt, Empty, v, m.world, fuel), p, m, m, 0, fuel, at, end, loop)
  {
  }

  /** The arms in order; when none is taken the statement does nothing. */
  lemma {:induction false} SimStmtArms(
    rt: Runtime, p: Program, arms: List<StmtArm>, v: Register, at: Place, loop: Targets, end: nat, m: State, fuel: nat
  ) returns (n: nat, m': State)
    requires m.Running? && m.pc == at.code && v < at.regs && v in m.regs
    requires StmtArmsOk(arms, loop.Loop?) && StmtArmsPlaced(p, arms, v, at, loop, end)
    requires end == StmtArmsEnd(arms, at).code
    ensures Runs(rt, p, m, n, m')
    ensures StmtLands(ExecArms(rt, arms, m.regs[v], m.world, fuel), p, m, m', n, fuel, at, end, loop)
    decreases fuel, arms, 0
  {
    hide *;
    match arms
    case Empty =>
      n, m' := 0, m;
      NoStmtArms(rt, p, m.regs[v], at, loop, m, fuel, end);
    case Cons(arm, rest) =>
      StmtArmsMeaning(rt, arms, loop.Loop?, m.regs[v], m.world, fuel);
      StmtArmPlaced(p, arms, v, at, loop, end);
      StmtArmsParts(arms, v, at, loop, end);
      var at2 := GuardEnd(arm.guard, GuardPlace(arm.pattern, at));
      var done := StmtEnd(arm.body, at2);
      var next := Skip(done, 1, 0);
      BeforeRegs(at, next);
      var n1, m1 := SimTest(rt, p, arm.pattern, arm.guard, v, at, next.code, m);
      n, m' := n1, m1;
      var r := TryArm(rt, arm.pattern, arm.guard, m.regs[v], m.world);
      AfterGuard(r, p, m, m1, at, at2.code, next.code, n1, fuel, end, loop);
      if r.Yields? {
        ReachesKeeps(m, m1, at, v);
        var n2, m2;
        var at' := if r.value then at2 else next;
        if r.value {
          n2, m2 := SimArmBody(rt, p, arm.body, at2, loop, end, m1, fuel);
        } else {
          n2, m2 := SimStmtArms(rt, p, rest, v, next, loop, end, m1, fuel);
        }
        RunsThen(rt, p, m, n1, m1, n2, m2);
        StmtAfter(ExecArms(rt, arms, m.regs[v], m.world, fuel), p, m, m1, m2, n1, n2, fuel, fuel, at, at', end, loop);
        n, m' := n1 + n2, m2;
      }
  }

  lemma BeforeRegs(a: Place, b: Place)
    requires Before(a, b)
    ensures a.regs <= b.regs
  {
  }

  lemma ReachesKeeps(m: State, m1: State, at: Place, r: Register)
    requires m.Running? && m1.Running? && Reaches(m, m1, at, m1.pc, m1.world) && r < at.regs && r in m.regs
    ensures r in m1.regs && m1.regs[r] == m.regs[r]
  {
  }

  lemma {:induction false} SimArmBody(
    rt: Runtime, p: Program, body: Stmt, at: Place, loop: Targets, end: nat, m: State, fuel: nat
  ) returns (n: nat, m': State)
    requires m.Running? && m.pc == at.code && StmtOk(body, loop.Loop?) && StmtPlaced(p, body, at, loop)
    requires
      var last := StmtEnd(body, at).code;
      last < |p.code| && p.code[last] == Jump(end)
    ensures Runs(rt, p, m, n, m')
    ensures StmtLands(Exec(rt, body, m.world, fuel), p, m, m', n, fuel, at, end, loop)
    decreases fuel, body, 5
  {
    hide *;
    var n1, m1 := SimStmt(rt, p, body, at, loop, m, fuel);
    var n2, m2 := ThenJump(rt, p, Exec(rt, body, m.world, fuel), m, m1, n1, fuel, at, StmtEnd(body, at).code, end, loop);
    RunsThen(rt, p, m, n1, m1, n2, m2);
    n, m' := n1 + n2, m2;
  }

  lemma MatchParts(rt: Runtime, p: Program, s: Stmt, at: Place, loop: Targets, w: World, fuel: nat)
    requires s.Match? && StmtOk(s, loop.Loop?) && StmtPlaced(p, s, at, loop)
    ensures ExprOk(s.scrutinee) && StmtArmsOk(s.arms, loop.Loop?)
    ensures
      var at1, end := ExprEnd(s.scrutinee, at), StmtEnd(s, at).code;
      && Before(at, at1) && end == StmtArmsEnd(s.arms, at1).code
      && CodeAt(p, at.code, ExprCode(s.scrutinee, at) + StmtArmsCode(s.arms, ResultOf(s.scrutinee, at), at1, loop, end))
      && TableAt(p, at.fns, ExprFunctions(s.scrutinee, at) + StmtArmsFunctions(s.arms, at1))
    ensures
      var r := EvalExpr(rt, s.scrutinee, w);
      Exec(rt, s, w, fuel) == if r.Yields? then ExecArms(rt, s.arms, r.value, r.world, fuel) else Abort(r)
  {
    hide CodeAt, TableAt, ExprCode, ExprEnd, ExprFunctions, ResultOf, EvalExpr, ExprOk, StmtArmsCode, StmtArmsFunctions,
      StmtArmsEnd, ExecArms, StmtArmsOk;
    assert StmtCode(s, at, loop) == MatchCode(s, at, loop);
    assert StmtFunctions(s, at) == MatchFunctions(s, at);
  }

  lemma {:induction false} SimMatch(
    rt: Runtime, p: Program, s: Stmt, at: Place, loop: Targets, m: State, fuel: nat
  ) returns (n: nat, m': State)
    requires s.Match?
    requires m.Running? && m.pc == at.code && StmtOk(s, loop.Loop?) && StmtPlaced(p, s, at, loop)
    ensures Runs(rt, p, m, n, m')
    ensures StmtLands(Exec(rt, s, m.world, fuel), p, m, m', n, fuel, at, StmtEnd(s, at).code, loop)
    decreases fuel, s, 3
  {
    hide *;
    MatchParts(rt, p, s, at, loop, m.world, fuel);
    var at1, v, end := ExprEnd(s.scrutinee, at), ResultOf(s.scrutinee, at), StmtEnd(s, at).code;
    CodeSplit(p, at.code, ExprCode(s.scrutinee, at), StmtArmsCode(s.arms, v, at1, loop, end));
    TableSplit(p, at.fns, ExprFunctions(s.scrutinee, at), StmtArmsFunctions(s.arms, at1));
    PlacedHere(p, s.scrutinee, at);
    StmtArmsPlacedHere(p, s.arms, v, at1, loop, end);
    n, m' := SimExpr(rt, p, s.scrutinee, at, m);
    var r := EvalExpr(rt, s.scrutinee, m.world);
    AfterExpr(r, p, m, m', at, at1.code, v, n, fuel, end, loop);
    if r.Yields? {
      var n2, m2 := SimStmtArms(rt, p, s.arms, v, at1, loop, end, m', fuel);
      RunsThen(rt, p, m, n, m', n2, m2);
      StmtAfter(ExecArms(rt, s.arms, r.value, r.world, fuel), p, m, m', m2, n, n2, fuel, fuel, at, at1, end, loop);
      n, m' := n + n2, m2;
    }
  }

  // --------------------------------------------------------------- for-in loops

  /** `EvalIterable` after the iterable expression. */
  function Snapshot(rt: Runtime, item: string, v: Value, w: World): Eval<(Value, nat)> {
    var (collection, w2) :- FromEffect(Apply(rt, AssertArray, [v], w));
    var w3 := BindVar(w2, item, Nil);
    match rt.length(w3.heap, collection)
    case None => Faults("len", w3)
    case Some(n) => Yields((collection, n), w3)
  }

  /** The hidden variables of the loop at `at`: the collection, the next index and the length snapshot. */
  predicate Ready(m: State, at: Place, collection: Value, length: nat, i: nat)
    requires m.Running?
  {
    && IterName(at) in m.hidden && m.hidden[IterName(at)] == collection
    && IndexName(at) in m.hidden && m.hidden[IndexName(at)] == Number(i as real)
    && LengthName(at) in m.hidden && m.hidden[LengthName(at)] == Number(length as real)
  }

  /** Registers below the loop's own and outer synthetic variables are kept. */
  predicate Keeps(m: State, m': State, at: Place)
    requires m.Running? && m'.Running?
  {
    Agree(m.regs, m'.regs, at.regs) && KeepsHidden(m.hidden, m'.hidden, at.syns)
  }

  lemma KeepsReaches(m: State, m': State, at: Place)
    requires m.Running? && m'.Running?
    ensures Keeps(m, m', at) <==> Reaches(m, m', at, m'.pc, m'.world)
  {
  }

  lemma KeepsTrans(m: State, m1: State, m2: State, at: Place)
    requires m.Running? && m1.Running? && m2.Running? && Keeps(m, m1, at) && Keeps(m1, m2, at)
    ensures Keeps(m, m2, at)
  {
  }

  /** Check the iterable and keep it. */
  lemma SetupCollection(
    rt: Runtime, p: Program, at: Place, item: string, iterable: Register, r: Register, v: Value, m: State
  ) returns (n: nat, m': State)
    requires m.Running? && at.regs <= r && iterable in m.regs && m.regs[iterable] == v
    requires CodeAt(p, m.pc, ForInSetup(at, item, iterable, r))
    ensures Runs(rt, p, m, n, m')
    ensures match Apply(rt, AssertArray, [v], m.world)
            case Done(collection, w) =>
              && m'.Running? && m'.pc == m.pc + 2 && m'.world == w && Keeps(m, m', at)
              && IterName(at) in m'.hidden && m'.hidden[IterName(at)] == collection
            case Trap(message, w) => m' == Trapped(message, w)
  {
    hide CodeAt, Runs, Apply;
    var code := ForInSetup(at, item, iterable, r);
    InstrAt(p, m.pc, code, 0);
    InstrAt(p, m.pc, code, 1);
    DoCompute(rt, p, m, r, AssertArray, [iterable], [v]);
    var e := Apply(rt, AssertArray, [v], m.world);
    n, m' := 1, Finish(m, r, e);
    if e.Done? {
      DoStore(rt, p, m', IterName(at), r);
      var m2 := StoreVariable(m', IterName(at), e.value);
      RunsThen(rt, p, m, 1, m', 1, m2);
      n, m' := 2, m2;
    }
  }

  /** Start at index zero and bind the loop variable. */
  lemma SetupIndex(rt: Runtime, p: Program, at: Place, item: string, iterable: Register, r: Register, pc: nat, m: State)
    returns (m': State)
    requires m.Running? && at.regs <= r && m.pc == pc + 2 && CodeAt(p, pc, ForInSetup(at, item, iterable, r))
    requires IterName(at) in m.hidden
    ensures Runs(rt, p, m, 4, m')
    ensures m'.Running? && m'.pc == pc + 6 && m'.world == BindVar(m.world, item, Nil) && Keeps(m, m', at)
    ensures IterName(at) in m'.hidden && m'.hidden[IterName(at)] == m.hidden[IterName(at)]
    ensures IndexName(at) in m'.hidden && m'.hidden[IndexName(at)] == Number(0.0)
  {
    hide CodeAt, Runs, Apply, BindVar;
    var code := ForInSetup(at, item, iterable, r);
    InstrAt(p, pc, code, 2);
    InstrAt(p, pc, code, 3);
    InstrAt(p, pc, code, 4);
    InstrAt(p, pc, code, 5);
    ApplyConstant(rt, Number(0.0), m.world);
    ApplyConstant(rt, Nil, m.world);
    DoCompute(rt, p, m, r + 1, Constant(Number(0.0)), [], []);
    var m1 := m.(pc := m.pc + 1, regs := m.regs[r + 1 := Number(0.0)]);
    DoStore(rt, p, m1, IndexName(at), r + 1);
    var m2 := m1.(pc := m1.pc + 1, hidden := m1.hidden[IndexName(at) := Number(0.0)]);
    RunsThen(rt, p, m, 1, m1, 1, m2);
    DoCompute(rt, p, m2, r + 2, Constant(Nil), [], []);
    var m3 := m2.(pc := m2.pc + 1, regs := m2.regs[r + 2 := Nil]);
    RunsThen(rt, p, m, 2, m2, 1, m3);
    DoStore(rt, p, m3, User(item), r + 2);
    m' := m3.(pc := m3.pc + 1, world := BindVar(m3.world, item, Nil));
    RunsThen(rt, p, m, 3, m3, 1, m');
  }

  /** Take the length once. */
  lemma SetupLength(
    rt: Runtime, p: Program, at: Place, item: string, iterable: Register, r: Register, pc: nat, m: State
  ) returns (n: nat, m': State)
    requires m.Running? && at.regs <= r && m.pc == pc + 6 && CodeAt(p, pc, ForInSetup(at, item, iterable, r))
    requires IterName(at) in m.hidden && IndexName(at) in m.hidden && m.hidden[IndexName(at)] == Number(0.0)
    ensures Runs(rt, p, m, n, m')
    ensures match rt.length(m.world.heap, m.hidden[IterName(at)])
            case Some(length) =>
              && m'.Running? && m'.pc == pc + 9 && m'.world == m.world && Keeps(m, m', at)
              && Ready(m', at, m.hidden[IterName(at)], length, 0)
            case None => m' == Trapped("len", m.world)
  {
    hide CodeAt, Runs, Apply;
    var code := ForInSetup(at, item, iterable, r);
    InstrAt(p, pc, code, 6);
    InstrAt(p, pc, code, 7);
    InstrAt(p, pc, code, 8);
    var c := m.hidden[IterName(at)];
    DoLoad(rt, p, m, r + 3, IterName(at));
    var m1 := m.(pc := m.pc + 1, regs := m.regs[r + 3 := c]);
    ApplyLen(rt, c, m.world);
    DoCompute(rt, p, m1, r + 4, Len, [r + 3], [c]);
    n, m' := 2, Finish(m1, r + 4, Apply(rt, Len, [c], m.world));
    RunsThen(rt, p, m, 1, m1, 1, m');
    if m'.Running? {
      DoStore(rt, p, m', LengthName(at), r + 4);
      var m3 := StoreVariable(m', LengthName(at), m'.regs[r + 4]);
      RunsThen(rt, p, m, 2, m', 1, m3);
      n, m' := 3, m3;
    }
  }

  lemma SimSetup(
    rt: Runtime, p: Program, at: Place, item: string, iterable: Register, r: Register, v: Value, m: State
  ) returns (n: nat, m': State)
    requires m.Running? && at.regs <= r && iterable in m.regs && m.regs[iterable] == v
    requires CodeAt(p, m.pc, ForInSetup(at, item, iterable, r))
    ensures Runs(rt, p, m, n, m')
    ensures match Snapshot(rt, item, v, m.world)
            case Yields((collection, length), w) =>
              && m'.Running? && m'.pc == m.pc + 9 && m'.world == w && Keeps(m, m', at)
              && Ready(m', at, collection, length, 0)
            case Faults(message, w) => m' == Trapped(message, w)
            case Unmatched => false
  {
    hide CodeAt, Runs, Apply, Keeps, Ready, BindVar, ForInSetup, IterName, IndexName;
    n, m' := SetupCollection(rt, p, at, item, iterable, r, v, m);
    if m'.Running? {
      var m2 := SetupIndex(rt, p, at, item, iterable, r, m.pc, m');
      RunsThen(rt, p, m, n, m', 4, m2);
      KeepsTrans(m, m', m2, at);
      var n3, m3 := SetupLength(rt, p, at, item, iterable, r, m.pc, m2);
      RunsThen(rt, p, m, n + 4, m2, n3, m3);
      if m3.Running? {
        KeepsTrans(m, m2, m3, at);
      }
      n, m' := n + 4 + n3, m3;
    }
  }

  /** The index test. */
  lemma SimIndexTest(
    rt: Runtime, p: Program, at: Place, item: string, start: nat, r: Register, end: nat,
    collection: Value, length: nat, i: nat, m: State
  ) returns (m': State)
    requires m.Running? && at.regs <= r && m.pc == start && CodeAt(p, start, ForInTest(at, item, start, r, end))
    requires Ready(m, at, collection, length, i)
    ensures Runs(rt, p, m, 4, m')
    ensures m'.Running? && m'.pc == (if i < length then start + 4 else end) && m'.world == m.world
    ensures Keeps(m, m', at) && Ready(m', at, collection, length, i)
  {
    hide CodeAt, Runs, Apply;
    var code := ForInTest(at, item, start, r, end);
    InstrAt(p, start, code, 0);
    InstrAt(p, start, code, 1);
    InstrAt(p, start, code, 2);
    InstrAt(p, start, code, 3);
    var x, y := i as real, length as real;
    DoLoad(rt, p, m, r, IndexName(at));
    var m1 := m.(pc := m.pc + 1, regs := m.regs[r := Number(x)]);
    DoLoad(rt, p, m1, r + 1, LengthName(at));
    var m2 := m1.(pc := m1.pc + 1, regs := m1.regs[r + 1 := Number(y)]);
    RunsThen(rt, p, m, 1, m1, 1, m2);
    ApplyLess(rt, x, y, m.world);
    DoCompute(rt, p, m2, r + 2, Compare(Less), [r, r + 1], [Number(x), Number(y)]);
    var m3 := m2.(pc := m2.pc + 1, regs := m2.regs[r + 2 := Bool(x < y)]);
    RunsThen(rt, p, m, 2, m2, 1, m3);
    DoJumpIf(rt, p, m3, r + 2, false, end);
    m' := m3.(pc := if x < y then m3.pc + 1 else end);
    RunsThen(rt, p, m, 3, m3, 1, m');
  }

  /** The world in which the body of iteration `i` starts. */
  function Fetch(rt: Runtime, item: string, collection: Value, i: nat, w: World): Effect {
    match rt.index(w.heap, collection, Number(i as real))
    case None => Trap("index", w)
    case Some(v) => UpdateVar(w, item, v)
  }

  /** The element fetch, the store to the loop variable and the jump over the increment. */
  lemma SimFetch(
    rt: Runtime, p: Program, at: Place, item: string, start: nat, r: Register, end: nat,
    collection: Value, length: nat, i: nat, m: State
  ) returns (n: nat, m': State)
    requires m.Running? && at.regs <= r && m.pc == start + 4 && CodeAt(p, start, ForInTest(at, item, start, r, end))
    requires Ready(m, at, collection, length, i)
    ensures Runs(rt, p, m, n, m')
    ensures match Fetch(rt, item, collection, i, m.world)
            case Done(_, w) =>
              && m'.Running? && m'.pc == start + 14 && m'.world == w
              && Keeps(m, m', at) && Ready(m', at, collection, length, i)
            case Trap(message, w) => m' == Trapped(message, w)
  {
    hide CodeAt, Runs, Apply, UpdateVar;
    var code := ForInTest(at, item, start, r, end);
    InstrAt(p, start, code, 4);
    InstrAt(p, start, code, 5);
    InstrAt(p, start, code, 6);
    InstrAt(p, start, code, 7);
    InstrAt(p, start, code, 8);
    var x := Number(i as real);
    DoLoad(rt, p, m, r + 3, IterName(at));
    var m1 := m.(pc := m.pc + 1, regs := m.regs[r + 3 := collection]);
    DoLoad(rt, p, m1, r + 4, IndexName(at));
    var m2 := m1.(pc := m1.pc + 1, regs := m1.regs[r + 4 := x]);
    RunsThen(rt, p, m, 1, m1, 1, m2);
    ApplyIndex(rt, collection, x, m.world);
    DoCompute(rt, p, m2, r + 5, Index, [r + 3, r + 4], [collection, x]);
    n, m' := 3, Finish(m2, r + 5, Apply(rt, Index, [collection, x], m.world));
    RunsThen(rt, p, m, 2, m2, 1, m');
    if m'.Running? {
      var m3 := m';
      var m4 := AssignUser(rt, p, m3, item, r + 5);
      RunsThen(rt, p, m, 3, m3, 1, m4);
      n, m' := 4, m4;
      if m4.Running? {
        DoJump(rt, p, m4, start + 14);
        RunsThen(rt, p, m, 4, m4, 1, m4.(pc := start + 14));
        n, m' := 5, m4.(pc := start + 14);
      }
    }
  }

  /** The increment and the jump back to the test. */
  lemma SimAdvance(
    rt: Runtime, p: Program, at: Place, start: nat, r: Register, collection: Value, length: nat, i: nat, m: State
  ) returns (m': State)
    requires m.Running? && at.regs <= r && m.pc == start + 9 && CodeAt(p, start + 9, ForInIncrement(at, start, r))
    requires Ready(m, at, collection, length, i)
    ensures Runs(rt, p, m, 5, m')
    ensures m'.Running? && m'.pc == start && m'.world == m.world && Keeps(m, m', at)
    ensures Ready(m', at, collection, length, i + 1)
  {
    hide CodeAt, Runs, Apply;
    var code := ForInIncrement(at, start, r);
    InstrAt(p, start + 9, code, 0);
    InstrAt(p, start + 9, code, 1);
    InstrAt(p, start + 9, code, 2);
    InstrAt(p, start + 9, code, 3);
    InstrAt(p, start + 9, code, 4);
    var x, one, sum := Number(i as real), Number(1.0), Number(i as real + 1.0);
    DoLoad(rt, p, m, r, IndexName(at));
    var m1 := m.(pc := m.pc + 1, regs := m.regs[r := x]);
    ApplyConstant(rt, one, m.world);
    DoCompute(rt, p, m1, r + 1, Constant(one), [], []);
    var m2 := m1.(pc := m1.pc + 1, regs := m1.regs[r + 1 := one]);
    RunsThen(rt, p, m, 1, m1, 1, m2);
    ApplyAdd(rt, i as real, 1.0, m.world);
    DoCompute(rt, p, m2, r + 2, Arithmetic(Add), [r, r + 1], [x, one]);
    var m3 := m2.(pc := m2.pc + 1, regs := m2.regs[r + 2 := sum]);
    RunsThen(rt, p, m, 2, m2, 1, m3);
    DoAssign(rt, p, m3, IndexName(at), r + 2);
    var m4 := m3.(pc := m3.pc + 1, hidden := m3.hidden[IndexName(at) := sum]);
    RunsThen(rt, p, m, 3, m3, 1, m4);
    DoJump(rt, p, m4, start);
    m' := m4.(pc := start);
    RunsThen(rt, p, m, 4, m4, 1, m');
    assert i as real + 1.0 == (i + 1) as real;
  }

  /** The body numbers its synthetic variables after the loop's own. */
  lemma ReadyKept(m: State, m1: State, at: Place, at1: Place, collection: Value, length: nat, i: nat)
    requires m.Running? && m1.Running? && Ready(m, at, collection, length, i) && at.syns + 3 <= at1.syns
    requires Reaches(m, m1, at1, m1.pc, m1.world)
    ensures Ready(m1, at, collection, length, i)
  {
  }

  lemma ForInMeaning(rt: Runtime, s: Stmt, inLoop: bool, w: World, fuel: nat)
    requires s.ForIn? && StmtOk(s, inLoop)
    ensures ExprOk(s.iterable) && StmtOk(s.loopBody, true)
    ensures
      var r := EvalExpr(rt, s.iterable, w);
      Exec(rt, s, w, fuel)
      == if !r.Yields? then Abort(r)
         else
           var t := Snapshot(rt, s.item, r.value, r.world);
           if t.Yields? then ExecForIn(rt, s.item, t.value.0, t.value.1, 0, s.loopBody, t.world, fuel) else Abort(t)
  {
    hide ExprOk, EvalExpr, Apply, BindVar, ExecForIn;
    var r := EvalExpr(rt, s.iterable, w);
    assert EvalIterable(rt, s.item, s.iterable, w)
        == if !r.Yields? then r.PropagateFailure() else Snapshot(rt, s.item, r.value, r.world);
  }

  lemma ForInStep(rt: Runtime, s: Stmt, collection: Value, length: nat, i: nat, w: World, fuel: nat)
    requires s.ForIn?
    ensures
      ExecForIn(rt, s.item, collection, length, i, s.loopBody, w, fuel)
      == if i >= length then Normal(w)
         else if fuel == 0 then OutOfFuel
         else
           var f := Fetch(rt, s.item, collection, i, w);
           if f.Trap? then Faulted(f.message, f.world)
           else
             var b := Exec(rt, s.loopBody, f.world, fuel);
             if GoesOn(b) then ExecForIn(rt, s.item, collection, length, i + 1, s.loopBody, b.world, fuel - 1)
             else Leaves(b)
  {
    hide Exec;
  }

  /** The loop after its set-up. */
  predicate LoopCodePlaced(p: Program, s: Stmt, at: Place)
    requires s.ForIn?
  {
    var at1, at2 := ExprEnd(s.iterable, at.(syns := at.syns + 3)), BodyPlace(s, at);
    var start, last, end := at1.code + 9, StmtEnd(s.loopBody, at2).code, StmtEnd(s, at).code;
    && CodeAt(p, start, ForInTest(at, s.item, start, at1.regs + 5, end))
    && CodeAt(p, start + 9, ForInIncrement(at, start, at1.regs + 11))
    && StmtPlaced(p, s.loopBody, at2, Loop(start + 9, end))
    && last < |p.code| && p.code[last] == Jump(start + 9)
    && start < |p.code|
  }

  lemma LoopCodePlacedHere(p: Program, s: Stmt, at: Place)
    requires s.ForIn?
    ensures LoopCodePlaced(p, s, at)
        <==> var at1, at2 := ExprEnd(s.iterable, at.(syns := at.syns + 3)), BodyPlace(s, at);
             var start, last, end := at1.code + 9, StmtEnd(s.loopBody, at2).code, StmtEnd(s, at).code;
             && CodeAt(p, start, ForInTest(at, s.item, start, at1.regs + 5, end))
             && CodeAt(p, start + 9, ForInIncrement(at, start, at1.regs + 11))
             && StmtPlaced(p, s.loopBody, at2, Loop(start + 9, end))
             && last < |p.code| && p.code[last] == Jump(start + 9)
             && start < |p.code|
  {
    hide CodeAt, StmtPlaced, ExprEnd, StmtEnd, ForInTest, ForInIncrement;
  }

  lemma ForInPlaced(p: Program, s: Stmt, at: Place, loop: Targets)
    requires s.ForIn? && StmtPlaced(p, s, at, loop)
    ensures
      var at0 := at.(syns := at.syns + 3);
      var at1 := ExprEnd(s.iterable, at0);
      && Placed(p, s.iterable, at0)
      && CodeAt(p, at1.code, ForInSetup(at, s.item, ResultOf(s.iterable, at0), at1.regs))
      && LoopCodePlaced(p, s, at)
  {
    hide *;
    var at0 := at.(syns := at.syns + 3);
    var at1, at2 := ExprEnd(s.iterable, at0), BodyPlace(s, at);
    var start, last, end := at1.code + 9, StmtEnd(s.loopBody, at2).code, StmtEnd(s, at).code;
    var setup := ForInSetup(at, s.item, ResultOf(s.iterable, at0), at1.regs);
    var test, inc := ForInTest(at, s.item, start, at1.regs + 5, end), ForInIncrement(at, start, at1.regs + 11);
    var body, back := StmtCode(s.loopBody, at2, Loop(start + 9, end)), [Jump(start + 9)];
    StmtPlacedHere(p, s, at, loop);
    ForInCodeParts(s, at, loop);
    ForInSizes(at, s.item, ResultOf(s.iterable, at0), at1.regs, start, end);
    ForInSizes(at, s.item, 0, at1.regs + 5, start, end);
    ForInSizes(at, s.item, 0, at1.regs + 11, start, end);
    CodeSplit(p, at.code, ExprCode(s.iterable, at0) + setup + test + inc + body, back);
    ArmSplit(p, at.code, ExprCode(s.iterable, at0), setup, test, inc, body);
    InstrAt(p, last, back, 0);
    TableSplit(p, at.fns, ExprFunctions(s.iterable, at0), StmtFunctions(s.loopBody, at2));
    PlacedHere(p, s.iterable, at0);
    StmtPlacedHere(p, s.loopBody, at2, Loop(start + 9, end));
    StartsInside(p, start, test);
    LoopCodePlacedHere(p, s, at);
  }

  lemma StartsInside(p: Program, pc: nat, code: seq<Instr>)
    requires CodeAt(p, pc, code) && code != []
    ensures pc < |p.code|
  {
  }

  lemma {:induction false} SimForInStmt(
    rt: Runtime, p: Program, s: Stmt, at: Place, loop: Targets, m: State, fuel: nat
  ) returns (n: nat, m': State)
    requires s.ForIn?
    requires m.Running? && m.pc == at.code && StmtOk(s, loop.Loop?) && StmtPlaced(p, s, at, loop)
    ensures Runs(rt, p, m, n, m')
    ensures StmtLands(Exec(rt, s, m.world, fuel), p, m, m', n, fuel, at, StmtEnd(s, at).code, loop)
    decreases fuel, s, 3
  {
    hide *;
    ForInMeaning(rt, s, loop.Loop?, m.world, fuel);
    ForInPlaced(p, s, at, loop);
    ForInCodeParts(s, at, loop);
    var at0, end := at.(syns := at.syns + 3), StmtEnd(s, at).code;
    var at1, iterable := ExprEnd(s.iterable, at0), ResultOf(s.iterable, at0);
    n, m' := SimExpr(rt, p, s.iterable, at0, m);
    var r := EvalExpr(rt, s.iterable, m.world);
    AfterExpr(r, p, m, m', at, at1.code, iterable, n, fuel, end, loop);
    if r.Yields? {
      var n2, m2 := SimSetup(rt, p, at, s.item, iterable, at1.regs, r.value, m');
      RunsThen(rt, p, m, n, m', n2, m2);
      var t := Snapshot(rt, s.item, r.value, r.world);
      if t.Yields? {
        KeepsReaches(m', m2, at);
        BeforeSelf(at);
        ReachesTrans(m, m', m2, at, at);
        var n3, m3 := SimForIn(rt, p, s, at, loop, t.value.0, t.value.1, 0, m2, fuel);
        RunsThen(rt, p, m, n + n2, m2, n3, m3);
        StmtAfter(Exec(rt, s, m.world, fuel), p, m, m2, m3, n + n2, n3, fuel, fuel, at, at, end, loop);
        n, m' := n + n2 + n3, m3;
      } else {
        IsAbort(t, p, m, m2, n + n2, fuel, at, end, loop);
        n, m' := n + n2, m2;
      }
    }
  }

  lemma IsAbort(
    t: Eval<(Value, nat)>, p: Program, m: State, m1: State, n: nat, fuel: nat, at: Place, end: nat, loop: Targets
  )
    requires m.Running? && t.Faults? && m1 == Trapped(t.message, t.world)
    ensures StmtLands(Abort(t), p, m, m1, n, fuel, at, end, loop)
  {
  }

  lemma IsFault(
    message: string, w: World, p: Program, m: State, n: nat, fuel: nat, at: Place, end: nat, loop: Targets
  )
    requires m.Running?
    ensures StmtLands(Faulted(message, w), p, m, Trapped(message, w), n, fuel, at, end, loop)
  {
  }

  /** Iterations `i` onwards, from the index test. */
  lemma {:induction false} SimForIn(
    rt: Runtime, p: Program, s: Stmt, at: Place, loop: Targets, collection: Value, length: nat, i: nat, m: State, fuel: nat
  ) returns (n: nat, m': State)
    requires s.ForIn? && StmtOk(s.loopBody, true) && LoopCodePlaced(p, s, at)
    requires m.Running? && m.pc == ExprEnd(s.iterable, at.(syns := at.syns + 3)).code + 9
    requires Ready(m, at, collection, length, i)
    ensures Runs(rt, p, m, n, m')
    ensures StmtLands(ExecForIn(rt, s.item, collection, length, i, s.loopBody, m.world, fuel), p, m, m', n, fuel,
                      at, StmtEnd(s, at).code, loop)
    decreases fuel, s, 1
  {
    hide *;
    ForInStep(rt, s, collection, length, i, m.world, fuel);
    LoopCodePlacedHere(p, s, at);
    ForInCodeParts(s, at, loop);
    var at1, end := ExprEnd(s.iterable, at.(syns := at.syns + 3)), StmtEnd(s, at).code;
    var start, r := at1.code + 9, at1.regs + 5;
    var m1 := SimIndexTest(rt, p, at, s.item, start, r, end, collection, length, i, m);
    n, m' := 4, m1;
    KeepsReaches(m, m1, at);
    if i >= length {
      IsNormal(p, m, m1, n, fuel, at, end, loop);
    } else if fuel == 0 {
      n, m' := 0, m;
      RunsNone(rt, p, m);
      IsUnfinished(p, m, 0, 0, at, end, loop);
    } else {
      var n2, m2 := SimFetch(rt, p, at, s.item, start, r, end, collection, length, i, m1);
      RunsThen(rt, p, m, 4, m1, n2, m2);
      var f := Fetch(rt, s.item, collection, i, m.world);
      if f.Trap? {
        n, m' := 4 + n2, m2;
        IsFault(f.message, f.world, p, m, n, fuel, at, end, loop);
      } else {
        KeepsTrans(m, m1, m2, at);
        KeepsReaches(m, m2, at);
        n, m' := SimForInTurn(rt, p, s, at, loop, collection, length, i, m, 4 + n2, m2, fuel);
      }
    }
  }

  /** The body of iteration `i`, the increment, and the iterations after it. */
  lemma {:induction false} SimForInTurn(
    rt: Runtime, p: Program, s: Stmt, at: Place, loop: Targets, collection: Value, length: nat, i: nat,
    m: State, n2: nat, m2: State, fuel: nat
  ) returns (n: nat, m': State)
    requires s.ForIn? && StmtOk(s.loopBody, true) && LoopCodePlaced(p, s, at) && fuel > 0 && n2 > 0
    requires m.Running? && Runs(rt, p, m, n2, m2) && m2.Running? && Reaches(m, m2, at, m2.pc, m2.world)
    requires m2.pc == ExprEnd(s.iterable, at.(syns := at.syns + 3)).code + 23
    requires Ready(m2, at, collection, length, i)
    ensures Runs(rt, p, m, n, m')
    ensures
      var b := Exec(rt, s.loopBody, m2.world, fuel);
      StmtLands(if GoesOn(b) then ExecForIn(rt, s.item, collection, length, i + 1, s.loopBody, b.world, fuel - 1)
                else Leaves(b),
                p, m, m', n, fuel, at, StmtEnd(s, at).code, loop)
    decreases fuel, s, 0
  {
    hide *;
    LoopCodePlacedHere(p, s, at);
    ForInCodeParts(s, at, loop);
    var at1, at2 := ExprEnd(s.iterable, at.(syns := at.syns + 3)), BodyPlace(s, at);
    var start, end := at1.code + 9, StmtEnd(s, at).code;
    var n3, m3 := SimBody(rt, p, s.loopBody, at2, start + 9, end, m2, fuel);
    RunsThen(rt, p, m, n2, m2, n3, m3);
    n, m' := n2 + n3, m3;
    var b := Exec(rt, s.loopBody, m2.world, fuel);
    AfterBody(b, p, m, m2, m3, n2, n3, fuel, at, at2, start + 9, end, loop);
    AboutGoesOn(b);
    if GoesOn(b) {
      ReadyKept(m2, m3, at, at2, collection, length, i);
      var m4 := SimAdvance(rt, p, at, start, at1.regs + 11, collection, length, i, m3);
      RunsThen(rt, p, m, n, m3, 5, m4);
      KeepsReaches(m3, m4, at);
      BeforeSelf(at);
      ReachesTrans(m, m3, m4, at, at);
      var n5, m5 := SimForIn(rt, p, s, at, loop, collection, length, i + 1, m4, fuel - 1);
      RunsThen(rt, p, m, n + 5, m4, n5, m5);
      StmtAfter(ExecForIn(rt, s.item, collection, length, i + 1, s.loopBody, b.world, fuel - 1), p, m, m4, m5, n + 5, n5,
                fuel, fuel - 1, at, at, end, loop);
      n, m' := n + 5 + n5, m5;
    }
  }
}
