/** Lowering preserves meaning, for whole programs and for every function stream:
    the machine halts exactly when the source finishes, in the same way and in the
    same world, and it never gets stuck.
 */
module LoweringCorrectness {
  import opened Runtime
  import opened Ast
  import opened Semantics
  import opened IR
  import opened Lowering
  import opened FunctionTables
  import opened Placement
  import opened ExprSimulation
  import opened StmtSimulation

  function Initial(w: World): State {
    Running(0, map[], map[], w)
  }

  /** The machine has ended as the outcome says; a program that runs off its end falls off the stream. */
  predicate Ends(p: Program, r: Outcome, m: State) {
    match r
    case Normal(w) => m.Running? && m.pc == |p.code| && m.world == w
    case Returned(v, w) => m == State.Returned(v, w)
    case Faulted(message, w) => m == Trapped(message, w)
    case _ => false
  }

  predicate Finishes(r: Outcome) {
    r.Normal? || r.Returned? || r.Faulted?
  }

  lemma ProgramPlaced(program: List<Stmt>)
    ensures StmtsPlaced(Lower(program), program, Start, NoLoop)
    ensures |Lower(program).code| == StmtsEnd(program, Start).code
  {
    hide StmtsCode, StmtsFunctions, StmtsEnd;
    var p := Lower(program);
    assert p.code[0..|p.code|] == p.code;
    assert p.functions[0..|p.functions|] == p.functions;
  }

  lemma LandsEnds(r: Outcome, p: Program, m: State, m1: State, n: nat, fuel: nat)
    requires m.Running? && StmtLands(r, p, m, m1, n, fuel, Start, |p.code|, NoLoop)
    ensures Finishes(r) ==> Ends(p, r, m1) && Halted(p, m1)
    ensures r.OutOfFuel? ==> n >= fuel && !Halted(p, m1)
    ensures Finishes(r) || r.OutOfFuel? || r.NoArm?
  {
    hide Agree, KeepsHidden;
  }

  /** A machine that has not halted after `n` steps has not halted after fewer. */
  lemma NotYet(rt: Runtime, p: Program, m: State, fewer: nat, n: nat)
    requires fewer <= n && !Halted(p, Steps(rt, p, m, n))
    ensures !Halted(p, Steps(rt, p, m, fewer))
  {
    hide Step, Halted;
    StepsCompose(rt, p, m, fewer, n - fewer);
    if Halted(p, Steps(rt, p, m, fewer)) {
      HaltedStays(rt, p, Steps(rt, p, m, fewer), n - fewer);
    }
  }

  /** Two halted states of one run are the same state. */
  lemma HaltsOnce(rt: Runtime, p: Program, m: State, a: nat, b: nat)
    requires Halted(p, Steps(rt, p, m, a)) && Halted(p, Steps(rt, p, m, b))
    ensures Steps(rt, p, m, a) == Steps(rt, p, m, b)
  {
    hide Step, Halted;
    if a <= b {
      StepsCompose(rt, p, m, a, b - a);
      HaltedStays(rt, p, Steps(rt, p, m, a), b - a);
    } else {
      StepsCompose(rt, p, m, b, a - b);
      HaltedStays(rt, p, Steps(rt, p, m, b), a - b);
    }
  }

  lemma RunsMeans(rt: Runtime, p: Program, m: State, n: nat, m': State)
    ensures Runs(rt, p, m, n, m') <==> Steps(rt, p, m, n) == m'
  {
    hide Steps;
  }

  /** A finished source run is a halted machine run with the same ending; an unfinished one
      keeps the machine running for at least as many steps as it had fuel. */
  lemma ProgramPreserved(rt: Runtime, program: List<Stmt>, w: World, fuel: nat) returns (n: nat)
    requires StmtsOk(program, false)
    ensures
      var p, r := Lower(program), ExecAll(rt, program, w, fuel);
      && (Finishes(r) ==> Halted(p, Steps(rt, p, Initial(w), n)) && Ends(p, r, Steps(rt, p, Initial(w), n)))
      && (r.OutOfFuel? ==> !Halted(p, Steps(rt, p, Initial(w), fuel)))
      && (Finishes(r) || r.OutOfFuel? || r.NoArm?)
  {
    hide *;
    var p, r := Lower(program), ExecAll(rt, program, w, fuel);
    InitialState(w);
    ProgramPlaced(program);
    NoLoopFacts();
    var m';
    n, m' := SimStmts(rt, p, program, Start, NoLoop, Initial(w), fuel);
    RunsMeans(rt, p, Initial(w), n, m');
    LandsEnds(r, p, Initial(w), m', n, fuel);
    if r.OutOfFuel? {
      NotYet(rt, p, Initial(w), fuel, n);
    }
  }

  lemma InitialState(w: World)
    ensures Initial(w).Running? && Initial(w).pc == 0 && Initial(w).world == w
  {
  }

  lemma NoLoopFacts()
    ensures !NoLoop.Loop? && Start.code == 0
  {
  }

  /** A halted machine means a finished source run with the same ending: nothing gets stuck,
      and `n` steps of the machine are at most `n` loop iterations of the source. */
  lemma ProgramReflected(rt: Runtime, program: List<Stmt>, w: World, n: nat)
    requires StmtsOk(program, false)
    requires Halted(Lower(program), Steps(rt, Lower(program), Initial(w), n))
    requires !ExecAll(rt, program, w, n).NoArm?
    ensures Ends(Lower(program), ExecAll(rt, program, w, n), Steps(rt, Lower(program), Initial(w), n))
  {
    hide *;
    var p := Lower(program);
    var k := ProgramPreserved(rt, program, w, n);
    if Finishes(ExecAll(rt, program, w, n)) {
      HaltsOnce(rt, p, Initial(w), n, k);
    }
  }

  /** The machine halts exactly when some amount of fuel is enough for the source. */
  lemma TerminationAgrees(rt: Runtime, program: List<Stmt>, w: World)
    requires StmtsOk(program, false)
    requires forall fuel :: !ExecAll(rt, program, w, fuel).NoArm?
    ensures
      var p := Lower(program);
      (exists n :: Halted(p, Steps(rt, p, Initial(w), n))) <==> (exists fuel :: Finishes(ExecAll(rt, program, w, fuel)))
  {
    hide *;
    var p := Lower(program);
    if n :| Halted(p, Steps(rt, p, Initial(w), n)) {
      ProgramReflected(rt, program, w, n);
      EndsFinishes(p, ExecAll(rt, program, w, n), Steps(rt, p, Initial(w), n));
    }
    if fuel :| Finishes(ExecAll(rt, program, w, fuel)) {
      var n := ProgramPreserved(rt, program, w, fuel);
    }
  }

  lemma EndsFinishes(p: Program, r: Outcome, m: State)
    requires Ends(p, r, m)
    ensures Finishes(r) && m != Stuck
  {
  }

  /** More fuel does not change how a finished program ended. */
  lemma FuelIrrelevant(rt: Runtime, program: List<Stmt>, w: World, a: nat, b: nat)
    requires StmtsOk(program, false)
    requires Finishes(ExecAll(rt, program, w, a)) && Finishes(ExecAll(rt, program, w, b))
    ensures ExecAll(rt, program, w, a) == ExecAll(rt, program, w, b)
  {
    hide *;
    var p := Lower(program);
    var i := ProgramPreserved(rt, program, w, a);
    var j := ProgramPreserved(rt, program, w, b);
    HaltsOnce(rt, p, Initial(w), i, j);
    SameEnd(p, ExecAll(rt, program, w, a), ExecAll(rt, program, w, b), Steps(rt, p, Initial(w), i));
  }

  lemma SameEnd(p: Program, a: Outcome, b: Outcome, m: State)
    requires Ends(p, a, m) && Ends(p, b, m)
    ensures a == b
  {
  }

  // ------------------------------------------------------------------- functions

  /** The result of a call: running off the end of a body returns nil. */
  function CallResult(r: Outcome): Outcome {
    match r
    case Normal(w) => Outcome.Returned(Nil, w)
    case _ => r
  }

  lemma FunctionStream(p: Program, f: FunctionDef, at: Place)
    requires TableAt(p, at.fns, FunctionTable(f, at))
    ensures
      var index := StmtsEnd(f.body, Inner(at)).fns;
      && index < |p.functions|
      && p.functions[index].functionLabel == f.functionLabel
      && p.functions[index].parameters == f.parameters
      && p.functions[index].code == BodyCode(f.body, at)
      && TableAt(p, at.fns, StmtsFunctions(f.body, Inner(at)))
  {
    hide StmtsFunctions, StmtsEnd, BodyCode, TableAt;
    var table := FunctionTable(f, at);
    var last := |table| - 1;
    TableEntry(p, at.fns, table, last);
    assert at.fns + last == StmtsEnd(f.body, Inner(at)).fns;
    TableSplit(p, at.fns, StmtsFunctions(f.body, Inner(at)), [table[last]]);
  }

  lemma BodyPlaced(q: Program, f: FunctionDef, at: Place)
    requires q.code == BodyCode(f.body, at) && TableAt(q, at.fns, StmtsFunctions(f.body, Inner(at)))
    ensures StmtsPlaced(q, f.body, Inner(at), NoLoop)
    ensures
      var end := StmtsEnd(f.body, Inner(at));
      && end.code + 1 < |q.code|
      && q.code[end.code] == Compute(end.regs, Constant(Nil), [])
      && q.code[end.code + 1] == ReturnValue(end.regs)
  {
    hide StmtsCode, StmtsFunctions, StmtsEnd, TableAt;
    var end := StmtsEnd(f.body, Inner(at));
    var last := [Compute(end.regs, Constant(Nil), []), ReturnValue(end.regs)];
    assert q.code[0..|q.code|] == q.code;
    CodeSplit(q, 0, StmtsCode(f.body, Inner(at), NoLoop), last);
    InstrAt(q, end.code, last, 0);
    InstrAt(q, end.code, last, 1);
  }

  lemma ReturnsNil(rt: Runtime, q: Program, r: Register, m: State)
    requires m.Running? && m.pc + 1 < |q.code|
    requires q.code[m.pc] == Compute(r, Constant(Nil), []) && q.code[m.pc + 1] == ReturnValue(r)
    ensures Runs(rt, q, m, 2, State.Returned(Nil, m.world))
  {
    hide Runs, Apply;
    ApplyConstant(rt, Nil, m.world);
    DoCompute(rt, q, m, r, Constant(Nil), [], []);
    var m1 := m.(pc := m.pc + 1, regs := m.regs[r := Nil]);
    DoReturn(rt, q, m1, r);
    RunsThen(rt, q, m, 1, m1, 1, State.Returned(Nil, m.world));
  }

  lemma BodyEnds(r: Outcome, q: Program, m: State, m1: State, n: nat, fuel: nat, at: Place, end: nat)
    requires m.Running? && StmtLands(r, q, m, m1, n, fuel, at, end, NoLoop)
    ensures Finishes(r) || r.OutOfFuel? || r.NoArm?
    ensures r.Normal? ==> m1.Running? && m1.pc == end && m1.world == r.world
    ensures r.Returned? || r.Faulted? ==> Ends(q, CallResult(r), m1) && Halted(q, m1)
    ensures r.OutOfFuel? ==> n >= fuel && !Halted(q, m1)
  {
    hide Agree, KeepsHidden;
  }

  lemma NormalCall(q: Program, r: Outcome)
    requires r.Normal?
    ensures Ends(q, CallResult(r), State.Returned(Nil, r.world)) && Halted(q, State.Returned(Nil, r.world))
  {
  }

  /** The stream in the function table runs the function's body: it returns what the body
      returns, or nil when the body runs off its end. */
  lemma FunctionPreserved(rt: Runtime, p: Program, f: FunctionDef, at: Place, w: World, fuel: nat) returns (n: nat)
    requires StmtsOk(f.body, false) && TableAt(p, at.fns, FunctionTable(f, at))
    ensures StmtsEnd(f.body, Inner(at)).fns < |p.functions|
    ensures
      var stream := p.functions[StmtsEnd(f.body, Inner(at)).fns];
      var q, r := p.(code := stream.code), ExecAll(rt, f.body, w, fuel);
      && stream.functionLabel == f.functionLabel
      && (Finishes(r) ==>
           Halted(q, Steps(rt, q, Initial(w), n)) && Ends(q, CallResult(r), Steps(rt, q, Initial(w), n)))
      && (r.OutOfFuel? ==> !Halted(q, Steps(rt, q, Initial(w), fuel)))
      && (Finishes(r) || r.OutOfFuel? || r.NoArm?)
  {
    hide *;
    FunctionStream(p, f, at);
    var start, end := Inner(at), StmtsEnd(f.body, Inner(at));
    var q, r := p.(code := p.functions[end.fns].code), ExecAll(rt, f.body, w, fuel);
    SameTable(p, q, at.fns, StmtsFunctions(f.body, start));
    BodyPlaced(q, f, at);
    InitialState(w);
    InnerStarts(at);
    NoLoopFacts();
    var m';
    n, m' := SimStmts(rt, q, f.body, start, NoLoop, Initial(w), fuel);
    BodyEnds(r, q, Initial(w), m', n, fuel, start, end.code);
    RunsMeans(rt, q, Initial(w), n, m');
    if r.Normal? {
      ReturnsNil(rt, q, end.regs, m');
      RunsThen(rt, q, Initial(w), n, m', 2, State.Returned(Nil, r.world));
      RunsMeans(rt, q, Initial(w), n + 2, State.Returned(Nil, r.world));
      NormalCall(q, r);
      n := n + 2;
    }
    if r.OutOfFuel? {
      NotYet(rt, q, Initial(w), fuel, n);
    }
    OutcomeKinds(r);
  }

  lemma OutcomeKinds(r: Outcome)
    ensures Finishes(r) <==> r.Normal? || r.Returned? || r.Faulted?
  {
  }

  lemma InnerStarts(at: Place)
    ensures Inner(at).code == 0 && Inner(at).fns == at.fns
  {
  }

  lemma SameTable(p: Program, q: Program, index: nat, fs: seq<FunctionBody>)
    requires p.functions == q.functions && TableAt(p, index, fs)
    ensures TableAt(q, index, fs)
  {
  }
}
