/** Programs of several modules: lowering puts the body of every module where it is first
    imported, which is proved to run like loading each module once at run time.
 */
module ModuleLowering {
  import opened Wrappers
  import opened Runtime
  import opened Ast
  import opened Semantics
  import opened IR
  import opened Lowering
  import opened FunctionTables
  import opened BackPatching
  import opened LoweringCorrectness
  import opened Coverage
  import opened Drafts
  import opened CompilerSteps
  import opened StatementSteps
  import opened IRBuilder
  import opened IRCompiler

  /** Statements outside functions and blocks. */
  datatype Top =
    | ModuleBlock(id: nat, isEntry: bool, sourceBacked: bool, body: List<Top>)
    | ImportOf(id: nat, reExports: bool)
    | Declaration  // types and exported names: no code
    | Methods(methods: List<Method>)
    | Plain(statement: Stmt)

  datatype Method = Method(resolvedName: string, def: FunctionDef)

  type Modules = map<nat, Top>

  /** Modules are listed under their ids. */
  predicate Listed(modules: Modules) {
    forall id :: id in modules ==> modules[id].ModuleBlock? && modules[id].id == id
  }

  const NOTHING := Block(Empty)

  /** Methods are lowered as functions are: the name holds nil until the function is made. */
  function MethodStatements(methods: List<Method>): List<Stmt> {
    match methods
    case Empty => Empty
    case Cons(m, rest) => Cons(Function(m.resolvedName, m.def), MethodStatements(rest))
  }

  // --------------------------------------------------------------------- inlining

  /** The statement that is lowered in place of this one, and the modules put in place so far;
      nothing for an unknown module or one without its source. */
  function Inline(s: Top, modules: Modules, placed: set<nat>): (r: Option<(Stmt, set<nat>)>)
    requires Listed(modules)
    ensures r.Some? ==> placed <= r.value.1
    decreases modules.Keys - placed, s, 1
  {
    match s
    case ModuleBlock(_, isEntry, _, _) => if isEntry then InlineModule(s, modules, placed) else Some((NOTHING, placed))
    case ImportOf(id, _) =>
      if id !in modules || !modules[id].sourceBacked then None
      else if id in placed then Some((NOTHING, placed))
      else
        assert id in modules.Keys - placed && id !in modules.Keys - (placed + {id});
        var (body, more) :- InlineAll(modules[id].body, modules, placed + {id});
        Some((Block(body), more))
    case Declaration => Some((NOTHING, placed))
    case Methods(methods) => Some((Block(MethodStatements(methods)), placed))
    case Plain(statement) => Some((statement, placed))
  }

  function InlineModule(m: Top, modules: Modules, placed: set<nat>): (r: Option<(Stmt, set<nat>)>)
    requires Listed(modules) && m.ModuleBlock?
    ensures r.Some? ==> placed <= r.value.1
    decreases modules.Keys - placed, m, 0
  {
    if !m.sourceBacked then None
    else if m.id in placed then Some((NOTHING, placed))
    else
      var (body, more) :- InlineAll(m.body, modules, placed + {m.id});
      Some((Block(body), more))
  }

  function InlineAll(ss: List<Top>, modules: Modules, placed: set<nat>): (r: Option<(List<Stmt>, set<nat>)>)
    requires Listed(modules)
    ensures r.Some? ==> placed <= r.value.1
    decreases modules.Keys - placed, ss, 0
  {
    match ss
    case Empty => Some((Empty, placed))
    case Cons(s, rest) =>
      var (first, more) :- Inline(s, modules, placed);
      var (others, all) :- InlineAll(rest, modules, more);
      Some((Cons(first, others), all))
  }

  // --------------------------------------------------------------- loading at run time

  /** The meaning of a program of modules: every module runs once, where it is first imported. */
  function Run(rt: Runtime, s: Top, modules: Modules, loaded: set<nat>, w: World, fuel: nat): (r: (Outcome, set<nat>))
    requires Listed(modules)
    ensures loaded <= r.1
    decreases modules.Keys - loaded, s, 1
  {
    match s
    case ModuleBlock(id, isEntry, _, body) =>
      if !isEntry || id in loaded then (Normal(w), loaded) else RunAll(rt, body, modules, loaded + {id}, w, fuel)
    case ImportOf(id, _) =>
      if id !in modules || id in loaded then (Normal(w), loaded)
      else
        assert id in modules.Keys - loaded && id !in modules.Keys - (loaded + {id});
        RunAll(rt, modules[id].body, modules, loaded + {id}, w, fuel)
    case Declaration => (Normal(w), loaded)
    case Methods(methods) => (RunMethods(rt, methods, w, fuel), loaded)
    case Plain(statement) => (Exec(rt, statement, w, fuel), loaded)
  }

  function RunAll(
      rt: Runtime, ss: List<Top>, modules: Modules, loaded: set<nat>, w: World, fuel: nat): (r: (Outcome, set<nat>))
    requires Listed(modules)
    ensures loaded <= r.1
    decreases modules.Keys - loaded, ss, 0
  {
    match ss
    case Empty => (Normal(w), loaded)
    case Cons(s, rest) =>
      var first := Run(rt, s, modules, loaded, w, fuel);
      if first.0.Normal? then RunAll(rt, rest, modules, first.1, first.0.world, fuel) else first
  }

  /** Methods are made in order, like functions. */
  function RunMethods(rt: Runtime, methods: List<Method>, w: World, fuel: nat): Outcome {
    match methods
    case Empty => Normal(w)
    case Cons(m, rest) =>
      match Exec(rt, Function(m.resolvedName, m.def), w, fuel)
      case Normal(w1) => RunMethods(rt, rest, w1, fuel)
      case r => r
  }

  lemma {:induction false} MethodsRun(rt: Runtime, methods: List<Method>, w: World, fuel: nat)
    ensures ExecAll(rt, MethodStatements(methods), w, fuel) == RunMethods(rt, methods, w, fuel)
    decreases methods
  {
    if methods.Cons? {
      var first := Exec(rt, Function(methods.head.resolvedName, methods.head.def), w, fuel);
      if first.Normal? {
        MethodsRun(rt, methods.tail, first.world, fuel);
      }
    }
  }

  lemma {:induction false} InlineRuns(rt: Runtime, s: Top, modules: Modules, placed: set<nat>, w: World, fuel: nat)
    requires Listed(modules) && Inline(s, modules, placed).Some?
    ensures
      var r, inlined := Run(rt, s, modules, placed, w, fuel), Inline(s, modules, placed).value;
      Exec(rt, inlined.0, w, fuel) == r.0 && (r.0.Normal? ==> r.1 == inlined.1)
    decreases modules.Keys - placed, s, 1
  {
    match s
    case ModuleBlock(id, isEntry, _, body) =>
      if isEntry && id !in placed {
        InlineAllRuns(rt, body, modules, placed + {id}, w, fuel);
      }
    case ImportOf(id, _) =>
      if id !in placed {
        assert id in modules.Keys - placed && id !in modules.Keys - (placed + {id});
        InlineAllRuns(rt, modules[id].body, modules, placed + {id}, w, fuel);
      }
    case Declaration =>
    case Methods(methods) => MethodsRun(rt, methods, w, fuel);
    case Plain(_) =>
  }

  lemma {:induction false} InlineAllRuns(
    rt: Runtime, ss: List<Top>, modules: Modules, placed: set<nat>, w: World, fuel: nat
  )
    requires Listed(modules) && InlineAll(ss, modules, placed).Some?
    ensures
      var r, inlined := RunAll(rt, ss, modules, placed, w, fuel), InlineAll(ss, modules, placed).value;
      ExecAll(rt, inlined.0, w, fuel) == r.0 && (r.0.Normal? ==> r.1 == inlined.1)
    decreases modules.Keys - placed, ss, 0
  {
    if ss.Cons? {
      var first := Run(rt, ss.head, modules, placed, w, fuel);
      InlineRuns(rt, ss.head, modules, placed, w, fuel);
      if first.0.Normal? {
        InlineAllRuns(rt, ss.tail, modules, first.1, first.0.world, fuel);
      }
    }
  }

  // ---------------------------------------------------------------- whole programs

  /** The modules of a program by their ids; of two with one id the first counts. */
  function ModulesOf(program: List<Top>): (r: Modules)
    ensures Listed(r)
  {
    match program
    case Empty => map[]
    case Cons(s, rest) => if s.ModuleBlock? then ModulesOf(rest)[s.id := s] else ModulesOf(rest)
  }

  /** The program with every module in place; none when a module is unknown or without its source. */
  function Inlined(program: List<Top>): Option<List<Stmt>> {
    var (statements, _) :- InlineAll(program, ModulesOf(program), {});
    Some(statements)
  }

  function RunProgram(rt: Runtime, program: List<Top>, w: World, fuel: nat): Outcome {
    RunAll(rt, program, ModulesOf(program), {}, w, fuel).0
  }

  lemma InlinedRuns(rt: Runtime, program: List<Top>, w: World, fuel: nat)
    requires Inlined(program).Some?
    ensures ExecAll(rt, Inlined(program).value, w, fuel) == RunProgram(rt, program, w, fuel)
  {
    hide InlineAll, RunAll, ExecAll, ModulesOf;
    InlineAllRuns(rt, program, ModulesOf(program), {}, w, fuel);
  }

  /** Lowering a program of modules preserves its meaning. */
  lemma ModularPreserved(rt: Runtime, program: List<Top>, w: World, fuel: nat) returns (n: nat)
    requires Inlined(program).Some? && StmtsOk(Inlined(program).value, false)
    ensures
      var p, r := Lower(Inlined(program).value), RunProgram(rt, program, w, fuel);
      && (Finishes(r) ==> Halted(p, Steps(rt, p, Initial(w), n)) && Ends(p, r, Steps(rt, p, Initial(w), n)))
      && (r.OutOfFuel? ==> !Halted(p, Steps(rt, p, Initial(w), fuel)))
      && (Finishes(r) || r.OutOfFuel? || r.NoArm?)
  {
    hide *;
    InlinedRuns(rt, program, w, fuel);
    n := ProgramPreserved(rt, Inlined(program).value, w, fuel);
  }

  lemma ModularReflected(rt: Runtime, program: List<Top>, w: World, n: nat)
    requires Inlined(program).Some? && StmtsOk(Inlined(program).value, false)
    requires var p := Lower(Inlined(program).value); Halted(p, Steps(rt, p, Initial(w), n))
    requires !RunProgram(rt, program, w, n).NoArm?
    ensures
      var p := Lower(Inlined(program).value);
      Ends(p, RunProgram(rt, program, w, n), Steps(rt, p, Initial(w), n))
  {
    hide *;
    InlinedRuns(rt, program, w, n);
    ProgramReflected(rt, Inlined(program).value, w, n);
  }

  lemma ModularTermination(rt: Runtime, program: List<Top>, w: World)
    requires Inlined(program).Some? && StmtsOk(Inlined(program).value, false)
    requires forall fuel :: !RunProgram(rt, program, w, fuel).NoArm?
    ensures
      var p := Lower(Inlined(program).value);
      (exists n :: Halted(p, Steps(rt, p, Initial(w), n)))
      <==> (exists fuel :: Finishes(RunProgram(rt, program, w, fuel)))
  {
    hide *;
    var p := Lower(Inlined(program).value);
    if n :| Halted(p, Steps(rt, p, Initial(w), n)) {
      ModularReflected(rt, program, w, n);
      EndsFinishes(p, RunProgram(rt, program, w, n), Steps(rt, p, Initial(w), n));
    }
    if fuel :| Finishes(RunProgram(rt, program, w, fuel)) {
      var n := ModularPreserved(rt, program, w, fuel);
    }
  }

  /** Covered modules: the machine halts exactly when some fuel suffices, and it ends as the program does. */
  lemma CoveredModules(rt: Runtime, program: List<Top>, w: World)
    requires Inlined(program).Some? && StmtsOk(Inlined(program).value, false) && CoveredStmts(Inlined(program).value)
    ensures
      var p := Lower(Inlined(program).value);
      forall n {:trigger Steps(rt, p, Initial(w), n)} :: Halted(p, Steps(rt, p, Initial(w), n)) ==>
        Ends(p, RunProgram(rt, program, w, n), Steps(rt, p, Initial(w), n))
    ensures
      var p := Lower(Inlined(program).value);
      (exists n :: Halted(p, Steps(rt, p, Initial(w), n)))
      <==> (exists fuel :: Finishes(RunProgram(rt, program, w, fuel)))
  {
    hide *;
    var p := Lower(Inlined(program).value);
    forall fuel: nat ensures !RunProgram(rt, program, w, fuel).NoArm? {
      InlinedRuns(rt, program, w, fuel);
      CoveredExecAll(rt, Inlined(program).value, w, fuel);
    }
    forall n: nat | Halted(p, Steps(rt, p, Initial(w), n))
      ensures Ends(p, RunProgram(rt, program, w, n), Steps(rt, p, Initial(w), n))
    {
      ModularReflected(rt, program, w, n);
    }
    ModularTermination(rt, program, w);
  }

  // -------------------------------------------------------------------- the compiler

  lemma NothingBuilt(d: Draft)
    ensures StmtBuilt(d, d, NOTHING) && StmtOk(NOTHING, false)
  {
    hide StmtBuilt, StmtsBuilt;
    StmtsStart(d, Empty);
    StmtsDone(d, d, Empty, [], [], []);
    BlockBuilt(NOTHING, d, d);
  }

  lemma LoopsKept(d: Draft, d1: Draft, s: Stmt)
    requires StmtBuilt(d, d1, s) && d.loops == []
    ensures d1.loops == []
  {
    hide StmtBuilt;
    StmtPlace(d, d1, s);
  }

  lemma OkBlock(body: List<Stmt>)
    ensures StmtOk(Block(body), false) == StmtsOk(body, false)
  {
  }

  /** What is left to lower of a list of statements. */
  ghost predicate TopsLeft(
    d: Draft, d1: Draft, ss: List<Top>, rest: List<Top>, modules: Modules, before: set<nat>, placed: set<nat>,
    done: seq<Instr>, fs: seq<FunctionBody>, breaks: seq<nat>
  )
    requires Listed(modules)
  {
    var whole, left := InlineAll(ss, modules, before), InlineAll(rest, modules, placed);
    && d1.loops == [] && before <= placed && whole.Some? == left.Some?
    && (whole.Some? ==>
          whole.value.1 == left.value.1 && StmtsLeft(d, d1, whole.value.0, left.value.0, done, fs, breaks))
  }

  lemma TopsStart(d: Draft, ss: List<Top>, modules: Modules, before: set<nat>)
    requires Listed(modules) && d.loops == []
    ensures TopsLeft(d, d, ss, ss, modules, before, before, [], [], [])
  {
    hide InlineAll, StmtsLeft;
    var whole := InlineAll(ss, modules, before);
    if whole.Some? {
      StmtsStart(d, whole.value.0);
    }
  }

  lemma ListedAt(modules: Modules, id: nat)
    requires Listed(modules)
    ensures id in modules ==> modules[id].ModuleBlock? && modules[id].id == id
  {
  }

  lemma InlineAllStep(ss: List<Top>, modules: Modules, placed: set<nat>)
    requires Listed(modules) && ss.Cons?
    ensures
      var first := Inline(ss.head, modules, placed);
      InlineAll(ss, modules, placed)
      == if first.None? || InlineAll(ss.tail, modules, first.value.1).None? then None
         else
           var others := InlineAll(ss.tail, modules, first.value.1).value;
           Some((Cons(first.value.0, others.0), others.1))
  {
    hide Inline;
  }

  lemma TopsNext(
    d: Draft, d1: Draft, d2: Draft, ss: List<Top>, rest: List<Top>, modules: Modules, before: set<nat>,
    placed: set<nat>, done: seq<Instr>, fs: seq<FunctionBody>, breaks: seq<nat>, ok: bool
  ) returns (done': seq<Instr>, fs': seq<FunctionBody>, breaks': seq<nat>)
    requires Listed(modules) && d.loops == [] && rest.Cons?
    requires TopsLeft(d, d1, ss, rest, modules, before, placed, done, fs, breaks)
    requires
      var inlined := Inline(rest.head, modules, placed);
      ok == (inlined.Some? && StmtOk(inlined.value.0, false)) && (ok ==> StmtBuilt(d1, d2, inlined.value.0))
    ensures
      ok ==>
        TopsLeft(
          d, d2, ss, rest.tail, modules, before, Inline(rest.head, modules, placed).value.1, done', fs', breaks')
    ensures
      var whole := InlineAll(ss, modules, before);
      !ok ==> !(whole.Some? && StmtsOk(whole.value.0, false))
  {
    hide InlineAll, Inline, StmtsLeft, StmtOk, StmtsOk, StmtBuilt, StmtCode, StmtFunctions, Breaks, DraftTargets;
    hide Listed;
    var first, whole := Inline(rest.head, modules, placed), InlineAll(ss, modules, before);
    done', fs', breaks' := done, fs, breaks;
    InlineAllStep(rest, modules, placed);
    if ok {
      LoopsKept(d1, d2, first.value.0);
    }
    if whole.Some? {
      var left, here := InlineAll(rest, modules, placed).value.0, Here(d1);
      StmtsLeftOk(d, d1, whole.value.0, left, done, fs, breaks);
      if ok {
        StmtsNext(d, d1, d2, whole.value.0, left, done, fs, breaks);
        done', fs' := done + StmtCode(left.head, here, DraftTargets(d.loops)), fs + StmtFunctions(left.head, here);
        breaks' := breaks + Breaks(left.head, here);
      }
    }
  }

  lemma TopsDone(
    d: Draft, d1: Draft, ss: List<Top>, modules: Modules, before: set<nat>, placed: set<nat>, done: seq<Instr>,
    fs: seq<FunctionBody>, breaks: seq<nat>
  )
    requires Listed(modules) && d.loops == []
    requires TopsLeft(d, d1, ss, Empty, modules, before, placed, done, fs, breaks)
    ensures
      var whole := InlineAll(ss, modules, before);
      whole.Some? && whole.value.1 == placed && StmtsBuilt(d, d1, whole.value.0) && StmtsOk(whole.value.0, false)
  {
    hide StmtsLeft, StmtsBuilt, StmtsOk, Listed;
    StmtsDone(d, d1, InlineAll(ss, modules, before).value.0, done, fs, breaks);
  }

  class ModuleCompiler {
    const compiler: IRCompiler
    const modules: Modules
    var compiledModules: set<nat>

    constructor (program: List<Top>)
      ensures fresh(compiler) && fresh(compiler.program) && modules == ModulesOf(program) && compiledModules == {}
      ensures compiler.State() == Draft(Build([], FunctionBody("", [], [], 0), []), [], 0)
    {
      compiler := new IRCompiler();
      modules, compiledModules := ModulesOf(program), {};
    }

    lemma StateLoops()
      ensures compiler.State().loops == compiler.loopContexts
    {
    }

    /** The whole program; fails exactly when a module cannot be placed or lowering refuses a statement. */
    method Compile(program: List<Top>) returns (ok: bool, ir: Program)
      requires modules == ModulesOf(program) && compiledModules == {}
      requires compiler.State() == Draft(Build([], FunctionBody("", [], [], 0), []), [], 0)
      modifies this, compiler, compiler.program
      ensures ok == (Inlined(program).Some? && StmtsOk(Inlined(program).value, false))
      ensures ok ==> ir == Lower(Inlined(program).value)
    {
      hide StmtsOk, StmtsBuilt, IRProgram.State, Lower, InlineAll, ModulesOf, Listed;
      ghost var d := compiler.State();
      ir := Program([], []);
      ok := CompileTops(program);
      if ok {
        ProgramBuilt(d, compiler.State(), Inlined(program).value);
        var code := compiler.program.ActiveCode();
        ir := Program(code, compiler.program.functions);
        compiler.program.FunctionsAre();
      }
    }

    method CompileTop(s: Top) returns (ok: bool)
      requires Listed(modules) && compiler.loopContexts == []
      modifies this, compiler, compiler.program
      ensures
        var inlined := Inline(s, modules, old(compiledModules));
        && ok == (inlined.Some? && StmtOk(inlined.value.0, false))
        && (ok ==> StmtBuilt(old(compiler.State()), compiler.State(), inlined.value.0))
        && (ok ==> compiledModules == inlined.value.1 && compiler.loopContexts == [])
      decreases modules.Keys - compiledModules, s, 1
    {
      hide StmtOk, StmtsOk, StmtBuilt, StmtsBuilt, InlineAll, IRCompiler.State, Listed;
      ghost var d := compiler.State();
      StateLoops();
      NothingBuilt(d);
      match s {
      case ModuleBlock(_, isEntry, _, _) =>
        ok := true;
        if isEntry {
          ok := CompileModule(s);
        }
      case ImportOf(id, _) =>
        ListedAt(modules, id);
        if id !in modules || !modules[id].sourceBacked {
          return false;
        }
        ok := true;
        if id !in compiledModules {
          assert id in modules.Keys - compiledModules && id !in modules.Keys - (compiledModules + {id});
          ok := CompileModule(modules[id]);
        }
      case Declaration => ok := true;
      case Methods(methods) =>
        ok := compiler.CompileStatements(MethodStatements(methods));
        OkBlock(MethodStatements(methods));
        if ok {
          BlockBuilt(Block(MethodStatements(methods)), d, compiler.State());
        }
      case Plain(statement) => ok := compiler.CompileStatement(statement);
      }
      if ok {
        LoopsKept(d, compiler.State(), Inline(s, modules, old(compiledModules)).value.0);
        StateLoops();
      }
    }

    method CompileModule(m: Top) returns (ok: bool)
      requires Listed(modules) && compiler.loopContexts == [] && m.ModuleBlock?
      modifies this, compiler, compiler.program
      ensures
        var inlined := InlineModule(m, modules, old(compiledModules));
        && ok == (inlined.Some? && StmtOk(inlined.value.0, false))
        && (ok ==> StmtBuilt(old(compiler.State()), compiler.State(), inlined.value.0))
        && (ok ==> compiledModules == inlined.value.1)
      decreases modules.Keys - (compiledModules + {m.id}), m, 0
    {
      hide StmtOk, StmtsOk, StmtBuilt, StmtsBuilt, InlineAll, IRCompiler.State, Listed;
      ghost var d := compiler.State();
      if !m.sourceBacked {
        return false;
      }
      if m.id in compiledModules {
        NothingBuilt(d);
        return true;
      }
      compiledModules := compiledModules + {m.id};
      ok := CompileTops(m.body);
      ghost var inlined := InlineAll(m.body, modules, old(compiledModules) + {m.id});
      if inlined.Some? {
        OkBlock(inlined.value.0);
        if ok {
          BlockBuilt(Block(inlined.value.0), d, compiler.State());
        }
      }
    }

    method CompileTops(ss: List<Top>) returns (ok: bool)
      requires Listed(modules) && compiler.loopContexts == []
      modifies this, compiler, compiler.program
      ensures
        var inlined := InlineAll(ss, modules, old(compiledModules));
        && ok == (inlined.Some? && StmtsOk(inlined.value.0, false))
        && (ok ==> StmtsBuilt(old(compiler.State()), compiler.State(), inlined.value.0))
        && (ok ==> compiledModules == inlined.value.1)
      decreases modules.Keys - compiledModules, ss, 0
    {
      hide StmtOk, StmtsOk, StmtBuilt, StmtsBuilt, Inline, InlineAll, IRCompiler.State, TopsLeft, Listed;
      ghost var d, before := compiler.State(), compiledModules;
      StateLoops();
      var rest := ss;
      ghost var done: seq<Instr>, fs: seq<FunctionBody>, breaks: seq<nat> := [], [], [];
      TopsStart(d, ss, modules, before);
      while rest.Cons?
        invariant TopsLeft(d, compiler.State(), ss, rest, modules, before, compiledModules, done, fs, breaks)
        invariant compiler.loopContexts == [] && before <= compiledModules && (rest == ss || rest < ss)
        decreases rest
      {
        ghost var d1, placed := compiler.State(), compiledModules;
        ok := CompileTop(rest.head);
        done, fs, breaks := TopsNext(d, d1, compiler.State(), ss, rest, modules, before, placed, done, fs, breaks, ok);
        if !ok {
          return;
        }
        rest := rest.tail;
      }
      ok := true;
      TopsDone(d, compiler.State(), ss, modules, before, compiledModules, done, fs, breaks);
    }
  }
}
