/** Calls that run the callee's stream: a machine with a stack of activations.

    The theorems about single streams leave the meaning of a call open.  Here a call of a function of
    the program suspends the caller and runs the stream of the callee, to any depth.  A runtime is
    built from the runs of this machine for which a call means what the source says: it runs the body
    of the function, whose own calls mean the same.  Functions see the global variables and their own.
 */
module CallStacks {
  import opened Wrappers
  import opened Runtime
  import opened Ast
  import opened Semantics
  import opened IR
  import opened Lowering
  import opened FunctionTables
  import opened Placement
  import opened LoweringCorrectness
  import opened FunctionOrigins
  import opened Coverage

  /** The operations other than calls of functions of the program, the function that a value refers to,
      and which variables are global. */
  datatype Env = Env(base: Runtime, target: (Heap, Value) -> Option<nat>, isGlobal: string -> bool)

  /** The function with this number has as many parameters as there are arguments after the callee. */
  predicate Takes(p: Program, i: nat, args: seq<Value>) {
    i < |p.functions| && |p.functions[i].parameters| + 1 == |args|
  }

  /** The function of the program that is called, if the arguments fit. */
  function Callee(env: Env, p: Program, prim: Prim, args: seq<Value>, w: World): (r: Option<nat>)
    ensures r.Some? ==> prim == Call && Takes(p, r.value, args)
  {
    if !prim.Call? || args == [] then None
    else
      match env.target(w.heap, args[0])
      case None => None
      case Some(i) => if Takes(p, i, args) then Some(i) else None
  }

  function BindParameters(vars: map<string, Value>, parameters: seq<string>, args: seq<Value>): map<string, Value>
    requires |parameters| == |args|
    decreases |parameters|
  {
    if parameters == [] then vars else BindParameters(vars[parameters[0] := args[0]], parameters[1..], args[1..])
  }

  function Globals(env: Env, vars: map<string, Value>): map<string, Value> {
    map x | x in vars && env.isGlobal(x) :: vars[x]
  }

  function Locals(env: Env, vars: map<string, Value>): map<string, Value> {
    map x | x in vars && !env.isGlobal(x) :: vars[x]
  }

  /** What the callee sees: the global variables and its arguments. */
  function CalleeWorld(env: Env, parameters: seq<string>, args: seq<Value>, w: World): World
    requires |parameters| == |args|
  {
    w.(vars := BindParameters(Globals(env, w.vars), parameters, args))
  }

  /** Back in the caller: its own variables as they were, the global ones as the callee left them. */
  function Resumed(env: Env, before: map<string, Value>, after: World): World {
    after.(vars := Globals(env, after.vars) + Locals(env, before))
  }

  /** `x` is the parameter at `k`, the last of its name. */
  predicate ParameterAt(parameters: seq<string>, x: string, k: nat) {
    k < |parameters| && parameters[k] == x && forall j :: k < j < |parameters| ==> parameters[j] != x
  }

  lemma {:induction false} ParametersBound(vars: map<string, Value>, parameters: seq<string>, args: seq<Value>, x: string)
    requires |parameters| == |args|
    ensures
      var after := BindParameters(vars, parameters, args);
      && (forall k: nat :: ParameterAt(parameters, x, k) ==> x in after && after[x] == args[k])
      && (x !in parameters ==> (x in after <==> x in vars) && (x in after ==> after[x] == vars[x]))
    decreases |parameters|
  {
    if parameters != [] {
      ParametersBound(vars[parameters[0] := args[0]], parameters[1..], args[1..], x);
      forall k: nat | ParameterAt(parameters, x, k)
        ensures
          var after := BindParameters(vars, parameters, args);
          x in after && after[x] == args[k]
      {
        if k > 0 {
          assert ParameterAt(parameters[1..], x, k - 1);
        } else {
          assert x !in parameters[1..];
        }
      }
    }
  }

  /** What a callee sees: each parameter holds the argument at its place, the last one of a name winning;
      every other global variable is as it was; the other variables of the caller are out of sight. */
  lemma CalleeSees(env: Env, parameters: seq<string>, args: seq<Value>, w: World, x: string)
    requires |parameters| == |args|
    ensures
      var inside := CalleeWorld(env, parameters, args, w);
      && (forall k: nat :: ParameterAt(parameters, x, k) ==> x in inside.vars && inside.vars[x] == args[k])
      && (x !in parameters ==>
           && (x in inside.vars <==> x in w.vars && env.isGlobal(x))
           && (x in inside.vars ==> inside.vars[x] == w.vars[x]))
      && inside.heap == w.heap && inside.output == w.output
  {
    ParametersBound(Globals(env, w.vars), parameters, args, x);
  }

  /** What a caller sees after a call: the global variables, the heap and the output as the callee left
      them, its own variables as they were. */
  lemma CallerSees(env: Env, before: map<string, Value>, after: World, x: string)
    ensures
      var back := Resumed(env, before, after);
      && (x in back.vars <==> if env.isGlobal(x) then x in after.vars else x in before)
      && (x in back.vars ==> back.vars[x] == if env.isGlobal(x) then after.vars[x] else before[x])
      && back.heap == after.heap && back.output == after.output
  {
  }

  // ------------------------------------------------------------------------ the machine

  datatype Caller = Caller(
    code: seq<Instr>, pc: nat, regs: map<Register, Value>, hidden: map<VarName, Value>, vars: map<string, Value>,
    dest: Register)

  /** The activation that runs, and the suspended ones, the latest first. */
  datatype Stack = Stack(code: seq<Instr>, top: State, callers: seq<Caller>)

  predicate TopHalted(s: Stack) {
    s.top.Running? ==> s.top.pc >= |s.code|
  }

  predicate Final(s: Stack) {
    TopHalted(s) && s.callers == []
  }

  function Back(env: Env, caller: Caller, v: Value, w: World): State {
    Running(caller.pc + 1, caller.regs[caller.dest := v], caller.hidden, Resumed(env, caller.vars, w))
  }

  /** The callee's end seen by its caller; running off the end of a stream gives nil. */
  function Resume(env: Env, caller: Caller, ended: State): State {
    match ended
    case Running(_, _, _, w) => Back(env, caller, Nil, w)
    case Returned(v, w) => Back(env, caller, v, w)
    case Trapped(message, w) => Trapped(message, Resumed(env, caller.vars, w))
    case Stuck => Stuck
  }

  /** The call that the instruction makes, if it makes one. */
  function CallAt(env: Env, p: Program, s: Stack): (r: Option<(nat, seq<Value>)>)
    requires s.top.Running? && s.top.pc < |s.code|
    ensures r.Some? ==> s.code[s.top.pc].Compute? && Takes(p, r.value.0, r.value.1)
  {
    match s.code[s.top.pc]
    case Compute(_, prim, arguments) =>
      if !ReadsReady(s.top.regs, arguments) then None
      else
        var args := ReadAll(s.top.regs, arguments);
        (match Callee(env, p, prim, args, s.top.world)
         case Some(i) => Some((i, args))
         case None => None)
    case _ => None
  }

  function Entered(env: Env, p: Program, i: nat, args: seq<Value>, w: World): Stack
    requires Takes(p, i, args)
  {
    Stack(p.functions[i].code, Initial(CalleeWorld(env, p.functions[i].parameters, args[1..], w)), [])
  }

  function Next(env: Env, p: Program, s: Stack): Stack {
    if TopHalted(s) then
      if s.callers == [] then s
      else Stack(s.callers[0].code, Resume(env, s.callers[0], s.top), s.callers[1..])
    else
      match CallAt(env, p, s)
      case None => s.(top := Step(env.base, p.(code := s.code), s.top))
      case Some((i, args)) =>
        var m := s.top;
        var caller := Caller(s.code, m.pc, m.regs, m.hidden, m.world.vars, s.code[m.pc].dest);
        Entered(env, p, i, args, m.world).(callers := [caller] + s.callers)
  }

  function Run(env: Env, p: Program, s: Stack, n: nat): Stack
    decreases n
  {
    if n == 0 then s else Run(env, p, Next(env, p, s), n - 1)
  }

  lemma {:induction false} RunAdd(env: Env, p: Program, s: Stack, a: nat, b: nat)
    ensures Run(env, p, s, a + b) == Run(env, p, Run(env, p, s, a), b)
    decreases a
  {
    hide Next;
    if a > 0 {
      RunAdd(env, p, Next(env, p, s), a - 1, b);
    }
  }

  lemma {:induction false} FinalStays(env: Env, p: Program, s: Stack, n: nat)
    requires Final(s)
    ensures Run(env, p, s, n) == s
    decreases n
  {
    if n > 0 {
      FinalStays(env, p, s, n - 1);
    }
  }

  /** Two final states of one run are the same. */
  lemma FinalOnce(env: Env, p: Program, s: Stack, a: nat, b: nat)
    requires Final(Run(env, p, s, a)) && Final(Run(env, p, s, b))
    ensures Run(env, p, s, a) == Run(env, p, s, b)
  {
    hide Next, Final;
    if a <= b {
      RunAdd(env, p, s, a, b - a);
      FinalStays(env, p, Run(env, p, s, a), b - a);
    } else {
      RunAdd(env, p, s, b, a - b);
      FinalStays(env, p, Run(env, p, s, b), a - b);
    }
  }

  // --------------------------------------------------------------- runs on top of a stack

  function Above(s: Stack, below: seq<Caller>): Stack {
    s.(callers := s.callers + below)
  }

  lemma NextAbove(env: Env, p: Program, s: Stack, below: seq<Caller>)
    requires !Final(s)
    ensures Next(env, p, Above(s, below)) == Above(Next(env, p, s), below)
  {
    hide Step, Callee, Resume, CalleeWorld;
    if TopHalted(s) {
      assert (s.callers + below)[1..] == s.callers[1..] + below;
    } else {
      var call := CallAt(env, p, s);
      assert CallAt(env, p, Above(s, below)) == call;
      if call.Some? {
        var m := s.top;
        var caller := Caller(s.code, m.pc, m.regs, m.hidden, m.world.vars, s.code[m.pc].dest);
        assert [caller] + (s.callers + below) == [caller] + s.callers + below;
      }
    }
  }

  /** Until it is final, a run does not notice what is suspended below it. */
  lemma {:induction false} RunAbove(env: Env, p: Program, s: Stack, below: seq<Caller>, n: nat)
    requires forall k: nat :: k < n ==> !Final(Run(env, p, s, k))
    ensures Run(env, p, Above(s, below), n) == Above(Run(env, p, s, n), below)
    decreases n
  {
    hide Next, Final, Above;
    if n > 0 {
      assert Run(env, p, s, 0) == s;
      NextAbove(env, p, s, below);
      forall k: nat | k < n - 1 ensures !Final(Run(env, p, Next(env, p, s), k)) {
        assert Run(env, p, s, k + 1) == Run(env, p, Next(env, p, s), k);
      }
      RunAbove(env, p, Next(env, p, s), below, n - 1);
    }
  }

  /** The first final state of a run. */
  lemma {:induction false} FirstFinal(env: Env, p: Program, s: Stack, n: nat) returns (k: nat)
    requires Final(Run(env, p, s, n))
    ensures k <= n && Final(Run(env, p, s, k)) && forall j: nat :: j < k ==> !Final(Run(env, p, s, j))
    decreases n
  {
    hide Next, Final;
    if Final(s) {
      k := 0;
      assert Run(env, p, s, 0) == s;
    } else {
      assert n > 0;
      k := FirstFinal(env, p, Next(env, p, s), n - 1);
      assert Run(env, p, s, k + 1) == Run(env, p, Next(env, p, s), k);
      forall j: nat | j < k + 1 ensures !Final(Run(env, p, s, j)) {
        if j > 0 {
          assert Run(env, p, s, j) == Run(env, p, Next(env, p, s), j - 1);
        } else {
          assert Run(env, p, s, 0) == s;
        }
      }
      k := k + 1;
    }
  }

  // --------------------------------------------------------------- what a call does, as a whole

  /** The message of a call that never ends; no run of the machine gives it. */
  const ENDLESS := "endless call"

  /** The run that starts at `s` ends, and not stuck. */
  ghost predicate Terminates(env: Env, p: Program, s: Stack) {
    exists n :: EndsAt(env, p, s, n)
  }

  predicate EndsAt(env: Env, p: Program, s: Stack, n: nat) {
    Final(Run(env, p, s, n)) && !Run(env, p, s, n).top.Stuck?
  }

  /** The effect on the caller of a callee that ended like this. */
  function EffectOf(env: Env, before: map<string, Value>, ended: State): Effect
    requires !ended.Stuck?
  {
    match ended
    case Running(_, _, _, w) => Effect.Done(Nil, Resumed(env, before, w))
    case Returned(v, w) => Effect.Done(v, Resumed(env, before, w))
    case Trapped(message, w) => Effect.Trap(message, Resumed(env, before, w))
  }

  /** The operation, with calls of functions of the program run to their end. */
  ghost function Primitive(env: Env, p: Program, prim: Prim, args: seq<Value>, w: World): Effect {
    match Callee(env, p, prim, args, w)
    case None => env.base.primitive(prim, args, w)
    case Some(i) =>
      var s := Entered(env, p, i, args, w);
      if Terminates(env, p, s) then
        var n :| EndsAt(env, p, s, n);
        EffectOf(env, w.vars, Run(env, p, s, n).top)
      else Effect.Trap(ENDLESS, w)
  }

  /** The runtime in which a call of a function of the program is one operation. */
  ghost function Calling(env: Env, p: Program): Runtime {
    env.base.(primitive := (prim, args, w) => Primitive(env, p, prim, args, w))
  }

  lemma CallEnds(env: Env, p: Program, args: seq<Value>, w: World, i: nat, n: nat)
    requires Callee(env, p, Call, args, w) == Some(i) && EndsAt(env, p, Entered(env, p, i, args, w), n)
    ensures
      Calling(env, p).primitive(Call, args, w)
      == EffectOf(env, w.vars, Run(env, p, Entered(env, p, i, args, w), n).top)
  {
    hide Callee, Entered, Run, Final;
    var s := Entered(env, p, i, args, w);
    assert Terminates(env, p, s);
    var k :| EndsAt(env, p, s, k)
      && Primitive(env, p, Call, args, w) == EffectOf(env, w.vars, Run(env, p, s, k).top);
    FinalOnce(env, p, s, n, k);
  }

  lemma CallEndless(env: Env, p: Program, args: seq<Value>, w: World, i: nat)
    requires Callee(env, p, Call, args, w) == Some(i) && !Terminates(env, p, Entered(env, p, i, args, w))
    ensures Calling(env, p).primitive(Call, args, w) == Effect.Trap(ENDLESS, w)
  {
    hide Callee, Entered, Terminates;
  }

  /** A step that calls no function of the program is the same in both runtimes. */
  lemma SameStep(env: Env, p: Program, s: Stack)
    requires !TopHalted(s) && CallAt(env, p, s).None?
    ensures Step(Calling(env, p), p.(code := s.code), s.top) == Step(env.base, p.(code := s.code), s.top)
  {
    hide Callee;
    match s.code[s.top.pc]
    case Compute(dest, prim, arguments) =>
      if ReadsReady(s.top.regs, arguments) {
        SameApply(env, p, prim, ReadAll(s.top.regs, arguments), s.top.world);
      }
    case MakeFunction(dest, i) =>
      if i < |p.functions| {
        var f := p.functions[i];
        NoCallee(env, p, MakeClosure(f.functionLabel, f.parameters), [], s.top.world);
        SameApply(env, p, MakeClosure(f.functionLabel, f.parameters), [], s.top.world);
      }
    case _ =>
  }

  lemma NoCallee(env: Env, p: Program, prim: Prim, args: seq<Value>, w: World)
    requires !prim.Call?
    ensures Callee(env, p, prim, args, w) == None
  {
  }

  lemma SameApply(env: Env, p: Program, prim: Prim, args: seq<Value>, w: World)
    requires Callee(env, p, prim, args, w) == None
    ensures Apply(Calling(env, p), prim, args, w) == Apply(env.base, prim, args, w)
  {
    hide Callee, Entered, Terminates, EndsAt;
  }

  /** A step that calls one is the call's effect. */
  lemma CallStep(env: Env, p: Program, s: Stack)
    requires !TopHalted(s) && CallAt(env, p, s).Some?
    ensures
      var (i, args) := CallAt(env, p, s).value;
      && Callee(env, p, Call, args, s.top.world) == Some(i)
      && Step(Calling(env, p), p.(code := s.code), s.top)
         == Finish(s.top, s.code[s.top.pc].dest, Calling(env, p).primitive(Call, args, s.top.world))
  {
    hide Entered, Terminates, EndsAt, Primitive, Calling;
    var arguments := s.code[s.top.pc].arguments;
    var args := ReadAll(s.top.regs, arguments);
    assert Callee(env, p, s.code[s.top.pc].prim, args, s.top.world).Some?;
  }

  function CallerOf(s: Stack): Caller
    requires s.top.Running? && s.top.pc < |s.code| && s.code[s.top.pc].Compute?
  {
    Caller(s.code, s.top.pc, s.top.regs, s.top.hidden, s.top.world.vars, s.code[s.top.pc].dest)
  }

  /** The run of a callee on top of its caller, up to the way back. */
  lemma CalleePops(env: Env, p: Program, s: Stack, first: nat)
    requires !TopHalted(s) && CallAt(env, p, s).Some? && s.callers == []
    requires
      var (i, args) := CallAt(env, p, s).value;
      var inner := Entered(env, p, i, args, s.top.world);
      Final(Run(env, p, inner, first)) && forall j: nat :: j < first ==> !Final(Run(env, p, inner, j))
    ensures
      var (i, args) := CallAt(env, p, s).value;
      var ended := Run(env, p, Entered(env, p, i, args, s.top.world), first);
      Run(env, p, s, first + 2) == s.(top := Resume(env, CallerOf(s), ended.top))
    ensures forall j: nat :: j < first + 2 ==> !Final(Run(env, p, s, j))
  {
    hide Callee, Entered, CallAt, Final, Next, CallerOf;
    var (i, args) := CallAt(env, p, s).value;
    var inner, caller := Entered(env, p, i, args, s.top.world), CallerOf(s);
    EnteredAlone(env, p, i, args, s.top.world);
    PushStep(env, p, s);
    var ended := Run(env, p, inner, first);
    forall j: nat | j < first + 2 ensures !Final(Run(env, p, s, j)) {
      RunningCallee(env, p, s, inner, first, j);
    }
    RunAbove(env, p, inner, [caller], first);
    AfterPush(env, p, s, first);
    PopStep(env, p, ended, caller);
    RunAdd(env, p, s, first + 1, 1);
    OneRun(env, p, Above(ended, [caller]));
    CallerCode(s);
  }

  lemma AfterPush(env: Env, p: Program, s: Stack, n: nat)
    ensures Run(env, p, s, n + 1) == Run(env, p, Next(env, p, s), n)
  {
  }

  lemma CallerCode(s: Stack)
    requires s.top.Running? && s.top.pc < |s.code| && s.code[s.top.pc].Compute?
    ensures CallerOf(s).code == s.code
  {
  }

  /** While the callee runs, its caller is below it. */
  lemma RunningCallee(env: Env, p: Program, s: Stack, inner: Stack, first: nat, j: nat)
    requires !TopHalted(s) && CallAt(env, p, s).Some? && j < first + 2
    requires Next(env, p, s) == Above(inner, [CallerOf(s)])
    requires forall k: nat :: k < first ==> !Final(Run(env, p, inner, k))
    ensures !Final(Run(env, p, s, j))
  {
    hide Next, CallAt, CallerOf;
    if j == 0 {
      RunNone(env, p, s);
    } else {
      RunAbove(env, p, inner, [CallerOf(s)], j - 1);
      AfterPush(env, p, s, j - 1);
    }
  }

  /** A call whose callee ends is one operation. */
  lemma CalleeRuns(env: Env, p: Program, s: Stack, n: nat) returns (k: nat)
    requires !TopHalted(s) && CallAt(env, p, s).Some? && s.callers == []
    requires
      var (i, args) := CallAt(env, p, s).value;
      EndsAt(env, p, Entered(env, p, i, args, s.top.world), n)
    ensures k > 0 && Run(env, p, s, k) == s.(top := Step(Calling(env, p), p.(code := s.code), s.top))
    ensures forall j: nat :: j < k ==> !Final(Run(env, p, s, j))
  {
    hide Callee, Entered, CallAt, Final, Run, Next;
    var (i, args) := CallAt(env, p, s).value;
    var inner := Entered(env, p, i, args, s.top.world);
    CallStep(env, p, s);
    var first := FirstFinal(env, p, inner, n);
    FinalOnce(env, p, inner, n, first);
    CallEnds(env, p, args, s.top.world, i, first);
    CalleePops(env, p, s, first);
    BackTo(env, s, CallerOf(s), Run(env, p, inner, first).top);
    k := first + 2;
  }

  lemma EnteredAlone(env: Env, p: Program, i: nat, args: seq<Value>, w: World)
    requires Takes(p, i, args)
    ensures Entered(env, p, i, args, w).callers == []
  {
  }

  lemma PushStep(env: Env, p: Program, s: Stack)
    requires !TopHalted(s) && CallAt(env, p, s).Some? && s.callers == []
    ensures
      var (i, args) := CallAt(env, p, s).value;
      Next(env, p, s) == Above(Entered(env, p, i, args, s.top.world), [CallerOf(s)])
  {
    hide CallAt;
    assert [CallerOf(s)] + s.callers == [] + [CallerOf(s)];
  }

  lemma PopStep(env: Env, p: Program, ended: Stack, caller: Caller)
    requires Final(ended)
    ensures Next(env, p, Above(ended, [caller])) == Stack(caller.code, Resume(env, caller, ended.top), [])
  {
    assert [] + [caller] == [caller] && [caller][1..] == [];
  }

  lemma OneRun(env: Env, p: Program, s: Stack)
    ensures Run(env, p, s, 1) == Next(env, p, s)
  {
    hide Next;
    assert Run(env, p, s, 1) == Run(env, p, Next(env, p, s), 0);
  }

  lemma BackTo(env: Env, s: Stack, caller: Caller, ended: State)
    requires s.top.Running? && s.top.pc < |s.code| && s.code[s.top.pc].Compute? && !ended.Stuck?
    requires caller == Caller(s.code, s.top.pc, s.top.regs, s.top.hidden, s.top.world.vars, s.code[s.top.pc].dest)
    ensures Resume(env, caller, ended) == Finish(s.top, caller.dest, EffectOf(env, s.top.world.vars, ended))
  {
    hide Resumed;
  }

  // ------------------------------------------------------------- the two machines agree

  predicate IsEndless(m: State) {
    m.Trapped? && m.message == ENDLESS
  }

  /** A run in which calls are single operations, none of them endless, is a run of the stack. */
  lemma {:induction false} OperationsToStack(env: Env, p: Program, s: Stack, n: nat) returns (k: nat)
    requires s.callers == []
    requires !IsEndless(Steps(Calling(env, p), p.(code := s.code), s.top, n))
    ensures Run(env, p, s, k) == s.(top := Steps(Calling(env, p), p.(code := s.code), s.top, n))
    decreases n
  {
    hide Callee, CallAt, Step, Calling, Entered, Terminates, EndsAt;
    var rt, q := Calling(env, p), p.(code := s.code);
    if n == 0 {
      k := 0;
    } else if TopHalted(s) {
      HaltedStays(rt, q, s.top, n);
      k := 0;
    } else {
      var s1 := s.(top := Step(rt, q, s.top));
      k := OperationsToStack(env, p, s1, n - 1);
      var j := OneOperation(env, p, s, n - 1);
      RunAdd(env, p, s, j, k);
      k := j + k;
    }
  }

  /** One operation on the stack, unless it is a call that never ends. */
  lemma OneOperation(env: Env, p: Program, s: Stack, n: nat) returns (k: nat)
    requires s.callers == [] && !TopHalted(s)
    requires
      var rt, q := Calling(env, p), p.(code := s.code);
      !IsEndless(Steps(rt, q, Step(rt, q, s.top), n))
    ensures k > 0 && Run(env, p, s, k) == s.(top := Step(Calling(env, p), p.(code := s.code), s.top))
  {
    hide Callee, CallAt, Step, Calling, Entered;
    k := 1;
    if CallAt(env, p, s).None? {
      SameStep(env, p, s);
      OneRun(env, p, s);
    } else {
      var (i, args) := CallAt(env, p, s).value;
      CallTerminates(env, p, s, n);
      var e :| EndsAt(env, p, Entered(env, p, i, args, s.top.world), e);
      k := CalleeRuns(env, p, s, e);
    }
  }

  lemma CallTerminates(env: Env, p: Program, s: Stack, n: nat)
    requires !TopHalted(s) && CallAt(env, p, s).Some?
    requires
      var rt, q := Calling(env, p), p.(code := s.code);
      !IsEndless(Steps(rt, q, Step(rt, q, s.top), n))
    ensures
      var (i, args) := CallAt(env, p, s).value;
      Terminates(env, p, Entered(env, p, i, args, s.top.world))
  {
    hide Callee, CallAt, Step, Calling, Entered, Terminates;
    var (i, args) := CallAt(env, p, s).value;
    if !Terminates(env, p, Entered(env, p, i, args, s.top.world)) {
      CallStep(env, p, s);
      CallEndless(env, p, args, s.top.world, i);
      StaysTrapped(Calling(env, p), p.(code := s.code), Trapped(ENDLESS, s.top.world), n);
    }
  }

  lemma StaysTrapped(rt: Runtime, q: Program, m: State, n: nat)
    requires m.Trapped?
    ensures Steps(rt, q, m, n) == m
  {
    HaltedStays(rt, q, m, n);
  }

  /** A run of the stack that ends is a run in which calls are single operations. */
  lemma {:induction false} StackToOperations(env: Env, p: Program, s: Stack, n: nat) returns (k: nat)
    requires s.callers == [] && EndsAt(env, p, s, n)
    ensures
      var q := p.(code := s.code);
      var m := Steps(Calling(env, p), q, s.top, k);
      Halted(q, m) && Run(env, p, s, n) == s.(top := m) && k <= n
    decreases n
  {
    hide Callee, CallAt, Step, Calling, Entered, Terminates, Next, Run;
    var rt, q := Calling(env, p), p.(code := s.code);
    if TopHalted(s) {
      k := 0;
      FinalStays(env, p, s, n);
      assert Steps(rt, q, s.top, 0) == s.top;
    } else {
      var j := NextOperation(env, p, s, n);
      var s1 := s.(top := Step(rt, q, s.top));
      RunAdd(env, p, s, j, n - j);
      k := StackToOperations(env, p, s1, n - j);
      k := k + 1;
    }
  }

  /** The first operation of a run of the stack that ends. */
  lemma NextOperation(env: Env, p: Program, s: Stack, n: nat) returns (k: nat)
    requires s.callers == [] && !TopHalted(s) && EndsAt(env, p, s, n)
    ensures 0 < k <= n && Run(env, p, s, k) == s.(top := Step(Calling(env, p), p.(code := s.code), s.top))
  {
    hide Callee, CallAt, Step, Calling, Entered, Next, Run;
    RunNone(env, p, s);
    if CallAt(env, p, s).None? {
      k := 1;
      SameStep(env, p, s);
      OneRun(env, p, s);
      NextPlain(env, p, s);
    } else {
      var (i, args) := CallAt(env, p, s).value;
      var e := CalleeEnds(env, p, s, n);
      k := CalleeRuns(env, p, s, e);
    }
  }

  /** When the caller ends, so does its callee. */
  lemma CalleeEnds(env: Env, p: Program, s: Stack, n: nat) returns (e: nat)
    requires s.callers == [] && !TopHalted(s) && EndsAt(env, p, s, n) && CallAt(env, p, s).Some?
    ensures
      var (i, args) := CallAt(env, p, s).value;
      EndsAt(env, p, Entered(env, p, i, args, s.top.world), e)
  {
    hide Callee, Entered, CallAt, Final, Run, Next, CallerOf;
    var (i, args) := CallAt(env, p, s).value;
    var inner := Entered(env, p, i, args, s.top.world);
    PushStep(env, p, s);
    if forall k: nat :: k < n ==> !Final(Run(env, p, inner, k)) {
      RunningCallee(env, p, s, inner, n, n);
    }
    var k: nat :| k < n && Final(Run(env, p, inner, k));
    e := FirstFinal(env, p, inner, k);
    CalleePops(env, p, s, e);
    if Run(env, p, inner, e).top.Stuck? {
      StuckBelow(env, p, s, e, n);
    }
  }

  /** A stuck callee leaves its caller stuck. */
  lemma StuckBelow(env: Env, p: Program, s: Stack, e: nat, n: nat)
    requires s.callers == [] && !TopHalted(s) && CallAt(env, p, s).Some?
    requires Final(Run(env, p, s, n)) && Run(env, p, s, e + 2) == s.(top := Resume(env, CallerOf(s), Stuck))
    ensures Run(env, p, s, n).top.Stuck?
  {
    hide Run, CallAt;
    FinalOnce(env, p, s, n, e + 2);
  }

  lemma RunNone(env: Env, p: Program, s: Stack)
    ensures Run(env, p, s, 0) == s
  {
  }

  lemma NextPlain(env: Env, p: Program, s: Stack)
    requires !TopHalted(s) && CallAt(env, p, s).None?
    ensures Next(env, p, s) == s.(top := Step(env.base, p.(code := s.code), s.top))
  {
  }

  // ---------------------------------------------------------------------- calls mean bodies

  predicate IsEndlessOutcome(r: Outcome) {
    r.Faulted? && r.message == ENDLESS
  }

  /** The effect on the caller of a body that ended like this. */
  function BodyEffect(env: Env, before: map<string, Value>, r: Outcome): Effect
    requires Finishes(r)
  {
    match r
    case Normal(w) => Effect.Done(Nil, Resumed(env, before, w))
    case Returned(v, w) => Effect.Done(v, Resumed(env, before, w))
    case Faulted(message, w) => Effect.Trap(message, Resumed(env, before, w))
  }

  /** The body of the callee, in the world of the call. */
  ghost function BodyRun(env: Env, p: Program, f: FunctionDef, args: seq<Value>, w: World, fuel: nat): Outcome
    requires |f.parameters| + 1 == |args|
  {
    ExecAll(Calling(env, p), f.body, CalleeWorld(env, f.parameters, args[1..], w), fuel)
  }

  lemma OriginStream(p: Program, f: FunctionDef, at: Place, i: nat)
    requires OriginIs(p, i, f, at)
    ensures StmtsOk(f.body, false) && TableAt(p, at.fns, FunctionTable(f, at)) && StmtsEnd(f.body, Inner(at)).fns == i
    ensures i < |p.functions| && p.functions[i].parameters == f.parameters
  {
    hide TableAt, FunctionTable, StmtsOk, StmtsEnd, BodyCode;
    FunctionStream(p, f, at);
  }

  lemma EndsNotEndless(p: Program, r: Outcome, m: State)
    requires Ends(p, r, m)
    ensures IsEndless(m) <==> IsEndlessOutcome(r)
    ensures !m.Stuck? && Finishes(r)
  {
  }

  lemma CallResultEnds(q: Program, env: Env, before: map<string, Value>, r: Outcome, m: State)
    requires Finishes(r) && Ends(q, CallResult(r), m)
    ensures !m.Stuck? && EffectOf(env, before, m) == BodyEffect(env, before, r)
    ensures IsEndless(m) <==> IsEndlessOutcome(r)
  {
    hide Resumed;
  }

  lemma EnteredIs(env: Env, p: Program, i: nat, args: seq<Value>, w: World)
    requires Takes(p, i, args)
    ensures
      var s := Entered(env, p, i, args, w);
      && s.code == p.functions[i].code && s.callers == []
      && s.top == Initial(CalleeWorld(env, p.functions[i].parameters, args[1..], w))
  {
  }

  lemma HaltedFinal(q: Program, s: Stack, m: State)
    requires s.callers == [] && s.code == q.code && Halted(q, m)
    ensures Final(s.(top := m))
  {
  }

  /** A call of a function of the program runs the function's body; calls in the body mean the same. */
  lemma CallMeansBody(
    env: Env, p: Program, f: FunctionDef, at: Place, i: nat, args: seq<Value>, w: World, fuel: nat
  )
    requires OriginIs(p, i, f, at) && Callee(env, p, Call, args, w) == Some(i)
    ensures |f.parameters| + 1 == |args|
    ensures
      var r := BodyRun(env, p, f, args, w, fuel);
      Finishes(r) && !IsEndlessOutcome(r) ==>
        Calling(env, p).primitive(Call, args, w) == BodyEffect(env, w.vars, r)
  {
    hide *;
    CalleeTakes(env, p, args, w, i);
    OriginStream(p, f, at, i);
    TakesLength(p, i, args);
    EnteredIs(env, p, i, args, w);
    var rt, s := Calling(env, p), Entered(env, p, i, args, w);
    var w1 := CalleeWorld(env, f.parameters, args[1..], w);
    var r := ExecAll(rt, f.body, w1, fuel);
    BodyRunIs(env, p, f, args, w, fuel);
    var n := FunctionPreserved(rt, p, f, at, w1, fuel);
    var q := p.(code := p.functions[i].code);
    if Finishes(r) && !IsEndlessOutcome(r) {
      var m := Steps(rt, q, Initial(w1), n);
      CallResultEnds(q, env, w.vars, r, m);
      var k := OperationsToStack(env, p, s, n);
      HaltedFinal(q, s, m);
      EndsAtIs(env, p, s, k);
      CallEnds(env, p, args, w, i, k);
    }
  }

  /** Calling a value that refers to the function, with one argument for each parameter, gives what the
      body returns, nil when it runs off its end, or its trap. */
  lemma ValueCalled(
    env: Env, p: Program, f: FunctionDef, at: Place, i: nat, callee: Value, arguments: seq<Value>, w: World, fuel: nat
  )
    requires OriginIs(p, i, f, at) && env.target(w.heap, callee) == Some(i) && |arguments| == |f.parameters|
    ensures
      var r := ExecAll(Calling(env, p), f.body, CalleeWorld(env, f.parameters, arguments, w), fuel);
      var result := Calling(env, p).primitive(Call, [callee] + arguments, w);
      && (r.Returned? ==> result == Effect.Done(r.value, Resumed(env, w.vars, r.world)))
      && (r.Normal? ==> result == Effect.Done(Nil, Resumed(env, w.vars, r.world)))
      && (r.Faulted? && r.message != ENDLESS ==> result == Effect.Trap(r.message, Resumed(env, w.vars, r.world)))
  {
    hide CalleeWorld, Resumed, Calling, OriginIs, ExecAll;
    var args := [callee] + arguments;
    OriginStream(p, f, at, i);
    assert args[0] == callee && args[1..] == arguments;
    assert Callee(env, p, Call, args, w) == Some(i);
    CallMeansBody(env, p, f, at, i, args, w, fuel);
  }

  lemma CalleeTakes(env: Env, p: Program, args: seq<Value>, w: World, i: nat)
    requires Callee(env, p, Call, args, w) == Some(i)
    ensures Takes(p, i, args)
  {
  }

  lemma TakesLength(p: Program, i: nat, args: seq<Value>)
    requires Takes(p, i, args)
    ensures i < |p.functions| && |p.functions[i].parameters| + 1 == |args|
  {
  }

  lemma BodyRunIs(env: Env, p: Program, f: FunctionDef, args: seq<Value>, w: World, fuel: nat)
    requires |f.parameters| + 1 == |args|
    ensures
      BodyRun(env, p, f, args, w, fuel)
      == ExecAll(Calling(env, p), f.body, CalleeWorld(env, f.parameters, args[1..], w), fuel)
  {
  }

  lemma EndsAtIs(env: Env, p: Program, s: Stack, n: nat)
    requires Final(Run(env, p, s, n)) && !Run(env, p, s, n).top.Stuck?
    ensures EndsAt(env, p, s, n)
  {
  }

  /** A callee that ends has a body that finishes, or meets a match expression without a matching arm. */
  lemma CalleeFinishes(
    env: Env, p: Program, f: FunctionDef, at: Place, i: nat, args: seq<Value>, w: World, n: nat
  )
    requires OriginIs(p, i, f, at) && Callee(env, p, Call, args, w) == Some(i)
    requires EndsAt(env, p, Entered(env, p, i, args, w), n)
    ensures |f.parameters| + 1 == |args|
    ensures
      var r := BodyRun(env, p, f, args, w, n);
      Finishes(r) || r.NoArm?
  {
    hide *;
    CalleeTakes(env, p, args, w, i);
    OriginStream(p, f, at, i);
    TakesLength(p, i, args);
    EnteredIs(env, p, i, args, w);
    var rt, s := Calling(env, p), Entered(env, p, i, args, w);
    var w1 := CalleeWorld(env, f.parameters, args[1..], w);
    BodyRunIs(env, p, f, args, w, n);
    var q := p.(code := p.functions[i].code);
    var k := StackToOperations(env, p, s, n);
    StillHalted(rt, q, Initial(w1), k, n);
    var _ := FunctionPreserved(rt, p, f, at, w1, n);
  }

  lemma StillHalted(rt: Runtime, q: Program, m: State, k: nat, n: nat)
    requires k <= n && Halted(q, Steps(rt, q, m, k))
    ensures Halted(q, Steps(rt, q, m, n)) && Steps(rt, q, m, n) == Steps(rt, q, m, k)
  {
    hide Step, Halted;
    StepsCompose(rt, q, m, k, n - k);
    HaltedStays(rt, q, Steps(rt, q, m, k), n - k);
  }

  // -------------------------------------------------------------------- whole programs

  function Started(p: Program, w: World): Stack {
    Stack(p.code, Initial(w), [])
  }

  lemma StartedIs(p: Program, w: World)
    ensures
      var s := Started(p, w);
      s.code == p.code && s.callers == [] && s.top == Initial(w) && p.(code := s.code) == p
  {
  }

  /** A finished source run, with calls running bodies, is a run of the stack machine that ends in the
      same way and the same world; an unfinished one keeps the machine running. */
  lemma StackPreserved(env: Env, program: List<Stmt>, w: World, fuel: nat) returns (n: nat)
    requires StmtsOk(program, false)
    ensures
      var p := Lower(program);
      var r, s := ExecAll(Calling(env, p), program, w, fuel), Started(p, w);
      && (Finishes(r) && !IsEndlessOutcome(r) ==> EndsAt(env, p, s, n) && Ends(p, r, Run(env, p, s, n).top))
      && (r.OutOfFuel? ==> !EndsAt(env, p, s, fuel))
      && (Finishes(r) || r.OutOfFuel? || r.NoArm?)
  {
    hide *;
    var p := Lower(program);
    var rt, s := Calling(env, p), Started(p, w);
    var r := ExecAll(rt, program, w, fuel);
    StartedIs(p, w);
    n := ProgramPreserved(rt, program, w, fuel);
    if Finishes(r) && !IsEndlessOutcome(r) {
      var m := Steps(rt, p, Initial(w), n);
      EndsNotEndless(p, r, m);
      n := OperationsToStack(env, p, s, n);
      HaltedFinal(p, s, m);
      EndsAtIs(env, p, s, n);
    }
    if r.OutOfFuel? && EndsAt(env, p, s, fuel) {
      var k := StackToOperations(env, p, s, fuel);
      StillHalted(rt, p, Initial(w), k, fuel);
    }
  }

  /** A run of the stack machine that ends is a finished source run with the same ending. */
  lemma StackReflected(env: Env, program: List<Stmt>, w: World, n: nat)
    requires StmtsOk(program, false) && CoveredStmts(program)
    requires EndsAt(env, Lower(program), Started(Lower(program), w), n)
    ensures
      var p := Lower(program);
      Ends(p, ExecAll(Calling(env, p), program, w, n), Run(env, p, Started(p, w), n).top)
  {
    hide *;
    var p := Lower(program);
    var rt, s := Calling(env, p), Started(p, w);
    StartedIs(p, w);
    var k := StackToOperations(env, p, s, n);
    StillHalted(rt, p, Initial(w), k, n);
    CoveredReflected(rt, program, w, n);
  }
}
