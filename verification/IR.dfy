/** The register IR and the machine that runs one instruction stream. */
module IR {
  import opened Runtime

  /** User names come from the checker, synthetic names from `for-in` lowering.  Module VariableNames
      shows when keeping them apart is right. */
  datatype VarName = User(name: string) | Synthetic(prefix: string, serial: nat)

  type Register = nat

  datatype Instr =
    | Compute(dest: Register, prim: Prim, arguments: seq<Register>)
    | MakeFunction(dest: Register, functionIndex: nat)
    | Copy(dest: Register, source: Register)
    | LoadVar(dest: Register, variable: VarName)
    | StoreVar(variable: VarName, source: Register)   // define or redefine the variable
    | AssignVar(variable: VarName, source: Register)  // update an existing variable
    | PrintValue(source: Register)
    | ReturnValue(source: Register)
    | Jump(target: nat)
    | JumpIf(condition: Register, onTrue: bool, target: nat)

  predicate IsJump(i: Instr) {
    i.Jump? || i.JumpIf?
  }

  datatype FunctionBody = FunctionBody(
    functionLabel: string, parameters: seq<string>, code: seq<Instr>, registerCount: nat)

  /** A stream to run and the program's function table. */
  datatype Program = Program(code: seq<Instr>, functions: seq<FunctionBody>)

  /** `hidden` holds the synthetic variables, which callees cannot reach. */
  datatype State =
    | Running(pc: nat, regs: map<Register, Value>, hidden: map<VarName, Value>, world: World)
    | Returned(value: Value, world: World)
    | Trapped(message: string, world: World)
    | Stuck  // read of a register that was never written, or a bad table index

  predicate ReadsReady(regs: map<Register, Value>, rs: seq<Register>) {
    forall r :: r in rs ==> r in regs
  }

  function ReadAll(regs: map<Register, Value>, rs: seq<Register>): (vs: seq<Value>)
    requires ReadsReady(regs, rs)
    ensures |vs| == |rs|
    ensures forall i :: 0 <= i < |rs| ==> vs[i] == regs[rs[i]]
  {
    seq(|rs|, i requires 0 <= i < |rs| => assert rs[i] in rs; regs[rs[i]])
  }

  /** Continue at the next instruction with the effect's value in `dest`. */
  function Finish(m: State, dest: Register, effect: Effect): State
    requires m.Running?
  {
    match effect
    case Done(v, w) => m.(pc := m.pc + 1, regs := m.regs[dest := v], world := w)
    case Trap(message, w) => Trapped(message, w)
  }

  function LoadVariable(m: State, x: VarName): Effect
    requires m.Running?
  {
    match x
    case User(name) => ReadVar(m.world, name)
    case Synthetic(_, _) =>
      if x in m.hidden then Done(m.hidden[x], m.world) else Trap("undefined variable", m.world)
  }

  function StoreVariable(m: State, x: VarName, v: Value): State
    requires m.Running?
  {
    match x
    case User(name) => m.(pc := m.pc + 1, world := BindVar(m.world, name, v))
    case Synthetic(_, _) => m.(pc := m.pc + 1, hidden := m.hidden[x := v])
  }

  /** One machine step.  A stream is left by falling off its end, returning or trapping. */
  function Step(rt: Runtime, p: Program, m: State): State {
    if !m.Running? || m.pc >= |p.code| then m
    else
      match p.code[m.pc]
      case Compute(dest, prim, arguments) =>
        if !ReadsReady(m.regs, arguments) then Stuck
        else Finish(m, dest, Apply(rt, prim, ReadAll(m.regs, arguments), m.world))
      case MakeFunction(dest, i) =>
        if i >= |p.functions| then Stuck
        else
          var f := p.functions[i];
          Finish(m, dest, Apply(rt, MakeClosure(f.functionLabel, f.parameters), [], m.world))
      case Copy(dest, source) =>
        if source !in m.regs then Stuck
        else m.(pc := m.pc + 1, regs := m.regs[dest := m.regs[source]])
      case LoadVar(dest, x) => Finish(m, dest, LoadVariable(m, x))
      case StoreVar(x, source) =>
        if source !in m.regs then Stuck else StoreVariable(m, x, m.regs[source])
      case AssignVar(x, source) =>
        if source !in m.regs then Stuck
        else
          (match LoadVariable(m, x)
           case Trap(message, w) => Trapped(message, w)
           case Done(_, _) => StoreVariable(m, x, m.regs[source]))
      case PrintValue(source) =>
        if source !in m.regs then Stuck
        else m.(pc := m.pc + 1, world := Emit(m.world, m.regs[source]))
      case ReturnValue(source) =>
        if source !in m.regs then Stuck else Returned(m.regs[source], m.world)
      case Jump(target) => m.(pc := target)
      case JumpIf(condition, onTrue, target) =>
        if condition !in m.regs then Stuck
        else m.(pc := if Truthy(m.regs[condition]) == onTrue then target else m.pc + 1)
  }

  function Steps(rt: Runtime, p: Program, m: State, n: nat): State
    decreases n
  {
    if n == 0 then m else Steps(rt, p, Step(rt, p, m), n - 1)
  }

  predicate Halted(p: Program, m: State) {
    m.Running? ==> m.pc >= |p.code|
  }

  lemma {:induction false} StepsCompose(rt: Runtime, p: Program, m: State, a: nat, b: nat)
    ensures Steps(rt, p, m, a + b) == Steps(rt, p, Steps(rt, p, m, a), b)
    decreases a
  {
    if a > 0 {
      StepsCompose(rt, p, Step(rt, p, m), a - 1, b);
    }
  }

  lemma {:induction false} HaltedStays(rt: Runtime, p: Program, m: State, n: nat)
    requires Halted(p, m)
    ensures Steps(rt, p, m, n) == m
    decreases n
  {
    if n > 0 {
      HaltedStays(rt, p, m, n - 1);
    }
  }
}
