/** Code and function tables placed inside a program, and short runs over them. */
module Placement {
  import opened Runtime
  import opened IR

  predicate CodeAt(p: Program, pc: nat, code: seq<Instr>) {
    pc + |code| <= |p.code| && p.code[pc..pc + |code|] == code
  }

  predicate TableAt(p: Program, index: nat, fs: seq<FunctionBody>) {
    index + |fs| <= |p.functions| && p.functions[index..index + |fs|] == fs
  }

  lemma CodeSplit(p: Program, pc: nat, a: seq<Instr>, b: seq<Instr>)
    requires CodeAt(p, pc, a + b)
    ensures CodeAt(p, pc, a) && CodeAt(p, pc + |a|, b)
  {
    var whole := p.code[pc..pc + |a + b|];
    assert p.code[pc..pc + |a|] == whole[..|a|];
    assert p.code[pc + |a|..pc + |a| + |b|] == whole[|a|..];
  }

  lemma TableSplit(p: Program, index: nat, a: seq<FunctionBody>, b: seq<FunctionBody>)
    requires TableAt(p, index, a + b)
    ensures TableAt(p, index, a) && TableAt(p, index + |a|, b)
  {
    var whole := p.functions[index..index + |a + b|];
    assert p.functions[index..index + |a|] == whole[..|a|];
    assert p.functions[index + |a|..index + |a| + |b|] == whole[|a|..];
  }

  lemma InstrAt(p: Program, pc: nat, code: seq<Instr>, i: nat)
    requires CodeAt(p, pc, code) && i < |code|
    ensures pc + i < |p.code| && p.code[pc + i] == code[i]
  {
    assert p.code[pc..pc + |code|][i] == p.code[pc + i];
  }

  lemma TableEntry(p: Program, index: nat, fs: seq<FunctionBody>, i: nat)
    requires TableAt(p, index, fs) && i < |fs|
    ensures index + i < |p.functions| && p.functions[index + i] == fs[i]
  {
    assert p.functions[index..index + |fs|][i] == p.functions[index + i];
  }

  /** The run of `n` steps from `m` ends in `m'`. */
  predicate Runs(rt: Runtime, p: Program, m: State, n: nat, m': State) {
    Steps(rt, p, m, n) == m'
  }

  lemma RunsThen(rt: Runtime, p: Program, m: State, n1: nat, m1: State, n2: nat, m2: State)
    requires Runs(rt, p, m, n1, m1) && Runs(rt, p, m1, n2, m2)
    ensures Runs(rt, p, m, n1 + n2, m2)
  {
    StepsCompose(rt, p, m, n1, n2);
  }

  /** Registers below `base` that had a value keep it. */
  predicate Agree(a: map<Register, Value>, b: map<Register, Value>, base: Register) {
    forall r :: r in a && r < base ==> r in b && b[r] == a[r]
  }

  /** `m'` runs on at `pc` in world `w`; registers below `base` and synthetic variables are as in `m`. */
  predicate Lands(m: State, m': State, base: Register, pc: nat, w: World)
    requires m.Running?
  {
    && m'.Running?
    && m'.pc == pc
    && m'.world == w
    && m'.hidden == m.hidden
    && Agree(m.regs, m'.regs, base)
  }

  lemma LandsTrans(m: State, m1: State, m2: State, base: Register, base1: Register)
    requires m.Running? && m1.Running? && base <= base1
    requires Lands(m, m1, base, m1.pc, m1.world)
    requires m2.Running? && Lands(m1, m2, base1, m2.pc, m2.world)
    ensures Lands(m, m2, base, m2.pc, m2.world)
  {
  }

  lemma LandsWeaken(m: State, m1: State, base: Register, smaller: Register)
    requires m.Running? && m1.Running? && smaller <= base
    requires Lands(m, m1, base, m1.pc, m1.world)
    ensures Lands(m, m1, smaller, m1.pc, m1.world)
  {
  }

  lemma LandsKeeps(m: State, m1: State, base: Register, r: Register)
    requires m.Running? && m1.Running? && Lands(m, m1, base, m1.pc, m1.world) && r < base && r in m.regs
    ensures r in m1.regs && m1.regs[r] == m.regs[r]
  {
  }

  // ------------------------------------------------------------- single steps

  lemma RunsOne(rt: Runtime, p: Program, m: State)
    ensures Runs(rt, p, m, 1, Step(rt, p, m))
  {
    assert Steps(rt, p, m, 1) == Steps(rt, p, Step(rt, p, m), 0);
  }

  lemma DoCompute(rt: Runtime, p: Program, m: State, dest: Register, prim: Prim, args: seq<Register>, vs: seq<Value>)
    requires m.Running? && m.pc < |p.code| && p.code[m.pc] == Compute(dest, prim, args)
    requires |args| == |vs| && forall i :: 0 <= i < |args| ==> args[i] in m.regs && m.regs[args[i]] == vs[i]
    ensures Runs(rt, p, m, 1, Finish(m, dest, Apply(rt, prim, vs, m.world)))
  {
    hide Apply;
    assert ReadsReady(m.regs, args) && ReadAll(m.regs, args) == vs;
    RunsOne(rt, p, m);
  }

  lemma DoMakeFunction(rt: Runtime, p: Program, m: State, dest: Register, i: nat)
    requires m.Running? && m.pc < |p.code| && p.code[m.pc] == MakeFunction(dest, i) && i < |p.functions|
    ensures
      var f := p.functions[i];
      Runs(rt, p, m, 1, Finish(m, dest, Apply(rt, MakeClosure(f.functionLabel, f.parameters), [], m.world)))
  {
    hide Apply;
    RunsOne(rt, p, m);
  }

  lemma DoCopy(rt: Runtime, p: Program, m: State, dest: Register, source: Register)
    requires m.Running? && m.pc < |p.code| && p.code[m.pc] == Copy(dest, source) && source in m.regs
    ensures Runs(rt, p, m, 1, m.(pc := m.pc + 1, regs := m.regs[dest := m.regs[source]]))
  {
    hide Apply;
    RunsOne(rt, p, m);
  }

  lemma DoLoad(rt: Runtime, p: Program, m: State, dest: Register, x: VarName)
    requires m.Running? && m.pc < |p.code| && p.code[m.pc] == LoadVar(dest, x)
    ensures Runs(rt, p, m, 1, Finish(m, dest, LoadVariable(m, x)))
  {
    hide Apply;
    RunsOne(rt, p, m);
  }

  lemma DoStore(rt: Runtime, p: Program, m: State, x: VarName, source: Register)
    requires m.Running? && m.pc < |p.code| && p.code[m.pc] == StoreVar(x, source) && source in m.regs
    ensures Runs(rt, p, m, 1, StoreVariable(m, x, m.regs[source]))
  {
    hide Apply;
    RunsOne(rt, p, m);
  }

  /** What assignment to a variable does to a running machine. */
  function Assigned(m: State, x: VarName, v: Value): State
    requires m.Running?
  {
    match LoadVariable(m, x)
    case Trap(message, w) => Trapped(message, w)
    case Done(_, _) => StoreVariable(m, x, v)
  }

  lemma DoAssign(rt: Runtime, p: Program, m: State, x: VarName, source: Register)
    requires m.Running? && m.pc < |p.code| && p.code[m.pc] == AssignVar(x, source) && source in m.regs
    ensures Runs(rt, p, m, 1, Assigned(m, x, m.regs[source]))
  {
    hide Apply;
    RunsOne(rt, p, m);
  }

  lemma DoPrint(rt: Runtime, p: Program, m: State, source: Register)
    requires m.Running? && m.pc < |p.code| && p.code[m.pc] == PrintValue(source) && source in m.regs
    ensures Runs(rt, p, m, 1, m.(pc := m.pc + 1, world := Emit(m.world, m.regs[source])))
  {
    hide Apply;
    RunsOne(rt, p, m);
  }

  lemma DoReturn(rt: Runtime, p: Program, m: State, source: Register)
    requires m.Running? && m.pc < |p.code| && p.code[m.pc] == ReturnValue(source) && source in m.regs
    ensures Runs(rt, p, m, 1, Returned(m.regs[source], m.world))
  {
    hide Apply;
    RunsOne(rt, p, m);
  }

  lemma DoJump(rt: Runtime, p: Program, m: State, target: nat)
    requires m.Running? && m.pc < |p.code| && p.code[m.pc] == Jump(target)
    ensures Runs(rt, p, m, 1, m.(pc := target))
  {
    hide Apply;
    RunsOne(rt, p, m);
  }

  lemma DoJumpIf(rt: Runtime, p: Program, m: State, condition: Register, onTrue: bool, target: nat)
    requires m.Running? && m.pc < |p.code| && p.code[m.pc] == JumpIf(condition, onTrue, target)
    requires condition in m.regs
    ensures Runs(rt, p, m, 1, m.(pc := if Truthy(m.regs[condition]) == onTrue then target else m.pc + 1))
  {
    hide Apply;
    RunsOne(rt, p, m);
  }
}
