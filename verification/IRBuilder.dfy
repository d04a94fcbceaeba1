/** The IR under construction: one instruction stream for the main program, a stack
    of streams for functions being built, and the table of finished functions.
    Emission always goes to the innermost open stream.
 */
module IRBuilder {
  import opened Runtime
  import opened IR
  import opened BackPatching

  /** The abstract value of an `IRProgram`: the open streams from the outside in, the innermost apart. */
  datatype Build = Build(outer: seq<FunctionBody>, active: FunctionBody, functions: seq<FunctionBody>)

  /** More code, a new register count and more finished functions. */
  function Append(b: Build, code: seq<Instr>, registers: nat, fs: seq<FunctionBody>): Build {
    Build(b.outer, b.active.(code := b.active.code + code, registerCount := registers), b.functions + fs)
  }

  function Begun(b: Build, functionLabel: string, parameters: seq<string>): Build {
    Build(b.outer + [b.active], FunctionBody(functionLabel, parameters, [], 0), b.functions)
  }

  function Ended(b: Build): Build
    requires b.outer != []
  {
    var last := |b.outer| - 1;
    Build(b.outer[..last], b.outer[last], b.functions + [b.active])
  }

  class IRProgram {
    var instructions: seq<Instr>
    var registerCount: nat
    var functionStack: seq<FunctionBody>
    var functions: seq<FunctionBody>

    constructor ()
      ensures State() == Build([], FunctionBody("", [], [], 0), [])
    {
      instructions, registerCount, functionStack, functions := [], 0, [], [];
    }

    ghost function State(): (b: Build)
      reads this
    {
      var main := FunctionBody("", [], instructions, registerCount);
      if functionStack == [] then Build([], main, functions)
      else
        var last := |functionStack| - 1;
        Build([main] + functionStack[..last], functionStack[last], functions)
    }

    method MakeRegister() returns (r: Register)
      modifies this
      ensures r == old(State()).active.registerCount
      ensures State() == Append(old(State()), [], r + 1, [])
    {
      if functionStack != [] {
        var last := |functionStack| - 1;
        r := functionStack[last].registerCount;
        functionStack := functionStack[last := functionStack[last].(registerCount := r + 1)];
        assert functionStack[..last] == old(functionStack[..last]);
      } else {
        r := registerCount;
        registerCount := registerCount + 1;
      }
    }

    method Emit(instruction: Instr)
      modifies this
      ensures State() == Append(old(State()), [instruction], old(State()).active.registerCount, [])
    {
      if functionStack != [] {
        var last := |functionStack| - 1;
        functionStack := functionStack[last := functionStack[last].(code := functionStack[last].code + [instruction])];
        assert functionStack[..last] == old(functionStack[..last]);
      } else {
        instructions := instructions + [instruction];
      }
    }

    method BeginFunction(functionLabel: string, parameters: seq<string>)
      modifies this
      ensures State() == Begun(old(State()), functionLabel, parameters)
    {
      functionStack := functionStack + [FunctionBody(functionLabel, parameters, [], 0)];
      assert functionStack[..|functionStack| - 1] == old(functionStack);
    }

    /** Closes the innermost function; an error when none is open. */
    method EndFunction() returns (ok: bool, index: nat)
      modifies this
      ensures ok == (old(State()).outer != [])
      ensures ok ==> index == |old(State()).functions| && State() == Ended(old(State()))
      ensures !ok ==> State() == old(State())
    {
      ok, index := functionStack != [], 0;
      if ok {
        var last := |functionStack| - 1;
        index := |functions|;
        functions := functions + [functionStack[last]];
        functionStack := functionStack[..last];
      }
    }

    method EmitCompute(prim: Prim, arguments: seq<Register>) returns (dest: Register)
      modifies this
      ensures dest == old(State()).active.registerCount
      ensures State() == Append(old(State()), [Compute(dest, prim, arguments)], dest + 1, [])
    {
      dest := MakeRegister();
      Emit(Compute(dest, prim, arguments));
    }

    /** Keys and values alternate, so their number must be even. */
    method EmitMap(arguments: seq<Register>) returns (ok: bool, dest: Register)
      modifies this
      ensures ok == (|arguments| % 2 == 0)
      ensures ok ==> dest == old(State()).active.registerCount
      ensures ok ==> State() == Append(old(State()), [Compute(dest, MakeMap, arguments)], dest + 1, [])
      ensures !ok ==> State() == old(State())
    {
      ok, dest := |arguments| % 2 == 0, 0;
      if ok {
        dest := EmitCompute(MakeMap, arguments);
      }
    }

    method EmitMakeFunction(index: nat) returns (dest: Register)
      modifies this
      ensures dest == old(State()).active.registerCount
      ensures State() == Append(old(State()), [MakeFunction(dest, index)], dest + 1, [])
    {
      dest := MakeRegister();
      Emit(MakeFunction(dest, index));
    }

    method EmitLoadVar(x: VarName) returns (dest: Register)
      modifies this
      ensures dest == old(State()).active.registerCount
      ensures State() == Append(old(State()), [LoadVar(dest, x)], dest + 1, [])
    {
      dest := MakeRegister();
      Emit(LoadVar(dest, x));
    }

    method EmitCopy(value: Register) returns (dest: Register)
      modifies this
      ensures dest == old(State()).active.registerCount
      ensures State() == Append(old(State()), [Copy(dest, value)], dest + 1, [])
    {
      dest := MakeRegister();
      Emit(Copy(dest, value));
    }

    /** A jump whose target is not known yet; the result is its position, for `PatchJump`. */
    method EmitJump() returns (position: nat)
      modifies this
      ensures position == |old(State()).active.code|
      ensures State() == Append(old(State()), [Jump(0)], old(State()).active.registerCount, [])
    {
      position := InstructionCount();
      Emit(Jump(0));
    }

    method EmitJumpIf(condition: Register, onTrue: bool) returns (position: nat)
      modifies this
      ensures position == |old(State()).active.code|
      ensures State() == Append(old(State()), [JumpIf(condition, onTrue, 0)], old(State()).active.registerCount, [])
    {
      position := InstructionCount();
      Emit(JumpIf(condition, onTrue, 0));
    }

    method InstructionCount() returns (count: nat)
      ensures count == |State().active.code|
    {
      if functionStack != [] {
        count := |functionStack[|functionStack| - 1].code|;
      } else {
        count := |instructions|;
      }
    }

    method ActiveCode() returns (code: seq<Instr>)
      ensures code == State().active.code
    {
      if functionStack != [] {
        code := functionStack[|functionStack| - 1].code;
      } else {
        code := instructions;
      }
    }

    lemma FunctionsAre()
      ensures functions == State().functions
    {
    }

    /** Sends the jump at `position` to the next instruction; an error when there is no jump there. */
    method PatchJump(position: nat) returns (ok: bool)
      modifies this
      ensures ok == (position < |old(State()).active.code| && IsJump(old(State()).active.code[position]))
      ensures
        var active := old(State()).active;
        State() == if ok then old(State()).(active := active.(code := PatchOne(active.code, 0, position, |active.code|)))
                   else old(State())
    {
      if functionStack != [] {
        var last := |functionStack| - 1;
        var code := functionStack[last].code;
        ok := position < |code| && IsJump(code[position]);
        if ok {
          functionStack := functionStack[last := functionStack[last].(code := PatchOne(code, 0, position, |code|))];
          assert functionStack[..last] == old(functionStack[..last]);
        }
      } else {
        ok := position < |instructions| && IsJump(instructions[position]);
        if ok {
          instructions := PatchOne(instructions, 0, position, |instructions|);
        }
      }
    }
  }
}
