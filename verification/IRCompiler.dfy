/** The compiler that emits instructions and patches jumps in place, proved to build
    exactly the structural code and function table: every forward jump is patched, to
    the right place, and compilation fails exactly on what lowering does not accept.
 */
module IRCompiler {
  import opened Wrappers
  import opened Runtime
  import opened Ast
  import opened IR
  import opened Lowering
  import opened FunctionTables
  import opened BackPatching
  import opened IRBuilder
  import opened Drafts
  import opened CompilerSteps
  import opened PatternSteps
  import opened StatementSteps
  import opened LoopSteps
  import PatternSimulation

  class IRCompiler {
    const program: IRProgram
    var loopContexts: seq<LoopContext>
    var nextSyntheticName: nat

    constructor ()
      ensures fresh(program)
      ensures State() == Draft(Build([], FunctionBody("", [], [], 0), []), [], 0)
    {
      program := new IRProgram();
      loopContexts, nextSyntheticName := [], 0;
    }

    ghost function State(): Draft
      reads this, program
    {
      Draft(program.State(), loopContexts, nextSyntheticName)
    }

    /** A whole program, from a fresh compiler. */
    method Compile(statements: List<Stmt>) returns (ok: bool, ir: Program)
      requires State() == Draft(Build([], FunctionBody("", [], [], 0), []), [], 0)
      modifies this, program
      ensures ok == StmtsOk(statements, false)
      ensures ok ==> ir == Lower(statements)
    {
      hide StmtsOk, StmtsBuilt, StmtsCode, StmtsEnd, StmtsFunctions, IRProgram.State, Lower;
      ghost var d := State();
      ir := Program([], []);
      ok := CompileStatements(statements);
      if ok {
        ProgramBuilt(d, State(), statements);
        var code := program.ActiveCode();
        ir := Program(code, program.functions);
        program.FunctionsAre();
      }
    }

    /** Sends the listed jumps to the next instruction. */
    method PatchJumps(jumps: seq<nat>)
      requires Patchable(program.State().active.code, 0, jumps)
      modifies program
      ensures State() == Patched(old(State()), jumps, Here(old(State())).code)
    {
      hide Patchable, IRProgram.State;
      ghost var before := program.State();
      ghost var target := |before.active.code|;
      var k := 0;
      while k < |jumps|
        invariant k <= |jumps|
        invariant program.State().outer == before.outer && program.State().functions == before.functions
        invariant |program.State().active.code| == target
        invariant Patchable(program.State().active.code, 0, jumps[k..])
        invariant Patch(program.State().active.code, 0, jumps[k..], target) == Patch(before.active.code, 0, jumps, target)
        invariant program.State().active == before.active.(code := program.State().active.code)
      {
        ghost var code := program.State().active.code;
        PatchableHead(code, 0, jumps[k..], target);
        PatchStep(code, 0, jumps[k..], target);
        assert jumps[k..][1..] == jumps[k + 1..];
        var patched := program.PatchJump(jumps[k]);
        assert patched;
        k := k + 1;
      }
    }

    // -------------------------------------------------------------------- patterns

    /** Fail jumps and bindings are added to the lists of the caller. */
    method CompilePattern(pattern: Pattern, value: Register, failJumps: seq<nat>, bindings: Bound)
      returns (ok: bool, fails: seq<nat>, bs: Bound)
      modifies this, program
      ensures ok == PatternOk(pattern)
      ensures ok ==> PatternBuilt(old(State()), State(), pattern, value)
      ensures ok ==> fails == failJumps + FailJumps(pattern, Here(old(State())))
      ensures ok ==> bs == bindings + PatternBindings(pattern, value, Here(old(State())))
      decreases pattern, 2
    {
      hide PatternOk, PatternBuilt, FailJumps, PatternBindings, Emits, IRProgram.State, Append, ComponentsOk;
      ghost var d := State();
      ok, fails, bs := true, failJumps, bindings;
      match pattern
      case Wildcard =>
        LeafBuilt(d, pattern, value);
      case Bind(name) =>
        LeafBuilt(d, pattern, value);
        bs := bindings + [(name, value)];
      case LiteralPattern(constant) =>
        var expected := program.EmitCompute(Constant(constant), []);
        ghost var d1 := State();
        Emitting(d, d1, Compute(expected, Constant(constant), []), 1);
        var equal := program.EmitCompute(Equal, [value, expected]);
        ghost var d2 := State();
        Emitting(d1, d2, Compute(equal, Equal, [value, expected]), 1);
        var jump := program.EmitJumpIf(equal, false);
        Emitting(d2, State(), JumpIf(equal, false, 0), 0);
        LiteralPatternBuilt(pattern, value, d, d1, d2, State(), expected, equal);
        fails := failJumps + [jump];
      case RecordPattern(parts) =>
        ok, fails, bs := CompileComponents(parts, value, failJumps, bindings);
        if ok {
          RecordBuilt(pattern, value, d, State());
        } else {
          RecordOk(pattern);
        }
      case VariantPattern(enumName, variantName, parts) =>
        var tag := program.EmitCompute(VariantTag(enumName, variantName), [value]);
        ghost var d1 := State();
        Emitting(d, d1, Compute(tag, VariantTag(enumName, variantName), [value]), 1);
        var jump := program.EmitJumpIf(tag, false);
        ghost var d2 := State();
        Emitting(d1, d2, JumpIf(tag, false, 0), 0);
        ok, fails, bs := CompileComponents(parts, value, failJumps + [jump], bindings);
        RecordOk(pattern);
        if ok {
          VariantBuilt(pattern, value, d, d1, d2, State(), tag);
        }
      case OrPattern(_, _) =>
        ok, fails, bs := CompileOr(pattern, value, failJumps, bindings);
    }

    lemma RecordOk(pattern: Pattern)
      requires pattern.RecordPattern? || pattern.VariantPattern?
      ensures PatternOk(pattern) == ComponentsOk(pattern.parts)
    {
    }

    method CompileComponents(parts: List<Component>, value: Register, failJumps: seq<nat>, bindings: Bound)
      returns (ok: bool, fails: seq<nat>, bs: Bound)
      modifies this, program
      ensures ok == ComponentsOk(parts)
      ensures ok ==>
        var at := Here(old(State()));
        && Built(old(State()), State(), ComponentsCode(parts, value, at, 0), ComponentsEnd(parts, at), [])
        && fails == failJumps + ComponentFails(parts, at)
        && bs == bindings + ComponentBindings(parts, value, at)
      decreases parts, 1
    {
      hide PatternOk, PatternBuilt, FailJumps, PatternBindings, Emits, IRProgram.State, Append, ComponentsOk, ComponentsLeft,
        Built, ComponentsCode, ComponentsEnd, ComponentFails, ComponentBindings;
      ghost var d := State();
      fails, bs := failJumps, bindings;
      var rest := parts;
      ghost var done: seq<Instr>, newFails: seq<nat>, newBindings: Bound := [], [], [];
      ComponentsStart(d, parts, value);
      while rest.Cons?
        invariant ComponentsLeft(d, State(), parts, rest, value, done, newFails, newBindings)
        invariant fails == failJumps + newFails && bs == bindings + newBindings
        invariant rest == parts || rest < parts
        decreases rest
      {
        ghost var d1 := State();
        var part := rest.head;
        ComponentsLeftOk(d, d1, parts, rest, value, done, newFails, newBindings);
        var field := program.EmitCompute(SelectorPrim(part.selector), [value]);
        ghost var d2 := State();
        Emitting(d1, d2, Compute(field, SelectorPrim(part.selector), [value]), 1);
        ok, fails, bs := CompilePattern(part.pattern, field, fails, bs);
        ComponentsOkStep(rest);
        if !ok {
          return;
        }
        ComponentsNext(d, d1, d2, State(), parts, rest, value, done, newFails, newBindings, field);
        done := done + [Compute(field, SelectorPrim(part.selector), [value])] + PatternCode(part.pattern, field, Here(d2), 0);
        newFails := newFails + FailJumps(part.pattern, Here(d2));
        newBindings := newBindings + PatternBindings(part.pattern, field, Here(d2));
        rest := rest.tail;
      }
      ok := true;
      ComponentsDone(d, State(), parts, value, done, newFails, newBindings);
    }

    lemma ComponentsLeftOk(
      d: Draft, d': Draft, parts: List<Component>, rest: List<Component>, v: Register, done: seq<Instr>,
      fails: seq<nat>, bs: Bound
    )
      requires ComponentsLeft(d, d', parts, rest, v, done, fails, bs)
      ensures ComponentsOk(rest) == ComponentsOk(parts)
    {
    }

    /** Alternatives in order: a failing one goes on to the next, a matching one copies its bindings
        to the registers all alternatives share and jumps to the end. */
    method CompileOr(pattern: Pattern, value: Register, failJumps: seq<nat>, bindings: Bound)
      returns (ok: bool, fails: seq<nat>, bs: Bound)
      requires pattern.OrPattern?
      modifies this, program
      ensures ok == PatternOk(pattern)
      ensures ok ==> PatternBuilt(old(State()), State(), pattern, value)
      ensures ok ==> fails == failJumps + FailJumps(pattern, Here(old(State())))
      ensures ok ==> bs == bindings + PatternBindings(pattern, value, Here(old(State())))
      decreases pattern, 1
    {
      hide PatternOk, PatternBuilt, FailJumps, PatternBindings, Emits, IRProgram.State, Append, OrLeft, Built, PatternEnd,
        MergeCode, SharedRegisters, AlternativesOk, Patchable, Patched, Shared, Distinct, SameBindings;
      ghost var d := State();
      var names := PatternNames(pattern.first);
      ghost var base := PatternEnd(pattern.first, Here(d)).regs;
      fails, bs := failJumps, bindings;
      OrOk(pattern);
      // the first alternative makes the shared registers
      var altFails, shared, merged;
      ghost var middle;
      ok, altFails, shared, merged, middle := CompileAlternative(pattern.first, value, names, map[], [], true, base);
      if !ok {
        return;
      }
      ghost var d1, d2 := middle, State();
      PatternPlace(d, d1, pattern.first, value);
      var rest := pattern.others;
      var successJumps: seq<nat>, pendingFailJumps: seq<nat> := [], [];
      if rest.Cons? {
        var exit := program.EmitJump();
        Emitting(d2, State(), Jump(0), 0);
        successJumps, pendingFailJumps := [exit], altFails;
      } else {
        fails := failJumps + altFails;
      }
      ghost var newFails := if rest.Cons? then [] else altFails;
      ghost var done := PatternCode(pattern.first, value, Here(d), 0)
                        + MergeCode(PatternBindings(pattern.first, value, Here(d)), names, Here(d1).regs)
                        + (if rest.Cons? then [Jump(0)] else []);
      OrBegin(d, d1, d2, State(), pattern, value);
      assert failJumps + [] == failJumps;
      ok, fails, successJumps := CompileOthers(pattern, value, names, shared, merged, pendingFailJumps, successJumps, fails,
                                               failJumps, newFails, base, d, done);
      if !ok {
        return;
      }
      PatchJumps(successJumps);
      bs := bindings + merged;
      SharedIs(shared, merged, names, base, pattern, value, Here(d));
    }

    /** The alternatives after the first: the pending fail jumps of one are patched to the next. */
    method CompileOthers(
      pattern: Pattern, value: Register, names: seq<string>, shared: map<string, Register>, merged: Bound,
      pending: seq<nat>, success: seq<nat>, failsSoFar: seq<nat>, ghost failJumps: seq<nat>, ghost ownFails: seq<nat>,
      ghost base: Register, ghost d: Draft, ghost doneSoFar: seq<Instr>
    ) returns (ok: bool, fails: seq<nat>, successJumps: seq<nat>)
      requires pattern.OrPattern? && names == PatternNames(pattern.first) && base == PatternEnd(pattern.first, Here(d)).regs
      requires OrLeft(d, State(), pattern, value, pattern.others, doneSoFar, pending, success, ownFails)
      requires failsSoFar == failJumps + ownFails && Shared(shared, merged, names, base) && Distinct(names)
      modifies this, program
      ensures ok == AlternativesOk(pattern.others, names)
      ensures ok ==> fails == failJumps + FailJumps(pattern, Here(d))
      ensures ok ==> Patchable(State().build.active.code, 0, successJumps)
      ensures ok ==> PatternBuilt(d, Patched(State(), successJumps, Here(State()).code), pattern, value)
      decreases pattern, 0
    {
      hide PatternOk, PatternBuilt, FailJumps, PatternBindings, IRProgram.State, Append, OrLeft, Built, PatternEnd, Emits,
        MergeCode, SharedRegisters, AlternativesOk, Patchable, Patched, Shared, Distinct, SameBindings;
      var rest, pendingFailJumps := pattern.others, pending;
      var altFails, newShared, newMerged;
      ghost var middle, done, newFails := d, doneSoFar, ownFails;
      fails, successJumps := failsSoFar, success;
      while rest.Cons?
        invariant OrLeft(d, State(), pattern, value, rest, done, pendingFailJumps, successJumps, newFails)
        invariant fails == failJumps + newFails
        invariant rest == pattern.others || rest < pattern.others
        decreases rest
      {
        ghost var d0 := State();
        OrLeftParts(d, d0, pattern, value, rest, done, pendingFailJumps, successJumps, newFails);
        BuiltPatched(d, d0, done, Here(d0), [], pendingFailJumps, Here(d0).code);
        PatchJumps(pendingFailJumps);
        PatchedLoops(d0, pendingFailJumps, Here(d0).code);
        AlternativesOkStep(rest, names);
        ok, altFails, newShared, newMerged, middle := CompileAlternative(rest.head, value, names, shared, merged, false, base);
        if !ok {
          return;
        }
        ghost var d4, oldSuccess, oldFails, oldPending := State(), successJumps, newFails, pendingFailJumps;
        pendingFailJumps := [];
        if rest.tail.Cons? {
          var exit := program.EmitJump();
          Emitting(d4, State(), Jump(0), 0);
          successJumps, pendingFailJumps := successJumps + [exit], altFails;
        } else {
          fails := fails + altFails;
          newFails := newFails + altFails;
        }
        done := OrContinue(d, d0, middle, d4, State(), pattern, value, rest, done, oldPending, oldSuccess, oldFails);
        assert failJumps + oldFails + altFails == failJumps + (oldFails + altFails);
        rest := rest.tail;
      }
      ok := true;
      OrFinish(d, State(), pattern, value, done, pendingFailJumps, successJumps, newFails);
    }

    /** One alternative and the copies of its bindings; `middle` is the draft between the two. */
    method CompileAlternative(
      alternative: Pattern, value: Register, names: seq<string>, sharedBindings: map<string, Register>,
      mergedBindings: Bound, ghost first: bool, ghost base: Register
    ) returns (ok: bool, fails: seq<nat>, shared: map<string, Register>, merged: Bound, ghost middle: Draft)
      requires
        if first then
          && sharedBindings == map[] && mergedBindings == []
          && names == PatternNames(alternative) && base == PatternEnd(alternative, Here(State())).regs
        else Shared(sharedBindings, mergedBindings, names, base) && Distinct(names)
      modifies this, program
      ensures ok == (PatternOk(alternative)
                     && if first then Distinct(names) else SameBindings(names, PatternNames(alternative)))
      ensures ok ==> PatternBuilt(old(State()), middle, alternative, value) && Shared(shared, merged, names, base)
      ensures ok ==> fails == FailJumps(alternative, Here(old(State())))
      ensures ok ==>
        var n := |PatternNames(alternative)|;
        Built(middle, State(), MergeCode(PatternBindings(alternative, value, Here(old(State()))), names, base),
              Skip(Here(middle), n, if first then n else 0), [])
      decreases alternative, 3
    {
      hide PatternOk, PatternBuilt, FailJumps, PatternBindings, IRProgram.State, Built, PatternEnd, MergeCode, Shared,
        Distinct, SameBindings, BoundNames;
      ghost var d := State();
      var bs;
      shared, merged, middle := map[], [], d;
      ok, fails, bs := CompilePattern(alternative, value, [], []);
      if !ok {
        return;
      }
      middle := State();
      PatternPlace(d, middle, alternative, value);
      assert bs == PatternBindings(alternative, value, Here(d)) && fails == FailJumps(alternative, Here(d));
      FirstBindings(alternative, value, Here(d));
      AlternativeBindings(alternative, value, Here(d));
      ok, shared, merged := MergeBindings(bs, names, sharedBindings, mergedBindings, first, base);
    }

    /** Checks an alternative's names and copies its bindings to the shared registers; names seen
        for the first time get a register. */
    method MergeBindings(
      bs: Bound, names: seq<string>, sharedBindings: map<string, Register>, mergedBindings: Bound, ghost first: bool,
      ghost base: Register
    ) returns (ok: bool, shared: map<string, Register>, merged: Bound)
      requires
        if first then
          && sharedBindings == map[] && mergedBindings == [] && base == Here(State()).regs
          && |bs| == |names| && forall i :: 0 <= i < |bs| ==> bs[i].0 == names[i]
        else Shared(sharedBindings, mergedBindings, names, base) && Distinct(names)
      modifies program
      ensures first ==> ok == Distinct(names)
      ensures !first ==> ok == SameBindings(names, BoundNames(bs))
      ensures ok ==> Shared(shared, merged, names, base)
      ensures ok ==>
        Built(old(State()), State(), MergeCode(bs, names, base), Skip(Here(old(State())), |bs|, if first then |bs| else 0), [])
    {
      hide Built, MergeLeft, MergeCode, IRProgram.State, Append, Emits, Merging, Distinct, SameBindings, BoundNames, Shared;
      ghost var d := State();
      shared, merged := sharedBindings, mergedBindings;
      var seen: set<string> := {};
      var k := 0;
      ghost var done: seq<Instr> := [];
      MergeStart(d, bs, names, base);
      MergingStart(bs, names, base, shared, merged, first);
      while k < |bs|
        invariant k <= |bs|
        invariant MergeLeft(d, State(), bs, k, names, base, if first then k else 0, done)
        invariant Merging(bs, names, base, k, seen, shared, merged, first)
      {
        var (name, value) := bs[k];
        if name !in names || name in seen {
          ok := false;
          Clash(bs, names, base, k, seen, shared, merged, first);
          return;
        }
        ghost var d1, oldShared, oldMerged := State(), shared, merged;
        MergePlace(d, d1, bs, k, names, base, if first then k else 0, done);
        MergingShared(bs, names, base, k, seen, shared, merged, first);
        shared, merged := CopyBinding(name, value, shared, merged);
        MergingNext(bs, names, base, k, seen, oldShared, oldMerged, shared, merged, first);
        MergeNext(d, d1, State(), bs, k, names, base, if first then k else 0, done, shared[name], if first then 1 else 0);
        done := done + [Copy(shared[name], value)];
        seen := seen + {name};
        k := k + 1;
      }
      MergeDone(d, State(), bs, names, base, if first then |bs| else 0, done);
      ok := |seen| == |(set n | n in names)|;
      MergingDone(bs, names, base, seen, shared, merged, first);
    }

    /** Copies a binding to its shared register, which is made when the name is new. */
    method CopyBinding(name: string, value: Register, sharedBindings: map<string, Register>, mergedBindings: Bound)
      returns (shared: map<string, Register>, merged: Bound)
      modifies program
      ensures
        var here := Here(old(State()));
        && name in shared
        && Built(old(State()), State(), [Copy(shared[name], value)],
                 Skip(here, 1, if name in sharedBindings then 0 else 1), [])
        && if name in sharedBindings then shared == sharedBindings && merged == mergedBindings
           else shared == sharedBindings[name := here.regs] && merged == mergedBindings + [(name, here.regs)]
    {
      hide Built, IRProgram.State, Emits;
      ghost var d := State();
      shared, merged := sharedBindings, mergedBindings;
      if name !in shared {
        var r := program.MakeRegister();
        shared := shared[name := r];
        merged := merged + [(name, r)];
        BuiltRegister(d, State());
      } else {
        BuiltNothing(d);
        SkipNothing(Here(d));
      }
      ghost var d1, regs := State(), if name in sharedBindings then 0 else 1;
      program.Emit(Copy(shared[name], value));
      Emitting(d1, State(), Copy(shared[name], value), 0);
      ThenEmits(d, d1, State(), [], Skip(Here(d), 0, regs), [], Copy(shared[name], value), 0);
      SkipTwice(Here(d), 0, regs, 1, 0);
      assert [] + [Copy(shared[name], value)] == [Copy(shared[name], value)];
    }

    // ----------------------------------------------------------------- expressions

    method CompileExpression(e: Expr) returns (ok: bool, result: Register)
      modifies this, program
      ensures ok == ExprOk(e)
      ensures ok ==> ExprBuilt(old(State()), State(), e, result)
      decreases e, 1
    {
      hide ExprOk, ExprBuilt, Emits, IRProgram.State, Append;
      ghost var d := State();
      ok, result := true, 0;
      LeafOk(e);
      match e
      case Literal(constant) =>
        result := program.EmitCompute(Constant(constant), []);
        Emitting(d, State(), Compute(result, Constant(constant), []), 1);
        LiteralBuilt(e, d, State(), result);
      case Variable(name) =>
        result := program.EmitLoadVar(User(name));
        Emitting(d, State(), LoadVar(result, User(name)), 1);
        VariableBuilt(e, d, State(), result);
      case Assign(name, value) =>
        ok, result := CompileExpression(value);
        if ok {
          ghost var d1 := State();
          program.Emit(AssignVar(User(name), result));
          Emitting(d1, State(), AssignVar(User(name), result), 0);
          AssignBuilt(e, d, d1, State(), result);
        }
      case CompoundAssign(_, _, _) => ok, result := CompileCompoundAssign(e);
      case IndexCompoundAssign(_, _, _, _) => ok, result := CompileIndexCompoundAssign(e);
      case FieldCompoundAssign(_, _, _, _) => ok, result := CompileFieldCompoundAssign(e);
      case Grouping(inner) =>
        ok, result := CompileExpression(inner);
        GroupingSame(e, d, State(), result);
      case Operation(_, _) => ok, result := CompileOperation(e);
      case Logical(_, _, _) => ok, result := CompileLogical(e);
      case MatchExpr(_, _) => ok, result := CompileMatchExpression(e);
      case Lambda(_) => ok, result := CompileLambda(e);
    }

    method CompileCompoundAssign(e: Expr) returns (ok: bool, result: Register)
      requires e.CompoundAssign?
      modifies this, program
      ensures ok == ExprOk(e)
      ensures ok ==> ExprBuilt(old(State()), State(), e, result)
      decreases e, 0
    {
      hide ExprOk, ExprBuilt, CompoundBuilt, CompoundEnd, Emits, IRProgram.State, Append;
      LeafOk(e);
      ghost var d := State();
      var oldValue := program.EmitLoadVar(User(e.name));
      ghost var d1 := State();
      Emitting(d, d1, LoadVar(oldValue, User(e.name)), 1);
      ok, result := CompileCompoundResult(e.op, "variable", oldValue, e.value);
      if ok {
        ghost var d2 := State();
        program.Emit(AssignVar(User(e.name), result));
        Emitting(d2, State(), AssignVar(User(e.name), result), 0);
        VariableCompoundBuilt(e, d, d1, d2, State(), oldValue, result);
      }
    }

    method CompileCompoundResult(op: ArithmeticOp, role: string, oldValue: Register, value: Expr)
      returns (ok: bool, result: Register)
      modifies this, program
      ensures ok == ExprOk(value)
      ensures ok ==> CompoundBuilt(old(State()), State(), op, role, oldValue, value)
      ensures ok ==> result == CompoundEnd(value, Here(old(State()))).regs - 1
      decreases value, 2
    {
      hide ExprOk, ExprBuilt, CompoundBuilt, CompoundEnd, CompoundMessage, Emits, IRProgram.State, Append;
      result := 0;
      ghost var d := State();
      var checkedOld := program.EmitCompute(AssertNumber(CompoundMessage(op, role)), [oldValue]);
      ghost var d1 := State();
      Emitting(d, d1, Compute(checkedOld, AssertNumber(CompoundMessage(op, role)), [oldValue]), 1);
      var v;
      ok, v := CompileExpression(value);
      if ok {
        ghost var d2 := State();
        var checkedValue := program.EmitCompute(AssertNumber(CompoundMessage(op, "value")), [v]);
        ghost var d3 := State();
        Emitting(d2, d3, Compute(checkedValue, AssertNumber(CompoundMessage(op, "value")), [v]), 1);
        result := program.EmitCompute(Arithmetic(op), [checkedOld, checkedValue]);
        Emitting(d3, State(), Compute(result, Arithmetic(op), [checkedOld, checkedValue]), 1);
        CompoundSteps(d, d1, d2, d3, State(), op, role, oldValue, value, checkedOld, v, checkedValue, result);
      }
    }

    method CompileIndexCompoundAssign(e: Expr) returns (ok: bool, result: Register)
      requires e.IndexCompoundAssign?
      modifies this, program
      ensures ok == ExprOk(e)
      ensures ok ==> ExprBuilt(old(State()), State(), e, result)
      decreases e, 0
    {
      hide ExprOk, ExprBuilt, CompoundBuilt, CompoundEnd, Emits, IRProgram.State, Append;
      LeafOk(e);
      result := 0;
      ghost var d := State();
      var collection, index;
      ok, collection := CompileExpression(e.collection);
      if !ok {
        return;
      }
      ghost var d1 := State();
      ok, index := CompileExpression(e.index);
      if !ok {
        return;
      }
      ghost var d2 := State();
      var oldValue := program.EmitCompute(Index, [collection, index]);
      ghost var d3 := State();
      Emitting(d2, d3, Compute(oldValue, Index, [collection, index]), 1);
      ok, result := CompileCompoundResult(e.op, "target", oldValue, e.value);
      if ok {
        ghost var d4 := State();
        var dest := program.EmitCompute(AssignIndex, [collection, index, result]);
        Emitting(d4, State(), Compute(dest, AssignIndex, [collection, index, result]), 1);
        IndexCompoundBuilt(e, d, d1, d2, d3, d4, State(), collection, index, oldValue, result, dest);
      }
    }

    method CompileFieldCompoundAssign(e: Expr) returns (ok: bool, result: Register)
      requires e.FieldCompoundAssign?
      modifies this, program
      ensures ok == ExprOk(e)
      ensures ok ==> ExprBuilt(old(State()), State(), e, result)
      decreases e, 0
    {
      hide ExprOk, ExprBuilt, CompoundBuilt, CompoundEnd, Emits, IRProgram.State, Append;
      LeafOk(e);
      result := 0;
      ghost var d := State();
      var target;
      ok, target := CompileExpression(e.target);
      if !ok {
        return;
      }
      ghost var d1 := State();
      var oldValue := program.EmitCompute(Field(e.field), [target]);
      ghost var d3 := State();
      Emitting(d1, d3, Compute(oldValue, Field(e.field), [target]), 1);
      ok, result := CompileCompoundResult(e.op, "target", oldValue, e.value);
      if ok {
        ghost var d4 := State();
        var dest := program.EmitCompute(AssignField(e.field), [target, result]);
        Emitting(d4, State(), Compute(dest, AssignField(e.field), [target, result]), 1);
        FieldCompoundBuilt(e, d, d1, d3, d4, State(), target, oldValue, result, dest);
      }
    }

    method CompileOperands(es: List<Expr>) returns (ok: bool, results: seq<Register>)
      modifies this, program
      ensures ok == ExprsOk(es)
      ensures ok ==> OperandsBuilt(old(State()), State(), es, results)
      decreases es, 1
    {
      hide ExprOk, ExprsOk, ExprBuilt, OperandsBuilt, OperandsLeft, IRProgram.State;
      ghost var d := State();
      results := [];
      var rest := es;
      ghost var done: seq<Instr>, fs: seq<FunctionBody> := [], [];
      OperandsStart(d, es);
      while rest.Cons?
        invariant OperandsLeft(d, State(), es, rest, done, fs, results)
        invariant rest == es || rest < es
        decreases rest
      {
        ghost var d1 := State();
        OperandsLeftOk(d, d1, es, rest, done, fs, results);
        var r;
        ok, r := CompileExpression(rest.head);
        if !ok {
          return;
        }
        OperandsNext(d, d1, State(), es, rest, done, fs, results, r);
        done, fs := done + ExprCode(rest.head, Here(d1)), fs + ExprFunctions(rest.head, Here(d1));
        results, rest := results + [r], rest.tail;
      }
      ok := true;
      OperandsDone(d, State(), es, done, fs, results);
    }

    /** Operands left to right, then the operation. */
    method CompileOperation(e: Expr) returns (ok: bool, result: Register)
      requires e.Operation?
      modifies this, program
      ensures ok == ExprOk(e)
      ensures ok ==> ExprBuilt(old(State()), State(), e, result)
      decreases e, 0
    {
      hide ExprOk, ExprsOk, ExprBuilt, OperandsBuilt, Emits, IRProgram.State, Append;
      LeafOk(e);
      result := 0;
      ghost var d := State();
      if e.prim.MakeStruct? && Length(e.operands) != |e.prim.fieldNames| {
        ok := false;
        return;
      }
      var arguments;
      ok, arguments := CompileOperands(e.operands);
      if !ok {
        return;
      }
      ghost var d1 := State();
      OperandsPlace(d, d1, e.operands, arguments);
      if e.prim.MakeMap? {
        ok, result := program.EmitMap(arguments);
        if !ok {
          return;
        }
      } else {
        result := program.EmitCompute(e.prim, arguments);
      }
      Emitting(d1, State(), Compute(result, e.prim, arguments), 1);
      OperationBuilt(e, d, d1, State(), arguments, result);
    }

    method CompileLogical(e: Expr) returns (ok: bool, result: Register)
      requires e.Logical?
      modifies this, program
      ensures ok == ExprOk(e)
      ensures ok ==> ExprBuilt(old(State()), State(), e, result)
      decreases e, 0
    {
      hide ExprOk, ExprBuilt, Emits, Patchable, Patched, IRProgram.State, Append;
      LeafOk(e);
      result := 0;
      ghost var d := State();
      var left, right;
      ok, left := CompileExpression(e.left);
      if !ok {
        return;
      }
      ghost var d1 := State();
      result := program.EmitCopy(left);
      ghost var d2 := State();
      Emitting(d1, d2, Copy(result, left), 1);
      var jump := program.EmitJumpIf(result, e.isOr);
      ghost var d3 := State();
      Emitting(d2, d3, JumpIf(result, e.isOr, 0), 0);
      ok, right := CompileExpression(e.right);
      if !ok {
        return;
      }
      ghost var d4 := State();
      program.Emit(Copy(result, right));
      Emitting(d4, State(), Copy(result, right), 0);
      LogicalBuilt(e, d, d1, d2, d3, d4, State(), left, right, result);
      PatchJumps([jump]);
    }

    /** A function or lambda body in its own stream; loops around it do not reach into it. */
    method CompileFunction(f: FunctionDef) returns (ok: bool, index: nat)
      modifies this, program
      ensures ok == StmtsOk(f.body, false)
      ensures ok ==>
        var at := Here(old(State()));
        && Built(old(State()), State(), [], FunctionEnd(f, at), FunctionTable(f, at))
        && index == StmtsEnd(f.body, Inner(at)).fns
      decreases f, 0
    {
      hide StmtsOk, StmtsBuilt, Built, FunctionEnd, FunctionTable, StmtsEnd, Emits, IRProgram.State, Append, Begun, Ended;
      index := 0;
      ghost var d := State();
      program.BeginFunction(f.functionLabel, f.parameters);
      var enclosingLoopContexts := loopContexts;
      loopContexts := [];
      assert State() == Opened(d, f);
      ok := CompileStatements(f.body);
      if !ok {
        return;
      }
      ghost var d1 := State();
      var nilValue := program.EmitCompute(Constant(Nil), []);
      ghost var d2 := State();
      Emitting(d1, d2, Compute(nilValue, Constant(Nil), []), 1);
      program.Emit(ReturnValue(nilValue));
      ghost var d3 := State();
      Emitting(d2, d3, ReturnValue(nilValue), 0);
      loopContexts := enclosingLoopContexts;
      FunctionBuilt(d, d1, d2, d3, f, nilValue);
      ok, index := program.EndFunction();
    }

    method CompileLambda(e: Expr) returns (ok: bool, result: Register)
      requires e.Lambda?
      modifies this, program
      ensures ok == ExprOk(e)
      ensures ok ==> ExprBuilt(old(State()), State(), e, result)
      decreases e, 0
    {
      hide ExprOk, ExprBuilt, StmtsOk, Built, FunctionEnd, FunctionTable, StmtsEnd, Emits, IRProgram.State, Append;
      LeafOk(e);
      result := 0;
      ghost var d := State();
      var index;
      ok, index := CompileFunction(e.def);
      if ok {
        ghost var d1 := State();
        result := program.EmitMakeFunction(index);
        Emitting(d1, State(), MakeFunction(result, index), 1);
        LambdaBuilt(e, d, d1, State(), result, index);
      }
    }

    // ------------------------------------------------------------------- match arms

    method StoreAll(bs: Bound)
      modifies program
      ensures Built(old(State()), State(), StoreBindings(bs), Skip(Here(old(State())), |bs|, 0), [])
    {
      hide Built, StoreBindings, StoresLeft, Emits, IRProgram.State, Append;
      ghost var d := State();
      var k := 0;
      ghost var done: seq<Instr> := [];
      StoresStart(d, bs);
      while k < |bs|
        invariant k <= |bs|
        invariant StoresLeft(d, State(), bs, k, done)
      {
        ghost var d1 := State();
        program.Emit(StoreVar(User(bs[k].0), bs[k].1));
        Emitting(d1, State(), StoreVar(User(bs[k].0), bs[k].1), 0);
        StoresNext(d, d1, State(), bs, k, done);
        done := done + [StoreVar(User(bs[k].0), bs[k].1)];
        k := k + 1;
      }
      StoresDone(d, State(), bs, done);
    }

    /** Pattern, stores of its bindings, guard; `fails` are the jumps to the next arm. */
    method CompileTest(pattern: Pattern, guard: Option<Expr>, value: Register) returns (ok: bool, fails: seq<nat>)
      modifies this, program
      ensures ok == (PatternOk(pattern) && GuardOk(guard))
      ensures ok ==> TestBuilt(old(State()), State(), pattern, guard, value)
      ensures ok ==> fails == TestFails(pattern, guard, Here(old(State())))
      decreases guard, 0
    {
      hide PatternOk, GuardOk, ExprOk, PatternBuilt, TestBuilt, ExprBuilt, FailJumps, TestFails, PatternBindings, Built, Emits,
        StoreBindings, IRProgram.State, Append;
      ghost var d := State();
      GuardOkIs(guard);
      var bs;
      ok, fails, bs := CompilePattern(pattern, value, [], []);
      if !ok {
        return;
      }
      ghost var d1 := State();
      assert bs == PatternBindings(pattern, value, Here(d)) && fails == FailJumps(pattern, Here(d));
      StoreAll(bs);
      ghost var d2 := State();
      match guard
      case None =>
        TestWithoutGuard(d, d1, d2, pattern, value);
      case Some(g) =>
        var r;
        ok, r := CompileExpression(g);
        if ok {
          ghost var d3 := State();
          var jump := program.EmitJumpIf(r, false);
          Emitting(d3, State(), JumpIf(r, false, 0), 0);
          TestWithGuard(d, d1, d2, d3, State(), pattern, g, value, r);
          fails := fails + [jump];
        }
    }

    /** One arm; its test's fail jumps are patched to what comes after it. */
    method CompileExprArm(arm: ExprArm, value: Register, result: Register) returns (ok: bool, endJump: nat)
      modifies this, program
      ensures ok == (PatternOk(arm.pattern) && GuardOk(arm.guard) && ExprOk(arm.value))
      ensures ok ==> ExprArmDone(old(State()), State(), arm, value, result, endJump)
      decreases arm, 0
    {
      hide ExprOk, ExprBuilt, ExprArmDone, Emits, PatternOk, GuardOk, TestBuilt, TestFails, Patchable, Patched,
        IRProgram.State, Append;
      ghost var d := State();
      endJump := 0;
      var failJumps, armValue;
      ok, failJumps := CompileTest(arm.pattern, arm.guard, value);
      if !ok {
        return;
      }
      ghost var d2 := State();
      ok, armValue := CompileExpression(arm.value);
      if !ok {
        return;
      }
      ghost var d3 := State();
      program.Emit(Copy(result, armValue));
      ghost var d4 := State();
      Emitting(d3, d4, Copy(result, armValue), 0);
      endJump := program.EmitJump();
      Emitting(d4, State(), Jump(0), 0);
      ExprArmBuilt(d, d2, d3, d4, State(), arm, value, result, armValue);
      PatchJumps(failJumps);
    }

    /** Every arm leaves its value in the shared result and jumps to the end. */
    method CompileMatchExpression(e: Expr) returns (ok: bool, result: Register)
      requires e.MatchExpr?
      modifies this, program
      ensures ok == ExprOk(e)
      ensures ok ==> ExprBuilt(old(State()), State(), e, result)
      decreases e, 0
    {
      hide ExprOk, ExprArmsOk, ExprBuilt, ExprArmsLeft, ExprArmDone, PatternOk, GuardOk, Patchable, Patched, IRProgram.State,
        Append;
      LeafOk(e);
      result := 0;
      ghost var d := State();
      var value;
      ok, value := CompileExpression(e.scrutinee);
      if !ok {
        return;
      }
      ghost var d1 := State();
      result := program.MakeRegister();
      ghost var d2 := State();
      var rest := e.arms;
      var endJumps: seq<nat> := [];
      ghost var done: seq<Instr>, fs: seq<FunctionBody> := [], [];
      ExprArmsStart(d2, e.arms, value, result);
      while rest.Cons?
        invariant ExprArmsLeft(d2, State(), e.arms, rest, value, result, done, fs, endJumps)
        invariant rest < e
        decreases rest
      {
        ghost var d3 := State();
        ExprArmsLeftParts(d2, d3, e.arms, rest, value, result, done, fs, endJumps);
        ExprArmsOkStep(rest);
        var endJump;
        ok, endJump := CompileExprArm(rest.head, value, result);
        if !ok {
          return;
        }
        done, fs := ExprArmsNext(d2, d3, State(), e.arms, rest, value, result, done, fs, endJumps, endJump);
        endJumps := endJumps + [endJump];
        rest := rest.tail;
      }
      ok := true;
      MatchExprBuilt(e, d, d1, d2, State(), value, result, done, fs, endJumps);
      PatchJumps(endJumps);
    }


    // ------------------------------------------------------------------ statements

    method CompileStatement(s: Stmt) returns (ok: bool)
      modifies this, program
      ensures ok == StmtOk(s, old(loopContexts) != [])
      ensures ok ==> StmtBuilt(old(State()), State(), s)
      decreases s, 2
    {
      hide StmtOk, StmtsOk, ExprOk, StmtBuilt, StmtsBuilt, ExprBuilt, Emits, Built, WithBreaks, FunctionEnd, FunctionTable,
        StmtsEnd, IRProgram.State, Append;
      ghost var d, inLoop := State(), loopContexts != [];
      SimpleOk(s, inLoop);
      ok := true;
      match s
      case Let(name, e) =>
        var r;
        ok, r := CompileExpression(e);
        if ok {
          ghost var d1 := State();
          program.Emit(StoreVar(User(name), r));
          Emitting(d1, State(), StoreVar(User(name), r), 0);
          SimpleStmtBuilt(s, d, d1, State(), r);
        }
      case Print(e) =>
        var r;
        ok, r := CompileExpression(e);
        if ok {
          ghost var d1 := State();
          program.Emit(PrintValue(r));
          Emitting(d1, State(), PrintValue(r), 0);
          SimpleStmtBuilt(s, d, d1, State(), r);
        }
      case Evaluate(e) =>
        var r;
        ok, r := CompileExpression(e);
        if ok {
          EvaluateBuilt(s, d, State(), r);
        }
      case Return(_) => ok := CompileReturn(s);
      case Break => ok := CompileBreak();
      case Continue => ok := CompileContinue();
      case Block(body) =>
        ok := CompileStatements(body);
        if ok {
          BlockBuilt(s, d, State());
        }
      case If(_, _, _) => ok := CompileIf(s);
      case While(_, _) => ok := CompileWhile(s);
      case For(_, _, _, _) => ok := CompileFor(s);
      case ForIn(_, _, _) => ok := CompileForIn(s);
      case Match(_, _) => ok := CompileMatch(s);
      case Function(_, _) => ok := CompileFunctionStatement(s);
    }

    method CompileStatements(ss: List<Stmt>) returns (ok: bool)
      modifies this, program
      ensures ok == StmtsOk(ss, old(loopContexts) != [])
      ensures ok ==> StmtsBuilt(old(State()), State(), ss)
      decreases ss, 1
    {
      hide StmtOk, StmtsOk, StmtBuilt, StmtsBuilt, StmtsLeft, StmtCode, StmtFunctions, Breaks, DraftTargets, IRProgram.State;
      ghost var d := State();
      var rest := ss;
      ghost var done: seq<Instr>, fs: seq<FunctionBody>, breaks: seq<nat> := [], [], [];
      StmtsStart(d, ss);
      while rest.Cons?
        invariant StmtsLeft(d, State(), ss, rest, done, fs, breaks)
        invariant rest == ss || rest < ss
        decreases rest
      {
        ghost var d1 := State();
        StmtsLeftOk(d, d1, ss, rest, done, fs, breaks);
        ok := CompileStatement(rest.head);
        if !ok {
          return;
        }
        StmtsNext(d, d1, State(), ss, rest, done, fs, breaks);
        ghost var here := Here(d1);
        done, fs := done + StmtCode(rest.head, here, DraftTargets(d.loops)), fs + StmtFunctions(rest.head, here);
        breaks, rest := breaks + Breaks(rest.head, here), rest.tail;
      }
      ok := true;
      StmtsDone(d, State(), ss, done, fs, breaks);
    }

    method CompileReturn(s: Stmt) returns (ok: bool)
      requires s.Return?
      modifies this, program
      ensures ok == StmtOk(s, old(loopContexts) != [])
      ensures ok ==> StmtBuilt(old(State()), State(), s)
      decreases s, 1
    {
      hide StmtOk, ExprOk, StmtBuilt, ExprBuilt, Emits, IRProgram.State, Append;
      ghost var d := State();
      SimpleOk(s, loopContexts != []);
      ok := true;
      match s.result
      case None =>
        var r := program.EmitCompute(Constant(Nil), []);
        ghost var d1 := State();
        Emitting(d, d1, Compute(r, Constant(Nil), []), 1);
        program.Emit(ReturnValue(r));
        Emitting(d1, State(), ReturnValue(r), 0);
        ReturnNilBuilt(s, d, d1, State(), r);
      case Some(e) =>
        var r;
        ok, r := CompileExpression(e);
        if ok {
          ghost var d1 := State();
          program.Emit(ReturnValue(r));
          Emitting(d1, State(), ReturnValue(r), 0);
          SimpleStmtBuilt(s, d, d1, State(), r);
        }
    }

    /** An error outside a loop of the same function; otherwise the loop patches the jump later. */
    method CompileBreak() returns (ok: bool)
      modifies this, program
      ensures ok == (old(loopContexts) != [])
      ensures ok ==> StmtBuilt(old(State()), State(), Break)
    {
      hide StmtBuilt, Emits, IRProgram.State, Append;
      ghost var d := State();
      ok := loopContexts != [];
      if ok {
        var jump := program.EmitJump();
        ghost var d1 := State();
        Emitting(d, d1, Jump(0), 0);
        var last := |loopContexts| - 1;
        loopContexts := loopContexts[last := loopContexts[last].(breakJumps := loopContexts[last].breakJumps + [jump])];
        BreakBuilt(d, d1);
      }
    }

    method CompileContinue() returns (ok: bool)
      modifies this, program
      ensures ok == (old(loopContexts) != [])
      ensures ok ==> StmtBuilt(old(State()), State(), Continue)
    {
      hide StmtBuilt, Emits, IRProgram.State, Append;
      ghost var d := State();
      ok := loopContexts != [];
      if ok {
        var target := loopContexts[|loopContexts| - 1].continueTarget;
        program.Emit(Jump(target));
        Emitting(d, State(), Jump(target), 0);
        ContinueBuilt(d, State());
      }
    }

    method CompileFunctionStatement(s: Stmt) returns (ok: bool)
      requires s.Function?
      modifies this, program
      ensures ok == StmtOk(s, old(loopContexts) != [])
      ensures ok ==> StmtBuilt(old(State()), State(), s)
      decreases s, 1
    {
      hide StmtOk, StmtsOk, StmtBuilt, Built, FunctionEnd, FunctionTable, StmtsEnd, Emits, IRProgram.State, Append;
      ghost var d := State();
      SimpleOk(s, loopContexts != []);
      var placeholder := program.EmitCompute(Constant(Nil), []);
      ghost var d1 := State();
      Emitting(d, d1, Compute(placeholder, Constant(Nil), []), 1);
      program.Emit(StoreVar(User(s.name), placeholder));
      ghost var d2 := State();
      Emitting(d1, d2, StoreVar(User(s.name), placeholder), 0);
      var index;
      ok, index := CompileFunction(s.def);
      if ok {
        ghost var d3 := State();
        var value := program.EmitMakeFunction(index);
        ghost var d4 := State();
        Emitting(d3, d4, MakeFunction(value, index), 1);
        program.Emit(AssignVar(User(s.name), value));
        Emitting(d4, State(), AssignVar(User(s.name), value), 0);
        FunctionStmtBuilt(s, d, d1, d2, d3, d4, State(), placeholder, value, index);
      }
    }

    method CompileIf(s: Stmt) returns (ok: bool)
      requires s.If?
      modifies this, program
      ensures ok == StmtOk(s, old(loopContexts) != [])
      ensures ok ==> StmtBuilt(old(State()), State(), s)
      decreases s, 1
    {
      hide StmtOk, ExprOk, StmtBuilt, ExprBuilt, Emits, Patchable, IRProgram.State, Append, StmtCode, StmtFunctions, Breaks,
        Patch, Built, Grown, DraftTargets;
      ghost var d, inLoop := State(), loopContexts != [];
      IfOk(s, inLoop);
      var condition;
      ok, condition := CompileExpression(s.condition);
      if !ok {
        return;
      }
      ghost var d1 := State();
      var jumpIfFalse := program.EmitJumpIf(condition, false);
      ghost var d2 := State();
      Emitting(d1, d2, JumpIf(condition, false, 0), 0);
      ExprPlace(d, d1, s.condition, condition);
      ok := CompileStatement(s.thenBranch);
      if !ok {
        return;
      }
      ghost var d3 := State();
      StmtPlace(d2, d3, s.thenBranch);
      match s.elseBranch
      case None =>
        IfThenBuilt(s, d, d1, d2, d3, condition);
        PatchJumps([jumpIfFalse]);
      case Some(other) =>
        var jumpOverElse := program.EmitJump();
        ghost var d4 := State();
        Emitting(d3, d4, Jump(0), 0);
        IfHead(s, d, d1, d2, d3, d4, condition);
        PatchJumps([jumpIfFalse]);
        ok := CompileStatement(other);
        if ok {
          IfElseBuilt(s, d, d1, d2, d3, d4, State(), condition);
          PatchJumps([jumpOverElse]);
        }
    }

    /** Compiles a loop body under its own context and jumps back; the result are its `break` jumps. */
    method CompileLoopBody(body: Stmt, continueTarget: nat) returns (ok: bool, breakJumps: seq<nat>, ghost inner: Draft)
      modifies this, program
      ensures ok == StmtOk(body, true)
      ensures ok ==> inner.loops != [] && StmtBuilt(Pushed(old(State()), continueTarget), inner, body)
      ensures ok ==> breakJumps == inner.loops[|inner.loops| - 1].breakJumps
      ensures ok ==> Emits(Popped(inner), State(), Jump(continueTarget), 0)
      decreases body, 3
    {
      hide StmtOk, StmtBuilt, Emits, IRProgram.State, Append, DraftTargets;
      ghost var d := State();
      breakJumps, inner := [], d;
      loopContexts := loopContexts + [LoopContext(continueTarget, [])];
      assert State() == Pushed(d, continueTarget);
      PushedFacts(d, continueTarget);
      ok := CompileStatement(body);
      if !ok {
        return;
      }
      inner := State();
      StmtPlace(Pushed(d, continueTarget), inner, body);
      breakJumps := loopContexts[|loopContexts| - 1].breakJumps;
      loopContexts := loopContexts[..|loopContexts| - 1];
      ghost var popped := State();
      assert popped == Popped(inner);
      program.Emit(Jump(continueTarget));
      Emitting(popped, State(), Jump(continueTarget), 0);
    }

    method CompileWhile(s: Stmt) returns (ok: bool)
      requires s.While?
      modifies this, program
      ensures ok == StmtOk(s, old(loopContexts) != [])
      ensures ok ==> StmtBuilt(old(State()), State(), s)
      decreases s, 1
    {
      hide StmtOk, ExprOk, StmtBuilt, ExprBuilt, Emits, Patchable, Patched, IRProgram.State, Append;
      ghost var d := State();
      WhileOk(s, loopContexts != []);
      var loopStart := program.InstructionCount();
      var condition;
      ok, condition := CompileExpression(s.condition);
      if !ok {
        return;
      }
      ghost var d1 := State();
      var exitJump := program.EmitJumpIf(condition, false);
      ghost var d2 := State();
      Emitting(d1, d2, JumpIf(condition, false, 0), 0);
      var breakJumps;
      ghost var inner;
      ok, breakJumps, inner := CompileLoopBody(s.loopBody, loopStart);
      if !ok {
        return;
      }
      ghost var d4 := State();
      WhileBuilt(s, d, d1, d2, inner, d4, condition);
      PatchJumps([exitJump]);
      PatchJumps(breakJumps);
    }

    /** The increment is compiled before the body: the test jumps over it, the body jumps to it. */
    method CompileFor(s: Stmt) returns (ok: bool)
      requires s.For?
      modifies this, program
      ensures ok == StmtOk(s, old(loopContexts) != [])
      ensures ok ==> StmtBuilt(old(State()), State(), s)
      decreases s, 1
    {
      hide StmtOk, ExprOk, StmtBuilt, OptionBuilt, ForTestBuilt, IncrementBuilt, ForLoopBuilt, Emits, Patchable, Patched,
        IRProgram.State, Append;
      ghost var d := State();
      ForOk(s, loopContexts != []);
      ok := CompileOption(s.init);
      if !ok {
        return;
      }
      ghost var d0 := State();
      var loopStart := program.InstructionCount();
      var exitJumps;
      ok, exitJumps := CompileForTest(s.test);
      if !ok {
        return;
      }
      ghost var d1 := State();
      var jumpOverIncrement := program.EmitJump();
      ghost var d2 := State();
      Emitting(d1, d2, Jump(0), 0);
      var incrementStart := program.InstructionCount();
      ok := CompileIncrement(s.increment);
      if !ok {
        return;
      }
      ghost var d3 := State();
      program.Emit(Jump(loopStart));
      ghost var d4 := State();
      Emitting(d3, d4, Jump(loopStart), 0);
      ForHead(s, d0, d1, d2, d3, d4, exitJumps);
      PatchJumps([jumpOverIncrement]);
      var breakJumps;
      ghost var inner;
      ok, breakJumps, inner := CompileLoopBody(s.loopBody, incrementStart);
      if !ok {
        return;
      }
      ForLoopSteps(s, d0, d1, d2, d3, d4, inner, State(), exitJumps);
      PatchJumps(exitJumps);
      PatchJumps(breakJumps);
      ForStmtBuilt(s, d, d0, State());
    }

    method CompileOption(s: Option<Stmt>) returns (ok: bool)
      modifies this, program
      ensures ok == (s.Some? ==> StmtOk(s.value, old(loopContexts) != []))
      ensures ok ==> OptionBuilt(old(State()), State(), s)
      decreases s, 0
    {
      hide StmtOk, StmtBuilt, OptionBuilt, IRProgram.State;
      ghost var d := State();
      ok := true;
      match s
      case None =>
        NoOption(d);
      case Some(inner) =>
        ok := CompileStatement(inner);
        if ok {
          SomeOption(d, State(), inner);
        }
    }

    method CompileForTest(test: Option<Expr>) returns (ok: bool, exitJumps: seq<nat>)
      modifies this, program
      ensures ok == (test.Some? ==> ExprOk(test.value))
      ensures ok ==> ForTestBuilt(old(State()), State(), test, exitJumps)
      decreases test, 0
    {
      hide ExprOk, ExprBuilt, ForTestBuilt, Emits, IRProgram.State, Append;
      ghost var d := State();
      ok, exitJumps := true, [];
      match test
      case None =>
        NoForTest(d);
      case Some(e) =>
        var condition;
        ok, condition := CompileExpression(e);
        if ok {
          ghost var d1 := State();
          var exitJump := program.EmitJumpIf(condition, false);
          Emitting(d1, State(), JumpIf(condition, false, 0), 0);
          exitJumps := [exitJump];
          SomeForTest(d, d1, State(), e, condition);
        }
    }

    method CompileIncrement(increment: Option<Expr>) returns (ok: bool)
      modifies this, program
      ensures ok == (increment.Some? ==> ExprOk(increment.value))
      ensures ok ==> IncrementBuilt(old(State()), State(), increment)
      decreases increment, 0
    {
      hide ExprOk, ExprBuilt, IncrementBuilt, IRProgram.State;
      ghost var d := State();
      ok := true;
      match increment
      case None =>
        NoIncrement(d);
      case Some(e) =>
        var r;
        ok, r := CompileExpression(e);
        if ok {
          SomeIncrement(d, State(), e, r);
        }
    }

    method MakeSyntheticName(prefix: string) returns (x: VarName)
      modifies this`nextSyntheticName
      ensures x == Synthetic(prefix, old(nextSyntheticName)) && nextSyntheticName == old(nextSyntheticName) + 1
    {
      x := Synthetic(prefix, nextSyntheticName);
      nextSyntheticName := nextSyntheticName + 1;
    }

    method CompileForIn(s: Stmt) returns (ok: bool)
      requires s.ForIn?
      modifies this, program
      ensures ok == StmtOk(s, old(loopContexts) != [])
      ensures ok ==> StmtBuilt(old(State()), State(), s)
      decreases s, 1
    {
      hide StmtOk, ExprOk, StmtBuilt, ExprBuilt, Emits, Built, ForInSetup, ForInTest, ForInIncrement, FetchCode, StmtCode,
        StmtFunctions, StmtEnd, Patchable, Patched, IRProgram.State, Append;
      ghost var d, at := State(), Here(State());
      ForInOk(s, loopContexts != []);
      var iterableName := MakeSyntheticName("for_in_iter");
      var indexName := MakeSyntheticName("for_in_index");
      var lengthName := MakeSyntheticName("for_in_len");
      assert State() == Named(d);
      NamedFacts(d);
      var iterable;
      ok, iterable := CompileExpression(s.iterable);
      if !ok {
        return;
      }
      ghost var d1 := State();
      EmitForInSetup(s.item, iterableName, indexName, lengthName, iterable, at);
      ghost var d2 := State();
      BuiltPlace(d1, d2, ForInSetup(at, s.item, iterable, Here(d1).regs), Skip(Here(d1), 9, 5), []);
      ok := CompileForInLoop(s, iterableName, indexName, lengthName, at);
      if ok {
        ForInBuilt(s, d, d1, d2, State(), iterable);
      }
    }

    method EmitForInSetup(
      item: string, iterableName: VarName, indexName: VarName, lengthName: VarName, iterable: Register, ghost at: Place
    )
      requires iterableName == IterName(at) && indexName == IndexName(at) && lengthName == LengthName(at)
      modifies program
      ensures
        var here := Here(old(State()));
        Built(old(State()), State(), ForInSetup(at, item, iterable, here.regs), Skip(here, 9, 5), [])
    {
      hide IRProgram.State, IterName, IndexName, LengthName;
      ghost var d, code := State(), program.State().active.code;
      var arrayValue := program.EmitCompute(AssertArray, [iterable]);
      program.Emit(StoreVar(iterableName, arrayValue));
      var zero := program.EmitCompute(Constant(Number(0.0)), []);
      program.Emit(StoreVar(indexName, zero));
      var initialItem := program.EmitCompute(Constant(Nil), []);
      program.Emit(StoreVar(User(item), initialItem));
      var loadedArray := program.EmitLoadVar(iterableName);
      var length := program.EmitCompute(Len, [loadedArray]);
      program.Emit(StoreVar(lengthName, length));
      assert program.State().active.code == code + ForInSetup(at, item, iterable, arrayValue);
    }

    /** The test and element fetch, up to the jump over the increment. */
    method EmitFetch(
      item: string, iterableName: VarName, indexName: VarName, lengthName: VarName, ghost at: Place
    ) returns (exitJump: nat)
      requires iterableName == IterName(at) && indexName == IndexName(at) && lengthName == LengthName(at)
      modifies program
      ensures exitJump == Here(old(State())).code + 3
      ensures
        var here := Here(old(State()));
        Built(old(State()), State(), FetchCode(at, item, here.regs, 0), Skip(here, 8, 6), [])
    {
      hide IRProgram.State, IterName, IndexName, LengthName;
      ghost var d, code := State(), program.State().active.code;
      var currentIndex := program.EmitLoadVar(indexName);
      var currentLength := program.EmitLoadVar(lengthName);
      var condition := program.EmitCompute(Compare(Less), [currentIndex, currentLength]);
      exitJump := program.EmitJumpIf(condition, false);
      var arrayForElement := program.EmitLoadVar(iterableName);
      var indexForElement := program.EmitLoadVar(indexName);
      var element := program.EmitCompute(Index, [arrayForElement, indexForElement]);
      program.Emit(AssignVar(User(item), element));
      assert program.State().active.code == code + FetchCode(at, item, currentIndex, 0);
    }

    method EmitForInIncrement(indexName: VarName, loopStart: nat, ghost at: Place)
      requires indexName == IndexName(at)
      modifies program
      ensures
        var here := Here(old(State()));
        Built(old(State()), State(), ForInIncrement(at, loopStart, here.regs), Skip(here, 5, 3), [])
    {
      hide IRProgram.State, IndexName;
      ghost var d, code := State(), program.State().active.code;
      var indexBefore := program.EmitLoadVar(indexName);
      var one := program.EmitCompute(Constant(Number(1.0)), []);
      var nextIndex := program.EmitCompute(Arithmetic(Add), [indexBefore, one]);
      program.Emit(AssignVar(indexName, nextIndex));
      program.Emit(Jump(loopStart));
      assert program.State().active.code == code + ForInIncrement(at, loopStart, indexBefore);
    }

    method CompileForInLoop(
      s: Stmt, iterableName: VarName, indexName: VarName, lengthName: VarName, ghost at: Place
    ) returns (ok: bool)
      requires s.ForIn? && iterableName == IterName(at) && indexName == IndexName(at) && lengthName == LengthName(at)
      modifies this, program
      ensures ok == StmtOk(s.loopBody, true)
      ensures ok ==>
        var here := Here(old(State()));
        var start, r, at2 := here.code, here.regs, Skip(here, 14, 9);
        var end := Skip(StmtEnd(s.loopBody, at2), 1, 0);
        Built(old(State()), State(),
              ForInTest(at, s.item, start, r, end.code) + ForInIncrement(at, start, r + 6)
              + (StmtCode(s.loopBody, at2, Loop(start + 9, end.code)) + [Jump(start + 9)]),
              end, StmtFunctions(s.loopBody, at2))
      decreases s, 0
    {
      hide StmtOk, StmtBuilt, Emits, Built, ForInTest, ForInIncrement, FetchCode, StmtCode, StmtFunctions, StmtEnd, Patchable,
        Patched, IRProgram.State, Append, IterName, IndexName, LengthName;
      ghost var d := State();
      var loopStart := program.InstructionCount();
      var exitJump := EmitFetch(s.item, iterableName, indexName, lengthName, at);
      ghost var d1 := State();
      var jumpOverIncrement := program.EmitJump();
      ghost var d2 := State();
      Emitting(d1, d2, Jump(0), 0);
      var incrementStart := program.InstructionCount();
      EmitForInIncrement(indexName, loopStart, at);
      ghost var d3 := State();
      ForInHead(at, s.item, d, d1, d2, d3);
      PatchJumps([jumpOverIncrement]);
      var breakJumps;
      ghost var inner;
      ok, breakJumps, inner := CompileLoopBody(s.loopBody, incrementStart);
      if !ok {
        return;
      }
      ForInLoop(at, s.item, s.loopBody, d, d1, d2, d3, inner, State());
      PatchJumps([exitJump]);
      PatchJumps(breakJumps);
    }

    /** One arm; its test's fail jumps are patched to what comes after it. */
    method CompileStmtArm(arm: StmtArm, value: Register)
      returns (ok: bool, endJump: nat, ghost tested: Draft, ghost done: Draft, ghost left: Draft)
      modifies this, program
      ensures ok == (PatternOk(arm.pattern) && GuardOk(arm.guard) && StmtOk(arm.body, old(loopContexts) != []))
      ensures ok ==> TestBuilt(old(State()), tested, arm.pattern, arm.guard, value) && StmtBuilt(tested, done, arm.body)
      ensures ok ==> Emits(done, left, Jump(0), 0) && endJump == Here(done).code
      ensures ok ==> State() == Patched(left, TestFails(arm.pattern, arm.guard, Here(old(State()))), Here(left).code)
      decreases arm, 0
    {
      hide StmtOk, StmtBuilt, PatternOk, GuardOk, TestBuilt, TestFails, Emits, Patchable, Patched, IRProgram.State, Append;
      ghost var d := State();
      endJump, tested, done, left := 0, d, d, d;
      var failJumps;
      ok, failJumps := CompileTest(arm.pattern, arm.guard, value);
      if !ok {
        return;
      }
      tested := State();
      TestPlace(d, tested, arm.pattern, arm.guard, value);
      ok := CompileStatement(arm.body);
      if !ok {
        return;
      }
      done := State();
      endJump := program.EmitJump();
      left := State();
      Emitting(done, left, Jump(0), 0);
      StmtArmBuilt(d, tested, done, left, arm, value);
      PatchJumps(failJumps);
    }

    method CompileMatch(s: Stmt) returns (ok: bool)
      requires s.Match?
      modifies this, program
      ensures ok == StmtOk(s, old(loopContexts) != [])
      ensures ok ==> StmtBuilt(old(State()), State(), s)
      decreases s, 1
    {
      hide StmtOk, StmtArmsOk, StmtBuilt, ExprOk, ExprBuilt, PatternOk, GuardOk, TestBuilt, TestFails, Emits, StmtArmsLeft,
        Patchable, Patched, IRProgram.State, Append;
      ghost var d := State();
      MatchOk(s, loopContexts != []);
      var value;
      ok, value := CompileExpression(s.scrutinee);
      if !ok {
        return;
      }
      ghost var d1 := State();
      ExprPlace(d, d1, s.scrutinee, value);
      var rest := s.arms;
      var endJumps: seq<nat> := [];
      ghost var done: seq<Instr>, fs: seq<FunctionBody>, breaks: seq<nat> := [], [], [];
      StmtArmsStart(d1, s.arms, value);
      while rest.Cons?
        invariant StmtArmsLeft(d1, State(), s.arms, rest, value, done, fs, breaks, endJumps)
        invariant rest < s
        decreases rest
      {
        ghost var d2 := State();
        StmtArmsLeftOk(d1, d2, s.arms, rest, value, done, fs, breaks, endJumps);
        StmtArmsOkStep(rest, d1.loops != []);
        var endJump;
        ghost var tested, compiled, left;
        ok, endJump, tested, compiled, left := CompileStmtArm(rest.head, value);
        if !ok {
          return;
        }
        done, fs, breaks :=
          StmtArmsNext(d1, d2, tested, compiled, left, s.arms, rest, value, done, fs, breaks, endJumps);
        endJumps := endJumps + [endJump];
        rest := rest.tail;
      }
      ok := true;
      MatchBuilt(s, d, d1, State(), value, done, fs, breaks, endJumps);
      PatchJumps(endJumps);
    }

  }

  /** The registers that the alternatives of an OR-pattern share. */
  predicate Shared(shared: map<string, Register>, merged: Bound, names: seq<string>, base: Register) {
    && |merged| == |names|
    && (forall i :: 0 <= i < |names| ==>
         names[i] in shared && shared[names[i]] == base + i && merged[i] == (names[i], base + i))
    && (forall n :: n in shared ==> n in names)
  }

  function BoundNames(bs: Bound): (names: seq<string>)
    ensures |names| == |bs| && forall i :: 0 <= i < |bs| ==> names[i] == bs[i].0
  {
    seq(|bs|, i requires 0 <= i < |bs| => bs[i].0)
  }

  lemma OrOk(p: Pattern)
    requires p.OrPattern?
    ensures PatternOk(p)
         == (PatternOk(p.first) && Distinct(PatternNames(p.first)) && AlternativesOk(p.others, PatternNames(p.first)))
  {
  }

  lemma AlternativesOkStep(others: List<Pattern>, names: seq<string>)
    requires others.Cons?
    ensures AlternativesOk(others, names)
         == (PatternOk(others.head) && SameBindings(names, PatternNames(others.head)) && AlternativesOk(others.tail, names))
  {
  }

  lemma FirstBindings(p: Pattern, v: Register, at: Place)
    ensures
      var bs, names := PatternBindings(p, v, at), PatternNames(p);
      |bs| == |names| && forall i :: 0 <= i < |bs| ==> bs[i].0 == names[i]
  {
    PatternSimulation.BindingsFit(p, v, at);
  }

  lemma AlternativeBindings(p: Pattern, v: Register, at: Place)
    ensures BoundNames(PatternBindings(p, v, at)) == PatternNames(p)
  {
    FirstBindings(p, v, at);
  }

  lemma SharedIs(
    shared: map<string, Register>, merged: Bound, names: seq<string>, base: Register, p: Pattern, v: Register, at: Place
  )
    requires p.OrPattern? && names == PatternNames(p.first) && base == PatternEnd(p.first, at).regs
    requires Shared(shared, merged, names, base)
    ensures merged == PatternBindings(p, v, at)
  {
    forall i | 0 <= i < |names| ensures SharedRegisters(names, base)[i] == merged[i] {
      PatternSimulation.SharedAt(names, base, i);
    }
  }

  function SeenNames(bs: Bound, k: nat): set<string>
    requires k <= |bs|
  {
    if k == 0 then {} else SeenNames(bs, k - 1) + {bs[k - 1].0}
  }

  lemma {:induction false} SeenHas(bs: Bound, k: nat, i: nat)
    requires i < k <= |bs|
    ensures bs[i].0 in SeenNames(bs, k)
  {
    if i < k - 1 {
      SeenHas(bs, k - 1, i);
    }
  }

  lemma {:induction false} SeenAt(bs: Bound, k: nat, name: string) returns (i: nat)
    requires k <= |bs| && name in SeenNames(bs, k)
    ensures i < k && bs[i].0 == name
  {
    if name == bs[k - 1].0 {
      i := k - 1;
    } else {
      i := SeenAt(bs, k - 1, name);
    }
  }

  /** The loop state of `MergeBindings` after `k` bindings. */
  predicate Merging(
    bs: Bound, names: seq<string>, base: Register, k: nat, seen: set<string>,
    shared: map<string, Register>, merged: Bound, first: bool
  ) {
    && k <= |bs|
    && seen == SeenNames(bs, k)
    && |seen| == k
    && (forall i :: 0 <= i < k ==> bs[i].0 in names)
    && NamesDistinct(bs, k)
    && if first then
         |bs| == |names| && (forall i :: 0 <= i < |bs| ==> bs[i].0 == names[i]) && SharedSoFar(shared, merged, names, base, k, seen)
       else Shared(shared, merged, names, base) && Distinct(names)
  }

  predicate NamesDistinct(bs: Bound, k: nat)
    requires k <= |bs|
  {
    forall i, j :: 0 <= i < j < k ==> bs[i].0 != bs[j].0
  }

  /** The first alternative has made the first `k` shared registers. */
  predicate SharedSoFar(
    shared: map<string, Register>, merged: Bound, names: seq<string>, base: Register, k: nat, seen: set<string>
  ) {
    && k <= |names| && |merged| == k && shared.Keys == seen
    && forall i :: 0 <= i < k ==> names[i] in shared && shared[names[i]] == base + i && merged[i] == (names[i], base + i)
  }

  lemma MergingStart(
    bs: Bound, names: seq<string>, base: Register, shared: map<string, Register>, merged: Bound, first: bool
  )
    requires
      if first then
        shared == map[] && merged == [] && |bs| == |names| && forall i :: 0 <= i < |bs| ==> bs[i].0 == names[i]
      else Shared(shared, merged, names, base) && Distinct(names)
    ensures Merging(bs, names, base, 0, {}, shared, merged, first)
  {
  }

  /** A name outside the merged ones, or one bound twice, is a mismatch. */
  lemma Clash(
    bs: Bound, names: seq<string>, base: Register, k: nat, seen: set<string>, shared: map<string, Register>,
    merged: Bound, first: bool
  )
    requires k < |bs| && Merging(bs, names, base, k, seen, shared, merged, first)
    requires bs[k].0 !in names || bs[k].0 in seen
    ensures first ==> !Distinct(names)
    ensures !SameBindings(names, BoundNames(bs))
  {
    var bound := BoundNames(bs);
    assert bound[k] in bound;
    if bs[k].0 in seen {
      var i := SeenAt(bs, k, bs[k].0);
      assert bound[i] == bound[k];
    }
  }

  lemma MergePlace(
    d: Draft, d': Draft, bs: Bound, k: nat, names: seq<string>, base: Register, regs: nat, done: seq<Instr>
  )
    requires MergeLeft(d, d', bs, k, names, base, regs, done)
    ensures Here(d').regs == Here(d).regs + regs
  {
    BuiltPlace(d, d', done, Skip(Here(d), k, regs), []);
  }

  lemma TargetIs(
    bs: Bound, names: seq<string>, base: Register, k: nat, shared: map<string, Register>, merged: Bound,
    shared': map<string, Register>, first: bool
  )
    requires k < |bs| && bs[k].0 in names && forall i :: 0 <= i < k ==> bs[i].0 != bs[k].0
    requires
      if first then
        |bs| == |names| && (forall i :: 0 <= i < |bs| ==> bs[i].0 == names[i]) && shared' == shared[bs[k].0 := base + k]
      else Shared(shared, merged, names, base) && shared' == shared
    ensures bs[k].0 in shared' && shared'[bs[k].0] == base + IndexOf(names, bs[k].0)
  {
    if first {
      assert names[k] !in names[..k];
      IndexOfFirst(names, k);
    } else {
      PatternSimulation.IndexOfMember(names, bs[k].0);
    }
  }

  /** A shared register exists exactly when the name is not new. */
  lemma MergingShared(
    bs: Bound, names: seq<string>, base: Register, k: nat, seen: set<string>, shared: map<string, Register>,
    merged: Bound, first: bool
  )
    requires k < |bs| && Merging(bs, names, base, k, seen, shared, merged, first)
    requires bs[k].0 in names && bs[k].0 !in seen
    ensures bs[k].0 in shared <==> !first
  {
  }

  lemma MergingNext(
    bs: Bound, names: seq<string>, base: Register, k: nat, seen: set<string>,
    shared: map<string, Register>, merged: Bound, shared': map<string, Register>, merged': Bound, first: bool
  )
    requires k < |bs| && Merging(bs, names, base, k, seen, shared, merged, first)
    requires bs[k].0 in names && bs[k].0 !in seen
    requires
      if bs[k].0 in shared then shared' == shared && merged' == merged
      else shared' == shared[bs[k].0 := base + k] && merged' == merged + [(bs[k].0, base + k)]
    ensures bs[k].0 in shared' && shared'[bs[k].0] == base + IndexOf(names, bs[k].0)
    ensures first ==> bs[k].0 !in shared
    ensures Merging(bs, names, base, k + 1, seen + {bs[k].0}, shared', merged', first)
  {
    hide *;
    var name := bs[k].0;
    MergingParts(bs, names, base, k, seen, shared, merged, first);
    forall i | 0 <= i < k ensures bs[i].0 != name {
      SeenHas(bs, k, i);
    }
    MergingShared(bs, names, base, k, seen, shared, merged, first);
    TargetIs(bs, names, base, k, shared, merged, shared', first);
    MergingExtended(bs, names, base, k, seen, shared, merged, shared', merged', first);
  }

  lemma MergingParts(
    bs: Bound, names: seq<string>, base: Register, k: nat, seen: set<string>, shared: map<string, Register>,
    merged: Bound, first: bool
  )
    requires k < |bs| && Merging(bs, names, base, k, seen, shared, merged, first)
    ensures seen == SeenNames(bs, k)
    ensures
      if first then |bs| == |names| && forall i :: 0 <= i < |bs| ==> bs[i].0 == names[i]
      else Shared(shared, merged, names, base)
  {
    hide Shared, Distinct, SeenNames;
  }

  lemma MergingExtended(
    bs: Bound, names: seq<string>, base: Register, k: nat, seen: set<string>,
    shared: map<string, Register>, merged: Bound, shared': map<string, Register>, merged': Bound, first: bool
  )
    requires k < |bs| && Merging(bs, names, base, k, seen, shared, merged, first)
    requires bs[k].0 in names && bs[k].0 !in seen && forall i :: 0 <= i < k ==> bs[i].0 != bs[k].0
    requires
      if first then shared' == shared[bs[k].0 := base + k] && merged' == merged + [(bs[k].0, base + k)]
      else shared' == shared && merged' == merged
    ensures Merging(bs, names, base, k + 1, seen + {bs[k].0}, shared', merged', first)
  {
    hide Shared, Distinct, SharedSoFar, NamesDistinct;
    DistinctMore(bs, k);
    if first {
      SharedMore(shared, merged, names, base, k, seen);
    }
  }

  lemma DistinctMore(bs: Bound, k: nat)
    requires k < |bs| && NamesDistinct(bs, k) && forall i :: 0 <= i < k ==> bs[i].0 != bs[k].0
    ensures NamesDistinct(bs, k + 1)
  {
  }

  lemma SharedMore(
    shared: map<string, Register>, merged: Bound, names: seq<string>, base: Register, k: nat, seen: set<string>
  )
    requires k < |names| && SharedSoFar(shared, merged, names, base, k, seen) && names[k] !in seen
    ensures SharedSoFar(shared[names[k] := base + k], merged + [(names[k], base + k)], names, base, k + 1, seen + {names[k]})
  {
  }

  /** Distinct names, all of them merged names: they are all the merged names exactly when the counts agree. */
  lemma MergingDone(
    bs: Bound, names: seq<string>, base: Register, seen: set<string>, shared: map<string, Register>, merged: Bound,
    first: bool
  )
    requires Merging(bs, names, base, |bs|, seen, shared, merged, first)
    ensures first ==> Distinct(names) && |seen| == |(set n | n in names)|
    ensures !first ==> (|seen| == |(set n | n in names)|) == SameBindings(names, BoundNames(bs))
    ensures Shared(shared, merged, names, base)
  {
    if first {
      forall n | n in names ensures n in seen {
        var i :| 0 <= i < |names| && names[i] == n;
        SeenHas(bs, |bs|, i);
      }
      forall n | n in seen ensures n in names {
        var i := SeenAt(bs, |bs|, n);
      }
      assert seen == set n | n in names;
    } else {
      PatternSimulation.NamesCount(names);
      var bound := BoundNames(bs);
      forall n | n in bound ensures n in names {
        var i :| 0 <= i < |bound| && bound[i] == n;
        assert bs[i].0 in names;
      }
    }
  }

  /** What lowering accepts, one level down. */
  lemma LeafOk(e: Expr)
    ensures e.Literal? || e.Variable? ==> ExprOk(e)
    ensures e.Assign? || e.CompoundAssign? ==> ExprOk(e) == ExprOk(e.value)
    ensures e.IndexCompoundAssign? ==> ExprOk(e) == (ExprOk(e.collection) && ExprOk(e.index) && ExprOk(e.value))
    ensures e.FieldCompoundAssign? ==> ExprOk(e) == (ExprOk(e.target) && ExprOk(e.value))
    ensures e.Operation? ==> ExprOk(e) == (OperandsFit(e.prim, Length(e.operands)) && ExprsOk(e.operands))
    ensures e.Logical? ==> ExprOk(e) == (ExprOk(e.left) && ExprOk(e.right))
    ensures e.MatchExpr? ==> ExprOk(e) == (ExprOk(e.scrutinee) && ExprArmsOk(e.arms))
    ensures e.Lambda? ==> ExprOk(e) == StmtsOk(e.def.body, false)
  {
    hide OperandsFit;
  }

  lemma GroupingSame(e: Expr, d: Draft, d': Draft, result: Register)
    requires e.Grouping?
    ensures ExprOk(e) == ExprOk(e.inner) && (ExprBuilt(d, d', e, result) <==> ExprBuilt(d, d', e.inner, result))
  {
    hide Built;
  }

  lemma OperandsLeftOk(
    d: Draft, d': Draft, es: List<Expr>, rest: List<Expr>, done: seq<Instr>, fs: seq<FunctionBody>, results: seq<Register>
  )
    requires OperandsLeft(d, d', es, rest, done, fs, results)
    ensures ExprsOk(rest) == ExprsOk(es) && (rest.Cons? ==> ExprsOk(rest) == (ExprOk(rest.head) && ExprsOk(rest.tail)))
  {
    hide ExprOk;
  }

  lemma SimpleOk(s: Stmt, inLoop: bool)
    ensures s.Let? ==> StmtOk(s, inLoop) == ExprOk(s.initializer)
    ensures s.Print? || s.Evaluate? ==> StmtOk(s, inLoop) == ExprOk(s.value)
    ensures s.Return? ==> StmtOk(s, inLoop) == (s.result.Some? ==> ExprOk(s.result.value))
    ensures s.Break? || s.Continue? ==> StmtOk(s, inLoop) == inLoop
    ensures s.Block? ==> StmtOk(s, inLoop) == StmtsOk(s.body, inLoop)
    ensures s.Function? ==> StmtOk(s, inLoop) == StmtsOk(s.def.body, false)
  {
    hide ExprOk, StmtsOk;
  }

  lemma StmtsLeftOk(
    d: Draft, d': Draft, ss: List<Stmt>, rest: List<Stmt>, done: seq<Instr>, fs: seq<FunctionBody>, breaks: seq<nat>
  )
    requires StmtsLeft(d, d', ss, rest, done, fs, breaks)
    ensures (d'.loops == []) == (d.loops == []) && StmtsOk(rest, d.loops != []) == StmtsOk(ss, d.loops != [])
    ensures rest.Cons? ==>
      StmtsOk(rest, d.loops != []) == (StmtOk(rest.head, d.loops != []) && StmtsOk(rest.tail, d.loops != []))
  {
    hide StmtOk, StmtsCode, StmtsFunctions, StmtsBreaks, StmtsEnd, DraftTargets;
    GrownPlace(d, d', done, Here(d'), fs, breaks);
  }

  lemma StmtArmsLeftOk(
    d: Draft, d': Draft, arms: List<StmtArm>, rest: List<StmtArm>, v: Register,
    done: seq<Instr>, fs: seq<FunctionBody>, breaks: seq<nat>, ends: seq<nat>
  )
    requires StmtArmsLeft(d, d', arms, rest, v, done, fs, breaks, ends)
    ensures (d'.loops == []) == (d.loops == []) && StmtArmsOk(rest, d.loops != []) == StmtArmsOk(arms, d.loops != [])
  {
    hide *;
    StmtArmsLeftParts(d, d', arms, rest, v, done, fs, breaks, ends);
    GrownPlace(d, d', done, Here(d'), fs, breaks);
  }
}
