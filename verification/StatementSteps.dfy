/** Compilation steps of match arms, functions and statements. */
module StatementSteps {
  import opened Wrappers
  import opened Runtime
  import opened Ast
  import opened IR
  import opened Lowering
  import opened FunctionTables
  import opened CodeEquations
  import opened BackPatching
  import opened IRBuilder
  import opened Drafts
  import opened CompilerSteps
  import opened PatternSteps

  // -------------------------------------------------------------------- arm tests

  predicate StoresLeft(d: Draft, d': Draft, bs: Bound, k: nat, done: seq<Instr>) {
    && k <= |bs|
    && Built(d, d', done, Skip(Here(d), k, 0), [])
    && done + StoreBindings(bs[k..]) == StoreBindings(bs)
  }

  lemma StoresStart(d: Draft, bs: Bound)
    ensures StoresLeft(d, d, bs, 0, [])
  {
    BuiltNothing(d);
    assert bs[0..] == bs;
  }

  lemma StoresNext(d: Draft, d1: Draft, d2: Draft, bs: Bound, k: nat, done: seq<Instr>)
    requires StoresLeft(d, d1, bs, k, done) && k < |bs| && Emits(d1, d2, StoreVar(User(bs[k].0), bs[k].1), 0)
    ensures StoresLeft(d, d2, bs, k + 1, done + [StoreVar(User(bs[k].0), bs[k].1)])
  {
    hide Built, Emits;
    var store := StoreVar(User(bs[k].0), bs[k].1);
    ThenEmits(d, d1, d2, done, Skip(Here(d), k, 0), [], store, 0);
    SkipTwice(Here(d), k, 0, 1, 0);
    assert bs[k..][1..] == bs[k + 1..];
    assert StoreBindings(bs[k..]) == [store] + StoreBindings(bs[k + 1..]);
    assert done + ([store] + StoreBindings(bs[k + 1..])) == done + [store] + StoreBindings(bs[k + 1..]);
  }

  lemma StoresDone(d: Draft, d': Draft, bs: Bound, done: seq<Instr>)
    requires StoresLeft(d, d', bs, |bs|, done)
    ensures Built(d, d', StoreBindings(bs), Skip(Here(d), |bs|, 0), [])
  {
    hide Built;
    assert bs[|bs|..] == [] && done + [] == done;
  }

  predicate TestBuilt(d: Draft, d': Draft, pattern: Pattern, guard: Option<Expr>, v: Register) {
    var at1 := GuardPlace(pattern, Here(d));
    Built(d, d', TestCode(pattern, guard, v, Here(d), 0), GuardEnd(guard, at1), GuardFunctions(guard, at1))
  }

  lemma TestPlace(d: Draft, d': Draft, pattern: Pattern, guard: Option<Expr>, v: Register)
    requires TestBuilt(d, d', pattern, guard, v)
    ensures
      var at1 := GuardPlace(pattern, Here(d));
      && Built(d, d', TestCode(pattern, guard, v, Here(d), 0), GuardEnd(guard, at1), GuardFunctions(guard, at1))
      && Here(d') == GuardEnd(guard, at1) && d'.loops == d.loops
  {
    hide Built, TestCode, GuardEnd, GuardFunctions, GuardPlace;
    var at1 := GuardPlace(pattern, Here(d));
    BuiltPlace(d, d', TestCode(pattern, guard, v, Here(d), 0), GuardEnd(guard, at1), GuardFunctions(guard, at1));
  }

  lemma IsTest(
    d: Draft, d': Draft, pattern: Pattern, guard: Option<Expr>, v: Register, code: seq<Instr>, end: Place, fs: seq<FunctionBody>
  )
    requires Built(d, d', code, end, fs) && code == TestCode(pattern, guard, v, Here(d), 0)
    requires end == GuardEnd(guard, GuardPlace(pattern, Here(d)))
    requires fs == GuardFunctions(guard, GuardPlace(pattern, Here(d)))
    ensures TestBuilt(d, d', pattern, guard, v)
  {
  }

  lemma BindSteps(d: Draft, d1: Draft, d2: Draft, pattern: Pattern, v: Register)
    requires PatternBuilt(d, d1, pattern, v)
    requires
      var bs := PatternBindings(pattern, v, Here(d));
      Built(d1, d2, StoreBindings(bs), Skip(Here(d1), |bs|, 0), [])
    ensures Built(d, d2, PatternCode(pattern, v, Here(d), 0) + StoreBindings(PatternBindings(pattern, v, Here(d))),
                  GuardPlace(pattern, Here(d)), [])
  {
    hide *;
    var at := Here(d);
    var bs := PatternBindings(pattern, v, at);
    PatternPlace(d, d1, pattern, v);
    BuiltMore(d, d1, d2, PatternCode(pattern, v, at, 0), PatternEnd(pattern, at), [], StoreBindings(bs),
              Skip(PatternEnd(pattern, at), |bs|, 0));
    GuardPlaceIs(pattern, v, at);
  }

  lemma GuardPlaceIs(pattern: Pattern, v: Register, at: Place)
    ensures GuardPlace(pattern, at) == Skip(PatternEnd(pattern, at), |PatternBindings(pattern, v, at)|, 0)
  {
    hide PatternEnd, PatternBindings;
  }

  lemma TestWithoutGuard(d: Draft, d1: Draft, d2: Draft, pattern: Pattern, v: Register)
    requires PatternBuilt(d, d1, pattern, v)
    requires
      var bs := PatternBindings(pattern, v, Here(d));
      Built(d1, d2, StoreBindings(bs), Skip(Here(d1), |bs|, 0), [])
    ensures TestBuilt(d, d2, pattern, None, v) && TestFails(pattern, None, Here(d)) == FailJumps(pattern, Here(d))
  {
    hide *;
    var at := Here(d);
    BindSteps(d, d1, d2, pattern, v);
    TestParts(pattern, None, v, at, 0);
    NoGuardParts(GuardPlace(pattern, at));
    assert FailJumps(pattern, at) + [] == FailJumps(pattern, at);
    IsTest(d, d2, pattern, None, v, PatternCode(pattern, v, at, 0) + StoreBindings(PatternBindings(pattern, v, at)),
           GuardPlace(pattern, at), []);
  }

  lemma NoGuardParts(at: Place)
    ensures GuardEnd(None, at) == at && GuardFunctions(None, at) == []
  {
  }

  lemma GuardParts(g: Expr, at: Place)
    ensures GuardEnd(Some(g), at) == Skip(ExprEnd(g, at), 1, 0) && GuardFunctions(Some(g), at) == ExprFunctions(g, at)
    ensures GuardCode(Some(g), at, 0) == ExprCode(g, at) + [JumpIf(ResultOf(g, at), false, 0)]
  {
    hide ExprEnd, ExprFunctions, ExprCode, ResultOf;
  }

  lemma TestWithGuard(
    d: Draft, d1: Draft, d2: Draft, d3: Draft, d4: Draft, pattern: Pattern, g: Expr, v: Register, r: Register
  )
    requires PatternBuilt(d, d1, pattern, v)
    requires
      var bs := PatternBindings(pattern, v, Here(d));
      Built(d1, d2, StoreBindings(bs), Skip(Here(d1), |bs|, 0), [])
    requires ExprBuilt(d2, d3, g, r) && Emits(d3, d4, JumpIf(r, false, 0), 0)
    ensures TestBuilt(d, d4, pattern, Some(g), v)
    ensures TestFails(pattern, Some(g), Here(d)) == FailJumps(pattern, Here(d)) + [Here(d3).code]
  {
    hide *;
    var at := Here(d);
    var at1 := GuardPlace(pattern, at);
    var bind := PatternCode(pattern, v, at, 0) + StoreBindings(PatternBindings(pattern, v, at));
    BindSteps(d, d1, d2, pattern, v);
    ThenExpr(d, d2, d3, bind, at1, [], g, r);
    ThenEmits(d, d3, d4, bind + ExprCode(g, at1), ExprEnd(g, at1), [] + ExprFunctions(g, at1), JumpIf(r, false, 0), 0);
    TestParts(pattern, Some(g), v, at, 0);
    GuardParts(g, at1);
    assert [] + ExprFunctions(g, at1) == ExprFunctions(g, at1);
    IsTest(d, d4, pattern, Some(g), v, bind + ExprCode(g, at1) + [JumpIf(r, false, 0)], Skip(ExprEnd(g, at1), 1, 0),
           ExprFunctions(g, at1));
  }

  // ------------------------------------------------------------- match expressions

  predicate ExprArmsLeft(
    d: Draft, d': Draft, arms: List<ExprArm>, rest: List<ExprArm>, v: Register, result: Register,
    done: seq<Instr>, fs: seq<FunctionBody>, ends: seq<nat>
  ) {
    var at, here := Here(d), Here(d');
    && Built(d, d', done, here, fs)
    && done + ExprArmsCode(rest, v, result, here, 0) == ExprArmsCode(arms, v, result, at, 0)
    && fs + ExprArmsFunctions(rest, here) == ExprArmsFunctions(arms, at)
    && ends + ExprArmEnds(rest, here) == ExprArmEnds(arms, at)
    && ExprArmsEnd(rest, here) == ExprArmsEnd(arms, at)
    && ExprArmsOk(rest) == ExprArmsOk(arms)
  }

  lemma ExprArmsStart(d: Draft, arms: List<ExprArm>, v: Register, result: Register)
    ensures ExprArmsLeft(d, d, arms, arms, v, result, [], [], [])
  {
    hide ExprArmsCode, ExprArmsFunctions, ExprArmEnds, ExprArmsEnd, ExprArmsOk;
    BuiltNothing(d);
  }

  /** One arm: test, value, copy, jump, with the test's fail jumps sent to the next arm. */
  predicate ExprArmDone(d: Draft, d': Draft, arm: ExprArm, v: Register, result: Register, endJump: nat) {
    var at := Here(d);
    var at1 := GuardPlace(arm.pattern, at);
    var at2 := GuardEnd(arm.guard, at1);
    var next := Skip(ExprEnd(arm.value, at2), 2, 0);
    && endJump == ExprEnd(arm.value, at2).code + 1
    && Built(d, d', TestCode(arm.pattern, arm.guard, v, at, next.code) + ExprCode(arm.value, at2)
                    + [Copy(result, ResultOf(arm.value, at2)), Jump(0)],
             next, GuardFunctions(arm.guard, at1) + ExprFunctions(arm.value, at2))
  }

  lemma ExprArmBuilt(
    d: Draft, d2: Draft, d3: Draft, d4: Draft, d5: Draft, arm: ExprArm, v: Register, result: Register, value: Register
  )
    requires TestBuilt(d, d2, arm.pattern, arm.guard, v) && ExprBuilt(d2, d3, arm.value, value)
    requires Emits(d3, d4, Copy(result, value), 0) && Emits(d4, d5, Jump(0), 0)
    ensures
      var fails := TestFails(arm.pattern, arm.guard, Here(d));
      && Patchable(d5.build.active.code, 0, fails)
      && ExprArmDone(d, Patched(d5, fails, Here(d5).code), arm, v, result, Here(d4).code)
  {
    hide *;
    var at := Here(d);
    var at1 := GuardPlace(arm.pattern, at);
    var at2 := GuardEnd(arm.guard, at1);
    var end := ExprEnd(arm.value, at2);
    var next := Skip(end, 2, 0);
    var test, code := TestCode(arm.pattern, arm.guard, v, at, 0), ExprCode(arm.value, at2);
    var fs := GuardFunctions(arm.guard, at1) + ExprFunctions(arm.value, at2);
    var copy, fails := Copy(result, value), TestFails(arm.pattern, arm.guard, at);
    TestPlace(d, d2, arm.pattern, arm.guard, v);
    ThenExpr(d, d2, d3, test, at2, GuardFunctions(arm.guard, at1), arm.value, value);
    ThenEmits(d, d3, d4, test + code, end, fs, copy, 0);
    ThenEmits(d, d4, d5, test + code + [copy], Skip(end, 1, 0), fs, Jump(0), 0);
    SkipTwice(end, 1, 0, 1, 0);
    SkipSizes(end, 1, 0);
    TestPatched(arm.pattern, arm.guard, v, at, 0, next.code);
    PatchBefore(test, code + [copy] + [Jump(0)], at.code, fails, next.code);
    assert test + code + [copy] + [Jump(0)] == test + (code + [copy] + [Jump(0)]);
    BuiltPatched(d, d5, test + (code + [copy] + [Jump(0)]), next, fs, fails, next.code);
    var test' := TestCode(arm.pattern, arm.guard, v, at, next.code);
    assert test' + (code + [copy] + [Jump(0)]) == test' + code + [copy, Jump(0)];
    ExprArmDoneIs(d, Patched(d5, fails, next.code), arm, v, result, Here(d4).code);
  }

  lemma ExprArmDoneIs(d: Draft, d': Draft, arm: ExprArm, v: Register, result: Register, endJump: nat)
    ensures
      var at := Here(d);
      var at1 := GuardPlace(arm.pattern, at);
      var at2 := GuardEnd(arm.guard, at1);
      var next := Skip(ExprEnd(arm.value, at2), 2, 0);
      ExprArmDone(d, d', arm, v, result, endJump)
      <==> && endJump == ExprEnd(arm.value, at2).code + 1
           && Built(d, d', TestCode(arm.pattern, arm.guard, v, at, next.code) + ExprCode(arm.value, at2)
                           + [Copy(result, ResultOf(arm.value, at2)), Jump(0)],
                    next, GuardFunctions(arm.guard, at1) + ExprFunctions(arm.value, at2))
  {
    hide Built, TestCode, GuardFunctions, ExprCode, ExprFunctions, ExprEnd, ResultOf, GuardEnd, GuardPlace;
  }

  lemma ExprArmsOkStep(arms: List<ExprArm>)
    requires arms.Cons?
    ensures ExprArmsOk(arms)
         == (PatternOk(arms.head.pattern) && GuardOk(arms.head.guard) && ExprOk(arms.head.value) && ExprArmsOk(arms.tail))
  {
  }

  lemma GuardOkIs(guard: Option<Expr>)
    ensures GuardOk(guard) == (guard.Some? ==> ExprOk(guard.value))
  {
  }

  lemma TestCodeIs(pattern: Pattern, guard: Option<Expr>, v: Register, at: Place, fail: nat)
    ensures TestCode(pattern, guard, v, at, fail)
         == BindCode(pattern, v, at, fail) + GuardCode(guard, GuardPlace(pattern, at), fail)
  {
    hide BindCode, GuardCode, GuardPlace;
  }

  lemma ExprArmsNext(
    d: Draft, d1: Draft, d6: Draft, arms: List<ExprArm>, rest: List<ExprArm>, v: Register, result: Register,
    done: seq<Instr>, fs: seq<FunctionBody>, ends: seq<nat>, endJump: nat
  ) returns (done': seq<Instr>, fs': seq<FunctionBody>)
    requires rest.Cons? && ExprArmsLeft(d, d1, arms, rest, v, result, done, fs, ends)
    requires ExprArmDone(d1, d6, rest.head, v, result, endJump)
    requires PatternOk(rest.head.pattern) && GuardOk(rest.head.guard) && ExprOk(rest.head.value)
    ensures ExprArmsLeft(d, d6, arms, rest.tail, v, result, done', fs', ends + [endJump])
  {
    hide *;
    var arm, here := rest.head, Here(d1);
    var at1 := GuardPlace(arm.pattern, here);
    var at2 := GuardEnd(arm.guard, at1);
    var next := Skip(ExprEnd(arm.value, at2), 2, 0);
    var code := TestCode(arm.pattern, arm.guard, v, here, next.code) + ExprCode(arm.value, at2)
                + [Copy(result, ResultOf(arm.value, at2)), Jump(0)];
    var armFs := GuardFunctions(arm.guard, at1) + ExprFunctions(arm.value, at2);
    ExprArmDoneIs(d1, d6, arm, v, result, endJump);
    ExprArmsLeftParts(d, d1, arms, rest, v, result, done, fs, ends);
    BuiltThen(d, d1, d6, done, here, fs, code, next, armFs);
    BuiltPlace(d, d6, done + code, next, fs + armFs);
    ExprArmsParts(rest, v, result, here, 0);
    TestCodeIs(arm.pattern, arm.guard, v, here, next.code);
    ExprArmEndsStep(rest, here);
    ExprArmsOkStep(rest);
    done', fs' := done + code, fs + armFs;
    var tail, tailFs := ExprArmsCode(rest.tail, v, result, next, 0), ExprArmsFunctions(rest.tail, next);
    assert done + (code + tail) == done + code + tail;
    assert fs + (armFs + tailFs) == fs + armFs + tailFs;
    assert ends + ([endJump] + ExprArmEnds(rest.tail, next)) == ends + [endJump] + ExprArmEnds(rest.tail, next);
    IsExprArmsLeft(d, d6, arms, rest.tail, v, result, done', fs', ends + [endJump]);
  }

  lemma ExprArmsLeftParts(
    d: Draft, d': Draft, arms: List<ExprArm>, rest: List<ExprArm>, v: Register, result: Register,
    done: seq<Instr>, fs: seq<FunctionBody>, ends: seq<nat>
  )
    requires ExprArmsLeft(d, d', arms, rest, v, result, done, fs, ends)
    ensures Built(d, d', done, Here(d'), fs)
    ensures done + ExprArmsCode(rest, v, result, Here(d'), 0) == ExprArmsCode(arms, v, result, Here(d), 0)
    ensures fs + ExprArmsFunctions(rest, Here(d')) == ExprArmsFunctions(arms, Here(d))
    ensures ends + ExprArmEnds(rest, Here(d')) == ExprArmEnds(arms, Here(d))
    ensures ExprArmsEnd(rest, Here(d')) == ExprArmsEnd(arms, Here(d)) && ExprArmsOk(rest) == ExprArmsOk(arms)
  {
    hide Built, ExprArmsCode, ExprArmsFunctions, ExprArmEnds, ExprArmsEnd, ExprArmsOk;
  }

  lemma IsExprArmsLeft(
    d: Draft, d': Draft, arms: List<ExprArm>, rest: List<ExprArm>, v: Register, result: Register,
    done: seq<Instr>, fs: seq<FunctionBody>, ends: seq<nat>
  )
    requires Built(d, d', done, Here(d'), fs)
    requires done + ExprArmsCode(rest, v, result, Here(d'), 0) == ExprArmsCode(arms, v, result, Here(d), 0)
    requires fs + ExprArmsFunctions(rest, Here(d')) == ExprArmsFunctions(arms, Here(d))
    requires ends + ExprArmEnds(rest, Here(d')) == ExprArmEnds(arms, Here(d))
    requires ExprArmsEnd(rest, Here(d')) == ExprArmsEnd(arms, Here(d)) && ExprArmsOk(rest) == ExprArmsOk(arms)
    ensures ExprArmsLeft(d, d', arms, rest, v, result, done, fs, ends)
  {
    hide Built, ExprArmsCode, ExprArmsFunctions, ExprArmEnds, ExprArmsEnd, ExprArmsOk;
  }

  lemma MatchExprBuilt(
    e: Expr, d: Draft, d1: Draft, d2: Draft, d3: Draft, v: Register, result: Register,
    done: seq<Instr>, fs: seq<FunctionBody>, ends: seq<nat>
  )
    requires e.MatchExpr? && ExprBuilt(d, d1, e.scrutinee, v) && result == Here(d1).regs
    requires d2 == Draft(Append(d1.build, [], d1.build.active.registerCount + 1, []), d1.loops, d1.serial)
    requires ExprArmsLeft(d2, d3, e.arms, Empty, v, result, done, fs, ends)
    ensures Patchable(d3.build.active.code, 0, ends) && ExprArmsOk(e.arms)
    ensures ExprBuilt(d, Patched(d3, ends, Here(d3).code), e, result)
  {
    hide *;
    var at := Here(d);
    var end1 := ExprEnd(e.scrutinee, at);
    var at1 := Skip(end1, 0, 1);
    var code0, fs0 := ExprCode(e.scrutinee, at), ExprFunctions(e.scrutinee, at);
    ExprPlace(d, d1, e.scrutinee, v);
    BuiltRegister(d1, d2);
    BuiltMore(d, d1, d2, code0, end1, fs0, [], at1);
    BuiltPlace(d1, d2, [], at1, []);
    ExprArmsLeftParts(d2, d3, e.arms, Empty, v, result, done, fs, ends);
    NoExprArmParts(v, result, Here(d3));
    assert done + [] == done && fs + [] == fs && ends + [] == ends && code0 + [] == code0;
    var end := Here(d3);
    ExprArmEndsPatched(e.arms, v, result, at1, 0, end.code);
    BuiltPatched(d2, d3, done, end, fs, ends, end.code);
    var arms := ExprArmsCode(e.arms, v, result, at1, end.code);
    BuiltThen(d, d2, Patched(d3, ends, end.code), code0, at1, fs0, arms, end, fs);
    MatchExprParts(e, at);
    IsExpr(d, Patched(d3, ends, end.code), e, result, code0 + arms, end, fs0 + fs);
  }

  lemma NoExprArmParts(v: Register, result: Register, at: Place)
    ensures ExprArmsCode(Empty, v, result, at, 0) == [] && ExprArmsFunctions(Empty, at) == []
    ensures ExprArmEnds(Empty, at) == [] && ExprArmsEnd(Empty, at) == at && ExprArmsOk(Empty)
  {
  }

  // ------------------------------------------------------------------- functions

  predicate StmtsBuilt(d: Draft, d': Draft, ss: List<Stmt>) {
    var at := Here(d);
    Grown(d, d', StmtsCode(ss, at, DraftTargets(d.loops)), StmtsEnd(ss, at), StmtsFunctions(ss, at), StmtsBreaks(ss, at))
  }

  lemma GrownNoLoop(d: Draft, d': Draft, code: seq<Instr>, end: Place, fs: seq<FunctionBody>, breaks: seq<nat>)
    requires d.loops == [] && Grown(d, d', code, end, fs, breaks)
    ensures Built(d, d', code, end, fs)
  {
  }

  lemma FunctionBuilt(d: Draft, d1: Draft, d2: Draft, d3: Draft, f: FunctionDef, r: Register)
    requires StmtsBuilt(Opened(d, f), d1, f.body) && r == Here(d1).regs
    requires Emits(d1, d2, Compute(r, Constant(Nil), []), 1) && Emits(d2, d3, ReturnValue(r), 0)
    ensures d3.build.outer != []
    ensures Built(d, Draft(Ended(d3.build), d.loops, d3.serial), [], FunctionEnd(f, Here(d)), FunctionTable(f, Here(d)))
    ensures |d3.build.functions| == StmtsEnd(f.body, Inner(Here(d))).fns
  {
    hide *;
    var at, d0 := Here(d), Opened(d, f);
    var start := Inner(at);
    var code, end, fs := StmtsCode(f.body, start, NoLoop), StmtsEnd(f.body, start), StmtsFunctions(f.body, start);
    var load, leave := Compute(r, Constant(Nil), []), ReturnValue(r);
    OpenedFacts(d, f);
    StmtsBuiltIs(d0, d1, f.body);
    GrownNoLoop(d0, d1, code, end, fs, StmtsBreaks(f.body, start));
    BuiltPlace(d0, d1, code, end, fs);
    ThenEmits(d0, d1, d2, code, end, fs, load, 1);
    ThenEmits(d0, d2, d3, code + [load], Skip(end, 1, 1), fs, leave, 0);
    SkipTwice(end, 1, 1, 1, 0);
    assert code + [load] + [leave] == code + [load, leave];
    BodyCodeIs(f.body, at);
    FunctionClosed(d, d3, f, code + [load, leave], Skip(end, 2, 1), fs);
  }

  lemma BodyCodeIs(body: List<Stmt>, at: Place)
    ensures
      var r := StmtsEnd(body, Inner(at)).regs;
      BodyCode(body, at) == StmtsCode(body, Inner(at), NoLoop) + [Compute(r, Constant(Nil), []), ReturnValue(r)]
  {
    hide StmtsCode, StmtsEnd;
  }

  lemma StmtsBuiltIs(d: Draft, d': Draft, ss: List<Stmt>)
    ensures StmtsBuilt(d, d', ss)
        <==> var at := Here(d);
             Grown(d, d', StmtsCode(ss, at, DraftTargets(d.loops)), StmtsEnd(ss, at), StmtsFunctions(ss, at),
                   StmtsBreaks(ss, at))
  {
    hide Grown, StmtsCode, StmtsEnd, StmtsFunctions, StmtsBreaks;
  }

  lemma FunctionClosed(d: Draft, d3: Draft, f: FunctionDef, code: seq<Instr>, end: Place, fs: seq<FunctionBody>)
    requires Built(Opened(d, f), d3, code, end, fs)
    requires code == BodyCode(f.body, Here(d)) && fs == StmtsFunctions(f.body, Inner(Here(d)))
    requires end == Skip(StmtsEnd(f.body, Inner(Here(d))), 2, 1)
    ensures d3.build.outer != [] && |d3.build.functions| == StmtsEnd(f.body, Inner(Here(d))).fns
    ensures Built(d, Draft(Ended(d3.build), d.loops, d3.serial), [], FunctionEnd(f, Here(d)), FunctionTable(f, Here(d)))
  {
    hide StmtsFunctions, StmtsEnd, BodyCode;
    var d4 := Draft(Ended(d3.build), d.loops, d3.serial);
    var at := Here(d);
    var body := FunctionBody(f.functionLabel, f.parameters, code, end.regs);
    assert d3.build.outer == d.build.outer + [d.build.active];
    assert (d.build.outer + [d.build.active])[..|d.build.outer|] == d.build.outer;
    assert d3.build.active == body by {
      assert [] + code == code;
    }
    assert (d.build.functions + fs) + [body] == d.build.functions + (fs + [body]);
    assert FunctionTable(f, at) == fs + [body];
    assert d.build.active.code + [] == d.build.active.code;
  }

  lemma LambdaParts(e: Expr, at: Place)
    requires e.Lambda?
    ensures ExprCode(e, at) == [MakeFunction(at.regs, StmtsEnd(e.def.body, Inner(at)).fns)]
    ensures ExprEnd(e, at) == Skip(FunctionEnd(e.def, at), 1, 1) && ResultOf(e, at) == at.regs
    ensures ExprFunctions(e, at) == FunctionTable(e.def, at)
    ensures FunctionEnd(e.def, at).regs == at.regs
  {
    hide StmtsEnd, StmtsFunctions, BodyCode;
    FunctionHere(e.def, at, 1, 1);
  }

  /** A function's table entries do not depend on the position in the enclosing stream. */
  lemma FunctionHere(f: FunctionDef, at: Place, code: nat, regs: nat)
    ensures FunctionTable(f, Skip(at, code, regs)) == FunctionTable(f, at)
    ensures FunctionEnd(f, Skip(at, code, regs)) == Skip(FunctionEnd(f, at), code, regs)
    ensures Inner(Skip(at, code, regs)) == Inner(at)
  {
    hide StmtsEnd, StmtsFunctions, StmtsCode;
  }

  lemma LambdaBuilt(e: Expr, d: Draft, d1: Draft, d2: Draft, dest: Register, index: nat)
    requires e.Lambda? && Built(d, d1, [], FunctionEnd(e.def, Here(d)), FunctionTable(e.def, Here(d)))
    requires dest == Here(d1).regs && index == StmtsEnd(e.def.body, Inner(Here(d))).fns
    requires Emits(d1, d2, MakeFunction(dest, index), 1)
    ensures ExprBuilt(d, d2, e, dest)
  {
    hide *;
    var at := Here(d);
    var end, fs, make := FunctionEnd(e.def, at), FunctionTable(e.def, at), MakeFunction(dest, index);
    BuiltPlace(d, d1, [], end, fs);
    ThenEmits(d, d1, d2, [], end, fs, make, 1);
    LambdaParts(e, at);
    assert [] + [make] == [make];
    IsExpr(d, d2, e, dest, [make], Skip(end, 1, 1), fs);
  }

  lemma ProgramBuilt(d: Draft, d': Draft, program: List<Stmt>)
    requires d == Draft(Build([], FunctionBody("", [], [], 0), []), [], 0) && StmtsBuilt(d, d', program)
    ensures d'.build.active.code == Lower(program).code && d'.build.functions == Lower(program).functions
    ensures Lower(program) == Program(d'.build.active.code, d'.build.functions)
  {
    hide StmtsCode, StmtsFunctions, StmtsEnd, StmtsBreaks;
    assert Here(d) == Start;
    assert [] + StmtsCode(program, Start, NoLoop) == StmtsCode(program, Start, NoLoop);
    assert [] + StmtsFunctions(program, Start) == StmtsFunctions(program, Start);
  }

  // -------------------------------------------------------------- plain statements

  predicate StmtBuilt(d: Draft, d': Draft, s: Stmt) {
    var at := Here(d);
    Grown(d, d', StmtCode(s, at, DraftTargets(d.loops)), StmtEnd(s, at), StmtFunctions(s, at), Breaks(s, at))
  }

  lemma StmtPlace(d: Draft, d': Draft, s: Stmt)
    requires StmtBuilt(d, d', s)
    ensures
      var at := Here(d);
      && Grown(d, d', StmtCode(s, at, DraftTargets(d.loops)), StmtEnd(s, at), StmtFunctions(s, at), Breaks(s, at))
      && Here(d') == StmtEnd(s, at)
    ensures DraftTargets(d'.loops) == DraftTargets(d.loops) && (d'.loops == []) == (d.loops == [])
  {
    hide Grown, StmtCode, StmtEnd, StmtFunctions, Breaks, DraftTargets;
    var at := Here(d);
    GrownPlace(d, d', StmtCode(s, at, DraftTargets(d.loops)), StmtEnd(s, at), StmtFunctions(s, at), Breaks(s, at));
  }

  lemma IsStmt(
    d: Draft, d': Draft, s: Stmt, code: seq<Instr>, end: Place, fs: seq<FunctionBody>, breaks: seq<nat>
  )
    requires Grown(d, d', code, end, fs, breaks) && code == StmtCode(s, Here(d), DraftTargets(d.loops))
    requires end == StmtEnd(s, Here(d)) && fs == StmtFunctions(s, Here(d)) && breaks == Breaks(s, Here(d))
    ensures StmtBuilt(d, d', s)
  {
  }

  /** A statement without breaks of its own. */
  lemma IsPlainStmt(d: Draft, d': Draft, s: Stmt, code: seq<Instr>, end: Place, fs: seq<FunctionBody>)
    requires Built(d, d', code, end, fs) && code == StmtCode(s, Here(d), DraftTargets(d.loops))
    requires end == StmtEnd(s, Here(d)) && fs == StmtFunctions(s, Here(d)) && Breaks(s, Here(d)) == []
    ensures StmtBuilt(d, d', s)
  {
    hide *;
    BuiltGrown(d, d', code, end, fs);
    IsStmt(d, d', s, code, end, fs, []);
  }

  /** The instruction after the expression of a simple statement. */
  function Last(s: Stmt, source: Register): Instr
    requires s.Let? || s.Print? || (s.Return? && s.result.Some?)
  {
    match s
    case Let(name, _) => StoreVar(User(name), source)
    case Print(_) => PrintValue(source)
    case Return(_) => ReturnValue(source)
  }

  function Operand(s: Stmt): Expr
    requires s.Let? || s.Print? || (s.Return? && s.result.Some?)
  {
    match s
    case Let(_, e) => e
    case Print(e) => e
    case Return(e) => e.value
  }

  lemma SimpleStmtParts(s: Stmt, at: Place, loop: Targets)
    requires s.Let? || s.Print? || (s.Return? && s.result.Some?)
    ensures StmtCode(s, at, loop) == ExprCode(Operand(s), at) + [Last(s, ResultOf(Operand(s), at))]
    ensures StmtEnd(s, at) == Skip(ExprEnd(Operand(s), at), 1, 0)
    ensures StmtFunctions(s, at) == ExprFunctions(Operand(s), at) && Breaks(s, at) == []
  {
    hide ExprCode, ExprEnd, ExprFunctions, ResultOf;
    if s.Return? {
      assert GuardFunctions(s.result, at) == ExprFunctions(s.result.value, at);
    }
  }

  lemma SimpleStmtBuilt(s: Stmt, d: Draft, d1: Draft, d2: Draft, r: Register)
    requires s.Let? || s.Print? || (s.Return? && s.result.Some?)
    requires ExprBuilt(d, d1, Operand(s), r) && Emits(d1, d2, Last(s, r), 0)
    ensures StmtBuilt(d, d2, s)
  {
    hide *;
    var at, e := Here(d), Operand(s);
    ExprPlace(d, d1, e, r);
    ThenEmits(d, d1, d2, ExprCode(e, at), ExprEnd(e, at), ExprFunctions(e, at), Last(s, r), 0);
    SimpleStmtParts(s, at, DraftTargets(d.loops));
    IsPlainStmt(d, d2, s, ExprCode(e, at) + [Last(s, r)], Skip(ExprEnd(e, at), 1, 0), ExprFunctions(e, at));
  }

  lemma EvaluateBuilt(s: Stmt, d: Draft, d1: Draft, r: Register)
    requires s.Evaluate? && ExprBuilt(d, d1, s.value, r)
    ensures StmtBuilt(d, d1, s)
  {
    hide Built, ExprCode, ExprEnd, ExprFunctions, Grown;
    var at := Here(d);
    IsPlainStmt(d, d1, s, ExprCode(s.value, at), ExprEnd(s.value, at), ExprFunctions(s.value, at));
  }

  lemma ReturnNilBuilt(s: Stmt, d: Draft, d1: Draft, d2: Draft, r: Register)
    requires s.Return? && s.result.None? && r == Here(d).regs
    requires Emits(d, d1, Compute(r, Constant(Nil), []), 1) && Emits(d1, d2, ReturnValue(r), 0)
    ensures StmtBuilt(d, d2, s)
  {
    hide *;
    var at, load, leave := Here(d), Compute(r, Constant(Nil), []), ReturnValue(r);
    FirstEmits(d, d1, load, 1);
    ThenEmits(d, d1, d2, [load], Skip(at, 1, 1), [], leave, 0);
    SkipTwice(at, 1, 1, 1, 0);
    ReturnNilParts(s, at, DraftTargets(d.loops));
    assert [load] + [leave] == [load, leave];
    IsPlainStmt(d, d2, s, [load, leave], Skip(at, 2, 1), []);
  }

  lemma ReturnNilParts(s: Stmt, at: Place, loop: Targets)
    requires s.Return? && s.result.None?
    ensures StmtCode(s, at, loop) == [Compute(at.regs, Constant(Nil), []), ReturnValue(at.regs)]
    ensures StmtEnd(s, at) == Skip(at, 2, 1) && StmtFunctions(s, at) == [] && Breaks(s, at) == []
  {
  }

  /** A `break`: its jump joins those of the innermost loop. */
  lemma BreakBuilt(d: Draft, d1: Draft)
    requires d.loops != [] && Emits(d, d1, Jump(0), 0)
    ensures StmtBuilt(d, WithBreaks(d1, [Here(d).code]), Break)
  {
    hide WithBreaks;
    assert Grown(d, WithBreaks(d1, [Here(d).code]), [Jump(0)], Skip(Here(d), 1, 0), [], [Here(d).code]);
    assert DraftTargets(d.loops).Loop?;
  }

  lemma ContinueBuilt(d: Draft, d1: Draft)
    requires d.loops != [] && Emits(d, d1, Jump(d.loops[|d.loops| - 1].continueTarget), 0)
    ensures StmtBuilt(d, d1, Continue)
  {
    hide Built, Grown;
    var jump := Jump(d.loops[|d.loops| - 1].continueTarget);
    IsPlainStmt(d, d1, Continue, [jump], Skip(Here(d), 1, 0), []);
  }

  lemma FunctionStmtParts(s: Stmt, at: Place, loop: Targets)
    requires s.Function?
    ensures StmtCode(s, at, loop)
         == [Compute(at.regs, Constant(Nil), []), StoreVar(User(s.name), at.regs),
             MakeFunction(at.regs + 1, StmtsEnd(s.def.body, Inner(at)).fns), AssignVar(User(s.name), at.regs + 1)]
    ensures StmtEnd(s, at) == Skip(FunctionEnd(s.def, at), 4, 2) && FunctionEnd(s.def, at).regs == at.regs
    ensures StmtFunctions(s, at) == FunctionTable(s.def, at) && Breaks(s, at) == []
  {
    hide StmtsEnd, StmtsFunctions, StmtsCode;
    FunctionHere(s.def, at, 4, 2);
    FunctionHere(s.def, at, 2, 1);
  }

  lemma FunctionStmtBuilt(
    s: Stmt, d: Draft, d1: Draft, d2: Draft, d3: Draft, d4: Draft, d5: Draft, r: Register, dest: Register, index: nat
  )
    requires s.Function? && r == Here(d).regs && Emits(d, d1, Compute(r, Constant(Nil), []), 1)
    requires Emits(d1, d2, StoreVar(User(s.name), r), 0)
    requires Built(d2, d3, [], FunctionEnd(s.def, Here(d2)), FunctionTable(s.def, Here(d2)))
    requires dest == Here(d3).regs && index == StmtsEnd(s.def.body, Inner(Here(d2))).fns
    requires Emits(d3, d4, MakeFunction(dest, index), 1) && Emits(d4, d5, AssignVar(User(s.name), dest), 0)
    ensures StmtBuilt(d, d5, s)
  {
    hide *;
    var at, f := Here(d), s.def;
    var load, store := Compute(r, Constant(Nil), []), StoreVar(User(s.name), r);
    var make, assign := MakeFunction(dest, index), AssignVar(User(s.name), dest);
    FirstEmits(d, d1, load, 1);
    ThenEmits(d, d1, d2, [load], Skip(at, 1, 1), [], store, 0);
    SkipTwice(at, 1, 1, 1, 0);
    FunctionHere(f, at, 2, 1);
    var end, fs := FunctionEnd(f, at), FunctionTable(f, at);
    BuiltThen(d, d2, d3, [load] + [store], Skip(at, 2, 1), [], [], Skip(end, 2, 1), fs);
    BuiltPlace(d2, d3, [], Skip(end, 2, 1), fs);
    assert [load] + [store] + [] == [load, store] && [] + fs == fs;
    ThenEmits(d, d3, d4, [load, store], Skip(end, 2, 1), fs, make, 1);
    ThenEmits(d, d4, d5, [load, store] + [make], Skip(Skip(end, 2, 1), 1, 1), fs, assign, 0);
    SkipTwice(end, 2, 1, 1, 1);
    SkipTwice(end, 3, 2, 1, 0);
    SkipSizes(end, 2, 1);
    FunctionStmtParts(s, at, DraftTargets(d.loops));
    assert [load, store] + [make] + [assign] == [load, store, make, assign];
    IsPlainStmt(d, d5, s, [load, store, make, assign], Skip(end, 4, 2), fs);
  }

  // -------------------------------------------------------------- sequences, branches

  predicate StmtsLeft(
    d: Draft, d': Draft, ss: List<Stmt>, rest: List<Stmt>, done: seq<Instr>, fs: seq<FunctionBody>, breaks: seq<nat>
  ) {
    var at, here, loop := Here(d), Here(d'), DraftTargets(d.loops);
    && Grown(d, d', done, here, fs, breaks)
    && done + StmtsCode(rest, here, loop) == StmtsCode(ss, at, loop)
    && fs + StmtsFunctions(rest, here) == StmtsFunctions(ss, at)
    && breaks + StmtsBreaks(rest, here) == StmtsBreaks(ss, at)
    && StmtsEnd(rest, here) == StmtsEnd(ss, at)
    && StmtsOk(rest, d.loops != []) == StmtsOk(ss, d.loops != [])
  }

  lemma StmtsStart(d: Draft, ss: List<Stmt>)
    ensures StmtsLeft(d, d, ss, ss, [], [], [])
  {
    hide StmtsCode, StmtsFunctions, StmtsBreaks, StmtsEnd, StmtsOk;
    BuiltNothing(d);
    BuiltGrown(d, d, [], Here(d), []);
  }

  lemma StmtsOkStep(ss: List<Stmt>, inLoop: bool)
    requires ss.Cons?
    ensures StmtsOk(ss, inLoop) == (StmtOk(ss.head, inLoop) && StmtsOk(ss.tail, inLoop))
  {
  }

  lemma StmtsNext(
    d: Draft, d1: Draft, d2: Draft, ss: List<Stmt>, rest: List<Stmt>, done: seq<Instr>, fs: seq<FunctionBody>,
    breaks: seq<nat>
  )
    requires rest.Cons? && StmtsLeft(d, d1, ss, rest, done, fs, breaks) && StmtBuilt(d1, d2, rest.head)
    requires StmtOk(rest.head, d.loops != [])
    ensures
      var here := Here(d1);
      StmtsLeft(d, d2, ss, rest.tail, done + StmtCode(rest.head, here, DraftTargets(d.loops)),
                fs + StmtFunctions(rest.head, here), breaks + Breaks(rest.head, here))
  {
    hide Grown, StmtBuilt, StmtsCode, StmtsFunctions, StmtsBreaks, StmtsEnd, StmtsOk, StmtOk, StmtCode, StmtEnd,
      StmtFunctions, Breaks, DraftTargets;
    var here, loop, s := Here(d1), DraftTargets(d.loops), rest.head;
    var at1 := StmtEnd(s, here);
    GrownPlace(d, d1, done, here, fs, breaks);
    StmtPlace(d1, d2, s);
    GrownThen(d, d1, d2, done, here, fs, breaks, StmtCode(s, here, loop), at1, StmtFunctions(s, here), Breaks(s, here));
    StmtsCodeParts(rest, here, loop);
    StmtsBreaksStep(rest, here);
    StmtsOkStep(rest, d.loops != []);
    assert done + (StmtCode(s, here, loop) + StmtsCode(rest.tail, at1, loop))
        == done + StmtCode(s, here, loop) + StmtsCode(rest.tail, at1, loop);
    assert fs + (StmtFunctions(s, here) + StmtsFunctions(rest.tail, at1))
        == fs + StmtFunctions(s, here) + StmtsFunctions(rest.tail, at1);
    assert breaks + (Breaks(s, here) + StmtsBreaks(rest.tail, at1)) == breaks + Breaks(s, here) + StmtsBreaks(rest.tail, at1);
  }

  lemma StmtsDone(
    d: Draft, d': Draft, ss: List<Stmt>, done: seq<Instr>, fs: seq<FunctionBody>, breaks: seq<nat>
  )
    requires StmtsLeft(d, d', ss, Empty, done, fs, breaks)
    ensures StmtsBuilt(d, d', ss) && StmtsOk(ss, d.loops != [])
  {
    hide Grown;
    assert done + [] == done && fs + [] == fs && breaks + [] == breaks;
  }

  lemma BlockBuilt(s: Stmt, d: Draft, d1: Draft)
    requires s.Block? && StmtsBuilt(d, d1, s.body)
    ensures StmtBuilt(d, d1, s)
  {
    hide Grown, DraftTargets;
  }

  predicate OptionBuilt(d: Draft, d': Draft, s: Option<Stmt>) {
    var at := Here(d);
    Grown(d, d', InitCode(s, at, DraftTargets(d.loops)), InitEnd(s, at), InitFunctions(s, at), OptionBreaks(s, at))
  }

  lemma OptionPlace(d: Draft, d': Draft, s: Option<Stmt>)
    requires OptionBuilt(d, d', s)
    ensures
      var at := Here(d);
      && Grown(d, d', InitCode(s, at, DraftTargets(d.loops)), InitEnd(s, at), InitFunctions(s, at), OptionBreaks(s, at))
      && Here(d') == InitEnd(s, at)
    ensures DraftTargets(d'.loops) == DraftTargets(d.loops) && (d'.loops == []) == (d.loops == [])
  {
    hide Grown, InitCode, InitEnd, InitFunctions, OptionBreaks, DraftTargets;
    var at := Here(d);
    GrownPlace(d, d', InitCode(s, at, DraftTargets(d.loops)), InitEnd(s, at), InitFunctions(s, at), OptionBreaks(s, at));
  }

  lemma NoOption(d: Draft)
    ensures OptionBuilt(d, d, None)
  {
    BuiltNothing(d);
    BuiltGrown(d, d, [], Here(d), []);
  }

  lemma SomeOption(d: Draft, d1: Draft, s: Stmt)
    requires StmtBuilt(d, d1, s)
    ensures OptionBuilt(d, d1, Some(s))
  {
    hide Grown, StmtCode, StmtEnd, StmtFunctions, Breaks, DraftTargets;
  }

  lemma IfOk(s: Stmt, inLoop: bool)
    requires s.If?
    ensures StmtOk(s, inLoop)
         == (ExprOk(s.condition) && StmtOk(s.thenBranch, inLoop)
             && (s.elseBranch.Some? ==> StmtOk(s.elseBranch.value, inLoop)))
  {
  }

  /** Condition, test and `then` branch, and the jump over the `else` branch when there is one. */
  lemma IfHead(s: Stmt, d: Draft, d1: Draft, d2: Draft, d3: Draft, d4: Draft, condition: Register)
    requires s.If? && ExprBuilt(d, d1, s.condition, condition) && Emits(d1, d2, JumpIf(condition, false, 0), 0)
    requires StmtBuilt(d2, d3, s.thenBranch)
    requires if s.elseBranch.Some? then Emits(d3, d4, Jump(0), 0) else d4 == d3
    ensures
      var at := Here(d);
      var test := ExprEnd(s.condition, at);
      var at1, at3 := Skip(test, 1, 0), ElsePlace(s, at);
      var leave := if s.elseBranch.Some? then [Jump(0)] else [];
      && Here(d1) == test && Here(d4) == at3 && Here(d3) == StmtEnd(s.thenBranch, at1)
      && DraftTargets(d4.loops) == DraftTargets(d.loops) && (d4.loops == []) == (d.loops == [])
      && Patchable(d4.build.active.code, 0, [test.code])
      && Grown(d, Patched(d4, [test.code], at3.code),
               ExprCode(s.condition, at) + [JumpIf(condition, false, at3.code)]
               + StmtCode(s.thenBranch, at1, DraftTargets(d.loops)) + leave,
               at3, ExprFunctions(s.condition, at) + StmtFunctions(s.thenBranch, at1), Breaks(s.thenBranch, at1))
  {
    hide *;
    var at, loop := Here(d), DraftTargets(d.loops);
    var test := ExprEnd(s.condition, at);
    var at1, at3 := Skip(test, 1, 0), ElsePlace(s, at);
    var a, fs, jump := ExprCode(s.condition, at), ExprFunctions(s.condition, at), JumpIf(condition, false, 0);
    var b, end2 := StmtCode(s.thenBranch, at1, loop), StmtEnd(s.thenBranch, at1);
    var fs', breaks := fs + StmtFunctions(s.thenBranch, at1), Breaks(s.thenBranch, at1);
    ExprPlace(d, d1, s.condition, condition);
    ThenEmits(d, d1, d2, a, test, fs, jump, 0);
    EmitsPlace(d1, d2, jump, 0);
    StmtPlace(d2, d3, s.thenBranch);
    GrownAfter(d, d2, d3, a + [jump], at1, fs, b, end2, StmtFunctions(s.thenBranch, at1), breaks);
    IfPlaces(s, at);
    ElsePlaceIs(s, at);
    JumpIfTarget(condition, false, at3.code);
    BuiltPlace(d, d1, a, test, fs);
    var rest := b;
    if s.elseBranch.Some? {
      EmitsPlace(d3, d4, Jump(0), 0);
      GrownMore(d, d3, d4, a + [jump] + b, end2, fs', breaks, [Jump(0)], at3);
      rest := b + [Jump(0)];
      assert a + [jump] + b + [Jump(0)] == a + [jump] + rest;
    } else {
      SkipNothing(end2);
    }
    PatchMiddle(a, jump, rest, at.code, at3.code);
    GrownPatched(d, d4, a + [jump] + rest, at3, fs', breaks, [test.code], at3.code);
    var jump' := JumpIf(condition, false, at3.code);
    if s.elseBranch.Some? {
      assert a + [jump'] + b + [Jump(0)] == a + [jump'] + rest;
    } else {
      assert a + [jump'] + b + [] == a + [jump'] + rest;
    }
  }

  lemma ElsePlaceIs(s: Stmt, at: Place)
    requires s.If?
    ensures ElsePlace(s, at)
         == Skip(StmtEnd(s.thenBranch, Skip(ExprEnd(s.condition, at), 1, 0)), if s.elseBranch.Some? then 1 else 0, 0)
  {
    hide StmtEnd, ExprEnd;
  }

  lemma IfThenBuilt(s: Stmt, d: Draft, d1: Draft, d2: Draft, d3: Draft, condition: Register)
    requires s.If? && s.elseBranch.None?
    requires ExprBuilt(d, d1, s.condition, condition) && Emits(d1, d2, JumpIf(condition, false, 0), 0)
    requires StmtBuilt(d2, d3, s.thenBranch)
    ensures Patchable(d3.build.active.code, 0, [Here(d1).code])
    ensures StmtBuilt(d, Patched(d3, [Here(d1).code], Here(d3).code), s)
  {
    hide *;
    var at, loop := Here(d), DraftTargets(d.loops);
    var at1, at3 := Skip(ExprEnd(s.condition, at), 1, 0), ElsePlace(s, at);
    IfHead(s, d, d1, d2, d3, d3, condition);
    IfCodeParts(s, at, loop);
    IfFunctionParts(s, at);
    IfPlaces(s, at);
    IfBreaksStep(s, at);
    ExprPlace(d, d1, s.condition, condition);
    NoElse(s, at, loop);
    var code := ExprCode(s.condition, at) + [JumpIf(condition, false, at3.code)] + StmtCode(s.thenBranch, at1, loop);
    var fs, breaks := ExprFunctions(s.condition, at) + StmtFunctions(s.thenBranch, at1), Breaks(s.thenBranch, at1);
    assert code + [] + [] == code + [] && fs + [] == fs && breaks + [] == breaks;
    IsStmt(d, Patched(d3, [Here(d1).code], at3.code), s, code + [], at3, fs, breaks);
  }

  lemma NoElse(s: Stmt, at: Place, loop: Targets)
    requires s.If? && s.elseBranch.None?
    ensures LeaveThen(s, at) == [] && InitCode(s.elseBranch, ElsePlace(s, at), loop) == []
    ensures InitFunctions(s.elseBranch, ElsePlace(s, at)) == [] && OptionBreaks(s.elseBranch, ElsePlace(s, at)) == []
    ensures InitEnd(s.elseBranch, ElsePlace(s, at)) == ElsePlace(s, at)
  {
    hide ElsePlace, StmtEnd;
  }

  lemma WithElse(s: Stmt, at: Place, loop: Targets)
    requires s.If? && s.elseBranch.Some?
    ensures LeaveThen(s, at) == [Jump(StmtEnd(s, at).code)]
    ensures
      var at3, e := ElsePlace(s, at), s.elseBranch.value;
      && InitCode(s.elseBranch, at3, loop) == StmtCode(e, at3, loop) && InitEnd(s.elseBranch, at3) == StmtEnd(e, at3)
      && InitFunctions(s.elseBranch, at3) == StmtFunctions(e, at3) && OptionBreaks(s.elseBranch, at3) == Breaks(e, at3)
  {
    hide ElsePlace, StmtEnd, StmtCode, StmtFunctions, Breaks;
  }

  lemma IfElseBuilt(
    s: Stmt, d: Draft, d1: Draft, d2: Draft, d3: Draft, d4: Draft, d6: Draft, condition: Register
  )
    requires s.If? && s.elseBranch.Some?
    requires ExprBuilt(d, d1, s.condition, condition) && Emits(d1, d2, JumpIf(condition, false, 0), 0)
    requires StmtBuilt(d2, d3, s.thenBranch) && Emits(d3, d4, Jump(0), 0)
    requires StmtBuilt(Patched(d4, [Here(d1).code], Here(d4).code), d6, s.elseBranch.value)
    ensures Patchable(d6.build.active.code, 0, [Here(d3).code])
    ensures StmtBuilt(d, Patched(d6, [Here(d3).code], Here(d6).code), s)
  {
    hide *;
    var at, loop, e := Here(d), DraftTargets(d.loops), s.elseBranch.value;
    var test := ExprEnd(s.condition, at);
    var at1, at3 := Skip(test, 1, 0), ElsePlace(s, at);
    var d5 := Patched(d4, [test.code], at3.code);
    IfHead(s, d, d1, d2, d3, d4, condition);
    ExprPlace(d, d1, s.condition, condition);
    IfCodeParts(s, at, loop);
    IfFunctionParts(s, at);
    IfPlaces(s, at);
    IfBreaksStep(s, at);
    WithElse(s, at, loop);
    TargetOfJump(0, StmtEnd(s, at).code);
    var a := ExprCode(s.condition, at) + [JumpIf(condition, false, at3.code)] + StmtCode(s.thenBranch, at1, loop);
    var fs, breaks := ExprFunctions(s.condition, at) + StmtFunctions(s.thenBranch, at1), Breaks(s.thenBranch, at1);
    var b, end := StmtCode(e, at3, loop), StmtEnd(e, at3);
    PatchedLoops(d4, [test.code], at3.code);
    GrownPlace(d, d5, a + [Jump(0)], at3, fs, breaks);
    StmtPlace(d5, d6, e);
    GrownThen(d, d5, d6, a + [Jump(0)], at3, fs, breaks, b, end, StmtFunctions(e, at3), Breaks(e, at3));
    var over := Here(d3).code;
    ElsePlaceIs(s, at);
    SkipSizes(StmtEnd(s.thenBranch, at1), 1, 0);
    PatchMiddle(a, Jump(0), b, at.code, end.code);
    GrownPatched(d, d6, a + [Jump(0)] + b, end, fs + StmtFunctions(e, at3), breaks + Breaks(e, at3), [over], end.code);
    IsStmt(d, Patched(d6, [over], end.code), s, a + [Jump(end.code)] + b, end, fs + StmtFunctions(e, at3),
           breaks + Breaks(e, at3));
  }

  lemma PatchedLoops(d: Draft, jumps: seq<nat>, target: nat)
    ensures Patched(d, jumps, target).loops == d.loops && Here(Patched(d, jumps, target)) == Here(d)
  {
  }
}
