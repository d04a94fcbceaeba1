/** Compilation steps of loops and match statements. */
module LoopSteps {
  import opened Wrappers
  import opened Runtime
  import opened Ast
  import opened IR
  import opened Lowering
  import opened FunctionTables
  import opened CodeEquations
  import opened BackPatching
  import opened IRBuilder
  import opened Drafts
  import opened CompilerSteps
  import opened PatternSteps
  import opened StatementSteps

  /** A loop body under its own context, and the jump back to the continue target. */
  lemma BodyBuilt(d: Draft, c: nat, d1: Draft, d2: Draft, body: Stmt)
    requires StmtBuilt(Pushed(d, c), d1, body) && d1.loops != [] && Emits(Popped(d1), d2, Jump(c), 0)
    ensures d1.loops[|d1.loops| - 1].breakJumps == Breaks(body, Here(d))
    ensures
      var at := Here(d);
      && Built(d, d2, StmtCode(body, at, Loop(c, 0)) + [Jump(c)], Skip(StmtEnd(body, at), 1, 0), StmtFunctions(body, at))
      && Here(d2) == Skip(StmtEnd(body, at), 1, 0)
  {
    hide *;
    var at := Here(d);
    PushedFacts(d, c);
    StmtPlace(Pushed(d, c), d1, body);
    LoopPopped(d, c, d1, StmtCode(body, at, Loop(c, 0)), StmtEnd(body, at), StmtFunctions(body, at), Breaks(body, at));
    ThenEmits(d, Popped(d1), d2, StmtCode(body, at, Loop(c, 0)), StmtEnd(body, at), StmtFunctions(body, at), Jump(c), 0);
  }

  /** At the end of a loop its breaks are patched, whatever comes before the body. */
  lemma LoopEnded(
    d: Draft, d': Draft, head: seq<Instr>, body: Stmt, at: Place, c: nat, end: Place, fs: seq<FunctionBody>
  )
    requires at.code == Here(d).code + |head|
    requires Built(d, d', head + (StmtCode(body, at, Loop(c, 0)) + [Jump(c)]), end, fs)
    ensures Patchable(d'.build.active.code, 0, Breaks(body, at))
    ensures Built(d, Patched(d', Breaks(body, at), end.code),
                  head + (StmtCode(body, at, Loop(c, end.code)) + [Jump(c)]), end, fs)
  {
    hide *;
    var breaks, code := Breaks(body, at), StmtCode(body, at, Loop(c, 0));
    BreaksPatched(body, at, c, 0, end.code);
    PatchBefore(code, [Jump(c)], at.code, breaks, end.code);
    PatchAfter(head, code + [Jump(c)], Here(d).code, breaks, end.code);
    BuiltPatched(d, d', head + (code + [Jump(c)]), end, fs, breaks, end.code);
  }

  lemma WhileOk(s: Stmt, inLoop: bool)
    requires s.While?
    ensures StmtOk(s, inLoop) == (ExprOk(s.condition) && StmtOk(s.loopBody, true))
  {
  }

  lemma WhileBuilt(s: Stmt, d: Draft, d1: Draft, d2: Draft, d3: Draft, d4: Draft, condition: Register)
    requires s.While? && ExprBuilt(d, d1, s.condition, condition) && Emits(d1, d2, JumpIf(condition, false, 0), 0)
    requires StmtBuilt(Pushed(d2, Here(d).code), d3, s.loopBody) && d3.loops != []
    requires Emits(Popped(d3), d4, Jump(Here(d).code), 0)
    ensures Patchable(d4.build.active.code, 0, [Here(d1).code])
    ensures
      var d5 := Patched(d4, [Here(d1).code], Here(d4).code);
      var breaks := d3.loops[|d3.loops| - 1].breakJumps;
      && Here(d5) == Here(d4)
      && Patchable(d5.build.active.code, 0, breaks)
      && StmtBuilt(d, Patched(d5, breaks, Here(d4).code), s)
  {
    hide *;
    var at := Here(d);
    var test := ExprEnd(s.condition, at);
    var at1, c := Skip(test, 1, 0), at.code;
    var a, fs, jump := ExprCode(s.condition, at), ExprFunctions(s.condition, at), JumpIf(condition, false, 0);
    var body, bodyFs := StmtCode(s.loopBody, at1, Loop(c, 0)), StmtFunctions(s.loopBody, at1);
    ExprPlace(d, d1, s.condition, condition);
    ThenEmits(d, d1, d2, a, test, fs, jump, 0);
    BodyBuilt(d2, c, d3, d4, s.loopBody);
    var end := Skip(StmtEnd(s.loopBody, at1), 1, 0);
    BuiltThen(d, d2, d4, a + [jump], at1, fs, body + [Jump(c)], end, bodyFs);
    JumpIfTarget(condition, false, end.code);
    BuiltPlace(d, d1, a, test, fs);
    SkipSizes(test, 1, 0);
    PatchMiddle(a, jump, body + [Jump(c)], at.code, end.code);
    BuiltPatched(d, d4, a + [jump] + (body + [Jump(c)]), end, fs + bodyFs, [test.code], end.code);
    var d5, jump' := Patched(d4, [test.code], end.code), JumpIf(condition, false, end.code);
    PatchedLoops(d4, [test.code], end.code);
    LoopEnded(d, d5, a + [jump'], s.loopBody, at1, c, end, fs + bodyFs);
    WhileStmtParts(s, at, DraftTargets(d.loops));
    var body' := StmtCode(s.loopBody, at1, Loop(c, end.code));
    assert a + [jump'] + (body' + [Jump(c)]) == a + [jump'] + body' + [Jump(c)];
    IsPlainStmt(d, Patched(d5, Breaks(s.loopBody, at1), end.code), s, a + [jump'] + body' + [Jump(c)], end, fs + bodyFs);
  }

  lemma WhileStmtParts(s: Stmt, at: Place, loop: Targets)
    requires s.While?
    ensures
      var at1 := Skip(ExprEnd(s.condition, at), 1, 0);
      var end := StmtEnd(s, at);
      && end == Skip(StmtEnd(s.loopBody, at1), 1, 0) && Breaks(s, at) == []
      && StmtCode(s, at, loop)
         == ExprCode(s.condition, at) + [JumpIf(ResultOf(s.condition, at), false, end.code)]
            + StmtCode(s.loopBody, at1, Loop(at.code, end.code)) + [Jump(at.code)]
      && StmtFunctions(s, at) == ExprFunctions(s.condition, at) + StmtFunctions(s.loopBody, at1)
  {
    hide ExprCode, ExprEnd, ExprFunctions, ResultOf;
    WhileCodeParts(s, at, loop);
  }

  // ------------------------------------------------------------------- for loops

  /** The test of a `for` loop; without one there is no exit jump. */
  predicate ForTestBuilt(d: Draft, d': Draft, test: Option<Expr>, exits: seq<nat>) {
    var at := Here(d);
    && Built(d, d', GuardCode(test, at, 0), GuardEnd(test, at), GuardFunctions(test, at))
    && exits == (if test.Some? then [ExprEnd(test.value, at).code] else [])
  }

  lemma NoForTest(d: Draft)
    ensures ForTestBuilt(d, d, None, [])
  {
    BuiltNothing(d);
  }

  lemma SomeForTest(d: Draft, d1: Draft, d2: Draft, test: Expr, r: Register)
    requires ExprBuilt(d, d1, test, r) && Emits(d1, d2, JumpIf(r, false, 0), 0)
    ensures ForTestBuilt(d, d2, Some(test), [Here(d1).code])
  {
    hide *;
    var at := Here(d);
    ExprPlace(d, d1, test, r);
    ThenEmits(d, d1, d2, ExprCode(test, at), ExprEnd(test, at), ExprFunctions(test, at), JumpIf(r, false, 0), 0);
    GuardParts(test, at);
    IsForTest(d, d2, Some(test), [Here(d1).code]);
  }

  lemma IsForTest(d: Draft, d': Draft, test: Option<Expr>, exits: seq<nat>)
    ensures ForTestBuilt(d, d', test, exits)
        <==> var at := Here(d);
             && Built(d, d', GuardCode(test, at, 0), GuardEnd(test, at), GuardFunctions(test, at))
             && exits == (if test.Some? then [ExprEnd(test.value, at).code] else [])
  {
    hide Built, GuardCode, GuardEnd, GuardFunctions, ExprEnd;
  }

  /** The exit jump of a loop test is the last instruction of its code. */
  lemma ForTestPatched(test: Option<Expr>, at: Place, target: nat)
    ensures
      var exits := if test.Some? then [ExprEnd(test.value, at).code] else [];
      && Patchable(GuardCode(test, at, 0), at.code, exits)
      && Patch(GuardCode(test, at, 0), at.code, exits, target) == GuardCode(test, at, target)
  {
    if test.Some? {
      hide Patch, Patchable, ExprCode, ExprEnd, ResultOf;
      var code, r := ExprCode(test.value, at), ResultOf(test.value, at);
      JumpIfTarget(r, false, target);
      PatchLast(JumpIf(r, false, 0), at.code + |code|, target);
      PatchAfter(code, [JumpIf(r, false, 0)], at.code, [at.code + |code|], target);
    }
  }

  predicate IncrementBuilt(d: Draft, d': Draft, increment: Option<Expr>) {
    var at := Here(d);
    Built(d, d', IncrementCode(increment, at), IncrementEnd(increment, at), IncrementFunctions(increment, at))
  }

  lemma NoIncrement(d: Draft)
    ensures IncrementBuilt(d, d, None)
  {
    BuiltNothing(d);
  }

  lemma SomeIncrement(d: Draft, d1: Draft, e: Expr, r: Register)
    requires ExprBuilt(d, d1, e, r)
    ensures IncrementBuilt(d, d1, Some(e))
  {
    hide Built, ExprCode, ExprEnd, ExprFunctions;
  }

  lemma IncrementIs(d: Draft, d': Draft, increment: Option<Expr>)
    requires IncrementBuilt(d, d', increment)
    ensures
      var at := Here(d);
      && Built(d, d', IncrementCode(increment, at), IncrementEnd(increment, at), IncrementFunctions(increment, at))
      && Here(d') == IncrementEnd(increment, at) && d'.loops == d.loops
  {
    hide Built, IncrementCode, IncrementEnd, IncrementFunctions;
    var at := Here(d);
    BuiltPlace(d, d', IncrementCode(increment, at), IncrementEnd(increment, at), IncrementFunctions(increment, at));
  }

  /** Test, jump over the increment, increment and jump back; the first jump is patched at once. */
  lemma ForHead(s: Stmt, d: Draft, d1: Draft, d2: Draft, d3: Draft, d4: Draft, exits: seq<nat>)
    requires s.For? && ForTestBuilt(d, d1, s.test, exits) && Emits(d1, d2, Jump(0), 0)
    requires IncrementBuilt(d2, d3, s.increment) && Emits(d3, d4, Jump(Here(d).code), 0)
    ensures
      var start := Here(d);
      var at1 := IncrementPlace(s.test, start);
      var at2 := Skip(IncrementEnd(s.increment, at1), 1, 0);
      && Here(d2) == at1 && Here(d4) == at2
      && Patchable(d4.build.active.code, 0, [Here(d1).code])
      && Built(d, Patched(d4, [Here(d1).code], at2.code),
               GuardCode(s.test, start, 0) + ([Jump(at2.code)] + IncrementCode(s.increment, at1) + [Jump(start.code)]),
               at2, GuardFunctions(s.test, start) + IncrementFunctions(s.increment, at1))
  {
    hide *;
    var start := Here(d);
    var test, at1 := GuardEnd(s.test, start), IncrementPlace(s.test, start);
    var end := IncrementEnd(s.increment, at1);
    var at2 := Skip(end, 1, 0);
    var guard, inc := GuardCode(s.test, start, 0), IncrementCode(s.increment, at1);
    var fs1, fs2 := GuardFunctions(s.test, start), IncrementFunctions(s.increment, at1);
    IsForTest(d, d1, s.test, exits);
    BuiltPlace(d, d1, guard, test, fs1);
    ThenEmits(d, d1, d2, guard, test, fs1, Jump(0), 0);
    IncrementPlaceIs(s.test, start);
    IncrementIs(d2, d3, s.increment);
    BuiltThen(d, d2, d3, guard + [Jump(0)], at1, fs1, inc, end, fs2);
    ThenEmits(d, d3, d4, guard + [Jump(0)] + inc, end, fs1 + fs2, Jump(start.code), 0);
    TargetOfJump(0, at2.code);
    PatchMiddle(guard, Jump(0), inc + [Jump(start.code)], start.code, at2.code);
    assert guard + [Jump(0)] + inc + [Jump(start.code)] == guard + [Jump(0)] + (inc + [Jump(start.code)]);
    BuiltPatched(d, d4, guard + [Jump(0)] + (inc + [Jump(start.code)]), at2, fs1 + fs2, [test.code], at2.code);
    assert guard + [Jump(at2.code)] + (inc + [Jump(start.code)]) == guard + ([Jump(at2.code)] + inc + [Jump(start.code)]);
  }

  lemma IncrementPlaceIs(test: Option<Expr>, start: Place)
    ensures IncrementPlace(test, start) == Skip(GuardEnd(test, start), 1, 0)
  {
    hide GuardEnd;
  }

  predicate ForLoopBuilt(d: Draft, d': Draft, s: Stmt)
    requires s.For?
  {
    var start := Here(d);
    Built(d, d', ForCode(s, start), LoopEnd(s, start), LoopFunctions(s, start))
  }

  lemma LoopEndIs(s: Stmt, start: Place)
    requires s.For?
    ensures
      var at2 := Skip(IncrementEnd(s.increment, IncrementPlace(s.test, start)), 1, 0);
      LoopEnd(s, start) == Skip(StmtEnd(s.loopBody, at2), 1, 0)
  {
    hide IncrementEnd, IncrementPlace, StmtEnd;
  }

  lemma ForLoopSteps(s: Stmt, d: Draft, d1: Draft, d2: Draft, d3: Draft, d4: Draft, d6: Draft, d7: Draft, exits: seq<nat>)
    requires s.For? && ForTestBuilt(d, d1, s.test, exits) && Emits(d1, d2, Jump(0), 0)
    requires IncrementBuilt(d2, d3, s.increment) && Emits(d3, d4, Jump(Here(d).code), 0)
    requires StmtBuilt(Pushed(Patched(d4, [Here(d1).code], Here(d4).code), Here(d2).code), d6, s.loopBody) && d6.loops != []
    requires Emits(Popped(d6), d7, Jump(Here(d2).code), 0)
    ensures Patchable(d7.build.active.code, 0, exits)
    ensures
      var d8 := Patched(d7, exits, Here(d7).code);
      var breaks := d6.loops[|d6.loops| - 1].breakJumps;
      && Here(d8) == Here(d7)
      && Patchable(d8.build.active.code, 0, breaks)
      && ForLoopBuilt(d, Patched(d8, breaks, Here(d7).code), s)
  {
    hide *;
    var start := Here(d);
    var at1 := IncrementPlace(s.test, start);
    var at2 := Skip(IncrementEnd(s.increment, at1), 1, 0);
    var end := LoopEnd(s, start);
    var c := at1.code;
    ForHead(s, d, d1, d2, d3, d4, exits);
    IsForTest(d, d1, s.test, exits);
    BuiltPlace(d, d1, GuardCode(s.test, start, 0), GuardEnd(s.test, start), GuardFunctions(s.test, start));
    PatchedLoops(d4, [Here(d1).code], at2.code);
    var d5 := Patched(d4, [Here(d1).code], at2.code);
    BodyBuilt(d5, c, d6, d7, s.loopBody);
    LoopEndIs(s, start);
    var guard := GuardCode(s.test, start, 0);
    var middle := [Jump(at2.code)] + IncrementCode(s.increment, at1) + [Jump(start.code)];
    var body := StmtCode(s.loopBody, at2, Loop(c, 0)) + [Jump(c)];
    var fs1 := GuardFunctions(s.test, start) + IncrementFunctions(s.increment, at1);
    var fs := fs1 + StmtFunctions(s.loopBody, at2);
    BuiltPlace(d, d5, guard + middle, at2, fs1);
    BuiltThen(d, d5, d7, guard + middle, at2, fs1, body, end, StmtFunctions(s.loopBody, at2));
    ForTestPatched(s.test, start, end.code);
    PatchBefore(guard, middle + body, start.code, exits, end.code);
    assert guard + middle + body == guard + (middle + body);
    BuiltPatched(d, d7, guard + (middle + body), end, fs, exits, end.code);
    var d8, guard' := Patched(d7, exits, end.code), GuardCode(s.test, start, end.code);
    PatchedLoops(d7, exits, end.code);
    assert guard' + (middle + body) == guard' + middle + body;
    GuardSizes(s.test, start, end.code);
    LoopEnded(d, d8, guard' + middle, s.loopBody, at2, c, end, fs);
    ForCodeParts(s, start);
    var body' := StmtCode(s.loopBody, at2, Loop(c, end.code));
    assert guard' + middle + (body' + [Jump(c)])
        == guard' + [Jump(at2.code)] + IncrementCode(s.increment, at1) + [Jump(start.code)] + body' + [Jump(c)];
    IsForLoop(d, Patched(d8, Breaks(s.loopBody, at2), end.code), s);
  }

  lemma GuardSizes(test: Option<Expr>, start: Place, target: nat)
    ensures |GuardCode(test, start, 0)| == |GuardCode(test, start, target)|
  {
    hide GuardCode;
  }

  lemma IsForLoop(d: Draft, d': Draft, s: Stmt)
    requires s.For?
    ensures ForLoopBuilt(d, d', s)
        <==> Built(d, d', ForCode(s, Here(d)), LoopEnd(s, Here(d)), LoopFunctions(s, Here(d)))
  {
  }

  lemma ForOk(s: Stmt, inLoop: bool)
    requires s.For?
    ensures StmtOk(s, inLoop)
         == ((s.init.Some? ==> StmtOk(s.init.value, inLoop)) && (s.test.Some? ==> ExprOk(s.test.value))
             && (s.increment.Some? ==> ExprOk(s.increment.value)) && StmtOk(s.loopBody, true))
  {
    hide ExprOk;
  }

  lemma ForStmtBuilt(s: Stmt, d: Draft, d1: Draft, d2: Draft)
    requires s.For? && OptionBuilt(d, d1, s.init) && ForLoopBuilt(d1, d2, s)
    ensures StmtBuilt(d, d2, s)
  {
    hide *;
    var at, loop := Here(d), DraftTargets(d.loops);
    var start, fs := InitEnd(s.init, at), InitFunctions(s.init, at);
    OptionPlace(d, d1, s.init);
    IsForLoop(d1, d2, s);
    GrownMoreFunctions(d, d1, d2, InitCode(s.init, at, loop), start, fs, OptionBreaks(s.init, at),
                       ForCode(s, start), LoopEnd(s, start), LoopFunctions(s, start));
    ForStmtParts(s, at, loop);
    ForBreaksStep(s, at);
    IsStmt(d, d2, s, InitCode(s.init, at, loop) + ForCode(s, start), LoopEnd(s, start), fs + LoopFunctions(s, start),
           OptionBreaks(s.init, at));
  }

  lemma GrownMoreFunctions(
    d: Draft, d1: Draft, d2: Draft, code1: seq<Instr>, end1: Place, fs1: seq<FunctionBody>, breaks: seq<nat>,
    code2: seq<Instr>, end2: Place, fs2: seq<FunctionBody>
  )
    requires Grown(d, d1, code1, end1, fs1, breaks) && Built(d1, d2, code2, end2, fs2)
    ensures Grown(d, d2, code1 + code2, end2, fs1 + fs2, breaks)
  {
    hide *;
    BuiltGrown(d1, d2, code2, end2, fs2);
    GrownThen(d, d1, d2, code1, end1, fs1, breaks, code2, end2, fs2, []);
    assert breaks + [] == breaks;
  }

  // ---------------------------------------------------------------- for-in loops

  /** The test and element fetch without their jump over the increment. */
  function FetchCode(at: Place, item: string, r: Register, end: nat): (code: seq<Instr>)
    ensures |code| == 8
  {
    [LoadVar(r, IndexName(at)), LoadVar(r + 1, LengthName(at)), Compute(r + 2, Compare(Less), [r, r + 1]),
     JumpIf(r + 2, false, end)]
    + [LoadVar(r + 3, IterName(at)), LoadVar(r + 4, IndexName(at)), Compute(r + 5, Index, [r + 3, r + 4]),
       AssignVar(User(item), r + 5)]
  }

  /** The increment before the jump over it is patched. */
  lemma ForInHead(at: Place, item: string, d: Draft, d1: Draft, d2: Draft, d3: Draft)
    requires Built(d, d1, FetchCode(at, item, Here(d).regs, 0), Skip(Here(d), 8, 6), [])
    requires Emits(d1, d2, Jump(0), 0)
    requires Built(d2, d3, ForInIncrement(at, Here(d).code, Here(d2).regs), Skip(Here(d2), 5, 3), [])
    ensures
      var start, r := Here(d).code, Here(d).regs;
      && Here(d2).code == start + 9 && Here(d3) == Skip(Here(d), 14, 9)
      && Patchable(d3.build.active.code, 0, [Here(d1).code])
      && Built(d, Patched(d3, [Here(d1).code], Here(d3).code),
               ForInTest(at, item, start, r, 0) + ForInIncrement(at, start, r + 6), Skip(Here(d), 14, 9), [])
  {
    hide *;
    var here := Here(d);
    var start, r := here.code, here.regs;
    var fetch, inc := FetchCode(at, item, r, 0), ForInIncrement(at, start, r + 6);
    BuiltPlace(d, d1, fetch, Skip(here, 8, 6), []);
    ThenEmits(d, d1, d2, fetch, Skip(here, 8, 6), [], Jump(0), 0);
    SkipTwice(here, 8, 6, 1, 0);
    SkipTwice(here, 9, 6, 5, 3);
    SkipSizes(here, 8, 6);
    SkipSizes(here, 9, 6);
    SkipSizes(here, 14, 9);
    BuiltMore(d, d2, d3, fetch + [Jump(0)], Skip(here, 9, 6), [], inc, Skip(here, 14, 9));
    BuiltPlace(d, d3, fetch + [Jump(0)] + inc, Skip(here, 14, 9), []);
    TargetOfJump(0, start + 14);
    PatchMiddle(fetch, Jump(0), inc, start, start + 14);
    BuiltPatched(d, d3, fetch + [Jump(0)] + inc, Skip(here, 14, 9), [], [start + 8], start + 14);
    FetchIs(at, item, start, r);
  }

  lemma FetchIs(at: Place, item: string, start: nat, r: Register)
    ensures ForInTest(at, item, start, r, 0) == FetchCode(at, item, r, 0) + [Jump(start + 14)]
  {
  }

  /** The exit jump is the fourth instruction of the test. */
  lemma ForInTestPatched(at: Place, item: string, start: nat, r: Register, end: nat)
    ensures Patchable(ForInTest(at, item, start, r, 0), start, [start + 3])
    ensures Patch(ForInTest(at, item, start, r, 0), start, [start + 3], end) == ForInTest(at, item, start, r, end)
  {
    hide Patch, Patchable;
    var a := [LoadVar(r, IndexName(at)), LoadVar(r + 1, LengthName(at)), Compute(r + 2, Compare(Less), [r, r + 1])];
    var b := [LoadVar(r + 3, IterName(at)), LoadVar(r + 4, IndexName(at)), Compute(r + 5, Index, [r + 3, r + 4]),
              AssignVar(User(item), r + 5), Jump(start + 14)];
    JumpIfTarget(r + 2, false, end);
    PatchMiddle(a, JumpIf(r + 2, false, 0), b, start, end);
    assert ForInTest(at, item, start, r, 0) == a + [JumpIf(r + 2, false, 0)] + b;
    assert ForInTest(at, item, start, r, end) == a + [JumpIf(r + 2, false, end)] + b;
  }

  /** The loop from its test on. */
  lemma ForInLoop(
    at: Place, item: string, body: Stmt, d: Draft, d1: Draft, d2: Draft, d3: Draft, d5: Draft, d6: Draft
  )
    requires Built(d, d1, FetchCode(at, item, Here(d).regs, 0), Skip(Here(d), 8, 6), [])
    requires Emits(d1, d2, Jump(0), 0)
    requires Built(d2, d3, ForInIncrement(at, Here(d).code, Here(d2).regs), Skip(Here(d2), 5, 3), [])
    requires StmtBuilt(Pushed(Patched(d3, [Here(d1).code], Here(d3).code), Here(d2).code), d5, body) && d5.loops != []
    requires Emits(Popped(d5), d6, Jump(Here(d2).code), 0)
    ensures Patchable(d6.build.active.code, 0, [Here(d).code + 3])
    ensures
      var start, r := Here(d).code, Here(d).regs;
      var at2 := Skip(Here(d), 14, 9);
      var end := Skip(StmtEnd(body, at2), 1, 0);
      var d7 := Patched(d6, [start + 3], Here(d6).code);
      var breaks := d5.loops[|d5.loops| - 1].breakJumps;
      && Here(d7) == Here(d6) && Patchable(d7.build.active.code, 0, breaks)
      && Built(d, Patched(d7, breaks, Here(d6).code),
               ForInTest(at, item, start, r, end.code) + ForInIncrement(at, start, r + 6)
               + (StmtCode(body, at2, Loop(start + 9, end.code)) + [Jump(start + 9)]),
               end, StmtFunctions(body, at2))
  {
    hide *;
    var here := Here(d);
    var start, r := here.code, here.regs;
    var at2, c := Skip(here, 14, 9), start + 9;
    var end := Skip(StmtEnd(body, at2), 1, 0);
    var d4 := Patched(d3, [Here(d1).code], Here(d3).code);
    var test, inc := ForInTest(at, item, start, r, 0), ForInIncrement(at, start, r + 6);
    var code, fs := StmtCode(body, at2, Loop(c, 0)) + [Jump(c)], StmtFunctions(body, at2);
    ForInHead(at, item, d, d1, d2, d3);
    PatchedLoops(d3, [Here(d1).code], Here(d3).code);
    BodyBuilt(d4, c, d5, d6, body);
    BuiltThen(d, d4, d6, test + inc, at2, [], code, end, fs);
    assert [] + fs == fs && test + inc + code == test + (inc + code);
    ForInTestPatched(at, item, start, r, end.code);
    PatchBefore(test, inc + code, start, [start + 3], end.code);
    BuiltPatched(d, d6, test + (inc + code), end, fs, [start + 3], end.code);
    var d7, test' := Patched(d6, [start + 3], end.code), ForInTest(at, item, start, r, end.code);
    PatchedLoops(d6, [start + 3], end.code);
    assert test' + (inc + code) == test' + inc + code;
    ForInSizes(at, item, 0, r, start, end.code);
    ForInSizes(at, item, 0, r + 6, start, end.code);
    SkipSizes(here, 14, 9);
    LoopEnded(d, d7, test' + inc, body, at2, c, end, fs);
  }

  lemma ForInOk(s: Stmt, inLoop: bool)
    requires s.ForIn?
    ensures StmtOk(s, inLoop) == (ExprOk(s.iterable) && StmtOk(s.loopBody, true))
  {
  }

  lemma NamedFacts(d: Draft)
    ensures Here(Named(d)) == Here(d).(syns := Here(d).syns + 3)
    ensures DraftTargets(Named(d).loops) == DraftTargets(d.loops)
    ensures Built(d, Named(d), [], Here(Named(d)), [])
  {
    assert d.build.active.code + [] == d.build.active.code && d.build.functions + [] == d.build.functions;
  }

  /** After the three synthetic names have been made. */
  function Named(d: Draft): Draft {
    d.(serial := d.serial + 3)
  }

  lemma ForInBuilt(s: Stmt, d: Draft, d1: Draft, d2: Draft, d3: Draft, iterable: Register)
    requires s.ForIn? && ExprBuilt(Named(d), d1, s.iterable, iterable)
    requires Built(d1, d2, ForInSetup(Here(d), s.item, iterable, Here(d1).regs), Skip(Here(d1), 9, 5), [])
    requires
      var start, r := Here(d2).code, Here(d2).regs;
      var at2 := Skip(Here(d2), 14, 9);
      var end := Skip(StmtEnd(s.loopBody, at2), 1, 0);
      Built(d2, d3, ForInTest(Here(d), s.item, start, r, end.code) + ForInIncrement(Here(d), start, r + 6)
                    + (StmtCode(s.loopBody, at2, Loop(start + 9, end.code)) + [Jump(start + 9)]),
            end, StmtFunctions(s.loopBody, at2))
    ensures StmtBuilt(d, d3, s)
  {
    hide *;
    var at, d0 := Here(d), Named(d);
    var at0 := at.(syns := at.syns + 3);
    var at1, r := ExprEnd(s.iterable, at0), ExprEnd(s.iterable, at0).regs + 5;
    var start, at2 := at1.code + 9, BodyPlace(s, at);
    var end := Skip(StmtEnd(s.loopBody, at2), 1, 0);
    var code, fs := ExprCode(s.iterable, at0), ExprFunctions(s.iterable, at0);
    NamedFacts(d);
    ExprPlace(d0, d1, s.iterable, iterable);
    BuiltThen(d, d0, d1, [], at0, [], code, at1, fs);
    assert [] + code == code && [] + fs == fs;
    var setup := ForInSetup(at, s.item, iterable, at1.regs);
    BuiltMore(d, d1, d2, code, at1, fs, setup, Skip(at1, 9, 5));
    BuiltPlace(d, d2, code + setup, Skip(at1, 9, 5), fs);
    SkipSizes(at1, 9, 5);
    SkipTwice(at1, 9, 5, 14, 9);
    BodyPlaceIs(s, at);
    var test, inc := ForInTest(at, s.item, start, r, end.code), ForInIncrement(at, start, r + 6);
    var body, bodyFs := StmtCode(s.loopBody, at2, Loop(start + 9, end.code)), StmtFunctions(s.loopBody, at2);
    BuiltThen(d, d2, d3, code + setup, Skip(at1, 9, 5), fs, test + inc + (body + [Jump(start + 9)]), end, bodyFs);
    ForInCodeParts(s, at, DraftTargets(d.loops));
    ForInEnd(s, at);
    assert code + setup + (test + inc + (body + [Jump(start + 9)]))
        == code + setup + test + inc + body + [Jump(start + 9)];
    IsPlainStmt(d, d3, s, code + setup + test + inc + body + [Jump(start + 9)], end, fs + bodyFs);
  }

  lemma BodyPlaceIs(s: Stmt, at: Place)
    requires s.ForIn?
    ensures BodyPlace(s, at) == Skip(ExprEnd(s.iterable, at.(syns := at.syns + 3)), 23, 14)
  {
    hide ExprEnd;
  }

  lemma ForInEnd(s: Stmt, at: Place)
    requires s.ForIn?
    ensures StmtEnd(s, at) == Skip(StmtEnd(s.loopBody, BodyPlace(s, at)), 1, 0) && Breaks(s, at) == []
  {
    hide ExprEnd;
  }

  // ------------------------------------------------------------- match statements

  predicate StmtArmsLeft(
    d: Draft, d': Draft, arms: List<StmtArm>, rest: List<StmtArm>, v: Register,
    done: seq<Instr>, fs: seq<FunctionBody>, breaks: seq<nat>, ends: seq<nat>
  ) {
    var at, here, loop := Here(d), Here(d'), DraftTargets(d.loops);
    && Grown(d, d', done, here, fs, breaks)
    && done + StmtArmsCode(rest, v, here, loop, 0) == StmtArmsCode(arms, v, at, loop, 0)
    && fs + StmtArmsFunctions(rest, here) == StmtArmsFunctions(arms, at)
    && breaks + ArmBreaks(rest, here) == ArmBreaks(arms, at)
    && ends + StmtArmEnds(rest, here) == StmtArmEnds(arms, at)
    && StmtArmsEnd(rest, here) == StmtArmsEnd(arms, at)
    && StmtArmsOk(rest, d.loops != []) == StmtArmsOk(arms, d.loops != [])
  }

  lemma StmtArmsStart(d: Draft, arms: List<StmtArm>, v: Register)
    ensures StmtArmsLeft(d, d, arms, arms, v, [], [], [], [])
  {
    hide StmtArmsCode, StmtArmsFunctions, ArmBreaks, StmtArmEnds, StmtArmsEnd, StmtArmsOk;
    BuiltNothing(d);
    BuiltGrown(d, d, [], Here(d), []);
  }

  lemma StmtArmsLeftParts(
    d: Draft, d': Draft, arms: List<StmtArm>, rest: List<StmtArm>, v: Register,
    done: seq<Instr>, fs: seq<FunctionBody>, breaks: seq<nat>, ends: seq<nat>
  )
    ensures StmtArmsLeft(d, d', arms, rest, v, done, fs, breaks, ends)
        <==> && Grown(d, d', done, Here(d'), fs, breaks)
             && done + StmtArmsCode(rest, v, Here(d'), DraftTargets(d.loops), 0)
                == StmtArmsCode(arms, v, Here(d), DraftTargets(d.loops), 0)
             && fs + StmtArmsFunctions(rest, Here(d')) == StmtArmsFunctions(arms, Here(d))
             && breaks + ArmBreaks(rest, Here(d')) == ArmBreaks(arms, Here(d))
             && ends + StmtArmEnds(rest, Here(d')) == StmtArmEnds(arms, Here(d))
             && StmtArmsEnd(rest, Here(d')) == StmtArmsEnd(arms, Here(d))
             && StmtArmsOk(rest, d.loops != []) == StmtArmsOk(arms, d.loops != [])
  {
    hide Grown, StmtArmsCode, StmtArmsFunctions, ArmBreaks, StmtArmEnds, StmtArmsEnd, StmtArmsOk, DraftTargets;
  }

  /** One arm: test, body, jump, with the test's fail jumps sent to the next arm. */
  lemma StmtArmBuilt(d: Draft, d2: Draft, d3: Draft, d4: Draft, arm: StmtArm, v: Register)
    requires TestBuilt(d, d2, arm.pattern, arm.guard, v) && StmtBuilt(d2, d3, arm.body) && Emits(d3, d4, Jump(0), 0)
    ensures
      var at, loop := Here(d), DraftTargets(d.loops);
      var at1 := GuardPlace(arm.pattern, at);
      var at2 := GuardEnd(arm.guard, at1);
      var next := Skip(StmtEnd(arm.body, at2), 1, 0);
      && Here(d4) == next && Here(d3) == StmtEnd(arm.body, at2)
      && Patchable(d4.build.active.code, 0, TestFails(arm.pattern, arm.guard, at))
      && Grown(d, Patched(d4, TestFails(arm.pattern, arm.guard, at), next.code),
               TestCode(arm.pattern, arm.guard, v, at, next.code) + StmtCode(arm.body, at2, loop) + [Jump(0)],
               next, GuardFunctions(arm.guard, at1) + StmtFunctions(arm.body, at2), Breaks(arm.body, at2))
  {
    hide *;
    var at, loop := Here(d), DraftTargets(d.loops);
    var at1 := GuardPlace(arm.pattern, at);
    var at2 := GuardEnd(arm.guard, at1);
    var end := StmtEnd(arm.body, at2);
    var next := Skip(end, 1, 0);
    var test, code, guardFs := TestCode(arm.pattern, arm.guard, v, at, 0), StmtCode(arm.body, at2, loop),
                               GuardFunctions(arm.guard, at1);
    var fs, breaks, fails := guardFs + StmtFunctions(arm.body, at2), Breaks(arm.body, at2),
                             TestFails(arm.pattern, arm.guard, at);
    TestPlace(d, d2, arm.pattern, arm.guard, v);
    StmtPlace(d2, d3, arm.body);
    GrownAfter(d, d2, d3, test, at2, guardFs, code, end, StmtFunctions(arm.body, at2), breaks);
    EmitsPlace(d3, d4, Jump(0), 0);
    GrownMore(d, d3, d4, test + code, end, fs, breaks, [Jump(0)], next);
    TestPatched(arm.pattern, arm.guard, v, at, 0, next.code);
    PatchBefore(test, code + [Jump(0)], at.code, fails, next.code);
    assert test + code + [Jump(0)] == test + (code + [Jump(0)]);
    GrownPatched(d, d4, test + (code + [Jump(0)]), next, fs, breaks, fails, next.code);
    var test' := TestCode(arm.pattern, arm.guard, v, at, next.code);
    assert test' + (code + [Jump(0)]) == test' + code + [Jump(0)];
  }

  lemma StmtArmsOkStep(arms: List<StmtArm>, inLoop: bool)
    requires arms.Cons?
    ensures StmtArmsOk(arms, inLoop)
         == (PatternOk(arms.head.pattern) && GuardOk(arms.head.guard) && StmtOk(arms.head.body, inLoop)
             && StmtArmsOk(arms.tail, inLoop))
  {
  }

  lemma StmtArmsNext(
    d: Draft, d1: Draft, d2: Draft, d3: Draft, d4: Draft, arms: List<StmtArm>, rest: List<StmtArm>, v: Register,
    done: seq<Instr>, fs: seq<FunctionBody>, breaks: seq<nat>, ends: seq<nat>
  ) returns (done': seq<Instr>, fs': seq<FunctionBody>, breaks': seq<nat>)
    requires rest.Cons? && StmtArmsLeft(d, d1, arms, rest, v, done, fs, breaks, ends)
    requires TestBuilt(d1, d2, rest.head.pattern, rest.head.guard, v)
    requires StmtBuilt(d2, d3, rest.head.body) && Emits(d3, d4, Jump(0), 0)
    requires PatternOk(rest.head.pattern) && GuardOk(rest.head.guard) && StmtOk(rest.head.body, d.loops != [])
    ensures
      var fails := TestFails(rest.head.pattern, rest.head.guard, Here(d1));
      && Patchable(d4.build.active.code, 0, fails)
      && StmtArmsLeft(d, Patched(d4, fails, Here(d4).code), arms, rest.tail, v, done', fs', breaks', ends + [Here(d3).code])
  {
    hide *;
    var arm, here, loop := rest.head, Here(d1), DraftTargets(d.loops);
    var at1 := GuardPlace(arm.pattern, here);
    var at2 := GuardEnd(arm.guard, at1);
    var next := Skip(StmtEnd(arm.body, at2), 1, 0);
    StmtArmsLeftParts(d, d1, arms, rest, v, done, fs, breaks, ends);
    GrownPlace(d, d1, done, here, fs, breaks);
    StmtArmBuilt(d1, d2, d3, d4, arm, v);
    var d5 := Patched(d4, TestFails(arm.pattern, arm.guard, here), next.code);
    var code := TestCode(arm.pattern, arm.guard, v, here, next.code) + StmtCode(arm.body, at2, loop) + [Jump(0)];
    var armFs, armBreaks := GuardFunctions(arm.guard, at1) + StmtFunctions(arm.body, at2), Breaks(arm.body, at2);
    GrownThen(d, d1, d5, done, here, fs, breaks, code, next, armFs, armBreaks);
    done', fs', breaks' := done + code, fs + armFs, breaks + armBreaks;
    GrownPlace(d, d5, done', next, fs', breaks');
    StmtArmsParts(rest, v, here, loop, 0);
    TestCodeIs(arm.pattern, arm.guard, v, here, next.code);
    StmtArmEndsStep(rest, here);
    ArmBreaksStep(rest, here);
    StmtArmsOkStep(rest, d.loops != []);
    var tail, tailFs := StmtArmsCode(rest.tail, v, next, loop, 0), StmtArmsFunctions(rest.tail, next);
    assert done + (code + tail) == done + code + tail;
    assert fs + (armFs + tailFs) == fs + armFs + tailFs;
    assert breaks + (armBreaks + ArmBreaks(rest.tail, next)) == breaks + armBreaks + ArmBreaks(rest.tail, next);
    assert ends + ([Here(d3).code] + StmtArmEnds(rest.tail, next)) == ends + [Here(d3).code] + StmtArmEnds(rest.tail, next);
    StmtArmsLeftParts(d, d5, arms, rest.tail, v, done', fs', breaks', ends + [Here(d3).code]);
  }

  lemma MatchOk(s: Stmt, inLoop: bool)
    requires s.Match?
    ensures StmtOk(s, inLoop) == (ExprOk(s.scrutinee) && StmtArmsOk(s.arms, inLoop))
  {
  }

  lemma MatchBuilt(
    s: Stmt, d: Draft, d1: Draft, d2: Draft, v: Register, done: seq<Instr>, fs: seq<FunctionBody>, breaks: seq<nat>,
    ends: seq<nat>
  )
    requires s.Match? && ExprBuilt(d, d1, s.scrutinee, v)
    requires StmtArmsLeft(d1, d2, s.arms, Empty, v, done, fs, breaks, ends)
    ensures Patchable(d2.build.active.code, 0, ends) && StmtArmsOk(s.arms, d.loops != [])
    ensures StmtBuilt(d, Patched(d2, ends, Here(d2).code), s)
  {
    hide *;
    var at, loop := Here(d), DraftTargets(d.loops);
    var at1, end := ExprEnd(s.scrutinee, at), Here(d2);
    var code0, fs0 := ExprCode(s.scrutinee, at), ExprFunctions(s.scrutinee, at);
    ExprPlace(d, d1, s.scrutinee, v);
    StmtArmsLeftParts(d1, d2, s.arms, Empty, v, done, fs, breaks, ends);
    NoStmtArmParts(v, end, loop, d.loops != []);
    assert done + [] == done && fs + [] == fs && breaks + [] == breaks && ends + [] == ends;
    StmtArmEndsPatched(s.arms, v, at1, loop, 0, end.code);
    GrownPatched(d1, d2, done, end, fs, breaks, ends, end.code);
    var arms := StmtArmsCode(s.arms, v, at1, loop, end.code);
    GrownAfter(d, d1, Patched(d2, ends, end.code), code0, at1, fs0, arms, end, fs, breaks);
    MatchStmtParts(s, at, loop);
    MatchBreaksStep(s, at);
    IsStmt(d, Patched(d2, ends, end.code), s, code0 + arms, end, fs0 + fs, breaks);
  }

  lemma NoStmtArmParts(v: Register, at: Place, loop: Targets, inLoop: bool)
    ensures StmtArmsCode(Empty, v, at, loop, 0) == [] && StmtArmsFunctions(Empty, at) == []
    ensures StmtArmEnds(Empty, at) == [] && ArmBreaks(Empty, at) == [] && StmtArmsEnd(Empty, at) == at
    ensures StmtArmsOk(Empty, inLoop)
  {
  }
}
