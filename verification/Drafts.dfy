/** The abstract state of the compiler, and how emission and patching compose on it. */
module Drafts {
  import opened Runtime
  import opened Ast
  import opened IR
  import opened Lowering
  import opened FunctionTables
  import opened BackPatching
  import opened IRBuilder

  /** Where `continue` goes, and the `break` jumps that wait for the end of the loop. */
  datatype LoopContext = LoopContext(continueTarget: nat, breakJumps: seq<nat>)

  datatype Draft = Draft(build: Build, loops: seq<LoopContext>, serial: nat)

  function Here(d: Draft): Place {
    Place(|d.build.active.code|, d.build.active.registerCount, d.serial, |d.build.functions|)
  }

  /** The draft after emitting `code` and finishing `fs`, up to the place `end`. */
  function Emitted(d: Draft, code: seq<Instr>, end: Place, fs: seq<FunctionBody>): Draft {
    Draft(Append(d.build, code, end.regs, fs), d.loops, end.syns)
  }

  /** The `break` jumps are recorded with the innermost loop. */
  function WithBreaks(d: Draft, jumps: seq<nat>): Draft {
    if d.loops == [] then d
    else
      var last := |d.loops| - 1;
      d.(loops := d.loops[last := d.loops[last].(breakJumps := d.loops[last].breakJumps + jumps)])
  }

  function Patched(d: Draft, jumps: seq<nat>, target: nat): Draft {
    var active := d.build.active;
    d.(build := d.build.(active := active.(code := Patch(active.code, 0, jumps, target))))
  }

  /** The code of a statement while the loop around it is still being compiled. */
  function DraftTargets(loops: seq<LoopContext>): Targets {
    if loops == [] then NoLoop else Loop(loops[|loops| - 1].continueTarget, 0)
  }

  lemma EmittedThen(
    d: Draft, code1: seq<Instr>, end1: Place, fs1: seq<FunctionBody>, code2: seq<Instr>, end2: Place, fs2: seq<FunctionBody>
  )
    ensures Emitted(Emitted(d, code1, end1, fs1), code2, end2, fs2) == Emitted(d, code1 + code2, end2, fs1 + fs2)
  {
    var c, f := d.build.active.code, d.build.functions;
    assert (c + code1) + code2 == c + (code1 + code2);
    assert (f + fs1) + fs2 == f + (fs1 + fs2);
  }

  lemma EmittedNothing(d: Draft)
    ensures Emitted(d, [], Here(d), []) == d
  {
  }

  /** Patching jumps of the code emitted last. */
  lemma PatchedEmitted(d: Draft, code: seq<Instr>, end: Place, fs: seq<FunctionBody>, jumps: seq<nat>, target: nat)
    requires Patchable(code, Here(d).code, jumps)
    ensures Patched(Emitted(d, code, end, fs), jumps, target)
         == Emitted(d, Patch(code, Here(d).code, jumps, target), end, fs)
    ensures Patchable(Emitted(d, code, end, fs).build.active.code, 0, jumps)
  {
    hide Patch, Patchable;
    PatchAfter(d.build.active.code, code, 0, jumps, target);
  }

  lemma BreaksThen(d: Draft, a: seq<nat>, b: seq<nat>)
    ensures WithBreaks(WithBreaks(d, a), b) == WithBreaks(d, a + b)
  {
    if d.loops != [] {
      var last := |d.loops| - 1;
      var jumps := d.loops[last].breakJumps;
      assert (jumps + a) + b == jumps + (a + b);
      assert WithBreaks(WithBreaks(d, a), b).loops == WithBreaks(d, a + b).loops;
    }
  }

  lemma BreaksNone(d: Draft)
    ensures WithBreaks(d, []) == d
  {
    if d.loops != [] {
      var last := |d.loops| - 1;
      assert d.loops[last].breakJumps + [] == d.loops[last].breakJumps;
      assert d.loops[last := d.loops[last]] == d.loops;
    }
  }

  /** Emission and the recording of breaks do not interfere. */
  lemma BreaksEmitted(d: Draft, jumps: seq<nat>, code: seq<Instr>, end: Place, fs: seq<FunctionBody>)
    ensures Emitted(WithBreaks(d, jumps), code, end, fs) == WithBreaks(Emitted(d, code, end, fs), jumps)
    ensures Here(WithBreaks(d, jumps)) == Here(d)
    ensures WithBreaks(d, jumps).build == d.build && WithBreaks(d, jumps).serial == d.serial
    ensures DraftTargets(WithBreaks(d, jumps).loops) == DraftTargets(d.loops)
    ensures (WithBreaks(d, jumps).loops == []) == (d.loops == [])
  {
  }

  lemma BreaksPatchedDraft(d: Draft, breaks: seq<nat>, jumps: seq<nat>, target: nat)
    ensures Patched(WithBreaks(d, breaks), jumps, target) == WithBreaks(Patched(d, jumps, target), breaks)
  {
  }

  // ------------------------------------------------- composing compilation steps

  /** Compilation from `d` to `d'` has emitted `code` and finished `fs`, and stands at `end`. */
  predicate Built(d: Draft, d': Draft, code: seq<Instr>, end: Place, fs: seq<FunctionBody>) {
    && d' == Emitted(d, code, end, fs)
    && end.code == Here(d).code + |code|
    && end.fns == Here(d).fns + |fs|
  }

  lemma BuiltPlace(d: Draft, d': Draft, code: seq<Instr>, end: Place, fs: seq<FunctionBody>)
    requires Built(d, d', code, end, fs)
    ensures Here(d') == end && d'.loops == d.loops
    ensures end.code == Here(d).code + |code|
  {
  }

  lemma BuiltThen(
    d: Draft, d1: Draft, d2: Draft, code1: seq<Instr>, end1: Place, fs1: seq<FunctionBody>,
    code2: seq<Instr>, end2: Place, fs2: seq<FunctionBody>
  )
    requires Built(d, d1, code1, end1, fs1) && Built(d1, d2, code2, end2, fs2)
    ensures Built(d, d2, code1 + code2, end2, fs1 + fs2)
  {
    EmittedThen(d, code1, end1, fs1, code2, end2, fs2);
  }

  /** The same when the second step finishes no function. */
  lemma BuiltMore(
    d: Draft, d1: Draft, d2: Draft, code1: seq<Instr>, end1: Place, fs: seq<FunctionBody>, code2: seq<Instr>, end2: Place
  )
    requires Built(d, d1, code1, end1, fs) && Built(d1, d2, code2, end2, [])
    ensures Built(d, d2, code1 + code2, end2, fs)
  {
    EmittedThen(d, code1, end1, fs, code2, end2, []);
    assert fs + [] == fs;
  }

  lemma BuiltNothing(d: Draft)
    ensures Built(d, d, [], Here(d), [])
  {
    EmittedNothing(d);
  }

  /** One instruction, which may take a register. */
  lemma BuiltInstr(d: Draft, d': Draft, i: Instr, regs: nat)
    requires d' == Draft(Append(d.build, [i], d.build.active.registerCount + regs, []), d.loops, d.serial)
    ensures Built(d, d', [i], Skip(Here(d), 1, regs), [])
  {
  }

  lemma BuiltRegister(d: Draft, d': Draft)
    requires d' == Draft(Append(d.build, [], d.build.active.registerCount + 1, []), d.loops, d.serial)
    ensures Built(d, d', [], Skip(Here(d), 0, 1), [])
  {
  }

  lemma BuiltPatched(
    d: Draft, d1: Draft, code: seq<Instr>, end: Place, fs: seq<FunctionBody>, jumps: seq<nat>, target: nat
  )
    requires Built(d, d1, code, end, fs) && Patchable(code, Here(d).code, jumps)
    ensures Built(d, Patched(d1, jumps, target), Patch(code, Here(d).code, jumps, target), end, fs)
    ensures Patchable(d1.build.active.code, 0, jumps)
  {
    PatchedEmitted(d, code, end, fs, jumps, target);
  }

  /** The same for statements, whose `break` jumps are left to the loop around them. */
  predicate Grown(d: Draft, d': Draft, code: seq<Instr>, end: Place, fs: seq<FunctionBody>, breaks: seq<nat>) {
    && d' == WithBreaks(Emitted(d, code, end, fs), breaks)
    && end.code == Here(d).code + |code|
    && end.fns == Here(d).fns + |fs|
  }

  lemma GrownPlace(d: Draft, d': Draft, code: seq<Instr>, end: Place, fs: seq<FunctionBody>, breaks: seq<nat>)
    requires Grown(d, d', code, end, fs, breaks)
    ensures Here(d') == end && end.code == Here(d).code + |code|
    ensures DraftTargets(d'.loops) == DraftTargets(d.loops) && (d'.loops == []) == (d.loops == [])
  {
    hide DraftTargets;
    BreaksEmitted(Emitted(d, code, end, fs), breaks, [], end, []);
  }

  lemma BuiltGrown(d: Draft, d': Draft, code: seq<Instr>, end: Place, fs: seq<FunctionBody>)
    requires Built(d, d', code, end, fs)
    ensures Grown(d, d', code, end, fs, [])
  {
    BreaksNone(d');
  }

  lemma GrownThen(
    d: Draft, d1: Draft, d2: Draft, code1: seq<Instr>, end1: Place, fs1: seq<FunctionBody>, breaks1: seq<nat>,
    code2: seq<Instr>, end2: Place, fs2: seq<FunctionBody>, breaks2: seq<nat>
  )
    requires Grown(d, d1, code1, end1, fs1, breaks1) && Grown(d1, d2, code2, end2, fs2, breaks2)
    ensures Grown(d, d2, code1 + code2, end2, fs1 + fs2, breaks1 + breaks2)
  {
    hide Emitted, WithBreaks;
    var x := Emitted(d, code1, end1, fs1);
    GrownPlace(d, d1, code1, end1, fs1, breaks1);
    BreaksEmitted(x, breaks1, code2, end2, fs2);
    EmittedThen(d, code1, end1, fs1, code2, end2, fs2);
    BreaksThen(Emitted(x, code2, end2, fs2), breaks1, breaks2);
  }

  /** A statement and then code without functions or breaks of its own. */
  lemma GrownMore(
    d: Draft, d1: Draft, d2: Draft, code1: seq<Instr>, end1: Place, fs: seq<FunctionBody>, breaks: seq<nat>,
    code2: seq<Instr>, end2: Place
  )
    requires Grown(d, d1, code1, end1, fs, breaks) && Built(d1, d2, code2, end2, [])
    ensures Grown(d, d2, code1 + code2, end2, fs, breaks)
  {
    hide Emitted, WithBreaks, Grown, Built;
    BuiltGrown(d1, d2, code2, end2, []);
    GrownThen(d, d1, d2, code1, end1, fs, breaks, code2, end2, [], []);
    assert fs + [] == fs && breaks + [] == breaks;
  }

  /** Code without breaks and then a statement. */
  lemma GrownAfter(
    d: Draft, d1: Draft, d2: Draft, code1: seq<Instr>, end1: Place, fs1: seq<FunctionBody>,
    code2: seq<Instr>, end2: Place, fs2: seq<FunctionBody>, breaks: seq<nat>
  )
    requires Built(d, d1, code1, end1, fs1) && Grown(d1, d2, code2, end2, fs2, breaks)
    ensures Grown(d, d2, code1 + code2, end2, fs1 + fs2, breaks)
  {
    hide Emitted, WithBreaks, Grown, Built;
    BuiltGrown(d, d1, code1, end1, fs1);
    GrownThen(d, d1, d2, code1, end1, fs1, [], code2, end2, fs2, breaks);
    assert [] + breaks == breaks;
  }

  lemma GrownPatched(
    d: Draft, d1: Draft, code: seq<Instr>, end: Place, fs: seq<FunctionBody>, breaks: seq<nat>, jumps: seq<nat>, target: nat
  )
    requires Grown(d, d1, code, end, fs, breaks) && Patchable(code, Here(d).code, jumps)
    ensures Grown(d, Patched(d1, jumps, target), Patch(code, Here(d).code, jumps, target), end, fs, breaks)
    ensures Patchable(d1.build.active.code, 0, jumps)
  {
    hide Patch, Patchable, WithBreaks, Emitted, Patched;
    var x := Emitted(d, code, end, fs);
    PatchedEmitted(d, code, end, fs, jumps, target);
    BreaksEmitted(x, breaks, [], end, []);
    BreaksPatchedDraft(x, breaks, jumps, target);
  }

  function Pushed(d: Draft, continueTarget: nat): Draft {
    d.(loops := d.loops + [LoopContext(continueTarget, [])])
  }

  function Popped(d: Draft): Draft
    requires d.loops != []
  {
    d.(loops := d.loops[..|d.loops| - 1])
  }

  /** A loop body compiled under its own loop context. */
  lemma LoopPopped(
    d: Draft, c: nat, d': Draft, code: seq<Instr>, end: Place, fs: seq<FunctionBody>, breaks: seq<nat>
  )
    requires Grown(Pushed(d, c), d', code, end, fs, breaks)
    ensures d'.loops != [] && d'.loops[|d'.loops| - 1].breakJumps == breaks
    ensures Built(d, Popped(d'), code, end, fs)
  {
    assert [] + breaks == breaks;
    assert (d.loops + [LoopContext(c, [])])[..|d.loops|] == d.loops;
  }

  lemma PushedFacts(d: Draft, c: nat)
    ensures Here(Pushed(d, c)) == Here(d) && DraftTargets(Pushed(d, c).loops) == Loop(c, 0) && Pushed(d, c).loops != []
  {
  }

  /** A function body is compiled in its own stream, outside all loops. */
  function Opened(d: Draft, f: FunctionDef): Draft {
    Draft(Begun(d.build, f.functionLabel, f.parameters), [], d.serial)
  }

  lemma OpenedFacts(d: Draft, f: FunctionDef)
    ensures Here(Opened(d, f)) == Inner(Here(d)) && DraftTargets(Opened(d, f).loops) == NoLoop && Opened(d, f).loops == []
    ensures Opened(d, f).build.outer == d.build.outer + [d.build.active]
  {
  }

  lemma SkipTwice(at: Place, code1: nat, regs1: nat, code2: nat, regs2: nat)
    ensures Skip(Skip(at, code1, regs1), code2, regs2) == Skip(at, code1 + code2, regs1 + regs2)
  {
  }
}
