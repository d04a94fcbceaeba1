/** Compilation steps of patterns: fail jumps are collected while drafting, each
    alternative's are patched to the next alternative, exits to the end.
 */
module PatternSteps {
  import opened Runtime
  import opened Ast
  import opened IR
  import opened Lowering
  import opened FunctionTables
  import opened CodeEquations
  import opened BackPatching
  import opened IRBuilder
  import opened Drafts
  import opened CompilerSteps
  import opened PatternSimulation

  /** A pattern compiled on draft `d`, with its fail jumps not yet patched. */
  predicate PatternBuilt(d: Draft, d': Draft, p: Pattern, v: Register) {
    Built(d, d', PatternCode(p, v, Here(d), 0), PatternEnd(p, Here(d)), [])
  }

  lemma PatternPlace(d: Draft, d': Draft, p: Pattern, v: Register)
    requires PatternBuilt(d, d', p, v)
    ensures Built(d, d', PatternCode(p, v, Here(d), 0), PatternEnd(p, Here(d)), [])
    ensures Here(d') == PatternEnd(p, Here(d)) && d'.loops == d.loops
  {
    hide PatternCode, PatternEnd, Built;
    BuiltPlace(d, d', PatternCode(p, v, Here(d), 0), PatternEnd(p, Here(d)), []);
  }

  lemma IsPattern(d: Draft, d': Draft, p: Pattern, v: Register, code: seq<Instr>, end: Place)
    requires Built(d, d', code, end, []) && code == PatternCode(p, v, Here(d), 0) && end == PatternEnd(p, Here(d))
    ensures PatternBuilt(d, d', p, v)
  {
  }

  lemma LeafBuilt(d: Draft, p: Pattern, v: Register)
    requires p.Wildcard? || p.Bind?
    ensures PatternBuilt(d, d, p, v) && PatternOk(p) && FailJumps(p, Here(d)) == []
    ensures PatternBindings(p, v, Here(d)) == if p.Bind? then [(p.name, v)] else []
  {
    BuiltNothing(d);
  }

  lemma LiteralPatternBuilt(
    p: Pattern, v: Register, d: Draft, d1: Draft, d2: Draft, d3: Draft, expected: Register, equal: Register
  )
    requires p.LiteralPattern? && expected == Here(d).regs && equal == Here(d1).regs
    requires Emits(d, d1, Compute(expected, Constant(p.constant), []), 1)
    requires Emits(d1, d2, Compute(equal, Equal, [v, expected]), 1)
    requires Emits(d2, d3, JumpIf(equal, false, 0), 0)
    ensures PatternBuilt(d, d3, p, v) && PatternOk(p) && FailJumps(p, Here(d)) == [Here(d2).code]
    ensures PatternBindings(p, v, Here(d)) == []
  {
    hide *;
    var at := Here(d);
    var first, second, jump := Compute(expected, Constant(p.constant), []), Compute(equal, Equal, [v, expected]),
                               JumpIf(equal, false, 0);
    FirstEmits(d, d1, first, 1);
    ThenEmits(d, d1, d2, [first], Skip(at, 1, 1), [], second, 1);
    ThenEmits(d, d2, d3, [first] + [second], Skip(Skip(at, 1, 1), 1, 1), [], jump, 0);
    SkipTwice(at, 1, 1, 1, 1);
    SkipTwice(at, 2, 2, 1, 0);
    SkipSizes(at, 1, 1);
    SkipSizes(at, 2, 2);
    LiteralPatternParts(p, v, at);
    assert [first] + [second] + [jump] == [first, second, jump];
    IsPattern(d, d3, p, v, [first, second, jump], Skip(at, 3, 2));
  }

  lemma LiteralPatternParts(p: Pattern, v: Register, at: Place)
    requires p.LiteralPattern?
    ensures PatternCode(p, v, at, 0)
         == [Compute(at.regs, Constant(p.constant), []), Compute(at.regs + 1, Equal, [v, at.regs]),
             JumpIf(at.regs + 1, false, 0)]
    ensures PatternEnd(p, at) == Skip(at, 3, 2) && FailJumps(p, at) == [at.code + 2] && PatternBindings(p, v, at) == []
    ensures PatternOk(p)
  {
  }

  /** The components still to be compiled complete the component code that began at `at`. */
  predicate ComponentsLeft(
    d: Draft, d': Draft, parts: List<Component>, rest: List<Component>, v: Register, done: seq<Instr>,
    fails: seq<nat>, bs: Bound
  ) {
    var at, here := Here(d), Here(d');
    && Built(d, d', done, here, [])
    && done + ComponentsCode(rest, v, here, 0) == ComponentsCode(parts, v, at, 0)
    && fails + ComponentFails(rest, here) == ComponentFails(parts, at)
    && bs + ComponentBindings(rest, v, here) == ComponentBindings(parts, v, at)
    && ComponentsEnd(rest, here) == ComponentsEnd(parts, at)
    && ComponentsOk(rest) == ComponentsOk(parts)
  }

  lemma ComponentsStart(d: Draft, parts: List<Component>, v: Register)
    ensures ComponentsLeft(d, d, parts, parts, v, [], [], [])
  {
    hide ComponentsCode, ComponentFails, ComponentBindings, ComponentsEnd, ComponentsOk;
    BuiltNothing(d);
  }

  lemma ComponentsOkStep(parts: List<Component>)
    requires parts.Cons?
    ensures ComponentsOk(parts) == (PatternOk(parts.head.pattern) && ComponentsOk(parts.tail))
  {
  }

  lemma ComponentBindingsStep(parts: List<Component>, v: Register, at: Place)
    requires parts.Cons?
    ensures
      var at1 := Skip(at, 1, 1);
      var at2 := PatternEnd(parts.head.pattern, at1);
      && ComponentBindings(parts, v, at)
         == PatternBindings(parts.head.pattern, at.regs, at1) + ComponentBindings(parts.tail, v, at2)
      && ComponentsEnd(parts, at) == ComponentsEnd(parts.tail, at2)
  {
    hide PatternBindings, PatternEnd;
  }

  lemma ComponentsNext(
    d: Draft, d1: Draft, d2: Draft, d3: Draft, parts: List<Component>, rest: List<Component>, v: Register,
    done: seq<Instr>, fails: seq<nat>, bs: Bound, field: Register
  )
    requires rest.Cons? && ComponentsLeft(d, d1, parts, rest, v, done, fails, bs) && PatternOk(rest.head.pattern)
    requires field == Here(d1).regs && Emits(d1, d2, Compute(field, SelectorPrim(rest.head.selector), [v]), 1)
    requires PatternBuilt(d2, d3, rest.head.pattern, field)
    ensures
      var at1 := Here(d2);
      && Here(d2) == Skip(Here(d1), 1, 1)
      && ComponentsLeft(d, d3, parts, rest.tail, v,
                        done + [Compute(field, SelectorPrim(rest.head.selector), [v])]
                        + PatternCode(rest.head.pattern, field, at1, 0),
                        fails + FailJumps(rest.head.pattern, at1), bs + PatternBindings(rest.head.pattern, field, at1))
  {
    hide Built, PatternBuilt, Emits, ComponentsCode, ComponentFails, ComponentBindings, ComponentsEnd, ComponentsOk,
      PatternCode, PatternEnd, FailJumps, PatternBindings, PatternOk;
    var here, at1, pattern := Here(d1), Here(d2), rest.head.pattern;
    var select, code := Compute(field, SelectorPrim(rest.head.selector), [v]), PatternCode(rest.head.pattern, field, at1, 0);
    var at2 := PatternEnd(pattern, at1);
    ThenEmits(d, d1, d2, done, here, [], select, 1);
    PatternPlace(d2, d3, pattern, field);
    BuiltMore(d, d2, d3, done + [select], at1, [], code, at2);
    ComponentsParts(rest, v, here, 0);
    ComponentFailsStep(rest, here);
    ComponentBindingsStep(rest, v, here);
    ComponentsOkStep(rest);
    var tail := ComponentsCode(rest.tail, v, at2, 0);
    assert done + ([select] + code + tail) == done + [select] + code + tail;
    assert fails + (FailJumps(pattern, at1) + ComponentFails(rest.tail, at2))
        == fails + FailJumps(pattern, at1) + ComponentFails(rest.tail, at2);
    assert bs + (PatternBindings(pattern, field, at1) + ComponentBindings(rest.tail, v, at2))
        == bs + PatternBindings(pattern, field, at1) + ComponentBindings(rest.tail, v, at2);
  }

  lemma ComponentsDone(
    d: Draft, d': Draft, parts: List<Component>, v: Register, done: seq<Instr>, fails: seq<nat>, bs: Bound
  )
    requires ComponentsLeft(d, d', parts, Empty, v, done, fails, bs)
    ensures Built(d, d', ComponentsCode(parts, v, Here(d), 0), ComponentsEnd(parts, Here(d)), [])
    ensures fails == ComponentFails(parts, Here(d)) && bs == ComponentBindings(parts, v, Here(d)) && ComponentsOk(parts)
  {
    hide Built;
    assert done + [] == done && fails + [] == fails && bs + [] == bs;
  }

  lemma RecordBuilt(p: Pattern, v: Register, d: Draft, d1: Draft)
    requires p.RecordPattern? && Built(d, d1, ComponentsCode(p.parts, v, Here(d), 0), ComponentsEnd(p.parts, Here(d)), [])
    ensures PatternBuilt(d, d1, p, v) && FailJumps(p, Here(d)) == ComponentFails(p.parts, Here(d))
    ensures PatternBindings(p, v, Here(d)) == ComponentBindings(p.parts, v, Here(d)) && PatternOk(p) == ComponentsOk(p.parts)
  {
  }

  lemma VariantBuilt(p: Pattern, v: Register, d: Draft, d1: Draft, d2: Draft, d3: Draft, tag: Register)
    requires p.VariantPattern? && tag == Here(d).regs
    requires Emits(d, d1, Compute(tag, VariantTag(p.enumName, p.variantName), [v]), 1)
    requires Emits(d1, d2, JumpIf(tag, false, 0), 0)
    requires Built(d2, d3, ComponentsCode(p.parts, v, Here(d2), 0), ComponentsEnd(p.parts, Here(d2)), [])
    ensures PatternBuilt(d, d3, p, v)
    ensures FailJumps(p, Here(d)) == [Here(d1).code] + ComponentFails(p.parts, Here(d2))
    ensures PatternBindings(p, v, Here(d)) == ComponentBindings(p.parts, v, Here(d2))
  {
    hide *;
    var at := Here(d);
    var first, jump := Compute(tag, VariantTag(p.enumName, p.variantName), [v]), JumpIf(tag, false, 0);
    FirstEmits(d, d1, first, 1);
    ThenEmits(d, d1, d2, [first], Skip(at, 1, 1), [], jump, 0);
    SkipTwice(at, 1, 1, 1, 0);
    SkipSizes(at, 1, 1);
    var at1 := Skip(at, 2, 1);
    BuiltMore(d, d2, d3, [first] + [jump], at1, [], ComponentsCode(p.parts, v, at1, 0), ComponentsEnd(p.parts, at1));
    VariantParts(p, v, at);
    assert [first] + [jump] == [first, jump];
    IsPattern(d, d3, p, v, [first, jump] + ComponentsCode(p.parts, v, at1, 0), ComponentsEnd(p.parts, at1));
  }

  lemma VariantParts(p: Pattern, v: Register, at: Place)
    requires p.VariantPattern?
    ensures
      var at1 := Skip(at, 2, 1);
      && PatternCode(p, v, at, 0)
         == [Compute(at.regs, VariantTag(p.enumName, p.variantName), [v]), JumpIf(at.regs, false, 0)]
            + ComponentsCode(p.parts, v, at1, 0)
      && PatternEnd(p, at) == ComponentsEnd(p.parts, at1)
      && FailJumps(p, at) == [at.code + 1] + ComponentFails(p.parts, at1)
      && PatternBindings(p, v, at) == ComponentBindings(p.parts, v, at1)
  {
    hide ComponentsCode, ComponentsEnd, ComponentFails, ComponentBindings;
  }

  // --------------------------------------------------------------- merged bindings

  /** The copies still to be emitted complete the merge of `bs`. */
  predicate MergeLeft(d: Draft, d': Draft, bs: Bound, k: nat, names: seq<string>, base: Register, regs: nat, done: seq<Instr>)
  {
    && k <= |bs|
    && Built(d, d', done, Skip(Here(d), k, regs), [])
    && done + MergeCode(bs[k..], names, base) == MergeCode(bs, names, base)
  }

  lemma MergeStart(d: Draft, bs: Bound, names: seq<string>, base: Register)
    ensures MergeLeft(d, d, bs, 0, names, base, 0, [])
  {
    hide MergeCode;
    BuiltNothing(d);
    assert bs[0..] == bs;
  }

  lemma MergeNext(
    d: Draft, d1: Draft, d2: Draft, bs: Bound, k: nat, names: seq<string>, base: Register, regs: nat, done: seq<Instr>,
    target: Register, more: nat
  )
    requires MergeLeft(d, d1, bs, k, names, base, regs, done) && k < |bs| && target == base + IndexOf(names, bs[k].0)
    requires Built(d1, d2, [Copy(target, bs[k].1)], Skip(Here(d1), 1, more), [])
    ensures MergeLeft(d, d2, bs, k + 1, names, base, regs + more, done + [Copy(target, bs[k].1)])
  {
    hide Built, IndexOf;
    var copy, end := Copy(target, bs[k].1), Skip(Here(d), k, regs);
    BuiltPlace(d, d1, done, end, []);
    BuiltMore(d, d1, d2, done, end, [], [copy], Skip(end, 1, more));
    SkipTwice(Here(d), k, regs, 1, more);
    assert bs[k..][1..] == bs[k + 1..];
    assert MergeCode(bs[k..], names, base) == [copy] + MergeCode(bs[k + 1..], names, base);
    assert done + ([copy] + MergeCode(bs[k + 1..], names, base)) == done + [copy] + MergeCode(bs[k + 1..], names, base);
  }

  lemma MergeDone(d: Draft, d': Draft, bs: Bound, names: seq<string>, base: Register, regs: nat, done: seq<Instr>)
    requires MergeLeft(d, d', bs, |bs|, names, base, regs, done)
    ensures Built(d, d', MergeCode(bs, names, base), Skip(Here(d), |bs|, regs), [])
  {
    hide Built;
    assert bs[|bs|..] == [] && done + [] == done;
  }

  lemma {:induction false} IndexOfFirst(names: seq<string>, k: nat)
    requires k < |names| && names[k] !in names[..k]
    ensures IndexOf(names, names[k]) == k
  {
    if k > 0 {
      assert names[..k][0] == names[0];
      assert names[1..][..k - 1] == names[..k][1..];
      IndexOfFirst(names[1..], k - 1);
    }
  }

  // ----------------------------------------------------------------- alternatives

  /** The OR-pattern before its exit jumps and its last fail jumps are patched. */
  function OrDraft(p: Pattern, v: Register, at: Place): seq<Instr>
    requires p.OrPattern?
  {
    var next, names := OrNext(p, at), PatternNames(p.first);
    var base := PatternEnd(p.first, at).regs;
    PatternCode(p.first, v, at, NextOr(p.others, next, 0))
    + MergeCode(PatternBindings(p.first, v, at), names, base)
    + ExitJump(p.others, 0)
    + AlternativesCode(p.others, names, base, v, next, 0, 0)
  }

  function OrExits(p: Pattern, at: Place): seq<nat>
    requires p.OrPattern?
  {
    var exit := PatternEnd(p.first, at).code + |PatternNames(p.first)|;
    if p.others.Empty? then [] else [exit] + ExitJumps(p.others, OrNext(p, at))
  }

  /** The alternatives still to be compiled complete the OR-pattern, once the pending fail jumps are patched. */
  predicate OrLeft(
    d: Draft, d': Draft, p: Pattern, v: Register, rest: List<Pattern>, done: seq<Instr>, pending: seq<nat>,
    success: seq<nat>, fails: seq<nat>
  )
    requires p.OrPattern?
  {
    var at, here := Here(d), Here(d');
    var names, base := PatternNames(p.first), PatternEnd(p.first, at).regs;
    && Built(d, d', done, here, [])
    && Patchable(done, at.code, pending)
    && (rest.Empty? ==> pending == [])
    && Patch(done, at.code, pending, here.code) + AlternativesCode(rest, names, base, v, here, 0, 0) == OrDraft(p, v, at)
    && success + ExitJumps(rest, here) == OrExits(p, at)
    && fails + AlternativeFails(rest, here) == FailJumps(p, at)
    && AlternativesEnd(rest, here) == PatternEnd(p, at)
    && AlternativesOk(rest, names) == AlternativesOk(p.others, names)
  }

  lemma OrBegin(d: Draft, d1: Draft, d2: Draft, d3: Draft, p: Pattern, v: Register)
    requires p.OrPattern? && PatternBuilt(d, d1, p.first, v)
    requires
      var names := PatternNames(p.first);
      Built(d1, d2, MergeCode(PatternBindings(p.first, v, Here(d)), names, Here(d1).regs), Skip(Here(d1), |names|, |names|), [])
    requires if p.others.Cons? then Emits(d2, d3, Jump(0), 0) else d3 == d2
    ensures
      var fails, cons := FailJumps(p.first, Here(d)), p.others.Cons?;
      var exit := if cons then [Jump(0)] else [];
      OrLeft(d, d3, p, v, p.others,
             PatternCode(p.first, v, Here(d), 0)
             + MergeCode(PatternBindings(p.first, v, Here(d)), PatternNames(p.first), Here(d1).regs) + exit,
             if cons then fails else [], if cons then [Here(d2).code] else [], if cons then [] else fails)
  {
    hide *;
    var at, names := Here(d), PatternNames(p.first);
    var code, end1, fails := PatternCode(p.first, v, at, 0), PatternEnd(p.first, at), FailJumps(p.first, at);
    var base := end1.regs;
    PatternPlace(d, d1, p.first, v);
    var merge := MergeCode(PatternBindings(p.first, v, at), names, base);
    var end2 := Skip(end1, |names|, |names|);
    BuiltMore(d, d1, d2, code, end1, [], merge, end2);
    BuiltPlace(d, d2, code + merge, end2, []);
    SkipSizes(end1, |names|, |names|);
    OrBeginParts(p, v, at);
    if p.others.Cons? {
      ThenEmits(d, d2, d3, code + merge, end2, [], Jump(0), 0);
      SkipTwice(end1, |names|, |names|, 1, 0);
      BuiltPlace(d, d3, code + merge + [Jump(0)], OrNext(p, at), []);
      FailsPatched(p.first, v, at, 0, OrNext(p, at).code);
      PatchBefore(code, merge, at.code, fails, OrNext(p, at).code);
      PatchBefore(code + merge, [Jump(0)], at.code, fails, OrNext(p, at).code);
      IsOrLeft(d, d3, p, v, p.others, code + merge + [Jump(0)], fails, [Here(d2).code], []);
    } else {
      SkipNothing(end2);
      PatchNone(code + merge + [], at.code, end2.code);
      assert code + merge + [] == code + merge;
      NoAlternatives(names, base, v, end2, 0, 0, 0);
      assert code + merge + [] + [] == code + merge;
      assert fails + [] == fails;
      IsOrLeft(d, d2, p, v, p.others, code + merge + [], [], [], fails);
    }
  }

  lemma SkipNothing(at: Place)
    ensures Skip(at, 0, 0) == at
  {
  }

  lemma IsOrLeft(
    d: Draft, d': Draft, p: Pattern, v: Register, rest: List<Pattern>, done: seq<Instr>, pending: seq<nat>,
    success: seq<nat>, fails: seq<nat>
  )
    requires p.OrPattern?
    requires Built(d, d', done, Here(d'), []) && Patchable(done, Here(d).code, pending) && (rest.Empty? ==> pending == [])
    requires Patch(done, Here(d).code, pending, Here(d').code)
             + AlternativesCode(rest, PatternNames(p.first), PatternEnd(p.first, Here(d)).regs, v, Here(d'), 0, 0)
             == OrDraft(p, v, Here(d))
    requires success + ExitJumps(rest, Here(d')) == OrExits(p, Here(d))
    requires fails + AlternativeFails(rest, Here(d')) == FailJumps(p, Here(d))
    requires AlternativesEnd(rest, Here(d')) == PatternEnd(p, Here(d))
    requires AlternativesOk(rest, PatternNames(p.first)) == AlternativesOk(p.others, PatternNames(p.first))
    ensures OrLeft(d, d', p, v, rest, done, pending, success, fails)
  {
    hide Built, Patchable, Patch, AlternativesCode, OrDraft, ExitJumps, OrExits, AlternativeFails, FailJumps,
      AlternativesEnd, PatternEnd, AlternativesOk;
  }

  lemma OrBeginParts(p: Pattern, v: Register, at: Place)
    requires p.OrPattern?
    ensures
      var names, end1, cons := PatternNames(p.first), PatternEnd(p.first, at), p.others.Cons?;
      var base, next := end1.regs, OrNext(p, at);
      && next == Skip(end1, |names| + (if cons then 1 else 0), |names|)
      && PatternEnd(p, at) == AlternativesEnd(p.others, next)
      && FailJumps(p, at) == (if cons then AlternativeFails(p.others, next) else FailJumps(p.first, at))
      && OrExits(p, at) == (if cons then [end1.code + |names|] + ExitJumps(p.others, next) else [])
      && OrDraft(p, v, at)
         == PatternCode(p.first, v, at, if cons then next.code else 0)
            + MergeCode(PatternBindings(p.first, v, at), names, base)
            + (if cons then [Jump(0)] else []) + AlternativesCode(p.others, names, base, v, next, 0, 0)
  {
    hide PatternEnd, PatternCode, PatternBindings, MergeCode, AlternativesCode, PatternNames, AlternativesEnd, FailJumps,
      AlternativeFails, ExitJumps;
    assert PatternEnd(p, at) == AlternativesEnd(p.others, OrNext(p, at)) by {
      OrEndStep(p, at);
    }
    OrFailsStep(p, at);
  }

  lemma OrEndStep(p: Pattern, at: Place)
    requires p.OrPattern?
    ensures PatternEnd(p, at) == AlternativesEnd(p.others, OrNext(p, at))
  {
    hide OrNext, AlternativesEnd;
  }

  lemma OrFailsStep(p: Pattern, at: Place)
    requires p.OrPattern?
    ensures FailJumps(p, at)
         == if p.others.Cons? then AlternativeFails(p.others, OrNext(p, at)) else FailJumps(p.first, at)
  {
    hide OrNext, AlternativeFails;
  }

  /** The next alternative: the pending jumps now reach it, and its own become pending. */
  lemma OrContinue(
    d: Draft, d0: Draft, d1: Draft, d2: Draft, d3: Draft, p: Pattern, v: Register, rest: List<Pattern>, done: seq<Instr>,
    pending: seq<nat>, success: seq<nat>, fails: seq<nat>
  ) returns (done': seq<Instr>)
    requires p.OrPattern? && rest.Cons? && OrLeft(d, d0, p, v, rest, done, pending, success, fails)
    requires PatternBuilt(Patched(d0, pending, Here(d0).code), d1, rest.head, v)
    requires
      var names, base := PatternNames(p.first), PatternEnd(p.first, Here(d)).regs;
      && SameBindings(names, PatternNames(rest.head)) && PatternOk(rest.head)
      && Built(d1, d2, MergeCode(PatternBindings(rest.head, v, Here(d0)), names, base),
               Skip(Here(d1), |PatternNames(rest.head)|, 0), [])
    requires if rest.tail.Cons? then Emits(d2, d3, Jump(0), 0) else d3 == d2
    ensures
      var altFails, cons := FailJumps(rest.head, Here(d0)), rest.tail.Cons?;
      OrLeft(d, d3, p, v, rest.tail, done', if cons then altFails else [],
             if cons then success + [Here(d2).code] else success, if cons then fails else fails + altFails)
  {
    hide *;
    var at, here, cons := Here(d), Here(d0), rest.tail.Cons?;
    var other, names, base := rest.head, PatternNames(p.first), PatternEnd(p.first, at).regs;
    OrLeftParts(d, d0, p, v, rest, done, pending, success, fails);
    var before := Patch(done, at.code, pending, here.code);
    var dp := Patched(d0, pending, here.code);
    BuiltPatched(d, d0, done, here, [], pending, here.code);
    BuiltPlace(d, dp, before, here, []);
    var code, end1, altFails := PatternCode(other, v, here, 0), PatternEnd(other, here), FailJumps(other, here);
    PatternPlace(dp, d1, other, v);
    BuiltMore(d, dp, d1, before, here, [], code, end1);
    var n := |PatternNames(other)|;
    var merge, end2 := MergeCode(PatternBindings(other, v, here), names, base), Skip(end1, n, 0);
    BuiltMore(d, d1, d2, before + code, end1, [], merge, end2);
    BuiltPlace(d, d2, before + code + merge, end2, []);
    SkipSizes(end1, n, 0);
    OrContinueParts(rest, names, base, v, here);
    var next := AlternativeNext(other, rest.tail, here);
    var tail := AlternativesCode(rest.tail, names, base, v, next, 0, 0);
    FailsPatched(other, v, here, 0, next.code);
    if cons {
      ThenEmits(d, d2, d3, before + code + merge, end2, [], Jump(0), 0);
      SkipTwice(end1, n, 0, 1, 0);
      done' := before + code + merge + [Jump(0)];
      BuiltPlace(d, d3, done', next, []);
      PatchAfter(before, code, at.code, altFails, next.code);
      PatchBefore(before + code, merge, at.code, altFails, next.code);
      PatchBefore(before + code + merge, [Jump(0)], at.code, altFails, next.code);
      var code' := PatternCode(other, v, here, next.code);
      assert before + (code' + merge + [Jump(0)] + tail) == before + code' + merge + [Jump(0)] + tail;
      assert success + ([end2.code] + ExitJumps(rest.tail, next)) == success + [end2.code] + ExitJumps(rest.tail, next);
      IsOrLeft(d, d3, p, v, rest.tail, done', altFails, success + [Here(d2).code], fails);
    } else {
      done' := before + code + merge;
      SkipNothing(end2);
      PatchNone(done', at.code, next.code);
      NoAlternatives(names, base, v, next, 0, 0, 0);
      assert before + (code + merge + [] + []) == done' + [];
      assert fails + altFails == fails + altFails + [] && success + [] == success;
      IsOrLeft(d, d3, p, v, rest.tail, done', [], success, fails + altFails);
    }
  }

  lemma OrLeftParts(
    d: Draft, d': Draft, p: Pattern, v: Register, rest: List<Pattern>, done: seq<Instr>, pending: seq<nat>,
    success: seq<nat>, fails: seq<nat>
  )
    requires p.OrPattern? && OrLeft(d, d', p, v, rest, done, pending, success, fails)
    ensures Built(d, d', done, Here(d'), []) && Patchable(done, Here(d).code, pending) && (rest.Empty? ==> pending == [])
    ensures Patch(done, Here(d).code, pending, Here(d').code)
            + AlternativesCode(rest, PatternNames(p.first), PatternEnd(p.first, Here(d)).regs, v, Here(d'), 0, 0)
            == OrDraft(p, v, Here(d))
    ensures success + ExitJumps(rest, Here(d')) == OrExits(p, Here(d))
    ensures fails + AlternativeFails(rest, Here(d')) == FailJumps(p, Here(d))
    ensures AlternativesEnd(rest, Here(d')) == PatternEnd(p, Here(d))
    ensures AlternativesOk(rest, PatternNames(p.first)) == AlternativesOk(p.others, PatternNames(p.first))
  {
    hide Built, Patchable, Patch, AlternativesCode, OrDraft, ExitJumps, OrExits, AlternativeFails, FailJumps,
      AlternativesEnd, PatternEnd, AlternativesOk;
  }

  lemma OrContinueParts(rest: List<Pattern>, names: seq<string>, base: Register, v: Register, at: Place)
    requires rest.Cons?
    ensures
      var other, cons, n := rest.head, rest.tail.Cons?, |PatternNames(rest.head)|;
      var end1, next := PatternEnd(other, at), AlternativeNext(other, rest.tail, at);
      && next == Skip(end1, n + (if cons then 1 else 0), 0)
      && AlternativesEnd(rest, at) == AlternativesEnd(rest.tail, next)
      && AlternativeFails(rest, at) == (if cons then AlternativeFails(rest.tail, next) else FailJumps(other, at))
      && ExitJumps(rest, at) == (if cons then [end1.code + n] + ExitJumps(rest.tail, next) else [])
      && AlternativesCode(rest, names, base, v, at, 0, 0)
         == PatternCode(other, v, at, if cons then next.code else 0)
            + MergeCode(PatternBindings(other, v, at), names, base)
            + (if cons then [Jump(0)] else []) + AlternativesCode(rest.tail, names, base, v, next, 0, 0)
      && AlternativesOk(rest, names)
         == (PatternOk(other) && SameBindings(names, PatternNames(other)) && AlternativesOk(rest.tail, names))
  {
    hide PatternEnd, PatternCode, PatternBindings, MergeCode, PatternNames, FailJumps, PatternOk, SameBindings;
    ExitStep(rest, at);
    AlternativesParts(rest, names, base, v, at, 0, 0);
    AlternativeFailsStep(rest, at, 0, 0, 0);
  }

  /** The end of an OR-pattern: every exit jump is sent here. */
  lemma OrFinish(
    d: Draft, d': Draft, p: Pattern, v: Register, done: seq<Instr>, pending: seq<nat>, success: seq<nat>, fails: seq<nat>
  )
    requires p.OrPattern? && OrLeft(d, d', p, v, Empty, done, pending, success, fails)
    ensures Patchable(d'.build.active.code, 0, success)
    ensures PatternBuilt(d, Patched(d', success, Here(d').code), p, v)
    ensures fails == FailJumps(p, Here(d)) && AlternativesOk(p.others, PatternNames(p.first))
  {
    hide *;
    var at, here := Here(d), Here(d');
    OrLeftParts(d, d', p, v, Empty, done, pending, success, fails);
    OrFinishParts(p, v, at, here);
    PatchNone(done, at.code, here.code);
    assert done + [] == done && success + [] == success && fails + [] == fails;
    BuiltPatched(d, d', done, here, [], success, here.code);
    OrExitsPatched(p, v, at);
    BuiltPatched(d, d', done, here, [], success, here.code);
    IsPattern(d, Patched(d', success, here.code), p, v, PatternCode(p, v, at, 0), here);
  }

  lemma OrFinishParts(p: Pattern, v: Register, at: Place, here: Place)
    requires p.OrPattern?
    ensures AlternativesCode(Empty, PatternNames(p.first), PatternEnd(p.first, at).regs, v, here, 0, 0) == []
    ensures ExitJumps(Empty, here) == [] && AlternativeFails(Empty, here) == [] && AlternativesEnd(Empty, here) == here
    ensures AlternativesOk(Empty, PatternNames(p.first))
    ensures Patchable(OrDraft(p, v, at), at.code, OrExits(p, at))
  {
    OrExitsPatched(p, v, at);
  }

  lemma OrExitsPatched(p: Pattern, v: Register, at: Place)
    requires p.OrPattern?
    ensures Patchable(OrDraft(p, v, at), at.code, OrExits(p, at))
    ensures Patch(OrDraft(p, v, at), at.code, OrExits(p, at), PatternEnd(p, at).code) == PatternCode(p, v, at, 0)
  {
    hide *;
    var names, end1 := PatternNames(p.first), PatternEnd(p.first, at);
    var base, next, end := end1.regs, OrNext(p, at), PatternEnd(p, at).code;
    var merge := MergeCode(PatternBindings(p.first, v, at), names, base);
    OrBeginParts(p, v, at);
    OrParts(p, v, at, 0);
    OrPrefixParts(p, next, end);
    if p.others.Empty? {
      PatchNone(OrDraft(p, v, at), at.code, end);
      NoAlternatives(names, base, v, next, 0, 0, 0);
      NoAlternatives(names, base, v, next, 0, 0, end);
    } else {
      var body := PatternCode(p.first, v, at, next.code) + merge;
      var exit := end1.code + |names|;
      ExitsPatched(p.others, names, base, v, next, 0, 0, end);
      TargetOfJump(0, end);
      PatchLast(Jump(0), exit, end);
      PatchAfter(body, [Jump(0)], at.code, [exit], end);
      SkipSizes(end1, |names| + 1, |names|);
      PatchConcat(body + [Jump(0)], AlternativesCode(p.others, names, base, v, next, 0, 0), at.code, [exit],
                  ExitJumps(p.others, next), end);
      PatchableConcat(body + [Jump(0)], AlternativesCode(p.others, names, base, v, next, 0, 0), at.code, [exit],
                      ExitJumps(p.others, next));
    }
  }

  lemma OrPrefixParts(p: Pattern, next: Place, end: nat)
    requires p.OrPattern?
    ensures NextOr(p.others, next, 0) == (if p.others.Cons? then next.code else 0)
    ensures ExitJump(p.others, end) == (if p.others.Cons? then [Jump(end)] else [])
  {
  }
}
