/** Back-patching on values: which emitted jumps wait for a target, and the proof
    that patching exactly those jumps turns draft code into the final code.
 */
module BackPatching {
  import opened Wrappers
  import opened Runtime
  import opened Ast
  import opened IR
  import opened Lowering
  import opened CodeEquations

  function WithTarget(i: Instr, target: nat): Instr {
    match i
    case Jump(_) => Jump(target)
    case JumpIf(condition, onTrue, _) => JumpIf(condition, onTrue, target)
    case _ => i
  }

  /** The code that starts at `base`, with the jump at position `j` sent to `target`. */
  function PatchOne(code: seq<Instr>, base: nat, j: nat, target: nat): (r: seq<Instr>)
    ensures |r| == |code|
  {
    if base <= j < base + |code| then code[j - base := WithTarget(code[j - base], target)] else code
  }

  function Patch(code: seq<Instr>, base: nat, jumps: seq<nat>, target: nat): (r: seq<Instr>)
    ensures |r| == |code|
    decreases |jumps|
  {
    if jumps == [] then code else Patch(PatchOne(code, base, jumps[0], target), base, jumps[1..], target)
  }

  /** All the listed positions are jumps of the code that starts at `base`. */
  predicate Patchable(code: seq<Instr>, base: nat, jumps: seq<nat>) {
    forall j :: j in jumps ==> base <= j < base + |code| && IsJump(code[j - base])
  }

  lemma PatchableHead(code: seq<Instr>, base: nat, jumps: seq<nat>, target: nat)
    requires jumps != [] && Patchable(code, base, jumps)
    ensures base <= jumps[0] < base + |code| && IsJump(code[jumps[0] - base])
    ensures Patchable(PatchOne(code, base, jumps[0], target), base, jumps[1..])
  {
    assert jumps[0] in jumps;
    forall j | j in jumps[1..]
      ensures base <= j < base + |code| && IsJump(PatchOne(code, base, jumps[0], target)[j - base])
    {
      assert j in jumps;
    }
  }

  lemma PatchableConcat(a: seq<Instr>, b: seq<Instr>, base: nat, ja: seq<nat>, jb: seq<nat>)
    requires Patchable(a, base, ja) && Patchable(b, base + |a|, jb)
    ensures Patchable(a + b, base, ja + jb)
  {
  }

  /** Patching code in two parts patches each part. */
  lemma {:induction false} PatchConcat(
    a: seq<Instr>, b: seq<Instr>, base: nat, ja: seq<nat>, jb: seq<nat>, target: nat
  )
    requires Patchable(a, base, ja) && Patchable(b, base + |a|, jb)
    ensures Patch(a + b, base, ja + jb, target) == Patch(a, base, ja, target) + Patch(b, base + |a|, jb, target)
    decreases |ja| + |jb|
  {
    hide *;
    PatchStep(a + b, base, ja + jb, target);
    PatchStep(a, base, ja, target);
    PatchStep(b, base + |a|, jb, target);
    if ja != [] {
      PatchableHead(a, base, ja, target);
      var a1 := PatchOne(a, base, ja[0], target);
      PatchOneLeft(a, b, base, ja[0], target);
      assert (ja + jb)[1..] == ja[1..] + jb;
      PatchConcat(a1, b, base, ja[1..], jb, target);
    } else if jb != [] {
      PatchableHead(b, base + |a|, jb, target);
      var b1 := PatchOne(b, base + |a|, jb[0], target);
      PatchOneRight(a, b, base, jb[0], target);
      assert ja + jb == jb && ja + jb[1..] == jb[1..];
      PatchNone(a, base, target);
      PatchConcat(a, b1, base, ja, jb[1..], target);
    } else {
      assert ja + jb == [];
    }
  }

  lemma PatchStep(code: seq<Instr>, base: nat, jumps: seq<nat>, target: nat)
    ensures Patch(code, base, jumps, target)
         == if jumps == [] then code else Patch(PatchOne(code, base, jumps[0], target), base, jumps[1..], target)
  {
  }

  lemma PatchOneLeft(a: seq<Instr>, b: seq<Instr>, base: nat, j: nat, target: nat)
    requires base <= j < base + |a|
    ensures PatchOne(a + b, base, j, target) == PatchOne(a, base, j, target) + b
  {
  }

  lemma PatchOneRight(a: seq<Instr>, b: seq<Instr>, base: nat, j: nat, target: nat)
    requires base + |a| <= j < base + |a| + |b|
    ensures PatchOne(a + b, base, j, target) == a + PatchOne(b, base + |a|, j, target)
  {
  }

  lemma PatchNone(code: seq<Instr>, base: nat, target: nat)
    ensures Patch(code, base, [], target) == code && Patchable(code, base, [])
  {
  }

  /** A prefix that waits for nothing. */
  lemma PatchAfter(a: seq<Instr>, b: seq<Instr>, base: nat, jb: seq<nat>, target: nat)
    requires Patchable(b, base + |a|, jb)
    ensures Patch(a + b, base, jb, target) == a + Patch(b, base + |a|, jb, target)
    ensures Patchable(a + b, base, jb)
  {
    hide Patchable, Patch;
    PatchNone(a, base, target);
    PatchConcat(a, b, base, [], jb, target);
    PatchableConcat(a, b, base, [], jb);
    assert [] + jb == jb;
  }

  /** A suffix that waits for nothing. */
  lemma PatchBefore(a: seq<Instr>, b: seq<Instr>, base: nat, ja: seq<nat>, target: nat)
    requires Patchable(a, base, ja)
    ensures Patch(a + b, base, ja, target) == Patch(a, base, ja, target) + b
    ensures Patchable(a + b, base, ja)
  {
    hide Patchable, Patch;
    PatchNone(b, base + |a|, target);
    PatchConcat(a, b, base, ja, [], target);
    PatchableConcat(a, b, base, ja, []);
    assert ja + [] == ja;
  }

  /** One jump at the end of the code. */
  lemma PatchLast(jump: Instr, base: nat, target: nat)
    requires IsJump(jump)
    ensures Patch([jump], base, [base], target) == [WithTarget(jump, target)] && Patchable([jump], base, [base])
  {
    assert PatchOne([jump], base, base, target) == [WithTarget(jump, target)];
    assert Patch([jump], base, [base], target) == Patch([WithTarget(jump, target)], base, [], target);
  }

  /** One jump in the middle of the code. */
  lemma PatchMiddle(a: seq<Instr>, jump: Instr, b: seq<Instr>, base: nat, target: nat)
    requires IsJump(jump)
    ensures Patchable(a + [jump] + b, base, [base + |a|])
    ensures Patch(a + [jump] + b, base, [base + |a|], target) == a + [WithTarget(jump, target)] + b
  {
    hide Patch, Patchable, WithTarget, IsJump;
    var here := base + |a|;
    PatchLast(jump, here, target);
    PatchAfter(a, [jump], base, [here], target);
    PatchBefore(a + [jump], b, base, [here], target);
  }

  // ------------------------------------------------------------------- patterns

  /** The jumps of a pattern that wait for its fail target. */
  function FailJumps(p: Pattern, at: Place): seq<nat>
    decreases p, 1
  {
    match p
    case Wildcard => []
    case Bind(_) => []
    case LiteralPattern(_) => [at.code + 2]
    case RecordPattern(parts) => ComponentFails(parts, at)
    case VariantPattern(_, _, parts) => [at.code + 1] + ComponentFails(parts, Skip(at, 2, 1))
    case OrPattern(first, others) =>
      if others.Empty? then FailJumps(first, at) else AlternativeFails(others, OrNext(p, at))
  }

  function ComponentFails(parts: List<Component>, at: Place): seq<nat>
    decreases parts, 0
  {
    match parts
    case Empty => []
    case Cons(part, rest) =>
      FailJumps(part.pattern, Skip(at, 1, 1)) + ComponentFails(rest, PatternEnd(part.pattern, Skip(at, 1, 1)))
  }

  /** Only the last alternative can fail the whole OR-pattern. */
  function AlternativeFails(others: List<Pattern>, at: Place): seq<nat>
    decreases others, 0
  {
    match others
    case Empty => []
    case Cons(other, rest) =>
      if rest.Empty? then FailJumps(other, at) else AlternativeFails(rest, AlternativeNext(other, rest, at))
  }

  /** The jumps to the end of the OR-pattern, one after every alternative but the last. */
  function ExitJumps(others: List<Pattern>, at: Place): seq<nat>
    decreases others
  {
    match others
    case Empty => []
    case Cons(other, rest) =>
      var end := PatternEnd(other, at).code + |PatternNames(other)|;
      if rest.Empty? then [] else [end] + ExitJumps(rest, AlternativeNext(other, rest, at))
  }

  lemma {:induction false} FailsPatched(p: Pattern, v: Register, at: Place, draft: nat, fail: nat)
    ensures Patchable(PatternCode(p, v, at, draft), at.code, FailJumps(p, at))
    ensures Patch(PatternCode(p, v, at, draft), at.code, FailJumps(p, at), fail) == PatternCode(p, v, at, fail)
    decreases p, 1
  {
    match p
    case Wildcard =>
    case Bind(_) =>
    case LiteralPattern(_) => LiteralPatched(p, v, at, draft, fail);
    case RecordPattern(parts) => ComponentsPatched(parts, v, at, draft, fail);
    case VariantPattern(_, _, parts) =>
      ComponentsPatched(parts, v, Skip(at, 2, 1), draft, fail);
      VariantPatched(p, v, at, draft, fail);
    case OrPattern(first, others) =>
      if others.Empty? {
        FailsPatched(first, v, at, draft, fail);
        LonePatched(p, v, at, draft, fail);
      } else {
        AlternativesPatched(others, PatternNames(first), PatternEnd(first, at).regs, v, OrNext(p, at), draft, fail,
                            AlternativesEnd(others, OrNext(p, at)).code);
        OrPatched(p, v, at, draft, fail);
      }
  }

  lemma LiteralPatched(p: Pattern, v: Register, at: Place, draft: nat, fail: nat)
    requires p.LiteralPattern?
    ensures Patchable(PatternCode(p, v, at, draft), at.code, FailJumps(p, at))
    ensures Patch(PatternCode(p, v, at, draft), at.code, FailJumps(p, at), fail) == PatternCode(p, v, at, fail)
  {
    hide Patch, Patchable, PatchOne;
    var test := [Compute(at.regs, Constant(p.constant), []), Compute(at.regs + 1, Equal, [v, at.regs])];
    var jump := JumpIf(at.regs + 1, false, draft);
    assert PatternCode(p, v, at, draft) == test + [jump];
    PatchLast(jump, at.code + 2, fail);
    PatchAfter(test, [jump], at.code, [at.code + 2], fail);
  }

  lemma VariantPatched(p: Pattern, v: Register, at: Place, draft: nat, fail: nat)
    requires p.VariantPattern?
    requires
      var at1 := Skip(at, 2, 1);
      && Patchable(ComponentsCode(p.parts, v, at1, draft), at1.code, ComponentFails(p.parts, at1))
      && Patch(ComponentsCode(p.parts, v, at1, draft), at1.code, ComponentFails(p.parts, at1), fail)
         == ComponentsCode(p.parts, v, at1, fail)
    ensures Patchable(PatternCode(p, v, at, draft), at.code, FailJumps(p, at))
    ensures Patch(PatternCode(p, v, at, draft), at.code, FailJumps(p, at), fail) == PatternCode(p, v, at, fail)
  {
    hide Patch, Patchable, PatchOne, ComponentsCode, ComponentFails;
    var at1 := Skip(at, 2, 1);
    var tag, jump := [Compute(at.regs, VariantTag(p.enumName, p.variantName), [v])], JumpIf(at.regs, false, draft);
    PatchLast(jump, at.code + 1, fail);
    PatchAfter(tag, [jump], at.code, [at.code + 1], fail);
    assert tag + [jump] == [tag[0], jump];
    PatchConcat(tag + [jump], ComponentsCode(p.parts, v, at1, draft), at.code, [at.code + 1],
                ComponentFails(p.parts, at1), fail);
    PatchableConcat(tag + [jump], ComponentsCode(p.parts, v, at1, draft), at.code, [at.code + 1],
                    ComponentFails(p.parts, at1));
  }

  lemma LonePatched(p: Pattern, v: Register, at: Place, draft: nat, fail: nat)
    requires p.OrPattern? && p.others.Empty?
    requires Patchable(PatternCode(p.first, v, at, draft), at.code, FailJumps(p.first, at))
    requires
      Patch(PatternCode(p.first, v, at, draft), at.code, FailJumps(p.first, at), fail) == PatternCode(p.first, v, at, fail)
    ensures Patchable(PatternCode(p, v, at, draft), at.code, FailJumps(p, at))
    ensures Patch(PatternCode(p, v, at, draft), at.code, FailJumps(p, at), fail) == PatternCode(p, v, at, fail)
  {
    hide *;
    var merge := MergeCode(PatternBindings(p.first, v, at), PatternNames(p.first), PatternEnd(p.first, at).regs);
    LoneParts(p, v, at, draft);
    LoneParts(p, v, at, fail);
    PatchBefore(PatternCode(p.first, v, at, draft), merge, at.code, FailJumps(p.first, at), fail);
  }

  lemma LoneParts(p: Pattern, v: Register, at: Place, fail: nat)
    requires p.OrPattern? && p.others.Empty?
    ensures FailJumps(p, at) == FailJumps(p.first, at)
    ensures PatternCode(p, v, at, fail)
         == PatternCode(p.first, v, at, fail)
            + MergeCode(PatternBindings(p.first, v, at), PatternNames(p.first), PatternEnd(p.first, at).regs)
  {
    hide MergeCode, PatternBindings, PatternEnd;
    var merge := MergeCode(PatternBindings(p.first, v, at), PatternNames(p.first), PatternEnd(p.first, at).regs);
    assert PatternCode(p, v, at, fail) == OrCode(p, v, at, fail) == PatternCode(p.first, v, at, fail) + merge + [] + [];
  }

  lemma OrPatched(p: Pattern, v: Register, at: Place, draft: nat, fail: nat)
    requires p.OrPattern? && p.others.Cons?
    requires
      var names, base, next := PatternNames(p.first), PatternEnd(p.first, at).regs, OrNext(p, at);
      var end := AlternativesEnd(p.others, next).code;
      && Patchable(AlternativesCode(p.others, names, base, v, next, draft, end), next.code,
                   AlternativeFails(p.others, next))
      && Patch(AlternativesCode(p.others, names, base, v, next, draft, end), next.code,
               AlternativeFails(p.others, next), fail)
         == AlternativesCode(p.others, names, base, v, next, fail, end)
    ensures Patchable(PatternCode(p, v, at, draft), at.code, FailJumps(p, at))
    ensures Patch(PatternCode(p, v, at, draft), at.code, FailJumps(p, at), fail) == PatternCode(p, v, at, fail)
  {
    hide *;
    var names, base, next := PatternNames(p.first), PatternEnd(p.first, at).regs, OrNext(p, at);
    var end := AlternativesEnd(p.others, next).code;
    var prefix := PatternCode(p.first, v, at, NextOr(p.others, next, fail))
                  + MergeCode(PatternBindings(p.first, v, at), names, base) + ExitJump(p.others, end);
    OrParts(p, v, at, draft);
    OrParts(p, v, at, fail);
    OrPrefix(p, v, at, draft, fail);
    PatchAfter(prefix, AlternativesCode(p.others, names, base, v, next, draft, end), at.code,
               AlternativeFails(p.others, next), fail);
  }

  lemma OrPrefix(p: Pattern, v: Register, at: Place, draft: nat, fail: nat)
    requires p.OrPattern? && p.others.Cons?
    ensures NextOr(p.others, OrNext(p, at), draft) == NextOr(p.others, OrNext(p, at), fail)
    ensures FailJumps(p, at) == AlternativeFails(p.others, OrNext(p, at))
    ensures OrNext(p, at).code == PatternEnd(p.first, at).code + |PatternNames(p.first)| + JumpOut(p.others)
  {
    hide PatternEnd, AlternativeFails, PatternNames;
  }

  lemma {:induction false} ComponentsPatched(parts: List<Component>, v: Register, at: Place, draft: nat, fail: nat)
    ensures Patchable(ComponentsCode(parts, v, at, draft), at.code, ComponentFails(parts, at))
    ensures Patch(ComponentsCode(parts, v, at, draft), at.code, ComponentFails(parts, at), fail)
         == ComponentsCode(parts, v, at, fail)
    decreases parts, 0
  {
    hide *;
    match parts
    case Empty => NoComponents(v, at, draft, fail);
    case Cons(part, rest) =>
      var at1 := Skip(at, 1, 1);
      var at2 := PatternEnd(part.pattern, at1);
      ComponentsParts(parts, v, at, draft);
      ComponentsParts(parts, v, at, fail);
      ComponentFailsStep(parts, at);
      FailsPatched(part.pattern, at.regs, at1, draft, fail);
      ComponentsPatched(rest, v, at2, draft, fail);
      var select := [Compute(at.regs, SelectorPrim(part.selector), [v])];
      var code := PatternCode(part.pattern, at.regs, at1, draft);
      PatchAfter(select, code, at.code, FailJumps(part.pattern, at1), fail);
      PatchConcat(select + code, ComponentsCode(rest, v, at2, draft), at.code, FailJumps(part.pattern, at1),
                  ComponentFails(rest, at2), fail);
      PatchableConcat(select + code, ComponentsCode(rest, v, at2, draft), at.code, FailJumps(part.pattern, at1),
                      ComponentFails(rest, at2));
  }

  lemma NoComponents(v: Register, at: Place, draft: nat, fail: nat)
    ensures Patchable(ComponentsCode(Empty, v, at, draft), at.code, ComponentFails(Empty, at))
    ensures Patch(ComponentsCode(Empty, v, at, draft), at.code, ComponentFails(Empty, at), fail)
         == ComponentsCode(Empty, v, at, fail)
  {
  }

  lemma ComponentFailsStep(parts: List<Component>, at: Place)
    requires parts.Cons?
    ensures ComponentFails(parts, at)
         == FailJumps(parts.head.pattern, Skip(at, 1, 1))
            + ComponentFails(parts.tail, PatternEnd(parts.head.pattern, Skip(at, 1, 1)))
  {
    hide PatternEnd, FailJumps;
  }

  lemma {:induction false} AlternativesPatched(
    others: List<Pattern>, names: seq<string>, base: Register, v: Register, at: Place, draft: nat, fail: nat, end: nat
  )
    ensures Patchable(AlternativesCode(others, names, base, v, at, draft, end), at.code, AlternativeFails(others, at))
    ensures Patch(AlternativesCode(others, names, base, v, at, draft, end), at.code, AlternativeFails(others, at), fail)
         == AlternativesCode(others, names, base, v, at, fail, end)
    decreases others, 0
  {
    hide *;
    match others
    case Empty => NoAlternatives(names, base, v, at, draft, fail, end);
    case Cons(other, rest) =>
      AlternativesParts(others, names, base, v, at, draft, end);
      AlternativesParts(others, names, base, v, at, fail, end);
      AlternativeFailsStep(others, at, end, draft, fail);
      var next := AlternativeNext(other, rest, at);
      var merge, exit := MergeCode(PatternBindings(other, v, at), names, base), ExitJump(rest, end);
      if rest.Empty? {
        FailsPatched(other, v, at, draft, fail);
        NoAlternatives(names, base, v, next, draft, fail, end);
        PatchBefore(PatternCode(other, v, at, draft), merge, at.code, FailJumps(other, at), fail);
        NothingAfter(PatternCode(other, v, at, draft) + merge);
        NothingAfter(PatternCode(other, v, at, fail) + merge);
      } else {
        AlternativesPatched(rest, names, base, v, next, draft, fail, end);
        var prefix := PatternCode(other, v, at, NextOr(rest, next, fail)) + merge + exit;
        PatchAfter(prefix, AlternativesCode(rest, names, base, v, next, draft, end), at.code,
                   AlternativeFails(rest, next), fail);
      }
  }

  lemma NothingAfter(code: seq<Instr>)
    ensures code + [] + [] == code
  {
  }

  lemma NoAlternatives(names: seq<string>, base: Register, v: Register, at: Place, draft: nat, fail: nat, end: nat)
    ensures AlternativesCode(Empty, names, base, v, at, draft, end) == []
    ensures AlternativesCode(Empty, names, base, v, at, fail, end) == []
    ensures AlternativeFails(Empty, at) == [] && ExitJumps(Empty, at) == []
    ensures Patchable([], at.code, []) && Patch([], at.code, [], fail) == [] && Patch([], at.code, [], end) == []
  {
  }

  lemma AlternativeFailsStep(others: List<Pattern>, at: Place, end: nat, draft: nat, fail: nat)
    requires others.Cons?
    ensures
      var other, rest := others.head, others.tail;
      var next := AlternativeNext(other, rest, at);
      && AlternativeFails(others, at) == (if rest.Empty? then FailJumps(other, at) else AlternativeFails(rest, next))
      && (rest.Cons? ==> NextOr(rest, next, draft) == NextOr(rest, next, fail))
      && (rest.Empty? ==> NextOr(rest, next, draft) == draft && NextOr(rest, next, fail) == fail && ExitJump(rest, end) == [])
      && (rest.Cons? ==> ExitJump(rest, end) == [Jump(end)])
  {
    hide FailJumps, AlternativeNext;
  }

  /** Patching the exit jumps sends every alternative to the end. */
  lemma {:induction false} ExitsPatched(
    others: List<Pattern>, names: seq<string>, base: Register, v: Register, at: Place, fail: nat, draft: nat, end: nat
  )
    ensures Patchable(AlternativesCode(others, names, base, v, at, fail, draft), at.code, ExitJumps(others, at))
    ensures Patch(AlternativesCode(others, names, base, v, at, fail, draft), at.code, ExitJumps(others, at), end)
         == AlternativesCode(others, names, base, v, at, fail, end)
    decreases others
  {
    hide *;
    match others
    case Empty =>
      NoAlternatives(names, base, v, at, fail, fail, draft);
      NoAlternatives(names, base, v, at, fail, fail, end);
    case Cons(other, rest) =>
      var next := AlternativeNext(other, rest, at);
      var body := PatternCode(other, v, at, NextOr(rest, next, fail)) + MergeCode(PatternBindings(other, v, at), names, base);
      ExitStep(others, at);
      AlternativesParts(others, names, base, v, at, fail, draft);
      AlternativesParts(others, names, base, v, at, fail, end);
      AlternativeFailsStep(others, at, end, fail, fail);
      AlternativeFailsStep(others, at, draft, fail, fail);
      if rest.Empty? {
        NoAlternatives(names, base, v, next, fail, fail, draft);
        NoAlternatives(names, base, v, next, fail, fail, end);
        PatchNone(AlternativesCode(others, names, base, v, at, fail, draft), at.code, end);
      } else {
        ExitsPatched(rest, names, base, v, next, fail, draft, end);
        var here := PatternEnd(other, at).code + |PatternNames(other)|;
        PatchLast(Jump(draft), here, end);
        TargetOfJump(draft, end);
        PatchAfter(body, [Jump(draft)], at.code, [here], end);
        PatchConcat(body + [Jump(draft)], AlternativesCode(rest, names, base, v, next, fail, draft), at.code, [here],
                    ExitJumps(rest, next), end);
        PatchableConcat(body + [Jump(draft)], AlternativesCode(rest, names, base, v, next, fail, draft), at.code, [here],
                        ExitJumps(rest, next));
      }
  }

  lemma TargetOfJump(draft: nat, target: nat)
    ensures WithTarget(Jump(draft), target) == Jump(target) && IsJump(Jump(draft))
  {
  }

  lemma ExitStep(others: List<Pattern>, at: Place)
    requires others.Cons?
    ensures
      var other, rest := others.head, others.tail;
      var end := PatternEnd(other, at).code + |PatternNames(other)|;
      ExitJumps(others, at)
      == if rest.Empty? then [] else [end] + ExitJumps(rest, AlternativeNext(other, rest, at))
    ensures
      var other, rest := others.head, others.tail;
      AlternativeNext(other, rest, at).code == PatternEnd(other, at).code + |PatternNames(other)| + JumpOut(rest)
      && JumpOut(rest) == (if rest.Empty? then 0 else 1)
  {
    hide PatternEnd, PatternNames;
  }

  // ----------------------------------------------------------------- match arms

  /** The jumps of an arm test that wait for the next arm. */
  function TestFails(pattern: Pattern, guard: Option<Expr>, at: Place): seq<nat> {
    match guard
    case None => FailJumps(pattern, at)
    case Some(g) => FailJumps(pattern, at) + [ExprEnd(g, GuardPlace(pattern, at)).code]
  }

  function TestCode(pattern: Pattern, guard: Option<Expr>, v: Register, at: Place, fail: nat): (code: seq<Instr>)
    ensures |code| == GuardEnd(guard, GuardPlace(pattern, at)).code - at.code
  {
    BindCode(pattern, v, at, fail) + GuardCode(guard, GuardPlace(pattern, at), fail)
  }

  lemma TestPatched(pattern: Pattern, guard: Option<Expr>, v: Register, at: Place, draft: nat, fail: nat)
    ensures Patchable(TestCode(pattern, guard, v, at, draft), at.code, TestFails(pattern, guard, at))
    ensures Patch(TestCode(pattern, guard, v, at, draft), at.code, TestFails(pattern, guard, at), fail)
         == TestCode(pattern, guard, v, at, fail)
  {
    hide *;
    var at1, fails := GuardPlace(pattern, at), FailJumps(pattern, at);
    var stores := StoreBindings(PatternBindings(pattern, v, at));
    FailsPatched(pattern, v, at, draft, fail);
    TestParts(pattern, guard, v, at, draft);
    TestParts(pattern, guard, v, at, fail);
    PatchBefore(PatternCode(pattern, v, at, draft), stores, at.code, fails, fail);
    if guard.Some? {
      var g := guard.value;
      var end := ExprEnd(g, at1).code;
      var bind := PatternCode(pattern, v, at, draft) + stores;
      var code, jump := ExprCode(g, at1), JumpIf(ResultOf(g, at1), false, draft);
      PatchBefore(bind, code, at.code, fails, fail);
      PatchLast(jump, end, fail);
      TargetOfJumpIf(ResultOf(g, at1), draft, fail);
      PatchConcat(bind + code, [jump], at.code, fails, [end], fail);
      PatchableConcat(bind + code, [jump], at.code, fails, [end]);
    } else {
      assert fails + [] == fails;
    }
  }

  lemma TargetOfJumpIf(condition: Register, draft: nat, target: nat)
    ensures WithTarget(JumpIf(condition, false, draft), target) == JumpIf(condition, false, target)
    ensures IsJump(JumpIf(condition, false, draft))
  {
  }

  lemma TestParts(pattern: Pattern, guard: Option<Expr>, v: Register, at: Place, fail: nat)
    ensures
      var at1 := GuardPlace(pattern, at);
      var bind := PatternCode(pattern, v, at, fail) + StoreBindings(PatternBindings(pattern, v, at));
      && at1.code == at.code + |bind|
      && TestFails(pattern, guard, at)
         == FailJumps(pattern, at) + (if guard.Some? then [ExprEnd(guard.value, at1).code] else [])
      && TestCode(pattern, guard, v, at, fail)
         == if guard.Some? then bind + ExprCode(guard.value, at1) + [JumpIf(ResultOf(guard.value, at1), false, fail)] else bind
  {
    hide PatternCode, StoreBindings, PatternBindings, FailJumps, ExprEnd, ExprCode, ResultOf, PatternEnd, PatternNames;
    var at1 := GuardPlace(pattern, at);
    var bind := PatternCode(pattern, v, at, fail) + StoreBindings(PatternBindings(pattern, v, at));
    assert BindCode(pattern, v, at, fail) == bind;
    if guard.Some? {
      var code, jump := ExprCode(guard.value, at1), [JumpIf(ResultOf(guard.value, at1), false, fail)];
      assert GuardCode(guard, at1, fail) == code + jump;
      assert bind + (code + jump) == bind + code + jump;
    }
  }

  /** The jumps at the end of each arm of a match expression. */
  function ExprArmEnds(arms: List<ExprArm>, at: Place): seq<nat>
    decreases arms
  {
    match arms
    case Empty => []
    case Cons(arm, rest) =>
      var done := ExprEnd(arm.value, GuardEnd(arm.guard, GuardPlace(arm.pattern, at)));
      [done.code + 1] + ExprArmEnds(rest, Skip(done, 2, 0))
  }

  lemma {:induction false} ExprArmEndsPatched(
    arms: List<ExprArm>, v: Register, result: Register, at: Place, draft: nat, end: nat
  )
    ensures Patchable(ExprArmsCode(arms, v, result, at, draft), at.code, ExprArmEnds(arms, at))
    ensures Patch(ExprArmsCode(arms, v, result, at, draft), at.code, ExprArmEnds(arms, at), end)
         == ExprArmsCode(arms, v, result, at, end)
    decreases arms
  {
    hide *;
    match arms
    case Empty => NoExprArms(v, result, at, draft, end);
    case Cons(arm, rest) =>
      var at1 := GuardPlace(arm.pattern, at);
      var at2 := GuardEnd(arm.guard, at1);
      var done := ExprEnd(arm.value, at2);
      var next := Skip(done, 2, 0);
      var body := BindCode(arm.pattern, v, at, next.code) + GuardCode(arm.guard, at1, next.code) + ExprCode(arm.value, at2);
      var copy := [Copy(result, ResultOf(arm.value, at2))];
      ExprArmsParts(arms, v, result, at, draft);
      ExprArmsParts(arms, v, result, at, end);
      ExprArmEndsStep(arms, at);
      ExprArmEndsPatched(rest, v, result, next, draft, end);
      LeavePatched(body, copy, at.code, draft, end);
      PatchConcat(body + (copy + [Jump(draft)]), ExprArmsCode(rest, v, result, next, draft), at.code, [done.code + 1],
                  ExprArmEnds(rest, next), end);
      PatchableConcat(body + (copy + [Jump(draft)]), ExprArmsCode(rest, v, result, next, draft), at.code, [done.code + 1],
                      ExprArmEnds(rest, next));
      assert copy + [Jump(draft)] == [copy[0], Jump(draft)] && copy + [Jump(end)] == [copy[0], Jump(end)];
  }

  /** An arm's final jump, behind some code and a copy. */
  lemma LeavePatched(body: seq<Instr>, copy: seq<Instr>, base: nat, draft: nat, end: nat)
    ensures
      var here := base + |body| + |copy|;
      && Patchable(body + (copy + [Jump(draft)]), base, [here])
      && Patch(body + (copy + [Jump(draft)]), base, [here], end) == body + (copy + [Jump(end)])
  {
    hide *;
    var here := base + |body| + |copy|;
    TargetOfJump(draft, end);
    PatchLast(Jump(draft), here, end);
    PatchAfter(copy, [Jump(draft)], base + |body|, [here], end);
    PatchAfter(body, copy + [Jump(draft)], base, [here], end);
  }

  lemma NoExprArms(v: Register, result: Register, at: Place, draft: nat, end: nat)
    ensures ExprArmsCode(Empty, v, result, at, draft) == [] && ExprArmsCode(Empty, v, result, at, end) == []
    ensures ExprArmEnds(Empty, at) == [] && Patchable([], at.code, []) && Patch([], at.code, [], end) == []
  {
  }

  lemma ExprArmEndsStep(arms: List<ExprArm>, at: Place)
    requires arms.Cons?
    ensures
      var done := ExprEnd(arms.head.value, GuardEnd(arms.head.guard, GuardPlace(arms.head.pattern, at)));
      ExprArmEnds(arms, at) == [done.code + 1] + ExprArmEnds(arms.tail, Skip(done, 2, 0))
  {
    hide ExprEnd, GuardEnd, GuardPlace;
  }

  function StmtArmEnds(arms: List<StmtArm>, at: Place): seq<nat>
    decreases arms
  {
    match arms
    case Empty => []
    case Cons(arm, rest) =>
      var done := StmtEnd(arm.body, GuardEnd(arm.guard, GuardPlace(arm.pattern, at)));
      [done.code] + StmtArmEnds(rest, Skip(done, 1, 0))
  }

  lemma {:induction false} StmtArmEndsPatched(
    arms: List<StmtArm>, v: Register, at: Place, loop: Targets, draft: nat, end: nat
  )
    ensures Patchable(StmtArmsCode(arms, v, at, loop, draft), at.code, StmtArmEnds(arms, at))
    ensures Patch(StmtArmsCode(arms, v, at, loop, draft), at.code, StmtArmEnds(arms, at), end)
         == StmtArmsCode(arms, v, at, loop, end)
    decreases arms
  {
    hide *;
    match arms
    case Empty => NoStmtArms(v, at, loop, draft, end);
    case Cons(arm, rest) =>
      var at1 := GuardPlace(arm.pattern, at);
      var at2 := GuardEnd(arm.guard, at1);
      var done := StmtEnd(arm.body, at2);
      var next := Skip(done, 1, 0);
      var body := BindCode(arm.pattern, v, at, next.code) + GuardCode(arm.guard, at1, next.code)
                  + StmtCode(arm.body, at2, loop);
      StmtArmsParts(arms, v, at, loop, draft);
      StmtArmsParts(arms, v, at, loop, end);
      StmtArmEndsStep(arms, at);
      StmtArmEndsPatched(rest, v, next, loop, draft, end);
      TargetOfJump(draft, end);
      PatchLast(Jump(draft), done.code, end);
      PatchAfter(body, [Jump(draft)], at.code, [done.code], end);
      PatchConcat(body + [Jump(draft)], StmtArmsCode(rest, v, next, loop, draft), at.code, [done.code],
                  StmtArmEnds(rest, next), end);
      PatchableConcat(body + [Jump(draft)], StmtArmsCode(rest, v, next, loop, draft), at.code, [done.code],
                      StmtArmEnds(rest, next));
  }

  lemma NoStmtArms(v: Register, at: Place, loop: Targets, draft: nat, end: nat)
    ensures StmtArmsCode(Empty, v, at, loop, draft) == [] && StmtArmsCode(Empty, v, at, loop, end) == []
    ensures StmtArmEnds(Empty, at) == [] && Patchable([], at.code, []) && Patch([], at.code, [], end) == []
  {
  }

  lemma StmtArmEndsStep(arms: List<StmtArm>, at: Place)
    requires arms.Cons?
    ensures
      var done := StmtEnd(arms.head.body, GuardEnd(arms.head.guard, GuardPlace(arms.head.pattern, at)));
      StmtArmEnds(arms, at) == [done.code] + StmtArmEnds(arms.tail, Skip(done, 1, 0))
  {
    hide StmtEnd, GuardEnd, GuardPlace;
  }

  // --------------------------------------------------------------------- breaks

  /** The jumps of `break` statements that leave the loop around `s`. */
  function Breaks(s: Stmt, at: Place): seq<nat>
    decreases s
  {
    match s
    case Break => [at.code]
    case Block(body) => StmtsBreaks(body, at)
    case If(c, t, e) => Breaks(t, Skip(ExprEnd(c, at), 1, 0)) + OptionBreaks(e, ElsePlace(s, at))
    case For(init, _, _, _) => OptionBreaks(init, at)
    case Match(e, arms) => ArmBreaks(arms, ExprEnd(e, at))
    case _ => []
  }

  function OptionBreaks(s: Option<Stmt>, at: Place): seq<nat>
    decreases s
  {
    match s case None => [] case Some(inner) => Breaks(inner, at)
  }

  function StmtsBreaks(ss: List<Stmt>, at: Place): seq<nat>
    decreases ss
  {
    match ss
    case Empty => []
    case Cons(s, rest) => Breaks(s, at) + StmtsBreaks(rest, StmtEnd(s, at))
  }

  function ArmBreaks(arms: List<StmtArm>, at: Place): seq<nat>
    decreases arms
  {
    match arms
    case Empty => []
    case Cons(arm, rest) =>
      var at2 := GuardEnd(arm.guard, GuardPlace(arm.pattern, at));
      Breaks(arm.body, at2) + ArmBreaks(rest, Skip(StmtEnd(arm.body, at2), 1, 0))
  }

  lemma {:induction false} BreaksPatched(s: Stmt, at: Place, c: nat, draft: nat, b: nat)
    ensures Patchable(StmtCode(s, at, Loop(c, draft)), at.code, Breaks(s, at))
    ensures Patch(StmtCode(s, at, Loop(c, draft)), at.code, Breaks(s, at), b) == StmtCode(s, at, Loop(c, b))
    decreases s, 1
  {
    match s
    case Break => BreakPatched(at, c, draft, b);
    case Block(body) => StmtsBreaksPatched(body, at, c, draft, b);
    case If(_, t, e) =>
      var at1 := Skip(ExprEnd(s.condition, at), 1, 0);
      BreaksPatched(t, at1, c, draft, b);
      OptionBreaksPatched(e, ElsePlace(s, at), c, draft, b);
      IfBreaksPatched(s, at, c, draft, b);
    case For(init, _, _, _) =>
      OptionBreaksPatched(init, at, c, draft, b);
      ForBreaksPatched(s, at, c, draft, b);
    case Match(e, arms) =>
      ArmBreaksPatched(arms, ResultOf(e, at), ExprEnd(e, at), c, draft, b, StmtEnd(s, at).code);
      MatchBreaksPatched(s, at, c, draft, b);
    case _ => Unbroken(s, at, c, draft, b);
  }

  lemma BreakPatched(at: Place, c: nat, draft: nat, b: nat)
    ensures Patchable(StmtCode(Break, at, Loop(c, draft)), at.code, Breaks(Break, at))
    ensures Patch(StmtCode(Break, at, Loop(c, draft)), at.code, Breaks(Break, at), b) == StmtCode(Break, at, Loop(c, b))
  {
    hide Patch, Patchable, PatchOne;
    TargetOfJump(draft, b);
    PatchLast(Jump(draft), at.code, b);
  }

  lemma Unbroken(s: Stmt, at: Place, c: nat, draft: nat, b: nat)
    requires !s.Break? && !s.Block? && !s.If? && !s.For? && !s.Match?
    ensures Patchable(StmtCode(s, at, Loop(c, draft)), at.code, Breaks(s, at))
    ensures Patch(StmtCode(s, at, Loop(c, draft)), at.code, Breaks(s, at), b) == StmtCode(s, at, Loop(c, b))
  {
    hide Patch, Patchable, PatchOne, ExprCode;
    PatchNone(StmtCode(s, at, Loop(c, draft)), at.code, b);
    assert Breaks(s, at) == [];
    assert StmtCode(s, at, Loop(c, draft)) == StmtCode(s, at, Loop(c, b));
  }

  lemma IfBreaksPatched(s: Stmt, at: Place, c: nat, draft: nat, b: nat)
    requires s.If?
    requires
      var at1 := Skip(ExprEnd(s.condition, at), 1, 0);
      && Patchable(StmtCode(s.thenBranch, at1, Loop(c, draft)), at1.code, Breaks(s.thenBranch, at1))
      && Patch(StmtCode(s.thenBranch, at1, Loop(c, draft)), at1.code, Breaks(s.thenBranch, at1), b)
         == StmtCode(s.thenBranch, at1, Loop(c, b))
    requires
      var at3 := ElsePlace(s, at);
      && Patchable(InitCode(s.elseBranch, at3, Loop(c, draft)), at3.code, OptionBreaks(s.elseBranch, at3))
      && Patch(InitCode(s.elseBranch, at3, Loop(c, draft)), at3.code, OptionBreaks(s.elseBranch, at3), b)
         == InitCode(s.elseBranch, at3, Loop(c, b))
    ensures Patchable(StmtCode(s, at, Loop(c, draft)), at.code, Breaks(s, at))
    ensures Patch(StmtCode(s, at, Loop(c, draft)), at.code, Breaks(s, at), b) == StmtCode(s, at, Loop(c, b))
  {
    hide *;
    var at1, at3 := Skip(ExprEnd(s.condition, at), 1, 0), ElsePlace(s, at);
    var test := ExprCode(s.condition, at) + [JumpIf(ResultOf(s.condition, at), false, at3.code)];
    var code, other := StmtCode(s.thenBranch, at1, Loop(c, draft)), InitCode(s.elseBranch, at3, Loop(c, draft));
    var breaks := Breaks(s.thenBranch, at1);
    IfCodeParts(s, at, Loop(c, draft));
    IfCodeParts(s, at, Loop(c, b));
    IfPlaces(s, at);
    IfBreaksStep(s, at);
    PatchAfter(test, code, at.code, breaks, b);
    PatchBefore(test + code, LeaveThen(s, at), at.code, breaks, b);
    PatchConcat(test + code + LeaveThen(s, at), other, at.code, breaks, OptionBreaks(s.elseBranch, at3), b);
    PatchableConcat(test + code + LeaveThen(s, at), other, at.code, breaks, OptionBreaks(s.elseBranch, at3));
  }

  lemma IfBreaksStep(s: Stmt, at: Place)
    requires s.If?
    ensures Breaks(s, at)
         == Breaks(s.thenBranch, Skip(ExprEnd(s.condition, at), 1, 0)) + OptionBreaks(s.elseBranch, ElsePlace(s, at))
  {
    hide ExprEnd, ElsePlace;
  }

  lemma ForBreaksPatched(s: Stmt, at: Place, c: nat, draft: nat, b: nat)
    requires s.For?
    requires Patchable(InitCode(s.init, at, Loop(c, draft)), at.code, OptionBreaks(s.init, at))
    requires Patch(InitCode(s.init, at, Loop(c, draft)), at.code, OptionBreaks(s.init, at), b)
          == InitCode(s.init, at, Loop(c, b))
    ensures Patchable(StmtCode(s, at, Loop(c, draft)), at.code, Breaks(s, at))
    ensures Patch(StmtCode(s, at, Loop(c, draft)), at.code, Breaks(s, at), b) == StmtCode(s, at, Loop(c, b))
  {
    hide *;
    ForStmtParts(s, at, Loop(c, draft));
    ForStmtParts(s, at, Loop(c, b));
    ForBreaksStep(s, at);
    PatchBefore(InitCode(s.init, at, Loop(c, draft)), ForCode(s, InitEnd(s.init, at)), at.code, OptionBreaks(s.init, at), b);
  }

  lemma ForBreaksStep(s: Stmt, at: Place)
    requires s.For?
    ensures Breaks(s, at) == OptionBreaks(s.init, at)
  {
  }

  lemma MatchBreaksPatched(s: Stmt, at: Place, c: nat, draft: nat, b: nat)
    requires s.Match?
    requires
      var at1, v, end := ExprEnd(s.scrutinee, at), ResultOf(s.scrutinee, at), StmtEnd(s, at).code;
      && Patchable(StmtArmsCode(s.arms, v, at1, Loop(c, draft), end), at1.code, ArmBreaks(s.arms, at1))
      && Patch(StmtArmsCode(s.arms, v, at1, Loop(c, draft), end), at1.code, ArmBreaks(s.arms, at1), b)
         == StmtArmsCode(s.arms, v, at1, Loop(c, b), end)
    ensures Patchable(StmtCode(s, at, Loop(c, draft)), at.code, Breaks(s, at))
    ensures Patch(StmtCode(s, at, Loop(c, draft)), at.code, Breaks(s, at), b) == StmtCode(s, at, Loop(c, b))
  {
    hide *;
    var at1, v, end := ExprEnd(s.scrutinee, at), ResultOf(s.scrutinee, at), StmtEnd(s, at).code;
    MatchStmtParts(s, at, Loop(c, draft));
    MatchStmtParts(s, at, Loop(c, b));
    MatchBreaksStep(s, at);
    PatchAfter(ExprCode(s.scrutinee, at), StmtArmsCode(s.arms, v, at1, Loop(c, draft), end), at.code,
               ArmBreaks(s.arms, at1), b);
  }

  lemma MatchBreaksStep(s: Stmt, at: Place)
    requires s.Match?
    ensures Breaks(s, at) == ArmBreaks(s.arms, ExprEnd(s.scrutinee, at))
  {
    hide ExprEnd;
  }

  lemma {:induction false} OptionBreaksPatched(s: Option<Stmt>, at: Place, c: nat, draft: nat, b: nat)
    ensures Patchable(InitCode(s, at, Loop(c, draft)), at.code, OptionBreaks(s, at))
    ensures Patch(InitCode(s, at, Loop(c, draft)), at.code, OptionBreaks(s, at), b) == InitCode(s, at, Loop(c, b))
    decreases s, 0
  {
    match s
    case None =>
    case Some(inner) =>
      hide Patch, Patchable, StmtCode, Breaks;
      BreaksPatched(inner, at, c, draft, b);
  }

  lemma {:induction false} StmtsBreaksPatched(ss: List<Stmt>, at: Place, c: nat, draft: nat, b: nat)
    ensures Patchable(StmtsCode(ss, at, Loop(c, draft)), at.code, StmtsBreaks(ss, at))
    ensures Patch(StmtsCode(ss, at, Loop(c, draft)), at.code, StmtsBreaks(ss, at), b) == StmtsCode(ss, at, Loop(c, b))
    decreases ss, 0
  {
    hide *;
    match ss
    case Empty => NoStmts(at, c, draft, b);
    case Cons(s, rest) =>
      var at1 := StmtEnd(s, at);
      StmtsCodeParts(ss, at, Loop(c, draft));
      StmtsCodeParts(ss, at, Loop(c, b));
      StmtsBreaksStep(ss, at);
      BreaksPatched(s, at, c, draft, b);
      StmtsBreaksPatched(rest, at1, c, draft, b);
      PatchConcat(StmtCode(s, at, Loop(c, draft)), StmtsCode(rest, at1, Loop(c, draft)), at.code, Breaks(s, at),
                  StmtsBreaks(rest, at1), b);
      PatchableConcat(StmtCode(s, at, Loop(c, draft)), StmtsCode(rest, at1, Loop(c, draft)), at.code, Breaks(s, at),
                      StmtsBreaks(rest, at1));
  }

  lemma NoStmts(at: Place, c: nat, draft: nat, b: nat)
    ensures Patchable(StmtsCode(Empty, at, Loop(c, draft)), at.code, StmtsBreaks(Empty, at))
    ensures Patch(StmtsCode(Empty, at, Loop(c, draft)), at.code, StmtsBreaks(Empty, at), b)
         == StmtsCode(Empty, at, Loop(c, b))
  {
  }

  lemma StmtsBreaksStep(ss: List<Stmt>, at: Place)
    requires ss.Cons?
    ensures StmtsBreaks(ss, at) == Breaks(ss.head, at) + StmtsBreaks(ss.tail, StmtEnd(ss.head, at))
  {
    hide StmtEnd, Breaks;
  }

  lemma {:induction false} ArmBreaksPatched(
    arms: List<StmtArm>, v: Register, at: Place, c: nat, draft: nat, b: nat, end: nat
  )
    ensures Patchable(StmtArmsCode(arms, v, at, Loop(c, draft), end), at.code, ArmBreaks(arms, at))
    ensures Patch(StmtArmsCode(arms, v, at, Loop(c, draft), end), at.code, ArmBreaks(arms, at), b)
         == StmtArmsCode(arms, v, at, Loop(c, b), end)
    decreases arms, 0
  {
    hide *;
    match arms
    case Empty => NoArmBreaks(v, at, c, draft, b, end);
    case Cons(arm, rest) =>
      var at1 := GuardPlace(arm.pattern, at);
      var at2 := GuardEnd(arm.guard, at1);
      var next := Skip(StmtEnd(arm.body, at2), 1, 0);
      var test := BindCode(arm.pattern, v, at, next.code) + GuardCode(arm.guard, at1, next.code);
      var body, breaks := StmtCode(arm.body, at2, Loop(c, draft)), Breaks(arm.body, at2);
      var tail := StmtArmsCode(rest, v, next, Loop(c, draft), end);
      StmtArmsParts(arms, v, at, Loop(c, draft), end);
      StmtArmsParts(arms, v, at, Loop(c, b), end);
      ArmBreaksStep(arms, at);
      BreaksPatched(arm.body, at2, c, draft, b);
      ArmBreaksPatched(rest, v, next, c, draft, b, end);
      PatchAfter(test, body, at.code, breaks, b);
      PatchBefore(test + body, [Jump(end)], at.code, breaks, b);
      PatchConcat(test + body + [Jump(end)], tail, at.code, breaks, ArmBreaks(rest, next), b);
      PatchableConcat(test + body + [Jump(end)], tail, at.code, breaks, ArmBreaks(rest, next));
  }

  lemma NoArmBreaks(v: Register, at: Place, c: nat, draft: nat, b: nat, end: nat)
    ensures Patchable(StmtArmsCode(Empty, v, at, Loop(c, draft), end), at.code, ArmBreaks(Empty, at))
    ensures Patch(StmtArmsCode(Empty, v, at, Loop(c, draft), end), at.code, ArmBreaks(Empty, at), b)
         == StmtArmsCode(Empty, v, at, Loop(c, b), end)
  {
  }

  lemma ArmBreaksStep(arms: List<StmtArm>, at: Place)
    requires arms.Cons?
    ensures
      var at2 := GuardEnd(arms.head.guard, GuardPlace(arms.head.pattern, at));
      ArmBreaks(arms, at) == Breaks(arms.head.body, at2) + ArmBreaks(arms.tail, Skip(StmtEnd(arms.head.body, at2), 1, 0))
  {
    hide StmtEnd, GuardEnd, GuardPlace, Breaks;
  }
}
