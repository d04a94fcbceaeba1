/** Compiled patterns: control falls through exactly when the value matches, with
    every binding register holding its component; otherwise it reaches the fail target.
 */
module PatternSimulation {
  import opened Runtime
  import opened Ast
  import opened Semantics
  import opened IR
  import opened Lowering
  import opened CodeEquations
  import opened Placement

  /** The bound registers hold the values of the bindings, name by name. */
  predicate Holds(bound: Bound, bs: Bindings, regs: map<Register, Value>) {
    && |bound| == |bs|
    && forall i :: 0 <= i < |bound| ==>
         bound[i].0 == bs[i].0 && bound[i].1 in regs && regs[bound[i].1] == bs[i].1
  }

  /** What a compiled pattern has done to the machine, by result of the reference match. */
  predicate PatternLands(
    r: PatternResult, bound: Bound, m: State, m': State, base: Register, success: nat, fail: nat
  )
    requires m.Running?
  {
    match r
    case Matches(bs) => Lands(m, m', base, success, m.world) && Holds(bound, bs, m'.regs)
    case Fails => Lands(m, m', base, fail, m.world)
    case PatternFaults(message) => m' == Trapped(message, m.world)
  }

  lemma HoldsKept(bound: Bound, bs: Bindings, a: map<Register, Value>, b: map<Register, Value>, base: Register)
    requires Holds(bound, bs, a) && Agree(a, b, base)
    requires forall i :: 0 <= i < |bound| ==> bound[i].1 < base
    ensures Holds(bound, bs, b)
  {
  }

  lemma HoldsConcat(b1: Bound, s1: Bindings, b2: Bound, s2: Bindings, regs: map<Register, Value>)
    requires Holds(b1, s1, regs) && Holds(b2, s2, regs)
    ensures Holds(b1 + b2, s1 + s2, regs)
  {
  }

  // -------------------------------------------------- facts about binding lists

  lemma {:induction false} SharedAt(names: seq<string>, base: Register, i: nat)
    requires i < |names|
    ensures SharedRegisters(names, base)[i] == (names[i], base + i)
  {
    if i > 0 {
      SharedAt(names[1..], base + 1, i - 1);
    }
  }

  lemma {:induction false} IndexOfAt(names: seq<string>, i: nat)
    requires Distinct(names) && i < |names|
    ensures IndexOf(names, names[i]) == i
  {
    if i > 0 {
      assert names[1..][i - 1] == names[i];
      IndexOfAt(names[1..], i - 1);
    }
  }

  lemma {:induction false} IndexOfMember(names: seq<string>, name: string)
    requires name in names
    ensures IndexOf(names, name) < |names| && names[IndexOf(names, name)] == name
  {
    if names[0] != name {
      IndexOfMember(names[1..], name);
    }
  }

  lemma {:induction false} LookupAt(bs: Bindings, i: nat)
    requires i < |bs|
    requires forall j :: 0 <= j < i ==> bs[j].0 != bs[i].0
    ensures Lookup(bs, bs[i].0) == bs[i].1
  {
    if i > 0 {
      assert bs[0].0 != bs[i].0;
      assert bs[1..][i - 1] == bs[i];
      LookupAt(bs[1..], i - 1);
    }
  }

  /** Binding names are the pattern's names; registers are the matched value's or fresh. */
  lemma {:induction false} BindingsFit(p: Pattern, v: Register, at: Place)
    ensures forall i :: 0 <= i < |PatternNames(p)| ==>
      var b := PatternBindings(p, v, at)[i];
      b.0 == PatternNames(p)[i] && (b.1 == v || at.regs <= b.1 < PatternEnd(p, at).regs)
    decreases p
  {
    match p
    case Wildcard =>
    case LiteralPattern(_) =>
    case Bind(_) =>
    case RecordPattern(parts) => ComponentBindingsFit(parts, v, at);
    case VariantPattern(_, _, parts) => ComponentBindingsFit(parts, v, Skip(at, 2, 1));
    case OrPattern(first, others) =>
      var names := PatternNames(first);
      var base := PatternEnd(first, at).regs;
      forall i | 0 <= i < |names| ensures SharedRegisters(names, base)[i] == (names[i], base + i) {
        SharedAt(names, base, i);
      }
  }

  lemma {:induction false} ComponentBindingsFit(parts: List<Component>, v: Register, at: Place)
    ensures forall i :: 0 <= i < |ComponentNames(parts)| ==>
      var b := ComponentBindings(parts, v, at)[i];
      b.0 == ComponentNames(parts)[i] && (b.1 == v || at.regs <= b.1 < ComponentsEnd(parts, at).regs)
    decreases parts
  {
    match parts
    case Empty =>
    case Cons(part, rest) =>
      var at1 := Skip(at, 1, 1);
      BindingsFit(part.pattern, at.regs, at1);
      ComponentBindingsFit(rest, v, PatternEnd(part.pattern, at1));
  }

  lemma {:induction false} NamesCount(names: seq<string>)
    requires Distinct(names)
    ensures |set n | n in names| == |names|
  {
    if names != [] {
      NamesCount(names[1..]);
      var rest := set n | n in names[1..];
      assert (set n | n in names) == rest + {names[0]};
    }
  }

  /** Same number of distinct names, all of them merged names: every merged name is bound. */
  lemma MergedCovered(merged: seq<string>, names: seq<string>, name: string)
    requires SameBindings(merged, names) && Distinct(merged) && name in merged
    ensures name in names
  {
    var a, b := set n | n in names, set n | n in merged;
    NamesCount(names);
    NamesCount(merged);
    assert a <= b;
    assert |b - a| == |b| - |a|;
    assert b - a == {};
    assert name in b;
  }

  // --------------------------------------------------------------- merge copies

  /** The registers after the merge copies. */
  function CopyAll(bound: Bound, merged: seq<string>, base: Register, regs: map<Register, Value>): map<Register, Value>
    requires forall i :: 0 <= i < |bound| ==> bound[i].1 in regs
    decreases |bound|
  {
    if bound == [] then regs
    else CopyAll(bound[1..], merged, base, regs[base + IndexOf(merged, bound[0].0) := regs[bound[0].1]])
  }

  lemma {:induction false} MergeRuns(
    rt: Runtime, p: Program, bound: Bound, merged: seq<string>, base: Register, m: State
  )
    requires m.Running? && CodeAt(p, m.pc, MergeCode(bound, merged, base))
    requires forall i :: 0 <= i < |bound| ==> bound[i].1 in m.regs
    ensures Runs(rt, p, m, |bound|, m.(pc := m.pc + |bound|, regs := CopyAll(bound, merged, base, m.regs)))
    decreases |bound|
  {
    if bound != [] {
      var copy := Copy(base + IndexOf(merged, bound[0].0), bound[0].1);
      InstrAt(p, m.pc, MergeCode(bound, merged, base), 0);
      CodeSplit(p, m.pc, [copy], MergeCode(bound[1..], merged, base));
      DoCopy(rt, p, m, copy.dest, copy.source);
      var m1 := m.(pc := m.pc + 1, regs := m.regs[copy.dest := m.regs[copy.source]]);
      MergeRuns(rt, p, bound[1..], merged, base, m1);
      RunsThen(rt, p, m, 1, m1, |bound| - 1,
        m.(pc := m.pc + |bound|, regs := CopyAll(bound, merged, base, m.regs)));
    }
  }

  /** A register that no copy writes keeps its value. */
  lemma {:induction false} CopyAllKeeps(
    bound: Bound, merged: seq<string>, base: Register, regs: map<Register, Value>, r: Register
  )
    requires forall i :: 0 <= i < |bound| ==> bound[i].1 in regs
    requires forall i :: 0 <= i < |bound| ==> r != base + IndexOf(merged, bound[i].0)
    requires r in regs
    ensures r in CopyAll(bound, merged, base, regs) && CopyAll(bound, merged, base, regs)[r] == regs[r]
    decreases |bound|
  {
    if bound != [] {
      assert r != base + IndexOf(merged, bound[0].0);
      CopyAllKeeps(bound[1..], merged, base, regs[base + IndexOf(merged, bound[0].0) := regs[bound[0].1]], r);
    }
  }

  /** The sources are outside the shared registers, and the names are distinct merged names. */
  predicate Mergeable(bound: Bound, merged: seq<string>, base: Register) {
    && (forall i, j :: 0 <= i < j < |bound| ==> bound[i].0 != bound[j].0)
    && (forall i :: 0 <= i < |bound| ==>
         bound[i].0 in merged && (bound[i].1 < base || base + |merged| <= bound[i].1))
  }

  /** Each copy's target ends up with its source's old value. */
  lemma {:induction false} CopyAllMoves(
    bound: Bound, merged: seq<string>, base: Register, regs: map<Register, Value>, i: nat
  )
    requires i < |bound| && Mergeable(bound, merged, base)
    requires forall k :: 0 <= k < |bound| ==> bound[k].1 in regs
    ensures
      var target := base + IndexOf(merged, bound[i].0);
      var after := CopyAll(bound, merged, base, regs);
      target in after && after[target] == regs[bound[i].1]
    decreases |bound|
  {
    var target := base + IndexOf(merged, bound[0].0);
    var regs1 := regs[target := regs[bound[0].1]];
    IndexOfMember(merged, bound[0].0);
    if i == 0 {
      forall k | 0 <= k < |bound[1..]| ensures target != base + IndexOf(merged, bound[1..][k].0) {
        assert bound[1..][k] == bound[k + 1];
        IndexOfMember(merged, bound[k + 1].0);
      }
      CopyAllKeeps(bound[1..], merged, base, regs1, target);
    } else {
      assert bound[1..][i - 1] == bound[i];
      assert bound[i].1 != target;
      CopyAllMoves(bound[1..], merged, base, regs1, i - 1);
    }
  }

  /** After the merge the shared registers hold the bindings in merged order. */
  lemma MergeHolds(
    bound: Bound, bs: Bindings, merged: seq<string>, base: Register, regs: map<Register, Value>, names: seq<string>
  )
    requires Holds(bound, bs, regs) && Mergeable(bound, merged, base)
    requires SameBindings(merged, names) && Distinct(merged)
    requires |bound| == |names| && forall i :: 0 <= i < |bound| ==> bound[i].0 == names[i]
    ensures Holds(SharedRegisters(merged, base), Reorder(bs, merged), CopyAll(bound, merged, base, regs))
  {
    var after := CopyAll(bound, merged, base, regs);
    forall j | 0 <= j < |merged|
      ensures SharedRegisters(merged, base)[j] == (merged[j], base + j)
      ensures base + j in after && after[base + j] == Lookup(bs, merged[j])
    {
      SharedAt(merged, base, j);
      MergedCovered(merged, names, merged[j]);
      var i :| 0 <= i < |names| && names[i] == merged[j];
      assert bound[i].0 == merged[j];
      IndexOfAt(merged, j);
      CopyAllMoves(bound, merged, base, regs, i);
      assert bs[i].0 == merged[j];
      LookupAt(bs, i);
    }
  }

  /** The merge leaves registers below the shared ones alone. */
  lemma MergeAgrees(bound: Bound, merged: seq<string>, base: Register, regs: map<Register, Value>)
    requires forall i :: 0 <= i < |bound| ==> bound[i].1 in regs
    ensures Agree(regs, CopyAll(bound, merged, base, regs), base)
  {
    forall r | r in regs && r < base
      ensures r in CopyAll(bound, merged, base, regs) && CopyAll(bound, merged, base, regs)[r] == regs[r]
    {
      CopyAllKeeps(bound, merged, base, regs, r);
    }
  }

  lemma ReorderSame(bs: Bindings, names: seq<string>)
    requires Distinct(names) && |bs| == |names| && forall i :: 0 <= i < |bs| ==> bs[i].0 == names[i]
    ensures Reorder(bs, names) == bs
  {
    forall i | 0 <= i < |names| ensures Lookup(bs, names[i]) == bs[i].1 {
      LookupAt(bs, i);
    }
  }

  // ------------------------------------------------------------------ simulation

  /** A run that keeps the registers below `base` composes with a pattern run after it. */
  lemma PatternAfter(
    r: PatternResult, bound: Bound, m: State, m1: State, m2: State, base: Register, base1: Register,
    success: nat, fail: nat
  )
    requires m.Running? && m1.Running? && base <= base1
    requires Lands(m, m1, base, m1.pc, m.world)
    requires PatternLands(r, bound, m1, m2, base1, success, fail)
    ensures PatternLands(r, bound, m, m2, base, success, fail)
  {
    match r
    case Matches(_) => LandsTrans(m, m1, m2, base, base1);
    case Fails => LandsTrans(m, m1, m2, base, base1);
    case PatternFaults(_) =>
  }

  /** Copies and exit jump of an alternative that has matched. */
  lemma FinishAlternative(
    rt: Runtime, p: Program, bound: Bound, bs: Bindings, names: seq<string>, merged: seq<string>, base: Register,
    rest: List<Pattern>, end: nat, m: State
  ) returns (n: nat, m': State)
    requires m.Running? && CodeAt(p, m.pc, MergeCode(bound, merged, base) + ExitJump(rest, end))
    requires Holds(bound, bs, m.regs) && Mergeable(bound, merged, base)
    requires SameBindings(merged, names) && Distinct(merged)
    requires |bound| == |names| && forall i :: 0 <= i < |bound| ==> bound[i].0 == names[i]
    ensures Runs(rt, p, m, n, m')
    ensures Lands(m, m', base, if rest.Empty? then m.pc + |bound| else end, m.world)
    ensures Holds(SharedRegisters(merged, base), Reorder(bs, merged), m'.regs)
  {
    CodeSplit(p, m.pc, MergeCode(bound, merged, base), ExitJump(rest, end));
    var after := CopyAll(bound, merged, base, m.regs);
    MergeRuns(rt, p, bound, merged, base, m);
    MergeAgrees(bound, merged, base, m.regs);
    MergeHolds(bound, bs, merged, base, m.regs, names);
    n, m' := |bound|, m.(pc := m.pc + |bound|, regs := after);
    if rest.Cons? {
      InstrAt(p, m'.pc, ExitJump(rest, end), 0);
      DoJump(rt, p, m', end);
      RunsThen(rt, p, m, n, m', 1, m'.(pc := end));
      n, m' := n + 1, m'.(pc := end);
    }
  }

  /** The bindings of an alternative placed at or after the shared registers can be merged. */
  lemma AlternativeMergeable(other: Pattern, v: Register, at: Place, merged: seq<string>, base: Register)
    requires v < base && (base + |merged| <= at.regs || PatternEnd(other, at).regs <= base)
    requires SameBindings(merged, PatternNames(other))
    ensures Mergeable(PatternBindings(other, v, at), merged, base)
    ensures forall i :: 0 <= i < |PatternNames(other)| ==> PatternBindings(other, v, at)[i].0 == PatternNames(other)[i]
  {
    BindingsFit(other, v, at);
    var bound, names := PatternBindings(other, v, at), PatternNames(other);
    forall i | 0 <= i < |bound|
      ensures bound[i].0 in merged && (bound[i].1 < base || base + |merged| <= bound[i].1)
    {
      assert names[i] in names;
    }
  }

  lemma SelectorPure(rt: Runtime, s: Selector, v: Value, w: World)
    ensures Apply(rt, SelectorPrim(s), [v], w).world == w
  {
  }

  /** A compiled pattern decides the reference match of the value in register `v`. */
  lemma {:induction false} SimPattern(
    rt: Runtime, p: Program, pattern: Pattern, v: Register, at: Place, fail: nat, m: State
  ) returns (n: nat, m': State)
    requires m.Running? && m.pc == at.code && v < at.regs && v in m.regs
    requires PatternOk(pattern) && CodeAt(p, at.code, PatternCode(pattern, v, at, fail))
    ensures Runs(rt, p, m, n, m')
    ensures PatternLands(MatchPattern(rt, pattern, m.regs[v], m.world), PatternBindings(pattern, v, at),
                         m, m', at.regs, PatternEnd(pattern, at).code, fail)
    decreases pattern, 1
  {
    match pattern
    case Wildcard => n, m' := 0, m;
    case Bind(_) => n, m' := 0, m;
    case LiteralPattern(_) => n, m' := SimLiteral(rt, p, pattern, v, at, fail, m);
    case RecordPattern(parts) => n, m' := SimComponents(rt, p, parts, v, at, fail, m);
    case VariantPattern(_, _, _) => n, m' := SimVariant(rt, p, pattern, v, at, fail, m);
    case OrPattern(_, _) => n, m' := SimOr(rt, p, pattern, v, at, fail, m);
  }

  lemma SimLiteral(
    rt: Runtime, p: Program, pattern: Pattern, v: Register, at: Place, fail: nat, m: State
  ) returns (n: nat, m': State)
    requires pattern.LiteralPattern?
    requires m.Running? && m.pc == at.code && v < at.regs && v in m.regs
    requires CodeAt(p, at.code, PatternCode(pattern, v, at, fail))
    ensures Runs(rt, p, m, n, m')
    ensures PatternLands(MatchPattern(rt, pattern, m.regs[v], m.world), PatternBindings(pattern, v, at),
                         m, m', at.regs, PatternEnd(pattern, at).code, fail)
  {
    var code := PatternCode(pattern, v, at, fail);
    InstrAt(p, at.code, code, 0);
    InstrAt(p, at.code, code, 1);
    InstrAt(p, at.code, code, 2);
    hide CodeAt, Runs, Apply;
    ApplyConstant(rt, pattern.constant, m.world);
    ApplyEqual(rt, m.regs[v], pattern.constant, m.world);
    DoCompute(rt, p, m, at.regs, Constant(pattern.constant), [], []);
    var m1 := m.(pc := m.pc + 1, regs := m.regs[at.regs := pattern.constant]);
    DoCompute(rt, p, m1, at.regs + 1, Equal, [v, at.regs], [m.regs[v], pattern.constant]);
    var equal := Bool(ValuesEqual(m.regs[v], pattern.constant));
    var m2 := m1.(pc := m1.pc + 1, regs := m1.regs[at.regs + 1 := equal]);
    RunsThen(rt, p, m, 1, m1, 1, m2);
    DoJumpIf(rt, p, m2, at.regs + 1, false, fail);
    n, m' := 3, m2.(pc := if equal.b then m2.pc + 1 else fail);
    RunsThen(rt, p, m, 2, m2, 1, m');
  }

  lemma {:induction false} SimVariant(
    rt: Runtime, p: Program, pattern: Pattern, v: Register, at: Place, fail: nat, m: State
  ) returns (n: nat, m': State)
    requires pattern.VariantPattern?
    requires m.Running? && m.pc == at.code && v < at.regs && v in m.regs
    requires PatternOk(pattern) && CodeAt(p, at.code, PatternCode(pattern, v, at, fail))
    ensures Runs(rt, p, m, n, m')
    ensures PatternLands(MatchPattern(rt, pattern, m.regs[v], m.world), PatternBindings(pattern, v, at),
                         m, m', at.regs, PatternEnd(pattern, at).code, fail)
    decreases pattern, 0
  {
    hide Runs, Step, Steps;
    var at1 := Skip(at, 2, 1);
    var m2 := TagRuns(rt, p, pattern, v, at, fail, m);
    n, m' := 2, m2;
    if m2.pc == at1.code && TagMatches(pattern, m.regs[v]) {
      hide CodeAt;
      var n3;
      n3, m' := SimComponents(rt, p, pattern.parts, v, at1, fail, m2);
      RunsThen(rt, p, m, 2, m2, n3, m');
      n := 2 + n3;
      PatternAfter(MatchComponents(rt, pattern.parts, m.regs[v], m.world), ComponentBindings(pattern.parts, v, at1),
                   m, m2, m', at.regs, at1.regs, ComponentsEnd(pattern.parts, at1).code, fail);
    }
  }

  predicate TagMatches(pattern: Pattern, v: Value)
    requires pattern.VariantPattern?
  {
    v.Variant? && v.enumName == pattern.enumName && v.variantName == pattern.variantName
  }

  /** The tag test of a variant pattern and its jump. */
  lemma TagRuns(
    rt: Runtime, p: Program, pattern: Pattern, v: Register, at: Place, fail: nat, m: State
  ) returns (m': State)
    requires pattern.VariantPattern?
    requires m.Running? && m.pc == at.code && v < at.regs && v in m.regs
    requires CodeAt(p, at.code, PatternCode(pattern, v, at, fail))
    ensures Runs(rt, p, m, 2, m')
    ensures Lands(m, m', at.regs, if TagMatches(pattern, m.regs[v]) then at.code + 2 else fail, m.world)
    ensures CodeAt(p, at.code + 2, ComponentsCode(pattern.parts, v, Skip(at, 2, 1), fail))
  {
    var tag := [Compute(at.regs, VariantTag(pattern.enumName, pattern.variantName), [v]), JumpIf(at.regs, false, fail)];
    CodeSplit(p, at.code, tag, ComponentsCode(pattern.parts, v, Skip(at, 2, 1), fail));
    InstrAt(p, at.code, tag, 0);
    InstrAt(p, at.code, tag, 1);
    hide CodeAt, ComponentsCode, PatternCode, Runs, Apply;
    ApplyTag(rt, pattern.enumName, pattern.variantName, m.regs[v], m.world);
    DoCompute(rt, p, m, at.regs, VariantTag(pattern.enumName, pattern.variantName), [v], [m.regs[v]]);
    var matches := TagMatches(pattern, m.regs[v]);
    var m1 := m.(pc := m.pc + 1, regs := m.regs[at.regs := Bool(matches)]);
    DoJumpIf(rt, p, m1, at.regs, false, fail);
    m' := m1.(pc := if matches then m1.pc + 1 else fail);
    RunsThen(rt, p, m, 1, m1, 1, m');
  }

  lemma ComponentsPlaced(p: Program, parts: List<Component>, v: Register, at: Place, fail: nat)
    requires parts.Cons? && CodeAt(p, at.code, ComponentsCode(parts, v, at, fail))
    ensures at.code < |p.code| && p.code[at.code] == Compute(at.regs, SelectorPrim(parts.head.selector), [v])
    ensures CodeAt(p, at.code + 1, PatternCode(parts.head.pattern, at.regs, Skip(at, 1, 1), fail))
    ensures
      var at2 := PatternEnd(parts.head.pattern, Skip(at, 1, 1));
      CodeAt(p, at2.code, ComponentsCode(parts.tail, v, at2, fail))
  {
    var at1 := Skip(at, 1, 1);
    var at2 := PatternEnd(parts.head.pattern, at1);
    var select := [Compute(at.regs, SelectorPrim(parts.head.selector), [v])];
    var code1 := PatternCode(parts.head.pattern, at.regs, at1, fail);
    CodeSplit(p, at.code, select + code1, ComponentsCode(parts.tail, v, at2, fail));
    CodeSplit(p, at.code, select, code1);
    InstrAt(p, at.code, select, 0);
  }

  /** Reading the component into its register. */
  lemma SelectRuns(rt: Runtime, p: Program, s: Selector, v: Register, r: Register, m: State) returns (m': State)
    requires m.Running? && v < r && v in m.regs
    requires m.pc < |p.code| && p.code[m.pc] == Compute(r, SelectorPrim(s), [v])
    ensures Runs(rt, p, m, 1, m')
    ensures match Apply(rt, SelectorPrim(s), [m.regs[v]], m.world)
            case Done(part, _) => Lands(m, m', r, m.pc + 1, m.world) && r in m'.regs && m'.regs[r] == part
            case Trap(message, _) => m' == Trapped(message, m.world)
  {
    hide Apply, Runs;
    DoCompute(rt, p, m, r, SelectorPrim(s), [v], [m.regs[v]]);
    SelectorPure(rt, s, m.regs[v], m.world);
    m' := Finish(m, r, Apply(rt, SelectorPrim(s), [m.regs[v]], m.world));
  }

  lemma {:induction false} SimComponents(
    rt: Runtime, p: Program, parts: List<Component>, v: Register, at: Place, fail: nat, m: State
  ) returns (n: nat, m': State)
    requires m.Running? && m.pc == at.code && v < at.regs && v in m.regs
    requires ComponentsOk(parts) && CodeAt(p, at.code, ComponentsCode(parts, v, at, fail))
    ensures Runs(rt, p, m, n, m')
    ensures PatternLands(MatchComponents(rt, parts, m.regs[v], m.world), ComponentBindings(parts, v, at),
                         m, m', at.regs, ComponentsEnd(parts, at).code, fail)
    decreases parts, 0, 1
  {
    match parts
    case Empty => n, m' := 0, m;
    case Cons(part, rest) =>
      ComponentsPlaced(p, parts, v, at, fail);
      var m1 := SelectRuns(rt, p, part.selector, v, at.regs, m);
      if m1.Running? {
        n, m' := SimSelected(rt, p, parts, v, at, fail, m, m1);
      } else {
        n, m' := 1, m1;
      }
  }

  /** From the component in its register to the end of the components. */
  lemma {:induction false} SimSelected(
    rt: Runtime, p: Program, parts: List<Component>, v: Register, at: Place, fail: nat, m: State, m1: State
  ) returns (n: nat, m': State)
    requires parts.Cons? && m.Running? && m1.Running? && Runs(rt, p, m, 1, m1) && v < at.regs && v in m.regs
    requires Lands(m, m1, at.regs, at.code + 1, m.world) && at.regs in m1.regs
    requires Apply(rt, SelectorPrim(parts.head.selector), [m.regs[v]], m.world).Done?
    requires Apply(rt, SelectorPrim(parts.head.selector), [m.regs[v]], m.world).value == m1.regs[at.regs]
    requires ComponentsOk(parts)
    requires CodeAt(p, at.code + 1, PatternCode(parts.head.pattern, at.regs, Skip(at, 1, 1), fail))
    requires
      var at2 := PatternEnd(parts.head.pattern, Skip(at, 1, 1));
      CodeAt(p, at2.code, ComponentsCode(parts.tail, v, at2, fail))
    ensures Runs(rt, p, m, n, m')
    ensures PatternLands(MatchComponents(rt, parts, m.regs[v], m.world), ComponentBindings(parts, v, at),
                         m, m', at.regs, ComponentsEnd(parts, at).code, fail)
    decreases parts, 0, 0
  {
    hide Runs, Step, Steps, CodeAt, PatternCode, ComponentsCode, Holds, Apply, PatternBindings, ComponentBindings;
    var at1 := Skip(at, 1, 1);
    var at2 := PatternEnd(parts.head.pattern, at1);
    var n2, m2 := SimPattern(rt, p, parts.head.pattern, at.regs, at1, fail, m1);
    RunsThen(rt, p, m, 1, m1, n2, m2);
    n, m' := 1 + n2, m2;
    if MatchPattern(rt, parts.head.pattern, m1.regs[at.regs], m.world).Matches? {
      var n3, m3 := SimComponents(rt, p, parts.tail, v, at2, fail, m2);
      RunsThen(rt, p, m, 1 + n2, m2, n3, m3);
      n, m' := 1 + n2 + n3, m3;
      JoinComponents(rt, parts, v, at, fail, m, m1, m2, m3);
    }
  }

  /** The bindings of the first component survive the matching of the others. */
  lemma JoinComponents(
    rt: Runtime, parts: List<Component>, v: Register, at: Place, fail: nat, m: State, m1: State, m2: State, m3: State
  )
    requires parts.Cons? && m.Running? && m1.Running? && m2.Running? && v < at.regs && v in m.regs
    requires Lands(m, m1, at.regs, at.code + 1, m.world) && at.regs in m1.regs
    requires Apply(rt, SelectorPrim(parts.head.selector), [m.regs[v]], m.world).Done?
    requires Apply(rt, SelectorPrim(parts.head.selector), [m.regs[v]], m.world).value == m1.regs[at.regs]
    requires PatternLands(MatchPattern(rt, parts.head.pattern, m1.regs[at.regs], m.world),
                          PatternBindings(parts.head.pattern, at.regs, Skip(at, 1, 1)), m1, m2, at.regs + 1,
                          PatternEnd(parts.head.pattern, Skip(at, 1, 1)).code, fail)
    requires MatchPattern(rt, parts.head.pattern, m1.regs[at.regs], m.world).Matches?
    requires PatternLands(MatchComponents(rt, parts.tail, m.regs[v], m.world),
                          ComponentBindings(parts.tail, v, PatternEnd(parts.head.pattern, Skip(at, 1, 1))), m2, m3,
                          PatternEnd(parts.head.pattern, Skip(at, 1, 1)).regs,
                          ComponentsEnd(parts, at).code, fail)
    ensures PatternLands(MatchComponents(rt, parts, m.regs[v], m.world), ComponentBindings(parts, v, at),
                         m, m3, at.regs, ComponentsEnd(parts, at).code, fail)
  {
    var at1 := Skip(at, 1, 1);
    var at2 := PatternEnd(parts.head.pattern, at1);
    var b1, b2 := PatternBindings(parts.head.pattern, at.regs, at1), ComponentBindings(parts.tail, v, at2);
    match MatchComponents(rt, parts.tail, m.regs[v], m.world)
    case Matches(rest) =>
      var first := MatchPattern(rt, parts.head.pattern, m1.regs[at.regs], m.world).bindings;
      BindingsFit(parts.head.pattern, at.regs, at1);
      HoldsKept(b1, first, m2.regs, m3.regs, at2.regs);
      HoldsConcat(b1, first, b2, rest, m3.regs);
    case Fails =>
    case PatternFaults(_) =>
  }

  /** The parts of an alternative: its pattern, its copies and exit jump, and the alternatives after it. */
  lemma AlternativePlaced(
    p: Program, pc: nat, code1: seq<Instr>, code2: seq<Instr>, exit: seq<Instr>, later: seq<Instr>
  )
    requires CodeAt(p, pc, code1 + code2 + exit + later)
    ensures CodeAt(p, pc, code1)
    ensures CodeAt(p, pc + |code1|, code2 + exit)
    ensures CodeAt(p, pc + |code1| + |code2| + |exit|, later)
  {
    CodeSplit(p, pc, code1 + code2 + exit, later);
    assert code1 + code2 + exit == code1 + (code2 + exit);
    CodeSplit(p, pc, code1, code2 + exit);
  }

  lemma OrPlaced(p: Program, pattern: Pattern, v: Register, at: Place, fail: nat)
    requires pattern.OrPattern? && CodeAt(p, at.code, PatternCode(pattern, v, at, fail))
    ensures
      var next, names := OrNext(pattern, at), PatternNames(pattern.first);
      var base, end := PatternEnd(pattern.first, at).regs, AlternativesEnd(pattern.others, next).code;
      && CodeAt(p, at.code, PatternCode(pattern.first, v, at, NextOr(pattern.others, next, fail)))
      && CodeAt(p, PatternEnd(pattern.first, at).code,
                MergeCode(PatternBindings(pattern.first, v, at), names, base) + ExitJump(pattern.others, end))
      && CodeAt(p, next.code, AlternativesCode(pattern.others, names, base, v, next, fail, end))
  {
    hide *;
    var next, names := OrNext(pattern, at), PatternNames(pattern.first);
    var base, end := PatternEnd(pattern.first, at).regs, AlternativesEnd(pattern.others, next).code;
    OrParts(pattern, v, at, fail);
    OrPlaces(pattern, at);
    AlternativePlaced(
      p, at.code, PatternCode(pattern.first, v, at, NextOr(pattern.others, next, fail)),
      MergeCode(PatternBindings(pattern.first, v, at), names, base), ExitJump(pattern.others, end),
      AlternativesCode(pattern.others, names, base, v, next, fail, end));
  }

  lemma OrPlaces(pattern: Pattern, at: Place)
    requires pattern.OrPattern?
    ensures OrNext(pattern, at).code
         == PatternEnd(pattern.first, at).code + |PatternNames(pattern.first)| + JumpOut(pattern.others)
  {
  }

  lemma {:induction false} SimOr(
    rt: Runtime, p: Program, pattern: Pattern, v: Register, at: Place, fail: nat, m: State
  ) returns (n: nat, m': State)
    requires pattern.OrPattern?
    requires m.Running? && m.pc == at.code && v < at.regs && v in m.regs
    requires PatternOk(pattern) && CodeAt(p, at.code, PatternCode(pattern, v, at, fail))
    ensures Runs(rt, p, m, n, m')
    ensures PatternLands(MatchPattern(rt, pattern, m.regs[v], m.world), PatternBindings(pattern, v, at),
                         m, m', at.regs, PatternEnd(pattern, at).code, fail)
    decreases pattern, 0
  {
    hide Runs, Step, Steps, Apply, CodeAt, PatternCode, OrCode, AlternativesCode, MergeCode;
    var first, others := pattern.first, pattern.others;
    var next, names := OrNext(pattern, at), PatternNames(first);
    var base, end := PatternEnd(first, at).regs, AlternativesEnd(others, next).code;
    OrPlaced(p, pattern, v, at, fail);
    var n1, m1 := SimPattern(rt, p, first, v, at, NextOr(others, next, fail), m);
    n, m' := n1, m1;
    match MatchPattern(rt, first, m.regs[v], m.world)
    case Matches(bs) =>
      var n2;
      n2, m' := OrFirstMatches(rt, p, pattern, bs, v, at, m1);
      LandsTrans(m, m1, m', at.regs, base);
      RunsThen(rt, p, m, n1, m1, n2, m');
      n := n1 + n2;
    case PatternFaults(_) =>
    case Fails =>
      if others.Cons? {
        hide Holds;
        var n2;
        n2, m' := SimAlternatives(rt, p, others, names, base, v, next, fail, end, m1);
        RunsThen(rt, p, m, n1, m1, n2, m');
        n := n1 + n2;
        PatternAfter(MatchAlternatives(rt, others, names, m.regs[v], m.world), SharedRegisters(names, base),
                     m, m1, m', at.regs, base, end, fail);
      }
  }

  lemma OrFirstMatches(
    rt: Runtime, p: Program, pattern: Pattern, bs: Bindings, v: Register, at: Place, m1: State
  ) returns (n: nat, m': State)
    requires pattern.OrPattern? && PatternOk(pattern) && v < at.regs
    requires m1.Running? && m1.pc == PatternEnd(pattern.first, at).code
    requires Holds(PatternBindings(pattern.first, v, at), bs, m1.regs)
    requires
      var next, names := OrNext(pattern, at), PatternNames(pattern.first);
      var base, end := PatternEnd(pattern.first, at).regs, AlternativesEnd(pattern.others, next).code;
      CodeAt(p, m1.pc, MergeCode(PatternBindings(pattern.first, v, at), names, base) + ExitJump(pattern.others, end))
    ensures Runs(rt, p, m1, n, m')
    ensures Lands(m1, m', PatternEnd(pattern.first, at).regs, PatternEnd(pattern, at).code, m1.world)
    ensures Holds(PatternBindings(pattern, v, at), bs, m'.regs)
  {
    var next, names := OrNext(pattern, at), PatternNames(pattern.first);
    var base, end := PatternEnd(pattern.first, at).regs, AlternativesEnd(pattern.others, next).code;
    AlternativeMergeable(pattern.first, v, at, names, base);
    ReorderSame(bs, names);
    n, m' := FinishAlternative(rt, p, PatternBindings(pattern.first, v, at), bs, names, names, base,
                               pattern.others, end, m1);
  }

  lemma AlternativeMatches(
    rt: Runtime, p: Program, others: List<Pattern>, bs: Bindings, names: seq<string>, base: Register, v: Register,
    at: Place, end: nat, m1: State
  ) returns (n: nat, m': State)
    requires others.Cons? && AlternativesOk(others, names) && Distinct(names)
    requires v < base && base + |names| <= at.regs && end == AlternativesEnd(others, at).code
    requires m1.Running? && m1.pc == PatternEnd(others.head, at).code
    requires Holds(PatternBindings(others.head, v, at), bs, m1.regs)
    requires CodeAt(p, m1.pc, MergeCode(PatternBindings(others.head, v, at), names, base) + ExitJump(others.tail, end))
    ensures Runs(rt, p, m1, n, m')
    ensures Lands(m1, m', base, end, m1.world)
    ensures Holds(SharedRegisters(names, base), Reorder(bs, names), m'.regs)
  {
    hide Runs, CodeAt, Holds, Reorder;
    AlternativeMergeable(others.head, v, at, names, base);
    n, m' := FinishAlternative(rt, p, PatternBindings(others.head, v, at), bs, PatternNames(others.head), names, base,
                               others.tail, end, m1);
  }

  lemma AlternativesPlaced(
    p: Program, others: List<Pattern>, names: seq<string>, base: Register, v: Register, at: Place, fail: nat, end: nat
  )
    requires others.Cons? && CodeAt(p, at.code, AlternativesCode(others, names, base, v, at, fail, end))
    ensures
      var other, rest := others.head, others.tail;
      var next := AlternativeNext(other, rest, at);
      && CodeAt(p, at.code, PatternCode(other, v, at, NextOr(rest, next, fail)))
      && CodeAt(p, PatternEnd(other, at).code,
                MergeCode(PatternBindings(other, v, at), names, base) + ExitJump(rest, end))
      && CodeAt(p, next.code, AlternativesCode(rest, names, base, v, next, fail, end))
  {
    hide *;
    var other, rest := others.head, others.tail;
    var next := AlternativeNext(other, rest, at);
    AlternativesParts(others, names, base, v, at, fail, end);
    AlternativePlaced(
      p, at.code, PatternCode(other, v, at, NextOr(rest, next, fail)),
      MergeCode(PatternBindings(other, v, at), names, base), ExitJump(rest, end),
      AlternativesCode(rest, names, base, v, next, fail, end));
  }

  lemma {:induction false} SimAlternatives(
    rt: Runtime, p: Program, others: List<Pattern>, names: seq<string>, base: Register, v: Register, at: Place,
    fail: nat, end: nat, m: State
  ) returns (n: nat, m': State)
    requires others.Cons?
    requires m.Running? && m.pc == at.code && v < base && base + |names| <= at.regs && v in m.regs
    requires AlternativesOk(others, names) && Distinct(names) && end == AlternativesEnd(others, at).code
    requires CodeAt(p, at.code, AlternativesCode(others, names, base, v, at, fail, end))
    ensures Runs(rt, p, m, n, m')
    ensures PatternLands(MatchAlternatives(rt, others, names, m.regs[v], m.world), SharedRegisters(names, base),
                         m, m', base, end, fail)
    decreases others, 0
  {
    hide PatternEnd, SharedRegisters, Reorder, Distinct, SameBindings,
      Runs, CodeAt, Agree, Apply, PatternCode, OrCode, AlternativesCode, MergeCode, PatternBindings;
    var other, rest := others.head, others.tail;
    var next := AlternativeNext(other, rest, at);
    AlternativesPlaced(p, others, names, base, v, at, fail, end);
    var n1, m1 := SimPattern(rt, p, other, v, at, NextOr(rest, next, fail), m);
    n, m' := n1, m1;
    if !MatchPattern(rt, other, m.regs[v], m.world).PatternFaults? {
      LandsKeeps(m, m1, at.regs, v);
      LandsWeaken(m, m1, at.regs, base);
    }
    match MatchPattern(rt, other, m.regs[v], m.world)
    case Matches(bs) =>
      var n2;
      n2, m' := AlternativeMatches(rt, p, others, bs, names, base, v, at, end, m1);
      LandsTrans(m, m1, m', base, base);
      RunsThen(rt, p, m, n1, m1, n2, m');
      n := n1 + n2;
    case PatternFaults(_) =>
    case Fails =>
      if rest.Cons? {
        hide Holds, AlternativeNext, NextOr;
        var n2;
        n2, m' := SimAlternatives(rt, p, rest, names, base, v, next, fail, end, m1);
        RunsThen(rt, p, m, n1, m1, n2, m');
        n := n1 + n2;
        PatternAfter(MatchAlternatives(rt, rest, names, m.regs[v], m.world), SharedRegisters(names, base),
                     m, m1, m', base, base, end, fail);
      }
  }
}
