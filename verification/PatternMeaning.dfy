/** What patterns match, said over values: which payload or field each part looks at, which bindings
    it gives, and which alternative of an OR-pattern is taken.  Pattern matching of the source and the
    code of compiled patterns both agree with it.
 */
module PatternMeaning {
  import opened Wrappers
  import opened Runtime
  import opened Ast
  import opened Semantics
  import opened IR
  import opened Lowering
  import opened Placement
  import opened PatternSimulation

  /** The part of a value that a selector names: a payload by its index, or a field by its name. */
  function Part(rt: Runtime, heap: Heap, v: Value, s: Selector): Option<Value> {
    match s
    case PayloadField(i) => if v.Variant? && i < |v.fields| then Some(v.fields[i]) else None
    case MemberField(name) => rt.field(heap, v, name)
  }

  /** The value matches the pattern and gives the bindings. */
  ghost predicate Fits(rt: Runtime, heap: Heap, p: Pattern, v: Value, bs: Bindings)
    decreases p, 1
  {
    match p
    case Wildcard => bs == []
    case Bind(name) => bs == [(name, v)]
    case LiteralPattern(c) => v == c && bs == []
    case RecordPattern(parts) => FitsAll(rt, heap, parts, v, bs)
    case VariantPattern(e, n, parts) =>
      (exists fields :: v == Variant(e, n, fields)) && FitsAll(rt, heap, parts, v, bs)
    case OrPattern(first, others) =>
      || Fits(rt, heap, first, v, bs)
      || (Misses(rt, heap, first, v) && exists own :: FitsSome(rt, heap, others, v, own) && Rearranged(bs, own, first))
  }

  /** Every part of the pattern fits its part of the value; the bindings are those of the parts in order. */
  ghost predicate FitsAll(rt: Runtime, heap: Heap, parts: List<Component>, v: Value, bs: Bindings)
    decreases parts, 0
  {
    match parts
    case Empty => bs == []
    case Cons(part, rest) =>
      var x := Part(rt, heap, v, part.selector);
      x.Some? && exists k :: 0 <= k <= |bs| && Fits(rt, heap, part.pattern, x.value, bs[..k]) && FitsAll(rt, heap, rest, v, bs[k..])
  }

  /** The value fits one of the patterns and misses those before it. */
  ghost predicate FitsSome(rt: Runtime, heap: Heap, ps: List<Pattern>, v: Value, bs: Bindings)
    decreases ps, 0
  {
    match ps
    case Empty => false
    case Cons(p, rest) => Fits(rt, heap, p, v, bs) || (Misses(rt, heap, p, v) && FitsSome(rt, heap, rest, v, bs))
  }

  /** The value does not match the pattern. */
  ghost predicate Misses(rt: Runtime, heap: Heap, p: Pattern, v: Value)
    decreases p, 0
  {
    match p
    case Wildcard => false
    case Bind(_) => false
    case LiteralPattern(c) => v != c
    case RecordPattern(parts) => MissesOne(rt, heap, parts, v)
    case VariantPattern(e, n, parts) => (forall fields :: v != Variant(e, n, fields)) || MissesOne(rt, heap, parts, v)
    case OrPattern(first, others) => Misses(rt, heap, first, v) && MissesEach(rt, heap, others, v)
  }

  /** Some part of the value is there and misses its pattern, and the parts before it fit theirs. */
  ghost predicate MissesOne(rt: Runtime, heap: Heap, parts: List<Component>, v: Value)
    decreases parts, 0
  {
    match parts
    case Empty => false
    case Cons(part, rest) =>
      var x := Part(rt, heap, v, part.selector);
      && x.Some?
      && (|| Misses(rt, heap, part.pattern, x.value)
          || ((exists bs :: Fits(rt, heap, part.pattern, x.value, bs)) && MissesOne(rt, heap, rest, v)))
  }

  ghost predicate MissesEach(rt: Runtime, heap: Heap, ps: List<Pattern>, v: Value)
    decreases ps, 0
  {
    match ps
    case Empty => true
    case Cons(p, rest) => Misses(rt, heap, p, v) && MissesEach(rt, heap, rest, v)
  }

  /** The same names with the same values, in the order in which the first alternative binds them. */
  ghost predicate Rearranged(bs: Bindings, own: Bindings, first: Pattern) {
    |bs| == |own| && Names(bs) == PatternNames(first) && forall b :: b in bs <==> b in own
  }

  function Names(bs: Bindings): seq<string> {
    seq(|bs|, i requires 0 <= i < |bs| => bs[i].0)
  }

  // ------------------------------------------------------------------- the source agrees

  lemma PartIs(rt: Runtime, s: Selector, v: Value, w: World)
    ensures
      var r := Apply(rt, SelectorPrim(s), [v], w);
      (r.Done? <==> Part(rt, w.heap, v, s).Some?) && (r.Done? ==> r.value == Part(rt, w.heap, v, s).value)
  {
  }

  lemma NamesConcat(a: Bindings, b: Bindings)
    ensures Names(a + b) == Names(a) + Names(b)
  {
  }

  /** What matching gives: bindings under the pattern's names, as they fit; a miss; or neither. */
  ghost predicate Agrees(rt: Runtime, w: World, p: Pattern, v: Value, r: PatternResult) {
    && (forall bs :: Fits(rt, w.heap, p, v, bs) <==> r == Matches(bs))
    && (Misses(rt, w.heap, p, v) <==> r.Fails?)
    && (r.Matches? ==> Names(r.bindings) == PatternNames(p))
  }

  lemma {:induction false} MatchingAgrees(rt: Runtime, p: Pattern, v: Value, w: World)
    requires PatternOk(p)
    ensures Agrees(rt, w, p, v, MatchPattern(rt, p, v, w))
    decreases p
  {
    match p
    case RecordPattern(parts) => AllAgree(rt, parts, v, w);
    case VariantPattern(e, n, parts) =>
      AllAgree(rt, parts, v, w);
      if v.Variant? && v.enumName == e && v.variantName == n {
        assert v == Variant(e, n, v.fields);
      }
    case OrPattern(first, others) =>
      MatchingAgrees(rt, first, v, w);
      SomeAgrees(rt, others, PatternNames(first), v, w);
      OrAgrees(rt, first, others, v, w);
    case _ =>
  }

  lemma {:induction false} AllAgree(rt: Runtime, parts: List<Component>, v: Value, w: World)
    requires ComponentsOk(parts)
    ensures
      var r := MatchComponents(rt, parts, v, w);
      && (forall bs :: FitsAll(rt, w.heap, parts, v, bs) <==> r == Matches(bs))
      && (MissesOne(rt, w.heap, parts, v) <==> r.Fails?)
      && (r.Matches? ==> Names(r.bindings) == ComponentNames(parts))
    decreases parts
  {
    hide Apply, SelectorPrim, Fits, Misses, Names;
    match parts
    case Empty => NoNames();
    case Cons(part, rest) =>
      PartIs(rt, part.selector, v, w);
      var x := Part(rt, w.heap, v, part.selector);
      if x.Some? {
        MatchingAgrees(rt, part.pattern, x.value, w);
        AllAgree(rt, rest, v, w);
        ConsAgrees(rt, part, rest, x.value, v, w);
      }
  }

  lemma NoNames()
    ensures Names([]) == []
  {
  }

  lemma ConsAgrees(rt: Runtime, part: Component, rest: List<Component>, x: Value, v: Value, w: World)
    requires Part(rt, w.heap, v, part.selector) == Some(x)
    requires Agrees(rt, w, part.pattern, x, MatchPattern(rt, part.pattern, x, w))
    requires
      var r := MatchComponents(rt, rest, v, w);
      && (forall bs :: FitsAll(rt, w.heap, rest, v, bs) <==> r == Matches(bs))
      && (MissesOne(rt, w.heap, rest, v) <==> r.Fails?)
      && (r.Matches? ==> Names(r.bindings) == ComponentNames(rest))
    ensures
      var r := MatchComponents(rt, Cons(part, rest), v, w);
      && (forall bs :: FitsAll(rt, w.heap, Cons(part, rest), v, bs) <==> r == Matches(bs))
      && (MissesOne(rt, w.heap, Cons(part, rest), v) <==> r.Fails?)
      && (r.Matches? ==> Names(r.bindings) == ComponentNames(Cons(part, rest)))
  {
    hide Apply, SelectorPrim, Fits, Misses, Names, MatchPattern;
    PartIs(rt, part.selector, v, w);
    var a, b := MatchPattern(rt, part.pattern, x, w), MatchComponents(rt, rest, v, w);
    var r := MatchComponents(rt, Cons(part, rest), v, w);
    if a.Matches? && b.Matches? {
      NamesConcat(a.bindings, b.bindings);
    }
    forall bs ensures FitsAll(rt, w.heap, Cons(part, rest), v, bs) <==> r == Matches(bs) {
      if r == Matches(bs) {
        var k := |a.bindings|;
        assert bs[..k] == a.bindings && bs[k..] == b.bindings;
      }
      if FitsAll(rt, w.heap, Cons(part, rest), v, bs) {
        var k :| 0 <= k <= |bs| && Fits(rt, w.heap, part.pattern, x, bs[..k]) && FitsAll(rt, w.heap, rest, v, bs[k..]);
        assert bs == bs[..k] + bs[k..];
      }
    }
    if a.Matches? {
      assert Fits(rt, w.heap, part.pattern, x, a.bindings);
    }
  }

  /** What trying alternatives gives, in the merged order. */
  lemma {:induction false} SomeAgrees(rt: Runtime, others: List<Pattern>, merged: seq<string>, v: Value, w: World)
    requires AlternativesOk(others, merged) && Distinct(merged)
    ensures
      var r := MatchAlternatives(rt, others, merged, v, w);
      && (r.Matches? <==> exists own :: FitsSome(rt, w.heap, others, v, own))
      && (forall own :: FitsSome(rt, w.heap, others, v, own) ==>
            r == Matches(Reorder(own, merged)) && SameBindings(merged, Names(own)))
      && (MissesEach(rt, w.heap, others, v) <==> r.Fails?)
    decreases others
  {
    hide Fits, Misses, Names, MatchPattern, Reorder, SameBindings;
    match others
    case Empty =>
    case Cons(other, rest) =>
      MatchingAgrees(rt, other, v, w);
      SomeAgrees(rt, rest, merged, v, w);
      var r := MatchPattern(rt, other, v, w);
      if r.Matches? {
        assert Fits(rt, w.heap, other, v, r.bindings);
        assert FitsSome(rt, w.heap, others, v, r.bindings);
      }
      if own :| FitsSome(rt, w.heap, rest, v, own) {
        assert r.Fails? ==> FitsSome(rt, w.heap, others, v, own);
      }
  }

  /** Listing bindings in another order of the same names. */
  lemma ReorderedIs(bs: Bindings, own: Bindings, first: Pattern)
    requires Distinct(PatternNames(first)) && SameBindings(PatternNames(first), Names(own))
    ensures Rearranged(bs, own, first) <==> bs == Reorder(own, PatternNames(first))
  {
    var names := PatternNames(first);
    var r := Reorder(own, names);
    assert Names(r) == names;
    forall i | 0 <= i < |own| ensures Lookup(own, own[i].0) == own[i].1 {
      forall j | 0 <= j < i ensures own[j].0 != own[i].0 {
        assert Names(own)[j] != Names(own)[i];
      }
      LookupAt(own, i);
    }
    forall i | 0 <= i < |names| ensures r[i] in own {
      MergedCovered(names, Names(own), names[i]);
      var j :| 0 <= j < |own| && Names(own)[j] == names[i];
      assert own[j].0 == names[i];
      assert r[i] == own[j];
    }
    forall b | b in own ensures b in r {
      var j :| 0 <= j < |own| && own[j] == b;
      assert Names(own)[j] in names;
      var i :| 0 <= i < |names| && names[i] == Names(own)[j];
      assert r[i] == b;
    }
    if Rearranged(bs, own, first) {
      forall i | 0 <= i < |bs| ensures bs[i] == r[i] {
        assert Names(bs)[i] == names[i];
        assert bs[i] in own;
        var j :| 0 <= j < |own| && own[j] == bs[i];
      }
    }
  }

  lemma OrAgrees(rt: Runtime, first: Pattern, others: List<Pattern>, v: Value, w: World)
    requires PatternOk(OrPattern(first, others)) && Agrees(rt, w, first, v, MatchPattern(rt, first, v, w))
    requires
      var r := MatchAlternatives(rt, others, PatternNames(first), v, w);
      && (r.Matches? <==> exists own :: FitsSome(rt, w.heap, others, v, own))
      && (forall own :: FitsSome(rt, w.heap, others, v, own) ==>
            r == Matches(Reorder(own, PatternNames(first))) && SameBindings(PatternNames(first), Names(own)))
      && (MissesEach(rt, w.heap, others, v) <==> r.Fails?)
    ensures Agrees(rt, w, OrPattern(first, others), v, MatchPattern(rt, OrPattern(first, others), v, w))
  {
    hide Names, Reorder, SameBindings, Rearranged, MatchAlternatives, FitsSome, MissesEach;
    var p, r1 := OrPattern(first, others), MatchPattern(rt, first, v, w);
    var r2 := MatchAlternatives(rt, others, PatternNames(first), v, w);
    var r := MatchPattern(rt, p, v, w);
    forall bs ensures Fits(rt, w.heap, p, v, bs) <==> r == Matches(bs) {
      if own :| r1.Fails? && FitsSome(rt, w.heap, others, v, own) {
        ReorderedIs(bs, own, first);
      }
      if own :| FitsSome(rt, w.heap, others, v, own) && Rearranged(bs, own, first) {
        ReorderedIs(bs, own, first);
      }
    }
    if r1.Fails? && r2.Matches? {
      ReorderedNames(rt, first, others, v, w, r2.bindings);
    }
  }

  lemma ReorderedNames(rt: Runtime, first: Pattern, others: List<Pattern>, v: Value, w: World, bs: Bindings)
    requires exists own :: FitsSome(rt, w.heap, others, v, own)
    requires forall own :: FitsSome(rt, w.heap, others, v, own) ==> bs == Reorder(own, PatternNames(first))
    ensures Names(bs) == PatternNames(first)
  {
    hide FitsSome;
    var own :| FitsSome(rt, w.heap, others, v, own);
  }

  // ---------------------------------------------------------------------- the code agrees

  /** The code of a pattern falls through exactly when the value matches, its binding registers then
      hold the bindings; it is at the fail target exactly when the value misses. */
  lemma CodeSelects(
    rt: Runtime, p: Program, pattern: Pattern, v: Register, at: Place, fail: nat, m: State
  ) returns (n: nat, m': State)
    requires m.Running? && m.pc == at.code && v in m.regs && v < at.regs && PatternOk(pattern)
    requires CodeAt(p, at.code, PatternCode(pattern, v, at, fail))
    ensures Runs(rt, p, m, n, m')
    ensures forall bs :: Fits(rt, m.world.heap, pattern, m.regs[v], bs) ==>
      Lands(m, m', at.regs, PatternEnd(pattern, at).code, m.world) && Holds(PatternBindings(pattern, v, at), bs, m'.regs)
    ensures Misses(rt, m.world.heap, pattern, m.regs[v]) ==> Lands(m, m', at.regs, fail, m.world)
    ensures
      (forall bs :: !Fits(rt, m.world.heap, pattern, m.regs[v], bs)) && !Misses(rt, m.world.heap, pattern, m.regs[v]) ==>
        m'.Trapped? && m'.world == m.world
  {
    hide *;
    MatchingAgrees(rt, pattern, m.regs[v], m.world);
    n, m' := SimPattern(rt, p, pattern, v, at, fail, m);
    CodeMeans(rt, pattern, m.regs[v], m.world, PatternBindings(pattern, v, at), m, m', at.regs, PatternEnd(pattern, at).code, fail);
  }

  lemma CodeMeans(
    rt: Runtime, pattern: Pattern, v: Value, w: World, bound: Bound, m: State, m': State, base: Register, success: nat,
    fail: nat
  )
    requires m.Running? && w == m.world && Agrees(rt, w, pattern, v, MatchPattern(rt, pattern, v, w))
    requires PatternLands(MatchPattern(rt, pattern, v, w), bound, m, m', base, success, fail)
    ensures forall bs :: Fits(rt, w.heap, pattern, v, bs) ==> Lands(m, m', base, success, w) && Holds(bound, bs, m'.regs)
    ensures Misses(rt, w.heap, pattern, v) ==> Lands(m, m', base, fail, w)
    ensures
      (forall bs :: !Fits(rt, w.heap, pattern, v, bs)) && !Misses(rt, w.heap, pattern, v) ==> m'.Trapped? && m'.world == w
  {
    hide Fits, Misses, MatchPattern, Lands, Holds;
    var r := MatchPattern(rt, pattern, v, w);
    if r.Matches? {
      assert Fits(rt, w.heap, pattern, v, r.bindings);
    }
  }
}
