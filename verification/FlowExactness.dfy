/** How much a condition narrows: nothing less than its conjuncts and comparisons say.

    `FlowFacts` shows that no fact is wrong.  Here it is shown which facts there are, for every
    condition by its parts, and for the conditions that the narrowing is meant for by what they mean:
    every path that such a condition forces to be non-nil is narrowed, to the type of the resolver,
    and a question asked in the branch is answered with it.
 */
module FlowExactness {
  import opened Wrappers
  import opened Runtime
  import opened Decimals
  import opened FlowFacts
  import opened FlowChecks

  // -------------------------------------------------------------------- by its parts

  /** `part` is the condition itself, or a part joined to the rest by `&&` alone (by `||` alone). */
  ghost predicate Conjunct(c: Condition, part: Condition, both: bool) {
    || c == part
    || match c
       case Grouping(inner) => Conjunct(inner, part, both)
       case And(l, r) => both && (Conjunct(l, part, both) || Conjunct(r, part, both))
       case Or(l, r) => !both && (Conjunct(l, part, both) || Conjunct(r, part, both))
       case _ => false
  }

  predicate IsNil(c: Condition) {
    c.LiteralValue? && c.lexeme == "nil"
  }

  /** The condition compares with `nil` something that is narrowed to `n`. */
  predicate ComparesNil(c: Condition, isEqual: bool, n: Narrowing, resolve: Resolver) {
    && c.Comparison? && c.isEqual == isEqual
    && ((IsNil(c.right) && resolve(c.left) == Some(n)) || (IsNil(c.left) && resolve(c.right) == Some(n)))
  }

  /** A true condition narrows to `n` for a conjunct that is a target, or differs from `nil`. */
  ghost predicate ThenPart(c: Condition, n: Narrowing, resolve: Resolver) {
    exists part :: Conjunct(c, part, true) && (resolve(part) == Some(n) || ComparesNil(part, false, n, resolve))
  }

  /** A false condition narrows to `n` for a disjunct that equals `nil`. */
  ghost predicate ElsePart(c: Condition, n: Narrowing, resolve: Resolver) {
    exists part :: Conjunct(c, part, false) && ComparesNil(part, true, n, resolve)
  }

  lemma {:induction false} PartsUngrouped(c: Condition, n: Narrowing, resolve: Resolver)
    requires ResolverRight(resolve)
    ensures ThenPart(c, n, resolve) <==> ThenPart(UngroupedOf(c), n, resolve)
    ensures ElsePart(c, n, resolve) <==> ElsePart(UngroupedOf(c), n, resolve)
    decreases c
  {
    if c.Grouping? {
      PartsUngrouped(c.inner, n, resolve);
      if part :| Conjunct(c, part, true) && (resolve(part) == Some(n) || ComparesNil(part, false, n, resolve)) {
        assert part != c && Conjunct(c.inner, part, true);
      }
      if part :| Conjunct(c, part, false) && ComparesNil(part, true, n, resolve) {
        assert part != c && Conjunct(c.inner, part, false);
      }
      if part :| Conjunct(c.inner, part, true) && (resolve(part) == Some(n) || ComparesNil(part, false, n, resolve)) {
        assert Conjunct(c, part, true);
      }
      if part :| Conjunct(c.inner, part, false) && ComparesNil(part, true, n, resolve) {
        assert Conjunct(c, part, false);
      }
    }
  }

  lemma JoinedParts(c: Condition, n: Narrowing, resolve: Resolver)
    requires ResolverRight(resolve) && (c.And? || c.Or?)
    ensures ThenPart(c, n, resolve) <==> c.And? && (ThenPart(c.left, n, resolve) || ThenPart(c.right, n, resolve))
    ensures ElsePart(c, n, resolve) <==> c.Or? && (ElsePart(c.left, n, resolve) || ElsePart(c.right, n, resolve))
  {
    if part :| Conjunct(c, part, true) && (resolve(part) == Some(n) || ComparesNil(part, false, n, resolve)) {
      assert part != c && c.And? && (Conjunct(c.left, part, true) || Conjunct(c.right, part, true));
    }
    if part :| Conjunct(c, part, false) && ComparesNil(part, true, n, resolve) {
      assert part != c && c.Or? && (Conjunct(c.left, part, false) || Conjunct(c.right, part, false));
    }
    if c.And? {
      assert forall part :: Conjunct(c.left, part, true) || Conjunct(c.right, part, true) ==> Conjunct(c, part, true);
    } else {
      assert forall part :: Conjunct(c.left, part, false) || Conjunct(c.right, part, false) ==> Conjunct(c, part, false);
    }
  }

  lemma SingleParts(c: Condition, n: Narrowing, resolve: Resolver)
    requires !c.And? && !c.Or? && !c.Grouping?
    ensures ThenPart(c, n, resolve) <==> resolve(c) == Some(n) || ComparesNil(c, false, n, resolve)
    ensures ElsePart(c, n, resolve) <==> ComparesNil(c, true, n, resolve)
  {
    assert Conjunct(c, c, true) && Conjunct(c, c, false);
  }

  /** The facts of a condition are exactly those of its conjuncts and disjuncts. */
  lemma {:induction false} FactsByParts(c: Condition, n: Narrowing, resolve: Resolver)
    requires ResolverRight(resolve)
    ensures n in FactsFor(c, resolve).thenNarrowings <==> ThenPart(c, n, resolve)
    ensures n in FactsFor(c, resolve).elseNarrowings <==> ElsePart(c, n, resolve)
    decreases c
  {
    hide ThenPart, ElsePart, ComparesNil;
    var u := UngroupedOf(c);
    PartsUngrouped(c, n, resolve);
    if u.And? || u.Or? {
      JoinedParts(u, n, resolve);
      FactsByParts(u.left, n, resolve);
      FactsByParts(u.right, n, resolve);
    } else {
      SingleParts(u, n, resolve);
      SingleFacts(u, n, resolve);
    }
  }

  lemma SingleFacts(c: Condition, n: Narrowing, resolve: Resolver)
    requires ResolverRight(resolve) && !c.And? && !c.Or? && !c.Grouping?
    ensures n in FactsFor(c, resolve).thenNarrowings <==> resolve(c) == Some(n) || ComparesNil(c, false, n, resolve)
    ensures n in FactsFor(c, resolve).elseNarrowings <==> ComparesNil(c, true, n, resolve)
  {
  }

  /** Every narrowing is one that the resolver gives for its path. */
  lemma FactsResolved(c: Condition, n: Narrowing, resolve: Resolver) returns (p: Path)
    requires ResolverRight(resolve)
    requires n in FactsFor(c, resolve).thenNarrowings || n in FactsFor(c, resolve).elseNarrowings
    ensures PathRight(p) && resolve(Target(p)) == Some(n) && n.resolvedName == FactName(p)
  {
    hide Conjunct, PathRight;
    FactsByParts(c, n, resolve);
    var part: Condition;
    if n in FactsFor(c, resolve).thenNarrowings {
      part :| Conjunct(c, part, true) && (resolve(part) == Some(n) || ComparesNil(part, false, n, resolve));
    } else {
      part :| Conjunct(c, part, false) && ComparesNil(part, true, n, resolve);
    }
    var target := if resolve(part) == Some(n) then part else if resolve(part.left) == Some(n) then part.left else part.right;
    p := target.path;
  }

  // ------------------------------------------------------------------- by its meaning

  /** A target that the resolver narrows. */
  predicate Narrowable(c: Condition, resolve: Resolver) {
    c.Target? && resolve(c).Some?
  }

  predicate NilComparison(c: Condition, isEqual: bool, resolve: Resolver) {
    && c.Comparison? && c.isEqual == isEqual
    && ((IsNil(c.right) && Narrowable(c.left, resolve)) || (IsNil(c.left) && Narrowable(c.right, resolve)))
  }

  /** Targets, and comparisons of targets that differ from `nil`, joined by `&&`. */
  predicate Affirms(c: Condition, resolve: Resolver) {
    match c
    case Grouping(inner) => Affirms(inner, resolve)
    case And(l, r) => Affirms(l, resolve) && Affirms(r, resolve)
    case _ => Narrowable(c, resolve) || NilComparison(c, false, resolve)
  }

  /** Comparisons of targets that equal `nil`, joined by `||`. */
  predicate Denies(c: Condition, resolve: Resolver) {
    match c
    case Grouping(inner) => Denies(inner, resolve)
    case Or(l, r) => Denies(l, resolve) && Denies(r, resolve)
    case _ => NilComparison(c, true, resolve)
  }

  /** In the store where only `q` holds nil, every other path holds something true. */
  lemma OthersTruthy(p: Path, q: Path)
    requires PathRight(p) && PathRight(q)
    ensures p == q ==> PathValue(NilAt(FactName(q)), p) == Nil
    ensures p != q ==> Truthy(PathValue(NilAt(FactName(q)), p))
  {
    if p == q {
      NilAtTarget(q);
    } else {
      NilOnlyAt(FactName(q), p);
      if FactName(p) == FactName(q) {
        FactNameInjective(p, q);
      }
      NeverFalse(FactName(q), p);
    }
  }

  lemma NeverFalse(name: string, p: Path)
    ensures PathValue(NilAt(name), p) == Nil || Truthy(PathValue(NilAt(name), p))
  {
  }

  /** The counterexample: a path that is not narrowed may hold nil while the condition is true. */
  lemma {:induction false} AffirmedElsewhere(c: Condition, q: Path, resolve: Resolver)
    requires Affirms(c, resolve) && LiteralsRight(c) && ResolverRight(resolve) && PathRight(q)
    requires resolve(Target(q)).Some? && resolve(Target(q)).value !in FactsFor(c, resolve).thenNarrowings
    ensures Truthy(Evaluate(NilAt(FactName(q)), c))
    decreases c
  {
    hide PathRight, NilAt;
    match c
    case Grouping(inner) => AffirmedElsewhere(inner, q, resolve);
    case And(l, r) =>
      AffirmedElsewhere(l, q, resolve);
      AffirmedElsewhere(r, q, resolve);
    case _ => AffirmedOne(c, q, resolve);
  }

  lemma AffirmedOne(c: Condition, q: Path, resolve: Resolver)
    requires Affirms(c, resolve) && LiteralsRight(c) && ResolverRight(resolve) && PathRight(q)
    requires !c.Grouping? && !c.And?
    requires resolve(Target(q)).Some? && resolve(Target(q)).value !in FactsFor(c, resolve).thenNarrowings
    ensures Truthy(Evaluate(NilAt(FactName(q)), c))
  {
    hide PathRight, NilAt, PathValue;
    var target := if c.Target? then c else if IsNil(c.right) && Narrowable(c.left, resolve) then c.left else c.right;
    assert resolve(target).value in FactsFor(c, resolve).thenNarrowings;
    OthersTruthy(target.path, q);
  }

  lemma {:induction false} DeniedElsewhere(c: Condition, q: Path, resolve: Resolver)
    requires Denies(c, resolve) && LiteralsRight(c) && ResolverRight(resolve) && PathRight(q)
    requires resolve(Target(q)).Some? && resolve(Target(q)).value !in FactsFor(c, resolve).elseNarrowings
    ensures !Truthy(Evaluate(NilAt(FactName(q)), c))
    decreases c
  {
    hide PathRight, NilAt;
    match c
    case Grouping(inner) => DeniedElsewhere(inner, q, resolve);
    case Or(l, r) =>
      DeniedElsewhere(l, q, resolve);
      DeniedElsewhere(r, q, resolve);
    case _ => DeniedOne(c, q, resolve);
  }

  lemma DeniedOne(c: Condition, q: Path, resolve: Resolver)
    requires Denies(c, resolve) && LiteralsRight(c) && ResolverRight(resolve) && PathRight(q)
    requires !c.Grouping? && !c.Or?
    requires resolve(Target(q)).Some? && resolve(Target(q)).value !in FactsFor(c, resolve).elseNarrowings
    ensures !Truthy(Evaluate(NilAt(FactName(q)), c))
  {
    hide PathRight, NilAt, PathValue;
    var target := if IsNil(c.right) && Narrowable(c.left, resolve) then c.left else c.right;
    assert resolve(target).value in FactsFor(c, resolve).elseNarrowings;
    OthersTruthy(target.path, q);
  }

  /** The path does not hold nil in any store in which the condition is true (false). */
  ghost predicate Forced(c: Condition, outcome: bool, q: Path) {
    forall s :: Truthy(Evaluate(s, c)) == outcome ==> PathValue(s, q) != Nil
  }

  /** Of a conjunction of nil checks, a true outcome narrows exactly the paths that it forces to be
      non-nil, to the types that the resolver gives them. */
  lemma ThenExactly(c: Condition, q: Path, resolve: Resolver)
    requires Affirms(c, resolve) && LiteralsRight(c) && ResolverRight(resolve)
    requires PathRight(q) && resolve(Target(q)).Some?
    ensures resolve(Target(q)).value in FactsFor(c, resolve).thenNarrowings <==> Forced(c, true, q)
  {
    hide PathRight, NilAt, PathValue, Affirms, FactsFor, LiteralsRight;
    var n := resolve(Target(q)).value;
    if n in FactsFor(c, resolve).thenNarrowings {
      forall s | Truthy(Evaluate(s, c)) ensures PathValue(s, q) != Nil {
        FactsSound(s, c, resolve);
        assert NonNil(s, n.resolvedName);
      }
    } else {
      AffirmedElsewhere(c, q, resolve);
      OthersTruthy(q, q);
    }
  }

  /** Of a disjunction of comparisons with `nil`, a false outcome narrows exactly the paths that it
      forces to be non-nil. */
  lemma ElseExactly(c: Condition, q: Path, resolve: Resolver)
    requires Denies(c, resolve) && LiteralsRight(c) && ResolverRight(resolve)
    requires PathRight(q) && resolve(Target(q)).Some?
    ensures resolve(Target(q)).value in FactsFor(c, resolve).elseNarrowings <==> Forced(c, false, q)
  {
    hide PathRight, NilAt, PathValue, Denies, FactsFor, LiteralsRight;
    var n := resolve(Target(q)).value;
    if n in FactsFor(c, resolve).elseNarrowings {
      forall s | !Truthy(Evaluate(s, c)) ensures PathValue(s, q) != Nil {
        FactsSound(s, c, resolve);
        assert NonNil(s, n.resolvedName);
      }
    } else {
      DeniedElsewhere(c, q, resolve);
      OthersTruthy(q, q);
    }
  }

  // ----------------------------------------------------------------------- questions

  /** `n` is listed, and the list says nothing else of its path. */
  predicate Settles(ns: seq<Narrowing>, n: Narrowing) {
    n in ns && forall m :: m in ns && m.resolvedName == n.resolvedName ==> m == n
  }

  lemma PushedLast(facts: seq<ActiveFact>, front: seq<Narrowing>, last: Narrowing)
    ensures Pushed(facts, front + [last]) == Pushed(facts, front) + [ActiveFact(last.resolvedName, Some(last.narrowedType))]
  {
  }

  lemma PushedJoin(more: seq<Narrowing>, ns: seq<Narrowing>)
    ensures Pushed([], more + ns) == Pushed(Pushed([], more), ns)
  {
  }

  lemma NewestFact(facts: seq<ActiveFact>, last: ActiveFact, name: string)
    ensures NarrowedType(facts + [last], name) ==
            if last.resolvedName == name then last.narrowedType else NarrowedType(facts, name)
  {
    assert (facts + [last])[..|facts|] == facts;
  }

  /** The newest fact of a name decides, whatever is below. */
  lemma {:induction false} NewestDecides(facts: seq<ActiveFact>, ns: seq<Narrowing>, n: Narrowing)
    requires Settles(ns, n)
    ensures NarrowedType(Pushed(facts, ns), n.resolvedName) == Some(n.narrowedType)
    decreases |ns|
  {
    hide Pushed, NarrowedType;
    var front, last := ns[..|ns| - 1], ns[|ns| - 1];
    assert ns == front + [last] && last in ns;
    PushedLast(facts, front, last);
    NewestFact(Pushed(facts, front), ActiveFact(last.resolvedName, Some(last.narrowedType)), n.resolvedName);
    if last.resolvedName != n.resolvedName {
      NewestDecides(facts, front, n);
    }
  }

  /** The resolver gives a path one type. */
  lemma OneType(c: Condition, n: Narrowing, m: Narrowing, resolve: Resolver)
    requires ResolverRight(resolve) && n.resolvedName == m.resolvedName
    requires n in FactsFor(c, resolve).thenNarrowings || n in FactsFor(c, resolve).elseNarrowings
    requires m in FactsFor(c, resolve).thenNarrowings || m in FactsFor(c, resolve).elseNarrowings
    ensures n == m
  {
    hide FactsFor, PathRight, ResolverRight;
    var p := FactsResolved(c, n, resolve);
    var q := FactsResolved(c, m, resolve);
    FactNameInjective(p, q);
  }

  lemma ConditionSettles(c: Condition, n: Narrowing, resolve: Resolver)
    requires ResolverRight(resolve)
    ensures
      var branch := FactsFor(c, resolve);
      && (n in branch.thenNarrowings ==> Settles(branch.thenNarrowings, n))
      && (n in branch.elseNarrowings ==> Settles(branch.elseNarrowings, n))
  {
    hide FactsFor, ResolverRight;
    var branch := FactsFor(c, resolve);
    forall m | (m in branch.thenNarrowings || m in branch.elseNarrowings) && m.resolvedName == n.resolvedName
               && (n in branch.thenNarrowings || n in branch.elseNarrowings)
      ensures m == n
    {
      OneType(c, n, m, resolve);
    }
  }

  lemma AskedAlone(name: string, facts: seq<ActiveFact>, types: Types)
    ensures Check(Ask(name), facts, types) == Checked([NarrowedType(facts, name)], facts) && MayFallThrough(Ask(name))
  {
  }

  /** A question asked in the branch of a true condition is answered with the type that it narrows
      the path to. */
  lemma ThenAnswered(c: Condition, other: Stmt, facts: seq<ActiveFact>, types: Types, n: Narrowing)
    requires TypesRight(types) && n in FactsFor(c, types.resolve).thenNarrowings
    ensures Check(If(c, Ask(n.resolvedName), None), facts, types).answers == [Some(n.narrowedType)]
    ensures Check(If(c, Ask(n.resolvedName), Some(other)), facts, types).answers
            == [Some(n.narrowedType)] + Check(other, ApartFacts(facts, FactsFor(c, types.resolve).elseNarrowings), types).answers
  {
    hide FactsFor, ResolverRight, NarrowedType, Joined, Active, Pushed, AfterBoth, Resized;
    var ns := FactsFor(c, types.resolve).thenNarrowings;
    ConditionSettles(c, n, types.resolve);
    NewestDecides(facts, ns, n);
    PushedJoin(Active(facts), ns);
    NewestDecides(Pushed([], Active(facts)), ns, n);
    AskedAlone(n.resolvedName, Pushed(facts, ns), types);
    AskedAlone(n.resolvedName, ApartFacts(facts, ns), types);
    assert Check(If(c, Ask(n.resolvedName), None), facts, types)
           == CheckOne(If(c, Ask(n.resolvedName), None), facts, types);
    assert Check(If(c, Ask(n.resolvedName), Some(other)), facts, types)
           == CheckBoth(If(c, Ask(n.resolvedName), Some(other)), facts, types);
  }

  /** So is one in the branch of a false condition. */
  lemma ElseAnswered(c: Condition, other: Stmt, facts: seq<ActiveFact>, types: Types, n: Narrowing)
    requires TypesRight(types) && n in FactsFor(c, types.resolve).elseNarrowings
    ensures Check(If(c, other, Some(Ask(n.resolvedName))), facts, types).answers
            == Check(other, ApartFacts(facts, FactsFor(c, types.resolve).thenNarrowings), types).answers + [Some(n.narrowedType)]
  {
    hide FactsFor, ResolverRight, NarrowedType, Joined, Active, Pushed, AfterBoth;
    var ns := FactsFor(c, types.resolve).elseNarrowings;
    ConditionSettles(c, n, types.resolve);
    PushedJoin(Active(facts), ns);
    NewestDecides(Pushed([], Active(facts)), ns, n);
    AskedAlone(n.resolvedName, ApartFacts(facts, ns), types);
    assert Check(If(c, other, Some(Ask(n.resolvedName))), facts, types)
           == CheckBoth(If(c, other, Some(Ask(n.resolvedName))), facts, types);
  }

  /** So is one after a branch that always leaves. */
  lemma LeftAnswered(c: Condition, leaving: Stmt, facts: seq<ActiveFact>, types: Types, n: Narrowing)
    requires TypesRight(types) && n in FactsFor(c, types.resolve).elseNarrowings && !MayFallThrough(leaving)
    ensures CheckAll(Then(If(c, leaving, None), Then(Ask(n.resolvedName), Nothing)), facts, types).answers
            == Check(leaving, ApartFacts(facts, FactsFor(c, types.resolve).thenNarrowings), types).answers
               + [Some(n.narrowedType)]
  {
    hide FactsFor, ResolverRight, NarrowedType, Active, Pushed, MayFallThrough;
    var ns, e := FactsFor(c, types.resolve).elseNarrowings, If(c, leaving, None);
    var after := Pushed(facts, ns);
    ConditionSettles(c, n, types.resolve);
    NewestDecides(facts, ns, n);
    AskedAlone(n.resolvedName, after, types);
    assert Check(e, facts, types) == CheckOne(e, facts, types);
    assert CheckOne(e, facts, types).facts == after;
    AskedLast(n.resolvedName, after, types);
  }

  /** Statements followed by `return`. */
  function Leaving(front: Stmts): Stmts {
    match front case Nothing => Then(Leave, Nothing) case Then(e, rest) => Then(e, Leaving(rest))
  }

  /** A branch that ends with `return` leaves, in however many blocks the `return` is. */
  lemma {:induction false} ReturnLeaves(front: Stmts, last: Stmt)
    ensures !MayFallThrough(Leave) && !MayFallThrough(Block(Leaving(front)))
    ensures !MayFallThrough(last) ==> !MayFallThrough(Block(Then(last, Nothing)))
    decreases front
  {
    match front
    case Nothing =>
    case Then(_, rest) => ReturnLeaves(rest, last);
  }

  lemma AskedLast(name: string, facts: seq<ActiveFact>, types: Types)
    ensures CheckAll(Then(Ask(name), Nothing), facts, types).answers == [NarrowedType(facts, name)]
  {
    assert CheckAll(Nothing, facts, types) == Checked([], facts);
  }

  /** The branch of a conjunction of nil checks answers for every path that the condition forces to be
      non-nil. */
  lemma ForcedAnswered(c: Condition, q: Path, facts: seq<ActiveFact>, types: Types)
    requires TypesRight(types) && Affirms(c, types.resolve) && LiteralsRight(c)
    requires PathRight(q) && types.resolve(Target(q)).Some? && Forced(c, true, q)
    ensures Check(If(c, Ask(FactName(q)), None), facts, types).answers
            == [Some(types.resolve(Target(q)).value.narrowedType)]
  {
    hide FactsFor, Affirms, LiteralsRight, PathRight, Forced, Check;
    ThenExactly(c, q, types.resolve);
    ThenAnswered(c, Leave, facts, types, types.resolve(Target(q)).value);
  }

  // ------------------------------------------------------------------ joined branches

  /** The position of the first candidate of its name that the other branch confirms. */
  predicate FirstConfirmed(thens: seq<Narrowing>, elses: seq<Narrowing>, types: Types, i: nat) {
    && i < |thens| && Confirmed(thens[i], elses, types)
    && forall j :: 0 <= j < i && thens[j].resolvedName == thens[i].resolvedName ==> !Confirmed(thens[j], elses, types)
  }

  /** The other branch ends with a fact of the same name and a type that agrees both ways. */
  predicate Confirmed(n: Narrowing, elses: seq<Narrowing>, types: Types) {
    exists k :: 0 <= k < |elses| && elses[k].resolvedName == n.resolvedName
                && types.agree(n.narrowedType, elses[k].narrowedType) && types.agree(elses[k].narrowedType, n.narrowedType)
  }

  /** Of the facts of one branch, those are joined that the other confirms, the first of each name. */
  lemma {:induction false} JoinedExactly(thens: seq<Narrowing>, elses: seq<Narrowing>, types: Types)
    ensures forall n :: n in Joined(thens, elses, types) <==>
              exists i: nat :: FirstConfirmed(thens, elses, types, i) && thens[i] == n
    ensures forall a, b :: 0 <= a < b < |Joined(thens, elses, types)| ==>
              Joined(thens, elses, types)[a].resolvedName != Joined(thens, elses, types)[b].resolvedName
    decreases |thens|
  {
    hide Confirmed;
    if thens != [] {
      var last, front := |thens| - 1, thens[..|thens| - 1];
      var before, all := Joined(front, elses, types), Joined(thens, elses, types);
      JoinedExactly(front, elses, types);
      MatchConfirms(thens[last], elses, types);
      forall i: nat | i < last
        ensures FirstConfirmed(thens, elses, types, i) <==> FirstConfirmed(front, elses, types, i)
      {
        assert forall j :: 0 <= j <= i ==> thens[j] == front[j];
      }
      LastConfirmed(thens, elses, types, before);
      forall n ensures n in all <==> exists i: nat :: FirstConfirmed(thens, elses, types, i) && thens[i] == n {
        if n in before {
          var i: nat :| FirstConfirmed(front, elses, types, i) && front[i] == n;
          assert FirstConfirmed(thens, elses, types, i) && thens[i] == n;
        }
        if i: nat :| FirstConfirmed(thens, elses, types, i) && thens[i] == n && i < last {
          assert FirstConfirmed(front, elses, types, i) && front[i] == n;
        }
      }
    }
  }

  lemma MatchConfirms(n: Narrowing, elses: seq<Narrowing>, types: Types)
    ensures HasMatch(elses, n, types) <==> Confirmed(n, elses, types)
  {
    if HasMatch(elses, n, types) {
      var k :| 0 <= k < |elses| && Matches(n, elses[k], types);
      assert elses[k].resolvedName == n.resolvedName;
    }
    if Confirmed(n, elses, types) {
      var k :| 0 <= k < |elses| && elses[k].resolvedName == n.resolvedName
        && types.agree(n.narrowedType, elses[k].narrowedType) && types.agree(elses[k].narrowedType, n.narrowedType);
      assert Matches(n, elses[k], types);
    }
  }

  /** The last candidate is the first of its name when no earlier one was joined. */
  lemma LastConfirmed(thens: seq<Narrowing>, elses: seq<Narrowing>, types: Types, before: seq<Narrowing>)
    requires thens != []
    requires
      var front := thens[..|thens| - 1];
      forall n :: n in before <==> exists i: nat :: FirstConfirmed(front, elses, types, i) && front[i] == n
    ensures
      var last := thens[|thens| - 1];
      FirstConfirmed(thens, elses, types, |thens| - 1) <==>
        Confirmed(last, elses, types) && !HasName(before, last.resolvedName)
  {
    hide Confirmed;
    var front, last := thens[..|thens| - 1], thens[|thens| - 1];
    if HasName(before, last.resolvedName) {
      var k :| 0 <= k < |before| && before[k].resolvedName == last.resolvedName;
      assert before[k] in before;
      var i: nat :| FirstConfirmed(front, elses, types, i) && front[i] == before[k];
      assert thens[i] == front[i];
    } else if j :| 0 <= j < |front| && thens[j].resolvedName == last.resolvedName && Confirmed(thens[j], elses, types) {
      var i := FirstOf(front, elses, types, j);
      assert front[i] in before;
    }
  }

  lemma {:induction false} FirstOf(ns: seq<Narrowing>, elses: seq<Narrowing>, types: Types, j: nat) returns (i: nat)
    requires j < |ns| && Confirmed(ns[j], elses, types)
    ensures FirstConfirmed(ns, elses, types, i) && ns[i].resolvedName == ns[j].resolvedName
    decreases j
  {
    hide Confirmed;
    if k: nat :| k < j && ns[k].resolvedName == ns[j].resolvedName && Confirmed(ns[k], elses, types) {
      i := FirstOf(ns, elses, types, k);
    } else {
      i := j;
    }
  }

  /** Checking a branch apart takes along exactly the facts that still have a type. */
  lemma {:induction false} ActiveExactly(facts: seq<ActiveFact>, n: Narrowing)
    ensures n in Active(facts) <==> ActiveFact(n.resolvedName, Some(n.narrowedType)) in facts
    decreases |facts|
  {
    if facts != [] {
      var last := |facts| - 1;
      ActiveExactly(facts[..last], n);
      assert facts == facts[..last] + [facts[last]];
    }
  }

  /** A question right after an `if` with `else` is answered with what both branches end with, or with
      what the one ends with when the other leaves. */
  lemma AfterAnswered(c: Condition, t: Stmt, f: Stmt, facts: seq<ActiveFact>, types: Types, n: Narrowing)
    requires MayFallThrough(t) || MayFallThrough(f)
    requires
      var branch := FactsFor(c, types.resolve);
      var thens := Active(Check(t, ApartFacts(facts, branch.thenNarrowings), types).facts);
      var elses := Active(Check(f, ApartFacts(facts, branch.elseNarrowings), types).facts);
      if !MayFallThrough(t) then Settles(elses, n)
      else if !MayFallThrough(f) then Settles(thens, n)
      else exists i: nat :: FirstConfirmed(thens, elses, types, i) && thens[i] == n
    ensures
      var branch := FactsFor(c, types.resolve);
      CheckAll(Then(If(c, t, Some(f)), Then(Ask(n.resolvedName), Nothing)), facts, types).answers
      == Check(t, ApartFacts(facts, branch.thenNarrowings), types).answers
         + Check(f, ApartFacts(facts, branch.elseNarrowings), types).answers + [Some(n.narrowedType)]
  {
    hide FactsFor, NarrowedType, Active, Pushed, MayFallThrough, FirstConfirmed, Joined, ApartFacts, Settles;
    var branch, e := FactsFor(c, types.resolve), If(c, t, Some(f));
    var a := Check(t, ApartFacts(facts, branch.thenNarrowings), types);
    var b := Check(f, ApartFacts(facts, branch.elseNarrowings), types);
    var thens, elses := Active(a.facts), Active(b.facts);
    assert Check(e, facts, types) == CheckBoth(e, facts, types);
    var after := CheckBoth(e, facts, types).facts;
    assert after == AfterBoth(facts, t, thens, f, elses, types);
    AskedLast(n.resolvedName, after, types);
    if !MayFallThrough(t) {
      NewestDecides([], elses, n);
    } else if !MayFallThrough(f) {
      NewestDecides([], thens, n);
    } else {
      JoinedSettles(thens, elses, types, n);
      NewestDecides([], Joined(thens, elses, types), n);
    }
  }

  lemma JoinedSettles(thens: seq<Narrowing>, elses: seq<Narrowing>, types: Types, n: Narrowing)
    requires exists i: nat :: FirstConfirmed(thens, elses, types, i) && thens[i] == n
    ensures Settles(Joined(thens, elses, types), n)
  {
    hide FirstConfirmed, Joined;
    JoinedExactly(thens, elses, types);
  }

  // ---------------------------------------------------------------------- invalidation

  /** The store in which nothing holds nil and reading from nil gives nil. */
  function NilSpreads(): Store {
    Store(
      (x: string) => Bool(true),
      (v: Value, member: string) => if v == Nil then Nil else Bool(true),
      (v: Value, k: Value) => if v == Nil || k == Nil then Nil else Bool(true),
      (text: string) => Bool(true))
  }

  lemma {:induction false} SpreadsTo(p: Path, variable: string)
    ensures PathValue(NilSpreads(), p) == Bool(true)
    ensures PathValue(Assigned(NilSpreads(), variable, Nil), p) == if Mentions(p, variable) then Nil else Bool(true)
    decreases p
  {
    match p
    case Variable(_) =>
    case Member(parent, _) => SpreadsTo(parent, variable);
    case Element(parent, _) => SpreadsTo(parent, variable);
  }

  /** The string tests hold of no other names than those of paths that mention the variable. */
  lemma {:induction false} DependsMentions(p: Path, variable: string)
    requires PathRight(p) && NameRight(variable) && Depends(FactName(p), variable)
    ensures Mentions(p, variable)
    decreases p
  {
    hide Depends;
    match p
    case Variable(name) => PlainDepends(name, variable);
    case Member(parent, name) =>
      MemberDepends(FactName(parent), name, variable);
      DependsMentions(parent, variable);
    case Element(parent, key) =>
      KeyUnmarked(key);
      ElementDepends(FactName(parent), KeyText(key), variable);
      if Depends(FactName(parent), variable) {
        DependsMentions(parent, variable);
      }
  }

  lemma PlainDepends(name: string, variable: string)
    requires Unmarked(name, MARKS) && Depends(name, variable)
    ensures name == variable
  {
    PlainPrefix(name, variable, '.');
    PlainPrefix(name, variable, '[');
    forall i: nat ensures !PartAt(name, ['['] + variable + [']'], i) {
      PlainPart(name, variable, i);
    }
  }

  lemma PlainPrefix(text: string, variable: string, mark: char)
    requires Unmarked(text, MARKS) && mark in MARKS
    ensures !HasPrefix(text, variable + [mark])
  {
    if |variable| < |text| {
      assert text[..|variable| + 1][|variable|] == text[|variable|] && text[|variable|] !in MARKS;
    }
  }

  lemma PlainPart(text: string, variable: string, i: nat)
    requires Unmarked(text, MARKS)
    ensures !PartAt(text, ['['] + variable + [']'], i)
  {
    if i + |variable| + 2 <= |text| {
      assert text[i..i + |variable| + 2][0] == text[i] && text[i] !in MARKS;
    }
  }

  /** A text that holds a mark is no name, nor does a longer name end before the mark. */
  lemma MarkedApart(parent: string, separator: char, rest: string, variable: string, mark: char)
    requires Unmarked(variable, MARKS) && separator in MARKS
    ensures parent + [separator] + rest != variable
    ensures |variable| > |parent| ==> !HasPrefix(parent + [separator] + rest, variable + [mark])
  {
    var text := parent + [separator] + rest;
    assert text[|parent|] == separator;
    if |variable| > |parent| {
      assert variable[|parent|] !in MARKS && (variable + [mark])[|parent|] == variable[|parent|];
      if |variable| < |text| {
        assert text[..|variable| + 1][|parent|] == separator;
      }
    }
  }

  /** A prefix that ends with a mark lies in the parent, or is the parent and its separator. */
  lemma PrefixDepends(parent: string, separator: char, rest: string, variable: string, mark: char)
    requires Unmarked(variable, MARKS) && separator in MARKS
    requires HasPrefix(parent + [separator] + rest, variable + [mark])
    ensures HasPrefix(parent, variable + [mark]) || parent == variable
  {
    var text := parent + [separator] + rest;
    MarkedApart(parent, separator, rest, variable, mark);
    assert text[..|variable| + 1] == variable + [mark];
    if |variable| < |parent| {
      assert parent[..|variable| + 1] == text[..|variable| + 1];
    } else {
      assert parent == text[..|variable| + 1][..|variable|];
    }
  }

  lemma MemberDepends(parent: string, name: string, variable: string)
    requires NameRight(variable) && Unmarked(name, MARKS) && Depends(parent + ['.'] + name, variable)
    ensures Depends(parent, variable)
  {
    var text := parent + ['.'] + name;
    MarkedApart(parent, '.', name, variable, '.');
    if HasPrefix(text, variable + ['.']) {
      PrefixDepends(parent, '.', name, variable, '.');
    } else if HasPrefix(text, variable + ['[']) {
      PrefixDepends(parent, '.', name, variable, '[');
    } else {
      var i :| 0 <= i <= |text| && PartAt(text, ['['] + variable + [']'], i);
      PartInParent(parent, name, variable, i);
    }
  }

  lemma PartInParent(parent: string, name: string, variable: string, i: nat)
    requires Unmarked(name, MARKS) && PartAt(parent + ['.'] + name, ['['] + variable + [']'], i)
    ensures Contains(parent, ['['] + variable + [']'])
  {
    var text, part := parent + ['.'] + name, ['['] + variable + [']'];
    var end := i + |part| - 1;
    forall k | |parent| < k < |text| ensures text[k] !in MARKS {
      assert text[k] == name[k - |parent| - 1];
    }
    assert text[end] == text[i..i + |part|][|part| - 1] == ']';
    assert end < |parent|;
    assert parent[i..i + |part|] == text[i..i + |part|];
    assert PartAt(parent, part, i);
  }

  lemma ElementDepends(parent: string, key: string, variable: string)
    requires NameRight(variable) && Unmarked(key, MARKS) && Depends(parent + ['['] + (key + [']']), variable)
    ensures Depends(parent, variable) || key == variable
  {
    var text := parent + ['['] + (key + [']']);
    MarkedApart(parent, '[', key + [']'], variable, '.');
    if HasPrefix(text, variable + ['.']) {
      PrefixDepends(parent, '[', key + [']'], variable, '.');
    } else if HasPrefix(text, variable + ['[']) {
      PrefixDepends(parent, '[', key + [']'], variable, '[');
    } else {
      var i :| 0 <= i <= |text| && PartAt(text, ['['] + variable + [']'], i);
      PartAtKey(parent, key, variable, i);
    }
  }

  lemma PartAtKey(parent: string, key: string, variable: string, i: nat)
    requires Unmarked(variable, MARKS) && Unmarked(key, MARKS)
    requires PartAt(parent + ['['] + (key + [']']), ['['] + variable + [']'], i)
    ensures Contains(parent, ['['] + variable + [']']) || key == variable
  {
    var text, part := parent + ['['] + (key + [']']), ['['] + variable + [']'];
    var end := i + |part| - 1;
    assert forall k :: 0 <= k < |part| ==> text[i + k] == text[i..i + |part|][k] == part[k];
    assert text[i] == part[0] && text[end] == part[|part| - 1];
    if end < |parent| {
      assert parent[i..i + |part|] == text[i..i + |part|];
      assert PartAt(parent, part, i);
    } else {
      KeySpan(parent, key, variable, i);
      assert key == text[|parent| + 1..|text| - 1];
      assert variable == text[i..i + |part|][1..|part| - 1];
    }
  }

  /** Inside the brackets of the key there is no mark, so that a bracketed name fills them. */
  lemma KeySpan(parent: string, key: string, variable: string, i: nat)
    requires Unmarked(variable, MARKS) && Unmarked(key, MARKS)
    requires PartAt(parent + ['['] + (key + [']']), ['['] + variable + [']'], i) && |parent| <= i + |variable| + 1
    ensures i == |parent| && |variable| == |key|
  {
    var text, part := parent + ['['] + (key + [']']), ['['] + variable + [']'];
    var end := i + |part| - 1;
    forall k | i < k < end ensures text[k] !in MARKS {
      assert text[k] == text[i..i + |part|][k - i] == variable[k - i - 1];
    }
    forall k | |parent| < k < |text| - 1 ensures text[k] !in MARKS {
      assert text[k] == key[k - |parent| - 1];
    }
    assert text[i] == text[i..i + |part|][0] == '[';
    assert text[end] == text[i..i + |part|][|part| - 1] == ']';
    assert text[|parent|] == '[';
  }

  /** An assignment invalidates exactly the facts that it can make wrong. */
  lemma InvalidatedExactly(p: Path, variable: string)
    requires PathRight(p) && NameRight(variable)
    ensures Depends(FactName(p), variable) <==>
            exists s, v :: PathValue(s, p) != Nil && PathValue(Assigned(s, variable, v), p) == Nil
  {
    hide Depends, PathRight, NameRight, NilSpreads;
    if Depends(FactName(p), variable) {
      DependsMentions(p, variable);
      SpreadsTo(p, variable);
      assert PathValue(Assigned(NilSpreads(), variable, Nil), p) == Nil;
    }
    if s, v :| PathValue(s, p) != Nil && PathValue(Assigned(s, variable, v), p) == Nil {
      if !Mentions(p, variable) {
        Untouched(s, variable, v, p);
      }
      MentionsDepends(p, variable);
    }
  }
}
