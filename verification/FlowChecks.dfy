/** How the type checker walks statements with nil facts, and what its answers are worth at run time.

    Branches push, cut, replace and append facts.  The answers are right in every run as long as an
    `if` without `else` and a loop leave no new facts behind; that this is not always so is shown by
    three programs, and when the facts after a skipped branch are right is stated exactly.
 */
module FlowChecks {
  import opened Wrappers
  import opened Runtime
  import opened FlowFacts

  /** A statement, as far as nil facts are concerned. */
  datatype Stmt =
    | Ask(factName: string)                                       // a variable, field or element is read
    | Assign(variable: string, source: Store -> Value)
    | Disturb(after: Store -> Store)                              // a call or a heap write: every fact is invalidated
    | Leave                                                       // `return`
    | Block(body: Stmts)
    | If(condition: Condition, thenBranch: Stmt, elseBranch: Option<Stmt>)
    | ForIn(variable: string, turns: Store -> nat, item: (Store, nat) -> Value, body: Stmts)
    | Apart(body: Stmts, at: Store -> Store)                      // a function body, run at some other time

  datatype Stmts = Nothing | Then(head: Stmt, tail: Stmts)

  /** What the checker knows about types: the targets of nullable type, and which types agree. */
  datatype Types = Types(resolve: Resolver, agree: (string, string) -> bool)

  ghost predicate TypesRight(types: Types) {
    ResolverRight(types.resolve)
  }

  // ------------------------------------------------------------------------------ runs

  function Asks(e: Stmt): nat
    decreases e
  {
    match e
    case Ask(_) => 1
    case Block(body) => AsksAll(body)
    case If(_, t, f) => Asks(t) + (if f.Some? then Asks(f.value) else 0)
    case ForIn(_, _, _, body) => AsksAll(body)
    case Apart(body, _) => AsksAll(body)
    case _ => 0
  }

  function AsksAll(es: Stmts): nat
    decreases es
  {
    match es case Nothing => 0 case Then(e, rest) => Asks(e) + AsksAll(rest)
  }

  /** A name is read: the how manieth question of the program text, and the store at that time. */
  datatype Question = Question(index: nat, factName: string, store: Store)

  /** The questions of a run, and the store in which it goes on, if it does. */
  datatype Trace = Trace(asked: seq<Question>, end: Option<Store>)

  ghost function Run(e: Stmt, s: Store, base: nat): Trace
    decreases e, 0, 0
  {
    match e
    case Ask(name) => Trace([Question(base, name, s)], Some(s))
    case Assign(variable, source) => Trace([], Some(Assigned(s, variable, source(s))))
    case Disturb(after) => Trace([], Some(after(s)))
    case Leave => Trace([], None)
    case Block(body) => RunAll(body, s, base)
    case If(c, t, f) =>
      if Truthy(Evaluate(s, c)) then Run(t, s, base)
      else if f.Some? then Run(f.value, s, base + Asks(t))
      else Trace([], Some(s))
    case ForIn(variable, turns, item, body) => Turns(variable, item, body, s, 0, turns(s), base)
    case Apart(body, at) => Trace(RunAll(body, at(s), base).asked, Some(s))
  }

  ghost function RunAll(es: Stmts, s: Store, base: nat): Trace
    decreases es, 0, 0
  {
    match es
    case Nothing => Trace([], Some(s))
    case Then(e, rest) => Followed(Run(e, s, base), rest, base + Asks(e))
  }

  /** A trace continued with statements. */
  ghost function Followed(t: Trace, rest: Stmts, base: nat): Trace
    decreases rest, 1, 0
  {
    if t.end.None? then t
    else
      var more := RunAll(rest, t.end.value, base);
      Trace(t.asked + more.asked, more.end)
  }

  /** The turns of a loop from number `k` on. */
  ghost function Turns(
    variable: string, item: (Store, nat) -> Value, body: Stmts, s: Store, k: nat, turns: nat, base: nat
  ): Trace
    decreases body, 1, turns - k
  {
    if k >= turns then Trace([], Some(s))
    else
      var t := RunAll(body, Assigned(s, variable, item(s, k)), base);
      if t.end.None? then t
      else
        var more := Turns(variable, item, body, t.end.value, k + 1, turns, base);
        Trace(t.asked + more.asked, more.end)
  }

  // ------------------------------------------------------------------------------ checks

  predicate BodyMayFallThrough(body: Stmts)
    decreases body
  {
    match body
    case Nothing => true
    case Then(last, Nothing) => MayFallThrough(last)
    case Then(_, rest) => BodyMayFallThrough(rest)
  }

  predicate MayFallThrough(e: Stmt)
    decreases e
  {
    match e
    case Leave => false
    case Block(body) => BodyMayFallThrough(body)
    case _ => true
  }

  datatype Checked = Checked(answers: seq<Option<string>>, facts: seq<ActiveFact>)

  predicate Matches(n: Narrowing, other: Narrowing, types: Types) {
    && n.resolvedName == other.resolvedName
    && types.agree(n.narrowedType, other.narrowedType) && types.agree(other.narrowedType, n.narrowedType)
  }

  predicate HasMatch(ns: seq<Narrowing>, n: Narrowing, types: Types) {
    exists k :: 0 <= k < |ns| && Matches(n, ns[k], types)
  }

  predicate HasName(ns: seq<Narrowing>, name: string) {
    exists k :: 0 <= k < |ns| && ns[k].resolvedName == name
  }

  /** The facts that both branches end with, each name once. */
  function Joined(thens: seq<Narrowing>, elses: seq<Narrowing>, types: Types): seq<Narrowing> {
    if thens == [] then []
    else
      var last := |thens| - 1;
      var before := Joined(thens[..last], elses, types);
      if HasMatch(elses, thens[last], types) && !HasName(before, thens[last].resolvedName) then before + [thens[last]]
      else before
  }

  /** The facts after an `if` with `else`. */
  function AfterBoth(
    facts: seq<ActiveFact>, t: Stmt, thens: seq<Narrowing>, f: Stmt, elses: seq<Narrowing>, types: Types
  ): seq<ActiveFact> {
    if MayFallThrough(t) then
      if MayFallThrough(f) then Pushed([], Joined(thens, elses, types)) else Pushed([], thens)
    else if MayFallThrough(f) then Pushed([], elses)
    else facts
  }

  /** The facts with which a branch is checked that is taken apart from the others. */
  function ApartFacts(facts: seq<ActiveFact>, ns: seq<Narrowing>): seq<ActiveFact> {
    Pushed([], Active(facts) + ns)
  }

  function Check(e: Stmt, facts: seq<ActiveFact>, types: Types): Checked
    decreases e, 1
  {
    match e
    case Ask(name) => Checked([NarrowedType(facts, name)], facts)
    case Assign(variable, _) => Checked([], Invalidated(facts, variable))
    case Disturb(_) => Checked([], AllInvalidated(facts))
    case Leave => Checked([], facts)
    case Block(body) => CheckAll(body, facts, types)
    case ForIn(_, _, _, body) => Checked(CheckAll(body, facts, types).answers, AllInvalidated(facts))
    case Apart(body, _) => Checked(CheckAll(body, [], types).answers, facts)
    case If(_, _, f) => if f.Some? then CheckBoth(e, facts, types) else CheckOne(e, facts, types)
  }

  /** `if` without `else`: a branch that leaves gives the facts of a false condition to what follows. */
  function CheckOne(e: Stmt, facts: seq<ActiveFact>, types: Types): Checked
    requires e.If?
    decreases e, 0
  {
    var branch := FactsFor(e.condition, types.resolve);
    if !MayFallThrough(e.thenBranch) then
      var r := Check(e.thenBranch, ApartFacts(facts, branch.thenNarrowings), types);
      Checked(r.answers, Pushed(facts, branch.elseNarrowings))
    else if branch.thenNarrowings == [] then Check(e.thenBranch, facts, types)
    else
      var r := Check(e.thenBranch, Pushed(facts, branch.thenNarrowings), types);
      Checked(r.answers, Resized(r.facts, |facts|))
  }

  function CheckBoth(e: Stmt, facts: seq<ActiveFact>, types: Types): Checked
    requires e.If? && e.elseBranch.Some?
    decreases e, 0
  {
    var t, f := e.thenBranch, e.elseBranch.value;
    var branch := FactsFor(e.condition, types.resolve);
    var a := Check(t, ApartFacts(facts, branch.thenNarrowings), types);
    var b := Check(f, ApartFacts(facts, branch.elseNarrowings), types);
    Checked(a.answers + b.answers, AfterBoth(facts, t, Active(a.facts), f, Active(b.facts), types))
  }

  function CheckAll(es: Stmts, facts: seq<ActiveFact>, types: Types): Checked
    decreases es, 0
  {
    match es
    case Nothing => Checked([], facts)
    case Then(e, rest) =>
      var r := Check(e, facts, types);
      var more := CheckAll(rest, r.facts, types);
      Checked(r.answers + more.answers, more.facts)
  }

  // ------------------------------------------------------------------------ the checker

  class TypeChecker {
    const flowFacts: FlowFacts

    constructor ()
      ensures fresh(flowFacts) && flowFacts.activeNarrowings == []
    {
      flowFacts := new FlowFacts();
    }

    method CheckStatement(e: Stmt, types: Types) returns (answers: seq<Option<string>>)
      modifies flowFacts
      ensures Checked(answers, flowFacts.activeNarrowings) == Check(e, old(flowFacts.activeNarrowings), types)
      decreases e, 3
    {
      hide CheckOne, CheckBoth;
      answers := [];
      match e {
        case Ask(name) =>
          var r := flowFacts.NarrowedTypeFor(name);
          answers := [r];
        case Assign(variable, _) => flowFacts.Invalidate(variable);
        case Disturb(_) => flowFacts.InvalidateAll();
        case Leave =>
        case Block(body) => answers := CheckStatementList(body, types);
        case ForIn(_, _, _, body) => answers := WithLoopBody(body, types);
        case Apart(body, _) => answers := WithoutNarrowings(body, types);
        case If(c, t, f) =>
          if f.Some? {
            answers := CheckBothBranches(e, types);
          } else {
            answers := CheckOneBranch(e, types);
          }
      }
    }

    method CheckStatementList(es: Stmts, types: Types) returns (answers: seq<Option<string>>)
      modifies flowFacts
      ensures Checked(answers, flowFacts.activeNarrowings) == CheckAll(es, old(flowFacts.activeNarrowings), types)
      decreases es, 0
    {
      match es
      case Nothing => answers := [];
      case Then(e, rest) =>
        answers := CheckStatement(e, types);
        var more := CheckStatementList(rest, types);
        answers := answers + more;
    }

    method CheckOneBranch(e: Stmt, types: Types) returns (answers: seq<Option<string>>)
      requires e.If?
      modifies flowFacts
      ensures Checked(answers, flowFacts.activeNarrowings) == CheckOne(e, old(flowFacts.activeNarrowings), types)
      decreases e, 2
    {
      hide Check, FactsFor, MayFallThrough;
      var branch := FactsFor(e.condition, types.resolve);
      if !MayFallThrough(e.thenBranch) {
        var baseFacts := flowFacts.ActiveNarrowings();
        var result;
        answers, result := CheckApart(baseFacts + branch.thenNarrowings, e.thenBranch, types);
        flowFacts.AppendNarrowings(branch.elseNarrowings);
      } else {
        answers := WithNarrowings(branch.thenNarrowings, e.thenBranch, types);
      }
    }

    method CheckBothBranches(e: Stmt, types: Types) returns (answers: seq<Option<string>>)
      requires e.If? && e.elseBranch.Some?
      modifies flowFacts
      ensures Checked(answers, flowFacts.activeNarrowings) == CheckBoth(e, old(flowFacts.activeNarrowings), types)
      decreases e, 2
    {
      hide Check, FactsFor, MayFallThrough, Joined, Active;
      var t, f := e.thenBranch, e.elseBranch.value;
      var branch := FactsFor(e.condition, types.resolve);
      var baseFacts := flowFacts.ActiveNarrowings();
      var thenResult, elseResult, more;
      answers, thenResult := CheckApart(baseFacts + branch.thenNarrowings, t, types);
      more, elseResult := CheckApart(baseFacts + branch.elseNarrowings, f, types);
      answers := answers + more;
      if MayFallThrough(t) {
        if MayFallThrough(f) {
          var joinedFacts := JoinFacts(thenResult, elseResult, types);
          flowFacts.Clear();
          flowFacts.AppendNarrowings(joinedFacts);
        } else {
          flowFacts.Clear();
          flowFacts.AppendNarrowings(thenResult);
        }
      } else if MayFallThrough(f) {
        flowFacts.Clear();
        flowFacts.AppendNarrowings(elseResult);
      }
    }

    /** `withNarrowings`: without facts to push, what the body appends stays; otherwise the stack is
        brought back to its size. */
    method WithNarrowings(ns: seq<Narrowing>, t: Stmt, types: Types) returns (answers: seq<Option<string>>)
      modifies flowFacts
      ensures
        ns == [] ==>
          Checked(answers, flowFacts.activeNarrowings) == Check(t, old(flowFacts.activeNarrowings), types)
      ensures
        ns != [] ==>
          var r := Check(t, Pushed(old(flowFacts.activeNarrowings), ns), types);
          answers == r.answers && flowFacts.activeNarrowings == Resized(r.facts, |old(flowFacts.activeNarrowings)|)
      decreases t, 4
    {
      hide Check;
      if ns == [] {
        answers := CheckStatement(t, types);
        return;
      }
      var savedSize := |flowFacts.activeNarrowings|;
      flowFacts.AppendNarrowings(ns);
      answers := CheckStatement(t, types);
      flowFacts.activeNarrowings := Resized(flowFacts.activeNarrowings, savedSize);
    }

    /** `withNarrowings` inside `withoutNarrowings`, with the facts that the branch ends with. */
    method CheckApart(ns: seq<Narrowing>, t: Stmt, types: Types)
      returns (answers: seq<Option<string>>, result: seq<Narrowing>)
      modifies flowFacts
      ensures flowFacts.activeNarrowings == old(flowFacts.activeNarrowings)
      ensures
        var r := Check(t, Pushed([], ns), types);
        answers == r.answers && result == Active(r.facts)
      decreases t, 4
    {
      var savedNarrowings := flowFacts.activeNarrowings;
      flowFacts.Clear();
      flowFacts.AppendNarrowings(ns);
      answers := CheckStatement(t, types);
      result := flowFacts.ActiveNarrowings();
      flowFacts.activeNarrowings := savedNarrowings;
    }

    /** A function body is checked without the facts around it, which come back afterwards. */
    method WithoutNarrowings(body: Stmts, types: Types) returns (answers: seq<Option<string>>)
      modifies flowFacts
      ensures flowFacts.activeNarrowings == old(flowFacts.activeNarrowings)
      ensures answers == CheckAll(body, [], types).answers
      decreases body, 4
    {
      var savedNarrowings := flowFacts.activeNarrowings;
      flowFacts.Clear();
      answers := CheckStatementList(body, types);
      flowFacts.activeNarrowings := savedNarrowings;
    }

    /** A loop body is checked once, with the facts around it; afterwards they are all invalidated. */
    method WithLoopBody(body: Stmts, types: Types) returns (answers: seq<Option<string>>)
      modifies flowFacts
      ensures flowFacts.activeNarrowings == AllInvalidated(old(flowFacts.activeNarrowings))
      ensures answers == CheckAll(body, old(flowFacts.activeNarrowings), types).answers
      decreases body, 4
    {
      var savedNarrowings := flowFacts.activeNarrowings;
      answers := CheckStatementList(body, types);
      flowFacts.activeNarrowings := savedNarrowings;
      flowFacts.InvalidateAll();
    }
  }

  method JoinFacts(thens: seq<Narrowing>, elses: seq<Narrowing>, types: Types) returns (joined: seq<Narrowing>)
    ensures joined == Joined(thens, elses, types)
  {
    joined := [];
    for i := 0 to |thens|
      invariant joined == Joined(thens[..i], elses, types)
    {
      var candidate := thens[i];
      assert thens[..i + 1][..i] == thens[..i];
      var matching := false;
      for k := 0 to |elses|
        invariant matching == exists j :: 0 <= j < k && Matches(candidate, elses[j], types)
      {
        if Matches(candidate, elses[k], types) {
          matching := true;
        }
      }
      if matching {
        var alreadyJoined := false;
        for k := 0 to |joined|
          invariant alreadyJoined == exists j :: 0 <= j < k && joined[j].resolvedName == candidate.resolvedName
        {
          if joined[k].resolvedName == candidate.resolvedName {
            alreadyJoined := true;
          }
        }
        if !alreadyJoined {
          joined := joined + [candidate];
        }
      }
    }
    assert thens[..|thens|] == thens;
  }

  // -------------------------------------------------------------------------- soundness

  /** Conditions spell nil as `nil`. */
  predicate ConditionsRight(e: Stmt)
    decreases e
  {
    match e
    case Block(body) => AllConditionsRight(body)
    case If(c, t, f) => LiteralsRight(c) && ConditionsRight(t) && (f.Some? ==> ConditionsRight(f.value))
    case ForIn(_, _, _, body) => AllConditionsRight(body)
    case Apart(body, _) => AllConditionsRight(body)
    case _ => true
  }

  predicate AllConditionsRight(es: Stmts)
    decreases es
  {
    match es case Nothing => true case Then(e, rest) => ConditionsRight(e) && AllConditionsRight(rest)
  }

  /** No live fact mentions the variable. */
  predicate Fresh(facts: seq<ActiveFact>, variable: string) {
    forall i :: 0 <= i < |facts| && facts[i].narrowedType.Some? ==> !Depends(facts[i].resolvedName, variable)
  }

  /** Where the checker walks, an `if` without `else` whose branch falls through leaves no live fact that
      was not live before, a loop body loses none, and loop variables are new. */
  predicate Tight(e: Stmt, facts: seq<ActiveFact>, types: Types)
    decreases e
  {
    match e
    case Block(body) => TightAll(body, facts, types)
    case ForIn(variable, _, _, body) =>
      && TightAll(body, facts, types) && Within(facts, CheckAll(body, facts, types).facts) && Fresh(facts, variable)
    case Apart(body, _) => TightAll(body, [], types)
    case If(c, t, f) =>
      var branch := FactsFor(c, types.resolve);
      if f.Some? then
        && Tight(t, ApartFacts(facts, branch.thenNarrowings), types)
        && Tight(f.value, ApartFacts(facts, branch.elseNarrowings), types)
      else if !MayFallThrough(t) then Tight(t, ApartFacts(facts, branch.thenNarrowings), types)
      else Tight(t, Pushed(facts, branch.thenNarrowings), types) && Within(CheckOne(e, facts, types).facts, facts)
    case _ => true
  }

  predicate TightAll(es: Stmts, facts: seq<ActiveFact>, types: Types)
    decreases es
  {
    match es
    case Nothing => true
    case Then(e, rest) => Tight(e, facts, types) && TightAll(rest, Check(e, facts, types).facts, types)
  }

  /** Every type that is given in answer belongs to a value that is not nil when the run reads it. */
  ghost predicate AnswersRight(answers: seq<Option<string>>, asked: seq<Question>, base: nat) {
    forall k :: 0 <= k < |asked| ==> AnswerRight(answers, asked[k], base)
  }

  ghost predicate AnswerRight(answers: seq<Option<string>>, q: Question, base: nat) {
    && base <= q.index < base + |answers|
    && (answers[q.index - base].Some? ==> NonNil(q.store, q.factName))
  }

  /** The answers are right in this run, and so are the facts that it goes on with. */
  ghost predicate Fits(t: Trace, r: Checked, base: nat) {
    AnswersRight(r.answers, t.asked, base) && (t.end.Some? ==> AllTrue(t.end.value, r.facts))
  }

  lemma {:induction false} LeavesEnd(e: Stmt, s: Store, base: nat)
    requires !MayFallThrough(e)
    ensures Run(e, s, base).end == None
    decreases e
  {
    if e.Block? {
      BodyLeavesEnd(e.body, s, base);
    }
  }

  lemma {:induction false} BodyLeavesEnd(es: Stmts, s: Store, base: nat)
    requires !BodyMayFallThrough(es)
    ensures RunAll(es, s, base).end == None
    decreases es
  {
    var t := Run(es.head, s, base);
    if es.tail.Nothing? {
      LeavesEnd(es.head, s, base);
    } else if t.end.Some? {
      BodyLeavesEnd(es.tail, t.end.value, base + Asks(es.head));
    }
  }

  lemma {:induction false} CheckCounts(e: Stmt, facts: seq<ActiveFact>, types: Types)
    ensures |Check(e, facts, types).answers| == Asks(e)
    decreases e, 1
  {
    hide CheckOne, CheckBoth, Invalidated, AllInvalidated, NarrowedType;
    match e
    case Block(body) => CheckAllCounts(body, facts, types);
    case ForIn(_, _, _, body) => CheckAllCounts(body, facts, types);
    case Apart(body, _) => CheckAllCounts(body, [], types);
    case If(_, _, f) => BranchCounts(e, facts, types);
    case _ =>
  }

  lemma {:induction false} BranchCounts(e: Stmt, facts: seq<ActiveFact>, types: Types)
    requires e.If?
    ensures e.elseBranch.None? ==> |CheckOne(e, facts, types).answers| == Asks(e)
    ensures e.elseBranch.Some? ==> |CheckBoth(e, facts, types).answers| == Asks(e)
    decreases e, 0
  {
    hide Check, FactsFor, MayFallThrough, ApartFacts, Pushed, Resized, AfterBoth;
    var t, f, branch := e.thenBranch, e.elseBranch, FactsFor(e.condition, types.resolve);
    CheckCounts(t, ApartFacts(facts, branch.thenNarrowings), types);
    CheckCounts(t, facts, types);
    CheckCounts(t, Pushed(facts, branch.thenNarrowings), types);
    if f.Some? {
      CheckCounts(f.value, ApartFacts(facts, branch.elseNarrowings), types);
    }
  }

  lemma {:induction false} CheckAllCounts(es: Stmts, facts: seq<ActiveFact>, types: Types)
    ensures |CheckAll(es, facts, types).answers| == AsksAll(es)
    decreases es
  {
    match es
    case Nothing =>
    case Then(e, rest) =>
      CheckCounts(e, facts, types);
      CheckAllCounts(rest, Check(e, facts, types).facts, types);
  }

  lemma RightFirst(a: seq<Option<string>>, more: seq<Option<string>>, asked: seq<Question>, base: nat)
    requires AnswersRight(a, asked, base)
    ensures AnswersRight(a + more, asked, base)
  {
    hide NonNil;
    forall k | 0 <= k < |asked| ensures AnswerRight(a + more, asked[k], base) {
      assert AnswerRight(a, asked[k], base);
    }
  }

  lemma RightSecond(before: seq<Option<string>>, a: seq<Option<string>>, asked: seq<Question>, base: nat)
    requires AnswersRight(a, asked, base + |before|)
    ensures AnswersRight(before + a, asked, base)
  {
    hide NonNil;
    forall k | 0 <= k < |asked| ensures AnswerRight(before + a, asked[k], base) {
      assert AnswerRight(a, asked[k], base + |before|);
    }
  }

  lemma RightJoin(answers: seq<Option<string>>, x: seq<Question>, y: seq<Question>, base: nat)
    requires AnswersRight(answers, x, base) && AnswersRight(answers, y, base)
    ensures AnswersRight(answers, x + y, base)
  {
    hide AnswerRight;
    forall k | 0 <= k < |x + y| ensures AnswerRight(answers, (x + y)[k], base) {
      if k < |x| {
        assert (x + y)[k] == x[k];
      } else {
        assert (x + y)[k] == y[k - |x|];
      }
    }
  }

  lemma NothingAsked(answers: seq<Option<string>>, base: nat)
    ensures AnswersRight(answers, [], base)
  {
  }

  lemma ApartTrue(s: Store, facts: seq<ActiveFact>, ns: seq<Narrowing>)
    requires AllTrue(s, facts) && AllNonNil(s, ns)
    ensures AllTrue(s, ApartFacts(facts, ns))
  {
    hide NonNil;
    ActiveNonNil(s, facts);
    assert AllNonNil(s, Active(facts) + ns);
    assert AllTrue(s, []);
    PushedTrue(s, [], Active(facts) + ns);
  }

  lemma ActiveTrue(s: Store, facts: seq<ActiveFact>)
    requires AllTrue(s, facts)
    ensures AllTrue(s, Pushed([], Active(facts)))
  {
    hide NonNil;
    ActiveNonNil(s, facts);
    assert AllTrue(s, []);
    PushedTrue(s, [], Active(facts));
  }

  /** Joined facts are facts of both branches. */
  lemma {:induction false} JoinedFrom(s: Store, thens: seq<Narrowing>, elses: seq<Narrowing>, types: Types)
    requires AllNonNil(s, thens) || AllNonNil(s, elses)
    ensures AllNonNil(s, Joined(thens, elses, types))
  {
    hide NonNil;
    if thens != [] {
      var last := |thens| - 1;
      var c := thens[last];
      JoinedFrom(s, thens[..last], elses, types);
      if HasMatch(elses, c, types) {
        var k :| 0 <= k < |elses| && Matches(c, elses[k], types);
        assert NonNil(s, c.resolvedName) by {
          assert c in thens && elses[k] in elses;
        }
      }
    }
  }

  lemma JoinedTrue(s: Store, a: seq<ActiveFact>, b: seq<ActiveFact>, types: Types)
    requires AllTrue(s, a) || AllTrue(s, b)
    ensures AllTrue(s, Pushed([], Joined(Active(a), Active(b), types)))
  {
    hide NonNil;
    if AllTrue(s, a) {
      ActiveNonNil(s, a);
    } else {
      ActiveNonNil(s, b);
    }
    JoinedFrom(s, Active(a), Active(b), types);
    assert AllTrue(s, []);
    PushedTrue(s, [], Joined(Active(a), Active(b), types));
  }

  /** The answers of the checker are right in every run. */
  lemma {:induction false} CheckSound(e: Stmt, facts: seq<ActiveFact>, types: Types, s: Store, base: nat)
    requires TypesRight(types) && ConditionsRight(e) && Tight(e, facts, types) && AllTrue(s, facts)
    ensures Fits(Run(e, s, base), Check(e, facts, types), base)
    decreases e, 2
  {
    hide AllTrue, NonNil, Within, CheckOne, CheckBoth, Fresh, AnswersRight, Depends, Fits;
    match e
    case Ask(name) => AskSound(name, facts, types, s, base);
    case Assign(variable, source) =>
      StillTrue(s, variable, source(s), facts);
      SilentFits(Run(e, s, base), Check(e, facts, types), base);
    case Disturb(after) =>
      NoneLeft(after(s), facts);
      SilentFits(Run(e, s, base), Check(e, facts, types), base);
    case Leave => SilentFits(Run(e, s, base), Check(e, facts, types), base);
    case Block(body) => CheckAllSound(body, facts, types, s, base);
    case ForIn(variable, turns, item, body) =>
      TurnsSound(variable, item, body, facts, types, s, 0, turns(s), base);
    case Apart(body, at) =>
      NoFacts(at(s));
      CheckAllSound(body, [], types, at(s), base);
      ApartFits(RunAll(body, at(s), base), CheckAll(body, [], types), facts, s, base);
    case If(_, _, f) =>
      if f.Some? {
        BothSound(e, facts, types, s, base);
      } else {
        OneSound(e, facts, types, s, base);
      }
  }

  lemma AskSound(name: string, facts: seq<ActiveFact>, types: Types, s: Store, base: nat)
    requires AllTrue(s, facts)
    ensures Fits(Run(Ask(name), s, base), Check(Ask(name), facts, types), base)
  {
    hide NonNil;
    if NarrowedType(facts, name).Some? {
      NarrowedLive(facts, name);
      LiveTrue(s, facts);
    }
  }

  lemma SilentFits(t: Trace, r: Checked, base: nat)
    requires t.asked == [] && (t.end.Some? ==> AllTrue(t.end.value, r.facts))
    ensures Fits(t, r, base)
  {
    hide AllTrue;
  }

  lemma NoFacts(s: Store)
    ensures AllTrue(s, [])
  {
  }

  lemma ApartFits(t: Trace, r: Checked, facts: seq<ActiveFact>, s: Store, base: nat)
    requires Fits(t, r, base) && AllTrue(s, facts)
    ensures Fits(Trace(t.asked, Some(s)), Checked(r.answers, facts), base)
  {
    hide AllTrue, AnswersRight;
  }

  lemma {:induction false} CheckAllSound(es: Stmts, facts: seq<ActiveFact>, types: Types, s: Store, base: nat)
    requires TypesRight(types) && AllConditionsRight(es) && TightAll(es, facts, types) && AllTrue(s, facts)
    ensures Fits(RunAll(es, s, base), CheckAll(es, facts, types), base)
    decreases es, 0
  {
    hide AllTrue, NonNil, AnswersRight, Run, Check, Tight, ConditionsRight;
    match es
    case Nothing => NothingAsked([], base);
    case Then(e, rest) =>
      var t, r := Run(e, s, base), Check(e, facts, types);
      CheckSound(e, facts, types, s, base);
      CheckCounts(e, facts, types);
      if t.end.None? {
        RightFirst(r.answers, CheckAll(rest, r.facts, types).answers, t.asked, base);
      } else {
        CheckAllSound(rest, r.facts, types, t.end.value, base + Asks(e));
        JoinFits(t, r, RunAll(rest, t.end.value, base + Asks(e)), CheckAll(rest, r.facts, types), base);
      }
  }

  lemma JoinFits(t: Trace, r: Checked, t': Trace, r': Checked, base: nat)
    requires Fits(t, r, base) && Fits(t', r', base + |r.answers|)
    ensures Fits(Trace(t.asked + t'.asked, t'.end), Checked(r.answers + r'.answers, r'.facts), base)
  {
    hide AllTrue, AnswersRight;
    RightFirst(r.answers, r'.answers, t.asked, base);
    RightSecond(r.answers, r'.answers, t'.asked, base);
    RightJoin(r.answers + r'.answers, t.asked, t'.asked, base);
  }

  /** Every turn starts with the facts with which the body was checked. */
  lemma {:induction false} TurnsSound(
    variable: string, item: (Store, nat) -> Value, body: Stmts, facts: seq<ActiveFact>, types: Types, s: Store, k: nat,
    turns: nat, base: nat
  )
    requires TypesRight(types) && AllConditionsRight(body) && TightAll(body, facts, types)
    requires Within(facts, CheckAll(body, facts, types).facts) && Fresh(facts, variable) && AllTrue(s, facts)
    ensures
      Fits(Turns(variable, item, body, s, k, turns, base),
        Checked(CheckAll(body, facts, types).answers, AllInvalidated(facts)), base)
    decreases body, 1, turns - k
  {
    hide AllTrue, NonNil, AnswersRight, Within, Fresh, RunAll, CheckAll, TightAll, AllConditionsRight;
    var r := CheckAll(body, facts, types);
    if k >= turns {
      NothingAsked(r.answers, base);
      NoneLeft(s, facts);
    } else {
      var s1 := Assigned(s, variable, item(s, k));
      NewItem(s, variable, item(s, k), facts);
      CheckAllSound(body, facts, types, s1, base);
      var t := RunAll(body, s1, base);
      if t.end.Some? {
        WithinTrue(t.end.value, facts, r.facts);
        TurnsSound(variable, item, body, facts, types, t.end.value, k + 1, turns, base);
        RightJoin(r.answers, t.asked, Turns(variable, item, body, t.end.value, k + 1, turns, base).asked, base);
      }
    }
  }

  lemma NewItem(s: Store, variable: string, v: Value, facts: seq<ActiveFact>)
    requires AllTrue(s, facts) && Fresh(facts, variable)
    ensures AllTrue(Assigned(s, variable, v), facts)
  {
    hide AllTrue, Depends;
    FreshKeeps(s, variable, v, facts);
  }

  /** `if` without `else`. */
  lemma {:induction false} OneSound(e: Stmt, facts: seq<ActiveFact>, types: Types, s: Store, base: nat)
    requires e.If? && e.elseBranch.None?
    requires TypesRight(types) && ConditionsRight(e) && Tight(e, facts, types) && AllTrue(s, facts)
    ensures Fits(Run(e, s, base), CheckOne(e, facts, types), base)
    decreases e, 1
  {
    hide AllTrue, AllNonNil, NonNil, AnswersRight, Within, FactsFor, Evaluate, Check, MayFallThrough;
    var c, t := e.condition, e.thenBranch;
    var branch := FactsFor(c, types.resolve);
    FactsSound(s, c, types.resolve);
    if Truthy(Evaluate(s, c)) {
      if !MayFallThrough(t) {
        ApartTrue(s, facts, branch.thenNarrowings);
        CheckSound(t, ApartFacts(facts, branch.thenNarrowings), types, s, base);
        LeavesEnd(t, s, base);
      } else {
        PushedTrue(s, facts, branch.thenNarrowings);
        CheckSound(t, Pushed(facts, branch.thenNarrowings), types, s, base);
        PushedNone(facts, branch.thenNarrowings);
        CutFits(Run(t, s, base), Check(t, Pushed(facts, branch.thenNarrowings), types), |facts|, base);
      }
    } else {
      NothingAsked(CheckOne(e, facts, types).answers, base);
      if !MayFallThrough(t) {
        PushedTrue(s, facts, branch.elseNarrowings);
      } else {
        WithinTrue(s, CheckOne(e, facts, types).facts, facts);
      }
    }
  }

  lemma PushedNone(facts: seq<ActiveFact>, ns: seq<Narrowing>)
    ensures ns == [] ==> Pushed(facts, ns) == facts
  {
  }

  lemma CutFits(t: Trace, r: Checked, size: nat, base: nat)
    requires Fits(t, r, base)
    ensures Fits(t, Checked(r.answers, Resized(r.facts, size)), base)
  {
    hide AllTrue, AnswersRight, Resized;
    if t.end.Some? {
      ResizedTrue(t.end.value, r.facts, size);
    }
  }

  /** `if` with `else`. */
  lemma {:induction false} BothSound(e: Stmt, facts: seq<ActiveFact>, types: Types, s: Store, base: nat)
    requires e.If? && e.elseBranch.Some?
    requires TypesRight(types) && ConditionsRight(e) && Tight(e, facts, types) && AllTrue(s, facts)
    ensures Fits(Run(e, s, base), CheckBoth(e, facts, types), base)
    decreases e, 1
  {
    hide AllTrue, AllNonNil, NonNil, AnswersRight, FactsFor, Evaluate, Check, MayFallThrough, Active, Joined, Run;
    var t, f := e.thenBranch, e.elseBranch.value;
    var branch := FactsFor(e.condition, types.resolve);
    var a := Check(t, ApartFacts(facts, branch.thenNarrowings), types);
    var b := Check(f, ApartFacts(facts, branch.elseNarrowings), types);
    RunIf(e, s, base);
    FactsSound(s, e.condition, types.resolve);
    if Truthy(Evaluate(s, e.condition)) {
      ApartTrue(s, facts, branch.thenNarrowings);
      CheckSound(t, ApartFacts(facts, branch.thenNarrowings), types, s, base);
      RightFirst(a.answers, b.answers, Run(t, s, base).asked, base);
      BranchEnds(e, facts, a, b, types, s, base, true);
    } else {
      ApartTrue(s, facts, branch.elseNarrowings);
      CheckSound(f, ApartFacts(facts, branch.elseNarrowings), types, s, base + Asks(t));
      CheckCounts(t, ApartFacts(facts, branch.thenNarrowings), types);
      RightSecond(a.answers, b.answers, Run(f, s, base + Asks(t)).asked, base);
      BranchEnds(e, facts, a, b, types, s, base, false);
    }
  }

  lemma RunIf(e: Stmt, s: Store, base: nat)
    requires e.If?
    ensures
      Run(e, s, base)
      == if Truthy(Evaluate(s, e.condition)) then Run(e.thenBranch, s, base)
         else if e.elseBranch.Some? then Run(e.elseBranch.value, s, base + Asks(e.thenBranch))
         else Trace([], Some(s))
  {
  }

  /** The facts after both branches hold where the one that was taken has ended. */
  lemma BranchEnds(
    e: Stmt, facts: seq<ActiveFact>, a: Checked, b: Checked, types: Types, s: Store, base: nat, taken: bool
  )
    requires e.If? && e.elseBranch.Some?
    requires
      if taken then Fits(Run(e.thenBranch, s, base), a, base)
      else Fits(Run(e.elseBranch.value, s, base + Asks(e.thenBranch)), b, base + Asks(e.thenBranch))
    ensures
      var t := if taken then Run(e.thenBranch, s, base) else Run(e.elseBranch.value, s, base + Asks(e.thenBranch));
      t.end.Some? ==>
        AllTrue(t.end.value,
          AfterBoth(facts, e.thenBranch, Active(a.facts), e.elseBranch.value, Active(b.facts), types))
  {
    hide AllTrue, NonNil, AnswersRight, MayFallThrough, Active, Joined, Run;
    var t := if taken then Run(e.thenBranch, s, base) else Run(e.elseBranch.value, s, base + Asks(e.thenBranch));
    if t.end.Some? {
      if taken {
        if !MayFallThrough(e.thenBranch) {
          LeavesEnd(e.thenBranch, s, base);
        }
        ActiveTrue(t.end.value, a.facts);
      } else {
        if !MayFallThrough(e.elseBranch.value) {
          LeavesEnd(e.elseBranch.value, s, base + Asks(e.thenBranch));
        }
        ActiveTrue(t.end.value, b.facts);
      }
      JoinedTrue(t.end.value, a.facts, b.facts, types);
    }
  }

  /** A whole program, from no facts at all. */
  lemma ProgramSound(program: Stmts, types: Types, s: Store)
    requires TypesRight(types) && AllConditionsRight(program) && TightAll(program, [], types)
    ensures AnswersRight(CheckAll(program, [], types).answers, RunAll(program, s, 0).asked, 0)
  {
    hide AnswersRight, TypesRight, TightAll, AllConditionsRight, CheckAll, RunAll;
    NoFacts(s);
    CheckAllSound(program, [], types, s, 0);
  }

  /** No `return`, no `else` and no loop. */
  predicate Plain(e: Stmt)
    decreases e
  {
    match e
    case Leave => false
    case Block(body) => AllPlain(body)
    case If(_, t, f) => f.None? && Plain(t)
    case ForIn(_, _, _, _) => false
    case Apart(body, _) => AllPlain(body)
    case _ => true
  }

  predicate AllPlain(es: Stmts)
    decreases es
  {
    match es case Nothing => true case Then(e, rest) => Plain(e) && AllPlain(rest)
  }

  lemma {:induction false} PlainFalls(e: Stmt)
    requires Plain(e)
    ensures MayFallThrough(e)
    decreases e
  {
    if e.Block? {
      BodyPlainFalls(e.body);
    }
  }

  lemma {:induction false} BodyPlainFalls(es: Stmts)
    requires AllPlain(es)
    ensures BodyMayFallThrough(es)
    decreases es
  {
    if es.Then? {
      PlainFalls(es.head);
      BodyPlainFalls(es.tail);
    }
  }

  lemma LostTrans(a: seq<ActiveFact>, b: seq<ActiveFact>, c: seq<ActiveFact>)
    requires OnlyLost(a, b) && OnlyLost(b, c)
    ensures OnlyLost(a, c)
  {
  }

  lemma CutLost(facts: seq<ActiveFact>, ns: seq<Narrowing>, after: seq<ActiveFact>)
    requires OnlyLost(Pushed(facts, ns), after)
    ensures OnlyLost(facts, Resized(after, |facts|))
  {
    forall i | 0 <= i < |facts|
      ensures Resized(after, |facts|)[i] == facts[i] || Resized(after, |facts|)[i] == facts[i].(narrowedType := None)
    {
      assert Pushed(facts, ns)[..|facts|][i] == facts[i];
    }
  }

  /** Nested branches and assignments only lose outer facts, and leave none behind. */
  lemma {:induction false} PlainTight(e: Stmt, facts: seq<ActiveFact>, types: Types)
    requires Plain(e)
    ensures OnlyLost(facts, Check(e, facts, types).facts) && Tight(e, facts, types)
    decreases e
  {
    hide FactsFor, Within, Fresh, MayFallThrough, OnlyLost;
    NothingLost(facts);
    match e
    case Block(body) => AllPlainTight(body, facts, types);
    case Apart(body, _) => AllPlainTight(body, [], types);
    case If(c, t, _) =>
      var branch := FactsFor(c, types.resolve);
      PlainFalls(t);
      PlainTight(t, Pushed(facts, branch.thenNarrowings), types);
      PushedNone(facts, branch.thenNarrowings);
      CutLost(facts, branch.thenNarrowings, Check(t, Pushed(facts, branch.thenNarrowings), types).facts);
      LostWithin(facts, CheckOne(e, facts, types).facts);
    case _ =>
  }

  lemma NothingLost(facts: seq<ActiveFact>)
    ensures OnlyLost(facts, facts)
  {
  }

  lemma {:induction false} AllPlainTight(es: Stmts, facts: seq<ActiveFact>, types: Types)
    requires AllPlain(es)
    ensures OnlyLost(facts, CheckAll(es, facts, types).facts) && TightAll(es, facts, types)
    decreases es
  {
    hide OnlyLost, Check, Tight, Plain;
    match es
    case Nothing => NothingLost(facts);
    case Then(e, rest) =>
      PlainTight(e, facts, types);
      AllPlainTight(rest, Check(e, facts, types).facts, types);
      LostTrans(facts, Check(e, facts, types).facts, CheckAll(rest, Check(e, facts, types).facts, types).facts);
  }

  // ------------------------------------------------------------ when a skipped branch is right

  ghost predicate AllNamesRight(ns: seq<Narrowing>) {
    forall n :: n in ns ==> NameRightFor(n.resolvedName)
  }

  lemma {:induction false} FactsForNames(c: Condition, resolve: Resolver)
    requires ResolverRight(resolve)
    ensures AllNamesRight(FactsFor(c, resolve).thenNarrowings) && AllNamesRight(FactsFor(c, resolve).elseNarrowings)
    decreases c
  {
    hide PathRight;
    var u := UngroupedOf(c);
    if u.And? || u.Or? {
      FactsForNames(u.left, resolve);
      FactsForNames(u.right, resolve);
    }
  }

  lemma PushedNames(facts: seq<ActiveFact>, ns: seq<Narrowing>)
    requires NamesRight(facts) && AllNamesRight(ns)
    ensures NamesRight(Pushed(facts, ns))
  {
    hide NameRightFor;
    var r := Pushed(facts, ns);
    forall i | 0 <= i < |r| && r[i].narrowedType.Some? ensures NameRightFor(r[i].resolvedName) {
      if i < |facts| {
        assert r[..|facts|][i] == facts[i];
      } else {
        assert ns[i - |facts|] in ns;
        assert r[|facts| + (i - |facts|)] == ActiveFact(ns[i - |facts|].resolvedName, Some(ns[i - |facts|].narrowedType));
      }
    }
  }

  lemma {:induction false} ActiveNames(facts: seq<ActiveFact>)
    requires NamesRight(facts)
    ensures AllNamesRight(Active(facts))
  {
    hide NameRightFor;
    if facts != [] {
      assert NamesRight(facts[..|facts| - 1]);
      ActiveNames(facts[..|facts| - 1]);
    }
  }

  lemma {:induction false} JoinedNames(thens: seq<Narrowing>, elses: seq<Narrowing>, types: Types)
    requires AllNamesRight(thens)
    ensures AllNamesRight(Joined(thens, elses, types))
  {
    hide NameRightFor;
    if thens != [] {
      JoinedNames(thens[..|thens| - 1], elses, types);
      assert thens[|thens| - 1] in thens;
    }
  }

  lemma ApartNames(facts: seq<ActiveFact>, ns: seq<Narrowing>)
    requires NamesRight(facts) && AllNamesRight(ns)
    ensures NamesRight(ApartFacts(facts, ns))
  {
    hide NameRightFor;
    ActiveNames(facts);
    assert AllNamesRight(Active(facts) + ns);
    assert NamesRight([]);
    PushedNames([], Active(facts) + ns);
  }

  lemma LostNames(facts: seq<ActiveFact>, after: seq<ActiveFact>)
    requires NamesRight(facts) && OnlyLost(facts, after)
    ensures NamesRight(after)
  {
    hide NameRightFor;
  }

  lemma ResizedNames(facts: seq<ActiveFact>, size: nat)
    requires NamesRight(facts)
    ensures NamesRight(Resized(facts, size))
  {
    hide NameRightFor;
  }

  /** The checker only ever records facts about paths. */
  lemma {:induction false} CheckNames(e: Stmt, facts: seq<ActiveFact>, types: Types)
    requires TypesRight(types) && NamesRight(facts)
    ensures NamesRight(Check(e, facts, types).facts)
    decreases e
  {
    hide NamesRight, AllNamesRight, CheckOne, CheckBoth, OnlyLost, ResolverRight;
    match e
    case Assign(variable, _) => LostNames(facts, Invalidated(facts, variable));
    case Disturb(_) => LostNames(facts, AllInvalidated(facts));
    case ForIn(_, _, _, _) => LostNames(facts, AllInvalidated(facts));
    case Block(body) => CheckAllNames(body, facts, types);
    case If(_, _, f) =>
      if f.Some? {
        BothNames(e, facts, types);
      } else {
        OneNames(e, facts, types);
      }
    case _ =>
  }

  lemma {:induction false} OneNames(e: Stmt, facts: seq<ActiveFact>, types: Types)
    requires e.If? && e.elseBranch.None? && TypesRight(types) && NamesRight(facts)
    ensures NamesRight(CheckOne(e, facts, types).facts)
    decreases e, 0
  {
    hide NamesRight, AllNamesRight, FactsFor, MayFallThrough, Active, Check, ResolverRight;
    var t, branch := e.thenBranch, FactsFor(e.condition, types.resolve);
    FactsForNames(e.condition, types.resolve);
    PushedNames(facts, branch.thenNarrowings);
    PushedNames(facts, branch.elseNarrowings);
    CheckNames(t, facts, types);
    CheckNames(t, Pushed(facts, branch.thenNarrowings), types);
    ResizedNames(Check(t, Pushed(facts, branch.thenNarrowings), types).facts, |facts|);
  }

  lemma NoNames()
    ensures NamesRight([])
  {
  }

  lemma {:induction false} BothNames(e: Stmt, facts: seq<ActiveFact>, types: Types)
    requires e.If? && e.elseBranch.Some? && TypesRight(types) && NamesRight(facts)
    ensures NamesRight(CheckBoth(e, facts, types).facts)
    decreases e, 0
  {
    hide NamesRight, AllNamesRight, FactsFor, MayFallThrough, Active, Joined, Check, ResolverRight;
    var t, f := e.thenBranch, e.elseBranch.value;
    var branch := FactsFor(e.condition, types.resolve);
    FactsForNames(e.condition, types.resolve);
    ApartNames(facts, branch.thenNarrowings);
    ApartNames(facts, branch.elseNarrowings);
    var a := Check(t, ApartFacts(facts, branch.thenNarrowings), types);
    var b := Check(f, ApartFacts(facts, branch.elseNarrowings), types);
    CheckNames(t, ApartFacts(facts, branch.thenNarrowings), types);
    CheckNames(f, ApartFacts(facts, branch.elseNarrowings), types);
    ActiveNames(a.facts);
    ActiveNames(b.facts);
    JoinedNames(Active(a.facts), Active(b.facts), types);
    NoNames();
    PushedNames([], Active(a.facts));
    PushedNames([], Active(b.facts));
    PushedNames([], Joined(Active(a.facts), Active(b.facts), types));
  }

  lemma {:induction false} CheckAllNames(es: Stmts, facts: seq<ActiveFact>, types: Types)
    requires TypesRight(types) && NamesRight(facts)
    ensures NamesRight(CheckAll(es, facts, types).facts)
    decreases es
  {
    hide NamesRight, Check, ResolverRight;
    match es
    case Nothing =>
    case Then(e, rest) =>
      CheckNames(e, facts, types);
      CheckAllNames(rest, Check(e, facts, types).facts, types);
  }

  /** In every run that skips the branch of `if (unknown) t` the facts left behind are true. */
  ghost predicate SkipRight(t: Stmt, facts: seq<ActiveFact>, types: Types) {
    forall unknown: Store -> Value, s: Store :: AllTrue(s, facts) && !Truthy(unknown(s)) ==>
      AllTrue(s, Check(If(Other(unknown), t, None), facts, types).facts)
  }

  lemma UnknownCondition(unknown: Store -> Value, t: Stmt, facts: seq<ActiveFact>, types: Types)
    requires TypesRight(types) && MayFallThrough(t)
    ensures Check(If(Other(unknown), t, None), facts, types) == Check(t, facts, types)
  {
    hide MayFallThrough;
    var c := Other(unknown);
    assert UngroupedOf(c) == c;
    assert types.resolve(c).None?;
    assert FactsFor(c, types.resolve) == NO_FACTS;
  }

  /** After an `if` whose condition says nothing, the facts are right for the runs that skip the branch
      exactly when the branch leaves no live fact that was not live before it. */
  lemma SkipRightExactly(t: Stmt, facts: seq<ActiveFact>, types: Types)
    requires TypesRight(types) && MayFallThrough(t) && NamesRight(facts)
    ensures SkipRight(t, facts, types) <==> Within(Check(t, facts, types).facts, facts)
  {
    hide AllTrue, NamesRight, Within, ResolverRight, MayFallThrough;
    var after := Check(t, facts, types).facts;
    CheckNames(t, facts, types);
    FollowsExactly(after, facts);
    forall unknown: Store -> Value ensures Check(If(Other(unknown), t, None), facts, types).facts == after {
      UnknownCondition(unknown, t, facts, types);
    }
    if SkipRight(t, facts, types) {
      var never: Store -> Value := _ => Nil;
      forall s | AllTrue(s, facts) ensures AllTrue(s, after) {
        assert !Truthy(never(s));
      }
    }
  }
}
