/** Programs for which the type checker takes a nil value for a value that is not nil: facts leak out
    of a branch that was skipped, and a loop body is checked with facts that its first turn destroys.
 */
module FlowGaps {
  import opened Wrappers
  import opened Runtime
  import opened FlowFacts
  import opened FlowChecks

  const VALUE := "value#0"
  const OTHER := "other#1"
  const ITEM := "item#2"
  const NIL := LiteralValue("nil", Nil)

  /** `value` and `other` are optional numbers. */
  const NULLABLE: Types := Types(
    (c: Condition) => NullableTarget(c),
    (a: string, b: string) => a == b)

  function NullableTarget(c: Condition): Option<Narrowing> {
    if c.Target? && (c.path == Variable(VALUE) || c.path == Variable(OTHER)) then Some(Narrowing(FactName(c.path), "number"))
    else None
  }

  lemma NullableRight()
    ensures TypesRight(NULLABLE)
  {
    assert PathRight(Variable(VALUE)) && PathRight(Variable(OTHER));
  }

  const FACT := Narrowing(VALUE, "number")
  const OTHER_FACT := Narrowing(OTHER, "number")

  /** `if (value == nil) { return; }` */
  const RETURN_IF_NIL := If(Comparison(true, Target(Variable(VALUE)), NIL), Leave, None)

  lemma ComparisonFactsAre(isEqual: bool, name: string)
    requires name == VALUE || name == OTHER
    ensures
      FactsFor(Comparison(isEqual, Target(Variable(name)), NIL), NULLABLE.resolve)
      == if isEqual then BranchFacts([], [Narrowing(name, "number")]) else BranchFacts([Narrowing(name, "number")], [])
  {
    var c := Comparison(isEqual, Target(Variable(name)), NIL);
    assert UngroupedOf(c) == c;
    assert FactsFor(c, NULLABLE.resolve) == ComparisonFacts(c, NULLABLE.resolve);
  }

  /** `value` is not nil after `RETURN_IF_NIL`. */
  lemma AfterReturn(facts: seq<ActiveFact>)
    ensures
      Check(RETURN_IF_NIL, facts, NULLABLE) == Checked([], facts + [ActiveFact(VALUE, Some("number"))])
  {
    ComparisonFactsAre(true, VALUE);
    assert Check(RETURN_IF_NIL, facts, NULLABLE) == CheckOne(RETURN_IF_NIL, facts, NULLABLE);
    assert Pushed(facts, [FACT]) == facts + [ActiveFact(VALUE, Some("number"))];
  }

  lemma RunReturn(s: Store, base: nat)
    ensures Run(RETURN_IF_NIL, s, base) == Trace([], if s.variables(VALUE) == Nil then None else Some(s))
  {
    assert Evaluate(s, RETURN_IF_NIL.condition) == Bool(s.variables(VALUE) == Nil);
  }

  /** The store in which one variable holds nil. */
  lemma NilStore(name: string, x: string)
    ensures NilAt(name).variables(x) == if x == name then Nil else Text(x)
  {
  }

  lemma NilRefuted(s: Store, name: string)
    requires name in {VALUE, OTHER} && s.variables(name) == Nil
    ensures !NonNil(s, name)
  {
    assert PathRight(Variable(name)) && FactName(Variable(name)) == name && PathValue(s, Variable(name)) == Nil;
  }

  /** `if (flag) { if (value == nil) { return; } } value;` */
  const SKIPPED: Stmts := Then(If(Other(_ => Nil), Block(Then(RETURN_IF_NIL, Nothing)), None), Then(Ask(VALUE), Nothing))

  lemma SkippedChecked()
    ensures CheckAll(SKIPPED, [], NULLABLE).answers == [Some("number")]
  {
    hide Check, TypesRight;
    NullableRight();
    var t := Block(Then(RETURN_IF_NIL, Nothing));
    AfterReturn([]);
    var facts := [ActiveFact(VALUE, Some("number"))];
    assert [] + facts == facts;
    OneStatement(RETURN_IF_NIL, [], NULLABLE);
    BlockChecked(Then(RETURN_IF_NIL, Nothing), [], NULLABLE);
    UnknownCondition(_ => Nil, t, [], NULLABLE);
    AskChecked(VALUE, facts, NULLABLE);
    OneStatement(Ask(VALUE), facts, NULLABLE);
    assert CheckAll(SKIPPED, [], NULLABLE).answers == [] + [Some("number")];
  }

  lemma OneStatement(e: Stmt, facts: seq<ActiveFact>, types: Types)
    ensures CheckAll(Then(e, Nothing), facts, types) == Check(e, facts, types)
  {
    var r := Check(e, facts, types);
    assert CheckAll(Nothing, r.facts, types) == Checked([], r.facts);
    assert r.answers + [] == r.answers;
  }

  lemma BlockChecked(body: Stmts, facts: seq<ActiveFact>, types: Types)
    ensures Check(Block(body), facts, types) == CheckAll(body, facts, types)
  {
  }

  lemma AskChecked(name: string, facts: seq<ActiveFact>, types: Types)
    requires facts != [] && facts[|facts| - 1].resolvedName == name
    ensures Check(Ask(name), facts, types) == Checked([facts[|facts| - 1].narrowedType], facts)
  {
  }

  lemma RunAsk(name: string, s: Store, base: nat)
    ensures RunAll(Then(Ask(name), Nothing), s, base) == Trace([Question(base, name, s)], Some(s))
  {
    assert RunAll(Nothing, s, base + 1) == Trace([], Some(s));
    assert [Question(base, name, s)] + [] == [Question(base, name, s)];
  }

  /** A silent statement and the rest of the run. */
  lemma RunSilent(e: Stmt, rest: Stmts, s: Store, s1: Store, base: nat)
    requires Run(e, s, base) == Trace([], Some(s1))
    ensures RunAll(Then(e, rest), s, base) == RunAll(rest, s1, base + Asks(e))
  {
    var more := RunAll(rest, s1, base + Asks(e));
    assert [] + more.asked == more.asked;
  }

  /** A typed answer to a question about nil. */
  lemma WrongAnswer(answers: seq<Option<string>>, asked: seq<Question>, k: nat)
    requires k < |asked| && 0 <= asked[k].index < |answers| && answers[asked[k].index].Some?
    requires asked[k].factName in {VALUE, OTHER} && asked[k].store.variables(asked[k].factName) == Nil
    ensures !AnswersRight(answers, asked, 0)
  {
    hide NonNil;
    NilRefuted(asked[k].store, asked[k].factName);
    assert !AnswerRight(answers, asked[k], 0);
  }

  lemma SkippedRuns(s: Store)
    ensures RunAll(SKIPPED, s, 0).asked == [Question(0, VALUE, s)]
  {
    var e := SKIPPED.head;
    assert Run(e, s, 0) == Trace([], Some(s));
    assert Asks(e) == 0;
    RunSilent(e, SKIPPED.tail, s, s, 0);
    RunAsk(VALUE, s, 0);
  }

  /** `value` is nil and the branch with the check is skipped, yet it is taken for a number. */
  lemma SkippedWrong()
    ensures TypesRight(NULLABLE) && AllConditionsRight(SKIPPED)
    ensures !AnswersRight(CheckAll(SKIPPED, [], NULLABLE).answers, RunAll(SKIPPED, NilAt(VALUE), 0).asked, 0)
  {
    hide CheckAll, RunAll, TypesRight, AnswersRight;
    NullableRight();
    SkippedChecked();
    SkippedRuns(NilAt(VALUE));
    NilStore(VALUE, VALUE);
    WrongAnswer([Some("number")], [Question(0, VALUE, NilAt(VALUE))], 0);
  }

  // Facts of a branch that take the place of outer ones.

  /** `if (flag) { value = nil; } else {}` */
  const RESET := If(Other(_ => Nil), Block(Then(Assign(VALUE, _ => Nil), Nothing)), Some(Block(Nothing)))

  /** `if (value == nil) { return; } if (other != nil) { if (flag) { value = nil; } else {} } other;` */
  const JOINED: Stmts :=
    Then(RETURN_IF_NIL,
      Then(If(Comparison(false, Target(Variable(OTHER)), NIL), RESET, None), Then(Ask(OTHER), Nothing)))

  const VALUE_FACT := ActiveFact(VALUE, Some("number"))
  const OTHER_ACTIVE := ActiveFact(OTHER, Some("number"))

  lemma OtherKept()
    ensures Depends(VALUE, VALUE) && !Depends(OTHER, VALUE)
  {
    assert OTHER[0] == 'o' && VALUE[0] == 'v';
    assert !HasPrefix(OTHER, VALUE + ['.']) && !HasPrefix(OTHER, VALUE + ['[']);
    var part := ['['] + VALUE + [']'];
    assert |part| > |OTHER|;
  }

  lemma ResetChecked()
    ensures Check(RESET, [VALUE_FACT, OTHER_ACTIVE], NULLABLE).facts == [OTHER_ACTIVE]
    ensures Check(RESET, [VALUE_FACT, OTHER_ACTIVE], NULLABLE).answers == []
  {
    hide Check, Depends;
    var facts := [VALUE_FACT, OTHER_ACTIVE];
    var t, f := RESET.thenBranch, RESET.elseBranch.value;
    NoFactsFor(_ => Nil);
    ActiveBoth();
    assert ApartFacts(facts, []) == facts;
    ResetBranch();
    BlockChecked(Nothing, facts, NULLABLE);
    JoinedOther();
    assert CheckBoth(RESET, facts, NULLABLE)
        == Checked([], AfterBoth(facts, t, [OTHER_FACT], f, [FACT, OTHER_FACT], NULLABLE));
    IfChecked(RESET, facts, NULLABLE);
  }

  lemma IfChecked(e: Stmt, facts: seq<ActiveFact>, types: Types)
    requires e.If?
    ensures Check(e, facts, types) == if e.elseBranch.Some? then CheckBoth(e, facts, types) else CheckOne(e, facts, types)
  {
  }

  lemma NoFactsFor(unknown: Store -> Value)
    ensures FactsFor(Other(unknown), NULLABLE.resolve) == NO_FACTS
  {
    assert UngroupedOf(Other(unknown)) == Other(unknown);
  }

  lemma ActiveBoth()
    ensures Active([VALUE_FACT, OTHER_ACTIVE]) == [FACT, OTHER_FACT]
    ensures Active([VALUE_FACT.(narrowedType := None), OTHER_ACTIVE]) == [OTHER_FACT]
  {
    assert [VALUE_FACT, OTHER_ACTIVE][..1] == [VALUE_FACT];
    assert [VALUE_FACT][..0] == [];
    assert Active([VALUE_FACT]) == [] + [FACT];
    var lost := VALUE_FACT.(narrowedType := None);
    assert [lost, OTHER_ACTIVE][..1] == [lost];
    assert Active([lost]) == [];
  }

  lemma ResetBranch()
    ensures
      Check(RESET.thenBranch, [VALUE_FACT, OTHER_ACTIVE], NULLABLE)
      == Checked([], [VALUE_FACT.(narrowedType := None), OTHER_ACTIVE])
  {
    hide Depends;
    OtherKept();
    var facts := [VALUE_FACT, OTHER_ACTIVE];
    assert Invalidated(facts, VALUE) == [VALUE_FACT.(narrowedType := None), OTHER_ACTIVE];
    OneStatement(Assign(VALUE, _ => Nil), facts, NULLABLE);
    BlockChecked(RESET.thenBranch.body, facts, NULLABLE);
  }

  lemma JoinedOther()
    ensures Joined([OTHER_FACT], [FACT, OTHER_FACT], NULLABLE) == [OTHER_FACT]
    ensures Pushed([], [OTHER_FACT]) == [OTHER_ACTIVE]
  {
    assert Matches(OTHER_FACT, [FACT, OTHER_FACT][1], NULLABLE);
    assert [OTHER_FACT][..0] == [];
    assert Joined([OTHER_FACT], [FACT, OTHER_FACT], NULLABLE) == [] + [OTHER_FACT];
  }

  lemma BranchChecked()
    ensures Check(JOINED.tail.head, [VALUE_FACT], NULLABLE) == Checked([], [OTHER_ACTIVE])
  {
    hide Check;
    var e := JOINED.tail.head;
    ComparisonFactsAre(false, OTHER);
    ResetChecked();
    assert Pushed([VALUE_FACT], [OTHER_FACT]) == [VALUE_FACT, OTHER_ACTIVE];
    assert Resized([OTHER_ACTIVE], 1) == [OTHER_ACTIVE];
    IfChecked(e, [VALUE_FACT], NULLABLE);
  }

  lemma JoinedChecked()
    ensures CheckAll(JOINED, [], NULLABLE).answers == [Some("number")]
  {
    hide Check, CheckAll;
    AfterReturn([]);
    assert [] + [VALUE_FACT] == [VALUE_FACT];
    BranchChecked();
    AskChecked(OTHER, [OTHER_ACTIVE], NULLABLE);
    OneStatement(Ask(OTHER), [OTHER_ACTIVE], NULLABLE);
    ThenChecked(RETURN_IF_NIL, JOINED.tail, [], [VALUE_FACT]);
    ThenChecked(JOINED.tail.head, JOINED.tail.tail, [VALUE_FACT], [OTHER_ACTIVE]);
  }

  lemma ThenChecked(e: Stmt, rest: Stmts, facts: seq<ActiveFact>, after: seq<ActiveFact>)
    requires Check(e, facts, NULLABLE) == Checked([], after)
    ensures CheckAll(Then(e, rest), facts, NULLABLE) == CheckAll(rest, after, NULLABLE)
  {
    var more := CheckAll(rest, after, NULLABLE);
    assert [] + more.answers == more.answers;
  }

  lemma JoinedRuns(s: Store)
    requires s.variables(VALUE) != Nil && s.variables(OTHER) == Nil
    ensures RunAll(JOINED, s, 0).asked == [Question(0, OTHER, s)]
  {
    hide Run, RunAll, Evaluate;
    var e := JOINED.tail.head;
    RunReturn(s, 0);
    RunSilent(RETURN_IF_NIL, JOINED.tail, s, s, 0);
    OtherNil(s);
    RunIf(e, s, 0);
    RunSilent(e, JOINED.tail.tail, s, s, 0);
    RunAsk(OTHER, s, 0);
    NoAsks();
  }

  lemma NoAsks()
    ensures Asks(RETURN_IF_NIL) == 0 && Asks(JOINED.tail.head) == 0
  {
    assert AsksAll(Then(Assign(VALUE, _ => Nil), Nothing)) == 0;
    assert Asks(RESET.thenBranch) == 0 && Asks(RESET.elseBranch.value) == 0;
  }

  lemma OtherNil(s: Store)
    requires s.variables(OTHER) == Nil
    ensures !Truthy(Evaluate(s, JOINED.tail.head.condition))
  {
    assert Evaluate(s, Target(Variable(OTHER))) == Nil;
  }

  /** The facts of the inner branches take the place of an outer one: `other` is nil, its check is
      skipped, yet it is taken for a number. */
  lemma JoinedWrong()
    ensures TypesRight(NULLABLE) && AllConditionsRight(JOINED)
    ensures !AnswersRight(CheckAll(JOINED, [], NULLABLE).answers, RunAll(JOINED, NilAt(OTHER), 0).asked, 0)
  {
    hide CheckAll, RunAll, TypesRight, AnswersRight;
    NullableRight();
    JoinedChecked();
    NilStore(OTHER, OTHER);
    NilStore(OTHER, VALUE);
    assert OTHER[0] != VALUE[0];
    JoinedRuns(NilAt(OTHER));
    JoinedConditions();
    WrongAnswer([Some("number")], [Question(0, OTHER, NilAt(OTHER))], 0);
  }

  lemma JoinedConditions()
    ensures AllConditionsRight(JOINED)
  {
    assert ConditionsRight(RESET.thenBranch) && ConditionsRight(RESET.elseBranch.value);
    assert ConditionsRight(RESET);
    assert ConditionsRight(JOINED.tail.head);
  }

  // Facts that the first turn of a loop destroys.

  /** `value; value = nil;` */
  const TURN := Then(Ask(VALUE), Then(Assign(VALUE, _ => Nil), Nothing))

  /** `if (value == nil) { return; } for item in [0, 1] { value; value = nil; }` */
  const LOOPED: Stmts := Then(RETURN_IF_NIL, Then(ForIn(ITEM, _ => 2, (_, _) => Nil, TURN), Nothing))

  lemma TurnChecked(facts: seq<ActiveFact>)
    requires facts == [VALUE_FACT]
    ensures CheckAll(TURN, facts, NULLABLE).answers == [Some("number")]
  {
    hide Depends;
    AskChecked(VALUE, facts, NULLABLE);
    OneStatement(Assign(VALUE, _ => Nil), facts, NULLABLE);
    assert [Some("number")] + [] == [Some("number")];
  }

  lemma LoopChecked(loop: Stmt, facts: seq<ActiveFact>)
    requires loop.ForIn?
    ensures Check(loop, facts, NULLABLE).answers == CheckAll(loop.body, facts, NULLABLE).answers
  {
  }

  lemma LoopedChecked()
    ensures CheckAll(LOOPED, [], NULLABLE).answers == [Some("number")]
  {
    hide Check, CheckAll;
    var loop, facts := LOOPED.tail.head, [VALUE_FACT];
    AfterReturn([]);
    assert [] + facts == facts;
    ThenChecked(RETURN_IF_NIL, LOOPED.tail, [], facts);
    OneStatement(loop, facts, NULLABLE);
    LoopChecked(loop, facts);
    TurnChecked(facts);
  }

  lemma TurnRuns(s: Store, base: nat)
    ensures RunAll(TURN, s, base) == Trace([Question(base, VALUE, s)], Some(Assigned(s, VALUE, Nil)))
  {
    var s1 := Assigned(s, VALUE, Nil);
    assert Run(TURN.tail.head, s, base + 1) == Trace([], Some(s1));
    assert RunAll(Nothing, s1, base + 1) == Trace([], Some(s1));
    RunSilent(TURN.tail.head, Nothing, s, s1, base + 1);
    assert [Question(base, VALUE, s)] + [] == [Question(base, VALUE, s)];
  }

  /** The second turn reads nil, yet the body was checked with `value` taken for a number. */
  lemma LoopedWrong()
    ensures TypesRight(NULLABLE) && AllConditionsRight(LOOPED)
    ensures !AnswersRight(CheckAll(LOOPED, [], NULLABLE).answers, RunAll(LOOPED, NilAt(OTHER), 0).asked, 0)
  {
    hide CheckAll, RunAll, TypesRight, AnswersRight;
    NullableRight();
    LoopedChecked();
    LoopedConditions();
    var s2 := LoopedRuns();
    WrongAnswer([Some("number")], RunAll(LOOPED, NilAt(OTHER), 0).asked, 1);
  }

  lemma LoopedConditions()
    ensures AllConditionsRight(LOOPED)
  {
    assert AllConditionsRight(TURN);
    assert ConditionsRight(LOOPED.tail.head);
  }

  lemma LoopedRuns() returns (s2: Store)
    ensures
      var asked := RunAll(LOOPED, NilAt(OTHER), 0).asked;
      |asked| == 2 && asked[1] == Question(0, VALUE, s2) && s2.variables(VALUE) == Nil
  {
    hide RunAll, Run;
    var s := NilAt(OTHER);
    NilStore(OTHER, VALUE);
    assert OTHER[0] != VALUE[0] && VALUE[0] != ITEM[0];
    RunReturn(s, 0);
    RunSilent(RETURN_IF_NIL, LOOPED.tail, s, s, 0);
    NoAsks();
    var loop := LOOPED.tail.head;
    var s1 := Assigned(s, ITEM, Nil);
    var s1' := Assigned(s1, VALUE, Nil);
    s2 := Assigned(s1', ITEM, Nil);
    TurnRuns(s1, 0);
    TurnRuns(s2, 0);
    var end := Assigned(s2, VALUE, Nil);
    assert Turns(ITEM, loop.item, TURN, end, 2, 2, 0) == Trace([], Some(end));
    assert Turns(ITEM, loop.item, TURN, s1', 1, 2, 0).asked == [Question(0, VALUE, s2)] + [];
    assert Turns(ITEM, loop.item, TURN, s, 0, 2, 0).asked == [Question(0, VALUE, s1)] + ([Question(0, VALUE, s2)] + []);
    LoopRun(loop, s);
  }

  lemma LoopRun(loop: Stmt, s: Store)
    requires loop.ForIn?
    ensures
      RunAll(Then(loop, Nothing), s, 0).asked
      == Turns(loop.variable, loop.item, loop.body, s, 0, loop.turns(s), 0).asked
  {
    var t := Run(loop, s, 0);
    if t.end.Some? {
      assert RunAll(Nothing, t.end.value, 0 + Asks(loop)) == Trace([], t.end);
      assert t.asked + [] == t.asked;
    }
  }
}
