/** Nil narrowing: what a condition says about nullable variables, fields and elements, and the
    stack of facts that branches push and assignments invalidate.
 */
module FlowFacts {
  import opened Wrappers
  import opened Runtime
  import opened Decimals

  // ------------------------------------------------------------------ fact names

  /** An index that a fact can name: an integer literal or a variable. */
  datatype Key = Digits(text: string) | Named(variable: string)

  /** A variable, field or element, by resolved names. */
  datatype Path = Variable(name: string) | Member(parent: Path, name: string) | Element(parent: Path, key: Key)

  const MARKS := {'.', '[', ']'}

  predicate NameRight(name: string) {
    name != [] && Unmarked(name, MARKS) && !IsDigit(name[0])
  }

  predicate KeyRight(key: Key) {
    match key
    case Digits(text) => text != [] && forall i :: 0 <= i < |text| ==> IsDigit(text[i])
    case Named(variable) => NameRight(variable)
  }

  /** Resolved names are identifiers with a serial number: no separators, no leading digit. */
  predicate PathRight(p: Path) {
    match p
    case Variable(name) => NameRight(name)
    case Member(parent, name) => PathRight(parent) && NameRight(name)
    case Element(parent, key) => PathRight(parent) && KeyRight(key)
  }

  function KeyText(key: Key): string {
    match key case Digits(text) => text case Named(variable) => variable
  }

  function FactName(p: Path): string {
    match p
    case Variable(name) => name
    case Member(parent, name) => FactName(parent) + ['.'] + name
    case Element(parent, key) => FactName(parent) + ['['] + (KeyText(key) + [']'])
  }

  lemma KeyUnmarked(key: Key)
    requires KeyRight(key)
    ensures KeyText(key) != [] && Unmarked(KeyText(key), MARKS)
  {
    if key.Digits? {
      forall i | 0 <= i < |key.text| ensures key.text[i] !in MARKS {
        assert IsDigit(key.text[i]);
      }
    }
  }

  lemma KeyInjective(a: Key, b: Key)
    requires KeyRight(a) && KeyRight(b) && KeyText(a) == KeyText(b)
    ensures a == b
  {
    KeyUnmarked(a);
    assert KeyText(a)[0] == KeyText(b)[0];
  }

  /** How a fact name ends: with the bracket of an element, or with a name after the last separator. */
  lemma NameEnds(p: Path)
    requires PathRight(p)
    ensures FactName(p) != []
    ensures p.Element? <==> FactName(p)[|FactName(p)| - 1] == ']'
    ensures p.Variable? <==> Unmarked(FactName(p), MARKS)
  {
    var text := FactName(p);
    match p
    case Variable(name) => assert text[|text| - 1] !in MARKS;
    case Member(parent, name) =>
      assert text[|text| - 1] == name[|name| - 1] && name[|name| - 1] !in MARKS;
      assert text[|FactName(parent)|] == '.';
    case Element(parent, key) => assert text[|FactName(parent)|] == '[';
  }

  /** No two paths share a fact name. */
  lemma {:induction false} FactNameInjective(p: Path, q: Path)
    requires PathRight(p) && PathRight(q) && FactName(p) == FactName(q)
    ensures p == q
    decreases p
  {
    NameEnds(p);
    NameEnds(q);
    if p.Member? && q.Member? {
      LastMark(FactName(p.parent), '.', p.name, FactName(q.parent), '.', q.name, MARKS);
      FactNameInjective(p.parent, q.parent);
    } else if p.Element? && q.Element? {
      var x, y := FactName(p.parent) + ['['] + KeyText(p.key), FactName(q.parent) + ['['] + KeyText(q.key);
      assert FactName(p) == x + [']'] && FactName(q) == y + [']'];
      assert x == FactName(p)[..|FactName(p)| - 1] == y;
      KeyUnmarked(p.key);
      KeyUnmarked(q.key);
      LastMark(FactName(p.parent), '[', KeyText(p.key), FactName(q.parent), '[', KeyText(q.key), MARKS);
      KeyInjective(p.key, q.key);
      FactNameInjective(p.parent, q.parent);
    }
  }

  // ----------------------------------------------------------------- values of paths

  /** What reading a variable, a field, an element and an integer literal gives. */
  datatype Store = Store(
    variables: string -> Value, field: (Value, string) -> Value, at: (Value, Value) -> Value, literal: string -> Value)

  function PathValue(s: Store, p: Path): Value {
    match p
    case Variable(name) => s.variables(name)
    case Member(parent, name) => s.field(PathValue(s, parent), name)
    case Element(parent, key) => s.at(PathValue(s, parent), KeyValue(s, key))
  }

  function KeyValue(s: Store, key: Key): Value {
    match key case Digits(text) => s.literal(text) case Named(variable) => s.variables(variable)
  }

  /** What a fact claims: the path of this name does not hold nil. */
  ghost predicate NonNil(s: Store, factName: string) {
    forall p :: PathRight(p) && FactName(p) == factName ==> PathValue(s, p) != Nil
  }

  lemma NonNilPath(s: Store, p: Path)
    requires PathRight(p) && PathValue(s, p) != Nil
    ensures NonNil(s, FactName(p))
  {
    forall q | PathRight(q) && FactName(q) == FactName(p) ensures PathValue(s, q) != Nil {
      FactNameInjective(p, q);
    }
  }

  // --------------------------------------------------------------------- conditions

  /** Conditions without side effects. */
  datatype Condition =
    | Grouping(inner: Condition)
    | And(left: Condition, right: Condition)
    | Or(left: Condition, right: Condition)
    | Comparison(isEqual: bool, left: Condition, right: Condition)
    | LiteralValue(lexeme: string, value: Value)
    | Target(path: Path)
    | Other(meaning: Store -> Value)

  /** `&&` and `||` give one of their operands. */
  function Evaluate(s: Store, c: Condition): Value {
    match c
    case Grouping(inner) => Evaluate(s, inner)
    case And(l, r) => if Truthy(Evaluate(s, l)) then Evaluate(s, r) else Evaluate(s, l)
    case Or(l, r) => if Truthy(Evaluate(s, l)) then Evaluate(s, l) else Evaluate(s, r)
    case Comparison(isEqual, l, r) => Bool(ValuesEqual(Evaluate(s, l), Evaluate(s, r)) == isEqual)
    case LiteralValue(_, v) => v
    case Target(p) => PathValue(s, p)
    case Other(meaning) => meaning(s)
  }

  /** The lexeme `nil` stands for nil. */
  predicate LiteralsRight(c: Condition) {
    match c
    case Grouping(inner) => LiteralsRight(inner)
    case And(l, r) => LiteralsRight(l) && LiteralsRight(r)
    case Or(l, r) => LiteralsRight(l) && LiteralsRight(r)
    case Comparison(_, l, r) => LiteralsRight(l) && LiteralsRight(r)
    case LiteralValue(lexeme, v) => lexeme == "nil" ==> v == Nil
    case _ => true
  }

  datatype Narrowing = Narrowing(resolvedName: string, narrowedType: string)

  datatype BranchFacts = BranchFacts(thenNarrowings: seq<Narrowing>, elseNarrowings: seq<Narrowing>)

  const NO_FACTS := BranchFacts([], [])

  type Resolver = Condition -> Option<Narrowing>

  /** The checker only resolves targets of nullable type, under their fact names. */
  ghost predicate ResolverRight(resolve: Resolver) {
    forall c :: resolve(c).Some? ==>
      c.Target? && PathRight(c.path) && resolve(c).value.resolvedName == FactName(c.path)
  }

  method Ungrouped(c: Condition) returns (r: Condition)
    ensures !r.Grouping? && (forall s :: Evaluate(s, r) == Evaluate(s, c))
    ensures LiteralsRight(c) ==> LiteralsRight(r)
    ensures r == UngroupedOf(c)
  {
    r := c;
    while r.Grouping?
      invariant forall s :: Evaluate(s, r) == Evaluate(s, c)
      invariant LiteralsRight(c) ==> LiteralsRight(r)
      invariant UngroupedOf(r) == UngroupedOf(c)
      decreases r
    {
      r := r.inner;
    }
  }

  function UngroupedOf(c: Condition): (r: Condition)
    ensures !r.Grouping? && (r == c || r < c)
  {
    match c case Grouping(inner) => UngroupedOf(inner) case _ => c
  }

  function NilCheckedTarget(left: Condition, right: Condition): Option<Condition> {
    if right.LiteralValue? && right.lexeme == "nil" then Some(left)
    else if left.LiteralValue? && left.lexeme == "nil" then Some(right)
    else None
  }

  function FactsFor(c: Condition, resolve: Resolver): BranchFacts
    decreases c
  {
    var u := UngroupedOf(c);
    if u.And? then BranchFacts(FactsFor(u.left, resolve).thenNarrowings + FactsFor(u.right, resolve).thenNarrowings, [])
    else if u.Or? then BranchFacts([], FactsFor(u.left, resolve).elseNarrowings + FactsFor(u.right, resolve).elseNarrowings)
    else if resolve(u).Some? then BranchFacts([resolve(u).value], [])
    else if u.Comparison? then ComparisonFacts(u, resolve)
    else NO_FACTS
  }

  function ComparisonFacts(c: Condition, resolve: Resolver): BranchFacts
    requires c.Comparison?
  {
    var target := NilCheckedTarget(c.left, c.right);
    if target.None? || resolve(target.value).None? then NO_FACTS
    else
      var narrowing := resolve(target.value).value;
      if c.isEqual then BranchFacts([], [narrowing]) else BranchFacts([narrowing], [])
  }

  ghost predicate AllNonNil(s: Store, ns: seq<Narrowing>) {
    forall n :: n in ns ==> NonNil(s, n.resolvedName)
  }

  lemma UngroupedSame(s: Store, c: Condition)
    ensures Evaluate(s, UngroupedOf(c)) == Evaluate(s, c)
    ensures LiteralsRight(c) ==> LiteralsRight(UngroupedOf(c))
  {
  }

  lemma NilLiteral(s: Store, c: Condition)
    requires LiteralsRight(c)
    ensures c.LiteralValue? && c.lexeme == "nil" ==> Evaluate(s, c) == Nil
  {
  }

  lemma ComparisonSound(s: Store, c: Condition, resolve: Resolver)
    requires c.Comparison? && LiteralsRight(c) && ResolverRight(resolve)
    ensures Truthy(Evaluate(s, c)) ==> AllNonNil(s, ComparisonFacts(c, resolve).thenNarrowings)
    ensures !Truthy(Evaluate(s, c)) ==> AllNonNil(s, ComparisonFacts(c, resolve).elseNarrowings)
  {
    hide NonNil, PathRight;
    var target := NilCheckedTarget(c.left, c.right);
    NilLiteral(s, c.left);
    NilLiteral(s, c.right);
    if target.Some? && resolve(target.value).Some? {
      var p := target.value.path;
      assert Evaluate(s, target.value) == PathValue(s, p);
      if PathValue(s, p) != Nil {
        NonNilPath(s, p);
      }
    }
  }

  /** A condition that came out true (false) makes every `then` (`else`) target non-nil. */
  lemma {:induction false} FactsSound(s: Store, c: Condition, resolve: Resolver)
    requires LiteralsRight(c) && ResolverRight(resolve)
    ensures Truthy(Evaluate(s, c)) ==> AllNonNil(s, FactsFor(c, resolve).thenNarrowings)
    ensures !Truthy(Evaluate(s, c)) ==> AllNonNil(s, FactsFor(c, resolve).elseNarrowings)
    decreases c
  {
    hide NonNil, PathRight, ComparisonFacts;
    UngroupedSame(s, c);
    var u := UngroupedOf(c);
    if u.And? || u.Or? {
      FactsSound(s, u.left, resolve);
      FactsSound(s, u.right, resolve);
    } else if resolve(u).Some? {
      if Truthy(Evaluate(s, u)) {
        NonNilPath(s, u.path);
      }
    } else if u.Comparison? {
      ComparisonSound(s, u, resolve);
    }
  }

  // --------------------------------------------------------------------- assignments

  predicate HasPrefix(text: string, prefix: string) {
    |prefix| <= |text| && text[..|prefix|] == prefix
  }

  predicate Contains(text: string, part: string) {
    exists i :: 0 <= i <= |text| && PartAt(text, part, i)
  }

  predicate PartAt(text: string, part: string, i: int) {
    0 <= i <= |text| - |part| && text[i..i + |part|] == part
  }

  /** The names that an assignment to `variable` invalidates. */
  predicate Depends(factName: string, variable: string) {
    || factName == variable || HasPrefix(factName, variable + ['.']) || HasPrefix(factName, variable + ['['])
    || Contains(factName, ['['] + variable + [']'])
  }

  predicate Mentions(p: Path, variable: string) {
    match p
    case Variable(name) => name == variable
    case Member(parent, _) => Mentions(parent, variable)
    case Element(parent, key) => Mentions(parent, variable) || key == Named(variable)
  }

  lemma PartMore(text: string, part: string, i: int, rest: string)
    requires PartAt(text, part, i)
    ensures PartAt(text + rest, part, i)
  {
    assert (text + rest)[i..i + |part|] == text[i..i + |part|];
  }

  lemma DependsMore(name: string, variable: string, c: char, rest: string)
    requires Depends(name, variable) && c in {'.', '['}
    ensures Depends(name + [c] + rest, variable)
  {
    var more, part := name + [c] + rest, ['['] + variable + [']'];
    if name == variable {
      assert more[..|variable + [c]|] == variable + [c];
    } else if HasPrefix(name, variable + ['.']) {
      assert more[..|variable + ['.']|] == variable + ['.'];
    } else if HasPrefix(name, variable + ['[']) {
      assert more[..|variable + ['[']|] == variable + ['['];
    } else {
      var i :| 0 <= i <= |name| && PartAt(name, part, i);
      PartMore(name, part, i, [c] + rest);
      assert more == name + ([c] + rest);
    }
  }

  /** Invalidation covers every path that mentions the variable. */
  lemma {:induction false} MentionsDepends(p: Path, variable: string)
    requires Mentions(p, variable)
    ensures Depends(FactName(p), variable)
    decreases p
  {
    hide Depends;
    match p
    case Variable(_) => DependsSelf(variable);
    case Member(parent, name) =>
      MentionsDepends(parent, variable);
      DependsMore(FactName(parent), variable, '.', name);
    case Element(parent, key) =>
      if Mentions(parent, variable) {
        MentionsDepends(parent, variable);
        DependsMore(FactName(parent), variable, '[', KeyText(key) + [']']);
      } else {
        DependsKey(FactName(parent), variable);
      }
  }

  lemma DependsSelf(variable: string)
    ensures Depends(variable, variable)
  {
  }

  lemma DependsKey(name: string, variable: string)
    ensures Depends(name + ['['] + (variable + [']']), variable)
  {
    var text, part := name + ['['] + (variable + [']']), ['['] + variable + [']'];
    assert text[|name|..|name| + |part|] == part;
    assert PartAt(text, part, |name|);
  }

  function Assigned(s: Store, variable: string, v: Value): Store {
    s.(variables := name => if name == variable then v else s.variables(name))
  }

  lemma {:induction false} Untouched(s: Store, variable: string, v: Value, p: Path)
    requires !Mentions(p, variable)
    ensures PathValue(Assigned(s, variable, v), p) == PathValue(s, p)
    decreases p
  {
    match p
    case Variable(_) =>
    case Member(parent, _) => Untouched(s, variable, v, parent);
    case Element(parent, _) => Untouched(s, variable, v, parent);
  }

  /** A fact that an assignment does not invalidate stays true. */
  lemma AssignmentKeeps(s: Store, variable: string, v: Value, factName: string)
    requires NonNil(s, factName) && !Depends(factName, variable)
    ensures NonNil(Assigned(s, variable, v), factName)
  {
    hide Depends;
    forall p | PathRight(p) && FactName(p) == factName ensures PathValue(Assigned(s, variable, v), p) != Nil {
      if Mentions(p, variable) {
        MentionsDepends(p, variable);
      }
      Untouched(s, variable, v, p);
    }
  }

  // ------------------------------------------------------------------- the fact stack

  datatype ActiveFact = ActiveFact(resolvedName: string, narrowedType: Option<string>)

  /** Every fact that still has a type is true. */
  ghost predicate AllTrue(s: Store, facts: seq<ActiveFact>) {
    forall i :: 0 <= i < |facts| && facts[i].narrowedType.Some? ==> NonNil(s, facts[i].resolvedName)
  }

  /** Facts are only ever lost: the same names, each with its type or with none. */
  predicate OnlyLost(before: seq<ActiveFact>, after: seq<ActiveFact>) {
    && |after| == |before|
    && forall i :: 0 <= i < |before| ==> after[i] == before[i] || after[i] == before[i].(narrowedType := None)
  }

  function Pushed(facts: seq<ActiveFact>, ns: seq<Narrowing>): (r: seq<ActiveFact>)
    ensures |r| == |facts| + |ns| && r[..|facts|] == facts
    ensures forall k :: 0 <= k < |ns| ==> r[|facts| + k] == ActiveFact(ns[k].resolvedName, Some(ns[k].narrowedType))
  {
    facts + seq(|ns|, k requires 0 <= k < |ns| => ActiveFact(ns[k].resolvedName, Some(ns[k].narrowedType)))
  }

  /** A fact of this name still has its type. */
  predicate Live(facts: seq<ActiveFact>, name: string) {
    exists i :: 0 <= i < |facts| && facts[i].narrowedType.Some? && facts[i].resolvedName == name
  }

  lemma LiveTrue(s: Store, facts: seq<ActiveFact>)
    ensures AllTrue(s, facts) <==> forall name :: Live(facts, name) ==> NonNil(s, name)
  {
    hide NonNil;
    if forall name :: Live(facts, name) ==> NonNil(s, name) {
      forall i | 0 <= i < |facts| && facts[i].narrowedType.Some? ensures NonNil(s, facts[i].resolvedName) {
        assert Live(facts, facts[i].resolvedName);
      }
    }
  }

  /** Every live fact of `a` is a live fact of `b`. */
  predicate Within(a: seq<ActiveFact>, b: seq<ActiveFact>) {
    forall i :: 0 <= i < |a| && a[i].narrowedType.Some? ==> Live(b, a[i].resolvedName)
  }

  lemma WithinTrue(s: Store, a: seq<ActiveFact>, b: seq<ActiveFact>)
    requires Within(a, b) && AllTrue(s, b)
    ensures AllTrue(s, a)
  {
    hide NonNil;
    LiveTrue(s, b);
  }

  lemma LostWithin(before: seq<ActiveFact>, after: seq<ActiveFact>)
    requires OnlyLost(before, after)
    ensures Within(after, before)
  {
    forall i | 0 <= i < |after| && after[i].narrowedType.Some? ensures Live(before, after[i].resolvedName) {
      assert before[i] == after[i];
    }
  }

  /** The newest fact of a name decides, also when it has lost its type. */
  function NarrowedType(facts: seq<ActiveFact>, name: string): Option<string> {
    if facts == [] then None
    else
      var last := |facts| - 1;
      if facts[last].resolvedName == name then facts[last].narrowedType else NarrowedType(facts[..last], name)
  }

  lemma {:induction false} NarrowedLive(facts: seq<ActiveFact>, name: string)
    requires NarrowedType(facts, name).Some?
    ensures Live(facts, name)
  {
    var last := |facts| - 1;
    if facts[last].resolvedName != name {
      NarrowedLive(facts[..last], name);
      var i :| 0 <= i < last && facts[..last][i].narrowedType.Some? && facts[..last][i].resolvedName == name;
      assert facts[i].resolvedName == name;
    }
  }

  function Lost(fact: ActiveFact): ActiveFact {
    fact.(narrowedType := None)
  }

  function Invalidated(facts: seq<ActiveFact>, variable: string): (r: seq<ActiveFact>)
    ensures OnlyLost(facts, r)
  {
    seq(|facts|, i requires 0 <= i < |facts| =>
      if Depends(facts[i].resolvedName, variable) then Lost(facts[i]) else facts[i])
  }

  function AllInvalidated(facts: seq<ActiveFact>): (r: seq<ActiveFact>)
    ensures OnlyLost(facts, r)
  {
    seq(|facts|, i requires 0 <= i < |facts| => Lost(facts[i]))
  }

  /** The facts that still have a type. */
  function Active(facts: seq<ActiveFact>): seq<Narrowing> {
    if facts == [] then []
    else
      var last := |facts| - 1;
      var before := Active(facts[..last]);
      if facts[last].narrowedType.Some? then before + [Narrowing(facts[last].resolvedName, facts[last].narrowedType.value)]
      else before
  }

  lemma {:induction false} ActiveNonNil(s: Store, facts: seq<ActiveFact>)
    requires AllTrue(s, facts)
    ensures AllNonNil(s, Active(facts))
  {
    hide NonNil;
    if facts != [] {
      var last := |facts| - 1;
      assert AllTrue(s, facts[..last]);
      ActiveNonNil(s, facts[..last]);
    }
  }

  /** A stack cut or padded to a size. */
  function Resized(facts: seq<ActiveFact>, size: nat): (r: seq<ActiveFact>)
    ensures |r| == size
  {
    if size <= |facts| then facts[..size] else facts + seq(size - |facts|, _ => ActiveFact("", None))
  }

  lemma ResizedTrue(s: Store, facts: seq<ActiveFact>, size: nat)
    requires AllTrue(s, facts)
    ensures AllTrue(s, Resized(facts, size))
  {
    hide NonNil;
  }

  predicate IsNewest(facts: seq<ActiveFact>, name: string, i: nat)
    requires i < |facts|
  {
    facts[i].resolvedName == name && forall j :: i < j < |facts| ==> facts[j].resolvedName != name
  }

  class FlowFacts {
    var activeNarrowings: seq<ActiveFact>

    constructor ()
      ensures activeNarrowings == []
    {
      activeNarrowings := [];
    }

    /** The newest fact of a name decides, also when it has lost its type. */
    method NarrowedTypeFor(resolvedName: string) returns (r: Option<string>)
      ensures r == NarrowedType(activeNarrowings, resolvedName)
      ensures r.Some? ==> ActiveFact(resolvedName, r) in activeNarrowings
      ensures forall i :: 0 <= i < |activeNarrowings| && IsNewest(activeNarrowings, resolvedName, i) ==>
        r == activeNarrowings[i].narrowedType
      ensures (forall i :: 0 <= i < |activeNarrowings| ==> !IsNewest(activeNarrowings, resolvedName, i)) ==> r == None
    {
      var i := |activeNarrowings|;
      assert activeNarrowings[..i] == activeNarrowings;
      while i > 0
        invariant 0 <= i <= |activeNarrowings|
        invariant forall j :: i <= j < |activeNarrowings| ==> activeNarrowings[j].resolvedName != resolvedName
        invariant NarrowedType(activeNarrowings, resolvedName) == NarrowedType(activeNarrowings[..i], resolvedName)
      {
        assert activeNarrowings[..i][..i - 1] == activeNarrowings[..i - 1];
        i := i - 1;
        if activeNarrowings[i].resolvedName == resolvedName {
          assert IsNewest(activeNarrowings, resolvedName, i);
          return activeNarrowings[i].narrowedType;
        }
      }
      return None;
    }

    method ActiveNarrowings() returns (r: seq<Narrowing>)
      ensures r == Active(activeNarrowings)
    {
      r := [];
      for k := 0 to |activeNarrowings|
        invariant r == Active(activeNarrowings[..k])
      {
        var fact := activeNarrowings[k];
        assert activeNarrowings[..k + 1][..k] == activeNarrowings[..k];
        if fact.narrowedType.Some? {
          r := r + [Narrowing(fact.resolvedName, fact.narrowedType.value)];
        }
      }
      assert activeNarrowings[..|activeNarrowings|] == activeNarrowings;
    }

    method Clear()
      modifies this
      ensures activeNarrowings == []
    {
      activeNarrowings := [];
    }

    method AppendNarrowings(ns: seq<Narrowing>)
      modifies this
      ensures activeNarrowings == Pushed(old(activeNarrowings), ns)
    {
      for k := 0 to |ns|
        invariant activeNarrowings == Pushed(old(activeNarrowings), ns[..k])
      {
        activeNarrowings := activeNarrowings + [ActiveFact(ns[k].resolvedName, Some(ns[k].narrowedType))];
      }
      assert ns[..|ns|] == ns;
    }

    method Invalidate(variable: string)
      modifies this
      ensures activeNarrowings == Invalidated(old(activeNarrowings), variable)
    {
      hide Depends;
      for k := 0 to |activeNarrowings|
        invariant |activeNarrowings| == |old(activeNarrowings)|
        invariant forall i :: k <= i < |activeNarrowings| ==> activeNarrowings[i] == old(activeNarrowings)[i]
        invariant forall i :: 0 <= i < k ==> activeNarrowings[i] == Invalidated(old(activeNarrowings), variable)[i]
      {
        if Depends(activeNarrowings[k].resolvedName, variable) {
          activeNarrowings := activeNarrowings[k := activeNarrowings[k].(narrowedType := None)];
        }
      }
    }

    method InvalidateAll()
      modifies this
      ensures activeNarrowings == AllInvalidated(old(activeNarrowings))
    {
      for k := 0 to |activeNarrowings|
        invariant |activeNarrowings| == |old(activeNarrowings)|
        invariant forall i :: k <= i < |activeNarrowings| ==> activeNarrowings[i] == old(activeNarrowings)[i]
        invariant forall i :: 0 <= i < k ==> activeNarrowings[i] == Lost(old(activeNarrowings)[i])
      {
        activeNarrowings := activeNarrowings[k := activeNarrowings[k].(narrowedType := None)];
      }
    }
  }

  // Facts as values.

  lemma PushedTrue(s: Store, facts: seq<ActiveFact>, ns: seq<Narrowing>)
    requires AllTrue(s, facts) && AllNonNil(s, ns)
    ensures AllTrue(s, Pushed(facts, ns))
  {
    hide NonNil;
    var r := Pushed(facts, ns);
    forall i | 0 <= i < |r| && r[i].narrowedType.Some? ensures NonNil(s, r[i].resolvedName) {
      if i < |facts| {
        assert r[..|facts|][i] == facts[i];
      } else {
        assert ns[i - |facts|] in ns;
        assert r[|facts| + (i - |facts|)] == ActiveFact(ns[i - |facts|].resolvedName, Some(ns[i - |facts|].narrowedType));
      }
    }
  }

  lemma StillTrue(s: Store, variable: string, v: Value, facts: seq<ActiveFact>)
    requires AllTrue(s, facts)
    ensures AllTrue(Assigned(s, variable, v), Invalidated(facts, variable))
  {
    hide NonNil, Depends;
    var after := Invalidated(facts, variable);
    forall i | 0 <= i < |after| && after[i].narrowedType.Some? ensures NonNil(Assigned(s, variable, v), after[i].resolvedName) {
      AssignmentKeeps(s, variable, v, after[i].resolvedName);
    }
  }

  lemma NoneLeft(s: Store, facts: seq<ActiveFact>)
    ensures AllTrue(s, AllInvalidated(facts))
  {
  }

  /** No fact of `facts` mentions the variable: assigning it changes none of them. */
  lemma FreshKeeps(s: Store, variable: string, v: Value, facts: seq<ActiveFact>)
    requires AllTrue(s, facts)
    requires forall i :: 0 <= i < |facts| && facts[i].narrowedType.Some? ==> !Depends(facts[i].resolvedName, variable)
    ensures AllTrue(Assigned(s, variable, v), facts)
  {
    hide NonNil, Depends;
    forall i | 0 <= i < |facts| && facts[i].narrowedType.Some? ensures NonNil(Assigned(s, variable, v), facts[i].resolvedName) {
      AssignmentKeeps(s, variable, v, facts[i].resolvedName);
    }
  }

  // ------------------------------------------------------ what facts say about each other

  ghost predicate NameRightFor(name: string) {
    exists p :: PathRight(p) && FactName(p) == name
  }

  /** All live facts are about paths. */
  ghost predicate NamesRight(facts: seq<ActiveFact>) {
    forall i :: 0 <= i < |facts| && facts[i].narrowedType.Some? ==> NameRightFor(facts[i].resolvedName)
  }

  /** Every path holds its own name, but the one of this name holds nil. */
  function NilAt(name: string): Store {
    Store(
      (x: string) => NamedValue(name, x),
      (v: Value, member: string) => if v.Text? then NamedValue(name, v.s + ['.'] + member) else Bool(true),
      (v: Value, k: Value) => if v.Text? && k.Text? then NamedValue(name, v.s + ['['] + (k.s + [']'])) else Bool(true),
      (text: string) => Text(text))
  }

  function NamedValue(name: string, text: string): Value {
    if text == name then Nil else Text(text)
  }

  lemma {:induction false} ShorterNamed(name: string, p: Path)
    requires |FactName(p)| < |name|
    ensures PathValue(NilAt(name), p) == Text(FactName(p))
    decreases p
  {
    if !p.Variable? {
      ShorterNamed(name, p.parent);
    }
  }

  lemma NilAtTarget(p: Path)
    ensures PathValue(NilAt(FactName(p)), p) == Nil
  {
    if !p.Variable? {
      ShorterNamed(FactName(p), p.parent);
    }
  }

  /** No other path holds nil. */
  lemma {:induction false} NilOnlyAt(name: string, p: Path)
    ensures PathValue(NilAt(name), p).Text? ==> PathValue(NilAt(name), p).s == FactName(p)
    ensures PathValue(NilAt(name), p) == Nil ==> FactName(p) == name
    decreases p
  {
    if !p.Variable? {
      NilOnlyAt(name, p.parent);
    }
  }

  /** Facts follow from other facts in every store exactly when they are among them. */
  lemma FollowsExactly(a: seq<ActiveFact>, b: seq<ActiveFact>)
    requires NamesRight(a)
    ensures (forall s :: AllTrue(s, b) ==> AllTrue(s, a)) <==> Within(a, b)
  {
    hide NonNil, PathRight;
    if Within(a, b) {
      forall s | AllTrue(s, b) ensures AllTrue(s, a) {
        WithinTrue(s, a, b);
      }
    } else {
      var i :| 0 <= i < |a| && a[i].narrowedType.Some? && !Live(b, a[i].resolvedName);
      NilRefutes(a, b, i);
    }
  }

  lemma NilRefutes(a: seq<ActiveFact>, b: seq<ActiveFact>, i: nat)
    requires NamesRight(a) && i < |a| && a[i].narrowedType.Some? && !Live(b, a[i].resolvedName)
    ensures AllTrue(NilAt(a[i].resolvedName), b) && !AllTrue(NilAt(a[i].resolvedName), a)
  {
    var name := a[i].resolvedName;
    var target :| PathRight(target) && FactName(target) == name;
    NilAtTarget(target);
    assert !NonNil(NilAt(name), name);
    forall j | 0 <= j < |b| && b[j].narrowedType.Some? ensures NonNil(NilAt(name), b[j].resolvedName) {
      forall p | PathRight(p) && FactName(p) == b[j].resolvedName ensures PathValue(NilAt(name), p) != Nil {
        NilOnlyAt(name, p);
      }
    }
  }
}
