/** Declarations, lexical resolution and capture analysis.

    The collector works with stacks of scopes, functions and loops.  It is proved against
    textbook lexical scoping: an environment passed down, an owner for every declaration,
    and for every use the nest of functions around it.
 */
module DeclarationIndex {
  import opened Wrappers

  datatype DeclarationKind =
    | ModuleName | Variable | FunctionName | Parameter | ForInVariable | Struct | Enum | Method | NamespaceAlias

  predicate IsValueDeclaration(kind: DeclarationKind) {
    kind == Variable || kind == FunctionName || kind == Parameter || kind == ForInVariable
  }

  /** What the traversal of a program does, in order: a function's parameters are declarations at the start of its body. */
  datatype Node =
    | Declare(name: string, kind: DeclarationKind, addToScope: bool)
    | Reference(name: string)
    | ScopeOf(body: Nodes)
    | FunctionOf(body: Nodes)
    | LoopOf(body: Nodes)
    | LeaveLoop

  datatype Nodes = Empty | Cons(head: Node, tail: Nodes)

  datatype Units = NoUnits | Unit(nodes: Nodes, rest: Units)

  // -------------------------------------------------------- the reference: lexical scoping

  /** A use of a declaration, with the functions around it, outermost first. */
  datatype Use = Use(functions: seq<nat>, declaration: nat)

  /** `owners` and `kinds` are indexed by declaration: the innermost function around it, and its kind. */
  datatype Facts = Facts(
    env: map<string, nat>, owners: seq<Option<nat>>, kinds: seq<DeclarationKind>, uses: seq<Use>,
    targets: seq<Option<nat>>, functionCount: nat, loopCount: nat)

  function Last(s: seq<nat>): Option<nat> {
    if s == [] then None else Some(s[|s| - 1])
  }

  function Lexical(nodes: Nodes, f: Facts, functions: seq<nat>, loop: Option<nat>): Facts
    decreases nodes, 1
  {
    match nodes
    case Empty => f
    case Cons(node, rest) => Lexical(rest, LexicalNode(node, f, functions, loop), functions, loop)
  }

  function LexicalNode(node: Node, f: Facts, functions: seq<nat>, loop: Option<nat>): Facts
    decreases node, 0
  {
    match node
    case Declare(name, kind, addToScope) => Declared(f, name, kind, addToScope, functions)
    case Reference(name) => Referenced(f, name, functions)
    case ScopeOf(body) => Lexical(body, f, functions, loop).(env := f.env)
    case FunctionOf(body) =>
      Lexical(body, f.(functionCount := f.functionCount + 1), functions + [f.functionCount], None).(env := f.env)
    case LoopOf(body) => Lexical(body, f.(loopCount := f.loopCount + 1), functions, Some(f.loopCount))
    case LeaveLoop => f.(targets := f.targets + [loop])
  }

  function Declared(f: Facts, name: string, kind: DeclarationKind, addToScope: bool, functions: seq<nat>): Facts {
    f.(owners := f.owners + [Last(functions)], kinds := f.kinds + [kind],
       env := if addToScope && name != "" then f.env[name := |f.owners|] else f.env)
  }

  function Referenced(f: Facts, name: string, functions: seq<nat>): Facts {
    if name in f.env && f.env[name] < |f.kinds| && IsValueDeclaration(f.kinds[f.env[name]])
    then f.(uses := f.uses + [Use(functions, f.env[name])])
    else f
  }

  function LexicalUnits(units: Units, f: Facts): Facts {
    match units
    case NoUnits => f
    case Unit(nodes, rest) => LexicalUnits(rest, Lexical(nodes, f, [], None).(env := map[]))
  }

  const NOTHING := Facts(map[], [], [], [], [], 0, 0)

  /** The use sits in a function nested inside the declaration's owner. */
  predicate Capturing(u: Use, owners: seq<Option<nat>>) {
    && u.declaration < |owners| && owners[u.declaration].Some?
    && u.functions != [] && owners[u.declaration].value in u.functions[..|u.functions| - 1]
  }

  // ------------------------------------------------------------------ the collector's state

  datatype ScopeRecord = ScopeRecord(parent: Option<nat>, declarations: map<string, nat>)

  datatype DeclarationRecord = DeclarationRecord(name: string, kind: DeclarationKind, scopeId: nat, functionLocal: bool)

  datatype FunctionContext = FunctionContext(id: nat, scopeId: nat, captures: seq<nat>, enclosingLoops: seq<nat>)

  datatype State = State(
    scopes: seq<ScopeRecord>, declarations: seq<DeclarationRecord>, captures: map<nat, seq<nat>>,
    targets: seq<Option<nat>>, scopeStack: seq<nat>, functionStack: seq<FunctionContext>, loopStack: seq<nat>,
    functionCount: nat, loopCount: nat)

  /** The innermost scope of the stack that declares the name decides. */
  function Lookup(scopes: seq<ScopeRecord>, stack: seq<nat>, name: string): Option<nat>
    requires forall i :: 0 <= i < |stack| ==> stack[i] < |scopes|
  {
    if stack == [] then None
    else
      var top := scopes[stack[|stack| - 1]].declarations;
      if name in top then Some(top[name]) else Lookup(scopes, stack[..|stack| - 1], name)
  }

  /** The innermost function whose scope is not below `scope`. */
  function OwnerAt(functions: seq<FunctionContext>, scope: nat): Option<nat> {
    if functions == [] then None
    else if functions[|functions| - 1].scopeId <= scope then Some(functions[|functions| - 1].id)
    else OwnerAt(functions[..|functions| - 1], scope)
  }

  function ParentOf(stack: seq<nat>, i: nat): Option<nat>
    requires i < |stack|
  {
    if i == 0 then None else Some(stack[i - 1])
  }

  /** The scopes of the stack are linked by their parents and were opened in order. */
  ghost predicate StackRight(s: State) {
    && (forall i :: 0 <= i < |s.scopeStack| ==> s.scopeStack[i] < |s.scopes|)
    && (forall i: nat :: i < |s.scopeStack| ==> Linked(s, i))
    && Ascending(s.scopeStack)
    && ParentsBelow(s.scopes)
  }

  /** The parent of a scope on the stack is the one below it. */
  ghost predicate Linked(s: State, i: nat)
    requires i < |s.scopeStack|
  {
    s.scopeStack[i] < |s.scopes| && s.scopes[s.scopeStack[i]].parent == ParentOf(s.scopeStack, i)
  }

  /** Every scope was opened after its parent. */
  predicate ParentsBelow(scopes: seq<ScopeRecord>) {
    forall i :: 0 <= i < |scopes| && scopes[i].parent.Some? ==> scopes[i].parent.value < i
  }

  /** Following the parents from a scope leads to the ancestor. */
  predicate Within(scopes: seq<ScopeRecord>, ancestor: nat, scope: nat)
    requires ParentsBelow(scopes)
    decreases scope
  {
    || scope == ancestor
    || (scope < |scopes| && scopes[scope].parent.Some? && Within(scopes, ancestor, scopes[scope].parent.value))
  }

  predicate Ascending(stack: seq<nat>) {
    forall i, j :: 0 <= i < j < |stack| ==> stack[i] < stack[j]
  }

  /** The active functions, their scopes on the scope stack. */
  ghost predicate FunctionsRight(s: State, functions: seq<nat>) {
    && |s.functionStack| == |functions|
    && (forall k :: 0 <= k < |functions| ==>
         && s.functionStack[k].id == functions[k] < s.functionCount
         && s.functionStack[k].scopeId in s.scopeStack && functions[k] !in s.captures)
    && (forall j, k :: 0 <= j < k < |functions| ==>
         functions[j] < functions[k] && s.functionStack[j].scopeId < s.functionStack[k].scopeId)
    && (forall g :: g in s.captures ==> g < s.functionCount)
  }

  /** The declarations agree with the reference, and those in sight with the function stack. */
  ghost predicate DeclarationsRight(s: State, f: Facts) {
    && |s.declarations| == |f.owners| == |f.kinds|
    && forall d :: 0 <= d < |s.declarations| ==>
         && s.declarations[d].kind == f.kinds[d]
         && s.declarations[d].functionLocal == f.owners[d].Some?
         && s.declarations[d].scopeId < |s.scopes|
         && (s.declarations[d].scopeId in s.scopeStack ==>
              f.owners[d] == OwnerAt(s.functionStack, s.declarations[d].scopeId))
  }

  ghost predicate ScopesRight(s: State) {
    forall i, name :: 0 <= i < |s.scopes| && name in s.scopes[i].declarations ==>
      var d := s.scopes[i].declarations[name];
      d < |s.declarations| && s.declarations[d].scopeId == i
  }

  ghost predicate EnvRight(s: State, env: map<string, nat>)
    requires StackRight(s)
  {
    forall name :: Lookup(s.scopes, s.scopeStack, name) == if name in env then Some(env[name]) else None
  }

  /** What function `g` has captured so far. */
  predicate CapturedBy(s: State, g: nat, d: nat) {
    || (g in s.captures && d in s.captures[g])
    || (exists k :: 0 <= k < |s.functionStack| && s.functionStack[k].id == g && d in s.functionStack[k].captures)
  }

  ghost predicate UsesRight(f: Facts) {
    forall u :: u in f.uses ==>
      && u.declaration < |f.owners|
      && (f.owners[u.declaration].Some? ==> f.owners[u.declaration].value in u.functions)
      && (forall g :: g in u.functions ==> g < f.functionCount)
      && forall i, j :: 0 <= i < j < |u.functions| ==> u.functions[i] < u.functions[j]
  }

  ghost predicate CaptureDue(f: Facts, g: nat, d: nat) {
    exists u :: u in f.uses && u.declaration == d && Last(u.functions) == Some(g) && Capturing(u, f.owners)
  }

  ghost predicate CapturesRight(s: State, f: Facts) {
    forall g, d :: CapturedBy(s, g, d) <==> CaptureDue(f, g, d)
  }

  /** The collector's state agrees with the reference. */
  ghost predicate Follows(s: State, f: Facts, functions: seq<nat>, loop: Option<nat>) {
    && StackRight(s) && FunctionsRight(s, functions) && DeclarationsRight(s, f) && ScopesRight(s)
    && EnvRight(s, f.env) && UsesRight(f) && CapturesRight(s, f)
    && s.targets == f.targets && Last(s.loopStack) == loop
    && s.functionCount == f.functionCount && s.loopCount == f.loopCount
  }

  // ---------------------------------------------------------------------- transitions

  function Opened(s: State): State {
    s.(scopes := s.scopes + [ScopeRecord(Last(s.scopeStack), map[])], scopeStack := s.scopeStack + [|s.scopes|])
  }

  function Closed(s: State): State
    requires s.scopeStack != []
  {
    s.(scopeStack := s.scopeStack[..|s.scopeStack| - 1])
  }

  function Began(s: State): State
    requires s.scopeStack != []
  {
    var context := FunctionContext(s.functionCount, s.scopeStack[|s.scopeStack| - 1], [], s.loopStack);
    s.(functionStack := s.functionStack + [context], loopStack := [], functionCount := s.functionCount + 1)
  }

  function Ended(s: State): State
    requires s.functionStack != []
  {
    var context := s.functionStack[|s.functionStack| - 1];
    s.(functionStack := s.functionStack[..|s.functionStack| - 1], captures := s.captures[context.id := context.captures],
       loopStack := context.enclosingLoops)
  }

  function Added(s: State, name: string, kind: DeclarationKind, addToScope: bool): State
    requires s.scopeStack != [] && s.scopeStack[|s.scopeStack| - 1] < |s.scopes|
  {
    var top, d := s.scopeStack[|s.scopeStack| - 1], |s.declarations|;
    s.(declarations := s.declarations + [DeclarationRecord(name, kind, top, s.functionStack != [])],
       scopes := if addToScope && name != "" then
                   s.scopes[top := s.scopes[top].(declarations := s.scopes[top].declarations[name := d])]
                 else s.scopes)
  }

  function CaptureAdded(s: State, d: nat): State
    requires s.functionStack != []
  {
    var last := |s.functionStack| - 1;
    var context := s.functionStack[last];
    if d in context.captures then s
    else s.(functionStack := s.functionStack[last := context.(captures := context.captures + [d])])
  }

  /** What a stretch of the traversal leaves as it was: everything outside the innermost scope. */
  ghost predicate Keeps(s: State, t: State) {
    && t.scopeStack == s.scopeStack && t.loopStack == s.loopStack && |s.scopes| <= |t.scopes|
    && (forall i :: 0 <= i < |s.scopes| && Some(i) != Last(s.scopeStack) ==> t.scopes[i] == s.scopes[i])
    && |t.functionStack| == |s.functionStack|
    && forall k :: 0 <= k < |s.functionStack| ==>
         t.functionStack[k] == s.functionStack[k].(captures := t.functionStack[k].captures)
  }

  lemma KeepsTrans(a: State, b: State, c: State)
    requires Keeps(a, b) && Keeps(b, c)
    ensures Keeps(a, c)
  {
  }

  lemma {:induction false} LookupFrame(a: seq<ScopeRecord>, b: seq<ScopeRecord>, stack: seq<nat>, name: string)
    requires forall i :: 0 <= i < |stack| ==> stack[i] < |a| && stack[i] < |b| && a[stack[i]] == b[stack[i]]
    ensures Lookup(a, stack, name) == Lookup(b, stack, name)
    decreases |stack|
  {
    if stack != [] {
      LookupFrame(a, b, stack[..|stack| - 1], name);
    }
  }

  lemma {:induction false} LookupFound(scopes: seq<ScopeRecord>, stack: seq<nat>, name: string) returns (i: nat)
    requires forall i :: 0 <= i < |stack| ==> stack[i] < |scopes|
    requires Lookup(scopes, stack, name).Some?
    ensures i < |stack| && name in scopes[stack[i]].declarations
    ensures scopes[stack[i]].declarations[name] == Lookup(scopes, stack, name).value
    decreases |stack|
  {
    i := |stack| - 1;
    if name !in scopes[stack[i]].declarations {
      i := LookupFound(scopes, stack[..i], name);
    }
  }

  /** The owner is the last function opened at or before the scope. */
  lemma {:induction false} OwnerAtIs(functions: seq<FunctionContext>, scope: nat) returns (k: int)
    ensures -1 <= k < |functions|
    ensures OwnerAt(functions, scope) == if k < 0 then None else Some(functions[k].id)
    ensures k >= 0 ==> functions[k].scopeId <= scope
    ensures forall j :: k < j < |functions| ==> functions[j].scopeId > scope
    decreases |functions|
  {
    k := |functions| - 1;
    if functions != [] && functions[k].scopeId > scope {
      var front := functions[..k];
      k := OwnerAtIs(front, scope);
    }
  }

  /** Captures do not matter to ownership. */
  lemma {:induction false} OwnerAtFrame(a: seq<FunctionContext>, b: seq<FunctionContext>, scope: nat)
    requires |a| == |b| && forall k :: 0 <= k < |a| ==> a[k].id == b[k].id && a[k].scopeId == b[k].scopeId
    ensures OwnerAt(a, scope) == OwnerAt(b, scope)
    decreases |a|
  {
    if a != [] {
      OwnerAtFrame(a[..|a| - 1], b[..|b| - 1], scope);
    }
  }

  // --- opening a scope

  lemma OpenStack(s: State)
    requires StackRight(s)
    ensures StackRight(Opened(s))
  {
    hide Ascending, ParentsBelow, Linked, Opened;
    OpenParents(s);
    OpenAscending(s);
    OpenLength(s);
    forall i: nat | i < |Opened(s).scopeStack| ensures Linked(Opened(s), i) {
      OpenLinked(s, i);
    }
  }

  lemma OpenLength(s: State)
    ensures |Opened(s).scopeStack| == |s.scopeStack| + 1
  {
  }

  lemma OpenLinked(s: State, i: nat)
    requires i <= |s.scopeStack| && (i < |s.scopeStack| ==> Linked(s, i))
    requires s.scopeStack != [] ==> Linked(s, |s.scopeStack| - 1)
    ensures Linked(Opened(s), i)
  {
  }

  lemma OpenParents(s: State)
    requires ParentsBelow(s.scopes) && (s.scopeStack != [] ==> Linked(s, |s.scopeStack| - 1))
    ensures ParentsBelow(Opened(s).scopes)
  {
  }

  lemma OpenAscending(s: State)
    requires Ascending(s.scopeStack) && forall i :: 0 <= i < |s.scopeStack| ==> s.scopeStack[i] < |s.scopes|
    ensures Ascending(Opened(s).scopeStack)
    ensures forall i :: 0 <= i < |Opened(s).scopeStack| ==> Opened(s).scopeStack[i] < |Opened(s).scopes|
  {
    hide Ascending;
    AscendingMore(s.scopeStack, |s.scopes|);
  }

  lemma AscendingMore(stack: seq<nat>, x: nat)
    requires Ascending(stack) && forall i :: 0 <= i < |stack| ==> stack[i] < x
    ensures Ascending(stack + [x])
  {
  }

  lemma AscendingPrefix(stack: seq<nat>, n: nat)
    requires Ascending(stack) && n <= |stack|
    ensures Ascending(stack[..n])
  {
  }

  /** The lower part of a stack is a stack. */
  lemma PrefixStack(t: State, u: State)
    requires StackRight(t) && u.scopes == t.scopes && u.scopeStack <= t.scopeStack
    ensures StackRight(u)
  {
    AscendingPrefix(t.scopeStack, |u.scopeStack|);
    assert u.scopeStack == t.scopeStack[..|u.scopeStack|];
    hide Ascending;
    forall i | 0 <= i < |u.scopeStack|
      ensures u.scopeStack[i] < |u.scopes| && u.scopes[u.scopeStack[i]].parent == ParentOf(u.scopeStack, i)
    {
      StackLinked(t, i);
    }
  }

  /** The scopes on the stack being the same, so is every lookup. */
  lemma SameEnv(s: State, u: State, env: map<string, nat>)
    requires StackRight(s) && StackRight(u) && EnvRight(s, env) && u.scopeStack == s.scopeStack
    requires forall i :: 0 <= i < |s.scopes| ==> i < |u.scopes| && (i in s.scopeStack ==> u.scopes[i] == s.scopes[i])
    ensures EnvRight(u, env)
  {
    hide StackRight, Lookup;
    StackInside(s);
    StackInside(u);
    forall name ensures Lookup(u.scopes, u.scopeStack, name) == Lookup(s.scopes, s.scopeStack, name) {
      LookupFrame(s.scopes, u.scopes, s.scopeStack, name);
    }
  }

  lemma OpenEnv(s: State, env: map<string, nat>)
    requires StackRight(s) && EnvRight(s, env)
    ensures StackRight(Opened(s)) && EnvRight(Opened(s), env)
  {
    hide Lookup, StackRight;
    var t := Opened(s);
    OpenStack(s);
    StackInside(s);
    StackInside(t);
    forall name ensures Lookup(t.scopes, t.scopeStack, name) == Lookup(s.scopes, s.scopeStack, name) {
      LookupTop(t.scopes, t.scopeStack, name);
      assert t.scopeStack[..|t.scopeStack| - 1] == s.scopeStack;
      LookupFrame(s.scopes, t.scopes, s.scopeStack, name);
    }
  }

  lemma OpenFollows(s: State, f: Facts, functions: seq<nat>, loop: Option<nat>)
    requires Follows(s, f, functions, loop)
    ensures Follows(Opened(s), f, functions, loop)
  {
    hide EnvRight, CaptureDue, UsesRight, OwnerAt, CapturedBy;
    OpenEnv(s, f.env);
    assert forall g, d :: CapturedBy(Opened(s), g, d) == CapturedBy(s, g, d) by {
      OpenCaptures(s);
    }
  }

  lemma OpenCaptures(s: State)
    ensures forall g, d :: CapturedBy(Opened(s), g, d) == CapturedBy(s, g, d)
  {
  }

  // --- beginning a function in a fresh scope

  /** The innermost scope declares nothing yet and belongs to no function. */
  ghost predicate FreshTop(s: State) {
    && s.scopeStack != []
    && var top := s.scopeStack[|s.scopeStack| - 1];
       && (forall d :: 0 <= d < |s.declarations| ==> s.declarations[d].scopeId != top)
       && forall k :: 0 <= k < |s.functionStack| ==> s.functionStack[k].scopeId < top
  }

  lemma OpenedFresh(s: State, f: Facts, functions: seq<nat>, loop: Option<nat>)
    requires Follows(s, f, functions, loop)
    ensures FreshTop(Opened(s))
  {
    hide EnvRight, CapturesRight, UsesRight, OwnerAt;
  }

  lemma BelowTop(s: State, d: nat)
    requires StackRight(s) && FreshTop(s) && d < |s.declarations| && s.declarations[d].scopeId in s.scopeStack
    ensures s.declarations[d].scopeId < s.scopeStack[|s.scopeStack| - 1]
  {
    hide StackRight;
    var i: nat :| i < |s.scopeStack| && s.scopeStack[i] == s.declarations[d].scopeId;
    StackAscends(s, i, |s.scopeStack| - 1);
  }

  lemma OwnerKept(s: State, scope: nat)
    requires s.scopeStack != [] && scope < s.scopeStack[|s.scopeStack| - 1]
    ensures OwnerAt(Began(s).functionStack, scope) == OwnerAt(s.functionStack, scope)
  {
    var stack := Began(s).functionStack;
    assert stack[..|stack| - 1] == s.functionStack;
  }

  lemma BeginDeclarations(s: State, f: Facts)
    requires DeclarationsRight(s, f) && StackRight(s) && FreshTop(s)
    ensures DeclarationsRight(Began(s), f.(functionCount := f.functionCount + 1))
  {
    hide StackRight, FreshTop, OwnerAt;
    ScopeOpen(s);
    forall d | 0 <= d < |s.declarations| && s.declarations[d].scopeId in s.scopeStack
      ensures OwnerAt(Began(s).functionStack, s.declarations[d].scopeId)
           == OwnerAt(s.functionStack, s.declarations[d].scopeId)
    {
      BelowTop(s, d);
      OwnerKept(s, s.declarations[d].scopeId);
    }
  }

  lemma ScopeOpen(s: State)
    requires FreshTop(s)
    ensures s.scopeStack != []
  {
  }

  lemma BeginCaptures(s: State, f: Facts)
    requires CapturesRight(s, f) && s.scopeStack != []
    ensures CapturesRight(Began(s), f.(functionCount := f.functionCount + 1))
  {
    var t, h := Began(s), f.(functionCount := f.functionCount + 1);
    forall g, d ensures CapturedBy(t, g, d) == CapturedBy(s, g, d) {
      if CapturedBy(t, g, d) && !(g in s.captures && d in s.captures[g]) {
        var k :| 0 <= k < |t.functionStack| && t.functionStack[k].id == g && d in t.functionStack[k].captures;
        assert s.functionStack[k].id == g;
      }
      if CapturedBy(s, g, d) && !(g in s.captures && d in s.captures[g]) {
        var k :| 0 <= k < |s.functionStack| && s.functionStack[k].id == g && d in s.functionStack[k].captures;
        assert t.functionStack[k].id == g;
      }
    }
    forall g, d ensures CaptureDue(h, g, d) == CaptureDue(f, g, d) {
    }
  }

  lemma BeginFollows(s: State, f: Facts, functions: seq<nat>, loop: Option<nat>)
    requires Follows(s, f, functions, loop) && FreshTop(s)
    ensures Follows(Began(s), f.(functionCount := f.functionCount + 1), functions + [f.functionCount], None)
  {
    hide EnvRight, DeclarationsRight, CapturesRight;
    BeginDeclarations(s, f);
    BeginCaptures(s, f);
    BeganEnv(s, f.env);
  }

  lemma BeganEnv(s: State, env: map<string, nat>)
    requires StackRight(s) && EnvRight(s, env) && s.scopeStack != []
    ensures StackRight(Began(s)) && EnvRight(Began(s), env)
  {
    hide StackRight, EnvRight;
    PrefixStack(s, Began(s));
    SameEnv(s, Began(s), env);
  }

  // --- leaving a scope

  lemma CloseEnv(s: State, t: State, env: map<string, nat>)
    requires StackRight(s) && EnvRight(s, env) && StackRight(t) && Keeps(Opened(s), t)
    ensures StackRight(Closed(t)) && EnvRight(Closed(t), env)
  {
    hide StackRight, EnvRight;
    assert Closed(t).scopeStack == s.scopeStack;
    PrefixStack(t, Closed(t));
    SameEnv(s, Closed(t), env);
  }

  lemma CloseKeeps(s: State, t: State)
    requires StackRight(s) && Keeps(Opened(s), t)
    ensures Keeps(s, Closed(t))
  {
    assert Closed(t).scopeStack == s.scopeStack;
  }

  lemma CloseFunctions(s: State, t: State, functions: seq<nat>)
    requires FunctionsRight(s, functions) && FunctionsRight(t, functions) && Keeps(Opened(s), t)
    ensures FunctionsRight(Closed(t), functions)
  {
    assert Closed(t).scopeStack == s.scopeStack;
  }

  lemma CloseDeclarations(s: State, t: State, g: Facts, env: map<string, nat>)
    requires DeclarationsRight(t, g) && Keeps(Opened(s), t)
    ensures DeclarationsRight(Closed(t), g.(env := env))
  {
    hide OwnerAt;
    assert Closed(t).scopeStack == s.scopeStack;
  }

  lemma CloseScopes(t: State)
    requires ScopesRight(t) && t.scopeStack != []
    ensures ScopesRight(Closed(t))
  {
  }

  lemma CloseFollows(s: State, t: State, f: Facts, g: Facts, functions: seq<nat>, loop: Option<nat>)
    requires Follows(s, f, functions, loop) && Follows(t, g, functions, loop) && Keeps(Opened(s), t)
    ensures Follows(Closed(t), g.(env := f.env), functions, loop) && Keeps(s, Closed(t))
  {
    hide EnvRight, CapturesRight, UsesRight, DeclarationsRight, FunctionsRight, ScopesRight, StackRight, OwnerAt;
    CloseEnv(s, t, f.env);
    CloseKeeps(s, t);
    CloseCaptures(t, g, f.env);
    CloseFunctions(s, t, functions);
    CloseDeclarations(s, t, g, f.env);
    CloseScopes(t);
    SameUses(g, f.env);
  }

  lemma CloseCaptures(t: State, g: Facts, env: map<string, nat>)
    requires CapturesRight(t, g) && t.scopeStack != []
    ensures CapturesRight(Closed(t), g.(env := env))
  {
    forall h, d ensures CaptureDue(g.(env := env), h, d) == CaptureDue(g, h, d) {
    }
    forall h, d ensures CapturedBy(Closed(t), h, d) == CapturedBy(t, h, d) {
    }
  }

  lemma SameUses(g: Facts, env: map<string, nat>)
    requires UsesRight(g)
    ensures UsesRight(g.(env := env))
  {
  }

  // --- leaving a function

  lemma EndFunctions(s: State, t: State, functions: seq<nat>, id: nat)
    requires FunctionsRight(s, functions) && FunctionsRight(t, functions + [id]) && Keeps(Began(Opened(s)), t)
    ensures FunctionsRight(Closed(Ended(t)), functions)
  {
    var u := Closed(Ended(t));
    assert u.scopeStack == s.scopeStack;
    forall k | 0 <= k < |functions|
      ensures u.functionStack[k].id == functions[k] && u.functionStack[k].scopeId == s.functionStack[k].scopeId
      ensures functions[k] < id
    {
      assert (functions + [id])[k] == functions[k] && (functions + [id])[|functions|] == id;
      assert Began(Opened(s)).functionStack[k] == s.functionStack[k];
    }
  }

  lemma EndDeclarations(s: State, t: State, g: Facts, env: map<string, nat>)
    requires StackRight(s) && DeclarationsRight(t, g) && Keeps(Began(Opened(s)), t)
    ensures DeclarationsRight(Closed(Ended(t)), g.(env := env))
  {
    var u := Closed(Ended(t));
    assert u.scopeStack == s.scopeStack;
    var last := |t.functionStack| - 1;
    assert Began(Opened(s)).functionStack[last].scopeId == |s.scopes|;
    forall d | 0 <= d < |t.declarations| && t.declarations[d].scopeId in s.scopeStack
      ensures t.declarations[d].scopeId in t.scopeStack
      ensures OwnerAt(t.functionStack, t.declarations[d].scopeId) == OwnerAt(u.functionStack, t.declarations[d].scopeId)
    {
    }
  }

  lemma EndCaptures(t: State, g: Facts, functions: seq<nat>, env: map<string, nat>)
    requires CapturesRight(t, g) && FunctionsRight(t, functions) && functions != [] && t.scopeStack != []
    ensures CapturesRight(Closed(Ended(t)), g.(env := env))
  {
    var u := Closed(Ended(t));
    forall h, d ensures CaptureDue(g.(env := env), h, d) == CaptureDue(g, h, d) {
    }
    forall h, d ensures CapturedBy(u, h, d) == CapturedBy(t, h, d) {
      MovedCapture(t, functions, h, d);
    }
  }

  lemma MovedCapture(t: State, functions: seq<nat>, h: nat, d: nat)
    requires FunctionsRight(t, functions) && functions != [] && t.scopeStack != []
    ensures CapturedBy(Closed(Ended(t)), h, d) == CapturedBy(t, h, d)
  {
    var u, last := Closed(Ended(t)), |t.functionStack| - 1;
    if CapturedBy(t, h, d) && !(h in u.captures && d in u.captures[h]) {
      var k :| 0 <= k < |t.functionStack| && t.functionStack[k].id == h && d in t.functionStack[k].captures;
      assert u.functionStack[k] == t.functionStack[k];
    }
    if k :| 0 <= k < |u.functionStack| && u.functionStack[k].id == h && d in u.functionStack[k].captures {
      assert t.functionStack[k] == u.functionStack[k];
    }
    if h == t.functionStack[last].id && d in t.functionStack[last].captures {
      assert CapturedBy(t, h, d);
    }
  }

  lemma EndEnv(s: State, t: State, env: map<string, nat>)
    requires StackRight(s) && EnvRight(s, env) && StackRight(t) && Keeps(Began(Opened(s)), t)
    ensures StackRight(Closed(Ended(t))) && EnvRight(Closed(Ended(t)), env)
    ensures Closed(Ended(t)).scopeStack == s.scopeStack && Last(Closed(Ended(t)).loopStack) == Last(s.loopStack)
  {
    hide StackRight, EnvRight;
    var u := Closed(Ended(t));
    assert u.scopeStack == s.scopeStack;
    PrefixStack(t, u);
    SameEnv(s, u, env);
    var last := |t.functionStack| - 1;
    assert Began(Opened(s)).functionStack[last].enclosingLoops == s.loopStack;
  }

  lemma EndKeeps(s: State, t: State)
    requires StackRight(s) && Keeps(Began(Opened(s)), t)
    ensures Keeps(s, Closed(Ended(t)))
  {
    var u, b := Closed(Ended(t)), Began(Opened(s));
    assert u.scopeStack == s.scopeStack;
    assert b.functionStack[|s.functionStack|].enclosingLoops == s.loopStack;
    forall k | 0 <= k < |s.functionStack| ensures b.functionStack[k] == s.functionStack[k] {
    }
  }

  lemma EndFollows(s: State, t: State, f: Facts, g: Facts, functions: seq<nat>, loop: Option<nat>)
    requires Follows(s, f, functions, loop) && Follows(t, g, functions + [f.functionCount], None)
    requires Keeps(Began(Opened(s)), t)
    ensures Follows(Closed(Ended(t)), g.(env := f.env), functions, loop) && Keeps(s, Closed(Ended(t)))
  {
    hide EnvRight, CapturesRight, UsesRight, DeclarationsRight, FunctionsRight, OwnerAt;
    EndEnv(s, t, f.env);
    EndKeeps(s, t);
    EndCaptures(t, g, functions + [f.functionCount], f.env);
    EndDeclarations(s, t, g, f.env);
    EndFunctions(s, t, functions, f.functionCount);
    SameUses(g, f.env);
  }

  // --- declaring

  lemma StackTop(s: State, scope: nat)
    requires StackRight(s) && scope in s.scopeStack
    ensures scope <= s.scopeStack[|s.scopeStack| - 1]
  {
    hide ParentOf;
    var top := |s.scopeStack| - 1;
    var i :| 0 <= i <= top && s.scopeStack[i] == scope;
    if i < top {
      assert s.scopeStack[i] < s.scopeStack[top];
    }
  }

  lemma TopOwner(s: State, functions: seq<nat>)
    requires StackRight(s) && FunctionsRight(s, functions) && s.scopeStack != []
    ensures OwnerAt(s.functionStack, s.scopeStack[|s.scopeStack| - 1]) == Last(functions)
  {
    hide StackRight;
    if functions != [] {
      StackTop(s, s.functionStack[|functions| - 1].scopeId);
    }
  }

  lemma AddDeclarations(s: State, f: Facts, name: string, kind: DeclarationKind, addToScope: bool, functions: seq<nat>)
    requires StackRight(s) && FunctionsRight(s, functions) && DeclarationsRight(s, f) && s.scopeStack != []
    ensures s.scopeStack[|s.scopeStack| - 1] < |s.scopes|
    ensures DeclarationsRight(Added(s, name, kind, addToScope), Declared(f, name, kind, addToScope, functions))
  {
    hide OwnerAt, StackRight, FunctionsRight;
    StackInside(s);
    TopOwner(s, functions);
    FunctionLevels(s, functions);
  }

  lemma FunctionLevels(s: State, functions: seq<nat>)
    requires FunctionsRight(s, functions)
    ensures |s.functionStack| == |functions|
  {
  }

  lemma AddStack(s: State, name: string, kind: DeclarationKind, addToScope: bool)
    requires StackRight(s) && s.scopeStack != []
    ensures s.scopeStack[|s.scopeStack| - 1] < |s.scopes| && StackRight(Added(s, name, kind, addToScope))
  {
    hide Ascending;
    StackLinked(s, |s.scopeStack| - 1);
    var t := Added(s, name, kind, addToScope);
    forall i | 0 <= i < |t.scopeStack|
      ensures t.scopeStack[i] < |t.scopes| && t.scopes[t.scopeStack[i]].parent == ParentOf(t.scopeStack, i)
    {
      StackLinked(s, i);
    }
  }

  lemma AddScopes(s: State, name: string, kind: DeclarationKind, addToScope: bool)
    requires StackRight(s) && ScopesRight(s) && s.scopeStack != []
    ensures s.scopeStack[|s.scopeStack| - 1] < |s.scopes|
    ensures StackRight(Added(s, name, kind, addToScope)) && ScopesRight(Added(s, name, kind, addToScope))
  {
    hide StackRight;
    AddStack(s, name, kind, addToScope);
    var t := Added(s, name, kind, addToScope);
    forall i, n | 0 <= i < |t.scopes| && n in t.scopes[i].declarations
      ensures
        var d := t.scopes[i].declarations[n];
        d < |t.declarations| && t.declarations[d].scopeId == i
    {
      if n in s.scopes[i].declarations && t.scopes[i].declarations[n] == s.scopes[i].declarations[n] {
        var d := s.scopes[i].declarations[n];
        assert d < |s.declarations| && s.declarations[d].scopeId == i;
      }
    }
  }

  lemma LookupTop(scopes: seq<ScopeRecord>, stack: seq<nat>, name: string)
    requires stack != [] && forall i :: 0 <= i < |stack| ==> stack[i] < |scopes|
    ensures
      var top := scopes[stack[|stack| - 1]].declarations;
      Lookup(scopes, stack, name) == if name in top then Some(top[name]) else Lookup(scopes, stack[..|stack| - 1], name)
  {
  }

  lemma AddLookup(s: State, name: string, kind: DeclarationKind, addToScope: bool, n: string)
    requires s.scopeStack != [] && forall i :: 0 <= i < |s.scopeStack| ==> s.scopeStack[i] < |s.scopes|
    requires forall i :: 0 <= i < |s.scopeStack| - 1 ==> s.scopeStack[i] != s.scopeStack[|s.scopeStack| - 1]
    ensures
      var t := Added(s, name, kind, addToScope);
      && t.scopeStack == s.scopeStack && |t.scopes| == |s.scopes|
      && Lookup(t.scopes, t.scopeStack, n)
         == if addToScope && name != "" && n == name then Some(|s.declarations|) else Lookup(s.scopes, s.scopeStack, n)
  {
    hide Lookup;
    var t, last := Added(s, name, kind, addToScope), |s.scopeStack| - 1;
    LookupTop(s.scopes, s.scopeStack, n);
    LookupTop(t.scopes, t.scopeStack, n);
    LookupFrame(s.scopes, t.scopes, s.scopeStack[..last], n);
  }

  lemma AddEnv(s: State, env: map<string, nat>, name: string, kind: DeclarationKind, addToScope: bool)
    requires StackRight(s) && EnvRight(s, env) && s.scopeStack != [] && StackRight(Added(s, name, kind, addToScope))
    ensures EnvRight(Added(s, name, kind, addToScope),
                     if addToScope && name != "" then env[name := |s.declarations|] else env)
  {
    hide Added, Lookup, StackRight;
    StackInside(s);
    var t := Added(s, name, kind, addToScope);
    var after := if addToScope && name != "" then env[name := |s.declarations|] else env;
    StackInside(t);
    forall n ensures Lookup(t.scopes, t.scopeStack, n) == if n in after then Some(after[n]) else None {
      AddLookup(s, name, kind, addToScope, n);
    }
  }

  lemma StackInside(s: State)
    requires StackRight(s)
    ensures forall i :: 0 <= i < |s.scopeStack| - 1 ==> s.scopeStack[i] != s.scopeStack[|s.scopeStack| - 1]
    ensures forall i :: 0 <= i < |s.scopeStack| ==> s.scopeStack[i] < |s.scopes|
  {
  }

  lemma AddUses(s: State, f: Facts, name: string, kind: DeclarationKind, addToScope: bool, functions: seq<nat>)
    requires UsesRight(f) && CapturesRight(s, f) && s.scopeStack != [] && StackRight(s)
    ensures UsesRight(Declared(f, name, kind, addToScope, functions))
    ensures CapturesRight(Added(s, name, kind, addToScope), Declared(f, name, kind, addToScope, functions))
  {
    var t, h := Added(s, name, kind, addToScope), Declared(f, name, kind, addToScope, functions);
    forall g, d ensures CaptureDue(h, g, d) == CaptureDue(f, g, d) {
      forall u | u in f.uses ensures Capturing(u, h.owners) == Capturing(u, f.owners) {
      }
    }
    forall g, d ensures CapturedBy(t, g, d) == CapturedBy(s, g, d) {
    }
  }

  lemma AddFunctions(s: State, name: string, kind: DeclarationKind, addToScope: bool, functions: seq<nat>)
    requires StackRight(s) && FunctionsRight(s, functions) && s.scopeStack != []
    ensures s.scopeStack[|s.scopeStack| - 1] < |s.scopes|
    ensures FunctionsRight(Added(s, name, kind, addToScope), functions) && Keeps(s, Added(s, name, kind, addToScope))
  {
    hide StackRight;
    StackInside(s);
  }

  lemma AddFollows(
    s: State, f: Facts, name: string, kind: DeclarationKind, addToScope: bool, functions: seq<nat>, loop: Option<nat>
  )
    requires Follows(s, f, functions, loop) && s.scopeStack != []
    ensures s.scopeStack[|s.scopeStack| - 1] < |s.scopes|
    ensures Follows(Added(s, name, kind, addToScope), Declared(f, name, kind, addToScope, functions), functions, loop)
    ensures Keeps(s, Added(s, name, kind, addToScope))
  {
    hide EnvRight, CapturesRight, UsesRight, DeclarationsRight, ScopesRight, StackRight, FunctionsRight, OwnerAt;
    StackInside(s);
    AddDeclarations(s, f, name, kind, addToScope, functions);
    AddScopes(s, name, kind, addToScope);
    AddEnv(s, f.env, name, kind, addToScope);
    AddUses(s, f, name, kind, addToScope, functions);
    AddFunctions(s, name, kind, addToScope, functions);
    AddLength(s, f);
  }

  lemma AddLength(s: State, f: Facts)
    requires DeclarationsRight(s, f)
    ensures |s.declarations| == |f.owners| == |f.kinds|
  {
    hide OwnerAt;
  }

  // --- referring

  /** What the collector asks before it records a capture. */
  ghost predicate CaptureAsked(s: State, scope: nat) {
    && s.functionStack != []
    && s.functionStack[|s.functionStack| - 1].scopeId > scope
    && exists k :: 0 <= k < |s.functionStack| - 1 && s.functionStack[k].scopeId <= scope
  }

  lemma AskedIsDue(s: State, f: Facts, functions: seq<nat>, d: nat)
    requires FunctionsRight(s, functions) && d < |f.owners|
    requires d < |s.declarations| && f.owners[d] == OwnerAt(s.functionStack, s.declarations[d].scopeId)
    ensures CaptureAsked(s, s.declarations[d].scopeId) == Capturing(Use(functions, d), f.owners)
    ensures f.owners[d].Some? ==> f.owners[d].value in functions
  {
    var scope, last := s.declarations[d].scopeId, |s.functionStack| - 1;
    var k := OwnerAtIs(s.functionStack, scope);
    if 0 <= k < last {
      assert functions[..last][k] == functions[k];
    }
    if Capturing(Use(functions, d), f.owners) {
      var j :| 0 <= j < last && functions[..last][j] == functions[k];
      assert j == k;
    }
    if k >= 0 {
      assert functions[k] in functions;
    }
  }

  lemma InSight(s: State, f: Facts, name: string)
    requires StackRight(s) && ScopesRight(s) && EnvRight(s, f.env) && DeclarationsRight(s, f) && name in f.env
    ensures f.env[name] < |f.owners|
    ensures s.declarations[f.env[name]].scopeId in s.scopeStack
    ensures f.owners[f.env[name]] == OwnerAt(s.functionStack, s.declarations[f.env[name]].scopeId)
  {
    hide OwnerAt;
    assert Lookup(s.scopes, s.scopeStack, name) == Some(f.env[name]);
    var i := LookupFound(s.scopes, s.scopeStack, name);
  }

  lemma CapturedMore(s: State, functions: seq<nat>, d: nat, g: nat, e: nat)
    requires FunctionsRight(s, functions) && functions != []
    ensures CapturedBy(CaptureAdded(s, d), g, e) == (CapturedBy(s, g, e) || (Some(g) == Last(functions) && e == d))
  {
    var t, last := CaptureAdded(s, d), |functions| - 1;
    if CapturedBy(t, g, e) && !(g in t.captures && e in t.captures[g]) {
      var k :| 0 <= k < |t.functionStack| && t.functionStack[k].id == g && e in t.functionStack[k].captures;
      assert s.functionStack[k].id == g;
    }
    if CapturedBy(s, g, e) && !(g in s.captures && e in s.captures[g]) {
      var k :| 0 <= k < |s.functionStack| && s.functionStack[k].id == g && e in s.functionStack[k].captures;
      assert t.functionStack[k].id == g && e in t.functionStack[k].captures;
    }
    assert t.functionStack[last].id == functions[last] && d in t.functionStack[last].captures;
  }

  lemma DueMore(f: Facts, u: Use, g: nat, e: nat)
    ensures CaptureDue(f.(uses := f.uses + [u]), g, e)
        <==> CaptureDue(f, g, e) || (Last(u.functions) == Some(g) && u.declaration == e && Capturing(u, f.owners))
  {
    var h := f.(uses := f.uses + [u]);
    assert u in h.uses;
    if CaptureDue(f, g, e) {
      var v :| v in f.uses && v.declaration == e && Last(v.functions) == Some(g) && Capturing(v, f.owners);
      assert v in h.uses;
    }
  }

  /** The state after a reference that resolves to `d`. */
  ghost function ReferredState(s: State, d: nat): State
    requires d < |s.declarations|
  {
    if CaptureAsked(s, s.declarations[d].scopeId) then CaptureAdded(s, d) else s
  }

  lemma ReferCaptures(s: State, f: Facts, functions: seq<nat>, d: nat)
    requires FunctionsRight(s, functions) && CapturesRight(s, f) && d < |f.owners| && d < |s.declarations|
    requires f.owners[d] == OwnerAt(s.functionStack, s.declarations[d].scopeId)
    ensures CapturesRight(ReferredState(s, d), f.(uses := f.uses + [Use(functions, d)]))
  {
    hide CaptureAsked, CapturedBy, CaptureDue, Capturing, FunctionsRight, OwnerAt;
    AskedIsDue(s, f, functions, d);
    AskedInside(s, functions, d);
    var h, t := f.(uses := f.uses + [Use(functions, d)]), ReferredState(s, d);
    forall g, e ensures CapturedBy(t, g, e) <==> CaptureDue(h, g, e) {
      DueMore(f, Use(functions, d), g, e);
      if CaptureAsked(s, s.declarations[d].scopeId) {
        CapturedMore(s, functions, d, g, e);
      }
    }
  }

  lemma AskedInside(s: State, functions: seq<nat>, d: nat)
    requires FunctionsRight(s, functions) && d < |s.declarations|
    ensures CaptureAsked(s, s.declarations[d].scopeId) ==> functions != [] && s.functionStack != []
  {
  }

  lemma ReferUses(f: Facts, functions: seq<nat>, d: nat)
    requires UsesRight(f) && d < |f.owners| && (f.owners[d].Some? ==> f.owners[d].value in functions)
    requires forall i, j :: 0 <= i < j < |functions| ==> functions[i] < functions[j]
    requires forall g :: g in functions ==> g < f.functionCount
    ensures UsesRight(f.(uses := f.uses + [Use(functions, d)]))
  {
  }

  lemma ReferFrame(s: State, d: nat, functions: seq<nat>, f: Facts)
    requires d < |s.declarations| && FunctionsRight(s, functions) && DeclarationsRight(s, f)
    ensures FunctionsRight(ReferredState(s, d), functions) && DeclarationsRight(ReferredState(s, d), f)
    ensures Keeps(s, ReferredState(s, d))
  {
    var t := ReferredState(s, d);
    forall k | 0 <= k < |functions|
      ensures t.functionStack[k].id == s.functionStack[k].id && t.functionStack[k].scopeId == s.functionStack[k].scopeId
    {
    }
    forall e | 0 <= e < |s.declarations|
      ensures OwnerAt(t.functionStack, s.declarations[e].scopeId) == OwnerAt(s.functionStack, s.declarations[e].scopeId)
    {
      OwnerAtFrame(t.functionStack, s.functionStack, s.declarations[e].scopeId);
    }
  }

  lemma ReferScopes(s: State, d: nat, env: map<string, nat>)
    requires StackRight(s) && ScopesRight(s) && EnvRight(s, env) && d < |s.declarations|
    ensures StackRight(ReferredState(s, d)) && ScopesRight(ReferredState(s, d)) && EnvRight(ReferredState(s, d), env)
  {
    hide StackRight, EnvRight, CaptureAsked;
    var t := ReferredState(s, d);
    PrefixStack(s, t);
    SameEnv(s, t, env);
  }

  lemma FunctionIds(s: State, functions: seq<nat>)
    requires FunctionsRight(s, functions)
    ensures forall i, j :: 0 <= i < j < |functions| ==> functions[i] < functions[j]
    ensures forall g :: g in functions ==> g < s.functionCount
  {
  }

  lemma ReferFollows(s: State, f: Facts, functions: seq<nat>, loop: Option<nat>, name: string)
    requires Follows(s, f, functions, loop) && name in f.env && f.env[name] < |s.declarations|
    requires IsValueDeclaration(s.declarations[f.env[name]].kind)
    ensures Follows(ReferredState(s, f.env[name]), Referenced(f, name, functions), functions, loop)
    ensures Keeps(s, ReferredState(s, f.env[name]))
  {
    hide EnvRight, CapturesRight, UsesRight, OwnerAt, ScopesRight, StackRight, FunctionsRight, Capturing, CaptureAsked;
    var d := f.env[name];
    InSight(s, f, name);
    FunctionIds(s, functions);
    AskedIsDue(s, f, functions, d);
    ReferCaptures(s, f, functions, d);
    ReferUses(f, functions, d);
    ReferFrame(s, d, functions, f);
    ReferScopes(s, d, f.env);
  }

  // --- loops

  function InLoop(s: State): State {
    s.(loopStack := s.loopStack + [s.loopCount], loopCount := s.loopCount + 1)
  }

  function OutOfLoop(s: State): State
    requires s.loopStack != []
  {
    s.(loopStack := s.loopStack[..|s.loopStack| - 1])
  }

  function LeftLoop(s: State): State {
    s.(targets := s.targets + [Last(s.loopStack)])
  }

  /** Changing the loops alone keeps everything else. */
  lemma OnlyLoops(s: State, t: State, f: Facts, g: Facts, functions: seq<nat>, loop: Option<nat>, inner: Option<nat>)
    requires Follows(s, f, functions, loop)
    requires t == s.(loopStack := t.loopStack, loopCount := t.loopCount, targets := t.targets)
    requires g == f.(loopCount := g.loopCount, targets := g.targets)
    requires t.targets == g.targets && t.loopCount == g.loopCount && Last(t.loopStack) == inner
    ensures Follows(t, g, functions, inner)
  {
    hide StackRight, EnvRight, CapturedBy, CaptureDue, OwnerAt;
    PrefixStack(s, t);
    SameEnv(s, t, f.env);
    LoopCaptures(s, t, f, g);
  }

  lemma LoopCaptures(s: State, t: State, f: Facts, g: Facts)
    requires t.captures == s.captures && t.functionStack == s.functionStack && g.uses == f.uses && g.owners == f.owners
    ensures forall h, d :: CapturedBy(t, h, d) == CapturedBy(s, h, d) && CaptureDue(g, h, d) == CaptureDue(f, h, d)
  {
  }

  lemma LoopBegins(s: State, f: Facts, functions: seq<nat>, loop: Option<nat>)
    requires Follows(s, f, functions, loop)
    ensures s.loopCount == f.loopCount
    ensures Follows(InLoop(s), f.(loopCount := f.loopCount + 1), functions, Some(f.loopCount))
    ensures InLoop(s).scopeStack == s.scopeStack
  {
    hide StackRight, EnvRight, CapturesRight, UsesRight, DeclarationsRight, FunctionsRight, ScopesRight;
    OnlyLoops(s, InLoop(s), f, f.(loopCount := f.loopCount + 1), functions, loop, Some(f.loopCount));
  }

  lemma LoopEnds(s: State, t: State, f: Facts, g: Facts, functions: seq<nat>, loop: Option<nat>, inner: Option<nat>)
    requires Follows(s, f, functions, loop) && Follows(t, g, functions, inner) && Keeps(InLoop(s), t)
    ensures t.loopStack != [] && Follows(OutOfLoop(t), g, functions, loop) && Keeps(s, OutOfLoop(t))
  {
    hide StackRight, EnvRight, CapturesRight, UsesRight, DeclarationsRight, FunctionsRight, ScopesRight;
    assert t.loopStack[..|t.loopStack| - 1] == s.loopStack;
    OnlyLoops(t, OutOfLoop(t), g, g, functions, inner, loop);
  }

  lemma LeavesLoop(s: State, f: Facts, functions: seq<nat>, loop: Option<nat>)
    requires Follows(s, f, functions, loop)
    ensures Follows(LeftLoop(s), f.(targets := f.targets + [loop]), functions, loop) && Keeps(s, LeftLoop(s))
  {
    hide StackRight, EnvRight, CapturesRight, UsesRight, DeclarationsRight, FunctionsRight, ScopesRight;
    OnlyLoops(s, LeftLoop(s), f, f.(targets := f.targets + [loop]), functions, loop, loop);
  }

  lemma KeepsAll(s: State)
    ensures Keeps(s, s)
  {
  }

  lemma KeepsStack(s: State, t: State)
    requires Keeps(s, t)
    ensures t.scopeStack == s.scopeStack && |t.functionStack| == |s.functionStack| && t.loopStack == s.loopStack
  {
  }

  lemma OpenedStack(s: State)
    ensures Opened(s).scopeStack != []
  {
  }

  lemma BeganStack(s: State)
    requires s.scopeStack != []
    ensures Began(s).scopeStack == s.scopeStack && Began(s).functionStack != []
  {
  }

  lemma EndedStack(s: State)
    requires s.functionStack != []
    ensures Ended(s).scopeStack == s.scopeStack
  {
  }

  lemma StackLinked(s: State, i: nat)
    requires StackRight(s) && i < |s.scopeStack|
    ensures s.scopeStack[i] < |s.scopes| && s.scopes[s.scopeStack[i]].parent == ParentOf(s.scopeStack, i)
  {
    assert Linked(s, i);
  }

  lemma StackAscends(s: State, a: nat, i: nat)
    requires StackRight(s) && a < |s.scopeStack| && i < |s.scopeStack|
    ensures s.scopeStack[a] <= s.scopeStack[i] <==> a <= i
  {
    hide ParentOf;
    if a < i {
      assert s.scopeStack[a] < s.scopeStack[i];
    } else if i < a {
      assert s.scopeStack[i] < s.scopeStack[a];
    }
  }

  /** For scopes on the stack, the ancestors are those opened earlier. */
  lemma {:induction false} WithinStack(s: State, a: nat, i: nat)
    requires StackRight(s) && a < |s.scopeStack| && i < |s.scopeStack|
    ensures ParentsBelow(s.scopes) && (Within(s.scopes, s.scopeStack[a], s.scopeStack[i]) <==> a <= i)
    decreases i
  {
    hide StackRight, ParentsBelow;
    StackParents(s);
    StackLinked(s, i);
    StackAscends(s, a, i);
    StackAscends(s, i, a);
    if i > 0 {
      WithinStack(s, a, i - 1);
    }
  }

  lemma StackParents(s: State)
    requires StackRight(s)
    ensures ParentsBelow(s.scopes)
  {
  }

  lemma InSightWithin(s: State, ancestor: nat, scope: nat)
    requires StackRight(s) && ancestor in s.scopeStack && scope in s.scopeStack
    ensures ParentsBelow(s.scopes) && (Within(s.scopes, ancestor, scope) <==> ancestor <= scope)
  {
    hide StackRight, ParentsBelow, Within;
    var a: nat :| a < |s.scopeStack| && s.scopeStack[a] == ancestor;
    var i: nat :| i < |s.scopeStack| && s.scopeStack[i] == scope;
    StackAscends(s, a, i);
    WithinStack(s, a, i);
  }

  // --------------------------------------------------------------------- the collector

  class DeclarationIndexCollector {
    var scopes: seq<ScopeRecord>
    var declarations: seq<DeclarationRecord>
    var captures: map<nat, seq<nat>>
    var targets: seq<Option<nat>>
    var scopeStack: seq<nat>
    var functionStack: seq<FunctionContext>
    var loopStack: seq<nat>
    var functionCount: nat
    var loopCount: nat

    constructor ()
      ensures Now() == State([], [], map[], [], [], [], [], 0, 0)
    {
      scopes, declarations, captures, targets := [], [], map[], [];
      scopeStack, functionStack, loopStack := [], [], [];
      functionCount, loopCount := 0, 0;
    }

    function Now(): State
      reads this
    {
      State(scopes, declarations, captures, targets, scopeStack, functionStack, loopStack, functionCount, loopCount)
    }

    method BeginScope()
      modifies this
      ensures Now() == Opened(old(Now()))
    {
      var parent := if scopeStack == [] then None else Some(scopeStack[|scopeStack| - 1]);
      var id := |scopes|;
      scopes := scopes + [ScopeRecord(parent, map[])];
      scopeStack := scopeStack + [id];
    }

    method EndScope()
      requires scopeStack != []
      modifies this
      ensures Now() == Closed(old(Now()))
    {
      scopeStack := scopeStack[..|scopeStack| - 1];
    }

    /** The loops around a function are set aside while its body is collected. */
    method BeginFunctionContext()
      requires scopeStack != []
      modifies this
      ensures Now() == Began(old(Now()))
    {
      var context := FunctionContext(functionCount, scopeStack[|scopeStack| - 1], [], loopStack);
      loopStack := [];
      functionStack := functionStack + [context];
      functionCount := functionCount + 1;
    }

    method EndFunctionContext()
      requires functionStack != []
      modifies this
      ensures Now() == Ended(old(Now()))
    {
      var context := functionStack[|functionStack| - 1];
      functionStack := functionStack[..|functionStack| - 1];
      captures := captures[context.id := context.captures];
      loopStack := context.enclosingLoops;
    }

    method AddDeclaration(name: string, kind: DeclarationKind, addToScope: bool)
      requires scopeStack != [] && scopeStack[|scopeStack| - 1] < |scopes|
      modifies this
      ensures Now() == Added(old(Now()), name, kind, addToScope)
    {
      var top, id := scopeStack[|scopeStack| - 1], |declarations|;
      declarations := declarations + [DeclarationRecord(name, kind, top, functionStack != [])];
      if addToScope && name != "" {
        var scope := scopes[top];
        scopes := scopes[top := scope.(declarations := scope.declarations[name := id])];
      }
    }

    method LookupReference(name: string) returns (r: Option<nat>)
      requires forall i :: 0 <= i < |scopeStack| ==> scopeStack[i] < |scopes|
      ensures r == Lookup(scopes, scopeStack, name)
    {
      var n := |scopeStack|;
      assert scopeStack[..n] == scopeStack;
      while n > 0
        invariant n <= |scopeStack|
        invariant Lookup(scopes, scopeStack[..n], name) == Lookup(scopes, scopeStack, name)
      {
        var record := scopes[scopeStack[n - 1]];
        if name in record.declarations {
          return Some(record.declarations[name]);
        }
        assert scopeStack[..n][..n - 1] == scopeStack[..n - 1];
        n := n - 1;
      }
      return None;
    }

    /** Whether a scope is an ancestor, along the parents, of another. */
    method ScopeContains(ancestor: nat, descendant: nat) returns (r: bool)
      requires ParentsBelow(scopes)
      ensures r == Within(scopes, ancestor, descendant)
    {
      var current: Option<nat> := Some(descendant);
      while current.Some?
        invariant Within(scopes, ancestor, descendant) == (current.Some? && Within(scopes, ancestor, current.value))
        decreases if current.Some? then current.value + 1 else 0
      {
        if current.value == ancestor {
          return true;
        }
        if current.value >= |scopes| {
          return false;
        }
        current := scopes[current.value].parent;
      }
      return false;
    }

    /** Records a capture by the current function of a declaration of a function around it. */
    method RecordCapture(d: nat, ghost functions: seq<nat>)
      requires StackRight(Now()) && FunctionsRight(Now(), functions)
      requires d < |declarations| && declarations[d].scopeId in scopeStack
      modifies this
      ensures Now() == ReferredState(old(Now()), d)
    {
      hide StackRight;
      if functionStack == [] {
        return;
      }
      var last := |functionStack| - 1;
      var scope := declarations[d].scopeId;
      InSightWithin(Now(), functionStack[last].scopeId, scope);
      var inside := ScopeContains(functionStack[last].scopeId, scope);
      if inside {
        return;
      }
      var isEnclosingLocal := false;
      var index := last;
      while index > 0 && !isEnclosingLocal
        invariant 0 <= index <= last
        invariant isEnclosingLocal ==> index < last && functionStack[index].scopeId <= scope
        invariant !isEnclosingLocal ==> forall k :: index <= k < last ==> functionStack[k].scopeId > scope
        modifies {}
      {
        index := index - 1;
        InSightWithin(Now(), functionStack[index].scopeId, scope);
        isEnclosingLocal := ScopeContains(functionStack[index].scopeId, scope);
      }
      if !isEnclosingLocal {
        return;
      }
      var current := functionStack[last];
      if d !in current.captures {
        functionStack := functionStack[last := current.(captures := current.captures + [d])];
      }
    }

    /** A use of a name: resolved to the innermost declaration in sight, if that is a value. */
    method RecordReference(name: string, ghost f: Facts, ghost functions: seq<nat>, ghost loop: Option<nat>)
      requires Follows(Now(), f, functions, loop)
      modifies this
      ensures Follows(Now(), Referenced(f, name, functions), functions, loop) && Keeps(old(Now()), Now())
    {
      hide CapturesRight, UsesRight, FunctionsRight, ScopesRight, OwnerAt, Lookup, ReferredState;
      StackInside(Now());
      var resolved := LookupReference(name);
      if resolved.None? {
        return;
      }
      InSight(Now(), f, name);
      if IsValueDeclaration(declarations[resolved.value].kind) {
        ReferFollows(Now(), f, functions, loop, name);
        RecordCapture(resolved.value, functions);
      }
    }

    /** The traversal keeps the collector in step with lexical scoping. */
    method Collect(nodes: Nodes, ghost f: Facts, ghost functions: seq<nat>, ghost loop: Option<nat>)
      requires Follows(Now(), f, functions, loop) && scopeStack != []
      modifies this
      ensures Follows(Now(), Lexical(nodes, f, functions, loop), functions, loop) && Keeps(old(Now()), Now())
      decreases nodes, 1
    {
      hide Follows, Keeps, LexicalNode;
      match nodes
      case Empty => KeepsAll(Now());
      case Cons(node, rest) =>
        ghost var before := Now();
        CollectNode(node, f, functions, loop);
        ghost var between := Now();
        KeepsStack(before, between);
        Collect(rest, LexicalNode(node, f, functions, loop), functions, loop);
        KeepsTrans(before, between, Now());
    }

    method CollectNode(node: Node, ghost f: Facts, ghost functions: seq<nat>, ghost loop: Option<nat>)
      requires Follows(Now(), f, functions, loop) && scopeStack != []
      modifies this
      ensures Follows(Now(), LexicalNode(node, f, functions, loop), functions, loop) && Keeps(old(Now()), Now())
      decreases node, 0
    {
      hide Follows, Keeps, Lexical, Opened, Closed, Began, Ended, Added;
      ghost var before := Now();
      match node
      case Declare(name, kind, addToScope) =>
        AddFollows(Now(), f, name, kind, addToScope, functions, loop);
        AddDeclaration(name, kind, addToScope);
      case Reference(name) => RecordReference(name, f, functions, loop);
      case ScopeOf(body) =>
        OpenFollows(Now(), f, functions, loop);
        OpenedStack(Now());
        BeginScope();
        Collect(body, f, functions, loop);
        KeepsStack(Opened(before), Now());
        CloseFollows(before, Now(), f, Lexical(body, f, functions, loop), functions, loop);
        EndScope();
      case FunctionOf(body) =>
        OpenFollows(Now(), f, functions, loop);
        OpenedFresh(Now(), f, functions, loop);
        OpenedStack(Now());
        BeginScope();
        BeginFollows(Now(), f, functions, loop);
        BeganStack(Now());
        BeginFunctionContext();
        ghost var g, inner := f.(functionCount := f.functionCount + 1), functions + [f.functionCount];
        Collect(body, g, inner, None);
        KeepsStack(Began(Opened(before)), Now());
        EndFollows(before, Now(), f, Lexical(body, g, inner, None), functions, loop);
        EndedStack(Now());
        EndFunctionContext();
        EndScope();
      case LoopOf(body) =>
        ghost var g := f.(loopCount := f.loopCount + 1);
        LoopBegins(before, f, functions, loop);
        loopStack := loopStack + [loopCount];
        loopCount := loopCount + 1;
        Collect(body, g, functions, Some(f.loopCount));
        LoopEnds(before, Now(), f, Lexical(body, g, functions, Some(f.loopCount)), functions, loop, Some(f.loopCount));
        loopStack := loopStack[..|loopStack| - 1];
      case LeaveLoop =>
        LeavesLoop(before, f, functions, loop);
        targets := targets + [if loopStack == [] then None else Some(loopStack[|loopStack| - 1])];
    }

    /** Every module, or the one unnamed unit, is collected in a root scope of its own. */
    method CollectProgram(units: Units)
      requires Now() == State([], [], map[], [], [], [], [], 0, 0)
      modifies this
      ensures Follows(Now(), LexicalUnits(units, NOTHING), [], None)
      ensures targets == LexicalUnits(units, NOTHING).targets
    {
      hide Follows, Keeps, Opened, Closed, Lexical;
      ghost var f := NOTHING;
      NothingFollows();
      var rest := units;
      while rest.Unit?
        invariant Follows(Now(), f, [], None) && scopeStack == [] && f.env == map[]
        invariant LexicalUnits(rest, f) == LexicalUnits(units, NOTHING)
        decreases rest
      {
        ghost var before := Now();
        OpenFollows(before, f, [], None);
        OpenedStack(before);
        BeginScope();
        Collect(rest.nodes, f, [], None);
        KeepsStack(Opened(before), Now());
        CloseFollows(before, Now(), f, Lexical(rest.nodes, f, [], None), [], None);
        EndScope();
        KeepsStack(before, Now());
        f := Lexical(rest.nodes, f, [], None).(env := map[]);
        rest := rest.rest;
      }
      SameTargets(Now(), f);
    }
  }

  lemma SameTargets(s: State, f: Facts)
    requires Follows(s, f, [], None)
    ensures s.targets == f.targets
  {
    hide StackRight, EnvRight, CapturesRight, UsesRight, DeclarationsRight, FunctionsRight, ScopesRight;
  }

  lemma NothingFollows()
    ensures Follows(State([], [], map[], [], [], [], [], 0, 0), NOTHING, [], None)
  {
  }

  // ----------------------------------------------------------------------- storage

  datatype StorageClass = Unknown | Captured | Exported | Local | Module

  predicate DeclarationIsCaptured(captures: map<nat, seq<nat>>, d: nat) {
    exists g :: g in captures && d in captures[g]
  }

  function StorageClassFor(s: State, exported: set<nat>, d: nat): StorageClass {
    if d >= |s.declarations| then Unknown
    else if DeclarationIsCaptured(s.captures, d) then Captured
    else if d in exported then Exported
    else if s.declarations[d].functionLocal then Local
    else Module
  }

  /** A declaration is captured exactly when some function nested inside its owner uses it. */
  lemma CapturedExactly(s: State, f: Facts, d: nat)
    requires Follows(s, f, [], None)
    ensures DeclarationIsCaptured(s.captures, d) <==> exists u :: u in f.uses && u.declaration == d && Capturing(u, f.owners)
  {
    hide StackRight, EnvRight, ScopesRight, DeclarationsRight, UsesRight;
    if g :| g in s.captures && d in s.captures[g] {
      assert CapturedBy(s, g, d);
      assert CaptureDue(f, g, d);
    }
    if u :| u in f.uses && u.declaration == d && Capturing(u, f.owners) {
      var g := u.functions[|u.functions| - 1];
      assert CaptureDue(f, g, d);
      assert CapturedBy(s, g, d);
    }
  }

  /** A declaration is local exactly when a function owns it, it is not exported, and every use is in its owner itself. */
  lemma LocalExactly(s: State, f: Facts, exported: set<nat>, d: nat)
    requires Follows(s, f, [], None)
    ensures StorageClassFor(s, exported, d) == Local <==>
      && d < |f.owners| && f.owners[d].Some? && d !in exported
      && forall u :: u in f.uses && u.declaration == d ==> Last(u.functions) == f.owners[d]
  {
    hide StackRight, EnvRight, ScopesRight, CapturesRight, FunctionsRight, DeclarationIsCaptured;
    CapturedExactly(s, f, d);
    forall u | u in f.uses && u.declaration == d && f.owners[d].Some?
      ensures Capturing(u, f.owners) <==> Last(u.functions) != f.owners[d]
    {
      UseInOwner(f, u);
    }
  }

  lemma UseInOwner(f: Facts, u: Use)
    requires UsesRight(f) && u in f.uses && f.owners[u.declaration].Some?
    ensures Capturing(u, f.owners) <==> Last(u.functions) != f.owners[u.declaration]
  {
    var o, last := f.owners[u.declaration].value, |u.functions| - 1;
    var i :| 0 <= i <= last && u.functions[i] == o;
    if i < last {
      assert u.functions[..last][i] == o;
      assert u.functions[i] < u.functions[last];
    }
  }
}
