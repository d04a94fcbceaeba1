/** Lexical scoping read off the program from left to right.

    A program is written out as one sequence of events, and a name means the last declaration of it
    before the use whose scope is still open there.  Nothing here is passed down or handed back, and
    the kinds of declarations are listed.  The collector's reference is proved to agree, and so are
    the captures and storage classes that follow from it.
 */
module LexicalScopes {
  import opened Wrappers
  import opened DeclarationIndex

  datatype Event =
    | EnterScope | QuitScope
    | EnterFunction | QuitFunction
    | EnterLoop | QuitLoop
    | Named(name: string, kind: DeclarationKind, visible: bool)
    | Used(name: string)
    | Jumped  // a break or continue

  function Events(nodes: Nodes): seq<Event>
    decreases nodes, 1
  {
    match nodes
    case Empty => []
    case Cons(node, rest) => NodeEvents(node) + Events(rest)
  }

  function NodeEvents(node: Node): seq<Event>
    decreases node, 0
  {
    match node
    case Declare(name, kind, addToScope) => [Named(name, kind, addToScope)]
    case Reference(name) => [Used(name)]
    case ScopeOf(body) => [EnterScope] + Events(body) + [QuitScope]
    case FunctionOf(body) => [EnterFunction] + Events(body) + [QuitFunction]
    case LoopOf(body) => [EnterLoop] + Events(body) + [QuitLoop]
    case LeaveLoop => [Jumped]
  }

  /** Every module has a scope of its own. */
  function ProgramEvents(units: Units): seq<Event> {
    match units
    case NoUnits => []
    case Unit(nodes, rest) => [EnterScope] + Events(nodes) + [QuitScope] + ProgramEvents(rest)
  }

  // ---------------------------------------------------------------- brackets and numbers

  function Change(e: Event, loops: bool): int {
    match e
    case EnterScope => 1
    case EnterFunction => 1
    case EnterLoop => if loops then 1 else 0
    case QuitScope => -1
    case QuitFunction => -1
    case QuitLoop => if loops then -1 else 0
    case _ => 0
  }

  /** How many brackets are open before position `q`: scopes and functions, and loops too if asked. */
  function Depth(es: seq<Event>, q: nat, loops: bool): int
    requires q <= |es|
  {
    if q == 0 then 0 else Depth(es, q - 1, loops) + Change(es[q - 1], loops)
  }

  datatype Sort = OfDeclaration | OfFunction | OfLoop | OfJump

  predicate Is(e: Event, sort: Sort) {
    match sort
    case OfDeclaration => e.Named?
    case OfFunction => e.EnterFunction?
    case OfLoop => e.EnterLoop?
    case OfJump => e.Jumped?
  }

  /** The number of the next declaration, function, loop or jump at position `q`. */
  function Number(es: seq<Event>, q: nat, sort: Sort): nat
    requires q <= |es|
  {
    if q == 0 then 0 else Number(es, q - 1, sort) + if Is(es[q - 1], sort) then 1 else 0
  }

  /** The bracket opened at `p` is still open at `q`. */
  ghost predicate Encloses(es: seq<Event>, p: nat, q: nat, loops: bool) {
    p < q <= |es| && forall r: nat :: p < r <= q ==> Depth(es, p, loops) < Depth(es, r, loops)
  }

  /** A function, or a loop, opened at `p` is around `q`. */
  ghost predicate Around(es: seq<Event>, p: nat, q: nat, sort: Sort) {
    p < q <= |es| && Is(es[p], sort) && Encloses(es, p, q, sort == OfLoop)
  }

  /** The scope in which `p` lies is still open at `q`. */
  ghost predicate InSight(es: seq<Event>, p: nat, q: nat) {
    p < q <= |es| && forall r: nat :: p < r <= q ==> Depth(es, p, false) <= Depth(es, r, false)
  }

  predicate Binds(e: Event, name: string) {
    e.Named? && e.visible && e.name == name && name != ""
  }

  /** The name means the declaration at `p` when it is used at `q`. */
  ghost predicate Means(es: seq<Event>, name: string, p: nat, q: nat) {
    && p < q <= |es| && Binds(es[p], name) && InSight(es, p, q)
    && forall r: nat :: p < r < q && Binds(es[r], name) ==> !InSight(es, r, q)
  }

  /** At `q` a variable, a function, a parameter or a for-in variable declared at `p` is used. */
  ghost predicate Uses(es: seq<Event>, p: nat, q: nat) {
    && q < |es| && es[q].Used? && Means(es, es[q].name, p, q)
    && match es[p].kind
       case Variable => true
       case FunctionName => true
       case Parameter => true
       case ForInVariable => true
       case _ => false
  }

  /** The numbers of the functions around `q`, outermost first. */
  ghost predicate NestIs(es: seq<Event>, q: nat, functions: seq<nat>) {
    && Ascending(functions)
    && (forall p: nat :: Around(es, p, q, OfFunction) ==> Number(es, p, OfFunction) in functions)
    && forall g :: g in functions ==> Surrounds(es, g, q)
  }

  ghost predicate Surrounds(es: seq<Event>, g: nat, q: nat) {
    exists p: nat :: Around(es, p, q, OfFunction) && Number(es, p, OfFunction) == g
  }

  /** The innermost function around `q`. */
  ghost predicate OwnerIs(es: seq<Event>, q: nat, owner: Option<nat>) {
    match owner
    case None => forall p: nat :: !Around(es, p, q, OfFunction)
    case Some(g) =>
      exists p: nat :: Around(es, p, q, OfFunction) && Number(es, p, OfFunction) == g && NoneInside(es, p, q, OfFunction)
  }

  ghost predicate NoneInside(es: seq<Event>, p: nat, q: nat, sort: Sort) {
    forall r: nat :: p < r ==> !Around(es, r, q, sort)
  }

  /** The innermost loop around `q` that is not outside a function around `q`. */
  ghost predicate LoopIs(es: seq<Event>, q: nat, loop: Option<nat>) {
    match loop
    case None => forall p: nat :: Around(es, p, q, OfLoop) ==> !NoneInside(es, p, q, OfFunction)
    case Some(l) =>
      exists p: nat ::
        && Around(es, p, q, OfLoop) && Number(es, p, OfLoop) == l
        && NoneInside(es, p, q, OfLoop) && NoneInside(es, p, q, OfFunction)
  }

  lemma Surrounding(es: seq<Event>, g: nat, q: nat) returns (p: nat)
    requires Surrounds(es, g, q)
    ensures p < q <= |es| && es[p].EnterFunction? && Around(es, p, q, OfFunction) && Number(es, p, OfFunction) == g
  {
    p :| Around(es, p, q, OfFunction) && Number(es, p, OfFunction) == g;
  }

  lemma {:induction false} NumberGrows(es: seq<Event>, p: nat, q: nat, sort: Sort)
    requires p <= q <= |es|
    ensures Number(es, p, sort) <= Number(es, q, sort)
    ensures p < q && Is(es[p], sort) ==> Number(es, p, sort) < Number(es, q, sort)
    decreases q
  {
    if p < q {
      NumberGrows(es, p, q - 1, sort);
    }
  }

  // ----------------------------------------------------------------------- what follows

  /** The reference agrees with what is read off up to position `q`. */
  ghost predicate Agrees(es: seq<Event>, q: nat, f: Facts, functions: seq<nat>, loop: Option<nat>) {
    q <= |es| && Collected(es, q, f) && EnvIs(es, q, f.env) && NestIs(es, q, functions) && LoopIs(es, q, loop)
  }

  /** What has been collected, names in sight apart. */
  ghost predicate Collected(es: seq<Event>, q: nat, f: Facts)
    requires q <= |es|
  {
    CountsAre(es, q, f) && DeclarationsAre(es, q, f) && JumpsAre(es, q, f) && UsesAre(es, q, f.uses)
  }

  predicate CountsAre(es: seq<Event>, q: nat, f: Facts)
    requires q <= |es|
  {
    && |f.owners| == |f.kinds| == Number(es, q, OfDeclaration) && |f.targets| == Number(es, q, OfJump)
    && f.functionCount == Number(es, q, OfFunction) && f.loopCount == Number(es, q, OfLoop)
  }

  /** The declaration at `p` is known with its kind and its innermost function. */
  ghost predicate DeclarationIs(es: seq<Event>, p: nat, f: Facts)
    requires p < |es| && es[p].Named?
  {
    var d := Number(es, p, OfDeclaration);
    d < |f.kinds| && d < |f.owners| && f.kinds[d] == es[p].kind && OwnerIs(es, p, f.owners[d])
  }

  ghost predicate DeclarationsAre(es: seq<Event>, q: nat, f: Facts)
    requires q <= |es|
  {
    forall p: nat :: p < q && es[p].Named? ==> DeclarationIs(es, p, f)
  }

  ghost predicate JumpIs(es: seq<Event>, p: nat, f: Facts)
    requires p < |es|
  {
    Number(es, p, OfJump) < |f.targets| && LoopIs(es, p, f.targets[Number(es, p, OfJump)])
  }

  ghost predicate JumpsAre(es: seq<Event>, q: nat, f: Facts)
    requires q <= |es|
  {
    forall p: nat :: p < q && es[p].Jumped? ==> JumpIs(es, p, f)
  }

  ghost predicate EnvIs(es: seq<Event>, q: nat, env: map<string, nat>)
    requires q <= |es|
  {
    && (forall name, p: nat :: Means(es, name, p, q) ==> name in env && env[name] == Number(es, p, OfDeclaration))
    && forall name :: name in env ==> Known(es, name, q)
  }

  ghost predicate Known(es: seq<Event>, name: string, q: nat) {
    exists p: nat :: Means(es, name, p, q)
  }

  /** The use `u` is made at `q` of the declaration at `p`. */
  ghost predicate UseIs(es: seq<Event>, p: nat, q: nat, u: Use) {
    Uses(es, p, q) && u.declaration == Number(es, p, OfDeclaration) && NestIs(es, q, u.functions)
  }

  ghost predicate MadeBefore(es: seq<Event>, q: nat, u: Use) {
    exists p: nat, r: nat :: r < q && UseIs(es, p, r, u)
  }

  ghost predicate UsesAre(es: seq<Event>, q: nat, uses: seq<Use>) {
    forall u :: u in uses <==> MadeBefore(es, q, u)
  }

  // ------------------------------------------------------------------ stretches of events

  predicate Fits(es: seq<Event>, a: nat, xs: seq<Event>) {
    a + |xs| <= |es| && es[a..a + |xs|] == xs
  }

  lemma FitsSplit(es: seq<Event>, a: nat, xs: seq<Event>, ys: seq<Event>)
    requires Fits(es, a, xs + ys)
    ensures Fits(es, a, xs) && Fits(es, a + |xs|, ys)
  {
    var zs := xs + ys;
    assert es[a..a + |xs|] == es[a..a + |zs|][..|xs|] == xs;
    assert es[a + |xs|..a + |xs| + |ys|] == es[a..a + |zs|][|xs|..] == ys;
  }

  lemma FitsBracket(es: seq<Event>, a: nat, opening: Event, xs: seq<Event>, closing: Event)
    requires Fits(es, a, [opening] + xs + [closing])
    ensures a + 1 + |xs| < |es| && es[a] == opening && Fits(es, a + 1, xs) && es[a + 1 + |xs|] == closing
  {
    assert [opening] + xs + [closing] == [opening] + (xs + [closing]);
    FitsSplit(es, a, [opening], xs + [closing]);
    FitsSplit(es, a + 1, xs, [closing]);
    assert es[a..a + 1][0] == opening && es[a + 1 + |xs|..a + 2 + |xs|][0] == closing;
  }

  /** Every bracket opened in the stretch is closed in it, and none opened before. */
  ghost predicate Level(es: seq<Event>, a: nat, b: nat) {
    a <= b <= |es| && (forall loops :: Depth(es, b, loops) == Depth(es, a, loops))
    && forall r: nat, loops :: a <= r <= b ==> Depth(es, a, loops) <= Depth(es, r, loops)
  }

  lemma LevelJoin(es: seq<Event>, a: nat, b: nat, c: nat)
    requires Level(es, a, b) && Level(es, b, c)
    ensures Level(es, a, c)
  {
    forall r: nat, loops: bool | a <= r <= c ensures Depth(es, a, loops) <= Depth(es, r, loops) {
    }
  }

  lemma LevelBracket(es: seq<Event>, a: nat, b: nat)
    requires a < b < |es| && Level(es, a + 1, b)
    requires forall loops :: 0 <= Change(es[a], loops) && Change(es[a], loops) + Change(es[b], loops) == 0
    ensures Level(es, a, b + 1)
  {
    forall loops: bool ensures Depth(es, b + 1, loops) == Depth(es, a, loops) {
      assert Depth(es, a + 1, loops) == Depth(es, a, loops) + Change(es[a], loops);
      assert Depth(es, b + 1, loops) == Depth(es, b, loops) + Change(es[b], loops);
    }
    forall r: nat, loops: bool | a <= r <= b + 1 ensures Depth(es, a, loops) <= Depth(es, r, loops) {
      assert Depth(es, a + 1, loops) == Depth(es, a, loops) + Change(es[a], loops);
    }
  }

  lemma {:induction false} EventsLevel(nodes: Nodes, es: seq<Event>, a: nat)
    requires Fits(es, a, Events(nodes))
    ensures Level(es, a, a + |Events(nodes)|)
    decreases nodes, 1
  {
    hide Level, Fits;
    match nodes
    case Empty =>
      LevelNothing(es, a);
    case Cons(node, rest) =>
      FitsSplit(es, a, NodeEvents(node), Events(rest));
      NodeLevel(node, es, a);
      EventsLevel(rest, es, a + |NodeEvents(node)|);
      LevelJoin(es, a, a + |NodeEvents(node)|, a + |Events(nodes)|);
  }

  lemma LevelNothing(es: seq<Event>, a: nat)
    requires Fits(es, a, [])
    ensures Level(es, a, a)
  {
  }

  lemma LevelOne(es: seq<Event>, a: nat, e: Event)
    requires Fits(es, a, [e]) && forall loops :: Change(e, loops) == 0
    ensures a < |es| && es[a] == e && Level(es, a, a + 1)
  {
    assert es[a..a + 1][0] == e;
    forall loops: bool ensures Depth(es, a + 1, loops) == Depth(es, a, loops) {
    }
  }

  lemma {:induction false} NodeLevel(node: Node, es: seq<Event>, a: nat)
    requires Fits(es, a, NodeEvents(node))
    ensures Level(es, a, a + |NodeEvents(node)|)
    decreases node, 0
  {
    hide Level, Fits, Depth;
    match node
    case Declare(name, kind, addToScope) => LevelOne(es, a, Named(name, kind, addToScope));
    case Reference(name) => LevelOne(es, a, Used(name));
    case LeaveLoop => LevelOne(es, a, Jumped);
    case ScopeOf(body) =>
      FitsBracket(es, a, EnterScope, Events(body), QuitScope);
      EventsLevel(body, es, a + 1);
      BracketLevel(es, a, Events(body));
    case FunctionOf(body) =>
      FitsBracket(es, a, EnterFunction, Events(body), QuitFunction);
      EventsLevel(body, es, a + 1);
      BracketLevel(es, a, Events(body));
    case LoopOf(body) =>
      FitsBracket(es, a, EnterLoop, Events(body), QuitLoop);
      EventsLevel(body, es, a + 1);
      BracketLevel(es, a, Events(body));
  }

  lemma BracketLevel(es: seq<Event>, a: nat, xs: seq<Event>)
    requires Fits(es, a + 1, xs) && a + 1 + |xs| < |es| && Level(es, a + 1, a + 1 + |xs|)
    requires Pair(es[a], es[a + 1 + |xs|])
    ensures Level(es, a, a + 2 + |xs|)
  {
    hide Level, Depth;
    LevelBracket(es, a, a + 1 + |xs|);
  }

  /** An opening bracket and its closing one. */
  predicate Pair(opening: Event, closing: Event) {
    || (opening.EnterScope? && closing.QuitScope?)
    || (opening.EnterFunction? && closing.QuitFunction?)
    || (opening.EnterLoop? && closing.QuitLoop?)
  }

  // ----------------------------------------------------------------- around and in sight

  /** The same functions and loops are around `a` and `b`. */
  ghost predicate SameAround(es: seq<Event>, a: nat, b: nat) {
    forall p: nat, sort :: Around(es, p, b, sort) <==> Around(es, p, a, sort)
  }

  lemma LevelAround(es: seq<Event>, a: nat, b: nat)
    requires Level(es, a, b)
    ensures SameAround(es, a, b)
  {
    forall p: nat, sort: Sort ensures Around(es, p, b, sort) <==> Around(es, p, a, sort) {
      var loops := sort == OfLoop;
      if p >= a {
        ClosedInside(es, a, b, p, loops);
      } else if Around(es, p, a, sort) {
        forall r: nat | p < r <= b ensures Depth(es, p, loops) < Depth(es, r, loops) {
          assert r > a ==> Depth(es, a, loops) <= Depth(es, r, loops);
        }
      }
    }
  }

  lemma ClosedInside(es: seq<Event>, a: nat, b: nat, p: nat, loops: bool)
    requires Level(es, a, b) && a <= p
    ensures !Encloses(es, p, b, loops)
  {
    if p < b {
      assert !(Depth(es, p, loops) < Depth(es, b, loops));
    }
  }

  lemma StepAround(es: seq<Event>, a: nat, b: nat, sort: Sort)
    requires b == a + 1 <= |es| && 0 <= Change(es[a], sort == OfLoop)
    ensures forall p: nat :: p != a ==> (Around(es, p, b, sort) <==> Around(es, p, a, sort))
    ensures Around(es, a, b, sort) <==> Is(es[a], sort) && Change(es[a], sort == OfLoop) == 1
  {
    var loops := sort == OfLoop;
    assert Depth(es, b, loops) == Depth(es, a, loops) + Change(es[a], loops);
    forall p: nat | p != a ensures Around(es, p, b, sort) <==> Around(es, p, a, sort) {
      if Around(es, p, a, sort) {
        assert Depth(es, p, loops) < Depth(es, a, loops);
      }
    }
  }

  lemma NestSame(es: seq<Event>, a: nat, b: nat, functions: seq<nat>, loop: Option<nat>)
    requires SameAround(es, a, b) && NestIs(es, a, functions) && LoopIs(es, a, loop)
    ensures NestIs(es, b, functions) && LoopIs(es, b, loop)
  {
    hide Around, Number;
    forall g | g in functions ensures Surrounds(es, g, b) {
      var p := Surrounding(es, g, a);
      assert Around(es, p, b, OfFunction);
    }
    forall p: nat, sort: Sort ensures NoneInside(es, p, a, sort) <==> NoneInside(es, p, b, sort) {
      InsideSame(es, a, b, p, sort);
    }
  }

  lemma InsideSame(es: seq<Event>, a: nat, b: nat, p: nat, sort: Sort)
    requires SameAround(es, a, b)
    ensures NoneInside(es, p, a, sort) <==> NoneInside(es, p, b, sort)
  {
    hide Around;
  }

  /** Entering a scope, or passing an event that is no bracket, changes nothing around. */
  lemma PassAround(es: seq<Event>, a: nat)
    requires a < |es| && (es[a].EnterScope? || es[a].Named? || es[a].Used? || es[a].Jumped?)
    ensures SameAround(es, a, a + 1)
  {
    hide Around;
    forall p: nat, sort: Sort ensures Around(es, p, a + 1, sort) <==> Around(es, p, a, sort) {
      StepAround(es, a, a + 1, sort);
      NotBefore(es, a, a, sort);
    }
  }

  lemma NotBefore(es: seq<Event>, p: nat, q: nat, sort: Sort)
    requires q <= p
    ensures !Around(es, p, q, sort)
  {
  }

  lemma EnterFunctionNest(es: seq<Event>, a: nat, b: nat, functions: seq<nat>)
    requires b == a + 1 <= |es| && es[a].EnterFunction? && NestIs(es, a, functions)
    ensures NestIs(es, b, functions + [Number(es, a, OfFunction)]) && LoopIs(es, b, None)
  {
    hide Around, Encloses;
    StepAround(es, a, b, OfFunction);
    StepAround(es, a, b, OfLoop);
    var inner := functions + [Number(es, a, OfFunction)];
    assert Around(es, a, b, OfFunction) && !Around(es, a, b, OfLoop);
    forall g | g in inner ensures Surrounds(es, g, b) {
      if g in functions {
        var p := Surrounding(es, g, a);
        assert Around(es, p, b, OfFunction);
      }
    }
    forall p: nat | Around(es, p, b, OfFunction) ensures p < |es| && Number(es, p, OfFunction) in inner {
      AroundBefore(es, p, b, OfFunction);
      if p != a {
        assert Around(es, p, a, OfFunction);
      }
    }
    EnterFunctionAscends(es, a, functions);
    forall p: nat | Around(es, p, b, OfLoop) ensures !NoneInside(es, p, b, OfFunction) {
      AroundBefore(es, p, b, OfLoop);
      assert p < a;
    }
  }

  lemma EnterFunctionAscends(es: seq<Event>, a: nat, functions: seq<nat>)
    requires a < |es| && NestIs(es, a, functions)
    ensures Ascending(functions + [Number(es, a, OfFunction)])
  {
    hide Around;
    forall k | 0 <= k < |functions| ensures functions[k] < Number(es, a, OfFunction) {
      var p := Surrounding(es, functions[k], a);
      NumberGrows(es, p, a, OfFunction);
    }
  }

  lemma AroundBefore(es: seq<Event>, p: nat, q: nat, sort: Sort)
    requires Around(es, p, q, sort)
    ensures p < q <= |es| && Is(es[p], sort)
  {
  }

  lemma EnterLoopNest(es: seq<Event>, a: nat, b: nat, functions: seq<nat>)
    requires b == a + 1 <= |es| && es[a].EnterLoop? && NestIs(es, a, functions)
    ensures NestIs(es, b, functions) && LoopIs(es, b, Some(Number(es, a, OfLoop)))
  {
    hide Around, Encloses;
    StepAround(es, a, b, OfFunction);
    StepAround(es, a, b, OfLoop);
    assert !Around(es, a, b, OfFunction) && Around(es, a, b, OfLoop);
    forall g | g in functions ensures Surrounds(es, g, b) {
      var p := Surrounding(es, g, a);
      assert Around(es, p, b, OfFunction);
    }
    forall r: nat, sort: Sort | a < r ensures !Around(es, r, b, sort) {
      if Around(es, r, b, sort) {
        AroundBefore(es, r, b, sort);
        assert false;
      }
    }
  }

  /** The last of the nest is the innermost function. */
  lemma NestOwner(es: seq<Event>, q: nat, functions: seq<nat>)
    requires NestIs(es, q, functions)
    ensures OwnerIs(es, q, Last(functions))
  {
    hide Around;
    if functions != [] {
      var p := Surrounding(es, functions[|functions| - 1], q);
      forall r: nat | p < r ensures !Around(es, r, q, OfFunction) {
        if r < |es| {
          NumberGrows(es, p, r, OfFunction);
          assert Number(es, r, OfFunction) !in functions;
        } else {
          AroundInside(es, r, q, OfFunction);
        }
      }
    }
  }

  lemma AroundInside(es: seq<Event>, p: nat, q: nat, sort: Sort)
    requires |es| <= p
    ensures !Around(es, p, q, sort)
  {
  }

  /** The same declarations are in sight at `a` and `b`. */
  ghost predicate SameSight(es: seq<Event>, a: nat, b: nat) {
    forall name, p: nat :: Means(es, name, p, b) <==> Means(es, name, p, a)
  }

  lemma SightFrom(es: seq<Event>, a: nat, b: nat)
    requires a <= b <= |es|
    requires forall p: nat, name :: p < |es| && Binds(es[p], name) ==> (InSight(es, p, b) <==> InSight(es, p, a))
    ensures SameSight(es, a, b)
  {
    hide InSight;
    forall name, p: nat ensures Means(es, name, p, b) <==> Means(es, name, p, a) {
      if Means(es, name, p, a) {
        forall r: nat | p < r < b && Binds(es[r], name) ensures !InSight(es, r, b) {
          if InSight(es, r, a) {
            InSightBefore(es, r, a);
          }
        }
      }
      if Means(es, name, p, b) {
        InSightBefore(es, p, a);
      }
    }
  }

  lemma InSightBefore(es: seq<Event>, p: nat, q: nat)
    requires InSight(es, p, q)
    ensures p < q <= |es|
  {
  }

  /** Passing an event that declares nothing and closes nothing. */
  lemma PassSight(es: seq<Event>, a: nat)
    requires a < |es| && 0 <= Change(es[a], false) && !es[a].Named?
    ensures SameSight(es, a, a + 1)
  {
    assert Depth(es, a + 1, false) == Depth(es, a, false) + Change(es[a], false);
    forall p: nat, name: string | p < |es| && Binds(es[p], name) ensures InSight(es, p, a + 1) <==> InSight(es, p, a) {
      if InSight(es, p, a) {
        assert Depth(es, p, false) <= Depth(es, a, false);
      }
    }
    SightFrom(es, a, a + 1);
  }

  /** Leaving a scope puts its declarations out of sight. */
  lemma LeaveSight(es: seq<Event>, a: nat, b: nat)
    requires a < b < |es| && Level(es, a + 1, b) && Change(es[a], false) == 1 && Change(es[b], false) == -1
    ensures SameSight(es, a, b + 1)
  {
    assert Depth(es, a + 1, false) == Depth(es, a, false) + 1;
    assert Depth(es, b + 1, false) == Depth(es, b, false) - 1;
    forall p: nat, name: string | p < |es| && Binds(es[p], name) ensures InSight(es, p, b + 1) <==> InSight(es, p, a) {
      assert a < p <= b ==> Depth(es, a + 1, false) <= Depth(es, p, false);
      if InSight(es, p, a) {
        assert Depth(es, p, false) <= Depth(es, a, false);
        forall r: nat | p < r <= b + 1 ensures Depth(es, p, false) <= Depth(es, r, false) {
          assert a < r <= b ==> Depth(es, a + 1, false) <= Depth(es, r, false);
        }
      }
      if InSight(es, p, b + 1) {
        assert Depth(es, p, false) <= Depth(es, b + 1, false);
      }
    }
    SightFrom(es, a, b + 1);
  }

  lemma EnvSame(es: seq<Event>, a: nat, b: nat, env: map<string, nat>)
    requires a <= |es| && b <= |es| && SameSight(es, a, b) && EnvIs(es, a, env)
    ensures EnvIs(es, b, env)
  {
    hide Means, Number;
    forall name | name in env ensures Known(es, name, b) {
      assert Known(es, name, a);
      var p: nat :| Means(es, name, p, a);
      assert Means(es, name, p, b);
    }
  }

  /** A declaration comes into sight and hides the earlier ones of its name. */
  lemma EnvNamed(es: seq<Event>, a: nat, b: nat, env: map<string, nat>)
    requires b == a + 1 <= |es| && es[a].Named? && EnvIs(es, a, env)
    ensures
      var e := es[a];
      EnvIs(es, b, if e.visible && e.name != "" then env[e.name := Number(es, a, OfDeclaration)] else env)
  {
    hide Means, Number;
    var e := es[a];
    NamedSight(es, a, b);
    if Binds(e, e.name) {
      var after := env[e.name := Number(es, a, OfDeclaration)];
      assert Means(es, e.name, a, b);
      forall name | name in after ensures Known(es, name, b) {
        if name != e.name {
          KnownLonger(es, name, a, b);
        }
      }
    } else {
      forall name | name in env ensures Known(es, name, b) {
        KnownLonger(es, name, a, b);
      }
    }
  }

  lemma KnownLonger(es: seq<Event>, name: string, a: nat, b: nat)
    requires Known(es, name, a) && b == a + 1 <= |es| && !Binds(es[a], name)
    requires forall p: nat :: Means(es, name, p, a) ==> Means(es, name, p, b)
    ensures Known(es, name, b)
  {
    hide Means;
  }

  lemma NamedSight(es: seq<Event>, a: nat, b: nat)
    requires b == a + 1 <= |es| && es[a].Named?
    ensures forall name, p: nat :: Means(es, name, p, b) <==> if Binds(es[a], name) then p == a else Means(es, name, p, a)
  {
    assert Depth(es, b, false) == Depth(es, a, false);
    forall p: nat | p < a ensures InSight(es, p, b) <==> InSight(es, p, a) {
      if InSight(es, p, a) {
        assert Depth(es, p, false) <= Depth(es, a, false);
      }
    }
    assert InSight(es, a, b);
    hide InSight;
    forall name, p: nat
      ensures Means(es, name, p, b) <==> if Binds(es[a], name) then p == a else Means(es, name, p, a)
    {
    }
  }

  // ------------------------------------------------------------------- one event further

  /** Brackets that are not numbered add nothing. */
  lemma CollectNothing(es: seq<Event>, a: nat, b: nat, f: Facts)
    requires b == a + 1 <= |es| && Collected(es, a, f)
    requires es[a].EnterScope? || es[a].QuitScope? || es[a].QuitFunction? || es[a].QuitLoop?
    ensures Collected(es, b, f)
  {
    hide DeclarationIs, JumpIs;
    NoUse(es, a, b, f.uses);
  }

  lemma NoUse(es: seq<Event>, a: nat, b: nat, uses: seq<Use>)
    requires b == a + 1 <= |es| && !es[a].Used? && UsesAre(es, a, uses)
    ensures UsesAre(es, b, uses)
  {
    hide Means, NestIs;
    forall u ensures u in uses <==> MadeBefore(es, b, u) {
      if p: nat, r: nat :| r < b && UseIs(es, p, r, u) {
        assert r < a;
      }
    }
  }

  lemma CollectBracket(es: seq<Event>, a: nat, b: nat, f: Facts)
    requires b == a + 1 <= |es| && Collected(es, a, f)
    ensures es[a].EnterFunction? ==> Collected(es, b, f.(functionCount := f.functionCount + 1))
    ensures es[a].EnterLoop? ==> Collected(es, b, f.(loopCount := f.loopCount + 1))
  {
    if es[a].EnterFunction? || es[a].EnterLoop? {
      NoUse(es, a, b, f.uses);
      var g := if es[a].EnterFunction? then f.(functionCount := f.functionCount + 1) else f.(loopCount := f.loopCount + 1);
      KeepsDeclarations(es, a, f, g);
      assert CountsAre(es, b, g);
    }
  }

  /** Facts that keep what is known of declarations and jumps. */
  lemma KeepsDeclarations(es: seq<Event>, a: nat, f: Facts, g: Facts)
    requires a <= |es| && DeclarationsAre(es, a, f) && JumpsAre(es, a, f)
    requires f.owners <= g.owners && f.kinds <= g.kinds && f.targets <= g.targets
    ensures DeclarationsAre(es, a, g) && JumpsAre(es, a, g)
  {
    hide OwnerIs, LoopIs;
    forall p: nat | p < a && es[p].Named? ensures DeclarationIs(es, p, g) {
      assert DeclarationIs(es, p, f);
    }
    forall p: nat | p < a && es[p].Jumped? ensures JumpIs(es, p, g) {
      assert JumpIs(es, p, f);
    }
  }

  lemma CollectNamed(es: seq<Event>, a: nat, b: nat, f: Facts, functions: seq<nat>)
    requires b == a + 1 <= |es| && Collected(es, a, f) && es[a].Named? && NestIs(es, a, functions)
    ensures Collected(es, b, Declared(f, es[a].name, es[a].kind, es[a].visible, functions))
  {
    hide OwnerIs, JumpIs, NestIs, UsesAre;
    var g := Declared(f, es[a].name, es[a].kind, es[a].visible, functions);
    NoUse(es, a, b, f.uses);
    KeepsDeclarations(es, a, f, g);
    NestOwner(es, a, functions);
    assert DeclarationIs(es, a, g);
    assert CountsAre(es, b, g);
  }

  lemma CollectJumped(es: seq<Event>, a: nat, b: nat, f: Facts, loop: Option<nat>)
    requires b == a + 1 <= |es| && Collected(es, a, f) && es[a].Jumped? && LoopIs(es, a, loop)
    ensures Collected(es, b, f.(targets := f.targets + [loop]))
  {
    hide DeclarationIs, LoopIs, UsesAre;
    var g := f.(targets := f.targets + [loop]);
    NoUse(es, a, b, f.uses);
    KeepsDeclarations(es, a, f, g);
    assert JumpIs(es, a, g);
    assert CountsAre(es, b, g);
  }

  lemma CollectUsed(es: seq<Event>, a: nat, b: nat, f: Facts, functions: seq<nat>)
    requires b == a + 1 <= |es| && es[a].Used? && Collected(es, a, f) && EnvIs(es, a, f.env) && NestIs(es, a, functions)
    ensures Collected(es, b, Referenced(f, es[a].name, functions))
  {
    hide DeclarationIs, JumpIs, Means, NestIs, Referenced;
    var g := Referenced(f, es[a].name, functions);
    ReferencedKeeps(f, es[a].name, functions);
    forall u ensures u in g.uses <==> MadeBefore(es, b, u) {
      UsedHere(es, a, f, functions, u);
      if p: nat, r: nat :| r < b && UseIs(es, p, r, u) {
        assert r < a ==> MadeBefore(es, a, u);
      }
    }
    KeepsDeclarations(es, a, f, g);
    assert CountsAre(es, b, g);
  }

  lemma ReferencedKeeps(f: Facts, name: string, functions: seq<nat>)
    ensures
      var g := Referenced(f, name, functions);
      g == f.(uses := g.uses)
  {
  }

  /** The use recorded here, if any, is the one made here. */
  lemma UsedHere(es: seq<Event>, a: nat, f: Facts, functions: seq<nat>, u: Use)
    requires a < |es| && es[a].Used? && Collected(es, a, f) && EnvIs(es, a, f.env) && NestIs(es, a, functions)
    ensures u in Referenced(f, es[a].name, functions).uses <==> u in f.uses || exists p: nat :: UseIs(es, p, a, u)
  {
    hide Means, NestIs, OwnerIs, JumpsAre, UsesAre;
    var name := es[a].name;
    if name in f.env {
      assert Known(es, name, a);
      var p: nat :| Means(es, name, p, a);
      MeansBinding(es, name, p, a);
      assert DeclarationIs(es, p, f);
      if u == Use(functions, f.env[name]) && Uses(es, p, a) {
        assert UseIs(es, p, a, u);
      }
    }
    if p: nat :| UseIs(es, p, a, u) {
      MeansBinding(es, name, p, a);
      assert DeclarationIs(es, p, f);
      NestUnique(es, a, functions, u.functions);
    }
  }

  lemma MeansBinding(es: seq<Event>, name: string, p: nat, q: nat)
    requires Means(es, name, p, q)
    ensures p < q <= |es| && es[p].Named? && es[p].name == name
  {
  }

  lemma NestUnique(es: seq<Event>, q: nat, a: seq<nat>, b: seq<nat>)
    requires NestIs(es, q, a) && NestIs(es, q, b)
    ensures a == b
  {
    hide Around;
    forall g ensures g in a <==> g in b {
      if g in a {
        var p := Surrounding(es, g, q);
      }
      if g in b {
        var p := Surrounding(es, g, q);
      }
    }
    AscendingUnique(a, b);
  }

  lemma {:induction false} AscendingUnique(a: seq<nat>, b: seq<nat>)
    requires Ascending(a) && Ascending(b) && forall g :: g in a <==> g in b
    ensures a == b
    decreases |a|
  {
    if a == [] {
      assert forall k :: 0 <= k < |b| ==> b[k] in a;
    } else {
      var x := a[|a| - 1];
      assert x in b;
      var y := b[|b| - 1];
      assert y in a;
      assert x == y;
      var c, d := a[..|a| - 1], b[..|b| - 1];
      assert a == c + [x] && b == d + [x];
      forall g ensures g in c <==> g in d {
        if g in c {
          assert g in a && g < x;
        }
        if g in d {
          assert g in b && g < x;
        }
      }
      AscendingUnique(c, d);
    }
  }

  // ----------------------------------------------------------------- the whole program

  /** The reference, walking a stretch of the program, collects what is read off it. */
  lemma {:induction false} Walk(nodes: Nodes, f: Facts, functions: seq<nat>, loop: Option<nat>, es: seq<Event>, a: nat)
    requires Fits(es, a, Events(nodes)) && Agrees(es, a, f, functions, loop)
    ensures Agrees(es, a + |Events(nodes)|, Lexical(nodes, f, functions, loop), functions, loop)
    decreases nodes, 1
  {
    hide Agrees, Fits, LexicalNode;
    match nodes
    case Empty =>
    case Cons(node, rest) =>
      FitsSplit(es, a, NodeEvents(node), Events(rest));
      WalkNode(node, f, functions, loop, es, a);
      Walk(rest, LexicalNode(node, f, functions, loop), functions, loop, es, a + |NodeEvents(node)|);
  }

  lemma {:induction false} WalkNode(node: Node, f: Facts, functions: seq<nat>, loop: Option<nat>, es: seq<Event>, a: nat)
    requires Fits(es, a, NodeEvents(node)) && Agrees(es, a, f, functions, loop)
    ensures Agrees(es, a + |NodeEvents(node)|, LexicalNode(node, f, functions, loop), functions, loop)
    decreases node, 0
  {
    hide Agrees, Fits, Lexical, Declared, Referenced, Level, Events, Number, Depth;
    NodeLevel(node, es, a);
    match node
    case Declare(_, _, _) => WalkLeaf(node, f, functions, loop, es, a);
    case Reference(_) => WalkLeaf(node, f, functions, loop, es, a);
    case LeaveLoop => WalkLeaf(node, f, functions, loop, es, a);
    case ScopeOf(body) =>
      FitsBracket(es, a, EnterScope, Events(body), QuitScope);
      EventsLevel(body, es, a + 1);
      AgreesScope(es, a, a + 1, f, functions, loop);
      Walk(body, f, functions, loop, es, a + 1);
      AgreesAfter(es, a, a + 1 + |Events(body)|, f, functions, loop, Lexical(body, f, functions, loop), functions, loop);
    case FunctionOf(body) =>
      var g, inner := f.(functionCount := f.functionCount + 1), functions + [f.functionCount];
      FitsBracket(es, a, EnterFunction, Events(body), QuitFunction);
      EventsLevel(body, es, a + 1);
      AgreesFunction(es, a, a + 1, f, functions, loop);
      Walk(body, g, inner, None, es, a + 1);
      AgreesAfter(es, a, a + 1 + |Events(body)|, f, functions, loop, Lexical(body, g, inner, None), inner, None);
    case LoopOf(body) =>
      var g, l := f.(loopCount := f.loopCount + 1), Some(f.loopCount);
      FitsBracket(es, a, EnterLoop, Events(body), QuitLoop);
      EventsLevel(body, es, a + 1);
      AgreesLoop(es, a, a + 1, f, functions, loop);
      Walk(body, g, functions, l, es, a + 1);
      AgreesAfterLoop(es, a, a + 1 + |Events(body)|, f, functions, loop, Lexical(body, g, functions, l), l);
  }

  lemma WalkLeaf(node: Node, f: Facts, functions: seq<nat>, loop: Option<nat>, es: seq<Event>, a: nat)
    requires node.Declare? || node.Reference? || node.LeaveLoop?
    requires Fits(es, a, NodeEvents(node)) && Agrees(es, a, f, functions, loop)
    ensures Agrees(es, a + |NodeEvents(node)|, LexicalNode(node, f, functions, loop), functions, loop)
  {
    hide Agrees, Fits, Declared, Referenced, Level;
    LevelOne(es, a, NodeEvents(node)[0]);
    AgreesOne(es, a, a + 1, f, functions, loop);
  }

  /** Past a declaration, a use or a jump. */
  lemma AgreesOne(es: seq<Event>, a: nat, b: nat, f: Facts, functions: seq<nat>, loop: Option<nat>)
    requires b == a + 1 <= |es| && Agrees(es, a, f, functions, loop) && Level(es, a, b)
    ensures es[a].Named? ==> Agrees(es, b, Declared(f, es[a].name, es[a].kind, es[a].visible, functions), functions, loop)
    ensures es[a].Used? ==> Agrees(es, b, Referenced(f, es[a].name, functions), functions, loop)
    ensures es[a].Jumped? ==> Agrees(es, b, f.(targets := f.targets + [loop]), functions, loop)
  {
    hide DeclarationsAre, JumpsAre, UsesAre, EnvIs, NestIs, LoopIs, SameAround, SameSight, Level, Referenced;
    LevelAround(es, a, b);
    NestSame(es, a, b, functions, loop);
    if es[a].Named? {
      EnvNamed(es, a, b, f.env);
      CollectNamed(es, a, b, f, functions);
    } else if es[a].Used? {
      PassSight(es, a);
      EnvSame(es, a, b, f.env);
      ReferencedKeeps(f, es[a].name, functions);
      CollectUsed(es, a, b, f, functions);
    } else if es[a].Jumped? {
      PassSight(es, a);
      EnvSame(es, a, b, f.env);
      CollectJumped(es, a, b, f, loop);
    }
  }

  lemma AgreesScope(es: seq<Event>, a: nat, b: nat, f: Facts, functions: seq<nat>, loop: Option<nat>)
    requires b == a + 1 <= |es| && Agrees(es, a, f, functions, loop) && es[a].EnterScope?
    ensures Agrees(es, b, f, functions, loop)
  {
    hide Collected, EnvIs, NestIs, LoopIs, SameAround, SameSight;
    PassAround(es, a);
    NestSame(es, a, b, functions, loop);
    PassSight(es, a);
    EnvSame(es, a, b, f.env);
    CollectNothing(es, a, b, f);
  }

  lemma AgreesFunction(es: seq<Event>, a: nat, b: nat, f: Facts, functions: seq<nat>, loop: Option<nat>)
    requires b == a + 1 <= |es| && Agrees(es, a, f, functions, loop) && es[a].EnterFunction?
    ensures Agrees(es, b, f.(functionCount := f.functionCount + 1), functions + [f.functionCount], None)
  {
    hide EnvIs, NestIs, LoopIs, SameAround, SameSight, DeclarationsAre, JumpsAre, UsesAre;
    EnterFunctionNest(es, a, b, functions);
    PassSight(es, a);
    EnvSame(es, a, b, f.env);
    CollectBracket(es, a, b, f);
  }

  lemma AgreesLoop(es: seq<Event>, a: nat, b: nat, f: Facts, functions: seq<nat>, loop: Option<nat>)
    requires b == a + 1 <= |es| && Agrees(es, a, f, functions, loop) && es[a].EnterLoop?
    ensures Agrees(es, b, f.(loopCount := f.loopCount + 1), functions, Some(f.loopCount))
  {
    hide EnvIs, NestIs, LoopIs, SameAround, SameSight, DeclarationsAre, JumpsAre, UsesAre;
    EnterLoopNest(es, a, b, functions);
    PassSight(es, a);
    EnvSame(es, a, b, f.env);
    CollectBracket(es, a, b, f);
  }

  /** After the bracket of a scope or a function the names in sight are those from before. */
  lemma AgreesAfter(
    es: seq<Event>, a: nat, b: nat, f: Facts, functions: seq<nat>, loop: Option<nat>, g: Facts, inner: seq<nat>,
    innerLoop: Option<nat>
  )
    requires Agrees(es, a, f, functions, loop) && a < b < |es| && Level(es, a + 1, b) && Level(es, a, b + 1)
    requires Agrees(es, b, g, inner, innerLoop)
    requires (es[a].EnterScope? && es[b].QuitScope?) || (es[a].EnterFunction? && es[b].QuitFunction?)
    ensures Agrees(es, b + 1, g.(env := f.env), functions, loop)
  {
    hide EnvIs, NestIs, LoopIs, SameAround, SameSight, DeclarationsAre, JumpsAre, UsesAre, Level;
    LevelAround(es, a, b + 1);
    NestSame(es, a, b + 1, functions, loop);
    LeaveSight(es, a, b);
    EnvSame(es, a, b + 1, f.env);
    CollectNothing(es, b, b + 1, g);
    CollectedApart(es, b + 1, g, f.env);
  }

  lemma CollectedApart(es: seq<Event>, q: nat, g: Facts, env: map<string, nat>)
    requires q <= |es| && Collected(es, q, g)
    ensures Collected(es, q, g.(env := env))
  {
    hide UsesAre;
    KeepsDeclarations(es, q, g, g.(env := env));
  }

  /** A loop opens no scope: names declared in it stay in sight. */
  lemma AgreesAfterLoop(
    es: seq<Event>, a: nat, b: nat, f: Facts, functions: seq<nat>, loop: Option<nat>, g: Facts, innerLoop: Option<nat>
  )
    requires Agrees(es, a, f, functions, loop) && a < b < |es| && Level(es, a, b + 1)
    requires Agrees(es, b, g, functions, innerLoop)
    requires es[a].EnterLoop? && es[b].QuitLoop?
    ensures Agrees(es, b + 1, g, functions, loop)
  {
    hide EnvIs, NestIs, LoopIs, SameAround, SameSight, Collected, Level;
    LevelAround(es, a, b + 1);
    NestSame(es, a, b + 1, functions, loop);
    PassSight(es, b);
    EnvSame(es, b, b + 1, g.env);
    CollectNothing(es, b, b + 1, g);
  }

  lemma {:induction false} WalkProgram(units: Units, f: Facts, es: seq<Event>, a: nat)
    requires Fits(es, a, ProgramEvents(units)) && Agrees(es, a, f, [], None) && f.env == map[]
    ensures Agrees(es, a + |ProgramEvents(units)|, LexicalUnits(units, f), [], None)
    decreases units
  {
    hide Agrees, Fits, Lexical, Events;
    match units
    case NoUnits =>
    case Unit(nodes, rest) =>
      FitsSplit(es, a, NodeEvents(ScopeOf(nodes)), ProgramEvents(rest));
      WalkNode(ScopeOf(nodes), f, [], None, es, a);
      WalkProgram(rest, LexicalNode(ScopeOf(nodes), f, [], None), es, a + |NodeEvents(ScopeOf(nodes))|);
  }

  lemma ProgramAgrees(units: Units)
    ensures
      var es := ProgramEvents(units);
      Agrees(es, |es|, LexicalUnits(units, NOTHING), [], None)
  {
    hide LexicalUnits;
    var es := ProgramEvents(units);
    assert Fits(es, 0, es);
    assert Agrees(es, 0, NOTHING, [], None);
    WalkProgram(units, NOTHING, es, 0);
  }

  /** Declarations are numbered from left to right, each with its kind and the innermost function around it. */
  lemma DeclarationsExact(units: Units, p: nat)
    requires p < |ProgramEvents(units)| && ProgramEvents(units)[p].Named?
    ensures
      var es, f := ProgramEvents(units), LexicalUnits(units, NOTHING);
      var d := Number(es, p, OfDeclaration);
      d < |f.kinds| && d < |f.owners| && f.kinds[d] == es[p].kind && OwnerIs(es, p, f.owners[d])
  {
    hide OwnerIs, NestIs, LoopIs, EnvIs, LexicalUnits, UsesAre, JumpIs;
    ProgramAgrees(units);
    assert DeclarationIs(ProgramEvents(units), p, LexicalUnits(units, NOTHING));
  }

  /** The uses are exactly those read off: every name used is a use of the declaration that it means,
      if that is a variable, a function, a parameter or a for-in variable, by the functions around it. */
  lemma UsesExact(units: Units, u: Use)
    ensures
      var es := ProgramEvents(units);
      u in LexicalUnits(units, NOTHING).uses <==> exists p: nat, q: nat :: q < |es| && UseIs(es, p, q, u)
  {
    hide UseIs, NestIs, LoopIs, EnvIs, LexicalUnits, DeclarationsAre, JumpsAre;
    ProgramAgrees(units);
  }

  /** A break or continue belongs to the innermost loop around it in the same function. */
  lemma JumpsExact(units: Units, p: nat)
    requires p < |ProgramEvents(units)| && ProgramEvents(units)[p].Jumped?
    ensures
      var es, targets := ProgramEvents(units), LexicalUnits(units, NOTHING).targets;
      Number(es, p, OfJump) < |targets| && LoopIs(es, p, targets[Number(es, p, OfJump)])
  {
    hide OwnerIs, NestIs, LoopIs, EnvIs, LexicalUnits, UsesAre, DeclarationsAre;
    ProgramAgrees(units);
    assert JumpIs(ProgramEvents(units), p, LexicalUnits(units, NOTHING));
  }

  // -------------------------------------------------------------------- storage classes

  /** Some function is around `p`. */
  ghost predicate InFunction(es: seq<Event>, p: nat) {
    exists h: nat :: Around(es, h, p, OfFunction)
  }

  /** A function entered after the declaration at `p` is around `q`. */
  ghost predicate Nested(es: seq<Event>, p: nat, q: nat) {
    exists h: nat :: p < h && Around(es, h, q, OfFunction)
  }

  /** The declaration at `p` is local to a function, and used at `q` in a function nested in that one. */
  ghost predicate UsedInside(es: seq<Event>, p: nat, q: nat) {
    InFunction(es, p) && Uses(es, p, q) && Nested(es, p, q)
  }

  /** The functions around `q` that are entered before `k`. */
  ghost function NestBefore(es: seq<Event>, k: nat, q: nat): (functions: seq<nat>)
    requires k <= |es|
    ensures Ascending(functions) && forall g :: g in functions ==> g < Number(es, k, OfFunction) && Surrounds(es, g, q)
    ensures forall p: nat :: p < k && Around(es, p, q, OfFunction) ==> Number(es, p, OfFunction) in functions
  {
    if k == 0 then []
    else
      var before := NestBefore(es, k - 1, q);
      assert forall i :: 0 <= i < |before| ==> before[i] in before && before[i] < Number(es, k - 1, OfFunction);
      if Around(es, k - 1, q, OfFunction) then before + [Number(es, k - 1, OfFunction)] else before
  }

  lemma NestExists(es: seq<Event>, q: nat) returns (functions: seq<nat>)
    requires q <= |es|
    ensures NestIs(es, q, functions)
  {
    functions := NestBefore(es, q, q);
    forall p: nat | Around(es, p, q, OfFunction) ensures p < q && Number(es, p, OfFunction) in functions {
      AroundBefore(es, p, q, OfFunction);
    }
  }

  lemma OwnerUnique(es: seq<Event>, q: nat, a: Option<nat>, b: Option<nat>)
    requires OwnerIs(es, q, a) && OwnerIs(es, q, b)
    ensures a == b
  {
    hide Around, Number;
  }

  lemma Owning(es: seq<Event>, q: nat, g: nat) returns (p: nat)
    requires OwnerIs(es, q, Some(g))
    ensures p < q <= |es| && es[p].EnterFunction? && Around(es, p, q, OfFunction) && Number(es, p, OfFunction) == g
    ensures NoneInside(es, p, q, OfFunction)
  {
    p :| Around(es, p, q, OfFunction) && Number(es, p, OfFunction) == g && NoneInside(es, p, q, OfFunction);
  }

  /** A function around a declaration is around its uses. */
  lemma StillAround(es: seq<Event>, h: nat, p: nat, q: nat)
    requires Around(es, h, p, OfFunction) && InSight(es, p, q)
    ensures Around(es, h, q, OfFunction)
  {
    forall r: nat | h < r <= q ensures Depth(es, h, false) < Depth(es, r, false) {
      assert r > p ==> Depth(es, p, false) <= Depth(es, r, false);
    }
  }

  /** A function around a use that is entered before the declaration is around the declaration. */
  lemma AroundEarlier(es: seq<Event>, h: nat, p: nat, q: nat)
    requires Around(es, h, q, OfFunction) && h < p < q
    ensures Around(es, h, p, OfFunction)
  {
  }

  /** For a use, the nest has the declaration's owner before its last function exactly when a
      function entered after the declaration is around the use. */
  lemma NestedExactly(es: seq<Event>, p: nat, q: nat, owner: Option<nat>, functions: seq<nat>)
    requires p < |es| && es[p].Named? && Uses(es, p, q) && OwnerIs(es, p, owner) && NestIs(es, q, functions)
    ensures InFunction(es, p) && Nested(es, p, q) <==>
            owner.Some? && functions != [] && owner.value in functions[..|functions| - 1]
  {
    hide Around, Means, Binds;
    MeansSight(es, es[q].name, p, q);
    OwnerInFunction(es, p, owner);
    if owner.Some? {
      var o := Owning(es, p, owner.value);
      StillAround(es, o, p, q);
      assert owner.value in functions;
      if Nested(es, p, q) {
        var h: nat :| p < h && Around(es, h, q, OfFunction);
        AroundBefore(es, h, q, OfFunction);
        NumberGrows(es, o, h, OfFunction);
        BeforeLast(functions, owner.value, Number(es, h, OfFunction));
      } else {
        LastIsOwner(es, o, p, q, functions);
      }
    }
  }

  lemma MeansSight(es: seq<Event>, name: string, p: nat, q: nat)
    requires Means(es, name, p, q)
    ensures p < q <= |es| && InSight(es, p, q)
  {
  }

  lemma BeforeLast(functions: seq<nat>, a: nat, b: nat)
    requires Ascending(functions) && a in functions && b in functions && a < b
    ensures functions != [] && a in functions[..|functions| - 1]
  {
    var i :| 0 <= i < |functions| && functions[i] == a;
    var j :| 0 <= j < |functions| && functions[j] == b;
    assert i < j;
    assert functions[..|functions| - 1][i] == a;
  }

  /** With no function in between, the declaration's owner is the innermost function around the use. */
  lemma LastIsOwner(es: seq<Event>, o: nat, p: nat, q: nat, functions: seq<nat>)
    requires o < p < q <= |es| && es[p].Named? && Around(es, o, p, OfFunction) && NoneInside(es, o, p, OfFunction)
    requires Around(es, o, q, OfFunction) && !Nested(es, p, q) && NestIs(es, q, functions)
    ensures functions == [] || Number(es, o, OfFunction) !in functions[..|functions| - 1]
  {
    hide Around;
    if functions != [] {
      var last := |functions| - 1;
      var h := Surrounding(es, functions[last], q);
      if o < h {
        assert h != p && !(p < h);
        AroundEarlier(es, h, p, q);
        assert false;
      }
      NumberGrows(es, h, o, OfFunction);
      forall i | 0 <= i < last ensures functions[i] < Number(es, o, OfFunction) {
      }
    }
  }

  /** What a function captures, read off the program: the declarations that some enclosing function
      owns and that it uses itself, the function having been entered after the declaration. */
  lemma CapturesExactly(s: State, units: Units, g: nat, p: nat)
    requires Follows(s, LexicalUnits(units, NOTHING), [], None)
    requires p < |ProgramEvents(units)| && ProgramEvents(units)[p].Named?
    ensures
      var es := ProgramEvents(units);
      g in s.captures && Number(es, p, OfDeclaration) in s.captures[g] <==>
        exists q: nat :: UsedInside(es, p, q) && OwnerIs(es, q, Some(g))
  {
    hide Follows, UsedInside, OwnerIs, LexicalUnits, Capturing, CaptureDue;
    var es, f := ProgramEvents(units), LexicalUnits(units, NOTHING);
    var d := Number(es, p, OfDeclaration);
    CapturedDue(s, f, g, d);
    if CaptureDue(f, g, d) {
      var q := DueIsUsed(units, g, p);
    }
    if q: nat :| UsedInside(es, p, q) && OwnerIs(es, q, Some(g)) {
      UsedIsDue(units, g, p, q);
    }
  }

  lemma CapturedDue(s: State, f: Facts, g: nat, d: nat)
    requires Follows(s, f, [], None)
    ensures g in s.captures && d in s.captures[g] <==> CaptureDue(f, g, d)
  {
    hide StackRight, EnvRight, ScopesRight, DeclarationsRight, UsesRight, CaptureDue;
    assert CapturedBy(s, g, d) <==> g in s.captures && d in s.captures[g];
  }

  lemma DueIsUsed(units: Units, g: nat, p: nat) returns (q: nat)
    requires p < |ProgramEvents(units)| && ProgramEvents(units)[p].Named?
    requires CaptureDue(LexicalUnits(units, NOTHING), g, Number(ProgramEvents(units), p, OfDeclaration))
    ensures UsedInside(ProgramEvents(units), p, q) && OwnerIs(ProgramEvents(units), q, Some(g))
  {
    hide Uses, NestIs, OwnerIs, LexicalUnits;
    var es, f := ProgramEvents(units), LexicalUnits(units, NOTHING);
    var d := Number(es, p, OfDeclaration);
    var u :| u in f.uses && u.declaration == d && Last(u.functions) == Some(g) && Capturing(u, f.owners);
    UsesExact(units, u);
    DeclarationsExact(units, p);
    var p': nat, r: nat :| r < |es| && UseIs(es, p', r, u);
    q := r;
    UsesBinding(es, p', q);
    SameDeclaration(es, p, p');
    NestedExactly(es, p, q, f.owners[d], u.functions);
    NestOwner(es, q, u.functions);
  }

  lemma UsesBinding(es: seq<Event>, p: nat, q: nat)
    requires Uses(es, p, q)
    ensures p < q < |es| && es[p].Named?
  {
  }

  lemma SameDeclaration(es: seq<Event>, p: nat, q: nat)
    requires p < |es| && q < |es| && es[p].Named? && es[q].Named?
    requires Number(es, p, OfDeclaration) == Number(es, q, OfDeclaration)
    ensures p == q
  {
    if p < q {
      NumberGrows(es, p, q, OfDeclaration);
    } else {
      NumberGrows(es, q, p, OfDeclaration);
    }
  }

  lemma UsedIsDue(units: Units, g: nat, p: nat, q: nat)
    requires p < |ProgramEvents(units)| && ProgramEvents(units)[p].Named?
    requires UsedInside(ProgramEvents(units), p, q) && OwnerIs(ProgramEvents(units), q, Some(g))
    ensures CaptureDue(LexicalUnits(units, NOTHING), g, Number(ProgramEvents(units), p, OfDeclaration))
  {
    hide Uses, NestIs, OwnerIs, LexicalUnits, InFunction, Nested;
    var es, f := ProgramEvents(units), LexicalUnits(units, NOTHING);
    var d := Number(es, p, OfDeclaration);
    UsesBinding(es, p, q);
    var functions := NestExists(es, q);
    var u := Use(functions, d);
    assert UseIs(es, p, q, u);
    UsesExact(units, u);
    DeclarationsExact(units, p);
    NestedExactly(es, p, q, f.owners[d], functions);
    NestOwner(es, q, functions);
    OwnerUnique(es, q, Last(functions), Some(g));
  }

  /** The storage class of the declaration at `p`, read off the program. */
  lemma StorageExactly(s: State, units: Units, exported: set<nat>, p: nat)
    requires Follows(s, LexicalUnits(units, NOTHING), [], None)
    requires p < |ProgramEvents(units)| && ProgramEvents(units)[p].Named?
    ensures
      var es := ProgramEvents(units);
      var d := Number(es, p, OfDeclaration);
      StorageClassFor(s, exported, d) ==
        if exists q: nat :: UsedInside(es, p, q) then Captured
        else if d in exported then Exported
        else if InFunction(es, p) then Local
        else Module
  {
    hide Follows, UsedInside, OwnerIs, LexicalUnits, InFunction;
    var es, f := ProgramEvents(units), LexicalUnits(units, NOTHING);
    var d := Number(es, p, OfDeclaration);
    DeclarationsExact(units, p);
    OwnedLocal(s, f, d);
    OwnerInFunction(es, p, f.owners[d]);
    forall g ensures g in s.captures && d in s.captures[g] <==> exists q: nat :: UsedInside(es, p, q) && OwnerIs(es, q, Some(g)) {
      CapturesExactly(s, units, g, p);
    }
    if q: nat :| UsedInside(es, p, q) {
      var g := NestedOwner(es, p, q);
      assert g in s.captures && d in s.captures[g];
    }
  }

  lemma OwnedLocal(s: State, f: Facts, d: nat)
    requires Follows(s, f, [], None) && d < |f.owners|
    ensures d < |s.declarations| && s.declarations[d].functionLocal == f.owners[d].Some?
  {
    hide StackRight, EnvRight, ScopesRight, CapturesRight, FunctionsRight, UsesRight;
  }

  lemma OwnerInFunction(es: seq<Event>, p: nat, owner: Option<nat>)
    requires OwnerIs(es, p, owner)
    ensures owner.Some? <==> InFunction(es, p)
  {
    hide Around;
  }

  lemma NestedOwner(es: seq<Event>, p: nat, q: nat) returns (g: nat)
    requires UsedInside(es, p, q)
    ensures OwnerIs(es, q, Some(g))
  {
    hide Around, OwnerIs;
    UsesBinding(es, p, q);
    var functions := NestExists(es, q);
    NestOwner(es, q, functions);
    var h: nat :| p < h && Around(es, h, q, OfFunction);
    AroundBefore(es, h, q, OfFunction);
    assert Number(es, h, OfFunction) in functions;
    g := functions[|functions| - 1];
  }

  /** A declaration kept in local storage is not exported, lies in a function, and no name used in a
      function nested in that one means it. */
  lemma LocalUnreached(s: State, units: Units, exported: set<nat>, p: nat, q: nat)
    requires Follows(s, LexicalUnits(units, NOTHING), [], None)
    requires p < |ProgramEvents(units)| && ProgramEvents(units)[p].Named?
    requires StorageClassFor(s, exported, Number(ProgramEvents(units), p, OfDeclaration)) == Local
    requires Uses(ProgramEvents(units), p, q)
    ensures
      var es := ProgramEvents(units);
      && Number(es, p, OfDeclaration) !in exported && InFunction(es, p)
      && forall owner :: OwnerIs(es, p, owner) ==> OwnerIs(es, q, owner)
  {
    hide Follows, LexicalUnits, Around, Uses, StorageClassFor;
    var es := ProgramEvents(units);
    StorageExactly(s, units, exported, p);
    assert !UsedInside(es, p, q);
    forall owner | OwnerIs(es, p, owner) ensures OwnerIs(es, q, owner) {
      OwnerKept(es, p, q, owner);
    }
  }

  lemma OwnerKept(es: seq<Event>, p: nat, q: nat, owner: Option<nat>)
    requires p < |es| && OwnerIs(es, p, owner) && Uses(es, p, q) && InFunction(es, p) && !Nested(es, p, q)
    ensures OwnerIs(es, q, owner)
  {
    hide Around, Means;
    UsesBinding(es, p, q);
    MeansSight(es, es[q].name, p, q);
    OwnerInFunction(es, p, owner);
    var o := Owning(es, p, owner.value);
    StillAround(es, o, p, q);
    forall r: nat | o < r ensures !Around(es, r, q, OfFunction) {
      if Around(es, r, q, OfFunction) {
        AroundBefore(es, r, q, OfFunction);
        if r < p {
          AroundEarlier(es, r, p, q);
        }
      }
    }
  }
}
