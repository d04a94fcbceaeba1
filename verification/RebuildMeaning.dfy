/** What a rebuild plan says of the listed modules and the previous records themselves: no index, no
    graph and none of the planner's comparisons occur in these statements.
 */
module RebuildMeaning {
  import opened Wrappers
  import opened ModuleCacheKey
  import opened Digraphs
  import opened ModuleCachePlanner

  /** No two modules and no two records have the same identity. */
  predicate NamedOnce(modules: seq<Module>, previous: seq<Record>) {
    && (forall i, j :: 0 <= i < j < |modules| ==> modules[i].identity != modules[j].identity)
    && (forall i, j :: 0 <= i < j < |previous| ==> previous[i].unit.identity != previous[j].unit.identity)
  }

  /** Module `i` lists module `j` as a dependency. */
  predicate DependsOn(modules: seq<Module>, i: nat, j: nat) {
    && i < |modules| && j < |modules|
    && exists k :: 0 <= k < |modules[i].dependencies| && modules[i].dependencies[k].identity == modules[j].identity
  }

  /** A walk of dependencies. */
  predicate Trail(modules: seq<Module>, p: seq<nat>) {
    && p != [] && (forall k :: 0 <= k < |p| ==> p[k] < |modules|)
    && forall k :: 0 <= k < |p| - 1 ==> DependsOn(modules, p[k], p[k + 1])
  }

  /** The record was written for this module with the interface that it has now. */
  predicate SameInterface(r: Record, m: Module) {
    r.unit.identity == m.identity && r.unit.interfaceHash == m.interfaceHash
  }

  /** The module has no previous record, or one with another interface. */
  predicate InterfaceMoved(previous: seq<Record>, m: Module) {
    !exists r :: r in previous && SameInterface(r, m)
  }

  /** Some walk from module `i` leads to one whose interface moved. */
  ghost predicate LeadsToMoved(modules: seq<Module>, previous: seq<Record>, i: nat) {
    exists p :: Trail(modules, p) && p[0] == i && InterfaceMoved(previous, modules[p[|p| - 1]])
  }

  ghost predicate DependencyMoved(modules: seq<Module>, previous: seq<Record>, i: nat) {
    exists j: nat :: DependsOn(modules, i, j) && LeadsToMoved(modules, previous, j)
  }

  ghost predicate DirectlyMoved(modules: seq<Module>, previous: seq<Record>, i: nat) {
    exists j: nat :: j < |modules| && DependsOn(modules, i, j) && InterfaceMoved(previous, modules[j])
  }

  /** The record was written for this module as it is now, its interface left aside, under this key. */
  predicate SameOwn(r: Record, m: Module, key: string) {
    && r.unit.identity == m.identity && r.unit.sourceHash == m.sourceHash && r.unit.dependencies == m.dependencies
    && r.unit.isEntry == m.isEntry && r.unit.entryOrder == m.entryOrder
    && r.unit.optimizationLevel == m.optimizationLevel && r.unit.optimizerPipeline == m.optimizerPipeline
    && r.unit.cacheKey == key
  }

  // ---------------------------------------------------------- the indexed inputs

  /** The planner's index of the modules is the list, keyed by identity. */
  ghost predicate IndexOf(modules: seq<Module>, hash: string -> string, current: map<string, Module>) {
    && (forall id :: id in current ==> exists i :: 0 <= i < |modules| && modules[i].identity == id)
    && forall i :: 0 <= i < |modules| ==>
         && modules[i].identity in current
         && current[modules[i].identity] == modules[i].(cacheKey := hash(KeyText(modules[i])))
  }

  lemma ModulesIndexed(modules: seq<Module>, previous: seq<Record>, hash: string -> string)
    requires NamedOnce(modules, previous)
    ensures IndexOf(modules, hash, ByIdentity(NormalizedAll(modules, hash)))
  {
    hide KeyText, ByIdentity;
    var r := NormalizedAll(modules, hash);
    ByIdentityIs(r);
    assert Distinct(r);
    forall id | id in ByIdentity(r) ensures exists i :: 0 <= i < |modules| && modules[i].identity == id {
      var i :| 0 <= i < |r| && r[i] == ByIdentity(r)[id];
      assert modules[i].identity == id;
    }
  }

  /** The planner's index of the records holds exactly the recorded modules. */
  ghost predicate Recorded(previous: seq<Record>, before: map<string, Module>) {
    && (forall id :: id in before ==> Holds(previous, before[id], id))
    && (forall r :: r in previous ==> r.unit.identity in before && before[r.unit.identity] == r.unit)
  }

  predicate Holds(previous: seq<Record>, m: Module, id: string) {
    exists r :: r in previous && r.unit == m && r.unit.identity == id
  }

  lemma RecordsIndexed(modules: seq<Module>, previous: seq<Record>)
    requires NamedOnce(modules, previous)
    ensures Recorded(previous, ByIdentity(Units(previous)))
  {
    hide ByIdentity;
    var units := Units(previous);
    ByIdentityIs(units);
    assert Distinct(units);
    var before := ByIdentity(units);
    forall id | id in before ensures Holds(previous, before[id], id) {
      var k :| 0 <= k < |units| && units[k] == before[id];
      assert previous[k] in previous;
    }
    forall r | r in previous ensures r.unit.identity in before && before[r.unit.identity] == r.unit {
      var k :| 0 <= k < |previous| && previous[k] == r;
      assert units[k].identity in before;
    }
  }

  /** The inputs of the evaluation stand for the lists. */
  ghost predicate StandsFor(x: Inputs, modules: seq<Module>, previous: seq<Record>, hash: string -> string) {
    NamedOnce(modules, previous) && IndexOf(modules, hash, x.current) && Recorded(previous, x.previous)
  }

  lemma InputsStandFor(
    modules: seq<Module>, previous: seq<Record>, hash: string -> string, artifactExists: string -> bool,
    emptyCacheReason: string
  )
    requires NamedOnce(modules, previous)
    ensures StandsFor(InputsOf(modules, previous, hash, artifactExists, emptyCacheReason), modules, previous, hash)
  {
    hide KeyText, ByIdentity, IndexOf, Recorded, NamedOnce;
    ModulesIndexed(modules, previous, hash);
    RecordsIndexed(modules, previous);
  }

  /** Dependencies between listed modules are links between their names. */
  lemma LinksAreDependencies(modules: seq<Module>, hash: string -> string, current: map<string, Module>, i: nat, j: nat)
    requires IndexOf(modules, hash, current) && i < |modules| && j < |modules|
    ensures Link(Targets(current), modules[i].identity, modules[j].identity) <==> DependsOn(modules, i, j)
  {
    hide KeyText;
    var a, b := modules[i].identity, modules[j].identity;
    var ds := modules[i].dependencies;
    assert Targets(current)[a] == Identities(ds);
    if Link(Targets(current), a, b) {
      var k :| 0 <= k < |ds| && Identities(ds)[k] == b;
      assert ds[k].identity == b;
    }
    if DependsOn(modules, i, j) {
      var k :| 0 <= k < |ds| && ds[k].identity == b;
      assert Identities(ds)[k] == b;
    }
  }

  function Names(modules: seq<Module>, p: seq<nat>): (w: seq<string>)
    requires forall k :: 0 <= k < |p| ==> p[k] < |modules|
    ensures |w| == |p| && forall k :: 0 <= k < |p| ==> w[k] == modules[p[k]].identity
  {
    seq(|p|, k requires 0 <= k < |p| => modules[p[k]].identity)
  }

  lemma TrailIsWalk(modules: seq<Module>, hash: string -> string, current: map<string, Module>, p: seq<nat>)
    requires IndexOf(modules, hash, current) && Trail(modules, p)
    ensures Walk(Targets(current), Names(modules, p))
  {
    hide Targets, Link, DependsOn, IndexOf;
    var w := Names(modules, p);
    forall k | 0 <= k < |w| - 1 ensures Link(Targets(current), w[k], w[k + 1]) {
      assert DependsOn(modules, p[k], p[k + 1]);
      LinksAreDependencies(modules, hash, current, p[k], p[k + 1]);
    }
  }

  /** A walk that ends at a listed module visits listed modules only. */
  lemma WalkIsTrail(modules: seq<Module>, hash: string -> string, current: map<string, Module>, w: seq<string>)
    returns (p: seq<nat>)
    requires IndexOf(modules, hash, current) && Walk(Targets(current), w) && w[|w| - 1] in current
    ensures Trail(modules, p) && Names(modules, p) == w
  {
    hide KeyText, DependsOn;
    forall k | 0 <= k < |w| ensures w[k] in current {
      if k < |w| - 1 {
        assert Link(Targets(current), w[k], w[k + 1]);
      }
    }
    p := seq(|w|, k requires 0 <= k < |w| => Position(modules, w[k]));
    assert Names(modules, p) == w;
    forall k | 0 <= k < |p| - 1 ensures DependsOn(modules, p[k], p[k + 1]) {
      assert Link(Targets(current), w[k], w[k + 1]);
      LinksAreDependencies(modules, hash, current, p[k], p[k + 1]);
    }
  }

  ghost function Position(modules: seq<Module>, id: string): (i: nat)
    requires exists i :: 0 <= i < |modules| && modules[i].identity == id
    ensures i < |modules| && modules[i].identity == id
  {
    var i :| 0 <= i < |modules| && modules[i].identity == id;
    i
  }

  /** With one module of each name, a trail is told by its names. */
  lemma SameName(modules: seq<Module>, previous: seq<Record>, i: nat, j: nat)
    requires NamedOnce(modules, previous) && i < |modules| && j < |modules|
    requires modules[i].identity == modules[j].identity
    ensures i == j
  {
  }

  // ------------------------------------------------------------- success and failure

  /** What a plan fails for, said of the lists: repeated identities, dependencies on modules that
      are not listed, and trails that come back to where they start. */
  lemma FailsExactly(modules: seq<Module>, previous: seq<Record>, hash: string -> string)
    ensures Distinct(modules) && Distinct(Units(previous)) <==> NamedOnce(modules, previous)
    ensures
      var g := Targets(ByIdentity(NormalizedAll(modules, hash)));
      NamedOnce(modules, previous) ==>
        && (Digraphs.Complete(g) <==>
             forall i, k :: 0 <= i < |modules| && 0 <= k < |modules[i].dependencies| ==>
               Listed(modules, modules[i].dependencies[k].identity))
        && (Acyclic(g) <==> !exists p :: Trail(modules, p) && |p| > 1 && p[0] == p[|p| - 1])
  {
    hide KeyText, ByIdentity;
    var units := Units(previous);
    assert forall k :: 0 <= k < |units| ==> units[k] == previous[k].unit;
    if NamedOnce(modules, previous) {
      ModulesIndexed(modules, previous, hash);
      CompleteExactly(modules, hash, ByIdentity(NormalizedAll(modules, hash)));
      AcyclicExactly(modules, previous, hash, ByIdentity(NormalizedAll(modules, hash)));
    }
  }

  predicate Listed(modules: seq<Module>, id: string) {
    exists j :: 0 <= j < |modules| && modules[j].identity == id
  }

  lemma CompleteExactly(modules: seq<Module>, hash: string -> string, current: map<string, Module>)
    requires IndexOf(modules, hash, current)
    ensures Digraphs.Complete(Targets(current)) <==>
            forall i, k :: 0 <= i < |modules| && 0 <= k < |modules[i].dependencies| ==>
              Listed(modules, modules[i].dependencies[k].identity)
  {
    hide KeyText;
    var g := Targets(current);
    if Digraphs.Complete(g) {
      forall i, k | 0 <= i < |modules| && 0 <= k < |modules[i].dependencies|
        ensures Listed(modules, modules[i].dependencies[k].identity)
      {
        assert g[modules[i].identity][k] == modules[i].dependencies[k].identity;
        assert Link(g, modules[i].identity, modules[i].dependencies[k].identity);
      }
    } else {
      var a, b :| Link(g, a, b) && b !in g;
      var i :| 0 <= i < |modules| && modules[i].identity == a;
      var k :| 0 <= k < |g[a]| && g[a][k] == b;
      assert modules[i].dependencies[k].identity == b && !Listed(modules, b);
    }
  }

  lemma AcyclicExactly(modules: seq<Module>, previous: seq<Record>, hash: string -> string, current: map<string, Module>)
    requires NamedOnce(modules, previous) && IndexOf(modules, hash, current)
    ensures Acyclic(Targets(current)) <==> !exists p :: Trail(modules, p) && |p| > 1 && p[0] == p[|p| - 1]
  {
    hide IndexOf, Targets, NamedOnce;
    var g := Targets(current);
    if p :| Trail(modules, p) && |p| > 1 && p[0] == p[|p| - 1] {
      TrailIsWalk(modules, hash, current, p);
      assert OnCycle(g, Names(modules, p)[0]);
    }
    if a :| OnCycle(g, a) {
      var w :| Walk(g, w) && |w| > 1 && w[0] == a && w[|w| - 1] == a;
      WalkStartsInside(current, w);
      var p := WalkIsTrail(modules, hash, current, w);
      assert |p| == |w|;
      SameName(modules, previous, p[0], p[|p| - 1]);
    }
  }

  lemma WalkStartsInside(current: map<string, Module>, w: seq<string>)
    requires Walk(Targets(current), w) && |w| > 1
    ensures w[0] in current
  {
    assert Link(Targets(current), w[0], w[1]);
  }

  // ------------------------------------------------------------------- decisions

  lemma MovedExactly(x: Inputs, modules: seq<Module>, previous: seq<Record>, hash: string -> string, i: nat)
    requires StandsFor(x, modules, previous, hash) && i < |modules|
    ensures modules[i].identity in x.current
    ensures PublicChanged(x, modules[i].identity) <==> InterfaceMoved(previous, modules[i])
  {
    hide KeyText, NamedOnce;
    var id := modules[i].identity;
    if r :| r in previous && SameInterface(r, modules[i]) {
      assert x.previous[id] == r.unit;
    }
    if !PublicChanged(x, id) {
      assert Holds(previous, x.previous[id], id);
      var r :| r in previous && r.unit == x.previous[id] && r.unit.identity == id;
      assert SameInterface(r, modules[i]);
    }
  }

  lemma ImpactExactly(x: Inputs, modules: seq<Module>, previous: seq<Record>, hash: string -> string, i: nat)
    requires StandsFor(x, modules, previous, hash) && i < |modules|
    ensures Impacted(x, modules[i].identity) <==> LeadsToMoved(modules, previous, i)
  {
    hide KeyText, Targets, IndexOf, Recorded, PublicChanged, InterfaceMoved, NamedOnce;
    var id := modules[i].identity;
    if Impacted(x, id) {
      var y :| Reaches(Targets(x.current), id, y) && y in x.current && PublicChanged(x, y);
      var w :| Walk(Targets(x.current), w) && w[0] == id && w[|w| - 1] == y;
      var p := WalkIsTrail(modules, hash, x.current, w);
      SameName(modules, previous, p[0], i);
      MovedExactly(x, modules, previous, hash, p[|p| - 1]);
    }
    if p :| Trail(modules, p) && p[0] == i && InterfaceMoved(previous, modules[p[|p| - 1]]) {
      var w := Names(modules, p);
      TrailIsWalk(modules, hash, x.current, p);
      MovedExactly(x, modules, previous, hash, p[|p| - 1]);
      assert Reaches(Targets(x.current), id, w[|w| - 1]);
    }
  }

  lemma DependenciesExactly(x: Inputs, modules: seq<Module>, previous: seq<Record>, hash: string -> string, i: nat)
    requires StandsFor(x, modules, previous, hash) && i < |modules|
    ensures DependencyImpacted(x, modules[i].identity) <==> DependencyMoved(modules, previous, i)
    ensures DirectlyImpacted(x, modules[i].identity) <==> DirectlyMoved(modules, previous, i)
  {
    hide KeyText, StandsFor, Targets, Link, PublicChanged, InterfaceMoved, NamedOnce, Impacted, LeadsToMoved, DependsOn;
    var id := modules[i].identity;
    forall j: nat | j < |modules|
      ensures DependsOn(modules, i, j) ==> Link(Targets(x.current), id, modules[j].identity)
      ensures Impacted(x, modules[j].identity) <==> LeadsToMoved(modules, previous, j)
      ensures modules[j].identity in x.current
      ensures PublicChanged(x, modules[j].identity) <==> InterfaceMoved(previous, modules[j])
    {
      NeighbourExactly(x, modules, previous, hash, i, j);
    }
    forall j: nat | DependsOn(modules, i, j) ensures j < |modules| {
      InRange(modules, i, j);
    }
    if d :| Link(Targets(x.current), id, d) && Impacted(x, d) {
      var j := ImpactedListed(x, modules, previous, hash, d);
      NeighbourExactly(x, modules, previous, hash, i, j);
    }
    if d :| Link(Targets(x.current), id, d) && d in x.current && PublicChanged(x, d) {
      var j := ImpactedListed(x, modules, previous, hash, d);
      NeighbourExactly(x, modules, previous, hash, i, j);
    }
  }

  lemma NeighbourExactly(x: Inputs, modules: seq<Module>, previous: seq<Record>, hash: string -> string, i: nat, j: nat)
    requires StandsFor(x, modules, previous, hash) && i < |modules| && j < |modules|
    ensures DependsOn(modules, i, j) <==> Link(Targets(x.current), modules[i].identity, modules[j].identity)
    ensures Impacted(x, modules[j].identity) <==> LeadsToMoved(modules, previous, j)
    ensures modules[j].identity in x.current
    ensures PublicChanged(x, modules[j].identity) <==> InterfaceMoved(previous, modules[j])
  {
    hide KeyText, Targets, Link, PublicChanged, InterfaceMoved, NamedOnce, IndexOf, Recorded, Impacted, LeadsToMoved,
      DependsOn;
    LinksAreDependencies(modules, hash, x.current, i, j);
    ImpactExactly(x, modules, previous, hash, j);
    MovedExactly(x, modules, previous, hash, j);
  }

  lemma InRange(modules: seq<Module>, i: nat, j: nat)
    requires DependsOn(modules, i, j)
    ensures j < |modules|
  {
  }

  /** Whatever is impacted is a listed module. */
  lemma ImpactedListed(x: Inputs, modules: seq<Module>, previous: seq<Record>, hash: string -> string, d: string)
    returns (j: nat)
    requires StandsFor(x, modules, previous, hash) && (Impacted(x, d) || d in x.current)
    ensures j < |modules| && modules[j].identity == d
  {
    hide KeyText;
    if Impacted(x, d) {
      var y :| Reaches(Targets(x.current), d, y) && y in x.current && PublicChanged(x, y);
      var next := ReachesUnfold(Targets(x.current), d, y);
      assert d in x.current;
    }
    j :| 0 <= j < |modules| && modules[j].identity == d;
  }

  /** The decision for the listed module `i`, in the terms of the lists: what is decided, and when. */
  lemma PlanMeans(
    modules: seq<Module>, previous: seq<Record>, hash: string -> string, artifactExists: string -> bool,
    emptyCacheReason: string, i: nat, d: Decision
  )
    requires NamedOnce(modules, previous) && i < |modules|
    requires DecisionRight(InputsOf(modules, previous, hash, artifactExists, emptyCacheReason), modules[i].identity, d)
    ensures
      var key := hash(KeyText(modules[i]));
      var artifact := "products/product-" + key + ".cdbc";
      && d.unit == modules[i].(cacheKey := key) && d.artifactPath == artifact
      && (d.publicImpact <==> LeadsToMoved(modules, previous, i))
      && (d.status == Reused <==>
           && (exists r :: r in previous && SameOwn(r, modules[i], key))
           && artifactExists(artifact)
           && !DependencyMoved(modules, previous, i))
  {
    hide KeyText, ByIdentity, Impacted, LeadsToMoved, DependencyImpacted, DependencyMoved, DirectlyImpacted,
      DirectlyMoved, NamedOnce, Recorded, OwnInputsSame, SameOwn, Reason;
    var x := InputsOf(modules, previous, hash, artifactExists, emptyCacheReason);
    InputsStandFor(modules, previous, hash, artifactExists, emptyCacheReason);
    ImpactExactly(x, modules, previous, hash, i);
    DependenciesExactly(x, modules, previous, hash, i);
    OwnExactly(modules[i], previous, x);
  }

  lemma OwnExactly(m: Module, previous: seq<Record>, x: Inputs)
    requires Recorded(previous, x.previous) && m.identity in x.current
    requires x.current[m.identity] == m.(cacheKey := x.current[m.identity].cacheKey)
    ensures OwnInputsSame(x, m.identity) <==>
            exists r :: r in previous && SameOwn(r, m, x.current[m.identity].cacheKey)
  {
    var id := m.identity;
    if OwnInputsSame(x, id) {
      assert Holds(previous, x.previous[id], id);
      var r :| r in previous && r.unit == x.previous[id] && r.unit.identity == id;
      assert SameOwn(r, m, x.current[id].cacheKey);
    }
    if r :| r in previous && SameOwn(r, m, x.current[id].cacheKey) {
      assert x.previous[id] == r.unit;
    }
  }

  /** The reason given for a rebuild names the first thing that differs, in this order. */
  lemma ReasonMeans(
    modules: seq<Module>, previous: seq<Record>, hash: string -> string, artifactExists: string -> bool,
    emptyCacheReason: string, i: nat, d: Decision
  )
    requires NamedOnce(modules, previous) && i < |modules|
    requires DecisionRight(InputsOf(modules, previous, hash, artifactExists, emptyCacheReason), modules[i].identity, d)
    ensures d.status == Reused ==> d.reason == "cache_hit"
    ensures d.status == Rebuilt && (forall r :: r in previous ==> r.unit.identity != modules[i].identity) ==>
              d.reason == emptyCacheReason
    ensures d.status == Rebuilt ==>
              forall r :: r in previous && r.unit.identity == modules[i].identity ==>
                FirstDifference(
                  r.unit, modules[i].(cacheKey := hash(KeyText(modules[i]))), DirectlyMoved(modules, previous, i),
                  DependencyMoved(modules, previous, i), d.reason)
  {
    hide KeyText, ByIdentity, Impacted, LeadsToMoved, DependencyImpacted, DependencyMoved, DirectlyImpacted,
      DirectlyMoved, NamedOnce, Recorded, OwnInputsSame, Reason, FirstDifference;
    var x := InputsOf(modules, previous, hash, artifactExists, emptyCacheReason);
    InputsStandFor(modules, previous, hash, artifactExists, emptyCacheReason);
    DependenciesExactly(x, modules, previous, hash, i);
    if d.status == Rebuilt {
      var id := modules[i].identity;
      ReasonExactly(x, modules[i], previous, DirectlyImpacted(x, id), DependencyImpacted(x, id));
    } else {
      ReasonReused(x, modules[i].identity, d);
    }
  }

  lemma ReasonReused(x: Inputs, id: string, d: Decision)
    requires DecisionRight(x, id, d) && d.status == Reused
    ensures d.reason == "cache_hit"
  {
    hide Impacted, OwnInputsSame, DirectlyImpacted, DependencyImpacted;
  }

  lemma ReasonExactly(x: Inputs, m: Module, previous: seq<Record>, direct: bool, transitive: bool)
    requires Recorded(previous, x.previous) && m.identity in x.current
    ensures
      var reason := Reason(x, m.identity, false, direct, transitive);
      && ((forall r :: r in previous ==> r.unit.identity != m.identity) ==> reason == x.emptyCacheReason)
      && forall r :: r in previous && r.unit.identity == m.identity ==>
           FirstDifference(r.unit, x.current[m.identity], direct, transitive, reason)
  {
    var id := m.identity;
    if id in x.previous {
      assert Holds(previous, x.previous[id], id);
    }
    forall r | r in previous && r.unit.identity == id
      ensures FirstDifference(r.unit, x.current[id], direct, transitive, Reason(x, id, false, direct, transitive))
    {
      assert x.previous[id] == r.unit;
    }
  }

  /** The reason and what it says of the module then, the module now and its dependencies. */
  predicate FirstDifference(then': Module, now': Module, direct: bool, transitive: bool, reason: string) {
    var source := then'.sourceHash != now'.sourceHash;
    var public' := then'.interfaceHash != now'.interfaceHash;
    var graph := then'.dependencies != now'.dependencies;
    var metadata := then'.isEntry != now'.isEntry || then'.entryOrder != now'.entryOrder;
    var optimization :=
      then'.optimizationLevel != now'.optimizationLevel || then'.optimizerPipeline != now'.optimizerPipeline;
    var key := then'.cacheKey != now'.cacheKey;
    var dependency := direct || transitive;
    && (source && public' ==> reason == "source_and_public_interface_changed")
    && (source && !public' ==> reason == "source_changed")
    && (direct && !source ==> reason == "dependency_interface_changed")
    && (transitive && !source && !direct ==> reason == "transitive_dependency_interface_changed")
    && (graph && !source && !dependency ==> reason == "dependency_graph_changed")
    && (public' && !source && !dependency && !graph ==> reason == "public_interface_changed")
    && (metadata && !source && !public' && !dependency && !graph ==> reason == "module_metadata_changed")
    && (optimization && !source && !public' && !dependency && !graph && !metadata ==>
         reason == "optimization_configuration_changed")
    && (key && !source && !public' && !dependency && !graph && !metadata && !optimization ==>
         reason == "cache_key_changed")
    && (!source && !public' && !dependency && !graph && !metadata && !optimization && !key ==>
         reason == "cache_artifact_missing")
  }

  /** A module that is as it was is reused although a dependency was edited, when no interface that it
      can reach moved. */
  lemma EditsStayInside(
    modules: seq<Module>, previous: seq<Record>, hash: string -> string, artifactExists: string -> bool,
    emptyCacheReason: string, i: nat, d: Decision
  )
    requires NamedOnce(modules, previous) && i < |modules|
    requires DecisionRight(InputsOf(modules, previous, hash, artifactExists, emptyCacheReason), modules[i].identity, d)
    requires exists r :: r in previous && SameOwn(r, modules[i], hash(KeyText(modules[i])))
    requires artifactExists("products/product-" + hash(KeyText(modules[i])) + ".cdbc")
    requires forall j :: 0 <= j < |modules| ==> !InterfaceMoved(previous, modules[j])
    ensures d.status == Reused && !d.publicImpact && d.reason == "cache_hit"
  {
    hide KeyText, NamedOnce, DecisionRight, InterfaceMoved, DependsOn, SameOwn;
    PlanMeans(modules, previous, hash, artifactExists, emptyCacheReason, i, d);
    ReasonMeans(modules, previous, hash, artifactExists, emptyCacheReason, i, d);
  }
}
