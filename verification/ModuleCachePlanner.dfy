/** The incremental rebuild planner: a memoised depth-first evaluation of the module graph,
    proved against reachability.
 */
module ModuleCachePlanner {
  import opened Wrappers
  import opened ModuleCacheKey
  import opened Digraphs

  datatype Record = Record(unit: Module, artifactPath: string, interfaceArtifactPath: string)

  datatype Status = Reused | Rebuilt

  datatype Decision = Decision(unit: Module, status: Status, reason: string, artifactPath: string, publicImpact: bool)

  datatype Failure = DuplicateCurrent | DuplicatePrevious | CycleAt(identity: string) | MissingModule(identity: string)

  datatype Evaluation = Visiting | Complete(ownPublicChanged: bool, publicImpact: bool, decision: Decision)

  /** What a plan depends on: the modules now, the modules of the previous build and the stored artifacts. */
  datatype Inputs = Inputs(
    current: map<string, Module>, previous: map<string, Module>, artifactExists: string -> bool, emptyCacheReason: string)

  function ArtifactPath(m: Module): string {
    "products/product-" + m.cacheKey + ".cdbc"
  }

  function Identities(ds: seq<Dependency>): (ids: seq<string>)
    ensures |ids| == |ds| && forall k :: 0 <= k < |ds| ==> ids[k] == ds[k].identity
  {
    seq(|ds|, k requires 0 <= k < |ds| => ds[k].identity)
  }

  function Targets(current: map<string, Module>): Digraph {
    map id | id in current :: Identities(current[id].dependencies)
  }

  // -------------------------------------------------------------- what has changed

  predicate SourceChanged(x: Inputs, id: string)
    requires id in x.current
  {
    id !in x.previous || x.previous[id].sourceHash != x.current[id].sourceHash
  }

  predicate PublicChanged(x: Inputs, id: string)
    requires id in x.current
  {
    id !in x.previous || x.previous[id].interfaceHash != x.current[id].interfaceHash
  }

  predicate DependenciesChanged(x: Inputs, id: string)
    requires id in x.current
  {
    id !in x.previous || x.previous[id].dependencies != x.current[id].dependencies
  }

  predicate MetadataChanged(x: Inputs, id: string)
    requires id in x.current
  {
    || id !in x.previous
    || x.previous[id].isEntry != x.current[id].isEntry || x.previous[id].entryOrder != x.current[id].entryOrder
  }

  predicate OptimizationChanged(x: Inputs, id: string)
    requires id in x.current
  {
    || id !in x.previous
    || x.previous[id].optimizationLevel != x.current[id].optimizationLevel
    || x.previous[id].optimizerPipeline != x.current[id].optimizerPipeline
  }

  predicate KeyChanged(x: Inputs, id: string)
    requires id in x.current
  {
    id !in x.previous || x.previous[id].cacheKey != x.current[id].cacheKey
  }

  /** Nothing that the planner compares of the module itself has changed. */
  predicate OwnInputsSame(x: Inputs, id: string)
    requires id in x.current
  {
    && !SourceChanged(x, id) && !DependenciesChanged(x, id) && !MetadataChanged(x, id)
    && !OptimizationChanged(x, id) && !KeyChanged(x, id)
  }

  /** Some module that `id` reaches, itself included, is new or has another public interface. */
  ghost predicate Impacted(x: Inputs, id: string) {
    exists y :: Reaches(Targets(x.current), id, y) && y in x.current && PublicChanged(x, y)
  }

  ghost predicate DependencyImpacted(x: Inputs, id: string) {
    exists d :: Link(Targets(x.current), id, d) && Impacted(x, d)
  }

  ghost predicate DirectlyImpacted(x: Inputs, id: string) {
    exists d :: Link(Targets(x.current), id, d) && d in x.current && PublicChanged(x, d)
  }

  lemma ImpactedUnfold(x: Inputs, id: string)
    requires id in x.current
    ensures Impacted(x, id) <==> PublicChanged(x, id) || DependencyImpacted(x, id)
  {
    var g := Targets(x.current);
    ReachesSelf(g, id);
    if y :| Reaches(g, id, y) && y in x.current && PublicChanged(x, y) {
      var d := ReachesUnfold(g, id, y);
    }
    if d :| Link(g, id, d) && Impacted(x, d) {
      var y :| Reaches(g, d, y) && y in x.current && PublicChanged(x, y);
      ReachesFirst(g, id, d, y);
    }
  }

  /** The report's reason: the first that applies. */
  function Reason(x: Inputs, id: string, reused: bool, direct: bool, transitive: bool): string
    requires id in x.current
  {
    if reused then "cache_hit"
    else if id !in x.previous then x.emptyCacheReason
    else if SourceChanged(x, id) && PublicChanged(x, id) then "source_and_public_interface_changed"
    else if SourceChanged(x, id) then "source_changed"
    else if direct then "dependency_interface_changed"
    else if transitive then "transitive_dependency_interface_changed"
    else if DependenciesChanged(x, id) then "dependency_graph_changed"
    else if PublicChanged(x, id) then "public_interface_changed"
    else if MetadataChanged(x, id) then "module_metadata_changed"
    else if OptimizationChanged(x, id) then "optimization_configuration_changed"
    else if KeyChanged(x, id) then "cache_key_changed"
    else "cache_artifact_missing"
  }

  /** The decision for a module, stated over the whole graph. */
  ghost predicate DecisionRight(x: Inputs, id: string, d: Decision) {
    && id in x.current
    && d.unit == x.current[id] && d.artifactPath == ArtifactPath(x.current[id])
    && d.publicImpact == Impacted(x, id)
    && (d.status == Reused <==>
         OwnInputsSame(x, id) && !DependencyImpacted(x, id) && x.artifactExists(ArtifactPath(x.current[id])))
    && d.reason == Reason(x, id, d.status == Reused, DirectlyImpacted(x, id), DependencyImpacted(x, id))
  }

  ghost predicate EvaluationRight(x: Inputs, id: string, e: Evaluation) {
    && e.Complete? && DecisionRight(x, id, e.decision)
    && e.ownPublicChanged == PublicChanged(x, id) && e.publicImpact == Impacted(x, id)
  }

  /** Some of the first `k` dependencies is impacted, in itself or through others. */
  ghost predicate ImpactedAmong(x: Inputs, ds: seq<Dependency>, k: nat) {
    exists j :: 0 <= j < k && j < |ds| && Impacted(x, ds[j].identity)
  }

  ghost predicate ChangedAmong(x: Inputs, ds: seq<Dependency>, k: nat) {
    exists j :: 0 <= j < k && j < |ds| && ds[j].identity in x.current && PublicChanged(x, ds[j].identity)
  }

  lemma AllAmong(x: Inputs, id: string)
    requires id in x.current
    ensures
      var ds := x.current[id].dependencies;
      && ImpactedAmong(x, ds, |ds|) == DependencyImpacted(x, id)
      && ChangedAmong(x, ds, |ds|) == DirectlyImpacted(x, id)
  {
    hide Impacted, PublicChanged;
    var g, ds := Targets(x.current), x.current[id].dependencies;
    forall k | 0 <= k < |ds| ensures Link(g, id, ds[k].identity) {
      assert g[id][k] == ds[k].identity;
    }
    forall d | Link(g, id, d) ensures exists k :: 0 <= k < |ds| && ds[k].identity == d {
      var k :| 0 <= k < |g[id]| && g[id][k] == d;
      assert ds[k].identity == d;
    }
  }

  // ------------------------------------------------------------- the evaluation

  /** Every evaluation is under way, on the stack, or complete, in the postorder, and right. */
  ghost predicate Consistent(x: Inputs, evaluations: map<string, Evaluation>, order: seq<string>, stack: seq<string>) {
    && Postorder(Targets(x.current), order)
    && (forall id :: id in evaluations ==> SeenRight(x, evaluations[id], id, order, stack))
    && (forall id :: id in stack || id in order ==> id in evaluations)
  }

  ghost predicate SeenRight(x: Inputs, e: Evaluation, id: string, order: seq<string>, stack: seq<string>) {
    && id in x.current
    && (id in stack <==> e.Visiting?)
    && (id in order <==> e.Complete?)
    && (e.Complete? ==> EvaluationRight(x, id, e))
  }

  lemma Seen(x: Inputs, evaluations: map<string, Evaluation>, order: seq<string>, stack: seq<string>, id: string)
    requires Consistent(x, evaluations, order, stack) && id in evaluations
    ensures id in x.current && (id in stack <==> evaluations[id].Visiting?) && (id in order <==> evaluations[id].Complete?)
    ensures evaluations[id].Complete? ==> EvaluationRight(x, id, evaluations[id])
  {
    hide EvaluationRight, Postorder;
  }

  lemma Listed(x: Inputs, evaluations: map<string, Evaluation>, order: seq<string>, stack: seq<string>, id: string)
    requires Consistent(x, evaluations, order, stack) && (id in stack || id in order)
    ensures id in evaluations
  {
    hide EvaluationRight, Postorder;
  }

  lemma Begins(x: Inputs, evaluations: map<string, Evaluation>, order: seq<string>, stack: seq<string>, id: string)
    requires Consistent(x, evaluations, order, stack) && id !in evaluations && id in x.current
    ensures Consistent(x, evaluations[id := Visiting], order, stack + [id])
  {
    hide EvaluationRight, Postorder;
    var after := evaluations[id := Visiting];
    forall i | i in after ensures SeenRight(x, after[i], i, order, stack + [id]) {
      assert i != id ==> SeenRight(x, evaluations[i], i, order, stack);
    }
  }

  lemma Ends(
    x: Inputs, evaluations: map<string, Evaluation>, order: seq<string>, stack: seq<string>, id: string, e: Evaluation
  )
    requires Consistent(x, evaluations, order, stack + [id]) && id !in stack
    requires EvaluationRight(x, id, e) && id in x.current
    requires AllListed(x.current[id].dependencies, |x.current[id].dependencies|, order)
    ensures Consistent(x, evaluations[id := e], order + [id], stack)
  {
    hide DecisionRight, Impacted, PublicChanged;
    var g := Targets(x.current);
    forall t | t in g[id] ensures t in order {
      var k :| 0 <= k < |g[id]| && g[id][k] == t;
    }
    PostorderMore(g, order, id);
    EndsSeen(x, evaluations, order, stack, id, e);
  }

  lemma EndsSeen(
    x: Inputs, evaluations: map<string, Evaluation>, order: seq<string>, stack: seq<string>, id: string, e: Evaluation
  )
    requires Consistent(x, evaluations, order, stack + [id]) && id !in stack && EvaluationRight(x, id, e) && id in x.current
    ensures
      var after := evaluations[id := e];
      && (forall i :: i in after ==> SeenRight(x, after[i], i, order + [id], stack))
      && (forall i :: i in stack || i in order + [id] ==> i in after)
  {
    hide DecisionRight, Impacted, PublicChanged, Postorder;
    var after := evaluations[id := e];
    forall i | i in after ensures SeenRight(x, after[i], i, order + [id], stack) {
      if i != id {
        assert SeenRight(x, evaluations[i], i, order, stack + [id]);
      }
    }
    forall i | i in stack || i in order + [id] ensures i in after {
      assert i != id ==> i in stack + [id] || i in order;
    }
  }

  predicate AllListed(ds: seq<Dependency>, k: nat, order: seq<string>) {
    forall j :: 0 <= j < k && j < |ds| ==> ds[j].identity in order
  }

  lemma NoneListed(ds: seq<Dependency>, order: seq<string>)
    ensures AllListed(ds, 0, order)
  {
  }

  lemma StillListed(ds: seq<Dependency>, k: nat, before: seq<string>, order: seq<string>)
    requires AllListed(ds, k, before) && before <= order && k < |ds| && ds[k].identity in order
    ensures AllListed(ds, k + 1, order)
  {
    forall j | 0 <= j < k + 1 ensures ds[j].identity in order {
      if j < k {
        assert ds[j].identity in before;
        var i :| 0 <= i < |before| && before[i] == ds[j].identity;
        assert order[i] == before[i];
      }
    }
  }

  class Planner {
    const inputs: Inputs
    var evaluations: map<string, Evaluation>
    ghost var order: seq<string>  // the identities whose evaluation is complete

    constructor (x: Inputs)
      ensures inputs == x && order == [] && Valid([])
    {
      inputs := x;
      evaluations := map[];
      order := [];
    }

    ghost function Graph(): Digraph {
      Targets(inputs.current)
    }

    /** `stack` lists the identities whose evaluation is under way. */
    ghost predicate Valid(stack: seq<string>)
      reads this
    {
      Consistent(inputs, evaluations, order, stack)
    }

    /** `id` is a module, or the target of the module on top of the stack. */
    ghost predicate Called(stack: seq<string>, id: string) {
      if stack == [] then id in inputs.current
      else Walk(Graph(), stack) && Link(Graph(), stack[|stack| - 1], id)
    }

    lemma CalledDeeper(stack: seq<string>, id: string, k: nat)
      requires Called(stack, id) && id in inputs.current && k < |inputs.current[id].dependencies|
      ensures Called(stack + [id], inputs.current[id].dependencies[k].identity)
    {
      var g := Graph();
      if stack == [] {
        assert stack + [id] == [id];
        assert Walk(g, [id]);
      } else {
        WalkLast(g, stack, id);
      }
      assert g[id][k] == inputs.current[id].dependencies[k].identity;
    }

    /** Evaluates an identity after everything it depends on. */
    method Evaluate(id: string, ghost stack: seq<string>) returns (failure: Option<Failure>)
      requires Valid(stack) && Called(stack, id)
      modifies this`evaluations, this`order
      ensures failure == None ==> Valid(stack) && id in order && old(order) <= order
      ensures failure == None ==> old(evaluations.Keys) <= evaluations.Keys
      ensures failure.Some? ==> FailureRight(failure.value)
      decreases |inputs.current.Keys - evaluations.Keys|
    {
      hide Consistent, SeenRight, EvaluationRight, DecisionRight, Impacted, PublicChanged, DirectlyImpacted,
        DependencyImpacted, ImpactedAmong, ChangedAmong, Called, FailureRight, Targets, Postorder, AllListed;
      if id in evaluations {
        Seen(inputs, evaluations, order, stack, id);
        if evaluations[id].Complete? {
          return None;
        }
        Revisited(stack, id);
        return Some(CycleAt(id));
      }
      if id !in inputs.current {
        Dangling(stack, id);
        return Some(MissingModule(id));
      }
      ghost var before := evaluations;
      Begins(inputs, evaluations, order, stack, id);
      NotOnStack(stack, id);
      evaluations := evaluations[id := Visiting];
      Fewer(inputs.current.Keys, before.Keys, id);
      var ds := inputs.current[id].dependencies;
      var transitive, direct := false, false;
      NoneAmong(ds);
      NoneListed(ds, order);
      for k := 0 to |ds|
        invariant Valid(stack + [id]) && before.Keys + {id} <= evaluations.Keys && old(order) <= order
        invariant AllListed(ds, k, order)
        invariant transitive == ImpactedAmong(inputs, ds, k) && direct == ChangedAmong(inputs, ds, k)
      {
        CalledDeeper(stack, id, k);
        FewerStill(inputs.current.Keys, before.Keys + {id}, evaluations.Keys);
        ghost var listed := order;
        failure := Evaluate(ds[k].identity, stack + [id]);
        if failure.Some? {
          return;
        }
        StillListed(ds, k, listed, order);
        Listed(inputs, evaluations, order, stack + [id], ds[k].identity);
        Seen(inputs, evaluations, order, stack + [id], ds[k].identity);
        var e := evaluations[ds[k].identity];
        OneMoreAmong(ds, k, e);
        transitive, direct := transitive || e.publicImpact, direct || e.ownPublicChanged;
      }
      AllAmong(inputs, id);
      var e := Decide(id, direct, transitive);
      Ends(inputs, evaluations, order, stack, id, e);
      evaluations := evaluations[id := e];
      order := order + [id];
      return None;
    }

    ghost predicate FailureRight(failure: Failure) {
      match failure
      case CycleAt(id) => OnCycle(Graph(), id)
      case MissingModule(id) => id !in Graph() && exists a :: Link(Graph(), a, id)
      case _ => false
    }

    /** The evaluation of a module once its dependencies are known. */
    method Decide(id: string, direct: bool, transitive: bool) returns (e: Evaluation)
      requires id in inputs.current && direct == DirectlyImpacted(inputs, id) && transitive == DependencyImpacted(inputs, id)
      ensures EvaluationRight(inputs, id, e)
    {
      hide DirectlyImpacted, DependencyImpacted, Impacted;
      ImpactedUnfold(inputs, id);
      var unit := inputs.current[id];
      var publicChanged := PublicChanged(inputs, id);
      var artifactMissing := !inputs.artifactExists(ArtifactPath(unit));
      var needsRebuild :=
        || SourceChanged(inputs, id) || DependenciesChanged(inputs, id) || transitive || MetadataChanged(inputs, id)
        || OptimizationChanged(inputs, id) || KeyChanged(inputs, id) || artifactMissing;
      var status := if needsRebuild then Rebuilt else Reused;
      var reason := Reason(inputs, id, !needsRebuild, direct, transitive);
      var decision := Decision(unit, status, reason, ArtifactPath(unit), publicChanged || transitive);
      e := Complete(publicChanged, publicChanged || transitive, decision);
    }

    lemma NotOnStack(stack: seq<string>, id: string)
      requires Valid(stack) && id !in evaluations
      ensures id !in stack
    {
      hide EvaluationRight, Postorder;
    }

    lemma Revisited(stack: seq<string>, id: string)
      requires Called(stack, id) && id in stack
      ensures FailureRight(CycleAt(id))
    {
      ClosesCycle(Graph(), stack, id);
    }

    lemma Dangling(stack: seq<string>, id: string)
      requires Called(stack, id) && id !in inputs.current
      ensures FailureRight(MissingModule(id))
    {
      assert Link(Graph(), stack[|stack| - 1], id);
    }

    lemma NoneAmong(ds: seq<Dependency>)
      ensures !ImpactedAmong(inputs, ds, 0) && !ChangedAmong(inputs, ds, 0)
    {
    }

    lemma OneMoreAmong(ds: seq<Dependency>, k: nat, e: Evaluation)
      requires k < |ds| && EvaluationRight(inputs, ds[k].identity, e)
      ensures e.Complete?
      ensures ImpactedAmong(inputs, ds, k + 1) == (ImpactedAmong(inputs, ds, k) || e.publicImpact)
      ensures ChangedAmong(inputs, ds, k + 1) == (ChangedAmong(inputs, ds, k) || e.ownPublicChanged)
    {
      hide Impacted, PublicChanged;
    }
  }

  lemma Fewer(all: set<string>, seen: set<string>, id: string)
    requires id in all && id !in seen
    ensures |all - (seen + {id})| < |all - seen|
  {
    assert all - seen == (all - (seen + {id})) + {id};
  }

  lemma FewerStill(all: set<string>, seen: set<string>, more: set<string>)
    requires seen <= more
    ensures |all - more| <= |all - seen|
  {
    assert all - seen == (all - more) + ((all - seen) * more);
  }

  // -------------------------------------------------------------------- the plan

  predicate Distinct(ms: seq<Module>) {
    forall i, j :: 0 <= i < j < |ms| ==> ms[i].identity != ms[j].identity
  }

  function ByIdentity(ms: seq<Module>): map<string, Module> {
    if ms == [] then map[] else ByIdentity(ms[..|ms| - 1])[ms[|ms| - 1].identity := ms[|ms| - 1]]
  }

  lemma ByIdentityLast(ms: seq<Module>, m: Module)
    ensures ByIdentity(ms + [m]) == ByIdentity(ms)[m.identity := m]
  {
    assert (ms + [m])[..|ms|] == ms;
  }

  /** The index leads from the identities of the listed modules to listed modules. */
  ghost predicate Indexed(ms: seq<Module>, byIdentity: map<string, Module>) {
    && (forall id :: id in byIdentity ==> byIdentity[id] in ms && byIdentity[id].identity == id)
    && (forall k :: 0 <= k < |ms| ==> ms[k].identity in byIdentity)
    && (Distinct(ms) ==> forall k :: 0 <= k < |ms| ==> byIdentity[ms[k].identity] == ms[k])
  }

  lemma IndexedMore(ms: seq<Module>, byIdentity: map<string, Module>, m: Module)
    requires Indexed(ms, byIdentity)
    ensures Indexed(ms + [m], byIdentity[m.identity := m])
  {
    var more, after := ms + [m], byIdentity[m.identity := m];
    forall id | id in after ensures after[id] in more && after[id].identity == id {
      assert id != m.identity ==> byIdentity[id] in ms;
    }
    if Distinct(more) {
      assert forall i, j :: 0 <= i < j < |ms| ==> more[i] == ms[i] && more[j] == ms[j];
    }
  }

  lemma {:induction false} ByIdentityIs(ms: seq<Module>)
    ensures Indexed(ms, ByIdentity(ms))
    decreases |ms|
  {
    hide Indexed, ByIdentity;
    if ms == [] {
      NothingIndexed();
    } else {
      var front, last := ms[..|ms| - 1], ms[|ms| - 1];
      assert ms == front + [last];
      ByIdentityIs(front);
      IndexedMore(front, ByIdentity(front), last);
      ByIdentityLast(front, last);
    }
  }

  lemma NothingIndexed()
    ensures Indexed([], ByIdentity([]))
  {
  }

  lemma DistinctMore(ms: seq<Module>, byIdentity: map<string, Module>, m: Module)
    requires Indexed(ms, byIdentity) && Distinct(ms)
    ensures Distinct(ms + [m]) == (m.identity !in byIdentity)
  {
    var more := ms + [m];
    if m.identity in byIdentity {
      var i :| 0 <= i < |ms| && ms[i] == byIdentity[m.identity];
      assert more[i].identity == more[|ms|].identity;
    }
  }

  lemma DistinctPrefix(ms: seq<Module>, k: nat)
    requires k <= |ms| && Distinct(ms)
    ensures Distinct(ms[..k])
  {
  }

  method IndexModules(ms: seq<Module>) returns (ok: bool, byIdentity: map<string, Module>)
    ensures ok == Distinct(ms)
    ensures ok ==> byIdentity == ByIdentity(ms)
  {
    hide Distinct, Indexed, ByIdentity;
    byIdentity := map[];
    NoModules();
    for k := 0 to |ms|
      invariant Distinct(ms[..k]) && byIdentity == ByIdentity(ms[..k])
    {
      ByIdentityIs(ms[..k]);
      assert ms[..k + 1] == ms[..k] + [ms[k]];
      DistinctMore(ms[..k], byIdentity, ms[k]);
      if ms[k].identity in byIdentity {
        if Distinct(ms) {
          DistinctPrefix(ms, k + 1);
        }
        return false, map[];
      }
      ByIdentityLast(ms[..k], ms[k]);
      byIdentity := byIdentity[ms[k].identity := ms[k]];
    }
    assert ms[..|ms|] == ms;
    return true, byIdentity;
  }

  lemma NoModules()
    ensures forall ms: seq<Module> :: Distinct(ms[..0]) && ByIdentity(ms[..0]) == map[]
  {
  }

  function Normalized(m: Module, hash: string -> string): Module {
    m.(cacheKey := hash(KeyText(m)))
  }

  function NormalizedAll(ms: seq<Module>, hash: string -> string): (r: seq<Module>)
    ensures |r| == |ms| && forall k :: 0 <= k < |ms| ==> r[k] == Normalized(ms[k], hash)
  {
    seq(|ms|, k requires 0 <= k < |ms| => Normalized(ms[k], hash))
  }

  function Units(records: seq<Record>): (r: seq<Module>)
    ensures |r| == |records| && forall k :: 0 <= k < |records| ==> r[k] == records[k].unit
  {
    seq(|records|, k requires 0 <= k < |records| => records[k].unit)
  }

  function InputsOf(
    modules: seq<Module>, previous: seq<Record>, hash: string -> string, artifactExists: string -> bool,
    emptyCacheReason: string
  ): Inputs {
    Inputs(ByIdentity(NormalizedAll(modules, hash)), ByIdentity(Units(previous)), artifactExists, emptyCacheReason)
  }

  /** The planner fails exactly for repeated identities, dangling dependencies and cycles;
      otherwise every module gets the decision that reachability dictates. */
  method Plan(
    modules: seq<Module>, previous: seq<Record>, hash: string -> string, artifactExists: string -> bool,
    emptyCacheReason: string
  ) returns (failure: Option<Failure>, decisions: seq<Decision>)
    ensures
      var x := InputsOf(modules, previous, hash, artifactExists, emptyCacheReason);
      var g := Targets(x.current);
      && (failure == Some(DuplicateCurrent) <==> !Distinct(modules))
      && (failure == Some(DuplicatePrevious) <==> Distinct(modules) && !Distinct(Units(previous)))
      && (failure == None <==>
           Distinct(modules) && Distinct(Units(previous)) && Digraphs.Complete(g) && Acyclic(g))
      && (failure.Some? && failure.value.CycleAt? ==> OnCycle(g, failure.value.identity))
      && (failure.Some? && failure.value.MissingModule? ==>
           failure.value.identity !in g && exists a :: Link(g, a, failure.value.identity))
      && (failure == None ==>
           && |decisions| == |modules|
           && forall k :: 0 <= k < |modules| ==> DecisionRight(x, modules[k].identity, decisions[k]))
  {
    hide Consistent, DecisionRight, ByIdentity, KeyText, Digraphs.Complete, Acyclic, OnCycle, Link, Targets;
    var normalized := NormalizedAll(modules, hash);
    ghost var x := InputsOf(modules, previous, hash, artifactExists, emptyCacheReason);
    decisions := [];
    SameIdentities(modules, hash);
    var ok, current := IndexModules(normalized);
    if !ok {
      return Some(DuplicateCurrent), [];
    }
    var before;
    ok, before := IndexModules(Units(previous));
    if !ok {
      return Some(DuplicatePrevious), [];
    }
    ByIdentityIs(normalized);
    var planner := new Planner(Inputs(current, before, artifactExists, emptyCacheReason));
    failure := EvaluateAll(planner, normalized);
    if failure.Some? {
      FailureMeans(planner, failure.value);
      return;
    }
    AllEvaluated(planner, normalized);
    decisions := Decisions(planner, normalized);
  }

  method Decisions(planner: Planner, modules: seq<Module>) returns (decisions: seq<Decision>)
    requires planner.Valid([]) && forall k :: 0 <= k < |modules| ==> modules[k].identity in planner.order
    ensures |decisions| == |modules|
    ensures forall k :: 0 <= k < |modules| ==> DecisionRight(planner.inputs, modules[k].identity, decisions[k])
  {
    hide Consistent, DecisionRight;
    decisions := [];
    for k := 0 to |modules|
      invariant |decisions| == k
      invariant forall j :: 0 <= j < k ==> DecisionRight(planner.inputs, modules[j].identity, decisions[j])
    {
      var id := modules[k].identity;
      Evaluated(planner, id);
      decisions := decisions + [planner.evaluations[id].decision];
    }
  }

  lemma SameIdentities(modules: seq<Module>, hash: string -> string)
    ensures Distinct(NormalizedAll(modules, hash)) == Distinct(modules)
  {
    var r := NormalizedAll(modules, hash);
    forall k | 0 <= k < |modules| ensures r[k].identity == modules[k].identity {
    }
  }

  method EvaluateAll(planner: Planner, modules: seq<Module>) returns (failure: Option<Failure>)
    requires planner.Valid([]) && forall k :: 0 <= k < |modules| ==> modules[k].identity in planner.inputs.current
    modifies planner`evaluations, planner`order
    ensures failure == None ==> planner.Valid([])
    ensures failure == None ==> forall k :: 0 <= k < |modules| ==> modules[k].identity in planner.order
    ensures failure.Some? ==> planner.FailureRight(failure.value)
  {
    hide Consistent, Planner.FailureRight;
    failure := None;
    for k := 0 to |modules|
      invariant planner.Valid([]) && failure == None
      invariant forall j :: 0 <= j < k ==> modules[j].identity in planner.order
    {
      ghost var listed := planner.order;
      failure := planner.Evaluate(modules[k].identity, []);
      if failure.Some? {
        return;
      }
      StillOrdered(modules, k, listed, planner.order);
    }
  }

  lemma StillOrdered(modules: seq<Module>, k: nat, before: seq<string>, order: seq<string>)
    requires k <= |modules| && before <= order && forall j :: 0 <= j < k ==> modules[j].identity in before
    ensures forall j :: 0 <= j < k ==> modules[j].identity in order
  {
    forall j | 0 <= j < k ensures modules[j].identity in order {
      var i :| 0 <= i < |before| && before[i] == modules[j].identity;
      assert order[i] == before[i];
    }
  }

  lemma FailureMeans(planner: Planner, failure: Failure)
    requires planner.FailureRight(failure)
    ensures
      var g := Targets(planner.inputs.current);
      && (failure.CycleAt? || failure.MissingModule?) && !(Digraphs.Complete(g) && Acyclic(g))
      && (failure.CycleAt? ==> OnCycle(g, failure.identity))
      && (failure.MissingModule? ==> failure.identity !in g && exists a :: Link(g, a, failure.identity))
  {
    hide OnCycle, Link;
  }

  lemma AllEvaluated(planner: Planner, modules: seq<Module>)
    requires planner.Valid([]) && planner.inputs.current == ByIdentity(modules)
    requires forall k :: 0 <= k < |modules| ==> modules[k].identity in planner.order
    ensures Digraphs.Complete(Targets(planner.inputs.current)) && Acyclic(Targets(planner.inputs.current))
  {
    var g := Targets(planner.inputs.current);
    ByIdentityIs(modules);
    forall id | id in g ensures id in planner.order {
      var k :| 0 <= k < |modules| && modules[k] == ByIdentity(modules)[id];
    }
    PostorderComplete(g, planner.order);
  }

  lemma Evaluated(planner: Planner, id: string)
    requires planner.Valid([]) && id in planner.order
    ensures id in planner.evaluations && planner.evaluations[id].Complete?
    ensures DecisionRight(planner.inputs, id, planner.evaluations[id].decision)
  {
    hide DecisionRight, Postorder;
    Listed(planner.inputs, planner.evaluations, planner.order, [], id);
    Seen(planner.inputs, planner.evaluations, planner.order, [], id);
  }

  // ------------------------------------------------------------------ its meaning

  /** The plan does not depend on the order in which the modules are listed. */
  lemma OrderIrrelevant(a: seq<Module>, b: seq<Module>)
    requires Distinct(a) && Distinct(b) && forall m :: m in a <==> m in b
    ensures ByIdentity(a) == ByIdentity(b)
  {
    ByIdentityIs(a);
    ByIdentityIs(b);
    var p, q := ByIdentity(a), ByIdentity(b);
    forall id | id in p ensures id in q && q[id] == p[id] {
      assert p[id] in b;
      var k :| 0 <= k < |b| && b[k] == p[id];
    }
    forall id | id in q ensures id in p {
      assert q[id] in a;
    }
  }

  /** The graph and the comparisons leave no choice in a decision. */
  lemma DecisionUnique(x: Inputs, id: string, d: Decision, e: Decision)
    requires DecisionRight(x, id, d) && DecisionRight(x, id, e)
    ensures d == e
  {
    hide Impacted, DependencyImpacted, DirectlyImpacted;
    assert (d.status == Reused) == (e.status == Reused);
  }

  /** Two plans over the same modules and records, each listed in any order, succeed together
      and give every module the same decision. */
  lemma PlansAgree(
    a: seq<Module>, b: seq<Module>, p: seq<Record>, q: seq<Record>, hash: string -> string, artifactExists: string -> bool,
    emptyCacheReason: string, i: nat, j: nat, d: Decision, e: Decision
  )
    requires Distinct(a) && Distinct(b) && forall m :: m in a <==> m in b
    requires Distinct(Units(p)) && Distinct(Units(q)) && forall m :: m in Units(p) <==> m in Units(q)
    requires i < |a| && j < |b| && a[i].identity == b[j].identity
    requires DecisionRight(InputsOf(a, p, hash, artifactExists, emptyCacheReason), a[i].identity, d)
    requires DecisionRight(InputsOf(b, q, hash, artifactExists, emptyCacheReason), b[j].identity, e)
    ensures InputsOf(a, p, hash, artifactExists, emptyCacheReason) == InputsOf(b, q, hash, artifactExists, emptyCacheReason)
    ensures d == e
  {
    hide DecisionRight, ByIdentity, Distinct, KeyText;
    SameIdentities(a, hash);
    SameIdentities(b, hash);
    NormalizedMembers(a, b, hash);
    OrderIrrelevant(NormalizedAll(a, hash), NormalizedAll(b, hash));
    OrderIrrelevant(Units(p), Units(q));
    DecisionUnique(InputsOf(a, p, hash, artifactExists, emptyCacheReason), a[i].identity, d, e);
  }

  lemma NormalizedMembers(a: seq<Module>, b: seq<Module>, hash: string -> string)
    requires forall m :: m in a <==> m in b
    ensures forall m :: m in NormalizedAll(a, hash) <==> m in NormalizedAll(b, hash)
  {
    NormalizedIn(a, b, hash);
    NormalizedIn(b, a, hash);
  }

  lemma NormalizedIn(a: seq<Module>, b: seq<Module>, hash: string -> string)
    requires forall m :: m in a ==> m in b
    ensures forall m :: m in NormalizedAll(a, hash) ==> m in NormalizedAll(b, hash)
  {
    hide Normalized;
    forall m | m in NormalizedAll(a, hash) ensures m in NormalizedAll(b, hash) {
      var k :| 0 <= k < |a| && NormalizedAll(a, hash)[k] == m;
      assert a[k] in b;
      var j :| 0 <= j < |b| && b[j] == a[k];
      assert NormalizedAll(b, hash)[j] == m;
    }
  }

  /** A changed interface reaches every module that depends on it, at any distance. */
  lemma {:induction false} ImpactSpreads(x: Inputs, a: string, b: string, p: seq<string>)
    requires Walk(Targets(x.current), p) && p[0] == a && p[|p| - 1] == b && Impacted(x, b)
    ensures Impacted(x, a)
    decreases |p|
  {
    if |p| > 1 {
      var g := Targets(x.current);
      WalkTail(g, p, 1);
      assert p[1..][|p| - 2] == b;
      ImpactSpreads(x, p[1], b, p[1..]);
      assert Link(g, p[0], p[1]);
      ImpactedUnfold(x, a);
    }
  }

  /** A reused module depends on no module whose interface changed; its own interface is compared only through the key. */
  lemma ReusedImpact(x: Inputs, id: string, d: Decision)
    requires DecisionRight(x, id, d) && d.status == Reused
    ensures d.publicImpact <==> PublicChanged(x, id)
    ensures forall y :: Link(Targets(x.current), id, y) ==> !Impacted(x, y)
  {
    hide Impacted;
    ImpactedUnfold(x, id);
  }

  /** When a module is reused although its own interface changed. */
  lemma StaleReuseExactly(x: Inputs, id: string, d: Decision)
    requires DecisionRight(x, id, d)
    ensures d.status == Reused && d.publicImpact <==>
      && PublicChanged(x, id) && OwnInputsSame(x, id) && x.artifactExists(ArtifactPath(x.current[id]))
      && !DependencyImpacted(x, id)
  {
    hide Impacted, OwnInputsSame, PublicChanged;
    ImpactedUnfold(x, id);
  }

  /** When the hash tells the old and the new module apart, a reused module is the module of the previous build. */
  lemma ReusedUntouched(x: Inputs, id: string, d: Decision, hash: string -> string)
    requires DecisionRight(x, id, d) && d.status == Reused
    requires x.current[id].cacheKey == hash(KeyText(x.current[id]))
    requires x.previous[id].cacheKey == hash(KeyText(x.previous[id]))
    requires hash(KeyText(x.previous[id])) == hash(KeyText(x.current[id])) ==>
               KeyText(x.previous[id]) == KeyText(x.current[id])
    ensures x.previous[id] == x.current[id] && !d.publicImpact
  {
    hide KeyText, Impacted;
    KeyTextInjective(x.previous[id], x.current[id]);
    ReusedImpact(x, id, d);
  }

  /** When the hash does not, a plan succeeds and reuses a module whose interface changed: the
      planner itself never compares the interface of the module. */
  lemma CollisionReuses(
    old': Module, new': Module, paths: (string, string), hash: string -> string, artifactExists: string -> bool, d: Decision
  )
    requires new'.dependencies == [] && old' == new'.(interfaceHash := old'.interfaceHash)
    requires old'.interfaceHash != new'.interfaceHash && new' == Normalized(new', hash) && old' == Normalized(old', hash)
    requires artifactExists(ArtifactPath(new'))
    requires DecisionRight(
               InputsOf([new'], [Record(old', paths.0, paths.1)], hash, artifactExists, "new_module"), new'.identity, d)
    ensures
      var g := Targets(InputsOf([new'], [Record(old', paths.0, paths.1)], hash, artifactExists, "new_module").current);
      Distinct([new']) && Distinct(Units([Record(old', paths.0, paths.1)])) && Digraphs.Complete(g) && Acyclic(g)
    ensures d.status == Reused && d.publicImpact
  {
    hide KeyText;
    var x := InputsOf([new'], [Record(old', paths.0, paths.1)], hash, artifactExists, "new_module");
    var id := new'.identity;
    OnlyModule(new', hash);
    assert Units([Record(old', paths.0, paths.1)]) == [old'];
    OneIndexed(old');
    assert Targets(x.current)[id] == [];
    AloneAcyclic(Targets(x.current), id);
    ImpactedUnfold(x, id);
  }

  lemma OnlyModule(m: Module, hash: string -> string)
    requires m == Normalized(m, hash)
    ensures NormalizedAll([m], hash) == [m] && ByIdentity(NormalizedAll([m], hash)) == map[m.identity := m]
  {
    assert NormalizedAll([m], hash)[0] == m;
    assert NormalizedAll([m], hash) == [m];
    OneIndexed(m);
  }

  lemma OneIndexed(m: Module)
    ensures ByIdentity([m]) == map[m.identity := m]
  {
    ByIdentityLast([], m);
    assert [] + [m] == [m];
  }

  lemma AloneAcyclic(g: Digraph, id: string)
    requires g == map[id := []]
    ensures Digraphs.Complete(g) && Acyclic(g)
  {
    PostorderComplete(g, [id]);
  }
}
