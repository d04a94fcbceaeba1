/** Dominators, immediate dominators, the dominator tree and dominance frontiers.

    The in-place fixpoint is proved to end with exactly the dominators defined by paths;
    from there every immediate dominator is unique and closest, the frontiers are exact,
    and none of the pass's internal errors can occur.
 */
module Dominance {
  import opened Wrappers
  import opened Runtime
  import opened Graphs
  import opened ControlFlowGraph
  import opened SortedVectors

  type Sets = seq<seq<nat>>

  /** What the pass needs of the graph: predecessors mirror successors, flags are exact. */
  ghost predicate Ready(g: Cfg) {
    && g.entryBlock < |g.blocks| && EdgesOk(g) && ReachableOk(g)
    && forall b :: 0 <= b < |g.blocks| ==> g.blocks[b].id == b
  }

  lemma WellFormedReady(g: Cfg)
    requires WellFormed(g)
    ensures Ready(g) && Closed(GraphOf(g))
  {
    EdgesClosed(g);
    forall b | 0 <= b < |g.blocks| ensures g.blocks[b].id == b {
      if b < g.exitBlock {
        assert RangeOk(g, b);
      }
    }
  }

  lemma PredecessorsAreEdges(g: Cfg, b: nat, p: nat)
    requires Ready(g) && b < |g.blocks|
    ensures p in g.blocks[b].predecessors <==> Edge(GraphOf(g), p, b)
  {
    assert BlockEdgesOk(g, b);
    if p < |g.blocks| {
      assert BlockEdgesOk(g, p);
    }
  }

  // ----------------------------------------------------------------- the fixpoint

  /** Sets of unreachable blocks are empty, all others are ascending sets of reachable blocks. */
  predicate Shaped(g: Cfg, doms: Sets) {
    && |doms| == |g.blocks|
    && forall b :: 0 <= b < |doms| ==>
         && Sorted(doms[b])
         && (!g.blocks[b].reachable ==> doms[b] == [])
         && forall d :: d in doms[b] ==> d < |g.blocks| && g.blocks[d].reachable
  }

  /** Nothing that dominates has been lost. */
  ghost predicate Covers(g: Cfg, doms: Sets)
    requires |doms| == |g.blocks|
  {
    forall b, d :: 0 <= b < |g.blocks| && g.blocks[b].reachable && Dominates(GraphOf(g), d, b) ==> d in doms[b]
  }

  /** `d` is `b` or in the sets of all reachable predecessors of `b`. */
  predicate InNext(g: Cfg, doms: Sets, b: nat, d: nat)
    requires |doms| == |g.blocks| && b < |g.blocks|
  {
    || d == b
    || forall p :: p in g.blocks[b].predecessors && p < |g.blocks| && g.blocks[p].reachable ==> d in doms[p]
  }

  /** Recomputing a block's set from its predecessors can only shrink it. */
  predicate Shrinking(g: Cfg, doms: Sets)
    requires |doms| == |g.blocks| && g.entryBlock < |g.blocks|
  {
    && doms[g.entryBlock] == [g.entryBlock]
    && forall b, d ::
         (0 <= b < |g.blocks| && g.blocks[b].reachable && b != g.entryBlock && 0 <= d < |g.blocks|
          && g.blocks[d].reachable && InNext(g, doms, b, d)) ==> d in doms[b]
  }

  /** Nothing changes when the sets of the first `upTo` blocks are recomputed. */
  predicate StableUpTo(g: Cfg, doms: Sets, upTo: nat)
    requires |doms| == |g.blocks|
  {
    forall b, d :: 0 <= b < |g.blocks| && b < upTo && g.blocks[b].reachable && b != g.entryBlock && d in doms[b] ==>
      InNext(g, doms, b, d)
  }

  function SizeSum(doms: Sets): nat {
    if doms == [] then 0 else |doms[0]| + SizeSum(doms[1..])
  }

  lemma {:induction false} SizeSumUpdate(doms: Sets, b: nat, s: seq<nat>)
    requires b < |doms|
    ensures SizeSum(doms[b := s]) + |doms[b]| == SizeSum(doms) + |s|
  {
    if b == 0 {
      assert doms[0 := s][1..] == doms[1..];
    } else {
      assert doms[b := s][1..] == doms[1..][b - 1 := s];
      SizeSumUpdate(doms[1..], b - 1, s);
    }
  }

  /** The set that one block gets from its reachable predecessors; an error when there is none. */
  method Recompute(g: Cfg, doms: Sets, b: nat) returns (ok: bool, next: seq<nat>)
    requires Ready(g) && Shaped(g, doms) && b < |g.blocks| && g.blocks[b].reachable && b != g.entryBlock
    ensures ok && Sorted(next)
    ensures forall d: nat :: d in next <==> d < |g.blocks| && g.blocks[d].reachable && InNext(g, doms, b, d)
  {
    var predecessors := g.blocks[b].predecessors;
    var hasPredecessor := false;
    next := [];
    assert BlockEdgesOk(g, b);
    assert forall k :: 0 <= k < |predecessors| ==> predecessors[k] in predecessors;
    for i := 0 to |predecessors|
      invariant forall k :: 0 <= k < |predecessors| ==> predecessors[k] < |g.blocks|
      invariant Sorted(next)
      invariant hasPredecessor == exists k :: 0 <= k < i && g.blocks[predecessors[k]].reachable
      invariant hasPredecessor ==> forall d: nat :: d in next <==>
        forall k :: 0 <= k < i && g.blocks[predecessors[k]].reachable ==> d in doms[predecessors[k]]
    {
      var p := predecessors[i];
      assert p in predecessors;
      if g.blocks[p].reachable {
        if !hasPredecessor {
          next := doms[p];
          hasPredecessor := true;
        } else {
          next := Intersect(next, doms[p]);
        }
      }
    }
    ok := hasPredecessor;
    SomePredecessor(g, b);
    InNextOf(g, doms, b, next);
    next := Insert(next, b);
  }

  lemma SomePredecessor(g: Cfg, b: nat)
    requires Ready(g) && b < |g.blocks| && g.blocks[b].reachable && b != g.entryBlock
    ensures exists k :: 0 <= k < |g.blocks[b].predecessors| && g.blocks[b].predecessors[k] < |g.blocks|
                        && g.blocks[g.blocks[b].predecessors[k]].reachable
  {
    var a := HasPredecessor(GraphOf(g), b);
    PredecessorsAreEdges(g, b, a);
    var k :| 0 <= k < |g.blocks[b].predecessors| && g.blocks[b].predecessors[k] == a;
  }

  lemma InNextOf(g: Cfg, doms: Sets, b: nat, meet: seq<nat>)
    requires Ready(g) && Shaped(g, doms) && b < |g.blocks| && g.blocks[b].reachable
    requires
      var ps := g.blocks[b].predecessors;
      && (exists k :: 0 <= k < |ps| && ps[k] < |g.blocks| && g.blocks[ps[k]].reachable)
      && (forall k :: 0 <= k < |ps| ==> ps[k] < |g.blocks|)
      && forall d: nat :: d in meet <==> forall k :: 0 <= k < |ps| && g.blocks[ps[k]].reachable ==> d in doms[ps[k]]
    ensures forall d: nat :: (d in meet || d == b) <==> d < |g.blocks| && g.blocks[d].reachable && InNext(g, doms, b, d)
  {
    var ps := g.blocks[b].predecessors;
    forall d: nat | d in meet ensures d < |g.blocks| && g.blocks[d].reachable && InNext(g, doms, b, d) {
      var k :| 0 <= k < |ps| && ps[k] < |g.blocks| && g.blocks[ps[k]].reachable;
      assert d in doms[ps[k]];
    }
    forall d: nat | d != b && InNext(g, doms, b, d) ensures d in meet {
      forall k | 0 <= k < |ps| && g.blocks[ps[k]].reachable ensures d in doms[ps[k]] {
        assert ps[k] in ps;
      }
    }
  }

  /** Replacing one block's set by its recomputed set keeps every invariant of the sweep. */
  lemma Replaced(g: Cfg, doms: Sets, b: nat, next: seq<nat>)
    requires Ready(g) && Closed(GraphOf(g)) && Shaped(g, doms) && Covers(g, doms) && Shrinking(g, doms)
    requires b < |g.blocks| && g.blocks[b].reachable && b != g.entryBlock && Sorted(next)
    requires forall d: nat :: d in next <==> d < |g.blocks| && g.blocks[d].reachable && InNext(g, doms, b, d)
    ensures
      var doms' := doms[b := next];
      Shaped(g, doms') && Covers(g, doms') && Shrinking(g, doms')
    ensures (forall d :: d in next ==> d in doms[b]) && (next != doms[b] ==> SizeSum(doms[b := next]) < SizeSum(doms))
  {
    hide Covers, Sorted, InNext;
    var doms' := doms[b := next];
    ReplacedSmaller(g, doms, b, next);
    ReplacedCovers(g, doms, b, next);
    ReplacedShrinking(g, doms, b, next);
  }

  lemma ReplacedSmaller(g: Cfg, doms: Sets, b: nat, next: seq<nat>)
    requires g.entryBlock < |g.blocks| && Shaped(g, doms) && Shrinking(g, doms)
    requires b < |g.blocks| && g.blocks[b].reachable && b != g.entryBlock && Sorted(next)
    requires forall d: nat :: d in next <==> d < |g.blocks| && g.blocks[d].reachable && InNext(g, doms, b, d)
    ensures (forall d :: d in next ==> d in doms[b]) && (next != doms[b] ==> SizeSum(doms[b := next]) < SizeSum(doms))
  {
    hide InNext, Sorted;
    SortedShorter(next, doms[b]);
    SizeSumUpdate(doms, b, next);
  }

  lemma ReplacedCovers(g: Cfg, doms: Sets, b: nat, next: seq<nat>)
    requires Ready(g) && Closed(GraphOf(g)) && |doms| == |g.blocks| && Covers(g, doms)
    requires b < |g.blocks| && g.blocks[b].reachable && b != g.entryBlock
    requires forall d: nat :: d in next <==> d < |g.blocks| && g.blocks[d].reachable && InNext(g, doms, b, d)
    ensures Covers(g, doms[b := next])
  {
    forall d: nat | Dominates(GraphOf(g), d, b) ensures d in next {
      DominatorInNext(g, doms, b, d);
    }
  }

  lemma ReplacedShrinking(g: Cfg, doms: Sets, b: nat, next: seq<nat>)
    requires g.entryBlock < |g.blocks| && |doms| == |g.blocks| && Shrinking(g, doms)
    requires b < |g.blocks| && g.blocks[b].reachable && b != g.entryBlock
    requires forall d: nat :: d in next <==> d < |g.blocks| && g.blocks[d].reachable && InNext(g, doms, b, d)
    requires forall d :: d in next ==> d in doms[b]
    ensures Shrinking(g, doms[b := next])
  {
    hide Sorted;
    var doms' := doms[b := next];
    forall c, d | 0 <= c < |g.blocks| && g.blocks[c].reachable && c != g.entryBlock && 0 <= d < |g.blocks|
                  && g.blocks[d].reachable && InNext(g, doms', c, d)
      ensures d in doms'[c]
    {
      assert InNext(g, doms, c, d);
    }
  }

  lemma DominatorInNext(g: Cfg, doms: Sets, b: nat, d: nat)
    requires Ready(g) && Closed(GraphOf(g)) && |doms| == |g.blocks| && Covers(g, doms)
    requires b < |g.blocks| && g.blocks[b].reachable && b != g.entryBlock && Dominates(GraphOf(g), d, b)
    ensures d < |g.blocks| && g.blocks[d].reachable && InNext(g, doms, b, d)
  {
    DominatorReachable(GraphOf(g), d, b);
    DominatesByPredecessors(GraphOf(g), d, b);
    if d != b {
      forall p | p in g.blocks[b].predecessors && p < |g.blocks| && g.blocks[p].reachable ensures d in doms[p] {
        PredecessorsAreEdges(g, b, p);
      }
    }
  }

  /** At a fixpoint every listed dominator really is one: it lies on every path. */
  lemma {:induction false} FixpointSound(g: Cfg, doms: Sets, b: nat, d: nat, path: seq<nat>)
    requires Ready(g) && Closed(GraphOf(g)) && Shaped(g, doms) && Shrinking(g, doms) && StableUpTo(g, doms, |g.blocks|)
    requires b < |g.blocks| && g.blocks[b].reachable && d in doms[b] && PathTo(GraphOf(g), path, b)
    ensures d in path
    decreases |path|
  {
    if b == g.entryBlock {
      assert d == g.entryBlock && path[0] == d;
    } else if d == b {
      assert path[|path| - 1] == d;
    } else {
      var gg, before := GraphOf(g), |path| - 2;
      var p := path[before];
      PathPrefix(gg, path, b, before);
      assert Edge(gg, path[before], path[before + 1]);
      PredecessorsAreEdges(g, b, p);
      assert InNext(g, doms, b, d);
      FixpointSound(g, doms, p, d, path[..before + 1]);
    }
  }

  ghost predicate Exact(g: Cfg, doms: Sets) {
    && Shaped(g, doms)
    && forall b, d: nat :: 0 <= b < |g.blocks| && g.blocks[b].reachable ==>
         (d in doms[b] <==> Dominates(GraphOf(g), d, b))
  }

  lemma FixpointExact(g: Cfg, doms: Sets)
    requires Ready(g) && Closed(GraphOf(g)) && Shaped(g, doms) && Covers(g, doms) && Shrinking(g, doms)
    requires StableUpTo(g, doms, |g.blocks|)
    ensures Exact(g, doms)
  {
    forall b, d: nat | 0 <= b < |g.blocks| && g.blocks[b].reachable && d in doms[b] ensures Dominates(GraphOf(g), d, b) {
      forall path | PathTo(GraphOf(g), path, b) ensures d in path {
        FixpointSound(g, doms, b, d, path);
      }
    }
  }

  method ReachableBlocks(g: Cfg) returns (reachable: seq<nat>)
    ensures Sorted(reachable)
    ensures forall b: nat :: b in reachable <==> b < |g.blocks| && g.blocks[b].reachable
  {
    reachable := [];
    for b := 0 to |g.blocks|
      invariant Sorted(reachable)
      invariant forall x: nat :: x in reachable <==> x < b && g.blocks[x].reachable
    {
      if g.blocks[b].reachable {
        SnocSorted(reachable, b);
        reachable := reachable + [b];
      }
    }
  }

  lemma ReadyEntry(g: Cfg)
    requires Ready(g)
    ensures g.entryBlock < |g.blocks|
  {
  }

  method InitialSets(g: Cfg, reachable: seq<nat>) returns (doms: Sets)
    requires Ready(g) && Closed(GraphOf(g)) && Sorted(reachable)
    requires forall b: nat :: b in reachable <==> b < |g.blocks| && g.blocks[b].reachable
    ensures Shaped(g, doms) && Covers(g, doms) && Shrinking(g, doms)
  {
    hide Ready, Closed, Shaped, Covers, Shrinking, Sorted;
    ReadyEntry(g);
    doms := seq(|g.blocks|, _ => []);
    for i := 0 to |reachable|
      invariant |doms| == |g.blocks|
      invariant forall b :: 0 <= b < |doms| ==>
        doms[b] == if b !in reachable[..i] then [] else if b == g.entryBlock then [g.entryBlock] else reachable
    {
      var block := reachable[i];
      assert block in reachable && reachable[..i + 1] == reachable[..i] + [block];
      doms := doms[block := if block == g.entryBlock then [g.entryBlock] else reachable];
    }
    assert reachable[..|reachable|] == reachable;
    InitialFacts(g, reachable, doms);
  }

  /** Every dominator is reachable, so the full sets miss none and recomputing can only shrink them. */
  lemma InitialFacts(g: Cfg, reachable: seq<nat>, doms: Sets)
    requires Ready(g) && Closed(GraphOf(g)) && Sorted(reachable) && |doms| == |g.blocks|
    requires forall b: nat :: b in reachable <==> b < |g.blocks| && g.blocks[b].reachable
    requires forall b :: 0 <= b < |doms| ==>
      doms[b] == if b !in reachable then [] else if b == g.entryBlock then [g.entryBlock] else reachable
    ensures Shaped(g, doms) && Covers(g, doms) && Shrinking(g, doms)
  {
    hide InNext;
    EntryReachable(GraphOf(g));
    assert Sorted([g.entryBlock]);
    InitialCovers(g, reachable, doms);
  }

  lemma InitialCovers(g: Cfg, reachable: seq<nat>, doms: Sets)
    requires Ready(g) && Closed(GraphOf(g)) && |doms| == |g.blocks|
    requires forall b: nat :: b in reachable <==> b < |g.blocks| && g.blocks[b].reachable
    requires forall b :: 0 <= b < |doms| ==>
      doms[b] == if b !in reachable then [] else if b == g.entryBlock then [g.entryBlock] else reachable
    ensures Covers(g, doms)
  {
    forall b, d | 0 <= b < |g.blocks| && g.blocks[b].reachable && Dominates(GraphOf(g), d, b) ensures d in doms[b] {
      DominatorReachable(GraphOf(g), d, b);
      if b == g.entryBlock {
        OnlyEntryDominatesEntry(GraphOf(g), d);
      }
    }
  }

  lemma StableStep(g: Cfg, doms: Sets, reachable: seq<nat>, i: nat)
    requires |doms| == |g.blocks| && Sorted(reachable) && i < |reachable|
    requires forall b: nat :: b in reachable <==> b < |g.blocks| && g.blocks[b].reachable
    requires StableUpTo(g, doms, reachable[i])
    requires reachable[i] < |g.blocks|
    requires reachable[i] != g.entryBlock ==> forall d :: d in doms[reachable[i]] ==> InNext(g, doms, reachable[i], d)
    ensures StableUpTo(g, doms, if i + 1 < |reachable| then reachable[i + 1] else |g.blocks|)
  {
    var end := if i + 1 < |reachable| then reachable[i + 1] else |g.blocks|;
    forall b, d | 0 <= b < |g.blocks| && b < end && g.blocks[b].reachable && b != g.entryBlock && d in doms[b]
      ensures InNext(g, doms, b, d)
    {
      var k :| 0 <= k < |reachable| && reachable[k] == b;
    }
  }

  /** Sweeps over the blocks, replacing sets in place, until a whole sweep changes nothing. */
  method FindDominators(g: Cfg) returns (ok: bool, reachable: seq<nat>, doms: Sets)
    requires Ready(g) && Closed(GraphOf(g))
    ensures ok && Exact(g, doms)
    ensures Sorted(reachable) && forall b: nat :: b in reachable <==> b < |g.blocks| && g.blocks[b].reachable
  {
    reachable := ReachableBlocks(g);
    doms := InitialSets(g, reachable);
    var changed := true;
    while changed
      invariant Shaped(g, doms) && Covers(g, doms) && Shrinking(g, doms)
      invariant !changed ==> StableUpTo(g, doms, |g.blocks|)
      decreases SizeSum(doms), changed
    {
      changed := false;
      ghost var before := SizeSum(doms);
      for i := 0 to |reachable|
        invariant Shaped(g, doms) && Covers(g, doms) && Shrinking(g, doms)
        invariant SizeSum(doms) <= before && (changed ==> SizeSum(doms) < before)
        invariant !changed ==> StableUpTo(g, doms, if i < |reachable| then reachable[i] else |g.blocks|)
      {
        var block := reachable[i];
        assert block in reachable;
        if block != g.entryBlock {
          var next;
          ok, next := Recompute(g, doms, block);
          Replaced(g, doms, block, next);
          if next != doms[block] {
            doms := doms[block := next];
            changed := true;
          }
        }
        if !changed {
          StableStep(g, doms, reachable, i);
        }
      }
    }
    ok := true;
    FixpointExact(g, doms);
  }

  // -------------------------------------------------------- immediate dominators

  /** The closest strict dominator: every other one dominates it. */
  ghost predicate ImmediatelyDominates(g: Graph, d: nat, b: nat) {
    StrictlyDominates(g, d, b) && forall o: nat :: StrictlyDominates(g, o, b) ==> Dominates(g, o, d)
  }

  /** Every reachable block but the entry has its immediate dominator. */
  ghost predicate IdomsExact(g: Cfg, idoms: seq<Option<nat>>) {
    && |idoms| == |g.blocks|
    && forall b :: 0 <= b < |idoms| ==>
         if g.blocks[b].reachable && b != g.entryBlock then
           idoms[b].Some? && idoms[b].value < |g.blocks| && ImmediatelyDominates(GraphOf(g), idoms[b].value, b)
         else idoms[b] == None
  }

  lemma ListedIsDominator(g: Cfg, doms: Sets, b: nat, d: nat)
    requires Exact(g, doms) && b < |g.blocks| && g.blocks[b].reachable
    ensures d in doms[b] <==> Dominates(GraphOf(g), d, b)
    ensures d in doms[b] ==> d < |g.blocks| && g.blocks[d].reachable
  {
  }

  /** A dominator's set is a smaller part of the set. */
  lemma DominatorSmaller(g: Cfg, doms: Sets, d: nat, b: nat)
    requires Ready(g) && Exact(g, doms) && b < |g.blocks| && g.blocks[b].reachable && d in doms[b] && d != b
    ensures d < |g.blocks| && g.blocks[d].reachable && |doms[d]| < |doms[b]| && b !in doms[d]
    ensures forall o :: o in doms[d] ==> o in doms[b]
  {
    var gg := GraphOf(g);
    ListedIsDominator(g, doms, b, d);
    forall o | o in doms[d] ensures o in doms[b] {
      DominatesTransitive(gg, o, d, b);
    }
    if b in doms[d] {
      DominatesAntisymmetric(gg, d, b);
    }
    DominatesSelf(gg, b);
    SortedShorter(doms[d], doms[b]);
  }

  predicate Closest(doms: Sets, strict: seq<nat>, c: nat)
    requires c < |doms|
  {
    forall o :: o in strict ==> o == c || o in doms[c]
  }

  lemma ClosestIsImmediate(g: Cfg, doms: Sets, b: nat, strict: seq<nat>, c: nat)
    requires Ready(g) && Exact(g, doms) && b < |g.blocks| && g.blocks[b].reachable
    requires (forall d: nat :: d in strict <==> d in doms[b] && d != b) && c in strict && c < |doms|
    ensures Closest(doms, strict, c) <==> ImmediatelyDominates(GraphOf(g), c, b)
  {
    var gg := GraphOf(g);
    if Closest(doms, strict, c) {
      forall o: nat | StrictlyDominates(gg, o, b) ensures Dominates(gg, o, c) {
        assert o in strict;
        DominatesSelf(gg, c);
      }
    }
    if ImmediatelyDominates(gg, c, b) {
      forall o | o in strict ensures o in doms[c] {
        assert StrictlyDominates(gg, o, b);
      }
    }
  }

  lemma OneImmediate(g: Graph, a: nat, c: nat, b: nat)
    requires Reachable(g, a) && ImmediatelyDominates(g, a, b) && ImmediatelyDominates(g, c, b)
    ensures a == c
  {
    DominatesAntisymmetric(g, a, c);
  }

  /** The strict dominator with the largest set. */
  lemma {:induction false} Largest(doms: Sets, strict: seq<nat>) returns (c: nat)
    requires strict != [] && forall d :: d in strict ==> d < |doms|
    ensures c in strict && forall d :: d in strict ==> |doms[d]| <= |doms[c]|
  {
    assert strict == [strict[0]] + strict[1..] && strict[0] in strict;
    assert forall d :: d in strict[1..] ==> d in strict;
    if |strict| == 1 {
      c := strict[0];
    } else {
      c := Largest(doms, strict[1..]);
      if |doms[c]| < |doms[strict[0]]| {
        c := strict[0];
      }
    }
  }

  /** Strict dominators form a chain, so the one with the largest set is the closest. */
  lemma SomeClosest(g: Cfg, doms: Sets, b: nat, strict: seq<nat>) returns (c: nat)
    requires Ready(g) && Exact(g, doms) && b < |g.blocks| && g.blocks[b].reachable && b != g.entryBlock
    requires forall d: nat :: d in strict <==> d in doms[b] && d != b
    ensures c in strict && c < |doms| && Closest(doms, strict, c)
  {
    var gg := GraphOf(g);
    EntryDominates(gg, b);
    assert g.entryBlock in strict;
    c := Largest(doms, strict);
    forall o | o in strict && o != c ensures o in doms[c] {
      DominatorsChain(gg, o, c, b);
      if Dominates(gg, c, o) {
        DominatorSmaller(g, doms, c, o);
      }
    }
  }

  method IsClosest(doms: Sets, strict: seq<nat>, candidate: nat) returns (isImmediate: bool)
    requires candidate < |doms|
    ensures isImmediate == Closest(doms, strict, candidate)
  {
    for j := 0 to |strict|
      invariant forall k :: 0 <= k < j ==> strict[k] == candidate || strict[k] in doms[candidate]
    {
      if strict[j] != candidate && strict[j] !in doms[candidate] {
        assert strict[j] in strict;
        return false;
      }
    }
    isImmediate := true;
  }

  /** The candidate that all other strict dominators dominate; errors when there is none or a second. */
  method FindImmediate(g: Cfg, doms: Sets, b: nat) returns (ok: bool, idom: Option<nat>)
    requires Ready(g) && Exact(g, doms) && b < |g.blocks| && g.blocks[b].reachable && b != g.entryBlock
    ensures ok && idom.Some? && idom.value < |g.blocks| && ImmediatelyDominates(GraphOf(g), idom.value, b)
  {
    hide Closest, ImmediatelyDominates, Closed, StrictlyDominates, Dominates, EdgesOk, Reachable;
    var strict := Without(doms[b], b);
    ghost var closest := SomeClosest(g, doms, b, strict);
    ClosestIsImmediate(g, doms, b, strict, closest);
    idom := None;
    for i := 0 to |strict|
      invariant idom.Some? ==>
        idom.value in strict && idom.value < |g.blocks| && ImmediatelyDominates(GraphOf(g), idom.value, b)
      invariant forall k :: 0 <= k < i && strict[k] == closest ==> idom.Some?
      invariant idom.Some? ==> exists k :: 0 <= k < i && strict[k] == idom.value
    {
      var candidate := strict[i];
      assert candidate in strict;
      var isImmediate := IsClosest(doms, strict, candidate);
      ClosestIsImmediate(g, doms, b, strict, candidate);
      if isImmediate {
        if idom.Some? {
          OneImmediate(GraphOf(g), candidate, idom.value, b);
          return false, None;
        }
        idom := Some(candidate);
      }
    }
    ghost var k :| 0 <= k < |strict| && strict[k] == closest;
    ok := idom.Some?;
  }

  method FindIdoms(g: Cfg, reachable: seq<nat>, doms: Sets) returns (ok: bool, idoms: seq<Option<nat>>)
    requires Ready(g) && Exact(g, doms)
    requires forall b: nat :: b in reachable <==> b < |g.blocks| && g.blocks[b].reachable
    ensures ok && IdomsExact(g, idoms)
  {
    idoms := seq(|g.blocks|, _ => None);
    for i := 0 to |reachable|
      invariant |idoms| == |g.blocks|
      invariant forall b :: 0 <= b < |idoms| ==>
        if b in reachable[..i] && b != g.entryBlock then
          idoms[b].Some? && idoms[b].value < |g.blocks| && ImmediatelyDominates(GraphOf(g), idoms[b].value, b)
        else idoms[b] == None
    {
      var block := reachable[i];
      assert block in reachable && reachable[..i + 1] == reachable[..i] + [block];
      if block != g.entryBlock {
        var idom;
        ok, idom := FindImmediate(g, doms, block);
        if !ok {
          return;
        }
        idoms := idoms[block := idom];
      }
    }
    assert reachable[..|reachable|] == reachable;
    ok := true;
  }

  /** Following immediate dominators from `b`. */
  function Ancestor(idoms: seq<Option<nat>>, b: nat, steps: nat): Option<nat>
    decreases steps
  {
    if steps == 0 then Some(b)
    else if b < |idoms| && idoms[b].Some? then Ancestor(idoms, idoms[b].value, steps - 1)
    else None
  }

  /** The dominators of a block are the block itself and those of its immediate dominator. */
  lemma DominatorsOfIdom(g: Cfg, doms: Sets, idoms: seq<Option<nat>>, b: nat, d: nat)
    requires Ready(g) && Exact(g, doms) && IdomsExact(g, idoms)
    requires b < |g.blocks| && g.blocks[b].reachable && b != g.entryBlock
    ensures idoms[b].Some? && idoms[b].value in doms[b] && idoms[b].value != b
    ensures d in doms[b] <==> d == b || d in doms[idoms[b].value]
  {
    var gg, i := GraphOf(g), idoms[b].value;
    ListedIsDominator(g, doms, b, i);
    ListedIsDominator(g, doms, b, d);
    DominatesSelf(gg, b);
    DominatorSmaller(g, doms, i, b);
    if d in doms[b] && d != b {
      assert StrictlyDominates(gg, d, b);
    }
  }

  /** The chain of `b` ends at the entry after `depth` links, and its blocks are the values of `ds`. */
  ghost predicate ChainLists(idoms: seq<Option<nat>>, b: nat, depth: nat, entry: nat, ds: seq<nat>) {
    && Ancestor(idoms, b, depth) == Some(entry)
    && (forall k: nat :: k > depth ==> Ancestor(idoms, b, k) == None)
    && forall d: nat :: d in ds <==> OnChain(idoms, b, depth, d)
  }

  ghost predicate OnChain(idoms: seq<Option<nat>>, b: nat, depth: nat, d: nat) {
    exists k: nat :: k <= depth && Ancestor(idoms, b, k) == Some(d)
  }

  /** The idom links form a tree rooted at the entry, and a block's chain lists exactly its dominators. */
  lemma {:induction false} IdomChain(g: Cfg, doms: Sets, idoms: seq<Option<nat>>, b: nat) returns (depth: nat)
    requires Ready(g) && Exact(g, doms) && IdomsExact(g, idoms) && b < |g.blocks| && g.blocks[b].reachable
    ensures b < |doms| && depth + 1 == |doms[b]| && ChainLists(idoms, b, depth, g.entryBlock, doms[b])
    decreases |doms[b]|
  {
    hide ChainLists, Ready, Closed;
    SelfListed(g, doms, b);
    if b == g.entryBlock {
      depth := 0;
      EntryOnlySelf(g, doms);
      EntryChain(idoms, b);
    } else {
      DominatorsOfIdom(g, doms, idoms, b, b);
      var i := idoms[b].value;
      DominatorSmaller(g, doms, i, b);
      var inner := IdomChain(g, doms, idoms, i);
      depth := inner + 1;
      IdomSize(g, doms, idoms, b);
      forall d: nat ensures d in doms[b] <==> d == b || d in doms[i] {
        DominatorsOfIdom(g, doms, idoms, b, d);
      }
      ChainExtended(idoms, b, inner, g.entryBlock, doms[i], doms[b]);
    }
  }

  lemma EntryChain(idoms: seq<Option<nat>>, b: nat)
    requires b < |idoms| && idoms[b].None?
    ensures ChainLists(idoms, b, 0, b, [b])
  {
    assert Ancestor(idoms, b, 0) == Some(b);
  }

  /** The chain of a block is the block and the chain of its immediate dominator. */
  lemma ChainExtended(idoms: seq<Option<nat>>, b: nat, inner: nat, entry: nat, ds: seq<nat>, all: seq<nat>)
    requires b < |idoms| && idoms[b].Some? && ChainLists(idoms, idoms[b].value, inner, entry, ds)
    requires forall d: nat :: d in all <==> d == b || d in ds
    ensures ChainLists(idoms, b, inner + 1, entry, all)
  {
    hide OnChain;
    var i := idoms[b].value;
    forall d: nat ensures d in all <==> OnChain(idoms, b, inner + 1, d) {
      ChainStep(idoms, b, inner, d);
    }
    forall k: nat | k > inner + 1 ensures Ancestor(idoms, b, k) == None {
      var j: nat := k - 1;
      assert Ancestor(idoms, b, k) == Ancestor(idoms, i, j);
    }
  }

  lemma ChainStep(idoms: seq<Option<nat>>, b: nat, inner: nat, d: nat)
    requires b < |idoms| && idoms[b].Some?
    ensures OnChain(idoms, b, inner + 1, d) <==> d == b || OnChain(idoms, idoms[b].value, inner, d)
  {
    var i := idoms[b].value;
    assert Ancestor(idoms, b, 0) == Some(b);
    if k: nat :| k <= inner && Ancestor(idoms, i, k) == Some(d) {
      assert Ancestor(idoms, b, k + 1) == Some(d);
    }
    if k: nat :| k <= inner + 1 && Ancestor(idoms, b, k) == Some(d) {
      if k > 0 {
        var j: nat := k - 1;
        assert Ancestor(idoms, i, j) == Some(d);
      }
    }
  }

  lemma EntryOnlySelf(g: Cfg, doms: Sets)
    requires Ready(g) && Exact(g, doms) && g.blocks[g.entryBlock].reachable
    ensures doms[g.entryBlock] == [g.entryBlock]
  {
    var e := g.entryBlock;
    EdgesClosed(g);
    DominatesSelf(GraphOf(g), e);
    forall d | d in doms[e] ensures d == e {
      OnlyEntryDominatesEntry(GraphOf(g), d);
    }
    assert Values(doms[e]) == Values([e]);
    SortedEqual(doms[e], [e]);
  }

  lemma IdomSize(g: Cfg, doms: Sets, idoms: seq<Option<nat>>, b: nat)
    requires Ready(g) && Exact(g, doms) && IdomsExact(g, idoms)
    requires b < |g.blocks| && g.blocks[b].reachable && b != g.entryBlock
    ensures idoms[b].Some? && idoms[b].value < |doms| && |doms[b]| == |doms[idoms[b].value]| + 1
  {
    DominatorsOfIdom(g, doms, idoms, b, b);
    var i := idoms[b].value;
    DominatorSmaller(g, doms, i, b);
    forall d: nat ensures d in doms[b] <==> d == b || d in doms[i] {
      DominatorsOfIdom(g, doms, idoms, b, d);
    }
    ValuesCount(doms[b]);
    ValuesCount(doms[i]);
    assert Values(doms[b]) == Values(doms[i]) + {b};
  }

  // ------------------------------------------------------------- tree and frontiers

  ghost predicate ChildrenExact(idoms: seq<Option<nat>>, children: Sets) {
    && |children| == |idoms|
    && forall d :: 0 <= d < |children| ==>
         Sorted(children[d]) && forall b: nat :: b in children[d] <==> b < |idoms| && idoms[b] == Some(d)
  }

  method FindChildren(idoms: seq<Option<nat>>) returns (children: Sets)
    requires forall b :: 0 <= b < |idoms| && idoms[b].Some? ==> idoms[b].value < |idoms|
    ensures ChildrenExact(idoms, children)
  {
    children := seq(|idoms|, _ => []);
    for block := 0 to |idoms|
      invariant |children| == |idoms|
      invariant forall d :: 0 <= d < |children| ==>
        Sorted(children[d]) && forall b: nat :: b in children[d] <==> b < block && idoms[b] == Some(d)
    {
      if idoms[block].Some? {
        var d := idoms[block].value;
        children := children[d := Insert(children[d], block)];
      }
    }
  }

  /** The dominance frontier by its definition: `n` dominates a predecessor of `y` but not `y` strictly. */
  ghost predicate InFrontier(g: Graph, n: nat, y: nat) {
    exists p :: Edge(g, p, y) && Reachable(g, p) && Dominates(g, n, p) && !StrictlyDominates(g, n, y)
  }

  /** The part of the frontier of `n` that one predecessor of `y` contributes. */
  ghost predicate Contributes(g: Graph, n: nat, p: nat, y: nat) {
    Dominates(g, n, p) && !StrictlyDominates(g, n, y)
  }

  predicate SortedSets(sets: Sets, n: nat) {
    |sets| == n && forall b :: 0 <= b < n ==> Sorted(sets[b])
  }

  /** A reachable predecessor of a block is dominated by the block's immediate dominator. */
  lemma IdomDominatesPredecessor(g: Cfg, doms: Sets, idoms: seq<Option<nat>>, y: nat, p: nat)
    requires Ready(g) && Closed(GraphOf(g)) && Exact(g, doms) && IdomsExact(g, idoms)
    requires y < |g.blocks| && p < |g.blocks| && g.blocks[y].reachable && g.blocks[p].reachable && p in g.blocks[y].predecessors
    requires idoms[y].Some?
    ensures idoms[y].value in doms[p]
  {
    PredecessorsAreEdges(g, y, p);
    DominatesByPredecessors(GraphOf(g), idoms[y].value, y);
  }

  /** Who gets `y` on the walk up from `p`: those above `p` and not above the stop. */
  lemma ContributesIs(g: Cfg, doms: Sets, idoms: seq<Option<nat>>, y: nat, p: nat, n: nat)
    requires Ready(g) && Closed(GraphOf(g)) && Exact(g, doms) && IdomsExact(g, idoms)
    requires y < |g.blocks| && p < |g.blocks| && g.blocks[y].reachable && g.blocks[p].reachable
    ensures Contributes(GraphOf(g), n, p, y)
        <==> n in doms[p] && (idoms[y].Some? ==> idoms[y].value < |doms| && n !in doms[idoms[y].value])
  {
    var gg := GraphOf(g);
    ListedIsDominator(g, doms, p, n);
    ListedIsDominator(g, doms, y, n);
    if idoms[y].Some? {
      DominatorsOfIdom(g, doms, idoms, y, n);
      DominatorSmaller(g, doms, idoms[y].value, y);
    } else if Dominates(gg, n, y) {
      OnlyEntryDominatesEntry(gg, n);
    }
  }

  // ------------------------------------------------------------ walks up the links

  predicate LinksInRange(idoms: seq<Option<nat>>) {
    forall b :: 0 <= b < |idoms| && idoms[b].Some? ==> idoms[b].value < |idoms|
  }

  /** The last link of a chain. */
  lemma {:induction false} AncestorNext(idoms: seq<Option<nat>>, b: nat, k: nat)
    ensures
      var at := Ancestor(idoms, b, k);
      Ancestor(idoms, b, k + 1)
      == if at.Some? && at.value < |idoms| && idoms[at.value].Some? then idoms[at.value] else None
    decreases k
  {
    if k > 0 && b < |idoms| && idoms[b].Some? {
      AncestorNext(idoms, idoms[b].value, k - 1);
    }
    if k == 0 && b < |idoms| && idoms[b].Some? {
      assert Ancestor(idoms, b, 1) == Ancestor(idoms, idoms[b].value, 0);
    }
  }

  /** A chain of `j + k` links is one of `k` links from where the first `j` lead. */
  lemma {:induction false} AncestorAdd(idoms: seq<Option<nat>>, b: nat, j: nat, k: nat)
    ensures
      Ancestor(idoms, b, j + k)
      == if Ancestor(idoms, b, j).Some? then Ancestor(idoms, Ancestor(idoms, b, j).value, k) else None
    decreases j
  {
    if j > 0 && b < |idoms| && idoms[b].Some? {
      AncestorAdd(idoms, idoms[b].value, j - 1, k);
      assert Ancestor(idoms, b, j + k) == Ancestor(idoms, idoms[b].value, j - 1 + k);
    }
  }

  lemma AncestorEnds(idoms: seq<Option<nat>>, b: nat, k: nat, later: nat)
    requires Ancestor(idoms, b, k) == None && k <= later
    ensures Ancestor(idoms, b, later) == None
  {
    AncestorAdd(idoms, b, k, later - k);
  }

  /** The walk is over after `k` links: at its stop or, when it has none, at the end of the chain. */
  predicate WalkEnds(idoms: seq<Option<nat>>, p: nat, stop: Option<nat>, k: nat) {
    && Ancestor(idoms, p, k).Some?
    && if stop.Some? then Ancestor(idoms, p, k) == stop else Ancestor(idoms, p, k + 1) == None
  }

  ghost predicate WalkFine(idoms: seq<Option<nat>>, p: nat, stop: Option<nat>, limit: nat) {
    exists k: nat :: k <= limit && WalkEnds(idoms, p, stop, k)
  }

  /** The first `count` blocks of the walk are not its stop. */
  ghost predicate NotStopped(idoms: seq<Option<nat>>, p: nat, stop: Option<nat>, count: nat) {
    forall j: nat :: j < count && stop.Some? ==> Ancestor(idoms, p, j) != stop
  }

  /** The walk comes by `b` before its stop. */
  ghost predicate Passes(idoms: seq<Option<nat>>, p: nat, stop: Option<nat>, b: nat) {
    exists k: nat :: Ancestor(idoms, p, k) == Some(b) && NotStopped(idoms, p, stop, k + 1)
  }

  /** `b` is among the first `count` blocks of the chain. */
  ghost predicate Met(idoms: seq<Option<nat>>, p: nat, b: nat, count: nat) {
    exists k: nat :: k < count && Ancestor(idoms, p, k) == Some(b)
  }

  lemma PassesAtStop(idoms: seq<Option<nat>>, p: nat, stop: nat, steps: nat, b: nat)
    requires Ancestor(idoms, p, steps) == Some(stop) && NotStopped(idoms, p, Some(stop), steps)
    ensures Passes(idoms, p, Some(stop), b) <==> Met(idoms, p, b, steps)
  {
    if k: nat :| Ancestor(idoms, p, k) == Some(b) && NotStopped(idoms, p, Some(stop), k + 1) {
      assert k < steps;
    }
    if k: nat :| k < steps && Ancestor(idoms, p, k) == Some(b) {
      assert NotStopped(idoms, p, Some(stop), k + 1);
    }
  }

  lemma PassesToEnd(idoms: seq<Option<nat>>, p: nat, steps: nat, b: nat)
    requires Ancestor(idoms, p, steps + 1) == None
    ensures Passes(idoms, p, None, b) <==> Met(idoms, p, b, steps + 1)
  {
    if k: nat :| Ancestor(idoms, p, k) == Some(b) && NotStopped(idoms, p, None, k + 1) {
      if k > steps {
        AncestorEnds(idoms, p, steps + 1, k);
      }
    }
    if k: nat :| k < steps + 1 && Ancestor(idoms, p, k) == Some(b) {
      assert NotStopped(idoms, p, None, k + 1);
    }
  }

  lemma MissesStop(idoms: seq<Option<nat>>, p: nat, stop: nat, steps: nat, limit: nat)
    requires NotStopped(idoms, p, Some(stop), steps + 1) && Ancestor(idoms, p, steps + 1) == None
    ensures !WalkFine(idoms, p, Some(stop), limit)
  {
    forall k: nat ensures !WalkEnds(idoms, p, Some(stop), k) {
      if k > steps {
        AncestorEnds(idoms, p, steps + 1, k);
      }
    }
  }

  lemma TooLong(idoms: seq<Option<nat>>, p: nat, stop: Option<nat>, limit: nat)
    requires NotStopped(idoms, p, stop, limit + 1) && Ancestor(idoms, p, limit + 1).Some?
    ensures !WalkFine(idoms, p, stop, limit)
  {
    forall k: nat | k <= limit ensures !WalkEnds(idoms, p, stop, k) {
      if Ancestor(idoms, p, k + 1) == None {
        AncestorEnds(idoms, p, k + 1, limit + 1);
      }
    }
  }

  /** `y` has been added to the frontiers of the first `count` blocks of the chain of `p`. */
  ghost predicate Walked(before: Sets, after: Sets, idoms: seq<Option<nat>>, y: nat, p: nat, count: nat) {
    && SortedSets(before, |idoms|) && SortedSets(after, |idoms|)
    && forall b: nat, x: nat :: b < |idoms| ==> (x in after[b] <==> x in before[b] || (x == y && Met(idoms, p, b, count)))
  }

  lemma WalkStart(before: Sets, idoms: seq<Option<nat>>, y: nat, p: nat)
    requires SortedSets(before, |idoms|)
    ensures Walked(before, before, idoms, y, p, 0)
  {
  }

  lemma WalkStep(before: Sets, after: Sets, idoms: seq<Option<nat>>, y: nat, p: nat, runner: nat, count: nat)
    requires Walked(before, after, idoms, y, p, count) && runner < |idoms| && Ancestor(idoms, p, count) == Some(runner)
    ensures |after| == |idoms| && Sorted(after[runner])
    ensures Walked(before, after[runner := Insert(after[runner], y)], idoms, y, p, count + 1)
  {
    forall b: nat ensures Met(idoms, p, b, count + 1) <==> Met(idoms, p, b, count) || b == runner {
      if k: nat :| k < count + 1 && Ancestor(idoms, p, k) == Some(b) {
        assert k < count || b == runner;
      }
    }
  }

  /** The frontiers after the walk from one predecessor `p` of `y`. */
  ghost predicate AddedFor(before: Sets, after: Sets, idoms: seq<Option<nat>>, y: nat, p: nat)
    requires y < |idoms|
  {
    && SortedSets(before, |idoms|) && SortedSets(after, |idoms|)
    && forall b: nat, x: nat :: b < |idoms| ==>
         (x in after[b] <==> x in before[b] || (x == y && Passes(idoms, p, idoms[y], b)))
  }

  lemma AddedAtStop(before: Sets, after: Sets, idoms: seq<Option<nat>>, y: nat, p: nat, stop: nat, steps: nat)
    requires y < |idoms| && idoms[y] == Some(stop) && Walked(before, after, idoms, y, p, steps)
    requires Ancestor(idoms, p, steps) == Some(stop) && NotStopped(idoms, p, Some(stop), steps)
    ensures AddedFor(before, after, idoms, y, p)
  {
    hide NotStopped, Passes, Met;
    forall b: nat ensures Passes(idoms, p, Some(stop), b) <==> Met(idoms, p, b, steps) {
      PassesAtStop(idoms, p, stop, steps, b);
    }
  }

  lemma AddedToEnd(before: Sets, after: Sets, idoms: seq<Option<nat>>, y: nat, p: nat, steps: nat)
    requires y < |idoms| && idoms[y] == None && Walked(before, after, idoms, y, p, steps + 1)
    requires Ancestor(idoms, p, steps + 1) == None
    ensures AddedFor(before, after, idoms, y, p)
  {
    hide NotStopped, Passes, Met;
    forall b: nat ensures Passes(idoms, p, None, b) <==> Met(idoms, p, b, steps + 1) {
      PassesToEnd(idoms, p, steps, b);
    }
  }

  /** Walks up the links from a predecessor to the block's own immediate dominator; an error exactly
      when the chain misses its stop or is too long. */
  method AddFrontierAlongIdomChain(frontiers: Sets, idoms: seq<Option<nat>>, y: nat, p: nat) returns (ok: bool, result: Sets)
    requires LinksInRange(idoms) && SortedSets(frontiers, |idoms|) && y < |idoms| && p < |idoms|
    ensures ok <==> WalkFine(idoms, p, idoms[y], |idoms|)
    ensures ok ==> AddedFor(frontiers, result, idoms, y, p)
  {
    hide Walked, AddedFor, SortedSets;
    var stop := idoms[y];
    var runner: nat := p;
    result := frontiers;
    WalkStart(frontiers, idoms, y, p);
    var steps := 0;
    while steps <= |idoms|
      invariant steps <= |idoms| + 1 && runner < |idoms| && Ancestor(idoms, p, steps) == Some(runner)
      invariant NotStopped(idoms, p, stop, steps)
      invariant Walked(frontiers, result, idoms, y, p, steps)
    {
      AncestorNext(idoms, p, steps);
      if stop == Some(runner) {
        assert WalkEnds(idoms, p, stop, steps);
        AddedAtStop(frontiers, result, idoms, y, p, runner, steps);
        return true, result;
      }
      WalkStep(frontiers, result, idoms, y, p, runner, steps);
      result := result[runner := Insert(result[runner], y)];
      if idoms[runner].None? {
        if stop.Some? {
          MissesStop(idoms, p, stop.value, steps, |idoms|);
          return false, result;
        }
        assert WalkEnds(idoms, p, stop, steps);
        AddedToEnd(frontiers, result, idoms, y, p, steps);
        return true, result;
      }
      runner := idoms[runner].value;
      steps := steps + 1;
    }
    TooLong(idoms, p, stop, |idoms|);
    ok := false;
  }

  // ------------------------------------------------- walks with the immediate dominators

  /** Each link leads to a dominator with one element less. */
  lemma {:induction false} ChainSize(g: Cfg, doms: Sets, idoms: seq<Option<nat>>, p: nat, k: nat)
    requires Ready(g) && Exact(g, doms) && IdomsExact(g, idoms) && p < |g.blocks| && g.blocks[p].reachable
    requires Ancestor(idoms, p, k).Some?
    ensures
      var x := Ancestor(idoms, p, k).value;
      && |doms| == |g.blocks| && x < |g.blocks| && g.blocks[x].reachable && x in doms[p] && |doms[x]| + k == |doms[p]|
    decreases k
  {
    hide Ready;
    SelfListed(g, doms, p);
    if k > 0 {
      LinkedNotEntry(g, idoms, p);
      IdomSize(g, doms, idoms, p);
      DominatorsOfIdom(g, doms, idoms, p, p);
      DominatorSmaller(g, doms, idoms[p].value, p);
      ChainSize(g, doms, idoms, idoms[p].value, k - 1);
    }
  }

  lemma LinkedNotEntry(g: Cfg, idoms: seq<Option<nat>>, p: nat)
    requires IdomsExact(g, idoms) && p < |g.blocks| && p < |idoms| && idoms[p].Some?
    ensures p != g.entryBlock
  {
  }

  /** Every dominator of a block is on its chain. */
  lemma OnOwnChain(g: Cfg, doms: Sets, idoms: seq<Option<nat>>, p: nat, x: nat) returns (k: nat)
    requires Ready(g) && Exact(g, doms) && IdomsExact(g, idoms) && p < |g.blocks| && g.blocks[p].reachable
    requires |doms| == |g.blocks| && x in doms[p]
    ensures Ancestor(idoms, p, k) == Some(x) && k < |g.blocks|
  {
    hide Ready, Exact, IdomsExact;
    var depth := IdomChain(g, doms, idoms, p);
    SelfListed(g, doms, p);
    SizeBound(g, doms, p);
    k :| k <= depth && Ancestor(idoms, p, k) == Some(x);
  }

  /** With the immediate dominators the walk ends in time. */
  lemma ExactWalkFine(g: Cfg, doms: Sets, idoms: seq<Option<nat>>, y: nat, p: nat)
    requires Ready(g) && Closed(GraphOf(g)) && Exact(g, doms) && IdomsExact(g, idoms) && |idoms| == |g.blocks|
    requires y < |g.blocks| && p < |g.blocks| && g.blocks[y].reachable && g.blocks[p].reachable && p in g.blocks[y].predecessors
    ensures WalkFine(idoms, p, idoms[y], |idoms|)
  {
    hide Ready, Exact, IdomsExact, Closed;
    SelfListed(g, doms, p);
    if idoms[y].Some? {
      IdomDominatesPredecessor(g, doms, idoms, y, p);
      var k := OnOwnChain(g, doms, idoms, p, idoms[y].value);
      assert WalkEnds(idoms, p, idoms[y], k);
    } else {
      var depth := IdomChain(g, doms, idoms, p);
      SizeBound(g, doms, p);
      assert WalkEnds(idoms, p, None, depth);
    }
  }

  /** With the immediate dominators the walk passes exactly the blocks whose frontier the predecessor
      puts `y` into. */
  lemma ExactWalkPasses(g: Cfg, doms: Sets, idoms: seq<Option<nat>>, y: nat, p: nat, b: nat)
    requires Ready(g) && Closed(GraphOf(g)) && Exact(g, doms) && IdomsExact(g, idoms) && |idoms| == |g.blocks|
    requires y < |g.blocks| && p < |g.blocks| && g.blocks[y].reachable && g.blocks[p].reachable && p in g.blocks[y].predecessors
    ensures Passes(idoms, p, idoms[y], b) <==> Contributes(GraphOf(g), b, p, y)
  {
    hide Ready, Exact, IdomsExact, Closed, Contributes, NotStopped;
    SelfListed(g, doms, p);
    ContributesIs(g, doms, idoms, y, p, b);
    var stop := idoms[y];
    if k: nat :| Ancestor(idoms, p, k) == Some(b) && NotStopped(idoms, p, stop, k + 1) {
      ChainSize(g, doms, idoms, p, k);
      if stop.Some? {
        IdomDominatesPredecessor(g, doms, idoms, y, p);
        PassedIsAbove(g, doms, idoms, p, stop.value, b, k);
      }
    }
    if b in doms[p] && (stop.Some? ==> stop.value < |doms| && b !in doms[stop.value]) {
      var k := OnOwnChain(g, doms, idoms, p, b);
      AboveIsPassed(g, doms, idoms, p, stop, b, k);
    }
  }

  lemma PassedIsAbove(g: Cfg, doms: Sets, idoms: seq<Option<nat>>, p: nat, stop: nat, b: nat, k: nat)
    requires Ready(g) && Exact(g, doms) && IdomsExact(g, idoms) && p < |g.blocks| && g.blocks[p].reachable
    requires |doms| == |g.blocks| && stop in doms[p]
    requires Ancestor(idoms, p, k) == Some(b) && NotStopped(idoms, p, Some(stop), k + 1)
    ensures stop < |doms| && b !in doms[stop]
  {
    hide Ready, Exact, IdomsExact;
    var m := OnOwnChain(g, doms, idoms, p, stop);
    assert m > k;
    ChainSize(g, doms, idoms, p, k);
    ChainSize(g, doms, idoms, p, m);
    if b in doms[stop] && b != stop {
      DominatorSmaller(g, doms, b, stop);
    }
  }

  lemma AboveIsPassed(g: Cfg, doms: Sets, idoms: seq<Option<nat>>, p: nat, stop: Option<nat>, b: nat, k: nat)
    requires Ready(g) && Exact(g, doms) && IdomsExact(g, idoms) && p < |g.blocks| && g.blocks[p].reachable
    requires |doms| == |g.blocks| && Ancestor(idoms, p, k) == Some(b)
    requires stop.Some? ==> stop.value < |doms| && b !in doms[stop.value]
    ensures NotStopped(idoms, p, stop, k + 1)
  {
    hide Ready, Exact, IdomsExact;
    forall j: nat | j < k + 1 && stop.Some? ensures Ancestor(idoms, p, j) != stop {
      if Ancestor(idoms, p, j) == stop {
        ChainSize(g, doms, idoms, p, j);
        AncestorAdd(idoms, p, j, k - j);
        ChainSize(g, doms, idoms, stop.value, k - j);
      }
    }
  }

  lemma SelfListed(g: Cfg, doms: Sets, b: nat)
    requires Exact(g, doms) && b < |g.blocks| && g.blocks[b].reachable
    ensures |doms| == |g.blocks| && b in doms[b] && |doms[b]| > 0 && Shaped(g, doms)
  {
    DominatesSelf(GraphOf(g), b);
  }

  lemma SizeBound(g: Cfg, doms: Sets, b: nat)
    requires Shaped(g, doms) && b < |doms|
    ensures |doms[b]| <= |g.blocks|
  {
    ValuesCount(doms[b]);
    SubsetCount(Values(doms[b]), Below(|g.blocks|));
  }

  function Below(n: nat): (r: set<nat>)
    ensures |r| == n && forall x: nat :: x in r <==> x < n
  {
    if n == 0 then {} else Below(n - 1) + {n - 1}
  }

  // ------------------------------------------------------------------- all frontiers

  /** The membership that the walks from all reachable predecessors of `y` give. */
  ghost predicate Owed(g: Cfg, idoms: seq<Option<nat>>, n: nat, y: nat, count: nat)
    requires y < |g.blocks| && y < |idoms| && count <= |g.blocks[y].predecessors|
  {
    exists k :: 0 <= k < count && g.blocks[y].predecessors[k] < |g.blocks| && g.blocks[g.blocks[y].predecessors[k]].reachable
                && Passes(idoms, g.blocks[y].predecessors[k], idoms[y], n)
  }

  /** The walks from the first `count` predecessors of `y` end. */
  ghost predicate WalksOf(g: Cfg, idoms: seq<Option<nat>>, y: nat, count: nat)
    requires y < |g.blocks| && y < |idoms| && count <= |g.blocks[y].predecessors|
  {
    forall k :: 0 <= k < count && g.blocks[y].predecessors[k] < |g.blocks| && g.blocks[g.blocks[y].predecessors[k]].reachable ==>
      WalkFine(idoms, g.blocks[y].predecessors[k], idoms[y], |idoms|)
  }

  /** The walks to the first `upTo` blocks end. */
  ghost predicate WalksUpTo(g: Cfg, idoms: seq<Option<nat>>, upTo: nat)
    requires upTo <= |g.blocks| == |idoms|
  {
    forall y :: 0 <= y < upTo && g.blocks[y].reachable ==> WalksOf(g, idoms, y, |g.blocks[y].predecessors|)
  }

  /** The frontiers after the first `upTo` blocks. */
  ghost predicate WalkedUpTo(g: Cfg, idoms: seq<Option<nat>>, frontiers: Sets, upTo: nat)
    requires upTo <= |g.blocks| == |idoms|
  {
    && SortedSets(frontiers, |g.blocks|)
    && forall n: nat, x: nat {:trigger x in frontiers[n]} :: n < |g.blocks| ==>
         (x in frontiers[n] <==> x < upTo && g.blocks[x].reachable && Owed(g, idoms, n, x, |g.blocks[x].predecessors|))
  }

  /** The frontiers after some predecessors of `y`. */
  ghost predicate WalkedFor(g: Cfg, idoms: seq<Option<nat>>, before: Sets, frontiers: Sets, y: nat, count: nat)
    requires y < |g.blocks| == |idoms| && count <= |g.blocks[y].predecessors|
  {
    && SortedSets(before, |g.blocks|) && SortedSets(frontiers, |g.blocks|)
    && forall n: nat, x: nat :: n < |g.blocks| ==>
         (x in frontiers[n] <==> x in before[n] || (x == y && Owed(g, idoms, n, y, count)))
  }

  lemma WalkedForNone(g: Cfg, idoms: seq<Option<nat>>, before: Sets, y: nat)
    requires y < |g.blocks| == |idoms| && WalkedUpTo(g, idoms, before, y)
    ensures WalkedFor(g, idoms, before, before, y, 0)
  {
  }

  lemma WalkedForNext(g: Cfg, idoms: seq<Option<nat>>, before: Sets, now: Sets, after: Sets, y: nat, k: nat)
    requires y < |g.blocks| == |idoms| && k < |g.blocks[y].predecessors| && g.blocks[y].predecessors[k] < |g.blocks|
    requires WalkedFor(g, idoms, before, now, y, k)
    requires
      if g.blocks[g.blocks[y].predecessors[k]].reachable then AddedFor(now, after, idoms, y, g.blocks[y].predecessors[k])
      else after == now
    ensures WalkedFor(g, idoms, before, after, y, k + 1)
  {
    hide Passes;
    forall n: nat
      ensures Owed(g, idoms, n, y, k + 1)
          <==> Owed(g, idoms, n, y, k)
               || (g.blocks[g.blocks[y].predecessors[k]].reachable && Passes(idoms, g.blocks[y].predecessors[k], idoms[y], n))
    {
    }
  }

  lemma WalkedForAll(g: Cfg, idoms: seq<Option<nat>>, before: Sets, after: Sets, y: nat)
    requires y < |g.blocks| == |idoms| && g.blocks[y].reachable && WalkedUpTo(g, idoms, before, y)
    requires WalkedFor(g, idoms, before, after, y, |g.blocks[y].predecessors|)
    ensures WalkedUpTo(g, idoms, after, y + 1)
  {
    hide Owed;
  }

  /** The expected frontiers for any links; an error exactly when some walk does not end. */
  method ComputeFrontiers(g: Cfg, idoms: seq<Option<nat>>) returns (ok: bool, frontiers: Sets)
    requires EdgesOk(g) && |idoms| == |g.blocks| && LinksInRange(idoms)
    ensures ok <==> WalksUpTo(g, idoms, |g.blocks|)
    ensures ok ==> WalkedUpTo(g, idoms, frontiers, |g.blocks|)
  {
    hide WalkedFor, AddedFor, WalksOf, Owed, EdgesOk;
    frontiers := seq(|g.blocks|, _ => []);
    ok := true;
    for y := 0 to |g.blocks|
      invariant ok && WalksUpTo(g, idoms, y) && WalkedUpTo(g, idoms, frontiers, y)
    {
      if g.blocks[y].reachable {
        ok, frontiers := AddFrontiersOf(g, frontiers, idoms, y);
        if !ok {
          return;
        }
      }
    }
  }

  /** The frontiers that a block belongs to, found from its predecessors. */
  method AddFrontiersOf(g: Cfg, before: Sets, idoms: seq<Option<nat>>, y: nat) returns (ok: bool, frontiers: Sets)
    requires EdgesOk(g) && |idoms| == |g.blocks| && LinksInRange(idoms)
    requires y < |g.blocks| && g.blocks[y].reachable && WalkedUpTo(g, idoms, before, y)
    ensures ok <==> WalksOf(g, idoms, y, |g.blocks[y].predecessors|)
    ensures ok ==> WalkedUpTo(g, idoms, frontiers, y + 1)
  {
    hide AddedFor, WalkedUpTo, Owed, WalkFine;
    frontiers := before;
    ok := true;
    var predecessors := g.blocks[y].predecessors;
    assert BlockEdgesOk(g, y);
    WalkedForNone(g, idoms, before, y);
    for k := 0 to |predecessors|
      invariant ok && WalksOf(g, idoms, y, k) && WalkedFor(g, idoms, before, frontiers, y, k)
    {
      var p := predecessors[k];
      assert p in predecessors;
      ghost var now := frontiers;
      if g.blocks[p].reachable {
        ok, frontiers := AddFrontierAlongIdomChain(frontiers, idoms, y, p);
        if !ok {
          return;
        }
      }
      WalkedForNext(g, idoms, before, now, frontiers, y, k);
    }
    WalkedForAll(g, idoms, before, frontiers, y);
  }

  /** The frontiers agree with their definition by paths. */
  ghost predicate FrontiersExact(g: Cfg, frontiers: Sets) {
    && SortedSets(frontiers, |g.blocks|)
    && forall n: nat, x: nat {:trigger x in frontiers[n]} :: n < |g.blocks| ==>
         (x in frontiers[n] <==> x < |g.blocks| && g.blocks[x].reachable && InFrontier(GraphOf(g), n, x))
  }

  lemma OwedIsFrontier(g: Cfg, doms: Sets, idoms: seq<Option<nat>>, n: nat, y: nat)
    requires Ready(g) && Closed(GraphOf(g)) && Exact(g, doms) && IdomsExact(g, idoms) && |idoms| == |g.blocks|
    requires y < |g.blocks| && g.blocks[y].reachable
    ensures Owed(g, idoms, n, y, |g.blocks[y].predecessors|) <==> InFrontier(GraphOf(g), n, y)
  {
    hide Ready, Exact, IdomsExact, Closed, Passes, Dominates, Reachable;
    var gg, ps := GraphOf(g), g.blocks[y].predecessors;
    if k :| 0 <= k < |ps| && ps[k] < |g.blocks| && g.blocks[ps[k]].reachable && Passes(idoms, ps[k], idoms[y], n) {
      assert ps[k] in ps;
      PredecessorsAreEdges(g, y, ps[k]);
      FlagsExact(g, ps[k]);
      ExactWalkPasses(g, doms, idoms, y, ps[k], n);
    }
    if p :| Edge(gg, p, y) && Reachable(gg, p) && Dominates(gg, n, p) && !StrictlyDominates(gg, n, y) {
      PredecessorsAreEdges(g, y, p);
      FlagsExact(g, p);
      ExactWalkPasses(g, doms, idoms, y, p, n);
      var k :| 0 <= k < |ps| && ps[k] == p;
    }
  }

  lemma FlagsExact(g: Cfg, b: nat)
    requires Ready(g) && b < |g.blocks|
    ensures g.blocks[b].reachable <==> Reachable(GraphOf(g), b)
  {
  }

  /** With the immediate dominators every walk ends, and the walks give the dominance frontiers. */
  lemma ExactFrontiers(g: Cfg, doms: Sets, idoms: seq<Option<nat>>)
    requires Ready(g) && Closed(GraphOf(g)) && Exact(g, doms) && IdomsExact(g, idoms) && |idoms| == |g.blocks|
    ensures WalksUpTo(g, idoms, |g.blocks|)
    ensures forall frontiers :: WalkedUpTo(g, idoms, frontiers, |g.blocks|) <==> FrontiersExact(g, frontiers)
  {
    hide Ready, Exact, IdomsExact, Closed, Owed, InFrontier, WalkFine;
    forall y | 0 <= y < |g.blocks| && g.blocks[y].reachable ensures WalksOf(g, idoms, y, |g.blocks[y].predecessors|) {
      var ps := g.blocks[y].predecessors;
      forall k | 0 <= k < |ps| && ps[k] < |g.blocks| && g.blocks[ps[k]].reachable
        ensures WalkFine(idoms, ps[k], idoms[y], |idoms|)
      {
        assert ps[k] in ps;
        ExactWalkFine(g, doms, idoms, y, ps[k]);
      }
    }
    forall n: nat, y: nat | y < |g.blocks| && g.blocks[y].reachable
      ensures Owed(g, idoms, n, y, |g.blocks[y].predecessors|) <==> InFrontier(GraphOf(g), n, y)
    {
      OwedIsFrontier(g, doms, idoms, n, y);
    }
  }

  // -------------------------------------------------------------------- the pass

  datatype DominanceInfo = DominanceInfo(
    dominators: Sets, immediateDominators: seq<Option<nat>>, dominanceChildren: Sets, dominanceFrontiers: Sets)

  /** Everything the pass computes agrees with its definition by paths. */
  ghost predicate InfoExact(g: Cfg, info: DominanceInfo) {
    && Exact(g, info.dominators)
    && IdomsExact(g, info.immediateDominators)
    && ChildrenExact(info.immediateDominators, info.dominanceChildren)
    && FrontiersExact(g, info.dominanceFrontiers)
  }

  /** The sets of one block as `verify` checks them. */
  method VerifySets(sets: seq<nat>, n: nat) returns (ok: bool)
    ensures ok == (Sorted(sets) && forall x :: x in sets ==> x < n)
  {
    for i := 0 to |sets|
      invariant forall k :: 0 <= k < i ==> sets[k] < n && (k > 0 ==> sets[k - 1] < sets[k])
    {
      if sets[i] >= n {
        assert sets[i] in sets;
        return false;
      }
      if i > 0 && sets[i - 1] >= sets[i] {
        return false;
      }
    }
    AdjacentSorted(sets);
    ok := true;
  }

  lemma {:induction false} AdjacentSorted(s: seq<nat>)
    requires forall k :: 0 < k < |s| ==> s[k - 1] < s[k]
    ensures Sorted(s)
  {
    if s != [] {
      var last := |s| - 1;
      AdjacentSorted(s[..last]);
      forall y | y in s[..last] ensures y < s[last] {
        var k :| 0 <= k < last && s[k] == y;
        assert s[..last][k] <= s[..last][last - 1];
      }
      SnocSorted(s[..last], s[last]);
      assert s == s[..last] + [s[last]];
    }
  }

  predicate SameSize(g: Cfg, info: DominanceInfo) {
    && |info.dominators| == |info.immediateDominators| == |g.blocks|
    && |info.dominanceChildren| == |info.dominanceFrontiers| == |g.blocks|
  }

  predicate SetFine(s: seq<nat>, n: nat) {
    Sorted(s) && forall x :: x in s ==> x < n
  }

  predicate SetsFine(g: Cfg, info: DominanceInfo, b: nat)
    requires SameSize(g, info) && b < |g.blocks|
  {
    && SetFine(info.dominators[b], |g.blocks|) && SetFine(info.dominanceChildren[b], |g.blocks|)
    && SetFine(info.dominanceFrontiers[b], |g.blocks|)
    && (info.immediateDominators[b].Some? ==> info.immediateDominators[b].value < |g.blocks|)
  }

  predicate NothingRecorded(g: Cfg, info: DominanceInfo, b: nat)
    requires SameSize(g, info) && b < |g.blocks|
  {
    && info.dominators[b] == [] && info.immediateDominators[b] == None
    && info.dominanceChildren[b] == [] && info.dominanceFrontiers[b] == []
  }

  /** The recorded immediate dominator is a listed one, and the others are listed for it too. */
  predicate IdomFits(g: Cfg, info: DominanceInfo, b: nat)
    requires SameSize(g, info) && b < |g.blocks|
  {
    var ds, idom := info.dominators[b], info.immediateDominators[b];
    if b == g.entryBlock then idom == None
    else
      && idom.Some? && idom.value in ds && idom.value != b && idom.value < |g.blocks|
      && forall d :: d in ds ==> d == b || d == idom.value || d in info.dominators[idom.value]
  }

  /** What the closing verification asks of one block. */
  predicate BlockAccepted(g: Cfg, info: DominanceInfo, b: nat)
    requires SameSize(g, info) && b < |g.blocks|
  {
    && SetsFine(g, info, b)
    && if g.blocks[b].reachable then
         && b in info.dominators[b]
         && (forall d :: d in info.dominators[b] ==> d < |g.blocks| && g.blocks[d].reachable)
         && IdomFits(g, info, b)
       else NothingRecorded(g, info, b)
  }

  /** What the closing verification asks of a graph and its dominance information. */
  ghost predicate Accepted(g: Cfg, info: DominanceInfo) {
    && WellFormed(g) && SameSize(g, info) && (forall b :: 0 <= b < |g.blocks| ==> BlockAccepted(g, info, b))
    && ChildrenExact(info.immediateDominators, info.dominanceChildren)
    && WalksUpTo(g, info.immediateDominators, |g.blocks|)
    && WalkedUpTo(g, info.immediateDominators, info.dominanceFrontiers, |g.blocks|)
  }

  lemma BlockSetsFine(g: Cfg, info: DominanceInfo, b: nat)
    requires Ready(g) && Closed(GraphOf(g)) && InfoExact(g, info) && b < |g.blocks|
    ensures SameSize(g, info) && SetsFine(g, info, b)
  {
  }

  /** Only reachable blocks have children or frontiers. */
  lemma OwnerReachable(g: Cfg, info: DominanceInfo, b: nat, x: nat)
    requires Ready(g) && Closed(GraphOf(g)) && InfoExact(g, info) && b < |g.blocks|
    requires b < |info.dominanceChildren| && b < |info.dominanceFrontiers|
    requires x in info.dominanceChildren[b] || x in info.dominanceFrontiers[b]
    ensures g.blocks[b].reachable
  {
    var gg := GraphOf(g);
    if x in info.dominanceChildren[b] {
      DominatorReachable(gg, b, x);
    } else {
      var p :| Edge(gg, p, x) && Reachable(gg, p) && Dominates(gg, b, p) && !StrictlyDominates(gg, b, x);
      DominatorReachable(gg, b, p);
    }
  }

  lemma UnreachableEmpty(g: Cfg, info: DominanceInfo, b: nat)
    requires Ready(g) && Closed(GraphOf(g)) && InfoExact(g, info) && b < |g.blocks| && !g.blocks[b].reachable
    ensures SameSize(g, info) && NothingRecorded(g, info, b)
  {
    BlockSetsFine(g, info, b);
    OwnersReachable(g, info, b);
  }

  lemma OwnersReachable(g: Cfg, info: DominanceInfo, b: nat)
    requires Ready(g) && Closed(GraphOf(g)) && InfoExact(g, info) && b < |g.blocks|
    requires b < |info.dominanceChildren| && b < |info.dominanceFrontiers|
    ensures info.dominanceChildren[b] != [] || info.dominanceFrontiers[b] != [] ==> g.blocks[b].reachable
  {
    hide Ready, Closed, InfoExact;
    if info.dominanceChildren[b] != [] {
      OwnerReachable(g, info, b, info.dominanceChildren[b][0]);
    }
    if info.dominanceFrontiers[b] != [] {
      OwnerReachable(g, info, b, info.dominanceFrontiers[b][0]);
    }
  }

  lemma ReachableFine(g: Cfg, info: DominanceInfo, b: nat)
    requires Ready(g) && InfoExact(g, info) && b < |g.blocks| && g.blocks[b].reachable && SameSize(g, info)
    ensures b in info.dominators[b] && IdomFits(g, info, b)
    ensures forall d :: d in info.dominators[b] ==> d < |g.blocks| && g.blocks[d].reachable
  {
    SelfListed(g, info.dominators, b);
    if b != g.entryBlock {
      forall d | d in info.dominators[b] ensures d == b || d in info.dominators[info.immediateDominators[b].value] {
        DominatorsOfIdom(g, info.dominators, info.immediateDominators, b, d);
      }
      DominatorsOfIdom(g, info.dominators, info.immediateDominators, b, b);
    }
  }

  lemma ExactBlockAccepted(g: Cfg, info: DominanceInfo, b: nat)
    requires Ready(g) && Closed(GraphOf(g)) && InfoExact(g, info) && b < |g.blocks| && SameSize(g, info)
    ensures BlockAccepted(g, info, b)
  {
    hide Ready, Closed, InfoExact, SetsFine, NothingRecorded, IdomFits;
    BlockSetsFine(g, info, b);
    if g.blocks[b].reachable {
      ReachableFine(g, info, b);
    } else {
      UnreachableEmpty(g, info, b);
    }
  }

  /** Exact information is accepted. */
  lemma ExactAccepted(g: Cfg, info: DominanceInfo)
    requires WellFormed(g) && InfoExact(g, info)
    ensures Accepted(g, info)
  {
    hide WellFormed, Ready, Closed, Exact, IdomsExact, ChildrenExact, FrontiersExact, BlockAccepted, WalksUpTo, WalkedUpTo;
    WellFormedReady(g);
    InfoSize(g, info);
    forall b | 0 <= b < |g.blocks| ensures BlockAccepted(g, info, b) {
      ExactBlockAccepted(g, info, b);
    }
    ExactFrontiers(g, info.dominators, info.immediateDominators);
  }

  lemma InfoSize(g: Cfg, info: DominanceInfo)
    requires InfoExact(g, info)
    ensures SameSize(g, info)
  {
  }

  lemma IdomLinks(g: Cfg, idoms: seq<Option<nat>>)
    requires IdomsExact(g, idoms)
    ensures LinksInRange(idoms) && |idoms| == |g.blocks|
  {
  }

  /** The checks on one block. */
  method VerifyBlock(g: Cfg, info: DominanceInfo, b: nat) returns (ok: bool)
    requires SameSize(g, info) && b < |g.blocks|
    ensures ok == BlockAccepted(g, info, b)
  {
    hide Sorted;
    var ds, idom := info.dominators[b], info.immediateDominators[b];
    var fine := VerifySets(ds, |g.blocks|);
    if fine {
      fine := VerifySets(info.dominanceChildren[b], |g.blocks|);
    }
    if fine {
      fine := VerifySets(info.dominanceFrontiers[b], |g.blocks|);
    }
    if !fine {
      return false;
    }
    if idom.Some? && idom.value >= |g.blocks| {
      return false;
    }
    if !g.blocks[b].reachable {
      return ds == [] && idom == None && info.dominanceChildren[b] == [] && info.dominanceFrontiers[b] == [];
    }
    if b !in ds {
      return false;
    }
    for i := 0 to |ds|
      invariant forall k :: 0 <= k < i ==> ds[k] < |g.blocks| && g.blocks[ds[k]].reachable
    {
      assert ds[i] in ds;
      if !g.blocks[ds[i]].reachable {
        return false;
      }
    }
    if b == g.entryBlock {
      return idom == None;
    }
    if idom == None || idom.value !in ds || idom.value == b {
      return false;
    }
    for i := 0 to |ds|
      invariant forall k :: 0 <= k < i ==> ds[k] == b || ds[k] == idom.value || ds[k] in info.dominators[idom.value]
    {
      var candidate := ds[i];
      assert candidate in ds;
      if candidate != b && candidate != idom.value && candidate !in info.dominators[idom.value] {
        return false;
      }
    }
    ok := true;
  }

  /** Two vectors of sets with the same values are the same. */
  lemma SameSets(a: Sets, b: Sets)
    requires |a| == |b| && forall i :: 0 <= i < |a| ==>
      Sorted(a[i]) && Sorted(b[i]) && forall x: nat :: x in a[i] <==> x in b[i]
    ensures a == b
  {
    forall i | 0 <= i < |a| ensures a[i] == b[i] {
      assert Values(a[i]) == Values(b[i]);
      SortedEqual(a[i], b[i]);
    }
  }

  lemma SameChildren(idoms: seq<Option<nat>>, a: Sets, b: Sets)
    requires ChildrenExact(idoms, a) && ChildrenExact(idoms, b)
    ensures a == b
  {
    SameSets(a, b);
  }

  lemma SameFrontiers(g: Cfg, idoms: seq<Option<nat>>, a: Sets, b: Sets)
    requires |idoms| == |g.blocks| && WalkedUpTo(g, idoms, a, |g.blocks|) && WalkedUpTo(g, idoms, b, |g.blocks|)
    ensures a == b
  {
    hide Owed;
    SameSets(a, b);
  }

  /** The closing verification, with the tree and the frontiers computed once more. */
  method VerifyInfo(g: Cfg, info: DominanceInfo) returns (ok: bool)
    ensures ok <==> Accepted(g, info)
  {
    hide WellFormed, ChildrenExact, WalksUpTo, WalkedUpTo;
    ok := Verify(g);
    if !ok {
      return;
    }
    WellFormedEdges(g);
    if |info.dominators| != |g.blocks| || |info.immediateDominators| != |g.blocks|
      || |info.dominanceChildren| != |g.blocks| || |info.dominanceFrontiers| != |g.blocks|
    {
      return false;
    }
    for b := 0 to |g.blocks|
      invariant forall k :: 0 <= k < b ==> BlockAccepted(g, info, k)
    {
      ok := VerifyBlock(g, info, b);
      if !ok {
        return;
      }
    }
    AcceptedLinks(g, info);
    var children := FindChildren(info.immediateDominators);
    if children != info.dominanceChildren {
      DifferentChildren(g, info, children);
      return false;
    }
    var frontiers;
    ok, frontiers := ComputeFrontiers(g, info.immediateDominators);
    if ok && frontiers != info.dominanceFrontiers {
      DifferentFrontiers(g, info, frontiers);
    }
    ok := ok && frontiers == info.dominanceFrontiers;
  }

  lemma WellFormedEdges(g: Cfg)
    requires WellFormed(g)
    ensures EdgesOk(g)
  {
  }

  lemma AcceptedLinks(g: Cfg, info: DominanceInfo)
    requires SameSize(g, info) && forall b :: 0 <= b < |g.blocks| ==> BlockAccepted(g, info, b)
    ensures LinksInRange(info.immediateDominators)
  {
    forall b | 0 <= b < |g.blocks| && info.immediateDominators[b].Some?
      ensures info.immediateDominators[b].value < |g.blocks|
    {
      assert BlockAccepted(g, info, b);
    }
  }

  lemma DifferentChildren(g: Cfg, info: DominanceInfo, children: Sets)
    requires ChildrenExact(info.immediateDominators, children) && children != info.dominanceChildren
    ensures !Accepted(g, info)
  {
    hide WellFormed, BlockAccepted, ChildrenExact, WalksUpTo, WalkedUpTo;
    if Accepted(g, info) {
      SameChildren(info.immediateDominators, children, info.dominanceChildren);
    }
  }

  lemma DifferentFrontiers(g: Cfg, info: DominanceInfo, frontiers: Sets)
    requires |info.immediateDominators| == |g.blocks| && WalkedUpTo(g, info.immediateDominators, frontiers, |g.blocks|)
    requires frontiers != info.dominanceFrontiers
    ensures !Accepted(g, info)
  {
    hide WellFormed, BlockAccepted, ChildrenExact, WalksUpTo, WalkedUpTo;
    if Accepted(g, info) {
      SameFrontiers(g, info.immediateDominators, frontiers, info.dominanceFrontiers);
    }
  }

  /** On a well-formed graph the pass succeeds: none of its errors can occur, and its closing
      verification passes. */
  method BuildDominanceInfo(g: Cfg) returns (ok: bool, info: DominanceInfo)
    requires WellFormed(g)
    ensures ok && InfoExact(g, info)
  {
    hide WalksUpTo, WalkedUpTo, Exact, IdomsExact, ChildrenExact, FrontiersExact, Accepted, Ready;
    WellFormedReady(g);
    var reachable, doms, idoms, frontiers;
    info := DominanceInfo([], [], [], []);
    ok := Verify(g);
    if !ok {
      return;
    }
    ok, reachable, doms := FindDominators(g);
    if !ok {
      return;
    }
    ok, idoms := FindIdoms(g, reachable, doms);
    if !ok {
      return;
    }
    IdomLinks(g, idoms);
    ExactFrontiers(g, doms, idoms);
    var children := FindChildren(idoms);
    ok, frontiers := ComputeFrontiers(g, idoms);
    if !ok {
      return;
    }
    info := DominanceInfo(doms, idoms, children, frontiers);
    ExactAccepted(g, info);
    ok := VerifyInfo(g, info);
  }
}
