/** What the closing verification of dominance information establishes.

    Accepted links form a tree whose ancestors really dominate, for any graph.  The listed dominators
    are sound exactly when nothing but the entry is listed for the entry, which is not checked, and
    complete information is not enforced either: for both gaps an accepted example is given.
 */
module DominanceVerification {
  import opened Wrappers
  import opened Graphs
  import opened ControlFlowGraph
  import opened SortedVectors
  import opened Dominance

  lemma AcceptedBlock(g: Cfg, info: DominanceInfo, b: nat)
    requires Accepted(g, info) && b < |g.blocks|
    ensures SameSize(g, info) && BlockAccepted(g, info, b) && LinksInRange(info.immediateDominators)
  {
    hide WellFormed, WalksUpTo, WalkedUpTo, ChildrenExact, BlockAccepted;
    AcceptedLinks(g, info);
  }

  lemma AcceptedGraph(g: Cfg, info: DominanceInfo)
    requires Accepted(g, info)
    ensures Ready(g) && Closed(GraphOf(g))
  {
    hide WellFormed, BlockAccepted, WalksUpTo, WalkedUpTo, ChildrenExact;
    WellFormedReady(g);
  }

  /** The immediate dominator of a block is an ancestor of each of its reachable predecessors. */
  lemma StopOnChain(g: Cfg, info: DominanceInfo, y: nat, p: nat) returns (k: nat)
    requires Accepted(g, info) && y < |g.blocks| && p < |g.blocks| && g.blocks[y].reachable && g.blocks[p].reachable
    requires p in g.blocks[y].predecessors && SameSize(g, info) && info.immediateDominators[y].Some?
    ensures Ancestor(info.immediateDominators, p, k) == info.immediateDominators[y]
  {
    hide WellFormed, BlockAccepted, WalkedUpTo, ChildrenExact;
    var idoms, ps := info.immediateDominators, g.blocks[y].predecessors;
    var i :| 0 <= i < |ps| && ps[i] == p;
    assert WalksOf(g, idoms, y, |ps|);
    assert WalkFine(idoms, p, idoms[y], |idoms|);
    k :| k <= |idoms| && WalkEnds(idoms, p, idoms[y], k);
  }

  /** The last step of a path to a block with an immediate dominator. */
  lemma LastStep(g: Cfg, info: DominanceInfo, path: seq<nat>, b: nat) returns (p: nat, k: nat)
    requires Accepted(g, info) && SameSize(g, info) && b < |g.blocks| && b != g.entryBlock && g.blocks[b].reachable
    requires PathTo(GraphOf(g), path, b) && info.immediateDominators[b].Some?
    ensures |path| > 1 && p < |g.blocks| && g.blocks[p].reachable && PathTo(GraphOf(g), path[..|path| - 1], p)
    ensures Ancestor(info.immediateDominators, p, k) == info.immediateDominators[b]
  {
    hide Accepted, Ready, Closed;
    AcceptedGraph(g, info);
    var gg, before := GraphOf(g), |path| - 2;
    p := path[before];
    PathPrefix(gg, path, b, before);
    assert Edge(gg, path[before], path[before + 1]);
    PredecessorsAreEdges(g, b, p);
    FlagsExact(g, p);
    k := StopOnChain(g, info, b, p);
  }

  lemma ReachableLink(g: Cfg, info: DominanceInfo, b: nat)
    requires Accepted(g, info) && b < |g.blocks| && g.blocks[b].reachable
    ensures SameSize(g, info) && (info.immediateDominators[b].Some? <==> b != g.entryBlock)
    ensures
      info.immediateDominators[b].Some? ==>
        var up := info.immediateDominators[b].value;
        up < |g.blocks| && g.blocks[up].reachable && up != b
  {
    AcceptedBlock(g, info, b);
  }

  /** Accepted links are sound: what a chain of links leads to lies on every path. */
  lemma {:induction false} AncestorsOnPath(g: Cfg, info: DominanceInfo, path: seq<nat>, b: nat, k: nat, d: nat)
    requires Accepted(g, info) && b < |g.blocks| && g.blocks[b].reachable && PathTo(GraphOf(g), path, b)
    requires Ancestor(info.immediateDominators, b, k) == Some(d)
    ensures d in path
    decreases |path|
  {
    hide Accepted;
    var idoms := info.immediateDominators;
    ReachableLink(g, info, b);
    if k == 0 {
      assert path[|path| - 1] == b;
    } else {
      var p, m := LastStep(g, info, path, b);
      AncestorAdd(idoms, p, m, k - 1);
      AncestorsOnPath(g, info, path[..|path| - 1], p, m + (k - 1), d);
    }
  }

  /** The chain of a reachable block ends. */
  lemma {:induction false} ChainEnds(g: Cfg, info: DominanceInfo, path: seq<nat>, b: nat) returns (depth: nat)
    requires Accepted(g, info) && b < |g.blocks| && g.blocks[b].reachable && PathTo(GraphOf(g), path, b)
    ensures Ancestor(info.immediateDominators, b, depth) == None
    decreases |path|
  {
    hide Accepted;
    var idoms := info.immediateDominators;
    ReachableLink(g, info, b);
    if idoms[b].None? {
      depth := 1;
    } else {
      var p, m := LastStep(g, info, path, b);
      var inner := ChainEnds(g, info, path[..|path| - 1], p);
      AncestorEnds(idoms, p, inner, m + inner);
      AncestorAdd(idoms, p, m, inner);
      depth := inner + 1;
    }
  }

  /** A listed dominator is on the chain or listed for the entry. */
  lemma {:induction false} ListedOnChain(g: Cfg, info: DominanceInfo, b: nat, d: nat, depth: nat) returns (k: nat)
    requires Accepted(g, info) && b < |g.blocks| && g.blocks[b].reachable && SameSize(g, info)
    requires d in info.dominators[b] && Ancestor(info.immediateDominators, b, depth) == None
    ensures Ancestor(info.immediateDominators, b, k) == Some(d) || d in info.dominators[g.entryBlock]
    decreases depth
  {
    hide Accepted;
    var idoms := info.immediateDominators;
    ReachableLink(g, info, b);
    AcceptedBlock(g, info, b);
    k := 0;
    if d != b && b != g.entryBlock {
      var up := idoms[b].value;
      AcceptedBlock(g, info, up);
      k := ListedOnChain(g, info, up, d, depth - 1);
      k := k + 1;
    }
  }

  /** The recorded immediate dominator of a block strictly dominates it. */
  lemma LinkDominates(g: Cfg, info: DominanceInfo, b: nat)
    requires Accepted(g, info) && b < |g.blocks| && g.blocks[b].reachable && b != g.entryBlock
    ensures SameSize(g, info) && info.immediateDominators[b].Some?
    ensures StrictlyDominates(GraphOf(g), info.immediateDominators[b].value, b)
  {
    hide Accepted;
    ReachableLink(g, info, b);
    var up := info.immediateDominators[b].value;
    forall path | PathTo(GraphOf(g), path, b) ensures up in path {
      assert Ancestor(info.immediateDominators, b, 1) == Ancestor(info.immediateDominators, up, 0);
      AncestorsOnPath(g, info, path, b, 1, up);
    }
  }

  /** Only true dominators are listed. */
  ghost predicate Sound(g: Cfg, doms: Sets)
    requires |doms| == |g.blocks|
  {
    forall b, d: nat :: 0 <= b < |g.blocks| && g.blocks[b].reachable && d in doms[b] ==> Dominates(GraphOf(g), d, b)
  }

  lemma EntryFacts(g: Cfg, info: DominanceInfo)
    requires Accepted(g, info)
    ensures g.entryBlock < |g.blocks| && g.blocks[g.entryBlock].reachable && SameSize(g, info)
  {
    hide Accepted;
    AcceptedGraph(g, info);
    EntryReachable(GraphOf(g));
    AcceptedBlock(g, info, g.entryBlock);
  }

  /** Accepted information lists only true dominators exactly when it lists nothing but the entry
      for the entry. */
  lemma SoundExactly(g: Cfg, info: DominanceInfo)
    requires Accepted(g, info)
    ensures SameSize(g, info) && g.entryBlock < |g.blocks|
    ensures Sound(g, info.dominators) <==> info.dominators[g.entryBlock] == [g.entryBlock]
  {
    hide Accepted, Ready;
    EntryFacts(g, info);
    AcceptedGraph(g, info);
    var e := g.entryBlock;
    AcceptedBlock(g, info, e);
    if Sound(g, info.dominators) {
      forall d | d in info.dominators[e] ensures d == e {
        OnlyEntryDominatesEntry(GraphOf(g), d);
      }
      assert Values(info.dominators[e]) == Values([e]);
      SortedEqual(info.dominators[e], [e]);
    }
    if info.dominators[e] == [e] {
      forall b, d: nat | 0 <= b < |g.blocks| && g.blocks[b].reachable && d in info.dominators[b]
        ensures Dominates(GraphOf(g), d, b)
      {
        ListedDominates(g, info, b, d);
      }
    }
  }

  lemma ListedDominates(g: Cfg, info: DominanceInfo, b: nat, d: nat)
    requires Accepted(g, info) && b < |g.blocks| && g.blocks[b].reachable && SameSize(g, info) && d in info.dominators[b]
    requires g.entryBlock < |g.blocks| && info.dominators[g.entryBlock] == [g.entryBlock]
    ensures Dominates(GraphOf(g), d, b)
  {
    hide Accepted;
    AcceptedGraph(g, info);
    FlagsExact(g, b);
    var any :| PathTo(GraphOf(g), any, b);
    var depth := ChainEnds(g, info, any, b);
    var k := ListedOnChain(g, info, b, d, depth);
    if Ancestor(info.immediateDominators, b, k) == Some(d) {
      forall path | PathTo(GraphOf(g), path, b) ensures d in path {
        AncestorsOnPath(g, info, path, b, k, d);
      }
    } else {
      EntryDominates(GraphOf(g), b);
    }
  }

  lemma AcceptedShaped(g: Cfg, info: DominanceInfo)
    requires Accepted(g, info)
    ensures Shaped(g, info.dominators)
  {
    hide Accepted, Sorted;
    EntryFacts(g, info);
    forall b | 0 <= b < |g.blocks|
      ensures Sorted(info.dominators[b]) && (!g.blocks[b].reachable ==> info.dominators[b] == [])
      ensures forall d :: d in info.dominators[b] ==> d < |g.blocks| && g.blocks[d].reachable
    {
      AcceptedBlock(g, info, b);
    }
  }

  /** With exact dominator sets an accepted immediate dominator is the closest one. */
  lemma LinksExact(g: Cfg, info: DominanceInfo)
    requires Accepted(g, info) && Exact(g, info.dominators)
    ensures IdomsExact(g, info.immediateDominators)
  {
    hide Accepted, Exact, Dominates;
    EntryFacts(g, info);
    var idoms := info.immediateDominators;
    forall b | 0 <= b < |idoms|
      ensures
        if g.blocks[b].reachable && b != g.entryBlock then
          idoms[b].Some? && idoms[b].value < |g.blocks| && ImmediatelyDominates(GraphOf(g), idoms[b].value, b)
        else idoms[b] == None
    {
      AcceptedBlock(g, info, b);
      if g.blocks[b].reachable && b != g.entryBlock {
        LinkExact(g, info, b);
      }
    }
  }

  lemma LinkExact(g: Cfg, info: DominanceInfo, b: nat)
    requires Accepted(g, info) && Exact(g, info.dominators) && b < |g.blocks| && g.blocks[b].reachable && b != g.entryBlock
    ensures SameSize(g, info) && info.immediateDominators[b].Some? && info.immediateDominators[b].value < |g.blocks|
    ensures ImmediatelyDominates(GraphOf(g), info.immediateDominators[b].value, b)
  {
    hide Accepted, Exact, Dominates;
    ReachableLink(g, info, b);
    LinkDominates(g, info, b);
    AcceptedBlock(g, info, b);
    var up := info.immediateDominators[b].value;
    AcceptedBlock(g, info, up);
    forall o: nat | StrictlyDominates(GraphOf(g), o, b) ensures Dominates(GraphOf(g), o, up) {
      ListedIsDominator(g, info.dominators, b, o);
      ListedIsDominator(g, info.dominators, up, o);
    }
  }

  /** Accepted information is exact exactly when nothing is missing from the dominator sets and the
      entry is listed alone for the entry. */
  lemma ExactExactly(g: Cfg, info: DominanceInfo)
    requires WellFormed(g) && SameSize(g, info) && g.entryBlock < |g.blocks|
    ensures InfoExact(g, info)
        <==> Accepted(g, info) && info.dominators[g.entryBlock] == [g.entryBlock] && Dominance.Covers(g, info.dominators)
  {
    hide WellFormed, Accepted, IdomsExact, ChildrenExact, FrontiersExact, Dominates;
    if InfoExact(g, info) {
      ExactAccepted(g, info);
      EntryFacts(g, info);
      WellFormedReady(g);
      EntryOnlySelf(g, info.dominators);
    }
    if Accepted(g, info) && info.dominators[g.entryBlock] == [g.entryBlock] && Dominance.Covers(g, info.dominators) {
      AcceptedShaped(g, info);
      SoundExactly(g, info);
      assert Exact(g, info.dominators);
      RestExact(g, info);
    }
  }

  lemma RestExact(g: Cfg, info: DominanceInfo)
    requires Accepted(g, info) && Exact(g, info.dominators)
    ensures InfoExact(g, info)
  {
    hide WellFormed, BlockAccepted, IdomsExact, ChildrenExact, FrontiersExact, WalksUpTo, WalkedUpTo, Exact, Ready, Closed;
    AcceptedGraph(g, info);
    LinksExact(g, info);
    ExactFrontiers(g, info.dominators, info.immediateDominators);
  }

  // ------------------------------------------------------- what is accepted although wrong

  /** Two blocks in a row and the exit. */
  const CHAIN: Cfg := Cfg(2, 0, 2,
    [Block(0, 0, 1, false, true, [], [1]), Block(1, 1, 2, false, true, [0], [2]), Block(2, 2, 2, true, true, [1], [])],
    [0, 1], [])

  lemma ChainReachable()
    ensures ReachableOk(CHAIN)
  {
    var gg := GraphOf(CHAIN);
    assert PathTo(gg, [0], 0);
    assert PathTo(gg, [0, 1], 1);
    assert PathTo(gg, [0, 1, 2], 2);
  }

  lemma ChainEdges()
    ensures EdgesOk(CHAIN)
  {
    assert 0 in CHAIN.blocks[1].predecessors && 1 in CHAIN.blocks[2].predecessors;
    assert 1 in CHAIN.blocks[0].successors && 2 in CHAIN.blocks[1].successors;
    assert BlockEdgesOk(CHAIN, 0) && BlockEdgesOk(CHAIN, 1) && BlockEdgesOk(CHAIN, 2);
  }

  lemma ChainRanges()
    ensures ExitOk(CHAIN) && RangesOk(CHAIN) && MapOk(CHAIN)
  {
    assert NextStart(CHAIN.blocks, 1) == 1 && NextStart(CHAIN.blocks, 2) == 2;
  }

  lemma ChainWellFormed()
    ensures WellFormed(CHAIN)
  {
    hide ReachableOk, EdgesOk, RangesOk, MapOk;
    ChainReachable();
    ChainEdges();
    ChainRanges();
  }

  /** The walk from a block to itself passes nothing. */
  lemma NothingPassed(idoms: seq<Option<nat>>, p: nat)
    ensures WalkFine(idoms, p, Some(p), |idoms|) && forall b: nat :: !Passes(idoms, p, Some(p), b)
  {
    assert WalkEnds(idoms, p, Some(p), 0);
    forall b: nat ensures !Passes(idoms, p, Some(p), b) {
      PassesAtStop(idoms, p, p, 0, b);
    }
  }

  /** The walk over one link passes its start only. */
  lemma StartPassed(idoms: seq<Option<nat>>, p: nat, up: nat)
    requires p < |idoms| && idoms[p] == Some(up) && up != p
    ensures WalkFine(idoms, p, Some(up), |idoms|) && forall b: nat :: Passes(idoms, p, Some(up), b) <==> b == p
  {
    assert Ancestor(idoms, p, 0) == Some(p);
    assert Ancestor(idoms, p, 1) == Ancestor(idoms, up, 0);
    assert WalkEnds(idoms, p, Some(up), 1);
    forall b: nat ensures Passes(idoms, p, Some(up), b) <==> b == p {
      PassesAtStop(idoms, p, up, 1, b);
    }
  }

  /** What the walks give on the chain. */
  lemma ChainWalks(idoms: seq<Option<nat>>, frontiers: Sets)
    requires |idoms| == 3 && idoms[1] == Some(0) && |frontiers| == 3
    requires (idoms[2] == Some(1) && frontiers == [[], [], []]) || (idoms[2] == Some(0) && frontiers == [[], [2], []])
    ensures WalksUpTo(CHAIN, idoms, 3) && WalkedUpTo(CHAIN, idoms, frontiers, 3)
  {
    hide Passes, WalkFine;
    NothingPassed(idoms, 0);
    if idoms[2] == Some(1) {
      NothingPassed(idoms, 1);
    } else {
      StartPassed(idoms, 1, 0);
    }
    var blocks := CHAIN.blocks;
    forall n: nat
      ensures !Owed(CHAIN, idoms, n, 0, 0) && !Owed(CHAIN, idoms, n, 1, 1)
      ensures Owed(CHAIN, idoms, n, 2, 1) <==> idoms[2] == Some(0) && n == 1
    {
      assert blocks[2].predecessors[0] == 1 && blocks[1].predecessors[0] == 0;
    }
    assert WalksOf(CHAIN, idoms, 0, 0) && WalksOf(CHAIN, idoms, 1, 1) && WalksOf(CHAIN, idoms, 2, 1);
  }

  /** Block 1 is listed as a dominator of the entry. */
  const FORGED: DominanceInfo := DominanceInfo(
    [[0, 1], [0, 1], [0, 1, 2]], [None, Some(0), Some(1)], [[1], [2], []], [[], [], []])

  lemma ForgedSets()
    ensures SameSize(CHAIN, FORGED) && SetsFine(CHAIN, FORGED, 0) && SetsFine(CHAIN, FORGED, 1) && SetsFine(CHAIN, FORGED, 2)
  {
  }

  lemma ForgedIdoms()
    ensures IdomFits(CHAIN, FORGED, 0) && IdomFits(CHAIN, FORGED, 1) && IdomFits(CHAIN, FORGED, 2)
  {
  }

  lemma ForgedTree()
    ensures ChildrenExact(FORGED.immediateDominators, FORGED.dominanceChildren)
  {
  }

  lemma ForgedBlocks()
    ensures SameSize(CHAIN, FORGED) && ChildrenExact(FORGED.immediateDominators, FORGED.dominanceChildren)
    ensures forall b :: 0 <= b < |CHAIN.blocks| ==> BlockAccepted(CHAIN, FORGED, b)
  {
    hide SetsFine, IdomFits, ChildrenExact;
    ForgedSets();
    ForgedIdoms();
    ForgedTree();
    assert BlockAccepted(CHAIN, FORGED, 0) && BlockAccepted(CHAIN, FORGED, 1) && BlockAccepted(CHAIN, FORGED, 2);
  }

  lemma EntryUnchecked()
    ensures Accepted(CHAIN, FORGED) && !Sound(CHAIN, FORGED.dominators)
  {
    hide WellFormed, WalksUpTo, WalkedUpTo, Sound, BlockAccepted, ChildrenExact;
    ChainWellFormed();
    ChainWalks(FORGED.immediateDominators, FORGED.dominanceFrontiers);
    ForgedBlocks();
    assert Accepted(CHAIN, FORGED);
    SoundExactly(CHAIN, FORGED);
    assert |FORGED.dominators[0]| == 2;
  }

  /** Block 1 is missing from the dominators of the exit, whose link skips it. */
  const PARTIAL: DominanceInfo := DominanceInfo(
    [[0], [0, 1], [0, 2]], [None, Some(0), Some(0)], [[1, 2], [], []], [[], [2], []])

  lemma PartialSets()
    ensures SameSize(CHAIN, PARTIAL) && SetsFine(CHAIN, PARTIAL, 0) && SetsFine(CHAIN, PARTIAL, 1) && SetsFine(CHAIN, PARTIAL, 2)
  {
  }

  lemma PartialIdoms()
    ensures IdomFits(CHAIN, PARTIAL, 0) && IdomFits(CHAIN, PARTIAL, 1) && IdomFits(CHAIN, PARTIAL, 2)
  {
  }

  lemma PartialTree()
    ensures ChildrenExact(PARTIAL.immediateDominators, PARTIAL.dominanceChildren)
  {
  }

  lemma PartialBlocks()
    ensures SameSize(CHAIN, PARTIAL) && ChildrenExact(PARTIAL.immediateDominators, PARTIAL.dominanceChildren)
    ensures forall b :: 0 <= b < |CHAIN.blocks| ==> BlockAccepted(CHAIN, PARTIAL, b)
  {
    hide SetsFine, IdomFits, ChildrenExact;
    PartialSets();
    PartialIdoms();
    PartialTree();
    assert BlockAccepted(CHAIN, PARTIAL, 0) && BlockAccepted(CHAIN, PARTIAL, 1) && BlockAccepted(CHAIN, PARTIAL, 2);
  }

  lemma GapsUnchecked()
    ensures Accepted(CHAIN, PARTIAL) && Sound(CHAIN, PARTIAL.dominators) && !InfoExact(CHAIN, PARTIAL)
  {
    hide WellFormed, WalksUpTo, WalkedUpTo, Sound, BlockAccepted, ChildrenExact, Dominates;
    ChainWellFormed();
    ChainWalks(PARTIAL.immediateDominators, PARTIAL.dominanceFrontiers);
    PartialBlocks();
    assert Accepted(CHAIN, PARTIAL);
    SoundExactly(CHAIN, PARTIAL);
    OneDominatesTwo();
    assert 1 !in PARTIAL.dominators[2];
  }

  lemma OneDominatesTwo()
    ensures Dominates(GraphOf(CHAIN), 1, 2)
  {
    var gg := GraphOf(CHAIN);
    forall p | PathTo(gg, p, 2) ensures 1 in p {
      assert |p| > 1;
      assert Edge(gg, p[|p| - 2], p[|p| - 2 + 1]);
      assert p[|p| - 2] == 1;
    }
  }
}
