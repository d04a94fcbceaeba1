/** Directed graphs, paths from an entry, reachability and dominance.

    These are the reference definitions that the graph algorithms are proved against.
 */
module Graphs {

  datatype Graph = Graph(entry: nat, successors: seq<seq<nat>>)

  predicate Closed(g: Graph) {
    && g.entry < |g.successors|
    && forall b, s :: 0 <= b < |g.successors| && s in g.successors[b] ==> s < |g.successors|
  }

  predicate Edge(g: Graph, a: nat, b: nat) {
    a < |g.successors| && b in g.successors[a]
  }

  predicate IsPath(g: Graph, p: seq<nat>) {
    && p != []
    && (forall i :: 0 <= i < |p| ==> p[i] < |g.successors|)
    && forall i :: 0 <= i < |p| - 1 ==> Edge(g, p[i], p[i + 1])
  }

  /** A path from the entry to `b`. */
  predicate PathTo(g: Graph, p: seq<nat>, b: nat) {
    IsPath(g, p) && p[0] == g.entry && p[|p| - 1] == b
  }

  ghost predicate Reachable(g: Graph, b: nat) {
    exists p :: PathTo(g, p, b)
  }

  /** `d` lies on every path from the entry to `b`. */
  ghost predicate Dominates(g: Graph, d: nat, b: nat) {
    forall p :: PathTo(g, p, b) ==> d in p
  }

  ghost predicate StrictlyDominates(g: Graph, d: nat, b: nat) {
    d != b && Dominates(g, d, b)
  }

  lemma EntryReachable(g: Graph)
    requires Closed(g)
    ensures Reachable(g, g.entry)
  {
    assert PathTo(g, [g.entry], g.entry);
  }

  lemma PathStep(g: Graph, p: seq<nat>, a: nat, b: nat)
    requires Closed(g) && PathTo(g, p, a) && Edge(g, a, b)
    ensures PathTo(g, p + [b], b)
  {
    var q := p + [b];
    forall i | 0 <= i < |q| - 1 ensures Edge(g, q[i], q[i + 1]) {
      if i < |p| - 1 {
        assert Edge(g, p[i], p[i + 1]);
      }
    }
  }

  lemma ReachableStep(g: Graph, a: nat, b: nat)
    requires Closed(g) && Reachable(g, a) && Edge(g, a, b)
    ensures Reachable(g, b)
  {
    var p :| PathTo(g, p, a);
    PathStep(g, p, a, b);
  }

  lemma PathPrefix(g: Graph, p: seq<nat>, b: nat, i: nat)
    requires PathTo(g, p, b) && i < |p|
    ensures PathTo(g, p[..i + 1], p[i])
  {
    var q := p[..i + 1];
    forall k | 0 <= k < |q| - 1 ensures Edge(g, q[k], q[k + 1]) {
      assert Edge(g, p[k], p[k + 1]);
    }
  }

  /** A path to `p[i]` continued along the rest of `p`. */
  lemma PathSplice(g: Graph, q: seq<nat>, p: seq<nat>, b: nat, i: nat)
    requires PathTo(g, p, b) && i < |p| && PathTo(g, q, p[i])
    ensures PathTo(g, q + p[i + 1..], b)
  {
    var r := q + p[i + 1..];
    forall k | 0 <= k < |r| - 1 ensures Edge(g, r[k], r[k + 1]) {
      if k < |q| - 1 {
        assert Edge(g, q[k], q[k + 1]);
      } else {
        assert r[k] == p[i + 1 + k - |q|];
        assert r[k + 1] == p[i + 2 + k - |q|];
        assert Edge(g, p[i + 1 + k - |q|], p[i + 2 + k - |q|]);
      }
    }
    forall k | 0 <= k < |r| ensures r[k] < |g.successors| {
      if k >= |q| {
        assert r[k] == p[i + 1 + k - |q|];
      }
    }
  }

  /** A node of a path is reachable, and so is every node that dominates a reachable one. */
  lemma DominatorReachable(g: Graph, d: nat, b: nat)
    requires Reachable(g, b) && Dominates(g, d, b)
    ensures Reachable(g, d) && d < |g.successors|
  {
    var p :| PathTo(g, p, b);
    var i :| 0 <= i < |p| && p[i] == d;
    PathPrefix(g, p, b, i);
  }

  lemma {:induction false} FirstIndex(p: seq<nat>, x: nat) returns (i: nat)
    requires x in p
    ensures i < |p| && p[i] == x && x !in p[..i]
  {
    if p[0] == x {
      i := 0;
    } else {
      i := FirstIndex(p[1..], x);
      assert p[..i + 1] == [p[0]] + p[1..][..i];
      i := i + 1;
    }
  }

  /** A reachable node is reached by a path that meets it only at its end. */
  lemma FirstArrival(g: Graph, b: nat) returns (p: seq<nat>)
    requires Reachable(g, b)
    ensures PathTo(g, p, b) && b !in p[..|p| - 1]
  {
    var q :| PathTo(g, q, b);
    assert q[|q| - 1] in q;
    var i := FirstIndex(q, b);
    PathPrefix(g, q, b, i);
    p := q[..i + 1];
    assert p[..|p| - 1] == q[..i];
  }

  lemma DominatesSelf(g: Graph, b: nat)
    ensures Dominates(g, b, b)
  {
    forall p | PathTo(g, p, b) ensures b in p {
      assert p[|p| - 1] == b;
    }
  }

  lemma EntryDominates(g: Graph, b: nat)
    ensures Dominates(g, g.entry, b)
  {
    forall p | PathTo(g, p, b) ensures g.entry in p {
      assert p[0] == g.entry;
    }
  }

  lemma OnlyEntryDominatesEntry(g: Graph, d: nat)
    requires Closed(g) && Dominates(g, d, g.entry)
    ensures d == g.entry
  {
    assert PathTo(g, [g.entry], g.entry);
    assert d in [g.entry];
  }

  lemma DominatesTransitive(g: Graph, a: nat, b: nat, c: nat)
    requires Dominates(g, a, b) && Dominates(g, b, c)
    ensures Dominates(g, a, c)
  {
    forall p | PathTo(g, p, c) ensures a in p {
      var i :| 0 <= i < |p| && p[i] == b;
      PathPrefix(g, p, c, i);
      assert a in p[..i + 1];
    }
  }

  lemma DominatesAntisymmetric(g: Graph, a: nat, b: nat)
    requires Reachable(g, a) && Dominates(g, a, b) && Dominates(g, b, a)
    ensures a == b
  {
    if a != b {
      var p := FirstArrival(g, a);
      var i :| 0 <= i < |p| && p[i] == b;
      PathPrefix(g, p, a, i);
    }
  }

  /** The last position of `a` or `b` on a path that has one of them. */
  lemma {:induction false} LastOfEither(p: seq<nat>, a: nat, b: nat) returns (i: nat)
    requires a in p
    ensures i < |p| && (p[i] == a || p[i] == b) && a !in p[i + 1..] && b !in p[i + 1..]
  {
    var last := |p| - 1;
    if p[last] == a || p[last] == b {
      i := last;
    } else {
      var q := p[..last];
      assert a in q;
      i := LastOfEither(q, a, b);
      assert p[i + 1..] == q[i + 1..] + [p[last]];
    }
  }

  /** The dominators of a reachable node form a chain. */
  lemma DominatorsChain(g: Graph, a: nat, b: nat, c: nat)
    requires Reachable(g, c) && Dominates(g, a, c) && Dominates(g, b, c)
    ensures Dominates(g, a, b) || Dominates(g, b, a)
  {
    if !Dominates(g, a, b) && !Dominates(g, b, a) {
      var pb :| PathTo(g, pb, b) && a !in pb;
      var pa :| PathTo(g, pa, a) && b !in pa;
      var p :| PathTo(g, p, c);
      var i := LastOfEither(p, a, b);
      if p[i] == a {
        PathSplice(g, pa, p, c, i);
      } else {
        PathSplice(g, pb, p, c, i);
      }
    }
  }

  /** Dominance through the last step: a node other than `b` dominates `b` exactly when it
      dominates every reachable predecessor. */
  lemma DominatesByPredecessors(g: Graph, d: nat, b: nat)
    requires Closed(g) && b != g.entry
    ensures Dominates(g, d, b) <==> d == b || forall p :: Edge(g, p, b) && Reachable(g, p) ==> Dominates(g, d, p)
  {
    if Dominates(g, d, b) && d != b {
      forall p | Edge(g, p, b) && Reachable(g, p) ensures Dominates(g, d, p) {
        forall q | PathTo(g, q, p) ensures d in q {
          PathStep(g, q, p, b);
          assert d in q + [b];
        }
      }
    }
    if d == b {
      DominatesSelf(g, b);
    } else if forall p :: Edge(g, p, b) && Reachable(g, p) ==> Dominates(g, d, p) {
      forall q | PathTo(g, q, b) ensures d in q {
        var a := q[|q| - 2];
        PathPrefix(g, q, b, |q| - 2);
        assert Edge(g, q[|q| - 2], q[|q| - 2 + 1]);
        assert d in q[..|q| - 1];
      }
    }
  }

  /** A reachable node other than the entry has a reachable predecessor. */
  lemma HasPredecessor(g: Graph, b: nat) returns (a: nat)
    requires Reachable(g, b) && b != g.entry
    ensures Edge(g, a, b) && Reachable(g, a)
  {
    var p :| PathTo(g, p, b);
    a := p[|p| - 2];
    PathPrefix(g, p, b, |p| - 2);
    assert Edge(g, p[|p| - 2], p[|p| - 2 + 1]);
  }

  /** A set that holds the entry and every successor of its members holds every reachable node. */
  lemma {:induction false} ClosureCovers(g: Graph, s: set<nat>, p: seq<nat>, b: nat)
    requires g.entry in s && PathTo(g, p, b)
    requires forall a, c :: a in s && Edge(g, a, c) ==> c in s
    ensures b in s
    decreases |p|
  {
    if |p| > 1 {
      PathPrefix(g, p, b, |p| - 2);
      ClosureCovers(g, s, p[..|p| - 1], p[|p| - 2]);
      assert Edge(g, p[|p| - 2], p[|p| - 2 + 1]);
    }
  }
}
