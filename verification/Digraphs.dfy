/** Directed graphs over names: walks, cycles and postorders.

    These are the reference definitions of the module graph algorithms.
 */
module Digraphs {

  /** The targets of every node, in order. */
  type Digraph = map<string, seq<string>>

  predicate Link(g: Digraph, a: string, b: string) {
    a in g && b in g[a]
  }

  predicate Walk(g: Digraph, p: seq<string>) {
    p != [] && forall i :: 0 <= i < |p| - 1 ==> Link(g, p[i], p[i + 1])
  }

  /** `b` can be reached from `a` in zero or more links. */
  ghost predicate Reaches(g: Digraph, a: string, b: string) {
    exists p :: Walk(g, p) && p[0] == a && p[|p| - 1] == b
  }

  ghost predicate OnCycle(g: Digraph, a: string) {
    exists p :: Walk(g, p) && |p| > 1 && p[0] == a && p[|p| - 1] == a
  }

  ghost predicate Acyclic(g: Digraph) {
    forall a :: !OnCycle(g, a)
  }

  /** Every link leads to a node of the graph. */
  ghost predicate Complete(g: Digraph) {
    forall a, b :: Link(g, a, b) ==> b in g
  }

  lemma ReachesSelf(g: Digraph, a: string)
    ensures Reaches(g, a, a)
  {
    assert Walk(g, [a]) && [a][0] == a;
  }

  lemma WalkFirst(g: Digraph, a: string, p: seq<string>)
    requires Walk(g, p) && Link(g, a, p[0])
    ensures Walk(g, [a] + p)
  {
    var q := [a] + p;
    forall i | 0 <= i < |q| - 1 ensures Link(g, q[i], q[i + 1]) {
      if i > 0 {
        assert Link(g, p[i - 1], p[i]);
      }
    }
  }

  lemma WalkLast(g: Digraph, p: seq<string>, b: string)
    requires Walk(g, p) && Link(g, p[|p| - 1], b)
    ensures Walk(g, p + [b])
  {
    var q := p + [b];
    forall i | 0 <= i < |q| - 1 ensures Link(g, q[i], q[i + 1]) {
      if i < |p| - 1 {
        assert Link(g, p[i], p[i + 1]);
      }
    }
  }

  lemma WalkTail(g: Digraph, p: seq<string>, i: nat)
    requires Walk(g, p) && i < |p|
    ensures Walk(g, p[i..])
  {
    forall k | 0 <= k < |p[i..]| - 1 ensures Link(g, p[i..][k], p[i..][k + 1]) {
      assert Link(g, p[i + k], p[i + k + 1]);
    }
  }

  lemma ReachesFirst(g: Digraph, a: string, b: string, c: string)
    requires Link(g, a, b) && Reaches(g, b, c)
    ensures Reaches(g, a, c)
  {
    var p :| Walk(g, p) && p[0] == b && p[|p| - 1] == c;
    WalkFirst(g, a, p);
    assert ([a] + p)[|p|] == c;
  }

  /** A walk of more than one node starts with a link. */
  lemma ReachesUnfold(g: Digraph, a: string, c: string) returns (b: string)
    requires Reaches(g, a, c)
    ensures a == c || (Link(g, a, b) && Reaches(g, b, c))
  {
    var p :| Walk(g, p) && p[0] == a && p[|p| - 1] == c;
    if |p| > 1 {
      b := p[1];
      WalkTail(g, p, 1);
      assert Link(g, p[0], p[1]) && p[1..][0] == b && p[1..][|p| - 2] == c;
    } else {
      b := a;
    }
  }

  /** Every listed node follows all its targets. */
  predicate Postorder(g: Digraph, order: seq<string>) {
    forall i :: 0 <= i < |order| ==> order[i] in g && forall t :: t in g[order[i]] ==> t in order[..i]
  }

  lemma PostorderMore(g: Digraph, order: seq<string>, a: string)
    requires Postorder(g, order) && a in g && forall t :: t in g[a] ==> t in order
    ensures Postorder(g, order + [a])
  {
    var more := order + [a];
    forall i | 0 <= i < |more| ensures more[i] in g && forall t :: t in g[more[i]] ==> t in more[..i] {
      assert more[..i] == order[..i];
      if i == |order| {
        assert order[..i] == order;
      }
    }
  }

  /** A walk from a listed node only visits listed nodes, each one earlier than the one before. */
  lemma {:induction false} WalkDescends(g: Digraph, order: seq<string>, p: seq<string>, i: nat)
    requires Postorder(g, order) && Walk(g, p) && i < |order| && order[i] == p[0]
    ensures forall k :: 0 < k < |p| ==> p[k] in order[..i]
    decreases |p|
  {
    if |p| > 1 {
      assert Link(g, p[0], p[1]);
      var j :| 0 <= j < i && order[..i][j] == p[1];
      WalkTail(g, p, 1);
      WalkDescends(g, order, p[1..], j);
      forall k | 0 < k < |p| ensures p[k] in order[..i] {
        if k > 1 {
          assert p[k] == p[1..][k - 1];
          assert p[k] in order[..j] && order[..j] <= order[..i];
        }
      }
    }
  }

  lemma {:induction false} FirstPlace(order: seq<string>, a: string) returns (i: nat)
    requires a in order
    ensures i < |order| && order[i] == a && a !in order[..i]
  {
    if order[0] == a {
      i := 0;
    } else {
      i := FirstPlace(order[1..], a);
      assert order[..i + 1] == [order[0]] + order[1..][..i];
      i := i + 1;
    }
  }

  lemma PostorderNoCycle(g: Digraph, order: seq<string>, a: string)
    requires Postorder(g, order) && a in order
    ensures !OnCycle(g, a)
  {
    if p :| Walk(g, p) && |p| > 1 && p[0] == a && p[|p| - 1] == a {
      var i := FirstPlace(order, a);
      WalkDescends(g, order, p, i);
      assert false;
    }
  }

  lemma CycleInside(g: Digraph, a: string)
    requires OnCycle(g, a)
    ensures a in g
  {
    var p :| Walk(g, p) && |p| > 1 && p[0] == a && p[|p| - 1] == a;
    assert Link(g, p[0], p[1]);
  }

  /** A postorder of every node witnesses that no link is dangling and no cycle exists. */
  lemma PostorderComplete(g: Digraph, order: seq<string>)
    requires Postorder(g, order) && forall a :: a in g ==> a in order
    ensures Complete(g) && Acyclic(g)
  {
    forall a, b | Link(g, a, b) ensures b in g {
      var i :| 0 <= i < |order| && order[i] == a;
      var j :| 0 <= j < i && order[..i][j] == b;
      assert order[j] in g;
    }
    forall a ensures !OnCycle(g, a) {
      if OnCycle(g, a) {
        CycleInside(g, a);
        PostorderNoCycle(g, order, a);
      }
    }
  }

  /** Coming back to a node of the walk that led here closes a cycle. */
  lemma ClosesCycle(g: Digraph, stack: seq<string>, a: string)
    requires Walk(g, stack) && Link(g, stack[|stack| - 1], a) && a in stack
    ensures OnCycle(g, a)
  {
    var i :| 0 <= i < |stack| && stack[i] == a;
    WalkTail(g, stack, i);
    WalkLast(g, stack[i..], a);
    var p := stack[i..] + [a];
    assert p[0] == a && p[|p| - 1] == a && |p| > 1;
  }
}
