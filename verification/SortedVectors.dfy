/** Sets kept as strictly ascending vectors, the way the dominance pass stores them. */
module SortedVectors {

  predicate Sorted(s: seq<nat>) {
    forall i, j :: 0 <= i < j < |s| ==> s[i] < s[j]
  }

  lemma ConsSorted(x: nat, rest: seq<nat>)
    requires Sorted(rest) && forall y :: y in rest ==> x < y
    ensures Sorted([x] + rest)
  {
    var s := [x] + rest;
    forall i, j | 0 <= i < j < |s| ensures s[i] < s[j] {
      assert s[j] == rest[j - 1] && rest[j - 1] in rest;
    }
  }

  lemma HeadAndTail(s: seq<nat>)
    requires Sorted(s) && s != []
    ensures Sorted(s[1..]) && (forall y :: y in s[1..] ==> s[0] < y) && forall y :: y in s <==> y == s[0] || y in s[1..]
  {
    assert s == [s[0]] + s[1..];
  }

  lemma SnocSorted(s: seq<nat>, x: nat)
    requires Sorted(s) && forall y :: y in s ==> y < x
    ensures Sorted(s + [x])
  {
    var r := s + [x];
    forall i, j | 0 <= i < j < |r| ensures r[i] < r[j] {
      assert r[i] == s[i] && s[i] in s;
    }
  }

  /** Insert a value at its place unless it is there already. */
  function Insert(s: seq<nat>, x: nat): (r: seq<nat>)
    requires Sorted(s)
    ensures Sorted(r) && forall y :: y in r <==> y in s || y == x
  {
    if s == [] then [x]
    else
      HeadAndTail(s);
      if x < s[0] then
        ConsSorted(x, s);
        [x] + s
      else if s[0] == x then s
      else
        var rest := Insert(s[1..], x);
        ConsSorted(s[0], rest);
        [s[0]] + rest
  }

  /** Sort and drop duplicates. */
  function SortUnique(s: seq<nat>): (r: seq<nat>)
    ensures Sorted(r) && forall y :: y in r <==> y in s
  {
    if s == [] then []
    else
      assert s == [s[0]] + s[1..];
      Insert(SortUnique(s[1..]), s[0])
  }

  /** The common values of two ascending vectors. */
  function Intersect(a: seq<nat>, b: seq<nat>): (r: seq<nat>)
    requires Sorted(a) && Sorted(b)
    ensures Sorted(r) && forall y :: y in r <==> y in a && y in b
    decreases |a| + |b|
  {
    if a == [] || b == [] then []
    else
      HeadAndTail(a);
      HeadAndTail(b);
      if a[0] < b[0] then Intersect(a[1..], b)
      else if b[0] < a[0] then Intersect(a, b[1..])
      else
        var rest := Intersect(a[1..], b[1..]);
        ConsSorted(a[0], rest);
        [a[0]] + rest
  }

  function Without(s: seq<nat>, x: nat): (r: seq<nat>)
    requires Sorted(s)
    ensures Sorted(r) && forall y :: y in r <==> y in s && y != x
  {
    if s == [] then []
    else
      HeadAndTail(s);
      var rest := Without(s[1..], x);
      ConsSorted(s[0], rest);
      if s[0] == x then rest else [s[0]] + rest
  }

  function Values(s: seq<nat>): set<nat> {
    set y | y in s
  }

  lemma {:induction false} ValuesCount(s: seq<nat>)
    requires Sorted(s)
    ensures |Values(s)| == |s|
  {
    if s != [] {
      HeadAndTail(s);
      ValuesCount(s[1..]);
      assert Values(s) == Values(s[1..]) + {s[0]};
    }
  }

  lemma SubsetCount<T>(a: set<T>, b: set<T>)
    requires a <= b
    ensures |a| <= |b| && (|a| == |b| ==> a == b)
  {
    assert b == a + (b - a);
    assert |b| == |a| + |b - a|;
  }

  /** An ascending vector is determined by its values. */
  lemma {:induction false} SortedEqual(a: seq<nat>, b: seq<nat>)
    requires Sorted(a) && Sorted(b) && Values(a) == Values(b)
    ensures a == b
    decreases |a|
  {
    ValuesCount(a);
    ValuesCount(b);
    if a != [] {
      HeadAndTail(a);
      HeadAndTail(b);
      assert a[0] in Values(a) && b[0] in Values(b);
      assert Values(a[1..]) == Values(a) - {a[0]};
      assert Values(b[1..]) == Values(b) - {b[0]};
      SortedEqual(a[1..], b[1..]);
      assert a == [a[0]] + a[1..] && b == [b[0]] + b[1..];
    }
  }

  /** A vector of a part of the values is shorter, unless it is the same. */
  lemma SortedShorter(a: seq<nat>, b: seq<nat>)
    requires Sorted(a) && Sorted(b) && forall y :: y in a ==> y in b
    ensures |a| <= |b| && (a != b ==> |a| < |b|)
  {
    ValuesCount(a);
    ValuesCount(b);
    SubsetCount(Values(a), Values(b));
    if |a| == |b| {
      SortedEqual(a, b);
    }
  }
}
