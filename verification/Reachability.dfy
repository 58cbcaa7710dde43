/**
 Paths in a finite relation, what acyclicity buys (a height that drops along every edge), and what a
 single parent per node buys (two ways to a node are comparable).
 */
module Reachability {

  /** A path of `n` edges. */
  ghost predicate Path<T(!new)>(edges: set<(T, T)>, a: T, b: T, n: nat)
    decreases n
  {
    if n == 0 then a == b else exists c :: (a, c) in edges && Path(edges, c, b, n - 1)
  }

  ghost predicate Reaches<T(!new)>(edges: set<(T, T)>, a: T, b: T) {
    exists n: nat :: Path(edges, a, b, n)
  }

  ghost predicate Acyclic<T(!new)>(edges: set<(T, T)>) {
    forall a, b :: (a, b) in edges ==> !Reaches(edges, b, a)
  }

  ghost predicate SingleParent<T(!new)>(edges: set<(T, T)>) {
    forall a, b, c :: (a, c) in edges && (b, c) in edges ==> a == b
  }

  ghost predicate Closed<T(!new)>(edges: set<(T, T)>, s: set<T>) {
    forall a, b :: (a, b) in edges && a in s ==> b in s
  }

  lemma ReachesSelf<T(!new)>(edges: set<(T, T)>, a: T)
    ensures Reaches(edges, a, a)
  {
    assert Path(edges, a, a, 0);
  }

  lemma {:induction false} PathConcat<T(!new)>(edges: set<(T, T)>, a: T, b: T, c: T, m: nat, n: nat)
    requires Path(edges, a, b, m) && Path(edges, b, c, n)
    ensures Path(edges, a, c, m + n)
    decreases m
  {
    if m > 0 {
      var d :| (a, d) in edges && Path(edges, d, b, m - 1);
      PathConcat(edges, d, b, c, m - 1, n);
    }
  }

  lemma ReachesTrans<T(!new)>(edges: set<(T, T)>, a: T, b: T, c: T)
    requires Reaches(edges, a, b) && Reaches(edges, b, c)
    ensures Reaches(edges, a, c)
  {
    var m: nat :| Path(edges, a, b, m);
    var n: nat :| Path(edges, b, c, n);
    PathConcat(edges, a, b, c, m, n);
  }

  lemma EdgeReaches<T(!new)>(edges: set<(T, T)>, a: T, b: T)
    requires (a, b) in edges
    ensures Reaches(edges, a, b)
  {
    assert Path(edges, b, b, 0);
    assert Path(edges, a, b, 1);
  }

  lemma EdgeThenReaches<T(!new)>(edges: set<(T, T)>, a: T, b: T, c: T)
    requires (a, b) in edges && Reaches(edges, b, c)
    ensures Reaches(edges, a, c)
  {
    EdgeReaches(edges, a, b);
    ReachesTrans(edges, a, b, c);
  }

  /** A node reached other than itself is reached through a child, and through a parent of its own. */
  lemma FirstEdge<T(!new)>(edges: set<(T, T)>, a: T, b: T) returns (c: T)
    requires Reaches(edges, a, b) && a != b
    ensures (a, c) in edges && Reaches(edges, c, b)
  {
    var n: nat :| Path(edges, a, b, n);
    c :| (a, c) in edges && Path(edges, c, b, n - 1);
  }

  lemma {:induction false} LastEdgeOfPath<T(!new)>(edges: set<(T, T)>, a: T, b: T, n: nat) returns (c: T)
    requires n > 0 && Path(edges, a, b, n)
    ensures Path(edges, a, c, n - 1) && (c, b) in edges
    decreases n
  {
    var d :| (a, d) in edges && Path(edges, d, b, n - 1);
    if n == 1 {
      c := a;
    } else {
      c := LastEdgeOfPath(edges, d, b, n - 1);
    }
  }

  lemma LastEdge<T(!new)>(edges: set<(T, T)>, a: T, b: T) returns (c: T)
    requires Reaches(edges, a, b) && a != b
    ensures Reaches(edges, a, c) && (c, b) in edges
  {
    var n: nat :| Path(edges, a, b, n);
    c := LastEdgeOfPath(edges, a, b, n);
  }

  lemma {:induction false} ClosedHoldsReached<T(!new)>(edges: set<(T, T)>, s: set<T>, a: T, b: T, n: nat)
    requires Closed(edges, s) && a in s && Path(edges, a, b, n)
    ensures b in s
    decreases n
  {
    if n > 0 {
      var c :| (a, c) in edges && Path(edges, c, b, n - 1);
      ClosedHoldsReached(edges, s, c, b, n - 1);
    }
  }

  /** With one parent per node, of two nodes that reach a third one reaches the other. */
  lemma {:induction false} Comparable<T(!new)>(edges: set<(T, T)>, a: T, b: T, x: T, m: nat, n: nat)
    requires SingleParent(edges) && Path(edges, a, x, m) && Path(edges, b, x, n)
    ensures Reaches(edges, a, b) || Reaches(edges, b, a)
    decreases m
  {
    if m == 0 {
      assert Reaches(edges, b, a);
    } else if n == 0 {
      assert Reaches(edges, a, b);
    } else {
      var c := LastEdgeOfPath(edges, a, x, m);
      var d := LastEdgeOfPath(edges, b, x, n);
      Comparable(edges, a, b, c, m - 1, n - 1);
    }
  }

  // ---------------------------------------------------------------------------------------------
  // Heights

  ghost function Nodes<T(!new)>(edges: set<(T, T)>): set<T> {
    (set e | e in edges :: e.0) + (set e | e in edges :: e.1)
  }

  /** How many nodes are reached from here. */
  ghost function Height<T(!new)>(edges: set<(T, T)>, a: T): nat {
    |set x | x in Nodes(edges) && Reaches(edges, a, x)|
  }

  /** How many nodes reach this one. */
  ghost function Depth<T(!new)>(edges: set<(T, T)>, a: T): nat {
    |set x | x in Nodes(edges) && Reaches(edges, x, a)|
  }

  lemma {:induction false} SmallerSet<T>(s: set<T>, t: set<T>)
    requires s < t
    ensures |s| < |t|
  {
    assert t == s + (t - s);
    assert t - s != {};
  }

  lemma HeightDrops<T(!new)>(edges: set<(T, T)>, a: T, b: T)
    requires Acyclic(edges) && (a, b) in edges
    ensures Height(edges, b) < Height(edges, a)
  {
    var below := set x | x in Nodes(edges) && Reaches(edges, b, x);
    var above := set x | x in Nodes(edges) && Reaches(edges, a, x);
    forall x | x in below
      ensures x in above
    {
      EdgeThenReaches(edges, a, b, x);
    }
    NodeOf(edges, (a, b));
    ReachesSelf(edges, a);
    assert a in above && a !in below;
    SmallerSet(below, above);
  }

  lemma NodeOf<T(!new)>(edges: set<(T, T)>, e: (T, T))
    requires e in edges
    ensures e.0 in Nodes(edges) && e.1 in Nodes(edges)
  {
  }

  lemma DepthDrops<T(!new)>(edges: set<(T, T)>, a: T, b: T)
    requires Acyclic(edges) && (a, b) in edges
    ensures Depth(edges, a) < Depth(edges, b)
  {
    var over := set x | x in Nodes(edges) && Reaches(edges, x, a);
    var under := set x | x in Nodes(edges) && Reaches(edges, x, b);
    EdgeReaches(edges, a, b);
    forall x | x in over
      ensures x in under
    {
      ReachesTrans(edges, x, a, b);
    }
    NodeOf(edges, (a, b));
    ReachesSelf(edges, b);
    assert b in under && b !in over;
    SmallerSet(over, under);
  }
}
