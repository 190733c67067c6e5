/** Directed graphs of names: walks, reachability, cycles and topological orders.
    This is the reference that the traversals of DependencyOrder are proved against. */
module Graph {

  type Graph = map<string, seq<string>>

  function Succ(g: Graph, name: string): seq<string> {
    if name in g then g[name] else []
  }

  predicate Edge(g: Graph, a: string, b: string) {
    b in Succ(g, a)
  }

  function Last<T>(s: seq<T>): T
    requires s != []
  {
    s[|s| - 1]
  }

  predicate NoDuplicates<T(==)>(s: seq<T>) {
    forall i, j :: 0 <= i < j < |s| ==> s[i] != s[j]
  }

  ghost predicate Walk(g: Graph, p: seq<string>) {
    && p != []
    && forall i, j :: 0 <= i < j < |p| && j == i + 1 ==> Edge(g, p[i], p[j])
  }

  ghost predicate WalkBetween(g: Graph, p: seq<string>, a: string, b: string) {
    Walk(g, p) && p[0] == a && Last(p) == b
  }

  ghost predicate Reach(g: Graph, a: string, b: string) {
    exists p :: WalkBetween(g, p, a, b)
  }

  /** A walk that ends on a node it has already passed. */
  ghost predicate Lasso(g: Graph, p: seq<string>) {
    Walk(g, p) && Last(p) in p[..|p| - 1]
  }

  ghost predicate AcyclicFrom(g: Graph, a: string) {
    forall p :: Lasso(g, p) ==> p[0] != a
  }

  ghost predicate Acyclic(g: Graph) {
    forall p :: !Lasso(g, p)
  }

  /** Every name reachable from `a` is defined. */
  ghost predicate ClosedFrom(g: Graph, a: string) {
    forall b :: Reach(g, a, b) ==> b in g
  }

  ghost predicate Closed(g: Graph) {
    forall a, b {:trigger Edge(g, a, b)} :: a in g && Edge(g, a, b) ==> b in g
  }

  /** Every node comes after all of its successors, which are all listed. */
  ghost predicate Topological(g: Graph, order: seq<string>) {
    forall i, d {:trigger Edge(g, order[i], d)} :: 0 <= i < |order| && Edge(g, order[i], d) ==> d in order[..i]
  }

  ghost predicate IsReverse(g: Graph, r: Graph) {
    forall a, b :: Edge(g, a, b) <==> Edge(r, b, a)
  }

  lemma WalkExtend(g: Graph, p: seq<string>, b: string)
    requires Walk(g, p) && Edge(g, Last(p), b)
    ensures Walk(g, p + [b])
    ensures WalkBetween(g, p + [b], p[0], b)
  {
  }

  lemma WalkAppend(g: Graph, p: seq<string>, q: seq<string>)
    requires Walk(g, p) && Walk(g, q) && Last(p) == q[0]
    ensures WalkBetween(g, p + q[1..], p[0], Last(q))
  {
    var r := p + q[1..];
    forall i, j | 0 <= i < j < |r| && j == i + 1
      ensures Edge(g, r[i], r[j])
    {
      if j < |p| {
        assert r[i] == p[i] && r[j] == p[j];
      } else {
        assert r[j] == q[j - |p| + 1];
        assert r[i] == q[i - |p| + 1];
      }
    }
    if |q| == 1 {
      assert r == p;
    }
  }

  lemma ReachSelf(g: Graph, a: string)
    ensures Reach(g, a, a)
  {
    assert WalkBetween(g, [a], a, a);
  }

  lemma ReachStep(g: Graph, a: string, b: string, c: string)
    requires Reach(g, a, b) && Edge(g, b, c)
    ensures Reach(g, a, c)
  {
    var p :| WalkBetween(g, p, a, b);
    WalkExtend(g, p, c);
  }

  lemma ReachTransitive(g: Graph, a: string, b: string, c: string)
    requires Reach(g, a, b) && Reach(g, b, c)
    ensures Reach(g, a, c)
  {
    var p :| WalkBetween(g, p, a, b);
    var q :| WalkBetween(g, q, b, c);
    WalkAppend(g, p, q);
  }

  lemma WalkPrefix(g: Graph, p: seq<string>, k: nat)
    requires Walk(g, p) && 0 < k <= |p|
    ensures Walk(g, p[..k])
  {
  }

  lemma WalkSuffix(g: Graph, p: seq<string>, k: nat)
    requires Walk(g, p) && k < |p|
    ensures Walk(g, p[k..]) && Last(p[k..]) == Last(p)
  {
    var r := p[k..];
    forall i, j | 0 <= i < j < |r| && j == i + 1
      ensures Edge(g, r[i], r[j])
    {
      assert r[i] == p[i + k] && r[j] == p[j + k];
    }
  }

  /** A set that holds `a` and is closed under edges holds everything reachable from `a`. */
  lemma {:induction false} ReachWithin(g: Graph, p: seq<string>, s: set<string>)
    requires Walk(g, p) && p[0] in s
    requires forall a, b :: a in s && Edge(g, a, b) ==> b in s
    ensures forall i :: 0 <= i < |p| ==> p[i] in s
    decreases |p|
  {
    if |p| > 1 {
      var front := p[..|p| - 1];
      WalkPrefix(g, p, |p| - 1);
      ReachWithin(g, front, s);
      assert forall i :: 0 <= i < |front| ==> p[i] == front[i];
      assert Edge(g, p[|p| - 2], p[|p| - 1]);
    }
  }

  lemma ReachInside(g: Graph, a: string, b: string, s: set<string>)
    requires Reach(g, a, b) && a in s
    requires forall x, y :: x in s && Edge(g, x, y) ==> y in s
    ensures b in s
  {
    var p :| WalkBetween(g, p, a, b);
    ReachWithin(g, p, s);
  }

  /** The position of the first occurrence of `x`. */
  function PositionOf(s: seq<string>, x: string): (i: nat)
    requires x in s
    ensures i < |s| && s[i] == x && x !in s[..i]
  {
    if s[0] == x then 0
    else
      var i := 1 + PositionOf(s[1..], x);
      assert s[..i] == [s[0]] + s[1..][..i - 1];
      i
  }

  lemma {:induction false} TopologicalDescent(g: Graph, order: seq<string>, p: seq<string>)
    requires Topological(g, order) && Walk(g, p) && p[0] in order
    ensures forall i :: 0 <= i < |p| ==> p[i] in order
    ensures forall i, j :: 0 <= i < j < |p| ==> PositionOf(order, p[j]) < PositionOf(order, p[i])
    decreases |p|
  {
    if |p| > 1 {
      var n := |p| - 1;
      var front := p[..n];
      WalkPrefix(g, p, n);
      TopologicalDescent(g, order, front);
      assert forall i :: 0 <= i < n ==> p[i] == front[i];
      var before := PositionOf(order, p[n - 1]);
      assert Edge(g, p[n - 1], p[n]);
      assert Edge(g, order[before], p[n]);
      assert p[n] in order[..before];
      var k :| 0 <= k < before && order[k] == p[n];
      assert PositionOf(order, p[n]) < before;
    }
  }

  /** A topological order certifies that everything reachable is listed and nothing cycles. */
  lemma TopologicalSound(g: Graph, order: seq<string>, a: string)
    requires Topological(g, order) && a in order
    ensures AcyclicFrom(g, a)
    ensures forall b :: Reach(g, a, b) ==> b in order
  {
    forall p | Lasso(g, p)
      ensures p[0] != a
    {
      if p[0] == a {
        TopologicalDescent(g, order, p);
      }
    }
    forall b | Reach(g, a, b)
      ensures b in order
    {
      var p :| WalkBetween(g, p, a, b);
      TopologicalDescent(g, order, p);
    }
  }

  function Reversed<T>(s: seq<T>): (r: seq<T>)
    ensures |r| == |s| && forall i :: 0 <= i < |s| ==> r[i] == s[|s| - 1 - i]
  {
    seq(|s|, i requires 0 <= i < |s| => s[|s| - 1 - i])
  }

  lemma ReverseWalk(g: Graph, r: Graph, p: seq<string>)
    requires IsReverse(g, r) && Walk(g, p)
    ensures WalkBetween(r, Reversed(p), Last(p), p[0])
  {
    var q := Reversed(p);
    forall i, j | 0 <= i < j < |q| && j == i + 1
      ensures Edge(r, q[i], q[j])
    {
      assert q[i] == p[|p| - 1 - i] && q[j] == p[|p| - 1 - j];
      assert Edge(g, p[|p| - 1 - j], p[|p| - 1 - i]);
    }
  }

  lemma ReverseReach(g: Graph, r: Graph, a: string, b: string)
    requires IsReverse(g, r)
    ensures Reach(g, a, b) <==> Reach(r, b, a)
  {
    if Reach(g, a, b) {
      var p :| WalkBetween(g, p, a, b);
      ReverseWalk(g, r, p);
    }
    if Reach(r, b, a) {
      var p :| WalkBetween(r, p, b, a);
      ReverseWalk(r, g, p);
    }
  }
}
