/** Directed graphs given as adjacency lists, and the walks in them. */
module Graphs {

  type Name = string
  type Graph = map<Name, seq<Name>>

  /** The successors of v; a name without an entry has none. */
  function Succ(g: Graph, v: Name): seq<Name> {
    if v in g then g[v] else []
  }

  ghost predicate Walk(g: Graph, p: seq<Name>) {
    |p| > 0 && forall i :: 0 <= i < |p| - 1 ==> p[i + 1] in Succ(g, p[i])
  }

  ghost predicate WalkFrom(g: Graph, p: seq<Name>, a: Name, b: Name) {
    Walk(g, p) && p[0] == a && p[|p| - 1] == b
  }

  /** b can be reached from a in zero or more edges. */
  ghost predicate Reaches(g: Graph, a: Name, b: Name) {
    exists p :: WalkFrom(g, p, a, b)
  }

  /** b can be reached from a in one or more edges. */
  ghost predicate ReachesPlus(g: Graph, a: Name, b: Name) {
    exists p :: WalkFrom(g, p, a, b) && |p| >= 2
  }

  ghost predicate Acyclic(g: Graph) {
    forall v :: !ReachesPlus(g, v, v)
  }

  ghost predicate Closed(g: Graph, s: set<Name>) {
    forall v, w :: v in s && w in Succ(g, v) ==> w in s
  }

  predicate NoDup<T(==)>(s: seq<T>) {
    forall i, j :: 0 <= i < j < |s| ==> s[i] != s[j]
  }

  lemma ReachesSelf(g: Graph, a: Name)
    ensures Reaches(g, a, a)
  {
    assert WalkFrom(g, [a], a, a);
  }

  lemma EdgeReaches(g: Graph, a: Name, b: Name)
    requires b in Succ(g, a)
    ensures ReachesPlus(g, a, b) && Reaches(g, a, b)
  {
    assert WalkFrom(g, [a, b], a, b);
  }

  lemma JoinWalks(g: Graph, p: seq<Name>, q: seq<Name>, a: Name, b: Name, c: Name)
    requires WalkFrom(g, p, a, b) && WalkFrom(g, q, b, c)
    ensures WalkFrom(g, p + q[1..], a, c)
  {
    var r := p + q[1..];
    forall i | 0 <= i < |r| - 1 ensures r[i + 1] in Succ(g, r[i]) {
      if i >= |p| - 1 {
        assert r[i] == q[i - |p| + 1] && r[i + 1] == q[i - |p| + 2];
      }
    }
  }

  lemma ReachesTransitive(g: Graph, a: Name, b: Name, c: Name)
    requires Reaches(g, a, b) && Reaches(g, b, c)
    ensures Reaches(g, a, c)
    ensures ReachesPlus(g, a, b) || ReachesPlus(g, b, c) ==> ReachesPlus(g, a, c)
  {
    var p :| WalkFrom(g, p, a, b) && (ReachesPlus(g, a, b) ==> |p| >= 2);
    var q :| WalkFrom(g, q, b, c) && (ReachesPlus(g, b, c) ==> |q| >= 2);
    JoinWalks(g, p, q, a, b, c);
  }

  lemma PlusReaches(g: Graph, a: Name, b: Name)
    requires ReachesPlus(g, a, b)
    ensures Reaches(g, a, b)
  {
  }

  /** A walk of at least one edge starts with an edge. */
  lemma PlusFirst(g: Graph, a: Name, b: Name) returns (m: Name)
    requires ReachesPlus(g, a, b)
    ensures m in Succ(g, a) && Reaches(g, m, b)
  {
    var p :| WalkFrom(g, p, a, b) && |p| >= 2;
    m := p[1];
    assert WalkFrom(g, p[1..], m, b);
  }

  lemma {:induction false} ClosedWalk(g: Graph, s: set<Name>, p: seq<Name>, k: nat)
    requires Closed(g, s) && Walk(g, p) && p[0] in s && k < |p|
    ensures p[k] in s
  {
    if k > 0 {
      ClosedWalk(g, s, p, k - 1);
      assert p[k - 1 + 1] in Succ(g, p[k - 1]);
    }
  }

  /** A set closed under edges is never left. */
  lemma ClosedReaches(g: Graph, s: set<Name>, a: Name, b: Name)
    requires Closed(g, s) && a in s && Reaches(g, a, b)
    ensures b in s
  {
    var p :| WalkFrom(g, p, a, b);
    ClosedWalk(g, s, p, |p| - 1);
  }
}
