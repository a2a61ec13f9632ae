/** StateCRDT: the path search with one visited set shared by all branches, and the merge
    of two node states by version and then by reachability. */
module RaftMerge {
  import opened Options
  import opened Graphs
  import opened RaftNode

  /** What a search found, and the visited set it leaves behind. */
  datatype Search = Search(path: Option<seq<Name>>, visited: set<Name>)

  function FindPath(g: Graph, start: Name, end: Name, visited: set<Name>): (r: Search)
    ensures visited <= r.visited
    decreases g.Keys - visited, 0
  {
    if start == end then Search(Some([end]), visited)
    else if start in visited then Search(None, visited)
    else if start !in g then Search(None, visited + {start})
    else
      var r := FirstPath(g, g[start], end, visited + {start});
      if r.path.Some? then Search(Some([start] + r.path.value), r.visited) else r
  }

  /** The first of several nodes from which a path is found. */
  function FirstPath(g: Graph, next: seq<Name>, end: Name, visited: set<Name>): (r: Search)
    ensures visited <= r.visited
    decreases g.Keys - visited, 1 + |next|
  {
    if next == [] then Search(None, visited)
    else
      var r := FindPath(g, next[0], end, visited);
      if r.path.Some? then r else FirstPath(g, next[1..], end, r.visited)
  }

  class PathFinder {
    var visited: set<Name>

    constructor ()
      ensures visited == {}
    {
      visited := {};
    }

    method Find(g: Graph, start: Name, end: Name) returns (path: Option<seq<Name>>)
      modifies this
      ensures Search(path, visited) == FindPath(g, start, end, old(visited))
      decreases g.Keys - visited
    {
      if start == end {
        return Some([end]);
      }
      if start in visited {
        return None;
      }
      visited := visited + {start};
      if start !in g {
        return None;
      }
      var next := g[start];
      for i := 0 to |next|
        invariant old(visited) + {start} <= visited
        invariant FirstPath(g, next[i..], end, visited) == FirstPath(g, next, end, old(visited) + {start})
      {
        assert next[i..][1..] == next[i + 1..];
        path := Find(g, next[i], end);
        if path.Some? {
          return Some([start] + path.value);
        }
      }
      return None;
    }
  }

  /** A path found is a simple walk through fresh nodes; a failed search has marked its
      start and every successor of what it marked. */
  ghost predicate FindOk(g: Graph, start: Name, end: Name, visited: set<Name>, r: Search) {
    && (r.path.Some? ==> WalkFrom(g, r.path.value, start, end) && FreshPath(r.path.value, visited))
    && (r.path.None? ==> start in r.visited && end !in r.visited && MarkedClosed(g, visited, r.visited))
  }

  ghost predicate FreshPath(p: seq<Name>, visited: set<Name>) {
    NoDup(p) && forall x :: x in p ==> x !in visited
  }

  ghost predicate MarkedClosed(g: Graph, before: set<Name>, after: set<Name>) {
    forall x, y :: x in after - before && y in Succ(g, x) ==> y in after
  }

  lemma {:induction false} FindPathOk(g: Graph, start: Name, end: Name, visited: set<Name>)
    requires end !in visited
    ensures FindOk(g, start, end, visited, FindPath(g, start, end, visited))
    decreases g.Keys - visited, 0
  {
    if start == end {
      assert Walk(g, [end]);
    } else if start !in visited && start in g {
      FirstPathOk(g, g[start], end, visited + {start});
      var r := FirstPath(g, g[start], end, visited + {start});
      if r.path.Some? {
        var p := [start] + r.path.value;
        assert forall i :: 0 <= i < |p| - 1 ==> p[i + 1] in Succ(g, p[i]);
      }
    }
  }

  lemma {:induction false} FirstPathOk(g: Graph, next: seq<Name>, end: Name, visited: set<Name>)
    requires end !in visited
    ensures var r := FirstPath(g, next, end, visited);
      && (r.path.Some? ==> r.path.value != [] && r.path.value[0] in next
                           && WalkFrom(g, r.path.value, r.path.value[0], end) && FreshPath(r.path.value, visited))
      && (r.path.None? ==> (forall x :: x in next ==> x in r.visited) && end !in r.visited
                           && MarkedClosed(g, visited, r.visited))
    decreases g.Keys - visited, 1 + |next|
  {
    if next != [] {
      FindPathOk(g, next[0], end, visited);
      var r := FindPath(g, next[0], end, visited);
      if r.path.None? {
        FirstPathOk(g, next[1..], end, r.visited);
      }
    }
  }

  /** From an empty visited set the search finds a simple path exactly when there is a walk. */
  lemma FindPathExact(g: Graph, start: Name, end: Name)
    ensures var path := FindPath(g, start, end, {}).path;
      && (path.Some? <==> Reaches(g, start, end))
      && (path.Some? ==> WalkFrom(g, path.value, start, end) && NoDup(path.value))
  {
    FindPathOk(g, start, end, {});
    var r := FindPath(g, start, end, {});
    if r.path.None? && Reaches(g, start, end) {
      ClosedReaches(g, r.visited, start, end);
    }
  }

  // ---------- merge ----------

  predicate OnSamePath(a: Name, b: Name, g: Graph) {
    g != map[] && (FindPath(g, a, b, {}).path.Some? || FindPath(g, b, a, {}).path.Some?)
  }

  function Merge(local: NodeState, remote: NodeState, g: Graph): NodeState {
    if remote.version > local.version then remote
    else if local.version > remote.version then local
    else if remote.current == local.current then local
    else if OnSamePath(local.current, remote.current, g) then
      var path := FindPath(g, local.current, remote.current, {}).path;
      if path.Some? && path.value != [] && path.value[|path.value| - 1] == remote.current then remote else local
    else local
  }

  /** b is at least as far as a: a later version, or the same version and a state that can
      be reached from a's. */
  ghost predicate AtMost(g: Graph, a: NodeState, b: NodeState) {
    a.version < b.version || (a.version == b.version && Reaches(g, a.current, b.current))
  }

  /** merge takes the remote state exactly when it is at least as far as the local one. */
  lemma MergeTakes(g: Graph, a: NodeState, b: NodeState)
    ensures Merge(a, b, g) == if AtMost(g, a, b) then b else a
    ensures Merge(a, b, g) in {a, b} && Merge(a, b, g).version == if a.version < b.version then b.version else a.version
  {
    FindPathExact(g, a.current, b.current);
    ReachesSelf(g, a.current);
    if g == map[] && Reaches(g, a.current, b.current) {
      assert Closed(g, {a.current});
      ClosedReaches(g, {a.current}, a.current, b.current);
    }
  }

  lemma AtMostTransitive(g: Graph, a: NodeState, b: NodeState, c: NodeState)
    requires AtMost(g, a, b) && AtMost(g, b, c)
    ensures AtMost(g, a, c)
  {
    if a.version == b.version == c.version {
      ReachesTransitive(g, a.current, b.current, c.current);
    }
  }

  /** On every graph: merge commutes exactly when one state, and only one, is at least as
      far as the other, or they are the same. */
  lemma MergeCommutesExactly(g: Graph, a: NodeState, b: NodeState)
    ensures Merge(a, b, g) == Merge(b, a, g) <==> a == b || AtMost(g, a, b) != AtMost(g, b, a)
  {
    MergeTakes(g, a, b);
    MergeTakes(g, b, a);
  }

  /** On every graph: merge associates except when the third state is beyond the first
      while the second is beyond neither and not before the third. */
  lemma MergeAssociatesExactly(g: Graph, a: NodeState, b: NodeState, c: NodeState)
    ensures Merge(Merge(a, b, g), c, g) == Merge(a, Merge(b, c, g), g)
       <==> a == c || !(AtMost(g, a, c) && !AtMost(g, a, b) && !AtMost(g, b, c))
  {
    MergeTakes(g, a, b);
    MergeTakes(g, b, c);
    MergeTakes(g, a, c);
    if AtMost(g, a, b) && AtMost(g, b, c) { AtMostTransitive(g, a, b, c); }
  }

  /** On an acyclic graph no two different states are each at least as far as the other. */
  lemma AtMostAntisymmetric(g: Graph, a: NodeState, b: NodeState)
    requires Acyclic(g) && AtMost(g, a, b) && AtMost(g, b, a)
    ensures a == b
  {
    if a.current != b.current {
      var p :| WalkFrom(g, p, a.current, b.current);
      assert |p| >= 2;
      ReachesTransitive(g, a.current, b.current, a.current);
    }
  }

  ghost predicate Comparable(g: Graph, states: seq<NodeState>) {
    forall a, b :: a in states && b in states ==> AtMost(g, a, b) || AtMost(g, b, a)
  }

  function MergeAll(g: Graph, states: seq<NodeState>): NodeState
    requires states != []
  {
    if |states| == 1 then states[0]
    else Merge(MergeAll(g, states[..|states| - 1]), states[|states| - 1], g)
  }

  lemma {:induction false} MergeAllGreatest(g: Graph, states: seq<NodeState>)
    requires states != [] && Comparable(g, states)
    ensures MergeAll(g, states) in states
    ensures forall a :: a in states ==> AtMost(g, a, MergeAll(g, states))
  {
    var last := states[|states| - 1];
    ReachesSelf(g, last.current);
    if |states| > 1 {
      var front := states[..|states| - 1];
      MergeAllGreatest(g, front);
      var m := MergeAll(g, front);
      MergeTakes(g, m, last);
      assert AtMost(g, m, last) || AtMost(g, last, m);
      forall a | a in states ensures AtMost(g, a, MergeAll(g, states)) {
        if a in front && AtMost(g, m, last) { AtMostTransitive(g, a, m, last); }
        assert a in front || a == last;
      }
    }
  }

  /** Pairwise comparable states on an acyclic graph merge to their maximum, whatever the
      order in which they come in and however often. */
  lemma MergeOrderIrrelevant(g: Graph, s: seq<NodeState>, t: seq<NodeState>)
    requires Acyclic(g) && s != [] && t != [] && Comparable(g, s)
    requires forall a :: a in s <==> a in t
    ensures MergeAll(g, s) == MergeAll(g, t)
  {
    MergeAllGreatest(g, s);
    MergeAllGreatest(g, t);
    AtMostAntisymmetric(g, MergeAll(g, s), MergeAll(g, t));
  }
}
