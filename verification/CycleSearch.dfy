/** The depth-first cycle search of the state machine compiler, and the dead ends it finds. */
module CycleSearch {
  import opened Graphs
  import opened Rotations

  /** The search's variables: marked nodes, the current path, the cycles reported so far. */
  datatype Hunt = Hunt(visited: set<Name>, path: seq<Name>, cycles: seq<seq<Name>>)

  function IndexOf(path: seq<Name>, node: Name): (k: nat)
    requires node in path
    ensures k < |path| && path[k] == node && node !in path[..k]
  {
    if path[0] == node then 0 else 1 + IndexOf(path[1..], node)
  }

  /** A path that comes back to one of its nodes: report the cycle under its least rotation,
      unless that is a prefix of a cycle reported before. */
  function Record(s: Hunt, node: Name): Hunt
    requires node in s.path
  {
    var canonical := Canonical(s.path[IndexOf(s.path, node)..]);
    if exists c :: c in s.cycles && canonical <= c then s else s.(cycles := s.cycles + [canonical])
  }

  function Dfs(g: Graph, node: Name, s: Hunt): (r: Hunt)
    ensures r.path == s.path && s.visited <= r.visited && s.cycles <= r.cycles
    decreases g.Keys - s.visited, 0
  {
    if node in s.path then Record(s, node)
    else if node in s.visited then s
    else if node !in g then s.(visited := s.visited + {node})
    else DfsAll(g, g[node], s.(visited := s.visited + {node}, path := s.path + [node])).(path := s.path)
  }

  function DfsAll(g: Graph, next: seq<Name>, s: Hunt): (r: Hunt)
    ensures r.path == s.path && s.visited <= r.visited && s.cycles <= r.cycles
    decreases g.Keys - s.visited, 1 + |next|
  {
    if next == [] then s else DfsAll(g, next[1..], Dfs(g, next[0], s))
  }

  function FindCycles(g: Graph, states: seq<Name>): seq<seq<Name>> {
    DfsAll(g, states, Hunt({}, [], [])).cycles
  }

  class CycleFinder {
    var visited: set<Name>
    var path: seq<Name>
    var cycles: seq<seq<Name>>

    constructor ()
      ensures View() == Hunt({}, [], [])
    {
      visited, path, cycles := {}, [], [];
    }

    function View(): Hunt
      reads this
    {
      Hunt(visited, path, cycles)
    }

    method Search(g: Graph, node: Name)
      modifies this
      ensures View() == Dfs(g, node, old(View()))
      decreases g.Keys - visited
    {
      if node in path {
        var start := IndexOf(path, node);
        var canonical := Canonical(path[start..]);
        if !(exists c :: c in cycles && canonical <= c) {
          cycles := cycles + [canonical];
        }
        return;
      }
      if node in visited {
        return;
      }
      visited := visited + {node};
      path := path + [node];
      if node in g {
        ghost var entered := View();
        for i := 0 to |g[node]|
          invariant path == entered.path && entered.visited <= visited
          invariant DfsAll(g, g[node][i..], View()) == DfsAll(g, g[node], entered)
        {
          assert g[node][i..][1..] == g[node][i + 1..];
          Search(g, g[node][i]);
        }
      }
      path := path[..|path| - 1];
    }

    method FindAll(g: Graph, states: seq<Name>) returns (found: seq<seq<Name>>)
      requires View() == Hunt({}, [], [])
      modifies this
      ensures found == FindCycles(g, states)
    {
      for i := 0 to |states|
        invariant DfsAll(g, states[i..], View()) == DfsAll(g, states, Hunt({}, [], []))
      {
        assert states[i..][1..] == states[i + 1..];
        Search(g, states[i]);
      }
      return cycles;
    }
  }

  // ---------- soundness ----------

  /** A list of different nodes, each an edge away from the one before, the first from the last. */
  ghost predicate SimpleCycle(g: Graph, c: seq<Name>) {
    Walk(g, c) && NoDup(c) && c[0] in Succ(g, c[|c| - 1])
  }

  ghost predicate ReachedFrom(g: Graph, roots: seq<Name>, x: Name) {
    exists d :: d in roots && Reaches(g, d, x)
  }

  ghost predicate Reported(g: Graph, roots: seq<Name>, c: seq<Name>) {
    SimpleCycle(g, c) && ReachedFrom(g, roots, c[0]) && Canonical(c) == c
  }

  ghost predicate Different(cycles: seq<seq<Name>>) {
    forall i, j :: 0 <= i < j < |cycles| ==> !IsRotation(cycles[i], cycles[j])
  }

  ghost predicate PathOk(g: Graph, roots: seq<Name>, path: seq<Name>) {
    NoDup(path) && (path != [] ==> Walk(g, path) && path[0] in roots)
  }

  ghost predicate HuntOk(g: Graph, roots: seq<Name>, s: Hunt) {
    && PathOk(g, roots, s.path) && (forall x :: x in s.path ==> x in s.visited)
    && (forall c :: c in s.cycles ==> Reported(g, roots, c)) && Different(s.cycles)
  }

  ghost predicate MayEnter(g: Graph, roots: seq<Name>, path: seq<Name>, node: Name) {
    if path == [] then node in roots else node in Succ(g, path[|path| - 1])
  }

  lemma RotatedCycle(g: Graph, c: seq<Name>, r: seq<Name>)
    requires SimpleCycle(g, c) && IsRotation(c, r)
    ensures SimpleCycle(g, r) && r != [] && (forall x :: x in r <==> x in c)
  {
    var k: nat :| k <= |c| && r == Rotate(c, k);
    forall i | 0 <= i < |r| - 1 ensures r[i + 1] in Succ(g, r[i]) {
      if i + k + 1 == |c| { assert r[i] == c[|c| - 1] && r[i + 1] == c[0]; }
    }
  }

  lemma CycleReaches(g: Graph, c: seq<Name>, i: nat, j: nat)
    requires SimpleCycle(g, c) && i < |c| && j < |c|
    ensures ReachesPlus(g, c[i], c[j])
  {
    var k := |c| - 1;
    assert WalkFrom(g, c[i..], c[i], c[k]);
    assert WalkFrom(g, c[..j + 1], c[0], c[j]);
    EdgeReaches(g, c[k], c[0]);
    ReachesTransitive(g, c[i], c[k], c[0]);
    ReachesTransitive(g, c[i], c[0], c[j]);
  }

  /** The path from a node on, closed by an edge back to that node. */
  lemma SuffixCycle(g: Graph, roots: seq<Name>, path: seq<Name>, k: nat)
    requires PathOk(g, roots, path) && k < |path| && MayEnter(g, roots, path, path[k])
    ensures SimpleCycle(g, path[k..]) && ReachedFrom(g, roots, path[k])
  {
    assert WalkFrom(g, path[..k + 1], path[0], path[k]);
  }

  lemma CanonicalReported(g: Graph, roots: seq<Name>, c: seq<Name>)
    requires SimpleCycle(g, c) && ReachedFrom(g, roots, c[0])
    ensures Reported(g, roots, Canonical(c))
  {
    hide Canonical, Walk;
    var canonical := Canonical(c);
    SelfRotation(c);
    RotatedCycle(g, c, canonical);
    CanonicalDecides(c, canonical);
    var j :| 0 <= j < |c| && c[j] == canonical[0];
    CycleReaches(g, c, 0, j);
    var d :| d in roots && Reaches(g, d, c[0]);
    ReachesTransitive(g, d, c[0], canonical[0]);
  }

  /** A recorded cycle is real, is reached from a root, and is new. */
  lemma RecordOk(g: Graph, roots: seq<Name>, s: Hunt, node: Name)
    requires HuntOk(g, roots, s) && node in s.path && MayEnter(g, roots, s.path, node)
    ensures HuntOk(g, roots, Record(s, node))
  {
    var k := IndexOf(s.path, node);
    var canonical := Canonical(s.path[k..]);
    SuffixCycle(g, roots, s.path, k);
    CanonicalReported(g, roots, s.path[k..]);
    hide Canonical, Walk, IsRotation, SimpleCycle;
    forall i | 0 <= i < |s.cycles| && !(exists d :: d in s.cycles && canonical <= d)
      ensures !IsRotation(s.cycles[i], canonical)
    {
      assert s.cycles[i] in s.cycles && Reported(g, roots, s.cycles[i]);
      CanonicalDecides(s.cycles[i], canonical);
    }
  }

  lemma {:induction false} DfsOk(g: Graph, roots: seq<Name>, node: Name, s: Hunt)
    requires HuntOk(g, roots, s) && MayEnter(g, roots, s.path, node)
    ensures HuntOk(g, roots, Dfs(g, node, s)) && node in Dfs(g, node, s).visited
    decreases g.Keys - s.visited, 0
  {
    if node in s.path {
      RecordOk(g, roots, s, node);
    } else if node !in s.visited && node in g {
      var deeper := s.(visited := s.visited + {node}, path := s.path + [node]);
      assert deeper.path[|deeper.path| - 1] == node;
      DfsAllOk(g, roots, g[node], deeper);
    }
  }

  lemma {:induction false} DfsAllOk(g: Graph, roots: seq<Name>, next: seq<Name>, s: Hunt)
    requires HuntOk(g, roots, s) && forall x :: x in next ==> MayEnter(g, roots, s.path, x)
    ensures HuntOk(g, roots, DfsAll(g, next, s))
    ensures forall x :: x in next ==> x in DfsAll(g, next, s).visited
    decreases g.Keys - s.visited, 1 + |next|
  {
    if next != [] {
      DfsOk(g, roots, next[0], s);
      DfsAllOk(g, roots, next[1..], Dfs(g, next[0], s));
    }
  }

  // ---------- completeness ----------

  /** Nodes the search has left for good. */
  function Finished(s: Hunt): set<Name> {
    set x | x in s.visited && x !in s.path
  }

  /** As long as nothing is reported, the finished nodes are closed under edges and none
      lies on a cycle. */
  ghost predicate Settled(g: Graph, s: Hunt) {
    Closed(g, Finished(s)) && forall x :: x in Finished(s) ==> !ReachesPlus(g, x, x)
  }

  lemma {:induction false} DfsSilent(g: Graph, node: Name, s: Hunt)
    requires Settled(g, s) && (forall x :: x in s.path ==> x in s.visited)
    requires Dfs(g, node, s).cycles == []
    ensures Settled(g, Dfs(g, node, s)) && node in Finished(Dfs(g, node, s))
    decreases g.Keys - s.visited, 0
  {
    if node !in s.path && node !in s.visited {
      var deeper := s.(visited := s.visited + {node}, path := s.path + [node]);
      assert Finished(deeper) == Finished(s);
      var inner := if node in g then DfsAll(g, g[node], deeper) else deeper;
      if node in g {
        DfsAllSilent(g, g[node], deeper);
      }
      var r := Dfs(g, node, s);
      assert Finished(r) == Finished(inner) + {node};
      forall x | x in Finished(r) ensures !ReachesPlus(g, x, x) {
        if x == node && ReachesPlus(g, node, node) {
          var m := PlusFirst(g, node, node);
          ClosedReaches(g, Finished(inner), m, node);
        }
      }
    } else if node in s.path {
      assert false;
    }
  }

  lemma {:induction false} DfsAllSilent(g: Graph, next: seq<Name>, s: Hunt)
    requires Settled(g, s) && (forall x :: x in s.path ==> x in s.visited)
    requires DfsAll(g, next, s).cycles == []
    ensures Settled(g, DfsAll(g, next, s))
    ensures forall x :: x in next ==> x in Finished(DfsAll(g, next, s))
    decreases g.Keys - s.visited, 1 + |next|
  {
    if next != [] {
      var r := Dfs(g, next[0], s);
      assert r.cycles <= DfsAll(g, next, s).cycles;
      DfsSilent(g, next[0], s);
      DfsAllSilent(g, next[1..], r);
      assert Finished(r) <= Finished(DfsAll(g, next, s));
    }
  }

  /** Something is reported exactly when a declared state reaches a directed cycle; what is
      reported are simple cycles, no two of them rotations of each other. */
  lemma FindCyclesExact(g: Graph, states: seq<Name>)
    ensures FindCycles(g, states) != [] <==> exists x :: ReachedFrom(g, states, x) && ReachesPlus(g, x, x)
    ensures forall c :: c in FindCycles(g, states) ==> SimpleCycle(g, c) && ReachedFrom(g, states, c[0])
    ensures Different(FindCycles(g, states))
  {
    var s := Hunt({}, [], []);
    var cycles := FindCycles(g, states);
    DfsAllOk(g, states, states, s);
    if cycles != [] {
      var c := cycles[0];
      assert Reported(g, states, c);
      CycleReaches(g, c, 0, 0);
    } else {
      DfsAllSilent(g, states, s);
      var r := DfsAll(g, states, s);
      forall x | ReachedFrom(g, states, x) ensures !ReachesPlus(g, x, x) {
        var d :| d in states && Reaches(g, d, x);
        ClosedReaches(g, Finished(r), d, x);
      }
    }
  }

  /** When only declared states have outgoing edges, that is: the graph has a cycle. */
  lemma FindCyclesOnDeclared(g: Graph, states: seq<Name>)
    requires forall v :: v in g && g[v] != [] ==> v in states
    ensures FindCycles(g, states) == [] <==> Acyclic(g)
  {
    FindCyclesExact(g, states);
    forall v | ReachesPlus(g, v, v) ensures ReachedFrom(g, states, v) {
      var m := PlusFirst(g, v, v);
      ReachesSelf(g, v);
    }
  }

  // ---------- dead ends ----------

  /** A reported cycle of more than one state with no edge out of it. */
  predicate IsDeadEnd(g: Graph, c: seq<Name>) {
    |c| > 1 && forall v, w :: v in c && w in Succ(g, v) ==> w in c
  }

  /** From a dead end nothing outside it can be reached, and nothing in it is terminal. */
  lemma DeadEndTraps(g: Graph, states: seq<Name>, c: seq<Name>, v: Name, x: Name)
    requires c in FindCycles(g, states) && IsDeadEnd(g, c) && v in c && Reaches(g, v, x)
    ensures x in c && Succ(g, x) != []
  {
    FindCyclesExact(g, states);
    var s := set y | y in c;
    ClosedReaches(g, s, v, x);
    var i :| 0 <= i < |c| && c[i] == x;
    CycleReaches(g, c, i, i);
    var m := PlusFirst(g, x, x);
  }
}
