/** When the search for dead ends finds every trap: every set of states that no walk leaves and that
    holds no state without successors. */
module DeadEnds {
  import opened Graphs
  import opened Rotations
  import opened CycleSearch
  import opened Machine

  /** Some walk from v ends in a state without successors. */
  ghost predicate Exits(g: Graph, v: Name) {
    exists x :: Reaches(g, v, x) && Succ(g, x) == []
  }

  /** At most one successor of v leads back to v. */
  ghost predicate OneWayBack(g: Graph, v: Name) {
    forall w, x :: w in Succ(g, v) && x in Succ(g, v) && Reaches(g, w, v) && Reaches(g, x, v) ==> w == x
  }

  /** v leads nowhere but to itself. */
  predicate OnlyItself(g: Graph, v: Name) {
    Succ(g, v) != [] && forall w :: w in Succ(g, v) ==> w == v
  }

  ghost predicate Declared(g: Graph, names: seq<Name>) {
    forall v, w :: v in names && w in Succ(g, v) ==> w in names
  }

  // ---------- a ring is always reported ----------

  /** A closed set of states in which each has one successor and reaches all the others. */
  ghost predicate Ring(g: Graph, b: set<Name>) {
    && Closed(g, b)
    && (forall v :: v in b ==> Succ(g, v) != [] && OneSuccessor(g, v))
    && (forall v, w :: v in b && w in b ==> Reaches(g, v, w))
  }

  ghost predicate OneSuccessor(g: Graph, v: Name) {
    forall w, x :: w in Succ(g, v) && x in Succ(g, v) ==> w == x
  }

  ghost predicate Covers(c: seq<Name>, b: set<Name>) {
    forall x :: x in c <==> x in b
  }

  ghost predicate Found(cycles: seq<seq<Name>>, b: set<Name>) {
    exists c :: c in cycles && Covers(c, b)
  }

  ghost predicate FoundOrFresh(s: Hunt, b: set<Name>) {
    Found(s.cycles, b) || b !! s.visited
  }

  lemma FoundStays(a: seq<seq<Name>>, c: seq<seq<Name>>, b: set<Name>)
    requires a <= c && Found(a, b)
    ensures Found(c, b)
  {
    var x :| x in a && Covers(x, b);
    assert x in c;
  }

  /** A simple cycle inside a ring is all of it. */
  lemma CycleCovers(g: Graph, b: set<Name>, c: seq<Name>)
    requires Ring(g, b) && SimpleCycle(g, c) && forall x :: x in c ==> x in b
    ensures Covers(c, b)
  {
    var s := set x | x in c;
    forall v, w | v in s && w in Succ(g, v) ensures w in s {
      var i :| 0 <= i < |c| && c[i] == v;
      var next := if i == |c| - 1 then c[0] else c[i + 1];
      assert next in Succ(g, v) && next in c;
      assert OneSuccessor(g, v);
    }
    assert Closed(g, s);
    forall x | x in b ensures x in c {
      assert c[0] in c && Reaches(g, c[0], x);
      ClosedReaches(g, s, c[0], x);
    }
  }

  /** A cycle that starts in a ring is all of it. */
  lemma StartsInRing(g: Graph, b: set<Name>, c: seq<Name>)
    requires Ring(g, b) && SimpleCycle(g, c) && c[0] in b
    ensures Covers(c, b)
  {
    forall x | x in c ensures x in b {
      var i :| 0 <= i < |c| && c[i] == x;
      ClosedWalk(g, b, c, i);
    }
    CycleCovers(g, b, c);
  }

  lemma CoversSame(c: seq<Name>, d: seq<Name>, b: set<Name>)
    requires Covers(c, b) && d != [] && forall x :: x in d <==> x in c
    ensures Covers(d, b) && d[0] in b
  {
    assert d[0] in d;
  }

  lemma CanonicalStarts(g: Graph, b: set<Name>, c: seq<Name>)
    requires Ring(g, b) && SimpleCycle(g, c) && c[0] in b
    ensures Canonical(c) != [] && Canonical(c)[0] in b && Covers(Canonical(c), b)
  {
    StartsInRing(g, b, c);
    SelfRotation(c);
    hide *;
    RotatedCycle(g, c, Canonical(c));
    CoversSame(c, Canonical(c), b);
  }

  lemma RecordFinds(g: Graph, roots: seq<Name>, s: Hunt, node: Name, b: set<Name>)
    requires HuntOk(g, roots, s) && node in s.path && MayEnter(g, roots, s.path, node) && Ring(g, b) && node in b
    ensures Found(Record(s, node).cycles, b)
  {
    var i := IndexOf(s.path, node);
    var c := s.path[i..];
    SuffixCycle(g, roots, s.path, i);
    CanonicalStarts(g, b, c);
    hide SimpleCycle, Ring, Canonical;
    if d :| d in s.cycles && Canonical(c) <= d {
      assert Reported(g, roots, d);
      assert d[0] == Canonical(c)[0];
      StartsInRing(g, b, d);
    } else {
      assert Canonical(c) in Record(s, node).cycles;
    }
  }

  /** Once the search enters a ring it follows it round and reports it. */
  lemma {:induction false} ChainFinds(g: Graph, roots: seq<Name>, node: Name, s: Hunt, b: set<Name>)
    requires HuntOk(g, roots, s) && MayEnter(g, roots, s.path, node) && Ring(g, b) && node in b
    requires forall x :: x in b && x in s.visited ==> x in s.path
    ensures Found(Dfs(g, node, s).cycles, b)
    decreases g.Keys - s.visited
  {
    if node in s.path {
      RecordFinds(g, roots, s, node, b);
    } else {
      assert Succ(g, node) != [] && g[node][0] in Succ(g, node);
      var deeper := s.(visited := s.visited + {node}, path := s.path + [node]);
      DeeperOk(g, roots, node, s, deeper);
      hide HuntOk, Reported, Ring;
      assert g[node][0] in b by { RingStep(g, b, node, g[node][0]); }
      assert node in deeper.path;
      ChainFinds(g, roots, g[node][0], deeper, b);
      var r := Dfs(g, g[node][0], deeper);
      FoundStays(r.cycles, DfsAll(g, g[node][1..], r).cycles, b);
    }
  }

  lemma RingStep(g: Graph, b: set<Name>, v: Name, w: Name)
    requires Ring(g, b) && v in b && w in Succ(g, v)
    ensures w in b
  {
  }

  lemma DeeperOk(g: Graph, roots: seq<Name>, node: Name, s: Hunt, deeper: Hunt)
    requires HuntOk(g, roots, s) && MayEnter(g, roots, s.path, node) && node !in s.path
    requires deeper == s.(visited := s.visited + {node}, path := s.path + [node])
    ensures HuntOk(g, roots, deeper) && forall w :: w in Succ(g, node) ==> MayEnter(g, roots, deeper.path, w)
  {
    assert deeper.path[|deeper.path| - 1] == node;
  }

  lemma {:induction false} DfsFinds(g: Graph, roots: seq<Name>, node: Name, s: Hunt, b: set<Name>)
    requires HuntOk(g, roots, s) && MayEnter(g, roots, s.path, node) && Ring(g, b) && FoundOrFresh(s, b)
    ensures FoundOrFresh(Dfs(g, node, s), b) && (node in b ==> Found(Dfs(g, node, s).cycles, b))
    decreases g.Keys - s.visited, 0
  {
    if Found(s.cycles, b) {
      FoundStays(s.cycles, Dfs(g, node, s).cycles, b);
    } else if node in b {
      ChainFinds(g, roots, node, s, b);
    } else if node !in s.path && node !in s.visited && node in g {
      var deeper := s.(visited := s.visited + {node}, path := s.path + [node]);
      assert deeper.path[|deeper.path| - 1] == node;
      DfsAllFinds(g, roots, g[node], deeper, b);
    }
  }

  lemma {:induction false} DfsAllFinds(g: Graph, roots: seq<Name>, next: seq<Name>, s: Hunt, b: set<Name>)
    requires HuntOk(g, roots, s) && (forall x :: x in next ==> MayEnter(g, roots, s.path, x))
    requires Ring(g, b) && FoundOrFresh(s, b)
    ensures FoundOrFresh(DfsAll(g, next, s), b)
    ensures (exists x :: x in next && x in b) ==> Found(DfsAll(g, next, s).cycles, b)
    decreases g.Keys - s.visited, 1 + |next|
  {
    if next != [] {
      var r := Dfs(g, next[0], s);
      DfsOk(g, roots, next[0], s);
      DfsFinds(g, roots, next[0], s, b);
      DfsAllFinds(g, roots, next[1..], r, b);
      if Found(r.cycles, b) {
        FoundStays(r.cycles, DfsAll(g, next, s).cycles, b);
      }
    }
  }

  /** Every declared ring is reported, as a cycle through all of it. */
  lemma RingReported(g: Graph, names: seq<Name>, b: set<Name>, v: Name)
    requires Ring(g, b) && v in b && v in names
    ensures Found(FindCycles(g, names), b)
  {
    DfsAllFinds(g, names, names, Hunt({}, [], []), b);
  }

  // ---------- a trap holds a ring ----------

  ghost function ReachSet(g: Graph, names: seq<Name>, v: Name): set<Name> {
    set x | x in names && Reaches(g, v, x)
  }

  /** From every state one can go on until all that is still reachable leads back. */
  lemma {:induction false} Bottom(g: Graph, names: seq<Name>, v: Name) returns (x: Name)
    requires v in names && Declared(g, names)
    ensures x in names && Reaches(g, v, x) && forall y :: y in ReachSet(g, names, x) ==> Reaches(g, y, x)
    decreases |ReachSet(g, names, v)|
  {
    ReachesSelf(g, v);
    if y :| y in ReachSet(g, names, v) && !Reaches(g, y, v) {
      forall z | z in ReachSet(g, names, y) ensures z in ReachSet(g, names, v) { ReachesTransitive(g, v, y, z); }
      assert v in ReachSet(g, names, v) - ReachSet(g, names, y);
      Smaller(ReachSet(g, names, y), ReachSet(g, names, v));
      x := Bottom(g, names, y);
      ReachesTransitive(g, v, y, x);
    } else {
      x := v;
    }
  }

  lemma Smaller(a: set<Name>, b: set<Name>)
    requires a < b
    ensures |a| < |b|
  {
    assert b == a + (b - a);
    assert |b - a| > 0;
  }

  lemma DeclaredReaches(g: Graph, names: seq<Name>, v: Name, x: Name)
    requires Declared(g, names) && v in names && Reaches(g, v, x)
    ensures x in names
  {
    var s := set n | n in names;
    ClosedReaches(g, s, v, x);
  }

  /** Where each state has one way back, what a state without an exit settles in is a ring. */
  lemma TrapRing(g: Graph, names: seq<Name>, v: Name) returns (x: Name)
    requires v in names && Declared(g, names) && !Exits(g, v) && forall w :: w in names ==> OneWayBack(g, w)
    ensures x in names && x in ReachSet(g, names, x) && Ring(g, ReachSet(g, names, x))
  {
    x := Bottom(g, names, v);
    ReachesSelf(g, x);
    var b := ReachSet(g, names, x);
    forall y, w | y in b && w in Succ(g, y) ensures w in b {
      EdgeReaches(g, y, w);
      ReachesTransitive(g, x, y, w);
    }
    forall y, w | y in b && w in b ensures Reaches(g, y, w) { ReachesTransitive(g, y, x, w); }
    forall y | y in b ensures Succ(g, y) != [] && OneSuccessor(g, y) {
      ReachesTransitive(g, v, x, y);
      forall w, z | w in Succ(g, y) && z in Succ(g, y) ensures w == z {
        assert w in b && z in b && OneWayBack(g, y);
      }
    }
  }

  ghost predicate NoDeadEnd(g: Graph, names: seq<Name>) {
    forall c :: c in FindCycles(g, names) ==> !IsDeadEnd(g, c)
  }

  lemma TrapCaught(g: Graph, names: seq<Name>, v: Name)
    requires v in names && Declared(g, names) && !Exits(g, v) && forall w :: w in names ==> OneWayBack(g, w)
    ensures !NoDeadEnd(g, names) || exists w :: w in names && OnlyItself(g, w)
  {
    var x := TrapRing(g, names, v);
    var b := ReachSet(g, names, x);
    hide Declared, Exits, OneWayBack, ReachSet, FindCycles;
    if b == {x} {
      AloneInRing(g, x);
    } else {
      RingReported(g, names, b, x);
      var y :| y in b && y != x;
      var c :| c in FindCycles(g, names) && Covers(c, b);
      RingDead(g, b, c, x, y);
    }
  }

  lemma AloneInRing(g: Graph, x: Name)
    requires Ring(g, {x})
    ensures OnlyItself(g, x)
  {
    assert x in {x};
    forall w | w in Succ(g, x) ensures w == x { RingStep(g, {x}, x, w); }
  }

  lemma RingDead(g: Graph, b: set<Name>, c: seq<Name>, x: Name, y: Name)
    requires Ring(g, b) && Covers(c, b) && x in b && y in b && x != y
    ensures IsDeadEnd(g, c)
  {
    var i :| 0 <= i < |c| && c[i] == x;
    var j :| 0 <= j < |c| && c[j] == y;
    hide Reaches;
  }

  /** Where each state has at most one successor that leads back to it, the checks miss no trap but the
      state that leads only to itself: every declared state can reach one without successors if and only
      if no dead end is reported and there is no such state. */
  lemma TrapsFoundExactly(g: Graph, names: seq<Name>)
    requires Declared(g, names) && forall v :: v in names ==> OneWayBack(g, v)
    ensures (forall v :: v in names ==> Exits(g, v))
      <==> NoDeadEnd(g, names) && !(exists v :: v in names && OnlyItself(g, v))
  {
    if forall v :: v in names ==> Exits(g, v) {
      forall c | c in FindCycles(g, names) ensures !IsDeadEnd(g, c) { ExitNotDead(g, names, c); }
      forall v | v in names ensures !OnlyItself(g, v) { ExitNotAlone(g, v); }
    } else {
      var v :| v in names && !Exits(g, v);
      TrapCaught(g, names, v);
    }
  }

  lemma ExitNotDead(g: Graph, names: seq<Name>, c: seq<Name>)
    requires Declared(g, names) && c in FindCycles(g, names) && forall v :: v in names ==> Exits(g, v)
    ensures !IsDeadEnd(g, c)
  {
    FindCyclesExact(g, names);
    var d :| d in names && Reaches(g, d, c[0]);
    DeclaredReaches(g, names, d, c[0]);
    var x :| Reaches(g, c[0], x) && Succ(g, x) == [];
    if IsDeadEnd(g, c) {
      assert c[0] in c;
      DeadEndTraps(g, names, c, c[0], x);
    }
  }

  lemma ExitNotAlone(g: Graph, v: Name)
    requires Exits(g, v)
    ensures !OnlyItself(g, v)
  {
    var x :| Reaches(g, v, x) && Succ(g, x) == [];
    if OnlyItself(g, v) {
      ClosedReaches(g, {v}, v, x);
    }
  }

  /** The same of a definition and the dead ends that the constructor reports. */
  lemma DefinitionExits(cfg: Config)
    requires WellFormed(cfg) && forall v :: v in cfg.names ==> OneWayBack(GraphOf(cfg), v)
    requires forall t :: t in cfg.transitions ==> t.target in cfg.defs
    ensures (forall v :: v in cfg.names ==> Exits(GraphOf(cfg), v))
      <==> (forall i: Issue :: i.DeadEnd? ==> !HasIssue(cfg, i)) && !(exists v :: v in cfg.names && OnlyItself(GraphOf(cfg), v))
  {
    var g := GraphOf(cfg);
    DeclaredTargets(cfg);
    TrapsFoundExactly(g, cfg.names);
    hide GraphOf, OneWayBack, OnlyItself, FindCycles, Exits;
    if forall i: Issue :: i.DeadEnd? ==> !HasIssue(cfg, i) {
      forall c | c in FindCycles(g, cfg.names) ensures !IsDeadEnd(g, c) { assert !HasIssue(cfg, DeadEnd(c)); }
    }
  }

  lemma DeclaredTargets(cfg: Config)
    requires WellFormed(cfg) && forall t :: t in cfg.transitions ==> t.target in cfg.defs
    ensures Declared(GraphOf(cfg), cfg.names)
  {
    forall v, w | v in cfg.names && w in Succ(GraphOf(cfg), v) ensures w in cfg.names { GraphExact(cfg, v, w); }
  }

  // ---------- a run that ends, ends in a terminal state ----------

  predicate IsTerminal(cfg: Config, v: Name) {
    v in cfg.defs && cfg.defs[v].kind == Terminal
  }

  /** Some walk from v ends in a terminal state. */
  ghost predicate Ends(cfg: Config, v: Name) {
    exists x :: Reaches(GraphOf(cfg), v, x) && IsTerminal(cfg, x)
  }

  /** v has no successors and is not terminal. */
  predicate Stuck(cfg: Config, v: Name) {
    Succ(GraphOf(cfg), v) == [] && !IsTerminal(cfg, v)
  }

  lemma AcceptedFacts(cfg: Config)
    requires Accepted(cfg)
    ensures forall t :: t in cfg.transitions ==> t.target in cfg.defs
    ensures forall v :: IsTerminal(cfg, v) ==> Succ(GraphOf(cfg), v) == []
    ensures forall i: Issue :: i.DeadEnd? ==> !HasIssue(cfg, i)
  {
    hide GraphOf, WellFormed, FromInitial, FindCycles;
    forall t | t in cfg.transitions ensures t.target in cfg.defs { assert !HasIssue(cfg, UnknownTarget(t)); }
    forall v | IsTerminal(cfg, v) ensures Succ(GraphOf(cfg), v) == [] { assert !HasIssue(cfg, TerminalExit(v)); }
  }

  lemma ExitsEnds(cfg: Config, v: Name)
    requires Accepted(cfg) && v in cfg.names && forall w :: w in cfg.names ==> !Stuck(cfg, w)
    ensures Exits(GraphOf(cfg), v) ==> Ends(cfg, v)
  {
    AcceptedFacts(cfg);
    DeclaredTargets(cfg);
    hide GraphOf, HasIssue, Reaches;
    if x :| Reaches(GraphOf(cfg), v, x) && Succ(GraphOf(cfg), x) == [] {
      DeclaredReaches(GraphOf(cfg), cfg.names, v, x);
    }
  }

  lemma EndsExits(cfg: Config, v: Name)
    requires Accepted(cfg) && Ends(cfg, v)
    ensures Exits(GraphOf(cfg), v) && !Stuck(cfg, v)
  {
    AcceptedFacts(cfg);
    var x :| Reaches(GraphOf(cfg), v, x) && IsTerminal(cfg, x);
    hide GraphOf, HasIssue, Reaches, IsTerminal;
    if Succ(GraphOf(cfg), v) == [] {
      ClosedReaches(GraphOf(cfg), {v}, v, x);
    }
  }

  /** What the constructor's checks miss, where each state has one way back: a terminal state can be
      reached from every state of an accepted definition if and only if no state leads only to itself
      and no state without successors is of another kind than terminal. */
  lemma AcceptedEnds(cfg: Config)
    requires Accepted(cfg) && forall v :: v in cfg.names ==> OneWayBack(GraphOf(cfg), v)
    ensures (forall v :: v in cfg.names ==> Ends(cfg, v))
      <==> (forall v :: v in cfg.names ==> !OnlyItself(GraphOf(cfg), v) && !Stuck(cfg, v))
  {
    AcceptedFacts(cfg);
    DefinitionExits(cfg);
    hide GraphOf, HasIssue, Ends, Exits, Stuck, OnlyItself, OneWayBack;
    if forall v :: v in cfg.names ==> Ends(cfg, v) {
      forall v | v in cfg.names ensures Exits(GraphOf(cfg), v) && !Stuck(cfg, v) { EndsExits(cfg, v); }
    }
    if forall v :: v in cfg.names ==> !OnlyItself(GraphOf(cfg), v) && !Stuck(cfg, v) {
      forall v | v in cfg.names ensures Ends(cfg, v) { ExitsEnds(cfg, v); }
    }
  }

  /** Only an error or a pause can be stuck: of the other kinds the constructor asks for an exit. */
  lemma StuckKinds(cfg: Config, v: Name)
    requires Accepted(cfg) && v in cfg.names && Stuck(cfg, v)
    ensures cfg.defs[v].kind in {Error, Pause}
  {
    assert !HasIssue(cfg, NoExit(v));
  }
}
