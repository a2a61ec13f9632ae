/** Traps: definitions that the constructor accepts although a run can get where it never ends. Each
    breaks one condition of the theorem on dead ends. */
module Traps {
  import opened Options
  import opened Graphs
  import opened CycleSearch
  import opened Machine
  import opened DeadEnds

  // ---------- two ways back ----------

  function Plainly(a: Name, b: Name): Transition { Transition(a, b, None, false) }

  /** Five names: a state `a` with a terminal state `t` ahead, and three states that only lead
      to each other. Each of the two cycles among the three leaves itself. */
  datatype Five = Five(a: Name, t: Name, b: Name, c: Name, d: Name)

  predicate Distinct(n: Five) {
    && n.a != n.t && n.a != n.b && n.a != n.c && n.a != n.d && n.t != n.b && n.t != n.c && n.t != n.d
    && n.b != n.c && n.b != n.d && n.c != n.d
  }

  function Trap(n: Five): Config {
    Config([n.a, n.t, n.b, n.c, n.d],
           map[n.a := StateDef(Initial, Some(1)), n.t := StateDef(Terminal, Some(0)),
               n.b := StateDef(Intermediate, Some(1)), n.c := StateDef(Intermediate, Some(1)),
               n.d := StateDef(Intermediate, Some(1))],
           [Plainly(n.a, n.t), Plainly(n.a, n.b), Plainly(n.b, n.c),
            Plainly(n.c, n.b), Plainly(n.c, n.d), Plainly(n.d, n.c)])
  }

  predicate TrapEdge(n: Five, v: Name, w: Name) {
    || (v == n.a && (w == n.t || w == n.b)) || (v == n.b && w == n.c)
    || (v == n.c && (w == n.b || w == n.d)) || (v == n.d && w == n.c)
  }

  ghost predicate TrapGraph(g: Graph, n: Five) {
    forall v, w :: w in Succ(g, v) <==> TrapEdge(n, v, w)
  }

  lemma TrapListed(n: Five, v: Name, w: Name)
    requires TrapEdge(n, v, w)
    ensures Plainly(v, w) in Trap(n).transitions
  {
    var ts := Trap(n).transitions;
    assert ts[0] == Plainly(n.a, n.t) && ts[1] == Plainly(n.a, n.b) && ts[2] == Plainly(n.b, n.c);
    assert ts[3] == Plainly(n.c, n.b) && ts[4] == Plainly(n.c, n.d) && ts[5] == Plainly(n.d, n.c);
  }

  lemma TrapOnly(n: Five, t: Transition)
    requires t in Trap(n).transitions
    ensures TrapEdge(n, t.source, t.target)
  {
  }

  lemma TrapEdges(n: Five)
    ensures TrapGraph(GraphOf(Trap(n)), n)
  {
    hide GraphOf, Outgoing, Targets, Succ, Trap, TrapEdge;
    forall v, w ensures w in Succ(GraphOf(Trap(n)), v) <==> TrapEdge(n, v, w) {
      GraphExact(Trap(n), v, w);
      if TrapEdge(n, v, w) { TrapListed(n, v, w); }
      if t :| t in Trap(n).transitions && t.source == v && t.target == w { TrapOnly(n, t); }
    }
  }

  lemma TrapCycleNodes(g: Graph, n: Five, cycle: seq<Name>, i: nat)
    requires Distinct(n) && TrapGraph(g, n) && SimpleCycle(g, cycle) && i < |cycle|
    ensures cycle[i] in {n.b, n.c, n.d}
  {
    hide Succ;
    var last := |cycle| - 1;
    var before := if i == 0 then cycle[last] else cycle[i - 1];
    var after := if i == last then cycle[0] else cycle[i + 1];
    assert cycle[i] in Succ(g, before) && after in Succ(g, cycle[i]);
  }

  /** Both neighbours of b on a cycle are c, so the cycle has no third state. */
  lemma TrapCycleOfB(g: Graph, n: Five, cycle: seq<Name>)
    requires Distinct(n) && TrapGraph(g, n) && SimpleCycle(g, cycle) && n.b in cycle
    ensures |cycle| <= 2
  {
    hide Succ;
    var last := |cycle| - 1;
    var k :| 0 <= k < |cycle| && cycle[k] == n.b;
    var after, before := if k == last then 0 else k + 1, if k == 0 then last else k - 1;
    assert cycle[after] in Succ(g, n.b) && n.b in Succ(g, cycle[before]);
    TrapCycleNodes(g, n, cycle, before);
    assert cycle[after] == cycle[before] == n.c;
  }

  lemma TrapClosedIsAll(g: Graph, n: Five, s: set<Name>)
    requires TrapGraph(g, n) && Closed(g, s) && s * {n.b, n.c, n.d} != {}
    ensures {n.b, n.c, n.d} <= s
  {
    hide Succ;
    assert n.c in Succ(g, n.b) && n.c in Succ(g, n.d) && n.b in Succ(g, n.c) && n.d in Succ(g, n.c);
  }

  lemma ThreeInCycle(n: Five, cycle: seq<Name>)
    requires Distinct(n) && n.b in cycle && n.c in cycle && n.d in cycle
    ensures |cycle| > 2
  {
  }

  /** No cycle of the trap is closed: a closed one would hold b, c and d. */
  lemma TrapNoDeadEnd(g: Graph, n: Five, cycle: seq<Name>)
    requires Distinct(n) && TrapGraph(g, n) && SimpleCycle(g, cycle)
    ensures !IsDeadEnd(g, cycle)
  {
    hide Succ, SimpleCycle, TrapGraph;
    assert |cycle| > 1 ==> cycle[0] in cycle && cycle[0] in {n.b, n.c, n.d} by {
      if |cycle| > 1 { TrapCycleNodes(g, n, cycle, 0); }
    }
    if IsDeadEnd(g, cycle) {
      var s := set x | x in cycle;
      assert cycle[0] in s * {n.b, n.c, n.d};
      TrapClosedIsAll(g, n, s);
      TrapCycleOfB(g, n, cycle);
      ThreeInCycle(n, cycle);
    }
  }

  lemma TrapWellFormed(n: Five)
    requires Distinct(n)
    ensures WellFormed(Trap(n))
  {
    var ns := Trap(n).names;
    assert ns[0] == n.a && ns[1] == n.t && ns[2] == n.b && ns[3] == n.c && ns[4] == n.d;
  }

  lemma TrapReachable(n: Five)
    requires Distinct(n)
    ensures WellFormed(Trap(n))
    ensures FromInitial(Trap(n), n.t) && FromInitial(Trap(n), n.b) && FromInitial(Trap(n), n.c) && FromInitial(Trap(n), n.d)
  {
    TrapWellFormed(n);
    var g := GraphOf(Trap(n));
    TrapEdges(n);
    assert n.a in OfKind(Trap(n), Trap(n).names, Initial) by {
      OfKindExact(Trap(n), Trap(n).names, Initial, n.a);
      assert Trap(n).names[0] == n.a;
    }
    hide GraphOf, OfKind, Trap, Succ, Reaches;
    EdgeReaches(g, n.a, n.t);
    EdgeReaches(g, n.a, n.b);
    EdgeReaches(g, n.b, n.c);
    EdgeReaches(g, n.c, n.d);
    ReachesTransitive(g, n.a, n.b, n.c);
    ReachesTransitive(g, n.a, n.c, n.d);
  }

  lemma TrapTransition(n: Five, t: Transition)
    requires t in Trap(n).transitions
    ensures t.source in Trap(n).defs && t.target in Trap(n).defs
  {
  }

  lemma TrapStates(n: Five, i: Issue)
    requires Distinct(n) && WellFormed(Trap(n)) && !i.DeadEnd? && !i.Unreachable?
    ensures !HasIssue(Trap(n), i)
  {
    if i.UnknownTarget? || i.UnknownSource? {
      if i.t in Trap(n).transitions { TrapTransition(n, i.t); }
    } else {
      TrapEdges(n);
      TrapExits(GraphOf(Trap(n)), n);
      hide GraphOf, Succ, TrapEdge, TrapGraph, WellFormed;
      if i.state in Trap(n).defs { TrapKinds(n, i.state); }
    }
  }

  lemma TrapKinds(n: Five, s: Name)
    requires Distinct(n) && s in Trap(n).defs
    ensures s in {n.a, n.t, n.b, n.c, n.d}
    ensures Trap(n).defs[s].kind == (if s == n.a then Initial else if s == n.t then Terminal else Intermediate)
    ensures s == n.t ==> Trap(n).defs[s].maxReentries == Some(0)
  {
  }

  lemma TrapNoIssue(n: Five, i: Issue)
    requires Distinct(n) && WellFormed(Trap(n))
    ensures !HasIssue(Trap(n), i)
  {
    if i.DeadEnd? {
      var g := GraphOf(Trap(n));
      TrapEdges(n);
      FindCyclesExact(g, Trap(n).names);
      hide GraphOf, TrapGraph, WellFormed, Trap;
      if i.cycle in FindCycles(g, Trap(n).names) { TrapNoDeadEnd(g, n, i.cycle); }
    } else if i.Unreachable? {
      TrapReachable(n);
      hide FromInitial, WellFormed;
      if i.state in Trap(n).defs { TrapKinds(n, i.state); }
    } else {
      TrapStates(n, i);
    }
  }

  lemma TrapNeverEnds(n: Five, x: Name)
    requires Distinct(n) && Reaches(GraphOf(Trap(n)), n.b, x)
    ensures x in Trap(n).defs && Trap(n).defs[x].kind != Terminal
  {
    TrapEdges(n);
    TrapClosed(GraphOf(Trap(n)), n);
    hide GraphOf, TrapGraph, Reaches;
    assert x in Trap(n).defs;
    TrapKinds(n, x);
  }

  /** The constructor accepts the trap although no run that enters it can ever end. The state c has two
      ways back. */
  lemma TrapAccepted(n: Five)
    requires Distinct(n)
    ensures Accepted(Trap(n)) && FromInitial(Trap(n), n.b) && !OneWayBack(GraphOf(Trap(n)), n.c)
    ensures forall x :: Reaches(GraphOf(Trap(n)), n.b, x) ==> x in Trap(n).defs && Trap(n).defs[x].kind != Terminal
  {
    hide GraphOf, FromInitial, Reaches, Trap, HasIssue, WellFormed;
    TrapReachable(n);
    TwoWaysBack(n);
    forall i ensures !HasIssue(Trap(n), i) { TrapNoIssue(n, i); }
    forall x | Reaches(GraphOf(Trap(n)), n.b, x) ensures x in Trap(n).defs && Trap(n).defs[x].kind != Terminal {
      TrapNeverEnds(n, x);
    }
  }

  lemma TrapExits(g: Graph, n: Five)
    requires Distinct(n) && TrapGraph(g, n)
    ensures Succ(g, n.a) != [] && Succ(g, n.b) != [] && Succ(g, n.c) != [] && Succ(g, n.d) != [] && Succ(g, n.t) == []
  {
    assert n.t in Succ(g, n.a) && n.c in Succ(g, n.b) && n.b in Succ(g, n.c) && n.c in Succ(g, n.d);
    HasFirst(Succ(g, n.t));
  }

  lemma HasFirst(s: seq<Name>)
    ensures s != [] ==> exists w :: w in s
  {
    if s != [] { assert s[0] in s; }
  }

  lemma TrapClosed(g: Graph, n: Five)
    requires Distinct(n) && TrapGraph(g, n)
    ensures forall x :: Reaches(g, n.b, x) ==> x in {n.b, n.c, n.d}
  {
    forall x | Reaches(g, n.b, x) ensures x in {n.b, n.c, n.d} { ClosedReaches(g, {n.b, n.c, n.d}, n.b, x); }
  }

  lemma TwoWaysBack(n: Five)
    requires Distinct(n)
    ensures !OneWayBack(GraphOf(Trap(n)), n.c)
  {
    var g := GraphOf(Trap(n));
    TrapEdges(n);
    hide GraphOf, Trap, Succ;
    EdgeReaches(g, n.b, n.c);
    EdgeReaches(g, n.d, n.c);
    assert n.b in Succ(g, n.c) && n.d in Succ(g, n.c);
  }

  // ---------- a state that leads only to itself ----------

  /** An initial state, a terminal state ahead of it, and a state that leads only to itself. */
  function Loop(a: Name, t: Name, b: Name): Config {
    Config([a, t, b],
           map[a := StateDef(Initial, Some(1)), t := StateDef(Terminal, Some(0)), b := StateDef(Intermediate, Some(1))],
           [Plainly(a, t), Plainly(a, b), Plainly(b, b)])
  }

  predicate Three(a: Name, t: Name, b: Name) {
    a != t && a != b && t != b
  }

  ghost predicate LoopGraph(g: Graph, a: Name, t: Name, b: Name) {
    forall v, w :: w in Succ(g, v) <==> (v == a && (w == t || w == b)) || (v == b && w == b)
  }

  lemma LoopEdges(a: Name, t: Name, b: Name)
    ensures LoopGraph(GraphOf(Loop(a, t, b)), a, t, b)
  {
    var ts := Loop(a, t, b).transitions;
    assert ts[0] == Plainly(a, t) && ts[1] == Plainly(a, b) && ts[2] == Plainly(b, b);
    hide GraphOf, Outgoing, Targets, Succ;
    forall v, w ensures w in Succ(GraphOf(Loop(a, t, b)), v) <==> (v == a && (w == t || w == b)) || (v == b && w == b) {
      GraphExact(Loop(a, t, b), v, w);
    }
  }

  lemma LoopWellFormed(a: Name, t: Name, b: Name)
    requires Three(a, t, b)
    ensures WellFormed(Loop(a, t, b))
  {
    var ns := Loop(a, t, b).names;
    assert ns[0] == a && ns[1] == t && ns[2] == b;
  }

  lemma LoopReachable(a: Name, t: Name, b: Name)
    requires Three(a, t, b)
    ensures WellFormed(Loop(a, t, b)) && FromInitial(Loop(a, t, b), t) && FromInitial(Loop(a, t, b), b)
  {
    LoopWellFormed(a, t, b);
    LoopEdges(a, t, b);
    var cfg := Loop(a, t, b);
    var g := GraphOf(cfg);
    OfKindExact(cfg, cfg.names, Initial, a);
    assert cfg.names[0] == a;
    hide GraphOf, OfKind, Succ, Reaches;
    EdgeReaches(g, a, t);
    EdgeReaches(g, a, b);
  }

  /** Every state on a cycle is b. */
  lemma LoopCycle(g: Graph, a: Name, t: Name, b: Name, c: seq<Name>)
    requires Three(a, t, b) && LoopGraph(g, a, t, b) && SimpleCycle(g, c)
    ensures |c| <= 1
  {
    hide Succ;
    forall i | 0 <= i < |c| ensures c[i] == b {
      var before := if i == 0 then c[|c| - 1] else c[i - 1];
      var after := if i == |c| - 1 then c[0] else c[i + 1];
      assert c[i] in Succ(g, before) && after in Succ(g, c[i]);
    }
    if |c| > 1 {
      AllSame(c, b);
    }
  }

  lemma AllSame(c: seq<Name>, b: Name)
    requires |c| > 1 && forall i :: 0 <= i < |c| ==> c[i] == b
    ensures !NoDup(c)
  {
    assert c[0] == c[1];
  }

  lemma LoopStates(a: Name, t: Name, b: Name, i: Issue)
    requires Three(a, t, b) && WellFormed(Loop(a, t, b)) && !i.DeadEnd? && !i.Unreachable?
    ensures !HasIssue(Loop(a, t, b), i)
  {
    var g := GraphOf(Loop(a, t, b));
    LoopEdges(a, t, b);
    HasFirst(Succ(g, t));
    assert t in Succ(g, a) && b in Succ(g, b);
    hide GraphOf, Succ, WellFormed, LoopGraph;
  }

  lemma LoopNoIssue(a: Name, t: Name, b: Name, i: Issue)
    requires Three(a, t, b) && WellFormed(Loop(a, t, b))
    ensures !HasIssue(Loop(a, t, b), i)
  {
    var g := GraphOf(Loop(a, t, b));
    if i.DeadEnd? {
      LoopEdges(a, t, b);
      FindCyclesExact(g, Loop(a, t, b).names);
      hide GraphOf, LoopGraph, WellFormed, Loop;
      if i.cycle in FindCycles(g, Loop(a, t, b).names) { LoopCycle(g, a, t, b, i.cycle); }
    } else if i.Unreachable? {
      LoopReachable(a, t, b);
      hide FromInitial, WellFormed;
    } else {
      LoopStates(a, t, b, i);
    }
  }

  /** The constructor accepts this too, since it only looks at cycles of more than one state: each state
      has one way back, but b leads only to itself. */
  lemma LoopAccepted(a: Name, t: Name, b: Name)
    requires Three(a, t, b)
    ensures Accepted(Loop(a, t, b)) && FromInitial(Loop(a, t, b), b) && OnlyItself(GraphOf(Loop(a, t, b)), b)
    ensures forall v :: v in Loop(a, t, b).names ==> OneWayBack(GraphOf(Loop(a, t, b)), v)
    ensures forall x :: Reaches(GraphOf(Loop(a, t, b)), b, x) ==> x == b
  {
    var g := GraphOf(Loop(a, t, b));
    LoopReachable(a, t, b);
    LoopEdges(a, t, b);
    forall i ensures !HasIssue(Loop(a, t, b), i) { LoopNoIssue(a, t, b, i); }
    hide GraphOf, FromInitial, HasIssue, WellFormed;
    assert b in Succ(g, b);
    hide Succ;
    forall x | Reaches(g, b, x) ensures x == b { ClosedReaches(g, {b}, b, x); }
    assert !Reaches(g, t, a) by { if Reaches(g, t, a) { ClosedReaches(g, {t}, t, a); } }
    assert !Reaches(g, b, a);
    forall v | v in Loop(a, t, b).names ensures OneWayBack(g, v) { assert v in {a, t, b}; }
  }

  // ---------- a pause without a way on ----------

  /** An initial state, a terminal state ahead of it, and a pause that nothing leads out of. */
  function Halt(a: Name, t: Name, b: Name): Config {
    Config([a, t, b],
           map[a := StateDef(Initial, Some(1)), t := StateDef(Terminal, Some(0)), b := StateDef(Pause, Some(1))],
           [Plainly(a, t), Plainly(a, b)])
  }

  ghost predicate HaltGraph(g: Graph, a: Name, t: Name, b: Name) {
    forall v, w :: w in Succ(g, v) <==> v == a && (w == t || w == b)
  }

  lemma HaltEdges(a: Name, t: Name, b: Name)
    ensures HaltGraph(GraphOf(Halt(a, t, b)), a, t, b)
  {
    var ts := Halt(a, t, b).transitions;
    assert ts[0] == Plainly(a, t) && ts[1] == Plainly(a, b);
    hide GraphOf, Outgoing, Targets, Succ;
    forall v, w ensures w in Succ(GraphOf(Halt(a, t, b)), v) <==> v == a && (w == t || w == b) {
      GraphExact(Halt(a, t, b), v, w);
    }
  }

  lemma HaltReachable(a: Name, t: Name, b: Name)
    requires Three(a, t, b)
    ensures WellFormed(Halt(a, t, b)) && FromInitial(Halt(a, t, b), t) && FromInitial(Halt(a, t, b), b)
  {
    var cfg := Halt(a, t, b);
    var g := GraphOf(cfg);
    assert cfg.names[0] == a && cfg.names[1] == t && cfg.names[2] == b;
    HaltEdges(a, t, b);
    OfKindExact(cfg, cfg.names, Initial, a);
    hide GraphOf, OfKind, Succ, Reaches;
    EdgeReaches(g, a, t);
    EdgeReaches(g, a, b);
  }

  /** Nothing leads back to a, so there is no cycle at all. */
  lemma HaltNoCycle(g: Graph, a: Name, t: Name, b: Name, c: seq<Name>)
    requires Three(a, t, b) && HaltGraph(g, a, t, b)
    ensures !SimpleCycle(g, c)
  {
    if SimpleCycle(g, c) {
      hide Succ;
      InsideCycle(g, c);
    }
  }

  lemma InsideCycle(g: Graph, c: seq<Name>)
    requires SimpleCycle(g, c)
    ensures exists u, v, w :: v in Succ(g, u) && w in Succ(g, v)
  {
    var next := if |c| == 1 then c[0] else c[1];
    assert c[0] in Succ(g, c[|c| - 1]) && next in Succ(g, c[0]);
  }

  lemma HaltStates(a: Name, t: Name, b: Name, i: Issue)
    requires Three(a, t, b) && WellFormed(Halt(a, t, b)) && !i.DeadEnd? && !i.Unreachable?
    ensures !HasIssue(Halt(a, t, b), i)
  {
    var g := GraphOf(Halt(a, t, b));
    HaltEdges(a, t, b);
    HasFirst(Succ(g, t));
    assert t in Succ(g, a);
    hide GraphOf, Succ, WellFormed, HaltGraph;
  }

  lemma HaltNoIssue(a: Name, t: Name, b: Name, i: Issue)
    requires Three(a, t, b) && WellFormed(Halt(a, t, b))
    ensures !HasIssue(Halt(a, t, b), i)
  {
    var g := GraphOf(Halt(a, t, b));
    if i.DeadEnd? {
      HaltEdges(a, t, b);
      FindCyclesExact(g, Halt(a, t, b).names);
      hide GraphOf, HaltGraph, WellFormed, Halt;
      HaltNoCycle(g, a, t, b, i.cycle);
    } else if i.Unreachable? {
      HaltReachable(a, t, b);
      hide FromInitial, WellFormed;
    } else {
      HaltStates(a, t, b, i);
    }
  }

  lemma HaltOneWay(g: Graph, a: Name, t: Name, b: Name, v: Name)
    requires Three(a, t, b) && HaltGraph(g, a, t, b)
    ensures OneWayBack(g, v) && !OnlyItself(g, v)
  {
    hide Succ;
    HasFirst(Succ(g, v));
    forall w | w in Succ(g, v) ensures w != v && !Reaches(g, w, v) {
      if Reaches(g, w, v) { ClosedReaches(g, {w}, w, v); }
    }
  }

  /** The constructor accepts this as well: it asks for exits of initial and intermediate states only.
      Each state has one way back and none leads only to itself, but no terminal state can be reached
      from the pause. */
  lemma HaltAccepted(a: Name, t: Name, b: Name)
    requires Three(a, t, b)
    ensures Accepted(Halt(a, t, b)) && FromInitial(Halt(a, t, b), b)
    ensures forall v :: OneWayBack(GraphOf(Halt(a, t, b)), v) && !OnlyItself(GraphOf(Halt(a, t, b)), v)
    ensures Stuck(Halt(a, t, b), b) && !Ends(Halt(a, t, b), b)
  {
    var cfg := Halt(a, t, b);
    HaltReachable(a, t, b);
    forall i ensures !HasIssue(cfg, i) { HaltNoIssue(a, t, b, i); }
    HaltEdges(a, t, b);
    hide GraphOf, FromInitial, HasIssue, WellFormed, OneWayBack, OnlyItself;
    forall v ensures OneWayBack(GraphOf(cfg), v) && !OnlyItself(GraphOf(cfg), v) { HaltOneWay(GraphOf(cfg), a, t, b, v); }
    HasFirst(Succ(GraphOf(cfg), b));
    assert Stuck(cfg, b);
    hide Halt;
    if Ends(cfg, b) { EndsExits(cfg, b); }
  }
}
