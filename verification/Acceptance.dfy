/** Which definitions the constructor accepts, in terms of their states and transitions. */
module Acceptance {
  import opened Options
  import opened Graphs
  import opened CycleSearch
  import opened Machine

  ghost predicate Linked(ts: seq<Transition>, a: Name, b: Name) {
    exists t :: t in ts && t.source == a && t.target == b
  }

  predicate Left(ts: seq<Transition>, s: Name) {
    exists t :: t in ts && t.source == s
  }

  /** States one after the other along declared transitions. */
  ghost predicate Route(ts: seq<Transition>, p: seq<Name>) {
    p != [] && forall i :: 0 <= i < |p| - 1 ==> Linked(ts, p[i], p[i + 1])
  }

  /** A route to a state starts at an initial one. */
  ghost predicate Entered(cfg: Config, s: Name) {
    exists p :: Route(cfg.transitions, p) && p[0] in cfg.names && p[0] in cfg.defs && cfg.defs[p[0]].kind == Initial
                && p[|p| - 1] == s
  }

  /** What is asked of one state: initial and intermediate states have a way on, terminal ones have none and
      no re-entries, and all but the initial ones are entered. */
  ghost predicate StateFine(cfg: Config, s: Name)
    requires s in cfg.defs
  {
    var d := cfg.defs[s];
    && (d.kind in {Initial, Intermediate} ==> Left(cfg.transitions, s))
    && (d.kind == Terminal ==> !Left(cfg.transitions, s) && d.maxReentries == Some(0))
    && (d.kind != Initial ==> Entered(cfg, s))
  }

  /** Some transition leaves a cycle. */
  predicate WayOut(ts: seq<Transition>, c: seq<Name>) {
    exists t :: t in ts && t.source in c && t.target !in c
  }

  ghost predicate Fine(cfg: Config) {
    && (forall t :: t in cfg.transitions ==> t.source in cfg.defs && t.target in cfg.defs)
    && (forall s :: s in cfg.defs ==> StateFine(cfg, s))
    && (forall c :: c in FindCycles(GraphOf(cfg), cfg.names) && |c| > 1 ==> WayOut(cfg.transitions, c))
  }

  lemma LeftExact(cfg: Config, s: Name)
    ensures Left(cfg.transitions, s) <==> Succ(GraphOf(cfg), s) != []
  {
    forall w ensures w in Succ(GraphOf(cfg), s) <==> Linked(cfg.transitions, s, w) { GraphExact(cfg, s, w); }
    hide GraphOf;
    if t :| t in cfg.transitions && t.source == s {
      assert Linked(cfg.transitions, s, t.target);
    }
    if Succ(GraphOf(cfg), s) != [] {
      assert Succ(GraphOf(cfg), s)[0] in Succ(GraphOf(cfg), s);
    }
  }

  lemma RouteExact(cfg: Config, p: seq<Name>)
    ensures Route(cfg.transitions, p) <==> Walk(GraphOf(cfg), p)
  {
    forall a, b ensures b in Succ(GraphOf(cfg), a) <==> Linked(cfg.transitions, a, b) { GraphExact(cfg, a, b); }
    hide GraphOf, Succ, Linked;
  }

  lemma EnteredExact(cfg: Config, s: Name)
    requires WellFormed(cfg)
    ensures Entered(cfg, s) <==> FromInitial(cfg, s)
  {
    var g := GraphOf(cfg);
    forall d ensures d in OfKind(cfg, cfg.names, Initial) <==> d in cfg.names && cfg.defs[d].kind == Initial {
      OfKindExact(cfg, cfg.names, Initial, d);
    }
    forall p ensures Route(cfg.transitions, p) <==> Walk(g, p) { RouteExact(cfg, p); }
    hide GraphOf, Walk, Route, OfKind;
    if FromInitial(cfg, s) {
      var d :| d in OfKind(cfg, cfg.names, Initial) && Reaches(g, d, s);
      var p :| WalkFrom(g, p, d, s);
      assert Route(cfg.transitions, p);
    }
    if p :| Route(cfg.transitions, p) && p[0] in cfg.names && p[0] in cfg.defs && cfg.defs[p[0]].kind == Initial
            && p[|p| - 1] == s {
      assert WalkFrom(g, p, p[0], s);
    }
  }

  lemma WayOutExact(cfg: Config, c: seq<Name>)
    ensures IsDeadEnd(GraphOf(cfg), c) <==> |c| > 1 && !WayOut(cfg.transitions, c)
  {
    forall a, b ensures b in Succ(GraphOf(cfg), a) <==> Linked(cfg.transitions, a, b) { GraphExact(cfg, a, b); }
    hide GraphOf, Succ;
    if t :| t in cfg.transitions && t.source in c && t.target !in c {
      assert Linked(cfg.transitions, t.source, t.target);
    }
  }

  /** No issue names a state exactly when the state is fine. */
  lemma StateFineExact(cfg: Config, s: Name)
    requires WellFormed(cfg) && s in cfg.defs
    ensures StateFine(cfg, s) <==> forall i :: !(StateIssue(cfg, i) && i.state == s)
  {
    LeftExact(cfg, s);
    EnteredExact(cfg, s);
    forall i: Issue { StateIssueExact(cfg, i, s); }
    hide GraphOf, Left, Entered, FromInitial, StateIssue, WellFormed, Succ;
    assert !(StateIssue(cfg, NoExit(s)) && NoExit(s).state == s) || !StateFine(cfg, s);
    assert !(StateIssue(cfg, TerminalExit(s)) && TerminalExit(s).state == s) || !StateFine(cfg, s);
    assert !(StateIssue(cfg, TerminalReentries(s)) && TerminalReentries(s).state == s) || !StateFine(cfg, s);
    assert !(StateIssue(cfg, Unreachable(s)) && Unreachable(s).state == s) || !StateFine(cfg, s);
  }

  lemma AcceptedFine(cfg: Config)
    requires Accepted(cfg)
    ensures Fine(cfg)
  {
    forall s | s in cfg.defs ensures StateFine(cfg, s) {
      StateFineExact(cfg, s);
      hide StateFine, HasIssue;
      assert forall i :: StateIssue(cfg, i) ==> HasIssue(cfg, i);
    }
    forall t | t in cfg.transitions ensures t.source in cfg.defs && t.target in cfg.defs {
      hide GraphOf, FromInitial, FindCycles, IsDeadEnd, Succ;
      assert !HasIssue(cfg, UnknownTarget(t)) && !HasIssue(cfg, UnknownSource(t));
    }
    forall c | c in FindCycles(GraphOf(cfg), cfg.names) && |c| > 1 ensures WayOut(cfg.transitions, c) {
      WayOutExact(cfg, c);
      hide GraphOf, FromInitial, FindCycles, IsDeadEnd, Succ, WayOut;
      assert !HasIssue(cfg, DeadEnd(c));
    }
    hide *;
    AllFine(cfg);
  }

  lemma AllFine(cfg: Config)
    requires forall t :: t in cfg.transitions ==> t.source in cfg.defs && t.target in cfg.defs
    requires forall s :: s in cfg.defs ==> StateFine(cfg, s)
    requires forall c :: c in FindCycles(GraphOf(cfg), cfg.names) && |c| > 1 ==> WayOut(cfg.transitions, c)
    ensures Fine(cfg)
  {
    hide StateFine, WayOut, FindCycles, GraphOf;
  }

  lemma IssueOfState(cfg: Config, i: Issue)
    requires WellFormed(cfg) && (i.NoExit? || i.TerminalExit? || i.TerminalReentries? || i.Unreachable?)
    ensures HasIssue(cfg, i) <==> StateIssue(cfg, i)
  {
  }

  lemma FineNoIssue(cfg: Config, i: Issue)
    requires WellFormed(cfg) && Fine(cfg)
    ensures !HasIssue(cfg, i)
  {
    if i.DeadEnd? {
      WayOutExact(cfg, i.cycle);
      hide GraphOf, FromInitial, FindCycles, IsDeadEnd, Succ, WayOut, StateFine;
    } else if i.UnknownTarget? || i.UnknownSource? {
      hide GraphOf, FromInitial, FindCycles, IsDeadEnd, Succ, WayOut, StateFine;
    } else if i.state in cfg.defs {
      hide GraphOf, FromInitial, FindCycles, IsDeadEnd, Succ, WayOut, StateFine;
      StateFineExact(cfg, i.state);
      IssueOfState(cfg, i);
    }
  }

  /** The constructor accepts a definition if and only if both ends of every transition are declared; every
      initial and intermediate state has a way on, every terminal state has none and no re-entries; every state but
      the initial ones is entered from one; and every cycle found, of several states, has a way out. */
  lemma AcceptedExactly(cfg: Config)
    requires WellFormed(cfg)
    ensures Accepted(cfg) <==> Fine(cfg)
  {
    hide *;
    if Accepted(cfg) {
      AcceptedFine(cfg);
    }
    if Fine(cfg) {
      forall i ensures !HasIssue(cfg, i) { FineNoIssue(cfg, i); }
      NoIssues(cfg);
    }
  }

  lemma NoIssues(cfg: Config)
    requires WellFormed(cfg) && forall i :: !HasIssue(cfg, i)
    ensures Accepted(cfg)
  {
  }
}
