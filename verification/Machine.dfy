/** State machine definitions: the transition map, reachability and the checks that the
    constructor makes before it accepts a definition. */
module Machine {
  import opened Options
  import opened Graphs
  import opened CycleSearch

  datatype StateType = Initial | Intermediate | Terminal | Error | Pause

  datatype StateDef = StateDef(kind: StateType, maxReentries: Option<int>)

  /** A condition is kept as its text; what it means is given where it is evaluated. */
  datatype Transition = Transition(source: Name, target: Name, condition: Option<string>, requiresHuman: bool)

  /** `names` lists the declared states in the order of the definition. */
  datatype Config = Config(names: seq<Name>, defs: map<Name, StateDef>, transitions: seq<Transition>)

  ghost predicate WellFormed(cfg: Config) {
    NoDup(cfg.names) && forall s :: s in cfg.names <==> s in cfg.defs
  }

  /** The transitions out of a state, in the order of the definition. */
  function Outgoing(ts: seq<Transition>, s: Name): seq<Transition> {
    if ts == [] then []
    else Outgoing(ts[..|ts| - 1], s) + if ts[|ts| - 1].source == s then [ts[|ts| - 1]] else []
  }

  lemma {:induction false} OutgoingExact(ts: seq<Transition>, s: Name, t: Transition)
    ensures t in Outgoing(ts, s) <==> t in ts && t.source == s
  {
    if ts != [] {
      OutgoingExact(ts[..|ts| - 1], s, t);
      assert ts == ts[..|ts| - 1] + [ts[|ts| - 1]];
    }
  }

  /** The transitions out of a state keep their order: each stands behind those declared before it. */
  lemma {:induction false} OutgoingAt(ts: seq<Transition>, s: Name, i: nat)
    requires i < |ts| && ts[i].source == s
    ensures var k := |Outgoing(ts[..i], s)|; k < |Outgoing(ts, s)| && Outgoing(ts, s)[k] == ts[i]
  {
    var n := |ts| - 1;
    if i < n {
      OutgoingAt(ts[..n], s, i);
      assert ts[..n][..i] == ts[..i];
    }
  }

  function Targets(ts: seq<Transition>): seq<Name> {
    seq(|ts|, i requires 0 <= i < |ts| => ts[i].target)
  }

  /** The states with outgoing transitions, and where these lead. */
  function GraphOf(cfg: Config): (g: Graph) {
    map s | s in (set t | t in cfg.transitions :: t.source) :: Targets(Outgoing(cfg.transitions, s))
  }

  /** The edges are the transitions. */
  lemma GraphExact(cfg: Config, v: Name, w: Name)
    ensures w in Succ(GraphOf(cfg), v) <==> exists t :: t in cfg.transitions && t.source == v && t.target == w
    ensures Succ(GraphOf(cfg), v) == Targets(Outgoing(cfg.transitions, v))
  {
    forall t ensures t in Outgoing(cfg.transitions, v) <==> t in cfg.transitions && t.source == v {
      OutgoingExact(cfg.transitions, v, t);
    }
    var out := Outgoing(cfg.transitions, v);
    assert out != [] ==> out[0] in out;
    if w in Succ(GraphOf(cfg), v) {
      var i :| 0 <= i < |out| && Targets(out)[i] == w;
      assert out[i] in cfg.transitions && out[i].source == v && out[i].target == w;
    }
    if t :| t in cfg.transitions && t.source == v && t.target == w {
      var i :| 0 <= i < |out| && out[i] == t;
      assert Targets(out)[i] == w;
    }
  }

  function OfKind(cfg: Config, names: seq<Name>, kind: StateType): seq<Name>
    requires forall s :: s in names ==> s in cfg.defs
  {
    if names == [] then []
    else (if cfg.defs[names[0]].kind == kind then [names[0]] else []) + OfKind(cfg, names[1..], kind)
  }

  lemma {:induction false} OfKindExact(cfg: Config, names: seq<Name>, kind: StateType, s: Name)
    requires forall x :: x in names ==> x in cfg.defs
    ensures s in OfKind(cfg, names, kind) <==> s in names && cfg.defs[s].kind == kind
  {
    if names != [] {
      OfKindExact(cfg, names[1..], kind, s);
    }
  }

  /** The first state of a kind is the first one listed. */
  lemma {:induction false} OfKindFirst(cfg: Config, names: seq<Name>, kind: StateType, i: nat)
    requires (forall x :: x in names ==> x in cfg.defs) && i < |names| && cfg.defs[names[i]].kind == kind
    requires forall j :: 0 <= j < i ==> cfg.defs[names[j]].kind != kind
    ensures OfKind(cfg, names, kind) != [] && OfKind(cfg, names, kind)[0] == names[i]
  {
    if i > 0 {
      OfKindFirst(cfg, names[1..], kind, i - 1);
    }
  }

  // ---------- validation ----------

  datatype Issue =
    | NoExit(state: Name)
    | TerminalExit(state: Name)
    | TerminalReentries(state: Name)
    | DeadEnd(cycle: seq<Name>)
    | Unreachable(state: Name)
    | UnknownTarget(t: Transition)
    | UnknownSource(t: Transition)

  /** What the constructor raises an error for; missing max_reentries is only a warning. */
  ghost predicate HasIssue(cfg: Config, i: Issue)
    requires WellFormed(cfg)
  {
    var g := GraphOf(cfg);
    match i
    case NoExit(s) => s in cfg.defs && cfg.defs[s].kind in {Initial, Intermediate} && Succ(g, s) == []
    case TerminalExit(s) => s in cfg.defs && cfg.defs[s].kind == Terminal && Succ(g, s) != []
    case TerminalReentries(s) => s in cfg.defs && cfg.defs[s].kind == Terminal && cfg.defs[s].maxReentries != Some(0)
    case DeadEnd(c) => c in FindCycles(g, cfg.names) && IsDeadEnd(g, c)
    case Unreachable(s) => s in cfg.defs && cfg.defs[s].kind != Initial && !FromInitial(cfg, s)
    case UnknownTarget(t) => t in cfg.transitions && t.target !in cfg.defs
    case UnknownSource(t) => t in cfg.transitions && t.source !in cfg.defs
  }

  ghost predicate FromInitial(cfg: Config, s: Name)
    requires WellFormed(cfg)
  {
    ReachedFrom(GraphOf(cfg), OfKind(cfg, cfg.names, Initial), s)
  }

  ghost predicate Accepted(cfg: Config) {
    WellFormed(cfg) && forall i :: !HasIssue(cfg, i)
  }

  class StateMachineCompiler {
    const cfg: Config
    var edges: map<Name, seq<Transition>>

    ghost predicate Valid()
      reads this
    {
      WellFormed(cfg) && Built(edges, cfg.transitions)
    }

    static ghost predicate Built(edges: map<Name, seq<Transition>>, ts: seq<Transition>) {
      && (forall s :: s in edges ==> edges[s] == Outgoing(ts, s))
      && (forall s :: s !in edges ==> Outgoing(ts, s) == [])
    }

    static lemma BuiltStep(edges: map<Name, seq<Transition>>, ts: seq<Transition>, t: Transition)
      requires Built(edges, ts)
      ensures Built(edges[t.source := (if t.source in edges then edges[t.source] else []) + [t]], ts + [t])
    {
      assert (ts + [t])[..|ts|] == ts;
    }

    constructor (cfg: Config)
      requires WellFormed(cfg)
      ensures Valid() && this.cfg == cfg
    {
      this.cfg := cfg;
      edges := map[];
      new;
      for i := 0 to |cfg.transitions|
        invariant Built(edges, cfg.transitions[..i])
      {
        var t := cfg.transitions[i];
        BuiltStep(edges, cfg.transitions[..i], t);
        assert cfg.transitions[..i + 1] == cfg.transitions[..i] + [t];
        edges := edges[t.source := (if t.source in edges then edges[t.source] else []) + [t]];
      }
      assert cfg.transitions[..|cfg.transitions|] == cfg.transitions;
    }

    function Edges(s: Name): (ts: seq<Transition>)
      requires Valid()
      reads this
      ensures ts == Outgoing(cfg.transitions, s)
    {
      if s in edges then edges[s] else []
    }

    /** Breadth-first search from the initial states. */
    method FindReachable() returns (reachable: set<Name>)
      requires Valid()
      ensures forall s :: s in reachable <==> FromInitial(cfg, s)
    {
      var initials := OfKind(cfg, cfg.names, Initial);
      reachable := {};
      var queue := initials;
      SearchStarts(cfg);
      hide FromInitial, GraphOf, Outgoing, Targets, SearchOk, Candidates, OfKind, WellFormed, Built;
      while queue != []
        invariant SearchOk(cfg, reachable, queue)
        decreases Candidates(cfg) - reachable, |queue|
      {
        var current := queue[0];
        ghost var before := queue;
        queue := queue[1..];
        if current in reachable {
          SearchSkip(cfg, reachable, before);
          continue;
        }
        var out := Edges(current);
        queue := Enqueue(queue, out, reachable + {current});
        SearchStep(cfg, reachable, before, current, queue);
        reachable := reachable + {current};
      }
      SearchEnds(cfg, reachable);
    }

    /** The loop over the transitions out of the state just found. */
    static method Enqueue(queue: seq<Name>, out: seq<Transition>, reachable: set<Name>) returns (longer: seq<Name>)
      ensures forall s :: s in queue ==> s in longer
      ensures forall s :: s in longer ==> s in queue || s in Targets(out)
      ensures forall s :: s in Targets(out) ==> s in reachable || s in longer
    {
      longer := queue;
      for i := 0 to |out|
        invariant queue <= longer
        invariant forall s :: s in longer ==> s in queue || s in Targets(out)
        invariant forall j :: 0 <= j < i ==> out[j].target in reachable || out[j].target in longer
      {
        assert Targets(out)[i] == out[i].target;
        if out[i].target !in reachable {
          longer := longer + [out[i].target];
        }
      }
    }

    /** All errors: of single states, of cycles, of transitions. */
    method Validate() returns (issues: seq<Issue>)
      requires Valid()
      ensures forall i :: i in issues <==> HasIssue(cfg, i)
    {
      var states := ValidateStates();
      var cycles := ValidateCycleExits();
      var ends := ValidateTransitionTargets();
      issues := states + cycles + ends;
    }

    method ValidateStates() returns (issues: seq<Issue>)
      requires Valid()
      ensures forall i :: i in issues <==> StateIssue(cfg, i)
    {
      var reachable := FindReachable();
      issues := [];
      for k := 0 to |cfg.names|
        invariant forall i :: i in issues <==> StateIssue(cfg, i) && i.state in cfg.names[..k]
      {
        var s := cfg.names[k];
        assert cfg.names[..k + 1] == cfg.names[..k] + [s];
        var found := ValidateState(s, reachable);
        issues := issues + found;
      }
      assert cfg.names[..|cfg.names|] == cfg.names;
    }

    method ValidateState(s: Name, reachable: set<Name>) returns (issues: seq<Issue>)
      requires Valid() && s in cfg.defs && (s in reachable <==> FromInitial(cfg, s))
      ensures forall i :: i in issues <==> StateIssue(cfg, i) && i.state == s
    {
      var d := cfg.defs[s];
      var exits := Edges(s);
      GraphExact(cfg, s, s);
      assert |Targets(exits)| == |exits|;
      assert WellFormed(cfg) && (exits == [] <==> Succ(GraphOf(cfg), s) == []);
      StateIssuesExact(cfg, s);
      hide *;
      issues := [];
      if d.kind in {Initial, Intermediate} && exits == [] {
        issues := issues + [NoExit(s)];
      }
      if d.kind == Terminal && exits != [] {
        issues := issues + [TerminalExit(s)];
      }
      if d.kind == Terminal && d.maxReentries != Some(0) {
        issues := issues + [TerminalReentries(s)];
      }
      if d.kind != Initial && s !in reachable {
        issues := issues + [Unreachable(s)];
      }
    }

    method ValidateCycleExits() returns (issues: seq<Issue>)
      requires Valid()
      ensures forall i :: i in issues <==> i.DeadEnd? && HasIssue(cfg, i)
    {
      var g := GraphOf(cfg);
      var finder := new CycleFinder();
      var cycles := finder.FindAll(g, cfg.names);
      issues := [];
      for k := 0 to |cycles|
        invariant forall i :: i in issues <==> i.DeadEnd? && i.cycle in cycles[..k] && IsDeadEnd(g, i.cycle)
      {
        assert cycles[..k + 1] == cycles[..k] + [cycles[k]];
        if IsDeadEnd(g, cycles[k]) {
          issues := issues + [DeadEnd(cycles[k])];
        }
      }
      assert cycles[..|cycles|] == cycles;
    }

    method ValidateTransitionTargets() returns (issues: seq<Issue>)
      requires Valid()
      ensures forall i :: i in issues <==> (i.UnknownTarget? || i.UnknownSource?) && HasIssue(cfg, i)
    {
      assert WellFormed(cfg);
      hide WellFormed, GraphOf, FindCycles, FromInitial, Built;
      issues := [];
      for k := 0 to |cfg.transitions|
        invariant forall i :: i in issues <==>
          (i.UnknownTarget? || i.UnknownSource?) && HasIssue(cfg, i) && i.t in cfg.transitions[..k]
      {
        var t := cfg.transitions[k];
        assert cfg.transitions[..k + 1] == cfg.transitions[..k] + [t];
        if t.target !in cfg.defs {
          issues := issues + [UnknownTarget(t)];
        }
        if t.source !in cfg.defs {
          issues := issues + [UnknownSource(t)];
        }
      }
      assert cfg.transitions[..|cfg.transitions|] == cfg.transitions;
    }
  }

  ghost predicate StateIssue(cfg: Config, i: Issue)
    requires WellFormed(cfg)
  {
    (i.NoExit? || i.TerminalExit? || i.TerminalReentries? || i.Unreachable?) && HasIssue(cfg, i)
  }

  lemma StateIssueExact(cfg: Config, i: Issue, s: Name)
    requires WellFormed(cfg) && s in cfg.defs
    ensures (StateIssue(cfg, i) && i.state == s) <==>
      var (d, exits) := (cfg.defs[s], Succ(GraphOf(cfg), s));
      || (i == NoExit(s) && d.kind in {Initial, Intermediate} && exits == [])
      || (i == TerminalExit(s) && d.kind == Terminal && exits != [])
      || (i == TerminalReentries(s) && d.kind == Terminal && d.maxReentries != Some(0))
      || (i == Unreachable(s) && d.kind != Initial && !FromInitial(cfg, s))
  {
    hide GraphOf, FromInitial, WellFormed, FindCycles;
  }

  /** The same of all issues of a state, as a list. */
  lemma StateIssuesExact(cfg: Config, s: Name)
    requires WellFormed(cfg) && s in cfg.defs
    ensures var (d, exits) := (cfg.defs[s], Succ(GraphOf(cfg), s));
      forall i :: (StateIssue(cfg, i) && i.state == s) <==>
        i in (if d.kind in {Initial, Intermediate} && exits == [] then [NoExit(s)] else [])
             + (if d.kind == Terminal && exits != [] then [TerminalExit(s)] else [])
             + (if d.kind == Terminal && d.maxReentries != Some(0) then [TerminalReentries(s)] else [])
             + (if d.kind != Initial && !FromInitial(cfg, s) then [Unreachable(s)] else [])
  {
    forall i: Issue { StateIssueExact(cfg, i, s); }
    hide *;
  }

  lemma StepReached(cfg: Config, v: Name, w: Name)
    requires WellFormed(cfg) && FromInitial(cfg, v) && w in Targets(Outgoing(cfg.transitions, v))
    ensures FromInitial(cfg, w) && w in Candidates(cfg)
  {
    var g := GraphOf(cfg);
    GraphExact(cfg, v, w);
    EdgeReaches(g, v, w);
    var d :| d in OfKind(cfg, cfg.names, Initial) && Reaches(g, d, v);
    ReachesTransitive(g, d, v, w);
  }

  function Candidates(cfg: Config): set<Name>
    requires WellFormed(cfg)
  {
    (set s | s in OfKind(cfg, cfg.names, Initial)) + (set t | t in cfg.transitions :: t.target)
  }

  /** Everything found or waiting can be reached; an initial state, or a successor of a
      found one, is found or waiting. */
  ghost predicate SearchOk(cfg: Config, found: set<Name>, waiting: seq<Name>)
    requires WellFormed(cfg)
  {
    && (forall s :: s in waiting || s in found ==> s in Candidates(cfg) && FromInitial(cfg, s))
    && (forall s :: s in OfKind(cfg, cfg.names, Initial) ==> s in found || s in waiting)
    && (forall v, w :: v in found && w in Succ(GraphOf(cfg), v) ==> w in found || w in waiting)
  }

  lemma SearchStep(cfg: Config, found: set<Name>, before: seq<Name>, current: Name, after: seq<Name>)
    requires WellFormed(cfg) && SearchOk(cfg, found, before) && before != [] && before[0] == current
    requires forall s :: s in before[1..] ==> s in after
    requires var out := Targets(Outgoing(cfg.transitions, current));
      && (forall s :: s in after ==> s in before[1..] || s in out)
      && (forall s :: s in out ==> s in found + {current} || s in after)
    ensures SearchOk(cfg, found + {current}, after) && current in Candidates(cfg)
  {
    var out := Targets(Outgoing(cfg.transitions, current));
    assert before == [current] + before[1..];
    GraphExact(cfg, current, current);
    hide GraphOf, Outgoing, Targets, FromInitial, Candidates, Succ;
    forall s | s in out ensures s in Candidates(cfg) && FromInitial(cfg, s) { StepReached(cfg, current, s); }
  }

  lemma SearchStarts(cfg: Config)
    requires WellFormed(cfg)
    ensures SearchOk(cfg, {}, OfKind(cfg, cfg.names, Initial))
  {
    forall s | s in OfKind(cfg, cfg.names, Initial) ensures FromInitial(cfg, s) { ReachesSelf(GraphOf(cfg), s); }
  }

  lemma SearchSkip(cfg: Config, found: set<Name>, waiting: seq<Name>)
    requires WellFormed(cfg) && SearchOk(cfg, found, waiting) && waiting != [] && waiting[0] in found
    ensures SearchOk(cfg, found, waiting[1..])
  {
    assert waiting == [waiting[0]] + waiting[1..];
  }

  lemma SearchEnds(cfg: Config, found: set<Name>)
    requires WellFormed(cfg) && SearchOk(cfg, found, [])
    ensures forall s :: s in found <==> FromInitial(cfg, s)
  {
    forall s | FromInitial(cfg, s) ensures s in found {
      var d :| d in OfKind(cfg, cfg.names, Initial) && Reaches(GraphOf(cfg), d, s);
      ClosedReaches(GraphOf(cfg), found, d, s);
    }
  }
}
