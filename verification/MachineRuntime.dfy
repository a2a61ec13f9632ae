/** Guarded transitions at run time, and the LRU cache in front of the static queries. */
module MachineRuntime {
  import opened Options
  import opened Graphs
  import opened Machine
  import opened LtlMonitor

  datatype Verdict =
    | Allowed | UnknownFrom | UnknownTo | TerminalState | NoSuchTransition
    | HumanRequired | TooManyReentries | RuleViolated | ConditionUnmet

  function FirstMatch(ts: seq<Machine.Transition>, to: Name): Option<Machine.Transition> {
    if ts == [] then None else if ts[0].target == to then Some(ts[0]) else FirstMatch(ts[1..], to)
  }

  /** Position k holds the first transition of the list to the target. */
  predicate FirstAt(ts: seq<Machine.Transition>, to: Name, k: nat) {
    k < |ts| && ts[k].target == to && forall j :: 0 <= j < k ==> ts[j].target != to
  }

  lemma {:induction false} FirstMatchExact(ts: seq<Machine.Transition>, to: Name)
    ensures var r := FirstMatch(ts, to);
      && (r.Some? ==> exists k: nat :: FirstAt(ts, to, k) && r.value == ts[k])
      && (r.None? ==> forall t :: t in ts ==> t.target != to)
  {
    if ts != [] {
      FirstMatchExact(ts[1..], to);
      if ts[0].target == to {
        assert FirstAt(ts, to, 0);
      } else if k: nat :| FirstAt(ts[1..], to, k) {
        assert FirstAt(ts, to, k + 1);
      }
    }
  }

  /** can_transition below its cache. Without a runtime only the definition counts; `rules`
      is the monitor's answer when one is consulted, and is read before the condition. */
  function Decide(cfg: Config, holds: Meaning, from: Name, to: Name, rt: Option<Runtime>, rules: bool): Verdict {
    if from !in cfg.defs then UnknownFrom
    else if to !in cfg.defs then UnknownTo
    else if cfg.defs[from].kind == Terminal then TerminalState
    else
      var t := FirstMatch(Outgoing(cfg.transitions, from), to);
      if t.None? then NoSuchTransition
      else if t.value.requiresHuman then HumanRequired
      else if rt.None? then Allowed
      else if cfg.defs[to].maxReentries.Some? && from == to && rt.value.reentries >= cfg.defs[to].maxReentries.value
      then TooManyReentries
      else if !rules then RuleViolated
      else if t.value.condition.Some? && t.value.condition.value != "" && !holds(t.value.condition.value, rt.value)
      then ConditionUnmet
      else Allowed
  }

  /** The checks that come before the rules pass: a declared transition out of a state that is not
      terminal, which needs no human and is within its re-entries. The monitor is consulted only then. */
  predicate BeforeRules(cfg: Config, from: Name, to: Name, rt: Runtime) {
    && from in cfg.defs && to in cfg.defs && cfg.defs[from].kind != Terminal
    && var t := FirstMatch(Outgoing(cfg.transitions, from), to);
       && t.Some? && !t.value.requiresHuman
       && (cfg.defs[to].maxReentries.Some? && from == to ==> rt.reentries < cfg.defs[to].maxReentries.value)
  }

  /** An allowed transition is a declared one between declared states, and leaves a state
      that is not terminal. */
  lemma AllowedIsEdge(cfg: Config, holds: Meaning, from: Name, to: Name, rt: Option<Runtime>, rules: bool)
    requires Decide(cfg, holds, from, to, rt, rules) == Allowed
    ensures from in cfg.defs && to in cfg.defs && cfg.defs[from].kind != Terminal
    ensures to in Succ(GraphOf(cfg), from)
    ensures exists t :: t in cfg.transitions && t.source == from && t.target == to && !t.requiresHuman
  {
    var t := FirstMatch(Outgoing(cfg.transitions, from), to).value;
    FirstMatchExact(Outgoing(cfg.transitions, from), to);
    var k: nat :| FirstAt(Outgoing(cfg.transitions, from), to, k) && t == Outgoing(cfg.transitions, from)[k];
    OutgoingExact(cfg.transitions, from, t);
    GraphExact(cfg, from, to);
  }

  // ---------- the decision, from the definition ----------

  /** The first transition of the definition from one state to another. */
  predicate FirstDeclared(ts: seq<Machine.Transition>, from: Name, to: Name, i: nat) {
    && i < |ts| && ts[i].source == from && ts[i].target == to
    && forall j :: 0 <= j < i ==> !(ts[j].source == from && ts[j].target == to)
  }

  lemma {:induction false} FirstMatchConcat(a: seq<Machine.Transition>, b: seq<Machine.Transition>, to: Name)
    ensures FirstMatch(a + b, to) == if FirstMatch(a, to).Some? then FirstMatch(a, to) else FirstMatch(b, to)
  {
    if a == [] {
      assert a + b == b;
    } else {
      assert (a + b)[1..] == a[1..] + b;
      FirstMatchConcat(a[1..], b, to);
    }
  }

  /** The transition that the search finds is the first declared one. */
  lemma {:induction false} FirstMatchDeclared(ts: seq<Machine.Transition>, from: Name, to: Name)
    ensures var r := FirstMatch(Outgoing(ts, from), to);
      && (forall i: nat :: FirstDeclared(ts, from, to, i) ==> r == Some(ts[i]))
      && (r.Some? ==> exists i: nat :: FirstDeclared(ts, from, to, i))
  {
    if ts != [] {
      var n := |ts| - 1;
      var front, last := ts[..n], if ts[n].source == from then [ts[n]] else [];
      FirstMatchDeclared(front, from, to);
      FirstMatchConcat(Outgoing(front, from), last, to);
      assert FirstMatch(last, to) == if ts[n].source == from && ts[n].target == to then Some(ts[n]) else None;
      hide Outgoing, FirstMatch;
      FirstDeclaredNext(ts, from, to);
    }
  }

  lemma FirstDeclaredNext(ts: seq<Machine.Transition>, from: Name, to: Name)
    requires ts != []
    ensures var n := |ts| - 1;
      && (forall i: nat :: i < n ==> (FirstDeclared(ts, from, to, i) <==> FirstDeclared(ts[..n], from, to, i)))
      && (FirstDeclared(ts, from, to, n) <==>
            ts[n].source == from && ts[n].target == to && forall i: nat :: !FirstDeclared(ts[..n], from, to, i))
  {
    var n := |ts| - 1;
    if ts[n].source == from && ts[n].target == to && forall i: nat :: !FirstDeclared(ts[..n], from, to, i) {
      forall j | 0 <= j < n ensures !(ts[j].source == from && ts[j].target == to) {
        NoneBefore(ts[..n], from, to, j);
      }
    }
  }

  lemma {:induction false} NoneBefore(ts: seq<Machine.Transition>, from: Name, to: Name, j: nat)
    requires j < |ts| && forall i: nat :: !FirstDeclared(ts, from, to, i)
    ensures !(ts[j].source == from && ts[j].target == to)
    decreases j
  {
    forall k | 0 <= k < j ensures !(ts[k].source == from && ts[k].target == to) { NoneBefore(ts, from, to, k); }
    assert !FirstDeclared(ts, from, to, j);
  }

  /** Both states are declared and the first may be left. */
  predicate Leaves(cfg: Config, from: Name, to: Name) {
    from in cfg.defs && to in cfg.defs && cfg.defs[from].kind != Terminal
  }

  /** One more self-loop would exceed the limit of the state. */
  predicate Exhausted(cfg: Config, from: Name, to: Name, rt: Option<Runtime>) {
    && rt.Some? && from == to && to in cfg.defs && cfg.defs[to].maxReentries.Some?
    && rt.value.reentries >= cfg.defs[to].maxReentries.value
  }

  /** The condition stands in the way. */
  predicate Fails(holds: Meaning, condition: Option<string>, rt: Option<Runtime>) {
    rt.Some? && condition.Some? && condition.value != "" && !holds(condition.value, rt.value)
  }

  /** The answer, given the transition that decides. */
  ghost predicate Answered(cfg: Config, holds: Meaning, from: Name, to: Name, rt: Option<Runtime>, rules: bool, v: Verdict, i: nat)
    requires i < |cfg.transitions|
  {
    var t, over, broken := cfg.transitions[i], Exhausted(cfg, from, to, rt), rt.Some? && !rules;
    && (v == HumanRequired <==> t.requiresHuman)
    && (v == TooManyReentries <==> !t.requiresHuman && over)
    && (v == RuleViolated <==> !t.requiresHuman && !over && broken)
    && (v == ConditionUnmet <==> !t.requiresHuman && !over && !broken && Fails(holds, t.condition, rt))
    && (v == Allowed <==> !t.requiresHuman && !over && !broken && !Fails(holds, t.condition, rt))
  }

  /** The decision in terms of the definition. A transition is allowed if and only if both states are declared,
      the first is not terminal, and the first transition declared between them needs no human and, when there
      is a runtime, is within its re-entries, under the rules and with its condition missing, empty or true.
      Each refusal has its one cause, in the order of the checks. */
  lemma DecideExact(cfg: Config, holds: Meaning, from: Name, to: Name, rt: Option<Runtime>, rules: bool)
    ensures var v, ts := Decide(cfg, holds, from, to, rt, rules), cfg.transitions;
      && (v == UnknownFrom <==> from !in cfg.defs)
      && (v == UnknownTo <==> from in cfg.defs && to !in cfg.defs)
      && (v == TerminalState <==> from in cfg.defs && to in cfg.defs && cfg.defs[from].kind == Terminal)
      && (v == NoSuchTransition <==> Leaves(cfg, from, to) && forall t :: t in ts ==> !(t.source == from && t.target == to))
      && (v == Allowed ==> Leaves(cfg, from, to) && exists i: nat :: FirstDeclared(ts, from, to, i))
      && (Leaves(cfg, from, to) ==>
            forall i: nat :: FirstDeclared(ts, from, to, i) ==> Answered(cfg, holds, from, to, rt, rules, v, i))
  {
    var ts := cfg.transitions;
    FirstMatchDeclared(ts, from, to);
    SomeDeclared(ts, from, to);
    hide Outgoing, FirstMatch, FirstDeclared;
  }

  lemma SomeDeclared(ts: seq<Machine.Transition>, from: Name, to: Name)
    ensures (exists i: nat :: FirstDeclared(ts, from, to, i)) <==> exists t :: t in ts && t.source == from && t.target == to
  {
    if t :| t in ts && t.source == from && t.target == to {
      var j: nat :| j < |ts| && ts[j] == t;
      if forall i: nat :: !FirstDeclared(ts, from, to, i) { NoneBefore(ts, from, to, j); }
    }
    if i: nat :| FirstDeclared(ts, from, to, i) {
      assert ts[i] in ts;
    }
  }

  /** The monitor is consulted exactly when its answer decides. */
  lemma ConsultedExactly(cfg: Config, holds: Meaning, from: Name, to: Name, rt: Runtime)
    ensures BeforeRules(cfg, from, to, rt) <==> Decide(cfg, holds, from, to, Some(rt), false) == RuleViolated
    ensures !BeforeRules(cfg, from, to, rt) ==>
      Decide(cfg, holds, from, to, Some(rt), false) == Decide(cfg, holds, from, to, Some(rt), true)
  {
  }

  // ---------- the cache ----------

  /** The source's two kinds of key, which it builds as strings. */
  datatype Key = NextOf(s: Name) | Edge(from: Name, to: Name)

  datatype Answer = States(names: seq<Name>) | Permitted

  datatype Item = Item(key: Key, answer: Answer)

  /** What the cache must answer for a key. */
  ghost predicate Right(cfg: Config, item: Item) {
    match item.key
    case NextOf(s) => item.answer == States(Targets(Outgoing(cfg.transitions, s)))
    case Edge(a, b) => item.answer == Permitted && forall h: Meaning :: Decide(cfg, h, a, b, None, true) == Allowed
  }

  predicate Has(cache: seq<Item>, key: Key) {
    exists i :: 0 <= i < |cache| && cache[i].key == key
  }

  function Find(cache: seq<Item>, key: Key): (k: nat)
    requires Has(cache, key)
    ensures k < |cache| && cache[k].key == key
  {
    if cache[0].key == key then 0
    else
      assert Has(cache[1..], key) by {
        var i :| 0 <= i < |cache| && cache[i].key == key;
        assert cache[1..][i - 1].key == key;
      }
      1 + Find(cache[1..], key)
  }

  /** A transition checker whose cache lists the least recently used item first. */
  class StateMachine {
    const cfg: Config
    const holds: Meaning
    const capacity: nat
    var cache: seq<Item>

    ghost predicate Valid()
      reads this
    {
      && |cache| <= capacity
      && (forall i :: 0 <= i < |cache| ==> Right(cfg, cache[i]))
      && (forall i, j :: 0 <= i < j < |cache| ==> cache[i].key != cache[j].key)
    }

    constructor (cfg: Config, holds: Meaning, capacity: nat)
      ensures Valid() && this.cfg == cfg && this.holds == holds && this.capacity == capacity && cache == []
    {
      this.cfg, this.holds, this.capacity := cfg, holds, capacity;
      cache := [];
    }

    method Touch(key: Key) returns (answer: Answer)
      requires Valid() && Has(cache, key)
      modifies this
      ensures Valid() && Right(cfg, Item(key, answer))
      ensures exists k :: 0 <= k < |old(cache)| && old(cache)[k] == Item(key, answer)
                && cache == old(cache)[..k] + old(cache)[k + 1..] + [Item(key, answer)]
    {
      var k := Find(cache, key);
      answer := cache[k].answer;
      assert cache[k] == Item(key, answer);
      cache := cache[..k] + cache[k + 1..] + [cache[k]];
    }

    method Remember(item: Item)
      requires Valid() && Right(cfg, item) && !Has(cache, item.key)
      modifies this
      ensures Valid()
      ensures var all := old(cache) + [item]; cache == if |all| > capacity then all[1..] else all
    {
      cache := cache + [item];
      if |cache| > capacity {
        cache := cache[1..];
      }
    }

    /** The cached answer is the answer of the definition. */
    method NextStates(s: Name) returns (names: seq<Name>)
      requires Valid()
      modifies this
      ensures Valid() && names == Targets(Outgoing(cfg.transitions, s))
    {
      if Has(cache, NextOf(s)) {
        var answer := Touch(NextOf(s));
        return answer.names;
      }
      names := Targets(Outgoing(cfg.transitions, s));
      Remember(Item(NextOf(s), States(names)));
    }

    method CanTransitionStatic(from: Name, to: Name) returns (verdict: Verdict)
      requires Valid()
      modifies this
      ensures Valid() && verdict == Decide(cfg, holds, from, to, None, true)
    {
      if Has(cache, Edge(from, to)) {
        var _ := Touch(Edge(from, to));
        return Allowed;
      }
      verdict := Decide(cfg, holds, from, to, None, true);
      if verdict == Allowed {
        Remember(Item(Edge(from, to), Permitted));
      }
    }

    /** With a runtime the cache is not used; a self-loop that is allowed counts as a re-entry. */
    method CanTransition(from: Name, to: Name, rt: Runtime, monitor: Monitor?)
      returns (verdict: Verdict, after: Runtime)
      modifies monitor
      ensures monitor != null ==> monitor.View() == (if BeforeRules(cfg, from, to, rt)
                then Evaluate(monitor.meaning, old(monitor.View()), monitor.rules, rt).0 else old(monitor.View()))
      ensures verdict == Decide(cfg, holds, from, to, Some(rt),
                monitor == null || Evaluate(monitor.meaning, old(monitor.View()), monitor.rules, rt).1)
      ensures after == if verdict == Allowed && from == to then rt.(reentries := rt.reentries + 1) else rt
    {
      hide FirstMatch, Outgoing, Evaluate;
      after := rt;
      if from !in cfg.defs {
        return UnknownFrom, rt;
      }
      if to !in cfg.defs {
        return UnknownTo, rt;
      }
      if cfg.defs[from].kind == Terminal {
        return TerminalState, rt;
      }
      var matching := FirstMatch(Outgoing(cfg.transitions, from), to);
      if matching.None? {
        return NoSuchTransition, rt;
      }
      var t := matching.value;
      if t.requiresHuman {
        return HumanRequired, rt;
      }
      var limit := cfg.defs[to].maxReentries;
      if limit.Some? && from == to && rt.reentries >= limit.value {
        return TooManyReentries, rt;
      }
      if monitor != null {
        var ok := monitor.Call(rt);
        if !ok {
          return RuleViolated, rt;
        }
      }
      if t.condition.Some? && t.condition.value != "" && !holds(t.condition.value, rt) {
        return ConditionUnmet, rt;
      }
      if from == to {
        after := rt.(reentries := rt.reentries + 1);
      }
      return Allowed, after;
    }
  }
}
