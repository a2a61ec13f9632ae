/** The incremental monitor of temporal rules, and what it decides over a sequence of calls. */
module LtlMonitor {

  type Condition = string

  /** The run-time values conditions are about. */
  datatype Runtime = Runtime(
    reentries: int, iterations: int, drift: int, failures: int, total: int, approved: bool,
    changesRequested: bool, manualUnblock: bool, abandoned: bool)

  /** What a single condition says about a runtime. */
  type Meaning = (Condition, Runtime) -> bool

  datatype Rule =
    | Always(c: Condition)
    | Eventually(c: Condition)
    | Next(c: Condition)
    | Until(a: Condition, b: Condition)
    | Plain(c: Condition)

  /** The history dictionary: accumulators, conditions due at the next call, and the until
      rules whose second part has held. */
  datatype History = History(
    seen: seq<Runtime>, always: map<Condition, bool>, eventually: map<Condition, bool>,
    pending: seq<Condition>, satisfied: set<(Condition, Condition)>)

  const EMPTY: History := History([], map[], map[], [], {})

  function CheckRule(m: Meaning, h: History, rule: Rule, now: Runtime): (History, bool) {
    match rule
    case Always(c) =>
      var value := m(c, now) && (c in h.always ==> h.always[c]);
      (h.(always := h.always[c := value]), value)
    case Eventually(c) =>
      (h.(eventually := h.eventually[c := m(c, now) || (c in h.eventually && h.eventually[c])]), true)
    case Next(c) => (h.(pending := h.pending + [c]), true)
    case Until(a, b) =>
      if (a, b) in h.satisfied then (h, true)
      else if m(b, now) then (h.(satisfied := h.satisfied + {(a, b)}), true)
      else (h, m(a, now))
    case Plain(c) => (h, m(c, now))
  }

  /** The rule loop, which stops at the first violation. */
  function CheckRules(m: Meaning, h: History, rules: seq<Rule>, now: Runtime): (History, bool)
    decreases |rules|
  {
    if rules == [] then (h, true)
    else
      var (next, ok) := CheckRule(m, h, rules[0], now);
      if ok then CheckRules(m, next, rules[1..], now) else (next, false)
  }

  function Due(m: Meaning, pending: seq<Condition>, now: Runtime): bool {
    forall c :: c in pending ==> m(c, now)
  }

  function Evaluate(m: Meaning, h: History, rules: seq<Rule>, now: Runtime): (History, bool) {
    if rules == [] then (h, true)
    else
      var noted := h.(seen := h.seen + [now]);
      if !Due(m, h.pending, now) then (noted, false)
      else CheckRules(m, noted.(pending := []), rules, now)
  }

  class Monitor {
    const rules: seq<Rule>
    const meaning: Meaning
    var seen: seq<Runtime>
    var always: map<Condition, bool>
    var eventually: map<Condition, bool>
    var pending: seq<Condition>
    var satisfied: set<(Condition, Condition)>

    constructor (rules: seq<Rule>, meaning: Meaning)
      ensures this.rules == rules && this.meaning == meaning && View() == EMPTY
    {
      this.rules, this.meaning := rules, meaning;
      seen, always, eventually, pending, satisfied := [], map[], map[], [], {};
    }

    function View(): History
      reads this
    {
      History(seen, always, eventually, pending, satisfied)
    }

    method Call(now: Runtime) returns (ok: bool)
      modifies this
      ensures (View(), ok) == Evaluate(meaning, old(View()), rules, now)
    {
      if rules == [] {
        return true;
      }
      seen := seen + [now];
      for i := 0 to |pending|
        invariant View() == old(View()).(seen := seen)
        invariant forall j :: 0 <= j < i ==> meaning(pending[j], now)
      {
        if !meaning(pending[i], now) {
          assert pending[i] in old(pending);
          return false;
        }
      }
      pending := [];
      ghost var start := View();
      for i := 0 to |rules|
        invariant CheckRules(meaning, View(), rules[i..], now) == CheckRules(meaning, start, rules, now)
      {
        assert rules[i..][1..] == rules[i + 1..];
        match rules[i] {
          case Always(c) =>
            always := always[c := meaning(c, now) && (c in always ==> always[c])];
            if !always[c] {
              return false;
            }
          case Eventually(c) =>
            eventually := eventually[c := meaning(c, now) || (c in eventually && eventually[c])];
          case Next(c) =>
            pending := pending + [c];
          case Until(a, b) =>
            if (a, b) !in satisfied {
              if meaning(b, now) {
                satisfied := satisfied + {(a, b)};
              } else if !meaning(a, now) {
                return false;
              }
            }
          case Plain(c) =>
            if !meaning(c, now) {
              return false;
            }
        }
      }
      return true;
    }
  }

  // ---------- finite-trace semantics ----------

  ghost predicate Occurs(m: Meaning, c: Condition, trace: seq<Runtime>) {
    exists j :: 0 <= j < |trace| && m(c, trace[j])
  }

  /** What a rule demands of a trace; X of every moment but the first, U in its weak form,
      and nothing is ever too late for F. */
  ghost predicate Holds(m: Meaning, rule: Rule, trace: seq<Runtime>) {
    match rule
    case Always(c) => forall i :: 0 <= i < |trace| ==> m(c, trace[i])
    case Plain(c) => forall i :: 0 <= i < |trace| ==> m(c, trace[i])
    case Next(c) => forall i :: 1 <= i < |trace| ==> m(c, trace[i])
    case Until(a, b) => forall i :: 0 <= i < |trace| ==> m(a, trace[i]) || Occurs(m, b, trace[..i + 1])
    case Eventually(c) => true
  }

  ghost predicate Satisfies(m: Meaning, rules: seq<Rule>, trace: seq<Runtime>) {
    forall r :: r in rules ==> Holds(m, r, trace)
  }

  /** The history after the calls of a trace, and whether all of them were allowed; nothing
      is evaluated after a call that was not. */
  function Calls(m: Meaning, rules: seq<Rule>, trace: seq<Runtime>): (History, bool) {
    if trace == [] then (EMPTY, true)
    else
      var (h, ok) := Calls(m, rules, trace[..|trace| - 1]);
      if ok then Evaluate(m, h, rules, trace[|trace| - 1]) else (h, false)
  }

  // ---------- the monitor agrees ----------

  /** The history in the middle of the last call of a trace, after the rules in `done`. */
  ghost predicate Midway(m: Meaning, rules: seq<Rule>, done: seq<Rule>, trace: seq<Runtime>, h: History)
    requires trace != []
  {
    var past := trace[..|trace| - 1];
    && (forall c :: c in h.always ==> h.always[c])
    && (forall c :: c in h.eventually <==> Eventually(c) in done || (past != [] && Eventually(c) in rules))
    && (forall c :: c in h.eventually ==>
          h.eventually[c] == Occurs(m, c, if Eventually(c) in done then trace else past))
    && (forall c :: c in h.pending <==> Next(c) in done)
    && (forall a, b :: (a, b) in h.satisfied <==>
          (Until(a, b) in done && Occurs(m, b, trace)) || (Until(a, b) in rules && Occurs(m, b, past)))
  }

  lemma OccursNow(m: Meaning, c: Condition, trace: seq<Runtime>)
    requires trace != []
    ensures Occurs(m, c, trace) <==> m(c, trace[|trace| - 1]) || Occurs(m, c, trace[..|trace| - 1])
  {
    var past := trace[..|trace| - 1];
    if Occurs(m, c, past) {
      var j :| 0 <= j < |past| && m(c, past[j]);
      assert m(c, trace[j]);
    }
    if Occurs(m, c, trace) && !m(c, trace[|trace| - 1]) {
      var j :| 0 <= j < |trace| && m(c, trace[j]);
      assert m(c, past[j]);
    }
  }

  /** Given that a rule held before, whether it holds now depends on the last moment. */
  lemma HoldsNow(m: Meaning, rule: Rule, trace: seq<Runtime>)
    requires trace != [] && Holds(m, rule, trace[..|trace| - 1])
    ensures var now := trace[|trace| - 1];
      Holds(m, rule, trace) <==> match rule
        case Always(c) => m(c, now)
        case Plain(c) => m(c, now)
        case Next(c) => |trace| > 1 ==> m(c, now)
        case Until(a, b) => m(a, now) || Occurs(m, b, trace)
        case Eventually(c) => true
  {
    var past := trace[..|trace| - 1];
    assert trace[..|trace|] == trace;
    assert forall i :: 0 <= i < |past| ==> past[i] == trace[i];
    if rule.Until? {
      forall i | 0 <= i < |past| ensures m(rule.a, trace[i]) || Occurs(m, rule.b, trace[..i + 1]) {
        assert past[..i + 1] == trace[..i + 1];
        assert m(rule.a, past[i]) || Occurs(m, rule.b, past[..i + 1]);
      }
    }
  }

  lemma EventuallyStep(m: Meaning, rules: seq<Rule>, done: seq<Rule>, trace: seq<Runtime>, h: History, rule: Rule)
    requires trace != [] && Midway(m, rules, done, trace, h) && rule in rules && rule.Eventually?
    requires Holds(m, rule, trace[..|trace| - 1])
    ensures var (next, ok) := CheckRule(m, h, rule, trace[|trace| - 1]);
      && (ok <==> Holds(m, rule, trace))
      && (ok ==> Midway(m, rules, done + [rule], trace, next))
  {
    HoldsNow(m, rule, trace);
    OccursNow(m, rule.c, trace);
    hide Occurs;
  }

  lemma UntilStep(m: Meaning, rules: seq<Rule>, done: seq<Rule>, trace: seq<Runtime>, h: History, rule: Rule)
    requires trace != [] && Midway(m, rules, done, trace, h) && rule in rules && rule.Until?
    requires Holds(m, rule, trace[..|trace| - 1])
    ensures var (next, ok) := CheckRule(m, h, rule, trace[|trace| - 1]);
      && (ok <==> Holds(m, rule, trace))
      && (ok ==> Midway(m, rules, done + [rule], trace, next))
  {
    HoldsNow(m, rule, trace);
    OccursNow(m, rule.b, trace);
    hide Occurs, Holds;
  }

  lemma RuleStep(m: Meaning, rules: seq<Rule>, done: seq<Rule>, trace: seq<Runtime>, h: History, rule: Rule)
    requires trace != [] && Midway(m, rules, done, trace, h) && rule in rules && !rule.Next?
    requires Holds(m, rule, trace[..|trace| - 1])
    ensures var (next, ok) := CheckRule(m, h, rule, trace[|trace| - 1]);
      && (ok <==> Holds(m, rule, trace))
      && (ok ==> Midway(m, rules, done + [rule], trace, next))
  {
    if rule.Eventually? {
      EventuallyStep(m, rules, done, trace, h, rule);
    } else if rule.Until? {
      UntilStep(m, rules, done, trace, h, rule);
    } else {
      HoldsNow(m, rule, trace);
      hide Occurs;
    }
  }

  lemma NextStep(m: Meaning, rules: seq<Rule>, done: seq<Rule>, trace: seq<Runtime>, h: History, c: Condition)
    requires trace != [] && Midway(m, rules, done, trace, h)
    ensures Midway(m, rules, done + [Next(c)], trace, h.(pending := h.pending + [c]))
  {
  }

  /** Next rules were settled before the loop; every other rule is settled by its turn. */
  lemma {:induction false} RulesStep(
      m: Meaning, rules: seq<Rule>, done: seq<Rule>, todo: seq<Rule>, trace: seq<Runtime>, h: History)
    requires trace != [] && rules == done + todo && Midway(m, rules, done, trace, h)
    requires Satisfies(m, rules, trace[..|trace| - 1])
    requires forall r :: r in rules && r.Next? ==> Holds(m, r, trace)
    ensures var (next, ok) := CheckRules(m, h, todo, trace[|trace| - 1]);
      && (ok <==> Satisfies(m, todo, trace))
      && (ok ==> Midway(m, rules, rules, trace, next))
    decreases |todo|
  {
    if todo == [] {
      assert done == rules;
    } else {
      var rule := todo[0];
      assert rule in rules;
      var (next, ok) := CheckRule(m, h, rule, trace[|trace| - 1]);
      if rule.Next? {
        NextStep(m, rules, done, trace, h, rule.c);
      } else {
        RuleStep(m, rules, done, trace, h, rule);
      }
      assert todo == [rule] + todo[1..];
      if ok {
        assert done + [rule] + todo[1..] == rules;
        RulesStep(m, rules, done + [rule], todo[1..], trace, next);
      }
    }
  }

  /** One call: allowed exactly when the trace up to now still satisfies every rule. */
  lemma CallStep(m: Meaning, rules: seq<Rule>, trace: seq<Runtime>, h: History)
    requires trace != [] && rules != [] && Satisfies(m, rules, trace[..|trace| - 1])
    requires if |trace| == 1 then h == EMPTY else Midway(m, rules, rules, trace[..|trace| - 1], h)
    ensures var (next, ok) := Evaluate(m, h, rules, trace[|trace| - 1]);
      && (ok <==> Satisfies(m, rules, trace))
      && (ok ==> Midway(m, rules, rules, trace, next))
  {
    var now, past := trace[|trace| - 1], trace[..|trace| - 1];
    forall r | r in rules ensures Holds(m, r, past) {}
    forall r | r in rules && r.Next? ensures Holds(m, r, trace) <==> (|trace| > 1 ==> m(r.c, now)) {
      HoldsNow(m, r, trace);
    }
    if Due(m, h.pending, now) {
      var cleared := h.(seen := h.seen + [now], pending := []);
      if |trace| > 1 {
        forall c ensures Occurs(m, c, past) <==> m(c, past[|past| - 1]) || Occurs(m, c, past[..|past| - 1]) {
          OccursNow(m, c, past);
        }
      }
      assert Midway(m, rules, [], trace, cleared);
      assert [] + rules == rules;
      RulesStep(m, rules, [], rules, trace, cleared);
    } else {
      var c :| c in h.pending && !m(c, now);
      assert !Holds(m, Next(c), trace);
    }
  }

  /** All calls of a trace are allowed exactly when the trace satisfies the rules, and then
      each F accumulator tells whether its condition has held at some moment so far. */
  lemma {:induction false} MonitorAgrees(m: Meaning, rules: seq<Rule>, trace: seq<Runtime>)
    ensures var (h, ok) := Calls(m, rules, trace);
      && (ok <==> Satisfies(m, rules, trace))
      && (ok && trace != [] ==> forall c :: Eventually(c) in rules ==>
            c in h.eventually && (h.eventually[c] <==> Occurs(m, c, trace)))
      && (ok && trace != [] && rules != [] ==> Midway(m, rules, rules, trace, h))
  {
    if trace != [] {
      var past := trace[..|trace| - 1];
      MonitorAgrees(m, rules, past);
      if Satisfies(m, rules, past) {
        if rules != [] {
          CallStep(m, rules, trace, Calls(m, rules, past).0);
        }
      } else {
        var r :| r in rules && !Holds(m, r, past);
        ViolationStays(m, r, trace);
      }
    }
  }

  /** A violation is never healed by what comes later. */
  lemma ViolationStays(m: Meaning, rule: Rule, trace: seq<Runtime>)
    requires trace != [] && !Holds(m, rule, trace[..|trace| - 1])
    ensures !Holds(m, rule, trace)
  {
    var past := trace[..|trace| - 1];
    if Holds(m, rule, trace) {
      forall i | 0 <= i < |past| ensures past[i] == trace[i] && past[..i + 1] == trace[..i + 1] {}
      assert Holds(m, rule, past);
    }
  }
}
