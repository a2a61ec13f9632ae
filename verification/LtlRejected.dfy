/** What the monitor of temporal rules answers after it has rejected a call: the code goes on with
    the same history, of which a rejected call may have written only a part. */
module LtlRejected {
  import opened LtlMonitor

  /** The history after calls that are all made, allowed or not. */
  function Goes(m: Meaning, rules: seq<Rule>, h: History, trace: seq<Runtime>): History {
    if trace == [] then h
    else Evaluate(m, Goes(m, rules, h, trace[..|trace| - 1]), rules, trace[|trace| - 1]).0
  }

  predicate Allows(m: Meaning, rules: seq<Rule>, h: History, now: Runtime) {
    Evaluate(m, h, rules, now).1
  }

  /** As long as every call is allowed there is nothing to add to the agreement with the semantics. */
  lemma {:induction false} GoesWhileAllowed(m: Meaning, rules: seq<Rule>, trace: seq<Runtime>)
    requires Calls(m, rules, trace).1
    ensures Goes(m, rules, EMPTY, trace) == Calls(m, rules, trace).0
  {
    if trace != [] {
      GoesWhileAllowed(m, rules, trace[..|trace| - 1]);
    }
  }

  // ---------- one call over any history ----------

  /** What a rule answers on the history that the call found. */
  predicate Answers(m: Meaning, h: History, rule: Rule, now: Runtime) {
    match rule
    case Always(c) => m(c, now) && !Flagged(h, c)
    case Until(a, b) => (a, b) in h.satisfied || m(b, now) || m(a, now)
    case Plain(c) => m(c, now)
    case _ => true
  }

  /** The accumulator of G(c) has turned false. */
  predicate Flagged(h: History, c: Condition) {
    c in h.always && !h.always[c]
  }

  lemma AnswerKept(m: Meaning, h: History, rule: Rule, other: Rule, now: Runtime)
    requires CheckRule(m, h, rule, now).1
    ensures Answers(m, h, rule, now)
    ensures Answers(m, CheckRule(m, h, rule, now).0, other, now) <==> Answers(m, h, other, now)
  {
  }

  lemma {:induction false} RulesAnswer(m: Meaning, h: History, rules: seq<Rule>, now: Runtime)
    ensures CheckRules(m, h, rules, now).1 <==> forall r :: r in rules ==> Answers(m, h, r, now)
    decreases |rules|
  {
    if rules != [] {
      var (next, ok) := CheckRule(m, h, rules[0], now);
      assert ok <==> Answers(m, h, rules[0], now);
      if ok {
        RulesAnswer(m, next, rules[1..], now);
        forall r ensures Answers(m, next, r, now) <==> Answers(m, h, r, now) { AnswerKept(m, h, rules[0], r, now); }
        assert rules == [rules[0]] + rules[1..];
      }
    }
  }

  /** Over any history: a call is allowed if and only if what is pending holds and every rule answers yes on
      the history that the call found. */
  lemma CallAnswers(m: Meaning, rules: seq<Rule>, h: History, now: Runtime)
    requires rules != []
    ensures Allows(m, rules, h, now) <==> Due(m, h.pending, now) && forall r :: r in rules ==> Answers(m, h, r, now)
  {
    var cleared := h.(seen := h.seen + [now], pending := []);
    if Due(m, h.pending, now) {
      RulesAnswer(m, cleared, rules, now);
      forall r ensures Answers(m, cleared, r, now) <==> Answers(m, h, r, now) {}
    }
  }

  // ---------- G: violated for good ----------

  /** The call gets as far as a rule G(c) and finds c false. */
  ghost predicate Blames(m: Meaning, rules: seq<Rule>, h: History, now: Runtime, c: Condition) {
    Due(m, h.pending, now) && FindsFalse(m, rules, h, now, c)
  }

  ghost predicate FindsFalse(m: Meaning, rules: seq<Rule>, h: History, now: Runtime, c: Condition) {
    !m(c, now) && exists i :: 0 <= i < |rules| && rules[i] == Always(c) && forall j :: 0 <= j < i ==> Answers(m, h, rules[j], now)
  }

  lemma FindsFalseRest(m: Meaning, rules: seq<Rule>, h: History, now: Runtime, c: Condition)
    requires rules != [] && CheckRule(m, h, rules[0], now).1
    ensures FindsFalse(m, rules, h, now, c) <==> FindsFalse(m, rules[1..], CheckRule(m, h, rules[0], now).0, now, c)
  {
    var next := CheckRule(m, h, rules[0], now).0;
    forall r ensures Answers(m, next, r, now) <==> Answers(m, h, r, now) { AnswerKept(m, h, rules[0], r, now); }
    AnswerKept(m, h, rules[0], rules[0], now);
    hide CheckRule;
    var rest := rules[1..];
    if FindsFalse(m, rules, h, now, c) {
      var i :| 0 <= i < |rules| && rules[i] == Always(c) && forall j :: 0 <= j < i ==> Answers(m, h, rules[j], now);
      assert i > 0;
      assert rest[i - 1] == Always(c) && forall j :: 0 <= j < i - 1 ==> rest[j] == rules[j + 1];
    }
    if FindsFalse(m, rest, next, now, c) {
      var i :| 0 <= i < |rest| && rest[i] == Always(c) && forall j :: 0 <= j < i ==> Answers(m, next, rest[j], now);
      assert rules[i + 1] == Always(c);
      forall j | 0 <= j < i + 1 ensures Answers(m, h, rules[j], now) { assert j > 0 ==> rules[j] == rest[j - 1]; }
    }
  }

  lemma {:induction false} RulesFlag(m: Meaning, h: History, rules: seq<Rule>, now: Runtime, c: Condition)
    ensures Flagged(CheckRules(m, h, rules, now).0, c) <==> Flagged(h, c) || FindsFalse(m, rules, h, now, c)
    decreases |rules|
  {
    if rules != [] {
      var (next, ok) := CheckRule(m, h, rules[0], now);
      RuleFlag(m, h, rules[0], now, c);
      if ok {
        FindsFalseRest(m, rules, h, now, c);
        RulesFlag(m, next, rules[1..], now, c);
      } else {
        assert FindsFalse(m, rules, h, now, c) <==> rules[0] == Always(c) && !m(c, now);
      }
    }
  }

  lemma RuleFlag(m: Meaning, h: History, rule: Rule, now: Runtime, c: Condition)
    ensures Flagged(CheckRule(m, h, rule, now).0, c) <==> Flagged(h, c) || (rule == Always(c) && !m(c, now))
  {
  }

  lemma CallFlags(m: Meaning, rules: seq<Rule>, h: History, now: Runtime, c: Condition)
    ensures Flagged(Evaluate(m, h, rules, now).0, c) <==> Flagged(h, c) || Blames(m, rules, h, now, c)
  {
    var cleared := h.(seen := h.seen + [now], pending := []);
    RulesFlag(m, cleared, rules, now, c);
    forall r ensures Answers(m, cleared, r, now) <==> Answers(m, h, r, now) {}
    hide CheckRules;
  }

  ghost predicate Blamed(m: Meaning, rules: seq<Rule>, trace: seq<Runtime>, c: Condition) {
    exists k :: 0 <= k < |trace| && BlamedAt(m, rules, trace, c, k)
  }

  ghost predicate BlamedAt(m: Meaning, rules: seq<Rule>, trace: seq<Runtime>, c: Condition, k: nat)
    requires k < |trace|
  {
    Blames(m, rules, Goes(m, rules, EMPTY, trace[..k]), trace[k], c)
  }

  /** Whatever was rejected before, the accumulator of G(c) is false if and only if some call got as far as
      the rule with c false: a violation that another rule, or a pending condition, hid is forgotten. */
  lemma {:induction false} FlaggedExactly(m: Meaning, rules: seq<Rule>, trace: seq<Runtime>, c: Condition)
    ensures Flagged(Goes(m, rules, EMPTY, trace), c) <==> Blamed(m, rules, trace, c)
  {
    if trace != [] {
      var past := trace[..|trace| - 1];
      FlaggedExactly(m, rules, past, c);
      CallFlags(m, rules, Goes(m, rules, EMPTY, past), trace[|trace| - 1], c);
      hide Blames, Evaluate;
      BlamedNext(m, rules, trace, c);
    }
  }

  lemma BlamedNext(m: Meaning, rules: seq<Rule>, trace: seq<Runtime>, c: Condition)
    requires trace != []
    ensures Blamed(m, rules, trace, c) <==>
      Blamed(m, rules, trace[..|trace| - 1], c) || BlamedAt(m, rules, trace, c, |trace| - 1)
  {
    var past := trace[..|trace| - 1];
    forall k | 0 <= k < |past| ensures BlamedAt(m, rules, trace, c, k) <==> BlamedAt(m, rules, past, c, k) {
      assert past[..k] == trace[..k] && past[k] == trace[k];
    }
    hide BlamedAt;
  }

  /** Once a G rule has been found violated, it is for good: every later call is rejected. */
  lemma RejectedForGood(m: Meaning, rules: seq<Rule>, trace: seq<Runtime>, now: Runtime, c: Condition)
    requires Always(c) in rules && Blamed(m, rules, trace, c)
    ensures !Allows(m, rules, Goes(m, rules, EMPTY, trace), now)
  {
    FlaggedExactly(m, rules, trace, c);
    CallAnswers(m, rules, Goes(m, rules, EMPTY, trace), now);
    assert !Answers(m, Goes(m, rules, EMPTY, trace), Always(c), now);
  }

  // ---------- U and F: what any calls leave ----------

  /** The rule loop gets as far as a rule. */
  ghost predicate Gets(m: Meaning, rules: seq<Rule>, h: History, now: Runtime, rule: Rule) {
    exists i :: 0 <= i < |rules| && rules[i] == rule && forall j :: 0 <= j < i ==> Answers(m, h, rules[j], now)
  }

  /** The first rule is got to; the others are if it answers yes. */
  lemma GetsRest(m: Meaning, rules: seq<Rule>, h: History, now: Runtime, rule: Rule)
    requires rules != []
    ensures var (next, ok) := CheckRule(m, h, rules[0], now);
      Gets(m, rules, h, now, rule) <==> rules[0] == rule || (ok && Gets(m, rules[1..], next, now, rule))
  {
    var (next, ok) := CheckRule(m, h, rules[0], now);
    var rest := rules[1..];
    assert ok <==> Answers(m, h, rules[0], now);
    if ok {
      forall r ensures Answers(m, next, r, now) <==> Answers(m, h, r, now) { AnswerKept(m, h, rules[0], r, now); }
    }
    hide CheckRule;
    if i :| 0 <= i < |rules| && rules[i] == rule && forall j :: 0 <= j < i ==> Answers(m, h, rules[j], now) {
      if i > 0 {
        assert rest[i - 1] == rule && forall j :: 0 <= j < i - 1 ==> rest[j] == rules[j + 1];
      }
    }
    if ok {
      if i :| 0 <= i < |rest| && rest[i] == rule && forall j :: 0 <= j < i ==> Answers(m, next, rest[j], now) {
        assert rules[i + 1] == rule;
        forall j | 0 <= j < i + 1 ensures Answers(m, h, rules[j], now) { assert j > 0 ==> rules[j] == rest[j - 1]; }
      }
    }
  }

  predicate Seen(h: History, c: Condition) {
    c in h.eventually && h.eventually[c]
  }

  lemma RuleMarks(m: Meaning, h: History, rule: Rule, now: Runtime, a: Condition, b: Condition)
    ensures var next := CheckRule(m, h, rule, now).0;
      && ((a, b) in next.satisfied <==> (a, b) in h.satisfied || (rule == Until(a, b) && m(b, now)))
      && (b in next.eventually <==> b in h.eventually || rule == Eventually(b))
      && (Seen(next, b) <==> Seen(h, b) || (rule == Eventually(b) && m(b, now)))
  {
  }

  lemma {:induction false} RulesMark(m: Meaning, h: History, rules: seq<Rule>, now: Runtime, a: Condition, b: Condition)
    ensures var next := CheckRules(m, h, rules, now).0;
      && ((a, b) in next.satisfied <==> (a, b) in h.satisfied || (Gets(m, rules, h, now, Until(a, b)) && m(b, now)))
      && (b in next.eventually <==> b in h.eventually || Gets(m, rules, h, now, Eventually(b)))
      && (Seen(next, b) <==> Seen(h, b) || (Gets(m, rules, h, now, Eventually(b)) && m(b, now)))
    decreases |rules|
  {
    if rules != [] {
      var (next, ok) := CheckRule(m, h, rules[0], now);
      RuleMarks(m, h, rules[0], now, a, b);
      GetsRest(m, rules, h, now, Until(a, b));
      GetsRest(m, rules, h, now, Eventually(b));
      if ok {
        RulesMark(m, next, rules[1..], now, a, b);
      }
      hide CheckRule, Gets, Seen;
    }
  }

  /** The call gets as far as a rule. */
  ghost predicate Consults(m: Meaning, rules: seq<Rule>, h: History, now: Runtime, rule: Rule) {
    Due(m, h.pending, now) && Gets(m, rules, h, now, rule)
  }

  lemma CallMarks(m: Meaning, rules: seq<Rule>, h: History, now: Runtime, a: Condition, b: Condition)
    ensures var next := Evaluate(m, h, rules, now).0;
      && ((a, b) in next.satisfied <==> (a, b) in h.satisfied || (Consults(m, rules, h, now, Until(a, b)) && m(b, now)))
      && (b in next.eventually <==> b in h.eventually || Consults(m, rules, h, now, Eventually(b)))
      && (Seen(next, b) <==> Seen(h, b) || (Consults(m, rules, h, now, Eventually(b)) && m(b, now)))
      && next.seen == if rules == [] then h.seen else h.seen + [now]
  {
    var cleared := h.(seen := h.seen + [now], pending := []);
    RulesMark(m, cleared, rules, now, a, b);
    RulesSeen(m, cleared, rules, now);
    forall r ensures Answers(m, cleared, r, now) <==> Answers(m, h, r, now) {}
    hide CheckRules;
  }

  lemma {:induction false} RulesSeen(m: Meaning, h: History, rules: seq<Rule>, now: Runtime)
    ensures CheckRules(m, h, rules, now).0.seen == h.seen
    decreases |rules|
  {
    if rules != [] {
      RulesSeen(m, CheckRule(m, h, rules[0], now).0, rules[1..], now);
    }
  }

  /** The k-th call gets as far as a rule. */
  ghost predicate ConsultsAt(m: Meaning, rules: seq<Rule>, trace: seq<Runtime>, rule: Rule, k: nat)
    requires k < |trace|
  {
    Consults(m, rules, Goes(m, rules, EMPTY, trace[..k]), trace[k], rule)
  }

  /** Some call gets as far as a rule, with a condition true. */
  ghost predicate ConsultedWith(m: Meaning, rules: seq<Rule>, trace: seq<Runtime>, rule: Rule, c: Condition) {
    exists k: nat :: k < |trace| && MarksAt(m, rules, trace, rule, c, k)
  }

  ghost predicate MarksAt(m: Meaning, rules: seq<Rule>, trace: seq<Runtime>, rule: Rule, c: Condition, k: nat)
    requires k < |trace|
  {
    ConsultsAt(m, rules, trace, rule, k) && m(c, trace[k])
  }

  ghost predicate Consulted(m: Meaning, rules: seq<Rule>, trace: seq<Runtime>, rule: Rule) {
    exists k: nat :: k < |trace| && ConsultsAt(m, rules, trace, rule, k)
  }

  lemma ConsultsSame(m: Meaning, rules: seq<Rule>, trace: seq<Runtime>, rule: Rule, k: nat)
    requires k + 1 < |trace|
    ensures trace[..|trace| - 1][k] == trace[k]
    ensures ConsultsAt(m, rules, trace, rule, k) <==> ConsultsAt(m, rules, trace[..|trace| - 1], rule, k)
  {
    assert trace[..|trace| - 1][..k] == trace[..k];
    hide Consults, Goes;
  }

  lemma ConsultedNext(m: Meaning, rules: seq<Rule>, trace: seq<Runtime>, rule: Rule)
    requires trace != []
    ensures Consulted(m, rules, trace, rule) <==>
      Consulted(m, rules, trace[..|trace| - 1], rule) || ConsultsAt(m, rules, trace, rule, |trace| - 1)
  {
    var past := trace[..|trace| - 1];
    hide ConsultsAt;
    if k: nat :| k < |trace| && ConsultsAt(m, rules, trace, rule, k) {
      if k < |past| { ConsultsSame(m, rules, trace, rule, k); }
    }
    if k: nat :| k < |past| && ConsultsAt(m, rules, past, rule, k) {
      ConsultsSame(m, rules, trace, rule, k);
    }
  }

  lemma MarksSame(m: Meaning, rules: seq<Rule>, trace: seq<Runtime>, rule: Rule, c: Condition, k: nat)
    requires k + 1 < |trace|
    ensures MarksAt(m, rules, trace, rule, c, k) <==> MarksAt(m, rules, trace[..|trace| - 1], rule, c, k)
  {
    ConsultsSame(m, rules, trace, rule, k);
    hide ConsultsAt;
  }

  lemma ConsultedWithNext(m: Meaning, rules: seq<Rule>, trace: seq<Runtime>, rule: Rule, c: Condition)
    requires trace != []
    ensures ConsultedWith(m, rules, trace, rule, c) <==>
      ConsultedWith(m, rules, trace[..|trace| - 1], rule, c) || MarksAt(m, rules, trace, rule, c, |trace| - 1)
  {
    var past := trace[..|trace| - 1];
    hide MarksAt;
    if k: nat :| k < |trace| && MarksAt(m, rules, trace, rule, c, k) {
      if k < |past| { MarksSame(m, rules, trace, rule, c, k); }
    }
    if k: nat :| k < |past| && MarksAt(m, rules, past, rule, c, k) {
      MarksSame(m, rules, trace, rule, c, k);
    }
  }

  /** What the last of some calls adds. */
  lemma LastMarks(m: Meaning, rules: seq<Rule>, trace: seq<Runtime>, a: Condition, b: Condition)
    requires trace != []
    ensures var (h, g, n) := (Goes(m, rules, EMPTY, trace[..|trace| - 1]), Goes(m, rules, EMPTY, trace), |trace| - 1);
      && ((a, b) in g.satisfied <==> (a, b) in h.satisfied || MarksAt(m, rules, trace, Until(a, b), b, n))
      && (b in g.eventually <==> b in h.eventually || ConsultsAt(m, rules, trace, Eventually(b), n))
      && (Seen(g, b) <==> Seen(h, b) || MarksAt(m, rules, trace, Eventually(b), b, n))
      && g.seen == if rules == [] then h.seen else h.seen + [trace[n]]
  {
    CallMarks(m, rules, Goes(m, rules, EMPTY, trace[..|trace| - 1]), trace[|trace| - 1], a, b);
    hide Evaluate, Consults, Seen;
  }

  /** Whatever was rejected before, an until rule counts as satisfied if and only if some call got as far as it
      with its second part true; an F rule has an accumulator if some call got as far as it, which tells whether
      its condition was true at such a call; and every call is listed. */
  lemma {:induction false} SatisfiedExactly(m: Meaning, rules: seq<Rule>, trace: seq<Runtime>, a: Condition, b: Condition)
    ensures var h := Goes(m, rules, EMPTY, trace);
      && ((a, b) in h.satisfied <==> ConsultedWith(m, rules, trace, Until(a, b), b))
      && (b in h.eventually <==> Consulted(m, rules, trace, Eventually(b)))
      && (Seen(h, b) <==> ConsultedWith(m, rules, trace, Eventually(b), b))
      && h.seen == if rules == [] then [] else trace
  {
    if trace != [] {
      hide *;
      var past := trace[..|trace| - 1];
      SatisfiedExactly(m, rules, past, a, b);
      LastMarks(m, rules, trace, a, b);
      ConsultedWithNext(m, rules, trace, Until(a, b), b);
      ConsultedNext(m, rules, trace, Eventually(b));
      ConsultedWithNext(m, rules, trace, Eventually(b), b);
      assert past + [trace[|trace| - 1]] == trace;
    }
  }

  // ---------- X: pending until it holds ----------

  lemma SeenOnly(m: Meaning, rules: seq<Rule>, h: History, seen: seq<Runtime>, now: Runtime)
    ensures Allows(m, rules, h.(seen := seen), now) <==> Allows(m, rules, h, now)
  {
    if rules != [] {
      CallAnswers(m, rules, h, now);
      CallAnswers(m, rules, h.(seen := seen), now);
      forall r ensures Answers(m, h.(seen := seen), r, now) <==> Answers(m, h, r, now) {}
      hide Allows;
    }
  }

  /** While some pending condition fails, every call is rejected and changes nothing but the list of calls;
      the first call at which all of them hold is answered as if the others had not been made. */
  lemma {:induction false} PendingStays(m: Meaning, rules: seq<Rule>, h: History, failing: seq<Runtime>, now: Runtime)
    requires rules != [] && forall t :: t in failing ==> !Due(m, h.pending, t)
    ensures Goes(m, rules, h, failing) == h.(seen := h.seen + failing)
    ensures forall k :: 0 <= k < |failing| ==> !Allows(m, rules, Goes(m, rules, h, failing[..k]), failing[k])
    ensures Allows(m, rules, Goes(m, rules, h, failing), now) <==> Allows(m, rules, h, now)
  {
    if failing != [] {
      var n := |failing| - 1;
      var front := failing[..n];
      PendingStays(m, rules, h, front, now);
      assert front + [failing[n]] == failing;
      forall k | 0 <= k < |failing| ensures !Allows(m, rules, Goes(m, rules, h, failing[..k]), failing[k]) {
        if k < n { assert front[..k] == failing[..k] && front[k] == failing[k]; }
      }
      assert h.seen + front + [failing[n]] == h.seen + failing;
    }
    SeenOnly(m, rules, h, h.seen + failing, now);
  }

  // ---------- what a rejected call leaves pending ----------

  function NextConditions(rules: seq<Rule>): seq<Condition> {
    if rules == [] then []
    else (if rules[0].Next? then [rules[0].c] else []) + NextConditions(rules[1..])
  }

  /** The first rule that answers no. */
  ghost predicate FirstNo(m: Meaning, h: History, rules: seq<Rule>, now: Runtime, i: nat) {
    i < |rules| && !Answers(m, h, rules[i], now) && forall j :: 0 <= j < i ==> Answers(m, h, rules[j], now)
  }

  lemma {:induction false} RulesPending(m: Meaning, h: History, rules: seq<Rule>, now: Runtime, i: nat)
    requires FirstNo(m, h, rules, now, i)
    ensures CheckRules(m, h, rules, now).0.pending == h.pending + NextConditions(rules[..i])
    decreases |rules|
  {
    var (next, ok) := CheckRule(m, h, rules[0], now);
    if i > 0 {
      assert Answers(m, h, rules[0], now);
      forall r ensures Answers(m, next, r, now) <==> Answers(m, h, r, now) { AnswerKept(m, h, rules[0], r, now); }
      forall j | 0 <= j < i - 1 ensures Answers(m, next, rules[1..][j], now) { assert rules[1..][j] == rules[j + 1]; }
      RulesPending(m, next, rules[1..], now, i - 1);
      assert rules[..i][1..] == rules[1..][..i - 1];
    }
  }

  /** A call that a rule rejects makes only the X rules listed before that rule pending: the next call is not
      held to those after it. */
  lemma RejectedPending(m: Meaning, rules: seq<Rule>, h: History, now: Runtime, i: nat)
    requires Due(m, h.pending, now) && FirstNo(m, h, rules, now, i)
    ensures !Allows(m, rules, h, now) && Evaluate(m, h, rules, now).0.pending == NextConditions(rules[..i])
  {
    CallAnswers(m, rules, h, now);
    var cleared := h.(seen := h.seen + [now], pending := []);
    forall r ensures Answers(m, cleared, r, now) <==> Answers(m, h, r, now) {}
    RulesPending(m, cleared, rules, now, i);
  }
}
