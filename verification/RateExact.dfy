/** When a check is admitted, exactly: by the windows that end with it, and how a run is counted. */
module RateExact {
  import opened RateLimit

  // ---------- the windows that end now ----------

  /** What was admitted for the key from the j-th check on, with this cost, exceeds what the window from that
      check to now allows. */
  ghost predicate Exceeds(s: State, calls: seq<Call>, key: string, cost: real, now: real, j: nat)
    requires j < |calls|
  {
    Spent(After(s, calls[..j]), calls[j..], key) + cost > s.burst + Yield(s.rate, now - calls[j].now)
  }

  /** Some window that starts at an earlier check of the key is exceeded. */
  ghost predicate Crowded(s: State, calls: seq<Call>, key: string, cost: real, now: real) {
    exists j: nat :: j < |calls| && calls[j].key == key && Exceeds(s, calls, key, cost, now, j)
  }

  function Step(s: State, c: Call): State {
    Check(s, c.key, c.cost, c.now).state
  }

  lemma ExceedsRest(s: State, calls: seq<Call>, key: string, cost: real, now: real, j: nat)
    requires 0 < j < |calls| && Step(s, calls[0]).burst == s.burst && Step(s, calls[0]).rate == s.rate
    ensures calls[1..][j - 1] == calls[j]
    ensures Exceeds(s, calls, key, cost, now, j) <==> Exceeds(Step(s, calls[0]), calls[1..], key, cost, now, j - 1)
  {
    assert calls[..j][1..] == calls[1..][..j - 1];
    assert calls[1..][j - 1..] == calls[j..];
    assert After(s, calls[..j]) == After(Step(s, calls[0]), calls[..j][1..]);
    hide After, Spent, Yield, Step;
  }

  /** The first check decides, or one of the rest. */
  lemma CrowdedNext(s: State, calls: seq<Call>, key: string, cost: real, now: real)
    requires calls != [] && Step(s, calls[0]).burst == s.burst && Step(s, calls[0]).rate == s.rate
    ensures Crowded(s, calls, key, cost, now) <==>
      (calls[0].key == key && Spent(s, calls, key) + cost > s.burst + Yield(s.rate, now - calls[0].now))
      || Crowded(Step(s, calls[0]), calls[1..], key, cost, now)
  {
    assert calls[..0] == [] && calls[0..] == calls;
    assert Exceeds(s, calls, key, cost, now, 0) <==> Spent(s, calls, key) + cost > s.burst + Yield(s.rate, now - calls[0].now);
    var t, rest := Step(s, calls[0]), calls[1..];
    if j: nat :| j < |calls| && calls[j].key == key && Exceeds(s, calls, key, cost, now, j) {
      if j > 0 {
        ExceedsRest(s, calls, key, cost, now, j);
        assert rest[j - 1].key == key && Exceeds(t, rest, key, cost, now, j - 1);
      }
    }
    if j: nat :| j < |rest| && rest[j].key == key && Exceeds(t, rest, key, cost, now, j) {
      ExceedsRest(s, calls, key, cost, now, j + 1);
      assert calls[j + 1].key == key;
    }
    hide Exceeds, Spent, Step, Yield;
  }

  /** What a check leaves to its own key and to others. */
  lemma StepFields(s: State, c: Call, key: string)
    requires Ok(s, c.now) && 0.0 < c.cost <= s.burst
    ensures var t := Step(s, c); t.rate == s.rate && t.burst == s.burst && c.key in t.buckets
    ensures c.key != key ==> (key in Step(s, c).buckets <==> key in s.buckets)
    ensures c.key != key && key in s.buckets ==> Step(s, c).buckets[key] == s.buckets[key]
    ensures c.key in s.buckets ==>
      var tokens := Refill(s, s.buckets[c.key], c.now);
      Step(s, c).buckets[c.key] ==
        Bucket(tokens - if Check(s, c.key, c.cost, c.now).verdict == Allowed then c.cost else 0.0, c.now)
    ensures c.key !in s.buckets ==>
      Step(s, c).buckets[c.key] == Bucket(s.burst - c.cost, c.now) && Check(s, c.key, c.cost, c.now).verdict == Allowed
  {
    hide Refill;
  }

  /** The run spends what its first check spends and what the rest does. */
  lemma SpentNext(s: State, calls: seq<Call>, key: string)
    requires calls != []
    ensures var c := calls[0];
      Spent(s, calls, key) == (if c.key == key && Check(s, c.key, c.cost, c.now).verdict == Allowed then c.cost else 0.0)
                              + Spent(Step(s, c), calls[1..], key)
  {
    hide Check;
  }

  /** What a run needs holds of what is left of it after one check. */
  lemma RestOk(s: State, calls: seq<Call>, start: real, now: real)
    requires Ok(s, start) && Between(start, calls, now) && Affordable(s.burst, calls) && calls != []
    ensures var (c, t, rest) := (calls[0], Step(s, calls[0]), calls[1..]);
      && Ok(s, c.now) && 0.0 < c.cost <= s.burst && t.burst == s.burst && t.rate == s.rate
      && Ok(t, c.now) && Between(c.now, rest, now) && Affordable(t.burst, rest)
      && After(s, calls) == After(t, rest)
  {
    assert calls[0] in calls && forall d :: d in calls[1..] ==> d in calls;
    CheckOk(s, calls[0], start);
    hide Check;
  }

  lemma RefillIs(s: State, b: Bucket, now: real)
    ensures Refill(s, b, now) == Min(s.burst, b.tokens + Yield(s.rate, now - b.refilled))
  {
  }

  lemma Capped(tokens: real, burst: real, before: real, later: real, own: real, rest: real, x: real)
    ensures Min(burst, tokens + before) - own + later - rest < x <==>
      tokens + (before + later) - (own + rest) < x || own + rest + x > burst + later
  {
  }

  lemma YieldSplits(rate: real, a: real, b: real, c: real)
    ensures Yield(rate, c - a) == Yield(rate, b - a) + Yield(rate, c - b)
  {
    YieldAdds(rate, b - a, c - b);
    assert b - a + (c - b) == c - a;
    hide Yield;
  }

  /** What the bucket leaves for a threshold, after what the run spends. */
  ghost predicate Short(s: State, calls: seq<Call>, key: string, now: real, x: real)
    requires key in s.buckets
  {
    s.buckets[key].tokens + Yield(s.rate, now - s.buckets[key].refilled) - Spent(s, calls, key) < x
  }

  /** A check of the key: its own window joins what the bucket had before. */
  lemma ShortOwn(s: State, calls: seq<Call>, key: string, now: real, x: real)
    requires calls != [] && calls[0].key == key && key in s.buckets && Ok(s, calls[0].now) && 0.0 < calls[0].cost <= s.burst
    ensures key in Step(s, calls[0]).buckets
    ensures Short(Step(s, calls[0]), calls[1..], key, now, x) <==>
      Short(s, calls, key, now, x) || Spent(s, calls, key) + x > s.burst + Yield(s.rate, now - calls[0].now)
  {
    var c, b := calls[0], s.buckets[key];
    var own := if Check(s, c.key, c.cost, c.now).verdict == Allowed then c.cost else 0.0;
    StepFields(s, c, key);
    SpentNext(s, calls, key);
    RefillIs(s, b, c.now);
    YieldSplits(s.rate, b.refilled, c.now, now);
    Capped(b.tokens, s.burst, Yield(s.rate, c.now - b.refilled), Yield(s.rate, now - c.now), own,
           Spent(Step(s, c), calls[1..], key), x);
    hide Check, Step, Spent, Yield, Refill, Min, Ok;
  }

  lemma ShortOther(s: State, calls: seq<Call>, key: string, now: real, x: real)
    requires calls != [] && calls[0].key != key && key in s.buckets && Ok(s, calls[0].now) && 0.0 < calls[0].cost <= s.burst
    ensures key in Step(s, calls[0]).buckets
    ensures Short(Step(s, calls[0]), calls[1..], key, now, x) <==> Short(s, calls, key, now, x)
  {
    StepFields(s, calls[0], key);
    SpentNext(s, calls, key);
    hide Check, Step, Spent, Yield, Ok;
  }

  lemma ShortNone(s: State, key: string, now: real, x: real)
    requires key in s.buckets && x <= s.burst
    ensures Refill(s, s.buckets[key], now) < x <==> Short(s, [], key, now, x)
    ensures !Crowded(s, [], key, x, now) && After(s, []) == s
  {
    hide Yield;
  }

  /** The tokens of a key at a time, less than an amount: by its last bucket, or by some window since. */
  lemma {:induction false} ShortExactly(s: State, calls: seq<Call>, key: string, start: real, now: real, x: real)
    requires Ok(s, start) && Between(start, calls, now) && Affordable(s.burst, calls) && x <= s.burst && key in s.buckets
    ensures key in After(s, calls).buckets && After(s, calls).burst == s.burst && After(s, calls).rate == s.rate
    ensures Refill(After(s, calls), After(s, calls).buckets[key], now) < x <==>
      Short(s, calls, key, now, x) || Crowded(s, calls, key, x, now)
    decreases |calls|
  {
    hide *;
    if calls == [] {
      ShortNone(s, key, now, x);
    } else {
      RestOk(s, calls, start, now);
      if calls[0].key == key {
        ShortOwn(s, calls, key, now, x);
      } else {
        ShortOther(s, calls, key, now, x);
      }
      ShortExactly(Step(s, calls[0]), calls[1..], key, calls[0].now, now, x);
      CrowdedNext(s, calls, key, x, now);
    }
  }

  /** The first check of a key is its first window. */
  lemma ShortFirst(s: State, calls: seq<Call>, key: string, now: real, x: real)
    requires calls != [] && calls[0].key == key && key !in s.buckets && Ok(s, calls[0].now) && 0.0 < calls[0].cost <= s.burst
    ensures key in Step(s, calls[0]).buckets
    ensures Short(Step(s, calls[0]), calls[1..], key, now, x) <==>
      Spent(s, calls, key) + x > s.burst + Yield(s.rate, now - calls[0].now)
  {
    StepFields(s, calls[0], key);
    SpentNext(s, calls, key);
    hide Check, Step, Spent, Yield, Ok;
  }

  lemma StillNew(s: State, c: Call, key: string)
    requires c.key != key && key !in s.buckets && Ok(s, c.now) && 0.0 < c.cost <= s.burst
    ensures key !in Step(s, c).buckets
  {
    StepFields(s, c, key);
  }

  lemma NewNone(s: State, key: string, now: real, x: real)
    ensures !Crowded(s, [], key, x, now) && After(s, []) == s
  {
  }

  /** Before the first check of a key the run is about others. */
  lemma {:induction false} FirstSeen(s: State, calls: seq<Call>, key: string, start: real, now: real, x: real)
    requires Ok(s, start) && Between(start, calls, now) && Affordable(s.burst, calls) && x <= s.burst && key !in s.buckets
    ensures After(s, calls).burst == s.burst && After(s, calls).rate == s.rate
    ensures key !in After(s, calls).buckets ==> !Crowded(s, calls, key, x, now)
    ensures key in After(s, calls).buckets ==>
      (Refill(After(s, calls), After(s, calls).buckets[key], now) < x <==> Crowded(s, calls, key, x, now))
    decreases |calls|
  {
    hide *;
    if calls == [] {
      NewNone(s, key, now, x);
    } else {
      RestOk(s, calls, start, now);
      CrowdedNext(s, calls, key, x, now);
      if calls[0].key == key {
        ShortFirst(s, calls, key, now, x);
        ShortExactly(Step(s, calls[0]), calls[1..], key, calls[0].now, now, x);
      } else {
        StillNew(s, calls[0], key);
        FirstSeen(Step(s, calls[0]), calls[1..], key, calls[0].now, now, x);
      }
    }
  }

  /** Over any affordable run of a key first seen in it: a later check is refused if and only if admitting it
      would exceed the bound of some window that starts at an earlier check of the key and ends now. */
  lemma RefusedExactly(s: State, calls: seq<Call>, c: Call, start: real)
    requires Ok(s, start) && c.key !in s.buckets && Between(start, calls, c.now)
    requires Affordable(s.burst, calls) && 0.0 < c.cost <= s.burst
    ensures var v := Check(After(s, calls), c.key, c.cost, c.now).verdict;
      && (v == Allowed <==> !Crowded(s, calls, c.key, c.cost, c.now))
      && (v.Denied? <==> Crowded(s, calls, c.key, c.cost, c.now))
  {
    FirstSeen(s, calls, c.key, start, c.now, c.cost);
    TokensBounded(s, calls, start, c.now);
    hide Crowded, After, Refill, Between, Affordable;
  }

  // ---------- checks outside the affordable ----------

  /** The first check of a key is admitted whatever it costs, and leaves what the burst exceeds it by; later a
      cost above the burst never is. */
  lemma DearChecks(s: State, c: Call)
    ensures c.key !in s.buckets ==>
      var a := Check(s, c.key, c.cost, c.now);
      a.verdict == Allowed && a.state.buckets[c.key] == Bucket(if c.cost <= s.burst then s.burst - c.cost else 0.0, c.now)
    ensures c.key in s.buckets && c.cost > s.burst ==> Check(s, c.key, c.cost, c.now).verdict != Allowed
  {
  }

  /** With a rate of zero nothing comes back: a check is admitted while the tokens last, and an error then. */
  lemma ZeroRateExactly(s: State, c: Call)
    requires s.rate == 0.0 && c.key in s.buckets && s.buckets[c.key].tokens <= s.burst
    ensures var (a, tokens) := (Check(s, c.key, c.cost, c.now), s.buckets[c.key].tokens);
      && a.verdict == (if c.cost <= tokens then Allowed else ZeroRate)
      && a.state.buckets[c.key].tokens == if c.cost <= tokens then tokens - c.cost else tokens
  {
    assert Yield(s.rate, c.now - s.buckets[c.key].refilled) == 0.0;
    hide Yield;
  }

  // ---------- the counts ----------

  function CountAllowed(vs: seq<Verdict>): nat {
    if vs == [] then 0 else (if vs[0] == Allowed then 1 else 0) + CountAllowed(vs[1..])
  }

  function CountDenied(vs: seq<Verdict>): nat {
    if vs == [] then 0 else (if vs[0].Denied? then 1 else 0) + CountDenied(vs[1..])
  }

  lemma StepCounts(s: State, c: Call, key: string)
    ensures var (t, u, v) := (StatsOf(s, key), StatsOf(Step(s, c), key), Check(s, c.key, c.cost, c.now).verdict);
      if c.key != key then u == t
      else u.allowed == t.allowed + (if v == Allowed then 1 else 0) && u.denied == t.denied + (if v.Denied? then 1 else 0)
           && u.last == if v == ZeroRate then t.last else c.now
  {
    hide Refill;
  }

  /** Over any run the statistics of a key count its admitted and its refused checks. */
  lemma {:induction false} StatsCount(s: State, calls: seq<Call>, key: string)
    ensures var (t, u, vs) := (StatsOf(s, key), StatsOf(After(s, calls), key), Answers(s, calls, key));
      u.allowed == t.allowed + CountAllowed(vs) && u.denied == t.denied + CountDenied(vs)
    decreases |calls|
  {
    if calls != [] {
      var c := calls[0];
      StepCounts(s, c, key);
      StatsCount(Step(s, c), calls[1..], key);
      var rest := Answers(Step(s, c), calls[1..], key);
      assert Answers(s, calls, key)
        == (if c.key == key then [Check(s, c.key, c.cost, c.now).verdict] else []) + rest;
      assert c.key == key ==> Answers(s, calls, key)[1..] == rest;
      assert c.key != key ==> Answers(s, calls, key) == rest;
      hide Check, StatsOf;
    }
  }
}
