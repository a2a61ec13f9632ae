/** The token-bucket rate limiter. Times and amounts are real numbers; the clock is an argument. */
module RateLimit {
  datatype Bucket = Bucket(tokens: real, refilled: real)

  datatype Stats = Stats(allowed: nat, denied: nat, last: real)

  /** A refusal divides by the rate; with a rate of zero that is an error. */
  datatype Verdict = Allowed | Denied(wait: real) | ZeroRate

  datatype State = State(rate: real, burst: real, buckets: map<string, Bucket>, stats: map<string, Stats>)

  function Min(a: real, b: real): real { if a <= b then a else b }

  function Max(a: real, b: real): real { if a >= b then a else b }

  /** What the rate yields in a stretch of time. */
  function Yield(rate: real, elapsed: real): real { elapsed * rate }

  function Refill(s: State, b: Bucket, now: real): real {
    Min(s.burst, b.tokens + Yield(s.rate, now - b.refilled))
  }

  function StatsOf(s: State, key: string): Stats {
    if key in s.stats then s.stats[key] else Stats(0, 0, 0.0)
  }

  function Admit(s: State, key: string, b: Bucket, now: real): State {
    var t := StatsOf(s, key);
    s.(buckets := s.buckets[key := b], stats := s.stats[key := t.(allowed := t.allowed + 1, last := now)])
  }

  function Refuse(s: State, key: string, b: Bucket, now: real): State {
    var t := StatsOf(s, key);
    s.(buckets := s.buckets[key := b], stats := s.stats[key := t.(denied := t.denied + 1, last := now)])
  }

  datatype Answer = Answer(state: State, verdict: Verdict)

  function Check(s: State, key: string, cost: real, now: real): Answer {
    if key !in s.buckets then
      Answer(Admit(s, key, Bucket(Max(0.0, s.burst - cost), now), now), Allowed)
    else
      var tokens := Refill(s, s.buckets[key], now);
      if tokens >= cost then
        Answer(Admit(s, key, Bucket(tokens - cost, now), now), Allowed)
      else if s.rate == 0.0 then
        Answer(s.(buckets := s.buckets[key := Bucket(tokens, now)]), ZeroRate)
      else
        Answer(Refuse(s, key, Bucket(tokens, now), now), Denied((cost - tokens) / s.rate))
  }

  class RateLimiter {
    const rate: real
    const burst: real
    var buckets: map<string, Bucket>
    var stats: map<string, Stats>

    /** No burst, or a burst of zero, stands for a burst equal to the rate. */
    constructor (rate: real, burst: real)
      ensures View() == State(rate, if burst == 0.0 then rate else burst, map[], map[])
    {
      this.rate := rate;
      this.burst := if burst == 0.0 then rate else burst;
      buckets, stats := map[], map[];
    }

    function View(): State
      reads this
    {
      State(rate, burst, buckets, stats)
    }

    method CheckKey(key: string, cost: real, now: real) returns (verdict: Verdict)
      modifies this
      ensures Answer(View(), verdict) == Check(old(View()), key, cost, now)
    {
      if key !in buckets {
        buckets := buckets[key := Bucket(Max(0.0, burst - cost), now)];
        CountAllowed(key, now);
        return Allowed;
      }
      var bucket := buckets[key];
      var tokens := Refill(View(), bucket, now);
      hide Refill;
      if tokens >= cost {
        buckets := buckets[key := Bucket(tokens - cost, now)];
        CountAllowed(key, now);
        return Allowed;
      }
      buckets := buckets[key := Bucket(tokens, now)];
      if rate == 0.0 {
        return ZeroRate;
      }
      var t := StatsOf(View(), key);
      stats := stats[key := t.(denied := t.denied + 1, last := now)];
      return Denied((cost - tokens) / rate);
    }

    method CountAllowed(key: string, now: real)
      modifies this`stats
      ensures stats == old(stats)[key := StatsOf(old(View()), key).(
        allowed := StatsOf(old(View()), key).allowed + 1, last := now)]
    {
      var t := StatsOf(View(), key);
      stats := stats[key := t.(allowed := t.allowed + 1, last := now)];
    }

    method Reset(key: string)
      modifies this
      ensures View() == if key == "" then old(View()).(buckets := map[], stats := map[])
        else old(View()).(buckets := old(buckets) - {key}, stats := old(stats) - {key})
    {
      if key != "" {
        buckets := buckets - {key};
        stats := stats - {key};
      } else {
        buckets, stats := map[], map[];
      }
    }
  }

  // ---------- runs ----------

  datatype Call = Call(key: string, cost: real, now: real)

  function After(s: State, calls: seq<Call>): State
    decreases |calls|
  {
    if calls == [] then s
    else After(Check(s, calls[0].key, calls[0].cost, calls[0].now).state, calls[1..])
  }

  function Verdicts(s: State, calls: seq<Call>): seq<Verdict>
    decreases |calls|
  {
    if calls == [] then []
    else
      var a := Check(s, calls[0].key, calls[0].cost, calls[0].now);
      [a.verdict] + Verdicts(a.state, calls[1..])
  }

  /** The cost admitted for one key. */
  function Spent(s: State, calls: seq<Call>, key: string): real
    decreases |calls|
  {
    if calls == [] then 0.0
    else
      var a := Check(s, calls[0].key, calls[0].cost, calls[0].now);
      (if calls[0].key == key && a.verdict == Allowed then calls[0].cost else 0.0) + Spent(a.state, calls[1..], key)
  }

  /** The clock does not go back, from a given time to another. */
  predicate Between(start: real, calls: seq<Call>, end: real)
    decreases |calls|
  {
    if calls == [] then start <= end else start <= calls[0].now && Between(calls[0].now, calls[1..], end)
  }

  predicate Affordable(burst: real, calls: seq<Call>) {
    forall c :: c in calls ==> 0.0 < c.cost <= burst
  }

  ghost predicate Ok(s: State, now: real) {
    && s.rate > 0.0 && s.burst > 0.0
    && forall k :: k in s.buckets ==> 0.0 <= s.buckets[k].tokens <= s.burst && s.buckets[k].refilled <= now
  }

  // ---------- the bounds ----------

  lemma YieldAdds(rate: real, a: real, b: real)
    ensures Yield(rate, a + b) == Yield(rate, a) + Yield(rate, b)
  {
  }

  lemma YieldGrows(rate: real, a: real)
    requires rate > 0.0
    ensures a >= 0.0 <==> Yield(rate, a) >= 0.0
  {
  }

  lemma CheckOk(s: State, c: Call, start: real)
    requires Ok(s, start) && start <= c.now && 0.0 < c.cost <= s.burst
    ensures var t := Check(s, c.key, c.cost, c.now).state;
      Ok(t, c.now) && t.rate == s.rate && t.burst == s.burst
  {
    if c.key in s.buckets {
      YieldGrows(s.rate, c.now - s.buckets[c.key].refilled);
      hide Yield;
    }
  }

  /** Over any run the tokens of every key stay between nothing and the burst. */
  lemma {:induction false} TokensBounded(s: State, calls: seq<Call>, start: real, end: real)
    requires Ok(s, start) && Between(start, calls, end) && Affordable(s.burst, calls)
    ensures Ok(After(s, calls), end) && After(s, calls).rate == s.rate && After(s, calls).burst == s.burst
    decreases |calls|
  {
    if calls != [] {
      CheckOk(s, calls[0], start);
      TokensBounded(Check(s, calls[0].key, calls[0].cost, calls[0].now).state, calls[1..], calls[0].now, end);
    }
  }

  /** What a key can draw on at a time: its refilled tokens, or a full bucket. */
  function Available(s: State, key: string, now: real): real {
    if key in s.buckets then Refill(s, s.buckets[key], now) else s.burst
  }

  lemma {:induction false} SpentBound(s: State, calls: seq<Call>, key: string, start: real, end: real)
    requires Ok(s, start) && Between(start, calls, end) && Affordable(s.burst, calls)
    ensures Spent(s, calls, key) <= Available(s, key, start) + Yield(s.rate, end - start)
    decreases |calls|
  {
    if calls == [] {
      YieldGrows(s.rate, end - start);
      AvailableSome(s, key, start);
    } else {
      var c := calls[0];
      var t := Check(s, c.key, c.cost, c.now).state;
      CheckOk(s, c, start);
      SpentBound(t, calls[1..], key, c.now, end);
      SpendsAtMost(s, c, key, start);
      YieldAdds(s.rate, end - c.now, c.now - start);
      assert end - c.now + (c.now - start) == end - start;
      hide Yield, Available, Check, Ok;
    }
  }

  lemma AvailableSome(s: State, key: string, now: real)
    requires Ok(s, now)
    ensures 0.0 <= Available(s, key, now) <= s.burst
  {
    if key in s.buckets {
      YieldGrows(s.rate, now - s.buckets[key].refilled);
      hide Yield;
    }
  }

  /** One call: what it admits and what is available after it is covered by what was available before
      and the refill in between. */
  lemma SpendsAtMost(s: State, c: Call, key: string, start: real)
    requires Ok(s, start) && start <= c.now && 0.0 < c.cost <= s.burst
    ensures var a := Check(s, c.key, c.cost, c.now);
      (if c.key == key && a.verdict == Allowed then c.cost else 0.0) + Available(a.state, key, c.now)
        <= Available(s, key, start) + Yield(s.rate, c.now - start)
  {
    YieldGrows(s.rate, c.now - start);
    YieldGrows(s.rate, c.now - c.now);
    assert Yield(s.rate, c.now - c.now) == 0.0;
    if key in s.buckets {
      var b := s.buckets[key];
      YieldAdds(s.rate, start - b.refilled, c.now - start);
      assert start - b.refilled + (c.now - start) == c.now - b.refilled;
      hide Yield;
    }
  }

  /** In any window of length d the cost admitted for a key is at most the burst and what the rate
      yields in d, whatever happened before the window. */
  lemma WindowBound(s: State, calls: seq<Call>, key: string, start: real, d: real)
    requires Ok(s, start) && Between(start, calls, start + d) && Affordable(s.burst, calls)
    ensures Spent(s, calls, key) <= s.burst + Yield(s.rate, d)
  {
    SpentBound(s, calls, key, start, start + d);
    AvailableSome(s, key, start);
    hide *;
    assert start + d - start == d;
  }

  /** The state once a key has nothing left. */
  ghost predicate Drained(s: State, key: string, now: real) {
    s.rate > 0.0 && s.burst > 0.0 && key in s.buckets && s.buckets[key] == Bucket(0.0, now)
  }

  /** A check of what the rate has yielded since the key had nothing takes exactly that. */
  lemma TakesAll(s: State, key: string, now: real, d: real)
    requires Drained(s, key, now) && 0.0 < Yield(s.rate, d) <= s.burst
    ensures var a := Check(s, key, Yield(s.rate, d), now + d);
      a.verdict == Allowed && Drained(a.state, key, now + d) && a.state.rate == s.rate && a.state.burst == s.burst
  {
    assert now + d - now == d;
    hide Yield;
  }

  lemma YieldOf(rate: real, amount: real) returns (d: real)
    requires rate > 0.0
    ensures Yield(rate, d) == amount && (amount > 0.0 ==> d > 0.0)
  {
    d := amount / rate;
    Quotient(amount, rate, d);
    assert d * rate == amount;
  }

  /** From nothing, n bursts and a rest can be spent in the time that the rate takes to yield them. */
  lemma {:induction false} SpendsAll(s: State, key: string, now: real, d: real, n: nat) returns (calls: seq<Call>)
    requires Drained(s, key, now) && d >= 0.0 && Yield(s.rate, d) <= n as real * s.burst
    ensures Between(now, calls, now + d) && Affordable(s.burst, calls) && Spent(s, calls, key) == Yield(s.rate, d)
    decreases n
  {
    YieldGrows(s.rate, d);
    YieldGrows(s.rate, -d);
    YieldAdds(s.rate, d, -d);
    if d == 0.0 {
      calls := [];
    } else if Yield(s.rate, d) <= s.burst {
      TakesAll(s, key, now, d);
      calls := [Call(key, Yield(s.rate, d), now + d)];
      OneCall(s, calls[0], calls, now);
    } else {
      var step := YieldOf(s.rate, s.burst);
      YieldAdds(s.rate, step, d - step);
      assert step + (d - step) == d;
      YieldGrows(s.rate, d - step);
      TakesAll(s, key, now, step);
      var t := Check(s, key, s.burst, now + step).state;
      assert (n - 1) as real * s.burst == n as real * s.burst - s.burst;
      hide Yield, Check;
      var rest := SpendsAll(t, key, now + step, d - step, n - 1);
      calls := [Call(key, s.burst, now + step)] + rest;
      assert now + step + (d - step) == now + d;
      assert calls[1..] == rest;
    }
  }

  lemma OneCall(s: State, c: Call, calls: seq<Call>, now: real)
    requires calls == [c] && now <= c.now && Check(s, c.key, c.cost, c.now).verdict == Allowed
    ensures Between(now, calls, c.now) && Spent(s, calls, c.key) == c.cost
  {
    assert calls[1..] == [];
  }

  /** The bound is reached for every window: a key not seen before spends the burst, and then each
      burst as it comes back. */
  lemma WindowTight(s: State, key: string, start: real, d: real) returns (calls: seq<Call>)
    requires Ok(s, start) && key !in s.buckets && d >= 0.0
    ensures Between(start, calls, start + d) && Affordable(s.burst, calls)
    ensures Spent(s, calls, key) == s.burst + Yield(s.rate, d)
  {
    var a := Check(s, key, s.burst, start);
    assert a.state.buckets[key] == Bucket(0.0, start);
    var n := Enough(Yield(s.rate, d), s.burst);
    var rest := SpendsAll(a.state, key, start, d, n);
    calls := [Call(key, s.burst, start)] + rest;
    assert calls[1..] == rest;
  }

  /** Some number of bursts is enough. */
  lemma Enough(amount: real, burst: real) returns (n: nat)
    requires burst > 0.0
    ensures amount <= n as real * burst
  {
    var q := amount / burst;
    n := if q <= 0.0 then 0 else q.Floor + 1;
    assert Yield(burst, q) == amount;
    YieldAdds(burst, q, n as real - q);
    assert q + (n as real - q) == n as real;
    YieldGrows(burst, n as real - q);
  }

  // ---------- refusals ----------

  /** Two states that answer alike from a time on: where they differ, they refill to the same. */
  ghost predicate Alike(s: State, t: State, now: real) {
    && s.rate == t.rate && s.burst == t.burst
    && s.buckets.Keys == t.buckets.Keys
    && forall k :: k in s.buckets ==> AlikeAt(s, t, k, now)
  }

  ghost predicate AlikeAt(s: State, t: State, k: string, now: real)
    requires k in s.buckets && k in t.buckets
  {
    forall later :: later >= now ==> Refill(s, s.buckets[k], later) == Refill(t, t.buckets[k], later)
  }

  lemma CheckAlike(s: State, t: State, c: Call, now: real)
    requires Alike(s, t, now) && now <= c.now
    ensures Check(s, c.key, c.cost, c.now).verdict == Check(t, c.key, c.cost, c.now).verdict
    ensures Alike(Check(s, c.key, c.cost, c.now).state, Check(t, c.key, c.cost, c.now).state, c.now)
  {
    var u, v := Check(s, c.key, c.cost, c.now).state, Check(t, c.key, c.cost, c.now).state;
    assert c.key in s.buckets ==> AlikeAt(s, t, c.key, now);
    assert u.buckets[c.key] == v.buckets[c.key];
    forall k | k in u.buckets ensures AlikeAt(u, v, k, c.now) {
      if k != c.key {
        assert AlikeAt(s, t, k, now);
        forall later | later >= c.now ensures Refill(u, u.buckets[k], later) == Refill(v, v.buckets[k], later) {
          assert Refill(s, s.buckets[k], later) == Refill(t, t.buckets[k], later);
        }
      }
    }
  }

  lemma {:induction false} VerdictsAlike(s: State, t: State, calls: seq<Call>, now: real, end: real)
    requires Alike(s, t, now) && Between(now, calls, end)
    ensures Verdicts(s, calls) == Verdicts(t, calls)
    decreases |calls|
  {
    if calls != [] {
      var c := calls[0];
      CheckAlike(s, t, c, now);
      VerdictsAlike(Check(s, c.key, c.cost, c.now).state, Check(t, c.key, c.cost, c.now).state, calls[1..], c.now, end);
    }
  }

  lemma RefillTwice(s: State, b: Bucket, mid: real, later: real)
    requires s.rate > 0.0 && mid <= later
    ensures Refill(s, Bucket(Refill(s, b, mid), mid), later) == Refill(s, b, later)
  {
    YieldAdds(s.rate, mid - b.refilled, later - mid);
    assert mid - b.refilled + (later - mid) == later - b.refilled;
    YieldGrows(s.rate, later - mid);
    hide Yield;
  }

  /** A refused call changes no answer to any later sequence of calls, of its own key or of others. */
  lemma RefusalInvisible(s: State, c: Call, calls: seq<Call>, end: real)
    requires s.rate > 0.0 && Check(s, c.key, c.cost, c.now).verdict.Denied? && Between(c.now, calls, end)
    ensures Verdicts(Check(s, c.key, c.cost, c.now).state, calls) == Verdicts(s, calls)
  {
    var t := Check(s, c.key, c.cost, c.now).state;
    var b := s.buckets[c.key];
    assert t.buckets[c.key] == Bucket(Refill(s, b, c.now), c.now);
    forall later | later >= c.now ensures Refill(t, t.buckets[c.key], later) == Refill(s, b, later) {
      RefillTwice(s, b, c.now, later);
    }
    assert AlikeAt(t, s, c.key, c.now);
    hide Refill, Verdicts;
    VerdictsAlike(t, s, calls, c.now, end);
  }

  // ---------- keys ----------

  function Of(calls: seq<Call>, key: string): seq<Call> {
    if calls == [] then [] else (if calls[0].key == key then [calls[0]] else []) + Of(calls[1..], key)
  }

  /** The answers given to one key. */
  function Answers(s: State, calls: seq<Call>, key: string): seq<Verdict>
    decreases |calls|
  {
    if calls == [] then []
    else
      var a := Check(s, calls[0].key, calls[0].cost, calls[0].now);
      (if calls[0].key == key then [a.verdict] else []) + Answers(a.state, calls[1..], key)
  }

  ghost predicate SameFor(s: State, t: State, key: string) {
    && s.rate == t.rate && s.burst == t.burst
    && (key in s.buckets <==> key in t.buckets)
    && (key in s.buckets ==> s.buckets[key] == t.buckets[key])
  }

  /** Keys do not affect each other: a key is answered as if the calls for it were the only ones. */
  lemma {:induction false} KeysIndependent(s: State, t: State, calls: seq<Call>, key: string)
    requires SameFor(s, t, key)
    ensures Answers(s, calls, key) == Verdicts(t, Of(calls, key))
    decreases |calls|
  {
    if calls != [] {
      var c := calls[0];
      var u := Check(s, c.key, c.cost, c.now).state;
      if c.key == key {
        KeysIndependent(u, Check(t, c.key, c.cost, c.now).state, calls[1..], key);
        assert Of(calls, key)[1..] == Of(calls[1..], key);
      } else {
        KeysIndependent(u, t, calls[1..], key);
        assert Of(calls, key) == Of(calls[1..], key);
      }
    }
  }

  // ---------- the wait ----------

  /** No check of the key is admitted in the run. */
  ghost predicate NoneAdmitted(s: State, calls: seq<Call>, key: string) {
    Allowed !in Answers(s, calls, key)
  }

  /** As long as none of its checks is admitted a key can draw on the same amounts later. */
  lemma {:induction false} RefillsOn(s: State, calls: seq<Call>, key: string, now: real, end: real)
    requires s.rate > 0.0 && key in s.buckets && Between(now, calls, end) && NoneAdmitted(s, calls, key)
    ensures var t := After(s, calls);
      t.rate == s.rate && t.burst == s.burst && key in t.buckets
      && Refill(t, t.buckets[key], end) == Refill(s, s.buckets[key], end)
    decreases |calls|
  {
    if calls != [] {
      var c := calls[0];
      var a := Check(s, c.key, c.cost, c.now);
      BetweenEnds(c.now, calls[1..], end);
      if c.key == key {
        assert Answers(s, calls, key)[0] == a.verdict;
        RefillTwice(s, s.buckets[key], c.now, end);
      }
      assert forall v :: v in Answers(a.state, calls[1..], key) ==> v in Answers(s, calls, key);
      assert Refill(a.state, a.state.buckets[key], end) == Refill(s, s.buckets[key], end);
      hide Refill, Check;
      RefillsOn(a.state, calls[1..], key, c.now, end);
    }
  }

  lemma {:induction false} BetweenEnds(start: real, calls: seq<Call>, end: real)
    requires Between(start, calls, end)
    ensures start <= end
    decreases |calls|
  {
    if calls != [] {
      BetweenEnds(calls[0].now, calls[1..], end);
    }
  }

  /** The wait is exact: asked again after w, whatever was checked in between as long as nothing was
      admitted for the key, the same cost is admitted if and only if w is at least the wait returned. */
  lemma WaitExact(s: State, c: Call, calls: seq<Call>, w: real)
    requires s.rate > 0.0 && c.cost <= s.burst && Check(s, c.key, c.cost, c.now).verdict.Denied?
    requires Between(c.now, calls, c.now + w) && NoneAdmitted(Check(s, c.key, c.cost, c.now).state, calls, c.key)
    ensures var a := Check(s, c.key, c.cost, c.now);
      && a.verdict.wait > 0.0
      && (Check(After(a.state, calls), c.key, c.cost, c.now + w).verdict == Allowed <==> w >= a.verdict.wait)
  {
    var t := Check(s, c.key, c.cost, c.now).state;
    var tokens := t.buckets[c.key].tokens;
    RefillsOn(t, calls, c.key, c.now, c.now + w);
    BetweenEnds(c.now, calls, c.now + w);
    Quotient(c.cost - tokens, s.rate, w);
    assert c.now + w - c.now == w;
    hide Yield, After, NoneAdmitted, Between;
  }

  lemma Quotient(x: real, r: real, w: real)
    requires r > 0.0
    ensures w >= x / r <==> Yield(r, w) >= x
    ensures x > 0.0 <==> x / r > 0.0
  {
    var q := x / r;
    assert Yield(r, q) == x;
    YieldAdds(r, q, w - q);
    assert q + (w - q) == w;
    YieldGrows(r, w - q);
    YieldGrows(r, -q);
    YieldAdds(r, q, -q);
    assert Yield(r, 0.0) == 0.0;
    hide Yield;
  }
}
