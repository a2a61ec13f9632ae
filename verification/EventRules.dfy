/** The retention table in days, what a summary counts, and what a page holds. */
module EventRules {
  import opened Options
  import opened EventStore

  // ---------- retention and compaction ----------

  /** How many days the default table keeps a kind. */
  function DaysKept(k: Kind): Option<int> {
    match k
    case StateTransition => None
    case WeeklySummary => None
    case AdapterResponse => Some(7)
    case ValidationDetail => Some(30)
    case AdapterCall => Some(30)
    case Validation => Some(90)
    case DegradationChange => Some(180)
    case Error => Some(365)
    case UserAction => Some(365)
    case InvariantViolation => Some(365)
  }

  /** Under the default table a purge removes an event if and only if it is older than the days of its kind, to the
      second; a kind missing from a table is kept for thirty days. */
  lemma PurgedExactly(e: Event, p: Policy, now: int)
    ensures Meets(Outdated(RETENTION, now), e) <==> DaysKept(e.kind).Some? && now - e.at > DaysKept(e.kind).value * 24 * 60 * 60
    ensures e.kind !in p ==> (Meets(Outdated(p, now), e) <==> now - e.at > 30 * 24 * 60 * 60)
  {
  }

  /** The events older than thirty days. */
  function OldOnes(es: seq<Event>, now: int): set<nat> {
    set i: nat | i < |es| && now - es[i].at > 30 * 24 * 60 * 60
  }

  lemma {:induction false} CountsOld(es: seq<Event>, now: int)
    ensures |Only(es, Aged(now))| == |OldOnes(es, now)|
  {
    if es != [] {
      var n := |es| - 1;
      CountsOld(es[..n], now);
      assert OldOnes(es, now) == OldOnes(es[..n], now) + if now - es[n].at > 30 * 24 * 60 * 60 then {n} else {};
    }
  }

  lemma Lengthens(s: Store, slug: string, now: int)
    requires Ok(s) && |Only(Contents(s), Aged(now))| >= COMPACTION_BATCH
    ensures Compact(s, slug, now).last == s.last + 1
  {
    hide Only, Matching, Contents, Summarize, Ok, Keep;
  }

  /** Compaction changes a store if and only if ten or more of its events are older than thirty days; the details
      it drops are the validation details among them. */
  lemma CompactsExactly(s: Store, slug: string, now: int)
    requires Ok(s)
    ensures Compact(s, slug, now) != s <==> |OldOnes(Contents(s), now)| >= 10
    ensures forall e :: Meets(AgedDetail(now), e) <==> e.kind == ValidationDetail && now - e.at > 30 * 24 * 60 * 60
  {
    CountsOld(Contents(s), now);
    if |Only(Contents(s), Aged(now))| >= COMPACTION_BATCH {
      Lengthens(s, slug, now);
    }
    hide Only, Contents, Ok;
  }

  // ---------- the summary ----------

  /** An event that says it passed, or a summary of some that did. */
  predicate Succeeds(e: Event) {
    (e.payload.Plain? && e.payload.passed) || (e.payload.Summary? && e.payload.passes > 0)
  }

  /** The positions of the events that passed, or of those that did not. */
  function Marked(es: seq<Event>, passed: bool): set<nat> {
    set i: nat | i < |es| && Succeeds(es[i]) == passed
  }

  lemma {:induction false} CountsMarked(es: seq<Event>)
    ensures |Only(es, Passing)| == |Marked(es, true)| && |Only(es, Not(Passing))| == |Marked(es, false)|
  {
    if es != [] {
      var n := |es| - 1;
      CountsMarked(es[..n]);
      MarkedNext(es, n, true);
      MarkedNext(es, n, false);
      assert Meets(Passing, es[n]) <==> Succeeds(es[n]);
      assert Meets(Not(Passing), es[n]) <==> !Succeeds(es[n]);
      hide Marked, Meets, Succeeds;
    }
  }

  lemma MarkedNext(es: seq<Event>, n: nat, passed: bool)
    requires |es| == n + 1
    ensures Marked(es, passed) == Marked(es[..n], passed) + if Succeeds(es[n]) == passed then {n} else {}
    ensures n !in Marked(es[..n], passed)
  {
    hide Succeeds;
  }

  /** The summary that compaction appends: of the given run, at that moment, free of cost, with the number and the
      cost of the old events, how many of them passed and how many did not. */
  lemma SummaryExact(s: Store, slug: string, now: int)
    requires Ok(s) && |Only(Contents(s), Aged(now))| >= COMPACTION_BATCH
    ensures var (t, aged) := (Compact(s, slug, now), Only(Contents(s), Aged(now)));
      && t.last == s.last + 1 && t.last in t.files
      && t.files[t.last] == Event(s.last + 1, slug, WeeklySummary, now,
                                  Summary(|aged|, Sum(aged), |Marked(aged, true)|, |Marked(aged, false)|), 0.0)
  {
    CountsMarked(Only(Contents(s), Aged(now)));
    hide Only, Contents, Matching, Marked, Sum, Ok, Keep;
  }

  // ---------- pages ----------

  /** The events numbered start or higher, in order. */
  function From(es: seq<Event>, start: nat): seq<Event> {
    if es == [] then []
    else From(es[..|es| - 1], start) + if es[|es| - 1].sequence >= start then [es[|es| - 1]] else []
  }

  function First(es: seq<Event>, n: nat): seq<Event> {
    if |es| <= n then es else es[..n]
  }

  lemma FirstMore(es: seq<Event>, e: Event, n: nat)
    ensures First(es + [e], n) == if |First(es, n)| < n then First(es, n) + [e] else First(es, n)
  {
  }

  lemma FromNext(s: Store, n: nat, end: nat, start: nat)
    requires Ok(s) && n < |s.index| && s.index[n] == end
    ensures end in s.files
    ensures From(Contents(s)[..n + 1], start) == From(Contents(s)[..n], start) + if end >= start then [s.files[end]] else []
  {
    ContentsNext(s, n);
    assert s.files[end].sequence == end;
    hide Ok, Contents;
    assert Contents(s)[..n + 1][..n] == Contents(s)[..n];
  }

  lemma {:induction false} PageCut(s: Store, start: nat, end: nat, limit: nat) returns (n: nat)
    requires Ok(s)
    ensures Cuts(s, n, end) && Page(s, start, end, limit) == First(From(Contents(s)[..n], start), limit)
    decreases end
  {
    hide *;
    if end == 0 {
      n := 0;
      PageNone(s, start, limit);
    } else {
      n := PageCut(s, start, end - 1, limit);
      CutNext(s, n, end - 1);
      CutInside(s, n, end - 1);
      PageStep(s, start, end, limit, n);
      if end - 1 in s.files {
        n := n + 1;
      }
    }
  }

  lemma PageNone(s: Store, start: nat, limit: nat)
    requires Ok(s)
    ensures Cuts(s, 0, 0) && Page(s, start, 0, limit) == First(From(Contents(s)[..0], start), limit)
  {
    CutZero(s, 0);
  }

  lemma CutInside(s: Store, n: nat, end: nat)
    requires Cuts(s, n, end)
    ensures n <= |s.index|
  {
  }

  /** One more number adds its event to both, if there is one. */
  lemma PageStep(s: Store, start: nat, end: nat, limit: nat, n: nat)
    requires Ok(s) && end > 0 && n <= |s.index| && (end - 1 in s.files ==> n < |s.index| && s.index[n] == end - 1)
    requires Page(s, start, end - 1, limit) == First(From(Contents(s)[..n], start), limit)
    ensures var k := if end - 1 in s.files then n + 1 else n;
      Page(s, start, end, limit) == First(From(Contents(s)[..k], start), limit)
  {
    PageStops(s, start, end, limit);
    if end - 1 in s.files {
      FromNext(s, n, end - 1, start);
      FirstMore(From(Contents(s)[..n], start), s.files[end - 1], limit);
    }
    hide *;
  }

  lemma PageStops(s: Store, start: nat, end: nat, limit: nat)
    requires Ok(s) && end > 0
    ensures var front := Page(s, start, end - 1, limit);
      Page(s, start, end, limit) ==
        if end - 1 >= start && |front| < limit && end - 1 in s.files then front + [s.files[end - 1]] else front
  {
  }

  /** A page is the first so many of the stored events numbered from the start on. */
  lemma PageExact(s: Store, start: nat, limit: nat)
    requires Ok(s)
    ensures Page(s, start, s.last + 1, limit) == First(From(Contents(s), start), limit)
  {
    var n := PageCut(s, start, s.last + 1, limit);
    CutWhole(s, n);
    assert Contents(s)[..|s.index|] == Contents(s);
    hide Page, From, First, Ok;
  }
}
