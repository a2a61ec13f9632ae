/** The event store of one run: numbered event files and their index, with retention and
    compaction. */
module EventStore {
  import opened Options

  datatype Kind =
    | StateTransition | Validation | ValidationDetail | AdapterCall | AdapterResponse
    | Error | UserAction | WeeklySummary | DegradationChange | InvariantViolation

  /** What the code reads from an event's data. */
  datatype Payload =
    | Plain(text: string, passed: bool)
    | Summary(compacted: nat, totalCost: real, passes: nat, failures: nat)

  /** Times are in seconds. */
  datatype Event = Event(sequence: nat, slug: string, kind: Kind, at: int, payload: Payload, cost: real)

  const DAY := 86400

  /** None: kept for ever. */
  type Policy = map<Kind, Option<int>>

  const RETENTION: Policy := map[
    StateTransition := None, Validation := Some(90 * DAY), ValidationDetail := Some(30 * DAY),
    AdapterCall := Some(30 * DAY), AdapterResponse := Some(7 * DAY), Error := Some(365 * DAY),
    UserAction := Some(365 * DAY), WeeklySummary := None, DegradationChange := Some(180 * DAY),
    InvariantViolation := Some(365 * DAY)]

  const COMPACTION_AGE := 30 * DAY
  const COMPACTION_BATCH := 10

  function Ttl(p: Policy, k: Kind): Option<int> {
    if k in p then p[k] else Some(30 * DAY)
  }

  /** The truth of data.get("passed", True); in a summary that entry is a number. */
  predicate Passed(e: Event) {
    match e.payload
    case Plain(_, passed) => passed
    case Summary(_, _, passes, _) => passes != 0
  }

  /** The questions the store asks of an event. */
  datatype Test =
    | Outdated(policy: Policy, now: int)
    | Aged(now: int)
    | AgedDetail(now: int)
    | OfKind(kind: Kind)
    | Passing
    | Not(test: Test)

  predicate Meets(t: Test, e: Event) {
    match t
    case Outdated(p, now) => Ttl(p, e.kind).Some? && now - e.at > Ttl(p, e.kind).value
    case Aged(now) => e.at < now - COMPACTION_AGE
    case AgedDetail(now) => e.at < now - COMPACTION_AGE && e.kind == ValidationDetail
    case OfKind(k) => e.kind == k
    case Passing => Passed(e)
    case Not(u) => !Meets(u, e)
  }

  /** The events of a list that meet a test, in order. */
  function Only(es: seq<Event>, t: Test): seq<Event> {
    if es == [] then []
    else Only(es[..|es| - 1], t) + if Meets(t, es[|es| - 1]) then [es[|es| - 1]] else []
  }

  /** Event files by number, the index in insertion order, the last number given out. */
  datatype Store = Store(files: map<nat, Event>, index: seq<nat>, last: nat)

  ghost predicate Ok(s: Store) {
    && (forall i, j :: 0 <= i < j < |s.index| ==> s.index[i] < s.index[j])
    && (forall k :: k in s.index <==> k in s.files)
    && (forall k :: k in s.files ==> 1 <= k <= s.last && s.files[k].sequence == k)
  }

  /** The highest of some numbers, or 0 when there is none. */
  ghost predicate IsTop(top: nat, numbers: set<nat>) {
    && (forall k :: k in numbers ==> k <= top)
    && (top == 0 || top in numbers)
  }

  /** The stored events in index order. */
  ghost function Contents(s: Store): seq<Event>
    requires Ok(s)
  {
    seq(|s.index|, i requires 0 <= i < |s.index| => s.files[s.index[i]])
  }

  // ---------- the operations ----------

  function Append(s: Store, e: Event): Store {
    var k := s.last + 1;
    Store(s.files[k := e.(sequence := k)], s.index + [k], k)
  }

  function AppendAll(s: Store, es: seq<Event>): Store {
    if es == [] then s else Append(AppendAll(s, es[..|es| - 1]), es[|es| - 1])
  }

  function Keep(keys: seq<nat>, drop: set<nat>): seq<nat> {
    if keys == [] then []
    else Keep(keys[..|keys| - 1], drop) + if keys[|keys| - 1] in drop then [] else [keys[|keys| - 1]]
  }

  function Drop(s: Store, drop: set<nat>): Store {
    s.(files := s.files - drop, index := Keep(s.index, drop))
  }

  /** The numbers of the stored events that meet a test. */
  function Matching(s: Store, t: Test): set<nat> {
    set k | k in s.files && Meets(t, s.files[k])
  }

  function Purge(s: Store, p: Policy, now: int): Store {
    Drop(s, Matching(s, Outdated(p, now)))
  }

  function Sum(es: seq<Event>): real {
    if es == [] then 0.0 else Sum(es[..|es| - 1]) + es[|es| - 1].cost
  }

  function Summarize(es: seq<Event>, slug: string, now: int): Event {
    Event(0, slug, WeeklySummary, now,
          Summary(|es|, Sum(es), |Only(es, Passing)|, |Only(es, Not(Passing))|), 0.0)
  }

  ghost function Compact(s: Store, slug: string, now: int): Store
    requires Ok(s)
  {
    var aged := Only(Contents(s), Aged(now));
    if |aged| < COMPACTION_BATCH then s
    else Append(Drop(s, Matching(s, AgedDetail(now))), Summarize(aged, slug, now))
  }

  // ---------- the class ----------

  /** The events of one run; `archived` are the numbers in the archive directory of the same name, left
      by an earlier run. */
  class EventLog {
    const retention: Policy
    const archived: set<nat>
    var files: map<nat, Event>
    var index: seq<nat>
    var last: nat

    /** A new directory: numbers go on from the highest archived one. */
    constructor (retention: Policy, archived: set<nat>)
      ensures this.retention == retention && this.archived == archived
      ensures files == map[] && index == [] && IsTop(last, archived) && Ok(View())
    {
      this.retention, this.archived := retention, archived;
      files, index, last := map[], [], 0;
      new;
      last := LoadLast();
      assert files.Keys + archived == archived;
    }

    function View(): Store
      reads this
    {
      Store(files, index, last)
    }

    method AppendOne(e: Event) returns (number: nat)
      requires Ok(View())
      modifies this
      ensures View() == Append(old(View()), e) && Ok(View()) && number == old(last) + 1
      ensures files == old(files)[number := e.(sequence := number)] && index == old(index) + [number] && last == number
    {
      AppendOk(View(), e);
      number := last + 1;
      files := files[number := e.(sequence := number)];
      index := index + [number];
      last := number;
    }

    /** The batch form: numbers are counted from the last one, which is set at the end. */
    method AppendMany(es: seq<Event>) returns (numbers: seq<nat>)
      requires Ok(View())
      modifies this
      ensures View() == AppendAll(old(View()), es) && Ok(View())
      ensures numbers == seq(|es|, i => old(last) + 1 + i)
    {
      if es == [] {
        return [];
      }
      numbers := [];
      ghost var s := View();
      AppendAllNumbers(s, []);
      for i := 0 to |es|
        invariant last == s.last && numbers == seq(i, k => s.last + 1 + k)
        invariant Store(files, index, s.last + i) == AppendAll(s, es[..i])
      {
        assert es[..i + 1][..i] == es[..i];
        var number := last + 1 + i;
        numbers := numbers + [number];
        files := files[number := es[i].(sequence := number)];
        index := index + [number];
      }
      assert es[..|es|] == es;
      last := numbers[|numbers| - 1];
      AppendAllNumbers(s, es);
    }

    method Get(number: nat) returns (e: Option<Event>)
      requires Ok(View())
      ensures e == if number in files then Some(files[number]) else None
    {
      if number !in index {
        return None;
      }
      return Some(files[number]);
    }

    /** Pagination: the first `limit` of the stored events numbered `start` or higher. */
    method GetRange(start: nat, limit: nat) returns (es: seq<Event>)
      requires Ok(View())
      ensures es == Page(View(), start, last + 1, limit)
      ensures limit > last && start <= 1 ==> es == Contents(View())
    {
      es := [];
      var k := start;
      while k <= last && |es| < limit
        invariant start <= k && (k <= last + 1 || k == start)
        invariant es == Page(View(), start, k, limit)
        decreases last + 1 - k
      {
        PageNext(View(), start, k, limit);
        if k in index {
          es := es + [files[k]];
        }
        k := k + 1;
      }
      PageFull(View(), start, k, last + 1, limit);
      if limit > last && start <= 1 {
        PageWhole(View(), start, limit);
      }
    }

    method PurgeExpired(now: int) returns (purged: nat)
      requires Ok(View())
      modifies this
      ensures View() == Purge(old(View()), retention, now) && Ok(View())
      ensures purged == |old(files)| - |files|
    {
      PurgeFacts(View(), retention, now);
      hide Ok, Drop, Matching, Purge;
      var gone := DropOutdated(now);
      purged := |gone|;
    }

    /** The files first, then the index. */
    method DropOutdated(now: int) returns (gone: set<nat>)
      requires Ok(View())
      modifies this
      ensures gone == Matching(old(View()), Outdated(retention, now)) && View() == Drop(old(View()), gone)
    {
      hide Ok, Keep, Matching, Meets;
      gone := Unlink(now);
      index := Without(index, gone);
    }

    /** The loop of purge over the index: deletes the outdated files, leaving the index for later. */
    method Unlink(now: int) returns (gone: set<nat>)
      requires Ok(View())
      modifies this`files
      ensures gone == Matching(old(View()), Outdated(retention, now)) && files == old(files) - gone
    {
      ghost var s := View();
      var bad := Outdated(retention, now);
      WhichAll(s, bad);
      gone := {};
      hide Ok, Which, Meets, Matching;
      for i := 0 to |index|
        invariant files == s.files - gone
        invariant gone == Which(s, i, bad)
      {
        WhichNext(s, i, bad);
        var k := index[i];
        MinusTwice(s.files, gone, k);
        if Meets(bad, files[k]) {
          files := files - {k};
          gone := gone + {k};
        }
      }
    }

    static method Without(keys: seq<nat>, gone: set<nat>) returns (rest: seq<nat>)
      ensures rest == Keep(keys, gone)
    {
      rest := [];
      for i := 0 to |keys|
        invariant rest == Keep(keys[..i], gone)
      {
        assert keys[..i + 1][..i] == keys[..i];
        if keys[i] !in gone {
          rest := rest + [keys[i]];
        }
      }
      assert keys[..|keys|] == keys;
    }

    method CompactOld(slug: string, now: int) returns (summary: Option<Event>)
      requires Ok(View())
      modifies this
      ensures View() == Compact(old(View()), slug, now) && Ok(View())
      ensures summary.None? <==> |Only(Contents(old(View())), Aged(now))| < COMPACTION_BATCH
      ensures summary.Some? ==> last in files && summary == Some(files[last])
    {
      hide Ok, Drop, Append, Only, Summarize, Matching, Contents;
      var aged, details := Scan(now);
      if |aged| < COMPACTION_BATCH {
        return None;
      }
      var e := Summarize(aged, slug, now);
      var number := Replace(details, e);
      return Some(e.(sequence := number));
    }

    /** Deletes the given numbers, then appends one event. */
    method Replace(gone: set<nat>, e: Event) returns (number: nat)
      requires Ok(View())
      modifies this
      ensures View() == Append(Drop(old(View()), gone), e) && Ok(View())
      ensures number == last && files.Keys >= {last} && files[last] == e.(sequence := number)
    {
      DropOk(View(), gone);
      hide Ok, Keep;
      files := files - gone;
      index := Without(index, gone);
      number := AppendOne(e);
    }

    /** The number that opening starts from: the highest on file or archived, or 0. */
    method LoadLast() returns (top: nat)
      ensures IsTop(top, files.Keys + archived)
    {
      top := Highest(files.Keys, 0);
      top := Highest(archived, top);
    }

    /** One of the two loops over a directory. */
    static method Highest(numbers: set<nat>, start: nat) returns (top: nat)
      ensures top >= start && (top == start || top in numbers) && forall k :: k in numbers ==> k <= top
    {
      top := start;
      var rest := numbers;
      while rest != {}
        invariant rest <= numbers && top >= start && (top == start || top in numbers)
        invariant forall k :: k in numbers && k !in rest ==> k <= top
        decreases |rest|
      {
        var k :| k in rest;
        rest := rest - {k};
        if k > top {
          top := k;
        }
      }
    }

    /** The first loop of compact: the old events in index order, and the numbers of the old details. */
    method Scan(now: int) returns (aged: seq<Event>, details: set<nat>)
      requires Ok(View())
      ensures aged == Only(Contents(View()), Aged(now))
      ensures details == Matching(View(), AgedDetail(now))
    {
      ghost var s := View();
      WhichAll(s, AgedDetail(now));
      OnlyNone(Aged(now));
      hide Ok, Which, Only, Matching;
      aged, details := [], {};
      for i := 0 to |index|
        invariant aged == Only(Contents(s)[..i], Aged(now)) && details == Which(s, i, AgedDetail(now))
      {
        WhichNext(s, i, AgedDetail(now));
        OnlyNext(Contents(s), i, Aged(now));
        var e := files[index[i]];
        if Meets(Aged(now), e) {
          aged := aged + [e];
          if e.kind == ValidationDetail {
            details := details + {index[i]};
          }
        }
      }
      assert Contents(s)[..|index|] == Contents(s);
    }
  }

  // ---------- pages ----------

  /** The first `limit` events numbered from start up to but not including end. */
  ghost function Page(s: Store, start: nat, end: nat, limit: nat): seq<Event>
    requires Ok(s)
    decreases end
  {
    if end <= start then []
    else
      var front := Page(s, start, end - 1, limit);
      if |front| < limit && end - 1 in s.files then front + [s.files[end - 1]] else front
  }

  lemma PageNext(s: Store, start: nat, k: nat, limit: nat)
    requires Ok(s) && start <= k && |Page(s, start, k, limit)| < limit
    ensures Page(s, start, k + 1, limit) == Page(s, start, k, limit) + if k in s.index then [s.files[k]] else []
  {
  }

  lemma {:induction false} PageFull(s: Store, start: nat, k: nat, end: nat, limit: nat)
    requires Ok(s) && (|Page(s, start, k, limit)| >= limit || k >= end) && (k <= end || end <= start)
    ensures Page(s, start, end, limit) == Page(s, start, k, limit) || end <= start
    ensures end <= start ==> Page(s, start, end, limit) == []
    decreases end
  {
    if k < end && end > start {
      PageFull(s, start, k, end - 1, limit);
    }
  }

  /** The first n events in index order are those numbered below end. */
  ghost predicate Cuts(s: Store, n: nat, end: nat) {
    && n <= |s.index|
    && (forall i :: 0 <= i < n ==> s.index[i] < end)
    && (forall i :: n <= i < |s.index| ==> s.index[i] >= end)
  }

  /** Moving the bound over one number moves the cut over its event, if there is one. */
  lemma CutNext(s: Store, n: nat, end: nat)
    requires Ok(s) && Cuts(s, n, end)
    ensures end in s.files ==> n < |s.index| && s.index[n] == end && Cuts(s, n + 1, end + 1)
    ensures end !in s.files ==> Cuts(s, n, end + 1)
  {
    forall i | n < i < |s.index| ensures s.index[i] > s.index[n] {}
    if end in s.files {
      var i :| 0 <= i < |s.index| && s.index[i] == end;
      assert i == n;
    }
  }

  lemma CutLength(s: Store, n: nat, end: nat)
    requires Ok(s) && Cuts(s, n, end)
    ensures n <= end
  {
    IndexGrows(s, n);
  }

  lemma {:induction false} IndexGrows(s: Store, n: nat)
    requires Ok(s) && n <= |s.index|
    ensures n > 0 ==> s.index[n - 1] >= n
  {
    if n > 1 {
      IndexGrows(s, n - 1);
    } else if n == 1 {
      assert s.index[0] in s.files;
    }
  }

  /** A page with room for all the numbers below end holds exactly the events below end. */
  lemma {:induction false} PageAll(s: Store, start: nat, end: nat, limit: nat) returns (n: nat)
    requires Ok(s) && start <= 1 && limit >= end
    ensures Cuts(s, n, end) && Page(s, start, end, limit) == Contents(s)[..n]
    decreases end
  {
    if end <= start {
      n := 0;
      CutZero(s, end);
    } else {
      n := PageAll(s, start, end - 1, limit);
      CutLength(s, n, end - 1);
      CutNext(s, n, end - 1);
      hide Ok, Cuts, Contents;
      if end - 1 in s.files {
        ContentsNext(s, n);
        n := n + 1;
      }
    }
  }

  lemma ContentsNext(s: Store, n: nat)
    requires Ok(s) && n < |s.index|
    ensures s.index[n] in s.files && Contents(s)[..n + 1] == Contents(s)[..n] + [s.files[s.index[n]]]
  {
    assert s.index[n] in s.index;
    assert Contents(s)[n] == s.files[s.index[n]];
  }

  lemma CutZero(s: Store, end: nat)
    requires Ok(s) && end <= 1
    ensures Cuts(s, 0, end)
  {
    forall i | 0 <= i < |s.index| ensures s.index[i] >= 1 { assert s.index[i] in s.files; }
  }

  lemma CutWhole(s: Store, n: nat)
    requires Ok(s) && Cuts(s, n, s.last + 1)
    ensures n == |s.index|
  {
    if n < |s.index| {
      IndexBelow(s, n);
    }
  }

  lemma PageWhole(s: Store, start: nat, limit: nat)
    requires Ok(s) && start <= 1 && limit > s.last
    ensures Page(s, start, s.last + 1, limit) == Contents(s)
  {
    var n := PageAll(s, start, s.last + 1, limit);
    CutWhole(s, n);
    assert Contents(s)[..|s.index|] == Contents(s);
  }

  // ---------- basic facts ----------

  lemma IndexBelow(s: Store, i: nat)
    requires Ok(s) && i < |s.index|
    ensures s.index[i] <= s.last
  {
    assert s.index[i] in s.files;
  }

  lemma MinusTwice(m: map<nat, Event>, gone: set<nat>, k: nat)
    ensures m - gone - {k} == m - (gone + {k})
    ensures k in m && k !in gone ==> k in m - gone && (m - gone)[k] == m[k]
  {
  }

  lemma OnlyNone(t: Test)
    ensures Only([], t) == []
  {
  }

  lemma OnlyNext(es: seq<Event>, n: nat, t: Test)
    requires n < |es|
    ensures Only(es[..n + 1], t) == Only(es[..n], t) + if Meets(t, es[n]) then [es[n]] else []
  {
    hide Meets;
    assert es[..n + 1][..n] == es[..n];
  }

  lemma PurgeFacts(s: Store, p: Policy, now: int)
    requires Ok(s)
    ensures var gone := Matching(s, Outdated(p, now));
      Purge(s, p, now) == Drop(s, gone) && Ok(Drop(s, gone)) && |gone| == |s.files| - |Drop(s, gone).files|
  {
    DropOk(s, Matching(s, Outdated(p, now)));
    hide Ok, Meets;
    DropSize(s, Matching(s, Outdated(p, now)));
  }

  lemma DropSize(s: Store, drop: set<nat>)
    requires drop <= s.files.Keys
    ensures |drop| == |s.files| - |Drop(s, drop).files|
  {
    assert s.files.Keys == (s.files - drop).Keys + drop;
  }

  /** The numbers among the first n of the index whose event meets the test. */
  ghost function Which(s: Store, n: nat, t: Test): set<nat>
    requires n <= |s.index|
  {
    set k | k in s.index[..n] && k in s.files && Meets(t, s.files[k])
  }

  lemma WhichNext(s: Store, n: nat, t: Test)
    requires Ok(s) && n < |s.index|
    ensures s.index[n] in s.files && s.index[n] !in Which(s, n, t)
    ensures Which(s, n + 1, t) == Which(s, n, t) + if Meets(t, s.files[s.index[n]]) then {s.index[n]} else {}
  {
    hide Meets;
    assert s.index[..n + 1] == s.index[..n] + [s.index[n]];
  }

  lemma WhichAll(s: Store, t: Test)
    requires Ok(s)
    ensures Which(s, |s.index|, t) == Matching(s, t)
  {
    hide Meets;
    assert s.index[..|s.index|] == s.index;
  }

  lemma AppendOk(s: Store, e: Event)
    requires Ok(s)
    ensures Ok(Append(s, e))
  {
    var r := Append(s, e);
    forall i, j | 0 <= i < j < |r.index| ensures r.index[i] < r.index[j] { assert s.index[i] in s.files; }
  }

  lemma {:induction false} AppendAllNumbers(s: Store, es: seq<Event>)
    requires Ok(s)
    ensures Ok(AppendAll(s, es)) && AppendAll(s, es).last == s.last + |es|
  {
    if es != [] {
      AppendAllNumbers(s, es[..|es| - 1]);
      AppendOk(AppendAll(s, es[..|es| - 1]), es[|es| - 1]);
    }
  }

  lemma {:induction false} KeepExact(keys: seq<nat>, drop: set<nat>)
    requires forall i, j :: 0 <= i < j < |keys| ==> keys[i] < keys[j]
    ensures var r := Keep(keys, drop);
      && (forall i, j :: 0 <= i < j < |r| ==> r[i] < r[j])
      && (forall k :: k in r <==> k in keys && k !in drop)
  {
    if keys != [] {
      var front := keys[..|keys| - 1];
      KeepExact(front, drop);
      assert keys == front + [keys[|keys| - 1]];
      forall i | 0 <= i < |Keep(front, drop)| ensures Keep(front, drop)[i] < keys[|keys| - 1] {
        assert Keep(front, drop)[i] in front;
      }
    }
  }

  lemma DropOk(s: Store, drop: set<nat>)
    requires Ok(s)
    ensures Ok(Drop(s, drop))
  {
    KeepExact(s.index, drop);
  }
}
