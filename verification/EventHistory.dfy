/** Whole histories of an event store: what appends, purges and compactions keep. */
module EventHistory {
  import opened EventStore

  datatype Op = One(e: Event) | Many(es: seq<Event>) | Purging(now: int) | Compacting(slug: string, now: int)

  ghost function Do(s: Store, p: Policy, op: Op): Store
    requires Ok(s)
  {
    match op
    case One(e) => Append(s, e)
    case Many(es) => AppendAll(s, es)
    case Purging(now) => Purge(s, p, now)
    case Compacting(slug, now) => Compact(s, slug, now)
  }

  lemma DoOk(s: Store, p: Policy, op: Op)
    requires Ok(s)
    ensures Ok(Do(s, p, op))
  {
    match op
    case One(e) => AppendOk(s, e);
    case Many(es) => AppendAllNumbers(s, es);
    case Purging(now) => DropOk(s, Matching(s, Outdated(p, now)));
    case Compacting(slug, now) => {
      DropOk(s, Matching(s, AgedDetail(now)));
      hide Ok, Matching, Drop, Append;
      AppendOk(Drop(s, Matching(s, AgedDetail(now))), Summarize(Only(Contents(s), Aged(now)), slug, now));
    }
  }

  ghost function Run(s: Store, p: Policy, ops: seq<Op>): (r: Store)
    requires Ok(s)
    ensures Ok(r)
  {
    if ops == [] then s
    else
      var before := Run(s, p, ops[..|ops| - 1]);
      DoOk(before, p, ops[|ops| - 1]);
      Do(before, p, ops[|ops| - 1])
  }

  /** The events that the calls hand in, in order. */
  function Given(ops: seq<Op>): seq<Event> {
    if ops == [] then [] else Given(ops[..|ops| - 1]) + GivenBy(ops[|ops| - 1])
  }

  function GivenBy(op: Op): seq<Event> {
    match op
    case One(e) => [e]
    case Many(es) => es
    case _ => []
  }

  // ---------- numbers ----------

  /** t came after s: what it holds is unaltered from s, or numbered above all that s gave out. */
  ghost predicate Follows(s: Store, t: Store) {
    && s.last <= t.last
    && forall k :: k in t.files ==> k > s.last || (k in s.files && t.files[k] == s.files[k])
  }

  lemma FollowsDo(s: Store, p: Policy, op: Op)
    requires Ok(s)
    ensures Follows(s, Do(s, p, op))
  {
    match op
    case Many(es) => FollowsMany(s, es);
    case Compacting(slug, now) => {
      hide Summarize, Only, Matching, Contents;
    }
    case _ => {}
  }

  lemma {:induction false} FollowsMany(s: Store, es: seq<Event>)
    requires Ok(s)
    ensures Follows(s, AppendAll(s, es))
  {
    if es != [] {
      FollowsMany(s, es[..|es| - 1]);
    }
  }

  /** Over any run numbers only grow, no stored event is altered, and no number is given out twice. */
  lemma {:induction false} NeverReused(s: Store, p: Policy, ops: seq<Op>)
    requires Ok(s)
    ensures Follows(s, Run(s, p, ops))
  {
    if ops != [] {
      NeverReused(s, p, ops[..|ops| - 1]);
      var t := Run(s, p, ops[..|ops| - 1]);
      FollowsDo(t, p, ops[|ops| - 1]);
      hide Do, Run, Ok;
      FollowsOn(s, t, Do(t, p, ops[|ops| - 1]));
      assert Run(s, p, ops) == Do(t, p, ops[|ops| - 1]) by { RunLast(s, p, ops); }
    }
  }

  lemma RunLast(s: Store, p: Policy, ops: seq<Op>)
    requires Ok(s) && ops != []
    ensures Run(s, p, ops) == Do(Run(s, p, ops[..|ops| - 1]), p, ops[|ops| - 1])
  {
  }

  /** Reopening takes the highest number on file or archived for the last one given out. It is that
      number exactly when the newest event is in one of the two places; otherwise the next append reuses
      a number. */
  lemma ReopenExact(s: Store, archived: set<nat>, top: nat, e: Event)
    requires Ok(s) && s.last > 0 && IsTop(top, s.files.Keys + archived) && forall k :: k in archived ==> k <= s.last
    ensures Ok(s.(last := top)) && top <= s.last
    ensures Follows(s, Append(s.(last := top), e)) <==> s.last in s.files || s.last in archived
  {
    var t := Append(s.(last := top), e);
    assert t.last == top + 1 && t.last in t.files;
    assert top + 1 !in s.files.Keys + archived;
    if s.last in s.files || s.last in archived {
      assert s.last in s.files.Keys + archived;
    }
  }

  /** The life of a directory: opened over an archive, run, and opened again. */
  lemma ReopenAfterRun(archived: set<nat>, first: nat, p: Policy, ops: seq<Op>, top: nat, e: Event)
    requires IsTop(first, archived) && Ok(Store(map[], [], first))
    requires var s := Run(Store(map[], [], first), p, ops); s.last > 0 && IsTop(top, s.files.Keys + archived)
    ensures var s := Run(Store(map[], [], first), p, ops);
      Follows(s, Append(s.(last := top), e)) <==> s.last in s.files || s.last in archived
  {
    NeverReused(Store(map[], [], first), p, ops);
    hide Run;
    ReopenExact(Run(Store(map[], [], first), p, ops), archived, top, e);
  }

  lemma FollowsOn(s: Store, t: Store, u: Store)
    requires Follows(s, t) && Follows(t, u)
    ensures Follows(s, u)
  {
  }

  // ---------- filters ----------

  lemma {:induction false} OnlyConcat(a: seq<Event>, b: seq<Event>, t: Test)
    ensures Only(a + b, t) == Only(a, t) + Only(b, t)
  {
    hide Meets;
    if b == [] {
      assert a + b == a;
    } else {
      OnlyConcat(a, b[..|b| - 1], t);
      assert (a + b)[..|a + b| - 1] == a + b[..|b| - 1];
    }
  }

  lemma OnlyOne(e: Event, t: Test)
    ensures Only([e], t) == if Meets(t, e) then [e] else []
  {
    hide Meets;
    assert [e][..0] == [];
  }

  /** A filter that lets through all that a second one wants does not affect the second. */
  lemma {:induction false} OnlyWithin(es: seq<Event>, t: Test, u: Test)
    requires forall e :: e in es && Meets(u, e) ==> Meets(t, e)
    ensures Only(Only(es, t), u) == Only(es, u)
  {
    if es != [] {
      var front, l := es[..|es| - 1], es[|es| - 1];
      OnlyWithin(front, t, u);
      assert l in es && (Meets(u, l) ==> Meets(t, l));
      hide Meets;
      OnlyConcat(Only(front, t), if Meets(t, l) then [l] else [], u);
      OnlyOne(l, u);
      OnlyNone(u);
    }
  }

  lemma {:induction false} OnlyCommute(es: seq<Event>, t: Test, u: Test)
    ensures Only(Only(es, t), u) == Only(Only(es, u), t)
  {
    hide Meets;
    if es != [] {
      var front, l := es[..|es| - 1], es[|es| - 1];
      OnlyCommute(front, t, u);
      OnlyConcat(Only(front, t), if Meets(t, l) then [l] else [], u);
      OnlyConcat(Only(front, u), if Meets(u, l) then [l] else [], t);
      OnlyOne(l, t);
      OnlyOne(l, u);
      OnlyNone(t);
      OnlyNone(u);
    }
  }

  /** A test and its negation split a list. */
  lemma {:induction false} Splits(es: seq<Event>, t: Test)
    ensures |Only(es, t)| + |Only(es, Not(t))| == |es|
    ensures Sum(Only(es, t)) + Sum(Only(es, Not(t))) == Sum(es)
  {
    if es != [] {
      var front, l := es[..|es| - 1], es[|es| - 1];
      Splits(front, t);
      assert Meets(Not(t), l) <==> !Meets(t, l);
      hide Meets;
      SumOne(Only(front, t), l);
      SumOne(Only(front, Not(t)), l);
    }
  }

  lemma SumOne(es: seq<Event>, e: Event)
    ensures Sum(es + [e]) == Sum(es) + e.cost && es + [] == es
  {
    assert (es + [e])[..|es + [e]| - 1] == es;
  }

  // ---------- contents after each operation ----------

  ghost function At(files: map<nat, Event>, keys: seq<nat>): seq<Event>
    requires forall k :: k in keys ==> k in files
  {
    seq(|keys|, i requires 0 <= i < |keys| => files[keys[i]])
  }

  lemma {:induction false} KeepAt(files: map<nat, Event>, keys: seq<nat>, drop: set<nat>, t: Test)
    requires forall k :: k in keys ==> k in files && (k in drop <==> Meets(t, files[k]))
    ensures forall k :: k in Keep(keys, drop) ==> k in files - drop
    ensures At(files - drop, Keep(keys, drop)) == Only(At(files, keys), Not(t))
  {
    if keys != [] {
      var front, l := keys[..|keys| - 1], keys[|keys| - 1];
      assert keys == front + [l] && l in keys;
      KeepAt(files, front, drop, t);
      assert Meets(Not(t), files[l]) <==> l !in drop;
      AtLast(files, front, l);
      assert Only(At(files, keys), Not(t))
        == Only(At(files, front), Not(t)) + if Meets(Not(t), files[l]) then [files[l]] else [];
      hide Meets, Only;
      if l !in drop {
        AtLast(files - drop, Keep(front, drop), l);
      }
    }
  }

  lemma AtLast(files: map<nat, Event>, front: seq<nat>, l: nat)
    requires l in files && forall k :: k in front ==> k in files
    ensures forall k :: k in front + [l] ==> k in files
    ensures At(files, front + [l]) == At(files, front) + [files[l]]
    ensures |At(files, front)| == |At(files, front + [l])| - 1
    ensures At(files, front + [l])[..|At(files, front)|] == At(files, front)
  {
  }

  lemma DropContents(s: Store, t: Test)
    requires Ok(s)
    ensures Ok(Drop(s, Matching(s, t)))
    ensures Contents(Drop(s, Matching(s, t))) == Only(Contents(s), Not(t))
  {
    hide Meets, Only;
    DropOk(s, Matching(s, t));
    KeepAt(s.files, s.index, Matching(s, t), t);
    assert Contents(s) == At(s.files, s.index);
    var d := Drop(s, Matching(s, t));
    assert Contents(d) == At(d.files, d.index);
  }

  lemma AppendContents(s: Store, e: Event)
    requires Ok(s)
    ensures Ok(Append(s, e)) && Contents(Append(s, e)) == Contents(s) + [e.(sequence := s.last + 1)]
  {
    AppendOk(s, e);
    forall i | 0 <= i < |s.index| ensures s.index[i] in s.files && s.index[i] != s.last + 1 {
      assert s.index[i] in s.index;
    }
  }

  /** Purge removes exactly the outdated events and leaves the rest in order. */
  lemma PurgeExact(s: Store, p: Policy, now: int)
    requires Ok(s)
    ensures Ok(Purge(s, p, now)) && Contents(Purge(s, p, now)) == Only(Contents(s), Not(Outdated(p, now)))
  {
    DropContents(s, Outdated(p, now));
  }

  /** Compaction removes the old details and adds, last, one summary of all the old events. */
  lemma CompactExact(s: Store, slug: string, now: int)
    requires Ok(s) && |Only(Contents(s), Aged(now))| >= COMPACTION_BATCH
    ensures Ok(Compact(s, slug, now))
    ensures Contents(Compact(s, slug, now)) == Only(Contents(s), Not(AgedDetail(now)))
      + [Summarize(Only(Contents(s), Aged(now)), slug, now).(sequence := s.last + 1)]
  {
    DropContents(s, AgedDetail(now));
    hide Contents, Matching, Only, Ok, Summarize, Append;
    AppendContents(Drop(s, Matching(s, AgedDetail(now))), Summarize(Only(Contents(s), Aged(now)), slug, now));
  }

  /** What compaction leaves of the old events: those that are not details. */
  lemma AgedAfter(s: Store, slug: string, now: int)
    requires Ok(s) && |Only(Contents(s), Aged(now))| >= COMPACTION_BATCH
    ensures Ok(Compact(s, slug, now))
    ensures Only(Contents(Compact(s, slug, now)), Aged(now))
      == Only(Only(Contents(s), Aged(now)), Not(AgedDetail(now)))
  {
    CompactExact(s, slug, now);
    var c := Contents(s);
    var e := Summarize(Only(c, Aged(now)), slug, now).(sequence := s.last + 1);
    assert !Meets(Aged(now), e);
    hide Contents, Compact, Only, Ok, Meets;
    OnlyConcat(Only(c, Not(AgedDetail(now))), [e], Aged(now));
    OnlyOne(e, Aged(now));
    OnlyCommute(c, Not(AgedDetail(now)), Aged(now));
  }

  /** What a summary says of the events it covers, the cost of the details removed with it, and the
      cost of the old events still stored after it. */
  ghost predicate Accounts(summary: Event, covered: nat, removed: real, left: real) {
    && summary.payload.Summary?
    && summary.payload.compacted == covered
    && summary.payload.passes + summary.payload.failures == covered
    && summary.payload.totalCost == removed + left
  }

  /** The summary counts every event it covers once, as passed or as failed; its cost is that of the
      details removed and of the old events left; and the store loses the cost of the details. */
  lemma SummaryAccounts(s: Store, slug: string, now: int)
    requires Ok(s) && |Only(Contents(s), Aged(now))| >= COMPACTION_BATCH
    ensures var t := Compact(s, slug, now);
      var removed := Only(Contents(s), AgedDetail(now));
      && Ok(t) && t.last in t.files
      && Accounts(t.files[t.last], |Only(Contents(s), Aged(now))|, Sum(removed), Sum(Only(Contents(t), Aged(now))))
      && Sum(Contents(t)) == Sum(Contents(s)) - Sum(removed)
      && |Contents(t)| == |Contents(s)| - |removed| + 1
  {
    var c, aged := Contents(s), Only(Contents(s), Aged(now));
    CompactExact(s, slug, now);
    AgedAfter(s, slug, now);
    OnlyWithin(c, Aged(now), AgedDetail(now));
    hide Contents, Only, Sum, Ok, Meets, Matching, Drop;
    Splits(c, AgedDetail(now));
    Splits(aged, Passing);
    Splits(aged, AgedDetail(now));
    SumOne(Only(c, Not(AgedDetail(now))), Summarize(aged, slug, now).(sequence := s.last + 1));
  }

  /** Compacting twice at one moment adds a second summary exactly when ten or more old events that
      are not details were left behind. */
  lemma CompactAgain(s: Store, slug: string, now: int)
    requires Ok(s) && |Only(Contents(s), Aged(now))| >= COMPACTION_BATCH
    ensures Ok(Compact(s, slug, now))
    ensures Compact(Compact(s, slug, now), slug, now) == Compact(s, slug, now)
      <==> |Only(Only(Contents(s), Aged(now)), Not(AgedDetail(now)))| < COMPACTION_BATCH
  {
    AgedAfter(s, slug, now);
    hide Contents, Only, Ok, Meets, Matching, Summarize;
  }

  // ---------- events kept for ever ----------

  /** The kinds that no policy deadline and no compaction removes, and that compaction does not add. */
  predicate Lasting(p: Policy, k: Kind) {
    Ttl(p, k).None? && k != ValidationDetail && k != WeeklySummary
  }

  /** Events without their numbers. */
  function Bare(es: seq<Event>): seq<Event> {
    seq(|es|, i requires 0 <= i < |es| => es[i].(sequence := 0))
  }

  lemma {:induction false} BareOnly(es: seq<Event>, k: Kind)
    ensures Only(Bare(es), OfKind(k)) == Bare(Only(es, OfKind(k)))
  {
    if es != [] {
      BareOnly(es[..|es| - 1], k);
      assert Bare(es)[..|es| - 1] == Bare(es[..|es| - 1]);
    }
  }

  lemma BareConcat(a: seq<Event>, b: seq<Event>)
    ensures Bare(a + b) == Bare(a) + Bare(b)
  {
  }

  /** The events of one kind in a list, without their numbers. */
  function OfOneKind(es: seq<Event>, k: Kind): seq<Event> {
    Bare(Only(es, OfKind(k)))
  }

  lemma OfOneKindConcat(a: seq<Event>, b: seq<Event>, k: Kind)
    ensures OfOneKind(a + b, k) == OfOneKind(a, k) + OfOneKind(b, k)
  {
    OnlyConcat(a, b, OfKind(k));
    hide Only;
    BareConcat(Only(a, OfKind(k)), Only(b, OfKind(k)));
  }

  /** t holds, of kind k and in order, what s holds and then `more`. */
  ghost predicate Gains(s: Store, t: Store, k: Kind, more: seq<Event>) {
    && Ok(s) && Ok(t)
    && OfOneKind(Contents(t), k) == OfOneKind(Contents(s), k) + more
  }

  lemma GainsThen(s: Store, t: Store, u: Store, k: Kind, a: seq<Event>, b: seq<Event>)
    requires Gains(s, t, k, a) && Gains(t, u, k, b)
    ensures Gains(s, u, k, a + b)
  {
    hide Ok, Contents, OfOneKind;
    assert OfOneKind(Contents(s), k) + a + b == OfOneKind(Contents(s), k) + (a + b);
  }

  lemma GainsNone(s: Store, k: Kind)
    requires Ok(s)
    ensures Gains(s, s, k, [])
  {
    hide Ok, Contents, OfOneKind;
  }

  lemma AppendKind(s: Store, e: Event, k: Kind)
    requires Ok(s)
    ensures Gains(s, Append(s, e), k, OfOneKind([e], k))
  {
    AppendContents(s, e);
    hide Contents, Append, Ok;
    var f := e.(sequence := s.last + 1);
    OfOneKindConcat(Contents(s), [f], k);
    OnlyOne(e, OfKind(k));
    OnlyOne(f, OfKind(k));
    assert OfOneKind([e], k) == OfOneKind([f], k);
    hide OfOneKind, Only;
  }

  lemma AppendKindOn(s: Store, t: Store, front: seq<Event>, l: Event, k: Kind)
    requires Ok(t) && Gains(s, t, k, OfOneKind(front, k))
    ensures Gains(s, Append(t, l), k, OfOneKind(front + [l], k))
  {
    hide *;
    AppendKind(t, l, k);
    GainsThen(s, t, Append(t, l), k, OfOneKind(front, k), OfOneKind([l], k));
    OfOneKindConcat(front, [l], k);
  }

  lemma {:induction false} AppendAllKind(s: Store, es: seq<Event>, k: Kind)
    requires Ok(s)
    ensures Gains(s, AppendAll(s, es), k, OfOneKind(es, k))
  {
    if es == [] {
      GainsNone(s, k);
    } else {
      var front, l := es[..|es| - 1], es[|es| - 1];
      var t := AppendAll(s, front);
      AppendAllNumbers(s, front);
      AppendAllKind(s, front, k);
      assert AppendAll(s, es) == Append(t, l);
      assert front + [l] == es;
      hide *;
      AppendKindOn(s, t, front, l, k);
    }
  }

  lemma DropKind(s: Store, t: Test, k: Kind)
    requires Ok(s) && forall e :: e in Contents(s) && e.kind == k ==> !Meets(t, e)
    ensures Gains(s, Drop(s, Matching(s, t)), k, [])
  {
    DropContents(s, t);
    OnlyWithin(Contents(s), Not(t), OfKind(k));
  }

  lemma CompactKind(s: Store, slug: string, now: int, k: Kind)
    requires Ok(s) && k != ValidationDetail && k != WeeklySummary
    ensures Gains(s, Compact(s, slug, now), k, [])
  {
    GainsNone(s, k);
    if |Only(Contents(s), Aged(now))| >= COMPACTION_BATCH {
      var e := Summarize(Only(Contents(s), Aged(now)), slug, now);
      var t := Drop(s, Matching(s, AgedDetail(now)));
      DropKind(s, AgedDetail(now), k);
      assert OfOneKind([e], k) == [] by { OnlyOne(e, OfKind(k)); }
      assert Ok(t);
      hide Gains, OfOneKind, Ok, Only, Drop, Matching, Contents;
      AppendKind(t, e, k);
      GainsThen(s, t, Append(t, e), k, [], []);
    }
  }

  lemma DoKind(s: Store, p: Policy, op: Op, k: Kind)
    requires Ok(s) && Lasting(p, k)
    ensures Gains(s, Do(s, p, op), k, OfOneKind(GivenBy(op), k))
  {
    match op
    case One(e) => AppendKind(s, e, k);
    case Many(es) => AppendAllKind(s, es, k);
    case Purging(now) => DropKind(s, Outdated(p, now), k);
    case Compacting(slug, now) => CompactKind(s, slug, now, k);
  }

  /** Over any run of appends, batches, purges and compactions, the events of a lasting kind in the
      store are exactly those it held and then those handed in, in the order they were handed in. */
  lemma {:induction false} LastingKept(s: Store, p: Policy, ops: seq<Op>, k: Kind)
    requires Lasting(p, k) && Ok(s)
    ensures OfOneKind(Contents(Run(s, p, ops)), k) == OfOneKind(Contents(s), k) + OfOneKind(Given(ops), k)
    ensures Gains(s, Run(s, p, ops), k, OfOneKind(Given(ops), k))
  {
    if ops == [] {
      GainsNone(s, k);
    } else {
      var front, l := ops[..|ops| - 1], ops[|ops| - 1];
      var before := Run(s, p, front);
      LastingKept(s, p, front, k);
      DoKind(before, p, l, k);
      GainsThen(s, before, Do(before, p, l), k, OfOneKind(Given(front), k), OfOneKind(GivenBy(l), k));
      OfOneKindConcat(Given(front), GivenBy(l), k);
      hide OfOneKind, Do, Contents, Ok;
    }
  }

  // ---------- kinds that are not kept ----------

  lemma BareAppend(s: Store, e: Event)
    requires Ok(s)
    ensures Ok(Append(s, e)) && Bare(Contents(Append(s, e))) == Bare(Contents(s)) + Bare([e])
  {
    AppendContents(s, e);
    hide Contents, Append, Ok;
    BareConcat(Contents(s), [e.(sequence := s.last + 1)]);
  }

  /** A batch puts exactly its events, in order, behind what is stored. */
  lemma {:induction false} AppendAllContents(s: Store, es: seq<Event>)
    requires Ok(s)
    ensures Ok(AppendAll(s, es)) && Bare(Contents(AppendAll(s, es))) == Bare(Contents(s)) + Bare(es)
  {
    if es != [] {
      var front, l := es[..|es| - 1], es[|es| - 1];
      var t := AppendAll(s, front);
      AppendAllContents(s, front);
      assert AppendAll(s, es) == Append(t, l);
      BareConcat(front, [l]);
      assert front + [l] == es;
      hide Ok, Contents, Bare, Append, AppendAll;
      BareAppend(t, l);
    }
  }

  lemma {:induction false} OnlyAll(es: seq<Event>, t: Test)
    requires forall e :: e in es ==> Meets(t, e)
    ensures Only(es, t) == es
  {
    hide Meets;
    if es != [] {
      OnlyAll(es[..|es| - 1], t);
    }
  }

  lemma {:induction false} OnlyEmpty(es: seq<Event>, t: Test)
    requires forall e :: e in es ==> !Meets(t, e)
    ensures Only(es, t) == []
  {
    hide Meets;
    if es != [] {
      OnlyEmpty(es[..|es| - 1], t);
    }
  }

  function Empty(): Store {
    Store(map[], [], 0)
  }

  lemma EmptyOk()
    ensures Ok(Empty()) && Contents(Empty()) == []
  {
  }

  /** A run of two calls. */
  lemma RunTwo(p: Policy, a: Op, b: Op, s: Store)
    requires Ok(Empty()) && s == Do(Empty(), p, a)
    ensures Ok(s) && Run(Empty(), p, [a, b]) == Do(s, p, b)
    ensures Given([a, b]) == GivenBy(a) + GivenBy(b)
  {
    DoOk(Empty(), p, a);
    hide Ok, Do, GivenBy, Empty;
    assert [a, b][..1] == [a] && [a][..0] == [];
    assert Run(Empty(), p, [a]) == s;
    assert Given([a]) == GivenBy(a);
  }

  predicate OldDetail(e: Event) {
    e.kind == ValidationDetail && e.at == 0
  }

  /** Compaction turns ten old details into one summary. */
  lemma SummedUp(s: Store, now: int)
    requires Ok(s) && now > COMPACTION_AGE
    requires |Contents(s)| == 10 && forall e :: e in Contents(s) ==> OldDetail(e)
    ensures Ok(Compact(s, "", now)) && |Contents(Compact(s, "", now))| == 1
    ensures Contents(Compact(s, "", now))[0].kind == WeeklySummary
  {
    OnlyAll(Contents(s), Aged(now));
    OnlyEmpty(Contents(s), Not(AgedDetail(now)));
    CompactExact(s, "", now);
  }

  lemma BatchOf(e: Event, s: Store)
    requires OldDetail(e) && Ok(Empty()) && s == AppendAll(Empty(), seq(10, i => e))
    ensures Ok(s) && |Contents(s)| == 10 && forall d :: d in Contents(s) ==> OldDetail(d)
  {
    var es := seq(10, i => e);
    EmptyOk();
    AppendAllContents(Empty(), es);
    hide Ok, Contents, Empty, AppendAll;
    var c := Contents(s);
    assert Bare(c) == Bare(es);
    assert |c| == |Bare(c)| == |es|;
    forall i | 0 <= i < |c| ensures OldDetail(c[i]) {
      assert Bare(c)[i] == Bare(es)[i];
    }
  }

  /** Ten old details, then a compaction: the details go and a summary comes. */
  lemma CompactLoses(p: Policy, k: Kind) returns (ops: seq<Op>)
    requires k == ValidationDetail || k == WeeklySummary
    ensures Ok(Empty()) && |OfOneKind(Contents(Run(Empty(), p, ops)), k)| != |OfOneKind(Given(ops), k)|
  {
    EmptyOk();
    hide Only, Contents, Keep, Matching, Compact, Append, AppendAll, Run, Given, Ok, Empty;
    var e := Event(0, "", ValidationDetail, 0, Plain("", true), 0.0);
    var es, now := seq(10, i => e), COMPACTION_AGE + 1;
    var s := AppendAll(Empty(), es);
    ops := [Many(es), Compacting("", now)];
    RunTwo(p, ops[0], ops[1], s);
    assert Run(Empty(), p, ops) == Compact(s, "", now);
    assert Given(ops) == es + [];
    BatchOf(e, s);
    SummedUp(s, now);
    TenOfKind(e, k);
    hide *;
    OneOfKind(Contents(Compact(s, "", now)), k);
    assert es + [] == es;
  }

  lemma TenOfKind(e: Event, k: Kind)
    ensures |OfOneKind(seq(10, i => e), k)| == if e.kind == k then 10 else 0
  {
    if e.kind == k {
      OnlyAll(seq(10, i => e), OfKind(k));
    } else {
      OnlyEmpty(seq(10, i => e), OfKind(k));
    }
  }

  lemma OneOfKind(es: seq<Event>, k: Kind)
    requires |es| == 1
    ensures |OfOneKind(es, k)| == if es[0].kind == k then 1 else 0
  {
    OnlyOne(es[0], OfKind(k));
    assert es == [es[0]];
  }

  /** One event, then a purge after its deadline. */
  lemma PurgeLoses(p: Policy, k: Kind) returns (ops: seq<Op>)
    requires Ttl(p, k).Some?
    ensures Ok(Empty()) && |OfOneKind(Contents(Run(Empty(), p, ops)), k)| != |OfOneKind(Given(ops), k)|
  {
    EmptyOk();
    hide Only, Contents, Keep, Matching, Purge, Append, Run, Given, Ok, Empty;
    var e := Event(0, "", k, 0, Plain("", true), 0.0);
    var now := Ttl(p, k).value + 1;
    var s := Append(Empty(), e);
    ops := [One(e), Purging(now)];
    RunTwo(p, ops[0], ops[1], s);
    assert Run(Empty(), p, ops) == Purge(s, p, now);
    assert Given(ops) == [e] + [];
    PurgedAway(e, s, p, now);
    hide *;
    assert [e] + [] == [e];
    OneOfKind([e], k);
    NoneOfKind(k);
  }

  lemma NoneOfKind(k: Kind)
    ensures OfOneKind([], k) == []
  {
  }

  lemma PurgedAway(e: Event, s: Store, p: Policy, now: int)
    requires Ok(Empty()) && s == Append(Empty(), e) && Meets(Outdated(p, now), e)
    ensures Ok(s) && Ok(Purge(s, p, now)) && Contents(Purge(s, p, now)) == []
  {
    EmptyOk();
    AppendContents(Empty(), e);
    PurgeExact(s, p, now);
    OnlyOne(e.(sequence := 1), Not(Outdated(p, now)));
    assert Contents(s) == [e.(sequence := 1)];
  }

  ghost predicate StoredAsGiven(p: Policy, ops: seq<Op>, k: Kind)
    requires Ok(Empty())
  {
    OfOneKind(Contents(Run(Empty(), p, ops)), k) == OfOneKind(Given(ops), k)
  }

  /** A kind is stored exactly as handed in over all runs if and only if its policy sets no deadline
      and it is not one of the two kinds that compaction deals in. */
  lemma KeptExactlyWhenLasting(p: Policy, k: Kind)
    ensures Ok(Empty())
    ensures (forall ops :: StoredAsGiven(p, ops, k)) <==> Lasting(p, k)
  {
    EmptyOk();
    if Lasting(p, k) {
      forall ops ensures StoredAsGiven(p, ops, k) {
        LastingKept(Empty(), p, ops, k);
        OnlyNone(OfKind(k));
      }
    } else {
      var ops: seq<Op>;
      if Ttl(p, k).Some? {
        ops := PurgeLoses(p, k);
      } else {
        ops := CompactLoses(p, k);
      }
      hide Only, Contents, Run, Ok, OfOneKind, Given, Empty;
      assert !StoredAsGiven(p, ops, k);
    }
  }

  /** The default table keeps every state transition, through any run. */
  lemma TransitionsKept(ops: seq<Op>)
    ensures Ok(Empty())
    ensures OfOneKind(Contents(Run(Empty(), RETENTION, ops)), StateTransition)
      == OfOneKind(Given(ops), StateTransition)
  {
    KeptExactlyWhenLasting(RETENTION, StateTransition);
    hide Ok, Contents, Run, OfOneKind, Given, Empty;
    assert Lasting(RETENTION, StateTransition);
    assert StoredAsGiven(RETENTION, ops, StateTransition);
  }
}
