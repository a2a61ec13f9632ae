/** Cascades on the event bus: what is dispatched, how often, and how far it travels. */
module EventCascade {
  import opened EventBus

  // ---------- once per trace and kind ----------

  datatype Op =
    | Subscribing(kind: string, handler: Handler)
    | Unsubscribing(kind: string, handler: Handler)
    | Emitting(e: Event)
    | Running
    | Clearing

  function Do(b: Bus, op: Op): Bus {
    match op
    case Subscribing(kind, h) => b.(handlers := b.handlers[kind := Subscribers(b.handlers, kind) + [h]])
    case Unsubscribing(kind, h) => b.(handlers := Unsubscribed(b.handlers, kind, h))
    case Emitting(e) => Emit(b, e)
    case Running => if b.queue == [] then b else RunNext(b)
    case Clearing => ClearTraces(b)
  }

  function Run(ops: seq<Op>): Bus {
    if ops == [] then Bus(map[], {}, [], [], []) else Do(Run(ops[..|ops| - 1]), ops[|ops| - 1])
  }

  lemma KeyDecides(trace: string, a: string, b: string)
    ensures Key(trace, a) == Key(trace, b) <==> a == b
  {
    assert Key(trace, a)[|trace|..] == ":" + a && Key(trace, b)[|trace|..] == ":" + b;
    assert (":" + a)[1..] == a && (":" + b)[1..] == b;
  }

  /** Events are sent below the hop limit and once for each pair, and their keys are kept. */
  ghost predicate Ok(b: Bus) {
    && (forall i :: 0 <= i < |b.sent| ==> b.sent[i].hop < MAX_HOPS)
    && (forall i :: 0 <= i < |b.sent| ==> Key(b.sent[i].trace, b.sent[i].kind) in b.seen)
    && (forall i, j :: 0 <= i < j < |b.sent| ==> !SamePair(b.sent[i], b.sent[j]))
    && Limited(b)
  }

  predicate SamePair(d: Event, e: Event) {
    d.trace == e.trace && d.kind == e.kind
  }

  lemma EmitOk(b: Bus, e: Event)
    requires Ok(b)
    ensures Ok(Emit(b, e))
  {
    hide Key, Subscribers;
  }

  lemma {:induction false} EmitAllOk(b: Bus, e: Event, kinds: seq<string>)
    requires Ok(b)
    ensures Ok(EmitAll(b, e, kinds))
  {
    hide Ok;
    if kinds != [] {
      EmitAllOk(b, e, kinds[..|kinds| - 1]);
      EmitOk(EmitAll(b, e, kinds[..|kinds| - 1]), Next(e, kinds[|kinds| - 1]));
    }
  }

  lemma DoOk(b: Bus, op: Op)
    requires Ok(b)
    ensures Ok(Do(b, op))
  {
    match op
    case Emitting(e) => EmitOk(b, e);
    case Running => {
      if b.queue != [] {
        var c := b.(queue := b.queue[1..]);
        assert Ok(c);
        EmitAllOk(c, b.queue[0].event, Emissions(b.queue[0].handler, b.queue[0].event.kind));
      }
    }
    case _ => {}
  }

  /** Over any run of subscriptions, emissions, tasks and clearings, no event with five hops or more is
      dispatched, and no pair of trace and kind is dispatched twice between clearings. */
  lemma {:induction false} DispatchedOnce(ops: seq<Op>)
    ensures Ok(Run(ops))
    ensures forall i :: 0 <= i < |Run(ops).sent| ==> Run(ops).sent[i].hop < 5
    ensures forall i, j :: 0 <= i < j < |Run(ops).sent| ==> !SamePair(Run(ops).sent[i], Run(ops).sent[j])
  {
    if ops != [] {
      DispatchedOnce(ops[..|ops| - 1]);
      DoOk(Run(ops[..|ops| - 1]), ops[|ops| - 1]);
    }
  }

  // ---------- which emissions are dispatched ----------

  /** Some of the events has this trace and kind, joined by a colon. */
  ghost predicate SameKey(sent: seq<Event>, key: string) {
    exists i :: 0 <= i < |sent| && sent[i].trace + (":" + sent[i].kind) == key
  }

  /** The keys seen are those of the events dispatched since the last clearing. */
  ghost predicate SeenSent(b: Bus) {
    forall key :: key in b.seen <==> SameKey(b.sent, key)
  }

  lemma EmitSeen(b: Bus, e: Event)
    requires SeenSent(b)
    ensures SeenSent(Emit(b, e))
  {
    var c := Emit(b, e);
    if c.sent != b.sent {
      forall key ensures SameKey(c.sent, key) <==> SameKey(b.sent, key) || key == Key(e.trace, e.kind) {
        assert c.sent[|b.sent|] == e;
        if SameKey(b.sent, key) {
          var i :| 0 <= i < |b.sent| && b.sent[i].trace + (":" + b.sent[i].kind) == key;
          assert c.sent[i] == b.sent[i];
        }
      }
    }
  }

  lemma {:induction false} EmitAllSeen(b: Bus, e: Event, kinds: seq<string>)
    requires SeenSent(b)
    ensures SeenSent(EmitAll(b, e, kinds))
  {
    hide SeenSent;
    if kinds != [] {
      EmitAllSeen(b, e, kinds[..|kinds| - 1]);
      EmitSeen(EmitAll(b, e, kinds[..|kinds| - 1]), Next(e, kinds[|kinds| - 1]));
    }
  }

  lemma DoSeen(b: Bus, op: Op)
    requires SeenSent(b)
    ensures SeenSent(Do(b, op))
  {
    match op
    case Emitting(e) => EmitSeen(b, e);
    case Running => {
      if b.queue != [] {
        var c := b.(queue := b.queue[1..]);
        EmitAllSeen(c, b.queue[0].event, Emissions(b.queue[0].handler, b.queue[0].event.kind));
      }
    }
    case _ => {}
  }

  lemma {:induction false} RunSeen(ops: seq<Op>)
    ensures SeenSent(Run(ops))
  {
    if ops != [] {
      RunSeen(ops[..|ops| - 1]);
      DoSeen(Run(ops[..|ops| - 1]), ops[|ops| - 1]);
    }
  }

  /** After any run an event is dispatched to every subscriber of its kind, in order, if and only if it
      has made fewer than five hops and no event dispatched since the last clearing has its key. What is
      not dispatched leaves a warning that says why, and nothing else. */
  lemma DispatchedExactly(ops: seq<Op>, e: Event)
    ensures var b, c := Run(ops), Run(ops + [Emitting(e)]);
      && c.handlers == b.handlers
      && if e.hop < 5 && !SameKey(b.sent, e.trace + (":" + e.kind)) then
           && c.sent == b.sent + [e] && c.warnings == b.warnings && b.queue <= c.queue
           && |c.queue| == |b.queue| + |Subscribers(b.handlers, e.kind)|
           && forall i :: 0 <= i < |Subscribers(b.handlers, e.kind)| ==>
                c.queue[|b.queue| + i] == Task(Subscribers(b.handlers, e.kind)[i], e)
         else
           && c.sent == b.sent && c.queue == b.queue && c.seen == b.seen
           && c.warnings == b.warnings + [if e.hop >= 5 then TooManyHops(e) else Duplicate(e)]
  {
    RunSeen(ops);
    assert (ops + [Emitting(e)])[..|ops|] == ops;
    assert Key(e.trace, e.kind) in Run(ops).seen <==> SameKey(Run(ops).sent, e.trace + (":" + e.kind));
    hide Subscribers, SameKey, SeenSent;
  }

  /** Once the traces are cleared, any pair below the hop limit is dispatched again, whatever came before;
      subscriptions, waiting tasks and warnings are not touched. */
  lemma ClearedAgain(ops: seq<Op>, e: Event)
    ensures var b, c, d := Run(ops), Run(ops + [Clearing]), Run(ops + [Clearing, Emitting(e)]);
      && c == Bus(b.handlers, {}, b.warnings, b.queue, [])
      && (e.hop < 5 <==> d.sent == [e])
      && (e.hop < 5 ==> d.warnings == b.warnings && b.queue <= d.queue)
  {
    assert (ops + [Clearing])[..|ops|] == ops;
    var more := ops + [Clearing];
    assert ops + [Clearing, Emitting(e)] == more + [Emitting(e)];
    DispatchedExactly(more, e);
    hide Subscribers, Emit, Unsubscribed;
  }

  // ---------- how far a cascade travels ----------

  /** Some subscriber of kind a emits kind u. */
  ghost predicate Leads(handlers: map<string, seq<Handler>>, a: string, u: string) {
    exists h :: h in Subscribers(handlers, a) && u in Emissions(h, a)
  }

  /** u can be reached from a in at most n emissions. */
  ghost predicate Within(handlers: map<string, seq<Handler>>, a: string, u: string, n: nat)
    decreases n
  {
    a == u || (n > 0 && exists m :: Within(handlers, a, m, n - 1) && Leads(handlers, m, u))
  }

  /** The trace has sent an event of the kind, with at most so many hops. */
  ghost predicate SentBy(b: Bus, trace: string, kind: string, hop: nat) {
    exists e :: e in b.sent && e.trace == trace && e.kind == kind && e.hop <= hop
  }

  /** What a handled event leads to has been sent, no later than one hop on, unless the limit stops it. */
  ghost predicate Handled(b: Bus, h: Handler, e: Event) {
    e.hop + 1 < MAX_HOPS ==> forall u :: u in Emissions(h, e.kind) ==> SentBy(b, e.trace, u, e.hop + 1)
  }

  /** A cascade of one trace from event s under way: the waiting tasks in hop order, no event sent more
      than one hop beyond the first of them, every event sent near enough to s, and every subscriber of
      it waiting or handled. */
  ghost predicate Cascade(b: Bus, s: Event) {
    && SentBy(b, s.trace, s.kind, s.hop)
    && Keyed(b, s.trace)
    && QueueOk(b, s.trace)
    && (forall e :: e in b.sent && e.trace == s.trace ==> SentOk(b, s, e))
    && (forall e, h :: e in b.sent && e.trace == s.trace && h in Subscribers(b.handlers, e.kind) ==> Attended(b, h, e))
  }

  ghost predicate Attended(b: Bus, h: Handler, e: Event) {
    Task(h, e) in b.queue || Handled(b, h, e)
  }

  ghost predicate SentOk(b: Bus, s: Event, e: Event) {
    && s.hop <= e.hop < MAX_HOPS
    && (b.queue == [] || e.hop <= b.queue[0].event.hop + 1)
    && Within(b.handlers, s.kind, e.kind, e.hop - s.hop)
  }

  ghost predicate Keyed(b: Bus, trace: string) {
    && (forall u :: Key(trace, u) in b.seen <==> SentAny(b, trace, u))
    && (forall d, e :: d in b.sent && e in b.sent && d.trace == e.trace == trace && d.kind == e.kind ==> d == e)
  }

  ghost predicate SentAny(b: Bus, trace: string, kind: string) {
    exists e :: e in b.sent && e.trace == trace && e.kind == kind
  }

  ghost predicate QueueOk(b: Bus, trace: string) {
    && (forall t :: t in b.queue ==> TaskOk(b, trace, t))
    && (forall i, j :: 0 <= i < j < |b.queue| ==> b.queue[i].event.hop <= b.queue[j].event.hop)
  }

  ghost predicate TaskOk(b: Bus, trace: string, t: Task) {
    && t.event in b.sent && t.event.trace == trace && t.event.hop < MAX_HOPS
    && t.handler in Subscribers(b.handlers, t.event.kind)
  }

  // ---------- one task of a cascade ----------

  /** From b, some of the kinds that event e leads to have been emitted, giving c. */
  ghost predicate Partway(b: Bus, c: Bus, e: Event, kinds: seq<string>) {
    && c.handlers == b.handlers && b.sent <= c.sent && b.queue <= c.queue
    && Keyed(c, e.trace)
    && (forall d :: d in c.sent && d.trace == e.trace ==> d.hop <= e.hop + 1)
    && (forall d :: d in c.sent && d !in b.sent ==> Fresh(c, e, kinds, d))
    && (forall t :: t in c.queue[|b.queue|..] ==> TaskOk(c, e.trace, t) && t.event.hop == e.hop + 1)
    && (e.hop + 1 < MAX_HOPS ==> forall u :: u in kinds ==> SentBy(c, e.trace, u, e.hop + 1))
  }

  /** An event that e led to, with all its subscribers waiting. */
  ghost predicate Fresh(c: Bus, e: Event, kinds: seq<string>, d: Event) {
    && d.trace == e.trace && d.hop == e.hop + 1 < MAX_HOPS && d.kind in kinds
    && forall h :: h in Subscribers(c.handlers, d.kind) ==> Task(h, d) in c.queue
  }

  /** Emitting one more event keeps the keys in step with the events sent. */
  lemma EmitKeyed(b: Bus, e: Event)
    requires Keyed(b, e.trace)
    ensures Keyed(Emit(b, e), e.trace)
    ensures e.hop < MAX_HOPS ==> SentAny(Emit(b, e), e.trace, e.kind)
    ensures b.sent <= Emit(b, e).sent && b.queue <= Emit(b, e).queue
  {
    var c := Emit(b, e);
    if c.sent != b.sent {
      assert e in c.sent;
      forall u ensures Key(e.trace, u) in c.seen <==> SentAny(c, e.trace, u) {
        KeyDecides(e.trace, u, e.kind);
        hide Key;
        assert SentAny(b, e.trace, u) ==> SentAny(c, e.trace, u);
      }
    }
  }

  lemma PartwaySkips(b: Bus, c: Bus, c': Bus, e: Event, kinds: seq<string>, k: string)
    requires Partway(b, c, e, kinds)
    requires c' == c.(warnings := c'.warnings) && (e.hop + 1 < MAX_HOPS ==> SentBy(c, e.trace, k, e.hop + 1))
    ensures Partway(b, c', e, kinds + [k])
  {
    hide Subscribers, Key;
    assert Keyed(c', e.trace) by {
      forall u ensures SentAny(c, e.trace, u) <==> SentAny(c', e.trace, u) {}
    }
    forall d | d in c'.sent && d !in b.sent ensures Fresh(c', e, kinds + [k], d) {
      assert Fresh(c, e, kinds, d);
    }
    forall t | t in c'.queue[|b.queue|..] ensures TaskOk(c', e.trace, t) && t.event.hop == e.hop + 1 {
      assert TaskOk(c, e.trace, t);
    }
    forall u | u in kinds + [k] ensures e.hop + 1 < MAX_HOPS ==> SentBy(c', e.trace, u, e.hop + 1) {
      assert e.hop + 1 < MAX_HOPS ==> SentBy(c, e.trace, u, e.hop + 1);
    }
  }

  lemma PartwaySends(b: Bus, c: Bus, c': Bus, e: Event, kinds: seq<string>, n: Event)
    requires Partway(b, c, e, kinds) && n == Next(e, n.kind) && n.hop < MAX_HOPS && Keyed(c', e.trace)
    requires c' == c.(seen := c'.seen, queue := c.queue + Tasks(Subscribers(c.handlers, n.kind), n), sent := c.sent + [n])
    ensures Partway(b, c', e, kinds + [n.kind])
  {
    hide Subscribers, Key, Keyed;
    var hs := Subscribers(c.handlers, n.kind);
    var more := Tasks(hs, n);
    assert n in c'.sent;
    forall d | d in c'.sent && d !in b.sent ensures Fresh(c', e, kinds + [n.kind], d) {
      if d == n {
        forall h | h in hs ensures Task(h, n) in c'.queue {
          var i :| 0 <= i < |hs| && hs[i] == h;
          assert more[i] in more;
        }
      } else {
        assert Fresh(c, e, kinds, d);
      }
    }
    assert c'.queue[|b.queue|..] == c.queue[|b.queue|..] + more;
    forall t | t in c'.queue[|b.queue|..] ensures TaskOk(c', e.trace, t) && t.event.hop == e.hop + 1 {
      assert t in c.queue[|b.queue|..] ==> TaskOk(c, e.trace, t);
    }
    forall u | u in kinds + [n.kind] ensures SentBy(c', e.trace, u, e.hop + 1) {
      if u in kinds {
        assert SentBy(c, e.trace, u, e.hop + 1);
      }
    }
  }

  lemma PartwayNext(b: Bus, c: Bus, e: Event, kinds: seq<string>, k: string)
    requires Partway(b, c, e, kinds)
    ensures Partway(b, Emit(c, Next(e, k)), e, kinds + [k])
  {
    var n := Next(e, k);
    var c' := Emit(c, n);
    EmitKeyed(c, n);
    if n.hop < MAX_HOPS && Key(n.trace, k) !in c.seen {
      hide Partway, Keyed, Key, Emit;
      PartwaySends(b, c, c', e, kinds, n);
    } else {
      if n.hop < MAX_HOPS {
        assert SentAny(c, e.trace, k);
      }
      PartwaySkips(b, c, c', e, kinds, k);
    }
  }

  lemma {:induction false} PartwayAll(b: Bus, e: Event, kinds: seq<string>)
    requires Keyed(b, e.trace) && forall d :: d in b.sent && d.trace == e.trace ==> d.hop <= e.hop + 1
    ensures Partway(b, EmitAll(b, e, kinds), e, kinds)
  {
    if kinds != [] {
      var front, k := kinds[..|kinds| - 1], kinds[|kinds| - 1];
      PartwayAll(b, e, front);
      PartwayNext(b, EmitAll(b, e, front), e, front, k);
      assert front + [k] == kinds;
    }
  }

  // ---------- the loop keeps the cascade ----------

  lemma SentByGrows(b: Bus, c: Bus, trace: string, kind: string, hop: nat)
    requires b.sent <= c.sent && SentBy(b, trace, kind, hop)
    ensures SentBy(c, trace, kind, hop)
  {
    var e :| e in b.sent && e.trace == trace && e.kind == kind && e.hop <= hop;
    assert e in c.sent;
  }

  lemma AttendedGrows(b: Bus, c: Bus, t: Task, h: Handler, e: Event)
    requires b.queue != [] && b.queue[0] == t && b.queue[1..] <= c.queue && b.sent <= c.sent
    requires Handled(c, t.handler, t.event) && Attended(b, h, e)
    ensures Attended(c, h, e)
  {
    if Task(h, e) in b.queue {
      assert b.queue == [t] + b.queue[1..];
    } else if e.hop + 1 < MAX_HOPS {
      forall u | u in Emissions(h, e.kind) ensures SentBy(c, e.trace, u, e.hop + 1) {
        SentByGrows(b, c, e.trace, u, e.hop + 1);
      }
    }
  }

  lemma QueueKept(b: Bus, c: Bus, s: Event, t: Task)
    requires Cascade(b, s) && b.queue != [] && t == b.queue[0]
    requires Partway(b.(queue := b.queue[1..]), c, t.event, Emissions(t.handler, t.event.kind))
    ensures QueueOk(c, s.trace)
  {
    var rest := b.queue[1..];
    assert b.queue == [t] + rest && t in b.queue && TaskOk(b, s.trace, t);
    assert rest <= c.queue;
    forall u | u in rest ensures TaskOk(b, s.trace, u) && u.event.hop <= t.event.hop + 1 {
      assert u in b.queue;
      assert SentOk(b, s, u.event);
    }
    forall i, j | 0 <= i < j < |rest| ensures rest[i].event.hop <= rest[j].event.hop {
      assert rest[i] == b.queue[i + 1] && rest[j] == b.queue[j + 1];
    }
    hide Cascade, TaskOk, SentOk, Keyed;
    QueueMembers(b, c, s.trace, t, rest);
    QueueOrder(c, rest, t.event.hop);
  }

  lemma QueueMembers(b: Bus, c: Bus, trace: string, t: Task, rest: seq<Task>)
    requires b.sent <= c.sent && c.handlers == b.handlers && rest <= c.queue
    requires forall u :: u in rest ==> TaskOk(b, trace, u)
    requires forall u :: u in c.queue[|rest|..] ==> TaskOk(c, trace, u)
    ensures forall u :: u in c.queue ==> TaskOk(c, trace, u)
  {
    hide Subscribers;
    assert c.queue == rest + c.queue[|rest|..];
    forall u | u in c.queue ensures TaskOk(c, trace, u) {
      if u in rest {
        assert TaskOk(b, trace, u);
      }
    }
  }

  /** Tasks in hop order, at most one hop on, stay so with tasks of that hop count after them. */
  lemma QueueOrder(c: Bus, rest: seq<Task>, hop: nat)
    requires rest <= c.queue
    requires forall u :: u in rest ==> u.event.hop <= hop + 1
    requires forall i, j :: 0 <= i < j < |rest| ==> rest[i].event.hop <= rest[j].event.hop
    requires forall u :: u in c.queue[|rest|..] ==> u.event.hop == hop + 1
    ensures forall i, j :: 0 <= i < j < |c.queue| ==> c.queue[i].event.hop <= c.queue[j].event.hop
  {
    forall i | 0 <= i < |c.queue|
      ensures if i < |rest| then c.queue[i] == rest[i] && c.queue[i] in rest else c.queue[i].event.hop == hop + 1
    {
      if i >= |rest| { assert c.queue[i] == c.queue[|rest|..][i - |rest|]; }
    }
  }

  lemma SentKept(b: Bus, c: Bus, s: Event, t: Task, e: Event)
    requires Cascade(b, s) && b.queue != [] && t == b.queue[0]
    requires Partway(b.(queue := b.queue[1..]), c, t.event, Emissions(t.handler, t.event.kind))
    requires e in c.sent && e.trace == s.trace && (c.queue == [] || t.event.hop <= c.queue[0].event.hop)
    ensures SentOk(c, s, e)
  {
    assert t in b.queue && TaskOk(b, s.trace, t);
    assert SentOk(b, s, t.event);
    hide Keyed, QueueOk, Handled;
    if e in b.sent {
      assert SentOk(b, s, e);
    } else {
      assert Fresh(c, t.event, Emissions(t.handler, t.event.kind), e);
      assert Leads(b.handlers, t.event.kind, e.kind);
      assert Within(b.handlers, s.kind, t.event.kind, e.hop - s.hop - 1);
    }
  }

  /** Each task that the loop runs keeps the cascade. */
  lemma CascadeNext(b: Bus, s: Event)
    requires Cascade(b, s) && b.queue != []
    ensures Cascade(RunNext(b), s)
  {
    var t, rest := b.queue[0], b.queue[1..];
    var b0 := b.(queue := rest);
    var c := EmitAll(b0, t.event, Emissions(t.handler, t.event.kind));
    assert t in b.queue && TaskOk(b, s.trace, t);
    assert Keyed(b0, s.trace) by {
      forall u ensures SentAny(b0, s.trace, u) <==> SentAny(b, s.trace, u) {}
    }
    forall d | d in b0.sent && d.trace == s.trace ensures d.hop <= t.event.hop + 1 { assert SentOk(b, s, d); }
    PartwayAll(b0, t.event, Emissions(t.handler, t.event.kind));
    CascadeMoves(b, c, s, t);
    WarningsOnly(c, RunNext(b), s);
  }

  lemma CascadeMoves(b: Bus, c: Bus, s: Event, t: Task)
    requires Cascade(b, s) && b.queue != [] && t == b.queue[0] && t.event.trace == s.trace
    requires Partway(b.(queue := b.queue[1..]), c, t.event, Emissions(t.handler, t.event.kind))
    ensures Cascade(c, s)
  {
    QueueKept(b, c, s, t);
    SentByGrows(b, c, s.trace, s.kind, s.hop);
    FirstHop(b, c, s, t);
    forall e | e in c.sent && e.trace == s.trace ensures SentOk(c, s, e) {
      SentKept(b, c, s, t, e);
    }
    assert Handled(c, t.handler, t.event);
    hide SentOk, Within, Handled, QueueOk, Keyed;
    forall e, h | e in c.sent && e.trace == s.trace && h in Subscribers(c.handlers, e.kind) ensures Attended(c, h, e) {
      if e in b.sent {
        assert Attended(b, h, e);
        AttendedGrows(b, c, t, h, e);
      } else {
        assert Fresh(c, t.event, Emissions(t.handler, t.event.kind), e);
      }
    }
  }

  lemma FirstHop(b: Bus, c: Bus, s: Event, t: Task)
    requires Cascade(b, s) && b.queue != [] && t == b.queue[0]
    requires Partway(b.(queue := b.queue[1..]), c, t.event, Emissions(t.handler, t.event.kind))
    ensures c.queue == [] || t.event.hop <= c.queue[0].event.hop
  {
    var rest := b.queue[1..];
    hide SentOk, Attended, Keyed, SentBy, Fresh, TaskOk;
    if rest != [] {
      assert c.queue[0] == rest[0] == b.queue[1];
    } else if c.queue != [] {
      assert c.queue[|rest|..] == c.queue;
    }
  }

  lemma WarningsOnly(c: Bus, d: Bus, s: Event)
    requires Cascade(c, s) && d == c.(warnings := d.warnings)
    ensures Cascade(d, s)
  {
    hide Subscribers, Key, Within;
    assert forall k, h: nat :: SentBy(c, s.trace, k, h) ==> SentBy(d, s.trace, k, h);
    assert forall k, h: nat :: SentBy(d, s.trace, k, h) ==> SentBy(c, s.trace, k, h);
    forall t | t in d.queue ensures TaskOk(d, s.trace, t) { assert TaskOk(c, s.trace, t); }
    forall e | e in d.sent && e.trace == s.trace ensures SentOk(d, s, e) { assert SentOk(c, s, e); }
    forall e, h | e in d.sent && e.trace == s.trace && h in Subscribers(d.handlers, e.kind) ensures Attended(d, h, e) {
      assert Attended(c, h, e);
    }
  }

  lemma CascadeLimited(b: Bus, s: Event)
    requires Cascade(b, s)
    ensures Limited(b)
  {
    forall i | 0 <= i < |b.queue| ensures b.queue[i].event.hop < MAX_HOPS {
      assert TaskOk(b, s.trace, b.queue[i]);
    }
  }

  lemma SameHandlers(b: Bus)
    requires b.queue != []
    ensures RunNext(b).handlers == b.handlers
  {
    EmitAllQueue(b.(queue := b.queue[1..]), b.queue[0].event, Emissions(b.queue[0].handler, b.queue[0].event.kind));
  }

  lemma {:induction false} CascadeDrains(b: Bus, s: Event)
    requires Cascade(b, s)
    ensures Limited(b) && Cascade(Drain(b), s) && Drain(b).queue == [] && Drain(b).handlers == b.handlers
    decreases Waiting(b.queue, 0), Waiting(b.queue, 1), Waiting(b.queue, 2), Waiting(b.queue, 3), Waiting(b.queue, 4)
  {
    hide *;
    CascadeLimited(b, s);
    if b.queue != [] {
      HeadLimited(b);
      CascadeNext(b, s);
      RunNextShrinks(b);
      SameHandlers(b);
      DrainStep(b);
      CascadeDrains(RunNext(b), s);
    } else {
      DrainNone(b);
    }
  }

  lemma DrainNone(b: Bus)
    requires b.queue == [] && Limited(b)
    ensures Drain(b) == b
  {
  }

  /** A trace that the bus has seen nothing of, with no task waiting. */
  ghost predicate Unseen(b: Bus, trace: string) {
    && b.queue == []
    && (forall u :: Key(trace, u) !in b.seen)
    && (forall e :: e in b.sent ==> e.trace != trace)
  }

  lemma CascadeStarts(b: Bus, s: Event)
    requires Unseen(b, s.trace) && s.hop < MAX_HOPS
    ensures Cascade(Emit(b, s), s)
  {
    var c := Emit(b, s);
    var hs := Subscribers(b.handlers, s.kind);
    EmitKeyed(b, s);
    hide Key, Subscribers, Keyed;
    assert s in c.sent && c.queue == Tasks(hs, s);
    forall t | t in c.queue ensures TaskOk(c, s.trace, t) && t.event == s {}
    forall e, h | e in c.sent && e.trace == s.trace && h in Subscribers(c.handlers, e.kind) ensures Attended(c, h, e) {
      var i :| 0 <= i < |hs| && hs[i] == h;
      assert c.queue[i] == Task(h, e);
    }
  }

  /** When no task is left, a kind reached in n emissions was sent, no later than n hops on. */
  lemma {:induction false} ReachedSent(b: Bus, s: Event, u: string, n: nat)
    requires Cascade(b, s) && b.queue == [] && s.hop + n < MAX_HOPS && Within(b.handlers, s.kind, u, n)
    ensures SentBy(b, s.trace, u, s.hop + n)
    decreases n
  {
    if s.kind != u {
      var m :| Within(b.handlers, s.kind, m, n - 1) && Leads(b.handlers, m, u);
      ReachedSent(b, s, m, n - 1);
      var e :| e in b.sent && e.trace == s.trace && e.kind == m && e.hop <= s.hop + n - 1;
      var h :| h in Subscribers(b.handlers, m) && u in Emissions(h, m);
      assert Attended(b, h, e);
      assert SentBy(b, e.trace, u, e.hop + 1);
    }
  }

  lemma {:induction false} WithinGrows(handlers: map<string, seq<Handler>>, a: string, u: string, n: nat, m: nat)
    requires Within(handlers, a, u, n) && n <= m
    ensures Within(handlers, a, u, m)
    decreases n
  {
    if a != u {
      var k :| Within(handlers, a, k, n - 1) && Leads(handlers, k, u);
      WithinGrows(handlers, a, k, n - 1, m - 1);
    }
  }

  /** The trace dispatched an event of the kind after so many hops. */
  ghost predicate SentAt(b: Bus, trace: string, kind: string, hop: nat) {
    exists e :: e in b.sent && e.trace == trace && e.kind == kind && e.hop == hop
  }

  /** The least number of emissions that leads from a to u. */
  ghost predicate Distance(handlers: map<string, seq<Handler>>, a: string, u: string, n: nat) {
    Within(handlers, a, u, n) && (n > 0 ==> !Within(handlers, a, u, n - 1))
  }

  lemma NearestIsSent(c: Bus, s: Event, u: string, n: nat)
    requires Cascade(c, s) && c.queue == []
    ensures s.hop + n < MAX_HOPS && Distance(c.handlers, s.kind, u, n) ==> SentAt(c, s.trace, u, s.hop + n)
  {
    if s.hop + n < MAX_HOPS && Distance(c.handlers, s.kind, u, n) {
      ReachedSent(c, s, u, n);
      var e := SentNear(c, s, u, s.hop + n);
      hide Cascade, SentBy, Within, Distance;
      TooNear(c.handlers, s.kind, u, e.hop - s.hop, n);
    }
  }

  lemma TooNear(handlers: map<string, seq<Handler>>, a: string, u: string, m: nat, n: nat)
    requires Within(handlers, a, u, m) && m <= n && Distance(handlers, a, u, n)
    ensures m == n
  {
    hide Within;
    if m < n {
      WithinGrows(handlers, a, u, m, n - 1);
    }
  }

  lemma SentNear(c: Bus, s: Event, u: string, hop: nat) returns (e: Event)
    requires Cascade(c, s) && SentBy(c, s.trace, u, hop)
    ensures e in c.sent && e.trace == s.trace && e.kind == u && s.hop <= e.hop <= hop
    ensures Within(c.handlers, s.kind, u, e.hop - s.hop)
  {
    e :| e in c.sent && e.trace == s.trace && e.kind == u && e.hop <= hop;
    assert SentOk(c, s, e);
  }

  lemma SentIsNearest(c: Bus, s: Event, u: string, n: nat)
    requires Cascade(c, s) && c.queue == []
    ensures SentAt(c, s.trace, u, s.hop + n) ==> s.hop + n < MAX_HOPS && Distance(c.handlers, s.kind, u, n)
  {
    if SentAt(c, s.trace, u, s.hop + n) {
      var e :| e in c.sent && e.trace == s.trace && e.kind == u && e.hop == s.hop + n;
      assert SentOk(c, s, e);
      hide QueueOk, Attended, Within;
      if n > 0 && Within(c.handlers, s.kind, u, n - 1) {
        ReachedSent(c, s, u, n - 1);
      }
    }
  }

  /** A cascade, started by an event of a new trace and run to its end, dispatches a kind after n more
      hops exactly when n is the distance to it and stays below the limit: the hop limit and the
      duplicate check together make a breadth-first search, whatever cycles the subscriptions form. */
  lemma CascadeExact(b: Bus, s: Event, u: string, n: nat)
    requires Unseen(b, s.trace) && s.hop < MAX_HOPS
    ensures Limited(Emit(b, s))
    ensures SentAt(Drain(Emit(b, s)), s.trace, u, s.hop + n)
      <==> s.hop + n < MAX_HOPS && Distance(b.handlers, s.kind, u, n)
  {
    CascadeStarts(b, s);
    assert Emit(b, s).handlers == b.handlers;
    hide *;
    CascadeDrains(Emit(b, s), s);
    SentIsNearest(Drain(Emit(b, s)), s, u, n);
    NearestIsSent(Drain(Emit(b, s)), s, u, n);
  }
}
