/** Traces on one event bus do not disturb each other: what the loop does with the tasks of one trace is
    what it would do if they were the only ones. */
module TraceCascade {
  import opened EventBus
  import opened EventCascade

  function TaskTrace(t: Task): string { t.event.trace }

  function EventTrace(e: Event): string { e.trace }

  function WarningTrace(w: Warning): string { w.event.trace }

  /** The members of a list that belong to a trace, in order. */
  function OfTrace<T>(xs: seq<T>, traceOf: T -> string, trace: string): seq<T> {
    if xs == [] then []
    else OfTrace(xs[..|xs| - 1], traceOf, trace) + if traceOf(xs[|xs| - 1]) == trace then [xs[|xs| - 1]] else []
  }

  predicate IsKey(key: string, trace: string) {
    trace + ":" <= key
  }

  /** What the bus holds of one trace. */
  function Mine(b: Bus, trace: string): Bus {
    Bus(b.handlers, (set k | k in b.seen && IsKey(k, trace)), OfTrace(b.warnings, WarningTrace, trace),
        OfTrace(b.queue, TaskTrace, trace), OfTrace(b.sent, EventTrace, trace))
  }

  /** No key of the other trace reads as one of this. */
  ghost predicate Apart(trace: string, other: string) {
    forall u :: !IsKey(Key(other, u), trace)
  }

  /** Every waiting task belongs to the trace or to one apart from it. */
  ghost predicate Separate(queue: seq<Task>, trace: string) {
    forall t :: t in queue ==> t.event.trace == trace || Apart(trace, t.event.trace)
  }

  /** Traces without colons, such as those the bus makes up, are apart unless they are the same. */
  lemma ApartPlain(trace: string, other: string)
    requires ':' !in trace && ':' !in other && trace != other
    ensures Apart(trace, other)
  {
    forall u ensures !IsKey(Key(other, u), trace) {
      var key := Key(other, u);
      assert key[|other|] == ':' && key[..|other|] == other;
      if |trace| < |other| {
        assert key[|trace|] == other[|trace|] && other[|trace|] in other;
        assert (trace + ":")[|trace|] == ':';
      } else if |trace| > |other| {
        assert trace[|other|] in trace;
        assert (trace + ":")[|other|] == trace[|other|];
      } else {
        assert (trace + ":")[..|trace|] == trace;
      }
    }
  }

  lemma OwnKey(trace: string, kind: string)
    ensures IsKey(Key(trace, kind), trace)
  {
    assert Key(trace, kind) == trace + ":" + kind;
  }

  lemma {:induction false} OfTraceConcat<T>(a: seq<T>, b: seq<T>, traceOf: T -> string, trace: string)
    ensures OfTrace(a + b, traceOf, trace) == OfTrace(a, traceOf, trace) + OfTrace(b, traceOf, trace)
    decreases |b|
  {
    if b == [] {
      assert a + b == a;
    } else {
      OfTraceConcat(a, b[..|b| - 1], traceOf, trace);
      assert (a + b)[..|a + b| - 1] == a + b[..|b| - 1];
    }
  }

  lemma OfTraceOne<T>(x: T, traceOf: T -> string, trace: string)
    ensures OfTrace([x], traceOf, trace) == if traceOf(x) == trace then [x] else []
  {
    assert [x][..0] == [];
  }

  lemma {:induction false} OfTraceTasks(hs: seq<Handler>, e: Event, trace: string)
    ensures OfTrace(Tasks(hs, e), TaskTrace, trace) == if e.trace == trace then Tasks(hs, e) else []
  {
    if hs != [] {
      OfTraceTasks(hs[..|hs| - 1], e, trace);
      assert Tasks(hs, e)[..|hs| - 1] == Tasks(hs[..|hs| - 1], e);
    }
  }

  lemma WarnMine(b: Bus, w: Warning, trace: string)
    ensures Mine(b.(warnings := b.warnings + [w]), trace) ==
      if WarningTrace(w) == trace then Mine(b, trace).(warnings := Mine(b, trace).warnings + [w]) else Mine(b, trace)
  {
    OfTraceConcat(b.warnings, [w], WarningTrace, trace);
    OfTraceOne(w, WarningTrace, trace);
    hide OfTrace, IsKey;
  }

  lemma SeenMine(seen: set<string>, e: Event, trace: string)
    requires e.trace == trace || Apart(trace, e.trace)
    ensures (set k | k in seen + {Key(e.trace, e.kind)} && IsKey(k, trace))
      == (set k | k in seen && IsKey(k, trace)) + if e.trace == trace then {Key(e.trace, e.kind)} else {}
  {
    OwnKey(trace, e.kind);
    hide IsKey, Key;
  }

  lemma SendMine(b: Bus, e: Event, hs: seq<Handler>, trace: string)
    requires e.trace == trace || Apart(trace, e.trace)
    ensures var c := b.(seen := b.seen + {Key(e.trace, e.kind)}, queue := b.queue + Tasks(hs, e), sent := b.sent + [e]);
      var m := Mine(b, trace);
      Mine(c, trace) == if e.trace == trace
        then m.(seen := m.seen + {Key(e.trace, e.kind)}, queue := m.queue + Tasks(hs, e), sent := m.sent + [e]) else m
  {
    SeenMine(b.seen, e, trace);
    OfTraceTasks(hs, e, trace);
    OfTraceConcat(b.queue, Tasks(hs, e), TaskTrace, trace);
    OfTraceConcat(b.sent, [e], EventTrace, trace);
    OfTraceOne(e, EventTrace, trace);
    hide OfTrace, IsKey, Key, Tasks, Apart;
  }

  lemma EmitMine(b: Bus, e: Event, trace: string)
    requires e.trace == trace || Apart(trace, e.trace)
    ensures Mine(Emit(b, e), trace) == if e.trace == trace then Emit(Mine(b, trace), e) else Mine(b, trace)
  {
    OwnKey(trace, e.kind);
    assert e.trace == trace ==> (Key(trace, e.kind) in Mine(b, trace).seen <==> Key(trace, e.kind) in b.seen);
    WarnMine(b, TooManyHops(e), trace);
    WarnMine(b, Duplicate(e), trace);
    SendMine(b, e, Subscribers(b.handlers, e.kind), trace);
    assert Mine(b, trace).handlers == b.handlers;
    hide Mine, Key, IsKey, OfTrace, Tasks, Subscribers, Apart;
  }

  lemma {:induction false} EmitAllMine(b: Bus, e: Event, kinds: seq<string>, trace: string)
    requires e.trace == trace || Apart(trace, e.trace)
    ensures Mine(EmitAll(b, e, kinds), trace)
      == if e.trace == trace then EmitAll(Mine(b, trace), e, kinds) else Mine(b, trace)
  {
    hide Emit, Mine, Apart;
    if kinds != [] {
      EmitAllMine(b, e, kinds[..|kinds| - 1], trace);
      EmitMine(EmitAll(b, e, kinds[..|kinds| - 1]), Next(e, kinds[|kinds| - 1]), trace);
    }
  }

  lemma HandleMine(b: Bus, t: Task, trace: string)
    requires t.event.trace == trace || Apart(trace, t.event.trace)
    ensures Mine(Handle(b, t), trace) == if t.event.trace == trace then Handle(Mine(b, trace), t) else Mine(b, trace)
  {
    var w := Failed(t.event, t.handler.name);
    var c := EmitAll(b, t.event, Emissions(t.handler, t.event.kind));
    EmitAllMine(b, t.event, Emissions(t.handler, t.event.kind), trace);
    OfTraceConcat(c.warnings, [w], WarningTrace, trace);
    OfTraceOne(w, WarningTrace, trace);
    hide EmitAll, OfTrace, IsKey, Apart;
  }

  /** One turn of the loop, seen from a trace: its own next task, or nothing. */
  lemma RunNextMine(b: Bus, trace: string)
    requires b.queue != [] && Separate(b.queue, trace)
    ensures b.queue[0].event.trace == trace ==>
      Mine(b, trace).queue != [] && Mine(RunNext(b), trace) == RunNext(Mine(b, trace))
    ensures b.queue[0].event.trace != trace ==> Mine(RunNext(b), trace) == Mine(b, trace)
  {
    var t, rest := b.queue[0], b.queue[1..];
    assert t in b.queue;
    HandleMine(b.(queue := rest), t, trace);
    assert b.queue == [t] + rest;
    OfTraceConcat([t], rest, TaskTrace, trace);
    OfTraceOne(t, TaskTrace, trace);
    hide Handle, OfTrace, IsKey, Apart;
    if t.event.trace == trace {
      assert Mine(b, trace).queue == [t] + OfTrace(rest, TaskTrace, trace);
      assert Mine(b, trace).queue[1..] == OfTrace(rest, TaskTrace, trace);
    }
  }

  lemma {:induction false} EmitAllSeparate(b: Bus, e: Event, kinds: seq<string>, trace: string)
    requires Separate(b.queue, trace) && (e.trace == trace || Apart(trace, e.trace))
    ensures Separate(EmitAll(b, e, kinds).queue, trace)
  {
    hide Apart;
    if kinds != [] {
      EmitAllSeparate(b, e, kinds[..|kinds| - 1], trace);
    }
  }

  lemma RunNextSeparate(b: Bus, trace: string)
    requires b.queue != [] && Separate(b.queue, trace)
    ensures Separate(RunNext(b).queue, trace)
  {
    hide Apart;
    var t := b.queue[0];
    assert t in b.queue;
    EmitAllSeparate(b.(queue := b.queue[1..]), t.event, Emissions(t.handler, t.event.kind), trace);
  }

  lemma MineLimited(b: Bus, trace: string)
    requires Limited(b)
    ensures Limited(Mine(b, trace))
  {
    OfTraceIn(b.queue, trace);
    forall i | 0 <= i < |Mine(b, trace).queue| ensures Mine(b, trace).queue[i].event.hop < MAX_HOPS {
      assert Mine(b, trace).queue[i] in b.queue;
    }
  }

  lemma {:induction false} OfTraceIn(queue: seq<Task>, trace: string)
    ensures forall t :: t in OfTrace(queue, TaskTrace, trace) <==> t in queue && t.event.trace == trace
  {
    if queue != [] {
      OfTraceIn(queue[..|queue| - 1], trace);
      assert queue == queue[..|queue| - 1] + [queue[|queue| - 1]];
    }
  }

  lemma {:induction false} OfTraceNone(queue: seq<Task>, trace: string)
    requires forall t :: t in queue ==> t.event.trace != trace
    ensures OfTrace(queue, TaskTrace, trace) == []
  {
    if queue != [] {
      OfTraceNone(queue[..|queue| - 1], trace);
    }
  }

  lemma {:induction false} OfTraceSent(sent: seq<Event>, trace: string)
    ensures forall e :: e in OfTrace(sent, EventTrace, trace) <==> e in sent && e.trace == trace
  {
    if sent != [] {
      OfTraceSent(sent[..|sent| - 1], trace);
      assert sent == sent[..|sent| - 1] + [sent[|sent| - 1]];
    }
  }

  /** The whole loop, seen from a trace, is the loop over its own tasks. */
  lemma {:induction false} DrainMine(b: Bus, trace: string)
    requires Limited(b) && Separate(b.queue, trace)
    ensures Limited(Mine(b, trace)) && Mine(Drain(b), trace) == Drain(Mine(b, trace))
    decreases Waiting(b.queue, 0), Waiting(b.queue, 1), Waiting(b.queue, 2), Waiting(b.queue, 3), Waiting(b.queue, 4)
  {
    hide *;
    MineLimited(b, trace);
    if b.queue != [] {
      HeadLimited(b);
      RunNextShrinks(b);
      DrainStep(b);
      RunNextMine(b, trace);
      RunNextSeparate(b, trace);
      DrainStep(Mine(b, trace));
      DrainMine(RunNext(b), trace);
    } else {
      DrainIdle(b, trace);
    }
  }

  lemma DrainIdle(b: Bus, trace: string)
    requires b.queue == []
    ensures Limited(b) && Limited(Mine(b, trace)) && Mine(Drain(b), trace) == Drain(Mine(b, trace))
  {
  }

  /** The trace is new to the bus: nothing of it was seen or sent, and no task of it waits. */
  ghost predicate NewTrace(b: Bus, trace: string) {
    && (forall u :: Key(trace, u) !in b.seen)
    && (forall e :: e in b.sent ==> e.trace != trace)
    && (forall t :: t in b.queue ==> t.event.trace != trace)
  }

  lemma MineUnseen(b: Bus, trace: string)
    requires NewTrace(b, trace)
    ensures Unseen(Mine(b, trace), trace)
  {
    OfTraceNone(b.queue, trace);
    OfTraceSent(b.sent, trace);
    hide Key, OfTrace;
  }

  /** A cascade on a busy bus, started by an event of a new trace: run to the end, with any tasks of other
      traces in between, it dispatches a kind after n more hops exactly when n is the distance to it and
      stays below the limit. */
  lemma BusyCascadeExact(b: Bus, s: Event, u: string, n: nat)
    requires NewTrace(b, s.trace) && s.hop < MAX_HOPS && Limited(b) && Separate(b.queue, s.trace)
    ensures Limited(Emit(b, s))
    ensures SentAt(Drain(Emit(b, s)), s.trace, u, s.hop + n)
      <==> s.hop + n < MAX_HOPS && Distance(b.handlers, s.kind, u, n)
  {
    var c := Emit(b, s);
    var tr := s.trace;
    EmitFits(b, s);
    EmitMine(b, s, tr);
    MineUnseen(b, tr);
    CascadeExact(Mine(b, tr), s, u, n);
    DrainMine(c, tr);
    OfTraceSent(Drain(c).sent, tr);
    assert Mine(b, tr).handlers == b.handlers;
    hide Drain, Emit, Unseen, NewTrace, Limited, Separate, Distance, OfTrace;
    assert SentAt(Mine(Drain(c), tr), tr, u, s.hop + n) <==> SentAt(Drain(c), tr, u, s.hop + n);
  }

  lemma EmitFits(b: Bus, s: Event)
    requires s.hop < MAX_HOPS && Limited(b) && Separate(b.queue, s.trace)
    ensures Limited(Emit(b, s)) && Separate(Emit(b, s).queue, s.trace)
  {
    hide Apart;
  }
}
