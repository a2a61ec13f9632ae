/** The cross-profile event bus: hop limit, duplicate check, and handlers run later by the event loop. */
module EventBus {
  const MAX_HOPS := 5

  datatype Event = Event(kind: string, trace: string, hop: nat)

  /** A subscriber, by the kinds of the events it emits in turn for each kind it handles (with the trace
      of the event and one hop more), and whether it then raises an error. */
  datatype Handler = Handler(name: string, emits: map<string, seq<string>>, fails: bool)

  function Emissions(h: Handler, kind: string): seq<string> {
    if kind in h.emits then h.emits[kind] else []
  }

  datatype Task = Task(handler: Handler, event: Event)

  datatype Warning =
    | TooManyHops(event: Event)
    | Duplicate(event: Event)
    | Failed(event: Event, handler: string)

  /** Subscribers by kind, the keys seen, the warnings, the tasks the event loop has yet to run, and
      the events dispatched since the keys were last cleared. */
  datatype Bus = Bus(handlers: map<string, seq<Handler>>, seen: set<string>, warnings: seq<Warning>,
                     queue: seq<Task>, sent: seq<Event>)

  function Key(trace: string, kind: string): string {
    trace + (":" + kind)
  }

  function Subscribers(handlers: map<string, seq<Handler>>, kind: string): seq<Handler> {
    if kind in handlers then handlers[kind] else []
  }

  function Tasks(hs: seq<Handler>, e: Event): seq<Task> {
    seq(|hs|, i requires 0 <= i < |hs| => Task(hs[i], e))
  }

  function Emit(b: Bus, e: Event): Bus {
    if e.hop >= MAX_HOPS then b.(warnings := b.warnings + [TooManyHops(e)])
    else if Key(e.trace, e.kind) in b.seen then b.(warnings := b.warnings + [Duplicate(e)])
    else
      b.(seen := b.seen + {Key(e.trace, e.kind)},
         queue := b.queue + Tasks(Subscribers(b.handlers, e.kind), e),
         sent := b.sent + [e])
  }

  function Next(e: Event, kind: string): Event {
    Event(kind, e.trace, e.hop + 1)
  }

  function EmitAll(b: Bus, e: Event, kinds: seq<string>): Bus {
    if kinds == [] then b else Emit(EmitAll(b, e, kinds[..|kinds| - 1]), Next(e, kinds[|kinds| - 1]))
  }

  function Handle(b: Bus, t: Task): Bus {
    var c := EmitAll(b, t.event, Emissions(t.handler, t.event.kind));
    if t.handler.fails then c.(warnings := c.warnings + [Failed(t.event, t.handler.name)]) else c
  }

  /** The event loop runs the oldest task. */
  function RunNext(b: Bus): Bus
    requires b.queue != []
  {
    Handle(b.(queue := b.queue[1..]), b.queue[0])
  }

  function ClearTraces(b: Bus): Bus {
    b.(seen := {}, sent := [])
  }

  // ---------- termination ----------

  predicate Limited(b: Bus) {
    forall i :: 0 <= i < |b.queue| ==> b.queue[i].event.hop < MAX_HOPS
  }

  /** The waiting tasks whose event has made a given number of hops. */
  function Waiting(queue: seq<Task>, hop: nat): nat {
    if queue == [] then 0
    else Waiting(queue[..|queue| - 1], hop) + if queue[|queue| - 1].event.hop == hop then 1 else 0
  }

  lemma {:induction false} WaitingConcat(a: seq<Task>, b: seq<Task>, hop: nat)
    ensures Waiting(a + b, hop) == Waiting(a, hop) + Waiting(b, hop)
  {
    if b == [] {
      assert a + b == a;
    } else {
      WaitingConcat(a, b[..|b| - 1], hop);
      assert (a + b)[..|a + b| - 1] == a + b[..|b| - 1];
    }
  }

  lemma {:induction false} WaitingNone(a: seq<Task>, hop: nat)
    requires forall i :: 0 <= i < |a| ==> a[i].event.hop != hop
    ensures Waiting(a, hop) == 0
  {
    if a != [] {
      WaitingNone(a[..|a| - 1], hop);
    }
  }

  /** What a task emits is queued behind the rest, one hop on, and only below the limit. */
  lemma {:induction false} EmitAllQueue(b: Bus, e: Event, kinds: seq<string>)
    ensures var c := EmitAll(b, e, kinds);
      && c.handlers == b.handlers && |c.queue| >= |b.queue| && c.queue[..|b.queue|] == b.queue
      && forall i :: |b.queue| <= i < |c.queue| ==> c.queue[i].event.hop == e.hop + 1 < MAX_HOPS
  {
    if kinds != [] {
      EmitAllQueue(b, e, kinds[..|kinds| - 1]);
    }
  }

  lemma TurnCounts(t: Task, rest: seq<Task>, more: seq<Task>, k: nat)
    requires k <= t.event.hop && forall u :: u in more ==> u.event.hop > t.event.hop
    ensures Waiting(rest + more, k) == Waiting([t] + rest, k) - if k == t.event.hop then 1 else 0
  {
    WaitingConcat([t], rest, k);
    WaitingConcat(rest, more, k);
    WaitingNone(more, k);
    assert [t][..0] == [];
  }

  /** Running a task leaves one task fewer at its hop count and none more at lower ones. */
  lemma RunNextShrinks(b: Bus)
    requires b.queue != [] && Limited(b)
    ensures Limited(RunNext(b))
    ensures var h := b.queue[0].event.hop;
      && Waiting(RunNext(b).queue, h) == Waiting(b.queue, h) - 1
      && forall k: nat :: k < h ==> Waiting(RunNext(b).queue, k) == Waiting(b.queue, k)
  {
    var t, rest := b.queue[0], b.queue[1..];
    EmitAllQueue(b.(queue := rest), t.event, Emissions(t.handler, t.event.kind));
    hide EmitAll, Waiting;
    var c := RunNext(b);
    var more := c.queue[|rest|..];
    assert c.queue == rest + more && b.queue == [t] + rest;
    forall k: nat | k <= t.event.hop
      ensures Waiting(c.queue, k) == Waiting(b.queue, k) - if k == t.event.hop then 1 else 0
    {
      TurnCounts(t, rest, more, k);
    }
    forall i | 0 <= i < |c.queue| ensures c.queue[i].event.hop < MAX_HOPS {
      if i < |rest| {
        assert c.queue[i] == b.queue[i + 1];
      }
    }
  }

  /** Running tasks until none is left. */
  function Drain(b: Bus): Bus
    requires Limited(b)
    decreases Waiting(b.queue, 0), Waiting(b.queue, 1), Waiting(b.queue, 2), Waiting(b.queue, 3), Waiting(b.queue, 4)
  {
    if b.queue == [] then b
    else
      RunNextShrinks(b);
      Drain(RunNext(b))
  }

  lemma HeadLimited(b: Bus)
    requires Limited(b) && b.queue != []
    ensures b.queue[0].event.hop < 5
  {
  }

  lemma DrainStep(b: Bus)
    requires Limited(b)
    ensures b.queue != [] ==> Limited(RunNext(b)) && Drain(b) == Drain(RunNext(b))
  {
    if b.queue != [] {
      RunNextShrinks(b);
    }
  }

  // ---------- subscriptions ----------

  /** A list without the first occurrence of a handler. */
  function WithoutFirst(hs: seq<Handler>, h: Handler): seq<Handler> {
    if hs == [] then [] else if hs[0] == h then hs[1..] else [hs[0]] + WithoutFirst(hs[1..], h)
  }

  function Unsubscribed(handlers: map<string, seq<Handler>>, kind: string, h: Handler): map<string, seq<Handler>> {
    if h in Subscribers(handlers, kind) then handlers[kind := WithoutFirst(handlers[kind], h)] else handlers
  }

  lemma {:induction false} FirstAt(hs: seq<Handler>, h: Handler, i: nat)
    requires i < |hs| && hs[i] == h && h !in hs[..i]
    ensures WithoutFirst(hs, h) == hs[..i] + hs[i + 1..]
  {
    if i > 0 {
      assert hs[0] in hs[..i];
      assert forall x :: x in hs[1..][..i - 1] ==> x in hs[..i];
      FirstAt(hs[1..], h, i - 1);
    }
  }

  /** Unsubscribing undoes the last subscription of a handler that was not subscribed before. */
  lemma {:induction false} UnsubscribeUndoes(hs: seq<Handler>, h: Handler)
    requires h !in hs
    ensures WithoutFirst(hs + [h], h) == hs
  {
    FirstAt(hs + [h], h, |hs|);
  }

  // ---------- the class ----------

  class SafeEventBus {
    var handlers: map<string, seq<Handler>>
    var seen: set<string>
    var warnings: seq<Warning>
    var queue: seq<Task>
    ghost var sent: seq<Event>

    constructor ()
      ensures View() == Bus(map[], {}, [], [], [])
    {
      handlers, seen, warnings, queue, sent := map[], {}, [], [], [];
    }

    ghost function View(): Bus
      reads this
    {
      Bus(handlers, seen, warnings, queue, sent)
    }

    method Subscribe(kind: string, handler: Handler)
      modifies this
      ensures View() == old(View()).(handlers := old(handlers)[kind := Subscribers(old(handlers), kind) + [handler]])
    {
      handlers := handlers[kind := Subscribers(handlers, kind) + [handler]];
    }

    /** Removes the first subscription equal to the handler, if there is one. */
    method Unsubscribe(kind: string, handler: Handler)
      modifies this
      ensures View() == old(View()).(handlers := Unsubscribed(old(handlers), kind, handler))
    {
      var hs := Subscribers(handlers, kind);
      for i := 0 to |hs|
        invariant handler !in hs[..i] && unchanged(this)
      {
        if hs[i] == handler {
          FirstAt(hs, handler, i);
          handlers := handlers[kind := hs[..i] + hs[i + 1..]];
          return;
        }
      }
    }

    method EmitEvent(e: Event)
      modifies this
      ensures View() == Emit(old(View()), e)
      ensures handlers == old(handlers) && old(queue) <= queue
      ensures e.hop >= 5 ==> warnings == old(warnings) + [TooManyHops(e)]
      ensures e.hop < 5 && Key(e.trace, e.kind) in old(seen) ==> warnings == old(warnings) + [Duplicate(e)]
      ensures e.hop >= 5 || Key(e.trace, e.kind) in old(seen) ==> unchanged(`seen) && unchanged(`queue)
      ensures e.hop < 5 && Key(e.trace, e.kind) !in old(seen) ==>
        && seen == old(seen) + {Key(e.trace, e.kind)} && warnings == old(warnings)
        && |queue| == |old(queue)| + |Subscribers(handlers, e.kind)|
        && forall i :: 0 <= i < |Subscribers(handlers, e.kind)| ==>
             queue[|old(queue)| + i] == Task(Subscribers(handlers, e.kind)[i], e)
    {
      if e.hop >= MAX_HOPS {
        warnings := warnings + [TooManyHops(e)];
        return;
      }
      var key := Key(e.trace, e.kind);
      if key in seen {
        warnings := warnings + [Duplicate(e)];
        return;
      }
      seen := seen + {key};
      sent := sent + [e];
      ghost var before := queue;
      var hs := Subscribers(handlers, e.kind);
      for i := 0 to |hs|
        invariant queue == before + Tasks(hs[..i], e)
        invariant Bus(handlers, seen, warnings, before, sent)
          == old(View()).(seen := old(seen) + {key}, sent := old(sent) + [e])
      {
        assert Tasks(hs[..i + 1], e) == Tasks(hs[..i], e) + [Task(hs[i], e)];
        queue := queue + [Task(hs[i], e)];
      }
      assert hs[..|hs|] == hs;
    }

    method SafeCall(t: Task)
      modifies this
      ensures View() == Handle(old(View()), t)
      ensures old(warnings) <= warnings && handlers == old(handlers)
      ensures t.handler.fails ==>
        old(warnings) < warnings && warnings[|warnings| - 1] == Failed(t.event, t.handler.name)
      ensures forall i :: |old(warnings)| <= i < |warnings| - (if t.handler.fails then 1 else 0) ==> !warnings[i].Failed?
    {
      var kinds := Emissions(t.handler, t.event.kind);
      for i := 0 to |kinds|
        invariant View() == EmitAll(old(View()), t.event, kinds[..i])
        invariant old(warnings) <= warnings && handlers == old(handlers)
        invariant forall i :: |old(warnings)| <= i < |warnings| ==> !warnings[i].Failed?
      {
        assert kinds[..i + 1][..i] == kinds[..i];
        EmitEvent(Next(t.event, kinds[i]));
      }
      assert kinds[..|kinds|] == kinds;
      if t.handler.fails {
        warnings := warnings + [Failed(t.event, t.handler.name)];
      }
    }

    /** The event loop: it comes to an end, with every task run. */
    method RunLoop()
      requires Limited(View())
      modifies this
      ensures View() == Drain(old(View())) && queue == []
    {
      while queue != []
        invariant Limited(View()) && Drain(View()) == Drain(old(View()))
        decreases Waiting(queue, 0), Waiting(queue, 1), Waiting(queue, 2), Waiting(queue, 3), Waiting(queue, 4)
      {
        RunNextShrinks(View());
        hide Limited, Handle;
        var t := queue[0];
        queue := queue[1..];
        SafeCall(t);
      }
    }

    method Clear()
      modifies this
      ensures View() == ClearTraces(old(View()))
      ensures seen == {} && unchanged(`handlers) && unchanged(`warnings) && unchanged(`queue)
    {
      seen := {};
      sent := [];
    }
  }
}
