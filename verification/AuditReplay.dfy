/** What replaying the audit log leaves for each run and for the two gauges. */
module AuditReplay {
  import opened Options
  import opened AuditLog

  /** The run that an entry creates, with its first state. */
  predicate Creates(e: Entry, k: string) {
    e.event.RunCreated? && GetOr(e.event.slug, "unknown") == k
  }

  predicate MovesRun(e: Entry, k: string) {
    e.event.RunTransition? && GetOr(e.event.slug, "") == k
  }

  predicate Shelves(e: Entry, k: string) {
    e.event.RunArchived? && GetOr(e.event.slug, "") == k
  }

  /** The state that the last creation of a run gave it. */
  function LastCreated(es: seq<Entry>, k: string): Option<string> {
    if es == [] then None
    else if Creates(es[|es| - 1], k) then Some(GetOr(es[|es| - 1].event.state, "created"))
    else LastCreated(es[..|es| - 1], k)
  }

  /** The last target named since then. */
  function LastTarget(es: seq<Entry>, k: string): Option<string> {
    if es == [] || Creates(es[|es| - 1], k) then None
    else if MovesRun(es[|es| - 1], k) && es[|es| - 1].event.to.Some? then es[|es| - 1].event.to
    else LastTarget(es[..|es| - 1], k)
  }

  /** The transitions since then. */
  function MovesSince(es: seq<Entry>, k: string): nat {
    if es == [] || Creates(es[|es| - 1], k) then 0
    else MovesSince(es[..|es| - 1], k) + if MovesRun(es[|es| - 1], k) then 1 else 0
  }

  /** Archived since then. */
  predicate ShelvedSince(es: seq<Entry>, k: string) {
    es != [] && !Creates(es[|es| - 1], k) && (Shelves(es[|es| - 1], k) || ShelvedSince(es[..|es| - 1], k))
  }

  /** What the log builds on: the run as last created, or as it was before. */
  function Base(s: Replayed, es: seq<Entry>, k: string): Option<RunView> {
    if LastCreated(es, k).Some? then Some(RunView(LastCreated(es, k).value, 0, false))
    else if k in s.runs then Some(s.runs[k])
    else None
  }

  lemma ApplyRun(s: Replayed, e: Entry, k: string)
    ensures k in Apply(s, e).runs <==> k in s.runs || Creates(e, k)
    ensures Creates(e, k) ==> Apply(s, e).runs[k] == RunView(GetOr(e.event.state, "created"), 0, false)
    ensures k in s.runs && !Creates(e, k) ==>
      Apply(s, e).runs[k] == RunView(if MovesRun(e, k) then GetOr(e.event.to, s.runs[k].state) else s.runs[k].state,
                                     s.runs[k].events + (if MovesRun(e, k) then 1 else 0),
                                     s.runs[k].archived || Shelves(e, k))
  {
  }

  /** A run is known after replay if it was before or was created in the log. It is then in the last state that
      a transition named since its last creation, or the one it was created with; its events are the transitions
      since; and it is archived if an entry since says so. */
  lemma {:induction false} ReplayPerRun(s: Replayed, es: seq<Entry>, k: string)
    ensures k in Replay(s, es).runs <==> Base(s, es, k).Some?
    ensures k in Replay(s, es).runs ==>
      var base := Base(s, es, k).value;
      Replay(s, es).runs[k] == RunView(GetOr(LastTarget(es, k), base.state), base.events + MovesSince(es, k),
                                       base.archived || ShelvedSince(es, k))
  {
    if es != [] {
      var front, e := es[..|es| - 1], es[|es| - 1];
      ReplayPerRun(s, front, k);
      ApplyRun(Replay(s, front), e, k);
      hide Apply;
    }
  }

  function LastLevel(es: seq<Entry>): Option<string> {
    if es == [] then None
    else if es[|es| - 1].event.DegradationChange? then Some(GetOr(es[|es| - 1].event.to, ""))
    else LastLevel(es[..|es| - 1])
  }

  function LastMetrics(es: seq<Entry>): Option<string> {
    if es == [] then None
    else if es[|es| - 1].event.MetricRecorded? && es[|es| - 1].event.prometheus.Some? then es[|es| - 1].event.prometheus
    else LastMetrics(es[..|es| - 1])
  }

  /** The degradation level and the metrics are the last ones recorded. */
  lemma {:induction false} ReplayGauges(s: Replayed, es: seq<Entry>)
    ensures Replay(s, es).degradation == if LastLevel(es).Some? then LastLevel(es) else s.degradation
    ensures Replay(s, es).prometheus == if LastMetrics(es).Some? then LastMetrics(es) else s.prometheus
  {
    if es != [] {
      ReplayGauges(s, es[..|es| - 1]);
    }
  }
}
