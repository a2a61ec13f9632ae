/** The structured audit log: an active file, archived segments, rotation, compaction and replay. */
module AuditLog {
  import opened Options

  datatype AuditEvent =
    | RunCreated(slug: Option<string>, state: Option<string>)
    | RunTransition(slug: Option<string>, to: Option<string>)
    | RunArchived(slug: Option<string>)
    | DegradationChange(to: Option<string>)
    | MetricRecorded(prometheus: Option<string>)
    | Other(name: string)

  datatype Entry = Entry(at: int, event: AuditEvent, trace: string)

  /** Archived segments in the order they were written, the active file, and the entry counter. */
  datatype Log = Log(segments: seq<seq<Entry>>, active: seq<Entry>, count: nat)

  // ---------- the operations ----------

  function Rotate(l: Log): Log {
    Log(l.segments + [l.active], [], 0)
  }

  function Record(l: Log, limit: int, e: Entry): Log {
    var more := Log(l.segments, l.active + [e], l.count + 1);
    if more.count >= limit then Rotate(more) else more
  }

  /** The entries before the cutoff. */
  function Before(es: seq<Entry>, cutoff: int): seq<Entry> {
    if es == [] then []
    else Before(es[..|es| - 1], cutoff) + if es[|es| - 1].at < cutoff then [es[|es| - 1]] else []
  }

  /** The entries at the cutoff or after it. */
  function Since(es: seq<Entry>, cutoff: int): seq<Entry> {
    if es == [] then []
    else Since(es[..|es| - 1], cutoff) + if es[|es| - 1].at >= cutoff then [es[|es| - 1]] else []
  }

  function Compact(l: Log, cutoff: int): Log {
    var aged, kept := Before(l.active, cutoff), Since(l.active, cutoff);
    if aged == [] then l else Log(l.segments + [aged], kept, |kept|)
  }

  /** A new process finds the files as they are and counts from zero. */
  function Reopen(l: Log): Log {
    l.(count := 0)
  }

  function Flatten(segments: seq<seq<Entry>>): seq<Entry> {
    if segments == [] then [] else Flatten(segments[..|segments| - 1]) + segments[|segments| - 1]
  }

  lemma FlattenNone(segments: seq<seq<Entry>>)
    ensures Flatten(segments[..0]) == []
  {
  }

  lemma FlattenNext(segments: seq<seq<Entry>>, i: nat)
    requires i < |segments|
    ensures Flatten(segments[..i + 1]) == Flatten(segments[..i]) + segments[i]
  {
    assert segments[..i + 1][..i] == segments[..i];
  }

  /** Every entry, the segments in the order they were written. */
  function All(l: Log): seq<Entry> {
    Flatten(l.segments) + l.active
  }

  // ---------- replay ----------

  datatype RunView = RunView(state: string, events: nat, archived: bool)

  datatype Replayed = Replayed(runs: map<string, RunView>, degradation: Option<string>, prometheus: Option<string>)

  function GetOr(o: Option<string>, default: string): string {
    if o.Some? then o.value else default
  }

  function Apply(s: Replayed, e: Entry): Replayed {
    match e.event
    case RunCreated(slug, state) =>
      s.(runs := s.runs[GetOr(slug, "unknown") := RunView(GetOr(state, "created"), 0, false)])
    case RunTransition(slug, to) =>
      var k := GetOr(slug, "");
      if k in s.runs then
        s.(runs := s.runs[k := s.runs[k].(state := GetOr(to, s.runs[k].state), events := s.runs[k].events + 1)])
      else s
    case RunArchived(slug) =>
      var k := GetOr(slug, "");
      if k in s.runs then s.(runs := s.runs[k := s.runs[k].(archived := true)]) else s
    case DegradationChange(to) => s.(degradation := Some(GetOr(to, "")))
    case MetricRecorded(prometheus) =>
      if prometheus.Some? then s.(prometheus := prometheus) else s
    case Other(_) => s
  }

  function Replay(s: Replayed, es: seq<Entry>): Replayed {
    if es == [] then s else Apply(Replay(s, es[..|es| - 1]), es[|es| - 1])
  }

  // ---------- segment names ----------

  function Digit(d: nat): char
    requires d < 10
  {
    ['0', '1', '2', '3', '4', '5', '6', '7', '8', '9'][d]
  }

  function Decimal(n: nat): string {
    if n < 10 then [Digit(n)] else Decimal(n / 10) + [Digit(n % 10)]
  }

  /** At least three digits, as in the format 03d. */
  function Padded(n: nat): string {
    if n < 10 then "00" + Decimal(n) else if n < 100 then "0" + Decimal(n) else Decimal(n)
  }

  function Stem(): string { "audit_" }

  function Extension(): string { ".jsonl.gz" }

  function SegmentName(n: nat): string {
    Stem() + (Padded(n) + Extension())
  }

  /** The order of strings by character. */
  predicate Less(a: string, b: string) {
    b != [] && (a == [] || a[0] < b[0] || (a[0] == b[0] && Less(a[1..], b[1..])))
  }

  /** The numbers 1 to n, listed by the names of their segments. */
  ghost predicate ByName(order: seq<nat>, n: nat) {
    && |order| == n
    && (forall i :: 0 <= i < n ==> 1 <= order[i] <= n)
    && (forall k :: 1 <= k <= n ==> k in order)
    && (forall i, j :: 0 <= i < j < n ==> Less(SegmentName(order[i]), SegmentName(order[j])))
  }

  function Pick(segments: seq<seq<Entry>>, order: seq<nat>): seq<seq<Entry>>
    requires forall i :: 0 <= i < |order| ==> 1 <= order[i] <= |segments|
  {
    seq(|order|, i requires 0 <= i < |order| => segments[order[i] - 1])
  }

  /** What a reader sees, given the listing of the archive directory. */
  function Read(l: Log, order: seq<nat>): seq<Entry>
    requires forall i :: 0 <= i < |order| ==> 1 <= order[i] <= |l.segments|
  {
    Flatten(Pick(l.segments, order)) + l.active
  }

  // ---------- the class ----------

  class Audit {
    const limit: int
    var segments: seq<seq<Entry>>
    var active: seq<Entry>
    var count: nat

    constructor (limit: int)
      ensures this.limit == limit && View() == Log([], [], 0)
    {
      this.limit := limit;
      segments, active, count := [], [], 0;
    }

    function View(): Log
      reads this
    {
      Log(segments, active, count)
    }

    method RecordEntry(e: Entry)
      modifies this
      ensures View() == Record(old(View()), limit, e)
      ensures old(count) + 1 < limit ==>
        active == old(active) + [e] && count == old(count) + 1 && unchanged(`segments)
      ensures old(count) + 1 >= limit ==>
        segments == old(segments) + [old(active) + [e]] && active == [] && count == 0
    {
      active := active + [e];
      count := count + 1;
      if count >= limit {
        RotateActive();
      }
    }

    method RotateActive()
      modifies this
      ensures View() == Rotate(old(View()))
    {
      segments := segments + [active];
      active := [];
      count := 0;
    }

    method CompactActive(cutoff: int) returns (compacted: nat)
      modifies this
      ensures View() == Compact(old(View()), cutoff)
      ensures compacted == |Before(old(active), cutoff)|
    {
      var aged := [];
      for i := 0 to |active|
        invariant unchanged(this) && aged == Before(active[..i], cutoff)
      {
        assert active[..i + 1][..i] == active[..i];
        if active[i].at < cutoff {
          aged := aged + [active[i]];
        }
      }
      assert active[..|active|] == active;
      compacted := |aged|;
      if compacted == 0 {
        return;
      }
      segments := segments + [aged];
      RewriteActive(cutoff);
    }

    method RewriteActive(cutoff: int)
      modifies this`active, this`count
      ensures active == Since(old(active), cutoff) && count == |active|
    {
      var kept := [];
      for i := 0 to |active|
        invariant active == old(active) && kept == Since(active[..i], cutoff)
      {
        assert active[..i + 1][..i] == active[..i];
        if active[i].at >= cutoff {
          kept := kept + [active[i]];
        }
      }
      assert active[..|active|] == active;
      active := kept;
      count := |kept|;
    }

    method IterAll(order: seq<nat>) returns (es: seq<Entry>)
      requires ByName(order, |segments|)
      ensures es == Read(View(), order)
    {
      assert forall i :: 0 <= i < |order| ==> 1 <= order[i] <= |segments|;
      ghost var picked := Pick(segments, order);
      FlattenNone(picked);
      hide ByName, Flatten;
      es := [];
      for i := 0 to |order|
        invariant es == Flatten(picked[..i])
      {
        FlattenNext(picked, i);
        es := es + segments[order[i] - 1];
      }
      assert picked[..|order|] == picked;
      es := es + active;
    }

    /** Applies every entry to a state, and returns the entries. */
    method ReplayInto(order: seq<nat>, start: Replayed) returns (es: seq<Entry>, end: Replayed)
      requires ByName(order, |segments|)
      ensures es == Read(View(), order) && end == Replay(start, es)
    {
      es := IterAll(order);
      end := start;
      for i := 0 to |es|
        invariant end == Replay(start, es[..i])
      {
        assert es[..i + 1][..i] == es[..i];
        end := Apply(end, es[i]);
      }
      assert es[..|es|] == es;
    }
  }
}
