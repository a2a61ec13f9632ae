/** Run persistence: the write-ahead log, the snapshot and the metadata files, the order in
    which a call writes them, and what recover makes of them after a crash. */
module RunStore {
  import opened Options
  import opened Graphs
  import opened Machine
  import opened LtlMonitor
  import opened MachineRuntime

  type Slug = string

  datatype Status = Active | Archived

  /** content-object.md */
  datatype Meta = Meta(profile: string, state: Name, version: int, iterations: int)

  /** One run in the snapshot, a dictionary whose keys may be missing. */
  datatype Entry = Entry(state: Option<Name>, profile: Option<string>, status: Option<Status>, version: Option<int>)

  const BLANK: Entry := Entry(None, None, None, None)

  datatype Record =
    | Created(slug: Slug, profile: string, state: Name)
    | Moved(slug: Slug, from: Name, to: Name, version: int)
    | Shelved(slug: Slug)

  /** A file of the log, in the order of the file names; a torn one fails its checksum. */
  datatype WalFile = Intact(r: Record) | Torn

  type Snapshot = map<Slug, Entry>

  /** A run directory may exist before its metadata does. */
  datatype Disk = Disk(
    active: map<Slug, Option<Meta>>, archive: map<Slug, Option<Meta>>, snapshot: Snapshot, wal: seq<WalFile>)

  // ---------- recover ----------

  function EntryOf(s: Snapshot, slug: Slug): Entry {
    if slug in s then s[slug] else BLANK
  }

  function ReplayOne(s: Snapshot, f: WalFile): Snapshot {
    match f
    case Torn => s
    case Intact(r) =>
      if r.slug == "" then s
      else
        var known := EntryOf(s, r.slug);
        s[r.slug := match r
          case Created(_, profile, state) => known.(state := Some(state), profile := Some(profile), status := Some(Active))
          case Moved(_, _, to, _) => known.(state := Some(to))
          case Shelved(_) => known.(status := Some(Archived))]
  }

  function Replay(s: Snapshot, wal: seq<WalFile>): Snapshot {
    if wal == [] then s else ReplayOne(Replay(s, wal[..|wal| - 1]), wal[|wal| - 1])
  }

  function Recover(d: Disk): Snapshot {
    Replay(d.snapshot, d.wal)
  }

  // ---------- the writes of a call ----------

  datatype Call =
    | Create(slug: Slug, profile: string, state: Name)
    | Update(slug: Slug, to: Name, meta: Meta)
    | Archive(slug: Slug)

  /** _update_snapshot: only the keys given are changed, in one atomic rename. */
  function SnapCreate(s: Snapshot, slug: Slug, profile: string, state: Name): Snapshot {
    s[slug := EntryOf(s, slug).(state := Some(state), profile := Some(profile), status := Some(Active))]
  }

  function SnapUpdate(s: Snapshot, slug: Slug, to: Name, version: int): Snapshot {
    s[slug := EntryOf(s, slug).(state := Some(to), status := Some(Active), version := Some(version))]
  }

  function SnapArchive(s: Snapshot, slug: Slug): Snapshot {
    s[slug := EntryOf(s, slug).(status := Some(Archived))]
  }

  /** The disks after each single write of an accepted call. Writing a log file is not
      atomic, so it can be left torn. */
  function Writes(d: Disk, call: Call): seq<Disk> {
    match call
    case Create(slug, profile, state) =>
      var d1 := d.(active := d.active[slug := None]);
      var d2 := d1.(active := d.active[slug := Some(Meta(profile, state, 0, 0))]);
      var d3 := d2.(wal := d.wal + [Torn]);
      var d4 := d2.(wal := d.wal + [Intact(Created(slug, profile, state))]);
      [d1, d2, d3, d4, d4.(snapshot := SnapCreate(d.snapshot, slug, profile, state))]
    case Update(slug, to, meta) =>
      var from := if slug in d.active && d.active[slug].Some? then d.active[slug].value.state else "";
      var d1 := d.(wal := d.wal + [Torn]);
      var d2 := d.(wal := d.wal + [Intact(Moved(slug, from, to, meta.version))]);
      var d3 := d2.(snapshot := SnapUpdate(d.snapshot, slug, to, meta.version));
      [d1, d2, d3, d3.(active := d.active[slug := Some(meta)])]
    case Archive(slug) =>
      var moved := if slug in d.active then d.active[slug] else None;
      var d1 := d.(archive := d.archive - {slug});
      var d2 := d.(archive := d.archive[slug := moved], active := d.active - {slug});
      var d3 := d2.(snapshot := SnapArchive(d.snapshot, slug));
      [d1, d2, d3, d3.(wal := d.wal + [Torn]), d3.(wal := d.wal + [Intact(Shelved(slug))])]
  }

  function After(d: Disk, call: Call): Disk {
    Writes(d, call)[|Writes(d, call)| - 1]
  }

  /** The disk when the process dies after k writes of the call. */
  function Crashed(d: Disk, call: Call, k: nat): Disk
    requires k <= |Writes(d, call)|
  {
    if k == 0 then d else Writes(d, call)[k - 1]
  }

  // ---------- the manager ----------

  /** A profile's state machine and the meaning of its conditions. */
  datatype Profile = Profile(name: string, cfg: Config, holds: Meaning)

  datatype Outcome = Done | AlreadyExists | NoInitialState | NotFound | NoMetadata | Rejected(why: Verdict)

  /** What an update asks with, before overrides: only the iterations are those of the run. */
  function StartRuntime(iterations: int): (rt: Runtime)
    ensures rt.iterations == iterations && rt.reentries == rt.drift == rt.failures == rt.total == 0
    ensures !rt.approved && !rt.changesRequested && !rt.manualUnblock && !rt.abandoned
  {
    Runtime(0, iterations, 0, 0, 0, false, false, false, false)
  }

  /** The metadata an accepted update writes; leaving the state "iteration" is counted. */
  function Moves(m: Meta, to: Name): Meta {
    Meta(m.profile, to, m.version + 1, LeaveCount(m))
  }

  function LeaveCount(m: Meta): int {
    if m.state == "iteration" then m.iterations + 1 else m.iterations
  }

  class RunManager {
    var active: map<Slug, Option<Meta>>
    var archive: map<Slug, Option<Meta>>
    var snapshot: Snapshot
    var wal: seq<WalFile>

    constructor ()
      ensures View() == Disk(map[], map[], map[], [])
    {
      active, archive, snapshot, wal := map[], map[], map[], [];
    }

    function View(): Disk
      reads this
    {
      Disk(active, archive, snapshot, wal)
    }

    method CreateRun(slug: Slug, p: Profile) returns (outcome: Outcome)
      requires WellFormed(p.cfg)
      modifies this
      ensures outcome in {Done, AlreadyExists, NoInitialState}
      ensures outcome == AlreadyExists <==> slug in old(active) && old(active)[slug].Some?
      ensures outcome == NoInitialState ==> OfKind(p.cfg, p.cfg.names, Initial) == []
      ensures outcome == Done ==>
                && OfKind(p.cfg, p.cfg.names, Initial) != []
                && View() == After(old(View()), Create(slug, p.name, OfKind(p.cfg, p.cfg.names, Initial)[0]))
      ensures outcome == Done ==>
                && active == old(active)[slug := Some(Meta(p.name, OfKind(p.cfg, p.cfg.names, Initial)[0], 0, 0))]
                && archive == old(archive) && wal == old(wal) + [Intact(Created(slug, p.name, active[slug].value.state))]
      ensures outcome != Done ==> View() == old(View())
    {
      if slug in active && active[slug].Some? {
        return AlreadyExists;
      }
      var initials := OfKind(p.cfg, p.cfg.names, Initial);
      if initials == [] {
        return NoInitialState;
      }
      var state := initials[0];
      ghost var before := active;
      active := active[slug := None];
      active := active[slug := Some(Meta(p.name, state, 0, 0))];
      assert active == before[slug := Some(Meta(p.name, state, 0, 0))];
      wal := wal + [Intact(Created(slug, p.name, state))];
      snapshot := SnapCreate(snapshot, slug, p.name, state);
      return Done;
    }

    /** Without a profile the move is not checked. */
    method UpdateState(slug: Slug, to: Name, p: Option<Profile>, overrides: Runtime -> Runtime)
      returns (outcome: Outcome)
      modifies this
      ensures outcome == NotFound <==> slug !in old(active)
      ensures outcome == NoMetadata <==> slug in old(active) && old(active)[slug].None?
      ensures outcome !in {NotFound, NoMetadata} && p.Some? ==>
        var m := old(active)[slug].value;
        var rt := StartRuntime(if m.state == "iteration" then m.iterations + 1 else m.iterations);
        var verdict := Decide(p.value.cfg, p.value.holds, m.state, to, Some(overrides(rt)), true);
        outcome == if verdict == Allowed then Done else Rejected(verdict)
      ensures p.None? ==> !outcome.Rejected?
      ensures outcome in {Done, NotFound, NoMetadata} || outcome.Rejected?
      ensures outcome == Done ==>
                && slug in old(active) && old(active)[slug].Some?
                && View() == After(old(View()), Update(slug, to, Moves(old(active)[slug].value, to)))
                && var m := old(active)[slug].value;
                   && active == old(active)[slug := Some(Meta(m.profile, to, m.version + 1, LeaveCount(m)))]
                   && archive == old(archive) && wal == old(wal) + [Intact(Moved(slug, m.state, to, m.version + 1))]
      ensures outcome != Done ==> View() == old(View())
    {
      if slug !in active {
        return NotFound;
      }
      if active[slug].None? {
        return NoMetadata;
      }
      var m := active[slug].value;
      if p.Some? {
        var rt := overrides(StartRuntime(LeaveCount(m)));
        var verdict := Decide(p.value.cfg, p.value.holds, m.state, to, Some(rt), true);
        if verdict != Allowed {
          return Rejected(verdict);
        }
      }
      wal := wal + [Intact(Moved(slug, m.state, to, m.version + 1))];
      snapshot := SnapUpdate(snapshot, slug, to, m.version + 1);
      active := active[slug := Some(Moves(m, to))];
      return Done;
    }

    method ArchiveRun(slug: Slug) returns (outcome: Outcome)
      modifies this
      ensures outcome == if slug in old(active) then Done else NotFound
      ensures View() == if outcome == Done then After(old(View()), Archive(slug)) else old(View())
      ensures outcome == Done ==>
                && archive == old(archive)[slug := old(active)[slug]] && active == old(active) - {slug}
                && wal == old(wal) + [Intact(Shelved(slug))]
    {
      if slug !in active {
        return NotFound;
      }
      ghost var before := archive;
      archive := archive - {slug};
      archive, active := archive[slug := active[slug]], active - {slug};
      assert archive == before[slug := old(active)[slug]];
      snapshot := SnapArchive(snapshot, slug);
      wal := wal + [Intact(Shelved(slug))];
      return Done;
    }

    method RecoverRuns() returns (runs: Snapshot)
      ensures runs == Recover(View())
    {
      runs := snapshot;
      for i := 0 to |wal|
        invariant runs == Replay(snapshot, wal[..i])
      {
        assert wal[..i + 1][..i] == wal[..i];
        runs := ReplayOne(runs, wal[i]);
      }
      assert wal[..|wal|] == wal;
    }
  }
}
