/** What recovery returns after any crash, and what whole runs of the manager keep. */
module RunSafety {
  import opened Options
  import opened Graphs
  import opened Machine
  import opened MachineRuntime
  import opened RunStore

  // ---------- the log alone: who wrote a field last ----------

  predicate About(f: WalFile, slug: Slug) {
    f.Intact? && f.r.slug == slug && slug != ""
  }

  function LastState(wal: seq<WalFile>, slug: Slug): Option<Name> {
    if wal == [] then None
    else
      var f := wal[|wal| - 1];
      if About(f, slug) && f.r.Created? then Some(f.r.state)
      else if About(f, slug) && f.r.Moved? then Some(f.r.to)
      else LastState(wal[..|wal| - 1], slug)
  }

  function LastStatus(wal: seq<WalFile>, slug: Slug): Option<Status> {
    if wal == [] then None
    else
      var f := wal[|wal| - 1];
      if About(f, slug) && f.r.Created? then Some(Active)
      else if About(f, slug) && f.r.Shelved? then Some(Archived)
      else LastStatus(wal[..|wal| - 1], slug)
  }

  function LastProfile(wal: seq<WalFile>, slug: Slug): Option<string> {
    if wal == [] then None
    else
      var f := wal[|wal| - 1];
      if About(f, slug) && f.r.Created? then Some(f.r.profile) else LastProfile(wal[..|wal| - 1], slug)
  }

  ghost predicate Mentioned(wal: seq<WalFile>, slug: Slug) {
    exists f :: f in wal && About(f, slug)
  }

  function Or<T>(a: Option<T>, b: Option<T>): Option<T> {
    if a.Some? then a else b
  }

  /** Replay over any snapshot: each field is what the log wrote last, or what the snapshot
      had when the log never wrote it. The log never restores a version. */
  lemma {:induction false} ReplayLastWriter(s: Snapshot, wal: seq<WalFile>, slug: Slug)
    ensures EntryOf(Replay(s, wal), slug) ==
      Entry(Or(LastState(wal, slug), EntryOf(s, slug).state), Or(LastProfile(wal, slug), EntryOf(s, slug).profile),
            Or(LastStatus(wal, slug), EntryOf(s, slug).status), EntryOf(s, slug).version)
    ensures slug in Replay(s, wal) <==> slug in s || Mentioned(wal, slug)
  {
    if wal != [] {
      var front, f := wal[..|wal| - 1], wal[|wal| - 1];
      ReplayLastWriter(s, front, slug);
      assert wal == front + [f];
    }
  }

  lemma SameSnapshot(a: Snapshot, b: Snapshot)
    requires forall slug :: (slug in a <==> slug in b) && EntryOf(a, slug) == EntryOf(b, slug)
    ensures a == b
  {
    forall slug | slug in a ensures a[slug] == b[slug] { assert EntryOf(a, slug) == EntryOf(b, slug); }
  }

  /** Replaying the same log twice changes nothing. */
  lemma ReplayIdempotent(s: Snapshot, wal: seq<WalFile>)
    ensures Replay(Replay(s, wal), wal) == Replay(s, wal)
  {
    var once := Replay(s, wal);
    forall slug ensures (slug in Replay(once, wal) <==> slug in once) && EntryOf(Replay(once, wal), slug) == EntryOf(once, slug) {
      ReplayLastWriter(s, wal, slug);
      ReplayLastWriter(once, wal, slug);
    }
    SameSnapshot(Replay(once, wal), once);
  }

  lemma {:induction false} ReplayJoins(s: Snapshot, a: seq<WalFile>, b: seq<WalFile>)
    ensures Replay(s, a + b) == Replay(Replay(s, a), b)
    decreases |b|
  {
    if b == [] {
      assert a + b == a;
    } else {
      assert (a + b)[..|a + b| - 1] == a + b[..|b| - 1];
      ReplayJoins(s, a, b[..|b| - 1]);
    }
  }

  /** The snapshot already shows what this log wrote. */
  ghost predicate Shows(s: Snapshot, wal: seq<WalFile>) {
    forall slug :: ShowsRun(s, wal, slug)
  }

  ghost predicate ShowsRun(s: Snapshot, wal: seq<WalFile>, slug: Slug) {
    && (Mentioned(wal, slug) ==> slug in s)
    && (LastState(wal, slug).Some? ==> EntryOf(s, slug).state == LastState(wal, slug))
    && (LastProfile(wal, slug).Some? ==> EntryOf(s, slug).profile == LastProfile(wal, slug))
    && (LastStatus(wal, slug).Some? ==> EntryOf(s, slug).status == LastStatus(wal, slug))
  }

  /** Trimming the log: over a snapshot that shows the earlier entries, and only over such
      a snapshot for every suffix, replaying the later entries equals replaying all. */
  lemma SuffixReplay(s: Snapshot, earlier: seq<WalFile>)
    ensures Shows(s, earlier) <==> forall later :: Replay(s, earlier + later) == Replay(s, later)
  {
    if Shows(s, earlier) {
      forall slug ensures (slug in Replay(s, earlier) <==> slug in s) && EntryOf(Replay(s, earlier), slug) == EntryOf(s, slug) {
        assert ShowsRun(s, earlier, slug);
        ReplayLastWriter(s, earlier, slug);
      }
      SameSnapshot(Replay(s, earlier), s);
      forall later ensures Replay(s, earlier + later) == Replay(s, later) { ReplayJoins(s, earlier, later); }
    }
    if forall later :: Replay(s, earlier + later) == Replay(s, later) {
      var none: seq<WalFile> := [];
      assert Replay(s, earlier + none) == Replay(s, none);
      assert earlier + none == earlier;
      forall slug ensures ShowsRun(s, earlier, slug) { ReplayLastWriter(s, earlier, slug); }
    }
  }

  /** Each field that the earlier files wrote last is overwritten by the later ones or shown by the snapshot. */
  ghost predicate ShowsUnder(s: Snapshot, earlier: seq<WalFile>, later: seq<WalFile>, slug: Slug) {
    && (Mentioned(earlier, slug) ==> slug in s || Mentioned(later, slug))
    && (LastState(earlier, slug).Some? && LastState(later, slug).None? ==>
          EntryOf(s, slug).state == LastState(earlier, slug))
    && (LastProfile(earlier, slug).Some? && LastProfile(later, slug).None? ==>
          EntryOf(s, slug).profile == LastProfile(earlier, slug))
    && (LastStatus(earlier, slug).Some? && LastStatus(later, slug).None? ==>
          EntryOf(s, slug).status == LastStatus(earlier, slug))
  }

  /** recover does not save what it recovered, and then may delete the earlier log files. A second recover
      returns the same if and only if nothing it needs was deleted. */
  lemma RecoverAgainExactly(s: Snapshot, earlier: seq<WalFile>, later: seq<WalFile>)
    ensures Replay(s, later) == Replay(s, earlier + later) <==> forall slug :: ShowsUnder(s, earlier, later, slug)
  {
    var all, rest := Replay(s, earlier + later), Replay(s, later);
    ReplayJoins(s, earlier, later);
    forall slug ensures ShowsUnder(s, earlier, later, slug)
      <==> (slug in all <==> slug in rest) && EntryOf(all, slug) == EntryOf(rest, slug)
    {
      ReplayLastWriter(s, earlier, slug);
      ReplayLastWriter(Replay(s, earlier), later, slug);
      ReplayLastWriter(s, later, slug);
    }
    hide ShowsUnder, Replay;
    if forall slug :: ShowsUnder(s, earlier, later, slug) {
      SameSnapshot(all, rest);
    }
  }

  // ---------- a crash between any two writes ----------

  /** The state and status recovery reports for a run. */
  function Seen(d: Disk, slug: Slug): (Option<Name>, Option<Status>) {
    var e := EntryOf(Recover(d), slug);
    (e.state, e.status)
  }

  ghost predicate HasCreate(wal: seq<WalFile>, slug: Slug) {
    exists f :: f in wal && About(f, slug) && f.r.Created?
  }

  lemma {:induction false} CreateDecides(wal: seq<WalFile>, slug: Slug)
    requires HasCreate(wal, slug)
    ensures LastState(wal, slug).Some? && LastStatus(wal, slug).Some?
  {
    var front, f := wal[..|wal| - 1], wal[|wal| - 1];
    assert wal == front + [f];
    if !(About(f, slug) && f.r.Created?) {
      CreateDecides(front, slug);
    }
  }

  lemma TornIgnored(wal: seq<WalFile>, slug: Slug)
    ensures LastState(wal + [Torn], slug) == LastState(wal, slug)
    ensures LastStatus(wal + [Torn], slug) == LastStatus(wal, slug)
    ensures Mentioned(wal + [Torn], slug) <==> Mentioned(wal, slug)
  {
    assert (wal + [Torn])[..|wal|] == wal;
  }

  lemma LastAppend(wal: seq<WalFile>, r: Record, slug: Slug)
    ensures var longer := wal + [Intact(r)];
      && LastState(longer, slug) == (if About(Intact(r), slug) && r.Created? then Some(r.state)
                                     else if About(Intact(r), slug) && r.Moved? then Some(r.to) else LastState(wal, slug))
      && LastStatus(longer, slug) == (if About(Intact(r), slug) && r.Created? then Some(Active)
                                      else if About(Intact(r), slug) && r.Shelved? then Some(Archived)
                                      else LastStatus(wal, slug))
      && LastProfile(longer, slug) == (if About(Intact(r), slug) && r.Created? then Some(r.profile)
                                       else LastProfile(wal, slug))
      && (Mentioned(longer, slug) <==> Mentioned(wal, slug) || About(Intact(r), slug))
  {
    assert (wal + [Intact(r)])[..|wal|] == wal;
  }

  /** What a run looks like is decided by the log and one snapshot entry. */
  lemma SeenIs(d: Disk, slug: Slug)
    ensures Seen(d, slug) == (Or(LastState(d.wal, slug), EntryOf(d.snapshot, slug).state),
                              Or(LastStatus(d.wal, slug), EntryOf(d.snapshot, slug).status))
  {
    ReplayLastWriter(d.snapshot, d.wal, slug);
  }

  /** Cut off or not, a call leaves the log as it was, torn at the end, or complete. */
  lemma CrashedLog(d: Disk, call: Call, k: nat)
    requires k <= |Writes(d, call)|
    ensures Crashed(d, call, k).wal in {d.wal, d.wal + [Torn], After(d, call).wal}
  {
    match call {
      case Create(slug, profile, state) => assert |Writes(d, call)| == 5;
      case Update(slug, to, meta) => assert |Writes(d, call)| == 4;
      case Archive(slug) => assert |Writes(d, call)| == 5;
    }
  }

  /** Wherever a call is cut off, every run with a create record in the log is recovered
      as it was before the call or as the whole call leaves it, by the log alone. */
  lemma CrashAtomic(d: Disk, call: Call, k: nat, slug: Slug)
    requires k <= |Writes(d, call)| && HasCreate(Crashed(d, call, k).wal, slug)
    ensures var c := Crashed(d, call, k);
      && Seen(c, slug) == (LastState(c.wal, slug), LastStatus(c.wal, slug))
      && (Seen(c, slug) == Seen(d, slug) || Seen(c, slug) == Seen(After(d, call), slug))
  {
    CrashedLog(d, call, k);
    hide Writes, After, Crashed, Seen, LastState, LastStatus, HasCreate;
    var c := Crashed(d, call, k);
    CreateDecides(c.wal, slug);
    SeenIs(c, slug);
    SeenIs(d, slug);
    SeenIs(After(d, call), slug);
    TornIgnored(d.wal, slug);
  }

  /** A call that completes leaves metadata, snapshot and log agreed on the run's state,
      whatever crashes came before it. */
  lemma CompletedAgrees(d: Disk, call: Call)
    requires call.slug != "" && (call.Create? || (call.Update? && call.meta.state == call.to))
    ensures var (after, slug) := (After(d, call), call.slug);
      && slug in after.active && after.active[slug].Some?
      && EntryOf(after.snapshot, slug).state == LastState(after.wal, slug) == Some(after.active[slug].value.state)
      && Seen(after, slug).0 == Some(after.active[slug].value.state)
  {
    SeenIs(After(d, call), call.slug);
  }

  /** An update that is cut off leaves the metadata and the recovered state different
      exactly when its log record is complete and the metadata is not yet written. */
  lemma CrashSplits(d: Disk, slug: Slug, to: Name, k: nat)
    requires slug != "" && slug in d.active && d.active[slug].Some? && k <= 4
    requires Seen(d, slug).0 == Some(d.active[slug].value.state)
    ensures var m := d.active[slug].value;
      var c := Crashed(d, Update(slug, to, Moves(m, to)), k);
      Some(c.active[slug].value.state) == Seen(c, slug).0 <==> to == m.state || k in {0, 1, 4}
  {
    var m := d.active[slug].value;
    var call := Update(slug, to, Moves(m, to));
    var c := Crashed(d, call, k);
    var r := Moved(slug, m.state, to, m.version + 1);
    assert c.wal == if k == 0 then d.wal else if k == 1 then d.wal + [Torn] else d.wal + [Intact(r)];
    assert c.active[slug] == if k == 4 then Some(Moves(m, to)) else Some(m);
    assert k <= 1 ==> c.snapshot == d.snapshot;
    hide Crashed, Writes, Seen, LastState, LastStatus, LastProfile;
    SeenIs(d, slug);
    SeenIs(c, slug);
    TornIgnored(d.wal, slug);
    LastAppend(d.wal, r, slug);
  }

  /** A create that is cut off, of a new slug or of one that was archived: the metadata is there and recovery
      still answers what it answered before, exactly when the metadata was written and the log record was not
      completed. So a new run is unknown to recovery, and an archived one is recovered as archived. */
  lemma CreateSplits(d: Disk, slug: Slug, profile: string, state: Name, k: nat)
    requires slug != "" && !(slug in d.active && d.active[slug].Some?) && k <= 5
    ensures var c := Crashed(d, Create(slug, profile, state), k);
      && (slug in c.active && c.active[slug].Some? <==> k >= 2)
      && Seen(c, slug) == (if k <= 3 then Seen(d, slug) else (Some(state), Some(Active)))
      && (slug in c.active && c.active[slug].Some? && slug !in Recover(c) <==> k in {2, 3} && slug !in Recover(d))
      && (slug in c.active && c.active[slug].Some? && Seen(c, slug).1 != Some(Active)
          <==> k in {2, 3} && Seen(d, slug).1 != Some(Active))
  {
    CreateMetadata(d, slug, profile, state, k);
    CreateSeen(d, slug, profile, state, k);
  }

  lemma CreateMetadata(d: Disk, slug: Slug, profile: string, state: Name, k: nat)
    requires !(slug in d.active && d.active[slug].Some?) && k <= 5
    ensures var c := Crashed(d, Create(slug, profile, state), k);
      slug in c.active && c.active[slug].Some? <==> k >= 2
  {
  }

  lemma CreateSeen(d: Disk, slug: Slug, profile: string, state: Name, k: nat)
    requires slug != "" && k <= 5
    ensures var c := Crashed(d, Create(slug, profile, state), k);
      && Seen(c, slug) == (if k <= 3 then Seen(d, slug) else (Some(state), Some(Active)))
      && (slug in Recover(c) <==> k >= 4 || slug in Recover(d))
  {
    var c := Crashed(d, Create(slug, profile, state), k);
    var r := Created(slug, profile, state);
    assert c.wal == if k <= 2 then d.wal else if k == 3 then d.wal + [Torn] else d.wal + [Intact(r)];
    assert k <= 4 ==> c.snapshot == d.snapshot;
    hide Crashed, Writes, LastState, LastStatus, LastProfile, Seen;
    SeenIs(c, slug);
    SeenIs(d, slug);
    ReplayLastWriter(d.snapshot, d.wal, slug);
    ReplayLastWriter(c.snapshot, c.wal, slug);
    TornIgnored(d.wal, slug);
    LastAppend(d.wal, r, slug);
  }

  lemma ArchiveCut(d: Disk, slug: Slug, k: nat)
    requires slug in d.active && k <= 5
    ensures var c := Crashed(d, Archive(slug), k);
      && (slug in c.active <==> k <= 1)
      && c.snapshot == (if k <= 2 then d.snapshot else SnapArchive(d.snapshot, slug))
      && c.wal == if k <= 3 then d.wal else if k == 4 then d.wal + [Torn] else d.wal + [Intact(Shelved(slug))]
  {
    hide SnapArchive;
  }

  lemma ArchiveSeen(d: Disk, slug: Slug, k: nat)
    requires slug != "" && slug in d.active && k <= 5
    ensures Seen(Crashed(d, Archive(slug), k), slug).1 ==
      if k <= 2 then Seen(d, slug).1 else if k <= 4 then Or(LastStatus(d.wal, slug), Some(Archived)) else Some(Archived)
  {
    var c := Crashed(d, Archive(slug), k);
    ArchiveCut(d, slug, k);
    hide Crashed, Writes, Seen, LastState, LastStatus, LastProfile;
    SeenIs(c, slug);
    SeenIs(d, slug);
    TornIgnored(d.wal, slug);
    LastAppend(d.wal, Shelved(slug), slug);
  }

  /** An archive that is cut off is recovered as an active run that is no longer there exactly when the run
      was moved and neither the snapshot nor, if the log made it active, the log says so yet. */
  lemma ArchiveSplits(d: Disk, slug: Slug, k: nat)
    requires slug != "" && slug in d.active && Seen(d, slug).1 == Some(Active) && k <= 5
    ensures var c := Crashed(d, Archive(slug), k);
      (slug !in c.active && Seen(c, slug).1 == Some(Active)) <==>
        k == 2 || (k in {3, 4} && LastStatus(d.wal, slug) == Some(Active))
  {
    hide Crashed, Seen;
    ArchiveCut(d, slug, k);
    ArchiveSeen(d, slug, k);
  }

  // ---------- whole runs ----------

  /** The states a run has been in since it was last created, as the log tells. */
  function Path(wal: seq<WalFile>, slug: Slug): seq<Name> {
    if wal == [] then []
    else
      var f := wal[|wal| - 1];
      if About(f, slug) && f.r.Created? then [f.r.state]
      else if About(f, slug) && f.r.Moved? then Path(wal[..|wal| - 1], slug) + [f.r.to]
      else Path(wal[..|wal| - 1], slug)
  }

  /** The calls the manager accepts with one profile. */
  ghost predicate Accepts(d: Disk, call: Call, p: Profile) {
    && call.slug != ""
    && match call
       case Create(slug, name, state) =>
         && !(slug in d.active && d.active[slug].Some?) && name == p.name
         && WellFormed(p.cfg) && OfKind(p.cfg, p.cfg.names, Initial) != [] && state == OfKind(p.cfg, p.cfg.names, Initial)[0]
       case Update(slug, to, meta) =>
         && slug in d.active && d.active[slug].Some? && meta == Moves(d.active[slug].value, to)
         && exists rt :: Decide(p.cfg, p.holds, d.active[slug].value.state, to, Some(rt), true) == Allowed
       case Archive(slug) => slug in d.active
  }

  ghost predicate Run(disks: seq<Disk>, calls: seq<Call>, p: Profile) {
    && |disks| == |calls| + 1 && disks[0] == Disk(map[], map[], map[], [])
    && forall k :: 0 <= k < |calls| ==> Accepts(disks[k], calls[k], p) && disks[k + 1] == After(disks[k], calls[k])
  }

  /** A run's past: from the first initial state along declared edges, never leaving a
      terminal state. */
  ghost predicate LegalPath(p: Profile, path: seq<Name>) {
    && WellFormed(p.cfg) && Walk(GraphOf(p.cfg), path)
    && OfKind(p.cfg, p.cfg.names, Initial) != [] && path[0] == OfKind(p.cfg, p.cfg.names, Initial)[0]
    && forall i :: 0 <= i < |path| - 1 ==> path[i] in p.cfg.defs && p.cfg.defs[path[i]].kind != Terminal
  }

  /** How often a path leaves a state. */
  function Departures(path: seq<Name>, s: Name): nat {
    if |path| <= 1 then 0 else Departures(path[..|path| - 1], s) + if path[|path| - 2] == s then 1 else 0
  }

  lemma DepartNext(path: seq<Name>, to: Name, s: Name)
    requires path != []
    ensures Departures(path + [to], s) == Departures(path, s) + if path[|path| - 1] == s then 1 else 0
  {
    assert (path + [to])[..|path|] == path;
  }

  ghost predicate RunOk(d: Disk, slug: Slug, p: Profile)
    requires slug in d.active
  {
    && slug != "" && d.active[slug].Some?
    && var (m, path) := (d.active[slug].value, Path(d.wal, slug));
       && LegalPath(p, path) && path[|path| - 1] == m.state && |path| == m.version + 1
       && m.iterations == Departures(path, "iteration") && m.profile == p.name
       && LastState(d.wal, slug) == Some(m.state) && LastStatus(d.wal, slug) == Some(Active)
  }

  ghost predicate StoreOk(d: Disk, p: Profile) {
    && (forall slug :: slug in d.active ==> RunOk(d, slug, p))
    && Shows(d.snapshot, d.wal)
  }

  lemma PathAppend(wal: seq<WalFile>, r: Record, slug: Slug)
    ensures Path(wal + [Intact(r)], slug) ==
      if About(Intact(r), slug) && r.Created? then [r.state]
      else if About(Intact(r), slug) && r.Moved? then Path(wal, slug) + [r.to] else Path(wal, slug)
  {
    assert (wal + [Intact(r)])[..|wal|] == wal;
  }

  /** A record and the matching snapshot write keep the snapshot showing the log. */
  lemma ShowsStep(d: Disk, e: Disk, r: Record)
    requires Shows(d.snapshot, d.wal) && e.wal == d.wal + [Intact(r)] && r.slug != ""
    requires r.slug in e.snapshot && forall slug :: slug != r.slug && slug in d.snapshot ==> slug in e.snapshot
    requires forall slug :: slug != r.slug ==> EntryOf(e.snapshot, slug) == EntryOf(d.snapshot, slug)
    requires ShowsRun(e.snapshot, e.wal, r.slug)
    ensures Shows(e.snapshot, e.wal)
  {
    forall slug ensures ShowsRun(e.snapshot, e.wal, slug) {
      assert ShowsRun(d.snapshot, d.wal, slug);
      LastAppend(d.wal, r, slug);
    }
  }

  lemma OthersKept(d: Disk, e: Disk, r: Record, slug: Slug, p: Profile)
    requires slug in d.active && RunOk(d, slug, p) && e.wal == d.wal + [Intact(r)] && r.slug != slug
    requires slug in e.active && e.active[slug] == d.active[slug]
    ensures RunOk(e, slug, p)
  {
    LastAppend(d.wal, r, slug);
    PathAppend(d.wal, r, slug);
  }

  lemma CreateKeeps(d: Disk, slug: Slug, state: Name, p: Profile)
    requires StoreOk(d, p) && Accepts(d, Create(slug, p.name, state), p)
    ensures StoreOk(After(d, Create(slug, p.name, state)), p)
  {
    var e := After(d, Create(slug, p.name, state));
    var r := Created(slug, p.name, state);
    LastAppend(d.wal, r, slug);
    PathAppend(d.wal, r, slug);
    ShowsStep(d, e, r);
    assert RunOk(e, slug, p);
    forall s | s in e.active ensures RunOk(e, s, p) { if s != slug { OthersKept(d, e, r, s, p); } }
  }

  lemma MovedOk(d: Disk, e: Disk, slug: Slug, to: Name, p: Profile)
    requires slug in d.active && RunOk(d, slug, p)
    requires var (m, r) := (d.active[slug].value, Moved(slug, d.active[slug].value.state, to, d.active[slug].value.version + 1));
      && e.wal == d.wal + [Intact(r)] && slug in e.active && e.active[slug] == Some(Moves(m, to))
      && m.state in p.cfg.defs && p.cfg.defs[m.state].kind != Terminal && to in Succ(GraphOf(p.cfg), m.state)
    ensures RunOk(e, slug, p)
  {
    hide GraphOf, OfKind, Succ, WellFormed;
    var m := d.active[slug].value;
    var r := Moved(slug, m.state, to, m.version + 1);
    LastAppend(d.wal, r, slug);
    PathAppend(d.wal, r, slug);
    hide Path, LastState, LastStatus, LegalPath;
    DepartNext(Path(d.wal, slug), to, "iteration");
    hide Departures;
    PathGoesOn(p, Path(d.wal, slug), to);
  }

  lemma PathGoesOn(p: Profile, path: seq<Name>, to: Name)
    requires LegalPath(p, path) && path != [] && path[|path| - 1] in p.cfg.defs
    requires p.cfg.defs[path[|path| - 1]].kind != Terminal && to in Succ(GraphOf(p.cfg), path[|path| - 1])
    ensures LegalPath(p, path + [to])
  {
    hide GraphOf, OfKind, Succ, WellFormed;
  }

  lemma UpdateDone(d: Disk, slug: Slug, m: Meta, to: Name)
    requires slug in d.active && d.active[slug] == Some(m)
    ensures var (e, r) := (After(d, Update(slug, to, Moves(m, to))), Moved(slug, m.state, to, m.version + 1));
      && e.wal == d.wal + [Intact(r)] && e.snapshot == SnapUpdate(d.snapshot, slug, to, m.version + 1)
      && e.active == d.active[slug := Some(Moves(m, to))]
  {
    hide SnapUpdate;
  }

  lemma AllowedMove(p: Profile, m: Meta, to: Name)
    requires exists rt :: Decide(p.cfg, p.holds, m.state, to, Some(rt), true) == Allowed
    ensures m.state in p.cfg.defs && p.cfg.defs[m.state].kind != Terminal && to in Succ(GraphOf(p.cfg), m.state)
  {
    hide Decide, GraphOf, Succ;
    var rt :| Decide(p.cfg, p.holds, m.state, to, Some(rt), true) == Allowed;
    AllowedIsEdge(p.cfg, p.holds, m.state, to, Some(rt), true);
  }

  lemma UpdateKeeps(d: Disk, slug: Slug, to: Name, p: Profile)
    requires StoreOk(d, p) && slug in d.active && d.active[slug].Some?
    requires Accepts(d, Update(slug, to, Moves(d.active[slug].value, to)), p)
    ensures StoreOk(After(d, Update(slug, to, Moves(d.active[slug].value, to))), p)
  {
    var m := d.active[slug].value;
    var e := After(d, Update(slug, to, Moves(m, to)));
    var r := Moved(slug, m.state, to, m.version + 1);
    UpdateDone(d, slug, m, to);
    AllowedMove(p, m, to);
    hide Decide, GraphOf, RunOk, Succ, Shows, After, SnapUpdate, Moves, Accepts;
    MovedOk(d, e, slug, to, p);
    MovedShown(d, e, r, p);
    forall s | s in e.active ensures RunOk(e, s, p) { if s != slug { OthersKept(d, e, r, s, p); } }
  }

  lemma MovedShown(d: Disk, e: Disk, r: Record, p: Profile)
    requires Shows(d.snapshot, d.wal) && r.Moved? && r.slug in d.active && RunOk(d, r.slug, p)
    requires e.wal == d.wal + [Intact(r)] && e.snapshot == SnapUpdate(d.snapshot, r.slug, r.to, r.version)
    ensures Shows(e.snapshot, e.wal)
  {
    assert ShowsRun(d.snapshot, d.wal, r.slug);
    hide LegalPath, Path;
    LastAppend(d.wal, r, r.slug);
    ShowsStep(d, e, r);
  }

  lemma ArchiveKeeps(d: Disk, slug: Slug, p: Profile)
    requires StoreOk(d, p) && slug in d.active
    ensures StoreOk(After(d, Archive(slug)), p)
  {
    var e := After(d, Archive(slug));
    var r := Shelved(slug);
    assert RunOk(d, slug, p) && ShowsRun(d.snapshot, d.wal, slug);
    LastAppend(d.wal, r, slug);
    ShowsStep(d, e, r);
    forall s | s in e.active ensures RunOk(e, s, p) { OthersKept(d, e, r, s, p); }
  }

  lemma {:induction false} RunKeeps(disks: seq<Disk>, calls: seq<Call>, p: Profile, k: nat)
    requires Run(disks, calls, p) && k < |disks|
    ensures StoreOk(disks[k], p)
  {
    if k > 0 {
      hide StoreOk, After, Decide;
      RunKeeps(disks, calls, p, k - 1);
      assert Accepts(disks[k - 1], calls[k - 1], p);
      match calls[k - 1] {
        case Create(slug, name, state) => CreateKeeps(disks[k - 1], slug, state, p);
        case Update(slug, to, meta) => UpdateKeeps(disks[k - 1], slug, to, p);
        case Archive(slug) => ArchiveKeeps(disks[k - 1], slug, p);
      }
    }
  }

  /** Over any run of accepted calls: every active run has followed declared edges from the
      first initial state and left no terminal state; its version counts its updates; the
      metadata, the snapshot and the log agree on its state; it is in a state that breadth
      first search reaches; and recovery would return the snapshot as it stands. */
  lemma WholeRunSafety(disks: seq<Disk>, calls: seq<Call>, p: Profile, k: nat, slug: Slug)
    requires Run(disks, calls, p) && k < |disks| && slug in disks[k].active
    ensures disks[k].active[slug].Some?
    ensures var (m, path) := (disks[k].active[slug].value, Path(disks[k].wal, slug));
      && LegalPath(p, path) && m.version == |path| - 1 && m.state == path[|path| - 1]
      && m.iterations == Departures(path, "iteration") && m.profile == p.name
      && EntryOf(disks[k].snapshot, slug).state == LastState(disks[k].wal, slug) == Some(m.state)
      && EntryOf(disks[k].snapshot, slug).status == Some(Active)
      && FromInitial(p.cfg, m.state)
    ensures Recover(disks[k]) == disks[k].snapshot
  {
    RunKeeps(disks, calls, p, k);
    var d := disks[k];
    assert RunOk(d, slug, p) && ShowsRun(d.snapshot, d.wal, slug);
    hide Run;
    var path := Path(d.wal, slug);
    var initial := OfKind(p.cfg, p.cfg.names, Initial)[0];
    assert WalkFrom(GraphOf(p.cfg), path, initial, d.active[slug].value.state);
    assert initial in OfKind(p.cfg, p.cfg.names, Initial);
    RecoverShown(d);
  }

  lemma RecoverShown(d: Disk)
    requires Shows(d.snapshot, d.wal)
    ensures Recover(d) == d.snapshot
  {
    SuffixReplay(d.snapshot, d.wal);
    assert d.wal + [] == d.wal;
    assert Replay(d.snapshot, d.wal + []) == Replay(d.snapshot, []);
  }
}
