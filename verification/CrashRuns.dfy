/** Runs of the manager in which the process may die inside any call and start again: what the
    metadata, the log and recovery still keep, and exactly when they agree. */
module CrashRuns {
  import opened Options
  import opened Graphs
  import opened Machine
  import opened MachineRuntime
  import opened RunStore
  import opened RunSafety
  import Traps

  /** A call that made so many of its writes; all of them when it was not cut off. */
  datatype Step = Step(call: Call, cut: nat)

  ghost predicate Steps(d: Disk, s: Step, e: Disk, p: Profile) {
    Accepts(d, s.call, p) && s.cut <= |Writes(d, s.call)| && e == Crashed(d, s.call, s.cut)
  }

  ghost predicate CrashRun(disks: seq<Disk>, steps: seq<Step>, p: Profile) {
    && |disks| == |steps| + 1 && disks[0] == Disk(map[], map[], map[], [])
    && forall k :: 0 <= k < |steps| ==> Steps(disks[k], steps[k], disks[k + 1], p)
  }

  lemma StepAt(disks: seq<Disk>, steps: seq<Step>, p: Profile, k: nat)
    requires CrashRun(disks, steps, p) && k + 1 < |disks|
    ensures |disks| == |steps| + 1 && Steps(disks[k], steps[k], disks[k + 1], p)
  {
    hide Steps;
  }

  // ---------- what every single write leaves ----------

  lemma CreateCut(d: Disk, slug: Slug, profile: string, state: Name, k: nat)
    requires k <= 5
    ensures var e := Crashed(d, Create(slug, profile, state), k);
      && e.active == (if k == 0 then d.active else d.active[slug := if k == 1 then None else Some(Meta(profile, state, 0, 0))])
      && e.wal == (if k <= 2 then d.wal else d.wal + [if k == 3 then Torn else Intact(Created(slug, profile, state))])
      && e.snapshot == if k == 5 then SnapCreate(d.snapshot, slug, profile, state) else d.snapshot
  {
  }

  lemma UpdateCut(d: Disk, slug: Slug, to: Name, m: Meta, k: nat)
    requires slug in d.active && d.active[slug] == Some(m) && k <= 4
    ensures var (e, r) := (Crashed(d, Update(slug, to, Moves(m, to)), k), Moved(slug, m.state, to, m.version + 1));
      && e.active == (if k == 4 then d.active[slug := Some(Moves(m, to))] else d.active)
      && e.wal == (if k == 0 then d.wal else d.wal + [if k == 1 then Torn else Intact(r)])
      && e.snapshot == if k >= 3 then SnapUpdate(d.snapshot, slug, to, m.version + 1) else d.snapshot
  {
  }

  lemma ArchiveCutActive(d: Disk, slug: Slug, k: nat)
    requires slug in d.active && k <= 5
    ensures Crashed(d, Archive(slug), k).active == if k <= 1 then d.active else d.active - {slug}
  {
  }

  lemma WriteCounts(d: Disk, call: Call)
    ensures |Writes(d, call)| == if call.Update? then 4 else 5
  {
  }

  /** The log record of an accepted call. */
  function RecordOf(d: Disk, call: Call): Record {
    match call
    case Create(slug, profile, state) => Created(slug, profile, state)
    case Update(slug, to, meta) =>
      Moved(slug, if slug in d.active && d.active[slug].Some? then d.active[slug].value.state else "", to, meta.version)
    case Archive(slug) => Shelved(slug)
  }

  /** Nothing but the run of the call is touched, and the log gains at most a torn file or the record. */
  ghost predicate Touches(d: Disk, e: Disk, call: Call) {
    && (e.wal == d.wal || e.wal == d.wal + [Torn] || e.wal == d.wal + [Intact(RecordOf(d, call))])
    && (forall x :: x != call.slug ==> EntryOf(e.snapshot, x) == EntryOf(d.snapshot, x))
    && (forall x :: x != call.slug ==> (x in e.active <==> x in d.active) && (x in d.active ==> e.active[x] == d.active[x]))
  }

  lemma TouchesOne(d: Disk, e: Disk, call: Call, entry: Entry, meta: Option<Meta>)
    requires e.wal == d.wal || e.wal == d.wal + [Torn] || e.wal == d.wal + [Intact(RecordOf(d, call))]
    requires e.snapshot == d.snapshot || e.snapshot == d.snapshot[call.slug := entry]
    requires e.active == d.active || e.active == d.active - {call.slug} || e.active == d.active[call.slug := meta]
    ensures Touches(d, e, call)
  {
    hide RecordOf;
  }

  lemma CutTouches(d: Disk, s: Step, e: Disk, p: Profile)
    requires Steps(d, s, e, p)
    ensures Touches(d, e, s.call)
  {
    WriteCounts(d, s.call);
    hide Writes, Crashed, Decide, Touches;
    match s.call {
      case Create(slug, name, state) =>
        CreateCut(d, slug, name, state, s.cut);
        TouchesOne(d, e, s.call, SnapCreate(d.snapshot, slug, name, state)[slug],
                   if s.cut == 1 then None else Some(Meta(name, state, 0, 0)));
      case Update(slug, to, meta) =>
        var m := d.active[slug].value;
        UpdateCut(d, slug, to, m, s.cut);
        TouchesOne(d, e, s.call, SnapUpdate(d.snapshot, slug, to, m.version + 1)[slug], Some(Moves(m, to)));
      case Archive(slug) =>
        ArchiveCut(d, slug, s.cut);
        ArchiveCutActive(d, slug, s.cut);
        TouchesOne(d, e, s.call, SnapArchive(d.snapshot, slug)[slug], None);
    }
  }

  // ---------- what survives any crash ----------

  /** Some walk along declared edges from the first initial state, out of no terminal one, reaches s in
      n steps. */
  ghost predicate WalkedTo(p: Profile, s: Name, n: int) {
    exists path :: WalkOf(p, path, s, n)
  }

  ghost predicate WalkOf(p: Profile, path: seq<Name>, s: Name, n: int) {
    LegalPath(p, path) && path[|path| - 1] == s && |path| == n + 1
  }

  ghost predicate MayLeave(p: Profile, from: Name, to: Name) {
    from in p.cfg.defs && p.cfg.defs[from].kind != Terminal && to in Succ(GraphOf(p.cfg), from)
  }

  /** A record of a legal step, with the number of steps that led to it. */
  ghost predicate RecordOk(p: Profile, f: WalFile) {
    f.Intact? ==>
      match f.r
      case Created(_, _, state) => WalkedTo(p, state, 0)
      case Moved(_, from, to, version) => WalkedTo(p, from, version - 1) && MayLeave(p, from, to)
      case Shelved(_) => true
  }

  ghost predicate Reached(p: Profile, s: Option<Name>) {
    s.Some? ==> WellFormed(p.cfg) && FromInitial(p.cfg, s.value)
  }

  ghost predicate MetaOk(d: Disk, p: Profile, slug: Slug) {
    slug in d.active && d.active[slug].Some? ==> WalkedTo(p, d.active[slug].value.state, d.active[slug].value.version)
  }

  ghost predicate CrashOk(d: Disk, p: Profile) {
    && (forall slug :: MetaOk(d, p, slug))
    && (forall f :: f in d.wal ==> RecordOk(p, f))
    && (forall slug :: Reached(p, EntryOf(d.snapshot, slug).state))
  }

  lemma WalkGoesOn(p: Profile, from: Name, to: Name, n: int)
    requires WalkedTo(p, from, n) && MayLeave(p, from, to)
    ensures WalkedTo(p, to, n + 1)
  {
    var path :| WalkOf(p, path, from, n);
    PathGoesOn(p, path, to);
    hide LegalPath;
    assert WalkOf(p, path + [to], to, n + 1);
  }

  lemma WalkReaches(p: Profile, s: Name, n: int)
    requires WalkedTo(p, s, n)
    ensures Reached(p, Some(s))
  {
    var path :| WalkOf(p, path, s, n);
    var initial := OfKind(p.cfg, p.cfg.names, Initial)[0];
    assert WalkFrom(GraphOf(p.cfg), path, initial, s);
    assert initial in OfKind(p.cfg, p.cfg.names, Initial);
  }

  lemma WalkStarts(p: Profile, s: Name)
    requires WellFormed(p.cfg) && OfKind(p.cfg, p.cfg.names, Initial) != [] && s == OfKind(p.cfg, p.cfg.names, Initial)[0]
    ensures WalkedTo(p, s, 0)
  {
    assert WalkOf(p, [s], s, 0);
  }

  /** What a step must show of the run that it touches. */
  ghost predicate TouchedOk(d: Disk, e: Disk, p: Profile, call: Call) {
    RecordOk(p, Intact(RecordOf(d, call))) && Reached(p, EntryOf(e.snapshot, call.slug).state) && MetaOk(e, p, call.slug)
  }

  lemma TouchesKeeps(d: Disk, e: Disk, p: Profile, call: Call)
    requires CrashOk(d, p) && Touches(d, e, call) && TouchedOk(d, e, p, call)
    ensures CrashOk(e, p)
  {
    hide WalkedTo, Reached, RecordOf;
    forall x ensures MetaOk(e, p, x) && Reached(p, EntryOf(e.snapshot, x).state) { assert MetaOk(d, p, x); }
    forall g | g in e.wal ensures RecordOk(p, g) { assert g in d.wal || g == Torn || g == Intact(RecordOf(d, call)); }
  }

  lemma CreateTouched(d: Disk, e: Disk, slug: Slug, state: Name, k: nat, p: Profile)
    requires Reached(p, EntryOf(d.snapshot, slug).state) && WalkedTo(p, state, 0) && k <= 5
    requires !(slug in d.active && d.active[slug].Some?) && e == Crashed(d, Create(slug, p.name, state), k)
    ensures TouchedOk(d, e, p, Create(slug, p.name, state))
  {
    CreateCut(d, slug, p.name, state, k);
    WalkReaches(p, state, 0);
    hide Crashed, Writes, WalkedTo, Reached;
  }

  lemma UpdateTouched(d: Disk, e: Disk, slug: Slug, to: Name, m: Meta, k: nat, p: Profile)
    requires Reached(p, EntryOf(d.snapshot, slug).state) && WalkedTo(p, m.state, m.version) && MayLeave(p, m.state, to)
    requires slug in d.active && d.active[slug] == Some(m) && k <= 4 && e == Crashed(d, Update(slug, to, Moves(m, to)), k)
    ensures TouchedOk(d, e, p, Update(slug, to, Moves(m, to)))
  {
    UpdateCut(d, slug, to, m, k);
    WalkGoesOn(p, m.state, to, m.version);
    WalkReaches(p, to, m.version + 1);
    hide Crashed, Writes, WalkedTo, Reached, MayLeave, LeaveCount;
  }

  lemma ArchiveTouched(d: Disk, e: Disk, slug: Slug, k: nat, p: Profile)
    requires Reached(p, EntryOf(d.snapshot, slug).state) && MetaOk(d, p, slug)
    requires slug in d.active && k <= 5 && e == Crashed(d, Archive(slug), k)
    ensures TouchedOk(d, e, p, Archive(slug))
  {
    ArchiveCut(d, slug, k);
    ArchiveCutActive(d, slug, k);
    hide Crashed, Writes, WalkedTo, Reached;
  }

  lemma StepOk(d: Disk, s: Step, e: Disk, p: Profile)
    requires CrashOk(d, p) && Steps(d, s, e, p)
    ensures CrashOk(e, p)
  {
    WriteCounts(d, s.call);
    CutTouches(d, s, e, p);
    assert MetaOk(d, p, s.call.slug) && Reached(p, EntryOf(d.snapshot, s.call.slug).state);
    hide CrashOk, Writes, Crashed, Decide, TouchedOk, Touches, Reached, WalkedTo;
    TouchesKeeps(d, e, p, s.call) by {
      match s.call {
        case Create(slug, name, state) =>
          WalkStarts(p, state);
          CreateTouched(d, e, slug, state, s.cut, p);
        case Update(slug, to, meta) =>
          AllowedMove(p, d.active[slug].value, to);
          UpdateTouched(d, e, slug, to, d.active[slug].value, s.cut, p);
        case Archive(slug) => ArchiveTouched(d, e, slug, s.cut, p);
      }
    }
  }

  lemma {:induction false} RunOkAt(disks: seq<Disk>, steps: seq<Step>, p: Profile, k: nat)
    requires CrashRun(disks, steps, p) && k < |disks|
    ensures CrashOk(disks[k], p)
  {
    if k > 0 {
      hide CrashOk, Steps;
      RunOkAt(disks, steps, p, k - 1);
      StepOk(disks[k - 1], steps[k - 1], disks[k], p);
    } else {
      hide WalkedTo, RecordOk;
    }
  }

  lemma {:induction false} LastReached(p: Profile, wal: seq<WalFile>, slug: Slug)
    requires forall f :: f in wal ==> RecordOk(p, f)
    ensures Reached(p, LastState(wal, slug))
  {
    if wal != [] {
      var front, f := wal[..|wal| - 1], wal[|wal| - 1];
      assert wal == front + [f] && RecordOk(p, f);
      LastReached(p, front, slug);
      if f.Intact? && f.r.Created? {
        WalkReaches(p, f.r.state, 0);
      } else if f.Intact? && f.r.Moved? {
        WalkGoesOn(p, f.r.from, f.r.to, f.r.version - 1);
        WalkReaches(p, f.r.to, f.r.version);
      }
      hide Reached, WalkedTo, MayLeave;
    }
  }

  /** Over any run of accepted calls, each cut off anywhere or not: the metadata of a run has come from the
      first initial state along declared edges, in as many steps as its version says; every record in the
      log is of such a step; and whatever state recovery reports, breadth first search reaches it. */
  lemma CrashRunSafety(disks: seq<Disk>, steps: seq<Step>, p: Profile, k: nat, slug: Slug)
    requires CrashRun(disks, steps, p) && k < |disks|
    ensures slug in disks[k].active && disks[k].active[slug].Some? ==>
      var m := disks[k].active[slug].value; WalkedTo(p, m.state, m.version) && Reached(p, Some(m.state))
    ensures forall f :: f in disks[k].wal ==> RecordOk(p, f)
    ensures Reached(p, Seen(disks[k], slug).0)
  {
    RunOkAt(disks, steps, p, k);
    var d := disks[k];
    assert MetaOk(d, p, slug);
    hide Seen, LastState, CrashRun;
    SeenIs(d, slug);
    LastReached(p, d.wal, slug);
    if slug in d.active && d.active[slug].Some? {
      WalkReaches(p, d.active[slug].value.state, d.active[slug].value.version);
    }
  }

  // ---------- when metadata and recovery agree ----------

  ghost predicate Agreed(d: Disk, slug: Slug) {
    slug in d.active && d.active[slug].Some? && Seen(d, slug).0 == Some(d.active[slug].value.state)
  }

  /** What is on disk about a run. */
  ghost predicate SameRun(d: Disk, e: Disk, slug: Slug) {
    && (slug in e.active <==> slug in d.active) && (slug in d.active ==> e.active[slug] == d.active[slug])
    && EntryOf(e.snapshot, slug) == EntryOf(d.snapshot, slug)
    && LastState(e.wal, slug) == LastState(d.wal, slug) && LastStatus(e.wal, slug) == LastStatus(d.wal, slug)
  }

  lemma OtherKept(d: Disk, s: Step, e: Disk, p: Profile, slug: Slug)
    requires Steps(d, s, e, p) && s.call.slug != slug
    ensures SameRun(d, e, slug)
  {
    CutTouches(d, s, e, p);
    hide Steps, LastState, LastStatus, LastProfile;
    TornIgnored(d.wal, slug);
    LastAppend(d.wal, RecordOf(d, s.call), slug);
  }

  /** Calls about other runs, cut off or not, leave a run as it is. */
  lemma {:induction false} OthersOnly(disks: seq<Disk>, steps: seq<Step>, p: Profile, j: nat, k: nat, slug: Slug)
    requires CrashRun(disks, steps, p) && j <= k < |disks|
    requires forall i :: j <= i < k ==> steps[i].call.slug != slug
    ensures SameRun(disks[j], disks[k], slug)
    decreases k
  {
    hide *;
    if j == k {
      SameSelf(disks[k], slug);
    } else {
      OthersOnly(disks, steps, p, j, k - 1, slug);
      StepAt(disks, steps, p, k - 1);
      OtherKept(disks[k - 1], steps[k - 1], disks[k], p, slug);
      SameTwice(disks[j], disks[k - 1], disks[k], slug);
    }
  }

  lemma SameSelf(d: Disk, slug: Slug)
    ensures SameRun(d, d, slug)
  {
  }

  lemma SameTwice(c: Disk, d: Disk, e: Disk, slug: Slug)
    requires SameRun(c, d, slug) && SameRun(d, e, slug)
    ensures SameRun(c, e, slug)
  {
    hide LastState, LastStatus, EntryOf;
  }

  lemma SameAgreed(d: Disk, e: Disk, slug: Slug)
    requires SameRun(d, e, slug)
    ensures Agreed(d, slug) <==> Agreed(e, slug)
  {
    hide LastState, LastStatus, Seen;
    SeenIs(d, slug);
    SeenIs(e, slug);
  }

  lemma CutAgrees(d: Disk, s: Step, e: Disk, p: Profile)
    requires Steps(d, s, e, p) && !s.call.Archive? && s.cut == |Writes(d, s.call)|
    ensures Agreed(e, s.call.slug)
  {
    CompletedAgrees(d, s.call);
    hide Decide, Seen;
  }

  /** Once a create or an update has completed, and until the next call about the run, metadata and
      recovery agree on its state, whatever was cut off before or elsewhere. */
  lemma CompletedLasts(disks: seq<Disk>, steps: seq<Step>, p: Profile, j: nat, k: nat, slug: Slug)
    requires CrashRun(disks, steps, p) && j < k < |disks|
    requires steps[j].call.slug == slug && !steps[j].call.Archive? && steps[j].cut == |Writes(disks[j], steps[j].call)|
    requires forall i :: j < i < k ==> steps[i].call.slug != slug
    ensures Agreed(disks[k], slug)
  {
    assert Steps(disks[j], steps[j], disks[j + 1], p);
    hide Steps, Writes, Agreed, SameRun;
    CutAgrees(disks[j], steps[j], disks[j + 1], p);
    OthersOnly(disks, steps, p, j + 1, k, slug);
    SameAgreed(disks[j + 1], disks[k], slug);
  }

  lemma UpdateDecides(d: Disk, s: Step, e: Disk, p: Profile, slug: Slug, to: Name)
    requires Steps(d, s, e, p) && Agreed(d, slug) && s.call.Update? && s.call.slug == slug && s.call.to == to
    ensures Agreed(e, slug) <==> to == d.active[slug].value.state || s.cut in {0, 1, 4}
  {
    var m := d.active[slug].value;
    WriteCounts(d, s.call);
    UpdateCut(d, slug, to, m, s.cut);
    hide Decide, Seen, Crashed, Writes;
    CrashSplits(d, slug, to, s.cut);
  }

  /** Where they agreed, an update cut off anywhere leaves them agreed, until the next call about the run,
      if and only if it changes no state, or was cut off outside the gap between log record and metadata. */
  lemma CutDecides(disks: seq<Disk>, steps: seq<Step>, p: Profile, j: nat, k: nat, slug: Slug, to: Name)
    requires CrashRun(disks, steps, p) && j < k < |disks| && Agreed(disks[j], slug)
    requires steps[j].call.Update? && steps[j].call.slug == slug && steps[j].call.to == to
    requires forall i :: j < i < k ==> steps[i].call.slug != slug
    ensures Agreed(disks[k], slug) <==> to == disks[j].active[slug].value.state || steps[j].cut in {0, 1, 4}
  {
    assert Steps(disks[j], steps[j], disks[j + 1], p);
    hide Steps, Seen, SameRun;
    UpdateDecides(disks[j], steps[j], disks[j + 1], p, slug, to);
    OthersOnly(disks, steps, p, j + 1, k, slug);
    SameAgreed(disks[j + 1], disks[k], slug);
  }

  // ---------- the path that the log tells ----------

  /** The log goes on being a legal path if and only if the move could be made from where the log, and not
      only the metadata, says that the run is. */
  lemma LogGoesOnExactly(d: Disk, s: Step, e: Disk, p: Profile, slug: Slug, to: Name)
    requires Steps(d, s, e, p) && s.call.Update? && s.call.slug == slug && s.call.to == to && s.cut >= 2
    requires LegalPath(p, Path(d.wal, slug))
    ensures var path := Path(d.wal, slug); LegalPath(p, Path(e.wal, slug)) <==> MayLeave(p, path[|path| - 1], to)
  {
    var m := d.active[slug].value;
    WriteCounts(d, s.call);
    UpdateCut(d, slug, to, m, s.cut);
    PathAppend(d.wal, Moved(slug, m.state, to, m.version + 1), slug);
    hide Decide, Crashed, Writes, Path;
    LongerPath(p, Path(d.wal, slug), to);
  }

  lemma LongerPath(p: Profile, path: seq<Name>, to: Name)
    requires LegalPath(p, path)
    ensures LegalPath(p, path + [to]) <==> MayLeave(p, path[|path| - 1], to)
  {
    if MayLeave(p, path[|path| - 1], to) {
      PathGoesOn(p, path, to);
    }
    if LegalPath(p, path + [to]) {
      hide GraphOf, Succ, WellFormed, OfKind;
      var longer := path + [to];
      assert longer[|path| - 1] == path[|path| - 1] && longer[|path|] == to;
    }
  }

  /** A profile whose initial state a leads to a terminal one and to another. */
  function Forked(): Profile {
    Profile("", Traps.Halt("a", "t", "b"), (c, r) => true)
  }

  lemma OutgoingTwo(x: Transition, y: Transition)
    requires x.source == y.source
    ensures Outgoing([x, y], x.source) == [x, y]
  {
    assert [x, y][..1] == [x] && [x][..0] == [];
    assert Outgoing([x], x.source) == [x];
  }

  lemma FirstOfTwo(x: Transition, y: Transition)
    requires x.target != y.target
    ensures FirstMatch([x, y], x.target) == Some(x) && FirstMatch([x, y], y.target) == Some(y)
  {
    assert [x, y][1..] == [y];
  }

  lemma ForkedAllows(to: Name)
    requires to in {"t", "b"}
    ensures exists rt :: Decide(Forked().cfg, Forked().holds, "a", to, Some(rt), true) == Allowed
  {
    var x, y := Traps.Plainly("a", "t"), Traps.Plainly("a", "b");
    OutgoingTwo(x, y);
    FirstOfTwo(x, y);
    hide Outgoing, FirstMatch;
    assert Decide(Forked().cfg, Forked().holds, "a", to, Some(StartRuntime(0)), true) == Allowed;
  }

  lemma ForkedStarts()
    ensures var cfg := Forked().cfg; WellFormed(cfg) && OfKind(cfg, cfg.names, Initial) == ["a"]
  {
    var cfg := Forked().cfg;
    assert cfg.names == ["a", "t", "b"] && cfg.names[1..] == ["t", "b"] && cfg.names[1..][1..] == ["b"];
    Traps.HaltReachable("a", "t", "b");
  }

  const FIRST: Meta := Meta("", "a", 0, 0)
  const EMPTY: Disk := Disk(map[], map[], map[], [])

  lemma ForkedCreate() returns (d: Disk)
    ensures Steps(EMPTY, Step(Create("r", "", "a"), 5), d, Forked())
    ensures d.active == map["r" := Some(FIRST)] && d.wal == [Intact(Created("r", "", "a"))]
  {
    var create := Create("r", "", "a");
    d := Crashed(EMPTY, create, 5);
    CreateCut(EMPTY, "r", "", "a", 5);
    WriteCounts(EMPTY, create);
    ForkedStarts();
    hide Crashed, Writes, OfKind, WellFormed;
  }

  lemma ForkedUpdate(d: Disk, to: Name, k: nat) returns (e: Disk)
    requires "r" in d.active && d.active["r"] == Some(FIRST) && to in {"t", "b"} && 2 <= k <= 4
    ensures Steps(d, Step(Update("r", to, Moves(FIRST, to)), k), e, Forked())
    ensures (k < 4 ==> e.active == d.active) && e.wal == d.wal + [Intact(Moved("r", "a", to, 1))]
  {
    var update := Update("r", to, Moves(FIRST, to));
    e := Crashed(d, update, k);
    UpdateCut(d, "r", to, FIRST, k);
    WriteCounts(d, update);
    ForkedAllows(to);
    hide Crashed, Writes, Decide, Moves, Forked;
  }

  lemma RunOfThree(d1: Disk, d2: Disk, d3: Disk, s1: Step, s2: Step, s3: Step, p: Profile)
    requires Steps(EMPTY, s1, d1, p) && Steps(d1, s2, d2, p) && Steps(d2, s3, d3, p)
    ensures CrashRun([EMPTY, d1, d2, d3], [s1, s2, s3], p)
  {
    hide Steps;
  }

  lemma PathOfThree(wal: seq<WalFile>)
    requires wal == [Intact(Created("r", "", "a"))] + [Intact(Moved("r", "a", "t", 1))] + [Intact(Moved("r", "a", "b", 1))]
    ensures Path(wal, "r") == ["a", "t", "b"]
  {
    var c, m, n := Created("r", "", "a"), Moved("r", "a", "t", 1), Moved("r", "a", "b", 1);
    PathAppend([], c, "r");
    assert [] + [Intact(c)] == [Intact(c)];
    PathAppend([Intact(c)], m, "r");
    PathAppend([Intact(c)] + [Intact(m)], n, "r");
    hide Path;
  }

  lemma LeavesTerminal()
    ensures !LegalPath(Forked(), ["a", "t", "b"])
  {
    hide GraphOf, Succ, OfKind, WellFormed;
    assert Forked().cfg.defs["t"].kind == Terminal;
    assert ["a", "t", "b"][1] == "t";
  }

  /** It can fail: a move whose metadata was not written is made again to another state, and the log then
      tells of a run that left a terminal state. */
  lemma LogPathBreaks() returns (disks: seq<Disk>, steps: seq<Step>)
    ensures CrashRun(disks, steps, Forked()) && |disks| == 4 && Path(disks[3].wal, "r") == ["a", "t", "b"]
    ensures !LegalPath(Forked(), ["a", "t", "b"])
  {
    hide *;
    var d1 := ForkedCreate();
    var d2 := ForkedUpdate(d1, "t", 2);
    var d3 := ForkedUpdate(d2, "b", 4);
    var s1, s2 := Step(Create("r", "", "a"), 5), Step(Update("r", "t", Moves(FIRST, "t")), 2);
    var s3 := Step(Update("r", "b", Moves(FIRST, "b")), 4);
    RunOfThree(d1, d2, d3, s1, s2, s3, Forked());
    disks, steps := [EMPTY, d1, d2, d3], [s1, s2, s3];
    PathOfThree(d3.wal);
    LeavesTerminal();
  }
}
