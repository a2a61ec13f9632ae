/** What the files of a run hold after each call of the manager, and after each single write of an archive:
    which directory has the metadata, and what recovery makes of log and snapshot. */
module RunFiles {
  import opened Options
  import opened Graphs
  import opened RunStore
  import opened RunSafety

  /** Nothing but the files of one run differs. */
  ghost predicate OthersAlike(d: Disk, e: Disk, slug: Slug) {
    forall x :: x != slug ==>
      && (x in e.active <==> x in d.active) && (x in d.active ==> e.active[x] == d.active[x])
      && (x in e.archive <==> x in d.archive) && (x in d.archive ==> e.archive[x] == d.archive[x])
      && EntryOf(e.snapshot, x) == EntryOf(d.snapshot, x) && EntryOf(Recover(e), x) == EntryOf(Recover(d), x)
  }

  lemma RecoveredOther(d: Disk, e: Disk, r: Record, x: Slug)
    requires (e.wal == d.wal || e.wal == d.wal + [Torn] || e.wal == d.wal + [Intact(r)]) && x != r.slug
    requires EntryOf(e.snapshot, x) == EntryOf(d.snapshot, x)
    ensures EntryOf(Recover(e), x) == EntryOf(Recover(d), x)
  {
    ReplayLastWriter(d.snapshot, d.wal, x);
    ReplayLastWriter(e.snapshot, e.wal, x);
    TornIgnored(d.wal, x);
    ProfileIgnored(d.wal, x);
    LastAppend(d.wal, r, x);
    hide Replay, LastState, LastStatus, LastProfile;
  }

  lemma ProfileIgnored(wal: seq<WalFile>, slug: Slug)
    ensures LastProfile(wal + [Torn], slug) == LastProfile(wal, slug)
  {
    assert (wal + [Torn])[..|wal|] == wal;
  }

  /** A create that completes: new metadata, and the run recovered as active with its first state and profile. The
      version in the snapshot, if the slug was used before, is not reset. */
  lemma CreatedFiles(d: Disk, slug: Slug, profile: string, state: Name)
    requires slug != ""
    ensures var e := After(d, Create(slug, profile, state));
      && slug in e.active && e.active[slug] == Some(Meta(profile, state, 0, 0)) && e.archive == d.archive
      && EntryOf(Recover(e), slug) == Entry(Some(state), Some(profile), Some(Active), EntryOf(d.snapshot, slug).version)
      && OthersAlike(d, e, slug)
  {
    var e := After(d, Create(slug, profile, state));
    var r := Created(slug, profile, state);
    assert e.wal == d.wal + [Intact(r)] && e.snapshot == SnapCreate(d.snapshot, slug, profile, state);
    ReplayLastWriter(e.snapshot, e.wal, slug);
    LastAppend(d.wal, r, slug);
    hide Replay, LastState, LastStatus, LastProfile;
    forall x | x != slug ensures EntryOf(Recover(e), x) == EntryOf(Recover(d), x) { RecoveredOther(d, e, r, x); }
  }

  /** An update that completes: metadata in the new state, one version on, a move out of "iteration" counted;
      recovered in that state and version, with the profile as before, and active unless the log says otherwise. */
  lemma UpdatedFiles(d: Disk, slug: Slug, m: Meta, to: Name)
    requires slug != "" && slug in d.active && d.active[slug] == Some(m)
    ensures var e := After(d, Update(slug, to, Moves(m, to)));
      && slug in e.active && e.archive == d.archive
      && e.active[slug] == Some(Meta(m.profile, to, m.version + 1, m.iterations + if m.state == "iteration" then 1 else 0))
      && EntryOf(Recover(e), slug) == Entry(Some(to), EntryOf(Recover(d), slug).profile,
                                            Or(LastStatus(d.wal, slug), Some(Active)), Some(m.version + 1))
      && OthersAlike(d, e, slug)
  {
    var e := After(d, Update(slug, to, Moves(m, to)));
    var r := Moved(slug, m.state, to, m.version + 1);
    UpdateDone(d, slug, m, to);
    hide After, Writes;
    ReplayLastWriter(d.snapshot, d.wal, slug);
    ReplayLastWriter(e.snapshot, e.wal, slug);
    LastAppend(d.wal, r, slug);
    hide Replay, LastState, LastStatus, LastProfile;
    forall x | x != slug ensures EntryOf(Recover(e), x) == EntryOf(Recover(d), x) { RecoveredOther(d, e, r, x); }
  }

  // ---------- the two directories ----------

  /** Cut off anywhere, an archive has the metadata of the run, unaltered, in just one of the two directories;
      an older archived copy is gone as soon as anything was written. */
  lemma ArchiveKeepsMetadata(d: Disk, slug: Slug, k: nat)
    requires slug in d.active && k <= 5
    ensures var c := Crashed(d, Archive(slug), k);
      && (k == 0 ==> c == d)
      && (k == 1 ==> slug in c.active && c.active[slug] == d.active[slug] && slug !in c.archive)
      && (k >= 2 ==> slug !in c.active && slug in c.archive && c.archive[slug] == d.active[slug])
      && (forall x :: x != slug ==> (x in c.active <==> x in d.active) && (x in d.active ==> c.active[x] == d.active[x]))
      && (forall x :: x != slug ==> (x in c.archive <==> x in d.archive) && (x in d.archive ==> c.archive[x] == d.archive[x]))
  {
  }

  /** So what was archived before under the slug survives if and only if nothing was written, or the same
      metadata took its place. */
  lemma OlderCopyGone(d: Disk, slug: Slug, k: nat)
    requires slug in d.active && slug in d.archive && k <= 5
    ensures var c := Crashed(d, Archive(slug), k);
      (slug in c.archive && c.archive[slug] == d.archive[slug]) <==> k == 0 || (k >= 2 && d.active[slug] == d.archive[slug])
  {
    ArchiveKeepsMetadata(d, slug, k);
    hide Crashed;
  }

  /** An archive that completes: the run is recovered as archived and otherwise as before. */
  lemma ArchivedFiles(d: Disk, slug: Slug)
    requires slug != "" && slug in d.active
    ensures var e := After(d, Archive(slug));
      && slug !in e.active && slug in e.archive && e.archive[slug] == d.active[slug]
      && EntryOf(Recover(e), slug) == EntryOf(Recover(d), slug).(status := Some(Archived))
      && OthersAlike(d, e, slug)
  {
    var e := After(d, Archive(slug));
    var r := Shelved(slug);
    ArchiveKeepsMetadata(d, slug, 5);
    assert e == Crashed(d, Archive(slug), 5);
    assert e.wal == d.wal + [Intact(r)] && e.snapshot == SnapArchive(d.snapshot, slug);
    hide After, Writes, Crashed;
    ReplayLastWriter(d.snapshot, d.wal, slug);
    ReplayLastWriter(e.snapshot, e.wal, slug);
    LastAppend(d.wal, r, slug);
    hide Replay, LastState, LastStatus, LastProfile;
    forall x | x != slug ensures EntryOf(Recover(e), x) == EntryOf(Recover(d), x) { RecoveredOther(d, e, r, x); }
  }

  // ---------- no metadata is lost ----------

  /** The metadata of the run is in the active directory, perhaps updated, or in the archive as it was. */
  ghost predicate Somewhere(d: Disk, slug: Slug) {
    (slug in d.active && d.active[slug].Some?) || (slug in d.archive && d.archive[slug].Some?)
  }

  /** Every cut of every accepted call leaves the metadata of every run somewhere, except that archiving a
      directory without metadata, as a create that was cut off leaves it, destroys an older archived copy. */
  lemma StaysSomewhere(d: Disk, call: Call, k: nat, slug: Slug)
    requires Somewhere(d, slug) && k <= |Writes(d, call)|
    requires call.Create? ==> !(call.slug in d.active && d.active[call.slug].Some?)
    requires !call.Create? ==> call.slug in d.active
    ensures Somewhere(Crashed(d, call, k), slug) <==> !(call == Archive(slug) && k >= 1 && d.active[slug].None?)
  {
    if call.Archive? {
      ArchiveKeepsMetadata(d, call.slug, k);
      hide Crashed, Writes;
    }
  }
}
