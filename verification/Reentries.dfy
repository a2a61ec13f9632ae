/** The limit on how often a state may be re-entered: kept by one runtime, forgotten between updates of a run. */
module Reentries {
  import opened Options
  import opened Graphs
  import opened Machine
  import opened LtlMonitor
  import opened MachineRuntime
  import opened RunStore
  import opened RunSafety

  /** The first transition declared from a state to itself needs neither a human nor a condition. */
  ghost predicate FreeLoop(cfg: Config, s: Name) {
    && s in cfg.defs && cfg.defs[s].kind != Terminal
    && exists i: nat :: FreeAt(cfg, s, i)
  }

  predicate FreeAt(cfg: Config, s: Name, i: nat) {
    && FirstDeclared(cfg.transitions, s, s, i) && !cfg.transitions[i].requiresHuman
    && cfg.transitions[i].condition in {None, Some("")}
  }

  lemma LoopVerdict(cfg: Config, holds: Meaning, s: Name, rt: Runtime)
    requires FreeLoop(cfg, s)
    ensures Decide(cfg, holds, s, s, Some(rt), true)
      == if cfg.defs[s].maxReentries.Some? && rt.reentries >= cfg.defs[s].maxReentries.value then TooManyReentries else Allowed
  {
    DecideExact(cfg, holds, s, s, Some(rt), true);
    var i: nat :| FreeAt(cfg, s, i);
    assert Answered(cfg, holds, s, s, Some(rt), true, Decide(cfg, holds, s, s, Some(rt), true), i);
    hide Decide;
  }

  // ---------- on one runtime ----------

  /** So many self-loops in a row are allowed, each counted in the runtime that the next one is asked with. */
  predicate LoopsAllowed(cfg: Config, holds: Meaning, s: Name, rt: Runtime, n: nat)
    decreases n
  {
    n == 0 || (Decide(cfg, holds, s, s, Some(rt), true) == Allowed
               && LoopsAllowed(cfg, holds, s, rt.(reentries := rt.reentries + 1), n - 1))
  }

  /** A runtime that is kept is allowed as many self-loops as the limit leaves, and no more. */
  lemma {:induction false} KeptRuntimeExactly(cfg: Config, holds: Meaning, s: Name, rt: Runtime, n: nat)
    requires FreeLoop(cfg, s)
    ensures LoopsAllowed(cfg, holds, s, rt, n) <==>
      n == 0 || cfg.defs[s].maxReentries.None? || rt.reentries + n <= cfg.defs[s].maxReentries.value
    decreases n
  {
    if n > 0 {
      LoopVerdict(cfg, holds, s, rt);
      KeptRuntimeExactly(cfg, holds, s, rt.(reentries := rt.reentries + 1), n - 1);
      hide Decide, FreeLoop;
    }
  }

  // ---------- over the updates of a run ----------

  /** The disk after so many updates of a run to the state it is in. */
  function Looped(d: Disk, slug: Slug, n: nat): Disk {
    if n == 0 then d
    else
      var e := Looped(d, slug, n - 1);
      if slug in e.active && e.active[slug].Some? then
        var m := e.active[slug].value;
        After(e, Update(slug, m.state, Moves(m, m.state)))
      else e
  }

  lemma {:induction false} LoopedMeta(d: Disk, slug: Slug, m: Meta, n: nat)
    requires slug in d.active && d.active[slug] == Some(m)
    ensures var e := Looped(d, slug, n);
      slug in e.active && e.active[slug].Some? && e.active[slug].value.state == m.state
      && e.active[slug].value.version == m.version + n && e.active[slug].value.profile == m.profile
  {
    if n > 0 {
      LoopedMeta(d, slug, m, n - 1);
      var e := Looped(d, slug, n - 1);
      UpdateDone(e, slug, e.active[slug].value, m.state);
      hide After;
    }
  }

  /** What an update without overrides is told. */
  function Told(p: Profile, d: Disk, slug: Slug): Verdict
    requires slug in d.active && d.active[slug].Some?
  {
    var m := d.active[slug].value;
    Decide(p.cfg, p.holds, m.state, m.state, Some(StartRuntime(LeaveCount(m))), true)
  }

  /** Each update starts from a runtime of its own, so the limit does not bound the self-loops of a run: however
      many were made, the next is allowed if and only if there is no limit or one above zero. */
  lemma LimitForgotten(p: Profile, d: Disk, slug: Slug, m: Meta, n: nat)
    requires slug in d.active && d.active[slug] == Some(m) && FreeLoop(p.cfg, m.state)
    ensures var e := Looped(d, slug, n);
      && slug in e.active && e.active[slug].Some? && e.active[slug].value.version == m.version + n
      && Told(p, e, slug) ==
           if p.cfg.defs[m.state].maxReentries.Some? && p.cfg.defs[m.state].maxReentries.value <= 0 then TooManyReentries
           else Allowed
  {
    LoopedMeta(d, slug, m, n);
    hide Looped, Decide, FreeLoop;
    var l := Looped(d, slug, n).active[slug].value;
    LoopVerdict(p.cfg, p.holds, m.state, StartRuntime(LeaveCount(l)));
  }
}
