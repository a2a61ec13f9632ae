/** Offline operations and the five-step reconnect to a leader. */
module RaftReconnect {
  import opened Options
  import opened Graphs
  import opened RaftNode
  import opened RaftMerge

  datatype Pending = Pending(command: Command, version: int, applied: bool)

  // ---------- the steps as functions ----------

  /** Step 1: take over the leader's log and apply all of it. */
  function TakeLog(follower: Node, leader: Node): Node {
    Advance(follower.(log := leader.log, commit := |leader.log| - 1))
  }

  /** Step 2: propose each operation that is not applied yet. */
  function SubmitAll(leader: Node, ops: seq<Pending>): (Node, seq<Pending>)
    decreases |ops|
  {
    if ops == [] then (leader, [])
    else
      var (earlier, done) := SubmitAll(leader, ops[..|ops| - 1]);
      var op := ops[|ops| - 1];
      if op.applied then (earlier, done + [op])
      else
        var (next, ok) := Propose(earlier, op.command);
        (next, done + [if ok then op.(applied := true) else op])
  }

  lemma SubmitNext(leader: Node, ops: seq<Pending>, k: nat)
    requires k < |ops|
    ensures var (earlier, done) := SubmitAll(leader, ops[..k]);
      SubmitAll(leader, ops[..k + 1]) ==
        if ops[k].applied then (earlier, done + [ops[k]])
        else (Propose(earlier, ops[k].command).0,
              done + [if Propose(earlier, ops[k].command).1 then ops[k].(applied := true) else ops[k]])
  {
    assert ops[..k + 1][..k] == ops[..k];
  }

  function ProvideMerge(leader: Node, slug: string, merged: NodeState): Node {
    if leader.role != Leader then leader else leader.(states := leader.states[slug := merged])
  }

  /** One turn of step 3. */
  function MergeOne(follower: Node, leader: Node, op: Pending, g: Graph): Node {
    var slug := op.command.slug;
    if slug == "" || slug !in follower.states || slug !in leader.states then leader
    else
      var local, remote := follower.states[slug], leader.states[slug];
      if local.version == remote.version then leader
      else
        var merged := Merge(local, remote, g);
        if merged == local then leader else ProvideMerge(leader, slug, merged)
  }

  /** The version of a run in a map, 0 for a run it does not know. */
  function KnownVersion(states: States, slug: string): int {
    if slug in states then states[slug].version else 0
  }

  class HybridConsensusNode {
    const raft: DistributedStateMachine
    const transitions: Graph
    var pending: seq<Pending>
    var isOffline: bool

    constructor (raft: DistributedStateMachine, transitions: Graph)
      ensures this.raft == raft && this.transitions == transitions && pending == [] && !isOffline
    {
      this.raft, this.transitions := raft, transitions;
      pending, isOffline := [], false;
    }

    method GoOffline()
      modifies this`isOffline, raft
      ensures isOffline && raft.View() == old(raft.View()).(role := Offline)
    {
      isOffline := true;
      raft.role := Offline;
    }

    /** A write while offline: remembered, and shown at once in the local map. */
    method ApplyPending(command: Command)
      modifies this`pending, raft
      ensures command.slug == "" ==> pending == old(pending) && raft.View() == old(raft.View())
      ensures command.slug != "" ==>
        && |pending| == |old(pending)| + 1 && pending[..|pending| - 1] == old(pending)
        && pending[|pending| - 1] == Pending(command, KnownVersion(old(raft.states), command.slug), false)
        && raft.View() == old(raft.View()).(states := raft.states)
        && raft.states == ShowPending(old(raft.states), command)
    {
      var slug := command.slug;
      if slug == "" {
        return;
      }
      if slug !in raft.states {
        raft.states := raft.states[slug := NodeState("", 0)];
      }
      pending := pending + [Pending(command, raft.states[slug].version, false)];
      if command.action.Transition? {
        raft.states := raft.states[slug := Shown(raft.states[slug], command.action.to)];
      }
      assert raft.states == ShowPending(old(raft.states), command);
    }

    method Reconnect(leader: DistributedStateMachine)
      requires leader != raft
      modifies this, raft, leader
      ensures !isOffline && pending == []
      ensures leader.View() == SubmitAll(old(leader.View()), old(pending)).0
      ensures raft.View() == TakeLog(old(raft.View()), old(leader.View())).(states := leader.states, role := Follower)
      ensures raft.log == old(leader.log) && raft.commit == |old(leader.log)| - 1
      ensures raft.applied == if old(raft.applied) < raft.commit then raft.commit else old(raft.applied)
      ensures raft.states == leader.states && raft.role == Follower
      ensures raft.log <= leader.log && Commands(leader.log[|raft.log|..])
        == if old(leader.role) == Leader then Unapplied(old(pending)) else []
    {
      ProposedAfter(leader.View(), pending);
      raft.log := leader.log;
      raft.commit := |raft.log| - 1;
      raft.ApplyCommitted();
      SubmitPending(leader);
      MergeStates(leader);
      raft.states := leader.states;
      pending := [];
      isOffline := false;
      raft.role := Follower;
    }

    /** Step 2 of reconnect. */
    method SubmitPending(leader: DistributedStateMachine)
      requires leader != raft
      modifies this`pending, leader
      ensures (leader.View(), pending) == SubmitAll(old(leader.View()), old(pending))
    {
      ghost var ops, before := pending, leader.View();
      for k := 0 to |pending|
        invariant |pending| == |ops| && pending[k..] == ops[k..]
        invariant (leader.View(), pending[..k]) == SubmitAll(before, ops[..k])
      {
        SubmitNext(before, ops, k);
        var op := pending[k];
        assert op == pending[k..][0] == ops[k];
        ghost var done := pending[..k];
        if !op.applied {
          var ok := leader.ProposeCommand(op.command);
          if ok {
            pending := pending[k := op.(applied := true)];
          }
        }
        assert pending[..k + 1] == done + [pending[k]];
        assert pending[k + 1..] == ops[k..][1..];
      }
      assert ops[..|ops|] == ops && pending[..|ops|] == pending;
    }

    /** Steps 3 and 4 of reconnect: they never change the leader. */
    method MergeStates(leader: DistributedStateMachine)
      requires leader != raft
      modifies leader
      ensures leader.View() == old(leader.View())
    {
      for k := 0 to |pending|
        invariant leader.View() == old(leader.View())
      {
        var slug := pending[k].command.slug;
        MergeChangesNothing(raft.View(), leader.View(), pending[k], transitions);
        if slug != "" && slug in raft.states && slug in leader.states {
          var local, remote := raft.states[slug], leader.states[slug];
          if local.version != remote.version {
            var merged := Merge(local, remote, transitions);
            if merged != local && leader.role == Leader {
              leader.states := leader.states[slug := merged];
            }
          }
        }
      }
    }
  }

  /** What a transition shows at once: a missing target keeps the state but still counts as an update,
      and an empty one is written as it is. */
  function Shown(known: NodeState, to: Option<string>): NodeState {
    NodeState(if to.Some? then to.value else known.current, known.version + 1)
  }

  function ShowPending(states: States, c: Command): States {
    var known := if c.slug in states then states[c.slug] else NodeState("", 0);
    states[c.slug := if c.action.Transition? then Shown(known, c.action.to) else known]
  }

  /** The local map after an offline write is what committing the command would give if and only if the
      command changes no run, moves it to a named state, or creates what is already there. */
  lemma ShownExactly(states: States, c: Command)
    requires c.slug != ""
    ensures ShowPending(states, c) == Apply(states, c) <==>
      match c.action
      case Transition(to) => to.Some? && to.value != ""
      case Create(initial) =>
        c.slug in states && states[c.slug] == NodeState(if initial.Some? then initial.value else "start", 1)
      case Archive => false
      case Unknown => true
  {
    var known := if c.slug in states then states[c.slug] else NodeState("", 0);
    assert ShowPending(states, c)[c.slug] == if c.action.Transition? then Shown(known, c.action.to) else known;
    assert Apply(states, c) == states[c.slug := Apply(states, c)[c.slug]];
  }

  // ---------- what reconnecting achieves ----------

  /** Step 3 only ever writes back the state the leader already has: the side with the
      larger version wins, and if that is the follower nothing is sent. */
  lemma MergeChangesNothing(follower: Node, leader: Node, op: Pending, g: Graph)
    ensures MergeOne(follower, leader, op, g) == leader
  {
    var slug := op.command.slug;
    if slug in follower.states && slug in leader.states {
      MergeTakes(g, follower.states[slug], leader.states[slug]);
      assert leader.states[slug := leader.states[slug]] == leader.states;
    }
  }

  function Commands(log: Log): seq<Command> {
    seq(|log|, i requires 0 <= i < |log| => log[i].command)
  }

  function Unapplied(ops: seq<Pending>): seq<Command> {
    if ops == [] then []
    else Unapplied(ops[..|ops| - 1]) + if ops[|ops| - 1].applied then [] else [ops[|ops| - 1].command]
  }

  /** The leader's log gains the unapplied commands, in order, exactly when the node is in
      role LEADER or there is nothing to submit. The pending list is cleared in any case. */
  lemma SubmittedExactly(leader: Node, ops: seq<Pending>)
    ensures var after := SubmitAll(leader, ops).0;
      && ((Commands(after.log) == Commands(leader.log) + Unapplied(ops)) <==>
          (leader.role == Leader || Unapplied(ops) == []))
      && leader.log <= after.log
      && (leader.role != Leader ==> after == leader)
  {
    SubmittedInOrder(leader, ops);
    if leader.role != Leader {
      assert |Commands(leader.log)| == |leader.log|;
    }
  }

  lemma ProposeLog(n: Node, c: Command)
    ensures var m := Propose(n, c).0;
      && (n.role == Leader ==> m.log == n.log + [NewEntry(n, c)] && m.role == Leader && m.term == n.term)
      && (n.role != Leader ==> m == n)
  {
  }

  lemma {:induction false} SubmittedInOrder(leader: Node, ops: seq<Pending>)
    ensures var after := SubmitAll(leader, ops).0;
      && leader.log <= after.log && after.role == leader.role && after.term == leader.term
      && (leader.role == Leader ==> Commands(after.log) == Commands(leader.log) + Unapplied(ops))
      && (leader.role != Leader ==> after == leader)
  {
    if ops == [] {
      assert Commands(leader.log) + [] == Commands(leader.log);
    } else {
      SubmittedInOrder(leader, ops[..|ops| - 1]);
      var earlier := SubmitAll(leader, ops[..|ops| - 1]).0;
      var op := ops[|ops| - 1];
      ProposeLog(earlier, op.command);
      hide Propose;
      assert Commands(earlier.log + [NewEntry(earlier, op.command)]) == Commands(earlier.log) + [op.command];
    }
  }

  /** What submitting adds to the leader's log: the unapplied commands if it leads, else nothing. */
  lemma ProposedAfter(leader: Node, ops: seq<Pending>)
    ensures var after := SubmitAll(leader, ops).0;
      && leader.log <= after.log
      && Commands(after.log[|leader.log|..]) == if leader.role == Leader then Unapplied(ops) else []
  {
    SubmittedInOrder(leader, ops);
    var after := SubmitAll(leader, ops).0;
    hide SubmitAll, Unapplied;
    assert Commands(after.log[|leader.log|..]) == Commands(after.log)[|leader.log|..];
    assert |Commands(leader.log)| == |leader.log|;
  }

  /** Which operations come back as applied: those that were, and all of them if the other node leads. */
  lemma {:induction false} SubmittedMarks(leader: Node, ops: seq<Pending>)
    ensures var (after, done) := SubmitAll(leader, ops);
      after.role == leader.role && |done| == |ops|
      && forall i :: 0 <= i < |ops| ==> done[i] == ops[i].(applied := ops[i].applied || leader.role == Leader)
  {
    if ops != [] {
      SubmittedMarks(leader, ops[..|ops| - 1]);
      ProposeLog(SubmitAll(leader, ops[..|ops| - 1]).0, ops[|ops| - 1].command);
      hide Propose;
    }
  }

  /** A leader that is a quorum by itself has applied everything once anything was
      submitted; one that is not has applied nothing new. */
  lemma {:induction false} SubmittedApplied(leader: Node, ops: seq<Pending>)
    requires leader.role == Leader && leader.applied <= leader.commit < |leader.log|
    ensures var after := SubmitAll(leader, ops).0;
      && after.role == Leader && after.peers == leader.peers && leader.log <= after.log
      && (Unapplied(ops) == [] ==> after == leader)
      && (Unapplied(ops) != [] && |leader.peers| < 2 ==>
            && after.applied == after.commit == |after.log| - 1
            && after.states == Fold(leader.states, after.log[leader.applied + 1..]))
      && (|leader.peers| >= 2 ==>
            after.states == leader.states && after.applied == leader.applied && after.commit == leader.commit)
  {
    hide Propose, Fold;
    if ops != [] {
      var front := ops[..|ops| - 1];
      SubmittedApplied(leader, front);
      var earlier := SubmitAll(leader, front).0;
      if !ops[|ops| - 1].applied {
        var c := ops[|ops| - 1].command;
        ProposeApplies(earlier, c);
        if Unapplied(front) != [] && |leader.peers| < 2 {
          OneMore(leader.states, earlier.log, NewEntry(earlier, c), leader.applied + 1);
        }
      }
    }
  }

  /** Folding a log from some index, then one entry more. */
  lemma OneMore(states: States, log: Log, e: Entry, from: nat)
    requires from <= |log|
    ensures Fold(states, (log + [e])[from..]) == Fold(Fold(states, log[from..]), (log + [e])[|log|..])
  {
    assert (log + [e])[from..] == log[from..] + (log + [e])[|log|..];
    FoldJoins(states, log[from..], (log + [e])[|log|..]);
  }

  lemma ProposeApplies(n: Node, c: Command)
    requires n.role == Leader && n.applied <= n.commit < |n.log|
    ensures var m := Propose(n, c).0;
      && m.log == n.log + [NewEntry(n, c)] && m.role == Leader && m.peers == n.peers
      && (|n.peers| < 2 ==> m.applied == m.commit == |n.log| && m.states == Fold(n.states, m.log[n.applied + 1..]))
      && (|n.peers| >= 2 ==> m.states == n.states && m.applied == n.applied && m.commit == n.commit)
  {
    var log := n.log + [NewEntry(n, c)];
    assert log[n.applied + 1..|n.log| + 1] == log[n.applied + 1..];
  }
}
