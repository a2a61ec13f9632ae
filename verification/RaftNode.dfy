/** One Raft node: what each operation of engine/raft_consensus.py does to it,
    first as functions on node values, then as a class that updates its fields. */
module RaftNode {
  import opened Options

  type Id = string
  type Index = i: int | -1 <= i witness -1

  datatype Role = Follower | Candidate | Leader | Offline | Reconnecting

  /** The last known state of one run and how many updates it has seen. */
  datatype NodeState = NodeState(current: string, version: int)

  /** A key that the command does not hold is None. */
  datatype Action = Transition(to: Option<string>) | Create(initial: Option<string>) | Archive | Unknown

  datatype Command = Command(slug: string, action: Action)

  datatype Entry = Entry(term: int, index: nat, command: Command)

  type Log = seq<Entry>
  type States = map<string, NodeState>

  datatype Node = Node(
    id: Id, peers: seq<Id>, role: Role, term: int, votedFor: Option<Id>, log: Log,
    commit: Index, applied: Index, states: States, acks: map<nat, set<Id>>)

  // ---------- the applied state map ----------

  /** _apply_command on a state map. */
  function Apply(states: States, c: Command): States {
    if c.slug == "" then states
    else
      var known := if c.slug in states then states[c.slug] else NodeState("", 0);
      var updated := match c.action
        case Transition(to) => if to == None || to == Some("") then known else NodeState(to.value, known.version + 1)
        case Create(initial) => NodeState(if initial.Some? then initial.value else "start", 1)
        case Archive => NodeState("archived", known.version + 1)
        case Unknown => known;
      states[c.slug := updated]
  }

  /** The state map after the commands of a log, in log order. */
  function Fold(states: States, log: Log): States {
    if log == [] then states else Apply(Fold(states, log[..|log| - 1]), log[|log| - 1].command)
  }

  /** Folding one entry more. */
  lemma FoldNext(states: States, log: Log, from: nat, at: nat)
    requires from <= at < |log|
    ensures Fold(states, log[from..at + 1]) == Apply(Fold(states, log[from..at]), log[at].command)
  {
    assert log[from..at + 1][..at - from] == log[from..at];
  }

  lemma FoldNone(states: States, log: Log, from: nat)
    requires from <= |log|
    ensures Fold(states, log[from..from]) == states
  {
  }

  lemma {:induction false} FoldJoins(states: States, a: Log, b: Log)
    ensures Fold(states, a + b) == Fold(Fold(states, a), b)
    decreases |b|
  {
    if b == [] {
      assert a + b == a;
    } else {
      assert (a + b)[..|a + b| - 1] == a + b[..|b| - 1];
      FoldJoins(states, a, b[..|b| - 1]);
    }
  }

  /** The state that a command writes for its run, if any. */
  function Written(a: Action): Option<string> {
    match a
    case Transition(to) => if to == Some("") then None else to
    case Create(initial) => if initial.Some? then initial else Some("start")
    case Archive => Some("archived")
    case Unknown => None
  }

  function LastWritten(log: Log, slug: string): Option<string> {
    if log == [] then None
    else
      var c := log[|log| - 1].command;
      if c.slug == slug && Written(c.action).Some? then Written(c.action) else LastWritten(log[..|log| - 1], slug)
  }

  /** How often a run was written since it was last created in the log, counting that; over an earlier version. */
  function Updates(log: Log, slug: string, version: int): int {
    if log == [] then version
    else
      var c := log[|log| - 1].command;
      if c.slug != slug || Written(c.action).None? then Updates(log[..|log| - 1], slug, version)
      else if c.action.Create? then 1
      else Updates(log[..|log| - 1], slug, version) + 1
  }

  ghost predicate Named(log: Log, slug: string) {
    exists e :: e in log && e.command.slug == slug
  }

  lemma {:induction false} NotNamed(log: Log, slug: string)
    requires !Named(log, slug)
    ensures LastWritten(log, slug) == None && forall v :: Updates(log, slug, v) == v
  {
    if log != [] {
      var front, e := log[..|log| - 1], log[|log| - 1];
      assert log == front + [e] && e in log;
      NotNamed(front, slug);
    }
  }

  lemma NamedNext(log: Log, slug: string)
    requires log != []
    ensures Named(log, slug) <==> Named(log[..|log| - 1], slug) || log[|log| - 1].command.slug == slug
  {
    assert log == log[..|log| - 1] + [log[|log| - 1]];
  }

  function Before(states: States, slug: string): NodeState {
    if slug in states then states[slug] else NodeState("", 0)
  }

  /** What one command does to the entry of a run. */
  lemma ApplyRun(states: States, c: Command, slug: string)
    requires slug != ""
    ensures slug in Apply(states, c) <==> slug in states || c.slug == slug
    ensures slug in Apply(states, c) ==>
      var (was, a) := (Before(states, slug), c.action);
      Apply(states, c)[slug] == if c.slug != slug || Written(a).None? then was
                                else NodeState(Written(a).value, if a.Create? then 1 else was.version + 1)
  {
  }

  /** The map after a log: a run is known if it was or some command names it, is in the state that the log
      wrote last, and counts its updates since it was last created; commands without a slug do nothing. */
  lemma {:induction false} FoldLastWriter(states: States, log: Log, slug: string)
    requires slug != ""
    ensures slug in Fold(states, log) <==> slug in states || Named(log, slug)
    ensures slug in Fold(states, log) ==>
      var was := Before(states, slug);
      Fold(states, log)[slug] == NodeState(
        if LastWritten(log, slug).Some? then LastWritten(log, slug).value else was.current,
        Updates(log, slug, was.version))
  {
    if log != [] {
      var front := log[..|log| - 1];
      FoldLastWriter(states, front, slug);
      NamedNext(log, slug);
      if slug !in Fold(states, front) { NotNamed(front, slug); }
      ApplyRun(Fold(states, front), log[|log| - 1].command, slug);
      hide Named, Apply, Written;
    }
  }

  lemma {:induction false} FoldNoSlug(states: States, log: Log)
    requires forall e :: e in log ==> e.command.slug == ""
    ensures Fold(states, log) == states
  {
    if log != [] {
      assert log[|log| - 1] in log;
      FoldNoSlug(states, log[..|log| - 1]);
    }
  }

  // ---------- elections ----------

  function LastTerm(log: Log): int {
    if log == [] then 0 else log[|log| - 1].term
  }

  function Demote(n: Node, term: int): Node {
    n.(role := Follower, term := term, votedFor := None)
  }

  /** The opening of become_candidate, before the peers are asked. */
  function Stand(n: Node): Node {
    n.(role := Candidate, term := n.term + 1, votedFor := Some(n.id))
  }

  function Vote(n: Node, term: int, candidate: Id, lastTerm: int): (Node, bool) {
    if term < n.term then (n, false)
    else
      var m := if term > n.term then Demote(n, term) else n;
      if (m.votedFor == None || m.votedFor == Some(candidate)) && lastTerm >= LastTerm(m.log)
      then (m.(votedFor := Some(candidate)), true)
      else (m, false)
  }

  /** The threshold tested at the end of become_candidate. */
  predicate WinsElection(votes: nat, peers: nat) {
    votes > peers / 2
  }

  function CloseBallot(n: Node, votes: nat): Node {
    if WinsElection(votes, |n.peers|) then n.(role := Leader) else n
  }

  function CountTrue(replies: seq<bool>): nat {
    if replies == [] then 0
    else CountTrue(replies[..|replies| - 1]) + if replies[|replies| - 1] then 1 else 0
  }

  /** The positions of the granted replies. */
  function SaidYes(replies: seq<bool>): set<nat> {
    set k: nat | k < |replies| && replies[k]
  }

  lemma SaidYesNext(replies: seq<bool>, n: nat)
    requires |replies| == n + 1
    ensures n !in SaidYes(replies[..n]) && SaidYes(replies) == SaidYes(replies[..n]) + if replies[n] then {n} else {}
  {
  }

  lemma {:induction false} CountsTrue(replies: seq<bool>)
    ensures CountTrue(replies) == |SaidYes(replies)|
  {
    if replies != [] {
      CountsTrue(replies[..|replies| - 1]);
      SaidYesNext(replies, |replies| - 1);
      hide SaidYes;
    }
  }

  // ---------- replication ----------

  /** One turn of the entry loop of append_entries. */
  function Put(log: Log, at: nat, e: Entry): Log {
    if at < |log| then if log[at].term != e.term then log[..at] + [e] else log
    else log + [e]
  }

  function Splice(log: Log, at: nat, entries: Log): Log
    decreases |entries|
  {
    if entries == [] then log else Splice(Put(log, at, entries[0]), at + 1, entries[1..])
  }

  lemma PutCases(log: Log, at: nat, e: Entry)
    ensures at < |log| && log[at].term == e.term ==> Put(log, at, e) == log
    ensures at < |log| && log[at].term != e.term ==> Put(log, at, e) == log[..at] + [e]
    ensures at >= |log| ==> Put(log, at, e) == log + [e]
  {
  }

  lemma SpliceNext(log: Log, at: nat, entries: Log, i: nat)
    requires i < |entries|
    ensures Splice(log, at, entries[i..]) == Splice(Put(log, at, entries[i]), at + 1, entries[i + 1..])
  {
    assert entries[i..][1..] == entries[i + 1..];
  }

  predicate Refuses(log: Log, prev: Index, prevTerm: int) {
    0 <= prev < |log| && log[prev].term != prevTerm
  }

  /** _apply_committed: bring the state map up to the commit index. */
  function Advance(n: Node): Node
    requires n.commit < |n.log|
  {
    if n.applied < n.commit then
      n.(applied := n.commit, states := Fold(n.states, n.log[n.applied + 1..n.commit + 1]))
    else n
  }

  function Min(a: int, b: int): int {
    if a < b then a else b
  }

  /** Learn the leader's commit index: the tail of append_entries, and all of a heartbeat. */
  function Learn(n: Node, leaderCommit: Index): Node {
    if leaderCommit > n.commit then Advance(n.(commit := Min(leaderCommit, |n.log| - 1))) else n
  }

  /** From n to m everything committed has been applied, in log order. */
  ghost predicate Caught(n: Node, m: Node) {
    && -1 <= m.commit < |m.log|
    && m.applied == (if n.applied < m.commit then m.commit else n.applied)
    && m.states == if n.applied < m.commit then Fold(n.states, m.log[n.applied + 1..m.commit + 1]) else n.states
  }

  /** What a node that has heard of a commit index makes of it. */
  ghost predicate Learned(n: Node, m: Node, leaderCommit: Index) {
    && (leaderCommit <= n.commit ==> m.commit == n.commit && m.applied == n.applied && m.states == n.states)
    && (leaderCommit > n.commit ==> m.commit == Min(leaderCommit, |m.log| - 1) && Caught(n, m))
  }

  lemma AdvanceCaught(n: Node)
    requires n.commit < |n.log|
    ensures Caught(n, Advance(n)) && Advance(n) == n.(applied := Advance(n).applied, states := Advance(n).states)
  {
  }

  /** Learning of a commit index applies what it commits, as far as the log goes. */
  lemma LearnApplies(n: Node, leaderCommit: Index)
    ensures Learned(n, Learn(n, leaderCommit), leaderCommit) && Learn(n, leaderCommit).log == n.log
  {
    if leaderCommit > n.commit {
      AdvanceCaught(n.(commit := Min(leaderCommit, |n.log| - 1)));
    }
  }

  function Append(n: Node, entries: Log, prev: Index, prevTerm: int, leaderCommit: Index): (Node, bool) {
    if Refuses(n.log, prev, prevTerm) then (n, false)
    else (Learn(n.(log := Splice(n.log, prev + 1, entries)), leaderCommit), true)
  }

  /** An accepted message leaves the spliced log and applies what it commits; a refused one nothing. */
  lemma AppendLearns(n: Node, entries: Log, prev: Index, prevTerm: int, leaderCommit: Index)
    ensures var (m, ok) := Append(n, entries, prev, prevTerm, leaderCommit);
      && (ok <==> !Refuses(n.log, prev, prevTerm)) && (!ok ==> m == n)
      && (ok ==> m.log == Splice(n.log, prev + 1, entries) && Learned(n, m, leaderCommit))
  {
    hide Splice, Refuses, Learn;
    LearnApplies(n.(log := Splice(n.log, prev + 1, entries)), leaderCommit);
  }

  // ---------- the leader's side ----------

  function Quorum(n: Node): nat {
    |n.peers| / 2 + 1
  }

  function Acks(n: Node, index: nat): set<Id> {
    if index in n.acks then n.acks[index] else {}
  }

  predicate HasQuorum(n: Node, index: nat) {
    |Acks(n, index)| >= Quorum(n)
  }

  function NewEntry(n: Node, c: Command): Entry {
    Entry(n.term, |n.log|, c)
  }

  function Propose(n: Node, c: Command): (Node, bool) {
    if n.role != Leader then (n, false)
    else
      var m := n.(log := n.log + [NewEntry(n, c)], acks := n.acks[|n.log| := {n.id}]);
      (if HasQuorum(m, |n.log|) then Advance(m.(commit := |n.log|)) else m, true)
  }

  /** What ack_entry answers, or that it fails on an entry that the log does not hold. */
  datatype AckReply = Majority | Waiting | PastEnd

  /** _apply_committed when the commit index may lie past the log: everything in the log is applied, and
      the applied index has been moved one further when the read fails. */
  function Overrun(n: Node): Node {
    if n.applied + 1 < |n.log| then n.(applied := |n.log|, states := Fold(n.states, n.log[n.applied + 1..]))
    else n.(applied := n.applied + 1)
  }

  function AckAny(n: Node, index: nat, peer: Id): (Node, AckReply) {
    if index < |n.log| then
      var (m, ok) := Ack(n, index, peer);
      (m, if ok then Majority else Waiting)
    else
      var m := n.(acks := n.acks[index := Acks(n, index) + {peer}]);
      if !HasQuorum(m, index) then (m, Waiting)
      else if index <= m.commit then (m, Majority)
      else if m.applied >= index then (m.(commit := index), Majority)
      else (Overrun(m.(commit := index)), PastEnd)
  }

  /** ack_entry for an entry of the log. */
  function Ack(n: Node, index: nat, peer: Id): (Node, bool)
    requires index < |n.log|
  {
    var m := n.(acks := n.acks[index := Acks(n, index) + {peer}]);
    if HasQuorum(m, index) then (if index > m.commit then Advance(m.(commit := index)) else m, true)
    else (m, false)
  }

  // ---------- the class ----------

  /** The node object: every method changes the fields exactly as the function of the
      same step changes the node value. */
  class DistributedStateMachine {
    const id: Id
    const peers: seq<Id>
    var role: Role
    var term: int
    var votedFor: Option<Id>
    var log: Log
    var commit: Index
    var applied: Index
    var states: States
    var acks: map<nat, set<Id>>

    constructor (id: Id, peers: seq<Id>, savedLog: Log, savedStates: States)
      ensures View() == Node(id, peers, Follower, 0, None, savedLog, -1, -1, savedStates, map[])
    {
      this.id, this.peers := id, peers;
      role, term, votedFor := Follower, 0, None;
      log, commit, applied, states, acks := savedLog, -1, -1, savedStates, map[];
    }

    function View(): Node
      reads this
    {
      Node(id, peers, role, term, votedFor, log, commit, applied, states, acks)
    }

    method BecomeFollower(newTerm: int)
      modifies this
      ensures View() == Demote(old(View()), newTerm)
      ensures role == Follower && term == newTerm && votedFor == None
    {
      role := Follower;
      term := newTerm;
      votedFor := None;
    }

    /** replies[k] is what the request to the k-th peer brought back; a lost reply is false. */
    method BecomeCandidate(replies: seq<bool>)
      requires |replies| == |peers|
      modifies this
      ensures View() == CloseBallot(Stand(old(View())), 1 + CountTrue(replies))
      ensures term == old(term) + 1 && votedFor == Some(id)
      ensures role == if 1 + |SaidYes(replies)| > |peers| / 2 then Leader else Candidate
    {
      role := Candidate;
      term := term + 1;
      votedFor := Some(id);
      var votes := 1;
      for k := 0 to |peers|
        invariant View() == Stand(old(View())) && role == Candidate && term == old(term) + 1 && votedFor == Some(id)
        invariant votes == 1 + CountTrue(replies[..k])
      {
        assert replies[..k + 1][..k] == replies[..k];
        if replies[k] {
          votes := votes + 1;
        }
      }
      assert replies[..|peers|] == replies;
      CountsTrue(replies);
      if votes > |peers| / 2 {
        role := Leader;
      }
    }

    method RequestVote(candidateTerm: int, candidate: Id, lastLogTerm: int) returns (granted: bool)
      modifies this
      ensures (View(), granted) == Vote(old(View()), candidateTerm, candidate, lastLogTerm)
      ensures granted <==>
        && (candidateTerm > old(term) || (candidateTerm == old(term) && old(votedFor) in {None, Some(candidate)}))
        && lastLogTerm >= LastTerm(log)
      ensures term == (if candidateTerm > old(term) then candidateTerm else old(term)) && log == old(log)
      ensures role == if candidateTerm > old(term) then Follower else old(role)
      ensures votedFor ==
        if granted then Some(candidate) else if candidateTerm > old(term) then None else old(votedFor)
    {
      if candidateTerm < term {
        return false;
      }
      if candidateTerm > term {
        BecomeFollower(candidateTerm);
      }
      if (votedFor == None || votedFor == Some(candidate)) && lastLogTerm >= LastTerm(log) {
        votedFor := Some(candidate);
        return true;
      }
      return false;
    }

    method AppendEntries(entries: Log, prev: Index, prevTerm: int, leaderCommit: Index) returns (ok: bool)
      modifies this
      ensures (View(), ok) == Append(old(View()), entries, prev, prevTerm, leaderCommit)
      ensures ok ==> Learned(old(View()), View(), leaderCommit)
    {
      hide Learn, Put;
      if 0 <= prev < |log| {
        if log[prev].term != prevTerm {
          return false;
        }
      }
      for i := 0 to |entries|
        invariant View() == old(View()).(log := log)
        invariant Splice(log, prev + 1 + i, entries[i..]) == Splice(old(log), prev + 1, entries)
      {
        var at := prev + 1 + i;
        SpliceNext(log, at, entries, i);
        PutCases(log, at, entries[i]);
        if at < |log| {
          if log[at].term != entries[i].term {
            log := log[..at];
            log := log + [entries[i]];
          }
        } else {
          log := log + [entries[i]];
        }
      }
      LearnCommit(leaderCommit);
      return true;
    }

    /** The commit part of append_entries, which the heartbeat handler repeats. */
    method LearnCommit(leaderCommit: Index)
      modifies this
      ensures View() == Learn(old(View()), leaderCommit)
      ensures log == old(log) && Learned(old(View()), View(), leaderCommit)
    {
      if leaderCommit > commit {
        commit := Min(leaderCommit, |log| - 1);
        ApplyCommitted();
      }
    }

    method ApplyCommitted()
      requires commit < |log|
      modifies this`applied, this`states
      ensures View() == Advance(old(View())) && commit == old(commit) && Caught(old(View()), View())
    {
      hide Fold, Apply;
      while applied < commit
        invariant old(applied) <= applied
        invariant applied <= commit || applied == old(applied)
        invariant View() == old(View()).(applied := applied, states := states)
        invariant applied == old(applied) ==> states == old(states)
        invariant applied > old(applied) ==> states == Fold(old(states), log[old(applied) + 1..applied + 1])
        decreases commit - applied
      {
        applied := applied + 1;
        FoldNext(old(states), log, old(applied) + 1, applied);
        FoldNone(old(states), log, old(applied) + 1);
        states := Apply(states, log[applied].command);
      }
    }

    method ProposeCommand(c: Command) returns (accepted: bool)
      modifies this
      ensures (View(), accepted) == Propose(old(View()), c)
      ensures accepted == (old(role) == Leader) && (!accepted ==> unchanged(this))
      ensures accepted ==>
        && log == old(log) + [Entry(term, |old(log)|, c)] && acks == old(acks)[|old(log)| := {id}]
        && (|peers| < 2 ==> commit == |old(log)| && Caught(old(View()), View()))
        && (|peers| >= 2 ==> commit == old(commit) && applied == old(applied) && states == old(states))
    {
      if role != Leader {
        return false;
      }
      var index := |log|;
      log := log + [Entry(term, index, c)];
      acks := acks[index := {id}];
      if HasQuorum(View(), index) {
        commit := index;
        ApplyCommitted();
      }
      return true;
    }

    /** The loop of _apply_committed, up to the end of the log if the commit index lies past it. */
    method ApplyTo(end: nat) returns (failed: bool)
      requires commit >= end == |log|
      modifies this
      ensures failed == (old(applied) < commit)
      ensures View() == if failed then Overrun(old(View())) else old(View())
    {
      hide Fold, Apply;
      while applied + 1 < end && applied < commit
        invariant old(applied) <= applied
        invariant old(applied) + 1 < end ==> applied < end
        invariant old(applied) + 1 >= end ==> applied == old(applied)
        invariant View() == old(View()).(applied := applied, states := states)
        invariant applied == old(applied) ==> states == old(states)
        invariant applied > old(applied) ==> states == Fold(old(states), log[old(applied) + 1..applied + 1])
        decreases end - applied
      {
        applied := applied + 1;
        FoldNext(old(states), log, old(applied) + 1, applied);
        FoldNone(old(states), log, old(applied) + 1);
        states := Apply(states, log[applied].command);
      }
      if applied < commit {
        assert old(applied) + 1 < end ==> applied == end - 1 && log[old(applied) + 1..applied + 1] == log[old(applied) + 1..];
        applied := applied + 1;
        return true;
      }
      return false;
    }

    method AckEntry(index: nat, peer: Id) returns (reply: AckReply)
      modifies this
      ensures (View(), reply) == AckAny(old(View()), index, peer)
      ensures log == old(log) && acks == old(acks)[index := Acks(old(View()), index) + {peer}]
      ensures reply.Waiting? <==> |acks[index]| < |peers| / 2 + 1
      ensures commit == if reply.Waiting? || index <= old(commit) then old(commit) else index
      ensures reply.PastEnd? <==> commit != old(commit) && index >= |log| && index > old(applied)
      ensures commit == old(commit) ==> applied == old(applied) && states == old(states)
      ensures commit != old(commit) && index < |log| ==> Caught(old(View()), View())
      ensures reply.PastEnd? ==>
        && applied == (if old(applied) < |log| then |log| else old(applied) + 1)
        && states == if old(applied) + 1 < |log| then Fold(old(states), log[old(applied) + 1..]) else old(states)
    {
      if index !in acks {
        acks := acks[index := {}];
      }
      acks := acks[index := acks[index] + {peer}];
      assert acks == old(acks)[index := Acks(old(View()), index) + {peer}];
      if HasQuorum(View(), index) {
        if index > commit {
          commit := index;
          if index < |log| {
            ApplyCommitted();
          } else {
            var failed := ApplyTo(|log|);
            if failed {
              return PastEnd;
            }
          }
        }
        return Majority;
      }
      return Waiting;
    }
  }
}
