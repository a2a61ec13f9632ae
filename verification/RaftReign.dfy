/** One leader's reign: replication, heartbeats, acknowledgements, commit and apply. */
module RaftReign {
  import opened RaftNode
  import opened RaftLog
  import RaftCluster
  import RaftElection

  /** A message of the leader, with the leader's commit index when it was sent. */
  datatype Note =
    | Entries(basis: Log, prev: Index, commit: Index)
    | Heartbeat(commit: Index)

  datatype Reign = Reign(leader: Node, followers: map<Id, Node>, notes: set<Note>)

  datatype Event =
    | Submit(c: Command)
    | SendEntries(prev: Index, upto: nat)
    | SendHeartbeat
    | Deliver(f: Id, note: Note)
    | AckFrom(f: Id, index: nat)

  ghost predicate Enabled(r: Reign, e: Event) {
    match e
    case Submit(_) => true
    case SendEntries(prev, upto) => prev < upto <= |r.leader.log|
    case SendHeartbeat => true
    // notes stay deliverable: they may arrive late, again, or never
    case Deliver(f, note) =>
      && f in r.followers && note in r.notes
      && (note.Entries? ==> note.prev < |r.followers[f].log| && note.prev < |note.basis|)
    case AckFrom(f, index) => f in r.followers && index < |r.followers[f].log| && index < |r.leader.log|
  }

  ghost function Do(r: Reign, e: Event): Reign
    requires Enabled(r, e)
  {
    match e
    case Submit(c) => r.(leader := Propose(r.leader, c).0)
    case SendEntries(prev, upto) => r.(notes := r.notes + {Entries(r.leader.log[..upto], prev, r.leader.commit)})
    case SendHeartbeat => r.(notes := r.notes + {Heartbeat(r.leader.commit)})
    case Deliver(f, note) => r.(followers := r.followers[f := Hear(r.followers[f], note)])
    case AckFrom(f, index) => r.(leader := Ack(r.leader, index, f).0)
  }

  function Hear(n: Node, note: Note): Node
    requires note.Entries? ==> note.prev < |n.log| && note.prev < |note.basis|
  {
    match note
    case Entries(basis, prev, commit) =>
      Append(n, basis[prev + 1..], prev, RaftCluster.PrevTerm(RaftCluster.Mail(basis, prev, 0)), commit).0
    case Heartbeat(commit) => Learn(n, commit)
  }

  // ---------- invariant ----------

  /** The state map is the fold of the applied prefix, which is committed and logged. */
  ghost predicate Sound(n: Node, base: States) {
    n.applied <= n.commit < |n.log| && n.states == Fold(base, n.log[..n.applied + 1])
  }

  /** Acknowledgements that the leader took in an earlier reign are still there: the code never clears them. */
  ghost predicate Begins(r: Reign, base: States) {
    && r.leader.role == Leader && r.notes == {} && Sound(r.leader, base)
    && r.leader.id !in r.followers && |r.leader.peers| == |r.followers| && FollowersOk(r, base)
  }

  ghost predicate FollowersOk(r: Reign, base: States) {
    forall f :: f in r.followers ==> Sound(r.followers[f], base) && r.followers[f].log <= r.leader.log
  }

  /** The acknowledgement is of this reign, and then the node holds the entry, or was there when it began. */
  ghost predicate Backed(r: Reign, r0: Reign, index: nat, p: Id) {
    || (p in r.followers && index < |r.followers[p].log|)
    || (if index < |r0.leader.log| then p in Acks(r0.leader, index) else p == r.leader.id)
  }

  ghost predicate AcksBacked(r: Reign, r0: Reign) {
    forall index: nat, p :: index < |r.leader.log| && p in Acks(r.leader, index) ==> Backed(r, r0, index, p)
  }

  ghost predicate HeldByFollower(r: Reign, index: nat) {
    exists f :: f in r.followers && index < |r.followers[f].log|
  }

  ghost predicate NoteOk(r: Reign, note: Note) {
    note.Entries? ==> note.basis <= r.leader.log && note.prev < |note.basis|
  }

  /** r0 is the start of the reign. */
  ghost predicate Inv(r: Reign, base: States, r0: Reign) {
    && r.leader.role == Leader && Sound(r.leader, base) && AcksBacked(r, r0) && Extends(r0, r)
    && r.leader.id !in r.followers && |r.leader.peers| == |r.followers| && FollowersOk(r, base)
    && (forall note :: note in r.notes ==> NoteOk(r, note))
    && (r.leader.commit > r0.leader.commit ==> CommitBacked(r, r0, r.leader.commit))
  }

  /** A quorum acknowledged the entry; for an inherited one, some follower did so in this reign. */
  ghost predicate CommitBacked(r: Reign, r0: Reign, index: nat) {
    HasQuorum(r.leader, index) && (index >= |r0.leader.log| || HeldByFollower(r, index))
  }

  /** Applying up to the commit index keeps the map the fold of what is applied. */
  lemma AdvanceSound(n: Node, base: States)
    requires n.applied < |n.log| && n.commit < |n.log| && n.states == Fold(base, n.log[..n.applied + 1])
    requires n.applied <= n.commit
    ensures Sound(Advance(n), base) && Advance(n).applied == n.commit
  {
    hide Fold;
    if n.applied < n.commit {
      var a, b := n.log[..n.applied + 1], n.log[n.applied + 1..n.commit + 1];
      FoldJoins(base, a, b);
      assert a + b == n.log[..n.commit + 1];
    }
  }

  lemma LearnSound(n: Node, base: States, leaderCommit: Index)
    requires Sound(n, base)
    ensures Sound(Learn(n, leaderCommit), base) && Learn(n, leaderCommit).log == n.log
    ensures Learn(n, leaderCommit).commit >= n.commit
  {
    hide Fold;
    if leaderCommit > n.commit {
      AdvanceSound(n.(commit := Min(leaderCommit, |n.log| - 1)), base);
    }
  }

  lemma LongerSound(n: Node, base: States, more: Log)
    requires Sound(n, base) && n.log <= more
    ensures Sound(n.(log := more), base)
  {
    assert more[..n.applied + 1] == n.log[..n.applied + 1];
  }

  lemma HearEntries(n: Node, base: States, basis: Log, prev: Index, commit: Index, leader: Log)
    requires Sound(n, base) && n.log <= leader && basis <= leader && prev < |n.log| && prev < |basis|
    ensures var m := Append(n, basis[prev + 1..], prev, RaftCluster.PrevTerm(RaftCluster.Mail(basis, prev, 0)), commit).0;
      Sound(m, base) && m.log == Longer(n.log, basis) && m.commit >= n.commit
  {
    hide Fold, Append, Learn, Sound;
    PrefixesMatch(n.log, basis, leader);
    assert n.log[..prev + 1] == leader[..prev + 1] == basis[..prev + 1];
    AcceptedAppend(n, RaftCluster.Mail(basis, prev, 0), commit);
    hide Matching;
    LongerSound(n, base, Longer(n.log, basis));
    LearnSound(n.(log := Longer(n.log, basis)), base, commit);
  }

  lemma HearSound(n: Node, base: States, note: Note, leader: Log)
    requires Sound(n, base) && n.log <= leader
    requires note.Entries? ==> note.basis <= leader && note.prev < |n.log| && note.prev < |note.basis|
    ensures Sound(Hear(n, note), base) && n.log <= Hear(n, note).log <= leader
    ensures Hear(n, note).commit >= n.commit
    ensures note.Entries? ==> note.basis <= Hear(n, note).log
  {
    hide Sound, Append, Learn;
    match note {
      case Heartbeat(commit) => LearnSound(n, base, commit);
      case Entries(basis, prev, commit) => HearEntries(n, base, basis, prev, commit, leader);
    }
  }

  /** What propose does to a leader. */
  ghost predicate Proposed(n: Node, m: Node, base: States, c: Command) {
    && m.id == n.id && m.peers == n.peers && m.role == Leader && Sound(m, base)
    && m.log == n.log + [NewEntry(n, c)] && m.acks == n.acks[|n.log| := {n.id}]
    && (m.commit == n.commit || (m.commit == |n.log| && HasQuorum(m, m.commit)))
  }

  lemma ProposeFacts(n: Node, base: States, c: Command)
    requires n.role == Leader && Sound(n, base)
    ensures Proposed(n, Propose(n, c).0, base, c)
  {
    var m := n.(log := n.log + [NewEntry(n, c)], acks := n.acks[|n.log| := {n.id}]);
    assert m.log[..n.applied + 1] == n.log[..n.applied + 1];
    if HasQuorum(m, |n.log|) {
      AdvanceSound(m.(commit := |n.log|), base);
    }
  }

  lemma AckFacts(n: Node, base: States, index: nat, peer: Id)
    requires Sound(n, base) && index < |n.log|
    ensures var m := Ack(n, index, peer).0;
      && m.id == n.id && m.peers == n.peers && m.role == n.role && Sound(m, base)
      && m.log == n.log && m.acks == n.acks[index := Acks(n, index) + {peer}]
      && (m.commit == n.commit || (n.commit < m.commit == index && HasQuorum(m, m.commit)))
  {
    var m := n.(acks := n.acks[index := Acks(n, index) + {peer}]);
    if HasQuorum(m, index) && index > m.commit {
      AdvanceSound(m.(commit := index), base);
    }
  }

  lemma LeaderStep(r: Reign, d: Reign, m: Node, base: States, r0: Reign)
    requires Inv(r, base, r0) && d == r.(leader := m)
    requires m.id == r.leader.id && m.peers == r.leader.peers && m.role == Leader && Sound(m, base)
    requires r.leader.log <= m.log && r.leader.commit <= m.commit
    requires AcksBacked(d, r0)
    requires m.commit > r0.leader.commit ==> CommitBacked(d, r0, m.commit)
    ensures Inv(d, base, r0) && Extends(r, d)
  {
    hide Sound, AcksBacked, CommitBacked;
    forall note | note in d.notes ensures NoteOk(d, note) { assert NoteOk(r, note); }
    ExtendsTwice(r0, r, d);
  }

  lemma SubmitBacked(r: Reign, d: Reign, m: Node, base: States, r0: Reign, c: Command)
    requires AcksBacked(r, r0) && Extends(r0, r) && d == r.(leader := m) && Proposed(r.leader, m, base, c)
    ensures AcksBacked(d, r0)
  {
    hide Sound, Extends;
    assert |r0.leader.log| <= |r.leader.log| by { ExtendsLonger(r0, r); }
    forall index: nat, p | index < |m.log| && p in Acks(m, index) ensures Backed(d, r0, index, p) {
      if index < |r.leader.log| {
        assert Backed(r, r0, index, p);
      }
    }
  }

  lemma ExtendsLonger(r: Reign, d: Reign)
    requires Extends(r, d)
    ensures |r.leader.log| <= |d.leader.log|
  {
  }

  lemma SubmitKeeps(r: Reign, d: Reign, m: Node, base: States, r0: Reign, c: Command)
    requires Inv(r, base, r0) && d == r.(leader := m) && Proposed(r.leader, m, base, c)
    ensures Inv(d, base, r0) && Extends(r, d)
  {
    hide Apply, Fold;
    SubmitBacked(r, d, m, base, r0, c);
    ExtendsLonger(r0, r);
    var index := m.commit;
    if index == r.leader.commit > r0.leader.commit {
      assert Acks(m, index) == Acks(r.leader, index);
    }
    hide AcksBacked, Extends, Inv;
    LeaderStep(r, d, m, base, r0);
  }

  lemma AckBacked(r: Reign, d: Reign, r0: Reign, f: Id, index: nat)
    requires AcksBacked(r, r0) && f in r.followers && index < |r.followers[f].log|
    requires d == r.(leader := d.leader) && d.leader.log == r.leader.log && d.leader.id == r.leader.id
    requires d.leader.acks == r.leader.acks[index := Acks(r.leader, index) + {f}]
    ensures AcksBacked(d, r0)
  {
    forall k: nat, p | k < |d.leader.log| && p in Acks(d.leader, k) ensures Backed(d, r0, k, p) {
      if p in Acks(r.leader, k) {
        assert Backed(r, r0, k, p);
      } else {
        assert k == index && p == f;
      }
    }
  }

  lemma AckKeeps(r: Reign, d: Reign, base: States, r0: Reign, f: Id, index: nat)
    requires Inv(r, base, r0) && f in r.followers && index < |r.followers[f].log| && index < |r.leader.log|
    requires d == r.(leader := Ack(r.leader, index, f).0)
    ensures Inv(d, base, r0) && Extends(r, d)
  {
    AckFacts(r.leader, base, index, f);
    hide Ack, Fold, AcksBacked, Extends;
    AckBacked(r, d, r0, f, index);
    RaftElection.SubsetSize(Acks(r.leader, index), Acks(d.leader, index));
    assert HeldByFollower(d, index);
    if d.leader.commit == r.leader.commit > r0.leader.commit {
      assert HeldByFollower(r, r.leader.commit) ==> HeldByFollower(d, r.leader.commit);
      assert CommitBacked(d, r0, d.leader.commit);
    }
    hide HeldByFollower, Sound, Inv;
    LeaderStep(r, d, d.leader, base, r0);
  }

  /** A longer log of one follower. */
  lemma HeardBacked(r: Reign, d: Reign, r0: Reign, f: Id, m: Node)
    requires AcksBacked(r, r0) && f in r.followers && d == r.(followers := r.followers[f := m])
    requires |r.followers[f].log| <= |m.log|
    ensures AcksBacked(d, r0) && forall index: nat :: HeldByFollower(r, index) ==> HeldByFollower(d, index)
  {
    forall k: nat, p | k < |d.leader.log| && p in Acks(d.leader, k) ensures Backed(d, r0, k, p) {
      assert Backed(r, r0, k, p);
    }
    forall index: nat | HeldByFollower(r, index) ensures HeldByFollower(d, index) {
      var g :| g in r.followers && index < |r.followers[g].log|;
      assert g in d.followers && index < |d.followers[g].log|;
    }
  }

  lemma DeliverExtends(r: Reign, d: Reign, f: Id, m: Node)
    requires f in r.followers && d == r.(followers := r.followers[f := m])
    requires r.followers[f].log <= m.log && r.followers[f].commit <= m.commit
    ensures Extends(r, d) && |d.followers| == |r.followers|
  {
    assert d.followers.Keys == r.followers.Keys;
    assert |d.followers.Keys| == |d.followers| && |r.followers.Keys| == |r.followers|;
  }

  lemma FollowerHeard(r: Reign, d: Reign, base: States, f: Id, m: Node)
    requires FollowersOk(r, base) && d == r.(followers := r.followers[f := m]) && Sound(m, base) && m.log <= r.leader.log
    ensures FollowersOk(d, base)
  {
    hide Sound;
  }

  lemma DeliverKeeps(r: Reign, d: Reign, base: States, r0: Reign, f: Id, m: Node)
    requires Inv(r, base, r0) && f in r.followers && d == r.(followers := r.followers[f := m])
    requires Sound(m, base) && r.followers[f].log <= m.log <= r.leader.log && r.followers[f].commit <= m.commit
    ensures Inv(d, base, r0) && Extends(r, d)
  {
    HeardBacked(r, d, r0, f, m);
    DeliverExtends(r, d, f, m);
    ExtendsTwice(r0, r, d);
    FollowerHeard(r, d, base, f, m);
    hide Sound, HeldByFollower, AcksBacked, Extends, FollowersOk;
    forall note | note in d.notes ensures NoteOk(d, note) { assert NoteOk(r, note); }
  }

  /** Logs and commit indices of later states extend those of earlier ones. */
  ghost predicate Extends(r: Reign, d: Reign) {
    && d.leader.id == r.leader.id && d.leader.peers == r.leader.peers
    && r.leader.log <= d.leader.log && r.leader.commit <= d.leader.commit && d.followers.Keys == r.followers.Keys
    && forall f :: f in r.followers ==>
         r.followers[f].log <= d.followers[f].log && r.followers[f].commit <= d.followers[f].commit
  }

  lemma ExtendsTwice(r: Reign, c: Reign, d: Reign)
    requires Extends(r, c) && Extends(c, d)
    ensures Extends(r, d)
  {
    forall f | f in r.followers
      ensures r.followers[f].log <= d.followers[f].log && r.followers[f].commit <= d.followers[f].commit
    {
      assert f in c.followers.Keys;
      assert r.followers[f].log <= c.followers[f].log <= d.followers[f].log;
    }
  }

  lemma SendKeeps(r: Reign, d: Reign, base: States, r0: Reign, note: Note)
    requires Inv(r, base, r0) && d == r.(notes := r.notes + {note}) && NoteOk(r, note)
    ensures Inv(d, base, r0) && Extends(r, d)
  {
    SentSame(r, d, r0);
    ExtendsTwice(r0, r, d);
    hide Sound, AcksBacked, Extends, CommitBacked;
    forall n | n in d.notes ensures NoteOk(d, n) { assert n in r.notes ==> NoteOk(r, n); }
  }

  lemma SentSame(r: Reign, d: Reign, r0: Reign)
    requires d == r.(notes := d.notes)
    ensures Extends(r, d) && (AcksBacked(r, r0) ==> AcksBacked(d, r0))
    ensures forall index: nat :: CommitBacked(r, r0, index) ==> CommitBacked(d, r0, index)
  {
    if AcksBacked(r, r0) {
      forall k: nat, p | k < |d.leader.log| && p in Acks(d.leader, k) ensures Backed(d, r0, k, p) {
        assert Backed(r, r0, k, p);
      }
    }
    forall index: nat ensures HeldByFollower(r, index) ==> HeldByFollower(d, index) {}
  }

  lemma StepKeeps(r: Reign, base: States, r0: Reign, e: Event)
    requires Inv(r, base, r0) && Enabled(r, e)
    ensures Inv(Do(r, e), base, r0) && Extends(r, Do(r, e))
  {
    assert r.leader.role == Leader && Sound(r.leader, base);
    hide Propose, Ack, Append, Learn, Hear, Inv, Extends;
    var d := Do(r, e);
    match e {
      case Submit(c) =>
        ProposeFacts(r.leader, base, c);
        SubmitKeeps(r, d, Propose(r.leader, c).0, base, r0, c);
      case AckFrom(f, index) => AckKeeps(r, d, base, r0, f, index);
      case Deliver(f, note) =>
        DeliverFacts(r, base, r0, f, note);
        DeliverKeeps(r, d, base, r0, f, Hear(r.followers[f], note));
      case SendEntries(prev, upto) => SendKeeps(r, d, base, r0, Entries(r.leader.log[..upto], prev, r.leader.commit));
      case SendHeartbeat => SendKeeps(r, d, base, r0, Heartbeat(r.leader.commit));
    }
  }

  lemma DeliverFacts(r: Reign, base: States, r0: Reign, f: Id, note: Note)
    requires Inv(r, base, r0) && Enabled(r, Deliver(f, note))
    ensures var (n, m) := (r.followers[f], Hear(r.followers[f], note));
      Sound(m, base) && n.log <= m.log <= r.leader.log && n.commit <= m.commit
  {
    assert NoteOk(r, note);
    hide Hear;
    HearSound(r.followers[f], base, note, r.leader.log);
  }

  // ---------- whole runs ----------

  ghost predicate Run(states: seq<Reign>, events: seq<Event>, base: States) {
    && |states| == |events| + 1 && Begins(states[0], base)
    && forall k :: 0 <= k < |events| ==> Enabled(states[k], events[k]) && states[k + 1] == Do(states[k], events[k])
  }

  lemma {:induction false} RunKeeps(states: seq<Reign>, events: seq<Event>, base: States, k: nat)
    requires Run(states, events, base) && k < |states|
    ensures Inv(states[k], base, states[0])
  {
    hide Do, Enabled, Inv, Begins;
    if k > 0 {
      RunKeeps(states, events, base, k - 1);
      StepKeeps(states[k - 1], base, states[0], events[k - 1]);
    } else {
      BeginsInv(states[0], base);
    }
  }

  lemma BeginsInv(r: Reign, base: States)
    requires Begins(r, base)
    ensures Inv(r, base, r)
  {
  }

  lemma {:induction false} RunExtends(states: seq<Reign>, events: seq<Event>, base: States, j: nat, k: nat)
    requires Run(states, events, base) && j <= k < |states|
    ensures Extends(states[j], states[k])
    decreases k
  {
    hide Do, Enabled, Inv, Begins;
    if j < k {
      RunExtends(states, events, base, j, k - 1);
      RunKeeps(states, events, base, k - 1);
      StepKeeps(states[k - 1], base, states[0], events[k - 1]);
      hide Extends;
      ExtendsTwice(states[j], states[k - 1], states[k]);
    }
  }

  ghost predicate IsNode(r: Reign, n: Node) {
    n == r.leader || (exists f :: f in r.followers && r.followers[f] == n)
  }

  lemma SameProgress(base: States, log: Log, a: Node, b: Node)
    requires Sound(a, base) && Sound(b, base) && a.log <= log && b.log <= log && a.applied <= b.applied
    ensures b.states == Fold(a.states, log[a.applied + 1..b.applied + 1])
    ensures a.applied == b.applied ==> a.states == b.states
  {
    var before, gap := log[..a.applied + 1], log[a.applied + 1..b.applied + 1];
    assert a.log[..a.applied + 1] == before;
    assert b.log[..b.applied + 1] == before + gap;
    FoldJoins(base, before, gap);
  }

  /** Replicas: every log is a prefix of the leader's, applied entries are committed and
      logged, and the map of a node that has applied more is the fold of what the other
      lacks over the other's map, so equal progress means equal maps. */
  lemma Replicas(states: seq<Reign>, events: seq<Event>, base: States, k: nat, a: Node, b: Node)
    requires Run(states, events, base) && k < |states|
    requires IsNode(states[k], a) && IsNode(states[k], b) && a.applied <= b.applied
    ensures a.log <= states[k].leader.log && a.applied <= a.commit < |a.log|
    ensures b.applied < |states[k].leader.log|
    ensures b.states == Fold(a.states, states[k].leader.log[a.applied + 1..b.applied + 1])
    ensures a.applied == b.applied ==> a.states == b.states
  {
    RunKeeps(states, events, base, k);
    SameProgress(base, states[k].leader.log, a, b);
  }

  /** The nodes whose log contains the entry at an index. */
  ghost function Holders(r: Reign, index: nat): set<Id> {
    (set f | f in r.followers && index < |r.followers[f].log|) +
    (if index < |r.leader.log| then {r.leader.id} else {})
  }

  ghost function HoldingFollowers(r: Reign, index: nat): set<Id> {
    set f | f in r.followers && index < |r.followers[f].log|
  }

  /** What the acknowledgements inherited for an entry could make up for: with them, the followers that hold
      it outnumber the nodes that do, and those are no quorum. */
  ghost predicate Overcounted(r: Reign, index: nat) {
    && |Holders(r, index)| < Quorum(r.leader)
    && |Acks(r.leader, index) + HoldingFollowers(r, index)| > |Holders(r, index)|
  }

  /** No entry that the leader inherited uncommitted is overcounted, or the cluster has less than five nodes. */
  ghost predicate AcksSafe(r: Reign) {
    Quorum(r.leader) <= 2 || forall index: nat :: r.leader.commit < index < |r.leader.log| ==> !Overcounted(r, index)
  }

  lemma HoldersGrow(r: Reign, d: Reign, index: nat)
    requires Extends(r, d)
    ensures Holders(r, index) <= Holders(d, index) && |Holders(r, index)| <= |Holders(d, index)|
  {
    RaftElection.SubsetSize(Holders(r, index), Holders(d, index));
  }

  /** An entry of this reign: those who acknowledged it hold it. */
  lemma NewHeld(r: Reign, r0: Reign, index: nat)
    requires AcksBacked(r, r0) && |r0.leader.log| <= index < |r.leader.log|
    ensures |Acks(r.leader, index)| <= |Holders(r, index)|
  {
    forall p | p in Acks(r.leader, index) ensures p in Holders(r, index) { assert Backed(r, r0, index, p); }
    RaftElection.SubsetSize(Acks(r.leader, index), Holders(r, index));
  }

  lemma AcksWithin(r: Reign, r0: Reign, index: nat)
    requires AcksBacked(r, r0) && index < |r0.leader.log| <= |r.leader.log|
    requires r0.leader.id !in r.followers && r.followers.Keys == r0.followers.Keys
    ensures Acks(r.leader, index)
      <= Acks(r0.leader, index) + HoldingFollowers(r0, index) + (Holders(r, index) - Holders(r0, index))
  {
    hide AcksBacked;
    forall p | p in Acks(r.leader, index)
      ensures p in Acks(r0.leader, index) + HoldingFollowers(r0, index) + (Holders(r, index) - Holders(r0, index))
    {
      BackedIn(r, r0, index, p);
    }
  }

  /** An inherited entry: the acknowledgements are inherited, or of nodes that hold it. */
  lemma OldHeld(r: Reign, r0: Reign, index: nat)
    requires AcksBacked(r, r0) && Extends(r0, r) && index < |r0.leader.log| && r.leader.id !in r.followers
    requires |Acks(r0.leader, index) + HoldingFollowers(r0, index)| <= |Holders(r0, index)|
    ensures |Acks(r.leader, index)| <= |Holders(r, index)|
  {
    HoldersGrow(r0, r, index);
    ExtendsLonger(r0, r);
    AcksWithin(r, r0, index);
    hide *;
    Outnumbered(Acks(r.leader, index), Acks(r0.leader, index) + HoldingFollowers(r0, index), Holders(r0, index), Holders(r, index));
  }

  lemma Outnumbered<T>(acks: set<T>, s: set<T>, before: set<T>, after: set<T>)
    requires acks <= s + (after - before) && before <= after && |s| <= |before|
    ensures |acks| <= |after|
  {
    var more := after - before;
    assert after == before + more;
    var extra := more - s;
    assert s + more == s + extra;
    RaftElection.SubsetSize(extra, more);
    RaftElection.SubsetSize(acks, s + more);
  }

  lemma BackedIn(r: Reign, r0: Reign, index: nat, p: Id)
    requires AcksBacked(r, r0) && index < |r0.leader.log| <= |r.leader.log| && p in Acks(r.leader, index)
    requires r0.leader.id !in r.followers && r.followers.Keys == r0.followers.Keys
    ensures p in Acks(r0.leader, index) + HoldingFollowers(r0, index) + (Holders(r, index) - Holders(r0, index))
  {
    assert Backed(r, r0, index, p);
  }

  lemma TwoHold(r: Reign, index: nat)
    requires HeldByFollower(r, index) && index < |r.leader.log| && r.leader.id !in r.followers
    ensures |Holders(r, index)| >= 2
  {
    var f :| f in r.followers && index < |r.followers[f].log|;
    RaftElection.SubsetSize({f, r.leader.id}, Holders(r, index));
  }

  lemma QuorumHolds(r: Reign, base: States, r0: Reign)
    requires Inv(r, base, r0) && r.leader.commit > r0.leader.commit && AcksSafe(r0)
    ensures |Holders(r, r.leader.commit)| >= Quorum(r.leader)
  {
    var index: nat := r.leader.commit;
    assert CommitBacked(r, r0, index) && index < |r.leader.log|;
    assert Quorum(r.leader) == Quorum(r0.leader);
    hide Sound, NoteOk, Holders, AcksBacked, Extends, HeldByFollower, HoldingFollowers;
    if index >= |r0.leader.log| {
      NewHeld(r, r0, index);
    } else if Quorum(r.leader) <= 2 {
      TwoHold(r, index);
    } else if |Holders(r0, index)| >= Quorum(r0.leader) {
      HoldersGrow(r0, r, index);
    } else {
      assert !Overcounted(r0, index);
      OldHeld(r, r0, index);
    }
  }

  lemma CommitHeldThen(states: seq<Reign>, events: seq<Event>, base: States, j: nat)
    requires Run(states, events, base) && j < |states| && states[j].leader.commit > states[0].leader.commit
    requires AcksSafe(states[0])
    ensures var (r, index) := (states[j], states[j].leader.commit);
      index < |r.leader.log| && |r.leader.peers| == |r.followers| && |Holders(r, index)| >= Quorum(r.leader)
  {
    RunKeeps(states, events, base, j);
    QuorumHolds(states[j], base, states[0]);
  }

  /** What a reign commits is held by a quorum of nodes, now and ever after, if no inherited acknowledgement
      can make up for a missing holder; in an odd cluster that is more than half of them. */
  lemma CommitsHeld(states: seq<Reign>, events: seq<Event>, base: States, j: nat, k: nat)
    requires Run(states, events, base) && j <= k < |states| && AcksSafe(states[0])
    requires states[j].leader.commit > states[0].leader.commit
    ensures var (r, index) := (states[k], states[j].leader.commit);
      && index < |states[j].leader.log| && states[j].leader.log[..index + 1] <= r.leader.log
      && |Holders(r, index)| >= Quorum(r.leader)
      && ((|r.followers| + 1) % 2 == 1 ==> 2 * |Holders(r, index)| > |r.followers| + 1)
  {
    hide Do, Enabled, Begins, AcksSafe, Holders;
    CommitHeldThen(states, events, base, j);
    RunExtends(states, events, base, j, k);
    HoldersGrow(states[j], states[k], states[j].leader.commit);
    assert |states[k].followers.Keys| == |states[j].followers.Keys|;
  }

  // ---------- what is committed is applied ----------

  /** The node has applied all that it knows is committed. */
  predicate UpToDate(n: Node) {
    n.applied == n.commit
  }

  lemma CaughtUpToDate(n: Node, m: Node)
    requires Caught(n, m) && n.applied <= m.commit
    ensures UpToDate(m)
  {
  }

  predicate Turned(n: Node, note: Note)
    requires note.Entries? ==> note.prev < |note.basis|
  {
    note.Entries? && Refuses(n.log, note.prev, RaftCluster.PrevTerm(RaftCluster.Mail(note.basis, note.prev, 0)))
  }

  lemma HearLearns(n: Node, note: Note)
    requires note.Entries? ==> note.prev < |n.log| && note.prev < |note.basis|
    ensures if Turned(n, note) then Hear(n, note) == n else Learned(n, Hear(n, note), note.commit)
  {
    hide Append, Learn, Learned, Refuses;
    if note.Entries? {
      AppendLearns(n, note.basis[note.prev + 1..], note.prev,
                   RaftCluster.PrevTerm(RaftCluster.Mail(note.basis, note.prev, 0)), note.commit);
    } else {
      LearnApplies(n, note.commit);
    }
  }

  lemma HearUpToDate(n: Node, note: Note)
    requires (note.Entries? ==> note.prev < |n.log| && note.prev < |note.basis|) && UpToDate(n)
    requires n.commit <= Hear(n, note).commit
    ensures UpToDate(Hear(n, note))
  {
    HearLearns(n, note);
    hide Hear, Fold;
  }

  lemma ProposeUpToDate(n: Node, c: Command)
    requires n.role == Leader && n.commit < |n.log| && UpToDate(n)
    ensures UpToDate(Propose(n, c).0)
  {
    hide Fold;
  }

  lemma AckUpToDate(n: Node, index: nat, peer: Id)
    requires index < |n.log| && n.commit < |n.log| && UpToDate(n)
    ensures UpToDate(Ack(n, index, peer).0)
  {
    hide Fold;
  }

  ghost predicate AllUpToDate(r: Reign) {
    UpToDate(r.leader) && forall f :: f in r.followers ==> UpToDate(r.followers[f])
  }

  lemma StepUpToDate(r: Reign, base: States, r0: Reign, e: Event)
    requires Inv(r, base, r0) && Enabled(r, e) && AllUpToDate(r)
    ensures AllUpToDate(Do(r, e))
  {
    assert r.leader.role == Leader && r.leader.commit < |r.leader.log| by { assert Sound(r.leader, base); }
    hide Propose, Ack, Hear, Inv;
    match e {
      case Submit(c) => ProposeUpToDate(r.leader, c);
      case AckFrom(f, index) => AckUpToDate(r.leader, index, f);
      case Deliver(f, note) =>
        DeliverFacts(r, base, r0, f, note);
        HearUpToDate(r.followers[f], note);
      case _ =>
    }
  }

  lemma {:induction false} RunUpToDate(states: seq<Reign>, events: seq<Event>, base: States, k: nat)
    requires Run(states, events, base) && k < |states| && AllUpToDate(states[0])
    ensures AllUpToDate(states[k])
  {
    if k > 0 {
      hide Do, Enabled, Inv, Begins, AllUpToDate;
      RunUpToDate(states, events, base, k - 1);
      RunKeeps(states, events, base, k - 1);
      StepUpToDate(states[k - 1], base, states[0], events[k - 1]);
    }
  }

  /** Where every node starts with all applied that it has committed, every node's map is at every moment of
      the reign the fold of its log up to its commit index. */
  lemma CommittedApplied(states: seq<Reign>, events: seq<Event>, base: States, k: nat, n: Node)
    requires Run(states, events, base) && k < |states| && AllUpToDate(states[0]) && IsNode(states[k], n)
    ensures -1 <= n.applied == n.commit < |n.log| && n.states == Fold(base, n.log[..n.commit + 1])
  {
    hide *;
    RunUpToDate(states, events, base, k);
    RunKeeps(states, events, base, k);
    NodeApplied(states[k], base, states[0], n);
  }

  lemma NodeApplied(r: Reign, base: States, r0: Reign, n: Node)
    requires Inv(r, base, r0) && AllUpToDate(r) && IsNode(r, n)
    ensures -1 <= n.applied == n.commit < |n.log| && n.states == Fold(base, n.log[..n.commit + 1])
  {
    hide Fold;
    assert UpToDate(n) && Sound(n, base);
  }

  /** And a message or heartbeat that reaches a follower takes its commit index to the one it carries, or to
      the end of the follower's log, and its map to the fold of the leader's log up to there. */
  lemma DeliveryApplies(states: seq<Reign>, events: seq<Event>, base: States, k: nat, f: Id, note: Note)
    requires Run(states, events, base) && k < |events| && AllUpToDate(states[0]) && events[k] == Deliver(f, note)
    ensures f in states[k].followers && f in states[k + 1].followers
    ensures var (n, m) := (states[k].followers[f], states[k + 1].followers[f]);
      && -1 <= m.commit < |m.log|
      && m.commit == (if note.commit > n.commit then Min(note.commit, |m.log| - 1) else n.commit)
      && m.log <= states[k].leader.log
      && m.states == Fold(base, states[k].leader.log[..m.commit + 1])
  {
    hide *;
    StepOf(states, events, base, k);
    RunKeeps(states, events, base, k);
    var r, m := states[k], states[k + 1].followers[f];
    CommittedApplied(states, events, base, k + 1, m);
    DeliverFacts(r, base, states[0], f, note);
    Delivered(r, base, states[0], f, note);
    LearnedCommit(r.followers[f], m, note.commit);
    SamePrefix(m.log, r.leader.log, m.commit + 1);
  }

  lemma SamePrefix(a: Log, b: Log, k: int)
    requires a <= b && 0 <= k <= |a|
    ensures a[..k] == b[..k]
  {
  }

  lemma StepOf(states: seq<Reign>, events: seq<Event>, base: States, k: nat)
    requires Run(states, events, base) && k < |events| && events[k].Deliver?
    ensures |states| == |events| + 1 && Enabled(states[k], events[k])
    ensures var (f, note) := (events[k].f, events[k].note);
      f in states[k].followers && f in states[k + 1].followers
      && (note.Entries? ==> note.prev < |states[k].followers[f].log| && note.prev < |note.basis|)
      && states[k + 1].followers[f] == Hear(states[k].followers[f], note)
      && IsNode(states[k + 1], states[k + 1].followers[f])
  {
    hide Hear, Begins;
    assert Enabled(states[k], events[k]) && states[k + 1] == Do(states[k], events[k]);
  }

  lemma LearnedCommit(n: Node, m: Node, leaderCommit: Index)
    requires Learned(n, m, leaderCommit)
    ensures m.commit == if leaderCommit > n.commit then Min(leaderCommit, |m.log| - 1) else n.commit
  {
  }

  /** In a reign no message is refused. */
  lemma Delivered(r: Reign, base: States, r0: Reign, f: Id, note: Note)
    requires Inv(r, base, r0) && Enabled(r, Deliver(f, note))
    ensures Learned(r.followers[f], Hear(r.followers[f], note), note.commit)
  {
    var n := r.followers[f];
    assert NoteOk(r, note);
    HearLearns(n, note);
    if note.Entries? && note.prev >= 0 {
      assert n.log[note.prev] == r.leader.log[note.prev] == note.basis[note.prev];
    }
    hide Hear, Inv;
  }

  // ---------- acknowledgements that outlive their entries ----------

  /** No message and no election clears an acknowledgement, whatever becomes of the log. */
  lemma AcksStay(n: Node, entries: Log, prev: Index, prevTerm: int, leaderCommit: Index, term: int, candidate: Id,
                 lastTerm: int, votes: nat)
    ensures Append(n, entries, prev, prevTerm, leaderCommit).0.acks == n.acks
    ensures Vote(n, term, candidate, lastTerm).0.acks == n.acks && Demote(n, term).acks == n.acks
    ensures CloseBallot(Stand(n), votes).acks == n.acks
  {
  }
}
