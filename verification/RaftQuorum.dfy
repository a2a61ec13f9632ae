/** The acknowledgement threshold: what a reign commits is held by more than half of the nodes when their
    number is odd, and by just half of them in some run when it is even. */
module RaftQuorum {
  import opened RaftNode
  import opened RaftLog
  import opened RaftReign
  import RaftCluster
  import RaftSplit

  ghost predicate Leads(r: Reign, events: seq<Event>, d: Reign)
    decreases |events|
  {
    if events == [] then r == d
    else Enabled(r, events[0]) && Leads(Do(r, events[0]), events[1..], d)
  }

  lemma {:induction false} Trace(r: Reign, events: seq<Event>, d: Reign) returns (states: seq<Reign>)
    requires Leads(r, events, d)
    ensures |states| == |events| + 1 && states[0] == r && states[|events|] == d
    ensures forall k :: 0 <= k < |events| ==> Enabled(states[k], events[k]) && states[k + 1] == Do(states[k], events[k])
    decreases |events|
  {
    if events == [] {
      states := [r];
    } else {
      var rest := Trace(Do(r, events[0]), events[1..], d);
      states := [r] + rest;
      forall k | 0 <= k < |events|
        ensures Enabled(states[k], events[k]) && states[k + 1] == Do(states[k], events[k])
      {
        if k > 0 { assert events[k] == events[1..][k - 1] && states[k] == rest[k - 1]; }
      }
    }
  }

  lemma {:induction false} LeadsJoins(r: Reign, es: seq<Event>, c: Reign, fs: seq<Event>, d: Reign)
    requires Leads(r, es, c) && Leads(c, fs, d)
    ensures Leads(r, es + fs, d)
    decreases |es|
  {
    if es == [] {
      assert es + fs == fs;
    } else {
      assert (es + fs)[1..] == es[1..] + fs;
      LeadsJoins(Do(r, es[0]), es[1..], c, fs, d);
    }
  }

  lemma LeadsPair(r: Reign, e: Event, c: Reign, f: Event, d: Reign)
    requires Enabled(r, e) && c == Do(r, e) && Enabled(c, f) && d == Do(c, f)
    ensures Leads(r, [e, f], d)
  {
    hide Do, Enabled;
    assert Leads(d, [], d);
    assert Leads(c, [f], d) by { assert [f][1..] == []; }
    assert [e, f][1..] == [f];
  }

  // ---------- spreading one entry ----------

  /** The followers in held hold the whole log of the leader, the others less. */
  ghost predicate Held(r: Reign, held: set<Id>, log: Log) {
    && log != [] && r.leader.log == log && held <= r.followers.Keys && r.leader.id !in r.followers
    && (forall f :: f in held ==> r.followers[f].log == log)
    && (forall f :: f in r.followers && f !in held ==> r.followers[f].log <= log && |r.followers[f].log| < |log|)
  }

  /** The leader and those in held have acknowledged entry k, which is committed once they are a quorum. */
  predicate Acked(n: Node, held: set<Id>, k: nat) {
    && k < |n.log| && n.id !in held && k in n.acks && n.acks[k] == {n.id} + held
    && (if |held| + 1 >= Quorum(n) then n.commit == k else n.commit < k)
  }

  lemma HearsAll(n: Node, note: Note, log: Log)
    requires note.Entries? && note.prev == -1 && note.basis == log != [] && n.log <= log
    ensures Hear(n, note).log == log
  {
    PrefixesMatch(n.log, log, log);
    AcceptedAppend(n, RaftCluster.Mail(log, -1, 0), note.commit);
    LearnKeepsLog(n.(log := Longer(n.log, log)), note.commit);
  }

  lemma AckCounts(n: Node, held: set<Id>, k: nat, f: Id)
    requires Acked(n, held, k) && f !in held && f != n.id
    ensures var m := Ack(n, k, f).0;
      Acked(m, held + {f}, k) && m.log == n.log && m.id == n.id && m.peers == n.peers
  {
    hide Fold;
    assert {n.id} + held + {f} == {n.id} + (held + {f});
    assert |{n.id} + (held + {f})| == |held| + 2;
    assert |held + {f}| == |held| + 1;
  }

  lemma HeldMore(r: Reign, d: Reign, held: set<Id>, f: Id, log: Log)
    requires Held(r, held, log) && f in r.followers && f in d.followers && d.followers[f].log == log
    requires d.followers == r.followers[f := d.followers[f]] && d.leader == r.leader
    ensures Held(d, held + {f}, log)
  {
  }

  lemma HeldStill(c: Reign, d: Reign, held: set<Id>, log: Log)
    requires Held(c, held, log) && d == c.(leader := d.leader) && d.leader.log == log && d.leader.id == c.leader.id
    ensures Held(d, held, log)
  {
  }

  /** The leader's message about its whole log. */
  predicate Whole(r: Reign, note: Note, log: Log) {
    note in r.notes && note.Entries? && note.prev == -1 && note.basis == log && log != []
  }

  /** Entry k, the last of the log, is on its way: held names the followers that have it. */
  ghost predicate Spreading(r: Reign, held: set<Id>, note: Note, log: Log, k: nat) {
    k + 1 == |log| && Held(r, held, log) && Acked(r.leader, held, k) && Whole(r, note, log)
  }

  /** The same nodes. */
  ghost predicate SameNodes(r: Reign, d: Reign) {
    d.leader.peers == r.leader.peers && d.followers.Keys == r.followers.Keys
  }

  lemma HeardBy(r: Reign, held: set<Id>, f: Id, note: Note, log: Log, k: nat) returns (c: Reign)
    requires Spreading(r, held, note, log, k) && f in r.followers && f !in held
    ensures Enabled(r, Deliver(f, note)) && c == Do(r, Deliver(f, note)) && SameNodes(r, c)
    ensures Held(c, held + {f}, log) && c.leader == r.leader && c.notes == r.notes && f != r.leader.id && |c.followers[f].log| == k + 1
  {
    assert r.followers[f].log <= log;
    HearsAll(r.followers[f], note, log);
    hide Hear;
    c := Do(r, Deliver(f, note));
    HeldMore(r, c, held, f, log);
  }

  /** One more follower hears the entry and acknowledges it. */
  lemma Next(r: Reign, held: set<Id>, f: Id, note: Note, log: Log, k: nat) returns (events: seq<Event>, d: Reign)
    requires Spreading(r, held, note, log, k) && f in r.followers && f !in held
    ensures Leads(r, events, d) && Spreading(d, held + {f}, note, log, k) && SameNodes(r, d)
  {
    var c := HeardBy(r, held, f, note, log, k);
    AckCounts(r.leader, held, k, f);
    assert k < |c.leader.log|;
    hide Ack, Hear, Held, Acked;
    d := Do(c, AckFrom(f, k));
    HeldStill(c, d, held + {f}, log);
    events := [Deliver(f, note), AckFrom(f, k)];
    LeadsPair(r, Deliver(f, note), c, AckFrom(f, k), d);
  }

  lemma {:induction false} Spread(r: Reign, held: set<Id>, camp: set<Id>, note: Note, log: Log, k: nat)
    returns (events: seq<Event>, d: Reign)
    requires Spreading(r, held, note, log, k) && camp <= r.followers.Keys && camp !! held
    ensures Leads(r, events, d) && Spreading(d, held + camp, note, log, k) && SameNodes(r, d)
    decreases |camp|
  {
    hide Leads, Spreading;
    if camp == {} {
      events, d := [], r;
      assert held + camp == held;
      LeadsNone(r);
    } else {
      var f :| f in camp;
      var es, c := Next(r, held, f, note, log, k);
      var fs;
      fs, d := Spread(c, held + {f}, camp - {f}, note, log, k);
      assert held + {f} + (camp - {f}) == held + camp;
      events := es + fs;
      LeadsJoins(r, es, c, fs, d);
    }
  }

  lemma LeadsNone(r: Reign)
    ensures Leads(r, [], r)
  {
  }

  lemma ProposeCounts(n: Node, c: Command)
    requires n.role == Leader && n.commit < |n.log|
    ensures var m := Propose(n, c).0;
      Acked(m, {}, |n.log|) && m.log == n.log + [NewEntry(n, c)] && m.id == n.id && m.peers == n.peers
  {
    hide Fold;
  }

  lemma Submits(r: Reign, c: Command) returns (events: seq<Event>, d: Reign, note: Note)
    requires r.leader.role == Leader && r.leader.commit < |r.leader.log| && r.leader.id !in r.followers
    requires forall f :: f in r.followers ==> r.followers[f].log <= r.leader.log
    ensures Leads(r, events, d) && Spreading(d, {}, note, d.leader.log, |r.leader.log|) && SameNodes(r, d)
  {
    ProposeCounts(r.leader, c);
    hide Propose;
    var c1 := Do(r, Submit(c));
    var send := SendEntries(-1, |c1.leader.log|);
    d := Do(c1, send);
    assert c1.leader.log[..|c1.leader.log|] == c1.leader.log;
    note := Entries(c1.leader.log, -1, c1.leader.commit);
    events := [Submit(c), send];
    LeadsPair(r, Submit(c), c1, send, d);
  }

  // ---------- half of the cluster ----------

  lemma HoldersAre(r: Reign, held: set<Id>, log: Log)
    requires Held(r, held, log)
    ensures log != [] && |Holders(r, |log| - 1)| == |held| + 1
  {
    assert Holders(r, |log| - 1) == held + {r.leader.id};
  }

  /** From any start of a reign in an even cluster, some run commits an entry that exactly half of the
      nodes hold. */
  lemma HalfCommits(r: Reign, base: States, half: nat) returns (events: seq<Event>, d: Reign)
    requires Begins(r, base) && |r.followers| + 1 == 2 * half
    ensures Leads(r, events, d) && d.leader.commit > r.leader.commit
    ensures |d.followers| == |r.followers| && |Holders(d, d.leader.commit)| == half
  {
    BeginsFacts(r, base);
    hide *;
    var es, c, note := Submits(r, Command("run", Archive));
    SameAs(r, c);
    var fs;
    fs, d := SpreadToHalf(c, note, c.leader.log, |r.leader.log|, half);
    events := es + fs;
    LeadsJoins(r, es, c, fs, d);
  }

  lemma SpreadToHalf(r: Reign, note: Note, log: Log, k: nat, half: nat) returns (events: seq<Event>, d: Reign)
    requires Spreading(r, {}, note, log, k) && |r.leader.peers| == |r.followers.Keys| && |r.followers.Keys| + 1 == 2 * half
    ensures Leads(r, events, d) && d.leader.commit == k
    ensures |d.followers| == |r.followers| && |Holders(d, k)| == half
  {
    hide *;
    var camp := RaftSplit.Choose(r.followers.Keys, half - 1);
    events, d := Spread(r, {}, camp, note, log, k);
    SameAs(r, d);
    assert {} + camp == camp;
    HalfHolds(d, camp, note, log, k, half);
    assert |r.followers.Keys| == |r.followers|;
  }

  lemma BeginsFacts(r: Reign, base: States)
    requires Begins(r, base)
    ensures r.leader.role == Leader && r.leader.commit < |r.leader.log| && r.leader.id !in r.followers
    ensures |r.leader.peers| == |r.followers.Keys| == |r.followers|
    ensures forall f :: f in r.followers ==> r.followers[f].log <= r.leader.log
  {
  }

  lemma SameAs(r: Reign, d: Reign)
    requires SameNodes(r, d)
    ensures d.leader.peers == r.leader.peers && d.followers.Keys == r.followers.Keys
  {
  }

  lemma HalfHolds(r: Reign, held: set<Id>, note: Note, log: Log, k: nat, half: nat)
    requires Spreading(r, held, note, log, k) && |r.leader.peers| == |r.followers.Keys|
    requires |r.followers.Keys| + 1 == 2 * half && |held| == half - 1
    ensures r.leader.commit == k && |r.followers| == |r.followers.Keys| && |Holders(r, k)| == half
  {
    HoldersAre(r, held, log);
    assert |r.followers.Keys| == |r.followers|;
    hide Held, Holders;
  }

  ghost predicate RunFrom(r: Reign, states: seq<Reign>, events: seq<Event>, base: States) {
    Run(states, events, base) && states[0] == r
  }

  /** Whatever the reign has committed is held by more than half of the nodes. */
  ghost predicate HeldByMost(states: seq<Reign>) {
    forall k: nat :: 0 < k < |states| && states[k].leader.commit > states[0].leader.commit ==> HeldByMore(states[k])
  }

  ghost predicate HeldByMore(r: Reign) {
    r.leader.commit >= 0 && 2 * |Holders(r, r.leader.commit)| > |r.followers| + 1
  }

  lemma HalfFound(r: Reign, states: seq<Reign>, events: seq<Event>, d: Reign, base: States, half: nat)
    requires Begins(r, base) && |states| == |events| + 1 && states[0] == r && states[|events|] == d
    requires forall k :: 0 <= k < |events| ==> Enabled(states[k], events[k]) && states[k + 1] == Do(states[k], events[k])
    requires d.leader.commit > r.leader.commit && |d.followers| + 1 == 2 * half && |Holders(d, d.leader.commit)| == half
    ensures RunFrom(r, states, events, base) && !HeldByMost(states)
  {
    hide Enabled, Do, Begins, Holders;
    assert events != [];
    assert !HeldByMore(states[|events|]);
  }

  lemma OddHeld(r: Reign, states: seq<Reign>, events: seq<Event>, base: States)
    requires RunFrom(r, states, events, base) && (|r.followers| + 1) % 2 == 1 && AcksSafe(r)
    ensures HeldByMost(states)
  {
    forall k: nat | 0 < k < |states| && states[k].leader.commit > states[0].leader.commit ensures HeldByMore(states[k]) {
      hide *;
      HeldAt(states, events, base, k);
    }
  }

  lemma HeldAt(states: seq<Reign>, events: seq<Event>, base: States, k: nat)
    requires Run(states, events, base) && k < |states| && (|states[0].followers| + 1) % 2 == 1 && AcksSafe(states[0])
    requires states[k].leader.commit > states[0].leader.commit
    ensures HeldByMore(states[k])
  {
    hide Run, Holders, AcksSafe;
    SameFollowers(states, events, base, k);
    CommitsHeld(states, events, base, k, k);
  }

  lemma SameFollowers(states: seq<Reign>, events: seq<Event>, base: States, k: nat)
    requires Run(states, events, base) && k < |states|
    ensures |states[k].followers| == |states[0].followers|
  {
    RunExtends(states, events, base, 0, k);
    assert |states[k].followers.Keys| == |states[0].followers.Keys|;
  }
}
