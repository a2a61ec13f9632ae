/** Acknowledgements that outlive the entries they were for: what they can commit, and when. */
module RaftStale {
  import opened Options
  import opened RaftNode
  import opened RaftReign
  import opened RaftQuorum
  import RaftElection
  import RaftSplit

  // ---------- a run that commits an overcounted entry ----------

  /** The followers in camp have heard the leader's whole log, the others nothing. */
  ghost predicate Heard(r: Reign, d: Reign, camp: set<Id>) {
    && d.leader == r.leader && d.followers.Keys == r.followers.Keys
    && (forall f :: f in camp && f in d.followers ==> d.followers[f].log == r.leader.log)
    && (forall f :: f in r.followers && f !in camp ==> d.followers[f] == r.followers[f])
  }

  lemma HearsOne(r: Reign, d: Reign, camp: set<Id>, note: Note, f: Id) returns (e: Reign)
    requires Heard(r, d, camp) && f in r.followers && f !in camp && Whole(d, note, r.leader.log)
    requires forall g :: g in r.followers ==> r.followers[g].log <= r.leader.log
    ensures Enabled(d, Deliver(f, note)) && e == Do(d, Deliver(f, note))
    ensures Heard(r, e, camp + {f}) && Whole(e, note, r.leader.log)
  {
    HearsAll(d.followers[f], note, r.leader.log);
    hide Hear;
    e := Do(d, Deliver(f, note));
  }

  lemma {:induction false} HearAll(r: Reign, d: Reign, camp: set<Id>, todo: set<Id>, note: Note)
    returns (events: seq<Event>, e: Reign)
    requires Heard(r, d, camp) && todo <= r.followers.Keys && todo !! camp && Whole(d, note, r.leader.log)
    requires forall g :: g in r.followers ==> r.followers[g].log <= r.leader.log
    ensures RaftQuorum.Leads(d, events, e) && Heard(r, e, camp + todo)
    decreases |todo|
  {
    hide *;
    if todo == {} {
      assert camp + todo == camp;
      events, e := [], d;
      RaftQuorum.LeadsNone(d);
    } else {
      var f :| f in todo;
      MoveOne(camp, todo, f);
      var c := HearsOne(r, d, camp, note, f);
      LeadsOne(d, Deliver(f, note), c);
      var fs;
      fs, e := HearAll(r, c, camp + {f}, todo - {f}, note);
      events := [Deliver(f, note)] + fs;
      RaftQuorum.LeadsJoins(d, [Deliver(f, note)], c, fs, e);
    }
  }

  lemma MoveOne(done: set<Id>, todo: set<Id>, f: Id)
    requires f in todo
    ensures done + {f} + (todo - {f}) == done + todo && |todo - {f}| < |todo|
  {
  }

  lemma LeadsOne(r: Reign, e: Event, d: Reign)
    requires Enabled(r, e) && d == Do(r, e)
    ensures RaftQuorum.Leads(r, [e], d)
  {
    assert [e][1..] == [];
    assert RaftQuorum.Leads(d, [], d);
  }

  /** Those in done have acknowledged entry k, which is committed as soon as that makes a quorum. */
  ghost predicate Acking(r: Reign, d: Reign, k: nat, done: set<Id>) {
    && d.followers == r.followers && d.leader.log == r.leader.log && d.leader.peers == r.leader.peers
    && d.leader.id == r.leader.id && Acks(d.leader, k) == Acks(r.leader, k) + done
    && d.leader.commit == if done != {} && |Acks(d.leader, k)| >= Quorum(r.leader) then k else r.leader.commit
  }

  lemma AckMore(n: Node, k: nat, f: Id)
    requires n.commit < |n.log| && k < |n.log|
    ensures var m := Ack(n, k, f).0;
      && m.log == n.log && m.peers == n.peers && m.id == n.id && Acks(m, k) == Acks(n, k) + {f}
      && m.commit == if |Acks(n, k) + {f}| >= Quorum(n) && k > n.commit then k else n.commit
  {
    hide Fold;
  }

  lemma AckingOn(r: Reign, d: Reign, e: Reign, k: nat, done: set<Id>, f: Id)
    requires Acking(r, d, k, done) && e == d.(leader := e.leader) && r.leader.commit < k
    requires e.leader.log == d.leader.log && e.leader.peers == d.leader.peers && e.leader.id == d.leader.id
    requires Acks(e.leader, k) == Acks(d.leader, k) + {f}
    requires e.leader.commit == if |Acks(e.leader, k)| >= Quorum(d.leader) && k > d.leader.commit then k else d.leader.commit
    ensures Acking(r, e, k, done + {f})
  {
    assert Quorum(d.leader) == Quorum(r.leader);
    hide Acks, Quorum;
    MoreAcks(Acks(r.leader, k), done, f);
    assert |Acks(d.leader, k)| <= |Acks(e.leader, k)|;
  }

  lemma MoreAcks(acks: set<Id>, done: set<Id>, f: Id)
    ensures acks + done + {f} == acks + (done + {f}) && |acks + done| <= |acks + done + {f}| && done + {f} != {}
  {
    assert f in done + {f};
    RaftElection.SubsetSize(acks + done, acks + done + {f});
  }

  lemma AcksOne(r: Reign, d: Reign, k: nat, done: set<Id>, f: Id) returns (e: Reign)
    requires Acking(r, d, k, done) && f in r.followers && k < |r.followers[f].log| && r.leader.commit < k < |r.leader.log|
    ensures Enabled(d, AckFrom(f, k)) && e == Do(d, AckFrom(f, k)) && Acking(r, e, k, done + {f})
  {
    AckMore(d.leader, k, f);
    hide Ack, Acks, Quorum;
    e := Do(d, AckFrom(f, k));
    AckingOn(r, d, e, k, done, f);
  }

  lemma {:induction false} AckAll(r: Reign, d: Reign, k: nat, done: set<Id>, todo: set<Id>)
    returns (events: seq<Event>, e: Reign)
    requires Acking(r, d, k, done) && r.leader.commit < k < |r.leader.log|
    requires forall f :: f in todo ==> f in r.followers && k < |r.followers[f].log|
    ensures RaftQuorum.Leads(d, events, e) && Acking(r, e, k, done + todo)
    decreases |todo|
  {
    hide *;
    if todo == {} {
      assert done + todo == done;
      events, e := [], d;
      RaftQuorum.LeadsNone(d);
    } else {
      var f :| f in todo;
      MoveOne(done, todo, f);
      var c := AcksOne(r, d, k, done, f);
      LeadsOne(d, AckFrom(f, k), c);
      var fs;
      fs, e := AckAll(r, c, k, done + {f}, todo - {f});
      events := [AckFrom(f, k)] + fs;
      RaftQuorum.LeadsJoins(d, [AckFrom(f, k)], c, fs, e);
    }
  }

  /** Followers without the entry whose acknowledgements, with those inherited and those of the holders, are a
      quorum, while the holders with them are none. */
  ghost predicate Recruits(r: Reign, k: nat, more: set<Id>) {
    && more <= r.followers.Keys - HoldingFollowers(r, k)
    && HoldingFollowers(r, k) + more != {}
    && |Acks(r.leader, k) + (HoldingFollowers(r, k) + more)| >= Quorum(r.leader)
    && |Holders(r, k)| + |more| < Quorum(r.leader)
  }

  /** A set outside holding that fills acks up to a quorum, and is not empty if holding is. */
  lemma Enough(all: set<Id>, holding: set<Id>, acks: set<Id>, q: nat) returns (more: set<Id>)
    requires holding <= all && 2 < q <= |all| && |holding| + 1 < q && |acks + holding| > |holding| + 1
    ensures more <= all - holding && holding + more != {} && |acks + (holding + more)| >= q && |holding| + 1 + |more| < q
  {
    var counted := acks + holding;
    if |counted| < q {
      OthersEnough(all, counted, q);
      more := RaftSplit.Choose(all - counted, q - |counted|);
      assert acks + (holding + more) == counted + more && |counted + more| == |counted| + |more|;
    } else {
      more := Any(all, holding);
      RaftElection.SubsetSize(counted, acks + (holding + more));
    }
  }

  lemma Any(all: set<Id>, holding: set<Id>) returns (more: set<Id>)
    requires holding <= all && |all| > 0
    ensures more <= all - holding && holding + more != {} && |more| == if holding == {} then 1 else 0
  {
    if holding == {} {
      var f :| f in all;
      more := {f};
    } else {
      more := {};
    }
  }

  lemma Recruit(r: Reign, k: nat) returns (more: set<Id>)
    requires r.leader.id !in r.followers && |r.leader.peers| == |r.followers.Keys| && k < |r.leader.log|
    requires Overcounted(r, k) && Quorum(r.leader) > 2
    ensures Recruits(r, k, more)
  {
    HoldersSize(r, k);
    assert HoldingFollowers(r, k) <= r.followers.Keys;
    hide Holders, HoldingFollowers, Acks;
    more := Enough(r.followers.Keys, HoldingFollowers(r, k), Acks(r.leader, k), Quorum(r.leader));
  }

  lemma HoldersSize(r: Reign, k: nat)
    requires r.leader.id !in r.followers && k < |r.leader.log|
    ensures |Holders(r, k)| == |HoldingFollowers(r, k)| + 1
  {
    assert Holders(r, k) == HoldingFollowers(r, k) + {r.leader.id};
  }
  lemma OthersEnough<T>(all: set<T>, counted: set<T>, q: nat)
    requires |counted| < q <= |all|
    ensures |all - counted| >= q - |counted|
  {
    RaftElection.SubsetSize(all, (all - counted) + counted);
  }

  /** The whole log is on its way to everyone. */
  lemma SendsAll(r: Reign) returns (d: Reign, note: Note)
    requires r.leader.log != []
    ensures Enabled(r, SendEntries(-1, |r.leader.log|)) && d == Do(r, SendEntries(-1, |r.leader.log|))
    ensures Whole(d, note, r.leader.log) && Heard(r, d, {})
  {
    var send := SendEntries(-1, |r.leader.log|);
    d := Do(r, send);
    assert r.leader.log[..|r.leader.log|] == r.leader.log;
    note := Entries(r.leader.log, -1, r.leader.commit);
  }

  /** Those who heard all of it hold entry k; nobody else does who did not before. */
  lemma HeardHolders(r: Reign, d: Reign, k: nat, more: set<Id>)
    requires Heard(r, d, more) && more <= r.followers.Keys && k < |r.leader.log|
    ensures Holders(d, k) == Holders(r, k) + more && HoldingFollowers(d, k) == HoldingFollowers(r, k) + more
  {
    hide Acks;
    forall f | f in r.followers ensures f in d.followers {}
  }

  lemma AckedHolders(r: Reign, d: Reign, k: nat, done: set<Id>)
    requires Acking(r, d, k, done)
    ensures Holders(d, k) == Holders(r, k) && d.leader.peers == r.leader.peers && d.followers == r.followers
  {
  }

  lemma AckingNone(r: Reign, k: nat)
    ensures Acking(r, r, k, {})
  {
  }

  lemma AckingDone(r: Reign, d: Reign, k: nat, done: set<Id>)
    requires Acking(r, d, k, done) && done != {} && |Acks(r.leader, k) + done| >= Quorum(r.leader)
    ensures d.leader.commit == k
  {
  }

  /** The recruits hear of the whole log. */
  lemma RecruitsHear(r: Reign, k: nat, more: set<Id>) returns (events: seq<Event>, d: Reign)
    requires k < |r.leader.log| && more <= r.followers.Keys
    requires forall g :: g in r.followers ==> r.followers[g].log <= r.leader.log
    ensures RaftQuorum.Leads(r, events, d) && d.leader == r.leader && |d.followers| == |r.followers|
    ensures Holders(d, k) == Holders(r, k) + more && HoldingFollowers(d, k) == HoldingFollowers(r, k) + more
  {
    hide *;
    var c, note := SendsAll(r);
    LeadsOne(r, SendEntries(-1, |r.leader.log|), c);
    var es;
    es, d := HearAll(r, c, {}, more, note);
    assert {} + more == more;
    HeardHolders(r, d, k, more);
    HeardSame(r, d, more);
    events := [SendEntries(-1, |r.leader.log|)] + es;
    RaftQuorum.LeadsJoins(r, [SendEntries(-1, |r.leader.log|)], c, es, d);
  }

  /** The holders acknowledge entry k. */
  lemma HoldersAck(r: Reign, k: nat) returns (events: seq<Event>, d: Reign)
    requires r.leader.commit < k < |r.leader.log| && HoldingFollowers(r, k) != {}
    requires |Acks(r.leader, k) + HoldingFollowers(r, k)| >= Quorum(r.leader)
    ensures RaftQuorum.Leads(r, events, d) && d.leader.commit == k && d.leader.peers == r.leader.peers
    ensures d.followers == r.followers && Holders(d, k) == Holders(r, k)
  {
    HoldingAre(r, k);
    hide *;
    var camp := HoldingFollowers(r, k);
    AckingNone(r, k);
    events, d := AckAll(r, r, k, {}, camp);
    assert {} + camp == camp;
    AckingDone(r, d, k, camp);
    AckedHolders(r, d, k, camp);
  }

  lemma HoldingAre(r: Reign, k: nat)
    ensures forall f :: f in HoldingFollowers(r, k) ==> f in r.followers && k < |r.followers[f].log|
  {
  }

  /** An overcounted entry can be committed while no quorum holds it: the leader sends its log to the recruits,
      and they and the holders acknowledge the entry. */
  lemma StaleCommits(r: Reign, base: States, k: nat) returns (events: seq<Event>, d: Reign)
    requires Begins(r, base) && r.leader.commit < k < |r.leader.log| && Overcounted(r, k) && Quorum(r.leader) > 2
    ensures RaftQuorum.Leads(r, events, d) && d.leader.commit == k && d.leader.peers == r.leader.peers
    ensures |d.followers| == |r.followers| && |Holders(d, k)| < Quorum(r.leader)
  {
    BeginsFacts(r, base);
    hide *;
    var more := Recruit(r, k);
    RecruitsFacts(r, k, more);
    var es, c := RecruitsHear(r, k, more);
    var fs;
    fs, d := HoldersAck(c, k);
    events := es + fs;
    RaftQuorum.LeadsJoins(r, es, c, fs, d);
  }

  lemma RecruitsFacts(r: Reign, k: nat, more: set<Id>)
    requires Recruits(r, k, more)
    ensures more <= r.followers.Keys && HoldingFollowers(r, k) + more != {}
    ensures |Acks(r.leader, k) + (HoldingFollowers(r, k) + more)| >= Quorum(r.leader)
    ensures |Holders(r, k) + more| < Quorum(r.leader)
  {
    JoinedSize(Holders(r, k), more);
  }

  lemma JoinedSize<T>(a: set<T>, b: set<T>)
    ensures |a + b| <= |a| + |b|
  {
    assert a + b == a + (b - a);
    RaftElection.SubsetSize(b - a, b);
  }

  lemma HeardSame(r: Reign, d: Reign, more: set<Id>)
    requires Heard(r, d, more)
    ensures d.leader == r.leader && |d.followers| == |r.followers|
  {
    assert |d.followers.Keys| == |r.followers.Keys|;
  }

  // ---------- the theorems ----------

  /** Whatever the reign has committed is held by a quorum. */
  ghost predicate HeldByQuorum(states: seq<Reign>) {
    forall k: nat :: 0 < k < |states| && states[k].leader.commit > states[0].leader.commit ==> QuorumHas(states[k])
  }

  ghost predicate QuorumHas(r: Reign) {
    r.leader.commit >= 0 && |Holders(r, r.leader.commit)| >= Quorum(r.leader)
  }

  lemma SafeHeld(r: Reign, states: seq<Reign>, events: seq<Event>, base: States)
    requires RunFrom(r, states, events, base) && AcksSafe(r)
    ensures HeldByQuorum(states)
  {
    forall k: nat | 0 < k < |states| && states[k].leader.commit > states[0].leader.commit ensures QuorumHas(states[k]) {
      hide Run, Holders, AcksSafe;
      CommitsHeld(states, events, base, k, k);
    }
  }

  lemma StaleRun(r: Reign, base: States) returns (states: seq<Reign>, events: seq<Event>)
    requires Begins(r, base) && !AcksSafe(r)
    ensures RunFrom(r, states, events, base) && !HeldByQuorum(states) && !HeldByMost(states)
  {
    hide Overcounted, Begins;
    var k: nat :| r.leader.commit < k < |r.leader.log| && Overcounted(r, k);
    var d;
    events, d := StaleCommits(r, base, k);
    states := Trace(r, events, d);
    BeginsFacts(r, base);
    hide *;
    StaleFound(r, states, events, d, base, k);
  }

  lemma StaleFound(r: Reign, states: seq<Reign>, events: seq<Event>, d: Reign, base: States, k: nat)
    requires Begins(r, base) && |states| == |events| + 1 && states[0] == r && states[|events|] == d
    requires forall i :: 0 <= i < |events| ==> Enabled(states[i], events[i]) && states[i + 1] == Do(states[i], events[i])
    requires d.leader.commit == k > r.leader.commit && |Holders(d, k)| < Quorum(r.leader)
    requires d.leader.peers == r.leader.peers && |d.followers| == |r.followers| == |r.leader.peers|
    ensures RunFrom(r, states, events, base) && !HeldByQuorum(states) && !HeldByMost(states)
  {
    hide Enabled, Do, Begins, Holders;
    assert events != [];
    assert !QuorumHas(states[|events|]) && !HeldByMore(states[|events|]);
  }

  /** Over all runs of a reign, what it commits is held by a quorum of nodes if and only if no inherited
      entry is overcounted or the cluster has less than five nodes. */
  lemma QuorumExactly(r: Reign, base: States)
    requires Begins(r, base)
    ensures (forall states: seq<Reign>, events :: RunFrom(r, states, events, base) ==> HeldByQuorum(states))
      <==> AcksSafe(r)
  {
    hide Begins, HeldByQuorum, RunFrom, AcksSafe;
    if AcksSafe(r) {
      forall states: seq<Reign>, events | RunFrom(r, states, events, base) ensures HeldByQuorum(states) {
        SafeHeld(r, states, events, base);
      }
    } else {
      var states, events := StaleRun(r, base);
    }
  }

  /** And by more than half of the nodes if and only if, besides, their number is odd. */
  lemma MostExactly(r: Reign, base: States)
    requires Begins(r, base)
    ensures (forall states: seq<Reign>, events :: RunFrom(r, states, events, base) ==> HeldByMost(states))
      <==> ((|r.followers| + 1) % 2 == 1 && AcksSafe(r))
  {
    hide Begins, HeldByMost, RunFrom, AcksSafe;
    if !AcksSafe(r) {
      var states, events := StaleRun(r, base);
    } else if (|r.followers| + 1) % 2 == 1 {
      forall states: seq<Reign>, events | RunFrom(r, states, events, base) ensures HeldByMost(states) {
        OddHeld(r, states, events, base);
      }
    } else {
      var states, events := HalfRun(r, base);
    }
  }

  lemma HalfRun(r: Reign, base: States) returns (states: seq<Reign>, events: seq<Event>)
    requires Begins(r, base) && (|r.followers| + 1) % 2 == 0
    ensures RunFrom(r, states, events, base) && !HeldByMost(states)
  {
    hide *;
    var half := (|r.followers| + 1) / 2;
    var d;
    events, d := HalfCommits(r, base, half);
    states := Trace(r, events, d);
    HalfFound(r, states, events, d, base, half);
  }

  // ---------- how such a reign begins ----------

  const WROTE: Command := Command("run", Archive)

  function Old(k: nat): Entry { Entry(1, k, WROTE) }
  function New(k: nat): Entry { Entry(2, k, WROTE) }

  /** One of five nodes leads in term 1 and proposes two entries; b acknowledges the second. The leader of term 2
      replaces both, and then the first node leads again in term 3. */
  function Returned(): Node {
    var blank := Node("a", ["b", "c", "d", "e"], Follower, 0, None, [], -1, -1, map[], map[]);
    var leads := CloseBallot(Stand(blank), 3);
    var proposed := Propose(Propose(leads, WROTE).0, WROTE).0;
    var acked := AckAny(proposed, 1, "b").0;
    var deposed := Vote(acked, 2, "c", 1).0;
    var replaced := Append(deposed, [New(0), New(1)], -1, 0, -1).0;
    CloseBallot(Stand(replaced), 3)
  }

  lemma ReturnedIs()
    ensures Returned() == Node("a", ["b", "c", "d", "e"], Leader, 3, Some("a"), [New(0), New(1)], -1, -1, map[],
                               map[0 := {"a"}, 1 := {"a", "b"}])
  {
    var peers := ["b", "c", "d", "e"];
    var blank := Node("a", peers, Follower, 0, None, [], -1, -1, map[], map[]);
    var leads := CloseBallot(Stand(blank), 3);
    assert leads == blank.(role := Leader, term := 1, votedFor := Some("a"));
    var p1 := Propose(leads, WROTE).0;
    assert p1 == leads.(log := [Old(0)], acks := map[0 := {"a"}]);
    var p2 := Propose(p1, WROTE).0;
    assert p2 == leads.(log := [Old(0), Old(1)], acks := map[0 := {"a"}, 1 := {"a"}]);
    var acked := AckAny(p2, 1, "b").0;
    assert acked == p2.(acks := map[0 := {"a"}, 1 := {"a", "b"}]) by {
      assert Acks(p2, 1) + {"b"} == {"a", "b"};
    }
    var deposed := Vote(acked, 2, "c", 1).0;
    assert deposed == acked.(role := Follower, term := 2, votedFor := Some("c"));
    var es := [New(0), New(1)];
    assert es[1..] == [New(1)] && [New(1)][1..] == [];
    assert Put(deposed.log, 0, New(0)) == [New(0)];
    assert Put([New(0)], 1, New(1)) == es;
    assert Splice(deposed.log, 0, es) == es;
  }

  function Follows(id: Id, log: Log): Node {
    Node(id, ["a"], Follower, 3, Some("a"), log, -1, -1, map[], map[])
  }

  /** Of the five only c has heard of the second entry of term 2. What b acknowledged was the old one. */
  function StaleReign(): Reign {
    Reign(Returned(), map["b" := Follows("b", [New(0)]), "c" := Follows("c", [New(0), New(1)]),
                          "d" := Follows("d", [New(0)]), "e" := Follows("e", [New(0)])], {})
  }

  lemma StaleHolders()
    ensures Holders(StaleReign(), 1) == {"a", "c"} && HoldingFollowers(StaleReign(), 1) == {"c"}
  {
    ReturnedIs();
    hide Returned;
  }

  lemma StaleOvercounted()
    ensures StaleReign().leader.commit < 1 < |StaleReign().leader.log| && Quorum(StaleReign().leader) == 3
    ensures Overcounted(StaleReign(), 1)
  {
    ReturnedIs();
    StaleHolders();
    hide Returned, Holders, HoldingFollowers;
    assert Acks(StaleReign().leader, 1) + {"c"} == {"a", "b", "c"};
    assert |{"a", "b", "c"}| == 3 && |{"a", "c"}| == 2;
  }

  lemma FollowsSound(id: Id, log: Log)
    requires log != []
    ensures Sound(Follows(id, log), map[]) && Follows(id, log).log == log
  {
    assert log[..0] == [];
  }

  lemma StaleFollower(f: Id)
    requires f in StaleReign().followers
    ensures Sound(StaleReign().followers[f], map[]) && StaleReign().followers[f].log <= StaleReign().leader.log
  {
    ReturnedIs();
    hide Sound, Follows, Returned;
    FollowsSound(f, if f == "c" then [New(0), New(1)] else [New(0)]);
  }

  lemma StaleFollowers()
    ensures FollowersOk(StaleReign(), map[]) && |StaleReign().followers| == 4
  {
    FollowersAre(StaleReign().followers);
    forall f | f in StaleReign().followers
      ensures Sound(StaleReign().followers[f], map[]) && StaleReign().followers[f].log <= StaleReign().leader.log
    {
      StaleFollower(f);
    }
  }

  /** So there are reigns that begin with an overcounted entry. */
  lemma StaleBegins()
    ensures Begins(StaleReign(), map[]) && Overcounted(StaleReign(), 1) && !AcksSafe(StaleReign())
  {
    ReturnedIs();
    StaleOvercounted();
    StaleFollowers();
    hide Returned, FollowersOk, Overcounted, Follows;
    assert StaleReign().leader.log[..0] == [];
  }

  lemma FollowersAre(m: map<Id, Node>)
    requires m.Keys == {"b", "c", "d", "e"}
    ensures |m| == 4
  {
    assert |m.Keys| == |m|;
  }
}
