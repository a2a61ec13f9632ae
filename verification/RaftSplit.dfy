/** The vote threshold of become_candidate lets two leaders share a term exactly when the
    cluster has an even number of nodes. */
module RaftSplit {
  import opened Options
  import opened RaftNode
  import opened RaftCluster
  import opened RaftElection

  ghost predicate Leads(c: Cluster, events: seq<Event>, d: Cluster)
    decreases |events|
  {
    if events == [] then c == d
    else Enabled(c, events[0]) && Leads(Do(c, events[0]), events[1..], d)
  }

  /** No log is taken over from elsewhere. */
  ghost predicate Quietly(events: seq<Event>) {
    forall e :: e in events ==> !e.Receive? && !e.CopyLog?
  }

  lemma QuietlyJoins(es: seq<Event>, fs: seq<Event>)
    requires Quietly(es) && Quietly(fs)
    ensures Quietly(es + fs)
  {
  }

  lemma QuietOne(e: Event)
    requires !e.Receive? && !e.CopyLog?
    ensures Quietly([e])
  {
  }

  lemma {:induction false} LeadsJoins(c: Cluster, es: seq<Event>, d: Cluster, fs: seq<Event>, e: Cluster)
    requires Leads(c, es, d) && Leads(d, fs, e)
    ensures Leads(c, es + fs, e)
    decreases |es|
  {
    if es == [] {
      assert es + fs == fs;
    } else {
      assert (es + fs)[1..] == es[1..] + fs;
      LeadsJoins(Do(c, es[0]), es[1..], d, fs, e);
    }
  }

  lemma LeadsStep(c: Cluster, e: Event)
    requires Enabled(c, e)
    ensures Leads(c, [e], Do(c, e))
  {
    assert [e][1..] == [];
  }

  /** The run that a sequence of events describes. */
  lemma {:induction false} Trace(c: Cluster, events: seq<Event>, d: Cluster) returns (states: seq<Cluster>)
    requires Leads(c, events, d)
    ensures |states| == |events| + 1 && states[0] == c && states[|events|] == d
    ensures forall k :: 0 <= k < |events| ==> Enabled(states[k], events[k]) && states[k + 1] == Do(states[k], events[k])
    decreases |events|
  {
    if events == [] {
      states := [c];
    } else {
      var rest := Trace(Do(c, events[0]), events[1..], d);
      states := [c] + rest;
      forall k | 0 <= k < |events|
        ensures Enabled(states[k], events[k]) && states[k + 1] == Do(states[k], events[k])
      {
        if k > 0 { assert events[k] == events[1..][k - 1] && states[k] == rest[k - 1]; }
      }
    }
  }

  lemma {:induction false} LeadsKeeps(c: Cluster, events: seq<Event>, d: Cluster)
    requires Leads(c, events, d) && ElectionInv(c)
    ensures ElectionInv(d)
    decreases |events|
  {
    if events != [] {
      StepKeeps(c, events[0]);
      LeadsKeeps(Do(c, events[0]), events[1..], d);
    }
  }

  /** A node that has taken no part in term t or later, and whose last term is at most lt: it votes for whoever
      asks first with such a last term. */
  ghost predicate Willing(c: Cluster, i: Id, t: int, lt: int) {
    i in c.nodes && i !in c.ballots && c.nodes[i].term < t && LastTerm(c.nodes[i].log) <= lt
  }

  ghost predicate Polling(c: Cluster, i: Id, t: int, lt: int) {
    && i in c.nodes && i in c.ballots && c.nodes[i].term == t && LastTerm(c.nodes[i].log) == lt
    && c.ballots[i].asked <= |c.nodes[i].peers|
  }

  /** No log changed, and no node went beyond term t. */
  ghost predicate UpTo(c: Cluster, d: Cluster, t: int) {
    && d.nodes.Keys == c.nodes.Keys
    && (forall j :: j in c.nodes ==> d.nodes[j].log == c.nodes[j].log && (c.nodes[j].term <= t ==> d.nodes[j].term <= t))
  }

  lemma UpToTwice(c: Cluster, d: Cluster, e: Cluster, t: int)
    requires UpTo(c, d, t) && UpTo(d, e, t)
    ensures UpTo(c, e, t)
  {
    forall j | j in c.nodes ensures e.nodes[j].log == c.nodes[j].log && (c.nodes[j].term <= t ==> e.nodes[j].term <= t) {
      assert j in d.nodes.Keys;
    }
  }

  lemma WillingVote(n: Node, t: int, candidate: Id, lt: int)
    requires n.term < t && LastTerm(n.log) <= lt
    ensures Vote(n, t, candidate, lt) == (n.(role := Follower, term := t, votedFor := Some(candidate)), true)
  {
  }

  /** One peer of the camp is asked, says yes and is counted. */
  lemma WinVote(c: Cluster, i: Id, t: int, lt: int) returns (events: seq<Event>, d: Cluster)
    requires Polling(c, i, t, lt) && c.ballots[i].asked < |c.nodes[i].peers|
    requires Willing(c, c.nodes[i].peers[c.ballots[i].asked], t, lt)
    ensures Quietly(events)
    ensures Leads(c, events, d) && Polling(d, i, t, lt) && UpTo(c, d, t) && d.mail == c.mail
    ensures var b, peer := c.ballots[i], c.nodes[i].peers[c.ballots[i].asked];
      && d.nodes.Keys == c.nodes.Keys
      && d.nodes == c.nodes[peer := d.nodes[peer]]
      && d.nodes[i] == c.nodes[i]
      && d.ballots == c.ballots[i := Ballot(b.asked + 1, b.votes + 1, b.voters + {peer})]
  {
    var peer := c.nodes[i].peers[c.ballots[i].asked];
    var ask := Ask(i, peer, t, lt, |c.nodes[i].log| - 1);
    WillingVote(c.nodes[peer], t, i, lt);
    hide Vote;
    var c1 := Do(c, AskPeer(i));
    var c2 := Do(c1, AnswerVote(ask));
    d := Do(c2, Tally(i, true));
    LeadsThree(c, AskPeer(i), c1, AnswerVote(ask), c2, Tally(i, true), d);
    events := [AskPeer(i)] + [AnswerVote(ask)] + [Tally(i, true)];
  }

  lemma LeadsThree(c: Cluster, e1: Event, c1: Cluster, e2: Event, c2: Cluster, e3: Event, d: Cluster)
    requires Enabled(c, e1) && c1 == Do(c, e1) && Enabled(c1, e2) && c2 == Do(c1, e2) && Enabled(c2, e3) && d == Do(c2, e3)
    ensures Leads(c, [e1] + [e2] + [e3], d)
  {
    hide *;
    LeadsStep(c, e1);
    LeadsStep(c1, e2);
    LeadsStep(c2, e3);
    LeadsJoins(c, [e1], c1, [e2], c2);
    LeadsJoins(c, [e1] + [e2], c2, [e3], d);
  }

  /** The peers of the camp from position k on have taken no part yet. */
  ghost predicate AllWilling(c: Cluster, peers: seq<Id>, k: nat, camp: set<Id>, t: int, lt: int)
    requires k <= |peers|
  {
    forall p :: p in camp && p in peers[k..] ==> Willing(c, p, t, lt)
  }

  /** The peers of the camp from position k on are among the voters. */
  ghost predicate Counted(peers: seq<Id>, k: nat, camp: set<Id>, voters: set<Id>)
    requires k <= |peers|
  {
    forall p :: p in camp && p in peers[k..] ==> p in voters
  }

  /** What one round of the poll leaves. */
  ghost predicate Polled(c: Cluster, d: Cluster, i: Id, camp: set<Id>, t: int, lt: int) {
    && Polling(c, i, t, lt) && Polling(d, i, t, lt) && UpTo(c, d, t) && d.mail == c.mail && d.nodes[i] == c.nodes[i]
    && (forall j :: j in c.nodes && j !in camp ==> d.nodes[j] == c.nodes[j])
    && d.ballots == c.ballots[i := d.ballots[i]] && c.ballots[i].voters <= d.ballots[i].voters
  }

  lemma PolledTwice(c: Cluster, d: Cluster, e: Cluster, i: Id, camp: set<Id>, t: int, lt: int)
    requires Polled(c, d, i, camp, t, lt) && Polled(d, e, i, camp, t, lt)
    ensures Polled(c, e, i, camp, t, lt)
  {
    UpToTwice(c, d, e, t);
  }

  lemma PolledNone(c: Cluster, i: Id, camp: set<Id>, t: int, lt: int)
    requires Polling(c, i, t, lt)
    ensures Polled(c, c, i, camp, t, lt)
  {
    assert c.ballots == c.ballots[i := c.ballots[i]];
  }

  /** The next peer is asked; one of the camp says yes, another stays silent. */
  lemma NextPeer(c: Cluster, i: Id, camp: set<Id>, t: int, lt: int) returns (events: seq<Event>, d: Cluster)
    requires Polling(c, i, t, lt) && i !in camp && Member(c, i) && c.ballots[i].asked < |c.nodes[i].peers|
    requires AllWilling(c, c.nodes[i].peers, c.ballots[i].asked, camp, t, lt)
    ensures Quietly(events) && Leads(c, events, d) && Polled(c, d, i, camp, t, lt)
    ensures d.ballots[i].asked == c.ballots[i].asked + 1
    ensures AllWilling(d, c.nodes[i].peers, c.ballots[i].asked + 1, camp, t, lt)
    ensures var peer := c.nodes[i].peers[c.ballots[i].asked]; peer in camp ==> peer in d.ballots[i].voters
  {
    var k, peers := c.ballots[i].asked, c.nodes[i].peers;
    if peers[k] in camp {
      assert peers[k..][0] == peers[k];
      events, d := WinVote(c, i, t, lt);
    } else {
      events, d := [Tally(i, false)], Do(c, Tally(i, false));
      LeadsStep(c, Tally(i, false));
    }
    StillWilling(c, d, i, camp, peers, k, t, lt);
  }

  /** i polls the rest of its peers; every one in the camp says yes, the others stay silent. */
  lemma {:induction false} Canvass(c: Cluster, i: Id, camp: set<Id>, t: int, lt: int) returns (events: seq<Event>, d: Cluster)
    requires Polling(c, i, t, lt) && i !in camp && Member(c, i)
    requires AllWilling(c, c.nodes[i].peers, c.ballots[i].asked, camp, t, lt)
    ensures Quietly(events) && Leads(c, events, d)
    ensures Polled(c, d, i, camp, t, lt) && d.ballots[i].asked == |d.nodes[i].peers|
    ensures Counted(c.nodes[i].peers, c.ballots[i].asked, camp, d.ballots[i].voters)
    decreases |c.nodes[i].peers| - c.ballots[i].asked
  {
    var k, peers := c.ballots[i].asked, c.nodes[i].peers;
    if k == |peers| {
      events, d := [], c;
      PolledNone(c, i, camp, t, lt);
    } else {
      var first, c1 := NextPeer(c, i, camp, t, lt);
      assert Polling(c1, i, t, lt) && c1.nodes[i] == c.nodes[i] && c1.nodes.Keys == c.nodes.Keys;
      hide Willing, AllWilling, Counted, Leads, Do, Enabled, Polling, UpTo;
      var rest;
      rest, d := Canvass(c1, i, camp, t, lt);
      events := first + rest;
      LeadsJoins(c, first, c1, rest, d);
      CountedFrom(peers, k, camp, d.ballots[i].voters);
      PolledTwice(c, c1, d, i, camp, t, lt);
    }
  }

  lemma CountedFrom(peers: seq<Id>, k: nat, camp: set<Id>, voters: set<Id>)
    requires k < |peers| && Counted(peers, k + 1, camp, voters) && (peers[k] in camp ==> peers[k] in voters)
    ensures Counted(peers, k, camp, voters)
  {
    assert peers[k..] == [peers[k]] + peers[k + 1..];
  }

  /** Counting one peer leaves the later ones of the camp willing. */
  lemma StillWilling(c: Cluster, c1: Cluster, i: Id, camp: set<Id>, peers: seq<Id>, k: nat, t: int, lt: int)
    requires i in c.ballots && i in c1.ballots && i !in camp && k < |peers|
    requires forall x, y :: 0 <= x < y < |peers| ==> peers[x] != peers[y]
    requires AllWilling(c, peers, k, camp, t, lt)
    requires c1.ballots == c.ballots[i := c1.ballots[i]] && c1.nodes.Keys == c.nodes.Keys
    requires forall j :: j in c.nodes && j != peers[k] ==> c1.nodes[j] == c.nodes[j]
    ensures AllWilling(c1, peers, k + 1, camp, t, lt)
  {
    forall p | p in camp && p in peers[k + 1..] ensures Willing(c1, p, t, lt) {
      var j :| k + 1 <= j < |peers| && peers[j] == p;
      assert peers[k..][j - k] == p;
    }
  }

  lemma {:induction false} Choose<T>(s: set<T>, n: nat) returns (t: set<T>)
    requires n <= |s|
    ensures t <= s && |t| == n
  {
    if n == 0 {
      t := {};
    } else {
      var x :| x in s;
      var rest := Choose(s - {x}, n - 1);
      t := rest + {x};
    }
  }

  /** i closes its poll with enough votes and leads. */
  lemma Close(c: Cluster, i: Id, camp: set<Id>, t: int, lt: int) returns (d: Cluster)
    requires ElectionInv(c) && Won(c, i, camp, t, lt) && i !in camp && 2 * (|camp| + 1) >= |c.nodes|
    ensures i in c.nodes && i in c.ballots
    ensures Enabled(c, CloseElection(i)) && d == Do(c, CloseElection(i))
    ensures d.nodes == c.nodes[i := c.nodes[i].(role := Leader)] && d.ballots == c.ballots - {i}
    ensures d.mail == c.mail
  {
    d := Do(c, CloseElection(i));
    assert BallotOk(c, i) && Member(c, i);
    SubsetSize(camp + {i}, c.ballots[i].voters);
    PeerCount(c, i);
  }

  ghost predicate Blank(c: Cluster) {
    Start(c) && c.nodes != map[] && forall i :: i in c.nodes ==> c.nodes[i].log == []
  }

  /** The camp is among the peers, so after the whole poll it has voted. */
  lemma CampPolled(before: Cluster, after: Cluster, i: Id, camp: set<Id>)
    requires i in before.nodes && i in before.ballots && i in after.ballots && before.ballots[i].asked == 0
    requires Member(before, i) && i !in camp && camp <= before.nodes.Keys
    requires i in before.ballots[i].voters && before.ballots[i].voters <= after.ballots[i].voters
    requires forall p :: p in camp && p in before.nodes[i].peers[0..] ==> p in after.ballots[i].voters
    ensures camp + {i} <= after.ballots[i].voters
  {
    forall p | p in camp ensures p in after.ballots[i].voters {
      assert p in before.nodes.Keys - {i};
      assert p in (set q | q in before.nodes[i].peers);
      assert before.nodes[i].peers[0..] == before.nodes[i].peers;
    }
  }

  /** The ballot of i is open and nobody has been asked. */
  ghost predicate JustOpened(c: Cluster, i: Id, t: int, lt: int) {
    Polling(c, i, t, lt) && c.ballots[i].asked == 0 && c.ballots[i].voters == {i}
  }

  ghost predicate Won(c: Cluster, i: Id, camp: set<Id>, t: int, lt: int) {
    Polling(c, i, t, lt) && c.ballots[i].asked == |c.nodes[i].peers| && camp + {i} <= c.ballots[i].voters
  }

  lemma Opens(c: Cluster, i: Id) returns (d: Cluster)
    requires i in c.nodes && i !in c.ballots && c.nodes[i].term == 0 && c.nodes[i].log == []
    ensures Enabled(c, StartElection(i)) && d == Do(c, StartElection(i))
    ensures i in d.nodes && i in d.ballots && JustOpened(d, i, 1, 0) && d.nodes[i].log == []
    ensures d.nodes == c.nodes[i := d.nodes[i]] && d.ballots == c.ballots[i := d.ballots[i]]
  {
    d := Do(c, StartElection(i));
  }

  lemma Opening(c: Cluster, a: Id, b: Id) returns (events: seq<Event>, d: Cluster)
    requires Blank(c) && a in c.nodes && b in c.nodes && a != b
    ensures Quietly(events)
    ensures Leads(c, events, d) && ElectionInv(d) && JustOpened(d, a, 1, 0) && JustOpened(d, b, 1, 0)
    ensures d.nodes.Keys == c.nodes.Keys && d.nodes[a].log == d.nodes[b].log == []
    ensures forall i :: i in c.nodes && i != a && i != b ==> Willing(d, i, 1, 0)
  {
    BlankReady(c);
    hide *;
    var c1 := Opens(c, a);
    d := Opens(c1, b);
    StillOpened(c, c1, d, a, b);
    events := [StartElection(a)] + [StartElection(b)];
    LeadsPair(c, StartElection(a), c1, StartElection(b), d);
    LeadsKeeps(c, events, d);
    QuietOne(StartElection(a));
    QuietOne(StartElection(b));
    QuietlyJoins([StartElection(a)], [StartElection(b)]);
  }

  lemma StillOpened(c: Cluster, c1: Cluster, d: Cluster, a: Id, b: Id)
    requires a in c.nodes && b in c.nodes && a != b && JustOpened(c1, a, 1, 0) && b in d.nodes && b in d.ballots
    requires a in c1.nodes && c1.nodes == c.nodes[a := c1.nodes[a]] && a in c1.ballots && c1.ballots == c.ballots[a := c1.ballots[a]]
    requires d.nodes == c1.nodes[b := d.nodes[b]] && d.ballots == c1.ballots[b := d.ballots[b]]
    requires forall i :: i in c.nodes ==> Willing(c, i, 1, 0)
    ensures JustOpened(d, a, 1, 0) && d.nodes.Keys == c.nodes.Keys && d.nodes[a] == c1.nodes[a]
    ensures forall i :: i in c.nodes && i != a && i != b ==> Willing(d, i, 1, 0)
  {
    forall i | i in c.nodes && i != a && i != b ensures Willing(d, i, 1, 0) { assert Willing(c, i, 1, 0); }
  }

  lemma BlankReady(c: Cluster)
    requires Blank(c)
    ensures ElectionInv(c) && c.ballots == map[]
    ensures forall i :: i in c.nodes ==> Willing(c, i, 1, 0) && c.nodes[i].term == 0 && c.nodes[i].log == []
  {
    forall i | i in c.nodes ensures Member(c, i) && Elected(c, i) {}
  }

  lemma LeadsPair(c: Cluster, e1: Event, c1: Cluster, e2: Event, d: Cluster)
    requires Enabled(c, e1) && c1 == Do(c, e1) && Enabled(c1, e2) && d == Do(c1, e2)
    ensures Leads(c, [e1] + [e2], d)
  {
    hide *;
    LeadsStep(c, e1);
    LeadsStep(c1, e2);
    LeadsJoins(c, [e1], c1, [e2], d);
  }

  lemma Polls(c: Cluster, i: Id, camp: set<Id>, t: int, lt: int) returns (events: seq<Event>, d: Cluster)
    requires ElectionInv(c) && JustOpened(c, i, t, lt) && i !in camp
    requires forall p :: p in camp ==> Willing(c, p, t, lt)
    ensures Quietly(events)
    ensures Leads(c, events, d) && ElectionInv(d) && Won(d, i, camp, t, lt) && Polled(c, d, i, camp, t, lt)
  {
    assert Member(c, i);
    events, d := Canvass(c, i, camp, t, lt);
    assert forall p :: p in camp ==> p in c.nodes;
    hide ElectionInv, Leads, Member, Willing;
    LeadsKeeps(c, events, d);
    CampPolled(c, d, i, camp);
  }

  lemma Closing(c: Cluster, a: Id, campA: set<Id>, b: Id, campB: set<Id>) returns (events: seq<Event>, d: Cluster)
    requires ElectionInv(c) && a != b && Won(c, a, campA, 1, 0) && Won(c, b, campB, 1, 0) && a !in campA && b !in campB
    requires 2 * (|campA| + 1) >= |c.nodes| && 2 * (|campB| + 1) >= |c.nodes|
    ensures Quietly(events)
    ensures Leads(c, events, d)
    ensures d.nodes == c.nodes[a := c.nodes[a].(role := Leader)][b := c.nodes[b].(role := Leader)]
    ensures a in c.nodes && b in c.nodes && c.nodes[a].term == c.nodes[b].term
  {
    var c1 := Close(c, a, campA, 1, 0);
    StepKeeps(c, CloseElection(a));
    assert |c1.nodes| == |c.nodes| by { assert c1.nodes.Keys == c.nodes.Keys; }
    StillWon(c, c1, a, b, campB);
    hide ElectionInv, Do, Enabled, Won, Leads, Quietly;
    d := Close(c1, b, campB, 1, 0);
    events := [CloseElection(a)] + [CloseElection(b)];
    LeadsPair(c, CloseElection(a), c1, CloseElection(b), d);
    QuietOne(CloseElection(a));
    QuietOne(CloseElection(b));
    QuietlyJoins([CloseElection(a)], [CloseElection(b)]);
  }

  lemma StillWon(c: Cluster, c1: Cluster, a: Id, b: Id, campB: set<Id>)
    requires Won(c, b, campB, 1, 0) && a != b && a in c.nodes
    requires c1.nodes == c.nodes[a := c.nodes[a].(role := Leader)] && c1.ballots == c.ballots - {a}
    ensures Won(c1, b, campB, 1, 0) && c1.nodes[b] == c.nodes[b]
  {
  }

  /** Two nodes of an even cluster and two disjoint camps that, with them, make up all of it. */
  lemma Halves(ids: set<Id>) returns (a: Id, campA: set<Id>, b: Id, campB: set<Id>)
    requires ids != {} && |ids| % 2 == 0
    ensures a in ids && b in ids && a != b && campA !! campB && campA + campB == ids - {a, b}
    ensures 2 * (|campA| + 1) == |ids| && 2 * (|campB| + 1) == |ids|
  {
    a :| a in ids;
    assert |ids - {a}| == |ids| - 1;
    b :| b in ids - {a};
    var others := ids - {a} - {b};
    assert |others| == |ids| - 2;
    campA := Choose(others, |ids| / 2 - 1);
    campB := others - campA;
    assert others == campA + campB;
  }

  lemma BothPoll(c: Cluster, a: Id, campA: set<Id>, b: Id, campB: set<Id>) returns (events: seq<Event>, d: Cluster)
    requires ElectionInv(c) && JustOpened(c, a, 1, 0) && JustOpened(c, b, 1, 0) && a != b
    requires campA !! campB && a !in campA + campB && b !in campA + campB
    requires forall p :: p in campA + campB ==> Willing(c, p, 1, 0)
    ensures Quietly(events)
    ensures Leads(c, events, d) && ElectionInv(d) && Won(d, a, campA, 1, 0) && Won(d, b, campB, 1, 0)
    ensures d.nodes.Keys == c.nodes.Keys && d.nodes[a] == c.nodes[a] && d.nodes[b] == c.nodes[b]
  {
    hide ElectionInv, Leads, Quietly;
    var es, c1 := Polls(c, a, campA, 1, 0);
    OtherUntouched(c, c1, a, campA, b, campB);
    var fs;
    fs, d := Polls(c1, b, campB, 1, 0);
    OtherStillWon(c1, d, b, campB, a, campA);
    UpToKeys(c, c1, a, campA);
    UpToKeys(c1, d, b, campB);
    events := es + fs;
    LeadsJoins(c, es, c1, fs, d);
    QuietlyJoins(es, fs);
  }

  lemma UpToKeys(c: Cluster, d: Cluster, i: Id, camp: set<Id>)
    requires Polled(c, d, i, camp, 1, 0)
    ensures d.nodes.Keys == c.nodes.Keys
  {
  }

  lemma OtherUntouched(c: Cluster, c1: Cluster, a: Id, campA: set<Id>, b: Id, campB: set<Id>)
    requires Polled(c, c1, a, campA, 1, 0) && JustOpened(c, b, 1, 0) && a != b && campA !! campB && a !in campB && b !in campA
    requires forall p :: p in campB ==> Willing(c, p, 1, 0)
    ensures JustOpened(c1, b, 1, 0) && c1.nodes[b] == c.nodes[b] && forall p :: p in campB ==> Willing(c1, p, 1, 0)
  {
    forall p | p in campB ensures Willing(c1, p, 1, 0) { assert Willing(c, p, 1, 0); }
  }

  lemma OtherStillWon(c: Cluster, d: Cluster, b: Id, campB: set<Id>, a: Id, campA: set<Id>)
    requires Polled(c, d, b, campB, 1, 0) && Won(c, a, campA, 1, 0) && a != b && a !in campB
    ensures Won(d, a, campA, 1, 0) && d.nodes[a] == c.nodes[a]
  {
  }

  /** In every even cluster, two halves can each elect a leader of term 1. */
  lemma EvenLeads(c: Cluster) returns (events: seq<Event>, d: Cluster, a: Id, b: Id)
    requires Blank(c) && |c.nodes| % 2 == 0
    ensures Quietly(events)
    ensures Leads(c, events, d) && a in d.nodes && b in d.nodes && a != b
    ensures d.nodes[a].role == d.nodes[b].role == Leader && d.nodes[a].term == d.nodes[b].term
    ensures d.nodes[a].log == d.nodes[b].log == []
  {
    hide *;
    BlankNodes(c);
    var campA, campB;
    a, campA, b, campB := Halves(c.nodes.Keys);
    var es, c1 := Opening(c, a, b);
    var fs, c2 := BothPoll(c1, a, campA, b, campB);
    LeadsJoins(c, es, c1, fs, c2);
    assert |c2.nodes.Keys| == |c2.nodes|;
    var gs;
    gs, d := Closing(c2, a, campA, b, campB);
    events := es + fs + gs;
    LeadsJoins(c, es + fs, c2, gs, d);
    QuietlyJoins(es, fs);
    QuietlyJoins(es + fs, gs);
  }

  lemma BlankNodes(c: Cluster)
    requires Blank(c)
    ensures c.nodes.Keys != {} && |c.nodes.Keys| == |c.nodes|
  {
    assert c.nodes.Keys == {} ==> c.nodes == map[];
  }

  lemma EvenSplits(c: Cluster) returns (states: seq<Cluster>, events: seq<Event>)
    requires Blank(c) && |c.nodes| % 2 == 0
    ensures Run(states, events) && states[0] == c && SplitTerm(states)
  {
    var d, a, b;
    events, d, a, b := EvenLeads(c);
    states := Trace(c, events, d);
    assert states[|events|] == d;
  }

  /** Election safety holds over all runs of a fresh cluster exactly when its size is odd. */
  lemma SafeExactlyWhenOdd(c: Cluster)
    requires Blank(c)
    ensures (forall states, events :: Run(states, events) && states[0] == c ==> !SplitTerm(states))
       <==> |c.nodes| % 2 == 1
  {
    if |c.nodes| % 2 == 1 {
      forall states, events | Run(states, events) && states[0] == c ensures !SplitTerm(states) {
        ElectionSafety(states, events);
      }
    } else {
      var states, events := EvenSplits(c);
    }
  }
}
