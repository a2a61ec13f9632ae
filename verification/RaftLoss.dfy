/** How a committed entry is lost: the last index that a vote request carries is not read, so a node with a
    shorter log can win the votes of those that hold the entry. */
module RaftLoss {
  import opened RaftNode
  import opened RaftCluster
  import opened RaftElection
  import opened RaftLog
  import opened RaftSplit
  import opened RaftDiverge
  import opened RaftComplete
  import opened RaftKept

  // ---------- runs in which messages are taken in the term of their sender ----------

  ghost predicate Goes(c: Cluster, events: seq<Event>, d: Cluster)
    decreases |events|
  {
    if events == [] then c == d
    else Enabled(c, events[0]) && InTerm(c, events[0]) && Goes(Do(c, events[0]), events[1..], d)
  }

  lemma {:induction false} QuietGoes(c: Cluster, events: seq<Event>, d: Cluster)
    requires Leads(c, events, d) && Quietly(events)
    ensures Goes(c, events, d)
    decreases |events|
  {
    if events != [] {
      assert events[0] in events;
      assert forall e :: e in events[1..] ==> e in events;
      hide Do, Enabled;
      QuietInTerm(c, events[0]);
      QuietGoes(Do(c, events[0]), events[1..], d);
    }
  }

  lemma QuietInTerm(c: Cluster, e: Event)
    requires Enabled(c, e) && !e.Receive? && !e.CopyLog?
    ensures InTerm(c, e)
  {
  }

  lemma {:induction false} GoesJoins(c: Cluster, es: seq<Event>, d: Cluster, fs: seq<Event>, e: Cluster)
    requires Goes(c, es, d) && Goes(d, fs, e)
    ensures Goes(c, es + fs, e)
    decreases |es|
  {
    hide Do, Enabled, InTerm;
    if es == [] {
      assert es + fs == fs;
    } else {
      assert (es + fs)[1..] == es[1..] + fs;
      GoesJoins(Do(c, es[0]), es[1..], d, fs, e);
    }
  }

  ghost predicate Steps(states: seq<Cluster>, events: seq<Event>) {
    && |states| == |events| + 1
    && forall k :: 0 <= k < |events| ==>
         Enabled(states[k], events[k]) && InTerm(states[k], events[k]) && states[k + 1] == Do(states[k], events[k])
  }

  lemma {:induction false} GoesStates(c: Cluster, events: seq<Event>, d: Cluster) returns (states: seq<Cluster>)
    requires Goes(c, events, d)
    ensures Steps(states, events) && states[0] == c && states[|events|] == d
    decreases |events|
  {
    hide Do, Enabled, InTerm;
    if events == [] {
      states := [c];
    } else {
      var rest := GoesStates(Do(c, events[0]), events[1..], d);
      states := [c] + rest;
      forall k | 0 <= k < |events|
        ensures Enabled(states[k], events[k]) && InTerm(states[k], events[k]) && states[k + 1] == Do(states[k], events[k])
      {
        if k > 0 { assert events[k] == events[1..][k - 1] && states[k] == rest[k - 1]; }
      }
    }
  }

  lemma JoinStates(a: seq<Cluster>, es: seq<Event>, b: seq<Cluster>, fs: seq<Event>) returns (states: seq<Cluster>)
    requires Steps(a, es) && Steps(b, fs) && a[|es|] == b[0]
    ensures Steps(states, es + fs) && states[0] == a[0] && states[|es|] == b[0] && states[|es| + |fs|] == b[|fs|]
  {
    hide Do, Enabled, InTerm;
    states := a + b[1..];
    var events := es + fs;
    forall k | 0 <= k < |events|
      ensures Enabled(states[k], events[k]) && InTerm(states[k], events[k]) && states[k + 1] == Do(states[k], events[k])
    {
      if k < |es| {
        assert states[k] == a[k] && states[k + 1] == a[k + 1] && events[k] == es[k];
      } else {
        assert states[k] == b[k - |es|] && states[k + 1] == b[k - |es| + 1] && events[k] == fs[k - |es|];
      }
    }
  }

  // ---------- the leader's log spreads ----------

  /** Those in done have taken the whole of the message, and nothing else changed. */
  ghost predicate SpreadTo(c: Cluster, d: Cluster, done: set<Id>, m: Mail) {
    && d.nodes.Keys == c.nodes.Keys && d.ballots == c.ballots && d.mail == c.mail
    && (forall j :: j in c.nodes && j !in done ==> d.nodes[j] == c.nodes[j])
    && (forall j :: j in c.nodes && j in done ==>
          d.nodes[j].log == m.basis && d.nodes[j].term == c.nodes[j].term && d.nodes[j].role == c.nodes[j].role)
  }

  lemma GoesOne(c: Cluster, e: Event, d: Cluster)
    requires Leads(c, [e], d) && Enabled(c, e) && InTerm(c, e)
    ensures Goes(c, [e], d)
  {
    hide Do, Enabled, InTerm;
    assert [e][1..] == [];
    assert Goes(d, [], d);
  }

  lemma SpreadMore(c: Cluster, d: Cluster, e: Cluster, done: set<Id>, m: Mail, p: Id)
    requires SpreadTo(c, d, done, m) && p in c.nodes && p !in done && OnlyLog(d, e, p, m.basis) && e.mail == d.mail
    ensures SpreadTo(c, e, done + {p}, m)
  {
  }

  lemma TakesOne(c: Cluster, d: Cluster, done: set<Id>, m: Mail, p: Id) returns (e: Cluster)
    requires SpreadTo(c, d, done, m) && p in c.nodes && p !in done && c.ballots == map[]
    requires m in c.mail && m.prev == -1 && c.nodes[p].log == [] && c.nodes[p].term == m.term
    ensures Goes(d, [Receive(p, m, -1)], e) && SpreadTo(c, e, done + {p}, m)
  {
    assert Enabled(d, Receive(p, m, -1)) && InTerm(d, Receive(p, m, -1));
    assert d.nodes[p].log == [] && p in d.nodes && p !in d.ballots && m in d.mail;
    hide *;
    SpliceOnEmpty(m.basis);
    e := Hears(d, p, m);
    GoesOne(d, Receive(p, m, -1), e);
    SpreadMore(c, d, e, done, m, p);
  }

  lemma {:induction false} TakeAll(c: Cluster, d: Cluster, done: set<Id>, todo: set<Id>, m: Mail)
    returns (events: seq<Event>, e: Cluster)
    requires SpreadTo(c, d, done, m) && todo !! done && c.ballots == map[] && m in c.mail && m.prev == -1
    requires forall p :: p in todo ==> p in c.nodes && c.nodes[p].log == [] && c.nodes[p].term == m.term
    ensures Goes(d, events, e) && SpreadTo(c, e, done + todo, m)
    decreases |todo|
  {
    hide *;
    if todo == {} {
      events, e := [], d;
      assert done + todo == done;
      GoesNone(d);
    } else {
      var p :| p in todo;
      var c1 := TakesOne(c, d, done, m, p);
      var fs;
      OneLess(done, todo, p);
      fs, e := TakeAll(c, c1, done + {p}, todo - {p}, m);
      events := [Receive(p, m, -1)] + fs;
      GoesJoins(d, [Receive(p, m, -1)], c1, fs, e);
    }
  }

  lemma GoesNone(c: Cluster)
    ensures Goes(c, [], c)
  {
  }

  lemma OneLess(done: set<Id>, todo: set<Id>, p: Id)
    requires p in todo
    ensures done + {p} + (todo - {p}) == done + todo && |todo - {p}| < |todo|
  {
  }

  // ---------- the run ----------

  /** A leader of term 1 in a cluster without ballots. */
  ghost predicate Reigns(c: Cluster, a: Id, log: Log) {
    && a in c.nodes && c.ballots == map[] && c.nodes[a].role == Leader && c.nodes[a].term == 1 && c.nodes[a].log == log
    && forall p :: p in c.nodes ==> c.nodes[p].term == 1
  }

  function Item(k: nat, x: Command): Entry { Entry(1, k, x) }

  lemma Writes(c: Cluster, a: Id, log: Log, x: Command) returns (events: seq<Event>, d: Cluster)
    requires Reigns(c, a, log)
    ensures Goes(c, events, d) && Reigns(d, a, log + [Item(|log|, x)]) && d.nodes.Keys == c.nodes.Keys
    ensures Mail(log + [Item(|log|, x)], -1, 1) in d.mail
    ensures forall p :: p in c.nodes && p != a ==> d.nodes[p] == c.nodes[p]
  {
    var c1 := Proposes(c, a, x);
    d := Sends(c1, a);
    var send := Send(a, -1, |c1.nodes[a].log|);
    events := [ProposeAt(a, x)] + [send];
    hide Leads, LeadersKeep, Goes;
    QuietOne(ProposeAt(a, x));
    QuietOne(send);
    QuietGoes(c, [ProposeAt(a, x)], c1);
    QuietGoes(c1, [send], d);
    GoesJoins(c, [ProposeAt(a, x)], c1, [send], d);
  }

  lemma Begins(c: Cluster, a: Id) returns (events: seq<Event>, d: Cluster)
    requires Blank(c) && a in c.nodes
    ensures Goes(c, events, d) && ElectionInv(d) && Reigns(d, a, []) && d.nodes.Keys == c.nodes.Keys
    ensures forall p :: p in c.nodes ==> d.nodes[p].log == []
  {
    BlankOk(c);
    OthersSize(c, {a});
    var camp := c.nodes.Keys - {a};
    assert MayStand(c, a, camp, 1);
    hide ElectionInv, Leads, Quietly, Goes, Blank, MayStand;
    events, d := Elect(c, a, camp, 1);
    QuietGoes(c, events, d);
    forall p | p in c.nodes ensures p in d.nodes && d.nodes[p].log == [] && d.nodes[p].term == 1 {
      assert p in d.nodes.Keys;
      assert p == a || p in camp;
    }
  }

  /** b holds the first entry, those in camp and the leader a both. */
  ghost predicate Ready(c: Cluster, a: Id, b: Id, camp: set<Id>, x: Command) {
    && Reigns(c, a, [Item(0, x), Item(1, x)]) && b in c.nodes && a != b && a !in camp && b !in camp && camp <= c.nodes.Keys
    && c.nodes[b].log == [Item(0, x)]
    && (forall p :: p in camp ==> c.nodes[p].log == [Item(0, x), Item(1, x)])
    && (forall p :: p in c.nodes && p != a && p != b && p !in camp ==> c.nodes[p].log == [])
  }

  lemma TellsOne(c: Cluster, a: Id, b: Id, x: Command) returns (events: seq<Event>, d: Cluster)
    requires Reigns(c, a, []) && b in c.nodes && a != b && forall p :: p in c.nodes ==> c.nodes[p].log == []
    ensures Goes(c, events, d) && Reigns(d, a, [Item(0, x)]) && d.nodes.Keys == c.nodes.Keys
    ensures d.nodes[b].log == [Item(0, x)] && forall p :: p in c.nodes && p != a && p != b ==> d.nodes[p].log == []
  {
    hide Goes;
    var es, c1 := Writes(c, a, [], x);
    var m := Mail([Item(0, x)], -1, 1);
    assert [] + [Item(0, x)] == [Item(0, x)];
    SpreadNone(c1, m);
    d := TakesOne(c1, c1, {}, m, b);
    ReignsOn(c1, d, a, [Item(0, x)], {b}, m);
    events := es + [Receive(b, m, -1)];
    GoesJoins(c, es, c1, [Receive(b, m, -1)], d);
  }

  lemma TellsCamp(c: Cluster, a: Id, b: Id, camp: set<Id>, x: Command) returns (events: seq<Event>, d: Cluster)
    requires Reigns(c, a, [Item(0, x)]) && b in c.nodes && a != b && a !in camp && b !in camp && camp <= c.nodes.Keys
    requires c.nodes[b].log == [Item(0, x)] && forall p :: p in c.nodes && p != a && p != b ==> c.nodes[p].log == []
    ensures Goes(c, events, d) && Ready(d, a, b, camp, x) && d.nodes.Keys == c.nodes.Keys
  {
    hide Goes;
    var es, c1 := Writes(c, a, [Item(0, x)], x);
    assert [Item(0, x)] + [Item(1, x)] == [Item(0, x), Item(1, x)];
    var m := Mail([Item(0, x), Item(1, x)], -1, 1);
    SpreadNone(c1, m);
    var fs;
    fs, d := TakeAll(c1, c1, {}, camp, m);
    assert {} + camp == camp;
    ReignsOn(c1, d, a, [Item(0, x), Item(1, x)], camp, m);
    events := es + fs;
    GoesJoins(c, es, c1, fs, d);
  }

  lemma Prepare(c: Cluster, a: Id, b: Id, camp: set<Id>, x: Command) returns (events: seq<Event>, d: Cluster)
    requires Reigns(c, a, []) && b in c.nodes && a != b && a !in camp && b !in camp && camp <= c.nodes.Keys
    requires forall p :: p in c.nodes ==> c.nodes[p].log == []
    ensures Goes(c, events, d) && Ready(d, a, b, camp, x) && d.nodes.Keys == c.nodes.Keys
  {
    hide *;
    var es, c1 := TellsOne(c, a, b, x);
    var fs;
    fs, d := TellsCamp(c1, a, b, camp, x);
    events := es + fs;
    GoesJoins(c, es, c1, fs, d);
  }

  lemma SpreadNone(c: Cluster, m: Mail)
    ensures SpreadTo(c, c, {}, m)
  {
  }

  lemma ReignsOn(c: Cluster, d: Cluster, a: Id, log: Log, done: set<Id>, m: Mail)
    requires Reigns(c, a, log) && SpreadTo(c, d, done, m) && a !in done
    ensures Reigns(d, a, log)
  {
    forall p | p in d.nodes ensures d.nodes[p].term == 1 { assert p in c.nodes.Keys; }
  }

  /** b stands in term 2 and wins, with the votes of all but a. */
  lemma Returns(c: Cluster, a: Id, b: Id, camp: set<Id>, x: Command) returns (events: seq<Event>, d: Cluster)
    requires ElectionInv(c) && Ready(c, a, b, camp, x) && |c.nodes| >= 3
    ensures Goes(c, events, d) && b in d.nodes && d.nodes[b].role == Leader && d.nodes[b].term == 2
    ensures d.nodes[b].log == [Item(0, x)]
  {
    var others := c.nodes.Keys - {a, b};
    OthersSize(c, {a, b});
    assert MayStand(c, b, others, 2) by {
      forall p | p in others ensures Willing(c, p, 2, LastTerm(c.nodes[b].log)) {}
    }
    hide ElectionInv, MayStand, Goes, Leads, Quietly;
    events, d := Elect(c, b, others, 2);
    QuietGoes(c, events, d);
    assert b in d.nodes.Keys;
  }

  // ---------- the theorems ----------

  ghost predicate InTermRun(c: Cluster, states: seq<Cluster>, events: seq<Event>) {
    && RunFrom(c, states, events) && forall k :: 0 <= k < |events| ==> InTerm(states[k], events[k])
  }

  /** Whoever leads in a later term holds what was committed. */
  ghost predicate Complete(states: seq<Cluster>) {
    forall log: Log, j: nat, k: nat, i :: j < |states| && k < |states| && Committed(states, log, j) ==> Holds(states[k], log, i)
  }

  ghost predicate Holds(c: Cluster, log: Log, i: Id)
    requires log != []
  {
    i in c.nodes && c.nodes[i].role == Leader && c.nodes[i].term > Made(log) ==> log <= c.nodes[i].log
  }

  /** Those who hold both entries in the term of their leader are a quorum. */
  lemma ReadyCommitted(states: seq<Cluster>, k: nat, a: Id, b: Id, camp: set<Id>, x: Command)
    requires k < |states| && Ready(states[k], a, b, camp, x) && |camp| == (|states[k].nodes| - 1) / 2
    ensures Committed(states, [Item(0, x), Item(1, x)], k)
  {
    var log := [Item(0, x), Item(1, x)];
    forall p | p in camp + {a} ensures p in Ackers(states, log, k) {
      assert Acked(states[k], p, log);
    }
    hide Ready;
    SubsetSize(camp + {a}, Ackers(states, log, k));
  }

  lemma NotHeld(c: Cluster, b: Id, x: Command)
    requires b in c.nodes && c.nodes[b].role == Leader && c.nodes[b].term == 2 && c.nodes[b].log == [Item(0, x)]
    ensures !Holds(c, [Item(0, x), Item(1, x)], b)
  {
  }

  lemma {:induction false} GoesKeeps(c: Cluster, events: seq<Event>, d: Cluster)
    requires Goes(c, events, d) && ElectionInv(c)
    ensures ElectionInv(d)
    decreases |events|
  {
    if events != [] {
      StepKeeps(c, events[0]);
      hide ElectionInv, Do, Enabled, InTerm;
      GoesKeeps(Do(c, events[0]), events[1..], d);
    }
  }

  /** Two nodes, and as many others as make a quorum with one of them. */
  lemma Parts(c: Cluster) returns (a: Id, b: Id, camp: set<Id>)
    requires Blank(c) && |c.nodes| >= 3
    ensures a in c.nodes && b in c.nodes && a != b && a !in camp && b !in camp && camp <= c.nodes.Keys
    ensures |camp| == (|c.nodes| - 1) / 2
  {
    assert |c.nodes.Keys| == |c.nodes|;
    hide *;
    var f;
    a, b, f := ThreeOf(c.nodes.Keys);
    OthersSize(c, {a, b});
    camp := Choose(c.nodes.Keys - {a, b}, (|c.nodes| - 1) / 2);
    CampApart(c, a, b, camp);
  }

  /** Up to the commit, and from there to the later leader. */
  lemma Loses(c: Cluster, a: Id, b: Id, camp: set<Id>, x: Command)
    returns (es: seq<Event>, mid: Cluster, gs: seq<Event>, d: Cluster)
    requires Blank(c) && |c.nodes| >= 3 && a in c.nodes && b in c.nodes && a != b && a !in camp && b !in camp
    requires camp <= c.nodes.Keys
    ensures Goes(c, es, mid) && Ready(mid, a, b, camp, x) && |mid.nodes| == |c.nodes| && Goes(mid, gs, d)
    ensures b in d.nodes && d.nodes[b].role == Leader && d.nodes[b].term == 2 && d.nodes[b].log == [Item(0, x)]
  {
    hide *;
    var es1, c1 := Begins(c, a);
    var es2;
    es2, mid := Prepare(c1, a, b, camp, x);
    GoesKeeps(c1, es2, mid);
    SameSize(c, c1);
    SameSize(c1, mid);
    gs, d := Returns(mid, a, b, camp, x);
    GoesJoins(c, es1, c1, es2, mid);
    es := es1 + es2;
  }

  /** In every cluster of three or more nodes: a run in which every message is taken in its sender's term, and
      a leader of a later term lacks an entry that a quorum acknowledged in the term it was made. */
  lemma CommittedLost(c: Cluster) returns (states: seq<Cluster>, events: seq<Event>)
    requires Blank(c) && |c.nodes| >= 3
    ensures InTermRun(c, states, events) && !Complete(states)
  {
    hide *;
    var x := Command("run", Archive);
    var a, b, camp := Parts(c);
    var es, mid, gs, d := Loses(c, a, b, camp, x);
    var first := GoesStates(c, es, mid);
    var second := GoesStates(mid, gs, d);
    StepsLength(first, es);
    StepsLength(second, gs);
    states := JoinStates(first, es, second, gs);
    events := es + gs;
    StepsLength(states, events);
    ReadyCommitted(states, |es|, a, b, camp, x);
    NotHeld(d, b, x);
    LostIs(c, states, events, |es|, [Item(0, x), Item(1, x)], b);
  }

  lemma StepsLength(states: seq<Cluster>, events: seq<Event>)
    requires Steps(states, events)
    ensures |states| == |events| + 1
  {
    hide Enabled, Do, InTerm;
  }

  lemma CampApart(c: Cluster, a: Id, b: Id, camp: set<Id>)
    requires camp <= c.nodes.Keys - {a, b}
    ensures a !in camp && b !in camp && camp <= c.nodes.Keys
  {
  }

  lemma LostIs(c: Cluster, states: seq<Cluster>, events: seq<Event>, j: nat, log: Log, i: Id)
    requires Blank(c) && Steps(states, events) && states[0] == c && j < |states| && Committed(states, log, j)
    requires log != [] && !Holds(states[|events|], log, i)
    ensures InTermRun(c, states, events) && !Complete(states)
  {
    hide Enabled, Do, InTerm, Holds, Committed;
  }

  /** With the length check no run of an odd cluster loses one. */
  lemma CarefulComplete(states: seq<Cluster>, events: seq<Event>)
    requires CarefulRun(states, events)
    ensures Complete(states)
  {
    forall log: Log, j: nat, k: nat, i | j < |states| && k < |states| && Committed(states, log, j)
      ensures log != [] && Holds(states[k], log, i)
    {
      Nonempty(states, log, j);
      hide CarefulRun, Committed;
      if i in states[k].nodes && states[k].nodes[i].role == Leader && states[k].nodes[i].term > Made(log) {
        LeaderCompleteness(states, events, log, j, k, i);
      }
    }
  }

  lemma NoPeers(c: Cluster, i: Id)
    requires ElectionInv(c) && |c.nodes| == 1 && i in c.nodes
    ensures c.nodes[i].peers == []
  {
    assert Member(c, i);
    PeerCount(c, i);
  }

  lemma NoAsk(c: Cluster, e: Event)
    requires ElectionInv(c) && |c.nodes| == 1 && c.asks == {} && Enabled(c, e)
    ensures Do(c, e).asks == {}
  {
    if e.AskPeer? { NoPeers(c, e.i); }
    hide ElectionInv, Append, Vote;
  }

  lemma {:induction false} NobodyAsked(states: seq<Cluster>, events: seq<Event>, k: nat)
    requires Run(states, events) && k < |states| && |states[0].nodes| == 1
    ensures states[k].asks == {}
  {
    if k > 0 {
      hide *;
      NobodyAsked(states, events, k - 1);
      RunKeeps(states, events, k - 1);
      RunGrows(states, events, 0, k - 1);
      SameCount(states[0], states[k - 1]);
      RunStep(states, events, k);
      NoAsk(states[k - 1], events[k - 1]);
    } else {
      hide Enabled, Do;
    }
  }

  lemma AloneCareful(c: Cluster, states: seq<Cluster>, events: seq<Event>)
    requires Blank(c) && |c.nodes| == 1 && InTermRun(c, states, events)
    ensures CarefulRun(states, events)
  {
    forall k | 0 <= k < |events| ensures Careful(states[k], events[k]) {
      NobodyAsked(states, events, k);
    }
  }

  /** Over all runs in which messages are taken in the term of their sender, an odd cluster keeps what it
      committed if and only if it has one node. */
  lemma KeptExactlyWhenAlone(c: Cluster)
    requires Blank(c) && |c.nodes| % 2 == 1
    ensures (forall states, events :: InTermRun(c, states, events) ==> Complete(states)) <==> |c.nodes| == 1
  {
    hide *;
    if |c.nodes| == 1 {
      forall states, events | InTermRun(c, states, events) ensures Complete(states) {
        AloneCareful(c, states, events);
        CarefulComplete(states, events);
      }
    } else {
      var states, events := CommittedLost(c);
    }
  }
}
