/** Where log matching (section 5.3 of the Raft paper) ends: runs in which two logs of a cluster
    hold the same term at the same index with different pasts. */
module RaftDiverge {
  import opened RaftNode
  import opened RaftCluster
  import opened RaftElection
  import opened RaftSplit
  import opened RaftLog

  ghost predicate AllMatch(c: Cluster) {
    forall i, j :: i in c.nodes && j in c.nodes ==> Matching(c.nodes[i].log, c.nodes[j].log)
  }

  ghost predicate AlwaysMatch(states: seq<Cluster>) {
    forall k :: 0 <= k < |states| ==> AllMatch(states[k])
  }

  ghost predicate RunFrom(c: Cluster, states: seq<Cluster>, events: seq<Event>) {
    Run(states, events) && states[0] == c
  }

  // ---------- one candidate alone ----------

  /** From c to d, i was elected in term t by the camp; no log or message changed. */
  ghost predicate Chosen(c: Cluster, d: Cluster, i: Id, camp: set<Id>, t: int) {
    && i in d.nodes && d.nodes[i].role == Leader && d.nodes[i].term == t
    && d.mail == c.mail && d.ballots == c.ballots && UpTo(c, d, t)
    && (forall j :: j in c.nodes && j != i && j !in camp ==> d.nodes[j] == c.nodes[j])
    && (forall p :: p in camp ==> p in d.nodes && d.nodes[p].term == t)
  }

  /** i may stand for term t: with it the camp is at least half of the cluster, and votes for any log that
      ends in its last term. */
  ghost predicate MayStand(c: Cluster, i: Id, camp: set<Id>, t: int) {
    && i in c.nodes && i !in c.ballots && i !in camp && c.nodes[i].term == t - 1
    && 2 * (|camp| + 1) >= |c.nodes| && forall p :: p in camp ==> Willing(c, p, t, LastTerm(c.nodes[i].log))
  }

  lemma Stands(c: Cluster, i: Id, camp: set<Id>, t: int) returns (d: Cluster)
    requires ElectionInv(c) && MayStand(c, i, camp, t)
    ensures Leads(c, [StartElection(i)], d) && ElectionInv(d) && JustOpened(d, i, t, LastTerm(c.nodes[i].log))
    ensures UpTo(c, d, t) && d.mail == c.mail && d.ballots == c.ballots[i := d.ballots[i]]
    ensures (forall j :: j in c.nodes && j != i ==> d.nodes[j] == c.nodes[j])
    ensures forall p :: p in camp ==> Willing(d, p, t, LastTerm(c.nodes[i].log))
  {
    d := Do(c, StartElection(i));
    LeadsStep(c, StartElection(i));
    StepKeeps(c, StartElection(i));
    forall p | p in camp ensures Willing(d, p, t, LastTerm(c.nodes[i].log)) { assert Willing(c, p, t, LastTerm(c.nodes[i].log)); }
  }

  lemma Closes(c: Cluster, i: Id, camp: set<Id>, t: int, lt: int) returns (d: Cluster)
    requires ElectionInv(c) && Won(c, i, camp, t, lt) && i !in camp && 2 * (|camp| + 1) >= |c.nodes|
    ensures Leads(c, [CloseElection(i)], d) && ElectionInv(d) && d.mail == c.mail && d.ballots == c.ballots - {i}
    ensures d.nodes == c.nodes[i := c.nodes[i].(role := Leader)]
  {
    d := Close(c, i, camp, t, lt);
    LeadsStep(c, CloseElection(i));
    StepKeeps(c, CloseElection(i));
  }

  /** A node stands, and a camp that is at least half of the cluster with it elects it. */
  lemma Elect(c: Cluster, i: Id, camp: set<Id>, t: int) returns (events: seq<Event>, d: Cluster)
    requires ElectionInv(c) && MayStand(c, i, camp, t)
    ensures Leads(c, events, d) && ElectionInv(d) && Chosen(c, d, i, camp, t)
    ensures Quietly(events)
  {
    var lt := LastTerm(c.nodes[i].log);
    MayStandFacts(c, i, camp, t);
    hide *;
    var c1 := Stands(c, i, camp, t);
    var es, c2 := Polls(c1, i, camp, t, lt);
    CampVoted(c2, i, camp, t, lt);
    SizesSame(c, c1, c2, i, camp, t, lt);
    d := Closes(c2, i, camp, t, lt);
    events := [StartElection(i)] + es + [CloseElection(i)];
    LeadsTwice(c, [StartElection(i)], c1, es, c2, [CloseElection(i)], d);
    QuietOne(StartElection(i));
    QuietOne(CloseElection(i));
    QuietlyJoins([StartElection(i)], es);
    QuietlyJoins([StartElection(i)] + es, [CloseElection(i)]);
    ChosenThen(c, c1, c2, d, i, camp, t, lt);
  }

  lemma MayStandFacts(c: Cluster, i: Id, camp: set<Id>, t: int)
    requires MayStand(c, i, camp, t)
    ensures i in c.nodes && i !in c.ballots && i !in camp && 2 * (|camp| + 1) >= |c.nodes|
    ensures forall p :: p in camp ==> Willing(c, p, t, LastTerm(c.nodes[i].log))
  {
  }

  lemma SizesSame(c: Cluster, c1: Cluster, c2: Cluster, i: Id, camp: set<Id>, t: int, lt: int)
    requires UpTo(c, c1, t) && Polled(c1, c2, i, camp, t, lt)
    ensures |c1.nodes| == |c.nodes| && |c2.nodes| == |c.nodes|
  {
    SameSize(c, c1);
    SameSize(c1, c2);
  }

  lemma LeadsTwice(c: Cluster, es: seq<Event>, c1: Cluster, fs: seq<Event>, c2: Cluster, gs: seq<Event>, d: Cluster)
    requires Leads(c, es, c1) && Leads(c1, fs, c2) && Leads(c2, gs, d)
    ensures Leads(c, es + fs + gs, d)
  {
    LeadsJoins(c, es, c1, fs, c2);
    LeadsJoins(c, es + fs, c2, gs, d);
  }

  lemma ChosenThen(c: Cluster, c1: Cluster, c2: Cluster, d: Cluster, i: Id, camp: set<Id>, t: int, lt: int)
    requires i in c.nodes && i !in c.ballots && i !in camp && Polled(c1, c2, i, camp, t, lt) && UpTo(c, c1, t)
    requires c1.mail == c.mail && i in c1.ballots && c1.ballots == c.ballots[i := c1.ballots[i]]
    requires (forall j :: j in c.nodes && j != i ==> c1.nodes[j] == c.nodes[j])
    requires forall p :: p in camp ==> Willing(c, p, t, lt) && p in c2.nodes && c2.nodes[p].term >= t
    requires d.mail == c2.mail && d.ballots == c2.ballots - {i} && d.nodes == c2.nodes[i := c2.nodes[i].(role := Leader)]
    ensures Chosen(c, d, i, camp, t)
  {
    PolledFacts(c1, c2, i, camp, t, lt);
    ChosenUpTo(c, c1, c2, d, i, t);
    ChosenOthers(c, c1, c2, d, i, camp, t, lt);
    hide *;
    ChosenIs(c, c1, c2, d, i, camp, t, lt);
  }

  lemma ChosenUpTo(c: Cluster, c1: Cluster, c2: Cluster, d: Cluster, i: Id, t: int)
    requires i in c2.nodes && UpTo(c, c1, t) && UpTo(c1, c2, t) && d.nodes == c2.nodes[i := c2.nodes[i].(role := Leader)]
    ensures UpTo(c, c2, t) && UpTo(c, d, t)
  {
    UpToLeads(c2, d, i, t);
    hide UpTo;
    UpToTwice(c, c1, c2, t);
    UpToTwice(c, c2, d, t);
  }

  lemma ChosenIs(c: Cluster, c1: Cluster, c2: Cluster, d: Cluster, i: Id, camp: set<Id>, t: int, lt: int)
    requires UpTo(c, d, t) && i !in c.ballots && i in c2.nodes && c2.nodes[i].term == t
    requires forall j :: j in c.nodes && j != i && j !in camp ==> j in d.nodes && d.nodes[j] == c.nodes[j]
    requires c1.mail == c.mail && i in c1.ballots && c1.ballots == c.ballots[i := c1.ballots[i]]
    requires i in c2.ballots && c2.ballots == c1.ballots[i := c2.ballots[i]] && c2.mail == c1.mail
    requires forall p :: p in camp ==> Willing(c, p, t, lt) && p in c2.nodes && c2.nodes[p].term >= t
    requires d.mail == c2.mail && d.ballots == c2.ballots - {i} && d.nodes == c2.nodes[i := c2.nodes[i].(role := Leader)]
    ensures Chosen(c, d, i, camp, t)
  {
    BallotsBack(c.ballots, c1.ballots, c2.ballots, i);
    CampAt(c, d, camp, t, lt);
    hide UpTo, Willing;
  }

  lemma BallotsBack(b: map<Id, Ballot>, b1: map<Id, Ballot>, b2: map<Id, Ballot>, i: Id)
    requires i !in b && i in b1 && b1 == b[i := b1[i]] && i in b2 && b2 == b1[i := b2[i]]
    ensures b2 - {i} == b
  {
  }

  lemma PolledFacts(c: Cluster, d: Cluster, i: Id, camp: set<Id>, t: int, lt: int)
    requires Polled(c, d, i, camp, t, lt)
    ensures i in d.nodes && d.nodes[i].term == t && d.mail == c.mail && UpTo(c, d, t)
    ensures i in d.ballots && d.ballots == c.ballots[i := d.ballots[i]]
  {
  }

  lemma UpToLeads(c: Cluster, d: Cluster, i: Id, t: int)
    requires i in c.nodes && d.nodes == c.nodes[i := c.nodes[i].(role := Leader)]
    ensures UpTo(c, d, t)
  {
  }

  lemma ChosenOthers(c: Cluster, c1: Cluster, c2: Cluster, d: Cluster, i: Id, camp: set<Id>, t: int, lt: int)
    requires i in c.nodes && Polled(c1, c2, i, camp, t, lt) && UpTo(c, c1, t)
    requires (forall j :: j in c.nodes && j != i ==> c1.nodes[j] == c.nodes[j])
    requires d.nodes == c2.nodes[i := c2.nodes[i].(role := Leader)]
    ensures forall j :: j in c.nodes && j != i && j !in camp ==> j in d.nodes && d.nodes[j] == c.nodes[j]
  {
    forall j | j in c.nodes && j != i && j !in camp ensures j in d.nodes && d.nodes[j] == c.nodes[j] {
      assert j in c1.nodes.Keys && j in c2.nodes.Keys;
    }
  }

  lemma CampAt(c: Cluster, d: Cluster, camp: set<Id>, t: int, lt: int)
    requires UpTo(c, d, t) && forall p :: p in camp ==> Willing(c, p, t, lt) && p in d.nodes && d.nodes[p].term >= t
    ensures forall p :: p in camp ==> d.nodes[p].term == t
  {
    forall p | p in camp ensures d.nodes[p].term == t { assert Willing(c, p, t, lt); }
  }

  lemma SameSize(c: Cluster, d: Cluster)
    requires d.nodes.Keys == c.nodes.Keys
    ensures |d.nodes| == |c.nodes|
  {
    assert |d.nodes.Keys| == |d.nodes| && |c.nodes.Keys| == |c.nodes|;
  }

  /** Whoever voted in term t has come at least that far. */
  lemma CampVoted(c: Cluster, i: Id, camp: set<Id>, t: int, lt: int)
    requires ElectionInv(c) && Won(c, i, camp, t, lt)
    ensures forall p :: p in camp ==> p in c.nodes && c.nodes[p].term >= t
  {
    assert BallotOk(c, i);
    forall p | p in camp ensures p in c.nodes && c.nodes[p].term >= t {
      assert GrantOk(c, Grant(p, t, i));
    }
  }

  // ---------- single steps ----------

  /** c and d differ in node i only, which keeps its role and term and has the given log. */
  ghost predicate OnlyLog(c: Cluster, d: Cluster, i: Id, log: Log) {
    && i in c.nodes && d.nodes.Keys == c.nodes.Keys && d.ballots == c.ballots
    && (forall j :: j in c.nodes && j != i ==> d.nodes[j] == c.nodes[j])
    && d.nodes[i].role == c.nodes[i].role && d.nodes[i].term == c.nodes[i].term && d.nodes[i].log == log
  }

  lemma Proposes(c: Cluster, i: Id, x: Command) returns (d: Cluster)
    requires i in c.nodes && c.nodes[i].role == Leader
    ensures Leads(c, [ProposeAt(i, x)], d) && d.mail == c.mail && LeadersKeep(c, d)
    ensures OnlyLog(c, d, i, c.nodes[i].log + [Entry(c.nodes[i].term, |c.nodes[i].log|, x)])
  {
    d := Do(c, ProposeAt(i, x));
    LeadsStep(c, ProposeAt(i, x));
  }

  /** A leader sends its whole log. */
  lemma Sends(c: Cluster, i: Id) returns (d: Cluster)
    requires i in c.nodes && c.nodes[i].role == Leader && c.nodes[i].log != []
    ensures Leads(c, [Send(i, -1, |c.nodes[i].log|)], d)
    ensures d.nodes == c.nodes && d.ballots == c.ballots && d.mail == c.mail + {Mail(c.nodes[i].log, -1, c.nodes[i].term)}
  {
    var e := Send(i, -1, |c.nodes[i].log|);
    d := Do(c, e);
    LeadsStep(c, e);
    assert c.nodes[i].log[..|c.nodes[i].log|] == c.nodes[i].log;
  }

  /** A node hears a whole log. */
  lemma Hears(c: Cluster, i: Id, m: Mail) returns (d: Cluster)
    requires i in c.nodes && i !in c.ballots && m in c.mail && m.prev == -1
    ensures Leads(c, [Receive(i, m, -1)], d) && d.mail == c.mail
    ensures OnlyLog(c, d, i, Splice(c.nodes[i].log, 0, m.basis))
  {
    var e := Receive(i, m, -1);
    d := Do(c, e);
    LeadsStep(c, e);
    assert m.basis[0..] == m.basis;
    AppendKeepsElection(c.nodes[i], m.basis, -1, 0, -1);
    LearnKeepsLog(c.nodes[i].(log := Splice(c.nodes[i].log, 0, m.basis)), -1);
  }

  // ---------- a late message to a leader ----------

  /** A leader of term 1 has sent its one entry; nobody else has a log. */
  ghost predicate Sent(c: Cluster, a: Id, m: Mail, x: Command) {
    && a in c.nodes && c.ballots == map[] && m in c.mail && m == Mail([Entry(1, 0, x)], -1, 1)
    && forall p :: p in c.nodes && p != a ==> c.nodes[p].term == 1 && c.nodes[p].log == []
  }

  lemma BlankOk(c: Cluster)
    requires Blank(c)
    ensures ElectionInv(c) && c.ballots == map[] && forall i :: i in c.nodes ==> c.nodes[i].term == 0 && c.nodes[i].log == []
  {
    forall i | i in c.nodes ensures Member(c, i) && Elected(c, i) {}
  }

  lemma OthersSize(c: Cluster, gone: set<Id>)
    requires gone <= c.nodes.Keys
    ensures |c.nodes.Keys - gone| == |c.nodes| - |gone|
  {
    assert c.nodes.Keys == (c.nodes.Keys - gone) + gone;
    assert |c.nodes.Keys| == |c.nodes|;
  }

  /** A leader without a log, among nodes without a log. */
  ghost predicate Empty(c: Cluster, a: Id, t: int) {
    && a in c.nodes && c.ballots == map[] && c.nodes[a].role == Leader && c.nodes[a].term == t
    && forall p :: p in c.nodes ==> p == a || (c.nodes[p].term == t && c.nodes[p].log == [])
  }

  lemma FirstEntry(c: Cluster, a: Id, x: Command) returns (events: seq<Event>, d: Cluster, m: Mail)
    requires Empty(c, a, 1) && c.nodes[a].log == []
    ensures Leads(c, events, d) && d.nodes.Keys == c.nodes.Keys && Sent(d, a, m, x)
  {
    hide Leads;
    var c1 := Proposes(c, a, x);
    d := Sends(c1, a);
    m := Mail(c1.nodes[a].log, -1, 1);
    events := [ProposeAt(a, x)] + [Send(a, -1, |c1.nodes[a].log|)];
    LeadsJoins(c, [ProposeAt(a, x)], c1, [Send(a, -1, |c1.nodes[a].log|)], d);
  }

  lemma FirstReign(c: Cluster, a: Id, x: Command) returns (events: seq<Event>, d: Cluster, m: Mail)
    requires Blank(c) && a in c.nodes
    ensures Leads(c, events, d) && ElectionInv(d) && d.nodes.Keys == c.nodes.Keys && Sent(d, a, m, x)
  {
    BlankOk(c);
    OthersSize(c, {a});
    var es, c1 := Elect(c, a, c.nodes.Keys - {a}, 1);
    assert Empty(c1, a, 1) && c1.nodes[a].log == [] && c1.nodes.Keys == c.nodes.Keys;
    hide *;
    var fs;
    fs, d, m := FirstEntry(c1, a, x);
    events := es + fs;
    LeadsJoins(c, es, c1, fs, d);
    LeadsKeeps(c, events, d);
  }

  /** A leader of term 2 whose two entries a third node holds. */
  ghost predicate Followed(c: Cluster, b: Id, f: Id, m: Mail, x: Command) {
    && b in c.nodes && f in c.nodes && b != f && c.ballots == map[] && m in c.mail
    && c.nodes[b].role == Leader && c.nodes[b].term == 2
    && c.nodes[b].log == c.nodes[f].log == [Entry(2, 0, x), Entry(2, 1, x)]
  }

  lemma TwoEntries(c: Cluster, b: Id, f: Id, m: Mail, x: Command) returns (events: seq<Event>, d: Cluster)
    requires b in c.nodes && f in c.nodes && b != f && c.ballots == map[] && m in c.mail
    requires c.nodes[b].role == Leader && c.nodes[b].term == 2 && c.nodes[b].log == c.nodes[f].log == []
    ensures Leads(c, events, d) && d.nodes.Keys == c.nodes.Keys && Followed(d, b, f, m, x)
  {
    hide Leads, Splice, LeadersKeep;
    var c1 := Proposes(c, b, x);
    var c2 := Proposes(c1, b, x);
    var c3 := Sends(c2, b);
    d := Hears(c3, f, Mail(c2.nodes[b].log, -1, 2));
    SpliceOnEmpty(c2.nodes[b].log);
    var send, hear := Send(b, -1, |c2.nodes[b].log|), Receive(f, Mail(c2.nodes[b].log, -1, 2), -1);
    events := [ProposeAt(b, x)] + [ProposeAt(b, x)] + [send] + [hear];
    LeadsTwice(c, [ProposeAt(b, x)], c1, [ProposeAt(b, x)], c2, [send], c3);
    LeadsJoins(c, [ProposeAt(b, x)] + [ProposeAt(b, x)] + [send], c3, [hear], d);
  }

  lemma SecondReign(c: Cluster, a: Id, b: Id, f: Id, m: Mail, x: Command) returns (events: seq<Event>, d: Cluster)
    requires ElectionInv(c) && Sent(c, a, m, x) && b in c.nodes && f in c.nodes && a != b && a != f && b != f
    ensures Leads(c, events, d) && d.nodes.Keys == c.nodes.Keys && Followed(d, b, f, m, x)
  {
    var camp := c.nodes.Keys - {a, b};
    SecondCamp(c, a, b, f, m, x, camp);
    hide *;
    var es, c1 := Elect(c, b, camp, 2);
    ChosenFacts(c, c1, a, b, f, m, x, camp);
    var fs;
    fs, d := TwoEntries(c1, b, f, m, x);
    events := es + fs;
    LeadsJoins(c, es, c1, fs, d);
  }

  lemma SecondCamp(c: Cluster, a: Id, b: Id, f: Id, m: Mail, x: Command, camp: set<Id>)
    requires Sent(c, a, m, x) && b in c.nodes && f in c.nodes && a != b && a != f && b != f && camp == c.nodes.Keys - {a, b}
    ensures MayStand(c, b, camp, 2)
  {
    OthersSize(c, {a, b});
    SubsetSize({a, b, f}, c.nodes.Keys);
    assert |c.nodes.Keys| == |c.nodes|;
  }

  lemma ChosenFacts(c: Cluster, d: Cluster, a: Id, b: Id, f: Id, m: Mail, x: Command, camp: set<Id>)
    requires Sent(c, a, m, x) && f in c.nodes && a != b && b != f && f != a && camp == c.nodes.Keys - {a, b} && Chosen(c, d, b, camp, 2)
    ensures b in d.nodes && f in d.nodes && d.ballots == map[] && m in d.mail && d.nodes.Keys == c.nodes.Keys
    ensures d.nodes[b].role == Leader && d.nodes[b].term == 2 && d.nodes[b].log == d.nodes[f].log == []
  {
    assert f in camp && b in d.nodes.Keys && f in d.nodes.Keys;
  }

  lemma SpliceOnEmpty(log: Log)
    ensures Splice([], 0, log) == log
  {
    if log != [] {
      assert Put([], 0, log[0]) == [log[0]];
      SpliceBehind([log[0]], log[1..]);
    }
  }

  lemma {:induction false} SpliceBehind(log: Log, more: Log)
    ensures Splice(log, |log|, more) == log + more
    decreases |more|
  {
    if more == [] {
      assert log + more == log;
    } else {
      SpliceBehind(log + [more[0]], more[1..]);
      assert log + [more[0]] + more[1..] == log + more;
    }
  }

  lemma LateMessage(c: Cluster, b: Id, f: Id, m: Mail, x: Command) returns (events: seq<Event>, d: Cluster)
    requires Followed(c, b, f, m, x) && m == Mail([Entry(1, 0, x)], -1, 1)
    ensures Leads(c, events, d) && d.nodes.Keys == c.nodes.Keys && !AllMatch(d)
  {
    var c1 := Hears(c, b, m);
    assert Put(c.nodes[b].log, 0, m.basis[0]) == m.basis;
    assert m.basis[1..] == [];
    assert Splice(c.nodes[b].log, 0, m.basis) == m.basis;
    d := Proposes(c1, b, x);
    events := [Receive(b, m, -1)] + [ProposeAt(b, x)];
    hide Leads;
    LeadsJoins(c, [Receive(b, m, -1)], c1, [ProposeAt(b, x)], d);
    var p, q := d.nodes[b].log, d.nodes[f].log;
    assert p == [Entry(1, 0, x), Entry(2, 1, x)] && q == [Entry(2, 0, x), Entry(2, 1, x)];
    assert p[..2][0] != q[..2][0];
    assert !MatchAt(p, q, 1);
  }

  /** In every cluster of three or more nodes: a message that an earlier leader sent and that reaches
      a later one ends matching. */
  lemma LateMessageDiverges(c: Cluster) returns (states: seq<Cluster>, events: seq<Event>)
    requires Blank(c) && |c.nodes| >= 3
    ensures RunFrom(c, states, events) && !AlwaysMatch(states)
  {
    var a, b, f := ThreeOf(c.nodes.Keys);
    var x := Command("run", Archive);
    var es, c1, m := FirstReign(c, a, x);
    var fs, c2 := SecondReign(c1, a, b, f, m, x);
    var gs, d := LateMessage(c2, b, f, m, x);
    LeadsTwice(c, es, c1, fs, c2, gs, d);
    events := es + fs + gs;
    states := Trace(c, events, d);
    hide Leads, AllMatch;
    assert !AllMatch(states[|events|]);
  }

  lemma ThreeOf(ids: set<Id>) returns (a: Id, b: Id, f: Id)
    requires |ids| >= 3
    ensures a in ids && b in ids && f in ids && a != b && a != f && b != f
  {
    a :| a in ids;
    assert |ids - {a}| >= 2;
    b :| b in ids - {a};
    assert |ids - {a} - {b}| >= 1;
    f :| f in ids - {a} - {b};
  }

  // ---------- two leaders of one term ----------

  lemma QuietlyAppends(states: seq<Cluster>, events: seq<Event>)
    requires Run(states, events) && Quietly(events)
    ensures AppendOnly(states)
  {
    forall k | 0 <= k < |states| - 1 ensures LeadersKeep(states[k], states[k + 1]) {
      hide Enabled, Do, LeadersKeep;
      assert Enabled(states[k], events[k]) && events[k] in events;
      QuietlyKeeps(states[k], events[k]);
    }
  }

  lemma TwoReigns(c: Cluster, a: Id, b: Id) returns (events: seq<Event>, d: Cluster)
    requires a in c.nodes && b in c.nodes && a != b && c.nodes[a].role == c.nodes[b].role == Leader
    requires c.nodes[a].term == c.nodes[b].term && c.nodes[a].log == c.nodes[b].log == []
    ensures Leads(c, events, d) && Quietly(events) && !AllMatch(d)
  {
    var x, y := Command("run", Archive), Command("run", Unknown);
    hide Leads, Quietly, LeadersKeep, Matching;
    var c1 := Proposes(c, a, x);
    d := Proposes(c1, b, y);
    events := [ProposeAt(a, x)] + [ProposeAt(b, y)];
    LeadsJoins(c, [ProposeAt(a, x)], c1, [ProposeAt(b, y)], d);
    QuietOne(ProposeAt(a, x));
    QuietOne(ProposeAt(b, y));
    QuietlyJoins([ProposeAt(a, x)], [ProposeAt(b, y)]);
    Mismatch(Entry(c.nodes[a].term, 0, x), Entry(c.nodes[a].term, 0, y));
    assert d.nodes[a].log == [Entry(c.nodes[a].term, 0, x)] && d.nodes[b].log == [Entry(c.nodes[a].term, 0, y)];
  }

  lemma Mismatch(e: Entry, f: Entry)
    requires e.term == f.term && e != f
    ensures !Matching([e], [f])
  {
    assert [e][..1][0] != [f][..1][0];
    assert !MatchAt([e], [f], 0);
  }

  /** In every even cluster two leaders of one term end matching, without any message. */
  lemma EvenDiverges(c: Cluster) returns (states: seq<Cluster>, events: seq<Event>)
    requires Blank(c) && |c.nodes| % 2 == 0
    ensures RunFrom(c, states, events) && AppendOnly(states) && !AlwaysMatch(states)
  {
    var es, c1, a, b := EvenLeads(c);
    var fs, d := TwoReigns(c1, a, b);
    LeadsJoins(c, es, c1, fs, d);
    QuietlyJoins(es, fs);
    events := es + fs;
    states := Trace(c, events, d);
    assert Start(c);
    hide Leads, AllMatch, Start, Enabled, Do, LeadersKeep, Quietly;
    QuietlyAppends(states, events);
    assert !AllMatch(states[|events|]);
  }

  // ---------- when logs match ----------

  lemma OddMatches(c: Cluster, states: seq<Cluster>, events: seq<Event>)
    requires Blank(c) && |c.nodes| % 2 == 1 && RunFrom(c, states, events) && AppendOnly(states)
    ensures AlwaysMatch(states)
  {
    forall k | 0 <= k < |states| ensures AllMatch(states[k]) {
      forall i, j | i in states[k].nodes && j in states[k].nodes
        ensures Matching(states[k].nodes[i].log, states[k].nodes[j].log)
      {
        LogMatching(states, events, k, i, j);
      }
    }
  }

  /** Over all runs in which leaders keep their entries, logs match if and only if the size is odd. */
  lemma MatchExactlyWhenOdd(c: Cluster)
    requires Blank(c)
    ensures (forall states, events :: RunFrom(c, states, events) && AppendOnly(states) ==> AlwaysMatch(states))
      <==> |c.nodes| % 2 == 1
  {
    hide RunFrom, AppendOnly, AlwaysMatch, Blank;
    if |c.nodes| % 2 == 1 {
      forall states, events | RunFrom(c, states, events) && AppendOnly(states) ensures AlwaysMatch(states) {
        OddMatches(c, states, events);
      }
    } else {
      var states, events := EvenDiverges(c);
    }
  }

  lemma AloneMatches(c: Cluster, states: seq<Cluster>, events: seq<Event>)
    requires Blank(c) && |c.nodes| == 1 && RunFrom(c, states, events)
    ensures AlwaysMatch(states)
  {
    forall k | 0 <= k < |states| ensures AllMatch(states[k]) {
      hide Enabled, Do, ElectionInv;
      RunGrows(states, events, 0, k);
      var a :| a in c.nodes;
      assert |c.nodes.Keys - {a}| == 0;
      assert c.nodes.Keys == {a};
      forall i, j | i in states[k].nodes && j in states[k].nodes
        ensures Matching(states[k].nodes[i].log, states[k].nodes[j].log)
      {
        assert i == a == j;
        PrefixesMatch(states[k].nodes[i].log, states[k].nodes[j].log, states[k].nodes[i].log);
      }
    }
  }

  /** Over all runs of the code, which lets any message reach a leader, logs match if and only if
      there is but one node. */
  lemma MatchExactlyWhenAlone(c: Cluster)
    requires Blank(c)
    ensures (forall states, events :: RunFrom(c, states, events) ==> AlwaysMatch(states)) <==> |c.nodes| == 1
  {
    assert |c.nodes| >= 1;
    hide RunFrom, AlwaysMatch, Blank;
    if |c.nodes| == 1 {
      forall states, events | RunFrom(c, states, events) ensures AlwaysMatch(states) {
        AloneMatches(c, states, events);
      }
    } else if |c.nodes| == 2 {
      var states, events := EvenDiverges(c);
    } else {
      var states, events := LateMessageDiverges(c);
    }
  }
}
