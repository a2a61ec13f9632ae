/** Leader completeness (section 5.4 of the Raft paper): the runs in which no committed entry is lost. They
    are those in which nothing is granted or taken that the two fields which the handlers do not read, the
    candidate's last index and the sender's term, would have stopped. */
module RaftComplete {
  import opened RaftNode
  import opened RaftCluster
  import opened RaftElection
  import opened RaftLog

  ghost predicate Granted(c: Cluster, a: Ask)
    requires a.peer in c.nodes
  {
    Vote(c.nodes[a.peer], a.term, a.candidate, a.lastTerm).1
  }

  /** A message is taken in the term of its sender, and no log is copied. */
  ghost predicate InTerm(c: Cluster, e: Event)
    requires Enabled(c, e)
  {
    match e
    case Receive(i, m, _) => m.term == c.nodes[i].term
    case CopyLog(_, _) => false
    case _ => true
  }

  /** And a vote goes to no shorter log of the same last term. */
  ghost predicate Careful(c: Cluster, e: Event)
    requires Enabled(c, e)
  {
    && InTerm(c, e)
    && (e.AnswerVote? ==>
          var (a, log) := (e.ask, c.nodes[e.ask.peer].log);
          Granted(c, a) && a.lastTerm == LastTerm(log) ==> a.lastIndex >= |log| - 1)
  }

  /** For each term with a leader: the log it was elected with, and its log since. */
  datatype History = History(won: map<int, Log>, reign: map<int, Log>)

  ghost function Tracked(c: Cluster, e: Event, h: History): History
    requires Enabled(c, e)
  {
    match e
    case CloseElection(i) =>
      var n := c.nodes[i];
      if WinsElection(c.ballots[i].votes, |n.peers|) then History(h.won[n.term := n.log], h.reign[n.term := n.log]) else h
    case ProposeAt(i, x) =>
      var n := c.nodes[i];
      h.(reign := h.reign[n.term := n.log + [NewEntry(n, x)]])
    case _ => h
  }

  // ---------- what the history says of logs and messages ----------

  ghost predicate Sorted(log: Log) {
    forall j, k :: 0 <= j < k < |log| ==> log[j].term <= log[k].term
  }

  ghost predicate Below(log: Log, t: int) {
    forall k :: 0 <= k < |log| ==> log[k].term <= t
  }

  ghost predicate NodeOk(h: History, n: Node) {
    && Sorted(n.log) && Below(n.log, n.term)
    && (n.role == Leader ==> n.term in h.reign && h.reign[n.term] == n.log)
  }

  ghost predicate MailOk(h: History, m: Mail) {
    m.term in h.reign && m.basis <= h.reign[m.term]
  }

  ghost predicate TermOk(wins: set<Win>, h: History, t: int) {
    && (t in h.won <==> t in h.reign) && (t in h.won <==> exists w :: w in wins && w.term == t)
    && (t in h.won ==> t > 0 && h.won[t] <= h.reign[t] && Sorted(h.reign[t]) && Below(h.reign[t], t))
  }

  ghost predicate MadeIn(made: map<(int, int), Log>, h: History, t: int, k: int) {
    (t, k) in made ==>
      t in h.won && t in h.reign && |made[(t, k)]| == k + 1 && h.won[t] <= made[(t, k)] <= h.reign[t]
  }

  /** A request tells of the log its sender stands with. */
  ghost predicate AskOk(c: Cluster, a: Ask) {
    && a.candidate in c.nodes && a.term <= c.nodes[a.candidate].term
    && (a.candidate in c.ballots && c.nodes[a.candidate].term == a.term ==>
          a.lastTerm == LastTerm(c.nodes[a.candidate].log) && a.lastIndex == |c.nodes[a.candidate].log| - 1)
  }

  ghost predicate GrantFor(c: Cluster, g: Grant) {
    g.candidate in c.nodes && g.term <= c.nodes[g.candidate].term
  }

  ghost predicate NodesOk(c: Cluster, h: History) {
    forall i :: i in c.nodes ==> NodeOk(h, c.nodes[i])
  }

  ghost predicate AsksOk(c: Cluster) {
    && (forall a :: a in c.asks ==> AskOk(c, a)) && (forall g :: g in c.grants ==> GrantFor(c, g))
    && (forall i :: i in c.nodes ==> c.nodes[i].term >= 0 && (i in c.ballots ==> c.nodes[i].term > 0))
  }

  ghost predicate LogsOk(c: Cluster, h: History) {
    && (forall m :: m in c.mail ==> MailOk(h, m))
    && (forall t :: TermOk(c.wins, h, t))
    && (forall t, k :: MadeIn(c.made, h, t, k))
  }

  ghost predicate HistInv(c: Cluster, h: History) {
    NodesOk(c, h) && AsksOk(c) && LogsOk(c, h)
  }

  // ---------- single events ----------

  /** Nodes with a ballot keep their log, and terms never fall. */
  ghost predicate Stays(c: Cluster, d: Cluster) {
    && d.nodes.Keys == c.nodes.Keys
    && (forall i :: i in c.nodes ==> c.nodes[i].term <= d.nodes[i].term)
    && (forall i :: i in c.nodes && i in d.ballots && c.nodes[i].term == d.nodes[i].term ==>
          i in c.ballots && d.nodes[i].log == c.nodes[i].log)
  }

  /** A step that changes node i only. */
  lemma StaysOne(c: Cluster, d: Cluster, i: Id)
    requires i in c.nodes && i in d.nodes && d.nodes == c.nodes[i := d.nodes[i]] && c.nodes[i].term <= d.nodes[i].term
    requires forall j :: j in d.ballots && j != i ==> j in c.ballots
    requires i in d.ballots && c.nodes[i].term == d.nodes[i].term ==> i in c.ballots && d.nodes[i].log == c.nodes[i].log
    ensures Stays(c, d)
  {
  }

  lemma StaysElection(c: Cluster, e: Event)
    requires Enabled(c, e) && (e.StartElection? || e.AskPeer? || e.AnswerVote? || e.Tally? || e.CloseElection?)
    ensures Stays(c, Do(c, e))
  {
    hide Stays, Vote;
    if e.AnswerVote? {
      VoteFacts(c.nodes[e.ask.peer], e.ask.term, e.ask.candidate, e.ask.lastTerm);
      StaysOne(c, Do(c, e), e.ask.peer);
    } else {
      StaysOne(c, Do(c, e), e.i);
    }
  }

  lemma StaysOther(c: Cluster, e: Event)
    requires Enabled(c, e) && (e.ProposeAt? || e.Send? || e.Receive? || e.StepAside? || e.Elsewhere?) && BallotFree(c, e.i)
    ensures Stays(c, Do(c, e))
  {
    hide Stays, Append;
    if e.Receive? {
      AppendKeepsElection(c.nodes[e.i], e.m.basis[e.m.prev + 1..], e.m.prev, PrevTerm(e.m), e.leaderCommit);
    }
    StaysOne(c, Do(c, e), e.i);
  }

  lemma StaysStep(c: Cluster, e: Event)
    requires ElectionInv(c) && Enabled(c, e) && Careful(c, e)
    ensures Stays(c, Do(c, e))
  {
    if e.StartElection? || e.AskPeer? || e.AnswerVote? || e.Tally? || e.CloseElection? {
      hide ElectionInv, Stays, Do;
      StaysElection(c, e);
    } else {
      IsMember(c, e.i);
      hide ElectionInv, Stays, Do;
      StaysOther(c, e);
    }
  }

  lemma IsMember(c: Cluster, i: Id)
    requires ElectionInv(c) && i in c.nodes
    ensures Member(c, i) && BallotFree(c, i)
  {
    assert i in c.ballots ==> BallotOk(c, i);
  }

  /** A leader has no ballot open. */
  ghost predicate BallotFree(c: Cluster, i: Id) {
    i in c.nodes && c.nodes[i].role == Leader ==> i !in c.ballots
  }

  lemma AsksKept(c: Cluster, d: Cluster)
    requires AsksOk(c) && Stays(c, d)
    requires forall a :: a in d.asks && a !in c.asks ==> AskOk(d, a)
    requires forall g :: g in d.grants && g !in c.grants ==> GrantFor(d, g)
    ensures AsksOk(d)
  {
    forall a | a in d.asks ensures AskOk(d, a) { assert a in c.asks ==> AskOk(c, a); }
    forall g | g in d.grants ensures GrantFor(d, g) { assert g in c.grants ==> GrantFor(c, g); }
  }

  /** One node changed, and neither messages nor history did. */
  lemma OneNode(c: Cluster, d: Cluster, h: History, i: Id)
    requires NodesOk(c, h) && LogsOk(c, h) && i in c.nodes && i in d.nodes && d.nodes == c.nodes[i := d.nodes[i]]
    requires d.mail == c.mail && d.wins == c.wins && d.made == c.made && NodeOk(h, d.nodes[i])
    ensures NodesOk(d, h) && LogsOk(d, h)
  {
    hide NodeOk, MailOk, TermOk, MadeIn;
  }

  lemma StandHist(c: Cluster, h: History, i: Id)
    requires HistInv(c, h) && Enabled(c, StartElection(i)) && Member(c, i)
    requires Stays(c, Do(c, StartElection(i)))
    ensures HistInv(Do(c, StartElection(i)), h)
  {
    var d := Do(c, StartElection(i));
    assert NodeOk(h, c.nodes[i]);
    OneNode(c, d, h, i);
    hide Stays;
    AsksKept(c, d);
  }

  lemma AskHist(c: Cluster, h: History, i: Id)
    requires HistInv(c, h) && Enabled(c, AskPeer(i))
    requires Stays(c, Do(c, AskPeer(i)))
    ensures HistInv(Do(c, AskPeer(i)), h)
  {
    var d := Do(c, AskPeer(i));
    assert d.nodes == c.nodes[i := d.nodes[i]] && NodeOk(h, c.nodes[i]);
    OneNode(c, d, h, i);
    hide Stays;
    AsksKept(c, d);
  }

  lemma AnswerHist(c: Cluster, h: History, a: Ask)
    requires HistInv(c, h) && Enabled(c, AnswerVote(a))
    requires Stays(c, Do(c, AnswerVote(a)))
    ensures HistInv(Do(c, AnswerVote(a)), h)
  {
    var d := Do(c, AnswerVote(a));
    VoteFacts(c.nodes[a.peer], a.term, a.candidate, a.lastTerm);
    assert NodeOk(h, c.nodes[a.peer]) && AskOk(c, a);
    hide Vote;
    OneNode(c, d, h, a.peer);
    hide Stays;
    AsksKept(c, d);
  }

  lemma TallyHist(c: Cluster, h: History, i: Id, yes: bool)
    requires HistInv(c, h) && Enabled(c, Tally(i, yes))
    requires Stays(c, Do(c, Tally(i, yes)))
    ensures HistInv(Do(c, Tally(i, yes)), h)
  {
    var d := Do(c, Tally(i, yes));
    assert d.nodes == c.nodes[i := d.nodes[i]] && NodeOk(h, c.nodes[i]);
    OneNode(c, d, h, i);
    hide Stays;
    AsksKept(c, d);
  }

  /** A step that lets node i keep its term and log, and its role unless it loses it. */
  lemma SameHist(c: Cluster, d: Cluster, h: History, i: Id)
    requires HistInv(c, h) && i in c.nodes && i in d.nodes && d == c.(nodes := c.nodes[i := d.nodes[i]])
    requires d.nodes[i].log == c.nodes[i].log && d.nodes[i].term == c.nodes[i].term
    requires d.nodes[i].role == Leader ==> c.nodes[i].role == Leader
    requires Stays(c, d)
    ensures HistInv(d, h)
  {
    assert NodeOk(h, c.nodes[i]);
    OneNode(c, d, h, i);
    hide Stays;
    AsksKept(c, d);
  }

  lemma PrefixOf(a: Log, b: Log, t: int)
    requires a <= b && Sorted(b) && Below(b, t)
    ensures Sorted(a) && Below(a, t)
  {
    forall k | 0 <= k < |a| ensures a[k] == b[k] {}
  }

  lemma SendHist(c: Cluster, h: History, i: Id, prev: Index, upto: nat)
    requires HistInv(c, h) && Enabled(c, Send(i, prev, upto))
    requires Stays(c, Do(c, Send(i, prev, upto)))
    ensures HistInv(Do(c, Send(i, prev, upto)), h)
  {
    var d := Do(c, Send(i, prev, upto));
    assert NodeOk(h, c.nodes[i]);
    hide NodeOk, TermOk, MadeIn;
    hide Stays;
    AsksKept(c, d);
    assert c.nodes[i].log[..upto] <= c.nodes[i].log;
  }

  /** What a node ends with that takes a message in its own term. */
  lemma HeardLog(c: Cluster, h: History, i: Id, m: Mail, leaderCommit: Index)
    requires HistInv(c, h) && LogInv(c) && Enabled(c, Receive(i, m, leaderCommit)) && m.term == c.nodes[i].term
    ensures var (n, after) := (c.nodes[i], Append(c.nodes[i], m.basis[m.prev + 1..], m.prev, PrevTerm(m), leaderCommit).0);
      && (after.log == n.log || after.log == Longer(n.log, m.basis)) && SameElection(n, after)
      && (n.role == Leader ==> after.log == n.log)
      && NodeOk(h, after)
  {
    var n := c.nodes[i];
    NodeTraced(c, i);
    MailTraced(c, m);
    TracedMatch(c.made, n.log, m.basis);
    assert NodeOk(h, n) && MailOk(h, m) && TermOk(c.wins, h, m.term);
    hide Traced, Matching, HistInv, LogInv, TermOk;
    AppendResult(n, m, leaderCommit);
    AppendKeepsElection(n, m.basis[m.prev + 1..], m.prev, PrevTerm(m), leaderCommit);
    hide Append;
    assert Sorted(h.reign[m.term]) && Below(h.reign[m.term], m.term) by { TermSorted(c, h, m.term); }
    PrefixOf(m.basis, h.reign[m.term], m.term);
  }

  lemma TermSorted(c: Cluster, h: History, t: int)
    requires TermOk(c.wins, h, t) && t in h.reign
    ensures t in h.won && h.won[t] <= h.reign[t] && Sorted(h.reign[t]) && Below(h.reign[t], t)
  {
  }

  lemma ReceiveOnly(c: Cluster, i: Id, m: Mail, leaderCommit: Index)
    requires Enabled(c, Receive(i, m, leaderCommit))
    ensures i in c.nodes && m.prev < |m.basis|
    ensures var after := Append(c.nodes[i], m.basis[m.prev + 1..], m.prev, PrevTerm(m), leaderCommit).0;
      Do(c, Receive(i, m, leaderCommit)) == c.(nodes := c.nodes[i := after])
  {
    hide Append;
  }

  lemma ReceiveHist(c: Cluster, h: History, i: Id, m: Mail, leaderCommit: Index)
    requires HistInv(c, h) && LogInv(c) && Enabled(c, Receive(i, m, leaderCommit)) && m.term == c.nodes[i].term
    requires Stays(c, Do(c, Receive(i, m, leaderCommit)))
    ensures var d := Do(c, Receive(i, m, leaderCommit)); HistInv(d, h) && LeadersKeep(c, d)
  {
    var d := Do(c, Receive(i, m, leaderCommit));
    ReceiveOnly(c, i, m, leaderCommit);
    HeardLog(c, h, i, m, leaderCommit);
    hide Append, NodeOk, LogInv, Stays, NodesOk, AsksOk, LogsOk, Longer, Do, Enabled;
    OneNode(c, d, h, i);
    AsksKept(c, d);
  }

  // ---------- elections and proposals ----------

  /** A leader of the term is known to the history. */
  lemma LeaderTerm(c: Cluster, h: History, i: Id)
    requires ElectionInv(c) && HistInv(c, h) && i in c.nodes && c.nodes[i].role == Leader
    ensures var n := c.nodes[i]; n.term in h.won && n.term in h.reign && h.reign[n.term] == n.log && h.won[n.term] <= n.log
  {
    assert NodeOk(h, c.nodes[i]) && TermOk(c.wins, h, c.nodes[i].term);
  }

  lemma ProposeNode(h: History, h': History, n: Node, log: Log, e: Entry)
    requires NodeOk(h, n) && h' == h.(reign := h.reign[e.term := log + [e]]) && (n.role == Leader ==> n.term != e.term)
    ensures NodeOk(h', n)
  {
  }

  lemma ProposerOk(h: History, h': History, n: Node, e: Entry)
    requires NodeOk(h, n) && e.term == n.term && h' == h.(reign := h.reign[e.term := n.log + [e]])
    ensures NodeOk(h', n.(log := n.log + [e]))
  {
  }

  lemma ProposeNodes(c: Cluster, d: Cluster, h: History, h': History, i: Id, e: Entry)
    requires ElectionInv(c) && NodesOk(c, h) && |c.nodes| % 2 == 1
    requires i in c.nodes && c.nodes[i].role == Leader && e.term == c.nodes[i].term
    requires d.nodes == c.nodes[i := c.nodes[i].(log := c.nodes[i].log + [e])]
    requires h' == h.(reign := h.reign[e.term := c.nodes[i].log + [e]])
    ensures NodesOk(d, h')
  {
    forall j | j in d.nodes ensures NodeOk(h', d.nodes[j]) {
      assert NodeOk(h, c.nodes[j]);
      hide ElectionInv, NodeOk, NodesOk;
      if j == i {
        ProposerOk(h, h', c.nodes[i], e);
      } else {
        if c.nodes[j].role == Leader && c.nodes[j].term == e.term { OnlyLeader(c, i, j); }
        ProposeNode(h, h', c.nodes[j], c.nodes[i].log, e);
      }
    }
  }

  lemma ProposeLogs(c: Cluster, d: Cluster, h: History, h': History, log: Log, e: Entry)
    requires LogsOk(c, h) && e.term in h.won && e.term in h.reign && h.reign[e.term] == log && Sorted(log) && Below(log, e.term)
    requires d.mail == c.mail && d.wins == c.wins && d.made == c.made[(e.term, |log|) := log + [e]]
    requires h' == h.(reign := h.reign[e.term := log + [e]])
    ensures LogsOk(d, h')
  {
    forall m | m in d.mail ensures MailOk(h', m) {
      assert MailOk(h, m);
      assert log <= log + [e];
    }
    forall t ensures TermOk(d.wins, h', t) {
      assert TermOk(c.wins, h, t) && TermOk(c.wins, h, e.term);
    }
    forall t, k ensures MadeIn(d.made, h', t, k) {
      assert MadeIn(c.made, h, t, k) && TermOk(c.wins, h, e.term);
      assert log <= log + [e];
    }
  }

  lemma ProposeHist(c: Cluster, h: History, i: Id, x: Command)
    requires ElectionInv(c) && HistInv(c, h) && |c.nodes| % 2 == 1 && Enabled(c, ProposeAt(i, x))
    requires Stays(c, Do(c, ProposeAt(i, x)))
    ensures HistInv(Do(c, ProposeAt(i, x)), Tracked(c, ProposeAt(i, x), h))
  {
    var d, h' := Do(c, ProposeAt(i, x)), Tracked(c, ProposeAt(i, x), h);
    var e := NewEntry(c.nodes[i], x);
    assert NodeOk(h, c.nodes[i]);
    NodeSorted(h, c.nodes[i]);
    LeaderTerm(c, h, i);
    assert NodesOk(c, h) && AsksOk(c) && LogsOk(c, h);
    assert d.nodes == c.nodes[i := c.nodes[i].(log := c.nodes[i].log + [e])];
    hide ElectionInv, NodeOk, NodesOk, LogsOk, AsksOk, Stays, Sorted, Below;
    ProposeNodes(c, d, h, h', i, e);
    ProposeLogs(c, d, h, h', c.nodes[i].log, e);
    AsksKept(c, d);
  }

  lemma NodeSorted(h: History, n: Node)
    requires NodeOk(h, n)
    ensures Sorted(n.log) && Below(n.log, n.term)
  {
  }

  /** A term is won once. */
  lemma FreshTerm(c: Cluster, h: History, i: Id)
    requires ElectionInv(c) && HistInv(c, h) && |c.nodes| % 2 == 1 && Enabled(c, CloseElection(i))
    requires WinsElection(c.ballots[i].votes, |c.nodes[i].peers|)
    ensures c.nodes[i].term !in h.won && c.nodes[i].term !in h.reign
  {
    var t, d := c.nodes[i].term, Do(c, CloseElection(i));
    assert TermOk(c.wins, h, t) && BallotOk(c, i);
    StepKeeps(c, CloseElection(i));
    assert |d.nodes| == |c.nodes| by { assert d.nodes.Keys == c.nodes.Keys; }
    if w :| w in c.wins && w.term == t {
      OneWinner(d, w, Win(t, i));
    }
  }

  lemma CloseNodes(c: Cluster, d: Cluster, h: History, h': History, i: Id)
    requires ElectionInv(c) && HistInv(c, h) && i in c.nodes && c.nodes[i].term !in h.won
    requires d.nodes == c.nodes[i := c.nodes[i].(role := Leader)]
    requires h'.reign == h.reign[c.nodes[i].term := c.nodes[i].log]
    ensures NodesOk(d, h')
  {
    forall j | j in d.nodes ensures NodeOk(h', d.nodes[j]) {
      assert NodeOk(h, c.nodes[j]) && TermOk(c.wins, h, c.nodes[j].term);
      if j != i && c.nodes[j].role == Leader {
        LeaderTerm(c, h, j);
      }
      hide ElectionInv;
    }
  }

  lemma CloseLogs(c: Cluster, d: Cluster, h: History, h': History, t: int, i: Id, log: Log)
    requires LogsOk(c, h) && t > 0 && t !in h.won && t !in h.reign && Sorted(log) && Below(log, t)
    requires d.mail == c.mail && d.made == c.made && d.wins == c.wins + {Win(t, i)}
    requires h' == History(h.won[t := log], h.reign[t := log])
    ensures LogsOk(d, h')
  {
    forall m | m in d.mail ensures MailOk(h', m) { assert MailOk(h, m); }
    forall u ensures TermOk(d.wins, h', u) {
      assert TermOk(c.wins, h, u);
      assert Win(t, i) in d.wins;
    }
    forall u, k ensures MadeIn(d.made, h', u, k) { assert MadeIn(c.made, h, u, k); }
  }

  lemma CloseHist(c: Cluster, h: History, i: Id)
    requires ElectionInv(c) && HistInv(c, h) && |c.nodes| % 2 == 1 && Enabled(c, CloseElection(i))
    requires Stays(c, Do(c, CloseElection(i)))
    ensures HistInv(Do(c, CloseElection(i)), Tracked(c, CloseElection(i), h))
  {
    var d := Do(c, CloseElection(i));
    var n := c.nodes[i];
    assert NodeOk(h, n);
    NodeSorted(h, n);
    if WinsElection(c.ballots[i].votes, |n.peers|) {
      FreshTerm(c, h, i);
      CloseNodes(c, d, h, Tracked(c, CloseElection(i), h), i);
      CloseLogs(c, d, h, Tracked(c, CloseElection(i), h), n.term, i, n.log);
    } else {
      assert d.nodes == c.nodes[i := n];
      OneNode(c, d, h, i);
    }
    hide ElectionInv, NodesOk, LogsOk, NodeOk;
    hide Stays;
    AsksKept(c, d);
  }

  lemma PollHist(c: Cluster, h: History, e: Event)
    requires HistInv(c, h) && Enabled(c, e) && Stays(c, Do(c, e)) && (e.StartElection? ==> Member(c, e.i))
    requires e.StartElection? || e.AskPeer? || e.AnswerVote? || e.Tally?
    ensures HistInv(Do(c, e), Tracked(c, e, h))
  {
    hide HistInv, Stays, Do, Member, Enabled;
    match e {
      case StartElection(i) => StandHist(c, h, i);
      case AskPeer(i) => AskHist(c, h, i);
      case AnswerVote(a) => AnswerHist(c, h, a);
      case Tally(i, yes) => TallyHist(c, h, i, yes);
    }
  }

  lemma ElectionHist(c: Cluster, h: History, e: Event)
    requires ElectionInv(c) && HistInv(c, h) && |c.nodes| % 2 == 1 && Enabled(c, e) && Stays(c, Do(c, e))
    requires e.StartElection? || e.AskPeer? || e.AnswerVote? || e.Tally? || e.CloseElection?
    ensures HistInv(Do(c, e), Tracked(c, e, h))
  {
    if e.CloseElection? {
      hide *;
      CloseHist(c, h, e.i);
    } else {
      if e.StartElection? { InNodes(c, e); IsMember(c, e.i); }
      hide *;
      PollHist(c, h, e);
    }
  }

  lemma InNodes(c: Cluster, e: Event)
    requires Enabled(c, e) && e.StartElection?
    ensures e.i in c.nodes
  {
  }

  lemma AsideHist(c: Cluster, h: History, e: Event)
    requires HistInv(c, h) && Enabled(c, e) && Stays(c, Do(c, e)) && (e.StepAside? || e.Elsewhere?)
    ensures HistInv(Do(c, e), h)
  {
    hide HistInv, Stays;
    SameHist(c, Do(c, e), h, e.i);
  }

  lemma OtherHist(c: Cluster, h: History, e: Event)
    requires ElectionInv(c) && LogInv(c) && HistInv(c, h) && |c.nodes| % 2 == 1 && Enabled(c, e) && Stays(c, Do(c, e))
    requires Careful(c, e) && (e.ProposeAt? || e.Send? || e.Receive? || e.StepAside? || e.Elsewhere?)
    ensures HistInv(Do(c, e), Tracked(c, e, h))
  {
    hide ElectionInv, LogInv, HistInv, Stays, Do;
    match e {
      case ProposeAt(i, x) => ProposeHist(c, h, i, x);
      case Send(i, prev, upto) => SendHist(c, h, i, prev, upto);
      case Receive(i, m, leaderCommit) => ReceiveHist(c, h, i, m, leaderCommit);
      case _ => AsideHist(c, h, e);
    }
  }

  lemma ReceiveKeeps(c: Cluster, h: History, e: Event)
    requires HistInv(c, h) && LogInv(c) && Enabled(c, e) && Careful(c, e) && Stays(c, Do(c, e)) && e.Receive?
    ensures LeadersKeep(c, Do(c, e))
  {
    hide HistInv, LogInv, Stays, Do, LeadersKeep;
    ReceiveHist(c, h, e.i, e.m, e.leaderCommit);
  }

  lemma NoCopy(c: Cluster, e: Event)
    requires Enabled(c, e) && Careful(c, e)
    ensures !e.CopyLog?
  {
  }

  lemma HistKept(c: Cluster, h: History, e: Event)
    requires ElectionInv(c) && LogInv(c) && HistInv(c, h) && |c.nodes| % 2 == 1 && Enabled(c, e) && Careful(c, e)
    requires Stays(c, Do(c, e))
    ensures HistInv(Do(c, e), Tracked(c, e, h))
  {
    NoCopy(c, e);
    hide *;
    if e.StartElection? || e.AskPeer? || e.AnswerVote? || e.Tally? || e.CloseElection? {
      ElectionHist(c, h, e);
    } else {
      OtherHist(c, h, e);
    }
  }

  /** A careful step keeps the history right, and takes no entries from a leader. */
  lemma HistStep(c: Cluster, h: History, e: Event)
    requires ElectionInv(c) && LogInv(c) && HistInv(c, h) && |c.nodes| % 2 == 1 && Enabled(c, e) && Careful(c, e)
    ensures HistInv(Do(c, e), Tracked(c, e, h)) && LeadersKeep(c, Do(c, e))
  {
    NoCopy(c, e);
    hide *;
    StaysStep(c, e);
    HistKept(c, h, e);
    if e.Receive? {
      ReceiveKeeps(c, h, e);
    } else {
      QuietlyKeeps(c, e);
    }
  }
}
