/** What a quorum has acknowledged in a term stays in the log of every later leader, over all careful runs of
    an odd cluster: leader completeness and the agreement of committed logs. */
module RaftKept {
  import opened RaftNode
  import opened RaftCluster
  import opened RaftElection
  import opened RaftLog
  import opened RaftComplete

  /** The term of the last entry. */
  function Made(log: Log): int
    requires log != []
  {
    log[|log| - 1].term
  }

  /** The node holds the log, and has come no further than its last term. */
  ghost predicate Acked(c: Cluster, p: Id, log: Log)
    requires log != []
  {
    p in c.nodes && c.nodes[p].term <= Made(log) && log <= c.nodes[p].log
  }

  /** Those that did so at some moment up to now. */
  ghost function Ackers(states: seq<Cluster>, log: Log, s: nat): set<Id>
    requires s < |states| && log != []
  {
    (set p | p in states[s].nodes && Acked(states[s], p, log)) + if s == 0 then {} else Ackers(states, log, s - 1)
  }

  ghost predicate Committed(states: seq<Cluster>, log: Log, s: nat)
    requires s < |states|
  {
    log != [] && |Ackers(states, log, s)| >= (|states[s].nodes| - 1) / 2 + 1
  }

  // ---------- the invariant for one log ----------

  ghost predicate LaterHold(h: History, log: Log)
    requires log != []
  {
    forall t :: t in h.won && t > Made(log) ==> log <= h.won[t]
  }

  ghost predicate AckersHold(c: Cluster, log: Log, ackers: set<Id>) {
    forall p :: p in ackers ==> p in c.nodes && log <= c.nodes[p].log
  }

  /** Whoever voted for a candidate in a later term that is still counting, after acknowledging. */
  ghost predicate VoteHolds(c: Cluster, log: Log, ackers: set<Id>, g: Grant)
    requires log != []
  {
    (g.term > Made(log) && g.voter in ackers && g.candidate in c.nodes && g.candidate in c.ballots
      && c.nodes[g.candidate].term == g.term) ==> log <= c.nodes[g.candidate].log
  }

  ghost predicate VotesHold(c: Cluster, log: Log, ackers: set<Id>)
    requires log != []
  {
    forall g :: g in c.grants ==> VoteHolds(c, log, ackers, g)
  }

  ghost predicate Base(c: Cluster, h: History) {
    ElectionInv(c) && LogInv(c) && HistInv(c, h) && |c.nodes| % 2 == 1
  }

  ghost predicate KeptInv(c: Cluster, h: History, log: Log, ackers: set<Id>) {
    && log != [] && LaterHold(h, log) && AckersHold(c, log, ackers) && VotesHold(c, log, ackers)
    && forall p :: p in c.nodes && Acked(c, p, log) ==> p in ackers
  }

  // ---------- a candidate covers its voters ----------

  lemma Comparable(a: Log, b: Log, log: Log)
    requires a <= log && b <= log
    ensures a <= b || b <= a
  {
  }

  /** Two logs that end in one term: the shorter is a prefix. */
  lemma SameTermPrefix(c: Cluster, h: History, a: Log, b: Log)
    requires HistInv(c, h) && Traced(c.made, a) && Traced(c.made, b)
    requires a != [] && b != [] && Made(a) == Made(b) && |a| <= |b|
    ensures a <= b
  {
    var t := Made(a);
    assert TracedAt(c.made, a, |a| - 1) && TracedAt(c.made, b, |b| - 1);
    assert a[..|a| - 1 + 1] == a && b[..|b| - 1 + 1] == b;
    assert MadeIn(c.made, h, t, |a| - 1) && MadeIn(c.made, h, t, |b| - 1);
    hide HistInv, Traced;
    Comparable(a, b, h.reign[t]);
  }

  /** A log that ends in a later term goes back to a leader that was elected with this one. */
  lemma LaterTermHolds(c: Cluster, h: History, log: Log, b: Log)
    requires HistInv(c, h) && Traced(c.made, b) && log != [] && LaterHold(h, log) && b != [] && Made(b) > Made(log)
    ensures log <= b
  {
    assert TracedAt(c.made, b, |b| - 1) && b[..|b| - 1 + 1] == b;
    assert MadeIn(c.made, h, Made(b), |b| - 1);
  }

  lemma LastAbove(log: Log, a: Log)
    requires log != [] && log <= a && Sorted(a)
    ensures Made(log) <= Made(a)
  {
    assert a[|log| - 1] == log[|log| - 1];
  }

  lemma MadePositive(c: Cluster, h: History, a: Log)
    requires HistInv(c, h) && Traced(c.made, a) && a != []
    ensures Made(a) > 0
  {
    assert TracedAt(c.made, a, |a| - 1);
    assert MadeIn(c.made, h, Made(a), |a| - 1) && TermOk(c.wins, h, Made(a));
  }

  /** A log at least as up to date as one that holds log holds it too. */
  lemma Covers(c: Cluster, h: History, log: Log, a: Log, b: Log)
    requires HistInv(c, h) && Traced(c.made, a) && Traced(c.made, b) && Sorted(a)
    requires log != [] && LaterHold(h, log) && log <= a
    requires LastTerm(b) >= LastTerm(a) && (LastTerm(b) == LastTerm(a) ==> |b| >= |a|)
    ensures log <= b
  {
    LastAbove(log, a);
    MadePositive(c, h, a);
    hide HistInv, Traced, LaterHold;
    if Made(b) > Made(log) {
      LaterTermHolds(c, h, log, b);
    } else {
      SameTermPrefix(c, h, a, b);
    }
  }

  // ---------- the steps ----------

  /** A vote given before this step. */
  lemma OldVote(c: Cluster, d: Cluster, log: Log, ackers: set<Id>, more: set<Id>, g: Grant)
    requires log != [] && Stays(c, d) && g in c.grants && GrantOk(c, g) && GrantFor(c, g) && VoteHolds(c, log, ackers, g)
    requires forall p :: p in more ==> p in ackers || Acked(d, p, log)
    ensures VoteHolds(d, log, more, g)
  {
  }

  lemma NewVote(c: Cluster, h: History, log: Log, ackers: set<Id>, a: Ask)
    requires Base(c, h) && KeptInv(c, h, log, ackers) && Enabled(c, AnswerVote(a)) && Careful(c, AnswerVote(a))
    requires Granted(c, a) && a in c.asks && a.peer in ackers
    requires a.candidate in c.nodes && a.candidate in c.ballots && c.nodes[a.candidate].term == a.term
    ensures log <= c.nodes[a.candidate].log
  {
    var v, n := c.nodes[a.peer], c.nodes[a.candidate];
    assert AskOk(c, a) && NodeOk(h, v);
    NodeTraced(c, a.peer);
    NodeTraced(c, a.candidate);
    GrantCompares(v, a);
    hide ElectionInv, LogInv, HistInv, Traced, Vote, LaterHold, VotesHold;
    Covers(c, h, log, v.log, n.log);
  }

  lemma GrantCompares(n: Node, a: Ask)
    requires Vote(n, a.term, a.candidate, a.lastTerm).1
    ensures a.lastTerm >= LastTerm(n.log)
  {
  }

  lemma VotesStep(c: Cluster, h: History, log: Log, ackers: set<Id>, more: set<Id>, e: Event)
    requires Base(c, h) && KeptInv(c, h, log, ackers) && Enabled(c, e) && Careful(c, e)
    requires forall p :: p in more ==> p in ackers || Acked(Do(c, e), p, log)
    ensures VotesHold(Do(c, e), log, more)
  {
    var d := Do(c, e);
    StaysStep(c, e);
    forall g | g in d.grants ensures VoteHolds(d, log, more, g) {
      if g in c.grants {
        assert GrantOk(c, g) && GrantFor(c, g) && VoteHolds(c, log, ackers, g);
        hide *;
        OldVote(c, d, log, ackers, more, g);
      } else {
        NewVoteHolds(c, h, log, ackers, more, e, g);
      }
    }
  }

  lemma OwnVoteHolds(c: Cluster, log: Log, ackers: set<Id>, more: set<Id>, i: Id)
    requires log != [] && AckersHold(c, log, ackers) && Enabled(c, StartElection(i)) && c.nodes[i].id == i
    requires forall p :: p in more ==> p in ackers || Acked(Do(c, StartElection(i)), p, log)
    ensures VoteHolds(Do(c, StartElection(i)), log, more, Grant(i, c.nodes[i].term + 1, i))
  {
  }

  lemma AnswerHolds(c: Cluster, h: History, log: Log, ackers: set<Id>, more: set<Id>, a: Ask)
    requires Base(c, h) && KeptInv(c, h, log, ackers) && Enabled(c, AnswerVote(a)) && Careful(c, AnswerVote(a))
    requires forall p :: p in more ==> p in ackers || Acked(Do(c, AnswerVote(a)), p, log)
    requires Granted(c, a)
    ensures VoteHolds(Do(c, AnswerVote(a)), log, more, Grant(a.peer, a.term, a.candidate))
  {
    var d := Do(c, AnswerVote(a));
    assert a in c.asks && AskOk(c, a);
    VoteFacts(c.nodes[a.peer], a.term, a.candidate, a.lastTerm);
    hide Base, KeptInv, Vote;
    if a.term > Made(log) && a.peer in more && a.candidate in d.ballots && d.nodes[a.candidate].term == a.term {
      assert !Acked(d, a.peer, log);
      NewVote(c, h, log, ackers, a);
    }
  }

  lemma NewGrants(c: Cluster, e: Event, g: Grant)
    requires Enabled(c, e) && g in Do(c, e).grants && g !in c.grants
    ensures (e.StartElection? && g == Grant(e.i, c.nodes[e.i].term + 1, e.i))
         || (e.AnswerVote? && Granted(c, e.ask) && g == Grant(e.ask.peer, e.ask.term, e.ask.candidate))
  {
    hide Vote, Append;
  }

  lemma NewVoteHolds(c: Cluster, h: History, log: Log, ackers: set<Id>, more: set<Id>, e: Event, g: Grant)
    requires Base(c, h) && KeptInv(c, h, log, ackers) && Enabled(c, e) && Careful(c, e)
    requires forall p :: p in more ==> p in ackers || Acked(Do(c, e), p, log)
    requires g in Do(c, e).grants && g !in c.grants
    ensures VoteHolds(Do(c, e), log, more, g)
  {
    NewGrants(c, e, g);
    assert AckersHold(c, log, ackers) && log != [];
    if e.StartElection? { OwnId(c, h, e.i); }
    hide Base, KeptInv, VoteHolds, Acked, AckersHold, Do;
    if e.StartElection? {
      OwnVoteHolds(c, log, ackers, more, e.i);
    } else {
      AnswerHolds(c, h, log, ackers, more, e.ask);
    }
  }

  lemma OwnId(c: Cluster, h: History, i: Id)
    requires Base(c, h) && i in c.nodes
    ensures c.nodes[i].id == i
  {
    assert Member(c, i);
  }

  /** A message taken in the term of its sender takes nothing away. */
  lemma HeardHolds(c: Cluster, h: History, log: Log, ackers: set<Id>, i: Id, m: Mail, leaderCommit: Index)
    requires Base(c, h) && KeptInv(c, h, log, ackers) && i in ackers
    requires Enabled(c, Receive(i, m, leaderCommit)) && Careful(c, Receive(i, m, leaderCommit))
    ensures log <= Append(c.nodes[i], m.basis[m.prev + 1..], m.prev, PrevTerm(m), leaderCommit).0.log
  {
    HeardLog(c, h, i, m, leaderCommit);
    assert MailOk(h, m);
    SenderHolds(c, h, log, ackers, i);
    hide Append, Base, KeptInv;
    Comparable(log, m.basis, h.reign[m.term]);
  }

  /** The leader of the term of a node that holds log holds it. */
  lemma SenderHolds(c: Cluster, h: History, log: Log, ackers: set<Id>, i: Id)
    requires Base(c, h) && KeptInv(c, h, log, ackers) && i in ackers && c.nodes[i].term in h.reign
    ensures log <= c.nodes[i].log && log <= h.reign[c.nodes[i].term]
  {
    var n := c.nodes[i];
    assert TermOk(c.wins, h, n.term) && NodeOk(h, n);
    assert n.log[|log| - 1] == log[|log| - 1];
    NodeTraced(c, i);
    assert TracedAt(c.made, n.log, |log| - 1);
    assert n.log[..|log| - 1 + 1] == log;
    assert MadeIn(c.made, h, Made(log), |log| - 1);
  }

  lemma AckersStep(c: Cluster, h: History, log: Log, ackers: set<Id>, more: set<Id>, e: Event)
    requires Base(c, h) && KeptInv(c, h, log, ackers) && Enabled(c, e) && Careful(c, e)
    requires forall p :: p in more ==> p in ackers || Acked(Do(c, e), p, log)
    ensures AckersHold(Do(c, e), log, more)
  {
    var d := Do(c, e);
    forall p | p in more ensures p in d.nodes && log <= d.nodes[p].log {
      if p in ackers {
        OneHolds(c, h, log, ackers, e, p);
      }
    }
  }

  lemma LogGrows(c: Cluster, e: Event, p: Id)
    requires Enabled(c, e) && !e.Receive? && !e.CopyLog? && p in c.nodes
    ensures p in Do(c, e).nodes && c.nodes[p].log <= Do(c, e).nodes[p].log
  {
    hide Vote, Append;
    if e.AnswerVote? {
      VoteFacts(c.nodes[e.ask.peer], e.ask.term, e.ask.candidate, e.ask.lastTerm);
    }
  }

  lemma HearerHolds(c: Cluster, d: Cluster, h: History, log: Log, ackers: set<Id>, i: Id, m: Mail, leaderCommit: Index, p: Id)
    requires Base(c, h) && KeptInv(c, h, log, ackers) && p in ackers && p in c.nodes && log <= c.nodes[p].log
    requires Enabled(c, Receive(i, m, leaderCommit)) && Careful(c, Receive(i, m, leaderCommit))
    requires d == Do(c, Receive(i, m, leaderCommit))
    ensures p in d.nodes && log <= d.nodes[p].log
  {
    ReceiveOnly(c, i, m, leaderCommit);
    if i == p { HeardHolds(c, h, log, ackers, p, m, leaderCommit); }
    hide *;
  }

  lemma OneHolds(c: Cluster, h: History, log: Log, ackers: set<Id>, e: Event, p: Id)
    requires Base(c, h) && KeptInv(c, h, log, ackers) && Enabled(c, e) && Careful(c, e) && p in ackers
    ensures p in Do(c, e).nodes && log <= Do(c, e).nodes[p].log
  {
    assert p in c.nodes && log <= c.nodes[p].log;
    hide Base, KeptInv, Do;
    if e.Receive? {
      HearerHolds(c, Do(c, e), h, log, ackers, e.i, e.m, e.leaderCommit, p);
    } else {
      LogGrows(c, e, p);
    }
  }

  // ---------- the winner ----------

  lemma Overlap<T>(a: set<T>, b: set<T>, all: set<T>) returns (x: T)
    requires a <= all && b <= all && |a| + |b| > |all|
    ensures x in a && x in b
  {
    if a !! b {
      DisjointSize(a, b, all);
    }
    x :| x in a && x in b;
  }

  /** The votes that make a winner and any quorum share a node. */
  lemma SharedVoter(c: Cluster, quorum: set<Id>, i: Id) returns (v: Id)
    requires ElectionInv(c) && |c.nodes| % 2 == 1 && Enabled(c, CloseElection(i))
    requires WinsElection(c.ballots[i].votes, |c.nodes[i].peers|)
    requires quorum <= c.nodes.Keys && |quorum| >= (|c.nodes| - 1) / 2 + 1
    ensures v in quorum && v in c.ballots[i].voters
  {
    assert BallotOk(c, i) && Member(c, i);
    PeerCount(c, i);
    VotersIn(c, i);
    assert |c.nodes.Keys| == |c.nodes|;
    var voters := c.ballots[i].voters;
    assert |voters| == c.ballots[i].votes;
    hide *;
    v := Overlap(voters, quorum, c.nodes.Keys);
  }

  lemma WinnerHolds(c: Cluster, h: History, log: Log, ackers: set<Id>, quorum: set<Id>, i: Id)
    requires Base(c, h) && KeptInv(c, h, log, ackers) && Enabled(c, CloseElection(i))
    requires WinsElection(c.ballots[i].votes, |c.nodes[i].peers|) && c.nodes[i].term > Made(log)
    requires quorum <= c.nodes.Keys && |quorum| >= (|c.nodes| - 1) / 2 + 1
    requires forall p :: p in quorum ==> p in ackers || c.nodes[p].term <= Made(log)
    ensures log <= c.nodes[i].log
  {
    var v := SharedVoter(c, quorum, i);
    var g := Grant(v, c.nodes[i].term, i);
    assert BallotOk(c, i);
    assert g in c.grants && GrantOk(c, g);
    assert VoteHolds(c, log, ackers, g);
    hide Base, KeptInv, BallotOk;
  }

  lemma VotersIn(c: Cluster, i: Id)
    requires ElectionInv(c) && i in c.ballots
    ensures c.ballots[i].voters <= c.nodes.Keys
  {
    assert BallotOk(c, i);
    forall v | v in c.ballots[i].voters ensures v in c.nodes.Keys {
      assert GrantOk(c, Grant(v, c.nodes[i].term, i));
    }
  }

  lemma LaterStep(c: Cluster, h: History, log: Log, ackers: set<Id>, quorum: set<Id>, e: Event)
    requires Base(c, h) && KeptInv(c, h, log, ackers) && Enabled(c, e)
    requires quorum <= c.nodes.Keys && |quorum| >= (|c.nodes| - 1) / 2 + 1
    requires forall p :: p in quorum ==> p in ackers || c.nodes[p].term <= Made(log)
    ensures LaterHold(Tracked(c, e, h), log)
  {
    if e.CloseElection? && WinsElection(c.ballots[e.i].votes, |c.nodes[e.i].peers|) && c.nodes[e.i].term > Made(log) {
      WinnerHolds(c, h, log, ackers, quorum, e.i);
    }
    assert LaterHold(h, log);
    hide Base, KeptInv;
  }

  lemma KeptStep(c: Cluster, h: History, log: Log, ackers: set<Id>, more: set<Id>, quorum: set<Id>, e: Event)
    requires Base(c, h) && KeptInv(c, h, log, ackers) && Enabled(c, e) && Careful(c, e)
    requires quorum <= c.nodes.Keys && |quorum| >= (|c.nodes| - 1) / 2 + 1
    requires forall p :: p in quorum ==> p in ackers || c.nodes[p].term <= Made(log)
    requires more == (set p | p in Do(c, e).nodes && Acked(Do(c, e), p, log)) + ackers
    ensures KeptInv(Do(c, e), Tracked(c, e, h), log, more)
  {
    LaterStep(c, h, log, ackers, quorum, e);
    VotesStep(c, h, log, ackers, more, e);
    AckersStep(c, h, log, ackers, more, e);
    hide Base, LaterHold, VotesHold, AckersHold;
  }

  // ---------- whole runs ----------

  ghost function HistoryAt(states: seq<Cluster>, events: seq<Event>, s: nat): History
    requires Run(states, events) && s < |states|
  {
    if s == 0 then History(map[], map[]) else Tracked(states[s - 1], events[s - 1], HistoryAt(states, events, s - 1))
  }

  /** From empty logs in an odd cluster, with careful events only. */
  ghost predicate CarefulRun(states: seq<Cluster>, events: seq<Event>) {
    && Run(states, events) && |states[0].nodes| % 2 == 1
    && (forall i :: i in states[0].nodes ==> states[0].nodes[i].log == [])
    && forall k :: 0 <= k < |events| ==> Careful(states[k], events[k])
  }

  lemma BaseStep(c: Cluster, h: History, e: Event)
    requires Base(c, h) && Enabled(c, e) && Careful(c, e)
    ensures Base(Do(c, e), Tracked(c, e, h))
  {
    hide ElectionInv, LogInv, HistInv;
    HistStep(c, h, e);
    StepKeeps(c, e);
    LogStep(c, e);
    StepGrows(c, e);
    hide *;
    SameCount(c, Do(c, e));
  }

  lemma SameCount(c: Cluster, d: Cluster)
    requires Later(c, d)
    ensures |d.nodes| == |c.nodes| && d.nodes.Keys == c.nodes.Keys
  {
    assert |d.nodes.Keys| == |d.nodes| && |c.nodes.Keys| == |c.nodes|;
  }

  lemma BaseStarts(c: Cluster)
    requires Start(c) && |c.nodes| % 2 == 1 && forall i :: i in c.nodes ==> c.nodes[i].log == []
    ensures Base(c, History(map[], map[]))
  {
    StartHolds(c);
    StartTraced(c);
  }

  lemma {:induction false} RunBase(states: seq<Cluster>, events: seq<Event>, s: nat)
    requires CarefulRun(states, events) && s < |states|
    ensures Base(states[s], HistoryAt(states, events, s))
  {
    hide Base, Start, Enabled, Do, Careful, Tracked;
    if s == 0 {
      BaseStarts(states[0]);
    } else {
      RunBase(states, events, s - 1);
      BaseStep(states[s - 1], HistoryAt(states, events, s - 1), events[s - 1]);
    }
  }

  lemma {:induction false} AckersGrow(states: seq<Cluster>, log: Log, j: nat, k: nat)
    requires j <= k < |states| && log != []
    ensures Ackers(states, log, j) <= Ackers(states, log, k)
    decreases k
  {
    if j < k {
      AckersGrow(states, log, j, k - 1);
    }
  }

  lemma PastTerm(c: Cluster, d: Cluster, log: Log, p: Id)
    requires Later(c, d) && log != [] && p in c.nodes && c.nodes[p].term > Made(log)
    ensures !Acked(d, p, log)
  {
  }

  lemma AckedBefore(states: seq<Cluster>, log: Log, k: nat, p: Id)
    requires k < |states| && log != [] && p in Ackers(states, log, k) && !Acked(states[k], p, log)
    ensures k > 0 && p in Ackers(states, log, k - 1)
  {
  }

  /** A node past the term acknowledges nothing of it any more. */
  lemma {:induction false} Frozen(states: seq<Cluster>, events: seq<Event>, log: Log, s: nat, k: nat, p: Id)
    requires Run(states, events) && s <= k < |states| && log != [] && p in Ackers(states, log, k)
    requires p in states[s].nodes && states[s].nodes[p].term > Made(log)
    ensures p in Ackers(states, log, s)
    decreases k
  {
    hide *;
    if s < k {
      RunGrows(states, events, s, k);
      PastTerm(states[s], states[k], log, p);
      AckedBefore(states, log, k, p);
      Frozen(states, events, log, s, k - 1, p);
    }
  }

  lemma {:induction false} AckersAreNodes(states: seq<Cluster>, events: seq<Event>, log: Log, k: nat)
    requires Run(states, events) && k < |states| && log != []
    ensures Ackers(states, log, k) <= states[0].nodes.Keys
  {
    RunGrows(states, events, 0, k);
    hide Run, Acked;
    if k > 0 {
      AckersAreNodes(states, events, log, k - 1);
    }
  }

  lemma QuorumThen(states: seq<Cluster>, events: seq<Event>, log: Log, j: nat, s: nat)
    requires Run(states, events) && j < |states| && s < |states| && Committed(states, log, j)
    ensures var quorum := Ackers(states, log, j);
      && quorum <= states[s].nodes.Keys && |quorum| >= (|states[s].nodes| - 1) / 2 + 1
      && forall p :: p in quorum ==> p in Ackers(states, log, s) || states[s].nodes[p].term <= Made(log)
  {
    AckersAreNodes(states, events, log, j);
    RunGrows(states, events, 0, s);
    RunGrows(states, events, 0, j);
    SameCount(states[0], states[s]);
    SameCount(states[0], states[j]);
    if s < j {
      forall p | p in Ackers(states, log, j) && states[s].nodes[p].term > Made(log) ensures p in Ackers(states, log, s) {
        Frozen(states, events, log, s, j, p);
      }
    } else {
      AckersGrow(states, log, j, s);
    }
  }

  lemma KeptStarts(c: Cluster, log: Log, ackers: set<Id>)
    requires log != [] && Start(c) && (forall i :: i in c.nodes ==> c.nodes[i].log == [])
    requires ackers == set p | p in c.nodes && Acked(c, p, log)
    ensures KeptInv(c, History(map[], map[]), log, ackers)
  {
  }

  lemma {:induction false} RunKept(states: seq<Cluster>, events: seq<Event>, log: Log, j: nat, s: nat)
    requires CarefulRun(states, events) && j < |states| && s < |states| && Committed(states, log, j)
    ensures KeptInv(states[s], HistoryAt(states, events, s), log, Ackers(states, log, s))
    decreases s
  {
    hide Start, Enabled, Do, Careful, Tracked, KeptInv, Base, Committed, Acked;
    assert log != [] by { Nonempty(states, log, j); }
    if s == 0 {
      assert Ackers(states, log, 0) == set p | p in states[0].nodes && Acked(states[0], p, log);
      KeptStarts(states[0], log, Ackers(states, log, 0));
    } else {
      RunKept(states, events, log, j, s - 1);
      RunBase(states, events, s - 1);
      QuorumThen(states, events, log, j, s - 1);
      KeptStep(states[s - 1], HistoryAt(states, events, s - 1), log, Ackers(states, log, s - 1), Ackers(states, log, s),
               Ackers(states, log, j), events[s - 1]);
    }
  }

  lemma Nonempty(states: seq<Cluster>, log: Log, j: nat)
    requires j < |states| && Committed(states, log, j)
    ensures log != []
  {
  }

  // ---------- the theorems ----------

  /** Leader completeness: over every careful run of an odd cluster, whoever leads in a later term, at any
      moment, holds all of a log that is committed at some moment. */
  lemma LeaderCompleteness(states: seq<Cluster>, events: seq<Event>, log: Log, j: nat, k: nat, i: Id)
    requires CarefulRun(states, events) && j < |states| && k < |states| && Committed(states, log, j)
    requires i in states[k].nodes && states[k].nodes[i].role == Leader && states[k].nodes[i].term > Made(log)
    ensures log <= states[k].nodes[i].log
  {
    RunKept(states, events, log, j, k);
    RunBase(states, events, k);
    hide CarefulRun, Committed, Ackers;
    LeaderTerm(states[k], HistoryAt(states, events, k), i);
  }

  /** Some node held a committed log, so it was made as it is. */
  lemma {:induction false} SomeoneHeld(states: seq<Cluster>, log: Log, k: nat) returns (s: nat, p: Id)
    requires k < |states| && log != [] && Ackers(states, log, k) != {}
    ensures s <= k && p in states[s].nodes && Acked(states[s], p, log)
    decreases k
  {
    if q :| q in states[k].nodes && Acked(states[k], q, log) {
      s, p := k, q;
    } else {
      s, p := SomeoneHeld(states, log, k - 1);
    }
  }

  /** The leader of its last term was elected with a part of a log that someone holds, and went on to hold it. */
  lemma MadeByLeader(c: Cluster, h: History, log: Log, p: Id)
    requires Base(c, h) && log != [] && p in c.nodes && log <= c.nodes[p].log
    ensures Made(log) in h.won && Made(log) in h.reign && h.won[Made(log)] <= log <= h.reign[Made(log)]
  {
    var n := c.nodes[p];
    NodeTraced(c, p);
    assert n.log[|log| - 1] == log[|log| - 1];
    assert TracedAt(c.made, n.log, |log| - 1);
    assert n.log[..|log| - 1 + 1] == log;
    assert MadeIn(c.made, h, Made(log), |log| - 1);
  }

  ghost predicate ReignsGrow(g: History, h: History) {
    forall t :: t in g.reign ==> t in h.reign && g.reign[t] <= h.reign[t]
  }

  lemma CloseReigns(c: Cluster, h: History, i: Id)
    requires Base(c, h) && Enabled(c, CloseElection(i))
    ensures ReignsGrow(h, Tracked(c, CloseElection(i), h))
  {
    assert ElectionInv(c) && HistInv(c, h) && |c.nodes| % 2 == 1;
    hide Base, ElectionInv, HistInv;
    if WinsElection(c.ballots[i].votes, |c.nodes[i].peers|) {
      FreshTerm(c, h, i);
    }
  }

  lemma ProposeReigns(c: Cluster, h: History, i: Id, x: Command)
    requires Base(c, h) && Enabled(c, ProposeAt(i, x))
    ensures ReignsGrow(h, Tracked(c, ProposeAt(i, x), h))
  {
    LeaderTerm(c, h, i);
    hide Base;
  }

  lemma ReignsStep(c: Cluster, h: History, e: Event)
    requires Base(c, h) && Enabled(c, e)
    ensures ReignsGrow(h, Tracked(c, e, h))
  {
    hide Base;
    if e.CloseElection? {
      CloseReigns(c, h, e.i);
    } else if e.ProposeAt? {
      ProposeReigns(c, h, e.i, e.c);
    }
  }

  lemma RunStep(states: seq<Cluster>, events: seq<Event>, k: nat)
    requires Run(states, events) && 0 < k < |states|
    ensures |states| == |events| + 1 && Enabled(states[k - 1], events[k - 1]) && states[k] == Do(states[k - 1], events[k - 1])
    ensures HistoryAt(states, events, k) == Tracked(states[k - 1], events[k - 1], HistoryAt(states, events, k - 1))
  {
    hide Enabled, Do, Tracked, Start;
    assert Enabled(states[k - 1], events[k - 1]) && states[k - 1 + 1] == Do(states[k - 1], events[k - 1]);
  }

  lemma {:induction false} RunReigns(states: seq<Cluster>, events: seq<Event>, j: nat, k: nat)
    requires CarefulRun(states, events) && Run(states, events) && j <= k < |states|
    ensures ReignsGrow(HistoryAt(states, events, j), HistoryAt(states, events, k))
    decreases k
  {
    hide *;
    if j < k {
      RunReigns(states, events, j, k - 1);
      RunBase(states, events, k - 1);
      RunStep(states, events, k);
      ReignsStep(states[k - 1], HistoryAt(states, events, k - 1), events[k - 1]);
      GrowTwice(HistoryAt(states, events, j), HistoryAt(states, events, k - 1), HistoryAt(states, events, k));
    } else {
      GrowSelf(HistoryAt(states, events, k));
    }
  }

  lemma GrowSelf(h: History)
    ensures ReignsGrow(h, h)
  {
  }

  lemma GrowTwice(f: History, g: History, h: History)
    requires ReignsGrow(f, g) && ReignsGrow(g, h)
    ensures ReignsGrow(f, h)
  {
  }

  lemma SomeAckers(states: seq<Cluster>, events: seq<Event>, log: Log, k: nat)
    requires CarefulRun(states, events) && k < |states| && Committed(states, log, k)
    ensures log != [] && Ackers(states, log, k) != {}
  {
    RunGrows(states, events, 0, k);
    SameCount(states[0], states[k]);
    hide Run, Ackers;
    assert |states[k].nodes| >= 1;
  }

  /** A committed log is part of what the leader of its last term had at the end of the run. */
  lemma CommittedMade(states: seq<Cluster>, events: seq<Event>, log: Log, j: nat, last: nat)
    requires CarefulRun(states, events) && j <= last < |states| && Committed(states, log, j)
    ensures Run(states, events) && log != []
    ensures var h := HistoryAt(states, events, last); Made(log) in h.reign && log <= h.reign[Made(log)]
  {
    hide *;
    SomeAckers(states, events, log, j);
    var s, p := SomeoneHeld(states, log, j);
    RunIs(states, events);
    RunBase(states, events, s);
    HeldBy(states[s], log, p);
    MadeByLeader(states[s], HistoryAt(states, events, s), log, p);
    RunReigns(states, events, s, last);
    GrownReign(HistoryAt(states, events, s), HistoryAt(states, events, last), log);
  }

  lemma HeldBy(c: Cluster, log: Log, p: Id)
    requires log != [] && Acked(c, p, log)
    ensures p in c.nodes && log <= c.nodes[p].log
  {
  }

  lemma GrownReign(g: History, h: History, log: Log)
    requires log != [] && ReignsGrow(g, h) && Made(log) in g.reign && log <= g.reign[Made(log)]
    ensures Made(log) in h.reign && log <= h.reign[Made(log)]
  {
  }

  lemma LaterPart(h: History, a: Log, b: Log)
    requires a != [] && b != [] && LaterHold(h, a) && Made(a) < Made(b) && Made(b) in h.won && h.won[Made(b)] <= b
    ensures a <= b
  {
  }

  lemma KeptLater(c: Cluster, h: History, log: Log, ackers: set<Id>)
    requires KeptInv(c, h, log, ackers)
    ensures log != [] && LaterHold(h, log)
  {
  }

  /** A log committed in an earlier term is part of one committed in a later term. */
  lemma EarlierPart(states: seq<Cluster>, events: seq<Event>, a: Log, j: nat, b: Log, k: nat)
    requires CarefulRun(states, events) && j < |states| && k < |states| && Committed(states, a, j) && Committed(states, b, k)
    requires a != [] && b != [] && Made(a) < Made(b)
    ensures a <= b
  {
    hide *;
    SomeAckers(states, events, b, k);
    var s, p := SomeoneHeld(states, b, k);
    RunIs(states, events);
    RunBase(states, events, s);
    RunKept(states, events, a, j, s);
    KeptLater(states[s], HistoryAt(states, events, s), a, Ackers(states, a, s));
    HeldBy(states[s], b, p);
    MadeByLeader(states[s], HistoryAt(states, events, s), b, p);
    LaterPart(HistoryAt(states, events, s), a, b);
  }

  lemma RunIs(states: seq<Cluster>, events: seq<Event>)
    requires CarefulRun(states, events)
    ensures Run(states, events)
  {
    hide Run;
  }

  /** So committed logs agree: of any two, committed by whichever leaders at whatever moments of a careful run,
      one is a prefix of the other. */
  lemma CommittedAgree(states: seq<Cluster>, events: seq<Event>, a: Log, j: nat, b: Log, k: nat)
    requires CarefulRun(states, events) && j < |states| && k < |states| && Committed(states, a, j) && Committed(states, b, k)
    ensures a <= b || b <= a
  {
    var last := |states| - 1;
    CommittedMade(states, events, a, j, last);
    CommittedMade(states, events, b, k, last);
    hide *;
    if Made(a) < Made(b) {
      EarlierPart(states, events, a, j, b, k);
    } else if Made(b) < Made(a) {
      EarlierPart(states, events, b, k, a, j);
    } else {
      Comparable(a, b, HistoryAt(states, events, last).reign[Made(a)]);
    }
  }
}
