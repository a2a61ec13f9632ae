/** Log matching (section 5.3 of the Raft paper): what one append_entries does to a log,
    and the matching of all logs of a cluster over whole multi-term runs. */
module RaftLog {
  import opened Options
  import opened RaftNode
  import opened RaftCluster
  import opened RaftElection

  /** Entries of the same term at the same index have the same past. */
  ghost predicate Matching(a: Log, b: Log) {
    forall k :: 0 <= k < |a| && k < |b| ==> MatchAt(a, b, k)
  }

  ghost predicate MatchAt(a: Log, b: Log, k: nat)
    requires k < |a| && k < |b|
  {
    a[k].term == b[k].term ==> a[..k + 1] == b[..k + 1]
  }

  /** Of two logs that agree as far as both go, the longer; otherwise the second. */
  function Longer(log: Log, basis: Log): Log {
    if basis <= log then log else basis
  }

  lemma PrefixesMatch(a: Log, b: Log, log: Log)
    requires a <= log && b <= log
    ensures Matching(a, b)
  {
    forall k | 0 <= k < |a| && k < |b| ensures MatchAt(a, b, k) {
      assert a[..k + 1] == log[..k + 1] == b[..k + 1];
    }
  }

  /** A slice of a matching log, placed where the logs agree, extends or replaces the tail
      and nothing else. */
  lemma {:induction false} SpliceAgrees(log: Log, basis: Log, at: nat)
    requires Matching(log, basis) && at <= |log| && at <= |basis| && log[..at] == basis[..at]
    ensures Splice(log, at, basis[at..]) == Longer(log, basis)
    decreases |basis| - at
  {
    if at < |basis| {
      var next := Put(log, at, basis[at]);
      assert basis[at..][1..] == basis[at + 1..];
      assert at < |log| ==> MatchAt(log, basis, at);
      assert next[..at + 1] == basis[..at + 1] by { assert basis[..at + 1] == basis[..at] + [basis[at]]; }
      if next != log {
        assert next == basis[..at + 1];
        PrefixesMatch(next, basis, basis);
      }
      SpliceAgrees(next, basis, at + 1);
    }
  }

  /** Agreeing at prev is agreeing up to prev. */
  lemma SamePast(log: Log, basis: Log, prev: Index)
    requires Matching(log, basis) && prev < |log| && prev < |basis|
    ensures (prev >= 0 ==> log[prev].term == basis[prev].term) <==> log[..prev + 1] == basis[..prev + 1]
  {
    assert prev >= 0 ==> MatchAt(log, basis, prev);
    if log[..prev + 1] == basis[..prev + 1] && prev >= 0 {
      assert log[..prev + 1][prev] == basis[..prev + 1][prev];
    }
  }

  lemma LearnKeepsLog(n: Node, leaderCommit: Index)
    ensures Learn(n, leaderCommit).log == n.log
  {
  }

  lemma AcceptedAppend(n: Node, m: Mail, leaderCommit: Index)
    requires m.prev < |n.log| && m.prev < |m.basis| && Matching(n.log, m.basis)
    requires n.log[..m.prev + 1] == m.basis[..m.prev + 1]
    ensures var longer := n.(log := Longer(n.log, m.basis));
      Append(n, m.basis[m.prev + 1..], m.prev, PrevTerm(m), leaderCommit) == (Learn(longer, leaderCommit), true)
  {
    SamePast(n.log, m.basis, m.prev);
    SpliceAgrees(n.log, m.basis, m.prev + 1);
  }

  /** A leader's message with a previous index inside the follower's log: refused exactly
      when the logs differ at prev; otherwise the follower ends with the longer of the two
      where they agree, and with the leader's entries where they do not. */
  lemma AppendResult(n: Node, m: Mail, leaderCommit: Index)
    requires m.prev < |n.log| && m.prev < |m.basis| && Matching(n.log, m.basis)
    ensures var (after, ok) := Append(n, m.basis[m.prev + 1..], m.prev, PrevTerm(m), leaderCommit);
      && (ok <==> n.log[..m.prev + 1] == m.basis[..m.prev + 1])
      && (!ok ==> after == n)
      && (ok ==> after.log == Longer(n.log, m.basis))
  {
    SamePast(n.log, m.basis, m.prev);
    if n.log[..m.prev + 1] == m.basis[..m.prev + 1] {
      AcceptedAppend(n, m, leaderCommit);
      LearnKeepsLog(n.(log := Longer(n.log, m.basis)), leaderCommit);
    } else {
      assert Refuses(n.log, m.prev, PrevTerm(m));
    }
  }

  /** An accepted slice prev + 1 up to upto of the leader's log leaves the follower equal to
      the leader up to upto, drops nothing that agreed, changes nothing when it is repeated,
      and keeps the follower in step with the leader and with any other log. */
  lemma AppendMatches(n: Node, leader: Log, prev: Index, upto: nat, leaderCommit: Index, other: Log)
    requires prev < |n.log| && prev < upto <= |leader|
    requires Matching(n.log, leader) && Matching(other, leader) && Matching(other, n.log)
    requires n.log[..prev + 1] == leader[..prev + 1]
    ensures var m := Mail(leader[..upto], prev, 0);
      var after := Append(n, m.basis[prev + 1..], prev, PrevTerm(m), leaderCommit).0;
      && leader[..upto] <= after.log
      && (n.log <= leader ==> n.log <= after.log)
      && Append(after, m.basis[prev + 1..], prev, PrevTerm(m), leaderCommit).0.log == after.log
      && Matching(after.log, leader) && Matching(other, after.log)
  {
    var m := Mail(leader[..upto], prev, 0);
    var after := Append(n, m.basis[prev + 1..], prev, PrevTerm(m), leaderCommit).0;
    PrefixMatches(n.log, leader, upto);
    PrefixMatches(other, leader, upto);
    assert m.basis[..prev + 1] == leader[..prev + 1];
    AppendResult(n, m, leaderCommit);
    if after.log != n.log {
      PrefixesMatch(m.basis, leader, leader);
    }
    PrefixMatches(after.log, leader, upto);
    AppendResult(after, m, leaderCommit);
  }

  lemma PrefixMatches(a: Log, b: Log, k: nat)
    requires Matching(a, b) && k <= |b|
    ensures Matching(a, b[..k]) && Matching(b[..k], a)
  {
    forall j | 0 <= j < |a| && j < k ensures MatchAt(a, b[..k], j) && MatchAt(b[..k], a, j) {
      assert MatchAt(a, b, j);
      assert b[..k][..j + 1] == b[..j + 1];
    }
  }

  /** Every entry sits at the index it carries. */
  ghost predicate Indexed(log: Log) {
    forall k :: 0 <= k < |log| ==> log[k].index == k
  }

  lemma {:induction false} SplicePlaces(log: Log, at: nat, entries: Log)
    requires Indexed(log) && at <= |log| && forall j :: 0 <= j < |entries| ==> entries[j].index == at + j
    ensures Indexed(Splice(log, at, entries))
    decreases |entries|
  {
    if entries != [] {
      SplicePlaces(Put(log, at, entries[0]), at + 1, entries[1..]);
    }
  }

  lemma {:induction false} SpliceBeyond(log: Log, at: nat, entries: Log)
    requires at > |log|
    ensures Splice(log, at, entries) == log + entries
    decreases |entries|
  {
    if entries != [] {
      SpliceBeyond(log + [entries[0]], at + 1, entries[1..]);
      assert log + [entries[0]] + entries[1..] == log + entries;
    } else {
      assert log + entries == log;
    }
  }

  /** append_entries does not check that prev lies inside the log. Entries land where they
      belong exactly when it does, or when there are none. */
  lemma PlacedExactly(n: Node, entries: Log, prev: Index, prevTerm: int, leaderCommit: Index)
    requires Indexed(n.log) && !Refuses(n.log, prev, prevTerm)
    requires forall j :: 0 <= j < |entries| ==> entries[j].index == prev + 1 + j
    ensures Indexed(Append(n, entries, prev, prevTerm, leaderCommit).0.log) <==> prev < |n.log| || entries == []
  {
    if prev < |n.log| {
      SplicePlaces(n.log, prev + 1, entries);
    } else {
      SpliceBeyond(n.log, prev + 1, entries);
      assert entries != [] ==> (n.log + entries)[|n.log|] == entries[0];
    }
  }

  /** Every entry sent for a place that the log holds has the term of the entry there. */
  ghost predicate SameTerms(log: Log, at: nat, entries: Log) {
    forall j :: 0 <= j < |entries| && at + j < |log| ==> log[at + j].term == entries[j].term
  }

  /** The entry loop keeps the log, wherever it starts, exactly when no term differs. */
  lemma {:induction false} SpliceKeepsExactly(log: Log, at: nat, entries: Log)
    ensures log <= Splice(log, at, entries) <==> SameTerms(log, at, entries)
    decreases |entries|
  {
    if entries != [] {
      var e, rest := entries[0], entries[1..];
      var next := Put(log, at, e);
      SpliceKeepsExactly(next, at + 1, rest);
      assert forall j :: 0 < j < |entries| ==> entries[j] == rest[j - 1];
      if at < |log| && log[at].term != e.term {
        assert |next| == at + 1 && next[at] == e;
        assert SameTerms(next, at + 1, rest);
        assert Splice(log, at, entries)[at] == next[at];
      } else {
        SameTermsRest(log, at, entries);
        if at >= |log| {
          assert SameTerms(next, at + 1, rest);
        }
      }
    }
  }

  lemma SameTermsRest(log: Log, at: nat, entries: Log)
    requires entries != [] && (at < |log| ==> log[at].term == entries[0].term)
    ensures SameTerms(log, at, entries) <==> SameTerms(log, at + 1, entries[1..])
  {
    var rest := entries[1..];
    if SameTerms(log, at + 1, rest) {
      forall j | 0 <= j < |entries| && at + j < |log| ensures log[at + j].term == entries[j].term {
        if j > 0 {
          assert log[at + 1 + (j - 1)].term == rest[j - 1].term;
        }
      }
    }
  }

  /** append_entries carries no sender term, so it treats a leader like any other node. A message
      leaves the log it finds in place exactly when it is refused, or when every entry sent for an
      occupied place has the term of the entry there. */
  lemma KeepsLogExactly(n: Node, entries: Log, prev: Index, prevTerm: int, leaderCommit: Index)
    ensures n.log <= Append(n, entries, prev, prevTerm, leaderCommit).0.log
      <==> Refuses(n.log, prev, prevTerm) || SameTerms(n.log, prev + 1, entries)
  {
    SpliceKeepsExactly(n.log, prev + 1, entries);
    LearnKeepsLog(n.(log := Splice(n.log, prev + 1, entries)), leaderCommit);
  }

  /** So a stale message can erase what a leader has just proposed. */
  lemma LeaderLosesEntries()
    ensures exists n: Node, entries: Log ::
      n.role == Leader && |entries| == |n.log| == 1 && entries[0].term < n.term && n.log[0].term == n.term
      && Append(n, entries, -1, 0, -1) == (n.(log := entries), true)
  {
    var c := Command("run", Archive);
    var n := Node("a", ["b", "c"], Leader, 2, Some("a"), [Entry(2, 0, c)], -1, -1, map[], map[]);
    var entries := [Entry(1, 0, c)];
    assert Splice(n.log, 0, entries) == entries;
    assert Append(n, entries, -1, 0, -1) == (n.(log := entries), true);
  }

  // ---------- the cluster ----------

  /** Every entry of the log was made by some leader on top of exactly the entries before it. */
  ghost predicate Traced(made: map<(int, int), Log>, log: Log) {
    forall k :: 0 <= k < |log| ==> TracedAt(made, log, k)
  }

  ghost predicate TracedAt(made: map<(int, int), Log>, log: Log, k: nat)
    requires k < |log|
  {
    (log[k].term, k) in made && made[(log[k].term, k)] == log[..k + 1]
  }

  lemma TracedMatch(made: map<(int, int), Log>, a: Log, b: Log)
    requires Traced(made, a) && Traced(made, b)
    ensures Matching(a, b)
  {
    forall k | 0 <= k < |a| && k < |b| ensures MatchAt(a, b, k) {
      assert TracedAt(made, a, k) && TracedAt(made, b, k);
    }
  }

  lemma TracedPrefix(made: map<(int, int), Log>, log: Log, k: nat)
    requires Traced(made, log) && k <= |log|
    ensures Traced(made, log[..k])
  {
    var front := log[..k];
    forall j | 0 <= j < |front| ensures TracedAt(made, front, j) {
      assert TracedAt(made, log, j);
      assert front[..j + 1] == log[..j + 1];
    }
  }

  ghost predicate MadeOk(c: Cluster, term: int, index: int) {
    && (exists w :: w in c.wins && w.term == term)
    && (forall i :: i in c.nodes && c.nodes[i].role == Leader && c.nodes[i].term == term ==> index < |c.nodes[i].log|)
  }

  ghost predicate LogInv(c: Cluster) {
    && (forall i :: i in c.nodes ==> Traced(c.made, c.nodes[i].log))
    && (forall m :: m in c.mail ==> Traced(c.made, m.basis))
    && (forall t, k :: (t, k) in c.made ==> MadeOk(c, t, k))
  }

  lemma NodeTraced(c: Cluster, i: Id)
    requires LogInv(c) && i in c.nodes
    ensures Traced(c.made, c.nodes[i].log)
  {
  }

  lemma MailTraced(c: Cluster, m: Mail)
    requires LogInv(c) && m in c.mail
    ensures Traced(c.made, m.basis)
  {
  }

  /** A step that changes no log and creates no leader. */
  ghost predicate SameLogs(c: Cluster, d: Cluster) {
    && d.nodes.Keys == c.nodes.Keys && d.made == c.made && c.wins <= d.wins && d.mail == c.mail
    && forall i :: i in c.nodes ==>
         && d.nodes[i].log == c.nodes[i].log
         && (d.nodes[i].role == Leader ==> c.nodes[i].role == Leader && d.nodes[i].term == c.nodes[i].term)
  }

  lemma LogsUntouched(c: Cluster, d: Cluster)
    requires LogInv(c) && SameLogs(c, d)
    ensures LogInv(d)
  {
    forall t, k | (t, k) in d.made ensures MadeOk(d, t, k) { assert MadeOk(c, t, k); }
  }

  lemma SameLogAt(c: Cluster, d: Cluster, i: Id)
    requires i in c.nodes && i in d.nodes && d.nodes == c.nodes[i := d.nodes[i]] && d.nodes[i].log == c.nodes[i].log
    requires d.nodes[i].role == Leader ==> c.nodes[i].role == Leader && d.nodes[i].term == c.nodes[i].term
    requires d.made == c.made && c.wins <= d.wins && d.mail == c.mail
    ensures SameLogs(c, d)
  {
  }

  lemma QuietLogs(c: Cluster, e: Event)
    requires Enabled(c, e) && (e.StartElection? || e.AskPeer? || e.AnswerVote? || e.Tally? || e.StepAside? || e.Elsewhere?)
    ensures SameLogs(c, Do(c, e))
  {
    hide Vote, Append, SameLogs;
    if e.AnswerVote? {
      VoteFacts(c.nodes[e.ask.peer], e.ask.term, e.ask.candidate, e.ask.lastTerm);
      SameLogAt(c, Do(c, e), e.ask.peer);
    } else {
      SameLogAt(c, Do(c, e), e.i);
    }
  }

  /** A new entry under a new key: the log it ends is traced, and so is every other. */
  lemma MadeGrows(made: map<(int, int), Log>, log: Log, e: Entry, other: Log)
    requires Traced(made, log) && Traced(made, other) && (e.term, |log|) !in made
    ensures Traced(made[(e.term, |log|) := log + [e]], log + [e])
    ensures Traced(made[(e.term, |log|) := log + [e]], other)
  {
    var longer := log + [e];
    var more := made[(e.term, |log|) := longer];
    forall k | 0 <= k < |longer| ensures TracedAt(more, longer, k) {
      if k < |log| {
        assert TracedAt(made, log, k);
        assert longer[..k + 1] == log[..k + 1];
      } else {
        assert longer[..k + 1] == longer;
      }
    }
    forall k | 0 <= k < |other| ensures TracedAt(more, other, k) { assert TracedAt(made, other, k); }
  }

  /** The leader of a term is the only node that can make entries of that term. */
  lemma OnlyLeader(c: Cluster, i: Id, j: Id)
    requires ElectionInv(c) && |c.nodes| % 2 == 1 && i in c.nodes && j in c.nodes
    requires c.nodes[i].role == c.nodes[j].role == Leader && c.nodes[i].term == c.nodes[j].term
    ensures i == j
  {
    assert Elected(c, i) && Elected(c, j);
    OneWinner(c, Win(c.nodes[i].term, i), Win(c.nodes[j].term, j));
  }

  lemma ProposeTraced(c: Cluster, i: Id, e: Entry, d: Cluster)
    requires ElectionInv(c) && LogInv(c) && |c.nodes| % 2 == 1
    requires i in c.nodes && c.nodes[i].role == Leader && e.term == c.nodes[i].term
    requires d == c.(nodes := c.nodes[i := c.nodes[i].(log := c.nodes[i].log + [e])],
                     made := c.made[(e.term, |c.nodes[i].log|) := c.nodes[i].log + [e]])
    ensures LogInv(d)
  {
    var log := c.nodes[i].log;
    assert (e.term, |log|) in c.made ==> MadeOk(c, e.term, |log|);
    forall j | j in d.nodes ensures Traced(d.made, d.nodes[j].log) { MadeGrows(c.made, log, e, c.nodes[j].log); }
    forall m | m in d.mail ensures Traced(d.made, m.basis) { MadeGrows(c.made, log, e, m.basis); }
    forall t, k | (t, k) in d.made ensures MadeOk(d, t, k) {
      assert (t, k) in c.made ==> MadeOk(c, t, k);
      assert Elected(c, i);
      forall j | j in d.nodes && d.nodes[j].role == Leader && d.nodes[j].term == t ensures k < |d.nodes[j].log| {
        if t == e.term { OnlyLeader(c, i, j); }
      }
    }
  }

  lemma CloseTraced(c: Cluster, i: Id)
    requires ElectionInv(c) && LogInv(c) && |c.nodes| % 2 == 1 && Enabled(c, CloseElection(i))
    ensures LogInv(Do(c, CloseElection(i)))
  {
    var d := Do(c, CloseElection(i));
    StepKeeps(c, CloseElection(i));
    assert BallotOk(c, i);
    assert |d.nodes.Keys| == |c.nodes.Keys| by { assert d.nodes.Keys == c.nodes.Keys; }
    forall t, k | (t, k) in d.made ensures MadeOk(d, t, k) {
      assert MadeOk(c, t, k);
      var w :| w in c.wins && w.term == t;
      if d.nodes[i].role == Leader && d.nodes[i].term == t {
        OneWinner(d, w, Win(t, i));
        assert false;
      }
    }
  }

  /** Leader Append-Only (figure 3 of the Raft paper): a node that leads keeps its log while it
      leads. The code does not enforce it. */
  ghost predicate LeaderKeeps(n: Node, m: Node) {
    n.role == Leader && m.role == Leader && m.term == n.term ==> n.log <= m.log
  }

  ghost predicate LeadersKeep(c: Cluster, d: Cluster) {
    forall i :: i in c.nodes && i in d.nodes ==> LeaderKeeps(c.nodes[i], d.nodes[i])
  }

  /** Only a message or a log copy can take entries from a leader. */
  lemma QuietlyKeeps(c: Cluster, e: Event)
    requires Enabled(c, e) && !e.Receive? && !e.CopyLog?
    ensures LeadersKeep(c, Do(c, e))
  {
    if e.AnswerVote? {
      hide Vote;
      VoteFacts(c.nodes[e.ask.peer], e.ask.term, e.ask.candidate, e.ask.lastTerm);
    }
  }

  /** A node took over a traced log; if it leads, its own log only grew. */
  lemma LogReplaced(c: Cluster, d: Cluster, i: Id, n: Node)
    requires LogInv(c) && i in c.nodes && d == c.(nodes := c.nodes[i := n])
    requires Traced(c.made, n.log) && n.role == c.nodes[i].role && n.term == c.nodes[i].term
    requires LeaderKeeps(c.nodes[i], n)
    ensures LogInv(d)
  {
    forall t, k | (t, k) in d.made ensures MadeOk(d, t, k) { assert MadeOk(c, t, k); }
  }

  /** What a follower ends with is traced when its log and the message were. */
  lemma HeardTraced(made: map<(int, int), Log>, n: Node, m: Mail, leaderCommit: Index)
    requires m.prev < |n.log| && m.prev < |m.basis| && Traced(made, n.log) && Traced(made, m.basis)
    ensures var after := Append(n, m.basis[m.prev + 1..], m.prev, PrevTerm(m), leaderCommit).0;
      Traced(made, after.log) && after.role == n.role && after.term == n.term
  {
    TracedMatch(made, n.log, m.basis);
    hide Traced, Matching;
    AppendResult(n, m, leaderCommit);
    AppendKeepsElection(n, m.basis[m.prev + 1..], m.prev, PrevTerm(m), leaderCommit);
  }

  lemma LogStep(c: Cluster, e: Event)
    requires ElectionInv(c) && LogInv(c) && |c.nodes| % 2 == 1 && Enabled(c, e) && LeadersKeep(c, Do(c, e))
    ensures LogInv(Do(c, e))
  {
    hide ElectionInv, LogInv, Traced, Vote, Append;
    match e {
      case ProposeAt(i, command) => ProposeTraced(c, i, NewEntry(c.nodes[i], command), Do(c, e));
      case CloseElection(i) => CloseTraced(c, i);
      case Receive(i, m, leaderCommit) =>
        NodeTraced(c, i);
        MailTraced(c, m);
        HeardTraced(c.made, c.nodes[i], m, leaderCommit);
        assert LeaderKeeps(c.nodes[i], Do(c, e).nodes[i]);
        LogReplaced(c, Do(c, e), i, Do(c, e).nodes[i]);
      case Send(i, prev, upto) =>
        NodeTraced(c, i);
        TracedPrefix(c.made, c.nodes[i].log, upto);
        LogsSent(c, Do(c, e), Mail(c.nodes[i].log[..upto], prev, c.nodes[i].term));
      case CopyLog(i, source) =>
        assert Traced(c.made, c.nodes[source].log) by { NodeTraced(c, source); }
        assert LeaderKeeps(c.nodes[i], Do(c, e).nodes[i]);
        LogReplaced(c, Do(c, e), i, Do(c, e).nodes[i]);
      case _ =>
        QuietLogs(c, e);
        LogsUntouched(c, Do(c, e));
    }
  }

  lemma LogsSent(c: Cluster, d: Cluster, m: Mail)
    requires LogInv(c) && d == c.(mail := c.mail + {m}) && Traced(c.made, m.basis)
    ensures LogInv(d)
  {
    forall t, k | (t, k) in d.made ensures MadeOk(d, t, k) { assert MadeOk(c, t, k); }
  }

  /** No step of the run takes entries from a leader. */
  ghost predicate AppendOnly(states: seq<Cluster>) {
    forall k :: 0 <= k < |states| - 1 ==> LeadersKeep(states[k], states[k + 1])
  }

  lemma StartTraced(c: Cluster)
    requires Start(c) && forall i :: i in c.nodes ==> c.nodes[i].log == []
    ensures LogInv(c)
  {
  }

  lemma {:induction false} RunTraced(states: seq<Cluster>, events: seq<Event>, k: nat)
    requires Run(states, events) && k < |states| && |states[0].nodes| % 2 == 1
    requires forall i :: i in states[0].nodes ==> states[0].nodes[i].log == []
    requires AppendOnly(states)
    ensures LogInv(states[k])
  {
    if k == 0 {
      StartTraced(states[0]);
    } else {
      RunTraced(states, events, k - 1);
      TracedNext(states, events, k);
    }
  }

  lemma TracedNext(states: seq<Cluster>, events: seq<Event>, k: nat)
    requires Run(states, events) && 0 < k < |states| && |states[0].nodes| % 2 == 1
    requires AppendOnly(states) && LogInv(states[k - 1])
    ensures LogInv(states[k])
  {
    hide Do, Enabled, ElectionInv, LogInv, LeadersKeep, Start;
    RunKeeps(states, events, k - 1);
    RunGrows(states, events, 0, k - 1);
    assert |states[k - 1].nodes.Keys| == |states[0].nodes.Keys|;
    assert LeadersKeep(states[k - 1], states[k - 1 + 1]);
    LogStep(states[k - 1], events[k - 1]);
  }

  /** In an odd cluster that starts empty, any two logs match at all times, through any
      number of elections, proposals, late, repeated or lost messages and log copies to any node,
      as long as no leader loses entries. */
  lemma LogMatching(states: seq<Cluster>, events: seq<Event>, k: nat, i: Id, j: Id)
    requires Run(states, events) && k < |states| && |states[0].nodes| % 2 == 1
    requires forall x :: x in states[0].nodes ==> states[0].nodes[x].log == []
    requires AppendOnly(states)
    requires i in states[k].nodes && j in states[k].nodes
    ensures Matching(states[k].nodes[i].log, states[k].nodes[j].log)
  {
    RunTraced(states, events, k);
    TracedMatch(states[k].made, states[k].nodes[i].log, states[k].nodes[j].log);
  }
}
