/** Election safety (section 5.2 of the Raft paper): proved over whole runs for clusters
    of odd size, refuted for every even size. */
module RaftElection {
  import opened Options
  import opened RaftNode
  import opened RaftCluster

  lemma VotersGrow(c: Cluster, d: Cluster, term: int, candidate: Id)
    requires c.grants <= d.grants
    ensures |Voters(c, term, candidate)| <= |Voters(d, term, candidate)|
  {
    SubsetSize(Voters(c, term, candidate), Voters(d, term, candidate));
  }

  lemma {:induction false} SubsetSize<T>(a: set<T>, b: set<T>)
    requires a <= b
    ensures |a| <= |b|
  {
    assert b == a + (b - a);
  }

  lemma {:induction false} SeqSetSize<T>(s: seq<T>)
    requires forall j, k :: 0 <= j < k < |s| ==> s[j] != s[k]
    ensures |set x | x in s| == |s|
  {
    if s != [] {
      var front := s[..|s| - 1];
      SeqSetSize(front);
      assert (set x | x in s) == (set x | x in front) + {s[|s| - 1]};
    }
  }

  /** A vote never lowers a term, and one that is granted is recorded. */
  lemma VoteFacts(n: Node, term: int, candidate: Id, lastTerm: int)
    ensures var (m, ok) := Vote(n, term, candidate, lastTerm);
      && m.id == n.id && m.peers == n.peers && m.log == n.log && n.term <= m.term
      && (m.term == n.term ==> m.role == n.role && (n.votedFor.Some? ==> m.votedFor == n.votedFor))
      && (ok ==> m.term == term && m.votedFor == Some(candidate))
      && (m.term != n.term ==> m.role == Follower)
  {
  }

  /** What the wins need from a step: terms and votes only grow. */
  lemma WinsKept(c: Cluster, d: Cluster)
    requires forall w :: w in c.wins ==> WinOk(c, w)
    requires d.nodes.Keys == c.nodes.Keys && c.grants <= d.grants
    requires forall i :: i in c.nodes ==> c.nodes[i].term <= d.nodes[i].term
    ensures forall w :: w in c.wins ==> WinOk(d, w)
  {
    forall w | w in c.wins ensures WinOk(d, w) {
      VotersGrow(c, d, w.term, w.winner);
      assert |d.nodes| == |d.nodes.Keys| == |c.nodes.Keys| == |c.nodes|;
    }
  }

  /** v moved to a later term, or kept its vote, and the new grants are for its vote. */
  lemma VotesKept(c: Cluster, d: Cluster, v: Id, m: Node, more: set<Grant>)
    requires (forall g :: g in c.grants ==> GrantOk(c, g)) && OneVote(c) && v in c.nodes
    requires d.nodes == c.nodes[v := m] && d.grants == c.grants + more
    requires c.nodes[v].term <= m.term
    requires m.term == c.nodes[v].term && c.nodes[v].votedFor.Some? ==> m.votedFor == c.nodes[v].votedFor
    requires forall g :: g in more ==> g.voter == v && g.term == m.term && m.votedFor == Some(g.candidate)
    ensures (forall g :: g in d.grants ==> GrantOk(d, g)) && OneVote(d)
  {
    forall g | g in d.grants ensures GrantOk(d, g) { assert g in c.grants ==> GrantOk(c, g); }
    forall g, h | g in d.grants && h in d.grants && g.voter == h.voter && g.term == h.term ensures g == h {
      assert g in c.grants ==> GrantOk(c, g);
      assert h in c.grants ==> GrantOk(c, h);
    }
  }

  /** From c to d node i opened a ballot of a new term. */
  ghost predicate Stood(c: Cluster, d: Cluster, i: Id) {
    && i in c.nodes && i !in c.ballots
    && d == c.(nodes := c.nodes[i := Stand(c.nodes[i])], ballots := c.ballots[i := Ballot(0, 1, {i})],
               grants := c.grants + {Grant(i, c.nodes[i].term + 1, i)})
  }

  lemma StandKeeps(c: Cluster, d: Cluster, i: Id)
    requires ElectionInv(c) && Stood(c, d, i)
    ensures ElectionInv(d)
  {
    StandVotes(c, d, i);
    WinsKept(c, d);
    StandMembers(c, d, i);
    StandBallots(c, d, i);
    hide *;
    assert ElectionInv(d) by { Assembled(d); }
  }

  lemma Assembled(c: Cluster)
    requires (forall i :: i in c.nodes ==> Member(c, i) && Elected(c, i)) && (forall g :: g in c.grants ==> GrantOk(c, g))
    requires OneVote(c) && (forall i :: i in c.ballots ==> BallotOk(c, i)) && forall w :: w in c.wins ==> WinOk(c, w)
    ensures ElectionInv(c)
  {
    hide Member, Elected, GrantOk, OneVote, BallotOk, WinOk;
  }

  lemma StandVotes(c: Cluster, d: Cluster, i: Id)
    requires ElectionInv(c) && Stood(c, d, i)
    ensures (forall g :: g in d.grants ==> GrantOk(d, g)) && OneVote(d)
  {
    assert c.nodes[i].id == i by { assert Member(c, i); }
    VotesKept(c, d, i, Stand(c.nodes[i]), {Grant(i, c.nodes[i].term + 1, i)});
  }

  lemma StandBallots(c: Cluster, d: Cluster, i: Id)
    requires Stood(c, d, i) && (forall j :: j in c.ballots ==> BallotOk(c, j)) && forall w :: w in c.wins ==> WinOk(c, w)
    ensures forall j :: j in d.ballots ==> BallotOk(d, j)
  {
    forall j | j in d.ballots ensures BallotOk(d, j) {
      if j == i {
        NewBallot(c, d, i);
      } else {
        assert BallotOk(c, j);
      }
    }
  }

  lemma StandMembers(c: Cluster, d: Cluster, i: Id)
    requires (forall j :: j in c.nodes ==> Member(c, j) && Elected(c, j)) && i in c.nodes
    requires d.nodes == c.nodes[i := Stand(c.nodes[i])] && d.wins == c.wins
    ensures forall j :: j in d.nodes ==> Member(d, j) && Elected(d, j)
  {
    forall j | j in d.nodes ensures Member(d, j) && Elected(d, j) { assert Member(c, j) && Elected(c, j); }
  }

  lemma NewBallot(c: Cluster, d: Cluster, i: Id)
    requires i in c.nodes && i in d.nodes && i in d.ballots && d.ballots[i] == Ballot(0, 1, {i}) && d.wins == c.wins
    requires d.nodes[i] == Stand(c.nodes[i]) && Grant(i, d.nodes[i].term, i) in d.grants
    requires forall w :: w in c.wins ==> WinOk(c, w)
    ensures BallotOk(d, i)
  {
    assert Win(d.nodes[i].term, i) in c.wins ==> WinOk(c, Win(d.nodes[i].term, i));
  }

  /** One voter answered: its node moved from n to m as VoteFacts says. */
  lemma AnswerKeeps(c: Cluster, d: Cluster, v: Id, m: Node, more: set<Grant>)
    requires ElectionInv(c) && v in c.nodes && v !in c.ballots
    requires d == c.(nodes := c.nodes[v := m], grants := c.grants + more)
    requires var n := c.nodes[v];
      && m.id == n.id && m.peers == n.peers && n.term <= m.term
      && (m.term == n.term ==> m.role == n.role && (n.votedFor.Some? ==> m.votedFor == n.votedFor))
      && (m.term != n.term ==> m.role == Follower)
    requires forall g :: g in more ==> g.voter == v && g.term == m.term && m.votedFor == Some(g.candidate)
    ensures ElectionInv(d)
  {
    WinsKept(c, d);
    assert Member(c, v) && Elected(c, v);
    forall j | j in d.nodes ensures Member(d, j) && Elected(d, j) { assert Member(c, j) && Elected(c, j); }
    VotesKept(c, d, v, m, more);
    forall j | j in d.ballots ensures BallotOk(d, j) { assert BallotOk(c, j); }
  }

  lemma TallyKeeps(c: Cluster, d: Cluster, i: Id, yes: bool)
    requires ElectionInv(c) && i in c.ballots && i in c.nodes && c.ballots[i].asked < |c.nodes[i].peers|
    requires var b, peer := c.ballots[i], c.nodes[i].peers[c.ballots[i].asked];
      && (yes ==> Grant(peer, c.nodes[i].term, i) in c.grants)
      && d == c.(ballots := c.ballots[i := if yes then Ballot(b.asked + 1, b.votes + 1, b.voters + {peer})
                                           else b.(asked := b.asked + 1)])
    ensures ElectionInv(d)
  {
    WinsKept(c, d);
    SameNodes(c, d);
    TallyBallots(c, d, i, yes);
    hide Member, Elected, GrantOk, OneVote, WinOk, BallotOk;
  }

  lemma SameNodes(c: Cluster, d: Cluster)
    requires (forall j :: j in c.nodes ==> Member(c, j) && Elected(c, j)) && forall g :: g in c.grants ==> GrantOk(c, g)
    requires OneVote(c) && d.nodes == c.nodes && d.wins == c.wins && d.grants == c.grants
    ensures (forall j :: j in d.nodes ==> Member(d, j) && Elected(d, j)) && forall g :: g in d.grants ==> GrantOk(d, g)
    ensures OneVote(d)
  {
    forall j | j in d.nodes ensures Member(d, j) && Elected(d, j) { assert Member(c, j) && Elected(c, j); }
    forall g | g in d.grants ensures GrantOk(d, g) { assert GrantOk(c, g); }
  }

  lemma TallyBallots(c: Cluster, d: Cluster, i: Id, yes: bool)
    requires (forall j :: j in c.ballots ==> BallotOk(c, j)) && forall j :: j in c.nodes ==> Member(c, j)
    requires i in c.ballots && i in c.nodes && c.ballots[i].asked < |c.nodes[i].peers|
    requires var b, peer := c.ballots[i], c.nodes[i].peers[c.ballots[i].asked];
      && (yes ==> Grant(peer, c.nodes[i].term, i) in c.grants)
      && d == c.(ballots := c.ballots[i := if yes then Ballot(b.asked + 1, b.votes + 1, b.voters + {peer})
                                           else b.(asked := b.asked + 1)])
    ensures forall j :: j in d.ballots ==> BallotOk(d, j)
  {
    assert BallotOk(c, i) && Member(c, i);
    CountedBallot(c, d, i, yes);
    hide Member;
    forall j | j in d.ballots ensures BallotOk(d, j) {
      if j != i {
        assert BallotOk(c, j);
      }
    }
  }

  lemma CountedBallot(c: Cluster, d: Cluster, i: Id, yes: bool)
    requires i in c.ballots && BallotOk(c, i) && Member(c, i) && c.ballots[i].asked < |c.nodes[i].peers|
    requires var b, peer := c.ballots[i], c.nodes[i].peers[c.ballots[i].asked];
      && (yes ==> Grant(peer, c.nodes[i].term, i) in c.grants)
      && d == c.(ballots := c.ballots[i := if yes then Ballot(b.asked + 1, b.votes + 1, b.voters + {peer})
                                           else b.(asked := b.asked + 1)])
    ensures BallotOk(d, i)
  {
    NewVoter(c, i);
  }

  /** The next peer has not been counted yet. */
  lemma NewVoter(c: Cluster, i: Id)
    requires i in c.ballots && BallotOk(c, i) && Member(c, i) && c.ballots[i].asked < |c.nodes[i].peers|
    ensures var (b, peers) := (c.ballots[i], c.nodes[i].peers);
      peers[b.asked] !in b.voters && peers[..b.asked + 1] == peers[..b.asked] + [peers[b.asked]]
  {
    var peer := c.nodes[i].peers[c.ballots[i].asked];
    assert peer in (set p | p in c.nodes[i].peers);
  }

  lemma LoseKeeps(c: Cluster, d: Cluster, i: Id)
    requires ElectionInv(c) && i in c.ballots && d == c.(ballots := c.ballots - {i})
    ensures ElectionInv(d)
  {
    WinsKept(c, d);
    forall j | j in d.nodes ensures Member(d, j) && Elected(d, j) { assert Member(c, j) && Elected(c, j); }
    forall g | g in d.grants ensures GrantOk(d, g) { assert GrantOk(c, g); }
    forall j | j in d.ballots ensures BallotOk(d, j) { assert BallotOk(c, j); }
  }

  lemma WinKeeps(c: Cluster, d: Cluster, i: Id)
    requires ElectionInv(c) && i in c.nodes && i !in c.ballots && Backed(c, i)
    requires d == c.(nodes := c.nodes[i := c.nodes[i].(role := Leader)], wins := c.wins + {Win(c.nodes[i].term, i)})
    ensures ElectionInv(d)
  {
    WinsKept(c, d);
    NewWin(c, d, i);
    LeaderSame(c, d, i);
    LeaderBallots(c, d, i);
    hide *;
    Assembled(d);
  }

  lemma LeaderSame(c: Cluster, d: Cluster, i: Id)
    requires ElectionInv(c) && i in c.nodes && Win(c.nodes[i].term, i) in d.wins && c.wins <= d.wins
    requires d.nodes == c.nodes[i := c.nodes[i].(role := Leader)] && d.grants == c.grants
    ensures (forall j :: j in d.nodes ==> Member(d, j) && Elected(d, j)) && (forall g :: g in d.grants ==> GrantOk(d, g))
    ensures OneVote(d)
  {
    assert Member(c, i);
    forall j | j in d.nodes ensures Member(d, j) && Elected(d, j) { assert Member(c, j) && Elected(c, j); }
    forall g | g in d.grants ensures GrantOk(d, g) { assert GrantOk(c, g); }
  }

  lemma LeaderBallots(c: Cluster, d: Cluster, i: Id)
    requires (forall j :: j in c.ballots ==> BallotOk(c, j)) && i in c.nodes && i !in c.ballots && d.grants == c.grants
    requires d.nodes == c.nodes[i := c.nodes[i].(role := Leader)] && d.ballots == c.ballots
    requires d.wins == c.wins + {Win(c.nodes[i].term, i)}
    ensures forall j :: j in d.ballots ==> BallotOk(d, j)
  {
    forall j | j in d.ballots ensures BallotOk(d, j) { assert BallotOk(c, j); }
  }

  lemma NewWin(c: Cluster, d: Cluster, i: Id)
    requires i in c.nodes && Backed(c, i)
    requires d.nodes.Keys == c.nodes.Keys && d.nodes[i].term == c.nodes[i].term && d.grants == c.grants
    ensures WinOk(d, Win(c.nodes[i].term, i))
  {
    assert |d.nodes.Keys| == |d.nodes| && |c.nodes.Keys| == |c.nodes|;
    assert Voters(d, c.nodes[i].term, i) == Voters(c, c.nodes[i].term, i);
  }

  ghost predicate Backed(c: Cluster, i: Id)
    requires i in c.nodes
  {
    WinsElection(|Voters(c, c.nodes[i].term, i)|, |c.nodes| - 1)
  }

  lemma CloseKeeps(c: Cluster, d: Cluster, i: Id)
    requires ElectionInv(c) && i in c.nodes && i in c.ballots && c.ballots[i].asked == |c.nodes[i].peers|
    requires d == Do(c, CloseElection(i))
    ensures ElectionInv(d)
  {
    var n, b, quiet := c.nodes[i], c.ballots[i], c.(ballots := c.ballots - {i});
    assert BallotOk(c, i) && Member(c, i);
    VotesBacked(c, i);
    LoseKeeps(c, quiet, i);
    hide ElectionInv, BallotOk, Member;
    if WinsElection(b.votes, |n.peers|) {
      assert Backed(quiet, i) by { assert Voters(quiet, n.term, i) == Voters(c, n.term, i); }
      WinKeeps(quiet, d, i);
    } else {
      assert d.nodes == quiet.nodes;
    }
  }

  /** The votes counted in a ballot were given. */
  lemma VotesBacked(c: Cluster, i: Id)
    requires i in c.ballots && BallotOk(c, i) && Member(c, i)
    ensures c.ballots[i].votes <= |Voters(c, c.nodes[i].term, i)|
    ensures |c.nodes[i].peers| == |c.nodes| - 1
  {
    var term := c.nodes[i].term;
    forall v | v in c.ballots[i].voters ensures v in Voters(c, term, i) { assert Grant(v, term, i) in c.grants; }
    SubsetSize(c.ballots[i].voters, Voters(c, term, i));
    PeerCount(c, i);
  }

  lemma PeerCount(c: Cluster, i: Id)
    requires i in c.nodes && Member(c, i)
    ensures |c.nodes[i].peers| == |c.nodes| - 1
  {
    SeqSetSize(c.nodes[i].peers);
    assert c.nodes.Keys == (c.nodes.Keys - {i}) + {i};
  }

  /** A step that touches neither grants, ballots nor wins, and can only drop a leadership. */
  ghost predicate Quiet(c: Cluster, d: Cluster) {
    && d.grants == c.grants && d.ballots == c.ballots && d.wins == c.wins && d.nodes.Keys == c.nodes.Keys
    && forall i :: i in c.nodes ==>
         && SameElection(c.nodes[i], d.nodes[i].(role := c.nodes[i].role))
         && (d.nodes[i].role == c.nodes[i].role || d.nodes[i].role in {Follower, Offline, Reconnecting})
  }

  lemma QuietKeeps(c: Cluster, d: Cluster)
    requires ElectionInv(c) && Quiet(c, d)
    ensures ElectionInv(d)
  {
    WinsKept(c, d);
    forall j | j in d.nodes ensures Member(d, j) && Elected(d, j) { assert Member(c, j) && Elected(c, j); }
    forall g | g in d.grants ensures GrantOk(d, g) { assert GrantOk(c, g); }
    forall j | j in d.ballots ensures BallotOk(d, j) { assert BallotOk(c, j); }
  }

  predicate IsQuiet(e: Event) {
    !e.StartElection? && !e.AnswerVote? && !e.Tally? && !e.CloseElection?
  }

  /** Only node i changes, and keeps what elections are about but for its role. */
  lemma QuietAt(c: Cluster, d: Cluster, i: Id)
    requires i in c.nodes && i in d.nodes && d.nodes == c.nodes[i := d.nodes[i]]
    requires d.grants == c.grants && d.ballots == c.ballots && d.wins == c.wins
    requires SameElection(c.nodes[i], d.nodes[i].(role := c.nodes[i].role))
    requires d.nodes[i].role == c.nodes[i].role || d.nodes[i].role in {Follower, Offline, Reconnecting}
    ensures Quiet(c, d)
  {
  }

  lemma OtherIsQuiet(c: Cluster, e: Event)
    requires Enabled(c, e) && IsQuiet(e)
    ensures Quiet(c, Do(c, e))
  {
    hide Append, NewEntry, Quiet;
    if e.Receive? {
      AppendKeepsElection(c.nodes[e.i], e.m.basis[e.m.prev + 1..], e.m.prev, PrevTerm(e.m), e.leaderCommit);
    }
    QuietAt(c, Do(c, e), e.i);
  }

  lemma AppendKeepsElection(n: Node, entries: Log, prev: Index, prevTerm: int, leaderCommit: Index)
    ensures SameElection(n, Append(n, entries, prev, prevTerm, leaderCommit).0)
  {
  }

  lemma StepKeeps(c: Cluster, e: Event)
    requires ElectionInv(c) && Enabled(c, e)
    ensures ElectionInv(Do(c, e))
  {
    hide ElectionInv, Vote, Append;
    var d := Do(c, e);
    match e {
      case StartElection(i) => StandKeeps(c, d, i);
      case AnswerVote(a) =>
        var (m, ok) := Vote(c.nodes[a.peer], a.term, a.candidate, a.lastTerm);
        VoteFacts(c.nodes[a.peer], a.term, a.candidate, a.lastTerm);
        AnswerKeeps(c, d, a.peer, m, if ok then {Grant(a.peer, a.term, a.candidate)} else {});
      case Tally(i, yes) => TallyKeeps(c, d, i, yes);
      case CloseElection(i) => CloseKeeps(c, d, i);
      case _ =>
        OtherIsQuiet(c, e);
        QuietKeeps(c, d);
    }
  }

  lemma {:induction false} RunKeeps(states: seq<Cluster>, events: seq<Event>, k: nat)
    requires Run(states, events) && k < |states|
    ensures ElectionInv(states[k])
  {
    if k > 0 {
      hide Do, Enabled, ElectionInv;
      RunKeeps(states, events, k - 1);
      StepKeeps(states[k - 1], events[k - 1]);
    } else {
      StartHolds(states[0]);
    }
  }

  lemma StartHolds(c: Cluster)
    requires Start(c)
    ensures ElectionInv(c)
  {
  }

  // ---------- history only grows ----------

  ghost predicate Later(c: Cluster, d: Cluster) {
    && d.nodes.Keys == c.nodes.Keys && c.grants <= d.grants && c.wins <= d.wins
    && forall i :: i in c.nodes ==> c.nodes[i].term <= d.nodes[i].term
  }

  lemma StepGrows(c: Cluster, e: Event)
    requires Enabled(c, e)
    ensures Later(c, Do(c, e))
  {
    if IsQuiet(e) {
      OtherIsQuiet(c, e);
    } else if e.AnswerVote? {
      VoteFacts(c.nodes[e.ask.peer], e.ask.term, e.ask.candidate, e.ask.lastTerm);
    }
  }

  lemma {:induction false} RunGrows(states: seq<Cluster>, events: seq<Event>, j: nat, k: nat)
    requires Run(states, events) && j <= k < |states|
    ensures Later(states[j], states[k])
    decreases k - j
  {
    hide Do, Enabled;
    if j < k {
      RunGrows(states, events, j, k - 1);
      StepGrows(states[k - 1], events[k - 1]);
    }
  }

  /** Each node's term never falls, and the votes it gives in one term are all for one candidate. */
  lemma TermsAndVotes(states: seq<Cluster>, events: seq<Event>, j: nat, k: nat, i: Id)
    requires Run(states, events) && j <= k < |states| && i in states[j].nodes
    ensures i in states[k].nodes && states[j].nodes[i].term <= states[k].nodes[i].term
    ensures forall g, h | g in states[j].grants && h in states[k].grants && g.voter == h.voter == i && g.term == h.term ::
              g.candidate == h.candidate
  {
    hide Do, Enabled, BallotOk, WinOk, Member, Elected;
    RunGrows(states, events, j, k);
    RunKeeps(states, events, k);
  }

  // ---------- odd clusters ----------

  lemma DisjointSize<T>(a: set<T>, b: set<T>, all: set<T>)
    requires a !! b && a + b <= all
    ensures |a| + |b| <= |all|
  {
    SubsetSize(a + b, all);
  }

  lemma VotersAreNodes(c: Cluster, w: Win)
    requires forall g :: g in c.grants ==> GrantOk(c, g)
    ensures Voters(c, w.term, w.winner) <= c.nodes.Keys
  {
    forall x | x in Voters(c, w.term, w.winner) ensures x in c.nodes.Keys {
      var g :| g in c.grants && g.voter == x;
      assert GrantOk(c, g);
    }
  }

  lemma VotersApart(c: Cluster, v: Win, w: Win)
    requires OneVote(c) && v.term == w.term && v.winner != w.winner
    ensures Voters(c, v.term, v.winner) !! Voters(c, w.term, w.winner)
  {
  }

  /** Two winning sets of voters of an odd cluster share one. */
  lemma MajoritiesMeet<T>(a: set<T>, b: set<T>, all: set<T>)
    requires |all| % 2 == 1 && a <= all && b <= all
    requires WinsElection(|a|, |all| - 1) && WinsElection(|b|, |all| - 1)
    ensures !(a !! b)
  {
    if a !! b {
      DisjointSize(a, b, all);
    }
  }

  lemma WinFacts(c: Cluster, w: Win)
    requires ElectionInv(c) && w in c.wins
    ensures Voters(c, w.term, w.winner) <= c.nodes.Keys && |c.nodes.Keys| == |c.nodes| && |c.nodes| > 0
    ensures WinsElection(|Voters(c, w.term, w.winner)|, |c.nodes.Keys| - 1)
  {
    assert WinOk(c, w);
    VotersAreNodes(c, w);
    hide Voters, WinsElection;
    assert c.nodes.Keys != {};
  }

  lemma OneWinner(c: Cluster, v: Win, w: Win)
    requires ElectionInv(c) && |c.nodes| % 2 == 1
    requires v in c.wins && w in c.wins && v.term == w.term
    ensures v == w
  {
    assert OneVote(c);
    hide *;
    if v.winner != w.winner {
      WinFacts(c, v);
      WinFacts(c, w);
      VotersApart(c, v, w);
      MajoritiesMeet(Voters(c, v.term, v.winner), Voters(c, w.term, w.winner), c.nodes.Keys);
    }
  }

  ghost predicate SplitTerm(states: seq<Cluster>) {
    exists j: nat, k: nat, a, b ::
      && j < |states| && k < |states| && a in states[j].nodes && b in states[k].nodes && a != b
      && states[j].nodes[a].role == Leader && states[k].nodes[b].role == Leader
      && states[j].nodes[a].term == states[k].nodes[b].term
  }

  /** In an odd cluster no term ever has two leaders, not even at different moments of a run. */
  lemma ElectionSafety(states: seq<Cluster>, events: seq<Event>)
    requires Run(states, events) && |states[0].nodes| % 2 == 1
    ensures !SplitTerm(states)
  {
    forall j: nat, k: nat, a, b | j <= k < |states| && a in states[j].nodes && b in states[k].nodes
      && states[j].nodes[a].role == Leader && states[k].nodes[b].role == Leader
      && states[j].nodes[a].term == states[k].nodes[b].term
      ensures a == b
    {
      hide Do, Enabled, BallotOk, GrantOk, WinOk, Member;
      RunKeeps(states, events, j);
      RunKeeps(states, events, k);
      RunGrows(states, events, j, k);
      RunGrows(states, events, 0, k);
      assert Elected(states[j], a) && Elected(states[k], b);
      assert |states[k].nodes.Keys| == |states[0].nodes.Keys|;
      OneWinner(states[k], Win(states[j].nodes[a].term, a), Win(states[k].nodes[b].term, b));
    }
  }
}
