/** A cluster of nodes under any interleaving of elections, votes and replication.
    A candidate holds its own lock while it polls its peers, so it answers nobody
    meanwhile; requests may be delivered late, twice or never, and replies may be lost. */
module RaftCluster {
  import opened Options
  import opened RaftNode

  /** A running become_candidate: how many peers were asked and what was counted.
      `voters` remembers whose votes make up the number. */
  datatype Ballot = Ballot(asked: nat, votes: nat, voters: set<Id>)

  /** A vote request. The handler does not read the last index. */
  datatype Ask = Ask(candidate: Id, peer: Id, term: int, lastTerm: int, lastIndex: int)
  datatype Grant = Grant(voter: Id, term: int, candidate: Id)
  datatype Win = Win(term: int, winner: Id)

  /** An append_entries message. It carries basis[prev + 1..], the term at prev and the sender's term,
      which the handler does not read. */
  datatype Mail = Mail(basis: Log, prev: Index, term: int)

  /** The nodes, the ballots under way and the messages ever sent. `grants`, `wins` and
      `made` are history: votes ever given, elections ever won, and for each entry ever
      proposed, by term and index, the log that ended with it. */
  datatype Cluster = Cluster(
    nodes: map<Id, Node>, ballots: map<Id, Ballot>, asks: set<Ask>, mail: set<Mail>,
    grants: set<Grant>, wins: set<Win>, made: map<(int, int), Log>)

  datatype Event =
    | StartElection(i: Id)
    | AskPeer(i: Id)
    | AnswerVote(ask: Ask)
    | Tally(i: Id, yes: bool)
    | CloseElection(i: Id)
    | ProposeAt(i: Id, c: Command)
    | Send(i: Id, prev: Index, upto: nat)
    | Receive(i: Id, m: Mail, leaderCommit: Index)
    | StepAside(i: Id, to: Role)
    | CopyLog(i: Id, source: Id)
    | Elsewhere(i: Id, n: Node)

  ghost predicate Enabled(c: Cluster, e: Event) {
    match e
    case StartElection(i) => i in c.nodes && i !in c.ballots
    case AskPeer(i) => i in c.nodes && i in c.ballots && c.ballots[i].asked < |c.nodes[i].peers|
    case AnswerVote(a) => a in c.asks && a.peer in c.nodes && a.peer !in c.ballots
    case Tally(i, yes) =>
      && i in c.nodes && i in c.ballots && c.ballots[i].asked < |c.nodes[i].peers|
      && (yes ==> Grant(c.nodes[i].peers[c.ballots[i].asked], c.nodes[i].term, i) in c.grants)
    case CloseElection(i) => i in c.nodes && i in c.ballots && c.ballots[i].asked == |c.nodes[i].peers|
    case ProposeAt(i, _) => i in c.nodes && c.nodes[i].role == Leader
    case Send(i, prev, upto) => i in c.nodes && c.nodes[i].role == Leader && prev < upto <= |c.nodes[i].log|
    // any node, leading or not, takes a message with a previous index inside its log
    case Receive(i, m, _) =>
      && m in c.mail && i in c.nodes && i !in c.ballots
      && m.prev < |c.nodes[i].log| && m.prev < |m.basis|
    // go_offline, go_online and reconnect change role and log without the lock
    case StepAside(i, to) => i in c.nodes && to in {Follower, Offline, Reconnecting}
    case CopyLog(i, source) => i in c.nodes && source in c.nodes
    // anything that leaves role, term, vote and log alone
    case Elsewhere(i, n) => i in c.nodes && SameElection(c.nodes[i], n) && n.log == c.nodes[i].log
  }

  predicate SameElection(n: Node, m: Node) {
    m.id == n.id && m.peers == n.peers && m.role == n.role && m.term == n.term && m.votedFor == n.votedFor
  }

  ghost function Do(c: Cluster, e: Event): Cluster
    requires Enabled(c, e)
  {
    match e
    case StartElection(i) =>
      var n := Stand(c.nodes[i]);
      c.(nodes := c.nodes[i := n], ballots := c.ballots[i := Ballot(0, 1, {i})],
         grants := c.grants + {Grant(i, n.term, i)})
    case AskPeer(i) =>
      var n := c.nodes[i];
      c.(asks := c.asks + {Ask(i, n.peers[c.ballots[i].asked], n.term, LastTerm(n.log), |n.log| - 1)})
    case AnswerVote(a) =>
      var (n, ok) := Vote(c.nodes[a.peer], a.term, a.candidate, a.lastTerm);
      c.(nodes := c.nodes[a.peer := n],
         grants := if ok then c.grants + {Grant(a.peer, a.term, a.candidate)} else c.grants)
    case Tally(i, yes) =>
      var b := c.ballots[i];
      var peer := c.nodes[i].peers[b.asked];
      c.(ballots := c.ballots[i := if yes then Ballot(b.asked + 1, b.votes + 1, b.voters + {peer})
                                   else b.(asked := b.asked + 1)])
    case CloseElection(i) =>
      var n := c.nodes[i];
      c.(nodes := c.nodes[i := CloseBallot(n, c.ballots[i].votes)], ballots := c.ballots - {i},
         wins := if WinsElection(c.ballots[i].votes, |n.peers|) then c.wins + {Win(n.term, i)} else c.wins)
    case ProposeAt(i, command) =>
      var n := c.nodes[i];
      c.(nodes := c.nodes[i := n.(log := n.log + [NewEntry(n, command)])],
         made := c.made[(n.term, |n.log|) := n.log + [NewEntry(n, command)]])
    case Send(i, prev, upto) =>
      c.(mail := c.mail + {Mail(c.nodes[i].log[..upto], prev, c.nodes[i].term)})
    case Receive(i, m, leaderCommit) =>
      c.(nodes := c.nodes[i := Append(c.nodes[i], m.basis[m.prev + 1..], m.prev,
                                      PrevTerm(m), leaderCommit).0])
    case StepAside(i, to) => c.(nodes := c.nodes[i := c.nodes[i].(role := to)])
    case CopyLog(i, source) =>
      c.(nodes := c.nodes[i := c.nodes[i].(log := c.nodes[source].log)])
    case Elsewhere(i, n) => c.(nodes := c.nodes[i := n])
  }

  function PrevTerm(m: Mail): int
    requires m.prev < |m.basis|
  {
    if m.prev >= 0 then m.basis[m.prev].term else 0
  }

  /** Everyone knows everyone else; term 0, nobody elected, nothing in flight. */
  ghost predicate Start(c: Cluster) {
    && c.ballots == map[] && c.asks == {} && c.mail == {} && c.grants == {} && c.wins == {} && c.made == map[]
    && forall i :: i in c.nodes ==>
         var n := c.nodes[i];
         n.role == Follower && n.term == 0 && n.votedFor == None && Member(c, i)
  }

  ghost predicate Member(c: Cluster, i: Id)
    requires i in c.nodes
  {
    var n := c.nodes[i];
    && n.id == i
    && (forall j, k :: 0 <= j < k < |n.peers| ==> n.peers[j] != n.peers[k])
    && (set p | p in n.peers) == c.nodes.Keys - {i}
  }

  /** The states of a run, one more than its events. */
  ghost predicate Run(states: seq<Cluster>, events: seq<Event>) {
    && |states| == |events| + 1
    && Start(states[0])
    && forall k :: 0 <= k < |events| ==>
         Enabled(states[k], events[k]) && states[k + 1] == Do(states[k], events[k])
  }

  // ---------- election invariant ----------

  function Voters(c: Cluster, term: int, candidate: Id): set<Id> {
    set g | g in c.grants && g.term == term && g.candidate == candidate :: g.voter
  }

  ghost predicate GrantOk(c: Cluster, g: Grant) {
    && g.voter in c.nodes && g.term <= c.nodes[g.voter].term
    && (g.term == c.nodes[g.voter].term ==> c.nodes[g.voter].votedFor == Some(g.candidate))
  }

  ghost predicate OneVote(c: Cluster) {
    forall g, h :: g in c.grants && h in c.grants && g.voter == h.voter && g.term == h.term ==> g == h
  }

  ghost predicate BallotOk(c: Cluster, i: Id)
    requires i in c.ballots
  {
    var b := c.ballots[i];
    && i in c.nodes
    && b.asked <= |c.nodes[i].peers|
    && b.votes == |b.voters|
    && (forall v :: v in b.voters ==> v == i || v in c.nodes[i].peers[..b.asked])
    && (forall v :: v in b.voters ==> Grant(v, c.nodes[i].term, i) in c.grants)
    && c.nodes[i].role != Leader
    && Win(c.nodes[i].term, i) !in c.wins
  }

  ghost predicate WinOk(c: Cluster, w: Win) {
    && w.winner in c.nodes && w.term <= c.nodes[w.winner].term
    && WinsElection(|Voters(c, w.term, w.winner)|, |c.nodes| - 1)
  }

  ghost predicate Elected(c: Cluster, i: Id)
    requires i in c.nodes
  {
    c.nodes[i].role == Leader ==> Win(c.nodes[i].term, i) in c.wins
  }

  ghost predicate ElectionInv(c: Cluster) {
    && (forall i :: i in c.nodes ==> Member(c, i) && Elected(c, i))
    && (forall g :: g in c.grants ==> GrantOk(c, g))
    && OneVote(c)
    && (forall i :: i in c.ballots ==> BallotOk(c, i))
    && (forall w :: w in c.wins ==> WinOk(c, w))
  }
}
