# Verification of prodinamik-engine

This project models the parts of the engine where state, order and time interact, and proves what
they keep. Each component is given twice: as functions on values, and as a class or method in the
shape of the Python code (fields updated in place, loops, recursion over shared sets) that is proved
to compute exactly those functions. The theorems are then about the functions and about whole runs.

- **Raft** (`RaftNode`, `RaftCluster`, `RaftElection`, `RaftSplit`, `RaftLog`, `RaftDiverge`, `RaftComplete`,
  `RaftKept`, `RaftLoss`, `RaftReign`, `RaftQuorum`, `RaftStale`): a node and a cluster under any
  interleaving of elections, votes, proposals and messages that may be late, repeated or lost. Sections
  5.2 to 5.4 of "In Search of an Understandable Consensus Algorithm" (Ongaro and Ousterhout, 2014) are
  the reference for election safety, log matching and leader completeness.
- **Merge and reconnect** (`RaftMerge`, `RaftReconnect`): the path search, the merge order and the
  return of a node that was offline.
- **State machines** (`Graphs`, `Rotations`, `CycleSearch`, `Machine`, `Acceptance`, `DeadEnds`, `Traps`,
  `MachineRuntime`, `LtlMonitor`, `LtlRejected`): validation of a definition, guarded transitions behind an
  LRU cache, and the incremental monitor of temporal rules against finite-trace semantics.
- **Plugins** (`PluginOrder`): dependency order by depth-first search.
- **Runs** (`RunStore`, `RunSafety`, `RunFiles`, `Reentries`, `CrashRuns`): log, snapshot and metadata writes one by one, with a
  crash between any two, also over whole runs, and recovery.
- **Logs** (`EventStore`, `EventRules`, `EventHistory`, `AuditLog`, `AuditOrder`, `AuditReplay`): numbering, retention, compaction,
  rotation and replay over whole histories.
- **Numbers** (`RateLimit`, `RateExact`, `Forecast`, `Smoothing`): the token bucket, least squares and
  double exponential smoothing, over real numbers.
- **Event bus** (`EventBus`, `EventCascade`, `TraceCascade`): hop limit, duplicate check and the cascades they allow.

## Where the code and its description differ

The model follows the code. Where a property one would expect is false of it, the exact condition is
proved instead.

- The vote threshold is called a majority, but in an even cluster half of the nodes can elect a leader
  each: election safety holds exactly for odd sizes (`RaftSplit.SafeExactlyWhenOdd`). The same
  threshold for acknowledgements lets an even cluster commit what only half of it holds
  (`RaftQuorum.HalfCommits`).
- Acknowledgements are never cleared, so those taken in an earlier reign, for entries that were replaced
  since, can make up for missing holders (`RaftStale.StaleBegins`). What a reign commits is held by a
  quorum exactly when no inherited entry is overcounted or there are less than five nodes
  (`RaftStale.QuorumExactly`), and by more than half exactly when the size is odd, too
  (`RaftStale.MostExactly`).
- `append_entries` does not check that the previous index is inside the log (`RaftLog.PlacedExactly`) and
  is not given the sender's term, so a leader takes entries like any other node and loses its own
  exactly when a term differs (`RaftLog.KeepsLogExactly`). In an odd cluster logs match over all runs in
  which that does not happen (`RaftLog.LogMatching`); in an even one they need not
  (`RaftDiverge.MatchExactlyWhenOdd`); and when it may happen, only a cluster of one is safe
  (`RaftDiverge.MatchExactlyWhenAlone`).
- `request_vote` does not read the candidate's last index, so a node with a shorter log can win the votes
  of those that hold a committed entry, which is then lost (`RaftLoss.CommittedLost`). No committed entry
  is lost by an odd cluster in the runs in which nothing passes that the two fields left unread, the last
  index and the sender's term, would have stopped (`RaftKept.LeaderCompleteness`).
- An offline transition to an empty target is shown as an empty state, while committing it changes
  nothing (`RaftReconnect.ShownExactly`).
- `ack_entry` accepts an index that the log does not hold; when it reaches a quorum, applying fails
  (`RaftNode.DistributedStateMachine.AckEntry`).
- The merge step of a reconnect is described as resolving conflicts; it never changes anything
  (`RaftReconnect.MergeChangesNothing`). The pending list is cleared even when the other node did not
  lead and refused every proposal (`RaftReconnect.HybridConsensusNode.Reconnect`).
- Validation lets pass definitions in which no terminal state can be reached from some state. It skips
  cycles of one state, so a state that leads only to itself is never reported (`Traps.LoopAccepted`); it
  asks for an exit of initial and intermediate states only, so a pause or an error may have none
  (`Traps.HaltAccepted`); and it reports one cycle, so a closed set in which a state has two ways back may
  go unreported (`Traps.TrapAccepted`). Where each state has at most one way back, the first two are the
  only reasons (`DeadEnds.AcceptedEnds`).
- The temporal monitor goes on after a rejected call with what that call has written: a violated G rule
  rejects every later call, but a violation hidden by another rule is forgotten
  (`LtlRejected.FlaggedExactly`), and X rules listed after the violated one are dropped
  (`LtlRejected.RejectedPending`).
- `update_state` asks with a new runtime each time, so a limit on re-entries stops it only when it is not above zero
  (`Reentries.LimitForgotten`); one runtime that is kept is stopped exactly at the limit
  (`Reentries.KeptRuntimeExactly`).
- An update writes the log before the metadata, so a crash in between leaves them different
  (`RunSafety.CrashSplits` says exactly when); recovery follows the log. A create that is cut off can
  leave a run that recovery does not know or takes for archived, an archive one that is recovered as
  active (`RunSafety.CreateSplits`, `RunSafety.ArchiveSplits`). After such a cut the log can tell of moves
  that the definition does not allow (`CrashRuns.LogPathBreaks`), the metadata cannot
  (`CrashRuns.CrashRunSafety`). Archiving a directory without metadata, as a create that was cut off
  leaves it, destroys an older archived copy; nothing else loses metadata (`RunFiles.StaysSomewhere`).
- `recover` does not save what it recovered, and `_compact_wal` then compares `YYYYMMDD` with
  `YYYY-MM-DD`, so it keeps the log files of the latest year and deletes all earlier ones. A second
  recover can differ (`RunSafety.RecoverAgainExactly`).
- Event numbers are unique within a process only: reopening after the newest event was purged, without
  having been archived, reuses its number (`EventHistory.ReopenExact`). A compaction counts old events
  that it leaves in place, and counts them again the next time (`EventHistory.CompactAgain`).
- Audit segments are numbered with three digits but sorted as text, so order is lost from the
  thousandth on (`AuditOrder.RunReadExactly`). A restart counts from zero, so a segment can exceed the
  limit by what the active file held (`AuditOrder.ReopenedLate`). `count()` without a type gives the active file only.

## Model

| member | source | states |
|---|---|---|
| RaftNode.FoldJoins | engine/raft_consensus.py:216-244 | Applying a log in two parts gives the same state map as applying it in one |
| RaftNode.FoldLastWriter | engine/raft_consensus.py:223-244 | After any log a run is known if it was before or some command names it; it is in the state the log wrote last (a named target, the initial state or "start", "archived") and its version counts the writes since it was last created |
| RaftNode.DistributedStateMachine.constructor | engine/raft_consensus.py:99-135 | A node starts as follower of term 0 with the saved log and map, nothing committed or applied |
| RaftNode.DistributedStateMachine.BecomeFollower | engine/raft_consensus.py:142-150 | The whole node after stepping down: role, term and vote change, nothing else |
| RaftNode.DistributedStateMachine.BecomeCandidate | engine/raft_consensus.py:152-163 | The peer loop counts the granted votes; the node leads exactly when they, with its own, exceed half the peers |
| RaftNode.DistributedStateMachine.RequestVote | engine/raft_consensus.py:200-212 | Answer, term, role and vote for every term, candidate and last log term: stale, newer and equal terms, a vote already given |
| RaftNode.DistributedStateMachine.AppendEntries | engine/raft_consensus.py:178-198 | Refused or not; the entry loop over the log in place equals the splice of the entries at prev + 1; an accepted message that carries a higher commit index leaves it, clipped to the log, with every entry up to it applied |
| RaftNode.DistributedStateMachine.LearnCommit | engine/raft_consensus.py:533-539 | A heartbeat with a higher commit index moves the commit index to it, clipped to the log, and leaves everything up to it applied; any other changes nothing |
| RaftNode.DistributedStateMachine.ApplyCommitted | engine/raft_consensus.py:216-221 | The loop leaves the fold of every newly committed command, and the applied index at the commit index |
| RaftNode.DistributedStateMachine.ProposeCommand | engine/raft_consensus.py:249-274 | Refused unless leading; otherwise the log gains one entry of this term, acknowledged by the leader alone, committed and applied at once if that is a quorum, else committing nothing |
| RaftNode.DistributedStateMachine.AckEntry | engine/raft_consensus.py:276-293 | The peer is added to the acknowledgements of any index; a quorum for a later index commits and applies; past the end of the log the call fails with everything in the log applied |
| RaftNode.LearnApplies | engine/raft_consensus.py:533-539 | A node that hears of a higher commit index commits up to it or to the end of its log, and applies all of that; of a lower one nothing changes |
| RaftNode.AppendLearns | engine/raft_consensus.py:178-198 | An accepted message leaves the spliced log with what it commits applied; a refused one changes nothing |
| RaftElection.VoteFacts | engine/raft_consensus.py:200-212 | A vote never lowers the term; a granted one leaves the candidate as the vote of that term |
| RaftElection.TermsAndVotes | engine/raft_consensus.py:142-212 | Over any interleaving of elections and votes, with lost replies: each node's term never falls, and all its votes in one term are for one candidate |
| RaftElection.OneWinner | engine/raft_consensus.py:152-163 | In an odd cluster two wins of one term are by the same node |
| RaftElection.ElectionSafety | engine/raft_consensus.py:142-212 | In an odd cluster no run ever has two different nodes leading in one term, not even at different moments |
| RaftSplit.EvenLeads | engine/raft_consensus.py:152-163 | In every even cluster some run of votes gives two nodes the leadership of term 1 at once |
| RaftSplit.SafeExactlyWhenOdd | engine/raft_consensus.py:152-163 | All runs from a fresh cluster are free of split terms if and only if the cluster size is odd |
| RaftLog.AppendResult | engine/raft_consensus.py:178-198 | For a leader message with prev inside the follower's log: refused exactly when the logs differ up to prev, and then unchanged; otherwise the log is the longer of the two if they agree, else the leader's |
| RaftLog.AppendMatches | engine/raft_consensus.py:178-198 | After acceptance the follower equals the leader up to the end of the slice, agreeing entries stay, repeating the message changes nothing, and every log that matched both still matches |
| RaftLog.PlacedExactly | engine/raft_consensus.py:180-190 | Entries land at the index they carry if and only if prev is inside the log or nothing is sent |
| RaftLog.KeepsLogExactly | engine/raft_consensus.py:178-198 | For every node, leading or not, and every message: the log is kept if and only if the message is refused or each entry sent for an occupied place has the term of the entry there |
| RaftLog.LeaderLosesEntries | engine/raft_consensus.py:178-198 | So a stale message can erase what a leader proposed: a concrete node and message |
| RaftLog.LogMatching | engine/raft_consensus.py:178-198 | Over any run of elections, proposals over many terms and late, repeated or lost messages to any node, leaders too, in an odd cluster: two logs with equal terms at an index are equal up to it, at every moment, as long as no leader loses entries |
| RaftDiverge.LateMessageDiverges | engine/raft_consensus.py:178-198 | In every cluster of three or more nodes a run in which an old message reaches a later leader and two logs then differ under the same term and index |
| RaftDiverge.EvenDiverges | engine/raft_consensus.py:152-163 | In every even cluster a run without any message after which two logs differ under the same term and index |
| RaftDiverge.MatchExactlyWhenOdd | engine/raft_consensus.py:142-274 | Over all runs in which leaders keep their entries, all logs match if and only if the size is odd |
| RaftDiverge.MatchExactlyWhenAlone | engine/raft_consensus.py:142-274 | Over all runs whatever, all logs match if and only if there is one node |
| RaftComplete.HistStep | engine/raft_consensus.py:142-274 | A step in which no log is copied, messages are taken in the term of their sender and votes pass the length check keeps the history of reigns right: logs sorted by term, every message a part of its sender's reign, every entry on top of the log its leader was elected with; and no leader loses entries |
| RaftKept.LeaderCompleteness | engine/raft_consensus.py:200-212 | Over every such run of an odd cluster: whoever leads in a later term, at whatever moment, holds all of what a quorum acknowledged, at moments of their own, in the term of its last entry |
| RaftKept.CommittedAgree | engine/raft_consensus.py:276-293 | Over the same runs any two committed logs agree: one is a prefix of the other |
| RaftLoss.CommittedLost | engine/raft_consensus.py:200-212 | In every cluster of three or more nodes a run with all messages taken in their sender's term after which a later leader lacks a committed entry: the vote ignores the length of the log |
| RaftLoss.KeptExactlyWhenAlone | engine/raft_consensus.py:200-212 | Without the length check an odd cluster keeps what it committed over all runs with messages in term if and only if it has one node |
| RaftLoss.CarefulComplete | engine/raft_consensus.py:200-212 | With it every such run keeps what was committed, for all logs, moments and leaders |
| RaftReign.HearSound | engine/raft_consensus.py:178-198 | A message or heartbeat extends the follower's log within the leader's and keeps its map the fold of what it applied |
| RaftReign.StepKeeps | engine/raft_consensus.py:249-293 | Proposals, deliveries, heartbeats and acknowledgements each keep the reign invariant; logs and commit indices only grow |
| RaftReign.Replicas | engine/raft_consensus.py:216-293 | At any moment of a reign every log is a prefix of the leader's, applied <= commit < length, and any two maps differ by exactly the fold of the entries between: equal applied indices give equal maps |
| RaftReign.CommitsHeld | engine/raft_consensus.py:276-293 | Whatever acknowledgements an earlier reign left, if no inherited entry is overcounted by them or there are less than five nodes: an index committed in a reign stays in the leader's log and is held by a quorum then and ever after; in an odd cluster by more than half of the nodes |
| RaftReign.CommittedApplied | engine/raft_consensus.py:178-293 | Where every node starts with all it has committed applied, every node's map is at every moment of the reign the fold of its log up to its commit index |
| RaftReign.DeliveryApplies | engine/raft_consensus.py:178-198 | A delivered message or heartbeat takes the follower to the commit index it carries, or the end of its log, and its map to the fold of the leader's log up to there |
| RaftReign.AcksStay | engine/raft_consensus.py:142-212 | No message, vote or election changes the acknowledgements, whatever it does to the log |
| RaftQuorum.HalfCommits | engine/raft_consensus.py:276-293 | From every start of a reign in an even cluster a run that commits an index which exactly half of the nodes hold |
| RaftStale.StaleCommits | engine/raft_consensus.py:276-293 | Whenever an inherited entry is overcounted, a run of sends and acknowledgements commits it while less than a quorum holds it |
| RaftStale.QuorumExactly | engine/raft_consensus.py:276-293 | Over all runs of a reign, what it commits is held by a quorum if and only if no inherited entry is overcounted or the cluster has less than five nodes |
| RaftStale.MostExactly | engine/raft_consensus.py:276-293 | And by more than half of the nodes if and only if, besides, their number is odd |
| RaftStale.ReturnedIs | engine/raft_consensus.py:142-293 | A leader that proposed and took an acknowledgement, was deposed, had its log replaced and was elected again still counts that acknowledgement |
| RaftStale.StaleBegins | engine/raft_consensus.py:276-293 | With that leader a reign of five nodes begins with an overcounted entry |
| RaftMerge.PathFinder.Find | engine/raft_consensus.py:70-85 | The recursive search with one shared visited set terminates and equals the functional search, visited set included |
| RaftMerge.FindPathExact | engine/raft_consensus.py:70-85 | A path is found if and only if the end is reachable; it is then a simple walk from start to end |
| RaftMerge.MergeTakes | engine/raft_consensus.py:31-56 | The remote state is taken exactly when it is at least as far, by version and then reachability; the result is one of the two, with the larger version |
| RaftMerge.MergeCommutesExactly | engine/raft_consensus.py:31-56 | On every graph: merge commutes if and only if the states are equal or exactly one is at least as far as the other |
| RaftMerge.MergeAssociatesExactly | engine/raft_consensus.py:31-56 | On every graph: the exact condition for merge to associate |
| RaftMerge.AtMostAntisymmetric | engine/raft_consensus.py:31-68 | On an acyclic graph two states that are each at least as far as the other are equal |
| RaftMerge.MergeAllGreatest | engine/raft_consensus.py:31-56 | Merging pairwise comparable states gives one of them that is at least as far as all |
| RaftMerge.MergeOrderIrrelevant | engine/raft_consensus.py:31-56 | On an acyclic graph the order and repetition of comparable states do not affect their merge |
| RaftReconnect.HybridConsensusNode.ApplyPending | engine/raft_consensus.py:405-424 | An offline write appends one pending operation with the version known before it, and shows in the local map, with a missing target keeping the state and an empty one overwriting it; without a slug nothing happens |
| RaftReconnect.ShownExactly | engine/raft_consensus.py:223-244 | What an offline write shows is what committing it gives if and only if it changes no run, moves it to a named state or creates what is already there |
| RaftReconnect.HybridConsensusNode.SubmitPending | engine/raft_consensus.py:666-674 | The loop proposes the operations not yet applied, in order, and marks those accepted |
| RaftReconnect.HybridConsensusNode.MergeStates | engine/raft_consensus.py:676-690 | The merge loop leaves the leader as it was |
| RaftReconnect.HybridConsensusNode.Reconnect | engine/raft_consensus.py:657-698 | The node ends with the leader's old log, all of it committed and applied, the leader's final map, no pending list and role follower; the leader's log goes on with exactly the unapplied commands if it leads, and as it was otherwise |
| RaftReconnect.MergeChangesNothing | engine/raft_consensus.py:676-690 | For all states and graphs a turn of the merge step writes back what the leader already has |
| RaftReconnect.SubmittedExactly | engine/raft_consensus.py:666-674 | The leader's log gains exactly the unapplied commands in order if and only if it leads or there are none |
| RaftReconnect.ProposedAfter | engine/raft_consensus.py:666-674 | Submitting adds behind the leader's old log just the unapplied commands if it leads, else nothing |
| RaftReconnect.SubmittedMarks | engine/raft_consensus.py:666-674 | An operation comes back as applied if and only if it was or the other node leads |
| RaftReconnect.SubmittedApplied | engine/raft_consensus.py:249-279 | A leader that is a quorum by itself has then applied its whole log, if anything was submitted; one that is not has applied nothing new |
| Rotations.CanonicalLeast | engine/state_machine.py:181-187 | The name of a cycle is a rotation of it, and the least of all its rotations |
| Rotations.CanonicalDecides | engine/state_machine.py:181-187 | Two cycles get the same name if and only if one is a rotation of the other |
| CycleSearch.CycleFinder.Search | engine/state_machine.py:178-198 | The recursive search over path, path set and marked states terminates and equals the functional search |
| CycleSearch.CycleFinder.FindAll | engine/state_machine.py:172-202 | The loop over the declared states reports the functional search's cycles |
| CycleSearch.FindCyclesExact | engine/state_machine.py:172-202 | Something is reported if and only if a declared state reaches a directed cycle; each report is a real simple cycle, none a rotation of another |
| CycleSearch.FindCyclesOnDeclared | engine/state_machine.py:172-202 | When only declared states have edges, nothing is reported if and only if the graph is acyclic |
| CycleSearch.DeadEndTraps | engine/state_machine.py:103-120 | From a reported dead end no walk leaves it, every state in it has a successor, so no state without successors is reachable |
| Machine.GraphExact | engine/state_machine.py:44-48 | The transition map has an edge exactly where a transition is declared, in the order declared |
| Machine.OutgoingAt | engine/state_machine.py:44-48 | Each transition out of a state stands in its list right behind those declared before it |
| Machine.StateMachineCompiler.constructor | engine/state_machine.py:35-48 | The map built transition by transition lists the transitions out of each state |
| Machine.StateMachineCompiler.FindReachable | engine/state_machine.py:204-217 | The queue search terminates and returns exactly the states reachable from an initial state |
| Machine.StateMachineCompiler.Validate | engine/state_machine.py:54-63 | The reported issues are exactly those of the definition, of all seven kinds |
| Machine.StateMachineCompiler.ValidateStates | engine/state_machine.py:65-131 | Exactly the issues of initial, intermediate, terminal and unreachable states |
| Machine.StateMachineCompiler.ValidateCycleExits | engine/state_machine.py:103-120 | A dead end is reported exactly for each cycle found that has more than one state and no edge out |
| Machine.StateMachineCompiler.ValidateTransitionTargets | engine/state_machine.py:144-157 | Exactly the transitions with an undeclared source or target are reported |
| Acceptance.AcceptedExactly | engine/state_machine.py:54-170 | A definition is accepted if and only if both ends of every transition are declared, initial and intermediate states have a way on, terminal ones have none and no re-entries, every state but the initial ones is entered from an initial one, and every cycle found, of several states, has a way out |
| MachineRuntime.FirstMatchExact | engine/state_machine.py:258-263 | The transition consulted is the first declared one between the two states: it is at an index with no earlier match, and missing exactly when there is none |
| MachineRuntime.AllowedIsEdge | engine/state_machine.py:239-315 | What is allowed is a declared edge between declared states that leaves no terminal state, by a transition that needs no human |
| MachineRuntime.FirstMatchDeclared | engine/state_machine.py:258-263 | The search over the map finds the first transition declared between the two states, if there is one |
| MachineRuntime.DecideExact | engine/state_machine.py:239-315 | From the definition alone: allowed if and only if both states are declared, the first is not terminal, and the first transition declared between them needs no human and, with a runtime, a self-loop is below its limit, the rules answer yes and the condition is missing, empty or true; each refusal has its one cause in the order of the checks |
| MachineRuntime.ConsultedExactly | engine/state_machine.py:288-298 | The checks before the rules pass if and only if the answer of the rules decides |
| MachineRuntime.StateMachine.Touch | engine/state_machine.py:242-247 | A hit moves its item to the recent end and answers what the definition says |
| MachineRuntime.StateMachine.Remember | engine/state_machine.py:308-313 | A full cache drops its least recently used item, and every item stays right |
| MachineRuntime.StateMachine.NextStates | engine/state_machine.py:223-237 | Through any cache state the answer is the list of targets in the definition |
| MachineRuntime.StateMachine.CanTransitionStatic | engine/state_machine.py:239-315 | Through any cache state the answer is that of the uncached decision |
| MachineRuntime.StateMachine.CanTransition | engine/state_machine.py:239-315 | With a runtime: the checks one after the other give the decision with the monitor's answer, the monitor is consulted exactly when those before the rules pass, and only an allowed self-loop counts as a re-entry |
| DeadEnds.RingReported | engine/state_machine.py:172-202 | A closed set of states in which each has one successor and reaches all others is always reported, as a cycle through all of it |
| DeadEnds.TrapsFoundExactly | engine/state_machine.py:103-120 | Where each state has at most one successor leading back to it: every declared state can reach one without successors, terminal or not, if and only if no dead end is reported and no state leads only to itself |
| DeadEnds.DefinitionExits | engine/state_machine.py:103-120 | The same of a definition whose targets are declared, in terms of the issues of the constructor |
| DeadEnds.AcceptedEnds | engine/state_machine.py:69-120 | For every accepted definition in which each state has at most one way back: a terminal state can be reached from every state if and only if no state leads only to itself and no state without successors is of another kind than terminal |
| DeadEnds.StuckKinds | engine/state_machine.py:69-89 | In an accepted definition only an error or a pause can be without successors and not terminal |
| Traps.TrapAccepted | engine/state_machine.py:103-120 | A state with two ways back can hide a trap: a definition that the constructor accepts although from a reachable state no terminal state can be reached |
| Traps.LoopAccepted | engine/state_machine.py:103-106 | A state that leads only to itself is never reported: an accepted definition with one way back from each state in which such a state is reached and reaches nothing else |
| Traps.HaltAccepted | engine/state_machine.py:69-89 | A pause without a way on is never reported: an accepted definition with one way back from each state, and none that leads only to itself, in which no terminal state can be reached from a reachable one |
| LtlMonitor.Monitor.Call | engine/state_machine.py:404-497 | One call updates the accumulators, pending conditions and until states as the functional monitor does |
| LtlMonitor.CallStep | engine/state_machine.py:404-497 | A call is allowed exactly when the trace up to it still satisfies every rule |
| LtlMonitor.MonitorAgrees | engine/state_machine.py:404-497 | All calls of a trace are allowed if and only if it satisfies the rules in finite-trace semantics (G and plain always, X after the first moment, U weak); the F accumulators then say whether the condition has occurred |
| LtlMonitor.ViolationStays | engine/state_machine.py:404-497 | A violated rule stays violated on every longer trace |
| LtlRejected.CallAnswers | engine/state_machine.py:404-497 | Over any history, also one that rejected calls left: a call is allowed if and only if every pending condition holds and every rule answers yes on the history found |
| LtlRejected.FlaggedExactly | engine/state_machine.py:444-456 | Over all calls, rejected or not: the accumulator of a G rule is false if and only if some call got as far as the rule with its condition false |
| LtlRejected.RejectedForGood | engine/state_machine.py:444-456 | From then on every call is rejected |
| LtlRejected.PendingStays | engine/state_machine.py:433-439 | While a pending X condition fails, calls are rejected and change nothing but the list of calls; the first at which all hold is answered as if they had not been made |
| LtlRejected.RejectedPending | engine/state_machine.py:441-497 | A call that a rule rejects leaves pending just the X rules listed before that rule |
| LtlRejected.SatisfiedExactly | engine/state_machine.py:441-497 | Over all calls, rejected or not: an until rule counts as satisfied if and only if some call got as far as it with its second part true; an F accumulator exists if some call got that far, and is true if its condition was at such a call; every call is listed |
| PluginOrder.Resolver.VisitPlugin | engine/plugin_registry.py:76-93 | The recursive visit terminates, restores the path set and equals the functional visit |
| PluginOrder.Resolver.ResolveAll | engine/plugin_registry.py:64-100 | The loop over the plugins returns the order and the issues of the functional resolver |
| PluginOrder.ResolveExact | engine/plugin_registry.py:64-100 | Each plugin is output exactly once; a missing dependency is named exactly when some plugin has it, a cycle exactly when there is one |
| PluginOrder.ResolvedExactly | engine/plugin_registry.py:64-100 | Nothing is unresolved if and only if the graph is acyclic and complete, and then every dependency precedes its dependents |
| RunStore.RunManager.CreateRun | engine/run_manager.py:149-219 | Refused exactly when metadata exists or the profile has no initial state, and then nothing is written; otherwise metadata of version 0 in the first initial state, an untouched archive and one more log record |
| RunStore.RunManager.UpdateState | engine/run_manager.py:275-350 | Each outcome with its exact cause; a rejected update writes nothing, an accepted one leaves the metadata in the new state, one version on, a move out of "iteration" counted, and one more log record |
| RunStore.RunManager.ArchiveRun | engine/run_manager.py:356-387 | The metadata moves unaltered from the active to the archive directory, no other entry changes, and the log gains a record; a missing run changes nothing |
| RunStore.RunManager.RecoverRuns | engine/run_manager.py:468-528 | The replay loop gives the functional replay of the log over the snapshot |
| Machine.OfKindFirst | engine/run_manager.py:172-175 | The initial state of a new run is the first initial state listed |
| RunFiles.CreatedFiles | engine/run_manager.py:195-219 | A completed create: the new metadata, the archive untouched, the run recovered as active in its first state, and nothing about other runs changed |
| RunFiles.UpdatedFiles | engine/run_manager.py:300-344 | A completed update: state, version and iterations of the metadata, the same state and version recovered, and nothing about other runs changed |
| RunFiles.ArchivedFiles | engine/run_manager.py:370-385 | A completed archive: the metadata in the archive only, the run recovered as archived and otherwise as before, and nothing about other runs changed |
| RunFiles.ArchiveKeepsMetadata | engine/run_manager.py:370-385 | Cut off after any write, the metadata of the run is unaltered in exactly one of the two directories, and no other entry has changed |
| RunFiles.OlderCopyGone | engine/run_manager.py:370-376 | An older archived copy survives if and only if nothing was written or the same metadata took its place |
| RunFiles.StaysSomewhere | engine/run_manager.py:195-385 | Every cut of every accepted call leaves each run's metadata in one of the directories, except that archiving a directory without metadata destroys an older archived copy |
| RunSafety.ReplayLastWriter | engine/run_manager.py:468-528 | Over any snapshot each recovered field is what the log wrote last, or else what the snapshot had |
| RunSafety.ReplayIdempotent | engine/run_manager.py:468-528 | Replaying a log over its own result changes nothing |
| RunSafety.SuffixReplay | engine/run_manager.py:468-528 | Every suffix replayed over a snapshot equals full replay if and only if the snapshot already shows the entries left out |
| RunSafety.RecoverAgainExactly | engine/run_manager.py:468-559 | A second recover, after the first deleted earlier log files, returns the same if and only if every field those files wrote last is overwritten later or shown by the snapshot |
| RunSafety.CrashAtomic | engine/run_manager.py:195-213 | Wherever a create, update or archive is cut off, each run with a create record is recovered with the state and status before the call or after it, as the log's last writers say |
| RunSafety.CompletedAgrees | engine/run_manager.py:323-344 | A completed call leaves metadata, snapshot and recovery agreed on the run |
| RunSafety.CrashSplits | engine/run_manager.py:323-344 | An update cut off after k writes leaves metadata and recovered state different if and only if the log write completed and the metadata write did not |
| RunSafety.CreateSplits | engine/run_manager.py:195-213 | A create cut off after k writes, of a new slug or an archived one: metadata is there while recovery answers as before the call (unknown, or archived) if and only if the metadata was written and the log record not completed |
| RunSafety.ArchiveSplits | engine/run_manager.py:370-385 | An archive cut off after k writes is recovered as an active run if and only if the run was moved and neither the snapshot nor, where the log made it active, the log was written |
| RunSafety.WholeRunSafety | engine/run_manager.py:275-350 | Over any run of accepted calls with one profile: each run followed declared edges from the initial state and left no terminal state, its version counts its updates and its iterations the moves out of "iteration", metadata, snapshot and log agree, its state is reachable, and recovery returns the snapshot |
| Reentries.KeptRuntimeExactly | engine/state_machine.py:268-305 | With one runtime kept from call to call, and a transition that needs neither human nor condition, exactly as many self-loops in a row are allowed as the limit leaves |
| Reentries.LimitForgotten | engine/run_manager.py:300-317 | Over the updates of a run without overrides, however many self-loops were made, the next is allowed if and only if there is no limit or one above zero |
| CrashRuns.CrashRunSafety | engine/run_manager.py:195-385 | Over any run of accepted calls, each cut off anywhere or not: metadata came along declared edges in as many steps as its version says, every log record is of such a step, and recovery reports only reachable states |
| CrashRuns.CompletedLasts | engine/run_manager.py:323-344 | After a completed create or update, metadata and recovery agree on the run's state until the next call about it, whatever was cut off before or elsewhere |
| CrashRuns.CutDecides | engine/run_manager.py:323-344 | An update cut off in such a run leaves them agreed, until the next call about the run, if and only if it changes no state or was cut off outside the gap between log record and metadata |
| CrashRuns.LogGoesOnExactly | engine/run_manager.py:323-344 | The log goes on telling of a legal path if and only if the move could be made from where the log, not only the metadata, says the run is |
| CrashRuns.LogPathBreaks | engine/run_manager.py:323-344 | A run with one cut after which the log tells of leaving a terminal state |
| EventStore.EventLog.AppendOne | engine/event_store.py:200-218 | One file and one index entry under the next number |
| EventStore.EventLog.AppendMany | engine/event_store.py:220-250 | The batch equals appending one by one, and returns consecutive numbers |
| EventStore.EventLog.Get | engine/event_store.py:256-266 | The event with that number, or nothing |
| EventStore.EventLog.GetRange | engine/event_store.py:268-277 | The first events numbered from start, up to the limit; a limit beyond the last number gives the whole contents in order |
| EventStore.EventLog.PurgeExpired | engine/event_store.py:341-370 | The loop leaves the store without its outdated events and returns how many it removed |
| EventStore.EventLog.CompactOld | engine/event_store.py:372-414 | Nothing below ten old events; otherwise the store without old details and with one summary, which is returned |
| EventStore.EventLog.constructor | engine/event_store.py:186-194 | A new directory is empty and numbers go on from the highest one archived |
| EventStore.EventLog.LoadLast | engine/event_store.py:446-463 | The highest number on file or in the archive directory, or 0 |
| EventStore.AppendAllNumbers | engine/event_store.py:220-250 | A batch keeps index and files in step and advances the last number by its length |
| EventStore.KeepExact | engine/event_store.py:364-366 | Removing numbers keeps the rest of the index, strictly increasing, and nothing else |
| EventStore.PageWhole | engine/event_store.py:268-281 | A page with room for every number is the stored events in index order |
| EventRules.PageExact | engine/event_store.py:268-281 | For any start and limit a page is the first so many of the stored events numbered from start on |
| EventRules.PurgedExactly | engine/event_store.py:138-166 | In days, for each kind, when a purge under the default table removes an event; a kind missing from a table is kept for thirty days |
| EventRules.CompactsExactly | engine/event_store.py:372-398 | Compaction changes a store if and only if ten or more events are older than thirty days, and drops the validation details among them |
| EventRules.SummaryExact | engine/event_store.py:416-440 | The whole summary event: number, time, how many old events there are, their cost, how many passed and how many did not |
| EventHistory.NeverReused | engine/event_store.py:200-250 | Over any run of appends, batches, purges and compactions, what is stored later is unaltered or has a number above all given out before |
| EventHistory.ReopenExact | engine/event_store.py:446-463 | After reopening, the next append keeps that promise if and only if the newest event is still on file or archived |
| EventHistory.ReopenAfterRun | engine/event_store.py:446-463 | The same for any directory opened over an archive and then used in any run |
| EventHistory.PurgeExact | engine/event_store.py:341-370 | Purge leaves exactly the events that are not outdated, in order |
| EventHistory.CompactExact | engine/event_store.py:372-414 | Compaction leaves all but the old details, in order, followed by the summary |
| EventHistory.SummaryAccounts | engine/event_store.py:416-440 | The summary counts each old event once as passed or failed; its cost is that of the removed details and of the old events left; the store loses exactly the details and their cost |
| EventHistory.CompactAgain | engine/event_store.py:372-414 | Compacting twice at one moment adds a second summary if and only if ten or more old events that are not details were left |
| EventHistory.LastingKept | engine/event_store.py:138-166 | Over any run, the stored events of a kind without deadline that compaction does not touch are those stored before and those handed in, in order |
| EventHistory.KeptExactlyWhenLasting | engine/event_store.py:138-166 | A kind is stored exactly as handed in over all runs if and only if it has no deadline and is neither a validation detail nor a summary |
| EventHistory.TransitionsKept | engine/event_store.py:138-149 | Under the default table no state transition is lost, reordered or altered |
| AuditLog.Audit.RecordEntry | engine/audit.py:108-125 | The entry joins the active file; if the counter then reaches the limit, the file becomes a segment and the counter zero |
| AuditLog.Audit.CompactActive | engine/audit.py:206-264 | The entries before the cutoff become a segment, the others stay; the number moved is returned |
| AuditLog.Audit.RewriteActive | engine/audit.py:315-340 | The active file and the counter after dropping what is before the cutoff |
| AuditLog.Audit.IterAll | engine/audit.py:342-377 | The segments in the order of the directory listing, then the active file |
| AuditLog.Audit.ReplayInto | engine/audit.py:166-202 | The entries read, and the state after applying them in order |
| AuditOrder.NothingLost | engine/audit.py:108-125 | Over any run of records, compactions and restarts, whatever the clock did, each entry is stored as often as recorded |
| AuditOrder.CompactOrderExactly | engine/audit.py:206-264 | Compaction keeps the order of the log if and only if no entry before the cutoff follows one after it in the active file |
| AuditOrder.CompactExact | engine/audit.py:206-264 | Compaction changes the log if and only if the active file has an entry from before the cutoff; it moves all those and only those into one more segment, in order, and counts what stays |
| AuditOrder.StoredInOrder | engine/audit.py:294-340 | If the clock never goes back, the stored entries are the recorded ones in order |
| AuditOrder.NamesAgree | engine/audit.py:302-304 | Below a thousand, segment names sort as their numbers |
| AuditOrder.ListingExactly | engine/audit.py:342-346 | The sorted directory listing is in the order of writing if and only if there are fewer than a thousand segments |
| AuditOrder.ReplayUnchanged | engine/audit.py:166-202 | With such a clock and fewer than a thousand segments, replay gives the state of replaying the plain recorded list |
| AuditReplay.ReplayPerRun | engine/audit.py:181-202 | What replay leaves of each run: known if it was or was created, in the last state named since its last creation, with the transitions since counted, archived if an entry since says so |
| AuditReplay.ReplayGauges | engine/audit.py:181-202 | The degradation level and the metrics are the last recorded |
| AuditOrder.RunReadExactly | engine/audit.py:342-377 | If the recorded entries also differ, a reader sees them in order if and only if fewer than a thousand segments were archived |
| AuditOrder.CountsActive | engine/audit.py:108-125 | Within one process the counter is the length of the active file, which stays below the limit |
| AuditOrder.ReopenedLate | engine/audit.py:79-125 | A new process counts from zero: the file it finds becomes a segment when it has grown by the full limit, not before |
| RateLimit.RateLimiter.CheckKey | engine/ratelimit.py:44-79 | Verdict and new state of one check: first request, admitted, refused with its wait, and a zero rate |
| RateLimit.RateLimiter.Reset | engine/ratelimit.py:81-89 | Forgets one key, or all for an empty one |
| RateLimit.TokensBounded | engine/ratelimit.py:44-79 | Over any run of affordable checks every bucket stays between nothing and the burst |
| RateLimit.WindowBound | engine/ratelimit.py:44-79 | In any window of length d, whatever came before, the cost admitted for a key is at most burst + rate * d |
| RateLimit.WindowTight | engine/ratelimit.py:44-79 | For every d a run of checks reaches the bound |
| RateLimit.RefusalInvisible | engine/ratelimit.py:62-79 | A refused check changes no verdict of any later sequence of checks, for any key |
| RateLimit.WaitExact | engine/ratelimit.py:73-79 | Asked again after w, whatever was checked in between as long as nothing was admitted for the key, the same cost is admitted if and only if w is at least the wait returned |
| RateLimit.KeysIndependent | engine/ratelimit.py:44-79 | A key gets the verdicts it would get if its checks were the only ones |
| RateExact.RefusedExactly | engine/ratelimit.py:44-79 | Over any affordable run of a key first seen in it: a later check is refused if and only if admitting it would break the bound of some window from an earlier check of the key to now |
| RateExact.ShortExactly | engine/ratelimit.py:62-79 | The same for a key seen before, with its last bucket as one more window |
| RateExact.DearChecks | engine/ratelimit.py:51-60 | The first check of a key is admitted whatever it costs; later a cost above the burst never is |
| RateExact.ZeroRateExactly | engine/ratelimit.py:62-79 | With a rate of zero nothing comes back: admitted while the tokens last, an error then |
| RateExact.StatsCount | engine/ratelimit.py:44-79 | The statistics of a key count its admitted and its refused checks over any run |
| EventBus.SafeEventBus.EmitEvent | engine/safety.py:74-107 | Dispatched to one task per subscriber in order, behind those waiting; or stopped with the warning that says why, by five hops or by its key, and nothing else changed |
| EventBus.SafeEventBus.Unsubscribe | engine/safety.py:125-129 | Removes the first equal subscription, if there is one |
| EventBus.SafeEventBus.SafeCall | engine/safety.py:109-122 | One task emits the events that its handler has for the type handled; if the handler fails, and only then, a warning about it comes last |
| EventBus.SafeEventBus.RunLoop | engine/safety.py:74-122 | The event loop terminates with every task run, whatever cycles the subscriptions form |
| EventBus.RunNextShrinks | engine/safety.py:74-107 | A task leaves one waiting task fewer at its hop count and none more at lower ones: the measure of termination |
| EventBus.UnsubscribeUndoes | engine/safety.py:65-72 | Unsubscribing undoes the subscription of a new handler |
| EventCascade.DispatchedOnce | engine/safety.py:74-133 | Over any run, nothing with five hops is dispatched, and no pair of trace and type twice between clearings |
| EventCascade.DispatchedExactly | engine/safety.py:74-107 | After any run an event is dispatched, to every subscriber in order, if and only if it has fewer than five hops and no event dispatched since the last clearing has its key; otherwise one warning says which |
| EventCascade.ClearedAgain | engine/safety.py:131-133 | After a clearing any pair below the hop limit is dispatched again, whatever came before; subscriptions, waiting tasks and warnings stay |
| EventCascade.CascadeNext | engine/safety.py:74-122 | Each task keeps the cascade invariant: waiting tasks in hop order, every event at most one hop ahead of them, every subscriber waiting or handled |
| EventCascade.CascadeExact | engine/safety.py:74-122 | A cascade run to its end dispatches a type after n more hops if and only if n is its distance over the subscriptions and below the limit |
| TraceCascade.ApartPlain | engine/safety.py:94-95 | The joined keys of two traces without colons never coincide |
| TraceCascade.RunNextMine | engine/safety.py:74-122 | One turn of the loop is, for a trace apart from the others, its own next task or nothing |
| TraceCascade.DrainMine | engine/safety.py:74-122 | What the loop does with the tasks of a trace is what it does when they are the only ones |
| TraceCascade.BusyCascadeExact | engine/safety.py:74-122 | The exact distances also hold on a busy bus, with tasks of other traces waiting and interleaved |
| Forecast.ResidualsBalance | engine/predict.py:271-291 | The residuals of the fitted line sum to zero and are orthogonal to the positions |
| Forecast.ErrorSplits | engine/predict.py:277-294 | The squared error of any line is that of the fitted line plus the square of the gap between them |
| Forecast.LeastSquares | engine/predict.py:271-294 | No line has a smaller squared error than the fitted one |
| Forecast.LeastSquaresUnique | engine/predict.py:277-281 | With two or more values no other line reaches that error |
| Forecast.ForecastExact | engine/predict.py:271-284 | For any data the forecast is the value at the next position of the line with the least squared error; for a single value it is that value |
| Forecast.ShareExplained | engine/predict.py:293-296 | 0 <= ss_res <= ss_tot, R-squared lies in [0, 1], and it is 1 if and only if every value lies on the line |
| Forecast.RSquaredExact | engine/predict.py:293-296 | R-squared is the part of the variation that the line of least error takes away, and zero without variation |
| Smoothing.SmoothedForecast | engine/predict.py:316-335 | The loop computes the level and trend recurrences and the value h steps ahead; short series go to regression |
| Smoothing.SurprisesCorrect | engine/predict.py:316-329 | For any data the level ends 0.7 of the last surprise below the last value, and the trend is the first difference plus 0.03 of all surprises together, a surprise being what a value exceeds level plus trend by |
| Smoothing.LastValueWeighs | engine/predict.py:324-335 | Whatever came before, raising the last value by d raises the forecast h steps ahead by 0.3 d + 0.03 h d |
| Smoothing.HoltForecastShifts | engine/predict.py:324-335 | Adding a line to any data adds to the Holt forecast that line's value at the horizon |
| Smoothing.LineShifts | engine/predict.py:277-284 | The fitted line moves exactly with a line added to the data |
| Smoothing.LinearDataExact | engine/predict.py:271-335 | On exactly linear data regression returns the line and its next value, and the Holt forecast is exact h steps ahead |

## Left out

- TCP, threads, locks inside a node and the JSON wire format: a locked method is one step; an election
  is not, it interleaves with the steps of other nodes.
- Files, JSON, checksums and clocks: files are maps and sequences, a corrupt log entry is one that is
  skipped, time is an argument. Metadata and snapshot writes are taken as atomic, log writes are not.
- RaftLog.LogMatching: messages have a previous index inside the receiver's log; `RaftLog.PlacedExactly`
  is about the others.
- RaftKept.LeaderCompleteness: the condition is sufficient and not necessary; it speaks of every vote and
  message of the run, and takes an entry as committed when a quorum held it while in its term or before.
- RaftReign.Replicas: covers the steps of nodes that stay online; after a reconnect the map is copied
  ahead of the applied index, so it is no longer the fold of the applied prefix.
- RaftElection.ElectionSafety: assumes that every peer has a registered transport (an unregistered one
  always grants its vote) and no restart, since neither term nor vote is stored.
- The arguments `_do_replicate` chooses, direct calls of `become_leader`, and shared `NodeState`
  objects after a reconnect, which are values here.
- Parsing of conditions, temporal expressions and YAML: a condition is a predicate on the runtime, also
  where the code mixes AND and OR; cache keys are pairs of names. Temporal rules are given by kind.
- Machine.StateMachineCompiler.Validate: the order and wording of the issues, and the warning for a
  missing re-entry limit, which does not stop the constructor.
- MachineRuntime.StateMachine.CanTransition: exceptions raised by a condition are not modelled.
- RunStore.RunManager.UpdateState: timestamps and elapsed times in metadata and snapshots are left out,
  and the version that a replay of the log does not restore is tracked only in the metadata.
- Which log files `_compact_wal` deletes: RunSafety.RecoverAgainExactly is about any earlier part of the
  log, and whole runs keep the log. `_append_wal_batch`, whose files recovery does not read.
- EventStore.EventLog.PurgeExpired: files that vanished or do not parse are not modelled; nor are
  queries, cost summaries, top validators, the period and the pass rate of a summary.
- AuditLog.Audit.IterAll: the listing of the archive directory is an argument, required to be sorted by
  name and complete; queries and statistics are left out.
- RateLimit.WindowBound: needs costs that are positive and at most the burst; the first request of a
  key is admitted whatever it costs. Rounding of floating-point numbers is not modelled here or in the
  forecasts.
- EventBus.SafeEventBus.SafeCall: what a handler emits depends on the type it handles, not on the rest of
  the event, and has the trace of that event and one hop more; handlers that wait in between are left out.
- Moving averages, confidence intervals, trend labels and rounding of forecasts.
- Degradation levels, budgets, drift statistics, remediation tables, `distributed.py`, `elector.py`, the
  loaders, alerts, dashboards, the server, the shell and the command line.
