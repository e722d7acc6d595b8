# Proofs about the Raft, shard controller, MapReduce, persister and key-value code

This project models the parts of the repository where state, branching and interleaving meet, in Dafny 4.11, and
proves what they are for.

* **Raft** (`Median`, `Raft*`). One server is a value, each locked region a function from server to server, and the
  cluster a step system over a network that loses, delays, repeats and reorders messages. `RaftHandler` has the
  handlers as the source writes them, updating fields in place, each proved equal to its function. Election safety
  holds over all runs, restarts included; log matching, leader completeness, state machine safety and in-order
  application hold over all runs whose restarts lose neither log nor term. What a server must do is stated too: which
  votes it gives, which messages it accepts, what it commits, and which logs a leader can repair.
* **Shard controller** (`Shard*`, `CtrlerArgs`). A class with the growing history of configurations. Each
  configuration holds one assignment twice; join, leave and move keep both in agreement, and the loops of join and
  leave keep the load balanced.
* **MapReduce** (`MapReduce*`, `WordCount`). What a job means, the worker's loops, the master with its timeouts and
  late or duplicate commits, the files behind its tables, and whole runs with the workers' reads and writes as
  steps: when the master is done, the output files are the sequential result, and a job with a file can
  always still get there.
* **Persister** (`ChunkText`, `Persister`) and **key-value store** (`KVRaft`), on `Text`, which models what C++
  streams print and read.

`dafny verify dfyconfig.toml` checks everything.

## Guards

In several places the code does something else than its comments, documentation or tests say. Each such place is a
named guard: the model says what the code would do with it, a lemma gives an input or a run on which the code as written
fails, and another says exactly when the code as written does what the guard asks for.

| guard | place | with the guard | as written it fails in | and does no harm exactly as in |
|---|---|---|---|---|
| G1 | src/raft/raft.cpp:128-134 | a voter refuses a log less up-to-date than its own; the comparison is the wrong way round and nothing returns | `RaftDepartures.VoteAsWrittenFails` | `RaftDepartures.VoteAsWritten` |
| G2 | src/raft/raft.cpp:185-190 | a mismatch is answered by a refusal (either the test the source makes, or the one doc/Raft.md:330-336 prints); the source truncates and appends | `RaftDepartures.FollowAsWrittenFails`, `RaftScenarios.OldHeartbeatErases` | `RaftDepartures.FollowAsWrittenExact`, `RaftGuards.AcceptedFromLeader` |
| G3 | src/raft/raft.cpp:216 | the commit index is bounded by the last entry the message covers; the source takes the last entry of the log | `RaftDepartures.BoundAsWrittenFails` | `RaftDepartures.BoundAsWrittenExact`, `RaftGuards.AcceptedFromLeader` |
| G4, votes | src/raft/raft.cpp:628-631 | votes count only in the term they were asked for; the source only looks at the role | `RaftScenarios.LateVotesMakeTwoLeaders` | `RaftGuards.CountedVotes` |
| G4, replies | src/raft/raft.cpp:461-465 | a reply counts only for the leader of its term; the source looks at nothing | `RaftFive.OldReplyCommits`, `RaftOldReplies.LeaderMisled` | `RaftGuards.ReplyConfirms`, `RaftOldReplies.MisledExactly` |
| G5 | src/raft/raft.cpp:408-411 | the number of servers is odd | `Median.EvenClusterFails` | `Median.MiddleIsMajority` |
| G6 | src/raft/raft.cpp:136-140, 166-174, 356-365; src/raft/Persister.cpp:65-80 | a restart loses neither log nor term; entries are saved only once committed, and stay in a buffer, and a term only with a vote | `RaftRestarts.LogLost`, `RaftRestarts.TermLost` | `RaftSafety.RestartIsOk`, one way |
| G7 | src/shardkv/ShardCtrler.cpp:195-199 | the rebalancing loop also writes shard2gid | `ShardDepartures.JoinAsWrittenFails` | `ShardDepartures.JoinAsWritten` |
| G8 | src/shardkv/ShardCtrler.cpp:201-207 | the re-sorting loops advance | `ShardDepartures.NineEnds` | `ShardDepartures.ResortAsWritten` |
| G9 | src/shardkv/ShardCtrler.cpp:29-34, 239-245 | leave's queue has the least loaded group on top; the source has the largest gid there | `ShardDepartures.LeaveAsWrittenFails` | `ShardLeave.LeaveAsWrittenBalance` |
| G10 | src/MapReduce/master.cpp:270-291 | a queue of stale ids gives -1; the source gives its last id | `MapReduceLate.StaleIdReverts` | `MapReduceMaster.AssignKeeps` |
| G11 | src/MapReduce/master.cpp:243-262 | the queue is cleared when the phase switches | `MapReduceLate.StaleIdOutOfRange` | `MapReduceState.CommitKeeps` |
| G12 | src/MapReduce/worker.cpp:145-152 | a reduce worker writes under a name of its own, which the commit renames; the source writes under the final name, which a late write empties and a late commit removes | `MapReduceLate.LateWorkerEmptiesOutput` | `MapReduceLate.LateWrite`, `MapReduceLate.LateCommit` |
| G13 | src/raft/raft.cpp:697-715 | entries are gathered only while still leader; the source looks at the role in an earlier locked region | `RaftScenarios.LateSendStopsLeader` | `RaftGuards.BuiltMessages` |

Both tests of G2 keep every safety property, but they differ in what a leader can repair: with the source's test a
follower whose last term the leader does not come by is never repaired (`RaftRepair.RepairsExactly`).

Votes are saved before they are given, so vote and election properties need no G6: they include restarts with any log.

## Model

| member | source | states |
|---|---|---|
| Median.MiddleIsMajority | src/raft/raft.cpp:404-411 | the sorted middle of the match indices and the own last index is the largest index a strict majority has reached, if and only if the number is odd or the two middle values coincide |
| Median.MiddleOfAnySort | src/raft/raft.cpp:408-411 | every ascending rearrangement has that same middle, whichever way it is sorted |
| Median.NothingAboveMiddle | src/raft/raft.cpp:408-411 | no larger index is reached by a majority, for any number of servers |
| Median.EvenClusterFails | src/raft/raft.cpp:411 | with two servers the middle is an index that one server alone may have reached |
| RaftTypes.GetLogConsecutive | src/raft/raft.cpp:368-375 | on a log with consecutive indices the lookup finds exactly entries 1 to the last and stops on every other index |
| RaftTypes.PopFromConsecutive | src/raft/raft.cpp:203-204 | the truncating loop leaves exactly the entries before the index |
| RaftElection.MajoritiesMeet | src/raft/raft.cpp:611-624 | two sets of more than half of the servers share one |
| RaftElection.VoteFacts | src/raft/raft.cpp:96-141 | a granted vote is the saved one of its term, and the role changes only together with the term |
| RaftElection.VotesCounted | src/raft/raft.cpp:596-624 | every vote a winner counts was cast for it in that term |
| RaftElection.NoRival | src/raft/raft.cpp:160-163 | a leader never gets an append message of another leader of its own term |
| RaftElection.OneLeaderPerTerm | src/raft/raft.cpp:344-354 | in every state that keeps the invariant a term has at most one leader |
| RaftElection.RunKeepsElection | src/raft/raft.cpp:96-141 | the election invariant holds in every reachable state, restarts with a saved term and vote included |
| RaftElection.ElectionSafety | src/raft/raft.cpp:557-639 | over all runs, restarts included, at most one server ever becomes leader in a term, and the stop on two leaders is unreachable |
| RaftMerge.MergeExtends | src/raft/raft.cpp:192-214 | without a conflict nothing is dropped: the log is only extended by what it did not have |
| RaftMerge.MergeReplaces | src/raft/raft.cpp:192-214 | with a conflict everything before the first one is kept and everything from it on comes from the message |
| RaftMerge.MergeAgrees | src/raft/raft.cpp:192-214 | once the previous entry is there, the merged log is consecutive, keeps the log up to it and agrees with every entry of the message |
| RaftMerge.MergeIdempotent | src/raft/raft.cpp:192-214 | a duplicate or a stale shorter message changes nothing |
| RaftLogs.LogMatching | src/raft/raft.cpp:176-214 | two logs rooted in the leaders' logs that share index and term of one entry agree on all before it |
| RaftLogs.TermsAscend | src/raft/raft.cpp:258-262 | terms do not decrease along such a log |
| RaftLogs.AcceptShortcut | src/raft/raft.cpp:179-190 | comparing prevLogTerm with the follower's last term is enough: the logs agree up to prevLogIndex |
| RaftLogs.PrevCheckSound | src/raft/raft.cpp:185-190 | either acceptance test passes only on logs that agree up to prevLogIndex, and the documented one fails only on logs that differ there |
| RaftLogs.MergeSlice | src/raft/raft.cpp:192-214 | merging a slice of a leader's log gives a log that has the slice and loses only what conflicts |
| RaftLogSteps.HeartbeatIsSlice | src/raft/raft.cpp:377-396 | a heartbeat names a true previous entry of the leader's log |
| RaftLogSteps.LogsAreSlice | src/raft/raft.cpp:420-432 | a message with entries is a contiguous slice of the leader's log after its previous entry |
| RaftLogSteps.VoteOnce | src/raft/raft.cpp:114-126 | a server that votes again in a term repeats the vote it gave |
| RaftLogSteps.FollowFacts | src/raft/raft.cpp:176-214 | a follower either refuses and keeps its log up to the point of difference, or ends with a log that has the message |
| RaftLogSteps.RunKeepsLogs | src/raft/raft.cpp:143-226 | every log, every message and every vote's log is rooted in the leaders' logs in every reachable state |
| RaftLogSteps.LogMatchingAlways | src/raft/raft.cpp:176-214 | in every reachable state logs with a common entry agree up to it, have consecutive indices and terms that do not decrease |
| RaftLogSteps.AcceptShortcutAlways | src/raft/raft.cpp:179-190 | in every reachable state a follower that passes the source's test holds an entry of that term at prevLogIndex |
| RaftKeeping.NewVoteKept | src/raft/raft.cpp:136-140 | the log a server votes with still has everything it confirmed to earlier leaders |
| RaftKeeping.VoterHasThem | src/raft/raft.cpp:611-624 | some voter of a later leader voted with the committed entries in its log |
| RaftKeeping.UpToDateHasThem | src/raft/raft.cpp:128-134 | a log at least as up-to-date as one with the committed entries has them too |
| RaftKeeping.LeaderCompleteness | src/raft/raft.cpp:96-141 | what a majority confirmed to a leader in its own term is in the log of the leader of every later term |
| RaftCommit.SettledAgree | src/raft/raft.cpp:356-366 | whatever two leaders settled is one history |
| RaftCommit.SettledSurvives | src/raft/raft.cpp:192-214 | a follower never loses a settled entry to a leader whose log it takes over |
| RaftCommit.MajorityConfirms | src/raft/raft.cpp:404-411 | the middle index was confirmed by a majority of the cluster |
| RaftCommit.FollowerCommits | src/raft/raft.cpp:216 | a follower's new commit index covers settled entries only |
| RaftCommit.LeaderCommits | src/raft/raft.cpp:398-418 | a leader commits only what a majority confirmed in its own term |
| RaftSafety.RunKeepsSafe | src/raft/raft.cpp:143-226 | commit indices cover settled entries only, on every server, in every reachable state |
| RaftSafety.RestartIsOk | src/raft/raft.cpp:38-83 | a restart that has the whole log and the present term on disk keeps what was confirmed and settled, though it applies from the start again |
| RaftSafety.CommittedReachesLeaders | src/raft/raft.cpp:398-418 | in every run whose restarts lose nothing an entry committed in a term is in the log of every leader of that or a later term |
| RaftSafety.CommitsReachLeaders | src/raft/raft.cpp:356-366 | in every run whose restarts lose nothing whatever any server has committed is at the front of the log of every leader of its term or a later one |
| RaftSafety.StateMachineSafety | src/raft/raft.cpp:733-777 | no two servers commit, or give their state machine, different commands at one index |
| RaftSafety.AppliedInOrder | src/raft/raft.cpp:745-776 | the state machine gets log entries 1, 2, 3, ... with no gap or repeat and never beyond the commit index, however gathering and applying interleave with commits |
| RaftSafety.CommittedPrefixStable | src/raft/raft.cpp:356-366 | no step lowers a commit index or changes a committed entry |
| RaftProgress.CommandsGetApplied | src/raft/raft.cpp:733-778 | the run-level results are not empty: three servers have a run in which a leader is elected and a command is replicated, committed and applied |
| RaftHandler.RaftHandler.constructor | src/raft/raft.cpp:38-83 | a new server is the restarted one: saved term and vote, the log of the disk, nothing committed or applied |
| RaftHandler.RaftHandler.SaveTermAndVote | src/raft/Persister.cpp:51-63 | the disk holds exactly this term and vote, and nothing else changes |
| RaftHandler.RaftHandler.RequestVote | src/raft/raft.cpp:96-141 | the handler's writes are the vote function whose safety the runs prove |
| RaftHandler.RaftHandler.StartElection | src/raft/raft.cpp:575-594 | the next term, the own vote and its saving are those of the election step |
| RaftHandler.RaftHandler.SwitchToLeader | src/raft/raft.cpp:344-354 | both index tables are reset as in the winning step |
| RaftHandler.RaftHandler.MergeEntries | src/raft/raft.cpp:192-214 | the scan, truncate and append loops compute the merge of the log, and report the stop |
| RaftHandler.RaftHandler.UpdateCommitIndex | src/raft/raft.cpp:356-366 | the commit index only goes up |
| RaftHandler.RaftHandler.AppendEntries | src/raft/raft.cpp:143-226 | the whole handler is the append function of the runs, refusals and stops included |
| RaftHandler.RaftHandler.Start | src/raft/raft.cpp:242-270 | only a leader appends, one entry with the next index and its term, and its index is returned |
| RaftHandler.RaftHandler.GatherLogsFor | src/raft/raft.cpp:420-432 | the copying loop returns the slice from nextIndex on, at most twenty entries, or reports the stop |
| RaftHandler.RaftHandler.HandleReplicateResultFor | src/raft/raft.cpp:398-418 | the in-place update and the sort compute the reply function of the runs |
| RaftHandler.RaftHandler.GatherForApply | src/raft/raft.cpp:746-752 | the locked copying loop takes the next committed entries, at most twenty |
| RaftHandler.RaftHandler.ApplyNext | src/raft/raft.cpp:759-768 | one queued entry is handed over and taken off the queue |
| RaftHandler.RaftHandler.FinishApply | src/raft/raft.cpp:770-773 | the applied index advances by the size of the batch |
| RaftHandler.RaftHandler.ApplyBatch | src/raft/raft.cpp:746-773 | one turn of the apply loop hands over the next committed entries, twenty or all there are, and none only if all are applied |
| RaftHandler.RaftHandler.ApplyCommitted | src/raft/raft.cpp:745-774 | the loop ends with everything committed applied, and with nothing else |
| RaftAnswers.VoteExactly | src/raft/raft.cpp:96-141 | a vote that is still free is given if and only if the voter's own log does not end in a later term, or in the same term and further on; the answer has the later of the two terms |
| RaftAnswers.ExtensionGetsVote | src/raft/raft.cpp:128-140 | a candidate whose log has all of the voter's entries gets a free vote |
| RaftAnswers.OneOfTwo | src/raft/raft.cpp:128-131 | of any two logs at least one is up-to-date for the other, both if and only if they end in the same place |
| RaftAnswers.SomeoneWins | src/raft/raft.cpp:596-624 | among any servers there is one that all of them vote for in every new term |
| RaftAnswers.AcceptsExactly | src/raft/raft.cpp:143-226 | a message that is not outdated is accepted if and only if the test in use passes, which the test at prevLogIndex does exactly if the follower has the leader's entries up to there; then it has the entries of the message and commits as many as the leader has |
| RaftAnswers.OldTermRefused | src/raft/raft.cpp:148-158 | a message of an old term changes nothing and is refused with the present term |
| RaftAnswers.CommitsExactly | src/raft/raft.cpp:404-413 | after a success that does not stop the leader an entry of its term is committed if and only if it was before or a majority has reached it |
| RaftAnswers.ReplyCommits | src/raft/raft.cpp:398-418 | the same in every run whose restarts lose nothing |
| RaftAnswers.SendsExactly | src/raft/raft.cpp:377-432 | a message names the entry before nextIndex and carries all entries from nextIndex on, up to twenty |
| RaftAnswers.NewLeaderSends | src/raft/raft.cpp:344-354 | a new leader takes every peer to be right after its own last entry, with nothing confirmed |
| RaftRepair.RepairsExactly | src/raft/raft.cpp:694-725 | the sending loop, with nothing in between, ends with the leader's whole log confirmed by the follower, or with the stop on index 0, which two peers exclude: with the test of doc/Raft.md always, with the source's test answered by a refusal if and only if the follower's last term is that of an entry the leader comes by; otherwise the leader stops and the follower keeps its log |
| RaftRepair.SourceTestGetsStuck | src/raft/raft.cpp:185-190 | one entry of an old term at a follower is enough for that |
| RaftRepair.FacingAlways | src/raft/raft.cpp:694-725 | in every run whose restarts lose nothing a leader and a peer in no later term are what that asks for |
| RaftDepartures.VoteAsWritten | src/raft/raft.cpp:114-140 | the code as written answers as the stated rule would if and only if the request is of an old term, the vote of its term went to somebody else, or the candidate's log is up-to-date |
| RaftDepartures.VoteAsWrittenFails | src/raft/raft.cpp:132-140 | as written a voter with an entry votes for an empty log |
| RaftDepartures.FollowAsWrittenKeeps | src/raft/raft.cpp:185-214 | as written the entries up to prevLogIndex are kept if and only if the last terms match or there are none |
| RaftDepartures.FollowAsWrittenExact | src/raft/raft.cpp:185-214 | as written a follower drops only what conflicts with the message if and only if the last terms match, or the message starts at entry 1 and reaches the end of the log or conflicts with it |
| RaftDepartures.FollowAsWrittenFails | src/raft/raft.cpp:185-190 | a heartbeat for entry 1 erases a follower's whole log |
| RaftScenarios.OldHeartbeatErases | src/raft/raft.cpp:185-190 | a run of three servers at whose end an old heartbeat, overtaken by an entry, erases as written the committed entry it finds; with the check it changes nothing |
| RaftDepartures.BoundAsWrittenExact | src/raft/raft.cpp:192-216 | as written a follower commits only entries of its leader if and only if the leader committed nothing beyond the message, the log is no longer than the message covers, the message conflicts with it, or the last entry that gets committed has the term the leader has there; with G3 it always does |
| RaftGuards.AcceptedFromLeader | src/raft/raft.cpp:179-214 | in every run whose restarts lose nothing a message that passes the check of the previous entry meets what the two conditions ask of message and logs |
| RaftDepartures.BoundAsWrittenFails | src/raft/raft.cpp:216 | as written a heartbeat commits an entry the leader does not have |
| RaftDepartures.ReplyStopsLeader | src/raft/raft.cpp:411-412 | a good reply stops the leader on index 0 if and only if the middle match index is 0 while something is committed |
| RaftDepartures.ThreeServersNeverStop | src/raft/raft.cpp:411-412 | with three servers that cannot happen |
| RaftFive.FiveServersStop | src/raft/raft.cpp:411-412 | five servers have a run, all guards kept, in which the first reply to the new leader of an established cluster stops it |
| RaftDepartures.SendStopsLeader | src/raft/raft.cpp:427-429 | building a message with entries stops the leader if and only if refusals drove nextIndex to 0 |
| RaftScenarios.RefusalStopsLeader | src/raft/raft.cpp:427-429 | a run of three servers, all guards kept, in which one refusal drives nextIndex to 0 and the leader stops on building its next message |
| RaftStops.RunKeepsNext | src/raft/raft.cpp:398-418 | in every reachable state a leader's nextIndex entries are at most one past its log, and 0 only if it has entries |
| RaftStops.StopsExactly | src/raft/raft.cpp:368-432 | in every run whose restarts lose nothing a step stops its server if and only if it builds entries with nextIndex 0 or counts a success that leaves the middle at 0 while something is committed; followers and the apply thread never stop, and no server meets a second leader of its term |
| RaftStops.NeverOnePast | src/raft/raft.cpp:368-375 | in those runs no lookup reaches the entry one past the end that its bound lets through |
| RaftTermTest.TermTestNeeded | src/raft/raft.cpp:412 | Figure 8 of the Raft paper as a run of three servers: without the term test a leader commits entries that the leader elected next does not have; with the test it commits nothing |
| RaftGuards.CountedVotes | src/raft/raft.cpp:596-631 | in every reachable state, restarts included, the votes a winner counts as written are votes of the term it becomes leader of if and only if that is the term it asked for them in |
| RaftScenarios.LateVotesMakeTwoLeaders | src/raft/raft.cpp:628-631 | a run at whose end a late vote, as written, makes a second leader of a term |
| RaftGuards.ReplyConfirms | src/raft/raft.cpp:398-418 | in every run without restart a success of the present term, handled as written, finds a leader and makes matchIndex a confirmation in that term, and a leader is misled only by a reply two or more terms old |
| RaftOldReplies.MisledExactly | src/raft/raft.cpp:461-465 | in every cluster of three servers or more a leader can be misled by a reply of a given age if and only if that is two terms or more |
| RaftFive.OldReplyCommits | src/raft/raft.cpp:461-465 | a run of five servers in which, as written, a reply of term 1 makes the leader of term 3 commit an entry that two servers have, where the leader of term 4 has another |
| RaftScenarios.LateSendStopsLeader | src/raft/raft.cpp:697-715 | a run at whose end a deposed leader, as written, sends in the new term, and the leader of that term stops on "Two leader in the same term!" |
| RaftGuards.BuiltMessages | src/raft/raft.cpp:377-396 | in every run without restart a message that a server builds names a term it was elected in if and only if it is still leader |
| RaftRestarts.LogLost | src/raft/raft.cpp:356-365 | a run of three servers in which a restart loses a confirmed entry that another server has committed, and the next leader is elected without it |
| RaftRestarts.TermLost | src/raft/raft.cpp:166-174 | a run of five servers in which a restart keeps the whole log but not the term it had only heard of, an old message replaces a committed entry, and the next leader is elected without it |
| ShardConfig.ShardsPartitioned | src/shardkv/ShardCtrler.cpp:158-172 | in a consistent configuration the groups' sets are disjoint, hold every shard and their sizes add up |
| ShardConfig.MoveKeepsConsistent | src/shardkv/ShardCtrler.cpp:270-273 | moving a shard to a group in both indexes keeps them in agreement |
| ShardBalance.CountedSquares | src/shardkv/ShardCtrler.cpp:195-199 | a move from a group at least two larger lowers the sum of the squared sizes |
| ShardBalance.SiftForward | src/shardkv/ShardCtrler.cpp:201-203 | the loop ends; with G8 the first entry stops where it belongs, as written it moves by at most one place |
| ShardBalance.SiftBackward | src/shardkv/ShardCtrler.cpp:205-207 | the same for the last entry |
| ShardBalance.Resorted | src/shardkv/ShardCtrler.cpp:201-207 | both loops together keep the entries and the order of the ends, and with G8 sort the list |
| ShardBalance.MovedNext | src/shardkv/ShardCtrler.cpp:192-199 | a group that received is never the next to give, and the other way round |
| ShardBalance.EndsMeetBalanced | src/shardkv/ShardCtrler.cpp:188-190 | when a sorted list's ends differ by at most one, so do all group sizes |
| ShardBalance.Turn | src/shardkv/ShardCtrler.cpp:192-207 | one turn moves the smallest shard of the last group, keeps the counts true to the sets and makes progress |
| ShardBalance.Rebalance | src/shardkv/ShardCtrler.cpp:186-208 | the loop terminates with and without G8, its counts match the sets, the sets stay those of one assignment, which with G7 shard2gid follows; with G8 the result is sorted, within one, and no group both gave and received; it moves nothing if and only if it starts level |
| ShardBalance.TurnAsWritten | src/shardkv/ShardCtrler.cpp:195-207 | without G8 the sizes follow the as-written step |
| ShardBalance.FallMeansMoved | src/shardkv/ShardCtrler.cpp:186-208 | a loop that has turned once has changed the assignment for good |
| ShardJoin.JoinKeepsAgreement | src/shardkv/ShardCtrler.cpp:152-156 | adding the groups keeps the indexes in agreement if and only if no group that has shards joins again |
| ShardJoin.JoinGroups | src/shardkv/ShardCtrler.cpp:152-156 | the loop adds exactly the joining groups, empty, and their hosts |
| ShardJoin.RoundRobin | src/shardkv/ShardCtrler.cpp:159-172 | the nested loops deal shard s to group s mod n, both indexes agree, and sizes are within one |
| ShardJoin.InfoOf | src/shardkv/ShardCtrler.cpp:175-183 | the list has every group once, with the size of its set |
| ShardLeave.TakeGroups | src/shardkv/ShardCtrler.cpp:225-232 | the loop removes exactly the named groups, known or not, and collects exactly the shards they owned |
| ShardLeave.GiveLeastBalanced | src/shardkv/ShardCtrler.cpp:248-255 | giving a shard to a least loaded group keeps sizes within one |
| ShardLeave.HandOut | src/shardkv/ShardCtrler.cpp:242-256 | for every order of the orphans all get a group, survivors keep what they had, and with G9 balance is kept; as written the largest gid gets them all |
| ShardLeave.LeaveAsWrittenBalance | src/shardkv/ShardCtrler.cpp:29-34 | as written balance is kept if and only if the largest surviving gid can take all orphans |
| ShardCtrler.MoveNeedsMember | src/shardkv/ShardCtrler.cpp:264-278 | a move keeps the configuration valid if and only if its group has joined |
| ShardCtrler.OneAssignment | src/shardkv/ShardCtrler.cpp:148-149 | the groups' sets leave no choice for shard2gid |
| ShardCtrler.JoinConfig | src/shardkv/ShardCtrler.cpp:145-208 | the appended configuration is valid if and only if no group that has shards joins again, and G7 or a level start; the sets leave out exactly the shards of groups that join again; with G8 it is balanced and no group both gave and received; first groups are dealt shards in turn |
| ShardCtrler.ShardCtrler.constructor | src/shardkv/ShardCtrler.cpp:43-52 | the history starts with a valid configuration 0 without groups |
| ShardCtrler.ShardCtrler.HandleJoin | src/shardkv/ShardCtrler.cpp:143-214 | one configuration is appended, older ones are untouched, and the history stays valid if and only if no group that has shards joins again, and G7 or a level start |
| ShardCtrler.ShardCtrler.HandleLeave | src/shardkv/ShardCtrler.cpp:216-262 | the history stays valid for arbitrary gids, only orphans move, and with G9 balance is kept |
| ShardCtrler.ShardCtrler.HandleMove | src/shardkv/ShardCtrler.cpp:264-278 | only that shard changes owner, in both indexes and with the same hosts, and the history stays valid if and only if the group has joined |
| ShardCtrler.ShardCtrler.HandleQuery | src/shardkv/ShardCtrler.cpp:280-303 | a waiting client gets the configuration with the number it asked for, the error exactly for numbers past the last, and a read outside the history exactly for numbers below -1 |
| ShardCtrler.ShardCtrler.Apply | src/shardkv/ShardCtrler.cpp:87-131 | a join, leave or move appends exactly what it makes of the last configuration and a query appends nothing; a waiting client gets the configuration it asked for or the error; the history stays valid exactly for the requests that keep it so, stays balanced without moves, and the stop depends on the last index and the new one only, whatever the guards |
| ShardService.Serve | src/shardkv/ShardCtrler.cpp:87-131 | with G7 entries are parsed and applied in order up to the first that does not keep the indexes in agreement, and the stop comes exactly on a gap in their indices; the history is what the entries make of it one after the other, both indexes agree in every configuration, and with G8 and G9 and without moves the load stays balanced |
| ShardService.NeverViolates | src/shardkv/ShardCtrler.cpp:128-130 | on every server, in every run of Raft whose restarts lose nothing, no applied entry meets the condition of "Violation of linear consistency!" after the entries before it |
| ShardService.ServeApplied | src/shardkv/ShardCtrler.cpp:128-130 | so a new controller, with any guards or none and whatever its handlers do, takes everything Raft applied there and never stops |
| ShardDepartures.JoinAsWritten | src/shardkv/ShardCtrler.cpp:186-208 | new groups find level sizes if and only if there was no group or none had two shards, so as written every other join breaks the agreement |
| ShardDepartures.JoinAsWrittenFails | src/shardkv/ShardCtrler.cpp:195-199 | one group with two shards and a second group that joins |
| ShardDepartures.ResortAsWritten | src/shardkv/ShardCtrler.cpp:201-207 | the re-sorting as written evens out every sorted list of n sizes if and only if n is at most 3 |
| ShardDepartures.NineEnds | src/shardkv/ShardCtrler.cpp:201-207 | with n groups, n at least 4, sizes 0, ..., 0, 9 end as 3, 3, 0, ..., 0, 3 |
| ShardDepartures.LeaveAsWrittenFails | src/shardkv/ShardCtrler.cpp:242-256 | three groups of two, the smallest gid leaves, and the largest ends two ahead |
| CtrlerArgs.SingleRoundTrip | include/shardkv/CtrlerArgs.hpp:87-143 | leave, move and query come back from their text as they were |
| CtrlerArgs.HostsRoundTrip | include/shardkv/CtrlerArgs.hpp:78-82 | a group's hosts come back if and only if every name is a word |
| CtrlerArgs.JoinRoundTrip | include/shardkv/CtrlerArgs.hpp:116-126 | a join comes back if and only if it names exactly one group and its host names are words |
| CtrlerArgs.SerializeArgs | include/shardkv/CtrlerArgs.hpp:70-107 | the loops print the text of the round trips, in whatever order the map is visited |
| CtrlerArgs.DeserializeArgs | include/shardkv/CtrlerArgs.hpp:109-146 | the loops read what the round trips say, or report a stop |
| MapReduce.EmitsRearranged | src/MapReduce/worker.cpp:159-161 | for an order-insensitive reducer any sort gives the same result |
| MapReduce.ColumnIsPart | src/MapReduce/master.cpp:248-258 | transposing the parts and joining a column is partitioning everything at once |
| MapReduce.PartEmits | src/MapReduce/worker.cpp:194-197 | a reducer's part gives a key its result if and only if the hash sends the key there |
| MapReduce.DistributedEqualsSequential | src/MapReduce/worker.cpp:117-198 | for every input, number of reducers and hash, the outputs together are the one sequential reduce, and no key is in two of them |
| MapReduceWorker.ReduceKV | src/MapReduce/worker.cpp:155-184 | one pass over any sorted arrangement gives strictly ascending keys, each with the reducer applied to all its values |
| MapReduceWorker.LessMeans | src/MapReduce/worker.cpp:159-161 | the order is that of strings: a proper beginning comes first, else the smaller character where they first differ |
| MapReduceWorker.LinesRoundTrip | src/MapReduce/worker.cpp:136-141 | pairs come back from a file if and only if all keys and values are words |
| MapReduceWorker.DivideResults | src/MapReduce/worker.cpp:186-198 | file i gets exactly the pairs whose hash names it, in order |
| MapReduceWorker.ReadFiles | src/MapReduce/worker.cpp:134-141 | the reading loops return the pairs of all files in order |
| MapReduceWorker.ColumnBack | src/MapReduce/worker.cpp:134-141 | reading a column of written parts gives the column |
| MapReduceWorker.DoReduceTask | src/MapReduce/worker.cpp:130-153 | the file written is the reduce of what the column holds, in ascending order of keys |
| WordCount.WordCountMapF | src/MapReduce/user-program/WordCount.cpp:12-32 | the loops end and emit exactly the maximal runs of letters in order, all of them words |
| WordCount.RunsApart | src/MapReduce/user-program/WordCount.cpp:22-28 | maximal runs neither overlap nor touch |
| WordCount.LettersAre | src/MapReduce/user-program/WordCount.cpp:22-28 | the letters are the 52 of ASCII |
| WordCount.CountIgnoresOrder | src/MapReduce/user-program/WordCount.cpp:39-41 | counting is order-insensitive |
| WordCount.OccurrencesAreRuns | src/MapReduce/user-program/WordCount.cpp:21-30 | a word is emitted once for each maximal run that spells it |
| WordCount.WordCountJob | src/MapReduce/user-program/WordCount.cpp:12-41 | on any texts and reducers the outputs hold exactly the words that occur, each once, with the number of its maximal runs in all texts |
| MapReduceTasks.CountFull | src/MapReduce/master.cpp:166-177 | the count equals the number of entries exactly when all are completed |
| MapReduceTasks.StartPhase | src/MapReduce/master.cpp:243-262 | a phase starts well if and only if no queued id is out of its range |
| MapReduceTasks.RevertBreaksCount | src/MapReduce/master.cpp:294-302 | handing out a completed entry again breaks the count |
| MapReduceState.ReduceStartsComplete | src/MapReduce/master.cpp:248-258 | after the switch every map row is complete and reduce entry i has column i |
| MapReduceState.PopKeeps | src/MapReduce/master.cpp:265-292 | the queue gives nothing exactly when nothing is idle, and popping keeps the invariant |
| MapReduceState.CommitKeeps | src/MapReduce/master.cpp:158-183 | a first commit keeps the scheduler invariant if and only if G11, no switch to reduce, or no stale id out of range |
| MapReduceMaster.AssignKeeps | src/MapReduce/master.cpp:101-107 | as written the invariant breaks exactly when all queued ids are stale and the last is of a completed entry |
| MapReduceMaster.MasterHandler.constructor | src/MapReduce/master.cpp:65-86 | the scheduler starts with all map entries queued |
| MapReduceMaster.MasterHandler.TryToGetIdleTask | src/MapReduce/master.cpp:265-292 | the loop returns the first idle queued id, and -1 or, without G10, the last stale id when there is none |
| MapReduceMaster.MasterHandler.AssignTask | src/MapReduce/master.cpp:101-129 | a worker gets an idle entry with its inputs, and waits only if none is idle; exactly one entry changes |
| MapReduceMaster.MasterHandler.SwitchToReduceState | src/MapReduce/master.cpp:243-263 | the loops build the transposed table and queue all of it |
| MapReduceMaster.MasterHandler.CommitTask | src/MapReduce/master.cpp:131-183 | a result of the present phase leaves its entry completed, and only the first one counts; every other one leaves the tables as they are and loses its files |
| MapReduceMaster.MasterHandler.DetectTimeoutTask | src/MapReduce/master.cpp:308-336 | exactly the expired entries in progress are idle and queued again |
| MapReduceFiles.RemoveKeeps | src/MapReduce/master.cpp:226-231 | removing the files of a result that is not accepted keeps the committed outputs if and only if none of them is among those files; committed map results stay |
| MapReduceFiles.ClearsIntermediate | src/MapReduce/master.cpp:219-224 | at the end of the job exactly the intermediate files are removed |
| MapReduceRun.ReadsPart | src/MapReduce/worker.cpp:132-141 | the next file a reduce worker reads holds the right part until the end of the job, and nothing after it |
| MapReduceRun.WritesReduced | src/MapReduce/worker.cpp:130-153 | what a reduce worker writes before the end of the job is the reduce of its column, from what it read at each moment |
| MapReduceFiles.JobDone | src/MapReduce/master.cpp:175-177 | in the last phase the output files are there and together are the sequential result |
| MapReduceRun.RunKeeps | src/MapReduce/master.cpp:101-183 | over every interleaving of assignments, timeouts, reads, writes and commits the scheduler invariant holds, committed map results stay until the end, phases go forward and completed entries never revert or change results; with G12 committed outputs stay too |
| MapReduceRun.RunGivesSequential | src/MapReduce/master.cpp:131-183 | every run that ends, from a fresh master and whatever is on disk, leaves output files that together are the sequential result, each key in one of them |
| MapReduceProgress.FinishesExactly | src/MapReduce/master.cpp:101-183 | from every reachable state, after whatever losses, delays and repeats, the run can go on to the end of the job if and only if the job has a file |
| MapReduceLate.LateWrite | src/MapReduce/worker.cpp:130-153 | as written, in every reachable state, a write before the end of the job does no harm; a later one of a worker that read nothing in time keeps the outputs if and only if the column emits nothing; of one that did, for a reducer whose results are words, if and only if the reducer emits the same for the parts read in time as for the whole column |
| MapReduceLate.LateCommit | src/MapReduce/master.cpp:140-157 | as written, in every reachable state, a reduce commit keeps the committed outputs if and only if it is the first for its task; every later one deletes the output |
| MapReduceLate.LateWorkerEmptiesOutput | src/MapReduce/worker.cpp:145-149 | for every job of one file and one reducer a run in which the job is done, then the worker that timed out empties the output and its commit deletes it |
| MapReduceLate.StaleIdReverts | src/MapReduce/master.cpp:265-292 | a run in which, without G10, a finished map task is handed out again and the count is wrong |
| MapReduceLate.StaleIdOutOfRange | src/MapReduce/master.cpp:243-262 | a run in which, without G11, the reduce phase starts with an id queued that no reduce task has |
| ChunkText.RecordsRoundTrip | src/raft/Persister.cpp:93-99 | the records of a chunk come back if and only if no command contains a newline |
| ChunkText.ChunkRoundTrip | src/raft/Persister.cpp:87-131 | the same for the whole file with its first line |
| ChunkText.FirstLineIsRange | src/raft/Persister.cpp:127 | the first line of a chunk names its first and its last index |
| ChunkText.SizeExact | src/raft/Persister.cpp:156-162 | the estimate is the exact number of bytes of the records |
| ChunkText.FitsMeans | src/raft/Persister.cpp:73-75 | the bound on the estimate is the bound on the bytes written |
| ChunkText.MetaRoundTrip | src/raft/Persister.cpp:291-310 | term and vote come back if and only if the vote is for nobody or for a host whose name is a word other than "-1" |
| Persister.ReadAllBack | src/raft/Persister.cpp:87-101 | reading all chunk files in order gives back all entries written to them |
| Persister.Persister.constructor | src/raft/Persister.cpp:26-44 | term and vote are what the file says, or 0 and nobody when there is none, and the buffer is empty |
| Persister.Persister.SaveTermAndVote | src/raft/Persister.cpp:51-63 | the file holds this term and vote, readable again exactly for good host names |
| Persister.Persister.FlushLogBuf | src/raft/Persister.cpp:119-141 | the buffer becomes the last chunk, and chunks and buffer still are the saved entries |
| Persister.Persister.SaveLogs | src/raft/Persister.cpp:65-80 | with a stable committed prefix, chunks followed by the buffer are exactly entries 1 to the commit index; every chunk fits or holds one entry, every chunk closed has no room for the entry after it, and none is closed if and only if the buffer has room for all |
| Persister.Persister.LoadRaftState | src/raft/Persister.cpp:82-117 | the entries of all chunks in order are loaded, the stop comes exactly on a break in the indices, and on the files of a persister, or on none, this one goes on from there |
| Persister.CheckState | src/raft/Persister.cpp:143-154 | the loop accepts exactly the logs without a break |
| Persister.FirstStart | src/raft/Persister.cpp:26-44 | an empty directory gives term 0, no vote and no entries, and a persister that goes on from there |
| Persister.Restart | src/raft/Persister.cpp:46-49 | a clean stop gives back every saved entry and a kill all but the buffer, also for a server that never voted; the new persister goes on from there |
| KVRaft.CommandRoundTrip | src/kvraft/KVRaft.cpp:24-79 | a put or append arrives as sent if and only if key and value are words without NUL, or the value is empty, or both are |
| KVRaft.GetRoundTrip | src/kvraft/KVRaft.cpp:94-99 | a get asks for the key the client named if and only if it has no NUL and is a word or empty |
| KVRaft.TypeIsPrefix | src/kvraft/KVRaft.cpp:75-94 | only the first letters decide whether a command is a put, an append or a get |
| KVRaft.OthersIgnored | src/kvraft/KVRaft.cpp:110-112 | any other command changes no key and answers nobody |
| KVRaft.GetsLastWrite | src/kvraft/KVRaft.cpp:68-119 | the store is a register for every key: after any commands of words a get answers the value of the last put or append to its key, and that there is none only if there never was one |
| KVRaft.SnapshotRoundTrip | src/kvraft/KVRaft.cpp:121-158 | a snapshot restores map, index and term if and only if all keys and values are words, for every order of writing |
| KVRaft.CutSnapshot | src/kvraft/KVRaft.cpp:148-158 | a snapshot file that is empty or cut off after the index gives an empty map and 0 for the number that is missing |
| KVRaft.SnapshotThenReplay | src/kvraft/KVRaft.cpp:68-158 | restoring a snapshot taken after some commands and applying the rest equals applying them all |
| KVRaft.KVRaft.Apply | src/kvraft/KVRaft.cpp:68-119 | one command is replayed, append overwriting as put does, and its client gets the answer for that command from the map |
| KVRaft.ApplyThenGet | src/kvraft/KVRaft.cpp:68-119 | the same for the class: messages applied one after the other and then a get |
| KVRaft.KVRaft.StartSnapShot | src/kvraft/KVRaft.cpp:121-131 | the loop writes every entry of the map once, in some order |
| KVRaft.KVRaft.ApplySnapShot | src/kvraft/KVRaft.cpp:148-158 | the reading loop replaces the state by what the text says |

## Left out

- Restarts in log properties: entries are on disk only once committed and buffered, so the log, commit and apply
  results are for runs whose restarts lose nothing (G6); in the other runs a restarted server may come back with any
  consecutive log and the term that was saved with its last vote.
- RaftGuards.ReplyConfirms: runs without any restart, since a restarted server may be elected again in the next term.
- RaftGuards.BuiltMessages: likewise, since a restarted server may build messages for a term it led before.
- Persister and cluster: the step system does not use the persister's files; its saved term and vote are the metadata,
  and the persister's need for a stable committed prefix is what RaftSafety.CommittedPrefixStable gives.
- Integer width: indices, terms, counts and sizes do not wrap around.
- ChunkText.ReadRecord: a negative number in a chunk file counts as a failed read; the source would take it.
- RaftTypes.GetLogConsecutive: an index one past the end, which the source reads without a stop, counts as a stop;
  RaftStops.NeverOnePast shows that no step looks it up.
- RaftHandler.RaftHandler.UpdateCommitIndex: the call that gives the committed entries to the persister is not in the
  handler class; Persister.Persister.SaveLogs is proved for itself.
- Snapshots of the log: the snapshot index and term stay 0; installing, sending and compacting are not modelled,
  because the callback that would raise the index is never called.
- Exit, timers, sleeps, thread start and the client manager: steps may happen at any time; liveness is not stated.
- MapReduceTasks.FileName: the formats of file names are constructors, so that two formats never give one name is
  taken from them; that the reduce worker and the master use one name for an output is modelled.
- MapReduceRun.Next: reading one file and writing one file are one step each.
- File system errors, partial writes and two chunk files in one millisecond.
- MapReduceMaster.MasterHandler.CommitTask: a map result with a wrong number of files and an id out of range, which
  the source does not check, are excluded.
- ShardCtrler.JoinConfig: a first join without any group, for which the source reads the front of an empty list, and a
  group named -1, its mark for no group, are excluded.
- ShardCtrler.ShardCtrler.HandleJoin: excludes the same two joins.
- ShardCtrler.ShardCtrler.Apply: moves of a shard and queries of a configuration outside the tables are excluded.
- ShardService.Serve: ends at the first entry that breaks the agreement, as the invariant does; that the source goes on
  is what ShardService.ServeApplied covers, for the index check.
- MapReduceLate.LateWrite: for a worker that read something in time and a reducer whose results are not words, what the
  file then reads as is not stated.
- Waiting clients: promises are a flag that says whether somebody waits.
- The hash function, the map function and the reducer are parameters; the reducer is order-insensitive.
- ShardGroup, ShardKV, KVService and KVArgs: mostly stubs.
