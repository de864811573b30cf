# RaftIQ, modelled and proved in Dafny

RaftIQ is a Raft implementation with a durable write-ahead log and, on top of
it, a replicated store of locks, fenced values and jobs. This project models its
three cores and the codec of its membership entries, and proves what they are
there for.

**Raft** (`internal/raft`). `RaftStep` gives each locked handler as a function on
one node. `RaftNode` and `RaftLog` give the objects whose methods change state in
place, proved against those functions. `RaftProtocol` puts nodes into a network
that loses, duplicates and reorders, with restarts; each handler is one step. A
node carries what no crash can take away (`kept`), and a restart may come up with
that or with anything written after it, so a term in memory may fall.
`RaftInvariant`, `RaftGrowth`, `RaftMoves`, `RaftLeads`, `RaftAccepts` and
`RaftInduction` carry the induction: a history of ballots, leader logs and
acknowledgements exists for every run, and every step keeps the invariant that
ties it to the state. `RaftSafety` draws the theorems from it. `RaftElection` and
`RaftCommit` say exactly who gets a vote and what gets committed, and `RaftProgress`
that no run gets stuck: whatever state it has reached, a quorum can elect a leader,
and commit and apply what is then proposed. The membership is
fixed over a run, and may be stable or joint: only the intersection of quorums is
used. `RaftDurable`, `Replication` and `RaftApply` treat the follower's durable
log, the replication loop and the read confirmation loop, and the order of
application. `RaftFindings` and `RaftRuns` hold the places where the code falls
short.

**Write-ahead log** (`internal/storage`). `Bytes` and `WalCodec` are the byte
formats, `Wal` is the meaning of a file (replay, recovery, torn ends, compaction),
`WalStorage` the storage object. CRC-32 and the JSON form of a snapshot are
parameters (`Format`); of the latter only that decoding undoes encoding is used,
and `WalCodec.SoundFormat` shows that there are such forms.
`VoteFile` and `VoteDurability` join the log with the election handlers: failing
writes, failing syncs, compaction, and crashes that keep any number of bytes.
`LogFile` and `LogDurability` do the same for the entries a follower confirms.
`VoteFindings` and `LogFindings` hold where that falls short.

**State machine** (`internal/lock`, `internal/kv`). `KvState` is what each command
does, `KvRules` exactly when each part of the state changes, `KvHistory`,
`KvExecutions` and `KvLeases` the properties of every sequence of commands,
`KvSnapshot` and `KvStore` snapshots, restoring, and the store and applier objects.

**Membership entries** (`internal/raft/config_entry*.go`). `ConfigEntry`.

Outcomes of storage calls, network deliveries, clock values (`at`, `expiresAt`),
the results channel of a read and the decoding of a command's JSON are parameters.
Terms, log indices and fencing tokens are unbounded naturals where the source has
64-bit integers; the codecs state where a value has to fit its width, and the
32-bit attempt counter wraps.

## Where the code falls short of what it is for

- A ReadIndex probe carries no entries but a full commit index, and the follower
  caps only by its own last index. `RaftRuns.ProbeBreaksSafety` is a run of three
  nodes in which the probe makes a follower commit an entry the leader never had.
  `RaftFindings.SafeToFollowExactly`: the follower's rule is safe exactly for
  messages whose entries reach the commit index they announce. In the protocol model
  any other probe counts as an acknowledgement of the term only.
- `becomeFollowerLocked` clears the vote in an unchanged term. It keeps the node's
  promises exactly under `VoteFindings.BecomeFollowerKeepsPromises`; otherwise
  `VoteFindings.SecondGrant` shows the second vote.
- A leader whose peer's next index is the snapshot boundary 1 sends the boundary
  entry without its data: `RaftFindings.BuiltCarriesExactly`.
  `RaftRuns.BoundaryBreaksLogMatching` is a run in which a follower then holds a
  different entry under the same index and term.
- A follower whose sync fails during reconciliation keeps the write in its file and
  not in memory, and may confirm later entries on top:
  `RaftFindings.FailedSyncLosesConfirmed`. `RaftDurable.StaysInStep` is the exact
  condition under which the two logs stay equal.
- A batch whose entries are all in the log is confirmed without a write or a sync
  (`LogFindings.MemoryIsConfirmable`), and after a restart the log may not be synced.
  `LogFindings.KnownBatchLost` and `LogFindings.ConfirmedMayBeLost` are runs in which
  a follower confirms a batch and a power loss takes it away. Over every run,
  `LogDurability.RunConfirmedExactly` is the exact condition on each batch under which
  all that was confirmed survives every crash, and `LogDurability.RunHeldExactly` the
  exact condition on each restart and each failed sync under which all that is in
  memory does.
- A proposal whose sync fails, other than for want of space, leaves the leader in
  place and its file one entry ahead, so that every later proposal is refused:
  `RaftNode.StuckLeader`. Batches that follow on the log are refused likewise
  (`RaftDurable.StuckBehindFailedAppend`).
- A late batch from below the boundary of a fully compacted follower is taken by
  its empty durable log and refused by memory (`RaftDurable.LateBatchParts`), after
  which no batch is taken (`RaftDurable.StuckFollower`) until the follower compacts
  at a snapshot again (`RaftDurable.SnapshotFrees`).
- A node restarted with a compacted log and entries left refuses to start:
  `RaftNode.Reopen`. Every compaction below the last index leads there:
  `RaftNode.CompactionStopsRestart`.
- `OpenWAL` does not sync, so a restart after a failed sync may answer with a term
  that a power loss takes away: `VoteFindings.RestartMayLowerTerm`.
  `VoteDurability.RunAnsweredExactly` is the exact condition on each answer under which
  the recovered term is at least every term answered with;
  `VoteDurability.RunCoveredExactly` is the one on each restart if the term the node
  would answer with now is to be covered as well. Votes are safe either way
  (`VoteDurability.OneGrantPerTerm`), and the restart step of the protocol allows
  every such state (`VoteDurability.RecoveredStateAllowed`).
- The storage accepts memberships, suffixes and snapshots that recovery refuses:
  `Wal.ReplayMatches` is the exact condition, `Wal.AcceptedButRefused` an input. A compacted, empty log accepts an
  append at any index: `Wal.CompactedLogAcceptsGap`. An append at or below a stored
  snapshot has different results before and after compaction: `Wal.AppendSlips`,
  and exactly then `Wal.CompactionCommutes` fails, and `Wal.CompactionThenOperations`
  for operations after a compaction.
- LOCK_EXPIRE on the lock under an active job makes the state fail the validation of
  its own snapshot (`KvSnapshot.StaysValidExactly`), and the job is never claimed,
  started, finished or reclaimed again (`KvSnapshot.StrandedForever`).
- A claim that reuses a lock the worker already holds makes no new execution, and an
  execution ID can be started twice: `KvExecutions.ExecutionStartsTwice`,
  `KvExecutions.ReuseRepeats`. Without such claims it can not, until the attempt
  counter wraps: `KvExecutions.DistinctExecutions`. The comment on ClaimJob says that a claim
  allocates a new fencing token; the code does not in this case, and the model
  follows the code.

## Model

| member | source | states |
|---|---|---|
| RaftSafety.StateMachineSafety | internal/raft/node_replication.go:351-510 | in every run, whatever two nodes have committed at whatever times agrees entry by entry up to every index both commit indices cover |
| RaftSafety.LeaderCompleteness | internal/raft/node_replication.go:624-653 | in every run, what is committed by a node of some term is in the log of every leader of a later term from then on |
| RaftSafety.ElectionSafety | internal/raft/node_election.go:60-92 | in every run, two leaders of the same term, at whatever times, are the same node |
| RaftSafety.LogMatching | internal/raft/node_replication.go:433-449 | in every run, two logs with the same term at an index are equal up to it, data included, wherever and whenever seen |
| RaftSafety.LinearizableRead | internal/raft/node_readindex.go:16-246 | in every run, once a quorum has answered probes sent after the read began, in the leader's term, the index returned is at least every index any node had committed when the read began, and is exactly the one the leader had |
| RaftSafety.IndexOrder | internal/raft/node_snapshot.go:63-97 | in every run, dropped entries <= snapshot boundary <= stored snapshot <= last applied <= commit index <= last index on every node, and no term is below what the node has kept |
| RaftSafety.SnapshotExactly | internal/raft/node_snapshot.go:63-97 | in every run, a node may snapshot exactly the indices it has applied and not dropped |
| RaftSafety.RunConsecutive | internal/raft/log.go:38-55 | in every run, every log is consecutive from index 1 |
| RaftSafety.KeptNeverFalls | internal/raft/node_election.go:276-310 | in every run, whatever restarts there are, the term a node has kept never falls, and no later term of the node is below it |
| RaftSafety.StepTerms | internal/raft/node.go:76-171 | only a restart lowers the term in memory, and none below what is kept |
| RaftSafety.LaterResponses | internal/raft/node_replication.go:375-431 | in every run, a reply sent after a state carries at least the term its sender had kept in that state |
| RaftSafety.NoLaterLeader | internal/raft/node_readindex.go:179-246 | a quorum of confirmations rules out that a leader of a later term existed when the read began |
| RaftSafety.NothingBeyond | internal/raft/node_readindex.go:29-39 | a leader that has committed an entry of its own term has a commit index no earlier leader's can exceed |
| RaftSafety.RunHasChronicle | internal/raft/node_replication.go:351-653 | every run has a growing history of ballots, leader logs and acknowledgements with the invariant holding at each state |
| RaftInduction.StepKeeps | internal/raft/node_replication.go:12-653 | every step of every node keeps the invariant and only extends the history |
| RaftInduction.BuiltArgs | internal/raft/node_replication.go:161-205 | a message above the boundary carries the leader's log through its last index, hence covers the commit index it announces |
| RaftInduction.ScanResult | internal/raft/node_replication.go:632-650 | the commit scan ends where it began or at an index of the leader's own term that a quorum holds |
| RaftCommit.AdvancesExactly | internal/raft/node_replication.go:624-653 | a leader's commit index becomes the greatest index of its own term that its account of the peers puts on a quorum, if that is past it; none is left behind it |
| RaftCommit.ProposalCommitsAll | internal/raft/node_replication.go:95-120 | after an accepted proposal nothing committable is left uncommitted |
| RaftCommit.ConfirmationCommitsAll | internal/raft/node_replication.go:512-622 | likewise after a confirmed batch, and the peer's match and next index are those of its last entry |
| RaftElection.AsGoodTotal | internal/raft/node_election.go:8-20 | of any two logs at least one is up to date for the other |
| RaftElection.AsGoodTransitive | internal/raft/node_election.go:8-20 | being up to date carries over |
| RaftElection.BestLog | internal/raft/node_election.go:8-20 | among any nodes there is one whose log all the others find up to date |
| RaftElection.GrantedExactly | internal/raft/node_election.go:242-408 | a vote is granted if and only if the term is not older, no other vote was cast in it, the candidate is a voter, its last term is higher, or equal with at least the length, and the saves succeed |
| RaftElection.AllWouldGrant | internal/raft/node_election.go:242-408 | of any voters one is granted the vote of all of them, in any term above theirs |
| RaftElection.HigherTermWins | internal/raft/node_election.go:410-440 | a higher term in any request or reply makes the node a follower of that term |
| RaftProgress.CanElect | internal/raft/node_election.go:94-527 | every run can be continued so that a node of any given quorum is elected, with all logs as they were |
| RaftProgress.CanCommit | internal/raft/node_replication.go:12-653 | every run can be continued so that a node of a given quorum without snapshots leads, and an entry with any given data is committed and applied by all of them |
| RaftLeads.CommitRule | internal/raft/node_replication.go:624-653 | an index the scan accepts has been confirmed by a quorum in the leader's term |
| RaftLeads.NoRival | internal/raft/node_election.go:60-92 | a candidate with a quorum of votes has no other leader in its term |
| RaftLeads.CrownComplete | internal/raft/node_election.go:8-20 | a candidate with a quorum of votes holds everything that could still be committed in an earlier term |
| RaftMoves.UpToDateKeeps | internal/raft/node_election.go:347-363 | a voter that finds a candidate up to date gives it nothing it lacks of what may still be committed |
| RaftAccepts.ReconcileMerges | internal/raft/node_replication.go:278-349 | an accepted batch leaves the follower's log as it was if it already agrees to the end of the batch, and otherwise equal to the leader's log up to there |
| RaftAccepts.ReconcileAccepts | internal/raft/node_replication.go:278-349 | a batch that follows on a matching entry at or above the boundary is never refused for its contents |
| RaftAccepts.AcceptedExactly | internal/raft/node_replication.go:375-510 | a leader's batch is accepted, its saves done, if and only if its term is not older and the entry before it is there with that term; the node then follows |
| RaftAccepts.AcceptCommit | internal/raft/node_replication.go:467-479 | the follower's new commit index is its old one or exactly the leader's, and either way backs only committed entries |
| RaftNode.RaftNode.StartElection | internal/raft/node_election.go:94-168 | term, vote, role and votes become those of the step function, and nothing changes when not a voter or not durable |
| RaftNode.RaftNode.CandidateUpToDate | internal/raft/node_election.go:8-20 | true exactly for a higher last term, or an equal one with at least the length, of the uncompacted log |
| RaftNode.RaftNode.RequestVote | internal/raft/node_election.go:242-408 | new state and reply are those of the step function, for every outcome of the two saves |
| RaftNode.RaftNode.HandleVoteReply | internal/raft/node_election.go:410-527 | new state is that of the step function: stale, foreign and repeated replies change nothing |
| RaftNode.RaftNode.TryBecomeLeader | internal/raft/node_election.go:60-92 | leader exactly if a candidate with a quorum; replication maps set for every peer |
| RaftNode.SetAll | internal/raft/node_role.go:57-70 | the loop sets every peer to the value and leaves all other keys alone |
| RaftNode.RaftNode.AdvanceCommitIndex | internal/raft/node_replication.go:624-653 | the loop moves a leader's commit index to the greatest committable index, skipping those that are not |
| RaftNode.RaftNode.ReplicatedOn | internal/raft/node_replication.go:637-645 | the loop collects exactly the leader and the peers whose match index reaches the index |
| RaftNode.RaftNode.Propose | internal/raft/node_replication.go:12-145 | accepted exactly for a leader whose storage takes and syncs the entry; log, commit index and durable entries accordingly; a full disk makes the leader step down |
| RaftNode.ProposeInStep | internal/raft/node_replication.go:37-110 | with equal durable and in-memory logs a proposal is never refused for its index, and leaves them equal |
| RaftNode.StuckLeader | internal/raft/node_replication.go:45-92 | after a failed sync with a disk that is not full, the file is one entry ahead and every later proposal changes neither log, whatever becomes of its write |
| RaftNode.RaftNode.BuildAppendEntries | internal/raft/node_replication.go:161-205 | the loop builds the message of the step function, or none where an entry is missing |
| Replication.MessageExactly | internal/raft/node_replication.go:161-205 | above the boundary the message carries the log from the peer's next index on, the entry before it, and the commit index |
| RaftNode.RaftNode.HandleAppendReply | internal/raft/node_replication.go:512-622 | new state is that of the step function in all five cases, with nothing committable left uncommitted after a confirmation |
| RaftNode.RaftNode.FindFirstNew | internal/raft/node_replication.go:281-299 | the first entry the log lacks or contradicts, and which of the two it is |
| RaftNode.RaftNode.ReconcileEntries | internal/raft/node_replication.go:278-349 | durable entries, log and success after write, sync, cut and append, for every outcome of write and sync |
| RaftNode.RaftNode.AppendAll | internal/raft/node_replication.go:339-346 | the appending loop appends all of a consecutive batch or fails at its first entry |
| RaftNode.RaftNode.AcceptBatch | internal/raft/node_replication.go:451-486 | log, commit index and durable entries after an accepted batch, and after a refused one, for every outcome of write and sync |
| RaftNode.RaftNode.AppendEntries | internal/raft/node_replication.go:351-510 | new state, durable entries and reply for every message and every outcome of the saves, whether or not the two logs were equal before |
| RaftDurable.AppendInStep | internal/raft/node_replication.go:351-510 | with equal logs that is the handler of the protocol, and a batch that follows on at or above the stored snapshot leaves them equal unless the sync fails |
| RaftNode.RaftNode.CreateSnapshot | internal/raft/node_snapshot.go:9-131 | accepted exactly for an applied, readable index whose snapshot is saved and whose storage compacts; saved without compaction, only the stored snapshot moves; the uncompacted log is unchanged |
| RaftNode.SnapshotInStep | internal/raft/node_snapshot.go:99-131 | a snapshot at or past the stored one keeps equal logs equal, compacted or not |
| RaftNode.Reopen | internal/raft/node.go:76-129 | rebuilding the log succeeds exactly if the storage has dropped no entries or has none left, and then gives back the node's log with the stored snapshot as its boundary |
| RaftNode.CompactionStopsRestart | internal/raft/node.go:104-129 | after a compaction the node can be started again if and only if the snapshot is at its last index |
| RaftLog.Log.Append | internal/raft/log.go:38-56 | accepted exactly at the next index of the uncompacted log, which it extends |
| RaftLog.Log.TruncateFrom | internal/raft/log.go:244-260 | the uncompacted log is cut before the index, never at or below the boundary; 0 cuts everything above the boundary |
| RaftLog.Log.Compact | internal/raft/log.go:79-143 | the uncompacted log is unchanged; accepted exactly if the boundary agrees with it |
| RaftLog.Log.RestoreSnapshot | internal/raft/log.go:152-208 | accepted exactly if it moves forward or agrees; an agreeing log keeps what lies behind the boundary, any other becomes the snapshot's; unchanged if the snapshot stands for a prefix of it |
| RaftLog.Log.Get | internal/raft/log.go:226-242 | the entry of the uncompacted log above the boundary, its term alone at the boundary, nothing below or beyond |
| RaftLog.Log.LastIndex | internal/raft/log.go:210-216 | the length of the uncompacted log |
| RaftLog.Log.LastTermOf | internal/raft/log.go:218-224 | the last term of the uncompacted log |
| RaftLog.Log.Remaining | internal/raft/log.go:127-134 | the copying loop keeps exactly the uncompacted log above the index |
| RaftDurable.StaysInStep | internal/raft/node_replication.go:278-349 | durable and in-memory log stay equal if and only if the storage did not take a tail that memory refused |
| RaftDurable.InStepReconcile | internal/raft/node_replication.go:306-337 | with equal logs the storage refuses nothing that memory would take |
| RaftDurable.FollowingBatchStaysInStep | internal/raft/node_replication.go:278-349 | a batch that follows on a matching entry at or above the boundary keeps the two logs equal, unless the sync fails |
| RaftDurable.ReconcileResult | internal/raft/node_replication.go:278-349 | the new log is the old one if nothing disagrees, otherwise its prefix up to the first disagreement and the entries from there |
| RaftDurable.Redelivery | internal/raft/node_replication.go:351-510 | delivering an older message of a leader after a newer one was accepted changes nothing, and is confirmed if it starts at or above the boundary |
| RaftDurable.LateBatchParts | internal/raft/node_replication.go:321-337 | a batch from below the boundary is taken by an empty durable log and refused by memory |
| RaftDurable.StuckFollower | internal/raft/node_replication.go:321-337 | from then on no batch changes either log |
| RaftDurable.StuckBehindFailedAppend | internal/storage/wal_validate.go:48-68 | with the durable log ahead of the log in memory, nothing that follows on the latter is taken |
| RaftDurable.SnapshotFrees | internal/storage/wal_compact.go:74-83 | compacting at the boundary empties the durable log, so that the two are equal again |
| Replication.ReplicateTo | internal/raft/node_replication.go:207-276 | the loop ends within as many rounds as the next index, the follower then agrees with the leader through its last index with nothing cut that agreed, and the leader's match index says so |
| Replication.RoundReply | internal/raft/node_replication.go:433-449 | a round is accepted exactly if the previous entry matches, with the merged log; otherwise the follower's log is untouched |
| Replication.CollectAnswers | internal/raft/node_readindex.go:179-249 | confirms at the first answer that completes a quorum of successes in the term of the read, gives up at the first higher term, otherwise reports no quorum after the last answer |
| Replication.ProbeExactly | internal/raft/node_readindex.go:94-143 | a probe carries no entries, the entry before the peer's next index and the commit index from when the read began |
| Replication.ReadIndex | internal/raft/node_readindex.go:11-249 | an index is returned only if the node leads, has committed in its term, a quorum confirms before any higher term shows, and, unless it is a quorum by itself, it then still leads that term; whenever all of these hold one is returned; it is never beyond the commit index at the start |
| Replication.ConfirmedReadIsLinearizable | internal/raft/node_readindex.go:16-249 | in every run, when that loop confirms on answers sent after the read began, the index returned is at least every index any node had committed when the read began, and is exactly the leader's own |
| RaftApply.CommandsExactly | internal/raft/node_apply.go:126-182 | the commands of a log are exactly the entries that do not begin with "RCFG", in the order of their indices, each once |
| RaftApply.AppliedInOrder | internal/raft/node_apply.go:126-182 | in every run, between restarts, a node's state machine gets exactly those of the entries it applies |
| RaftApply.RemovedExactly | internal/raft/node_apply.go:104-121 | a leader is removed exactly by an encoded stable or leave-joint configuration without it |
| RaftApply.SameCommands | internal/raft/node_apply.go:126-182 | in every run, two nodes are to apply the same commands up to any index both have committed |
| RaftNode.RaftNode.ApplyCommitted | internal/raft/node_apply.go:126-182 | sends exactly the entries up to the new applied index that do not begin with "RCFG", in order, sets the membership to that of the last configuration, changes nothing else of the node save for a leader that an entry removes, and stops early only at a configuration that does not decode or can not be saved, or at a removal whose step-down can not be saved |
| RaftNode.RaftNode.ApplyConfiguration | internal/raft/node_apply.go:11-124 | the membership is published if it can be saved, a removed leader steps down and loses its vote, and a failing step-down leaves the membership published |
| RaftNode.RaftNode.ApplyEntry | internal/raft/node_apply.go:130-181 | one round: a command is sent or a configuration applied, and the applied index moves exactly if that succeeds |
| RaftApply.ReconfiguredExact | internal/raft/node_apply.go:11-83 | an entry yields a stable membership exactly if it encodes it as stable or leave-joint entry, a joint one exactly if it encodes it as enter-joint entry |
| RaftFindings.SafeToFollowExactly | internal/raft/node_replication.go:471-479 | following a message's commit index never commits what the leader lacks, if and only if the message's entries reach that index |
| RaftFindings.BuiltCarriesExactly | internal/raft/node_replication.go:182-202 | a message carries the leader's own entries if and only if it starts above the boundary or the boundary entry has no data |
| RaftFindings.FailedSyncLosesConfirmed | internal/raft/node_replication.go:306-337 | after a failed sync the handler confirms a batch of the next leader, and the log that a restart rebuilds from the file differs from the confirmed one below an entry they share |
| RaftRuns.ProbeBreaksSafety | internal/raft/node_readindex.go:94-143 | a run of three nodes after which the probe, built as the code does, makes a follower commit an entry different from the leader's committed one |
| RaftRuns.BoundaryBreaksLogMatching | internal/raft/node_replication.go:161-205 | a run of three nodes after which the message the leader builds leaves a follower with the leader's index and term and different data |
| Quorum.ConfigurationHasQuorum | internal/raft/membership.go:9-28 | the loop decides whether more than half of the voter positions are in the set |
| Quorum.MembershipHasQuorum | internal/raft/membership.go:30-48 | a majority of the current configuration, or of both halves of a joint one |
| Quorum.MajorityExactly | internal/raft/membership.go:5-28 | a majority is exactly more than half of the voters |
| Quorum.QuorumExactly | internal/raft/membership.go:30-48 | a quorum is exactly a majority of the configuration in force, of both during a change |
| Quorum.VotersSuffice | internal/raft/membership.go:50-86 | those who are no voters add nothing to a quorum |
| Quorum.CountIsCardinality | internal/raft/membership.go:18-25 | on a duplicate-free list the loop counts the distinct voters in the set |
| Quorum.QuorumsMeet | internal/raft/membership.go:30-48 | two quorums of one membership, stable or joint, share a voter |
| Quorum.AdjacentQuorumsMeet | internal/raft/node_membership.go:230-367 | quorums of adjacent memberships on the way from old through joint to new share a voter |
| Quorum.AddedQuorumsMeet | internal/raft/node_membership.go:158-171 | quorums before and after adding a voter share a voter even without the joint phase |
| Quorum.RemovedQuorumsMeet | internal/raft/node_membership.go:214-227 | quorums before and after removing a voter of a duplicate-free list share a voter even without the joint phase |
| Quorum.ValidateAdd | internal/raft/node_membership.go:111-172 | accepted exactly for a leader, a registered peer that is no voter and not itself, and no joint phase; the new list is the old one and the peer |
| Quorum.ValidateRemove | internal/raft/node_membership.go:174-228 | accepted exactly for a leader, another node that is a voter, more than one voter and no joint phase; the new list is the old one without the peer |
| VoteDurability.OneGrantPerTerm | internal/raft/node_election.go:365-398 | over every run of failing writes, failing syncs, compactions and crashes at any byte past the synced ones, a node never grants two candidates in one term, its own candidacies included |
| VoteDurability.RecoveredStateAllowed | internal/raft/node.go:84-90 | over every such run, what a crash at any byte leaves behind is a term and vote the protocol's restart step allows |
| VoteDurability.RunAnsweredExactly | internal/raft/node_election.go:276-310 | over every such run, the recovered term is at least every term answered with, at every point, if and only if each answer was given while the unsynced end of the file held no lower term |
| VoteDurability.RunCoveredExactly | internal/raft/node_election.go:276-310 | over every such run, the recovered term is at least every term answered with and the one in memory, at every point, if and only if each restart found no lower term in the unsynced end of the file than the one it came up with |
| VoteDurability.CoversMemoryExactly | internal/storage/wal.go:32-60 | no crash falls below the term in memory if and only if the unsynced end of the file holds no lower one |
| VoteDurability.CrashIsRecovery | internal/storage/wal.go:142-280 | a crash step is what recovery makes of the bytes that are left |
| VoteDurability.AskIsRequestVote | internal/raft/node_election.go:242-408 | the handler on top of the file is the RequestVote of the protocol, its outcomes decided by the storage |
| VoteFile.CrashRecovers | internal/storage/wal.go:74-117 | a crash at any byte past the synced ones recovers to the state after some number of whole records, at least those synced |
| VoteFile.CrashAt | internal/storage/wal.go:142-280 | for each number of records from the synced ones on there is a crash that leaves exactly those |
| VoteFile.RewrittenStates | internal/storage/wal_compact.go:84-118 | a compacted file stays readable and holds the term and vote the old file ended with |
| LogFile.SurvivesExactly | internal/storage/wal.go:142-280 | every crash, at any byte past the synced ones, recovers a log that begins with a given one if and only if each whole number of records from the synced ones on holds it |
| LogFile.GapIsFatal | internal/storage/wal_validate.go:70-108 | after a replacement past the end of the durable log, a crash that keeps the whole file leaves one that recovery refuses |
| LogDurability.BatchIsAppendEntries | internal/raft/node_replication.go:351-510 | the batch event is the AppendEntries handler beside a storage that holds what the file says, for every outcome of its saves |
| LogDurability.ProposalIsBatch | internal/raft/node_replication.go:37-110 | a proposal does to log and file what a batch of the node's own does |
| LogDurability.StepConfirmed | internal/raft/node_replication.go:278-349 | what is confirmed survives every crash after an event if and only if it is not a batch that is known and not yet durable, written on another log than memory's, or replacing confirmed entries with a sync that fails |
| LogDurability.RunConfirmedExactly | internal/raft/node_replication.go:278-349 | over every run of batches, saves, failing writes and syncs, restarts and crashes at any byte, what is confirmed survives every crash at every point if and only if each batch met that condition |
| LogDurability.RunHeldExactly | internal/raft/node.go:84-129 | over every such run, the log in memory survives every crash at every point if and only if each restart came up with a log that the unsynced end of the file holds and each failed sync was of an append; then what is confirmed does as well |
| LogFindings.MemoryIsConfirmable | internal/raft/node_replication.go:281-300 | the whole log as a batch is confirmed and nothing is written |
| LogFindings.KnownBatchLost | internal/raft/node_replication.go:278-349 | any run that ends with file and memory equal and synced goes on, by a failed sync, a restart, the batch again and a power loss, to confirm a batch and lose it |
| LogFindings.ConfirmedMayBeLost | internal/storage/wal.go:32-60 | a run from the first start after which an entry is confirmed and the log is empty |
| VoteFindings.RestartMayLowerTerm | internal/storage/wal.go:32-60 | a run in which a node answers with a term and a later crash leaves it in term 0 |
| VoteFindings.BecomeFollowerKeepsPromises | internal/raft/node_role.go:12-34 | every promise of a synced node is kept if and only if the term rises, or stays with no vote cast in it |
| VoteFindings.SecondGrant | internal/raft/node_apply.go:110-121 | after the step-down in an unchanged term another candidate is granted the vote that was refused before |
| Wal.TornTail | internal/storage/wal.go:142-280 | a well-formed file cut at any byte recovers to exactly the state after the records wholly before the cut, and keeps exactly those bytes |
| Wal.WholeMeaning | internal/storage/wal.go:142-280 | those records end by the cut and the next one does not |
| Wal.RecoverIsFrames | internal/storage/wal.go:142-280 | any bytes that recovery accepts are whole records, replayed in order, and a torn end or nothing |
| Wal.ReplayEqualsLive | internal/storage/wal.go:205-265 | after any sequence of successful, lasting operations the bytes of the file rebuild exactly the fields in memory |
| Wal.ReplayMatches | internal/storage/wal_entries.go:87-150 | replaying the record of an accepted operation does what the operation did, if and only if recovery's extra conditions hold |
| Wal.PerformsExactly | internal/storage/wal_validate.go:9-108 | exactly which operations the storage accepts |
| Wal.SnapshotLasts | internal/storage/wal_validate.go:137-170 | recovery accepts every snapshot of one log at or past the one before |
| Wal.GapIsRefused | internal/storage/wal_entries.go:87-150 | every accepted replacement behind a gap leaves a record that recovery refuses |
| Wal.AcceptedButRefused | internal/storage/wal_validate.go:70-108 | an accepted operation whose record recovery refuses |
| Wal.ReplacedValid | internal/storage/wal_validate.go:70-108 | replacing a suffix leaves consecutive indices if and only if there is no gap before it |
| Wal.RecordAppended | internal/storage/wal.go:282-343 | a record written whole extends what recovery finds by its replay, or makes recovery fail if replay refuses it; written in part it changes nothing |
| Wal.CompactsExactly | internal/storage/wal_compact.go:43-72 | compaction is accepted exactly at the index and term of the saved snapshot |
| Wal.CompactionRecovers | internal/storage/wal_compact.go:74-118 | the rewritten file recovers to the fields before compaction, less the entries up to the boundary |
| Wal.CompactionCommutes | internal/storage/wal_compact.go:74-118 | an operation accepted before compaction is accepted after it with the same effect above the boundary, if and only if it is not an append at or below the boundary |
| Wal.SequenceCommutes | internal/storage/wal_compact.go:74-118 | a sequence of operations does so at every point of it, if and only if none of them is such an append |
| Wal.StayedBeside | internal/storage/wal_compact.go:74-118 | such a sequence is carried out to its end on both sides, with equal results above the boundary |
| Wal.CompactionThenOperations | internal/storage/wal_compact.go:74-118 | operations after a compaction are carried out as without it, at every point, if and only if none is an append at or below the snapshot; then they end in the same fields less the compacted entries |
| Wal.AppendSlips | internal/storage/wal_validate.go:48-68 | the failing input: entries that end below the stored snapshot, and the next one |
| Wal.AboveMeaning | internal/storage/wal_compact.go:74-83 | what compaction keeps is the suffix from the first entry above the boundary |
| Wal.CompactedLogAcceptsGap | internal/storage/wal_validate.go:48-68 | once compaction has emptied the log, an append is accepted at an index it was refused at before |
| WalStorage.Storage.RecoverFile | internal/storage/wal.go:142-280 | fails exactly where recovery is undefined; otherwise the fields are rebuilt and the torn end cut off, and nothing is synced; the cursor is at the valid offset whenever a record begins, so the branch for an end of file past it is dead |
| WalStorage.Storage.AppendRecord | internal/storage/wal.go:282-343 | the whole record is in the file, or the file is as before, or it is closed with a torn end that recovery ignores |
| WalStorage.Storage.SaveState | internal/storage/wal_state.go:13-57 | fields and file change together or not at all; recovery then rebuilds the fields if and only if it accepts the membership |
| WalStorage.Storage.AppendEntries | internal/storage/wal_entries.go:18-85 | accepted exactly if valid and continuing; fields and file change together or not at all |
| WalStorage.Storage.ReplaceSuffix | internal/storage/wal_entries.go:87-150 | accepted exactly if valid; fields and file change together or not at all; recovery then rebuilds the fields if and only if there is no gap |
| WalStorage.Storage.SaveSnapshot | internal/storage/wal_snapshot.go:15-69 | fields and file change together or not at all; recovery then rebuilds the fields if and only if the index is positive and does not move backwards |
| WalStorage.Storage.Sync | internal/storage/wal.go:77-117 | everything written so far counts as durable exactly if the flush succeeds on an open file |
| WalStorage.Storage.Compact | internal/storage/wal_compact.go:12-258 | refused without a matching stored snapshot; otherwise file and fields are the compacted ones, and the file rebuilds the fields |
| WalStorage.ReplaceSuffixCopy | internal/storage/wal_copy.go:5-36 | the loop keeps the entries before the first one at or above the index and appends the replacement |
| WalStorage.KeepAbove | internal/storage/wal_compact.go:74-83 | the loop keeps exactly the entries above the boundary, in order |
| WalStorage.ReplayStorable | internal/storage/wal.go:205-265 | what recovery rebuilds can be saved again |
| WalStorage.RecoveredAgain | internal/storage/wal.go:142-280 | recovering the kept bytes again gives the same fields and keeps all of them |
| WalCodec.StateRoundTrip | internal/storage/wal_state.go:95-236 | a saved state is decoded unchanged if and only if its voter lists are ones the decoder accepts |
| WalCodec.OldStateKept | internal/storage/wal_state.go:120-236 | a record of the old format, without a membership, keeps its term and vote |
| WalCodec.MembershipIsGood | internal/storage/wal_membership.go:152-353 | a decoded membership has voter lists without empty, oversized or repeated IDs, at most 1024 long |
| WalCodec.EntriesRoundTrip | internal/storage/wal_entries.go:188-403 | an entries payload is decoded unchanged if and only if its indices run on from a positive one |
| WalCodec.SuffixRoundTrip | internal/storage/wal_entries.go:230-282 | a suffix payload is decoded unchanged |
| WalCodec.EncodeEntries | internal/storage/wal_entries.go:188-228 | the encoding loop writes the count and the entries in order |
| WalCodec.ValidateEntries | internal/storage/wal_validate.go:9-36 | accepts exactly positive, consecutive indices |
| WalCodec.DecodeEntriesPayload | internal/storage/wal_entries.go:338-403 | the decoding loop accepts exactly what the round trips are about, and nothing behind it |
| WalCodec.UnframeFrame | internal/storage/wal_record.go:79-170 | a framed record is read back with whatever follows it |
| WalCodec.UnframeTorn | internal/storage/wal_record.go:79-170 | a record cut short at any byte is torn, neither corrupt nor readable |
| WalCodec.UnframeIsFrame | internal/storage/wal_record.go:24-77 | what is read as a record is the encoding of that record |
| Bytes.ReadVotersIsPut | internal/storage/wal_membership.go:246-353 | a decoded voter list is a good one and its encoding is what was decoded |
| Bytes.ReadPutVoters | internal/storage/wal_membership.go:95-150 | a good voter list is decoded unchanged with whatever follows it |
| ConfigEntry.StableExact | internal/raft/config_entry_stable.go:14-207 | bytes decode to a configuration if and only if they are its encoding |
| ConfigEntry.LeaveJointExact | internal/raft/config_entry_joint.go:59-98 | bytes decode to a configuration if and only if they are its leave-joint encoding |
| ConfigEntry.EnterJointExact | internal/raft/config_entry_joint.go:12-141 | bytes decode to a pair of configurations if and only if they are its enter-joint encoding |
| ConfigEntry.KindsDisjoint | internal/raft/config_entry_codec.go:146-200 | no bytes decode as two kinds of entry, and all that decode are recognised as configuration entries |
| ConfigEntry.RecognisedExactly | internal/raft/config_entry.go:33-39 | an entry is taken for a configuration if and only if it begins with the bytes of "RCFG" |
| ConfigEntry.AdditionEncodesExactly | internal/raft/config_entry_joint.go:12-57 | exactly when the change that adds a voter can be written into the log |
| ConfigEntry.ValidateConfiguration | internal/raft/config_entry.go:41-78 | the loop accepts exactly non-empty lists of at most 1024 distinct, non-empty IDs of at most 1024 bytes |
| ConfigEntry.EncodePayload | internal/raft/config_entry_codec.go:12-41 | the loop writes the count and the IDs in order |
| ConfigEntry.DecodePayload | internal/raft/config_entry_codec.go:43-144 | the loop with its seen set decodes what the inverses are about |
| KvHistory.TokensIncrease | internal/lock/types.go:29-53 | over every sequence of commands, grant tokens strictly increase, so none is issued twice |
| KvHistory.WritesNeverRegress | internal/kv/store_fenced.go:40-67 | over every sequence of commands, tokens of accepted fenced writes to one key never decrease |
| KvHistory.OneStartPerToken | internal/kv/jobs_lifecycle.go:469-541 | over every sequence of commands, a token starts at most one execution |
| KvHistory.FinishMatchesStart | internal/kv/jobs_lifecycle.go:638-741 | over every sequence of commands, a finish repeats worker, token and execution ID of the job's last start |
| KvHistory.FinishedOnce | internal/kv/jobs_lifecycle.go:576-636 | over every sequence of commands, a job becomes final at most once |
| KvHistory.GrantsAreTokens | internal/lock/types.go:29-53 | a grant is recorded exactly when the token counter moves, by one, for a key without a lock |
| KvHistory.WritesAreFenced | internal/kv/store_fenced.go:40-67 | a fenced value changes exactly when a write is recorded, under the current token of the key's lock |
| KvHistory.JobEventsAreChanges | internal/kv/jobs_lifecycle.go:469-541 | a start is recorded exactly when a job begins to run, a finish exactly when it becomes final; a final job never changes |
| KvHistory.LastStartIsLast | internal/kv/jobs_lifecycle.go:469-541 | the last start of a job in a history is in it, with no later start of that job |
| KvRules.LockExactly | internal/lock/types.go:29-70 | a free key is locked exactly by an acquisition or a claim, under the next token; a held one is freed exactly by its expiry or the reclaim of its job |
| KvRules.ValuesExactly | internal/kv/store_fenced.go:10-77 | a fenced value is written exactly under the token of the key's lock |
| KvRules.JobsExactly | internal/kv/jobs_crud.go:10-56 | a job is added exactly by a creation under a new ID, pending, and never goes away |
| KvRules.JobMovesExactly | internal/kv/jobs_lifecycle.go:12-741 | which commands move a job and where to: a success ends in Succeeded, a failure in Failed |
| KvRules.ClaimNamesExecution | internal/kv/jobs_lifecycle.go:64-70 | a claim that takes the lock counts an attempt, in 32 bits, and names the execution after job and attempt |
| KvRules.ReclaimedExactly | internal/kv/jobs_lifecycle.go:238-350 | an active job becomes pending if and only if it is reclaimed under its lock's token at or past the end of the lease |
| KvRules.AcceptedExactly | internal/kv/apply.go:58-289 | exactly which commands are accepted |
| KvRules.RefusedBecause | internal/kv/jobs_lifecycle.go:84-741 | every refusal is given exactly for its own reason |
| KvRules.StopsExactly | internal/kv/applier.go:361-371 | which commands stop an applier, and that the state does not matter |
| KvLeases.TakenOnlyAfterLease | internal/kv/jobs_lifecycle.go:300-350 | over every log, a job stays with the worker that holds it under a lease until a reclaim at or past the end of that lease |
| KvLeases.WithinLease | internal/kv/jobs_lifecycle.go:638-741 | over every log, a start or finish is made by the holder of the job, under its lock, before the lease ends |
| KvLeases.EndedAsReported | internal/kv/jobs_lifecycle.go:469-541 | over every log, a job that has ended did so as its worker reported |
| KvSnapshot.StaysValidExactly | internal/kv/store_snapshot.go:89-239 | a command takes a valid state to a valid one if and only if it does not expire the lock under an active job |
| KvSnapshot.RunStaysValid | internal/kv/store_snapshot.go:89-239 | every state along a log that never does so passes validation |
| KvSnapshot.RefusedExactly | internal/kv/store_snapshot.go:241-353 | a snapshot is refused exactly for another version, a lock or a job that no state machine would have recorded |
| KvSnapshot.StrandedForever | internal/kv/jobs_lifecycle.go:238-350 | an active job whose lock is gone stays as it is under every sequence of commands |
| KvSnapshot.ExpiringStrands | internal/kv/store_lock.go:89-137 | expiring the lock under an active job is what leaves it so |
| KvSnapshot.ReclaimableExactly | internal/kv/jobs_lifecycle.go:238-350 | an active job can be reclaimed at some time if and only if it is not stranded; in a valid state every one can |
| KvExecutions.DistinctExecutions | internal/kv/jobs_lifecycle.go:12-82 | over every log in which no claim reuses a lock and no attempt counter wraps, no two starts of a job share an execution ID |
| KvExecutions.ReuseRepeats | internal/kv/jobs_lifecycle.go:189-228 | after any log, a claim that reuses a lock lets the execution ID of a started attempt be started again |
| KvExecutions.ExecutionStartsTwice | internal/kv/jobs_lifecycle.go:189-228 | a log of seven commands with two starts of one execution ID, under different tokens |
| KvExecutions.FirstReuseCannotStart | internal/kv/jobs_lifecycle.go:543-575 | a job first claimed by a reused lock has no execution ID, and no transition of it succeeds |
| KvState.RefusedKeeps | internal/kv/apply.go:58-87 | a refused command changes nothing |
| KvState.LocksChange | internal/lock/types.go:29-71 | a command only removes locks, or grants one free key the next token |
| KvStore.SnapshotPlusSuffix | internal/kv/applier.go:270-321 | restoring a snapshot and taking the rest ends where taking everything ends, if and only if the entries before it had not stopped the applier |
| KvStore.ReplayFromAnySnapshot | internal/kv/applier.go:270-321 | for every log that keeps leases, a snapshot taken anywhere along it restores, and with the rest gives the state of the whole log |
| KvStore.AppliedRun | internal/kv/applier.go:127-171 | an applier that was not stopped is in the state after the whole log of its commands |
| KvStore.HaltsExactly | internal/kv/applier.go:90-190 | the applier stops exactly at the first command that no state machine can carry out, whatever its state, so that all replicas stop at the same entry |
| KvStore.ValidateImage | internal/kv/store_snapshot.go:89-239 | the two loops decide validity whatever order the maps are walked in |
| KvStore.Store.AcquireIn | internal/lock/types.go:29-53 | a free key gets the next token, a held one is left alone and returned |
| KvStore.Store.AcquireLock | internal/kv/store_lock.go:10-63 | new state and error are those of the command |
| KvStore.Store.ExpireLock | internal/kv/store_lock.go:89-137 | new state and error are those of the command |
| KvStore.Store.FencedPut | internal/kv/store_fenced.go:10-77 | new state and error are those of the command, in the order the source tests them |
| KvStore.Store.CreateJob | internal/kv/jobs_crud.go:10-56 | new state and error are those of the command |
| KvStore.Store.ClaimJob | internal/kv/jobs_lifecycle.go:12-228 | new state and error are those of the command, the idempotent and the lock-reusing claim included |
| KvStore.Store.ReclaimExpiredJob | internal/kv/jobs_lifecycle.go:238-350 | new state and error are those of the command; accepted exactly under the lock's token at or past the end of the lease |
| KvStore.Store.TransitionJobState | internal/kv/jobs_lifecycle.go:469-741 | new state and error are those of the command |
| KvStore.Store.ApplyCommand | internal/kv/apply.go:58-289 | dispatch does to the fields what the properties over command sequences are about |
| KvStore.Store.TakeSnapshot | internal/kv/store_snapshot.go:22-87 | the snapshot holds every field, under version 1 |
| KvStore.Store.RestoreFrom | internal/kv/store_snapshot.go:241-353 | all fields are replaced by those of a valid snapshot of version 1, or none |
| KvStore.Applier.Run | internal/kv/applier.go:90-190 | applies the entries in order up to the first with an unexpected error, and records how far it came |
| KvStore.Applier.TakeSnapshot | internal/kv/applier.go:276-290 | the index returned is the one the state stands for |
| KvStore.Applier.RestoreSnapshot | internal/kv/applier.go:293-337 | state and index are replaced together, an earlier stop is cleared; a refused snapshot changes nothing |

## Left out

- RaftSafety.StateMachineSafety: the runs have one membership throughout. Configurations take effect when applied and concurrent changes are not excluded by the code; the quorum lemmas cover what a change itself guarantees. The steps are those of RaftInduction.StepKeeps.
- RaftSafety.LinearizableRead: a probe whose commit index lies beyond the peer's next index acknowledges the term without its effect on the follower's commit index, because that effect breaks the safety the proof rests on (see RaftRuns.ProbeBreaksSafety).
- RaftSafety.LogMatching: the runs leave out messages that start at the snapshot boundary, because they break it (see RaftRuns.BoundaryBreaksLogMatching).
- Replication.ConfirmedReadIsLinearizable: about the same runs, with the commit index of a probe cut as for RaftSafety.LinearizableRead.
- RaftInduction.StepKeeps: the steps do not include a sync that fails after a log write, a restart that reads log entries which were not synced and may still be lost, a stored snapshot that moves backwards or whose sync fails, a step-down in an unchanged term, a message that starts at the boundary, or a restart with entries behind a boundary. Of these, the first may lose a confirmed entry (RaftFindings.FailedSyncLosesConfirmed), the second may too (LogFindings.ConfirmedMayBeLost), each exactly as LogDurability.RunConfirmedExactly says, a step-down may give a second vote (VoteFindings.SecondGrant), a message from the boundary breaks log matching (RaftRuns.BoundaryBreaksLogMatching), and the last does not start (RaftNode.Reopen).
- RaftNode.RaftNode.AppendEntries: promises that the commit index stays within the log only through RaftSafety.IndexOrder, since a message from no leader could cut a committed suffix.
- RaftNode.RaftNode.CreateSnapshot: a snapshot that is written and whose sync fails counts as not saved.
- RaftProgress.CanCommit: says that progress is possible, not that it happens: timers and the scheduling of steps are not modelled. The nodes have stored no snapshot, since catching up past one takes InstallSnapshot.
- LogDurability.RunConfirmedExactly: the node has stored no snapshot, likewise for RunHeldExactly. With one, a restart also depends on what compaction has dropped (RaftNode.CompactionStopsRestart). Batches are consecutive, as buildAppendEntries makes them.
- Replication.ReplicateTo: the two nodes are values that exchange one message per round; other traffic to either of them between the rounds is not interleaved.
- WalStorage.Storage.SaveState: after a save that recovery refuses, nothing is promised about further calls; likewise for ReplaceSuffix and SaveSnapshot.
- WalStorage.Storage.Compact: the file-system half succeeds or leaves the old file; a failure between the rename and the reopening of the new file is not modelled, nor is the file position after reopening.
- KvStore.SnapshotPlusSuffix: snapshots are decoded values; their JSON text and the version-0 format are not modelled.
- KvHistory.TokensIncrease: the 64-bit counter is taken not to wrap around.
- InstallSnapshot and its sender, which drop the lock midway and may restore an older state.
- PreVote, timers, tickers, contexts, goroutines and the liveness of elections.
- AddMember and RemoveMember as sequences of proposals and waits; only their validation and the quorums of the memberships they pass through.
- gRPC transport, TLS, client, server, scheduler and worker loops, metrics and logging.
- MemoryStorage, plain reads of the store, job queries and deletion.
