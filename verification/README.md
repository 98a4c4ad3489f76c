# Verified model of db-hobby

A Dafny model of the hard parts of a small relational database written in C, with proofs of what
those parts are for.  Each component is a module group:

- `Raft*`: one node as functions (`RaftNode`) and as an object with in-place handlers
  (`RaftServer`); a cluster of nodes with a network that loses, delays and reorders messages and
  delivers each at most once (`RaftCluster`); a history of reigns, votes and commits that every
  event extends (`RaftHistory` to `RaftEvents`); the safety results over all runs
  (`RaftSafety`, `RaftBatch`, `RaftStaleRun`, `RaftMembership`), carried over to a cluster of
  objects (`RaftDeployment`); and what the safety results leave open: when a candidate wins
  (`RaftElections`), when a read is confirmed (`RaftEchoes`), what is applied (`RaftApply`), and how
  logs and snapshots spread (`RaftReplication`, `RaftCatchUp`, `RaftSnapshots`).
- `Wal*`: the write-ahead log with steal, undo and no-force as lists of writes, so that a process
  kill is a prefix; recovery; runs with kills anywhere; what those runs are meant to commit, from
  the calls alone (`WalContents`); and the file object.
- `Replica`, `ReplicaLog`: log shipping over the bytes of the log, and the bytes the log writer
  produces.
- `BTree*`: the page-resident B+Tree, its leaf chain and its page store.
- `Cb*`: the in-memory B+Tree with latch crabbing, as an interleaving of latch and node steps, its
  linearizability and its freedom from deadlock.
- `Lsm*`: the log-structured merge tree with its files, kills included.
- `BufPool`, `BufPoolTable`, `Rollback`: the buffer pool under interleaving, and transaction abort
  over pool and log together.
- `Lock`, `LockRuns`, `LockManager`: two-phase locks and deadlock detection.
- `JoinOrder`, `JoinOptimizer`, `JoinMethods`: the join-order dynamic program.
- `Like`: the LIKE matcher.
- `Wrappers`, `Bits`, `Keys`: what several of these share.

Code that updates a struct in place is a class whose methods are proved against functions on
values; the results over runs are lemmas about those functions.  Size constants are symbolic.
Integers are unbounded, costs are exact reals, page images are opaque values, and I/O failures,
where the code reacts to them, are inputs.

Where the code and its comments disagree the model follows the code:

- `src/raft.h` says configuration entries are not handed to the apply callback; `apply_committed`
  skips only no-ops, so they are.
- `src/raft.h` says there are no snapshots and no membership changes; the code has both.
- `src/wal.h` says a commit empties the log; the code keeps it until a checkpoint.

Some results hold only under a condition:

- State Machine Safety needs every AppendEntries to be safe for its receiver, because a follower
  clamps the commit index to its own last index, not to what the message verified.  The condition
  is the follower's own and exact for each delivery (`CommitsOnlyVerified`).  A leader meets it by
  sending the entries up to its commit index (`SafeSendsMakeSafeRuns`, `SendReachesCommit`).  For
  every batch limit a run breaks safety without it (`BatchLimitBreaksSafety`).  One unsafe delivery
  need not break a run, so over whole runs the condition is sufficient, not exact.
- Crash recovery is exact if and only if each stolen page of a committing transaction is staged
  again or has no other after-image in the retained log (`GuardIsExact`, `LostStolenPage`).
- Locks exclude in every run over a set of table names if and only if all of them fit the
  fixed-size field, or there is no room for two locks (`NamesMustFit`).  A name that fits is not
  enough: a longer one may be cut off to it (`ObjectExcludes`).
- An abort keeps the invariant of the buffer pool if and only if no thread is loading a page
  (`AbortLeavesValid`).  With it, views change only by writes ever after (`QuietAbortIsSafe`);
  without it a page can show another one's contents (`AbortDuringLoadMixesPages`).
- The replica applies every segment if and only if commit numbers increase (`ReplaysEverything`).
  A log that was cut and has grown past the replica's position loses the segments before it
  (`RegrownLogSkips`, `RegrownLogLosesCommit`).
- The optimizer's plan is at most as expensive as the order as written when that order takes a
  cross product only if nothing connected is left.  This goes one way: otherwise either can be the
  cheaper one, and `CrossProductCanWin` is a graph where the order as written is.

## Model

| member | source | states |
|---|---|---|
| `RaftSafety.ElectionSafety` | src/raft.c:375-410 | over every run with loss, delay, reordering and crash-restart, two nodes that lead the same term at any two moments are one node |
| `RaftSafety.LogMatching` | src/raft.c:412-460 | logs of any nodes at any two moments of a run that hold the same term at an index are identical up to it |
| `RaftSafety.LeaderCompleteness` | src/raft.c:480-509 | what a node has committed at a moment up to which every delivery was safe is in the log of every leader of that or a later term from then on |
| `RaftSafety.CommittedPrefixesAgree` | src/raft.c:471-476 | committed prefixes of any two nodes at any two moments, every delivery so far having been safe, agree wherever both reach |
| `RaftSafety.StateMachineSafety` | src/raft.c:225-232 | no two nodes ever apply different commands at one index, in runs in which every AppendEntries delivered was safe for its receiver |
| `RaftSafety.ReadIndexFresh` | src/raft.c:346-371 | when a read barrier is confirmed, no node had led a later term when it was opened, and the confirmed index covers everything committed while every delivery was safe, even if older replies arrive late |
| `RaftEchoes.ConfirmedByMajority` | src/raft.c:517-541 | while the leader that opened a barrier leads and opens no other, the read is confirmed at the commit index of that moment if and only if more than half of the nodes, itself and the senders of successful replies delivered since with its term and epoch, have echoed it; else not at all |
| `RaftElections.ElectedByMajority` | src/raft.c:195-221 | a node that stood for election in a run, and is neither past that term nor a follower in it, leads if and only if the granted votes of that term delivered to it are, with its own, more than half |
| `RaftElections.VoteRule` | src/raft.c:375-394 | a vote is granted exactly to a candidate of a current or later term whose log ends in a later term, or in the same and is as long, unless another candidate of that term has it |
| `RaftApply.AppliesCommittedLog` | src/raft.c:225-232 | over every run of safe deliveries a node has applied, since its start or last restart, exactly the commands of its committed log, each once, in order, no-ops excepted, and nothing committed is left over |
| `RaftCatchUp.CatchesUp` | src/raft.c:511-543 | whatever a follower holds, exchanging as many appends and replies as twice the leader log is long makes its log begin with all of the leader log, and the leader knows it |
| `RaftCatchUp.LeaderIsPaired` | src/raft.c:164-193 | in every run a leader and a peer that has seen no later term are such a pair, when its match index is zero or on an entry of the leader term |
| `RaftReplication.SubmittedIsFound` | src/raft.c:298-311 | the index a leader returns for a command is where that command is: any node at any later moment with an entry of that term at that index has that command there |
| `RaftReplication.CommitsHighest` | src/raft.c:480-509 | the commit index of a leader becomes the highest index of its own term that more than half of the members hold, if that is higher, and never goes back |
| `RaftReplication.BroadcastReachesAll` | src/raft.c:364-369 | a broadcast is exactly one append message to every other member |
| `RaftReplication.CandidateAsksAll` | src/raft.c:206-221 | a candidate asks every other member exactly once, with its term and the end of its log |
| `RaftReplication.ChangeKeepsQuorums` | src/raft.c:313-344 | a membership change that is taken is the next entry and in force at once, and every majority before it meets every majority after it |
| `RaftReplication.ChangeRefused` | src/raft.c:313-326 | a change of no or several nodes, or while the last one is uncommitted, changes nothing |
| `RaftSnapshots.SnapshotCatchesUp` | src/raft.c:545-602 | a peer behind the compacted log takes over the leader snapshot as a whole, index, term, value and membership, and the next append after its reply is accepted and makes its entries those of the leader, as far as one batch reaches |
| `RaftSnapshots.SendsSnapshot` | src/raft.c:122-152 | a peer that needs compacted entries is sent the compacted index with its term, the value and the membership of the snapshot |
| `RaftSnapshots.KeepsOwnState` | src/raft.c:545-587 | a peer that has committed as far keeps its log, commit index, value and membership |
| `RaftSafety.StaysInBounds` | src/raft.c:137-162 | in reachable states every index a leader reads to build a message is inside its log, so the C code stays inside its arrays |
| `RaftSafety.SendReachesCommit` | src/raft.c:155-160 | a message carries the entries up to the commit index it announces if and only if that index is within the batch limit of what the peer has |
| `RaftBatch.CommitsOnlyVerified` | src/raft.c:443-476 | an AppendEntries moves the commit index no further than the entries it verified if and only if it is safe for its receiver: stale, rejected, announcing nothing beyond them or beyond its commit index, or meeting a log that ends by then, is all committed, or conflicts with one of the entries |
| `RaftBatch.SafeSendsMakeSafeRuns` | src/raft.c:153-160 | if every message sent carries the entries up to the commit index it announces, every delivery of the run is safe |
| `RaftStaleRun.BatchLimitBreaksSafety` | src/raft.c:153-160 | for every batch limit there is a run of a fresh cluster of three in which two nodes have applied different commands at one index |
| `RaftDeployment.Deployment.constructor` | tests/test_raft.c:74-86 | one object per node, in the states of a fresh cluster |
| `RaftDeployment.Deployment.Happen` | tests/test_raft.c:88-114 | whatever event happens to the objects and messages, the objects are in the states the run of the cluster model gives, so every handler was called within its precondition |
| `RaftDeployment.Deployment.OneLeaderPerTerm` | tests/test_raft.c:15 | in every reachable state the objects hold at most one leader of a term |
| `RaftDeployment.Deployment.SameCommands` | tests/test_raft.c:19 | in every reachable state up to which every delivery was safe, the objects applied the same commands at the same indices |
| `RaftCompleteness.LeaderComplete` | src/raft.c:87-94 | a committed entry is in the log of every later leader, from the up-to-date vote check and the current-term commit rule |
| `RaftCompleteness.CandidateHasEntry` | src/raft.c:87-94 | a candidate that a holder of a committed entry found up to date holds it too |
| `RaftCompleteness.QuorumsMeet` | src/raft.c:56-64 | two majorities of one membership share a node |
| `RaftFollowing.PutOverlays` | src/raft.c:443-460 | the AppendEntries loop overlays the follower log with the leader slice: equal entries stay, a conflict cuts the rest, and nothing else changes |
| `RaftEvents.OnEvent` | src/raft.c:604-630 | every event of the cluster extends the history of reigns, votes and commits and keeps the invariant all safety results follow from |
| `RaftMembership.MembershipFollowsLog` | src/raft.c:66-84 | across all handlers, truncation and snapshot installation included, the member mask is the base mask folded over the configuration entries of the log |
| `RaftMembership.SnapshotKeeps` | src/raft.c:632-655 | compaction keeps last index, last term, every retained entry and the effective membership, and refuses exactly the indices that are not committed or already compacted |
| `RaftServer.Create` | src/raft.c:236-270 | a node is created exactly when the cluster size is within the limit, as the initial node value, and its id may index the peer arrays if and only if it is below the limit |
| `RaftServer.Server.constructor` | src/raft.c:236-270 | a new node is the initial node value: empty log behind the marker, follower, everyone a member; it is usable if and only if its id is below the limit |
| `RaftServer.Server.Append` | src/raft.c:33-46 | one entry is appended and a configuration entry takes effect at once |
| `RaftServer.Server.Recompute` | src/raft.c:75-84 | the member mask is recomputed from the base mask and the log |
| `RaftServer.Server.StepDown` | src/raft.c:98-107 | role, term, vote, timer and read barriers are reset and nothing else |
| `RaftServer.Server.MessageFor` | src/raft.c:137-162 | the message to a peer: the entries from its next index on, at most the batch limit, or a snapshot when they were compacted |
| `RaftServer.Server.Lead` | src/raft.c:164-193 | a new leader: peer arrays of current members reset, a no-op when uncommitted entries are inherited, one message to every member |
| `RaftServer.Server.Stand` | src/raft.c:195-221 | a new candidate votes for itself, asks every other member once, and leads at once when it is alone |
| `RaftServer.Server.Apply` | src/raft.c:225-232 | every entry up to the commit index is applied once, in order, no-ops excepted |
| `RaftServer.Server.OnTick` | src/raft.c:279-296 | heartbeats of a leader, or an election when the timeout is reached |
| `RaftServer.Server.OnSubmit` | src/raft.c:298-311 | a leader appends the command at the next index; any other node refuses |
| `RaftServer.Server.OnChangeConfig` | src/raft.c:313-344 | one configuration change at a time, adopted when appended, members never replicated to start at the first index |
| `RaftServer.Server.OnReadIndex` | src/raft.c:346-371 | opens a barrier with a new epoch at the commit index, refused before the gate of the term |
| `RaftServer.Server.OnRequestVote` | src/raft.c:375-394 | grants at most one vote a term, to an up-to-date candidate |
| `RaftServer.Server.OnRequestVoteReply` | src/raft.c:396-410 | counts granted votes of the current term and takes office at a majority |
| `RaftServer.Server.OnAppendEntries` | src/raft.c:412-478 | rejects stale terms and missing predecessors, else overlays the log and follows the commit index |
| `RaftServer.Server.Advance` | src/raft.c:480-509 | commits the highest index of the current term that a majority holds, and steps down when no longer a member |
| `RaftServer.Server.OnAppendEntriesReply` | src/raft.c:511-543 | success raises the match index, may commit and counts the read echo; failure backs up by one (what the count means: `ConfirmedByMajority`, what the indices lead to: `CatchesUp`) |
| `RaftServer.Server.OnInstallSnapshot` | src/raft.c:545-587 | a newer snapshot replaces the log and the base membership |
| `RaftServer.Server.OnInstallSnapshotReply` | src/raft.c:589-602 | the peer continues after the snapshot |
| `RaftServer.Server.OnReceive` | src/raft.c:604-630 | dispatch: the node and the messages it emits are those of the handler of the message |
| `RaftServer.Server.Compact` | src/raft.c:632-655 | drops the log up to an applied index behind a marker, folding dropped configurations into the base |
| `RaftServer.Server.CrashAndRestart` | src/raft.c:657-672 | term, vote and log survive, everything volatile is reset |
| `WalRecovery.CrashRecoveryExact` | src/wal.c:104-219 | a disk that recovery restores exactly is still restored exactly after recovery was killed at any write, any number of times |
| `WalRecovery.RecoverRestores` | src/wal.c:104-219 | a complete recovery leaves exactly the committed contents on every committed page and empties the log |
| `WalRecovery.RecoverHarmless` | src/wal.c:147-217 | no prefix of the writes of recovery changes what a later recovery restores |
| `WalRecovery.RedoEffect` | src/wal.c:117-163 | the redo pass leaves on each page its last after-image before the last commit marker |
| `WalRecovery.UndoEffect` | src/wal.c:170-211 | the undo pass leaves on each page the last before-image of the loser |
| `WalRuns.DataMatchesCommitted` | src/wal.c:394-444 | over every run of begin, stage, steal, undo, commit and checkpoint with a kill at any write, the data file between transactions is that of the last transaction whose marker reached the log |
| `WalContents.CommitsWhatIsMeant` | src/wal.c:270-444 | over every such run the committed contents are what the calls alone say, page by page: the image last staged since the transaction began, else the last stolen one, else the old one, else zero; taken over by a commit or a kill past its marker, dropped by an undo or any other kill; between transactions the file is that and, padded with zero pages, of exactly the length the calls say |
| `WalContents.StageIsUpdate` | src/wal.c:281-296 | staging a page updates a map from pages to images and keeps every other page, while there is room |
| `WalLength.RecoversTo` | src/wal.c:104-219 | however often recovery is killed, once it completes the data file is the committed contents and not a page more |
| `WalRuns.GuardIsExact` | src/wal.c:298-339 | a kill right after the commit marker is recovered exactly if and only if each stolen page not staged again has no other after-image in the retained log |
| `WalRuns.StalePage` | src/wal.c:147-155 | without that guard the page falls back to its older after-image |
| `WalRuns.LostStolenPage` | src/wal.c:298-339 | a run of two transactions in which a committed update of a stolen page is lost |
| `WalRuns.KeepSteal` | src/wal.c:298-339 | a steal killed between any two of its writes is recovered to the committed contents |
| `WalRuns.KeepUndo` | src/wal.c:341-392 | an undo, killed between any two of its writes or complete, leaves the committed contents |
| `WalRuns.CommitKilled` | src/wal.c:394-444 | a commit killed before its marker is recovered to the old contents, after it to the new ones |
| `WalFile.WalFile.Start` | src/wal.c:270-279 | a transaction starts with no staged or stolen pages and remembers page count and log position |
| `WalFile.WalFile.StagePage` | src/wal.c:281-296 | replaces the image of a staged page or adds it while there is room, and says which; every other staged page keeps its image |
| `WalFile.WalFile.StealPage` | src/wal.c:298-339 | writes the base once, the before-image once per old page, then the page, in that order |
| `WalFile.WalFile.UndoTxn` | src/wal.c:341-392 | writes back the before-images of this transaction in log order, cuts new pages and its own records |
| `WalFile.WalFile.Commit` | src/wal.c:394-444 | after-images, marker, pages, and a cut of the log if and only if its bytes exceed the checkpoint size |
| `WalFile.WalFile.Recover` | src/wal.c:104-219 | redo of the winners, undo of the loser, cut of its pages and of the log, as one list of writes |
| `Replica.StreamingIsOneShot` | src/replica.c:72-148 | after any sequence of growing byte prefixes of the log, torn records included, the replica is in the state of one replay of the last prefix |
| `Replica.RewindChangesNothing` | src/replica.c:77-80 | rewinding to the start of the log and replaying it again changes neither data nor position nor counters |
| `Replica.ReplaysEverything` | src/replica.c:129-142 | every complete committed segment is applied if and only if the commit numbers increase, and then the data is that of all their after-images in log order |
| `Replica.ResumesAfterCheckpoint` | src/replica.c:78-80 | a log that was cut and holds newer commits is replayed from its start, completely |
| `Replica.RegrownLogSkips` | src/replica.c:77-83 | when a cut log has grown past the position again, with newer commits and the position at the end of its k-th segment, exactly the first k segments are passed over, so all are applied if and only if k is zero |
| `Replica.SkippedForGood` | src/replica.c:129-142 | segments passed over stay lost once a later commit was applied, rewinding included |
| `Replica.RegrownLogLosesCommit` | src/replica.c:77-83 | two logs of equal length, for every page size, where the second holds a newer commit that the replica never applies |
| `Replica.SegmentsGrow` | src/replica.c:92-146 | the committed segments of a log are a prefix of those of any longer log |
| `ReplicaLog.ReadsBack` | src/replica.c:92-146 | the bytes the log writer produces for any list of records are read back by the replica as exactly the after-images of each commit since the one before, begin and before-image records passed over, and reading fails exactly when one commit has more than fit the buffer |
| `ReplicaLog.ReplicaIsRedo` | src/replica.c:72-148 | a replica that has read such a log, its commit numbers increasing, holds on every page what the redo pass of recovery leaves there |
| `ReplicaLog.LogLength` | src/wal.c:434-440 | the length that decides about a checkpoint is that of those bytes |
| `Replica.WalReplica.CatchUp` | src/replica.c:72-148 | one call replays exactly the new complete segments, reports how many, and fails exactly on a segment over the staging limit |
| `Replica.WalReplica.Commit` | src/replica.c:129-142 | at a commit marker the buffered pages are written only if the commit is newer than the last applied |
| `Lock.LocksExclude` | src/lock.c:17-83 | over every run of nonzero transaction ids, no two transactions hold conflicting locks on an object, provided no longer name was cut off to its name |
| `LockRuns.HoldsWhatWasGranted` | src/lock.c:17-83 | in every run a transaction holds an object in a mode if and only if that, or more, was granted to it since its last release |
| `LockRuns.WaitsForWhatWasRecorded` | src/lock.c:97-123 | in every run a transaction waits for an object in a mode if and only if that is the last wait recorded for it and not cleared since |
| `LockRuns.ReleaseFreesOwn` | src/lock.c:77-83 | after a release no slot is the transaction's and every other slot is as it was |
| `Lock.AcquireExcludes` | src/lock.c:35-75 | a request is granted if and only if no other holder conflicts and there is a slot for it; then it holds the object, which still excludes; a refusal changes nothing |
| `Lock.NameMustFit` | src/lock.c:70-73 | a second exclusive request for one object is refused if and only if the table name fits the entry: stored names are truncated, compared names are not |
| `Lock.ObjectExcludes` | src/lock.c:17-83 | one object is exclusive in every run over a set of table names if and only if no name of the set is cut off to its name, or there is no room for two locks |
| `Lock.NamesMustFit` | src/lock.c:70-73 | every object is exclusive in every run over a set of table names if and only if all of them fit the entry, or there is no room for two locks |
| `Lock.WaitsForExact` | src/lock.c:126-158 | the targets collected for a waiter are exactly the holders in its way |
| `Lock.CutOffIsSafe` | src/lock.c:167-169 | a search path as long as the wait table already repeats a transaction, so the depth limit loses nothing |
| `Lock.DeadlockDetection` | src/lock.c:161-191 | over every run of nonzero transaction ids the victim is nonzero if and only if the wait-for graph has a cycle, and it lies on one |
| `LockManager.Manager.AcquireLock` | src/lock.c:17-75 | the table becomes that of the grant function and the answer is its answer |
| `LockManager.Manager.ReleaseLocks` | src/lock.c:77-83 | exactly the entries of the transaction are freed, every other entry and all waits stay |
| `LockManager.Manager.AddWait` | src/lock.c:97-114 | one wait per transaction: replaced, added, or dropped when the table is full |
| `LockManager.Manager.ClearWait` | src/lock.c:116-123 | the wait of the transaction is gone and the last one fills its place |
| `LockManager.Manager.CollectTargets` | src/lock.c:126-158 | the conflicting holders, each once, in table order |
| `LockManager.Manager.Dfs` | src/lock.c:161-180 | depth-first search over a shared path array finds what the recursive search finds |
| `LockManager.Manager.DeadlockVictim` | src/lock.c:182-191 | the first victim over all waiters |
| `JoinOrder.RowsDependOnSet` | src/joinopt.c:127-130 | with symmetric selectivities the rows of a left-deep plan depend only on the set of relations joined |
| `JoinOptimizer.RecordedOrder` | src/joinopt.c:146-156 | the order read off the table by following prev is admissible, joins exactly its subset and re-costs to the cell |
| `JoinOptimizer.CellIsCheapest` | src/joinopt.c:110-142 | no admissible order of a subset is cheaper than its cell |
| `JoinOptimizer.FullPlanOptimal` | src/joinopt.c:84-159 | the full subset is always reached, and its plan is a permutation of minimal cost among those that take a cross product only when nothing connected is left |
| `JoinOptimizer.Optimize` | src/joinopt.c:84-159 | a plan is returned exactly for valid graphs within the size limit, and it is optimal and re-costs to its stated cost, rows and methods |
| `JoinMethods.CheapestOfAll` | src/joinopt.c:84-159 | the optimizer's plan names usable methods, its cost and rows are theirs, and no admissible order with any usable choice of a method per join is cheaper; it is marked as a cross product exactly when some relation is joined without a predicate |
| `JoinMethods.StepCostIsBest` | src/joinopt.c:53-76 | the method named for one join is applicable, its cost is charged, and no applicable method is cheaper |
| `JoinMethods.ConnectedIsShares` | src/joinopt.c:37-49 | the connection test on masks is true exactly when a joined relation has a predicate with the new one |
| `JoinMethods.EvaluatedRows` | src/joinopt.c:127-130 | the estimated rows are the product of the cardinalities and of every predicate between the relations, along any order |
| `JoinOptimizer.NaiveCost` | src/joinopt.c:161-194 | the plan of the order as written |
| `JoinOptimizer.CombineSel` | src/joinopt.c:37-49 | the product of the edge selectivities and whether there is an edge |
| `JoinOptimizer.Fill` | src/joinopt.c:97-142 | every subset expanded in increasing order: settled cells extend settled cells and every allowed extension was offered |
| `JoinOptimizer.Backtrack` | src/joinopt.c:146-157 | restores the recorded order and methods from the back |
| `JoinOptimizer.CompareToNaive` | tests/test_joinopt.c:132-160 | the plan of the optimizer never costs more than that of the order as written, when selectivities are symmetric and that order is of the allowed kind |
| `JoinOptimizer.CrossProductCanWin` | src/joinopt.c:115-141 | when it is not, the order as written can be cheaper than every plan the optimizer considers |
| `Like.LikeMatch` | src/db.c:408-428 | terminates and returns true if and only if the declarative match of % and _ holds, for all strings and patterns |
| `Like.LastPercentSuffices` | src/db.c:417-420 | backtracking to the last % alone loses no match |
| `LsmRuns.LsmRefinesMap` | src/lsm.c:299-372 | over every run of writes, flushes, compactions and kills, in both modes, the layered tree is one simple map, and the tables alone are the map a kill would leave |
| `LsmRuns.CompactCrashAtomic` | src/lsm.c:437-491 | a compaction stopped after any number of its file operations and opened again leaves the same contents |
| `LsmRuns.PartialViews` | src/lsm.c:477-488 | with the merged table written, any number of the oldest tables may be gone without a tombstone losing its effect |
| `LsmRuns.OpenedTables` | src/lsm.c:249-289 | opening a directory yields exactly its whole files in the order of their numbers |
| `Lsm.FirstIsNewest` | src/lsm.c:385-435 | sorting by group and descending priority and taking the first of each group is the newest-to-oldest search |
| `Lsm.MergeExact` | src/lsm.c:437-470 | the merged run is sorted and holds exactly the live newest entry of every group |
| `Lsm.UpsertFind` | src/lsm.c:89-144 | after a write the memtable finds the new entry for its group and the old ones for all others |
| `LsmTree.Locate` | src/lsm.c:76-124 | the binary search returns the position of the group or where it belongs |
| `LsmTree.TableGet` | src/lsm.c:209-221 | range pruning and binary search find the entry of a key in a table if there is one |
| `LsmTree.SortTables` | src/lsm.c:282-288 | the exchange sort orders the tables by number and loses none |
| `LsmTree.Open` | src/lsm.c:249-289 | a directory listed in any order opens to its tables, to a valid tree if and only if every whole file is a sorted run; a zero threshold is refused |
| `LsmTree.Tree.WriteOut` | src/lsm.c:299-311 | the memtable becomes the newest table, written whole before it counts |
| `LsmTree.Tree.WriteEntry` | src/lsm.c:89-144 | the entry replaces that of its group or is inserted in order, then the memtable is flushed if full; its group reads as written and every other group as before |
| `LsmTree.Tree.Put` | src/lsm.c:318-322 | the key reads as the value and every other key as before |
| `LsmTree.Tree.Delete` | src/lsm.c:324-328 | the key reads as absent and every other key as before |
| `LsmTree.Tree.PutDup` | src/lsm.c:330-334 | the pair is present and every other pair, of this key too, as before |
| `LsmTree.Tree.DeleteVal` | src/lsm.c:336-340 | the pair is absent and every other pair, of this key too, as before |
| `LsmTree.Tree.Get` | src/lsm.c:352-372 | returns the value of the key in the layered view, or none |
| `LsmTree.Tree.Scan` | src/lsm.c:493-514 | visits exactly the live pairs in the range, each once, ascending |
| `LsmTree.Tree.FindAll` | src/lsm.c:517-535 | visits exactly the live pairs of the key, each once, ascending |
| `LsmTree.Tree.CompactAll` | src/lsm.c:437-491 | one merged table replaces all tables; old files are unlinked oldest first, after it is written |
| `BufPool.ViewChangesOnlyByWrites` | src/bufpool.c:117-173 | in every reachable state, while loaders have dropped the latch too, the view of a page changes only by a pin holder writing it, or by its allocation |
| `BufPool.NeverEvictsPinned` | src/bufpool.c:74-113 | in every reachable state a page is in one valid frame at most, and a miss leaves every pinned or loading frame untouched |
| `BufPool.FetchReadsLastWrite` | src/bufpool.c:119-171 | in every run, what a hit pins or a load publishes is the image last written to the page by a pin holder, or the first contents of the disk |
| `BufPool.FlushMakesDurable` | src/bufpool.c:212-224 | after a flush of all frames, no page being written to, the disk alone holds for every page the image last written to it |
| `BufPool.FlushWrites` | src/bufpool.c:212-224 | a flush puts the image of every dirty frame up to the first failure on the disk, makes those frames clean and changes nothing else |
| `BufPool.VictimLeastRecent` | src/bufpool.c:83-97 | in every run the page a miss evicts is one whose last fetch is the oldest among the pages that may go |
| `BufPool.Lru` | src/bufpool.c:83-97 | the victim is the least recently used frame that may go, the first of several |
| `BufPool.KeepFinish` | src/bufpool.c:159-171 | publishing a load, or giving the frame back after a failed one, keeps every view |
| `BufPool.KeepFlush` | src/bufpool.c:212-224 | a flush, stopped anywhere by a failed write, keeps every view |
| `BufPoolTable.BufferPool.Find` | src/bufpool.c:65-72 | the frame that holds the page |
| `BufPoolTable.BufferPool.Pick` | src/bufpool.c:76-113 | a free frame, else the victim written out first; a failed write changes nothing |
| `BufPoolTable.BufferPool.BeginFetch` | src/bufpool.c:117-157 | a hit pins, a loading page makes the caller wait, a miss reserves a pinned loading frame |
| `BufPoolTable.BufferPool.EndFetch` | src/bufpool.c:161-171 | the load is published or the frame given back |
| `BufPoolTable.BufferPool.Unpin` | src/bufpool.c:198-210 | the dirty mark is added and one pin dropped |
| `BufPoolTable.BufferPool.FlushAll` | src/bufpool.c:212-224 | dirty frames are written in order until a write fails, which it reports: the images of all frames before that one are then on disk and clean, nothing else changed |
| `BufPoolTable.BufferPool.InvalidateAll` | src/bufpool.c:266-274 | every frame is given up |
| `Rollback.RollbackRestores` | src/db.c:3125-3160 | after any mix of loads, writes, allocations and steals by any number of threads, an abort leaves every page as seen when the transaction began and the file as long |
| `Rollback.AbortLeavesValid` | src/db.c:3125-3160 | the state an abort leaves is one a new transaction may begin in if and only if no thread is loading a page at that moment |
| `Rollback.QuietAbortIsSafe` | src/db.c:3125-3160 | after an abort with no load under way, in everything that follows, the view of a page changes only by a write |
| `Rollback.AbortDuringLoadMixesPages` | src/bufpool.c:266-274 | with a load under way a page can come to show the contents of another: the frame is handed out again while the first load still reads into it |
| `Rollback.OpenedLoadable` | src/db.c:3076-3098 | every table just opened, with any data and at least one frame, is one where that happens |
| `Rollback.InvalidPool` | src/bufpool.c:266-274 | giving up every frame keeps the invariant of the pool if and only if no load is under way, since the loading flags stay |
| `Rollback.BeginOpens` | src/db.c:3076-3098 | opening a transaction on a clean pool establishes what every step keeps until it ends |
| `BTreeRuns.DuplicateRuns` | src/btree.c:77-263 | after any run of duplicate inserts and deletes all leaves are at one depth, entries sorted, the chain from page 1 exactly the leaves in order, every node on its own page, and the entries exactly the live multiset |
| `BTreeRuns.UniqueRuns` | src/btree.c:77-204 | after any run of unique inserts and deletes the keys are distinct and the tree is the map of the last values written |
| `BTreeRuns.MixedRuns` | src/btree.c:77-263 | in any mix of unique inserts, duplicate inserts and deletes the tree, its leaf chain and its pages are well formed at every moment; a unique insert replaces one entry of its key if and only if the leaf it reaches holds one, and every operation changes nothing but its own entry |
| `BTreeRuns.SeesExact` | src/btree.c:77-107 | in a sorted leaf the place an insert looks at has its key if and only if some entry has |
| `BTreeRuns.RunCapped` | src/btree.c:77-181 | no node ever outgrows its page |
| `BTreeFacts.InsertChained` | src/btree.c:108-131 | splitting a leaf keeps the chain equal to the leaves in order |
| `BTreeFacts.EntriesGood` | src/btree.c:133-142 | separators divide: the entries of an ordered tree are sorted and inside its bounds |
| `BTree.InsertOrdered` | src/btree.c:77-181 | an insert keeps every separator right, across splits that propagate |
| `BTreePages.InsertStored` | src/btree.c:77-181 | an insert writes exactly the pages of the changed path and no page outside the subtree |
| `BTreeRuns.RemovedGood` | src/btree.c:214-263 | a delete removes the first such entry, keeps separators valid though stale, and leaves the chain alone |
| `BTreeSearch.MatchesExact` | src/btree.c:369-409 | each value is visited as often as its entry is in the tree |
| `BTreeSearch.OnlyInChild` | src/btree.c:289-297 | with distinct keys the child a search descends to is the only one that can hold the key |
| `BTreeSearch.LeftIsLess` | src/btree.c:375-388 | left of the child chosen by the lower-bound descent there are only smaller keys |
| `BTreeFile.BTreeFile.NodeInsert` | src/btree.c:77-181 | the recursive insert does to the pages what the tree insert does to the tree, and returns its separator and new page |
| `BTreeFile.BTreeFile.InsertUnique` | src/btree.c:206-208 | the entry of the key is replaced or added; all other entries stay |
| `BTreeFile.BTreeFile.InsertDup` | src/btree.c:210-212 | exactly this entry is added to the multiset |
| `BTreeFile.BTreeFile.DeleteVal` | src/btree.c:214-263 | succeeds if and only if the entry is there, and removes its first occurrence |
| `BTreeFile.BTreeFile.Search` | src/btree.c:271-300 | finds a value of the key; with distinct keys it fails only if there is none |
| `BTreeFile.BTreeFile.FindAll` | src/btree.c:369-409 | all values of the key in order, even when duplicates straddle splits and leaves are empty |
| `BTreeFile.BTreeFile.Scan` | src/btree.c:302-330 | all entries in order |
| `CbLinear.NeverMisses` | src/cbtree.c:67-164 | under every interleaving, a search that begins after an insert of its key completed returns the value of that insert or of one that took effect at or after it |
| `CbLinear.ContentsAreLatest` | src/cbtree.c:120-164 | at every moment of every interleaving the tree contains for each key exactly the value put last |
| `CbLinear.SearchLinearizes` | src/cbtree.c:67-84 | a search returns the value put last before some step between its begin and its end |
| `CbLinear.InsertLinearizes` | src/cbtree.c:86-164 | an insert puts its pair in exactly one step between its begin and its end |
| `CbSearch.SearchIsCurrent` | src/cbtree.c:67-84 | a search returns exactly what the tree contains at the moment it reads the leaf |
| `CbSearch.StepContents` | src/cbtree.c:120-164 | the contents change only in the step in which an insert reaches its leaf, by exactly its pair; splits, links and root growth never change them |
| `CbSearch.SoughtInRange` | src/cbtree.c:98-107 | the key a thread seeks lies in the key range of every node it is using |
| `CbSearch.SplitUnderLatch` | src/cbtree.c:120-158 | a node split but not yet linked is write-latched together with its parent by one thread and no other |
| `CbProgress.NeverStuck` | src/cbtree.c:67-164 | latching never deadlocks: under every interleaving, while some search or insert is unfinished, some thread can take a step |
| `CbHeap.HeapSplit` | src/cbtree.c:122-131 | splitting a node keeps ranges on each level disjoint and every slot covered by its child and the unlinked half |
| `CbHeap.HeapRaise` | src/cbtree.c:145-157 | linking the right half puts it next to the node it was split from and closes the slot |
| `CbHeap.HeapGrow` | src/cbtree.c:136-143 | a new root covers the whole key space |

## Left out

- RaftSafety.StateMachineSafety: snapshots and membership changes are not events of the cluster; installing a snapshot drops acknowledged entries, and a new leader resets peer indices of current members only.
- Saving a Raft node to a file and loading it back; the raftdb simulator.
- Power loss and write reordering below the file system; the crash model is a process kill, after which completed writes remain.
- `wal_flush_commit` of src/db.c, which writes no marker when the pool holds no dirty page; the model is the protocol of src/wal.c, on page contents.
- WalContents.CommitsWhatIsMeant: only under the guard of `GuardIsExact`; without it recovery can lose a stolen page.
- RaftCatchUp.CatchesUp: the exchanges of one leader and one follower, no other message between; timeouts are not modelled in real time.
- Replica.RegrownLogSkips: a regrown log in which the replica's position is inside a record; what is read from there is whatever those bytes mean.
- `btree_seek_scan`, which can pass duplicates of its start key, and opening an existing index file.
- CbSearch.StepContents: the changes a thread makes to one write-latched node, and to the node it splits off, are one step; the sibling chain and the range count are not modelled.
- CbTree and BTreeFile: the arrays of a node are sequences updated as values; the loops that shift entries in place are not modelled.
- LsmTree.Open: file names and directory scanning are an already parsed listing; clearing a tree is not modelled, and qsort is a sorting function.
- BufPool: the flush to a callback (its clean frames are ahead of the disk until the log applies them), discarding dirty frames, the counters, and reading inside the latch.
- Rollback.RollbackRestores: pool and log are composed as values; catalog fields and index roots, reread from their pages, are not modelled.
- JoinOptimizer.Optimize: rounding, and 1e300 as infinity.
- JoinOptimizer.CompareToNaive: nothing is claimed of an order as written that takes an avoidable cross product.
- The SQL parser and executor, heap, MVCC, catalog, server and pager: long or byte-level, but with few deep properties.
