# AuraDB verification

A Dafny model of the parts of AuraDB in which a fast or distributed mechanism has to agree with a
simple one, and proofs that it does.

| area | modules | main results |
|---|---|---|
| consensus | RaftNode, RaftCluster, RaftHistory, RaftSteps, RaftHandlers, RaftSafety, RaftProgress, RaftApply, SoleVoter | Raft safety over all runs of any cluster on an unreliable network with crashes; a leader repairs any follower's log; what reaches the state machine |
| replication | Engines, Replication, Scripts, LostWrite, Overwritten, SingleNode | exactly when every committed write reaches every engine once and in order, across crashes, and runs in which inline writes break that |
| vector search | Ranking, HnswSearch, HnswGraph, HnswIndex, VectorIndex | layered-graph search is exact up to 2m+1 vectors; the graph stays well formed |
| indexes and planner | Values, Filters, Comparisons, Indexes, CollectionIndexes, IndexObjects, Planner | indexes and cached graphs stand for the live records over all runs; when an index seed equals a scan |
| text | Sums, Analyzer, TextIndex, TextSearch, TextField, Plurals, Folding, OkapiWeights, Bm25, AnalyzedBm25 | analyzer views equal re-indexing; when BM25 over them does too; which document ranks first; which plurals are found |
| aggregation | Facets, BucketOrder, Aggregates, Averages, GroupBy | when index facets equal scan facets; GROUP BY partitions and conserves totals |
| paging | BigEndian, CursorToken, CursorPaging | keyset paging while rows come and go |
| shared | Wrappers, Sequences, Sorting | options, results, sequences, sorting by any total order |
| the rest | Relevance, SchemaOrder, Clock, Opcodes, Frames | NDCG bound, dump order, lock-free clock, frame codec |

Objects the source updates in place are classes whose methods are proved equal to a function of the
old state; the theorems are about those functions. Protocols are state machines over their steps, and
their theorems quantify over whole runs. Hash-map iteration is an arbitrary order everywhere.

`dafny verify dfyconfig.toml` checks the project.

## Properties that fail, and exactly when they hold

- An index-seeded find equals the full scan only if the chosen index misses no record matched by
  int/float or timestamp/int coercion, or by null (`Planner.RunFind`, `Planner.CoercedProbeIsMissed`).
- An index-served facet equals the scanned one only if records posted together share a bucket
  (`Facets.PathsAgreeExactly`, `Facets.MixedListIsMiscounted`).
- A node that restarts before it has applied all it knew committed never hands those entries to its
  state machine (`SoleVoter.RestartCanSkip`); without such a restart it hands out every entry once
  (`RaftApply.AppliedOnce`). The replication layer makes up for it by replaying the log into the engine
  on start (`SingleNode.EveryWriteArrives`, `Replication.RestartIsComplete`).
- A writer that applies its batch inline while an earlier committed write is missing from the engine
  loses the earlier one for good: the watermark has passed it, so replay ignores it
  (`LostWrite.InlineCanLose`). A writer also applies a batch that was never committed, if its leader was
  deposed and another entry committed at the same index, since it tests the commit index before
  leadership and term (`Overwritten.OverwrittenIsApplied`). Every engine of a run stays a prefix of the
  committed writes exactly when no inline write does either (`Replication.EnginesArePrefixes`); the
  second is told by the term of the committed entry (`Replication.TermTells`).
- The bucket comparator is not a total order when integers, texts and timestamps meet
  (`BucketOrder.ComparatorCanCycle`); `BucketOrder.BucketsAreOrdered` gives the exact condition.
- A plural shares its singular's term by exact conditions (`Plurals.PluralOfPlain`,
  `Plurals.PluralOfHiss`). "houses" and "house", or "biases" and "bias", do not meet them, and "bias" loses
  its s (`Plurals.SomePluralsPart`), although crates/auradb-index/src/analyzer.rs:331-334 says no singular
  is collapsed onto a wrong stem.
- More occurrences weigh strictly more under BM25 unless b is 1 and the document has no recorded length
  (`OkapiWeights.OftenWeighsMore`).
- Values survive JSON only under the condition in `Values.RoundTrip` (`Values.MimicIsMisread`).
- BM25 under an analyzer weighs by default lengths, so a dropped stopword can change scores
  (`AnalyzedBm25.StopwordChangesScore`); the answers are the analyzed corpus's own exactly when every
  document loses the same share of its tokens and none all of them, or nothing is left
  (`AnalyzedBm25.AnswersAgreeExactly`).
- The clock repeats itself once the largest 64-bit word is spent (`Clock.WordsRunOut`), and at no other
  time (`Clock.TickIsNew`, `Clock.ClockIsMonotone`).
- NDCG leaves [0, 1] on rankings with repeats (`Relevance.DuplicatesScoreAboveOne`), and on no other
  (`Relevance.BoundedExactly`), although crates/auradb-query/src/relevance.rs:18 says all scores lie
  within it.

## Model

| member | source | states |
|---|---|---|
| RaftSafety.ElectionSafety | crates/auradb-raft/src/node.rs:407-452 | over every run of any cluster (messages lost, repeated, reordered; nodes crashing and recovering), two leaders of one term are the same node |
| RaftSafety.LogsMatch | crates/auradb-raft/src/node.rs:454-529 | any two logs, taken at any two times of a run, that agree on the term at an index agree on every entry up to it |
| RaftSafety.StateMachineSafety | crates/auradb-raft/src/node.rs:669-697 | what any two nodes hold committed at any two times of a run is one a prefix of the other |
| RaftSafety.LeadersAreComplete | crates/auradb-raft/src/node.rs:407-439 | a leader holds everything any node ever knew committed while in a lower term |
| RaftSafety.CommitsAreForever | crates/auradb-raft/src/node.rs:149-174 | a node's committed log, commit index and term never go back, across crashes too |
| RaftSafety.DeliveryNeverFails | crates/auradb-raft/src/node.rs:370-405 | in no run does handling a delivered message fail, so the gap and term-regression errors of log storage are unreachable |
| RaftProgress.CatchUp | crates/auradb-raft/src/node.rs:454-560 | a leader and any follower of its term whose log agrees with the leader's up to some entry: alternating sends and replies end, after at most as many refusals as the next index, with the follower holding the leader's whole log and the leader recording that |
| RaftProgress.LeaderRepairs | crates/auradb-raft/src/node.rs:454-560 | in every reachable state of every run a leader brings any follower of its term, however its log diverged, to exactly its own log by finitely many exchanges |
| RaftProgress.RefusedSendsMore | crates/auradb-raft/src/node.rs:531-560 | after a refusal the next message starts one entry earlier and carries exactly one entry more, as long as there is an earlier entry |
| RaftProgress.AcceptedHolds | crates/auradb-raft/src/node.rs:454-529 | after an accepted message the follower holds the leader's log and the leader's match and next index say so |
| RaftProgress.SilenceCampaigns | crates/auradb-raft/src/node.rs:308-324 | a node that hears nothing for its timeout starts an election in the next term, votes for itself and asks every peer |
| RaftProgress.HeartbeatComes | crates/auradb-raft/src/node.rs:308-324 | a leader sends to every peer once per heartbeat interval |
| RaftProgress.VoteIsExact | crates/auradb-raft/src/node.rs:407-439 | a vote of the voter's term is granted if and only if it has not voted for another and the candidate's log ends in a later term, or in the same term no shorter |
| RaftProgress.MajorityWins | crates/auradb-raft/src/node.rs:441-452 | the vote that takes a candidate past half of the cluster makes it leader in its own term |
| RaftProgress.MajorityCommits | crates/auradb-raft/src/node.rs:531-560 | an entry of the leader's term that more than half of the cluster is known to hold is committed by the acknowledgement that tells so |
| RaftProgress.AcceptingCommits | crates/auradb-raft/src/node.rs:515-529 | a follower that accepts a message takes over the leader's commit index as far as its own log reaches |
| RaftApply.AppliedAccounted | crates/auradb-raft/src/node.rs:334-347 | over every window of every run, restarts included, the applied index moves over exactly the committed entries not yet applied: those handed to the state machine and those a restart skipped |
| RaftApply.AppliedOnce | crates/auradb-raft/src/node.rs:334-347 | what the state machine is handed over any window is exactly the committed entries not yet applied, in order, none twice, none skipped, if and only if every restart in it found the node with all it knew committed already applied |
| SoleVoter.RestartCanSkip | crates/auradb-raft/src/node.rs:149-174 | a run in which a node commits a command, restarts, and never hands that command out, since recovery sets the applied index to the commit index |
| SoleVoter.SoleCampaign | crates/auradb-raft/src/node.rs:563-594 | a lone voter wins its campaign at once and has its whole log committed, a no-op last |
| SoleVoter.SolePropose | crates/auradb-raft/src/node.rs:350-367 | a lone leader has a proposal committed when the proposal returns |
| Engines.ReplayCommitted | crates/auradb-replication/src/node.rs:108-127 | the recovery loop applies the committed log from its start |
| Engines.ReplayCompletes | crates/auradb-replication/src/apply.rs:1-9 | replaying any committed prefix over an engine that holds some prefix leaves it with every write up to the longer of the two, once and in order |
| Engines.InlineExactly | crates/auradb/src/engine.rs:1182-1198 | a writer's own batch, applied inline at the index it was proposed at, keeps the engine a prefix of the committed writes if and only if it is at or below the watermark, or it is the entry committed at that index and no earlier committed write is missing |
| LostWrite.InlineCanLose | crates/auradb/src/engine.rs:1182-1198 | a whole run of two voters, from election to a drained driver, after which two writes are committed and taken, the engine holds the later alone, and an inline write came before its turn |
| Overwritten.OverwrittenIsApplied | crates/auradb-replication/src/multi.rs:1560-1570 | a whole run of three voters in which a deposed leader's proposal is overwritten, its commit index reaches that proposal all the same, and the waiting writer applies the batch that was never committed; after a restart the engine still holds it, and never gets the committed write |
| Replication.ClusterRun | crates/auradb-replication/src/multi.rs:837-870 | dropping the engine moves of a deployment run leaves a run of the Raft cluster, so its safety theorems apply |
| Replication.EnginesArePrefixes | crates/auradb-replication/src/multi.rs:935-946 | over every run of a cluster with engines, drivers, waiting writers and crashes: every engine holds exactly the committed writes up to its watermark, in order, none twice, none missing, if and only if every inline write came in turn |
| Replication.WaitingWasLogged | crates/auradb-replication/src/multi.rs:1539-1556 | an entry a writer waits for was in that node's log when it was proposed |
| Replication.TermTells | crates/auradb-replication/src/multi.rs:1560-1570 | when the commit index reaches a proposal, what is committed there is the proposal exactly when it has the term it was proposed in: the test that would keep an overwritten batch out |
| Replication.DrainedIsComplete | crates/auradb-replication/src/multi.rs:935-946 | where inline writes came in turn, a driver that has taken and applied all there is has every committed write in its engine |
| Replication.RestartIsComplete | crates/auradb-replication/src/multi.rs:816-832 | where inline writes came in turn, a restarted node has every committed write in its engine, although its queue was lost and Raft hands nothing out again |
| SingleNode.BootstrapServes | crates/auradb-replication/src/node.rs:78-127 | whatever a crash left durable, bootstrapping brings every logged write into the engine and leaves a serving leader |
| SingleNode.EveryWriteArrives | crates/auradb-replication/src/node.rs:238-257 | over every run of writes, crashes between commit and apply, and restarts of the single-node cluster, the engine holds exactly the accepted commands, in order, each once |
| SingleNode.FreshServes | crates/auradb-replication/src/node.rs:78-104 | a fresh data directory serves after its first bootstrap |
| RaftSafety.NextInv | crates/auradb-raft/src/node.rs:370-405 | every event keeps the cluster invariant, for some growth of the history of votes, campaigns, elections and acknowledgements |
| RaftSafety.RunInv | crates/auradb-raft/src/node.rs:308-405 | every state of every run is explained by a history, and later states by later histories |
| RaftHistory.LeaderCompleteness | crates/auradb-raft/src/node.rs:407-439 | a prefix a quorum acknowledged in its leader's term is in the starting log of every later leader |
| RaftHistory.OneWinner | crates/auradb-raft/src/node.rs:441-452 | a quorum of votes for a candidate makes it the one winner of that term |
| RaftSteps.StoreSlice | crates/auradb-raft/src/node.rs:497-513 | storing a slice of the leader's log keeps a log that already holds it and otherwise truncates to exactly the leader's prefix, never failing |
| RaftSteps.GrantCarries | crates/auradb-raft/src/node.rs:407-439 | a vote granted under the up-to-date rule goes to a log that holds everything the voter acknowledged and later leaders kept |
| RaftSteps.LeaderCommitOk | crates/auradb-raft/src/node.rs:669-689 | an index the leader may commit, replicated on a majority and of its own term, is committed in the history |
| RaftHandlers.BecomeLeaderFine | crates/auradb-raft/src/node.rs:611-638 | winning, appending the no-op, committing and broadcasting keep the invariant and cannot fail |
| RaftHandlers.CampaignFine | crates/auradb-raft/src/node.rs:563-594 | campaigning, and winning at once in a cluster of one, keeps the invariant |
| RaftHandlers.TickFine | crates/auradb-raft/src/node.rs:308-324 | a tick keeps the invariant in every role |
| RaftHandlers.ProposeFine | crates/auradb-raft/src/node.rs:350-367 | a proposal keeps the invariant, whether accepted or refused |
| RaftHandlers.RequestVoteFine | crates/auradb-raft/src/node.rs:407-439 | answering a vote request keeps the invariant |
| RaftHandlers.VoteRespFine | crates/auradb-raft/src/node.rs:441-452 | counting a vote keeps the invariant |
| RaftHandlers.AppendEntriesFine | crates/auradb-raft/src/node.rs:454-529 | accepting or refusing entries keeps the invariant and cannot fail |
| RaftHandlers.AppendRespFine | crates/auradb-raft/src/node.rs:531-560 | an acknowledgement or a refusal keeps the invariant |
| RaftHandlers.MergedKeeps | crates/auradb-raft/src/node.rs:497-513 | following a leader loses nothing the node acknowledged unless a leader in between had dropped it |
| RaftNode.CommitScan | crates/auradb-raft/src/node.rs:669-683 | the largest index the scan may commit: between the old commit index and the end of the log, and committable if it moved |
| RaftNode.AppendKeepsSequence | crates/auradb-raft/src/log.rs:193-220 | an entry is appended if and only if indices then still count up without a gap and terms never fall |
| RaftNode.MemStorage.AppendEntry | crates/auradb-raft/src/log.rs:193-238 | appends exactly when the index is next and the term does not regress, and changes nothing otherwise |
| RaftNode.MemStorage.Truncate | crates/auradb-raft/src/log.rs:240-246 | drops the suffix from an index on |
| RaftNode.Raft.constructor | crates/auradb-raft/src/node.rs:149-174 | a node recovers term, vote and commit index from storage as a follower |
| RaftNode.Raft.TakeCommitted | crates/auradb-raft/src/node.rs:334-347 | the loop returns the committed entries past the applied index and moves the applied index to the commit index |
| RaftNode.Raft.TakeMessages | crates/auradb-raft/src/node.rs:327-329 | hands out the queued messages, in order, and empties the queue |
| RaftNode.Raft.AdvanceCommit | crates/auradb-raft/src/node.rs:669-689 | the in-place scan leaves the node in the state the commit function gives |
| RaftNode.Raft.Lead | crates/auradb-raft/src/node.rs:611-638 | the node's new state and success are those of the leadership function |
| RaftNode.Raft.Run | crates/auradb-raft/src/node.rs:563-594 | the node's new state is that of the campaign function |
| RaftNode.Raft.Advance | crates/auradb-raft/src/node.rs:308-324 | the node's new state is that of the tick function |
| RaftNode.Raft.Propose | crates/auradb-raft/src/node.rs:350-367 | new state and reply of a proposal, including the refusal by a non-leader |
| RaftNode.Raft.OnRequestVote | crates/auradb-raft/src/node.rs:407-439 | new state after a vote request |
| RaftNode.Raft.OnVoteResp | crates/auradb-raft/src/node.rs:441-452 | new state and success after a vote |
| RaftNode.Raft.Store | crates/auradb-raft/src/node.rs:497-513 | the entry-by-entry loop leaves storage and success as the recursive store does, errors included |
| RaftNode.Raft.OnAppendEntries | crates/auradb-raft/src/node.rs:454-529 | new state and success after entries arrive |
| RaftNode.Raft.OnAppendResp | crates/auradb-raft/src/node.rs:531-560 | new state after an acknowledgement or a refusal; RaftProgress.CatchUp says where the refusals lead |
| RaftNode.Raft.Receive | crates/auradb-raft/src/node.rs:370-405 | new state and success for any message, a higher term adopted first |
| Ranking.BoundedTopK | crates/auradb-index/src/lib.rs:419-455 | the bounded heap returns the first k of the full sort by score descending and id ascending, for every k and every enumeration order |
| Ranking.SelectionIsTop | crates/auradb-index/src/lib.rs:419-455 | a kept set no dropped candidate beats is, sorted, the front of the full sort |
| Ranking.OrderIndependent | crates/auradb-index/src/lib.rs:375-381 | sorting permuted candidates with distinct ids gives one sequence |
| HnswSearch.SearchLayer | crates/auradb-index/src/hnsw.rs:185-241 | the beam search terminates, visits only reachable nodes, returns the ef most similar it visited, and has met all neighbours of those |
| HnswSearch.WideBeamIsReachability | crates/auradb-index/src/hnsw.rs:185-241 | with ef at least the node count it returns exactly the nodes reachable from the entry points in that layer |
| HnswGraph.ClosestChooses | crates/auradb-index/src/hnsw.rs:245-248 | neighbour selection takes m distinct candidates, or all, and no candidate left out is closer than one taken |
| HnswGraph.EffectLinksOk | crates/auradb-index/src/hnsw.rs:251-319 | joining a node with pruning keeps every link to an existing other node of that layer, no duplicates, degree at most 2m at the base and m above |
| HnswGraph.NoBaseTrim | crates/auradb-index/src/hnsw.rs:251-319 | with at most 2m+1 nodes no base-layer prune fires |
| HnswGraph.InsertConnects | crates/auradb-index/src/hnsw.rs:251-307 | with at most 2m+1 nodes an insertion keeps the base layer connected |
| HnswIndex.Hnsw.Prune | crates/auradb-index/src/hnsw.rs:310-319 | re-pruning leaves the budget closest neighbours and touches no other list |
| HnswIndex.Hnsw.Descend | crates/auradb-index/src/hnsw.rs:261-276 | greedy width-1 searches on each layer from the top lead to the returned node |
| HnswIndex.Hnsw.Insert | crates/auradb-index/src/hnsw.rs:251-307 | the whole effect of an insertion: descent, each layer searched from what the layer above found, mutual links to the m closest, pruned neighbours, new entry and top layer; well-formedness and, up to 2m+1 nodes, connectedness are kept for every layer draw |
| HnswIndex.Hnsw.Nearest | crates/auradb-index/src/hnsw.rs:324-360 | the exact ranking of what the base beam keeps after the descent; equal to the full sort when the base is connected and the beam covers all nodes |
| HnswIndex.EveryNodeFound | crates/auradb-index/src/hnsw.rs:344-360 | ranking all nodes in any order is the full sort of all entries |
| VectorIndex.AnyOrder | crates/auradb-index/src/lib.rs:419-455 | the exact answer does not depend on the order the map yields vectors in |
| VectorIndex.BuildGraph | crates/auradb-index/src/hnsw.rs:108-128 | a build over any order and draws holds exactly the entries, well formed, and connected at the base up to 2m+1 of them |
| VectorIndex.ExactNearest | crates/auradb-index/src/lib.rs:419-455 | exact search over a map of vectors: the first k of the full sort of those of the query's dimension, that is the most similar, ties by id, each with its similarity and distance; a vector is left out only when k outrank it |
| VectorIndex.ExactMeaning | crates/auradb-index/src/lib.rs:419-455 | the exact answer told by similarities and ids alone: what is in it, in which order, and why anything is not |
| VectorIndex.BuildFor | crates/auradb-index/src/lib.rs:907-918 | a built graph is well formed and over exactly the field's vectors, for any hash order and layer draws |
| VectorIndex.AskGraph | crates/auradb-index/src/hnsw.rs:324-360 | a built graph's beam answer, equal to the exact answer for at most 2m+1 vectors of the query's dimension under a beam that covers them |
| Values.RoundTrip | crates/auradb-core/src/value.rs:133-231 | decoding an encoded value gives it back exactly when its floats are finite and fit, and no object or list in it mimics a reserved encoding |
| Values.MimicIsMisread | crates/auradb-core/src/value.rs:133-231 | a one-field object named like a reserved encoding comes back as another value |
| Values.SplitOnce | crates/auradb-core/src/record.rs:48-58 | a dotted path splits at its first dot |
| Values.PathFollowsNames | crates/auradb-core/src/record.rs:48-58 | a dotted path finds what following its names through nested objects, one after the other, finds |
| Filters.KeyMismatch | crates/auradb-query/src/eval.rs:72-83 | two equal values have different index keys exactly when an int/float or timestamp/int coercion made them equal, or they are different integers that round to one float |
| Comparisons.OrderMeaning | crates/auradb-query/src/eval.rs:85-100 | two values compare exactly when both are numbers but not NaN, times (an integer counts as one beside a timestamp), texts, booleans or null; which is smaller is told by the reals between the infinities, the integers, the first difference of the texts, and false before true |
| Comparisons.RangeMeaning | crates/auradb-query/src/eval.rs:47-70 | lt, lte, gt and gte hold exactly of comparable values that stand so, and of no other pair |
| Comparisons.NumbersCompareAsReals | crates/auradb-query/src/eval.rs:47-70 | between finite numbers, integers or floats, the four operators and eq are <, <=, >, >= and = of the reals |
| Comparisons.UnderIsOneWay | crates/auradb-query/src/eval.rs:72-100 | a comparable pair is smaller, larger or equal, and only one of the three, so equality and order agree |
| Comparisons.EqualMeaning | crates/auradb-query/src/eval.rs:72-83 | eq is equality of the floats between numbers, of the instants between times, and otherwise equality part by part, a NaN equal to nothing |
| Comparisons.TextOrderIsFirstDifference | crates/auradb-query/src/eval.rs:85-100 | one text is before another exactly when it ends, or has the smaller character, where they first differ |
| Comparisons.ContainsIsOccurrence | crates/auradb-query/src/eval.rs:11-45 | contains holds exactly when the substring stands at some place of the text |
| Indexes.UniqueIsInjective | crates/auradb-index/src/lib.rs:589-606 | no two live records share a unique key |
| Indexes.UniqueInsertMirrors | crates/auradb-index/src/lib.rs:612-618 | inserting a record with a free key keeps a unique map the inverse image of the live records |
| Indexes.UniqueRemoveMirrors | crates/auradb-index/src/lib.rs:648-655 | removing a record keeps it so and frees the key |
| Indexes.PostingInsertMirrors | crates/auradb-index/src/lib.rs:619-632 | inserting keeps every posting list exactly the live records under its key |
| Indexes.PostingRemoveMirrors | crates/auradb-index/src/lib.rs:656-669 | removing keeps them so, empty lists left behind |
| Indexes.TextInsertMirrors | crates/auradb-index/src/lib.rs:638-642 | inserting keeps a text index that of the live texts |
| Indexes.TextRemoveMirrors | crates/auradb-index/src/lib.rs:673-677 | removing keeps it so |
| CollectionIndexes.AdmitsIsExact | crates/auradb-index/src/lib.rs:589-606 | the uniqueness check admits a record exactly when no other live record holds one of its unique keys |
| CollectionIndexes.RunMirrors | crates/auradb-index/src/lib.rs:610-678 | over every run of guarded puts, removals, rebuilds and graph queries, every unique, secondary, document-path, vector and text map is the inverse image of the live records, and every cached graph is one built from the field's current vectors |
| CollectionIndexes.RefillMirrors | crates/auradb-index/src/lib.rs:1081-1103 | refilling cleared indexes from stored records, up to the first clash, leaves all of them mirroring the records admitted |
| CollectionIndexes.RunKeepsUnique | crates/auradb-index/src/lib.rs:589-606 | over every such run no two live records share a unique key |
| CollectionIndexes.MirrorsAgree | crates/auradb-index/src/lib.rs:1081-1103 | any two index states of the same live records agree, posting lists up to order and empty lists, so a run agrees with a rebuild |
| IndexObjects.IndexSet.constructor | crates/auradb-index/src/lib.rs:490-541 | empty maps for the roles a schema gives its fields |
| IndexObjects.IndexSet.CheckUnique | crates/auradb-index/src/lib.rs:589-606 | the loop over unique fields decides admission |
| IndexObjects.IndexSet.Insert | crates/auradb-index/src/lib.rs:610-643 | the new state of every map, no cached graph left, and all of it stands for the live records again |
| IndexObjects.IndexSet.Remove | crates/auradb-index/src/lib.rs:646-678 | the new state of every map, no cached graph left, and all of it stands for the live records again |
| IndexObjects.IndexSet.Upsert | crates/auradb/src/engine.rs:1484-1504 | succeeds exactly when nothing else clashes, and then replaces the record in every map |
| IndexObjects.IndexSet.Rebuild | crates/auradb-index/src/lib.rs:1081-1103 | succeeds exactly when no two records clash, drops every cached graph, and then stands for exactly those records |
| IndexObjects.IndexSet.Nearest | crates/auradb-index/src/lib.rs:846-865 | the exact search, or the missing-index or dimension error |
| IndexObjects.IndexSet.AnnNearest | crates/auradb-index/src/lib.rs:879-919 | errors first; then the answer of a graph over the current vectors, cached for the next query, and equality with the exact answer where the beam covers them |
| IndexObjects.IndexSet.GraphFor | crates/auradb-index/src/lib.rs:907-918 | the cached graph, or a new one put in the cache, built from exactly the current vectors either way |
| Analyzer.SplitAlphanumeric | crates/auradb-index/src/analyzer.rs:233-258 | the one-pass scanner finds the tokens the splitting definition gives, with byte spans in order, apart, each that of the run its token came from |
| Analyzer.FoldText | crates/auradb-index/src/analyzer.rs:281-300 | the folding loop equals folding each character |
| Folding.FoldIsIdempotent | crates/auradb-index/src/analyzer.rs:281-300 | folding twice is folding once |
| Folding.FoldKeepsAscii | crates/auradb-index/src/analyzer.rs:281-300 | ASCII text stays as it is |
| Folding.FoldedFrontVowels | crates/auradb-index/src/analyzer.rs:285-288 | every accented a, e and i of the table folds to its letter |
| Folding.FoldedBackVowels | crates/auradb-index/src/analyzer.rs:290-291 | every accented o and u of the table folds to its letter |
| Folding.FoldedConsonants | crates/auradb-index/src/analyzer.rs:286-289 | every accented c and n of the table folds to its letter |
| Folding.FoldedRest | crates/auradb-index/src/analyzer.rs:292-295 | accented y folds to y, and sharp s and the two ligatures to their two letters |
| Folding.AccentsDoNotMatter | crates/auradb-index/src/analyzer.rs:281-300 | queries whose tokens differ only in accents answer alike |
| Analyzer.WidthIsLeast | crates/auradb-index/src/analyzer.rs:233-258 | the width in a byte span is the least number of UTF-8 bytes that holds the character |
| Analyzer.EnglishTokens | crates/auradb-index/src/analyzer.rs:377-387 | the tokens that are no stopwords, in order, plurals folded, each with the span of the word it came from |
| Plurals.PluralOfY | crates/auradb-index/src/analyzer.rs:340-344 | for lower-case w of two letters or more, w + "ies" and w + "y" have one term |
| Plurals.PluralOfHiss | crates/auradb-index/src/analyzer.rs:345-357 | w + "es" has the term w after s, x, z, ch or sh, and w shares it exactly when w itself does not look like a plural |
| Plurals.PluralOfPlain | crates/auradb-index/src/analyzer.rs:358-371 | w + "s" and w have one term if and only if w does not end in s, u, i or n, in "ie" after two letters, or in e after a hiss |
| Plurals.FoldedExactly | crates/auradb-index/src/analyzer.rs:336-371 | a token is left as it is exactly when it is short, has a character other than a to z, or does not end in an s outside the protected endings |
| Plurals.SomePluralsPart | crates/auradb-index/src/analyzer.rs:331-371 | "bias" folds to "bia" and "biases" to "bias"; "house" and "houses" get different terms |
| Plurals.PluralAnswersAlike | crates/auradb-index/src/analyzer.rs:333-335 | a query in which a word stands in the plural answers as the query with the word itself, over any documents |
| Plurals.WordFindsPlurals | crates/auradb-index/src/analyzer.rs:333-335 | a query for a word finds exactly the documents holding a token with its term, those with a plural of it among them |
| Analyzer.KeywordToken | crates/auradb-index/src/analyzer.rs:260-277 | one lowercased token with the byte span of the trimmed text, and none for whitespace alone |
| Analyzer.KeywordJoinsTokens | crates/auradb-index/src/analyzer.rs:183-194 | where lowercasing goes character by character, the keyword term is the default tokens run together, and there is none without a token |
| Analyzer.Analyze | crates/auradb-index/src/analyzer.rs:157-172 | the analyzed tokens of a per-token preset are its index terms; of keyword, the trimmed whole; every token carries the byte span it came from |
| Analyzer.PerToken | crates/auradb-index/src/analyzer.rs:175-225 | for every per-token preset, a text's index terms are its default tokens mapped one by one |
| Analyzer.MapTokensLength | crates/auradb-index/src/lib.rs:240-245 | an analyzed token stream is never longer than the default one, and as long exactly when no token of it is dropped |
| TextIndex.AddReflects | crates/auradb-index/src/lib.rs:115-129 | adding a new document keeps postings, lengths and total those of the corpus, no posting list empty |
| TextIndex.RemoveReflects | crates/auradb-index/src/lib.rs:132-152 | removing an indexed document keeps them so |
| TextIndex.RemoveUndoesAdd | crates/auradb-index/src/lib.rs:115-152 | removing what was added restores the index |
| TextIndex.LengthIsTfSum | crates/auradb-index/src/lib.rs:86-112 | a document's stored length is the sum of its term frequencies |
| TextIndex.ReflectsDetermines | crates/auradb-index/src/lib.rs:115-152 | the corpus determines the index |
| TextIndex.IndexReflects | crates/auradb-index/src/lib.rs:115-129 | adding any documents one by one gives an index that reflects them |
| TextSearch.SumLengths | crates/auradb-index/src/lib.rs:171-180 | summing the postings gives every document's term-frequency sum |
| TextSearch.RebuiltIsSame | crates/auradb-index/src/lib.rs:171-180 | rebuilding the lengths of a consistent index changes nothing |
| TextSearch.MappedCount | crates/auradb-index/src/lib.rs:302-316 | a mapped token stream counts a term as often as the tokens mapped to it occur |
| TextSearch.ViewIsReindex | crates/auradb-index/src/lib.rs:302-316 | the analyzer view of the default postings holds, for every term and document, the frequency in the re-analyzed document |
| TextSearch.ViewAgrees | crates/auradb-index/src/lib.rs:788-814 | the view equals the postings of the index of the analyzed corpus |
| TextSearch.AnalyzedTexts | crates/auradb-index/src/analyzer.rs:175-225 | for an index over texts, the analyzed corpus is the index terms of every text |
| TextSearch.StatisticsAgree | crates/auradb-index/src/lib.rs:240-245 | the default length statistics are those of the analyzed corpus exactly when no document holds a token the preset drops |
| TextSearch.SearchOver | crates/auradb-index/src/lib.rs:196-226 | exactly the documents holding every term, with summed frequencies, by score then id |
| TextSearch.AnswersUnique | crates/auradb-index/src/lib.rs:196-226 | postings and terms determine the answer, whatever the hash order |
| TextField.TextIndexObject.Add | crates/auradb-index/src/lib.rs:115-129 | the index after adding a document's tokens |
| TextField.TextIndexObject.Remove | crates/auradb-index/src/lib.rs:132-152 | the index after removing a document's tokens |
| TextField.TextIndexObject.RebuildLengths | crates/auradb-index/src/lib.rs:171-180 | lengths and total are those of the postings, and a consistent index is unchanged |
| TextField.TextIndexObject.Restore | crates/auradb-index/src/lib.rs:1046-1061 | loading a snapshot in any order, with or without stored lengths, restores the index |
| TextField.TextIndexObject.AnalyzedView | crates/auradb-index/src/lib.rs:302-316 | the merged view of a per-token preset, and none for a whole-field one |
| TextField.TextIndexObject.Search | crates/auradb-index/src/lib.rs:186-191 | search over the query's distinct default tokens |
| TextField.TextIndexObject.SearchAnalyzed | crates/auradb-index/src/lib.rs:788-814 | answers as the index of the analyzed corpus would, which for an index over texts is the index of their index terms |
| Bm25.Bm25Over | crates/auradb-index/src/lib.rs:246-294 | exactly the documents with every term, or some term, with the sum of their Okapi weights, by score then id; a document no longer than another that holds every query term as often, and some term more often or in less text, comes first; empty for an empty query or corpus |
| OkapiWeights.OftenWeighsMore | crates/auradb-index/src/lib.rs:275-276 | for k1 > 0 and b in [0, 1] more occurrences never weigh less, and weigh strictly more if and only if b < 1 or the document has a length |
| OkapiWeights.WeightIsBounded | crates/auradb-index/src/lib.rs:275-276 | a term that occurs weighs more than nothing and at most its inverse document frequency times k1 + 1, reached if and only if b = 1 and the document has no length |
| OkapiWeights.LongerWeighsLess | crates/auradb-index/src/lib.rs:275-276 | in a longer document a term never weighs more, and strictly less if and only if b > 0 |
| OkapiWeights.RarerWeighsMore | crates/auradb-index/src/lib.rs:269-276 | a term of fewer documents of the same collection weighs strictly more |
| Bm25.OutdoingScoresMore | crates/auradb-index/src/lib.rs:265-285 | a document that outdoes another over a whole query scores strictly higher |
| Bm25.RarerTermAddsMore | crates/auradb-index/src/lib.rs:269-276 | of two terms a document holds equally often, the rarer adds more to its score |
| Bm25.RankedAnswerUnique | crates/auradb-index/src/lib.rs:287-293 | index and terms determine the ranking, whatever the hash order |
| AnalyzedBm25.SearchAnalyzedBm25 | crates/auradb-index/src/lib.rs:788-814 | ranks the postings of the analyzed corpus by default lengths, which are its own exactly when nothing is dropped; answers just as that corpus's index would where every document loses the same share of its tokens, or nothing is left; documents that outdo others come first |
| AnalyzedBm25.AnswersAgreeExactly | crates/auradb-index/src/lib.rs:788-814 | for every query, AND or OR, and all k1 >= 0 and b in [0, 1], the answers are those of the analyzed corpus's own index if and only if no document loses all its tokens and every document loses the same share, or nothing is left at all |
| AnalyzedBm25.StopwordChangesScore | crates/auradb-index/src/lib.rs:240-245 | "the cat" and "dog" under english_basic at the default k1 and b: the first document scores 0.88 of what the analyzed corpus gives it |
| AnalyzedBm25.NothingDroppedIsSameShares | crates/auradb-index/src/lib.rs:240-245 | a preset that drops nothing of a corpus always meets that condition |
| AnalyzedBm25.RatioIsShare | crates/auradb-index/src/lib.rs:261-275 | over a consistent index, a document's length over the average is its share of all tokens times the number of documents, the floor of 1 on the average never applying |
| OkapiWeights.IdfGrows | crates/auradb-index/src/lib.rs:269-271 | the inverse document frequency is positive and grows with the collection, for any increasing logarithm |
| AnalyzedBm25.DefaultLengthIsBound | crates/auradb-index/src/lib.rs:240-245 | where stopwords are dropped the default lengths bound the analyzed ones from above |
| Planner.PlanFind | crates/auradb-query/src/planner.rs:104-123 | the first cheapest of the enumerated access paths, under any estimates |
| Planner.IndexListsMirror | crates/auradb-index/src/lib.rs:682-694 | whichever index serves a field, each list holds exactly the live records posted under its key |
| Planner.LookupIsPosted | crates/auradb-index/src/lib.rs:682-694 | a lookup yields exactly the live records posted under the probe's key, each once |
| Planner.LookupNeedsIndex | crates/auradb-index/src/lib.rs:682-694 | a lookup answers exactly when the field has an equality index |
| Planner.TextHits | crates/auradb-index/src/lib.rs:196-226 | a text seed yields exactly the documents whose field holds every query token |
| Planner.SelectCandidates | crates/auradb-query/src/exec.rs:599-621 | the candidates of an access path, each once |
| Planner.CandidateImplied | crates/auradb-query/src/planner.rs:149-221 | every candidate the filter tree offers is implied by the filter and served by an index |
| Planner.IndexedTermsAreOffered | crates/auradb-query/src/planner.rs:149-221 | every term an index can serve is offered, from within conjunctions too |
| Planner.SeedsAllButMissed | crates/auradb-query/src/planner.rs:149-221 | of the records a filter matches, an access path misses exactly those matched only by coercion or by null |
| Planner.FilterCandidates | crates/auradb-query/src/exec.rs:682-698 | the residual filter keeps exactly the matching candidates; what matching means is told by Comparisons.RangeMeaning and Planner.ConnectivesAreSets |
| Planner.RunFind | crates/auradb-query/src/exec.rs:646-698 | whatever the statistics, the result has no wrong and no repeated record, and equals the full scan exactly when the chosen path misses no coerced match; for a range filter it is exactly the records whose value stands in that relation to the bound |
| Planner.RangesAreScanned | crates/auradb-query/src/planner.rs:149-221 | no index serves a range filter, and its scan finds exactly the records in range |
| Planner.ConnectivesAreSets | crates/auradb-query/src/eval.rs:12-14 | and, or and not match the intersection, the union and the complement of what their parts match |
| Planner.InIsUnion | crates/auradb-query/src/eval.rs:52-55 | in matches the union of its equalities |
| Planner.ExistsIsNotNull | crates/auradb-query/src/eval.rs:15-18 | exists finds exactly the records that have the field and do not hold null there |
| Planner.ContainsFindsText | crates/auradb-query/src/eval.rs:19-23 | contains finds exactly the records whose text has the substring at some place |
| Planner.ComparisonsNeedTheField | crates/auradb-query/src/eval.rs:11-70 | a record without the field passes no comparison, and one with it passes exactly one of eq and ne |
| Planner.PlainProbesAreExact | crates/auradb-query/src/eval.rs:72-83 | probes that are not null, numbers or timestamps miss nothing in any store |
| Planner.CoercedProbeIsMissed | crates/auradb-query/src/eval.rs:119-129 | an index over one stored 42 that mirrors it: the planner offers the index for a probe of 42.0, the lookup yields nothing, and the scan finds the record |
| Facets.ScanGroups | crates/auradb-query/src/aggregate.rs:448-462 | the scan loop tallies every bucket key, and fails exactly when a matched record holds a non-scalar |
| Facets.FacetPostings | crates/auradb-index/src/lib.rs:704-724 | one entry per non-empty posting list: a representative and the list's length |
| Facets.IndexGroups | crates/auradb-query/src/aggregate.rs:426-447 | the index loop weighs every bucket key by its lists, and fails exactly when a representative holds a non-scalar |
| Facets.ScanIsGroups | crates/auradb-query/src/aggregate.rs:448-462 | over all live records, a tally is the number of holders of each value |
| Facets.PathsAgreeExactly | crates/auradb-query/src/aggregate.rs:413-475 | index and scan give the same groups, errors included, exactly when records posted together share a bucket, or, if some value is not a scalar, when some list starts with one |
| Facets.MixedListIsMiscounted | crates/auradb-query/src/aggregate.rs:144-162 | NaN and infinity posted in one list: the index counts both under one bucket and the scan under two |
| Facets.PlainIsSeparated | crates/auradb-query/src/aggregate.rs:144-162 | missing, null and finite scalar values are never posted together unless equal |
| BucketOrder.BucketsAreOrdered | crates/auradb-query/src/aggregate.rs:164-176 | on a set of scalar buckets the comparator is a total order without ties if and only if values of equal count are pairwise apart and no timestamp or NaN among them closes a circle |
| BucketOrder.OneKindSorts | crates/auradb-query/src/aggregate.rs:164-176 | booleans, texts, timestamps or numbers with different floats, each kind alone, are sortable |
| BucketOrder.ComparatorCanCycle | crates/auradb-query/src/aggregate.rs:164-176 | an integer, a text and a timestamp of equal count can compare in a circle |
| BucketOrder.RankedIsUnique | crates/auradb-query/src/aggregate.rs:164-176 | on sortable values the truncated ranking is unique, so hash order does not show |
| BucketOrder.RankBuckets | crates/auradb-query/src/aggregate.rs:464-469 | the first buckets up to the limit; on sortable values counts never rise, equal counts go by ascending value, and what was cut off would have come after everything kept |
| BucketOrder.RankedReads | crates/auradb-query/src/aggregate.rs:164-176 | what the ranking shows without its comparator: larger counts first, under one count the smaller number, time or text, and values that do not compare by type name; every bucket cut off would come later than each one kept |
| BucketOrder.SomeTellCounts | crates/auradb-query/src/aggregate.rs:464-475 | every bucket returned counts the records that hold its value, no value comes twice, and below the limit no scalar a record holds is missing |
| Aggregates.ComputeFacet | crates/auradb-query/src/aggregate.rs:413-475 | where the index and the scan agree, and always by scan: buckets in bucket order, each with the number of matched records that hold its value, and an error exactly when one holds something that is neither null nor a scalar |
| Facets.TallyCountsPlaces | crates/auradb-query/src/aggregate.rs:448-462 | the tally of a key is the number of matched records that hold its value |
| GroupBy.ComputeMetric | crates/auradb-query/src/aggregate.rs:361-411 | count, the average of the numbers, or the running best over non-null values |
| Averages.ComputeAverage | crates/auradb-query/src/aggregate.rs:364-382 | the loop skips what is no number and divides the total, NaN and infinities included, by the count, or gives null |
| Averages.AverageIsBetween | crates/auradb-query/src/aggregate.rs:364-382 | the average of finite numbers lies between any bounds of them |
| Averages.NumbersAreHeld | crates/auradb-query/src/aggregate.rs:364-382 | every record that holds an integer or a float counts once, with that number, and no other record counts |
| GroupBy.TotalsAddUp | crates/auradb-query/src/aggregate.rs:285-306 | in whatever order groups come, their totals and counts add up to those of the keyed records, which fixes the overall average |
| GroupBy.ExtremeIsExtreme | crates/auradb-query/src/aggregate.rs:383-403 | over values of one orderable kind the running best is a least, or greatest, value |
| GroupBy.ExtremeMeaning | crates/auradb-query/src/aggregate.rs:383-403 | over values of one orderable kind the minimum is a value that no value is below, and the maximum one that is below no value |
| GroupBy.GroupRecords | crates/auradb-query/src/aggregate.rs:285-306 | each group holds exactly its records in order, and a non-scalar key is an error |
| GroupBy.GroupsPartition | crates/auradb-query/src/aggregate.rs:285-306 | group sizes add up to the keyed records, and every record sits in its own group alone |
| GroupBy.GroupExtremes | crates/auradb-query/src/aggregate.rs:361-411 | the extreme over the keyed records is the extreme of the groups' extremes |
| GroupBy.ComputeGroups | crates/auradb-query/src/aggregate.rs:285-349 | groups in bucket order, each with the number of matched records that hold its value and one metric after another over just those records, and the number of all groups |
| CursorToken.EncodeToken | crates/auradb-query/src/cursor.rs:96-109 | the hex of the 37-byte layout |
| CursorToken.DecodeToken | crates/auradb-query/src/cursor.rs:111-139 | the state a token spells, or which error it is |
| CursorToken.TokenRoundTrip | crates/auradb-query/src/cursor.rs:96-139 | decoding inverts encoding, and tokens have 74 characters |
| CursorToken.AcceptedIsEncoded | crates/auradb-query/src/cursor.rs:111-139 | every accepted token is the encoding of its state up to letter case |
| CursorPaging.EvaluationIsRanked | crates/auradb-query/src/exec.rs:700-723 | the executor's sort and cut give the strict order paging relies on; the cut keeps as many as the limit, and what it drops ranks after everything kept |
| CursorPaging.UnscoredGoById | crates/auradb-query/src/exec.rs:700-723 | scored rows come first, and rows without a score go by id |
| CursorPaging.FirstAfter | crates/auradb-query/src/cursor.rs:195-199 | the first row strictly after the key, none before it being so |
| CursorPaging.PaginateRanked | crates/auradb-query/src/cursor.rs:160-221 | the page, next token and start rank, or the error |
| CursorPaging.ReturnedAreRanked | crates/auradb-query/src/cursor.rs:160-221 | whatever rows do between calls, each returned row ranks strictly after all before it |
| CursorPaging.NoRowTwice | crates/auradb-query/src/cursor.rs:22-30 | a row whose own score never changes is not returned twice, whatever happens to other rows |
| CursorPaging.PresentRowsComeOnce | crates/auradb-query/src/cursor.rs:22-30 | a finished run returns every row present in all evaluations with one score exactly once |
| CursorPaging.RanksCountRows | crates/auradb-query/src/cursor.rs:205-220 | every page reports the number of rows before it as its start rank |
| CursorPaging.FixedDataPages | crates/auradb-query/src/cursor.rs:160-221 | over fixed data, for any page sizes, the pages so far are a prefix of the ranked list, and a run is finished exactly when they are the whole of it |
| CursorPaging.RunsMakeProgress | crates/auradb-query/src/cursor.rs:203-215 | every call that leaves a token returned at least one row |
| Relevance.DcgAtK | crates/auradb-query/src/relevance.rs:62-75 | the discounted gain of the first k grades |
| Relevance.Rearranged | crates/auradb-query/src/relevance.rs:77-94 | no order of no selection of the grades gains more than the descending order |
| Relevance.DcgIsBounded | crates/auradb-query/src/relevance.rs:77-94 | no ranking without repeats in its top k gains more than the ideal |
| Relevance.BetterFirstGainsMore | crates/auradb-query/src/relevance.rs:62-75 | exchanging a document for a better graded one further down strictly raises the gain wherever the discount rises in between |
| Relevance.GradesMoreThanDouble | crates/auradb-query/src/relevance.rs:62-75 | every grade is worth one more than twice the grade below it, and grade zero nothing |
| Relevance.NdcgAtK | crates/auradb-query/src/relevance.rs:81-94 | gain over ideal gain, within [0, 1] for every ranking without repeats in its top k and every judgment map |
| Relevance.IdealIsUnique | crates/auradb-query/src/relevance.rs:83-84 | only one ideal sequence of grades exists, so hash order does not show |
| Relevance.IdealRankingScoresOne | crates/auradb-query/src/relevance.rs:77-94 | listing the positively judged documents first, best first, scores 1 |
| Relevance.DuplicatesScoreAboveOne | crates/auradb-query/src/relevance.rs:77-94 | for every ranking that repeats a document in its top k there are judgments under which it scores above 1 |
| Relevance.BoundedExactly | crates/auradb-query/src/relevance.rs:77-94 | a ranking scores at most 1 under all judgments if and only if its top k has no repeats |
| SchemaOrder.Pass | crates/auradb-cli/src/lib.rs:1301-1315 | one pass: what it places comes after its targets, what it keeps keeps its order, and without progress nothing was ready |
| SchemaOrder.OrderSchemas | crates/auradb-cli/src/lib.rs:1290-1327 | terminates with a permutation: targets before referrers, then what cycles hold back in original order, with a cycle running among the held-back names; nothing is held back exactly when there is no cycle |
| SchemaOrder.StuckHasCycle | crates/auradb-cli/src/lib.rs:1320-1324 | schemas that all wait for one another contain a real dependency cycle through their own names |
| SchemaOrder.SettledHasNoCycle | crates/auradb-cli/src/lib.rs:1285-1290 | an order in which every target comes first leaves no cycle |
| Clock.TickIsNew | crates/auradb-core/src/clock.rs:22-47 | in every interleaving, a tick returns more than everything ticked or observed before it if and only if the largest 64-bit word was neither ticked nor observed before it |
| Clock.ClockIsMonotone | crates/auradb-core/src/clock.rs:22-47 | over a whole run, all ticks increase and pass every observed value exactly when no tick follows the largest word |
| Clock.TicksIncrease | crates/auradb-core/src/clock.rs:22-25 | in every interleaving, ticks are strictly increasing while the largest word is unspent |
| Clock.ObservedIsPassed | crates/auradb-core/src/clock.rs:33-47 | once observe(x) has returned, every tick returns more than x while the largest word is unspent |
| Clock.ObserveAlone | crates/auradb-core/src/clock.rs:33-47 | an uninterrupted observe makes one attempt and leaves the clock past the value, and otherwise where it was |
| Clock.ObserveIsBounded | crates/auradb-core/src/clock.rs:34-46 | while the largest word is unspent, observe returns within one attempt for each value from its first load to the observed one |
| Clock.FailureRaisesCurrent | crates/auradb-core/src/clock.rs:36-46 | while the largest word is unspent, a failed exchange leaves the thread with a strictly larger value |
| Clock.WordsRunOut | crates/auradb-core/src/clock.rs:22-25 | at the top of the 64-bit word a tick wraps to 0 |
| Opcodes.OpcodeRoundTrip | crates/auradb-protocol/src/opcode.rs:73-115 | decoding an opcode byte inverts encoding it |
| Opcodes.FromByte | crates/auradb-protocol/src/opcode.rs:75-108 | an accepted byte is the byte of the opcode it decodes to |
| Frames.EncodeFrame | crates/auradb-protocol/src/frame.rs:130-156 | the layout, of the announced length |
| Frames.TrailerIsLowestBit | crates/auradb-protocol/src/frame.rs:125-127 | a payload checksum follows exactly when the lowest flag bit is set |
| Frames.FrameRoundTrip | crates/auradb-protocol/src/frame.rs:130-231 | decoding an encoded frame followed by any bytes gives that frame and its length |
| Frames.PrefixNeedsMore | crates/auradb-protocol/src/frame.rs:163-208 | every strict prefix of a frame asks for more |
| Frames.AnswersAreStable | crates/auradb-protocol/src/frame.rs:163-231 | appended bytes never change a success or an error |
| Frames.AcceptedIsEncoded | crates/auradb-protocol/src/frame.rs:163-231 | accepted bytes are exactly the re-encoding of a valid frame if and only if the reserved byte is zero |
| Frames.StreamRoundTrip | crates/auradb-protocol/src/frame.rs:130-231 | concatenated encodings decode to the same frames |
| Frames.ArrivalDoesNotMatter | crates/auradb-protocol/src/frame.rs:158-231 | decoding what has arrived and resuming gives what decoding everything at once gives |

## Left out

- Raft snapshot installation, log compaction, metrics and the durable file storage: only the in-memory log is modelled.
- Membership change, leadership transfer, and liveness of Raft over whole runs: log repair, timeouts and elections are proved to make progress when their messages arrive, and no fairness of the network is assumed.
- Durability of Raft writes: every handler is one atomic step, so a crash between a storage write and the step's end is not modelled.
- MVCC storage, transactions, the server, TLS and authentication, and the CLI commands other than the dump order.
- Replicated schema commands, snapshots shipped to followers and the clock behind a writer's timeout: a waiting writer may give up at any time, and a batch is one opaque command.
- Replication.EnginesArePrefixes: any number of writers may wait on a node at once, where the engine's lock admits one; an apply error, which the driver counts and skips, is not modelled.
- Engine batches: the model's puts are one record at a time, so the check among records of one batch is not modelled.
- Floating point: similarities, scores and weights are exact reals or bit patterns with an order; rounding and signed zero are not modelled, and integers become floats through an uninterpreted function.
- Fixed-width overflow: counts, lengths and term numbers are unbounded; the clock, the cursor rank and frame lengths wrap explicitly.
- Bm25.Bm25Over: the logarithm is any function, increasing where a lemma needs it; a zero denominator, which an index with positive frequencies never gives for k1 >= 0 and b in [0, 1], weighs nothing where floats give an infinity or NaN.
- HnswSearch.SearchLayer: the two heaps are sets with nondeterministic tie-breaking, so which of two equally distant nodes is met first is left open; similarities are comparable and layer draws arbitrary.
- IndexObjects.IndexSet.Insert: asks that the record is new and clashes with none, as every caller checks first.
- IndexObjects.IndexSet.Remove: asks for the stored record itself, as every caller passes it.
- IndexObjects.IndexSet.AnnNearest: the graph seed becomes a sequence of layer draws; cache eviction and snapshots of graph metadata are left out.
- Snapshots of indexes other than the text index, fingerprints and the consistency check.
- Cost estimates: any cost function over the enumerated paths; EXPLAIN output and deadlines.
- Ranked, vector and hybrid clauses inside find, ordering by fields, includes and projection.
- CursorPaging.PaginateRanked: the evaluated rows are an input, and the query fingerprint is a number.
- Averages.ComputeAverage: sums are exact reals with the floats' infinities and NaN, so rounding of a running sum is not modelled.
- Facets.ScanGroups: bucket keys are tagged values instead of their text, and zero and negative zero are one float.
- Aggregates.ComputeFacet: states the scan's answer only for fields on which the paths agree, as they do not always.
- BucketOrder.RankBuckets: a sorted result is promised on sortable values only, since the comparator orders no others.
- Relevance.NdcgAtK: exact reals, with the logarithm any positive non-decreasing discount; reciprocal rank and recall would only add easy members.
- Frames.EncodeFrame: the CRC is an uninterpreted function, and payload JSON is not modelled.
- Snippets, statistics, highlighting, migrations, metrics registries and benchmarks.
