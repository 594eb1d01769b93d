# Verified model of a replicated object and its network policies

The replicated object of this repository is a hash graph of operations. Its state is meant to be the replay
of the whole graph in a deterministic order. To avoid replaying from the root, a replica keeps checkpoints,
snapshots and a live state. This project models that machinery and proves that the caches agree with the
simple replay, that replicas converge, and where both stop being true. It also models the channel and message
queue, the relay reservation policy, the recovery scheduler, and three parsers and algorithms.

The project is checked with `dafny verify dfyconfig.toml` (Dafny 4.11).

## How it is built

- `HashGraphs`, `Children`, `GraphStore`: vertices, causal order, the mutable graph.
- `TopologicalSort`, `CausalBarrier`: the depth-first sort, and how it splits at a causal barrier.
- `PairLinearizer`, `BarrierLinearizer`, `Linearization`, `LinearizeMethods`: conflict resolution and its loops.
- `LinearOrder`, `Overtaking`, `Resolvers`, `Verdicts`: which orders conflict resolution gives, what becomes of its
  verdicts, and the repository's resolvers.
- `Replay`, `BarrierTest`, `ReplaySearch`: replaying operations and the test that admits a checkpoint.
- `ReplicaSpec`, `ReplicaCache`, `CacheSteps`, `Applier`: the caches, what keeps them right, and the replica class.
- `MergeSpec`, `MergeReasons`: merging batches, why a vertex is added, missing or invalid, and the memory of invalid
  hashes.
- `Convergence`, `Sync`, `ReplicaSync`: redelivery and the SYNC exchange, first on graphs and then on whole replicas.
- `Limits`, `SwapLimits`, `StaleState`: inputs on which a property fails once its condition is dropped.
- `Channels`, `ChannelCalls`, `MessageQueue`, `ControlPlane`: state machines, proved over every run.
- `RelayPolicy`, `RelayGroups`, `RelayRuns`, `RelayCap`, `RelayPlays`, `RelayReports`, `RelayOverflow`: the
  reservation policy, the table of operator groups it amounts to, the exact limits under which a group can outgrow its
  cap, and what acquisitions report, without and with overflow.
- `Reconciliation`, `HopDecoder`, `Addresses`, `AddressRanges`: record reconciliation, protobuf decoding, IPv6 text,
  scopes and their intervals.

The replay results hold for replicas that are *exact*: on the vertices of the graph the resolver's swaps are calm
(a vertex that a swap moves to the front leaves the one it changed places with alone, and asks for no further
swap), application code keeps the property names of its state, every dependency list is a duplicate-free antichain,
and every operation is addressed to the DRP or the ACL. The add/multiply register with the access control list,
the repository's one object that swaps, is calm (`RegisterSettles`). Vertices minted by a replica always satisfy
the last two; validation does not enforce them. `Limits`, `SwapLimits`, `AssignExact`, `UntypedStepsDiffer` and
`StaleState` show what fails without each condition. Class invariants are stated so that they hold on every replica
and say something about states on exact ones.

Where documentation and code differ the code is followed. The comment on the checkpoint test says that every suffix
member must descend from every checkpoint head; the proofs show that this is enough only with the conditions above.

## Model

| member | source | states |
|---|---|---|
| `GraphStore.HashGraph.constructor` | packages/object/src/hashgraph/index.ts:140-152 | a new graph is well formed and holds the root vertex alone |
| `GraphStore.HashGraph.AddVertex` | packages/object/src/hashgraph/index.ts:237-266 | adding a vertex whose dependencies are present keeps the graph closed and acyclic, the frontier exactly the vertices nobody depends on, the insertion order topological, and the forward edges the inverse of the dependencies, link by link |
| `GraphStore.AddEdges` | packages/object/src/hashgraph/index.ts:241-246 | pushing the new vertex onto the list of each dependency makes the forward edges the inverse of the dependencies again |
| `GraphStore.FrontierNonEmpty` | packages/object/src/hashgraph/index.ts:606-609 | the frontier is a non-empty antichain and its past is the whole graph |
| `TopologicalSort.SortIsTopological` | packages/object/src/hashgraph/index.ts:274-330 | on an acyclic graph with reduced dependency lists the order returned is a topological order of exactly the sub-graph, each vertex once, origin first, and stopping when the array is full loses nothing |
| `TopologicalSort.DfsCompose` | packages/object/src/hashgraph/index.ts:306-325 | work on top of the stack is finished before the rest is touched: a run on two stacked parts is the two runs one after the other |
| `TopologicalSort.SortFills` | packages/object/src/hashgraph/index.ts:274-330 | on every rooted sub-graph, reduced or not, the full run writes at least as many entries as there are vertices, so the array is always filled |
| `LinearizeMethods.TopologicalSortIterative` | packages/object/src/hashgraph/index.ts:274-330 | the loop with its reachability check, explicit stack, processing set and back-filled array returns the specified order; it throws exactly when a member of the sub-graph is not reachable from the origin, and never for a cycle |
| `CausalBarrier.BarrierSort` | packages/object/src/hashgraph/index.ts:274-330 | across a causal barrier the sort of the whole is the sort of the prefix followed by the sort of the suffix started at any one head of the prefix |
| `Limits.RedundantSort` | packages/object/src/hashgraph/index.ts:306-329 | without reduced dependency lists the sort fails: for any three hashes c < b < a, one redundant dependency makes it lose c and return b twice, once before its own dependency |
| `PairLinearizer.MatrixIsCausal` | packages/object/src/linearize/legacyCausality.ts:20-40 | the predecessor matrix of a topological order is its causal order, up to the self bits |
| `PairLinearizer.SelfBit` | packages/object/src/linearize/legacyCausality.ts:25-39 | a vertex has its own bit set in the matrix if and only if something in the order depends on it |
| `LinearizeMethods.BuildMatrix` | packages/object/src/linearize/legacyCausality.ts:20-40 | the loops build the specified matrix, also for an order that names a vertex twice, whose earlier positions leave only own bits behind |
| `LinearizeMethods.CompareAnchor` | packages/object/src/linearize/pairSemantics.ts:40-66 | the comparison loop of one anchor, with its restarts after a swap, does what the specified scan does; which vertices that drops and keeps is stated by the rows of Verdicts and LinearOrder |
| `LinearizeMethods.ScanAnchors` | packages/object/src/linearize/pairSemantics.ts:36-72 | the loop over the anchors returns the survivors of the specified scan |
| `LinearizeMethods.LinearizeVertices` | packages/object/src/linearize/pairSemantics.ts:15-74 | sort, matrix and scan return the specified replay order, which the rows of LinearOrder and Verdicts describe; None when the sort throws or a comparison does not return |
| `LinearOrder.ReplayOrderCausal` | packages/object/src/linearize/pairSemantics.ts:36-72 | when swaps only bring a vertex in front of one it may pass (everything below it is below the other, everything above the other is above it), the replay order is causal, names no vertex twice, and misses only the origin and vertices that a resolver drops against an unrelated one |
| `LinearOrder.LinearizeCausal` | packages/object/src/linearize/pairSemantics.ts:15-74 | the same from the sub-graph to the replay order |
| `LinearOrder.ReplayOrderKept` | packages/object/src/linearize/pairSemantics.ts:36-72 | without swaps the replay order is the topological order with some vertices left out, each because a resolver drops it against an unrelated one; which ones exactly is ReplayOrderSwept |
| `Verdicts.ReplayOrderSwept` | packages/object/src/linearize/pairSemantics.ts:36-72 | without swaps the nested loops with matrix, marks and early exits leave exactly what taking every pair of the topological order once, in order, leaves, where a pair counts when both are still there and unrelated |
| `Verdicts.ReplayOrderNoConflict` | packages/object/src/linearize/pairSemantics.ts:49-63 | without swaps, of two unrelated vertices that are both replayed the resolver asked to drop neither |
| `Verdicts.LinearizeNoConflict` | packages/object/src/linearize/pairSemantics.ts:15-74 | the same from the sub-graph to the replay order |
| `Verdicts.ReplayOrderObeys` | packages/object/src/linearize/pairSemantics.ts:36-72 | whatever the resolvers: of two unrelated vertices that no resolver swaps and that are both replayed neither was to be dropped, and a missing vertex was dropped by a verdict, against an unrelated vertex when neither is ever swapped |
| `Overtaking.SwapStaysCausal` | packages/object/src/linearize/pairSemantics.ts:49-63 | for a resolver that swaps one unrelated pair and is idle otherwise, the replay order is causal for every topological order if and only if the second may pass the first |
| `SwapLimits.DependentFirst` | packages/object/src/linearize/pairSemantics.ts:49-63 | for every policy that swaps a vertex with the dependent of another one beside it, that dependent is replayed before its dependency |
| `SwapLimits.RegisterOvertakes` | packages/blueprints/src/AddMul/index.ts:58-73 | the add/multiply register does so on two multiplications and an addition after the second, although its swaps are calm |
| `Linearization.ScanDecides` | packages/object/src/linearize/pairSemantics.ts:20-31 | skipping the scan when no vertex has a custom resolver changes nothing |
| `Linearization.LinearizeReturns` | packages/object/src/linearize/pairSemantics.ts:36-72 | with resolvers whose swaps are calm on the graph every comparison returns, within one swap |
| `Resolvers.RegisterSettles` | packages/blueprints/src/AddMul/index.ts:58-73 | the add/multiply register with the access control list is calm on every graph whose ACL operations are grant, revoke and setKey |
| `Verdicts.ACLReplay` | packages/object/src/acl/index.ts:214-233 | with the access control list and the add/multiply register, under either rule: a grant or revoke of the losing kind is not replayed when an unrelated one of the winning kind is about the same peer, only operations of the losing kind are ever missing, and such a rival is the only reason when no operation on the object has a peer as its first argument |
| `Verdicts.ACLVerdict` | packages/object/src/acl/index.ts:214-233 | an operation of the list is dropped only when it is of the losing kind, by one on the same peer; against the winning kind on the same peer it is dropped from either side |
| `BarrierLinearizer.OuterSim` | packages/object/src/linearize/pairSemantics.ts:36-72 | scanning a stretch of an order that is causally cut off from the rest does the same as scanning that stretch alone |
| `Linearization.BarrierLinearize` | packages/object/src/linearize/pairSemantics.ts:15-74 | across a causal barrier the replay order of the whole, after conflict resolution, is the replay order of the prefix followed by that of the suffix started at any one head |
| `SwapLimits.RestlessBarrier` | packages/object/src/linearize/pairSemantics.ts:49-63 | for every policy that swaps the first of three concurrent vertices with the third and drops the third in front of the first, and every reduced graph with something above a barrier around the three: the prefix alone is linearized without the third, the whole starts with it |
| `SwapLimits.CrownOne` | packages/object/src/linearize/legacyCausality.ts:32-34 | one vertex that depends on all three makes such a graph |
| `Replay.SplitIsInterleaved` | packages/object/src/drp-applier.ts:671-688 | folding the DRP and the ACL operations separately is folding them interleaved, errors included |
| `Replay.ReplayedIsTraced` | packages/object/src/drp-applier.ts:660-669 | a replay ends in a state if and only if a sequence of states leads there in which each vertex calls its operation for its own peer, on the DRP or on the ACL, and leaves the other object alone |
| `Replay.BarrierReplay` | packages/object/src/drp-applier.ts:410-427 | replaying a prefix and then the suffix above a causal barrier is replaying the whole |
| `Replay.TopReplay` | packages/object/src/drp-applier.ts:369-408 | a vertex above everything else is replayed last, as one step |
| `BarrierTest.BarrierTestSound` | packages/object/src/drp-applier.ts:429-486 | when both tests accept, the collected set without the origin is exactly past(dependencies) minus past(frontier), and each of its members descends from every vertex of the baked prefix |
| `BarrierTest.BarrierTestExact` | packages/object/src/drp-applier.ts:429-486 | on reduced graphs the tests accept exactly when that barrier exists |
| `BarrierTest.RootAlwaysAccepted` | packages/object/src/drp-applier.ts:415-426 | the root checkpoint passes both tests for any dependencies in the graph |
| `BarrierTest.CheckpointReplay` | packages/object/src/drp-applier.ts:410-427 | checkpointed replay refines replay from the root: an accepted checkpoint state followed by its linearized suffix is the replay of the whole past of the dependencies |
| `ReplaySearch.DependenciesCover` | packages/object/src/drp-applier.ts:429-447 | the worklist loops decide whether every dependency is at or above every boundary hash, the equal-sets shortcut included |
| `ReplaySearch.CollectSuffixSubgraph` | packages/object/src/drp-applier.ts:457-486 | the two searches return the origin with exactly the vertices collected behind the boundary, or nothing exactly when one of them is not reachable forward from some head |
| `ReplaySearch.CollectBackward` | packages/object/src/drp-applier.ts:459-469 | the backward search visits exactly the vertices reached without passing the boundary |
| `ReplaySearch.ReachForward` | packages/object/src/drp-applier.ts:472-483 | the forward search reaches exactly what a path inside the suffix and the boundary reaches |
| `ReplicaSpec.NewReplay` | packages/object/src/drp-applier.ts:586-602 | the snapshot of a new vertex is its own step on the replay of its dependencies, and that is the replay of its past |
| `ReplicaSpec.LocalReplay` | packages/object/src/drp-applier.ts:369-388 | a vertex on the whole frontier extends the replay of the whole graph by its own step |
| `ReplicaSpec.FrontierReplay` | packages/object/src/drp-applier.ts:265-276 | replaying the past of the frontier is replaying the whole graph |
| `ReplicaSpec.PastReplayKept` | packages/object/src/drp-applier.ts:604-608 | adding a vertex does not change the replay of any past already there |
| `ReplicaSpec.AssignExact` | packages/object/src/drp-applier.ts:576-584 | copying properties onto a live object leaves exactly the new state if and only if no property disappeared |
| `ReplicaSpec.TypedStep` | packages/object/src/drp-applier.ts:531-568 | applying an operation and replaying it agree when it is addressed to the DRP or the ACL |
| `ReplicaSpec.UntypedStepsDiffer` | packages/object/src/drp-applier.ts:671-688 | and differ for some application on every other operation: applied to the DRP, replayed on the ACL |
| `ReplicaCache.CacheKept` | packages/object/src/drp-applier.ts:604-608 | adding a vertex keeps every snapshot and every checkpoint right |
| `ReplicaCache.KeepShape` | packages/object/src/drp-applier.ts:488-505 | pushing a checkpoint and evicting at index 1 keeps the root checkpoint first, at most 32 entries and strictly increasing vertex counts |
| `CacheSteps.CacheAdd` | packages/object/src/drp-applier.ts:586-608 | storing the snapshot of a new vertex keeps all caches right |
| `CacheSteps.CacheAdvanced` | packages/object/src/drp-applier.ts:488-516 | baking the live state into a checkpoint and pruning snapshots keeps all caches right and leaves no further checkpoint due |
| `CacheSteps.CachePrune` | packages/object/src/state.ts:147-154 | forgetting snapshots leaves the others right |
| `CacheSteps.CacheRecomputed` | packages/object/src/drp-applier.ts:265-275 | after a completed recomputation the live state is the replay of the whole graph |
| `CacheSteps.CacheLocal` | packages/object/src/drp-applier.ts:576-608 | everything a local call stores is right if the live state was |
| `CacheSteps.MintedFresh` | packages/object/src/drp-applier.ts:291-302 | with collision-free hashes a vertex minted on the whole frontier is not in the graph yet |
| `CacheSteps.LocalClean` | packages/object/src/hashgraph/index.ts:224-230 | minting on the whole frontier keeps every dependency list a duplicate-free antichain |
| `StaleState.LocalSnapshotExact` | packages/object/src/drp-applier.ts:369-388 | the snapshot of a local vertex is right if and only if its step on the live state is its step on the replay of the whole graph |
| `StaleState.BatchThrows` | packages/object/src/drp-applier.ts:192-219 | in a batch of an entry and an operation that throws, the first executes and the second throws at its turn |
| `StaleState.StaleCall` | packages/object/src/drp-applier.ts:185-388 | a new replica merges that batch, which aborts with the entry in the graph and the live state behind it, and then takes a local call: the call is stored, and its snapshot is not the replay of its past |
| `Applier.ApplyVertices` | packages/object/src/drp-applier.ts:667-669 | the vertices are applied in turn, stopping at the first error |
| `Applier.SplitOperation` | packages/object/src/drp-applier.ts:671-688 | the loop separates the DRP operations from all others, in order |
| `Applier.DRPVertexApplier.constructor` | packages/object/src/drp-applier.ts:101-116 | a new replica is valid and live, with the root checkpoint and the root snapshots |
| `Applier.DRPVertexApplier.GetReplay` | packages/object/src/drp-applier.ts:410-427 | the checkpoint returned passes both tests and no newer one does, one is always found, and on exact replicas its state followed by the linearized suffix is the replay of the whole past of the dependencies |
| `Applier.DRPVertexApplier.ReplayPast` | packages/object/src/drp-applier.ts:345-408 | both objects after everything in the past of the dependencies, or the error |
| `Applier.DRPVertexApplier.StateBefore` | packages/object/src/drp-applier.ts:315-343 | the single-dependency snapshot and the replay give the same state: the replay of the past of the dependencies |
| `Applier.DRPVertexApplier.CollectRetained` | packages/object/src/drp-applier.ts:507-516 | the hashes kept are exactly the root, the heads of all checkpoints and everything inserted after the newest checkpoint |
| `Applier.DRPVertexApplier.AdvanceCheckpointIfNeeded` | packages/object/src/drp-applier.ts:488-505 | a checkpoint is baked exactly when enough vertices were added, of the live state, at the frontier, entered at its smallest head; exactly the snapshots of the root, of checkpoint heads and of later vertices are kept; the replica stays valid and live and nothing is due afterwards |
| `Applier.DRPVertexApplier.ApplyRemote` | packages/object/src/drp-applier.ts:127-136 | a received vertex fails validation, throws or is added; on exact replicas a valid vertex is added if and only if its own past lets it execute; the replica stays valid and nothing changes unless it is added |
| `Applier.DRPVertexApplier.RememberInvalid` | packages/object/src/drp-applier.ts:282-289 | a hash that is not remembered goes to the end, and the oldest goes out of more than 10,000; one that is remembered changes nothing |
| `Applier.DRPVertexApplier.DeliverBatch` | packages/object/src/drp-applier.ts:192-234 | the delivery loop does to graph, memory and lists what the specified fold does up to the turn at which it stops; on exact replicas that is the first turn of a vertex that validates and does not execute, or the end |
| `Applier.DRPVertexApplier.PropagateInvalid` | packages/object/src/drp-applier.ts:236-263 | the propagation loop reaches the specified lists and memory |
| `Applier.DRPVertexApplier.Recompute` | packages/object/src/drp-applier.ts:265-275 | the live objects become the replay of the whole graph; it fails exactly when that replay throws |
| `Applier.DRPVertexApplier.MergeVertices` | packages/object/src/drp-applier.ts:185-280 | a completed merge leaves the graph, the insertion order, the memory and the reported lists of the specified merge, which the rows of MergeSpec and MergeReasons describe, and a live state that is the replay of the whole graph; on exact replicas it completes if and only if no vertex that validates at its turn fails to execute and the resulting graph can be replayed; an aborted merge keeps the replica valid, keeps exactly what was delivered, and adds no checkpoint |
| `Applier.DRPVertexApplier.CallFn` | packages/object/src/drp-applier.ts:118-130 | a local call is rejected, throws, writes nothing or stores the step of the live state as live state and snapshot; on a live replica it stays valid and live, and the caches stop being trusted only when a stale live state was stored, by the call or by a checkpoint that was due |
| `Applier.ReplicasAgree` | packages/object/src/drp-applier.ts:265-280 | replicas with the same vertices have the same state, whatever they cached on the way |
| `MergeSpec.CheckedDependencies` | packages/validation/src/vertex.ts:24-43 | dependencies pass if and only if all are present and none is more than a minute ahead; a missing one is what the dependency error means |
| `MergeSpec.MergeRests` | packages/object/src/drp-applier.ts:236-263 | the propagation is at its fixpoint within the iteration bound: no missing vertex has unresolved dependencies that are all known to be invalid, whatever was evicted |
| `MergeSpec.MergePartitions` | packages/object/src/drp-applier.ts:192-263 | for distinct hashes, skipped (without operation, NOP or present), added, missing and invalid partition the batch, and nothing present changes |
| `MergeReasons.MergeReasons` | packages/object/src/drp-applier.ts:192-263 | in a batch with distinct hashes a vertex is added if and only if at its turn its hash is right, it has dependencies, all are present and no timestamp is over a minute ahead; it is missing only for a dependency that was absent then and not remembered as invalid; it is invalid only through a fault of its own, or because all absent dependencies were remembered or are reported invalid |
| `MergeReasons.MissingWaits` | packages/object/src/drp-applier.ts:236-263 | when the merge is done, a missing vertex still waits for a dependency that is absent and neither remembered nor reported as invalid, unless all its dependencies arrived after its turn |
| `MergeReasons.ValidateMeans` | packages/validation/src/vertex.ts:24-46 | validation passes if and only if the vertex is sound; the dependency error means an absent dependency or none at all, every other error a fault of the vertex |
| `MergeReasons.MergeRemembers` | packages/object/src/drp-applier.ts:282-289 | after a merge the memory is the last 10,000 entries of the list that begins with the old memory and goes on with the reported invalid hashes, in the order of the report, each unless it is among the last 10,000 already |
| `MergeReasons.RoomKeepsAll` | packages/object/src/drp-applier.ts:282-289 | with room in it, the memory keeps everything and gains every reported hash that it lacked, in order |
| `MergeReasons.NewPushesOut` | packages/object/src/drp-applier.ts:282-289 | when nothing reported was remembered before, the memory is the last 10,000 of the old memory followed by the report: the oldest go out first |
| `MergeReasons.PushedOutComesBack` | packages/object/src/drp-applier.ts:282-289 | in a full memory an entry that was pushed out and is rejected again in the same merge comes back at the end, although it was remembered when the merge began |
| `MergeReasons.RejectedLater` | packages/object/src/drp-applier.ts:217-231 | over two merges with room for both: a vertex all of whose absent dependencies the first reported invalid is not kept as missing by the second, and is reported invalid unless those dependencies arrive after all |
| `Convergence.PassGenuine` | packages/object/src/drp-applier.ts:192-263 | a pass over vertices of one valid graph rejects none of them, forgets nothing and adds every vertex whose dependencies are present |
| `Convergence.PassProgress` | packages/object/src/drp-applier.ts:192-263 | a pass over all absent vertices, in any order, adds at least one |
| `Convergence.RedeliveryConverges` | packages/object/src/drp-applier.ts:192-280 | redelivery in any order each time reaches the whole graph within as many passes as vertices were missing |
| `Convergence.DeliverOrdered` | packages/object/src/drp-applier.ts:192-234 | a list in topological order is added completely, in order, with nothing held back |
| `Sync.SyncHandler` | packages/node/src/handlers.ts:336-347 | the loop answers an inventory with the vertices the sender lacks, in insertion order, and the hashes it lacks itself |
| `Sync.ServeRequested` | packages/node/src/handlers.ts:438-447 | the loop looks up the requested vertices that are present |
| `Sync.SyncConverges` | packages/node/src/handlers.ts:336-465 | SYNC, its SYNC_ACCEPT and the return SYNC_ACCEPT leave both replicas with the union of their graphs, and no merge reports a missing or invalid vertex |
| `Sync.UnionOK` | packages/node/src/operations.ts:37-58 | the union of two graphs that agree on shared hashes is a valid graph of which both are parts |
| `ReplicaSync.ReplaySame` | packages/object/src/drp-applier.ts:369-408 | a past is replayed in any closed part of a graph as in the whole |
| `ReplicaSync.OrderedRuns` | packages/object/src/drp-applier.ts:192-234 | a batch in topological order runs through if and only if every vertex of it executes in the resulting graph |
| `ReplicaSync.AnyOrderRuns` | packages/object/src/drp-applier.ts:192-234 | vertices that execute in the end do so at their turn, in whatever order they come |
| `ReplicaSync.MergeArrived` | packages/node/src/handlers.ts:438-465 | merging what a peer listed completes the graph and reports nothing; on an exact graph it completes if and only if all of it executes and the graph can be replayed |
| `ReplicaSync.SyncReplicas` | packages/node/src/handlers.ts:336-465 | the exchange between two replica objects: when both merges complete, both hold the union, nothing is reported, and on an exact union both have the same live DRP and ACL; between up-to-date replicas it completes if and only if everything new executes in the union and the union can be replayed |
| `ReplicaSync.RedeliverAll` | packages/object/src/drp-applier.ts:185-280 | redelivery to a replica object: after as many completed passes as vertices were missing, in any order each, it holds the whole graph and its live state is the replay of it; every pass completes when nothing in the graph throws |
| `Channels.EveryRun` | packages/message-queue/src/channel.ts:49-139 | in every run, of the record of the channel, which CallersSee ties to the calls: accepted = delivered + buffered + parked + given up at close; order is kept among never-parked values and among parked ones; the buffer keeps to its capacity; a receiver waits only when there is nothing to receive; every promise is open or settled exactly once |
| `Channels.StepKeeps` | packages/message-queue/src/channel.ts:49-139 | each call keeps all of that |
| `Channels.CloseKeeps` | packages/message-queue/src/channel.ts:116-125 | closing settles every promise still open, each once |
| `Channels.StartDropsNothing` | packages/message-queue/src/channel.ts:130-139 | starting a closed channel gives nothing up |
| `Channels.LaterSendOvertakes` | packages/message-queue/src/channel.ts:67-76 | for every capacity of at least one there is a run in which a later send takes a freed slot and comes out before a parked one |
| `Channels.OrderKept` | packages/message-queue/src/channel.ts:49-111 | values come out in the order they were accepted, in every run, if and only if the capacity is zero |
| `ChannelCalls.CallersSee` | packages/message-queue/src/channel.ts:49-139 | in every run the record is what callers observe: what senders gave without an error and what receivers got, at once or through a promise, in order since the last close and as bags ever; promises are numbered as they are made, bring a value exactly when made to a receiver, and are kept in the order they were made, for receivers and for senders |
| `ChannelCalls.CallersConserve` | packages/message-queue/src/channel.ts:49-139 | in every run, what was ever taken from senders is what receivers ever got, what is buffered or parked, and what closing gave up |
| `ChannelCalls.CallersInOrder` | packages/message-queue/src/channel.ts:49-111 | receivers get values in the order in which senders gave them, in every run, if and only if the capacity is zero |
| `Channels.Channel.constructor` | packages/message-queue/src/channel.ts:35-43 | a new channel is open and empty |
| `Channels.Channel.SendValue` | packages/message-queue/src/channel.ts:49-77 | sending does what the specified step does and keeps the invariant; when somebody waits, the promise of the receiver that has waited longest gets the value |
| `Channels.Channel.ReceiveValue` | packages/message-queue/src/channel.ts:83-111 | receiving does what the specified step does and keeps the invariant; a value that is returned is the one recorded as handed over next |
| `Channels.Channel.CloseAll` | packages/message-queue/src/channel.ts:116-125 | the loops reject every parked send and then every waiting receive, in order |
| `Channels.Channel.StartAgain` | packages/message-queue/src/channel.ts:130-139 | starting does what the specified step does and keeps the invariant |
| `MessageQueue.FanOutSerial` | packages/message-queue/src/message-queue.ts:58-134 | over every interleaving: one loop per generation, a loop runs only after all earlier loops have finished, handler calls never overlap and go through the handlers in turn, and an active queue with subscribers has a loop that is not exiting |
| `MessageQueue.EveryHandler` | packages/message-queue/src/message-queue.ts:86-93 | over every run: once a message was delivered, either its loop is still inside a handler, or the log holds since the delivery, with nothing in between, one call and one return of each handler in order, of at least those subscribed at the delivery and of none never subscribed |
| `MessageQueue.OldLoopsEnd` | packages/message-queue/src/message-queue.ts:83-84 | after a restart a loop of an earlier generation that is not receiving or inside a handler never calls a handler again, in any run |
| `MessageQueue.StepKeeps` | packages/message-queue/src/message-queue.ts:58-134 | each step of a loop or of the user keeps all of that |
| `MessageQueue.OneRunning` | packages/message-queue/src/message-queue.ts:79-82 | at most one loop is past its first await and not finished |
| `Reconciliation.Reconcile` | packages/rendezvous/src/reconciliation.ts:24-57 | the pass throws exactly when a new peer arrives while the cap is held; otherwise the result is exactly the held record of every peer, once, in peer order |
| `Reconciliation.HeldIsNewest` | packages/rendezvous/src/reconciliation.ts:35-53 | a held record is fresh, has the highest sequence of its peer, and no fresh record of that sequence has another signature |
| `Reconciliation.ConflictIsClash` | packages/rendezvous/src/reconciliation.ts:46-52 | a peer is discredited only by two fresh records of one sequence with different signatures |
| `Reconciliation.FateIsNewest` | packages/rendezvous/src/reconciliation.ts:35-53 | when every clash comes with one at the highest sequence, a peer is held if and only if it has a fresh record and no clash at the highest sequence |
| `Reconciliation.OrderIrrelevant` | packages/rendezvous/src/reconciliation.ts:33-54 | then the result does not depend on the order of the sources, up to signature |
| `Reconciliation.OrderMatters` | packages/rendezvous/src/reconciliation.ts:33-54 | otherwise one order of the same records drops the peer and another holds it |
| `Reconciliation.FewPeers` | packages/rendezvous/src/reconciliation.ts:38-38 | with no more fresh peers than the cap the pass never throws |
| `Reconciliation.SortByPeer` | packages/rendezvous/src/reconciliation.ts:56-56 | the candidates sorted by peer, each once |
| `HopDecoder.ReadVarint` | packages/relay-policy/src/libp2p-client.ts:319-327 | the loop reads the varint at an offset: at most ten bytes, seven bits each, least significant first |
| `HopDecoder.VarintInverts` | packages/relay-policy/src/libp2p-client.ts:319-327 | reading inverts encoding for every value below 2^70, wherever it stands |
| `HopDecoder.VarintBounded` | packages/relay-policy/src/libp2p-client.ts:319-327 | whatever is read fits ten groups of seven bits and took at most ten bytes |
| `HopDecoder.DecodeFields` | packages/relay-policy/src/libp2p-client.ts:289-317 | the loop decodes the fields or fails as the specification says |
| `HopDecoder.FieldInverts` | packages/relay-policy/src/libp2p-client.ts:295-314 | reading one field inverts its encoding and ends where it ends |
| `HopDecoder.DecodeInverts` | packages/relay-policy/src/libp2p-client.ts:289-317 | decoding the concatenated encodings of any list of fields returns the list and consumes every byte |
| `HopDecoder.HopDecodes` | packages/relay-policy/src/libp2p-client.ts:260-287 | any list of encodable fields in any order decodes to a response if and only if there is exactly one status, it is safe, the first reservation and the first limit decode, the duration is safe, and the response has that status and the first expiry, data and duration of the two |
| `HopDecoder.HopInverts` | packages/relay-policy/src/libp2p-client.ts:260-287 | for a message whose first reservation and first limit are encoded lists of fields, decoding gives a response if and only if it is what the message says, in any order of the fields |
| `Addresses.ParseIpv6Side` | packages/rendezvous/src/address-policy.ts:328-346 | the loop reads the groups of one side, or fails |
| `Addresses.ExpandBounded` | packages/rendezvous/src/address-policy.ts:315-326 | whatever is accepted has eight groups of sixteen bits |
| `Addresses.ExpandFull` | packages/rendezvous/src/address-policy.ts:315-326 | a full spelling in any case, with or without a dotted tail, expands to its groups when there are eight, and to nothing otherwise |
| `Addresses.ExpandCompressed` | packages/rendezvous/src/address-policy.ts:315-326 | a spelling with "::" expands to its groups with the zeros put back when at least one is missing, and to nothing otherwise |
| `Addresses.HextetsRead` | packages/rendezvous/src/address-policy.ts:348-350 | writing two groups as dotted text and reading it gives their four octets |
| `Addresses.EmbeddedScope` | packages/rendezvous/src/address-policy.ts:274-313 | IPv4-mapped, 64:ff9b::/96 and 6to4 addresses get exactly the scope of the IPv4 address inside |
| `Addresses.DeprecatedScope` | packages/rendezvous/src/address-policy.ts:287-303 | IPv4-compatible addresses other than :: and ::1 get the scope of the IPv4 address inside, but reserved instead of public |
| `Addresses.SpelledScope` | packages/rendezvous/src/address-policy.ts:274-350 | for IPv4-mapped, 64:ff9b::/96 and 6to4 addresses spelled in full or with "::", in any case and with or without a dotted tail, the same from the text to the scope |
| `AddressRanges.Ipv4Ranges` | packages/rendezvous/src/address-policy.ts:246-272 | the scope of every IPv4 address is the entry of a table of intervals of 32-bit numbers |
| `AddressRanges.Ipv6Ranges` | packages/rendezvous/src/address-policy.ts:274-313 | the scope of every IPv6 address without an IPv4 address inside is the entry of a table of intervals of 128-bit numbers: fc00::/7, fe80::/10, ff00::/8 and the six reserved blocks |
| `AddressRanges.EmbeddedRanges` | packages/rendezvous/src/address-policy.ts:284-303 | an address beyond ::1 with an IPv4 address inside, in any of the five forms, has the entry of the IPv4 table for it, except that compatible and translated addresses are reserved instead of public |
| `AddressRanges.FirstTwo` | packages/rendezvous/src/address-policy.ts:277-278 | :: is reserved and ::1 is loopback |
| `AddressRanges.GroupRead` | packages/rendezvous/src/address-policy.ts:341-343 | the usual hexadecimal text of every number below 0x10000 is a token that reads back as that number |
| `AddressRanges.WrittenExpands` | packages/rendezvous/src/address-policy.ts:315-346 | the usual full text of any eight groups expands to them |
| `AddressRanges.WrittenScope` | packages/rendezvous/src/address-policy.ts:274-346 | from that text to the scope, for addresses without an IPv4 address inside |
| `RelayPolicy.ReservationsConserved` | packages/relay-policy/src/index.ts:1127-1340 | in every run: operations run one at a time in enqueue order, the log of attempts names no candidate twice for one operation, every accepted reservation is active, held by a worker or handed to a release, and after stop all were handed to a release |
| `RelayPolicy.StepKeeps` | packages/relay-policy/src/index.ts:1148-1340 | each step of a worker or of the queue keeps all of that |
| `RelayPolicy.TakeKeeps` | packages/relay-policy/src/index.ts:1148-1167 | a worker takes a candidate that was not tried in this operation |
| `RelayPolicy.AcceptKeeps` | packages/relay-policy/src/index.ts:1268-1340 | an accepted reservation is released, kept, or held while a surplus one is dropped; nothing is lost on the way |
| `RelayPolicy.StopEndKeeps` | packages/relay-policy/src/index.ts:966-988 | when stop goes on, no operation is running and none will |
| `RelayPlays.RelayDiversity` | packages/relay-policy/src/index.ts:1148-1433 | with a cap of one and no overflow, over every interleaving no operator group has two reservations, at most one more than required are active, no worker waits, and every acquisition that returned reserved had at least the required number, in at least the required number of known groups, no two in one group |
| `RelayCap.StepKept` | packages/relay-policy/src/index.ts:1268-1340 | outside the limits that can be exceeded, each step of the policy keeps every group, counting what workers hold, within its cap |
| `RelayGroups.JoinSafe` | packages/relay-policy/src/index.ts:1288-1340 | the same of one accepted reservation, seen on the table of groups |
| `RelayRuns.CapExceeded` | packages/relay-policy/src/index.ts:1329-1340 | for all limits that can be exceeded, a play of the table that ends with a group above its cap: workers wait for a surplus reservation to be dropped while others fill the group they are about to join |
| `RelayPlays.Realize` | packages/relay-policy/src/index.ts:1148-1340 | every legal play of the table is a run of the policy with a suitable pool and interleaving |
| `RelayPlays.CapExact` | packages/relay-policy/src/index.ts:1148-1340 | without overflow, in every run from the start every group stays within its cap, if and only if the limits are not among those listed by CanExceed: a cap of at least two, and as many concurrent workers as required, groups and cap make necessary |
| `RelayPlays.ReservedMeansEnough` | packages/relay-policy/src/index.ts:1169-1174 | without overflow, in every run each acquisition that returned reserved had at least the required number of reservations in at least the required number of known groups |
| `RelayReports.ReportsExactly` | packages/relay-policy/src/index.ts:1169-1174 | without overflow, in every run an operation that finishes reports the active reservations as reserved if and only if they are at least the required number in at least the required number of known groups, and otherwise reports none |
| `RelayReports.SomeRunReserves` | packages/relay-policy/src/index.ts:1127-1174 | for all proper limits there is a run from the start, without overflow, whose result is reserved |
| `RelayReports.TriesWhileNeeded` | packages/relay-policy/src/index.ts:1148-1167 | without overflow, in every run a candidate is tried only while the active reservations are not enough |
| `RelayOverflow.OverflowReports` | packages/relay-policy/src/index.ts:1421-1433 | in every run, with or without overflow, an operation that finishes reports reserved if and only if enough is active in enough known groups, or in an overflow phase enough is active with a degraded reservation among it; degraded reservations are always active and of the unknown group |
| `RelayOverflow.TriesSensibly` | packages/relay-policy/src/index.ts:1189-1215 | a worker tries a candidate if and only if it is the next of the pool, not active, not of an excluded group, has an address, its group is below the cap or it is an anonymous overflow candidate, and the requirement is not met |
| `RelayOverflow.StrangersReserve` | packages/relay-policy/src/index.ts:1297-1348 | for all proper limits there is a run with overflow whose result is reserved although no reservation has a known group |
| `ControlPlane.SchedulerPatient` | packages/control-plane/src/index.ts:511-608 | in every run recoveries never overlap, a started coordinator has an active recovery or a pending observation that is due within the longest of its three delays, each recovery begins on a fault and keeps the backoff to the last one that ended since the start, and the startup grace unless one from before the start was still active then; over restarts the grace is always kept when the backoff is no shorter, and the backoff when the grace is no shorter |
| `ControlPlane.StepKeeps` | packages/control-plane/src/index.ts:511-608 | each step keeps all of that |
| `ControlPlane.BeginsExactly` | packages/control-plane/src/index.ts:558-588 | on every state of a run a recovery begins if and only if a started coordinator without an active one sees a fault after the backoff since the last end, or before any end after the startup grace |
| `ControlPlane.NextPoll` | packages/control-plane/src/index.ts:566-588 | after a pending observation the next is due one poll interval later when healthy or nothing is classified as a fault, when a recovery may begin if it is too early, and not before a recovery ends if one is active or begins |
| `ControlPlane.PollAfterEnd` | packages/control-plane/src/index.ts:583-587 | when a recovery ends and nothing is pending, the next observation is due after the backoff |
| `ControlPlane.GraceLost` | packages/control-plane/src/index.ts:511-530 | when the backoff is shorter, a restart while a recovery is ending loses the grace |
| `ControlPlane.BackoffLost` | packages/control-plane/src/index.ts:511-515 | when the grace is shorter, a restart after a recovery loses the backoff |
| `ControlPlane.RunPlan` | packages/control-plane/src/index.ts:610-652 | each terminal is returned if and only if the outside ends the run so, in the first round that does not go on; attempts, sleeps and the log of results are those of the rounds up to there, attempts never exceed the maximum nor the retry delays plus one, and no sleep extends past the deadline |
| `ControlPlane.RunAttempts` | packages/control-plane/src/index.ts:617-651 | the loop ends in a round and with a terminal as specified, with one attempt per round that began and one sleep per round that fell asleep |
| `ControlPlane.OneEnd` | packages/control-plane/src/index.ts:617-651 | a round either goes on or ends the run in exactly one way |
| `ControlPlane.RunOperations` | packages/control-plane/src/index.ts:623-628 | an attempt recovered if and only if one of its operations succeeded |

## Left out

- Hashing and signatures: a hash is a number in the order of its hexadecimal text, and whether it is correct is a parameter of the configuration; a local vertex gets a hash that no stored vertex with other dependencies has.
- Finality, attestations, notifications, tracing and logging: they do not feed back into the graph or the state.
- Vertex distances and lowest common ancestors of the hash graph: the replay does not use them.
- Multiple semantics (`linearizeMultipleSemantics`): only pair semantics is modelled.
- Objects without a DRP: every modelled object has both a DRP and an ACL.
- The mutation-tracking proxy: whether a local call wrote anything is a parameter of `CallFn`.
- Asynchronous steps inside one operation or merge: each local call and each merge is atomic.
- Concrete DRP and ACL classes: arbitrary deterministic functions that may fail; of their conflict resolvers only those of the add/multiply register and the access control list are modelled.
- TopologicalSort.SortIsTopological: reduced dependency lists are sufficient; whether a given redundant list is harmful also depends on how the hashes compare, so the converse is stated as a family of failing graphs.
- Linearization.BarrierLinearize: calm swaps are sufficient; the converse is stated as a family of policies and graphs, `SwapLimits.RestlessBarrier`.
- LinearOrder.ReplayOrderCausal: the condition on swaps is exact for policies with one swapped pair, `Overtaking.SwapStaysCausal`; with several, one swap can make up for another.
- Applier.DRPVertexApplier.MergeVertices: the clock is read once per batch, not once per vertex.
- Authentication of incoming vertices and the recovery request after a merge with missing vertices (`recoverMissingSync`): the SYNC results assume valid vertices, and prove that nothing is missing.
- ReplicaSync.RedeliverAll: that nothing throws is sufficient for every pass to complete; which intermediate graphs must be replayable depends on the orders.
- Verdicts.ReplayOrderSwept: the exact result of the scan is stated without swaps; with swaps the rows on unswapped vertices and on causal order hold.
- Channels.Channel.SendValue: promises are numbers and their settlements a list; the order in which awaiting code is resumed is not modelled.
- MessageQueue.FanOutSerial: what a channel delivers and when is left open, so the order of messages is the subject of `Channels`.
- Reconciliation.Reconcile: peers are numbers in the order of their names, so locale-dependent comparison is not modelled.
- HopDecoder.HopInverts: framing and the stream around the message are not modelled.
- Addresses.EmbeddedScope: IPv4 text is read as it occurs inside IPv6 text; blanks, signs and the hexadecimal and octal numerals that `Number` also accepts in a plain IPv4 literal are not modelled.
- RelayPolicy.ReservationsConserved: retrying failed releases at stop, deadlines, refreshes and fallback relays are not modelled; a release counts when it is attempted.
- RelayPlays.CapExact: the number of candidates in a pool is not bounded, so limits on candidates that make a run too short to exceed the cap are not taken into account.
- ControlPlane.SchedulerPatient: a status reader that throws is not modelled, and recoveries requested by a direct call are not counted.
- Candidate collection, address selection, storage adapters, network transports, command lines and examples: input and output around the modelled logic.
