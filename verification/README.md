# A Dafny model of the sharded blockchain emulator

This project models the emulator's five hardest parts and proves what they are meant to guarantee. Each system is
a Dafny module or two; methods of classes follow the imperative source and are proved against specification
functions, and whole systems are step systems over which the theorems are proved for every run.

- **The partition state** (`Graph`, `ClpaSpec`, `ClpaRun`, `ClpaState`, `AeroSpec`, `Aero`). The transaction graph
  as symmetric adjacency lists; the counters of the CLPA algorithm, their slow definition and their fast update;
  the relabelling loop for any map order and any scores; the statistics and prefix moves of AERO for any answer
  of the agent.
- **The sharded ledger in relay mode** (`Transactions`, `TxPool`, `Chain`, `RelayNode`, `RelayLedger`,
  `RelayConservation`, `RelayProgress`). Steps inject, propose, commit and deliver; relay messages overtake one
  another. Every run can be drained, and drained runs agree with one sequential ledger.
- **The sharded ledger in broker mode** (`BrokerCommittee`, `BrokerLedger`, `BrokerConservation`,
  `BrokerTheorems`, `BrokerFinish`, `BrokerProgress`). The supervisor splits cross-shard transactions into two halves
  through a broker; every run can be finished, and finished runs agree with the sequential ledger.
- **Re-sharding** (`Filters`, `QueueMigration`, `BrokerQueue`, `Resharding`, `ReshardingView`, `QueuedShard`,
  `QueueConservation`, `MigrationNode`). The in-place split of the queues, and the barrier protocol by which accounts
  and the queued transactions with them change shards.
- **Re-sharding under the broker-mode supervisor** (`Overtaking`, `Exchange`, `Ahead`, `AfterOvertaking`, `Walkthrough`,
  `OvertakingRun`). What its early announcements do to the accounts: an exact condition for one round of any run, one
  for whole runs, and two runs in which the account view is lost.
- **Consensus inside a shard** (`Pbft`, `PbftSafety`, `PbftQuorum`, `PbftTheorems`) within one view, the **epoch
  barrier** of the supervisor (`EpochBarrier`), and the **chain store and transaction search** (`Chain`).

`Addresses` and `Multisets` hold shared definitions.

## What the proofs assume

- An account read but never written has the initial balance; the default shard of an address is a parameter.
- Relay mode is funded when no account injects more than the initial balance, broker mode when all injected
  values together are within it. Both assumptions are about inputs, and both modes have a lemma that says what
  happens without them.
- Graph properties of the fast update assume no self-loop, which the readers of the transaction data filter out;
  the contract of `ChangeShardRecompute` says what a self-loop costs.
- The network delivers each message at most once to each receiver, in any order, or never. The lemma
  `RepeatsMakeQuorum` shows that the vote tables need this. Only the supervisor's partition announcements reach a
  shard in the order in which they were made.
- A shard in the re-sharding steps executes only blocks whose broker transactions involve, besides brokers, accounts
  of the shard. `NeverPanics` proves it of every block taken from a queue, for injections that are routed by the map
  the shard is about to work with; `InjectExactly` and `EarlyHalfPanics` are about the others.
  `DealtFits` and `SecondFits` show that whatever the supervisor sends is routed by the map it deals by.
  `EveryCopyKept` assumes nothing about the routing of injections.
- Hashes and digests are injective, roots are known by what they commit to, and a state trie by its contents.
- A map that is ranged over is visited in an arbitrary order.

## Where the code does not do what one would expect

- `changeShardRecompute` is exact only without self-loops at the moved vertex (`ChangeShardRecompute`).
- `AddVertex` of the partition state would count a vertex again that is already there (`ClpaState.AddVertex`); its
  only caller, `AddEdge`, tests for that first.
- A short sender's cross-shard transaction is skipped at its shard but relayed, or reported, all the same, so that
  its value is created (`CrossShardConserves`, `UnfundedCreatesMoney`, `HalvesConserve`).
- A node that handles a quorum of commits for a later sequence number counts up its own although its chain refuses
  the block, and never adds a block again (`StaysInStep`, `StalledForGood`). `FallsBehind` is a run of eleven events
  in which that happens.
- The epoch barrier does not check the sender of an acknowledgement (`UnknownSenderPasses`, `NeverEarlyExactly`).
- The CLPA supervisor of broker mode advances its epoch on the first shard's report
  (supervisor/committee/committee_clpa_broker.go:257-261), so that its next announcement may overtake a round that
  other shards have not finished. The shards this happens to first have sent their accounts and not yet committed
  (`FirstOvertaking`). One that still collects skips the announcement for good and reports its epoch all the same
  (`OvertakenExactly`, `SkippedForGood`). From then on it performs every later announcement one exchange before the
  other shards perform it, because no message says which round it belongs to: its round counter stays one ahead of
  theirs (`OneAhead`, `CountersApart`). One whose request is already in consensus gets ahead in the same way in its next
  round (`OneBehind`).
- So even an overtaking announcement that changes nothing breaks the account view later on: `AccountLost` is a run in
  which the only overtaking announcement is empty, every shard ends up placing accounts as announced, and an account
  has one owner, which does not have its state. As long as no further announcement overtakes, the account view survives
  if and only if each announcement, the skipped one included, moves the account only between shards that are equally
  far ahead (`WholeRunExactly`, `LaterExactly`, `SkippedMove`, `ViewExactly`); otherwise the account has two owners or
  none (`OneOwnerExactly`). In particular an account that no announcement from the overtaking one on moves is read right
  for ever, whatever overtakes later (`UnmovedReadsTruth`). For a single round of any run: an account is readable at its
  new owner if and only if the announcement that shard performs in the round puts it there as the old owner's does
  (`ReadableExactly`, `ExchangeExactly`). `TwoOwners` is a run in which the skipped announcement moves an account.
- Waiting for all shards would exclude this (`WaitingIsCalm`), but the supervisor that waits
  (supervisor/committee/committee_clpa.go) drives the migration that does not.
- The supervisor routes transactions and second halves by the map it has announced last; one that reaches its shard
  before the shard has sent its accounts makes the commit phase panic (`EarlyHalfPanics`).
- AERO moves by prefixes of any length but reports by the first two characters (`OverlayStep`), and its heartbeat
  account is right only if it is no vertex labelled otherwise (`HeartbeatOverlay`).

## Model

| member | source | states |
|---|---|---|
| Graphs.NeighboursSymmetric | partition/graph.go:31-45 | on any graph built by adding edges, y is listed at x as often as x is listed at y |
| Graphs.Graph.AddVertex | partition/graph.go:23-28 | adds the vertex and nothing else |
| Graphs.Graph.AddEdge | partition/graph.go:31-45 | the adjacency lists represent the undirected multigraph with one more edge, both ends becoming vertices |
| ClpaSpec.FullSweep | partition/partition_CLPA.go:102-143 | after a sweep over all adjacency lists the same-shard count is twice the number of inner edges (so the halving is exact) and the cross count is the number of edges touching the shard less the inner ones |
| ClpaSpec.CrossIntoSum | partition/partition_CLPA.go:102-143 | the directed cross counts of all shards add up to twice the number of undirected cross-shard edges |
| ClpaSpec.TouchSum | partition/partition_CLPA.go:102-143 | the counters W_k add up to the number of edges plus the number of cross-shard edges |
| ClpaSpec.RelabelNew | partition/partition_CLPA.go:146-168 | how relabelling one vertex changes the number of edges touching its new shard, in terms of its adjacency list and its self-loops |
| ClpaSpec.RelabelOld | partition/partition_CLPA.go:146-168 | the same for its old shard |
| ClpaSpec.RelabelCross | partition/partition_CLPA.go:146-168 | the same for the number of cross-shard edges |
| ClpaSpec.RelabelOthers | partition/partition_CLPA.go:146-168 | every other shard is touched by as many edges as before |
| ClpaSpec.MembersRelabelled | partition/partition_CLPA.go:255-261 | a move takes one vertex from the old shard and gives one to the new |
| ClpaStates.ClpaState.constructor | supervisor/committee/committee_clpa.go:254-260 | a reset state has an empty graph, the labels carried over, and exact vertex counts |
| ClpaStates.ClpaState.AddVertex | partition/partition_CLPA.go:47-56 | a new vertex gets its default label; the vertex counts stay exact exactly when the vertex was not there before |
| ClpaStates.ClpaState.AddEdge | partition/partition_CLPA.go:59-70 | one more edge; an end without a label gets its default shard and no other label changes; vertex counts kept exact |
| ClpaStates.ClpaState.ComputeEdges2Shard | partition/partition_CLPA.go:102-143 | for every map order: each counter is the number of undirected edges touching its shard, the cross total is the number of cross-shard edges, and the minimum is the smallest counter |
| ClpaStates.ClpaState.RecountNeighbours | partition/partition_CLPA.go:146-160 | the loop over the neighbours changes exactly the old shard, the new shard and the cross total, by counts of the neighbours' labels |
| ClpaStates.ClpaState.ChangeShardRecompute | partition/partition_CLPA.go:146-168 | the fast form: run on exact counters after a vertex moved, it leaves what recomputing from scratch gives if and only if the vertex has no self-loop; each self-loop costs one at both shards and two in the cross total |
| ClpaRuns.PickIsFirstMaximum | partition/partition_CLPA.go:241-254 | the chosen shard is the current one when no neighbouring shard scores above the floor, and otherwise the shard of the first neighbour with the largest score |
| ClpaRuns.PickIsANeighbour | partition/partition_CLPA.go:244-254 | a vertex only moves to the shard of a neighbour |
| ClpaRuns.VisitMoves | partition/partition_CLPA.go:237-265 | a visit relabels a vertex if and only if it has moved fewer than 50 times, another vertex shares its shard, and the first best-scored neighbouring shard above -9999 is a different one; that becomes its label and its entry in the result, and nothing else changes |
| ClpaRuns.QuietExactly | partition/partition_CLPA.go:231-274 | in every run an iteration moves nothing if and only if each vertex has moved 50 times, is alone on its shard, is on the neighbouring shard that scores best, or has none that scores above the floor; and then it changes nothing |
| ClpaStates.ClpaState.PickShard | partition/partition_CLPA.go:241-254 | the loop that scores each neighbouring shard once makes that choice |
| ClpaStates.ClpaState.ConsiderVertex | partition/partition_CLPA.go:237-265 | one visit does what the specified visit does, of which `VisitMoves` says when it moves the vertex and where to, and leaves cached counters, labels and vertex counts exact |
| ClpaStates.ClpaState.MoveVertex | partition/partition_CLPA.go:255-264 | a move keeps vertex counts exact and, without self-loops, the cached counters |
| ClpaStates.ClpaState.RunIteration | partition/partition_CLPA.go:237-265 | one iteration, in any order of the vertices, is one specified sweep with all counters exact at every point |
| ClpaStates.ClpaState.ClpaPartition | partition/partition_CLPA.go:231-274 | for any scores and any visiting orders: labels and returned map are those of the specified run, each visit of which moves exactly as `VisitMoves` says, and every counter is exact at the end |
| ClpaRuns.OccupiedStays | partition/partition_CLPA.go:255 | a move out of a shard with more than one vertex leaves the same shards non-empty |
| ClpaRuns.RunIsSound | partition/partition_CLPA.go:231-274 | in every run labels stay in range, the set of non-empty shards never changes, the returned map laid over the old labels is the new labelling and names exactly the moved vertices, and no vertex moves more than fifty times |
| ClpaRuns.TotalMoves | partition/partition_CLPA.go:234-240 | the total number of moves is at most min(50, iterations) times the number of vertices |
| AeroSpec.AllEnds | partition/partition_AERO.go:59-88 | the edge ends at a set of vertices number twice the edges exactly when no end is missed, and then the cross-shard ends number twice the cross-shard edges |
| AeroSpec.EdgesToShardSum | partition/partition_AERO.go:77-86 | each prefix's edges to the shards add up to its volume |
| AeroSpec.FirstLabelIs | partition/partition_AERO.go:66-74 | the shard of a prefix is the label of its first visited vertex, none if there is no such vertex |
| AeroSpec.LabelsByLastMove | partition/partition_AERO.go:201-211 | after any list of moves each vertex has the target of the last move whose prefix its address begins with, or its old label if there is none; other labels stay |
| AeroSpec.ResultsByLastMove | partition/partition_AERO.go:201-211 | an account is reported if and only if it is a vertex's and some move's prefix is its first two characters, with the target of the last such move |
| AeroSpec.WithHeartbeatReturned | partition/partition_AERO.go:218-226 | what is returned is that report or, if no account is named by any move, the one entry of the heartbeat account |
| Aeros.TallyNeighbours | partition/partition_AERO.go:77-87 | one adjacency list enters volume, cross-shard volume and edges by shard of its prefix |
| Aeros.TallyVertex | partition/partition_AERO.go:59-88 | the statistics describe one more vertex; its prefix is put on its shard if it is new, and no other prefix changes shard; addresses shorter than the prefix are left out |
| Aeros.CollectStats | partition/partition_AERO.go:56-88 | for every map order each prefix's statistics count the edge ends at the vertices of its group, and name the shard of its first visited vertex |
| Aeros.AddUpShards | partition/partition_AERO.go:93-105 | for every order of the prefixes, each shard's load is the volume of the prefixes that name it, and all loads add up to the edge ends at long enough addresses |
| Aeros.AddUpAll | partition/partition_AERO.go:121-126 | the total volume and cross-shard volume are the edge ends, and cross-shard ends, at long enough addresses |
| Aeros.CollectState | partition/partition_AERO.go:45-148 | each shard's load and cross-shard ratio are those of the vertices whose prefix was first seen on it; the loads add up to twice the edges if and only if no edge ends at a short address; then the global ratio is the share of cross-shard edges; the candidates are exactly the prefixes with a cross-shard end |
| Aeros.UpdatePrefixShard | partition/partition_CLPA.go:282-295 | for every map order all vertices with the prefix get the new label, and vertex counts stay exact |
| Aeros.RecordMove | partition/partition_AERO.go:205-210 | for every map order the reported accounts are those whose first two characters are the prefix |
| Aeros.ApplyMigrations | partition/partition_AERO.go:198-211 | for any list of in-range moves: each vertex follows the last move whose prefix its address begins with, each account is reported as the last move of its two-character prefix says and no other is, and vertex counts stay exact |
| Aeros.AeroPartition | partition/partition_AERO.go:41-232 | the whole entry point for any in-range moves: the loads, ratios, global ratio and candidates told of the labels before; labels and returned map by the last moves, or the heartbeat when nothing is named; and all counters exact at the end |
| AeroSpec.OverlayStep | partition/partition_AERO.go:201-211 | a move keeps "returned map over old labels is new labels" if and only if its prefix has two characters or it changes no label |
| AeroSpec.MovesOverlay | partition/partition_AERO.go:201-211 | so it holds after any list of two-character moves, and vertices outside the graph keep their labels |
| AeroSpec.HeartbeatOverlay | partition/partition_AERO.go:218-226 | the heartbeat account keeps it right if and only if it is no vertex labelled otherwise |
| Aeros.ReturnedMapRight | partition/partition_AERO.go:198-231 | the map that is returned, heartbeat included, is right exactly under that condition |
| EpochBarriers.EpochTracker.RecordEpochAck | supervisor/committee/committee_clpa.go:265-317 | the handler, its advance loop terminating, does one step of the specified barrier |
| EpochBarriers.AdvanceReachesStable | supervisor/committee/committee_clpa.go:294-316 | advancing stops exactly at the last epoch up to which every epoch has enough different senders |
| EpochBarriers.RunRepresents | supervisor/committee/committee_clpa.go:265-317 | after any sequence of acknowledgements the current epoch is that epoch and no bucket is wrong |
| EpochBarriers.OrderAndDuplicationIrrelevant | supervisor/committee/committee_clpa.go:265-317 | the barrier depends only on which acknowledgements arrived, not on their order or number |
| EpochBarriers.EpochMonotone | supervisor/committee/committee_clpa.go:265-317 | more acknowledgements never take the current epoch back |
| EpochBarriers.BarrierExact | supervisor/committee/committee_clpa.go:265-317 | with acknowledgements from shards only, every shard has acknowledged every epoch up to the current one and some shard not the next |
| EpochBarriers.UnknownSenderPasses | supervisor/committee/committee_clpa.go:265-285 | the sender is not checked: an acknowledgement from an unknown sender lets an epoch pass that a shard never acknowledged |
| EpochBarriers.NeverEarlyExactly | supervisor/committee/committee_clpa.go:294-303 | enough senders complete an epoch that some shard has not acknowledged if and only if they are numerous enough and include one that is no shard |
| Transactions.ExecTxBalance | chain/blockchain.go:96-143 | one transaction of a sender who can pay changes an account of the shard by its debit and credit |
| Transactions.ExecTxAccounts | chain/blockchain.go:96-143 | which accounts a transaction leaves in the trie, with which nonces; a short sender's transaction changes nothing |
| Transactions.ExecBalance | chain/blockchain.go:80-163 | a block in which all senders can pay changes each account of the shard by exactly the block's debits and credits |
| Transactions.NeverShort | chain/blockchain.go:114-117 | in such a block the short-balance branch is not taken |
| Transactions.ExecLeavesOthers | chain/blockchain.go:107-143 | accounts of other shards are left alone |
| TxPools.TxPool.AddTxs2Pool | core/txpool.go:37-46 | appends in order |
| TxPools.TxPool.PackTxs | core/txpool.go:56-67 | takes the oldest transactions off the queue, at most the block size, in order, none lost |
| TxPools.TxPool.AddRelayTx | core/txpool.go:89-97 | appends to one shard's relay list and touches no other |
| Chains.BlockChain.constructor | chain/blockchain.go:194-226 | the chain starts with a linked genesis block at height 0 |
| Chains.BlockChain.GetUpdateStatusTrie | chain/blockchain.go:80-163 | the root is the state after executing the transactions one by one from the current state |
| Chains.BlockChain.GenerateBlock | chain/blockchain.go:166-191 | a well-formed block on top of the current one with the oldest queued transactions and the state they lead to |
| Chains.BlockChain.AddBlock | chain/blockchain.go:229-249 | a block is taken exactly when it fits on top, and the stored chain stays linked |
| Chains.BlockChain.AddAccounts | chain/blockchain.go:312-365 | an empty block whose state has the received accounts of this shard overwritten, the chain staying linked |
| Chains.BlockChain.FetchAccounts | chain/blockchain.go:368-390 | the stored state of each account, the initial one if it has none |
| Chains.ChainDescends | chain/merkleproof.go:28-56 | along a linked chain heights fall by one to genesis and each block names the next as parent |
| Chains.TxProofGenerateOnTheBlock | chain/merkleproof.go:58-119 | on a well-formed block a hash is found exactly when the body has it: the Bloom filter never hides a member |
| Chains.BlockChain.TxProofGenerate | chain/merkleproof.go:28-56 | a hash is found exactly when some block above genesis on the chain contains it, and the highest such block is reported |
| RelayNodes.FillRelayPool | consensus_shard/pbft_all/pbftInside_module.go:66-92 | the loop panics exactly when a transaction is not routed here; otherwise each other shard's relay list holds, marked and in order, what goes there |
| RelayNodes.RelayMsgSend | consensus_shard/pbft_all/toolFuncs.go:114-137 | one message to every other shard, and an empty relay pool |
| RelayNodes.HandleInCommit | consensus_shard/pbft_all/pbftInside_module.go:55-99 | the chain takes the block and the relays go out, unless a transaction is not routed here |
| RelayNodes.HandleRelay | consensus_shard/pbft_all/pbftOutside_module.go:31-43 | a relay message is appended to the queue |
| RelayLedgers.NextRouted | consensus_shard/pbft_all/pbftInside_module.go:72-99 | every step keeps every queued, proposed and travelling transaction at, or on the way to, its shard |
| RelayLedgers.RunRouted | consensus_shard/pbft_all/pbftInside_module.go:72-99 | so it is in every run, for any number of shards, interleaving and message order |
| RelayLedgers.NeverIncorrectTx | consensus_shard/pbft_all/pbftInside_module.go:75-80 | what a leader proposes is routed to its own shard, so neither panic is reachable |
| RelayLedgers.ProposeTakesOldest | core/txpool.go:56-66 | a block is the oldest part of the queue, as large as the block size or all of it |
| RelayLedgers.FirstInFirstOut | core/txpool.go:36-66 | in every run each shard packs into its blocks what has reached its queue, in the order in which it came |
| RelayConservation.NextAccounted | consensus_shard/pbft_all/pbftInside_module.go:55-99 | each step keeps: injected = started + waiting, as multisets |
| RelayConservation.ProposalCovered | chain/blockchain.go:114-117 | in a funded run every proposed block can be paid for |
| RelayConservation.NextBalanced | chain/blockchain.go:96-143 | each step keeps the ledger equation: balance at the owner plus relayed credits on their way is the initial balance plus started credits less started debits |
| RelayConservation.RunBalanced | query/resultcheck_test.go:17-51 | in every run nothing is lost or duplicated, and if no account injected more than the initial balance, every account satisfies the ledger equation |
| RelayConservation.RunNeverShort | chain/blockchain.go:114-117 | in a funded run the short-balance branch is unreachable |
| RelayConservation.SequentialBalance | query/resultcheck_test.go:65-105 | the sequential ledger: initial balance plus credits less debits |
| RelayConservation.DrainedEqualsSequential | query/resultcheck_test.go:17-51 | once a funded run is drained, to which `EveryRunDrains` leads from any run, every account read at its owner is what running all injected transactions in sequence gives, in any order |
| RelayProgress.StepWorks | consensus_shard/pbft_all/pbftOutside_module.go:31-43 | each delivery of a message that is not empty, each block that is not empty, and each commit leaves less work, so that only so many of them lie between injections |
| RelayProgress.NeverStuck | consensus_shard/pbft_all/pbftInside_module.go:55-98 | as long as anything is queued, proposed or in flight, such a step can be taken |
| RelayProgress.EveryRunDrains | consensus_shard/pbft_all/pbftInside_module.go:25-98 | from the state after any run, finitely many blocks and deliveries, without an injection, lead to a drained system |
| RelayProgress.EveryRunAgrees | query/resultcheck_test.go:17-51 | so every funded run can be continued without injections to a state in which every account read at its owner is what the sequential ledger gives |
| RelayConservation.CrossShardConserves | consensus_shard/pbft_all/pbftInside_module.go:81-85 | a cross-shard transaction keeps the sum of the two balances if and only if its sender was not short (or the value is 0); otherwise the value is created |
| RelayConservation.UnfundedCreatesMoney | chain/blockchain.go:114-117 | a run in which an unfunded sender keeps its balance while the transaction is relayed |
| QueueMigration.Extract | consensus_shard/pbft_all/accountTransfer_module.go:86-103 | the two-pointer compaction: the leaving accounts' transactions are taken out in order and the others close up in order in the same buffer |
| QueueMigration.SendQueue | consensus_shard/pbft_all/accountTransfer_module.go:71-119 | over all target shards each transaction goes to the shard its account moves to and the others stay, in order |
| QueueMigration.FilterReceived | consensus_shard/pbft_all/accountTransfer_module.go:144-161 | the receiver's mismatch filter, a missing placement reading as shard 0 |
| QueueMigration.FilterExactly | consensus_shard/pbft_all/accountTransfer_module.go:144-161 | the filter keeps every copy of a transaction whose account the new map puts on this shard, or, on shard 0, does not name, and no other |
| QueueMigration.FilterDropsNothing | consensus_shard/pbft_all/accountTransfer_module.go:144-161 | it drops nothing of what a sender of the same round sends |
| QueueMigration.SentRouted | consensus_shard/pbft_all/accountTransfer_module.go:86-103 | what is sent belongs at its new shard under the new map |
| QueueMigration.KeptRouted | consensus_shard/pbft_all/accountTransfer_module.go:86-103 | what is kept belongs here under the new map, if the queue did under the old one |
| QueueMigration.QueueSplit | consensus_shard/pbft_all/accountTransfer_module.go:86-103 | each copy of a queued transaction is kept or sent to exactly one shard |
| QueueMigration.RoundConserves | consensus_shard/pbft_all/accountTransfer_module.go:58-164 | over all shards, what they keep and receive is what they had |
| BrokerQueues.ExtractBroker | consensus_shard/pbft_all/accountTransfermod_Broker.go:86-126 | the broker-mode compaction for one target: sent, became cross-shard, kept, each in order |
| BrokerQueues.SendBrokerQueue | consensus_shard/pbft_all/accountTransfermod_Broker.go:72-142 | the same over all target shards |
| BrokerQueues.BrokerQueueSplit | consensus_shard/pbft_all/accountTransfermod_Broker.go:72-142 | each copy of a queued transaction is kept, sent to one shard, or reported as cross-shard, once |
| BrokerQueues.CrossedExactly | consensus_shard/pbft_all/accountTransfermod_Broker.go:105-108 | the reported ones are the plain transactions of which an account moves away, each once however many of its accounts move |
| BrokerQueues.Classify | consensus_shard/pbft_all/pbftInside_modCLPABroker.go:101-135 | a committed body is sorted into three lists, and the source panics exactly when a transaction does not belong here |
| BrokerQueues.ListsExactly | consensus_shard/pbft_all/pbftInside_modCLPABroker.go:128-134 | of a well-typed body the three lists hold every copy of a first half, of a second half, and of all else |
| BrokerQueues.KeptBelong | consensus_shard/pbft_all/accountTransfermod_Broker.go:86-126 | after a round the kept transactions pass those checks under the new map |
| BrokerQueues.SentBelong | consensus_shard/pbft_all/accountTransfermod_Broker.go:86-126 | and the sent ones pass them at their new shard |
| Reshardings.NextSync | consensus_shard/pbft_all/pbftInside_modCLPABroker.go:22-35 | every step of every run, whatever announcements overtake, keeps the shards at most one round apart, with ready and account messages exactly those still needed, although neither carries a round number; a request holds all the shard received |
| Reshardings.SameTurn | consensus_shard/pbft_all/pbftInside_modCLPABroker.go:22-46 | in any run two shards outside a round have gone through the same number of rounds |
| Reshardings.StaysOnTrack | consensus_shard/pbft_all/accountTransfermod_Broker.go:183-219 | a shard that performs the announcements of its turns, or those a fixed number ahead, goes on so as long as none overtakes its round, and its round counter keeps its distance from its turns |
| ReshardingViews.LeavingRight | consensus_shard/pbft_all/accountTransfermod_Broker.go:61-85 | when all are ready the sender still holds what it sends, and sends an account to the next shard on its way |
| ReshardingViews.NobodyElse | consensus_shard/pbft_all/pbftInside_modCLPABroker.go:23-35 | a shard that executes blocks owns accounts that no other shard holds |
| ReshardingViews.NotUnderway | consensus_shard/pbft_all/pbftInside_modCLPABroker.go:23-35 | and that no message or received table to their next owner contains |
| ReshardingViews.AllArrived | consensus_shard/pbft_all/pbftOutside_modCLPABroker.go:92-107 | a request has an account that comes to the shard in the round, with its state, if and only if it comes from elsewhere |
| ReshardingViews.CommittedRight | consensus_shard/pbft_all/accountTransfermod_Broker.go:201-230 | after the commit an account that is now here is right, whether it was received, was here before, or came back |
| ReshardingViews.NextOnWay | consensus_shard/pbft_all/accountTransfermod_Broker.go:59-230 | in any run an account stays placed, held and carried along one way of shards in every step in which the shard that sends keeps to that way |
| ReshardingViews.NormalReads | consensus_shard/pbft_all/pbftInside_modCLPABroker.go:22-46 | and a shard outside a round that owns it reads the truth, and is the only such shard |
| ReshardingViews.RunOnWay | consensus_shard/pbft_all/pbftInside_modCLPABroker.go:22-46 | in every run in which no announcement reaches a shard in the middle of a round every account goes the way of the announcements |
| ReshardingViews.OwnerReadsTruth | consensus_shard/pbft_all/accountTransfermod_Broker.go:59-85 | in such a run a shard outside a round reads each account it owns, brokers aside, as in a ledger without migrations, after any number of rounds with any maps, and no other such shard owns it |
| ReshardingViews.TruthIsOneLedger | chain/blockchain.go:80-163 | a block without brokers changes that ledger's balances as executing it on one ledger would |
| ReshardingViews.ViewPreserved | consensus_shard/pbft_all/accountTransfermod_Broker.go:165-230 | an account no transaction touches reads the same at its owner before and at its owner after, over any rounds, also when it moves back |
| ReshardingViews.SettledOwner | chain/blockchain.go:65-72 | between rounds each account has exactly one owner, the announced one |
| ReshardingViews.WaitingIsCalm | supervisor/committee/committee_clpa.go:265-317 | a supervisor that announces only when all shards have finished all earlier rounds, as this one does, never overtakes a round of the waiting migration, which the repository does not run under it |
| Overtakings.OwnerReadsTruthSoFar | supervisor/committee/committee_clpa_broker.go:189-199 | under the supervisor that advances on any shard's report, until an announcement overtakes a round, owners outside a round read what a ledger without migrations has |
| Overtakings.FirstOvertaking | supervisor/committee/committee_clpa_broker.go:257-261 | the first announcement that overtakes a round reaches a shard that has sent its accounts and not yet committed, and follows the open round's own; every other shard has got that far too, or has closed the round and not sent for the next |
| Overtakings.StaysOpen | supervisor/committee/committee_clpa_broker.go:241-246 | so does every other shard that it reaches before that shard has committed |
| Overtakings.CalmIsUpToDate | consensus_shard/pbft_all/pbftOutside_modCLPABroker.go:62-71 | until then every shard with no round open places every account where the announcements it received do |
| Overtakings.ClosedNode | consensus_shard/pbft_all/accountTransfermod_Broker.go:201-230 | the commit of an overtaken round applies the round's own map, ends the waiting, and leaves a round counter past every announcement that came before the request was made; one that came after it is left to the next round |
| Overtakings.OvertakenExactly | consensus_shard/pbft_all/accountTransfermod_Broker.go:187-223 | in every run, when an overtaken shard has closed its round its placements are those announced if and only if the announcements that came meanwhile change no owner; for a single one, if and only if it puts every account it names where the account is |
| Overtakings.WrongForGood | consensus_shard/pbft_all/accountTransfermod_Broker.go:216-223 | a shard that places an account wrongly with no map for it left in its record does so until an announcement names the account again |
| Overtakings.SkippedForGood | consensus_shard/pbft_all/accountTransfermod_Broker.go:216-223 | so an announcement that came while the shard was collecting is never made up for |
| Overtakings.NextCommit | consensus_shard/pbft_all/accountTransfermod_Broker.go:182-215 | a shard that closes a round with a map for the next one in its record applies that map in its next commit, however many announcements come before it |
| Overtakings.OneBehind | consensus_shard/pbft_all/accountTransfermod_Broker.go:182-219 | in every run a shard overtaken while its request was in consensus applies the announcement in its next round and skips those that have begun that round: its placements are then those announced if and only if the skipped ones change no owner, and it is one announcement ahead if it skipped one |
| Overtakings.OneAhead | consensus_shard/pbft_all/accountTransfermod_Broker.go:182-219 | a shard that skipped one announcement while collecting sends by and applies, in each later turn, the announcement after that turn's own, until it is overtaken again |
| Overtakings.CountersApart | consensus_shard/pbft_all/accountTransfermod_Broker.go:215 | and its round counter is one more than that of a shard never overtaken whenever they have gone through as many rounds, which they have when both are outside a round |
| Exchanges.NothingSent | consensus_shard/pbft_all/accountTransfermod_Broker.go:158-175 | when all shards have gone through as many rounds and none has sent for the next, no message with accounts is under way and nothing is kept of an earlier round |
| Exchanges.NeverSent | consensus_shard/pbft_all/accountTransfermod_Broker.go:201-215 | in one exchange of any run, a shard that the account's owner does not send it to goes on with its own old copy, as long as no transaction touches the account |
| Exchanges.ExchangeExactly | consensus_shard/pbft_all/accountTransfermod_Broker.go:59-230 | one exchange of any run, whatever overtakes, at whose beginning the account has one owner that reads the truth: the one owner at its end reads the truth if the old owner is it or has sent the account to it; untouched by transactions, if and only if that, or its old copy is the truth already |
| ShardsAhead.OneOwnerExactly | chain/blockchain.go:65-72 | when a round begins an account has exactly one owner if and only if the announcement of the turn, performed by the shards ahead and not yet by the others, moves it between shards equally far ahead; and which one |
| ShardsAhead.LevelReads | consensus_shard/pbft_all/accountTransfermod_Broker.go:59-230 | while no announcement overtakes and all move the account between shards equally far ahead, at any moment a shard outside a round that owns it reads the truth, and is the only one |
| ShardsAhead.BeginsBetween | consensus_shard/pbft_all/pbftInside_modCLPABroker.go:22-35 | every run goes from round to round through moments at which all shards have ended the one and none has sent for the next |
| ShardsAhead.ViewExactly | supervisor/committee/committee_clpa_broker.go:187-199 | while no announcement overtakes, an account has one owner that reads the truth at the beginning of every round if and only if every announcement of these turns that moves it does so between shards equally far ahead |
| AfterOvertakings.WaveReads | consensus_shard/pbft_all/accountTransfermod_Broker.go:201-230 | when the first overtaken round has ended every account is still read right, where the announcements before the overtaking one put it |
| AfterOvertakings.WholeRunExactly | supervisor/committee/committee_clpa_broker.go:187-199 | in every run in which none overtakes after the first overtaken round has ended, for an account that the skipped announcement leaves where it is: it has one owner that reads the truth at the beginning of every later round if and only if every later announcement moves it between shards equally far ahead |
| AfterOvertakings.LaterExactly | supervisor/committee/committee_clpa_broker.go:187-199 | the same from the beginning of any later round on, however many rounds have been overtaken before it and in whatever state, for an account that nothing has moved since the first |
| AfterOvertakings.SkippedMove | consensus_shard/pbft_all/accountTransfermod_Broker.go:201-230 | for one that the skipped announcement moves, and the next does not name: after the next round it has one owner that reads the truth if and only if it was to move between shards equally far ahead |
| AfterOvertakings.ReadableExactly | consensus_shard/pbft_all/accountTransfermod_Broker.go:61-85 | an account that its only owner gives up to a shard by one announcement is readable there after the exchange if and only if the announcement that shard performs puts it there too; if it is the same one, provided no third shard puts it on itself |
| AfterOvertakings.UnmovedReadsTruth | supervisor/committee/committee_clpa_broker.go:187-199 | an account that no announcement from the first overtaking one on moves has its one owner outside rounds, which reads the truth, in every run, however many rounds are overtaken |
| OvertakingRuns.TwoOwners | supervisor/committee/committee_clpa_broker.go:189-199 | a run of two shards under that supervisor, after which no round is open, an account has two owners, and one of them reads the initial state instead of the account's |
| OvertakingRuns.AccountLost | supervisor/committee/committee_clpa_broker.go:189-199 | a run in which the one overtaking announcement is empty and none overtakes later, after which both shards place an account as announced, its one owner reads the initial state instead of the account's, and in between it had no owner |
| QueuedShards.SplitFits | consensus_shard/pbft_all/accountTransfermod_Broker.go:86-142 | a shard's queue split by its round: what stays and what goes along belong where they then are |
| QueuedShards.InjectExactly | consensus_shard/pbft_all/pbftOutside_modCLPABroker.go:50-58 | all queues, and all transactions under way, stay in place under an injection if and only if it is routed by the map its shard's queue is for |
| QueuedShards.DealtFits | supervisor/committee/committee_clpa_broker.go:308-334 | what the supervisor makes of a client's transaction, flags included, belongs to the shard it sends it to, under the map it deals by |
| QueuedShards.SecondFits | supervisor/committee/committee_clpa_broker.go:410-433 | and so does the second half that follows a reported first half, under the map it deals by then |
| QueuedShards.NeverPanics | consensus_shard/pbft_all/pbftInside_modCLPABroker.go:101-135 | in every run with such injections and without overtaking, each block a shard can take from its queue passes the checks of the commit phase and touches no account of another shard but brokers |
| QueuedShards.EarlyHalfPanics | supervisor/committee/committee_clpa_broker.go:121-138 | a transaction routed by the announced map that reaches its shard before the round makes the checks fail |
| QueueConservation.JoinedCopies | consensus_shard/pbft_all/accountTransfermod_Broker.go:165-175 | for every order of the senders, the queue gains each copy that has come along, once |
| QueueConservation.AlongsWhole | consensus_shard/pbft_all/accountTransfermod_Broker.go:165-175 | the transactions of each message join in one piece, in their order, behind what was queued |
| QueueConservation.StepBalanced | consensus_shard/pbft_all/accountTransfermod_Broker.go:59-230 | in each step of the shards, the copies of a transaction before and those that come are those after and those that go |
| QueueConservation.EveryCopyKept | consensus_shard/pbft_all/accountTransfermod_Broker.go:59-230 | in every run, whatever announcements overtake and however injections are routed, each copy that has reached a queue has been executed, has gone back to the supervisor as cross-shard, or is queued, waits with received accounts, or travels with accounts, in one place |
| MigrationNodes.FiledIsTable | chain/blockchain.go:312-340 | filing parallel lists one by one is filing them as a table |
| MigrationNodes.FollowerAgrees | consensus_shard/pbft_all/accountTransfermod_Broker.go:212-219 | a follower without this round's announcement ends with the leader's state, map and record |
| MigrationNodes.JoinedGainsAll | consensus_shard/pbft_all/accountTransfermod_Broker.go:165-175 | joining what has come along, message by message in any order, adds to the queue exactly the copies the messages hold, each message's transactions in one piece |
| MigrationNodes.MigrationNode.HandlePartitionMsg | consensus_shard/pbft_all/pbftOutside_modCLPABroker.go:62-71 | the announcement step |
| MigrationNodes.MigrationNode.SendPartitionReady | consensus_shard/pbft_all/accountTransfermod_Broker.go:18-38 | the step that stops the leader: the own flag is set and every other leader is sent the sequence number |
| MigrationNodes.MigrationNode.HandlePartitionReady | consensus_shard/pbft_all/pbftOutside_modCLPABroker.go:74-89 | one more ready flag and sequence number |
| MigrationNodes.MigrationNode.HandleSeqIDinfos | consensus_shard/pbft_all/pbftOutside_modCLPABroker.go:37-48 | the last sequence number reported by a shard |
| MigrationNodes.MigrationNode.GetPartitionReady | consensus_shard/pbft_all/accountTransfermod_Broker.go:41-56 | ready if and only if there is a flag from every shard and, for every shard that has reported a block, it was ready with the sequence number after it |
| MigrationNodes.MigrationNode.HandleAccountStateAndTxMsg | consensus_shard/pbft_all/pbftOutside_modCLPABroker.go:92-107 | the collecting step, of the accounts and of the transactions that come with them |
| MigrationNodes.MigrationNode.AccountsToFetch | consensus_shard/pbft_all/accountTransfermod_Broker.go:61-69 | for every map order exactly the accounts that leave |
| MigrationNodes.MigrationNode.AccountsFor | consensus_shard/pbft_all/accountTransfermod_Broker.go:76-85 | the accounts for one shard with their states |
| MigrationNodes.MigrationNode.SendAccountsAndTxs | consensus_shard/pbft_all/accountTransfermod_Broker.go:59-155 | each message carries the accounts and the queued transactions that the step systems send, the queue keeps what theirs keeps, and the rest is reported |
| MigrationNodes.MigrationNode.ProposePartition | consensus_shard/pbft_all/accountTransfermod_Broker.go:165-198 | the step that makes the request, for every order: the current round's map, the merged accounts, the number of maps; the queue keeps what it had and gains, behind it, the transactions of every received message in one piece and in their order, with as many copies as the messages hold, and nothing else |
| MigrationNodes.MigrationNode.AccountTransferDo | consensus_shard/pbft_all/accountTransfermod_Broker.go:201-230 | the commit step: placements apply, accounts are filed, the record is reset, the messages with it, and, if its number of maps is not the request's, extended; the chain stays linked |
| Pbfts.PbftNode.constructor | consensus_shard/pbft_all/pbft.go:88-185 | a node starts one past its chain, in stage 1, with nothing voted |
| Pbfts.PbftNode.Set2DMap | consensus_shard/pbft_all/toolFuncs.go:22-34 | one more vote in one of the two tables |
| Pbfts.PbftNode.Propose | consensus_shard/pbft_all/messageHandle.go:148-172 | lock, store, and send with the current sequence number |
| Pbfts.PbftNode.HandlePrePrepare | consensus_shard/pbft_all/messageHandle.go:185-241 | the specified handler, branch by branch |
| Pbfts.PbftNode.HandlePrepare | consensus_shard/pbft_all/messageHandle.go:246-303 | the specified handler; the commit is broadcast if and only if the request is known, has the node's number, is not broadcast yet, and has 2f+1 votes with this one, for the f with 3f+1 <= N < 3f+4 |
| Pbfts.PbftNode.HandleInCommit | consensus_shard/pbft_all/pbftInside_module.go:55-60 | the block goes on the chain if it fits |
| Pbfts.PbftNode.HandleCommit | consensus_shard/pbft_all/messageHandle.go:308-378 | the specified handler; the node executes or asks if and only if the number is not below its own, there is no reply yet, and there are 2f+1 votes with this one; a leader releases the lock whenever it executes or asks |
| PbftSafety.PlaceOfParent | chain/blockchain.go:300-304 | a valid parent hash tells the place in the chain |
| PbftSafety.ExtendedByNext | chain/blockchain.go:229-249 | a node's chain takes a proposal exactly when it is the next one; whatever is executed early is refused |
| PbftSafety.CommitLeader | consensus_shard/pbft_all/messageHandle.go:366-376 | the leader executes only its outstanding proposal, with the lock held |
| PbftSafety.AfterInv | consensus_shard/pbft_all/messageHandle.go:185-378 | every step of every node keeps the invariant, watchdog resets included |
| PbftTheorems.PrefixComparable | consensus_shard/pbft_all/messageHandle.go:308-378 | in every run any two nodes' chains agree as far as both go |
| PbftTheorems.ExecutesEachOnce | consensus_shard/pbft_all/messageHandle.go:335-367 | no node executes a digest twice |
| PbftQuorums.CommitCertificate | consensus_shard/pbft_all/messageHandle.go:276-367 | when a node has executed a digest, 2f+1 different nodes have broadcast its commit, for the f with 3f+1 <= N < 3f+4, each holding the prepares of 2f+1 different nodes, all of which validated it on top of the same earlier blocks |
| PbftQuorums.ActsOnQuorum | consensus_shard/pbft_all/messageHandle.go:276-367 | in every run a node has broadcast its commit for a digest exactly when it holds prepares of 2f+1 different nodes, and has replied to it exactly when it holds commits of 2f+1 different nodes |
| PbftQuorums.PrepareThatActs | consensus_shard/pbft_all/messageHandle.go:276-301 | in every run a prepare makes its receiver broadcast its commit if and only if the receiver has the request, waits for its number, and has prepares of exactly 2f other nodes: the (2f+1)-th distinct vote, no earlier and no later one |
| PbftQuorums.CommitThatActs | consensus_shard/pbft_all/messageHandle.go:327-367 | the same for a commit, which makes its receiver execute the request or, if it does not have it, ask |
| PbftQuorums.QuorumsMeet | consensus_shard/pbft_all/pbft.go:121-121 | 2f+1 is at most N-f; two sets of 2f+1 of N nodes share at least 4f+2-N nodes, which for N = 3f+1 is f+1 |
| PbftQuorums.ExecutionsShareCommitters | consensus_shard/pbft_all/messageHandle.go:327-367 | so with 3f+1 nodes, for any two executions in a run, f+1 nodes have broadcast their commits for both |
| PbftTheorems.RepeatsMakeQuorum | consensus_shard/pbft_all/toolFuncs.go:22-34 | votes are counted per message: one sender's repeated message would make a quorum, which is why each is delivered at most once |
| PbftTheorems.LockedWhileOutstanding | consensus_shard/pbft_all/messageHandle.go:148-172 | the sequence lock is held exactly while one proposal is outstanding |
| PbftTheorems.NeverUnlockedFree | consensus_shard/pbft_all/messageHandle.go:372-376 | the leader never releases a free lock |
| PbftTheorems.OneProposalPerNumber | consensus_shard/pbft_all/messageHandle.go:158-163 | no two proposals share a sequence number |
| PbftTheorems.StaysInStep | consensus_shard/pbft_all/messageHandle.go:319-367 | a node in step that executes stays in step if and only if the commit carries its own sequence number |
| PbftTheorems.StalledForGood | consensus_shard/pbft_all/messageHandle.go:361-367 | a node out of step never adds a block again |
| PbftTheorems.FallsBehind | consensus_shard/pbft_all/messageHandle.go:319-367 | it happens: a run of two nodes in which one executes the second block, does not have it on its chain, and is out of step |
| BrokerCommittees.DealNext | supervisor/committee/committee_broker.go:184-208 | dealing with a list is dealing with its transactions one by one |
| BrokerCommittees.BrokerCommittee.IsBroker | broker/broker.go:25-32 | membership in the broker list |
| BrokerCommittees.BrokerCommittee.DealTxByBroker | supervisor/committee/committee_broker.go:184-208 | a first half for each cross-shard transaction without brokers, the others flagged and passed through, in order |
| BrokerCommittees.BrokerCommittee.HandleBrokerRawMag | supervisor/committee/committee_broker.go:210-281 | raw messages, first halves and the confirm pool |
| BrokerCommittees.BrokerCommittee.CreateConfirm | supervisor/committee/committee_broker.go:161-182 | a report leads to the second halves of the awaited first halves, and notes what is committed |
| BrokerCommittees.BrokerCommittee.HandleTx1ConfirmMag | supervisor/committee/committee_broker.go:232-305 | one second half for each awaited first half |
| BrokerCommittees.BrokerCommittee.HandleTx2ConfirmMag | supervisor/committee/committee_broker.go:307-323 | second halves are noted as committed, and the number returned is that of the raw transactions whose entries have become two |
| BrokerCommittees.BrokerCommittee.TxSending | supervisor/committee/committee_broker.go:72-105 | sending in batches loses nothing: each shard gets what is bound for it, in order |
| BrokerLedgers.Classify | consensus_shard/pbft_all/pbftInside_moduleBroker.go:67-84 | a committed body in three lists |
| BrokerLedgers.RunPlaced | supervisor/committee/committee_broker.go:184-253 | in every run each transaction is of its kind and where it belongs, and the supervisor remembers every half |
| BrokerLedgers.ProposeTakesOldest | core/txpool.go:56-66 | a block is the oldest part of the queue, as large as the block size or all of it |
| BrokerLedgers.FirstInFirstOut | core/txpool.go:36-66 | in every run each shard packs into its blocks what has reached its queue, in the order in which it came |
| BrokerConservation.ExecBroker | chain/blockchain.go:96-143 | a block in which everybody can pay takes no more than its debits from any balance, and changes an account of the shard that is no broker by exactly its debits and credits |
| BrokerConservation.NextAccounted | supervisor/committee/committee_broker.go:72-105 | each step keeps: sent = done + on the way + held, as multisets |
| BrokerConservation.ConfirmsFollow | supervisor/committee/committee_broker.go:232-253 | second halves credit what their first halves are for and debit nobody but brokers |
| BrokerTheorems.RunReports | consensus_shard/pbft_all/pbftInside_moduleBroker.go:67-84 | in every run each committed first half is being reported or has its second half issued, once |
| BrokerTheorems.SecondsOnce | supervisor/committee/committee_broker.go:232-305 | in every run the second halves sent are one for one those of confirmed first halves, all of which are committed, and no first half is confirmed twice |
| BrokerTheorems.DebitBound | chain/blockchain.go:107-121 | nobody, broker or not, is debited more than all injected values together |
| BrokerTheorems.NobodyShort | chain/blockchain.go:114-117 | so in a run funded by the initial balance everybody can pay for each proposed block |
| BrokerTheorems.RunBalances | chain/blockchain.go:96-143 | and every account that is no broker holds the initial balance less committed debits plus committed credits |
| BrokerTheorems.FinishedBalance | supervisor/committee/committee_broker.go:161-253 | when all is finished, those are the debits and credits injected |
| BrokerTheorems.FinishedEqualsSequential | query/resultcheck_test.go:17-51 | and equal the sequential ledger, in any order |
| BrokerProgress.StepWorks | supervisor/committee/committee_broker.go:148-182 | each delivery, block and report that is not empty, and each commit, leaves less work, though a reported first half leads to a second half |
| BrokerProgress.NeverStuck | supervisor/committee/committee_broker.go:148-182 | as long as anything is under way, queued, proposed or to be reported, such a step can be taken |
| BrokerProgress.EveryRunFinishes | supervisor/committee/committee_broker.go:148-253 | from the state after any run, finitely many blocks, deliveries and reports, without an injection, lead to a finished state |
| BrokerProgress.EveryRunAgrees | query/resultcheck_test.go:17-51 | so every funded run can be continued without injections to a state in which each account that is no broker has what the sequential ledger gives |
| BrokerTheorems.HalvesConserve | chain/blockchain.go:114-117 | without funding: the value is created exactly when the first half is short, and lost exactly when the second half is sent to the broker's own shard and the broker is short there |
| BrokerFinishes.FirstsNoted | supervisor/committee/committee_broker.go:283-299 | a report adds one entry to a raw transaction for each of its awaited first halves |
| BrokerFinishes.TwoEntries | supervisor/committee/committee_broker.go:307-323 | in every run a raw transaction injected once has at most two entries, and two if and only if both its halves are committed and reported |

## Left out

- The view change, and everything about more than one view: the new-view message does not carry what was voted on.
- The catch-up path after a node has asked for old requests; only the branch that marks the digest as replied to and
  asks is modelled, so a second question, which would wait for the first answer, is not held back.
- Partition requests inside the consensus model: it is stated for block requests, and re-sharding has its own model.
- The re-sharding variant that does not wait for collection (pbftInside_moduleCLPA.go) and lets mismatched
  transactions pass: it gives up the routing that the ledger theorems need.
- Byzantine nodes: the handlers do not refuse a second pre-prepare for a sequence number, so that agreement rests on
  the leader's one outstanding proposal, which is proved.
- Liveness beyond the two ledgers: that rounds of re-sharding end, that stages advance, that a late
  `pbftStage.Store(2)` does not block a round. Of the ledgers it is proved that any state can be worked off, not that
  a scheduler does so.
- The score formula `getShard_score`: scores are an arbitrary table of reals per iteration, vertex and shard, so that
  the results do not depend on it, nor on rounding.
- The Python agent: its answer is an arbitrary list of moves whose shards are in range, since an index out of range
  panics; a failed call, which returns no map, is not modelled.
- Aeros.Ratios: the ratios are reals.
- ShardsAhead.ViewExactly: is for shards at most one announcement ahead of others, as one overtaken round leaves them;
  of shards further apart, and of rounds overtaken later, `ExchangeExactly` and `UnmovedReadsTruth` speak.
- Machine integers: values, balances, counters and sequence numbers do not wrap around.
- The parse panic of `Addr2Shard` and the last-digit initial partitions `Init_Partition` and `Stable_Init_Partition`.
- `RelayWithProofSend`, `handleRelayWithProof` and Merkle proof contents: proofs are known by the root they lead to.
- `PackTxsWithBytes`, the functions marked as aborted in the transaction pool, `DeleteElementsInList`, `CopyCLPA`.
- The relay of an injected transaction inside a shard, and the replicas of a shard: in the ledger models an injected
  transaction is in its shard's queue at once and a shard is one replica; agreement inside a shard is proved on its own.
- Metrics, logs, timing, rate limits, TCP, the dataset reader, block information lists other than the broker halves.
- The supervisor's batches in broker mode reach the step system one transaction at a time; `TxSending` shows that
  batching loses and reorders nothing.
- Migrating the balance of a broker: each shard keeps its own copy of a broker account, and the re-sharding theorems
  are about the other accounts.
