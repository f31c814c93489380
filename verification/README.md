# ev-node, modelled in Dafny

ev-node is a rollup node: it builds blocks on an execution layer, keeps them in a key-value store, submits them to a
data availability (DA) layer, and hands the producing role from node to node through raft. This project models the
parts whose correctness is about whole runs (crashes, rollbacks, role switches, caches) and proves what those runs
keep.

Each module follows one component:

- `ExecutionLayer`, `EngineSpec`, `EngineClient`: the EVM engine client. The execution layer is a tree of blocks with
  a canonical head, as the Engine API describes it (PayloadStatusV1 of the Paris specification,
  engine_forkchoiceUpdatedV3 of the Cancun specification); every remote call can be answered, refused, lost before it
  arrives or lost after it took effect. `EngineSpec` is the state machine, `EngineClient` is the object with its
  fields, proved to do exactly what the state machine says. `EngineSafety`, `EngineAnswers`, `EngineRecovery`,
  `EngineRecords` and `EngineCounterexamples` hold the theorems.
- `FilterTxs`: the greedy transaction filter with its 64-bit counters.
- `BlockStore`, `CachedStore`, `MetadataWriter`, `HeightSub`, `LittleEndian`: the store, its LRU layer, its background
  writer, its height subscription and its height codec.
- `PendingBase`, `InclusionCache`: pending DA submissions and the DA-inclusion cache.
- `ProtoWire`, `LegacyCodec`, `SigningPayload`: the legacy header fields and the legacy signing payload, over the wire
  format of the Protocol Buffers Encoding guide ("Base 128 Varints", "Length-Delimited Records", "Last One Wins").
- `Epoch`, `ForcedInclusion`: epoch arithmetic and forced inclusion.
- `Election`, `RaftFSM`, `Replay`, `ChainState`: the election loop, the replicated block state, the replay of stored
  blocks, and header validation.
- `Common`: `Option`, `Result` and `uint64`.

Hashes are collision free: a block stands for its own hash, a signed header blob for its SHA-256. Time, randomness,
the network and the order in which a map is walked are parameters or nondeterministic choices. The execution layer
applies a fork choice to an ancestor of its head, as Rollback needs it; the Paris specification lets it skip such an
update. 64-bit arithmetic is written out wherever it can wrap.

## What the code does not keep

Some promises hold only under a condition. Each comes with a lemma at a failing input and with the condition, exact
unless said otherwise.

- Finalized stays at or below safe. Promoting block N keeps the order if and only if a safe label that moves alone, to
  N-2, does not move below finalized, and a finalized label that moves alone, to N-3, does not move above safe
  (`EngineSafety.FinalizedBelowSafe`). Safe moves alone at block 3 (`EngineCounterexamples.BlockThreeReordersLabels`),
  and either label moves alone when the other's look-up fails (`EngineCounterexamples.LostLookupReordersLabels`).
- A recorded payload is resumed without looking at its parent, which the record does not hold. For every outcome of
  the calls and every operation that follows, the labels and the cache stay on the head's chain if and only if the
  payload's block does not fork from the served chain and its cached and remaining labelled ancestors are its own, or
  the execution layer does not know the parent (`EngineSafety.ResumeExact`,
  `EngineCounterexamples.StaleParentBreaks`). Up to one height above the served head that is: the parent is served at
  N-1 and no other block at N (`EngineSafety.FitsExactly`). Further up the parent need not be served
  (`EngineCounterexamples.UnservedParentResumes`).
- The recorded transaction hash does not hold where one transaction ends (`EngineCounterexamples.ResplitResumes`). The
  bytes tell it if and only if no transaction is a proper prefix of another (`EngineRecords.BoundariesExact`), as with
  encoded Ethereum transactions; then the hash identifies the list (`EngineRecords.SameTxHash`) and a resumed payload
  is the requested one (`EngineRecords.ResumedIsRequested`). That the hash identifies lists of some other sets of byte
  strings is not excluded.
- SetFinal above the head takes the labels off the head's chain, and ExecuteTxs below a label does so if and only if
  it reuses a block (`EngineSafety.FinalizeExact`, `EngineSafety.ExecuteExact`,
  `EngineCounterexamples.ReuseBelowLabels`). After a restart the head is genesis until the first block, and every
  served SetFinal above 0 is such a call (`EngineCounterexamples.FinalizeAfterRestart`).
- The gas budget holds on all inputs if and only if the limit is below 2^63 or the byte limit has no room for two of
  the shortest transactions (`FilterTxs.GasBudgetExact`, `FilterTxs.GasWraps`), the byte budget if and only if the
  limit is at most 2^63 (`FilterTxs.ByteBudgetExact`, `FilterTxs.BytesWrap`).
- The boundaries of an epoch enclose its heights if and only if its end fits into 64 bits (`Epoch.BoundariesEnclose`,
  `Epoch.LastEpochOverflows`). An epoch size of zero delivers the start height only (`ForcedInclusion.ZeroEpochSize`),
  while the comment on the function speaks of one epoch for everything. The cleanup never drops a height of the epoch
  being assembled if and only if the epoch size is below 2^63 or 2^64 - 1 (`ForcedInclusion.CleanupExact`).
- Legacy fields read back if and only if none is longer than 1024 bytes (`LegacyCodec.LegacyRoundTrip`,
  `LegacyCodec.LongHashIsLost`).
- After a run the kept states are exactly those above the state-prune marker if and only if every block committed at
  or below the marker has been rolled back: Rollback does not lower the marker (`BlockStore.StatesStayExact`,
  `BlockStore.StateIsNeverPruned`).
- A stored app hash survives a replay with every executor if and only if the stored state can be read, or something
  else stops the replay (`Replay.UnreadStateExact`, `Replay.UnreadStateIsReplaced`). A replayed state carries the DA
  height of the state below the first one, or 0 from genesis, over whatever was stored
  (`Replay.ReplayCarriesDAHeight`, `Replay.DAHeightIsLost`). A replay gets past the executor's height if and only if
  the state of that height is stored or the next block is the first one (`Replay.PastExecutorExact`); so a block
  executed without its state being committed stops every later replay from below, until the executor is rolled back
  (`Replay.LostCommitStops`, `Replay.FailedCommitIsFinal`).

## Model

| member | source | states |
|---|---|---|
| `EngineSafety.RunSafe` | execution/evm/execution.go:352-557 | Over every run of ExecuteTxs, SetFinal, Rollback, restarts and lost payload caches, with calls failing anywhere, safe and finalized name the head or an ancestor of it, and every cached hash at or below the head is on the head's chain |
| `EngineSafety.StepKeeps` | execution/evm/execution.go:352-458 | Every single admissible operation keeps the labels and the cache on the head's chain, for every way its calls can end, also while the client is ahead of the served head |
| `EngineSafety.ExecuteKeeps` | execution/evm/execution.go:352-458 | ExecuteTxs at the head or next height keeps the invariant |
| `EngineSafety.ReconcileKeeps` | execution/evm/execution.go:745-871 | Reuse of a promoted or existing block, and resume, keep the invariant |
| `EngineSafety.ProcessPayloadKeeps` | execution/evm/execution.go:1040-1092 | Fetching, submitting and promoting a payload built on a served parent keeps the invariant |
| `EngineSafety.SetHeadKeeps` | execution/evm/execution.go:462-474 | Moving the head up the served chain keeps labels and cache on it |
| `EngineSafety.PromoteLabelsFit` | execution/evm/execution.go:486-557 | The lagging labels, read from the cache or the execution layer, are ancestors of the new block and of the served head |
| `EngineSafety.SetFinalKeeps` | execution/evm/execution.go:596-616 | SetFinal at or below the head keeps the invariant |
| `EngineSafety.RollbackKeeps` | execution/evm/execution.go:1189-1224 | Rollback keeps the invariant although it does not clear the hash cache |
| `EngineSafety.CachePutOn` | execution/evm/execution.go:676-696 | Adding a hash of the head's chain, with the eviction it causes, leaves only hashes of that chain |
| `EngineSafety.BlockSetsLabels` | execution/evm/execution.go:486-557 | A new block N > 3 whose two look-ups find a hash leaves head N, safe N-2 and finalized N-3 of the new block's chain |
| `EngineSafety.LabelsLand` | execution/evm/execution.go:486-557 | Each label moves to its lagging ancestor if its look-up finds a hash, and stays otherwise |
| `EngineSafety.FinalizedBelowSafe` | execution/evm/execution.go:486-557 | Whatever the look-ups answer, promotion keeps finalized at or below safe if and only if a label that moves alone does not cross the other |
| `EngineSafety.ResumeExact` | execution/evm/execution.go:792-822 | At any height, for every outcome of a resumed record and every admissible operation after it, labels and cache stay on the head's chain if and only if the payload fits (no fork from the served chain, own ancestors in cache and labels) or its parent is unknown |
| `EngineSafety.FitsExactly` | execution/evm/execution.go:792-822 | Up to one above the served head a payload fits if and only if its parent is served at N-1 and no other block at N; at or above the head the labels always fit |
| `EngineSafety.ResumeKeeps` | execution/evm/execution.go:1040-1092 | Processing a payload that fits keeps the invariant, or leaves the client ahead of the served head with labels and cache on its own head's chain |
| `EngineSafety.OffChainBreaks` | execution/evm/execution.go:792-822 | A forking payload, its promotion not applied, is followed by a SetFinal that takes the labels off the head's chain |
| `EngineSafety.OffCacheBreaks` | execution/evm/execution.go:792-822 | A payload with a foreign cached or labelled ancestor takes the cache or the labels off the head's chain |
| `EngineSafety.FinalizeExact` | execution/evm/execution.go:596-616 | A served SetFinal leaves the labels on the head's chain if and only if it is not above the head |
| `EngineSafety.ExecuteExact` | execution/evm/execution.go:352-458 | At any height, without a resumed record, the invariant is kept if and only if a reused block is not below a label |
| `EngineCounterexamples.BlockThreeReordersLabels` | execution/evm/execution.go:488-489 | Two blocks, Rollback(2), block 3: all calls admissible and answered, safe at height 1 and finalized at height 2 |
| `EngineCounterexamples.LostLookupReordersLabels` | execution/evm/execution.go:486-557 | Three blocks, a restart, block 4 with the safe look-up failing: all calls admissible, safe at height 0 and finalized at height 1 |
| `EngineCounterexamples.FinalizeAfterRestart` | execution/evm/execution.go:596-616 | SetFinal(1) right after a restart takes the labels above the head |
| `EngineCounterexamples.ReuseBelowLabels` | execution/evm/execution.go:745-871 | Reusing block 1 with both labels at block 2 takes the head below them |
| `EngineCounterexamples.StaleParentBreaks` | execution/evm/execution.go:1138-1147 | A run that resumes a payload on a replaced parent ends with labels and cache off the head's chain |
| `EngineCounterexamples.UnservedParentResumes` | execution/evm/execution.go:792-822 | Block 2 is recorded, block 1 rolled back and rebuilt without its promotion applied, block 2 resumed: all calls admissible, client and execution layer end at block 2 |
| `EngineCounterexamples.ResumeAhead` | execution/evm/execution.go:792-822 | In that run the payload's parent is known and not served when it is resumed |
| `EngineRecords.SameTxHash` | execution/evm/execution.go:1163-1174 | For non-empty transactions none of which is a proper prefix of another, two lists have one recorded hash if and only if they are equal |
| `EngineRecords.BoundariesExact` | execution/evm/execution.go:1163-1174 | The concatenated bytes tell where each transaction ends, whatever follows, if and only if none is a proper prefix of another |
| `EngineRecords.RunRecords` | execution/evm/execution.go:1138-1161 | Over every run each started record belongs to a list of transactions that was executed |
| `EngineRecords.ResumedIsRequested` | execution/evm/execution.go:794-812 | With such transactions and the record on the served parent, a payload that is resumed is the requested one |
| `EngineRecords.RecoveryAfterAnyRun` | execution/evm/execution.go:352-458 | After any admissible run over such transactions, recovery from any history of failures ends with the one requested block and its root |
| `EngineCounterexamples.ResplitResumes` | execution/evm/execution.go:794-812 | A record made for one split of bytes is resumed for another split and answers the first block's root; the strings are prefixes of each other, unlike encoded transactions |
| `EngineRecovery.AttemptIsBlock` | execution/evm/execution.go:352-458 | One attempt with any failures adds no block but the requested one and answers only its root |
| `EngineRecovery.RetryIsOneBlock` | execution/evm/execution.go:745-871 | Any number of attempts, crashes and lost payloads leave the execution layer at the parent or at the one requested block, without siblings |
| `EngineRecovery.CleanAttemptAnswers` | execution/evm/execution.go:352-458 | From every state a recovery can be in, one attempt without failures answers the block's state root |
| `EngineRecovery.RecoveryEndsWithTheBlock` | execution/evm/execution.go:352-458 | From N-1 without a foreign record, any history of failures followed by one clean attempt ends with the same single block at N as head and its root as answer |
| `EngineAnswers.CleanCallBuilds` | execution/evm/execution.go:352-458 | A call without faults that finds nothing to reuse, also when another block stands at N and is rolled back to N-1 first, builds the block of the given time and non-empty transactions on the block served at N-1, answers its root, makes it the head on both sides, adds no other block and records it |
| `EngineAnswers.CleanCallReuses` | execution/evm/execution.go:745-871 | A call for a block already served with its time answers that block's root and moves only the head to it; the execution layer follows if and only if no label is above it; no other record changes |
| `EngineAnswers.CleanCallResumes` | execution/evm/execution.go:792-822 | A call that resumes a record that fits answers the recorded payload's root and makes its block the head on both sides |
| `EngineAnswers.SetFinalExact` | execution/evm/execution.go:596-616 | At any height SetFinal moves both labels and nothing else to the served block and succeeds if and only if the fork choice is answered for a known head that is not below it; an unserved height changes nothing and is a success only behind a served head |
| `EngineAnswers.RollbackExact` | execution/evm/execution.go:1189-1224 | Rollback moves head and both labels to the served block and keeps the cache; it succeeds if and only if the fork choice is answered, and an unserved height is an error that changes nothing |
| `EngineAnswers.ProcessShows` | execution/evm/execution.go:1040-1092 | A payload that answers leaves its block as head at its height, cached, and recorded with its time, transactions and root |
| `EngineAnswers.DecisionExactly` | execution/evm/execution.go:745-871 | During a recovery the served block is reused if and only if it can be seen and no record is resumed, and a record is resumed if and only if there is one |
| `EngineAnswers.AttemptAnswersExactly` | execution/evm/execution.go:352-458 | An attempt answers if and only if every call on its way is answered: all for a fresh block, those after the build for a resumed one, none for a reused one, and the proposer query always |
| `EngineAnswers.FilterExact` | execution/evm/execution.go:876-885 | The payload holds exactly the non-empty transactions, in order, and the same bytes |
| `EngineAnswers.CacheBounded` | execution/evm/execution.go:676-696 | The cache holds the new hash, every entry at most nine heights below it and nothing that was not put, and at most ten entries while heights rise |
| `EngineClient.Engine.ExecuteTxs` | execution/evm/execution.go:352-458 | The object's fields, the execution layer and the records change as the state machine says; what a call builds, reuses, resumes and answers is stated by EngineAnswers.CleanCallBuilds, CleanCallReuses, CleanCallResumes and AttemptAnswersExactly |
| `EngineClient.Engine.ExecuteFresh` | execution/evm/execution.go:373-458 | Parent look-up, root check, build and record, as the state machine says |
| `EngineClient.Engine.ReconcileExecutionAtHeight` | execution/evm/execution.go:745-871 | Decision and new state are those of the state machine, whose choice between reuse, resume and a rollback to N-1 is stated by EngineAnswers.CleanCallBuilds and EngineAnswers.DecisionExactly |
| `EngineClient.Engine.ProcessPayload` | execution/evm/execution.go:1040-1092 | Answer and new state are those of the state machine |
| `EngineClient.Engine.SetHeadBlock` | execution/evm/execution.go:462-474 | The fields are set before the call, whatever the call does |
| `EngineClient.Engine.SetFinalAtHeight` | execution/evm/execution.go:486-557 | Both variants of setFinalWithHeight, as the state machine says; where the labels land is stated by EngineSafety.LabelsLand and EngineAnswers.SetFinalExact |
| `EngineClient.Engine.SetFinal` | execution/evm/execution.go:596-616 | Answer and new state are those of the state machine, stated outright by EngineAnswers.SetFinalExact |
| `EngineClient.Engine.Rollback` | execution/evm/execution.go:1189-1224 | Answer and new state are those of the state machine, stated outright by EngineAnswers.RollbackExact |
| `EngineClient.Engine.CacheBlockHash` | execution/evm/execution.go:676-696 | The bounded cache after the put and the eviction loop is the one of the state machine |
| `EngineClient.DropBelow` | execution/evm/execution.go:685-695 | The eviction loop keeps exactly the entries at or above the minimum height |
| `EngineClient.PayloadTransactions` | execution/evm/execution.go:876-885 | The loop gives the non-empty transactions, in order |
| `EngineClient.RetryOnPayloadStatus` | execution/evm/execution.go:110-144 | Success if and only if a valid reply comes within the attempts after only transient replies and no cancellation; otherwise it stops at the first permanent reply or cancellation |
| `FilterTxs.FilterBatch` | execution/evm/execution.go:956-1037 | The loop gives every transaction the status of the reference filter |
| `FilterTxs.FilterOne` | execution/evm/execution.go:963-1034 | One turn of the loop: status and 64-bit counters |
| `FilterTxs.StatusShape` | execution/evm/execution.go:956-1037 | Removal depends on the transaction alone, and the other statuses are OKs followed by Postpones |
| `FilterTxs.AcceptedFit` | execution/evm/execution.go:956-1037 | Accepted transactions fit the byte and gas budgets for limits below 2^63 |
| `FilterTxs.AloneExactly` | execution/evm/execution.go:963-1034 | A transaction alone in a batch is accepted if and only if it is not empty, decodes when forced transactions are present, and is within each limit, the limit itself included; otherwise it is removed |
| `FilterTxs.GreedyExactly` | execution/evm/execution.go:956-1037 | For limits below 2^63 a transaction is accepted if and only if it is not removed and fits together with every transaction before it that is not removed |
| `FilterTxs.GasBudgetExact` | execution/evm/execution.go:1007-1033 | The gas budget holds on every input if and only if the limit is below 2^63 or the byte limit is below two of the shortest transactions |
| `FilterTxs.ByteBudgetExact` | execution/evm/execution.go:1007-1033 | The byte budget holds on every input if and only if the limit is at most 2^63 |
| `FilterTxs.GasWraps` | execution/evm/execution.go:1007-1033 | From 2^63 on two of the shortest transactions with the full gas limit are both accepted |
| `FilterTxs.BytesWrap` | execution/evm/execution.go:1007-1033 | Above 2^63 three transactions that together exceed the byte limit are all accepted |
| `FilterTxs.PartitionFrom` | execution/evm/execution.go:956-1037 | Accepted and postponed together are the transactions not removed, in order |
| `FilterTxs.RefilterAcceptsAll` | execution/evm/execution.go:956-1037 | Filtering the postponed rest again ends, and accepts every transaction that is not removed exactly once, in order, in batches that fit |
| `PendingBase.Drive` | block/internal/cache/pending_base.go:60-112 | Over every run each answer is the items after the last submitted height in order, all of them or the first 200000, errors have a cause, and no height is fetched twice |
| `PendingBase.Pending.GetPending` | block/internal/cache/pending_base.go:60-112 | The items at last+1 to min(store, last+200000), in order; an error if and only if the last height is above the store or a fetch of a height in that window that is not cached fails |
| `PendingBase.Pending.FetchMissing` | block/internal/cache/pending_base.go:84-94 | It fails if and only if a height of the window that is not cached fails; otherwise the whole window is cached afterwards; fetched heights only ascend |
| `PendingBase.Pending.ReadWindow` | block/internal/cache/pending_base.go:96-111 | Every height of the window is found in the cache, and reading them all leaves the recency order as it was |
| `PendingBase.Pending.SetLastSubmittedHeight` | block/internal/cache/pending_base.go:127-141 | The height only moves forward, and the cache stays consistent with the new window |
| `PendingBase.AddKeeps` | block/internal/cache/pending_base.go:84-94 | Adding the next missing height evicts nothing of the window |
| `PendingBase.EvictKeeps` | block/internal/cache/pending_base.go:96-111 | One key over capacity, the oldest key lies at or below the last submitted height |
| `HeightSub.NoWakeupLost` | pkg/store/store_adapter.go:58-151 | In every state of every interleaving a registered waiter whose height is reached has the last store's notify still ahead; channels are closed once, by a SetHeight at or above their height |
| `HeightSub.ReturnsMean` | pkg/store/store_adapter.go:85-110 | A Wait that returns at once does so only if the height was reached at some state before, and a SetHeight past its store has stored its height |
| `HeightSub.HeightWasSet` | pkg/store/store_adapter.go:78-81 | The height is the first one or one that a SetHeight has stored |
| `HeightSub.NoWaiterLeaks` | pkg/store/store_adapter.go:85-136 | In every run each registered waiter belongs to a call that still waits; a woken or cancelled call has left nothing in the table |
| `HeightSub.NoCallIsStuck` | pkg/store/store_adapter.go:58-151 | In every run the call that holds the lock can go on, and when the lock is free so can every call that has not returned, except a Wait whose channel is open |
| `HeightSub.NotifyWakes` | pkg/store/store_adapter.go:139-151 | Once that notify has run, every waiter at or below the height has its channel closed |
| `HeightSub.StepKeeps` | pkg/store/store_adapter.go:78-136 | Every step of storing, registering, notifying and cancelling keeps the invariant |
| `HeightSub.Table.Register` | pkg/store/store_adapter.go:85-110 | The table by height gains exactly this waiter |
| `HeightSub.Table.NotifyAllUpTo` | pkg/store/store_adapter.go:139-151 | Exactly the waiters at or below the height are closed, each once, and removed |
| `HeightSub.Table.RemoveWaiter` | pkg/store/store_adapter.go:113-136 | Exactly the cancelled waiter is removed, also when it is already gone |
| `HeightSub.CloseUpTo` | pkg/store/store_adapter.go:139-151 | The loop over the table closes each channel of the heights up to `h` once and keeps the rest |
| `LittleEndian.RoundTrip` | pkg/store/store.go:476-489 | Bytes decode to a height if and only if they are its eight-byte encoding, lowest byte first |
| `BlockStore.Drive` | pkg/store/store.go:254-453 | After every run of commits, rollbacks and prunings the database is exactly the image of the chain segment (pruned, height], whatever the initial height |
| `BlockStore.IndexOneToOne` | pkg/store/batch.go:63-84 | Every stored height has its index entry, and two heights never share one |
| `BlockStore.DefaultStore.Commit` | pkg/store/batch.go:35-104 | A committed batch is the image of the chain with one block more, a failed one changes nothing |
| `BlockStore.CommitBatch` | pkg/store/batch.go:35-96 | The staged puts are those of SaveBlockData and UpdateState, and of SetHeight if and only if the height rises |
| `BlockStore.DefaultStore.Rollback` | pkg/store/store.go:254-332 | It succeeds if and only if it is allowed and commits; then exactly the shorter segment is left, otherwise nothing changes |
| `BlockStore.StageRollback` | pkg/store/store.go:288-318 | The loop from the top fails if and only if the target is below the pruned height or the first block, and stages exactly the deletes of the heights above the target |
| `BlockStore.StageDAIncluded` | pkg/store/store.go:269-286 | An aggregator refuses to drop finalized blocks, other nodes lower the DA-included height |
| `BlockStore.RollbackPromise` | pkg/store/store.go:254-332 | The remaining blocks and states are exactly the old ones up to the height, not below the pruned height; the DA-included height changes only where it was above, and is then the height itself |
| `BlockStore.RollbackRefusedExactly` | pkg/store/store.go:254-332 | A rollback is allowed if and only if it drops something, every dropped header is on disk, and for an aggregator the DA-included height is not among the dropped ones |
| `BlockStore.RollbackUndoesCommit` | pkg/store/store.go:254-332 | Rolling the commit of the next height back gives the chain before it |
| `BlockStore.DefaultStore.PruneBlocks` | pkg/store/store.go:340-417 | The segment then starts above the height, the DA heights recorded for the removed blocks are gone and no other metadata, and a repeated or failed pruning changes nothing |
| `BlockStore.PruneDropsDAHeights` | pkg/store/store.go:387-397 | The staged deletes remove the DA heights of exactly the removed blocks and no other metadata |
| `BlockStore.StagePrune` | pkg/store/store.go:357-405 | The loop stages the deletes of exactly the stored heights in (lastPruned, height] |
| `BlockStore.DefaultStore.PruneStates` | pkg/store/store.go:423-453 | Exactly the states up to the height are gone |
| `BlockStore.StageStates` | pkg/store/store.go:423-453 | The loop stages the deletes of exactly the state heights in (lastPruned, height] |
| `BlockStore.StatesStayExact` | pkg/store/store.go:423-453 | After every run the kept states are exactly those above the marker if and only if every block committed at or below it has been rolled back |
| `BlockStore.StateIsNeverPruned` | pkg/store/store.go:254-332 | Two blocks, PruneStates(2), Rollback(1), block 2: a state below the marker stays, and survives any later PruneStates |
| `BlockStore.LateStateStays` | pkg/store/store.go:423-453 | A state committed at or below the marker survives every run without a rollback below it |
| `BlockStore.DefaultStore.GetBlockByHash` | pkg/store/store.go:74-93 | A hash finds exactly the stored block with that header |
| `BlockStore.DefaultStore.GetHeader` | pkg/store/store.go:106-117 | The header of the segment at the height, or none |
| `BlockStore.DefaultStore.GetBlockData` | pkg/store/store.go:56-71 | Header and data of the segment at the height, or none |
| `BlockStore.DefaultStore.Height` | pkg/store/store.go:37-53 | The stored height is the length of the chain |
| `CachedStore.Drive` | pkg/store/cached_store.go:165-251 | In every run, with any evictions from either cache on its own, each read answers as the uncached store would, also after a rollback and another block at the same height |
| `CachedStore.Cached.GetHeader` | pkg/store/cached_store.go:165-183 | The answer of the store, cached or not, and the cache stays coherent |
| `CachedStore.Cached.GetBlockData` | pkg/store/cached_store.go:186-207 | The answer of the store, cached or not, and the cache stays coherent |
| `CachedStore.Cached.InvalidateRange` | pkg/store/cached_store.go:210-215 | Exactly the entries in the range are gone |
| `CachedStore.Cached.Rollback` | pkg/store/cached_store.go:224-239 | As the store's rollback, with a coherent cache |
| `CachedStore.Cached.PruneBlocks` | pkg/store/cached_store.go:243-251 | As the store's pruning, with a coherent cache |
| `CachedStore.CoherentAfterRollback` | pkg/store/cached_store.go:224-239 | Dropping the rolled back heights from the caches is enough for coherence |
| `MetadataWriter.WriteLoop` | pkg/store/cached_store.go:117-162 | However the timer cuts the queue, the metadata ends as if every operation of the batches the database took had been applied in order |
| `MetadataWriter.Flush` | pkg/store/cached_store.go:138-159 | One coalesced batch equals its operations in order, and a refused one changes nothing |
| `MetadataWriter.SplitOps` | pkg/store/cached_store.go:143-151 | Walking the map in any order puts each key's last operation into exactly one of the two lists |
| `MetadataWriter.LastDecides` | pkg/store/cached_store.go:138-142 | Applying all operations in order is settling each key by its last operation |
| `MetadataWriter.BatchSettles` | pkg/store/store.go:195-217 | Puts then deletes settle each key by its last operation |
| `InclusionCache.SnapshotRoundTrip` | block/internal/cache/generic_cache.go:166-189 | Decoding the encoding of any entry list gives the list; each entry is its block height, then its DA height |
| `InclusionCache.WriteSnapshot` | block/internal/cache/generic_cache.go:166-174 | The buffer filled in place holds the encoding of the entries |
| `InclusionCache.PlaceholderInjective` | block/internal/cache/generic_cache.go:233-243 | Two heights have one placeholder key if and only if they are equal |
| `InclusionCache.PlaceholderIsNoHash` | block/internal/cache/generic_cache.go:230-243 | A placeholder key is never a hexadecimal hash |
| `InclusionCache.SaveAndRestore` | block/internal/cache/generic_cache.go:146-228 | Saving and restoring with finalized height f answers every by-height look-up above f as before and none at or below it, the maximum is the largest saved DA height, and without a key prefix nothing comes back |
| `InclusionCache.RestoredAnswers` | block/internal/cache/generic_cache.go:201-228 | Placeholders for exactly the entries above f give the saved answers above f and none below |
| `InclusionCache.MaxCovers` | block/internal/cache/generic_cache.go:201-228 | The restored maximum is the largest of the old maximum and all entries, skipped ones included |
| `InclusionCache.Cache.Restore` | block/internal/cache/generic_cache.go:201-228 | For any bytes and any cache: malformed bytes or no key prefix restore nothing, later entries win, skipped entries still raise the maximum |
| `InclusionCache.Cache.Save` | block/internal/cache/generic_cache.go:146-163 | With a key prefix the bytes list each height with a recorded DA height exactly once, without one nothing is written |
| `InclusionCache.Drive` | block/internal/cache/generic_cache.go:93-136 | In every run each recorded DA height is at most the maximum, which never goes down and is raised by a recorded height to that height or not at all |
| `InclusionCache.Cache.SetDAIncluded` | block/internal/cache/generic_cache.go:93-102 | The height answers the new DA height, an older hash of it is forgotten, every other hash and height keeps its answer |
| `InclusionCache.Cache.SetMaxDAHeight` | block/internal/cache/generic_cache.go:114-124 | The maximum is raised unless a thousand rivals win the swap |
| `InclusionCache.Cache.DeleteAllForHeight` | block/internal/cache/generic_cache.go:126-136 | The height and its hash are gone from all three maps |
| `InclusionCache.Cache.SetSeen` | block/internal/cache/generic_cache.go:61-70 | The hash is seen and is the one of its height |
| `InclusionCache.Cache.RemoveDAIncluded` | block/internal/cache/generic_cache.go:104-108 | Only this hash loses its DA height |
| `ProtoWire.VarintRoundTrip` | types/serialization.go:813-818 | A varint reads back whatever follows it |
| `ProtoWire.TagRoundTrip` | types/serialization.go:813-818 | A tag reads back whatever follows it |
| `ProtoWire.WireBytes` | types/serialization.go:813-818 | Short varints and tags as bytes: low seven bits first, the eighth bit set while more follow, the field number above three bits of wire type |
| `ProtoWire.BytesRoundTrip` | types/serialization.go:813-818 | A length-delimited value reads back whatever follows it |
| `ProtoWire.SkipValue` | types/serialization.go:776-780 | Skipping any well-formed value, nested groups included, consumes exactly its bytes |
| `LegacyCodec.DecodeLegacyHeaderFields` | types/serialization.go:722-789 | The loop ends on every byte string with the answer of the reference decoder |
| `LegacyCodec.DecodeKeepsLast` | types/serialization.go:722-789 | On any well-formed record sequence the last length-delimited values of fields 5, 7 and 9 are kept and all else is skipped; it is an error if and only if such a value is longer than 1024 bytes or the whole longer than 1048576 |
| `LegacyCodec.EncodeLegacyUnknownFields` | types/serialization.go:791-811 | The records of exactly the set fields, in field order |
| `LegacyCodec.AppendIfSet` | types/serialization.go:813-818 | One record is appended, and none for an empty value |
| `LegacyCodec.LegacyRoundTrip` | types/serialization.go:722-818 | Encoded fields decode to themselves, empty as unset, if and only if none is longer than 1024 bytes |
| `LegacyCodec.LongHashIsLost` | types/serialization.go:760-763 | A hash of 1025 bytes is written and not read back |
| `SigningPayload.PayloadInjective` | types/serialization.go:820-898 | Two headers have equal payloads if and only if they agree on every field up to empty versus unset and the zero consensus hash |
| `SigningPayload.PayloadFields` | types/serialization.go:830-897 | Each field of the header reads back from the payload's records under its own number: the version 1 as an embedded message, height 2 and time 3 as varints, hashes, addresses and the chain ID 4 to 12 |
| `SigningPayload.PayloadReadsBack` | types/serialization.go:722-898 | The decoder of the legacy fields reads them back from a payload within its limits, the consensus hash with its default |
| `SigningPayload.ConsensusIsShown` | types/header.go:215-243 | The payload of every header shows a consensus hash: its own, or 32 zero bytes |
| `SigningPayload.MarshalLegacyHeader` | types/serialization.go:820-898 | The payload shows the header's content, and the header and its legacy block are not modified |
| `SigningPayload.Header.Clone` | types/header.go:247-258 | A copy with the same content that shares nothing with the header |
| `SigningPayload.Header.ApplyLegacyDefaults` | types/header.go:237-243 | The content stays and the memoized hash is dropped; the consensus hash is the one shown if and only if it was not set to an empty string |
| `SigningPayload.LegacyHeaderFields.EnsureDefaults` | types/header.go:215-219 | Only an unset consensus hash becomes 32 zero bytes |
| `SigningPayload.LegacyHeaderFields.Clone` | types/header.go:222-232 | A fresh copy in which empty slices are unset |
| `Epoch.Boundaries` | types/epoch.go:36-51 | Start, end and number in 64-bit arithmetic are those of the epoch as a number, also where the number wraps |
| `Epoch.BeforeTheStart` | types/epoch.go:13-51 | The number is 0 exactly below the start and where it wraps; below the start the boundaries are those of the first epoch; size 0 is the start height alone |
| `Epoch.BoundariesEnclose` | types/epoch.go:36-51 | The boundaries enclose the height if and only if the end of its epoch fits into 64 bits |
| `Epoch.LastEpochOverflows` | types/epoch.go:47-48 | Height 2^64 - 1 with epoch size 10 has an epoch that ends at 3 |
| `Epoch.EpochsTile` | types/epoch.go:13-51 | Two heights share an epoch if and only if one is within the other's boundaries, and the next epoch starts right after |
| `ForcedInclusion.Drive` | block/internal/da/forced_inclusion_retriever.go:89-248 | Called at every height below 2^64 - 1, with any catch-ups succeeding or failing in between, the retriever delivers all non-empty blobs of all finished epochs exactly once and in order; every event is its whole epoch or nothing |
| `ForcedInclusion.DeliveredInOrder` | block/internal/da/forced_inclusion_retriever.go:89-248 | Events that deliver the epoch at its end and nothing elsewhere add up to all blobs of the finished epochs, in order |
| `ForcedInclusion.Retriever.RetrieveForcedIncludedTxs` | block/internal/da/forced_inclusion_retriever.go:89-248 | Whole epoch or nothing; the epoch is delivered at its end when all heights can be retrieved, and never for an end at 2^64 - 1, where the loop does not end; cleanup keeps every height of an epoch that the window covers |
| `ForcedInclusion.CleanupExact` | block/internal/da/async_block_retriever.go:275-308 | The cleanup at the end of an epoch drops none of its heights, whatever is cached, if and only if the epoch size is below 2^63 or 2^64 - 1 |
| `ForcedInclusion.RetrieveEpoch` | block/internal/da/forced_inclusion_retriever.go:130-247 | Not yet if and only if a height of the epoch that is not cached lies in the future; otherwise the whole epoch, or, if and only if a missing height fails, an empty event for the last height with the latest time that was read |
| `ForcedInclusion.EndsExactly` | types/epoch.go:36-51 | A height is the computed end of its epoch if and only if it is the last height of it, also where the end overflows |
| `ForcedInclusion.SplitHeights` | block/internal/da/forced_inclusion_retriever.go:136-155 | Cache hits and missing heights partition the epoch |
| `ForcedInclusion.FetchMissing` | block/internal/da/forced_inclusion_retriever.go:157-188 | A future height ends it, other failures are collected, and the rest is fetched |
| `ForcedInclusion.Assemble` | block/internal/da/forced_inclusion_retriever.go:190-227 | The blobs of exactly the heights that are cached or fetched, in height order, with the latest of their times |
| `ForcedInclusion.MaxTimeIsLatest` | block/internal/da/forced_inclusion_retriever.go:212-215 | The time of an event is one of its heights' times and none is later |
| `ForcedInclusion.Retriever.UpdateCurrentHeight` | block/internal/da/async_block_retriever.go:115-129 | The height only rises, and a rise cleans up below the prefetch window |
| `ForcedInclusion.Retriever.CleanupOldBlocks` | block/internal/da/async_block_retriever.go:275-308 | Exactly the blocks below height minus window are dropped |
| `ForcedInclusion.Retriever.FetchAndCacheBlock` | block/internal/da/async_block_retriever.go:217-246 | The cache gains the height's non-empty blobs and timestamp, or nothing on an error |
| `ForcedInclusion.Retriever.HandleCatchup` | block/internal/da/async_block_retriever.go:189-214 | On success the height and the prefetch window after it, if that does not wrap, are cached; cached heights stay |
| `ForcedInclusion.ZeroEpochSize` | types/epoch.go:39-41 | With epoch size zero only the start height ends an epoch |
| `Election.Run` | pkg/raft/election.go:55-236 | Every run is safe, leaves no worker behind, has led if and only if the decisions say so, hears its events in order up to the first one that ends it, and does nothing after that but let workers end |
| `Election.SafeMeans` | pkg/raft/election.go:55-236 | In a safe run at most one worker is alive, no follower starts after a leader, and a leader starts only after the log landed in the same event and, after a follower, after a sync check of 0 or a recovery of the state last read |
| `Election.OverMeans` | pkg/raft/election.go:199-235 | In a run, nothing but the end of workers follows leadership lost after a leader has run, a failed worker or the end of the context |
| `Election.ReactExactly` | pkg/raft/election.go:107-235 | Who leads, what has started and when the ticker stops; the loop is left if and only if leadership is lost by a leader, a worker fails, the context ends, a follower cannot start or leading cannot be decided |
| `Election.DecisionExactly` | pkg/raft/election.go:111-198 | A notified node leads if and only if the log landed, the factory answers and, when started, its last check is in sync or recovered; it stays if the log did not land or it hands leadership on |
| `Election.FollowerExactly` | pkg/raft/election.go:87-102 | A follower starts if and only if its factory answers and no raft state shows up in time, or the node is not ahead of it, or is recovered to it |
| `Election.WaitExactly` | pkg/raft/election.go:311-343 | The first deciding poll decides: canceled with the context, lost with the leadership, synced within one block, timed out only at the deadline |
| `Election.FirstSeenExactly` | pkg/raft/election.go:241-260 | The first poll that is not a state at height 0 decides the wait for a raft state |
| `Election.ClearedWasRead` | pkg/raft/election.go:130-186 | A cleared raft state is the one last read, and was found in sync or recovered after that within the same event |
| `Election.ElectionLoop.BecomeLeader` | pkg/raft/election.go:111-198 | Lead, stay or leave is the decision of the sync checks |
| `Election.ElectionLoop.CheckSync` | pkg/raft/election.go:123-190 | A started node may lead only when in sync with, or recovered to, the state just read |
| `Election.ElectionLoop.StartFollower` | pkg/raft/election.go:87-102 | The follower starts if and only if its factory and its verification succeed |
| `Election.ElectionLoop.VerifyState` | pkg/raft/election.go:239-294 | A node ahead of raft, or unable to tell, is recovered before it follows; one behind is not |
| `Election.WaitForState` | pkg/raft/election.go:241-260 | The wait ends with the first raft state above height 0, at the deadline, or canceled |
| `Election.ElectionLoop.StartWorker` | pkg/raft/election.go:68-86 | The previous worker has ended before the next starts |
| `Election.ElectionLoop.OnEvent` | pkg/raft/election.go:107-235 | Flags and continuation are those stated by Election.ReactExactly, the event is heard, a follower runs if and only if it is its turn, and the run stays safe |
| `Election.ElectionLoop.OnTicker` | pkg/raft/election.go:211-229 | The ticker starts at most one follower, and only for a known other leader |
| `Election.WaitForBlockStoreSync` | pkg/raft/election.go:311-343 | The first deciding poll decides, and synced needs a check within one block |
| `RaftFSM.AcceptedIncrease` | pkg/raft/node.go:386-419 | Heights and timestamps strictly increase over the accepted entries of any log, from the state it starts with |
| `RaftFSM.RejectedExactly` | pkg/raft/types.go:13-21 | An entry is left out if and only if it does not decode or is not above everything accepted before it; otherwise it is accepted with its own index, term and state |
| `RaftFSM.SnapshotThenRest` | pkg/raft/node.go:422-467 | Restoring a snapshot taken after a prefix and applying the rest is applying the whole log |
| `RaftFSM.RestoredFollows` | pkg/raft/node.go:422-467 | A machine that restores another's snapshot and then sees the same entries ends in the same state and applies the same entries |
| `RaftFSM.DeliveredIsSubsequence` | pkg/raft/node.go:406-416 | Over every run, with snapshots restored and channels replaced, delivered and buffered messages are a subsequence of the applied ones |
| `RaftFSM.DroppedExactly` | pkg/raft/node.go:406-416 | A message is dropped if and only if no channel is set, or its buffer is full and no reader waits at an empty one |
| `RaftFSM.NothingDropped` | pkg/raft/node.go:406-416 | With a channel that has room for every entry of the run, delivered and buffered messages are all the applied ones |
| `RaftFSM.BufferBounded` | pkg/raft/node.go:406-416 | The buffer never holds more than the channel's capacity |
| `RaftFSM.RunAppliesLog` | pkg/raft/node.go:386-419 | Between restores state and applied messages depend on the log alone |
| `RaftFSM.Drive` | pkg/raft/node.go:386-443 | The object delivers a subsequence of what it applies, and without restores applies exactly the accepted log |
| `RaftFSM.Machine.Apply` | pkg/raft/node.go:386-419 | Rejected entries change nothing; an accepted one replaces the state and is handed on, buffered or dropped |
| `RaftFSM.Machine.Restore` | pkg/raft/node.go:427-443 | An unreadable or undecodable snapshot changes nothing, another replaces the state |
| `Replay.ReplayLeavesPrefix` | block/internal/common/replay.go:104-109 | Exactly a prefix of the heights is replayed: each state follows from the one below, its app hash is the executor's root, it agrees with a readable stored state, and nothing else changes |
| `Replay.ReplayedMeans` | block/internal/common/replay.go:128-198 | Every committed height was executed on the executor's own root with the app hash of the state below, for the first block the one in its header; its state records height, header hash and root, and the announced, previous or own proposer |
| `Replay.ReplayKeepsAppHash` | block/internal/common/replay.go:200-236 | A readable stored state keeps its app hash, and its proposer if it has one, through every replay |
| `Replay.ReplayBounds` | block/internal/common/replay.go:104-109 | Success if and only if the prefix ends at the target below 2^64 - 1; the executor is at the end of the prefix or one block further |
| `Replay.FaultlessReplayExact` | block/internal/common/replay.go:128-258 | Without faults a replay succeeds if and only if every block can be executed and every stored state, with its proposer if set, is the one the blocks lead to |
| `Replay.ReplayedIsClean` | block/internal/common/replay.go:128-258 | Whatever fails, every committed state is the one the blocks lead to |
| `Replay.ReplayCarriesDAHeight` | block/internal/common/replay.go:150-192 | Version, chain, initial height and DA height of replayed states are those below the first one, or of genesis |
| `Replay.UnreadStateExact` | block/internal/common/replay.go:200-236 | A stored app hash survives a successful replay with every executor if and only if the stored state can be read, or something else stops the replay |
| `Replay.UnreadStateIsReplaced` | block/internal/common/replay.go:200-236 | A stored app hash that cannot be read is replaced with success |
| `Replay.DAHeightIsLost` | block/internal/common/replay.go:154-161 | The stored DA height 5 of the first block is replaced by 0 |
| `Replay.PastExecutorExact` | block/internal/common/replay.go:152-169 | Without a stored state to compare, a replay gets past the executor's height if and only if that height's state is stored or the next block is the first one |
| `Replay.LostCommitStops` | block/internal/common/replay.go:183-251 | After a sync that lost a reply or a commit of a height without a stored state, every later sync from below fails and changes nothing |
| `Replay.FailedCommitIsFinal` | block/internal/common/replay.go:249-251 | The commit of block 1 fails once, and no replay of block 2 succeeds afterwards |
| `Replay.Replayer.SyncToHeight` | block/internal/common/replay.go:46-119 | All cases: skipped, unreadable height, rolled back, in sync, missing target block, replayed; the executor ends at the target with the stored app hash, or a prefix is replayed |
| `Replay.Replayer.ReplayLoop` | block/internal/common/replay.go:104-109 | The loop with its wrapping counter is the reference replay |
| `Replay.Replayer.ReplayBlock` | block/internal/common/replay.go:128-258 | One height, with every way to fail and what is left then |
| `ChainState.AcceptedAreLinked` | types/state.go:68-157 | Between accepted headers heights rise by one in 64 bits, times never go back, the app hash is the previous root and the proposer the announced one |
| `ChainState.AtMostOneBroken` | types/state.go:139-150 | At most one header per process is accepted that does not carry the hash of the accepted header before it |
| `ChainState.RefusedExactly` | types/state.go:93-157 | After any blocks the next one is accepted if and only if no check refuses it: proposer, chain, height, time, app hash, link beyond the tolerance, data; then it is applied to the last accepted state; the tolerance is used up exactly by headers that reach the link check broken |
| `ChainState.NextStateShows` | types/state.go:68-89 | The next state records the block's height, time, hash and root, the announced, previous or own proposer, and keeps the rest |
| `ChainState.FollowAll` | types/state.go:93-157 | The object accepts exactly the headers of the reference, which are stated outright by ChainState.RefusedExactly |
| `ChainState.Process.AssertValidSequence` | types/state.go:122-157 | Answer and counter, also when the counter is used up by a header rejected afterwards |
| `ChainState.Process.AssertValidForNextState` | types/state.go:93-106 | Proposer, sequence and data checks in this order, with the counter after them; each of them is named in ChainState.RefusedExactly |

## Left out

- RPC, JWT, WebSocket and gRPC clients, Celestia submission, libp2p and header exchange: I/O around libraries.
- Tracing, metrics, logging, commands and configuration: no state worth a theorem.
- Cryptography and hashing: hashes are collision free and block building is deterministic.
- Whole-message protobuf marshalling: a header blob, a state and a raft entry are values; only Version is encoded by hand.
- Buffer pools and unsafe slices: memory reuse is not captured. A header's hash is not empty.
- SigningPayload.Header.Clone: byte slices are values, so that a clone shares no slice memory is not expressed.
- SigningPayload.LegacyHeaderFields.Clone: byte slices are values here too.
- FilterTxs.GasBudgetExact: the shortest transaction has a length m that any gas fits into; the length of the gas field is not modelled.
- PendingBase.Pending.GetPending: the store height does not go below a height that was fetched from it.
- CachedStore.Cached.PruneBlocks: called with at most the current height.
- Durations, backoff and timers: they are nondeterministic events, only retry counts are kept.
- A metadata write racing with closing the cached store: only queued operations are ordered.
- A second, different block at an occupied height: it leaves an old index entry, so committed heights are new.
- BlockStore.DefaultStore.Commit: only the next height, or any first height, is committed; gaps are not modelled.
- BlockStore.DefaultStore.PruneBlocks: called with at most the current height.
- ForcedInclusion.Retriever.HandleCatchup: a window that ends at 2^64 - 1 is walked again from 0 until the context ends; what that caches is not shown.
- ForcedInclusion.Drive: the last DA height, 2^64 - 1, is excluded, because the call does not return there.
- The inline subscription path of the DA retriever, which drops oversized blobs: the cache is filled by fetching.
- EngineClient.Engine.ExecuteTxs: the next proposer in the result is not modelled, only that asking for it can fail.
- SetSafe, SetSafeByHeight, SetFinalized, InitChain, GetTxs, GetExecutionInfo and PruneExec: they add only easy members.
- The pending cache, Append and pruning of the store adapter: they add only easy members beside the height subscription.
- Leadership transfers that the election loop asks raft for: only that the loop goes on is shown.
- Raft transport, peers and configuration, and the bodies of sequencer, syncer, submitter, pruner and executor.
