# Verified model of the chain-import core

This project models, in Dafny, the part of a Polygon PoS execution client (a go-ethereum
derivative) that decides which chain is canonical and which state is served, and proves what that
code is meant to guarantee. It has five parts.

* **Canonical chain.** Headers form a tree (`HeaderTree`). `HeaderChain` and `BlockChain` hold the
  operations that move the head and rewrite the number-to-hash index and the transaction lookup
  table in place; `CanonicalIndex` says what an exact lookup table is; `ForkChoice`, `Convergence`
  and `ImportRuns` prove that nodes which import the same blocks agree. `AncestorHash` covers the
  cached BLOCKHASH lookups.
* **Pipelined import.** `Pipeline` is a state machine over the steps of the importer, of the state
  root computation (SRC) of each block and of its collector. `PipelineBatches` treats batches of
  blocks; `PipelineInvariant`, `PipelineFloor` (what is never rolled back), `PipelineRejection`,
  `PipelineLoss` (the states a rollback releases), `PipelineOverlay` and `PipelineAbove` (a known
  block above a pending one) prove what every step keeps; `PipelineTheorems` states the results over
  all runs: refinement of one-at-a-time import, what readers see, safety and progress.
  `PipelineReads` says what a read of one key returns, `PipelineKnown` when a known block finds
  nothing pending, and `PipelineRuns` builds the runs that show where the guarantees end. `NodeOps`
  gives the chain operations as functions and ties rollback to publication; `Validator` relates the
  cheap and the full state validation. `ProcessRace` is the race of the two processors of one block.
* **State transition.** `GasCosts`, `Balances`, `StateTransition` and `BlockProcessor` cover
  intrinsic gas, the data floor, buying and returning gas, refunds, burning and tipping, the block
  gas pool, the serial block loop and the split of state-sync receipts.
* **Retention.** `TrieGC` is the reference queue of recent state tries; `TxIndexer` is the range
  of heights whose transactions stay indexed, including the reordering of concurrent deliveries.
* **Derivation paths.** `DerivationPath` parses and prints BIP-32/BIP-44 paths;
  `IntegerLiterals` is the syntax of their numbers.

Conventions: hashes are natural numbers and `ZERO` is the zero hash; a state root is a free
constructor applied to a world (a map), so distinct worlds have distinct roots; the EVM is an
arbitrary function that conserves the total balance and returns no more gas than it got. Every
`dfy` file holds the module of the same name. `dafny verify dfyconfig.toml` checks the project.

Some properties one might expect do not hold of the code. For each the project gives inputs that
break it and the exact condition under which it holds:

* When nothing is in flight, the pipelined node shows what the sequential one does if and only if
  no failed verification is still waiting to be collected, no known block was published that the
  full check rejects, and no rollback took the state of the head along
  (`PipelineRefinesSequential`; runs: `RejectedHeadStays`, `LiarBecomesKnown`,
  `EmptyLiarTakesHeadState`). A block is known when it is stored and the state its header claims is
  present; a rolled-back block stays stored.
* No canonical block descends from a rejected one until a known block is published above a pending
  one. From then on the head descends from a rejected block if and only if that pending block is
  one, which is settled before the known block is published (`RejectedBelowExactly`,
  `SkipAboveExactly`). One way there is a batch on a rejected head whose state is missing, which is
  stored without being executed (run: `KnownAboveRejected`); without such a batch and without side
  branches at the start it does not happen (`StoredFindsNothingPending`).
* A rollback under the hash scheme gives up a reference to the state the rejected block computed,
  although none was taken for it. It keeps the head's state if and only if the block computed
  another state than its parent's, or that state is on disk or referenced twice (`RecoverLoss`), and
  it keeps one reference per queued root if and only if the root is not queued
  (`ReleaseRejected`, `RejectedTakesReference`). From then on the root has one reference too few, so
  it is queued without any exactly while it is queued once: a root queued twice loses its last
  reference when the lower entry leaves the window (`RejectedLeavesOneShort`, `RejectedTakesLater`).
* After a rollback the rejected state is not served, if and only if no other attempt at the same
  outcome is under way (`RejectedStateServed`, `RejectedServedAgain`).
* While the next block's overlay is already set but that block is not yet the head, the head's
  state is served unless the next block claims the head's own root while
  changing the state (`HeadServed`, `HeadHiddenByOverlay`).
* An accepted message covers its fees (no negative tip, no overdraft) if and only if no fee check
  was waived by the no-base-fee setting used for calls (`AcceptedIsCovered`,
  `WaivedTipIsNegative`, `WaivedBlobFeeOverdraws`).
* A path survives printing and parsing if and only if it is not empty (`RoundTrip`,
  `RoundTripInBase`).

`GetAncestor` also takes the zero hash above the head for a canonical block, the progress report
of the transaction indexer wraps when the tail is more than one above the head, and an indexing
task leaves stale entries in stateless mode when the tail lags the prune cutoff; their contracts
say so exactly.

## Model

| member | source | states |
|---|---|---|
| `HeaderTree.OnlyGenesisAtZero` | core/headerchain.go:79-108 | in a parent-closed tree the genesis block is the only header at height zero |
| `HeaderTree.AncestorsMerge` | core/blockchain.go:4447-4464 | two chains that share a block share everything below it |
| `HeaderTree.TotalDifficultyStable` | core/headerchain.go:470-482 | the total difficulty of a header depends only on its ancestry, so it never changes as the store grows |
| `HeaderTree.DifficultiesGrow` | core/blockchain.go:2858-2874 | recording a new header with its parent's difficulty plus its own keeps all recorded difficulties right |
| `HeaderTree.CutTree` | core/headerchain.go:688-728 | deleting every header above a height leaves a parent-closed tree |
| `HeaderTree.HeightsHaveNoGaps` | core/headerchain.go:688-698 | if a height is empty, so is every height above it, on all forks |
| `ForkChoice.ReorgNeeded` | core/forkchoice.go:82-123 | reports a missing difficulty exactly when one is not recorded; past the terminal difficulty always reorganises; otherwise exactly if the new header stands above in (difficulty, lower number, preserved, larger hash) |
| `ForkChoice.ForkChoiceRules` | core/forkchoice.go:98-122 | the tie-breaking rules one by one: more difficulty, then the lower number, then a preserved header, then the larger hash wins |
| `ForkChoice.BeatsIsStrictTotalOrder` | core/forkchoice.go:98-122 | without terminal difficulty and preserved headers fork choice is a strict total order, by (difficulty, lower number, larger hash) |
| `ForkChoice.PreserveIsStrictWeakOrder` | core/forkchoice.go:110-122 | with any preserve function it is a strict weak order, so heads never cycle |
| `ForkChoice.ChildBeatsHead` | core/forkchoice.go:98-103 | a child of the head with positive difficulty always wins |
| `HeaderChain.Chain.constructor` | core/headerchain.go:79-108 | a chain of just the genesis header is valid |
| `HeaderChain.Chain.WriteHeaders` | core/headerchain.go:214-281 | stores exactly the segment, keeps index and difficulties right, counts exactly the new suffix, refuses exactly an unknown parent |
| `HeaderChain.Chain.Reorg` | core/headerchain.go:134-208 | afterwards the index is exactly the ancestor path of the last header, with nothing above it |
| `HeaderChain.Chain.WriteHeadersAndSetHead` | core/headerchain.go:290-342 | the head changes if and only if fork choice and validator agree and the header is not already canonical; the reported status is exact |
| `HeaderChain.Chain.SetHead` | core/headerchain.go:623-764 | the new head is the highest ancestor at which the rewind may end: by number, not above the target nor above any header the callback forced on the way; by time, old enough, or by number from the first forced header older than the time; exactly the headers above it, on every fork, are gone with their difficulties and index entries; the chain stays valid |
| `HeaderChain.Chain.Rewind` | core/headerchain.go:634-728 | the rewinding loop stops at that ancestor and has collected every hash and height above it |
| `HeaderChain.StopsExactly` | core/headerchain.go:652-675 | the loop, which moves its target as it goes, stops exactly where that rule says |
| `HeaderChain.RewindByNumber` | core/headerchain.go:669-675 | a rewind by number ends at the lowest of the target and the headers forced on the way, and below the target only at a forced header |
| `HeaderChain.RewindByTime` | core/headerchain.go:669-675 | a rewind by time ends at the first block that is old enough, or, once a forced header is older than the time, there or at the lowest header forced from then on |
| `HeaderChain.UnforcedHasNoEffect` | core/headerchain.go:671-675 | callbacks that force the same headers lead to the same head, whatever else they answer |
| `HeaderChain.HeightsAbove` | core/headerchain.go:688-698 | the upward sweep that stops at the first empty height finds every occupied height |
| `HeaderChain.GatherHashes` | core/headerchain.go:702-723 | collects all hashes stored at the given heights |
| `HeaderChain.Truncated` | core/headerchain.go:702-727 | applying the collected deletions leaves a valid chain whose index is the path of the new head |
| `HeaderChain.DropFrom` | core/headerchain.go:149-158 | deleting upwards until the first gap removes every entry from that height on |
| `HeaderChain.RewriteToCrossLink` | core/headerchain.go:159-185 | overwriting stale entries downwards until the cross link makes the index follow the new chain |
| `HeaderChain.AppendSegment` | core/headerchain.go:187-198 | writing the segment's own entries completes the path of its last header |
| `HeaderChain.Chain.GetAncestor` | core/headerchain.go:425-466 | the jump through the index returns the ancestor of the plain walk and the budget left; it gives up only on a header missing under that hash and number, a too large ancestor count or an exhausted budget; the zero hash above the head is the one exception, stated exactly |
| `HeaderChain.DepthToCanon` | core/headerchain.go:440-466 | the number of parent steps to the canonical chain is at most the height |
| `CanonicalIndex.LookupUnique` | core/blockchain.go:2229-2231 | there is only one exact lookup table for a head |
| `CanonicalIndex.LookupExtend` | core/blockchain.go:2229-2231 | indexing a child's transactions makes an exact table exact for the child |
| `CanonicalIndex.LookupTruncate` | core/blockchain.go:4584-4589 | removing the transactions above an ancestor makes an exact table exact for the ancestor |
| `CanonicalIndex.ReindexCommutes` | core/blockchain.go:4560-4589 | writing reborn entries before deleting the stale ones gives the same table as deleting first |
| `Convergence.ImportKeepsBest` | core/blockchain.go:4987-5004 | after an import the head still beats every stored header |
| `Convergence.RunInvariant` | core/blockchain.go:2858-2874 | over every run the head is the best of everything imported, and exactly that is stored |
| `Convergence.BestNodesAgree` | core/forkchoice.go:98-122 | nodes with the same blocks and best heads agree on stores, head, index and, if exact, lookup table |
| `Convergence.Converge` | core/blockchain.go:4987-5004 | two nodes that import the same blocks in any two parent-first orders end with the same head and index |
| `BlockChain.Chain.constructor` | core/headerchain.go:79-108 | a chain of just the genesis block satisfies all invariants and starts a run |
| `BlockChain.Chain.WriteHeadBlock` | core/blockchain.go:2224-2245 | head, canonical hash and lookup entries of the block are written and nothing else |
| `BlockChain.Chain.Reorg` | core/blockchain.go:4419-4614 | for any two heads the index becomes exactly the path of the new head's parent (or of the new head if it was canonical), and an exact lookup table becomes exact for it |
| `BlockChain.Chain.SwitchChains` | core/blockchain.go:4542-4603 | undoing the old segment and applying the new one leaves the path of the target and its exact lookup table |
| `BlockChain.Chain.DropStale` | core/blockchain.go:4584-4589 | exactly the undone transactions that were not included again lose their entries |
| `BlockChain.Chain.ApplyNewChain` | core/blockchain.go:4560-4580 | applying the new blocks forward, without the new head, splices the index and yields the reborn transactions |
| `BlockChain.FindCommonAncestor` | core/blockchain.go:4425-4464 | the two walks meet at the highest common block and record exactly the blocks above it |
| `BlockChain.GatherTxs` | core/blockchain.go:4542-4552 | without the transactions of the undone blocks an exact table fits the fork point |
| `BlockChain.HashDifference` | core/types/transaction.go:685-700 | keeps exactly the hashes of the first list missing in the second |
| `BlockChain.DropAbove` | core/blockchain.go:4593-4603 | deleting markers above the target leaves its path |
| `BlockChain.Chain.WriteKnownBlock` | core/blockchain.go:2843-2854 | any stored block can be made head: index exactly its path, lookup table exact if no transaction repeats |
| `BlockChain.Chain.WriteBlockAndSetHead` | core/blockchain.go:3020-3031 | stores the block, also when it is stored already; it becomes head if and only if it beats the old head; the step is an import in the sense of the convergence theorem; an exact lookup table stays exact |
| `BlockChain.Chain.RecoverFailedImport` | core/blockchain.go:6098-6146 | the markers of the rollback, for any stored block: those from its height on are removed and its parent is head; the chain is valid afterwards if and only if the parent joins the canonical chain; for a canonical block an exact lookup table stays exact |
| `ImportRuns.ImportAll` | core/blockchain.go:3020-3031 | importing a list of blocks passes through a run of the convergence theorem, stops exactly at an unknown parent, and if no chain repeats a transaction every lookup table on the way is exact |
| `BlockChain.UnmarkFrom` | core/blockchain.go:6130-6142 | removes the index entries from a height on and collects exactly their transactions |
| `NodeOps.NodeDetermined` | core/blockchain.go:2224-2245 | stores and head determine index, difficulties and lookup table of a valid node |
| `NodeOps.StoreAgain` | core/blockchain.go:2858-2874 | storing a stored block again changes nothing |
| `NodeOps.StoreKeepsChain` | core/blockchain.go:2858-2874 | storing a block, new or not, keeps the chain valid and its lookup table as exact as it was |
| `NodeOps.CrownsChild` | core/blockchain.go:4987-5004 | fork choice always publishes a child of the head with positive difficulty |
| `NodeOps.RollbackValidIff` | core/blockchain.go:6098-6146 | rolling back any stored block leaves a valid chain if and only if its parent is genesis or extends a canonical block |
| `NodeOps.WriteHeadKeepsValid` | core/blockchain.go:2224-2245 | publishing a child of the head that repeats no transaction keeps the node valid |
| `NodeOps.RollbackKeepsValid` | core/blockchain.go:6098-6146 | rolling back any canonical block gives the valid node headed by its parent |
| `NodeOps.RollbackUndoesWriteHead` | core/blockchain.go:6098-6146 | rollback after publication restores the node exactly |
| `AncestorHash.HashLookup.constructor` | core/evm.go:138-144 | a fresh lookup has an empty cache that fits any store |
| `AncestorHash.HashLookup.Query` | core/evm.go:145-184 | for every sequence of queries over a growing store the answer equals the plain parent walk; the cache only grows |
| `AncestorHash.BlockHashIsAncestor` | core/evm.go:138-184 | in a parent-closed store that walk gives the ancestor at the height asked for, and the zero hash from the block's own height on |
| `AncestorHash.WalkOn` | core/evm.go:163-182 | the walk can be resumed at any stored header on it |
| `AncestorHash.ReachStable` | core/evm.go:163-182 | a growing store keeps every answer found |
| `AncestorHash.SpeculativeAgrees` | core/evm.go:202-218 | once the pending block is stored, the ordinary lookup of its child gives the speculative answers |
| `AncestorHash.SpeculativeLookup.constructor` | core/evm.go:202-205 | the lookup starts unresolved, unflagged and anchored two blocks back |
| `AncestorHash.SpeculativeLookup.Query` | core/evm.go:206-243 | answers are those of the specification, the hash supplier is called at most once, every use of the pending hash is flagged |
| `Validator.ValidateStateCheap` | core/block_validator.go:141-166 | accepts if and only if the result is exactly what the header claims, and never reports a root mismatch |
| `Validator.FullIsCheapPlusRoot` | core/block_validator.go:170-217 | full validation is cheap validation followed by the root check, with the same errors |
| `Validator.StatelessIsPartial` | core/block_validator.go:170-195 | stateless validation accepts exactly if gas and bloom are as claimed |
| `PipelineInvariant.StartInv` | core/blockchain.go:5972-6017 | a node at rest with a committed head satisfies the invariant |
| `PipelineInvariant.OfferKeeps` | core/blockchain.go:3697-3850 | accepting a batch that extends the head keeps the invariant, also when the head will be rejected, blocks are offered again, or the head's state is missing but the first block is known |
| `PipelineInvariant.FlushKeeps` | core/blockchain.go:5484-5502 | taking the pending entry off to flush it keeps the invariant |
| `PipelineInvariant.SrcKeeps` | core/blockchain.go:5198-5281 | computing and signalling a root keeps the invariant, whether a failure comes before or after the state is committed |
| `PipelineInvariant.CollectKeeps` | core/blockchain.go:6023-6087 | comparing the root and closing the channel keeps the invariant |
| `PipelineInvariant.ReadyKeeps` | core/blockchain.go:5972-6017 | the pending block's base plus its changes, or the committed head, is the state of the head; without the head's state the batch ends unless the next block is known |
| `PipelineInvariant.StopKeeps` | core/block_validator.go:125-132 | a batch ends for want of the head's state only if the head was rejected, and the sequential importer does not notice |
| `PipelineInvariant.ExecutingKeeps` | core/blockchain.go:3697-3850 | a block that fails execution or cheap validation fails sequentially too |
| `PipelineInvariant.RecoverKeeps` | core/blockchain.go:6098-6158 | rolling back a rejected head, with the release of the state it computed, yields what the sequential importer shows |
| `PipelineLoss.RecoverLoss` | core/blockchain.go:6148-6158 | the rollback loses the new head's state if and only if, under the hash scheme, the rejected block computed its parent's state, that state is not on disk and at most one reference is held on it |
| `PipelineLoss.HoldThenRelease` | core/blockchain.go:5561-5581 | giving up a reference undoes taking one, the state goes with its last reference, and a state on disk stays |
| `PipelineLoss.EventLoss` | core/blockchain.go:6148-6158 | in every step the state of a settled head is missing exactly if some rollback took it along |
| `PipelineLoss.LostIsFinal` | core/block_validator.go:125-132 | once the state of the head is lost, none of the modelled steps applies, so nothing but the import of the head itself, which is not modelled, can follow |
| `PipelineInvariant.CollectingKeeps` | core/blockchain.go:5934-5953 | waiting for the previous block and acting on its outcome keeps the invariant |
| `PipelineInvariant.FlushingKeeps` | core/blockchain.go:5484-5530 | a flush that verifies or rolls back keeps the invariant |
| `PipelineInvariant.OverlayingKeeps` | core/blockchain.go:5791-5795 | setting the overlay early changes nothing else |
| `PipelineInvariant.StoringKeeps` | core/blockchain.go:5803-5810 | writing the block beside the canonical chain keeps the invariant |
| `PipelineInvariant.SpawningKeeps` | core/blockchain.go:5812-5825 | SRC starts from the verified root of the parent |
| `PipelineInvariant.ExposingKeeps` | core/blockchain.go:5829-5830 | publishing a good block is one sequential import, publishing a bad one is invisible to it |
| `PipelineInvariant.ExposedImport` | core/block_validator.go:141-217 | the sequential import of the published block succeeds if and only if its task will be verified |
| `PipelineInvariant.RegisteringKeeps` | core/blockchain.go:5834-5850 | registering the pending entry and starting its collector keeps the invariant |
| `PipelineInvariant.SkipKeeps` | core/blockchain.go:3653-3694 | publishing a known block without executing it, while nothing is pending, is a sequential import if the full check accepts the block; otherwise the sequential importer stays behind for good |
| `PipelineAbove.SkipAboveLeads` | core/blockchain.go:3540-3572 | a known block published above a pending one has that block as canonical parent, and the pending block was not cleared before if it will be rejected |
| `PipelineAbove.AboveKept` | core/blockchain.go:6023-6087 | from then on the background computations keep that |
| `PipelineInvariant.StoredKeeps` | core/blockchain.go:4185-4229 | storing blocks beside the canonical chain changes nothing the sequential importer shows |
| `PipelineInvariant.PrunedKeeps` | core/blockchain.go:4173-4316 | a batch on a rejected head whose state is missing keeps the invariant: it is stored and ignored if the last claimed state is there, otherwise the head is rolled back and imported again with the batch |
| `PipelineBatches.StoreBlocksKeeps` | core/blockchain.go:4185-4229 | storing a batch stores every block of it and moves no marker |
| `PipelineBatches.PrunedStops` | core/blockchain.go:4185-4229 | a batch without a parent state is stored exactly up to the first block whose claimed state is there or which a known block follows |
| `PipelineBatches.ExtendingAgain` | core/blockchain.go:3528-3575 | a batch that extends a chain extends it also when its blocks are stored already |
| `PipelineBatches.ReofferExtends` | core/blockchain.go:4262-4313 | once the head is rolled back and a batch on top of it is stored, the head followed by the batch extends the chain |
| `PipelineBatches.StoreRollback` | core/blockchain.go:4173-4316 | storing a batch and rolling the head back can be exchanged |
| `PipelineInvariant.HonestSkip` | core/blockchain.go:3653-3694 | the sequential import of a skipped block succeeds exactly if the block is honest, with the same outcome |
| `PipelineInvariant.StepKeeps` | core/blockchain.go:5710-5859 | every step of importer, SRC and collector keeps the invariant, but for publishing a known block above a pending one (see `SkipAboveLeads`) |
| `PipelineRejection.RejectedKept` | core/blockchain.go:5934-5953 | a block handed to SRC is canonical only as unsettled head, after some attempt verified it, or because it was published as known; every step keeps this until a known block is published above a pending one |
| `PipelineFloor.PermanentStays` | core/blockchain.go:6098-6158 | canonical blocks below an unsettled head, or up to a settled one, are never rolled back |
| `PipelineRejection.ClearedKept` | core/blockchain.go:6098-6158 | a verified block, or one published as known, is canonical and stays so |
| `PipelineTheorems.RunKeeps` | core/blockchain.go:5710-5859 | every state of every run satisfies the invariant, or the one that holds after a known block was published above a pending one |
| `PipelineTheorems.PipelineRefinesSequential` | core/blockchain.go:5710-5859 | under every interleaving, also with blocks offered again, once nothing is in flight head, index, lookup table and served state are those of importing block by block with the full root check, if and only if no failure is left uncollected, no known block was published that the full check rejects and no rollback took the state of the head along; in the last case alone only that state is missing |
| `PipelineTheorems.FlushRestores` | core/blockchain.go:5484-5502 | collecting the failure clears pending entry and overlay and restores agreement, if and only if the importers had not diverged and the rollback does not drop the parent's state |
| `PipelineRuns.RejectedHeadStays` | core/blockchain.go:6023-6087 | any block with a wrong root gives a run that ends with nothing in flight and the rejected block still published |
| `PipelineRuns.EmptyLiarTakesHeadState` | core/blockchain.go:6148-6158 | any block that changes nothing but claims another root gives a run that ends at rest without the state of the head, if one reference is held on it |
| `PipelineTheorems.HeadServed` | core/blockchain.go:5053-5079 | in every run both readers serve the head's state if and only if no rollback took it along; while the next block's overlay is set, if and only if that block does not claim the head's root while changing the state; a known block above a pending one is served the state of the root it claims, or the pending block's state if both claim one root |
| `PipelineRuns.HeadHiddenByOverlay` | core/blockchain_reader.go:709-729 | any block that changes the state but claims the head's root gives a run in which readers of the head see that block's state |
| `PipelineTheorems.OverlayAgreement` | core/blockchain_reader.go:709-729 | both readers see the in-flight block's post-execution state, also below a known block, and once it is verified that is the committed state at its root |
| `PipelineReads.OverlayMasks` | core/state/statedb.go:1413-1426 | an overlaid state is the only one in which a changed key reads its new value, a removed key is absent and every other key reads as below |
| `PipelineReads.ReadersAnswer` | core/blockchain_reader.go:709-729 | in every state the readers answer from the overlay exactly if it was recorded for the root asked for and its base can be opened, with its changes masking the base, and from the committed states otherwise |
| `PipelineReads.InFlightReads` | core/blockchain.go:5053-5079 | in every run a read of the newest block in flight, by root or by header, gives its changes on top of the committed state of its parent |
| `PipelineReads.SuccessiveReads` | core/blockchain.go:5053-5079 | of two successive blocks the later change is read first, then the earlier, then the state below |
| `PipelineReads.SeqImportReads` | core/blockchain.go:3697-3850 | a sequentially imported block leaves its changes on top of what was there |
| `PipelineReads.SeqBatchReads` | core/blockchain.go:3697-3850 | two blocks of one batch leave the later change |
| `PipelineTheorems.RejectedStateServed` | core/blockchain.go:6098-6108 | in every run, both readers serve the state a wrong-root block computed, under its root, if and only if the unsettled block, or the block just being written, claims that root and computes that state; so a rollback ends it |
| `PipelineRuns.RejectedServedAgain` | core/blockchain.go:5791-5795 | a run in which the same block is offered again and its state is served again |
| `PipelineRuns.LiarBecomesKnown` | core/block_validator.go:65-67 | any wrong-root block whose claimed root is committed gives a run that ends at rest, with nothing to collect, and that block as head |
| `PipelineTheorems.AtMostOneUnverified` | core/blockchain.go:5762-5769 | at most one block is unverified; every SRC starts from the root of its block's parent, whose state can be opened while the task is unverified or its block is the head; each completion is signalled at most once, after its result, which is right |
| `PipelineTheorems.NoDescendantOfRejected` | core/blockchain.go:5934-5953 | a canonical block with a rejected ancestor is that ancestor as unsettled head, unless another attempt verified the ancestor, it was published as known, or a known block was published above it while it was pending |
| `PipelineTheorems.RejectedBelowExactly` | core/blockchain.go:3540-3572 | in every run, the head descends from a rejected block if and only if a known block was published above a pending one that will not be verified |
| `PipelineTheorems.SkipAboveExactly` | core/blockchain.go:3540-3572 | publishing a known block above a pending one leaves a canonical descendant of a rejected block if and only if the pending block will not be verified; before it there is none |
| `PipelineRuns.KnownAboveRejected` | core/blockchain.go:4262-4316 | any wrong-root block whose root is not committed and any new child of it that claims a committed root give a run in which the child is the head above the rejected block |
| `PipelineTheorems.WrongRootIsNeverVerified` | core/blockchain.go:6075-6087 | a block with a wrong root is never verified by any attempt: only being published as known can clear it |
| `PipelineTheorems.SameHashSameTask` | core/blockchain.go:5762-5769 | all attempts at one block start from the same root with the same changes |
| `PipelineKnown.StoredFindsNothingPending` | core/blockchain.go:3528-3575 | if side blocks hang off the canonical chain at the start and no batch is offered on a head whose state is missing, nothing is ever pending when a stored block is up next, so no known block is published above a pending one |
| `PipelineTheorems.WaitIsBounded` | core/blockchain.go:5510-5530 | an importer that waits is never deadlocked: SRC or the collector can step, each step shortens the wait, and then the importer can go on |
| `PipelineTheorems.ImporterNeverStuck` | core/blockchain.go:5710-5859 | an importer that has work and does not wait can always step, up to the publication of a known block above a pending one |
| `PipelineOverlay.OverlayStep` | core/blockchain.go:6220-6240 | every importer step keeps the overlay in line with the head or the block being written |
| `ProcessRace.RunKeeps` | core/blockchain.go:1301-1496 | every state of every race satisfies the invariant |
| `ProcessRace.RaceIsSafe` | core/blockchain.go:1337-1496 | for every arrival order the call succeeds exactly if serial succeeds or parallel does and is first or alone; every started processor's result is received |
| `ProcessRace.FallbackIsNotCancelled` | core/blockchain.go:1337-1496 | a parallel error never cancels the serial run still needed |
| `ProcessRace.RaceProgresses` | core/blockchain.go:1337-1496 | the race can always move on until it is done, taking each result once |
| `GasCosts.ToWordSize` | core/state_transition.go:150-156 | rounds up to whole words for every 64-bit size |
| `GasCosts.Charge` | core/state_transition.go:99-121 | adds a product or fails exactly on 64-bit overflow |
| `GasCosts.GuardIsExact` | core/state_transition.go:99-121 | the division guard trips if and only if the sum would overflow |
| `GasCosts.IntrinsicGasExact` | core/state_transition.go:79-132 | overflow is reported exactly when the data cost exceeds 64 bits, and the result is the plain sum exactly when the whole cost fits |
| `GasCosts.FloorDataGasExact` | core/state_transition.go:135-147 | the floor is the plain EIP-7623 sum, or an overflow error, if and only if the token count fits in 64 bits or its wrapped value overflows as well |
| `GasCosts.Prices` | core/state_transition.go:79-132 | the intrinsic cost is the sum of the prices of its parts: base or creation, each zero and non-zero byte, each word of init code, each address and storage key, each authorization |
| `GasCosts.FloorPrices` | core/state_transition.go:135-147 | the floor is the sum of the prices of the bytes |
| `Balances.AddTotal` | core/evm.go:251-275 | crediting within 256 bits raises the total by the amount |
| `Balances.SubTotal` | core/evm.go:251-275 | debiting a covered amount lowers the total by it |
| `StateTransition.TransactionToMessage` | core/state_transition.go:191-220 | a legacy transaction pays its price; with a base fee a dynamic-fee one pays at most its cap and at most base fee plus tip, and one of the two; everything else is taken over and no check is skipped |
| `StateTransition.AskedExactly` | core/state_transition.go:191-220 | that determines the message of a transaction |
| `StateTransition.PreCheckExact` | core/state_transition.go:351-455 | the checks before buying gas report exactly the first violation in their order, and none exactly if there is none |
| `StateTransition.AcceptedNonce` | core/state_transition.go:351-375 | an accepted message carries its sender's nonce, which is not the highest |
| `StateTransition.AcceptedIsCovered` | core/state_transition.go:384-444 | an accepted message covers base and blob fee if and only if no check was waived |
| `StateTransition.WaivedTipIsNegative` | core/state_transition.go:600-639 | a waived call with a negative tip exists |
| `StateTransition.WaivedBlobFeeOverdraws` | core/state_transition.go:431-444 | a waived call that is charged a blob fee it need not own exists |
| `StateTransition.PrepaidIsAffordable` | core/state_transition.go:306-349 | a covered message that passes the balance check can pay gas and value |
| `StateTransition.RequiredIsWorstCase` | core/state_transition.go:306-349 | the balance asked for is exactly what suffices at every price up to the fee cap and every blob base fee up to the blob fee cap |
| `StateTransition.PrepaidIsActual` | core/state_transition.go:306-349 | what is taken up front is the cost at the actual prices |
| `StateTransition.IntrinsicPrices` | core/state_transition.go:495-503 | the intrinsic gas of a message under the fork rules, from the prices of its parts |
| `StateTransition.Bought` | core/state_transition.go:306-349 | buying gas takes exactly the prepaid amount and leaves the value |
| `StateTransition.GasPool.AddGas` | core/gaspool.go:29-37 | adds the amount |
| `StateTransition.GasPool.SubGas` | core/gaspool.go:41-49 | takes the amount or refuses and changes nothing |
| `StateTransition.Transition.BuyGas` | core/state_transition.go:306-349 | refuses exactly for lack of funds or of block gas, otherwise debits the prepaid amount and reserves the limit |
| `StateTransition.Transition.Purchase` | core/state_transition.go:351-455 | succeeds exactly if all checks, the balance and the pool allow it; a covered sender keeps its value |
| `StateTransition.Transition.ChargeIntrinsic` | core/state_transition.go:496-518 | succeeds exactly if the limit pays intrinsic gas and floor |
| `StateTransition.Transition.Admit` | core/state_transition.go:467-540 | lets exactly the acceptable messages through; the transfer check cannot fail for covered ones |
| `StateTransition.Transition.SettleGas` | core/state_transition.go:579-598 | used gas is the least amount allowed by refund counter, refund cap (EIP-3529) and data floor (EIP-7623), within floor, maximum and limit, without underflow |
| `StateTransition.Transition.ReturnGas` | core/state_transition.go:760-772 | pays back the unused gas at the original price and returns it to the pool |
| `StateTransition.FeesAddUp` | core/state_transition.go:600-617 | base fee and tip add up to the price of the used gas; the tip is negative exactly when the price is below the base fee |
| `StateTransition.CreditTotal` | core/state_transition.go:617-639 | crediting burn and tip gives back what was paid, less a base fee nobody receives; an uncovered base fee would create value |
| `StateTransition.CreditAccounts` | core/state_transition.go:617-639 | for covered messages the burn address receives exactly the base fee, the coinbase exactly the rest of the price, and nobody else anything |
| `StateTransition.FeeShares` | core/state_transition.go:617-639 | the shares: base fee for the burn address, tip for the coinbase, the whole price before London or if both are one account |
| `StateTransition.SettledAccounts` | core/state_transition.go:542-639 | account by account, the sender gets the unused gas back and burn address and coinbase their shares |
| `StateTransition.Transition.RunAndSettle` | core/state_transition.go:542-679 | settles what the EVM returned; gas bounds, conservation, and who receives what, account by account |
| `StateTransition.Transition.Settle` | core/state_transition.go:579-598 | takes over the EVM result, uses the least gas allowed, pays the rest back and returns it to the pool |
| `StateTransition.SettledTotals` | core/state_transition.go:598-639 | after settlement the supply lacks blob fee and gas price, after crediting only fees nobody receives |
| `StateTransition.SizedFloor` | core/state_transition.go:135-147 | for a message that fits in memory the floor is the plain EIP-7623 sum |
| `StateTransition.Transition.Execute` | core/state_transition.go:467-679 | a message is applied if and only if it is acceptable, with the sender's nonce; used gas bounds; for covered messages the sender pays exactly the prepaid amount and gets the unused gas back, burn address and coinbase receive exactly their shares, nobody is overdrawn, the tip is not negative, and the total balance changes only by the blob fee and, without a burn address, the base fee |
| `BlockProcessor.ApplyTransaction` | core/state_processor.go:209-296 | applied if and only if accepted; at the price the transaction offers its sender pays and gets back, and burn address and coinbase receive, exactly their amounts, account by account; value is conserved; used gas leaves the pool |
| `BlockProcessor.RunMessage` | core/state_processor.go:235-238 | the transition of a block transaction, whose message is what the transaction asks for: accepted exactly if acceptable, its fees are always covered, and only the sender pays |
| `BlockProcessor.CreditFees` | core/state_processor.go:242-250 | crediting the reported fees gives the ledger the transition would have given: for covered messages base fee to the burn address and tip to the coinbase |
| `BlockProcessor.Process` | core/state_processor.go:65-135 | runs the transactions in order to the first unacceptable one; each receipt is that of its transaction; pool plus used gas is the block gas limit; cumulative gas strictly increases; value is conserved over the block |
| `BlockProcessor.AppendReceipt` | core/state_processor.go:288-295 | one more receipt keeps gas and supply totals in step |
| `BlockProcessor.SplitIsExact` | core/blockchain.go:2409-2491 | the test is true if and only if a state-sync receipt was appended; the split takes it off exactly at the end of a sprint before the Madhugiri fork and leaves the list alone otherwise |
| `TrieGC.CollectionDetermined` | core/blockchain.go:5620-5629 | queue and height determine what is released and what stays |
| `TrieGC.PathsAgree` | core/blockchain.go:5561-5581 | from the same queue the normal and the pipelined path leave the same queue and release the same roots |
| `TrieGC.PopUpTo` | core/blockchain.go:2993-3001 | pops exactly the entries at or below the height, dropping one reference each, where one is held |
| `TrieGC.Enqueue` | core/blockchain.go:2951-2953 | references the root and queues it in order |
| `TrieGC.Collector.Retain` | core/blockchain.go:2951-2953 | every entry written is queued or released, as often as it was written |
| `TrieGC.Collector.DereferenceUpTo` | core/blockchain.go:5620-5629 | releases exactly the queued roots at or below the height, none before the window has passed |
| `TrieGC.Collector.AfterWrite` | core/blockchain.go:2952-3002 | after a collection every queued root is inside the window and exactly the others were released, once |
| `TrieGC.Collector.HandleImport` | core/blockchain.go:5561-5581 | the pipelined path does the same |
| `TrieGC.Collector.ReleaseRejected` | core/blockchain.go:6148-6158 | the release in a rollback keeps one reference per queued root if and only if the released root is not queued |
| `TrieGC.RejectedTakesReference` | core/blockchain.go:6148-6158 | a run after which a root is queued, inside the window, with no reference held on it |
| `TrieGC.RejectedLeavesOneShort` | core/blockchain.go:6148-6158 | after such a release and any later collection every other root has one reference per queued entry and the released one has one too few, so it is queued without a reference if and only if it is queued once |
| `TrieGC.RejectedTakesLater` | core/blockchain.go:6148-6158 | a run in which a root queued twice loses its last reference when the lower entry leaves the window, although the higher one is inside |
| `TxIndexer.IndexTransactions` | core/rawdb/chain_iterator.go:215-297 | whatever the order and completeness of deliveries, the tail ends where they stop being contiguous, and every flushed tail is consistent with the entries written |
| `TxIndexer.UnindexTransactions` | core/rawdb/chain_iterator.go:321-402 | the mirror image for removal |
| `TxIndexer.Indexer.Import` | core/blockchain.go:2224-2245 | a new head is indexed, which keeps the index sound and exact |
| `TxIndexer.Indexer.IndexDown` | core/rawdb/chain_iterator.go:97-104 | lowers the tail as far as deliveries and pruned ancients allow |
| `TxIndexer.Indexer.UnindexUp` | core/rawdb/chain_iterator.go:321-345 | raises the tail and removes exactly the heights passed |
| `TxIndexer.Indexer.Adjust` | core/txindexer.go:154-173 | moves an existing tail to the window, with the exact conditions for reaching it and for staying exact |
| `TxIndexer.Indexer.Run` | core/txindexer.go:116-174 | interrupted or not, the index stays sound; an uninterrupted task ends at the configured window, and an exact index stays exact, under exact conditions |
| `TxIndexer.Indexer.Repair` | core/txindexer.go:181-238 | yields a sound index whose tail lies between cutoff and head, purging exactly when that is impossible |
| `TxIndexer.ReportIsExact` | core/txindexer.go:312-345 | below the cutoff nothing is reported; otherwise remaining blocks are the part of the window below the tail; a tail more than one above the head wraps |
| `TxIndexer.WindowExact` | core/txindexer.go:116-160 | the window holds exactly the heights not below the cutoff that are among the last `limit`, so `limit` of them without a cutoff |
| `DerivationPath.WhiteSpaceCharacters` | accounts/hd.go:94-100 | which characters are white space |
| `DerivationPath.WhiteSpaceIgnored` | accounts/hd.go:94-100 | white space around a component is ignored |
| `DerivationPath.ParsePrintedComponent` | accounts/hd.go:94-119 | parsing the printed form of a 32-bit component, hardened or not, returns it |
| `IntegerLiterals.ReadsExactly` | accounts/hd.go:104-107 | a number is accepted exactly if it is an integer literal: decimal, octal with a leading zero, or 0b, 0o, 0x in either case, with single underscores between digits; with the value the digits write |
| `IntegerLiterals.UnderscoresIgnored` | accounts/hd.go:104-107 | underscores change nothing |
| `IntegerLiterals.Signs` | accounts/hd.go:104-107 | a plus sign changes nothing, a minus sign negates, and there is at most one |
| `DerivationPath.ComponentExactly` | accounts/hd.go:94-119 | a component is accepted exactly if it is white space, sign, literal, optional mark and white space whose value is in range and not negative, with that value |
| `DerivationPath.ComponentIsRead` | accounts/hd.go:94-119 | any such component is read as its value, or rejected if that is out of range or negative |
| `DerivationPath.ParseInBase` | accounts/hd.go:94-119 | a component written in base 2, 8 or 16, in either case, hardened or not, parses to its value |
| `DerivationPath.PathIsRead` | accounts/hd.go:68-125 | an absolute path of such components is read as their values, and rejected if one has none |
| `DerivationPath.AppendComponents` | accounts/hd.go:92-124 | appends the meaning of every component, or fails if one is bad |
| `DerivationPath.ParseDerivationPath` | accounts/hd.go:68-125 | computes the meaning of the path string |
| `DerivationPath.ToString` | accounts/hd.go:129-147 | computes the printed form |
| `DerivationPath.RoundTrip` | accounts/hd.go:68-147 | parsing the printed form of a path of 32-bit components returns it if and only if it is not empty |
| `DerivationPath.RoundTripInBase` | accounts/hd.go:68-125 | the same for a path written in base 2, 8 or 16 |
| `DerivationPath.AcceptedNormalises` | accounts/hd.go:68-147 | every accepted string denotes a non-empty 32-bit path whose printed form means the same |
| `DerivationPath.RelativeIsBelowDefaultRoot` | accounts/hd.go:74-86 | a relative path means what it means below the default root, also when rejected |

## Left out

- The EVM interpreter, state database, tries and the parallel executors: the EVM is an arbitrary balance-conserving function, execution of a block an arbitrary function of block and world.
- Nonce and code updates, access-list warming and authorization effects of a transaction: they happen inside that function.
- Block-level equivalence of the parallel processors with the serial one.
- Freezer and ancient store, snap sync, snapshots, history pruning, stateless import, witnesses, caches, metrics, events, timers and logging.
- HeaderChain.Chain.Reorg: the early stop at frozen headers is not modelled, because ancients are left out.
- HeaderChain.Chain.WriteHeaders: the fast-forward difficulty branch is not modelled; the parent's difficulty is always stored. Interruption between headers is not modelled.
- BlockChain.Chain.Reorg: error exits for missing blocks or receipts of a corrupt database are not modelled; logs and events are not either.
- BlockChain.Chain.WriteBlockAndSetHead: terminal difficulty, preserve function and whitelist are taken as absent.
- BlockChain.Chain.RecoverFailedImport: a missing parent block is not modelled; the release of the computed state is modelled in `PipelineLoss` and `TrieGC`, not in this method.
- PipelineTheorems.PipelineRefinesSequential: covers batches that extend the head; a failed root of a side block and a rollback to a different old head are not modelled. A batch that does not extend the pending block is a Flush followed by an Offer. What the node imports again by itself counts as offered. Importing the head again after its state was lost, and what follows the publication of a known block above a pending one, are not modelled. States leave memory only by rollbacks here: aging out of the window is modelled in `TrieGC` alone.
- PipelineInvariant.SkipKeeps: the case of a pending block is `SkipAboveLeads`. The time limit after which a state still being computed no longer counts as present is not modelled.
- PipelineLoss.LostIsFinal: is about the modelled steps; the code can import a head whose state was lost again, together with a batch on top of it, which recomputes that state.
- PipelineTheorems.HeadServed: the miner's overlay without a recorded root and the grace periods of recently imported states are not modelled.
- The shutdown flush without rollback and interrupted insertion of a chain.
- ProcessRace.RaceIsSafe: an outer cancellation of the whole call is not modelled.
- StateTransition.Transition.Execute: lists in a message have fewer than 2^40 entries and the supply is below 2^256; which of several errors is reported is stated only for the checks before execution.
- BlockProcessor.Process: cancellation, system calls before and after the transactions, log indices and bloom filters are not modelled.
- BlockProcessor.SplitIsExact: RLP encoding and the other derived receipt fields are not modelled.
- TrieGC.Collector.AfterWrite: flushing by memory or time and the commit of a chosen trie are not modelled; entries of equal height keep insertion order.
- TxIndexer.Indexer.Run: the scheduling loop and a head that moves during a task are not modelled; lookup entries are tracked per height.
- DerivationPath.ParseDerivationPath: the three error texts are one failure; strings are sequences of Unicode characters.
- Consensus engines, transaction pool, networking, RPC, console, wallets beyond derivation paths.
