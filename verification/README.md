# Oregon, verified

A Dafny model of the consensus-critical parts of Oregon, a proof-of-work node: the sparse Merkle
state tree, the chain state machine with its ledger, the transaction pool, execution fees and
weight, the difficulty target, and the canonical codec.  The model follows the code; the proofs say
what the code is for.

Each part has the same shape.  Functions over values say what an operation computes, lemmas say
what that means, and methods and classes in the program's own imperative form are proved equal to
the functions.

## The parts

- **State tree** (`StateHash` to `ProofCodec`).  The tree of a map is defined by recursion on
  prefixes and meets the bottom-up oracle of the journal vector generator.  The batch update, read,
  proof and proof codec are proved against it with a source that may lie.
- **Pool** (`PoolGraph` to `PoolSteady`).  Reachability, the lexicographically least topological
  order, admission with a narrow replay, eviction planning, commit, and rebuilding on a chain change.
  The pool invariant holds over every sequence of calls.  Who is admitted, evicted, refused and
  dropped is told by fees, sizes and the chain state alone.
- **Chain** (`ChainTypes` to `ChainObject`).  Connecting and disconnecting blocks, the store with
  atomic batches, headers, extension, reorganization, pruning and restarting.  The key fact about
  the ledger is that on a chain from the anchor no transaction is applied twice, so undos are exact.
  The chain invariant holds over every sequence of calls, failed writes and restarts; what becomes of
  a block is decided by whether blocks connect on the replay below them; and the ledger never holds
  more than the schedule has issued.
- **Execution** (`WeightMetering`, `FeeEscrow`), **target** (`Asert`, `AsertPower`,
  `AsertHalf`), **Merkle root** (`MerkleRoot`) and **wire format** (`Encoding`, `WireFormat`,
  `WireLayout`, `WireDecoder`).

## Where a promise needs a condition

- A store that a healthy session leaves behind does not always reopen.  `ChainRun.RunReopens` gives
  the exact condition.  The cursor of a prune is not revised when a later reorganization leads to a
  lower tip, and a preferred header stays preferred when its block does not connect.
  `ChainRestart` holds a family of runs for each.  Their headers have the times and targets that the
  rules demand and their coinbases pay the founder and have their encoded length; only proof of work
  is taken for granted.
- A healthy node cannot always prune.  `ChainRetention.PrunableIff` gives the exact condition: one
  recent body on a block that has been marked invalid makes the walk to its fork fail, and with it the
  whole plan.  `ChainStuck.PruneIsStuck` holds a family of runs that end there.
- A pruned node does what one that never prunes does, as long as no reorganization needs a block at
  or below the highest cursor pruned to: `ChainShadowRun.PruningIsInvisible`.  One that does is
  refused.
- One half-life of drift is one doubling, except where division rounds toward zero:
  `Asert.HalfLifeShift` and `Asert.HalfLifeDoubles`.  For half of one it is the same:
  `AsertHalf.HalfShift` and `AsertHalf.RequiredTargetRoots`.
- A disconnect restores the ledger if and only if the block rewrote no entry that survives it:
  `ChainBlocks.DisconnectInverts`.  On a chain from the anchor that is always so.

## Modelling decisions

- Hashes are free constructors over what they commit to, so collisions and confusions between
  domains cannot occur.  Pool ids are numbers, because the pool needs their order and no more.
- A ledger transaction carries the length of its encoding as a field.
- The spend verifier, the claim rule of a coinbase and the checks of a header in its branch are
  parameters; every theorem holds for all of them, and the verifier may differ from call to call.
  `ChainConsensus` gives the claim rule and the header rule of a node, up to proof of work.
- Whether a write reaches the disk is a parameter of each call; a batch applies fully or not at all.
- Chain work is a natural number, and times and heights are 64-bit where the code checks overflow.
- An undo is a map of spent entries and a set of created outpoints.
- Where an error branch cannot be taken on a reachable state, the method uses the value directly and
  the verifier shows that the branch is dead.

## Model

| member | source | states |
|---|---|---|
| StateHash.EmptyHashes | crates/oregon-contract-state/src/hash.rs:40-50 | the table filled backwards holds, at each depth, the hash of a subtree with no keys |
| StateTree.OracleMeetsNodeAt | scripts/generate_journal_vectors.py:185-221 | the bottom-up oracle over a list of items is the commitment of the map they list, at every prefix |
| StateTree.EmptyIffUnoccupied | crates/oregon-contract-state/src/hash.rs:60-84 | a position carries the default hash if and only if no key lives below it |
| StateTree.NodeAtInjective | crates/oregon-contract-state/src/hash.rs:52-84 | equal commitments at a prefix mean equal maps below it |
| StateTree.RootCommits | scripts/generate_journal_vectors.py:185-221 | two maps have the same root if and only if they are equal |
| StateTree.CanonicalNodeHash | crates/oregon-contract-state/src/node.rs:20-37 | the node of an occupied position hashes, without error, to the commitment of that position |
| StateTree.LoadedNodeIsCanonical | crates/oregon-contract-state/src/source.rs:11-38 | whatever an untrusted source returns for a commitment is refused or is the node of that position |
| WriteSets.SortSorts | crates/oregon-contract-state/src/transition.rs:84-84 | sorting by path gives an ordered permutation of the writes |
| WriteSets.PrepareAll | crates/oregon-contract-state/src/transition.rs:71-82 | succeeds if and only if every key and value fits; otherwise names the first that does not |
| WriteSets.NewWriteSet | crates/oregon-contract-state/src/transition.rs:66-95 | accepts a write set if and only if it is small enough, everything fits and no two keys share a path; every error case is named |
| StateTransition.PartitionPoint | crates/oregon-contract-state/src/transition.rs:237-237 | the writes before the point go left at the depth, and the one at it goes right |
| StateTransition.ApplySubtreeSound | crates/oregon-contract-state/src/transition.rs:213-264 | with an untrusted source, an update that succeeds takes the commitment of the old map to that of the rewritten map |
| StateTransition.RejoinSound | crates/oregon-contract-state/src/transition.rs:249-263 | rejoined children give the new commitment, and a node is emitted exactly when it is new and not empty |
| StateBuilder.TransitionBuilder.RecordValue | crates/oregon-contract-state/src/transition.rs:316-325 | inserts the value into the builder as specified, or reports the clash |
| StateBuilder.TransitionBuilder.ApplyLeaf | crates/oregon-contract-state/src/transition.rs:266-314 | leaf update in place on the builder, equal to its specification |
| StateBuilder.TransitionBuilder.ApplySubtree | crates/oregon-contract-state/src/transition.rs:213-264 | recursive batch update in place on the builder, equal to its specification |
| StateBuilder.ComputeTransition | crates/oregon-contract-state/src/transition.rs:119-155 | the whole transition: root, emitted nodes and values, or the error, as specified |
| StateRefinement.ApplyWriteSetRefines | crates/oregon-contract-state/src/transition.rs:119-155 | the new root is the reference root of the updated map; over a source that holds the old tree it succeeds exactly when no stored value clashes, and the overlaid source holds the new tree |
| StateRefinement.AcceptedWritesRefine | crates/oregon-contract-state/src/transition.rs:66-155 | the same for raw writes that the write set accepted, in the order they were given: the new root, exactly when the update succeeds, and the overlaid tree |
| StateRefinement.RunSetsRefines | crates/oregon-contract-state/src/transition.rs:119-155 | over any sequence of write sets the root is the reference root of the map they lead to |
| StateRefinement.HistoryIndependence | crates/oregon-contract-state/src/transition.rs:119-155 | two histories end at the same root if and only if they end at the same map |
| StateProof.SetBitmapBitSets | crates/oregon-contract-state/src/proof.rs:209-215 | setting a bitmap bit sets that bit and no other |
| StateProof.BitmapLayout | crates/oregon-contract-state/src/proof.rs:209-215 | byte depth/8 of a bitmap holds the bit of a depth, the most significant bit for the least depth |
| StateProof.ReadValueAgrees | crates/oregon-contract-state/src/transition.rs:157-202 | a read against the reference root returns the map's value or an error, and succeeds over a source that holds the tree |
| StateNeeds.ReadNeeds | crates/oregon-contract-state/src/transition.rs:157-202 | over any source a read succeeds if and only if the key fits and the source holds the nodes on its path as far as the path is occupied, and the value if there is one |
| StateNeeds.UpdateNeeds | crates/oregon-contract-state/src/transition.rs:119-155 | over any source an update succeeds if and only if it is for the domain of the snapshot and, for every write, the source holds the nodes on its path as far as the path is occupied and the old value if there is one, and has no other bytes under the hash of a value to be stored |
| StateProof.VerifySound | crates/oregon-contract-state/src/proof.rs:160-207 | an accepted claim against the reference root is the map's value, or its absence |
| StateProof.VerifyUnique | crates/oregon-contract-state/src/proof.rs:160-207 | for any root, a key has at most one accepted value, bitmap and sibling list |
| StateProof.ProveComplete | crates/oregon-contract-state/src/proof.rs:85-158 | proving succeeds exactly when reading does, with the same value or error, and the verifier accepts the proof |
| StateAccess.ReadValue | crates/oregon-contract-state/src/transition.rs:157-202 | the descent loop equals the recursive read |
| StateAccess.Prove | crates/oregon-contract-state/src/proof.rs:85-158 | the loop that collects bitmap and siblings equals the recursive proof |
| StateAccess.VerifyProof | crates/oregon-contract-state/src/proof.rs:160-207 | the upward fold with sibling index equals the recursive verifier |
| ProofCodec.DecodeInvertsEncode | crates/oregon-contract-state/src/proof.rs:22-82 | decoding accepts exactly the encodings of canonical proofs, each as itself |
| ProofCodec.AcceptedProofTravels | crates/oregon-contract-state/src/proof.rs:22-207 | every proof that the verifier accepts is canonical and decodes from its encoding as itself, for any hash function without collisions between siblings and defaults |
| ProofCodec.ProducedProofTravels | crates/oregon-contract-state/src/proof.rs:22-207 | so does every proof that is produced, and the verifier accepts it for the value that a read returns |
| ProofCodec.Encode | crates/oregon-contract-state/src/proof.rs:22-30 | the byte loop equals the specified encoding |
| ProofCodec.Decode | crates/oregon-contract-state/src/proof.rs:32-82 | the decoding loop equals the specified decoder, errors included |
| Ledger.UtxoState.ApplyNormalTransaction | crates/oregon-utxo/src/state.rs:85-154 | the fee or the first error of a transaction; the ledger changes only on success, to the specified one |
| Ledger.ScanMeans | crates/oregon-utxo/src/state.rs:91-116 | the inputs pass if and only if they are distinct, present, not from a coinbase less than 120 blocks old, accepted by the verifier and their sum fits |
| Ledger.CheckMeans | crates/oregon-utxo/src/state.rs:128-144 | the outputs pass if and only if there are at most 2^32 of them and none exists yet |
| Ledger.SkeletonMeans | crates/oregon-consensus/src/block.rs:10-36 | the context-free checks pass if and only if the transaction is small enough, spends and makes something, and spends no null output |
| LedgerTotals.FeeMeans | crates/oregon-utxo/src/state.rs:85-154 | a fee exists if and only if the inputs pass, what they hold and what is made fit 64 bits, no more is made than they hold and no output exists yet; it is what the spent entries hold beyond the created ones, with both totals taken over ledger entries |
| LedgerTotals.EffectConserves | crates/oregon-utxo/src/state.rs:85-154 | conservation: the total of the ledger after a transaction, and its fee, are the total before |
| PoolGraph.CheckLinks | crates/oregon-mempool/src/graph.rs:59-75 | holds if and only if parent and child sets stay in the pool and mirror each other |
| PoolGraph.TopologicalOrder | crates/oregon-mempool/src/graph.rs:54-104 | succeeds exactly on mirrored acyclic links, with the error named otherwise; the result is the lexicographically least parents-first permutation |
| PoolGraph.LeastOrderUnique | crates/oregon-mempool/src/graph.rs:54-104 | there is only one such order |
| PoolClosure.AncestorClosure | crates/oregon-mempool/src/graph.rs:7-29 | exactly the entries that reach a parent; a missing parent or a link that is not mirrored is an invariant violation, and otherwise a cycle is a cycle |
| PoolClosure.DescendantClosure | crates/oregon-mempool/src/graph.rs:31-52 | on every graph: exactly what child links reach from the root; something missing there is an invariant violation, and otherwise a way back to the root a cycle |
| PoolClosure.MirroredDescendants | crates/oregon-mempool/src/graph.rs:31-52 | on mirrored links nothing is missing and these are the descendants |
| PoolEviction.EvictionTotal | crates/oregon-mempool/src/eviction.rs:5-13 | the eviction order is irreflexive, asymmetric and total on distinct ids |
| PoolEviction.EvictionTransitive | crates/oregon-mempool/src/eviction.rs:5-13 | the eviction order is transitive, by cross multiplication of fee rates |
| PoolBidding.EvictionMeans | crates/oregon-mempool/src/eviction.rs:5-13 | in fees and sizes: one entry is evicted before another if and only if it pays less per byte, or the same per byte and less in all, or the same of both with the smaller id |
| PoolAdmission.NarrowReplayRefines | crates/oregon-mempool/src/admission.rs:105-144 | replaying on the narrow ledger gives the same fee or error as on the whole chain state |
| PoolAdmission.PreparedIsOk | crates/oregon-mempool/src/admission.rs:23-161 | a prepared candidate is new, claims free outpoints, links to the pool transactions it spends and respects both closure limits |
| PoolAgreement.PrepareExact | crates/oregon-mempool/src/admission.rs:23-161 | on a pool that agrees with the chain: a transaction is prepared if and only if it is new, conflicts with nothing, is well formed, has a source for every input, is within both closure limits and may be applied after its ancestors; its parents are exactly the pool transactions it spends off the chain and its fee is what it spends beyond what it makes |
| PoolPrepare.CheckConflicts | crates/oregon-mempool/src/admission.rs:47-59 | the first claimed outpoint that is already spent, or none |
| PoolPrepare.FindParents | crates/oregon-mempool/src/admission.rs:62-79 | the direct pool parents, or the first input without a producer or with a bad index |
| PoolPrepare.CheckDescendants | crates/oregon-mempool/src/admission.rs:85-94 | refuses if and only if some ancestor has no room for one more descendant |
| PoolPrepare.NarrowLedger | crates/oregon-mempool/src/admission.rs:105-127 | exactly the chain entries that the ancestors and the candidate can read |
| PoolPrepare.ReplayFee | crates/oregon-mempool/src/admission.rs:129-144 | the replay loop on a ledger object gives the specified fee or error |
| PoolPrepare.PrepareAdmission | crates/oregon-mempool/src/admission.rs:23-161 | the whole preparation equals its specification, every error included; closure and order errors cannot occur |
| PoolMachine.SelectWeakest | crates/oregon-mempool/src/capacity.rs:35-46 | the scan finds the one entry evicted before the candidate and before all others, or that there is none |
| PoolMachine.PlanRemovals | crates/oregon-mempool/src/capacity.rs:11-68 | the loop terminates with the specified removal set and byte total, or the refusal |
| PoolCapacity.PlanIsSound | crates/oregon-mempool/src/capacity.rs:11-68 | the removal set is closed under children, spares the candidate's ancestors, contains only entries justified by a weaker root, and makes room |
| PoolBidding.PlanIsAuction | crates/oregon-mempool/src/capacity.rs:11-68 | planning is an auction: while there is no room, the cheapest entry left goes with its descendants, as long as it bids less than the candidate and the candidate does not depend on it; it ends with room or outbid |
| PoolBidding.EvictionsAreOutbid | crates/oregon-mempool/src/capacity.rs:11-68 | every evicted entry is or descends from an evicted root that pays less per byte than the candidate, or the same per byte and less in all, or the same of both with the smaller id; with room nothing is evicted |
| PoolBidding.RefusedIsOutbid | crates/oregon-mempool/src/capacity.rs:35-50 | a candidate is refused for capacity only if after all those evictions there is no room and nothing left bids less, or the least bid left is that of one of its ancestors |
| PoolUpdate.RemovedBytes | crates/oregon-mempool/src/capacity.rs:70-85 | the bytes of the listed entries; no overflow can occur |
| PoolUpdate.Preflight | crates/oregon-mempool/src/admission.rs:163-237 | refuses a plan if and only if one of its conditions fails |
| PoolUpdate.PlansPass | crates/oregon-mempool/src/admission.rs:163-237 | every plan that capacity planning returns passes the preflight |
| PoolCommit.CommitKeepsValid | crates/oregon-mempool/src/admission.rs:239-313 | carrying out a plan keeps the whole pool invariant, the ancestor and descendant bounds included |
| PoolObject.Mempool.Open | crates/oregon-mempool/src/pool.rs:26-38 | a new empty pool, or InvalidConfig if and only if a limit is zero |
| PoolObject.Mempool.CommitAdmission | crates/oregon-mempool/src/admission.rs:239-313 | the entry, link and claim updates in place give exactly the committed pool |
| PoolObject.Mempool.AdmitTransaction | crates/oregon-mempool/src/pool.rs:71-82 | admission in place: the specified pool and evictions, or the specified error and no change |
| PoolCapacity.AdmitKeepsValid | crates/oregon-mempool/src/pool.rs:71-82 | every admission keeps the invariant; the keys are the old ones without the evicted, plus the new one |
| PoolReplay.ReplaySucceeds | crates/oregon-mempool/src/admission.rs:129-144 | over a pool that agrees with the chain, replaying any parents-first list succeeds and leaves a ledger that depends only on the set |
| PoolRebuild.RebuildStep | crates/oregon-mempool/src/reconcile.rs:91-113 | re-admitting an old transaction evicts nothing and never reports a conflict, a known entry, lack of capacity, a cycle or a broken invariant |
| PoolReconcile.RebuildSucceeds | crates/oregon-mempool/src/reconcile.rs:91-113 | the rebuild fails if and only if there is something to admit and no next height; otherwise the new pool agrees with the new chain |
| PoolReconcile.ReconcileBlockOutcome | crates/oregon-mempool/src/reconcile.rs:10-59 | retained and removed partition the old entries; nothing retained is in the block or spends what it spends; the exact failure condition |
| PoolReconcile.ReconcileReorgOutcome | crates/oregon-mempool/src/reconcile.rs:61-89 | the same after a reorganization |
| PoolKept.BlockKeeps | crates/oregon-mempool/src/reconcile.rs:10-59 | a new block removes every entry that is in it, spends what it spends or descends from one that does; any other entry only if it is malformed, has an input that is neither on the new chain nor an output of a retained parent, exceeds a closure limit, or may not be applied after the ancestors it would have |
| PoolKept.ReorgKeeps | crates/oregon-mempool/src/reconcile.rs:61-113 | a reorganization removes an entry only for one of those four reasons, all read off the new pool and the new chain |
| PoolSteady.AdmitAgrees | crates/oregon-mempool/src/pool.rs:71-82 | an admission against the chain state that the pool agrees with leaves a pool that agrees with it, whatever it evicts |
| PoolSteady.SteadyReorg | crates/oregon-mempool/src/reconcile.rs:61-113 | reconciling a pool with a chain state that it already agrees with keeps every entry, fee and link |
| PoolSteady.RunAgrees | crates/oregon-mempool/src/pool.rs:18-82 | every pool reachable by calls against the chain states of their bases agrees with the chain state of its own base, so reconciling it with that changes nothing |
| PoolObject.Mempool.RebuildAgainstChain | crates/oregon-mempool/src/reconcile.rs:91-113 | the admission loop over a new pool object equals the specified rebuild |
| PoolObject.ExcludedBy | crates/oregon-mempool/src/reconcile.rs:17-33 | exactly the entries displaced by the block's inputs and their descendants |
| PoolObject.Mempool.ReconcileActiveBlock | crates/oregon-mempool/src/reconcile.rs:10-59 | the pool is replaced by the specified one, or left as it was on any error |
| PoolObject.Mempool.ReconcileReorganization | crates/oregon-mempool/src/reconcile.rs:61-89 | the pool is replaced by the specified one, or left as it was on any error |
| PoolRun.Run | crates/oregon-mempool/src/pool.rs:18-82 | over every sequence of admissions and reconciliations the pool is valid: exact spender index, mirrored acyclic links, byte and count budgets, closure bounds |
| ChainLoops.CheckBlockSkeleton | crates/oregon-consensus/src/block.rs:38-100 | the checks in their order give the specified error or none, with the Merkle root computed by the level loop |
| ChainBlocks.CheckBlockMeans | crates/oregon-consensus/src/block.rs:38-100 | they pass if and only if the block is well formed |
| ChainLoops.ConnectBlock | crates/oregon-utxo/src/state.rs:156-215 | connecting a block equals its specification: ledger and undo, or the error |
| ChainLoops.DisconnectBlock | crates/oregon-utxo/src/state.rs:217-250 | disconnecting equals its specification: the ledger, or the mismatch |
| ChainConnect.ConnectExact | crates/oregon-utxo/src/state.rs:156-215 | a block connects if and only if it is well formed, repeats no transaction, each of its transactions may be applied in turn, and its coinbase commits to the height, keeps within the claim rule for the fees and makes nothing that exists; then the ledger is that of the transactions with the coinbase outputs added |
| ChainConnect.RunStops | crates/oregon-utxo/src/state.rs:172-190 | why the transactions of a block stop: at the first that may not be applied, for want of an input that a later one makes or for its own fault, or because the fees no longer fit |
| ChainConnect.ConnectConserves | crates/oregon-utxo/src/state.rs:156-215 | a block adds to the ledger exactly what its coinbase makes beyond its fees, and the fees are what its other transactions spend beyond what they make |
| ChainBlocks.DisconnectInverts | crates/oregon-utxo/src/state.rs:195-250 | disconnecting after connecting always succeeds and restores the ledger if and only if the block changed no entry that was there before and after |
| ChainHistory.AppsDistinct | crates/oregon-utxo/src/state.rs:85-215 | on a chain from the anchor every transaction is applied at most once |
| ChainHistory.NoRecreation | crates/oregon-utxo/src/state.rs:156-215 | a block on a chain leaves every entry it does not remove as it was |
| ChainHistory.UndoExact | crates/oregon-utxo/src/state.rs:217-250 | the undo of the last block of a chain takes the ledger back exactly |
| ChainTypes.BlockWork | crates/oregon-consensus/src/work.rs:34-38 | every block adds at least one unit of work |
| ChainTypes.WorkMeans | crates/oregon-consensus/src/work.rs:34-38 | the work of a target is the largest number that, times the target plus one, is at most 2 to the 256th |
| ChainLoops.RecordDisconnect | crates/oregon-chainstate/src/utxo_delta.rs:29-36 | the delta with created entries removed and spent ones restored |
| ChainLoops.RecordConnect | crates/oregon-chainstate/src/utxo_delta.rs:38-54 | the delta with spent entries removed and created ones as staged |
| ChainLoops.AppendDelta | crates/oregon-chainstate/src/utxo_delta.rs:56-63 | committing the appended operations patches the stored ledger by the delta |
| ChainStore.DisconnectRecorded | crates/oregon-chainstate/src/utxo_delta.rs:29-36 | a delta that leads to the staged ledger still does after a disconnect |
| ChainStore.ConnectRecorded | crates/oregon-chainstate/src/utxo_delta.rs:11-54 | after a connect it does if and only if the block rewrote no surviving entry |
| ChainLoops.WalkToFork | crates/oregon-chainstate/src/reorg.rs:39-81 | the walk to the fork terminates on every store and equals its specification |
| ChainReorg.DiscoverLeads | crates/oregon-chainstate/src/reorg.rs:39-81 | the path found is consecutive, off the active chain, free of invalid blocks and ends at the candidate |
| ChainLoops.LoadReorgPlan | crates/oregon-chainstate/src/reorg.rs:83-130 | loading undos from the tip down and bodies upwards equals its specification, errors included |
| ChainLoops.UnwindBlocks | crates/oregon-chainstate/src/transition.rs:111-116 | undoing the old branch with its delta equals its specification |
| ChainLoops.WindBlocks | crates/oregon-chainstate/src/transition.rs:118-144 | connecting the new branch equals its specification, with the position and error of the first block that fails |
| ChainSwitch.UnwindExact | crates/oregon-chainstate/src/transition.rs:111-116 | undoing k active blocks gives the replay of the chain without them, and the delta leads there from disk |
| ChainPlan.WindAll | crates/oregon-chainstate/src/transition.rs:118-144 | every block connected on the way keeps index, active map, bodies, undos, ledger and delta in step |
| ChainPlan.PlanIsFit | crates/oregon-chainstate/src/reorg.rs:39-130 | a plan loaded from a consistent store has exact undos and a path whose records follow their parents |
| ChainPlan.PlanSwitches | crates/oregon-chainstate/src/transition.rs:146-191 | a reorganization that goes through leaves a consistent state on the new chain, with more work |
| ChainPlan.PlanFails | crates/oregon-chainstate/src/transition.rs:130-142 | a reorganization that fails changes at most index records of the new branch: tip, active map and ledger stay |
| ChainBlame.PlanExact | crates/oregon-chainstate/src/transition.rs:96-145 | a plan whose write goes through succeeds if and only if every body connects on the replay of the chain up to the fork and the bodies below it; otherwise it names the fault of the first that does not, records before it are as they were, it and those above it are invalid, and all other records are untouched |
| ChainExtend.ExtendKeeps | crates/oregon-chainstate/src/transition.rs:14-62 | an extension appends the block to the chain and raises the work, or changes nothing |
| ChainExtend.HeaderKeeps | crates/oregon-chainstate/src/header.rs:84-129 | a header changes neither tip nor ledger; the preferred header tip never loses work |
| ChainAccept.PlaceSound | crates/oregon-chainstate/src/admission.rs:34-75 | a block extends the tip, wins a reorganization or is stored beside; whatever happens the invariant holds |
| ChainOutcome.NewHeader | crates/oregon-chainstate/src/header.rs:84-129 | a new valid header is stored one above its parent and heavier by its own work, and preferred if and only if it is then heavier than the preferred one |
| ChainOutcome.NewOnTip | crates/oregon-chainstate/src/transition.rs:14-62 | a block whose body is wanted, on the tip, extends the chain if and only if it connects on the replay of the chain; otherwise nothing changes |
| ChainOutcome.NewAside | crates/oregon-chainstate/src/admission.rs:54-75 | one elsewhere that is not heavier than the tip is stored with its body, and nothing else changes |
| ChainOutcome.NewHeavier | crates/oregon-chainstate/src/transition.rs:64-191 | one that makes a stored branch heavier than the chain, within the window: the branch becomes the chain if and only if each block of it connects in turn; otherwise exactly its blocks from the first that does not are newly marked invalid and nothing else changes |
| ChainAccept.AcceptBlockOk | crates/oregon-chainstate/src/state.rs:80-91 | an error moves nothing, a moved tip has more work, a closed session changes nothing |
| ChainAccept.AcceptHeaderOk | crates/oregon-chainstate/src/state.rs:68-78 | the same for headers |
| ChainOutcome.NewTooDeep | crates/oregon-chainstate/src/transition.rs:64-94 | a heavier branch whose fork is more than 8064 blocks down does not move the chain: a reindex is required, on disk and in the session |
| ChainOutcome.NewOnTainted | crates/oregon-chainstate/src/reorg.rs:39-81 | a heavier branch with an invalid block in it is refused and nothing changes |
| ChainRun.RunInv | crates/oregon-chainstate/src/state.rs:44-91 | over every sequence of headers, blocks, prunes and restarts with any failing writes: memory, disk and replay of the active chain agree, undos are exact, no retained valid block beats the tip, the header tip has at least its work, and exactly the active blocks above the highest cursor pruned to have body and undo |
| ChainRun.HandleInv | crates/oregon-chainstate/src/state.rs:44-91 | no call and no restart lowers the work of the tip |
| ChainRun.RunIsWitnessed | crates/oregon-chainstate/src/state.rs:44-91 | over every run each block of the chain connects on the replay below it, each block marked invalid has on its branch a block that does not connect on the replay below it, and no block that is not marked beats the preferred header |
| ChainEmission.SubsidyHalves | crates/oregon-consensus/src/emission.rs:12-26 | the subsidy is 237,500,000 for the first 200,000 blocks, and 200,000 blocks later always half of it, rounded down |
| ChainEmission.ScheduleIsExact | crates/oregon-consensus/src/emission.rs:8-26 | the subsidies of any number of blocks add up to at most 94,999,997,000,000, and to exactly that if and only if there are at least 28 eras of them |
| ChainSupply.ClaimMeans | crates/oregon-consensus/src/coinbase.rs:34-68 | a claim passes if and only if the first block pays the founder and, beyond that, the entries that the coinbase makes hold no more than the subsidy and the fees, which fit 64 bits |
| ChainSupply.SupplyIsBounded | crates/oregon-consensus/src/coinbase.rs:14-69 | the supply law: after every run of a node the ledger holds at most the founder allocation and the subsidies up to the tip, and never more than the maximum supply |
| ChainRecovery.FreshOpens | crates/oregon-chainstate/src/recovery.rs:14-75 | a fresh store opens, exactly for a valid configuration, to the state with the anchor alone, and that opens again to itself |
| ChainObject.ChainState.Open | crates/oregon-chainstate/src/recovery.rs:14-75 | a session on any store as specified: bootstrapped, recovered, or the error |
| ChainObject.ChainState.AcceptHeader | crates/oregon-chainstate/src/state.rs:68-78 | the object changes exactly as the header step says |
| ChainObject.ChainState.ExtendActive | crates/oregon-chainstate/src/transition.rs:14-62 | the batch and the fields change exactly as the extension says |
| ChainObject.ChainState.ApplyReorgPlan | crates/oregon-chainstate/src/transition.rs:96-191 | staging, marking and switching change exactly what the plan says |
| ChainObject.ChainState.Reorganize | crates/oregon-chainstate/src/transition.rs:64-94 | the fork, the depth limit and the plan lead to exactly the specified state |
| ChainObject.ChainState.AcceptHealthyBlock | crates/oregon-chainstate/src/admission.rs:10-83 | the whole case split leads to exactly the specified state and outcome |
| ChainObject.ChainState.AcceptBlock | crates/oregon-chainstate/src/state.rs:80-91 | the gate and the storage fault change exactly what the step says |
| ChainObject.MarkBatch | crates/oregon-chainstate/src/transition.rs:131-139 | the batch marks the failing rest of the branch invalid |
| ChainObject.SwitchBatch | crates/oregon-chainstate/src/transition.rs:154-174 | the batch deletes the replaced heights and stores the new branch, the ledger changes and the tip |
| ChainPrune.PlanPrune | crates/oregon-chainstate/src/prune.rs:44-105 | succeeds if and only if every retained block has a verdict; its batch gives the pruned store and its report counts the deletions |
| ChainPrune.PruneInvisible | crates/oregon-chainstate/src/prune.rs:13-105 | for a candidate whose fork is within the window, fork and plan are the same on the pruned store, errors included |
| ChainPrune.PruneTwice | crates/oregon-chainstate/src/prune.rs:44-105 | a second prune at the same tip succeeds, deletes nothing and changes nothing |
| ChainShadowRun.PruningIsInvisible | crates/oregon-chainstate/src/prune.rs:13-120 | over whole runs: as long as no reorganization forks off below what was pruned and no restart finds a tip whose cursor is below it, a run and the same run without its prunes have the same tips, active chain, ledger and session |
| ChainShadowRun.HighTipsAlwaysAbove | crates/oregon-chainstate/src/transition.rs:64-94 | a run whose every call finds a tip no lower than at any earlier prune is such a run |
| ChainShadowRun.BelowMarkIsRefused | crates/oregon-chainstate/src/reorg.rs:83-130 | a reorganization that does fork off below is refused for want of the undo at the mark |
| ChainShadowRun.NodesAreBlind | crates/oregon-consensus/src/header.rs:43-80 | the rules of a node do not look at bodies, so this holds for every node |
| ChainPrune.PruneKeeps | crates/oregon-chainstate/src/prune.rs:107-120 | pruning keeps the chain invariant |
| ChainPrune.PruneRetains | crates/oregon-chainstate/src/prune.rs:13-105 | pruning empties the active chain up to the cursor of the tip and not a block more, whatever was pruned before |
| ChainRetention.PruneLeaves | crates/oregon-chainstate/src/prune.rs:44-105 | what a prune leaves: a body stays if and only if its block is not invalid, at most 8063 blocks below the tip, and on a branch that left the active chain at most 8064 blocks below the tip; an undo if and only if its block is active and that recent; the rest of every record stays |
| ChainRetention.PrunableIff | crates/oregon-chainstate/src/prune.rs:44-105 | on a consistent store a prune can be planned if and only if no body that recent, of a block not itself invalid, stands on an invalid block |
| ChainStuck.RunPrunable | crates/oregon-chainstate/src/prune.rs:107-120 | so it is after every run |
| ChainStuck.PruneIsStuck | crates/oregon-chainstate/src/prune.rs:72-82 | not every node can prune: two siblings are stored on a block that spends an output that is not there, then one of them gets a child that makes the branch heavier; the session stays healthy and every prune is refused; every header and coinbase follows the rules |
| ChainObject.ChainState.PruneData | crates/oregon-chainstate/src/prune.rs:107-120 | the object is pruned exactly when healthy, planned and written; the report counts the deletions, and the error is that of the gate, of a block without verdict, or of the write |
| ChainRecovery.ReopenStore | crates/oregon-chainstate/src/recovery.rs:77-222 | the checks, the height loop and the header tip equal the specified reopening, errors included |
| ChainBranch.AncestorIdAtHeight | crates/oregon-chainstate/src/branch.rs:17-34 | the walk to an ancestor terminates on every store and equals its specification |
| ChainBranch.MtpWindow | crates/oregon-chainstate/src/branch.rs:35-50 | the loop over at most eleven ancestors gives their times, or the error |
| ChainConsensus.MedianMeans | crates/oregon-consensus/src/time.rs:3-11 | the median is the middle of the sorted window, whatever its order |
| ChainConsensus.PrePowMeans | crates/oregon-consensus/src/header.rs:43-80 | but for proof of work a header fits its branch if and only if it names its parent, is later than the middle of the sorted times of its window of one to eleven blocks, and has the required target |
| ChainConsensus.OneTarget | crates/oregon-consensus/src/header.rs:43-80 | a header that follows the rules has the target that its parent determines, so siblings have the same |
| ChainConsensus.LaterPasses | crates/oregon-consensus/src/header.rs:43-80 | on a branch whose times ascend, a later time and that target are enough |
| ChainWeights.SideOutweighs | crates/oregon-consensus/src/asert.rs:8-98 | on a branch fifteen half-lives ahead of its schedule two blocks outweigh a whole window of late ones |
| ChainBranch.HeaderTipOutcome | crates/oregon-chainstate/src/recovery.rs:224-257 | the preferred header tip comes back if and only if no block on its branch is marked invalid |
| ChainReopen.ReopenOutcome | crates/oregon-chainstate/src/recovery.rs:77-257 | a consistent store reopens to the same tips and ledger, or the reason it is refused |
| ChainRun.RunReopens | crates/oregon-chainstate/src/recovery.rs:77-257 | after every run the store reopens to the tips and ledger of the session if and only if no reindex is required, no prune was made at a tip with a higher cursor, and no block below the preferred header is invalid; otherwise it is refused |
| ChainRun.RunResumes | crates/oregon-chainstate/src/recovery.rs:14-23 | a restart then changes nothing but the health of the session |
| ChainRestart.PruneThenLowerTip | crates/oregon-chainstate/src/recovery.rs:110-119 | not every run reopens: for every node with an initial target of at least 16384, a prefix of 1083 blocks or more ahead of schedule, a window of late blocks, a prune and two early blocks leave a healthy session on a store that is refused; every header and coinbase follows the rules |
| ChainRestart.PreferredThenRefused | crates/oregon-chainstate/src/recovery.rs:238-240 | nor does this one: a branch of two blocks announced by its headers, whose first block spends an output that is not there |
| WeightMetering.NormalizedWeight | crates/oregon-execution/src/weight.rs:36-42 | the ceiling of units times ratio, or an overflow if and only if it exceeds 64 bits |
| WeightMetering.CeilingIsLeast | crates/oregon-execution/src/weight.rs:36-42 | that ceiling is the least whole number that is at least units times ratio |
| WeightMetering.Apply | crates/oregon-execution/src/weight.rs:109-154 | consumed never decreases nor exceeds the budget; exhaustion shows the whole budget and lasts |
| WeightMetering.RunIsExact | crates/oregon-execution/src/weight.rs:91-154 | a sequence of charges is unexhausted if and only if its totals, each domain rounded up once, fit the budget and the counters; then consumed is exactly that |
| WeightMetering.SplitIndependent | crates/oregon-execution/src/weight.rs:109-154 | splitting and reordering charges does not matter |
| WeightMetering.ExhaustionIsPermanent | crates/oregon-execution/src/weight.rs:109-154 | no charge changes an exhausted meter |
| WeightMetering.WeightMeter.Open | crates/oregon-execution/src/weight.rs:92-107 | a meter, or InvalidBudget exactly for a zero budget or too much intrinsic weight |
| WeightMetering.WeightMeter.Take | crates/oregon-execution/src/weight.rs:109-137 | charging a domain in place; fails exactly when exhausted afterwards |
| WeightMetering.WeightMeter.TakeCommon | crates/oregon-execution/src/weight.rs:139-148 | charging common work in place; fails exactly when exhausted afterwards |
| FeeEscrow.NewTerms | crates/oregon-execution/src/fees.rs:108-139 | terms exist if and only if the fees are ordered and the escrow fits the supply |
| FeeEscrow.SettlementSucceeds | crates/oregon-execution/src/fees.rs:334-372 | within the terms a settlement passes its receipt check, charges the actual weight at the base and priority fees or at the maximum fee if that is less, and refunds the rest of the escrow |
| FeeEscrow.OpenKeepsOk | crates/oregon-execution/src/fees.rs:270-307 | opening keeps the book consistent and never finds the escrow already there |
| FeeEscrow.OpenIsExact | crates/oregon-execution/src/fees.rs:270-307 | an escrow opens if and only if its capability and source are unused, there is room among the open ones and in the history, and the capability covers it |
| FeeEscrow.SettleIsExact | crates/oregon-execution/src/fees.rs:309-378 | settling succeeds if and only if the escrow is open and the weight in range, with that charge and refund; the other errors but three cannot occur |
| FeeEscrow.RunBalanced | crates/oregon-execution/src/fees.rs:256-378 | over every sequence of calls open and settled are disjoint, the counts agree, and the money escrowed is held, charged or refunded |
| FeeEscrow.EscrowBook.Create | crates/oregon-execution/src/fees.rs:257-268 | an empty book, or ZeroEscrowCapacity exactly for zero |
| FeeEscrow.EscrowBook.OpenEscrow | crates/oregon-execution/src/fees.rs:270-307 | opening in place as specified; an error changes nothing |
| FeeEscrow.EscrowBook.Settle | crates/oregon-execution/src/fees.rs:309-378 | settling in place as specified; an error changes nothing |
| Asert.NeverFails | crates/oregon-consensus/src/asert.rs:8-98 | for every height of at least 1 and all 64-bit times no error occurs; the result is the clamped scaled target, within the limit for the parameters of a node |
| Asert.TargetAt | crates/oregon-consensus/src/asert.rs:73-97 | the target lies between 1 and the limit |
| Asert.FactorMonotone | crates/oregon-consensus/src/asert.rs:50-71 | the cubic factor grows with the fraction and stays within one doubling |
| AsertPower.FactorIsPower | crates/oregon-consensus/src/asert.rs:50-71 | the factor behaves like a power of two: for every fraction its square is the factor of twice the fraction, doubled past the radix, within one part in 3000 |
| Asert.RequiredTargetMonotone | crates/oregon-consensus/src/asert.rs:8-98 | a later parent never gives a smaller target, across shift boundaries too |
| Asert.OnSchedule | crates/oregon-consensus/src/asert.rs:8-98 | exactly on schedule the initial target is kept |
| Asert.HalfLifeShift | crates/oregon-consensus/src/asert.rs:30-36 | one half-life more adds exactly one doubling to the exponent if and only if the drift is not inside the last half-life before the schedule, or is a whole number of steps |
| Asert.HalfLifeShiftCanFail | crates/oregon-consensus/src/asert.rs:30-36 | one second before the schedule is a drift for which it does not |
| Asert.DoublingLaw | crates/oregon-consensus/src/asert.rs:80-88 | one more shift doubles the scaled target up to the dropped bit |
| Asert.HalfLifeDoubles | crates/oregon-consensus/src/asert.rs:8-98 | one half-life later the required target has doubled, but for the dropped bit and the two clamps, wherever the exponent shifts by a whole doubling |
| Asert.HalfLifeCanMiss | crates/oregon-consensus/src/asert.rs:8-98 | it has not at height 2 with a parent 299 seconds after genesis |
| AsertHalf.HalfShift | crates/oregon-consensus/src/asert.rs:30-36 | half a half-life more adds exactly half a doubling to the exponent, unless the drift is inside the last half of a half-life before the schedule and not a whole number of steps; then one step less |
| AsertHalf.RequiredTargetRoots | crates/oregon-consensus/src/asert.rs:8-98 | half a half-life later the required target is the root of two times larger, within one part in 2999, but for rounding down: never more, and no less where the exponent is not rounded and the limit not reached; so half a half-life twice is a doubling |
| AsertHalf.HalfLate | crates/oregon-consensus/src/asert.rs:149-156 | half a half-life behind schedule an initial target of 1,000,000 becomes 1,414,093 |
| Asert.NewParams | crates/oregon-consensus/src/params.rs:20-34 | parameters exist if and only if the initial target is within the limit |
| MerkleRoot.TreeOfNextLevel | crates/oregon-primitives/src/merkle.rs:14-27 | pairing one level does not change the tree hash |
| MerkleRoot.TransactionRoot | crates/oregon-primitives/src/merkle.rs:7-30 | the level loop computes the recursive tree hash of the leaves; an empty list is refused |
| MerkleRoot.RootInjective | crates/oregon-primitives/src/merkle.rs:7-41 | equal roots have the same ordered list of transaction ids, whatever their lengths |
| Encoding.VarintExact | crates/oregon-primitives/src/encoding.rs:65-90 | the reader accepts exactly the shortest form of each 64-bit number |
| Encoding.VarintInjective | crates/oregon-primitives/src/encoding.rs:123-139 | different numbers have different varints |
| Encoding.ListExact | crates/oregon-primitives/src/encoding.rs:92-112 | a length-prefixed list is read exactly when it is the encoding of allowed values within the limit |
| WireFormat.TransactionRoundTrip | crates/oregon-primitives/src/transaction.rs:44-133 | decoding gives a transaction if and only if it is of version 1, within the limits, and the bytes are its encoding |
| WireFormat.HeaderRoundTrip | crates/oregon-primitives/src/block.rs:18-53 | decoding gives a header if and only if the bytes are its encoding |
| WireFormat.BlockRoundTrip | crates/oregon-primitives/src/block.rs:67-98 | decoding gives a block if and only if it is nonempty, within the limits, and the bytes are its encoding |
| WireLayout.LittleEndian | crates/oregon-primitives/src/encoding.rs:48-63 | byte i of a fixed-width number is its digit for 256 to the power i |
| WireLayout.VarintLayout | crates/oregon-primitives/src/encoding.rs:123-139 | a varint is one byte up to 252, or a mark and the fewest of two, four or eight little-endian bytes that hold it |
| WireLayout.ListLayout | crates/oregon-primitives/src/transaction.rs:44-69 | a list is its length and then its values, each in the bytes where the ones before it end |
| WireLayout.HeaderLayout | crates/oregon-primitives/src/block.rs:18-27 | a header is 114 bytes: version 0-2, previous block 2-34, root 34-66, time 66-74, difficulty 74-106, nonce 106-114, numbers little-endian |
| WireLayout.InputLayout | crates/oregon-primitives/src/transaction.rs:49-58 | an input is the spent transaction in bytes 0-32, the output index in 32-36 and the sequence in 36-40, both little-endian, and then the witness items |
| WireLayout.OutputLayout | crates/oregon-primitives/src/transaction.rs:61-65 | an output is the little-endian value in bytes 0-8, and then the program behind its length |
| WireLayout.TransactionLayout | crates/oregon-primitives/src/transaction.rs:44-69 | a transaction is the version in its first two bytes, the inputs, the outputs, and the lock time in its last eight |
| WireLayout.BlockLayout | crates/oregon-primitives/src/block.rs:67-74 | a block is its header in the first 114 bytes and then its transactions |
| WireDecoder.Decoder.TakeVarint | crates/oregon-primitives/src/encoding.rs:65-90 | the decoder object reads a varint as specified and advances past it |
| WireDecoder.Decoder.TakeLen | crates/oregon-primitives/src/encoding.rs:92-99 | the same for a limited length |
| WireDecoder.Decoder.TakeBytes | crates/oregon-primitives/src/encoding.rs:101-112 | the same for a byte string |
| WireDecoder.Decoder.TakeTransaction | crates/oregon-primitives/src/transaction.rs:82-133 | the nested loops read a transaction as specified |
| WireDecoder.Decoder.TakeHeader | crates/oregon-primitives/src/block.rs:36-53 | reads a header as specified |
| WireDecoder.Decoder.TakeBody | crates/oregon-primitives/src/block.rs:83-92 | reads a nonempty list of transactions as specified |
| WireDecoder.DecodeTransactionBytes | crates/oregon-primitives/src/transaction.rs:71-80 | decoding a whole transaction equals its specification, trailing bytes refused |
| WireDecoder.DecodeHeaderBytes | crates/oregon-primitives/src/block.rs:29-34 | decoding a whole header equals its specification |
| WireDecoder.DecodeBlockBytes | crates/oregon-primitives/src/block.rs:76-98 | decoding a whole block equals its specification |
| WireDecoder.WriteVarint | crates/oregon-primitives/src/encoding.rs:123-139 | appends the shortest form |
| WireDecoder.EncodeTransactionBytes | crates/oregon-primitives/src/transaction.rs:44-69 | the encoding loops give the specified bytes |
| WireDecoder.EncodeHeaderBytes | crates/oregon-primitives/src/block.rs:18-27 | the header bytes in order |
| WireDecoder.EncodeBlockBytes | crates/oregon-primitives/src/block.rs:67-74 | the encoding loop gives the specified bytes |

## Left out

- RandomX and its key schedule: proof of work is one parameter.
- BLAKE3 and the byte layout of hash preimages: hashes are free constructors.
- RocksDB, schema migration and the storage codecs: the store is a record of maps.
- The kinds of errors of a refused header: in the chain they are one error.
- Base-fee adjustment and the coinbase with execution fees.
- The execution journal and coordinator, the sync scheduler and the reserve model.
- Networking, sessions, queues and relay caches.
- Envelopes, receipts, events, effects and peer messages on the wire: they would add codecs of the
  same shape as the transaction codec.
- Amount arithmetic beyond the supply bound.
- The supply bound on a new funding capability: the escrow book is proved for every capability.
- ChainShadowRun.PruningIsInvisible: every write goes through, because a body that a pruned node
  receives again is a write that the other node does not make.
- Asert.HalfLifeDoubles: goes one way on targets, because a small target can double although the
  exponent was rounded; on exponents `Asert.HalfLifeShift` goes both ways.
- WireDecoder.Decoder.TakeBytes: an offset plus length beyond the machine word is reported as the
  end of the input rather than as a length limit; it needs a length limit near 2^64.
- ChainPrune.PlanPrune: the counters are unbounded, and when several blocks have no verdict the error
  may be that of any of them, because the order of the index iterator is not modelled.
- ChainLoops.DisconnectBlock: a stored undo that lists an outpoint twice is not represented, because
  undos are a map and a set.
