# Citrea: finality, Bitcoin light client, batch proving and EVM accounting in Dafny

This project models the parts of Citrea, a Bitcoin rollup, whose correctness shows only over whole runs or across
several functions, and proves what they are for.

- **Full-node finality** (`FinalityLedger`, `FinalityInvariant`, `FinalityRuns`, `FinalityTables`, `FinalityDrain`,
  `FinalityProofSteps`, `FinalityConvergence`, `FinalityProofs`, `L1BlockEvents`, `L1BlockHandler`). L1 blocks deliver
  sequencer commitments and batch proofs in any order while L2 blocks are synced. The ledger is a state machine; `Run` is
  any sequence of deliveries, retries and L2 blocks, and `Cut` what of it a handler gets through before it halts. The
  handler class updates the tables in place and every table it holds is what the run it went through leads to.
- **Bitcoin header chain** (`Powers`, `CompactTarget`, `BlockWork`, `Timestamps`, `HeaderChain`). Compact targets, 256-bit
  work, retargeting, the eleven-slot ring of timestamps and the twenty-minute rule of testnet4, first as arithmetic and
  then over accepted runs of headers on mainnet, testnet4 and signet.
- **Batch prover** (`StateDiffs`, `Partitioning`, `BatchProver`). Which pending commitments can be proven, how they are
  split into proofs, and the state diffs merged on the way.
- **Rollup transactions in Bitcoin blocks** (`MerkleTree`, `RelevantTxs`). What the native side extracts from a block and
  what the verifier accepts for its header.
- **EVM** (`EvmHistory`, `EvmBlocks`, `EvmAccounts`, `GasEstimation`, `CallTraces`). Block, gas and log accounting over
  every run of the hooks, the gas-limit search, and the conversions of call trees.

`Wrappers` and `Orders` hold an option type and ascending listings of finite sets.

Hashes, Merkle roots of L2 blocks, proof verification, the fork schedule, compressed sizes, transaction parsing and
execution, and the filter of a log query are functions or values handed in. What the circuit guarantees of a proof output
is the predicate `WellFormedOutput`; what is assumed of SHA-256 is `NoCollision`, for the trees compared and no others.

Some promises do not hold of the code as it stands. For each there is a lemma with the exact condition and one with an
input that fails:

- A retry pass over pending commitments leaves one behind that could be committed exactly when a pending commitment 1 ends
  past the head while another commitment 1 is committed and something else could be committed (`RetryMissesIff`; the run
  `StaleFirstBlocksTheRest`). `EarlyStopLosesNothing` and `DeliveryOrderIsIrrelevant` are the positive forms.
- The `unreachable!` arm for a commitment error is reached, exactly by a delivered first commitment that is synced and ends
  right before the start (`CommitmentFails`; `EmptyFirstCommitmentAborts`). One that ends earlier aborts the node before,
  when its block range is read (`EarlyFirstCommitmentAborts`).
- The order of delivery does matter for proofs: one that comes before a commitment it speaks about, or before the L1 block
  it names, is lost (`ProofLostIff`; `EarlyProofIsLost`). `ProofsCatchUp` is the positive form.
- The verifier accepts what is extracted from a block unless the transaction prefix is all zero and either longer than an
  id or not matched by the coinbase's own wtxid (`ExtractionIsAccepted`; `ZeroPrefixIsRefused`).
- A retarget cannot be encoded exactly when the new target has fewer than sixteen bits (`RetargetFailsIff`;
  `LowTargetAborts`).
- A log query reports a receipt's logs with the same log index but with the transaction index counted from genesis; the
  two agree exactly for a block that starts at transaction 0 or none of whose logs passes the filter
  (`QueryMatchesReceiptsIff`; `SecondBlockDiffers`).

## Model

| member | source | states |
|---|---|---|
| `FinalityInvariant.CommitIsNext` | crates/fullnode/src/da_block_handler.rs:379-495 | A commitment is accepted only as the next index of the chain, with a non-empty synced range right after the last one and the Merkle root of that range |
| `FinalityInvariant.CommitmentKeepsInv` | crates/fullnode/src/da_block_handler.rs:348-526 | Every exit of a commitment step keeps the ledger invariant and only lets the ledger grow |
| `FinalityInvariant.AcceptedProof` | crates/fullnode/src/da_block_handler.rs:633-759 | An accepted proof starts no later than just after the proven index, matches committed commitments hash by hash and, when it names its predecessor as the circuit does, gives that one's hash and starts from the state root after it |
| `FinalityInvariant.ProofKeepsInv` | crates/fullnode/src/da_block_handler.rs:551-759 | Every exit of a proof step keeps the ledger invariant and only lets the ledger grow |
| `FinalityInvariant.ProvenWithinCommitted` | crates/fullnode/src/da_block_handler.rs:656-663 | In every ledger that keeps the invariant the proven mark is within the committed mark in height and index |
| `FinalityRuns.StepKeepsInv` | crates/fullnode/src/da_block_handler.rs:187-323 | Every event of a run, retries included, keeps the invariant and only lets the ledger grow |
| `FinalityRuns.RunKeepsInv` | crates/fullnode/src/da_block_handler.rs:166-323 | The invariant holds after every legal run |
| `FinalityRuns.ChainTiles` | crates/fullnode/src/da_block_handler.rs:405-430 | A height lies in exactly one commitment's range if it is between the Tangerine start and the last end, and in none otherwise |
| `FinalityRuns.CommittedChainOfRun` | crates/fullnode/src/da_block_handler.rs:348-526 | After every run from an empty ledger the committed indices are exactly 1..n, their non-empty ranges tile the heights from the Tangerine start, and each root is the Merkle root of its range |
| `FinalityRuns.RunOnlyGrows` | crates/fullnode/src/da_block_handler.rs:348-759 | Between any two points of a run no commitment is overwritten, no accepted proof lost, and neither mark goes down |
| `FinalityRuns.ProvenNeverPassesCommitted` | crates/fullnode/src/da_block_handler.rs:656-663 | After every run proven is within committed in height and index, and a proof handled then can abort only on an output that names a predecessor without its hash |
| `FinalityRuns.ProofEventAborts` | crates/fullnode/src/da_block_handler.rs:615-887 | In every run a proof event, a delivery or a whole retry pass with all the ledgers inside it, aborts only on the output of that proof or of a pending one that names a predecessor without its hash, so never because proven is above committed |
| `FinalityTables.ProofEventsNeverAbort` | crates/fullnode/src/da_block_handler.rs:615-887 | In a run whose delivered proofs name a predecessor together with its hash no proof event ever aborts |
| `FinalityRuns.ProvenIndicesAreCovered` | crates/fullnode/src/da_block_handler.rs:633-759 | After every run each index from 1 to the proven one lies in the range of an accepted proof, and every accepted proof matches the commitments it ranges over |
| `FinalityRuns.PastMarksAgree` | crates/fullnode/src/da_block_handler.rs:511-519 | As of any past L1 height proven is within committed, and a later height never reports a lower mark |
| `FinalityTables.TablesOfRun` | crates/fullnode/src/da_block_handler.rs:497-509 | After every run each recorded root maps to the range of a committed commitment with that root and every committed root is recorded, exactly the committed commitments are listed by L1 block, whatever is listed, pending or accepted under an L1 height was delivered there, and an L1 hash is mapped to the height it was seen at |
| `FinalityDrain.CommitmentFails` | crates/fullnode/src/da_block_handler.rs:405-495 | A commitment step errs, other than by a root mismatch, exactly on a synced first commitment that ends right before the start, and aborts exactly on one that ends earlier |
| `FinalityDrain.CommitmentHaltsIff` | crates/fullnode/src/da_block_handler.rs:467-495 | A commitment step ends in the halting error if and only if the commitment is the next one, its blocks are synced and its root is not the Merkle root of their hashes; it then writes nothing |
| `FinalityDrain.CommitmentWaitsIff` | crates/fullnode/src/da_block_handler.rs:348-465 | A commitment is dropped exactly when its index is committed or the chain ends at or past its end, and kept pending exactly when it is not the next one or its blocks are not synced; what is stored, and when a waiting one is left as it is |
| `FinalityDrain.StaleFirstStops` | crates/fullnode/src/da_block_handler.rs:787-842 | A stale pending commitment 1 makes the whole retry pass do nothing |
| `FinalityDrain.DrainReachesMaximalPrefix` | crates/fullnode/src/da_block_handler.rs:780-845 | After a successful retry pass the next index is not pending or waits for blocks, if and only if the pass met neither a stale first commitment (then it did nothing) nor an empty one |
| `FinalityDrain.RetryMissesIff` | crates/fullnode/src/da_block_handler.rs:780-845 | A successful retry pass leaves a pending commitment behind that would be committed if tried, if and only if it met a stale first commitment and there was one before |
| `FinalityDrain.RetryHaltsIff` | crates/fullnode/src/da_block_handler.rs:780-845 | Without a stale first commitment a retry pass ends in the halting error if and only if it leaves the next commitment pending with a wrong root, and one that is there from the start stops it before anything is committed |
| `FinalityConvergence.NeverRefused` | crates/fullnode/src/da_block_handler.rs:348-526 | A commitment of a valid history is never lost: it is committed already, committed now, or kept pending |
| `FinalityConvergence.DeliveryOrderIsIrrelevant` | crates/fullnode/src/da_block_handler.rs:187-323 | Any run that delivers the commitments of a valid history and no others, all of them, in any order and with repetitions, and has synced its chain, has after one retry pass exactly that history committed |
| `FinalityProofs.ProofVerdict` | crates/fullnode/src/da_block_handler.rs:551-759 | Of a proof of the history exactly what happens: lost when the L1 block it names or a commitment it speaks about has not arrived, discarded behind the proven mark, kept pending while a commitment is pending or its range starts past the mark, accepted otherwise |
| `FinalityProofSteps.ProofOutcomes` | crates/fullnode/src/da_block_handler.rs:551-759 | For any proof whatever, the exact condition of each way its step ends, in terms of the hashes it gives, the commitments known, the marks and the state root it starts from |
| `FinalityProofSteps.ProofWrites` | crates/fullnode/src/da_block_handler.rs:690-759 | What each way writes: an accepted proof joins the list of the block it was found in and moves the proven mark to its last commitment, a waiting one is stored under its range, otherwise nothing changes |
| `FinalityProofSteps.RetryProofsUntilStuck` | crates/fullnode/src/da_block_handler.rs:851-887 | A retry pass over any pending proofs that reports no error leaves none, or the first one left can be neither accepted nor discarded |
| `FinalityProofs.RetryProofsReach` | crates/fullnode/src/da_block_handler.rs:851-887 | With the history committed and only proofs of it pending, one retry pass brings proven to every index up to which they leave no gap, and what stays pending begins past a gap, so stopping early costs nothing |
| `FinalityProofs.RunKeepsProofs` | crates/fullnode/src/da_block_handler.rs:187-323 | Along any run in which each proof comes after what it speaks about no delivered proof is lost: it is behind the proven mark or one of its range is pending |
| `FinalityProofs.ProofsCatchUp` | crates/fullnode/src/da_block_handler.rs:187-323 | Any run that delivers a valid history and proofs of it, each after what it speaks about and otherwise in any order, has after one retry of commitments and proofs the history committed and every index proven up to which the proofs leave no gap; proven equals committed when they cover it |
| `FinalityProofs.ProofLostIff` | crates/fullnode/src/da_block_handler.rs:625-631 | A proof of the history is lost if and only if it names an unknown L1 block, or is past the proven mark and speaks about a commitment neither committed nor pending |
| `FinalityProofs.EarlyProofIsLost` | crates/fullnode/src/da_block_handler.rs:898-932 | A proof delivered before its commitments leaves the ledger as it was |
| `FinalityConvergence.EarlyStopLosesNothing` | crates/fullnode/src/da_block_handler.rs:780-845 | With at most one commitment per index and a non-empty first range, every successful retry pass reaches the maximal committed prefix and leaves nothing behind that could be committed |
| `FinalityConvergence.StaleFirstBlocksTheRest` | crates/fullnode/src/da_block_handler.rs:787-842 | A legal run of five events after which retrying does nothing although commitment 2 is pending and would be committed if tried |
| `L1BlockEvents.BlockEventsLegal` | crates/fullnode/src/da_block_handler.rs:187-323 | The events of an L1 block at a height not below the last extend any run legally |
| `L1BlockEvents.BlockIsCut` | crates/fullnode/src/da_block_handler.rs:187-323 | A block is handled by learning its hash, taking every item in order, retrying commitments, retrying proofs and recording the scan, exactly up to the first of these that halts or aborts the node |
| `L1BlockEvents.QueueIsCut` | crates/fullnode/src/da_block_handler.rs:166-176 | A queue is handled so block after block, and the blocks from the one that did not finish on stay queued |
| `L1BlockEvents.DeliveredMismatchHalts` | crates/fullnode/src/da_block_handler.rs:226-245 | An item that is the next commitment with synced blocks and a wrong root ends the block with the halting error, and nothing after it is looked at |
| `L1BlockEvents.PendingMismatchHalts` | crates/fullnode/src/da_block_handler.rs:281-294 | A commitment with a wrong root that is next and pending after the items ends the block with the halting error, unless a stale first commitment hides it |
| `L1BlockEvents.BlockWorksOff` | crates/fullnode/src/da_block_handler.rs:281-313 | A block that finishes has taken all its items and both retries; no pending commitment can then extend the chain unless the first one is stale or empty, the first pending proof cannot be settled, and the scan is recorded |
| `L1BlockEvents.HistoryIsFine` | crates/fullnode/src/da_block_handler.rs:187-323 | On a valid history no commitment is refused, none of its proofs aborts the node, and both retry passes succeed |
| `L1BlockEvents.QueueCatchesUp` | crates/fullnode/src/da_block_handler.rs:166-323 | When what went before and the queued blocks together bring a valid history and proofs of it, every block finishes, the history is committed and every index proven up to which the proofs leave no gap |
| `L1BlockHandling.L1BlockHandler.ValidIsConsistent` | crates/fullnode/src/da_block_handler.rs:166-323 | The tables of every handler hold what the theorems about runs say: the chain tiles, proven is within committed, accepted proofs cover the proven indices and match the chain, the side tables agree |
| `L1BlockHandling.EmptyFirstCommitmentAborts` | crates/fullnode/src/da_block_handler.rs:226-245 | A first commitment that ends right before the start fails without a halting error, and its delivery aborts the node in the arm taken for unreachable |
| `L1BlockHandling.EarlyFirstCommitmentAborts` | crates/fullnode/src/da_block_handler.rs:467-471 | A first commitment that ends earlier aborts the node when its block range is read |
| `L1BlockHandling.L1BlockHandler.constructor` | crates/fullnode/src/da_block_handler.rs:99-128 | A new handler holds the empty ledger |
| `L1BlockHandling.L1BlockHandler.ProcessSequencerCommitment` | crates/fullnode/src/da_block_handler.rs:348-526 | The in-place step over six tables is the commitment transition of the state machine, in state and outcome; it halts exactly on the next commitment with synced blocks and a wrong root |
| `L1BlockHandling.L1BlockHandler.VerifyCommitmentHash` | crates/fullnode/src/da_block_handler.rs:898-932 | The hash check is that of the state machine, including the pending exit |
| `L1BlockHandling.L1BlockHandler.VerifyCommitmentHashes` | crates/fullnode/src/da_block_handler.rs:678-688 | The loop over a proof's hashes ends as the recursive check over its whole range does |
| `L1BlockHandling.L1BlockHandler.ProcessTangerineProof` | crates/fullnode/src/da_block_handler.rs:615-759 | The in-place step is the proof transition of the state machine, in state and outcome |
| `L1BlockHandling.L1BlockHandler.ProcessZkProof` | crates/fullnode/src/da_block_handler.rs:551-602 | A proof that does not verify or has no readable output is discarded, any other handled as above |
| `L1BlockHandling.L1BlockHandler.RetryPendingCommitment` | crates/fullnode/src/da_block_handler.rs:788-841 | One turn of the retry loop is the retry transition, with the same decision to go on or stop |
| `L1BlockHandling.L1BlockHandler.ProcessPendingCommitments` | crates/fullnode/src/da_block_handler.rs:780-845 | The loop over a snapshot of the table is the whole retry transition |
| `L1BlockHandling.L1BlockHandler.RetryPendingProof` | crates/fullnode/src/da_block_handler.rs:858-883 | One turn of the proof retry loop is the retry transition, with the same decision to go on or stop |
| `L1BlockHandling.L1BlockHandler.ProcessPendingProofs` | crates/fullnode/src/da_block_handler.rs:851-887 | The loop over a snapshot of the table is the whole proof retry transition |
| `L1BlockHandling.L1BlockHandler.ProcessItems` | crates/fullnode/src/da_block_handler.rs:213-279 | The loop over a block's items extends the recorded run by the events got through and ends as they do |
| `L1BlockHandling.L1BlockHandler.RetryAll` | crates/fullnode/src/da_block_handler.rs:281-313 | The recorded run grows by a retry of the commitments, a retry of the proofs and the record of the scan, up to the first that halts or aborts the node |
| `L1BlockHandling.L1BlockHandler.ProcessL1Block` | crates/fullnode/src/da_block_handler.rs:187-323 | The recorded run grows by the block's hash, every item in order and the retries, up to the first event that halts or aborts the node |
| `L1BlockHandling.L1BlockHandler.SyncL2Block` | crates/fullnode/src/l2_syncer.rs:205-218 | A synced L2 block extends the recorded run and keeps it legal |
| `L1BlockHandling.L1BlockHandler.QueueBlock` | crates/common/src/da.rs:46-66 | A block that arrives at a height not below the last one keeps the queue in order |
| `L1BlockHandling.L1BlockHandler.ProcessQueuedBlocks` | crates/fullnode/src/da_block_handler.rs:166-176 | The recorded run grows by everything there is to do for one block after the other, up to the first event that halts or aborts the node; however it ends the tables are consistent and nothing committed or proven is lost; when it ends well nothing pending could be committed or proven, and any valid history brought in full is committed and proven as far as its proofs leave no gap |
| `CompactTarget.EncodableIff` | crates/bitcoin-da/src/verifier.rs:638-648 | Encoding stays in range exactly for targets of 16 to 255 bits |
| `CompactTarget.EncodedValue` | crates/bitcoin-da/src/verifier.rs:638-648 | The bytes picked are the exponent and the target shifted right, with a mantissa from 2^15 up to below 2^23, so the sign bit is clear |
| `CompactTarget.DecodeCanonical` | crates/bitcoin-da/src/verifier.rs:612-635 | Canonical bits decode to mantissa times a power of 256 without truncation |
| `CompactTarget.DecodeAny` | crates/bitcoin-da/src/verifier.rs:612-635 | What any bits stand for, canonical or not: 0 with the sign bit set, otherwise the mantissa divided or multiplied by a power of 256, modulo 2^256 |
| `CompactTarget.DecodeIsU256` | crates/bitcoin-da/src/verifier.rs:612-635 | All bits decode to a 256-bit number and its 32 bytes |
| `CompactTarget.RoundTrip` | crates/bitcoin-da/src/verifier.rs:612-648 | Decoding an encoded target rounds down by less than one part in 2^15 of the result, and the encoding is canonical |
| `CompactTarget.ReencodeCanonical` | crates/bitcoin-da/src/verifier.rs:612-648 | Re-encoding canonical bits returns them |
| `CompactTarget.EncodingMonotone` | crates/bitcoin-da/src/verifier.rs:638-648 | A larger target never has smaller bits |
| `CompactTarget.DecodeMonotone` | crates/bitcoin-da/src/verifier.rs:612-635 | Larger canonical bits never decode to a smaller target |
| `BlockWork.VerifyTargetHash` | crates/bitcoin-da/src/verifier.rs:591-600 | The byte loop accepts exactly when the little-endian hash is at most the big-endian target |
| `BlockWork.WorkIsInverse` | crates/bitcoin-da/src/verifier.rs:655-675 | Work is 2^256 / (T + 1) rounded down, for every target from 2 on |
| `BlockWork.WorkValue` | crates/bitcoin-da/src/verifier.rs:655-675 | The same for every 256-bit target, the largest 256-bit number for targets 0 and 1 included |
| `BlockWork.WorkAntitone` | crates/bitcoin-da/src/verifier.rs:655-675 | A smaller target never stands for less work, for all targets |
| `BlockWork.WorkPositive` | crates/bitcoin-da/src/verifier.rs:655-675 | Every target stands for some work |
| `BlockWork.ClampedSpan` | crates/bitcoin-da/src/verifier.rs:685-691 | The span used is the seconds from start to last, modulo 2^32, when these lie between a quarter and four times the expected ones, and the nearer bound otherwise |
| `BlockWork.RetargetExact` | crates/bitcoin-da/src/verifier.rs:678-703 | When the product fits 256 bits the new target is the old one times the seconds measured, taken within a factor of four, over the expected ones, rounded down and capped; it lies between a quarter and four times the old one |
| `Timestamps.MedianAtLeast` | crates/bitcoin-da/src/verifier.rs:581-585 | The median is at least m exactly when six of the eleven times are |
| `Timestamps.MedianNeverDecreases` | crates/bitcoin-da/src/verifier.rs:568-585 | Recording an accepted time never lowers the median, whichever slot it replaces |
| `Timestamps.RingHoldsLastEleven` | crates/bitcoin-da/src/verifier.rs:333-334 | A ring written at height mod 11 over eleven heights holds exactly their times, with the same median |
| `HeaderChain.VerifyHeader` | crates/bitcoin-da/src/verifier.rs:270-578 | The verifier's checks in source order, with byte-wise hash comparison, are the numeric step of the state machine, each error included |
| `HeaderChain.AcceptedExactly` | crates/bitcoin-da/src/verifier.rs:270-578 | A header is accepted if and only if its hash is right and at most the target of its own bits, it has the next height, the right link, the bits asked of it, a time past the median, and a next target that can be encoded; otherwise the error is that of the first check it fails |
| `HeaderChain.MaxBitsDecode` | crates/bitcoin-da/src/network_constants.rs:6-29 | Each network's maximal bits are canonical and decode to its maximal target |
| `HeaderChain.MaxTargetFits` | crates/bitcoin-da/src/verifier.rs:692-696 | Four times the expected span times the maximal target fits 256 bits, so the wrapping product does not wrap |
| `HeaderChain.StepKeepsGoodBits` | crates/bitcoin-da/src/verifier.rs:314-499 | An accepted step keeps the required bits canonical and within the maximal target |
| `HeaderChain.RunKeepsGoodBits` | crates/bitcoin-da/src/verifier.rs:314-499 | Along every accepted run the required bits stay canonical and no target exceeds the maximum |
| `HeaderChain.RetargetWithinFour` | crates/bitcoin-da/src/verifier.rs:346-357 | Along every accepted run a retarget multiplies without wrapping, at most quadruples the target, and at most quarters it up to compact rounding |
| `HeaderChain.RetargetFailsIff` | crates/bitcoin-da/src/verifier.rs:638-703 | The last header of an epoch, accepted by all checks, aborts the retarget exactly when the new target has fewer than sixteen bits |
| `HeaderChain.LowTargetAborts` | crates/bitcoin-da/src/verifier.rs:638-703 | A mainnet header at target 2^15, one second after its epoch began, passes every check from a state within the limits and aborts the retarget |
| `HeaderChain.BitsConstantInEpoch` | crates/bitcoin-da/src/verifier.rs:314-371 | On mainnet and signet all headers of an epoch carry the same bits |
| `HeaderChain.TwentyMinuteRule` | crates/bitcoin-da/src/verifier.rs:374-400 | Along every accepted run a header carries the required bits, except on testnet4 the easiest ones exactly when it is more than twenty minutes after the header before it and does not open an epoch |
| `HeaderChain.RetargetUsesFirstHeader` | crates/bitcoin-da/src/verifier.rs:374-439 | On every network the retarget starts from the bits and time of the epoch's first header, whatever twenty-minute exceptions happened in between |
| `HeaderChain.RetargetMeasuresEpoch` | crates/bitcoin-da/src/verifier.rs:678-703 | In numbers: the next bits encode the target of the epoch's first header times the seconds from its first to its last header, between a quarter and four times 1209600 (20160 on signet), over 1209600 (20160), rounded down and capped |
| `HeaderChain.RingIsLastEleven` | crates/bitcoin-da/src/verifier.rs:333-334 | From eleven accepted headers on the ring holds exactly the last eleven times, and the next header's time exceeds their median |
| `HeaderChain.MedianMonotone` | crates/bitcoin-da/src/verifier.rs:568-585 | Along every accepted run the median never decreases |
| `HeaderChain.TotalWorkIsSum` | crates/bitcoin-da/src/verifier.rs:359-361 | Total work is what the run started with plus the work of the targets its headers' bits stand for, or 2^256 - 1 if that is less |
| `HeaderChain.WorkStrictlyGrows` | crates/bitcoin-da/src/verifier.rs:359-361 | Every accepted header raises the total work until it saturates |
| `HeaderChain.RunIsLinkedAndWorked` | crates/bitcoin-da/src/verifier.rs:541-578 | Along every accepted run headers link by hash and height and every hash, read as a number, is at most the target its bits stand for, hence the maximal one |
| `HeaderChain.InitialBitsAreGood` | crates/bitcoin-da/src/network_constants.rs:72-106 | The initial bits of testnet4 and signet meet the condition under which the run theorems start |
| `StateDiffs.FromHashMap` | crates/common/src/utils.rs:21-26 | A map is listed with every key once and the same effect, in whatever order |
| `StateDiffs.EffectIsLastEntry` | crates/common/src/utils.rs:21-26 | A diff sets exactly the keys it mentions, each to what its last entry for the key says |
| `StateDiffs.MergeStateDiffs` | crates/common/src/utils.rs:21-26 | For every key the newer write wins and older ones to other keys survive; no key is listed twice |
| `StateDiffs.FlatPassSplits` | crates/batch-prover/src/prover.rs:501-557 | Merging the passes over two adjacent ranges is one pass over both |
| `StateDiffs.FlatPassIsLastWrites` | crates/batch-prover/src/prover.rs:854-865 | A pass over a range of blocks has a key if and only if some block of the range sets it, with the value that the highest such block gives it |
| `StateDiffs.GetStateDiff` | crates/batch-prover/src/prover.rs:854-865 | Merging block by block gives exactly the keys set by blocks of the range, each with the value of the highest block that sets it |
| `StateDiffs.CumulativeDiff` | crates/batch-prover/src/rpc.rs:415-440 | The cumulative diff over consecutive commitments has exactly the keys set from the first block to the last end, each with the value of the highest block that sets it |
| `Partitioning.Job.GreedySplits` | crates/batch-prover/src/prover.rs:481-563 | The greedy split is valid: every segment is non-empty, within the count, single-fork and within the size limit unless it is a singleton |
| `Partitioning.Job.GreedyCutsForced` | crates/batch-prover/src/prover.rs:522-557 | Every greedy segment but the last would break a limit with one commitment more |
| `Partitioning.Job.GreedyIsShortest` | crates/batch-prover/src/prover.rs:481-563 | No valid contiguous split has fewer segments, for a size that never shrinks when a run is extended |
| `Partitioning.Job.PartsConcatenate` | crates/batch-prover/src/partition.rs:98-152 | The partitions of a split concatenate to the commitments covered |
| `Partitioning.Job.PartsTile` | crates/batch-prover/src/partition.rs:98-142 | Partitions are non-empty and their height ranges follow each other without gap |
| `Partitioning.Job.SplitIsWithinLimits` | crates/batch-prover/src/prover.rs:522-557 | Every partition of a valid split is non-empty and, unless a single commitment, within the count, of one fork and within the size |
| `BatchProving.PartitionState.constructor` | crates/batch-prover/src/partition.rs:66-88 | A new state covers nothing yet and starts at the job's first height |
| `BatchProving.PartitionState.AddPartition` | crates/batch-prover/src/partition.rs:98-137 | Closing a partition extends the split by it and moves the start to the next commitment; the source's assertions are its preconditions |
| `BatchProving.PartitionState.IntoInner` | crates/batch-prover/src/partition.rs:145-152 | Handing out requires that everything is covered, and gives the partitions of the recorded split |
| `BatchProving.TryJoin` | crates/batch-prover/src/prover.rs:522-556 | The three checks let a commitment join exactly when count, fork and merged size allow it, and the diff carried on is that of the current partition |
| `BatchProving.PartitionNormal` | crates/batch-prover/src/prover.rs:495-563 | The loop yields exactly the partitions of the greedy split and meets its own assertion on indices and every assertion of the partition state |
| `BatchProving.PartitionOneByOne` | crates/batch-prover/src/prover.rs:486-493 | Every commitment becomes a partition of its own |
| `BatchProving.PartitionJob` | crates/batch-prover/src/prover.rs:481-563 | In both modes the partitions concatenate to the commitments and their height ranges tile; in normal mode they are within the limits and no valid split has fewer |
| `BatchProving.BatchProver.FilterUnsynced` | crates/batch-prover/src/prover.rs:392-425 | The prefix before the first unsynced commitment is kept, its end remembered as the sync target, and the target cleared when all are synced |
| `BatchProving.BatchProver.FilterIndexGap` | crates/batch-prover/src/prover.rs:430-456 | The longest gap-free run from the first commitment is kept, nothing when its predecessor is unknown |
| `BatchProving.BatchProver.FilterPending` | crates/batch-prover/src/prover.rs:392-456 | Both filters together leave exactly the longest synced, gap-free prefix with a known predecessor |
| `BatchProving.BatchProver.PartitionCommitments` | crates/batch-prover/src/prover.rs:481-563 | Partitions from the predecessor's end, or from Tangerine for commitment 1, cover the commitments and tile, also when the first one ends before that; in normal mode they are within the limits and fewest |
| `BatchProving.BatchProver.CreatePartitions` | crates/batch-prover/src/prover.rs:351-376 | The partitions concatenate to the longest provable prefix of the pending commitments and tile; by mode they are single commitments, or within the limits and no more than in any valid split |
| `MerkleTree.PathLeadsToRoot` | crates/bitcoin-da/src/helpers/merkle_tree.rs:80-135 | The path taken from a tree leads from its leaf back to its root, for every leaf |
| `MerkleTree.RootDeterminesLeaves` | crates/bitcoin-da/src/helpers/merkle_tree.rs:16-76 | Without collisions two leaf lists of equal length with equal roots are equal |
| `MerkleTree.SmallTrees` | crates/bitcoin-da/src/helpers/merkle_tree.rs:16-76 | The trees of one, two and three leaves spelled out: left before right, an odd leaf with itself, and which of them abort |
| `MerkleTree.BuildTree` | crates/bitcoin-da/src/helpers/merkle_tree.rs:16-76 | The level-by-level construction ends in the recursively defined root, or aborts on a duplicated pair exactly when the tree has one |
| `MerkleTree.GetIdxPath` | crates/bitcoin-da/src/helpers/merkle_tree.rs:80-97 | The loop over the stored levels collects exactly the siblings between the leaf and the root |
| `MerkleTree.CalculateRoot` | crates/bitcoin-da/src/helpers/merkle_tree.rs:103-135 | The loop climbs the path as the recursive definition does, with the same rejection of extended indices |
| `RelevantTxs.CollectLists` | crates/bitcoin-da/src/service.rs:1213-1237 | One walk over the transactions yields the wtxids with a zero coinbase and the transactions that carry the prefix |
| `RelevantTxs.BlobsInOrder` | crates/bitcoin-da/src/verifier.rs:118-181 | The blobs are those of exactly the transactions that parse and whose signature verifies where they carry one, in order; each has the body and wtxid, and sender and hash as its kind prescribes |
| `RelevantTxs.RelevantInOrder` | crates/bitcoin-da/src/verifier.rs:103-111 | The relevant transactions are exactly those whose wtxid begins with the prefix byte by byte, in order |
| `RelevantTxs.CommitmentIsLast` | crates/bitcoin-da/src/verifier.rs:188-200 | The witness commitment is the last output script of at least 38 bytes with the prescribed first six, and there is none exactly when no script is like that |
| `RelevantTxs.ExtractRelevantBlobs` | crates/bitcoin-da/src/service.rs:1200-1321 | The completeness list has the transactions after the coinbase whose wtxid begins with the prefix, in order (the coinbase before them under an all-zero prefix); the blobs are one per such transaction that parses and whose signature verifies where its kind carries one, in order, field by field; with the inclusion proof of the block |
| `RelevantTxs.CheckWitnessData` | crates/bitcoin-da/src/verifier.rs:184-247 | The witness checks, with the search from the last output and the tree built level by level, give the verdict of the recursive definition |
| `RelevantTxs.VerifyTransactions` | crates/bitcoin-da/src/verifier.rs:93-261 | The verifier with its loops returns the verdict of the recursive definition, each error included; what it accepts is one blob per supplied transaction that parses and whose signature verifies where its kind carries one, in order, field by field |
| `RelevantTxs.CalculateWitnessRoot` | crates/bitcoin-da/src/service.rs:1510-1540 | The tree built from the collected leaves ends in the witness root, zero for a coinbase alone; it aborts exactly on equal siblings or no leaves |
| `RelevantTxs.WrapBlock` | crates/bitcoin-da/src/service.rs:1359-1393 | Wrapping the transactions of a block that follows the consensus rules succeeds and gives a header whose witness root is the one of the "Commitment structure" section of BIP 141 when there is a witness commitment |
| `RelevantTxs.WitnessRootIsCommitted` | crates/bitcoin-da/src/service.rs:1510-1540 | The witness root in the header is the one the coinbase commits to, also for a coinbase alone |
| `RelevantTxs.AcceptedIff` | crates/bitcoin-da/src/verifier.rs:93-261 | The verifier accepts if and only if the supplied transactions are id by id those with the prefix, the wtxids and the coinbase are tied to the header's count, witness root and Merkle root, and it then returns the supplied transactions' blobs |
| `RelevantTxs.RefusedBecause` | crates/bitcoin-da/src/verifier.rs:93-261 | Six of the verifier's refusals, each with the exact condition under which it is given |
| `RelevantTxs.ExtractionIsAccepted` | crates/bitcoin-da/src/verifier.rs:93-261 | For every consensus-valid block the verifier accepts the extracted lists and returns the extracted blobs in order, if and only if the prefix has a non-zero byte, or fits an id and the coinbase's wtxid is zero |
| `RelevantTxs.ZeroPrefixIsRefused` | crates/bitcoin-da/src/service.rs:1219-1222 | A block of one coinbase with a non-zero id is valid, and what is extracted under the prefix 0 is refused |
| `RelevantTxs.AcceptedListsAreExtracted` | crates/bitcoin-da/src/verifier.rs:93-261 | For a block with a witness commitment and more than a coinbase, under a prefix with a non-zero byte and without collisions or forged ids, any accepted lists are the extracted ones: nothing can be left out, added or replaced |
| `RelevantTxs.NoCommitmentNoBlobs` | crates/bitcoin-da/src/verifier.rs:202-216 | For a block without a witness commitment and with more than a coinbase, without collisions or forged ids, accepted lists yield no blob, even with a coinbase that claims a commitment |
| `RelevantTxs.AcceptedBlobsAreExtracted` | crates/bitcoin-da/src/verifier.rs:93-261 | Whatever the verifier accepts for the header of a consensus-valid block, of any size, under a prefix with a non-zero byte and without collisions or forged ids, it returns exactly the blobs extracted from that block |
| `EvmBlocks.ExecuteMultipleTx` | crates/evm/src/evm/executor.rs:69-153 | The executor's loop gives the results, flag or first error of the recursive definition |
| `EvmAccounts.ExecutesIff` | crates/evm/src/evm/executor.rs:69-153 | A call goes through if and only if each of its transactions runs, is no blob transaction, keeps the block within its gas limit and, if a system one, is verified, successful and before all users' |
| `EvmAccounts.ExecutesAll` | crates/evm/src/evm/executor.rs:69-153 | A call that goes through executes all its transactions, each once and in order |
| `EvmBlocks.ExecutedUsers` | crates/evm/src/call.rs:67-89 | The flag handed from call to call says whether the block holds a user transaction so far |
| `EvmBlocks.Evm.constructor` | crates/evm/src/genesis.rs:205-254 | Genesis holds the state of the empty history |
| `EvmBlocks.Evm.BeginL2Block` | crates/evm/src/hooks.rs:31-100 | After a begin the state is the one its history stands for: nothing pending, next number, the configured gas limit |
| `EvmBlocks.Evm.ExecuteCall` | crates/evm/src/call.rs:36-136 | After a call, failed or not, the state is the one its history stands for: totals continue from the last pending transaction |
| `EvmBlocks.Evm.EndL2Block` | crates/evm/src/hooks.rs:107-216 | After an end the state is the one its history stands for; it fails exactly when no block has begun |
| `EvmBlocks.Evm.FinalizeL2Block` | crates/evm/src/hooks.rs:228-272 | After sealing the state is the one its history stands for; it fails exactly when no ended block awaits sealing or an earlier one was left out |
| `EvmAccounts.StoredBlocksTile` | crates/evm/src/hooks.rs:128-216 | Of every module state: sealed blocks and head are numbered in order, their ranges adjoin from transaction 0 on, the head ends where the stored lists end, and the last sealed block is the head once all are sealed |
| `EvmAccounts.BlocksTile` | crates/evm/src/hooks.rs:128-180 | After every run the same for all ended blocks, sealed or not |
| `EvmAccounts.BlockHoldsItsCalls` | crates/evm/src/hooks.rs:31-272 | A block holds exactly what the calls between its begin and its end executed, whatever was pending before, and is sealed next if all blocks before it are |
| `EvmAccounts.BlocksAreAccounted` | crates/evm/src/call.rs:57-134 | After every run, in every ended block, what is stored tells of exactly the transactions executed, in order: hash, kind, success, gas, logs and diff size; each receipt's cumulative gas is the running sum within its block, the header's gas the total, each first log index the number of logs before it, and each transaction names its block |
| `EvmAccounts.StoredDataIsAppendOnly` | crates/evm/src/hooks.rs:196-214 | No event takes back or changes a stored block, transaction or receipt |
| `EvmAccounts.ExecuteInOrder` | crates/evm/src/evm/executor.rs:92-149 | A call continues a block that is within the gas limit and in order to one that still is |
| `EvmAccounts.EndedBlocksAreInOrder` | crates/evm/src/evm/executor.rs:92-149 | After every run each ended block keeps to the gas limit and has its system transactions first, all successful, however it was spread over calls |
| `EvmAccounts.LookupByHash` | crates/evm/src/hooks.rs:206-210 | Looking a stored transaction up by hash finds the last stored one with that hash |
| `EvmAccounts.AppendMatchingBlockLogs` | crates/evm/src/query.rs:1650-1694 | The query's own count of logs gives every matching log of a stored block the index its receipt gives it, in order and with nothing left out; the transaction index is the global one |
| `EvmAccounts.LogsAreNumbered` | crates/evm/src/query.rs:1959-1974 | The logs that the receipts of a stored block list are numbered from 0 on without a gap |
| `EvmAccounts.QueryMatchesReceiptsIff` | crates/evm/src/query.rs:1959-1974 | The query of a stored block and its receipts report the same logs if and only if the block starts at transaction 0 or none of its logs passes the filter |
| `EvmAccounts.SecondBlockDiffers` | crates/evm/src/query.rs:1678-1688 | After a run of two sealed blocks with one log each, the query of the second one does not report what the receipt lists |
| `GasEstimation.NarrowKeeps` | crates/evm/src/query.rs:2067-2109 | Each execution moves the range so that it still holds the threshold, and reports the fee of the limit at its upper end when nothing below the threshold reverts |
| `GasEstimation.Search` | crates/evm/src/query.rs:1223-1278 | The search ends for all executions and keeps the threshold in its range, with a final range one wide or within 1.5%; it stops as soon as the range is so, and tries the middle of the range after the first limit |
| `GasEstimation.EstimateGas` | crates/evm/src/query.rs:1177-1287 | With a threshold the estimate fails only in the first guess and otherwise is the threshold (or 1 for a threshold of 0) or above it by less than 1.5% of itself; the fee is that of the limit returned when no lower limit reverts; the guess is 64/63 of gas and refund, and the search begins at three times the gas used or the middle |
| `CallTraces.ConvertCallTraceIntoFlatCallFrame` | crates/ethereum-rpc/src/trace.rs:357-463 | The recursive loops give the list of the recursive definition, or no list |
| `CallTraces.FlattensIff` | crates/ethereum-rpc/src/trace.rs:357-431 | Flattening succeeds exactly on trees whose frames are all of supported kinds |
| `CallTraces.TraceTells` | crates/ethereum-rpc/src/trace.rs:357-441 | The fields of the flat trace of a frame, for each of the seven kinds |
| `CallTraces.SupportedSpelled` | crates/ethereum-rpc/src/trace.rs:357-431 | The supported kinds are exactly seven words, in letters of either case |
| `CallTraces.EveryTraceIsANode` | crates/ethereum-rpc/src/trace.rs:433-463 | Each flat trace is that of the frame its address leads to: addresses, value, gas, data and call type as the frame's kind prescribes, its error and its number of calls |
| `CallTraces.EveryNodeHasATrace` | crates/ethereum-rpc/src/trace.rs:443-463 | Each frame of the tree has a flat trace at its path |
| `CallTraces.TracesInPreorder` | crates/ethereum-rpc/src/trace.rs:443-463 | Flat traces come in preorder and no address occurs twice |
| `CallTraces.ReadBack` | crates/ethereum-rpc/src/trace.rs:357-463 | The call tree can be rebuilt from the flat list by its subtrace counts alone |
| `CallTraces.KeyInjective` | crates/ethereum-rpc/src/trace.rs:484-487 | Different selectors or sizes have different keys |
| `CallTraces.KeyText` | crates/ethereum-rpc/src/trace.rs:484-487 | A key is the selector in lower-case hexadecimal, a hyphen, and the size in decimal without leading zeros |
| `CallTraces.ConvertCallTraceInto4ByteMap` | crates/ethereum-rpc/src/trace.rs:472-493 | Each key's count rises by the number of frames, at any depth, with its selector and size, and nothing else changes |

## Left out

- Regtest header rules, the placeholder initial state of mainnet, and the time-warp rule of BIP 94, which the verifier does not check.
- How far a retry pass gets with pending proofs that are not of one valid history: such a proof in front can stop it, and `RetryProofsUntilStuck` says no more than that the first one left is stuck.
- L2 blocks that arrive in the middle of a retry pass, and the atomicity of the table writes of one step.
- The short header proof table, code-commitment lookup by fork, pruning, rollback and manual overrides of commitments.
- Widths of heights, indices and counts, which are natural numbers; 32-bit timestamps wrap where the release build wraps, and gas limits, compact bits and 256-bit targets are bounded as in the code.
- L1BlockHandling.L1BlockHandler.VerifyCommitmentHashes: hashes and roots are compared as values, serialization and SHA-256 are not modelled.
- GasEstimation.EstimateGas: the 1.5% test is taken over the reals, without floating-point rounding; the shortcut for plain transfers and the first execution before the search are not modelled.
- HeaderChain.VerifyHeader: that the header's own hash is right is a flag of the header.
- Timestamps.MedianAtLeast: the library sort is a sorting function on values, not an update of the array in place.
- Partitioning.Job.GreedyIsShortest: compressed sizes are a function of the merged diff map; brotli is not modelled.
- RelevantTxs.AcceptedBlobsAreExtracted: inscription parsing, signatures and the hash of a transaction are given with each transaction.
- CallTraces.FlattensIff: the lower-casing of a frame's kind covers ASCII letters.
- EvmAccounts.AppendMatchingBlockLogs: the bloom filter that skips blocks and the limits on a range query are not modelled.
- State roots, hashes, base fee, bloom and tries of EVM block headers; log stripping in the call tracer.
- `get_tangerine_activation_height_non_zero` is the parameter `start`, whose type is a height of at least 1.
- Bitcoin RPC, wallets and fees, the zkVM and circuits, the EVM interpreter, the sequencer, the deposit mempool and the rule enforcer.
