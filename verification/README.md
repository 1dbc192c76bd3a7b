# Verification of bera-reth

A Dafny model of the parts of bera-reth where several independent pieces of code must agree on one
block, with proofs of what they promise one another.

| files | what they model |
|---|---|
| `Base.dfy` | options, results, machine integers, byte strings |
| `Rlp.dfy`, `Record.dfy`, `RecordCodec.dfy` | canonical RLP (Appendix B of the Ethereum Yellow Paper), lists with trailing optional items, and the codec on a growing buffer and an advancing cursor |
| `Header.dfy`, `PolTx.dfy`, `Withdrawals.dfy` | the header, the proof-of-liquidity transaction, the withdrawals list |
| `ChainSpec.dfy`, `ForkId.dfy`, `ForkFilter.dfy`, `EthConfig.dfy` | accepted genesis configurations, fork activation, fork identifiers (EIP-2124, EIP-6122), the `eth_config` choice |
| `BaseFee.dfy`, `GenesisLaws.dfy` | the base fee recurrence with Berachain's floors; what a genesis decides - acceptance, activation, base fee, environments - in its own numbers |
| `World.dfy` | the values that move through the pipeline, and the foreign code as a record of functions |
| `Deposits.dfy`, `Executor.dfy`, `ExecutorLaws.dfy`, `Assembler.dfy`, `Consensus.dfy`, `BlockBuilder.dfy` | executing a block, what that is over the foreign calls alone, assembling it, the gates it must pass, repairing its senders |
| `EvmConfig.dfy`, `Pipeline.dfy`, `EnginePayload.dfy` | the three environment builders; producer and importer agree, directly and through the Engine API |
| `Chain.dfy` | whole chains of produced blocks |
| `PayloadBuilder.dfy`, `SelectionLaws.dfy`, `BlockSize.dfy`, `PayloadJob.dfy` | choosing transactions, what the choice keeps, the size of the result, the whole payload job |
| `Witness.dfy` | a concrete genesis, world and block that meet the hypotheses of the agreement theorems |
| `PayloadId.dfy`, `MinPriorityFee.dfy` | the payload identifier, the pool's tip floor |

Code that updates state in place - the executor, the block builder, the selection loop, the codecs,
the batch validator, the fork loops - is modelled by classes and methods with loops, each proved equal
to a function of its inputs; the theorems are then about those functions. What one transaction, one
system call, one offer, one environment and one base fee step are is stated apart from those functions,
over the foreign calls and the fields of the genesis (`ExecutorLaws`, `GenesisLaws`, the last part of
`SelectionLaws`), so the agreement of producer and importer is agreement on the right outcome.

Foreign code (the EVM, the state, trie roots, keccak, sha256, the fork checksum, blob fee curves) is
a parameter: every theorem holds for all such functions. Five things are assumed of foreign code,
always as named hypotheses where they are needed: the EVM uses no more gas than a transaction's limit
(`GasBounded`); a transaction that executes can pay the base fee (`FeesCovered`); decoded deposits have
the field sizes of EIP-6110 (`StandardSizes`); the wrapped pool validator judges each member of a batch
as it would alone (`Pointwise`); and, where identity of contents is concluded from identity of hashes,
the hash does not collide on the two byte strings at hand (`NoCollision`, and `CollisionFree` for the
checksums of one schedule).

Results that differ from what one might expect of the code:

- The header encoding has no presence bits. Exactly the headers whose present optional fields form a
  prefix decode to themselves (`Header.HeaderRoundTrip`). Two headers with one encoding are the same
  header exactly when they carry the same optional fields (`Header.EncodingAmbiguityExact`), so a
  prefix-shaped header can share its bytes and its hash with one that is not
  (`Header.ShapelessCollision`), but never with another prefix-shaped one (`Header.EncodeInjective`).
- The transaction decoder accepts two spellings of a proof-of-liquidity transaction
  (`PolTx.Decode2718Exact`), so accepted bytes re-encode identically exactly when they start with the
  type byte (`PolTx.Decode2718Canonical`).
- The builder's gas check adds in `u64` without an overflow check, the executor's subtracts. They
  disagree exactly when the sum leaves `u64` (`SelectionLaws.GasChecksDisagreeExact`); then the build
  ends with an error (`SelectionLaws.WrappedGasEndsTheBuild`).
- With an operator's blob limit and a protocol maximum of zero, one blob is allowed
  (`SelectionLaws.MaxBlobCountExact`, `SelectionLaws.ZeroProtocolAdmitsBlob`).
- A header assembled on a parent without its blob fields does not reproduce the environment it was
  built under (`Pipeline.HeaderEnvExact`) and, with a beacon root, does not survive the wire
  (`Assembler.AssembledShapeExact`), and its payload does not convert back (`EnginePayload.ConvertExact`);
  but that payload carries the producer's environment (`EnginePayload.PayloadSessionExact`).
- A rising base fee is added in wrapping `u64`. The fee falls instead exactly when the sum does not fit
  (`BaseFee.RisingExact`), as it does for the largest fee after a full block
  (`BaseFee.LargestFeeWraps`).
- Blocks with a gas limit below 2 never lower their fee (`BaseFee.TinyBlocksNeverDecay`).
- Attributes with one identifier preimage are the same exactly when they agree on whether withdrawals
  are present (`PayloadId.PreimageExact`); with withdrawals on one side only they can differ
  (`PayloadId.RootReadAsWithdrawals`).

## Model

| member | source | states |
|---|---|---|
| Rlp.ListHeadExact | src/primitives/header.rs:230-236 | a list head is read exactly when it is the canonical announcement of a payload that is there |
| Record.RecordExact | src/primitives/header.rs:229-298 | a list with mandatory and gated optional items is decoded from exactly its canonical encoding followed by any rest, and to no other items |
| Record.ListPrefixFree | src/primitives/header.rs:171-219 | list encodings are self-delimiting: whatever follows, the items and what follows are determined |
| Record.KnownEncodings | src/primitives/header.rs:171-219 | the encoder gives the Yellow Paper's bytes for empty, one-byte, short and long strings and lists |
| RecordCodec.EncodeTo | src/primitives/header.rs:171-219 | with a payload length that is the number of bytes the fields take, announces it and appends exactly the list encoding |
| RecordCodec.DecodeOptional | src/primitives/header.rs:257-288 | reads optional items while the announced payload is not used up, and leaves the cursor after the last one read |
| RecordCodec.DecodeFrom | src/primitives/header.rs:229-298 | decodes in place what the recursive decoder decodes, with the same refusals |
| Header.DecodeExact | src/primitives/header.rs:229-298 | decoding yields this header and this rest if and only if the present optional fields form a prefix and the bytes are the header's encoding followed by the rest |
| Header.HeaderRoundTrip | src/primitives/header.rs:171-298 | before any tail, exactly the prefix-shaped headers survive encoding and decoding |
| Header.HeaderCanonical | src/primitives/header.rs:229-298 | accepted bytes are the encoding of the prefix-shaped header read from them |
| Header.EncodeInjective | src/primitives/header.rs:171-219 | prefix-shaped headers with equal encodings are equal, even with bytes after them |
| Header.FieldAt | src/primitives/header.rs:171-192 | each mandatory field at its place on the wire, number fields as numbers |
| Header.OptionalAt | src/primitives/header.rs:193-219 | on prefix-shaped headers each optional field at its place, present exactly when the list is that long |
| Header.EncodeExact | src/primitives/header.rs:171-219 | two headers of any shape have one encoding if and only if their item lists agree |
| Header.HashExact | src/primitives/header.rs:386-392 | two headers of any shape share a hash if and only if their item lists agree, unless the hash collides on the two preimages |
| Header.EncodingAmbiguityExact | src/primitives/header.rs:193-219 | headers with one encoding are equal if and only if they carry the same optional fields |
| Header.ShapelessCollision | src/primitives/header.rs:193-219 | an input: two headers that differ in which optional field they carry, with one encoding and one hash |
| Header.KeyIsAppended | src/primitives/header.rs:212-219 | the proposer key is one more item at the end of the list of the header without it |
| Header.PayloadBound | src/primitives/header.rs:121-168 | the payload is at most 731 bytes larger than the encoded extra data |
| Header.HeaderPayloadLength | src/primitives/header.rs:121-168 | the sum over the fields, written apart from the encoder, is the number of bytes the encoder writes after the list head |
| Header.Length | src/primitives/header.rs:221-226 | payload length and head add up to the size of the encoding |
| Header.EncodeHeaderTo | src/primitives/header.rs:171-219 | appends the encoding to the buffer |
| Header.DecodeHeaderFrom | src/primitives/header.rs:229-298 | success consumes the header's own encoding; a refusal means that no prefix-shaped header is encoded there |
| PolTx.RlpDecodeExact | src/transaction/mod.rs:156-197 | decoding yields this transaction and this rest if and only if the bytes are its list encoding followed by the rest |
| PolTx.FieldOrder | src/transaction/mod.rs:156-167 | chain, sender, recipient, nonce, gas limit, gas price and input, in this order, are what the list carries |
| PolTx.Decode2718Exact | src/transaction/mod.rs:199-228 | the typed decoder accepts exactly the typed and the bare spelling of a transaction |
| PolTx.Decode2718Canonical | src/transaction/mod.rs:199-228 | accepted bytes re-encode to what was consumed if and only if they start with the type byte |
| PolTx.Encode2718Injective | src/transaction/mod.rs:199-210 | equal encodings come from equal transactions |
| PolTx.RlpPayloadLength | src/transaction/mod.rs:140-148 | the sum over the fields, written apart from the encoder, is the number of bytes the encoder writes after the list head |
| PolTx.Encode2718Length | src/transaction/mod.rs:140-203 | the computed length is that of the encoding |
| PolTx.Encode2718To | src/transaction/mod.rs:205-209 | appends the type byte and the list encoding to the buffer |
| PolTx.RlpDecodeFrom | src/transaction/mod.rs:169-197 | success consumes the transaction's own encoding; a refusal means that none is encoded there |
| PolTx.CreationDefined | src/transaction/pol.rs:16-53 | the transaction exists exactly for block numbers from 1 to 2^64, with the nonce of the block before |
| PolTx.CreatedSize | src/transaction/pol.rs:16-53 | the created transaction takes at most 211 bytes, whatever the block |
| PolTx.DistributeCallReads | src/transaction/pol.rs:16-53 | the call selects the function by its signature's hash, and a callee that follows the offset and length words reads exactly the proposer key |
| PolTx.ValidateExact | src/transaction/pol.rs:55-81 | a sealed transaction is accepted if and only if every field is what number, base fee and proposer key dictate |
| PolTx.ValidForOneBlockOnly | src/transaction/pol.rs:16-81 | blocks share a created transaction exactly when they agree in number, base fee and proposer key |
| Withdrawals.WithdrawalsPrefixFree | src/engine/payload.rs:341-345 | the withdrawals list says where it ends: the list and what follows it are determined |
| Withdrawals.WithdrawalOrder | src/engine/payload.rs:341-345 | index, validator, address and amount in the order of EIP-4895 |
| ChainSpec.BuildHardforks | src/chainspec/mod.rs:701-763 | pushing the configured forks one after another puts every fork under the condition that the genesis gives it |
| ChainSpec.LookupConfigured | src/chainspec/mod.rs:424-455 | every fork is found under the condition that the genesis gives it |
| ChainSpec.AcceptedActivation | src/chainspec/mod.rs:543-685 | under an accepted genesis, activation follows the fork order at every timestamp, and London and the DAO fork transition at block 0 only |
| GenesisLaws.CheckExact | src/chainspec/mod.rs:513-685 | a genesis is accepted if and only if its Berachain section is there and valid, the early forks are at genesis, its fork times are in order, it starts merged and no blob-only fork is set |
| GenesisLaws.ActivationExact | src/hardforks/mod.rs:24-55 | each fork is active exactly from the time that the genesis gives it, and Prague3 until that of Prague4 |
| ForkId.ComputeForkId | src/chainspec/mod.rs:154-207 | the two loops with their one shared variable compute the fold of the fork list |
| ForkId.TimeLoopExact | src/chainspec/mod.rs:184-207 | on a nondecreasing list one variable de-duplicates: each distinct due time is folded once |
| ForkId.AcceptedOrdered | src/chainspec/mod.rs:586-763 | an accepted genesis yields block forks at 0 followed by nondecreasing times |
| ForkId.ForkIdRefinesEip | src/chainspec/mod.rs:154-207 | for every accepted genesis and head the loop computes the set-based identifier of EIP-2124 and EIP-6122 |
| ForkFilter.WalkVisitsEveryFork | src/chainspec/mod.rs:154-207 | from genesis, and whatever the block numbers of the heads, following what the `fork_id` loop announces visits every fork once, in order, and ends at the identifier of `latest_fork_id` |
| ForkFilter.LastBlockForkBeforeTimestamp | src/chainspec/mod.rs:248-269 | finds the first block fork right before a merge or timestamp fork |
| ForkFilter.Satisfy | src/chainspec/mod.rs:213-234 | yields a head at which the condition holds |
| ForkFilter.LatestForkId | src/chainspec/mod.rs:105-122 | the latest identifier folds all fork times and announces nothing, and the loop yields it at every head from the last fork on |
| ForkFilter.CollectKeys | src/chainspec/mod.rs:130-142 | a key is collected exactly for each block fork, merge fork with a known block and timestamp fork, in list order |
| ForkFilter.FilterKeysExact | src/chainspec/mod.rs:130-145 | without block 0, pre-genesis times and duplicates, the keys of an accepted specification are its fork times in order |
| ForkFilter.AcceptedFilter | src/chainspec/mod.rs:130-145 | the filter built from the collected keys, spelled out over the schedule |
| ForkFilter.FilterCurrentIsForkId | src/chainspec/mod.rs:130-207 | the own identifier of the filter built from the collected keys is what `fork_id` computes for its head |
| ForkFilter.PeersAcceptEachOther | src/chainspec/mod.rs:130-207 | two nodes on one accepted genesis, each with the filter built from its keys, accept each other at any two heads |
| EthConfig.SortAndDedup | src/rpc/config.rs:87-90 | the sorted list without duplicates is the increasing listing of the times |
| EthConfig.CurrentForkIndex | src/rpc/config.rs:92-99 | the current index is the last with a time up to the latest block |
| EthConfig.EthConfig | src/rpc/config.rs:75-139 | current is the greatest time up to the latest block, next the least later one, last the maximum exactly when there is a next |
| EthConfig.CurrentHashIsLatestHash | src/rpc/config.rs:41-139 | the current fork's hash, computed at another head, is the hash of the latest head |
| EthConfig.AcceptedAlwaysHasCurrent | src/rpc/config.rs:92-99 | an accepted specification always has a current fork |
| BaseFee.StepBoundExact | src/chainspec/mod.rs:397-420 | with gas used of at most twice the target, a step moves the fee by at most max(1, fee / denominator) or lands on the floor if and only if the rise fits u64, the denominator is 1, or the wrapped sum is at or below the floor |
| BaseFee.OddLimitExceedsBound | src/chainspec/mod.rs:397-406 | an input: a block that fills an odd gas limit moves the fee by twice its share |
| BaseFee.RisingExact | src/chainspec/mod.rs:397-406 | above the target the fee does not fall if and only if fee and step add up inside u64 |
| BaseFee.LargestFeeWraps | src/chainspec/mod.rs:397-406 | an input: after a full block the largest fee drops to less than half |
| BaseFee.NextFeeMonotone | src/chainspec/mod.rs:397-420 | for every gas limit the next fee grows with the parent's fee and gas used, as long as a rise of the larger parent fits u64 |
| BaseFee.FloorHoldsAlongChain | src/chainspec/mod.rs:397-420 | along any chain each block respects the floor of the latest floor-changing fork active at its parent |
| BaseFee.EmptyStepsSettle | src/chainspec/mod.rs:397-420 | empty steps settle within an explicit number of steps at no more than max(floor, denominator - 1) |
| BaseFee.EmptyChainSettles | src/chainspec/mod.rs:397-420 | along a chain of empty blocks the fee stops changing after a number of blocks known from the first fee |
| BaseFee.TinyBlocksNeverDecay | src/chainspec/mod.rs:397-420 | blocks without room for gas never lower the fee |
| GenesisLaws.ParametersExact | src/chainspec/mod.rs:782-806 | the denominator is the genesis's Prague1 number from its Prague1 time on and 8 before, and the floor that of the latest started of Osaka1, Prague2 and Prague1 |
| GenesisLaws.ChangeIsQuotient | src/chainspec/mod.rs:397-406 | the change is the rounded-down quotient of EIP-1559 |
| GenesisLaws.NextFeeExact | src/chainspec/mod.rs:397-420 | the next fee in the genesis's numbers: unchanged at half the limit, up by at least 1 above, down below, by the quotient, and never below the floor |
| GenesisLaws.FullAndEmptyBlocks | src/chainspec/mod.rs:397-420 | on an even limit a full block raises the fee by exactly max(1, fee / denominator), an empty one lowers it by exactly fee / denominator, before the floor |
| Deposits.ParseDepositsFromReceipts | src/deposits.rs:41-64 | the nested loops yield the flattened deposits of exactly the matching logs, in order, or the decoding error |
| Deposits.ParseDistributes | src/deposits.rs:41-64 | over appended receipts the deposit bytes are appended, and the first failure is the failure of the whole |
| Deposits.DepositLogExact | src/deposits.rs:46-52 | a log is kept if and only if it comes from the contract and its first topic is the event signature |
| Deposits.RequestSplitsBack | src/deposits.rs:30-39 | 192 bytes a deposit, splitting back into the same deposits in order |
| Executor.BerachainBlockExecutor.ExecutePolTransactionWithReceipt | src/node/evm/executor.rs:101-173 | from Prague1 on applies the derived call and adds one receipt without gas |
| Executor.BerachainBlockExecutor.ApplyPreExecutionChanges | src/node/evm/executor.rs:190-203 | block hashes, beacon root, then proof of liquidity, stopping at the first error |
| Executor.BerachainBlockExecutor.ExecuteTransactionWithoutCommit | src/node/evm/executor.rs:205-252 | refuses exactly what does not fit the gas left of the block, keeps what runs within it, and yields a gasless dummy for proof of liquidity; changes nothing |
| Executor.BerachainBlockExecutor.CommitTransaction | src/node/evm/executor.rs:254-289 | adds gas, saturating blob gas, one receipt and the new state, or nothing for proof of liquidity |
| Executor.BerachainBlockExecutor.ExecuteTransaction | src/node/evm/executor.rs:205-289 | attempt and commit; a refused transaction leaves the executor as it was |
| Executor.BerachainBlockExecutor.FinishBlock | src/node/evm/executor.rs:291-381 | deposit request from Osaka on, system requests from Prague on, then balance increments |
| ExecutorLaws.ExecuteExact | src/node/evm/executor.rs:205-289 | a transaction that does not fit is refused with what is left; one that fits is run once on the executor's state, a refusal is reported, and the state, success, logs, gas and blob gas of a result are kept |
| ExecutorLaws.ReplayExact | src/node/evm/executor.rs:205-289 | a body executes if and only if every call succeeds on the state that those before it left and every gas limit fits; the final state is that of the last call and receipt k reports call k |
| ExecutorLaws.PolStepExact | src/node/evm/executor.rs:101-173 | before Prague1 nothing happens and a key is refused; from then on the system address calls the distributor with the key, the state that leaves is kept, and one receipt with its success and logs adds no gas |
| ExecutorLaws.PreExecutionExact | src/node/evm/executor.rs:190-203 | succeeds if and only if the key fits and the block hash, beacon root and reward calls succeed, each on the state of the one before, and leaves the last state |
| ExecutorLaws.FinishExact | src/node/evm/executor.rs:291-381 | succeeds if and only if the deposits decode and the closing calls succeed; the deposit request is in front, the balances are incremented by the withdrawals on the state after the requests, the DAO is drained at block 0 only |
| ExecutorLaws.ImportIsTransition | src/node/evm/executor.rs:101-381 | importing a block is the sequence of its calls: it succeeds on the same blocks and ends in the same state, receipts, requests, gas and blob gas |
| Executor.BerachainBlockExecutor.ExecuteBody | src/node/evm/executor.rs:205-289 | executing a body one by one is the fold of single executions |
| Executor.PolIsNoOp | src/node/evm/executor.rs:205-259 | a proof-of-liquidity transaction at the front of a body changes nothing |
| Executor.ReplayAppend | src/node/evm/executor.rs:205-289 | executing a concatenation is executing one part after the other |
| Executor.KeptReplays | src/node/evm/executor.rs:205-289 | with any refused attempts in between, replaying the kept transactions reaches the same state |
| Executor.PreExecutionConsistent | src/node/evm/executor.rs:101-203 | pre-execution uses no gas and leaves one receipt exactly from Prague1 on |
| Executor.ExecuteConsistent | src/node/evm/executor.rs:205-289 | one execution keeps gas within the limit without wrapping and appends one receipt of its type |
| Executor.ReplayConsistent | src/node/evm/executor.rs:205-289 | over a body: one receipt per transaction in order, cumulative gas nondecreasing and ending at the gas used, blob gas the saturated sum |
| Executor.DaoTransitionExact | src/node/evm/executor.rs:338-359 | the DAO drain happens at block 0 only |
| Executor.DepositRequestCarriesDeposits | src/node/evm/executor.rs:299-318 | an Osaka block's deposit request splits back into the deposits its receipts log |
| Assembler.InjectPol | src/node/evm/assembler.rs:62-95 | puts the derived transaction first from Prague1 on; the check of the first entry never fails |
| Assembler.AssembleBlock | src/node/evm/assembler.rs:48-163 | the header that comes out survives the wire exactly with a complete parent and a beacon root where needed, and gives back the block environment, blob fees apart |
| Assembler.AssembledFields | src/node/evm/assembler.rs:101-156 | which optional fields an assembled header carries on an accepted specification |
| Assembler.AssembledShapeExact | src/node/evm/assembler.rs:106-156 | an assembled header is prefix-shaped if and only if a beacon root comes with a complete parent and is there from Prague on |
| Assembler.AssembledRoundTrip | src/node/evm/assembler.rs:133-156 | a header assembled on a complete parent with a beacon root decodes back to itself before any tail |
| Assembler.AssembleNeverFails | src/node/evm/assembler.rs:62-95 | after a successful pre-execution assembly cannot fail |
| Consensus.FindPol | src/consensus/mod.rs:73-80 | finds the first proof-of-liquidity transaction from a position on |
| Consensus.ValidateBlockPreExecution | src/consensus/mod.rs:231-254 | accepts exactly the blocks with a valid proof-of-liquidity transaction first and nowhere else, or none before Prague1, and reports the first offending position |
| Consensus.ValidatePolShape | src/consensus/mod.rs:85-107 | refuses for a missing key, else a missing base fee, else at block 0, else for a hash other than that of the derived transaction |
| Consensus.GateExact | src/consensus/mod.rs:49-107 | from Prague1 on the first transaction, and no other, is a proof-of-liquidity one, with the hash of the transaction spelled out from number, base fee and key; before, none is |
| Consensus.HeaderGateExact | src/consensus/mod.rs:256-276 | a header passes if and only if it carries a proposer key exactly from Prague1 on |
| BlockBuilder.FixPolSenders | src/node/evm/builder.rs:60-118 | succeeds exactly when the one injected transaction lacks a sender (none before Prague1), and then changes only the sender list |
| BlockBuilder.BerachainBlockBuilder.ExecuteTransaction | src/node/evm/builder.rs:131-137 | a transaction enters the list exactly when it executed |
| BlockBuilder.BerachainBlockBuilder.FinishBlock | src/node/evm/builder.rs:146-153 | finishing executes, assembles and repairs, as a function of what was executed |
| BlockBuilder.BuildSucceeds | src/node/evm/builder.rs:60-153 | assembly and repair never fail: a block is lost only if finishing the execution fails |
| BlockBuilder.BuiltLists | src/node/evm/builder.rs:60-118 | the transactions, senders and receipts of a built block, spelled out |
| BlockBuilder.BuiltAligned | src/node/evm/builder.rs:60-118 | transactions, senders and receipts agree index by index, before and after Prague1 |
| BlockBuilder.BuiltPassesGates | src/consensus/mod.rs:49-107 | every built block passes the proof-of-liquidity and the proposer key gate |
| EvmConfig.ConfigureNext | src/node/evm/config.rs:163-233 | the child gets the requested fee recipient, randomness and timestamp and the next number; on accepted specifications the parent's next base fee, at or above its floor, and the requested gas limit unless its number wraps; the transaction cap is there exactly from Osaka on |
| EvmConfig.LondonBoundaryExact | src/node/evm/config.rs:203-216 | the London branch is taken only where the child's number wraps to 0 |
| EvmConfig.NextBlockFields | src/node/evm/config.rs:198-233 | away from that branch, every field of the child's block environment |
| GenesisLaws.RulesExact | src/node/evm/config.rs:163-196 | rule set and blob parameters follow from the genesis's times, with its minimum blob fee from Osaka1 on |
| GenesisLaws.NextConfigExact | src/node/evm/config.rs:163-196 | chain id, rule set, blob limit and the three Osaka limits of the child in the genesis's numbers |
| GenesisLaws.NextBlockExact | src/node/evm/config.rs:198-233 | every field of the child's block environment; the excess blob gas is computed from the parent's excess, use and base fee under the configured parameters, and priced under them |
| Pipeline.HeaderEnvExact | src/node/evm/config.rs:123-233 | the assembled header's environment is the one it was built under if and only if the parent is complete |
| Pipeline.BlockContextExact | src/node/evm/config.rs:235-260 | the block's context is the producer's if and only if the attributes carry withdrawals |
| Pipeline.ImporterSessionExact | src/node/evm/config.rs:123-260 | the importer's environment and context for a produced block are the producer's if and only if the parent is complete and the attributes carry withdrawals |
| Pipeline.ProducerImporterAgree | src/node/evm/executor.rs:190-381 | re-executing the body of a produced block yields the producer's receipts, gas, blob gas, requests and state |
| Pipeline.AnyOffersAgree | src/node/evm/executor.rs:190-381 | the same for any transactions offered, executed or refused |
| Pipeline.HeaderCommitsToImport | src/node/evm/assembler.rs:97-156 | every commitment in a produced header is met by the re-execution |
| Pipeline.GateForcesDerivedPol | src/consensus/mod.rs:49-107 | a block that passes the gate carries exactly the transaction that its importer applies itself |
| EnginePayload.PayloadEnvExact | src/node/evm/config.rs:303-353 | the payload's environment is the header's if and only if beacon root and excess blob gas come together |
| EnginePayload.PayloadContextExact | src/node/evm/config.rs:355-366 | the payload's context is the block's if and only if there are withdrawals or no beacon root |
| EnginePayload.PayloadSessionExact | src/node/evm/config.rs:303-366 | the session of a produced block's payload is the producer's if and only if the attributes carry a beacon root and withdrawals |
| EnginePayload.TransactionsRoundTrip | src/node/evm/config.rs:368-381 | transactions survive the Engine API wire |
| EnginePayload.RebuildExact | src/engine/validator.rs:44-85 | the header rebuilt from the payload of an assembled block is its header if and only if there is a beacon root and the parent is complete |
| EnginePayload.ConvertExact | src/engine/validator.rs:127-145 | a produced block's payload converts back into exactly that block, hash and proposer key accepted, if and only if the extra data has at most 32 bytes, there is a beacon root and the parent is complete |
| EnginePayload.PayloadImportAgrees | src/engine/mod.rs:61-97 | a produced block, sent as a payload, decodes to the same transactions and imports to what the producer saw |
| EnginePayload.SenderRestored | src/engine/mod.rs:75-88 | a proof-of-liquidity transaction that lost its sender comes back with the system address and its hash |
| EnginePayload.ConvertSound | src/engine/validator.rs:119-141 | an accepted payload's block has the announced hash, says what the payload says, and carries the key that came with it exactly from Prague1 on |
| EnginePayload.ConvertComplete | src/engine/validator.rs:119-141 | conversion accepts if and only if the extra data is short, the base fee fits, the transactions decode, the hash is the announced one, and the key is there exactly from Prague1 on |
| Chain.CompletenessInherited | src/node/evm/assembler.rs:106-156 | a block built on a complete parent is a complete parent |
| Chain.ChainImports | src/node/evm/executor.rs:190-381 | from one complete header on, a chain of produced blocks of any length imports block by block to exactly what its producers saw |
| Chain.BuiltOnParent | src/node/evm/config.rs:163-260 | a produced header names its parent's hash, follows its number, carries its next base fee, and takes fee recipient, randomness, gas limit, timestamp, beacon root and proposer key from the attributes and its extra data from the producer |
| Chain.ChainFollowsRecurrence | src/chainspec/mod.rs:397-420 | the headers of a produced chain follow the base fee recurrence |
| Chain.ChainRespectsFloor | src/chainspec/mod.rs:397-420 | from Osaka1 on no produced block falls below the floor |
| Witness.SomeGenesisAccepted | src/chainspec/mod.rs:513-685 | a concrete genesis passes all checks |
| Witness.HypothesesCanBeMet | src/node/evm/executor.rs:190-381 | a Prague1 block with the injected and one executed transaction meets all hypotheses of producer and importer agreement at once |
| PayloadBuilder.TryInclude | src/engine/builder.rs:349-395 | execution, its three kinds of refusal, and the counters after an inclusion |
| PayloadBuilder.Consider | src/engine/builder.rs:263-395 | one turn of the loop: every check in order, what the pool is told, what changes |
| PayloadBuilder.SelectTransactions | src/engine/builder.rs:244-396 | the loop over any offers is the fold of single turns, and the builder holds what was included |
| SelectionLaws.SelectionKeeps | src/engine/builder.rs:244-396 | for every pool: builder and executor gas agree within the limit, included transactions replay, sizes add up within the limit, each included blob transaction has its stored sidecar and no other is there, blobs stay within the limit and account for the executor's blob gas, fees are what the receipts say, and Prague3 includes nothing |
| SelectionLaws.StepKeeps | src/engine/builder.rs:263-395 | one turn keeps all of it |
| SelectionLaws.IncludedInOrder | src/engine/builder.rs:263-395 | what is included are offers, in their order |
| SelectionLaws.GasChecksDisagreeExact | src/engine/builder.rs:265-275 | the two gas checks disagree exactly when the builder's sum leaves u64 |
| SelectionLaws.WrappedGasEndsTheBuild | src/engine/builder.rs:265-275 | an input on which they disagree ends the build |
| SelectionLaws.RunFailures | src/engine/builder.rs:349-390 | with addable gas limits a build is lost only to the blob store or the EVM: the gas check and the fee never fail |
| SelectionLaws.MaxBlobCountExact | src/engine/builder.rs:246-256 | the blob limit stays within the protocol's exactly without an operator's limit or with a protocol maximum of at least 1 |
| SelectionLaws.ZeroProtocolAdmitsBlob | src/engine/builder.rs:250-256 | otherwise one blob is included |
| SelectionLaws.RunTellsSkip | src/engine/builder.rs:373-381 | blobs are skipped once the limit is reached, and not before |
| SelectionLaws.StepIncludesExact | src/engine/builder.rs:263-395 | an offer is taken if and only if its gas, size and blobs fit, its sidecar is there, the EVM runs it and it can pay; the new selection has its state, receipt, gas, blobs, size, fee and sidecar |
| SelectionLaws.RefusalExact | src/engine/builder.rs:263-390 | which refusal the pool is told, or which error ends the build: the first of gas, size, blobs, sidecar and EVM; a stale nonce is told nothing |
| SelectionLaws.OfferTakenExact | src/engine/builder.rs:244-396 | over a whole run each offer is taken if and only if it was includable after those before it, and none while Prague3 is active |
| SelectionLaws.MaxBlobCountMeaning | src/engine/builder.rs:246-256 | the blob limit is the protocol's, or the smaller of it and the operator's, but at least 1 |
| BlockSize.BlockOverhead | src/engine/builder.rs:283-297 | header, list heads, injected transaction and ommers take at most 956 bytes plus the encoded extra data |
| BlockSize.ReserveSuffices | src/engine/builder.rs:415-420 | the reserve of 1024 bytes is enough, so the final size check never fires |
| BlockSize.RlpLengthExact | src/engine/builder.rs:415-420 | the length computed for a block is that of its encoding |
| PayloadJob.CompletedIsSound | src/engine/builder.rs:181-428 | a payload that comes out imports to what the producer saw, is aligned, passes the gates, has a header that survives the wire, pays the fees its receipts show, carries one stored sidecar per blob transaction and the blob gas of its blobs, and converts back from its Engine API form |
| PayloadJob.PlanExact | src/engine/builder.rs:243-257 | the blob limit comes from the parameters that the genesis configures for the block's time, and withdrawals count with their encoded length |
| PayloadJob.Conclude | src/engine/builder.rs:406-428 | finishing, size check and the returned payload |
| PayloadJob.DefaultBerachainPayload | src/engine/builder.rs:181-428 | the whole job, over any offers, returns only sound payloads and never too large ones that left room for the reserve |
| PayloadId.BerachainPayloadId | src/engine/payload.rs:333-358 | feeding the hasher part by part hashes the preimage |
| PayloadId.PreimageExact | src/engine/payload.rs:333-358 | attributes that share a preimage are the same if and only if they agree on whether withdrawals are present |
| PayloadId.PreimageLayout | src/engine/payload.rs:333-358 | where parent, timestamp, randomness, fee recipient, withdrawals, root and key lie, and that the identifier is the head of the digest |
| PayloadId.KeyChangesPreimage | src/engine/payload.rs:350-353 | attributes that differ in the proposer key alone never share a preimage |
| PayloadId.WithdrawalsChangePreimage | src/engine/payload.rs:340-344 | absent, empty and different withdrawals give different preimages |
| PayloadId.RootReadAsWithdrawals | src/engine/payload.rs:340-348 | an input: with withdrawals on one side only two attributes share an identifier |
| MinPriorityFee.FloorExact | src/pool/min_priority_fee.rs:99-106 | a remote transaction passes if and only if both fee fields leave the minimum above the base fee |
| MinPriorityFee.AdmittedPays | src/pool/min_priority_fee.rs:99-106 | what was admitted pays the minimum under every lower base fee |
| MinPriorityFee.AdmittedPaysInNextBlock | src/pool/min_priority_fee.rs:158-166 | what was admitted against a new head pays the minimum in the block built on it |
| MinPriorityFee.MergeOutcomes | src/pool/min_priority_fee.rs:38-48 | empty slots are filled in order; it panics exactly when outcomes run out |
| MinPriorityFee.MinPriorityFeeValidator.Split | src/pool/min_priority_fee.rs:140-153 | the forwarded offers are those above the floor, in order, one per empty slot |
| MinPriorityFee.MinPriorityFeeValidator.ValidateTransactions | src/pool/min_priority_fee.rs:140-156 | outcome i of a batch is that of offer i alone, and the inner validator sees exactly the offers that passed |
| MinPriorityFee.MinPriorityFeeValidator.ValidateTransaction | src/pool/min_priority_fee.rs:126-135 | an offer gets the inner validator's verdict if and only if there is no floor, it is local, or both fee fields leave the floor above the base fee |
| MinPriorityFee.MinPriorityFeeValidator.OnNewHeadBlock | src/pool/min_priority_fee.rs:158-166 | the stored base fee becomes that of the next block, if there is one |

## Left out

- Foreign code - the EVM interpreter, precompiles, state trie, receipt and transaction roots, bloom, KZG, signature recovery, hashing - is a set of opaque functions; nothing is proved about it.
- The RLP of Ethereum transactions is an opaque byte string of each transaction; on the Engine API wire they travel as values.
- The header and transaction codecs write one statement per field; here the fields in the same order are the entries of a list, and the statements are loops over it, so what is not captured is only the unrolled form.
- The `Compact` database codecs, genesis JSON parsing, panic texts and `ethereum_fallback`: a genesis is a datatype, each check an error value.
- The base fee divisor `target * denominator` is taken where it fits 128 bits and is not zero; beyond that the original overflows or divides by zero.
- BaseFee.StepBoundExact: stated for gas used of at most twice the target, which on an even gas limit is the limit; the last unit of gas of an odd limit can exceed the bound (`BaseFee.OddLimitExceedsBound`).
- EnginePayload.ConvertExact: the Shanghai, Cancun and Prague field checks and the versioned hashes of `convert_payload_to_block` are upstream code and not modelled.
- Upstream behaviour the code calls into (`calc_next_block_base_fee`, `BasicBlockBuilder::finish`, `ForkFilter::new` and its validation rules, payload conversion) is modelled after its specification, since its source is not part of the repository.
- The deposit contract address is the resolved one; ommers are always empty and therefore dropped from the context; the state clear flag, state hooks and logging are left out.
- The DAO drain is a flag to the balance increment; it is proved that it is set at block 0 only.
- The pool's iterator is the sequence of its offers plus a record of what it was told; how it reacts to `mark_invalid` and `skip_blobs` is not modelled, which only widens the sequences covered.
- Cancellation of a payload job, the comparison with an earlier payload, and cached reads are left out of the payload job.
- PayloadBuilder.Consider: blob counts and byte lengths are unbounded numbers; a vector of hashes or bytes cannot reach 2^64 entries.
- BlockSize.ReserveSuffices: stated for extra data of up to 66 bytes, which includes the 32 that Ethereum allows; longer extra data is not bounded by the loop.
- EthConfig.EthConfig: precompiles, system contracts and blob schedules of the answer are not modelled; blob parameters always exist on accepted specifications.
- The log filtering of Prague3 in `validate_block_post_execution`, and the standard Ethereum checks that the gates run first.
- ForkFilter.PeersAcceptEachOther: fork times are compared as times and the checksums are assumed not to collide on the positions involved.
- Engine RPC methods, capability lists, metrics, pool internals, node wiring, in-memory sizes, bootnodes, version and build scripts.
