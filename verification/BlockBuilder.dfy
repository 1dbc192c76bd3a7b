/**
 Finishing a block: the senders recorded while executing miss the injected proof-of-liquidity
 transaction and are repaired (src/node/evm/builder.rs).
 */
module BlockBuilder {
  import opened Base
  import opened Assembler
  import opened ChainSpec
  import opened Consensus
  import opened Executor
  import opened Header
  import opened PolTx
  import opened World

  datatype BuildError =
    | MoreSendersThanTransactions
    | MismatchBeforePrague1
    | NoMismatchFromPrague1
    | WrongInjectionCount(injected: nat)
    | FirstIsNotPol
    | ExecutionFailed(error: ExecError)

  /** A built block with one sender per transaction, and what executing it yielded. */
  datatype Built = Built(block: Block, senders: seq<Address>, result: Outcome)

  class BlockBuilderOutcome {
    var block: Block
    var senders: seq<Address>
    const result: Outcome

    constructor (block: Block, senders: seq<Address>, result: Outcome)
      ensures this.block == block && this.senders == senders && this.result == result
    {
      this.block := block;
      this.senders := senders;
      this.result := result;
    }
  }

  /** Exactly the injected transaction lacks a sender. */
  predicate MissesPolSender(b: Block, senders: seq<Address>) {
    |b.transactions| == |senders| + 1 && b.transactions[0].Berachain?
  }

  predicate Repairable(spec: ChainSpec, b: Block, senders: seq<Address>) {
    if IsActive(spec, Prague1, b.header.timestamp) then MissesPolSender(b, senders) else |b.transactions| == |senders|
  }

  function RepairedSenders(spec: ChainSpec, b: Block, senders: seq<Address>): seq<Address>
    requires Repairable(spec, b, senders)
  {
    if IsActive(spec, Prague1, b.header.timestamp) then [b.transactions[0].pol.tx.from] + senders else senders
  }

  /** Succeeds exactly on repairable outcomes, and then changes only the sender list. */
  method FixPolSenders(outcome: BlockBuilderOutcome, spec: ChainSpec) returns (r: Result<(), BuildError>)
    modifies outcome
    ensures outcome.block == old(outcome.block)
    ensures r.Ok? <==> Repairable(spec, outcome.block, old(outcome.senders))
    ensures r.Ok? ==> outcome.senders == RepairedSenders(spec, outcome.block, old(outcome.senders))
    ensures r.Err? ==> outcome.senders == old(outcome.senders)
    ensures r.Err? && r.error.WrongInjectionCount? ==>
              r.error.injected == |outcome.block.transactions| - |outcome.senders| > 1
  {
    hide IsActive;
    var numTxs, numSenders := |outcome.block.transactions|, |outcome.senders|;
    if numSenders > numTxs {
      return Err(MoreSendersThanTransactions);
    }
    if !IsActive(spec, Prague1, outcome.block.header.timestamp) {
      return if numTxs != numSenders then Err(MismatchBeforePrague1) else Ok(());
    }
    if numTxs == numSenders {
      return Err(NoMismatchFromPrague1);
    }
    var injected := numTxs - numSenders;
    if injected != 1 {
      return Err(WrongInjectionCount(injected));
    }
    var first := outcome.block.transactions[0];
    if first.Ethereum? {
      return Err(FirstIsNotPol);
    }
    var fixedSenders := [first.pol.tx.from];
    fixedSenders := fixedSenders + outcome.senders;
    outcome.senders := fixedSenders;
    return Ok(());
  }

  function Signers(txs: seq<Envelope>): (senders: seq<Address>)
    ensures |senders| == |txs|
  {
    seq(|txs|, i requires 0 <= i < |txs| => SignerOf(txs[i]))
  }

  lemma SignersConcat(a: seq<Envelope>, b: seq<Envelope>)
    ensures Signers(a + b) == Signers(a) + Signers(b)
  {
  }

  /** Finishing as a function of what was executed. */
  function Build(j: Session, parent: BerachainHeader, s: ExecState, executed: seq<Envelope>, extraData: Blob)
    : Result<Built, BuildError>
  {
    match Finish(j, s)
    case Err(e) => Err(ExecutionFailed(e))
    case Ok(out) =>
      match Assemble(j, parent, executed, out, extraData)
      case Err(e) => Err(ExecutionFailed(e))
      case Ok(block) =>
        if !Repairable(j.spec, block, Signers(executed)) then Err(FirstIsNotPol)
        else Ok(Built(block, RepairedSenders(j.spec, block, Signers(executed)), out))
  }

  class BerachainBlockBuilder {
    const executor: BerachainBlockExecutor
    const parent: BerachainHeader
    const extraData: Blob
    var transactions: seq<Envelope>

    constructor (executor: BerachainBlockExecutor, parent: BerachainHeader, extraData: Blob)
      ensures this.executor == executor && this.parent == parent && this.extraData == extraData && transactions == []
    {
      this.executor := executor;
      this.parent := parent;
      this.extraData := extraData;
      transactions := [];
    }

    /** Only a transaction that executed enters the list. */
    method ExecuteTransaction(e: Envelope) returns (r: Result<U64, ExecError>)
      modifies this, executor
      ensures r.Ok? ==> Execute(executor.session, old(executor.View()), e) == Ok((executor.View(), r.value))
                        && transactions == old(transactions) + [e]
      ensures r.Err? ==> Execute(executor.session, old(executor.View()), e) == Err(r.error)
                         && executor.View() == old(executor.View()) && transactions == old(transactions)
    {
      hide Execute;
      var gas :- executor.ExecuteTransaction(e);
      transactions := transactions + [e];
      return Ok(gas);
    }

    /** Finishes the block: execution result, assembly, then the repair of the senders. */
    method FinishBlock() returns (r: Result<BlockBuilderOutcome, BuildError>)
      modifies this, executor
      ensures var expected := Build(executor.session, parent, old(executor.View()), old(transactions), extraData);
              && (r.Ok? <==> expected.Ok?)
              && (r.Ok? ==> expected == Ok(Built(r.value.block, r.value.senders, r.value.result)))
    {
      hide Finish, Assemble, IsActive;
      var finished := executor.FinishBlock();
      if finished.Err? {
        return Err(ExecutionFailed(finished.error));
      }
      var assembled := AssembleBlock(executor.session, parent, transactions, finished.value, extraData);
      if assembled.Err? {
        return Err(ExecutionFailed(assembled.error));
      }
      var outcome := new BlockBuilderOutcome(assembled.value, Signers(transactions), finished.value);
      var _ :- FixPolSenders(outcome, executor.session.spec);
      return Ok(outcome);
    }
  }

  /****** What a built block satisfies ******/

  /** Transactions, senders and receipts agree index by index: the senders are the transactions'
      signers and the receipts have the transactions' types. */
  predicate Aligned(b: Built) {
    b.senders == Signers(b.block.transactions) && ReceiptTypes(b.result.receipts) == TypesOf(b.block.transactions)
  }

  /** A run of the producer: pre-execution, then Ethereum transactions that all executed. */
  ghost predicate Ran(j: Session, start: State, txs: seq<EthTx>, done: ExecState) {
    && PreExecution(j, InitialState(start)).Ok?
    && Replay(j, PreExecution(j, InitialState(start)).value, Envelopes(txs)) == Ok(done)
  }

  lemma RanReceipts(j: Session, start: State, txs: seq<EthTx>, done: ExecState)
    requires GasBounded(j.w) && Ran(j, start, txs, done)
    ensures var ready := PreExecution(j, InitialState(start)).value;
            && Consistent(j, done) && |done.receipts| == |ready.receipts| + |txs|
            && ReceiptTypes(done.receipts)
               == (if IsActive(j.spec, Prague1, j.env.blockEnv.timestamp) then [BerachainType] else []) + TypesOf(Envelopes(txs))
  {
    hide Replay, PreExecution, IsActive, Execute, Consistent, TypesOf, ReceiptTypes, ValidateProposerPubkey, PolOf;
    var ready := PreExecution(j, InitialState(start)).value;
    PreExecutionConsistent(j, start);
    ReplayConsistent(j, ready, txs);
  }

  /** The repair never fails: the only way to lose a block is that finishing the execution fails. */
  lemma BuildSucceeds(j: Session, start: State, parent: BerachainHeader, txs: seq<EthTx>, done: ExecState, extraData: Blob)
    requires GasBounded(j.w) && Ran(j, start, txs, done)
    ensures Build(j, parent, done, Envelopes(txs), extraData).Ok? <==> Finish(j, done).Ok?
  {
    hide Replay, PreExecution, IsActive, HeaderOf, PolOf, GasBounded, Consistent;
    RanReceipts(j, start, txs, done);
    if Finish(j, done).Ok? {
      var out := Finish(j, done).value;
      AssembleNeverFails(j, start, parent, Envelopes(txs), out, extraData);
      HeaderTimestamp(j, parent, Assemble(j, parent, Envelopes(txs), out, extraData).value.transactions, out, extraData);
    }
  }

  lemma HeaderTimestamp(j: Session, parent: BerachainHeader, txs: seq<Envelope>, out: Outcome, extraData: Blob)
    ensures var h := HeaderOf(j, parent, txs, out, extraData);
            h.timestamp == j.env.blockEnv.timestamp && h.number == j.env.blockEnv.number
            && h.baseFeePerGas == Some(j.env.blockEnv.baseFee) && h.prevProposerPubkey == j.ctx.prevProposerPubkey
  {
  }

  /** The lists of a built block, spelled out. */
  lemma BuiltLists(j: Session, parent: BerachainHeader, txs: seq<EthTx>, s: ExecState, extraData: Blob)
    requires Build(j, parent, s, Envelopes(txs), extraData).Ok?
    ensures var built, es := Build(j, parent, s, Envelopes(txs), extraData).value, Envelopes(txs);
            && built.result == Finish(j, s).value && built.result.receipts == s.receipts
            && if IsActive(j.spec, Prague1, j.env.blockEnv.timestamp) then
                 j.ctx.prevProposerPubkey.Some? && PolOf(j, j.ctx.prevProposerPubkey.value).Ok? &&
                 var pol := Berachain(PolOf(j, j.ctx.prevProposerPubkey.value).value);
                 built.block.transactions == [pol] + es && built.senders == [SignerOf(pol)] + Signers(es)
               else built.block.transactions == es && built.senders == Signers(es)
  {
    hide IsActive, HeaderOf, CollectRequests, TxHash, DistributeCall, PolNonce;
    var built := Build(j, parent, s, Envelopes(txs), extraData).value;
    HeaderTimestamp(j, parent, built.block.transactions, built.result, extraData);
  }

  /** After the repair, before and after Prague1, the three lists agree index by index. */
  lemma BuiltAligned(j: Session, start: State, parent: BerachainHeader, txs: seq<EthTx>, done: ExecState, extraData: Blob)
    requires GasBounded(j.w) && Ran(j, start, txs, done)
    requires Build(j, parent, done, Envelopes(txs), extraData).Ok?
    ensures Aligned(Build(j, parent, done, Envelopes(txs), extraData).value)
  {
    hide Replay, PreExecution, IsActive, GasBounded, Consistent, Build, Finish, PolOf;
    hide Signers, TypesOf, ReceiptTypes;
    RanReceipts(j, start, txs, done);
    BuiltLists(j, parent, txs, done, extraData);
    if IsActive(j.spec, Prague1, j.env.blockEnv.timestamp) {
      var pol := Build(j, parent, done, Envelopes(txs), extraData).value.block.transactions[0];
      SingleLists(pol);
      SignersConcat([pol], Envelopes(txs));
      TypesConcat([pol], Envelopes(txs));
    } else {
      assert [] + TypesOf(Envelopes(txs)) == TypesOf(Envelopes(txs));
    }
  }

  lemma SingleLists(e: Envelope)
    ensures Signers([e]) == [SignerOf(e)] && TypesOf([e]) == [TypeOf(e)]
  {
  }

  /** Every built block passes the proof-of-liquidity gate and the proposer key gate. */
  lemma BuiltPassesGates(j: Session, parent: BerachainHeader, txs: seq<EthTx>, s: ExecState, extraData: Blob)
    requires Build(j, parent, s, Envelopes(txs), extraData).Ok?
    ensures var block := Build(j, parent, s, Envelopes(txs), extraData).value.block;
            Passes(j.w.keccak, j.spec, block) && ValidateHeader(j.spec, block.header).Ok?
  {
    hide IsActive, HeaderOf, CreatePolTransaction, Finish;
    var built := Build(j, parent, s, Envelopes(txs), extraData).value;
    HeaderTimestamp(j, parent, built.block.transactions, built.result, extraData);
  }
}
