/**
 The producer and the importer of a block agree. The producer derives an environment from the parent,
 executes transactions and assembles a block; the importer derives an environment from that block and
 executes its body again (src/node/evm/config.rs, src/node/evm/executor.rs).
 */
module Pipeline {
  import opened Base
  import opened Assembler
  import opened BaseFee
  import opened BlockBuilder
  import opened ChainSpec
  import opened Consensus
  import opened EvmConfig
  import opened Executor
  import opened Header
  import opened PolTx
  import opened World

  function ProducerSession(w: World, spec: ChainSpec, parent: BerachainHeader, attrs: NextBlockAttributes): Session
    requires DivisibleHeader(spec, parent)
  {
    Session(w, spec, NextEvmEnv(w, spec, parent, attrs), ContextForNextBlock(w, parent, attrs))
  }

  function ImporterSession(w: World, spec: ChainSpec, b: Block): Session {
    Session(w, spec, EvmEnvOfHeader(w, spec, b.header), ContextForBlock(b))
  }

  /****** Environment and context ******/

  /** The environment of the assembled header is the one the block was built under if and only if
      the parent carries its base fee and both blob gas fields. */
  lemma HeaderEnvExact(w: World, spec: ChainSpec, parent: BerachainHeader, attrs: NextBlockAttributes, txs: seq<Envelope>,
                       out: Outcome, extraData: Blob)
    requires Accepted(spec) && DivisibleHeader(spec, parent)
    ensures var j := ProducerSession(w, spec, parent, attrs);
            EvmEnvOfHeader(w, spec, HeaderOf(j, parent, txs, out, extraData)) == j.env <==> ParentComplete(parent)
  {
    hide Lookup, Accepted, IsActive, BlobParamsAt, NextBlockBaseFee, LondonBoundary, BuildCfg, RevmSpec;
    AcceptedActivation(spec, attrs.timestamp);
    AcceptedActivation(spec, parent.timestamp);
    ParamsFromCancunOn(w, spec, attrs.timestamp);
    AlwaysMerged(spec, attrs.timestamp, ChildNumber(parent));
  }

  /** The context read back from an assembled block is the producer's if and only if the attributes
      carry a withdrawals list. */
  lemma BlockContextExact(w: World, spec: ChainSpec, parent: BerachainHeader, attrs: NextBlockAttributes, txs: seq<Envelope>,
                          out: Outcome, extraData: Blob)
    requires Accepted(spec) && DivisibleHeader(spec, parent)
    ensures var j := ProducerSession(w, spec, parent, attrs);
            var b := Block.Block(HeaderOf(j, parent, txs, out, extraData), txs, BodyWithdrawals(j));
            ContextForBlock(b) == j.ctx <==> attrs.withdrawals.Some?
  {
    hide Lookup, Accepted, IsActive, NextEvmEnv;
    AcceptedActivation(spec, NextEvmEnv(w, spec, parent, attrs).blockEnv.timestamp);
  }

  /****** Producer and importer ******/

  /** What an importer needs of the parent and the attributes to find the producer's session. */
  predicate Reproducible(parent: BerachainHeader, attrs: NextBlockAttributes) {
    ParentComplete(parent) && attrs.withdrawals.Some?
  }

  /** A producer's run that ends in a block. */
  ghost predicate Produced(j: Session, start: State, parent: BerachainHeader, executed: seq<Envelope>, done: ExecState,
                           extraData: Blob, b: Built)
  {
    && PreExecution(j, InitialState(start)).Ok?
    && Replay(j, PreExecution(j, InitialState(start)).value, executed) == Ok(done)
    && Build(j, parent, done, executed, extraData) == Ok(b)
  }

  lemma BuiltBlock(j: Session, parent: BerachainHeader, executed: seq<Envelope>, done: ExecState, extraData: Blob, b: Built)
    requires Build(j, parent, done, executed, extraData) == Ok(b)
    ensures Finish(j, done) == Ok(b.result)
    ensures b.block.header == HeaderOf(j, parent, b.block.transactions, b.result, extraData)
    ensures b.block.withdrawals == BodyWithdrawals(j)
    ensures b.block.transactions == executed
         || (b.block.transactions != [] && b.block.transactions[0].Berachain?
             && b.block.transactions == [b.block.transactions[0]] + executed)
  {
    hide HeaderOf, Finish, IsActive, PolOf;
  }

  /** The importer's session for a produced block is the producer's if and only if the parent carries
      its base fee and blob gas fields and the attributes a withdrawals list. */
  lemma ImporterSessionExact(w: World, spec: ChainSpec, parent: BerachainHeader, attrs: NextBlockAttributes,
                             executed: seq<Envelope>, done: ExecState, extraData: Blob, b: Built)
    requires Accepted(spec) && DivisibleHeader(spec, parent)
    requires Build(ProducerSession(w, spec, parent, attrs), parent, done, executed, extraData) == Ok(b)
    ensures ImporterSession(w, spec, b.block) == ProducerSession(w, spec, parent, attrs) <==> Reproducible(parent, attrs)
  {
    hide Accepted, Build, HeaderOf, NextEvmEnv, EvmEnvOfHeader, IsActive;
    var j := ProducerSession(w, spec, parent, attrs);
    BuiltBlock(j, parent, executed, done, extraData, b);
    HeaderEnvExact(w, spec, parent, attrs, b.block.transactions, b.result, extraData);
    BlockContextExact(w, spec, parent, attrs, b.block.transactions, b.result, extraData);
  }

  /** Under the producer's own session the body of a produced block yields the producer's outcome. */
  lemma BodyReplays(j: Session, start: State, parent: BerachainHeader, executed: seq<Envelope>, done: ExecState,
                    extraData: Blob, b: Built)
    requires Produced(j, start, parent, executed, done, extraData, b)
    ensures Import(j, start, b.block.transactions) == Ok(b.result)
  {
    hide Build, HeaderOf, Finish, PreExecution, Execute;
    BuiltBlock(j, parent, executed, done, extraData, b);
    if b.block.transactions != executed {
      PolIsNoOp(j, PreExecution(j, InitialState(start)).value, b.block.transactions[0].pol, executed);
    }
  }

  /** Re-executing the body of a produced block, under the environment and context read back from
      it, yields the producer's receipts, gas, blob gas, requests and final state. */
  lemma ProducerImporterAgree(w: World, spec: ChainSpec, start: State, parent: BerachainHeader, attrs: NextBlockAttributes,
                              executed: seq<Envelope>, done: ExecState, extraData: Blob, b: Built)
    requires Accepted(spec) && DivisibleHeader(spec, parent) && Reproducible(parent, attrs)
    requires Produced(ProducerSession(w, spec, parent, attrs), start, parent, executed, done, extraData, b)
    ensures Import(ImporterSession(w, spec, b.block), start, b.block.transactions) == Ok(b.result)
  {
    hide Accepted, Build, ProducerSession, ImporterSession, PreExecution, Replay, Import, Reproducible;
    BodyReplays(ProducerSession(w, spec, parent, attrs), start, parent, executed, done, extraData, b);
    ImporterSessionExact(w, spec, parent, attrs, executed, done, extraData, b);
  }

  /** The same with any refused attempts in between: however transactions are offered, the block made
      of those that executed imports to what the producer saw. */
  lemma AnyOffersAgree(w: World, spec: ChainSpec, start: State, parent: BerachainHeader, attrs: NextBlockAttributes,
                       offers: seq<Envelope>, extraData: Blob, ready: ExecState, b: Built)
    requires Accepted(spec) && DivisibleHeader(spec, parent) && Reproducible(parent, attrs)
    requires PreExecution(ProducerSession(w, spec, parent, attrs), InitialState(start)) == Ok(ready)
    requires var j := ProducerSession(w, spec, parent, attrs);
             var (done, kept) := Produce(j, ready, offers);
             Build(j, parent, done, kept, extraData) == Ok(b)
    ensures Import(ImporterSession(w, spec, b.block), start, b.block.transactions) == Ok(b.result)
  {
    hide Accepted, Build, ProducerSession, ImporterSession, PreExecution, Replay, Import, Produce;
    var j := ProducerSession(w, spec, parent, attrs);
    var (done, kept) := Produce(j, ready, offers);
    KeptReplays(j, ready, offers);
    ProducerImporterAgree(w, spec, start, parent, attrs, kept, done, extraData, b);
  }

  /** Every commitment in the produced header is met by the re-execution. */
  lemma HeaderCommitsToImport(w: World, spec: ChainSpec, start: State, parent: BerachainHeader, attrs: NextBlockAttributes,
                              executed: seq<Envelope>, done: ExecState, extraData: Blob, b: Built)
    requires Accepted(spec) && DivisibleHeader(spec, parent) && Reproducible(parent, attrs)
    requires Produced(ProducerSession(w, spec, parent, attrs), start, parent, executed, done, extraData, b)
    ensures var h := b.block.header;
            var imported := Import(ImporterSession(w, spec, b.block), start, b.block.transactions);
            && imported.Ok?
            && h.stateRoot == w.stateRoot(imported.value.db)
            && h.receiptsRoot == w.receiptsRoot(imported.value.receipts)
            && h.logsBloom == w.logsBloom(imported.value.receipts)
            && h.gasUsed == imported.value.gasUsed
            && h.blobGasUsed == Some(imported.value.blobGasUsed)
            && h.requestsHash == (if IsActive(spec, Prague, h.timestamp) then Some(w.requestsHash(imported.value.requests)) else None)
            && h.transactionsRoot == w.transactionsRoot(EncodeBody(b.block.transactions))
            && b.block.withdrawals == attrs.withdrawals
            && h.withdrawalsRoot == Some(w.withdrawalsRoot(b.block.withdrawals.value))
  {
    hide Accepted, Build, NextEvmEnv, Import, IsActive, NextExcessBlobGas;
    var j := ProducerSession(w, spec, parent, attrs);
    ProducerImporterAgree(w, spec, start, parent, attrs, executed, done, extraData, b);
    BuiltBlock(j, parent, executed, done, extraData, b);
    AcceptedActivation(spec, j.env.blockEnv.timestamp);
  }

  /** On the importing side: a block that passes the gate and whose first transaction is sealed by its
      own hash carries exactly the transaction that the importer derives and applies itself, unless
      the hash collides on the two. */
  lemma GateForcesDerivedPol(w: World, spec: ChainSpec, b: Block)
    requires Passes(w.keccak, spec, b) && IsActive(spec, Prague1, b.header.timestamp)
    requires var pol := b.transactions[0].pol; pol == Seal(w.keccak, pol.tx) && |Encode2718(pol.tx)| < MAX_BUFFER
    requires b.header.prevProposerPubkey.Some? && b.header.baseFeePerGas.Some?
    requires var derived := PolOf(ImporterSession(w, spec, b), b.header.prevProposerPubkey.value);
             derived.Ok? ==> NoCollision(w.keccak, Encode2718(b.transactions[0].pol.tx), Encode2718(derived.value.tx))
    ensures PolOf(ImporterSession(w, spec, b), b.header.prevProposerPubkey.value) == Ok(b.transactions[0].pol)
  {
    hide IsActive, Encode2718, DistributeCall, PolNonce, BlobParamsAt, BuildCfg, RevmSpec, EthereumFrom;
    var pol := b.transactions[0].pol;
    var derived := PolOf(ImporterSession(w, spec, b), b.header.prevProposerPubkey.value);
    if derived.Ok? && pol.hash == derived.value.hash {
      Encode2718Injective(pol.tx, derived.value.tx);
    }
  }
}
