/** Turning an executed block into a header and a body (src/node/evm/assembler.rs). */
module Assembler {
  import opened Base
  import opened ChainSpec
  import opened EvmConfig
  import opened Executor
  import opened Header
  import opened PolTx
  import opened World

  /** All zero after the merge. */
  const BEACON_NONCE: B64 := [0, 0, 0, 0, 0, 0, 0, 0]

  function BodyWithdrawals(j: Session): Option<seq<Withdrawal>> {
    if IsActive(j.spec, Shanghai, j.env.blockEnv.timestamp) then Some(j.ctx.withdrawals.GetOr([])) else None
  }

  function HeaderBlobGasUsed(j: Session, blobGasUsed: U64): Option<U64> {
    if IsActive(j.spec, Cancun, j.env.blockEnv.timestamp) then Some(blobGasUsed) else None
  }

  /** The first Cancun block counts its parent's blob gas as zero. */
  function HeaderExcessBlobGas(j: Session, parent: BerachainHeader): Option<U64> {
    var timestamp := j.env.blockEnv.timestamp;
    if !IsActive(j.spec, Cancun, timestamp) then None
    else if IsActive(j.spec, Cancun, parent.timestamp) then
      NextExcessBlobGas(j.w, parent, BlobParamsAt(j.w, j.spec, timestamp))
    else Some(j.w.firstCancunExcess)
  }

  function HeaderOf(j: Session, parent: BerachainHeader, transactions: seq<Envelope>, out: Outcome, extraData: Blob)
    : BerachainHeader
  {
    var block := j.env.blockEnv;
    var withdrawals := BodyWithdrawals(j);
    BerachainHeader(
      parentHash := j.ctx.parentHash,
      ommersHash := j.w.emptyOmmersHash,
      beneficiary := block.beneficiary,
      stateRoot := j.w.stateRoot(out.db),
      transactionsRoot := j.w.transactionsRoot(EncodeBody(transactions)),
      receiptsRoot := j.w.receiptsRoot(out.receipts),
      withdrawalsRoot := if withdrawals.Some? then Some(j.w.withdrawalsRoot(withdrawals.value)) else None,
      logsBloom := j.w.logsBloom(out.receipts),
      difficulty := block.difficulty,
      number := block.number,
      gasLimit := block.gasLimit,
      gasUsed := out.gasUsed,
      timestamp := block.timestamp,
      mixHash := block.prevrandao.GetOr(Zeros(32)),
      nonce := BEACON_NONCE,
      baseFeePerGas := Some(block.baseFee),
      blobGasUsed := HeaderBlobGasUsed(j, out.blobGasUsed),
      excessBlobGas := HeaderExcessBlobGas(j, parent),
      parentBeaconBlockRoot := j.ctx.parentBeaconBlockRoot,
      requestsHash := if IsActive(j.spec, Prague, block.timestamp) then Some(j.w.requestsHash(out.requests)) else None,
      prevProposerPubkey := j.ctx.prevProposerPubkey,
      extraData := extraData)
  }

  /** The body's transactions: from Prague1 on the proof-of-liquidity transaction comes first. */
  function BodyTransactions(j: Session, executed: seq<Envelope>, receipts: seq<Receipt>): Result<seq<Envelope>, ExecError> {
    var _ :- ValidateProposerPubkey(j.spec, j.env.blockEnv.timestamp, j.ctx.prevProposerPubkey);
    if !IsActive(j.spec, Prague1, j.env.blockEnv.timestamp) then Ok(executed)
    else
      match PolOf(j, j.ctx.prevProposerPubkey.value)
      case Err(_) => Err(PolNonceOverflow)
      case Ok(pol) => if receipts == [] then Err(MissingPolReceipts) else Ok([Berachain(pol)] + executed)
  }

  function Assemble(j: Session, parent: BerachainHeader, executed: seq<Envelope>, out: Outcome, extraData: Blob)
    : Result<Block, ExecError>
  {
    var transactions :- BodyTransactions(j, executed, out.receipts);
    Ok(Block.Block(HeaderOf(j, parent, transactions, out, extraData), transactions, BodyWithdrawals(j)))
  }

  /** The transaction list is changed in place; the check of its first entry never fails. */
  method InjectPol(j: Session, executed: seq<Envelope>, receipts: seq<Receipt>) returns (r: Result<seq<Envelope>, ExecError>)
    ensures r == BodyTransactions(j, executed, receipts)
    ensures r.Ok? ==> ValidateProposerPubkey(j.spec, j.env.blockEnv.timestamp, j.ctx.prevProposerPubkey).Ok?
  {
    hide CreatePolTransaction, Lookup;
    var transactions := executed;
    var _ :- ValidateProposerPubkey(j.spec, j.env.blockEnv.timestamp, j.ctx.prevProposerPubkey);
    if IsActive(j.spec, Prague1, j.env.blockEnv.timestamp) {
      var created := PolOf(j, j.ctx.prevProposerPubkey.value);
      if created.Err? {
        return Err(PolNonceOverflow);
      }
      transactions := [Berachain(created.value)] + transactions;
      if receipts == [] {
        return Err(MissingPolReceipts);
      }
      if transactions == [] || !transactions[0].Berachain? {
        return Err(MissingPolTransactionAtIndex0);
      }
    }
    return Ok(transactions);
  }

  /** The header that comes out survives the wire exactly under the condition of `AssembledShapeExact`,
      and the environment read back from it is, blob fees apart, the one the block was built under. */
  method AssembleBlock(j: Session, parent: BerachainHeader, executed: seq<Envelope>, out: Outcome, extraData: Blob)
    returns (r: Result<Block, ExecError>)
    ensures r == Assemble(j, parent, executed, out, extraData)
    ensures r.Ok? && Accepted(j.spec) ==>
              (PrefixShaped(r.value.header) <==>
               && (j.ctx.parentBeaconBlockRoot.Some? ==> ParentComplete(parent))
               && (IsActive(j.spec, Prague, j.env.blockEnv.timestamp) ==> j.ctx.parentBeaconBlockRoot.Some?))
    ensures r.Ok? && Accepted(j.spec) && j.env.blockEnv.difficulty == 0 && j.env.blockEnv.prevrandao.Some? ==>
              EvmEnvOfHeader(j.w, j.spec, r.value.header).blockEnv.(blob := None) == j.env.blockEnv.(blob := None)
  {
    hide BodyTransactions, Lookup, PrefixShaped, NextExcessBlobGas, BlobParamsAt;
    var transactions :- InjectPol(j, executed, out.receipts);
    var timestamp := j.env.blockEnv.timestamp;
    var withdrawals := None;
    if IsActive(j.spec, Shanghai, timestamp) {
      withdrawals := Some(j.ctx.withdrawals.GetOr([]));
    }
    var requestsHash := None;
    if IsActive(j.spec, Prague, timestamp) {
      requestsHash := Some(j.w.requestsHash(out.requests));
    }
    var excessBlobGas := None;
    var blobGasUsed := None;
    if IsActive(j.spec, Cancun, timestamp) {
      blobGasUsed := Some(out.blobGasUsed);
      if IsActive(j.spec, Cancun, parent.timestamp) {
        excessBlobGas := NextExcessBlobGas(j.w, parent, BlobParamsAt(j.w, j.spec, timestamp));
      } else {
        excessBlobGas := Some(j.w.firstCancunExcess);
      }
    }
    var header := BerachainHeader(
      parentHash := j.ctx.parentHash,
      ommersHash := j.w.emptyOmmersHash,
      beneficiary := j.env.blockEnv.beneficiary,
      stateRoot := j.w.stateRoot(out.db),
      transactionsRoot := j.w.transactionsRoot(EncodeBody(transactions)),
      receiptsRoot := j.w.receiptsRoot(out.receipts),
      withdrawalsRoot := if withdrawals.Some? then Some(j.w.withdrawalsRoot(withdrawals.value)) else None,
      logsBloom := j.w.logsBloom(out.receipts),
      timestamp := timestamp,
      mixHash := j.env.blockEnv.prevrandao.GetOr(Zeros(32)),
      nonce := BEACON_NONCE,
      baseFeePerGas := Some(j.env.blockEnv.baseFee),
      number := j.env.blockEnv.number,
      gasLimit := j.env.blockEnv.gasLimit,
      difficulty := j.env.blockEnv.difficulty,
      gasUsed := out.gasUsed,
      extraData := extraData,
      parentBeaconBlockRoot := j.ctx.parentBeaconBlockRoot,
      blobGasUsed := blobGasUsed,
      excessBlobGas := excessBlobGas,
      requestsHash := requestsHash,
      prevProposerPubkey := j.ctx.prevProposerPubkey);
    if Accepted(j.spec) {
      AssembledShapeExact(j, parent, transactions, out, extraData);
      if j.env.blockEnv.difficulty == 0 && j.env.blockEnv.prevrandao.Some? {
        AssembledEnv(j, parent, transactions, out, extraData);
      }
    }
    return Ok(Block.Block(header, transactions, withdrawals));
  }

  /****** What assembly guarantees ******/

  lemma AlwaysMerged(spec: ChainSpec, t: U64, number: U64)
    requires Accepted(spec)
    ensures AtLeastMerge(RevmSpec(spec, t, number))
  {
    AcceptedActivation(spec, t);
    hide Lookup, Accepted, IsActive;
  }

  /** Blob fees apart, the block environment read back from an assembled header is the one it was
      assembled under, provided that was one from after the merge. */
  lemma AssembledEnv(j: Session, parent: BerachainHeader, txs: seq<Envelope>, out: Outcome, extraData: Blob)
    requires Accepted(j.spec) && j.env.blockEnv.difficulty == 0 && j.env.blockEnv.prevrandao.Some?
    ensures EvmEnvOfHeader(j.w, j.spec, HeaderOf(j, parent, txs, out, extraData)).blockEnv.(blob := None)
         == j.env.blockEnv.(blob := None)
  {
    hide Lookup, Accepted, IsActive, BlobParamsAt, NextExcessBlobGas, RevmSpec;
    AlwaysMerged(j.spec, j.env.blockEnv.timestamp, j.env.blockEnv.number);
  }

  /** The parent carries what the blob gas recurrence needs. */
  predicate ParentComplete(parent: BerachainHeader) {
    parent.baseFeePerGas.Some? && parent.blobGasUsed.Some? && parent.excessBlobGas.Some?
  }

  /** Which optional fields an assembled header carries on an accepted specification. */
  lemma AssembledFields(j: Session, parent: BerachainHeader, txs: seq<Envelope>, out: Outcome, extraData: Blob)
    requires Accepted(j.spec)
    requires ValidateProposerPubkey(j.spec, j.env.blockEnv.timestamp, j.ctx.prevProposerPubkey).Ok?
    ensures var h, t := HeaderOf(j, parent, txs, out, extraData), j.env.blockEnv.timestamp;
            && h.baseFeePerGas.Some? && h.withdrawalsRoot.Some? && h.blobGasUsed.Some?
            && (h.excessBlobGas.Some? <==> ParentComplete(parent))
            && h.excessBlobGas == NextExcessBlobGas(j.w, parent, BlobParamsAt(j.w, j.spec, t))
            && h.parentBeaconBlockRoot == j.ctx.parentBeaconBlockRoot
            && (h.requestsHash.Some? <==> IsActive(j.spec, Prague, t))
            && (h.prevProposerPubkey.Some? <==> IsActive(j.spec, Prague1, t))
  {
    hide Lookup, IsActive, Accepted, BlobParamsAt;
    AcceptedActivation(j.spec, j.env.blockEnv.timestamp);
    AcceptedActivation(j.spec, parent.timestamp);
    ParamsFromCancunOn(j.w, j.spec, j.env.blockEnv.timestamp);
  }

  /** An assembled header has the shape that survives the wire exactly when a beacon root comes only
      with a complete parent, and is never missing from Prague on. */
  lemma AssembledShapeExact(j: Session, parent: BerachainHeader, txs: seq<Envelope>, out: Outcome, extraData: Blob)
    requires Accepted(j.spec)
    requires ValidateProposerPubkey(j.spec, j.env.blockEnv.timestamp, j.ctx.prevProposerPubkey).Ok?
    ensures PrefixShaped(HeaderOf(j, parent, txs, out, extraData)) <==>
            && (j.ctx.parentBeaconBlockRoot.Some? ==> ParentComplete(parent))
            && (IsActive(j.spec, Prague, j.env.blockEnv.timestamp) ==> j.ctx.parentBeaconBlockRoot.Some?)
  {
    hide Lookup, IsActive, Accepted, HeaderOf;
    AssembledFields(j, parent, txs, out, extraData);
    AcceptedActivation(j.spec, j.env.blockEnv.timestamp);
  }

  /** So a header built on a complete parent with a beacon root decodes back to itself. */
  lemma AssembledRoundTrip(j: Session, parent: BerachainHeader, txs: seq<Envelope>, out: Outcome, extraData: Blob, tail: Blob)
    requires Accepted(j.spec) && ParentComplete(parent) && j.ctx.parentBeaconBlockRoot.Some?
    requires ValidateProposerPubkey(j.spec, j.env.blockEnv.timestamp, j.ctx.prevProposerPubkey).Ok?
    requires |Encode(HeaderOf(j, parent, txs, out, extraData)) + tail| < MAX_BUFFER
    ensures var h := HeaderOf(j, parent, txs, out, extraData); Decode(Encode(h) + tail) == Ok((h, tail))
  {
    hide Lookup, IsActive, Accepted, HeaderOf, Encode, Decode;
    AssembledShapeExact(j, parent, txs, out, extraData);
    HeaderRoundTrip(HeaderOf(j, parent, txs, out, extraData), tail);
  }

  /** Once pre-execution succeeded, assembly cannot fail: the key was checked, the transaction could
      be created, and its receipt is there. */
  lemma AssembleNeverFails(j: Session, start: State, parent: BerachainHeader, executed: seq<Envelope>, out: Outcome, extraData: Blob)
    requires PreExecution(j, InitialState(start)).Ok?
    requires |PreExecution(j, InitialState(start)).value.receipts| <= |out.receipts|
    ensures Assemble(j, parent, executed, out, extraData).Ok?
  {
    hide Lookup, PreExecution, PolOf, HeaderOf;
    PreExecutionConsistent(j, start);
  }
}
