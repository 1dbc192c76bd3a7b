/**
 A produced block on its way through the Engine API: turned into a payload, parsed back into a block,
 checked against its hash, and executed (src/engine/mod.rs, src/engine/validator.rs,
 src/node/evm/config.rs).
 */
module EnginePayload {
  import opened Base
  import opened Assembler
  import opened BaseFee
  import opened BlockBuilder
  import opened ChainSpec
  import opened EvmConfig
  import opened Executor
  import opened Header
  import opened Pipeline
  import opened PolTx
  import opened World

  function PayloadSession(w: World, spec: ChainSpec, p: Payload): Session {
    Session(w, spec, EvmEnvForPayload(w, spec, p), ContextForPayload(p))
  }

  /****** Transactions on the wire ******/

  /** The sender of a proof-of-liquidity transaction is overwritten, its hash is kept. */
  function Normalize(e: Envelope): Envelope {
    match e
    case Ethereum(_) => e
    case Berachain(pol) => Berachain(pol.(tx := pol.tx.(from := SYSTEM_ADDRESS)))
  }

  function NormalizeBody(txs: seq<Envelope>): (normal: seq<Envelope>)
    ensures |normal| == |txs|
  {
    seq(|txs|, i requires 0 <= i < |txs| => Normalize(txs[i]))
  }

  /** `decode_2718_exact`: the bytes must be used up, and the hash is computed anew. */
  function FromWire(keccak: Keccak, t: WireTx): Option<Envelope> {
    match t
    case EthereumBytes(tx) => Some(Ethereum(tx))
    case PolBytes(bytes) =>
      if |bytes| >= MAX_BUFFER then None
      else
        match Decode2718(bytes)
        case Err(_) => None
        case Ok((tx, rest)) => if rest == [] then Some(Berachain(Seal(keccak, tx))) else None
  }

  function TransactionsOf(keccak: Keccak, wire: seq<WireTx>): Option<seq<Envelope>> {
    if wire == [] then Some([])
    else
      match (FromWire(keccak, wire[0]), TransactionsOf(keccak, wire[1..]))
      case (Some(first), Some(rest)) => Some([first] + rest)
      case _ => None
  }

  /****** The payload of a block ******/

  /** The version of the payload follows from the beacon root: without it the payload has no blob gas
      fields and no requests hash, and a block without withdrawals gets none only in the oldest
      version. */
  function BlockToPayload(keccak: Keccak, b: Block): Payload {
    var h := b.header;
    var rooted := h.parentBeaconBlockRoot.Some?;
    Payload(
      timestamp := h.timestamp,
      blockNumber := h.number,
      feeRecipient := h.beneficiary,
      prevRandao := h.mixHash,
      gasLimit := h.gasLimit,
      baseFee := h.baseFeePerGas.GetOr(0),
      excessBlobGas := if rooted then Some(h.excessBlobGas.GetOr(0)) else None,
      parentHash := h.parentHash,
      parentBeaconBlockRoot := h.parentBeaconBlockRoot,
      withdrawals := if rooted then Some(b.withdrawals.GetOr([])) else b.withdrawals,
      parentProposerPubkey := h.prevProposerPubkey,
      transactions := EncodeBody(NormalizeBody(b.transactions)),
      blockHash := HashSlow(keccak, h),
      stateRoot := h.stateRoot,
      receiptsRoot := h.receiptsRoot,
      logsBloom := h.logsBloom,
      gasUsed := h.gasUsed,
      extraData := h.extraData,
      blobGasUsed := if rooted then Some(h.blobGasUsed.GetOr(0)) else None,
      requestsHash := if rooted then h.requestsHash else None)
  }

  /****** The block of a payload ******/

  const MAXIMUM_EXTRA_DATA_SIZE: nat := 32

  datatype PayloadRejection =
    | ExtraDataTooLong
    | BaseFeeTooLarge
    | BadTransaction
    | BlockHashMismatch
    | ProposerKeyMissing
    | ProposerKeyMismatch
    | ProposerKeyPresent

  /** The header is rebuilt from the payload: a field without a place there takes its post-merge
      value, and the roots of the lists are computed anew. */
  function RebuildHeader(w: World, p: Payload): BerachainHeader
    requires p.baseFee < TWO_64
  {
    BerachainHeader(
      parentHash := p.parentHash,
      ommersHash := w.emptyOmmersHash,
      beneficiary := p.feeRecipient,
      stateRoot := p.stateRoot,
      transactionsRoot := w.transactionsRoot(p.transactions),
      receiptsRoot := p.receiptsRoot,
      withdrawalsRoot := if p.withdrawals.Some? then Some(w.withdrawalsRoot(p.withdrawals.value)) else None,
      logsBloom := p.logsBloom,
      difficulty := 0,
      number := p.blockNumber,
      gasLimit := p.gasLimit,
      gasUsed := p.gasUsed,
      timestamp := p.timestamp,
      mixHash := p.prevRandao,
      nonce := Zeros(8),
      baseFeePerGas := Some(p.baseFee),
      blobGasUsed := p.blobGasUsed,
      excessBlobGas := p.excessBlobGas,
      parentBeaconBlockRoot := p.parentBeaconBlockRoot,
      requestsHash := p.requestsHash,
      prevProposerPubkey := p.parentProposerPubkey,
      extraData := p.extraData)
  }

  /** `parse_berachain_block` */
  function ParseBlock(w: World, p: Payload): Result<Block, PayloadRejection> {
    if |p.extraData| > MAXIMUM_EXTRA_DATA_SIZE then Err(ExtraDataTooLong)
    else if p.baseFee >= TWO_64 then Err(BaseFeeTooLarge)
    else
      match TransactionsOf(w.keccak, p.transactions)
      case None => Err(BadTransaction)
      case Some(txs) => Ok(Block.Block(RebuildHeader(w, p), txs, p.withdrawals))
  }

  /** The proposer key next to the payload is the header's, and is there exactly from Prague1 on. */
  function CheckProposerKey(spec: ChainSpec, b: Block, key: Option<BlsPublicKey>): Result<(), PayloadRejection> {
    if IsActive(spec, Prague1, b.header.timestamp) then
      if key.None? then Err(ProposerKeyMissing)
      else if b.header.prevProposerPubkey != key then Err(ProposerKeyMismatch)
      else Ok(())
    else if key.Some? || b.header.prevProposerPubkey.Some? then Err(ProposerKeyPresent)
    else Ok(())
  }

  /** `convert_payload_to_block` */
  function ConvertPayload(w: World, spec: ChainSpec, p: Payload): Result<Block, PayloadRejection> {
    var b :- ParseBlock(w, p);
    if HashSlow(w.keccak, b.header) != p.blockHash then Err(BlockHashMismatch)
    else
      var _ :- CheckProposerKey(spec, b, p.parentProposerPubkey);
      Ok(b)
  }

  /****** Environment and context of a payload ******/

  /** The payload's environment is the header's if and only if the header carries the beacon root
      and the excess blob gas together. */
  lemma PayloadEnvExact(w: World, spec: ChainSpec, b: Block)
    requires Accepted(spec)
    ensures EvmEnvForPayload(w, spec, BlockToPayload(w.keccak, b)) == EvmEnvOfHeader(w, spec, b.header)
       <==> (b.header.parentBeaconBlockRoot.Some? <==> b.header.excessBlobGas.Some?)
  {
    hide Lookup, Accepted, IsActive, BlobParamsAt, BuildCfg, RevmSpec, WordToNumber, HashSlow, NormalizeBody;
    ParamsFromCancunOn(w, spec, b.header.timestamp);
    AlwaysMerged(spec, b.header.timestamp, b.header.number);
  }

  /** The payload's context is the block's unless a block without withdrawals has a beacon root. */
  lemma PayloadContextExact(keccak: Keccak, b: Block)
    ensures ContextForPayload(BlockToPayload(keccak, b)) == ContextForBlock(b)
       <==> b.withdrawals.Some? || b.header.parentBeaconBlockRoot.None?
  {
  }

  /** The payload of an assembled block carries the producer's environment if and only if there is a
      beacon root: a missing excess blob gas is read as the zero that the producer started from. */
  lemma ProducerEnvExact(w: World, spec: ChainSpec, parent: BerachainHeader, attrs: NextBlockAttributes, txs: seq<Envelope>,
                         out: Outcome, extraData: Blob)
    requires Accepted(spec) && DivisibleHeader(spec, parent)
    ensures var j := ProducerSession(w, spec, parent, attrs);
            var b := Block.Block(HeaderOf(j, parent, txs, out, extraData), txs, BodyWithdrawals(j));
            EvmEnvForPayload(w, spec, BlockToPayload(w.keccak, b)) == j.env <==> attrs.parentBeaconBlockRoot.Some?
  {
    hide Lookup, Accepted, IsActive, BlobParamsAt, NextBlockBaseFee, LondonBoundary, BuildCfg, RevmSpec, HashSlow, NormalizeBody,
      EncodeBody, WordToNumber;
    AcceptedActivation(spec, attrs.timestamp);
    AcceptedActivation(spec, parent.timestamp);
    ParamsFromCancunOn(w, spec, attrs.timestamp);
    AlwaysMerged(spec, attrs.timestamp, ChildNumber(parent));
  }

  /** The session of a produced block's payload is the producer's if and only if the attributes carry a
      beacon root and a withdrawals list. */
  lemma PayloadSessionExact(w: World, spec: ChainSpec, parent: BerachainHeader, attrs: NextBlockAttributes,
                            executed: seq<Envelope>, done: ExecState, extraData: Blob, b: Built)
    requires Accepted(spec) && DivisibleHeader(spec, parent)
    requires Build(ProducerSession(w, spec, parent, attrs), parent, done, executed, extraData) == Ok(b)
    ensures PayloadSession(w, spec, BlockToPayload(w.keccak, b.block)) == ProducerSession(w, spec, parent, attrs)
       <==> attrs.parentBeaconBlockRoot.Some? && attrs.withdrawals.Some?
  {
    hide Accepted, Build, NextEvmEnv, EvmEnvForPayload, IsActive, HashSlow, NormalizeBody, EncodeBody, NextExcessBlobGas;
    var j := ProducerSession(w, spec, parent, attrs);
    BuiltBlock(j, parent, executed, done, extraData, b);
    ProducerEnvExact(w, spec, parent, attrs, b.block.transactions, b.result, extraData);
    AcceptedActivation(spec, j.env.blockEnv.timestamp);
  }

  /****** There and back ******/

  /** A correctly sealed transaction from the system address, small enough for a buffer, survives the
      wire; every Ethereum transaction does. */
  predicate Survives(keccak: Keccak, e: Envelope) {
    e.Ethereum?
    || (e.pol == Seal(keccak, e.pol.tx) && e.pol.tx.from == SYSTEM_ADDRESS && |Encode2718(e.pol.tx)| < MAX_BUFFER)
  }

  lemma WireRoundTrip(keccak: Keccak, e: Envelope)
    requires Survives(keccak, e)
    ensures Normalize(e) == e && FromWire(keccak, Encoded2718(e)) == Some(e)
  {
    hide Encode2718, Decode2718;
    if e.Berachain? {
      var bytes := Encode2718(e.pol.tx);
      assert bytes + [] == bytes;
      Decode2718Exact(bytes, e.pol.tx, []);
    }
  }

  lemma {:induction false} TransactionsRoundTrip(keccak: Keccak, txs: seq<Envelope>)
    requires forall i :: 0 <= i < |txs| ==> Survives(keccak, txs[i])
    ensures NormalizeBody(txs) == txs && TransactionsOf(keccak, EncodeBody(txs)) == Some(txs)
  {
    hide Encoded2718, FromWire, Survives;
    forall i | 0 <= i < |txs| ensures NormalizeBody(txs)[i] == txs[i] {
      WireRoundTrip(keccak, txs[i]);
    }
    if txs != [] {
      WireRoundTrip(keccak, txs[0]);
      TransactionsRoundTrip(keccak, txs[1..]);
      assert EncodeBody(txs)[1..] == EncodeBody(txs[1..]);
      assert txs == [txs[0]] + txs[1..];
    }
  }

  /** The transactions of a produced block survive the wire. */
  lemma BuiltSurvives(j: Session, parent: BerachainHeader, txs: seq<EthTx>, done: ExecState, extraData: Blob, i: nat)
    requires Build(j, parent, done, Envelopes(txs), extraData).Ok?
    requires i < |Build(j, parent, done, Envelopes(txs), extraData).value.block.transactions|
    ensures Survives(j.w.keccak, Build(j, parent, done, Envelopes(txs), extraData).value.block.transactions[i])
  {
    hide Build, IsActive, DistributeCall, PolNonce, Encode2718;
    BuiltLists(j, parent, txs, done, extraData);
    if IsActive(j.spec, Prague1, j.env.blockEnv.timestamp) && i == 0 {
      CreatedSize(j.w.keccak, j.spec, j.ctx.prevProposerPubkey.value, j.env.blockEnv.number, j.env.blockEnv.baseFee);
    }
  }

  lemma BuiltRoundTrips(j: Session, parent: BerachainHeader, txs: seq<EthTx>, done: ExecState, extraData: Blob, b: Built)
    requires Build(j, parent, done, Envelopes(txs), extraData) == Ok(b)
    ensures NormalizeBody(b.block.transactions) == b.block.transactions
    ensures BlockToPayload(j.w.keccak, b.block).transactions == EncodeBody(b.block.transactions)
    ensures TransactionsOf(j.w.keccak, EncodeBody(b.block.transactions)) == Some(b.block.transactions)
  {
    hide Build, Survives, NormalizeBody, EncodeBody, TransactionsOf, HashSlow;
    forall i | 0 <= i < |b.block.transactions| ensures Survives(j.w.keccak, b.block.transactions[i]) {
      BuiltSurvives(j, parent, txs, done, extraData, i);
    }
    TransactionsRoundTrip(j.w.keccak, b.block.transactions);
  }

  /** Everything that the block and the payload import together ask of the parent and the attributes. */
  predicate PayloadReady(parent: BerachainHeader, attrs: NextBlockAttributes) {
    Reproducible(parent, attrs) && attrs.parentBeaconBlockRoot.Some?
  }

  /** The header that comes back is the one that went out if and only if there is a beacon root and the
      parent carries what the excess blob gas is computed from. */
  lemma RebuildExact(w: World, spec: ChainSpec, parent: BerachainHeader, attrs: NextBlockAttributes, txs: seq<Envelope>,
                     out: Outcome, extraData: Blob)
    requires Accepted(spec) && DivisibleHeader(spec, parent) && NormalizeBody(txs) == txs
    ensures var j := ProducerSession(w, spec, parent, attrs);
            var b := Block.Block(HeaderOf(j, parent, txs, out, extraData), txs, BodyWithdrawals(j));
            var p := BlockToPayload(w.keccak, b);
            RebuildHeader(w, p) == b.header <==> attrs.parentBeaconBlockRoot.Some? && ParentComplete(parent)
  {
    hide Lookup, Accepted, IsActive, BlobParamsAt, NextBlockBaseFee, LondonBoundary, BuildCfg, RevmSpec, HashSlow, NormalizeBody,
      EncodeBody;
    AcceptedActivation(spec, attrs.timestamp);
    AcceptedActivation(spec, parent.timestamp);
    ParamsFromCancunOn(w, spec, attrs.timestamp);
    assert Zeros(8) == BEACON_NONCE;
  }

  lemma BuiltKey(j: Session, parent: BerachainHeader, executed: seq<Envelope>, done: ExecState, extraData: Blob, b: Built)
    requires Build(j, parent, done, executed, extraData) == Ok(b)
    ensures CheckProposerKey(j.spec, b.block, b.block.header.prevProposerPubkey) == Ok(())
  {
    hide IsActive, HeaderOf, PolOf, Finish;
    HeaderTimestamp(j, parent, b.block.transactions, b.result, extraData);
  }

  /** A produced block, sent as a payload, is converted back into exactly that block, its hash and
      proposer key accepted, if and only if its extra data has at most 32 bytes, there is a beacon
      root, and the parent was complete. */
  lemma ConvertExact(w: World, spec: ChainSpec, parent: BerachainHeader, attrs: NextBlockAttributes, txs: seq<EthTx>,
                     done: ExecState, extraData: Blob, b: Built)
    requires Accepted(spec) && DivisibleHeader(spec, parent)
    requires Build(ProducerSession(w, spec, parent, attrs), parent, done, Envelopes(txs), extraData) == Ok(b)
    ensures ConvertPayload(w, spec, BlockToPayload(w.keccak, b.block)) == Ok(b.block)
       <==> |extraData| <= MAXIMUM_EXTRA_DATA_SIZE && attrs.parentBeaconBlockRoot.Some? && ParentComplete(parent)
  {
    hide Accepted, Build, NextEvmEnv, IsActive, HashSlow, NormalizeBody, EncodeBody, TransactionsOf, NextExcessBlobGas,
      CheckProposerKey, RebuildHeader;
    var j := ProducerSession(w, spec, parent, attrs);
    BuiltBlock(j, parent, Envelopes(txs), done, extraData, b);
    BuiltRoundTrips(j, parent, txs, done, extraData, b);
    RebuildExact(w, spec, parent, attrs, b.block.transactions, b.result, extraData);
    BuiltKey(j, parent, Envelopes(txs), done, extraData, b);
    AcceptedActivation(spec, j.env.blockEnv.timestamp);
  }

  /** A produced block with a beacon root and withdrawals goes out as a payload, is decoded to the same
      transactions, and imports to what the producer saw, whatever its parent carries. */
  lemma PayloadImportAgrees(w: World, spec: ChainSpec, start: State, parent: BerachainHeader, attrs: NextBlockAttributes,
                            txs: seq<EthTx>, done: ExecState, extraData: Blob, b: Built)
    requires Accepted(spec) && DivisibleHeader(spec, parent)
    requires attrs.parentBeaconBlockRoot.Some? && attrs.withdrawals.Some?
    requires Produced(ProducerSession(w, spec, parent, attrs), start, parent, Envelopes(txs), done, extraData, b)
    ensures var p := BlockToPayload(w.keccak, b.block);
            var body := TransactionsOf(w.keccak, p.transactions);
            body == Some(b.block.transactions) && Import(PayloadSession(w, spec, p), start, body.value) == Ok(b.result)
  {
    hide Accepted, Build, ProducerSession, PayloadSession, BlockToPayload, Import, TransactionsOf, Replay, PreExecution, EncodeBody;
    var j := ProducerSession(w, spec, parent, attrs);
    SessionWorld(w, spec, parent, attrs);
    BuiltRoundTrips(j, parent, txs, done, extraData, b);
    PayloadSessionExact(w, spec, parent, attrs, Envelopes(txs), done, extraData, b);
    BodyReplays(j, start, parent, Envelopes(txs), done, extraData, b);
  }

  lemma SessionWorld(w: World, spec: ChainSpec, parent: BerachainHeader, attrs: NextBlockAttributes)
    requires DivisibleHeader(spec, parent)
    ensures ProducerSession(w, spec, parent, attrs).w == w && ProducerSession(w, spec, parent, attrs).spec == spec
  {
  }

  /****** What the conversion accepts ******/

  /** The payload says of the block what the header says, field by field. */
  predicate Carries(p: Payload, h: BerachainHeader) {
    && p.parentHash == h.parentHash && p.feeRecipient == h.beneficiary && p.stateRoot == h.stateRoot
    && p.receiptsRoot == h.receiptsRoot && p.logsBloom == h.logsBloom && p.prevRandao == h.mixHash
    && p.blockNumber == h.number && p.gasLimit == h.gasLimit && p.gasUsed == h.gasUsed && p.timestamp == h.timestamp
    && p.extraData == h.extraData && p.parentBeaconBlockRoot == h.parentBeaconBlockRoot
    && p.parentProposerPubkey == h.prevProposerPubkey
  }

  lemma PayloadCarriesHeader(keccak: Keccak, b: Block)
    ensures var p := BlockToPayload(keccak, b);
            && Carries(p, b.header) && p.blockHash == HashSlow(keccak, b.header)
            && (b.header.baseFeePerGas.Some? ==> p.baseFee == b.header.baseFeePerGas.value)
            && (b.header.parentBeaconBlockRoot.Some? && b.header.blobGasUsed.Some? ==> p.blobGasUsed == b.header.blobGasUsed)
            && (b.header.parentBeaconBlockRoot.Some? && b.header.excessBlobGas.Some? ==> p.excessBlobGas == b.header.excessBlobGas)
            && (b.header.parentBeaconBlockRoot.Some? ==> p.requestsHash == b.header.requestsHash)
  {
  }

  /** Whatever is accepted hashes to the announced hash, says what the payload says, carries the
      proposer key that came with it, exactly from Prague1 on, and has short extra data. */
  lemma ConvertSound(w: World, spec: ChainSpec, p: Payload, b: Block)
    requires ConvertPayload(w, spec, p) == Ok(b)
    ensures HashSlow(w.keccak, b.header) == p.blockHash && Carries(p, b.header)
    ensures b.header.baseFeePerGas.Some? && b.header.baseFeePerGas.value == p.baseFee
    ensures b.header.blobGasUsed == p.blobGasUsed && b.header.excessBlobGas == p.excessBlobGas
    ensures b.header.requestsHash == p.requestsHash && b.header.transactionsRoot == w.transactionsRoot(p.transactions)
    ensures b.withdrawals == p.withdrawals && TransactionsOf(w.keccak, p.transactions) == Some(b.transactions)
    ensures p.parentProposerPubkey.Some? <==> IsActive(spec, Prague1, p.timestamp)
    ensures |p.extraData| <= 32
  {
    hide IsActive, HashSlow, TransactionsOf;
  }

  /** The key check passes if and only if from Prague1 on the payload's key is there and is the header's,
      and before that neither has one; a missing key is told from a different one. */
  lemma KeyCheckExact(spec: ChainSpec, b: Block, key: Option<BlsPublicKey>)
    ensures CheckProposerKey(spec, b, key).Ok? <==>
            if IsActive(spec, Prague1, b.header.timestamp) then key.Some? && key == b.header.prevProposerPubkey
            else key.None? && b.header.prevProposerPubkey.None?
    ensures IsActive(spec, Prague1, b.header.timestamp) && key.None? ==> CheckProposerKey(spec, b, key) == Err(ProposerKeyMissing)
    ensures IsActive(spec, Prague1, b.header.timestamp) && key.Some? && key != b.header.prevProposerPubkey ==>
              CheckProposerKey(spec, b, key) == Err(ProposerKeyMismatch)
    ensures !IsActive(spec, Prague1, b.header.timestamp) && (key.Some? || b.header.prevProposerPubkey.Some?) ==>
              CheckProposerKey(spec, b, key) == Err(ProposerKeyPresent)
  {
    hide IsActive;
  }

  /** And conversion refuses for nothing else. */
  lemma ConvertComplete(w: World, spec: ChainSpec, p: Payload)
    ensures ConvertPayload(w, spec, p).Ok? <==>
            && |p.extraData| <= 32 && p.baseFee < TWO_64 && TransactionsOf(w.keccak, p.transactions).Some?
            && HashSlow(w.keccak, RebuildHeader(w, p)) == p.blockHash
            && (p.parentProposerPubkey.Some? <==> IsActive(spec, Prague1, p.timestamp))
  {
    hide IsActive, HashSlow, TransactionsOf;
  }

  /** A proof-of-liquidity transaction that lost its sender, but kept the hash it had with the system
      address, comes back with that sender and that hash. */
  lemma SenderRestored(keccak: Keccak, pol: Sealed)
    requires var restored := pol.tx.(from := SYSTEM_ADDRESS);
             pol.hash == TxHash(keccak, restored) && |Encode2718(restored)| < MAX_BUFFER
    ensures FromWire(keccak, Encoded2718(Normalize(Berachain(pol))))
         == Some(Berachain(Sealed(pol.tx.(from := SYSTEM_ADDRESS), pol.hash)))
  {
    hide Encode2718, Decode2718;
    var restored := pol.tx.(from := SYSTEM_ADDRESS);
    WireRoundTrip(keccak, Berachain(Sealed(restored, pol.hash)));
  }
}
