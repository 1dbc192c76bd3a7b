/** The three ways an execution environment is built, and the block contexts (src/node/evm/config.rs). */
module EvmConfig {
  import opened Base
  import opened Rlp
  import opened ChainSpec
  import opened Header
  import opened BaseFee
  import opened World

  const MAX_TX_GAS_LIMIT_OSAKA: U64 := 16_777_216
  const MAX_CODE_SIZE_OSAKA: nat := 32_768
  const MAX_INITCODE_SIZE_OSAKA: nat := 65_536
  const INITIAL_BASE_FEE: U64 := 1_000_000_000

  /****** Blob parameters ******/

  /** The scheduled parameters, else the defaults of the active fork. */
  function InnerBlobParams(w: World, spec: ChainSpec, timestamp: U64): Option<BlobParams> {
    if w.scheduledBlobParams(timestamp).Some? then w.scheduledBlobParams(timestamp)
    else if IsActive(spec, Osaka, timestamp) then Some(w.defaultBlobParams(OsakaSpec))
    else if IsActive(spec, Prague, timestamp) then Some(w.defaultBlobParams(PragueSpec))
    else if IsActive(spec, Cancun, timestamp) then Some(w.defaultBlobParams(CancunSpec))
    else None
  }

  /** Osaka1 raises the minimum blob fee of whatever parameters apply. */
  function BlobParamsAt(w: World, spec: ChainSpec, timestamp: U64): Option<BlobParams> {
    match InnerBlobParams(w, spec, timestamp)
    case None => None
    case Some(params) =>
      Some(if IsActive(spec, Osaka1, timestamp) then params.(minBlobFee := spec.osaka1MinimumBlobBaseFee) else params)
  }

  /** Nothing when the parent lacks its base fee or a blob field. */
  function NextExcessBlobGas(w: World, parent: BerachainHeader, params: Option<BlobParams>): Option<U64> {
    if params.Some? && parent.excessBlobGas.Some? && parent.blobGasUsed.Some? && parent.baseFeePerGas.Some? then
      Some(w.nextExcessBlobGas(params.value, parent.excessBlobGas.value, parent.blobGasUsed.value, parent.baseFeePerGas.value))
    else None
  }

  /****** Configuration environment ******/

  /** The EVM rule set by timestamp, with block forks decided by block number. */
  function RevmSpec(spec: ChainSpec, timestamp: U64, number: U64): SpecId {
    if IsActive(spec, Osaka, timestamp) then OsakaSpec
    else if IsActive(spec, Prague, timestamp) then PragueSpec
    else if IsActive(spec, Cancun, timestamp) then CancunSpec
    else if IsActive(spec, Shanghai, timestamp) then ShanghaiSpec
    else
      var paris := Lookup(spec.hardforks, Paris);
      if paris.Block? && paris.number <= number then MergeSpec else PreMerge
  }

  predicate AtLeastMerge(id: SpecId) {
    !id.PreMerge?
  }

  function BuildCfg(spec: ChainSpec, id: SpecId, params: Option<BlobParams>, timestamp: U64): CfgEnv {
    var osaka := IsActive(spec, Osaka, timestamp);
    CfgEnv(
      chainId := spec.chainId,
      spec := id,
      maxBlobsPerTx := if params.Some? then Some(params.value.maxBlobsPerTx) else None,
      txGasLimitCap := if osaka then Some(MAX_TX_GAS_LIMIT_OSAKA) else None,
      codeSizeLimit := if osaka then Some(MAX_CODE_SIZE_OSAKA) else None,
      initcodeSizeLimit := if osaka then Some(MAX_INITCODE_SIZE_OSAKA) else None)
  }

  function PricedExcess(w: World, excess: Option<U64>, params: Option<BlobParams>): Option<BlobExcess> {
    if excess.Some? && params.Some? then Some(BlobExcess(excess.value, w.blobFee(params.value, excess.value))) else None
  }

  /****** evm_env ******/

  function EvmEnvOfHeader(w: World, spec: ChainSpec, h: BerachainHeader): EvmEnv {
    var params := BlobParamsAt(w, spec, h.timestamp);
    var id := RevmSpec(spec, h.timestamp, h.number);
    EvmEnv(
      BuildCfg(spec, id, params, h.timestamp),
      BlockEnv(
        number := h.number,
        beneficiary := h.beneficiary,
        timestamp := h.timestamp,
        difficulty := if AtLeastMerge(id) then 0 else h.difficulty,
        prevrandao := if AtLeastMerge(id) then Some(h.mixHash) else None,
        gasLimit := h.gasLimit,
        baseFee := h.baseFeePerGas.GetOr(0),
        blob := PricedExcess(w, h.excessBlobGas, params)))
  }

  /****** next_evm_env ******/

  datatype NextBlockAttributes = NextBlockAttributes(
    timestamp: U64,
    suggestedFeeRecipient: Address,
    prevRandao: B256,
    gasLimit: U64,
    parentBeaconBlockRoot: Option<B256>,
    withdrawals: Option<seq<Withdrawal>>,
    prevProposerPubkey: Option<BlsPublicKey>)

  /** The child's number, in u64 arithmetic. */
  function ChildNumber(parent: BerachainHeader): U64 {
    Wrap64(parent.number + 1)
  }

  predicate LondonBoundary(spec: ChainSpec, parent: BerachainHeader) {
    TransitionsAtBlock(Lookup(spec.hardforks, London), ChildNumber(parent))
  }

  function NextEvmEnv(w: World, spec: ChainSpec, parent: BerachainHeader, attrs: NextBlockAttributes): EvmEnv
    requires DivisibleHeader(spec, parent)
  {
    var params := BlobParamsAt(w, spec, attrs.timestamp);
    var id := RevmSpec(spec, attrs.timestamp, ChildNumber(parent));
    var next := NextExcessBlobGas(w, parent, params);
    var excess := if next.Some? then next else if params.Some? then Some(0) else None;
    var blob :=
      match excess
      case None => None
      case Some(e) => Some(BlobExcess(e, w.blobFee(params.GetOr(w.defaultBlobParams(CancunSpec)), e)));
    var baseFee := if LondonBoundary(spec, parent) then Some(INITIAL_BASE_FEE) else NextBlockBaseFee(spec, parent);
    var gasLimit := if LondonBoundary(spec, parent) then Wrap64(attrs.gasLimit * ELASTICITY) else attrs.gasLimit;
    EvmEnv(
      BuildCfg(spec, id, params, attrs.timestamp),
      BlockEnv(
        number := ChildNumber(parent),
        beneficiary := attrs.suggestedFeeRecipient,
        timestamp := attrs.timestamp,
        difficulty := 0,
        prevrandao := Some(attrs.prevRandao),
        gasLimit := gasLimit,
        baseFee := baseFee.GetOr(0),
        blob := blob))
  }

  /** The environment builder sets the fields of a local configuration one after another. On accepted
      specifications the base fee is the parent's next one, above its floor, and the gas limit the
      requested one, except where the child's number wraps; and from Osaka on a transaction's gas is
      capped. */
  method ConfigureNext(w: World, spec: ChainSpec, parent: BerachainHeader, attrs: NextBlockAttributes) returns (env: EvmEnv)
    requires DivisibleHeader(spec, parent)
    ensures env == NextEvmEnv(w, spec, parent, attrs)
    ensures Accepted(spec) && parent.number != TWO_64 - 1 ==>
              env.blockEnv.gasLimit == attrs.gasLimit && env.blockEnv.baseFee == NextBlockBaseFee(spec, parent).GetOr(0)
              && (parent.baseFeePerGas.Some? ==> env.blockEnv.baseFee >= FloorAt(spec, parent.timestamp))
    ensures env.blockEnv.beneficiary == attrs.suggestedFeeRecipient && env.blockEnv.prevrandao == Some(attrs.prevRandao)
    ensures env.blockEnv.timestamp == attrs.timestamp && env.blockEnv.difficulty == 0 && env.cfg.chainId == spec.chainId
    ensures parent.number < TWO_64 - 1 ==> env.blockEnv.number == parent.number + 1
    ensures Accepted(spec) ==> env.blockEnv.blob.Some? && env.cfg.maxBlobsPerTx.Some?
    ensures IsActive(spec, Osaka, attrs.timestamp) <==> env.cfg.txGasLimitCap.Some?
  {
    hide IsActive, Accepted, RawBaseFee, InnerBlobParams, RevmSpec;
    if Accepted(spec) {
      LondonBoundaryExact(spec, parent);
      ParamsFromCancunOn(w, spec, attrs.timestamp);
    }
    var params := BlobParamsAt(w, spec, attrs.timestamp);
    var cfg := CfgEnv(spec.chainId, RevmSpec(spec, attrs.timestamp, ChildNumber(parent)), None, None, None, None);
    if params.Some? {
      cfg := cfg.(maxBlobsPerTx := Some(params.value.maxBlobsPerTx));
    }
    if IsActive(spec, Osaka, attrs.timestamp) {
      cfg := cfg.(txGasLimitCap := Some(MAX_TX_GAS_LIMIT_OSAKA));
      cfg := cfg.(codeSizeLimit := Some(MAX_CODE_SIZE_OSAKA));
      cfg := cfg.(initcodeSizeLimit := Some(MAX_INITCODE_SIZE_OSAKA));
    }
    var excess := NextExcessBlobGas(w, parent, params);
    if excess.None? && params.Some? {
      excess := Some(0);
    }
    var blob := None;
    if excess.Some? {
      blob := Some(BlobExcess(excess.value, w.blobFee(params.GetOr(w.defaultBlobParams(CancunSpec)), excess.value)));
    }
    var baseFee := NextBlockBaseFee(spec, parent);
    var gasLimit := attrs.gasLimit;
    if LondonBoundary(spec, parent) {
      gasLimit := Wrap64(gasLimit * ELASTICITY);
      baseFee := Some(INITIAL_BASE_FEE);
    }
    env := EvmEnv(cfg, BlockEnv(ChildNumber(parent), attrs.suggestedFeeRecipient, attrs.timestamp, 0,
                                Some(attrs.prevRandao), gasLimit, baseFee.GetOr(0), blob));
  }

  lemma ParamsFromCancunOn(w: World, spec: ChainSpec, t: U64)
    requires Accepted(spec)
    ensures BlobParamsAt(w, spec, t).Some?
  {
    AcceptedActivation(spec, t);
    hide Lookup, Accepted, IsActive;
  }

  /** The London branch is dead on accepted specifications, except where the child's number wraps. */
  lemma LondonBoundaryExact(spec: ChainSpec, parent: BerachainHeader)
    requires Accepted(spec)
    ensures LondonBoundary(spec, parent) <==> parent.number == TWO_64 - 1
  {
    hide Lookup, HardforkList, Check, Accepted, IsActive;
    AcceptedActivation(spec, 0);
  }

  /** Away from the London boundary, the block environment of a child field by field. */
  lemma NextBlockFields(w: World, spec: ChainSpec, parent: BerachainHeader, attrs: NextBlockAttributes)
    requires Accepted(spec) && DivisibleHeader(spec, parent) && parent.number < TWO_64 - 1
    ensures var params := BlobParamsAt(w, spec, attrs.timestamp);
            var excess := NextExcessBlobGas(w, parent, params).GetOr(0);
            params.Some?
            && NextEvmEnv(w, spec, parent, attrs).blockEnv
               == BlockEnv(parent.number + 1, attrs.suggestedFeeRecipient, attrs.timestamp, 0, Some(attrs.prevRandao), attrs.gasLimit,
                           NextBlockBaseFee(spec, parent).GetOr(0), Some(BlobExcess(excess, w.blobFee(params.value, excess))))
  {
    LondonBoundaryExact(spec, parent);
    ParamsFromCancunOn(w, spec, attrs.timestamp);
    hide LondonBoundary, BlobParamsAt, RevmSpec, NextBlockBaseFee, NextExcessBlobGas, BuildCfg, Accepted, IsActive, DivisibleHeader;
  }

  /****** evm_env_for_payload ******/

  datatype Payload = Payload(
    timestamp: U64,
    blockNumber: U64,
    feeRecipient: Address,
    prevRandao: B256,
    gasLimit: U64,
    baseFee: U256,
    excessBlobGas: Option<U64>,
    parentHash: B256,
    parentBeaconBlockRoot: Option<B256>,
    withdrawals: Option<seq<Withdrawal>>,
    parentProposerPubkey: Option<BlsPublicKey>,
    transactions: seq<WireTx>,
    blockHash: B256,
    stateRoot: B256,
    receiptsRoot: B256,
    logsBloom: Bloom,
    gasUsed: U64,
    extraData: Blob,
    blobGasUsed: Option<U64>,
    requestsHash: Option<B256>)

  /** A word read as a big-endian number. */
  function WordToNumber(word: B256): (n: U256) {
    FromBigEndianBound(word);
    Pow256Values();
    FromBigEndian(word)
  }

  function EvmEnvForPayload(w: World, spec: ChainSpec, p: Payload): EvmEnv {
    var params := BlobParamsAt(w, spec, p.timestamp);
    var id := RevmSpec(spec, p.timestamp, p.blockNumber);
    EvmEnv(
      BuildCfg(spec, id, params, p.timestamp),
      BlockEnv(
        number := p.blockNumber,
        beneficiary := p.feeRecipient,
        timestamp := p.timestamp,
        difficulty := if AtLeastMerge(id) then 0 else WordToNumber(p.prevRandao),
        prevrandao := if AtLeastMerge(id) then Some(p.prevRandao) else None,
        gasLimit := p.gasLimit,
        baseFee := Min(p.baseFee, TWO_64 - 1),
        blob := PricedExcess(w, p.excessBlobGas, params)))
  }

  /****** Contexts ******/

  function ContextForBlock(b: Block): BlockCtx {
    BlockCtx(b.header.parentHash, b.header.parentBeaconBlockRoot, b.withdrawals, b.header.prevProposerPubkey)
  }

  function ContextForNextBlock(w: World, parent: BerachainHeader, attrs: NextBlockAttributes): BlockCtx {
    BlockCtx(HashSlow(w.keccak, parent), attrs.parentBeaconBlockRoot, attrs.withdrawals, attrs.prevProposerPubkey)
  }

  function ContextForPayload(p: Payload): BlockCtx {
    BlockCtx(p.parentHash, p.parentBeaconBlockRoot, p.withdrawals, p.parentProposerPubkey)
  }
}
