/**
 The values that move through the block pipeline, and the foreign code it calls. The EVM, the
 state, the trie roots, the blob fee curve and the hash function are deterministic functions
 handed in as a record, so every theorem holds for all of them.
 */
module World {
  import opened Base
  import opened Header
  import opened PolTx

  /** The state database; its structure is foreign. */
  type State(!new, ==)

  /** A blob sidecar; its contents are foreign. */
  type Sidecar(!new, ==)

  /****** Transactions ******/

  datatype EthTxType = Legacy | Eip2930 | Eip1559 | Eip4844 | Eip7702
  datatype TxType = EthereumType(inner: EthTxType) | BerachainType

  /** A signed Ethereum transaction. Its sender is the recovered signer and `encoded` its RLP form
      in a block body. */
  datatype EthTx = EthTx(
    txType: EthTxType,
    hash: B256,
    sender: Address,
    gasLimit: U64,
    maxFeePerGas: U128,
    maxPriorityFeePerGas: Option<U128>,
    blobHashes: seq<B256>,
    encoded: Blob)

  datatype Envelope = Ethereum(tx: EthTx) | Berachain(pol: Sealed)

  function TypeOf(e: Envelope): TxType {
    match e
    case Ethereum(tx) => EthereumType(tx.txType)
    case Berachain(_) => BerachainType
  }

  /** The signer recovered from a transaction: the system address for proof of liquidity. */
  function SignerOf(e: Envelope): Address {
    match e
    case Ethereum(tx) => tx.sender
    case Berachain(_) => SYSTEM_ADDRESS
  }

  /** The EIP-2718 bytes of a transaction; those of Ethereum transactions are foreign. */
  datatype WireTx = EthereumBytes(tx: EthTx) | PolBytes(bytes: Bytes)

  function Encoded2718(e: Envelope): WireTx {
    match e
    case Ethereum(tx) => EthereumBytes(tx)
    case Berachain(pol) => PolBytes(Encode2718(pol.tx))
  }

  function EncodeBody(txs: seq<Envelope>): (wire: seq<WireTx>)
    ensures |wire| == |txs| && forall i :: 0 <= i < |txs| ==> wire[i] == Encoded2718(txs[i])
  {
    seq(|txs|, i requires 0 <= i < |txs| => Encoded2718(txs[i]))
  }

  const DATA_GAS_PER_BLOB := 131_072

  function BlobCount(tx: EthTx): nat {
    if tx.txType == Eip4844 then |tx.blobHashes| else 0
  }

  function BlobGas(tx: EthTx): nat {
    BlobCount(tx) * DATA_GAS_PER_BLOB
  }

  /** What the producer earns per gas, or nothing when the fee cap is below the base fee. */
  function EffectiveTip(tx: EthTx, baseFee: U64): Option<U128> {
    if tx.maxFeePerGas < baseFee then None
    else
      var fee := tx.maxFeePerGas - baseFee;
      if tx.maxPriorityFeePerGas.None? then Some(fee) else Some(Min(fee, tx.maxPriorityFeePerGas.value))
  }

  /****** Receipts, requests, withdrawals ******/

  datatype Log = Log(address: Address, topics: seq<B256>, data: Bytes)
  datatype Receipt = Receipt(txType: TxType, success: bool, cumulativeGasUsed: U64, logs: seq<Log>)
  datatype Withdrawal = Withdrawal(index: U64, validatorIndex: U64, address: Address, amount: U64)
  datatype Deposit = Deposit(pubkey: Bytes, credentials: Bytes, amount: U64, signature: Bytes, index: U64)

  /****** Environments ******/

  datatype BlobParams = BlobParams(maxBlobCount: U64, maxBlobsPerTx: U64, minBlobFee: U128, updateFraction: U128)
  datatype SpecId = PreMerge | MergeSpec | ShanghaiSpec | CancunSpec | PragueSpec | OsakaSpec
  datatype BlobExcess = BlobExcess(excess: U64, price: U128)

  datatype CfgEnv = CfgEnv(
    chainId: U64,
    spec: SpecId,
    maxBlobsPerTx: Option<U64>,
    txGasLimitCap: Option<U64>,
    codeSizeLimit: Option<nat>,
    initcodeSizeLimit: Option<nat>)

  datatype BlockEnv = BlockEnv(
    number: U64,
    beneficiary: Address,
    timestamp: U64,
    difficulty: U256,
    prevrandao: Option<B256>,
    gasLimit: U64,
    baseFee: U64,
    blob: Option<BlobExcess>)

  datatype EvmEnv = EvmEnv(cfg: CfgEnv, blockEnv: BlockEnv)

  datatype BlockCtx = BlockCtx(
    parentHash: B256,
    parentBeaconBlockRoot: Option<B256>,
    withdrawals: Option<seq<Withdrawal>>,
    prevProposerPubkey: Option<BlsPublicKey>)

  datatype Block = Block(header: BerachainHeader, transactions: seq<Envelope>, withdrawals: Option<seq<Withdrawal>>)

  /****** Foreign code ******/

  datatype EvmError = Invalid(nonceTooLow: bool) | Fatal
  datatype CallResult = CallResult(success: bool, gasUsed: U64, logs: seq<Log>)

  /** The last argument of `incrementBalances` says whether the DAO accounts are drained first. */
  datatype World = World(
    keccak: Bytes -> B256,
    transact: (EvmEnv, State, EthTx) -> Result<(CallResult, State), EvmError>,
    systemCall: (EvmEnv, State, Address, Address, Bytes) -> Result<(CallResult, State), EvmError>,
    blockhashesCall: (EvmEnv, State, B256) -> Result<State, EvmError>,
    beaconRootCall: (EvmEnv, State, Option<B256>) -> Result<State, EvmError>,
    requestCalls: (EvmEnv, State) -> Result<(seq<Bytes>, State), EvmError>,
    incrementBalances: (EvmEnv, State, Option<seq<Withdrawal>>, bool) -> Result<State, EvmError>,
    decodeDeposit: Log -> Option<Deposit>,
    depositContract: Address,
    depositTopic: B256,
    scheduledBlobParams: U64 -> Option<BlobParams>,
    defaultBlobParams: SpecId -> BlobParams,
    nextExcessBlobGas: (BlobParams, U64, U64, U64) -> U64,
    blobFee: (BlobParams, U64) -> U128,
    firstCancunExcess: U64,
    stateRoot: State -> B256,
    transactionsRoot: seq<WireTx> -> B256,
    receiptsRoot: seq<Receipt> -> B256,
    logsBloom: seq<Receipt> -> Bloom,
    withdrawalsRoot: seq<Withdrawal> -> B256,
    requestsHash: seq<Bytes> -> B256,
    emptyOmmersHash: B256)
}
