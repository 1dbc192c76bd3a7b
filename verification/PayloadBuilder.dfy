/**
 Choosing the transactions of a block (src/engine/builder.rs). The pool's iterator is foreign: what
 it offers is an arbitrary sequence, and what the builder tells it is recorded. Every iterator,
 whatever it makes of the instructions, offers some sequence, so statements about all sequences
 cover all pools.
 */
module PayloadBuilder {
  import opened Base
  import opened BaseFee
  import opened BlockBuilder
  import opened ChainSpec
  import opened Executor
  import opened World

  const MAX_RLP_BLOCK_SIZE: nat := 8_388_608
  const RESERVE: nat := 1024

  datatype BlobLookup = Found(sidecar: Sidecar, eip4844: bool) | Missing | StoreError

  datatype Reason =
    | ExceedsGasLimit
    | OversizedData(size: nat)
    | TooManyBlobs(have: nat)
    | MissingBlobSidecar
    | Eip7594SidecarDisallowed
    | Rejected

  datatype Instruction = MarkInvalid(tx: EthTx, reason: Reason) | SkipBlobs

  datatype SelectError = NotExecuted(error: ExecError) | BlobStoreFailed | FeePanic

  /** What stays fixed while transactions are chosen. */
  datatype Plan = Plan(session: Session, getBlob: B256 -> BlobLookup, maxBlobs: nat, withdrawalsLength: nat)

  function GasLimitOf(p: Plan): U64 {
    p.session.env.blockEnv.gasLimit
  }

  function BaseFeeOf(p: Plan): U64 {
    p.session.env.blockEnv.baseFee
  }

  predicate OsakaPlan(p: Plan) {
    IsActive(p.session.spec, Osaka, p.session.env.blockEnv.timestamp)
  }

  predicate Prague3Plan(p: Plan) {
    IsPrague3Active(p.session.spec, p.session.env.blockEnv.timestamp)
  }

  /** The operator's limit is capped by the protocol and raised to one (EIP-7872). */
  function MaxBlobCount(userLimit: Option<U64>, protocol: U64): U64 {
    match userLimit
    case None => protocol
    case Some(limit) => Max(Min(limit, protocol), 1)
  }

  /****** One offer ******/

  datatype Selection = Selection(
    exec: ExecState,
    included: seq<EthTx>,
    gas: U64,
    blobs: nat,
    bytes: nat,
    fees: nat,
    sidecars: seq<Sidecar>,
    instructions: seq<Instruction>)

  function Begin(exec: ExecState): Selection {
    Selection(exec, [], 0, 0, 0, 0, [], [])
  }

  function EstimatedSize(p: Plan, bytes: nat, tx: EthTx): nat {
    bytes + |tx.encoded| + p.withdrawalsLength + RESERVE
  }

  /** The checks before the blob store is asked, in their order. The gas sum is a wrapping u64. */
  function Screen(p: Plan, s: Selection, tx: EthTx): Option<Reason> {
    if Wrap64(s.gas + tx.gasLimit) > GasLimitOf(p) then Some(ExceedsGasLimit)
    else if OsakaPlan(p) && EstimatedSize(p, s.bytes, tx) > MAX_RLP_BLOCK_SIZE then
      Some(OversizedData(EstimatedSize(p, s.bytes, tx)))
    else if tx.txType.Eip4844? && s.blobs + BlobCount(tx) > p.maxBlobs then Some(TooManyBlobs(s.blobs + BlobCount(tx)))
    else None
  }

  /** The sidecar list a transaction contributes: one for a blob transaction, none for another. */
  function SidecarsFor(p: Plan, tx: EthTx): Result<Result<seq<Sidecar>, Reason>, SelectError> {
    if !tx.txType.Eip4844? then Ok(Ok([]))
    else
      match p.getBlob(tx.hash)
      case StoreError => Err(BlobStoreFailed)
      case Missing => Ok(Err(MissingBlobSidecar))
      case Found(sidecar, eip4844) => Ok(if eip4844 then Ok([sidecar]) else Err(Eip7594SidecarDisallowed))
  }

  function Refuse(s: Selection, tx: EthTx, reason: Reason): Selection {
    s.(instructions := s.instructions + [MarkInvalid(tx, reason)])
  }

  function SkipInstruction(p: Plan, tx: EthTx, blobs: nat): seq<Instruction> {
    if tx.txType.Eip4844? && blobs == p.maxBlobs then [SkipBlobs] else []
  }

  function Include(p: Plan, s: Selection, tx: EthTx, exec: ExecState, gas: U64, sidecars: seq<Sidecar>)
    : Result<Selection, SelectError>
  {
    match EffectiveTip(tx, BaseFeeOf(p))
    case None => Err(FeePanic)
    case Some(tip) =>
      TipTimesGas(tip, gas);
      var blobs := s.blobs + BlobCount(tx);
      Ok(Selection(exec, s.included + [tx], Wrap64(s.gas + gas), blobs, s.bytes + |tx.encoded|, s.fees + tip * gas,
                   s.sidecars + sidecars, s.instructions + SkipInstruction(p, tx, blobs)))
  }

  lemma TipTimesGas(tip: U128, gas: U64)
    ensures 0 <= tip * gas <= TWO_128 * gas
  {
    ProductGrows(tip, TWO_128, gas);
    ProductNonNegative(tip, gas);
  }

  /** Handles one offered transaction. One with a stale nonce is passed over without a mark. */
  function Step(p: Plan, s: Selection, tx: EthTx): Result<Selection, SelectError> {
    var screened := Screen(p, s, tx);
    if screened.Some? then Ok(Refuse(s, tx, screened.value))
    else
      var sidecars :- SidecarsFor(p, tx);
      if sidecars.Err? then Ok(Refuse(s, tx, sidecars.error))
      else
        match Execute(p.session, s.exec, Ethereum(tx))
        case Err(InvalidTx(nonceTooLow)) => Ok(if nonceTooLow then s else Refuse(s, tx, Rejected))
        case Err(e) => Err(NotExecuted(e))
        case Ok((exec, gas)) => Include(p, s, tx, exec, gas, sidecars.value)
  }

  function Run(p: Plan, s: Selection, offers: seq<EthTx>): Result<Selection, SelectError>
    decreases offers
  {
    if offers == [] then Ok(s)
    else
      var next :- Step(p, s, offers[0]);
      Run(p, next, offers[1..])
  }

  /** While Prague3 is active nothing is taken from the pool. */
  function Select(p: Plan, exec: ExecState, offers: seq<EthTx>): Result<Selection, SelectError> {
    if Prague3Plan(p) then Ok(Begin(exec)) else Run(p, Begin(exec), offers)
  }

  /****** The loop ******/

  class BestTransactions {
    const offers: seq<EthTx>
    var position: nat
    var instructions: seq<Instruction>

    constructor (offers: seq<EthTx>)
      ensures this.offers == offers && position == 0 && instructions == []
    {
      this.offers := offers;
      position := 0;
      instructions := [];
    }

    method Next() returns (tx: Option<EthTx>)
      requires position <= |offers|
      modifies this`position
      ensures position <= |offers|
      ensures tx == if old(position) < |offers| then Some(offers[old(position)]) else None
      ensures position == if tx.Some? then old(position) + 1 else old(position)
    {
      if position < |offers| {
        tx := Some(offers[position]);
        position := position + 1;
      } else {
        tx := None;
      }
    }

    method Tell(instruction: Instruction)
      modifies this`instructions
      ensures instructions == old(instructions) + [instruction]
    {
      instructions := instructions + [instruction];
    }
  }

  /** The loop's own counters. */
  class Tally {
    var gas: U64
    var blobs: nat
    var bytes: nat
    var fees: nat
    var sidecars: seq<Sidecar>

    constructor ()
      ensures gas == 0 && blobs == 0 && bytes == 0 && fees == 0 && sidecars == []
    {
      gas, blobs, bytes, fees, sidecars := 0, 0, 0, 0, [];
    }
  }

  /** The selection that the builder, the pool's iterator and the counters hold together. */
  ghost function Held(builder: BerachainBlockBuilder, best: BestTransactions, tally: Tally, included: seq<EthTx>): Selection
    reads builder.executor, best, tally
  {
    Selection(builder.executor.View(), included, tally.gas, tally.blobs, tally.bytes, tally.fees, tally.sidecars,
              best.instructions)
  }

  /** What happens when a transaction passed every check: it is executed, and the counters move. */
  method TryInclude(p: Plan, builder: BerachainBlockBuilder, best: BestTransactions, tally: Tally, tx: EthTx,
                    sidecars: seq<Sidecar>, ghost included: seq<EthTx>)
    returns (r: Result<bool, SelectError>)
    requires builder.executor.session == p.session && Screen(p, Held(builder, best, tally, included), tx).None?
    requires SidecarsFor(p, tx) == Ok(Ok(sidecars))
    modifies builder, builder.executor, best`instructions, tally
    ensures r.Err? ==> Step(p, old(Held(builder, best, tally, included)), tx) == Err(r.error)
    ensures r.Ok? ==>
              Step(p, old(Held(builder, best, tally, included)), tx)
              == Ok(Held(builder, best, tally, if r.value then included + [tx] else included))
    ensures r.Ok? ==> builder.transactions == old(builder.transactions) + if r.value then [Ethereum(tx)] else []
  {
    hide Execute, Screen, SidecarsFor, EffectiveTip, BlobCount;
    var executed := builder.ExecuteTransaction(Ethereum(tx));
    if executed.Err? {
      if !executed.error.InvalidTx? {
        return Err(NotExecuted(executed.error));
      }
      if !executed.error.nonceTooLow {
        best.Tell(MarkInvalid(tx, Rejected));
      }
      return Ok(false);
    }
    var gas := executed.value;
    ghost var told := best.instructions;
    tally.blobs := tally.blobs + BlobCount(tx);
    if tx.txType.Eip4844? && tally.blobs == p.maxBlobs {
      best.Tell(SkipBlobs);
    }
    assert best.instructions == told + SkipInstruction(p, tx, tally.blobs);
    tally.bytes := tally.bytes + |tx.encoded|;
    var tip := EffectiveTip(tx, BaseFeeOf(p));
    if tip.None? {
      return Err(FeePanic);
    }
    TipTimesGas(tip.value, gas);
    tally.fees := tally.fees + tip.value * gas;
    tally.gas := Wrap64(tally.gas + gas);
    tally.sidecars := tally.sidecars + sidecars;
    return Ok(true);
  }

  /** One turn of the loop. */
  method Consider(p: Plan, builder: BerachainBlockBuilder, best: BestTransactions, tally: Tally, tx: EthTx,
                  ghost included: seq<EthTx>)
    returns (r: Result<bool, SelectError>)
    requires builder.executor.session == p.session
    modifies builder, builder.executor, best`instructions, tally
    ensures r.Err? ==> Step(p, old(Held(builder, best, tally, included)), tx) == Err(r.error)
    ensures r.Ok? ==>
              Step(p, old(Held(builder, best, tally, included)), tx)
              == Ok(Held(builder, best, tally, if r.value then included + [tx] else included))
    ensures r.Ok? ==> builder.transactions == old(builder.transactions) + if r.value then [Ethereum(tx)] else []
  {
    hide Execute, EffectiveTip, BlobCount, Include, IsActive;
    if Wrap64(tally.gas + tx.gasLimit) > GasLimitOf(p) {
      best.Tell(MarkInvalid(tx, ExceedsGasLimit));
      return Ok(false);
    }
    var size := EstimatedSize(p, tally.bytes, tx);
    if OsakaPlan(p) && size > MAX_RLP_BLOCK_SIZE {
      best.Tell(MarkInvalid(tx, OversizedData(size)));
      return Ok(false);
    }
    if tx.txType.Eip4844? && tally.blobs + BlobCount(tx) > p.maxBlobs {
      best.Tell(MarkInvalid(tx, TooManyBlobs(tally.blobs + BlobCount(tx))));
      return Ok(false);
    }
    var found :- SidecarsFor(p, tx);
    if found.Err? {
      best.Tell(MarkInvalid(tx, found.error));
      return Ok(false);
    }
    r := TryInclude(p, builder, best, tally, tx, found.value, included);
  }

  /** The selection loop over whatever the iterator offers. */
  method SelectTransactions(p: Plan, builder: BerachainBlockBuilder, best: BestTransactions, tally: Tally)
    returns (r: Result<(), SelectError>, ghost included: seq<EthTx>)
    requires builder.executor.session == p.session && builder.transactions == []
    requires best.position == 0 && best.instructions == []
    requires tally.gas == 0 && tally.blobs == 0 && tally.bytes == 0 && tally.fees == 0 && tally.sidecars == []
    modifies builder, builder.executor, best, tally
    ensures r.Ok? ==> Select(p, old(builder.executor.View()), best.offers) == Ok(Held(builder, best, tally, included))
    ensures r.Ok? ==> builder.transactions == Envelopes(included)
    ensures r.Err? ==> Select(p, old(builder.executor.View()), best.offers) == Err(r.error)
  {
    hide Step, IsActive;
    included := [];
    ghost var whole := Run(p, Begin(builder.executor.View()), best.offers);
    if Prague3Plan(p) {
      return Ok(()), included;
    }
    while true
      invariant best.position <= |best.offers|
      invariant builder.transactions == Envelopes(included)
      invariant whole == Run(p, Held(builder, best, tally, included), best.offers[best.position..])
      decreases |best.offers| - best.position
    {
      ghost var rest := best.offers[best.position..];
      var tx := best.Next();
      if tx.None? {
        assert rest == [];
        break;
      }
      assert rest[0] == tx.value && rest[1..] == best.offers[best.position..];
      var considered := Consider(p, builder, best, tally, tx.value, included);
      if considered.Err? {
        return Err(considered.error), included;
      }
      if considered.value {
        EnvelopesSnoc(included, tx.value);
        included := included + [tx.value];
      }
    }
    return Ok(()), included;
  }

  lemma EnvelopesSnoc(txs: seq<EthTx>, tx: EthTx)
    ensures Envelopes(txs + [tx]) == Envelopes(txs) + [Ethereum(tx)]
  {
    assert (txs + [tx])[..|txs|] == txs;
  }
}
