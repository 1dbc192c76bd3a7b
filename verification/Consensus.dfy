/** Berachain's own consensus gates (src/consensus/mod.rs). */
module Consensus {
  import opened Base
  import opened ChainSpec
  import opened Executor
  import opened Header
  import opened PolTx
  import opened World

  datatype ConsensusError =
    | NoTransactions
    | FirstNotPol
    | PolAtPosition(index: nat)
    | PolBeforePrague1(index: nat)
    | MissingPubkey
    | MissingBaseFee
    | PolRejected(rejection: PolRejection)
    | BadProposerKey(error: ExecError)

  /** The transaction that a header with a key and a base fee dictates. */
  function DerivedPol(keccak: Keccak, spec: ChainSpec, header: BerachainHeader): Result<Sealed, PolError> {
    CreatePolTransaction(keccak, spec, header.prevProposerPubkey.GetOr(Zeros(48)), header.number, header.baseFeePerGas.GetOr(0))
  }

  lemma PolCreatable(keccak: Keccak, spec: ChainSpec, header: BerachainHeader)
    ensures DerivedPol(keccak, spec, header).Ok? <==> header.number > 0
  {
    hide CreatePolTransaction;
    CreationDefined(keccak, spec, header.prevProposerPubkey.GetOr(Zeros(48)), header.number, header.baseFeePerGas.GetOr(0));
  }

  /** Refuses for a missing key, else for a missing base fee, else at block 0, where no transaction can
      be derived, else when the hash is not that of the derived transaction; and for nothing else. */
  function ValidatePolShape(keccak: Keccak, spec: ChainSpec, pol: Sealed, header: BerachainHeader)
    : (r: Result<(), ConsensusError>)
    ensures r == Err(MissingPubkey) <==> header.prevProposerPubkey.None?
    ensures r == Err(MissingBaseFee) <==> header.prevProposerPubkey.Some? && header.baseFeePerGas.None?
    ensures r == Err(PolRejected(CannotCreate)) <==>
            header.prevProposerPubkey.Some? && header.baseFeePerGas.Some? && header.number == 0
    ensures r.Ok? ==> header.number > 0 && DerivedPol(keccak, spec, header).Ok? && pol.hash == DerivedPol(keccak, spec, header).value.hash
    ensures r == Err(PolRejected(HashMismatch)) ==>
              header.number > 0 && DerivedPol(keccak, spec, header).Ok? && pol.hash != DerivedPol(keccak, spec, header).value.hash
    ensures r.Err? ==> r.error.MissingPubkey? || r.error.MissingBaseFee? || r.error.PolRejected?
  {
    PolCreatable(keccak, spec, header);
    if header.prevProposerPubkey.None? then Err(MissingPubkey)
    else if header.baseFeePerGas.None? then Err(MissingBaseFee)
    else
      match ValidatePolTransaction(keccak, spec, pol, header.prevProposerPubkey.value, header.number, header.baseFeePerGas.value)
      case Err(e) => Err(PolRejected(e))
      case Ok(_) => Ok(())
  }

  /** No proof-of-liquidity transaction from this position on. */
  predicate EthereumFrom(txs: seq<Envelope>, start: nat) {
    forall i :: start <= i < |txs| ==> txs[i].Ethereum?
  }

  /** The first proof-of-liquidity transaction from `start` on is at `i`. */
  predicate FirstPolAt(txs: seq<Envelope>, start: nat, i: nat) {
    start <= i < |txs| && txs[i].Berachain? && forall k :: start <= k < i ==> txs[k].Ethereum?
  }

  method FindPol(txs: seq<Envelope>, start: nat) returns (found: Option<nat>)
    requires start <= |txs|
    ensures found.Some? ==> FirstPolAt(txs, start, found.value)
    ensures found.None? ==> EthereumFrom(txs, start)
  {
    for i := start to |txs|
      invariant forall k :: start <= k < i ==> txs[k].Ethereum?
    {
      if txs[i].Berachain? {
        return Some(i);
      }
    }
    return None;
  }

  /** What a block must look like to pass. */
  predicate Passes(keccak: Keccak, spec: ChainSpec, b: Block) {
    if IsActive(spec, Prague1, b.header.timestamp) then
      && b.transactions != [] && b.transactions[0].Berachain?
      && ValidatePolShape(keccak, spec, b.transactions[0].pol, b.header).Ok?
      && EthereumFrom(b.transactions, 1)
    else EthereumFrom(b.transactions, 0)
  }

  /** The gate of `validate_block_pre_execution`, with its early returns. */
  method ValidateBlockPreExecution(keccak: Keccak, spec: ChainSpec, b: Block) returns (r: Result<(), ConsensusError>)
    ensures r.Ok? <==> Passes(keccak, spec, b)
    ensures r.Err? && r.error.PolAtPosition? ==>
              IsActive(spec, Prague1, b.header.timestamp) && FirstPolAt(b.transactions, 1, r.error.index)
    ensures r.Err? && r.error.PolBeforePrague1? ==>
              !IsActive(spec, Prague1, b.header.timestamp) && FirstPolAt(b.transactions, 0, r.error.index)
    ensures r == Err(NoTransactions) ==> b.transactions == []
    ensures r == Err(FirstNotPol) ==> b.transactions != [] && b.transactions[0].Ethereum?
  {
    hide ValidatePolShape, IsActive;
    if IsActive(spec, Prague1, b.header.timestamp) {
      if b.transactions == [] {
        return Err(NoTransactions);
      }
      if b.transactions[0].Ethereum? {
        return Err(FirstNotPol);
      }
      var _ :- ValidatePolShape(keccak, spec, b.transactions[0].pol, b.header);
      var found := FindPol(b.transactions, 1);
      if found.Some? {
        return Err(PolAtPosition(found.value));
      }
    } else {
      var found := FindPol(b.transactions, 0);
      if found.Some? {
        return Err(PolBeforePrague1(found.value));
      }
    }
    return Ok(());
  }

  /** The gate of `validate_header`. */
  function ValidateHeader(spec: ChainSpec, h: BerachainHeader): Result<(), ConsensusError> {
    match ValidateProposerPubkey(spec, h.timestamp, h.prevProposerPubkey)
    case Err(e) => Err(BadProposerKey(e))
    case Ok(_) => Ok(())
  }

  /** The gate in the block's own terms: from Prague1 on the first transaction carries the hash of the
      transaction that number, base fee and proposer key dictate, and no other is one of its kind;
      before, none is. */
  lemma GateExact(keccak: Keccak, spec: ChainSpec, b: Block)
    ensures Passes(keccak, spec, b) <==>
            if IsActive(spec, Prague1, b.header.timestamp) then
              && b.transactions != [] && b.transactions[0].Berachain?
              && b.header.prevProposerPubkey.Some? && b.header.baseFeePerGas.Some? && b.header.number > 0
              && b.transactions[0].pol.hash
                 == keccak(Encode2718(PoLTx(
                             chainId := spec.chainId, from := SYSTEM_ADDRESS, to := spec.polContract, nonce := b.header.number - 1,
                             gasLimit := 30_000_000, gasPrice := b.header.baseFeePerGas.value,
                             input := DistributeCall(keccak, b.header.prevProposerPubkey.value))))
              && forall i :: 1 <= i < |b.transactions| ==> b.transactions[i].Ethereum?
            else forall i :: 0 <= i < |b.transactions| ==> b.transactions[i].Ethereum?
  {
    hide IsActive, Encode2718, DistributeCall;
    if b.header.prevProposerPubkey.Some? && b.header.baseFeePerGas.Some? {
      CreationDefined(keccak, spec, b.header.prevProposerPubkey.value, b.header.number, b.header.baseFeePerGas.value);
    }
  }

  /** A header passes if and only if it carries a proposer key exactly from Prague1 on. */
  lemma HeaderGateExact(spec: ChainSpec, h: BerachainHeader)
    ensures ValidateHeader(spec, h).Ok? <==> (h.prevProposerPubkey.Some? <==> IsActive(spec, Prague1, h.timestamp))
  {
    hide IsActive;
  }
}
