/**
 The block executor: the proof-of-liquidity system call and the other pre-execution changes, then
 transactions one by one, then the post-block changes (src/node/evm/executor.rs).
 */
module Executor {
  import opened Base
  import opened BaseFee
  import opened ChainSpec
  import opened Deposits
  import opened PolTx
  import opened World

  datatype ExecError =
    | MissingProposerPubkey
    | ProposerPubkeyNotAllowed
    | PolNonceOverflow
    | SystemCallFailed(error: EvmError)
    | TransactionGasLimitMoreThanAvailable(limit: U64, available: U64)
    | InvalidTx(nonceTooLow: bool)
    | EvmFailed
    | DepositDecodeFailed
    | IncrementBalanceFailed
    | MissingPolReceipts
    | MissingPolTransactionAtIndex0

  /** What stays fixed while a block is executed. */
  datatype Session = Session(w: World, spec: ChainSpec, env: EvmEnv, ctx: BlockCtx)

  datatype ExecState = ExecState(db: State, receipts: seq<Receipt>, gasUsed: U64, blobGasUsed: U64)

  /** The result of running a transaction, before it is committed. */
  datatype TxOutput = TxOutput(result: CallResult, db: State, blobGas: nat, txType: TxType)

  datatype Outcome = Outcome(db: State, receipts: seq<Receipt>, requests: seq<Bytes>, gasUsed: U64, blobGasUsed: U64)

  function InitialState(db: State): ExecState {
    ExecState(db, [], 0, 0)
  }

  /****** The transition functions ******/

  /** The proposer key must be present exactly from Prague1 on. */
  function ValidateProposerPubkey(spec: ChainSpec, timestamp: U64, pubkey: Option<BlsPublicKey>): Result<(), ExecError> {
    if IsActive(spec, Prague1, timestamp) && pubkey.None? then Err(MissingProposerPubkey)
    else if !IsActive(spec, Prague1, timestamp) && pubkey.Some? then Err(ProposerPubkeyNotAllowed)
    else Ok(())
  }

  function PolOf(j: Session, pubkey: BlsPublicKey): Result<Sealed, PolError> {
    CreatePolTransaction(j.w.keccak, j.spec, pubkey, j.env.blockEnv.number, j.env.blockEnv.baseFee)
  }

  /** The system call gets a receipt but costs no gas. */
  function PolStep(j: Session, s: ExecState): Result<ExecState, ExecError> {
    var _ :- ValidateProposerPubkey(j.spec, j.env.blockEnv.timestamp, j.ctx.prevProposerPubkey);
    if !IsActive(j.spec, Prague1, j.env.blockEnv.timestamp) then Ok(s)
    else
      match PolOf(j, j.ctx.prevProposerPubkey.value)
      case Err(_) => Err(PolNonceOverflow)
      case Ok(pol) =>
        match j.w.systemCall(j.env, s.db, pol.tx.from, pol.tx.to, pol.tx.input)
        case Err(e) => Err(SystemCallFailed(e))
        case Ok((result, db)) =>
          Ok(s.(db := db, receipts := s.receipts + [Receipt(BerachainType, result.success, s.gasUsed, result.logs)]))
  }

  function SystemStep(s: ExecState, r: Result<State, EvmError>): Result<ExecState, ExecError> {
    match r
    case Err(e) => Err(SystemCallFailed(e))
    case Ok(db) => Ok(s.(db := db))
  }

  function PreExecution(j: Session, s: ExecState): Result<ExecState, ExecError> {
    var hashes :- SystemStep(s, j.w.blockhashesCall(j.env, s.db, j.ctx.parentHash));
    var beacon :- SystemStep(hashes, j.w.beaconRootCall(j.env, hashes.db, j.ctx.parentBeaconBlockRoot));
    PolStep(j, beacon)
  }

  /** `block.gas_limit - gas_used`, in u64 arithmetic. */
  function AvailableGas(j: Session, s: ExecState): U64 {
    Wrap64(TWO_64 + j.env.blockEnv.gasLimit - s.gasUsed)
  }

  /** Runs a transaction without changing the executor. A proof-of-liquidity transaction was already
      applied, so it yields a dummy output. */
  function Attempt(j: Session, s: ExecState, e: Envelope): Result<TxOutput, ExecError> {
    match e
    case Berachain(_) => Ok(TxOutput(CallResult(true, 0, []), s.db, 0, BerachainType))
    case Ethereum(tx) =>
      if tx.gasLimit > AvailableGas(j, s) then Err(TransactionGasLimitMoreThanAvailable(tx.gasLimit, AvailableGas(j, s)))
      else
        match j.w.transact(j.env, s.db, tx)
        case Err(Invalid(low)) => Err(InvalidTx(low))
        case Err(Fatal) => Err(EvmFailed)
        case Ok((result, db)) => Ok(TxOutput(result, db, BlobGas(tx), TypeOf(e)))
  }

  function Commit(j: Session, s: ExecState, o: TxOutput): (ExecState, U64) {
    if o.txType.BerachainType? then (s, 0)
    else
      var gasUsed := Wrap64(s.gasUsed + o.result.gasUsed);
      var blobGas := if IsActive(j.spec, Cancun, j.env.blockEnv.timestamp)
                     then Min(s.blobGasUsed + o.blobGas, TWO_64 - 1) else s.blobGasUsed;
      (ExecState(o.db, s.receipts + [Receipt(o.txType, o.result.success, gasUsed, o.result.logs)], gasUsed, blobGas),
       o.result.gasUsed)
  }

  function Execute(j: Session, s: ExecState, e: Envelope): Result<(ExecState, U64), ExecError> {
    var output :- Attempt(j, s, e);
    Ok(Commit(j, s, output))
  }

  /** Executes a whole transaction list; the first refusal ends it, as on import. */
  function Replay(j: Session, s: ExecState, txs: seq<Envelope>): Result<ExecState, ExecError>
    decreases txs
  {
    if txs == [] then Ok(s)
    else
      var (next, _) :- Execute(j, s, txs[0]);
      Replay(j, next, txs[1..])
  }

  const DEPOSIT_REQUEST_TYPE: Byte := 0

  function DepositRequests(j: Session, receipts: seq<Receipt>): Result<seq<Bytes>, ExecError> {
    if !IsActive(j.spec, Osaka, j.env.blockEnv.timestamp) then Ok([])
    else
      match ParseDeposits(j.w, receipts)
      case Err(_) => Err(DepositDecodeFailed)
      case Ok(deposits) => Ok(if deposits == [] then [] else [[DEPOSIT_REQUEST_TYPE] + deposits])
  }

  /** The deposit request comes first, then those of the system contracts. */
  function CollectRequests(j: Session, s: ExecState): Result<(seq<Bytes>, State), ExecError> {
    if !IsActive(j.spec, Prague, j.env.blockEnv.timestamp) then Ok(([], s.db))
    else
      var deposits :- DepositRequests(j, s.receipts);
      match j.w.requestCalls(j.env, s.db)
      case Err(e) => Err(SystemCallFailed(e))
      case Ok((requests, db)) => Ok((deposits + requests, db))
  }

  predicate DaoTransition(j: Session) {
    TransitionsAtBlock(Lookup(j.spec.hardforks, Dao), j.env.blockEnv.number)
  }

  function Finish(j: Session, s: ExecState): Result<Outcome, ExecError> {
    var (requests, db) :- CollectRequests(j, s);
    match j.w.incrementBalances(j.env, db, j.ctx.withdrawals, DaoTransition(j))
    case Err(_) => Err(IncrementBalanceFailed)
    case Ok(final) => Ok(Outcome(final, s.receipts, requests, s.gasUsed, s.blobGasUsed))
  }

  /** The whole run of an importer over a block body. */
  function Import(j: Session, start: State, body: seq<Envelope>): Result<Outcome, ExecError> {
    var ready :- PreExecution(j, InitialState(start));
    var done :- Replay(j, ready, body);
    Finish(j, done)
  }

  /****** The executor object ******/

  class BerachainBlockExecutor {
    const session: Session
    var db: State
    var receipts: seq<Receipt>
    var gasUsed: U64
    var blobGasUsed: U64

    function View(): ExecState
      reads this
    {
      ExecState(db, receipts, gasUsed, blobGasUsed)
    }

    constructor (session: Session, db: State)
      ensures this.session == session && View() == InitialState(db)
    {
      this.session := session;
      this.db := db;
      receipts := [];
      gasUsed := 0;
      blobGasUsed := 0;
    }

    method ExecutePolTransactionWithReceipt() returns (r: Result<(), ExecError>)
      modifies this
      ensures r.Ok? ==> PolStep(session, old(View())) == Ok(View())
      ensures r.Err? ==> PolStep(session, old(View())) == Err(r.error)
    {
      hide CreatePolTransaction, Lookup;
      var _ :- ValidateProposerPubkey(session.spec, session.env.blockEnv.timestamp, session.ctx.prevProposerPubkey);
      if !IsActive(session.spec, Prague1, session.env.blockEnv.timestamp) {
        return Ok(());
      }
      var created := PolOf(session, session.ctx.prevProposerPubkey.value);
      if created.Err? {
        return Err(PolNonceOverflow);
      }
      var pol := created.value.tx;
      match session.w.systemCall(session.env, db, pol.from, pol.to, pol.input) {
        case Err(e) => return Err(SystemCallFailed(e));
        case Ok((result, after)) =>
          receipts := receipts + [Receipt(BerachainType, result.success, gasUsed, result.logs)];
          db := after;
          return Ok(());
      }
    }

    method ApplyPreExecutionChanges() returns (r: Result<(), ExecError>)
      modifies this
      ensures r.Ok? ==> PreExecution(session, old(View())) == Ok(View())
      ensures r.Err? ==> PreExecution(session, old(View())) == Err(r.error)
    {
      hide PolStep;
      match session.w.blockhashesCall(session.env, db, session.ctx.parentHash) {
        case Err(e) => return Err(SystemCallFailed(e));
        case Ok(after) => db := after;
      }
      match session.w.beaconRootCall(session.env, db, session.ctx.parentBeaconBlockRoot) {
        case Err(e) => return Err(SystemCallFailed(e));
        case Ok(after) => db := after;
      }
      r := ExecutePolTransactionWithReceipt();
    }

    /** On a consistent executor the gas check refuses exactly the transactions that do not fit what is
        left of the block, and what runs stays within it. */
    method ExecuteTransactionWithoutCommit(e: Envelope) returns (r: Result<TxOutput, ExecError>)
      ensures r == Attempt(session, View(), e)
      ensures e.Berachain? ==> r.Ok? && r.value.result.gasUsed == 0 && r.value.db == db
      ensures e.Ethereum? && Consistent(session, View()) ==>
                (r.Err? && r.error.TransactionGasLimitMoreThanAvailable? <==>
                 gasUsed + e.tx.gasLimit > session.env.blockEnv.gasLimit)
      ensures e.Ethereum? && Consistent(session, View()) && GasBounded(session.w) && r.Ok? ==>
                r.value.result.gasUsed <= e.tx.gasLimit
                && gasUsed + r.value.result.gasUsed <= session.env.blockEnv.gasLimit
    {
      if e.Berachain? {
        return Ok(TxOutput(CallResult(true, 0, []), db, 0, BerachainType));
      }
      var available := AvailableGas(session, View());
      if e.tx.gasLimit > available {
        return Err(TransactionGasLimitMoreThanAvailable(e.tx.gasLimit, available));
      }
      match session.w.transact(session.env, db, e.tx) {
        case Err(Invalid(low)) => return Err(InvalidTx(low));
        case Err(Fatal) => return Err(EvmFailed);
        case Ok((result, after)) => return Ok(TxOutput(result, after, BlobGas(e.tx), TypeOf(e)));
      }
    }

    method CommitTransaction(output: TxOutput) returns (gas: U64)
      modifies this
      ensures (View(), gas) == Commit(session, old(View()), output)
    {
      if output.txType.BerachainType? {
        return 0;
      }
      gasUsed := Wrap64(gasUsed + output.result.gasUsed);
      if IsActive(session.spec, Cancun, session.env.blockEnv.timestamp) {
        blobGasUsed := Min(blobGasUsed + output.blobGas, TWO_64 - 1);
      }
      receipts := receipts + [Receipt(output.txType, output.result.success, gasUsed, output.result.logs)];
      db := output.db;
      return output.result.gasUsed;
    }

    /** A refused transaction leaves the executor as it was. */
    method ExecuteTransaction(e: Envelope) returns (r: Result<U64, ExecError>)
      modifies this
      ensures r.Ok? ==> Execute(session, old(View()), e) == Ok((View(), r.value))
      ensures r.Err? ==> Execute(session, old(View()), e) == Err(r.error) && View() == old(View())
    {
      hide Attempt, Commit;
      var output :- ExecuteTransactionWithoutCommit(e);
      var gas := CommitTransaction(output);
      return Ok(gas);
    }

    method FinishBlock() returns (r: Result<Outcome, ExecError>)
      modifies this
      ensures r == Finish(session, old(View()))
    {
      hide ParseDeposits, Lookup;
      var requests: seq<Bytes> := [];
      if IsActive(session.spec, Prague, session.env.blockEnv.timestamp) {
        if IsActive(session.spec, Osaka, session.env.blockEnv.timestamp) {
          var deposits := ParseDepositsFromReceipts(session.w, receipts);
          if deposits.Err? {
            return Err(DepositDecodeFailed);
          }
          if deposits.value != [] {
            requests := requests + [[DEPOSIT_REQUEST_TYPE] + deposits.value];
            assert requests == [[DEPOSIT_REQUEST_TYPE] + deposits.value];
          }
        }
        assert DepositRequests(session, receipts) == Ok(requests);
        match session.w.requestCalls(session.env, db) {
          case Err(e) => return Err(SystemCallFailed(e));
          case Ok((calls, after)) =>
            requests := requests + calls;
            db := after;
        }
      }
      match session.w.incrementBalances(session.env, db, session.ctx.withdrawals, DaoTransition(session)) {
        case Err(_) => return Err(IncrementBalanceFailed);
        case Ok(final) => db := final;
      }
      return Ok(Outcome(db, receipts, requests, gasUsed, blobGasUsed));
    }

    /** The importer's loop over a block body. */
    method ExecuteBody(body: seq<Envelope>) returns (r: Result<(), ExecError>)
      modifies this
      ensures r.Ok? ==> Replay(session, old(View()), body) == Ok(View())
      ensures r.Err? ==> Replay(session, old(View()), body) == Err(r.error)
    {
      hide Execute;
      for i := 0 to |body|
        invariant Replay(session, old(View()), body) == Replay(session, View(), body[i..])
      {
        assert body[i..][0] == body[i] && body[i..][1..] == body[i + 1..];
        var _ :- ExecuteTransaction(body[i]);
      }
      return Ok(());
    }
  }

  /****** Runs ******/

  /** A proof-of-liquidity transaction in a body changes nothing: it was applied before the body. */
  lemma PolIsNoOp(j: Session, s: ExecState, pol: Sealed, rest: seq<Envelope>)
    ensures Execute(j, s, Berachain(pol)) == Ok((s, 0))
    ensures Replay(j, s, [Berachain(pol)] + rest) == Replay(j, s, rest)
  {
    assert ([Berachain(pol)] + rest)[1..] == rest;
  }

  lemma {:induction false} ReplayAppend(j: Session, s: ExecState, a: seq<Envelope>, b: seq<Envelope>)
    ensures Replay(j, s, a + b)
         == match Replay(j, s, a) case Err(e) => Err(e) case Ok(middle) => Replay(j, middle, b)
    decreases a
  {
    if a == [] {
      assert a + b == b;
    } else {
      assert (a + b)[0] == a[0] && (a + b)[1..] == a[1..] + b;
      if Execute(j, s, a[0]).Ok? {
        ReplayAppend(j, Execute(j, s, a[0]).value.0, a[1..], b);
      }
    }
  }

  lemma ReplaySnoc(j: Session, s: ExecState, txs: seq<Envelope>, middle: ExecState, e: Envelope, gas: U64, next: ExecState)
    requires Replay(j, s, txs) == Ok(middle) && Execute(j, middle, e) == Ok((next, gas))
    ensures Replay(j, s, txs + [e]) == Ok(next)
  {
    hide Execute;
    ReplayAppend(j, s, txs, [e]);
    assert [e][1..] == [];
    assert Replay(j, next, []) == Ok(next);
  }

  /** Offers transactions one after another, keeping those that execute: the state at the end and
      the transactions kept. */
  function Produce(j: Session, s: ExecState, offers: seq<Envelope>): (ExecState, seq<Envelope>)
    decreases offers
  {
    if offers == [] then (s, [])
    else
      match Execute(j, s, offers[0])
      case Err(_) => Produce(j, s, offers[1..])
      case Ok((next, _)) =>
        var (final, kept) := Produce(j, next, offers[1..]);
        (final, [offers[0]] + kept)
  }

  /** Refused attempts leave no trace: whatever was offered in between, replaying only what was kept
      reaches the same state. */
  lemma {:induction false} KeptReplays(j: Session, s: ExecState, offers: seq<Envelope>)
    ensures var (final, kept) := Produce(j, s, offers); Replay(j, s, kept) == Ok(final)
    decreases offers
  {
    hide Execute;
    if offers != [] {
      match Execute(j, s, offers[0])
      case Err(_) => KeptReplays(j, s, offers[1..]);
      case Ok((next, _)) =>
        KeptReplays(j, next, offers[1..]);
        var kept := Produce(j, next, offers[1..]).1;
        assert ([offers[0]] + kept)[1..] == kept;
    }
  }

  /****** Gas and receipts ******/

  /** The EVM never uses more gas than the transaction's limit. */
  ghost predicate GasBounded(w: World) {
    forall env: EvmEnv, db: State, tx: EthTx ::
      w.transact(env, db, tx).Ok? ==> w.transact(env, db, tx).value.0.gasUsed <= tx.gasLimit
  }

  /** Cumulative gas never decreases along the receipts and ends at the block's gas used. */
  ghost predicate CumulativeTo(receipts: seq<Receipt>, gasUsed: U64) {
    && (forall i, k :: 0 <= i < k < |receipts| ==> receipts[i].cumulativeGasUsed <= receipts[k].cumulativeGasUsed)
    && gasUsed == if receipts == [] then 0 else receipts[|receipts| - 1].cumulativeGasUsed
  }

  ghost predicate Consistent(j: Session, s: ExecState) {
    s.gasUsed <= j.env.blockEnv.gasLimit && CumulativeTo(s.receipts, s.gasUsed)
  }

  function TypesOf(txs: seq<Envelope>): (types: seq<TxType>)
    ensures |types| == |txs|
  {
    seq(|txs|, i requires 0 <= i < |txs| => TypeOf(txs[i]))
  }

  function ReceiptTypes(receipts: seq<Receipt>): (types: seq<TxType>)
    ensures |types| == |receipts|
  {
    seq(|receipts|, i requires 0 <= i < |receipts| => receipts[i].txType)
  }

  lemma TypesConcat(a: seq<Envelope>, b: seq<Envelope>)
    ensures TypesOf(a + b) == TypesOf(a) + TypesOf(b)
  {
  }

  lemma TypesOfNothing()
    ensures TypesOf([]) == []
  {
  }

  lemma TypesSnoc(txs: seq<Envelope>, e: Envelope)
    ensures TypesOf(txs + [e]) == TypesOf(txs) + [TypeOf(e)]
  {
  }

  lemma ReceiptTypesSnoc(receipts: seq<Receipt>, r: Receipt)
    ensures ReceiptTypes(receipts + [r]) == ReceiptTypes(receipts) + [r.txType]
  {
  }

  lemma CumulativeSnoc(receipts: seq<Receipt>, gasUsed: U64, r: Receipt)
    requires CumulativeTo(receipts, gasUsed) && gasUsed <= r.cumulativeGasUsed
    ensures CumulativeTo(receipts + [r], r.cumulativeGasUsed)
  {
    assert receipts != [] ==> forall i :: 0 <= i < |receipts| ==> receipts[i].cumulativeGasUsed <= gasUsed;
  }

  lemma PreExecutionConsistent(j: Session, db: State)
    requires PreExecution(j, InitialState(db)).Ok?
    ensures var s := PreExecution(j, InitialState(db)).value;
            Consistent(j, s) && s.gasUsed == s.blobGasUsed == 0
            && ReceiptTypes(s.receipts) == (if IsActive(j.spec, Prague1, j.env.blockEnv.timestamp) then [BerachainType] else [])
            && |s.receipts| == (if IsActive(j.spec, Prague1, j.env.blockEnv.timestamp) then 1 else 0)
            && ValidateProposerPubkey(j.spec, j.env.blockEnv.timestamp, j.ctx.prevProposerPubkey).Ok?
            && (IsActive(j.spec, Prague1, j.env.blockEnv.timestamp) ==> PolOf(j, j.ctx.prevProposerPubkey.value).Ok?)
  {
    hide CreatePolTransaction, Lookup;
  }

  /** One execution: gas stays within the block limit, the sum never wraps, and exactly one receipt
      of the transaction's type is appended. */
  lemma ExecuteConsistent(j: Session, s: ExecState, tx: EthTx)
    requires GasBounded(j.w) && Consistent(j, s) && Execute(j, s, Ethereum(tx)).Ok?
    ensures var (next, gas) := Execute(j, s, Ethereum(tx)).value;
            && Consistent(j, next) && next.gasUsed == s.gasUsed + gas && gas <= tx.gasLimit
            && |next.receipts| == |s.receipts| + 1 && next.receipts == s.receipts + [next.receipts[|s.receipts|]]
            && next.receipts[|s.receipts|].txType == EthereumType(tx.txType)
            && next.receipts[|s.receipts|].cumulativeGasUsed == next.gasUsed
            && (IsActive(j.spec, Cancun, j.env.blockEnv.timestamp) ==>
                  next.blobGasUsed == Min(s.blobGasUsed + BlobGas(tx), TWO_64 - 1))
            && j.w.transact(j.env, s.db, tx).Ok?
  {
    hide Lookup, BlobGas;
    var (next, gas) := Execute(j, s, Ethereum(tx)).value;
    assert gas <= tx.gasLimit <= AvailableGas(j, s) == j.env.blockEnv.gasLimit - s.gasUsed;
    CumulativeSnoc(s.receipts, s.gasUsed, next.receipts[|s.receipts|]);
  }

  function Envelopes(txs: seq<EthTx>): (es: seq<Envelope>)
    ensures |es| == |txs| && forall i :: 0 <= i < |txs| ==> es[i] == Ethereum(txs[i])
  {
    if txs == [] then [] else Envelopes(txs[..|txs| - 1]) + [Ethereum(txs[|txs| - 1])]
  }

  function TotalBlobGas(txs: seq<EthTx>): nat {
    if txs == [] then 0 else TotalBlobGas(txs[..|txs| - 1]) + BlobGas(txs[|txs| - 1])
  }

  /** What a replay of Ethereum transactions did to the executor. */
  ghost predicate Replayed(j: Session, s: ExecState, txs: seq<EthTx>, done: ExecState) {
    && Consistent(j, done)
    && ReceiptTypes(done.receipts) == ReceiptTypes(s.receipts) + TypesOf(Envelopes(txs))
    && (IsActive(j.spec, Cancun, j.env.blockEnv.timestamp) ==>
          done.blobGasUsed == Min(s.blobGasUsed + TotalBlobGas(txs), TWO_64 - 1))
  }

  /** Over a whole body: receipts are one per transaction in order and of its type, cumulative gas is
      nondecreasing and ends at the gas used, which is within the limit, and the blob gas is the
      saturated sum. */
  lemma {:induction false} ReplayConsistent(j: Session, s: ExecState, txs: seq<EthTx>)
    requires GasBounded(j.w) && Consistent(j, s) && Replay(j, s, Envelopes(txs)).Ok?
    ensures Replayed(j, s, txs, Replay(j, s, Envelopes(txs)).value)
    decreases txs
  {
    hide Execute, GasBounded, Consistent, BlobGas, IsActive, ReceiptTypes, TypesOf;
    if txs == [] {
      TypesOfNothing();
      assert ReceiptTypes(s.receipts) + [] == ReceiptTypes(s.receipts);
    } else {
      var front, last := txs[..|txs| - 1], txs[|txs| - 1];
      ReplayAppend(j, s, Envelopes(front), [Ethereum(last)]);
      ReplayConsistent(j, s, front);
      var middle := Replay(j, s, Envelopes(front)).value;
      assert [Ethereum(last)][1..] == [];
      ExecuteConsistent(j, middle, last);
      var done := Execute(j, middle, Ethereum(last)).value.0;
      assert Replay(j, done, []) == Ok(done);
      ReceiptTypesSnoc(middle.receipts, done.receipts[|middle.receipts|]);
      TypesSnoc(Envelopes(front), Ethereum(last));
      assert ReceiptTypes(done.receipts)
          == ReceiptTypes(s.receipts) + (TypesOf(Envelopes(front)) + [EthereumType(last.txType)]);
    }
  }

  /** The DAO drain is dead on every block after genesis. */
  lemma DaoTransitionExact(j: Session)
    requires Accepted(j.spec)
    ensures DaoTransition(j) <==> j.env.blockEnv.number == 0
  {
    AcceptedActivation(j.spec, 0);
    hide Lookup, Accepted;
  }

  /** The deposit request of an Osaka block, when there is one, is the type byte followed by bytes
      that split back into the deposits logged by the block's receipts, in order. */
  lemma DepositRequestCarriesDeposits(j: Session, s: ExecState)
    requires IsActive(j.spec, Osaka, j.env.blockEnv.timestamp) && IsActive(j.spec, Prague, j.env.blockEnv.timestamp)
    requires Finish(j, s).Ok? && DepositsOf(j.w, s.receipts).Ok?
    requires forall d :: d in DepositsOf(j.w, s.receipts).value ==> StandardSizes(d)
    ensures var deposits, requests := DepositsOf(j.w, s.receipts).value, Finish(j, s).value.requests;
            deposits != [] ==>
              && requests != [] && requests[0] != [] && requests[0][0] == 0
              && |requests[0][1..]| % DEPOSIT_BYTES_SIZE == 0 && SplitDeposits(requests[0][1..]) == deposits
  {
    hide Lookup, DepositsOf, SplitDeposits, Flatten;
    var deposits := DepositsOf(j.w, s.receipts).value;
    RequestSplitsBack(deposits);
    if deposits != [] {
      assert Finish(j, s).value.requests[0] == [DEPOSIT_REQUEST_TYPE] + Flatten(deposits);
      assert ([DEPOSIT_REQUEST_TYPE] + Flatten(deposits))[1..] == Flatten(deposits);
    }
  }
}
