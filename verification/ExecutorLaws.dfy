/**
 What executing a block does, stated over the foreign calls alone: which call is made on which state,
 and where its result ends up (src/node/evm/executor.rs).
 */
module ExecutorLaws {
  import opened Base
  import opened ChainSpec
  import opened Deposits
  import opened Executor
  import opened PolTx
  import opened World

  function LimitOf(j: Session): U64 {
    j.env.blockEnv.gasLimit
  }

  predicate ActiveIn(j: Session, fork: Hardfork) {
    IsActive(j.spec, fork, j.env.blockEnv.timestamp)
  }

  /****** One transaction ******/

  /** Blob gas counts from Cancun on, 131072 for each blob, and stops at the end of u64. */
  function BlobGasAfter(j: Session, before: U64, blobs: nat): U64 {
    if ActiveIn(j, Cancun) then Min(before + 131_072 * blobs, TWO_64 - 1) else before
  }

  function BlobsOf(tx: EthTx): nat {
    if tx.txType.Eip4844? then |tx.blobHashes| else 0
  }

  /** A transaction that does not fit the gas left is refused with what is left. One that fits is run
      once, on the executor's state; a refusal of the EVM is reported, and a result takes effect: its
      state is kept, and one receipt says whether it succeeded, the gas so far, and its logs. */
  lemma ExecuteExact(j: Session, s: ExecState, tx: EthTx)
    requires GasBounded(j.w) && s.gasUsed <= LimitOf(j)
    ensures s.gasUsed + tx.gasLimit > LimitOf(j) ==>
              Execute(j, s, Ethereum(tx)) == Err(TransactionGasLimitMoreThanAvailable(tx.gasLimit, LimitOf(j) - s.gasUsed))
    ensures s.gasUsed + tx.gasLimit <= LimitOf(j) ==>
              match j.w.transact(j.env, s.db, tx)
              case Err(Invalid(low)) => Execute(j, s, Ethereum(tx)) == Err(InvalidTx(low))
              case Err(Fatal) => Execute(j, s, Ethereum(tx)) == Err(EvmFailed)
              case Ok((call, db)) =>
                s.gasUsed + call.gasUsed < TWO_64
                && var gas := s.gasUsed + call.gasUsed;
                   Execute(j, s, Ethereum(tx))
                   == Ok((ExecState(db, s.receipts + [Receipt(EthereumType(tx.txType), call.success, gas, call.logs)], gas,
                                    BlobGasAfter(j, s.blobGasUsed, BlobsOf(tx))),
                          call.gasUsed))
  {
    hide IsActive;
  }

  /****** A body ******/

  /** One call of the EVM for each transaction, on the state that the one before left. */
  function EvmRun(w: World, env: EvmEnv, db: State, txs: seq<EthTx>): (r: Result<(State, seq<CallResult>), EvmError>)
    ensures r.Ok? ==> |r.value.1| == |txs|
  {
    if txs == [] then Ok((db, []))
    else
      var (before, calls) :- EvmRun(w, env, db, txs[..|txs| - 1]);
      match w.transact(env, before, txs[|txs| - 1])
      case Err(e) => Err(e)
      case Ok((call, after)) => Ok((after, calls + [call]))
  }

  function GasSum(calls: seq<CallResult>): nat {
    if calls == [] then 0 else GasSum(calls[..|calls| - 1]) + calls[|calls| - 1].gasUsed
  }

  function BlobSum(txs: seq<EthTx>): nat {
    if txs == [] then 0 else BlobSum(txs[..|txs| - 1]) + BlobsOf(txs[|txs| - 1])
  }

  /** Each transaction's gas limit fits what those before it left of the block. */
  predicate GasFits(limit: U64, before: nat, txs: seq<EthTx>, calls: seq<CallResult>)
    requires |calls| == |txs|
    decreases |txs|
  {
    if txs == [] then true
    else
      var n := |txs| - 1;
      GasFits(limit, before, txs[..n], calls[..n]) && before + GasSum(calls[..n]) + txs[n].gasLimit <= limit
  }

  /** One receipt for each call, with the gas so far. */
  function ReceiptsOf(before: nat, txs: seq<EthTx>, calls: seq<CallResult>): (receipts: seq<Receipt>)
    requires |calls| == |txs|
    ensures |receipts| == |txs|
    decreases |txs|
  {
    if txs == [] then []
    else
      var n := |txs| - 1;
      ReceiptsOf(before, txs[..n], calls[..n])
      + [Receipt(EthereumType(txs[n].txType), calls[n].success, (before + GasSum(calls)) % TWO_64, calls[n].logs)]
  }

  /** The executor's state after these calls. */
  function After(j: Session, s: ExecState, txs: seq<EthTx>, db: State, calls: seq<CallResult>): ExecState
    requires |calls| == |txs|
  {
    ExecState(db, s.receipts + ReceiptsOf(s.gasUsed, txs, calls), (s.gasUsed + GasSum(calls)) % TWO_64,
              BlobGasAfter(j, s.blobGasUsed, BlobSum(txs)))
  }

  lemma AfterNothing(j: Session, s: ExecState)
    ensures After(j, s, [], s.db, []) == s
  {
    hide IsActive;
    assert s.receipts + [] == s.receipts;
  }

  lemma ReceiptsOneMore(before: nat, txs: seq<EthTx>, calls: seq<CallResult>, tx: EthTx, call: CallResult)
    requires |calls| == |txs| && before + GasSum(calls) + call.gasUsed < TWO_64
    ensures GasSum(calls + [call]) == GasSum(calls) + call.gasUsed
    ensures ReceiptsOf(before, txs + [tx], calls + [call])
         == ReceiptsOf(before, txs, calls)
            + [Receipt(EthereumType(tx.txType), call.success, before + GasSum(calls) + call.gasUsed, call.logs)]
  {
    assert (txs + [tx])[..|txs|] == txs && (calls + [call])[..|calls|] == calls;
  }

  lemma BlobsOneMore(j: Session, before: U64, txs: seq<EthTx>, tx: EthTx)
    ensures BlobGasAfter(j, before, BlobSum(txs + [tx])) == BlobGasAfter(j, BlobGasAfter(j, before, BlobSum(txs)), BlobsOf(tx))
  {
    hide IsActive, BlobsOf;
    assert (txs + [tx])[..|txs|] == txs;
  }

  lemma AfterOneMore(j: Session, s: ExecState, txs: seq<EthTx>, db: State, calls: seq<CallResult>, tx: EthTx, call: CallResult,
                     after: State)
    requires |calls| == |txs| && s.gasUsed + GasSum(calls) + call.gasUsed < TWO_64
    ensures var before := After(j, s, txs, db, calls);
            var gas := before.gasUsed + call.gasUsed;
            gas < TWO_64
            && After(j, s, txs + [tx], after, calls + [call])
               == ExecState(after, before.receipts + [Receipt(EthereumType(tx.txType), call.success, gas, call.logs)], gas,
                            BlobGasAfter(j, before.blobGasUsed, BlobsOf(tx)))
  {
    hide IsActive, BlobsOf, BlobSum, GasSum, ReceiptsOf, BlobGasAfter;
    ReceiptsOneMore(s.gasUsed, txs, calls, tx, call);
    BlobsOneMore(j, s.blobGasUsed, txs, tx);
    var receipts := ReceiptsOf(s.gasUsed, txs, calls);
    var receipt := Receipt(EthereumType(tx.txType), call.success, s.gasUsed + GasSum(calls) + call.gasUsed, call.logs);
    assert s.receipts + (receipts + [receipt]) == (s.receipts + receipts) + [receipt];
  }

  /** Whether a body executes, on the calls alone. */
  predicate BodyRuns(j: Session, s: ExecState, txs: seq<EthTx>) {
    var run := EvmRun(j.w, j.env, s.db, txs);
    run.Ok? && GasFits(LimitOf(j), s.gasUsed, txs, run.value.1)
  }

  /** A body executes if and only if every call succeeds on the state that those before it left and
      every gas limit fits. Its final state is that of the last call, and receipt k reports the
      success, the logs and the gas so far of call k. */
  lemma {:induction false} ReplayExact(j: Session, s: ExecState, txs: seq<EthTx>)
    requires GasBounded(j.w) && s.gasUsed <= LimitOf(j)
    ensures Replay(j, s, Envelopes(txs)).Ok? <==> BodyRuns(j, s, txs)
    ensures BodyRuns(j, s, txs) ==>
              var (db, calls) := EvmRun(j.w, j.env, s.db, txs).value;
              s.gasUsed + GasSum(calls) <= LimitOf(j) && Replay(j, s, Envelopes(txs)) == Ok(After(j, s, txs, db, calls))
    decreases |txs|
  {
    hide Execute, GasBounded, After, IsActive, ReceiptsOf;
    if txs == [] {
      AfterNothing(j, s);
    } else {
      var front, last := txs[..|txs| - 1], txs[|txs| - 1];
      ReplayAppend(j, s, Envelopes(front), [Ethereum(last)]);
      ReplayExact(j, s, front);
      var run := EvmRun(j.w, j.env, s.db, txs);
      assert txs == front + [last];
      if run.Ok? {
        var calls := run.value.1;
        assert calls[..|front|] == EvmRun(j.w, j.env, s.db, front).value.1;
      }
      if BodyRuns(j, s, front) {
        var (db, calls) := EvmRun(j.w, j.env, s.db, front).value;
        LastCall(j, s, front, db, calls, last);
      }
    }
  }

  lemma LastCall(j: Session, s: ExecState, front: seq<EthTx>, db: State, calls: seq<CallResult>, last: EthTx)
    requires GasBounded(j.w) && |calls| == |front| && s.gasUsed + GasSum(calls) <= LimitOf(j)
    ensures var middle := After(j, s, front, db, calls);
            var call := j.w.transact(j.env, db, last);
            && (Replay(j, middle, [Ethereum(last)]).Ok? <==>
                call.Ok? && s.gasUsed + GasSum(calls) + last.gasLimit <= LimitOf(j))
            && (Replay(j, middle, [Ethereum(last)]).Ok? ==>
                  s.gasUsed + GasSum(calls + [call.value.0]) <= LimitOf(j)
                  && Replay(j, middle, [Ethereum(last)]) == Ok(After(j, s, front + [last], call.value.1, calls + [call.value.0])))
  {
    var middle := After(j, s, front, db, calls);
    var call := j.w.transact(j.env, db, last);
    assert middle.db == db && middle.gasUsed == s.gasUsed + GasSum(calls);
    ExecuteExact(j, middle, last);
    assert [Ethereum(last)][1..] == [];
    if call.Ok? && s.gasUsed + GasSum(calls) + last.gasLimit <= LimitOf(j) {
      assert call.value.0.gasUsed <= last.gasLimit;
      AfterOneMore(j, s, front, db, calls, last, call.value.0, call.value.1);
      assert (calls + [call.value.0])[..|calls|] == calls;
      var next := Execute(j, middle, Ethereum(last)).value.0;
      assert Replay(j, next, []) == Ok(next);
    }
  }

  /****** Before the body ******/

  /** The reward call of a block: from the system address to the distributor, with the key as its
      argument. */
  function RewardCall(j: Session, db: State, key: BlsPublicKey): Result<(CallResult, State), EvmError> {
    j.w.systemCall(j.env, db, SYSTEM_ADDRESS, j.spec.polContract, DistributeCall(j.w.keccak, key))
  }

  /** Before Prague1 the step does nothing and refuses a key. From Prague1 on it demands a key and a
      block number, makes the reward call on the executor's state, keeps the state it leaves, and
      reports its success and logs in one receipt that adds no gas. */
  lemma PolStepExact(j: Session, s: ExecState)
    ensures !ActiveIn(j, Prague1) && j.ctx.prevProposerPubkey.None? ==> PolStep(j, s) == Ok(s)
    ensures !ActiveIn(j, Prague1) && j.ctx.prevProposerPubkey.Some? ==> PolStep(j, s) == Err(ProposerPubkeyNotAllowed)
    ensures ActiveIn(j, Prague1) && j.ctx.prevProposerPubkey.None? ==> PolStep(j, s) == Err(MissingProposerPubkey)
    ensures ActiveIn(j, Prague1) && j.ctx.prevProposerPubkey.Some? && j.env.blockEnv.number == 0 ==>
              PolStep(j, s) == Err(PolNonceOverflow)
    ensures ActiveIn(j, Prague1) && j.ctx.prevProposerPubkey.Some? && j.env.blockEnv.number > 0 ==>
              match RewardCall(j, s.db, j.ctx.prevProposerPubkey.value)
              case Err(e) => PolStep(j, s) == Err(SystemCallFailed(e))
              case Ok((call, db)) =>
                PolStep(j, s)
                == Ok(ExecState(db, s.receipts + [Receipt(BerachainType, call.success, s.gasUsed, call.logs)], s.gasUsed, s.blobGasUsed))
  {
    hide IsActive, TxHash, DistributeCall, PolNonce;
    if j.ctx.prevProposerPubkey.Some? {
      CreationDefined(j.w.keccak, j.spec, j.ctx.prevProposerPubkey.value, j.env.blockEnv.number, j.env.blockEnv.baseFee);
    }
  }

  /** The states before the body: after the block hash call, the beacon root call and, from Prague1 on,
      the reward call, each on the state of the one before. */
  function Opening(j: Session, start: State): Result<(State, Option<CallResult>), EvmError> {
    match j.w.blockhashesCall(j.env, start, j.ctx.parentHash)
    case Err(e) => Err(e)
    case Ok(hashed) =>
      match j.w.beaconRootCall(j.env, hashed, j.ctx.parentBeaconBlockRoot)
      case Err(e) => Err(e)
      case Ok(rooted) =>
        if !ActiveIn(j, Prague1) || j.ctx.prevProposerPubkey.None? then Ok((rooted, None))
        else
          match RewardCall(j, rooted, j.ctx.prevProposerPubkey.value)
          case Err(e) => Err(e)
          case Ok((call, rewarded)) => Ok((rewarded, Some(call)))
  }

  /** The key is there exactly from Prague1 on, and then the block is not block 0. */
  predicate KeyFits(j: Session) {
    && (j.ctx.prevProposerPubkey.Some? <==> ActiveIn(j, Prague1))
    && (ActiveIn(j, Prague1) ==> j.env.blockEnv.number > 0)
  }

  function RewardReceipt(call: Option<CallResult>): seq<Receipt> {
    if call.Some? then [Receipt(BerachainType, call.value.success, 0, call.value.logs)] else []
  }

  /** Pre-execution succeeds if and only if the key fits and the calls succeed in their order, and then
      leaves their final state and the receipt of the reward call; the first failure is reported. */
  lemma PreExecutionExact(j: Session, start: State)
    ensures PreExecution(j, InitialState(start)).Ok? <==> KeyFits(j) && Opening(j, start).Ok?
    ensures KeyFits(j) && Opening(j, start).Ok? ==>
              var (db, call) := Opening(j, start).value;
              PreExecution(j, InitialState(start)) == Ok(ExecState(db, RewardReceipt(call), 0, 0))
    ensures j.w.blockhashesCall(j.env, start, j.ctx.parentHash).Err? ==>
              PreExecution(j, InitialState(start)) == Err(SystemCallFailed(j.w.blockhashesCall(j.env, start, j.ctx.parentHash).error))
    ensures j.w.blockhashesCall(j.env, start, j.ctx.parentHash).Ok? ==>
              var hashed := j.w.blockhashesCall(j.env, start, j.ctx.parentHash).value;
              match j.w.beaconRootCall(j.env, hashed, j.ctx.parentBeaconBlockRoot)
              case Err(e) => PreExecution(j, InitialState(start)) == Err(SystemCallFailed(e))
              case Ok(rooted) => PreExecution(j, InitialState(start)) == PolStep(j, ExecState(rooted, [], 0, 0))
  {
    hide IsActive, PolStep, DistributeCall, RewardCall;
    var hashed := j.w.blockhashesCall(j.env, start, j.ctx.parentHash);
    if hashed.Ok? {
      var rooted := j.w.beaconRootCall(j.env, hashed.value, j.ctx.parentBeaconBlockRoot);
      if rooted.Ok? {
        PolStepExact(j, ExecState(rooted.value, [], 0, 0));
        assert forall r: Receipt :: [] + [r] == [r];
      }
    }
  }

  /****** After the body ******/

  /** From Osaka on the deposits that the receipts log make one request, of type 0, in front. */
  function DepositsInFront(j: Session, receipts: seq<Receipt>): Result<seq<Bytes>, DepositError> {
    if !ActiveIn(j, Osaka) then Ok([])
    else
      match DepositsOf(j.w, receipts)
      case Err(e) => Err(e)
      case Ok(deposits) => Ok(if deposits == [] then [] else [[0] + Flatten(deposits)])
  }

  /** The closing calls: the requests of the system contracts from Prague on, then the balances. */
  function Closing(j: Session, db: State): Result<(seq<Bytes>, State), EvmError> {
    var (requests, asked) :- if ActiveIn(j, Prague) then j.w.requestCalls(j.env, db) else Ok(([], db));
    match j.w.incrementBalances(j.env, asked, j.ctx.withdrawals, j.env.blockEnv.number == 0)
    case Err(e) => Err(e)
    case Ok(final) => Ok((requests, final))
  }

  lemma FlattenEmpty(deposits: seq<Deposit>)
    ensures Flatten(deposits) == [] <==> deposits == []
  {
  }

  lemma DepositRequestsExact(j: Session, receipts: seq<Receipt>)
    ensures DepositRequests(j, receipts)
         == match DepositsInFront(j, receipts) case Err(_) => Err(DepositDecodeFailed) case Ok(front) => Ok(front)
  {
    hide IsActive, DepositsOf, Flatten;
    if DepositsOf(j.w, receipts).Ok? {
      FlattenEmpty(DepositsOf(j.w, receipts).value);
    }
  }

  /** Finishing succeeds if and only if the deposits decode and the closing calls succeed. It yields
      their final state, the deposit request before the others, and receipts and gas as they were;
      balances are incremented by the block's withdrawals, and the DAO is drained at block 0 only. The
      first failure is reported. */
  lemma FinishExact(j: Session, s: ExecState)
    requires Accepted(j.spec)
    ensures Finish(j, s).Ok? <==> DepositsInFront(j, s.receipts).Ok? && Closing(j, s.db).Ok?
    ensures DepositsInFront(j, s.receipts).Ok? && Closing(j, s.db).Ok? ==>
              var (requests, final) := Closing(j, s.db).value;
              Finish(j, s)
              == Ok(Outcome(final, s.receipts, DepositsInFront(j, s.receipts).value + requests, s.gasUsed, s.blobGasUsed))
    ensures DepositsInFront(j, s.receipts).Err? ==> Finish(j, s) == Err(DepositDecodeFailed)
    ensures DepositsInFront(j, s.receipts).Ok? && ActiveIn(j, Prague) && j.w.requestCalls(j.env, s.db).Err? ==>
              Finish(j, s) == Err(SystemCallFailed(j.w.requestCalls(j.env, s.db).error))
    ensures DepositsInFront(j, s.receipts).Ok? && Closing(j, s.db).Err? ==>
              (ActiveIn(j, Prague) && j.w.requestCalls(j.env, s.db).Err?) || Finish(j, s) == Err(IncrementBalanceFailed)
  {
    hide IsActive, Accepted, DaoTransition, DepositsInFront, DepositRequests;
    DaoTransitionExact(j);
    DepositRequestsExact(j, s.receipts);
    if !ActiveIn(j, Prague) {
      NoDepositsBeforeOsaka(j, s.receipts);
    }
    assert forall requests: seq<Bytes> :: [] + requests == requests;
  }

  lemma NoDepositsBeforeOsaka(j: Session, receipts: seq<Receipt>)
    requires Accepted(j.spec) && !ActiveIn(j, Prague)
    ensures DepositsInFront(j, receipts) == Ok([])
  {
    hide IsActive, Accepted, DepositsOf;
    AcceptedActivation(j.spec, j.env.blockEnv.timestamp);
  }

  /****** A whole block ******/

  /** What a block of these transactions does to a state, call by call; nothing if some call refuses, a
      gas limit does not fit, the key does not fit, or a deposit log does not decode. */
  function Transition(j: Session, start: State, txs: seq<EthTx>): Option<Outcome> {
    if !KeyFits(j) || Opening(j, start).Err? then None
    else
      var (ready, reward) := Opening(j, start).value;
      var run := EvmRun(j.w, j.env, ready, txs);
      if run.Err? || !GasFits(LimitOf(j), 0, txs, run.value.1) then None
      else
        var (ran, calls) := run.value;
        var receipts := RewardReceipt(reward) + ReceiptsOf(0, txs, calls);
        var deposits, closing := DepositsInFront(j, receipts), Closing(j, ran);
        if deposits.Err? || closing.Err? then None
        else
          Some(Outcome(closing.value.1, receipts, deposits.value + closing.value.0, GasSum(calls) % TWO_64,
                       BlobGasAfter(j, 0, BlobSum(txs))))
  }

  /** Importing a block is exactly this transition: it succeeds on the same blocks, and ends in the
      same state with the same receipts, requests, gas and blob gas - whether the body names the
      proof-of-liquidity transaction first or not at all. */
  lemma ImportIsTransition(j: Session, start: State, front: seq<Envelope>, txs: seq<EthTx>)
    requires Accepted(j.spec) && GasBounded(j.w)
    requires |front| <= 1 && (front != [] ==> front[0].Berachain?)
    ensures Import(j, start, front + Envelopes(txs)).Ok? <==> Transition(j, start, txs).Some?
    ensures Transition(j, start, txs).Some? ==>
              Import(j, start, front + Envelopes(txs)) == Ok(Transition(j, start, txs).value)
  {
    hide IsActive, Accepted, GasBounded, KeyFits, Opening, DepositsInFront, Closing, Finish, PreExecution, Replay, EvmRun, GasFits,
      ReceiptsOf, GasSum, BlobSum;
    PreExecutionExact(j, start);
    if KeyFits(j) && Opening(j, start).Ok? {
      var (db, call) := Opening(j, start).value;
      var ready := ExecState(db, RewardReceipt(call), 0, 0);
      SkipFront(j, ready, front, Envelopes(txs));
      ReplayExact(j, ready, txs);
      if BodyRuns(j, ready, txs) {
        var (ran, calls) := EvmRun(j.w, j.env, db, txs).value;
        FinishExact(j, After(j, ready, txs, ran, calls));
      }
    }
  }

  lemma SkipFront(j: Session, s: ExecState, front: seq<Envelope>, rest: seq<Envelope>)
    requires |front| <= 1 && (front != [] ==> front[0].Berachain?)
    ensures Replay(j, s, front + rest) == Replay(j, s, rest)
  {
    hide Replay;
    if front == [] {
      assert front + rest == rest;
    } else {
      assert front == [front[0]];
      PolIsNoOp(j, s, front[0].pol, rest);
    }
  }
}
