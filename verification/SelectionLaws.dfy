/** What the selection loop keeps, for every sequence of offers (src/engine/builder.rs). */
module SelectionLaws {
  import opened Base
  import opened BaseFee
  import opened BlockBuilder
  import opened ChainSpec
  import opened Executor
  import opened ExecutorLaws
  import opened PayloadBuilder
  import opened World

  /****** What a selection should add up to ******/

  function TotalBlobs(txs: seq<EthTx>): nat {
    if txs == [] then 0 else TotalBlobs(txs[..|txs| - 1]) + BlobCount(txs[|txs| - 1])
  }

  function TotalBytes(txs: seq<EthTx>): nat {
    if txs == [] then 0 else TotalBytes(txs[..|txs| - 1]) + |txs[|txs| - 1].encoded|
  }

  function BlobTransactions(txs: seq<EthTx>): nat {
    if txs == [] then 0 else BlobTransactions(txs[..|txs| - 1]) + if txs[|txs| - 1].txType.Eip4844? then 1 else 0
  }

  /** The blob store holds an EIP-4844 sidecar for this transaction, if it needs one. */
  predicate HasSidecar(p: Plan, tx: EthTx) {
    tx.txType.Eip4844? ==> p.getBlob(tx.hash).Found? && p.getBlob(tx.hash).eip4844
  }

  /** The stored sidecars of the blob transactions, one for each, in order. */
  function SidecarsOf(p: Plan, txs: seq<EthTx>): (sidecars: seq<Sidecar>)
    requires forall i :: 0 <= i < |txs| ==> HasSidecar(p, txs[i])
    ensures |sidecars| == BlobTransactions(txs)
  {
    if txs == [] then []
    else
      var last := txs[|txs| - 1];
      assert HasSidecar(p, last);
      SidecarsOf(p, txs[..|txs| - 1]) + if last.txType.Eip4844? then [p.getBlob(last.hash).sidecar] else []
  }

  /** The gas of one transaction, read off the cumulative receipts. */
  function GasAt(receipts: seq<Receipt>, k: nat): int
    requires k < |receipts|
  {
    receipts[k].cumulativeGasUsed - if k == 0 then 0 else receipts[k - 1].cumulativeGasUsed
  }

  /** What the producer earns: each transaction's tip times the gas that its receipt reports. */
  function FeesFromReceipts(baseFee: U64, txs: seq<EthTx>, receipts: seq<Receipt>): int
    requires |txs| <= |receipts|
    decreases txs
  {
    if txs == [] then 0
    else
      var last := |receipts| - 1;
      FeesFromReceipts(baseFee, txs[..|txs| - 1], receipts[..last])
      + EffectiveTip(txs[|txs| - 1], baseFee).GetOr(0) * GasAt(receipts, last)
  }

  /** Some transactions of a list, in the list's order. */
  predicate Subsequence(part: seq<EthTx>, whole: seq<EthTx>) {
    if part == [] then true
    else if whole == [] then false
    else if part[|part| - 1] == whole[|whole| - 1] then Subsequence(part[..|part| - 1], whole[..|whole| - 1])
    else Subsequence(part, whole[..|whole| - 1])
  }

  /****** The invariant ******/

  ghost predicate GasKept(p: Plan, s: Selection) {
    s.gas == s.exec.gasUsed && Consistent(p.session, s.exec)
  }

  predicate Replays(p: Plan, start: ExecState, s: Selection) {
    Replay(p.session, start, Envelopes(s.included)) == Ok(s.exec)
  }

  predicate SizeKept(p: Plan, s: Selection) {
    && s.bytes == TotalBytes(s.included)
    && (OsakaPlan(p) && s.included != [] ==> s.bytes + p.withdrawalsLength + RESERVE <= MAX_RLP_BLOCK_SIZE)
  }

  /** One stored sidecar per blob transaction in order, and blobs within the limit. */
  predicate BlobsKept(p: Plan, s: Selection) {
    && s.blobs == TotalBlobs(s.included) <= p.maxBlobs
    && (forall i :: 0 <= i < |s.included| ==> HasSidecar(p, s.included[i]))
    && s.sidecars == SidecarsOf(p, s.included)
  }

  predicate CancunPlan(p: Plan) {
    IsActive(p.session.spec, Cancun, p.session.env.blockEnv.timestamp)
  }

  /** The builder's blobs account for the executor's blob gas. */
  predicate BlobGasKept(p: Plan, s: Selection) {
    CancunPlan(p) ==> s.exec.blobGasUsed == Min(s.blobs * DATA_GAS_PER_BLOB, TWO_64 - 1)
  }

  predicate FeesKept(p: Plan, s: Selection) {
    && |s.included| <= |s.exec.receipts|
    && s.fees == FeesFromReceipts(BaseFeeOf(p), s.included, s.exec.receipts)
    && s.fees <= TWO_128 * s.gas
  }

  ghost predicate Kept(p: Plan, start: ExecState, s: Selection) {
    GasKept(p, s) && Replays(p, start, s) && SizeKept(p, s) && BlobsKept(p, s) && BlobGasKept(p, s) && FeesKept(p, s)
  }

  /** What inclusion went through. */
  predicate Included(p: Plan, s: Selection, tx: EthTx, next: Selection) {
    && Screen(p, s, tx).None?
    && SidecarsFor(p, tx).Ok? && SidecarsFor(p, tx).value.Ok?
    && Execute(p.session, s.exec, Ethereum(tx)).Ok?
    && var (exec, gas) := Execute(p.session, s.exec, Ethereum(tx)).value;
       Include(p, s, tx, exec, gas, SidecarsFor(p, tx).value.value) == Ok(next)
  }

  /** A step includes the offer or changes nothing but the instructions. */
  lemma StepCases(p: Plan, s: Selection, tx: EthTx)
    requires Step(p, s, tx).Ok?
    ensures var next := Step(p, s, tx).value;
            Included(p, s, tx, next) || next == s.(instructions := next.instructions)
  {
    hide Execute, Screen, SidecarsFor, Include;
  }

  lemma IncludedKeepsGas(p: Plan, s: Selection, tx: EthTx, next: Selection)
    requires GasBounded(p.session.w) && GasKept(p, s) && Included(p, s, tx, next)
    ensures GasKept(p, next)
  {
    hide Execute, Screen, SidecarsFor, GasBounded, Consistent, EffectiveTip;
    ExecuteConsistent(p.session, s.exec, tx);
  }

  lemma IncludedReplays(p: Plan, start: ExecState, s: Selection, tx: EthTx, next: Selection)
    requires Replays(p, start, s) && Included(p, s, tx, next)
    ensures Replays(p, start, next)
  {
    hide Execute, Screen, SidecarsFor, EffectiveTip, Replay, Envelopes;
    var (exec, gas) := Execute(p.session, s.exec, Ethereum(tx)).value;
    EnvelopesSnoc(s.included, tx);
    ReplaySnoc(p.session, start, Envelopes(s.included), s.exec, Ethereum(tx), gas, exec);
  }

  lemma IncludedKeepsSize(p: Plan, s: Selection, tx: EthTx, next: Selection)
    requires SizeKept(p, s) && Included(p, s, tx, next)
    ensures SizeKept(p, next)
  {
    hide Execute, SidecarsFor, EffectiveTip, IsActive;
    assert (s.included + [tx])[..|s.included|] == s.included;
  }

  lemma IncludedKeepsBlobs(p: Plan, s: Selection, tx: EthTx, next: Selection)
    requires BlobsKept(p, s) && Included(p, s, tx, next)
    ensures BlobsKept(p, next)
  {
    hide Execute, EffectiveTip, IsActive;
    assert next.included[..|s.included|] == s.included;
    assert HasSidecar(p, tx);
    assert forall i :: 0 <= i < |s.included| ==> next.included[i] == s.included[i];
    assert s.sidecars + [] == s.sidecars;
  }

  lemma IncludedKeepsBlobGas(p: Plan, s: Selection, tx: EthTx, next: Selection)
    requires GasBounded(p.session.w) && GasKept(p, s) && BlobGasKept(p, s) && Included(p, s, tx, next)
    ensures BlobGasKept(p, next)
  {
    hide Execute, Screen, SidecarsFor, GasBounded, EffectiveTip, IsActive, Consistent, BlobCount;
    ExecuteConsistent(p.session, s.exec, tx);
  }

  lemma IncludedKeepsFees(p: Plan, s: Selection, tx: EthTx, next: Selection)
    requires GasBounded(p.session.w) && GasKept(p, s) && FeesKept(p, s) && Included(p, s, tx, next)
    ensures FeesKept(p, next)
  {
    hide Execute, Screen, SidecarsFor, GasBounded, EffectiveTip;
    ExecuteConsistent(p.session, s.exec, tx);
    var (exec, gas) := Execute(p.session, s.exec, Ethereum(tx)).value;
    var n := |s.exec.receipts|;
    assert (s.included + [tx])[..|s.included|] == s.included;
    assert exec.receipts[..n] == s.exec.receipts;
    assert GasAt(exec.receipts, n) == gas;
    TipTimesGas(EffectiveTip(tx, BaseFeeOf(p)).value, gas);
  }

  lemma StepKeeps(p: Plan, start: ExecState, s: Selection, tx: EthTx)
    requires GasBounded(p.session.w) && Kept(p, start, s) && Step(p, s, tx).Ok?
    ensures Kept(p, start, Step(p, s, tx).value)
  {
    hide Step, Included, GasBounded, Consistent, Replays, TotalBytes, TotalBlobs, BlobsKept, BlobGasKept, FeesFromReceipts;
    StepCases(p, s, tx);
    var next := Step(p, s, tx).value;
    if Included(p, s, tx, next) {
      IncludedKeepsGas(p, s, tx, next);
      IncludedReplays(p, start, s, tx, next);
      IncludedKeepsSize(p, s, tx, next);
      IncludedKeepsBlobs(p, s, tx, next);
      IncludedKeepsBlobGas(p, s, tx, next);
      IncludedKeepsFees(p, s, tx, next);
    } else {
      SameButInstructions(p, start, s, next);
    }
  }

  lemma SameButInstructions(p: Plan, start: ExecState, s: Selection, next: Selection)
    requires Replays(p, start, s) && BlobsKept(p, s) && BlobGasKept(p, s) && next == s.(instructions := next.instructions)
    ensures Replays(p, start, next) && BlobsKept(p, next) && BlobGasKept(p, next)
  {
  }

  lemma BeginKept(p: Plan, start: ExecState)
    requires Consistent(p.session, start) && start.gasUsed == start.blobGasUsed == 0
    ensures Kept(p, start, Begin(start))
  {
  }

  lemma {:induction false} RunKeeps(p: Plan, start: ExecState, s: Selection, offers: seq<EthTx>)
    requires GasBounded(p.session.w) && Kept(p, start, s) && Run(p, s, offers).Ok?
    ensures Kept(p, start, Run(p, s, offers).value)
    decreases offers
  {
    hide GasBounded, Kept, Step;
    if offers != [] {
      StepKeeps(p, start, s, offers[0]);
      RunKeeps(p, start, Step(p, s, offers[0]).value, offers[1..]);
    }
  }

  /** For every pool and every order of offers: the builder's gas is the executor's and within the
      block limit, replaying what was included reaches the executor's state, sizes and blobs add up
      and stay within their limits, each included blob transaction has its stored sidecar and no
      other is there, the blobs account for the executor's blob gas, and the fees are what the
      receipts say, without overflow. Under Prague3 nothing is included. */
  lemma SelectionKeeps(p: Plan, start: State, ready: ExecState, offers: seq<EthTx>)
    requires GasBounded(p.session.w) && PreExecution(p.session, InitialState(start)) == Ok(ready)
    requires Select(p, ready, offers).Ok?
    ensures var s := Select(p, ready, offers).value;
            && Kept(p, ready, s) && Ran(p.session, start, s.included, s.exec)
            && |s.sidecars| == BlobTransactions(s.included)
            && s.fees < TWO_256 && (Prague3Plan(p) ==> s.included == [])
  {
    hide GasBounded, PreExecution, Run, IsPrague3Active, FeesFromReceipts, TotalBlobs, TotalBytes, Replay;
    PreExecutionConsistent(p.session, start);
    BeginKept(p, ready);
    if !Prague3Plan(p) {
      RunKeeps(p, ready, Begin(ready), offers);
    }
  }

  /****** Order ******/

  lemma SubsequenceStep(part: seq<EthTx>, whole: seq<EthTx>, tx: EthTx)
    requires Subsequence(part, whole)
    ensures Subsequence(part + [tx], whole + [tx])
  {
    assert (part + [tx])[..|part|] == part && (whole + [tx])[..|whole|] == whole;
  }

  lemma {:induction false} SubsequenceSkip(part: seq<EthTx>, whole: seq<EthTx>, tx: EthTx)
    requires Subsequence(part, whole)
    ensures Subsequence(part, whole + [tx])
    decreases |whole|, 1
  {
    assert (whole + [tx])[..|whole|] == whole;
    if part != [] && part[|part| - 1] == tx {
      SubsequenceDropLast(part, whole);
    }
  }

  lemma {:induction false} SubsequenceDropLast(part: seq<EthTx>, whole: seq<EthTx>)
    requires part != [] && Subsequence(part, whole)
    ensures Subsequence(part[..|part| - 1], whole)
    decreases |whole|, 0
  {
    var front, before := part[..|part| - 1], whole[..|whole| - 1];
    assert whole == before + [whole[|whole| - 1]];
    if part[|part| - 1] == whole[|whole| - 1] {
      SubsequenceSkip(front, before, whole[|whole| - 1]);
    } else {
      SubsequenceDropLast(part, before);
      SubsequenceSkip(front, before, whole[|whole| - 1]);
    }
  }

  lemma {:induction false} RunSubsequence(p: Plan, s: Selection, seen: seq<EthTx>, offers: seq<EthTx>)
    requires Subsequence(s.included, seen) && Run(p, s, offers).Ok?
    ensures Subsequence(Run(p, s, offers).value.included, seen + offers)
    decreases offers
  {
    hide Step, Subsequence, Screen, SidecarsFor, Execute, EffectiveTip;
    if offers == [] {
      assert seen + offers == seen;
    } else {
      var tx, next := offers[0], Step(p, s, offers[0]).value;
      StepCases(p, s, tx);
      if Included(p, s, tx, next) {
        SubsequenceStep(s.included, seen, tx);
      } else {
        SubsequenceSkip(s.included, seen, tx);
      }
      assert seen + offers == (seen + [tx]) + offers[1..];
      RunSubsequence(p, next, seen + [tx], offers[1..]);
    }
  }

  /** Only offered transactions are included, each offer at most once, in the order of the offers. */
  lemma IncludedInOrder(p: Plan, ready: ExecState, offers: seq<EthTx>)
    requires Select(p, ready, offers).Ok?
    ensures Subsequence(Select(p, ready, offers).value.included, offers)
  {
    hide Run, IsPrague3Active;
    if !Prague3Plan(p) {
      assert [] + offers == offers;
      RunSubsequence(p, Begin(ready), [], offers);
    }
  }

  /****** The two gas checks ******/

  /** The builder lets through what the executor then refuses exactly when the builder's sum leaves
      u64: its wrapping sum is then below the gas already used. */
  lemma GasChecksDisagreeExact(p: Plan, s: Selection, tx: EthTx)
    requires GasKept(p, s)
    ensures Wrap64(s.gas + tx.gasLimit) <= GasLimitOf(p) && tx.gasLimit > AvailableGas(p.session, s.exec)
       <==> s.gas + tx.gasLimit >= TWO_64
  {
  }

  /** One such offer: after 21000 gas, a gas limit of 2^64 - 1 passes the builder's check under every
      block limit, and is refused by the executor, which ends the build. */
  lemma WrappedGasEndsTheBuild(p: Plan, s: Selection, tx: EthTx)
    requires GasKept(p, s) && s.gas == 21_000 && tx.gasLimit == TWO_64 - 1
    requires !OsakaPlan(p) && tx.txType.Legacy?
    ensures Step(p, s, tx) == Err(NotExecuted(TransactionGasLimitMoreThanAvailable(tx.gasLimit, AvailableGas(p.session, s.exec))))
  {
    hide OsakaPlan;
  }

  /** A transaction that executes can pay the base fee. */
  ghost predicate FeesCovered(w: World) {
    forall env: EvmEnv, db: State, tx: EthTx ::
      w.transact(env, db, tx).Ok? ==> env.blockEnv.baseFee <= tx.maxFeePerGas
  }

  /** Gas limits that no sum within the block can push out of u64. */
  predicate Addable(p: Plan, offers: seq<EthTx>) {
    forall i :: 0 <= i < |offers| ==> offers[i].gasLimit + GasLimitOf(p) < TWO_64
  }

  lemma StepFailures(p: Plan, s: Selection, tx: EthTx)
    requires FeesCovered(p.session.w) && GasKept(p, s) && tx.gasLimit + GasLimitOf(p) < TWO_64
    requires Step(p, s, tx).Err?
    ensures Step(p, s, tx).error == BlobStoreFailed || Step(p, s, tx).error == NotExecuted(EvmFailed)
  {
    hide IsActive, BlobCount, Consistent, Commit;
    GasLimitAgrees(p, s, tx);
    if EffectiveTip(tx, BaseFeeOf(p)).None? {
      assert !p.session.w.transact(p.session.env, s.exec.db, tx).Ok?;
    }
  }

  lemma GasLimitAgrees(p: Plan, s: Selection, tx: EthTx)
    requires GasKept(p, s) && tx.gasLimit + GasLimitOf(p) < TWO_64
    ensures Wrap64(s.gas + tx.gasLimit) <= GasLimitOf(p) ==> tx.gasLimit <= AvailableGas(p.session, s.exec)
  {
    GasChecksDisagreeExact(p, s, tx);
  }

  /** With addable gas limits a build is only lost to the blob store or to the EVM itself: the
      executor's gas check never fires after the builder's, and the fee is always there. */
  lemma {:induction false} RunFailures(p: Plan, start: ExecState, s: Selection, offers: seq<EthTx>)
    requires GasBounded(p.session.w) && FeesCovered(p.session.w) && Kept(p, start, s) && Addable(p, offers)
    requires Run(p, s, offers).Err?
    ensures Run(p, s, offers).error == BlobStoreFailed || Run(p, s, offers).error == NotExecuted(EvmFailed)
    decreases offers
  {
    hide GasBounded, FeesCovered, Step, Replays, SizeKept, BlobsKept, BlobGasKept, FeesKept, GasKept;
    if offers != [] {
      if Step(p, s, offers[0]).Err? {
        StepFailures(p, s, offers[0]);
      } else {
        StepKeeps(p, start, s, offers[0]);
        RunFailures(p, start, Step(p, s, offers[0]).value, offers[1..]);
      }
    }
  }

  /****** Blob limits ******/

  /** The effective limit stays within the protocol's if and only if the operator set none or the
      protocol allows a blob. */
  lemma MaxBlobCountExact(userLimit: Option<U64>, protocol: U64)
    ensures MaxBlobCount(userLimit, protocol) <= protocol <==> userLimit.None? || protocol >= 1
  {
  }

  /** Under a protocol maximum of zero and any operator limit, a transaction with one blob that has
      its sidecar and executes is included: one blob where the protocol allows none. */
  lemma ZeroProtocolAdmitsBlob(p: Plan, s: Selection, tx: EthTx, limit: U64)
    requires p.maxBlobs == MaxBlobCount(Some(limit), 0)
    requires s.blobs == 0 && BlobCount(tx) == 1 && Step(p, s, tx).Ok?
    requires Wrap64(s.gas + tx.gasLimit) <= GasLimitOf(p) && !OsakaPlan(p)
    requires p.getBlob(tx.hash).Found? && p.getBlob(tx.hash).eip4844
    requires Execute(p.session, s.exec, Ethereum(tx)).Ok?
    ensures Step(p, s, tx).value.included == s.included + [tx] && Step(p, s, tx).value.blobs == 1
  {
    hide Execute, OsakaPlan, EffectiveTip;
  }

  /** The iterator is told to skip blobs as soon as the limit is reached, and not before. */
  predicate SkipToldRight(p: Plan, s: Selection) {
    && (SkipBlobs in s.instructions ==> s.blobs == p.maxBlobs)
    && (s.blobs == p.maxBlobs && s.blobs > 0 ==> SkipBlobs in s.instructions)
  }

  lemma StepTellsSkip(p: Plan, s: Selection, tx: EthTx)
    requires s.blobs <= p.maxBlobs && SkipToldRight(p, s) && Step(p, s, tx).Ok?
    ensures SkipToldRight(p, Step(p, s, tx).value) && Step(p, s, tx).value.blobs <= p.maxBlobs
  {
    hide Execute, EffectiveTip, IsActive;
  }

  lemma {:induction false} RunTellsSkip(p: Plan, s: Selection, offers: seq<EthTx>)
    requires s.blobs <= p.maxBlobs && SkipToldRight(p, s) && Run(p, s, offers).Ok?
    ensures SkipToldRight(p, Run(p, s, offers).value)
    decreases offers
  {
    hide Step, SkipToldRight;
    if offers != [] {
      StepTellsSkip(p, s, offers[0]);
      RunTellsSkip(p, Step(p, s, offers[0]).value, offers[1..]);
    }
  }

  /****** Completeness: what fits is taken ******/

  /** The tip per gas: what is left of the fee cap above the base fee, up to the priority fee. */
  function TipOf(p: Plan, tx: EthTx): nat
    requires tx.maxFeePerGas >= p.session.env.blockEnv.baseFee
  {
    var left := tx.maxFeePerGas - p.session.env.blockEnv.baseFee;
    if tx.maxPriorityFeePerGas.Some? && tx.maxPriorityFeePerGas.value < left then tx.maxPriorityFeePerGas.value else left
  }

  /** The offer fits the gas and, from Osaka on, the size left, its blobs fit and have their sidecar, the
      EVM runs it on the state so far, and it can pay the base fee. */
  predicate Includable(p: Plan, s: Selection, tx: EthTx) {
    var j := p.session;
    && s.gas + tx.gasLimit <= j.env.blockEnv.gasLimit
    && (IsActive(j.spec, Osaka, j.env.blockEnv.timestamp) ==>
          s.bytes + |tx.encoded| + p.withdrawalsLength + 1024 <= 8_388_608)
    && (tx.txType.Eip4844? ==> s.blobs + |tx.blobHashes| <= p.maxBlobs)
    && HasSidecar(p, tx)
    && j.w.transact(j.env, s.exec.db, tx).Ok?
    && tx.maxFeePerGas >= j.env.blockEnv.baseFee
  }

  /** The selection with this transaction in it: its call's state and receipt, its gas, blobs, size, fee
      and sidecar. */
  function With(p: Plan, s: Selection, tx: EthTx): Selection
    requires Includable(p, s, tx) && GasBounded(p.session.w) && GasKept(p, s)
  {
    hide IsActive, GasBounded, BlobGasAfter;
    ExecuteExact(p.session, s.exec, tx);
    var (call, db) := p.session.w.transact(p.session.env, s.exec.db, tx).value;
    TipTimesGas(TipOf(p, tx), call.gasUsed);
    var blobs := s.blobs + if tx.txType.Eip4844? then |tx.blobHashes| else 0;
    Selection(
      exec := ExecState(db, s.exec.receipts + [Receipt(EthereumType(tx.txType), call.success, s.gas + call.gasUsed, call.logs)],
                        s.gas + call.gasUsed, BlobGasAfter(p.session, s.exec.blobGasUsed, BlobsOf(tx))),
      included := s.included + [tx],
      gas := s.gas + call.gasUsed,
      blobs := blobs,
      bytes := s.bytes + |tx.encoded|,
      fees := s.fees + TipOf(p, tx) * call.gasUsed,
      sidecars := s.sidecars + if tx.txType.Eip4844? then [p.getBlob(tx.hash).sidecar] else [],
      instructions := s.instructions + if tx.txType.Eip4844? && blobs == p.maxBlobs then [SkipBlobs] else [])
  }

  /** A turn takes the offer if and only if it is includable, and then with everything that comes with
      it; otherwise only the pool is told something, or the build ends. */
  lemma StepIncludesExact(p: Plan, s: Selection, tx: EthTx)
    requires GasBounded(p.session.w) && GasKept(p, s)
    ensures Includable(p, s, tx) ==> Step(p, s, tx) == Ok(With(p, s, tx))
    ensures !Includable(p, s, tx) && Step(p, s, tx).Ok? ==>
              Step(p, s, tx).value == s.(instructions := Step(p, s, tx).value.instructions)
  {
    hide IsActive, GasBounded, BlobGasAfter, Execute;
    ExecuteExact(p.session, s.exec, tx);
    GasChecksDisagreeExact(p, s, tx);
    assert s.sidecars + [] == s.sidecars && s.instructions + [] == s.instructions;
  }

  /** The gas limit fits, as the builder sees it. */
  predicate BuilderFits(p: Plan, s: Selection, tx: EthTx) {
    (s.gas + tx.gasLimit) % TWO_64 <= p.session.env.blockEnv.gasLimit
  }

  /** The block with this transaction, the withdrawals and the reserve is within the size limit, or there
      is none yet. */
  predicate SizeFits(p: Plan, s: Selection, tx: EthTx) {
    IsActive(p.session.spec, Osaka, p.session.env.blockEnv.timestamp) ==>
      s.bytes + |tx.encoded| + p.withdrawalsLength + 1024 <= 8_388_608
  }

  predicate BlobsFit(p: Plan, s: Selection, tx: EthTx) {
    tx.txType.Eip4844? ==> s.blobs + |tx.blobHashes| <= p.maxBlobs
  }

  /** What the pool is told about a refused offer, and what ends the build: the first reason in this order
      - gas, size, blobs, sidecar, EVM. A stale nonce is told nothing. */
  lemma RefusalExact(p: Plan, s: Selection, tx: EthTx)
    requires GasBounded(p.session.w) && GasKept(p, s)
    ensures !BuilderFits(p, s, tx) ==> Step(p, s, tx) == Ok(Refuse(s, tx, ExceedsGasLimit))
    ensures BuilderFits(p, s, tx) && !SizeFits(p, s, tx) ==>
              Step(p, s, tx) == Ok(Refuse(s, tx, OversizedData(s.bytes + |tx.encoded| + p.withdrawalsLength + 1024)))
    ensures BuilderFits(p, s, tx) && SizeFits(p, s, tx) && !BlobsFit(p, s, tx) ==>
              Step(p, s, tx) == Ok(Refuse(s, tx, TooManyBlobs(s.blobs + |tx.blobHashes|)))
    ensures BuilderFits(p, s, tx) && SizeFits(p, s, tx) && BlobsFit(p, s, tx) && !HasSidecar(p, tx) ==>
              Step(p, s, tx)
              == match p.getBlob(tx.hash)
                 case StoreError => Err(BlobStoreFailed)
                 case Missing => Ok(Refuse(s, tx, MissingBlobSidecar))
                 case Found(_, _) => Ok(Refuse(s, tx, Eip7594SidecarDisallowed))
    ensures s.gas + tx.gasLimit <= p.session.env.blockEnv.gasLimit && SizeFits(p, s, tx) && BlobsFit(p, s, tx) && HasSidecar(p, tx) ==>
              match p.session.w.transact(p.session.env, s.exec.db, tx)
              case Err(Invalid(nonceTooLow)) => Step(p, s, tx) == Ok(if nonceTooLow then s else Refuse(s, tx, Rejected))
              case Err(Fatal) => Step(p, s, tx) == Err(NotExecuted(EvmFailed))
              case Ok(_) => tx.maxFeePerGas < p.session.env.blockEnv.baseFee ==> Step(p, s, tx) == Err(FeePanic)
  {
    hide IsActive, GasBounded, BlobGasAfter, Execute;
    ExecuteExact(p.session, s.exec, tx);
  }

  /** What is told is one mark, added at the end. */
  lemma RefuseTells(s: Selection, tx: EthTx, reason: Reason)
    ensures Refuse(s, tx, reason) == s.(instructions := s.instructions + [MarkInvalid(tx, reason)])
  {
  }

  /** A run over the offers up to one of them, and one turn more. */
  lemma {:induction false} RunUpTo(p: Plan, s: Selection, offers: seq<EthTx>, i: nat)
    requires i < |offers| && Run(p, s, offers).Ok?
    ensures Run(p, s, offers[..i]).Ok? && Run(p, s, offers[..i + 1]) == Step(p, Run(p, s, offers[..i]).value, offers[i])
    ensures Run(p, s, offers[..i + 1]).Ok?
    decreases offers
  {
    hide Step;
    var next := Step(p, s, offers[0]).value;
    assert offers[..i + 1][0] == offers[0] && offers[..i + 1][1..] == offers[1..][..i];
    if i == 0 {
      assert Run(p, s, offers[..0]) == Ok(s);
      assert Run(p, next, offers[1..][..0]) == Ok(next);
    } else {
      assert offers[..i][0] == offers[0] && offers[..i][1..] == offers[1..][..i - 1];
      RunUpTo(p, next, offers[1..], i - 1);
    }
  }

  /** Offer by offer, over the whole run: unless Prague3 is active an offer is taken if and only if it is
      includable after the offers before it. So whatever was left out did not fit, had no sidecar, was
      refused by the EVM, or could not pay; and under Prague3 nothing is taken. */
  lemma OfferTakenExact(p: Plan, start: State, ready: ExecState, offers: seq<EthTx>, i: nat)
    requires GasBounded(p.session.w) && PreExecution(p.session, InitialState(start)) == Ok(ready)
    requires i < |offers| && Select(p, ready, offers).Ok?
    ensures Select(p, ready, offers[..i]).Ok? && Select(p, ready, offers[..i + 1]).Ok?
    ensures var before, after := Select(p, ready, offers[..i]).value, Select(p, ready, offers[..i + 1]).value;
            if IsPrague3Active(p.session.spec, p.session.env.blockEnv.timestamp) then after.included == []
            else if Includable(p, before, offers[i]) then after.included == before.included + [offers[i]]
            else after.included == before.included
    ensures Select(p, ready, offers[..|offers|]) == Select(p, ready, offers) && Select(p, ready, []).Ok?
    ensures Select(p, ready, []).value.included == []
  {
    hide GasBounded, PreExecution, IsPrague3Active, Includable, Step;
    assert offers[..|offers|] == offers;
    if !IsPrague3Active(p.session.spec, p.session.env.blockEnv.timestamp) {
      RunUpTo(p, Begin(ready), offers, i);
      PreExecutionConsistent(p.session, start);
      BeginKept(p, ready);
      hide Run, Kept;
      var before := Run(p, Begin(ready), offers[..i]).value;
      RunKeeps(p, ready, Begin(ready), offers[..i]);
      KeptGas(p, ready, before);
      StepIncludesExact(p, before, offers[i]);
    }
  }

  lemma KeptGas(p: Plan, start: ExecState, s: Selection)
    requires Kept(p, start, s)
    ensures GasKept(p, s)
  {
  }

  /** The blob limit of a block: the protocol's without an operator's limit; otherwise the smaller of the
      two, but at least 1. */
  lemma MaxBlobCountMeaning(userLimit: Option<U64>, protocol: U64)
    ensures userLimit.None? ==> MaxBlobCount(userLimit, protocol) == protocol
    ensures userLimit.Some? ==>
              var m := MaxBlobCount(userLimit, protocol);
              m >= 1 && (m > 1 ==> m <= userLimit.value && m <= protocol)
              && (m < userLimit.value ==> m >= protocol) && (m < protocol ==> m >= userLimit.value)
  {
  }
}
