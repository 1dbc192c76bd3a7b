/**
 Building a payload from start to end: environment, pre-execution, selection, finishing, size check
 (src/engine/builder.rs). Cancellation and the comparison with an earlier payload are left out.
 */
module PayloadJob {
  import opened Base
  import opened Assembler
  import opened BaseFee
  import opened BlockBuilder
  import opened BlockSize
  import opened ChainSpec
  import opened Consensus
  import opened EnginePayload
  import opened EvmConfig
  import opened Executor
  import opened GenesisLaws
  import opened Header
  import opened PayloadBuilder
  import opened Pipeline
  import opened SelectionLaws
  import opened Withdrawals
  import opened World

  datatype PayloadError =
    | PreExecutionFailed(execution: ExecError)
    | SelectionFailed(selection: SelectError)
    | FinishFailed(finish: BuildError)
    | TooLarge(size: FinalError)

  datatype BuiltPayload = BuiltPayload(
    block: Block, senders: seq<Address>, fees: nat, requests: Option<seq<Bytes>>, sidecars: seq<Sidecar>)

  /** What a payload job is given. */
  datatype Job = Job(
    w: World,
    spec: ChainSpec,
    parent: BerachainHeader,
    attrs: NextBlockAttributes,
    withdrawals: WithdrawalList,
    start: State,
    getBlob: B256 -> BlobLookup,
    userLimit: Option<U64>,
    extraData: Blob)

  predicate WellFormed(job: Job) {
    DivisibleHeader(job.spec, job.parent) && job.attrs.withdrawals == Some(job.withdrawals)
  }

  function SessionOf(job: Job): Session
    requires WellFormed(job)
  {
    ProducerSession(job.w, job.spec, job.parent, job.attrs)
  }

  function ProtocolMaxBlobs(job: Job): U64 {
    match BlobParamsAt(job.w, job.spec, job.attrs.timestamp)
    case None => 0
    case Some(params) => params.maxBlobCount
  }

  function PlanOf(job: Job): Plan
    requires WellFormed(job)
  {
    Plan(SessionOf(job), job.getBlob, MaxBlobCount(job.userLimit, ProtocolMaxBlobs(job)), |EncodeWithdrawals(job.withdrawals)|)
  }

  /** The plan in the genesis's numbers: the protocol's blob limit is that of the parameters configured
      for the block's time, and the withdrawals count with their encoded length. */
  lemma PlanExact(job: Job, g: Genesis)
    requires WellFormed(job) && FromGenesis(g) == Ok(job.spec)
    ensures var p := PlanOf(job);
            && p.maxBlobs == MaxBlobCount(job.userLimit, ConfiguredBlobs(job.w, g, job.attrs.timestamp).maxBlobCount)
            && p.withdrawalsLength == |EncodeWithdrawals(job.withdrawals)| && p.getBlob == job.getBlob
            && p.session == ProducerSession(job.w, job.spec, job.parent, job.attrs)
  {
    RulesExact(job.w, g, job.spec, job.attrs.timestamp, 0);
    hide FromGenesis, ConfiguredBlobs, BlobParamsAt, EncodeWithdrawals, NextEvmEnv, HashSlow;
  }

  /** The stages of a job that returned this payload. */
  ghost predicate Completed(job: Job, offers: seq<EthTx>, ready: ExecState, s: Selection, built: Built, payload: BuiltPayload)
    requires WellFormed(job)
  {
    && PreExecution(SessionOf(job), InitialState(job.start)) == Ok(ready)
    && Select(PlanOf(job), ready, offers) == Ok(s)
    && Build(SessionOf(job), job.parent, s.exec, Envelopes(s.included), job.extraData) == Ok(built)
    && payload.block == built.block && payload.senders == built.senders
    && payload.fees == s.fees && payload.sidecars == s.sidecars
    && payload.requests == if IsActive(job.spec, Prague, job.attrs.timestamp) then Some(built.result.requests) else None
  }

  /** The EVM respects gas limits, the chain specification is accepted, the parent is complete, and from
      Prague on there is a beacon root. */
  ghost predicate Sane(job: Job) {
    && GasBounded(job.w) && Accepted(job.spec) && ParentComplete(job.parent)
    && (IsActive(job.spec, Prague, job.attrs.timestamp) ==> job.attrs.parentBeaconBlockRoot.Some?)
  }

  /** What the Engine API asks of a payload. */
  predicate Sendable(job: Job) {
    |job.extraData| <= MAXIMUM_EXTRA_DATA_SIZE && job.attrs.parentBeaconBlockRoot.Some?
  }

  /** Short extra data, and withdrawals that leave room for the reserve. */
  predicate LeavesRoom(job: Job) {
    |job.extraData| <= 66 && |EncodeWithdrawals(job.withdrawals)| + RESERVE <= MAX_RLP_BLOCK_SIZE
  }

  /** Each blob transaction has its stored EIP-4844 sidecar, in order, and there is no other. */
  predicate SidecarsServe(p: Plan, txs: seq<EthTx>, sidecars: seq<Sidecar>) {
    && (forall i :: 0 <= i < |txs| ==> HasSidecar(p, txs[i]))
    && sidecars == SidecarsOf(p, txs) && |sidecars| == BlobTransactions(txs)
  }

  /** What a payload is worth to the network. */
  ghost predicate Sound(job: Job, s: Selection, built: Built, payload: BuiltPayload)
    requires WellFormed(job)
  {
    var importer := ImporterSession(job.w, job.spec, payload.block);
    && Import(importer, job.start, payload.block.transactions) == Ok(built.result)
    && Aligned(built)
    && Passes(job.w.keccak, job.spec, payload.block) && ValidateHeader(job.spec, payload.block.header).Ok?
    && PrefixShaped(payload.block.header)
    && payload.block.header.gasUsed == built.result.gasUsed <= payload.block.header.gasLimit
    && |s.included| <= |built.result.receipts|
    && payload.fees == FeesFromReceipts(importer.env.blockEnv.baseFee, s.included, built.result.receipts)
    && TotalBlobs(s.included) <= MaxBlobCount(job.userLimit, ProtocolMaxBlobs(job))
    && payload.block.header.blobGasUsed == Some(Min(TotalBlobs(s.included) * DATA_GAS_PER_BLOB, TWO_64 - 1))
    && SidecarsServe(PlanOf(job), s.included, payload.sidecars)
    && (Sendable(job) ==> ConvertPayload(job.w, job.spec, BlockToPayload(job.w.keccak, payload.block)) == Ok(payload.block))
  }

  lemma CompletedIsSound(job: Job, offers: seq<EthTx>, ready: ExecState, s: Selection, built: Built, payload: BuiltPayload)
    requires WellFormed(job) && Sane(job) && Completed(job, offers, ready, s, built, payload)
    ensures Sound(job, s, built, payload)
  {
    hide Accepted, GasBounded, Build, Select, PreExecution, Import, ImporterSession, IsActive, FeesFromReceipts, Aligned,
      Passes, TotalBlobs, MaxBlobCount, ProtocolMaxBlobs, Replay, Replays, SizeKept, NextEvmEnv, PrefixShaped, HashSlow,
      BlobTransactions, HasSidecar, ConvertPayload, BlockToPayload, ParentComplete;
    var j, p, txs := SessionOf(job), PlanOf(job), Envelopes(s.included);
    SelectionKeeps(p, job.start, ready, offers);
    ProducerImporterAgree(job.w, job.spec, job.start, job.parent, job.attrs, txs, s.exec, job.extraData, built);
    BuiltAligned(j, job.start, job.parent, s.included, s.exec, job.extraData);
    BuiltPassesGates(j, job.parent, s.included, s.exec, job.extraData);
    ImporterSessionExact(job.w, job.spec, job.parent, job.attrs, txs, s.exec, job.extraData, built);
    ConvertExact(job.w, job.spec, job.parent, job.attrs, s.included, s.exec, job.extraData, built);
    CompletedHeader(job, offers, ready, s, built, payload);
  }

  lemma SessionFacts(job: Job)
    requires WellFormed(job)
    ensures SessionOf(job).env.blockEnv.timestamp == job.attrs.timestamp
    ensures SessionOf(job).ctx.parentBeaconBlockRoot == job.attrs.parentBeaconBlockRoot
  {
    hide NextExcessBlobGas, BlobParamsAt, NextBlockBaseFee, LondonBoundary, RevmSpec, BuildCfg, HashSlow;
  }

  lemma CompletedHeader(job: Job, offers: seq<EthTx>, ready: ExecState, s: Selection, built: Built, payload: BuiltPayload)
    requires WellFormed(job) && Sane(job) && Completed(job, offers, ready, s, built, payload)
    ensures var h := payload.block.header;
            && PrefixShaped(h) && h.gasUsed == built.result.gasUsed == s.exec.gasUsed
            && h.blobGasUsed == Some(s.exec.blobGasUsed) && CancunPlan(PlanOf(job))
            && h.gasLimit == SessionOf(job).env.blockEnv.gasLimit
            && built.result.receipts == s.exec.receipts
  {
    hide Accepted, GasBounded, Build, Select, IsActive, NextEvmEnv, PrefixShaped, HashSlow, PolStep, CollectRequests, ParentComplete;
    SessionFacts(job);
    var j, txs := SessionOf(job), Envelopes(s.included);
    BuiltBlock(j, job.parent, txs, s.exec, job.extraData, built);
    PreExecutionConsistent(j, job.start);
    AssembledShapeExact(j, job.parent, built.block.transactions, built.result, job.extraData);
    AcceptedActivation(job.spec, j.env.blockEnv.timestamp);
  }

  /** Finishes the block, checks its size and wraps it up. */
  method Conclude(job: Job, builder: BerachainBlockBuilder, tally: Tally, ghost offers: seq<EthTx>, ghost ready: ExecState,
                  ghost s: Selection)
    returns (r: Result<BuiltPayload, PayloadError>, ghost built: Option<Built>)
    requires WellFormed(job) && builder.executor.session == SessionOf(job)
    requires builder.parent == job.parent && builder.extraData == job.extraData
    requires builder.executor.View() == s.exec && builder.transactions == Envelopes(s.included)
    requires tally.fees == s.fees && tally.sidecars == s.sidecars
    requires PreExecution(SessionOf(job), InitialState(job.start)) == Ok(ready)
    requires Select(PlanOf(job), ready, offers) == Ok(s)
    modifies builder, builder.executor
    ensures r.Ok? ==> built.Some? && Completed(job, offers, ready, s, built.value, r.value)
    ensures r.Err? && r.error.TooLarge? && Sane(job) ==> !LeavesRoom(job)
  {
    hide Build, Select, IsActive, PreExecution, NextEvmEnv, EncodeWithdrawals, RlpLength, Accepted, GasBounded, HashSlow;
    built := None;
    var finished := builder.FinishBlock();
    if finished.Err? {
      return Err(FinishFailed(finished.error)), built;
    }
    var block, result := finished.value.block, finished.value.result;
    built := Some(Built(block, finished.value.senders, result));
    BuiltParts(SessionOf(job), job.parent, s.exec, s.included, job.extraData);
    var checked := FinalCheck(PlanOf(job), block);
    if checked.Err? {
      if Sane(job) && LeavesRoom(job) {
        ReserveSuffices(PlanOf(job), job.start, job.parent, ready, offers, job.withdrawals, job.extraData);
      }
      return Err(TooLarge(checked.error)), built;
    }
    var requests := if IsActive(job.spec, Prague, job.attrs.timestamp) then Some(result.requests) else None;
    return Ok(BuiltPayload(block, finished.value.senders, tally.fees, requests, tally.sidecars)), built;
  }

  /** The payload job. Whatever the pool offers, a payload that comes out is sound; and the final size
      check never turns one down that had short extra data and left room for the reserve. */
  method DefaultBerachainPayload(job: Job, offers: seq<EthTx>)
    returns (r: Result<BuiltPayload, PayloadError>, ghost trace: Option<(ExecState, Selection, Built)>)
    requires WellFormed(job)
    ensures r.Ok? ==> trace.Some? && Completed(job, offers, trace.value.0, trace.value.1, trace.value.2, r.value)
    ensures r.Ok? && Sane(job) ==> Sound(job, trace.value.1, trace.value.2, r.value)
    ensures r.Err? && r.error.TooLarge? && Sane(job) ==> !LeavesRoom(job)
  {
    hide Build, Select, IsActive, PreExecution, NextEvmEnv, EncodeWithdrawals, Sound, Completed, Accepted, GasBounded, HashSlow;
    trace := None;
    var env := ConfigureNext(job.w, job.spec, job.parent, job.attrs);
    var session := Session(job.w, job.spec, env, ContextForNextBlock(job.w, job.parent, job.attrs));
    var executor := new BerachainBlockExecutor(session, job.start);
    var builder := new BerachainBlockBuilder(executor, job.parent, job.extraData);
    var prepared := executor.ApplyPreExecutionChanges();
    if prepared.Err? {
      return Err(PreExecutionFailed(prepared.error)), trace;
    }
    ghost var ready := executor.View();
    var best := new BestTransactions(offers);
    var tally := new Tally();
    var selected, included := SelectTransactions(PlanOf(job), builder, best, tally);
    if selected.Err? {
      return Err(SelectionFailed(selected.error)), trace;
    }
    ghost var s := Held(builder, best, tally, included);
    ghost var built;
    r, built := Conclude(job, builder, tally, offers, ready, s);
    if r.Ok? {
      trace := Some((ready, s, built.value));
      if Sane(job) {
        CompletedIsSound(job, offers, ready, s, built.value, r.value);
      }
    }
  }
}
