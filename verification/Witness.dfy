/** The hypotheses of the agreement theorems can be met together: a small genesis, a quiet world and a
    Prague1 block with the injected and one executed transaction satisfy all of them. */
module Witness {
  import opened Base
  import opened BaseFee
  import opened BlockBuilder
  import opened ChainSpec
  import opened EnginePayload
  import opened EvmConfig
  import opened Executor
  import opened Header
  import opened Pipeline
  import opened PolTx
  import opened SelectionLaws
  import opened World

  function SampleGenesis(): Genesis {
    Genesis(
      timestamp := 0, chainId := 80094, preCancunBlocks := [], shanghaiTime := Some(0), cancunTime := Some(0),
      pragueTime := Some(0), osakaTime := None, terminalTotalDifficulty := Some(0), mergeNetsplitBlock := None,
      bpoTimes := [], hasBerachainSection := true,
      prague1 := Some(Prague1Config(1000, 48, 1_000_000_000, [1] + Zeros(19))),
      prague2 := Some(Prague2Config(2000, 0)), prague3 := None, prague4 := None, osaka1 := None)
  }

  lemma SampleChecked()
    ensures Check(SampleGenesis()) == Ok(())
  {
    var distributor: Address := [1] + Zeros(19);
    assert distributor[0] != Zeros(20)[0];
  }

  lemma SampleConditions(fork: Hardfork)
    ensures Lookup(HardforkList(SampleGenesis()), fork) == Configured(SampleGenesis(), fork)
    ensures Configured(SampleGenesis(), Prague) == Timestamp(0) && Configured(SampleGenesis(), Prague1) == Timestamp(1000)
    ensures Configured(SampleGenesis(), Prague2) == Timestamp(2000) && Configured(SampleGenesis(), Osaka) == Never
  {
    hide Lookup, HardforkList;
    LookupConfigured(SampleGenesis(), fork);
  }

  /** Some genesis is accepted; Prague1 starts at time 1000. */
  lemma SomeGenesisAccepted() returns (spec: ChainSpec)
    ensures FromGenesis(SampleGenesis()) == Ok(spec) && Accepted(spec)
    ensures !IsActive(spec, Prague1, 0) && !IsActive(spec, Prague2, 0)
    ensures IsActive(spec, Prague, 1000) && IsActive(spec, Prague1, 1000) && !IsActive(spec, Osaka, 1000)
  {
    SampleChecked();
    SampleConditions(Prague1);
    SampleConditions(Prague2);
    SampleConditions(Prague);
    SampleConditions(Osaka);
    hide Lookup, HardforkList, Check, Configured;
    spec := FromGenesis(SampleGenesis()).value;
  }

  function QuietTransact(env: EvmEnv, db: State, tx: EthTx): (r: Result<(CallResult, State), EvmError>)
    ensures r.Ok? ==> r.value.0.gasUsed <= tx.gasLimit && env.blockEnv.baseFee <= tx.maxFeePerGas
  {
    if tx.maxFeePerGas < env.blockEnv.baseFee then Err(Fatal)
    else Ok((CallResult(true, Min(21_000, tx.gasLimit), []), db))
  }

  /** Calls succeed and change nothing; a transaction that covers the base fee uses at most 21000 gas. */
  function QuietWorld(): World {
    World(
      keccak := (_: Bytes) => Zeros(32),
      transact := (env: EvmEnv, db: State, tx: EthTx) => QuietTransact(env, db, tx),
      systemCall := (_: EvmEnv, db: State, _: Address, _: Address, _: Bytes) => Ok((CallResult(true, 0, []), db)),
      blockhashesCall := (_: EvmEnv, db: State, _: B256) => Ok(db),
      beaconRootCall := (_: EvmEnv, db: State, _: Option<B256>) => Ok(db),
      requestCalls := (_: EvmEnv, db: State) => Ok(([], db)),
      incrementBalances := (_: EvmEnv, db: State, _: Option<seq<Withdrawal>>, _: bool) => Ok(db),
      decodeDeposit := (_: Log) => None,
      depositContract := Zeros(20),
      depositTopic := Zeros(32),
      scheduledBlobParams := (_: U64) => None,
      defaultBlobParams := (_: SpecId) => BlobParams(6, 6, 1, 1),
      nextExcessBlobGas := (_: BlobParams, _: U64, _: U64, _: U64) => 0,
      blobFee := (_: BlobParams, _: U64) => 1,
      firstCancunExcess := 0,
      stateRoot := (_: State) => Zeros(32),
      transactionsRoot := (_: seq<WireTx>) => Zeros(32),
      receiptsRoot := (_: seq<Receipt>) => Zeros(32),
      logsBloom := (_: seq<Receipt>) => Zeros(256),
      withdrawalsRoot := (_: seq<Withdrawal>) => Zeros(32),
      requestsHash := (_: seq<Bytes>) => Zeros(32),
      emptyOmmersHash := Zeros(32))
  }

  lemma QuietWorldBehaves()
    ensures GasBounded(QuietWorld()) && FeesCovered(QuietWorld())
  {
    var w := QuietWorld();
    forall env: EvmEnv, db: State, tx: EthTx ensures w.transact(env, db, tx) == QuietTransact(env, db, tx) {
    }
  }

  function SampleParent(): BerachainHeader {
    BerachainHeader(
      parentHash := Zeros(32), ommersHash := Zeros(32), beneficiary := Zeros(20), stateRoot := Zeros(32),
      transactionsRoot := Zeros(32), receiptsRoot := Zeros(32), withdrawalsRoot := Some(Zeros(32)), logsBloom := Zeros(256),
      difficulty := 0, number := 1, gasLimit := 36_000_000, gasUsed := 0, timestamp := 0, mixHash := Zeros(32), nonce := Zeros(8),
      baseFeePerGas := Some(7), blobGasUsed := Some(0), excessBlobGas := Some(0), parentBeaconBlockRoot := Some(Zeros(32)),
      requestsHash := Some(Zeros(32)), prevProposerPubkey := None, extraData := [])
  }

  /** A block in the first second of Prague1. */
  function SampleAttributes(): NextBlockAttributes {
    NextBlockAttributes(1000, Zeros(20), Zeros(32), 36_000_000, Some(Zeros(32)), Some([]), Some(Zeros(48)))
  }

  function SampleTransaction(): EthTx {
    EthTx(Eip1559, Zeros(32), Zeros(20), 21_000, TWO_64, Some(1), [], [])
  }

  lemma SampleSession(spec: ChainSpec) returns (j: Session)
    requires FromGenesis(SampleGenesis()) == Ok(spec) && Accepted(spec)
    requires !IsActive(spec, Prague1, 0) && !IsActive(spec, Prague2, 0)
    ensures DivisibleHeader(spec, SampleParent()) && j == ProducerSession(QuietWorld(), spec, SampleParent(), SampleAttributes())
    ensures j.w == QuietWorld() && j.spec == spec
    ensures j.env.blockEnv.gasLimit == 36_000_000 && j.env.blockEnv.number == 2 && j.env.blockEnv.timestamp == 1000
    ensures j.ctx.prevProposerPubkey == Some(Zeros(48))
  {
    hide Lookup, IsActive, Accepted, FromGenesis, SampleGenesis, HashSlow, NextBlockBaseFee, BlobParamsAt, LondonBoundary;
    LondonBoundaryExact(spec, SampleParent());
    j := ProducerSession(QuietWorld(), spec, SampleParent(), SampleAttributes());
  }

  lemma SampleRun(j: Session, start: State) returns (ready: ExecState, done: ExecState)
    requires j.w == QuietWorld() && IsActive(j.spec, Prague1, 1000) && IsActive(j.spec, Prague, 1000) && !IsActive(j.spec, Osaka, 1000)
    requires j.env.blockEnv.gasLimit == 36_000_000 && j.env.blockEnv.number == 2 && j.env.blockEnv.timestamp == 1000
    requires j.ctx.prevProposerPubkey == Some(Zeros(48))
    ensures PreExecution(j, InitialState(start)) == Ok(ready) && |ready.receipts| == 1
    ensures Replay(j, ready, [Ethereum(SampleTransaction())]) == Ok(done)
    ensures done.gasUsed == 21_000 && Finish(j, done).Ok?
  {
    hide IsActive, CreatePolTransaction;
    CreationDefined(j.w.keccak, j.spec, Zeros(48), 2, j.env.blockEnv.baseFee);
    ready := PreExecution(j, InitialState(start)).value;
    var next := Execute(j, ready, Ethereum(SampleTransaction())).value.0;
    assert [Ethereum(SampleTransaction())][1..] == [];
    done := next;
    assert Replay(j, done, []) == Ok(done);
  }

  /** A Prague1 block with an injected proof-of-liquidity transaction and one executed transaction. */
  lemma HypothesesCanBeMet(start: State) returns (spec: ChainSpec, done: ExecState, b: Built)
    ensures Accepted(spec) && GasBounded(QuietWorld()) && FeesCovered(QuietWorld())
    ensures DivisibleHeader(spec, SampleParent()) && PayloadReady(SampleParent(), SampleAttributes())
    ensures var j := ProducerSession(QuietWorld(), spec, SampleParent(), SampleAttributes());
            Produced(j, start, SampleParent(), Envelopes([SampleTransaction()]), done, [], b)
    ensures |b.block.transactions| == 2 && b.block.transactions[0].Berachain? && b.result.gasUsed == 21_000
  {
    hide Lookup, IsActive, Accepted, FromGenesis, SampleGenesis, ProducerSession, SampleParent, PreExecution, Finish, Replay, QuietWorld;
    spec := SomeGenesisAccepted();
    QuietWorldBehaves();
    var j := SampleSession(spec);
    var ready;
    ready, done := SampleRun(j, start);
    assert Envelopes([SampleTransaction()]) == [Ethereum(SampleTransaction())];
    SampleBuilt(j, start, done);
    b := Build(j, SampleParent(), done, Envelopes([SampleTransaction()]), []).value;
    assert PayloadReady(SampleParent(), SampleAttributes()) by { SampleReady(); }
  }

  lemma SampleReady()
    ensures PayloadReady(SampleParent(), SampleAttributes())
  {
  }

  lemma SampleBuilt(j: Session, start: State, done: ExecState)
    requires GasBounded(j.w) && Ran(j, start, [SampleTransaction()], done) && Finish(j, done).Ok?
    requires IsActive(j.spec, Prague1, j.env.blockEnv.timestamp)
    ensures var r := Build(j, SampleParent(), done, Envelopes([SampleTransaction()]), []);
            r.Ok? && |r.value.block.transactions| == 2 && r.value.block.transactions[0].Berachain?
            && r.value.result.gasUsed == done.gasUsed
  {
    hide IsActive, Build, Ran, GasBounded, CollectRequests;
    BuildSucceeds(j, start, SampleParent(), [SampleTransaction()], done, []);
    BuiltLists(j, SampleParent(), [SampleTransaction()], done, []);
  }
}
