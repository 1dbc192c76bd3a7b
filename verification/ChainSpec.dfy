/**
 The chain specification: which genesis configurations `From<Genesis>` accepts, the fork list it
 builds from them, and when each fork is active (src/chainspec/mod.rs, src/hardforks/mod.rs).
 */
module ChainSpec {
  import opened Base

  datatype ForkCondition =
    | Block(number: U64)
    | Ttd(forkBlock: Option<U64>)
    | Timestamp(time: U64)
    | Never

  datatype Hardfork =
    | Frontier | Homestead | Dao | Tangerine | SpuriousDragon | Byzantium | Constantinople | Petersburg
    | Istanbul | MuirGlacier | Berlin | London | ArrowGlacier | GrayGlacier | Paris
    | Shanghai | Cancun | Prague | Prague1 | Prague2 | Prague3 | Prague4 | Osaka | Osaka1

  type Forks = seq<(Hardfork, ForkCondition)>

  datatype Prague1Config = Prague1Config(time: U64, denominator: U128, minimumBaseFee: U64, polDistributor: Address)
  datatype Prague2Config = Prague2Config(time: U64, minimumBaseFee: U64)
  datatype TimeConfig = TimeConfig(time: U64)
  datatype Osaka1Config = Osaka1Config(time: U64, minimumBaseFee: U64, minimumBlobBaseFee: U64)

  datatype Genesis = Genesis(
    timestamp: U64,
    chainId: U64,
    preCancunBlocks: seq<Option<U64>>,
    shanghaiTime: Option<U64>,
    cancunTime: Option<U64>,
    pragueTime: Option<U64>,
    osakaTime: Option<U64>,
    terminalTotalDifficulty: Option<U256>,
    mergeNetsplitBlock: Option<U64>,
    bpoTimes: seq<Option<U64>>,
    hasBerachainSection: bool,
    prague1: Option<Prague1Config>,
    prague2: Option<Prague2Config>,
    prague3: Option<TimeConfig>,
    prague4: Option<TimeConfig>,
    osaka1: Option<Osaka1Config>)

  datatype GenesisError =
    | InvalidBerachainConfig
    | EthereumFallback
    | CancunNotAtGenesis
    | PreCancunForkNotAtGenesis
    | ShanghaiNotAtGenesis
    | PragueMissing
    | Prague1BeforePrague
    | Prague2BeforePrague1
    | Prague3BeforePrague2
    | Prague4BeforePrague3
    | Prague4WithoutPrague3
    | OsakaTooEarly
    | Osaka1BeforeOsaka
    | Osaka1WithoutOsaka
    | TotalDifficultyNotZero
    | MergeNotAtGenesis
    | BpoConfigured

  datatype ChainSpec = ChainSpec(
    genesisTime: U64,
    chainId: U64,
    hardforks: Forks,
    polContract: Address,
    denominator: U128,
    prague1MinimumBaseFee: U64,
    prague2MinimumBaseFee: U64,
    osaka1MinimumBaseFee: U64,
    osaka1MinimumBlobBaseFee: U64)

  /****** Fork activation ******/

  predicate ActiveAtTimestamp(c: ForkCondition, timestamp: U64) {
    c.Timestamp? && c.time <= timestamp
  }

  predicate TransitionsAtBlock(c: ForkCondition, number: U64) {
    c.Block? && c.number == number
  }

  /** The condition of a fork; a fork that is not listed never activates. */
  function Lookup(forks: Forks, fork: Hardfork): ForkCondition {
    if forks == [] then Never
    else
      var (name, condition) := forks[|forks| - 1];
      if name == fork then condition else Lookup(forks[..|forks| - 1], fork)
  }

  predicate IsActive(spec: ChainSpec, fork: Hardfork, timestamp: U64) {
    ActiveAtTimestamp(Lookup(spec.hardforks, fork), timestamp)
  }

  /** Prague3 is a window that Prague4 closes. */
  predicate IsPrague3Active(spec: ChainSpec, timestamp: U64) {
    IsActive(spec, Prague3, timestamp) && !IsActive(spec, Prague4, timestamp)
  }

  /****** From<Genesis> ******/

  predicate AllAbsentOrZero(blocks: seq<Option<U64>>) {
    forall i :: 0 <= i < |blocks| ==> blocks[i] == None || blocks[i] == Some(0)
  }

  predicate AllAbsent(times: seq<Option<U64>>) {
    forall i :: 0 <= i < |times| ==> times[i] == None
  }

  /** The fork that Osaka must not precede. */
  function OsakaPredecessor(g: Genesis): U64
    requires g.prague2.Some?
  {
    if g.prague4.Some? then g.prague4.value.time
    else if g.prague3.Some? then g.prague3.value.time
    else g.prague2.value.time
  }

  /** The checks of the `berachain` section and of `From<Genesis>`, in their order. A genesis
      without the section takes the plain Ethereum path, which is not modelled. */
  function Check(g: Genesis): Result<(), GenesisError> {
    if !g.hasBerachainSection then Err(EthereumFallback)
    else if g.prague1.Some? && (g.prague1.value.denominator == 0 || g.prague1.value.polDistributor == Zeros(20)) then
      Err(InvalidBerachainConfig)
    else if g.prague1.None? || g.prague2.None? then Err(InvalidBerachainConfig)
    else if g.prague2.value.time < g.prague1.value.time then Err(InvalidBerachainConfig)
    else if g.osaka1.Some? && (g.osaka1.value.minimumBaseFee == 0 || g.osaka1.value.minimumBlobBaseFee == 0) then
      Err(InvalidBerachainConfig)
    else if g.cancunTime != Some(0) then Err(CancunNotAtGenesis)
    else if !AllAbsentOrZero(g.preCancunBlocks) then Err(PreCancunForkNotAtGenesis)
    else if g.shanghaiTime.Some? && g.shanghaiTime.value != 0 then Err(ShanghaiNotAtGenesis)
    else if g.pragueTime.None? then Err(PragueMissing)
    else if g.prague1.value.time < g.pragueTime.value then Err(Prague1BeforePrague)
    else if g.prague2.value.time < g.prague1.value.time then Err(Prague2BeforePrague1)
    else if g.prague3.Some? && g.prague3.value.time < g.prague2.value.time then Err(Prague3BeforePrague2)
    else if g.prague4.Some? && g.prague3.None? then Err(Prague4WithoutPrague3)
    else if g.prague4.Some? && g.prague4.value.time < g.prague3.value.time then Err(Prague4BeforePrague3)
    else if g.osakaTime.Some? && g.osakaTime.value < OsakaPredecessor(g) then Err(OsakaTooEarly)
    else if g.osaka1.Some? && g.osakaTime.None? then Err(Osaka1WithoutOsaka)
    else if g.osaka1.Some? && g.osaka1.value.time < g.osakaTime.value then Err(Osaka1BeforeOsaka)
    else if g.terminalTotalDifficulty != Some(0) then Err(TotalDifficultyNotZero)
    else if g.mergeNetsplitBlock.Some? && g.mergeNetsplitBlock.value != 0 then Err(MergeNotAtGenesis)
    else if !AllAbsent(g.bpoTimes) then Err(BpoConfigured)
    else Ok(())
  }

  const BLOCK_FORKS: seq<Hardfork> := [
    Frontier, Homestead, Dao, Tangerine, SpuriousDragon, Byzantium, Constantinople, Petersburg,
    Istanbul, MuirGlacier, Berlin, London, ArrowGlacier, GrayGlacier, Paris]

  /** Forks that are active from block 0 on. */
  function AtBlockZero(names: seq<Hardfork>): (forks: Forks)
    ensures |forks| == |names|
    ensures forall i :: 0 <= i < |forks| ==> forks[i] == (names[i], Block(0))
  {
    if names == [] then [] else AtBlockZero(names[..|names| - 1]) + [(names[|names| - 1], Block(0))]
  }

  function GenesisForks(): Forks {
    AtBlockZero(BLOCK_FORKS) + Scheduled(Shanghai, Some(0)) + Scheduled(Cancun, Some(0))
  }

  function Scheduled(fork: Hardfork, time: Option<U64>): Forks {
    if time.Some? then [(fork, Timestamp(time.value))] else []
  }

  function TimeOf(c: Option<TimeConfig>): Option<U64> {
    if c.Some? then Some(c.value.time) else None
  }

  function Osaka1Time(g: Genesis): Option<U64> {
    if g.osaka1.Some? then Some(g.osaka1.value.time) else None
  }

  /** The fork list, in the order in which the forks are pushed. */
  function HardforkList(g: Genesis): Forks
    requires g.prague1.Some? && g.prague2.Some?
  {
    GenesisForks()
    + Scheduled(Prague, g.pragueTime)
    + Scheduled(Prague1, Some(g.prague1.value.time))
    + Scheduled(Prague2, Some(g.prague2.value.time))
    + Scheduled(Prague3, TimeOf(g.prague3))
    + Scheduled(Prague4, TimeOf(g.prague4))
    + Scheduled(Osaka, g.osakaTime)
    + Scheduled(Osaka1, Osaka1Time(g))
  }

  method PushScheduled(hardforks: Forks, fork: Hardfork, time: Option<U64>) returns (pushed: Forks)
    ensures pushed == hardforks + Scheduled(fork, time)
  {
    pushed := hardforks;
    if time.Some? {
      pushed := pushed + [(fork, Timestamp(time.value))];
    }
  }

  /** Pushing the forks one after another puts every fork under the condition the genesis gives it. */
  method BuildHardforks(g: Genesis) returns (hardforks: Forks)
    requires g.prague1.Some? && g.prague2.Some?
    ensures hardforks == HardforkList(g)
    ensures forall fork :: Lookup(hardforks, fork) == Configured(g, fork)
  {
    hide GenesisForks, Scheduled, Lookup, Configured;
    hardforks := GenesisForks();
    hardforks := PushScheduled(hardforks, Prague, g.pragueTime);
    hardforks := PushScheduled(hardforks, Prague1, Some(g.prague1.value.time));
    hardforks := PushScheduled(hardforks, Prague2, Some(g.prague2.value.time));
    hardforks := PushScheduled(hardforks, Prague3, TimeOf(g.prague3));
    hardforks := PushScheduled(hardforks, Prague4, TimeOf(g.prague4));
    hardforks := PushScheduled(hardforks, Osaka, g.osakaTime);
    hardforks := PushScheduled(hardforks, Osaka1, Osaka1Time(g));
    hide HardforkList;
    forall fork ensures Lookup(hardforks, fork) == Configured(g, fork) {
      LookupConfigured(g, fork);
    }
  }

  function FromGenesis(g: Genesis): Result<ChainSpec, GenesisError> {
    var _ :- Check(g);
    Ok(ChainSpec(
         genesisTime := g.timestamp,
         chainId := g.chainId,
         hardforks := HardforkList(g),
         polContract := g.prague1.value.polDistributor,
         denominator := g.prague1.value.denominator,
         prague1MinimumBaseFee := g.prague1.value.minimumBaseFee,
         prague2MinimumBaseFee := g.prague2.value.minimumBaseFee,
         osaka1MinimumBaseFee := if g.osaka1.Some? then g.osaka1.value.minimumBaseFee else 0,
         osaka1MinimumBlobBaseFee := if g.osaka1.Some? then g.osaka1.value.minimumBlobBaseFee else 0))
  }

  /** A specification that some genesis produces. */
  ghost predicate Accepted(spec: ChainSpec) {
    exists g :: FromGenesis(g) == Ok(spec)
  }

  /****** What acceptance guarantees ******/

  function ConditionAt(time: Option<U64>): ForkCondition {
    if time.Some? then Timestamp(time.value) else Never
  }

  lemma LookupScheduled(forks: Forks, fork: Hardfork, time: Option<U64>, wanted: Hardfork)
    ensures Lookup(forks + Scheduled(fork, time), wanted)
         == if fork == wanted && time.Some? then Timestamp(time.value) else Lookup(forks, wanted)
  {
    if time.Some? {
      var all := forks + Scheduled(fork, time);
      assert all[..|all| - 1] == forks;
    } else {
      assert forks + Scheduled(fork, time) == forks;
    }
  }

  lemma {:induction false} LookupBlockFork(names: seq<Hardfork>, wanted: Hardfork)
    ensures Lookup(AtBlockZero(names), wanted) == if wanted in names then Block(0) else Never
  {
    if names != [] {
      var front := names[..|names| - 1];
      assert names == front + [names[|names| - 1]];
      LookupBlockFork(front, wanted);
      assert AtBlockZero(names)[..|names| - 1] == AtBlockZero(front);
    }
  }

  lemma LookupGenesis(wanted: Hardfork)
    ensures Lookup(GenesisForks(), wanted)
         == if wanted == Shanghai || wanted == Cancun then Timestamp(0)
            else if wanted in BLOCK_FORKS then Block(0) else Never
    ensures wanted in BLOCK_FORKS <==>
            !(wanted.Shanghai? || wanted.Cancun? || wanted.Prague? || wanted.Prague1? || wanted.Prague2?
              || wanted.Prague3? || wanted.Prague4? || wanted.Osaka? || wanted.Osaka1?)
  {
    hide Lookup;
    var blocks := AtBlockZero(BLOCK_FORKS);
    LookupBlockFork(BLOCK_FORKS, wanted);
    LookupScheduled(blocks, Shanghai, Some(0), wanted);
    LookupScheduled(blocks + Scheduled(Shanghai, Some(0)), Cancun, Some(0), wanted);
  }

  function BeforePrague(fork: Hardfork): ForkCondition {
    match fork
    case Shanghai => Timestamp(0)
    case Cancun => Timestamp(0)
    case Prague | Prague1 | Prague2 | Prague3 | Prague4 | Osaka | Osaka1 => Never
    case _ => Block(0)
  }

  /** The condition a genesis gives a fork. */
  function Configured(g: Genesis, fork: Hardfork): ForkCondition {
    match fork
    case Prague => ConditionAt(g.pragueTime)
    case Prague1 => if g.prague1.Some? then Timestamp(g.prague1.value.time) else Never
    case Prague2 => if g.prague2.Some? then Timestamp(g.prague2.value.time) else Never
    case Prague3 => ConditionAt(TimeOf(g.prague3))
    case Prague4 => ConditionAt(TimeOf(g.prague4))
    case Osaka => ConditionAt(g.osakaTime)
    case Osaka1 => ConditionAt(Osaka1Time(g))
    case _ => BeforePrague(fork)
  }

  lemma GenesisIsBeforePrague(wanted: Hardfork)
    ensures Lookup(GenesisForks(), wanted) == BeforePrague(wanted)
  {
    hide Lookup, GenesisForks;
    LookupGenesis(wanted);
  }

  /** The list up to Prague2, all of which every accepted genesis schedules. */
  function EarlyForks(g: Genesis): Forks
    requires g.prague1.Some? && g.prague2.Some?
  {
    GenesisForks()
    + Scheduled(Prague, g.pragueTime)
    + Scheduled(Prague1, Some(g.prague1.value.time))
    + Scheduled(Prague2, Some(g.prague2.value.time))
  }

  lemma LookupEarly(g: Genesis, wanted: Hardfork)
    requires g.prague1.Some? && g.prague2.Some?
    ensures Lookup(EarlyForks(g), wanted)
         == if wanted.Prague? || wanted.Prague1? || wanted.Prague2? then Configured(g, wanted) else BeforePrague(wanted)
  {
    hide Lookup, GenesisForks, Scheduled;
    var f0 := GenesisForks();
    var f1 := f0 + Scheduled(Prague, g.pragueTime);
    var f2 := f1 + Scheduled(Prague1, Some(g.prague1.value.time));
    GenesisIsBeforePrague(wanted);
    LookupScheduled(f0, Prague, g.pragueTime, wanted);
    LookupScheduled(f1, Prague1, Some(g.prague1.value.time), wanted);
    LookupScheduled(f2, Prague2, Some(g.prague2.value.time), wanted);
  }

  /** Every fork is found in the list under the condition the genesis gives it. */
  lemma LookupConfigured(g: Genesis, wanted: Hardfork)
    requires g.prague1.Some? && g.prague2.Some?
    ensures Lookup(HardforkList(g), wanted) == Configured(g, wanted)
  {
    hide Lookup, GenesisForks, Scheduled;
    var f3 := EarlyForks(g);
    var f4 := f3 + Scheduled(Prague3, TimeOf(g.prague3));
    var f5 := f4 + Scheduled(Prague4, TimeOf(g.prague4));
    var f6 := f5 + Scheduled(Osaka, g.osakaTime);
    LookupEarly(g, wanted);
    LookupScheduled(f3, Prague3, TimeOf(g.prague3), wanted);
    LookupScheduled(f4, Prague4, TimeOf(g.prague4), wanted);
    LookupScheduled(f5, Osaka, g.osakaTime, wanted);
    LookupScheduled(f6, Osaka1, Osaka1Time(g), wanted);
  }

  predicate ConfiguredActive(g: Genesis, fork: Hardfork, t: U64) {
    ActiveAtTimestamp(Configured(g, fork), t)
  }

  /** The order that the checks enforce on the scheduled times. */
  predicate Ordered(g: Genesis) {
    && g.pragueTime.Some? && g.prague1.Some? && g.prague2.Some?
    && g.pragueTime.value <= g.prague1.value.time <= g.prague2.value.time
    && (g.prague3.Some? ==> g.prague2.value.time <= g.prague3.value.time)
    && (g.prague4.Some? ==> g.prague3.Some? && g.prague3.value.time <= g.prague4.value.time)
    && (g.osakaTime.Some? ==> OsakaPredecessor(g) <= g.osakaTime.value)
    && (g.osaka1.Some? ==> g.osakaTime.Some? && g.osakaTime.value <= g.osaka1.value.time)
  }

  lemma CheckedIsOrdered(g: Genesis)
    requires Check(g).Ok?
    ensures Ordered(g) && g.prague1.value.denominator > 0
  {
    hide AllAbsent, AllAbsentOrZero;
  }

  /** The ordering checks, as implications between activations at any timestamp. */
  lemma ConfiguredActivation(g: Genesis, t: U64)
    requires Ordered(g)
    ensures ConfiguredActive(g, Shanghai, t) && ConfiguredActive(g, Cancun, t)
    ensures ConfiguredActive(g, Prague1, t) ==> ConfiguredActive(g, Prague, t)
    ensures ConfiguredActive(g, Prague2, t) ==> ConfiguredActive(g, Prague1, t)
    ensures ConfiguredActive(g, Prague3, t) ==> ConfiguredActive(g, Prague2, t)
    ensures ConfiguredActive(g, Prague4, t) ==> ConfiguredActive(g, Prague3, t)
    ensures ConfiguredActive(g, Osaka, t) ==> ConfiguredActive(g, Prague2, t)
    ensures ConfiguredActive(g, Osaka1, t) ==> ConfiguredActive(g, Osaka, t)
  {
  }

  /** Under an accepted genesis activation follows the fork order at every timestamp, Shanghai and
      Cancun are always active, and London and the DAO fork transition at block 0 only. */
  lemma AcceptedActivation(spec: ChainSpec, t: U64)
    requires Accepted(spec)
    ensures IsActive(spec, Shanghai, t) && IsActive(spec, Cancun, t)
    ensures IsActive(spec, Prague1, t) ==> IsActive(spec, Prague, t)
    ensures IsActive(spec, Prague2, t) ==> IsActive(spec, Prague1, t)
    ensures IsActive(spec, Prague3, t) ==> IsActive(spec, Prague2, t)
    ensures IsActive(spec, Prague4, t) ==> IsActive(spec, Prague3, t)
    ensures IsActive(spec, Osaka, t) ==> IsActive(spec, Prague2, t)
    ensures IsActive(spec, Osaka1, t) ==> IsActive(spec, Osaka, t)
    ensures Lookup(spec.hardforks, London) == Block(0) == Lookup(spec.hardforks, Dao)
    ensures spec.denominator > 0
  {
    hide Lookup, HardforkList, Configured;
    var g :| FromGenesis(g) == Ok(spec);
    CheckedIsOrdered(g);
    hide Check, Ordered;
    ConfiguredActivation(g, t);
    LookupConfigured(g, Shanghai);
    LookupConfigured(g, Cancun);
    LookupConfigured(g, Prague);
    LookupConfigured(g, Prague1);
    LookupConfigured(g, Prague2);
    LookupConfigured(g, Prague3);
    LookupConfigured(g, Prague4);
    LookupConfigured(g, Osaka);
    LookupConfigured(g, Osaka1);
    LookupBlockForks(g);
  }

  lemma LookupBlockForks(g: Genesis)
    requires g.prague1.Some? && g.prague2.Some?
    ensures Lookup(HardforkList(g), London) == Block(0) == Lookup(HardforkList(g), Dao)
  {
    hide Lookup, HardforkList;
    LookupConfigured(g, London);
    LookupConfigured(g, Dao);
  }
}
