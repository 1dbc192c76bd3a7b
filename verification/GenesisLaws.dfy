/**
 What a genesis configuration decides, stated in its own numbers: which configurations are accepted,
 when each fork is active, and what denominator, floors, blob parameters and rule set follow
 (src/chainspec/mod.rs, src/hardforks/mod.rs, src/node/evm/config.rs).
 */
module GenesisLaws {
  import opened Base
  import opened BaseFee
  import opened ChainSpec
  import opened EvmConfig
  import opened Header
  import opened World

  /****** Acceptance ******/

  /** A block fork is unset or at block 0. */
  predicate AtGenesis(block: Option<U64>) {
    block.None? || block.value == 0
  }

  predicate Prague1Valid(c: Prague1Config) {
    c.denominator > 0 && c.polDistributor != Zeros(20)
  }

  /** The fork times in order, each fork only with those before it. */
  predicate TimesOrdered(g: Genesis)
    requires g.pragueTime.Some? && g.prague1.Some? && g.prague2.Some?
  {
    && g.pragueTime.value <= g.prague1.value.time <= g.prague2.value.time
    && (g.prague3.Some? ==> g.prague2.value.time <= g.prague3.value.time)
    && (g.prague4.Some? ==> g.prague3.Some? && g.prague3.value.time <= g.prague4.value.time)
    && (g.osakaTime.Some? ==>
          && g.prague2.value.time <= g.osakaTime.value
          && (g.prague3.Some? ==> g.prague3.value.time <= g.osakaTime.value)
          && (g.prague4.Some? ==> g.prague4.value.time <= g.osakaTime.value))
    && (g.osaka1.Some? ==> g.osakaTime.Some? && g.osakaTime.value <= g.osaka1.value.time)
  }

  /** A genesis is accepted if and only if the Berachain section is there and valid, the early forks are
      at genesis, the fork times are in order, the chain starts merged, and no blob-only fork is set. */
  lemma CheckExact(g: Genesis)
    ensures Check(g).Ok? <==>
            && g.hasBerachainSection
            && g.pragueTime.Some? && g.prague1.Some? && g.prague2.Some?
            && Prague1Valid(g.prague1.value)
            && (g.osaka1.Some? ==> g.osaka1.value.minimumBaseFee > 0 && g.osaka1.value.minimumBlobBaseFee > 0)
            && g.cancunTime == Some(0) && AtGenesis(g.shanghaiTime)
            && (forall i :: 0 <= i < |g.preCancunBlocks| ==> AtGenesis(g.preCancunBlocks[i]))
            && TimesOrdered(g)
            && g.terminalTotalDifficulty == Some(0) && AtGenesis(g.mergeNetsplitBlock)
            && (forall i :: 0 <= i < |g.bpoTimes| ==> g.bpoTimes[i].None?)
  {
    hide Zeros;
    assert AllAbsentOrZero(g.preCancunBlocks) <==>
           forall i :: 0 <= i < |g.preCancunBlocks| ==> AtGenesis(g.preCancunBlocks[i]);
  }

  /** What an accepted genesis hands to the specification. */
  lemma SpecCarriesGenesis(g: Genesis, spec: ChainSpec)
    requires FromGenesis(g) == Ok(spec)
    ensures Ordered(g) && g.prague1.value.denominator > 0
    ensures spec.hardforks == HardforkList(g)
    ensures spec.genesisTime == g.timestamp && spec.chainId == g.chainId
    ensures spec.denominator == g.prague1.value.denominator && spec.polContract == g.prague1.value.polDistributor
    ensures spec.prague1MinimumBaseFee == g.prague1.value.minimumBaseFee
    ensures spec.prague2MinimumBaseFee == g.prague2.value.minimumBaseFee
    ensures g.osaka1.Some? ==>
              spec.osaka1MinimumBaseFee == g.osaka1.value.minimumBaseFee
              && spec.osaka1MinimumBlobBaseFee == g.osaka1.value.minimumBlobBaseFee
  {
    CheckedIsOrdered(g);
    hide Check, HardforkList;
  }

  /****** Activation ******/

  /** A fork is active from its configured time on, and never without one. */
  predicate From(time: Option<U64>, t: U64) {
    time.Some? && time.value <= t
  }

  predicate Prague1From(g: Genesis, t: U64) {
    g.prague1.Some? && g.prague1.value.time <= t
  }

  predicate Prague2From(g: Genesis, t: U64) {
    g.prague2.Some? && g.prague2.value.time <= t
  }

  predicate Osaka1From(g: Genesis, t: U64) {
    g.osaka1.Some? && g.osaka1.value.time <= t
  }

  lemma ActiveFrom(g: Genesis, spec: ChainSpec, fork: Hardfork, t: U64)
    requires FromGenesis(g) == Ok(spec)
    ensures IsActive(spec, fork, t) <==> Configured(g, fork).Timestamp? && Configured(g, fork).time <= t
  {
    SpecCarriesGenesis(g, spec);
    hide FromGenesis, HardforkList, Lookup, Configured;
    LookupConfigured(g, fork);
  }

  lemma PragueActivation(g: Genesis, spec: ChainSpec, t: U64)
    requires FromGenesis(g) == Ok(spec)
    ensures IsActive(spec, Shanghai, t) && IsActive(spec, Cancun, t)
    ensures IsActive(spec, Prague, t) <==> From(g.pragueTime, t)
    ensures IsActive(spec, Prague1, t) <==> Prague1From(g, t)
    ensures IsActive(spec, Prague2, t) <==> Prague2From(g, t)
  {
    hide FromGenesis, IsActive;
    ActiveFrom(g, spec, Shanghai, t);
    ActiveFrom(g, spec, Cancun, t);
    ActiveFrom(g, spec, Prague, t);
    ActiveFrom(g, spec, Prague1, t);
    ActiveFrom(g, spec, Prague2, t);
  }

  lemma LateActivation(g: Genesis, spec: ChainSpec, t: U64)
    requires FromGenesis(g) == Ok(spec)
    ensures IsActive(spec, Osaka, t) <==> From(g.osakaTime, t)
    ensures IsActive(spec, Osaka1, t) <==> Osaka1From(g, t)
    ensures IsPrague3Active(spec, t) <==>
            g.prague3.Some? && g.prague3.value.time <= t && !(g.prague4.Some? && g.prague4.value.time <= t)
  {
    hide FromGenesis, IsActive;
    ActiveFrom(g, spec, Prague3, t);
    ActiveFrom(g, spec, Prague4, t);
    ActiveFrom(g, spec, Osaka, t);
    ActiveFrom(g, spec, Osaka1, t);
  }

  /** Each timestamp fork is active exactly from the time that the genesis gives it, Shanghai and Cancun
      always, and Prague3 exactly from its time until Prague4's. */
  lemma ActivationExact(g: Genesis, spec: ChainSpec, t: U64)
    requires FromGenesis(g) == Ok(spec)
    ensures IsActive(spec, Shanghai, t) && IsActive(spec, Cancun, t)
    ensures IsActive(spec, Prague, t) <==> From(g.pragueTime, t)
    ensures IsActive(spec, Prague1, t) <==> Prague1From(g, t)
    ensures IsActive(spec, Prague2, t) <==> Prague2From(g, t)
    ensures IsActive(spec, Osaka, t) <==> From(g.osakaTime, t)
    ensures IsActive(spec, Osaka1, t) <==> Osaka1From(g, t)
    ensures IsPrague3Active(spec, t) <==>
            g.prague3.Some? && g.prague3.value.time <= t && !(g.prague4.Some? && g.prague4.value.time <= t)
  {
    hide FromGenesis, IsActive, IsPrague3Active, From, Prague1From, Prague2From, Osaka1From;
    PragueActivation(g, spec, t);
    LateActivation(g, spec, t);
  }

  /****** The base fee in the genesis's numbers ******/

  /** The denominator of the genesis from Prague1 on, Ethereum's 8 before. */
  function ConfiguredDenominator(g: Genesis, t: U64): U128 {
    if Prague1From(g, t) then g.prague1.value.denominator else 8
  }

  /** The floor of the latest of Osaka1, Prague2 and Prague1 that has started, or none. */
  function ConfiguredFloor(g: Genesis, t: U64): U64 {
    if Osaka1From(g, t) then g.osaka1.value.minimumBaseFee
    else if Prague2From(g, t) then g.prague2.value.minimumBaseFee
    else if Prague1From(g, t) then g.prague1.value.minimumBaseFee
    else 0
  }

  lemma ParametersExact(g: Genesis, spec: ChainSpec, t: U64)
    requires FromGenesis(g) == Ok(spec)
    ensures DenominatorAt(spec, t) == ConfiguredDenominator(g, t) > 0
    ensures FloorAt(spec, t) == ConfiguredFloor(g, t)
  {
    hide IsActive;
    ActivationExact(g, spec, t);
    SpecCarriesGenesis(g, spec);
    hide FromGenesis, Prague2From;
    assert Prague2From(g, t) ==> Prague1From(g, t) by { Prague2AfterPrague1(g, t); }
  }

  lemma Prague2AfterPrague1(g: Genesis, t: U64)
    requires Ordered(g)
    ensures Prague2From(g, t) ==> Prague1From(g, t)
  {
  }

  /** The change is the rounded-down quotient of EIP-1559. */
  lemma ChangeIsQuotient(b: nat, distance: nat, target: nat, k: nat)
    requires target > 0 && k > 0
    ensures var c := Change(b, distance, target, k);
            c * (target * k) <= b * distance < (c + 1) * (target * k)
  {
    DivisorPositive(target, k);
    ProductNonNegative(b, distance);
  }

  lemma RawExact(used: U64, gasLimit: U64, b: U64, k: U128)
    requires Divisible(used, gasLimit, k)
    ensures var half, raw := gasLimit / 2, RawBaseFee(used, gasLimit, b, k);
            && (used == half ==> raw == b)
            && (used < half ==> raw == b - Change(b, half - used, half, k))
            && (used > half && b + Max(1, Change(b, used - half, half, k)) < TWO_64 ==>
                  raw == b + Max(1, Change(b, used - half, half, k)))
  {
    hide Change, Share, RawBaseFee;
    if used <= GasTarget(gasLimit) || StepFits(used, gasLimit, b, k) {
      RawFitting(used, gasLimit, b, k);
    }
  }

  /** One block's rule, in the numbers of the genesis: at half the gas limit the fee stays; above, it
      rises by at least 1, and below it falls, by the rounded-down fee times the distance to half
      the limit over half the limit times the denominator; and it never ends below the floor. */
  lemma NextFeeExact(g: Genesis, spec: ChainSpec, parent: BerachainHeader)
    requires FromGenesis(g) == Ok(spec) && parent.baseFeePerGas.Some? && DivisibleHeader(spec, parent)
    ensures NextBlockBaseFee(spec, parent).Some?
    ensures var next, b := NextBlockBaseFee(spec, parent).value, parent.baseFeePerGas.value;
            var k, floor := ConfiguredDenominator(g, parent.timestamp), ConfiguredFloor(g, parent.timestamp);
            var half, used := parent.gasLimit / 2, parent.gasUsed;
            && (used == half ==> next == Max(b, floor))
            && (used < half ==> next == Max(b - Change(b, half - used, half, k), floor))
            && (used > half && b + Max(1, Change(b, used - half, half, k)) < TWO_64 ==>
                  next == Max(b + Max(1, Change(b, used - half, half, k)), floor))
  {
    ParametersExact(g, spec, parent.timestamp);
    hide FromGenesis, Change, IsActive, DenominatorAt, FloorAt, ConfiguredDenominator, ConfiguredFloor, RawBaseFee;
    RawExact(parent.gasUsed, parent.gasLimit, parent.baseFeePerGas.value, DenominatorAt(spec, parent.timestamp));
  }

  /** A full block on an even limit raises the fee by exactly max(1, fee / denominator), and an empty one
      lowers it by exactly fee / denominator, before the floor. */
  lemma FullAndEmptyBlocks(g: Genesis, spec: ChainSpec, parent: BerachainHeader)
    requires FromGenesis(g) == Ok(spec) && parent.baseFeePerGas.Some? && DivisibleHeader(spec, parent)
    requires parent.gasLimit % 2 == 0 && parent.gasLimit > 0
    ensures var next, b := NextBlockBaseFee(spec, parent).value, parent.baseFeePerGas.value;
            var k, floor := ConfiguredDenominator(g, parent.timestamp), ConfiguredFloor(g, parent.timestamp);
            && k > 0
            && (parent.gasUsed == 0 ==> next == Max(b - b / k, floor))
            && (parent.gasUsed == parent.gasLimit && b + Max(1, b / k) < TWO_64 ==> next == Max(b + Max(1, b / k), floor))
  {
    ParametersExact(g, spec, parent.timestamp);
    NextFeeExact(g, spec, parent);
    hide FromGenesis, IsActive, DenominatorAt, FloorAt, ConfiguredDenominator, ConfiguredFloor, NextBlockBaseFee, Change;
    FullChange(parent.baseFeePerGas.value, parent.gasLimit / 2, ConfiguredDenominator(g, parent.timestamp));
  }

  /****** The environment of the next block, in the genesis's numbers ******/

  /** The latest Ethereum rule set that has started; Cancun's is there from the beginning. */
  function ConfiguredRules(g: Genesis, t: U64): SpecId {
    if From(g.osakaTime, t) then OsakaSpec else if From(g.pragueTime, t) then PragueSpec else CancunSpec
  }

  /** The scheduled blob parameters, or those of the rule set; from Osaka1 on with the minimum blob fee
      of the genesis. */
  function ConfiguredBlobs(w: World, g: Genesis, t: U64): BlobParams {
    var params := if w.scheduledBlobParams(t).Some? then w.scheduledBlobParams(t).value
                  else w.defaultBlobParams(ConfiguredRules(g, t));
    if Osaka1From(g, t) then params.(minBlobFee := g.osaka1.value.minimumBlobBaseFee) else params
  }

  lemma RulesExact(w: World, g: Genesis, spec: ChainSpec, t: U64, number: U64)
    requires FromGenesis(g) == Ok(spec)
    ensures RevmSpec(spec, t, number) == ConfiguredRules(g, t)
    ensures BlobParamsAt(w, spec, t) == Some(ConfiguredBlobs(w, g, t))
  {
    hide IsActive;
    ActivationExact(g, spec, t);
    SpecCarriesGenesis(g, spec);
    hide FromGenesis;
  }

  /** The excess blob gas from the parent's own excess, use and base fee, or 0 without them. */
  function ConfiguredExcess(w: World, g: Genesis, parent: BerachainHeader, t: U64): U64 {
    if parent.excessBlobGas.Some? && parent.blobGasUsed.Some? && parent.baseFeePerGas.Some? then
      w.nextExcessBlobGas(ConfiguredBlobs(w, g, t), parent.excessBlobGas.value, parent.blobGasUsed.value,
                          parent.baseFeePerGas.value)
    else 0
  }

  /** Every field of the next configuration. */
  lemma NextConfigExact(w: World, g: Genesis, spec: ChainSpec, parent: BerachainHeader, attrs: NextBlockAttributes)
    requires FromGenesis(g) == Ok(spec) && DivisibleHeader(spec, parent)
    ensures var osaka := From(g.osakaTime, attrs.timestamp);
            NextEvmEnv(w, spec, parent, attrs).cfg
            == CfgEnv(
                 chainId := g.chainId,
                 spec := ConfiguredRules(g, attrs.timestamp),
                 maxBlobsPerTx := Some(ConfiguredBlobs(w, g, attrs.timestamp).maxBlobsPerTx),
                 txGasLimitCap := if osaka then Some(16_777_216) else None,
                 codeSizeLimit := if osaka then Some(32_768) else None,
                 initcodeSizeLimit := if osaka then Some(65_536) else None)
  {
    RulesExact(w, g, spec, attrs.timestamp, ChildNumber(parent));
    SpecCarriesGenesis(g, spec);
    LateActivation(g, spec, attrs.timestamp);
    hide FromGenesis, IsActive, LondonBoundary, BlobParamsAt, RevmSpec, ConfiguredBlobs, ConfiguredRules, NextBlockBaseFee, From,
      NextExcessBlobGas, HardforkList, Ordered, IsPrague3Active;
  }

  lemma NextBlobExact(w: World, g: Genesis, spec: ChainSpec, parent: BerachainHeader, t: U64)
    requires FromGenesis(g) == Ok(spec)
    ensures NextExcessBlobGas(w, parent, BlobParamsAt(w, spec, t)).GetOr(0) == ConfiguredExcess(w, g, parent, t)
  {
    RulesExact(w, g, spec, t, 0);
    hide FromGenesis, BlobParamsAt, ConfiguredBlobs, RevmSpec, ConfiguredRules;
  }

  /** Every field of the next block environment. */
  lemma NextBlockExact(w: World, g: Genesis, spec: ChainSpec, parent: BerachainHeader, attrs: NextBlockAttributes)
    requires FromGenesis(g) == Ok(spec) && DivisibleHeader(spec, parent) && parent.number < TWO_64 - 1
    ensures var excess := ConfiguredExcess(w, g, parent, attrs.timestamp);
            NextEvmEnv(w, spec, parent, attrs).blockEnv
            == BlockEnv(
                 number := parent.number + 1,
                 beneficiary := attrs.suggestedFeeRecipient,
                 timestamp := attrs.timestamp,
                 difficulty := 0,
                 prevrandao := Some(attrs.prevRandao),
                 gasLimit := attrs.gasLimit,
                 baseFee := NextBlockBaseFee(spec, parent).GetOr(0),
                 blob := Some(BlobExcess(excess, w.blobFee(ConfiguredBlobs(w, g, attrs.timestamp), excess))))
  {
    hide NextEvmEnv, IsActive, Accepted, LondonBoundary, BlobParamsAt, RevmSpec, ConfiguredBlobs, ConfiguredRules, NextBlockBaseFee,
      NextExcessBlobGas, ConfiguredExcess, DivisibleHeader;
    RulesExact(w, g, spec, attrs.timestamp, 0);
    NextBlobExact(w, g, spec, parent, attrs.timestamp);
    AcceptedByGenesis(g, spec);
    hide FromGenesis;
    NextBlockFields(w, spec, parent, attrs);
  }

  lemma AcceptedByGenesis(g: Genesis, spec: ChainSpec)
    requires FromGenesis(g) == Ok(spec)
    ensures Accepted(spec)
  {
    hide FromGenesis;
  }
}
