/** The pool's floor on the effective tip, for single transactions and batches (src/pool/min_priority_fee.rs). */
module MinPriorityFee {
  import opened Base
  import opened BaseFee
  import opened ChainSpec
  import opened EvmConfig
  import opened Header
  import opened World

  datatype Origin = Local | External | Private

  /** `--txpool.no-locals` and `--txpool.locals` */
  datatype LocalConfig = LocalConfig(noExemptions: bool, addresses: set<Address>)

  predicate IsLocal(config: LocalConfig, origin: Origin, sender: Address) {
    !config.noExemptions && (origin.Local? || sender in config.addresses)
  }

  /** Exemptions can be switched off; otherwise a transaction is local by origin or by its sender. */
  lemma LocalExact(config: LocalConfig, origin: Origin, sender: Address)
    ensures config.noExemptions ==> !IsLocal(config, origin, sender)
    ensures !config.noExemptions && origin == Local ==> IsLocal(config, origin, sender)
    ensures !config.noExemptions && origin != Local ==> (IsLocal(config, origin, sender) <==> sender in config.addresses)
  {
  }

  /** What the wrapped validator says; its structure is foreign. */
  type Verdict(!new, ==)

  type Offer = (Origin, EthTx)

  datatype Outcome = BelowMinimum(tx: EthTx, minimum: U128) | Inner(verdict: Verdict)

  datatype Panic = OutOfOutcomes

  /****** The floor ******/

  predicate IsBelowMinimum(minimum: U128, locals: LocalConfig, baseFee: U64, offer: Offer) {
    minimum > 0 && !IsLocal(locals, offer.0, offer.1.sender) && EffectiveTip(offer.1, baseFee).GetOr(0) < minimum
  }

  /** The floor on a remote transaction, as conditions on its two fee fields. */
  lemma FloorExact(minimum: U128, locals: LocalConfig, baseFee: U64, offer: Offer)
    requires minimum > 0 && !IsLocal(locals, offer.0, offer.1.sender)
    ensures !IsBelowMinimum(minimum, locals, baseFee, offer) <==>
            && offer.1.maxFeePerGas >= baseFee + minimum
            && (offer.1.maxPriorityFeePerGas.None? || offer.1.maxPriorityFeePerGas.value >= minimum)
  {
  }

  /** An admitted remote transaction pays the floor under every base fee up to the one it was admitted
      at. */
  lemma AdmittedPays(minimum: U128, locals: LocalConfig, baseFee: U64, later: U64, offer: Offer)
    requires minimum > 0 && !IsLocal(locals, offer.0, offer.1.sender)
    requires !IsBelowMinimum(minimum, locals, baseFee, offer) && later <= baseFee
    ensures EffectiveTip(offer.1, later).Some? && EffectiveTip(offer.1, later).value >= minimum
  {
    FloorExact(minimum, locals, baseFee, offer);
    FloorExact(minimum, locals, later, offer);
  }

  /****** Single and batch ******/

  function Validate(inner: Offer -> Verdict, minimum: U128, locals: LocalConfig, baseFee: U64, offer: Offer): Outcome {
    if IsBelowMinimum(minimum, locals, baseFee, offer) then BelowMinimum(offer.1, minimum) else Inner(inner(offer))
  }

  /** The offers that reach the wrapped validator. */
  function Passed(minimum: U128, locals: LocalConfig, baseFee: U64, offers: seq<Offer>): seq<Offer> {
    if offers == [] then []
    else
      var last := offers[|offers| - 1];
      Passed(minimum, locals, baseFee, offers[..|offers| - 1])
      + if IsBelowMinimum(minimum, locals, baseFee, last) then [] else [last]
  }

  /** A refusal fills its slot; an offer that passes leaves it empty. */
  function SlotFor(minimum: U128, locals: LocalConfig, baseFee: U64, offer: Offer): Option<Outcome> {
    if IsBelowMinimum(minimum, locals, baseFee, offer) then Some(BelowMinimum(offer.1, minimum)) else None
  }

  function Slots(minimum: U128, locals: LocalConfig, baseFee: U64, offers: seq<Offer>): (slots: seq<Option<Outcome>>)
    ensures |slots| == |offers|
    ensures forall i :: 0 <= i < |offers| ==> slots[i] == SlotFor(minimum, locals, baseFee, offers[i])
  {
    if offers == [] then []
    else
      Slots(minimum, locals, baseFee, offers[..|offers| - 1]) + [SlotFor(minimum, locals, baseFee, offers[|offers| - 1])]
  }

  function EmptySlots<T>(slots: seq<Option<T>>): nat {
    if slots == [] then 0 else EmptySlots(slots[..|slots| - 1]) + if slots[|slots| - 1].None? then 1 else 0
  }

  lemma {:induction false} EmptySlotsGrow<T>(slots: seq<Option<T>>, i: nat)
    requires i <= |slots|
    ensures EmptySlots(slots[..i]) <= EmptySlots(slots)
  {
    if i < |slots| {
      assert slots[..|slots| - 1][..i] == slots[..i];
      EmptySlotsGrow(slots[..|slots| - 1], i);
    } else {
      assert slots[..i] == slots;
    }
  }

  lemma {:induction false} SlotsCount(minimum: U128, locals: LocalConfig, baseFee: U64, offers: seq<Offer>)
    ensures EmptySlots(Slots(minimum, locals, baseFee, offers)) == |Passed(minimum, locals, baseFee, offers)|
  {
    hide IsBelowMinimum;
    if offers != [] {
      var slots := Slots(minimum, locals, baseFee, offers);
      SlotsCount(minimum, locals, baseFee, offers[..|offers| - 1]);
      assert slots[..|slots| - 1] == Slots(minimum, locals, baseFee, offers[..|offers| - 1]);
    }
  }

  /** An empty slot is matched with its own offer among those that passed. */
  lemma {:induction false} SlotsMatch(minimum: U128, locals: LocalConfig, baseFee: U64, offers: seq<Offer>, k: nat)
    requires k < |offers| && SlotFor(minimum, locals, baseFee, offers[k]).None?
    ensures var slots, passed := Slots(minimum, locals, baseFee, offers), Passed(minimum, locals, baseFee, offers);
            EmptySlots(slots[..k]) < |passed| && passed[EmptySlots(slots[..k])] == offers[k]
    decreases |offers|
  {
    hide IsBelowMinimum, EmptySlots;
    var front := offers[..|offers| - 1];
    var slots, before := Slots(minimum, locals, baseFee, offers), Slots(minimum, locals, baseFee, front);
    assert slots[..k] == before[..k];
    if k < |front| {
      SlotsMatch(minimum, locals, baseFee, front, k);
    } else {
      assert before[..k] == before;
      SlotsCount(minimum, locals, baseFee, front);
    }
  }

  lemma AllSlotsMatch(minimum: U128, locals: LocalConfig, baseFee: U64, offers: seq<Offer>)
    ensures var slots, passed := Slots(minimum, locals, baseFee, offers), Passed(minimum, locals, baseFee, offers);
            forall i :: 0 <= i < |offers| && slots[i].None? ==>
              EmptySlots(slots[..i]) < |passed| && passed[EmptySlots(slots[..i])] == offers[i]
  {
    hide Slots, Passed, EmptySlots, SlotFor;
    var slots, passed := Slots(minimum, locals, baseFee, offers), Passed(minimum, locals, baseFee, offers);
    forall i | 0 <= i < |offers| && slots[i].None?
      ensures EmptySlots(slots[..i]) < |passed| && passed[EmptySlots(slots[..i])] == offers[i]
    {
      SlotsMatch(minimum, locals, baseFee, offers, i);
    }
  }

  /** Fills the empty slots in order. It panics exactly when there are fewer outcomes than slots. */
  method MergeOutcomes<T>(slots: seq<Option<T>>, validated: seq<T>) returns (r: Result<seq<T>, Panic>)
    ensures r.Ok? <==> EmptySlots(slots) <= |validated|
    ensures r.Ok? ==> |r.value| == |slots|
    ensures r.Ok? ==> forall i :: 0 <= i < |slots| && slots[i].Some? ==> r.value[i] == slots[i].value
    ensures r.Ok? ==> forall i :: 0 <= i < |slots| && slots[i].None? ==>
                        EmptySlots(slots[..i]) < |validated| && r.value[i] == validated[EmptySlots(slots[..i])]
  {
    var merged: seq<T> := [];
    var next := 0;
    for i := 0 to |slots|
      invariant next == EmptySlots(slots[..i]) <= |validated|
      invariant |merged| == i
      invariant forall k :: 0 <= k < i && slots[k].Some? ==> merged[k] == slots[k].value
      invariant forall k :: 0 <= k < i && slots[k].None? ==>
                  EmptySlots(slots[..k]) < |validated| && merged[k] == validated[EmptySlots(slots[..k])]
    {
      assert slots[..i + 1][..i] == slots[..i];
      EmptySlotsGrow(slots, i + 1);
      if slots[i].Some? {
        merged := merged + [slots[i].value];
      } else {
        if next >= |validated| {
          return Err(OutOfOutcomes);
        }
        merged := merged + [validated[next]];
        next := next + 1;
      }
    }
    assert slots[..|slots|] == slots;
    return Ok(merged);
  }

  /** The wrapped validator judges each member of a batch as it would judge it alone. */
  predicate Pointwise(inner: Offer -> Verdict, offers: seq<Offer>, verdicts: seq<Verdict>) {
    |verdicts| == |offers| && forall i :: 0 <= i < |offers| ==> verdicts[i] == inner(offers[i])
  }

  class MinPriorityFeeValidator {
    const batch: seq<Offer> -> seq<Verdict>
    const minimum: U128
    const locals: LocalConfig
    const spec: ChainSpec
    var baseFee: U64

    constructor (batch: seq<Offer> -> seq<Verdict>, minimum: U128, locals: LocalConfig, spec: ChainSpec, initialBaseFee: U64)
      ensures this.batch == batch && this.minimum == minimum && this.locals == locals && this.spec == spec
      ensures baseFee == initialBaseFee
    {
      this.batch := batch;
      this.minimum := minimum;
      this.locals := locals;
      this.spec := spec;
      baseFee := initialBaseFee;
    }

    /** The slots and the forwarded offers, in one pass. */
    method Split(offers: seq<Offer>) returns (slots: seq<Option<Outcome>>, forwarded: seq<Offer>)
      ensures forwarded == Passed(minimum, locals, baseFee, offers)
      ensures |slots| == |offers| && EmptySlots(slots) == |forwarded|
      ensures forall i :: 0 <= i < |offers| ==> slots[i] == SlotFor(minimum, locals, baseFee, offers[i])
      ensures forall i :: 0 <= i < |offers| && slots[i].None? ==>
                EmptySlots(slots[..i]) < |forwarded| && forwarded[EmptySlots(slots[..i])] == offers[i]
    {
      hide IsBelowMinimum, EmptySlots;
      slots, forwarded := [], [];
      for i := 0 to |offers|
        invariant slots == Slots(minimum, locals, baseFee, offers[..i])
        invariant forwarded == Passed(minimum, locals, baseFee, offers[..i])
      {
        assert offers[..i + 1][..i] == offers[..i];
        if IsBelowMinimum(minimum, locals, baseFee, offers[i]) {
          slots := slots + [Some(BelowMinimum(offers[i].1, minimum))];
        } else {
          slots := slots + [None];
          forwarded := forwarded + [offers[i]];
        }
      }
      assert offers[..|offers|] == offers;
      SlotsCount(minimum, locals, baseFee, offers);
      hide Slots, Passed, EmptySlots, SlotFor;
      AllSlotsMatch(minimum, locals, baseFee, offers);
    }

    /** Batch validation refines single validation: outcome i is that of offer i alone, the wrapped
        validator sees exactly the offers that passed the floor, in order, and merging never runs
        out of outcomes as long as the wrapped validator returns one for each. */
    method ValidateTransactions(offers: seq<Offer>, ghost inner: Offer -> Verdict)
      returns (r: Result<seq<Outcome>, Panic>, ghost seen: seq<Offer>)
      ensures seen == Passed(minimum, locals, baseFee, offers)
      ensures r.Ok? <==> |seen| <= |batch(seen)|
      ensures r.Ok? ==> |r.value| == |offers|
      ensures r.Ok? && Pointwise(inner, seen, batch(seen)) ==>
                forall i :: 0 <= i < |offers| ==> r.value[i] == Validate(inner, minimum, locals, baseFee, offers[i])
    {
      hide IsBelowMinimum;
      var slots, forwarded := Split(offers);
      seen := forwarded;
      var verdicts := batch(forwarded);
      var outcomes := InnerOutcomes(verdicts);
      r := MergeOutcomes(slots, outcomes);
    }

    /** An offer reaches the wrapped validator, and gets its verdict, if and only if there is no floor,
        the offer is local, or both of its fee fields leave the floor above the base fee. */
    method ValidateTransaction(offer: Offer, inner: Offer -> Verdict) returns (r: Outcome)
      ensures r == Validate(inner, minimum, locals, baseFee, offer)
      ensures r == (if r.Inner? then Inner(inner(offer)) else BelowMinimum(offer.1, minimum))
      ensures r.Inner? <==>
              minimum == 0 || IsLocal(locals, offer.0, offer.1.sender)
              || (offer.1.maxFeePerGas >= baseFee + minimum
                  && (offer.1.maxPriorityFeePerGas.None? || offer.1.maxPriorityFeePerGas.value >= minimum))
    {
      if minimum > 0 && !IsLocal(locals, offer.0, offer.1.sender) {
        FloorExact(minimum, locals, baseFee, offer);
      }
      if IsBelowMinimum(minimum, locals, baseFee, offer) {
        return BelowMinimum(offer.1, minimum);
      }
      return Inner(inner(offer));
    }

    /** A new head moves the floor's base fee to that of the next block, if there is one. */
    method OnNewHeadBlock(head: BerachainHeader)
      requires DivisibleHeader(spec, head)
      modifies this`baseFee
      ensures baseFee == NextBlockBaseFee(spec, head).GetOr(old(baseFee))
    {
      var next := NextBlockBaseFee(spec, head);
      if next.Some? {
        baseFee := next.value;
      }
    }
  }

  function InnerOutcomes(verdicts: seq<Verdict>): (outcomes: seq<Outcome>)
    ensures |outcomes| == |verdicts|
    ensures forall i :: 0 <= i < |verdicts| ==> outcomes[i] == Inner(verdicts[i])
  {
    seq(|verdicts|, i requires 0 <= i < |verdicts| => Inner(verdicts[i]))
  }

  /** What was admitted against the new head's fee pays the floor in the block built on that head: the
      fee the validator stores is the one the environment builder gives the child. */
  lemma AdmittedPaysInNextBlock(w: World, spec: ChainSpec, head: BerachainHeader, attrs: NextBlockAttributes, minimum: U128,
                                locals: LocalConfig, offer: Offer)
    requires Accepted(spec) && DivisibleHeader(spec, head) && head.baseFeePerGas.Some? && head.number != TWO_64 - 1
    requires minimum > 0 && !IsLocal(locals, offer.0, offer.1.sender)
    requires !IsBelowMinimum(minimum, locals, NextBlockBaseFee(spec, head).value, offer)
    ensures var tip := EffectiveTip(offer.1, NextEvmEnv(w, spec, head, attrs).blockEnv.baseFee);
            tip.Some? && tip.value >= minimum
  {
    hide Accepted, IsActive, RawBaseFee, BlobParamsAt, LondonBoundary, NextExcessBlobGas, IsBelowMinimum;
    LondonBoundaryExact(spec, head);
    var fee := NextBlockBaseFee(spec, head).value;
    assert NextEvmEnv(w, spec, head, attrs).blockEnv.baseFee == fee;
    AdmittedPays(minimum, locals, fee, fee, offer);
  }
}
