/**
 Whole chains: blocks produced one on the other, from one complete header on, are imported one after
 the other with the producer's results, and their base fees follow the recurrence.
 */
module Chain {
  import opened Base
  import opened Assembler
  import opened BaseFee
  import opened BlockBuilder
  import opened ChainSpec
  import opened EvmConfig
  import opened Executor
  import opened Header
  import opened Pipeline
  import opened World

  /** One produced block: what it was built from and what came out. */
  datatype Link = Link(attrs: NextBlockAttributes, executed: seq<Envelope>, extraData: Blob, done: ExecState, built: Built)

  /** Each block is produced on the header and the state that the one before left. */
  ghost predicate ProducedChain(w: World, spec: ChainSpec, parent: BerachainHeader, start: State, links: seq<Link>)
    decreases links
  {
    if links == [] then true
    else
      var link := links[0];
      && DivisibleHeader(spec, parent) && link.attrs.withdrawals.Some?
      && Produced(ProducerSession(w, spec, parent, link.attrs), start, parent, link.executed, link.done, link.extraData, link.built)
      && ProducedChain(w, spec, link.built.block.header, link.built.result.db, links[1..])
  }

  function Blocks(links: seq<Link>): (blocks: seq<Block>)
    ensures |blocks| == |links|
  {
    if links == [] then [] else [links[0].built.block] + Blocks(links[1..])
  }

  function Results(links: seq<Link>): (results: seq<Outcome>)
    ensures |results| == |links|
  {
    if links == [] then [] else [links[0].built.result] + Results(links[1..])
  }

  /** Imports blocks one after the other, each on the state of the one before; the first failure ends it. */
  function ImportChain(w: World, spec: ChainSpec, start: State, blocks: seq<Block>): Result<seq<Outcome>, ExecError>
    decreases blocks
  {
    if blocks == [] then Ok([])
    else
      var first :- Import(ImporterSession(w, spec, blocks[0]), start, blocks[0].transactions);
      var rest :- ImportChain(w, spec, first.db, blocks[1..]);
      Ok([first] + rest)
  }

  /** Completeness is handed down: a block built on a complete parent is a complete parent. */
  lemma CompletenessInherited(j: Session, parent: BerachainHeader, executed: seq<Envelope>, done: ExecState, extraData: Blob, b: Built)
    requires Accepted(j.spec) && ParentComplete(parent) && Build(j, parent, done, executed, extraData) == Ok(b)
    ensures ParentComplete(b.block.header)
  {
    hide Accepted, HeaderOf, IsActive, Finish, PolOf, NextExcessBlobGas;
    BuiltBlock(j, parent, executed, done, extraData, b);
    AssembledFields(j, parent, b.block.transactions, b.result, extraData);
  }

  /** From one complete header on, a chain of produced blocks of any length imports block by block to
      exactly what its producers saw: receipts, gas, blob gas, requests and state of every block. */
  lemma {:induction false} ChainImports(w: World, spec: ChainSpec, parent: BerachainHeader, start: State, links: seq<Link>)
    requires Accepted(spec) && ParentComplete(parent) && ProducedChain(w, spec, parent, start, links)
    ensures ImportChain(w, spec, start, Blocks(links)) == Ok(Results(links))
    decreases links
  {
    hide Accepted, ParentComplete, Import, ImporterSession, Build, Replay, PreExecution, NextEvmEnv, HashSlow;
    if links != [] {
      var link := links[0];
      ProducerImporterAgree(w, spec, start, parent, link.attrs, link.executed, link.done, link.extraData, link.built);
      CompletenessInherited(ProducerSession(w, spec, parent, link.attrs), parent, link.executed, link.done, link.extraData, link.built);
      ChainImports(w, spec, link.built.block.header, link.built.result.db, links[1..]);
      assert Blocks(links)[1..] == Blocks(links[1..]);
    }
  }

  /****** Headers of a chain ******/

  function Headers(links: seq<Link>): (headers: seq<BerachainHeader>)
    ensures |headers| == |links|
  {
    if links == [] then [] else [links[0].built.block.header] + Headers(links[1..])
  }

  /** Each block is later than the one before. */
  predicate TimesIncrease(parent: BerachainHeader, links: seq<Link>)
    decreases links
  {
    if links == [] then true
    else parent.timestamp < links[0].attrs.timestamp && TimesIncrease(links[0].built.block.header, links[1..])
  }

  /** What a produced block takes over from its parent and from the attributes. */
  lemma BuiltOnParent(w: World, spec: ChainSpec, parent: BerachainHeader, attrs: NextBlockAttributes, executed: seq<Envelope>,
                      done: ExecState, extraData: Blob, b: Built)
    requires Accepted(spec) && DivisibleHeader(spec, parent) && parent.number < TWO_64 - 1
    requires Build(ProducerSession(w, spec, parent, attrs), parent, done, executed, extraData) == Ok(b)
    ensures var h := b.block.header;
            && h.parentHash == HashSlow(w.keccak, parent) && h.number == parent.number + 1
            && h.timestamp == attrs.timestamp
            && h.baseFeePerGas == Some(NextBlockBaseFee(spec, parent).GetOr(0))
            && h.beneficiary == attrs.suggestedFeeRecipient && h.mixHash == attrs.prevRandao && h.gasLimit == attrs.gasLimit
            && h.parentBeaconBlockRoot == attrs.parentBeaconBlockRoot && h.prevProposerPubkey == attrs.prevProposerPubkey
            && h.extraData == extraData && h.difficulty == 0 && h.nonce == Zeros(8) && h.ommersHash == w.emptyOmmersHash
            && b.block.withdrawals == Some(attrs.withdrawals.GetOr([]))
  {
    hide Accepted, IsActive, Build, HashSlow, RawBaseFee, BlobParamsAt, LondonBoundary, NextExcessBlobGas;
    BuiltBlock(ProducerSession(w, spec, parent, attrs), parent, executed, done, extraData, b);
    LondonBoundaryExact(spec, parent);
    AcceptedActivation(spec, attrs.timestamp);
    assert BEACON_NONCE == Zeros(8);
  }

  lemma ChainCons(spec: ChainSpec, parent: BerachainHeader, rest: seq<BerachainHeader>)
    requires parent.baseFeePerGas.Some? && IsChain(spec, rest)
    requires rest != [] ==> DivisibleHeader(spec, parent) && parent.timestamp < rest[0].timestamp
                            && rest[0].baseFeePerGas == NextBlockBaseFee(spec, parent)
    ensures IsChain(spec, [parent] + rest)
  {
    hide NextBlockBaseFee, DivisibleHeader;
    var all := [parent] + rest;
    forall i, k | 0 <= i < k < |all| ensures all[i].timestamp < all[k].timestamp {
      assert k > 1 ==> rest[0].timestamp < rest[k - 1].timestamp;
      assert i > 0 ==> rest[i - 1].timestamp < rest[k - 1].timestamp;
    }
    forall i | 0 <= i < |all| - 1
      ensures DivisibleHeader(spec, all[i]) && all[i + 1].baseFeePerGas == NextBlockBaseFee(spec, all[i])
    {
      if i > 0 {
        assert rest[i - 1 + 1].baseFeePerGas == NextBlockBaseFee(spec, rest[i - 1]);
      }
    }
  }

  /** The headers of a produced chain, after their first parent, form a chain in the sense of the base
      fee recurrence, so all that is proved of such chains - floors, decay - holds for them. */
  lemma {:induction false} ChainFollowsRecurrence(w: World, spec: ChainSpec, parent: BerachainHeader, start: State, links: seq<Link>)
    requires Accepted(spec) && parent.baseFeePerGas.Some? && ProducedChain(w, spec, parent, start, links)
    requires TimesIncrease(parent, links) && parent.number + |links| < TWO_64
    ensures IsChain(spec, [parent] + Headers(links))
    decreases links
  {
    hide Accepted, Build, Replay, PreExecution, NextEvmEnv, HashSlow, IsChain, RawBaseFee, DivisibleHeader;
    if links == [] {
      assert IsChain(spec, []) by { EmptyIsChain(spec); }
      ChainCons(spec, parent, []);
    } else {
      var link := links[0];
      BuiltOnParent(w, spec, parent, link.attrs, link.executed, link.done, link.extraData, link.built);
      ChainFollowsRecurrence(w, spec, link.built.block.header, link.built.result.db, links[1..]);
      assert [link.built.block.header] + Headers(links[1..]) == Headers(links);
      ChainCons(spec, parent, Headers(links));
    }
  }

  lemma EmptyIsChain(spec: ChainSpec)
    ensures IsChain(spec, [])
  {
  }

  /** From Osaka1 on no produced block falls below its floor. */
  lemma ChainRespectsFloor(w: World, spec: ChainSpec, parent: BerachainHeader, start: State, links: seq<Link>, i: nat)
    requires Accepted(spec) && parent.baseFeePerGas.Some? && ProducedChain(w, spec, parent, start, links)
    requires TimesIncrease(parent, links) && parent.number + |links| < TWO_64
    requires i < |links| && IsActive(spec, Osaka1, parent.timestamp)
    ensures var fee := Headers(links)[i].baseFeePerGas; fee.Some? && fee.value >= spec.osaka1MinimumBaseFee
  {
    hide Accepted, IsActive, ProducedChain, TimesIncrease;
    ChainFollowsRecurrence(w, spec, parent, start, links);
    var all := [parent] + Headers(links);
    FloorHoldsAlongChain(spec, all, 0, i + 1);
    assert all[i + 1] == Headers(links)[i];
  }
}
