/** The RLP size of a whole block, and why the selection loop's reserve is enough (src/engine/builder.rs). */
module BlockSize {
  import opened Base
  import opened Rlp
  import opened Assembler
  import opened BlockBuilder
  import opened ChainSpec
  import opened Executor
  import opened Header
  import opened PayloadBuilder
  import opened PolTx
  import opened SelectionLaws
  import opened Withdrawals
  import opened World

  /** A list with a payload of n bytes. */
  function ListSize(n: nat): nat {
    LengthOfLength(n) + n
  }

  /** The size of a transaction in a body: typed transactions are wrapped in a string. */
  function NetworkSize(e: Envelope): nat {
    match e
    case Ethereum(tx) => |tx.encoded|
    case Berachain(pol) => LengthOfLength(|Encode2718(pol.tx)|) + |Encode2718(pol.tx)|
  }

  function TotalSize(txs: seq<Envelope>): nat {
    if txs == [] then 0 else TotalSize(txs[..|txs| - 1]) + NetworkSize(txs[|txs| - 1])
  }

  /** The empty list of ommers. */
  const OMMERS_SIZE: nat := 1

  /** `rlp_length` of a block. */
  function RlpLength(b: Block): nat
    requires b.withdrawals.Some? ==> |b.withdrawals.value| < MAX_WITHDRAWALS
  {
    ListSize(|Encode(b.header)| + ListSize(TotalSize(b.transactions)) + OMMERS_SIZE
             + if b.withdrawals.Some? then |EncodeWithdrawals(b.withdrawals.value)| else 0)
  }

  datatype FinalError = BlockTooLarge(rlpLength: nat)

  /** The last check before a payload is returned. */
  function FinalCheck(p: Plan, b: Block): Result<(), FinalError>
    requires b.withdrawals.Some? ==> |b.withdrawals.value| < MAX_WITHDRAWALS
  {
    if OsakaPlan(p) && RlpLength(b) > MAX_RLP_BLOCK_SIZE then Err(BlockTooLarge(RlpLength(b))) else Ok(())
  }

  /****** Bounds ******/

  lemma HeadSize(n: nat, k: nat)
    requires 1 <= k <= 3 && n < Pow256(k)
    ensures LengthOfLength(n) <= 1 + k
  {
    BigEndianLength(n, k);
  }

  lemma {:induction false} TotalConcat(a: seq<Envelope>, b: seq<Envelope>)
    ensures TotalSize(a + b) == TotalSize(a) + TotalSize(b)
  {
    hide NetworkSize;
    if b == [] {
      assert a + b == a;
    } else {
      assert (a + b)[..|a + b| - 1] == a + b[..|b| - 1];
      TotalConcat(a, b[..|b| - 1]);
    }
  }

  lemma {:induction false} TotalOfIncluded(txs: seq<EthTx>)
    ensures TotalSize(Envelopes(txs)) == TotalBytes(txs)
  {
    if txs != [] {
      var front := txs[..|txs| - 1];
      TotalOfIncluded(front);
      assert Envelopes(txs)[..|txs| - 1] == Envelopes(front);
    }
  }

  lemma PolSize(e: Envelope)
    requires e.Berachain? && |Encode2718(e.pol.tx)| <= 211
    ensures NetworkSize(e) <= 213
    ensures TotalSize([e]) <= 213
  {
    hide Encode2718;
    ShortLengths(|Encode2718(e.pol.tx)|);
    assert [e][..0] == [];
  }

  /** A header is at most 734 bytes larger than its encoded extra data, if that is short. */
  lemma HeaderSize(h: BerachainHeader)
    requires StringLength(h.extraData) <= 68
    ensures |Encode(h)| <= 734 + StringLength(h.extraData)
  {
    hide StringLength, ItemsLength, EncodeItems, LengthHeader;
    Header.PayloadBound(h);
    var n := ItemsLength(Header.Items(h));
    assert Pow256(2) == 0x1_0000;
    LengthHeaderSize(true, n);
    HeadSize(n, 2);
    ItemsLengthExact(Header.Items(h));
  }

  /** The injected transaction adds at most 213 bytes to what was selected. */
  lemma BodySize(j: Session, parent: BerachainHeader, txs: seq<EthTx>, s: ExecState, extraData: Blob)
    requires Build(j, parent, s, Envelopes(txs), extraData).Ok?
    ensures TotalSize(Build(j, parent, s, Envelopes(txs), extraData).value.block.transactions) <= TotalBytes(txs) + 213
  {
    hide Build, IsActive, CreatePolTransaction, Encode2718, TotalSize, TotalBytes, Signers, TypesOf;
    BuiltLists(j, parent, txs, s, extraData);
    TotalOfIncluded(txs);
    if IsActive(j.spec, Prague1, j.env.blockEnv.timestamp) {
      var pol := Build(j, parent, s, Envelopes(txs), extraData).value.block.transactions[0];
      CreatedSize(j.w.keccak, j.spec, j.ctx.prevProposerPubkey.value, j.env.blockEnv.number, j.env.blockEnv.baseFee);
      PolSize(pol);
      TotalConcat([pol], Envelopes(txs));
    }
  }

  /** Everything around the selected transactions and the withdrawals: the three list heads, the
      header, the injected transaction and the empty ommers. */
  lemma Overhead(header: nat, body: nat, withdrawals: nat)
    requires header <= 802 && header + body + withdrawals + OMMERS_SIZE <= 0xFF_0000
    ensures ListSize(header + ListSize(body) + OMMERS_SIZE + withdrawals) <= header + body + withdrawals + OMMERS_SIZE + 8
  {
    Pow256Values();
    HeadSize(body, 3);
    HeadSize(header + ListSize(body) + OMMERS_SIZE + withdrawals, 3);
  }

  /** The whole block is at most 956 bytes plus the encoded extra data larger than the selected
      transactions and the withdrawals. */
  lemma BlockOverhead(p: Plan, parent: BerachainHeader, s: Selection, ws: WithdrawalList, extraData: Blob)
    requires Build(p.session, parent, s.exec, Envelopes(s.included), extraData).Ok?
    requires p.session.ctx.withdrawals == Some(ws) && StringLength(extraData) <= 68
    requires TotalBytes(s.included) + |EncodeWithdrawals(ws)| <= MAX_RLP_BLOCK_SIZE
    ensures var block := Build(p.session, parent, s.exec, Envelopes(s.included), extraData).value.block;
            && (block.withdrawals.Some? ==> |block.withdrawals.value| < MAX_WITHDRAWALS)
            && RlpLength(block)
               <= TotalBytes(s.included) + |EncodeWithdrawals(ws)| + 956 + StringLength(extraData)
  {
    hide Build, IsActive, StringLength, EncodeWithdrawals, TotalSize, TotalBytes, ListSize, Encode, Finish, BodyTransactions;
    var built := Build(p.session, parent, s.exec, Envelopes(s.included), extraData).value;
    BuiltParts(p.session, parent, s.exec, s.included, extraData);
    HeaderSize(built.block.header);
    BodySize(p.session, parent, s.included, s.exec, extraData);
    var listed := if built.block.withdrawals.Some? then |EncodeWithdrawals(built.block.withdrawals.value)| else 0;
    Overhead(|Encode(built.block.header)|, TotalSize(built.block.transactions), listed);
  }

  lemma BuiltParts(j: Session, parent: BerachainHeader, s: ExecState, txs: seq<EthTx>, extraData: Blob)
    requires Build(j, parent, s, Envelopes(txs), extraData).Ok?
    ensures var block := Build(j, parent, s, Envelopes(txs), extraData).value.block;
            block.header.extraData == extraData && block.withdrawals == BodyWithdrawals(j)
  {
    hide IsActive, Finish, BodyTransactions;
  }

  /** The reserve of 1024 bytes is enough: with extra data of at most 66 bytes - Ethereum allows 32 -
      and withdrawals that leave room for the reserve, whatever the loop selected fits, header,
      injected transaction and list heads included. So the final size check never fires. */
  lemma ReserveSuffices(p: Plan, start: State, parent: BerachainHeader, ready: ExecState, offers: seq<EthTx>,
                        ws: WithdrawalList, extraData: Blob)
    requires GasBounded(p.session.w) && PreExecution(p.session, InitialState(start)) == Ok(ready)
    requires Select(p, ready, offers).Ok?
    requires var s := Select(p, ready, offers).value;
             Build(p.session, parent, s.exec, Envelopes(s.included), extraData).Ok?
    requires p.session.ctx.withdrawals == Some(ws) && p.withdrawalsLength == |EncodeWithdrawals(ws)|
    requires |extraData| <= 66 && p.withdrawalsLength + RESERVE <= MAX_RLP_BLOCK_SIZE
    ensures var s := Select(p, ready, offers).value;
            var block := Build(p.session, parent, s.exec, Envelopes(s.included), extraData).value.block;
            && (block.withdrawals.Some? ==> |block.withdrawals.value| < MAX_WITHDRAWALS)
            && (OsakaPlan(p) ==> RlpLength(block) <= MAX_RLP_BLOCK_SIZE)
            && FinalCheck(p, block) == Ok(())
  {
    hide Build, Select, GasBounded, PreExecution, OsakaPlan, EncodeWithdrawals, RlpLength, TotalBytes, IsActive;
    var s := Select(p, ready, offers).value;
    SelectionKeeps(p, start, ready, offers);
    assert SizeKept(p, s);
    ShortExtraData(extraData);
    BuiltParts(p.session, parent, s.exec, s.included, extraData);
    if OsakaPlan(p) {
      NothingSelected(s);
      BlockOverhead(p, parent, s, ws, extraData);
    }
  }

  lemma NothingSelected(s: Selection)
    ensures s.included == [] ==> TotalBytes(s.included) == 0
  {
  }

  lemma ShortExtraData(s: Blob)
    requires |s| <= 66
    ensures StringLength(s) <= 68
  {
    ShortLengths(|s|);
  }

  /****** The encoded block ******/

  /** A transaction in a body: an Ethereum one in its own form, the other as a string. */
  function NetworkBytes(e: Envelope): Bytes
    requires e.Berachain? ==> |Encode2718(e.pol.tx)| < MAX_BUFFER
  {
    match e
    case Ethereum(tx) => tx.encoded
    case Berachain(pol) => EncodeString(Encode2718(pol.tx))
  }

  predicate BodyEncodable(txs: seq<Envelope>) {
    forall i :: 0 <= i < |txs| && txs[i].Berachain? ==> |Encode2718(txs[i].pol.tx)| < MAX_BUFFER
  }

  function BodyBytes(txs: seq<Envelope>): Bytes
    requires BodyEncodable(txs)
  {
    if txs == [] then [] else BodyBytes(txs[..|txs| - 1]) + NetworkBytes(txs[|txs| - 1])
  }

  /** The items of a block: header, transactions, the empty ommers, and the withdrawals if present. */
  function BlockItems(b: Block): Bytes
    requires BodyEncodable(b.transactions) && |BodyBytes(b.transactions)| < TWO_64
    requires b.withdrawals.Some? ==> |b.withdrawals.value| < MAX_WITHDRAWALS
  {
    Encode(b.header) + LengthHeader(true, |BodyBytes(b.transactions)|) + BodyBytes(b.transactions) + [0xC0]
    + if b.withdrawals.Some? then EncodeWithdrawals(b.withdrawals.value) else []
  }

  function EncodeBlock(b: Block): Bytes
    requires BodyEncodable(b.transactions) && |BodyBytes(b.transactions)| < TWO_64
    requires b.withdrawals.Some? ==> |b.withdrawals.value| < MAX_WITHDRAWALS
    requires |BlockItems(b)| < TWO_64
  {
    LengthHeader(true, |BlockItems(b)|) + BlockItems(b)
  }

  lemma {:induction false} BodySizeExact(txs: seq<Envelope>)
    requires BodyEncodable(txs)
    ensures |BodyBytes(txs)| == TotalSize(txs)
  {
    hide Encode2718, EncodeString;
    if txs != [] {
      var last := txs[|txs| - 1];
      BodySizeExact(txs[..|txs| - 1]);
      if last.Berachain? {
        TypedIsLong(last.pol.tx);
        StringLengthExact(Encode2718(last.pol.tx));
      }
    }
  }

  lemma TypedIsLong(t: PoLTx)
    ensures |Encode2718(t)| > 1
  {
    hide RlpEncode;
  }

  /** The computed length is that of the encoded block. */
  lemma RlpLengthExact(b: Block)
    requires BodyEncodable(b.transactions) && |BodyBytes(b.transactions)| < TWO_64
    requires b.withdrawals.Some? ==> |b.withdrawals.value| < MAX_WITHDRAWALS
    requires |BlockItems(b)| < TWO_64
    ensures RlpLength(b) == |EncodeBlock(b)|
  {
    hide Encode, EncodeWithdrawals, BodyBytes, TotalSize, LengthHeader;
    BodySizeExact(b.transactions);
    LengthHeaderSize(true, |BodyBytes(b.transactions)|);
    LengthHeaderSize(true, |BlockItems(b)|);
  }

  /** The last check refuses exactly the Osaka blocks of more than 8388608 bytes, naming their length. */
  lemma FinalCheckExact(p: Plan, b: Block)
    requires b.withdrawals.Some? ==> |b.withdrawals.value| < MAX_WITHDRAWALS
    ensures FinalCheck(p, b)
         == if IsActive(p.session.spec, Osaka, p.session.env.blockEnv.timestamp) && RlpLength(b) > 8_388_608
            then Err(BlockTooLarge(RlpLength(b))) else Ok(())
  {
    hide IsActive, RlpLength;
  }
}
