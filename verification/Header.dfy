/** The block header and its RLP codec (src/primitives/header.rs). */
module Header {
  import opened Base
  import opened Rlp
  import opened Record
  import opened RecordCodec

  datatype BerachainHeader = BerachainHeader(
    parentHash: B256,
    ommersHash: B256,
    beneficiary: Address,
    stateRoot: B256,
    transactionsRoot: B256,
    receiptsRoot: B256,
    withdrawalsRoot: Option<B256>,
    logsBloom: Bloom,
    difficulty: U256,
    number: U64,
    gasLimit: U64,
    gasUsed: U64,
    timestamp: U64,
    mixHash: B256,
    nonce: B64,
    baseFeePerGas: Option<U64>,
    blobGasUsed: Option<U64>,
    excessBlobGas: Option<U64>,
    parentBeaconBlockRoot: Option<B256>,
    requestsHash: Option<B256>,
    prevProposerPubkey: Option<BlsPublicKey>,
    extraData: Blob)

  /****** The header as a record ******/

  const MANDATORY: seq<Kind> := [
    Fixed(32), Fixed(32), Fixed(20), Fixed(32), Fixed(32),
    Fixed(32), Fixed(256), Uint(32), Uint(8), Uint(8),
    Uint(8), Uint(8), Raw, Fixed(32), Fixed(8)]

  const OPTIONAL: seq<Kind> := [Uint(8), Fixed(32), Uint(8), Uint(8), Fixed(32), Fixed(32), Fixed(48)]

  function Num(n: U256): (s: Blob)
    ensures Fits(Uint(32), s)
    ensures n < TWO_64 ==> Fits(Uint(8), s)
    ensures n < TWO_128 ==> Fits(Uint(16), s)
  {
    Pow256Values();
    BigEndianLength(n, 8);
    BigEndianLength(n, 16);
    BigEndianLength(n, 32);
    BigEndian(n)
  }

  function ReadNum(s: Blob): nat {
    FromBigEndian(s)
  }

  lemma NumRoundTrip(n: U256)
    ensures ReadNum(Num(n)) == n
  {
    BigEndianRoundTrip(n);
  }

  lemma ReadNumFits(size: nat, s: Blob)
    requires Fits(Uint(size), s)
    ensures ReadNum(s) < Pow256(size)
  {
    BigEndianUnique(s);
    BigEndianLength(ReadNum(s), size);
  }

  function ReadU64(s: Blob): (n: U64)
    requires Fits(Uint(8), s)
    ensures Num(n) == s
  {
    ReadNumFits(8, s);
    Pow256Values();
    BigEndianUnique(s);
    ReadNum(s)
  }

  function ReadU256(s: Blob): (n: U256)
    requires Fits(Uint(32), s)
    ensures Num(n) == s
  {
    ReadNumFits(32, s);
    Pow256Values();
    BigEndianUnique(s);
    ReadNum(s)
  }

  function LeadingItems(h: BerachainHeader): seq<Blob> {
    [h.parentHash, h.ommersHash, h.beneficiary, h.stateRoot, h.transactionsRoot]
  }

  function MiddleItems(h: BerachainHeader): seq<Blob> {
    [h.receiptsRoot, h.logsBloom, Num(h.difficulty), Num(h.number), Num(h.gasLimit)]
  }

  function TrailingItems(h: BerachainHeader): seq<Blob> {
    [Num(h.gasUsed), Num(h.timestamp), h.extraData, h.mixHash, h.nonce]
  }

  function MandatoryItems(h: BerachainHeader): (items: seq<Blob>)
    ensures |items| == 15
  {
    LeadingItems(h) + MiddleItems(h) + TrailingItems(h)
  }

  function PresentNum(o: Option<U64>): seq<Blob> {
    if o.Some? then [Num(o.value)] else []
  }

  function PresentBytes(o: Option<Bytes>): seq<Blob>
    requires o.Some? ==> |o.value| < MAX_BUFFER
  {
    if o.Some? then [o.value] else []
  }

  /** The optional fields that are present, in wire order. */
  function OptionalItems(h: BerachainHeader): seq<Blob> {
    PresentNum(h.baseFeePerGas) + PresentBytes(h.withdrawalsRoot) + PresentNum(h.blobGasUsed)
    + PresentNum(h.excessBlobGas) + PresentBytes(h.parentBeaconBlockRoot)
    + PresentBytes(h.requestsHash) + PresentBytes(h.prevProposerPubkey)
  }

  function Items(h: BerachainHeader): seq<Blob> {
    MandatoryItems(h) + OptionalItems(h)
  }

  /** No optional field is present after one that is absent, in wire order. */
  predicate PrefixShaped(h: BerachainHeader) {
    && (h.withdrawalsRoot.Some? ==> h.baseFeePerGas.Some?)
    && (h.blobGasUsed.Some? ==> h.withdrawalsRoot.Some?)
    && (h.excessBlobGas.Some? ==> h.blobGasUsed.Some?)
    && (h.parentBeaconBlockRoot.Some? ==> h.excessBlobGas.Some?)
    && (h.requestsHash.Some? ==> h.parentBeaconBlockRoot.Some?)
    && (h.prevProposerPubkey.Some? ==> h.requestsHash.Some?)
  }

  /** What the schema says, field by field. */
  predicate HeaderItems(items: seq<Blob>) {
    && 15 <= |items| <= 22
    && |items[0]| == 32 && |items[1]| == 32 && |items[2]| == 20 && |items[3]| == 32 && |items[4]| == 32
    && |items[5]| == 32 && |items[6]| == 256 && Fits(Uint(32), items[7]) && Fits(Uint(8), items[8])
    && Fits(Uint(8), items[9]) && Fits(Uint(8), items[10]) && Fits(Uint(8), items[11])
    && |items[13]| == 32 && |items[14]| == 8
    && (15 < |items| ==> Fits(Uint(8), items[15])) && (16 < |items| ==> |items[16]| == 32)
    && (17 < |items| ==> Fits(Uint(8), items[17])) && (18 < |items| ==> Fits(Uint(8), items[18]))
    && (19 < |items| ==> |items[19]| == 32) && (20 < |items| ==> |items[20]| == 32)
    && (21 < |items| ==> |items[21]| == 48)
  }

  lemma HeaderItemsExact(items: seq<Blob>)
    ensures HeaderItems(items) <==> Conforms(MANDATORY, OPTIONAL, items)
  {
    var kinds := MANDATORY + OPTIONAL;
    assert kinds == [
        Fixed(32), Fixed(32), Fixed(20), Fixed(32), Fixed(32), Fixed(32), Fixed(256), Uint(32), Uint(8), Uint(8),
        Uint(8), Uint(8), Raw, Fixed(32), Fixed(8), Uint(8), Fixed(32), Uint(8), Uint(8), Fixed(32), Fixed(32), Fixed(48)];
    if Conforms(MANDATORY, OPTIONAL, items) {
      assert forall i :: 0 <= i < |items| ==> Fits(kinds[i], items[i]);
    }
  }

  function OptionalNumAt(items: seq<Blob>, i: nat): Option<U64>
    requires i < |items| ==> Fits(Uint(8), items[i])
  {
    if i < |items| then Some(ReadU64(items[i])) else None
  }

  function FromItems(items: seq<Blob>): BerachainHeader
    requires HeaderItems(items)
  {
    BerachainHeader(
      parentHash := items[0],
      ommersHash := items[1],
      beneficiary := items[2],
      stateRoot := items[3],
      transactionsRoot := items[4],
      receiptsRoot := items[5],
      logsBloom := items[6],
      difficulty := ReadU256(items[7]),
      number := ReadU64(items[8]),
      gasLimit := ReadU64(items[9]),
      gasUsed := ReadU64(items[10]),
      timestamp := ReadU64(items[11]),
      extraData := items[12],
      mixHash := items[13],
      nonce := items[14],
      baseFeePerGas := OptionalNumAt(items, 15),
      withdrawalsRoot := if 16 < |items| then Some(items[16]) else None,
      blobGasUsed := OptionalNumAt(items, 17),
      excessBlobGas := OptionalNumAt(items, 18),
      parentBeaconBlockRoot := if 19 < |items| then Some(items[19]) else None,
      requestsHash := if 20 < |items| then Some(items[20]) else None,
      prevProposerPubkey := if 21 < |items| then Some(items[21]) else None)
  }

  /****** Reading back what was written ******/

  /** The optional fields of h are, one by one, the entries of a list of at most seven items. */
  predicate OptionalFields(h: BerachainHeader, rest: seq<Blob>) {
    && |rest| <= 7
    && h.baseFeePerGas.Some? == (0 < |rest|) && (0 < |rest| ==> Num(h.baseFeePerGas.value) == rest[0])
    && h.withdrawalsRoot.Some? == (1 < |rest|) && (1 < |rest| ==> h.withdrawalsRoot.value == rest[1])
    && h.blobGasUsed.Some? == (2 < |rest|) && (2 < |rest| ==> Num(h.blobGasUsed.value) == rest[2])
    && h.excessBlobGas.Some? == (3 < |rest|) && (3 < |rest| ==> Num(h.excessBlobGas.value) == rest[3])
    && h.parentBeaconBlockRoot.Some? == (4 < |rest|) && (4 < |rest| ==> h.parentBeaconBlockRoot.value == rest[4])
    && h.requestsHash.Some? == (5 < |rest|) && (5 < |rest| ==> h.requestsHash.value == rest[5])
    && h.prevProposerPubkey.Some? == (6 < |rest|) && (6 < |rest| ==> h.prevProposerPubkey.value == rest[6])
  }

  lemma OptionalFieldsExact(h: BerachainHeader, rest: seq<Blob>)
    ensures OptionalFields(h, rest) <==> PrefixShaped(h) && OptionalItems(h) == rest
  {
    if OptionalFields(h, rest) {
      assert OptionalItems(h) == rest;
    }
  }

  lemma ItemsAt(h: BerachainHeader)
    ensures |Items(h)| == 15 + |OptionalItems(h)|
    ensures Items(h)[..5] == LeadingItems(h) && Items(h)[5..10] == MiddleItems(h)
    ensures Items(h)[10..15] == TrailingItems(h) && Items(h)[15..] == OptionalItems(h)
  {
  }

  /** Each mandatory field at its place in the list. */
  lemma FieldAt(h: BerachainHeader)
    ensures |Items(h)| == 15 + |OptionalItems(h)| && Items(h)[15..] == OptionalItems(h)
    ensures var items := Items(h);
            && items[0] == h.parentHash && items[1] == h.ommersHash && items[2] == h.beneficiary && items[3] == h.stateRoot
            && items[4] == h.transactionsRoot && items[5] == h.receiptsRoot && items[6] == h.logsBloom
            && items[7] == Num(h.difficulty) && items[8] == Num(h.number) && items[9] == Num(h.gasLimit)
            && items[10] == Num(h.gasUsed) && items[11] == Num(h.timestamp) && items[12] == h.extraData
            && items[13] == h.mixHash && items[14] == h.nonce
  {
    hide Num, OptionalItems;
    ItemsAt(h);
    var items := Items(h);
    assert forall i :: 0 <= i < 5 ==> items[i] == LeadingItems(h)[i] && items[5 + i] == MiddleItems(h)[i]
                                      && items[10 + i] == TrailingItems(h)[i];
  }

  /** Each optional field that is present at its place. */
  lemma OptionalAt(h: BerachainHeader)
    requires PrefixShaped(h)
    ensures var items := Items(h);
            && 15 <= |items| <= 22
            && h.baseFeePerGas.Some? == (15 < |items|) && (15 < |items| ==> items[15] == Num(h.baseFeePerGas.value))
            && h.withdrawalsRoot.Some? == (16 < |items|) && (16 < |items| ==> items[16] == h.withdrawalsRoot.value)
            && h.blobGasUsed.Some? == (17 < |items|) && (17 < |items| ==> items[17] == Num(h.blobGasUsed.value))
            && h.excessBlobGas.Some? == (18 < |items|) && (18 < |items| ==> items[18] == Num(h.excessBlobGas.value))
            && h.parentBeaconBlockRoot.Some? == (19 < |items|) && (19 < |items| ==> items[19] == h.parentBeaconBlockRoot.value)
            && h.requestsHash.Some? == (20 < |items|) && (20 < |items| ==> items[20] == h.requestsHash.value)
            && h.prevProposerPubkey.Some? == (21 < |items|) && (21 < |items| ==> items[21] == h.prevProposerPubkey.value)
  {
    OptionalFieldsExact(h, OptionalItems(h));
    FieldAt(h);
    hide Num, Items, OptionalItems, PrefixShaped;
    assert forall i :: 0 <= i < |Items(h)| - 15 ==> Items(h)[15 + i] == OptionalItems(h)[i];
  }

  lemma ItemsConform(h: BerachainHeader)
    requires PrefixShaped(h)
    ensures HeaderItems(Items(h))
  {
    hide Num, Items, PrefixShaped, Fits;
    FieldAt(h);
    OptionalAt(h);
  }

  lemma ReadBack(n: U64)
    ensures ReadU64(Num(n)) == n
  {
    NumRoundTrip(n);
  }

  lemma FromItemsOfHeader(h: BerachainHeader)
    requires PrefixShaped(h)
    ensures HeaderItems(Items(h)) && FromItems(Items(h)) == h
  {
    hide Num, Items, PrefixShaped, Fits, ReadU64, ReadU256, HeaderItems;
    ItemsConform(h);
    FieldAt(h);
    OptionalAt(h);
    ReadBackWide(h.difficulty);
    ReadBack(h.number);
    ReadBack(h.gasLimit);
    ReadBack(h.gasUsed);
    ReadBack(h.timestamp);
    ReadBack(h.baseFeePerGas.GetOr(0));
    ReadBack(h.blobGasUsed.GetOr(0));
    ReadBack(h.excessBlobGas.GetOr(0));
  }

  lemma ReadBackWide(n: U256)
    ensures ReadU256(Num(n)) == n
  {
    NumRoundTrip(n);
  }

  lemma MandatoryItemsRead(items: seq<Blob>)
    requires HeaderItems(items)
    ensures MandatoryItems(FromItems(items)) == items[..15]
  {
    var h := FromItems(items);
    assert LeadingItems(h) == items[..5];
    assert MiddleItems(h) == items[5..10];
    assert TrailingItems(h) == items[10..15];
    assert items[..15] == items[..5] + items[5..10] + items[10..15];
  }

  lemma ItemsOfHeaderRead(items: seq<Blob>)
    requires HeaderItems(items)
    ensures PrefixShaped(FromItems(items)) && Items(FromItems(items)) == items
  {
    MandatoryItemsRead(items);
    OptionalFieldsExact(FromItems(items), items[15..]);
    assert items == items[..15] + items[15..];
  }

  /****** Lengths ******/

  lemma FiveLength(a: Blob, b: Blob, c: Blob, d: Blob, e: Blob)
    ensures ItemsLength([a, b, c, d, e])
         == StringLength(a) + StringLength(b) + StringLength(c) + StringLength(d) + StringLength(e)
  {
    assert [a, b, c, d, e][1..] == [b, c, d, e] && [b, c, d, e][1..] == [c, d, e];
    assert [c, d, e][1..] == [d, e] && [d, e][1..] == [e] && [e][1..] == [];
    assert ItemsLength([e]) == StringLength(e);
    assert ItemsLength([c, d, e]) == StringLength(c) + ItemsLength([d, e]);
  }

  lemma NumLength(n: U256)
    ensures StringLength(Num(n)) <= 33
    ensures n < TWO_64 ==> StringLength(Num(n)) <= 9
  {
  }

  lemma FixedLengths()
    ensures forall s: Blob :: |s| == 8 || |s| == 20 || |s| == 32 || |s| == 48 ==> StringLength(s) == |s| + 1
    ensures forall s: Blob :: |s| == 256 ==> StringLength(s) == 259
  {
    assert BigEndian(1) == BigEndian(0) + [1];
    assert BigEndian(256) == BigEndian(1) + [0];
  }

  /** The encoded sizes of the mandatory fields, one by one. */
  function MandatorySum(h: BerachainHeader): nat {
    StringLength(h.parentHash) + StringLength(h.ommersHash) + StringLength(h.beneficiary) + StringLength(h.stateRoot)
    + StringLength(h.transactionsRoot) + StringLength(h.receiptsRoot) + StringLength(h.logsBloom)
    + StringLength(Num(h.difficulty)) + StringLength(Num(h.number)) + StringLength(Num(h.gasLimit))
    + StringLength(Num(h.gasUsed)) + StringLength(Num(h.timestamp)) + StringLength(h.extraData)
    + StringLength(h.mixHash) + StringLength(h.nonce)
  }

  lemma MandatorySumExact(h: BerachainHeader)
    ensures ItemsLength(MandatoryItems(h)) == MandatorySum(h)
  {
    hide StringLength, ItemsLength, Num;
    var a, b, c := LeadingItems(h), MiddleItems(h), TrailingItems(h);
    FiveLength(a[0], a[1], a[2], a[3], a[4]);
    FiveLength(b[0], b[1], b[2], b[3], b[4]);
    FiveLength(c[0], c[1], c[2], c[3], c[4]);
    ItemsLengthConcat(a, b);
    ItemsLengthConcat(a + b, c);
  }

  lemma MandatoryLength(h: BerachainHeader)
    ensures ItemsLength(MandatoryItems(h)) <= 556 + StringLength(h.extraData)
  {
    hide StringLength, ItemsLength, Num;
    MandatorySumExact(h);
    FixedLengths();
    NumLength(h.difficulty);
    NumLength(h.number);
    NumLength(h.gasLimit);
    NumLength(h.gasUsed);
    NumLength(h.timestamp);
  }

  lemma PresentNumLength(o: Option<U64>)
    ensures ItemsLength(PresentNum(o)) <= 9
  {
    if o.Some? {
      NumLength(o.value);
      assert PresentNum(o)[1..] == [];
    }
  }

  lemma PresentBytesLength(o: Option<Bytes>, n: nat)
    requires o.Some? ==> |o.value| == n
    requires n == 32 || n == 48
    ensures ItemsLength(PresentBytes(o)) <= n + 1
  {
    if o.Some? {
      FixedLengths();
      assert PresentBytes(o)[1..] == [];
    }
  }

  lemma OptionalLength(h: BerachainHeader)
    ensures ItemsLength(OptionalItems(h)) <= 175
  {
    hide StringLength, ItemsLength, PresentNum, PresentBytes;
    OptionalSumExact(h);
    PresentNumLength(h.baseFeePerGas);
    PresentBytesLength(h.withdrawalsRoot, 32);
    PresentNumLength(h.blobGasUsed);
    PresentNumLength(h.excessBlobGas);
    PresentBytesLength(h.parentBeaconBlockRoot, 32);
    PresentBytesLength(h.requestsHash, 32);
    PresentBytesLength(h.prevProposerPubkey, 48);
  }

  lemma OptionalSumExact(h: BerachainHeader)
    ensures ItemsLength(OptionalItems(h))
         == ItemsLength(PresentNum(h.baseFeePerGas)) + ItemsLength(PresentBytes(h.withdrawalsRoot))
            + ItemsLength(PresentNum(h.blobGasUsed)) + ItemsLength(PresentNum(h.excessBlobGas))
            + ItemsLength(PresentBytes(h.parentBeaconBlockRoot)) + ItemsLength(PresentBytes(h.requestsHash))
            + ItemsLength(PresentBytes(h.prevProposerPubkey))
  {
    hide StringLength, ItemsLength, PresentNum, PresentBytes;
    var p1 := PresentNum(h.baseFeePerGas) + PresentBytes(h.withdrawalsRoot);
    var p2 := p1 + PresentNum(h.blobGasUsed);
    var p3 := p2 + PresentNum(h.excessBlobGas);
    var p4 := p3 + PresentBytes(h.parentBeaconBlockRoot);
    var p5 := p4 + PresentBytes(h.requestsHash);
    ItemsLengthConcat(PresentNum(h.baseFeePerGas), PresentBytes(h.withdrawalsRoot));
    ItemsLengthConcat(p1, PresentNum(h.blobGasUsed));
    ItemsLengthConcat(p2, PresentNum(h.excessBlobGas));
    ItemsLengthConcat(p3, PresentBytes(h.parentBeaconBlockRoot));
    ItemsLengthConcat(p4, PresentBytes(h.requestsHash));
    ItemsLengthConcat(p5, PresentBytes(h.prevProposerPubkey));
  }

  /** What an optional field adds to the length. */
  function NumSize(o: Option<U64>): nat {
    if o.Some? then StringLength(Num(o.value)) else 0
  }

  function BytesSize(o: Option<Bytes>): nat
    requires o.Some? ==> |o.value| < MAX_BUFFER
  {
    if o.Some? then StringLength(o.value) else 0
  }

  lemma PresentNumSize(o: Option<U64>)
    ensures ItemsLength(PresentNum(o)) == NumSize(o)
  {
    assert o.Some? ==> PresentNum(o)[1..] == [];
  }

  lemma PresentBytesSize(o: Option<Bytes>)
    requires o.Some? ==> |o.value| < MAX_BUFFER
    ensures ItemsLength(PresentBytes(o)) == BytesSize(o)
  {
    assert o.Some? ==> PresentBytes(o)[1..] == [];
  }

  /** The encoded size of all fields: the mandatory ones and, of the others, those present. */
  lemma FieldSizes(h: BerachainHeader)
    ensures |EncodeItems(Items(h))|
         == MandatorySum(h) + NumSize(h.baseFeePerGas) + BytesSize(h.withdrawalsRoot) + NumSize(h.blobGasUsed)
            + NumSize(h.excessBlobGas) + BytesSize(h.parentBeaconBlockRoot) + BytesSize(h.requestsHash)
            + BytesSize(h.prevProposerPubkey)
  {
    hide MandatorySum, NumSize, BytesSize, ItemsLength, EncodeItems, PresentNum, PresentBytes, MandatoryItems;
    MandatorySumExact(h);
    OptionalSumExact(h);
    PresentNumSize(h.baseFeePerGas);
    PresentBytesSize(h.withdrawalsRoot);
    PresentNumSize(h.blobGasUsed);
    PresentNumSize(h.excessBlobGas);
    PresentBytesSize(h.parentBeaconBlockRoot);
    PresentBytesSize(h.requestsHash);
    PresentBytesSize(h.prevProposerPubkey);
    ItemsLengthConcat(MandatoryItems(h), OptionalItems(h));
    ItemsLengthExact(Items(h));
  }

  /** The payload is at most 731 bytes larger than the encoded extra data, whatever the fields. */
  lemma PayloadBound(h: BerachainHeader)
    ensures ItemsLength(Items(h)) <= 731 + StringLength(h.extraData)
    ensures ItemsLength(Items(h)) < TWO_64
  {
    MandatoryLength(h);
    OptionalLength(h);
    ItemsLengthConcat(MandatoryItems(h), OptionalItems(h));
    U64Bytes(|h.extraData|);
  }

  /****** Encoding and decoding ******/

  function Encode(h: BerachainHeader): Bytes {
    PayloadBound(h);
    EncodeList(Items(h))
  }

  function Decode(buf: Blob): Result<(BerachainHeader, Blob), Error> {
    var (items, rest) :- DecodeRecord(MANDATORY, OPTIONAL, ListLengthMismatch, buf);
    RecordExact(MANDATORY, OPTIONAL, ListLengthMismatch, buf, items, rest);
    HeaderItemsExact(items);
    Ok((FromItems(items), rest))
  }

  /** `decode` accepts a buffer as this header and this rest if and only if the present optional
      fields form a prefix and the buffer is the header's encoding followed by the rest. */
  lemma DecodeExact(buf: Blob, h: BerachainHeader, rest: Blob)
    ensures Decode(buf) == Ok((h, rest)) <==> PrefixShaped(h) && buf == Encode(h) + rest
  {
    PayloadBound(h);
    if Decode(buf) == Ok((h, rest)) {
      var (items, rest') := DecodeRecord(MANDATORY, OPTIONAL, ListLengthMismatch, buf).value;
      RecordExact(MANDATORY, OPTIONAL, ListLengthMismatch, buf, items, rest');
      HeaderItemsExact(items);
      ItemsOfHeaderRead(items);
    }
    if PrefixShaped(h) && buf == Encode(h) + rest {
      FromItemsOfHeader(h);
      HeaderItemsExact(Items(h));
      RecordExact(MANDATORY, OPTIONAL, ListLengthMismatch, buf, Items(h), rest);
    }
  }

  /** Round trip, in both directions: exactly the prefix-shaped headers survive the wire. */
  lemma HeaderRoundTrip(h: BerachainHeader, tail: Blob)
    requires |Encode(h) + tail| < MAX_BUFFER
    ensures Decode(Encode(h) + tail) == Ok((h, tail)) <==> PrefixShaped(h)
  {
    DecodeExact(Encode(h) + tail, h, tail);
  }

  /** Every accepted byte string is the unique encoding of what was read from it. */
  lemma HeaderCanonical(buf: Blob)
    requires Decode(buf).Ok?
    ensures var (h, rest) := Decode(buf).value; PrefixShaped(h) && buf == Encode(h) + rest
  {
    var (h, rest) := Decode(buf).value;
    DecodeExact(buf, h, rest);
  }

  /** On prefix-shaped headers the encoding is injective, even with bytes after it. */
  lemma EncodeInjective(h1: BerachainHeader, h2: BerachainHeader, t1: Blob, t2: Blob)
    requires PrefixShaped(h1) && PrefixShaped(h2)
    requires Encode(h1) + t1 == Encode(h2) + t2
    requires |Encode(h1) + t1| < MAX_BUFFER
    ensures h1 == h2 && t1 == t2
  {
    DecodeExact(Encode(h1) + t1, h1, t1);
    DecodeExact(Encode(h2) + t2, h2, t2);
  }

  /** The proposer key is one more item at the end of the list without it, which is the list of an
      Ethereum header. */
  lemma KeyIsAppended(h: BerachainHeader, key: BlsPublicKey)
    requires h.prevProposerPubkey.None?
    ensures Items(h.(prevProposerPubkey := Some(key))) == Items(h) + [key]
    ensures PrefixShaped(h.(prevProposerPubkey := Some(key))) <==> PrefixShaped(h) && h.requestsHash.Some?
  {
    var g := h.(prevProposerPubkey := Some(key));
    assert MandatoryItems(g) == MandatoryItems(h);
    assert OptionalItems(g) == OptionalItems(h) + [key];
  }

  /** `hash_slow`, over an opaque hash function. */
  function HashSlow(keccak: Bytes -> B256, h: BerachainHeader): B256 {
    keccak(Encode(h))
  }

  /** Two headers have one encoding if and only if their item lists agree, whatever their shape. */
  lemma EncodeExact(h1: BerachainHeader, h2: BerachainHeader)
    requires |Encode(h1)| < MAX_BUFFER
    ensures Encode(h1) == Encode(h2) <==> Items(h1) == Items(h2)
  {
    hide Items, EncodeList, ItemsLength;
    PayloadBound(h1);
    PayloadBound(h2);
    if Encode(h1) == Encode(h2) {
      assert Encode(h1) + [] == Encode(h1) && Encode(h2) + [] == Encode(h2);
      ListPrefixFree(Items(h1), Items(h2), [], []);
    }
  }

  /** Two headers share a hash if and only if their item lists agree, unless the hash collides on
      their two preimages. */
  lemma HashExact(keccak: Bytes -> B256, h1: BerachainHeader, h2: BerachainHeader)
    requires |Encode(h1)| < MAX_BUFFER && NoCollision(keccak, Encode(h1), Encode(h2))
    ensures HashSlow(keccak, h1) == HashSlow(keccak, h2) <==> Items(h1) == Items(h2)
  {
    hide Items, Encode;
    EncodeExact(h1, h2);
  }

  /** The two headers carry the same optional fields. */
  predicate SamePresence(h1: BerachainHeader, h2: BerachainHeader) {
    && (h1.baseFeePerGas.Some? <==> h2.baseFeePerGas.Some?)
    && (h1.withdrawalsRoot.Some? <==> h2.withdrawalsRoot.Some?)
    && (h1.blobGasUsed.Some? <==> h2.blobGasUsed.Some?)
    && (h1.excessBlobGas.Some? <==> h2.excessBlobGas.Some?)
    && (h1.parentBeaconBlockRoot.Some? <==> h2.parentBeaconBlockRoot.Some?)
    && (h1.requestsHash.Some? <==> h2.requestsHash.Some?)
    && (h1.prevProposerPubkey.Some? <==> h2.prevProposerPubkey.Some?)
  }

  lemma SplitLast(a: seq<Blob>, x: seq<Blob>, b: seq<Blob>, y: seq<Blob>)
    requires a + x == b + y && |x| == |y|
    ensures a == b && x == y
  {
    assert (a + x)[..|a|] == a && (b + y)[..|b|] == b && (a + x)[|a|..] == x && (b + y)[|b|..] == y;
  }

  lemma SameNum(o1: Option<U64>, o2: Option<U64>)
    requires o1.Some? <==> o2.Some?
    ensures |PresentNum(o1)| == |PresentNum(o2)|
    ensures PresentNum(o1) == PresentNum(o2) ==> o1 == o2
  {
    if o1.Some? && PresentNum(o1) == PresentNum(o2) {
      assert PresentNum(o1)[0] == PresentNum(o2)[0];
      NumRoundTrip(o1.value);
      NumRoundTrip(o2.value);
    }
  }

  lemma SameBytes(o1: Option<Bytes>, o2: Option<Bytes>)
    requires o1.Some? <==> o2.Some?
    requires (o1.Some? ==> |o1.value| < MAX_BUFFER) && (o2.Some? ==> |o2.value| < MAX_BUFFER)
    ensures |PresentBytes(o1)| == |PresentBytes(o2)|
    ensures PresentBytes(o1) == PresentBytes(o2) ==> o1 == o2
  {
    if o1.Some? && PresentBytes(o1) == PresentBytes(o2) {
      assert PresentBytes(o1)[0] == PresentBytes(o2)[0];
    }
  }

  lemma OptionalInjective(h1: BerachainHeader, h2: BerachainHeader)
    requires SamePresence(h1, h2) && OptionalItems(h1) == OptionalItems(h2)
    ensures h1.baseFeePerGas == h2.baseFeePerGas && h1.withdrawalsRoot == h2.withdrawalsRoot
            && h1.blobGasUsed == h2.blobGasUsed && h1.excessBlobGas == h2.excessBlobGas
            && h1.parentBeaconBlockRoot == h2.parentBeaconBlockRoot && h1.requestsHash == h2.requestsHash
            && h1.prevProposerPubkey == h2.prevProposerPubkey
  {
    hide PresentNum, PresentBytes;
    SameNum(h1.baseFeePerGas, h2.baseFeePerGas);
    SameBytes(h1.withdrawalsRoot, h2.withdrawalsRoot);
    SameNum(h1.blobGasUsed, h2.blobGasUsed);
    SameNum(h1.excessBlobGas, h2.excessBlobGas);
    SameBytes(h1.parentBeaconBlockRoot, h2.parentBeaconBlockRoot);
    SameBytes(h1.requestsHash, h2.requestsHash);
    SameBytes(h1.prevProposerPubkey, h2.prevProposerPubkey);
    var a1, b1 := PresentNum(h1.baseFeePerGas), PresentNum(h2.baseFeePerGas);
    var a2, b2 := a1 + PresentBytes(h1.withdrawalsRoot), b1 + PresentBytes(h2.withdrawalsRoot);
    var a3, b3 := a2 + PresentNum(h1.blobGasUsed), b2 + PresentNum(h2.blobGasUsed);
    var a4, b4 := a3 + PresentNum(h1.excessBlobGas), b3 + PresentNum(h2.excessBlobGas);
    var a5, b5 := a4 + PresentBytes(h1.parentBeaconBlockRoot), b4 + PresentBytes(h2.parentBeaconBlockRoot);
    var a6, b6 := a5 + PresentBytes(h1.requestsHash), b5 + PresentBytes(h2.requestsHash);
    SplitLast(a6, PresentBytes(h1.prevProposerPubkey), b6, PresentBytes(h2.prevProposerPubkey));
    SplitLast(a5, PresentBytes(h1.requestsHash), b5, PresentBytes(h2.requestsHash));
    SplitLast(a4, PresentBytes(h1.parentBeaconBlockRoot), b4, PresentBytes(h2.parentBeaconBlockRoot));
    SplitLast(a3, PresentNum(h1.excessBlobGas), b3, PresentNum(h2.excessBlobGas));
    SplitLast(a2, PresentNum(h1.blobGasUsed), b2, PresentNum(h2.blobGasUsed));
    SplitLast(a1, PresentBytes(h1.withdrawalsRoot), b1, PresentBytes(h2.withdrawalsRoot));
  }

  lemma SameNumber(m: U256, n: U256)
    requires Num(m) == Num(n)
    ensures m == n
  {
    NumRoundTrip(m);
    NumRoundTrip(n);
  }

  lemma MandatoryInjective(h1: BerachainHeader, h2: BerachainHeader)
    requires LeadingItems(h1) == LeadingItems(h2) && MiddleItems(h1) == MiddleItems(h2) && TrailingItems(h1) == TrailingItems(h2)
    ensures h1.parentHash == h2.parentHash && h1.ommersHash == h2.ommersHash && h1.beneficiary == h2.beneficiary
            && h1.stateRoot == h2.stateRoot && h1.transactionsRoot == h2.transactionsRoot
            && h1.receiptsRoot == h2.receiptsRoot && h1.logsBloom == h2.logsBloom && h1.difficulty == h2.difficulty
            && h1.number == h2.number && h1.gasLimit == h2.gasLimit && h1.gasUsed == h2.gasUsed
            && h1.timestamp == h2.timestamp && h1.extraData == h2.extraData && h1.mixHash == h2.mixHash && h1.nonce == h2.nonce
  {
    hide Num;
    assert forall i :: 0 <= i < 5 ==> LeadingItems(h1)[i] == LeadingItems(h2)[i];
    assert forall i :: 0 <= i < 5 ==> MiddleItems(h1)[i] == MiddleItems(h2)[i];
    assert forall i :: 0 <= i < 5 ==> TrailingItems(h1)[i] == TrailingItems(h2)[i];
    SameNumber(h1.difficulty, h2.difficulty);
    SameNumber(h1.number, h2.number);
    SameNumber(h1.gasLimit, h2.gasLimit);
    SameNumber(h1.gasUsed, h2.gasUsed);
    SameNumber(h1.timestamp, h2.timestamp);
  }

  /** What the missing presence bits cost: headers with one encoding are the same header if and only
      if they carry the same optional fields. */
  lemma EncodingAmbiguityExact(h1: BerachainHeader, h2: BerachainHeader)
    requires Encode(h1) == Encode(h2) && |Encode(h1)| < MAX_BUFFER
    ensures h1 == h2 <==> SamePresence(h1, h2)
  {
    hide Encode, OptionalItems, LeadingItems, MiddleItems, TrailingItems;
    if SamePresence(h1, h2) {
      EncodeExact(h1, h2);
      ItemsAt(h1);
      ItemsAt(h2);
      OptionalInjective(h1, h2);
      MandatoryInjective(h1, h2);
    }
  }

  /** Such a pair exists: moving a lone base fee to the blob gas
      slot changes the header and not one byte of its encoding, so every hash agrees. */
  lemma ShapelessCollision(h: BerachainHeader, fee: U64, keccak: Bytes -> B256)
    requires h.baseFeePerGas == Some(fee) && h.withdrawalsRoot == h.parentBeaconBlockRoot == h.requestsHash == None
    requires h.blobGasUsed == h.excessBlobGas == None && h.prevProposerPubkey == None
    ensures var g := h.(baseFeePerGas := None, blobGasUsed := Some(fee));
            PrefixShaped(h) && !PrefixShaped(g) && g != h && Encode(g) == Encode(h)
            && HashSlow(keccak, g) == HashSlow(keccak, h)
  {
    var g := h.(baseFeePerGas := None, blobGasUsed := Some(fee));
    assert OptionalItems(g) == [Num(fee)] == OptionalItems(h);
    assert MandatoryItems(g) == MandatoryItems(h);
  }

  /****** The codec in place ******/

  /** `header_payload_length`: a sum over the fields, apart from the encoder. It is the number of bytes
      that the encoder then writes after the list head. */
  method HeaderPayloadLength(h: BerachainHeader) returns (length: nat)
    ensures length == |EncodeItems(Items(h))|
  {
    hide StringLength, Num, Items, EncodeItems;
    length := 0;
    length := length + StringLength(h.parentHash);
    length := length + StringLength(h.ommersHash);
    length := length + StringLength(h.beneficiary);
    length := length + StringLength(h.stateRoot);
    length := length + StringLength(h.transactionsRoot);
    length := length + StringLength(h.receiptsRoot);
    length := length + StringLength(h.logsBloom);
    length := length + StringLength(Num(h.difficulty));
    length := length + StringLength(Num(h.number));
    length := length + StringLength(Num(h.gasLimit));
    length := length + StringLength(Num(h.gasUsed));
    length := length + StringLength(Num(h.timestamp));
    length := length + StringLength(h.extraData);
    length := length + StringLength(h.mixHash);
    length := length + StringLength(h.nonce);
    ghost var fixedSize := length;
    assert fixedSize == MandatorySum(h);
    hide MandatorySum;
    if h.baseFeePerGas.Some? {
      length := length + StringLength(Num(h.baseFeePerGas.value));
    }
    if h.withdrawalsRoot.Some? {
      length := length + StringLength(h.withdrawalsRoot.value);
    }
    assert length == fixedSize + NumSize(h.baseFeePerGas) + BytesSize(h.withdrawalsRoot);
    ghost var first := length;
    if h.blobGasUsed.Some? {
      length := length + StringLength(Num(h.blobGasUsed.value));
    }
    if h.excessBlobGas.Some? {
      length := length + StringLength(Num(h.excessBlobGas.value));
    }
    assert length == first + NumSize(h.blobGasUsed) + NumSize(h.excessBlobGas);
    ghost var second := length;
    if h.parentBeaconBlockRoot.Some? {
      length := length + StringLength(h.parentBeaconBlockRoot.value);
    }
    if h.requestsHash.Some? {
      length := length + StringLength(h.requestsHash.value);
    }
    if h.prevProposerPubkey.Some? {
      length := length + StringLength(h.prevProposerPubkey.value);
    }
    assert length == second + BytesSize(h.parentBeaconBlockRoot) + BytesSize(h.requestsHash) + BytesSize(h.prevProposerPubkey);
    hide NumSize, BytesSize;
    FieldSizes(h);
  }

  /** `length`: the exact size of the encoding, computed without encoding. */
  method Length(h: BerachainHeader) returns (length: nat)
    ensures length == |Encode(h)|
  {
    length := HeaderPayloadLength(h);
    PayloadBound(h);
    ItemsLengthExact(Items(h));
    LengthHeaderSize(true, length);
    length := length + LengthOfLength(length);
  }

  method EncodeHeaderTo(h: BerachainHeader, out: Output)
    modifies out
    ensures out.bytes == old(out.bytes) + Encode(h)
  {
    var payloadLength := HeaderPayloadLength(h);
    PayloadBound(h);
    ItemsLengthExact(Items(h));
    EncodeTo(payloadLength, Items(h), out);
  }

  /** Reads a header at the cursor. Success consumes exactly the header's own encoding; a refusal
      means that no prefix-shaped header is encoded there. */
  method DecodeHeaderFrom(cursor: Cursor) returns (r: Result<BerachainHeader, Error>)
    modifies cursor
    ensures r.Ok? ==> PrefixShaped(r.value) && old(cursor.buf) == Encode(r.value) + cursor.buf
    ensures r.Err? ==> Decode(old(cursor.buf)) == Err(r.error)
    ensures r.Err? ==> forall h, rest: Blob :: PrefixShaped(h) ==> old(cursor.buf) != Encode(h) + rest
  {
    ghost var input := cursor.buf;
    forall h, rest: Blob | PrefixShaped(h) && input == Encode(h) + rest ensures Decode(input).Ok? {
      DecodeExact(input, h, rest);
    }
    var items :- DecodeFrom(MANDATORY, OPTIONAL, ListLengthMismatch, cursor);
    RecordExact(MANDATORY, OPTIONAL, ListLengthMismatch, input, items, cursor.buf);
    HeaderItemsExact(items);
    HeaderCanonical(input);
    return Ok(FromItems(items));
  }
}
