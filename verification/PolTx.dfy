/**
 The proof-of-liquidity transaction: its RLP and EIP-2718 codecs, how it is derived from a block,
 and when it is accepted (src/transaction/mod.rs, src/transaction/pol.rs).
 */
module PolTx {
  import opened Base
  import opened Rlp
  import opened Record
  import opened RecordCodec
  import opened Header
  import opened ChainSpec

  const POL_TX_TYPE: Byte := 0x7E
  const TX_TYPE_BYTE_MAX: Byte := 0x7F
  const POL_TX_GAS_LIMIT: U64 := 30_000_000

  datatype PoLTx = PoLTx(
    chainId: U64, from: Address, to: Address, nonce: U64, gasLimit: U64, gasPrice: U128, input: Blob)

  /****** Codec ******/

  const KINDS: seq<Kind> := [Uint(8), Fixed(20), Fixed(20), Uint(8), Uint(8), Uint(16), Raw]

  function Items(t: PoLTx): seq<Blob> {
    [Num(t.chainId), t.from, t.to, Num(t.nonce), Num(t.gasLimit), Num(t.gasPrice), t.input]
  }

  predicate PolItems(items: seq<Blob>) {
    && |items| == 7
    && Fits(Uint(8), items[0]) && |items[1]| == 20 && |items[2]| == 20 && Fits(Uint(8), items[3])
    && Fits(Uint(8), items[4]) && Fits(Uint(16), items[5])
  }

  lemma PolItemsExact(items: seq<Blob>)
    ensures PolItems(items) <==> Conforms(KINDS, [], items)
  {
    assert KINDS + [] == KINDS;
    if Conforms(KINDS, [], items) {
      assert forall i :: 0 <= i < 7 ==> Fits(KINDS[i], items[i]);
    }
  }

  function ReadU128(s: Blob): (n: U128)
    requires Fits(Uint(16), s)
    ensures Num(n) == s
  {
    ReadNumFits(16, s);
    Pow256Values();
    BigEndianUnique(s);
    ReadNum(s)
  }

  function FromItems(items: seq<Blob>): PoLTx
    requires PolItems(items)
  {
    PoLTx(ReadU64(items[0]), items[1], items[2], ReadU64(items[3]), ReadU64(items[4]), ReadU128(items[5]), items[6])
  }

  lemma FromItemsOfTx(t: PoLTx)
    ensures PolItems(Items(t)) && FromItems(Items(t)) == t
  {
    NumRoundTrip(t.chainId);
    NumRoundTrip(t.nonce);
    NumRoundTrip(t.gasLimit);
    NumRoundTrip(t.gasPrice);
  }

  lemma ItemsOfTxRead(items: seq<Blob>)
    requires PolItems(items)
    ensures Items(FromItems(items)) == items
  {
  }

  /** The payload is at most 102 bytes larger than the encoded input. */
  lemma PayloadBound(t: PoLTx)
    ensures ItemsLength(Items(t))
         == StringLength(Num(t.chainId)) + 42 + StringLength(Num(t.nonce)) + StringLength(Num(t.gasLimit))
            + StringLength(Num(t.gasPrice)) + StringLength(t.input)
    ensures ItemsLength(Items(t)) <= 102 + StringLength(t.input)
    ensures ItemsLength(Items(t)) < TWO_64
  {
    SevenLength(Num(t.chainId), t.from, t.to, Num(t.nonce), Num(t.gasLimit), Num(t.gasPrice), t.input);
    InputLength(t.input);
    hide StringLength, ItemsLength, Num;
    FixedLengths();
    NumLength(t.chainId);
    NumLength(t.nonce);
    NumLength(t.gasLimit);
    NumLength(t.gasPrice);
  }

  lemma InputLength(s: Blob)
    ensures |s| <= StringLength(s) <= |s| + 9
  {
    U64Bytes(|s|);
  }

  lemma SevenLength(a: Blob, b: Blob, c: Blob, d: Blob, e: Blob, f: Blob, g: Blob)
    ensures ItemsLength([a, b, c, d, e, f, g])
         == StringLength(a) + StringLength(b) + StringLength(c) + StringLength(d) + StringLength(e) + StringLength(f)
            + StringLength(g)
  {
    hide StringLength;
    assert [a, b, c, d, e, f, g] == [a, b, c, d, e] + [f, g];
    ItemsLengthConcat([a, b, c, d, e], [f, g]);
    FiveLength(a, b, c, d, e);
    assert [f, g][1..] == [g] && [g][1..] == [];
    assert ItemsLength([g]) == StringLength(g);
  }

  /** The order of the fields on the wire: chain, sender, recipient, nonce, gas limit, gas price, input. */
  lemma FieldOrder(t: PoLTx)
    ensures PolItems(Items(t))
    ensures ReadU64(Items(t)[0]) == t.chainId && Items(t)[1] == t.from && Items(t)[2] == t.to
    ensures ReadU64(Items(t)[3]) == t.nonce && ReadU64(Items(t)[4]) == t.gasLimit && ReadU128(Items(t)[5]) == t.gasPrice
    ensures Items(t)[6] == t.input
  {
    NumRoundTrip(t.chainId);
    NumRoundTrip(t.nonce);
    NumRoundTrip(t.gasLimit);
    NumRoundTrip(t.gasPrice);
  }

  function RlpEncode(t: PoLTx): (e: Bytes)
    ensures e != []
  {
    PayloadBound(t);
    EncodeList(Items(t))
  }

  function RlpDecode(buf: Blob): Result<(PoLTx, Blob), Error> {
    var (items, rest) :- DecodeRecord(KINDS, [], UnexpectedLength, buf);
    RecordExact(KINDS, [], UnexpectedLength, buf, items, rest);
    PolItemsExact(items);
    Ok((FromItems(items), rest))
  }

  /** `rlp_decode` accepts exactly the encodings: it inverts `rlp_encode` before any tail, and what
      it accepts re-encodes to the bytes it consumed. */
  lemma RlpDecodeExact(buf: Blob, t: PoLTx, rest: Blob)
    ensures RlpDecode(buf) == Ok((t, rest)) <==> buf == RlpEncode(t) + rest
  {
    PayloadBound(t);
    if RlpDecode(buf) == Ok((t, rest)) {
      var (items, rest') := DecodeRecord(KINDS, [], UnexpectedLength, buf).value;
      RecordExact(KINDS, [], UnexpectedLength, buf, items, rest');
      PolItemsExact(items);
      ItemsOfTxRead(items);
    }
    if buf == RlpEncode(t) + rest {
      FromItemsOfTx(t);
      PolItemsExact(Items(t));
      RecordExact(KINDS, [], UnexpectedLength, buf, Items(t), rest);
    }
  }

  function Encode2718(t: PoLTx): Bytes {
    [POL_TX_TYPE] + RlpEncode(t)
  }

  datatype DecodeError = UnexpectedType(ty: Byte) | RlpError(error: Error)

  function FallbackDecode(buf: Blob): Result<(PoLTx, Blob), DecodeError> {
    match RlpDecode(buf)
    case Ok(read) => Ok(read)
    case Err(e) => Err(RlpError(e))
  }

  function TypedDecode(ty: Byte, buf: Blob): Result<(PoLTx, Blob), DecodeError> {
    if ty != POL_TX_TYPE then Err(UnexpectedType(ty)) else FallbackDecode(buf)
  }

  /** EIP-2718: a first byte in the type range selects the typed form, anything else falls back to
      the bare list. */
  function Decode2718(buf: Blob): Result<(PoLTx, Blob), DecodeError> {
    if buf != [] && buf[0] <= TX_TYPE_BYTE_MAX then TypedDecode(buf[0], buf[1..]) else FallbackDecode(buf)
  }

  lemma ListStartsHigh(t: PoLTx)
    ensures RlpEncode(t)[0] >= 0xC0
  {
  }

  /** The EIP-2718 decoder accepts exactly two spellings of a transaction: the typed one, which
      `encode_2718` produces, and the bare RLP list. */
  lemma Decode2718Exact(buf: Blob, t: PoLTx, rest: Blob)
    ensures Decode2718(buf) == Ok((t, rest)) <==>
            buf == Encode2718(t) + rest || buf == RlpEncode(t) + rest
  {
    hide RlpEncode, RlpDecode;
    ListStartsHigh(t);
    if buf != [] {
      RlpDecodeExact(buf[1..], t, rest);
      assert buf == [buf[0]] + buf[1..];
      if buf == Encode2718(t) + rest {
        assert buf[1..] == RlpEncode(t) + rest;
      }
    }
    RlpDecodeExact(buf, t, rest);
  }

  /** So an accepted input re-encodes to the bytes consumed if and only if it starts with the type
      byte, which is what a caller can check. */
  lemma Decode2718Canonical(buf: Blob)
    requires Decode2718(buf).Ok?
    ensures var (t, rest) := Decode2718(buf).value; buf == Encode2718(t) + rest <==> buf[0] == 0x7E
  {
    hide RlpEncode, RlpDecode;
    var (t, rest) := Decode2718(buf).value;
    Decode2718Exact(buf, t, rest);
    ListStartsHigh(t);
  }

  lemma Encode2718Injective(t1: PoLTx, t2: PoLTx)
    requires Encode2718(t1) == Encode2718(t2) && |Encode2718(t1)| < MAX_BUFFER
    ensures t1 == t2
  {
    hide RlpEncode;
    assert Encode2718(t1)[1..] == RlpEncode(t1) && Encode2718(t2)[1..] == RlpEncode(t2);
    assert RlpEncode(t1) + [] == RlpEncode(t1);
    RlpDecodeExact(RlpEncode(t1), t1, []);
    RlpDecodeExact(RlpEncode(t1), t2, []);
  }

  /****** The codec in place ******/

  /** `rlp_payload_length`: a sum over the fields, apart from the encoder. */
  method RlpPayloadLength(t: PoLTx) returns (length: nat)
    ensures length == ItemsLength(Items(t)) == |EncodeItems(Items(t))|
  {
    length := StringLength(Num(t.chainId)) + StringLength(t.from) + StringLength(t.to) + StringLength(Num(t.nonce))
      + StringLength(Num(t.gasLimit)) + StringLength(Num(t.gasPrice)) + StringLength(t.input);
    hide StringLength, Num;
    SevenLength(Num(t.chainId), t.from, t.to, Num(t.nonce), Num(t.gasLimit), Num(t.gasPrice), t.input);
    ItemsLengthExact(Items(t));
  }

  /** `encode_2718_len` is exact. */
  method Encode2718Length(t: PoLTx) returns (length: nat)
    ensures length == |Encode2718(t)|
  {
    var payload := RlpPayloadLength(t);
    PayloadBound(t);
    LengthHeaderSize(true, payload);
    length := 1 + LengthOfLength(payload) + payload;
  }

  method Encode2718To(t: PoLTx, out: Output)
    modifies out
    ensures out.bytes == old(out.bytes) + Encode2718(t)
  {
    PayloadBound(t);
    out.Append([POL_TX_TYPE]);
    var payload := RlpPayloadLength(t);
    EncodeTo(payload, Items(t), out);
    AppendAssociative(old(out.bytes), [POL_TX_TYPE], RlpEncode(t));
  }

  method RlpDecodeFrom(cursor: Cursor) returns (r: Result<PoLTx, Error>)
    modifies cursor
    ensures r.Ok? ==> old(cursor.buf) == RlpEncode(r.value) + cursor.buf
    ensures r.Err? ==> RlpDecode(old(cursor.buf)) == Err(r.error)
    ensures r.Err? ==> forall t, rest: Blob :: old(cursor.buf) != RlpEncode(t) + rest
  {
    ghost var input := cursor.buf;
    forall t, rest: Blob | input == RlpEncode(t) + rest ensures RlpDecode(input).Ok? {
      RlpDecodeExact(input, t, rest);
    }
    var items :- DecodeFrom(KINDS, [], UnexpectedLength, cursor);
    RecordExact(KINDS, [], UnexpectedLength, input, items, cursor.buf);
    PolItemsExact(items);
    ItemsOfTxRead(items);
    return Ok(FromItems(items));
  }

  /****** Sealing and validation ******/

  type Keccak = Bytes -> B256

  function TxHash(keccak: Keccak, t: PoLTx): B256 {
    keccak(Encode2718(t))
  }

  /** A transaction with the hash it carries. */
  datatype Sealed = Sealed(tx: PoLTx, hash: B256)

  function Seal(keccak: Keccak, t: PoLTx): Sealed {
    Sealed(t, TxHash(keccak, t))
  }

  /** 0xfffffffffffffffffffffffffffffffffffffffe */
  const SYSTEM_ADDRESS: Address := [
    0xFF, 0xFF, 0xFF, 0xFF, 0xFF, 0xFF, 0xFF, 0xFF, 0xFF, 0xFF,
    0xFF, 0xFF, 0xFF, 0xFF, 0xFF, 0xFF, 0xFF, 0xFF, 0xFF, 0xFE]

  /** "distributeFor(bytes)" in ASCII. */
  const DISTRIBUTE_FOR: Bytes := [
    0x64, 0x69, 0x73, 0x74, 0x72, 0x69, 0x62, 0x75, 0x74, 0x65,
    0x46, 0x6F, 0x72, 0x28, 0x62, 0x79, 0x74, 0x65, 0x73, 0x29]

  function Word(n: Byte): (w: Bytes)
    ensures |w| == 32
  {
    Zeros(31) + [n]
  }

  /** The ABI call: selector, offset of the argument, its length, and the key padded to words. */
  function DistributeCall(keccak: Keccak, pubkey: BlsPublicKey): (call: Blob)
    ensures |call| == 132
  {
    keccak(DISTRIBUTE_FOR)[..4] + Word(32) + Word(48) + pubkey + Zeros(16)
  }

  lemma DistributeCallInjective(keccak: Keccak, p1: BlsPublicKey, p2: BlsPublicKey)
    requires DistributeCall(keccak, p1) == DistributeCall(keccak, p2)
    ensures p1 == p2
  {
    hide Zeros;
    var c1, c2 := DistributeCall(keccak, p1), DistributeCall(keccak, p2);
    assert c1[68..116] == p1 && c2[68..116] == p2;
  }

  /** The signature spells its name, and the system address is 2^160 - 2. */
  lemma SignatureSpelled()
    ensures |DISTRIBUTE_FOR| == |"distributeFor(bytes)"|
    ensures forall i :: 0 <= i < |DISTRIBUTE_FOR| ==> DISTRIBUTE_FOR[i] == "distributeFor(bytes)"[i] as int
    ensures forall i :: 0 <= i < 20 ==> SYSTEM_ADDRESS[i] == if i < 19 then 0xFF else 0xFE
  {
  }

  /** How the callee reads the single dynamic argument of a call: the word after the selector says where
      it starts, the word there how long it is. */
  function AbiBytesArgument(call: Bytes): Option<Bytes> {
    if |call| < 36 then None
    else
      var start := 4 + FromBigEndian(call[4..36]);
      if start + 32 > |call| then None
      else
        var length := FromBigEndian(call[start..start + 32]);
        if start + 32 + length > |call| then None else Some(call[start + 32..start + 32 + length])
  }

  lemma WordReads(n: Byte)
    ensures FromBigEndian(Word(n)) == n
  {
    LeadingZeros(31, [n]);
    assert [n][..0] == [];
  }

  /** The call selects the function by its signature's hash, the callee reads exactly the key as its
      argument, and the arguments fill whole words with zeros at the end. */
  lemma DistributeCallReads(keccak: Keccak, pubkey: BlsPublicKey)
    ensures var call := DistributeCall(keccak, pubkey);
            call[..4] == keccak(DISTRIBUTE_FOR)[..4] && AbiBytesArgument(call) == Some(pubkey)
            && (|call| - 4) % 32 == 0 && call[116..] == Zeros(16)
  {
    hide Zeros, Word, FromBigEndian;
    var call, selector := DistributeCall(keccak, pubkey), keccak(DISTRIBUTE_FOR)[..4];
    assert call == selector + Word(32) + Word(48) + pubkey + Zeros(16);
    assert call[4..36] == Word(32);
    assert call[36..68] == Word(48);
    assert call[68..116] == pubkey;
    WordReads(32);
    WordReads(48);
  }

  /** The transaction's nonce is the block number minus one, in wrapping 256-bit arithmetic. */
  function PolNonce(blockNumber: U256): U256 {
    (blockNumber + TWO_256 - 1) % TWO_256
  }

  datatype PolError = NonceOverflow

  function CreatePolTransaction(keccak: Keccak, spec: ChainSpec, pubkey: BlsPublicKey, blockNumber: U256, baseFee: U64)
    : Result<Sealed, PolError>
  {
    if PolNonce(blockNumber) >= TWO_64 then Err(NonceOverflow)
    else
      Ok(Seal(keccak, PoLTx(
                chainId := spec.chainId,
                from := SYSTEM_ADDRESS,
                to := spec.polContract,
                nonce := PolNonce(blockNumber),
                gasLimit := POL_TX_GAS_LIMIT,
                gasPrice := baseFee,
                input := DistributeCall(keccak, pubkey))))
  }

  /** The transaction exists for every block number from 1 to 2^64, and only for those. */
  lemma CreationDefined(keccak: Keccak, spec: ChainSpec, pubkey: BlsPublicKey, blockNumber: U256, baseFee: U64)
    ensures CreatePolTransaction(keccak, spec, pubkey, blockNumber, baseFee).Ok? <==> 1 <= blockNumber <= TWO_64
    ensures 1 <= blockNumber <= TWO_64 ==>
              CreatePolTransaction(keccak, spec, pubkey, blockNumber, baseFee).value.tx.nonce == blockNumber - 1
  {
    hide TxHash, DistributeCall;
    if blockNumber >= 1 {
      assert blockNumber + TWO_256 - 1 == (blockNumber - 1) + TWO_256;
      assert PolNonce(blockNumber) == blockNumber - 1;
    }
  }

  /** Whatever the block, the transaction is at most 211 bytes long. */
  lemma CreatedSize(keccak: Keccak, spec: ChainSpec, pubkey: BlsPublicKey, blockNumber: U256, baseFee: U64)
    requires CreatePolTransaction(keccak, spec, pubkey, blockNumber, baseFee).Ok?
    ensures |Encode2718(CreatePolTransaction(keccak, spec, pubkey, blockNumber, baseFee).value.tx)| <= 211
  {
    hide DistributeCall, PolNonce, TxHash, Num;
    var t := CreatePolTransaction(keccak, spec, pubkey, blockNumber, baseFee).value.tx;
    EncodedSize(t);
  }

  lemma EncodedSize(t: PoLTx)
    requires t.gasLimit == POL_TX_GAS_LIMIT && t.gasPrice < TWO_64 && |t.input| == 132
    ensures |Encode2718(t)| <= 211
  {
    hide Num, ItemsLength;
    PayloadBound(t);
    ItemsLengthExact(Items(t));
    NumLength(t.chainId);
    NumLength(t.nonce);
    NumLength(t.gasPrice);
    GasLimitLength();
    ShortLengths(132);
    ShortLengths(ItemsLength(Items(t)));
    LengthHeaderSize(true, ItemsLength(Items(t)));
  }

  lemma GasLimitLength()
    ensures StringLength(Num(POL_TX_GAS_LIMIT)) <= 5
  {
    assert Pow256(4) == 0x1_0000_0000;
    BigEndianLength(POL_TX_GAS_LIMIT, 4);
  }

  lemma ShortLengths(n: nat)
    requires n < 256
    ensures LengthOfLength(n) <= 2
  {
    assert Pow256(1) == 256;
    BigEndianLength(n, 1);
  }

  datatype PolRejection = CannotCreate | HashMismatch

  function ValidatePolTransaction(keccak: Keccak, spec: ChainSpec, tx: Sealed, pubkey: BlsPublicKey, blockNumber: U256, baseFee: U64)
    : Result<(), PolRejection>
  {
    match CreatePolTransaction(keccak, spec, pubkey, blockNumber, baseFee)
    case Err(_) => Err(CannotCreate)
    case Ok(expected) => if tx.hash != expected.hash then Err(HashMismatch) else Ok(())
  }

  /** A correctly sealed transaction is accepted if and only if every field is what the block's
      number, base fee and proposer key dictate, unless the hash collides on the two encodings. */
  lemma ValidateExact(keccak: Keccak, spec: ChainSpec, t: PoLTx, pubkey: BlsPublicKey, blockNumber: U256, baseFee: U64)
    requires |Encode2718(t)| < MAX_BUFFER
    requires var created := CreatePolTransaction(keccak, spec, pubkey, blockNumber, baseFee);
             created.Ok? ==> NoCollision(keccak, Encode2718(t), Encode2718(created.value.tx))
    ensures ValidatePolTransaction(keccak, spec, Seal(keccak, t), pubkey, blockNumber, baseFee).Ok?
       <==> && 1 <= blockNumber <= TWO_64
            && t.chainId == spec.chainId && t.from == SYSTEM_ADDRESS && t.to == spec.polContract
            && t.nonce == blockNumber - 1 && t.gasLimit == POL_TX_GAS_LIMIT && t.gasPrice == baseFee
            && t.input == DistributeCall(keccak, pubkey)
  {
    hide Encode2718, DistributeCall, PolNonce;
    CreationDefined(keccak, spec, pubkey, blockNumber, baseFee);
    var created := CreatePolTransaction(keccak, spec, pubkey, blockNumber, baseFee);
    if created.Ok? && Seal(keccak, t).hash == created.value.hash {
      Encode2718Injective(t, created.value.tx);
    }
  }

  /** One transaction cannot be valid for two blocks that differ in number, base fee or proposer. */
  lemma ValidForOneBlockOnly(keccak: Keccak, spec: ChainSpec, p1: BlsPublicKey, n1: U256, b1: U64, p2: BlsPublicKey, n2: U256, b2: U64)
    requires CreatePolTransaction(keccak, spec, p1, n1, b1).Ok? && CreatePolTransaction(keccak, spec, p2, n2, b2).Ok?
    ensures CreatePolTransaction(keccak, spec, p1, n1, b1).value.tx == CreatePolTransaction(keccak, spec, p2, n2, b2).value.tx
       <==> p1 == p2 && n1 == n2 && b1 == b2
  {
    hide DistributeCall, PolNonce, TxHash;
    CreationDefined(keccak, spec, p1, n1, b1);
    CreationDefined(keccak, spec, p2, n2, b2);
    if DistributeCall(keccak, p1) == DistributeCall(keccak, p2) {
      DistributeCallInjective(keccak, p1, p2);
    }
  }
}
