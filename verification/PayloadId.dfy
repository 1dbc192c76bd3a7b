/** The byte string that identifies a payload job before it is hashed (src/engine/payload.rs). */
module PayloadId {
  import opened Base
  import opened Rlp
  import opened Header
  import opened Withdrawals
  import opened World

  datatype PayloadAttributes = PayloadAttributes(
    timestamp: U64,
    prevRandao: B256,
    suggestedFeeRecipient: Address,
    withdrawals: Option<WithdrawalList>,
    parentBeaconBlockRoot: Option<B256>,
    prevProposerPubkey: Option<BlsPublicKey>)

  /** Eight big-endian bytes. */
  function BigEndian64(n: U64): (s: Bytes)
    ensures |s| == 8
  {
    U64Bytes(n);
    Zeros(8 - |BigEndian(n)|) + BigEndian(n)
  }

  lemma BigEndian64Injective(m: U64, n: U64)
    requires BigEndian64(m) == BigEndian64(n)
    ensures m == n
  {
    U64Bytes(m);
    U64Bytes(n);
    ZerosPrefix(8 - |BigEndian(m)|, BigEndian(m), 8 - |BigEndian(n)|, BigEndian(n));
    BigEndianRoundTrip(m);
    BigEndianRoundTrip(n);
  }

  /** Leading zeros do not hide where a shortest form begins. */
  lemma ZerosPrefix(i: nat, x: Bytes, k: nat, y: Bytes)
    requires Zeros(i) + x == Zeros(k) + y
    requires (x != [] ==> x[0] != 0) && (y != [] ==> y[0] != 0)
    ensures i == k && x == y
  {
    var s, t := Zeros(i) + x, Zeros(k) + y;
    assert |s| == i + |x| && |t| == k + |y|;
    assert forall n :: 0 <= n < i ==> s[n] == 0;
    assert forall n :: 0 <= n < k ==> t[n] == 0;
    assert x != [] ==> s[i] == x[0];
    assert y != [] ==> t[k] == y[0];
    assert s[i..] == x && t[k..] == y;
  }

  function OptionalBytes(o: Option<Bytes>): Bytes {
    if o.Some? then o.value else []
  }

  function WithdrawalBytes(o: Option<WithdrawalList>): Bytes {
    if o.Some? then EncodeWithdrawals(o.value) else []
  }

  /** The parts of fixed size. */
  function FixedPart(parent: B256, a: PayloadAttributes): (s: Bytes)
    ensures |s| == 92
  {
    parent + BigEndian64(a.timestamp) + a.prevRandao + a.suggestedFeeRecipient
  }

  function VariablePart(a: PayloadAttributes): Bytes {
    WithdrawalBytes(a.withdrawals) + (OptionalBytes(a.parentBeaconBlockRoot) + OptionalBytes(a.prevProposerPubkey))
  }

  function Preimage(parent: B256, a: PayloadAttributes): Bytes {
    FixedPart(parent, a) + VariablePart(a)
  }

  /** The identifier: the first eight bytes of the digest. */
  function PayloadIdOf(sha256: Bytes -> B256, parent: B256, a: PayloadAttributes): B64 {
    sha256(Preimage(parent, a))[..8]
  }

  class Hasher {
    var input: Bytes

    constructor ()
      ensures input == []
    {
      input := [];
    }

    method Update(data: Bytes)
      modifies this
      ensures input == old(input) + data
    {
      input := input + data;
    }
  }

  method FeedFixed(hasher: Hasher, parent: B256, a: PayloadAttributes)
    requires hasher.input == []
    modifies hasher
    ensures hasher.input == FixedPart(parent, a)
  {
    hide BigEndian64;
    hasher.Update(parent);
    hasher.Update(BigEndian64(a.timestamp));
    hasher.Update(a.prevRandao);
    hasher.Update(a.suggestedFeeRecipient);
  }

  /** The hasher is fed part after part. */
  method BerachainPayloadId(sha256: Bytes -> B256, parent: B256, a: PayloadAttributes) returns (id: B64)
    ensures id == PayloadIdOf(sha256, parent, a)
  {
    hide FixedPart, EncodeWithdrawals;
    var hasher := new Hasher();
    FeedFixed(hasher, parent, a);
    var fixedPart := hasher.input;
    if a.withdrawals.Some? {
      hasher.Update(EncodeWithdrawals(a.withdrawals.value));
    }
    assert hasher.input == fixedPart + WithdrawalBytes(a.withdrawals);
    if a.parentBeaconBlockRoot.Some? {
      hasher.Update(a.parentBeaconBlockRoot.value);
    }
    if a.prevProposerPubkey.Some? {
      hasher.Update(a.prevProposerPubkey.value);
    }
    assert hasher.input == Preimage(parent, a);
    id := sha256(hasher.input)[..8];
  }

  /****** Injectivity ******/

  lemma FixedPartInjective(p: B256, a: PayloadAttributes, q: B256, b: PayloadAttributes)
    requires FixedPart(p, a) == FixedPart(q, b)
    ensures p == q && a.timestamp == b.timestamp && a.prevRandao == b.prevRandao
            && a.suggestedFeeRecipient == b.suggestedFeeRecipient
  {
    hide BigEndian64;
    var x, y := FixedPart(p, a), FixedPart(q, b);
    assert x[..32] == p && y[..32] == q;
    assert x[32..40] == BigEndian64(a.timestamp) && y[32..40] == BigEndian64(b.timestamp);
    assert x[40..72] == a.prevRandao && y[40..72] == b.prevRandao;
    assert x[72..] == a.suggestedFeeRecipient && y[72..] == b.suggestedFeeRecipient;
    BigEndian64Injective(a.timestamp, b.timestamp);
  }

  lemma SplitPreimage(p: B256, a: PayloadAttributes, q: B256, b: PayloadAttributes)
    requires Preimage(p, a) == Preimage(q, b)
    ensures FixedPart(p, a) == FixedPart(q, b) && VariablePart(a) == VariablePart(b)
  {
    hide FixedPart, VariablePart;
    var x, y := Preimage(p, a), Preimage(q, b);
    assert x[..92] == FixedPart(p, a) && y[..92] == FixedPart(q, b);
    assert x[92..] == VariablePart(a) && y[92..] == VariablePart(b);
  }

  /** Perhaps a beacon root of 32 bytes, then perhaps a key of 48: the lengths 0, 32, 48 and 80 tell. */
  lemma TailInjective(r1: Option<B256>, k1: Option<BlsPublicKey>, r2: Option<B256>, k2: Option<BlsPublicKey>)
    requires OptionalBytes(r1) + OptionalBytes(k1) == OptionalBytes(r2) + OptionalBytes(k2)
    ensures r1 == r2 && k1 == k2
  {
    var x, y := OptionalBytes(r1) + OptionalBytes(k1), OptionalBytes(r2) + OptionalBytes(k2);
    var n, m := |OptionalBytes(r1)|, |OptionalBytes(r2)|;
    assert x[..n] == OptionalBytes(r1) && y[..m] == OptionalBytes(r2);
    assert x[n..] == OptionalBytes(k1) && y[m..] == OptionalBytes(k2);
  }

  /** Attributes that share a preimage are the same if and only if they agree on whether withdrawals
      are present; beacon root and proposer key may be present or absent on either side. */
  lemma PreimageExact(p: B256, a: PayloadAttributes, q: B256, b: PayloadAttributes)
    requires Preimage(p, a) == Preimage(q, b) && |Preimage(p, a)| < MAX_BUFFER
    ensures p == q && a == b <==> (a.withdrawals.Some? <==> b.withdrawals.Some?)
  {
    hide FixedPart, EncodeWithdrawals, OptionalBytes;
    if a.withdrawals.Some? <==> b.withdrawals.Some? {
      SplitPreimage(p, a, q, b);
      FixedPartInjective(p, a, q, b);
      var x := OptionalBytes(a.parentBeaconBlockRoot) + OptionalBytes(a.prevProposerPubkey);
      var y := OptionalBytes(b.parentBeaconBlockRoot) + OptionalBytes(b.prevProposerPubkey);
      if a.withdrawals.Some? {
        WithdrawalsPrefixFree(a.withdrawals.value, b.withdrawals.value, x, y);
      } else {
        assert [] + x == x && [] + y == y;
      }
      TailInjective(a.parentBeaconBlockRoot, a.prevProposerPubkey, b.parentBeaconBlockRoot, b.prevProposerPubkey);
    }
  }

  /** What the design promises of the key: attributes that differ in the key alone never share a
      preimage, whatever else they carry. */
  lemma KeyChangesPreimage(p: B256, a: PayloadAttributes, key: Option<BlsPublicKey>)
    requires key != a.prevProposerPubkey
    ensures Preimage(p, a) != Preimage(p, a.(prevProposerPubkey := key))
  {
    hide FixedPart, EncodeWithdrawals;
    var b := a.(prevProposerPubkey := key);
    var front := WithdrawalBytes(a.withdrawals) + OptionalBytes(a.parentBeaconBlockRoot);
    assert VariablePart(a) == front + OptionalBytes(a.prevProposerPubkey);
    assert VariablePart(b) == front + OptionalBytes(key);
    assert VariablePart(a)[|front|..] == OptionalBytes(a.prevProposerPubkey);
    assert VariablePart(b)[|front|..] == OptionalBytes(key);
    if Preimage(p, a) == Preimage(p, b) {
      SplitPreimage(p, a, p, b);
    }
  }

  /** The same for a withdrawals list: absent, empty or different lists give different preimages. */
  lemma WithdrawalsChangePreimage(p: B256, a: PayloadAttributes, ws: Option<WithdrawalList>)
    requires ws != a.withdrawals && |Preimage(p, a)| < MAX_BUFFER
    ensures Preimage(p, a) != Preimage(p, a.(withdrawals := ws))
  {
    hide FixedPart, LengthHeader, WithdrawalsPayload;
    var b := a.(withdrawals := ws);
    if Preimage(p, a) == Preimage(p, b) {
      var tail := OptionalBytes(a.parentBeaconBlockRoot) + OptionalBytes(a.prevProposerPubkey);
      SplitPreimage(p, a, p, b);
      if a.withdrawals.Some? && ws.Some? {
        WithdrawalsPrefixFree(a.withdrawals.value, ws.value, tail, tail);
      }
    }
  }

  /****** Withdrawals on one side only ******/

  /** One withdrawal whose list takes 32 bytes, the size of a root. */
  const SAMPLE: Withdrawal := Withdrawal(0, 0, Zeros(20), 0x8000_0000_0000)

  lemma SampleSize()
    ensures |EncodeWithdrawals([SAMPLE])| == 32
  {
    var n := Num(SAMPLE.amount);
    assert Pow256(5) == 0x100_0000_0000 && Pow256(6) == 0x1_0000_0000_0000;
    BigEndianLength(SAMPLE.amount, 5);
    BigEndianLength(SAMPLE.amount, 6);
    assert |n| == 6 && StringLength(n) == 7 && Num(0) == [] && StringLength([]) == 1;
    FixedLengths();
    SampleItems(n);
  }

  lemma SampleItems(n: Blob)
    requires n == Num(SAMPLE.amount) && StringLength(n) == 7 && Num(0) == [] && StringLength([]) == 1
    requires StringLength(Zeros(20)) == 21
    ensures |EncodeWithdrawals([SAMPLE])| == 32
  {
    var items: seq<Blob> := [[], [], Zeros(20), n];
    FourLength([], [], Zeros(20), n);
    assert WithdrawalItems(SAMPLE) == items;
    hide StringLength, Num, ItemsLength;
    ItemsLengthExact(items);
    assert |EncodeWithdrawal(SAMPLE)| == 31;
    assert [SAMPLE][1..] == [];
    assert WithdrawalsPayload([SAMPLE]) == EncodeWithdrawal(SAMPLE) + WithdrawalsPayload([]);
  }

  lemma FourLength(a: Blob, b: Blob, c: Blob, d: Blob)
    ensures ItemsLength([a, b, c, d]) == StringLength(a) + StringLength(b) + StringLength(c) + StringLength(d)
  {
    hide StringLength;
    assert [a, b, c, d][1..] == [b, c, d] && [b, c, d][1..] == [c, d] && [c, d][1..] == [d] && [d][1..] == [];
    assert ItemsLength([d]) == StringLength(d);
    assert ItemsLength([c, d]) == StringLength(c) + StringLength(d);
  }

  /** The condition can fail: without withdrawals a root can spell the list that other attributes,
      without a root, carry. The two differ and share their preimage, hence their identifier. */
  lemma RootReadAsWithdrawals(p: B256, a: PayloadAttributes, sha256: Bytes -> B256)
    requires a.withdrawals == Some([SAMPLE]) && a.parentBeaconBlockRoot.None?
    ensures |EncodeWithdrawals([SAMPLE])| == 32
    ensures var b := a.(withdrawals := None, parentBeaconBlockRoot := Some(EncodeWithdrawals([SAMPLE])));
            a != b && Preimage(p, a) == Preimage(p, b) && PayloadIdOf(sha256, p, a) == PayloadIdOf(sha256, p, b)
  {
    SampleSize();
    hide EncodeWithdrawals, FixedPart;
    var b := a.(withdrawals := None, parentBeaconBlockRoot := Some(EncodeWithdrawals([SAMPLE])));
    assert FixedPart(p, a) == FixedPart(p, b) by { SameFixedPart(p, a, b); }
    assert VariablePart(a) == VariablePart(b);
  }

  lemma SameFixedPart(p: B256, a: PayloadAttributes, b: PayloadAttributes)
    requires a.timestamp == b.timestamp && a.prevRandao == b.prevRandao && a.suggestedFeeRecipient == b.suggestedFeeRecipient
    ensures FixedPart(p, a) == FixedPart(p, b)
  {
  }

  /** Where each part lies: parent, timestamp, randomness, fee recipient, then the withdrawals list, the
      beacon root and the proposer key, each if present; and the identifier is the head of the digest. */
  lemma PreimageLayout(sha256: Bytes -> B256, parent: B256, a: PayloadAttributes)
    ensures var s := Preimage(parent, a);
            && |s| >= 92 && s[..32] == parent && FromBigEndian(s[32..40]) == a.timestamp
            && s[40..72] == a.prevRandao && s[72..92] == a.suggestedFeeRecipient
            && s[92..] == (if a.withdrawals.Some? then EncodeWithdrawals(a.withdrawals.value) else [])
                          + (if a.parentBeaconBlockRoot.Some? then a.parentBeaconBlockRoot.value else [])
                          + (if a.prevProposerPubkey.Some? then a.prevProposerPubkey.value else [])
            && PayloadIdOf(sha256, parent, a) == sha256(s)[..8]
  {
    hide EncodeWithdrawals, BigEndian64, FromBigEndian;
    var s := Preimage(parent, a);
    assert s[..92] == FixedPart(parent, a) && s[92..] == VariablePart(a);
    assert s[..32] == FixedPart(parent, a)[..32] && s[32..40] == FixedPart(parent, a)[32..40] == BigEndian64(a.timestamp);
    assert s[40..72] == FixedPart(parent, a)[40..72] && s[72..92] == FixedPart(parent, a)[72..92];
    TimestampReads(a.timestamp);
  }

  lemma TimestampReads(n: U64)
    ensures FromBigEndian(BigEndian64(n)) == n
  {
    U64Bytes(n);
    LeadingZeros(8 - |BigEndian(n)|, BigEndian(n));
    BigEndianRoundTrip(n);
  }
}
