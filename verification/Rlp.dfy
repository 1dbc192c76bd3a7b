/**
 Recursive Length Prefix strings and lists in their canonical form (Appendix B of the Ethereum
 Yellow Paper), and decoders that refuse every other form. The header and proof-of-liquidity
 codecs are flat lists of strings, so both are described by a schema of item kinds.
 */
module Rlp {
  import opened Base

  datatype Error =
    | InputTooShort
    | NonCanonicalSingleByte
    | NonCanonicalSize
    | LeadingZero
    | Overflow
    | UnexpectedString
    | UnexpectedList
    | UnexpectedLength
    | ListLengthMismatch

  /****** Big-endian integers ******/

  /** The shortest big-endian representation; zero is the empty string. */
  function BigEndian(n: nat): (s: Bytes)
    ensures s != [] ==> s[0] != 0
    ensures s == [] <==> n == 0
  {
    if n == 0 then [] else BigEndian(n / 256) + [n % 256]
  }

  function FromBigEndian(s: Bytes): nat {
    if s == [] then 0 else FromBigEndian(s[..|s| - 1]) * 256 + s[|s| - 1]
  }

  function Pow256(k: nat): (p: nat)
    ensures p >= 1
  {
    if k == 0 then 1 else 256 * Pow256(k - 1)
  }

  lemma {:induction false} BigEndianRoundTrip(n: nat)
    ensures FromBigEndian(BigEndian(n)) == n
  {
    if n > 0 {
      BigEndianRoundTrip(n / 256);
      var s := BigEndian(n);
      assert s[..|s| - 1] == BigEndian(n / 256);
    }
  }

  lemma {:induction false} BigEndianUnique(s: Bytes)
    requires s != [] ==> s[0] != 0
    ensures BigEndian(FromBigEndian(s)) == s
  {
    if s != [] {
      var front, last := s[..|s| - 1], s[|s| - 1];
      BigEndianUnique(front);
      var n := FromBigEndian(s);
      if front == [] {
        assert n == last;
      } else {
        assert FromBigEndian(front) != 0;
      }
      assert n / 256 == FromBigEndian(front) && n % 256 == last;
    }
  }

  /** A number fits k bytes exactly when its shortest form has at most k bytes. */
  lemma {:induction false} BigEndianLength(n: nat, k: nat)
    ensures |BigEndian(n)| <= k <==> n < Pow256(k)
  {
    if n > 0 && k > 0 {
      BigEndianLength(n / 256, k - 1);
    }
  }

  lemma {:induction false} FromBigEndianBound(s: Bytes)
    ensures FromBigEndian(s) < Pow256(|s|)
  {
    if s != [] {
      FromBigEndianBound(s[..|s| - 1]);
    }
  }

  lemma {:induction false} ZerosAreZero(k: nat)
    ensures FromBigEndian(Zeros(k)) == 0
  {
    if k > 0 {
      assert Zeros(k)[..k - 1] == Zeros(k - 1);
      ZerosAreZero(k - 1);
    }
  }

  /** Leading zeros do not change the number. */
  lemma {:induction false} LeadingZeros(k: nat, s: Bytes)
    ensures FromBigEndian(Zeros(k) + s) == FromBigEndian(s)
    decreases |s|
  {
    if s == [] {
      assert Zeros(k) + s == Zeros(k);
      ZerosAreZero(k);
    } else {
      var all := Zeros(k) + s;
      assert all[..|all| - 1] == Zeros(k) + s[..|s| - 1];
      LeadingZeros(k, s[..|s| - 1]);
    }
  }

  lemma Pow256Values()
    ensures Pow256(3) == 0x100_0000
    ensures Pow256(8) == TWO_64
    ensures Pow256(16) == TWO_128
    ensures Pow256(32) == TWO_256
  {
    assert Pow256(4) == 0x1_0000_0000;
    assert Pow256(8) == TWO_64;
    assert Pow256(12) == TWO_64 * 0x1_0000_0000;
    assert Pow256(16) == TWO_128;
    assert Pow256(20) == TWO_128 * 0x1_0000_0000;
    assert Pow256(24) == TWO_128 * TWO_64;
    assert Pow256(28) == TWO_128 * TWO_64 * 0x1_0000_0000;
  }

  lemma U64Bytes(n: U64)
    ensures |BigEndian(n)| <= 8
  {
    Pow256Values();
    BigEndianLength(n, 8);
  }

  lemma AppendAssociative(a: Bytes, b: Bytes, c: Bytes)
    ensures (a + b) + c == a + (b + c)
  {
  }

  /****** Headers ******/

  /** The bytes that announce a payload of n bytes. */
  function LengthHeader(list: bool, n: U64): (s: Bytes)
    ensures s != []
  {
    var offset := if list then 0xC0 else 0x80;
    U64Bytes(n);
    if n < 56 then [offset + n] else [offset + 55 + |BigEndian(n)|] + BigEndian(n)
  }

  /** `length_of_length`: the size of the announcement. */
  function LengthOfLength(n: nat): nat {
    if n < 56 then 1 else 1 + |BigEndian(n)|
  }

  lemma LengthHeaderSize(list: bool, n: U64)
    ensures |LengthHeader(list, n)| == LengthOfLength(n)
  {
  }

  /** A decoded header and the bytes after it. */
  datatype Head = Head(list: bool, length: U64, rest: Bytes)

  /** The multi-byte length form. */
  function DecodeLongLength(list: bool, count: nat, buf: Bytes): Result<Head, Error>
    requires 1 <= count <= 8
  {
    if |buf| < count then Err(InputTooShort)
    else if buf[0] == 0 then Err(LeadingZero)
    else
      LongLengthBound(buf[..count]);
      var length := FromBigEndian(buf[..count]);
      if length < 56 then Err(NonCanonicalSize) else Ok(Head(list, length, buf[count..]))
  }

  lemma LongLengthBound(s: Bytes)
    requires 1 <= |s| <= 8 && s[0] != 0
    ensures FromBigEndian(s) < TWO_64
  {
    BigEndianUnique(s);
    BigEndianLength(FromBigEndian(s), 8);
    Pow256Values();
  }

  /** A byte below 0x80 is its own payload and is not consumed. */
  function DecodeHead(buf: Bytes): (r: Result<Head, Error>)
    ensures r.Ok? ==> |r.value.rest| <= |buf| && r.value.length <= |r.value.rest|
  {
    if buf == [] then Err(InputTooShort)
    else
      var b := buf[0];
      var head :-
        if b < 0x80 then Ok(Head(false, 1, buf))
        else if b <= 0xB7 then
          if b == 0x81 && |buf| == 1 then Err(InputTooShort)
          else if b == 0x81 && buf[1] < 0x80 then Err(NonCanonicalSingleByte)
          else Ok(Head(false, b - 0x80, buf[1..]))
        else if b <= 0xBF then DecodeLongLength(false, b - 0xB7, buf[1..])
        else if b <= 0xF7 then Ok(Head(true, b - 0xC0, buf[1..]))
        else DecodeLongLength(true, b - 0xF7, buf[1..]);
      if |head.rest| < head.length then Err(InputTooShort) else Ok(head)
  }

  lemma LongLengthRoundTrip(list: bool, n: U64, rest: Bytes)
    requires n >= 56
    ensures 1 <= |BigEndian(n)| <= 8
    ensures DecodeLongLength(list, |BigEndian(n)|, BigEndian(n) + rest) == Ok(Head(list, n, rest))
  {
    U64Bytes(n);
    BigEndianRoundTrip(n);
    assert (BigEndian(n) + rest)[..|BigEndian(n)|] == BigEndian(n);
    assert (BigEndian(n) + rest)[|BigEndian(n)|..] == rest;
  }

  lemma LongLengthCanonical(list: bool, count: nat, buf: Bytes)
    requires 1 <= count <= 8 && DecodeLongLength(list, count, buf).Ok?
    ensures var head := DecodeLongLength(list, count, buf).value;
            head.list == list && head.length >= 56 && |BigEndian(head.length)| == count
            && buf == BigEndian(head.length) + head.rest
  {
    BigEndianUnique(buf[..count]);
  }

  lemma ShortHeadRoundTrip(list: bool, n: U64, rest: Bytes)
    requires n < 56 && n <= |rest|
    requires !list && n == 1 ==> rest[0] >= 0x80
    ensures DecodeHead(LengthHeader(list, n) + rest) == Ok(Head(list, n, rest))
  {
    var buf := LengthHeader(list, n) + rest;
    assert buf[0] == (if list then 0xC0 else 0x80) + n;
    assert buf[1..] == rest;
  }

  lemma LongHeadRoundTrip(list: bool, n: U64, rest: Bytes)
    requires 56 <= n <= |rest|
    ensures DecodeHead(LengthHeader(list, n) + rest) == Ok(Head(list, n, rest))
  {
    var buf := LengthHeader(list, n) + rest;
    LongLengthRoundTrip(list, n, rest);
    AppendAssociative([buf[0]], BigEndian(n), rest);
    assert buf[0] == (if list then 0xF7 else 0xB7) + |BigEndian(n)|;
    assert buf[1..] == BigEndian(n) + rest;
  }

  lemma HeadRoundTrip(list: bool, n: U64, rest: Bytes)
    requires n <= |rest|
    requires !list && n == 1 ==> rest[0] >= 0x80
    ensures DecodeHead(LengthHeader(list, n) + rest) == Ok(Head(list, n, rest))
  {
    if n < 56 {
      ShortHeadRoundTrip(list, n, rest);
    } else {
      LongHeadRoundTrip(list, n, rest);
    }
  }

  /** Every accepted head other than a bare byte is the canonical announcement of its payload. */
  lemma HeadCanonical(buf: Bytes)
    requires DecodeHead(buf).Ok? && buf[0] >= 0x80
    ensures var head := DecodeHead(buf).value;
            buf == LengthHeader(head.list, head.length) + head.rest
            && (!head.list && head.length == 1 ==> head.rest[0] >= 0x80)
  {
    var b, tail := buf[0], buf[1..];
    assert buf == [b] + tail;
    if 0xB7 < b <= 0xBF {
      LongLengthCanonical(false, b - 0xB7, tail);
      PrependByte(buf, b, tail, BigEndian(DecodeHead(buf).value.length), DecodeHead(buf).value.rest);
    } else if b > 0xF7 {
      LongLengthCanonical(true, b - 0xF7, tail);
      PrependByte(buf, b, tail, BigEndian(DecodeHead(buf).value.length), DecodeHead(buf).value.rest);
    }
  }

  lemma PrependByte(buf: Bytes, b: Byte, tail: Bytes, x: Bytes, y: Bytes)
    requires buf == [b] + tail && tail == x + y
    ensures buf == ([b] + x) + y
  {
  }

  /** A list header is accepted exactly when it is the canonical one and its payload is there. */
  lemma ListHeadExact(buf: Bytes, n: U64, rest: Bytes)
    ensures DecodeHead(buf) == Ok(Head(true, n, rest)) <==> buf == LengthHeader(true, n) + rest && n <= |rest|
  {
    if n <= |rest| {
      HeadRoundTrip(true, n, rest);
    }
    if DecodeHead(buf) == Ok(Head(true, n, rest)) {
      HeadCanonical(buf);
    }
  }

  /****** Strings ******/

  function EncodeString(s: Blob): (e: Bytes)
    ensures e != []
  {
    if |s| == 1 && s[0] < 0x80 then s else LengthHeader(false, |s|) + s
  }

  /** The encoded size of a string, computed without encoding it. */
  function StringLength(s: Blob): nat {
    if |s| == 1 && s[0] < 0x80 then 1 else LengthOfLength(|s|) + |s|
  }

  lemma StringLengthExact(s: Blob)
    ensures StringLength(s) == |EncodeString(s)|
  {
    LengthHeaderSize(false, |s|);
  }

  /** `Header::decode_bytes` for a string: its payload and the bytes after it. */
  function DecodeString(buf: Blob): (r: Result<(Blob, Blob), Error>)
    ensures r.Ok? ==> |r.value.1| <= |buf|
  {
    var head :- DecodeHead(buf);
    if head.list then Err(UnexpectedList)
    else Ok((head.rest[..head.length], head.rest[head.length..]))
  }

  lemma StringRoundTrip(s: Blob, rest: Bytes)
    requires |EncodeString(s) + rest| < MAX_BUFFER
    ensures DecodeString(EncodeString(s) + rest) == Ok((s, rest))
  {
    var buf := EncodeString(s) + rest;
    if |s| == 1 && s[0] < 0x80 {
      assert buf[..1] == s && buf[1..] == rest;
    } else {
      assert buf == LengthHeader(false, |s|) + (s + rest);
      HeadRoundTrip(false, |s|, s + rest);
      assert (s + rest)[..|s|] == s && (s + rest)[|s|..] == rest;
    }
  }

  lemma StringCanonical(buf: Blob)
    requires DecodeString(buf).Ok?
    ensures var (s, rest) := DecodeString(buf).value; buf == EncodeString(s) + rest
  {
    var (s, rest) := DecodeString(buf).value;
    var head := DecodeHead(buf).value;
    assert head.rest == s + rest;
    if buf[0] >= 0x80 {
      HeadCanonical(buf);
      assert s != [] ==> s[0] == head.rest[0];
      assert buf == LengthHeader(false, |s|) + (s + rest) == (LengthHeader(false, |s|) + s) + rest;
    }
  }

  /****** Flat lists of strings ******/

  /** What a typed field accepts: a fixed number of bytes, an integer of a width, or any bytes. */
  datatype Kind = Fixed(size: nat) | Uint(size: nat) | Raw

  predicate Fits(k: Kind, s: Bytes) {
    match k
    case Fixed(n) => |s| == n
    case Uint(n) => |s| <= n && (s != [] ==> s[0] != 0)
    case Raw => true
  }

  function DecodeItem(k: Kind, buf: Blob): (r: Result<(Blob, Blob), Error>)
    ensures r.Ok? ==> Fits(k, r.value.0) && |r.value.1| <= |buf|
  {
    var (s, rest) :- DecodeString(buf);
    if k.Fixed? && |s| != k.size then Err(UnexpectedLength)
    else if k.Uint? && |s| > k.size then Err(Overflow)
    else if k.Uint? && s != [] && s[0] == 0 then Err(LeadingZero)
    else Ok((s, rest))
  }

  function EncodeItems(items: seq<Blob>): Bytes {
    if items == [] then [] else EncodeString(items[0]) + EncodeItems(items[1..])
  }

  function ItemsLength(items: seq<Blob>): nat {
    if items == [] then 0 else StringLength(items[0]) + ItemsLength(items[1..])
  }

  lemma EncodeItemsCons(s: Blob, items: seq<Blob>)
    ensures EncodeItems([s] + items) == EncodeString(s) + EncodeItems(items)
  {
    assert ([s] + items)[1..] == items;
  }

  lemma {:induction false} EncodeItemsConcat(a: seq<Blob>, b: seq<Blob>)
    ensures EncodeItems(a + b) == EncodeItems(a) + EncodeItems(b)
  {
    if a == [] {
      assert a + b == b;
    } else {
      assert (a + b)[0] == a[0] && (a + b)[1..] == a[1..] + b;
      EncodeItemsConcat(a[1..], b);
    }
  }

  lemma EncodeItemsSnoc(items: seq<Blob>, s: Blob)
    ensures EncodeItems(items + [s]) == EncodeItems(items) + EncodeString(s)
  {
    EncodeItemsConcat(items, [s]);
    assert EncodeItems([s]) == EncodeString(s) + EncodeItems([]) == EncodeString(s);
  }

  lemma {:induction false} ItemsLengthExact(items: seq<Blob>)
    ensures ItemsLength(items) == |EncodeItems(items)|
  {
    if items != [] {
      StringLengthExact(items[0]);
      ItemsLengthExact(items[1..]);
    }
  }

  lemma {:induction false} ItemsLengthConcat(a: seq<Blob>, b: seq<Blob>)
    ensures ItemsLength(a + b) == ItemsLength(a) + ItemsLength(b)
  {
    ItemsLengthExact(a);
    ItemsLengthExact(b);
    ItemsLengthExact(a + b);
    EncodeItemsConcat(a, b);
  }
}
