/**
 A record is an RLP list whose first items are mandatory and whose last items are optional. The
 decoder has no presence bits: it reads the next optional item as long as the announced payload is
 not used up, so the optional items that are present always form a prefix.
 */
module Record {
  import opened Base
  import opened Rlp

  predicate AllFit(kinds: seq<Kind>, items: seq<Blob>) {
    |items| <= |kinds| && forall i :: 0 <= i < |items| ==> Fits(kinds[i], items[i])
  }

  predicate Conforms(mandatory: seq<Kind>, optional: seq<Kind>, items: seq<Blob>) {
    |mandatory| <= |items| && AllFit(mandatory + optional, items)
  }

  function EncodeList(items: seq<Blob>): Bytes
    requires ItemsLength(items) < TWO_64
  {
    LengthHeader(true, ItemsLength(items)) + EncodeItems(items)
  }

  /** Puts items that were already read in front of what decoding the rest yields. */
  function Resume(read: seq<Blob>, r: Result<(seq<Blob>, Blob), Error>): Result<(seq<Blob>, Blob), Error> {
    match r
    case Ok((items, rest)) => Ok((read + items, rest))
    case Err(e) => Err(e)
  }

  function ResumeGated(read: seq<Blob>, r: Result<(seq<Blob>, Blob, int), Error>): Result<(seq<Blob>, Blob, int), Error> {
    match r
    case Ok((items, rest, left)) => Ok((read + items, rest, left))
    case Err(e) => Err(e)
  }

  lemma ResumeTwice(read: seq<Blob>, item: Blob, r: Result<(seq<Blob>, Blob), Error>)
    ensures Resume(read, Resume([item], r)) == Resume(read + [item], r)
  {
    if r.Ok? {
      assert read + ([item] + r.value.0) == (read + [item]) + r.value.0;
    }
  }

  lemma ResumeGatedTwice(read: seq<Blob>, item: Blob, r: Result<(seq<Blob>, Blob, int), Error>)
    ensures ResumeGated(read, ResumeGated([item], r)) == ResumeGated(read + [item], r)
  {
    if r.Ok? {
      assert read + ([item] + r.value.0) == (read + [item]) + r.value.0;
    }
  }

  function DecodeItems(kinds: seq<Kind>, buf: Blob): (r: Result<(seq<Blob>, Blob), Error>)
    ensures r.Ok? ==> |r.value.1| <= |buf|
  {
    if kinds == [] then Ok(([], buf))
    else
      var (item, next) :- DecodeItem(kinds[0], buf);
      Resume([item], DecodeItems(kinds[1..], next))
  }

  /** Optional items, each read only while `remaining` payload bytes are left; the last component
      is what is left at the end. */
  function DecodeGated(kinds: seq<Kind>, remaining: int, buf: Blob): (r: Result<(seq<Blob>, Blob, int), Error>)
    ensures r.Ok? ==> |r.value.1| <= |buf|
  {
    if kinds == [] || remaining <= 0 then Ok(([], buf, remaining))
    else
      var (item, next) :- DecodeItem(kinds[0], buf);
      ResumeGated([item], DecodeGated(kinds[1..], remaining - (|buf| - |next|), next))
  }

  /** The optional items after the mandatory ones; the payload must then be used up exactly. */
  function DecodeRest(optional: seq<Kind>, mismatch: Error, remaining: int, first: seq<Blob>, middle: Blob)
    : (r: Result<(seq<Blob>, Blob), Error>)
  {
    var (second, rest, left) :- DecodeGated(optional, remaining, middle);
    if left != 0 then Err(mismatch) else Ok((first + second, rest))
  }

  function DecodeRecord(mandatory: seq<Kind>, optional: seq<Kind>, mismatch: Error, buf: Blob)
    : (r: Result<(seq<Blob>, Blob), Error>)
  {
    var head :- DecodeHead(buf);
    if !head.list then Err(UnexpectedString)
    else
      var (first, middle) :- DecodeItems(mandatory, head.rest);
      DecodeRest(optional, mismatch, head.length - (|head.rest| - |middle|), first, middle)
  }

  lemma FitCons(kinds: seq<Kind>, item: Blob, items: seq<Blob>)
    requires kinds != [] && Fits(kinds[0], item) && AllFit(kinds[1..], items)
    ensures AllFit(kinds, [item] + items)
  {
  }

  lemma FitTail(kinds: seq<Kind>, items: seq<Blob>)
    requires AllFit(kinds, items) && items != []
    ensures kinds != [] && Fits(kinds[0], items[0]) && AllFit(kinds[1..], items[1..])
  {
    hide Fits;
    forall i | 0 <= i < |items| - 1 ensures Fits(kinds[1..][i], items[1..][i]) {
      assert Fits(kinds[i + 1], items[i + 1]);
    }
  }

  lemma ItemRoundTrip(kind: Kind, item: Blob, tail: Bytes)
    requires Fits(kind, item) && |EncodeString(item) + tail| < MAX_BUFFER
    ensures DecodeItem(kind, EncodeString(item) + tail) == Ok((item, tail))
  {
    StringRoundTrip(item, tail);
  }

  lemma {:induction false} ItemsRoundTrip(kinds: seq<Kind>, items: seq<Blob>, rest: Bytes)
    requires |items| == |kinds| && AllFit(kinds, items)
    requires |EncodeItems(items) + rest| < MAX_BUFFER
    ensures DecodeItems(kinds, EncodeItems(items) + rest) == Ok((items, rest))
  {
    hide Fits, AllFit, DecodeItem, EncodeString;
    if kinds == [] {
      assert EncodeItems(items) + rest == rest;
    } else {
      FitTail(kinds, items);
      var tail := EncodeItems(items[1..]) + rest;
      AppendAssociative(EncodeString(items[0]), EncodeItems(items[1..]), rest);
      ItemRoundTrip(kinds[0], items[0], tail);
      ItemsRoundTrip(kinds[1..], items[1..], rest);
      assert [items[0]] + items[1..] == items;
    }
  }

  lemma {:induction false} ItemsCanonical(kinds: seq<Kind>, buf: Blob)
    requires DecodeItems(kinds, buf).Ok?
    ensures var (items, rest) := DecodeItems(kinds, buf).value;
            |items| == |kinds| && AllFit(kinds, items) && buf == EncodeItems(items) + rest
  {
    if kinds == [] {
    } else {
      StringCanonical(buf);
      var (item, next) := DecodeItem(kinds[0], buf).value;
      ItemsCanonical(kinds[1..], next);
      var (items, rest) := DecodeItems(kinds[1..], next).value;
      EncodeItemsCons(item, items);
      FitCons(kinds, item, items);
      AppendAssociative(EncodeString(item), EncodeItems(items), rest);
    }
  }

  lemma {:induction false} GatedRoundTrip(kinds: seq<Kind>, items: seq<Blob>, rest: Bytes)
    requires AllFit(kinds, items)
    requires |EncodeItems(items) + rest| < MAX_BUFFER
    ensures DecodeGated(kinds, |EncodeItems(items)|, EncodeItems(items) + rest) == Ok((items, rest, 0))
  {
    hide Fits, AllFit, DecodeItem, EncodeString;
    if items == [] {
      assert EncodeItems(items) + rest == rest;
    } else {
      FitTail(kinds, items);
      var tail := EncodeItems(items[1..]) + rest;
      AppendAssociative(EncodeString(items[0]), EncodeItems(items[1..]), rest);
      ItemRoundTrip(kinds[0], items[0], tail);
      GatedRoundTrip(kinds[1..], items[1..], rest);
      assert DecodeItem(kinds[0], EncodeItems(items) + rest) == Ok((items[0], tail));
      assert [items[0]] + items[1..] == items;
    }
  }

  lemma {:induction false} GatedCanonical(kinds: seq<Kind>, remaining: int, buf: Blob)
    requires DecodeGated(kinds, remaining, buf).Ok?
    ensures var (items, rest, left) := DecodeGated(kinds, remaining, buf).value;
            AllFit(kinds, items) && buf == EncodeItems(items) + rest && left == remaining - |EncodeItems(items)|
  {
    if kinds == [] || remaining <= 0 {
    } else {
      StringCanonical(buf);
      var (item, next) := DecodeItem(kinds[0], buf).value;
      var remaining' := remaining - (|buf| - |next|);
      GatedCanonical(kinds[1..], remaining', next);
      var (items, rest, left) := DecodeGated(kinds[1..], remaining', next).value;
      EncodeItemsCons(item, items);
      FitCons(kinds, item, items);
      AppendAssociative(EncodeString(item), EncodeItems(items), rest);
    }
  }

  /** The exact language of the decoder: it accepts a buffer, yields these items and leaves this
      rest, if and only if the items conform to the schema and the buffer is their encoding
      followed by the rest. */
  lemma RecordExact(mandatory: seq<Kind>, optional: seq<Kind>, mismatch: Error, buf: Blob, items: seq<Blob>, rest: Blob)
    ensures DecodeRecord(mandatory, optional, mismatch, buf) == Ok((items, rest))
       <==> Conforms(mandatory, optional, items) && ItemsLength(items) < TWO_64 && buf == EncodeList(items) + rest
  {
    hide DecodeRecord, EncodeList, ItemsLength, Conforms;
    if DecodeRecord(mandatory, optional, mismatch, buf) == Ok((items, rest)) {
      RecordCanonical(mandatory, optional, mismatch, buf, items, rest);
    }
    if Conforms(mandatory, optional, items) && ItemsLength(items) < TWO_64 && buf == EncodeList(items) + rest {
      RecordRoundTrip(mandatory, optional, mismatch, items, rest);
    }
  }

  lemma RecordCanonical(mandatory: seq<Kind>, optional: seq<Kind>, mismatch: Error, buf: Blob, items: seq<Blob>, rest: Blob)
    requires DecodeRecord(mandatory, optional, mismatch, buf) == Ok((items, rest))
    ensures Conforms(mandatory, optional, items) && ItemsLength(items) < TWO_64 && buf == EncodeList(items) + rest
  {
    hide DecodeHead, DecodeItems, DecodeGated, EncodeItems, ItemsLength, LengthHeader, Conforms;
    var head := DecodeHead(buf).value;
    var (first, middle) := DecodeItems(mandatory, head.rest).value;
    var remaining := head.length - (|head.rest| - |middle|);
    var (second, _, _) := DecodeGated(optional, remaining, middle).value;
    PayloadCanonical(mandatory, optional, head.length, head.rest, first, middle, second, rest);
    ListHeadExact(buf, head.length, head.rest);
    AppendAssociative(LengthHeader(true, head.length), EncodeItems(items), rest);
  }

  lemma PayloadCanonical(mandatory: seq<Kind>, optional: seq<Kind>, length: nat, payload: Blob,
                         first: seq<Blob>, middle: Blob, second: seq<Blob>, rest: Blob)
    requires DecodeItems(mandatory, payload) == Ok((first, middle))
    requires DecodeGated(optional, length - (|payload| - |middle|), middle) == Ok((second, rest, 0))
    ensures Conforms(mandatory, optional, first + second)
    ensures payload == EncodeItems(first + second) + rest && length == ItemsLength(first + second)
  {
    ItemsCanonical(mandatory, payload);
    GatedCanonical(optional, length - (|payload| - |middle|), middle);
    Regroup(mandatory, optional, first, second, rest);
  }

  lemma RecordRoundTrip(mandatory: seq<Kind>, optional: seq<Kind>, mismatch: Error, items: seq<Blob>, rest: Blob)
    requires Conforms(mandatory, optional, items) && ItemsLength(items) < TWO_64
    requires |EncodeList(items) + rest| < MAX_BUFFER
    ensures DecodeRecord(mandatory, optional, mismatch, EncodeList(items) + rest) == Ok((items, rest))
  {
    hide DecodeHead, DecodeItems, DecodeGated, EncodeItems, ItemsLength, LengthHeader, Fits;
    var first, second := items[..|mandatory|], items[|mandatory|..];
    assert items == first + second;
    Split(mandatory, optional, items);
    Regroup(mandatory, optional, first, second, rest);
    var payload := EncodeItems(items) + rest;
    AppendAssociative(LengthHeader(true, ItemsLength(items)), EncodeItems(items), rest);
    ListHeadExact(EncodeList(items) + rest, ItemsLength(items), payload);
    ItemsRoundTrip(mandatory, first, EncodeItems(second) + rest);
    GatedRoundTrip(optional, second, rest);
  }

  lemma Split(mandatory: seq<Kind>, optional: seq<Kind>, items: seq<Blob>)
    requires Conforms(mandatory, optional, items)
    ensures AllFit(mandatory, items[..|mandatory|]) && AllFit(optional, items[|mandatory|..])
  {
    var n := |mandatory|;
    forall i | 0 <= i < |items| - n ensures Fits(optional[i], items[n..][i]) {
      assert (mandatory + optional)[n + i] == optional[i] && items[n + i] == items[n..][i];
    }
  }

  /** The two groups of items side by side are one conforming list with the same encoding. */
  lemma Regroup(mandatory: seq<Kind>, optional: seq<Kind>, first: seq<Blob>, second: seq<Blob>, rest: Bytes)
    requires |first| == |mandatory| && AllFit(mandatory, first) && AllFit(optional, second)
    ensures Conforms(mandatory, optional, first + second)
    ensures EncodeItems(first) + (EncodeItems(second) + rest) == EncodeItems(first + second) + rest
    ensures |EncodeItems(first)| + |EncodeItems(second)| == |EncodeItems(first + second)| == ItemsLength(first + second)
  {
    EncodeItemsConcat(first, second);
    ItemsLengthExact(first + second);
    AppendAssociative(EncodeItems(first), EncodeItems(second), rest);
  }

  /** List encodings are self-delimiting. */
  lemma ListPrefixFree(a: seq<Blob>, b: seq<Blob>, x: Blob, y: Blob)
    requires ItemsLength(a) < TWO_64 && ItemsLength(b) < TWO_64
    requires EncodeList(a) + x == EncodeList(b) + y
    requires |EncodeList(a) + x| < MAX_BUFFER
    ensures a == b && x == y
  {
    var n := Max(|a|, |b|);
    var kinds := seq(n, _ => Raw);
    assert Conforms([], kinds, a) && Conforms([], kinds, b);
    RecordRoundTrip([], kinds, ListLengthMismatch, a, x);
    RecordRoundTrip([], kinds, ListLengthMismatch, b, y);
  }

  /** The encodings that the Yellow Paper's rules give for the empty string and list, single bytes, a
      short string and list, and the first lengths in the long form. */
  lemma KnownEncodings()
    ensures EncodeString([]) == [0x80] && EncodeString([0x0F]) == [0x0F] && EncodeString([0x80]) == [0x81, 0x80]
    ensures EncodeString([0x64, 0x6F, 0x67]) == [0x83, 0x64, 0x6F, 0x67]
    ensures EncodeList([]) == [0xC0]
    ensures ItemsLength([[0x63, 0x61, 0x74], [0x64, 0x6F, 0x67]]) == 8
    ensures EncodeList([[0x63, 0x61, 0x74], [0x64, 0x6F, 0x67]]) == [0xC8, 0x83, 0x63, 0x61, 0x74, 0x83, 0x64, 0x6F, 0x67]
    ensures BigEndian(1024) == [0x04, 0x00]
    ensures LengthHeader(false, 55) == [0xB7] && LengthHeader(false, 56) == [0xB8, 56]
    ensures LengthHeader(true, 55) == [0xF7] && LengthHeader(true, 1024) == [0xF9, 0x04, 0x00]
  {
    var cat: Blob, dog: Blob := [0x63, 0x61, 0x74], [0x64, 0x6F, 0x67];
    assert [cat, dog][1..] == [dog] && [dog][1..] == [];
    assert EncodeItems([dog]) == EncodeString(dog) + EncodeItems([]) == EncodeString(dog);
    assert ItemsLength([dog]) == 4;
    assert BigEndian(4) == BigEndian(0) + [4];
    assert BigEndian(1024) == BigEndian(4) + [0];
    assert BigEndian(56) == BigEndian(0) + [56];
  }
}
