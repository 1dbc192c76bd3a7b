/**
 The record codec as the source runs it: an output buffer that grows at its end and an input
 cursor that advances in place. The source writes one statement per field; here the fields, in the
 same order, are the entries of a list and the statement is the body of a loop over it.
 */
module RecordCodec {
  import opened Base
  import opened Rlp
  import opened Record

  class Output {
    var bytes: Bytes

    constructor ()
      ensures bytes == []
    {
      bytes := [];
    }

    method Append(more: Bytes)
      modifies this
      ensures bytes == old(bytes) + more
    {
      bytes := bytes + more;
    }
  }

  class Cursor {
    var buf: Blob

    constructor (input: Blob)
      ensures buf == input
    {
      buf := input;
    }

    method TakeHead() returns (r: Result<Head, Error>)
      modifies this
      ensures r == DecodeHead(old(buf))
      ensures buf == if r.Ok? then r.value.rest else old(buf)
    {
      r := DecodeHead(buf);
      if r.Ok? {
        buf := r.value.rest;
      }
    }

    method Take(kind: Kind) returns (r: Result<Blob, Error>)
      modifies this
      ensures r.Ok? ==> DecodeItem(kind, old(buf)) == Ok((r.value, buf))
      ensures r.Err? ==> DecodeItem(kind, old(buf)) == Err(r.error) && buf == old(buf)
    {
      var item := DecodeItem(kind, buf);
      if item.Err? {
        return Err(item.error);
      }
      buf := item.value.1;
      return Ok(item.value.0);
    }
  }

  lemma TakeOneMore(items: seq<Blob>, i: nat)
    requires i < |items|
    ensures EncodeItems(items[..i + 1]) == EncodeItems(items[..i]) + EncodeString(items[i])
  {
    assert items[..i + 1] == items[..i] + [items[i]];
    EncodeItemsSnoc(items[..i], items[i]);
  }

  /** Announces the payload length it is given and then writes field after field. Only a length that
      is the number of bytes the fields take yields the list encoding. */
  method EncodeTo(payloadLength: nat, items: seq<Blob>, out: Output)
    requires payloadLength == |EncodeItems(items)| < TWO_64
    modifies out
    ensures ItemsLength(items) < TWO_64 && out.bytes == old(out.bytes) + EncodeList(items)
  {
    ItemsLengthExact(items);
    out.Append(LengthHeader(true, payloadLength));
    ghost var start := out.bytes;
    for i := 0 to |items|
      invariant out.bytes == start + EncodeItems(items[..i])
    {
      TakeOneMore(items, i);
      AppendAssociative(start, EncodeItems(items[..i]), EncodeString(items[i]));
      out.Append(EncodeString(items[i]));
    }
    assert items[..|items|] == items;
    AppendAssociative(old(out.bytes), LengthHeader(true, payloadLength), EncodeItems(items));
  }

  method DecodeMandatory(kinds: seq<Kind>, cursor: Cursor) returns (r: Result<seq<Blob>, Error>)
    modifies cursor
    ensures r.Ok? ==> DecodeItems(kinds, old(cursor.buf)) == Ok((r.value, cursor.buf))
    ensures r.Err? ==> DecodeItems(kinds, old(cursor.buf)) == Err(r.error)
  {
    ghost var whole := DecodeItems(kinds, cursor.buf);
    var items := [];
    ResumeNothing(kinds, cursor.buf, 0);
    for i := 0 to |kinds|
      invariant whole == Resume(items, DecodeItems(kinds[i..], cursor.buf))
    {
      assert kinds[i..][1..] == kinds[i + 1..];
      var item :- cursor.Take(kinds[i]);
      ResumeTwice(items, item, DecodeItems(kinds[i + 1..], cursor.buf));
      items := items + [item];
    }
    assert items + [] == items;
    return Ok(items);
  }

  lemma ResumeNothing(kinds: seq<Kind>, buf: Blob, left: int)
    ensures kinds[0..] == kinds
    ensures Resume([], DecodeItems(kinds, buf)) == DecodeItems(kinds, buf)
    ensures ResumeGated([], DecodeGated(kinds, left, buf)) == DecodeGated(kinds, left, buf)
  {
    assert forall items: seq<Blob> :: [] + items == items;
  }

  /** One iteration over the optional kinds, as a step of the recursive decoder. */
  lemma GatedStep(kinds: seq<Kind>, i: nat, items: seq<Blob>, left: int, buf: Blob)
    requires i < |kinds|
    ensures left <= 0 ==> DecodeGated(kinds[i..], left, buf) == DecodeGated(kinds[i + 1..], left, buf)
    ensures left > 0 ==>
              match DecodeItem(kinds[i], buf)
              case Err(e) => DecodeGated(kinds[i..], left, buf) == Err(e)
              case Ok((item, next)) =>
                ResumeGated(items, DecodeGated(kinds[i..], left, buf))
                == ResumeGated(items + [item], DecodeGated(kinds[i + 1..], left - (|buf| - |next|), next))
  {
    assert kinds[i..][1..] == kinds[i + 1..];
    if left > 0 && DecodeItem(kinds[i], buf).Ok? {
      var (item, next) := DecodeItem(kinds[i], buf).value;
      ResumeGatedTwice(items, item, DecodeGated(kinds[i + 1..], left - (|buf| - |next|), next));
    }
  }

  /** Each optional field is read while the announced payload is not used up. */
  method DecodeOptional(kinds: seq<Kind>, announced: int, cursor: Cursor) returns (r: Result<seq<Blob>, Error>)
    modifies cursor
    ensures r.Ok? ==> DecodeGated(kinds, announced, old(cursor.buf))
                      == Ok((r.value, cursor.buf, announced - (old(|cursor.buf|) - |cursor.buf|)))
    ensures r.Err? ==> DecodeGated(kinds, announced, old(cursor.buf)) == Err(r.error)
  {
    hide DecodeItem;
    ghost var whole := DecodeGated(kinds, announced, cursor.buf);
    var startedLen := |cursor.buf|;
    var items := [];
    ResumeNothing(kinds, cursor.buf, announced);
    for i := 0 to |kinds|
      invariant whole == ResumeGated(items, DecodeGated(kinds[i..], announced - (startedLen - |cursor.buf|), cursor.buf))
    {
      GatedStep(kinds, i, items, announced - (startedLen - |cursor.buf|), cursor.buf);
      if startedLen - |cursor.buf| < announced {
        var item :- cursor.Take(kinds[i]);
        items := items + [item];
      }
    }
    assert items + [] == items;
    return Ok(items);
  }

  /** Decodes a record at the cursor and leaves the cursor at the byte after it. */
  method DecodeFrom(mandatory: seq<Kind>, optional: seq<Kind>, mismatch: Error, cursor: Cursor)
    returns (r: Result<seq<Blob>, Error>)
    modifies cursor
    ensures r.Ok? ==> DecodeRecord(mandatory, optional, mismatch, old(cursor.buf)) == Ok((r.value, cursor.buf))
    ensures r.Err? ==> DecodeRecord(mandatory, optional, mismatch, old(cursor.buf)) == Err(r.error)
  {
    hide DecodeHead, DecodeItems, DecodeGated;
    var head :- cursor.TakeHead();
    if !head.list {
      return Err(UnexpectedString);
    }
    var startedLen := |cursor.buf|;
    var first :- DecodeMandatory(mandatory, cursor);
    assert DecodeRecord(mandatory, optional, mismatch, old(cursor.buf))
        == DecodeRest(optional, mismatch, head.length - (startedLen - |cursor.buf|), first, cursor.buf);
    var second :- DecodeOptional(optional, head.length - (startedLen - |cursor.buf|), cursor);
    var consumed := startedLen - |cursor.buf|;
    if consumed != head.length {
      return Err(mismatch);
    }
    return Ok(first + second);
  }
}
