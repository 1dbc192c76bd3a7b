/** The RLP list of a block's withdrawals: a list of four-item records. */
module Withdrawals {
  import opened Base
  import opened Rlp
  import opened Record
  import opened Header
  import opened World

  /** More withdrawals than this do not fit a buffer. */
  const MAX_WITHDRAWALS: nat := 0x400_0000_0000_0000

  type WithdrawalList = ws: seq<Withdrawal> | |ws| < MAX_WITHDRAWALS witness []

  function WithdrawalItems(w: Withdrawal): seq<Blob> {
    [Num(w.index), Num(w.validatorIndex), w.address, Num(w.amount)]
  }

  lemma WithdrawalSize(w: Withdrawal)
    ensures ItemsLength(WithdrawalItems(w)) <= 48
  {
    var a, b, c, d := Num(w.index), Num(w.validatorIndex), w.address, Num(w.amount);
    FixedLengths();
    NumLength(w.index);
    NumLength(w.validatorIndex);
    NumLength(w.amount);
    hide StringLength, Num;
    assert [a, b, c, d][1..] == [b, c, d] && [b, c, d][1..] == [c, d] && [c, d][1..] == [d] && [d][1..] == [];
    assert ItemsLength([d]) == StringLength(d);
    assert ItemsLength([c, d]) == StringLength(c) + StringLength(d);
  }

  lemma WithdrawalInjective(v: Withdrawal, w: Withdrawal)
    requires WithdrawalItems(v) == WithdrawalItems(w)
    ensures v == w
  {
    assert forall i :: 0 <= i < 4 ==> WithdrawalItems(v)[i] == WithdrawalItems(w)[i];
    NumRoundTrip(v.index);
    NumRoundTrip(w.index);
    NumRoundTrip(v.validatorIndex);
    NumRoundTrip(w.validatorIndex);
    NumRoundTrip(v.amount);
    NumRoundTrip(w.amount);
  }

  function EncodeWithdrawal(w: Withdrawal): (e: Bytes)
    ensures 0 < |e| <= 49
  {
    WithdrawalSize(w);
    ItemsLengthExact(WithdrawalItems(w));
    EncodeList(WithdrawalItems(w))
  }

  function WithdrawalsPayload(ws: seq<Withdrawal>): (e: Bytes)
    ensures |e| <= 49 * |ws|
    ensures e == [] <==> ws == []
  {
    if ws == [] then [] else EncodeWithdrawal(ws[0]) + WithdrawalsPayload(ws[1..])
  }

  function EncodeWithdrawals(ws: WithdrawalList): Bytes {
    LengthHeader(true, |WithdrawalsPayload(ws)|) + WithdrawalsPayload(ws)
  }

  lemma WithdrawalPrefixFree(v: Withdrawal, w: Withdrawal, x: Blob, y: Blob)
    requires EncodeWithdrawal(v) + x == EncodeWithdrawal(w) + y
    requires |EncodeWithdrawal(v) + x| < MAX_BUFFER
    ensures v == w && x == y
  {
    hide EncodeList, ItemsLength;
    WithdrawalSize(v);
    WithdrawalSize(w);
    ListPrefixFree(WithdrawalItems(v), WithdrawalItems(w), x, y);
    WithdrawalInjective(v, w);
  }

  lemma {:induction false} PayloadInjective(a: seq<Withdrawal>, b: seq<Withdrawal>)
    requires WithdrawalsPayload(a) == WithdrawalsPayload(b) && |WithdrawalsPayload(a)| < MAX_BUFFER
    ensures a == b
  {
    hide EncodeWithdrawal;
    if a != [] {
      WithdrawalPrefixFree(a[0], b[0], WithdrawalsPayload(a[1..]), WithdrawalsPayload(b[1..]));
      PayloadInjective(a[1..], b[1..]);
      assert a == [a[0]] + a[1..] && b == [b[0]] + b[1..];
    }
  }

  /** The list says where it ends: whatever follows, the list and what follows are determined. */
  lemma WithdrawalsPrefixFree(a: WithdrawalList, b: WithdrawalList, x: Bytes, y: Bytes)
    requires EncodeWithdrawals(a) + x == EncodeWithdrawals(b) + y
    requires |EncodeWithdrawals(a) + x| < MAX_BUFFER
    ensures a == b && x == y
  {
    hide LengthHeader, WithdrawalsPayload, DecodeHead;
    var p, q := WithdrawalsPayload(a), WithdrawalsPayload(b);
    var buf := EncodeWithdrawals(a) + x;
    AppendAssociative(LengthHeader(true, |p|), p, x);
    AppendAssociative(LengthHeader(true, |q|), q, y);
    ListHeadExact(buf, |p|, p + x);
    ListHeadExact(buf, |q|, q + y);
    assert (p + x)[..|p|] == p && (q + y)[..|q|] == q && (p + x)[|p|..] == x && (q + y)[|q|..] == y;
    PayloadInjective(a, b);
  }

  /** The order of the fields on the wire: index, validator index, address, amount (EIP-4895). */
  lemma WithdrawalOrder(w: Withdrawal)
    ensures |WithdrawalItems(w)| == 4
    ensures ReadU64(WithdrawalItems(w)[0]) == w.index && ReadU64(WithdrawalItems(w)[1]) == w.validatorIndex
    ensures WithdrawalItems(w)[2] == w.address && ReadU64(WithdrawalItems(w)[3]) == w.amount
  {
    ReadBack(w.index);
    ReadBack(w.validatorIndex);
    ReadBack(w.amount);
  }
}
