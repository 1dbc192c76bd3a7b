/** Flattening deposit logs into one request (src/deposits.rs). */
module Deposits {
  import opened Base
  import opened World

  datatype DepositError = DepositRequestDecode

  /** Eight little-endian bytes. */
  function LittleEndian64(n: U64): (s: Bytes)
    ensures |s| == 8
  {
    [n % 0x100, n / 0x100 % 0x100, n / 0x1_0000 % 0x100, n / 0x100_0000 % 0x100,
     n / 0x1_0000_0000 % 0x100, n / 0x100_0000_0000 % 0x100,
     n / 0x1_0000_0000_0000 % 0x100, n / 0x100_0000_0000_0000]
  }

  function FromLittleEndian64(s: Bytes): nat
    requires |s| == 8
  {
    s[0] + 0x100 * (s[1] as int) + 0x1_0000 * (s[2] as int) + 0x100_0000 * (s[3] as int) + 0x1_0000_0000 * (s[4] as int)
    + 0x100_0000_0000 * (s[5] as int) + 0x1_0000_0000_0000 * (s[6] as int) + 0x100_0000_0000_0000 * (s[7] as int)
  }

  lemma LittleEndianRoundTrip(n: U64)
    ensures FromLittleEndian64(LittleEndian64(n)) == n
  {
    var n1 := n / 0x100;
    var n2 := n1 / 0x100;
    var n3 := n2 / 0x100;
    var n4 := n3 / 0x100;
    var n5 := n4 / 0x100;
    var n6 := n5 / 0x100;
    var n7 := n6 / 0x100;
    assert n2 == n / 0x1_0000 && n3 == n / 0x100_0000 && n4 == n / 0x1_0000_0000;
    assert n5 == n / 0x100_0000_0000 && n6 == n / 0x1_0000_0000_0000 && n7 == n / 0x100_0000_0000_0000;
  }

  function DepositBytes(d: Deposit): Bytes {
    d.pubkey + d.credentials + LittleEndian64(d.amount) + d.signature + LittleEndian64(d.index)
  }

  /** A log counts when it comes from the contract and its first topic is the event signature. */
  predicate IsDepositLog(contract: Address, topic: B256, log: Log) {
    log.address == contract && log.topics != [] && log.topics[0] == topic
  }

  /** The deposit logs of a log list, in order. */
  function DepositLogs(contract: Address, topic: B256, logs: seq<Log>): seq<Log> {
    if logs == [] then []
    else (if IsDepositLog(contract, topic, logs[0]) then [logs[0]] else []) + DepositLogs(contract, topic, logs[1..])
  }

  /** A single log is kept if and only if it comes from the contract and its first topic is the event
      signature; with `DepositLogsConcat` this determines what is kept of any list. */
  lemma DepositLogExact(contract: Address, topic: B256, log: Log)
    ensures DepositLogs(contract, topic, [log])
         == if log.address == contract && |log.topics| > 0 && log.topics[0] == topic then [log] else []
  {
    assert [log][1..] == [];
    assert [log] + [] == [log];
  }

  /** A kept log that decodes contributes its deposit, and one that does not makes the whole fail. */
  lemma DecodeOne(decode: Log -> Option<Deposit>, log: Log)
    ensures decode(log).Some? ==> DecodeAll(decode, [log]) == Ok([decode(log).value])
    ensures decode(log).None? ==> DecodeAll(decode, [log]) == Err(DepositRequestDecode)
  {
    assert [log][1..] == [];
    assert forall d: Deposit :: [d] + [] == [d];
  }

  function AllLogs(receipts: seq<Receipt>): seq<Log> {
    if receipts == [] then [] else receipts[0].logs + AllLogs(receipts[1..])
  }

  /** Decodes every log, or fails if one does not decode. */
  function DecodeAll(decode: Log -> Option<Deposit>, logs: seq<Log>): Result<seq<Deposit>, DepositError> {
    if logs == [] then Ok([])
    else if decode(logs[0]).None? then Err(DepositRequestDecode)
    else
      var rest :- DecodeAll(decode, logs[1..]);
      Ok([decode(logs[0]).value] + rest)
  }

  function Flatten(deposits: seq<Deposit>): Bytes {
    if deposits == [] then [] else DepositBytes(deposits[0]) + Flatten(deposits[1..])
  }

  /** The deposits of a receipt list. */
  function DepositsOf(w: World, receipts: seq<Receipt>): Result<seq<Deposit>, DepositError> {
    DecodeAll(w.decodeDeposit, DepositLogs(w.depositContract, w.depositTopic, AllLogs(receipts)))
  }

  function ParseDeposits(w: World, receipts: seq<Receipt>): Result<Bytes, DepositError> {
    match DepositsOf(w, receipts)
    case Ok(deposits) => Ok(Flatten(deposits))
    case Err(e) => Err(e)
  }

  /****** The loops ******/

  lemma {:induction false} DepositLogsConcat(contract: Address, topic: B256, a: seq<Log>, b: seq<Log>)
    ensures DepositLogs(contract, topic, a + b) == DepositLogs(contract, topic, a) + DepositLogs(contract, topic, b)
  {
    if a == [] {
      assert a + b == b;
    } else {
      assert (a + b)[0] == a[0] && (a + b)[1..] == a[1..] + b;
      DepositLogsConcat(contract, topic, a[1..], b);
    }
  }

  lemma {:induction false} AllLogsConcat(a: seq<Receipt>, b: seq<Receipt>)
    ensures AllLogs(a + b) == AllLogs(a) + AllLogs(b)
  {
    if a == [] {
      assert a + b == b;
    } else {
      assert (a + b)[0] == a[0] && (a + b)[1..] == a[1..] + b;
      AllLogsConcat(a[1..], b);
    }
  }

  lemma {:induction false} FlattenConcat(a: seq<Deposit>, b: seq<Deposit>)
    ensures Flatten(a + b) == Flatten(a) + Flatten(b)
  {
    if a == [] {
      assert a + b == b;
    } else {
      assert (a + b)[0] == a[0] && (a + b)[1..] == a[1..] + b;
      FlattenConcat(a[1..], b);
    }
  }

  /** Puts deposits that were already decoded in front of the rest. */
  function Continue(done: seq<Deposit>, r: Result<seq<Deposit>, DepositError>): Result<seq<Deposit>, DepositError> {
    match r
    case Ok(deposits) => Ok(done + deposits)
    case Err(e) => Err(e)
  }

  lemma {:induction false} DecodeAllConcat(decode: Log -> Option<Deposit>, a: seq<Log>, b: seq<Log>)
    ensures DecodeAll(decode, a + b)
         == match DecodeAll(decode, a) case Err(e) => Err(e) case Ok(done) => Continue(done, DecodeAll(decode, b))
    decreases a
  {
    if a == [] {
      assert a + b == b;
      assert forall d: seq<Deposit> :: [] + d == d;
    } else {
      assert (a + b)[0] == a[0] && (a + b)[1..] == a[1..] + b;
      DecodeAllConcat(decode, a[1..], b);
      assert forall d: Deposit, x: seq<Deposit>, y: seq<Deposit> :: [d] + (x + y) == ([d] + x) + y;
    }
  }

  lemma ContinueTwice(done: seq<Deposit>, d: Deposit, r: Result<seq<Deposit>, DepositError>)
    ensures Continue(done, Continue([d], r)) == Continue(done + [d], r)
  {
    if r.Ok? {
      assert done + ([d] + r.value) == (done + [d]) + r.value;
    }
  }

  /** What remains after some receipts and logs were handled. */
  function Remaining(w: World, logs: seq<Log>): Result<seq<Deposit>, DepositError> {
    DecodeAll(w.decodeDeposit, DepositLogs(w.depositContract, w.depositTopic, logs))
  }

  /** One iteration over the logs: skipped, refused, or appended to what was done. */
  lemma LogStep(w: World, done: seq<Deposit>, log: Log, later: seq<Log>)
    ensures !IsDepositLog(w.depositContract, w.depositTopic, log) ==> Remaining(w, [log] + later) == Remaining(w, later)
    ensures IsDepositLog(w.depositContract, w.depositTopic, log) ==>
              match w.decodeDeposit(log)
              case None => Continue(done, Remaining(w, [log] + later)) == Err(DepositRequestDecode)
              case Some(d) => Continue(done, Remaining(w, [log] + later)) == Continue(done + [d], Remaining(w, later))
  {
    assert ([log] + later)[1..] == later;
    var rest := DepositLogs(w.depositContract, w.depositTopic, later);
    if IsDepositLog(w.depositContract, w.depositTopic, log) {
      assert ([log] + rest)[1..] == rest;
      if w.decodeDeposit(log).Some? {
        ContinueTwice(done, w.decodeDeposit(log).value, Remaining(w, later));
      }
    } else {
      assert [] + rest == rest;
    }
  }

  method ParseDepositsFromReceipts(w: World, receipts: seq<Receipt>) returns (r: Result<Bytes, DepositError>)
    ensures r == ParseDeposits(w, receipts)
  {
    var out: Bytes := [];
    ghost var done: seq<Deposit> := [];
    ghost var whole := Remaining(w, AllLogs(receipts));
    assert whole.Ok? ==> [] + whole.value == whole.value;
    for i := 0 to |receipts|
      invariant out == Flatten(done)
      invariant whole == Continue(done, Remaining(w, AllLogs(receipts[i..])))
    {
      var logs := receipts[i].logs;
      ghost var later := AllLogs(receipts[i + 1..]);
      assert receipts[i..][1..] == receipts[i + 1..];
      assert AllLogs(receipts[i..]) == logs + later == logs[0..] + later;
      for j := 0 to |logs|
        invariant out == Flatten(done)
        invariant whole == Continue(done, Remaining(w, logs[j..] + later))
      {
        var log := logs[j];
        assert logs[j..] + later == [log] + (logs[j + 1..] + later);
        LogStep(w, done, log, logs[j + 1..] + later);
        if log.address != w.depositContract {
          continue;
        }
        if log.topics == [] || log.topics[0] != w.depositTopic {
          continue;
        }
        var decoded := w.decodeDeposit(log);
        if decoded.None? {
          return Err(DepositRequestDecode);
        }
        FlattenConcat(done, [decoded.value]);
        assert Flatten([decoded.value]) == DepositBytes(decoded.value) + Flatten([]) == DepositBytes(decoded.value);
        out := out + DepositBytes(decoded.value);
        done := done + [decoded.value];
      }
      assert logs[|logs|..] + later == later;
    }
    assert receipts[|receipts|..] == [];
    assert done + [] == done;
    return Ok(out);
  }

  /** Over appended receipts the deposit bytes are appended, and the first failure is the failure of the
      whole. */
  lemma ParseDistributes(w: World, a: seq<Receipt>, b: seq<Receipt>)
    ensures ParseDeposits(w, a + b)
         == match ParseDeposits(w, a)
            case Err(e) => Err(e)
            case Ok(first) =>
              match ParseDeposits(w, b)
              case Err(e) => Err(e)
              case Ok(second) => Ok(first + second)
  {
    AllLogsConcat(a, b);
    DepositLogsConcat(w.depositContract, w.depositTopic, AllLogs(a), AllLogs(b));
    DecodeAllConcat(w.decodeDeposit, DepositLogs(w.depositContract, w.depositTopic, AllLogs(a)),
                    DepositLogs(w.depositContract, w.depositTopic, AllLogs(b)));
    if DepositsOf(w, a).Ok? && DepositsOf(w, b).Ok? {
      FlattenConcat(DepositsOf(w, a).value, DepositsOf(w, b).value);
    }
  }

  /****** The request splits back ******/

  const DEPOSIT_BYTES_SIZE := 192

  /** The field sizes of the request layout of EIP-6110. */
  predicate StandardSizes(d: Deposit) {
    |d.pubkey| == 48 && |d.credentials| == 32 && |d.signature| == 96
  }

  function ReadDeposit(b: Bytes): Deposit
    requires |b| == DEPOSIT_BYTES_SIZE
  {
    Deposit(b[..48], b[48..80], FromLittleEndian64(b[80..88]) % TWO_64, b[88..184], FromLittleEndian64(b[184..]) % TWO_64)
  }

  function SplitDeposits(b: Bytes): seq<Deposit>
    requires |b| % DEPOSIT_BYTES_SIZE == 0
    decreases |b|
  {
    if b == [] then [] else [ReadDeposit(b[..DEPOSIT_BYTES_SIZE])] + SplitDeposits(b[DEPOSIT_BYTES_SIZE..])
  }

  lemma ReadDepositBytes(d: Deposit)
    requires StandardSizes(d)
    ensures |DepositBytes(d)| == DEPOSIT_BYTES_SIZE && ReadDeposit(DepositBytes(d)) == d
  {
    hide LittleEndian64, FromLittleEndian64;
    var b := DepositBytes(d);
    assert b[..48] == d.pubkey && b[48..80] == d.credentials && b[88..184] == d.signature;
    assert b[80..88] == LittleEndian64(d.amount) && b[184..] == LittleEndian64(d.index);
    LittleEndianRoundTrip(d.amount);
    LittleEndianRoundTrip(d.index);
  }

  lemma SplitStep(first: Bytes, rest: Bytes)
    requires |first| == DEPOSIT_BYTES_SIZE && |rest| % DEPOSIT_BYTES_SIZE == 0
    ensures |first + rest| % DEPOSIT_BYTES_SIZE == 0
    ensures SplitDeposits(first + rest) == [ReadDeposit(first)] + SplitDeposits(rest)
  {
    hide ReadDeposit;
    assert (first + rest)[..DEPOSIT_BYTES_SIZE] == first && (first + rest)[DEPOSIT_BYTES_SIZE..] == rest;
  }

  /** With the standard sizes the flat request is 192 bytes a deposit and splits back into the same
      deposits in the same order. */
  lemma {:induction false} RequestSplitsBack(deposits: seq<Deposit>)
    requires forall d :: d in deposits ==> StandardSizes(d)
    ensures |Flatten(deposits)| == DEPOSIT_BYTES_SIZE * |deposits|
    ensures |Flatten(deposits)| % DEPOSIT_BYTES_SIZE == 0 && SplitDeposits(Flatten(deposits)) == deposits
  {
    if deposits != [] {
      hide DepositBytes, ReadDeposit, SplitDeposits, StandardSizes;
      ReadDepositBytes(deposits[0]);
      RequestSplitsBack(deposits[1..]);
      SplitStep(DepositBytes(deposits[0]), Flatten(deposits[1..]));
      assert deposits == [deposits[0]] + deposits[1..];
    }
  }
}
