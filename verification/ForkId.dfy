/**
 Fork identifiers: the loop of `fork_id`, the set-based definition of EIP-2124 and EIP-6122
 (Specification sections), and the proof that on accepted specifications they agree
 (src/chainspec/mod.rs).
 */
module ForkId {
  import opened Base
  import opened ChainSpec

  type ForkHash = x: int | 0 <= x < 0x1_0000_0000

  /** The checksum of the genesis hash, and the opaque update with one fork block or time. */
  datatype Checksum = Checksum(genesis: ForkHash, add: (ForkHash, U64) -> ForkHash)

  datatype Head = Head(number: U64, timestamp: U64)
  datatype ForkIdentifier = ForkIdentifier(hash: ForkHash, next: U64)

  /****** The two loops ******/

  /** A block fork, or a merge fork whose block is known. */
  function BlockOf(c: ForkCondition): Option<U64> {
    match c
    case Block(b) => Some(b)
    case Ttd(b) => b
    case _ => None
  }

  datatype BlockPhase = Done(id: ForkIdentifier) | Going(hash: ForkHash, applied: U64)

  function BlockLoop(cs: Checksum, forks: Forks, head: Head, hash: ForkHash, applied: U64): BlockPhase {
    if forks == [] then Going(hash, applied)
    else
      match BlockOf(forks[0].1)
      case None => BlockLoop(cs, forks[1..], head, hash, applied)
      case Some(b) =>
        if head.number < b then Done(ForkIdentifier(hash, b))
        else if b != applied then BlockLoop(cs, forks[1..], head, cs.add(hash, b), b)
        else BlockLoop(cs, forks[1..], head, hash, applied)
  }

  function TimeLoop(cs: Checksum, times: seq<U64>, timestamp: U64, hash: ForkHash, applied: U64): ForkIdentifier {
    if times == [] then ForkIdentifier(hash, 0)
    else if timestamp < times[0] then ForkIdentifier(hash, times[0])
    else if times[0] != applied then TimeLoop(cs, times[1..], timestamp, cs.add(hash, times[0]), times[0])
    else TimeLoop(cs, times[1..], timestamp, hash, applied)
  }

  /** The fork times after genesis, in list order. */
  function TimesAfter(forks: Forks, genesisTime: int): seq<U64> {
    if forks == [] then []
    else
      (if forks[0].1.Timestamp? && forks[0].1.time > genesisTime then [forks[0].1.time] else [])
      + TimesAfter(forks[1..], genesisTime)
  }

  function LoopForkId(cs: Checksum, forks: Forks, genesisTime: U64, head: Head): ForkIdentifier {
    match BlockLoop(cs, forks, head, cs.genesis, 0)
    case Done(id) => id
    case Going(hash, applied) => TimeLoop(cs, TimesAfter(forks, genesisTime), head.timestamp, hash, applied)
  }

  method FilterTimes(forks: Forks, genesisTime: int) returns (times: seq<U64>)
    ensures times == TimesAfter(forks, genesisTime)
  {
    times := [];
    for i := 0 to |forks|
      invariant times + TimesAfter(forks[i..], genesisTime) == TimesAfter(forks, genesisTime)
    {
      assert forks[i..][1..] == forks[i + 1..];
      ghost var later := TimesAfter(forks[i + 1..], genesisTime);
      if forks[i].1.Timestamp? && forks[i].1.time > genesisTime {
        assert TimesAfter(forks[i..], genesisTime) == [forks[i].1.time] + later;
        assert times + ([forks[i].1.time] + later) == (times + [forks[i].1.time]) + later;
        times := times + [forks[i].1.time];
      } else {
        assert TimesAfter(forks[i..], genesisTime) == [] + later == later;
      }
    }
  }

  /** `fork_id`, with its single `current_applied` variable shared by both loops. */
  method ComputeForkId(cs: Checksum, spec: ChainSpec, head: Head) returns (id: ForkIdentifier)
    ensures id == LoopForkId(cs, spec.hardforks, spec.genesisTime, head)
  {
    var forks := spec.hardforks;
    var forkhash, currentApplied := cs.genesis, 0;
    for i := 0 to |forks|
      invariant BlockLoop(cs, forks[i..], head, forkhash, currentApplied) == BlockLoop(cs, forks, head, cs.genesis, 0)
    {
      assert forks[i..][1..] == forks[i + 1..];
      var block := BlockOf(forks[i].1);
      if block.Some? {
        if head.number >= block.value {
          if block.value != currentApplied {
            forkhash := cs.add(forkhash, block.value);
            currentApplied := block.value;
          }
        } else {
          return ForkIdentifier(forkhash, block.value);
        }
      }
    }
    var times := FilterTimes(forks, spec.genesisTime);
    ghost var hash, applied := forkhash, currentApplied;
    for i := 0 to |times|
      invariant TimeLoop(cs, times[i..], head.timestamp, forkhash, currentApplied)
             == TimeLoop(cs, times, head.timestamp, hash, applied)
    {
      assert times[i..][1..] == times[i + 1..];
      if head.timestamp >= times[i] {
        if times[i] != currentApplied {
          forkhash := cs.add(forkhash, times[i]);
          currentApplied := times[i];
        }
      } else {
        return ForkIdentifier(forkhash, times[i]);
      }
    }
    return ForkIdentifier(forkhash, 0);
  }

  /****** The definition on sets ******/

  function Elements(times: seq<U64>): set<U64> {
    set t | t in times
  }

  ghost predicate IsLeast(m: U64, times: set<U64>) {
    m in times && forall t :: t in times ==> m <= t
  }

  lemma {:induction false} LeastExists(times: set<U64>)
    requires times != {}
    ensures exists m :: IsLeast(m, times)
    decreases times
  {
    var t :| t in times;
    var others := times - {t};
    if others == {} {
      assert times == {t};
      assert IsLeast(t, times);
    } else {
      LeastExists(others);
      var least :| IsLeast(least, others);
      assert forall x :: x in times ==> x == t || x in others;
      assert IsLeast(if t < least then t else least, times);
    }
  }

  ghost function Least(times: set<U64>): (m: U64)
    requires times != {}
    ensures IsLeast(m, times)
  {
    LeastExists(times);
    var m :| IsLeast(m, times);
    m
  }

  /** The elements of a set in increasing order. */
  ghost function Ascending(times: set<U64>): seq<U64> {
    if times == {} then [] else [Least(times)] + Ascending(times - {Least(times)})
  }

  predicate StrictlyIncreasing(times: seq<U64>) {
    forall i, j :: 0 <= i < j < |times| ==> times[i] < times[j]
  }

  lemma {:induction false} AscendingElements(times: set<U64>)
    ensures Elements(Ascending(times)) == times
  {
    if times != {} {
      var m := Least(times);
      AscendingElements(times - {m});
      var rest := Ascending(times - {m});
      assert forall t :: t in [m] + rest <==> t == m || t in rest;
      assert forall t :: t in rest <==> t in Elements(rest);
    }
  }

  lemma {:induction false} AscendingIncreasing(times: set<U64>)
    ensures StrictlyIncreasing(Ascending(times))
  {
    if times != {} {
      var m := Least(times);
      AscendingIncreasing(times - {m});
      AscendingElements(times - {m});
      var rest := Ascending(times - {m});
      forall i, j | 0 <= i < j < |rest| + 1 ensures ([m] + rest)[i] < ([m] + rest)[j] {
        assert rest[j - 1] in Elements(rest);
      }
    }
  }

  /** An increasing listing of a set is the only one. */
  lemma {:induction false} AscendingUnique(times: seq<U64>)
    requires StrictlyIncreasing(times)
    ensures Ascending(Elements(times)) == times
  {
    if times == [] {
      assert Elements(times) == {};
    } else {
      assert times[0] in Elements(times);
      assert forall t :: t in Elements(times) ==> times[0] <= t;
      assert Elements(times) - {times[0]} == Elements(times[1..]);
      AscendingUnique(times[1..]);
    }
  }

  function Fold(cs: Checksum, hash: ForkHash, times: seq<U64>): ForkHash
    decreases times
  {
    if times == [] then hash else Fold(cs, cs.add(hash, times[0]), times[1..])
  }

  /** The checksum of a list is the genesis checksum updated with each time, from the first to the
      last. */
  lemma {:induction false} FoldExact(cs: Checksum, hash: ForkHash, times: seq<U64>, last: U64)
    ensures Fold(cs, hash, []) == hash
    ensures Fold(cs, hash, times + [last]) == cs.add(Fold(cs, hash, times), last)
    decreases times
  {
    if times == [] {
      assert ([] + [last])[1..] == [];
    } else {
      assert (times + [last])[1..] == times[1..] + [last];
      FoldExact(cs, cs.add(hash, times[0]), times[1..], last);
    }
  }

  function Upto(schedule: set<U64>, timestamp: U64): set<U64> {
    set t | t in schedule && t <= timestamp
  }

  function Later(schedule: set<U64>, timestamp: U64): set<U64> {
    set t | t in schedule && timestamp < t
  }

  ghost function NextFork(schedule: set<U64>, timestamp: U64): U64 {
    if Later(schedule, timestamp) == {} then 0 else Least(Later(schedule, timestamp))
  }

  /** The identifier of EIP-2124: every distinct fork time up to the head folded once in increasing
      order, and the least later fork time or 0. */
  ghost function EipForkId(cs: Checksum, schedule: set<U64>, timestamp: U64): ForkIdentifier {
    ForkIdentifier(Fold(cs, cs.genesis, Ascending(Upto(schedule, timestamp))), NextFork(schedule, timestamp))
  }

  /** The fork times after genesis, as a set. */
  function Schedule(spec: ChainSpec): set<U64> {
    Elements(TimesAfter(spec.hardforks, spec.genesisTime))
  }

  predicate Nondecreasing(times: seq<U64>) {
    forall i, j :: 0 <= i < j < |times| ==> times[i] <= times[j]
  }

  lemma AscendingCons(m: U64, later: set<U64>)
    requires forall t :: t in later ==> m < t
    ensures Ascending({m} + later) == [m] + Ascending(later)
  {
    var all := {m} + later;
    assert IsLeast(m, all);
    assert all - {m} == later;
  }

  /** The distinct times a loop that last applied `applied` still has to fold. */
  function Due(times: seq<U64>, applied: U64, timestamp: U64): set<U64> {
    set t | t in times && applied < t <= timestamp
  }

  lemma DueStep(times: seq<U64>, applied: U64, timestamp: U64)
    requires Nondecreasing(times) && times != [] && applied <= times[0] <= timestamp
    ensures NextFork(Elements(times), timestamp) == NextFork(Elements(times[1..]), timestamp)
    ensures times[0] == applied ==> Due(times, applied, timestamp) == Due(times[1..], applied, timestamp)
    ensures times[0] != applied ==>
              Ascending(Due(times, applied, timestamp)) == [times[0]] + Ascending(Due(times[1..], times[0], timestamp))
  {
    var first, rest := times[0], times[1..];
    assert times == [first] + rest;
    assert Later(Elements(times), timestamp) == Later(Elements(rest), timestamp);
    if first != applied {
      assert Due(times, applied, timestamp) == {first} + Due(rest, first, timestamp);
      AscendingCons(first, Due(rest, first, timestamp));
    }
  }

  lemma NothingDue(times: seq<U64>, applied: U64, timestamp: U64)
    requires Nondecreasing(times) && times != [] && timestamp < times[0]
    ensures Due(times, applied, timestamp) == {} && NextFork(Elements(times), timestamp) == times[0]
  {
    var later := Later(Elements(times), timestamp);
    assert forall t :: t in times ==> times[0] <= t;
    assert times[0] in later && IsLeast(times[0], later);
  }

  /** One variable is enough to de-duplicate a nondecreasing list: the loop folds exactly the
      distinct times after the last applied one. */
  lemma {:induction false} TimeLoopExact(cs: Checksum, times: seq<U64>, timestamp: U64, hash: ForkHash, applied: U64)
    requires Nondecreasing(times)
    requires times != [] ==> applied <= times[0]
    ensures TimeLoop(cs, times, timestamp, hash, applied)
         == ForkIdentifier(Fold(cs, hash, Ascending(Due(times, applied, timestamp))),
                           NextFork(Elements(times), timestamp))
    decreases times
  {
    if times == [] {
      assert Due(times, applied, timestamp) == {} && Elements(times) == {};
    } else if timestamp < times[0] {
      NothingDue(times, applied, timestamp);
    } else {
      DueStep(times, applied, timestamp);
      if times[0] != applied {
        TimeLoopExact(cs, times[1..], timestamp, cs.add(hash, times[0]), times[0]);
      } else {
        TimeLoopExact(cs, times[1..], timestamp, hash, applied);
      }
    }
  }

  /****** Accepted specifications ******/

  /** Block forks are at block zero and timestamps never decrease along the list. */
  predicate WellOrdered(forks: Forks) {
    && (forall i :: 0 <= i < |forks| ==> forks[i].1 == Block(0) || forks[i].1.Timestamp?)
    && (forall i, j :: 0 <= i < j < |forks| && forks[i].1.Timestamp? ==>
          forks[j].1.Timestamp? && forks[i].1.time <= forks[j].1.time)
  }

  predicate NoneAfter(forks: Forks, time: U64) {
    forall i :: 0 <= i < |forks| && forks[i].1.Timestamp? ==> forks[i].1.time <= time
  }

  lemma PushKeepsOrder(forks: Forks, fork: Hardfork, time: Option<U64>, bound: U64)
    requires WellOrdered(forks) && NoneAfter(forks, bound)
    requires time.Some? ==> bound <= time.value
    ensures var pushed := forks + Scheduled(fork, time);
            WellOrdered(pushed) && NoneAfter(pushed, time.GetOr(bound))
  {
  }

  lemma GenesisForksOrdered()
    ensures WellOrdered(GenesisForks()) && NoneAfter(GenesisForks(), 0)
  {
    var blocks := AtBlockZero(BLOCK_FORKS);
    assert WellOrdered(blocks) && NoneAfter(blocks, 0);
    PushKeepsOrder(blocks, Shanghai, Some(0), 0);
    PushKeepsOrder(blocks + Scheduled(Shanghai, Some(0)), Cancun, Some(0), 0);
  }

  lemma CheckedListOrdered(g: Genesis)
    requires Ordered(g)
    ensures WellOrdered(HardforkList(g))
  {
    hide GenesisForks, Scheduled, WellOrdered, NoneAfter;
    GenesisForksOrdered();
    var p, p1, p2 := g.pragueTime.value, g.prague1.value.time, g.prague2.value.time;
    var p3 := TimeOf(g.prague3).GetOr(p2);
    var p4 := TimeOf(g.prague4).GetOr(p3);
    var o := g.osakaTime.GetOr(p4);
    var f0 := GenesisForks();
    var f1 := f0 + Scheduled(Prague, g.pragueTime);
    var f2 := f1 + Scheduled(Prague1, Some(p1));
    var f3 := f2 + Scheduled(Prague2, Some(p2));
    var f4 := f3 + Scheduled(Prague3, TimeOf(g.prague3));
    var f5 := f4 + Scheduled(Prague4, TimeOf(g.prague4));
    var f6 := f5 + Scheduled(Osaka, g.osakaTime);
    PushKeepsOrder(f0, Prague, g.pragueTime, 0);
    PushKeepsOrder(f1, Prague1, Some(p1), p);
    PushKeepsOrder(f2, Prague2, Some(p2), p1);
    PushKeepsOrder(f3, Prague3, TimeOf(g.prague3), p2);
    PushKeepsOrder(f4, Prague4, TimeOf(g.prague4), p3);
    PushKeepsOrder(f5, Osaka, g.osakaTime, p4);
    PushKeepsOrder(f6, Osaka1, Osaka1Time(g), o);
  }

  lemma AcceptedOrdered(spec: ChainSpec)
    requires Accepted(spec)
    ensures WellOrdered(spec.hardforks)
  {
    hide WellOrdered, HardforkList;
    var g :| FromGenesis(g) == Ok(spec);
    CheckedIsOrdered(g);
    CheckedListOrdered(g);
  }

  lemma NondecreasingCons(first: U64, rest: seq<U64>)
    requires Nondecreasing(rest) && forall t :: t in rest ==> first <= t
    ensures Nondecreasing([first] + rest)
  {
    forall i, j | 0 <= i < j < |rest| + 1 ensures ([first] + rest)[i] <= ([first] + rest)[j] {
      assert rest[j - 1] in rest;
    }
  }

  lemma {:induction false} TimesAfterExact(forks: Forks, genesisTime: int, t: U64)
    ensures t in TimesAfter(forks, genesisTime) <==>
              t > genesisTime && exists i :: 0 <= i < |forks| && forks[i].1 == Timestamp(t)
  {
    if forks != [] {
      TimesAfterExact(forks[1..], genesisTime, t);
      assert forall i :: 0 < i < |forks| ==> forks[i] == forks[1..][i - 1];
    }
  }

  lemma {:induction false} TimesAfterOrdered(forks: Forks, genesisTime: int)
    requires WellOrdered(forks)
    ensures Nondecreasing(TimesAfter(forks, genesisTime))
  {
    if forks != [] {
      var rest := TimesAfter(forks[1..], genesisTime);
      TimesAfterOrdered(forks[1..], genesisTime);
      if forks[0].1.Timestamp? {
        var first := forks[0].1.time;
        forall t | t in rest ensures first <= t {
          TimesAfterExact(forks[1..], genesisTime, t);
        }
        NondecreasingCons(first, rest);
      }
    }
  }

  lemma {:induction false} BlockLoopOrdered(cs: Checksum, forks: Forks, head: Head, hash: ForkHash)
    requires WellOrdered(forks)
    ensures BlockLoop(cs, forks, head, hash, 0) == Going(hash, 0)
  {
    if forks != [] {
      BlockLoopOrdered(cs, forks[1..], head, hash);
    }
  }

  /** For every accepted genesis and every head the loop computes the identifier of the set-based
      definition, whatever the head's block number is. */
  lemma ForkIdRefinesEip(cs: Checksum, spec: ChainSpec, head: Head)
    requires Accepted(spec)
    ensures LoopForkId(cs, spec.hardforks, spec.genesisTime, head) == EipForkId(cs, Schedule(spec), head.timestamp)
  {
    AcceptedOrdered(spec);
    BlockLoopOrdered(cs, spec.hardforks, head, cs.genesis);
    TimesAfterOrdered(spec.hardforks, spec.genesisTime);
    var times := TimesAfter(spec.hardforks, spec.genesisTime);
    TimeLoopExact(cs, times, head.timestamp, cs.genesis, 0);
    forall t | t in times ensures t > 0 {
      TimesAfterExact(spec.hardforks, spec.genesisTime, t);
    }
    hide TimesAfter, WellOrdered;
    assert Due(times, 0, head.timestamp) == Upto(Schedule(spec), head.timestamp);
  }
}
