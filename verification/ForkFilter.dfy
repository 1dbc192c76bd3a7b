/**
 Walking the fork schedule through announced next forks, the latest fork identifier, and the filter
 that a node applies to its peers' identifiers (src/chainspec/mod.rs).
 */
module ForkFilter {
  import opened Base
  import opened ChainSpec
  import opened ForkId

  /****** Position in the schedule ******/

  /** How many leading times of an increasing list have passed. */
  function Passed(keys: seq<U64>, timestamp: U64): (k: nat)
    ensures k <= |keys|
  {
    if keys == [] || timestamp < keys[0] then 0 else 1 + Passed(keys[1..], timestamp)
  }

  lemma {:induction false} PassedExact(keys: seq<U64>, timestamp: U64)
    requires StrictlyIncreasing(keys)
    ensures var k := Passed(keys, timestamp);
            && (forall i :: 0 <= i < k ==> keys[i] <= timestamp)
            && (forall i :: k <= i < |keys| ==> timestamp < keys[i])
  {
    if keys != [] && keys[0] <= timestamp {
      PassedExact(keys[1..], timestamp);
      assert forall i :: 0 < i < |keys| ==> keys[i] == keys[1..][i - 1];
    }
  }

  function PrefixHash(cs: Checksum, keys: seq<U64>, k: nat): ForkHash
    requires k <= |keys|
  {
    Fold(cs, cs.genesis, keys[..k])
  }

  function KeyOrZero(keys: seq<U64>, k: nat): U64 {
    if k < |keys| then keys[k] else 0
  }

  lemma SplitAtPosition(keys: seq<U64>, timestamp: U64)
    requires StrictlyIncreasing(keys)
    ensures var k := Passed(keys, timestamp);
            && Elements(keys[..k]) == Upto(Elements(keys), timestamp)
            && (k == |keys| ==> Later(Elements(keys), timestamp) == {})
            && (k < |keys| ==> IsLeast(keys[k], Later(Elements(keys), timestamp)))
  {
    PassedExact(keys, timestamp);
  }

  /** The identifier at a timestamp is the prefix hash and the key at the position reached. */
  lemma ForkIdAtPosition(cs: Checksum, schedule: set<U64>, timestamp: U64)
    ensures var keys := Ascending(schedule);
            var k := Passed(keys, timestamp);
            EipForkId(cs, schedule, timestamp) == ForkIdentifier(PrefixHash(cs, keys, k), KeyOrZero(keys, k))
  {
    hide Passed;
    var keys := Ascending(schedule);
    var k := Passed(keys, timestamp);
    AscendingIncreasing(schedule);
    AscendingElements(schedule);
    SplitAtPosition(keys, timestamp);
    AscendingUnique(keys[..k]);
    hide Ascending, Elements;
    assert Ascending(Upto(schedule, timestamp)) == keys[..k];
    assert NextFork(schedule, timestamp) == KeyOrZero(keys, k);
  }

  /****** Walking the schedule ******/

  /** What `fork_id` announces at a timestamp is the least later fork time, or 0 without one. */
  lemma LoopAnnounces(cs: Checksum, spec: ChainSpec, head: Head)
    requires Accepted(spec)
    ensures LoopForkId(cs, spec.hardforks, spec.genesisTime, head).next == NextFork(Schedule(spec), head.timestamp)
    ensures NextFork(Schedule(spec), head.timestamp) == 0 <==> Later(Schedule(spec), head.timestamp) == {}
  {
    hide LoopForkId, Accepted, Schedule, TimesAfter;
    ForkIdRefinesEip(cs, spec, head);
    ScheduleAfterGenesis(spec);
  }

  /** Following what `fork_id` announces from a timestamp until it announces 0. The block numbers of the
      heads on the way are arbitrary. */
  ghost function Walk(cs: Checksum, spec: ChainSpec, numberAt: U64 -> U64, timestamp: U64): seq<U64>
    requires Accepted(spec)
    decreases |Later(Schedule(spec), timestamp)|
  {
    var head := Head(numberAt(timestamp), timestamp);
    var next := LoopForkId(cs, spec.hardforks, spec.genesisTime, head).next;
    LoopAnnounces(cs, spec, head);
    if next == 0 then []
    else
      LaterShrinks(Schedule(spec), timestamp, next);
      [next] + Walk(cs, spec, numberAt, next)
  }

  lemma LaterShrinks(schedule: set<U64>, timestamp: U64, next: U64)
    requires Later(schedule, timestamp) != {} && next == Least(Later(schedule, timestamp))
    ensures Later(schedule, next) == Later(schedule, timestamp) - {next}
    ensures |Later(schedule, next)| < |Later(schedule, timestamp)|
  {
    var later := Later(schedule, timestamp);
    assert next in later;
    assert Later(schedule, next) == later - {next};
  }

  lemma {:induction false} WalkExact(cs: Checksum, spec: ChainSpec, numberAt: U64 -> U64, timestamp: U64)
    requires Accepted(spec)
    ensures Walk(cs, spec, numberAt, timestamp) == Ascending(Later(Schedule(spec), timestamp))
    decreases |Later(Schedule(spec), timestamp)|
  {
    hide LoopForkId, Accepted, Schedule;
    var head := Head(numberAt(timestamp), timestamp);
    var next := LoopForkId(cs, spec.hardforks, spec.genesisTime, head).next;
    LoopAnnounces(cs, spec, head);
    if next != 0 {
      LaterShrinks(Schedule(spec), timestamp, next);
      WalkExact(cs, spec, numberAt, next);
    }
  }

  lemma ScheduleAfterGenesis(spec: ChainSpec)
    ensures Later(Schedule(spec), spec.genesisTime) == Schedule(spec) && Upto(Schedule(spec), spec.genesisTime) == {}
    ensures 0 !in Schedule(spec)
  {
    forall t | t in Schedule(spec) ensures t > spec.genesisTime {
      TimesAfterExact(spec.hardforks, spec.genesisTime, t);
    }
  }

  /** The identifier that folds every scheduled fork and announces none. */
  ghost function FinalForkId(cs: Checksum, spec: ChainSpec): ForkIdentifier {
    ForkIdentifier(Fold(cs, cs.genesis, Ascending(Schedule(spec))), 0)
  }

  /** Every head at or after all scheduled forks has the final identifier. */
  lemma PastAllForks(cs: Checksum, spec: ChainSpec, head: Head)
    requires Accepted(spec) && forall t :: t in Schedule(spec) ==> t <= head.timestamp
    ensures LoopForkId(cs, spec.hardforks, spec.genesisTime, head) == FinalForkId(cs, spec)
  {
    hide LoopForkId, Accepted, Schedule;
    ForkIdRefinesEip(cs, spec, head);
    assert Upto(Schedule(spec), head.timestamp) == Schedule(spec) && Later(Schedule(spec), head.timestamp) == {};
  }

  /** Where a walk ends: at its last fork, or where it started when nothing was announced. */
  function WalkEnd(walk: seq<U64>, start: U64): U64 {
    if walk == [] then start else walk[|walk| - 1]
  }

  lemma EndOfAscending(times: set<U64>, start: U64)
    ensures forall t :: t in times ==> t <= WalkEnd(Ascending(times), start)
  {
    var listed := Ascending(times);
    AscendingElements(times);
    AscendingIncreasing(times);
    hide Ascending;
    forall t | t in times ensures t <= WalkEnd(listed, start) {
      assert t in Elements(listed);
    }
  }

  /** From the genesis head, whatever the block numbers, `fork_id` announces all scheduled forks, each
      once and in order, and at the last one it yields the final identifier. */
  lemma WalkVisitsEveryFork(cs: Checksum, spec: ChainSpec, numberAt: U64 -> U64)
    requires Accepted(spec)
    ensures var walk := Walk(cs, spec, numberAt, spec.genesisTime);
            var end := WalkEnd(walk, spec.genesisTime);
            walk == Ascending(Schedule(spec))
            && LoopForkId(cs, spec.hardforks, spec.genesisTime, Head(numberAt(end), end)) == FinalForkId(cs, spec)
  {
    hide LoopForkId, Accepted, Schedule, Walk;
    ScheduleAfterGenesis(spec);
    WalkExact(cs, spec, numberAt, spec.genesisTime);
    EndOfAscending(Schedule(spec), spec.genesisTime);
    var end := WalkEnd(Walk(cs, spec, numberAt, spec.genesisTime), spec.genesisTime);
    PastAllForks(cs, spec, Head(numberAt(end), end));
  }

  /****** latest_fork_id ******/

  /** A block fork right before a merge or timestamp fork. */
  predicate BoundaryAt(forks: Forks, i: nat) {
    i + 1 < |forks| && forks[i].1.Block? && (forks[i + 1].1.Ttd? || forks[i + 1].1.Timestamp?)
  }

  predicate FirstBoundary(forks: Forks, i: nat) {
    BoundaryAt(forks, i) && forall j :: 0 <= j < i ==> !BoundaryAt(forks, j)
  }

  /** `last_block_fork_before_merge_or_timestamp`: the first such fork in the list. */
  method LastBlockForkBeforeTimestamp(forks: Forks) returns (r: Option<U64>)
    ensures r.Some? ==> exists i: nat :: FirstBoundary(forks, i) && forks[i].1.number == r.value
    ensures r.None? ==> forall i: nat :: !BoundaryAt(forks, i)
    ensures WellOrdered(forks) ==> r.GetOr(0) == 0
  {
    for i := 0 to |forks|
      invariant forall j :: 0 <= j < i ==> !BoundaryAt(forks, j)
    {
      if i + 1 < |forks| && (forks[i + 1].1.Ttd? || forks[i + 1].1.Timestamp?) {
        if forks[i].1.Block? {
          assert FirstBoundary(forks, i);
          return Some(forks[i].1.number);
        }
      }
    }
    return None;
  }

  /** `satisfy`: a head at which the condition holds. On an ordered list the block number that
      accompanies a time is 0. */
  method Satisfy(forks: Forks, c: ForkCondition) returns (head: Head)
    requires !c.Never?
    ensures c.Timestamp? ==> head.timestamp == c.time && (WellOrdered(forks) ==> head.number == 0)
    ensures c.Block? ==> head == Head(c.number, 0)
    ensures c.Ttd? ==> head == Head(c.forkBlock.GetOr(0), 0)
  {
    match c
    case Block(number) => head := Head(number, 0);
    case Timestamp(time) =>
      var last := LastBlockForkBeforeTimestamp(forks);
      head := Head(last.GetOr(0), time);
    case Ttd(block) => head := Head(block.GetOr(0), 0);
  }

  /** `latest_fork_id`, through `hardfork_fork_id` of the last listed fork: the final identifier, which
      every head from that fork on has. */
  method LatestForkId(cs: Checksum, spec: ChainSpec) returns (id: ForkIdentifier)
    requires Accepted(spec)
    ensures id == FinalForkId(cs, spec)
    ensures forall head: Head :: LastTime(spec) <= head.timestamp ==>
              LoopForkId(cs, spec.hardforks, spec.genesisTime, head) == id
  {
    hide LoopForkId, Schedule;
    AcceptedLast(spec);
    var head := Satisfy(spec.hardforks, spec.hardforks[|spec.hardforks| - 1].1);
    id := ComputeForkId(cs, spec, head);
    forall head: Head | LastTime(spec) <= head.timestamp
      ensures LoopForkId(cs, spec.hardforks, spec.genesisTime, head) == FinalForkId(cs, spec)
    {
      PastAllForks(cs, spec, head);
    }
  }

  ghost function LastTime(spec: ChainSpec): U64 {
    var forks := spec.hardforks;
    if forks != [] && forks[|forks| - 1].1.Timestamp? then forks[|forks| - 1].1.time else 0
  }

  /** The last listed fork is a timestamp fork and no fork is scheduled after it. */
  lemma AcceptedLast(spec: ChainSpec)
    requires Accepted(spec)
    ensures spec.hardforks != [] && spec.hardforks[|spec.hardforks| - 1].1 == Timestamp(LastTime(spec))
    ensures forall t :: t in Schedule(spec) ==> t <= LastTime(spec)
  {
    hide HardforkList, Check, TimesAfter;
    var g :| FromGenesis(g) == Ok(spec);
    AcceptedOrdered(spec);
    ListEnds(g);
    var forks := spec.hardforks;
    forall t | t in Schedule(spec) ensures t <= LastTime(spec) {
      TimesAfterExact(forks, spec.genesisTime, t);
    }
  }

  lemma ListEnds(g: Genesis)
    requires Check(g).Ok? && WellOrdered(HardforkList(g))
    ensures var forks := HardforkList(g); forks != [] && forks[|forks| - 1].1.Timestamp?
  {
    assert HardforkList(g)[|BLOCK_FORKS|] == (Shanghai, Timestamp(0));
  }

  /****** The peer filter ******/

  datatype ValidationError = LocalIncompatibleOrStale | RemoteStale

  /** A fork that a peer can be behind or ahead of: by block number or by time. */
  datatype ForkKey = BlockKey(number: U64) | TimeKey(time: U64)

  function KeyValue(key: ForkKey): U64 {
    match key
    case BlockKey(number) => number
    case TimeKey(time) => time
  }

  predicate KeyActive(key: ForkKey, head: Head) {
    match key
    case BlockKey(number) => number <= head.number
    case TimeKey(time) => time <= head.timestamp
  }

  /** Block forks and merge forks with a known block have a block key, timestamp forks a time key. */
  function KeyOf(c: ForkCondition): Option<ForkKey> {
    match c
    case Block(number) => Some(BlockKey(number))
    case Ttd(Some(number)) => Some(BlockKey(number))
    case Timestamp(time) => Some(TimeKey(time))
    case _ => None
  }

  function CollectedKeys(forks: Forks): seq<ForkKey> {
    if forks == [] then []
    else (match KeyOf(forks[0].1) case Some(key) => [key] case None => []) + CollectedKeys(forks[1..])
  }

  /** The keys of `fork_filter`, in the order of the fork list. */
  method CollectKeys(forks: Forks) returns (keys: seq<ForkKey>)
    ensures keys == CollectedKeys(forks)
    ensures forall key :: key in keys <==> exists i :: 0 <= i < |forks| && KeyOf(forks[i].1) == Some(key)
  {
    hide KeyOf;
    keys := [];
    for i := 0 to |forks|
      invariant keys + CollectedKeys(forks[i..]) == CollectedKeys(forks)
    {
      assert forks[i..][1..] == forks[i + 1..];
      var key := KeyOf(forks[i].1);
      if key.Some? {
        keys := keys + [key.value];
      }
    }
    forall key ensures key in keys <==> exists i :: 0 <= i < |forks| && KeyOf(forks[i].1) == Some(key) {
      CollectedExact(forks, key);
    }
  }

  lemma {:induction false} CollectedExact(forks: Forks, key: ForkKey)
    ensures key in CollectedKeys(forks) <==> exists i :: 0 <= i < |forks| && KeyOf(forks[i].1) == Some(key)
  {
    hide KeyOf;
    if forks != [] {
      CollectedExact(forks[1..], key);
      assert forall i :: 0 < i < |forks| ==> forks[i] == forks[1..][i - 1];
    }
  }

  /** Block 0 is dropped, and so are times up to genesis. */
  function KeptBlocks(keys: seq<ForkKey>): set<U64> {
    set key | key in keys && key.BlockKey? && key.number != 0 :: key.number
  }

  function KeptTimes(keys: seq<ForkKey>, genesisTime: U64): set<U64> {
    set key | key in keys && key.TimeKey? && key.time > genesisTime :: key.time
  }

  function BlockKeys(numbers: seq<U64>): (keys: seq<ForkKey>)
    ensures |keys| == |numbers|
  {
    seq(|numbers|, i requires 0 <= i < |numbers| => BlockKey(numbers[i]))
  }

  function TimeKeys(times: seq<U64>): (keys: seq<ForkKey>)
    ensures |keys| == |times|
    ensures forall i :: 0 <= i < |times| ==> keys[i] == TimeKey(times[i])
  {
    seq(|times|, i requires 0 <= i < |times| => TimeKey(times[i]))
  }

  /** What is kept, without duplicates and in order: block keys before time keys. */
  ghost function FilterKeys(forks: Forks, genesisTime: U64): seq<ForkKey> {
    var keys := CollectedKeys(forks);
    BlockKeys(Ascending(KeptBlocks(keys))) + TimeKeys(Ascending(KeptTimes(keys, genesisTime)))
  }

  lemma TimeListed(forks: Forks, genesisTime: U64, t: U64)
    ensures t in KeptTimes(CollectedKeys(forks), genesisTime) <==> t in TimesAfter(forks, genesisTime)
  {
    hide TimesAfter, CollectedKeys;
    TimesAfterExact(forks, genesisTime, t);
    CollectedExact(forks, TimeKey(t));
    assert t in KeptTimes(CollectedKeys(forks), genesisTime) <==> TimeKey(t) in CollectedKeys(forks) && t > genesisTime;
    assert forall i :: 0 <= i < |forks| ==> (KeyOf(forks[i].1) == Some(TimeKey(t)) <==> forks[i].1 == Timestamp(t));
  }

  /** On an accepted specification no block key is kept, and the time keys are the schedule in order. */
  lemma FilterKeysExact(spec: ChainSpec)
    requires Accepted(spec)
    ensures FilterKeys(spec.hardforks, spec.genesisTime) == TimeKeys(Ascending(Schedule(spec)))
  {
    hide CollectedKeys, TimesAfter, Accepted;
    AcceptedOrdered(spec);
    var keys := CollectedKeys(spec.hardforks);
    forall key | key in keys && key.BlockKey? ensures key.number == 0 {
      CollectedExact(spec.hardforks, key);
    }
    assert KeptBlocks(keys) == {};
    forall t: U64 ensures t in KeptTimes(keys, spec.genesisTime) <==> t in Schedule(spec) {
      TimeListed(spec.hardforks, spec.genesisTime, t);
    }
    assert KeptTimes(keys, spec.genesisTime) == Schedule(spec);
  }

  /** The keys in order, the hash before the first and after each of them, how many the head has
      passed, and the head. */
  datatype Filter = Filter(keys: seq<ForkKey>, hashes: seq<ForkHash>, passed: nat, head: Head) {
    ghost predicate Valid() {
      |hashes| == |keys| + 1 && passed <= |keys|
    }

    function Current(): ForkIdentifier
      requires Valid()
    {
      ForkIdentifier(hashes[passed], if passed < |keys| then KeyValue(keys[passed]) else 0)
    }
  }

  function KeyValues(keys: seq<ForkKey>): (values: seq<U64>)
    ensures |values| == |keys|
  {
    seq(|keys|, i requires 0 <= i < |keys| => KeyValue(keys[i]))
  }

  /** How many leading keys the head has passed. */
  function PassedKeys(keys: seq<ForkKey>, head: Head): (k: nat)
    ensures k <= |keys|
  {
    if keys == [] || !KeyActive(keys[0], head) then 0 else 1 + PassedKeys(keys[1..], head)
  }

  /** `fork_filter`: the filter over the keys collected from the fork list. */
  ghost function ForkFilterAt(cs: Checksum, spec: ChainSpec, head: Head): (f: Filter)
    ensures f.Valid()
  {
    var keys := FilterKeys(spec.hardforks, spec.genesisTime);
    var values := KeyValues(keys);
    Filter(keys, seq(|keys| + 1, i requires 0 <= i <= |keys| => PrefixHash(cs, values, i)), PassedKeys(keys, head), head)
  }

  lemma {:induction false} PassedTimeKeys(times: seq<U64>, head: Head)
    ensures PassedKeys(TimeKeys(times), head) == Passed(times, head.timestamp)
  {
    if times != [] {
      assert TimeKeys(times)[1..] == TimeKeys(times[1..]);
      PassedTimeKeys(times[1..], head);
    }
  }

  /** The filter of an accepted specification, spelled out over its schedule. */
  lemma AcceptedFilter(cs: Checksum, spec: ChainSpec, head: Head)
    requires Accepted(spec)
    ensures var f, times := ForkFilterAt(cs, spec, head), Ascending(Schedule(spec));
            && f.head == head && f.keys == TimeKeys(times) && f.passed == Passed(times, head.timestamp)
            && |f.hashes| == |times| + 1
            && forall i :: 0 <= i < |f.hashes| ==> f.hashes[i] == PrefixHash(cs, times, i)
  {
    hide Accepted, FilterKeys, Schedule, PrefixHash, Ascending;
    var times := Ascending(Schedule(spec));
    FilterKeysExact(spec);
    PassedTimeKeys(times, head);
    assert KeyValues(TimeKeys(times)) == times;
  }

  function IndexOf(hashes: seq<ForkHash>, hash: ForkHash): (i: nat)
    ensures i <= |hashes|
    ensures i < |hashes| ==> hashes[i] == hash
    ensures forall j :: 0 <= j < i ==> hashes[j] != hash
  {
    if hashes == [] || hashes[0] == hash then 0 else 1 + IndexOf(hashes[1..], hash)
  }

  /** The validation rules of EIP-2124, with fork times compared against the head's time. */
  function Validate(f: Filter, id: ForkIdentifier): Result<(), ValidationError>
    requires f.Valid()
  {
    if id.hash == f.hashes[f.passed] then
      if id.next != 0 && id.next <= f.head.timestamp then Err(LocalIncompatibleOrStale) else Ok(())
    else
      var past := IndexOf(f.hashes[..f.passed], id.hash);
      if past < f.passed then
        if KeyValue(f.keys[past]) == id.next then Ok(()) else Err(RemoteStale)
      else if id.hash in f.hashes[f.passed + 1..] then Ok(())
      else Err(LocalIncompatibleOrStale)
  }

  ghost predicate CollisionFree(hashes: seq<ForkHash>) {
    forall i, j :: 0 <= i < j < |hashes| ==> hashes[i] != hashes[j]
  }

  /** What a node at position `passed` may hear from a node at position j. */
  predicate Compatible(f: Filter, j: nat, next: U64)
    requires f.Valid() && j <= |f.keys|
  {
    if j == f.passed then next == 0 || f.head.timestamp < next
    else if j < f.passed then next == KeyValue(f.keys[j])
    else true
  }

  /** The filter accepts exactly the identifiers of a known position with a compatible next fork. */
  lemma ValidateExact(f: Filter, id: ForkIdentifier)
    requires f.Valid() && CollisionFree(f.hashes)
    ensures Validate(f, id).Ok? <==>
            exists j :: 0 <= j < |f.hashes| && f.hashes[j] == id.hash && Compatible(f, j, id.next)
  {
    var past := IndexOf(f.hashes[..f.passed], id.hash);
    if Validate(f, id).Ok? {
      if id.hash == f.hashes[f.passed] {
        assert Compatible(f, f.passed, id.next);
      } else if past < f.passed {
        assert f.hashes[past] == id.hash && Compatible(f, past, id.next);
      } else {
        var i :| 0 <= i < |f.hashes[f.passed + 1..]| && f.hashes[f.passed + 1..][i] == id.hash;
        assert f.hashes[f.passed + 1 + i] == id.hash && Compatible(f, f.passed + 1 + i, id.next);
      }
    }
    if j :| 0 <= j < |f.hashes| && f.hashes[j] == id.hash && Compatible(f, j, id.next) {
      if j < f.passed {
        assert f.hashes[..f.passed][j] == id.hash;
        assert f.hashes[past] == id.hash;
      } else if j > f.passed {
        assert f.hashes[f.passed + 1..][j - f.passed - 1] == id.hash;
        assert id.hash !in f.hashes[..f.passed];
      }
    }
  }

  /** The filter's own identifier is what `fork_id` computes for its head. */
  lemma FilterCurrentIsForkId(cs: Checksum, spec: ChainSpec, head: Head)
    requires Accepted(spec)
    ensures ForkFilterAt(cs, spec, head).Current() == LoopForkId(cs, spec.hardforks, spec.genesisTime, head)
  {
    hide Accepted, ForkFilterAt, Schedule, LoopForkId, PrefixHash;
    AcceptedFilter(cs, spec, head);
    ForkIdRefinesEip(cs, spec, head);
    ForkIdAtPosition(cs, Schedule(spec), head.timestamp);
  }

  /** Two nodes on one accepted genesis accept each other at any two heads. */
  lemma PeersAcceptEachOther(cs: Checksum, spec: ChainSpec, local: Head, remote: Head)
    requires Accepted(spec)
    requires CollisionFree(ForkFilterAt(cs, spec, local).hashes)
    ensures Validate(ForkFilterAt(cs, spec, local), LoopForkId(cs, spec.hardforks, spec.genesisTime, remote)).Ok?
  {
    hide Accepted, ForkFilterAt, Schedule, LoopForkId, PrefixHash, Validate, Ascending, Passed;
    var f, times := ForkFilterAt(cs, spec, local), Ascending(Schedule(spec));
    var id := LoopForkId(cs, spec.hardforks, spec.genesisTime, remote);
    AcceptedFilter(cs, spec, local);
    ForkIdRefinesEip(cs, spec, remote);
    ForkIdAtPosition(cs, Schedule(spec), remote.timestamp);
    var j := Passed(times, remote.timestamp);
    AscendingIncreasing(Schedule(spec));
    PassedExact(times, local.timestamp);
    PassedExact(times, remote.timestamp);
    assert f.hashes[j] == id.hash && id.next == KeyOrZero(times, j);
    assert Compatible(f, j, id.next);
    ValidateExact(f, id);
  }
}
