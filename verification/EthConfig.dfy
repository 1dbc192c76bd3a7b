/** The choice of current, next and last fork by `eth_config` (src/rpc/config.rs). */
module EthConfig {
  import opened Base
  import opened ChainSpec
  import opened ForkId

  datatype ForkConfig = ForkConfig(activationTime: U64, forkHash: ForkHash)
  datatype Config = Config(current: ForkConfig, next: Option<ForkConfig>, last: Option<ForkConfig>)

  /** Every timestamp in the fork list, genesis forks included. */
  function AllTimes(forks: Forks): set<U64> {
    Elements(TimesAfter(forks, -1))
  }

  /** The hash of a fork is computed at its activation time and at the largest block number. */
  function ForkConfigAt(cs: Checksum, spec: ChainSpec, time: U64): ForkConfig {
    ForkConfig(time, LoopForkId(cs, spec.hardforks, spec.genesisTime, Head(TWO_64 - 1, time)).hash)
  }

  lemma InsertKeepsIncreasing(sorted: seq<U64>, i: nat, t: U64)
    requires StrictlyIncreasing(sorted) && i <= |sorted|
    requires forall j :: 0 <= j < i ==> sorted[j] < t
    requires forall j :: i <= j < |sorted| ==> t < sorted[j]
    ensures StrictlyIncreasing(sorted[..i] + [t] + sorted[i..])
    ensures Elements(sorted[..i] + [t] + sorted[i..]) == Elements(sorted) + {t}
  {
    var inserted := sorted[..i] + [t] + sorted[i..];
    forall x | x in sorted ensures x in inserted {
      var j :| 0 <= j < |sorted| && sorted[j] == x;
      assert inserted[if j < i then j else j + 1] == x;
    }
    assert inserted[i] == t;
  }

  /** Sorting and removing duplicates leaves the increasing listing of the times. */
  method SortAndDedup(times: seq<U64>) returns (sorted: seq<U64>)
    ensures StrictlyIncreasing(sorted) && Elements(sorted) == Elements(times)
    ensures sorted == Ascending(Elements(times))
  {
    sorted := [];
    for n := 0 to |times|
      invariant StrictlyIncreasing(sorted) && Elements(sorted) == Elements(times[..n])
    {
      var i := 0;
      while i < |sorted| && sorted[i] < times[n]
        invariant i <= |sorted| && forall j :: 0 <= j < i ==> sorted[j] < times[n]
      {
        i := i + 1;
      }
      assert times[..n + 1] == times[..n] + [times[n]];
      assert Elements(times[..n + 1]) == Elements(times[..n]) + {times[n]};
      if i == |sorted| || sorted[i] != times[n] {
        InsertKeepsIncreasing(sorted, i, times[n]);
        sorted := sorted[..i] + [times[n]] + sorted[i..];
      } else {
        assert times[n] in Elements(sorted);
      }
    }
    assert times[..|times|] == times;
    AscendingUnique(sorted);
  }

  /** The index of the current fork: one before the first later time, or the last index when there
      is no such time or it is the very first. */
  method CurrentForkIndex(times: seq<U64>, latest: U64) returns (current: nat)
    requires times != [] && StrictlyIncreasing(times)
    ensures current < |times|
    ensures times[0] <= latest ==> times[current] <= latest && forall i :: current < i < |times| ==> latest < times[i]
    ensures latest < times[0] ==> current == |times| - 1
  {
    var position := 0;
    while position < |times| && times[position] <= latest
      invariant position <= |times| && forall i :: 0 <= i < position ==> times[i] <= latest
    {
      position := position + 1;
    }
    if position == |times| || position == 0 {
      current := |times| - 1;
    } else {
      current := position - 1;
    }
  }

  ghost predicate IsGreatest(m: U64, times: set<U64>) {
    m in times && forall t :: t in times ==> t <= m
  }

  /** `config`: `next` and `last` are assigned together, or not at all. */
  method EthConfig(cs: Checksum, spec: ChainSpec, latest: U64) returns (r: Result<Config, ()>)
    ensures r.Err? <==> AllTimes(spec.hardforks) == {}
    ensures r.Ok? && Upto(AllTimes(spec.hardforks), latest) != {} ==> PicksForks(cs, spec, latest, r.value)
    ensures r.Ok? && Upto(AllTimes(spec.hardforks), latest) == {} ==>
              r.value.next == r.value.last == None && IsGreatest(r.value.current.activationTime, AllTimes(spec.hardforks))
  {
    var collected := FilterTimes(spec.hardforks, -1);
    var times := SortAndDedup(collected);
    assert Elements(times) == AllTimes(spec.hardforks);
    assert forall i :: 0 <= i < |times| ==> times[i] in Elements(times);
    if times == [] {
      assert Elements(times) == {};
      return Err(());
    }
    var index := CurrentForkIndex(times, latest);
    IndexPicksForks(times, index, latest);
    var config := Config(ForkConfigAt(cs, spec, times[index]), None, None);
    if index + 1 >= |times| {
      return Ok(config);
    }
    config := config.(next := Some(ForkConfigAt(cs, spec, times[index + 1])));
    config := config.(last := Some(ForkConfigAt(cs, spec, times[|times| - 1])));
    return Ok(config);
  }

  /** Current is the greatest time up to the latest block, next the least later one, and last the
      greatest of all exactly when there is a next one; each carries the hash of its own time. */
  ghost predicate PicksForks(cs: Checksum, spec: ChainSpec, latest: U64, config: Config) {
    var times := AllTimes(spec.hardforks);
    && config.current == ForkConfigAt(cs, spec, config.current.activationTime)
    && IsGreatest(config.current.activationTime, Upto(times, latest))
    && (config.next.None? <==> Later(times, latest) == {})
    && (config.last.None? <==> config.next.None?)
    && (config.next.Some? ==>
          && config.next.value == ForkConfigAt(cs, spec, config.next.value.activationTime)
          && IsLeast(config.next.value.activationTime, Later(times, latest))
          && config.last.value == ForkConfigAt(cs, spec, config.last.value.activationTime)
          && IsGreatest(config.last.value.activationTime, times))
  }

  lemma IndexPicksForks(times: seq<U64>, index: nat, latest: U64)
    requires times != [] && StrictlyIncreasing(times) && index < |times|
    requires times[0] <= latest ==> times[index] <= latest && forall i :: index < i < |times| ==> latest < times[i]
    requires latest < times[0] ==> index == |times| - 1
    ensures Upto(Elements(times), latest) != {} <==> times[0] <= latest
    ensures IsGreatest(times[|times| - 1], Elements(times))
    ensures times[0] <= latest ==> IsGreatest(times[index], Upto(Elements(times), latest))
    ensures times[0] <= latest ==> (index + 1 == |times| <==> Later(Elements(times), latest) == {})
    ensures times[0] <= latest && index + 1 < |times| ==> IsLeast(times[index + 1], Later(Elements(times), latest))
  {
    assert times[0] in Elements(times) && times[index] in Elements(times) && times[|times| - 1] in Elements(times);
    if times[0] <= latest {
      assert times[0] in Upto(Elements(times), latest);
      if index + 1 < |times| {
        assert times[index + 1] in Later(Elements(times), latest);
      }
    }
  }

  lemma AcceptedTimes(spec: ChainSpec)
    requires Accepted(spec)
    ensures 0 in AllTimes(spec.hardforks)
    ensures forall t :: t in Schedule(spec) <==> t in AllTimes(spec.hardforks) && t > spec.genesisTime
  {
    hide HardforkList, Check;
    var g :| FromGenesis(g) == Ok(spec);
    ShanghaiIsListed(g);
    var forks := spec.hardforks;
    TimesAfterExact(forks, -1, 0);
    forall t: U64 ensures t in Schedule(spec) <==> t in AllTimes(forks) && t > spec.genesisTime {
      TimesAfterExact(forks, -1, t);
      TimesAfterExact(forks, spec.genesisTime, t);
    }
  }

  lemma ShanghaiIsListed(g: Genesis)
    requires Check(g).Ok?
    ensures exists i :: 0 <= i < |HardforkList(g)| && HardforkList(g)[i].1 == Timestamp(0)
  {
    assert HardforkList(g)[|BLOCK_FORKS|] == (Shanghai, Timestamp(0));
  }

  /** On an accepted specification the choice is always the intended one, and the hash reported for
      the current fork, although computed at its activation time and at another block number, is
      the hash of the latest head itself. */
  lemma CurrentHashIsLatestHash(cs: Checksum, spec: ChainSpec, latest: Head, config: Config)
    requires Accepted(spec) && PicksForks(cs, spec, latest.timestamp, config)
    ensures config.current.forkHash == LoopForkId(cs, spec.hardforks, spec.genesisTime, latest).hash
    ensures config.next.Some? && config.next.value.activationTime > spec.genesisTime ==>
              LoopForkId(cs, spec.hardforks, spec.genesisTime, latest).next == config.next.value.activationTime
  {
    AcceptedTimes(spec);
    var t := config.current.activationTime;
    ForkIdRefinesEip(cs, spec, latest);
    ForkIdRefinesEip(cs, spec, Head(TWO_64 - 1, t));
    hide TimesAfter, LoopForkId;
    assert Upto(Schedule(spec), t) == Upto(Schedule(spec), latest.timestamp) by {
      forall x | x in Upto(Schedule(spec), latest.timestamp) ensures x <= t {
        assert x in Upto(AllTimes(spec.hardforks), latest.timestamp);
      }
    }
    if config.next.Some? && config.next.value.activationTime > spec.genesisTime {
      var n := config.next.value.activationTime;
      assert IsLeast(n, Later(Schedule(spec), latest.timestamp)) by {
        forall x | x in Later(Schedule(spec), latest.timestamp) ensures n <= x {
          assert x in Later(AllTimes(spec.hardforks), latest.timestamp);
        }
      }
    }
  }

  /** An accepted specification always has a time at or before any block. */
  lemma AcceptedAlwaysHasCurrent(spec: ChainSpec, latest: U64)
    requires Accepted(spec)
    ensures Upto(AllTimes(spec.hardforks), latest) != {}
  {
    AcceptedTimes(spec);
    assert 0 in Upto(AllTimes(spec.hardforks), latest);
  }
}
