/** `plan_split_shards`: specs longer than a shard's share are split over several shards
    by test, the others are packed by `plan_shards` into the shards that are left. */
module SplitPlan {
  import opened Collections
  import opened Numbers
  import opened Ordering
  import opened ShardPlan
  import G = GreedyLoads

  /** The division by the mean shard length raises when nothing takes any time. */
  datatype PlanResult = Planned(shards: seq<Shard>) | ZeroDivision

  /** Python's `round` of the fraction `num / den`: to the nearest, ties to even. */
  function HalfEven(num: nat, den: nat): (r: nat)
    requires den > 0
    ensures 2 * num <= (2 * r + 1) * den
    ensures 2 * num >= (2 * r - 1) * den
    ensures 2 * num == (2 * r + 1) * den || 2 * num == (2 * r - 1) * den ==> r % 2 == 0
  {
    var q, rest := num / den, num % den;
    HalfEvenArithmetic(num, den, q, rest);
    if 2 * rest < den || (2 * rest == den && q % 2 == 0) then q else q + 1
  }

  lemma HalfEvenArithmetic(num: nat, den: nat, q: nat, rest: nat)
    requires den > 0 && q == num / den && rest == num % den
    ensures (2 * q + 1) * den == 2 * num - 2 * rest + den
    ensures (2 * q - 1) * den == 2 * num - 2 * rest - den
    ensures (2 * (q + 1) + 1) * den == 2 * num - 2 * rest + 3 * den
    ensures (2 * (q + 1) - 1) * den == 2 * num - 2 * rest + den
  {
    assert num == q * den + rest;
    OddTimes(q, den);
    OddTimes(q + 1, den);
    assert (q + 1) * den == q * den + den;
  }

  lemma OddTimes(q: nat, den: nat)
    ensures (2 * q + 1) * den == 2 * (q * den) + den && (2 * q - 1) * den == 2 * (q * den) - den
  {
  }

  /** How often a spec may be split: its number of tests, unbounded when unknown. */
  function Capacity(spec: string, count: int, tests: map<string, nat>): (c: nat)
    ensures c >= 1
  {
    Max(1, if spec in tests then tests[spec] else count)
  }

  function Capacities(durations: map<string, nat>, count: int, tests: map<string, nat>): map<string, nat> {
    map s | s in durations :: Capacity(s, count, tests)
  }

  /** The number of shards that can be used. */
  ghost function Usable(durations: map<string, nat>, count: int, tests: map<string, nat>): int {
    var caps := Capacities(durations, count, tests);
    Min(count, SetSum(caps.Keys, caps))
  }

  /** The mean shards that a spec would fill, rounded. */
  function Share(ms: nat, total: nat, count: nat): (k: nat)
    requires total > 0
  {
    HalfEven(ms * count, total)
  }

  /** The parts a spec asks for, before the repair. */
  function Wanted(ms: nat, total: nat, capacity: nat, count: nat): nat
    requires total > 0
  {
    Min(Min(Share(ms, total, count), capacity), count)
  }

  function FirstParts(durations: map<string, nat>, caps: map<string, nat>, total: nat, count: nat): map<string, nat>
    requires total > 0 && caps.Keys == durations.Keys
  {
    map s | s in durations && Wanted(durations[s], total, caps[s], count) >= 2
      :: Wanted(durations[s], total, caps[s], count)
  }

  // ----- the repair

  /** The order of `max` by (parts, duration, name). */
  predicate Before(a: string, b: string, parts: map<string, nat>, durations: map<string, nat>)
    requires parts.Keys <= durations.Keys && a in parts && b in parts
  {
    parts[a] < parts[b] ||
    (parts[a] == parts[b] && (durations[a] < durations[b] || (durations[a] == durations[b] && NameLess(a, b))))
  }

  ghost predicate IsLargest(x: string, parts: map<string, nat>, durations: map<string, nat>)
    requires parts.Keys <= durations.Keys
  {
    x in parts && forall y :: y in parts && y != x ==> Before(y, x, parts, durations)
  }

  lemma LargestUnique(x: string, y: string, parts: map<string, nat>, durations: map<string, nat>)
    requires parts.Keys <= durations.Keys
    requires IsLargest(x, parts, durations) && IsLargest(y, parts, durations)
    ensures x == y
  {
    NameTotal(x, y);
  }

  method FindLargest(parts: map<string, nat>, durations: map<string, nat>) returns (x: string)
    requires parts.Keys <= durations.Keys && parts.Keys != {}
    ensures IsLargest(x, parts, durations)
  {
    x :| x in parts;
    var left := parts.Keys - {x};
    while left != {}
      invariant left <= parts.Keys && x in parts && x !in left
      invariant forall y :: y in parts && y !in left && y != x ==> Before(y, x, parts, durations)
    {
      var y :| y in left;
      left := left - {y};
      NameTotal(x, y);
      if Before(x, y, parts, durations) {
        forall z | z in parts && z !in left && z != y ensures Before(z, y, parts, durations) {
          if z != x && NameLess(z, x) && NameLess(x, y) { NameTransitive(z, x, y); }
        }
        x := y;
      }
    }
  }

  /** One part less for `x`; a spec left with one part is not split at all. */
  function OneLess(parts: map<string, nat>, x: string): map<string, nat>
    requires x in parts && parts[x] >= 1
  {
    if parts[x] - 1 < 2 then parts - {x} else parts[x := parts[x] - 1]
  }

  /** The shards that the parts may use: all, or one less when other specs remain. */
  ghost function Room(durations: map<string, nat>, parts: map<string, nat>, count: nat): int {
    if durations.Keys <= parts.Keys then count else count - 1
  }

  ghost predicate AllSplit(parts: map<string, nat>) {
    forall s :: s in parts ==> parts[s] >= 2
  }

  /** Parts never grow. */
  ghost predicate Within(parts: map<string, nat>, bound: map<string, nat>) {
    parts.Keys <= bound.Keys && forall s :: s in parts ==> parts[s] <= bound[s]
  }

  lemma OneLessSum(parts: map<string, nat>, x: string)
    requires x in parts && AllSplit(parts)
    ensures SetSum(OneLess(parts, x).Keys, OneLess(parts, x)) + (if parts[x] == 2 then 2 else 1) == SetSum(parts.Keys, parts)
    ensures AllSplit(OneLess(parts, x))
    ensures Within(OneLess(parts, x), parts)
  {
    var less := OneLess(parts, x);
    SetSumRemove(parts.Keys, parts, x);
    if parts[x] - 1 < 2 {
      assert less.Keys == parts.Keys - {x};
    } else {
      assert less.Keys == parts.Keys;
      SetSumRemove(less.Keys, less, x);
    }
    SetSumFrame(parts.Keys - {x}, parts, less);
  }

  /** The state in which the repair loop stops. */
  ghost predicate Settled(durations: map<string, nat>, parts: map<string, nat>, count: nat) {
    parts.Keys == {} || SetSum(parts.Keys, parts) <= Room(durations, parts, count)
  }

  lemma LargestExists(parts: map<string, nat>, durations: map<string, nat>)
    requires parts.Keys <= durations.Keys && parts.Keys != {}
    ensures exists x :: IsLargest(x, parts, durations)
    decreases |parts|
  {
    var x :| x in parts;
    var rest := parts - {x};
    if rest.Keys == {} {
      assert parts.Keys == {x};
      assert IsLargest(x, parts, durations);
    } else {
      LargestExists(rest, durations);
      var y :| IsLargest(y, rest, durations);
      NameTotal(x, y);
      if Before(x, y, parts, durations) {
        forall z | z in parts && z != y ensures Before(z, y, parts, durations) {
          assert z != x ==> Before(z, y, rest, durations);
        }
        assert IsLargest(y, parts, durations);
      } else {
        forall z | z in parts && z != x ensures Before(z, x, parts, durations) {
          if z != y && NameLess(z, y) && NameLess(y, x) { NameTransitive(z, y, x); }
          assert z != y ==> Before(z, y, rest, durations);
        }
        assert IsLargest(x, parts, durations);
      }
    }
  }

  ghost function Largest(parts: map<string, nat>, durations: map<string, nat>): (x: string)
    requires parts.Keys <= durations.Keys && parts.Keys != {}
    ensures IsLargest(x, parts, durations)
  {
    LargestExists(parts, durations);
    var x :| IsLargest(x, parts, durations);
    x
  }

  /** The repair loop: shrink the largest until the parts leave room for the rest. */
  ghost function Repair(durations: map<string, nat>, parts: map<string, nat>, count: nat): (r: map<string, nat>)
    requires parts.Keys <= durations.Keys && AllSplit(parts)
    ensures Settled(durations, r, count) && AllSplit(r) && Within(r, parts)
    decreases SetSum(parts.Keys, parts)
  {
    if Settled(durations, parts, count) then parts
    else
      var x := Largest(parts, durations);
      OneLessSum(parts, x);
      Repair(durations, OneLess(parts, x), count)
  }

  // ----- the plan

  /** The shards of one split spec. */
  function Block(spec: string, ms: nat, k: nat): seq<Shard>
    requires k > 0
  {
    seq(k, i requires 0 <= i < k => Shard([spec], ms / k, Some((i + 1, k))))
  }

  ghost function PartShards(names: seq<string>, parts: map<string, nat>, durations: map<string, nat>): seq<Shard>
    requires AllSplit(parts)
    requires forall s :: s in names ==> s in parts && s in durations
  {
    if names == [] then []
    else
      var last := names[|names| - 1];
      PartShards(names[..|names| - 1], parts, durations) + Block(last, durations[last], parts[last])
  }

  function Rest(durations: map<string, nat>, parts: map<string, nat>): map<string, nat> {
    map s | s in durations && s !in parts :: durations[s]
  }

  /** The parts asked for, before the repair. */
  ghost function AskedParts(durations: map<string, nat>, count: int, tests: map<string, nat>): map<string, nat>
    requires Usable(durations, count, tests) > 1 && SetSum(durations.Keys, durations) > 0
  {
    FirstParts(durations, Capacities(durations, count, tests), SetSum(durations.Keys, durations), Usable(durations, count, tests))
  }

  /** The parts after the repair. */
  ghost function FinalParts(durations: map<string, nat>, count: int, tests: map<string, nat>): map<string, nat>
    requires Usable(durations, count, tests) > 1 && SetSum(durations.Keys, durations) > 0
  {
    Repair(durations, AskedParts(durations, count, tests), Usable(durations, count, tests))
  }

  ghost predicate PartsOf(durations: map<string, nat>, parts: map<string, nat>) {
    parts.Keys <= durations.Keys && AllSplit(parts)
  }

  ghost function SplitHalf(durations: map<string, nat>, parts: map<string, nat>): seq<Shard>
    requires PartsOf(durations, parts)
  {
    ByName.SortLists(parts.Keys);
    PartShards(ByName.Sort(parts.Keys), parts, durations)
  }

  ghost function PackedHalf(durations: map<string, nat>, parts: map<string, nat>, count: nat): seq<Shard>
    requires PartsOf(durations, parts)
  {
    Plan(Rest(durations, parts), count - |SplitHalf(durations, parts)|)
  }

  ghost function SplitPlan(durations: map<string, nat>, count: int, tests: map<string, nat>): PlanResult {
    var usable := Usable(durations, count, tests);
    if usable <= 1 || durations.Keys == {} then Planned(Plan(durations, usable))
    else if SetSum(durations.Keys, durations) == 0 then ZeroDivision
    else 
      var parts := FinalParts(durations, count, tests);
      Planned(SplitHalf(durations, parts) + PackedHalf(durations, parts, usable))
  }

  // ----- every test runs exactly once

  ghost predicate Absent(shards: seq<Shard>, spec: string) {
    forall j :: 0 <= j < |shards| ==> spec !in shards[j].specs
  }

  /** Part i/k of `spec` alone, with its share of the duration rounded down. */
  predicate IsPart(shard: Shard, spec: string, ms: nat, i: nat, k: nat) {
    && shard.specs == [spec] && shard.part == Some((i, k))
    && shard.estimatedMs * k <= ms < (shard.estimatedMs + 1) * k
  }

  /** The shards that name `spec` are the `k` from `from` on: parts 1/k to k/k of that
      spec alone. */
  ghost predicate SplitFrom(shards: seq<Shard>, spec: string, ms: nat, k: nat, from: nat) {
    && k >= 2 && from + k <= |shards|
    && (forall j :: from <= j < from + k ==> IsPart(shards[j], spec, ms, j - from + 1, k))
    && Absent(shards[..from], spec) && Absent(shards[from + k..], spec)
  }

  /** One shard runs all tests of `spec`, and no other shard names it. */
  ghost predicate WholeAt(shards: seq<Shard>, spec: string, at: nat) {
    && at < |shards| && spec in shards[at].specs && shards[at].part == None
    && Absent(shards[..at], spec) && Absent(shards[at + 1..], spec)
  }

  lemma SplitFromAppend(shards: seq<Shard>, more: seq<Shard>, spec: string, ms: nat, k: nat, from: nat)
    requires SplitFrom(shards, spec, ms, k, from) && Absent(more, spec)
    ensures SplitFrom(shards + more, spec, ms, k, from)
  {
    hide IsPart;
    assert (shards + more)[..from] == shards[..from];
    assert (shards + more)[from + k..] == shards[from + k..] + more;
  }

  lemma BlockParts(spec: string, ms: nat, k: nat)
    requires k > 0
    ensures |Block(spec, ms, k)| == k
    ensures forall i :: 0 <= i < k ==> IsPart(Block(spec, ms, k)[i], spec, ms, i + 1, k)
  {
    assert ms == ms / k * k + ms % k;
    assert (ms / k + 1) * k == ms / k * k + k;
  }

  lemma SplitFromEnd(shards: seq<Shard>, spec: string, ms: nat, k: nat)
    requires k >= 2 && Absent(shards, spec)
    ensures SplitFrom(shards + Block(spec, ms, k), spec, ms, k, |shards|)
  {
    var all := shards + Block(spec, ms, k);
    BlockParts(spec, ms, k);
    hide IsPart, Block;
    assert all[..|shards|] == shards;
  }

  lemma {:induction false} PartShardsBlock(names: seq<string>, parts: map<string, nat>, durations: map<string, nat>, spec: string)
    returns (from: nat)
    requires AllSplit(parts)
    requires forall s :: s in names ==> s in parts && s in durations
    requires forall i, j :: 0 <= i < j < |names| ==> names[i] != names[j]
    requires spec in names
    ensures SplitFrom(PartShards(names, parts, durations), spec, durations[spec], parts[spec], from)
  {
    var rest, last := names[..|names| - 1], names[|names| - 1];
    var before := PartShards(rest, parts, durations);
    assert names == rest + [last];
    if spec == last {
      from := |before|;
      PartShardsOnly(rest, parts, durations, spec);
      SplitFromEnd(before, spec, durations[spec], parts[spec]);
    } else {
      from := PartShardsBlock(rest, parts, durations, spec);
      SplitFromAppend(before, Block(last, durations[last], parts[last]), spec, durations[spec], parts[spec], from);
    }
  }

  lemma {:induction false} PartShardsOnly(names: seq<string>, parts: map<string, nat>, durations: map<string, nat>, spec: string)
    requires AllSplit(parts)
    requires forall s :: s in names ==> s in parts && s in durations
    requires spec !in names
    ensures Absent(PartShards(names, parts, durations), spec)
  {
    if names != [] {
      PartShardsOnly(names[..|names| - 1], parts, durations, spec);
    }
  }

  lemma {:induction false} PartShardsLength(names: seq<string>, parts: map<string, nat>, durations: map<string, nat>, listed: set<string>)
    requires AllSplit(parts)
    requires forall s :: s in names ==> s in parts && s in durations
    requires forall i, j :: 0 <= i < j < |names| ==> names[i] != names[j]
    requires listed == set s | s in names
    ensures listed <= parts.Keys
    ensures |PartShards(names, parts, durations)| == SetSum(listed, parts)
  {
    if names == [] {
      assert listed == {};
    } else {
      var rest, last := names[..|names| - 1], names[|names| - 1];
      assert names == rest + [last];
      var before := set s | s in rest;
      assert listed == before + {last} && last !in before;
      assert |PartShards(names, parts, durations)| == |PartShards(rest, parts, durations)| + parts[last];
      hide SetSum, PartShards;
      PartShardsLength(rest, parts, durations, before);
      SetSumAdd(before, parts, last);
    }
  }

  lemma SplitLength(durations: map<string, nat>, parts: map<string, nat>)
    requires PartsOf(durations, parts)
    ensures |SplitHalf(durations, parts)| == SetSum(parts.Keys, parts)
  {
    var names := ByName.Sort(parts.Keys);
    ByName.SortLists(parts.Keys);
    ByName.ListingDistinct(names);
    assert parts.Keys == set s | s in names;
    PartShardsLength(names, parts, durations, parts.Keys);
  }

  /** The repair leaves a shard for the specs that are not split, so packing them loses
      none, and all shards together fit. */
  lemma SplitFits(durations: map<string, nat>, parts: map<string, nat>, count: nat)
    requires PartsOf(durations, parts) && count > 1 && Settled(durations, parts, count)
    ensures |SplitHalf(durations, parts)| + |PackedHalf(durations, parts, count)| <= count
    ensures RunsEachOnce(PackedHalf(durations, parts, count), Rest(durations, parts))
  {
    var left, used := Rest(durations, parts), |SplitHalf(durations, parts)|;
    SplitLength(durations, parts);
    RoomLeft(durations, parts, count);
    hide Settled, RunsEachOnce, SplitHalf, SetSum, Plan;
    PlanLength(left, count - used);
    if durations.Keys <= parts.Keys {
      assert left.Keys == {} && |left| == 0;
      NothingToRun(left);
    } else {
      PlanRunsEachOnce(left, count - used);
    }
  }

  lemma RoomLeft(durations: map<string, nat>, parts: map<string, nat>, count: nat)
    requires PartsOf(durations, parts) && count > 1 && Settled(durations, parts, count)
    ensures SetSum(parts.Keys, parts) <= count
    ensures durations.Keys <= parts.Keys || SetSum(parts.Keys, parts) < count
  {
  }

  lemma NothingToRun(durations: map<string, nat>)
    requires durations.Keys == {}
    ensures RunsEachOnce([], durations)
  {
  }

  lemma PackedOnce(packed: seq<Shard>, durations: map<string, nat>, spec: string) returns (at: nat)
    requires RunsEachOnce(packed, durations) && spec in durations
    ensures WholeAt(packed, spec, at)
  {
    at :| 0 <= at < |packed| && spec in SpecSet(packed[at]);
    assert Exact(packed[at], durations);
    forall j | 0 <= j < |packed| && j != at ensures spec !in packed[j].specs {
      assert SpecSet(packed[j]) !! SpecSet(packed[at]);
    }
    assert packed[at].part == None && spec in packed[at].specs;
    hide *;
    OnlyThere(packed, spec, at);
  }

  lemma OnlyThere(shards: seq<Shard>, spec: string, at: nat)
    requires at < |shards| && spec in shards[at].specs && shards[at].part == None
    requires forall j :: 0 <= j < |shards| && j != at ==> spec !in shards[j].specs
    ensures WholeAt(shards, spec, at)
  {
  }

  lemma PackedAbsent(packed: seq<Shard>, durations: map<string, nat>, spec: string)
    requires RunsEachOnce(packed, durations) && spec !in durations
    ensures Absent(packed, spec)
  {
    forall j | 0 <= j < |packed| ensures spec !in packed[j].specs {
      assert Exact(packed[j], durations) && SpecSet(packed[j]) <= durations.Keys;
      assert spec !in SpecSet(packed[j]);
    }
  }

  lemma WholeAfter(split: seq<Shard>, packed: seq<Shard>, spec: string, at: nat)
    requires WholeAt(packed, spec, at) && Absent(split, spec)
    ensures WholeAt(split + packed, spec, |split| + at)
  {
    var all := split + packed;
    assert all[..|split| + at] == split + packed[..at];
    assert all[|split| + at + 1..] == packed[at + 1..];
  }

  lemma SplitSpecOnce(durations: map<string, nat>, parts: map<string, nat>, count: nat, spec: string) returns (from: nat)
    requires PartsOf(durations, parts) && count > 1 && Settled(durations, parts, count) && spec in parts
    ensures SplitFrom(SplitHalf(durations, parts) + PackedHalf(durations, parts, count), spec, durations[spec], parts[spec], from)
  {
    from := SplitHalfFrom(durations, parts, spec);
    SplitFits(durations, parts, count);
    hide SplitHalf, PackedHalf, RunsEachOnce, SplitFrom, Absent;
    PackedAbsent(PackedHalf(durations, parts, count), Rest(durations, parts), spec);
    SplitFromAppend(SplitHalf(durations, parts), PackedHalf(durations, parts, count), spec, durations[spec], parts[spec], from);
  }

  lemma SplitHalfFrom(durations: map<string, nat>, parts: map<string, nat>, spec: string) returns (from: nat)
    requires PartsOf(durations, parts) && spec in parts
    ensures SplitFrom(SplitHalf(durations, parts), spec, durations[spec], parts[spec], from)
  {
    ByName.SortLists(parts.Keys);
    ByName.ListingDistinct(ByName.Sort(parts.Keys));
    hide SplitFrom;
    from := PartShardsBlock(ByName.Sort(parts.Keys), parts, durations, spec);
  }

  lemma SplitHalfAbsent(durations: map<string, nat>, parts: map<string, nat>, spec: string)
    requires PartsOf(durations, parts) && spec !in parts
    ensures Absent(SplitHalf(durations, parts), spec)
  {
    ByName.SortLists(parts.Keys);
    hide Absent;
    PartShardsOnly(ByName.Sort(parts.Keys), parts, durations, spec);
  }

  lemma WholeSpecOnce(durations: map<string, nat>, parts: map<string, nat>, count: nat, spec: string) returns (at: nat)
    requires PartsOf(durations, parts) && count > 1 && Settled(durations, parts, count)
    requires spec in durations && spec !in parts
    ensures WholeAt(SplitHalf(durations, parts) + PackedHalf(durations, parts, count), spec, at)
  {
    hide SplitHalf, PackedHalf, RunsEachOnce, WholeAt, Absent, Settled;
    SplitHalfAbsent(durations, parts, spec);
    SplitFits(durations, parts, count);
    at := PackedOnce(PackedHalf(durations, parts, count), Rest(durations, parts), spec);
    WholeAfter(SplitHalf(durations, parts), PackedHalf(durations, parts, count), spec, at);
    at := |SplitHalf(durations, parts)| + at;
  }

  /** The shards, no more than asked for, name every spec exactly once: it is whole in one shard, or
      split into parts 1/k to k/k with k at least 2 and at most its number of tests, if that is known. */
  lemma SplitPlanRunsEachOnce(durations: map<string, nat>, count: int, tests: map<string, nat>, spec: string)
    requires spec in durations && count > 0
    requires SplitPlan(durations, count, tests).Planned?
    ensures
      var shards := SplitPlan(durations, count, tests).shards;
      && |shards| <= count
      && ((exists at: nat :: WholeAt(shards, spec, at)) ||
          exists k: nat, from: nat ::
            k <= (if spec in tests then Max(1, tests[spec]) else count) && SplitFrom(shards, spec, durations[spec], k, from))
  {
    var usable := Usable(durations, count, tests);
    var shards := SplitPlan(durations, count, tests).shards;
    UsablePositive(durations, count, tests, spec);
    if usable <= 1 {
      PlanRunsEachOnce(durations, usable);
      var at := PackedOnce(shards, durations, spec);
    } else {
      var parts := FinalParts(durations, count, tests);
      FinalPartsBound(durations, count, tests);
      assert shards == SplitHalf(durations, parts) + PackedHalf(durations, parts, usable);
      hide SplitPlan, FinalParts, SplitHalf, PackedHalf, Usable, WholeAt, SplitFrom;
      SplitFits(durations, parts, usable);
      if spec in parts {
        var from := SplitSpecOnce(durations, parts, usable, spec);
        assert SplitFrom(shards, spec, durations[spec], parts[spec], from);
      } else {
        var at := WholeSpecOnce(durations, parts, usable, spec);
        assert WholeAt(shards, spec, at);
      }
    }
  }

  /** Every shard that is no part of a spec has its specs in name order and their exact total. */
  lemma WholeShardsExact(durations: map<string, nat>, count: int, tests: map<string, nat>, i: nat)
    requires SplitPlan(durations, count, tests).Planned? && i < |SplitPlan(durations, count, tests).shards|
    requires SplitPlan(durations, count, tests).shards[i].part == None
    ensures Exact(SplitPlan(durations, count, tests).shards[i], durations)
  {
    var usable := Usable(durations, count, tests);
    if usable <= 1 || durations.Keys == {} {
      PlanShardExact(durations, usable, i);
    } else {
      FinalPartsBound(durations, count, tests);
      hide FinalParts, SplitHalf, PackedHalf, Usable, Exact, PartsOf;
      HalvesExact(durations, FinalParts(durations, count, tests), usable, i);
    }
  }

  lemma HalvesExact(durations: map<string, nat>, parts: map<string, nat>, usable: nat, i: nat)
    requires PartsOf(durations, parts) && i < |SplitHalf(durations, parts) + PackedHalf(durations, parts, usable)|
    requires (SplitHalf(durations, parts) + PackedHalf(durations, parts, usable))[i].part == None
    ensures Exact((SplitHalf(durations, parts) + PackedHalf(durations, parts, usable))[i], durations)
  {
    var split, packed := SplitHalf(durations, parts), PackedHalf(durations, parts, usable);
    if i < |split| {
      hide *;
      SplitHalfParts(durations, parts, i);
    } else {
      PlanShardExact(Rest(durations, parts), usable - |split|, i - |split|);
      hide *;
      RestExact(durations, parts, packed[i - |split|]);
    }
  }

  lemma RestExact(durations: map<string, nat>, parts: map<string, nat>, shard: Shard)
    requires Exact(shard, Rest(durations, parts))
    ensures Exact(shard, durations)
  {
    SetSumFrame(SpecSet(shard), durations, Rest(durations, parts));
  }

  lemma SplitHalfParts(durations: map<string, nat>, parts: map<string, nat>, i: nat)
    requires PartsOf(durations, parts) && i < |SplitHalf(durations, parts)|
    ensures SplitHalf(durations, parts)[i].part.Some? && SplitHalf(durations, parts)[i].specs != []
  {
    ByName.SortLists(parts.Keys);
    PartShardsParts(ByName.Sort(parts.Keys), parts, durations, i);
  }

  lemma {:induction false} PartShardsParts(names: seq<string>, parts: map<string, nat>, durations: map<string, nat>, i: nat)
    requires AllSplit(parts) && forall s :: s in names ==> s in parts && s in durations
    requires i < |PartShards(names, parts, durations)|
    ensures PartShards(names, parts, durations)[i].part.Some? && PartShards(names, parts, durations)[i].specs != []
  {
    var rest := names[..|names| - 1];
    if i < |PartShards(rest, parts, durations)| {
      PartShardsParts(rest, parts, durations, i);
    }
  }

  lemma UsablePositive(durations: map<string, nat>, count: int, tests: map<string, nat>, spec: string)
    requires spec in durations && count > 0
    ensures 0 < Usable(durations, count, tests) <= count
  {
    var caps := Capacities(durations, count, tests);
    SetSumRemove(caps.Keys, caps, spec);
  }

  lemma FinalPartsBound(durations: map<string, nat>, count: int, tests: map<string, nat>)
    requires Usable(durations, count, tests) > 1 && SetSum(durations.Keys, durations) > 0
    ensures
      var parts := FinalParts(durations, count, tests);
      && PartsOf(durations, parts) && Settled(durations, parts, Usable(durations, count, tests))
      && forall s :: s in parts ==> parts[s] <= Capacity(s, count, tests)
  {
  }

  /** The plan fails exactly when there is a mean of zero to divide by: specs that all
      take no time, and more than one shard to use. */
  lemma SplitPlanFails(durations: map<string, nat>, count: int, tests: map<string, nat>)
    ensures SplitPlan(durations, count, tests).ZeroDivision? <==>
      && count >= 2 && (forall s :: s in durations ==> durations[s] == 0)
      && (|durations| >= 2 || exists s :: s in durations && Capacity(s, count, tests) >= 2)
  {
    SumZero(durations.Keys, durations);
    SeveralShards(durations, count, tests);
  }

  /** Two specs of no duration on two shards. */
  lemma SplitPlanFailsExample(durations: map<string, nat>, tests: map<string, nat>, a: string, b: string)
    requires durations.Keys == {a, b} && a != b && durations[a] == durations[b] == 0
    ensures SplitPlan(durations, 2, tests) == ZeroDivision
  {
    assert |durations.Keys| == 2;
    hide SplitPlan, Capacity;
    SplitPlanFails(durations, 2, tests);
  }

  lemma {:induction false} SumZero(s: set<string>, d: map<string, nat>)
    requires s <= d.Keys
    ensures SetSum(s, d) == 0 <==> forall x :: x in s ==> d[x] == 0
    decreases |s|
  {
    if s != {} {
      var x :| x in s && SetSum(s, d) == d[x] + SetSum(s - {x}, d);
      SumZero(s - {x}, d);
    }
  }

  lemma SeveralShards(durations: map<string, nat>, count: int, tests: map<string, nat>)
    ensures Usable(durations, count, tests) > 1 <==>
      count >= 2 && (|durations| >= 2 || exists s :: s in durations && Capacity(s, count, tests) >= 2)
  {
    var caps := Capacities(durations, count, tests);
    assert caps.Keys == durations.Keys;
    assert forall s :: s in caps ==> caps[s] == Capacity(s, count, tests);
    hide Capacity, Capacities;
    SumAboveOne(caps);
    assert |caps.Keys| == |durations.Keys| == |durations|;
  }

  lemma {:induction false} SumBySize(s: set<string>, caps: map<string, nat>)
    requires s <= caps.Keys && forall x :: x in s ==> caps[x] >= 1
    ensures SetSum(s, caps) >= |s|
    ensures (forall x :: x in s ==> caps[x] == 1) ==> SetSum(s, caps) == |s|
    decreases |s|
  {
    if s != {} {
      var x :| x in s && SetSum(s, caps) == caps[x] + SetSum(s - {x}, caps);
      SumBySize(s - {x}, caps);
    }
  }

  lemma SumAboveOne(caps: map<string, nat>)
    requires forall s :: s in caps ==> caps[s] >= 1
    ensures SetSum(caps.Keys, caps) > 1 <==> |caps.Keys| >= 2 || exists s :: s in caps && caps[s] >= 2
  {
    hide SetSum;
    SumBySize(caps.Keys, caps);
    if s :| s in caps && caps[s] >= 2 {
      SetSumRemove(caps.Keys, caps, s);
    }
  }

  /** When neither its capacity nor the repair holds a split spec back, the estimate of
      each of its parts is at most 5/4 of the mean shard (total / usable shards). */
  lemma SplitPartNearMean(durations: map<string, nat>, count: int, tests: map<string, nat>, spec: string)
    requires Usable(durations, count, tests) > 1 && SetSum(durations.Keys, durations) > 0
    requires spec in FinalParts(durations, count, tests)
    requires Unheld(durations, count, tests, spec)
    ensures 4 * (durations[spec] / FinalParts(durations, count, tests)[spec]) * Usable(durations, count, tests)
      <= 5 * SetSum(durations.Keys, durations)
  {
    var total, usable := SetSum(durations.Keys, durations), Usable(durations, count, tests);
    SetSumRemove(durations.Keys, durations, spec);
    NeverAboveUsable(durations[spec], total, usable);
    PartNearMean(durations[spec], total, usable, FinalParts(durations, count, tests)[spec]);
  }

  /** The parts first asked for fit without repair, and `spec` has the tests for its own. */
  ghost predicate Unheld(durations: map<string, nat>, count: int, tests: map<string, nat>, spec: string)
    requires Usable(durations, count, tests) > 1 && SetSum(durations.Keys, durations) > 0
  {
    && spec in durations
    && Settled(durations, AskedParts(durations, count, tests), Usable(durations, count, tests))
    && Share(durations[spec], SetSum(durations.Keys, durations), Usable(durations, count, tests)) <= Capacity(spec, count, tests)
  }

  lemma NeverAboveUsable(ms: nat, total: nat, usable: nat)
    requires 0 < total && ms <= total
    ensures Share(ms, total, usable) <= usable
  {
    var k := Share(ms, total, usable);
    G.ProductMonotone(ms, total, usable);
    assert (2 * k - 1) * total <= 2 * (ms * usable);
    hide HalfEven, Share;
    if k > usable { AboveTooLong(k, usable, total); }
  }

  lemma AboveTooLong(k: nat, usable: nat, total: nat)
    requires k > usable && total > 0
    ensures (2 * k - 1) * total > 2 * (total * usable)
  {
    G.ProductMonotone(2 * usable + 1, 2 * k - 1, total);
    assert (2 * usable + 1) * total == 2 * (total * usable) + total;
  }

  lemma PartNearMean(ms: nat, total: nat, usable: nat, k: nat)
    requires total > 0 && k >= 2 && k == Share(ms, total, usable)
    ensures 4 * (ms / k) * usable <= 5 * total
  {
    var e := ms / k;
    assert 2 * (ms * usable) <= (2 * k + 1) * total;
    assert e * k <= ms by { assert ms == e * k + ms % k; }
    PartArithmetic(e, k, ms, usable, total);
  }

  lemma PartArithmetic(e: nat, k: nat, ms: nat, usable: nat, total: nat)
    requires k >= 2 && e * k <= ms && 2 * (ms * usable) <= (2 * k + 1) * total
    ensures 4 * e * usable <= 5 * total
  {
    assert (e * k) * usable <= ms * usable;
    assert 2 * ((2 * k + 1) * total) <= (5 * k) * total by {
      assert 2 * ((2 * k + 1) * total) == (2 * (2 * k + 1)) * total;
      G.ProductNonNegative(5 * k - 2 * (2 * k + 1), total);
    }
    assert k * (4 * e * usable) <= k * (5 * total);
  }

  // ----- the source's loops

  method SumValues(d: map<string, nat>) returns (sum: nat)
    ensures sum == SetSum(d.Keys, d)
  {
    sum := 0;
    var left := d.Keys;
    while left != {}
      invariant left <= d.Keys
      invariant sum + SetSum(left, d) == SetSum(d.Keys, d)
    {
      var s :| s in left;
      SetSumRemove(left, d, s);
      sum := sum + d[s];
      left := left - {s};
    }
  }

  method PlanSplitShards(durations: map<string, nat>, count: int, tests: map<string, nat>) returns (r: PlanResult)
    ensures r == SplitPlan(durations, count, tests)
  {
    var shards: seq<Shard>;
    var caps := Capacities(durations, count, tests);
    var capacity := SumValues(caps);
    var usable := Min(count, capacity);
    if usable <= 1 || durations.Keys == {} {
      shards := PlanShards(durations, usable);
      return Planned(shards);
    }
    var total := SumValues(durations);
    if total == 0 {
      return ZeroDivision;
    }
    var parts := FirstParts(durations, caps, total, usable);
    parts := RepairParts(durations, parts, usable);
    shards := SplitAndPack(durations, parts, usable);
    return Planned(shards);
  }

  method SplitAndPack(durations: map<string, nat>, parts: map<string, nat>, usable: nat) returns (shards: seq<Shard>)
    requires PartsOf(durations, parts)
    ensures shards == SplitHalf(durations, parts) + PackedHalf(durations, parts, usable)
  {
    ByName.SortLists(parts.Keys);
    var names := ByName.SortSet(parts.Keys);
    hide Plan, PartShards;
    var split := SplitAll(names, parts, durations);
    var packed := PlanShards(Rest(durations, parts), usable - |split|);
    return split + packed;
  }

  method RepairParts(durations: map<string, nat>, first: map<string, nat>, usable: nat) returns (parts: map<string, nat>)
    requires first.Keys <= durations.Keys && AllSplit(first)
    ensures parts == Repair(durations, first, usable)
  {
    parts := first;
    var used := SumValues(parts);
    while parts.Keys != {} && used > (if durations.Keys <= parts.Keys then usable else usable - 1)
      invariant parts.Keys <= durations.Keys && AllSplit(parts) && used == SetSum(parts.Keys, parts)
      invariant Repair(durations, parts, usable) == Repair(durations, first, usable)
      decreases used
    {
      var largest := FindLargest(parts, durations);
      LargestUnique(largest, Largest(parts, durations), parts, durations);
      OneLessSum(parts, largest);
      parts := OneLess(parts, largest);
      used := SumValues(parts);
    }
  }

  /** The comprehension over the parts and their numbers. */
  method SplitAll(names: seq<string>, parts: map<string, nat>, durations: map<string, nat>) returns (shards: seq<Shard>)
    requires AllSplit(parts)
    requires forall s :: s in names ==> s in parts && s in durations
    ensures shards == PartShards(names, parts, durations)
  {
    shards := [];
    for n := 0 to |names|
      invariant shards == PartShards(names[..n], parts, durations)
    {
      var spec := names[n];
      assert names[..n + 1][..n] == names[..n] && names[..n + 1][n] == spec;
      var k, ms := parts[spec], durations[spec];
      ghost var before := shards;
      for i := 1 to k + 1
        invariant shards == before + Block(spec, ms, k)[..i - 1]
      {
        assert Block(spec, ms, k)[..i] == Block(spec, ms, k)[..i - 1] + [Block(spec, ms, k)[i - 1]];
        shards := shards + [Shard([spec], ms / k, Some((i, k)))];
      }
      assert Block(spec, ms, k)[..k] == Block(spec, ms, k);
    }
    assert names[..|names|] == names;
  }
}
