/** When a split plan has an empty shard, told from its inputs. */
module SplitEmpty {
  import opened Collections
  import opened Ordering
  import opened ShardPlan
  import opened SplitPlan

  ghost predicate AllNamed(shards: seq<Shard>) {
    forall i :: 0 <= i < |shards| ==> shards[i].specs != []
  }

  lemma SplitHalfAllNamed(durations: map<string, nat>, parts: map<string, nat>)
    requires PartsOf(durations, parts)
    ensures AllNamed(SplitHalf(durations, parts))
  {
    hide SplitHalf, PartsOf;
    forall i | 0 <= i < |SplitHalf(durations, parts)| ensures SplitHalf(durations, parts)[i].specs != [] {
      SplitHalfParts(durations, parts, i);
    }
  }

  lemma EmptyInSum(split: seq<Shard>, packed: seq<Shard>)
    requires AllNamed(split)
    ensures HasEmptyShard(split + packed) <==> HasEmptyShard(packed)
  {
    if i :| 0 <= i < |packed| && packed[i].specs == [] {
      assert (split + packed)[|split| + i].specs == [];
    }
  }

  /** The specs that are not split leave a shard empty. */
  ghost predicate RestLeavesEmpty(durations: map<string, nat>, parts: map<string, nat>, usable: int) {
    var rest := Rest(durations, parts);
    var busy := |PositiveSpecs(rest)|;
    busy + 1 < |rest| && busy + 1 < usable - SetSum(parts.Keys, parts)
  }

  lemma PartsLeaveEmpty(durations: map<string, nat>, parts: map<string, nat>, usable: nat)
    requires PartsOf(durations, parts)
    ensures HasEmptyShard(SplitHalf(durations, parts) + PackedHalf(durations, parts, usable)) <==>
      RestLeavesEmpty(durations, parts, usable)
  {
    SplitLength(durations, parts);
    SplitHalfAllNamed(durations, parts);
    EmptyInSum(SplitHalf(durations, parts), PackedHalf(durations, parts, usable));
    hide SplitHalf, HasEmptyShard, SetSum, PositiveSpecs, Rest, Plan, AllNamed;
    PlanHasEmptyShard(Rest(durations, parts), usable - |SplitHalf(durations, parts)|);
  }

  // ----- before and after the repair

  /** The shards that the parts and the other specs of positive duration keep busy. */
  ghost function Load(durations: map<string, nat>, parts: map<string, nat>): nat {
    SetSum(parts.Keys, parts) + |PositiveSpecs(durations) - parts.Keys|
  }

  lemma RestCounts(durations: map<string, nat>, parts: map<string, nat>)
    requires parts.Keys <= PositiveSpecs(durations)
    ensures |Rest(durations, parts)| == |durations| - |parts.Keys|
    ensures |PositiveSpecs(Rest(durations, parts))| == |PositiveSpecs(durations)| - |parts.Keys|
    ensures |PositiveSpecs(durations) - parts.Keys| == |PositiveSpecs(durations)| - |parts.Keys|
  {
    RestKeys(durations, parts);
    assert parts.Keys <= durations.Keys;
    var rest := Rest(durations, parts);
    hide PositiveSpecs, Rest;
    assert |rest| == |rest.Keys| && |durations| == |durations.Keys|;
    SizeWithout(durations.Keys, parts.Keys);
    SizeWithout(PositiveSpecs(durations), parts.Keys);
  }

  lemma RestKeys(durations: map<string, nat>, parts: map<string, nat>)
    ensures Rest(durations, parts).Keys == durations.Keys - parts.Keys
    ensures PositiveSpecs(Rest(durations, parts)) == PositiveSpecs(durations) - parts.Keys
  {
  }

  lemma SizeWithout<T>(s: set<T>, t: set<T>)
    requires t <= s
    ensures |s - t| == |s| - |t|
  {
  }

  lemma RestLeavesEmptyIff(durations: map<string, nat>, parts: map<string, nat>, usable: int)
    requires parts.Keys <= PositiveSpecs(durations)
    ensures RestLeavesEmpty(durations, parts, usable) <==>
      |PositiveSpecs(durations)| + 1 < |durations| && Load(durations, parts) + 1 < usable
  {
    RestCounts(durations, parts);
    hide PositiveSpecs, Rest, SetSum;
  }

  /** Each turn of the repair frees one shard. */
  lemma OneLessLoad(durations: map<string, nat>, parts: map<string, nat>, x: string)
    requires parts.Keys <= PositiveSpecs(durations) && AllSplit(parts) && x in parts
    ensures Load(durations, OneLess(parts, x)) == Load(durations, parts) - 1
  {
    OneLessSum(parts, x);
    var others := PositiveSpecs(durations) - parts.Keys;
    hide PositiveSpecs, SetSum;
    if parts[x] == 2 {
      assert PositiveSpecs(durations) - (parts.Keys - {x}) == others + {x};
      assert (parts - {x}).Keys == parts.Keys - {x};
    } else {
      assert OneLess(parts, x).Keys == parts.Keys;
    }
  }

  /** The repair starts with every shard busy and leaves at most one that is not, so it never
      decides whether a shard is empty. */
  lemma {:induction false} RepairLoad(durations: map<string, nat>, parts: map<string, nat>, count: nat)
    requires parts.Keys <= PositiveSpecs(durations) && AllSplit(parts)
    ensures Load(durations, Repair(durations, parts, count)) + 1 < count <==> Load(durations, parts) + 1 < count
    decreases SetSum(parts.Keys, parts)
  {
    if !Settled(durations, parts, count) {
      var x := Largest(parts, durations);
      OneLessSum(parts, x);
      OneLessLoad(durations, parts, x);
      hide PositiveSpecs, SetSum, OneLess;
      RepairLoad(durations, OneLess(parts, x), count);
    }
  }

  lemma AskedPositive(durations: map<string, nat>, count: int, tests: map<string, nat>)
    requires Usable(durations, count, tests) > 1 && SetSum(durations.Keys, durations) > 0
    ensures AskedParts(durations, count, tests).Keys <= PositiveSpecs(durations)
    ensures AllSplit(AskedParts(durations, count, tests))
  {
    var caps := Capacities(durations, count, tests);
    assert caps.Keys == durations.Keys;
    hide Usable, SetSum, Capacities, Wanted, FirstParts, PositiveSpecs, AllSplit;
    FirstPositive(durations, caps, SetSum(durations.Keys, durations), Usable(durations, count, tests));
  }

  lemma FirstPositive(durations: map<string, nat>, caps: map<string, nat>, total: nat, count: nat)
    requires total > 0 && caps.Keys == durations.Keys
    ensures FirstParts(durations, caps, total, count).Keys <= PositiveSpecs(durations)
    ensures AllSplit(FirstParts(durations, caps, total, count))
  {
    hide Wanted;
    forall s | s in FirstParts(durations, caps, total, count) ensures durations[s] > 0 {
      NothingAsked(total, caps[s], count);
    }
  }

  /** A spec that takes no time is not split. */
  lemma NothingAsked(total: nat, capacity: nat, count: nat)
    requires total > 0
    ensures Share(0, total, count) == Wanted(0, total, capacity, count) == 0
  {
    assert 0 * count == 0;
  }

  /** At least two specs take no time, and the parts first asked for and the other specs that take
      time are at least two fewer than the usable shards. */
  ghost predicate LeavesEmpty(durations: map<string, nat>, count: int, tests: map<string, nat>) {
    && Usable(durations, count, tests) > 1 && SetSum(durations.Keys, durations) > 0
    && |PositiveSpecs(durations)| + 1 < |durations|
    && Load(durations, AskedParts(durations, count, tests)) + 1 < Usable(durations, count, tests)
  }

  lemma FinalLeavesEmpty(durations: map<string, nat>, count: int, tests: map<string, nat>)
    requires Usable(durations, count, tests) > 1 && SetSum(durations.Keys, durations) > 0
    ensures RestLeavesEmpty(durations, FinalParts(durations, count, tests), Usable(durations, count, tests)) <==>
      LeavesEmpty(durations, count, tests)
  {
    var asked, usable := AskedParts(durations, count, tests), Usable(durations, count, tests);
    AskedPositive(durations, count, tests);
    hide Usable, SetSum, AskedParts, PositiveSpecs, Load, RestLeavesEmpty;
    RepairLoad(durations, asked, usable);
    RestLeavesEmptyIff(durations, FinalParts(durations, count, tests), usable);
  }

  /** A split plan has an empty shard exactly when two or more specs take no time, and two or more
      usable shards are left by the parts first asked for and the other specs that take time. */
  lemma SplitPlanHasEmptyShard(durations: map<string, nat>, count: int, tests: map<string, nat>)
    requires SplitPlan.SplitPlan(durations, count, tests).Planned?
    ensures HasEmptyShard(SplitPlan.SplitPlan(durations, count, tests).shards) <==> LeavesEmpty(durations, count, tests)
  {
    var usable := Usable(durations, count, tests);
    if usable <= 1 || durations.Keys == {} {
      assert |durations| == 0 || usable <= 1;
      PlanHasEmptyShard(durations, usable);
    } else {
      FinalPartsBound(durations, count, tests);
      FinalLeavesEmpty(durations, count, tests);
      hide FinalParts, SplitHalf, PackedHalf, Usable, HasEmptyShard, RestLeavesEmpty, LeavesEmpty, SetSum, PartsOf;
      PartsLeaveEmpty(durations, FinalParts(durations, count, tests), usable);
    }
  }

  lemma NothingSplit(durations: map<string, nat>, tests: map<string, nat>, a: string, b: string, c: string)
    requires durations.Keys == {a, b, c} && a != b && b != c && a != c
    requires durations[a] == 10 && durations[b] == durations[c] == 0 && tests == map[a := 1]
    ensures Usable(durations, 3, tests) == 3 && SetSum(durations.Keys, durations) == 10
    ensures AskedParts(durations, 3, tests) == map[]
  {
    var caps := Capacities(durations, 3, tests);
    SetSumOf3(durations, a, b, c);
    SetSumOf3(caps, a, b, c);
    hide SetSum, Share;
    NothingAsked(10, 3, 3);
    assert FirstParts(durations, caps, 10, 3) == map[];
  }

  lemma BusyOne(durations: map<string, nat>, a: string, b: string, c: string)
    requires durations.Keys == {a, b, c} && a != b && b != c && a != c
    requires durations[a] == 10 && durations[b] == durations[c] == 0
    ensures |PositiveSpecs(durations)| == Load(durations, map[]) == 1 && |durations| == 3
  {
    var parts: map<string, nat> := map[];
    assert PositiveSpecs(durations) == {a} && {a} - parts.Keys == {a};
    assert |durations.Keys| == 3;
  }

  /** One spec of a single test and two of no duration on three shards: nothing is split, and a
      shard stays empty. */
  lemma SplitPlanEmptyExample(durations: map<string, nat>, tests: map<string, nat>, a: string, b: string, c: string)
    requires durations.Keys == {a, b, c} && a != b && b != c && a != c
    requires durations[a] == 10 && durations[b] == durations[c] == 0 && tests == map[a := 1]
    ensures SplitPlan.SplitPlan(durations, 3, tests).Planned?
    ensures HasEmptyShard(SplitPlan.SplitPlan(durations, 3, tests).shards)
  {
    NothingSplit(durations, tests, a, b, c);
    BusyOne(durations, a, b, c);
    hide SetSum, Usable, AskedParts, FinalParts, PositiveSpecs, Load, HasEmptyShard, SplitHalf, PackedHalf;
    SplitPlanHasEmptyShard(durations, 3, tests);
  }
}
