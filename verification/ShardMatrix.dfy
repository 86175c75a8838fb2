/** How many shards a selection gets, and the matrix entries made of its plan. An entry that
    names no spec runs every spec. */
module ShardMatrix {
  import opened Collections
  import opened Ordering
  import opened ShardPlan
  import opened SinkErrors
  import opened SplitEmpty
  import opened SplitPlan
  import opened Strings

  const TARGET_MS: nat := 6 * 60 * 1000

  function CeilDiv(total: nat, target: nat): nat
    requires target > 0
  {
    (total + target - 1) / target
  }

  /** The fewest shards that hold the total at the target length each, but at least one and no more
      than the maximum. */
  function TargetCount(total: nat, maxShards: int): (count: nat)
    ensures maxShards >= 1 ==> 1 <= count <= maxShards
    ensures count < maxShards ==> total <= count * TARGET_MS
    ensures count > 1 ==> (count - 1) * TARGET_MS < total
  {
    var wanted := CeilDiv(total, TARGET_MS);
    var capped := if maxShards < wanted then maxShards else wanted;
    if capped < 1 then 1 else capped
  }

  /** `shard_count`: the maximum for a full selection, none for an empty one. */
  ghost function ShardCount(full: bool, durations: map<string, nat>, maxShards: int): int {
    if full then maxShards
    else if durations.Keys == {} then 0
    else TargetCount(SetSum(durations.Keys, durations), maxShards)
  }

  // ----- entries

  lemma JoinEmpty(specs: seq<string>)
    requires "" !in specs
    ensures Join(specs, ' ') == "" <==> specs == []
  {
    if specs != [] {
      assert specs[0] != "";
    }
  }

  /** The `specs` of each matrix entry. */
  function Entries(shards: seq<Shard>): seq<string> {
    seq(|shards|, i requires 0 <= i < |shards| => Join(shards[i].specs, ' '))
  }

  /** The names in an entry read back are the shard's specs, if no name holds a space. */
  lemma EntryReadsBack(shards: seq<Shard>, i: nat)
    requires i < |shards| && shards[i].specs != [] && forall s :: s in shards[i].specs ==> ' ' !in s
    ensures Split(Entries(shards)[i], ' ') == shards[i].specs
  {
    SplitJoin(shards[i].specs, ' ');
  }

  ghost predicate SomeRunsAll(entries: seq<string>) {
    exists i :: 0 <= i < |entries| && entries[i] == ""
  }

  ghost predicate NamesSpecs(shards: seq<Shard>) {
    forall i :: 0 <= i < |shards| ==> "" !in shards[i].specs
  }

  lemma RunsAllIffEmpty(shards: seq<Shard>)
    requires NamesSpecs(shards)
    ensures SomeRunsAll(Entries(shards)) <==> HasEmptyShard(shards)
  {
    forall i | 0 <= i < |shards| ensures Entries(shards)[i] == "" <==> shards[i].specs == [] {
      JoinEmpty(shards[i].specs);
    }
  }

  lemma PlanNames(durations: map<string, nat>, count: int)
    requires "" !in durations
    ensures NamesSpecs(Plan(durations, count))
  {
    forall i | 0 <= i < |Plan(durations, count)| ensures "" !in Plan(durations, count)[i].specs {
      PlanShardExact(durations, count, i);
      var shard := Plan(durations, count)[i];
      hide Plan;
      assert "" in shard.specs ==> "" in SpecSet(shard);
    }
  }

  /** An entry made of a plan names no spec, and so runs them all, exactly when both the count and
      the number of specs are at least two more than the specs of positive duration. */
  lemma SomeEntryRunsAll(durations: map<string, nat>, count: int)
    requires "" !in durations
    ensures SomeRunsAll(Entries(Plan(durations, count))) <==>
      |PositiveSpecs(durations)| + 1 < count && |PositiveSpecs(durations)| + 1 < |durations|
  {
    hide Plan, PositiveSpecs, Entries, SomeRunsAll, HasEmptyShard;
    PlanNames(durations, count);
    RunsAllIffEmpty(Plan(durations, count));
    PlanHasEmptyShard(durations, count);
  }

  lemma {:induction false} PartShardsNames(names: seq<string>, parts: map<string, nat>, durations: map<string, nat>)
    requires AllSplit(parts) && forall s :: s in names ==> s in parts && s in durations
    requires "" !in durations
    ensures NamesSpecs(PartShards(names, parts, durations))
  {
    if names != [] {
      PartShardsNames(names[..|names| - 1], parts, durations);
      assert names[|names| - 1] in durations;
    }
  }

  lemma SplitPlanNames(durations: map<string, nat>, parts: map<string, nat>, usable: nat)
    requires PartsOf(durations, parts) && "" !in durations
    ensures NamesSpecs(SplitHalf(durations, parts) + PackedHalf(durations, parts, usable))
  {
    ByName.SortLists(parts.Keys);
    PartShardsNames(ByName.Sort(parts.Keys), parts, durations);
    PlanNames(Rest(durations, parts), usable - |SplitHalf(durations, parts)|);
    hide PartShards, Plan;
  }

  /** An entry made of a split plan runs every spec exactly when two or more specs take no time, and
      two or more usable shards are left by the parts first asked for and the other specs that take
      time. */
  lemma SomeSplitEntryRunsAll(durations: map<string, nat>, count: int, tests: map<string, nat>)
    requires "" !in durations && SplitPlan.SplitPlan(durations, count, tests).Planned?
    ensures SomeRunsAll(Entries(SplitPlan.SplitPlan(durations, count, tests).shards)) <==> LeavesEmpty(durations, count, tests)
  {
    var usable, shards := Usable(durations, count, tests), SplitPlan.SplitPlan(durations, count, tests).shards;
    if usable <= 1 || durations.Keys == {} {
      PlanNames(durations, usable);
    } else {
      FinalPartsBound(durations, count, tests);
      hide FinalParts, SplitHalf, PackedHalf, Usable, NamesSpecs, PartsOf;
      SplitPlanNames(durations, FinalParts(durations, count, tests), usable);
    }
    hide *;
    RunsAllIffEmpty(shards);
    SplitPlanHasEmptyShard(durations, count, tests);
  }

  /** One spec of 18 minutes and two that take no time get three shards, one of which runs every spec. */
  lemma RunsAllExample(durations: map<string, nat>, a: string, b: string, c: string)
    requires durations.Keys == {a, b, c} && a != b && b != c && a != c && "" !in durations
    requires durations[a] == 18 * 60 * 1000 && durations[b] == durations[c] == 0
    ensures ShardCount(false, durations, 4) == 3 && SomeRunsAll(Entries(Plan(durations, 3)))
  {
    SetSumOf3(durations, a, b, c);
    assert ShardCount(false, durations, 4) == 3;
    assert PositiveSpecs(durations) == {a};
    assert |PositiveSpecs(durations)| == 1;
    hide *;
    SomeEntryRunsAll(durations, 3);
  }
}
