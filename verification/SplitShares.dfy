/** How many parts a spec is split into: what the plan asks for, told from the exact mean, and how
    the repair takes parts away. */
module SplitShares {
  import opened Collections
  import opened Numbers
  import opened ShardPlan
  import opened SplitPlan
  import G = GreedyLoads

  lemma ShareAtLeastTwo(ms: nat, total: nat, usable: nat)
    requires total > 0
    ensures Share(ms, total, usable) >= 2 <==> 2 * (ms * usable) >= 3 * total
  {
    var num, k := ms * usable, Share(ms, total, usable);
    hide HalfEven;
    if k >= 2 {
      G.ProductMonotone(3, 2 * k - 1, total);
    } else if k == 1 {
      assert 2 * num <= 3 * total && 2 * num != 3 * total;
    } else {
      assert 2 * num <= total;
    }
  }

  /** A spec is split when it takes at least one and a half times the mean shard and may have two
      parts; the parts are the nearest number to what it takes in mean shards, or fewer where no more
      are allowed. */
  ghost predicate Asks(parts: map<string, nat>, spec: string, ms: nat, usable: nat, total: nat, most: int) {
    var num := ms * usable;
    && (spec in parts <==> most >= 2 && 2 * num >= 3 * total)
    && (spec in parts ==>
          && 2 <= parts[spec] <= most
          && (2 * parts[spec] - 1) * total <= 2 * num
          && (parts[spec] < most ==> 2 * num <= (2 * parts[spec] + 1) * total))
  }

  /** What the plan asks for before the repair, a spec having as many parts as tests at most. */
  lemma AskedPartsIff(durations: map<string, nat>, count: int, tests: map<string, nat>, spec: string)
    requires Usable(durations, count, tests) > 1 && SetSum(durations.Keys, durations) > 0 && spec in durations
    ensures Asks(AskedParts(durations, count, tests), spec, durations[spec], Usable(durations, count, tests),
                 SetSum(durations.Keys, durations), if spec in tests then Max(1, tests[spec]) else count)
  {
    var caps, usable := Capacities(durations, count, tests), Usable(durations, count, tests);
    assert caps.Keys == durations.Keys;
    assert caps[spec] == Max(1, if spec in tests then tests[spec] else count) && usable <= count;
    assert AskedParts(durations, count, tests) == FirstParts(durations, caps, SetSum(durations.Keys, durations), usable);
    hide *;
    SetSumRemove(durations.Keys, durations, spec);
    MostIs(caps[spec], spec, count, tests, usable);
    FirstPartsIff(durations, caps, SetSum(durations.Keys, durations), usable, spec);
  }

  lemma MostIs(cap: nat, spec: string, count: int, tests: map<string, nat>, usable: int)
    requires cap == Max(1, if spec in tests then tests[spec] else count) && 1 < usable <= count
    ensures cap == if spec in tests then Max(1, tests[spec]) else count
  {
  }

  lemma FirstPartsIff(durations: map<string, nat>, caps: map<string, nat>, total: nat, usable: nat, spec: string)
    requires usable > 1 && spec in durations && durations[spec] <= total && total > 0 && caps.Keys == durations.Keys
    ensures Asks(FirstParts(durations, caps, total, usable), spec, durations[spec], usable, total, caps[spec])
  {
    var ms, k := durations[spec], Share(durations[spec], total, usable);
    NeverAboveUsable(ms, total, usable);
    ShareAtLeastTwo(ms, total, usable);
    assert (2 * k - 1) * total <= 2 * (ms * usable) <= (2 * k + 1) * total;
    var n := Wanted(ms, total, caps[spec], usable);
    assert n == Min(k, caps[spec]) && (spec in FirstParts(durations, caps, total, usable) <==> n >= 2);
    assert n >= 2 ==> FirstParts(durations, caps, total, usable)[spec] == n;
    hide Share, Wanted, FirstParts;
    FewerParts(k, caps[spec], total, ms * usable);
  }

  lemma FewerParts(k: nat, cap: nat, total: nat, num: nat)
    requires (2 * k - 1) * total <= 2 * num <= (2 * k + 1) * total
    ensures var n := Min(k, cap); (2 * n - 1) * total <= 2 * num && (n < cap ==> 2 * num <= (2 * n + 1) * total)
  {
    var n := Min(k, cap);
    G.ProductMonotone(2 * n, 2 * k, total);
  }

  // ----- the repair takes from the largest

  /** The parts left of a spec: one, when it is not split any more. */
  function Left(parts: map<string, nat>, x: string): nat {
    if x in parts then parts[x] else 1
  }

  /** No spec is left with more than one part above a spec from which parts were taken. */
  ghost predicate Levelled(asked: map<string, nat>, parts: map<string, nat>) {
    forall x, y :: x in asked && Left(parts, x) < asked[x] && y in parts ==> parts[y] <= Left(parts, x) + 1
  }

  lemma OneLessLevelled(durations: map<string, nat>, asked: map<string, nat>, parts: map<string, nat>, x: string)
    requires parts.Keys <= durations.Keys && AllSplit(parts) && Levelled(asked, parts) && IsLargest(x, parts, durations)
    ensures Levelled(asked, OneLess(parts, x))
  {
    var less := OneLess(parts, x);
    assert forall y :: y in parts ==> parts[y] <= parts[x];
    assert Left(less, x) == parts[x] - 1;
    assert forall y :: y in less ==> y in parts && less[y] <= parts[y];
    assert forall y :: y != x ==> Left(less, y) == Left(parts, y);
  }

  lemma {:induction false} RepairLevelled(durations: map<string, nat>, asked: map<string, nat>, parts: map<string, nat>, count: nat)
    requires parts.Keys <= durations.Keys && AllSplit(parts) && Levelled(asked, parts)
    ensures Levelled(asked, Repair(durations, parts, count))
    decreases SetSum(parts.Keys, parts)
  {
    if !Settled(durations, parts, count) {
      var x := Largest(parts, durations);
      OneLessSum(parts, x);
      OneLessLevelled(durations, asked, parts, x);
      hide Levelled, SetSum, OneLess;
      RepairLevelled(durations, asked, OneLess(parts, x), count);
    }
  }

  /** The repair levels the parts: no spec keeps two parts more than a spec that lost some. */
  lemma FinalPartsLevelled(durations: map<string, nat>, count: int, tests: map<string, nat>, x: string, y: string)
    requires Usable(durations, count, tests) > 1 && SetSum(durations.Keys, durations) > 0
    requires x in AskedParts(durations, count, tests) && y in FinalParts(durations, count, tests)
    requires Left(FinalParts(durations, count, tests), x) < AskedParts(durations, count, tests)[x]
    ensures FinalParts(durations, count, tests)[y] <= Left(FinalParts(durations, count, tests), x) + 1
  {
    var asked := AskedParts(durations, count, tests);
    assert AllSplit(asked) && asked.Keys <= durations.Keys && Levelled(asked, asked);
    hide AskedParts, Repair, Usable, SetSum;
    RepairLevelled(durations, asked, asked, Usable(durations, count, tests));
  }
}
