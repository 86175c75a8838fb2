/** `plan_shards`: longest-processing-time-first packing of specs into shards. */
module ShardPlan {
  import opened Collections
  import opened GreedyLoads
  import opened Numbers
  import opened Ordering

  /** `part` is `Some((i, k))` for the tests that Playwright's `--shard i/k` selects. */
  datatype Shard = Shard(specs: seq<string>, estimatedMs: nat, part: Option<(nat, nat)>)

  // ----- the packing as a function of the sorted durations

  /** The least index of a least element, as `min` by (total, index) picks it. */
  function ArgMin(totals: seq<nat>): (r: nat)
    requires totals != []
    ensures r < |totals|
    ensures forall i :: 0 <= i < |totals| ==> totals[r] <= totals[i]
    ensures forall i :: 0 <= i < r ==> totals[r] < totals[i]
  {
    if |totals| == 1 then 0
    else
      var r := ArgMin(totals[..|totals| - 1]);
      if totals[|totals| - 1] < totals[r] then |totals| - 1 else r
  }

  function Loads(a: seq<nat>, w: seq<nat>, n: nat, m: nat): seq<nat>
    requires n <= |a| && n <= |w|
  {
    seq(m, i requires 0 <= i => Load(a, w, n, i))
  }

  /** The shards chosen for the first `n` jobs. */
  ghost function Assigned(p: seq<nat>, m: nat, n: nat): (a: seq<nat>)
    requires m > 0 && n <= |p|
    ensures |a| == n && OnMachines(a, n, m)
  {
    if n == 0 then []
    else
      var a := Assigned(p, m, n - 1);
      a + [ArgMin(Loads(a, p, n - 1, m))]
  }

  lemma {:induction false} AssignedPrefix(p: seq<nat>, m: nat, n: nat, n': nat)
    requires m > 0 && n <= n' <= |p|
    ensures Assigned(p, m, n) == Assigned(p, m, n')[..n]
  {
    if n < n' {
      AssignedPrefix(p, m, n, n' - 1);
      assert Assigned(p, m, n')[..n] == Assigned(p, m, n' - 1)[..n];
    } else {
      assert Assigned(p, m, n')[..n] == Assigned(p, m, n');
    }
  }

  ghost function Total(p: seq<nat>, m: nat, n: nat, i: nat): nat
    requires m > 0 && n <= |p|
  {
    Load(Assigned(p, m, n), p, n, i)
  }

  ghost function Target(p: seq<nat>, m: nat, n: nat): nat
    requires m > 0 && n < |p|
  {
    Assigned(p, m, n + 1)[n]
  }

  /** The next job goes to the first least loaded shard. */
  lemma TargetLeast(p: seq<nat>, m: nat, n: nat)
    requires m > 0 && n < |p|
    ensures Target(p, m, n) < m
    ensures LoadsAtLeast(Assigned(p, m, n), p, n, m, Total(p, m, n, Target(p, m, n)))
  {
    var totals := Loads(Assigned(p, m, n), p, n, m);
    assert Target(p, m, n) == ArgMin(totals);
    assert forall i :: 0 <= i < m ==> totals[i] == Load(Assigned(p, m, n), p, n, i);
  }

  lemma TargetFirst(p: seq<nat>, m: nat, n: nat, i: nat)
    requires m > 0 && n < |p| && i < Target(p, m, n) < m
    ensures Total(p, m, n, Target(p, m, n)) < Total(p, m, n, i)
  {
    var totals := Loads(Assigned(p, m, n), p, n, m);
    assert Target(p, m, n) == ArgMin(totals);
    assert totals[i] == Load(Assigned(p, m, n), p, n, i);
  }

  /** That shard grows by the job, the others stay. */
  lemma TotalStep(p: seq<nat>, m: nat, n: nat, i: nat)
    requires m > 0 && n < |p|
    ensures Total(p, m, n + 1, i) == Total(p, m, n, i) + if i == Target(p, m, n) then p[n] else 0
  {
    var a, a' := Assigned(p, m, n), Assigned(p, m, n + 1);
    assert a' == a + [a'[n]];
    LoadFrame(a', a, p, p, n, i);
  }

  ghost predicate Rival(p: seq<nat>, m: nat, opt: seq<nat>, best: nat) {
    |opt| == |p| && OnMachines(opt, |p|, m) && LoadsAtMost(opt, p, |p|, m, best)
  }

  lemma PlacedWithinFourThirds(p: seq<nat>, m: nat, n: nat, opt: seq<nat>, best: nat)
    requires m > 0 && n < |p| && Descending(p) && Rival(p, m, opt, best)
    ensures FourThirds(m, Total(p, m, n, Target(p, m, n)) + p[n], best)
  {
    PrefixAtMost(opt, p, n + 1, m, best);
    TargetLeast(p, m, n);
    var a, least := Assigned(p, m, n), Total(p, m, n, Target(p, m, n));
    hide Assigned, Load, Total, Target, FourThirds;
    GreedyStep(p, a, opt, n + 1, m, least, best);
  }

  /** Graham's bound, for every prefix of the list and every rival schedule. */
  lemma {:induction false} AssignedWithinFourThirds(p: seq<nat>, m: nat, n: nat, opt: seq<nat>, best: nat, i: nat)
    requires m > 0 && n <= |p| && Descending(p) && i < m && Rival(p, m, opt, best)
    ensures FourThirds(m, Total(p, m, n, i), best)
  {
    hide FourThirds;
    if n == 0 {
      ZeroWithinFourThirds(m, best);
    } else {
      hide Assigned, Load, Total, Target, Rival;
      TotalStep(p, m, n - 1, i);
      PlacedWithinFourThirds(p, m, n - 1, opt, best);
      AssignedWithinFourThirds(p, m, n - 1, opt, best, i);
    }
  }

  lemma ZeroWithinFourThirds(m: nat, best: nat)
    requires m > 0
    ensures FourThirds(m, 0, best)
  {
    assert (4 * m - 1) * best >= 0;
  }

  lemma PrefixAtMost(a: seq<nat>, p: seq<nat>, n: nat, m: nat, best: nat)
    requires n <= |p| == |a| && LoadsAtMost(a, p, |p|, m, best)
    ensures LoadsAtMost(a, p, n, m, best)
  {
    forall i | 0 <= i < m ensures Load(a, p, n, i) <= best {
      LoadMonotone(a, p, n, |p|, i);
    }
  }

  /** No two shards differ by more than the longest job. */
  lemma {:induction false} AssignedSpread(p: seq<nat>, m: nat, n: nat, i: nat, j: nat)
    requires m > 0 && n <= |p| && Descending(p) && i < m && j < m
    ensures Total(p, m, n, i) <= Total(p, m, n, j) + if n == 0 then 0 else p[0]
  {
    if n > 0 {
      hide Total, Assigned, Target, GreedyLoads.Load;
      AssignedSpread(p, m, n - 1, i, j);
      TargetLeast(p, m, n - 1);
      TotalStep(p, m, n - 1, i);
      TotalStep(p, m, n - 1, j);
    }
  }

  // ----- which shards stay empty

  /** The number of jobs of positive length. */
  function Positives(p: seq<nat>): nat {
    if p == [] then 0 else Positives(p[..|p| - 1]) + if p[|p| - 1] > 0 then 1 else 0
  }

  lemma {:induction false} PositivesFirst(p: seq<nat>, j: nat)
    requires Descending(p) && j < |p|
    ensures Positives(p) <= |p|
    ensures p[j] > 0 <==> j < Positives(p)
  {
    var q := p[..|p| - 1];
    if q != [] {
      PositivesFirst(q, |q| - 1);
      if j < |q| { PositivesFirst(q, j); }
    }
  }

  /** Job `n` goes to its own shard while positive jobs and empty shards last; when the
      positive jobs run out first, all the others share the first empty shard. */
  lemma {:induction false} FirstJobs(p: seq<nat>, m: nat, n: nat)
    requires m > 0 && n < |p| && Descending(p)
    requires n < m || Positives(p) < m
    ensures Target(p, m, n) == Min(n, Positives(p))
    decreases n, 1
  {
    var t, e := Target(p, m, n), Min(n, Positives(p));
    PositivesFirst(p, n);
    TargetLeast(p, m, n);
    FirstTotals(p, m, n, t);
    FirstTotals(p, m, n, e);
    if t < e { PositivesFirst(p, t); }
    if e < t { TargetFirst(p, m, n, e); }
  }

  lemma {:induction false} FirstTotals(p: seq<nat>, m: nat, n: nat, i: nat)
    requires m > 0 && n <= |p| && Descending(p) && i < m
    requires n <= m || Positives(p) < m
    ensures Total(p, m, n, i) == if i < n && i < Positives(p) then p[i] else 0
    decreases n, 0
  {
    hide *;
    if n == 0 {
      NothingPlaced(p, m, i);
    } else {
      FirstTotals(p, m, n - 1, i);
      TotalStep(p, m, n - 1, i);
      PositivesFirst(p, n - 1);
      FirstJobs(p, m, n - 1);
      NextTotal(p, n - 1, i, Positives(p), Total(p, m, n - 1, i), Total(p, m, n, i));
    }
  }

  lemma NothingPlaced(p: seq<nat>, m: nat, i: nat)
    requires m > 0
    ensures Total(p, m, 0, i) == 0
  {
  }

  lemma NextTotal(p: seq<nat>, n: nat, i: nat, positives: nat, before: nat, after: nat)
    requires n < |p| && (p[n] > 0 <==> n < positives)
    requires before == if i < n && i < positives then p[i] else 0
    requires after == before + if i == Min(n, positives) then p[n] else 0
    ensures after == if i < n + 1 && i < positives then p[i] else 0
  {
  }

  /** Shard `i` receives a job exactly when at least `i` jobs are positive. */
  lemma ShardUsed(p: seq<nat>, m: nat, i: nat)
    requires m > 0 && m <= |p| && Descending(p) && i < m
    ensures (exists j :: 0 <= j < |p| && Assigned(p, m, |p|)[j] == i) <==> i <= Positives(p)
  {
    if i <= Positives(p) {
      FirstJobs(p, m, i);
      TargetIs(p, m, i);
    } else {
      forall j | 0 <= j < |p| ensures Assigned(p, m, |p|)[j] != i {
        FirstJobs(p, m, j);
        TargetIs(p, m, j);
      }
    }
  }

  lemma TargetIs(p: seq<nat>, m: nat, j: nat)
    requires m > 0 && j < |p|
    ensures Assigned(p, m, |p|)[j] == Target(p, m, j)
  {
    AssignedPrefix(p, m, j + 1, |p|);
  }

  // ----- the plan

  function Sizes(order: seq<string>, durations: map<string, nat>): (p: seq<nat>)
    requires forall s :: s in order ==> s in durations
  {
    seq(|order|, i requires 0 <= i < |order| => durations[order[i]])
  }

  ghost function LptOrder(durations: map<string, nat>): (order: seq<string>)
    ensures LongestFirst(durations).Lists(order, durations.Keys)
  {
    LongestFirst(durations).SortLists(durations.Keys);
    LongestFirst(durations).Sort(durations.Keys)
  }

  /** The specs among the first `n` that `a` sends to shard `i`. */
  ghost function Bin(order: seq<string>, a: seq<nat>, n: nat, i: nat): set<string>
    requires n <= |order| && n <= |a|
  {
    set j | 0 <= j < n && a[j] == i :: order[j]
  }

  ghost function ShardTotal(durations: map<string, nat>, count: int): nat {
    if count <= 0 then 0 else Min(count, |durations|)
  }

  /** The shards of `plan_shards`. */
  ghost function Plan(durations: map<string, nat>, count: int): (shards: seq<Shard>) {
    var m := ShardTotal(durations, count);
    if m == 0 then []
    else
      var order := LptOrder(durations);
      var p := Sizes(order, durations);
      var a := Assigned(p, m, |p|);
      seq(m, i requires 0 <= i < m => Shard(ByName.Sort(Bin(order, a, |order|, i)), Load(a, p, |p|, i), None))
  }

  lemma DurationsDescend(durations: map<string, nat>)
    ensures Descending(Sizes(LptOrder(durations), durations))
    ensures |LptOrder(durations)| == |durations|
  {
    var o := LongestFirst(durations);
    var order := LptOrder(durations);
    o.ListingLength(order, durations.Keys);
    var p := Sizes(order, durations);
    forall i, j | 0 <= i <= j < |p| ensures p[j] <= p[i] {
      if i < j { assert o.Less(order[i], order[j]); }
    }
  }

  /** The load of a shard is the sum of its specs' durations. */
  lemma {:induction false} LoadIsSum(order: seq<string>, durations: map<string, nat>, a: seq<nat>, n: nat, i: nat)
    requires forall s :: s in order ==> s in durations
    requires forall j, k :: 0 <= j < k < |order| ==> order[j] != order[k]
    requires n <= |order| == |a|
    ensures Bin(order, a, n, i) <= durations.Keys
    ensures Load(a, Sizes(order, durations), n, i) == SetSum(Bin(order, a, n, i), durations)
  {
    if n == 0 {
      assert Bin(order, a, n, i) == {};
    } else {
      LoadIsSum(order, durations, a, n - 1, i);
      var before := Bin(order, a, n - 1, i);
      if a[n - 1] == i {
        assert Bin(order, a, n, i) == before + {order[n - 1]};
        SetSumAdd(before, durations, order[n - 1]);
      } else {
        assert Bin(order, a, n, i) == before;
      }
    }
  }

  ghost function SpecSet(shard: Shard): set<string> {
    set s | s in shard.specs
  }

  /** An unsplit shard: its specs in name order, with their exact total. */
  ghost predicate Exact(shard: Shard, durations: map<string, nat>) {
    && shard.part == None
    && ByName.Sorted(shard.specs)
    && SpecSet(shard) <= durations.Keys
    && shard.estimatedMs == SetSum(SpecSet(shard), durations)
  }

  /** Every spec runs in exactly one shard, and every estimate is exact. */
  ghost predicate RunsEachOnce(shards: seq<Shard>, durations: map<string, nat>) {
    && (forall i :: 0 <= i < |shards| ==> Exact(shards[i], durations))
    && (forall i, j :: 0 <= i < j < |shards| ==> SpecSet(shards[i]) !! SpecSet(shards[j]))
    && forall s :: s in durations ==> exists i :: 0 <= i < |shards| && s in SpecSet(shards[i])
  }

  lemma PlanLength(durations: map<string, nat>, count: int)
    ensures |Plan(durations, count)| == ShardTotal(durations, count)
    ensures |LptOrder(durations)| == |durations|
  {
    LongestFirst(durations).ListingLength(LptOrder(durations), durations.Keys);
  }

  /** Shard `i` of the plan is bin `i` of the packing. */
  lemma PlanShape(durations: map<string, nat>, count: int, i: nat)
    requires i < |Plan(durations, count)|
    ensures
      var plan, order := Plan(durations, count), LptOrder(durations);
      var p := Sizes(order, durations);
      && plan[i].part == None
      && plan[i].specs == ByName.Sort(Bin(order, Assigned(p, |plan|, |p|), |p|, i))
      && plan[i].estimatedMs == Total(p, |plan|, |p|, i)
  {
    PlanLength(durations, count);
  }

  lemma PlanShardExact(durations: map<string, nat>, count: int, i: nat)
    requires i < |Plan(durations, count)|
    ensures
      var plan, order := Plan(durations, count), LptOrder(durations);
      var p := Sizes(order, durations);
      && Exact(plan[i], durations)
      && SpecSet(plan[i]) == Bin(order, Assigned(p, |plan|, |p|), |p|, i)
  {
    var plan, order := Plan(durations, count), LptOrder(durations);
    var p := Sizes(order, durations);
    var a := Assigned(p, |plan|, |p|);
    PlanShape(durations, count, i);
    hide Plan, Assigned, Load;
    LongestFirst(durations).ListingDistinct(order);
    LoadIsSum(order, durations, a, |order|, i);
    SortedSpecs(plan[i], Bin(order, a, |p|, i));
  }

  lemma SortedSpecs(shard: Shard, names: set<string>)
    requires shard.specs == ByName.Sort(names)
    ensures SpecSet(shard) == names && ByName.Sorted(shard.specs)
  {
    ByName.SortLists(names);
  }

  lemma BinsPartition(order: seq<string>, a: seq<nat>, m: nat)
    requires |a| == |order| && OnMachines(a, |a|, m)
    requires forall j, k :: 0 <= j < k < |order| ==> order[j] != order[k]
    ensures forall i, i' :: 0 <= i < i' < m ==> Bin(order, a, |order|, i) !! Bin(order, a, |order|, i')
    ensures forall s :: s in order ==> exists i :: 0 <= i < m && s in Bin(order, a, |order|, i)
  {
    forall s | s in order ensures exists i :: 0 <= i < m && s in Bin(order, a, |order|, i) {
      var j :| 0 <= j < |order| && order[j] == s;
      assert s in Bin(order, a, |order|, a[j]);
    }
  }

  lemma BinsRunEachOnce(plan: seq<Shard>, durations: map<string, nat>, order: seq<string>, a: seq<nat>)
    requires |a| == |order| && OnMachines(a, |a|, |plan|)
    requires forall j, k :: 0 <= j < k < |order| ==> order[j] != order[k]
    requires forall s :: s in durations ==> s in order
    requires forall i :: 0 <= i < |plan| ==> Exact(plan[i], durations) && SpecSet(plan[i]) == Bin(order, a, |order|, i)
    ensures RunsEachOnce(plan, durations)
  {
    hide Exact;
    BinsPartition(order, a, |plan|);
    forall s | s in durations ensures exists i :: 0 <= i < |plan| && s in SpecSet(plan[i]) {
      var i :| 0 <= i < |plan| && s in Bin(order, a, |order|, i);
      assert s in SpecSet(plan[i]);
    }
  }

  /** The plan is a partition of the specs with exact totals. */
  lemma PlanRunsEachOnce(durations: map<string, nat>, count: int)
    requires count > 0
    ensures RunsEachOnce(Plan(durations, count), durations)
    ensures |Plan(durations, count)| == Min(count, |durations|)
  {
    var plan, order := Plan(durations, count), LptOrder(durations);
    PlanLength(durations, count);
    hide Plan, Assigned, Exact;
    if plan == [] {
      assert durations.Keys == {};
    } else {
      var a := Assigned(Sizes(order, durations), |plan|, |order|);
      LongestFirst(durations).ListingDistinct(order);
      forall i | 0 <= i < |plan| ensures Exact(plan[i], durations) && SpecSet(plan[i]) == Bin(order, a, |order|, i) {
        PlanShardExact(durations, count, i);
      }
      BinsRunEachOnce(plan, durations, order, a);
    }
  }

  /** The durations that the schedule `rival` puts on shard `i`. */
  ghost function RivalTotal(durations: map<string, nat>, rival: map<string, nat>, i: nat): nat
    requires durations.Keys <= rival.Keys
  {
    SetSum((set s | s in durations && rival[s] == i), durations)
  }

  ghost predicate IsRival(durations: map<string, nat>, rival: map<string, nat>, m: nat, best: nat) {
    && durations.Keys <= rival.Keys
    && (forall s :: s in durations ==> rival[s] < m)
    && forall k :: 0 <= k < m ==> RivalTotal(durations, rival, k) <= best
  }

  /** A bin holds the specs that the schedule puts there. */
  lemma BinIs(order: seq<string>, a: seq<nat>, schedule: map<string, nat>, k: nat)
    requires |a| == |order| && forall j :: 0 <= j < |order| ==> order[j] in schedule && schedule[order[j]] == a[j]
    ensures Bin(order, a, |order|, k) == set s | s in order && s in schedule && schedule[s] == k
  {
    var bin := Bin(order, a, |order|, k);
    forall s | s in order && s in schedule && schedule[s] == k ensures s in bin {
      var j :| 0 <= j < |order| && order[j] == s;
      assert a[j] == k;
    }
  }

  lemma RivalTotalIs(order: seq<string>, durations: map<string, nat>, a: seq<nat>, rival: map<string, nat>, k: nat)
    requires LongestFirst(durations).Lists(order, durations.Keys) && |a| == |order| && durations.Keys <= rival.Keys
    requires forall j :: 0 <= j < |order| ==> rival[order[j]] == a[j]
    ensures Load(a, Sizes(order, durations), |order|, k) == RivalTotal(durations, rival, k)
  {
    LongestFirst(durations).ListingDistinct(order);
    LoadIsSum(order, durations, a, |order|, k);
    BinIs(order, a, rival, k);
    assert Bin(order, a, |order|, k) == set s | s in durations && rival[s] == k;
  }

  lemma RivalLoads(durations: map<string, nat>, rival: map<string, nat>, m: nat, best: nat) returns (opt: seq<nat>)
    requires IsRival(durations, rival, m, best)
    ensures Rival(Sizes(LptOrder(durations), durations), m, opt, best)
  {
    var order := LptOrder(durations);
    opt := seq(|order|, j requires 0 <= j < |order| => rival[order[j]]);
    forall k | 0 <= k < m ensures Load(opt, Sizes(order, durations), |order|, k) <= best {
      RivalTotalIs(order, durations, opt, rival, k);
    }
  }

  /** Graham's bound: no shard exceeds 4/3 - 1/(3m) of the largest shard of any other
      way to divide the same specs over the same number of shards. */
  lemma PlanWithinFourThirds(durations: map<string, nat>, count: int, rival: map<string, nat>, best: nat, i: nat)
    requires i < |Plan(durations, count)|
    requires IsRival(durations, rival, |Plan(durations, count)|, best)
    ensures FourThirds(|Plan(durations, count)|, Plan(durations, count)[i].estimatedMs, best)
  {
    var m := |Plan(durations, count)|;
    var p := Sizes(LptOrder(durations), durations);
    var opt := RivalLoads(durations, rival, m, best);
    DurationsDescend(durations);
    PlanShape(durations, count, i);
    hide Plan, FourThirds, Total, Rival, IsRival, LptOrder, Descending;
    AssignedWithinFourThirds(p, m, |p|, opt, best, i);
  }

  /** The longest and the shortest shard differ by at most one spec's duration. */
  lemma PlanSpread(durations: map<string, nat>, count: int, longest: nat, i: nat, j: nat)
    requires i < |Plan(durations, count)| && j < |Plan(durations, count)|
    requires forall s :: s in durations ==> durations[s] <= longest
    ensures Plan(durations, count)[i].estimatedMs <= Plan(durations, count)[j].estimatedMs + longest
  {
    PlanShape(durations, count, i);
    PlanShape(durations, count, j);
    DurationsDescend(durations);
    var p := Sizes(LptOrder(durations), durations);
    AssignedSpread(p, |Plan(durations, count)|, |p|, i, j);
  }

  /** The specs that take any time. */
  function PositiveSpecs(durations: map<string, nat>): set<string> {
    set s | s in durations && durations[s] > 0
  }

  ghost function PositiveAmong(order: seq<string>, durations: map<string, nat>): set<string> {
    set s | s in order && s in durations && durations[s] > 0
  }

  lemma PositiveAmongStep(rest: seq<string>, last: string, durations: map<string, nat>)
    requires last !in rest
    ensures |PositiveAmong(rest + [last], durations)| ==
      |PositiveAmong(rest, durations)| + if last in durations && durations[last] > 0 then 1 else 0
  {
    var before, after := PositiveAmong(rest, durations), PositiveAmong(rest + [last], durations);
    assert last !in before;
    if last in durations && durations[last] > 0 {
      assert after == before + {last};
    } else {
      assert after == before;
    }
  }

  lemma {:induction false} PositivesAreSpecs(order: seq<string>, durations: map<string, nat>)
    requires forall s :: s in order ==> s in durations
    requires forall j, k :: 0 <= j < k < |order| ==> order[j] != order[k]
    ensures Positives(Sizes(order, durations)) == |PositiveAmong(order, durations)|
  {
    if order == [] {
      assert PositiveAmong(order, durations) == {};
    } else {
      var rest, last := order[..|order| - 1], order[|order| - 1];
      assert order == rest + [last];
      PositivesAreSpecs(rest, durations);
      PositiveAmongStep(rest, last, durations);
      assert Sizes(order, durations)[..|order| - 1] == Sizes(rest, durations);
    }
  }

  lemma BinEmpty(order: seq<string>, a: seq<nat>, i: nat)
    requires |a| == |order|
    ensures Bin(order, a, |order|, i) == {} <==> !exists j :: 0 <= j < |order| && a[j] == i
  {
    forall j | 0 <= j < |order| && a[j] == i ensures order[j] in Bin(order, a, |order|, i) {
    }
  }

  /** "No empty shard" is promised, but holds only up to one more shard than there are
      specs of positive duration: shard `i` is empty exactly when fewer than `i` specs
      take any time. */
  lemma PlanShardEmpty(durations: map<string, nat>, count: int, i: nat)
    requires i < |Plan(durations, count)|
    ensures Plan(durations, count)[i].specs == [] <==> |PositiveSpecs(durations)| < i
  {
    PlanShardExact(durations, count, i);
    PlanLength(durations, count);
    DurationsDescend(durations);
    var plan, order := Plan(durations, count), LptOrder(durations);
    var p := Sizes(order, durations);
    hide Plan, Assigned;
    ShardUsed(p, |plan|, i);
    BinEmpty(order, Assigned(p, |plan|, |p|), i);
    PositivesInPlan(durations);
    assert plan[i].specs == [] || plan[i].specs[0] in SpecSet(plan[i]);
  }

  ghost predicate HasEmptyShard(shards: seq<Shard>) {
    exists i :: 0 <= i < |shards| && shards[i].specs == []
  }

  /** Some shard is empty exactly when both the count and the number of specs are at least two more
      than the specs of positive duration. */
  lemma PlanHasEmptyShard(durations: map<string, nat>, count: int)
    ensures HasEmptyShard(Plan(durations, count)) <==>
      |PositiveSpecs(durations)| + 1 < count && |PositiveSpecs(durations)| + 1 < |durations|
  {
    PlanLength(durations, count);
    var plan, n := Plan(durations, count), |PositiveSpecs(durations)|;
    hide Plan, PositiveSpecs;
    forall i | 0 <= i < |plan| ensures plan[i].specs == [] <==> n < i {
      PlanShardEmpty(durations, count, i);
    }
    if n + 1 < |plan| {
      assert plan[n + 1].specs == [];
    }
  }

  lemma PositivesInPlan(durations: map<string, nat>)
    ensures Positives(Sizes(LptOrder(durations), durations)) == |PositiveSpecs(durations)|
  {
    var order := LptOrder(durations);
    LongestFirst(durations).ListingDistinct(order);
    PositivesAreSpecs(order, durations);
    assert PositiveAmong(order, durations) == PositiveSpecs(durations);
  }

  /** Two specs that take no time leave the second of two shards empty. */
  lemma PlanShardEmptyExample()
    ensures var durations: map<string, nat> := map["a" := 0, "b" := 0];
      |Plan(durations, 2)| == 2 && Plan(durations, 2)[1].specs == []
  {
    var durations: map<string, nat> := map["a" := 0, "b" := 0];
    assert |durations| == 2;
    assert PositiveSpecs(durations) == {};
    PlanLength(durations, 2);
    PlanShardEmpty(durations, 2, 1);
  }

  // ----- the source's loop

  lemma BinStep(order: seq<string>, a: seq<nat>, n: nat, i: nat)
    requires n == |a| < |order|
    ensures forall t: nat :: Bin(order, a + [t], n + 1, i) == Bin(order, a, n, i) + if i == t then {order[n]} else {}
  {
  }

  method PlanShards(durations: map<string, nat>, count: int) returns (shards: seq<Shard>)
    ensures shards == Plan(durations, count)
  {
    var m := if count < |durations| then count else |durations|;
    PlanLength(durations, count);
    if m <= 0 {
      return [];
    }
    var order := LongestFirst(durations).SortSet(durations.Keys);
    assert order == LptOrder(durations);
    var bins, totals := Pack(order, durations, m);
    shards := Finish(bins, totals);
    forall i | 0 <= i < m ensures shards[i] == Plan(durations, count)[i] {
      PlanShape(durations, count, i);
    }
  }

  /** The final comprehension over bins and totals. */
  method Finish(bins: seq<seq<string>>, totals: seq<nat>) returns (shards: seq<Shard>)
    requires |bins| == |totals|
    ensures |shards| == |bins|
    ensures forall i :: 0 <= i < |bins| ==> shards[i] == Shard(ByName.Sort(Names(bins[i])), totals[i], None)
  {
    shards := [];
    for i := 0 to |bins|
      invariant |shards| == i
      invariant forall k :: 0 <= k < i ==> shards[k] == Shard(ByName.Sort(Names(bins[k])), totals[k], None)
    {
      var specs := ByName.SortSet(Names(bins[i]));
      shards := shards + [Shard(specs, totals[i], None)];
    }
  }

  function Names(bin: seq<string>): set<string> {
    set s | s in bin
  }

  /** After `n` specs, the lists hold the loads and the bins of the packing. */
  ghost predicate Packed(order: seq<string>, p: seq<nat>, m: nat, n: nat, bins: seq<seq<string>>, totals: seq<nat>)
    requires m > 0 && n <= |p| == |order|
  {
    && |bins| == |totals| == m
    && (forall i :: 0 <= i < m ==> totals[i] == Total(p, m, n, i))
    && forall i :: 0 <= i < m ==> Names(bins[i]) == Bin(order, Assigned(p, m, n), n, i)
  }

  lemma PackStep(order: seq<string>, p: seq<nat>, m: nat, n: nat, bins: seq<seq<string>>, totals: seq<nat>)
    requires m > 0 && n < |p| == |order| && Packed(order, p, m, n, bins, totals)
    ensures
      var t := ArgMin(totals);
      Packed(order, p, m, n + 1, bins[t := bins[t] + [order[n]]], totals[t := totals[t] + p[n]])
  {
    var a, t := Assigned(p, m, n), ArgMin(totals);
    assert totals == Loads(a, p, n, m);
    assert t == Target(p, m, n) && Assigned(p, m, n + 1) == a + [t];
    hide Assigned;
    var bins', totals' := bins[t := bins[t] + [order[n]]], totals[t := totals[t] + p[n]];
    forall i | 0 <= i < m ensures totals'[i] == Total(p, m, n + 1, i) {
      TotalStep(p, m, n, i);
    }
    forall i | 0 <= i < m ensures Names(bins'[i]) == Bin(order, a + [t], n + 1, i) {
      BinStep(order, a, n, i);
    }
  }

  /** The packing loop: each spec in turn to the shard with the least total. */
  method Pack(order: seq<string>, durations: map<string, nat>, m: nat)
    returns (bins: seq<seq<string>>, totals: seq<nat>)
    requires m > 0 && forall s :: s in order ==> s in durations
    ensures Packed(order, Sizes(order, durations), m, |order|, bins, totals)
  {
    bins := seq(m, _ => []);
    totals := seq(m, _ => 0);
    ghost var p := Sizes(order, durations);
    assert Packed(order, p, m, 0, bins, totals);
    hide Total, Assigned, Bin, Names, ArgMin;
    for n := 0 to |order|
      invariant Packed(order, p, m, n, bins, totals)
    {
      var spec := order[n];
      var target := ArgMin(totals);
      PackStep(order, p, m, n, bins, totals);
      bins := bins[target := bins[target] + [spec]];
      totals := totals[target := totals[target] + durations[spec]];
    }
  }
}
