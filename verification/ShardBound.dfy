/** The 4/3 - 1/(3m) bound on the packing is attained for every number of shards, so no smaller
    one holds. */
module ShardBound {
  import opened GreedyLoads
  import opened ShardPlan

  /** Two jobs each of 2m - 1 down to m + 1, and three of m. */
  function Size(m: nat, j: nat): nat
    requires j <= 2 * m && m > 0
  {
    if j == 2 * m then m else 2 * m - 1 - j / 2
  }

  function Worst(m: nat): (p: seq<nat>)
    requires m > 0
    ensures |p| == 2 * m + 1 && forall j :: 0 <= j <= 2 * m ==> p[j] == Size(m, j)
  {
    seq(2 * m + 1, j requires 0 <= j <= 2 * m => Size(m, j))
  }

  lemma WorstDescends(m: nat)
    requires m > 0
    ensures Descending(Worst(m))
  {
  }

  // ----- the packing's loads

  /** The loads after `n` jobs. */
  function Fill(p: seq<nat>, m: nat, n: nat): (loads: seq<nat>)
    requires m > 0 && n <= |p|
    ensures |loads| == m
  {
    if n == 0 then seq(m, _ => 0)
    else
      var before := Fill(p, m, n - 1);
      before[ArgMin(before) := before[ArgMin(before)] + p[n - 1]]
  }

  lemma LoadStep(p: seq<nat>, m: nat, n: nat, i: nat)
    requires m > 0 && n < |p| && i < m
    ensures Total(p, m, n + 1, i) == Total(p, m, n, i) + if i == ArgMin(Loads(Assigned(p, m, n), p, n, m)) then p[n] else 0
  {
    TotalStep(p, m, n, i);
  }

  lemma LoadsAre(p: seq<nat>, m: nat, n: nat)
    requires m > 0 && n <= |p|
    ensures
      var loads := Loads(Assigned(p, m, n), p, n, m);
      |loads| == m && forall i :: 0 <= i < m ==> loads[i] == Total(p, m, n, i)
  {
    hide Assigned, Load;
  }

  lemma FillStep(p: seq<nat>, m: nat, n: nat)
    requires m > 0 && n < |p|
    ensures
      var before, t := Fill(p, m, n), ArgMin(Fill(p, m, n));
      Fill(p, m, n + 1) == before[t := before[t] + p[n]]
  {
  }

  lemma FillStepIsLoad(p: seq<nat>, m: nat, n: nat, i: nat)
    requires m > 0 && n < |p| && i < m && Loads(Assigned(p, m, n), p, n, m) == Fill(p, m, n)
    ensures Total(p, m, n + 1, i) == Fill(p, m, n + 1)[i]
  {
    hide *;
    FillStep(p, m, n);
    LoadStep(p, m, n, i);
    LoadsAre(p, m, n);
  }

  lemma NothingLoaded(p: seq<nat>, m: nat)
    requires m > 0
    ensures Loads(Assigned(p, m, 0), p, 0, m) == Fill(p, m, 0)
  {
    LoadsAre(p, m, 0);
    hide Loads;
    assert Fill(p, m, 0) == seq(m, _ => 0);
    assert forall i: nat :: i < m ==> Total(p, m, 0, i) == 0;
  }

  lemma {:induction false} FillIsLoads(p: seq<nat>, m: nat, n: nat)
    requires m > 0 && n <= |p|
    ensures Loads(Assigned(p, m, n), p, n, m) == Fill(p, m, n)
  {
    hide *;
    if n == 0 {
      NothingLoaded(p, m);
    } else {
      FillIsLoads(p, m, n - 1);
      LoadsAre(p, m, n);
      forall i: nat | i < m ensures Total(p, m, n, i) == Fill(p, m, n)[i] {
        FillStepIsLoad(p, m, n - 1, i);
      }
    }
  }

  lemma ArgMinIs(loads: seq<nat>, t: nat)
    requires t < |loads|
    requires forall k :: 0 <= k < |loads| ==> loads[t] <= loads[k]
    requires forall k :: 0 <= k < t ==> loads[t] < loads[k]
    ensures ArgMin(loads) == t
  {
    var r := ArgMin(loads);
    assert loads[r] <= loads[t] <= loads[r];
  }

  /** After `n` jobs the first `n` shards have one each. */
  ghost predicate OneEach(m: nat, n: nat, loads: seq<nat>)
    requires m > 0
  {
    |loads| == m && forall k :: 0 <= k < m ==> loads[k] == if k < n then Size(m, k) else 0
  }

  lemma OneMore(m: nat, n: nat, loads: seq<nat>)
    requires m > 0 && n < m && OneEach(m, n, loads)
    ensures ArgMin(loads) == n && OneEach(m, n + 1, loads[n := loads[n] + Size(m, n)])
  {
    assert forall k :: 0 <= k < n ==> loads[k] > 0;
    hide Size;
    ArgMinIs(loads, n);
  }

  lemma NoneYet(m: nat)
    requires m > 0
    ensures OneEach(m, 0, Fill(Worst(m), m, 0))
  {
    hide Size;
  }

  /** The first `m` jobs go to a shard each. */
  lemma {:induction false} FirstRound(m: nat, n: nat)
    requires m > 0 && n <= m
    ensures OneEach(m, n, Fill(Worst(m), m, n))
  {
    hide *;
    if n == 0 {
      NoneYet(m);
    } else {
      FirstRound(m, n - 1);
      OneMore(m, n - 1, Fill(Worst(m), m, n - 1));
      FillStep(Worst(m), m, n - 1);
    }
  }

  /** The shards with one job when `r` of them are left: of two equal ones the first is filled first. */
  predicate Single(m: nat, r: nat, k: nat) {
    if r % 2 == 0 then k < r else if r == m then k < m else k < r - 1 || k == r
  }

  function NextFull(m: nat, r: nat): nat
    requires 0 < r <= m
  {
    if r % 2 == 0 then r - 2 else if r == m then m - 1 else r
  }

  /** The second job brings a shard to 3m - 1. */
  lemma Completes(m: nat, r: nat)
    requires 0 < r <= m
    ensures NextFull(m, r) < m && Single(m, r, NextFull(m, r))
    ensures Size(m, NextFull(m, r)) + Size(m, 2 * m - r) == 3 * m - 1
  {
  }

  lemma SingleStep(m: nat, r: nat, k: nat)
    requires 0 < r <= m
    ensures Single(m, r - 1, k) <==> Single(m, r, k) && k != NextFull(m, r)
  {
    assert (r - 1) % 2 == 1 - r % 2;
  }

  lemma NextIsLeast(m: nat, r: nat, k: nat)
    requires 0 < r <= m && k < m && Single(m, r, k)
    ensures Size(m, NextFull(m, r)) <= Size(m, k)
    ensures k < NextFull(m, r) ==> Size(m, NextFull(m, r)) < Size(m, k)
  {
  }

  /** The load of shard `k` when `r` shards have one job. */
  function LoadAt(m: nat, r: nat, k: nat): nat
    requires k < m
  {
    if Single(m, r, k) then Size(m, k) else 3 * m - 1
  }

  ghost predicate Filled(m: nat, r: nat, loads: seq<nat>) {
    |loads| == m && forall k :: 0 <= k < m ==> loads[k] == LoadAt(m, r, k)
  }

  lemma LeastFilled(m: nat, r: nat, loads: seq<nat>)
    requires 0 < r <= m && Filled(m, r, loads)
    ensures ArgMin(loads) == NextFull(m, r) && loads[NextFull(m, r)] == Size(m, NextFull(m, r))
  {
    var t := NextFull(m, r);
    Completes(m, r);
    hide Single, NextFull;
    forall k | 0 <= k < m ensures loads[t] <= loads[k] && (k < t ==> loads[t] < loads[k]) {
      if Single(m, r, k) { NextIsLeast(m, r, k); }
    }
    ArgMinIs(loads, t);
  }

  lemma FilledStep(m: nat, r: nat, loads: seq<nat>)
    requires 0 < r <= m && Filled(m, r, loads)
    ensures
      var t := ArgMin(loads);
      t < m && Filled(m, r - 1, loads[t := loads[t] + Size(m, 2 * m - r)])
  {
    LeastFilled(m, r, loads);
    Completes(m, r);
    hide Single, NextFull, Size;
    forall k | 0 <= k < m ensures Single(m, r - 1, k) <==> Single(m, r, k) && k != NextFull(m, r) {
      SingleStep(m, r, k);
    }
  }

  lemma FirstFilled(m: nat, loads: seq<nat>)
    requires m > 0 && OneEach(m, m, loads)
    ensures Filled(m, m, loads)
  {
    hide Size;
  }

  lemma {:induction false} SecondRound(m: nat, r: nat)
    requires m > 0 && r <= m
    ensures Filled(m, r, Fill(Worst(m), m, 2 * m - r))
    decreases m - r
  {
    hide *;
    if r == m {
      FirstRound(m, m);
      FirstFilled(m, Fill(Worst(m), m, m));
    } else {
      var before := Fill(Worst(m), m, 2 * m - r - 1);
      SecondRound(m, r + 1);
      FilledStep(m, r + 1, before);
      FillStep(Worst(m), m, 2 * m - r - 1);
    }
  }

  lemma AllFilled(m: nat, loads: seq<nat>)
    requires m > 0 && Filled(m, 0, loads)
    ensures ArgMin(loads) == 0 && loads[0] == 3 * m - 1
  {
    assert forall k: nat :: k < m ==> !Single(m, 0, k);
    hide Single, Size;
    ArgMinIs(loads, 0);
  }

  lemma LastJob(m: nat)
    requires m > 0
    ensures Fill(Worst(m), m, 2 * m + 1)[0] == 4 * m - 1
  {
    SecondRound(m, 0);
    AllFilled(m, Fill(Worst(m), m, 2 * m));
    hide Filled, ArgMin;
  }

  lemma TotalIsFill(p: seq<nat>, m: nat, n: nat, i: nat)
    requires m > 0 && n <= |p| && i < m
    ensures Total(p, m, n, i) == Fill(p, m, n)[i]
  {
    hide Assigned, Load, Fill;
    FillIsLoads(p, m, n);
    assert Loads(Assigned(p, m, n), p, n, m)[i] == Total(p, m, n, i);
  }

  lemma PackedTotal(m: nat)
    requires m > 0
    ensures Total(Worst(m), m, 2 * m + 1, 0) == 4 * m - 1
  {
    hide *;
    LastJob(m);
    TotalIsFill(Worst(m), m, 2 * m + 1, 0);
  }

  // ----- another division

  /** Shard `i` gets jobs `i` and 2m - 3 - i, the last shard the three jobs of m. */
  function Paired(m: nat): (a: seq<nat>)
    requires m > 0
    ensures |a| == 2 * m + 1
  {
    seq(2 * m + 1, j requires 0 <= j <= 2 * m => if j < m - 1 then j else if j < 2 * m - 2 then 2 * m - 3 - j else m - 1)
  }

  lemma {:induction false} PairLoad(m: nat, n: nat, i: nat)
    requires n <= 2 * m + 1 && i < m - 1
    ensures Load(Paired(m), Worst(m), n, i) ==
      (if i < n then Size(m, i) else 0) + (if 2 * m - 3 - i < n then Size(m, 2 * m - 3 - i) else 0)
  {
    hide Size;
    if n > 0 { PairLoad(m, n - 1, i); }
  }

  lemma PairSum(m: nat, i: nat)
    requires i < m - 1
    ensures Size(m, i) + Size(m, 2 * m - 3 - i) == 3 * m
  {
  }

  lemma {:induction false} LastLoad(m: nat, n: nat)
    requires 0 < m && n <= 2 * m + 1
    ensures Load(Paired(m), Worst(m), n, m - 1) ==
      if n <= 2 * m - 2 then 0 else if n == 2 * m - 1 then m else if n == 2 * m then 2 * m else 3 * m
  {
    if n > 0 { LastLoad(m, n - 1); }
  }

  lemma PairedAtMost(m: nat)
    requires m > 0
    ensures OnMachines(Paired(m), 2 * m + 1, m) && LoadsAtMost(Paired(m), Worst(m), 2 * m + 1, m, 3 * m)
  {
    var n, a, p := 2 * m + 1, Paired(m), Worst(m);
    hide Load, Size, Worst;
    forall i: nat | i < m ensures Load(a, p, n, i) <= 3 * m {
      if i < m - 1 {
        PairLoad(m, n, i);
        PairSum(m, i);
      } else {
        LastLoad(m, n);
      }
    }
  }

  /** For every `m` there are longest-first jobs that the packing brings to 4m - 1 and another division
      keeps within 3m: exactly 4/3 - 1/(3m). */
  lemma BoundAttained(m: nat)
    requires m > 0
    ensures Descending(Worst(m))
    ensures exists opt: seq<nat> ::
      |opt| == 2 * m + 1 && OnMachines(opt, 2 * m + 1, m) && LoadsAtMost(opt, Worst(m), 2 * m + 1, m, 3 * m)
    ensures 3 * m * Total(Worst(m), m, 2 * m + 1, 0) == (4 * m - 1) * (3 * m)
  {
    WorstDescends(m);
    PackedTotal(m);
    PairedAtMost(m);
    hide Total, LoadsAtMost, OnMachines, Paired, Descending, Worst;
    var opt := Paired(m);
    assert |opt| == 2 * m + 1;
  }

  /** Specs of these durations, sorted, bring the plan's first shard to 4m - 1. */
  lemma PlanAttains(durations: map<string, nat>, m: nat)
    requires m > 0 && Sizes(LptOrder(durations), durations) == Worst(m)
    ensures |Plan(durations, m)| == m && Plan(durations, m)[0].estimatedMs == 4 * m - 1
  {
    PlanLength(durations, m);
    PlanShape(durations, m, 0);
    PackedTotal(m);
  }
}
