/** Loads of machines under an assignment of weighted jobs, and the step of list
    scheduling from which the bounds of the shard planner follow.

    A job is an index into `w` (its weight) and into `a` (its machine); only the
    first `n` jobs count, so that a prefix of a schedule needs no slicing. */
module GreedyLoads {
  import opened Numbers

  function Sum(w: seq<nat>, n: nat): nat
    requires n <= |w|
  {
    if n == 0 then 0 else Sum(w, n - 1) + w[n - 1]
  }

  /** The weight that the first `n` jobs put on machine `i`. */
  function Load(a: seq<nat>, w: seq<nat>, n: nat, i: nat): nat
    requires n <= |a| && n <= |w|
  {
    if n == 0 then 0
    else Load(a, w, n - 1, i) + if a[n - 1] == i then w[n - 1] else 0
  }

  ghost predicate OnMachines(a: seq<nat>, n: nat, m: nat)
    requires n <= |a|
  {
    forall j :: 0 <= j < n ==> a[j] < m
  }

  ghost predicate LoadsAtLeast(a: seq<nat>, w: seq<nat>, n: nat, m: nat, c: nat)
    requires n <= |a| && n <= |w|
  {
    forall i :: 0 <= i < m ==> c <= Load(a, w, n, i)
  }

  ghost predicate LoadsAtMost(a: seq<nat>, w: seq<nat>, n: nat, m: nat, c: nat)
    requires n <= |a| && n <= |w|
  {
    forall i :: 0 <= i < m ==> Load(a, w, n, i) <= c
  }

  ghost predicate Descending(p: seq<nat>) {
    forall i, j :: 0 <= i <= j < |p| ==> p[j] <= p[i]
  }

  /** The weight on machines 0 .. m - 1 together. */
  ghost function LoadSum(a: seq<nat>, w: seq<nat>, n: nat, m: nat): nat
    requires n <= |a| && n <= |w|
  {
    if m == 0 then 0 else LoadSum(a, w, n, m - 1) + Load(a, w, n, m - 1)
  }

  lemma {:induction false} LoadSumOneMore(a: seq<nat>, w: seq<nat>, n: nat, m: nat)
    requires 0 < n <= |a| && n <= |w|
    ensures LoadSum(a, w, n, m) == LoadSum(a, w, n - 1, m) + if a[n - 1] < m then w[n - 1] else 0
  {
    if m > 0 { LoadSumOneMore(a, w, n, m - 1); }
  }

  /** No weight is lost or counted twice. */
  lemma {:induction false} LoadsAddUp(a: seq<nat>, w: seq<nat>, n: nat, m: nat)
    requires n <= |a| && n <= |w| && OnMachines(a, n, m)
    ensures LoadSum(a, w, n, m) == Sum(w, n)
  {
    if n == 0 {
      NoJobsNoLoad(a, w, m);
    } else {
      LoadsAddUp(a, w, n - 1, m);
      LoadSumOneMore(a, w, n, m);
    }
  }

  lemma {:induction false} NoJobsNoLoad(a: seq<nat>, w: seq<nat>, m: nat)
    ensures LoadSum(a, w, 0, m) == 0
  {
    if m > 0 { NoJobsNoLoad(a, w, m - 1); }
  }

  lemma {:induction false} LoadSumAtLeast(a: seq<nat>, w: seq<nat>, n: nat, m: nat, c: nat)
    requires n <= |a| && n <= |w|
    requires LoadsAtLeast(a, w, n, m, c)
    ensures m * c <= LoadSum(a, w, n, m)
  {
    if m > 0 { LoadSumAtLeast(a, w, n, m - 1, c); }
  }

  lemma {:induction false} LoadSumAtMost(a: seq<nat>, w: seq<nat>, n: nat, m: nat, c: nat)
    requires n <= |a| && n <= |w|
    requires LoadsAtMost(a, w, n, m, c)
    ensures LoadSum(a, w, n, m) <= m * c
  {
    if m > 0 { LoadSumAtMost(a, w, n, m - 1, c); }
  }

  /** Pigeonhole, downwards: some machine carries at most `c`. */
  lemma SomeLoadAtMost(a: seq<nat>, w: seq<nat>, n: nat, m: nat, c: nat) returns (i: nat)
    requires n <= |a| && n <= |w| && OnMachines(a, n, m)
    requires Sum(w, n) < m * (c + 1)
    ensures i < m && Load(a, w, n, i) <= c
  {
    if LoadsAtLeast(a, w, n, m, c + 1) {
      LoadsAddUp(a, w, n, m);
      LoadSumAtLeast(a, w, n, m, c + 1);
      assert false;
    } else {
      i :| 0 <= i < m && Load(a, w, n, i) < c + 1;
    }
  }

  /** Pigeonhole, upwards: some machine carries more than `c`. */
  lemma SomeLoadAbove(a: seq<nat>, w: seq<nat>, n: nat, m: nat, c: nat) returns (i: nat)
    requires n <= |a| && n <= |w| && OnMachines(a, n, m)
    requires Sum(w, n) > m * c
    ensures i < m && Load(a, w, n, i) > c
  {
    if LoadsAtMost(a, w, n, m, c) {
      LoadsAddUp(a, w, n, m);
      LoadSumAtMost(a, w, n, m, c);
      assert false;
    } else {
      i :| 0 <= i < m && Load(a, w, n, i) > c;
    }
  }

  lemma {:induction false} LoadMonotone(a: seq<nat>, w: seq<nat>, n: nat, n': nat, i: nat)
    requires n <= n' <= |a| && n' <= |w|
    ensures Load(a, w, n, i) <= Load(a, w, n', i)
  {
    if n < n' { LoadMonotone(a, w, n, n' - 1, i); }
  }

  /** Only the first `n` entries matter. */
  lemma {:induction false} LoadFrame(a: seq<nat>, a': seq<nat>, w: seq<nat>, w': seq<nat>, n: nat, i: nat)
    requires n <= |a| && n <= |a'| && n <= |w| && n <= |w'|
    requires a[..n] == a'[..n] && w[..n] == w'[..n]
    ensures Load(a, w, n, i) == Load(a', w', n, i)
  {
    if n > 0 {
      assert a[n - 1] == a[..n][n - 1] == a'[n - 1] && w[n - 1] == w[..n][n - 1] == w'[n - 1];
      assert a[..n - 1] == a[..n][..n - 1] && a'[..n - 1] == a'[..n][..n - 1];
      assert w[..n - 1] == w[..n][..n - 1] && w'[..n - 1] == w'[..n][..n - 1];
      LoadFrame(a, a', w, w', n - 1, i);
    }
  }

  // ----- the two weightings behind the 4/3 bound

  /** Weight 2 for the first `k` jobs, 1 for the others. */
  ghost function TwoOne(n: nat, k: nat): seq<nat> {
    seq(n, j => if j < k then 2 else 1)
  }

  lemma {:induction false} TwoOneSum(n: nat, k: nat, t: nat)
    requires t <= n
    ensures Sum(TwoOne(n, k), t) == t + if t < k then t else k
  {
    if t > 0 { TwoOneSum(n, k, t - 1); }
  }

  /** A machine of weight at most 1 holds at most one job, and a late one. */
  lemma {:induction false} LightMachine(a: seq<nat>, p: seq<nat>, k: nat, n: nat, t: nat, i: nat)
    requires t <= n <= |a| && n <= |p| && Descending(p) && k < |p|
    requires Load(a, TwoOne(n, k), t, i) <= 1
    ensures Load(a, p, t, i) <= if Load(a, TwoOne(n, k), t, i) == 0 then 0 else p[k]
  {
    if t > 0 { LightMachine(a, p, k, n, t - 1, i); }
  }

  /** A lower bound on the load of a machine of weight `v`, when the first `k` jobs
      have size at least `big` and all of them at least `small`. */
  ghost function HeavyAtLeast(v: nat, big: nat, small: nat): nat {
    if v == 0 then 0
    else if v == 1 then small
    else if v == 2 then Min(big, 2 * small)
    else Min(big + small, 3 * small)
  }

  lemma {:induction false} HeavyMachine(a: seq<nat>, p: seq<nat>, k: nat, n: nat, t: nat, i: nat)
    requires t <= n <= |a| && n <= |p| && Descending(p) && 0 < k <= n
    ensures Load(a, p, t, i) >= HeavyAtLeast(Load(a, TwoOne(n, k), t, i), p[k - 1], p[n - 1])
  {
    if t > 0 { HeavyMachine(a, p, k, n, t - 1, i); }
  }

  /** When the job to place is longer than a third of the optimum, the least loaded
      machine still takes it within the optimum. `n` is the number of jobs up to and
      including the one to place. */
  lemma LongJobFits(p: seq<nat>, a: seq<nat>, opt: seq<nat>, n: nat, m: nat, least: nat, best: nat)
    requires 0 < n <= |p| && Descending(p) && 0 < m
    requires n - 1 <= |a| && OnMachines(a, n - 1, m)
    requires n <= |opt| && OnMachines(opt, n, m)
    requires LoadsAtLeast(a, p, n - 1, m, least)
    requires LoadsAtMost(opt, p, n, m, best)
    requires best < 3 * p[n - 1]
    ensures least + p[n - 1] <= best
  {
    if n <= m {
      var i := SomeLoadAtMost(a, TwoOne(n - 1, 0), n - 1, m, 0) by { TwoOneSum(n - 1, 0, n - 1); }
      LightMachine(a, p, 0, n - 1, n - 1, i);
      LastJobCounts(opt, p, n);
    } else {
      // No machine of the optimum holds three jobs.
      if n > 2 * m {
        TwoOneSum(n, 0, n);
        var i := SomeLoadAbove(opt, TwoOne(n, 0), n, m, 2);
        HeavyMachine0(opt, p, n, n, i);
        assert false;
      }
      var k := 2 * m - n + 1;
      TwoOneSum(n, k, n);
      var i := SomeLoadAbove(opt, TwoOne(n, k), n, m, 2);
      HeavyMachine(opt, p, k, n, n, i);
      assert p[k - 1] + p[n - 1] <= best;
      TwoOneSum(n - 1, k - 1, n - 1);
      var i' := SomeLoadAtMost(a, TwoOne(n - 1, k - 1), n - 1, m, 1);
      LightMachine(a, p, k - 1, n - 1, n - 1, i');
    }
  }

  lemma {:induction false} HeavyMachine0(a: seq<nat>, p: seq<nat>, n: nat, t: nat, i: nat)
    requires t <= n <= |a| && 0 < n <= |p| && Descending(p)
    ensures Load(a, p, t, i) >= p[n - 1] * Load(a, TwoOne(n, 0), t, i)
  {
    if t > 0 { HeavyMachine0(a, p, n, t - 1, i); }
  }

  lemma LastJobCounts(a: seq<nat>, p: seq<nat>, n: nat)
    requires 0 < n <= |a| && n <= |p|
    ensures p[n - 1] <= Load(a, p, n, a[n - 1])
  {
  }

  /** `total` is within 4/3 - 1/(3m) of `best`. */
  predicate FourThirds(m: nat, total: nat, best: nat) {
    3 * m * total <= (4 * m - 1) * best
  }

  /** Graham's bound for one step: placing a job of a longest-first list on a least
      loaded machine keeps that machine within 4/3 - 1/(3m) of any other schedule. */
  lemma GreedyStep(p: seq<nat>, a: seq<nat>, opt: seq<nat>, n: nat, m: nat, least: nat, best: nat)
    requires 0 < n <= |p| && Descending(p) && 0 < m
    requires n - 1 <= |a| && OnMachines(a, n - 1, m)
    requires n <= |opt| && OnMachines(opt, n, m)
    requires LoadsAtLeast(a, p, n - 1, m, least)
    requires LoadsAtMost(opt, p, n, m, best)
    ensures FourThirds(m, least + p[n - 1], best)
  {
    var size := p[n - 1];
    if best < 3 * size {
      LongJobFits(p, a, opt, n, m, least, best);
      LongJobArithmetic(m, least + size, best);
    } else {
      LoadsAddUp(a, p, n - 1, m);
      LoadSumAtLeast(a, p, n - 1, m, least);
      LoadsAddUp(opt, p, n, m);
      LoadSumAtMost(opt, p, n, m, best);
      ShortJobArithmetic(m, least, size, best);
    }
  }

  lemma LongJobArithmetic(m: nat, total: nat, best: nat)
    requires 0 < m && total <= best
    ensures 3 * m * total <= (4 * m - 1) * best
  {
    assert (3 * m) * total <= (3 * m) * best;
    assert (4 * m - 1) * best == (3 * m) * best + (m - 1) * best;
  }

  lemma ShortJobArithmetic(m: nat, least: nat, size: nat, best: nat)
    requires 0 < m && 3 * size <= best && m * least + size <= m * best
    ensures 3 * m * (least + size) <= (4 * m - 1) * best
  {
    ProductNonNegative(m - 1, best - 3 * size);
    ShortJobExpansion(m, least, size, best);
  }

  lemma ProductMonotone(x: nat, y: nat, k: nat)
    requires x <= y
    ensures x * k <= y * k
  {
  }

  lemma ProductNonNegative(x: nat, y: nat)
    ensures 0 <= x * y
  {
  }

  lemma ShortJobExpansion(m: int, least: int, size: int, best: int)
    ensures 3 * m * (least + size) == 3 * (m * least) + 3 * (m * size)
    ensures (4 * m - 1) * best == 4 * (m * best) - best
    ensures (m - 1) * (best - 3 * size) == m * best - 3 * (m * size) - best + 3 * size
  {
  }
}
