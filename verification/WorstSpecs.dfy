/** Specs whose plan attains the 4/3 - 1/(3m) bound. */
module WorstSpecs {
  import opened GreedyLoads
  import opened Ordering
  import opened ShardBound
  import opened ShardPlan

  function NameOf(j: nat): string {
    seq(j + 1, _ => 'a')
  }

  lemma {:induction false} NamesAscend(i: nat, j: nat)
    requires i < j
    ensures NameLess(NameOf(i), NameOf(j))
  {
    assert NameOf(j)[1..] == NameOf(j - 1);
    if i > 0 {
      assert NameOf(i)[1..] == NameOf(i - 1);
      NamesAscend(i - 1, j - 1);
    } else {
      assert NameOf(i)[1..] == "" != NameOf(j - 1);
    }
  }

  /** Named longest first. */
  function Names(m: nat): (order: seq<string>) {
    seq(2 * m + 1, j requires 0 <= j <= 2 * m => NameOf(j))
  }

  function SpecsOf(m: nat): map<string, nat>
    requires m > 0
  {
    map s | s in Names(m) :: Size(m, |s| - 1)
  }

  lemma NamesAre(m: nat, s: string)
    ensures s in Names(m) <==> exists j: nat :: j <= 2 * m && s == NameOf(j)
  {
    if j: nat :| j <= 2 * m && s == NameOf(j) {
      assert Names(m)[j] == s;
    }
  }

  lemma LongerNotSooner(m: nat, i: nat, j: nat)
    requires m > 0 && i < j <= 2 * m
    ensures LongestFirst(SpecsOf(m)).Less(NameOf(i), NameOf(j))
  {
    NamesAre(m, NameOf(i));
    NamesAre(m, NameOf(j));
    hide Names;
    NamesAscend(i, j);
  }

  lemma OrderIs(m: nat)
    requires m > 0
    ensures LptOrder(SpecsOf(m)) == Names(m)
  {
    var o := LongestFirst(SpecsOf(m));
    forall i, j | 0 <= i < j < |Names(m)| ensures o.Less(Names(m)[i], Names(m)[j]) {
      LongerNotSooner(m, i, j);
    }
    o.ListingUnique(LptOrder(SpecsOf(m)), Names(m), SpecsOf(m).Keys);
  }

  lemma SpecAt(m: nat, j: nat)
    requires m > 0 && j <= 2 * m
    ensures Names(m)[j] == NameOf(j) && NameOf(j) in SpecsOf(m) && SpecsOf(m)[NameOf(j)] == Size(m, j)
  {
    assert Names(m)[j] == NameOf(j);
  }

  lemma SizesAre(m: nat)
    requires m > 0
    ensures Sizes(LptOrder(SpecsOf(m)), SpecsOf(m)) == Worst(m)
  {
    OrderIs(m);
    assert |Names(m)| == 2 * m + 1;
    hide Names, SpecsOf, NameOf, LptOrder, Size;
    var p := Sizes(LptOrder(SpecsOf(m)), SpecsOf(m));
    forall j: nat | j <= 2 * m ensures p[j] == Worst(m)[j] {
      SpecAt(m, j);
    }
  }

  /** The specs that another division keeps within 3m. */
  function Division(m: nat): map<string, nat>
    requires m > 0
  {
    map s | s in SpecsOf(m) && |s| <= 2 * m + 1 :: Paired(m)[|s| - 1]
  }

  lemma DivisionIs(m: nat, j: nat)
    requires m > 0 && j <= 2 * m
    ensures NameOf(j) in Division(m) && Division(m)[NameOf(j)] == Paired(m)[j]
  {
    assert Names(m)[j] == NameOf(j);
  }

  lemma DivisionTotal(m: nat, k: nat)
    requires m > 0 && SpecsOf(m).Keys <= Division(m).Keys
    ensures RivalTotal(SpecsOf(m), Division(m), k) == Load(Paired(m), Worst(m), 2 * m + 1, k)
  {
    OrderIs(m);
    SizesAre(m);
    assert |Names(m)| == 2 * m + 1;
    hide Names, NameOf, SpecsOf, Division, Paired, Worst, Load, LptOrder;
    forall j: nat | j <= 2 * m ensures Division(m)[Names(m)[j]] == Paired(m)[j] {
      SpecAt(m, j);
      DivisionIs(m, j);
    }
    RivalTotalIs(Names(m), SpecsOf(m), Paired(m), Division(m), k);
  }

  lemma DivisionIsRival(m: nat)
    requires m > 0
    ensures IsRival(SpecsOf(m), Division(m), m, 3 * m)
  {
    forall s | s in SpecsOf(m) ensures s in Division(m) && Division(m)[s] < m {
      NamesAre(m, s);
      var j: nat :| j <= 2 * m && s == NameOf(j);
      DivisionIs(m, j);
    }
    PairedAtMost(m);
    hide SpecsOf, Division, Paired, Worst;
    forall k: nat | k < m ensures RivalTotal(SpecsOf(m), Division(m), k) <= 3 * m {
      DivisionTotal(m, k);
    }
  }

  /** For every number of shards there are specs whose plan has a shard of exactly 4/3 - 1/(3m) times
      what another division keeps every shard within. */
  lemma PlanBoundAttained(m: nat)
    requires m > 0
    ensures |Plan(SpecsOf(m), m)| == m && Plan(SpecsOf(m), m)[0].estimatedMs == 4 * m - 1
    ensures IsRival(SpecsOf(m), Division(m), m, 3 * m)
    ensures 3 * m * Plan(SpecsOf(m), m)[0].estimatedMs == (4 * m - 1) * (3 * m)
  {
    hide *;
    SizesAre(m);
    PlanAttains(SpecsOf(m), m);
    DivisionIsRival(m);
  }
}
