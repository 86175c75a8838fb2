/** The choice of specs told from the records alone: exactly which specs a set of changed lines
    selects. */
module ImpactChoice {
  import opened Collections
  import opened ImpactRecords
  import opened ImpactAggregation
  import opened ImpactMap

  // ----- what the records say

  /** Some test ran the function. */
  ghost predicate Recorded(tests: map<TestId, Record>, p: Path, range: Range) {
    exists t :: t in tests && Ran(tests[t], p, range)
  }

  ghost predicate RanBy(tests: map<TestId, Record>, p: Path, range: Range, s: Spec) {
    exists t :: t in tests && Ran(tests[t], p, range) && tests[t].spec == s
  }

  ghost predicate RanByAll(tests: map<TestId, Record>, p: Path, range: Range) {
    forall t :: t in tests && Counted(tests[t]) ==> Ran(tests[t], p, range)
  }

  ghost predicate TouchedBy(tests: map<TestId, Record>, p: Path, s: Spec) {
    exists t :: t in tests && Touches(tests[t], p) && tests[t].spec == s
  }

  /** The shortest recorded function around the line, the later-starting one of two. */
  ghost predicate InnermostRecorded(tests: map<TestId, Record>, p: Path, range: Range, line: int) {
    && Recorded(tests, p, range) && range.start <= line <= range.end
    && forall other :: Recorded(tests, p, other) && other.start <= line <= other.end && other != range ==>
         range.end - range.start < other.end - other.start ||
         (range.end - range.start == other.end - other.start && range.start > other.start)
  }

  ghost predicate Outside(tests: map<TestId, Record>, p: Path, line: int) {
    forall range :: Recorded(tests, p, range) ==> !(range.start <= line <= range.end)
  }

  /** A test of the spec ran some function of the file that not every counted test ran. */
  ghost predicate LocalBy(tests: map<TestId, Record>, p: Path, s: Spec) {
    exists range :: RanBy(tests, p, range, s) && !RanByAll(tests, p, range)
  }

  ghost predicate SomeLocal(tests: map<TestId, Record>, p: Path) {
    exists s :: LocalBy(tests, p, s)
  }

  /** A line inside a function selects who ran the innermost one, or everyone who touched the file if
      all tests ran it; a line outside selects who ran any function that not all ran, or everyone who
      touched the file if there is none. */
  ghost predicate Selects(tests: map<TestId, Record>, p: Path, line: int, s: Spec) {
    || (exists range :: InnermostRecorded(tests, p, range, line) &&
         if RanByAll(tests, p, range) then TouchedBy(tests, p, s) else RanBy(tests, p, range, s))
    || (Outside(tests, p, line) && if SomeLocal(tests, p) then LocalBy(tests, p, s) else TouchedBy(tests, p, s))
  }

  /** The line runs in every test, or nothing narrows it down. */
  ghost predicate Shares(tests: map<TestId, Record>, p: Path, line: int) {
    || (exists range :: InnermostRecorded(tests, p, range, line) && RanByAll(tests, p, range))
    || (Outside(tests, p, line) && !SomeLocal(tests, p) && exists s :: TouchedBy(tests, p, s))
  }

  // ----- the aggregate says the same

  lemma FunctionsAre(tests: map<TestId, Record>, p: Path, range: Range)
    ensures range in Functions(TotalOf(tests), p) <==> Recorded(tests, p, range)
    ensures range in Functions(TotalOf(tests), p) ==>
      && (IsGlobal(TotalOf(tests), p, range) <==> RanByAll(tests, p, range))
      && forall s :: s in Functions(TotalOf(tests), p)[range].specs <==> RanBy(tests, p, range, s)
  {
    TotalDescribes(tests);
    var b := TotalOf(tests);
    if p in b.files && range in b.files[p].functions { GlobalIffAllRan(tests, p, range); }
    hide TotalOf, IsGlobal, Ran, Counted;
    if t :| t in tests && Ran(tests[t], p, range) { assert t in TestsThatRan(tests, p, range); }
    forall s | range in Functions(b, p) ensures s in Functions(b, p)[range].specs <==> RanBy(tests, p, range, s) {
      if t :| t in tests && Ran(tests[t], p, range) && tests[t].spec == s { assert t in TestsThatRan(tests, p, range); }
    }
  }

  lemma LoadedIs(tests: map<TestId, Record>, p: Path, s: Spec)
    ensures s in LoadedBy(TotalOf(tests), p) <==> TouchedBy(tests, p, s)
  {
    TotalDescribes(tests);
    hide TotalOf, Touches;
    assert DescribesFile(TotalOf(tests), tests, p);
    if t :| t in tests && Touches(tests[t], p) && tests[t].spec == s {
      assert s in SpecsThatTouched(tests, p);
    }
  }

  lemma LocalIs(tests: map<TestId, Record>, p: Path, s: Spec)
    ensures s in Local(TotalOf(tests), p) <==> LocalBy(tests, p, s)
  {
    var b := TotalOf(tests);
    forall range ensures range in Functions(b, p) <==> Recorded(tests, p, range)
      ensures range in Functions(b, p) ==> (IsGlobal(b, p, range) <==> RanByAll(tests, p, range))
      ensures range in Functions(b, p) ==> (s in Functions(b, p)[range].specs <==> RanBy(tests, p, range, s))
    {
      FunctionsAre(tests, p, range);
    }
    forall range | RanBy(tests, p, range, s) ensures Recorded(tests, p, range) {
    }
    hide TotalOf, IsGlobal, RanBy, RanByAll, Recorded, Functions;
    assert s in Local(b, p) <==> exists range :: range in Functions(b, p) && !IsGlobal(b, p, range) && s in Functions(b, p)[range].specs;
  }
  lemma InnermostIs(tests: map<TestId, Record>, p: Path, range: Range, line: int)
    ensures Innermost(Functions(TotalOf(tests), p).Keys, range, line) <==> InnermostRecorded(tests, p, range, line)
  {
    var ranges := Functions(TotalOf(tests), p).Keys;
    forall other ensures other in ranges <==> Recorded(tests, p, other) {
      FunctionsAre(tests, p, other);
    }
    hide TotalOf, Recorded, Functions;
  }

  /** Of the functions around a line one is innermost. */
  lemma {:induction false} InnermostExists(ranges: set<Range>, line: int) returns (r: Option<Range>)
    ensures r.Some? ==> Innermost(ranges, r.value, line)
    ensures r.None? ==> forall range :: range in ranges ==> !Contains(range, line)
    decreases |ranges|
  {
    r := None;
    if ranges != {} {
      var range :| range in ranges;
      r := InnermostExists(ranges - {range}, line);
      if Contains(range, line) && (r.None? || Inner(range, r.value)) { r := Some(range); }
    }
  }

  // ----- one line

  lemma InsideSelects(tests: map<TestId, Record>, p: Path, line: int, range: Range, s: Spec)
    requires Innermost(Functions(TotalOf(tests), p).Keys, range, line)
    ensures s in ForLine(TotalOf(tests), p, line).specs <==> Selects(tests, p, line, s)
    ensures ForLine(TotalOf(tests), p, line).shared <==> Shares(tests, p, line)
  {
    var b := TotalOf(tests);
    forall other ensures Innermost(Functions(b, p).Keys, other, line) <==> InnermostRecorded(tests, p, other, line) {
      InnermostIs(tests, p, other, line);
    }
    forall other | Innermost(Functions(b, p).Keys, other, line) ensures other == range {
      InnermostUnique(Functions(b, p).Keys, other, range, line);
    }
    FunctionsAre(tests, p, range);
    LoadedIs(tests, p, s);
    assert !Outside(tests, p, line);
    hide TotalOf, Functions, LoadedBy, Local, IsGlobal, RanBy, RanByAll, Recorded, Innermost, InnermostRecorded, Outside, TouchedBy;
  }

  lemma OutsideSelects(tests: map<TestId, Record>, p: Path, line: int, s: Spec)
    requires forall range :: !Innermost(Functions(TotalOf(tests), p).Keys, range, line)
    ensures s in ForLine(TotalOf(tests), p, line).specs <==> Selects(tests, p, line, s)
    ensures ForLine(TotalOf(tests), p, line).shared <==> Shares(tests, p, line)
  {
    var b := TotalOf(tests);
    var inner := InnermostExists(Functions(b, p).Keys, line);
    forall range ensures range in Functions(b, p) <==> Recorded(tests, p, range)
      ensures !InnermostRecorded(tests, p, range, line)
    {
      FunctionsAre(tests, p, range);
      InnermostIs(tests, p, range, line);
    }
    forall s ensures (s in Local(b, p) <==> LocalBy(tests, p, s)) && (s in LoadedBy(b, p) <==> TouchedBy(tests, p, s)) {
      LocalIs(tests, p, s);
      LoadedIs(tests, p, s);
    }
    assert Outside(tests, p, line);
    hide TotalOf, Functions, LoadedBy, Local, IsGlobal, RanBy, RanByAll, Recorded, Innermost, InnermostRecorded, Outside, TouchedBy, LocalBy;
    assert SomeLocal(tests, p) <==> Local(b, p) != {};
    assert (exists s :: TouchedBy(tests, p, s)) <==> LoadedBy(b, p) != {};
  }

  lemma LineSelects(tests: map<TestId, Record>, p: Path, line: int, s: Spec)
    ensures s in ForLine(TotalOf(tests), p, line).specs <==> Selects(tests, p, line, s)
    ensures ForLine(TotalOf(tests), p, line).shared <==> Shares(tests, p, line)
  {
    hide *;
    if range :| Innermost(Functions(TotalOf(tests), p).Keys, range, line) {
      InsideSelects(tests, p, line, range, s);
    } else {
      OutsideSelects(tests, p, line, s);
    }
  }

  // ----- the whole choice

  /** Exactly the specs that the records call for are selected, whatever the lines. */
  lemma SelectedIff(tests: map<TestId, Record>, p: Path, lines: set<int>, s: Spec)
    ensures s in ForLines(TotalOf(tests), p, lines).specs <==> exists line :: line in lines && Selects(tests, p, line, s)
  {
    var b := TotalOf(tests);
    hide TotalOf, ForLine, Selects;
    forall line ensures s in ForLine(b, p, line).specs <==> Selects(tests, p, line, s) {
      LineSelects(tests, p, line, s);
    }
  }

  lemma SharedIff(tests: map<TestId, Record>, p: Path, lines: set<int>)
    ensures ForLines(TotalOf(tests), p, lines).shared <==> exists line :: line in lines && Shares(tests, p, line)
  {
    var b := TotalOf(tests);
    hide TotalOf, ForLine, Shares;
    forall line ensures ForLine(b, p, line).shared <==> Shares(tests, p, line) {
      LineSelects(tests, p, line, "");
    }
  }

  /** From the raw records of all shards to the choice: the merged maps select exactly what the last
      records of the tests call for. */
  lemma MergedSelectsIff(product: string, commit: string, all: seq<Record>, shards: seq<seq<Record>>,
                         p: Path, lines: set<int>, s: Spec)
    requires shards != [] && Interleaves(all, shards) && DisjointTests(shards)
    ensures
      var merged := MergeResult(StoredShards(product, commit, Aggregates(shards)));
      && merged.Some?
      && (s in ForLines(merged.value.body, p, lines).specs <==> exists line :: line in lines && Selects(Latest(all), p, line, s))
      && (ForLines(merged.value.body, p, lines).shared <==> exists line :: line in lines && Shares(Latest(all), p, line))
  {
    MergeOfStoredShards(product, commit, all, shards);
    hide *;
    SelectedIff(Latest(all), p, lines, s);
    SharedIff(Latest(all), p, lines);
  }
}
