/** What an aggregate says about the records, and the loops that build it. */
module ImpactAggregation {
  import opened Collections
  import opened MapSums
  import opened ImpactRecords

  const MAP_VERSION := 1

  // ----- the meaning of an aggregate

  /** A test that recorded no loaded file is left out of the coverage counts. */
  predicate Counted(r: Record) {
    r.loaded != {}
  }

  predicate Touches(r: Record, p: Path) {
    Counted(r) && (p in r.loaded || p in r.executed)
  }

  predicate Ran(r: Record, p: Path, range: Range) {
    Counted(r) && p in r.executed && range in r.executed[p]
  }

  function CountedTests(tests: map<TestId, Record>): set<TestId> {
    set t | t in tests && Counted(tests[t])
  }

  function TestsThatRan(tests: map<TestId, Record>, p: Path, range: Range): set<TestId> {
    set t | t in tests && Ran(tests[t], p, range)
  }

  function SpecsThatTouched(tests: map<TestId, Record>, p: Path): set<Spec> {
    set t | t in tests && Touches(tests[t], p) :: tests[t].spec
  }

  ghost predicate DescribesFile(b: Body, tests: map<TestId, Record>, p: Path) {
    && (p in b.files <==> SpecsThatTouched(tests, p) != {})
    && (p in b.files ==> b.files[p].loadedBy == SpecsThatTouched(tests, p))
  }

  ghost predicate DescribesFiles(b: Body, tests: map<TestId, Record>) {
    forall p :: DescribesFile(b, tests, p)
  }

  ghost predicate DescribesFunctions(b: Body, tests: map<TestId, Record>) {
    && (forall p, range :: p in b.files && range in b.files[p].functions <==> TestsThatRan(tests, p, range) != {})
    && (forall p, range, s :: p in b.files && range in b.files[p].functions ==>
         (s in b.files[p].functions[range].specs <==> exists t :: t in TestsThatRan(tests, p, range) && tests[t].spec == s))
    && forall p, range :: p in b.files && range in b.files[p].functions ==>
         b.files[p].functions[range].tests == |TestsThatRan(tests, p, range)|
  }

  // ----- the durations

  function Durations(tests: map<TestId, Record>): map<TestId, nat> {
    map t | t in tests :: tests[t].durationMs
  }

  function TestsOf(tests: map<TestId, Record>, s: Spec): set<TestId> {
    set t | t in tests && tests[t].spec == s
  }

  /** The tests that a pull request runs too. */
  function PrTestsOf(tests: map<TestId, Record>, s: Spec): set<TestId> {
    set t | t in tests && tests[t].spec == s && tests[t].prScope
  }

  /** What the records say of a spec: its tests and the sum of their durations, for all of them and for
      those that a pull request runs; tests that loaded no file count as well. */
  ghost function EntryFor(tests: map<TestId, Record>, s: Spec): SpecEntry {
    SpecEntry(SetSum(TestsOf(tests, s), Durations(tests)), |TestsOf(tests, s)|,
              SetSum(PrTestsOf(tests, s), Durations(tests)), |PrTestsOf(tests, s)|)
  }

  ghost predicate DescribesSpec(b: Body, tests: map<TestId, Record>, s: Spec) {
    && (s in b.specs <==> TestsOf(tests, s) != {})
    && (s in b.specs ==> b.specs[s] == EntryFor(tests, s))
  }

  lemma SpecTestsStep(tests: map<TestId, Record>, t: TestId, r: Record, s: Spec)
    requires t !in tests
    ensures
      var tests' := tests[t := r];
      && TestsOf(tests', s) == TestsOf(tests, s) + (if r.spec == s then {t} else {})
      && PrTestsOf(tests', s) == PrTestsOf(tests, s) + (if r.spec == s && r.prScope then {t} else {})
      && t !in TestsOf(tests, s) && t !in PrTestsOf(tests, s)
      && Durations(tests') == Durations(tests)[t := r.durationMs]
  {
  }

  lemma PlusSpecs(r: Record, b: Body, s: Spec)
    ensures s in Plus(Single(r), b).specs <==> s == r.spec || s in b.specs
    ensures s in Plus(Single(r), b).specs ==>
      Plus(Single(r), b).specs[s] ==
        if s != r.spec then b.specs[s] else if s in b.specs then AddEntry(EntryOf(r), b.specs[s]) else EntryOf(r)
  {
  }

  /** A sum and a count with one more test, or none. */
  lemma OneMore(before: set<TestId>, after: set<TestId>, d: map<TestId, nat>, t: TestId, ms: nat, added: bool)
    requires before <= d.Keys && t !in before && after == before + if added then {t} else {}
    ensures after <= d[t := ms].Keys
    ensures SetSum(after, d[t := ms]) == SetSum(before, d) + if added then ms else 0
    ensures |after| == |before| + if added then 1 else 0
  {
    hide SetSum;
    SetSumFrame(before, d, d[t := ms]);
    if added {
      SetSumAdd(before, d[t := ms], t);
    } else {
      assert after == before;
    }
  }

  lemma TestsStep(tests: map<TestId, Record>, t: TestId, r: Record, s: Spec)
    requires t !in tests
    ensures
      var tests', added := tests[t := r], r.spec == s;
      && SetSum(TestsOf(tests', s), Durations(tests')) == SetSum(TestsOf(tests, s), Durations(tests)) + (if added then r.durationMs else 0)
      && |TestsOf(tests', s)| == |TestsOf(tests, s)| + if added then 1 else 0
  {
    SpecTestsStep(tests, t, r, s);
    hide *;
    NoTests(tests, s);
    OneMore(TestsOf(tests, s), TestsOf(tests[t := r], s), Durations(tests), t, r.durationMs, r.spec == s);
  }

  lemma PrTestsStep(tests: map<TestId, Record>, t: TestId, r: Record, s: Spec)
    requires t !in tests
    ensures
      var tests', added := tests[t := r], r.spec == s && r.prScope;
      && SetSum(PrTestsOf(tests', s), Durations(tests')) == SetSum(PrTestsOf(tests, s), Durations(tests)) + (if added then r.durationMs else 0)
      && |PrTestsOf(tests', s)| == |PrTestsOf(tests, s)| + if added then 1 else 0
  {
    SpecTestsStep(tests, t, r, s);
    hide *;
    NoTests(tests, s);
    OneMore(PrTestsOf(tests, s), PrTestsOf(tests[t := r], s), Durations(tests), t, r.durationMs, r.spec == s && r.prScope);
  }

  lemma EntryStep(tests: map<TestId, Record>, t: TestId, r: Record, s: Spec)
    requires t !in tests
    ensures EntryFor(tests[t := r], s) == if r.spec == s then AddEntry(EntryOf(r), EntryFor(tests, s)) else EntryFor(tests, s)
  {
    hide TestsOf, PrTestsOf, Durations, SetSum;
    TestsStep(tests, t, r, s);
    PrTestsStep(tests, t, r, s);
  }

  lemma DescribesSpecStep(b: Body, tests: map<TestId, Record>, t: TestId, r: Record, s: Spec)
    requires DescribesSpec(b, tests, s) && t !in tests
    ensures DescribesSpec(Plus(Single(r), b), tests[t := r], s)
  {
    SpecTestsStep(tests, t, r, s);
    PlusSpecs(r, b, s);
    EntryStep(tests, t, r, s);
    EntryOfNone(tests, s);
    hide Plus, Single, TestsOf, EntryFor, PrTestsOf, Durations;
  }

  lemma EntryOfNone(tests: map<TestId, Record>, s: Spec)
    ensures TestsOf(tests, s) == {} ==> EntryFor(tests, s) == SpecEntry(0, 0, 0, 0)
  {
    NoTests(tests, s);
    hide TestsOf, PrTestsOf, Durations, SetSum;
  }

  lemma NoTests(tests: map<TestId, Record>, s: Spec)
    ensures TestsOf(tests, s) <= Durations(tests).Keys && PrTestsOf(tests, s) <= TestsOf(tests, s)
    ensures Durations(tests).Keys == tests.Keys
    ensures TestsOf(tests, s) == {} ==>
      SetSum(TestsOf(tests, s), Durations(tests)) == SetSum(PrTestsOf(tests, s), Durations(tests)) == 0
  {
  }

  /** The aggregate's durations: the records' own, added up per spec. */
  lemma {:induction false} TotalSpecs(tests: map<TestId, Record>, s: Spec)
    ensures DescribesSpec(TotalOf(tests), tests, s)
    decreases |tests|
  {
    hide TotalOf, DescribesSpec, Single, Plus;
    if tests.Keys == {} {
      assert tests == map[];
      NoSpecs(s);
    } else {
      var t :| t in tests;
      var rest := tests - {t};
      TotalRemove(tests, t);
      assert rest[t := tests[t]] == tests && |rest| < |tests| by { assert rest.Keys == tests.Keys - {t}; }
      TotalSpecs(rest, s);
      DescribesSpecStep(TotalOf(rest), rest, t, tests[t], s);
    }
  }

  lemma NoSpecs(s: Spec)
    ensures DescribesSpec(TotalOf(map[]), map[], s)
  {
  }

  lemma SingleFiles(r: Record, p: Path)
    ensures p in Single(r).files <==> Touches(r, p)
    ensures p in Single(r).files ==> Single(r).files[p].loadedBy == {r.spec}
  {
  }

  lemma PlusFiles(a: Body, b: Body, p: Path)
    ensures p in Plus(a, b).files <==> p in a.files || p in b.files
    ensures p in Plus(a, b).files ==>
      Plus(a, b).files[p].loadedBy ==
        (if p in a.files then a.files[p].loadedBy else {}) + (if p in b.files then b.files[p].loadedBy else {})
  {
  }

  lemma TouchedStep(tests: map<TestId, Record>, t: TestId, r: Record, p: Path)
    requires t !in tests
    ensures SpecsThatTouched(tests[t := r], p) == SpecsThatTouched(tests, p) + if Touches(r, p) then {r.spec} else {}
  {
    hide Touches;
    var tests' := tests[t := r];
    assert tests'[t] == r;
    forall u | u in tests && Touches(tests[u], p) ensures tests[u].spec in SpecsThatTouched(tests', p) {
      assert tests'[u] == tests[u];
    }
  }

  lemma DescribesFilesStep(b: Body, tests: map<TestId, Record>, t: TestId, r: Record)
    requires DescribesFiles(b, tests) && t !in tests
    ensures DescribesFiles(Plus(Single(r), b), tests[t := r])
  {
    hide Plus, Single, Touches, SpecsThatTouched;
    var b', tests' := Plus(Single(r), b), tests[t := r];
    forall p ensures DescribesFile(b', tests', p) {
      assert DescribesFile(b, tests, p);
      SingleFiles(r, p);
      PlusFiles(Single(r), b, p);
      TouchedStep(tests, t, r, p);
    }
  }

  lemma RanStep(tests: map<TestId, Record>, t: TestId, r: Record, p: Path, range: Range)
    requires t !in tests
    ensures TestsThatRan(tests[t := r], p, range) == TestsThatRan(tests, p, range) + if Ran(r, p, range) then {t} else {}
    ensures t !in TestsThatRan(tests, p, range)
  {
  }

  lemma SingleFunctions(r: Record, p: Path, range: Range)
    ensures p in Single(r).files && range in Single(r).files[p].functions <==> Ran(r, p, range)
    ensures Ran(r, p, range) ==> Single(r).files[p].functions[range] == Fn({r.spec}, 1)
  {
    if p in r.executed {
      PlusMapEmpty(Executed(r.executed[p], r.spec), AddFn);
    }
  }

  lemma PlusFunctions(a: Body, b: Body, p: Path, range: Range)
    ensures
      var r := Plus(a, b);
      var inA, inB := p in a.files && range in a.files[p].functions, p in b.files && range in b.files[p].functions;
      && (p in r.files && range in r.files[p].functions <==> inA || inB)
      && (inA && inB ==> r.files[p].functions[range] == AddFn(a.files[p].functions[range], b.files[p].functions[range]))
      && (inA && !inB ==> r.files[p].functions[range] == a.files[p].functions[range])
      && (!inA && inB ==> r.files[p].functions[range] == b.files[p].functions[range])
  {
  }

  lemma DescribesFunctionsStep(b: Body, tests: map<TestId, Record>, t: TestId, r: Record)
    requires DescribesFunctions(b, tests) && t !in tests
    ensures DescribesFunctions(Plus(Single(r), b), tests[t := r])
  {
    var tests', b' := tests[t := r], Plus(Single(r), b);
    forall p, range
      ensures p in b'.files && range in b'.files[p].functions <==> TestsThatRan(tests', p, range) != {}
      ensures p in b'.files && range in b'.files[p].functions ==>
        b'.files[p].functions[range].tests == |TestsThatRan(tests', p, range)|
    {
      FunctionStep(b, tests, t, r, p, range);
    }
    forall p, range, s | p in b'.files && range in b'.files[p].functions
      ensures s in b'.files[p].functions[range].specs <==> exists u :: u in TestsThatRan(tests', p, range) && tests'[u].spec == s
    {
      SpecsStep(b, tests, t, r, p, range, s);
    }
  }

  lemma FunctionStep(b: Body, tests: map<TestId, Record>, t: TestId, r: Record, p: Path, range: Range)
    requires DescribesFunctions(b, tests) && t !in tests
    ensures
      var tests', b' := tests[t := r], Plus(Single(r), b);
      && (p in b'.files && range in b'.files[p].functions <==> TestsThatRan(tests', p, range) != {})
      && (p in b'.files && range in b'.files[p].functions ==>
            b'.files[p].functions[range].tests == |TestsThatRan(tests', p, range)|)
  {
    RanStep(tests, t, r, p, range);
    SingleFunctions(r, p, range);
    PlusFunctions(Single(r), b, p, range);
    hide Single, Plus, Ran;
    assert TestsThatRan(tests, p, range) == {} ==> TestsThatRan(tests[t := r], p, range) <= {t};
  }

  lemma SpecsStep(b: Body, tests: map<TestId, Record>, t: TestId, r: Record, p: Path, range: Range, s: Spec)
    requires DescribesFunctions(b, tests) && t !in tests
    requires p in Plus(Single(r), b).files && range in Plus(Single(r), b).files[p].functions
    ensures
      var tests', b' := tests[t := r], Plus(Single(r), b);
      s in b'.files[p].functions[range].specs <==> exists u :: u in TestsThatRan(tests', p, range) && tests'[u].spec == s
  {
    OldSpecs(b, tests, p, range, s);
    SingleFunctions(r, p, range);
    PlusFunctions(Single(r), b, p, range);
    SpecRanStep(tests, t, r, p, range, s);
    hide Single, Plus, Ran, TestsThatRan, DescribesFunctions;
  }

  lemma OldSpecs(b: Body, tests: map<TestId, Record>, p: Path, range: Range, s: Spec)
    requires DescribesFunctions(b, tests)
    ensures p in b.files && range in b.files[p].functions && s in b.files[p].functions[range].specs <==>
      exists u :: u in TestsThatRan(tests, p, range) && tests[u].spec == s
  {
  }

  lemma SpecRanStep(tests: map<TestId, Record>, t: TestId, r: Record, p: Path, range: Range, s: Spec)
    requires t !in tests
    ensures
      var tests' := tests[t := r];
      (exists u :: u in TestsThatRan(tests', p, range) && tests'[u].spec == s) <==>
        (exists u :: u in TestsThatRan(tests, p, range) && tests[u].spec == s) || (Ran(r, p, range) && r.spec == s)
  {
    var tests' := tests[t := r];
    RanStep(tests, t, r, p, range);
    hide Ran;
    if u :| u in TestsThatRan(tests, p, range) && tests[u].spec == s {
      assert u in TestsThatRan(tests', p, range) && tests'[u].spec == s;
    }
  }

  lemma CountedStep(b: Body, tests: map<TestId, Record>, t: TestId, r: Record)
    requires t !in tests && b.tests == |CountedTests(tests)|
    ensures Plus(Single(r), b).tests == |CountedTests(tests[t := r])|
  {
    if Counted(r) {
      assert CountedTests(tests[t := r]) == CountedTests(tests) + {t};
    } else {
      assert CountedTests(tests[t := r]) == CountedTests(tests);
    }
  }

  /** An aggregate records, per file, the specs that loaded it and, per function, the
      specs and the number of tests that executed it. */
  lemma {:induction false} TotalDescribes(tests: map<TestId, Record>)
    ensures DescribesFiles(TotalOf(tests), tests) && DescribesFunctions(TotalOf(tests), tests)
    ensures TotalOf(tests).tests == |CountedTests(tests)|
    decreases |tests|
  {
    hide TotalOf, DescribesFiles, DescribesFunctions, CountedTests, Single, Plus;
    if tests.Keys == {} {
      assert tests == map[];
      DescribesNothing();
    } else {
      var t :| t in tests;
      var rest := tests - {t};
      TotalRemove(tests, t);
      assert rest[t := tests[t]] == tests && |rest| < |tests| by { assert rest.Keys == tests.Keys - {t}; }
      TotalDescribes(rest);
      CountedStep(TotalOf(rest), rest, t, tests[t]);
      DescribesFilesStep(TotalOf(rest), rest, t, tests[t]);
      DescribesFunctionsStep(TotalOf(rest), rest, t, tests[t]);
    }
  }

  lemma DescribesNothing()
    ensures DescribesFiles(TotalOf(map[]), map[]) && DescribesFunctions(TotalOf(map[]), map[])
    ensures TotalOf(map[]).tests == |CountedTests(map[])|
  {
    forall p, range ensures TestsThatRan(map[], p, range) == {} {
    }
    assert CountedTests(map[]) == {};
  }

  /** Executed by as many tests as were counted. */
  predicate IsGlobal(b: Body, p: Path, range: Range)
    requires p in b.files && range in b.files[p].functions
  {
    b.tests > 0 && b.files[p].functions[range].tests >= b.tests
  }

  /** A function is global exactly when every counted test executed it. */
  lemma GlobalIffAllRan(tests: map<TestId, Record>, p: Path, range: Range)
    requires p in TotalOf(tests).files && range in TotalOf(tests).files[p].functions
    ensures IsGlobal(TotalOf(tests), p, range) <==>
      forall t :: t in tests && Counted(tests[t]) ==> Ran(tests[t], p, range)
  {
    TotalDescribes(tests);
    var ran, counted := TestsThatRan(tests, p, range), CountedTests(tests);
    hide TotalOf;
    assert ran <= counted && ran != {};
    SubsetSize(ran, counted);
    if |ran| >= |counted| {
      SubsetOfEqualSize(ran, counted);
      forall t | t in tests && Counted(tests[t]) ensures Ran(tests[t], p, range) {
        assert t in counted && t in ran;
      }
    }
    if forall t :: t in tests && Counted(tests[t]) ==> Ran(tests[t], p, range) {
      assert ran == counted;
    }
  }

  lemma {:induction false} SubsetSize(a: set<TestId>, b: set<TestId>)
    requires a <= b
    ensures |a| <= |b|
  {
    assert b == a + (b - a);
  }

  lemma SubsetOfEqualSize(a: set<TestId>, b: set<TestId>)
    requires a <= b && |a| >= |b|
    ensures a == b
  {
    assert b == a + (b - a) && |b - a| == 0;
  }

  // ----- the loops of `aggregate`

  method AddRanges(functions: map<Range, Fn>, ranges: set<Range>, spec: Spec) returns (r: map<Range, Fn>)
    ensures r == PlusMap(functions, Executed(ranges, spec), AddFn)
  {
    r := functions;
    var left := ranges;
    assert Executed({}, spec) == map[];
    while left != {}
      invariant left <= ranges
      invariant r == PlusMap(functions, Executed(ranges - left, spec), AddFn)
    {
      var range :| range in left;
      var fn := if range in r then r[range] else Fn({}, 0);
      PlusMapGrow(functions, Executed(ranges - left, spec), range, Fn({spec}, 1), AddFn);
      assert Executed(ranges - (left - {range}), spec) == Executed(ranges - left, spec)[range := Fn({spec}, 1)];
      assert {} + {spec} == {spec};
      r := r[range := Fn(fn.specs + {spec}, fn.tests + 1)];
      left := left - {range};
    }
    assert ranges - left == ranges;
  }

  function LoadedPart(paths: set<Path>, spec: Spec): map<Path, FileInfo> {
    map p | p in paths :: FileInfo({spec}, map[])
  }

  method AddLoaded(files: map<Path, FileInfo>, paths: set<Path>, spec: Spec) returns (r: map<Path, FileInfo>)
    ensures r == PlusMap(files, LoadedPart(paths, spec), AddInfo)
  {
    r := files;
    var left := paths;
    assert LoadedPart({}, spec) == map[];
    while left != {}
      invariant left <= paths
      invariant r == PlusMap(files, LoadedPart(paths - left, spec), AddInfo)
    {
      var p :| p in left;
      var info := if p in r then r[p] else FileInfo({}, map[]);
      PlusMapGrow(files, LoadedPart(paths - left, spec), p, FileInfo({spec}, map[]), AddInfo);
      assert LoadedPart(paths - (left - {p}), spec) == LoadedPart(paths - left, spec)[p := FileInfo({spec}, map[])];
      PlusMapEmpty(info.functions, AddFn);
      assert {} + {spec} == {spec};
      r := r[p := FileInfo(info.loadedBy + {spec}, info.functions)];
      left := left - {p};
    }
    assert paths - left == paths;
  }

  function ExecutedPart(executed: map<Path, set<Range>>, paths: set<Path>, spec: Spec): map<Path, FileInfo>
    requires paths <= executed.Keys
  {
    map p | p in paths :: FileInfo({spec}, Executed(executed[p], spec))
  }

  lemma ExecutedGrow(files: map<Path, FileInfo>, executed: map<Path, set<Range>>, paths: set<Path>, spec: Spec, p: Path)
    requires paths <= executed.Keys && p in executed && p !in paths
    ensures
      var r := PlusMap(files, ExecutedPart(executed, paths, spec), AddInfo);
      var info := if p in r then r[p] else FileInfo({}, map[]);
      PlusMap(files, ExecutedPart(executed, paths + {p}, spec), AddInfo) ==
        r[p := FileInfo(info.loadedBy + {spec}, PlusMap(info.functions, Executed(executed[p], spec), AddFn))]
  {
    var part, one := ExecutedPart(executed, paths, spec), FileInfo({spec}, Executed(executed[p], spec));
    PlusMapGrow(files, part, p, one, AddInfo);
    assert ExecutedPart(executed, paths + {p}, spec) == part[p := one];
    PlusMapEmpty(one.functions, AddFn);
    assert {} + {spec} == {spec};
  }

  method AddExecuted(files: map<Path, FileInfo>, executed: map<Path, set<Range>>, spec: Spec) returns (r: map<Path, FileInfo>)
    ensures r == PlusMap(files, ExecutedPart(executed, executed.Keys, spec), AddInfo)
  {
    r := files;
    var left := executed.Keys;
    assert ExecutedPart(executed, {}, spec) == map[];
    while left != {}
      invariant left <= executed.Keys
      invariant r == PlusMap(files, ExecutedPart(executed, executed.Keys - left, spec), AddInfo)
    {
      var p :| p in left;
      var info := if p in r then r[p] else FileInfo({}, map[]);
      var functions := AddRanges(info.functions, executed[p], spec);
      ExecutedGrow(files, executed, executed.Keys - left, spec, p);
      assert executed.Keys - (left - {p}) == (executed.Keys - left) + {p};
      r := r[p := FileInfo(info.loadedBy + {spec}, functions)];
      left := left - {p};
    }
    assert executed.Keys - left == executed.Keys;
  }

  /** The body of the loop over the counted records. */
  method AddRecord(body: Body, r: Record) returns (b: Body)
    ensures b == Plus(body, Single(r))
  {
    var entry := if r.spec in body.specs then body.specs[r.spec] else SpecEntry(0, 0, 0, 0);
    PlusMapOne(body.specs, r.spec, EntryOf(r), AddEntry);
    entry := entry.(durationMs := entry.durationMs + r.durationMs, tests := entry.tests + 1);
    if r.prScope {
      entry := entry.(prDurationMs := entry.prDurationMs + r.durationMs, prTests := entry.prTests + 1);
    }
    var specs := body.specs[r.spec := entry];
    if r.loaded == {} {
      PlusMapEmpty(body.files, AddInfo);
      return Body(body.tests, specs, body.files);
    }
    var files := AddLoaded(body.files, r.loaded, r.spec);
    files := AddExecuted(files, r.executed, r.spec);
    AdditionLaws();
    PlusMapAssociates(body.files, LoadedFiles(r), ExecutedFiles(r), AddInfo);
    assert LoadedPart(r.loaded, r.spec) == LoadedFiles(r);
    assert ExecutedPart(r.executed, r.executed.Keys, r.spec) == ExecutedFiles(r);
    return Body(body.tests + 1, specs, files);
  }

  /** `aggregate`: the last of the highest retries of each test, then their sum. */
  method Aggregate(records: seq<Record>) returns (body: Body)
    ensures body == TotalOf(Latest(records))
  {
    var latest: map<TestId, Record> := map[];
    for i := 0 to |records|
      invariant latest == Latest(records[..i])
    {
      var r := records[i];
      assert records[..i + 1][..i] == records[..i];
      if r.testId !in latest || r.retry >= latest[r.testId].retry {
        latest := latest[r.testId := r];
      }
    }
    assert records[..|records|] == records;
    body := NOTHING;
    var left := latest.Keys;
    assert latest - left == map[];
    while left != {}
      invariant left <= latest.Keys
      invariant body == TotalOf(latest - left)
    {
      var t :| t in left;
      TotalStep(latest, left, t);
      body := AddRecord(body, latest[t]);
      left := left - {t};
    }
    assert latest - left == latest;
  }

  lemma TotalStep(latest: map<TestId, Record>, left: set<TestId>, t: TestId)
    requires left <= latest.Keys && t in left
    ensures TotalOf(latest - (left - {t})) == Plus(TotalOf(latest - left), Single(latest[t]))
  {
    var more := latest - (left - {t});
    TotalRemove(more, t);
    assert more - {t} == latest - left;
    PlusCommutes(Single(latest[t]), TotalOf(latest - left));
  }
}
