/** Merging stored maps, and choosing the specs for changed lines. */
module ImpactMap {
  import opened Collections
  import opened MapSums
  import opened ImpactRecords
  import opened ImpactAggregation

  // ----- stored maps

  /** A spec's entry as stored; old maps lack the pull-request counts. */
  datatype StoredEntry = StoredEntry(durationMs: nat, tests: nat, prDurationMs: Option<nat>, prTests: Option<nat>)
  {
    /** Without its own count, a spec counts in full for pull requests. */
    function Filled(): SpecEntry {
      SpecEntry(durationMs, tests,
        if prDurationMs.Some? then prDurationMs.value else durationMs,
        if prTests.Some? then prTests.value else tests)
    }
  }

  datatype MapDoc = MapDoc(
    version: int, product: string, commit: string, tests: nat, specs: map<Spec, StoredEntry>, files: map<Path, FileInfo>)

  datatype MergedMap = MergedMap(product: string, commit: string, shards: nat, body: Body)

  function FilledSpecs(specs: map<Spec, StoredEntry>): map<Spec, SpecEntry> {
    map s | s in specs :: specs[s].Filled()
  }

  function BodyOf(doc: MapDoc): Body {
    Body(doc.tests, FilledSpecs(doc.specs), doc.files)
  }

  function StoredSpecs(specs: map<Spec, SpecEntry>): map<Spec, StoredEntry> {
    map s | s in specs ::
      StoredEntry(specs[s].durationMs, specs[s].tests, Some(specs[s].prDurationMs), Some(specs[s].prTests))
  }

  /** The map that a shard stores. */
  function Stored(product: string, commit: string, body: Body): MapDoc {
    MapDoc(MAP_VERSION, product, commit, body.tests, StoredSpecs(body.specs), body.files)
  }

  lemma StoredReadsBack(product: string, commit: string, body: Body)
    ensures BodyOf(Stored(product, commit, body)) == body
  {
    assert FilledSpecs(StoredSpecs(body.specs)) == body.specs;
  }

  /** The maps of the current version, then those of the first one's commit. */
  function Current(maps: seq<MapDoc>): seq<MapDoc> {
    if maps == [] then []
    else
      var rest, last := Current(maps[..|maps| - 1]), maps[|maps| - 1];
      if last.version == MAP_VERSION then rest + [last] else rest
  }

  function OfCommit(maps: seq<MapDoc>, commit: string): seq<MapDoc> {
    if maps == [] then []
    else
      var rest, last := OfCommit(maps[..|maps| - 1], commit), maps[|maps| - 1];
      if last.commit == commit then rest + [last] else rest
  }

  function Bodies(maps: seq<MapDoc>): seq<Body> {
    seq(|maps|, i requires 0 <= i < |maps| => BodyOf(maps[i]))
  }

  ghost function MergeResult(maps: seq<MapDoc>): Option<MergedMap> {
    var current := Current(maps);
    if current == [] then None
    else
      var same := OfCommit(current, current[0].commit);
      Some(MergedMap(current[0].product, current[0].commit, |same|, Merged(Bodies(same))))
  }

  lemma SpecsGrow(specs: map<Spec, SpecEntry>, more: map<Spec, StoredEntry>, left: set<Spec>, s: Spec)
    requires left <= more.Keys && s in left
    ensures
      var r := PlusMap(specs, FilledSpecs(more - left), AddEntry);
      PlusMap(specs, FilledSpecs(more - (left - {s})), AddEntry) ==
        r[s := AddEntry(if s in r then r[s] else SpecEntry(0, 0, 0, 0), more[s].Filled())]
  {
    PlusMapGrow(specs, FilledSpecs(more - left), s, more[s].Filled(), AddEntry);
    assert FilledSpecs(more - (left - {s})) == FilledSpecs(more - left)[s := more[s].Filled()];
  }

  method AddSpecs(specs: map<Spec, SpecEntry>, more: map<Spec, StoredEntry>) returns (r: map<Spec, SpecEntry>)
    ensures r == PlusMap(specs, FilledSpecs(more), AddEntry)
  {
    r := specs;
    var left := more.Keys;
    assert FilledSpecs(more - left) == map[];
    while left != {}
      invariant left <= more.Keys
      invariant r == PlusMap(specs, FilledSpecs(more - left), AddEntry)
    {
      var s :| s in left;
      var target := if s in r then r[s] else SpecEntry(0, 0, 0, 0);
      SpecsGrow(specs, more, left, s);
      r := r[s := AddEntry(target, more[s].Filled())];
      left := left - {s};
    }
    assert more - left == more;
  }

  method AddFunctions(functions: map<Range, Fn>, more: map<Range, Fn>) returns (r: map<Range, Fn>)
    ensures r == PlusMap(functions, more, AddFn)
  {
    r := functions;
    var left := more.Keys;
    assert more - left == map[];
    while left != {}
      invariant left <= more.Keys
      invariant r == PlusMap(functions, more - left, AddFn)
    {
      var range :| range in left;
      var target := if range in r then r[range] else Fn({}, 0);
      PlusMapGrow(functions, more - left, range, more[range], AddFn);
      assert more - (left - {range}) == (more - left)[range := more[range]];
      assert {} + more[range].specs == more[range].specs;
      r := r[range := Fn(target.specs + more[range].specs, target.tests + more[range].tests)];
      left := left - {range};
    }
    assert more - left == more;
  }

  lemma FilesGrow(files: map<Path, FileInfo>, more: map<Path, FileInfo>, left: set<Path>, p: Path)
    requires left <= more.Keys && p in left
    ensures
      var r := PlusMap(files, more - left, AddInfo);
      var target := if p in r then r[p] else FileInfo({}, map[]);
      PlusMap(files, more - (left - {p}), AddInfo) ==
        r[p := FileInfo(target.loadedBy + more[p].loadedBy, PlusMap(target.functions, more[p].functions, AddFn))]
  {
    PlusMapGrow(files, more - left, p, more[p], AddInfo);
    assert more - (left - {p}) == (more - left)[p := more[p]];
    PlusMapEmpty(more[p].functions, AddFn);
    assert {} + more[p].loadedBy == more[p].loadedBy;
  }

  method AddFiles(files: map<Path, FileInfo>, more: map<Path, FileInfo>) returns (r: map<Path, FileInfo>)
    ensures r == PlusMap(files, more, AddInfo)
  {
    r := files;
    var left := more.Keys;
    assert more - left == map[];
    PlusMapEmpty(files, AddInfo);
    while left != {}
      invariant left <= more.Keys
      invariant r == PlusMap(files, more - left, AddInfo)
    {
      var p :| p in left;
      var target := if p in r then r[p] else FileInfo({}, map[]);
      var functions := AddFunctions(target.functions, more[p].functions);
      FilesGrow(files, more, left, p);
      r := r[p := FileInfo(target.loadedBy + more[p].loadedBy, functions)];
      left := left - {p};
    }
    assert more - left == more;
  }

  /** `merge_maps`. */
  method MergeMaps(maps: seq<MapDoc>) returns (r: Option<MergedMap>)
    ensures r == MergeResult(maps)
  {
    var current := FilterCurrent(maps);
    if current == [] {
      return None;
    }
    var commit := current[0].commit;
    var same := FilterCommit(current, commit);
    var body := NOTHING;
    for i := 0 to |same|
      invariant body == Merged(Bodies(same)[..i])
    {
      var specs := AddSpecs(body.specs, same[i].specs);
      var files := AddFiles(body.files, same[i].files);
      assert Bodies(same)[..i + 1][..i] == Bodies(same)[..i];
      body := Body(body.tests + same[i].tests, specs, files);
    }
    assert Bodies(same)[..|same|] == Bodies(same);
    return Some(MergedMap(current[0].product, commit, |same|, body));
  }

  method FilterCurrent(maps: seq<MapDoc>) returns (r: seq<MapDoc>)
    ensures r == Current(maps)
  {
    r := [];
    for i := 0 to |maps|
      invariant r == Current(maps[..i])
    {
      assert maps[..i + 1][..i] == maps[..i];
      if maps[i].version == MAP_VERSION { r := r + [maps[i]]; }
    }
    assert maps[..|maps|] == maps;
  }

  method FilterCommit(maps: seq<MapDoc>, commit: string) returns (r: seq<MapDoc>)
    ensures r == OfCommit(maps, commit)
  {
    r := [];
    for i := 0 to |maps|
      invariant r == OfCommit(maps[..i], commit)
    {
      assert maps[..i + 1][..i] == maps[..i];
      if maps[i].commit == commit { r := r + [maps[i]]; }
    }
    assert maps[..|maps|] == maps;
  }

  ghost predicate AllOf(maps: seq<MapDoc>, commit: string) {
    forall m :: m in maps ==> m.version == MAP_VERSION && m.commit == commit
  }

  lemma {:induction false} FiltersKeepAll(maps: seq<MapDoc>, commit: string)
    requires AllOf(maps, commit)
    ensures Current(maps) == maps && OfCommit(maps, commit) == maps
  {
    if maps != [] {
      assert maps == maps[..|maps| - 1] + [maps[|maps| - 1]];
      FiltersKeepAll(maps[..|maps| - 1], commit);
    }
  }

  /** The maps that the shards of one commit store. */
  function StoredShards(product: string, commit: string, bodies: seq<Body>): seq<MapDoc> {
    seq(|bodies|, i requires 0 <= i < |bodies| => Stored(product, commit, bodies[i]))
  }

  /** End to end: shards that share no test store their aggregates, and merging the stored
      maps gives the aggregate of all records at once. */
  lemma MergeOfStoredShards(product: string, commit: string, all: seq<Record>, shards: seq<seq<Record>>)
    requires shards != [] && Interleaves(all, shards) && DisjointTests(shards)
    ensures MergeResult(StoredShards(product, commit, Aggregates(shards))) ==
      Some(MergedMap(product, commit, |shards|, TotalOf(Latest(all))))
  {
    var bodies := Aggregates(shards);
    var maps := StoredShards(product, commit, bodies);
    FiltersKeepAll(maps, commit);
    forall i | 0 <= i < |bodies| ensures BodyOf(maps[i]) == bodies[i] {
      StoredReadsBack(product, commit, bodies[i]);
    }
    assert Bodies(maps) == bodies;
    MergeEqualsAggregate(all, shards);
  }

  // ----- maps of other products

  function OfProduct(maps: seq<MapDoc>, product: string): seq<MapDoc> {
    if maps == [] then []
    else
      var rest, last := OfProduct(maps[..|maps| - 1], product), maps[|maps| - 1];
      if last.product == product then rest + [last] else rest
  }

  ghost predicate OneProduct(maps: seq<MapDoc>, product: string) {
    forall m :: m in maps ==> m.product == product
  }

  /** The merge that also drops the maps of another product. */
  ghost function OwnProductMerge(maps: seq<MapDoc>): Option<MergedMap> {
    var current := Current(maps);
    if current == [] then None
    else
      var own := OfProduct(OfCommit(current, current[0].commit), current[0].product);
      Some(MergedMap(current[0].product, current[0].commit, |own|, Merged(Bodies(own))))
  }

  lemma {:induction false} OfProductShorter(maps: seq<MapDoc>, product: string)
    ensures |OfProduct(maps, product)| <= |maps|
    ensures |OfProduct(maps, product)| == |maps| <==> OneProduct(maps, product)
    ensures OneProduct(maps, product) ==> OfProduct(maps, product) == maps
  {
    if maps != [] {
      var front, last := maps[..|maps| - 1], maps[|maps| - 1];
      assert maps == front + [last];
      OfProductShorter(front, product);
    }
  }

  /** Maps of another product are promised to be dropped; they are merged in like the others, so the
      promise is kept exactly when the maps of the first one's version and commit are of its product. */
  lemma OtherProductsDroppedIff(maps: seq<MapDoc>)
    ensures
      var current := Current(maps);
      MergeResult(maps) == OwnProductMerge(maps) <==>
        current == [] || OneProduct(OfCommit(current, current[0].commit), current[0].product)
  {
    var current := Current(maps);
    if current != [] {
      OfProductShorter(OfCommit(current, current[0].commit), current[0].product);
    }
  }

  lemma TestsOfTwo(a: Body, b: Body)
    ensures Merged([a, b]).tests == a.tests + b.tests
  {
    assert [a, b][..1] == [a] && [a][..0] == [];
    assert Merged([a]).tests == a.tests;
  }

  lemma MergedTwo(m: MapDoc, n: MapDoc)
    requires m.version == n.version == MAP_VERSION && m.commit == n.commit
    ensures Current([m, n]) == [m, n] == OfCommit([m, n], m.commit)
    ensures MergeResult([m, n]) == Some(MergedMap(m.product, m.commit, 2, Merged([BodyOf(m), BodyOf(n)])))
  {
    FiltersKeepAll([m, n], m.commit);
    hide Merged, BodyOf;
    assert Bodies([m, n]) == [BodyOf(m), BodyOf(n)];
  }

  /** Two maps of one commit and two products are merged into one. */
  lemma OtherProductMerged(m: MapDoc, n: MapDoc)
    requires m.version == n.version == MAP_VERSION && m.commit == n.commit && m.product != n.product
    ensures MergeResult([m, n]).Some? && MergeResult([m, n]).value.body.tests == m.tests + n.tests
    ensures MergeResult([m, n]) != OwnProductMerge([m, n])
  {
    MergedTwo(m, n);
    TestsOfTwo(BodyOf(m), BodyOf(n));
    OtherProductsDroppedIff([m, n]);
    assert n in [m, n];
    hide MergeResult, OwnProductMerge, Merged;
  }

  // ----- choosing specs

  predicate Contains(range: Range, line: int) {
    range.start <= line <= range.end
  }

  /** The shorter function is the inner one; among equals, the one that starts later. */
  predicate Inner(a: Range, b: Range) {
    a.end - a.start < b.end - b.start || (a.end - a.start == b.end - b.start && a.start > b.start)
  }

  function Functions(b: Body, p: Path): map<Range, Fn> {
    if p in b.files then b.files[p].functions else map[]
  }

  function LoadedBy(b: Body, p: Path): set<Spec> {
    if p in b.files then b.files[p].loadedBy else {}
  }

  ghost predicate Innermost(ranges: set<Range>, range: Range, line: int) {
    && range in ranges && Contains(range, line)
    && forall other :: other in ranges && Contains(other, line) && other != range ==> Inner(range, other)
  }

  lemma InnermostUnique(ranges: set<Range>, a: Range, b: Range, line: int)
    requires Innermost(ranges, a, line) && Innermost(ranges, b, line)
    ensures a == b
  {
  }

  /** The specs that executed any function that not every test executes. */
  function Local(b: Body, p: Path): set<Spec> {
    set range, s | range in Functions(b, p) && !IsGlobal(b, p, range) && s in Functions(b, p)[range].specs :: s
  }

  datatype Choice = Choice(specs: set<Spec>, shared: bool)

  /** What one changed line selects. */
  ghost function ForLine(b: Body, p: Path, line: int): Choice {
    var ranges := Functions(b, p).Keys;
    if range :| Innermost(ranges, range, line) then
      if IsGlobal(b, p, range) then Choice(LoadedBy(b, p), true) else Choice(Functions(b, p)[range].specs, false)
    else if Local(b, p) != {} then Choice(Local(b, p), false)
    else Choice(LoadedBy(b, p), LoadedBy(b, p) != {})
  }

  ghost function ForLines(b: Body, p: Path, lines: set<int>): Choice {
    Choice(set line, s | line in lines && s in ForLine(b, p, line).specs :: s,
           exists line :: line in lines && ForLine(b, p, line).shared)
  }

  method FindInnermost(ranges: set<Range>, line: int) returns (r: Option<Range>)
    ensures r.None? ==> forall range :: range in ranges ==> !Contains(range, line)
    ensures r.Some? ==> Innermost(ranges, r.value, line)
  {
    r := None;
    var left := ranges;
    while left != {}
      invariant left <= ranges
      invariant r.None? ==> forall range :: range in ranges - left ==> !Contains(range, line)
      invariant r.Some? ==> Innermost(ranges - left, r.value, line)
    {
      var range :| range in left;
      left := left - {range};
      if Contains(range, line) && (r.None? || Inner(range, r.value)) {
        r := Some(range);
      }
    }
    assert ranges - left == ranges;
  }

  method ChooseLine(b: Body, p: Path, line: int) returns (c: Choice)
    ensures c == ForLine(b, p, line)
  {
    var functions := Functions(b, p);
    var inner := FindInnermost(functions.Keys, line);
    if inner.Some? {
      var range := inner.value;
      forall other | Innermost(functions.Keys, other, line) ensures other == range {
        InnermostUnique(functions.Keys, other, range, line);
      }
      if IsGlobal(b, p, range) {
        c := Choice(LoadedBy(b, p), true);
      } else {
        c := Choice(functions[range].specs, false);
      }
    } else if Local(b, p) != {} {
      c := Choice(Local(b, p), false);
    } else {
      c := Choice(LoadedBy(b, p), LoadedBy(b, p) != {});
    }
  }

  function LineSet(lines: seq<int>): set<int> {
    set line | line in lines
  }

  /** `specs_for_lines`. */
  method SpecsForLines(b: Body, p: Path, lines: seq<int>) returns (c: Choice)
    ensures c == ForLines(b, p, LineSet(lines))
  {
    c := Choice({}, false);
    for i := 0 to |lines|
      invariant c == ForLines(b, p, LineSet(lines[..i]))
    {
      var one := ChooseLine(b, p, lines[i]);
      ForLinesUnion(b, p, LineSet(lines[..i]), {lines[i]});
      assert lines[..i + 1] == lines[..i] + [lines[i]];
      assert LineSet(lines[..i + 1]) == LineSet(lines[..i]) + {lines[i]};
      c := Choice(c.specs + one.specs, c.shared || one.shared);
    }
    assert lines[..|lines|] == lines;
  }

  /** The choice for a set of lines is made line by line. */
  lemma ForLinesUnion(b: Body, p: Path, lines: set<int>, more: set<int>)
    ensures ForLines(b, p, lines + more) ==
      Choice(ForLines(b, p, lines).specs + ForLines(b, p, more).specs, ForLines(b, p, lines).shared || ForLines(b, p, more).shared)
    ensures forall line :: more == {line} ==> ForLines(b, p, more) == ForLine(b, p, line)
  {
    forall line | more == {line} ensures ForLines(b, p, more) == ForLine(b, p, line) {
      assert ForLines(b, p, more).specs == ForLine(b, p, line).specs;
    }
    assert ForLines(b, p, lines + more).specs == ForLines(b, p, lines).specs + ForLines(b, p, more).specs;
  }

  /** No affected spec is lost: a counted test that executed the innermost recorded
      function around a changed line has its spec selected. */
  lemma ExecutedSpecSelected(tests: map<TestId, Record>, t: TestId, p: Path, range: Range, line: int, lines: set<int>)
    requires t in tests && Ran(tests[t], p, range) && line in lines
    requires Innermost(Functions(TotalOf(tests), p).Keys, range, line)
    ensures tests[t].spec in ForLines(TotalOf(tests), p, lines).specs
  {
    var b := TotalOf(tests);
    TotalDescribes(tests);
    hide TotalOf;
    assert DescribesFile(b, tests, p);
    assert t in TestsThatRan(tests, p, range) && Touches(tests[t], p);
    assert tests[t].spec in b.files[p].functions[range].specs;
    assert tests[t].spec in b.files[p].loadedBy;
    forall other | Innermost(Functions(b, p).Keys, other, line) ensures other == range {
      InnermostUnique(Functions(b, p).Keys, other, range, line);
    }
    assert tests[t].spec in ForLine(b, p, line).specs;
  }

  lemma FunctionSpecsLoad(tests: map<TestId, Record>, p: Path, range: Range)
    requires range in Functions(TotalOf(tests), p)
    ensures Functions(TotalOf(tests), p)[range].specs <= LoadedBy(TotalOf(tests), p)
    ensures Functions(TotalOf(tests), p)[range].specs != {}
  {
    var b := TotalOf(tests);
    TotalDescribes(tests);
    assert DescribesFile(b, tests, p);
    hide TotalOf;
    forall s | s in b.files[p].functions[range].specs ensures s in b.files[p].loadedBy {
      var t :| t in TestsThatRan(tests, p, range) && tests[t].spec == s;
      assert Touches(tests[t], p);
    }
    var t :| t in TestsThatRan(tests, p, range);
    assert tests[t].spec in b.files[p].functions[range].specs;
  }

  /** Only specs that loaded the file are selected, and for a recorded file some are. */
  lemma SelectedLoadedSpecs(tests: map<TestId, Record>, p: Path, line: int)
    ensures ForLine(TotalOf(tests), p, line).specs <= LoadedBy(TotalOf(tests), p)
    ensures p in TotalOf(tests).files ==> ForLine(TotalOf(tests), p, line).specs != {}
  {
    var b := TotalOf(tests);
    forall range | range in Functions(b, p) ensures Functions(b, p)[range].specs <= LoadedBy(b, p) && Functions(b, p)[range].specs != {} {
      FunctionSpecsLoad(tests, p, range);
    }
    RecordedIsLoaded(tests, p);
    hide TotalOf;
    LineWithinLoaded(b, p, line);
  }

  lemma RecordedIsLoaded(tests: map<TestId, Record>, p: Path)
    ensures p in TotalOf(tests).files ==> LoadedBy(TotalOf(tests), p) != {}
  {
    TotalDescribes(tests);
    hide TotalOf;
    assert DescribesFile(TotalOf(tests), tests, p);
  }

  lemma LineWithinLoaded(b: Body, p: Path, line: int)
    requires forall range :: range in Functions(b, p) ==> Functions(b, p)[range].specs <= LoadedBy(b, p) && Functions(b, p)[range].specs != {}
    requires p in b.files ==> LoadedBy(b, p) != {}
    ensures ForLine(b, p, line).specs <= LoadedBy(b, p)
    ensures p in b.files ==> ForLine(b, p, line).specs != {}
  {
  }

  /** The selection for any lines stays among the specs that loaded the file, and is not
      empty for a recorded file and at least one line. */
  lemma SelectionWithinLoaded(tests: map<TestId, Record>, p: Path, lines: set<int>, line: int)
    ensures ForLines(TotalOf(tests), p, lines).specs <= LoadedBy(TotalOf(tests), p)
    ensures p in TotalOf(tests).files && line in lines ==> ForLines(TotalOf(tests), p, lines).specs != {}
  {
    var b := TotalOf(tests);
    forall l | l in lines ensures ForLine(b, p, l).specs <= LoadedBy(b, p) {
      SelectedLoadedSpecs(tests, p, l);
    }
    SelectedLoadedSpecs(tests, p, line);
    hide TotalOf, ForLine;
    if p in b.files && line in lines {
      var s :| s in ForLine(b, p, line).specs;
      assert s in ForLines(b, p, lines).specs;
    }
  }

  /** From the raw records of all shards to the chosen specs: a test whose last record says
      that it executed the innermost recorded function around a changed line is selected
      from the merged maps. */
  lemma AffectedSpecSelected(product: string, commit: string, all: seq<Record>, shards: seq<seq<Record>>,
                             i: nat, p: Path, range: Range, line: int, lines: set<int>)
    requires shards != [] && Interleaves(all, shards) && DisjointTests(shards)
    requires i < |all| && IsLatest(all, all[i].testId, i) && Ran(all[i], p, range) && line in lines
    requires MergeResult(StoredShards(product, commit, Aggregates(shards))).Some?
    requires
      var b := MergeResult(StoredShards(product, commit, Aggregates(shards))).value.body;
      Innermost(Functions(b, p).Keys, range, line)
    ensures
      var b := MergeResult(StoredShards(product, commit, Aggregates(shards))).value.body;
      all[i].spec in ForLines(b, p, lines).specs
  {
    var t := all[i].testId;
    MergeOfStoredShards(product, commit, all, shards);
    LatestIsLastHighest(all, t);
    var j: nat :| IsLatest(all, t, j) && Latest(all)[t] == all[j];
    assert i == j by {
      assert all[i].retry <= all[j].retry <= all[i].retry;
    }
    ExecutedSpecSelected(Latest(all), t, p, range, line, lines);
  }
}
