/** Coverage records of single tests, their aggregation per shard, and merging shards. */
module ImpactRecords {
  import opened Collections
  import opened MapSums

  type Path = string
  type Spec = string
  type TestId = string

  /** A recorded function: its first and last line. */
  datatype Range = Range(start: int, end: int)

  datatype Record = Record(
    testId: TestId, retry: int, spec: Spec, durationMs: nat, prScope: bool,
    loaded: set<Path>, executed: map<Path, set<Range>>)

  datatype SpecEntry = SpecEntry(durationMs: nat, tests: nat, prDurationMs: nat, prTests: nat)

  datatype Fn = Fn(specs: set<Spec>, tests: nat)

  datatype FileInfo = FileInfo(loadedBy: set<Spec>, functions: map<Range, Fn>)

  /** The counted part of a map: how many tests recorded anything, the specs, the files. */
  datatype Body = Body(tests: nat, specs: map<Spec, SpecEntry>, files: map<Path, FileInfo>)

  const NOTHING: Body := Body(0, map[], map[])

  // ----- addition

  function AddEntry(x: SpecEntry, y: SpecEntry): SpecEntry {
    SpecEntry(x.durationMs + y.durationMs, x.tests + y.tests, x.prDurationMs + y.prDurationMs, x.prTests + y.prTests)
  }

  function AddFn(x: Fn, y: Fn): Fn {
    Fn(x.specs + y.specs, x.tests + y.tests)
  }

  function AddInfo(x: FileInfo, y: FileInfo): FileInfo {
    FileInfo(x.loadedBy + y.loadedBy, PlusMap(x.functions, y.functions, AddFn))
  }

  function Plus(a: Body, b: Body): Body {
    Body(a.tests + b.tests, PlusMap(a.specs, b.specs, AddEntry), PlusMap(a.files, b.files, AddInfo))
  }

  lemma AdditionLaws()
    ensures Commutes(AddEntry) && Associates(AddEntry)
    ensures Commutes(AddInfo) && Associates(AddInfo)
  {
    forall x: Fn, y: Fn ensures AddFn(x, y) == AddFn(y, x) {
      assert x.specs + y.specs == y.specs + x.specs;
    }
    assert Associates(AddFn);
    forall x, y ensures AddInfo(x, y) == AddInfo(y, x) {
      assert x.loadedBy + y.loadedBy == y.loadedBy + x.loadedBy;
      PlusMapCommutes(x.functions, y.functions, AddFn);
    }
    forall x, y, z ensures AddInfo(AddInfo(x, y), z) == AddInfo(x, AddInfo(y, z)) {
      PlusMapAssociates(x.functions, y.functions, z.functions, AddFn);
    }
  }

  lemma PlusCommutes(a: Body, b: Body)
    ensures Plus(a, b) == Plus(b, a)
  {
    AdditionLaws();
    PlusMapCommutes(a.specs, b.specs, AddEntry);
    PlusMapCommutes(a.files, b.files, AddInfo);
  }

  lemma PlusAssociates(a: Body, b: Body, c: Body)
    ensures Plus(Plus(a, b), c) == Plus(a, Plus(b, c))
  {
    AdditionLaws();
    PlusMapAssociates(a.specs, b.specs, c.specs, AddEntry);
    PlusMapAssociates(a.files, b.files, c.files, AddInfo);
  }

  lemma PlusNothing(a: Body)
    ensures Plus(a, NOTHING) == a
  {
    PlusMapEmpty(a.specs, AddEntry);
    PlusMapEmpty(a.files, AddInfo);
  }

  // ----- one record

  function EntryOf(r: Record): SpecEntry {
    SpecEntry(r.durationMs, 1, if r.prScope then r.durationMs else 0, if r.prScope then 1 else 0)
  }

  function LoadedFiles(r: Record): map<Path, FileInfo> {
    map p | p in r.loaded :: FileInfo({r.spec}, map[])
  }

  function Executed(ranges: set<Range>, spec: Spec): map<Range, Fn> {
    map range | range in ranges :: Fn({spec}, 1)
  }

  function ExecutedFiles(r: Record): map<Path, FileInfo> {
    map p | p in r.executed :: FileInfo({r.spec}, Executed(r.executed[p], r.spec))
  }

  /** What one test contributes; a test that recorded no loaded file counts for its
      duration only. */
  function Single(r: Record): Body {
    Body(
      if r.loaded == {} then 0 else 1,
      map[r.spec := EntryOf(r)],
      if r.loaded == {} then map[] else PlusMap(LoadedFiles(r), ExecutedFiles(r), AddInfo))
  }

  /** The contributions of a set of tests, in whatever order. */
  ghost function TotalOf(tests: map<TestId, Record>): Body {
    if tests == map[] then NOTHING
    else
      var t :| t in tests;
      Plus(Single(tests[t]), TotalOf(tests - {t}))
  }

  lemma {:induction false} TotalRemove(tests: map<TestId, Record>, t: TestId)
    requires t in tests
    ensures TotalOf(tests) == Plus(Single(tests[t]), TotalOf(tests - {t}))
    decreases |tests|
  {
    var u :| u in tests && TotalOf(tests) == Plus(Single(tests[u]), TotalOf(tests - {u}));
    if u != t {
      var rest := tests - {u} - {t};
      assert rest == tests - {t} - {u};
      TotalRemove(tests - {u}, t);
      TotalRemove(tests - {t}, u);
      PlusAssociates(Single(tests[u]), Single(tests[t]), TotalOf(rest));
      PlusAssociates(Single(tests[t]), Single(tests[u]), TotalOf(rest));
      PlusCommutes(Single(tests[u]), Single(tests[t]));
    }
  }

  lemma UnionWithout(a: map<TestId, Record>, b: map<TestId, Record>, t: TestId)
    requires a.Keys !! b.Keys && t in a
    ensures (a + b) - {t} == (a - {t}) + b
    ensures (a + b)[t] == a[t]
  {
    var left, right := (a + b) - {t}, (a - {t}) + b;
    assert t !in b && left.Keys == right.Keys;
    assert forall u :: u in left ==> left[u] == right[u];
  }

  lemma SmallerWithout(a: map<TestId, Record>, t: TestId)
    requires t in a
    ensures (a - {t}).Keys == a.Keys - {t} && |a - {t}| < |a|
  {
    assert |(a - {t}).Keys| == |a - {t}| && |a.Keys| == |a|;
  }

  lemma TotalNone(b: map<TestId, Record>)
    ensures TotalOf(b) == Plus(TotalOf(map[]), TotalOf(b))
  {
    PlusNothing(TotalOf(b));
    PlusCommutes(NOTHING, TotalOf(b));
  }

  /** Tests kept apart may be counted apart. */
  lemma {:induction false} TotalUnion(a: map<TestId, Record>, b: map<TestId, Record>)
    requires a.Keys !! b.Keys
    ensures TotalOf(a + b) == Plus(TotalOf(a), TotalOf(b))
    decreases |a|
  {
    hide TotalOf, Plus, Single;
    if a.Keys == {} {
      assert a == map[] && a + b == b;
      TotalNone(b);
    } else {
      var t :| t in a;
      TotalRemove(a, t);
      TotalRemove(a + b, t);
      UnionWithout(a, b, t);
      SmallerWithout(a, t);
      TotalUnion(a - {t}, b);
      PlusAssociates(Single(a[t]), TotalOf(a - {t}), TotalOf(b));
    }
  }

  // ----- retries

  /** The record that counts for each test: the last one with the highest retry. */
  function Latest(records: seq<Record>): map<TestId, Record> {
    if records == [] then map[]
    else
      var latest, r := Latest(records[..|records| - 1]), records[|records| - 1];
      if r.testId !in latest || r.retry >= latest[r.testId].retry then latest[r.testId := r] else latest
  }

  lemma {:induction false} LatestIsLastHighest(records: seq<Record>, t: TestId)
    ensures t in Latest(records) <==> HasTest(records, t)
    ensures t in Latest(records) ==> exists i: nat :: IsLatest(records, t, i) && Latest(records)[t] == records[i]
  {
    if records != [] {
      var n := |records| - 1;
      var before, r := records[..n], records[n];
      LatestIsLastHighest(before, t);
      assert records == before + [r];
      assert t in Latest(records) <==> t in Latest(before) || r.testId == t;
      assert HasTest(records, t) <==> HasTest(before, t) || r.testId == t by { HasTestStep(before, r, t); }
      hide Latest, HasTest, IsLatest;
      if r.testId == t {
        LatestStep(before, r);
      } else if t in Latest(before) {
        LatestOther(before, r, t);
      }
    }
  }

  lemma HasTestStep(before: seq<Record>, r: Record, t: TestId)
    ensures HasTest(before + [r], t) <==> HasTest(before, t) || r.testId == t
  {
    var records := before + [r];
    assert records[|before|] == r && forall j :: 0 <= j < |before| ==> records[j] == before[j];
  }

  lemma LatestOther(before: seq<Record>, r: Record, t: TestId)
    requires r.testId != t && t in Latest(before)
    requires exists i: nat :: IsLatest(before, t, i) && Latest(before)[t] == before[i]
    ensures t in Latest(before + [r])
    ensures exists i: nat :: IsLatest(before + [r], t, i) && Latest(before + [r])[t] == (before + [r])[i]
  {
    var i: nat :| IsLatest(before, t, i) && Latest(before)[t] == before[i];
    assert (before + [r])[..|before|] == before;
    assert IsLatest(before + [r], t, i);
  }

  lemma LatestStep(before: seq<Record>, r: Record)
    requires r.testId in Latest(before) <==> HasTest(before, r.testId)
    requires r.testId in Latest(before) ==>
      exists i: nat :: IsLatest(before, r.testId, i) && Latest(before)[r.testId] == before[i]
    ensures r.testId in Latest(before + [r])
    ensures exists i: nat :: IsLatest(before + [r], r.testId, i) && Latest(before + [r])[r.testId] == (before + [r])[i]
  {
    var records, n, t := before + [r], |before|, r.testId;
    assert records[..n] == before;
    if t in Latest(before) && r.retry < Latest(before)[t].retry {
      var i: nat :| IsLatest(before, t, i) && Latest(before)[t] == before[i];
      assert IsLatest(records, t, i);
      assert Latest(records)[t] == records[i];
    } else {
      assert IsLatest(records, t, n);
      assert Latest(records)[t] == records[n];
    }
  }

  ghost predicate HasTest(records: seq<Record>, t: TestId) {
    exists i :: 0 <= i < |records| && records[i].testId == t
  }

  ghost predicate IsLatest(records: seq<Record>, t: TestId, i: nat) {
    && i < |records| && records[i].testId == t
    && (forall j :: 0 <= j < |records| && records[j].testId == t ==> records[j].retry <= records[i].retry)
    && forall j :: i < j < |records| && records[j].testId == t ==> records[j].retry < records[i].retry
  }

  /** The records of one test, in order. */
  function Only(records: seq<Record>, t: TestId): seq<Record> {
    if records == [] then []
    else
      var before, r := Only(records[..|records| - 1], t), records[|records| - 1];
      if r.testId == t then before + [r] else before
  }

  /** Which record counts depends on the records of that test alone. */
  lemma {:induction false} LatestOnly(records: seq<Record>, t: TestId)
    ensures t in Latest(records) <==> Only(records, t) != []
    ensures t in Latest(records) ==> t in Latest(Only(records, t)) && Latest(Only(records, t))[t] == Latest(records)[t]
  {
    if records != [] {
      var before, r := records[..|records| - 1], records[|records| - 1];
      LatestOnly(before, t);
      if r.testId == t {
        var only := Only(records, t);
        assert only[..|only| - 1] == Only(before, t);
        if Only(before, t) == [] { assert Latest(only[..|only| - 1]) == map[]; }
      }
    }
  }

  /** `all` holds the records of the shards, each test's in its shard's order. */
  ghost predicate Interleaves(all: seq<Record>, shards: seq<seq<Record>>) {
    && (forall k, t :: 0 <= k < |shards| && Only(shards[k], t) != [] ==> Only(all, t) == Only(shards[k], t))
    && forall t :: Only(all, t) != [] ==> exists k :: 0 <= k < |shards| && Only(shards[k], t) != []
  }

  /** No test ran in two shards. */
  ghost predicate DisjointTests(shards: seq<seq<Record>>) {
    forall j, k, t :: 0 <= j < k < |shards| ==> Only(shards[j], t) == [] || Only(shards[k], t) == []
  }

  lemma DisjointPrefix(shards: seq<seq<Record>>, n: nat)
    requires DisjointTests(shards) && n <= |shards|
    ensures DisjointTests(shards[..n])
  {
    forall j, k, t | 0 <= j < k < n ensures Only(shards[..n][j], t) == [] || Only(shards[..n][k], t) == [] {
      assert Only(shards[j], t) == [] || Only(shards[k], t) == [];
    }
  }

  ghost function LatestOfAll(shards: seq<seq<Record>>): map<TestId, Record> {
    if shards == [] then map[] else LatestOfAll(shards[..|shards| - 1]) + Latest(shards[|shards| - 1])
  }

  lemma {:induction false} LatestOfAllIs(shards: seq<seq<Record>>, t: TestId)
    requires DisjointTests(shards)
    ensures t in LatestOfAll(shards) <==> exists k :: 0 <= k < |shards| && Only(shards[k], t) != []
    ensures forall k :: 0 <= k < |shards| && Only(shards[k], t) != [] ==>
      t in Latest(shards[k]) && t in LatestOfAll(shards) && LatestOfAll(shards)[t] == Latest(shards[k])[t]
  {
    if shards != [] {
      var n := |shards| - 1;
      var before := shards[..n];
      DisjointPrefix(shards, n);
      LatestOfAllIs(before, t);
      LatestOnly(shards[n], t);
      forall k | 0 <= k < n && Only(shards[k], t) != [] ensures Only(before[k], t) != [] && Only(shards[n], t) == [] {
      }
    }
  }

  lemma LatestInterleaved(all: seq<Record>, shards: seq<seq<Record>>)
    requires Interleaves(all, shards) && DisjointTests(shards)
    ensures Latest(all) == LatestOfAll(shards)
  {
    forall t ensures t in Latest(all) <==> t in LatestOfAll(shards) {
      LatestOnly(all, t);
      LatestOfAllIs(shards, t);
    }
    forall t | t in Latest(all) ensures Latest(all)[t] == LatestOfAll(shards)[t] {
      LatestOnly(all, t);
      LatestOfAllIs(shards, t);
      var k :| 0 <= k < |shards| && Only(shards[k], t) != [];
      LatestOnly(shards[k], t);
    }
  }

  // ----- merging

  /** The merge of several bodies. */
  function Merged(bodies: seq<Body>): Body {
    if bodies == [] then NOTHING else Plus(Merged(bodies[..|bodies| - 1]), bodies[|bodies| - 1])
  }

  ghost function Aggregates(shards: seq<seq<Record>>): seq<Body> {
    seq(|shards|, k requires 0 <= k < |shards| => TotalOf(Latest(shards[k])))
  }

  lemma {:induction false} MergedIsTotal(shards: seq<seq<Record>>)
    requires DisjointTests(shards)
    ensures Merged(Aggregates(shards)) == TotalOf(LatestOfAll(shards))
  {
    if shards != [] {
      var n := |shards| - 1;
      var before := shards[..n];
      DisjointPrefix(shards, n);
      LatestApart(shards);
      assert Aggregates(shards)[..n] == Aggregates(before);
      hide TotalOf, Latest, LatestOfAll, Plus, DisjointTests;
      MergedIsTotal(before);
      TotalUnion(LatestOfAll(before), Latest(shards[n]));
      LatestOfAllStep(shards);
    }
  }

  lemma LatestOfAllStep(shards: seq<seq<Record>>)
    requires shards != []
    ensures LatestOfAll(shards) == LatestOfAll(shards[..|shards| - 1]) + Latest(shards[|shards| - 1])
  {
  }

  lemma LatestApart(shards: seq<seq<Record>>)
    requires shards != [] && DisjointTests(shards)
    ensures LatestOfAll(shards[..|shards| - 1]).Keys !! Latest(shards[|shards| - 1]).Keys
  {
    var n := |shards| - 1;
    var before := shards[..n];
    DisjointPrefix(shards, n);
    forall t | t in LatestOfAll(before) ensures t !in Latest(shards[n]) {
      LatestOfAllIs(before, t);
      var k :| 0 <= k < n && Only(before[k], t) != [];
      assert Only(shards[k], t) != [];
      LatestOnly(shards[n], t);
    }
  }

  /** Merging the aggregates of shards that share no test equals aggregating all records
      at once, whatever the order of the shards and the interleaving of their records. */
  lemma MergeEqualsAggregate(all: seq<Record>, shards: seq<seq<Record>>)
    requires Interleaves(all, shards) && DisjointTests(shards)
    ensures Merged(Aggregates(shards)) == TotalOf(Latest(all))
  {
    LatestInterleaved(all, shards);
    MergedIsTotal(shards);
  }

  lemma {:induction false} MergedRemove(bodies: seq<Body>, i: nat)
    requires i < |bodies|
    ensures Merged(bodies) == Plus(Merged(bodies[..i] + bodies[i + 1..]), bodies[i])
  {
    var n := |bodies| - 1;
    if i < n {
      var before, last := bodies[..n], bodies[n];
      MergedRemove(before, i);
      var rest := bodies[..i] + bodies[i + 1..];
      var rest' := before[..i] + before[i + 1..];
      assert rest[..|rest| - 1] == rest' && rest[|rest| - 1] == last;
      PlusAssociates(Merged(rest'), bodies[i], last);
      PlusAssociates(Merged(rest'), last, bodies[i]);
      PlusCommutes(bodies[i], last);
    } else {
      assert bodies[..i] + bodies[i + 1..] == bodies[..n];
    }
  }

  /** The order in which maps are merged does not matter. */
  lemma {:induction false} MergedPermutation(a: seq<Body>, b: seq<Body>)
    requires multiset(a) == multiset(b)
    ensures Merged(a) == Merged(b)
    decreases |a|
  {
    assert |a| == |multiset(a)| == |multiset(b)| == |b|;
    if a != [] {
      var n := |a| - 1;
      hide Plus;
      var i := SameElementsWithout(a, b);
      MergedRemove(b, i);
      MergedPermutation(a[..n], b[..i] + b[i + 1..]);
    }
  }

  lemma SameElementsWithout(a: seq<Body>, b: seq<Body>) returns (i: nat)
    requires multiset(a) == multiset(b) && a != []
    ensures i < |b| && b[i] == a[|a| - 1]
    ensures multiset(a[..|a| - 1]) == multiset(b[..i] + b[i + 1..])
  {
    var n := |a| - 1;
    assert a[n] in multiset(b);
    i :| 0 <= i < |b| && b[i] == a[n];
    MultisetWithout(a, n);
    MultisetWithout(b, i);
    assert a[..n] + a[n + 1..] == a[..n];
    MultisetCancel(multiset(a[..n]), multiset(b[..i] + b[i + 1..]), multiset{a[n]});
  }
}
