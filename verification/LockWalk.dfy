/** The dependency closure of a lock file, sensitive to requested extras, with the scope
    that first reaches each package. */
module LockWalk {
  import opened Collections
  import opened Ordering
  import opened Reachability

  datatype Dep = Dep(name: string, version: Option<string>, extras: seq<string>)

  datatype Pkg = Pkg(name: string, version: Option<string>, dependencies: seq<Dep>, optional: map<string, seq<Dep>>)
  {
    function Key(): (string, string) {
      (name, if version.Some? then version.value else "")
    }
  }

  type Key = (string, string)
  type Lock = seq<Pkg>

  /** A package as reached with a list of requested extras. */
  datatype Visit = Visit(key: Key, extras: seq<string>)

  /** The packages of that name and, if the dependency pins one, of that version. */
  function DepKeys(lock: Lock, dep: Dep): (keys: seq<Key>)
    ensures forall k :: k in keys ==> exists p :: p in lock && p.Key() == k
  {
    if lock == [] then []
    else
      var p, rest := lock[|lock| - 1], DepKeys(lock[..|lock| - 1], dep);
      if p.name == dep.name && (dep.version.Some? ==> p.version == dep.version) then rest + [p.Key()] else rest
  }

  /** The last package with the key, as a dictionary built in order keeps it. */
  function ByKey(lock: Lock, key: Key): (p: Pkg)
    requires exists p :: p in lock && p.Key() == key
    ensures p in lock && p.Key() == key
  {
    if lock[|lock| - 1].Key() == key then lock[|lock| - 1] else ByKey(lock[..|lock| - 1], key)
  }

  function Optional(p: Pkg, extras: seq<string>): seq<Dep> {
    if extras == [] then []
    else
      var last := extras[|extras| - 1];
      Optional(p, extras[..|extras| - 1]) + if last in p.optional then p.optional[last] else []
  }

  predicate Known(lock: Lock, key: Key) {
    exists p :: p in lock && p.Key() == key
  }

  /** What a visited package asks for. */
  function Out(lock: Lock, v: Visit): seq<Dep> {
    if Known(lock, v.key) then ByKey(lock, v.key).dependencies + Optional(ByKey(lock, v.key), v.extras) else []
  }

  function DepVisits(lock: Lock, dep: Dep): set<Visit> {
    set k | k in DepKeys(lock, dep) :: Visit(k, dep.extras)
  }

  function Visits(lock: Lock, deps: seq<Dep>): set<Visit> {
    set d, k | d in deps && k in DepKeys(lock, d) :: Visit(k, d.extras)
  }

  function Succ(lock: Lock): Visit -> set<Visit> {
    v => Visits(lock, Out(lock, v))
  }

  ghost predicate Reaches(lock: Lock, start: seq<Dep>, v: Visit) {
    Reached(v, Visits(lock, start), Succ(lock))
  }

  ghost predicate ReachesKey(lock: Lock, start: seq<Dep>, key: Key) {
    exists v: Visit :: v.key == key && Reaches(lock, start, v)
  }

  // ----- what reachability means

  /** The dependency stands for the package: its name and, if one is pinned, its version agree. */
  ghost predicate StandsFor(lock: Lock, d: Dep, k: Key) {
    exists p :: p in lock && p.Key() == k && p.name == d.name && (d.version.Some? ==> p.version == d.version)
  }

  /** `p` is the last package of the lock with its key. */
  ghost predicate LastOfKey(lock: Lock, p: Pkg) {
    exists i: nat :: i < |lock| && lock[i] == p && forall j :: i < j < |lock| ==> lock[j].Key() != p.Key()
  }

  /** A visited package depends on `d`, by itself or through an extra that is requested of it. */
  ghost predicate AsksFor(lock: Lock, v: Visit, d: Dep) {
    exists p :: LastOfKey(lock, p) && p.Key() == v.key &&
      (d in p.dependencies || exists e :: e in v.extras && e in p.optional && d in p.optional[e])
  }

  lemma {:induction false} DepKeysAre(lock: Lock, d: Dep, k: Key)
    ensures k in DepKeys(lock, d) <==> StandsFor(lock, d, k)
  {
    if lock != [] {
      var p, rest := lock[|lock| - 1], lock[..|lock| - 1];
      DepKeysAre(rest, d, k);
      assert lock == rest + [p];
      assert forall q :: q in lock <==> q in rest || q == p;
    }
  }

  lemma {:induction false} OptionalIs(p: Pkg, extras: seq<string>, d: Dep)
    ensures d in Optional(p, extras) <==> exists e :: e in extras && e in p.optional && d in p.optional[e]
  {
    if extras != [] {
      var rest, last := extras[..|extras| - 1], extras[|extras| - 1];
      OptionalIs(p, rest, d);
      assert extras == rest + [last];
    }
  }

  lemma {:induction false} ByKeyIsLast(lock: Lock, key: Key) returns (i: nat)
    requires Known(lock, key)
    ensures i < |lock| && lock[i] == ByKey(lock, key) && forall j :: i < j < |lock| ==> lock[j].Key() != key
  {
    var rest, p := lock[..|lock| - 1], lock[|lock| - 1];
    if p.Key() == key {
      i := |lock| - 1;
    } else {
      i := ByKeyIsLast(rest, key);
    }
  }

  lemma LastUnique(lock: Lock, p: Pkg, q: Pkg)
    requires LastOfKey(lock, p) && LastOfKey(lock, q) && p.Key() == q.Key()
    ensures p == q
  {
    var i: nat :| i < |lock| && lock[i] == p && forall j :: i < j < |lock| ==> lock[j].Key() != p.Key();
    var j: nat :| j < |lock| && lock[j] == q && forall k :: j < k < |lock| ==> lock[k].Key() != q.Key();
    assert i == j;
  }

  lemma LastIsKnown(lock: Lock, p: Pkg)
    requires LastOfKey(lock, p)
    ensures p in lock && Known(lock, p.Key())
  {
  }

  lemma OutIs(lock: Lock, v: Visit, d: Dep)
    ensures d in Out(lock, v) <==> AsksFor(lock, v, d)
  {
    hide Optional, DepKeys, LastOfKey;
    if Known(lock, v.key) {
      var i := ByKeyIsLast(lock, v.key);
      var p := ByKey(lock, v.key);
      KnownIsLast(lock, i);
      OptionalIs(p, v.extras, d);
      hide ByKey;
      forall q | LastOfKey(lock, q) && q.Key() == v.key ensures q == p {
        LastUnique(lock, p, q);
      }
    } else if p :| LastOfKey(lock, p) && p.Key() == v.key {
      LastIsKnown(lock, p);
    }
  }

  lemma KnownIsLast(lock: Lock, i: nat)
    requires i < |lock| && forall j :: i < j < |lock| ==> lock[j].Key() != lock[i].Key()
    ensures LastOfKey(lock, lock[i])
  {
  }

  /** A package is reached with extras exactly when a start, or a dependency that a reached package
      has by itself or through an extra requested of it, stands for the package and asks for these. */
  lemma ReachesIff(lock: Lock, start: seq<Dep>, v: Visit)
    ensures Reaches(lock, start, v) <==>
      || (exists d :: d in start && StandsFor(lock, d, v.key) && d.extras == v.extras)
      || (exists u, d :: Reaches(lock, start, u) && AsksFor(lock, u, d) && StandsFor(lock, d, v.key) && d.extras == v.extras)
  {
    VisitsAre(lock, start, v);
    hide Visits, StandsFor, AsksFor, Out, DepKeys;
    if Reaches(lock, start, v) && v !in Visits(lock, start) {
      var u := ReachedFrom(v, Visits(lock, start), Succ(lock));
      VisitsAre(lock, Out(lock, u), v);
      var d :| d in Out(lock, u) && StandsFor(lock, d, v.key) && d.extras == v.extras;
      OutIs(lock, u, d);
    }
    if u, d :| Reaches(lock, start, u) && AsksFor(lock, u, d) && StandsFor(lock, d, v.key) && d.extras == v.extras {
      OutIs(lock, u, d);
      VisitsAre(lock, Out(lock, u), v);
      ReachedStep(u, v, Visits(lock, start), Succ(lock));
    }
    if v in Visits(lock, start) { ReachedStart(v, Visits(lock, start), Succ(lock)); }
  }

  lemma VisitsAre(lock: Lock, deps: seq<Dep>, v: Visit)
    ensures v in Visits(lock, deps) <==> exists d :: d in deps && StandsFor(lock, d, v.key) && d.extras == v.extras
  {
    hide StandsFor, DepKeys;
    forall d ensures v.key in DepKeys(lock, d) <==> StandsFor(lock, d, v.key) {
      DepKeysAre(lock, d, v.key);
    }
  }

  // ----- the worklist

  /** All extras lists that the walk can meet, and so all visits. */
  function AllDeps(lock: Lock): set<Dep> {
    (set p, d | p in lock && d in p.dependencies :: d) +
    (set p, e, d | p in lock && e in p.optional && d in p.optional[e] :: d)
  }

  function Universe(lock: Lock, start: seq<Dep>): set<Visit> {
    set p, d | p in lock && d in AllDeps(lock) + (set s | s in start) :: Visit(p.Key(), d.extras)
  }

  lemma {:induction false} OptionalWithin(lock: Lock, p: Pkg, extras: seq<string>)
    requires p in lock
    ensures forall d :: d in Optional(p, extras) ==> d in AllDeps(lock)
  {
    if extras != [] { OptionalWithin(lock, p, extras[..|extras| - 1]); }
  }

  lemma OutWithin(lock: Lock, v: Visit)
    ensures forall d :: d in Out(lock, v) ==> d in AllDeps(lock)
  {
    if Known(lock, v.key) {
      OptionalWithin(lock, ByKey(lock, v.key), v.extras);
    }
  }

  lemma VisitWithin(lock: Lock, start: seq<Dep>, d: Dep, k: Key)
    requires (d in AllDeps(lock) || d in start) && k in DepKeys(lock, d)
    ensures Visit(k, d.extras) in Universe(lock, start)
  {
    var p :| p in lock && p.Key() == k;
  }

  /** A dependency is still on the stack, or all it stands for has been visited. */
  ghost predicate Covered(lock: Lock, d: Dep, visited: set<Visit>, stack: seq<Dep>) {
    d in stack || DepVisits(lock, d) <= visited
  }

  ghost predicate FromStart(lock: Lock, start: seq<Dep>, d: Dep) {
    && (d in AllDeps(lock) || d in start)
    && forall v :: v in DepVisits(lock, d) ==> Reaches(lock, start, v)
  }

  ghost predicate StackOk(lock: Lock, start: seq<Dep>, stack: seq<Dep>) {
    forall d :: d in stack ==> FromStart(lock, start, d)
  }

  ghost predicate AllCovered(lock: Lock, deps: seq<Dep>, visited: set<Visit>, stack: seq<Dep>, current: Option<Dep>) {
    forall d :: d in deps ==> Covered(lock, d, visited, stack) || current == Some(d)
  }

  /** What every point of the walk keeps; `current` is the dependency being expanded. */
  ghost predicate Walking(lock: Lock, start: seq<Dep>, visited: set<Visit>, stack: seq<Dep>, current: Option<Dep>) {
    && visited <= Universe(lock, start)
    && (forall v :: v in visited ==> Reaches(lock, start, v))
    && StackOk(lock, start, stack)
    && AllCovered(lock, start, visited, stack, current)
    && forall v :: v in visited ==> AllCovered(lock, Out(lock, v), visited, stack, current)
  }

  lemma WalkStart(lock: Lock, start: seq<Dep>)
    ensures Walking(lock, start, {}, start, None)
  {
    forall d | d in start ensures FromStart(lock, start, d) {
      forall v | v in DepVisits(lock, d) ensures Reaches(lock, start, v) {
        assert v in Visits(lock, start);
        ReachedStart(v, Visits(lock, start), Succ(lock));
      }
    }
  }

  lemma WalkPop(lock: Lock, start: seq<Dep>, visited: set<Visit>, stack: seq<Dep>)
    requires Walking(lock, start, visited, stack, None) && stack != []
    ensures Walking(lock, start, visited, stack[..|stack| - 1], Some(stack[|stack| - 1]))
    ensures FromStart(lock, start, stack[|stack| - 1])
  {
    var rest, last := stack[..|stack| - 1], stack[|stack| - 1];
    assert stack == rest + [last];
    hide Reaches, FromStart, Universe, Out;
    forall deps | AllCovered(lock, deps, visited, stack, None) ensures AllCovered(lock, deps, visited, rest, Some(last)) {
      forall d | d in deps ensures Covered(lock, d, visited, rest) || d == last {
        assert Covered(lock, d, visited, stack);
      }
    }
  }

  lemma OutFromStart(lock: Lock, start: seq<Dep>, v: Visit, d: Dep)
    requires Reaches(lock, start, v) && d in Out(lock, v)
    ensures FromStart(lock, start, d)
  {
    OutWithin(lock, v);
    hide Out, AllDeps;
    forall w | w in DepVisits(lock, d) ensures Reaches(lock, start, w) {
      assert w in Succ(lock)(v);
      ReachedStep(v, w, Visits(lock, start), Succ(lock));
    }
  }

  lemma StillCovered(lock: Lock, deps: seq<Dep>, visited: set<Visit>, stack: seq<Dep>, current: Option<Dep>, v: Visit, more: seq<Dep>)
    requires AllCovered(lock, deps, visited, stack, current)
    ensures AllCovered(lock, deps, visited + {v}, stack + more, current)
  {
  }

  lemma OutCovered(lock: Lock, out: seq<Dep>, visited: set<Visit>, stack: seq<Dep>, current: Option<Dep>)
    ensures AllCovered(lock, out, visited, stack + out, current)
  {
  }

  lemma StackJoin(lock: Lock, start: seq<Dep>, stack: seq<Dep>, more: seq<Dep>)
    requires StackOk(lock, start, stack) && StackOk(lock, start, more)
    ensures StackOk(lock, start, stack + more)
  {
    hide FromStart;
  }

  lemma VisitReached(lock: Lock, start: seq<Dep>, dep: Dep, key: Key)
    requires FromStart(lock, start, dep) && key in DepKeys(lock, dep)
    ensures
      var v := Visit(key, dep.extras);
      v in Universe(lock, start) && Reaches(lock, start, v) && StackOk(lock, start, Out(lock, v))
  {
    var v := Visit(key, dep.extras);
    VisitWithin(lock, start, dep, key);
    assert v in DepVisits(lock, dep);
    forall d | d in Out(lock, v) ensures FromStart(lock, start, d) {
      OutFromStart(lock, start, v, d);
    }
  }

  lemma WalkVisit(lock: Lock, start: seq<Dep>, visited: set<Visit>, stack: seq<Dep>, dep: Dep, key: Key)
    requires Walking(lock, start, visited, stack, Some(dep))
    requires FromStart(lock, start, dep) && key in DepKeys(lock, dep)
    ensures
      var v := Visit(key, dep.extras);
      Walking(lock, start, visited + {v}, stack + Out(lock, v), Some(dep))
  {
    var v := Visit(key, dep.extras);
    var out := Out(lock, v);
    VisitReached(lock, start, dep, key);
    OutCovered(lock, out, visited + {v}, stack, Some(dep));
    hide Reaches, FromStart, Universe, Out, AllCovered, StackOk, DepKeys;
    StackJoin(lock, start, stack, out);
    StillCovered(lock, start, visited, stack, Some(dep), v, out);
    OutsCovered(lock, visited, stack, dep, v, out);
  }

  lemma OutsCovered(lock: Lock, visited: set<Visit>, stack: seq<Dep>, dep: Dep, v: Visit, out: seq<Dep>)
    requires forall w :: w in visited ==> AllCovered(lock, Out(lock, w), visited, stack, Some(dep))
    ensures forall w :: w in visited ==> AllCovered(lock, Out(lock, w), visited + {v}, stack + out, Some(dep))
  {
    hide AllCovered, Out;
    forall w | w in visited ensures AllCovered(lock, Out(lock, w), visited + {v}, stack + out, Some(dep)) {
      StillCovered(lock, Out(lock, w), visited, stack, Some(dep), v, out);
    }
  }

  lemma WalkInUniverse(lock: Lock, start: seq<Dep>, visited: set<Visit>, stack: seq<Dep>, current: Option<Dep>)
    requires Walking(lock, start, visited, stack, current)
    ensures visited <= Universe(lock, start)
  {
  }

  lemma WalkDone(lock: Lock, start: seq<Dep>, visited: set<Visit>, stack: seq<Dep>, dep: Dep)
    requires Walking(lock, start, visited, stack, Some(dep)) && DepVisits(lock, dep) <= visited
    ensures Walking(lock, start, visited, stack, None)
  {
    hide Reaches, StackOk, Universe, Out, DepVisits;
    assert Covered(lock, dep, visited, stack);
    hide Covered;
  }

  lemma CoveredVisited(lock: Lock, deps: seq<Dep>, visited: set<Visit>)
    requires forall d :: d in deps ==> Covered(lock, d, visited, [])
    ensures Visits(lock, deps) <= visited
  {
    forall v | v in Visits(lock, deps) ensures v in visited {
      var d, k :| d in deps && k in DepKeys(lock, d) && v == Visit(k, d.extras);
      assert Covered(lock, d, visited, []);
      assert v in DepVisits(lock, d);
    }
  }

  lemma VisitedClosed(lock: Lock, start: seq<Dep>, visited: set<Visit>)
    requires Walking(lock, start, visited, [], None)
    ensures Visits(lock, start) <= visited
    ensures forall v :: v in visited ==> Succ(lock)(v) <= visited
  {
    hide Covered, Reaches, FromStart, Out;
    CoveredVisited(lock, start, visited);
    forall v | v in visited ensures Succ(lock)(v) <= visited {
      CoveredVisited(lock, Out(lock, v), visited);
    }
  }

  /** With an empty stack, the visited set is exactly what can be reached. */
  lemma WalkEnd(lock: Lock, start: seq<Dep>, visited: set<Visit>)
    requires Walking(lock, start, visited, [], None)
    ensures forall v :: v in visited <==> Reaches(lock, start, v)
  {
    VisitedClosed(lock, start, visited);
    var starts, succ := Visits(lock, start), Succ(lock);
    hide Covered, Succ, Visits;
    forall v | Reaches(lock, start, v) ensures v in visited {
      ClosedHoldsReached(visited, v, starts, succ);
    }
  }

  ghost predicate Labelled(before: map<Key, string>, seen: map<Key, string>, visited: set<Visit>, scope: string) {
    && (forall k :: k in seen <==> k in before || exists v: Visit :: v in visited && v.key == k)
    && forall k :: k in seen ==> seen[k] == if k in before then before[k] else scope
  }

  /** `walk`: everything reachable from `start` that has no scope yet gets this one. */
  method Walk(lock: Lock, start: seq<Dep>, scope: string, before: map<Key, string>) returns (seen: map<Key, string>)
    ensures forall k :: k in seen <==> k in before || ReachesKey(lock, start, k)
    ensures forall k :: k in seen ==> seen[k] == if k in before then before[k] else scope
  {
    seen := before;
    var visited: set<Visit> := {};
    var stack := start;
    WalkStart(lock, start);
    while stack != []
      invariant Walking(lock, start, visited, stack, None)
      invariant Labelled(before, seen, visited, scope)
      decreases Universe(lock, start) - visited, |stack|
    {
      var dep := stack[|stack| - 1];
      WalkPop(lock, start, visited, stack);
      ghost var visited0, stack0 := visited, stack[..|stack| - 1];
      stack := stack[..|stack| - 1];
      hide Walking, FromStart, Universe, Out;
      visited, stack, seen := Expand(lock, start, scope, before, visited, stack, seen, dep);
    }
    WalkEnd(lock, start, visited);
    hide Reaches, Walking;
    forall k ensures k in seen <==> k in before || ReachesKey(lock, start, k) {
    }
  }

  /** The loop over the packages that one dependency stands for. */
  method Expand(lock: Lock, ghost start: seq<Dep>, scope: string, ghost before: map<Key, string>,
                visited0: set<Visit>, stack0: seq<Dep>, seen0: map<Key, string>, dep: Dep)
    returns (visited: set<Visit>, stack: seq<Dep>, seen: map<Key, string>)
    requires Walking(lock, start, visited0, stack0, Some(dep)) && FromStart(lock, start, dep)
    requires Labelled(before, seen0, visited0, scope)
    ensures Walking(lock, start, visited, stack, None) && Labelled(before, seen, visited, scope)
    ensures visited0 <= visited <= Universe(lock, start)
    ensures visited == visited0 ==> stack == stack0
  {
    visited, stack, seen := visited0, stack0, seen0;
    var keys := DepKeys(lock, dep);
    hide Walking, FromStart, Universe, Out, Reaches;
    for i := 0 to |keys|
      invariant Walking(lock, start, visited, stack, Some(dep)) && Labelled(before, seen, visited, scope)
      invariant visited0 <= visited && (visited == visited0 ==> stack == stack0)
      invariant forall j :: 0 <= j < i ==> Visit(keys[j], dep.extras) in visited
    {
      var visit := Visit(keys[i], dep.extras);
      if visit !in visited {
        WalkVisit(lock, start, visited, stack, dep, keys[i]);
        visited := visited + {visit};
        if visit.key !in seen {
          seen := seen[visit.key := scope];
        }
        stack := stack + Out(lock, visit);
      }
    }
    WalkDone(lock, start, visited, stack, dep);
    WalkInUniverse(lock, start, visited, stack, None);
  }

  // ----- all walks of the roots

  datatype Start = Start(deps: seq<Dep>, scope: string)

  datatype Root = Root(dependencies: seq<Dep>, optional: map<string, seq<Dep>>, dev: map<string, seq<Dep>>)

  /** A root's named groups, sorted by name. */
  ghost function Groups(groups: map<string, seq<Dep>>, prefix: string): seq<Start> {
    ByName.SortLists(groups.Keys);
    Named(ByName.Sort(groups.Keys), groups, prefix)
  }

  ghost function Named(names: seq<string>, groups: map<string, seq<Dep>>, prefix: string): seq<Start>
    requires forall n :: n in names ==> n in groups
  {
    seq(|names|, i requires 0 <= i < |names| => Start(groups[names[i]], prefix + names[i]))
  }

  /** One root's walks: its dependencies, its extras by name, then its groups by name. */
  ghost function RootStarts(root: Root, includeDev: bool): seq<Start> {
    [Start(root.dependencies, "runtime")] + Groups(root.optional, "extra:") +
    (if includeDev then Groups(root.dev, "dev:") else [])
  }

  ghost function AllStarts(roots: seq<Root>, includeDev: bool): seq<Start> {
    if roots == [] then []
    else AllStarts(roots[..|roots| - 1], includeDev) + RootStarts(roots[|roots| - 1], includeDev)
  }

  /** `i` is the first walk that reaches the package. */
  ghost predicate FirstReach(lock: Lock, starts: seq<Start>, key: Key, i: nat) {
    && i < |starts| && ReachesKey(lock, starts[i].deps, key)
    && forall j :: 0 <= j < i ==> !ReachesKey(lock, starts[j].deps, key)
  }

  /** A package is seen exactly when some walk reaches it, under the scope of the first. */
  ghost predicate FirstScopes(lock: Lock, starts: seq<Start>, seen: map<Key, string>) {
    && (forall k :: k in seen <==> exists i :: 0 <= i < |starts| && ReachesKey(lock, starts[i].deps, k))
    && forall k, i: nat :: k in seen && FirstReach(lock, starts, k, i) ==> seen[k] == starts[i].scope
  }

  lemma FirstScopesStep(lock: Lock, starts: seq<Start>, s: Start, seen: map<Key, string>, more: map<Key, string>)
    requires FirstScopes(lock, starts, seen)
    requires forall k :: k in more <==> k in seen || ReachesKey(lock, s.deps, k)
    requires forall k :: k in more ==> more[k] == if k in seen then seen[k] else s.scope
    ensures FirstScopes(lock, starts + [s], more)
  {
    var all := starts + [s];
    hide ReachesKey;
    forall k ensures k in more <==> exists i :: 0 <= i < |all| && ReachesKey(lock, all[i].deps, k) {
      if k in seen {
        var i :| 0 <= i < |starts| && ReachesKey(lock, starts[i].deps, k);
        assert ReachesKey(lock, all[i].deps, k);
      } else if ReachesKey(lock, s.deps, k) {
        assert all[|starts|] == s;
      } else {
        forall i | 0 <= i < |all| ensures !ReachesKey(lock, all[i].deps, k) {
          assert i < |starts| ==> all[i] == starts[i];
        }
      }
    }
    forall k, i: nat | k in more && FirstReach(lock, all, k, i) ensures more[k] == all[i].scope {
      if i < |starts| {
        assert all[i] == starts[i];
        forall j | 0 <= j < i ensures !ReachesKey(lock, starts[j].deps, k) {
          assert all[j] == starts[j];
        }
        assert FirstReach(lock, starts, k, i);
      } else {
        assert all[i] == s;
        forall j | 0 <= j < |starts| ensures !ReachesKey(lock, starts[j].deps, k) {
          assert all[j] == starts[j];
        }
      }
    }
  }

  method WalkOne(lock: Lock, deps: seq<Dep>, scope: string, ghost starts: seq<Start>, before: map<Key, string>)
    returns (seen: map<Key, string>)
    requires FirstScopes(lock, starts, before)
    ensures FirstScopes(lock, starts + [Start(deps, scope)], seen)
  {
    seen := Walk(lock, deps, scope, before);
    FirstScopesStep(lock, starts, Start(deps, scope), before, seen);
  }

  method WalkNamed(lock: Lock, names: seq<string>, groups: map<string, seq<Dep>>, prefix: string,
                   ghost starts: seq<Start>, before: map<Key, string>) returns (seen: map<Key, string>)
    requires forall n :: n in names ==> n in groups
    requires FirstScopes(lock, starts, before)
    ensures FirstScopes(lock, starts + Named(names, groups, prefix), seen)
  {
    seen := before;
    ghost var named := Named(names, groups, prefix);
    assert starts + named[..0] == starts;
    hide FirstScopes;
    for i := 0 to |names|
      invariant FirstScopes(lock, starts + named[..i], seen)
    {
      seen := WalkOne(lock, groups[names[i]], prefix + names[i], starts + named[..i], seen);
      assert starts + named[..i] + [named[i]] == starts + named[..i + 1];
    }
    assert named[..|names|] == named;
  }

  method WalkGroups(lock: Lock, groups: map<string, seq<Dep>>, prefix: string, ghost starts: seq<Start>, before: map<Key, string>)
    returns (seen: map<Key, string>)
    requires FirstScopes(lock, starts, before)
    ensures FirstScopes(lock, starts + Groups(groups, prefix), seen)
  {
    ByName.SortLists(groups.Keys);
    var names := ByName.SortSet(groups.Keys);
    hide FirstScopes, Named;
    seen := WalkNamed(lock, names, groups, prefix, starts, before);
  }

  method WalkRoot(lock: Lock, root: Root, includeDev: bool, ghost starts: seq<Start>, before: map<Key, string>)
    returns (seen: map<Key, string>)
    requires FirstScopes(lock, starts, before)
    ensures FirstScopes(lock, starts + RootStarts(root, includeDev), seen)
  {
    hide FirstScopes, Groups;
    ghost var first := [Start(root.dependencies, "runtime")];
    seen := WalkOne(lock, root.dependencies, "runtime", starts, before);
    seen := WalkGroups(lock, root.optional, "extra:", starts + first, seen);
    if includeDev {
      seen := WalkGroups(lock, root.dev, "dev:", starts + first + Groups(root.optional, "extra:"), seen);
      assert starts + first + Groups(root.optional, "extra:") + Groups(root.dev, "dev:") == starts + RootStarts(root, true);
    } else {
      assert starts + first + Groups(root.optional, "extra:") == starts + RootStarts(root, false);
    }
  }

  /** The walks of `uv_lock_entries`: each package is labelled by the first walk, in the
      order of the roots, that reaches it. */
  method WalkAll(lock: Lock, roots: seq<Root>, includeDev: bool) returns (seen: map<Key, string>)
    ensures FirstScopes(lock, AllStarts(roots, includeDev), seen)
  {
    seen := map[];
    for i := 0 to |roots|
      invariant FirstScopes(lock, AllStarts(roots[..i], includeDev), seen)
    {
      assert roots[..i + 1][..i] == roots[..i];
      seen := WalkRoot(lock, roots[i], includeDev, AllStarts(roots[..i], includeDev), seen);
    }
    assert roots[..|roots|] == roots;
  }
}
