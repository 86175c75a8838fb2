/** `test_dependents`: the test files that use a changed helper, directly or through
    other helpers. */
module TestDependents {
  import opened Reachability

  type Path = string

  /** The files, other than `x` itself, whose text mentions the file `x`. */
  function Users(files: set<Path>, mentions: (Path, Path) -> bool): Path -> set<Path> {
    x => set p | p in files && p != x && mentions(x, p)
  }

  ghost predicate Uses(files: set<Path>, mentions: (Path, Path) -> bool, changed: Path, p: Path) {
    Reached(p, Users(files, mentions)(changed), Users(files, mentions))
  }

  predicate IsSpec(p: Path) {
    |p| >= 8 && p[|p| - 8..] == ".spec.ts"
  }

  /** What every point of the search keeps; `expanding` is the file whose users are being
      added, if any. */
  ghost predicate Searching(files: set<Path>, mentions: (Path, Path) -> bool, changed: Path,
                            found: set<Path>, queue: seq<Path>, expanding: set<Path>)
  {
    && found <= files
    && (forall p :: p in found ==> Uses(files, mentions, changed, p))
    && (forall x :: x in queue ==> x == changed || x in found)
    && forall x :: (x == changed || x in found) && x !in queue && x !in expanding ==> Users(files, mentions)(x) <= found
  }

  lemma FoundUses(files: set<Path>, mentions: (Path, Path) -> bool, changed: Path, x: Path, p: Path)
    requires x == changed || Uses(files, mentions, changed, x)
    requires p in Users(files, mentions)(x)
    ensures Uses(files, mentions, changed, p)
  {
    var succ := Users(files, mentions);
    if x == changed { ReachedStart(p, succ(changed), succ); }
    else { ReachedStep(x, p, succ(changed), succ); }
  }

  lemma SearchEnd(files: set<Path>, mentions: (Path, Path) -> bool, changed: Path, found: set<Path>)
    requires Searching(files, mentions, changed, found, [], {})
    ensures forall p :: p in found <==> Uses(files, mentions, changed, p)
  {
    var succ := Users(files, mentions);
    forall p | Uses(files, mentions, changed, p) ensures p in found {
      ClosedHoldsReached(found, p, succ(changed), succ);
    }
  }

  lemma SearchFound(files: set<Path>, mentions: (Path, Path) -> bool, changed: Path,
                    found: set<Path>, queue: seq<Path>, current: Path, p: Path)
    requires Searching(files, mentions, changed, found, queue, {current})
    requires (current == changed || current in found) && p in Users(files, mentions)(current)
    ensures Searching(files, mentions, changed, found + {p}, queue + [p], {current})
  {
    FoundUses(files, mentions, changed, current, p);
    hide Uses;
  }

  lemma SearchPop(files: set<Path>, mentions: (Path, Path) -> bool, changed: Path, found: set<Path>, queue: seq<Path>)
    requires Searching(files, mentions, changed, found, queue, {}) && queue != []
    ensures
      var current := queue[|queue| - 1];
      && Searching(files, mentions, changed, found, queue[..|queue| - 1], {current})
      && (current == changed || current in found)
  {
    assert queue == queue[..|queue| - 1] + [queue[|queue| - 1]];
    hide Uses;
  }

  lemma SearchNext(files: set<Path>, mentions: (Path, Path) -> bool, changed: Path, found: set<Path>, queue: seq<Path>, current: Path)
    requires Searching(files, mentions, changed, found, queue, {current})
    requires forall p :: p in Users(files, mentions)(current) ==> p in found
    ensures Searching(files, mentions, changed, found, queue, {})
    ensures found <= files
  {
    hide Uses;
  }

  /** The loop over the files for one popped file. */
  method AddUsers(files: set<Path>, mentions: (Path, Path) -> bool, ghost changed: Path, current: Path,
                  found0: set<Path>, queue0: seq<Path>) returns (found: set<Path>, queue: seq<Path>)
    requires Searching(files, mentions, changed, found0, queue0, {current})
    requires current == changed || current in found0
    ensures Searching(files, mentions, changed, found, queue, {})
    ensures found0 <= found <= files && (found == found0 ==> queue == queue0)
  {
    found, queue := found0, queue0;
    var left := files;
    hide Searching;
    while left != {}
      invariant left <= files
      invariant Searching(files, mentions, changed, found, queue, {current})
      invariant found0 <= found && (found == found0 ==> queue == queue0)
      invariant forall p :: p in Users(files, mentions)(current) && p !in left ==> p in found
    {
      var p :| p in left;
      left := left - {p};
      if p !in found && p != current && mentions(current, p) {
        SearchFound(files, mentions, changed, found, queue, current, p);
        found := found + {p};
        queue := queue + [p];
      }
    }
    SearchNext(files, mentions, changed, found, queue, current);
  }

  /** Exactly the specs that reach the changed file through one or more mentions. */
  method FindDependents(files: set<Path>, mentions: (Path, Path) -> bool, changed: Path) returns (specs: set<Path>)
    ensures forall p :: p in specs <==> IsSpec(p) && Uses(files, mentions, changed, p)
  {
    var found: set<Path> := {};
    var queue := [changed];
    while queue != []
      invariant Searching(files, mentions, changed, found, queue, {})
      decreases files - found, |queue|
    {
      var current := queue[|queue| - 1];
      SearchPop(files, mentions, changed, found, queue);
      found, queue := AddUsers(files, mentions, changed, current, found, queue[..|queue| - 1]);
    }
    SearchEnd(files, mentions, changed, found);
    specs := set p | p in found && IsSpec(p);
  }
}
