/** Reachability in a graph given by its successor function. */
module Reachability {

  ghost predicate IsPath<T(!new)>(path: seq<T>, starts: set<T>, succ: T -> set<T>) {
    && path != [] && path[0] in starts
    && forall i :: 1 <= i < |path| ==> path[i] in succ(path[i - 1])
  }

  ghost predicate Reached<T(!new)>(x: T, starts: set<T>, succ: T -> set<T>) {
    exists path :: IsPath(path, starts, succ) && path[|path| - 1] == x
  }

  lemma ReachedStart<T(!new)>(x: T, starts: set<T>, succ: T -> set<T>)
    requires x in starts
    ensures Reached(x, starts, succ)
  {
    assert IsPath([x], starts, succ);
  }

  lemma ReachedStep<T(!new)>(x: T, y: T, starts: set<T>, succ: T -> set<T>)
    requires Reached(x, starts, succ) && y in succ(x)
    ensures Reached(y, starts, succ)
  {
    var path :| IsPath(path, starts, succ) && path[|path| - 1] == x;
    var more := path + [y];
    forall i | 1 <= i < |more| ensures more[i] in succ(more[i - 1]) {
      assert i < |path| ==> more[i] == path[i] && more[i - 1] == path[i - 1];
    }
    assert IsPath(more, starts, succ);
  }

  /** A reached node is a start or a successor of a reached one. */
  lemma ReachedFrom<T(!new)>(x: T, starts: set<T>, succ: T -> set<T>) returns (y: T)
    requires Reached(x, starts, succ) && x !in starts
    ensures Reached(y, starts, succ) && x in succ(y)
  {
    var path :| IsPath(path, starts, succ) && path[|path| - 1] == x;
    var before := path[..|path| - 1];
    y := before[|before| - 1];
    assert IsPath(before, starts, succ);
  }

  /** A set that holds the starts and all successors of its members holds every reached node. */
  lemma ClosedHoldsReached<T(!new)>(s: set<T>, x: T, starts: set<T>, succ: T -> set<T>)
    requires starts <= s && forall y :: y in s ==> succ(y) <= s
    requires Reached(x, starts, succ)
    ensures x in s
  {
    var path :| IsPath(path, starts, succ) && path[|path| - 1] == x;
    PathWithin(s, path, |path|, starts, succ);
  }

  lemma {:induction false} PathWithin<T(!new)>(s: set<T>, path: seq<T>, n: nat, starts: set<T>, succ: T -> set<T>)
    requires starts <= s && forall y :: y in s ==> succ(y) <= s
    requires IsPath(path, starts, succ) && 0 < n <= |path|
    ensures path[n - 1] in s
  {
    if n > 1 {
      PathWithin(s, path, n - 1, starts, succ);
      assert path[n - 1] in succ(path[n - 2]);
    }
  }
}
