/** The two orders in which the planner sorts specs, and sorting by them. */
module Ordering {

  /** Python's order on strings: by code point, a proper prefix first. */
  predicate NameLess(a: string, b: string) {
    if b == "" then false
    else if a == "" then true
    else a[0] < b[0] || (a[0] == b[0] && NameLess(a[1..], b[1..]))
  }

  /** At the first difference the smaller character is first, or the name that ends. */
  ghost predicate DiffersAt(a: string, b: string, k: nat) {
    k <= |a| && k < |b| && a[..k] == b[..k] && (k == |a| || a[k] < b[k])
  }

  lemma {:induction false} NameLessIff(a: string, b: string)
    ensures NameLess(a, b) <==> exists k: nat :: DiffersAt(a, b, k)
  {
    if b == "" || a == "" {
      assert b != "" ==> DiffersAt("", b, 0);
    } else {
      NameLessIff(a[1..], b[1..]);
      if a[0] == b[0] {
        LaterDifference(a, b);
      } else {
        FirstDifference(a, b);
      }
    }
  }

  lemma SamePrefix(a: string, b: string, k: nat)
    requires k <= |a| && k <= |b| && a != "" && b != ""
    ensures k > 0 && a[..k] == b[..k] ==> a[0] == b[0]
  {
    if k > 0 { assert a[..k][0] == a[0] && b[..k][0] == b[0]; }
  }

  lemma FirstDifference(a: string, b: string)
    requires a != "" && b != "" && a[0] != b[0]
    ensures (exists k: nat :: DiffersAt(a, b, k)) <==> a[0] < b[0]
  {
    assert a[0] < b[0] ==> DiffersAt(a, b, 0);
    forall k: nat | DiffersAt(a, b, k) ensures k == 0 {
      SamePrefix(a, b, k);
    }
  }

  lemma LaterDifference(a: string, b: string)
    requires a != "" && b != "" && a[0] == b[0]
    ensures (exists k: nat :: DiffersAt(a, b, k)) <==> exists k: nat :: DiffersAt(a[1..], b[1..], k)
  {
    if k: nat :| DiffersAt(a, b, k) {
      assert k > 0;
      assert a[1..][..k - 1] == a[..k][1..] && b[1..][..k - 1] == b[..k][1..];
      assert DiffersAt(a[1..], b[1..], k - 1);
    }
    if k: nat :| DiffersAt(a[1..], b[1..], k) {
      assert a[..k + 1] == [a[0]] + a[1..][..k] && b[..k + 1] == [b[0]] + b[1..][..k];
      assert DiffersAt(a, b, k + 1);
    }
  }

  lemma {:induction false} NameTotal(a: string, b: string)
    ensures a == b || NameLess(a, b) || NameLess(b, a)
    ensures !(NameLess(a, b) && NameLess(b, a))
    ensures !NameLess(a, a)
  {
    if a != "" {
      NameTotal(a[1..], if b == "" then "" else b[1..]);
      if b != "" && a[1..] == b[1..] {
        assert a == [a[0]] + a[1..] && b == [b[0]] + b[1..];
      }
    }
  }

  lemma {:induction false} NameTransitive(a: string, b: string, c: string)
    requires NameLess(a, b) && NameLess(b, c)
    ensures NameLess(a, c)
  {
    if a != "" && a[0] == b[0] && b[0] == c[0] {
      NameTransitive(a[1..], b[1..], c[1..]);
    }
  }

  /** The sort keys of the planner: the name alone, or the longer duration first and
      then the name. */
  datatype Order = ByName | LongestFirst(durations: map<string, nat>)
  {
    function Duration(a: string): nat
      requires LongestFirst?
    {
      if a in durations then durations[a] else 0
    }

    predicate Less(a: string, b: string) {
      match this
      case ByName => NameLess(a, b)
      case LongestFirst(_) =>
        Duration(a) > Duration(b) || (Duration(a) == Duration(b) && NameLess(a, b))
    }

    lemma Total(a: string, b: string)
      ensures a == b || Less(a, b) || Less(b, a)
      ensures !(Less(a, b) && Less(b, a))
    {
      NameTotal(a, b);
    }

    lemma Transitive(a: string, b: string, c: string)
      requires Less(a, b) && Less(b, c)
      ensures Less(a, c)
    {
      if NameLess(a, b) && NameLess(b, c) { NameTransitive(a, b, c); }
    }

    ghost predicate Sorted(s: seq<string>) {
      forall i, j :: 0 <= i < j < |s| ==> Less(s[i], s[j])
    }

    /** `s` lists the set `xs` in this order. */
    ghost predicate Lists(s: seq<string>, xs: set<string>) {
      Sorted(s) && forall x :: x in s <==> x in xs
    }

    /** `x` put in its place in a sorted list. */
    function Insert(s: seq<string>, x: string): (r: seq<string>) {
      if s == [] then [x]
      else if Less(x, s[0]) then [x] + s
      else [s[0]] + Insert(s[1..], x)
    }

    lemma {:induction false} InsertLists(s: seq<string>, xs: set<string>, x: string)
      requires Lists(s, xs) && x !in xs
      ensures Lists(Insert(s, x), xs + {x})
    {
      if s == [] {
      } else if Less(x, s[0]) {
        forall j | 0 < j < |s| ensures Less(x, s[j]) { Transitive(x, s[0], s[j]); }
      } else {
        var rest := s[1..];
        assert s == [s[0]] + rest;
        forall y | y in rest ensures y != s[0] && Less(s[0], y) {
          var j :| 0 <= j < |rest| && rest[j] == y;
          Total(s[0], s[j + 1]);
        }
        InsertLists(rest, xs - {s[0]}, x);
        Total(x, s[0]);
        var r := Insert(rest, x);
        assert forall y :: y in r ==> y == x || y in rest;
        assert forall y :: y in r ==> Less(s[0], y);
        assert forall i :: 0 <= i < |r| ==> r[i] in r;
        assert forall y :: y in [s[0]] + r <==> y == s[0] || y in r;
      }
    }

    /** The sorted listing of a set. */
    ghost function Sort(xs: set<string>): seq<string> {
      if xs == {} then []
      else
        var x :| x in xs;
        Insert(Sort(xs - {x}), x)
    }

    lemma {:induction false} SortLists(xs: set<string>)
      ensures Lists(Sort(xs), xs)
      decreases |xs|
    {
      if xs != {} {
        var x :| x in xs && Sort(xs) == Insert(Sort(xs - {x}), x);
        SortLists(xs - {x});
        InsertLists(Sort(xs - {x}), xs - {x}, x);
        assert xs - {x} + {x} == xs;
      }
    }

    /** There is one sorted listing, so sorting is a function of the set. */
    lemma {:induction false} ListingUnique(s: seq<string>, t: seq<string>, xs: set<string>)
      requires Lists(s, xs) && Lists(t, xs)
      ensures s == t
    {
      assert t == [] || t[0] in xs;
      if s == [] {
        assert t == [];
      } else {
        assert s[0] in xs && s[0] in t;
        assert t[0] in xs && t[0] in s;
        Total(s[0], t[0]);
        assert s[0] == t[0];
        forall x | x in s[1..] ensures x != s[0] { Total(x, s[0]); }
        forall x | x in t[1..] ensures x != t[0] { Total(x, t[0]); }
        assert s == [s[0]] + s[1..] && t == [t[0]] + t[1..];
        ListingUnique(s[1..], t[1..], xs - {s[0]});
      }
    }

    lemma ListingDistinct(s: seq<string>)
      requires Sorted(s)
      ensures forall i, j :: 0 <= i < j < |s| ==> s[i] != s[j]
    {
      forall i, j | 0 <= i < j < |s| ensures s[i] != s[j] { Total(s[i], s[j]); }
    }

    lemma {:induction false} ListingLength(s: seq<string>, xs: set<string>)
      requires Lists(s, xs)
      ensures |s| == |xs|
    {
      if s != [] {
        ListingDistinct(s);
        assert s == [s[0]] + s[1..];
        ListingLength(s[1..], xs - {s[0]});
      }
    }

    /** Sorting a set by insertion; any sorting method gives this list. */
    method SortSet(xs: set<string>) returns (s: seq<string>)
      ensures s == Sort(xs)
    {
      s := [];
      var left := xs;
      while left != {}
        invariant left <= xs
        invariant Lists(s, xs - left)
      {
        var x :| x in left;
        InsertLists(s, xs - left, x);
        s := Insert(s, x);
        left := left - {x};
        assert xs - left == xs - (left + {x}) + {x};
      }
      assert xs - left == xs;
      SortLists(xs);
      ListingUnique(s, Sort(xs), xs);
    }
  }
}
