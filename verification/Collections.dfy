/** Small vocabulary shared by the models: optional values, sums over sets. */
module Collections {

  datatype Option<+T> = None | Some(value: T)

  /** The sum of `d` over the keys in `s`. */
  ghost function SetSum<T(!new)>(s: set<T>, d: map<T, nat>): nat
    requires s <= d.Keys
  {
    if s == {} then 0
    else
      var x :| x in s;
      d[x] + SetSum(s - {x}, d)
  }

  /** Any element may be taken out first, so the sum does not depend on an order. */
  lemma {:induction false} SetSumRemove<T(!new)>(s: set<T>, d: map<T, nat>, x: T)
    requires s <= d.Keys && x in s
    ensures SetSum(s, d) == d[x] + SetSum(s - {x}, d)
    decreases |s|
  {
    var y :| y in s && SetSum(s, d) == d[y] + SetSum(s - {y}, d);
    if y != x {
      SetSumRemove(s - {y}, d, x);
      SetSumRemove(s - {x}, d, y);
      assert s - {y} - {x} == s - {x} - {y};
    }
  }

  lemma SetSumAdd<T(!new)>(s: set<T>, d: map<T, nat>, x: T)
    requires s <= d.Keys && x in d && x !in s
    ensures SetSum(s + {x}, d) == SetSum(s, d) + d[x]
  {
    SetSumRemove(s + {x}, d, x);
    assert s + {x} - {x} == s;
  }

  lemma SetSumOf3<T(!new)>(d: map<T, nat>, a: T, b: T, c: T)
    requires d.Keys == {a, b, c} && a != b && b != c && a != c
    ensures SetSum(d.Keys, d) == d[a] + d[b] + d[c] && |d| == 3
  {
    var keys := d.Keys;
    SetSumRemove(keys, d, a);
    SetSumRemove(keys - {a}, d, b);
    SetSumRemove(keys - {a} - {b}, d, c);
    assert keys - {a} - {b} - {c} == {};
    assert |keys| == 3;
  }

  /** Only the values at the summed keys matter. */
  lemma {:induction false} SetSumFrame<T(!new)>(s: set<T>, d: map<T, nat>, e: map<T, nat>)
    requires s <= d.Keys && s <= e.Keys
    requires forall x :: x in s ==> d[x] == e[x]
    ensures SetSum(s, d) == SetSum(s, e)
    decreases |s|
  {
    if s != {} {
      var x :| x in s;
      SetSumRemove(s, d, x);
      SetSumRemove(s, e, x);
      SetSumFrame(s - {x}, d, e);
    }
  }

  lemma MultisetWithout<T>(s: seq<T>, i: nat)
    requires i < |s|
    ensures multiset(s) == multiset(s[..i] + s[i + 1..]) + multiset{s[i]}
  {
    assert s == s[..i] + [s[i]] + s[i + 1..];
  }

  lemma MultisetCancel<T>(x: multiset<T>, y: multiset<T>, m: multiset<T>)
    requires x + m == y + m
    ensures x == y
  {
    forall e ensures x[e] == y[e] {
      assert (x + m)[e] == (y + m)[e];
    }
  }
}
