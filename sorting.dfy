/** Ordering of rows the way `order_by(...)` orders them: by a list of
    keys compared lexicographically, each ascending or all descending. */
module Sorting {
  import Common

  /** Lexicographic `<=` on key lists. */
  predicate LexLe(a: seq<int>, b: seq<int>) {
    if a == [] then true
    else if b == [] then false
    else if a[0] != b[0] then a[0] < b[0]
    else LexLe(a[1..], b[1..])
  }

  lemma {:induction false} LexTotal(a: seq<int>, b: seq<int>)
    ensures LexLe(a, b) || LexLe(b, a)
  {
    if a != [] && b != [] && a[0] == b[0] {
      LexTotal(a[1..], b[1..]);
    }
  }

  lemma {:induction false} LexTrans(a: seq<int>, b: seq<int>, c: seq<int>)
    requires LexLe(a, b) && LexLe(b, c)
    ensures LexLe(a, c)
  {
    if a != [] && b != [] && c != [] && a[0] == b[0] && b[0] == c[0] {
      LexTrans(a[1..], b[1..], c[1..]);
    }
  }

  /** `x` may precede `y` in an ordering on `key`, descending or not. */
  predicate Precedes<T>(key: T -> seq<int>, desc: bool, x: T, y: T) {
    if desc then LexLe(key(y), key(x)) else LexLe(key(x), key(y))
  }

  predicate SortedBy<T>(s: seq<T>, key: T -> seq<int>, desc: bool) {
    forall i, j :: 0 <= i < j < |s| ==> Precedes(key, desc, s[i], s[j])
  }

  function Insert<T>(x: T, s: seq<T>, key: T -> seq<int>, desc: bool): (r: seq<T>)
    requires SortedBy(s, key, desc)
    ensures multiset(r) == multiset(s) + multiset{x}
    ensures SortedBy(r, key, desc)
  {
    if s == [] then [x]
    else if Precedes(key, desc, x, s[0]) then
      InsertFront(x, s, key, desc);
      [x] + s
    else
      var rest := Insert(x, s[1..], key, desc);
      Common.SeqConsMultiset(s);
      InsertBehind(x, s, rest, key, desc);
      [s[0]] + rest
  }

  lemma InsertFront<T>(x: T, s: seq<T>, key: T -> seq<int>, desc: bool)
    requires s != [] && SortedBy(s, key, desc) && Precedes(key, desc, x, s[0])
    ensures SortedBy([x] + s, key, desc)
  {
    var r := [x] + s;
    forall i, j | 0 <= i < j < |r| ensures Precedes(key, desc, r[i], r[j]) {
      if i == 0 && j > 1 {
        if desc {
          LexTrans(key(s[j - 1]), key(s[0]), key(x));
        } else {
          LexTrans(key(x), key(s[0]), key(s[j - 1]));
        }
      }
    }
  }

  lemma InsertBehind<T>(x: T, s: seq<T>, rest: seq<T>, key: T -> seq<int>, desc: bool)
    requires s != [] && SortedBy(s, key, desc) && !Precedes(key, desc, x, s[0])
    requires SortedBy(rest, key, desc)
    requires multiset(rest) == multiset(s[1..]) + multiset{x}
    ensures SortedBy([s[0]] + rest, key, desc)
  {
    var r := [s[0]] + rest;
    LexTotal(key(x), key(s[0]));
    forall j | 1 <= j < |r| ensures Precedes(key, desc, s[0], r[j]) {
      assert r[j] in multiset(rest);
      if r[j] != x {
        assert r[j] in multiset(s[1..]);
        var k :| 0 <= k < |s[1..]| && s[1..][k] == r[j];
        assert s[k + 1] == r[j];
      }
    }
  }

  /** `order_by(...)`: a sorted permutation of the rows. */
  function SortBy<T(!new)>(s: seq<T>, key: T -> seq<int>, desc: bool): (r: seq<T>)
    ensures multiset(r) == multiset(s)
    ensures |r| == |s|
    ensures forall x :: x in r <==> x in s
    ensures SortedBy(r, key, desc)
  {
    if s == [] then []
    else
      var r := Insert(s[0], SortBy(s[1..], key, desc), key, desc);
      Common.SeqConsMultiset(s);
      SameMultiset(r, s);
      r
  }

  /** Permutations have the same length and the same elements. */
  lemma SameMultiset<T>(r: seq<T>, s: seq<T>)
    requires multiset(r) == multiset(s)
    ensures |r| == |s|
    ensures forall x :: x in r <==> x in s
  {
    assert |r| == |multiset(r)|;
    assert forall x :: x in r <==> x in multiset(r);
  }

  /** Under LexLe, keys that agree on their first element are ordered by
      their second. */
  lemma LexLeSecond(a: seq<int>, b: seq<int>)
    requires |a| >= 2 && |b| >= 2 && a[0] == b[0] && LexLe(a, b)
    ensures a[1] <= b[1]
  {
    assert LexLe(a[1..], b[1..]);
    assert a[1..][0] == a[1] && b[1..][0] == b[1];
  }

  lemma {:induction false} LexRefl(a: seq<int>)
    ensures LexLe(a, a)
  {
    if a != [] {
      LexRefl(a[1..]);
    }
  }

  /** Rows with equal `key2` appear in `key1` order. */
  predicate TiesOrdered<T>(s: seq<T>, key2: T -> seq<int>, key1: T -> seq<int>, desc1: bool) {
    forall i, j :: 0 <= i < j < |s| && key2(s[i]) == key2(s[j]) ==> Precedes(key1, desc1, s[i], s[j])
  }

  lemma {:induction false} InsertKeepsTies<T>(x: T, r: seq<T>, key2: T -> seq<int>, desc2: bool,
                                               key1: T -> seq<int>, desc1: bool)
    requires SortedBy(r, key2, desc2) && TiesOrdered(r, key2, key1, desc1)
    requires forall y :: y in r ==> Precedes(key1, desc1, x, y)
    ensures TiesOrdered(Insert(x, r, key2, desc2), key2, key1, desc1)
    decreases |r|
  {
    if r != [] {
      if Precedes(key2, desc2, x, r[0]) {
        FrontKeepsTies(x, r, key2, key1, desc1);
      } else {
        LexRefl(key2(x));
        InsertKeepsTies(x, r[1..], key2, desc2, key1, desc1);
        var rest := Insert(x, r[1..], key2, desc2);
        BehindKeepsTies(x, r, rest, key2, key1, desc1);
      }
    }
  }

  lemma FrontKeepsTies<T>(x: T, r: seq<T>, key2: T -> seq<int>, key1: T -> seq<int>, desc1: bool)
    requires TiesOrdered(r, key2, key1, desc1)
    requires forall y :: y in r ==> Precedes(key1, desc1, x, y)
    ensures TiesOrdered([x] + r, key2, key1, desc1)
  {
    var res := [x] + r;
    forall i, j | 0 <= i < j < |res| && key2(res[i]) == key2(res[j])
      ensures Precedes(key1, desc1, res[i], res[j])
    {
      assert res[j] == r[j - 1];
      if i > 0 {
        assert res[i] == r[i - 1];
      }
    }
  }

  lemma BehindKeepsTies<T>(x: T, r: seq<T>, rest: seq<T>, key2: T -> seq<int>, key1: T -> seq<int>, desc1: bool)
    requires r != [] && key2(x) != key2(r[0])
    requires TiesOrdered(r, key2, key1, desc1) && TiesOrdered(rest, key2, key1, desc1)
    requires multiset(rest) == multiset(r[1..]) + multiset{x}
    ensures TiesOrdered([r[0]] + rest, key2, key1, desc1)
  {
    var res := [r[0]] + rest;
    forall i, j | 0 <= i < j < |res| && key2(res[i]) == key2(res[j])
      ensures Precedes(key1, desc1, res[i], res[j])
    {
      if i == 0 {
        assert res[j] == rest[j - 1];
        assert res[j] in multiset(rest);
        if res[j] != x {
          assert res[j] in multiset(r[1..]);
          var k :| 0 <= k < |r[1..]| && r[1..][k] == res[j];
          assert r[k + 1] == res[j];
        }
      } else {
        assert res[i] == rest[i - 1] && res[j] == rest[j - 1];
      }
    }
  }

  /** Sorting is stable: sorting rows already ordered on `key1` by `key2`
      leaves rows with equal `key2` in `key1` order. */
  lemma {:induction false} SortByKeepsTies<T(!new)>(s: seq<T>, key2: T -> seq<int>, desc2: bool,
                                                    key1: T -> seq<int>, desc1: bool)
    requires SortedBy(s, key1, desc1)
    ensures TiesOrdered(SortBy(s, key2, desc2), key2, key1, desc1)
  {
    if s != [] {
      SortByKeepsTies(s[1..], key2, desc2, key1, desc1);
      var r := SortBy(s[1..], key2, desc2);
      forall y | y in r ensures Precedes(key1, desc1, s[0], y) {
        var k :| 0 <= k < |s[1..]| && s[1..][k] == y;
        assert s[k + 1] == y;
      }
      InsertKeepsTies(s[0], r, key2, desc2, key1, desc1);
    }
  }
}
