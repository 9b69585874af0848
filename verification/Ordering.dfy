/** Python's `sorted` with a key: stable insertion, keys compared lexicographically. */
module Ordering {
  import opened Base

  /** Lexicographic order on keys; byte strings and tuples of integers both compare this way. */
  predicate AtMost(a: seq<int>, b: seq<int>) {
    a == [] || (b != [] && (a[0] < b[0] || (a[0] == b[0] && AtMost(a[1..], b[1..]))))
  }

  lemma {:induction false} AtMostTotal(a: seq<int>, b: seq<int>)
    ensures AtMost(a, b) || AtMost(b, a)
  {
    if a != [] && b != [] && a[0] == b[0] {
      AtMostTotal(a[1..], b[1..]);
    }
  }

  lemma {:induction false} AtMostTransitive(a: seq<int>, b: seq<int>, c: seq<int>)
    requires AtMost(a, b) && AtMost(b, c)
    ensures AtMost(a, c)
  {
    if a != [] && a[0] == b[0] == c[0] {
      AtMostTransitive(a[1..], b[1..], c[1..]);
    }
  }

  lemma {:induction false} AtMostAntisymmetric(a: seq<int>, b: seq<int>)
    requires AtMost(a, b) && AtMost(b, a)
    ensures a == b
  {
    if a != [] && b != [] {
      AtMostAntisymmetric(a[1..], b[1..]);
      assert a == [a[0]] + a[1..] && b == [b[0]] + b[1..];
    }
  }

  /** Strings compare by their characters. */
  function TextKey(s: string): (key: seq<int>)
    ensures |key| == |s| && forall i :: 0 <= i < |s| ==> key[i] == s[i] as int
  {
    seq(|s|, i requires 0 <= i < |s| => s[i] as int)
  }

  /** Puts `x` before the first element whose key is at least as large. */
  function Insert<T>(key: T -> seq<int>, x: T, s: seq<T>): seq<T> {
    if s == [] || AtMost(key(x), key(s[0])) then [x] + s
    else [s[0]] + Insert(key, x, s[1..])
  }

  function SortedBy<T>(key: T -> seq<int>, s: seq<T>): seq<T> {
    if s == [] then [] else Insert(key, s[0], SortedBy(key, s[1..]))
  }

  ghost predicate InOrder<T>(key: T -> seq<int>, s: seq<T>) {
    forall i, j :: 0 <= i < j < |s| ==> AtMost(key(s[i]), key(s[j]))
  }

  predicate DistinctKeys<T, K(==)>(key: T -> K, s: seq<T>) {
    forall i, j :: 0 <= i < j < |s| ==> key(s[i]) != key(s[j])
  }

  lemma {:induction false} InsertKeepsElements<T>(key: T -> seq<int>, x: T, s: seq<T>)
    ensures multiset(Insert(key, x, s)) == multiset(s) + multiset{x}
  {
    if s == [] || AtMost(key(x), key(s[0])) {
    } else {
      InsertKeepsElements(key, x, s[1..]);
      assert s == [s[0]] + s[1..];
    }
  }

  lemma {:induction false} SortedIsPermutation<T>(key: T -> seq<int>, s: seq<T>)
    ensures multiset(SortedBy(key, s)) == multiset(s)
    ensures |SortedBy(key, s)| == |s|
  {
    if s != [] {
      SortedIsPermutation(key, s[1..]);
      InsertKeepsElements(key, s[0], SortedBy(key, s[1..]));
      assert s == [s[0]] + s[1..];
    }
    assert |multiset(s)| == |s| && |multiset(SortedBy(key, s))| == |SortedBy(key, s)|;
  }

  lemma {:induction false} InsertKeepsOrder<T>(key: T -> seq<int>, x: T, s: seq<T>)
    requires InOrder(key, s)
    ensures InOrder(key, Insert(key, x, s))
  {
    if s == [] {
    } else if AtMost(key(x), key(s[0])) {
      forall j | 0 <= j < |s|
        ensures AtMost(key(x), key(s[j]))
      {
        if j > 0 { AtMostTransitive(key(x), key(s[0]), key(s[j])); }
      }
    } else {
      AtMostTotal(key(x), key(s[0]));
      var rest := Insert(key, x, s[1..]);
      InsertKeepsOrder(key, x, s[1..]);
      InsertKeepsElements(key, x, s[1..]);
      forall j | 0 <= j < |rest|
        ensures AtMost(key(s[0]), key(rest[j]))
      {
        assert rest[j] in multiset(rest);
        if rest[j] != x {
          assert rest[j] in s[1..];
        }
      }
    }
  }

  lemma {:induction false} SortedIsInOrder<T>(key: T -> seq<int>, s: seq<T>)
    ensures InOrder(key, SortedBy(key, s))
  {
    if s != [] {
      SortedIsInOrder(key, s[1..]);
      InsertKeepsOrder(key, s[0], SortedBy(key, s[1..]));
    }
  }

  /** The first element of an arrangement is fixed by the elements. */
  lemma FirstIsUnique<T>(key: T -> seq<int>, a: seq<T>, b: seq<T>)
    requires InOrder(key, a) && InOrder(key, b)
    requires DistinctKeys(key, a) && multiset(a) == multiset(b) && a != [] && b != []
    ensures a[0] == b[0]
  {
    var x, y := a[0], b[0];
    assert x in multiset(b) && y in multiset(a);
    var i :| 0 <= i < |b| && b[i] == x;
    var j :| 0 <= j < |a| && a[j] == y;
    if i > 0 && j > 0 {
      AtMostAntisymmetric(key(x), key(y));
    }
  }

  /** Sorting leaves a sequence that is in order alone. */
  lemma {:induction false} SortedWhenInOrder<T>(key: T -> seq<int>, s: seq<T>)
    requires InOrder(key, s)
    ensures SortedBy(key, s) == s
  {
    if s != [] {
      assert s == [s[0]] + s[1..];
      SortedWhenInOrder(key, s[1..]);
      if |s| > 1 {
        assert s[1..][0] == s[1];
      }
    }
  }

  lemma DropFirst<T>(key: T -> seq<int>, x: T, s: seq<T>, whole: seq<T>)
    requires whole == [x] + s
    ensures InOrder(key, whole) ==> InOrder(key, s)
    ensures DistinctKeys(key, whole) ==> DistinctKeys(key, s)
    ensures multiset(s) == multiset(whole) - multiset{x}
  {
    assert forall i :: 0 <= i < |s| ==> s[i] == whole[i + 1];
  }

  /** In-order arrangements of the same elements, keys distinct, are the same sequence. */
  lemma {:induction false} OrderIsUnique<T>(key: T -> seq<int>, a: seq<T>, b: seq<T>)
    requires InOrder(key, a) && InOrder(key, b)
    requires DistinctKeys(key, a) && multiset(a) == multiset(b)
    ensures a == b
    decreases |a|
  {
    assert |multiset(a)| == |a| && |multiset(b)| == |b|;
    if a != [] && b != [] {
      FirstIsUnique(key, a, b);
      var s, t := a[1..], b[1..];
      assert a == [a[0]] + s;
      assert b == [a[0]] + t;
      DropFirst(key, a[0], s, a);
      DropFirst(key, a[0], t, b);
      OrderIsUnique(key, s, t);
    }
  }

  /** Sorting forgets the arrival order when keys are distinct. */
  lemma SortForgetsOrder<T>(key: T -> seq<int>, a: seq<T>, b: seq<T>)
    requires DistinctKeys(key, a) && multiset(a) == multiset(b)
    ensures SortedBy(key, a) == SortedBy(key, b)
  {
    SortedIsPermutation(key, a);
    SortedIsPermutation(key, b);
    SortedIsInOrder(key, a);
    SortedIsInOrder(key, b);
    PermutationKeepsDistinctKeys(key, a, SortedBy(key, a));
    OrderIsUnique(key, SortedBy(key, a), SortedBy(key, b));
  }

  lemma PermutationKeepsDistinctKeys<T, K>(key: T -> K, a: seq<T>, b: seq<T>)
    requires DistinctKeys(key, a) && multiset(a) == multiset(b)
    ensures DistinctKeys(key, b)
  {
    forall i, j | 0 <= i < j < |b|
      ensures key(b[i]) != key(b[j])
    {
      if key(b[i]) == key(b[j]) {
        assert b[i] in multiset(a) && b[j] in multiset(a);
        var k :| 0 <= k < |a| && a[k] == b[i];
        var l :| 0 <= l < |a| && a[l] == b[j];
        assert k == l;
        var x := b[i];
        assert b == b[..i] + [x] + b[i + 1..j] + [x] + b[j + 1..];
        assert multiset(b)[x] >= 2;
        DistinctCountsOnce(key, a, x);
      }
    }
  }

  lemma {:induction false} DistinctCountsOnce<T, K>(key: T -> K, a: seq<T>, x: T)
    requires DistinctKeys(key, a)
    ensures multiset(a)[x] <= 1
  {
    if a != [] {
      DistinctCountsOnce(key, a[1..], x);
      assert a == [a[0]] + a[1..];
      forall k | 0 <= k < |a[1..]|
        ensures a[1..][k] != a[0]
      {
        assert a[1..][k] == a[k + 1];
      }
      assert a[0] !in multiset(a[1..]);
    }
  }

  lemma {:induction false} SameElementsSameMultiset<T, K>(key: T -> K, a: seq<T>, b: seq<T>)
    requires DistinctKeys(key, a) && DistinctKeys(key, b)
    requires Elements(a) == Elements(b)
    ensures multiset(a) == multiset(b)
  {
    forall x
      ensures multiset(a)[x] == multiset(b)[x]
    {
      DistinctCountsOnce(key, a, x);
      DistinctCountsOnce(key, b, x);
      assert x in a <==> x in Elements(a);
      assert x in b <==> x in Elements(b);
      assert x in a <==> x in multiset(a);
      assert x in b <==> x in multiset(b);
    }
  }

  /** The sorted form depends only on the set of elements. */
  lemma SortIsCanonical<T>(key: T -> seq<int>, a: seq<T>, b: seq<T>)
    requires DistinctKeys(key, a) && DistinctKeys(key, b)
    requires Elements(a) == Elements(b)
    ensures SortedBy(key, a) == SortedBy(key, b)
  {
    SameElementsSameMultiset(key, a, b);
    SortForgetsOrder(key, a, b);
  }

  /** Where an arrangement's first element sits in another arrangement of the same elements. */
  lemma RemoveFirst<T>(a: seq<T>, b: seq<T>) returns (front: seq<T>, back: seq<T>)
    requires a != [] && multiset(a) == multiset(b)
    ensures b == front + [a[0]] + back && multiset(a[1..]) == multiset(front + back)
  {
    assert a[0] in multiset(b);
    var i :| 0 <= i < |b| && b[i] == a[0];
    front, back := b[..i], b[i + 1..];
    var x, rest := a[0], a[1..];
    assert a == [x] + rest;
    assert b == front + [x] + back;
    assert multiset(a) == multiset{x} + multiset(rest);
    assert multiset(b) == multiset{x} + multiset(front + back);
    assert multiset(rest) == multiset(a) - multiset{x};
    assert multiset(front + back) == multiset(b) - multiset{x};
  }

  // ---------- Sums ----------

  function SumBy<T>(size: T -> nat, s: seq<T>): nat {
    if s == [] then 0 else size(s[0]) + SumBy(size, s[1..])
  }

  lemma {:induction false} SumMoved<T>(size: T -> nat, front: seq<T>, x: T, back: seq<T>)
    ensures SumBy(size, front + [x] + back) == size(x) + SumBy(size, front + back)
    decreases |front|
  {
    var whole := front + [x] + back;
    if front == [] {
      assert whole[0] == x && whole[1..] == back && front + back == back;
    } else {
      assert whole[0] == front[0] && whole[1..] == front[1..] + [x] + back;
      assert (front + back)[0] == front[0] && (front + back)[1..] == front[1..] + back;
      SumMoved(size, front[1..], x, back);
    }
  }

  lemma {:induction false} SumAppend<T>(size: T -> nat, s: seq<T>, x: T)
    ensures SumBy(size, s + [x]) == SumBy(size, s) + size(x)
  {
    SumMoved(size, s, x, []);
    assert s + [x] + [] == s + [x] && s + [] == s;
  }

  /** A sum does not depend on the order of its terms. */
  lemma {:induction false} SumIgnoresOrder<T>(size: T -> nat, a: seq<T>, b: seq<T>)
    requires multiset(a) == multiset(b)
    ensures SumBy(size, a) == SumBy(size, b)
    decreases |a|
  {
    assert |multiset(a)| == |a| && |multiset(b)| == |b|;
    if a != [] {
      var front, back := RemoveFirst(a, b);
      SumIgnoresOrder(size, a[1..], front + back);
      SumMoved(size, front, a[0], back);
    }
  }

  lemma {:induction false} SumCongruent<T>(f: T -> nat, g: T -> nat, s: seq<T>)
    requires forall x :: x in s ==> f(x) == g(x)
    ensures SumBy(f, s) == SumBy(g, s)
  {
    if s != [] {
      SumCongruent(f, g, s[1..]);
    }
  }

  /** Raising one term by one raises the sum by one. */
  lemma {:induction false} SumBumped<T>(f: T -> nat, g: T -> nat, s: seq<T>, x: T)
    requires Distinct(s) && x in s && g(x) == f(x) + 1
    requires forall y :: y in s && y != x ==> g(y) == f(y)
    ensures SumBy(g, s) == SumBy(f, s) + 1
  {
    assert forall i :: 0 <= i < |s[1..]| ==> s[1..][i] == s[i + 1];
    if s[0] == x {
      SumCongruent(f, g, s[1..]);
    } else {
      SumBumped(f, g, s[1..], x);
    }
  }
}
