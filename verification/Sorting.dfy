/** Sorting by a numeric key, as done by slices.SortStableFunc, and the facts that make
    its result independent of the input order. */
module Sorting {

  predicate SortedBy<T>(s: seq<T>, key: T -> int) {
    forall i, j :: 0 <= i < j < |s| ==> key(s[i]) <= key(s[j])
  }

  predicate StrictBy<T>(s: seq<T>, key: T -> int) {
    forall i, j :: 0 <= i < j < |s| ==> key(s[i]) < key(s[j])
  }

  predicate NoDup<T(==)>(s: seq<T>) {
    forall i, j :: 0 <= i < j < |s| ==> s[i] != s[j]
  }

  function Elements<T>(s: seq<T>): set<T> {
    set x | x in s
  }

  function Insert<T(==)>(x: T, s: seq<T>, key: T -> int): (r: seq<T>)
    requires SortedBy(s, key)
    ensures SortedBy(r, key)
    ensures multiset(r) == multiset{x} + multiset(s)
    ensures SameOrder(r, [x] + s, key)
  {
    if s == [] || key(x) <= key(s[0]) then
      SortedCons(x, s, key);
      [x] + s
    else
      var rest := Insert(x, s[1..], key);
      assert s == [s[0]] + s[1..];
      HeadLeast(x, s, rest, key);
      SortedCons(s[0], rest, key);
      StableCons(x, s, rest, key);
      [s[0]] + rest
  }

  /** The elements with one key, in order. */
  function WithKey<T>(s: seq<T>, key: T -> int, k: int): seq<T> {
    if s == [] then [] else (if key(s[0]) == k then [s[0]] else []) + WithKey(s[1..], key, k)
  }

  /** Elements with the same key stand in the same order in both. */
  ghost predicate SameOrder<T>(r: seq<T>, s: seq<T>, key: T -> int) {
    forall k :: WithKey(r, key, k) == WithKey(s, key, k)
  }

  lemma WithKeyCons<T>(x: T, s: seq<T>, key: T -> int, k: int)
    ensures WithKey([x] + s, key, k) == (if key(x) == k then [x] else []) + WithKey(s, key, k)
  {
    assert ([x] + s)[1..] == s;
  }

  lemma StableCons<T>(x: T, s: seq<T>, rest: seq<T>, key: T -> int)
    requires s != [] && key(s[0]) < key(x) && SameOrder(rest, [x] + s[1..], key)
    ensures SameOrder([s[0]] + rest, [x] + s, key)
  {
    forall k: int
      ensures WithKey([s[0]] + rest, key, k) == WithKey([x] + s, key, k)
    {
      assert WithKey(rest, key, k) == WithKey([x] + s[1..], key, k);
      StableConsAt(x, s, rest, key, k);
    }
  }

  lemma StableConsAt<T>(x: T, s: seq<T>, rest: seq<T>, key: T -> int, k: int)
    requires s != [] && key(s[0]) < key(x) && WithKey(rest, key, k) == WithKey([x] + s[1..], key, k)
    ensures WithKey([s[0]] + rest, key, k) == WithKey([x] + s, key, k)
  {
    WithKeyCons(s[0], rest, key, k);
    WithKeyCons(x, s[1..], key, k);
    WithKeyCons(x, s, key, k);
    var tail := WithKey(s[1..], key, k);
    if key(s[0]) == k {
      assert WithKey(rest, key, k) == tail;
      assert WithKey([x] + s, key, k) == [s[0]] + tail;
    } else {
      assert WithKey(s, key, k) == tail;
    }
  }

  lemma HeadLeast<T>(x: T, s: seq<T>, rest: seq<T>, key: T -> int)
    requires s != [] && SortedBy(s, key) && key(s[0]) <= key(x)
    requires multiset(rest) == multiset{x} + multiset(s[1..])
    ensures forall y :: y in rest ==> key(s[0]) <= key(y)
  {
    forall y | y in rest
      ensures key(s[0]) <= key(y)
    {
      assert y in multiset(rest);
      assert y == x || y in s[1..];
    }
  }

  lemma SortedCons<T>(x: T, s: seq<T>, key: T -> int)
    requires SortedBy(s, key)
    requires s == [] || key(x) <= key(s[0]) || forall y :: y in s ==> key(x) <= key(y)
    ensures SortedBy([x] + s, key)
  {
  }

  /** The stable sort of s: the sorted permutation of it that keeps the order of elements with one key. */
  function SortBy<T(==)>(s: seq<T>, key: T -> int): (r: seq<T>)
    ensures SortedBy(r, key)
    ensures multiset(r) == multiset(s)
    ensures SameOrder(r, s, key)
  {
    if s == [] then
      []
    else
      assert s == [s[0]] + s[1..];
      StableInsert(s, SortBy(s[1..], key), key);
      Insert(s[0], SortBy(s[1..], key), key)
  }

  lemma StableInsert<T>(s: seq<T>, sorted: seq<T>, key: T -> int)
    requires s != [] && SameOrder(sorted, s[1..], key)
    ensures SameOrder([s[0]] + sorted, s, key)
  {
    forall k: int
      ensures WithKey([s[0]] + sorted, key, k) == WithKey(s, key, k)
    {
      WithKeyCons(s[0], sorted, key, k);
    }
  }

  lemma {:induction false} WithKeyBound<T>(s: seq<T>, key: T -> int, k: int)
    requires SortedBy(s, key) && WithKey(s, key, k) != []
    ensures s != [] && key(s[0]) <= k
  {
    if key(s[0]) != k {
      WithKeyBound(s[1..], key, k);
    }
  }

  lemma SameOrderEmpty<T>(r: seq<T>, t: seq<T>, key: T -> int)
    requires SameOrder(r, t, key)
    ensures t != [] ==> r != []
  {
    if t != [] {
      assert WithKey(r, key, key(t[0])) == WithKey(t, key, key(t[0])) != [];
    }
  }

  lemma SameHead<T>(r: seq<T>, t: seq<T>, key: T -> int)
    requires r != [] && t != [] && SortedBy(r, key) && SortedBy(t, key) && SameOrder(r, t, key)
    ensures r[0] == t[0]
  {
    assert WithKey(r, key, key(r[0])) == WithKey(t, key, key(r[0])) != [];
    WithKeyBound(t, key, key(r[0]));
    assert WithKey(t, key, key(t[0])) == WithKey(r, key, key(t[0])) != [];
    WithKeyBound(r, key, key(t[0]));
    assert r[0] == WithKey(r, key, key(r[0]))[0] == t[0];
  }

  lemma SameOrderTails<T>(r: seq<T>, t: seq<T>, key: T -> int)
    requires r != [] && t != [] && r[0] == t[0] && SameOrder(r, t, key)
    ensures SameOrder(r[1..], t[1..], key)
  {
    forall k: int
      ensures WithKey(r[1..], key, k) == WithKey(t[1..], key, k)
    {
      var head := if key(r[0]) == k then [r[0]] else [];
      assert WithKey(r, key, k) == head + WithKey(r[1..], key, k);
      assert WithKey(t, key, k) == head + WithKey(t[1..], key, k);
      assert WithKey(r[1..], key, k) == WithKey(r, key, k)[|head|..];
    }
  }

  /** Being sorted and keeping the order of elements with one key determines the result. */
  lemma {:induction false} StableUnique<T>(r: seq<T>, t: seq<T>, key: T -> int)
    requires SortedBy(r, key) && SortedBy(t, key) && SameOrder(r, t, key)
    ensures r == t
  {
    SameOrderEmpty(r, t, key);
    SameOrderEmpty(t, r, key);
    if r != [] {
      SameHead(r, t, key);
      SameOrderTails(r, t, key);
      StableUnique(r[1..], t[1..], key);
      assert r == [r[0]] + r[1..] && t == [t[0]] + t[1..];
    }
  }

  lemma {:induction false} NoDupCount<T>(s: seq<T>, x: T)
    requires NoDup(s)
    ensures multiset(s)[x] <= 1
  {
    if s != [] {
      NoDupCount(s[1..], x);
      assert s == [s[0]] + s[1..];
    }
  }

  /** A permutation keeps the elements and the absence of duplicates. */
  lemma Permuted<T>(s: seq<T>, r: seq<T>)
    requires multiset(r) == multiset(s)
    ensures Elements(r) == Elements(s)
    ensures NoDup(s) ==> NoDup(r)
  {
    forall x
      ensures x in r <==> x in s
    {
      assert x in r <==> x in multiset(r);
      assert x in s <==> x in multiset(s);
    }
    if NoDup(s) {
      forall i, j | 0 <= i < j < |r|
        ensures r[i] != r[j]
      {
        NoDupCount(s, r[i]);
        assert r == r[..j] + [r[j]] + r[j + 1..];
        assert r[i] in r[..j];
      }
    }
  }

  /** A strictly increasing sequence is determined by its set of elements. */
  lemma {:induction false} StrictUnique<T>(s: seq<T>, t: seq<T>, key: T -> int)
    requires StrictBy(s, key) && StrictBy(t, key)
    requires Elements(s) == Elements(t)
    ensures s == t
  {
    EmptyElements(s);
    EmptyElements(t);
    if s != [] {
      assert s[0] in Elements(s) && t[0] in Elements(t);
      assert s[0] == t[0];
      StrictTail(s, key);
      StrictTail(t, key);
      StrictUnique(s[1..], t[1..], key);
      assert s == [s[0]] + s[1..] && t == [t[0]] + t[1..];
    }
  }

  lemma EmptyElements<T>(s: seq<T>)
    ensures Elements(s) == {} <==> s == []
  {
    if s != [] {
      assert s[0] in Elements(s);
    }
  }

  lemma StrictTail<T>(s: seq<T>, key: T -> int)
    requires s != [] && StrictBy(s, key)
    ensures StrictBy(s[1..], key)
    ensures Elements(s[1..]) == Elements(s) - {s[0]}
  {
    forall x | x in s && x != s[0]
      ensures x in s[1..]
    {
      var i :| 0 <= i < |s| && s[i] == x;
      assert s[1..][i - 1] == x;
    }
  }

  /** Sorting distinct elements by a key that tells them apart is strict. */
  lemma SortStrict<T>(s: seq<T>, key: T -> int)
    requires NoDup(s)
    requires forall x, y :: x in s && y in s && key(x) == key(y) ==> x == y
    ensures StrictBy(SortBy(s, key), key)
  {
    var r := SortBy(s, key);
    Permuted(s, r);
    forall i, j | 0 <= i < j < |r|
      ensures key(r[i]) < key(r[j])
    {
      assert r[i] in Elements(r) && r[j] in Elements(r);
    }
  }
}
