/**
 * The stable descending sort both halves of the system rely on: Python's
 * `list.sort(key=..., reverse=True)` and JavaScript's `Array.prototype.sort`
 * with a comparator `(a, b) => key(b) - key(a)`. Both are stable: elements
 * with equal keys keep their original relative order.
 */
module Sorting {

  /** Keys never increase from left to right. */
  predicate SortedDesc<T>(s: seq<T>, key: T -> int)
  {
    forall i, j :: 0 <= i < j < |s| ==> key(s[i]) >= key(s[j])
  }

  /** The elements of `s` whose key is `v`, in their order in `s`. */
  function WithKey<T>(s: seq<T>, key: T -> int, v: int): seq<T>
  {
    if s == [] then []
    else (if key(s[0]) == v then [s[0]] else []) + WithKey(s[1..], key, v)
  }

  /** Places `x` after every element whose key is at least `x`'s. */
  function InsertDesc<T>(s: seq<T>, x: T, key: T -> int): (r: seq<T>)
    ensures |r| == |s| + 1
    ensures multiset(r) == multiset(s) + multiset{x}
  {
    if s == [] then [x]
    else if key(s[0]) >= key(x) then
      assert s == [s[0]] + s[1..];
      [s[0]] + InsertDesc(s[1..], x, key)
    else [x] + s
  }

  /** Insertion sort, folding the elements in from the left. */
  function SortDesc<T>(s: seq<T>, key: T -> int): (r: seq<T>)
    ensures |r| == |s|
    ensures multiset(r) == multiset(s)
  {
    if s == [] then []
    else
      assert s == s[..|s| - 1] + [s[|s| - 1]];
      InsertDesc(SortDesc(s[..|s| - 1], key), s[|s| - 1], key)
  }

  lemma {:induction false} InsertDescBound<T>(s: seq<T>, x: T, key: T -> int, b: int)
    requires key(x) <= b
    requires forall i :: 0 <= i < |s| ==> key(s[i]) <= b
    ensures forall i :: 0 <= i < |s| + 1 ==> key(InsertDesc(s, x, key)[i]) <= b
  {
    if s != [] && key(s[0]) >= key(x) {
      InsertDescBound(s[1..], x, key, b);
    }
  }

  lemma {:induction false} InsertDescSorted<T>(s: seq<T>, x: T, key: T -> int)
    requires SortedDesc(s, key)
    ensures SortedDesc(InsertDesc(s, x, key), key)
  {
    if s != [] && key(s[0]) >= key(x) {
      InsertDescSorted(s[1..], x, key);
      InsertDescBound(s[1..], x, key, key(s[0]));
    }
  }

  /** The sort yields keys in non-increasing order. */
  lemma {:induction false} SortDescSorted<T>(s: seq<T>, key: T -> int)
    ensures SortedDesc(SortDesc(s, key), key)
  {
    if s != [] {
      SortDescSorted(s[..|s| - 1], key);
      InsertDescSorted(SortDesc(s[..|s| - 1], key), s[|s| - 1], key);
    }
  }

  lemma WithKeyCons<T>(x: T, s: seq<T>, key: T -> int, v: int)
    ensures WithKey([x] + s, key, v) == (if key(x) == v then [x] else []) + WithKey(s, key, v)
  {
    assert ([x] + s)[0] == x && ([x] + s)[1..] == s;
  }

  lemma {:induction false} WithKeyAppend<T>(a: seq<T>, b: seq<T>, key: T -> int, v: int)
    ensures WithKey(a + b, key, v) == WithKey(a, key, v) + WithKey(b, key, v)
  {
    if a == [] {
      assert a + b == b;
    } else {
      var h := if key(a[0]) == v then [a[0]] else [];
      assert a == [a[0]] + a[1..];
      assert a + b == [a[0]] + (a[1..] + b);
      WithKeyCons(a[0], a[1..] + b, key, v);
      WithKeyCons(a[0], a[1..], key, v);
      WithKeyAppend(a[1..], b, key, v);
      assert h + (WithKey(a[1..], key, v) + WithKey(b, key, v)) == (h + WithKey(a[1..], key, v)) + WithKey(b, key, v);
    }
  }

  lemma {:induction false} WithKeyNone<T>(s: seq<T>, key: T -> int, v: int)
    requires forall i :: 0 <= i < |s| ==> key(s[i]) < v
    ensures WithKey(s, key, v) == []
  {
    if s != [] {
      WithKeyNone(s[1..], key, v);
    }
  }

  lemma {:induction false} InsertDescStable<T>(s: seq<T>, x: T, key: T -> int, v: int)
    requires SortedDesc(s, key)
    ensures WithKey(InsertDesc(s, x, key), key, v)
         == WithKey(s, key, v) + (if key(x) == v then [x] else [])
    decreases |s|, 1
  {
    if s == [] {
      WithKeyCons(x, [], key, v);
    } else if key(s[0]) >= key(x) {
      InsertDescStableBehind(s, x, key, v);
    } else {
      InsertDescStableFront(s, x, key, v);
    }
  }

  lemma SortedTail<T>(s: seq<T>, key: T -> int)
    requires s != [] && SortedDesc(s, key)
    ensures SortedDesc(s[1..], key)
  {
    forall i, j | 0 <= i < j < |s| - 1 ensures key(s[1..][i]) >= key(s[1..][j]) {
      assert s[1..][i] == s[i + 1] && s[1..][j] == s[j + 1];
    }
  }

  lemma InsertDescUnfold<T>(s: seq<T>, x: T, key: T -> int)
    requires s != [] && key(s[0]) >= key(x)
    ensures InsertDesc(s, x, key) == [s[0]] + InsertDesc(s[1..], x, key)
  {
  }

  lemma ConcatAssoc<T>(a: seq<T>, b: seq<T>, c: seq<T>)
    ensures a + (b + c) == (a + b) + c
  {
  }

  lemma InsertDescStableFront<T>(s: seq<T>, x: T, key: T -> int, v: int)
    requires SortedDesc(s, key) && s != [] && key(s[0]) < key(x)
    ensures WithKey(InsertDesc(s, x, key), key, v)
         == WithKey(s, key, v) + (if key(x) == v then [x] else [])
  {
    assert InsertDesc(s, x, key) == [x] + s;
    if key(x) == v {
      WithKeyNone(s, key, v);
    }
    WithKeyCons(x, s, key, v);
  }

  lemma {:induction false} InsertDescStableBehind<T>(s: seq<T>, x: T, key: T -> int, v: int)
    requires SortedDesc(s, key) && s != [] && key(s[0]) >= key(x)
    ensures WithKey(InsertDesc(s, x, key), key, v)
         == WithKey(s, key, v) + (if key(x) == v then [x] else [])
    decreases |s|, 0
  {
    var tail := if key(x) == v then [x] else [];
    var h := if key(s[0]) == v then [s[0]] else [];
    var rest := InsertDesc(s[1..], x, key);
    SortedTail(s, key);
    InsertDescStable(s[1..], x, key, v);
    InsertDescUnfold(s, x, key);
    WithKeyCons(s[0], rest, key, v);
    ConcatAssoc(h, WithKey(s[1..], key, v), tail);
  }

  /** Elements with equal keys come out in the order they went in. */
  lemma {:induction false} SortDescStable<T>(s: seq<T>, key: T -> int, v: int)
    ensures WithKey(SortDesc(s, key), key, v) == WithKey(s, key, v)
  {
    if s != [] {
      var init, last := s[..|s| - 1], s[|s| - 1];
      var tail := if key(last) == v then [last] else [];
      calc {
        WithKey(SortDesc(s, key), key, v);
        WithKey(InsertDesc(SortDesc(init, key), last, key), key, v);
        { SortDescSorted(init, key); InsertDescStable(SortDesc(init, key), last, key, v); }
        WithKey(SortDesc(init, key), key, v) + tail;
        { SortDescStable(init, key, v); }
        WithKey(init, key, v) + tail;
        { assert WithKey([last], key, v) == tail; }
        WithKey(init, key, v) + WithKey([last], key, v);
        { WithKeyAppend(init, [last], key, v); assert s == init + [last]; }
        WithKey(s, key, v);
      }
    }
  }
}
