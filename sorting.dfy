/**
 * Python's `sorted(xs, key=...)` / `list.sort(key=...)`: a stable sort.
 * Written as insertion sort, one element at a time from the left, each new
 * element placed after every element whose key is not greater than its own.
 * Keys are integers, or strings under Python's code-point order.
 */
module Sorting {

  // ---------------------------------------------------------------- int keys

  predicate SortedByInt<T>(s: seq<T>, key: T -> int)
  {
    forall i, j :: 0 <= i < j < |s| ==> key(s[i]) <= key(s[j])
  }

  /** Appending an element no smaller than the last keeps a sequence sorted. */
  lemma AppendSorted<T>(s: seq<T>, x: T, key: T -> int)
    requires SortedByInt(s, key)
    requires s != [] ==> key(s[|s| - 1]) <= key(x)
    ensures SortedByInt(s + [x], key)
  {
    var r := s + [x];
    forall i, j | 0 <= i < j < |r| ensures key(r[i]) <= key(r[j]) {
      if j == |s| && i < |s| - 1 { assert key(s[i]) <= key(s[|s| - 1]); }
    }
  }

  function InsertByInt<T>(s: seq<T>, x: T, key: T -> int): (r: seq<T>)
    requires SortedByInt(s, key)
    ensures |r| == |s| + 1
    ensures SortedByInt(r, key)
    ensures multiset(r) == multiset(s) + multiset{x}
    ensures r[|r| - 1] == x || (s != [] && r[|r| - 1] == s[|s| - 1])
  {
    if s == [] then [x]
    else
      var last := s[|s| - 1];
      if key(x) < key(last) then
        var init := s[..|s| - 1];
        assert s == init + [last];
        var r := InsertByInt(init, x, key);
        AppendSorted(r, last, key);
        r + [last]
      else
        AppendSorted(s, x, key);
        s + [x]
  }

  /** `sorted(s, key=key)`: ascending by key, a permutation of `s`. */
  function SortByInt<T>(s: seq<T>, key: T -> int): (r: seq<T>)
    ensures |r| == |s|
    ensures SortedByInt(r, key)
    ensures multiset(r) == multiset(s)
  {
    if s == [] then []
    else
      assert s == s[..|s| - 1] + [s[|s| - 1]];
      InsertByInt(SortByInt(s[..|s| - 1], key), s[|s| - 1], key)
  }

  function Id(x: int): int { x }

  /** `sorted(xs)` for integers. */
  function SortInts(xs: seq<int>): (r: seq<int>)
    ensures |r| == |xs| && multiset(r) == multiset(xs)
    ensures forall i, j :: 0 <= i < j < |r| ==> r[i] <= r[j]
  {
    var r := SortByInt(xs, Id);
    assert forall i, j :: 0 <= i < j < |r| ==> Id(r[i]) <= Id(r[j]);
    r
  }

  // ------------------------------------------------------------- string keys

  /** Python's `a < b` on strings: lexicographic by code point. */
  predicate StrLt(a: string, b: string)
  {
    if a == [] then b != []
    else if b == [] then false
    else if a[0] != b[0] then a[0] < b[0]
    else StrLt(a[1..], b[1..])
  }

  predicate StrLe(a: string, b: string)
  {
    a == b || StrLt(a, b)
  }

  lemma {:induction false} StrLtIrreflexive(a: string)
    ensures !StrLt(a, a)
  {
    if a != [] { StrLtIrreflexive(a[1..]); }
  }

  lemma {:induction false} StrLtTotal(a: string, b: string)
    ensures a == b || StrLt(a, b) || StrLt(b, a)
  {
    if a != [] && b != [] && a[0] == b[0] {
      StrLtTotal(a[1..], b[1..]);
      if a[1..] == b[1..] {
        assert a == [a[0]] + a[1..] && b == [b[0]] + b[1..];
      }
    }
  }

  lemma {:induction false} StrLtTrans(a: string, b: string, c: string)
    requires StrLt(a, b) && StrLt(b, c)
    ensures StrLt(a, c)
  {
    if a != [] && a[0] == b[0] && b[0] == c[0] {
      StrLtTrans(a[1..], b[1..], c[1..]);
    }
  }

  lemma StrLeTrans(a: string, b: string, c: string)
    requires StrLe(a, b) && StrLe(b, c)
    ensures StrLe(a, c)
  {
    if a != b && b != c { StrLtTrans(a, b, c); }
  }

  predicate SortedByStr<T>(s: seq<T>, key: T -> string)
  {
    forall i, j :: 0 <= i < j < |s| ==> StrLe(key(s[i]), key(s[j]))
  }

  function InsertByStr<T>(s: seq<T>, x: T, key: T -> string): (r: seq<T>)
    requires SortedByStr(s, key)
    ensures |r| == |s| + 1
    ensures SortedByStr(r, key)
    ensures multiset(r) == multiset(s) + multiset{x}
  {
    if s == [] then [x]
    else
      var last := s[|s| - 1];
      if StrLt(key(x), key(last)) then
        assert s == s[..|s| - 1] + [last];
        var r := InsertByStr(s[..|s| - 1], x, key) + [last];
        assert forall i :: 0 <= i < |r| - 1 ==> r[i] in multiset(s[..|s| - 1]) + multiset{x};
        r
      else
        StrLtTotal(key(x), key(last));
        var r := s + [x];
        forall i, j | 0 <= i < j < |r| ensures StrLe(key(r[i]), key(r[j])) {
          if j == |s| && i < |s| - 1 { StrLeTrans(key(r[i]), key(last), key(x)); }
        }
        r
  }

  /** `sorted(s, key=key)` for a string key. */
  function SortByStr<T>(s: seq<T>, key: T -> string): (r: seq<T>)
    ensures |r| == |s|
    ensures SortedByStr(r, key)
    ensures multiset(r) == multiset(s)
  {
    if s == [] then []
    else
      assert s == s[..|s| - 1] + [s[|s| - 1]];
      InsertByStr(SortByStr(s[..|s| - 1], key), s[|s| - 1], key)
  }

  function Self(s: string): string { s }

  /** `sorted(names)` for strings. */
  function SortStrings(xs: seq<string>): (r: seq<string>)
    ensures |r| == |xs| && multiset(r) == multiset(xs)
    ensures forall i, j :: 0 <= i < j < |r| ==> StrLe(r[i], r[j])
  {
    var r := SortByStr(xs, Self);
    assert forall i, j :: 0 <= i < j < |r| ==> StrLe(Self(r[i]), Self(r[j]));
    r
  }

  // --------------------------------------------------------------- stability

  /** The elements of `s` whose key is `k`, in their order in `s`. */
  function WithKey<T, K(==)>(s: seq<T>, key: T -> K, k: K): seq<T>
  {
    if s == [] then []
    else WithKey(s[..|s| - 1], key, k) + (if key(s[|s| - 1]) == k then [s[|s| - 1]] else [])
  }

  lemma WithKeySnoc<T, K>(s: seq<T>, x: T, key: T -> K, k: K)
    ensures WithKey(s + [x], key, k) == WithKey(s, key, k) + (if key(x) == k then [x] else [])
  {
    assert (s + [x])[..|s|] == s;
  }

  /** Two appended pieces of which at most one is non-empty commute. */
  lemma StableSwap<T>(w: seq<T>, x: T, y: T, px: bool, py: bool)
    requires !(px && py)
    ensures w + (if px then [x] else []) + (if py then [y] else [])
         == w + (if py then [y] else []) + (if px then [x] else [])
  {
  }

  /** Inserting `x` puts it after every element that shares its key. */
  lemma {:induction false} InsertByIntStable<T>(s: seq<T>, x: T, key: T -> int, k: int)
    requires SortedByInt(s, key)
    ensures WithKey(InsertByInt(s, x, key), key, k) == WithKey(s, key, k) + (if key(x) == k then [x] else [])
    decreases |s|
  {
    if s != [] {
      var last := s[|s| - 1];
      var init := s[..|s| - 1];
      assert s == init + [last];
      if key(x) < key(last) {
        var r := InsertByInt(init, x, key);
        assert InsertByInt(s, x, key) == r + [last];
        InsertByIntStable(init, x, key, k);
        WithKeySnoc(r, last, key, k);
        WithKeySnoc(init, last, key, k);
        StableSwap(WithKey(init, key, k), x, last, key(x) == k, key(last) == k);
      } else {
        WithKeySnoc(s, x, key, k);
      }
    }
  }

  /** `sorted` is stable: the elements sharing a key keep their input order. */
  lemma {:induction false} SortByIntStable<T>(s: seq<T>, key: T -> int, k: int)
    ensures WithKey(SortByInt(s, key), key, k) == WithKey(s, key, k)
  {
    if s != [] {
      var init := s[..|s| - 1];
      SortByIntStable(init, key, k);
      InsertByIntStable(SortByInt(init, key), s[|s| - 1], key, k);
    }
  }

  lemma {:induction false} InsertByStrStable<T>(s: seq<T>, x: T, key: T -> string, k: string)
    requires SortedByStr(s, key)
    ensures WithKey(InsertByStr(s, x, key), key, k) == WithKey(s, key, k) + (if key(x) == k then [x] else [])
    decreases |s|
  {
    if s != [] {
      var last := s[|s| - 1];
      var init := s[..|s| - 1];
      assert s == init + [last];
      if StrLt(key(x), key(last)) {
        StrLtIrreflexive(key(x));
        var r := InsertByStr(init, x, key);
        assert InsertByStr(s, x, key) == r + [last];
        InsertByStrStable(init, x, key, k);
        WithKeySnoc(r, last, key, k);
        WithKeySnoc(init, last, key, k);
        StableSwap(WithKey(init, key, k), x, last, key(x) == k, key(last) == k);
      } else {
        WithKeySnoc(s, x, key, k);
      }
    }
  }

  /** `sorted` with a string key is stable as well. */
  lemma {:induction false} SortByStrStable<T>(s: seq<T>, key: T -> string, k: string)
    ensures WithKey(SortByStr(s, key), key, k) == WithKey(s, key, k)
  {
    if s != [] {
      var init := s[..|s| - 1];
      SortByStrStable(init, key, k);
      InsertByStrStable(SortByStr(init, key), s[|s| - 1], key, k);
    }
  }

  /** The head of a sorted list is at most each of its members. */
  lemma SortedHeadLeast(a: seq<string>, x: string)
    requires forall i, j :: 0 <= i < j < |a| ==> StrLe(a[i], a[j])
    requires x in multiset(a)
    ensures StrLe(a[0], x)
  {
    var k :| 0 <= k < |a| && a[k] == x;
    if k > 0 { assert StrLe(a[0], a[k]); }
  }

  /** Equal multisets with equal heads have equal tails. */
  lemma TailMultisets<T>(a: seq<T>, b: seq<T>)
    requires a != [] && b != [] && a[0] == b[0] && multiset(a) == multiset(b)
    ensures multiset(a[1..]) == multiset(b[1..])
  {
    assert a == [a[0]] + a[1..] && b == [b[0]] + b[1..];
    assert multiset(a) == multiset{a[0]} + multiset(a[1..]);
    assert multiset(b) == multiset{b[0]} + multiset(b[1..]);
    assert multiset(a[1..]) == multiset(a) - multiset{a[0]};
    assert multiset(b[1..]) == multiset(b) - multiset{b[0]};
  }

  /** Two sorted lists of the same strings are the same list: `sorted` depends only on the contents. */
  lemma {:induction false} SortedStringsUnique(a: seq<string>, b: seq<string>)
    requires forall i, j :: 0 <= i < j < |a| ==> StrLe(a[i], a[j])
    requires forall i, j :: 0 <= i < j < |b| ==> StrLe(b[i], b[j])
    requires multiset(a) == multiset(b)
    ensures a == b
    decreases |a|
  {
    if a != [] {
      assert |b| == |multiset(b)| == |a|;
      SortedHeadLeast(b, a[0]);
      SortedHeadLeast(a, b[0]);
      assert a[0] == b[0] by {
        if a[0] != b[0] {
          StrLtTrans(a[0], b[0], a[0]);
          StrLtIrreflexive(a[0]);
        }
      }
      TailMultisets(a, b);
      SortedStringsUnique(a[1..], b[1..]);
      assert a == [a[0]] + a[1..] && b == [b[0]] + b[1..];
    }
  }
}
