/** Python's `sorted`: of paths by string order, and stably by a numeric key. */
module Sorting {
  import opened Base

  /** Python's `<=` on strings: code point by code point, a proper prefix first. */
  predicate LexLe(a: string, b: string)
  {
    |a| == 0 || (|b| > 0 && (a[0] < b[0] || (a[0] == b[0] && LexLe(a[1..], b[1..]))))
  }

  lemma {:induction false} LexLeTotal(a: string, b: string)
    ensures LexLe(a, b) || LexLe(b, a)
  {
    if |a| > 0 && |b| > 0 && a[0] == b[0] {
      LexLeTotal(a[1..], b[1..]);
    }
  }

  lemma {:induction false} LexLeTransitive(a: string, b: string, c: string)
    requires LexLe(a, b) && LexLe(b, c)
    ensures LexLe(a, c)
  {
    if |a| > 0 && |b| > 0 && |c| > 0 && a[0] == b[0] == c[0] {
      LexLeTransitive(a[1..], b[1..], c[1..]);
    }
  }

  ghost predicate SortedByPath<C>(s: seq<File<C>>)
  {
    forall i, j :: 0 <= i < j < |s| ==> LexLe(s[i].path, s[j].path)
  }

  /** Inserts `f` into a list sorted by path, before the first entry whose path is not smaller. */
  function InsertByPath<C(==)>(f: File<C>, s: seq<File<C>>): (r: seq<File<C>>)
    requires SortedByPath(s)
    ensures SortedByPath(r)
    ensures |r| == |s| + 1
    ensures multiset(r) == multiset(s) + multiset{f}
  {
    if s == [] then [f]
    else if LexLe(f.path, s[0].path) then
      forall j | 0 <= j < |s| ensures LexLe(f.path, s[j].path) {
        if j > 0 { LexLeTransitive(f.path, s[0].path, s[j].path); }
      }
      [f] + s
    else
      LexLeTotal(f.path, s[0].path);
      var rest := InsertByPath(f, s[1..]);
      PathsAfterHead(f, s, rest);
      [s[0]] + rest
  }

  /** What is inserted after the head of a list sorted by path has a path no smaller than the head's. */
  lemma PathsAfterHead<C>(f: File<C>, s: seq<File<C>>, rest: seq<File<C>>)
    requires SortedByPath(s) && |s| > 0 && LexLe(s[0].path, f.path)
    requires multiset(rest) == multiset(s[1..]) + multiset{f}
    ensures s == [s[0]] + s[1..]
    ensures forall j :: 0 <= j < |rest| ==> LexLe(s[0].path, rest[j].path)
  {
    assert s == [s[0]] + s[1..];
    forall j | 0 <= j < |rest| ensures LexLe(s[0].path, rest[j].path) {
      assert rest[j] in multiset(rest);
      if rest[j] != f {
        assert rest[j] in multiset(s[1..]);
      }
    }
  }

  /** `sorted(files)` by path: a permutation of the input in ascending path order. */
  function SortByPath<C(==)>(s: seq<File<C>>): (r: seq<File<C>>)
    ensures SortedByPath(r)
    ensures |r| == |s|
    ensures multiset(r) == multiset(s)
  {
    if s == [] then []
    else
      assert s == [s[0]] + s[1..];
      InsertByPath(s[0], SortByPath(s[1..]))
  }

  // ---------------------------------------------------------------------
  // Stable sort by a numeric key

  /** The elements of `s` whose key is `n`, in their order in `s`. */
  function WithKey<T>(s: seq<T>, key: T -> real, n: real): seq<T>
  {
    if s == [] then []
    else (if key(s[0]) == n then [s[0]] else []) + WithKey(s[1..], key, n)
  }

  ghost predicate SortedByKey<T>(s: seq<T>, key: T -> real)
  {
    forall i, j :: 0 <= i < j < |s| ==> key(s[i]) <= key(s[j])
  }

  /** Inserts `x` before the first element whose key is not smaller than its own. */
  function InsertByKey<T(==)>(x: T, s: seq<T>, key: T -> real): (r: seq<T>)
    requires SortedByKey(s, key)
    ensures SortedByKey(r, key)
    ensures multiset(r) == multiset(s) + multiset{x}
  {
    if s == [] then [x]
    else if key(x) <= key(s[0]) then [x] + s
    else
      var rest := InsertByKey(x, s[1..], key);
      KeysAfterHead(x, s, key, rest);
      [s[0]] + rest
  }

  /** What is inserted after the head of a sorted list has a key no smaller than the head's. */
  lemma KeysAfterHead<T>(x: T, s: seq<T>, key: T -> real, rest: seq<T>)
    requires SortedByKey(s, key) && |s| > 0 && key(s[0]) < key(x)
    requires multiset(rest) == multiset(s[1..]) + multiset{x}
    ensures s == [s[0]] + s[1..]
    ensures forall j :: 0 <= j < |rest| ==> key(s[0]) <= key(rest[j])
  {
    assert s == [s[0]] + s[1..];
    forall j | 0 <= j < |rest| ensures key(s[0]) <= key(rest[j]) {
      assert rest[j] in multiset(rest);
      if rest[j] != x {
        assert rest[j] in multiset(s[1..]);
      }
    }
  }

  /** Insertion passes over only elements with a smaller key, so among the elements with any
      one key, `x` lands first. */
  lemma {:induction false} InsertKeepsKeyOrder<T>(x: T, s: seq<T>, key: T -> real, n: real)
    requires SortedByKey(s, key)
    ensures WithKey(InsertByKey(x, s, key), key, n) == (if key(x) == n then [x] else []) + WithKey(s, key, n)
  {
    if s == [] {
      assert InsertByKey(x, s, key) == [x] + s;
      WithKeyCons(x, s, key, n);
    } else if key(x) <= key(s[0]) {
      assert InsertByKey(x, s, key) == [x] + s;
      WithKeyCons(x, s, key, n);
    } else {
      var rest := InsertByKey(x, s[1..], key);
      assert InsertByKey(x, s, key) == [s[0]] + rest;
      assert SortedByKey(s[1..], key);
      InsertKeepsKeyOrder(x, s[1..], key, n);
      PassHead(x, s, key, n, rest);
    }
  }

  /** Passing over the head keeps it ahead of `x` among the elements with its key. */
  lemma PassHead<T>(x: T, s: seq<T>, key: T -> real, n: real, rest: seq<T>)
    requires |s| > 0 && key(s[0]) < key(x)
    requires WithKey(rest, key, n) == (if key(x) == n then [x] else []) + WithKey(s[1..], key, n)
    ensures WithKey([s[0]] + rest, key, n) == (if key(x) == n then [x] else []) + WithKey(s, key, n)
  {
    WithKeyCons(s[0], rest, key, n);
    assert s == [s[0]] + s[1..];
    WithKeyCons(s[0], s[1..], key, n);
    if key(s[0]) == n {
      assert WithKey([s[0]] + rest, key, n) == [s[0]] + WithKey(s[1..], key, n);
    } else {
      assert WithKey(s, key, n) == WithKey(s[1..], key, n);
    }
  }

  lemma WithKeyCons<T>(y: T, s: seq<T>, key: T -> real, n: real)
    ensures WithKey([y] + s, key, n) == (if key(y) == n then [y] else []) + WithKey(s, key, n)
  {
    assert ([y] + s)[1..] == s;
  }

  /** `sorted(s, key=key)`: a permutation of `s` in ascending key order. */
  function SortByKey<T(==)>(s: seq<T>, key: T -> real): (r: seq<T>)
    ensures SortedByKey(r, key)
    ensures multiset(r) == multiset(s)
  {
    if s == [] then []
    else
      assert s == [s[0]] + s[1..];
      InsertByKey(s[0], SortByKey(s[1..], key), key)
  }

  /** Python's sort is stable: for every key, the elements with that key appear in the
      result exactly as they appear in the input. */
  lemma {:induction false} SortByKeyIsStable<T>(s: seq<T>, key: T -> real, n: real)
    ensures WithKey(SortByKey(s, key), key, n) == WithKey(s, key, n)
  {
    if s != [] {
      SortByKeyIsStable(s[1..], key, n);
      InsertKeepsKeyOrder(s[0], SortByKey(s[1..], key), key, n);
    }
  }
}
