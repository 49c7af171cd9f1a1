/** Python's `sorted`/`list.sort` and pandas' stable `sort_values`: a stable
    sort by a key under a strict total order, written as an insertion sort.
    Any two stable sorts give the same list, so the algorithm does not matter. */
module StableSort {

  ghost predicate StrictTotalOrder<K(!new)>(less: (K, K) -> bool) {
    && (forall a :: !less(a, a))
    && (forall a, b, c :: less(a, b) && less(b, c) ==> less(a, c))
    && (forall a, b :: a != b ==> less(a, b) || less(b, a))
  }

  /** No element is followed by one with a strictly smaller key. */
  predicate SortedBy<T, K>(s: seq<T>, key: T -> K, less: (K, K) -> bool) {
    forall i, j :: 0 <= i < j < |s| ==> !less(key(s[j]), key(s[i]))
  }

  /** Puts `x` before the first element whose key is not smaller than its own. */
  function Insert<T, K>(s: seq<T>, x: T, key: T -> K, less: (K, K) -> bool): (r: seq<T>)
    ensures multiset(r) == multiset(s) + multiset{x}
  {
    if s == [] || !less(key(s[0]), key(x)) then [x] + s
    else
      assert s == [s[0]] + s[1..];
      [s[0]] + Insert(s[1..], x, key, less)
  }

  /** `sorted(s, key=key)`. */
  function SortBy<T, K>(s: seq<T>, key: T -> K, less: (K, K) -> bool): (r: seq<T>)
    ensures multiset(r) == multiset(s)
  {
    if s == [] then []
    else
      assert s == [s[0]] + s[1..];
      Insert(SortBy(s[1..], key, less), s[0], key, less)
  }

  /** The elements whose key is `k`, in their order. */
  function WithKey<T, K(==)>(s: seq<T>, key: T -> K, k: K): seq<T> {
    if s == [] then []
    else (if key(s[0]) == k then [s[0]] else []) + WithKey(s[1..], key, k)
  }

  lemma {:induction false} InsertSorted<T, K(!new)>(s: seq<T>, x: T, key: T -> K, less: (K, K) -> bool)
    requires StrictTotalOrder(less) && SortedBy(s, key, less)
    ensures SortedBy(Insert(s, x, key, less), key, less)
  {
    if s != [] && less(key(s[0]), key(x)) {
      var rest := Insert(s[1..], x, key, less);
      InsertSorted(s[1..], x, key, less);
      forall j | 0 <= j < |rest|
        ensures !less(key(rest[j]), key(s[0]))
      {
        assert rest[j] in multiset(rest);
        if rest[j] != x {
          assert rest[j] in multiset(s[1..]);
          var m :| 0 <= m < |s[1..]| && s[1..][m] == rest[j];
          assert s[m + 1] == rest[j];
        }
      }
    }
  }

  /** The result is sorted. */
  lemma {:induction false} SortBySorted<T, K(!new)>(s: seq<T>, key: T -> K, less: (K, K) -> bool)
    requires StrictTotalOrder(less)
    ensures SortedBy(SortBy(s, key, less), key, less)
  {
    if s != [] {
      SortBySorted(s[1..], key, less);
      InsertSorted(SortBy(s[1..], key, less), s[0], key, less);
    }
  }

  lemma {:induction false} InsertWithKey<T, K(!new)>(s: seq<T>, x: T, key: T -> K, less: (K, K) -> bool, k: K)
    requires StrictTotalOrder(less)
    ensures WithKey(Insert(s, x, key, less), key, k) == (if key(x) == k then [x] else []) + WithKey(s, key, k)
  {
    var r := Insert(s, x, key, less);
    var b := if key(x) == k then [x] else [];
    if s != [] && less(key(s[0]), key(x)) {
      var rest := Insert(s[1..], x, key, less);
      var a := if key(s[0]) == k then [s[0]] else [];
      var w := WithKey(s[1..], key, k);
      InsertWithKey(s[1..], x, key, less, k);
      assert r == [s[0]] + rest && r[0] == s[0] && r[1..] == rest;
      WithKeyCons(r, key, k);
      WithKeyCons(s, key, k);
      assert WithKey(r, key, k) == a + (b + w);
      assert key(s[0]) != key(x);
      assert a == [] || b == [];
    } else {
      assert r == [x] + s && r[0] == x && r[1..] == s;
      WithKeyCons(r, key, k);
    }
  }

  /** The first element is kept or dropped, then the rest is filtered. */
  lemma WithKeyCons<T, K>(s: seq<T>, key: T -> K, k: K)
    requires s != []
    ensures WithKey(s, key, k) == (if key(s[0]) == k then [s[0]] else []) + WithKey(s[1..], key, k)
  {
  }

  /** Stability: elements with equal keys keep their relative order. */
  lemma {:induction false} SortByStable<T, K(!new)>(s: seq<T>, key: T -> K, less: (K, K) -> bool, k: K)
    requires StrictTotalOrder(less)
    ensures WithKey(SortBy(s, key, less), key, k) == WithKey(s, key, k)
  {
    if s != [] {
      SortByStable(s[1..], key, less, k);
      InsertWithKey(SortBy(s[1..], key, less), s[0], key, less, k);
    }
  }

  /** A list that is already sorted comes back as it is. */
  lemma {:induction false} SortByOfSorted<T, K>(s: seq<T>, key: T -> K, less: (K, K) -> bool)
    requires SortedBy(s, key, less)
    ensures SortBy(s, key, less) == s
  {
    if s != [] {
      assert SortedBy(s[1..], key, less) by {
        forall i, j | 0 <= i < j < |s[1..]|
          ensures !less(key(s[1..][j]), key(s[1..][i]))
        {
          assert s[1..][j] == s[j + 1] && s[1..][i] == s[i + 1];
        }
      }
      SortByOfSorted(s[1..], key, less);
      assert s[1..] == [] || !less(key(s[1]), key(s[0]));
      assert [s[0]] + s[1..] == s;
    }
  }

  predicate DistinctBy<T, U(==)>(s: seq<T>, f: T -> U) {
    forall i, j :: 0 <= i < j < |s| ==> f(s[i]) != f(s[j])
  }

  lemma {:induction false} InsertDistinctBy<T, K, U>(s: seq<T>, x: T, key: T -> K, less: (K, K) -> bool, f: T -> U)
    requires DistinctBy(s, f)
    requires forall y :: y in s ==> f(y) != f(x)
    ensures DistinctBy(Insert(s, x, key, less), f)
  {
    if s != [] && less(key(s[0]), key(x)) {
      var rest := Insert(s[1..], x, key, less);
      InsertDistinctBy(s[1..], x, key, less, f);
      forall j | 0 <= j < |rest|
        ensures f(rest[j]) != f(s[0])
      {
        assert rest[j] in multiset(rest);
        if rest[j] != x {
          assert rest[j] in multiset(s[1..]);
          var m :| 0 <= m < |s[1..]| && s[1..][m] == rest[j];
          assert s[m + 1] == rest[j];
        }
      }
    }
  }

  /** Sorting neither merges nor duplicates: a projection that was distinct stays distinct. */
  lemma {:induction false} SortByDistinctBy<T, K, U>(s: seq<T>, key: T -> K, less: (K, K) -> bool, f: T -> U)
    requires DistinctBy(s, f)
    ensures DistinctBy(SortBy(s, key, less), f)
  {
    if s != [] {
      SortByDistinctBy(s[1..], key, less, f);
      var t := SortBy(s[1..], key, less);
      forall y | y in t
        ensures f(y) != f(s[0])
      {
        assert y in multiset(t);
        var m :| 0 <= m < |s[1..]| && s[1..][m] == y;
        assert s[m + 1] == y;
      }
      InsertDistinctBy(t, s[0], key, less, f);
    }
  }

  // ---------------------------------------------------------------------
  // The two orders the builders sort by
  // ---------------------------------------------------------------------

  function IntLess(a: int, b: int): bool { a < b }

  lemma IntLessIsStrictTotalOrder()
    ensures StrictTotalOrder(IntLess)
  {
  }

  /** Python's `<` on `str`: lexicographic by code point. */
  function StringLess(a: string, b: string): bool {
    if a == [] then b != []
    else if b == [] then false
    else if a[0] != b[0] then a[0] < b[0]
    else StringLess(a[1..], b[1..])
  }

  lemma {:induction false} StringLessIrreflexive(a: string)
    ensures !StringLess(a, a)
  {
    if a != [] {
      StringLessIrreflexive(a[1..]);
    }
  }

  lemma {:induction false} StringLessTransitive(a: string, b: string, c: string)
    requires StringLess(a, b) && StringLess(b, c)
    ensures StringLess(a, c)
  {
    if a != [] && b != [] && c != [] && a[0] == b[0] && b[0] == c[0] {
      StringLessTransitive(a[1..], b[1..], c[1..]);
    }
  }

  lemma {:induction false} StringLessTotal(a: string, b: string)
    requires a != b
    ensures StringLess(a, b) || StringLess(b, a)
  {
    if a != [] && b != [] && a[0] == b[0] {
      assert a == [a[0]] + a[1..] && b == [b[0]] + b[1..];
      StringLessTotal(a[1..], b[1..]);
    }
  }

  lemma StringLessIsStrictTotalOrder()
    ensures StrictTotalOrder(StringLess)
  {
    forall a: string
      ensures !StringLess(a, a)
    {
      StringLessIrreflexive(a);
    }
    forall a: string, b: string, c: string | StringLess(a, b) && StringLess(b, c)
      ensures StringLess(a, c)
    {
      StringLessTransitive(a, b, c);
    }
    forall a: string, b: string | a != b
      ensures StringLess(a, b) || StringLess(b, a)
    {
      StringLessTotal(a, b);
    }
  }
}
