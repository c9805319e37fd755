/** `Array.prototype.sort` with a comparator `(a, b) => key(a) - key(b)`: the
    sort is stable, so its result is the unique permutation that is ordered by
    key and keeps the input order among equal keys. Written here as an
    insertion sort. */
module StableSort {

  /** Ordered by key, ascending. */
  predicate Sorted<T>(s: seq<T>, key: T -> int) {
    forall i, j | 0 <= i < j < |s| :: key(s[i]) <= key(s[j])
  }

  /** The elements whose key is `k`, in their order in `s`. */
  function WithKey<T>(s: seq<T>, key: T -> int, k: int): seq<T> {
    if s == [] then [] else (if key(s[0]) == k then [s[0]] else []) + WithKey(s[1..], key, k)
  }

  /** No two elements share a value of `f`. */
  ghost predicate DistinctBy<T, U>(s: seq<T>, f: T -> U) {
    forall i, j | 0 <= i < j < |s| :: f(s[i]) != f(s[j])
  }

  /** Puts `x` ahead of the first element whose key is not smaller. */
  function Insert<T>(x: T, l: seq<T>, key: T -> int): (r: seq<T>)
    ensures |r| == |l| + 1
  {
    if l == [] then [x]
    else if key(x) <= key(l[0]) then [x] + l
    else [l[0]] + Insert(x, l[1..], key)
  }

  function SortBy<T>(s: seq<T>, key: T -> int): (r: seq<T>)
    ensures |r| == |s|
  {
    if s == [] then [] else Insert(s[0], SortBy(s[1..], key), key)
  }

  lemma {:induction false} InsertPermutes<T>(x: T, l: seq<T>, key: T -> int)
    ensures multiset(Insert(x, l, key)) == multiset(l) + multiset{x}
  {
    if l != [] && key(x) > key(l[0]) {
      InsertPermutes(x, l[1..], key);
      assert l == [l[0]] + l[1..];
    }
  }

  lemma {:induction false} InsertSorted<T>(x: T, l: seq<T>, key: T -> int)
    requires Sorted(l, key)
    ensures Sorted(Insert(x, l, key), key)
  {
    if l != [] && key(x) > key(l[0]) {
      InsertSorted(x, l[1..], key);
      InsertPermutes(x, l[1..], key);
      var rest := Insert(x, l[1..], key);
      forall y | y in rest ensures key(l[0]) <= key(y) {
        assert y in multiset(rest);
        if y != x {
          assert y in multiset(l[1..]);
          var j :| 0 <= j < |l[1..]| && l[1..][j] == y;
          assert l[j + 1] == y;
        }
      }
      var r := [l[0]] + rest;
      forall i, j | 0 <= i < j < |r| ensures key(r[i]) <= key(r[j]) {
        if i == 0 { assert r[j] == rest[j - 1]; assert r[j] in rest; }
      }
    }
  }

  lemma WithKeyCons<T>(y: T, l: seq<T>, key: T -> int, k: int)
    ensures WithKey([y] + l, key, k) == (if key(y) == k then [y] else []) + WithKey(l, key, k)
  {
    assert ([y] + l)[0] == y && ([y] + l)[1..] == l;
  }

  lemma {:induction false} InsertWithKey<T>(x: T, l: seq<T>, key: T -> int, k: int)
    ensures WithKey(Insert(x, l, key), key, k) == (if key(x) == k then [x] else []) + WithKey(l, key, k)
  {
    if l == [] {
      WithKeyCons(x, [], key, k);
    } else if key(x) <= key(l[0]) {
      WithKeyCons(x, l, key, k);
    } else {
      var own := if key(x) == k then [x] else [];
      var head := if key(l[0]) == k then [l[0]] else [];
      InsertWithKey(x, l[1..], key, k);
      WithKeyCons(l[0], Insert(x, l[1..], key), key, k);
      WithKeyCons(l[0], l[1..], key, k);
      assert l == [l[0]] + l[1..];
      assert head == [] || own == [];
    }
  }

  lemma {:induction false} InsertDistinctBy<T, U>(x: T, l: seq<T>, key: T -> int, f: T -> U)
    requires DistinctBy(l, f)
    requires forall y | y in l :: f(y) != f(x)
    ensures DistinctBy(Insert(x, l, key), f)
  {
    if l != [] && key(x) > key(l[0]) {
      InsertDistinctBy(x, l[1..], key, f);
      InsertPermutes(x, l[1..], key);
      var rest := Insert(x, l[1..], key);
      forall y | y in rest ensures f(l[0]) != f(y) {
        assert y in multiset(rest);
        if y != x {
          assert y in multiset(l[1..]);
          var j :| 0 <= j < |l[1..]| && l[1..][j] == y;
          assert l[j + 1] == y;
        }
      }
      var r := [l[0]] + rest;
      forall i, j | 0 <= i < j < |r| ensures f(r[i]) != f(r[j]) {
        if i == 0 { assert r[j] == rest[j - 1]; assert r[j] in rest; }
      }
    } else if l != [] {
      var r := [x] + l;
      forall i, j | 0 <= i < j < |r| ensures f(r[i]) != f(r[j]) {
        if i == 0 { assert r[j] == l[j - 1]; assert r[j] in l; }
      }
    }
  }

  /** The result is a permutation of the input, ordered by key. */
  lemma {:induction false} SortByPermutesAndSorts<T>(s: seq<T>, key: T -> int)
    ensures multiset(SortBy(s, key)) == multiset(s)
    ensures Sorted(SortBy(s, key), key)
  {
    if s != [] {
      SortByPermutesAndSorts(s[1..], key);
      InsertPermutes(s[0], SortBy(s[1..], key), key);
      InsertSorted(s[0], SortBy(s[1..], key), key);
      assert s == [s[0]] + s[1..];
      assert |multiset(SortBy(s, key))| == |multiset(s)|;
    }
  }

  /** Stability: among equal keys the input order is kept. */
  lemma {:induction false} SortByStable<T>(s: seq<T>, key: T -> int, k: int)
    ensures WithKey(SortBy(s, key), key, k) == WithKey(s, key, k)
  {
    if s != [] {
      SortByStable(s[1..], key, k);
      InsertWithKey(s[0], SortBy(s[1..], key), key, k);
    }
  }

  /** Sorting never makes two elements agree on `f`. */
  lemma {:induction false} SortByDistinctBy<T, U>(s: seq<T>, key: T -> int, f: T -> U)
    requires DistinctBy(s, f)
    ensures DistinctBy(SortBy(s, key), f)
  {
    if s != [] {
      var rest := s[1..];
      assert DistinctBy(rest, f) by {
        forall i, j | 0 <= i < j < |rest| ensures f(rest[i]) != f(rest[j]) {
          assert rest[i] == s[i + 1] && rest[j] == s[j + 1];
        }
      }
      SortByDistinctBy(rest, key, f);
      SortByPermutesAndSorts(rest, key);
      forall y | y in SortBy(rest, key) ensures f(y) != f(s[0]) {
        assert y in multiset(SortBy(rest, key));
        assert y in multiset(rest);
        var j :| 0 <= j < |rest| && rest[j] == y;
        assert s[j + 1] == y;
      }
      InsertDistinctBy(s[0], SortBy(rest, key), key, f);
    }
  }

  /** A sequence already in order is left as it is. */
  lemma {:induction false} SortBySortedIsIdentity<T>(s: seq<T>, key: T -> int)
    requires Sorted(s, key)
    ensures SortBy(s, key) == s
  {
    if s != [] {
      var rest := s[1..];
      assert Sorted(rest, key) by {
        forall i, j | 0 <= i < j < |rest| ensures key(rest[i]) <= key(rest[j]) {
          assert rest[i] == s[i + 1] && rest[j] == s[j + 1];
        }
      }
      SortBySortedIsIdentity(rest, key);
      assert s == [s[0]] + rest;
    }
  }
}
