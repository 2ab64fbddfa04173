/**
 * Python's `sorted(xs, key=key, reverse=True)`: a stable sort, highest key first.
 * Modelled as insertion sort; what is proved about it (ordered, a permutation,
 * stable) is what the language promises of `sorted`.
 */
module Sorting {
  predicate SortedDesc<T(!new)>(s: seq<T>, key: T -> int) {
    forall i, j :: 0 <= i < j < |s| ==> key(s[i]) >= key(s[j])
  }

  /** The elements of `s` whose key is `k`, in their order in `s`. */
  function WithKey<T(!new)>(s: seq<T>, key: T -> int, k: int): seq<T> {
    if s == [] then [] else (if key(s[0]) == k then [s[0]] else []) + WithKey(s[1..], key, k)
  }

  lemma {:induction false} WithKeyCons<T(!new)>(x: T, s: seq<T>, key: T -> int, k: int)
    ensures WithKey([x] + s, key, k) == (if key(x) == k then [x] else []) + WithKey(s, key, k)
  {
    assert ([x] + s)[1..] == s;
  }

  /** Puts `x` before the first element whose key is not greater than its own. */
  function Insert<T(!new)>(x: T, s: seq<T>, key: T -> int): (r: seq<T>)
    ensures multiset(r) == multiset(s) + multiset{x}
    ensures |r| == |s| + 1 && (r[0] == x || (s != [] && r[0] == s[0]))
    ensures SortedDesc(s, key) ==> SortedDesc(r, key)
  {
    if s == [] || key(x) >= key(s[0]) then
      SortedCons(x, s, key);
      [x] + s
    else
      assert s == [s[0]] + s[1..];
      var rest := Insert(x, s[1..], key);
      SortedCons(s[0], rest, key);
      [s[0]] + rest
  }

  /** A sorted sequence stays sorted under a new first element whose key is not smaller than the old first one's. */
  lemma SortedCons<T(!new)>(y: T, t: seq<T>, key: T -> int)
    ensures SortedDesc(t, key) && (t == [] || key(y) >= key(t[0])) ==> SortedDesc([y] + t, key)
    ensures SortedDesc([y] + t, key) ==> SortedDesc(t, key)
  {
    var r := [y] + t;
    if SortedDesc(t, key) && (t == [] || key(y) >= key(t[0])) {
      forall i, j | 0 <= i < j < |r| ensures key(r[i]) >= key(r[j]) {
        if i == 0 {
          assert r[j] == t[j - 1];
        } else {
          assert r[i] == t[i - 1] && r[j] == t[j - 1];
        }
      }
    }
    if SortedDesc(r, key) {
      forall i, j | 0 <= i < j < |t| ensures key(t[i]) >= key(t[j]) {
        assert t[i] == r[i + 1] && t[j] == r[j + 1];
      }
    }
  }

  function SortDesc<T(!new)>(s: seq<T>, key: T -> int): (r: seq<T>)
    ensures multiset(r) == multiset(s)
    ensures SortedDesc(r, key)
  {
    if s == [] then []
    else
      assert s == [s[0]] + s[1..];
      Insert(s[0], SortDesc(s[1..], key), key)
  }

  /** Inserting `x` puts it first among the elements that share its key. */
  lemma {:induction false} InsertStable<T(!new)>(x: T, s: seq<T>, key: T -> int, k: int)
    ensures WithKey(Insert(x, s, key), key, k)
         == (if key(x) == k then [x] else []) + WithKey(s, key, k)
  {
    if s == [] || key(x) >= key(s[0]) {
      assert Insert(x, s, key) == [x] + s;
      WithKeyCons(x, s, key, k);
    } else {
      var rest := Insert(x, s[1..], key);
      assert Insert(x, s, key) == [s[0]] + rest;
      InsertStable(x, s[1..], key, k);
      WithKeyCons(s[0], rest, key, k);
      WithKeyCons(s[0], s[1..], key, k);
      assert s == [s[0]] + s[1..];
      SwapDisjoint(x, s[0], key, k, WithKey(s[1..], key, k));
    }
  }

  /** Two elements with different keys contribute to at most one `WithKey` list. */
  lemma SwapDisjoint<T>(x: T, y: T, key: T -> int, k: int, tail: seq<T>)
    requires key(x) != key(y)
    ensures (if key(y) == k then [y] else []) + ((if key(x) == k then [x] else []) + tail)
         == (if key(x) == k then [x] else []) + ((if key(y) == k then [y] else []) + tail)
  {
  }

  /** Stability: elements with equal keys keep their relative order. */
  lemma {:induction false} SortDescStable<T(!new)>(s: seq<T>, key: T -> int, k: int)
    ensures WithKey(SortDesc(s, key), key, k) == WithKey(s, key, k)
  {
    if s != [] {
      SortDescStable(s[1..], key, k);
      InsertStable(s[0], SortDesc(s[1..], key), key, k);
      WithKeyCons(s[0], s[1..], key, k);
      assert s == [s[0]] + s[1..];
    }
  }

  /** No two elements of `s` agree on `f`. */
  predicate DistinctOn<T(!new), U(==)>(s: seq<T>, f: T -> U) {
    forall i, j :: 0 <= i < j < |s| ==> f(s[i]) != f(s[j])
  }

  /** Sorting does not make two elements agree on `f` that did not before. */
  lemma {:induction false} SortKeepsDistinct<T(!new), U>(s: seq<T>, key: T -> int, f: T -> U)
    requires DistinctOn(s, f)
    ensures DistinctOn(SortDesc(s, key), f)
  {
    if s != [] {
      var rest := SortDesc(s[1..], key);
      SortKeepsDistinct(s[1..], key, f);
      forall y | y in rest ensures f(y) != f(s[0]) {
        assert y in multiset(s[1..]);
      }
      InsertKeepsDistinct(s[0], rest, key, f);
    }
  }

  lemma {:induction false} InsertKeepsDistinct<T(!new), U>(x: T, s: seq<T>, key: T -> int, f: T -> U)
    requires DistinctOn(s, f)
    requires forall y :: y in s ==> f(y) != f(x)
    ensures DistinctOn(Insert(x, s, key), f)
  {
    if s == [] || key(x) >= key(s[0]) {
      assert Insert(x, s, key) == [x] + s;
      DistinctCons(x, s, f);
    } else {
      var rest := Insert(x, s[1..], key);
      assert Insert(x, s, key) == [s[0]] + rest;
      DistinctCons(s[0], s[1..], f);
      assert s == [s[0]] + s[1..];
      InsertKeepsDistinct(x, s[1..], key, f);
      forall y | y in rest ensures f(y) != f(s[0]) {
        assert y in multiset(rest);
        assert y == x || y in s[1..];
      }
      DistinctCons(s[0], rest, f);
    }
  }

  /** A new first element keeps the elements distinct on `f` exactly when `f` sets it apart from the rest. */
  lemma DistinctCons<T(!new), U>(y: T, t: seq<T>, f: T -> U)
    ensures DistinctOn([y] + t, f) <==> DistinctOn(t, f) && forall z :: z in t ==> f(z) != f(y)
  {
    var r := [y] + t;
    if DistinctOn(t, f) && forall z :: z in t ==> f(z) != f(y) {
      forall i, j | 0 <= i < j < |r| ensures f(r[i]) != f(r[j]) {
        if i == 0 {
          assert r[j] == t[j - 1] && r[j] in t;
        } else {
          assert r[i] == t[i - 1] && r[j] == t[j - 1];
        }
      }
    }
    if DistinctOn(r, f) {
      forall i, j | 0 <= i < j < |t| ensures f(t[i]) != f(t[j]) {
        assert t[i] == r[i + 1] && t[j] == r[j + 1];
      }
      forall z | z in t ensures f(z) != f(y) {
        var k :| 0 <= k < |t| && t[k] == z;
        assert r[0] == y && r[k + 1] == z;
        assert f(r[0]) != f(r[k + 1]);
      }
    }
  }
}
