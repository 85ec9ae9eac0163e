/**
 * `sort_values([a, b], kind="stable")`: a stable sort of rows by a pair of integer
 * columns, compared lexicographically. Both the replay tool and the data generator
 * sort rows by (timestamp, patient id) this way.
 */
module StableSort {

  type Key = (int, int)

  predicate KeyLe(a: Key, b: Key) {
    a.0 < b.0 || (a.0 == b.0 && a.1 <= b.1)
  }

  predicate Sorted<T>(s: seq<T>, key: T -> Key) {
    forall i, j :: 0 <= i < j < |s| ==> KeyLe(key(s[i]), key(s[j]))
  }

  /** Insert `x` after every element whose key is at most `x`'s. */
  function Insert<T>(s: seq<T>, x: T, key: T -> Key): (r: seq<T>)
    ensures |r| == |s| + 1
  {
    if s == [] then [x]
    else if KeyLe(key(s[|s| - 1]), key(x)) then s + [x]
    else Insert(s[..|s| - 1], x, key) + [s[|s| - 1]]
  }

  /** The rows sorted by `key`, ties kept in input order (insertion sort from the back). */
  function SortBy<T>(s: seq<T>, key: T -> Key): (r: seq<T>)
    ensures |r| == |s|
  {
    if s == [] then [] else Insert(SortBy(s[..|s| - 1], key), s[|s| - 1], key)
  }

  lemma SortedAppend<T>(r: seq<T>, y: T, key: T -> Key)
    requires Sorted(r, key)
    requires forall i :: 0 <= i < |r| ==> KeyLe(key(r[i]), key(y))
    ensures Sorted(r + [y], key)
  {
  }

  /** Every element of `Insert(s, x, key)` is `x` or an element of `s`. */
  lemma {:induction false} InsertElements<T>(s: seq<T>, x: T, key: T -> Key)
    ensures forall y :: y in Insert(s, x, key) ==> y == x || y in s
  {
    if s != [] && !KeyLe(key(s[|s| - 1]), key(x)) {
      InsertElements(s[..|s| - 1], x, key);
    }
  }

  /** Inserting into a sorted sequence keeps it sorted. */
  lemma {:induction false} InsertSorted<T>(s: seq<T>, x: T, key: T -> Key)
    requires Sorted(s, key)
    ensures Sorted(Insert(s, x, key), key)
  {
    if s == [] {
    } else if KeyLe(key(s[|s| - 1]), key(x)) {
      SortedAppend(s, x, key);
    } else {
      var init := s[..|s| - 1];
      var last := s[|s| - 1];
      var r := Insert(init, x, key);
      InsertSorted(init, x, key);
      InsertElements(init, x, key);
      forall i | 0 <= i < |r| ensures KeyLe(key(r[i]), key(last)) {
        assert r[i] in r;
        if r[i] != x {
          var j :| 0 <= j < |init| && init[j] == r[i];
        }
      }
      SortedAppend(r, last, key);
    }
  }

  /** Inserting adds exactly `x`. */
  lemma {:induction false} InsertPermutes<T>(s: seq<T>, x: T, key: T -> Key)
    ensures multiset(Insert(s, x, key)) == multiset(s) + multiset{x}
  {
    if s != [] && !KeyLe(key(s[|s| - 1]), key(x)) {
      InsertPermutes(s[..|s| - 1], x, key);
      assert s[..|s| - 1] + [s[|s| - 1]] == s;
    }
  }

  /** `SortBy` returns its input in key order... */
  lemma {:induction false} SortByOrdered<T>(s: seq<T>, key: T -> Key)
    ensures Sorted(SortBy(s, key), key)
  {
    if s != [] {
      SortByOrdered(s[..|s| - 1], key);
      InsertSorted(SortBy(s[..|s| - 1], key), s[|s| - 1], key);
    }
  }

  /** ...and is a permutation of it. */
  lemma {:induction false} SortByPermutes<T>(s: seq<T>, key: T -> Key)
    ensures multiset(SortBy(s, key)) == multiset(s)
  {
    if s != [] {
      var init := s[..|s| - 1];
      var last := s[|s| - 1];
      SortByPermutes(init, key);
      InsertPermutes(SortBy(init, key), last, key);
      assert init + [last] == s;
    }
  }

  /** The rows whose key is `k`, in order. */
  function WithKey<T>(s: seq<T>, key: T -> Key, k: Key): seq<T> {
    if s == [] then []
    else WithKey(s[..|s| - 1], key, k) + (if key(s[|s| - 1]) == k then [s[|s| - 1]] else [])
  }

  lemma {:induction false} WithKeyAppend<T>(a: seq<T>, b: seq<T>, key: T -> Key, k: Key)
    ensures WithKey(a + b, key, k) == WithKey(a, key, k) + WithKey(b, key, k)
  {
    if b == [] {
      assert a + b == a;
    } else {
      assert (a + b)[..|a + b| - 1] == a + b[..|b| - 1];
      WithKeyAppend(a, b[..|b| - 1], key, k);
    }
  }

  lemma {:induction false} InsertWithKey<T>(s: seq<T>, x: T, key: T -> Key, k: Key)
    ensures WithKey(Insert(s, x, key), key, k)
         == WithKey(s, key, k) + (if key(x) == k then [x] else [])
  {
    if s == [] {
      assert [x][..0] == [];
    } else if KeyLe(key(s[|s| - 1]), key(x)) {
      WithKeyAppend(s, [x], key, k);
      assert [x][..0] == [];
    } else {
      var init := s[..|s| - 1];
      var last := s[|s| - 1];
      assert key(x) != key(last);
      InsertWithKey(init, x, key, k);
      WithKeyAppend(Insert(init, x, key), [last], key, k);
      assert [last][..0] == [];
    }
  }

  /** Sorting is stable: the rows sharing a key keep their relative order. */
  lemma {:induction false} SortIsStable<T>(s: seq<T>, key: T -> Key, k: Key)
    ensures WithKey(SortBy(s, key), key, k) == WithKey(s, key, k)
  {
    if s != [] {
      var init := s[..|s| - 1];
      SortIsStable(init, key, k);
      InsertWithKey(SortBy(init, key), s[|s| - 1], key, k);
    }
  }

  /** Rows already in key order are left exactly as they are. */
  lemma {:induction false} SortSortedIsIdentity<T>(s: seq<T>, key: T -> Key)
    requires Sorted(s, key)
    ensures SortBy(s, key) == s
  {
    if s != [] {
      var init := s[..|s| - 1];
      assert Sorted(init, key);
      SortSortedIsIdentity(init, key);
      if init != [] {
        assert KeyLe(key(init[|init| - 1]), key(s[|s| - 1]));
      }
      assert init + [s[|s| - 1]] == s;
    }
  }
}
