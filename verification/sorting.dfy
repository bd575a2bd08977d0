/** A stable sort by string key, as Python's `list.sort(key = ...)` performs
    it: items are compared by key only, by code point, and items with equal
    keys keep their order. */
module Sorting {
  import opened Text

  /** Keys in `<=` order. */
  predicate Sorted<T>(s: seq<T>, key: T -> string) {
    forall i, j :: 0 <= i < j < |s| ==> LexLe(key(s[i]), key(s[j]))
  }

  /** Places `x` after every item whose key is not greater than its own. */
  function Insert<T>(x: T, s: seq<T>, key: T -> string): (r: seq<T>)
    ensures |r| == |s| + 1
    ensures multiset(r) == multiset(s) + multiset{x}
    decreases |s|
  {
    if s == [] then [x]
    else if LexLe(key(x), key(s[0])) && key(x) != key(s[0]) then [x] + s
    else
      assert s == [s[0]] + s[1..];
      [s[0]] + Insert(x, s[1..], key)
  }

  /** Insertion sort, taking the items in order. */
  function Sort<T>(s: seq<T>, key: T -> string): (r: seq<T>)
    ensures |r| == |s|
    ensures multiset(r) == multiset(s)
    decreases |s|
  {
    if s == [] then []
    else
      assert s == s[..|s| - 1] + [s[|s| - 1]];
      Insert(s[|s| - 1], Sort(s[..|s| - 1], key), key)
  }

  /** Inserting into a sorted sequence keeps it sorted. */
  lemma {:induction false} InsertSorted<T>(x: T, s: seq<T>, key: T -> string)
    requires Sorted(s, key)
    ensures Sorted(Insert(x, s, key), key)
    decreases |s|
  {
    if s == [] {
    } else if LexLe(key(x), key(s[0])) && key(x) != key(s[0]) {
      var r := [x] + s;
      forall i, j | 0 <= i < j < |r|
        ensures LexLe(key(r[i]), key(r[j]))
      {
        if i == 0 && j > 1 {
          LexLeTransitive(key(x), key(s[0]), key(s[j - 1]));
        }
      }
    } else {
      InsertSorted(x, s[1..], key);
      var tail := Insert(x, s[1..], key);
      var r := [s[0]] + tail;
      LexLeTotal(key(x), key(s[0]));
      forall i, j | 0 <= i < j < |r|
        ensures LexLe(key(r[i]), key(r[j]))
      {
        if i == 0 {
          var e := tail[j - 1];
          assert e in multiset(tail);
          if e != x {
            assert e in multiset(s[1..]);
            var k :| 0 <= k < |s[1..]| && s[1..][k] == e;
            assert s[k + 1] == e;
          }
        }
      }
    }
  }

  /** The sort's result is sorted. */
  lemma {:induction false} SortSorted<T>(s: seq<T>, key: T -> string)
    ensures Sorted(Sort(s, key), key)
    decreases |s|
  {
    if s != [] {
      SortSorted(s[..|s| - 1], key);
      InsertSorted(s[|s| - 1], Sort(s[..|s| - 1], key), key);
    }
  }

  /** The items whose key is `k`, in order. */
  function WithKey<T>(s: seq<T>, key: T -> string, k: string): seq<T> {
    if s == [] then [] else (if key(s[0]) == k then [s[0]] else []) + WithKey(s[1..], key, k)
  }

  lemma {:induction false} WithKeyAppend<T>(a: seq<T>, b: seq<T>, key: T -> string, k: string)
    ensures WithKey(a + b, key, k) == WithKey(a, key, k) + WithKey(b, key, k)
    decreases |a|
  {
    if a == [] {
      assert a + b == b;
    } else {
      assert (a + b)[0] == a[0];
      assert (a + b)[1..] == a[1..] + b;
      WithKeyAppend(a[1..], b, key, k);
      var head := if key(a[0]) == k then [a[0]] else [];
      assert head + (WithKey(a[1..], key, k) + WithKey(b, key, k))
          == head + WithKey(a[1..], key, k) + WithKey(b, key, k);
    }
  }

  lemma {:induction false} WithKeyNone<T>(s: seq<T>, key: T -> string, k: string)
    requires forall j :: 0 <= j < |s| ==> key(s[j]) != k
    ensures WithKey(s, key, k) == []
    decreases |s|
  {
    if s != [] {
      WithKeyNone(s[1..], key, k);
    }
  }

  /** Inserting `x` adds it after the items that share its key. */
  lemma {:induction false} InsertWithKey<T>(x: T, s: seq<T>, key: T -> string, k: string)
    requires Sorted(s, key)
    ensures WithKey(Insert(x, s, key), key, k) == WithKey(s, key, k) + (if key(x) == k then [x] else [])
    decreases |s|
  {
    if s == [] {
    } else if LexLe(key(x), key(s[0])) && key(x) != key(s[0]) {
      assert ([x] + s)[1..] == s;
      if key(x) == k {
        forall j | 0 <= j < |s|
          ensures key(s[j]) != k
        {
          if key(s[j]) == k && j > 0 {
            LexLeAntisymmetric(key(x), key(s[0]));
          }
        }
        WithKeyNone(s, key, k);
      }
    } else {
      InsertWithKey(x, s[1..], key, k);
      assert ([s[0]] + Insert(x, s[1..], key))[1..] == Insert(x, s[1..], key);
      var head := if key(s[0]) == k then [s[0]] else [];
      var more := if key(x) == k then [x] else [];
      assert head + (WithKey(s[1..], key, k) + more) == head + WithKey(s[1..], key, k) + more;
    }
  }

  /** The sort is stable: for every key, the items with that key come out in
      the order they went in. */
  lemma {:induction false} SortStable<T>(s: seq<T>, key: T -> string, k: string)
    ensures WithKey(Sort(s, key), key, k) == WithKey(s, key, k)
    decreases |s|
  {
    if s != [] {
      var init, last := SortUnfold(s, key);
      SortStable(init, key, k);
      SortSorted(init, key);
      InsertWithKey(last, Sort(init, key), key, k);
      WithKeyAppend(init, [last], key, k);
      assert WithKey([last], key, k) == (if key(last) == k then [last] else []) by {
        assert [last][1..] == [];
      }
    }
  }

  /** A non-empty sequence splits into its front and last item, and the sort
      inserts that item into the sorted front. */
  lemma SortUnfold<T>(s: seq<T>, key: T -> string) returns (init: seq<T>, last: T)
    requires s != []
    ensures s == init + [last]
    ensures Sort(s, key) == Insert(last, Sort(init, key), key)
  {
    init, last := s[..|s| - 1], s[|s| - 1];
    assert s == init + [last];
  }
}
