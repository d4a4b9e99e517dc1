/** Stable ordering by cursor: what sorting a window or an outbox must yield, whatever library routine does it. */
module Sorting {
  import opened Events

  ghost predicate Sorted<T>(s: seq<T>, key: T -> Cursor) {
    forall i, j :: 0 <= i < j < |s| ==> CompareCursor(key(s[i]), key(s[j])) <= 0
  }

  // e goes behind everything that does not come after it.
  function Insert<T>(s: seq<T>, e: T, key: T -> Cursor): seq<T> {
    if s != [] && CompareCursor(key(e), key(s[|s| - 1])) < 0 then Insert(s[..|s| - 1], e, key) + [s[|s| - 1]] else s + [e]
  }

  function Sort<T>(s: seq<T>, key: T -> Cursor): seq<T> {
    if s == [] then [] else Insert(Sort(s[..|s| - 1], key), s[|s| - 1], key)
  }

  // The elements of s at one cursor, in order.
  function At<T>(s: seq<T>, c: Cursor, key: T -> Cursor): seq<T> {
    if s == [] then []
    else At(s[..|s| - 1], c, key) + if key(s[|s| - 1]) == c then [s[|s| - 1]] else []
  }

  ghost predicate UpTo<T>(s: seq<T>, c: Cursor, key: T -> Cursor) {
    forall i :: 0 <= i < |s| ==> CompareCursor(key(s[i]), c) <= 0
  }

  lemma {:induction false} InsertUpTo<T>(s: seq<T>, e: T, c: Cursor, key: T -> Cursor)
    requires UpTo(s, c, key) && CompareCursor(key(e), c) <= 0
    ensures UpTo(Insert(s, e, key), c, key)
  {
    if s != [] && CompareCursor(key(e), key(s[|s| - 1])) < 0 {
      InsertUpTo(s[..|s| - 1], e, c, key);
    }
  }

  lemma {:induction false} InsertSorted<T>(s: seq<T>, e: T, key: T -> Cursor)
    requires Sorted(s, key)
    ensures Sorted(Insert(s, e, key), key)
  {
    if s != [] {
      var init, last := s[..|s| - 1], s[|s| - 1];
      if CompareCursor(key(e), key(last)) < 0 {
        InsertSorted(init, e, key);
        InsertUpTo(init, e, key(last), key);
      } else {
        forall i | 0 <= i < |s| ensures CompareCursor(key(s[i]), key(e)) <= 0 {
          assert CompareCursor(key(s[i]), key(last)) <= 0;
        }
      }
    }
  }

  lemma {:induction false} InsertKeepsAll<T>(s: seq<T>, e: T, key: T -> Cursor)
    ensures multiset(Insert(s, e, key)) == multiset(s) + multiset{e}
    ensures |Insert(s, e, key)| == |s| + 1
  {
    if s != [] && CompareCursor(key(e), key(s[|s| - 1])) < 0 {
      InsertKeepsAll(s[..|s| - 1], e, key);
      assert s == s[..|s| - 1] + [s[|s| - 1]];
    }
  }

  lemma {:induction false} SortFacts<T>(s: seq<T>, key: T -> Cursor)
    ensures Sorted(Sort(s, key), key)
    ensures multiset(Sort(s, key)) == multiset(s)
    ensures |Sort(s, key)| == |s|
  {
    if s != [] {
      SortFacts(s[..|s| - 1], key);
      InsertSorted(Sort(s[..|s| - 1], key), s[|s| - 1], key);
      InsertKeepsAll(Sort(s[..|s| - 1], key), s[|s| - 1], key);
      assert s == s[..|s| - 1] + [s[|s| - 1]];
    }
  }

  lemma {:induction false} AtAppend<T>(a: seq<T>, e: T, c: Cursor, key: T -> Cursor)
    ensures At(a + [e], c, key) == At(a, c, key) + if key(e) == c then [e] else []
  {
    assert (a + [e])[..|a|] == a;
  }

  lemma {:induction false} InsertStable<T>(s: seq<T>, e: T, c: Cursor, key: T -> Cursor)
    requires Sorted(s, key)
    ensures At(Insert(s, e, key), c, key) == At(s, c, key) + if key(e) == c then [e] else []
  {
    if s != [] && CompareCursor(key(e), key(s[|s| - 1])) < 0 {
      var init, last := s[..|s| - 1], s[|s| - 1];
      InsertStable(init, e, c, key);
      AtAppend(Insert(init, e, key), last, c, key);
      AtAppend(init, last, c, key);
      assert s == init + [last];
    } else {
      AtAppend(s, e, c, key);
    }
  }

  // Elements with equal cursors keep their order.
  lemma {:induction false} SortStable<T>(s: seq<T>, c: Cursor, key: T -> Cursor)
    ensures At(Sort(s, key), c, key) == At(s, c, key)
  {
    if s != [] {
      SortFacts(s[..|s| - 1], key);
      SortStable(s[..|s| - 1], c, key);
      InsertStable(Sort(s[..|s| - 1], key), s[|s| - 1], c, key);
    }
  }

  // ------------------------------------------------- distinct cursors, one order

  ghost predicate Ascending<T>(s: seq<T>, key: T -> Cursor) {
    forall i, j :: 0 <= i < j < |s| ==> Before(key(s[i]), key(s[j]))
  }

  lemma WithoutLast<T>(s: seq<T>, key: T -> Cursor)
    requires s != []
    ensures Sorted(s, key) ==> Sorted(s[..|s| - 1], key)
    ensures Ascending(s, key) ==> Ascending(s[..|s| - 1], key)
    ensures multiset(s[..|s| - 1]) == multiset(s) - multiset{s[|s| - 1]}
  {
    assert s == s[..|s| - 1] + [s[|s| - 1]];
  }

  lemma LastsAgree<T>(a: seq<T>, b: seq<T>, key: T -> Cursor)
    requires Sorted(a, key) && Ascending(b, key) && multiset(a) == multiset(b) && b != []
    ensures |a| == |b| && a[|a| - 1] == b[|b| - 1]
  {
    assert |multiset(a)| == |a| && |multiset(b)| == |b|;
    var m, n := |a| - 1, |b| - 1;
    assert a[m] in multiset(b) && b[n] in multiset(a);
    var i :| 0 <= i <= n && b[i] == a[m];
    var j :| 0 <= j <= m && a[j] == b[n];
    assert j == m || CompareCursor(key(a[j]), key(a[m])) <= 0;
    assert i == n || Before(key(b[i]), key(b[n]));
  }

  // Elements with pairwise different cursors have only one sorted order.
  lemma {:induction false} AscendingIsUnique<T>(a: seq<T>, b: seq<T>, key: T -> Cursor)
    requires Sorted(a, key) && Ascending(b, key) && multiset(a) == multiset(b)
    ensures a == b
  {
    hide Ascending, Sorted;
    if b == [] {
      assert |multiset(a)| == |a|;
    } else {
      LastsAgree(a, b, key);
      WithoutLast(a, key);
      WithoutLast(b, key);
      AscendingIsUnique(a[..|a| - 1], b[..|b| - 1], key);
      assert a == a[..|a| - 1] + [a[|a| - 1]] && b == b[..|b| - 1] + [b[|b| - 1]];
    }
  }

  predicate Distinct<T(==)>(s: seq<T>) {
    forall i, j :: 0 <= i < j < |s| ==> s[i] != s[j]
  }

  lemma {:induction false} DistinctCount<T>(s: seq<T>, x: T)
    requires Distinct(s)
    ensures multiset(s)[x] == if x in s then 1 else 0
  {
    if s != [] {
      DistinctCount(s[..|s| - 1], x);
      assert s == s[..|s| - 1] + [s[|s| - 1]];
    }
  }

  lemma SameDistinctElements<T>(a: seq<T>, b: seq<T>)
    requires Distinct(a) && Distinct(b) && forall x :: x in a <==> x in b
    ensures multiset(a) == multiset(b)
  {
    forall x: T | x in a || x in b ensures multiset(a)[x] == multiset(b)[x] {
      DistinctCount(a, x);
      DistinctCount(b, x);
    }
  }
}
