/** Stable sorting by a numeric key, as `toSorted` does it. */
module StableSort {

  /** Behind all elements whose key is not larger. */
  function Insert<T>(e: T, sorted: seq<T>, key: T -> int): seq<T> {
    if sorted == [] || key(e) < key(sorted[0]) then [e] + sorted else [sorted[0]] + Insert(e, sorted[1..], key)
  }

  function SortBy<T>(s: seq<T>, key: T -> int): seq<T> {
    if s == [] then [] else Insert(s[|s| - 1], SortBy(s[..|s| - 1], key), key)
  }

  ghost predicate Ascending<T>(s: seq<T>, key: T -> int) {
    forall i, j | 0 <= i < j < |s| :: key(s[i]) <= key(s[j])
  }

  ghost predicate NoneTwice<T>(s: seq<T>) {
    forall i, j | 0 <= i < j < |s| :: s[i] != s[j]
  }

  lemma {:induction false} InsertHas<T>(e: T, sorted: seq<T>, key: T -> int)
    ensures |Insert(e, sorted, key)| == |sorted| + 1
    ensures forall k | 0 <= k < |Insert(e, sorted, key)| :: Insert(e, sorted, key)[k] in sorted + [e]
    ensures forall k | 0 <= k < |sorted| :: sorted[k] in Insert(e, sorted, key)
    ensures e in Insert(e, sorted, key)
    decreases |sorted|
  {
    var all := Insert(e, sorted, key);
    if sorted == [] || key(e) < key(sorted[0]) {
      assert all == [e] + sorted && all[0] == e;
      forall k | 0 <= k < |sorted| ensures sorted[k] in all {
        assert all[k + 1] == sorted[k];
      }
    } else {
      var rest := sorted[1..];
      var tail := Insert(e, rest, key);
      InsertHas(e, rest, key);
      assert all == [sorted[0]] + tail && all[0] == sorted[0];
      forall k | 0 <= k < |all| ensures all[k] in sorted + [e] {
        if k > 0 {
          assert all[k] == tail[k - 1] && tail[k - 1] in rest + [e];
          var m :| 0 <= m < |rest + [e]| && (rest + [e])[m] == tail[k - 1];
          assert (sorted + [e])[m + 1] == tail[k - 1];
        }
      }
      forall k | 0 <= k < |sorted| ensures sorted[k] in all {
        if k > 0 {
          assert rest[k - 1] == sorted[k];
        }
      }
    }
  }

  lemma {:induction false} InsertPlaces<T>(e: T, sorted: seq<T>, key: T -> int)
    requires Ascending(sorted, key)
    ensures Ascending(Insert(e, sorted, key), key)
    ensures NoneTwice(sorted) && e !in sorted ==> NoneTwice(Insert(e, sorted, key))
    decreases |sorted|
  {
    if sorted != [] && key(sorted[0]) <= key(e) {
      var rest := sorted[1..];
      assert forall k | 0 <= k < |rest| :: rest[k] == sorted[k + 1];
      InsertPlaces(e, rest, key);
      InsertHas(e, rest, key);
      var tail := Insert(e, rest, key);
      forall k | 0 <= k < |tail|
        ensures key(sorted[0]) <= key(tail[k])
        ensures NoneTwice(sorted) && e !in sorted ==> sorted[0] != tail[k]
      {
        assert tail[k] in rest + [e];
        var m :| 0 <= m < |rest + [e]| && (rest + [e])[m] == tail[k];
        assert m < |rest| ==> tail[k] == sorted[m + 1];
      }
      InFront(sorted[0], tail, key);
    } else {
      InFront(e, sorted, key);
    }
  }

  lemma InFront<T>(first: T, tail: seq<T>, key: T -> int)
    ensures Ascending(tail, key) && (forall k | 0 <= k < |tail| :: key(first) <= key(tail[k])) ==> Ascending([first] + tail, key)
    ensures NoneTwice(tail) && (forall k | 0 <= k < |tail| :: first != tail[k]) ==> NoneTwice([first] + tail)
  {}

  /** The same elements, each as often as once before, in ascending order. */
  lemma {:induction false} SortRearranges<T>(s: seq<T>, key: T -> int)
    ensures Ascending(SortBy(s, key), key) && |SortBy(s, key)| == |s|
    ensures forall x :: x in SortBy(s, key) <==> x in s
    ensures NoneTwice(s) ==> NoneTwice(SortBy(s, key))
  {
    if s != [] {
      var front, last := s[..|s| - 1], s[|s| - 1];
      assert forall k | 0 <= k < |front| :: front[k] == s[k];
      assert s == front + [last];
      SortRearranges(front, key);
      var sorted := SortBy(front, key);
      InsertPlaces(last, sorted, key);
      InsertHas(last, sorted, key);
      forall x | x in Insert(last, sorted, key) ensures x in s {
        var k :| 0 <= k < |Insert(last, sorted, key)| && Insert(last, sorted, key)[k] == x;
        assert x in sorted + [last];
      }
      forall x | x in s ensures x in Insert(last, sorted, key) {
        assert x == last || x in sorted;
      }
    }
  }

  /** The elements with one key, in order. */
  function WithKey<T>(s: seq<T>, key: T -> int, k: int): seq<T> {
    if s == [] then [] else (if key(s[0]) == k then [s[0]] else []) + WithKey(s[1..], key, k)
  }

  lemma JoinAssociates<T>(a: seq<T>, b: seq<T>, c: seq<T>)
    ensures a + (b + c) == a + b + c
  {}

  lemma {:induction false} WithKeyAppends<T>(s: seq<T>, e: T, key: T -> int, k: int)
    ensures WithKey(s + [e], key, k) == WithKey(s, key, k) + if key(e) == k then [e] else []
    decreases |s|
  {
    if s == [] {
      assert [e][1..] == [] && s + [e] == [e];
    } else {
      var rest, all := s[1..], s + [e];
      assert all[1..] == rest + [e] && all[0] == s[0];
      WithKeyAppends(rest, e, key, k);
      var head, last := if key(s[0]) == k then [s[0]] else [], if key(e) == k then [e] else [];
      JoinAssociates(head, WithKey(rest, key, k), last);
    }
  }

  lemma {:induction false} InsertBehindEquals<T>(e: T, sorted: seq<T>, key: T -> int, k: int)
    requires Ascending(sorted, key)
    ensures WithKey(Insert(e, sorted, key), key, k) == WithKey(sorted, key, k) + if key(e) == k then [e] else []
    decreases |sorted|
  {
    if sorted == [] || key(e) < key(sorted[0]) {
      assert ([e] + sorted)[1..] == sorted;
      if key(e) == k {
        NoneWithKey(sorted, key, k);
      }
    } else {
      var tail := Insert(e, sorted[1..], key);
      assert ([sorted[0]] + tail)[1..] == tail;
      InsertBehindEquals(e, sorted[1..], key, k);
    }
  }

  lemma {:induction false} NoneWithKey<T>(s: seq<T>, key: T -> int, k: int)
    requires forall i | 0 <= i < |s| :: key(s[i]) != k
    ensures WithKey(s, key, k) == []
  {
    if s != [] {
      NoneWithKey(s[1..], key, k);
    }
  }

  /** Elements with equal keys stay in their order: with `Ascending` that fixes the result. */
  lemma {:induction false} SortIsStable<T>(s: seq<T>, key: T -> int, k: int)
    ensures WithKey(SortBy(s, key), key, k) == WithKey(s, key, k)
  {
    if s != [] {
      var front, last := s[..|s| - 1], s[|s| - 1];
      SortIsStable(front, key, k);
      SortRearranges(front, key);
      InsertBehindEquals(last, SortBy(front, key), key, k);
      WithKeyAppends(front, last, key, k);
      assert s == front + [last];
    }
  }
}
