/** Stable sorting by an integer key and the searches run on sorted lists.
    `Array.prototype.sort` is stable, so a sort by key followed by `find` (or by
    `reverse` and then `find`) picks, among the elements of the nearest key, the
    first (or the last) in the original order. This module proves exactly that. */
module StableSort {
  import opened Panels

  predicate Sorted<T>(s: seq<T>, key: T -> int) {
    forall i, j :: 0 <= i < j < |s| ==> key(s[i]) <= key(s[j])
  }

  /** Insert `x` after every element whose key is at most `key(x)`. */
  function Insert<T>(t: seq<T>, x: T, key: T -> int): (r: seq<T>)
    ensures multiset(r) == multiset(t) + multiset{x}
    ensures |r| == |t| + 1
  {
    if |t| == 0 || key(t[|t| - 1]) <= key(x) then t + [x]
    else
      assert t == t[..|t| - 1] + [t[|t| - 1]];
      Insert(t[..|t| - 1], x, key) + [t[|t| - 1]]
  }

  /** Stable insertion sort by key: the order `Array.prototype.sort` yields
      with the comparator `(a, b) => key(a) - key(b)`. */
  function SortBy<T>(s: seq<T>, key: T -> int): (r: seq<T>)
    ensures multiset(r) == multiset(s)
    ensures |r| == |s|
  {
    if |s| == 0 then []
    else
      assert s == s[..|s| - 1] + [s[|s| - 1]];
      Insert(SortBy(s[..|s| - 1], key), s[|s| - 1], key)
  }

  function Reverse<T>(s: seq<T>): (r: seq<T>)
    ensures |r| == |s|
    ensures forall i :: 0 <= i < |s| ==> r[i] == s[|s| - 1 - i]
  {
    if |s| == 0 then [] else Reverse(s[1..]) + [s[0]]
  }

  /** `s.find((e) => key(e) > k)` */
  function FirstAbove<T>(s: seq<T>, key: T -> int, k: int): Option<T> {
    if |s| == 0 then None
    else if key(s[0]) > k then Some(s[0])
    else FirstAbove(s[1..], key, k)
  }

  /** `s.find((e) => key(e) < k)` */
  function FirstBelow<T>(s: seq<T>, key: T -> int, k: int): Option<T> {
    if |s| == 0 then None
    else if key(s[0]) < k then Some(s[0])
    else FirstBelow(s[1..], key, k)
  }

  /** The last element of `s` whose key is below `k`. */
  function LastBelow<T>(s: seq<T>, key: T -> int, k: int): Option<T> {
    if |s| == 0 then None
    else if key(s[|s| - 1]) < k then Some(s[|s| - 1])
    else LastBelow(s[..|s| - 1], key, k)
  }

  // ---------------------------------------------------------------------
  // Reference definitions: the nearest key strictly beyond k, scanning the
  // list in its own order.

  /** Keep the best so far unless `x` is strictly nearer above `k`. */
  function PreferAbove<T>(best: Option<T>, x: T, key: T -> int, k: int): Option<T> {
    if key(x) <= k then best
    else if best.None? || key(x) < key(best.value) then Some(x)
    else best
  }

  /** Keep the best so far unless `x` is at least as near below `k`. */
  function PreferBelow<T>(best: Option<T>, x: T, key: T -> int, k: int): Option<T> {
    if key(x) >= k then best
    else if best.None? || key(x) >= key(best.value) then Some(x)
    else best
  }

  /** Among the elements with the smallest key above `k`, the first in list order. */
  function NearestAbove<T>(s: seq<T>, key: T -> int, k: int): Option<T> {
    if |s| == 0 then None
    else PreferAbove(NearestAbove(s[..|s| - 1], key, k), s[|s| - 1], key, k)
  }

  /** Among the elements with the largest key below `k`, the last in list order. */
  function NearestBelow<T>(s: seq<T>, key: T -> int, k: int): Option<T> {
    if |s| == 0 then None
    else PreferBelow(NearestBelow(s[..|s| - 1], key, k), s[|s| - 1], key, k)
  }

  // ---------------------------------------------------------------------
  // Sortedness

  lemma {:induction false} InsertSorted<T>(t: seq<T>, x: T, key: T -> int)
    requires Sorted(t, key)
    ensures Sorted(Insert(t, x, key), key)
  {
    if |t| == 0 || key(t[|t| - 1]) <= key(x) {
    } else {
      var init := t[..|t| - 1];
      InsertSorted(init, x, key);
      var r := Insert(init, x, key);
      forall e | e in multiset(r) ensures key(e) <= key(t[|t| - 1]) {
        assert e in multiset(init) + multiset{x};
        if e in multiset(init) {
          var i :| 0 <= i < |init| && init[i] == e;
          assert t[i] == e;
        }
      }
      forall i | 0 <= i < |r| ensures key(r[i]) <= key(t[|t| - 1]) {
        assert r[i] in multiset(r);
      }
    }
  }

  lemma {:induction false} SortBySorted<T>(s: seq<T>, key: T -> int)
    ensures Sorted(SortBy(s, key), key)
  {
    if |s| > 0 {
      SortBySorted(s[..|s| - 1], key);
      InsertSorted(SortBy(s[..|s| - 1], key), s[|s| - 1], key);
    }
  }

  // ---------------------------------------------------------------------
  // find on a stably sorted list == nearest reference definition

  lemma {:induction false} FirstAboveSnoc<T>(t: seq<T>, x: T, key: T -> int, k: int)
    ensures FirstAbove(t + [x], key, k)
         == if FirstAbove(t, key, k).Some? then FirstAbove(t, key, k)
            else if key(x) > k then Some(x) else None
  {
    if |t| > 0 {
      assert (t + [x])[1..] == t[1..] + [x];
      FirstAboveSnoc(t[1..], x, key, k);
    }
  }

  lemma {:induction false} FirstAboveFound<T>(t: seq<T>, key: T -> int, k: int)
    requires FirstAbove(t, key, k).Some?
    ensures FirstAbove(t, key, k).value in t
    ensures key(FirstAbove(t, key, k).value) > k
  {
    if key(t[0]) <= k {
      FirstAboveFound(t[1..], key, k);
    }
  }

  lemma {:induction false} FirstAboveInsert<T>(t: seq<T>, x: T, key: T -> int, k: int)
    requires Sorted(t, key)
    ensures FirstAbove(Insert(t, x, key), key, k) == PreferAbove(FirstAbove(t, key, k), x, key, k)
  {
    if |t| == 0 || key(t[|t| - 1]) <= key(x) {
      FirstAboveSnoc(t, x, key, k);
      if FirstAbove(t, key, k).Some? {
        FirstAboveFound(t, key, k);
        var y := FirstAbove(t, key, k).value;
        var i :| 0 <= i < |t| && t[i] == y;
        assert key(y) <= key(t[|t| - 1]);
      }
    } else {
      var init, l := t[..|t| - 1], t[|t| - 1];
      assert t == init + [l];
      FirstAboveInsert(init, x, key, k);
      FirstAboveSnoc(Insert(init, x, key), l, key, k);
      FirstAboveSnoc(init, l, key, k);
    }
  }

  lemma {:induction false} FirstAboveSortedIsNearest<T>(s: seq<T>, key: T -> int, k: int)
    ensures FirstAbove(SortBy(s, key), key, k) == NearestAbove(s, key, k)
  {
    if |s| > 0 {
      var init := s[..|s| - 1];
      FirstAboveSortedIsNearest(init, key, k);
      SortBySorted(init, key);
      FirstAboveInsert(SortBy(init, key), s[|s| - 1], key, k);
    }
  }

  lemma {:induction false} FirstBelowReverse<T>(t: seq<T>, key: T -> int, k: int)
    ensures FirstBelow(Reverse(t), key, k) == LastBelow(t, key, k)
  {
    if |t| > 0 {
      var init := t[..|t| - 1];
      assert t == init + [t[|t| - 1]];
      assert Reverse(t)[0] == t[|t| - 1];
      assert Reverse(t)[1..] == Reverse(init);
      FirstBelowReverse(init, key, k);
    }
  }

  lemma {:induction false} LastBelowFound<T>(t: seq<T>, key: T -> int, k: int)
    requires LastBelow(t, key, k).Some?
    ensures LastBelow(t, key, k).value in t
    ensures key(LastBelow(t, key, k).value) < k
  {
    if key(t[|t| - 1]) >= k {
      LastBelowFound(t[..|t| - 1], key, k);
    }
  }

  lemma {:induction false} LastBelowSnoc<T>(t: seq<T>, x: T, key: T -> int, k: int)
    ensures LastBelow(t + [x], key, k)
         == if key(x) < k then Some(x) else LastBelow(t, key, k)
  {
    assert (t + [x])[..|t|] == t;
  }

  lemma {:induction false} LastBelowInsert<T>(t: seq<T>, x: T, key: T -> int, k: int)
    requires Sorted(t, key)
    ensures LastBelow(Insert(t, x, key), key, k) == PreferBelow(LastBelow(t, key, k), x, key, k)
  {
    if |t| == 0 || key(t[|t| - 1]) <= key(x) {
      LastBelowSnoc(t, x, key, k);
      if LastBelow(t, key, k).Some? {
        LastBelowFound(t, key, k);
        var y := LastBelow(t, key, k).value;
        var i :| 0 <= i < |t| && t[i] == y;
        assert key(y) <= key(t[|t| - 1]);
      }
    } else {
      var init, l := t[..|t| - 1], t[|t| - 1];
      assert t == init + [l];
      LastBelowInsert(init, x, key, k);
      LastBelowSnoc(Insert(init, x, key), l, key, k);
      LastBelowSnoc(init, l, key, k);
      if key(l) >= k && LastBelow(init, key, k).Some? {
        LastBelowFound(init, key, k);
      }
    }
  }

  lemma {:induction false} LastBelowSortedIsNearest<T>(s: seq<T>, key: T -> int, k: int)
    ensures LastBelow(SortBy(s, key), key, k) == NearestBelow(s, key, k)
  {
    if |s| > 0 {
      var init := s[..|s| - 1];
      LastBelowSortedIsNearest(init, key, k);
      SortBySorted(init, key);
      LastBelowInsert(SortBy(init, key), s[|s| - 1], key, k);
    }
  }

  /** `[...s].sort(byKey).find((e) => key(e) > k)` is the nearest element above. */
  lemma SortedFindIsNearestAbove<T>(s: seq<T>, key: T -> int, k: int)
    ensures FirstAbove(SortBy(s, key), key, k) == NearestAbove(s, key, k)
  {
    FirstAboveSortedIsNearest(s, key, k);
  }

  /** `[...s].sort(byKey).reverse().find((e) => key(e) < k)` is the nearest element below. */
  lemma SortedReverseFindIsNearestBelow<T>(s: seq<T>, key: T -> int, k: int)
    ensures FirstBelow(Reverse(SortBy(s, key)), key, k) == NearestBelow(s, key, k)
  {
    FirstBelowReverse(SortBy(s, key), key, k);
    LastBelowSortedIsNearest(s, key, k);
  }

  // ---------------------------------------------------------------------
  // What the reference definitions mean

  /** An element whose key exceeds `k` makes NearestAbove find something. */
  lemma {:induction false} NearestAboveFinds<T>(s: seq<T>, key: T -> int, k: int, j: nat)
    requires j < |s| && key(s[j]) > k
    ensures NearestAbove(s, key, k).Some?
    decreases |s|
  {
    if j < |s| - 1 {
      assert s[..|s| - 1][j] == s[j];
      NearestAboveFinds(s[..|s| - 1], key, k, j);
    }
  }

  /** An element whose key is below `k` makes NearestBelow find something. */
  lemma {:induction false} NearestBelowFinds<T>(s: seq<T>, key: T -> int, k: int, j: nat)
    requires j < |s| && key(s[j]) < k
    ensures NearestBelow(s, key, k).Some?
    decreases |s|
  {
    if j < |s| - 1 {
      assert s[..|s| - 1][j] == s[j];
      NearestBelowFinds(s[..|s| - 1], key, k, j);
    }
  }

  /** `s[i]` has the least key above `k`, and no earlier element shares it. */
  predicate LeastAboveAt<T>(s: seq<T>, key: T -> int, k: int, i: int) {
    && 0 <= i < |s| && key(s[i]) > k
    && (forall j :: 0 <= j < |s| && key(s[j]) > k ==> key(s[i]) <= key(s[j]))
    && (forall j :: 0 <= j < i ==> key(s[j]) != key(s[i]))
  }

  /** `s[i]` has the greatest key below `k`, and no later element shares it. */
  predicate GreatestBelowAt<T>(s: seq<T>, key: T -> int, k: int, i: int) {
    && 0 <= i < |s| && key(s[i]) < k
    && (forall j :: 0 <= j < |s| && key(s[j]) < k ==> key(s[j]) <= key(s[i]))
    && (forall j :: i < j < |s| ==> key(s[j]) != key(s[i]))
  }

  /** A last element strictly nearer above `k` than every earlier one takes over. */
  lemma AboveLastWins<T>(s: seq<T>, key: T -> int, k: int)
    requires |s| > 0 && key(s[|s| - 1]) > k
    requires forall j :: 0 <= j < |s| - 1 && key(s[j]) > k ==> key(s[|s| - 1]) < key(s[j])
    ensures LeastAboveAt(s, key, k, |s| - 1)
  {
  }

  /** Otherwise the least element of the prefix keeps its place. */
  lemma AboveKept<T>(s: seq<T>, key: T -> int, k: int, i: nat)
    requires |s| > 0 && LeastAboveAt(s[..|s| - 1], key, k, i)
    requires !(key(s[|s| - 1]) > k && key(s[|s| - 1]) < key(s[i]))
    ensures LeastAboveAt(s, key, k, i)
  {
    var init := s[..|s| - 1];
    assert s[i] == init[i];
    forall j | 0 <= j < |s| && key(s[j]) > k ensures key(s[i]) <= key(s[j]) {
      if j < |s| - 1 { assert s[j] == init[j]; }
    }
    forall j | 0 <= j < i ensures key(s[j]) != key(s[i]) {
      assert s[j] == init[j];
    }
  }

  /** A last element at least as near below `k` as every earlier one takes over. */
  lemma BelowLastWins<T>(s: seq<T>, key: T -> int, k: int)
    requires |s| > 0 && key(s[|s| - 1]) < k
    requires forall j :: 0 <= j < |s| - 1 && key(s[j]) < k ==> key(s[j]) <= key(s[|s| - 1])
    ensures GreatestBelowAt(s, key, k, |s| - 1)
  {
  }

  /** Otherwise the greatest element of the prefix keeps its place. */
  lemma BelowKept<T>(s: seq<T>, key: T -> int, k: int, i: nat)
    requires |s| > 0 && GreatestBelowAt(s[..|s| - 1], key, k, i)
    requires !(key(s[|s| - 1]) < k && key(s[|s| - 1]) >= key(s[i]))
    ensures GreatestBelowAt(s, key, k, i)
  {
    var init := s[..|s| - 1];
    assert s[i] == init[i];
    forall j | 0 <= j < |s| && key(s[j]) < k ensures key(s[j]) <= key(s[i]) {
      if j < |s| - 1 { assert s[j] == init[j]; }
    }
    forall j | i < j < |s| ensures key(s[j]) != key(s[i]) {
      if j < |s| - 1 { assert s[j] == init[j]; }
    }
  }

  /** NearestAbove finds something exactly when some key exceeds `k`; what it
      finds has the least such key and no earlier element shares that key. */
  lemma {:induction false} NearestAboveMeaning<T>(s: seq<T>, key: T -> int, k: int)
    ensures NearestAbove(s, key, k).Some? <==> exists j :: 0 <= j < |s| && key(s[j]) > k
    ensures NearestAbove(s, key, k).Some? ==>
      exists i :: LeastAboveAt(s, key, k, i) && s[i] == NearestAbove(s, key, k).value
  {
    if |s| > 0 {
      var init, x := s[..|s| - 1], s[|s| - 1];
      NearestAboveMeaning(init, key, k);
      var b := NearestAbove(init, key, k);
      if b.Some? {
        var i :| LeastAboveAt(init, key, k, i) && init[i] == b.value;
        assert s[i] == init[i];
        if key(x) > k && key(x) < key(b.value) {
          forall j | 0 <= j < |s| - 1 && key(s[j]) > k ensures key(x) < key(s[j]) {
            assert s[j] == init[j];
          }
          AboveLastWins(s, key, k);
        } else {
          AboveKept(s, key, k, i);
        }
      } else if key(x) > k {
        forall j | 0 <= j < |s| - 1 ensures key(s[j]) <= k {
          assert s[j] == init[j];
        }
        AboveLastWins(s, key, k);
      } else {
        forall j | 0 <= j < |s| ensures key(s[j]) <= k {
          if j < |s| - 1 { assert s[j] == init[j]; }
        }
      }
    }
  }

  /** NearestBelow finds something exactly when some key is below `k`; what it
      finds has the greatest such key and no later element shares that key. */
  lemma {:induction false} NearestBelowMeaning<T>(s: seq<T>, key: T -> int, k: int)
    ensures NearestBelow(s, key, k).Some? <==> exists j :: 0 <= j < |s| && key(s[j]) < k
    ensures NearestBelow(s, key, k).Some? ==>
      exists i :: GreatestBelowAt(s, key, k, i) && s[i] == NearestBelow(s, key, k).value
  {
    if |s| > 0 {
      var init, x := s[..|s| - 1], s[|s| - 1];
      NearestBelowMeaning(init, key, k);
      var b := NearestBelow(init, key, k);
      if b.Some? {
        var i :| GreatestBelowAt(init, key, k, i) && init[i] == b.value;
        assert s[i] == init[i];
        if key(x) < k && key(x) >= key(b.value) {
          forall j | 0 <= j < |s| - 1 && key(s[j]) < k ensures key(s[j]) <= key(x) {
            assert s[j] == init[j];
          }
          BelowLastWins(s, key, k);
        } else {
          BelowKept(s, key, k, i);
        }
      } else if key(x) < k {
        forall j | 0 <= j < |s| - 1 ensures key(s[j]) >= k {
          assert s[j] == init[j];
        }
        BelowLastWins(s, key, k);
      } else {
        forall j | 0 <= j < |s| ensures key(s[j]) >= k {
          if j < |s| - 1 { assert s[j] == init[j]; }
        }
      }
    }
  }


  // ---------------------------------------------------------------------
  // Stability: elements of equal key keep their relative order

  /** The elements of `s` whose key is `v`, in the order of `s`. */
  function WithKey<T>(s: seq<T>, key: T -> int, v: int): seq<T> {
    if |s| == 0 then []
    else WithKey(s[..|s| - 1], key, v) + (if key(s[|s| - 1]) == v then [s[|s| - 1]] else [])
  }

  lemma {:induction false} InsertStable<T>(t: seq<T>, x: T, key: T -> int, v: int)
    ensures WithKey(Insert(t, x, key), key, v) == WithKey(t, key, v) + (if key(x) == v then [x] else [])
  {
    if |t| == 0 || key(t[|t| - 1]) <= key(x) {
      assert (t + [x])[..|t|] == t;
    } else {
      var init, last := t[..|t| - 1], t[|t| - 1];
      InsertStable(init, x, key, v);
      var r := Insert(init, x, key);
      assert (r + [last])[..|r|] == r;
    }
  }

  /** Sorting is stable: among equal keys the original order survives. */
  lemma {:induction false} SortByStable<T>(s: seq<T>, key: T -> int, v: int)
    ensures WithKey(SortBy(s, key), key, v) == WithKey(s, key, v)
  {
    if |s| > 0 {
      SortByStable(s[..|s| - 1], key, v);
      InsertStable(SortBy(s[..|s| - 1], key), s[|s| - 1], key, v);
    }
  }
}
