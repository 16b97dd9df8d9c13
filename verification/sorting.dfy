/**
 * Python's `sorted(xs, key=k)`: a stable sort by an integer key. Descending
 * order (a database `order(..., desc=True)`) is the same sort on the negated key.
 */
module Sorting {

  ghost predicate SortedBy<T>(s: seq<T>, key: T -> int) {
    forall i, j :: 0 <= i < j < |s| ==> key(s[i]) <= key(s[j])
  }

  /** Places `x` after every element of `t` whose key is at most `key(x)`. */
  function InsertSorted<T>(t: seq<T>, x: T, key: T -> int): (r: seq<T>)
    requires SortedBy(t, key)
    ensures |r| == |t| + 1
    ensures multiset(r) == multiset(t) + multiset{x}
    ensures SortedBy(r, key)
    ensures forall i :: 0 <= i < |r| ==> r[i] == x || r[i] in t
  {
    if t == [] || key(t[|t| - 1]) <= key(x) then
      t + [x]
    else
      var init, last := t[..|t| - 1], t[|t| - 1];
      assert t == init + [last];
      var p := InsertSorted(init, x, key);
      NoneAboveLast(t, x, p, key);
      AppendLargest(p, last, key);
      p + [last]
  }

  /** Elements drawn from `x` and all but the last of sorted `t` have keys at most the last one's. */
  lemma NoneAboveLast<T>(t: seq<T>, x: T, p: seq<T>, key: T -> int)
    requires |t| > 0 && SortedBy(t, key) && key(x) < key(t[|t| - 1])
    requires forall i :: 0 <= i < |p| ==> p[i] == x || p[i] in t[..|t| - 1]
    ensures forall i :: 0 <= i < |p| ==> key(p[i]) <= key(t[|t| - 1])
  {
    forall i | 0 <= i < |p| ensures key(p[i]) <= key(t[|t| - 1]) {
      if p[i] != x {
        var j :| 0 <= j < |t| - 1 && t[..|t| - 1][j] == p[i];
        assert t[j] == p[i];
      }
    }
  }

  /** Appending an element whose key is at least every other keeps a sequence sorted. */
  lemma AppendLargest<T>(p: seq<T>, last: T, key: T -> int)
    requires SortedBy(p, key)
    requires forall i :: 0 <= i < |p| ==> key(p[i]) <= key(last)
    ensures SortedBy(p + [last], key)
  {
    var r := p + [last];
    forall i, j | 0 <= i < j < |r| ensures key(r[i]) <= key(r[j]) {
      if j < |p| {
        assert r[i] == p[i] && r[j] == p[j];
      }
    }
  }

  /** An ordering of `s` by `key`, stable for equal keys. */
  function SortBy<T>(s: seq<T>, key: T -> int): (r: seq<T>)
    ensures |r| == |s|
    ensures multiset(r) == multiset(s)
    ensures SortedBy(r, key)
  {
    if s == [] then []
    else
      assert s == s[..|s| - 1] + [s[|s| - 1]];
      InsertSorted(SortBy(s[..|s| - 1], key), s[|s| - 1], key)
  }

  /** The elements of `s` whose key is `k`, in their order in `s`. */
  function KeyRun<T>(s: seq<T>, key: T -> int, k: int): (r: seq<T>)
    ensures |r| <= |s|
    ensures forall x :: x in r ==> x in s && key(x) == k
  {
    if s == [] then []
    else KeyRun(s[..|s| - 1], key, k) + RunOf(s[|s| - 1], key, k)
  }

  /** `[x]` when `x` has key `k`, otherwise nothing. */
  function RunOf<T>(x: T, key: T -> int, k: int): (r: seq<T>)
    ensures r == [x] || r == []
    ensures r == [x] <==> key(x) == k
  {
    if key(x) == k then [x] else []
  }

  lemma KeyRunSnoc<T>(s: seq<T>, y: T, key: T -> int, k: int)
    ensures KeyRun(s + [y], key, k) == KeyRun(s, key, k) + RunOf(y, key, k)
  {
    assert (s + [y])[..|s|] == s;
  }

  /** Inserting `x` adds it at the end of its key's run and leaves every other run alone. */
  lemma {:induction false} InsertKeyRun<T>(t: seq<T>, x: T, key: T -> int, k: int)
    requires SortedBy(t, key)
    ensures KeyRun(InsertSorted(t, x, key), key, k) == KeyRun(t, key, k) + RunOf(x, key, k)
  {
    if t == [] || key(t[|t| - 1]) <= key(x) {
      KeyRunSnoc(t, x, key, k);
    } else {
      var init, last := t[..|t| - 1], t[|t| - 1];
      var p := InsertSorted(init, x, key);
      assert InsertSorted(t, x, key) == p + [last];
      InsertKeyRun(init, x, key, k);
      RunsCommute(p, init, last, x, key, k);
      SplitLast(t);
    }
  }

  lemma SplitLast<T>(t: seq<T>)
    requires |t| > 0
    ensures t == t[..|t| - 1] + [t[|t| - 1]]
  {
  }

  /** When `p`'s run is `init`'s followed by `x`'s, appending `last` of another key to both keeps them so. */
  lemma RunsCommute<T>(p: seq<T>, init: seq<T>, last: T, x: T, key: T -> int, k: int)
    requires KeyRun(p, key, k) == KeyRun(init, key, k) + RunOf(x, key, k)
    requires key(last) != key(x)
    ensures KeyRun(p + [last], key, k) == KeyRun(init + [last], key, k) + RunOf(x, key, k)
  {
    KeyRunSnoc(p, last, key, k);
    KeyRunSnoc(init, last, key, k);
    var a, rx, rl := KeyRun(init, key, k), RunOf(x, key, k), RunOf(last, key, k);
    if key(x) == k {
      assert rl == [];
      assert KeyRun(p + [last], key, k) == KeyRun(p, key, k) + [] == a + rx;
      assert KeyRun(init + [last], key, k) == a + [] == a;
    } else {
      assert rx == [];
      assert KeyRun(p, key, k) == a + [] == a;
      assert KeyRun(p + [last], key, k) == a + rl;
      assert KeyRun(init + [last], key, k) + rx == (a + rl) + [] == a + rl;
    }
  }

  /** `SortBy` is stable: the elements sharing a key keep their relative order. */
  lemma {:induction false} SortByStable<T>(s: seq<T>, key: T -> int, k: int)
    ensures KeyRun(SortBy(s, key), key, k) == KeyRun(s, key, k)
  {
    if s != [] {
      var init := s[..|s| - 1];
      SortByStable(init, key, k);
      InsertKeyRun(SortBy(init, key), s[|s| - 1], key, k);
    }
  }

  /** Every element of a sorted permutation is an element of the input, and conversely. */
  lemma SortByMembers<T>(s: seq<T>, key: T -> int)
    ensures forall x :: x in SortBy(s, key) <==> x in s
  {
    var r := SortBy(s, key);
    forall x ensures x in r <==> x in s {
      assert x in r <==> multiset(r)[x] > 0;
      assert x in s <==> multiset(s)[x] > 0;
    }
  }
}
