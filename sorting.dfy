/** The stable sort the tracker relies on (`Array.prototype.sort` with a
    numeric comparator such as `(a, b) => key(b) - key(a)`), as an insertion
    sort on sequences. A comparator sorting ascending by `k` is the same
    stable order as descending by `-k`, so one sort covers both. */
module Sorting {

  /** Non-increasing by `key`. */
  predicate SortedDesc<T>(s: seq<T>, key: T -> int)
  {
    forall i, j :: 0 <= i < j < |s| ==> key(s[i]) >= key(s[j])
  }

  /** Places `x` after every element whose key is at least `key(x)`, so that
      elements with equal keys keep their order of arrival. */
  function InsertDesc<T>(x: T, s: seq<T>, key: T -> int): (r: seq<T>)
    requires SortedDesc(s, key)
    ensures |r| == |s| + 1
    ensures multiset(r) == multiset(s) + multiset{x}
    ensures SortedDesc(r, key)
  {
    if s == [] then [x]
    else if key(s[0]) >= key(x) then
      var rest := InsertDesc(x, s[1..], key);
      assert s == [s[0]] + s[1..];
      BoundedByHead(s[0], x, s[1..], rest, key);
      ConsSorted(s[0], rest, key);
      [s[0]] + rest
    else
      assert forall k :: 0 <= k < |s| ==> key(s[0]) >= key(s[k]);
      ConsSorted(x, s, key);
      [x] + s
  }

  /** A head no smaller than anything after it keeps a sequence sorted. */
  lemma ConsSorted<T>(h: T, s: seq<T>, key: T -> int)
    requires SortedDesc(s, key)
    requires forall k :: 0 <= k < |s| ==> key(h) >= key(s[k])
    ensures SortedDesc([h] + s, key)
  {
    var r := [h] + s;
    forall i, j | 0 <= i < j < |r|
      ensures key(r[i]) >= key(r[j])
    {
      assert r[j] == s[j - 1];
      if i > 0 {
        assert r[i] == s[i - 1];
      }
    }
  }

  lemma BoundedByHead<T>(h: T, x: T, tail: seq<T>, rest: seq<T>, key: T -> int)
    requires key(h) >= key(x)
    requires forall k :: 0 <= k < |tail| ==> key(h) >= key(tail[k])
    requires multiset(rest) == multiset(tail) + multiset{x}
    ensures forall k :: 0 <= k < |rest| ==> key(h) >= key(rest[k])
  {
    forall k | 0 <= k < |rest|
      ensures key(h) >= key(rest[k])
    {
      assert rest[k] in multiset(rest);
      if rest[k] != x {
        assert rest[k] in multiset(tail);
        assert rest[k] in tail;
      }
    }
  }

  /** The stable descending sort of `s` by `key`. */
  function SortDesc<T>(s: seq<T>, key: T -> int): (r: seq<T>)
    ensures |r| == |s|
    ensures multiset(r) == multiset(s)
    ensures SortedDesc(r, key)
  {
    if s == [] then []
    else
      assert s == s[..|s| - 1] + [s[|s| - 1]];
      InsertDesc(s[|s| - 1], SortDesc(s[..|s| - 1], key), key)
  }

  /** An element the cut drops is no larger than one it keeps. */
  lemma CutDropsNoLarger<T>(s: seq<T>, key: T -> int, n: nat, x: T, y: T)
    requires SortedDesc(s, key) && n <= |s|
    requires x in multiset(s) - multiset(s[..n]) && y in s[..n]
    ensures key(y) >= key(x)
  {
    CutKeepsLargest(s, key, n);
    assert x in multiset(s[n..]);
    var j :| n <= j < |s| && s[j] == x by {
      assert x in s[n..];
    }
    var i :| 0 <= i < n && s[..n][i] == y;
  }

  /** In a sorted sequence, whatever is cut off after the first `n` elements
      is no larger than anything kept. */
  lemma CutKeepsLargest<T>(s: seq<T>, key: T -> int, n: nat)
    requires SortedDesc(s, key) && n <= |s|
    ensures SortedDesc(s[..n], key)
    ensures forall i, j :: 0 <= i < n <= j < |s| ==> key(s[i]) >= key(s[j])
    ensures multiset(s) == multiset(s[..n]) + multiset(s[n..])
  {
    assert s == s[..n] + s[n..];
  }
}
