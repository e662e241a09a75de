/**
 * The two library sorts the engine relies on: `sorted`/`list.sort` of
 * timestamps, and the stable descending sort of suspicious entries by score.
 */
module Sorting {

  predicate Ascending(s: seq<int>)
  {
    forall i, j :: 0 <= i < j < |s| ==> s[i] <= s[j]
  }

  function Insert(x: int, s: seq<int>): (r: seq<int>)
    requires Ascending(s)
    ensures |r| == |s| + 1 && Ascending(r)
    ensures forall y :: y in r <==> y == x || y in s
    ensures multiset(r) == multiset(s) + multiset{x}
  {
    if s == [] then [x]
    else if x <= s[0] then [x] + s
    else
      var t := Insert(x, s[1..]);
      assert s == [s[0]] + s[1..];
      AscendingCons(s[0], t);
      [s[0]] + t
  }

  /** A head no larger than any element of an ascending tail keeps it ascending. */
  lemma AscendingCons(h: int, t: seq<int>)
    requires Ascending(t) && forall y | y in t :: h <= y
    ensures Ascending([h] + t)
  {
    forall i, j | 0 <= i < j < |[h] + t| ensures ([h] + t)[i] <= ([h] + t)[j] {
      assert ([h] + t)[j] == t[j - 1] && t[j - 1] in t;
    }
  }

  /** Every element of an ascending sequence lies between its two ends. */
  lemma AscendingEnds(r: seq<int>, x: int)
    requires Ascending(r) && x in r
    ensures r[0] <= x <= r[|r| - 1]
  {
    var i :| 0 <= i < |r| && r[i] == x;
  }

  /** Timestamps in ascending order, as `sorted` returns them. */
  function Sort(s: seq<int>): (r: seq<int>)
    ensures Ascending(r) && multiset(r) == multiset(s) && |r| == |s|
  {
    if s == [] then []
    else
      assert s == s[..|s| - 1] + [s[|s| - 1]];
      Insert(s[|s| - 1], Sort(s[..|s| - 1]))
  }

  /** The first element of a sorted copy is the earliest, the last the latest. */
  lemma SortEnds(s: seq<int>)
    requires |s| > 0
    ensures forall x :: x in s ==> Sort(s)[0] <= x <= Sort(s)[|s| - 1]
    ensures Sort(s)[0] in s && Sort(s)[|s| - 1] in s
  {
    var r := Sort(s);
    forall x | x in s ensures r[0] <= x <= r[|s| - 1] {
      assert x in multiset(r);
      AscendingEnds(r, x);
    }
    assert r[0] in multiset(s) && r[|s| - 1] in multiset(s);
  }

  /**
   * Entry `a` is listed before entry `b` by a stable sort on descending
   * score: a higher score first, equal scores in creation order.
   */
  predicate Before(scores: seq<real>, a: nat, b: nat)
    requires a < |scores| && b < |scores|
  {
    scores[a] > scores[b] || (scores[a] == scores[b] && a < b)
  }

  predicate RankedBy(scores: seq<real>, o: seq<nat>)
  {
    && (forall i :: 0 <= i < |o| ==> o[i] < |scores|)
    && (forall i, j :: 0 <= i < j < |o| ==> Before(scores, o[i], o[j]))
  }

  function InsertRanked(scores: seq<real>, k: nat, o: seq<nat>): (r: seq<nat>)
    requires k < |scores| && RankedBy(scores, o)
    requires forall i :: 0 <= i < |o| ==> o[i] < k
    ensures RankedBy(scores, r) && |r| == |o| + 1
    ensures forall x :: x in r <==> x == k || x in o
  {
    if o == [] then [k]
    else if scores[k] > scores[o[0]] then [k] + o
    else
      var t := InsertRanked(scores, k, o[1..]);
      assert forall x :: x in o <==> x == o[0] || x in o[1..];
      forall j | 0 <= j < |t| ensures Before(scores, o[0], t[j]) {
        assert t[j] in t;
        if t[j] != k {
          var i :| 0 <= i < |o[1..]| && o[1..][i] == t[j];
          assert o[i + 1] == t[j];
        }
      }
      [o[0]] + t
  }

  /**
   * Positions `0 .. n-1` in the order `sorted(..., key=score, reverse=True)`
   * lists them.
   */
  function StableOrder(scores: seq<real>, n: nat): (o: seq<nat>)
    requires n <= |scores|
    ensures |o| == n && RankedBy(scores, o)
    ensures forall x: nat :: x in o <==> x < n
    ensures forall i, j :: 0 <= i < j < |o| ==> o[i] != o[j]
  {
    if n == 0 then []
    else
      var o := StableOrder(scores, n - 1);
      assert forall i :: 0 <= i < |o| ==> o[i] in o;
      InsertRanked(scores, n - 1, o)
  }
}
