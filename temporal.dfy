/**
 * `_temporal_concentration` (the share of timestamps that fall inside the
 * busiest 72-hour window starting at one of them) and the transaction-rate
 * test of `detect_high_velocity`.
 */
module Temporal {
  import opened Types
  import opened Sorting
  import opened TxGraph

  /** All timestamps of the given edges, edge by edge, as `all_ts.extend` collects them. */
  function Flatten(es: seq<EdgeStats>): (r: seq<Timestamp>)
    ensures forall t :: t in r <==> exists i :: 0 <= i < |es| && t in es[i].timestamps
  {
    if es == [] then []
    else
      var pre := es[..|es| - 1];
      assert forall i :: 0 <= i < |pre| ==> pre[i] == es[i];
      Flatten(pre) + es[|es| - 1].timestamps
  }

  /** How many of `t` lie at most one window after `x`. */
  function CountWithin(t: seq<Timestamp>, x: Timestamp): nat
  {
    if t == [] then 0
    else CountWithin(t[..|t| - 1], x) + (if t[|t| - 1] - x <= Window then 1 else 0)
  }

  /** The largest window count over the first `k` starting positions of `s`. */
  function WindowMax(s: seq<Timestamp>, k: nat): nat
    requires k <= |s|
  {
    if k == 0 then 0
    else
      var best := WindowMax(s, k - 1);
      var count := CountWithin(s[k - 1..], s[k - 1]);
      if best >= count then best else count
  }

  /** `_temporal_concentration` of a list of timestamps. */
  function Concentration(ts: seq<Timestamp>): real
  {
    if |ts| < 3 then 0.0
    else
      var s := Sort(ts);
      Min(1.0, (WindowMax(s, |s|) as real) / (|s| as real))
  }

  /** The loops of `_temporal_concentration` over the edges handed to it. */
  method TemporalConcentration(edges: seq<EdgeStats>) returns (r: real)
    ensures r == Concentration(Flatten(edges))
  {
    var all := CollectTimestamps(edges);
    if |all| < 3 {
      return 0.0;
    }
    var s := Sort(all);
    var best := 0;
    for i := 0 to |s|
      invariant best == WindowMax(s, i)
    {
      var count := CountFrom(s, i);
      best := if best >= count then best else count;
    }
    r := Min(1.0, (best as real) / (|s| as real));
  }

  /** The inner loop: how many timestamps from position `i` on lie within one window of `s[i]`. */
  method CountFrom(s: seq<Timestamp>, i: nat) returns (count: nat)
    requires i < |s|
    ensures count == CountWithin(s[i..], s[i])
  {
    count := 0;
    for j := i to |s|
      invariant count == CountWithin(s[i..j], s[i])
    {
      assert s[i..j + 1][..j - i] == s[i..j];
      if s[j] - s[i] <= Window {
        count := count + 1;
      }
    }
    assert s[i..|s|] == s[i..];
  }

  /** The `all_ts.extend` loop of `_temporal_concentration`. */
  method CollectTimestamps(edges: seq<EdgeStats>) returns (all: seq<Timestamp>)
    ensures all == Flatten(edges)
  {
    all := [];
    for k := 0 to |edges|
      invariant all == Flatten(edges[..k])
    {
      assert edges[..k + 1][..k] == edges[..k];
      all := all + edges[k].timestamps;
    }
    assert edges[..|edges|] == edges;
  }

  lemma {:induction false} CountWithinBounds(t: seq<Timestamp>, x: Timestamp)
    ensures CountWithin(t, x) <= |t|
    ensures CountWithin(t, x) == |t| <==> forall i :: 0 <= i < |t| ==> t[i] - x <= Window
    ensures CountWithin(t, x) == 0 <==> forall i :: 0 <= i < |t| ==> t[i] - x > Window
  {
    if t != [] {
      var p := t[..|t| - 1];
      CountWithinBounds(p, x);
      assert forall i :: 0 <= i < |p| ==> p[i] == t[i];
    }
  }

  lemma {:induction false} WindowMaxBounds(s: seq<Timestamp>, k: nat)
    requires 1 <= k <= |s|
    ensures CountWithin(s, s[0]) <= WindowMax(s, k) <= |s|
    ensures WindowMax(s, k) == |s| <==> CountWithin(s, s[0]) == |s|
  {
    assert s[0..] == s;
    CountWithinBounds(s[k - 1..], s[k - 1]);
    if k > 1 {
      WindowMaxBounds(s, k - 1);
    }
  }

  lemma RatioBounds(m: nat, n: nat)
    requires 1 <= m <= n
    ensures 0.0 < (m as real) / (n as real) <= 1.0
    ensures (m as real) / (n as real) == 1.0 <==> m == n
  {
    var q := (m as real) / (n as real);
    assert q * (n as real) == m as real;
  }

  /**
   * Fewer than three timestamps give 0; otherwise the concentration lies in
   * (0, 1], since the window at the earliest timestamp holds at least that one.
   */
  lemma ConcentrationRange(ts: seq<Timestamp>)
    ensures |ts| < 3 ==> Concentration(ts) == 0.0
    ensures |ts| >= 3 ==> 0.0 < Concentration(ts) <= 1.0
  {
    if |ts| >= 3 {
      var s := Sort(ts);
      WindowMaxBounds(s, |s|);
      CountWithinBounds(s, s[0]);
      assert s[0] - s[0] <= Window;
      RatioBounds(WindowMax(s, |s|), |s|);
    }
  }

  /**
   * With three or more timestamps the concentration is exactly 1 when, and
   * only when, every timestamp lies within 72 hours of every other one
   * (equivalently, of the earliest).
   */
  lemma ConcentrationFullIff(ts: seq<Timestamp>)
    requires |ts| >= 3
    ensures Concentration(ts) == 1.0 <==>
      forall t, u :: t in ts && u in ts ==> t - u <= Window
  {
    var s := Sort(ts);
    SortEnds(ts);
    WindowMaxBounds(s, |s|);
    CountWithinBounds(s, s[0]);
    assert s[0] - s[0] <= Window;
    RatioBounds(WindowMax(s, |s|), |s|);
    assert forall i :: 0 <= i < |s| ==> s[i] in multiset(ts);
    if forall t, u :: t in ts && u in ts ==> t - u <= Window {
      assert forall i :: 0 <= i < |s| ==> s[i] - s[0] <= Window;
    } else {
      var t, u :| t in ts && u in ts && t - u > Window;
      assert t in multiset(s);
      var i :| 0 <= i < |s| && s[i] == t;
      assert s[i] - s[0] > Window;
    }
  }

  /**
   * Seconds from the earliest to the latest timestamp of a sorted copy, a
   * span that is not positive counting as one second.
   */
  function Span(ts: seq<Timestamp>): (r: int)
    requires |ts| > 0
    ensures r >= 1
  {
    var s := Sort(ts);
    if s[|s| - 1] - s[0] <= 0 then 1 else s[|s| - 1] - s[0]
  }

  /** `n / (span / 3600) > 5`: more than five transactions per hour. */
  predicate RateAbove(n: nat, span: int)
    requires span > 0
  {
    (n as real) / ((span as real) / 3600.0) > 5.0
  }

  /** `detect_high_velocity`'s test on a node's timestamps. */
  predicate FastRate(ts: seq<Timestamp>)
  {
    |ts| >= 5 && RateAbove(|ts|, Span(ts))
  }

  /** The span is the distance between the smallest and largest timestamp, floored at 1. */
  lemma SpanIsRange(ts: seq<Timestamp>)
    requires |ts| > 0
    ensures exists lo, hi ::
      && lo in ts && hi in ts
      && (forall t :: t in ts ==> lo <= t <= hi)
      && Span(ts) == (if hi - lo <= 0 then 1 else hi - lo)
  {
    SortEnds(ts);
    var s := Sort(ts);
    assert s[0] in ts && s[|ts| - 1] in ts;
  }

  /** The rate test in integers: `3600 * n > 5 * span`. */
  lemma VelocityIntegerForm(ts: seq<Timestamp>)
    ensures FastRate(ts) <==> |ts| >= 5 && 3600 * |ts| > 5 * Span(ts)
  {
    if |ts| >= 5 {
      RateIntegerForm(|ts|, Span(ts));
    }
  }

  lemma RateIntegerForm(n: nat, span: int)
    requires span > 0
    ensures RateAbove(n, span) <==> 3600 * n > 5 * span
  {
    var h := (span as real) / 3600.0;
    var q := (n as real) / h;
    assert q * h == n as real;
    ScaleStrict(q, 5.0, h);
  }

  lemma ScaleStrict(a: real, b: real, h: real)
    requires h > 0.0
    ensures a > b <==> a * h > b * h
  {
    if a > b {
      assert (a - b) * h > 0.0;
    } else {
      assert (b - a) * h >= 0.0;
    }
  }
}
