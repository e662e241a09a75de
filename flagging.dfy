/**
 * The two loops the detectors run around `_flag_account`: one label per
 * member (cycles and shell chains, hubs skipped) and every label of a fan
 * check on every member (smurfing). Each is a left fold of `Flag`, in the
 * order the loops make their calls.
 */
module Flagging {
  import opened Types
  import opened TxGraph
  import opened Hub
  import opened Scoring

  /**
   * The ledger after `for acc in ms: if not hub: _flag_account(acc,
   * labels[i], id, base)`. Accounts outside the graph are passed over as
   * well; the detectors never list one.
   */
  function FlagEach(g: Graph, l: Ledger, ms: seq<Account>, labels: seq<Label>, id: RingId, base: real): Ledger
    requires WF(g) && |labels| == |ms|
  {
    if ms == [] then l
    else
      var n := |ms| - 1;
      var before := FlagEach(g, l, ms[..n], labels[..n], id, base);
      if ms[n] in g.stats && !IsHub(g, ms[n]) then Flag(before, ms[n], labels[n], id, base) else before
  }

  /** One more member of the loop. */
  lemma FlagEachStep(g: Graph, l: Ledger, ms: seq<Account>, labels: seq<Label>, id: RingId, base: real, i: nat)
    requires WF(g) && |labels| == |ms| && i < |ms|
    ensures FlagEach(g, l, ms[..i + 1], labels[..i + 1], id, base) ==
      var before := FlagEach(g, l, ms[..i], labels[..i], id, base);
      if ms[i] in g.stats && !IsHub(g, ms[i]) then Flag(before, ms[i], labels[i], id, base) else before
  {
    assert ms[..i + 1][..i] == ms[..i];
    assert labels[..i + 1][..i] == labels[..i];
  }

  /**
   * The loop adds an entry for each non-hub member and for nothing else, and
   * an account that is not a member keeps its entry.
   */
  lemma {:induction false} FlagEachFrame(g: Graph, l: Ledger, ms: seq<Account>, labels: seq<Label>, id: RingId, base: real)
    requires WF(g) && |labels| == |ms|
    ensures var r := FlagEach(g, l, ms, labels, id, base);
      && r.entries.Keys == l.entries.Keys + (set a | a in ms && a in g.stats && !IsHub(g, a))
      && (forall a | a in l.entries && a !in ms :: r.entries[a] == l.entries[a])
  {
    if ms != [] {
      var n := |ms| - 1;
      FlagEachFrame(g, l, ms[..n], labels[..n], id, base);
      assert forall a :: a in ms <==> a in ms[..n] || a == ms[n];
    }
  }

  /**
   * Each non-hub member of a duplicate-free list is flagged exactly once:
   * its entry is what a single `_flag_account` call makes of the entry it
   * had before the loop.
   */
  lemma {:induction false} FlagEachOnce(g: Graph, l: Ledger, ms: seq<Account>, labels: seq<Label>, id: RingId, base: real, i: nat)
    requires WF(g) && |labels| == |ms| && Distinct(ms) && i < |ms|
    requires ms[i] in g.stats && !IsHub(g, ms[i])
    ensures ms[i] in FlagEach(g, l, ms, labels, id, base).entries
    ensures FlagEach(g, l, ms, labels, id, base).entries[ms[i]] == Flag(l, ms[i], labels[i], id, base).entries[ms[i]]
  {
    var n := |ms| - 1;
    var before := FlagEach(g, l, ms[..n], labels[..n], id, base);
    if i == n {
      FlagEachFrame(g, l, ms[..n], labels[..n], id, base);
      assert ms[n] !in ms[..n];
      assert EntryOr(before, ms[n], id) == EntryOr(l, ms[n], id);
    } else {
      FlagEachOnce(g, l, ms[..n], labels[..n], id, base, i);
      assert ms[..n][i] == ms[i] && ms[n] != ms[i];
    }
  }

  /**
   * With a non-negative base the loop keeps the ledger well formed and only
   * grows it.
   */
  lemma {:induction false} FlagEachGrows(g: Graph, l: Ledger, ms: seq<Account>, labels: seq<Label>, id: RingId, base: real)
    requires WF(g) && |labels| == |ms| && LedgerOk(l) && base >= 0.0
    ensures LedgerOk(FlagEach(g, l, ms, labels, id, base)) && Grows(l, FlagEach(g, l, ms, labels, id, base))
  {
    if ms != [] {
      var n := |ms| - 1;
      var before := FlagEach(g, l, ms[..n], labels[..n], id, base);
      FlagEachGrows(g, l, ms[..n], labels[..n], id, base);
      if ms[n] in g.stats && !IsHub(g, ms[n]) {
        FlagGrows(before, ms[n], labels[n], id, base);
        GrowsTransitive(l, before, FlagEach(g, l, ms, labels, id, base));
      }
    }
  }

  /** The ledger after `for pat in pats: _flag_account(acc, pat, id, share)`. */
  function FlagLabels(l: Ledger, acc: Account, pats: seq<Label>, id: RingId, share: real): Ledger
  {
    if pats == [] then l
    else Flag(FlagLabels(l, acc, pats[..|pats| - 1], id, share), acc, pats[|pats| - 1], id, share)
  }

  /** One more label of the inner loop. */
  lemma FlagLabelsStep(l: Ledger, acc: Account, pats: seq<Label>, id: RingId, share: real, j: nat)
    requires j < |pats|
    ensures FlagLabels(l, acc, pats[..j + 1], id, share) == Flag(FlagLabels(l, acc, pats[..j], id, share), acc, pats[j], id, share)
  {
    assert pats[..j + 1][..j] == pats[..j];
  }

  /** `Bump` once per label, in order. */
  function BumpAll(e: Entry, pats: seq<Label>, id: RingId, share: real): Entry
  {
    if pats == [] then e
    else Bump(BumpAll(e, pats[..|pats| - 1], id, share), pats[|pats| - 1], id, share)
  }

  /** After the inner loop, the account's entry is its entry before, bumped once per label. */
  lemma {:induction false} FlagLabelsEntry(l: Ledger, acc: Account, pats: seq<Label>, id: RingId, share: real)
    requires |pats| > 0
    ensures acc in FlagLabels(l, acc, pats, id, share).entries
    ensures FlagLabels(l, acc, pats, id, share).entries[acc] == BumpAll(EntryOr(l, acc, id), pats, id, share)
  {
    var n := |pats| - 1;
    if n > 0 {
      FlagLabelsEntry(l, acc, pats[..n], id, share);
    }
  }

  /**
   * Bumping an entry with distinct labels it does not list yet: the labels
   * are appended in order, the score rises by `share` per label, capped at
   * 100, and the ring id is set only if it was empty.
   */
  lemma {:induction false} BumpAllEffect(e: Entry, pats: seq<Label>, id: RingId, share: real)
    requires share >= 0.0 && Distinct(pats) && |pats| > 0
    requires forall i | 0 <= i < |pats| :: pats[i] !in e.patterns
    ensures BumpAll(e, pats, id, share).account == e.account
    ensures BumpAll(e, pats, id, share).patterns == e.patterns + pats
    ensures BumpAll(e, pats, id, share).score == Min(100.0, e.score + Times(|pats|, share))
    ensures BumpAll(e, pats, id, share).ringId == if e.ringId == 0 then id else e.ringId
  {
    var n := |pats| - 1;
    var init := pats[..n];
    assert init + [pats[n]] == pats;
    if n > 0 {
      BumpAllEffect(e, init, id, share);
      var b := BumpAll(e, init, id, share);
      assert pats[n] !in b.patterns by {
        assert pats[n] !in init;
      }
      assert e.patterns + init + [pats[n]] == e.patterns + pats;
    }
  }

  /** `n * s`, written as repeated addition. */
  function Times(n: nat, s: real): (r: real)
    ensures r == (n as real) * s
  {
    if n == 0 then 0.0 else Times(n - 1, s) + s
  }

  lemma {:induction false} FlagLabelsOrder(l: Ledger, acc: Account, pats: seq<Label>, id: RingId, share: real)
    requires |pats| > 0
    ensures FlagLabels(l, acc, pats, id, share).order == if acc in l.entries then l.order else l.order + [acc]
  {
    if |pats| > 1 {
      FlagLabelsOrder(l, acc, pats[..|pats| - 1], id, share);
      FlagLabelsFrame(l, acc, pats[..|pats| - 1], id, share);
    }
  }

  /** The ledger after `for acc in ms: for pat in pats: _flag_account(acc, pat, id, share)`. */
  function FlagFan(l: Ledger, ms: seq<Account>, pats: seq<Label>, id: RingId, share: real): Ledger
  {
    if ms == [] then l
    else FlagLabels(FlagFan(l, ms[..|ms| - 1], pats, id, share), ms[|ms| - 1], pats, id, share)
  }

  /** One more member of the outer loop. */
  lemma FlagFanStep(l: Ledger, ms: seq<Account>, pats: seq<Label>, id: RingId, share: real, i: nat)
    requires i < |ms|
    ensures FlagFan(l, ms[..i + 1], pats, id, share) == FlagLabels(FlagFan(l, ms[..i], pats, id, share), ms[i], pats, id, share)
  {
    assert ms[..i + 1][..i] == ms[..i];
  }

  /** Flagging one account leaves every other entry alone and adds that account's key. */
  lemma {:induction false} FlagLabelsFrame(l: Ledger, acc: Account, pats: seq<Label>, id: RingId, share: real)
    requires |pats| > 0
    ensures var r := FlagLabels(l, acc, pats, id, share);
      && r.entries.Keys == l.entries.Keys + {acc}
      && (forall a | a in l.entries && a != acc :: r.entries[a] == l.entries[a])
  {
    if |pats| > 1 {
      FlagLabelsFrame(l, acc, pats[..|pats| - 1], id, share);
    }
  }

  /**
   * The fan loop adds an entry for each member and nothing else, and an
   * account that is not a member keeps its entry.
   */
  lemma {:induction false} FlagFanFrame(l: Ledger, ms: seq<Account>, pats: seq<Label>, id: RingId, share: real)
    requires |pats| > 0
    ensures var r := FlagFan(l, ms, pats, id, share);
      && r.entries.Keys == l.entries.Keys + Elems(ms)
      && (forall a | a in l.entries && a !in ms :: r.entries[a] == l.entries[a])
  {
    if ms != [] {
      var n := |ms| - 1;
      FlagFanFrame(l, ms[..n], pats, id, share);
      FlagLabelsFrame(FlagFan(l, ms[..n], pats, id, share), ms[n], pats, id, share);
      assert forall a :: a in ms <==> a in ms[..n] || a == ms[n];
    }
  }

  /**
   * Each member of a duplicate-free fan ring is flagged by one pass of the
   * inner loop: its entry is what that pass makes of its entry before.
   */
  lemma {:induction false} FlagFanOnce(l: Ledger, ms: seq<Account>, pats: seq<Label>, id: RingId, share: real, i: nat)
    requires |pats| > 0 && Distinct(ms) && i < |ms|
    ensures ms[i] in FlagFan(l, ms, pats, id, share).entries
    ensures FlagFan(l, ms, pats, id, share).entries[ms[i]] == FlagLabels(l, ms[i], pats, id, share).entries[ms[i]]
  {
    FlagFanFrame(l, ms, pats, id, share);
    var n := |ms| - 1;
    var before := FlagFan(l, ms[..n], pats, id, share);
    FlagFanFrame(l, ms[..n], pats, id, share);
    if i == n {
      assert ms[n] !in ms[..n];
      assert EntryOr(before, ms[n], id) == EntryOr(l, ms[n], id);
      FlagLabelsEntry(before, ms[n], pats, id, share);
      FlagLabelsEntry(l, ms[n], pats, id, share);
    } else {
      FlagFanOnce(l, ms[..n], pats, id, share, i);
      FlagLabelsFrame(before, ms[n], pats, id, share);
    }
  }
}
