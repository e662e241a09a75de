/**
 * The `suspicious` dict and the two ways the detectors write to it:
 * `_flag_account` and the velocity amplification of `detect_high_velocity`.
 */
module Scoring {
  import opened Types

  /**
   * The `suspicious` dict: its entries by account, and its keys in insertion
   * order (the order a Python dict iterates in, which the final stable sort
   * uses to break ties).
   */
  datatype Ledger = Ledger(entries: map<Account, Entry>, order: seq<Account>)

  const EmptyLedger: Ledger := Ledger(map[], [])

  /** Keys listed once each, entries filed under their own account, scores in [0, 100]. */
  predicate LedgerOk(l: Ledger)
  {
    && Distinct(l.order)
    && l.entries.Keys == Elems(l.order)
    && (forall a | a in l.entries :: l.entries[a].account == a)
    && (forall a | a in l.entries :: 0.0 <= l.entries[a].score <= 100.0)
  }

  /**
   * `after` extends `before`: no entry disappears, keys keep their order,
   * labels are only appended, scores never fall, and a ring id once set stays.
   */
  predicate Grows(before: Ledger, after: Ledger)
  {
    && before.order <= after.order
    && (forall a | a in before.entries ::
          && a in after.entries
          && before.entries[a].score <= after.entries[a].score
          && before.entries[a].patterns <= after.entries[a].patterns
          && (before.entries[a].ringId != 0 ==> after.entries[a].ringId == before.entries[a].ringId))
  }

  /**
   * `_flag_account`: create a zero-score entry carrying `ring` if the account
   * has none, append the label unless already present, add `base` capped at
   * 100, and set the ring id only if it is still empty (id 0 stands for the
   * empty string, which no ring id ever is).
   */
  function Flag(l: Ledger, acc: Account, pat: Label, ring: RingId, base: real): (r: Ledger)
    ensures r.entries.Keys == l.entries.Keys + {acc}
    ensures pat in r.entries[acc].patterns
    ensures Distinct(EntryOr(l, acc, ring).patterns) ==> Distinct(r.entries[acc].patterns)
    ensures r.entries[acc].score <= 100.0
    ensures r.entries[acc].ringId ==
      if acc in l.entries && l.entries[acc].ringId != 0 then l.entries[acc].ringId else ring
    ensures forall a | a in l.entries && a != acc :: r.entries[a] == l.entries[a]
    ensures r.order == if acc in l.entries then l.order else l.order + [acc]
  {
    Ledger(l.entries[acc := Bump(EntryOr(l, acc, ring), pat, ring, base)],
           if acc in l.entries then l.order else l.order + [acc])
  }

  /** What `_flag_account` does to the entry it finds or creates. */
  function Bump(e: Entry, pat: Label, ring: RingId, base: real): Entry
  {
    e.(patterns := if pat in e.patterns then e.patterns else e.patterns + [pat],
       score := Min(100.0, e.score + base),
       ringId := if e.ringId == 0 then ring else e.ringId)
  }

  /**
   * With a non-negative contribution, flagging keeps the ledger well formed,
   * only grows it, and leaves the account with at least `min(100, base)`.
   */
  lemma FlagGrows(l: Ledger, acc: Account, pat: Label, ring: RingId, base: real)
    requires LedgerOk(l) && base >= 0.0
    ensures var r := Flag(l, acc, pat, ring, base);
      && LedgerOk(r) && Grows(l, r)
      && r.entries[acc].score >= Min(100.0, base)
  {
    var r := Flag(l, acc, pat, ring, base);
    if acc !in l.entries {
      assert Elems(r.order) == Elems(l.order) + {acc};
    }
  }

  /** The entry of `acc`, or the fresh one `_flag_account` would create. */
  function EntryOr(l: Ledger, acc: Account, ring: RingId): Entry
  {
    if acc in l.entries then l.entries[acc] else Entry(acc, 0.0, [], ring)
  }

  /**
   * The velocity step of `detect_high_velocity` for one account: only an
   * existing entry changes; `high_velocity` is appended even when already
   * present, and 15 is added to the score, capped at 100.
   */
  function Amplify(l: Ledger, acc: Account): (r: Ledger)
    ensures r.entries.Keys == l.entries.Keys && r.order == l.order
    ensures acc in l.entries ==>
      && r.entries[acc].patterns == l.entries[acc].patterns + [HighVelocity]
      && r.entries[acc].score == Min(100.0, l.entries[acc].score + 15.0)
      && r.entries[acc].ringId == l.entries[acc].ringId
    ensures forall a | a in l.entries && a != acc :: r.entries[a] == l.entries[a]
    ensures LedgerOk(l) ==> LedgerOk(r) && Grows(l, r)
  {
    if acc !in l.entries then l
    else
      var e := l.entries[acc];
      l.(entries := l.entries[acc := e.(
        patterns := e.patterns + [HighVelocity],
        score := Min(100.0, e.score + 15.0))])
  }

  lemma GrowsTransitive(a: Ledger, b: Ledger, c: Ledger)
    requires Grows(a, b) && Grows(b, c)
    ensures Grows(a, c)
  {
    assert a.order <= c.order by {
      assert c.order[..|a.order|] == b.order[..|a.order|];
    }
  }

  /**
   * Unlike `_flag_account`, the velocity step can list a label twice: an entry
   * already labelled `high_velocity` ends up with it two times.
   */
  lemma AmplifyCanRepeatLabel(acc: Account)
    ensures var l := Ledger(map[acc := Entry(acc, 10.0, [HighVelocity], 1)], [acc]);
      && LedgerOk(l)
      && !Distinct(Amplify(l, acc).entries[acc].patterns)
      && Amplify(l, acc).entries[acc].score == 25.0
  {
    var l := Ledger(map[acc := Entry(acc, 10.0, [HighVelocity], 1)], [acc]);
    var p := Amplify(l, acc).entries[acc].patterns;
    assert p[0] == p[1];
  }

  /** Flagging with the same label twice lists it once: `_flag_account` checks before appending. */
  lemma FlagTwiceListsOnce(l: Ledger, acc: Account, pat: Label, ring: RingId, b1: real, b2: real)
    requires acc !in l.entries && ring != 0
    ensures var r := Flag(Flag(l, acc, pat, ring, b1), acc, pat, ring + 1, b2);
      && r.entries[acc].patterns == [pat]
      && r.entries[acc].ringId == ring
  {
  }
}
