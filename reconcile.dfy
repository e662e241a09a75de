/**
 * The reconciliation at the end of `run`: every account goes to the first
 * ring that claims it, rings left with fewer than two fresh members are
 * dropped, suspicious entries take the ring id of their claim or are
 * removed, and the survivors are ranked by score.
 */
module Reconcile {
  import opened Types
  import opened Scoring
  import opened Sorting

  /**
   * One ring's pass of the claiming loop: each member not yet claimed is
   * claimed for `id` and kept, in order; a member seen earlier (in an
   * earlier ring or earlier in this one) is skipped.
   */
  function ClaimRing(claimed: map<Account, RingId>, id: RingId, ms: seq<Account>): (r: (map<Account, RingId>, seq<Account>))
    ensures forall a :: a in r.0 <==> a in claimed || a in ms
    ensures forall a | a in r.0 :: r.0[a] == if a in claimed then claimed[a] else id
    ensures forall a :: a in r.1 <==> a in ms && a !in claimed
    ensures Distinct(r.1) && |r.1| <= |ms|
  {
    if ms == [] then (claimed, [])
    else
      var prev := ClaimRing(claimed, id, ms[..|ms| - 1]);
      var a := ms[|ms| - 1];
      assert forall x :: x in ms <==> x in ms[..|ms| - 1] || x == a;
      if a in prev.0 then prev else (prev.0[a := id], prev.1 + [a])
  }

  /** The claiming loop over `rings`: the claims made and the rings that survive. */
  function ClaimAll(rings: seq<Ring>): (r: (map<Account, RingId>, seq<Ring>))
  {
    if rings == [] then (map[], [])
    else
      var prev := ClaimAll(rings[..|rings| - 1]);
      var ring := rings[|rings| - 1];
      var step := ClaimRing(prev.0, ring.id, ring.members);
      (step.0, if |step.1| >= 2 then prev.1 + [ring.(members := step.1)] else prev.1)
  }

  /** The rings that survive the claiming loop. */
  function Survivors(rings: seq<Ring>): seq<Ring>
  {
    ClaimAll(rings).1
  }

  /** Every account that belongs to some ring. */
  function Members(rings: seq<Ring>): (r: set<Account>)
    ensures forall a :: a in r <==> exists i :: 0 <= i < |rings| && a in rings[i].members
  {
    if rings == [] then {}
    else
      var pre := rings[..|rings| - 1];
      assert forall i :: 0 <= i < |pre| ==> pre[i] == rings[i];
      Members(pre) + Elems(rings[|rings| - 1].members)
  }

  /** The id of the first ring that has `a` as a member. */
  function FirstId(rings: seq<Ring>, a: Account): (id: RingId)
    requires a in Members(rings)
    ensures exists i ::
      && 0 <= i < |rings| && a in rings[i].members && id == rings[i].id
      && forall j :: 0 <= j < i ==> a !in rings[j].members
  {
    var pre := rings[..|rings| - 1];
    var last := rings[|rings| - 1];
    assert forall i :: 0 <= i < |pre| ==> pre[i] == rings[i];
    if a in Members(pre) then FirstId(pre, a) else last.id
  }

  /**
   * Claims: every member of every ring is claimed, dropped rings included,
   * for the first ring it belongs to.
   */
  lemma {:induction false} ClaimsAreFirstRings(rings: seq<Ring>)
    ensures ClaimAll(rings).0.Keys == Members(rings)
    ensures forall a | a in ClaimAll(rings).0 :: ClaimAll(rings).0[a] == FirstId(rings, a)
  {
    if rings != [] {
      ClaimsAreFirstRings(rings[..|rings| - 1]);
    }
  }

  /**
   * A dropped ring still claims the accounts it saw first. When ring `r1`
   * of `a, b, c` comes before ring `r2` of `a, b, d`, `r2` is left with `d`
   * alone and is dropped, yet `d` stays claimed for `r2`: its suspicious
   * entry keeps an id that no reported ring carries.
   */
  lemma DroppedRingStillClaims(r1: Ring, r2: Ring, a: Account, b: Account, c: Account, d: Account)
    requires a != b && a != c && a != d && b != c && b != d && c != d
    requires r1.members == [a, b, c] && r2.members == [a, b, d] && r1.id != r2.id
    ensures Survivors([r1, r2]) == [r1]
    ensures d in ClaimAll([r1, r2]).0 && ClaimAll([r1, r2]).0[d] == r2.id
    ensures forall k | 0 <= k < |Survivors([r1, r2])| :: Survivors([r1, r2])[k].id != r2.id
  {
    var t := TwoRings(r1, r2, d);
  }

  /** The claiming loop over the two rings of `DroppedRingStillClaims`. */
  lemma TwoRings(r1: Ring, r2: Ring, d: Account) returns (t: map<Account, RingId>)
    requires Distinct(r1.members) && |r1.members| == 3 && |r2.members| == 3
    requires r2.members[0] == r1.members[0] && r2.members[1] == r1.members[1]
    requires d == r2.members[2] && d !in r1.members
    ensures ClaimAll([r1, r2]) == (t, [r1]) && d in t && t[d] == r2.id
  {
    var m := FirstRingSurvives(r1);
    t := SecondRingDropped(m, r2, d);
    ClaimAllSnoc([r1], r2);
    assert [r1] + [r2] == [r1, r2];
  }

  /** The claiming loop after one more ring. */
  lemma ClaimAllSnoc(rings: seq<Ring>, ring: Ring)
    ensures var prev := ClaimAll(rings);
      var step := ClaimRing(prev.0, ring.id, ring.members);
      ClaimAll(rings + [ring]) == (step.0, if |step.1| >= 2 then prev.1 + [ring.(members := step.1)] else prev.1)
  {
    assert (rings + [ring])[..|rings|] == rings;
  }

  /** The ring of `a, b, d`, after `a, b, c` were claimed, keeps `d` alone but claims it. */
  lemma SecondRingDropped(m: map<Account, RingId>, r: Ring, d: Account) returns (t: map<Account, RingId>)
    requires |r.members| == 3 && d == r.members[2] && r.members[0] in m && r.members[1] in m && d !in m
    ensures ClaimRing(m, r.id, r.members) == (t, [d])
    ensures d in t && t[d] == r.id
  {
    var second := ClaimRing(m, r.id, r.members);
    assert forall x :: x in second.1 <==> x == d;
    OnlyOneKept(second.1, d);
    t := second.0;
  }

  /** A first ring of distinct accounts survives whole and claims them all for itself. */
  lemma FirstRingSurvives(r: Ring) returns (m: map<Account, RingId>)
    requires Distinct(r.members) && |r.members| >= 2
    ensures ClaimAll([r]) == (m, [r])
    ensures forall x :: x in m <==> x in r.members
  {
    ClaimAllSnoc([], r);
    assert [] + [r] == [r];
    ClaimFresh(map[], r.id, r.members);
    m := ClaimRing(map[], r.id, r.members).0;
    assert r.(members := r.members) == r;
  }

  /** A ring none of whose members is claimed yet keeps all of them, in order. */
  lemma {:induction false} ClaimFresh(claimed: map<Account, RingId>, id: RingId, ms: seq<Account>)
    requires Distinct(ms) && forall a | a in ms :: a !in claimed
    ensures ClaimRing(claimed, id, ms).1 == ms
  {
    if ms != [] {
      var pre, a := ms[..|ms| - 1], ms[|ms| - 1];
      DistinctInit(ms);
      ClaimFresh(claimed, id, pre);
      SplitLast(ms);
    }
  }

  lemma SplitLast(s: seq<Account>)
    requires |s| > 0
    ensures s[..|s| - 1] + [s[|s| - 1]] == s
  {
  }

  /** Dropping the last element keeps a sequence duplicate-free, and that element is not among the rest. */
  lemma DistinctInit(s: seq<Account>)
    requires Distinct(s) && |s| > 0
    ensures Distinct(s[..|s| - 1]) && s[|s| - 1] !in s[..|s| - 1]
  {
    var pre := s[..|s| - 1];
    assert forall i | 0 <= i < |pre| :: pre[i] == s[i];
  }

  /** A duplicate-free sequence whose only element is `d` is `[d]`. */
  lemma OnlyOneKept(s: seq<Account>, d: Account)
    requires Distinct(s) && forall x :: x in s <==> x == d
    ensures s == [d]
  {
    assert d in s;
    if |s| >= 2 {
      FirstTwoDiffer(s);
      assert false;
    }
    assert s[0] in s;
  }

  lemma FirstTwoDiffer(s: seq<Account>)
    requires Distinct(s) && |s| >= 2
    ensures s[0] != s[1] && s[0] in s && s[1] in s
  {
  }

  /** `k` is ring `rings[i]` with some of its members. */
  ghost predicate CameFrom(rings: seq<Ring>, k: Ring)
  {
    exists i :: 0 <= i < |rings| && k == rings[i].(members := k.members) &&
      forall a :: a in k.members ==> a in rings[i].members
  }

  /**
   * Survivors: each has at least two members, listed once; every member is
   * claimed for that very ring; and each keeps the id, pattern and risk of
   * the ring it came from, with members taken from that ring's.
   */
  lemma {:induction false} SurvivorsAreClaimed(rings: seq<Ring>)
    ensures forall k | k in ClaimAll(rings).1 ::
      && |k.members| >= 2 && Distinct(k.members)
      && CameFrom(rings, k)
      && forall a | a in k.members :: a in ClaimAll(rings).0 && ClaimAll(rings).0[a] == k.id
  {
    if rings != [] {
      var pre := rings[..|rings| - 1];
      SurvivorsAreClaimed(pre);
      forall k | k in ClaimAll(pre).1 ensures CameFrom(rings, k) {
        var i :| 0 <= i < |pre| && k == pre[i].(members := k.members) &&
          forall a :: a in k.members ==> a in pre[i].members;
        assert pre[i] == rings[i];
      }
    }
  }

  /** Two survivors never share an account. */
  lemma {:induction false} SurvivorsAreDisjoint(rings: seq<Ring>)
    ensures forall k, l, a :: 0 <= k < l < |Survivors(rings)| && a in Survivors(rings)[k].members ==>
      a !in Survivors(rings)[l].members
  {
    if rings != [] {
      var pre := rings[..|rings| - 1];
      SurvivorsAreDisjoint(pre);
      SurvivorsAreClaimed(pre);
      var kept0 := Survivors(pre);
      var kept := Survivors(rings);
      var ring := rings[|rings| - 1];
      var step := ClaimRing(ClaimAll(pre).0, ring.id, ring.members);
      assert kept == if |step.1| >= 2 then kept0 + [ring.(members := step.1)] else kept0;
      if |kept| > |kept0| {
        assert kept == kept0 + [ring.(members := step.1)];
        forall k, l, a | 0 <= k < l < |kept| && a in kept[k].members
          ensures a !in kept[l].members
        {
          assert kept[k] == kept0[k];
          if l == |kept0| {
            assert kept[k] in kept0;
            assert a in ClaimAll(pre).0;
            assert kept[l].members == step.1;
            assert a !in step.1;
          } else {
            assert kept[l] == kept0[l];
            assert a in kept0[k].members;
            assert a !in kept0[l].members;
          }
        }
      }
    }
  }

  /** Ids of the survivors stay in the order of the rings they came from. */
  lemma {:induction false} SurvivorsKeepOrder(rings: seq<Ring>)
    requires forall i, j :: 0 <= i < j < |rings| ==> rings[i].id < rings[j].id
    ensures forall k, l :: 0 <= k < l < |Survivors(rings)| ==> Survivors(rings)[k].id < Survivors(rings)[l].id
    ensures |rings| > 0 ==> forall k :: 0 <= k < |Survivors(rings)| ==> Survivors(rings)[k].id <= rings[|rings| - 1].id
  {
    if rings != [] {
      var pre := rings[..|rings| - 1];
      SurvivorsKeepOrder(pre);
      var kept0 := Survivors(pre);
      var kept := Survivors(rings);
      var last := rings[|rings| - 1];
      var step := ClaimRing(ClaimAll(pre).0, last.id, last.members);
      assert kept == if |step.1| >= 2 then kept0 + [last.(members := step.1)] else kept0;
      assert forall k :: 0 <= k < |kept0| ==> kept[k] == kept0[k];
      if |pre| > 0 {
        assert pre[|pre| - 1].id < last.id;
      }
      if |kept| > |kept0| {
        assert kept[|kept0|].id == last.id;
        forall k | 0 <= k < |kept0| ensures kept[k].id < last.id {
          assert |pre| > 0;
          assert kept0[k].id <= pre[|pre| - 1].id;
        }
      }
    }
  }

  /** The two claiming loops of `run`. */
  method ClaimRings(rings: seq<Ring>) returns (claimed: map<Account, RingId>, kept: seq<Ring>)
    ensures (claimed, kept) == ClaimAll(rings)
  {
    claimed := map[];
    kept := [];
    for i := 0 to |rings|
      invariant (claimed, kept) == ClaimAll(rings[..i])
    {
      assert rings[..i + 1][..i] == rings[..i];
      var ring := rings[i];
      var unique;
      claimed, unique := ClaimMembers(claimed, ring.id, ring.members);
      if |unique| >= 2 {
        kept := kept + [ring.(members := unique)];
      }
    }
    assert rings[..|rings|] == rings;
  }

  /** The inner loop: claim each member of one ring that no ring has claimed yet. */
  method ClaimMembers(claimed0: map<Account, RingId>, id: RingId, ms: seq<Account>)
    returns (claimed: map<Account, RingId>, unique: seq<Account>)
    ensures (claimed, unique) == ClaimRing(claimed0, id, ms)
  {
    claimed, unique := claimed0, [];
    for j := 0 to |ms|
      invariant (claimed, unique) == ClaimRing(claimed0, id, ms[..j])
    {
      assert ms[..j + 1][..j] == ms[..j];
      if ms[j] !in claimed {
        claimed := claimed[ms[j] := id];
        unique := unique + [ms[j]];
      }
    }
    assert ms[..|ms|] == ms;
  }

  /** The keys of `order` that are claimed, in order. */
  function ClaimedOnly(order: seq<Account>, claimed: map<Account, RingId>): (r: seq<Account>)
    ensures forall a :: a in r <==> a in order && a in claimed
    ensures Distinct(order) ==> Distinct(r)
  {
    if order == [] then []
    else
      var a := order[|order| - 1];
      assert forall x :: x in order <==> x in order[..|order| - 1] || x == a;
      ClaimedOnly(order[..|order| - 1], claimed) + if a in claimed then [a] else []
  }

  /** One more key of the insertion order. */
  lemma ClaimedOnlyStep(order: seq<Account>, claimed: map<Account, RingId>, i: nat)
    requires i < |order|
    ensures ClaimedOnly(order[..i + 1], claimed) ==
      ClaimedOnly(order[..i], claimed) + if order[i] in claimed then [order[i]] else []
  {
    assert order[..i + 1][..i] == order[..i];
  }

  /** The entries of the accounts in `keys`, each relabelled with the ring that claimed it. */
  function Relabel(l: Ledger, claimed: map<Account, RingId>, keys: seq<Account>): map<Account, Entry>
    requires forall a | a in keys :: a in l.entries && a in claimed
  {
    map a | a in keys :: l.entries[a].(ringId := claimed[a])
  }

  /**
   * The ring-id update and the filtering comprehension of `run`: entries of
   * claimed accounts take the claimed ring id, the others are removed, and
   * the dict keeps its insertion order.
   */
  function Retain(l: Ledger, claimed: map<Account, RingId>): Ledger
    requires LedgerOk(l)
  {
    var order := ClaimedOnly(l.order, claimed);
    Ledger(Relabel(l, claimed, order), order)
  }

  /**
   * The filtered ledger is a ledger; it keeps exactly the claimed keys, each
   * entry unchanged but for its ring id, in the original insertion order.
   */
  lemma RetainOk(l: Ledger, claimed: map<Account, RingId>)
    requires LedgerOk(l)
    ensures LedgerOk(Retain(l, claimed))
    ensures Retain(l, claimed).entries.Keys == l.entries.Keys * claimed.Keys
    ensures forall a | a in Retain(l, claimed).entries ::
      a in l.entries && a in claimed && Retain(l, claimed).entries[a] == l.entries[a].(ringId := claimed[a])
    ensures Retain(l, claimed).order == ClaimedOnly(l.order, claimed)
  {
    var r := Retain(l, claimed);
    RetainedKeys(l, claimed, r);
    RetainedEntries(l, claimed, r);
  }

  lemma RetainedKeys(l: Ledger, claimed: map<Account, RingId>, r: Ledger)
    requires LedgerOk(l)
    requires r.order == ClaimedOnly(l.order, claimed)
    requires forall a :: a in r.entries <==> a in r.order
    ensures r.entries.Keys == Elems(r.order)
    ensures r.entries.Keys == l.entries.Keys * claimed.Keys
  {
    assert r.entries.Keys == Elems(r.order);
    assert forall a :: a in l.entries <==> a in l.order;
  }

  lemma RetainedEntries(l: Ledger, claimed: map<Account, RingId>, r: Ledger)
    requires LedgerOk(l)
    requires r.order == ClaimedOnly(l.order, claimed)
    requires forall a :: a in r.entries <==> a in r.order
    requires forall a | a in r.entries :: r.entries[a] == l.entries[a].(ringId := claimed[a])
    ensures forall a | a in r.entries :: r.entries[a].account == a
    ensures forall a | a in r.entries :: 0.0 <= r.entries[a].score <= 100.0
  {
    assert forall a :: a in l.entries <==> a in l.order;
  }

  /**
   * The reconciled ledger keeps exactly the flagged accounts that some ring
   * names, each moved to the first ring that names it, its labels and score
   * untouched, in the insertion order of the flagged ledger.
   */
  lemma ReconciledLedger(l: Ledger, rings: seq<Ring>)
    requires LedgerOk(l)
    ensures var r := Retain(l, ClaimAll(rings).0);
      && LedgerOk(r)
      && r.entries.Keys == l.entries.Keys * Members(rings)
      && (forall a | a in r.entries ::
           a in l.entries && a in Members(rings) && r.entries[a] == l.entries[a].(ringId := FirstId(rings, a)))
      && r.order == ClaimedOnly(l.order, ClaimAll(rings).0)
  {
    RetainOk(l, ClaimAll(rings).0);
    ClaimsAreFirstRings(rings);
  }

  /** The loop of `run` that relabels and filters the suspicious entries. */
  method RetainClaimed(l: Ledger, claimed: map<Account, RingId>) returns (r: Ledger)
    requires LedgerOk(l)
    ensures r == Retain(l, claimed)
  {
    var entries: map<Account, Entry> := map[];
    var order: seq<Account> := [];
    assert forall a :: a in l.entries <==> a in l.order;
    for i := 0 to |l.order|
      invariant order == ClaimedOnly(l.order[..i], claimed)
      invariant forall a | a in order :: a in l.entries
      invariant entries == Relabel(l, claimed, order)
    {
      ClaimedOnlyStep(l.order, claimed, i);
      var acc := l.order[i];
      if acc in claimed {
        RelabelSnoc(l, claimed, order, acc);
        entries := entries[acc := l.entries[acc].(ringId := claimed[acc])];
        order := order + [acc];
      }
    }
    assert l.order[..|l.order|] == l.order;
    r := Ledger(entries, order);
  }

  lemma RelabelSnoc(l: Ledger, claimed: map<Account, RingId>, keys: seq<Account>, a: Account)
    requires forall k | k in keys :: k in l.entries && k in claimed
    requires a in l.entries && a in claimed
    ensures Relabel(l, claimed, keys + [a]) == Relabel(l, claimed, keys)[a := l.entries[a].(ringId := claimed[a])]
  {
  }

  /** The score of each key, in insertion order. */
  function Scores(l: Ledger): (s: seq<real>)
    requires LedgerOk(l)
    ensures |s| == |l.order|
  {
    seq(|l.order|, i requires 0 <= i < |l.order| => l.entries[l.order[i]].score)
  }

  /**
   * `sorted(suspicious.values(), key=score, reverse=True)`: the entries by
   * non-increasing score, equal scores in insertion order, each exactly once.
   */
  function Ranked(l: Ledger): (r: seq<Entry>)
    requires LedgerOk(l)
    ensures |r| == |l.order|
    ensures forall i, j :: 0 <= i < j < |r| ==> r[i].score >= r[j].score
    ensures forall e :: e in r <==> exists a :: a in l.entries && e == l.entries[a]
    ensures forall i, j :: 0 <= i < j < |r| ==> r[i].account != r[j].account
  {
    var o := StableOrder(Scores(l), |l.order|);
    PickSorted(l, o);
    PickCovers(l, o);
    PickAccounts(l, o);
    Pick(l, o)
  }

  /** The entries at the insertion positions listed in `o`. */
  function Pick(l: Ledger, o: seq<nat>): (r: seq<Entry>)
    requires LedgerOk(l) && forall i | 0 <= i < |o| :: o[i] < |l.order|
    ensures |r| == |o| && forall i | 0 <= i < |o| :: r[i] == l.entries[l.order[o[i]]]
  {
    seq(|o|, i requires 0 <= i < |o| => l.entries[l.order[o[i]]])
  }

  lemma PickSorted(l: Ledger, o: seq<nat>)
    requires LedgerOk(l) && RankedBy(Scores(l), o)
    ensures forall i, j :: 0 <= i < j < |o| ==> Pick(l, o)[i].score >= Pick(l, o)[j].score
  {
    var s := Scores(l);
    assert forall i, j :: 0 <= i < j < |o| ==> Before(s, o[i], o[j]);
  }

  lemma PickCovers(l: Ledger, o: seq<nat>)
    requires LedgerOk(l) && forall i | 0 <= i < |o| :: o[i] < |l.order|
    requires forall k: nat | k < |l.order| :: k in o
    ensures forall e :: e in Pick(l, o) <==> exists a :: a in l.entries && e == l.entries[a]
  {
    var r := Pick(l, o);
    forall e | exists a :: a in l.entries && e == l.entries[a] ensures e in r {
      var a :| a in l.entries && e == l.entries[a];
      var k :| 0 <= k < |l.order| && l.order[k] == a;
      assert k in o;
      var i :| 0 <= i < |o| && o[i] == k;
      assert r[i] == e;
    }
  }

  lemma PickAccounts(l: Ledger, o: seq<nat>)
    requires LedgerOk(l) && forall i | 0 <= i < |o| :: o[i] < |l.order|
    requires forall i, j :: 0 <= i < j < |o| ==> o[i] != o[j]
    ensures forall i, j :: 0 <= i < j < |o| ==> Pick(l, o)[i].account != Pick(l, o)[j].account
  {
    var r := Pick(l, o);
    forall i, j | 0 <= i < j < |o| ensures r[i].account != r[j].account {
      assert r[i].account == l.order[o[i]] && r[j].account == l.order[o[j]];
    }
  }

  /**
   * Equal scores keep insertion order: the stable sort lists the entry
   * inserted first before any later one with the same score.
   */
  lemma RankedTiesKeepInsertionOrder(l: Ledger, i: nat, j: nat)
    requires LedgerOk(l) && i < j < |l.order|
    requires l.entries[l.order[i]].score == l.entries[l.order[j]].score
    ensures exists p, q ::
      && 0 <= p < q < |Ranked(l)|
      && Ranked(l)[p] == l.entries[l.order[i]]
      && Ranked(l)[q] == l.entries[l.order[j]]
  {
    var s := Scores(l);
    var o := StableOrder(s, |s|);
    assert Ranked(l) == Pick(l, o);
    assert i in o && j in o;
    var p :| 0 <= p < |o| && o[p] == i;
    var q :| 0 <= q < |o| && o[q] == j;
    assert !Before(s, j, i);
    assert p < q;
  }
}
