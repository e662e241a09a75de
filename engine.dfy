/**
 * `ForensicsEngine`: the graph it builds once, and the run state the four
 * detectors share and update in place (the ring list, the `suspicious`
 * dict and the ring counter).
 */
module Engine {
  import opened Types
  import opened TxGraph
  import opened Hub
  import opened Scoring
  import opened Canon
  import opened Cycles
  import opened Temporal
  import opened Fans
  import opened Shells
  import opened Sorting
  import opened Reconcile
  import opened Views
  import opened Flagging
  import opened Smurfing

  /** A ring registered by a detector: a consumed id, at least 3 members, all accounts of the graph. */
  ghost predicate RingOk(g: Graph, r: Ring, counter: nat)
  {
    && 1 <= r.id <= counter
    && |r.members| >= 3
    && r.risk <= 100.0
    && (forall a | a in r.members :: a in g.stats)
  }

  /** Registered rings, in registration order, with strictly increasing ids. */
  ghost predicate RingsOk(g: Graph, rings: seq<Ring>, counter: nat)
  {
    && (forall i, j :: 0 <= i < j < |rings| ==> rings[i].id < rings[j].id)
    && (forall i :: 0 <= i < |rings| ==> RingOk(g, rings[i], counter))
  }

  /** Suspicious entries belong to non-hub accounts and carry a consumed ring id. */
  ghost predicate EntriesOk(g: Graph, l: Ledger, counter: nat)
  {
    && WF(g)
    && LedgerOk(l)
    && (forall a | a in l.entries :: a in g.stats && !IsHub(g, a) && 1 <= l.entries[a].ringId <= counter)
  }

  /**
   * Every non-hub account of `ms` has an entry that lists its label and
   * holds at least `min(100, base)`.
   */
  ghost predicate MembersFlagged(g: Graph, l: Ledger, ms: seq<Account>, labels: seq<Label>, base: real)
  {
    FlaggedUpTo(g, l, ms, labels, base, |ms|)
  }

  /** `MembersFlagged` for the first `n` accounts of `ms`. */
  ghost predicate FlaggedUpTo(g: Graph, l: Ledger, ms: seq<Account>, labels: seq<Label>, base: real, n: nat)
  {
    && WF(g)
    && |labels| == |ms| && n <= |ms|
    && (forall i | 0 <= i < n && ms[i] in g.stats && !IsHub(g, ms[i]) ::
          && ms[i] in l.entries
          && labels[i] in l.entries[ms[i]].patterns
          && l.entries[ms[i]].score >= Min(100.0, base))
  }

  lemma FlaggedStays(g: Graph, l1: Ledger, l2: Ledger, ms: seq<Account>, labels: seq<Label>, base: real, n: nat)
    requires FlaggedUpTo(g, l1, ms, labels, base, n) && Grows(l1, l2)
    ensures FlaggedUpTo(g, l2, ms, labels, base, n)
  {
    forall i | 0 <= i < n && ms[i] in g.stats && !IsHub(g, ms[i])
      ensures labels[i] in l2.entries[ms[i]].patterns
    {
      var p := l1.entries[ms[i]].patterns;
      var k :| 0 <= k < |p| && p[k] == labels[i];
      assert l2.entries[ms[i]].patterns[k] == labels[i];
    }
  }

  /** Flagging the `n`-th account extends `FlaggedUpTo` by one position. */
  lemma FlaggedNext(g: Graph, l1: Ledger, l2: Ledger, ms: seq<Account>, labels: seq<Label>, base: real, n: nat)
    requires FlaggedUpTo(g, l1, ms, labels, base, n) && n < |ms| && Grows(l1, l2)
    requires ms[n] in g.stats && !IsHub(g, ms[n]) ==>
      && ms[n] in l2.entries
      && labels[n] in l2.entries[ms[n]].patterns
      && l2.entries[ms[n]].score >= Min(100.0, base)
    ensures FlaggedUpTo(g, l2, ms, labels, base, n + 1)
  {
    FlaggedStays(g, l1, l2, ms, labels, base, n);
  }

  /** `n` copies of one label. */
  function Repeat(x: Label, n: nat): (r: seq<Label>)
    ensures |r| == n && forall i :: 0 <= i < n ==> r[i] == x
  {
    seq(n, _ => x)
  }

  /** Base score of each non-hub member of a cycle ring: `40 + 5 * len`. */
  function CycleBase(len: nat): real
  {
    40.0 + (len as real) * 5.0
  }

  /**
   * A ring registered by `detect_cycles`: a canonical simple cycle of 3 to 5
   * accounts, its risk computed from the flow around it, and every non-hub
   * member flagged `cycle_length_{len}` with at least `min(100, 40 + 5 * len)`.
   */
  ghost predicate CycleRingOf(g: Graph, l: Ledger, r: Ring)
  {
    && r.pattern == Cycle
    && CanonicalCycleOf(g, r.members)
    && r.risk == CycleRisk(FlowUpTo(g, r.members, |r.members|), |r.members|)
    && MembersFlagged(g, l, r.members, Repeat(CycleLength(|r.members|), |r.members|), CycleBase(|r.members|))
  }

  /**
   * With non-negative edge weights (non-negative amounts, by
   * `IngestWeightsNonNegative`), a cycle ring's risk is at least
   * `min(100, 60 + 5 * len)` and at most 100.
   */
  lemma CycleRingRiskFloor(g: Graph, l: Ledger, r: Ring)
    requires CycleRingOf(g, l, r)
    requires forall e | e in g.edges :: g.edges[e].weight >= 0.0
    ensures Min(100.0, 60.0 + 5.0 * (|r.members| as real)) <= r.risk <= 100.0
  {
    FlowCoversEveryHop(g, r.members, |r.members|);
  }

  lemma CycleRingsStay(g: Graph, l1: Ledger, l2: Ledger, rs: seq<Ring>)
    requires Grows(l1, l2) && forall r | r in rs :: CycleRingOf(g, l1, r)
    ensures forall r | r in rs :: CycleRingOf(g, l2, r)
  {
    forall r | r in rs ensures CycleRingOf(g, l2, r) {
      CycleRingStays(g, l1, l2, r);
    }
  }

  lemma CycleRingStays(g: Graph, l1: Ledger, l2: Ledger, r: Ring)
    requires Grows(l1, l2) && CycleRingOf(g, l1, r)
    ensures CycleRingOf(g, l2, r)
  {
    FlaggedStays(g, l1, l2, r.members, Repeat(CycleLength(|r.members|), |r.members|),
      CycleBase(|r.members|), |r.members|);
  }

  /** The rings registered so far keep their flags, and the new ring joins them. */
  lemma CycleRingsExtend(g: Graph, l1: Ledger, l2: Ledger, before: seq<Ring>, ring: Ring)
    requires Grows(l1, l2) && forall r | r in before :: CycleRingOf(g, l1, r)
    requires CycleRingOf(g, l2, ring)
    ensures forall r | r in before + [ring] :: CycleRingOf(g, l2, r)
  {
    CycleRingsStay(g, l1, l2, before);
    AllSnoc(before, ring, r => CycleRingOf(g, l2, r));
  }

  /** The node sets seen only grow, so the first `k + 1` cycles stay covered. */
  lemma SeenStep(found: seq<seq<Account>>, k: nat, seen: seq<set<Account>>, seen': seq<set<Account>>)
    requires k < |found| && seen <= seen' && Elems(found[k]) in seen'
    requires forall j | 0 <= j < k :: Elems(found[j]) in seen
    ensures forall j | 0 <= j < k + 1 :: Elems(found[j]) in seen'
  {
    forall j | 0 <= j < k + 1 ensures Elems(found[j]) in seen' {
      if j < k {
        var i :| 0 <= i < |seen| && seen[i] == Elems(found[j]);
        assert seen'[i] == seen[i];
      }
    }
  }

  lemma SuffixAfter(a: seq<Ring>, b: seq<Ring>)
    ensures (a + b)[|a|..] == b
  {
  }

  /** Each cycle of `cs` is listed in `found`, whose node sets are those of `rs`. */
  lemma Covered(cs: set<seq<Account>>, found: seq<seq<Account>>, seen: seq<set<Account>>, rs: seq<Ring>)
    requires forall c :: c in found <==> c in cs
    requires forall j | 0 <= j < |found| :: Elems(found[j]) in seen
    requires seen == NodeSets(rs)
    ensures CoversCycles(cs, rs)
  {
    forall c | c in cs ensures Elems(c) in NodeSets(rs) {
      var j :| 0 <= j < |found| && found[j] == c;
    }
  }

  lemma NodeSetsSnoc(rs: seq<Ring>, r: Ring)
    ensures NodeSets(rs + [r]) == NodeSets(rs) + [Elems(r.members)]
  {
    assert (rs + [r])[..|rs|] == rs;
  }

  lemma Segment<T>(a: seq<T>, b: seq<T>)
    requires a <= b
    ensures b == a + b[|a|..]
  {
  }

  lemma AllSnoc<T>(s: seq<T>, x: T, p: T -> bool)
    requires forall y | y in s :: p(y)
    requires p(x)
    ensures forall y | y in s + [x] :: p(y)
  {
  }

  lemma DistinctSnoc<T>(s: seq<T>, x: T)
    requires Distinct(s) && x !in s
    ensures Distinct(s + [x])
  {
  }

  lemma AppendAssoc(a: seq<Ring>, b: seq<Ring>, r: Ring)
    ensures a + b + [r] == a + (b + [r])
  {
  }


  /** The node set of each ring. */
  function NodeSets(rs: seq<Ring>): (r: seq<set<Account>>)
    ensures |r| == |rs| && forall i :: 0 <= i < |rs| ==> r[i] == Elems(rs[i].members)
  {
    if rs == [] then [] else NodeSets(rs[..|rs| - 1]) + [Elems(rs[|rs| - 1].members)]
  }

  /** The accounts of a cycle of a well-formed graph are nodes of it. */
  /** Every cycle of `cs` has a ring with its member set. */
  ghost predicate CoversCycles(cs: set<seq<Account>>, rs: seq<Ring>)
  {
    forall c | c in cs :: Elems(c) in NodeSets(rs)
  }

  lemma CycleInGraph(g: Graph, c: seq<Account>)
    requires WF(g) && IsCycle(g, c)
    ensures forall a | a in c :: a in g.stats
  {
    forall a | a in c ensures a in g.stats {
      var i :| 0 <= i < |c| && c[i] == a;
      assert Hop(c, i) in g.edges;
    }
  }

  /** The ring `detect_cycles` registers for cycle `c` under id `id`. */
  function CycleRing(g: Graph, c: seq<Account>, id: RingId): Ring
  {
    Ring(id, c, Cycle, CycleRisk(FlowUpTo(g, c, |c|), |c|))
  }

  /**
   * The rings `detect_cycles` registers for the cycles `found`, in order,
   * the counter standing at `counter0`: one for each cycle whose node set no
   * earlier ring has, with the next id.
   */
  function CycleRings(g: Graph, counter0: nat, found: seq<seq<Account>>): seq<Ring>
  {
    if found == [] then []
    else
      var before := CycleRings(g, counter0, found[..|found| - 1]);
      var c := found[|found| - 1];
      if HasNodeSet(before, Elems(c)) then before else before + [CycleRing(g, c, counter0 + |before| + 1)]
  }

  /** Whether a ring of `rs` has the node set `s`: `s in seen_sets`. */
  predicate HasNodeSet(rs: seq<Ring>, s: set<Account>)
  {
    rs != [] && (Elems(rs[|rs| - 1].members) == s || HasNodeSet(rs[..|rs| - 1], s))
  }

  lemma {:induction false} HasNodeSetIff(rs: seq<Ring>, s: set<Account>)
    ensures HasNodeSet(rs, s) <==> s in NodeSets(rs)
  {
    if rs != [] {
      var n := |rs| - 1;
      HasNodeSetIff(rs[..n], s);
      assert rs == rs[..n] + [rs[n]];
      NodeSetsSnoc(rs[..n], rs[n]);
    }
  }

  /** A cycle whose node set a ring already has adds no ring. */
  lemma CycleRingsSkip(g: Graph, counter0: nat, found: seq<seq<Account>>, k: nat)
    requires k < |found| && HasNodeSet(CycleRings(g, counter0, found[..k]), Elems(found[k]))
    ensures CycleRings(g, counter0, found[..k + 1]) == CycleRings(g, counter0, found[..k])
  {
    assert found[..k + 1][..k] == found[..k];
  }

  /** A cycle with a new node set adds its ring, with the next id. */
  lemma CycleRingsAdd(g: Graph, counter0: nat, found: seq<seq<Account>>, k: nat, added: seq<Ring>, ring: Ring)
    requires k < |found| && added == CycleRings(g, counter0, found[..k]) && !HasNodeSet(added, Elems(found[k]))
    requires ring == CycleRing(g, found[k], counter0 + |added| + 1)
    ensures CycleRings(g, counter0, found[..k + 1]) == added + [ring]
  {
    assert found[..k + 1][..k] == found[..k];
  }

  /** The rings of `detect_cycles` are cycles of `found`, with ids counting up from `counter0 + 1`. */
  lemma {:induction false} CycleRingsFromFound(g: Graph, counter0: nat, found: seq<seq<Account>>)
    ensures var rs := CycleRings(g, counter0, found);
      && |rs| <= |found|
      && forall i | 0 <= i < |rs| :: rs[i].id == counter0 + i + 1 && rs[i].members in found
  {
    if found != [] {
      var n := |found| - 1;
      CycleRingsFromFound(g, counter0, found[..n]);
      var before := CycleRings(g, counter0, found[..n]);
      assert forall i | 0 <= i < |before| :: before[i].members in found[..n];
    }
  }

  /** No two rings of `detect_cycles` have the same node set. */
  lemma {:induction false} CycleRingsDistinct(g: Graph, counter0: nat, found: seq<seq<Account>>)
    ensures Distinct(NodeSets(CycleRings(g, counter0, found)))
  {
    if found != [] {
      var n := |found| - 1;
      var before := CycleRings(g, counter0, found[..n]);
      var c := found[n];
      CycleRingsDistinct(g, counter0, found[..n]);
      HasNodeSetIff(before, Elems(c));
      if Elems(c) !in NodeSets(before) {
        NodeSetsSnoc(before, CycleRing(g, c, counter0 + |before| + 1));
        DistinctSnoc(NodeSets(before), Elems(c));
      }
    }
  }

  /** Every cycle of `found` shares its node set with a ring of `detect_cycles`. */
  lemma {:induction false} CycleRingsCover(g: Graph, counter0: nat, found: seq<seq<Account>>)
    ensures forall c | c in found :: Elems(c) in NodeSets(CycleRings(g, counter0, found))
  {
    if found != [] {
      var n := |found| - 1;
      CycleRingsCover(g, counter0, found[..n]);
      CycleRingsLast(g, counter0, found);
      forall x | x in found ensures Elems(x) in NodeSets(CycleRings(g, counter0, found)) {
        if x != found[n] {
          assert x in found[..n];
        }
      }
    }
  }

  /** One more cycle keeps the node sets of the rings so far, and its own node set is among them afterwards. */
  lemma CycleRingsLast(g: Graph, counter0: nat, found: seq<seq<Account>>)
    requires found != []
    ensures var before := CycleRings(g, counter0, found[..|found| - 1]);
      var after := CycleRings(g, counter0, found);
      && (forall s | s in NodeSets(before) :: s in NodeSets(after))
      && Elems(found[|found| - 1]) in NodeSets(after)
  {
    var before := CycleRings(g, counter0, found[..|found| - 1]);
    var c := found[|found| - 1];
    HasNodeSetIff(before, Elems(c));
    if !HasNodeSet(before, Elems(c)) {
      NodeSetsSnoc(before, CycleRing(g, c, counter0 + |before| + 1));
    }
  }

  /** The ledger after the members of each cycle ring of `rs` are flagged in turn. */
  function CycleFlags(g: Graph, l: Ledger, rs: seq<Ring>): Ledger
    requires WF(g)
  {
    if rs == [] then l
    else
      var r := rs[|rs| - 1];
      var n := |r.members|;
      FlagEach(g, CycleFlags(g, l, rs[..|rs| - 1]), r.members, Repeat(CycleLength(n), n), r.id, CycleBase(n))
  }

  lemma CycleFlagsSnoc(g: Graph, l: Ledger, rs: seq<Ring>, r: Ring)
    requires WF(g)
    ensures CycleFlags(g, l, rs + [r]) ==
      FlagEach(g, CycleFlags(g, l, rs), r.members, Repeat(CycleLength(|r.members|), |r.members|), r.id, CycleBase(|r.members|))
  {
    assert (rs + [r])[..|rs|] == rs;
  }

  /**
   * The cycles `detect_cycles` goes through: the canonical forms of the
   * enumerated cycles, or those of the `_dfs_cycles` fallback when
   * enumeration raised.
   */
  method CyclesOf(g: Graph, enumerated: Option<seq<seq<Account>>>) returns (found: seq<seq<Account>>)
    requires WF(g)
    requires enumerated.Some? ==> forall c | c in enumerated.value :: IsCycle(g, c)
    ensures forall c | c in found :: CanonicalCycleOf(g, c)
    ensures enumerated.Some? ==> forall c :: c in found <==> c in CanonicalForms(enumerated.value)
  {
    match enumerated {
      case Some(cs) =>
        found := CollectCycles(cs);
        CanonicalFormsAreCycles(g, cs);
      case None =>
        found := DfsCycles(g);
    }
  }

  /** Every account of `ms` is flagged with every label of `pats`, each flag worth `share`. */
  ghost predicate FlaggedWithAll(g: Graph, l: Ledger, ms: seq<Account>, pats: seq<Label>, share: real)
  {
    forall k | 0 <= k < |pats| :: MembersFlagged(g, l, ms, Repeat(pats[k], |ms|), share)
  }




  /** `acc` has an entry that lists every label of `xs` and holds at least `min(100, share)`. */
  ghost predicate Listed(l: Ledger, acc: Account, xs: seq<Label>, share: real)
  {
    && acc in l.entries
    && l.entries[acc].score >= Min(100.0, share)
    && forall x | x in xs :: x in l.entries[acc].patterns
  }

  lemma ListedStays(l1: Ledger, l2: Ledger, acc: Account, xs: seq<Label>, share: real)
    requires Listed(l1, acc, xs, share) && Grows(l1, l2)
    ensures Listed(l2, acc, xs, share)
  {
    forall x | x in xs ensures x in l2.entries[acc].patterns {
      LabelStays(l1, l2, acc, x);
    }
  }

  /** One more label of `pats` flagged on `acc`, the earlier ones kept by growth. */
  lemma ListedNext(l1: Ledger, l2: Ledger, acc: Account, pats: seq<Label>, j: nat, share: real)
    requires j < |pats| && Grows(l1, l2)
    requires j > 0 ==> Listed(l1, acc, pats[..j], share)
    requires acc in l2.entries && pats[j] in l2.entries[acc].patterns
    requires l2.entries[acc].score >= Min(100.0, share)
    ensures Listed(l2, acc, pats[..j + 1], share)
    ensures j + 1 == |pats| ==> Listed(l2, acc, pats, share)
  {
    if j > 0 {
      ListedStays(l1, l2, acc, pats[..j], share);
    }
    assert pats[..j + 1] == pats[..j] + [pats[j]];
    if j + 1 == |pats| {
      assert pats[..j + 1] == pats;
    }
  }

  /**
   * A ring registered by the fan check of `a` on one side: its members are
   * `a` and its counterparties on that side without hubs, and its risk is
   * `min(100, base)`.
   */
  ghost predicate FanRingShape(g: Graph, r: Ring, a: Account, side: Side)
  {
    && WF(g) && a in g.stats
    && Registers(g, a, side)
    && r.pattern == Smurfing
    && r.members == FanMembers(g, a, side)
    && r.risk == Min(100.0, SideBase(g, a, side))
  }

  /** `rs` are the rings of the fan checks `sites`, one for one, and their members are flagged. */
  ghost predicate FanRingsAt(g: Graph, l: Ledger, rs: seq<Ring>, sites: seq<(Account, Side)>)
  {
    && |rs| == |sites|
    && (forall i | 0 <= i < |rs| :: FanRingShape(g, rs[i], sites[i].0, sites[i].1))
    && FanRingsFlagged(g, l, rs, sites)
  }

  /** Every member of each ring is flagged with each label of its check. */
  ghost predicate FanRingsFlagged(g: Graph, l: Ledger, rs: seq<Ring>, sites: seq<(Account, Side)>)
  {
    && |rs| == |sites| && WF(g)
    && (forall i | 0 <= i < |rs| && sites[i].0 in g.stats ::
          FlaggedWithAll(g, l, rs[i].members, SidePatterns(g, sites[i].0, sites[i].1),
                         SideShare(g, sites[i].0, sites[i].1)))
  }

  lemma FlaggedWithAllStays(g: Graph, l1: Ledger, l2: Ledger, ms: seq<Account>, pats: seq<Label>, share: real)
    requires FlaggedWithAll(g, l1, ms, pats, share) && Grows(l1, l2)
    ensures FlaggedWithAll(g, l2, ms, pats, share)
  {
    forall k | 0 <= k < |pats| ensures MembersFlagged(g, l2, ms, Repeat(pats[k], |ms|), share) {
      FlaggedStays(g, l1, l2, ms, Repeat(pats[k], |ms|), share, |ms|);
    }
  }

  lemma FanRingsStay(g: Graph, l1: Ledger, l2: Ledger, rs: seq<Ring>, sites: seq<(Account, Side)>)
    requires FanRingsFlagged(g, l1, rs, sites) && Grows(l1, l2)
    ensures FanRingsFlagged(g, l2, rs, sites)
  {
    forall i | 0 <= i < |rs| && sites[i].0 in g.stats
      ensures FlaggedWithAll(g, l2, rs[i].members, SidePatterns(g, sites[i].0, sites[i].1),
                             SideShare(g, sites[i].0, sites[i].1))
    {
      FlaggedWithAllStays(g, l1, l2, rs[i].members, SidePatterns(g, sites[i].0, sites[i].1),
                          SideShare(g, sites[i].0, sites[i].1));
    }
  }

  lemma FanRingsAppend(g: Graph, l: Ledger, rs: seq<Ring>, sites: seq<(Account, Side)>, r: Ring, a: Account, side: Side)
    requires FanRingsAt(g, l, rs, sites)
    requires FanRingShape(g, r, a, side)
    requires FlaggedWithAll(g, l, r.members, SidePatterns(g, a, side), SideShare(g, a, side))
    ensures FanRingsAt(g, l, rs + [r], sites + [(a, side)])
  {
    FanShapesAppend(g, rs, sites, r, a, side);
    FanFlaggedAppend(g, l, rs, sites, r, a, side);
  }

  lemma FanShapesAppend(g: Graph, rs: seq<Ring>, sites: seq<(Account, Side)>, r: Ring, a: Account, side: Side)
    requires |rs| == |sites| && forall i | 0 <= i < |rs| :: FanRingShape(g, rs[i], sites[i].0, sites[i].1)
    requires FanRingShape(g, r, a, side)
    ensures forall i | 0 <= i < |rs| + 1 ::
      FanRingShape(g, (rs + [r])[i], (sites + [(a, side)])[i].0, (sites + [(a, side)])[i].1)
  {
    forall i | 0 <= i < |rs| + 1
      ensures FanRingShape(g, (rs + [r])[i], (sites + [(a, side)])[i].0, (sites + [(a, side)])[i].1)
    {
      if i < |rs| {
        assert (rs + [r])[i] == rs[i] && (sites + [(a, side)])[i] == sites[i];
      }
    }
  }

  lemma FanFlaggedAppend(g: Graph, l: Ledger, rs: seq<Ring>, sites: seq<(Account, Side)>, r: Ring, a: Account, side: Side)
    requires FanRingsFlagged(g, l, rs, sites) && a in g.stats
    requires FlaggedWithAll(g, l, r.members, SidePatterns(g, a, side), SideShare(g, a, side))
    ensures FanRingsFlagged(g, l, rs + [r], sites + [(a, side)])
  {
    var rs', sites' := rs + [r], sites + [(a, side)];
    forall i | 0 <= i < |rs'| && sites'[i].0 in g.stats
      ensures FlaggedWithAll(g, l, rs'[i].members, SidePatterns(g, sites'[i].0, sites'[i].1),
                             SideShare(g, sites'[i].0, sites'[i].1))
    {
      if i < |rs| {
        assert rs'[i] == rs[i] && sites'[i] == sites[i];
      }
    }
  }

  lemma SliceAppend<T>(s: seq<T>, x: T, n: nat)
    requires n <= |s|
    ensures (s + [x])[n..] == s[n..] + [x]
  {
  }

  /** A label an entry lists stays listed as the ledger grows. */
  lemma LabelStays(l1: Ledger, l2: Ledger, acc: Account, x: Label)
    requires Grows(l1, l2) && acc in l1.entries && x in l1.entries[acc].patterns
    ensures acc in l2.entries && x in l2.entries[acc].patterns
  {
    var p := l1.entries[acc].patterns;
    var m :| 0 <= m < |p| && p[m] == x;
    assert l2.entries[acc].patterns[m] == x;
  }

  /** The labels `_find_shell_chains` gives the accounts of a chain. */
  function ShellLabels(cands: set<Account>, p: seq<Account>): (r: seq<Label>)
    ensures |r| == |p| && forall i :: 0 <= i < |p| ==> r[i] == ShellLabel(cands, p[i])
  {
    seq(|p|, i requires 0 <= i < |p| => ShellLabel(cands, p[i]))
  }

  /**
   * The label follows candidacy, not position: a chain's first account is
   * never a candidate and is labelled `shell_endpoint`, while its last
   * account, an endpoint of the chain, is labelled `shell_intermediate`
   * whenever it is a candidate.
   */
  lemma ChainEndLabels(g: Graph, cands: set<Account>, p: seq<Account>)
    requires LayeringChain(g, cands, p)
    ensures ShellLabels(cands, p)[0] == ShellEndpoint
    ensures p[|p| - 1] in cands ==> ShellLabels(cands, p)[|p| - 1] == ShellIntermediate
    ensures p[|p| - 1] !in cands ==> ShellLabels(cands, p)[|p| - 1] == ShellEndpoint
  {
  }

  /** Base score of each non-hub member of a layering ring: `30 + 5 * shells`. */
  function ShellBase(shells: nat): real
  {
    30.0 + (shells as real) * 5.0
  }

  /**
   * A ring registered by `_find_shell_chains`: a layering chain, with risk
   * `min(100, 50 + 10 * shells + 3 * len)` where `shells` counts the
   * candidates strictly inside it.
   */
  ghost predicate ShellRingShape(g: Graph, cands: set<Account>, r: Ring)
  {
    && r.pattern == Layering
    && LayeringChain(g, cands, r.members)
    && r.risk == LayeringRisk(ShellCount(cands, Interior(r.members)), |r.members|)
  }

  /** Every non-hub member of the chain is flagged with its shell label and at least `min(100, 30 + 5 * shells)`. */
  ghost predicate ShellRingFlagged(g: Graph, l: Ledger, cands: set<Account>, r: Ring)
  {
    && |r.members| >= 2
    && MembersFlagged(g, l, r.members, ShellLabels(cands, r.members), ShellBase(ShellCount(cands, Interior(r.members))))
  }

  lemma ShellRingsStay(g: Graph, l1: Ledger, l2: Ledger, cands: set<Account>, rs: seq<Ring>)
    requires Grows(l1, l2) && forall r | r in rs :: ShellRingFlagged(g, l1, cands, r)
    ensures forall r | r in rs :: ShellRingFlagged(g, l2, cands, r)
  {
    forall r | r in rs ensures ShellRingFlagged(g, l2, cands, r) {
      FlaggedStays(g, l1, l2, r.members, ShellLabels(cands, r.members),
        ShellBase(ShellCount(cands, Interior(r.members))), |r.members|);
    }
  }

  /** The chains registered so far keep their flags, and the new ring joins them. */
  lemma ShellRingsExtend(g: Graph, l1: Ledger, l2: Ledger, cands: set<Account>, before: seq<Ring>, ring: Ring)
    requires Grows(l1, l2)
    requires forall r | r in before :: ShellRingShape(g, cands, r) && ShellRingFlagged(g, l1, cands, r)
    requires ShellRingShape(g, cands, ring) && ShellRingFlagged(g, l2, cands, ring)
    ensures forall r | r in before + [ring] :: ShellRingShape(g, cands, r) && ShellRingFlagged(g, l2, cands, r)
  {
    ShellRingsStay(g, l1, l2, cands, before);
    AllSnoc(before, ring, r => ShellRingShape(g, cands, r) && ShellRingFlagged(g, l2, cands, r));
  }

  /**
   * A `_find_shell_chains` frame: a simple path of 1 to 6 accounts from a
   * non-candidate `start`, with `aux` the number of candidates after the start.
   */
  ghost predicate ShellFrameOk(g: Graph, start: Account, cands: set<Account>, f: Frame)
  {
    && 1 <= |f.path| <= 6
    && f.path[0] == start && f.path[|f.path| - 1] == f.curr
    && start !in cands
    && Distinct(f.path)
    && IsPath(g, f.path)
    && (forall x | x in f.path :: x in g.stats)
    && f.aux == ShellCount(cands, f.path[1..])
  }

  ghost predicate ShellStackOk(g: Graph, start: Account, cands: set<Account>, stack: seq<Frame>)
  {
    forall i | 0 <= i < |stack| :: ShellFrameOk(g, start, cands, stack[i])
  }

  /** How many frames of the stack hold a path of `n` accounts. */
  function Count(stack: seq<Frame>, n: nat): nat
  {
    if stack == [] then 0
    else Count(stack[..|stack| - 1], n) + if |stack[|stack| - 1].path| == n then 1 else 0
  }

  lemma CountPop(stack: seq<Frame>, f: Frame)
    ensures forall n :: Count(stack + [f], n) == Count(stack, n) + if |f.path| == n then 1 else 0
  {
    assert (stack + [f])[..|stack|] == stack;
  }

  /** Pushing the frame that extends `f` by `nbr` keeps the stack well formed and the shorter counts. */
  lemma PushExtended(g: Graph, start: Account, cands: set<Account>, f: Frame, nbr: Account,
                     stack: seq<Frame>, popped: seq<Frame>)
    requires WF(g) && ShellFrameOk(g, start, cands, f) && |f.path| < 6
    requires (f.curr, nbr) in g.edges && nbr !in f.path
    requires ShellStackOk(g, start, cands, stack)
    requires forall n :: 1 <= n <= |f.path| ==> Count(stack, n) == Count(popped, n)
    ensures var nf := Frame(nbr, f.path + [nbr], f.aux + if nbr in cands then 1 else 0);
      && ShellStackOk(g, start, cands, stack + [nf])
      && forall n :: 1 <= n <= |f.path| ==> Count(stack + [nf], n) == Count(popped, n)
  {
    var nf := Frame(nbr, f.path + [nbr], f.aux + if nbr in cands then 1 else 0);
    ExtendFrame(g, start, cands, f, nbr);
    assert ShellFrameOk(g, start, cands, nf);
    CountPop(stack, nf);
    assert forall i | 0 <= i < |stack| :: (stack + [nf])[i] == stack[i];
  }

  /** The shell candidates of the graph. */
  ghost function ShellSet(g: Graph): set<Account>
    requires WF(g)
  {
    set a | a in g.stats && IsShell(g, a)
  }

  /** Extending a frame by a successor not on its path gives a frame one account longer. */
  lemma ExtendFrame(g: Graph, start: Account, cands: set<Account>, f: Frame, nbr: Account)
    requires WF(g) && ShellFrameOk(g, start, cands, f)
    requires (f.curr, nbr) in g.edges && nbr !in f.path
    ensures var p := f.path + [nbr];
      && Distinct(p) && IsPath(g, p) && p[0] == start
      && (forall x | x in p :: x in g.stats)
      && ShellCount(cands, p[1..]) == f.aux + (if nbr in cands then 1 else 0)
  {
    var p := f.path + [nbr];
    assert forall i :: 0 <= i < |f.path| - 1 ==> Step(p, i) == Step(f.path, i);
    assert Step(p, |f.path| - 1) == (f.curr, nbr);
    assert p[1..][..|p| - 2] == f.path[1..];
  }

  /** The ring `_find_shell_chains` registers for the chain `p` under id `id`. */
  function ShellRing(cands: set<Account>, p: seq<Account>, id: RingId): Ring
  {
    Ring(id, p, Layering, LayeringRisk(ShellCount(cands, Interior(p)), |p|))
  }

  /**
   * The rings after the successor `nbr` of frame `f` is visited, `added`
   * being every ring registered since `detect_shell_networks` began with the
   * counter at `counter0`: the extended path is registered, with the next id,
   * when `nbr` is off the path, the path qualifies and its node set is new.
   */
  function VisitRings(cands: set<Account>, f: Frame, nbr: Account, added: seq<Ring>, counter0: nat): seq<Ring>
  {
    var p := f.path + [nbr];
    if nbr !in f.path && Qualifies(cands, p) && !HasNodeSet(added, Elems(p))
    then added + [ShellRing(cands, p, counter0 + |added| + 1)]
    else added
  }

  /** The stack after the successor `nbr` of frame `f` is visited: the extended frame is pushed while its path is shorter than 7. */
  function VisitStack(cands: set<Account>, f: Frame, nbr: Account, stack: seq<Frame>): seq<Frame>
  {
    if nbr !in f.path && |f.path| + 1 < 7
    then stack + [Frame(nbr, f.path + [nbr], f.aux + if nbr in cands then 1 else 0)]
    else stack
  }

  /** The three cases of a visit, as `_find_shell_chains` writes them, are what `VisitRings` and `VisitStack` compute. */
  lemma VisitCases(cands: set<Account>, f: Frame, succ: seq<Account>, k: nat, nbr: Account, stack: seq<Frame>,
                   stack': seq<Frame>, chains: seq<set<Account>>, added: seq<Ring>, added': seq<Ring>, counter0: nat)
    requires k < |succ| && nbr == succ[k]
    requires chains == NodeSets(added)
    requires nbr in f.path ==> stack' == stack && added' == added
    requires nbr !in f.path && Qualifies(cands, f.path + [nbr]) && Elems(f.path + [nbr]) !in chains ==>
      added' == added + [ShellRing(cands, f.path + [nbr], counter0 + |added| + 1)]
    requires nbr !in f.path && !(Qualifies(cands, f.path + [nbr]) && Elems(f.path + [nbr]) !in chains) ==> added' == added
    requires nbr !in f.path && |f.path| + 1 < 7 ==>
      stack' == stack + [Frame(nbr, f.path + [nbr], f.aux + if nbr in cands then 1 else 0)]
    requires nbr !in f.path && |f.path| + 1 >= 7 ==> stack' == stack
    ensures added' == VisitRings(cands, f, nbr, added, counter0) && stack' == VisitStack(cands, f, nbr, stack)
    ensures FrameRings(cands, f, succ, k, added, counter0) == FrameRings(cands, f, succ, k + 1, added', counter0)
    ensures FrameStack(cands, f, succ, k, stack) == FrameStack(cands, f, succ, k + 1, stack')
  {
    var p := f.path + [nbr];
    HasNodeSetIff(added, Elems(p));
    if nbr in f.path {
      assert VisitRings(cands, f, nbr, added, counter0) == added;
    } else if Qualifies(cands, p) && Elems(p) !in chains {
      assert VisitRings(cands, f, nbr, added, counter0) == added + [ShellRing(cands, p, counter0 + |added| + 1)];
    } else {
      assert VisitRings(cands, f, nbr, added, counter0) == added;
    }
  }

  /** The rings after the successors `succ[k..]` of frame `f` are visited in order. */
  function FrameRings(cands: set<Account>, f: Frame, succ: seq<Account>, k: nat, added: seq<Ring>, counter0: nat): seq<Ring>
    requires k <= |succ|
    decreases |succ| - k
  {
    if k == |succ| then added
    else FrameRings(cands, f, succ, k + 1, VisitRings(cands, f, succ[k], added, counter0), counter0)
  }

  /** The stack after the successors `succ[k..]` of frame `f` are visited in order. */
  function FrameStack(cands: set<Account>, f: Frame, succ: seq<Account>, k: nat, stack: seq<Frame>): seq<Frame>
    requires k <= |succ|
    decreases |succ| - k
  {
    if k == |succ| then stack
    else FrameStack(cands, f, succ, k + 1, VisitStack(cands, f, succ[k], stack))
  }

  /** Visiting the remaining successors keeps the stack well formed and leaves the counts of paths up to the frame's length alone. */
  lemma {:induction false} FrameStackOk(g: Graph, start: Account, cands: set<Account>, f: Frame, k: nat,
                                        stack: seq<Frame>, popped: seq<Frame>)
    requires WF(g) && ShellFrameOk(g, start, cands, f) && f.curr in g.stats && k <= |g.stats[f.curr].receivers|
    requires ShellStackOk(g, start, cands, stack)
    requires forall n :: 1 <= n <= |f.path| ==> Count(stack, n) == Count(popped, n)
    ensures var s := FrameStack(cands, f, g.stats[f.curr].receivers, k, stack);
      && ShellStackOk(g, start, cands, s)
      && forall n :: 1 <= n <= |f.path| ==> Count(s, n) == Count(popped, n)
    decreases |g.stats[f.curr].receivers| - k
  {
    var succ := g.stats[f.curr].receivers;
    if k < |succ| {
      var nbr := succ[k];
      assert NodeOk(g, f.curr);
      if nbr !in f.path && |f.path| + 1 < 7 {
        PushExtended(g, start, cands, f, nbr, stack, popped);
      }
      FrameStackOk(g, start, cands, f, k + 1, VisitStack(cands, f, nbr, stack), popped);
    }
  }

  /**
   * The rings `_find_shell_chains` registers while it works through
   * `stack`: pop the top frame, visit its successors in the order of its
   * node's `receivers`, and go on until the stack is empty.
   */
  ghost function ShellSearch(g: Graph, start: Account, cands: set<Account>, stack: seq<Frame>, added: seq<Ring>,
                             counter0: nat): seq<Ring>
    requires WF(g) && ShellStackOk(g, start, cands, stack)
    decreases Count(stack, 1), Count(stack, 2), Count(stack, 3), Count(stack, 4), Count(stack, 5), Count(stack, 6)
  {
    if stack == [] then added
    else
      var f := stack[|stack| - 1];
      var rest := stack[..|stack| - 1];
      assert ShellFrameOk(g, start, cands, f);
      assert f.curr in f.path;
      assert stack == rest + [f];
      CountPop(rest, f);
      FrameStackOk(g, start, cands, f, 0, rest, rest);
      var succ := g.stats[f.curr].receivers;
      ShellSearch(g, start, cands, FrameStack(cands, f, succ, 0, rest), FrameRings(cands, f, succ, 0, added, counter0), counter0)
  }

  /** The single frame `_find_shell_chains` starts from. */
  function StartStack(start: Account): seq<Frame>
  {
    [Frame(start, [start], 0)]
  }

  /** A non-candidate node's start stack is well formed. */
  lemma StartStackOk(g: Graph, start: Account, cands: set<Account>)
    requires WF(g) && start in g.stats && start !in cands
    ensures ShellStackOk(g, start, cands, StartStack(start))
  {
    assert ShellFrameOk(g, start, cands, Frame(start, [start], 0));
  }

  /**
   * The rings `detect_shell_networks` registers from the nodes `g.nodes[k..]`,
   * in insertion order, candidates skipped: one search from each.
   */
  ghost function ShellNetworks(g: Graph, cands: set<Account>, k: nat, added: seq<Ring>, counter0: nat): seq<Ring>
    requires WF(g) && k <= |g.nodes|
    decreases |g.nodes| - k
  {
    if k == |g.nodes| then added
    else
      var start := g.nodes[k];
      if start in cands then ShellNetworks(g, cands, k + 1, added, counter0)
      else
        StartStackOk(g, start, cands);
        ShellNetworks(g, cands, k + 1, ShellSearch(g, start, cands, StartStack(start), added, counter0), counter0)
  }

  /** The ledger after the non-hub members of each layering ring of `rs` are flagged in turn. */
  function ShellFlags(g: Graph, l: Ledger, cands: set<Account>, rs: seq<Ring>): Ledger
    requires WF(g)
  {
    if rs == [] then l
    else
      var r := rs[|rs| - 1];
      FlagEach(g, ShellFlags(g, l, cands, rs[..|rs| - 1]), r.members, ShellLabels(cands, r.members), r.id,
               ShellBase(ShellCount(cands, Interior(r.members))))
  }

  lemma ShellFlagsSnoc(g: Graph, l: Ledger, cands: set<Account>, rs: seq<Ring>, r: Ring)
    requires WF(g)
    ensures ShellFlags(g, l, cands, rs + [r]) ==
      FlagEach(g, ShellFlags(g, l, cands, rs), r.members, ShellLabels(cands, r.members), r.id,
               ShellBase(ShellCount(cands, Interior(r.members))))
  {
    assert (rs + [r])[..|rs|] == rs;
  }

  /** Whether `detect_high_velocity` boosts account `a`: a non-hub with more than 5 transactions per hour. */
  predicate Fast(g: Graph, a: Account)
    requires WF(g) && a in g.stats
  {
    !IsHub(g, a) && FastRate(g.stats[a].timestamps)
  }

  /** The ledger after `detect_high_velocity` has visited the first `k` nodes. */
  function VelocityPass(g: Graph, l: Ledger, k: nat): Ledger
    requires WF(g) && k <= |g.nodes|
  {
    if k == 0 then l
    else
      var a := g.nodes[k - 1];
      assert a in g.stats;
      var before := VelocityPass(g, l, k - 1);
      if Fast(g, a) then Amplify(before, a) else before
  }

  /** One more node of the pass; an account without an entry is left alone. */
  lemma VelocityStep(g: Graph, l: Ledger, k: nat)
    requires WF(g) && k < |g.nodes|
    ensures g.nodes[k] in g.stats
    ensures VelocityPass(g, l, k + 1) ==
      if Fast(g, g.nodes[k]) && g.nodes[k] in VelocityPass(g, l, k).entries
      then Amplify(VelocityPass(g, l, k), g.nodes[k]) else VelocityPass(g, l, k)
  {
  }

  /**
   * The pass only touches accounts already flagged: it keeps the keys, the
   * insertion order and every ring id, and the ledger only grows.
   */
  lemma {:induction false} VelocityPassGrows(g: Graph, l: Ledger, k: nat)
    requires WF(g) && k <= |g.nodes| && LedgerOk(l)
    ensures var r := VelocityPass(g, l, k);
      && r.entries.Keys == l.entries.Keys && r.order == l.order
      && (forall a | a in r.entries :: r.entries[a].ringId == l.entries[a].ringId)
      && LedgerOk(r) && Grows(l, r)
  {
    if k > 0 {
      VelocityPassGrows(g, l, k - 1);
      var before := VelocityPass(g, l, k - 1);
      GrowsTransitive(l, before, VelocityPass(g, l, k));
    }
  }

  /**
   * Each node is visited once, so a flagged account that passes the rate
   * test gets exactly one more `high_velocity` label and 15 more points
   * (capped at 100); every other entry is unchanged.
   */
  lemma {:induction false} VelocityPassEffect(g: Graph, l: Ledger, k: nat, a: Account)
    requires WF(g) && k <= |g.nodes| && a in l.entries
    ensures var r := VelocityPass(g, l, k);
      && a in r.entries
      && if a in g.nodes[..k] && Fast(g, a) then
           r.entries[a] == l.entries[a].(patterns := l.entries[a].patterns + [HighVelocity],
                                         score := Min(100.0, l.entries[a].score + 15.0))
         else r.entries[a] == l.entries[a]
  {
    if k > 0 {
      VelocityPassEffect(g, l, k - 1, a);
      PrefixStep(g.nodes, k);
      var b := g.nodes[k - 1];
      var before := VelocityPass(g, l, k - 1);
      assert b in g.stats;
      assert VelocityPass(g, l, k) == if Fast(g, b) then Amplify(before, b) else before;
      if b == a {
        assert before.entries[a] == l.entries[a];
      } else {
        assert VelocityPass(g, l, k).entries[a] == before.entries[a];
        assert a in g.nodes[..k] <==> a in g.nodes[..k - 1];
      }
    }
  }

  /** One more element of a duplicate-free sequence: the prefix gains exactly that element, which is new. */
  lemma PrefixStep(s: seq<Account>, k: nat)
    requires 0 < k <= |s| && Distinct(s)
    ensures forall x :: x in s[..k] <==> x in s[..k - 1] || x == s[k - 1]
    ensures s[k - 1] !in s[..k - 1]
  {
    assert s[..k] == s[..k - 1] + [s[k - 1]];
  }

  /**
   * In the reported graph an account lists at most one ring, and when it
   * lists one, that is the ring its suspicious entry was moved to: the first
   * detected ring that named it.
   */
  lemma ReportedRingIds(detected: seq<Ring>, a: Account)
    ensures |RingIdsOf(Survivors(detected), a)| <= 1
    ensures RingIdsOf(Survivors(detected), a) != [] ==>
      a in ClaimAll(detected).0 && RingIdsOf(Survivors(detected), a) == [ClaimAll(detected).0[a]]
  {
    var kept := Survivors(detected);
    SurvivorsAreClaimed(detected);
    SurvivorsAreDisjoint(detected);
    assert forall k :: 0 <= k < |kept| ==> kept[k] in kept;
    RingIdsOfDisjoint(kept, a);
  }

  class ForensicsEngine {
    const g: Graph
    var rings: seq<Ring>
    var suspicious: Ledger
    var ringCounter: nat

    ghost predicate Valid()
      reads this
    {
      && WF(g)
      && RingsOk(g, rings, ringCounter)
      && EntriesOk(g, suspicious, ringCounter)
    }

    /** `__init__` followed by `_build_graph`: one pass over the records, in order. */
    constructor (records: seq<Record>)
      ensures Valid()
      ensures g == Ingest(records)
      ensures rings == [] && suspicious == EmptyLedger && ringCounter == 0
    {
      var graph := EmptyGraph;
      for i := 0 to |records|
        invariant graph == Ingest(records[..i])
      {
        assert records[..i + 1][..i] == records[..i];
        graph := AddRecord(graph, records[i]);
      }
      assert records[..|records|] == records;
      IngestWF(records);
      g := graph;
      rings := [];
      suspicious := EmptyLedger;
      ringCounter := 0;
    }

    /** `_next_ring_id`: the counter goes up by one and its new value is the id. */
    method NextRingId() returns (id: RingId)
      requires Valid()
      modifies this
      ensures id == ringCounter == old(ringCounter) + 1
      ensures rings == old(rings) && suspicious == old(suspicious)
      ensures Valid()
    {
      ringCounter := ringCounter + 1;
      id := ringCounter;
    }

    /**
     * `_flag_account`. Every caller passes a non-hub account of the graph,
     * an id already handed out and a positive base score.
     */
    method FlagAccount(acc: Account, pat: Label, id: RingId, base: real)
      requires Valid() && acc in g.stats && !IsHub(g, acc) && 1 <= id <= ringCounter && base >= 0.0
      modifies this
      ensures suspicious == Flag(old(suspicious), acc, pat, id, base)
      ensures rings == old(rings) && ringCounter == old(ringCounter)
      ensures Valid() && Grows(old(suspicious), suspicious)
      ensures suspicious.entries[acc].score >= Min(100.0, base)
    {
      FlagGrows(suspicious, acc, pat, id, base);
      suspicious := Flag(suspicious, acc, pat, id, base);
    }

    /** `for acc in members: if not hub: _flag_account(acc, label, ring_id, base)`. */
    method FlagMembers(ms: seq<Account>, labels: seq<Label>, id: RingId, base: real)
      requires Valid() && |labels| == |ms| && 1 <= id <= ringCounter && base >= 0.0
      requires forall a | a in ms :: a in g.stats
      modifies this
      ensures rings == old(rings) && ringCounter == old(ringCounter)
      ensures Valid() && Grows(old(suspicious), suspicious)
      ensures suspicious == FlagEach(g, old(suspicious), ms, labels, id, base)
      ensures MembersFlagged(g, suspicious, ms, labels, base)
    {
      for i := 0 to |ms|
        invariant rings == old(rings) && ringCounter == old(ringCounter)
        invariant Valid() && Grows(old(suspicious), suspicious)
        invariant suspicious == FlagEach(g, old(suspicious), ms[..i], labels[..i], id, base)
        invariant FlaggedUpTo(g, suspicious, ms, labels, base, i)
      {
        ghost var before := suspicious;
        FlagEachStep(g, old(suspicious), ms, labels, id, base, i);
        if !IsHub(g, ms[i]) {
          FlagAccount(ms[i], labels[i], id, base);
          GrowsTransitive(old(suspicious), before, suspicious);
        }
        FlaggedNext(g, before, suspicious, ms, labels, base, i);
      }
      assert ms[..|ms|] == ms && labels[..|labels|] == labels;
    }

    /**
     * `detect_cycles`. `enumerated` is what `nx.simple_cycles(G,
     * length_bound=5)` yields, or `None` when that call raises. Cycles are
     * kept once per node set; each gets a ring, and its non-hub members are
     * flagged.
     */
    method DetectCycles(enumerated: Option<seq<seq<Account>>>) returns (ghost found: seq<seq<Account>>)
      requires Valid()
      requires enumerated.Some? ==> forall c | c in enumerated.value :: IsCycle(g, c)
      modifies this
      ensures Valid()
      ensures enumerated.Some? ==> forall c :: c in found <==> c in CanonicalForms(enumerated.value)
      ensures old(rings) <= rings && rings[|old(rings)|..] == CycleRings(g, old(ringCounter), found)
      ensures suspicious == CycleFlags(g, old(suspicious), rings[|old(rings)|..])
      ensures enumerated.Some? ==> forall r | r in rings[|old(rings)|..] :: r.members in CanonicalForms(enumerated.value)
      ensures Grows(old(suspicious), suspicious)
      ensures forall r | r in rings[|old(rings)|..] :: CycleRingOf(g, suspicious, r)
      ensures Distinct(NodeSets(rings[|old(rings)|..]))
      ensures enumerated.Some? ==> CoversCycles(CanonicalForms(enumerated.value), rings[|old(rings)|..])
      ensures ringCounter == old(ringCounter) + (|rings| - |old(rings)|)
    {
      var cs := CyclesOf(g, enumerated);
      found := cs;
      ghost var added: seq<Ring>;
      var seen: seq<set<Account>>;
      seen, added := ConsiderAll(cs);
      SuffixAfter(old(rings), added);
      if enumerated.Some? {
        Covered(CanonicalForms(enumerated.value), found, seen, added);
        CycleRingsFromFound(g, old(ringCounter), found);
        assert forall r | r in added :: r.members in found;
      }
    }

    /** The loop of `detect_cycles` over the canonical cycles, in order. */
    method ConsiderAll(found: seq<seq<Account>>) returns (seen: seq<set<Account>>, ghost added: seq<Ring>)
      requires Valid() && forall c | c in found :: CanonicalCycleOf(g, c)
      modifies this
      ensures CyclesSoFar(old(rings), old(suspicious), old(ringCounter), added, seen)
      ensures added == CycleRings(g, old(ringCounter), found)
      ensures forall j | 0 <= j < |found| :: Elems(found[j]) in seen
    {
      added, seen := [], [];
      for k := 0 to |found|
        invariant CyclesSoFar(old(rings), old(suspicious), old(ringCounter), added, seen)
        invariant added == CycleRings(g, old(ringCounter), found[..k])
        invariant forall j | 0 <= j < k :: Elems(found[j]) in seen
      {
        ghost var seen0 := seen;
        seen, added := ConsiderCycle(found[k], seen, old(rings), old(suspicious), old(ringCounter), added, found, k);
        SeenStep(found, k, seen0, seen);
      }
      assert found[..|found|] == found;
    }

    /** The state `detect_cycles` keeps between two cycles. */
    ghost predicate CyclesSoFar(rings0: seq<Ring>, sus0: Ledger, counter0: nat, added: seq<Ring>, seen: seq<set<Account>>)
      reads this
    {
      && Valid()
      && rings == rings0 + added && Grows(sus0, suspicious)
      && ringCounter == counter0 + |added|
      && seen == NodeSets(added) && Distinct(seen)
      && suspicious == CycleFlags(g, sus0, added)
      && (forall r | r in added :: CycleRingOf(g, suspicious, r))
    }

    /** One pass of the `detect_cycles` loop: skip a node set already seen, otherwise register the cycle. */
    method ConsiderCycle(cyc: seq<Account>, seen: seq<set<Account>>, ghost rings0: seq<Ring>, ghost sus0: Ledger,
                         ghost counter0: nat, ghost added: seq<Ring>, ghost found: seq<seq<Account>>, ghost k: nat)
      returns (seen': seq<set<Account>>, ghost added': seq<Ring>)
      requires CanonicalCycleOf(g, cyc) && CyclesSoFar(rings0, sus0, counter0, added, seen)
      requires k < |found| && cyc == found[k] && added == CycleRings(g, counter0, found[..k])
      modifies this
      ensures CyclesSoFar(rings0, sus0, counter0, added', seen')
      ensures added' == CycleRings(g, counter0, found[..k + 1])
      ensures HasNodeSet(added, Elems(cyc)) ==> seen' == seen && added' == added && suspicious == old(suspicious)
      ensures !HasNodeSet(added, Elems(cyc)) ==> added' == added + [CycleRing(g, cyc, counter0 + |added| + 1)]
      ensures Elems(cyc) in seen' && seen <= seen'
    {
      var s := Elems(cyc);
      HasNodeSetIff(added, s);
      if s in seen {
        CycleRingsSkip(g, counter0, found, k);
        return seen, added;
      }
      seen', added' := KeepCycle(cyc, seen, rings0, sus0, counter0, added);
      CycleRingsAdd(g, counter0, found, k, added, added'[|added|]);
    }

    /** A cycle with a new node set: register it and remember its node set. */
    method KeepCycle(cyc: seq<Account>, seen: seq<set<Account>>, ghost rings0: seq<Ring>, ghost sus0: Ledger,
                     ghost counter0: nat, ghost added: seq<Ring>)
      returns (seen': seq<set<Account>>, ghost added': seq<Ring>)
      requires CanonicalCycleOf(g, cyc) && CyclesSoFar(rings0, sus0, counter0, added, seen) && Elems(cyc) !in seen
      modifies this
      ensures CyclesSoFar(rings0, sus0, counter0, added', seen')
      ensures added' == added + [CycleRing(g, cyc, counter0 + |added| + 1)] && seen' == seen + [Elems(cyc)]
    {
      var s := Elems(cyc);
      ghost var sus1 := suspicious;
      var ring := RegisterCycle(cyc, added);
      assert ringCounter == counter0 + |added| + 1;
      assert ring == CycleRing(g, cyc, counter0 + |added| + 1);
      GrowsTransitive(sus0, sus1, suspicious);
      seen', added' := seen + [s], added + [ring];
      CycleFlagsSnoc(g, sus0, added, ring);
      NodeSetsSnoc(added, ring);
      DistinctSnoc(seen, s);
      AppendAssoc(rings0, added, ring);
    }

    /**
     * The body of `detect_cycles` for one kept cycle: a new id, the flow and
     * risk, the ring, the flags. Rings registered before keep their flags.
     */
    method RegisterCycle(cyc: seq<Account>, ghost before: seq<Ring>) returns (ring: Ring)
      requires Valid() && CanonicalCycleOf(g, cyc)
      requires forall r | r in before :: CycleRingOf(g, suspicious, r)
      modifies this
      ensures Valid() && ringCounter == old(ringCounter) + 1
      ensures Grows(old(suspicious), suspicious)
      ensures rings == old(rings) + [ring]
      ensures ring == CycleRing(g, cyc, ringCounter)
      ensures suspicious == FlagEach(g, old(suspicious), cyc, Repeat(CycleLength(|cyc|), |cyc|), ring.id, CycleBase(|cyc|))
      ensures forall r | r in before + [ring] :: CycleRingOf(g, suspicious, r)
    {
      var id := NextRingId();
      var flow := CycleFlow(g, cyc);
      CycleInGraph(g, cyc);
      ring := Ring(id, cyc, Cycle, CycleRisk(flow, |cyc|));
      AddRing(ring);
      ghost var sus1 := suspicious;
      FlagMembers(cyc, Repeat(CycleLength(|cyc|), |cyc|), id, CycleBase(|cyc|));
      assert CycleRingOf(g, suspicious, ring);
      CycleRingsExtend(g, sus1, suspicious, before, ring);
    }

    /**
     * `detect_smurfing`: for each non-hub node, the fan-in check and then
     * the fan-out check. Each check that fires consumes a ring id; it
     * registers a ring only when at least 3 non-hub members remain.
     */
    method DetectSmurfing()
      requires Valid()
      modifies this
      ensures Valid()
      ensures old(rings) <= rings && Grows(old(suspicious), suspicious)
      ensures FanRingsAt(g, suspicious, rings[|old(rings)|..], FanSites(g, |g.nodes|))
      ensures ringCounter == old(ringCounter) + Firings(g, |g.nodes|)
      ensures rings == SmurfRings(g, old(rings), 0, old(ringCounter))
      ensures suspicious == SmurfFlags(g, old(suspicious), 0, old(ringCounter))
    {
      assert rings[|rings|..] == [];
      SmurfNodes(rings, suspicious, ringCounter);
    }

    /** The loop of `detect_smurfing` over the nodes in insertion order. */
    method SmurfNodes(ghost rings0: seq<Ring>, ghost sus0: Ledger, ghost counter0: nat)
      requires SmurfingSoFar(rings0, sus0, counter0, 0)
      modifies this
      ensures SmurfingSoFar(rings0, sus0, counter0, |g.nodes|)
    {
      for k := 0 to |g.nodes|
        invariant SmurfingSoFar(rings0, sus0, counter0, k)
      {
        SmurfNode(k, rings0, sus0, counter0);
      }
    }

    /** The state `detect_smurfing` keeps after its first `k` nodes. */
    ghost predicate SmurfingSoFar(rings0: seq<Ring>, sus0: Ledger, counter0: nat, k: nat)
      reads this
    {
      && Valid() && k <= |g.nodes|
      && rings0 <= rings && Grows(sus0, suspicious)
      && FanRingsAt(g, suspicious, rings[|rings0|..], FanSites(g, k))
      && SmurfProgress(g, rings, suspicious, ringCounter, rings0, sus0, counter0, k)
    }

    /** One pass of the `detect_smurfing` loop, on node `k`. */
    method SmurfNode(k: nat, ghost rings0: seq<Ring>, ghost sus0: Ledger, ghost counter0: nat)
      requires k < |g.nodes| && SmurfingSoFar(rings0, sus0, counter0, k)
      modifies this
      ensures SmurfingSoFar(rings0, sus0, counter0, k + 1)
    {
      var node := g.nodes[k];
      SmurfStep(g, k);
      ghost var r, l, c := rings, suspicious, ringCounter;
      CheckNode(node, rings0, sus0, FanSites(g, k));
      SmurfProgressStep(g, r, l, c, rings, suspicious, ringCounter, rings0, sus0, counter0, k);
    }

    /** The body of the `detect_smurfing` loop: a hub is skipped, any other node is checked on both sides. */
    method CheckNode(node: Account, ghost rings0: seq<Ring>, ghost sus0: Ledger, ghost sites: seq<(Account, Side)>)
      requires Valid() && node in g.stats
      requires rings0 <= rings && Grows(sus0, suspicious)
      requires FanRingsAt(g, suspicious, rings[|rings0|..], sites)
      modifies this
      ensures Valid() && rings0 <= rings && Grows(sus0, suspicious)
      ensures FanRingsAt(g, suspicious, rings[|rings0|..], sites
        + (if Registers(g, node, In) then [(node, In)] else [])
        + (if Registers(g, node, Out) then [(node, Out)] else []))
      ensures rings == NodeRings(g, old(rings), node, old(ringCounter))
      ensures suspicious == NodeFlags(g, old(suspicious), node, old(ringCounter))
      ensures ringCounter == old(ringCounter) + NodeFirings(g, node)
    {
      if IsHub(g, node) {
        HubNode(g, rings, node, ringCounter, suspicious);
        assert sites + [] + [] == sites;
        return;
      }
      FanCheck(node, In, rings0, sus0, sites);
      FanCheck(node, Out, rings0, sus0, sites + (if Registers(g, node, In) then [(node, In)] else []));
    }

    /**
     * One fan check of `detect_smurfing` on a non-hub node: it fires when the
     * node has at least 10 counterparties on that side.
     */
    method FanCheck(node: Account, side: Side, ghost rings0: seq<Ring>, ghost sus0: Ledger,
                    ghost sites: seq<(Account, Side)>)
      requires Valid() && node in g.stats && !IsHub(g, node)
      requires rings0 <= rings && Grows(sus0, suspicious)
      requires FanRingsAt(g, suspicious, rings[|rings0|..], sites)
      modifies this
      ensures Valid() && rings0 <= rings && Grows(sus0, suspicious)
      ensures ringCounter == old(ringCounter) + (if Triggers(g, node, side) then 1 else 0)
      ensures FanRingsAt(g, suspicious, rings[|rings0|..],
                         sites + (if Registers(g, node, side) then [(node, side)] else []))
      ensures rings == old(rings) + CheckRings(g, node, side, old(ringCounter) + 1)
      ensures suspicious == CheckFlags(g, old(suspicious), node, side, old(ringCounter) + 1)
    {
      var cp := Counterparties(g, node, side);
      if |cp| < 10 {
        CheckOutcome(g, node, side, ringCounter + 1, suspicious);
        assert sites + [] == sites && rings + [] == rings;
        return;
      }
      FireCheck(node, side, rings0, sus0, sites);
    }

    /**
     * A fan check that fired: it computes the temporal concentration and
     * base, consumes a ring id, and registers and flags a ring when at least
     * 3 non-hub members remain.
     */
    method FireCheck(node: Account, side: Side, ghost rings0: seq<Ring>, ghost sus0: Ledger,
                     ghost sites: seq<(Account, Side)>)
      requires Valid() && node in g.stats && Triggers(g, node, side)
      requires rings0 <= rings && Grows(sus0, suspicious)
      requires FanRingsAt(g, suspicious, rings[|rings0|..], sites)
      modifies this
      ensures Valid() && rings0 <= rings && Grows(sus0, suspicious)
      ensures ringCounter == old(ringCounter) + 1
      ensures FanRingsAt(g, suspicious, rings[|rings0|..],
                         sites + (if Registers(g, node, side) then [(node, side)] else []))
      ensures rings == old(rings) + CheckRings(g, node, side, ringCounter)
      ensures suspicious == CheckFlags(g, old(suspicious), node, side, ringCounter)
    {
      var t, base := FanInputs(node, side);
      var id := NextRingId();
      var members := FanMembers(g, node, side);
      KeepFan(node, side, id, t, base, members, rings0, sus0, sites);
    }

    /** The temporal concentration of the check's edges and the base score `35 + min(count, 50) * 0.6 + temporal * 15`. */
    method FanInputs(node: Account, side: Side) returns (t: real, base: real)
      requires Valid() && node in g.stats
      ensures t == SideConcentration(g, node, side) && base == SideBase(g, node, side)
      ensures 0.0 <= t <= 1.0 && 35.0 <= base <= 80.0
    {
      var edges := SideEdges(g, node, side);
      t := TemporalConcentration(edges);
      ConcentrationRange(Flatten(edges));
      base := FanBase(|Counterparties(g, node, side)|, t);
    }

    /** The end of a fan check that fired: a ring is registered only when at least 3 non-hub members remain. */
    method KeepFan(node: Account, side: Side, id: RingId, t: real, base: real, members: seq<Account>,
                   ghost rings0: seq<Ring>, ghost sus0: Ledger, ghost sites: seq<(Account, Side)>)
      requires Valid() && node in g.stats && Triggers(g, node, side)
      requires 1 <= id == ringCounter && forall i | 0 <= i < |rings| :: rings[i].id < id
      requires t == SideConcentration(g, node, side) && base == SideBase(g, node, side)
      requires members == FanMembers(g, node, side)
      requires rings0 <= rings && Grows(sus0, suspicious)
      requires FanRingsAt(g, suspicious, rings[|rings0|..], sites)
      modifies this
      ensures Valid() && rings0 <= rings && Grows(sus0, suspicious) && ringCounter == old(ringCounter)
      ensures FanRingsAt(g, suspicious, rings[|rings0|..],
                         sites + (if Registers(g, node, side) then [(node, side)] else []))
      ensures rings == old(rings) + CheckRings(g, node, side, id)
      ensures suspicious == CheckFlags(g, old(suspicious), node, side, id)
    {
      CheckOutcome(g, node, side, id, suspicious);
      if |members| < 3 {
        assert sites + [] == sites && rings + [] == rings;
        return;
      }
      RegisterFan(node, side, id, t, base, members, rings0, sus0, sites);
    }

    /** The ring of a fan check that kept at least 3 members: append it, then flag every member with every label. */
    method RegisterFan(node: Account, side: Side, id: RingId, t: real, base: real, members: seq<Account>,
                       ghost rings0: seq<Ring>, ghost sus0: Ledger, ghost sites: seq<(Account, Side)>)
      requires Valid() && node in g.stats && Registers(g, node, side)
      requires 1 <= id == ringCounter && forall i | 0 <= i < |rings| :: rings[i].id < id
      requires t == SideConcentration(g, node, side) && base == SideBase(g, node, side)
      requires members == FanMembers(g, node, side)
      requires rings0 <= rings && Grows(sus0, suspicious)
      requires FanRingsAt(g, suspicious, rings[|rings0|..], sites)
      modifies this
      ensures Valid() && rings0 <= rings && Grows(sus0, suspicious) && ringCounter == old(ringCounter)
      ensures FanRingsAt(g, suspicious, rings[|rings0|..], sites + [(node, side)])
      ensures rings == old(rings) + [FanRing(g, node, side, id)]
      ensures suspicious == FlagFan(old(suspicious), members, SidePatterns(g, node, side), id, SideShare(g, node, side))
    {
      ghost var sus1, rings1 := suspicious, rings;
      var ring := Ring(id, members, Smurfing, Min(100.0, base));
      AddRing(ring);
      var pats := FanPatterns(side, t);
      FlagFanMembers(members, pats, id, FanShare(base, |pats|));
      GrowsTransitive(sus0, sus1, suspicious);
      FanRingsStay(g, sus1, suspicious, rings1[|rings0|..], sites);
      FanRingsAppend(g, suspicious, rings1[|rings0|..], sites, ring, node, side);
      SliceAppend(rings1, ring, |rings0|);
    }

    /** `self.rings.append(...)` of a ring holding the id just handed out. */
    method AddRing(ring: Ring)
      requires Valid() && RingOk(g, ring, ringCounter)
      requires forall i | 0 <= i < |rings| :: rings[i].id < ring.id
      modifies this
      ensures rings == old(rings) + [ring]
      ensures suspicious == old(suspicious) && ringCounter == old(ringCounter)
      ensures Valid()
    {
      rings := rings + [ring];
    }

    /** `for acc in members: for pat in patterns: _flag_account(acc, pat, ring_id, share)`. */
    method FlagFanMembers(ms: seq<Account>, pats: seq<Label>, id: RingId, share: real)
      requires Valid() && 1 <= id <= ringCounter && share >= 0.0 && |pats| > 0
      requires forall a | a in ms :: a in g.stats && !IsHub(g, a)
      modifies this
      ensures rings == old(rings) && ringCounter == old(ringCounter)
      ensures Valid() && Grows(old(suspicious), suspicious)
      ensures suspicious == FlagFan(old(suspicious), ms, pats, id, share)
      ensures FlaggedWithAll(g, suspicious, ms, pats, share)
    {
      for i := 0 to |ms|
        invariant rings == old(rings) && ringCounter == old(ringCounter)
        invariant Valid() && Grows(old(suspicious), suspicious)
        invariant suspicious == FlagFan(old(suspicious), ms[..i], pats, id, share)
        invariant forall k | 0 <= k < |pats| :: FlaggedUpTo(g, suspicious, ms, Repeat(pats[k], |ms|), share, i)
      {
        ghost var before := suspicious;
        FlagFanStep(old(suspicious), ms, pats, id, share, i);
        FlagPatterns(ms[i], pats, id, share);
        GrowsTransitive(old(suspicious), before, suspicious);
        forall k | 0 <= k < |pats| ensures FlaggedUpTo(g, suspicious, ms, Repeat(pats[k], |ms|), share, i + 1) {
          FlaggedNext(g, before, suspicious, ms, Repeat(pats[k], |ms|), share, i);
        }
      }
      assert ms[..|ms|] == ms;
    }

    /** The inner loop: flag one account once per label. */
    method FlagPatterns(acc: Account, pats: seq<Label>, id: RingId, share: real)
      requires Valid() && acc in g.stats && !IsHub(g, acc) && 1 <= id <= ringCounter && share >= 0.0
      requires |pats| > 0
      modifies this
      ensures rings == old(rings) && ringCounter == old(ringCounter)
      ensures Valid() && Grows(old(suspicious), suspicious)
      ensures suspicious == FlagLabels(old(suspicious), acc, pats, id, share)
      ensures Listed(suspicious, acc, pats, share)
    {
      for j := 0 to |pats|
        invariant rings == old(rings) && ringCounter == old(ringCounter)
        invariant Valid() && Grows(old(suspicious), suspicious)
        invariant suspicious == FlagLabels(old(suspicious), acc, pats[..j], id, share)
        invariant j > 0 ==> Listed(suspicious, acc, pats[..j], share)
        invariant j == |pats| ==> Listed(suspicious, acc, pats, share)
      {
        ghost var before := suspicious;
        FlagLabelsStep(old(suspicious), acc, pats, id, share, j);
        FlagAccount(acc, pats[j], id, share);
        GrowsTransitive(old(suspicious), before, suspicious);
        ListedNext(before, suspicious, acc, pats, j, share);
      }
      assert pats[..|pats|] == pats;
    }

    /** The `shell_candidates` loop: the nodes taking part in 2 or 3 transactions. */
    method ShellCandidates() returns (cands: set<Account>)
      requires Valid()
      ensures forall a :: a in cands <==> a in g.stats && IsShell(g, a)
    {
      cands := {};
      for k := 0 to |g.nodes|
        invariant forall a :: a in cands <==> a in g.nodes[..k] && a in g.stats && IsShell(g, a)
      {
        var node := g.nodes[k];
        assert g.nodes[..k + 1] == g.nodes[..k] + [node];
        var tc := g.stats[node].txCount;
        if 2 <= tc <= 3 {
          cands := cands + {node};
        }
      }
      assert g.nodes[..|g.nodes|] == g.nodes;
    }

    /**
     * `detect_shell_networks`: when there is at least one shell candidate,
     * search from every non-candidate node, sharing the list of node sets
     * already registered.
     */
    method DetectShellNetworks()
      requires Valid()
      modifies this
      ensures Valid()
      ensures old(rings) <= rings && Grows(old(suspicious), suspicious)
      ensures ringCounter == old(ringCounter) + (|rings| - |old(rings)|)
      ensures ShellSet(g) == {} ==> rings == old(rings) && suspicious == old(suspicious)
      ensures ShellSet(g) != {} ==> rings[|old(rings)|..] == ShellNetworks(g, ShellSet(g), 0, [], old(ringCounter))
      ensures forall r | r in rings[|old(rings)|..] ::
        ShellRingShape(g, ShellSet(g), r) && ShellRingFlagged(g, suspicious, ShellSet(g), r)
      ensures suspicious == ShellFlags(g, old(suspicious), ShellSet(g), rings[|old(rings)|..])
      ensures Distinct(NodeSets(rings[|old(rings)|..]))
    {
      var cands := ShellCandidates();
      assert cands == ShellSet(g);
      if cands == {} {
        assert rings[|old(rings)|..] == [];
        return;
      }
      var chains: seq<set<Account>> := [];
      ghost var added: seq<Ring> := [];
      for k := 0 to |g.nodes|
        invariant ShellsSoFar(old(rings), old(suspicious), old(ringCounter), cands, added, chains)
        invariant ShellNetworks(g, cands, k, added, old(ringCounter)) == ShellNetworks(g, cands, 0, [], old(ringCounter))
      {
        var start := g.nodes[k];
        if start in cands {
          continue;
        }
        chains, added := FindShellChains(start, cands, chains, old(rings), old(suspicious), old(ringCounter), added);
      }
      assert rings[|old(rings)|..] == added;
    }

    /** The state `detect_shell_networks` keeps between searches and between stack frames. */
    ghost predicate ShellsSoFar(rings0: seq<Ring>, sus0: Ledger, counter0: nat, cands: set<Account>,
                                added: seq<Ring>, chains: seq<set<Account>>)
      reads this
    {
      && Valid()
      && rings == rings0 + added && Grows(sus0, suspicious)
      && ringCounter == counter0 + |added|
      && chains == NodeSets(added) && Distinct(chains)
      && (forall r | r in added :: ShellRingShape(g, cands, r) && ShellRingFlagged(g, suspicious, cands, r))
      && suspicious == ShellFlags(g, sus0, cands, added)
    }

    /**
     * `_find_shell_chains` from a non-candidate `start`: a depth-first search
     * over simple paths of at most 7 accounts, registering each qualifying
     * path whose node set is new. Paths of 7 accounts are never pushed, so
     * every frame holds at most 6 accounts and the `len(path) > 6` guard of
     * the source never fires; it is not written here.
     */
    method FindShellChains(start: Account, cands: set<Account>, chains: seq<set<Account>>,
                           ghost rings0: seq<Ring>, ghost sus0: Ledger, ghost counter0: nat, ghost added: seq<Ring>)
      returns (chains': seq<set<Account>>, ghost added': seq<Ring>)
      requires start in g.stats && start !in cands
      requires ShellsSoFar(rings0, sus0, counter0, cands, added, chains)
      modifies this
      ensures ShellsSoFar(rings0, sus0, counter0, cands, added', chains')
      ensures added' == ShellSearch(g, start, cands, StartStack(start), added, counter0)
    {
      chains', added' := chains, added;
      var stack := [Frame(start, [start], 0)];
      StartStackOk(g, start, cands);
      while stack != []
        invariant ShellsSoFar(rings0, sus0, counter0, cands, added', chains')
        invariant ShellStackOk(g, start, cands, stack)
        invariant ShellSearch(g, start, cands, stack, added', counter0) == ShellSearch(g, start, cands, StartStack(start), added, counter0)
        decreases Count(stack, 1), Count(stack, 2), Count(stack, 3), Count(stack, 4), Count(stack, 5), Count(stack, 6)
      {
        var f := stack[|stack| - 1];
        stack := stack[..|stack| - 1];
        ghost var popped := stack;
        CountPop(popped, f);
        assert ShellFrameOk(g, start, cands, f);
        stack, chains', added' := ExpandShellFrame(start, cands, f, stack, chains', rings0, sus0, counter0, added');
      }
    }

    /** The successors of one popped frame, in the order of its node's `receivers`. */
    method ExpandShellFrame(start: Account, cands: set<Account>, f: Frame, stack0: seq<Frame>,
                            chains0: seq<set<Account>>, ghost rings0: seq<Ring>, ghost sus0: Ledger,
                            ghost counter0: nat, ghost added0: seq<Ring>)
      returns (stack: seq<Frame>, chains: seq<set<Account>>, ghost added: seq<Ring>)
      requires ShellFrameOk(g, start, cands, f)
      requires ShellsSoFar(rings0, sus0, counter0, cands, added0, chains0)
      requires ShellStackOk(g, start, cands, stack0)
      modifies this
      ensures ShellsSoFar(rings0, sus0, counter0, cands, added, chains)
      ensures ShellStackOk(g, start, cands, stack)
      ensures forall n :: 1 <= n <= |f.path| ==> Count(stack, n) == Count(stack0, n)
      ensures f.curr in g.stats
      ensures added == FrameRings(cands, f, g.stats[f.curr].receivers, 0, added0, counter0)
      ensures stack == FrameStack(cands, f, g.stats[f.curr].receivers, 0, stack0)
    {
      stack, chains, added := stack0, chains0, added0;
      assert f.curr in f.path;
      assert NodeOk(g, f.curr);
      var succ := g.stats[f.curr].receivers;
      for k := 0 to |succ|
        invariant ShellsSoFar(rings0, sus0, counter0, cands, added, chains)
        invariant ShellStackOk(g, start, cands, stack)
        invariant forall n :: 1 <= n <= |f.path| ==> Count(stack, n) == Count(stack0, n)
        invariant FrameRings(cands, f, succ, k, added, counter0) == FrameRings(cands, f, succ, 0, added0, counter0)
        invariant FrameStack(cands, f, succ, k, stack) == FrameStack(cands, f, succ, 0, stack0)
      {
        assert (f.curr, succ[k]) in g.edges;
        ghost var stack1, chains1, added1 := stack, chains, added;
        stack, chains, added := VisitSuccessor(start, cands, f, succ[k], stack, chains, stack0,
                                               rings0, sus0, counter0, added);
        VisitCases(cands, f, succ, k, succ[k], stack1, stack, chains1, added1, added, counter0);
      }
    }

    /**
     * One successor of the popped frame: skip it if it is on the path;
     * otherwise register the extended path if it qualifies and its node set
     * is new, and push it while it has fewer than 7 accounts.
     */
    method VisitSuccessor(start: Account, cands: set<Account>, f: Frame, nbr: Account, stack: seq<Frame>,
                          chains: seq<set<Account>>, ghost popped: seq<Frame>,
                          ghost rings0: seq<Ring>, ghost sus0: Ledger, ghost counter0: nat, ghost added: seq<Ring>)
      returns (stack': seq<Frame>, chains': seq<set<Account>>, ghost added': seq<Ring>)
      requires ShellFrameOk(g, start, cands, f) && (f.curr, nbr) in g.edges
      requires ShellsSoFar(rings0, sus0, counter0, cands, added, chains)
      requires ShellStackOk(g, start, cands, stack)
      requires forall n :: 1 <= n <= |f.path| ==> Count(stack, n) == Count(popped, n)
      modifies this
      ensures ShellsSoFar(rings0, sus0, counter0, cands, added', chains')
      ensures ShellStackOk(g, start, cands, stack')
      ensures forall n :: 1 <= n <= |f.path| ==> Count(stack', n) == Count(popped, n)
      ensures nbr in f.path ==> stack' == stack && chains' == chains && added' == added
      ensures nbr !in f.path && Qualifies(cands, f.path + [nbr]) && Elems(f.path + [nbr]) !in chains ==>
        && chains' == chains + [Elems(f.path + [nbr])]
        && added' == added + [ShellRing(cands, f.path + [nbr], counter0 + |added| + 1)]
      ensures nbr !in f.path && !(Qualifies(cands, f.path + [nbr]) && Elems(f.path + [nbr]) !in chains) ==>
        chains' == chains && added' == added
      ensures nbr !in f.path && |f.path| + 1 < 7 ==>
        stack' == stack + [Frame(nbr, f.path + [nbr], f.aux + if nbr in cands then 1 else 0)]
      ensures nbr !in f.path && |f.path| + 1 >= 7 ==> stack' == stack
    {
      stack', chains', added' := stack, chains, added;
      if nbr in f.path {
        return;
      }
      var newPath := f.path + [nbr];
      var newShell := f.aux + if nbr in cands then 1 else 0;
      ExtendFrame(g, start, cands, f, nbr);
      assert newPath[0] == start;
      chains', added' := ConsiderChain(newPath, cands, chains, rings0, sus0, counter0, added);
      if |newPath| < 7 {
        PushExtended(g, start, cands, f, nbr, stack, popped);
        stack' := stack + [Frame(nbr, newPath, newShell)];
      }
    }

    /** The registration test on an extended path: it must qualify and its node set must be new. */
    method ConsiderChain(p: seq<Account>, cands: set<Account>, chains: seq<set<Account>>,
                         ghost rings0: seq<Ring>, ghost sus0: Ledger, ghost counter0: nat, ghost added: seq<Ring>)
      returns (chains': seq<set<Account>>, ghost added': seq<Ring>)
      requires 2 <= |p| <= 7 && Distinct(p) && IsPath(g, p) && p[0] !in cands && forall a | a in p :: a in g.stats
      requires ShellsSoFar(rings0, sus0, counter0, cands, added, chains)
      modifies this
      ensures ShellsSoFar(rings0, sus0, counter0, cands, added', chains')
      ensures Qualifies(cands, p) && Elems(p) !in chains ==>
        chains' == chains + [Elems(p)] && added' == added + [ShellRing(cands, p, counter0 + |added| + 1)]
      ensures !(Qualifies(cands, p) && Elems(p) !in chains) ==> chains' == chains && added' == added
    {
      chains', added' := chains, added;
      if Qualifies(cands, p) {
        var chainSet := Elems(p);
        if chainSet !in chains {
          chains', added' := RegisterChain(p, cands, chains, rings0, sus0, counter0, added);
        }
      }
    }

    /** Registration of a qualifying chain with a new node set: a new id, the ring, and the flags of its non-hub members. */
    method RegisterChain(p: seq<Account>, cands: set<Account>, chains: seq<set<Account>>,
                         ghost rings0: seq<Ring>, ghost sus0: Ledger, ghost counter0: nat, ghost added: seq<Ring>)
      returns (chains': seq<set<Account>>, ghost added': seq<Ring>)
      requires LayeringChain(g, cands, p) && Elems(p) !in chains
      requires ShellsSoFar(rings0, sus0, counter0, cands, added, chains)
      modifies this
      ensures ShellsSoFar(rings0, sus0, counter0, cands, added', chains')
      ensures chains' == chains + [Elems(p)]
      ensures added' == added + [ShellRing(cands, p, counter0 + |added| + 1)]
    {
      chains' := chains + [Elems(p)];
      var id := NextRingId();
      var shells := ShellCount(cands, Interior(p));
      var ring := Ring(id, p, Layering, LayeringRisk(shells, |p|));
      assert id == counter0 + |added| + 1;
      assert ring == ShellRing(cands, p, counter0 + |added| + 1);
      ghost var sus1 := suspicious;
      AddRing(ring);
      FlagMembers(p, ShellLabels(cands, p), id, ShellBase(shells));
      GrowsTransitive(sus0, sus1, suspicious);
      added' := added + [ring];
      assert ShellRingShape(g, cands, ring) && ShellRingFlagged(g, suspicious, cands, ring);
      ShellRingsExtend(g, sus1, suspicious, cands, added, ring);
      ShellFlagsSnoc(g, sus0, cands, added, ring);
      NodeSetsSnoc(added, ring);
      DistinctSnoc(chains, Elems(p));
      AppendAssoc(rings0, added, ring);
    }

    /**
     * `detect_high_velocity`: every non-hub node with at least 5 timestamps
     * whose rate over its sorted span exceeds 5 per hour, and that is already
     * flagged, gets `high_velocity` appended and 15 more points, capped at 100.
     */
    method DetectHighVelocity()
      requires Valid()
      modifies this
      ensures Valid()
      ensures rings == old(rings) && ringCounter == old(ringCounter)
      ensures suspicious == VelocityPass(g, old(suspicious), |g.nodes|)
    {
      for k := 0 to |g.nodes|
        invariant rings == old(rings) && ringCounter == old(ringCounter)
        invariant suspicious == VelocityPass(g, old(suspicious), k)
      {
        var node := g.nodes[k];
        VelocityStep(g, old(suspicious), k);
        var fast := FastNode(node);
        if fast && node in suspicious.entries {
          suspicious := Amplify(suspicious, node);
        }
      }
      VelocityPassGrows(g, old(suspicious), |g.nodes|);
    }

    /** The tests `detect_high_velocity` makes on one node: not a hub, at least 5 timestamps, rate above 5 per hour. */
    method FastNode(node: Account) returns (fast: bool)
      requires WF(g) && node in g.stats
      ensures fast == Fast(g, node)
    {
      if IsHub(g, node) {
        return false;
      }
      var ts := Sort(g.stats[node].timestamps);
      if |ts| < 5 {
        return false;
      }
      var span := ts[|ts| - 1] - ts[0];
      if span <= 0 {
        span := 1;
      }
      fast := RateAbove(|ts|, span);
    }

    /**
     * `run`: the four detectors in order, then the reconciliation and the
     * report. `cycleRings`, `fanRings` and `shellRings` are the rings each
     * detector registered; `scanned` is the suspicious ledger after the
     * three structural detectors and `flagged` the one after the velocity
     * pass, before reconciliation.
     */
    method Run(enumerated: Option<seq<seq<Account>>>)
      returns (report: Report, ghost found: seq<seq<Account>>, ghost cycleRings: seq<Ring>, ghost fanRings: seq<Ring>,
               ghost shellRings: seq<Ring>, ghost scanned: Ledger, ghost flagged: Ledger,
               ghost fansFrom: nat, ghost shellsFrom: nat)
      requires Valid()
      requires enumerated.Some? ==> forall c | c in enumerated.value :: IsCycle(g, c)
      modifies this
      ensures Grows(old(suspicious), scanned) && flagged == VelocityPass(g, scanned, |g.nodes|)
      ensures forall r | r in cycleRings :: CycleRingOf(g, scanned, r)
      ensures Distinct(NodeSets(cycleRings))
      ensures enumerated.Some? ==> CoversCycles(CanonicalForms(enumerated.value), cycleRings)
      ensures FanRingsAt(g, scanned, fanRings, FanSites(g, |g.nodes|))
      ensures forall r | r in shellRings ::
        ShellRingShape(g, ShellSet(g), r) && ShellRingFlagged(g, scanned, ShellSet(g), r)
      ensures Distinct(NodeSets(shellRings))
      ensures fansFrom == old(ringCounter) + |cycleRings| && shellsFrom == fansFrom + Firings(g, |g.nodes|)
      ensures ringCounter == shellsFrom + |shellRings|
      ensures enumerated.Some? ==> forall c :: c in found <==> c in CanonicalForms(enumerated.value)
      ensures cycleRings == CycleRings(g, old(ringCounter), found)
      ensures old(rings) + cycleRings + fanRings == SmurfRings(g, old(rings) + cycleRings, 0, fansFrom)
      ensures ShellSet(g) == {} ==> shellRings == []
      ensures ShellSet(g) != {} ==> shellRings == ShellNetworks(g, ShellSet(g), 0, [], shellsFrom)
      ensures scanned == ShellFlags(g, SmurfFlags(g, CycleFlags(g, old(suspicious), cycleRings), 0, fansFrom), ShellSet(g), shellRings)
      ensures rings == Survivors(old(rings) + cycleRings + fanRings + shellRings)
      ensures LedgerOk(suspicious)
      ensures suspicious.entries.Keys == flagged.entries.Keys * Members(old(rings) + cycleRings + fanRings + shellRings)
      ensures forall a | a in suspicious.entries ::
        suspicious.entries[a] == flagged.entries[a].(ringId := FirstId(old(rings) + cycleRings + fanRings + shellRings, a))
      ensures suspicious.order == ClaimedOnly(flagged.order, ClaimAll(old(rings) + cycleRings + fanRings + shellRings).0)
      ensures report.suspiciousAccounts == Ranked(suspicious)
      ensures report.fraudRings == rings
      ensures report.summary == Summary(|g.nodes|, |suspicious.order|, |rings|)
      ensures report.nodes == NodeViews(g, suspicious, rings)
      ensures report.edges == EdgeViews(g)
    {
      found, cycleRings, fanRings, shellRings, scanned, fansFrom, shellsFrom := DetectAll(enumerated);
      flagged := suspicious;
      report := Reconcile();
    }

    /** The four detector calls at the head of `run`. */
    method DetectAll(enumerated: Option<seq<seq<Account>>>)
      returns (ghost found: seq<seq<Account>>, ghost cycleRings: seq<Ring>, ghost fanRings: seq<Ring>,
               ghost shellRings: seq<Ring>, ghost scanned: Ledger, ghost fansFrom: nat, ghost shellsFrom: nat)
      requires Valid()
      requires enumerated.Some? ==> forall c | c in enumerated.value :: IsCycle(g, c)
      modifies this
      ensures Valid()
      ensures rings == old(rings) + cycleRings + fanRings + shellRings
      ensures Grows(old(suspicious), scanned) && suspicious == VelocityPass(g, scanned, |g.nodes|)
      ensures forall r | r in cycleRings :: CycleRingOf(g, scanned, r)
      ensures Distinct(NodeSets(cycleRings))
      ensures enumerated.Some? ==> CoversCycles(CanonicalForms(enumerated.value), cycleRings)
      ensures FanRingsAt(g, scanned, fanRings, FanSites(g, |g.nodes|))
      ensures forall r | r in shellRings ::
        ShellRingShape(g, ShellSet(g), r) && ShellRingFlagged(g, scanned, ShellSet(g), r)
      ensures Distinct(NodeSets(shellRings))
      ensures fansFrom == old(ringCounter) + |cycleRings| && shellsFrom == fansFrom + Firings(g, |g.nodes|)
      ensures ringCounter == shellsFrom + |shellRings|
      ensures enumerated.Some? ==> forall c :: c in found <==> c in CanonicalForms(enumerated.value)
      ensures cycleRings == CycleRings(g, old(ringCounter), found)
      ensures old(rings) + cycleRings + fanRings == SmurfRings(g, old(rings) + cycleRings, 0, fansFrom)
      ensures ShellSet(g) == {} ==> shellRings == []
      ensures ShellSet(g) != {} ==> shellRings == ShellNetworks(g, ShellSet(g), 0, [], shellsFrom)
      ensures scanned == ShellFlags(g, SmurfFlags(g, CycleFlags(g, old(suspicious), cycleRings), 0, fansFrom), ShellSet(g), shellRings)
    {
      found, cycleRings, fanRings, fansFrom := DetectCyclesAndFans(enumerated);
      ghost var rings2, sus2 := rings, suspicious;
      shellsFrom := ringCounter;
      DetectShellNetworks();
      shellRings := rings[|rings2|..];
      scanned := suspicious;
      Segment(rings2, rings);
      CycleRingsStay(g, sus2, scanned, cycleRings);
      FanRingsStay(g, sus2, scanned, fanRings, FanSites(g, |g.nodes|));
      GrowsTransitive(old(suspicious), sus2, scanned);
      DetectHighVelocity();
    }

    /** The first two detector calls of `run`: cycles, then smurfing. */
    method DetectCyclesAndFans(enumerated: Option<seq<seq<Account>>>)
      returns (ghost found: seq<seq<Account>>, ghost cycleRings: seq<Ring>, ghost fanRings: seq<Ring>, ghost fansFrom: nat)
      requires Valid()
      requires enumerated.Some? ==> forall c | c in enumerated.value :: IsCycle(g, c)
      modifies this
      ensures Valid()
      ensures rings == old(rings) + cycleRings + fanRings
      ensures enumerated.Some? ==> forall c :: c in found <==> c in CanonicalForms(enumerated.value)
      ensures cycleRings == CycleRings(g, old(ringCounter), found)
      ensures fansFrom == old(ringCounter) + |cycleRings|
      ensures rings == SmurfRings(g, old(rings) + cycleRings, 0, fansFrom)
      ensures suspicious == SmurfFlags(g, CycleFlags(g, old(suspicious), cycleRings), 0, fansFrom)
      ensures Grows(old(suspicious), suspicious)
      ensures forall r | r in cycleRings :: CycleRingOf(g, suspicious, r)
      ensures Distinct(NodeSets(cycleRings))
      ensures enumerated.Some? ==> CoversCycles(CanonicalForms(enumerated.value), cycleRings)
      ensures FanRingsAt(g, suspicious, fanRings, FanSites(g, |g.nodes|))
      ensures ringCounter == fansFrom + Firings(g, |g.nodes|)
    {
      ghost var rings0 := rings;
      found := DetectCycles(enumerated);
      cycleRings := rings[|rings0|..];
      ghost var rings1, sus1 := rings, suspicious;
      fansFrom := ringCounter;
      assert rings1 == old(rings) + cycleRings && sus1 == CycleFlags(g, old(suspicious), cycleRings);
      DetectSmurfing();
      fanRings := rings[|rings1|..];
      assert rings == SmurfRings(g, rings1, 0, fansFrom) && suspicious == SmurfFlags(g, sus1, 0, fansFrom);
      Segment(rings0, rings1);
      Segment(rings1, rings);
      CycleRingsStay(g, sus1, suspicious, cycleRings);
      GrowsTransitive(old(suspicious), sus1, suspicious);
    }

    /**
     * The tail of `run`: claim accounts ring by ring, keep the rings left
     * with at least two members, move each claimed entry to its ring and
     * drop the rest, then rank the entries and build the graph views.
     */
    method Reconcile() returns (report: Report)
      requires Valid()
      modifies this
      ensures rings == Survivors(old(rings)) && ringCounter == old(ringCounter)
      ensures LedgerOk(suspicious)
      ensures suspicious.entries.Keys == old(suspicious).entries.Keys * Members(old(rings))
      ensures forall a | a in suspicious.entries ::
        suspicious.entries[a] == old(suspicious).entries[a].(ringId := FirstId(old(rings), a))
      ensures suspicious.order == ClaimedOnly(old(suspicious).order, ClaimAll(old(rings)).0)
      ensures report.suspiciousAccounts == Ranked(suspicious)
      ensures report.fraudRings == rings
      ensures report.summary == Summary(|g.nodes|, |suspicious.order|, |rings|)
      ensures report.nodes == NodeViews(g, suspicious, rings)
      ensures report.edges == EdgeViews(g)
    {
      var claimed, kept := ClaimRings(rings);
      ReconciledLedger(suspicious, rings);
      rings := kept;
      suspicious := RetainClaimed(suspicious, claimed);

      var ranked := Ranked(suspicious);
      var membership := BuildMembership(rings);
      var nodes := BuildNodeViews(g, suspicious, rings, membership);
      var edges := BuildEdgeViews(g);
      report := Report(ranked, rings, Summary(|g.nodes|, |ranked|, |rings|), nodes, edges);
    }
  }
}
