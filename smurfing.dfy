/**
 * What `detect_smurfing` computes, node by node: the rings each fan check
 * registers, the ids they consume and the flags they leave in the ledger.
 */
module Smurfing {
  import opened Types
  import opened TxGraph
  import opened Hub
  import opened Scoring
  import opened Temporal
  import opened Fans
  import opened Flagging

  /** `_temporal_concentration` of a fan check's edges; it lies in [0, 1]. */
  function SideConcentration(g: Graph, a: Account, side: Side): (r: real)
    requires WF(g) && a in g.stats
    ensures 0.0 <= r <= 1.0
  {
    ConcentrationRange(Flatten(SideEdges(g, a, side)));
    Concentration(Flatten(SideEdges(g, a, side)))
  }

  /** The `base` of a fan check; it lies in [35, 80]. */
  function SideBase(g: Graph, a: Account, side: Side): (r: real)
    requires WF(g) && a in g.stats
    ensures 35.0 <= r <= 80.0
  {
    FanBase(|Counterparties(g, a, side)|, SideConcentration(g, a, side))
  }

  /** The labels of the fan check of `a` on one side. */
  function SidePatterns(g: Graph, a: Account, side: Side): seq<Label>
    requires WF(g) && a in g.stats
  {
    FanPatterns(side, SideConcentration(g, a, side))
  }

  /** What each flag of the fan check of `a` adds: `base * 0.7 / len(patterns)`. */
  function SideShare(g: Graph, a: Account, side: Side): (r: real)
    requires WF(g) && a in g.stats
    ensures r >= 0.0
  {
    FanShare(SideBase(g, a, side), |SidePatterns(g, a, side)|)
  }

  /** The ring the fan check of `a` on one side registers under id `id`. */
  function FanRing(g: Graph, a: Account, side: Side, id: RingId): Ring
    requires WF(g) && a in g.stats
  {
    Ring(id, FanMembers(g, a, side), Smurfing, Min(100.0, SideBase(g, a, side)))
  }

  /** The rings one fan check appends: its ring when it registers one, else none. */
  function CheckRings(g: Graph, a: Account, side: Side, id: RingId): seq<Ring>
    requires WF(g) && a in g.stats
  {
    if Registers(g, a, side) then [FanRing(g, a, side, id)] else []
  }

  /** The ledger after one fan check: every member flagged with every label when it registers, else unchanged. */
  function CheckFlags(g: Graph, l: Ledger, a: Account, side: Side, id: RingId): Ledger
    requires WF(g) && a in g.stats
  {
    if Registers(g, a, side)
    then FlagFan(l, FanMembers(g, a, side), SidePatterns(g, a, side), id, SideShare(g, a, side))
    else l
  }

  /** The id the fan-out check of `a` receives when `before` ids were consumed before `a`. */
  function OutId(g: Graph, a: Account, before: nat): RingId
    requires WF(g) && a in g.stats
  {
    before + (if Triggers(g, a, In) then 1 else 0) + 1
  }

  /** How many ids the two checks of node `a` consume. */
  function NodeFirings(g: Graph, a: Account): nat
    requires WF(g) && a in g.stats
  {
    (if Triggers(g, a, In) then 1 else 0) + (if Triggers(g, a, Out) then 1 else 0)
  }

  /** `acc` with the rings the two checks of node `a` append, the counter standing at `before`. */
  function NodeRings(g: Graph, acc: seq<Ring>, a: Account, before: nat): seq<Ring>
    requires WF(g) && a in g.stats
  {
    acc + CheckRings(g, a, In, before + 1) + CheckRings(g, a, Out, OutId(g, a, before))
  }

  /** The ledger after the two checks of node `a`, the counter standing at `before`. */
  function NodeFlags(g: Graph, l: Ledger, a: Account, before: nat): Ledger
    requires WF(g) && a in g.stats
  {
    CheckFlags(g, CheckFlags(g, l, a, In, before + 1), a, Out, OutId(g, a, before))
  }

  /**
   * The ring list after `detect_smurfing` has checked the nodes from `k` on,
   * starting from `acc` with the counter standing at `counter`.
   */
  function SmurfRings(g: Graph, acc: seq<Ring>, k: nat, counter: nat): seq<Ring>
    requires WF(g) && k <= |g.nodes|
    decreases |g.nodes| - k
  {
    if k == |g.nodes| then acc
    else
      var a := g.nodes[k];
      assert a in g.stats;
      SmurfRings(g, NodeRings(g, acc, a, counter), k + 1, counter + NodeFirings(g, a))
  }

  /** The ledger after `detect_smurfing` has checked the nodes from `k` on, the counter standing at `counter`. */
  function SmurfFlags(g: Graph, l: Ledger, k: nat, counter: nat): Ledger
    requires WF(g) && k <= |g.nodes|
    decreases |g.nodes| - k
  {
    if k == |g.nodes| then l
    else
      var a := g.nodes[k];
      assert a in g.stats;
      SmurfFlags(g, NodeFlags(g, l, a, counter), k + 1, counter + NodeFirings(g, a))
  }

  /** The ids of a list of rings. */
  function Ids(rs: seq<Ring>): (r: seq<nat>)
    ensures |r| == |rs| && forall i :: 0 <= i < |rs| ==> r[i] == rs[i].id
  {
    seq(|rs|, i requires 0 <= i < |rs| => rs[i].id)
  }

  lemma IdsConcat(a: seq<Ring>, b: seq<Ring>)
    ensures Ids(a + b) == Ids(a) + Ids(b)
  {
  }

  /** One fan check hands its ring, if any, the id it was given. */
  lemma CheckRingIds(g: Graph, a: Account, side: Side, id: RingId)
    requires WF(g) && a in g.stats
    ensures Registers(g, a, side) ==> Ids(CheckRings(g, a, side, id)) == [id] && Triggers(g, a, side)
    ensures !Registers(g, a, side) ==> Ids(CheckRings(g, a, side, id)) == []
  {
  }

  /**
   * Two checks that consume the ids after `before` and register at most one
   * ring each, the second check's ring numbered after the first check's id.
   */
  lemma TwoIds(s: seq<nat>, x: seq<nat>, y: seq<nat>, lo: nat, before: nat, tin: bool, tout: bool, rin: bool, rout: bool)
    requires IncreasingAbove(s, lo) && AtMost(s, before) && lo <= before
    requires (rin ==> tin) && (rout ==> tout)
    requires x == if rin then [before + 1] else []
    requires y == if rout then [before + (if tin then 1 else 0) + 1] else []
    ensures IncreasingAbove(s + x + y, lo)
    ensures AtMost(s + x + y, before + (if tin then 1 else 0) + (if tout then 1 else 0))
  {
    var m := before + (if tin then 1 else 0);
    IncreasingJoin(s, x, lo, before, m);
    IncreasingJoin(s + x, y, lo, m, m + (if tout then 1 else 0));
  }

  /** `s` is strictly increasing and every element exceeds `lo`. */
  predicate IncreasingAbove(s: seq<nat>, lo: nat)
  {
    && (forall i, j | 0 <= i < j < |s| :: s[i] < s[j])
    && (forall i | 0 <= i < |s| :: lo < s[i])
  }

  /** Every element of `s` is at most `top`. */
  predicate AtMost(s: seq<nat>, top: nat)
  {
    forall i | 0 <= i < |s| :: s[i] <= top
  }

  lemma IncreasingJoin(s: seq<nat>, t: seq<nat>, lo: nat, m: nat, top: nat)
    requires IncreasingAbove(s, lo) && AtMost(s, m) && IncreasingAbove(t, m) && AtMost(t, top)
    requires lo <= m <= top
    ensures IncreasingAbove(s + t, lo) && AtMost(s + t, top)
  {
  }

  /**
   * The smurfing loop keeps the ring list's ids strictly increasing: each
   * ring it appends carries one more than the ids consumed before its check,
   * the checks that kept fewer than 3 members included. The rings already
   * listed stay in front.
   */
  lemma {:induction false} SmurfRingIds(g: Graph, acc: seq<Ring>, k: nat, counter: nat, lo: nat)
    requires WF(g) && k <= |g.nodes|
    requires IncreasingAbove(Ids(acc), lo) && AtMost(Ids(acc), counter) && lo <= counter
    decreases |g.nodes| - k
    ensures acc <= SmurfRings(g, acc, k, counter)
    ensures IncreasingAbove(Ids(SmurfRings(g, acc, k, counter)), lo)
  {
    if k < |g.nodes| {
      var a := g.nodes[k];
      assert a in g.stats;
      var next := counter + NodeFirings(g, a);
      var acc' := NodeRings(g, acc, a, counter);
      NodeIdsAppend(g, acc, a, counter, lo);
      SmurfRingIds(g, acc', k + 1, next, lo);
      SmurfRingsAdvance(g, acc, acc', k, counter, next);
      var r := SmurfRings(g, acc', k + 1, next);
      assert SmurfRings(g, acc, k, counter) == r;
      PrefixTransitive(acc, acc', r);
    }
  }

  /** Appending the rings of one node keeps the ids increasing, now bounded by the ids that node consumed. */
  lemma NodeIdsAppend(g: Graph, acc: seq<Ring>, a: Account, counter: nat, lo: nat)
    requires WF(g) && a in g.stats
    requires IncreasingAbove(Ids(acc), lo) && AtMost(Ids(acc), counter) && lo <= counter
    ensures IncreasingAbove(Ids(NodeRings(g, acc, a, counter)), lo)
    ensures AtMost(Ids(NodeRings(g, acc, a, counter)), counter + NodeFirings(g, a))
  {
    var x, y := CheckRings(g, a, In, counter + 1), CheckRings(g, a, Out, OutId(g, a, counter));
    CheckRingIds(g, a, In, counter + 1);
    CheckRingIds(g, a, Out, OutId(g, a, counter));
    IdsConcat(acc, x);
    IdsConcat(acc + x, y);
    TwoIds(Ids(acc), Ids(x), Ids(y), lo, counter, Triggers(g, a, In), Triggers(g, a, Out), Registers(g, a, In), Registers(g, a, Out));
  }

  lemma PrefixTransitive(a: seq<Ring>, b: seq<Ring>, c: seq<Ring>)
    requires a <= b && b <= c
    ensures a <= c
  {
    assert c[..|a|] == c[..|b|][..|a|];
  }

  /** One more node of the loop: its two checks' rings are appended, then those of the nodes after it. */
  lemma {:induction false} SmurfRingsAdvance(g: Graph, acc: seq<Ring>, acc': seq<Ring>, k: nat, counter: nat, counter': nat)
    requires WF(g) && k < |g.nodes| && g.nodes[k] in g.stats
    requires acc' == NodeRings(g, acc, g.nodes[k], counter) && counter' == counter + NodeFirings(g, g.nodes[k])
    ensures SmurfRings(g, acc, k, counter) == SmurfRings(g, acc', k + 1, counter')
  {
  }

  /** One more node of the loop: its two checks flag first, then the nodes after it. */
  lemma SmurfFlagsAdvance(g: Graph, l: Ledger, l': Ledger, k: nat, counter: nat, counter': nat)
    requires WF(g) && k < |g.nodes| && g.nodes[k] in g.stats
    requires l' == NodeFlags(g, l, g.nodes[k], counter) && counter' == counter + NodeFirings(g, g.nodes[k])
    ensures SmurfFlags(g, l, k, counter) == SmurfFlags(g, l', k + 1, counter')
  {
  }

  /** The two outcomes of one fan check, as rings appended and flags added. */
  lemma CheckOutcome(g: Graph, a: Account, side: Side, id: RingId, l: Ledger)
    requires WF(g) && a in g.stats
    ensures Registers(g, a, side) ==> CheckRings(g, a, side, id) == [FanRing(g, a, side, id)]
    ensures Registers(g, a, side) ==>
      CheckFlags(g, l, a, side, id) == FlagFan(l, FanMembers(g, a, side), SidePatterns(g, a, side), id, SideShare(g, a, side))
    ensures !Registers(g, a, side) ==> CheckRings(g, a, side, id) == [] && CheckFlags(g, l, a, side, id) == l
  {
  }

  /** A hub fires neither check: it consumes no id, registers nothing and flags nobody. */
  lemma HubNode(g: Graph, acc: seq<Ring>, a: Account, counter: nat, l: Ledger)
    requires WF(g) && a in g.stats && IsHub(g, a)
    ensures NodeRings(g, acc, a, counter) == acc && NodeFirings(g, a) == 0 && NodeFlags(g, l, a, counter) == l
  {
    assert acc + [] + [] == acc;
  }
  /**
   * After the first `k` nodes of `detect_smurfing`, started with `rings0`,
   * `sus0` and `counter0`: the ids consumed are one per check that fired,
   * and finishing the loop from here yields what the whole loop yields.
   */
  ghost predicate SmurfProgress(g: Graph, rings: seq<Ring>, sus: Ledger, counter: nat,
                                rings0: seq<Ring>, sus0: Ledger, counter0: nat, k: nat)
  {
    && WF(g) && k <= |g.nodes|
    && counter == counter0 + Firings(g, k)
    && SmurfRings(g, rings, k, counter) == SmurfRings(g, rings0, 0, counter0)
    && SmurfFlags(g, sus, k, counter) == SmurfFlags(g, sus0, 0, counter0)
  }

  /** Checking node `k` moves the loop's progress on by one node. */
  lemma SmurfProgressStep(g: Graph, rings: seq<Ring>, sus: Ledger, counter: nat,
                          rings': seq<Ring>, sus': Ledger, counter': nat,
                          rings0: seq<Ring>, sus0: Ledger, counter0: nat, k: nat)
    requires SmurfProgress(g, rings, sus, counter, rings0, sus0, counter0, k) && k < |g.nodes|
    requires g.nodes[k] in g.stats
    requires rings' == NodeRings(g, rings, g.nodes[k], counter)
    requires sus' == NodeFlags(g, sus, g.nodes[k], counter)
    requires counter' == counter + NodeFirings(g, g.nodes[k])
    ensures SmurfProgress(g, rings', sus', counter', rings0, sus0, counter0, k + 1)
  {
    SmurfStep(g, k);
    SmurfRingsAdvance(g, rings, rings', k, counter, counter');
    SmurfFlagsAdvance(g, sus, sus', k, counter, counter');
  }
}
