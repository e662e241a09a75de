/**
 * The pieces of `detect_smurfing`: which counterparties a fan-in or fan-out
 * check looks at, its members, labels and base score.
 */
module Fans {
  import opened Types
  import opened TxGraph
  import opened Hub
  import opened Temporal

  /** Fan-in looks at a node's senders, fan-out at its receivers. */
  datatype Side = In | Out

  function Counterparties(g: Graph, a: Account, side: Side): seq<Account>
    requires a in g.stats
  {
    if side == In then g.stats[a].senders else g.stats[a].receivers
  }

  /**
   * The data of `in_edges(node)` or `out_edges(node)`, in the order networkx
   * lists a node's predecessors or successors (first-seen order).
   */
  function SideEdges(g: Graph, a: Account, side: Side): (r: seq<EdgeStats>)
    requires WF(g) && a in g.stats
    ensures |r| == |Counterparties(g, a, side)|
  {
    var cs := Counterparties(g, a, side);
    assert NodeOk(g, a);
    seq(|cs|, i requires 0 <= i < |cs| =>
      if side == In then g.edges[(cs[i], a)] else g.edges[(a, cs[i])])
  }

  /** The node passes the hub test and has at least 10 distinct counterparties on that side. */
  predicate Triggers(g: Graph, a: Account, side: Side)
    requires WF(g) && a in g.stats
  {
    !IsHub(g, a) && |Counterparties(g, a, side)| >= 10
  }

  /** `35 + min(count, 50) * 0.6 + temporal * 15`. */
  function FanBase(count: nat, temporal: real): (r: real)
    ensures 0.0 <= temporal <= 1.0 ==> 35.0 <= r <= 80.0
  {
    35.0 + ((if count <= 50 then count else 50) as real) * 0.6 + temporal * 15.0
  }

  /** What each flag of a fan ring adds: `base * 0.7 / len(patterns)`. */
  function FanShare(base: real, count: nat): (r: real)
    requires count >= 1
    ensures base >= 0.0 ==> r >= 0.0
  {
    QuotientNonNegative(base * 0.7, count as real);
    base * 0.7 / (count as real)
  }

  lemma QuotientNonNegative(x: real, n: real)
    requires n > 0.0
    ensures x >= 0.0 ==> x / n >= 0.0
  {
    var q := x / n;
    assert q * n == x;
    if x >= 0.0 && q < 0.0 {
      Positive(-q, n);
    }
  }

  /** The list comprehension that drops hubs from a member list, keeping order and repeats. */
  function NonHubs(g: Graph, ms: seq<Account>): (r: seq<Account>)
    requires WF(g) && forall m | m in ms :: m in g.stats
    ensures |r| <= |ms|
    ensures forall x :: x in r <==> x in ms && !IsHub(g, x)
  {
    if ms == [] then []
    else
      var m := ms[|ms| - 1];
      NonHubs(g, ms[..|ms| - 1]) + if IsHub(g, m) then [] else [m]
  }

  /** `[node] + list(senders)` (or receivers) with hubs removed. */
  function FanMembers(g: Graph, a: Account, side: Side): (r: seq<Account>)
    requires WF(g) && a in g.stats
    ensures forall x :: x in r ==> x in g.stats && !IsHub(g, x)
  {
    assert NodeOk(g, a);
    assert forall x | x in Counterparties(g, a, side) :: x in g.stats by {
      forall x | x in Counterparties(g, a, side) ensures x in g.stats {
        if side == In {
          assert (x, a) in g.edges;
        } else {
          assert (a, x) in g.edges;
        }
      }
    }
    NonHubs(g, [a] + Counterparties(g, a, side))
  }

  /** `fan_in` or `fan_out`, followed by `high_velocity` when the concentration exceeds 0.5. */
  function FanPatterns(side: Side, temporal: real): (r: seq<Label>)
    ensures 1 <= |r| <= 2 && Distinct(r)
    ensures r[0] == (if side == In then FanIn else FanOut)
    ensures HighVelocity in r <==> temporal > 0.5
  {
    [if side == In then FanIn else FanOut] + if temporal > 0.5 then [HighVelocity] else []
  }

  /** Number of fan checks that fire among the first `k` nodes: each consumes one ring id. */
  function Firings(g: Graph, k: nat): nat
    requires WF(g) && k <= |g.nodes|
  {
    if k == 0 then 0
    else
      var a := g.nodes[k - 1];
      Firings(g, k - 1) + (if Triggers(g, a, In) then 1 else 0) + (if Triggers(g, a, Out) then 1 else 0)
  }

  /** A fan check that fires and keeps at least 3 members registers a smurfing ring. */
  predicate Registers(g: Graph, a: Account, side: Side)
    requires WF(g) && a in g.stats
  {
    Triggers(g, a, side) && |FanMembers(g, a, side)| >= 3
  }

  /**
   * The fan checks among the first `k` nodes that register a ring, in the
   * order `detect_smurfing` makes them: node by node, fan-in before fan-out.
   */
  function FanSites(g: Graph, k: nat): (r: seq<(Account, Side)>)
    requires WF(g) && k <= |g.nodes|
    ensures forall p | p in r :: p.0 in g.stats
  {
    if k == 0 then []
    else
      var a := g.nodes[k - 1];
      assert a in g.stats;
      FanSites(g, k - 1)
        + (if Registers(g, a, In) then [(a, In)] else [])
        + (if Registers(g, a, Out) then [(a, Out)] else [])
  }

  /**
   * A check that fires on a node whose counterparties on that side are all
   * hubs keeps only the node itself, so it consumes an id without
   * registering a ring.
   */
  lemma AllHubsRegistersNothing(g: Graph, a: Account, side: Side)
    requires WF(g) && a in g.stats && Triggers(g, a, side)
    requires forall c | c in Counterparties(g, a, side) :: c in g.stats && IsHub(g, c)
    ensures !Registers(g, a, side)
    ensures FanMembers(g, a, side) == [a]
  {
    var ms := [a] + Counterparties(g, a, side);
    OnlyFirstNonHub(g, ms);
  }

  /** A list whose only non-hub is its head filters down to that head. */
  lemma {:induction false} OnlyFirstNonHub(g: Graph, ms: seq<Account>)
    requires WF(g) && forall m | m in ms :: m in g.stats
    requires |ms| > 0 && !IsHub(g, ms[0]) && forall i | 1 <= i < |ms| :: IsHub(g, ms[i])
    ensures NonHubs(g, ms) == [ms[0]]
  {
    if |ms| > 1 {
      OnlyFirstNonHub(g, ms[..|ms| - 1]);
    } else {
      assert ms[..0] == [];
    }
  }

  /** One more node of `detect_smurfing`: its fan-in check, then its fan-out check. */
  lemma SmurfStep(g: Graph, k: nat)
    requires WF(g) && k < |g.nodes|
    ensures g.nodes[k] in g.stats
    ensures FanSites(g, k + 1) == FanSites(g, k)
      + (if Registers(g, g.nodes[k], In) then [(g.nodes[k], In)] else [])
      + (if Registers(g, g.nodes[k], Out) then [(g.nodes[k], Out)] else [])
    ensures Firings(g, k + 1) == Firings(g, k)
      + (if Triggers(g, g.nodes[k], In) then 1 else 0) + (if Triggers(g, g.nodes[k], Out) then 1 else 0)
  {
  }

  /** Every ring registered consumed an id, so ids are never fewer than rings. */
  lemma {:induction false} SitesWithinFirings(g: Graph, k: nat)
    requires WF(g) && k <= |g.nodes|
    ensures |FanSites(g, k)| <= Firings(g, k)
  {
    if k > 0 {
      SitesWithinFirings(g, k - 1);
    }
  }

  /**
   * A self-loop `a -> a` makes `a` its own sender, so a non-hub `a` appears
   * twice in its fan-in member list and is flagged twice for that ring.
   */
  lemma SelfLoopRepeatsMember(g: Graph, a: Account)
    requires WF(g) && a in g.stats && (a, a) in g.edges && !IsHub(g, a)
    ensures !Distinct(FanMembers(g, a, In))
    ensures FanMembers(g, a, In)[0] == a
  {
    assert NodeOk(g, a);
    var cs := Counterparties(g, a, In);
    var ms := [a] + cs;
    assert a in cs;
    var i :| 0 <= i < |cs| && cs[i] == a;
    assert forall m | m in ms :: m in g.stats by {
      forall m | m in ms ensures m in g.stats {
        if m != a {
          assert (m, a) in g.edges;
        }
      }
    }
    var p, q := NonHubsKeeps(g, ms, 0, i + 1);
    NonHubsFirst(g, ms);
  }

  /** Two non-hub positions `i < j` of the list survive the filter in the same order. */
  lemma {:induction false} NonHubsKeeps(g: Graph, ms: seq<Account>, i: nat, j: nat) returns (p: nat, q: nat)
    requires WF(g) && forall m | m in ms :: m in g.stats
    requires i < j < |ms| && !IsHub(g, ms[i]) && !IsHub(g, ms[j])
    ensures p < q < |NonHubs(g, ms)| && NonHubs(g, ms)[p] == ms[i] && NonHubs(g, ms)[q] == ms[j]
  {
    var pre := ms[..|ms| - 1];
    assert pre[i] == ms[i];
    if j < |ms| - 1 {
      assert pre[j] == ms[j];
      p, q := NonHubsKeeps(g, pre, i, j);
    } else {
      p := NonHubsAt(g, pre, i);
      q := |NonHubs(g, pre)|;
    }
  }

  /** A non-hub position of the list survives the filter. */
  lemma {:induction false} NonHubsAt(g: Graph, ms: seq<Account>, i: nat) returns (p: nat)
    requires WF(g) && forall m | m in ms :: m in g.stats
    requires i < |ms| && !IsHub(g, ms[i])
    ensures p < |NonHubs(g, ms)| && NonHubs(g, ms)[p] == ms[i]
  {
    var pre := ms[..|ms| - 1];
    if i == |ms| - 1 {
      p := |NonHubs(g, pre)|;
    } else {
      assert pre[i] == ms[i];
      p := NonHubsAt(g, pre, i);
    }
  }

  lemma {:induction false} NonHubsFirst(g: Graph, ms: seq<Account>)
    requires WF(g) && forall m | m in ms :: m in g.stats
    requires |ms| > 0 && !IsHub(g, ms[0])
    ensures |NonHubs(g, ms)| > 0 && NonHubs(g, ms)[0] == ms[0]
  {
    if |ms| > 1 {
      NonHubsFirst(g, ms[..|ms| - 1]);
    }
  }
}
