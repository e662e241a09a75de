/**
 * The result `run` assembles after reconciliation: the summary, and the
 * node and edge lists of the `graph` part.
 */
module Views {
  import opened Types
  import opened TxGraph
  import opened Scoring

  datatype Summary = Summary(totalAccounts: nat, suspiciousFlagged: nat, ringsDetected: nat)

  datatype NodeView = NodeView(
    id: Account,
    totalSent: real,
    totalReceived: real,
    txCount: nat,
    suspicious: bool,
    rings: seq<RingId>,
    score: real)

  datatype EdgeView = EdgeView(source: Account, target: Account, amount: real, count: nat)

  datatype Report = Report(
    suspiciousAccounts: seq<Entry>,
    fraudRings: seq<Ring>,
    summary: Summary,
    nodes: seq<NodeView>,
    edges: seq<EdgeView>)

  /** One `id` per occurrence of `a` in `ms`. */
  function IdsIn(ms: seq<Account>, a: Account, id: RingId): seq<RingId>
  {
    if ms == [] then []
    else IdsIn(ms[..|ms| - 1], a, id) + if ms[|ms| - 1] == a then [id] else []
  }

  /** `ring_membership.get(a, [])`: the id of each ring listing `a`, once per listing, in ring order. */
  function RingIdsOf(rs: seq<Ring>, a: Account): seq<RingId>
  {
    if rs == [] then []
    else
      var r := rs[|rs| - 1];
      RingIdsOf(rs[..|rs| - 1], a) + IdsIn(r.members, a, r.id)
  }

  lemma {:induction false} IdsInDistinct(ms: seq<Account>, a: Account, id: RingId)
    requires Distinct(ms)
    ensures IdsIn(ms, a, id) == if a in ms then [id] else []
  {
    if ms != [] {
      var pre := ms[..|ms| - 1];
      IdsInDistinct(pre, a, id);
      assert ms == pre + [ms[|ms| - 1]];
    }
  }

  /**
   * When the rings are pairwise disjoint and none repeats a member (as after
   * reconciliation), each account lists at most one ring: the one it is in.
   */
  lemma {:induction false} RingIdsOfDisjoint(rs: seq<Ring>, a: Account)
    requires forall k :: 0 <= k < |rs| ==> Distinct(rs[k].members)
    requires forall k, l :: 0 <= k < l < |rs| && a in rs[k].members ==> a !in rs[l].members
    ensures |RingIdsOf(rs, a)| <= 1
    ensures forall k | 0 <= k < |rs| && a in rs[k].members :: RingIdsOf(rs, a) == [rs[k].id]
    ensures RingIdsOf(rs, a) == [] <==> forall k | 0 <= k < |rs| :: a !in rs[k].members
  {
    if rs != [] {
      var pre := rs[..|rs| - 1];
      var r := rs[|rs| - 1];
      RingIdsOfDisjoint(pre, a);
      IdsInDistinct(r.members, a, r.id);
      if a in r.members {
        forall k | 0 <= k < |pre| ensures a !in pre[k].members {
          assert pre[k] == rs[k];
        }
      }
    }
  }

  /** The visualisation record of one account. */
  function ViewOf(g: Graph, l: Ledger, rs: seq<Ring>, a: Account): NodeView
    requires a in g.stats
  {
    var n := g.stats[a];
    NodeView(a, n.totalSent, n.totalReceived, n.txCount, a in l.entries, RingIdsOf(rs, a),
      if a in l.entries then l.entries[a].score else 0.0)
  }

  /** The `nodes` list: one record per account, in node order. */
  function NodeViews(g: Graph, l: Ledger, rs: seq<Ring>): (r: seq<NodeView>)
    requires WF(g)
    ensures |r| == |g.nodes|
  {
    seq(|g.nodes|, i requires 0 <= i < |g.nodes| => ViewOf(g, l, rs, g.nodes[i]))
  }

  /** A node record is marked suspicious exactly when the account has an entry, and then carries its score. */
  lemma SuspiciousMarks(g: Graph, l: Ledger, rs: seq<Ring>, i: nat)
    requires WF(g) && i < |g.nodes|
    ensures NodeViews(g, l, rs)[i].id == g.nodes[i]
    ensures NodeViews(g, l, rs)[i].suspicious <==> g.nodes[i] in l.entries
    ensures NodeViews(g, l, rs)[i].suspicious ==> NodeViews(g, l, rs)[i].score == l.entries[g.nodes[i]].score
    ensures !NodeViews(g, l, rs)[i].suspicious ==> NodeViews(g, l, rs)[i].score == 0.0
  {
  }

  /**
   * The pairs `G.edges()` lists for the first `k` nodes: node by node, each
   * node's successors in the order they were first seen.
   */
  function EdgeList(g: Graph, k: nat): seq<(Account, Account)>
    requires k <= |g.nodes|
  {
    if k == 0 then []
    else
      var a := g.nodes[k - 1];
      EdgeList(g, k - 1) + (if a in g.stats then Outgoing(a, g.stats[a].receivers) else [])
  }

  /** The pairs from `a` to each account of `succ`. */
  function Outgoing(a: Account, succ: seq<Account>): (r: seq<(Account, Account)>)
    ensures |r| == |succ| && forall j :: 0 <= j < |succ| ==> r[j] == (a, succ[j])
  {
    seq(|succ|, j requires 0 <= j < |succ| => (a, succ[j]))
  }

  /** Every edge of the graph is listed, nothing else is, and no edge is listed twice. */
  lemma {:induction false} EdgeListExact(g: Graph, k: nat)
    requires WF(g) && k <= |g.nodes|
    ensures forall e :: e in EdgeList(g, k) <==> e in g.edges && e.0 in g.nodes[..k]
    ensures Distinct(EdgeList(g, k))
  {
    if k > 0 {
      EdgeListExact(g, k - 1);
      var a := g.nodes[k - 1];
      assert a in g.stats && NodeOk(g, a);
      var pre, out := EdgeList(g, k - 1), Outgoing(a, g.stats[a].receivers);
      assert g.nodes[..k] == g.nodes[..k - 1] + [a];
      assert a !in g.nodes[..k - 1];
      forall i, j | 0 <= i < j < |pre + out| ensures (pre + out)[i] != (pre + out)[j] {
        if j >= |pre| && i < |pre| {
          assert (pre + out)[i] in pre;
          assert (pre + out)[j] == out[j - |pre|] == (a, g.stats[a].receivers[j - |pre|]);
        }
      }
    }
  }

  function ViewOfEdge(g: Graph, e: (Account, Account)): EdgeView
    requires e in g.edges
  {
    EdgeView(e.0, e.1, g.edges[e].weight, g.edges[e].count)
  }

  /** The `edges` records of the first `k` nodes. */
  function EdgeViewsUpTo(g: Graph, k: nat): (r: seq<EdgeView>)
    requires WF(g) && k <= |g.nodes|
    ensures |r| == |EdgeList(g, k)|
  {
    var es := EdgeList(g, k);
    EdgeListExact(g, k);
    seq(|es|, i requires 0 <= i < |es| => ViewOfEdge(g, es[i]))
  }

  /** The `edges` list. */
  function EdgeViews(g: Graph): seq<EdgeView>
    requires WF(g)
  {
    EdgeViewsUpTo(g, |g.nodes|)
  }

  /** The records of the edges from `u` to each account of `succ`. */
  function OutViews(g: Graph, u: Account, succ: seq<Account>): (r: seq<EdgeView>)
    requires forall v | v in succ :: (u, v) in g.edges
    ensures |r| == |succ|
  {
    seq(|succ|, j requires 0 <= j < |succ| => ViewOfEdge(g, (u, succ[j])))
  }

  lemma EdgeViewsStep(g: Graph, k: nat)
    requires WF(g) && k < |g.nodes|
    ensures g.nodes[k] in g.stats && NodeOk(g, g.nodes[k])
    ensures EdgeViewsUpTo(g, k + 1) == EdgeViewsUpTo(g, k) + OutViews(g, g.nodes[k], g.stats[g.nodes[k]].receivers)
  {
    var u := g.nodes[k];
    assert u in g.stats && NodeOk(g, u);
    var succ := g.stats[u].receivers;
    var es := EdgeList(g, k);
    assert EdgeList(g, k + 1) == es + Outgoing(u, succ);
    var lhs, rhs := EdgeViewsUpTo(g, k + 1), EdgeViewsUpTo(g, k) + OutViews(g, u, succ);
    forall i | 0 <= i < |lhs| ensures lhs[i] == rhs[i] {
      if i >= |es| {
        assert EdgeList(g, k + 1)[i] == (u, succ[i - |es|]);
      }
    }
  }

  /** Every edge appears in the `edges` list exactly once, with its aggregated weight and count. */
  lemma EdgeViewsExact(g: Graph)
    requires WF(g)
    ensures forall e | e in g.edges :: exists i :: 0 <= i < |EdgeViews(g)| && EdgeViews(g)[i] == ViewOfEdge(g, e)
    ensures forall i, j :: 0 <= i < j < |EdgeViews(g)| ==>
      (EdgeViews(g)[i].source, EdgeViews(g)[i].target) != (EdgeViews(g)[j].source, EdgeViews(g)[j].target)
  {
    var es := EdgeList(g, |g.nodes|);
    EdgeListExact(g, |g.nodes|);
    forall e | e in g.edges ensures exists i :: 0 <= i < |EdgeViews(g)| && EdgeViews(g)[i] == ViewOfEdge(g, e) {
      assert e.0 in g.stats;
      assert g.nodes[..|g.nodes|] == g.nodes;
      var i :| 0 <= i < |es| && es[i] == e;
      assert EdgeViews(g)[i] == ViewOfEdge(g, e);
    }
  }

  /** The ids recorded for `a`, none when it has no record. */
  function Recorded(m: map<Account, seq<RingId>>, a: Account): seq<RingId>
  {
    if a in m then m[a] else []
  }

  lemma IdsInStep(ms: seq<Account>, j: nat, a: Account, id: RingId)
    requires j < |ms|
    ensures IdsIn(ms[..j + 1], a, id) == IdsIn(ms[..j], a, id) + if ms[j] == a then [id] else []
  {
    assert ms[..j + 1][..j] == ms[..j];
  }

  lemma RingIdsOfStep(rs: seq<Ring>, i: nat, a: Account)
    requires i < |rs|
    ensures RingIdsOf(rs[..i + 1], a) == RingIdsOf(rs[..i], a) + IdsIn(rs[i].members, a, rs[i].id)
  {
    assert rs[..i + 1][..i] == rs[..i];
  }

  /** The `ring_membership` loops of `run`. */
  method BuildMembership(rs: seq<Ring>) returns (m: map<Account, seq<RingId>>)
    ensures forall a :: Recorded(m, a) == RingIdsOf(rs, a)
  {
    m := map[];
    for i := 0 to |rs|
      invariant forall a :: Recorded(m, a) == RingIdsOf(rs[..i], a)
    {
      var r := rs[i];
      for j := 0 to |r.members|
        invariant forall a :: Recorded(m, a) == RingIdsOf(rs[..i], a) + IdsIn(r.members[..j], a, r.id)
      {
        var acc := r.members[j];
        ghost var m0 := m;
        m := m[acc := Recorded(m, acc) + [r.id]];
        forall a ensures Recorded(m, a) == RingIdsOf(rs[..i], a) + IdsIn(r.members[..j + 1], a, r.id) {
          IdsInStep(r.members, j, a, r.id);
          if a == acc {
            assert Recorded(m, a) == Recorded(m0, a) + [r.id];
          } else {
            assert Recorded(m, a) == Recorded(m0, a);
          }
        }
      }
      forall a ensures Recorded(m, a) == RingIdsOf(rs[..i + 1], a) {
        RingIdsOfStep(rs, i, a);
        assert r.members[..|r.members|] == r.members;
      }
    }
    assert rs[..|rs|] == rs;
  }

  /** The `nodes_data` loop of `run`. */
  method BuildNodeViews(g: Graph, l: Ledger, rs: seq<Ring>, membership: map<Account, seq<RingId>>)
    returns (views: seq<NodeView>)
    requires WF(g)
    requires forall a :: Recorded(membership, a) == RingIdsOf(rs, a)
    ensures views == NodeViews(g, l, rs)
  {
    views := [];
    for k := 0 to |g.nodes|
      invariant views == NodeViews(g, l, rs)[..k]
    {
      var node := g.nodes[k];
      assert node in g.stats;
      var d := g.stats[node];
      var ids := if node in membership then membership[node] else [];
      assert ids == Recorded(membership, node);
      var score := if node in l.entries then l.entries[node].score else 0.0;
      views := views + [NodeView(node, d.totalSent, d.totalReceived, d.txCount, node in l.entries, ids, score)];
    }
  }

  /** The `edges_data` loop of `run`. */
  method BuildEdgeViews(g: Graph) returns (views: seq<EdgeView>)
    requires WF(g)
    ensures views == EdgeViews(g)
  {
    views := [];
    for k := 0 to |g.nodes|
      invariant views == EdgeViewsUpTo(g, k)
    {
      EdgeViewsStep(g, k);
      var u := g.nodes[k];
      views := AppendOutgoing(g, u, g.stats[u].receivers, views);
    }
  }

  /** The inner loop of `edges_data`: the records of `u`'s edges, appended. */
  method AppendOutgoing(g: Graph, u: Account, succ: seq<Account>, views: seq<EdgeView>)
    returns (r: seq<EdgeView>)
    requires forall v | v in succ :: (u, v) in g.edges
    ensures r == views + OutViews(g, u, succ)
  {
    r := views;
    for j := 0 to |succ|
      invariant r == views + OutViews(g, u, succ[..j])
    {
      var v := succ[j];
      var d := g.edges[(u, v)];
      assert OutViews(g, u, succ[..j + 1]) == OutViews(g, u, succ[..j]) + [ViewOfEdge(g, (u, v))];
      r := r + [EdgeView(u, v, d.weight, d.count)];
    }
    assert succ[..|succ|] == succ;
  }
}
