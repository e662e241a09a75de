/**
 * The transaction graph `_build_graph` accumulates: one node per account with
 * running totals, counters, counterparty sets and a timestamp log, and one
 * aggregated edge per ordered (sender, receiver) pair.
 */
module TxGraph {
  import opened Types

  /**
   * Node attributes. `senders`/`receivers` are Python sets; here they are
   * kept without duplicates in first-seen order, which is also the order in
   * which networkx lists a node's predecessors and successors.
   */
  datatype NodeStats = NodeStats(
    totalSent: real,
    totalReceived: real,
    txCount: nat,
    sendCount: nat,
    recvCount: nat,
    senders: seq<Account>,
    receivers: seq<Account>,
    timestamps: seq<Timestamp>)

  datatype EdgeStats = EdgeStats(weight: real, count: nat, timestamps: seq<Timestamp>)

  /** `nodes` lists the accounts in insertion order, as `G.nodes()` does. */
  datatype Graph = Graph(
    nodes: seq<Account>,
    stats: map<Account, NodeStats>,
    edges: map<(Account, Account), EdgeStats>)

  const NewNode: NodeStats := NodeStats(0.0, 0.0, 0, 0, 0, [], [], [])

  const EmptyGraph: Graph := Graph([], map[], map[])

  /** `set.add`. */
  function AddOnce(s: seq<Account>, x: Account): (r: seq<Account>)
    ensures forall y :: y in r <==> y in s || y == x
    ensures Distinct(s) ==> Distinct(r)
  {
    if x in s then s else s + [x]
  }

  /** The node attributes a graph is expected to keep consistent. */
  ghost predicate NodeOk(g: Graph, a: Account)
    requires a in g.stats
  {
    var n := g.stats[a];
    && n.txCount == n.sendCount + n.recvCount
    && |n.timestamps| == n.txCount
    && Distinct(n.senders) && Distinct(n.receivers)
    && (forall b :: b in n.receivers <==> (a, b) in g.edges)
    && (forall b :: b in n.senders <==> (b, a) in g.edges)
  }

  predicate EdgeOk(e: EdgeStats)
  {
    e.count >= 1 && |e.timestamps| == e.count
  }

  /** Well-formedness of a graph built by `_build_graph`. */
  ghost predicate WF(g: Graph)
  {
    && Distinct(g.nodes)
    && (forall a :: a in g.stats <==> a in g.nodes)
    && (forall a | a in g.stats :: NodeOk(g, a))
    && (forall e | e in g.edges :: e.0 in g.stats && e.1 in g.stats && EdgeOk(g.edges[e]))
  }

  /** Create a node with zeroed attributes unless it exists. */
  function EnsureNode(g: Graph, a: Account): Graph
  {
    if a in g.stats then g
    else g.(nodes := g.nodes + [a], stats := g.stats[a := NewNode])
  }

  /** The body of the `_build_graph` loop for one record. */
  function AddRecord(g: Graph, rec: Record): Graph
  {
    var s, r, amt, ts := rec.sender, rec.receiver, rec.amount, rec.timestamp;
    var g1 := EnsureNode(EnsureNode(g, s), r);
    var ns := g1.stats[s];
    var g2 := g1.(stats := g1.stats[s := ns.(
      totalSent := ns.totalSent + amt,
      txCount := ns.txCount + 1,
      sendCount := ns.sendCount + 1,
      receivers := AddOnce(ns.receivers, r),
      timestamps := ns.timestamps + [ts])]);
    var nr := g2.stats[r];
    var g3 := g2.(stats := g2.stats[r := nr.(
      totalReceived := nr.totalReceived + amt,
      txCount := nr.txCount + 1,
      recvCount := nr.recvCount + 1,
      senders := AddOnce(nr.senders, s),
      timestamps := nr.timestamps + [ts])]);
    var edge :=
      if (s, r) in g3.edges then
        var e := g3.edges[(s, r)];
        e.(weight := e.weight + amt, count := e.count + 1, timestamps := e.timestamps + [ts])
      else EdgeStats(amt, 1, [ts]);
    g3.(edges := g3.edges[(s, r) := edge])
  }

  /** The graph after ingesting `rs` in order. */
  function Ingest(rs: seq<Record>): Graph
  {
    if rs == [] then EmptyGraph
    else AddRecord(Ingest(rs[..|rs| - 1]), rs[|rs| - 1])
  }

  lemma EnsureNodeWF(g: Graph, a: Account)
    requires WF(g)
    ensures WF(EnsureNode(g, a))
    ensures EnsureNode(g, a).edges == g.edges
    ensures EnsureNode(g, a).stats.Keys == g.stats.Keys + {a}
    ensures forall b :: b in g.stats ==> EnsureNode(g, a).stats[b] == g.stats[b]
  {
    if a !in g.stats {
      var h := EnsureNode(g, a);
      forall b | b in h.stats ensures NodeOk(h, b) {
        if b != a {
          assert NodeOk(g, b);
        } else {
          forall c ensures (a, c) !in h.edges && (c, a) !in h.edges {
          }
        }
      }
    }
  }

  /** What one record changes: the two endpoints' attributes and one edge. */
  lemma AddRecordShape(g: Graph, rec: Record)
    ensures var s, r := rec.sender, rec.receiver;
      var g1 := EnsureNode(EnsureNode(g, s), r);
      var h := AddRecord(g, rec);
      && h.nodes == g1.nodes && h.stats.Keys == g1.stats.Keys
      && (forall b :: b in h.stats && b != s && b != r ==> h.stats[b] == g1.stats[b])
      && (forall e :: e in h.edges <==> e in g1.edges || e == (s, r))
      && (forall e :: e in g1.edges && e != (s, r) ==> h.edges[e] == g1.edges[e])
      && ((s, r) in g1.edges ==>
            h.edges[(s, r)].count == g1.edges[(s, r)].count + 1 &&
            h.edges[(s, r)].timestamps == g1.edges[(s, r)].timestamps + [rec.timestamp])
      && ((s, r) !in g1.edges ==> h.edges[(s, r)].count == 1 && h.edges[(s, r)].timestamps == [rec.timestamp])
      && h.stats[s].receivers == AddOnce(g1.stats[s].receivers, r)
      && h.stats[r].senders == AddOnce(g1.stats[r].senders, s)
      && (s != r ==> h.stats[s].senders == g1.stats[s].senders && h.stats[r].receivers == g1.stats[r].receivers)
      && (s != r ==> h.stats[s].sendCount == g1.stats[s].sendCount + 1 && h.stats[s].recvCount == g1.stats[s].recvCount)
      && (s != r ==> h.stats[r].recvCount == g1.stats[r].recvCount + 1 && h.stats[r].sendCount == g1.stats[r].sendCount)
      && (s != r ==> h.stats[s].txCount == g1.stats[s].txCount + 1 && h.stats[r].txCount == g1.stats[r].txCount + 1)
      && (s != r ==> |h.stats[s].timestamps| == |g1.stats[s].timestamps| + 1)
      && (s != r ==> |h.stats[r].timestamps| == |g1.stats[r].timestamps| + 1)
      && (s == r ==> h.stats[s].sendCount == g1.stats[s].sendCount + 1 && h.stats[s].recvCount == g1.stats[s].recvCount + 1)
      && (s == r ==> h.stats[s].txCount == g1.stats[s].txCount + 2)
      && (s == r ==> |h.stats[s].timestamps| == |g1.stats[s].timestamps| + 2)
  {
  }

  lemma NodeOkAfterRecord(g: Graph, rec: Record, b: Account)
    requires WF(EnsureNode(EnsureNode(g, rec.sender), rec.receiver))
    requires b in AddRecord(g, rec).stats
    ensures NodeOk(AddRecord(g, rec), b)
  {
    var s, r := rec.sender, rec.receiver;
    var g1 := EnsureNode(EnsureNode(g, s), r);
    var h := AddRecord(g, rec);
    AddRecordShape(g, rec);
    assert NodeOk(g1, b);
    var n := h.stats[b];
    forall c ensures c in n.receivers <==> (b, c) in h.edges {
      assert (b, c) in h.edges <==> (b, c) in g1.edges || (b == s && c == r);
    }
    forall c ensures c in n.senders <==> (c, b) in h.edges {
      assert (c, b) in h.edges <==> (c, b) in g1.edges || (c == s && b == r);
    }
  }

  /** Ingesting one record keeps the graph well formed. */
  lemma AddRecordWF(g: Graph, rec: Record)
    requires WF(g)
    ensures WF(AddRecord(g, rec))
  {
    var s, r := rec.sender, rec.receiver;
    EnsureNodeWF(g, s);
    EnsureNodeWF(EnsureNode(g, s), r);
    var g1 := EnsureNode(EnsureNode(g, s), r);
    var h := AddRecord(g, rec);
    AddRecordShape(g, rec);
    forall b | b in h.stats ensures NodeOk(h, b) {
      NodeOkAfterRecord(g, rec, b);
    }
    forall e | e in h.edges ensures e.0 in h.stats && e.1 in h.stats && EdgeOk(h.edges[e]) {
      if e != (s, r) {
        assert e in g1.edges;
      }
    }
  }

  lemma {:induction false} IngestWF(rs: seq<Record>)
    ensures WF(Ingest(rs))
  {
    if rs != [] {
      IngestWF(rs[..|rs| - 1]);
      AddRecordWF(Ingest(rs[..|rs| - 1]), rs[|rs| - 1]);
    }
  }

  /** How many records go from `u` to `v`. */
  function PairCount(rs: seq<Record>, u: Account, v: Account): nat
  {
    if rs == [] then 0
    else
      var last := rs[|rs| - 1];
      PairCount(rs[..|rs| - 1], u, v) + (if last.sender == u && last.receiver == v then 1 else 0)
  }

  /** The total amount of the records that go from `u` to `v`. */
  function PairSum(rs: seq<Record>, u: Account, v: Account): real
  {
    if rs == [] then 0.0
    else
      var last := rs[|rs| - 1];
      PairSum(rs[..|rs| - 1], u, v) + (if last.sender == u && last.receiver == v then last.amount else 0.0)
  }

  /**
   * Repeated (sender, receiver) pairs accumulate into one edge whose count is
   * the number of such records and whose weight is the sum of their amounts.
   */
  lemma {:induction false} EdgeAggregates(rs: seq<Record>, u: Account, v: Account)
    ensures (u, v) in Ingest(rs).edges <==> PairCount(rs, u, v) > 0
    ensures PairCount(rs, u, v) == 0 ==> PairSum(rs, u, v) == 0.0
    ensures (u, v) in Ingest(rs).edges ==>
      Ingest(rs).edges[(u, v)].count == PairCount(rs, u, v) &&
      Ingest(rs).edges[(u, v)].weight == PairSum(rs, u, v)
  {
    if rs != [] {
      EdgeAggregates(rs[..|rs| - 1], u, v);
    }
  }

  /** With non-negative amounts, every pair's total is non-negative. */
  lemma {:induction false} PairSumNonNegative(rs: seq<Record>, u: Account, v: Account)
    requires forall i | 0 <= i < |rs| :: rs[i].amount >= 0.0
    ensures PairSum(rs, u, v) >= 0.0
  {
    if rs != [] {
      PairSumNonNegative(rs[..|rs| - 1], u, v);
    }
  }

  /** With non-negative amounts, every edge of the graph has a non-negative weight. */
  lemma IngestWeightsNonNegative(rs: seq<Record>)
    requires forall i | 0 <= i < |rs| :: rs[i].amount >= 0.0
    ensures forall e | e in Ingest(rs).edges :: Ingest(rs).edges[e].weight >= 0.0
  {
    forall e | e in Ingest(rs).edges ensures Ingest(rs).edges[e].weight >= 0.0 {
      EdgeAggregates(rs, e.0, e.1);
      PairSumNonNegative(rs, e.0, e.1);
    }
  }

  /** How many records have `a` as sender (`sending`) or as receiver. */
  function RoleCount(rs: seq<Record>, a: Account, sending: bool): nat
  {
    if rs == [] then 0
    else
      var last := rs[|rs| - 1];
      RoleCount(rs[..|rs| - 1], a, sending)
        + (if (if sending then last.sender else last.receiver) == a then 1 else 0)
  }

  /**
   * A node exists once it has appeared in a record; its send and receive
   * counters count its records in each role, and its transaction count is
   * their sum (a self-loop counts in both roles).
   */
  lemma {:induction false} NodeCounts(rs: seq<Record>, a: Account)
    ensures a in Ingest(rs).stats <==> RoleCount(rs, a, true) + RoleCount(rs, a, false) > 0
    ensures a in Ingest(rs).stats ==>
      var n := Ingest(rs).stats[a];
      n.sendCount == RoleCount(rs, a, true) &&
      n.recvCount == RoleCount(rs, a, false) &&
      n.txCount == n.sendCount + n.recvCount
  {
    if rs != [] {
      NodeCounts(rs[..|rs| - 1], a);
      AddRecordCounts(Ingest(rs[..|rs| - 1]), rs[|rs| - 1], a);
    }
  }

  /** The total amount of the records in which `a` is the sender (`sending`) or the receiver. */
  function RoleSum(rs: seq<Record>, a: Account, sending: bool): real
  {
    if rs == [] then 0.0
    else
      var last := rs[|rs| - 1];
      RoleSum(rs[..|rs| - 1], a, sending)
        + (if (if sending then last.sender else last.receiver) == a then last.amount else 0.0)
  }

  /**
   * A node's `total_sent` is the sum of the amounts it sent and its
   * `total_received` the sum of the amounts it received; a self-transfer
   * counts in both.
   */
  lemma {:induction false} NodeTotals(rs: seq<Record>, a: Account)
    ensures a in Ingest(rs).stats ==>
      && Ingest(rs).stats[a].totalSent == RoleSum(rs, a, true)
      && Ingest(rs).stats[a].totalReceived == RoleSum(rs, a, false)
  {
    if rs != [] {
      var pre := rs[..|rs| - 1];
      NodeTotals(pre, a);
      NodeCounts(pre, a);
      AddRecordTotals(Ingest(pre), rs[|rs| - 1], a);
      if a !in Ingest(pre).stats {
        RoleSumZero(pre, a);
      }
    }
  }

  /** An account that is not yet a node has sent and received nothing. */
  lemma {:induction false} RoleSumZero(rs: seq<Record>, a: Account)
    requires RoleCount(rs, a, true) + RoleCount(rs, a, false) == 0
    ensures RoleSum(rs, a, true) == 0.0 && RoleSum(rs, a, false) == 0.0
  {
    if rs != [] {
      RoleSumZero(rs[..|rs| - 1], a);
    }
  }

  /** One record adds its amount to its sender's `total_sent` and to its receiver's `total_received`. */
  lemma AddRecordTotals(g: Graph, rec: Record, a: Account)
    ensures a in AddRecord(g, rec).stats ==>
      var n := AddRecord(g, rec).stats[a];
      var o := if a in g.stats then g.stats[a] else NewNode;
      && n.totalSent == o.totalSent + (if a == rec.sender then rec.amount else 0.0)
      && n.totalReceived == o.totalReceived + (if a == rec.receiver then rec.amount else 0.0)
  {
  }

  /** One record adds one to its sender's send counter and to its receiver's receive counter. */
  lemma AddRecordCounts(g: Graph, rec: Record, a: Account)
    ensures a in AddRecord(g, rec).stats <==> a in g.stats || a == rec.sender || a == rec.receiver
    ensures a in AddRecord(g, rec).stats ==>
      var n := AddRecord(g, rec).stats[a];
      var o := if a in g.stats then g.stats[a] else NewNode;
      && n.sendCount == o.sendCount + (if a == rec.sender then 1 else 0)
      && n.recvCount == o.recvCount + (if a == rec.receiver then 1 else 0)
      && n.txCount == o.txCount + (if a == rec.sender then 1 else 0) + (if a == rec.receiver then 1 else 0)
  {
  }

  /** A self-loop puts the account among its own senders and receivers. */
  lemma SelfLoopCounterparty(rs: seq<Record>, i: nat)
    requires i < |rs| && rs[i].sender == rs[i].receiver
    ensures var a := rs[i].sender;
      a in Ingest(rs).stats && a in Ingest(rs).stats[a].senders && a in Ingest(rs).stats[a].receivers
  {
    var a := rs[i].sender;
    PairCountPositive(rs, i);
    EdgeAggregates(rs, a, a);
    IngestWF(rs);
    assert NodeOk(Ingest(rs), a);
  }

  lemma {:induction false} PairCountPositive(rs: seq<Record>, i: nat)
    requires i < |rs|
    ensures PairCount(rs, rs[i].sender, rs[i].receiver) > 0
  {
    if i < |rs| - 1 {
      assert rs[..|rs| - 1][i] == rs[i];
      PairCountPositive(rs[..|rs| - 1], i);
    }
  }
}
