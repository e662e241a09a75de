/**
 * The cycle side of `detect_cycles`: which sequences are cycles of the graph,
 * collection of the enumerated cycles, the `_dfs_cycles` fallback and the
 * flow around a cycle that feeds its risk score.
 */
module Cycles {
  import opened Types
  import opened TxGraph
  import opened Canon

  /** The pair from the `i`-th account of `c` to the next one, wrapping around. */
  function Hop(c: seq<Account>, i: nat): (Account, Account)
    requires i < |c|
  {
    (c[i], if i + 1 < |c| then c[i + 1] else c[0])
  }

  /** The pair from the `i`-th account of `p` to the next one. */
  function Step(p: seq<Account>, i: nat): (Account, Account)
    requires i + 1 < |p|
  {
    (p[i], p[i + 1])
  }

  /** A simple cycle of `g`: no repeated account, an edge from each account to the next, wrapping around. */
  ghost predicate IsCycle(g: Graph, c: seq<Account>)
  {
    && |c| > 0
    && Distinct(c)
    && (forall i :: 0 <= i < |c| ==> Hop(c, i) in g.edges)
  }

  /** Consecutive accounts of `p` are joined by edges. */
  ghost predicate IsPath(g: Graph, p: seq<Account>)
  {
    forall i :: 0 <= i < |p| - 1 ==> Step(p, i) in g.edges
  }

  /** Each hop of a rotation is a hop of the original cycle. */
  lemma RotateHop(c: seq<Account>, k: nat, i: nat)
    requires k <= |c| && i < |c|
    ensures Hop(Rotate(c, k), i) == Hop(c, if i + k < |c| then i + k else i + k - |c|)
  {
    RotateAt(c, k, i);
    if i + 1 < |c| {
      RotateAt(c, k, i + 1);
    } else {
      RotateAt(c, k, 0);
    }
  }

  /** Rotating a cycle gives the same cycle, read from another account. */
  lemma RotateCycle(g: Graph, c: seq<Account>, k: nat)
    requires IsCycle(g, c) && k <= |c|
    ensures IsCycle(g, Rotate(c, k))
  {
    var n := |c|;
    var d := Rotate(c, k);
    RotateDistinct(c, k);
    forall i | 0 <= i < n ensures Hop(d, i) in g.edges {
      RotateHop(c, k, i);
      var j := if i + k < n then i + k else i + k - n;
      assert Hop(c, j) in g.edges;
    }
  }

  /** The canonical form of a cycle is a cycle of the same length that is its own canonical form. */
  lemma CanonicalCycle(g: Graph, c: seq<Account>)
    requires IsCycle(g, c)
    ensures IsCycle(g, Canonicalize(c)) && |Canonicalize(c)| == |c|
    ensures Canonicalize(Canonicalize(c)) == Canonicalize(c)
  {
    RotateCycle(g, c, MinIndex(c));
    CanonicalizeIdempotent(c);
  }

  /** The canonical forms of the cycles of `es` with 3 to 5 accounts. */
  function CanonicalForms(es: seq<seq<Account>>): set<seq<Account>>
  {
    if es == [] then {}
    else
      var c := es[|es| - 1];
      CanonicalForms(es[..|es| - 1]) + if 3 <= |c| <= 5 then {Canonicalize(c)} else {}
  }

  /** Canonical forms of simple cycles are canonical simple cycles of 3 to 5 accounts. */
  lemma {:induction false} CanonicalFormsAreCycles(g: Graph, es: seq<seq<Account>>)
    requires forall c | c in es :: IsCycle(g, c)
    ensures forall c | c in CanonicalForms(es) :: CanonicalCycleOf(g, c)
  {
    if es != [] {
      var c := es[|es| - 1];
      CanonicalFormsAreCycles(g, es[..|es| - 1]);
      if 3 <= |c| <= 5 {
        CanonicalCycle(g, c);
      }
    }
  }

  /**
   * The `simple_cycles` branch of `detect_cycles`: keep the cycles of 3 to 5
   * accounts, canonicalise each, and list each canonical tuple once, in
   * order of first appearance.
   */
  method CollectCycles(enumerated: seq<seq<Account>>) returns (found: seq<seq<Account>>)
    ensures Distinct(found)
    ensures forall c :: c in found <==> c in CanonicalForms(enumerated)
  {
    found := [];
    for k := 0 to |enumerated|
      invariant Distinct(found)
      invariant forall c :: c in found <==> c in CanonicalForms(enumerated[..k])
    {
      assert enumerated[..k + 1][..k] == enumerated[..k];
      var cyc := enumerated[k];
      if 3 <= |cyc| <= 5 {
        var canon := Canonicalize(cyc);
        if canon !in found {
          found := found + [canon];
        }
      }
    }
    assert enumerated[..|enumerated|] == enumerated;
  }

  /** A stack frame of the explicit-stack searches: current account, path so far, and a counter. */
  datatype Frame = Frame(curr: Account, path: seq<Account>, aux: nat)

  /** A `_dfs_cycles` frame: a simple path from `start` of depth `aux` (at most 4) inside `visited`. */
  ghost predicate DfsFrameOk(g: Graph, start: Account, visited: set<Account>, f: Frame)
  {
    && |f.path| == f.aux + 1 && f.aux <= 4
    && f.path[0] == start && f.path[|f.path| - 1] == f.curr
    && f.curr in g.stats
    && Distinct(f.path)
    && IsPath(g, f.path)
    && (forall x | x in f.path :: x in visited)
  }

  /** A reported cycle: 3 to 5 accounts, a simple cycle of `g`, in canonical form. */
  ghost predicate CanonicalCycleOf(g: Graph, c: seq<Account>)
  {
    3 <= |c| <= 5 && IsCycle(g, c) && Canonicalize(c) == c
  }

  /**
   * `_dfs_cycles`: from each start node, a depth-first search over simple
   * paths of at most 5 accounts that reports the path whenever the current
   * account has an edge back to the start and the path has at least 3
   * accounts. One `visited` set is shared by the whole search from a start,
   * so an account reached once is never extended again from that start.
   * Every frame on the stack has depth at most 4, so the `depth >= 5` guard
   * of the source never fires and is not written here.
   */
  method DfsCycles(g: Graph) returns (cycles: seq<seq<Account>>)
    requires WF(g)
    ensures forall c | c in cycles :: CanonicalCycleOf(g, c)
  {
    cycles := [];
    for n := 0 to |g.nodes|
      invariant forall c | c in cycles :: CanonicalCycleOf(g, c)
    {
      var found := DfsFrom(g, g.nodes[n]);
      cycles := cycles + found;
    }
  }

  /** Every frame of the stack is a `_dfs_cycles` frame. */
  ghost predicate StackOk(g: Graph, start: Account, visited: set<Account>, stack: seq<Frame>)
  {
    forall i :: 0 <= i < |stack| ==> DfsFrameOk(g, start, visited, stack[i])
  }

  /** The search of `_dfs_cycles` from one start node. */
  method DfsFrom(g: Graph, start: Account) returns (cycles: seq<seq<Account>>)
    requires WF(g) && start in g.stats
    ensures forall c | c in cycles :: CanonicalCycleOf(g, c)
  {
    cycles := [];
    var all := Elems(g.nodes);
    var visited: set<Account> := {start};
    var stack := [Frame(start, [start], 0)];
    while stack != []
      invariant visited <= all
      invariant StackOk(g, start, visited, stack)
      invariant forall c | c in cycles :: CanonicalCycleOf(g, c)
      decreases |all - visited|, |stack|
    {
      var f := stack[|stack| - 1];
      stack := stack[..|stack| - 1];
      assert DfsFrameOk(g, start, visited, f);
      ghost var visited0 := visited;
      visited, stack, cycles := ExpandFrame(g, start, all, f, visited, stack, cycles);
      Shrinks(all, visited0, visited);
    }
  }

  /** Marking accounts visited shrinks the unvisited rest, strictly when any is new. */
  lemma Shrinks(all: set<Account>, v0: set<Account>, v: set<Account>)
    requires v0 <= v <= all
    ensures |all - v| <= |all - v0|
    ensures v != v0 ==> |all - v| < |all - v0|
  {
    assert all - v0 == (all - v) + (v - v0);
    assert (all - v) * (v - v0) == {};
    if v != v0 {
      assert v - v0 != {};
    }
  }

  /**
   * The loop over the successors of a popped frame: report the path when the
   * successor is the start, otherwise push every unvisited successor while
   * the path is shorter than 5 accounts.
   */
  method ExpandFrame(g: Graph, start: Account, all: set<Account>, f: Frame,
                     visited0: set<Account>, stack0: seq<Frame>, cycles0: seq<seq<Account>>)
    returns (visited: set<Account>, stack: seq<Frame>, cycles: seq<seq<Account>>)
    requires WF(g) && all == Elems(g.nodes) && visited0 <= all
    requires StackOk(g, start, visited0, stack0) && DfsFrameOk(g, start, visited0, f)
    requires forall c | c in cycles0 :: CanonicalCycleOf(g, c)
    ensures visited <= all && StackOk(g, start, visited, stack)
    ensures forall c | c in cycles :: CanonicalCycleOf(g, c)
    ensures visited0 <= visited && (visited == visited0 ==> stack == stack0)
  {
    visited, stack, cycles := visited0, stack0, cycles0;
    assert NodeOk(g, f.curr);
    var succ := g.stats[f.curr].receivers;
    for k := 0 to |succ|
      invariant visited <= all
      invariant StackOk(g, start, visited, stack)
      invariant DfsFrameOk(g, start, visited, f)
      invariant forall c | c in cycles :: CanonicalCycleOf(g, c)
      invariant visited0 <= visited && (visited == visited0 ==> stack == stack0)
    {
      var nbr := succ[k];
      assert (f.curr, nbr) in g.edges;
      if nbr == start && |f.path| >= 3 {
        ReportedCycle(g, f.path);
        cycles := cycles + [Canonicalize(f.path)];
      } else if nbr !in visited && f.aux < 4 {
        PushFrame(g, start, visited, stack, f, nbr);
        visited := visited + {nbr};
        stack := stack + [Frame(nbr, f.path + [nbr], f.aux + 1)];
      }
    }
  }

  /** Extending a frame by an unvisited successor gives a frame of the enlarged visited set. */
  lemma PushFrame(g: Graph, start: Account, visited: set<Account>, stack: seq<Frame>, f: Frame, nbr: Account)
    requires WF(g) && DfsFrameOk(g, start, visited, f) && f.aux < 4
    requires StackOk(g, start, visited, stack)
    requires (f.curr, nbr) in g.edges && nbr !in visited
    ensures DfsFrameOk(g, start, visited + {nbr}, f)
    ensures StackOk(g, start, visited + {nbr}, stack + [Frame(nbr, f.path + [nbr], f.aux + 1)])
  {
    var p := f.path + [nbr];
    assert forall i :: 0 <= i < |f.path| - 1 ==> Step(p, i) == Step(f.path, i);
    assert Step(p, |f.path| - 1) == (f.curr, nbr);
  }

  /** A path closed by an edge back to its first account is a cycle, and so is its canonical form. */
  lemma ReportedCycle(g: Graph, p: seq<Account>)
    requires 3 <= |p| <= 5 && Distinct(p) && IsPath(g, p) && (p[|p| - 1], p[0]) in g.edges
    ensures CanonicalCycleOf(g, Canonicalize(p))
  {
    assert IsCycle(g, p) by {
      forall i | 0 <= i < |p| ensures Hop(p, i) in g.edges {
        if i + 1 < |p| {
          assert Step(p, i) in g.edges;
        }
      }
    }
    CanonicalCycle(g, p);
  }

  /** Sum of the weights of the first `k` edges around `c` that exist in `g`. */
  function FlowUpTo(g: Graph, c: seq<Account>, k: nat): real
    requires k <= |c|
  {
    if k == 0 then 0.0
    else
      var e := Hop(c, k - 1);
      FlowUpTo(g, c, k - 1) + (if e in g.edges then g.edges[e].weight else 0.0)
  }

  /** The `total_flow` loop of `detect_cycles`. */
  method CycleFlow(g: Graph, c: seq<Account>) returns (flow: real)
    ensures flow == FlowUpTo(g, c, |c|)
  {
    flow := 0.0;
    for i := 0 to |c|
      invariant flow == FlowUpTo(g, c, i)
    {
      var e := (c[i], c[(i + 1) % |c|]);
      assert e == Hop(c, i) by {
        if i + 1 < |c| {
          assert (i + 1) % |c| == i + 1;
        }
      }
      if e in g.edges {
        flow := flow + g.edges[e].weight;
      }
    }
  }

  /** The total weight of the first `k` hops of a cycle of `g`, each of which is an edge. */
  ghost function CycleWeight(g: Graph, c: seq<Account>, k: nat): real
    requires IsCycle(g, c) && k <= |c|
  {
    if k == 0 then 0.0 else CycleWeight(g, c, k - 1) + g.edges[Hop(c, k - 1)].weight
  }

  /**
   * Around a cycle of the graph the `if G.has_edge(u, v)` test never fails,
   * so the flow is the weight of every hop added up.
   */
  lemma {:induction false} FlowIsCycleWeight(g: Graph, c: seq<Account>, k: nat)
    requires IsCycle(g, c) && k <= |c|
    ensures FlowUpTo(g, c, k) == CycleWeight(g, c, k)
  {
    if k > 0 {
      FlowIsCycleWeight(g, c, k - 1);
      assert Hop(c, k - 1) in g.edges;
    }
  }

  /**
   * With non-negative edge weights, the flow around a cycle is non-negative
   * and at least the weight of each of its hops.
   */
  lemma {:induction false} FlowCoversEveryHop(g: Graph, c: seq<Account>, k: nat)
    requires IsCycle(g, c) && k <= |c|
    requires forall e | e in g.edges :: g.edges[e].weight >= 0.0
    ensures FlowUpTo(g, c, k) >= 0.0
    ensures forall i | 0 <= i < k :: FlowUpTo(g, c, k) >= g.edges[Hop(c, i)].weight
  {
    if k > 0 {
      FlowCoversEveryHop(g, c, k - 1);
      assert Hop(c, k - 1) in g.edges;
    }
  }

  /** `risk` of a cycle ring: `min(100, 60 + (flow / max(len, 1)) * 0.005 + 5 * len)`. */
  function CycleRisk(flow: real, len: nat): (r: real)
    ensures r <= 100.0
    ensures flow >= 0.0 ==> r >= Min(100.0, 60.0 + 5.0 * (len as real))
  {
    var d := if len >= 1 then len else 1;
    Min(100.0, 60.0 + (flow / (d as real)) * 0.005 + (len as real) * 5.0)
  }
}
