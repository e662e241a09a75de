/**
 * The pieces of `detect_shell_networks`: shell candidates, the test a chain
 * must pass, its risk and the label each member gets.
 */
module Shells {
  import opened Types
  import opened TxGraph
  import opened Cycles

  /** A shell candidate takes part in two or three transactions. */
  predicate IsShell(g: Graph, a: Account)
    requires a in g.stats
  {
    2 <= g.stats[a].txCount <= 3
  }

  /** How many accounts of `ms` are shell candidates. */
  function ShellCount(cands: set<Account>, ms: seq<Account>): (r: nat)
    ensures r <= |ms|
  {
    if ms == [] then 0
    else ShellCount(cands, ms[..|ms| - 1]) + if ms[|ms| - 1] in cands then 1 else 0
  }

  /** The accounts strictly between the two ends of a path, `p[1:-1]`: none when `p` has fewer than two. */
  function Interior(p: seq<Account>): seq<Account>
  {
    if |p| < 2 then [] else p[1..|p| - 1]
  }

  /**
   * The registration test of `_find_shell_chains`: at least 4 accounts, at
   * least 2 interior ones, and shell candidates making up at least 60% of
   * the interior.
   */
  predicate Qualifies(cands: set<Account>, p: seq<Account>)
  {
    && |p| >= 4
    && |Interior(p)| >= 2
    && (ShellCount(cands, Interior(p)) as real) >= (|Interior(p)| as real) * 0.6
  }

  /** The 60% test in integers. */
  lemma QualifiesInIntegers(cands: set<Account>, p: seq<Account>)
    requires |p| >= 4
    ensures Qualifies(cands, p) <==> 5 * ShellCount(cands, Interior(p)) >= 3 * (|p| - 2)
  {
  }

  /** `min(100, 50 + 10 * shells + 3 * len)`. */
  function LayeringRisk(shells: nat, len: nat): (r: real)
    ensures r <= 100.0 && r >= Min(100.0, 50.0 + 3.0 * (len as real))
  {
    Min(100.0, 50.0 + (shells as real) * 10.0 + (len as real) * 3.0)
  }

  /** The label depends only on candidacy, not on where the account sits in the chain. */
  function ShellLabel(cands: set<Account>, a: Account): Label
  {
    if a in cands then ShellIntermediate else ShellEndpoint
  }

  /**
   * A registered layering chain: 4 to 7 distinct accounts joined by edges,
   * starting at a non-candidate, passing the 60% test.
   */
  ghost predicate LayeringChain(g: Graph, cands: set<Account>, p: seq<Account>)
  {
    && 4 <= |p| <= 7
    && Distinct(p)
    && IsPath(g, p)
    && p[0] !in cands
    && Qualifies(cands, p)
    && (forall a | a in p :: a in g.stats)
  }
}
