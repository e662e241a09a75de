# Money-muling forensics engine — a verified Dafny model

This project models `ForensicsEngine`, the detection engine of a money-muling
forensics service. The engine reads a ledger of transactions
(sender, receiver, amount, timestamp) and builds a directed transaction graph.
Four detectors then run in a fixed order:

1. cycles of 3 to 5 accounts (round-tripping);
2. fan-in and fan-out smurfing;
3. layered shell chains;
4. a high-velocity pass.

Each detector registers fraud rings and flags the accounts in them. It shares
three pieces of mutable state with the others: the ring list, the ledger of
suspicious accounts (`suspicious`), and the ring counter. A final
reconciliation then does five things:

- gives each account to the first ring that lists it;
- drops rings left with fewer than two members;
- keeps only accounts that some ring claimed;
- ranks the suspicious accounts by score;
- builds the report, which has a summary plus node and edge views of the graph.

## Layout

| file | module | models |
|---|---|---|
| `types.dfy` | `Types` | accounts, timestamps (whole seconds), ring ids, labels, rings, ledger entries |
| `strorder.dfy` | `StrOrder` | Python's ordering of `str`, which `min` uses when a cycle is canonicalised |
| `canon.dfy` | `Canon` | `_canonicalize_cycle` |
| `sorting.dfy` | `Sorting` | `sorted` on timestamps and the stable descending sort of the report |
| `txgraph.dfy` | `TxGraph` | `_build_graph`: node statistics and edge aggregates |
| `hub.dfy` | `Hub` | `_is_merchant_or_payroll` |
| `scoring.dfy` | `Scoring` | `_flag_account` and the score bump of `detect_high_velocity` |
| `flagging.dfy` | `Flagging` | the two loops around `_flag_account`: one label per member, and every label on every member |
| `cycles.dfy` | `Cycles` | cycles, canonical forms, the DFS fallback `_dfs_cycles`, cycle flow and risk |
| `temporal.dfy` | `Temporal` | `_temporal_concentration` and the velocity rate |
| `fans.dfy` | `Fans` | the fan-in and fan-out checks of `detect_smurfing` |
| `smurfing.dfy` | `Smurfing` | what `detect_smurfing` computes node by node: rings, ids and flags |
| `shells.dfy` | `Shells` | the chain test, risk and labels of `_find_shell_chains` |
| `reconcile.dfy` | `Reconcile` | ring claiming, filtering the ledger, and ranking in `run` |
| `views.dfy` | `Views` | the report: ring membership, node views and edge views |
| `engine.dfy` | `Engine` | the `ForensicsEngine` class: its state, the four detectors, and `run` |

The engine is a `class` with fields `g` (the graph, fixed once built),
`rings`, `suspicious` and `ringCounter`. Its detectors are methods that update
these fields in place. Each method's postcondition gives the new rings and
the new ledger exactly, as specification functions of the old state: a left
fold of `_flag_account` over the loop the source runs, a recursive
definition of the search it makes. The properties of those functions are
proved as lemmas. The graph builder, canonicalisation, scoring and
reconciliation are pure computations, so they are functions with lemmas.

## Modelling conventions

- An account is a `string`.
- A timestamp is an `int` number of seconds. The 72-hour window is
  `72 * 3600` seconds.
- Amounts and scores are exact `real`s.
- A ring id is the counter value `n`; the source formats it as the text
  `RING_%03d`. Id `0` stands for the empty ring id.
- A Python `set` whose contents are iterated is a sequence without
  duplicates, in first-seen order: a node's `senders` and `receivers`, the
  node list, and a node's successors.
- The `suspicious` dict is a `Ledger`: a map plus the order in which keys were
  inserted. That order is the dict's iteration order, and the stable sort
  relies on it.
- `nx.simple_cycles` is an input of `DetectCycles` and `Run`, of type
  `Option<seq<seq<Account>>>`. `Some(cycles)` is what the library yields: a
  list of simple cycles of the graph. `None` is the exception path, which
  falls back to `_dfs_cycles`.
- A detector's rings are named by where the ring list stood before it
  (`rings[|old(rings)|..]`), and the counter it started from is passed to the
  specification functions (`fansFrom`, `shellsFrom` in `Run`).

## Model

| member | source | states |
|---|---|---|
| `TxGraph.AddRecord` | app.py:81-114 | definition of one pass of the `_build_graph` loop; `AddRecordShape`, `AddRecordCounts`, `AddRecordTotals` and `AddRecordWF` state what it does |
| `TxGraph.Ingest` | app.py:80-114 | definition of `_build_graph` over the whole ledger; `IngestWF`, `EdgeAggregates`, `NodeCounts`, `NodeTotals` and `IngestWeightsNonNegative` state its properties |
| `TxGraph.AddOnce` | app.py:100 | adding to a set keeps its old elements, adds the new one, and keeps it duplicate-free |
| `TxGraph.EnsureNodeWF` | app.py:86-95 | a node is created only if absent; existing nodes and edges are untouched |
| `TxGraph.AddRecordShape` | app.py:97-114 | one transaction adds 1 to the sender's send and tx counts and 1 to the receiver's receive and tx counts; a self-transfer adds 2 to its one node's tx count; it records the counterparties and timestamps; it adds to the existing edge or creates one with count 1 |
| `TxGraph.AddRecordCounts` | app.py:97-107 | after one transaction, an account is a node iff it was one or is the sender or the receiver; its send, receive and tx counts each go up by one per role it plays |
| `TxGraph.AddRecordTotals` | app.py:97-103 | one transaction adds its amount to its sender's `total_sent` and to its receiver's `total_received`, and nothing to anyone else's |
| `TxGraph.AddRecordWF` | app.py:80-114 | processing one record preserves the graph invariant (node stats agree with the edges, counts add up) |
| `TxGraph.IngestWF` | app.py:80-114 | the graph built from any ledger satisfies the invariant |
| `TxGraph.EdgeAggregates` | app.py:109-114 | edge (u,v) exists iff some transaction goes from u to v; its count is the number of such transactions and its weight is the sum of their amounts |
| `TxGraph.NodeCounts` | app.py:86-107 | an account is a node iff it appears in some transaction; its send and receive counts are the numbers of transactions where it is sender or receiver; `tx_count` is their sum |
| `TxGraph.NodeTotals` | app.py:97-103 | a node's `total_sent` is the sum of the amounts of the transactions it sent, and its `total_received` the sum of those it received |
| `TxGraph.IngestWeightsNonNegative` | app.py:109-114 | when every amount is non-negative, every edge weight is non-negative |
| `TxGraph.SelfLoopCounterparty` | app.py:100-106 | a self-transfer makes the account its own sender and its own receiver |
| `TxGraph.PairCountPositive` | app.py:109-114 | every transaction contributes to its pair's count |
| `Hub.IsHub` | app.py:121-148 | definition of `_is_merchant_or_payroll`; `CoefficientOfVariation`, `UniformPayrollIsHub` and `NonPositiveMeanIsNotHub` state its properties |
| `Hub.OutAverages` | app.py:137-140 | one average amount per out-edge, for each distinct receiver |
| `Hub.CoefficientOfVariation` | app.py:144-146 | the test `sqrt(variance)/mean < 0.25` is equivalent to the sqrt-free `variance < 0.0625 * mean^2` that the model uses |
| `Hub.UniformPayrollIsHub` | app.py:134-147 | an account paying 20+ receivers with the same positive average amount, and receiving from at most 3 senders, is classed as payroll |
| `Hub.NonPositiveMeanIsNotHub` | app.py:141-148 | a non-merchant whose out-edge averages are all ≤ 0 is never classed as payroll (the `mean_a > 0` guard) |
| `Hub.RegularWhenConstant` | app.py:141-147 | ten or more constant positive amounts pass the regularity test |
| `StrOrder.Irreflexive` | app.py:219 | the string order used by `min` is irreflexive |
| `StrOrder.Asymmetric` | app.py:219 | it is asymmetric |
| `StrOrder.Transitive` | app.py:219 | it is transitive |
| `StrOrder.Total` | app.py:219 | any two distinct strings are comparable, so `min` of a non-empty list is defined |
| `StrOrder.LessEqAntisymmetric` | app.py:219 | the non-strict order is antisymmetric |
| `StrOrder.LessEqTransitive` | app.py:219 | the non-strict order is transitive |
| `StrOrder.LessEqTotal` | app.py:219 | the non-strict order is total |
| `Canon.MinIndex` | app.py:219 | `cyc.index(min(cyc))`: the first position holding the least account |
| `Canon.Rotate` | app.py:220 | `cyc[k:] + cyc[:k]` keeps the length and the multiset of accounts |
| `Canon.RotateAt` | app.py:220 | position i of a rotation by k holds `c[(i+k) mod n]` |
| `Canon.RotateRotate` | app.py:220 | rotating by k and then by q is one rotation by k + q modulo the length |
| `Canon.Canonicalize` | app.py:218-220 | the canonical form is a rotation of the cycle, a permutation of it, and starts with its least account |
| `Canon.CanonicalHasMinFirst` | app.py:218-220 | the least account of the canonical form is at index 0 |
| `Canon.CanonicalizeIdempotent` | app.py:218-220 | canonicalising a canonical form changes nothing |
| `Canon.RotateDistinct` | app.py:220 | rotating a duplicate-free cycle keeps it duplicate-free |
| `Canon.MinIndexOfRotation` | app.py:219 | for a duplicate-free cycle, the minimum's index moves by the rotation amount |
| `Canon.RotationsCanonicalizeAlike` | app.py:176-180 | all rotations of a simple cycle have the same canonical form, so the `canon not in found_cycles` test collapses them |
| `Cycles.RotateHop` | app.py:198-199 | hop i of a rotated cycle is hop (i+k) mod n of the original |
| `Cycles.RotateCycle` | app.py:218-220 | a rotation of a simple graph cycle is a simple graph cycle |
| `Cycles.CanonicalCycle` | app.py:178 | the canonical form of a graph cycle is a graph cycle of the same length and is a fixed point |
| `Cycles.CanonicalFormsAreCycles` | app.py:175-180 | every canonical form collected from the simple cycles of length 3 to 5 is a canonical simple graph cycle of that length |
| `Cycles.CollectCycles` | app.py:174-180 | the loop over `simple_cycles` returns exactly the canonical forms of the cycles of length 3..5, each once |
| `Cycles.DfsCycles` | app.py:222-237 | every cycle the DFS fallback reports is a canonical simple graph cycle of 3 to 5 accounts |
| `Cycles.DfsFrom` | app.py:224-236 | the same, for the search from one start node |
| `Cycles.ExpandFrame` | app.py:230-236 | the successor loop for one popped path keeps every stacked path a simple path from the start, reports only canonical cycles, only grows `visited`, and leaves the stack as it was when it visits nothing new |
| `Cycles.PushFrame` | app.py:234-236 | pushing an unvisited successor keeps every stacked path a simple path from the start of length at most 5 |
| `Cycles.ReportedCycle` | app.py:232-233 | a simple path of 3 to 5 accounts that closes back to its start, once canonicalised, is a canonical cycle |
| `Cycles.CycleFlow` | app.py:197-201 | the loop computes the flow: the sum of the weights of the cycle's hops that are edges of the graph |
| `Cycles.FlowIsCycleWeight` | app.py:197-201 | around a cycle of the graph the `has_edge` test never fails, so the flow is the weight of every hop added up |
| `Cycles.FlowCoversEveryHop` | app.py:197-201 | with non-negative edge weights the flow is non-negative and at least the weight of each hop of the cycle |
| `Cycles.CycleRisk` | app.py:203 | the cycle risk is at most 100; with non-negative flow it is at least `min(100, 60 + 5 * len)` |
| `Temporal.Concentration` | app.py:300-315 | definition of `_temporal_concentration` on the gathered timestamps; `ConcentrationRange` and `ConcentrationFullIff` state its properties |
| `Temporal.Flatten` | app.py:302-306 | the gathered timestamps are exactly those of the given edges |
| `Temporal.CollectTimestamps` | app.py:302-306 | the gathering loop computes `Flatten` |
| `Temporal.TemporalConcentration` | app.py:300-315 | the method returns the concentration of the flattened timestamps |
| `Temporal.CountFrom` | app.py:312-313 | `sum(1 for t in all_ts[i:] if t - ts <= window)` counts the timestamps from position i that lie at most 72 hours after the i-th |
| `Temporal.CountWithinBounds` | app.py:313 | the window count is between 0 and n; it equals n iff every later timestamp is within 72h; it is 0 iff none is |
| `Temporal.WindowMaxBounds` | app.py:311-314 | the best window holds at least the first timestamp's window and at most all timestamps; it holds all iff the first one's window does |
| `Temporal.RatioBounds` | app.py:315 | `max_in_window / len` lies in (0, 1] and equals 1 only when the window holds everything |
| `Temporal.ConcentrationRange` | app.py:307-315 | fewer than 3 timestamps give 0; otherwise the score is in (0, 1] |
| `Temporal.ConcentrationFullIff` | app.py:309-315 | with at least 3 timestamps, the score is 1 iff all timestamps fit within one 72-hour window |
| `Temporal.Span` | app.py:385-387 | the span is at least 1 second |
| `Temporal.SpanIsRange` | app.py:381-387 | the span is max minus min of the timestamps, or 1 when that is ≤ 0 |
| `Temporal.VelocityIntegerForm` | app.py:381-389 | an account is fast iff it has at least 5 timestamps and `3600 * n > 5 * span` |
| `Temporal.RateIntegerForm` | app.py:388-389 | `n / (span / 3600) > 5` is equivalent to `3600 * n > 5 * span` |
| `Sorting.Insert` | app.py:381 | inserting into a sorted list keeps it sorted and adds exactly one element |
| `Sorting.Sort` | app.py:381 | `sorted` returns an ascending permutation of its input |
| `Sorting.SortEnds` | app.py:385 | the first and last sorted timestamps are the minimum and maximum of the input |
| `Sorting.InsertRanked` | app.py:429-430 | inserting the next index keeps the order descending by score and stable |
| `Sorting.StableOrder` | app.py:429-430 | every index appears exactly once; scores are non-increasing; equal scores keep insertion order |
| `Scoring.Flag` | app.py:150-166 | flagging creates the entry if absent, appended at the end of the insertion order. It adds the label only if missing. The score stays ≤ 100. The ring id is the first non-empty one. No other entry changes |
| `Scoring.FlagGrows` | app.py:150-166 | flagging keeps the ledger well formed. It only grows the ledger: keys, labels and scores never shrink and ring ids never change. The flagged account ends with a score of at least `min(100, base)` |
| `Scoring.Amplify` | app.py:390-393 | the velocity bump appends `high_velocity`, adds 15 capped at 100, keeps the ring id and touches no other entry |
| `Scoring.GrowsTransitive` | app.py:150-166 | ledger growth composes across successive flags |
| `Scoring.AmplifyCanRepeatLabel` | app.py:391 | an entry already labelled `high_velocity` gets the label a second time |
| `Scoring.FlagTwiceListsOnce` | app.py:160-166 | flagging an account twice with one label lists the label once and keeps the first ring id |
| `Flagging.FlagEach` | app.py:212-215 | definition of `for acc in members: if not hub: _flag_account(...)` as a left fold of `Flag`, one label per member (also app.py:367-370); the lemmas below state its effect |
| `Flagging.FlagEachFrame` | app.py:212-215 | the loop adds a key for each non-hub member and for no other account, and an account that is not a member keeps its entry |
| `Flagging.FlagEachOnce` | app.py:212-215 | in a duplicate-free member list, each non-hub member's final entry is what a single `_flag_account` call makes of the entry it had before the loop |
| `Flagging.FlagEachGrows` | app.py:212-215 | with a non-negative base the loop keeps the ledger well formed and only grows it |
| `Flagging.FlagLabels` | app.py:273-274 | definition of `for pat in patterns: _flag_account(acc, pat, ...)` on one account, as a left fold of `Flag` |
| `Flagging.FlagLabelsEntry` | app.py:273-274 | after the inner loop the account's entry is its entry before (or a fresh one) bumped once per label, in order |
| `Flagging.BumpAllEffect` | app.py:160-166 | bumping with distinct labels the entry does not list yet appends them in order, adds `share` per label capped at 100, and sets the ring id only if it was empty |
| `Flagging.FlagLabelsOrder` | app.py:152-158 | the inner loop appends the account to the insertion order iff it had no entry, and otherwise leaves the order alone |
| `Flagging.FlagLabelsFrame` | app.py:273-274 | the inner loop adds the account's key and changes no other entry |
| `Flagging.FlagFan` | app.py:269-274 | definition of `for acc in members: for pat in patterns: _flag_account(...)` as a left fold of `FlagLabels` |
| `Flagging.FlagFanFrame` | app.py:269-274 | the fan loop adds a key for each member and for no other account, and an account that is not a member keeps its entry |
| `Flagging.FlagFanOnce` | app.py:269-274 | in a duplicate-free member list, each member's final entry is what one pass of the inner loop makes of the entry it had before the fan loop |
| `Fans.SideEdges` | app.py:254 | one edge per counterparty on the chosen side |
| `Fans.FanBase` | app.py:256 | with a concentration in [0,1], the base `35 + 0.6 * min(count, 50) + 15 * t` lies in [35, 80], so `min(100, base)` is the base itself |
| `Fans.FanShare` | app.py:274 | each flag's share `base * 0.7 / len(patterns)` is non-negative |
| `Fans.NonHubs` | app.py:260 | filtering keeps exactly the non-hub members |
| `Fans.NonHubsKeeps` | app.py:260 | the filter keeps relative order |
| `Fans.NonHubsFirst` | app.py:259-260 | a non-hub node stays at the head of its member list |
| `Fans.FanMembers` | app.py:259-260 | ring members are graph accounts and none is a hub |
| `Fans.SelfLoopRepeatsMember` | app.py:259-260 | an account that sent money to itself appears twice in its own fan-in ring |
| `Fans.FanPatterns` | app.py:270-272 | the labels are `fan_in` or `fan_out`, plus `high_velocity` iff the concentration exceeds 0.5, with no repeats |
| `Fans.FanSites` | app.py:241-262 | every registered fan site is an account of the graph |
| `Fans.SitesWithinFirings` | app.py:252-262 | registered rings never outnumber the ids consumed, because an id is taken even when the ring is dropped for having fewer than 3 members |
| `Fans.AllHubsRegistersNothing` | app.py:252-262 | a check that fires on an account all of whose counterparties are hubs keeps only the account itself, so it takes an id and registers no ring |
| `Smurfing.SideConcentration` | app.py:254-255 | the temporal score of a fan check is in [0, 1] |
| `Smurfing.SideBase` | app.py:256 | the fan base is in [35, 80] |
| `Smurfing.SideShare` | app.py:274 | the per-flag share is non-negative |
| `Smurfing.FanRing` | app.py:259-268 | definition of the ring a fan check registers: the node and its non-hub counterparties, pattern smurfing, risk `min(100, base)` |
| `Smurfing.CheckRings` | app.py:262-268 | definition of the rings one check appends: its ring iff it registers |
| `Smurfing.CheckFlags` | app.py:269-274 | definition of the ledger after one check: `FlagFan` over its members with its labels and share iff it registers |
| `Smurfing.NodeRings` | app.py:251-292 | definition of the rings a node's two checks append, fan-in then fan-out, the fan-out id one higher when fan-in fired |
| `Smurfing.NodeFlags` | app.py:251-298 | definition of the ledger after a node's two checks |
| `Smurfing.SmurfRings` | app.py:240-298 | definition of the ring list `detect_smurfing` leaves, node by node in insertion order |
| `Smurfing.SmurfFlags` | app.py:240-298 | definition of the ledger `detect_smurfing` leaves, node by node in insertion order |
| `Smurfing.CheckRingIds` | app.py:257-265 | a registered fan ring carries the id its check was given, and a check registers only when it fired |
| `Smurfing.SmurfRingIds` | app.py:240-298 | the smurfing loop keeps the ids of the ring list strictly increasing, above the earlier ones, and leaves the earlier rings in front |
| `Smurfing.NodeIdsAppend` | app.py:251-298 | one node's rings keep the ids increasing, each at most the last id the node consumed |
| `Smurfing.CheckOutcome` | app.py:262-274 | a check that registers appends its `FanRing` and flags by `FlagFan`; one that does not appends nothing and leaves the ledger as it was |
| `Smurfing.HubNode` | app.py:242-243 | a hub consumes no id, registers nothing and flags nobody |
| `Smurfing.SmurfProgressStep` | app.py:241-298 | checking one more node carries the loop's progress over: ids consumed so far, and the rest of the loop yielding the whole loop's rings and ledger |
| `Shells.ShellCount` | app.py:352 | the candidate count is at most the number of accounts examined |
| `Shells.Qualifies` | app.py:349-352 | definition of the registration test: at least 4 accounts, at least 2 inside, at least 60% of those candidates; `QualifiesInIntegers` restates it without reals |
| `Shells.QualifiesInIntegers` | app.py:350-352 | for a path of 4+ accounts the 60% test holds iff `5 * shells >= 3 * (len - 2)` |
| `Shells.LayeringRisk` | app.py:360 | the layering risk is at most 100 and at least `min(100, 50 + 3 * len)` |
| `Reconcile.ClaimAll` | app.py:405-416 | definition of the claiming loop over the detected rings; `ClaimsAreFirstRings`, `SurvivorsAreClaimed`, `SurvivorsAreDisjoint` and `SurvivorsKeepOrder` state its properties |
| `Reconcile.Survivors` | app.py:413-416 | definition of the rings kept: those left with at least 2 members; the same lemmas state their properties |
| `Reconcile.Retain` | app.py:418-425 | definition of the filtered ledger; `RetainOk` and `ReconciledLedger` state its properties |
| `Reconcile.ClaimRing` | app.py:408-412 | claiming a ring's members adds exactly the unclaimed ones, under this ring's id, and keeps earlier claims. The kept members are those not claimed before, in order and without repeats |
| `Reconcile.ClaimFresh` | app.py:408-412 | a ring whose distinct members are all unclaimed keeps every member, in order |
| `Reconcile.ClaimMembers` | app.py:408-412 | the member loop of one ring computes `ClaimRing` |
| `Reconcile.Members` | app.py:407-411 | an account is a member iff some detected ring lists it |
| `Reconcile.FirstId` | app.py:409-411 | the first detected ring listing the account |
| `Reconcile.ClaimsAreFirstRings` | app.py:405-416 | the claimed accounts are exactly the members of all detected rings, and each is claimed by the first ring that lists it |
| `Reconcile.SurvivorsAreClaimed` | app.py:407-416 | each surviving ring has at least 2 members, all distinct, and came from a detected ring with the same id, pattern and risk. Its members are members of that ring, and each is claimed by it |
| `Reconcile.SurvivorsAreDisjoint` | app.py:405-416 | no account is a member of two surviving rings |
| `Reconcile.SurvivorsKeepOrder` | app.py:406-416 | survivors keep the detection order, so their ids increase |
| `Reconcile.DroppedRingStillClaims` | app.py:405-425 | a ring cut down to one member is dropped, yet its member stays claimed under the dropped ring's id and stays in the suspicious list |
| `Reconcile.ClaimRings` | app.py:405-416 | the claiming loop computes `ClaimAll` |
| `Reconcile.ClaimedOnly` | app.py:424-425 | keeps exactly the claimed accounts, in insertion order |
| `Reconcile.RetainClaimed` | app.py:418-425 | the filtering loop computes `Retain`: the claimed entries, each with the claiming ring's id, in insertion order |
| `Reconcile.RetainOk` | app.py:418-425 | the filtered ledger is well formed. Its keys are exactly the flagged accounts that are claimed. Each kept entry is unchanged except that its ring id becomes the claiming ring's. Its order is the old insertion order restricted to claimed accounts |
| `Reconcile.ReconciledLedger` | app.py:405-425 | after claiming and filtering, the ledger keeps exactly the flagged accounts that some detected ring lists. Each keeps its labels and score and takes the id of the first ring that lists it |
| `Reconcile.Scores` | app.py:429-430 | one score per suspicious account, in insertion order |
| `Reconcile.Ranked` | app.py:429-430 | the ranked list is every entry exactly once, by non-increasing score |
| `Reconcile.RankedTiesKeepInsertionOrder` | app.py:429-430 | entries with equal scores stay in insertion order (`sorted` is stable) |
| `Views.RingIdsOf` | app.py:453-456 | definition of an account's `rings` list: the ids of the rings listing it, in ring order; `RingIdsOfDisjoint` and `BuildMembership` state its properties |
| `Views.EdgeViews` | app.py:470-477 | definition of the `edges` records, node by node and successor by successor; `EdgeViewsExact` and `BuildEdgeViews` state its properties |
| `Views.IdsInDistinct` | app.py:455-456 | within one ring with distinct members, an account collects the ring's id once or not at all |
| `Views.RingIdsOfDisjoint` | app.py:453-456 | over disjoint rings, an account's `rings` list has at most one id. It is the id of the ring containing it, and the list is empty iff no ring contains it |
| `Views.NodeViews` | app.py:458-468 | one view per graph node |
| `Views.SuspiciousMarks` | app.py:458-468 | node i's view is for node i. It is marked suspicious iff the account is in the ledger. Its score is the ledger score, or 0.0 when it is not suspicious |
| `Views.Outgoing` | app.py:471 | the out-edges of a node, one per successor |
| `Views.EdgeListExact` | app.py:471-477 | the edge iteration lists every graph edge exactly once |
| `Views.EdgeViewsStep` | app.py:471-477 | the views of one more node's out-edges are appended |
| `Views.EdgeViewsExact` | app.py:471-477 | every graph edge has its view in the report, and no (source, target) pair appears twice |
| `Views.IdsInStep` | app.py:455-456 | scanning one more member adds this ring's id iff it is the account |
| `Views.RingIdsOfStep` | app.py:454-456 | scanning one more ring appends its contribution |
| `Views.BuildMembership` | app.py:453-456 | the `ring_membership` loop records, per account, exactly the ids of the rings listing it, in ring order |
| `Views.BuildNodeViews` | app.py:458-468 | the node loop computes `NodeViews` |
| `Views.BuildEdgeViews` | app.py:470-477 | the edge loop computes `EdgeViews` |
| `Views.AppendOutgoing` | app.py:471-477 | appends one view per out-edge of one node |
| `Engine.ForensicsEngine.constructor` | app.py:71-77 | the engine starts with the graph of the records, no rings, an empty ledger and counter 0 |
| `Engine.ForensicsEngine.NextRingId` | app.py:117-119 | the counter goes up by one and the new value is the id; nothing else changes |
| `Engine.ForensicsEngine.FlagAccount` | app.py:150-166 | the ledger becomes `Flag` of the old one, only grows, and the flagged account's score is at least `min(100, base)` |
| `Engine.ForensicsEngine.FlagMembers` | app.py:212-215 | the ledger becomes `FlagEach` of the old one (the loop's left fold of `_flag_account` over the non-hub members, in order); rings and counter are unchanged; every non-hub member ends flagged with its label and at least `min(100, base)` |
| `Engine.CyclesOf` | app.py:170-183 | the cycles to register are canonical simple cycles of 3 to 5 accounts; given `simple_cycles`, they are exactly its canonical forms |
| `Engine.CycleInGraph` | app.py:212-213 | every account of a graph cycle is a graph node |
| `Engine.NodeSets` | app.py:186-191 | the member set of each ring, in order |
| `Engine.CycleRing` | app.py:193-210 | definition of the ring registered for one cycle: the given id, the cycle as members, pattern cycle, risk from its flow |
| `Engine.CycleRings` | app.py:186-210 | definition of the rings the `seen_sets` loop registers: one per cycle whose node set no earlier ring has, in order, with the next id; the lemmas below state its properties |
| `Engine.HasNodeSetIff` | app.py:189 | `s in seen_sets`, asked of the rings registered so far, holds iff `s` is the member set of one of them |
| `Engine.CycleRingsSkip` | app.py:188-190 | a cycle whose node set a ring already has adds no ring |
| `Engine.CycleRingsAdd` | app.py:188-210 | a cycle with a new node set appends its ring, with the next id |
| `Engine.CycleRingsFromFound` | app.py:186-210 | there are at most as many rings as cycles; ring i has id `counter + i + 1` and its members are one of the cycles |
| `Engine.CycleRingsDistinct` | app.py:186-191 | no two registered rings have the same node set |
| `Engine.CycleRingsCover` | app.py:186-191 | every cycle's node set is the member set of a registered ring |
| `Engine.CycleFlags` | app.py:212-215 | definition of the ledger after the members of each cycle ring are flagged in turn, by `FlagEach` with label `cycle_length_n` and base `40 + 5n` |
| `Engine.CycleRingRiskFloor` | app.py:196-203 | with non-negative edge weights (non-negative amounts, by `IngestWeightsNonNegative`), a registered cycle ring's risk lies between `min(100, 60 + 5 * len)` and 100 |
| `Engine.ForensicsEngine.DetectCycles` | app.py:169-215 | the cycles it goes through are exactly the canonical forms of the enumerated cycles. The new rings are `CycleRings` of them, each one a canonical form of an enumerated cycle, and the ledger becomes `CycleFlags` of the old one over the new rings. Each new ring is a canonical cycle with the risk from its flow; its non-hub members are flagged `cycle_length_n` with at least `min(100, 40 + 5n)`. No two new rings share a member set, every enumerated cycle's member set has a ring, and one id is consumed per ring |
| `Engine.ForensicsEngine.ConsiderAll` | app.py:186-215 | after the loop the new rings are exactly `CycleRings` of the canonical cycles, the ledger is `CycleFlags` of the old one over them, the counter rose by one per ring, and `seen_sets` holds the rings' member sets, without repeats, covering every cycle |
| `Engine.ForensicsEngine.ConsiderCycle` | app.py:187-215 | a cycle whose member set a new ring already has changes nothing; otherwise exactly its `CycleRing` with the next id is appended. Either way the new rings are `CycleRings` of the cycles so far |
| `Engine.ForensicsEngine.KeepCycle` | app.py:191-215 | a cycle with an unseen member set appends its `CycleRing` with the next id and its set to `seen_sets`; the ledger is `CycleFlags` over the rings so far |
| `Engine.ForensicsEngine.RegisterCycle` | app.py:193-215 | takes the next id and appends `CycleRing` of the cycle under it; the ledger becomes `FlagEach` with label `cycle_length_n` and base `40 + 5n`; the rings registered before keep their flags |
| `Engine.CycleRingsExtend` | app.py:193-215 | flags only accumulate, so the cycle rings registered earlier keep their flags when a new ring is flagged |
| `Engine.ForensicsEngine.DetectSmurfing` | app.py:240-298 | the ring list becomes `SmurfRings` and the ledger `SmurfFlags` of the old ones: node by node in insertion order, fan-in then fan-out, each check that fires takes the next id, registers its `FanRing` when at least 3 members remain, and flags each member with every label. The counter rises by the number of checks that fire. The new rings match the registering checks one for one |
| `Engine.ForensicsEngine.SmurfNodes` | app.py:241-298 | the node loop carries its progress from no node to all: after k nodes the counter is the old one plus the checks fired so far, and `SmurfRings`/`SmurfFlags` from node k on give the whole loop's rings and ledger |
| `Engine.ForensicsEngine.SmurfNode` | app.py:241-298 | one node moves that progress on by one node |
| `Engine.ForensicsEngine.CheckNode` | app.py:241-298 | a hub changes nothing; any node's rings become `NodeRings`, its ledger `NodeFlags`, and the counter rises by the node's firings |
| `Engine.ForensicsEngine.FanCheck` | app.py:251-298 | the counter rises by one iff the check fires; the rings gain `CheckRings` (its ring iff it registers) and the ledger becomes `CheckFlags`, both under the next id |
| `Engine.ForensicsEngine.FireCheck` | app.py:253-274 | a check that fired consumes exactly one id, appends `CheckRings` and flags by `CheckFlags` under that id |
| `Engine.ForensicsEngine.FanInputs` | app.py:254-256 | the temporal score and base are `SideConcentration` and `SideBase`, in [0, 1] and [35, 80] |
| `Engine.ForensicsEngine.KeepFan` | app.py:259-274 | with the id already taken, the rings gain `CheckRings` and the ledger becomes `CheckFlags`; the counter is unchanged |
| `Engine.ForensicsEngine.RegisterFan` | app.py:262-274 | appends `FanRing` of the check and the ledger becomes `FlagFan` over its members with its labels and share |
| `Engine.ForensicsEngine.AddRing` | app.py:205-210 | appends one ring and changes nothing else |
| `Engine.ForensicsEngine.FlagFanMembers` | app.py:269-274 | the ledger becomes `FlagFan` of the old one; every member ends flagged with each label and at least `min(100, share)` |
| `Engine.ForensicsEngine.FlagPatterns` | app.py:273-274 | the ledger becomes `FlagLabels` of the old one; the account ends flagged with each label and at least `min(100, share)` |
| `Engine.ForensicsEngine.ShellCandidates` | app.py:320-324 | the candidates are exactly the accounts with 2 or 3 transactions |
| `Engine.ChainEndLabels` | app.py:367-370 | the label follows candidacy, not position: a chain's first account is labelled `shell_endpoint`, and its last account `shell_intermediate` iff it is a candidate |
| `Engine.ExtendFrame` | app.py:343-347 | extending a path by an unvisited successor gives a simple path from the start, with the shell count updated |
| `Engine.ShellRing` | app.py:353-366 | definition of the ring registered for a chain: the given id, the chain as members, pattern layering, risk from its shell count |
| `Engine.VisitRings` | app.py:344-370 | definition of the rings after one successor is visited: the extended path's ring, with the next id, iff it is off the path, qualifies and has a new node set |
| `Engine.VisitStack` | app.py:344-372 | definition of the stack after one successor is visited: the extended frame pushed iff it is off the path and shorter than 7 |
| `Engine.VisitCases` | app.py:343-372 | the three cases of a visit as the source writes them (on the path, registered, not registered) are what `VisitRings` and `VisitStack` compute |
| `Engine.FrameRings` | app.py:343-372 | definition of the rings after the successors of one popped frame are visited in order |
| `Engine.FrameStack` | app.py:343-372 | definition of the stack after the successors of one popped frame are visited in order |
| `Engine.FrameStackOk` | app.py:343-372 | visiting the successors keeps every stacked path a simple path of 1 to 6 accounts from the start and leaves the counts of paths up to the popped one's length unchanged, which bounds the search |
| `Engine.ShellSearch` | app.py:337-372 | definition of the rings `_find_shell_chains` registers: pop the last frame, visit its successors in `receivers` order, repeat until the stack is empty |
| `Engine.StartStackOk` | app.py:338 | the start frame of a non-candidate node is well formed |
| `Engine.ShellNetworks` | app.py:330-335 | definition of the rings `detect_shell_networks` registers: one `ShellSearch` from each non-candidate node, in insertion order, sharing the list of node sets |
| `Engine.ShellFlags` | app.py:367-370 | definition of the ledger after the non-hub members of each layering ring are flagged in turn with their shell labels and base `30 + 5 * shells` |
| `Engine.ForensicsEngine.DetectShellNetworks` | app.py:318-335 | with no candidate nothing changes. Otherwise the new rings are exactly `ShellNetworks` from the old counter and the ledger is `ShellFlags` of the old one over them, one id per ring. Each new ring is a layering chain: 4 to 7 distinct linked accounts, starting at a non-candidate, at least 60% candidates inside. Its risk is from its shell count, and its non-hub members carry their shell label with at least `min(100, 30 + 5 * shells)`. No two new rings share a member set |
| `Engine.ForensicsEngine.FindShellChains` | app.py:337-372 | the rings registered from one start are exactly `ShellSearch` from the start frame, and the rings, counter, node sets and `ShellFlags` ledger stay in step |
| `Engine.ForensicsEngine.ExpandShellFrame` | app.py:343-372 | the successor loop of one popped frame yields exactly `FrameRings` and `FrameStack`; every stacked path stays a simple path from the start, and the counts of paths up to the popped one's length are unchanged |
| `Engine.ForensicsEngine.VisitSuccessor` | app.py:343-372 | a successor on the path changes nothing. Otherwise a qualifying path with a new node set appends that set and its `ShellRing` with the next id, any other path registers nothing, and the extended frame is pushed iff the new path is shorter than 7 |
| `Engine.ForensicsEngine.ConsiderChain` | app.py:350-355 | the path is registered, with its node set and `ShellRing` under the next id, iff it qualifies and its node set is new |
| `Engine.ForensicsEngine.RegisterChain` | app.py:353-370 | appends the chain's node set and its `ShellRing` with the next id; the ledger is `ShellFlags` over the rings so far |
| `Engine.ShellRingsExtend` | app.py:353-370 | flags only accumulate, so the chains registered earlier keep their flags when a new ring is flagged |
| `Engine.VelocityPass` | app.py:375-393 | definition of the ledger after `detect_high_velocity` has visited the first k nodes; the lemmas below state its effect |
| `Engine.VelocityStep` | app.py:377-393 | one more node: the account is bumped iff it is fast and already flagged |
| `Engine.VelocityPassGrows` | app.py:375-393 | the velocity pass keeps the set of suspicious accounts, their order and their ring ids, and only grows scores and labels |
| `Engine.VelocityPassEffect` | app.py:377-393 | an already flagged account gets `high_velocity` and +15 (capped) iff it is a non-hub with a fast rate; otherwise it is unchanged |
| `Engine.ForensicsEngine.DetectHighVelocity` | app.py:375-393 | the ledger becomes the velocity pass of the old one; rings and counter are unchanged |
| `Engine.ForensicsEngine.FastNode` | app.py:378-389 | the hub test, the 5-timestamp test and the rate test on one node agree with `Fast` |
| `Engine.ReportedRingIds` | app.py:405-456 | after claiming, each node's `rings` list has at most one id, and that id is the account's claiming ring |
| `Engine.ForensicsEngine.DetectCyclesAndFans` | app.py:397-398 | the cycle rings are `CycleRings` of the canonical cycles; the fan rings follow, the ring list being `SmurfRings` from the counter after the cycles; the ledger is `SmurfFlags` of `CycleFlags` of the old one; the counter ends at the old one plus the cycle rings plus the fan checks fired. The cycle rings keep their flags through smurfing |
| `Engine.ForensicsEngine.DetectAll` | app.py:397-400 | the four detectors in order. The ring list is the old one plus the cycle, fan and shell rings, each given by its detector's specification function from the counter the previous detector left (`CycleRings`, `SmurfRings`, `ShellNetworks`). The ledger before the velocity pass is `ShellFlags(SmurfFlags(CycleFlags(old)))` over those rings, and the final ledger is the velocity pass of it. Each ring keeps the shape and flags its detector promises |
| `Engine.ForensicsEngine.Reconcile` | app.py:402-494 | the rings become the survivors. The ledger keeps exactly the flagged accounts that some detected ring listed, each with its first ring's id, in insertion order restricted to claimed accounts. The report is the ranked list, the surviving rings, the counts, and the node and edge views |
| `Engine.ForensicsEngine.Run` | app.py:396-494 | the whole run: the rings and ledgers of each detector as in `DetectAll`, then the reconciliation of all detected rings against the ledger after the velocity pass, as in `Reconcile` |

## Behaviour of the code worth knowing

The model follows the code in every case below.

- **Dropped rings still claim accounts.** The comment at app.py:423 says the
  filter removes accounts that no longer belong to any ring. But the claim map
  is filled before the `>= 2` test (app.py:409-415), so the member of a ring
  cut down to one account stays claimed although the ring is dropped. Its
  entry survives the filter (app.py:424-425) and carries the dropped ring's
  id, which no reported ring has (`Reconcile.DroppedRingStillClaims`).
- **Duplicate labels.** `detect_high_velocity` appends `high_velocity`
  without checking (app.py:391), so an account labelled by a fan check can
  list it twice (`Scoring.AmplifyCanRepeatLabel`). Fan-in on an account that
  sent money to itself lists that account twice in its own ring
  (`Fans.SelfLoopRepeatsMember`).
- **Order of the fan checks.** Fan-in and fan-out run node by node
  (app.py:241-298), so the two kinds of ring are interleaved in the ring
  list rather than all fan-in rings first; this order decides which ring
  claims an account.
- **Hubs in rings.** Merchant and payroll hubs are removed only from fan
  rings (app.py:260, app.py:284). Cycle and layering rings keep hubs as
  members and only skip flagging them (app.py:212-213, app.py:367-368).
- **Ids for dropped fan rings.** A fan check takes a ring id before the
  3-member test (app.py:257, app.py:281), so a fan ring dropped for having
  fewer than 3 members leaves a gap in the numbering. `Fans.AllHubsRegistersNothing`
  gives such a check: one that fires on an account whose counterparties are
  all hubs; `Fans.SitesWithinFirings` bounds the rings by the ids consumed.
- **Fan risk cap.** The ring risk is `min(100, base)`, but the flag shares use
  the uncapped base (app.py:274). `Fans.FanBase` proves the base never
  exceeds 80, so the two agree.
- **Fallback depth.** In the DFS fallback the `depth >= 5` guard
  (app.py:229) never fires, because frames are pushed only with `depth < 4`.
  The `visited` map is also shared by all paths from one start, so the
  fallback can miss cycles that `simple_cycles` would find.
- **Shell chain length.** The shell-chain guard `len(path) > 6` (app.py:341)
  never fires, because a path is pushed only while shorter than 7.

## Left out

- Flask routing, CSV parsing and the column checks, and JSON serialisation (app.py:1-63,
  app.py:497-499). They are I/O around the engine.
- `nx.simple_cycles`: its output is a parameter, required to be a list of simple
  cycles of the graph. Python's exception handling around it is the `None` case.
- `round(..., 1)` and `round(..., 2)` on scores, risks and amounts. Exact reals are
  kept, and the report holds the unrounded values.
- Floating-point arithmetic. `float` is modelled as exact `real`.
- `** 0.5`. The payroll test compares `variance < 0.0625 * mean^2` instead, which
  `Hub.CoefficientOfVariation` proves equivalent to `sqrt(variance) / mean < 0.25`.
- `datetime` and `timedelta`. Timestamps are whole seconds.
- The text `RING_%03d`. Ring ids are the counter values.
- `processing_time_seconds` (set by the route) and the field order of `OrderedDict`.
- The iteration order of Python sets and of networkx nodes and successors.
  The model fixes one order, first seen, and its properties are stated for
  that order. Three results depend on it: the member order of a fan ring
  (`list(d["senders"])` and `list(d["receivers"])`, app.py:259 and app.py:283),
  and with it which ring claims an account at reconciliation; the order in
  which cycles and chains are found, and with it their ids; and the relative
  order of entries with equal scores in the ranking.
- `edge[2] if len(edge) == 3 else edge` and the `"timestamps" in edata` test
  (app.py:304-305). Edges always carry timestamps here, so only the `edge[2]` path is taken.
- `Cycles.DfsCycles`: states soundness only (every reported cycle is a canonical simple
  cycle of 3 to 5 accounts), not which cycles are found. The shared `visited`
  map makes the search incomplete.
- `Engine.ForensicsEngine.DetectShellNetworks`: the rings are given exactly by
  `ShellNetworks`, a recursive definition of the search, and each is proved a
  qualifying chain with a new member set. There is no closed statement of
  which qualifying chains the search reaches, since the shared list of node
  sets and the depth-first order decide it.
- `Engine.ForensicsEngine.FindShellChains`: the same, for the search from one start node.
- The guards that never fire (app.py:229 and app.py:341) are not written out.
  `_flag_account`'s `if not entry["ring_id"]` test is modelled with id 0 as
  the empty id. That id never occurs, because every flag carries a consumed id.
