# Admission, planning and plan checking in ORION: a verified model

ORION admits service function chains onto a multi-domain substrate: nodes with CPU and RAM,
links with bandwidth. This project models the parts of it that change a shared ledger of
residual capacity, or that promise to agree with a declarative rule, and proves what they
keep.

The project has six connected parts.

1. **The admission transaction.** `Types`, `Ledger`, `Substrate`, `Routing`, `RouteRule`,
   `Actors`, `GreedyActor`, `DomainActor`, `Locality`, `Fragments`, `Dispatch`,
   `DelayAccounting`, `BorderHops`, `Coordinator`, `FrameLeak`.
   A request arrives with a partition of its chain over domains. The coordinator cuts it into
   fragments, lets one actor per domain debit nodes and links in place, routes the crossing
   flows on the debited graph, judges the result, and takes every debit back, on rejection and
   on commit. `SubstrateNetwork` is a class; all these steps are methods that change it.
2. **The guard and the builders.** `ChainOrder`, `Observation`, `Admissibility`, `Builders`,
   `GuardSoundness`, `GuardedArrival`. Chain-order contiguity, the per-tier best-node
   observation, the exact minimal repair, and two builders that are fixed points of it.
3. **The plan cache.** `PlanCache`, `CachedBuilder`. A bounded recency cache and the builder
   wrapped around it, over arbitrary histories.
4. **Decoding and checking plans.** `AbstractPlans`, `PlanRules`, `StructuralChecker`, `AgentB`. The
   structural checker against rules stated on the lists of the plan and the topology, and the
   grammar whose output it accepts.
5. **Hop distances.** `Graphs`, `HopToBorder`. A multi-source breadth-first search.
6. **Baselines, episodes, metrics.** `FfdPlacing`, `FfdRouting`, `GreedyFfd`, `ColocationFfd`,
   `EventLoop`, `StructureMetrics`.

Refusals are specified as precisely as successes. `RouteRule` says what it means to route a list of
flows by the selection rule, each on what the routes before it left, and when that gets stuck; both
are determined by the starting residuals. The actors, the crossing-flow router and the baselines
accept exactly when their own placing and routing rules do not get stuck. The transaction's verdict
is about the attempt those actors make, not about any attempt.

## Where the code and its descriptions differ

The model follows the code.

- In the greedy actor the required tier only ranks nodes; the actor may choose another tier
  (`src/orion/actors/greedy_domain_actor.py:263-268`).
- The frame assertions of the commit path run while the provisional debits are in place
  (`src/orion/mdo/coordinator.py:336-366`). When one fires, the restore further down is skipped
  and the chain's demand stays debited. `ResolveArrival` says exactly when that happens
  (`FrameCheckFailed`), `NodeFrameHolds` that the node-based variant cannot fire for VNFs that
  list their nodes, and `FrameLeak.TierFrameLeaks` runs the transaction on a one-node substrate
  where the tier-based variant fires and the capacity is lost.
- The crossing-flow router has one exit that keeps earlier debits, for an endpoint that is not
  placed (`src/orion/mdo/coordinator.py:774-788`). `CrossFlowsHaveEndpoints` shows that the
  transaction never takes it.
- The per-tier best-node test is neither sufficient nor necessary for a fitting node
  (`AdmissibleCanBeHollow` and `GuardIsNotNecessary` give inputs). Its yes can be trusted exactly
  when the permitted tiers of the domain are whole or the VNF asks for nothing (`YesIsSoundIff`);
  its no is final exactly when each reported pair dominates every node of its tier
  (`NoIsFinalIff`).
- `PlanCache.put` on a key that is held keeps its old position
  (`src/orion/llm/plan_cache.py:274-276`); only insertion, a served lookup and refresh count as
  recent use.
- `_try_single_domain` routes over the whole graph, not inside the domain
  (`src/orion/baselines/colocation_ffd.py:86-88`), and counts every link as inside.
- The hop map of a domain without border nodes is zero everywhere, not the node count.
- A host slack band above one always empties the host list, even when hosts exist
  (`EmptyIffNoHost`, `BandOfBest`).

## Conventions

Quantities are exact reals. Identifiers are natural numbers, whose order stands for the order of
the identifier strings; domain, VNF and tier names of the abstract plans are opaque. A dictionary
whose order is observable is an `OrderedDict`, a sequence of pairs with distinct keys. Sets that
the program iterates over are visited in an arbitrary order. A chain has distinct VNF ids,
non-negative demands and exactly the flows between consecutive VNFs
(`src/orion/types.py:165-167`); links have distinct ids.

The path searches of the graph library are one function of the topology, from a set of allowed
links and two nodes to a list of paths. It is only assumed to return simple paths between the
nodes over allowed links, so no lemma depends on it being complete. Statements that a flow has no
eligible path are relative to the paths it lists. "Shortest" means the first one listed.

A learned policy is any function that picks a mask-true index or refuses. The inner plan builder,
the network condition, the delay predictor and the quality-of-service gate are arbitrary
functions.

## Model

| member | source | states |
|---|---|---|
| Coordinator.ResolveArrival | src/orion/mdo/coordinator.py:160-431 | One arrival as a transaction. On reject and on commit every node and link residual is what it was before the call, whatever mix of actors answered. A partition in which a domain is left and re-entered is refused without an attempt when the order rule is on; otherwise the attempt reported is the one the actors and the routing rule make at the residuals found (every domain answers with its actor's own answer, the crossing phase fails exactly when the rule gets stuck). The arrival commits exactly when every domain accepts, the crossing flows got through, the sum of the reported delays plus the crossing delay is at most the budget, the hops (the steps of the crossing routes' node paths between nodes of two domains) are at most the limit, and every VNF's domain holds a node it names or, in the tier variant, a node of its tier. The only other ending, a failed frame assertion, is characterised by an if-and-only-if and leaves exactly the chain's demand missing. |
| Coordinator.PassesMeans | src/orion/mdo/coordinator.py:263-315 | The tests the code makes are these four: no re-entry where that is asked for, all domains and the crossing flows accepted, the reported delays within the budget, the hops within the limit. |
| Coordinator.Attempts | src/orion/mdo/coordinator.py:265-315 | Dispatch and crossing routes with all provisional debits in place: residuals are the originals minus exactly what the attempt recorded, nothing is below zero, every domain of the partition answered once and with its actor's own answer, and the crossing phase fails exactly when routing the crossing flows in order, by the selection rule on what the actors left, gets stuck. |
| Coordinator.Undo | src/orion/mdo/coordinator.py:716-739 | Node snapshot plus link give-back restores precisely the residuals the attempt started from. |
| Coordinator.RouteCrossDomainFlows | src/orion/mdo/coordinator.py:741-821 | Every crossing flow is served by the route the rule selects among its three first paths given the routes before it, with its bandwidth reserved once, or every link is as before. The hops returned are the number of steps of those routes' node paths that join nodes of two different domains, at least one per flow. With all endpoints placed it fails exactly when the rule gets stuck. The early exit for an unplaced endpoint is the only one that keeps debits. |
| BorderHops.RouteCrossings | src/orion/mdo/coordinator.py:796-816 | The hops one route adds are the steps of its node path between nodes of two domains, so a route that stays among nodes of one domain adds none. |
| BorderHops.PathIsAlong | src/orion/mdo/coordinator.py:796-816 | For a selected route that path is the one selected: the hops are the positions of the path where the domain changes. |
| BorderHops.OneHopCount | src/orion/mdo/coordinator.py:796-816 | The node paths behind recorded routes are unique, so the hop count of a set of routes is one number. |
| Coordinator.ReleaseRoutes | src/orion/mdo/coordinator.py:823-845 | Releasing every recorded route gives back exactly the reservations recorded, flow by flow. |
| Coordinator.CrossFlowsHaveEndpoints | src/orion/mdo/coordinator.py:774-788 | Once all actors are feasible, both ends of every crossing flow are placed, in different domains: the missing-endpoint exit cannot be taken. |
| Coordinator.CommitFits | src/orion/mdo/coordinator.py:331-384 | Node by node the CPU, and the RAM, of all VNFs of the chain placed there is at most the residual before the call, and so is the bandwidth of all routes, inside and crossing, on every link: the definitive allocation cannot overcommit. |
| Coordinator.CommitIsSound | src/orion/mdo/coordinator.py:263-384 | All commit guarantees from the accepting tests and the attempt's ledger: legal hosts in the assigned domains, joint CPU, RAM and link capacity, every flow accounted for once, end-to-end delay equal to node delay times intensity on every host plus propagation of what was reserved, the exact border hops, run and hop bounds. |
| Coordinator.CrossRoutedMeetsDelay | src/orion/mdo/coordinator.py:282-315 | When the chain spans several runs and its crossing flows were routed by the rule, the delay test after the crossing phase can never fail: the last route chosen already kept the sum within the budget. |
| Coordinator.CommitBoundsDomains | src/orion/mdo/coordinator.py:796-816 | A committed chain uses at most (hop limit + 1) domains, has at most that many runs, and with the order rule on has exactly one run per domain. |
| Coordinator.NodeFrameHolds | src/orion/mdo/coordinator.py:336-366 | The node-based frame assertion cannot fire for VNFs that list their nodes: the placement about to be committed is a witness. |
| FrameLeak.TierFrameLeaks | src/orion/mdo/coordinator.py:336-366 | A whole run of the transaction on a concrete one-node substrate ends in the failed tier-based assertion, with the node's full capacity still debited. |
| Dispatch.DispatchToActors | src/orion/mdo/coordinator.py:696-714 | Whatever order the fragments are asked in, residuals drop by exactly what the responses record, every domain answers once, and each response is what its actor answers at the residuals before the dispatch: accepted exactly when no reason to refuse exists there, with the placements and routes its rules give there. |
| Dispatch.OwnLinksUntouched | src/orion/mdo/coordinator.py:696-714 | The responses of other domains change no residual of a link whose two ends lie in this domain. |
| Locality.GreedyAnswerSame | src/orion/actors/greedy_domain_actor.py:47-186 | The greedy actor's answer, acceptance and refusal alike, depends only on the residuals of its own nodes and of the links with both ends in its domain. |
| Locality.LearnedAnswerSame | src/orion/actors/domain_actor.py:85-300 | So does the learned actor's, for every policy. |
| Dispatch.OwnDomainPlaced | src/orion/mdo/coordinator.py:696-714 | What all responses together put on a node is what its own domain's response put there. |
| Dispatch.ChainPlaced | src/orion/mdo/coordinator.py:318-331 | After merging the responses every VNF of the chain sits on a permitted node of the domain it was assigned to. |
| Dispatch.ChainLoad | src/orion/mdo/coordinator.py:318-331 | The load of the merged chain on any node equals the sum of what the responses debited there: nothing lost or counted twice by the merge. |
| DelayAccounting.DelayAccounted | src/orion/mdo/coordinator.py:289-315 | The delays the actors report add up to the processing delay of the whole chain at its hosts plus the propagation delay of every inner route. |
| Fragments.BuildFragments | src/orion/mdo/coordinator.py:614-694 | The grouping loops build, per domain, the fragment cut from the chain: its VNFs are those of the positions assigned to it, in chain order, each with the tier of its position; its flows those between two such positions; its budget the request's. What is left are exactly the flows between positions of two domains. |
| Fragments.FragmentMeans | src/orion/mdo/coordinator.py:644-694 | The declarative fragment is that cut: members, order, flows, budget, and for every position the required tier given for it. |
| Fragments.FlowInside | src/orion/mdo/coordinator.py:661-674 | A flow is in the fragment of a domain exactly when it joins two consecutive positions both assigned to it. |
| Fragments.FlowAcross | src/orion/mdo/coordinator.py:661-674 | A flow is left to the coordinator exactly when its two positions lie in different domains. |
| Fragments.CrossingFlows | src/orion/mdo/coordinator.py:661-674 | The number of crossing flows is the number of runs of the partition minus one. |
| Fragments.FragmentWellFormed | src/orion/mdo/coordinator.py:675-694 | Every fragment cut from a chain meets what the actors rely on: distinct VNFs, flows from earlier to later VNFs, no shared target. |
| Actors.Rollback | src/orion/actors/greedy_domain_actor.py:276-287 | Releasing the recorded routes in reverse order and writing the snapshots back restores the residuals before the attempt, on nodes and links. |
| Actors.ServeFlow | src/orion/actors/greedy_domain_actor.py:139-172 | One flow is accounted for exactly once: same node with an empty route, or a connected route inside the domain whose bandwidth is reserved; or no candidate path is eligible and nothing changed. |
| Actors.ProcessingIsSum | src/orion/actors/greedy_domain_actor.py:104-107 | The processing delay of a placement is the sum over its VNFs of node delay times intensity on the host. |
| GreedyActor.Act | src/orion/actors/greedy_domain_actor.py:47-186 | Feasible: all VNFs on the nodes the placing rule picks, every flow on the route the selection rule picks given the routes before it, residuals lowered by exactly that and not below zero, delay accounted, cost the CPU plus RAM of the fragment. Infeasible: nothing changed. Feasible exactly when neither rule gets stuck: no VNF that fits nowhere after its rule-placed predecessors, no flow without an eligible path after the rule-chosen routes before it. |
| GreedyActor.ByRulesOrRefused | src/orion/actors/greedy_domain_actor.py:61-186 | A placement and routes that follow both rules rule out every reason to refuse: the two answers exclude each other on all residuals. |
| GreedyActor.SelectNode | src/orion/actors/greedy_domain_actor.py:188-274 | None exactly when no node of the domain is permitted and has CPU and RAM enough; otherwise such a node, of the required tier whenever one is, then with the least node delay times intensity, then with the smallest id. |
| GreedyActor.ChosenMeans | src/orion/actors/greedy_domain_actor.py:254-274 | The rank minimum the placing rule is stated with is that best node, for every domain and residual. |
| GreedyActor.PlaceAll | src/orion/actors/greedy_domain_actor.py:61-137 | The placement phase follows the rule VNF by VNF in decreasing demand, debits exactly the placed demand, and keeps a snapshot of every node it touches; it fails exactly on a VNF that fits nowhere after its predecessors. The cost returned is the CPU and RAM demand of what was placed. |
| GreedyActor.RouteAll | src/orion/actors/greedy_domain_actor.py:139-172 | The routing phase serves every flow on the route the rule selects, within the remaining delay, or stops where the rule gets stuck, with the reservations so far recorded for the rollback. |
| GreedyActor.FlowAsksMean | src/orion/actors/greedy_domain_actor.py:139-155 | Every flow of a fragment is routed within the budget minus node delay times intensity of all its hosts. |
| GreedyActor.PlacementComplete | src/orion/actors/greedy_domain_actor.py:61-64 | What was placed in demand order is a complete placement of the fragment in chain order, with the same load per node and the same processing delay. |
| DemandOrder.SortedLoad | src/orion/actors/greedy_domain_actor.py:61-64 | Visiting the VNFs in demand order does not change what a placement costs any node. |
| DemandOrder.SortedInOrder | src/orion/actors/greedy_domain_actor.py:61-64 | The visiting order is a permutation by decreasing CPU, then decreasing RAM, then id. |
| DemandOrder.SortedDemand | src/orion/actors/greedy_domain_actor.py:61-64 | Nor does it change the total demand the cost is made of. |
| DomainActor.Act | src/orion/actors/domain_actor.py:85-300 | The learned actor keeps the same contract for every policy that respects its mask; each VNF sits where the policy put it after the placements before it, tiers match, and every flow takes the rule's route. It is infeasible exactly when the policy refuses in its own run or a flow into a VNF it placed finds no eligible path. Its cost is the weighted demand of the placed VNFs plus the weighted bandwidth times route length. |
| DomainActor.PlacedOrRefused | src/orion/actors/domain_actor.py:118-283 | A run of the policy that places and routes everything excludes every cause of refusal. |
| DomainActor.ComputeActionMask | src/orion/actors/action_mask.py:22-71 | A mask entry is true exactly when the node is permitted, of the required tier, and has CPU and RAM enough, an override counting before the residual. |
| DomainActor.PlaceAndRoute | src/orion/actors/domain_actor.py:118-283 | The interleaved loop: after each VNF exactly the flows into placed VNFs are routed, within the delay left at that point; the running overrides, snapshots, reservations and graph agree; a refusal is the policy's own or a flow's, at the policy's own placements. |
| DomainActor.AsksIntoMean | src/orion/actors/domain_actor.py:190-235 | Every flow is asked for when its target is placed, within the budget minus node delay times intensity of the hosts up to that VNF. |
| DomainActor.SourcePlaced | src/orion/actors/domain_actor.py:190-235 | In chain order the source of a flow is placed before its target, so the missing-source branch is never taken. |
| Routing.SelectPath | src/orion/actors/routing.py:134-178 | Of the candidate paths the best-scoring eligible one, the first on a tie; no route exactly when none is eligible. |
| Routing.SelectedMeans | src/orion/actors/routing.py:117-178 | The selection among candidates is that statement about the listed paths: none of the first k is overlooked, the score is links, delay or cost, and the first listed wins a tie. |
| Routing.RouteAndReserve | src/orion/actors/routing.py:76-178 | Route and reserve: there is a route exactly when one of the first k listed paths has the demand on every link and is within the delay budget, and then it is the best of these by the selection mode (hops, propagation delay, or congestion cost), the first listed on a tie. It joins the endpoints inside the allowed links, only its links lose exactly the demand, and no link goes below zero. |
| RouteRule.RoutedOrStuck | src/orion/actors/routing.py:76-178 | Routing a list of flows one after the other by the rule either gets through or gets stuck, never both. |
| RouteRule.OneHistory | src/orion/actors/routing.py:134-178 | The rule leaves no choice: two histories that follow it from the same residuals agree route by route. |
| RouteRule.WithinBudget | src/orion/actors/routing.py:149-160 | Each flow gets what the routes before it left of the budget, so when the last flow joins two hosts all route delays together are within its budget. |
| Routing.AllocateRouteBw | src/orion/actors/routing.py:280-301 | Every link of the route loses exactly the bandwidth, once per occurrence. |
| Routing.DeallocateRouteBw | src/orion/actors/routing.py:304-314 | The state it leaves is the one from which the same allocation leads to the state it found. |
| Routing.SimplePathLinksDistinct | src/orion/actors/routing.py:117-132 | A simple path uses no link twice, so checking each link once is enough. |
| Routing.EligibleRouteKeepsNonNegative | src/orion/actors/routing.py:239-258 | Reserving an eligible route leaves no link below zero. |
| Routing.PathDelayIsRouteDelay | src/orion/actors/routing.py:149-160 | The delay summed hop by hop along the path is the delay of the links recorded. |
| Routing.WalkCrosses | src/orion/mdo/coordinator.py:796-816 | Any walk between nodes of two domains crosses a domain border. |
| Ledger.DebitsCompose | src/orion/actors/routing.py:280-301 | Reservations made one after the other add up, in any order of listing. |
| Ledger.SameDebitsSameOrigin | src/orion/mdo/coordinator.py:823-845 | Two states that the same debits lead to the same state are equal: the reason why give-back restores. |
| Ledger.CreditRestores | src/orion/mdo/coordinator.py:823-845 | Giving back part of what was debited leaves exactly the rest debited. |
| Ledger.LoadIsSum | src/orion/actors/greedy_domain_actor.py:95-103 | The load a placement puts on a node is the CPU and the RAM of exactly the VNFs placed there. |
| ChainOrder.ContiguousIffNoReentry | src/orion/mdo/chain_order.py:56-64 | The run-count test holds exactly when no domain is left and entered again. |
| ChainOrder.ContiguousIffFewestCrossings | src/orion/mdo/chain_order.py:56-64 | A chain crosses domains least often among all its rearrangements exactly when it is contiguous. |
| ChainOrder.ContiguousArrangement | src/orion/mdo/chain_order.py:56-64 | Every partition has a rearrangement with one run per domain, so contiguity is always attainable. |
| ChainOrder.RunsCoverDomains | src/orion/mdo/chain_order.py:56-59 | There are never fewer runs than domains. |
| ChainOrder.RunCountIsRunStarts | src/orion/mdo/chain_order.py:56-59 | The recursive run count equals the count of positions that differ from their predecessor, the form the other two copies use. |
| Observation.BuildDomainSummaries | src/orion/mdo/observation.py:127-186 | One summary per non-empty domain, in the order of dominant tier and then domain id, each with exact totals, supported tiers, dominant tier and per-tier best node. |
| Observation.Summarise | src/orion/mdo/observation.py:134-180 | The running sums and the running argmax end as the domain's CPU and RAM totals, the totals of each tier's nodes and, per tier, a real node that no other has more room than, room being the smaller of CPU over 16 and RAM over 32. |
| Observation.SummaryMeans | src/orion/mdo/observation.py:134-180 | The summary predicate the guard lemmas use says that, tier by tier, in CPU and RAM. |
| Observation.ReportedNodeExists | src/orion/mdo/observation.py:150-168 | If a reported per-tier pair covers a demand, some node of that tier in that domain covers it. |
| Observation.SummaryAddsUp | src/orion/mdo/observation.py:134-180 | In every summary the tier residuals add up to the domain residual. |
| Admissibility.MinimalCommittablePartition | src/orion/mdo/admissibility.py:169-251 | Within the budget and for known domains, when something is committable, the result is committable and no committable assignment differs from the authored one in fewer positions, or in as many and uses fewer domains, or ties on both and has the smaller entry where the two first differ; else the input comes back. The counters record seen, changed and unrepairable calls and the number of positions changed. |
| Admissibility.SearchNearest | src/orion/mdo/admissibility.py:226-251 | The search over the product of per-position choices returns that nearest assignment, or none exactly when nothing is committable at all. |
| Admissibility.CloserMeans | src/orion/mdo/admissibility.py:235-243 | The comparison the search uses is the three-part order on positions changed, domains used and the first difference. |
| Admissibility.CommittableMeans | src/orion/mdo/admissibility.py:203-225 | Committable is exactly this: every VNF has a permitted node in its domain whose tier reports a pair that covers its CPU and RAM, no domain is left and re-entered, and no domain is sent more CPU or more RAM than it has left. |
| Admissibility.NearestUnique | src/orion/mdo/admissibility.py:226-251 | Two assignments that no committable one improves on in that order are equal. |
| Admissibility.RepairSucceedsWheneverPossible | src/orion/mdo/admissibility.py:215-251 | The repaired partition is committable exactly when any partition is. |
| Admissibility.CommittableIsFixed | src/orion/mdo/admissibility.py:226-251 | A committable partition comes back unchanged. |
| Admissibility.RepairIdempotent | src/orion/mdo/admissibility.py:169-251 | Repairing twice is repairing once, on every input. |
| Admissibility.ProductMembers | src/orion/mdo/admissibility.py:226-240 | The enumeration lists exactly the assignments that pick an admissible domain for every VNF. |
| Admissibility.PowerCountsAssignments | src/orion/mdo/admissibility.py:195-196 | The number held against the budget is the number of assignments of VNFs to domains, each counted once. |
| Builders.PartialObsBuilder | scripts/partial_obs_prior.py:239-307 | Every VNF goes to the domain, among those where it has a seat and which the chain has not left, with most to spare in its scarcer resource after all demand sent there, the larger index on a tie, and something must be left; the result is committable. Refusing means that after a prefix chosen in this way no such domain has anything left. |
| Builders.FullObsBuilder | scripts/partial_obs_prior.py:336-513 | The enumeration is refused exactly when there are more combinations than the limit; no plan means nothing is committable; otherwise the plan is committable and is, in the list of all committable assignments by fewest domains, then most CPU left in the fullest domain used, then smallest entry, the first of the best ones predicted to meet the budget, else the first. |
| Builders.RankMeans | scripts/partial_obs_prior.py:405-433 | The sort key orders assignments in exactly that way. |
| Builders.CandidateMeans | scripts/partial_obs_prior.py:239-307 | The greedy builder's candidates are the open domains with a seat, and its slack is the smaller of the CPU and the RAM they would have left. |
| Builders.BuilderIsFixedPoint | src/orion/mdo/admissibility.py:34-39 | The guard returns unchanged whatever either builder authors. |
| Builders.SameContiguity | src/orion/mdo/admissibility.py:164-166 | Contiguity of summary indices is contiguity of the domain ids the coordinator checks. |
| GuardSoundness.AdmissibleHasANode | src/orion/mdo/admissibility.py:77-90 | When the domain's permitted tiers are whole, the guard's yes comes with a real, permitted node of that domain that the actor's test accepts; other domains do not matter. |
| GuardSoundness.YesIsSoundIff | src/orion/mdo/admissibility.py:77-90 | Exactly when the guard's yes can be trusted in every state: the permitted tiers of the domain are whole, or the VNF asks for nothing. |
| GuardSoundness.PartialTierIsHollow | src/orion/mdo/admissibility.py:77-90 | For any topology, VNF and domain with a tier permitted only in part, residuals at which the guard says yes and no node fits. |
| GuardSoundness.AdmissibleCanBeHollow | src/orion/mdo/admissibility.py:77-90 | Without whole-tier permissions the guard can say yes where no node fits: a concrete instance. |
| GuardSoundness.NoIsFinalIff | src/orion/mdo/observation.py:150-168 | Exactly when the guard's no is final for every VNF: each tier's reported pair covers what any node of that tier in the domain has left. |
| GuardSoundness.GuardIsNotNecessary | src/orion/mdo/observation.py:162-168 | The guard can say no although a node fits, because it sees one node per tier: a concrete instance. |
| GuardSoundness.SingleVnfNeverRefused | src/orion/actors/greedy_domain_actor.py:254-274 | A one-VNF fragment with a fitting node in its domain is never refused. |
| GuardSoundness.AdmissibleNeverRefused | src/orion/mdo/admissibility.py:203-213 | Across observation, guard, fragments, dispatch and actor: an admissible partition with one VNF per domain and permissions that are whole tiers there is accepted by every greedy actor, whatever order they are asked in. |
| GuardedArrival.Arrive | src/orion/mdo/coordinator.py:228-274 | Observe, repair, resolve: the outcome is the transaction's on the repaired partition, for the attempt made at the residuals found. A repaired partition passes the order rule, and with one VNF per domain and whole tiers every domain of it answers and accepts. |
| PlanCache.Cache.Get | src/orion/llm/plan_cache.py:266-272 | Serves what is visible (held and not stale) and makes a served key the most recent. A served entry counts one more hit. |
| PlanCache.Cache.Store | src/orion/llm/plan_cache.py:274-276 | Overwrites in place or appends, then enforces the size bound; an unbounded cache fails exactly when it outgrew its expected size. |
| PlanCache.Cache.Refresh | src/orion/llm/plan_cache.py:278-286 | Writes the plan, clears the stale mark and makes the key the most recent. Hits stay, the refresh count goes up by one. |
| PlanCache.NeverStaleNorOverwritten | src/orion/llm/plan_cache.py:266-292 | After any history of operations, under any capacity, a lookup serves only the plan last written under its key, and only if it was not marked stale since. |
| PlanCache.UnboundedServesLastWritten | src/orion/llm/plan_cache.py:300-310 | Without a capacity that is also what it always serves. |
| PlanCache.RecencyOrder | src/orion/llm/plan_cache.py:296-310 | After any history at most `capacity` keys are held, in order of their last insertion, served lookup or refresh. |
| PlanCache.EvictsLeastRecent | src/orion/llm/plan_cache.py:300-310 | Only inserting a new key into a full cache evicts, and everything kept was touched later than what is evicted. |
| PlanCache.HeldAreMostRecent | src/orion/llm/plan_cache.py:296-310 | The keys held are exactly the most recently touched ones. |
| CachedBuilder.Builder.Build | scripts/wp7_runner.py:366-392 | One arrival: the answer and the new cache are those determined by the history, the overflow of an unbounded cache (past 16 entries) included, lookups = hits + misses, and the drift error is never raised because the key contains the chain. |
| CachedBuilder.SameProfileIffAlike | src/orion/llm/plan_cache.py:54-182 | Two situations share a key exactly when slice types are equal, the delays lie on the same side of each of 5, 10, 20, 50, 100, the throughputs on the same side of each of 10, 50, 100, 250, 500, the VNF kinds agree position by position, and the network conditions are equal. |
| CachedBuilder.AnswerHasOrigin | scripts/wp7_runner.py:366-392 | After any history an answer is the inner builder's, or the tiers and domains it gave an earlier arrival that was alike, on the request's own numbers and with those tiers still present; under a condition no earlier arrival met it is the inner builder's. |
| CachedBuilder.TransparentIffKeyDecides | scripts/wp7_runner.py:344-392 | For every history of arrivals, evictions and stale marks and every capacity the cached builder answers what the inner one would, or raises the overflow error where the specification says an unbounded cache overflows, if and only if the key decides the inner builder's tiers and domains wherever the cached plan revalidates. |
| CachedBuilder.SecondArrivalServed | scripts/wp7_runner.py:366-380 | A second arrival with the same key is served the first one's tiers and domains on its own numbers. |
| CachedBuilder.VisibleTemplate | src/orion/llm/plan_cache.py:203-219 | What is found under a request's key was written for the same chain, so grafting never meets template drift. |
| HopToBorder.ComputeHopToBorder | src/orion/actors/domain_observation.py:193-229 | The queue loop terminates on every graph and labels every node with its true distance to the nearest border node, with the node count when none is reachable, and with zero when there is no border at all. |
| HopToBorder.SentinelIsUnambiguous | src/orion/actors/domain_observation.py:193-229 | The node count is never a real distance, so it marks exactly the unreachable nodes. |
| HopToBorder.SearchComplete | src/orion/actors/domain_observation.py:209-229 | When the queue is empty, finite labels are distances and unlabelled nodes are unreachable. |
| Graphs.HopsReverse | src/orion/actors/domain_observation.py:198-204 | In an undirected graph the distance from a border node is the distance to it. |
| StructuralChecker.CheckPlan | src/orion/llm/structural_checker.py:51-318 | Each tag appears exactly when its rule, stated on the lists of the plan and the topology, fails: identifiers, known domains and boundary flags (SCHEMA); tiers (C8); CPU and RAM sums per domain (C4); chains of links between domains, and joint bandwidth against the last link listed for an ordered pair (C5). The plan is valid exactly when all four hold. |
| PlanRules.SchemaMeans | src/orion/llm/structural_checker.py:80-275 | The SCHEMA family is the rule on the lists: every asked-for VNF planned, none unknown, domains that exist, and a boundary flag that is true exactly when its ends lie in two domains. |
| PlanRules.TiersMean | src/orion/llm/structural_checker.py:109-158 | The C8 family is the rule on the lists: a stated tier is permitted and present, an unstated one leaves a common tier. |
| PlanRules.ResourcesMean | src/orion/llm/structural_checker.py:160-199 | The C4 family is the rule on the lists: per known domain the CPU and the RAM of its assignments are at most the residual of the last entry of that name. |
| PlanRules.BandwidthMeans | src/orion/llm/structural_checker.py:201-318 | The C5 family is the rule on the lists: the ends of every flow are the same or joined by a chain of links, and the crossing flows of an ordered pair ask together for at most the residual of the last link listed that way, if there is one. |
| AbstractPlans.LinkBetween | src/orion/llm/structural_checker.py:205-223 | The direct link of an ordered pair is the last listed link from one to the other; there is none exactly when no link leads that way. |
| StructuralChecker.DomainsReachable | src/orion/llm/structural_checker.py:225-245 | The search terminates and answers exactly whether some chain of inter-domain links, taken in either direction, joins the domains. |
| StructuralChecker.CheckResources | src/orion/llm/structural_checker.py:160-203 | From the running sums per domain, a resource violation is reported exactly when some known domain's total CPU or RAM demand exceeds its residual, and nothing else is reported. |
| StructuralChecker.CheckFlows | src/orion/llm/structural_checker.py:247-300 | Flow by flow the boundary flags are checked, and a bandwidth violation is reported exactly when two ends are not linked, or the flows of one ordered pair overload its direct link. |
| StructuralChecker.LinkedIffReachable | src/orion/llm/structural_checker.py:205-245 | Reachability in the adjacency sets that were built is the existence of a chain of links in the topology. |
| PlanRules.LinkedMeans | src/orion/llm/structural_checker.py:225-245 | Two domains are linked exactly when they are equal or some list of domains leads from one to the other, every step a link in either direction. |
| StructuralChecker.DirectLinkConnects | src/orion/llm/structural_checker.py:262-290 | A flow with a direct link is always routable, so the two tests never contradict each other. |
| AgentB.TierFeasibleDomains | src/orion/llm/agent_b.py:69-77 | Exactly the domains that share a tier with the VNF. |
| AgentB.WholeChainHosts | src/orion/llm/agent_b.py:163-204 | The host list: the domains in which every VNF has a common tier with a free node for it and which keep CPU and RAM left for the whole chain, most left first and by name on a tie, cut off below the band's share of the best. |
| AgentB.HostListIsBest | src/orion/llm/agent_b.py:163-204 | That statement about free nodes, sums and names, for any list the builder may return. |
| AgentB.EmptyIffNoHost | src/orion/llm/agent_b.py:163-204 | For every band the list is empty exactly when the chain is, when the band is above one, or when no single domain seats every VNF with CPU and RAM to spare for the whole chain. |
| AgentB.BandOfBest | src/orion/llm/agent_b.py:193-204 | The band empties a list with a host exactly when it is above one: the best host is never a band above one better than itself. |
| AgentB.BuildPinnedPlanSchema | src/orion/llm/agent_b.py:216-300 | The grammar: under the contract the hosts alone when there are any; else none when some VNF shares a tier with no listed domain; else one row per VNF in request order, naming the hosts or, without hosts, exactly the domains that share a tier with it. |
| AgentB.ConformingPlanPasses | src/orion/llm/agent_b.py:234-369 | Any plan the grammar can express satisfies the SCHEMA and C8 rules after the fix-ups, and a host plan satisfies all four rules. |
| AgentB.DecodeAndCheck | src/orion/llm/agent_b.py:795-800 | Expand, fill, recompute, check, in place: for conforming output no SCHEMA and no C8 violation is reported, and for a host plan none at all. |
| AgentB.PlanDict.ExpandHostDomain | src/orion/llm/agent_b.py:145-160 | The host field is consumed and becomes one bare assignment per VNF, in order. |
| AgentB.PlanDict.FillDerivedFields | src/orion/llm/agent_b.py:322-352 | Missing CPU and RAM are the request's demand for that VNF, a missing tier an empty name, present values stay; missing or empty flows become the request's, with its ends and bandwidth and the flag off. |
| AgentB.PlanDict.RecomputeFlowBoundaries | src/orion/llm/agent_b.py:355-369 | Every boundary flag follows from the assignments, nothing else changes. |
| AgentB.PlanDict.RecomputeRequiredTiers | src/orion/llm/agent_b.py:303-319 | Every tier becomes the least name among the tiers that the VNF may use and its domain has, where there is one; nothing else changes. |
| FfdPlacing.SelectNode | src/orion/baselines/greedy_ffd.py:266-309 | None exactly when no candidate is permitted with CPU and RAM enough in the run's residuals; otherwise such a node, of the one tier all permitted nodes share whenever there is one, then by the rule: most CPU left, smaller domain, smaller id; or least CPU left, smaller id. |
| FfdPlacing.ChosenMeans | src/orion/baselines/greedy_ffd.py:266-309 | The rank minimum the placing rule is stated with is that node. |
| FfdPlacing.PlaceEach | src/orion/baselines/greedy_ffd.py:165-195 | Placement in decreasing demand, each VNF where the rule puts it given its predecessors, the running residuals equal to the substrate's minus the placed demand; failure means the next VNF fits nowhere. |
| FfdRouting.ShortestPath | src/orion/baselines/greedy_ffd.py:327-357 | The search sees exactly the links on which the run has at least the demand left, and returns the first path listed for them, or none when none is listed. |
| FfdRouting.RouteFlow | src/orion/baselines/greedy_ffd.py:200-240 | One flow routed between its hosts on the first path listed over the links still wide enough, its bandwidth charged once per link, no link below zero; failure means that after the first-path routes before it no wide path joins its hosts. |
| FfdRouting.ChargeRoute | src/orion/baselines/greedy_ffd.py:218-240 | Charging a route takes its bandwidth from every link on it and adds bandwidth times the links of each type to the counter of that type (all to the inside counter when types are not told apart). |
| GreedyFfd.RunGreedyFfd | src/orion/baselines/greedy_ffd.py:156-260 | A plan can be allocated on the untouched substrate, follows the placing and the routing rule, and reports costs by type: the inter-domain bandwidth is the sum over flows of bandwidth times the inter-domain links of its route, the inside bandwidth the same over the other links, the resource cost the CPU and RAM of the chain, and the total their weighted sum. There is a plan exactly when the run does not get stuck. |
| GreedyFfd.SplitIsFlows | src/orion/baselines/greedy_ffd.py:218-260 | The two bandwidth counters, kept reservation by reservation, are those sums over the flows of the request. |
| GreedyFfd.PlannedOrStuck | src/orion/baselines/greedy_ffd.py:156-260 | A plan that follows both rules excludes every way to get stuck, whatever the residuals. |
| GreedyFfd.FinishedIsSafe | src/orion/baselines/greedy_ffd.py:165-260 | From the running residuals of a finished run: every VNF on a permitted candidate, every flow connected, total demand per node and link within the residuals, cost equal to bandwidth times path length. |
| GreedyFfd.GreedyPlaceOnSubstrate | src/orion/baselines/greedy_ffd.py:94-114 | Applying the plan lowers the residuals by exactly the plan's demand and none below zero; a refused run changes nothing. |
| ColocationFfd.TrySingleDomain | src/orion/baselines/colocation_ffd.py:58-113 | A plan keeps the chain's VNFs in the domain, follows the rules and can be allocated, with all its bandwidth counted as inside; there is one exactly when placing and routing from this domain does not get stuck. Routes may leave the domain. |
| ColocationFfd.ColocationFirst | src/orion/baselines/colocation_ffd.py:133-145 | A single-domain plan comes from a domain that takes the chain when none with more free CPU does, nor one with as much that is met first; the fallback runs exactly when every domain gets stuck, and there is no plan exactly when the fallback gets stuck as well; any plan can be allocated. |
| ColocationFfd.DomainCpuRanking | src/orion/baselines/colocation_ffd.py:116-130 | Every domain that owns a node is listed with the CPU its nodes have left together, most first, and on a tie in the order in which the domains are met. |
| ColocationFfd.DomainCpuMeans | src/orion/baselines/colocation_ffd.py:116-130 | The free CPU of a domain is the sum of what exactly its nodes have left. |
| Substrate.SubstrateNetwork.Allocate | src/orion/substrate/graph_model.py:222-258 | Residuals drop by exactly the plan's demand per node and per link and the slice is registered; an active id is refused and changes nothing. |
| Substrate.SubstrateNetwork.Deallocate | src/orion/substrate/graph_model.py:260-290 | The inverse: taking the same plan from the state left leads back to the state found; an unknown id changes nothing. |
| Substrate.TakenOnce | src/orion/substrate/graph_model.py:222-290 | Allocating and deallocating the same plan cancel. |
| PlanLedger.DemandIsSum | src/orion/substrate/graph_model.py:222-258 | What a plan takes from a node is the CPU and the RAM allocated to exactly the VNFs it places there. |
| EventLoop.RunPlain | scripts/calibrate_load_levels.py:108-185 | One episode: every event is handled as recorded, each arrival's verdict being the one its tests give at the state it met; the admission flags and cause counters reported are those of the record, every arrival is counted once, the ledger holds at the end, and with distinct request ids the allocation never fails. |
| EventLoop.EveryArrivalCounted | scripts/calibrate_load_levels.py:129-176 | In any record of a run each arrival is admitted or counted under exactly one cause. |
| EventLoop.AllocationNeverFails | scripts/calibrate_load_levels.py:165-176 | When no request id arrives twice, the allocation of a gated plan never fails. |
| EventLoop.OnArrival | scripts/calibrate_load_levels.py:146-176 | The verdict is decided by the first test that fails on the co-location baseline's plan: no placement exactly when every domain and the whole substrate get stuck; out of order exactly when the rule is on and the chain's hosts leave a domain and enter it again; admission takes the plan and registers it, every other verdict changes nothing. |
| EventLoop.OrderMeans | scripts/calibrate_load_levels.py:151-162 | The order test on a complete plan asks whether, along the chain, some domain of the hosts is left and entered again. |
| EventLoop.OnDeparture | scripts/calibrate_load_levels.py:133-142 | A held slice is given back and dropped, any other id is ignored. |
| EventLoop.LedgerAlwaysHolds | scripts/calibrate_load_levels.py:129-176 | At every point of every history each residual is capacity minus the demand of the active slices, and non-negative. |
| EventLoop.ActiveArrived | scripts/calibrate_load_levels.py:129-176 | Whatever is active arrived earlier and has not departed since. |
| EventLoop.AllDeparted | scripts/calibrate_load_levels.py:129-176 | When every arrival is followed by its departure, the run ends with nothing active and every residual at full capacity. |
| StructureMetrics.JainBounds | scripts/structure_metrics.py:29-40 | The index of M non-negative loads lies between 1/M and 1, is 1 exactly for equal loads and 1/M exactly when one domain carries everything. |
| StructureMetrics.LoadPerDomain | scripts/structure_metrics.py:65-69 | The load of a domain is the number of positions assigned to it, and all loads sum to the number of VNFs. |
| StructureMetrics.CountNoncontiguous | scripts/structure_metrics.py:62-87 | Counted are exactly the partitions in which some domain is left and re-entered. |
| StructureMetrics.Runs | scripts/structure_metrics.py:62-63 | The third copy of the run count agrees with the other two. |

## Left out

- Neural code: partition sampling, policies, observation tensors, training. The partition and the
  policy's choice are inputs.
- Language-model transport, prompts, JSON parsing and the retry loop around the decode: the model
  starts at a parsed plan that conforms to the grammar, or at any plan for the checker.
- Episodic and semantic memory, provenance, profiling, runners, checkpoints, printed reports.
- `precommit_check`, which raises on entry, and the legacy host statistics of the coordinator.
- `repair_partition`, `repair_plan`, `_fullobs_greedy`, `oracle_builder`,
  `routability_aware_colocation_ffd` and `pure_colocation`: they make no contiguity or joint
  capacity promise that the code keeps.
- Coordinator.ResolveArrival: the reward, the cost record and the canonical-index round trip of the
  partition are not modelled; an assertion error of the frame check is an outcome, not an exception.
- Routing.SelectPath: the congestion cost of one link is an arbitrary function of capacity and
  residual; its logarithm is not modelled, it only ranks paths.
- Observation.BuildDomainSummaries: only the fields the guard and the builders read; averages and
  link summaries are absent.
- CachedBuilder.Builder.Build: the quantised network condition is an arbitrary function of the
  network, and the bucket boundaries of the profile are those of the source without the text of
  their names.
- AgentB.BuildPinnedPlanSchema: the grammar is a value (host list or one row per VNF), not a JSON
  schema text.
- StructuralChecker.CheckPlan: violation detail texts are not modelled, only tags and their order
  by family.
- FfdPlacing.PlaceEach: the two running dictionaries for CPU and RAM are one map of pairs, since they
  are always written together.
- FfdRouting.ShortestPath: minimality of the path is the library's; the model takes the first listed.
- EventLoop.RunPlain: the event list is an input; the concurrency and utilisation samples, the arrival
  span, the oracle reference and its restriction are absent.
- StructureMetrics.JainBounds: the index before rounding to the reported digits.
- GuardedArrival.Arrive: the summaries are those of domains 0 to a given count.
- Floating-point rounding everywhere: capacities and demands are exact reals.
