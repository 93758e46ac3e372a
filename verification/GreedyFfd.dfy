/** The tier-aware first-fit-decreasing baseline as a whole: what it plans can be allocated. */
module GreedyFfd {
  import opened Types
  import opened OrderedDict
  import opened Ledger
  import opened PlanLedger
  import opened Substrate
  import opened Routing
  import opened DemandOrder
  import opened Actors
  import opened FfdPlacing
  import opened FfdRouting

  datatype CostWeights = CostWeights(alpha: real, gammaIntra: real, gammaInter: real)

  datatype GreedyResult = NoPlan | Placed(plan: Plan, cost: real, intraBw: real, interBw: real, resource: real)

  /** A plan that can be allocated: every VNF on a permitted candidate node with exactly its
      demand, every flow routed between its hosts, and no node or link asked for more than it
      has left. */
  ghost predicate SafePlan(topo: Topology, node0: map<NodeId, Amount>, bw0: seq<real>, req: Request, nodes: seq<NodeId>,
                           plan: Plan)
    requires |bw0| == |topo.links|
  {
    && plan.WellFormed(topo) && plan.NonNegative()
    && |plan.placements| == |req.vnfs| && (forall v :: v in req.vnfs ==> VnfServed(topo, nodes, plan, v))
    && (forall f :: f in req.flows ==> FlowServed(topo, plan, f))
    && (forall n :: n in node0 ==> node0[n].Covers(plan.NodeDemand(n)))
    && forall e :: 0 <= e < |bw0| ==> bw0[e] >= plan.LinkDemand(topo.links[e].id)
  }

  ghost predicate VnfServed(topo: Topology, nodes: seq<NodeId>, plan: Plan, v: Vnf) {
    && Find(plan.placements, v.id).Some? && v.id in plan.alloc && plan.alloc[v.id] == v.demand
    && var n := Find(plan.placements, v.id).value;
       n in nodes && n in topo.attr && (v.permitted == [] || n in v.permitted)
  }

  ghost predicate FlowServed(topo: Topology, plan: Plan, f: Flow) {
    && Find(plan.placements, f.src).Some? && Find(plan.placements, f.dst).Some? && (f.src, f.dst) in plan.routes
    && Connects(topo, topo.AllLinks(), plan.routes[(f.src, f.dst)], Find(plan.placements, f.src).value,
                Find(plan.placements, f.dst).value)
    && ((f.src, f.dst), Entries(plan.routes[(f.src, f.dst)], f.bandwidth)) in plan.bandwidth
  }

  /** What a flow's bandwidth costs: once per link of its route. */
  ghost function FlowCost(flows: seq<Flow>, routes: map<FlowKey, seq<LinkId>>): real {
    if flows == [] then 0.0
    else
      var f := flows[|flows| - 1];
      FlowCost(flows[..|flows| - 1], routes)
        + if f.Key() in routes then LengthCost(f.bandwidth, routes[f.Key()]) else 0.0
  }

  /** The reported cost is the weighted sum of demand placed and bandwidth times route length. */
  ghost predicate CostsAddUp(req: Request, w: CostWeights, r: GreedyResult)
    requires r.Placed?
  {
    && r.resource == DemandSum(req.vnfs)
    && r.intraBw + r.interBw == FlowCost(req.flows, r.plan.routes)
    && r.cost == w.alpha * r.resource + w.gammaIntra * r.intraBw + w.gammaInter * r.interBw
  }

  /** What the flows cost in links of one type: bandwidth times the number of links of the route
      that the topology records with this type. */
  ghost function FlowTypeCost(topo: Topology, flows: seq<Flow>, routes: map<FlowKey, seq<LinkId>>, countInter: bool,
                              inter: bool): real
  {
    if flows == [] then 0.0
    else
      var f := flows[|flows| - 1];
      FlowTypeCost(topo, flows[..|flows| - 1], routes, countInter, inter)
        + if f.Key() in routes then PerLink(f.bandwidth, StepsCounted(topo, routes[f.Key()], countInter, inter))
          else 0.0
  }

  /** Each counter is the bandwidth on the links of its type. */
  ghost predicate CostsSplit(topo: Topology, req: Request, countInter: bool, r: GreedyResult)
    requires r.Placed?
  {
    && r.intraBw == FlowTypeCost(topo, req.flows, r.plan.routes, countInter, false)
    && r.interBw == FlowTypeCost(topo, req.flows, r.plan.routes, countInter, true)
  }

  lemma FlowTypeCostNext(topo: Topology, flows: seq<Flow>, i: nat, routes: map<FlowKey, seq<LinkId>>, countInter: bool,
                         inter: bool)
    requires i < |flows|
    ensures FlowTypeCost(topo, flows[..i + 1], routes, countInter, inter)
         == FlowTypeCost(topo, flows[..i], routes, countInter, inter)
            + if flows[i].Key() in routes
              then PerLink(flows[i].bandwidth, StepsCounted(topo, routes[flows[i].Key()], countInter, inter)) else 0.0
  {
    hide PerLink, StepsCounted;
    assert flows[..i + 1][..i] == flows[..i];
  }

  lemma {:induction false} SplitIsFlows(topo: Topology, flows: seq<Flow>, k: nat, placements: Dict<VnfId, NodeId>,
                                        routes: map<FlowKey, seq<LinkId>>,
                                        bandwidth: Dict<FlowKey, Dict<LinkId, real>>, rs: seq<Reservation>,
                                        countInter: bool, inter: bool)
    requires k <= |rs| == |bandwidth| == |flows| && AllRouted(topo, flows, placements, routes, bandwidth, rs)
    ensures FlowTypeCost(topo, flows[..k], routes, countInter, inter) == TypeCost(topo, rs[..k], countInter, inter)
  {
    hide AllRouted, RoutedAs, PerLink, StepsCounted;
    if k > 0 {
      hide FlowTypeCost, TypeCost;
      var i := k - 1;
      FlowTypeCostNext(topo, flows, i, routes, countInter, inter);
      RoutedAt(topo, flows, placements, routes, bandwidth, rs, i);
      RoutedLinks(topo, flows[i], placements, routes, bandwidth[i], rs[i]);
      SplitIsFlows(topo, flows, i, placements, routes, bandwidth, rs, countInter, inter);
      TypeCostNext(topo, rs[..i], rs[i], countInter, inter);
      assert rs[..k] == rs[..i] + [rs[i]];
    } else {
      assert rs[..0] == [] && flows[..0] == [];
    }
  }

  lemma SplitResult(topo: Topology, bw0: seq<real>, req: Request, rs: seq<Reservation>, runningBw: map<LinkId, real>,
                    total: real, countInter: bool, r: GreedyResult)
    requires r.Placed? && |rs| == |req.flows|
    requires RoutedFirst(topo, bw0, req.flows, r.plan.placements, r.plan.routes, r.plan.bandwidth, runningBw, rs,
                         total)
    requires Split(topo, rs, countInter, r.intraBw, r.interBw)
    ensures CostsSplit(topo, req, countInter, r)
  {
    AllRoutedLength(topo, req.flows, r.plan, rs);
    hide AllRouted, FlowTypeCost, TypeCost, LinkLedger, RouteCost;
    assert rs[..|rs|] == rs && req.flows[..|rs|] == req.flows;
    SplitIsFlows(topo, req.flows, |rs|, r.plan.placements, r.plan.routes, r.plan.bandwidth, rs, countInter, false);
    SplitIsFlows(topo, req.flows, |rs|, r.plan.placements, r.plan.routes, r.plan.bandwidth, rs, countInter, true);
  }

  /** A host is found for every VNF placed. */
  lemma HostFound(topo: Topology, nodes: seq<NodeId>, vnfs: seq<Vnf>, placements: Dict<VnfId, NodeId>,
                  alloc: map<VnfId, Amount>, j: nat)
    requires DistinctIds(vnfs) && |placements| == |vnfs| && PlacedFirst(topo, nodes, vnfs, placements, alloc)
    requires j < |vnfs|
    ensures Find(placements, vnfs[j].id) == Some(placements[j].1)
  {
    var i := Position(placements, vnfs[j].id);
    assert PlacedAs(topo, nodes, vnfs[j], placements[j], alloc);
    assert i < |placements| ==> PlacedAs(topo, nodes, vnfs[i], placements[i], alloc);
  }

  lemma VnfsServed(topo: Topology, nodes: seq<NodeId>, req: Request, plan: Plan)
    requires req.IsChain() && |plan.placements| == |req.vnfs|
    requires PlacedFirst(topo, nodes, Sorted(req.vnfs), plan.placements, plan.alloc)
    ensures plan.WellFormed(topo) && forall v :: v in req.vnfs ==> VnfServed(topo, nodes, plan, v)
    ensures forall v :: v in plan.alloc ==> plan.alloc[v].Covers(ZERO)
  {
    var vnfs := Sorted(req.vnfs);
    SortedIds(req.vnfs);
    assert forall j :: 0 <= j < |vnfs| ==> PlacedAs(topo, nodes, vnfs[j], plan.placements[j], plan.alloc);
    forall v | v in req.vnfs ensures VnfServed(topo, nodes, plan, v) {
      assert v in vnfs;
      var j :| 0 <= j < |vnfs| && vnfs[j] == v;
      HostFound(topo, nodes, vnfs, plan.placements, plan.alloc, j);
    }
    assert vnfs[..|vnfs|] == vnfs;
    forall id | id in plan.alloc ensures plan.alloc[id].Covers(ZERO) {
      var k :| 0 <= k < |req.vnfs| && req.vnfs[k].id == id;
      assert req.vnfs[k] in req.vnfs;
    }
  }

  /** The reservations the routing phase kept are the plan's link demand. */
  lemma {:induction false} ReservedIsDemand(topo: Topology, flows: seq<Flow>, k: nat, placements: Dict<VnfId, NodeId>,
                                            routes: map<FlowKey, seq<LinkId>>,
                                            bandwidth: Dict<FlowKey, Dict<LinkId, real>>, rs: seq<Reservation>,
                                            l: LinkId)
    requires k <= |rs| == |bandwidth| == |flows| && AllRouted(topo, flows, placements, routes, bandwidth, rs)
    ensures FlowDemand(bandwidth[..k], l) == ReservedOn(rs[..k], l)
  {
    if k > 0 {
      hide RoutedAs, FlowDemand, AllRouted;
      var i := k - 1;
      EntryIsReservation(topo, flows[i], placements, routes, bandwidth[i], rs[i], l);
      ReservedIsDemand(topo, flows, i, placements, routes, bandwidth, rs, l);
      FlowNext(bandwidth, i, l);
      assert rs[..k] == rs[..i] + [rs[i]];
      ReservedAppend(rs[..i], [rs[i]], l);
    } else {
      assert bandwidth[..0] == [] && rs[..0] == [];
    }
  }

  lemma EntryIsReservation(topo: Topology, f: Flow, placements: Dict<VnfId, NodeId>, routes: map<FlowKey, seq<LinkId>>,
                           entry: (FlowKey, Dict<LinkId, real>), r: Reservation, l: LinkId)
    requires RoutedAs(topo, f, placements, routes, entry, r)
    ensures EntryDemand(entry.1, l) == ReservedOn([r], l)
  {
    hide Connects, Find;
    EntriesDemand(r.links, r.bandwidth, l);
  }

  /** And they are the plan's bandwidth cost. */
  lemma {:induction false} ReservedIsCost(topo: Topology, flows: seq<Flow>, k: nat, placements: Dict<VnfId, NodeId>,
                                          routes: map<FlowKey, seq<LinkId>>,
                                          bandwidth: Dict<FlowKey, Dict<LinkId, real>>, rs: seq<Reservation>)
    requires k <= |rs| == |bandwidth| == |flows| && AllRouted(topo, flows, placements, routes, bandwidth, rs)
    ensures FlowCost(flows[..k], routes) == RouteCost(rs[..k])
  {
    hide AllRouted, LengthCost, RoutedAs, RouteCost;
    if k > 0 {
      hide FlowCost;
      var i := k - 1;
      FlowCostNext(flows, i, routes);
      RoutedAt(topo, flows, placements, routes, bandwidth, rs, i);
      RoutedLinks(topo, flows[i], placements, routes, bandwidth[i], rs[i]);
      ReservedIsCost(topo, flows, i, placements, routes, bandwidth, rs);
      RouteCostNext(rs[..i], rs[i]);
      assert rs[..k] == rs[..i] + [rs[i]];
    } else {
      NoCost(flows, routes, rs);
    }
  }

  lemma NoCost(flows: seq<Flow>, routes: map<FlowKey, seq<LinkId>>, rs: seq<Reservation>)
    ensures FlowCost(flows[..0], routes) == RouteCost(rs[..0])
  {
    assert rs[..0] == [];
  }

  lemma RoutedAt(topo: Topology, flows: seq<Flow>, placements: Dict<VnfId, NodeId>, routes: map<FlowKey, seq<LinkId>>,
                 bandwidth: Dict<FlowKey, Dict<LinkId, real>>, rs: seq<Reservation>, j: nat)
    requires AllRouted(topo, flows, placements, routes, bandwidth, rs) && j < |rs|
    ensures |rs| == |bandwidth| <= |flows| && RoutedAs(topo, flows[j], placements, routes, bandwidth[j], rs[j])
  {
    hide RoutedAs;
  }

  lemma FlowCostNext(flows: seq<Flow>, i: nat, routes: map<FlowKey, seq<LinkId>>)
    requires i < |flows|
    ensures FlowCost(flows[..i + 1], routes)
         == FlowCost(flows[..i], routes)
            + if flows[i].Key() in routes then LengthCost(flows[i].bandwidth, routes[flows[i].Key()]) else 0.0
  {
    hide LengthCost;
    assert flows[..i + 1][..i] == flows[..i];
  }

  lemma RoutedLinks(topo: Topology, f: Flow, placements: Dict<VnfId, NodeId>, routes: map<FlowKey, seq<LinkId>>,
                    entry: (FlowKey, Dict<LinkId, real>), r: Reservation)
    requires RoutedAs(topo, f, placements, routes, entry, r)
    ensures f.Key() in routes && r == Reservation(routes[f.Key()], f.bandwidth)
  {}

  lemma ChainShape(req: Request)
    requires req.IsChain()
    ensures DistinctKeys(req.flows) && DistinctIds(Sorted(req.vnfs)) && |Sorted(req.vnfs)| == |req.vnfs|
  {
    SortedIds(req.vnfs);
  }

  /** A finished run is a safe plan whose costs add up. */
  lemma FinishedIsSafe(topo: Topology, node0: map<NodeId, Amount>, bw0: seq<real>, req: Request, nodes: seq<NodeId>,
                       plan: Plan, runningNode: map<NodeId, Amount>, runningBw: map<LinkId, real>, resource: real,
                       rs: seq<Reservation>, total: real)
    requires req.IsChain() && |bw0| == |topo.links|
    requires Placing(topo, node0, nodes, Sorted(req.vnfs), |req.vnfs|, plan.placements, plan.alloc, runningNode,
                     resource)
    requires |rs| == |req.flows|
    requires RoutedFirst(topo, bw0, req.flows, plan.placements, plan.routes, plan.bandwidth, runningBw, rs, total)
    ensures SafePlan(topo, node0, bw0, req, nodes, plan)
    ensures resource == ResourceCost(Sorted(req.vnfs)) && total == FlowCost(req.flows, plan.routes)
  {
    hide PlacedFirst, PlacedAs, Connects, VnfServed, FlowServed, FlowDemand, PlacedDemand, ResourceCost, Sorted,
         NodesLeft, Effective, EffectiveBw, Plan.WellFormed, Plan.NonNegative, FlowCost, RouteCost, LinkLedger,
         RoutedAs, AllRouted, Request.IsChain;
    SortedLength(req.vnfs);
    assert Sorted(req.vnfs)[..|req.vnfs|] == Sorted(req.vnfs);
    VnfsServed(topo, nodes, req, plan);
    LinkSideAddsUp(topo, req.flows, plan, rs);
    AllRoutedLength(topo, req.flows, plan, rs);
    EntriesPositive(topo, req, plan, rs);
    NodesCovered(node0, Effective(node0, runningNode), plan);
    LinksCovered(topo, bw0, EffectiveBw(topo, bw0, runningBw), rs);
  }

  lemma SortedLength(vnfs: seq<Vnf>)
    ensures |Sorted(vnfs)| == |vnfs|
  {}

  lemma AllRoutedLength(topo: Topology, flows: seq<Flow>, plan: Plan, rs: seq<Reservation>)
    requires AllRouted(topo, flows, plan.placements, plan.routes, plan.bandwidth, rs)
    ensures |rs| == |plan.bandwidth|
  {}

  lemma LinkSideAddsUp(topo: Topology, flows: seq<Flow>, plan: Plan, rs: seq<Reservation>)
    requires |rs| == |flows| && AllRouted(topo, flows, plan.placements, plan.routes, plan.bandwidth, rs)
    ensures RouteCost(rs) == FlowCost(flows, plan.routes) && forall l :: plan.LinkDemand(l) == ReservedOn(rs, l)
  {
    AllRoutedLength(topo, flows, plan, rs);
    hide AllRouted, FlowDemand, FlowCost, RouteCost;
    assert rs[..|rs|] == rs && plan.bandwidth[..|rs|] == plan.bandwidth && flows[..|rs|] == flows;
    ReservedIsCost(topo, flows, |rs|, plan.placements, plan.routes, plan.bandwidth, rs);
    forall l ensures plan.LinkDemand(l) == ReservedOn(rs, l) {
      ReservedIsDemand(topo, flows, |rs|, plan.placements, plan.routes, plan.bandwidth, rs, l);
    }
  }

  lemma NodesCovered(node0: map<NodeId, Amount>, left: map<NodeId, Amount>, plan: Plan)
    requires NodesLeft(node0, left, plan.placements, plan.alloc)
    ensures forall n :: n in node0 ==> node0[n].Covers(plan.NodeDemand(n))
  {
    hide PlacedDemand;
    forall n | n in node0 ensures node0[n].Covers(plan.NodeDemand(n)) {
      assert left[n].Covers(ZERO);
    }
  }

  lemma LinksCovered(topo: Topology, bw0: seq<real>, bw: seq<real>, rs: seq<Reservation>)
    requires LinkLedger(topo, bw0, bw, rs)
    ensures forall e :: 0 <= e < |bw0| ==> bw0[e] >= ReservedOn(rs, topo.links[e].id)
  {
    forall e | 0 <= e < |bw0| ensures bw0[e] >= ReservedOn(rs, topo.links[e].id) {
      assert bw[e] >= 0.0;
    }
  }

  lemma EntriesPositive(topo: Topology, req: Request, plan: Plan, rs: seq<Reservation>)
    requires req.IsChain() && |rs| == |req.flows| == |plan.bandwidth|
    requires forall v :: v in plan.alloc ==> plan.alloc[v].Covers(ZERO)
    requires AllRouted(topo, req.flows, plan.placements, plan.routes, plan.bandwidth, rs)
    ensures plan.NonNegative() && forall f :: f in req.flows ==> FlowServed(topo, plan, f)
  {
    hide Connects, Find;
    forall f | f in req.flows ensures FlowServed(topo, plan, f) {
      var j :| 0 <= j < |req.flows| && req.flows[j] == f;
      assert RoutedAs(topo, f, plan.placements, plan.routes, plan.bandwidth[j], rs[j]);
      assert plan.bandwidth[j] in plan.bandwidth;
    }
    forall i, j | 0 <= i < |plan.bandwidth| && 0 <= j < |plan.bandwidth[i].1| ensures plan.bandwidth[i].1[j].1 >= 0.0 {
      assert RoutedAs(topo, req.flows[i], plan.placements, plan.routes, plan.bandwidth[i], rs[i]);
    }
  }

  /** A plan by the rules: every VNF where the placing rule put it, largest demand first, every
      flow on the first path left for it. */
  ghost predicate ByRule(topo: Topology, node0: map<NodeId, Amount>, bw0: seq<real>, req: Request, rule: Rule,
                         nodes: seq<NodeId>, plan: Plan)
    requires |bw0| == |topo.links|
  {
    && AllByRule(topo, node0, req, rule, nodes, plan.placements, plan.alloc)
    && RoutedFirstPaths(topo, bw0, req.flows, plan.placements, plan.routes)
  }

  ghost predicate AllByRule(topo: Topology, node0: map<NodeId, Amount>, req: Request, rule: Rule, nodes: seq<NodeId>,
                            placements: Dict<VnfId, NodeId>, alloc: map<VnfId, Amount>)
  {
    && |placements| == |req.vnfs| && RulePlaced(topo, node0, nodes, rule, Sorted(req.vnfs), placements, alloc)
    && PlacedFirst(topo, nodes, Sorted(req.vnfs), placements, alloc)
  }

  /** Why a run finds no plan, and the only reasons: the rule runs out of nodes for a VNF, or a
      flow between rule-placed hosts out of paths. */
  ghost predicate RunStuck(topo: Topology, node0: map<NodeId, Amount>, bw0: seq<real>, req: Request, rule: Rule,
                           nodes: seq<NodeId>)
    requires |bw0| == |topo.links|
  {
    || (exists placements, alloc :: PlacedStuck(topo, node0, nodes, rule, Sorted(req.vnfs), placements, alloc))
    || (exists placements, alloc :: PlacedThenCut(topo, node0, bw0, req, rule, nodes, placements, alloc))
  }

  ghost predicate PlacedThenCut(topo: Topology, node0: map<NodeId, Amount>, bw0: seq<real>, req: Request, rule: Rule,
                                nodes: seq<NodeId>, placements: Dict<VnfId, NodeId>, alloc: map<VnfId, Amount>)
    requires |bw0| == |topo.links|
  {
    AllByRule(topo, node0, req, rule, nodes, placements, alloc) && RoutingStuck(topo, bw0, req.flows, placements)
  }

  /** The rules either plan the chain or get stuck, never both. */
  lemma PlannedOrStuck(topo: Topology, node0: map<NodeId, Amount>, bw0: seq<real>, req: Request, rule: Rule,
                       nodes: seq<NodeId>, plan: Plan)
    requires |bw0| == |topo.links| && ByRule(topo, node0, bw0, req, rule, nodes, plan)
    ensures !RunStuck(topo, node0, bw0, req, rule, nodes)
  {
    SortedLength(req.vnfs);
    var vnfs, p, a := Sorted(req.vnfs), plan.placements, plan.alloc;
    hide Sorted, RulePlaced, PlacedFirst, RoutedFirstPaths, RoutingStuck, PlacedStuck;
    forall q, b ensures !PlacedStuck(topo, node0, nodes, rule, vnfs, q, b) {
      PlacedNotStuck(topo, node0, nodes, rule, vnfs, p, a, q, b);
    }
    forall q, b ensures !PlacedThenCut(topo, node0, bw0, req, rule, nodes, q, b) {
      if PlacedThenCut(topo, node0, bw0, req, rule, nodes, q, b) {
        assert p[..|p|] == p && q[..|q|] == q;
        RoutedOrCut(topo, bw0, req.flows, p, plan.routes);
        OnePlacing(topo, node0, nodes, rule, vnfs, p, a, q, b, |p|);
      }
    }
  }

  lemma CutAfterPlacing(topo: Topology, node0: map<NodeId, Amount>, bw0: seq<real>, req: Request, rule: Rule,
                        nodes: seq<NodeId>, placements: Dict<VnfId, NodeId>, alloc: map<VnfId, Amount>)
    requires |bw0| == |topo.links| && AllByRule(topo, node0, req, rule, nodes, placements, alloc)
    requires RoutingStuck(topo, bw0, req.flows, placements)
    ensures RunStuck(topo, node0, bw0, req, rule, nodes)
  {
    hide AllByRule, RoutingStuck, PlacedStuck, Sorted;
    assert PlacedThenCut(topo, node0, bw0, req, rule, nodes, placements, alloc);
  }

  lemma StuckPlacing(topo: Topology, node0: map<NodeId, Amount>, bw0: seq<real>, req: Request, rule: Rule,
                     nodes: seq<NodeId>, placements: Dict<VnfId, NodeId>, alloc: map<VnfId, Amount>)
    requires |bw0| == |topo.links| && PlacedStuck(topo, node0, nodes, rule, Sorted(req.vnfs), placements, alloc)
    ensures RunStuck(topo, node0, bw0, req, rule, nodes)
  {
    hide PlacedStuck, Sorted, PlacedThenCut;
  }

  lemma AllPlacedByRule(topo: Topology, node0: map<NodeId, Amount>, req: Request, rule: Rule, nodes: seq<NodeId>,
                        placements: Dict<VnfId, NodeId>, alloc: map<VnfId, Amount>, running: map<NodeId, Amount>,
                        resource: real)
    requires Placing(topo, node0, nodes, Sorted(req.vnfs), |Sorted(req.vnfs)|, placements, alloc, running, resource)
    requires RulePlaced(topo, node0, nodes, rule, Sorted(req.vnfs), placements, alloc)
    ensures AllByRule(topo, node0, req, rule, nodes, placements, alloc)
  {
    SortedLength(req.vnfs);
    hide RulePlaced, PlacedFirst, Sorted, NodesLeft, ResourceCost;
  }

  /** Both greedy baselines: place, route, cost. The substrate is read and never written. */
  method Run(sub: SubstrateNetwork, req: Request, w: CostWeights, rule: Rule, nodes: seq<NodeId>, countInter: bool)
    returns (r: GreedyResult)
    requires sub.Valid() && sub.NonNegative() && req.IsChain() && forall n :: n in nodes ==> n in sub.node
    ensures r.Placed? ==> SafePlan(sub.topo, sub.node, sub.bw, req, nodes, r.plan) && CostsAddUp(req, w, r)
    ensures r.Placed? ==> CostsSplit(sub.topo, req, countInter, r)
    ensures r.Placed? && !countInter ==> r.interBw == 0.0
    ensures r.Placed? ==> ByRule(sub.topo, sub.node, sub.bw, req, rule, nodes, r.plan)
    ensures r.Placed? <==> !RunStuck(sub.topo, sub.node, sub.bw, req, rule, nodes)
  {
    hide Topology.Valid, Placing, RoutedFirst, Find, Sorted, SafePlan, Request.IsChain, CostsAddUp, DistinctKeys,
         DistinctIds, EndsPlaced, Ids, RunStuck, RulePlaced, PlacedStuck, RoutingStuck, AllByRule, RoutedFirstPaths,
         CostsSplit, Split;
    ChainShape(req);
    var vnfs := Sorted(req.vnfs);
    var state := new PlacementState();
    var placed := PlaceEach(sub, vnfs, rule, nodes, state);
    if !placed {
      StuckPlacing(sub.topo, sub.node, sub.bw, req, rule, nodes, state.placements, state.alloc);
      return NoPlan;
    }
    ghost var rs, total;
    var routed;
    EveryEndPlaced(sub.topo, sub.node, nodes, req, state.placements, state.alloc, state.runningNode, state.resource);
    AllPlacedByRule(sub.topo, sub.node, req, rule, nodes, state.placements, state.alloc, state.runningNode,
                    state.resource);
    routed, rs, total := RouteEach(sub, state, req.flows, countInter);
    if !routed {
      CutAfterPlacing(sub.topo, sub.node, sub.bw, req, rule, nodes, state.placements, state.alloc);
      return NoPlan;
    }
    r := Conclude(sub, req, w, nodes, state, countInter, rs, total);
    PlannedOrStuck(sub.topo, sub.node, sub.bw, req, rule, nodes, r.plan);
  }

  /** Assemble the plan and its cost from a finished run. */
  method Conclude(sub: SubstrateNetwork, req: Request, w: CostWeights, ghost nodes: seq<NodeId>, state: PlacementState,
                  ghost countInter: bool, ghost rs: seq<Reservation>, ghost total: real) returns (r: GreedyResult)
    requires sub.Valid() && req.IsChain()
    requires Placing(sub.topo, sub.node, nodes, Sorted(req.vnfs), |req.vnfs|, state.placements, state.alloc,
                     state.runningNode, state.resource)
    requires |rs| == |req.flows| && total == state.intraBw + state.interBw
    requires RoutedFirst(sub.topo, sub.bw, req.flows, state.placements, state.routes, state.bandwidth, state.runningBw,
                         rs, total)
    requires Split(sub.topo, rs, countInter, state.intraBw, state.interBw)
    ensures r.Placed? && r.interBw == state.interBw && CostsSplit(sub.topo, req, countInter, r)
    ensures r.plan.placements == state.placements && r.plan.alloc == state.alloc && r.plan.routes == state.routes
    ensures SafePlan(sub.topo, sub.node, sub.bw, req, nodes, r.plan) && CostsAddUp(req, w, r)
  {
    hide Topology.Valid, Placing, RoutedFirst, Sorted, SafePlan, ResourceCost, FlowCost, Request.IsChain, Weighted,
         CostsAddUp, Split, CostsSplit;
    var plan := Plan(state.placements, state.alloc, state.routes, state.bandwidth);
    FinishedIsSafe(sub.topo, sub.node, sub.bw, req, nodes, plan, state.runningNode, state.runningBw, state.resource, rs,
                   total);
    var cost := Weighted(w, state.resource, state.intraBw, state.interBw);
    r := Placed(plan, cost, state.intraBw, state.interBw, state.resource);
    ResultAddsUp(req, w, r, total);
    SplitResult(sub.topo, sub.bw, req, rs, state.runningBw, total, countInter, r);
  }

  lemma ResultAddsUp(req: Request, w: CostWeights, r: GreedyResult, total: real)
    requires r.Placed? && r.resource == ResourceCost(Sorted(req.vnfs)) && total == FlowCost(req.flows, r.plan.routes)
    requires total == r.intraBw + r.interBw && r.cost == Weighted(w, r.resource, r.intraBw, r.interBw)
    ensures CostsAddUp(req, w, r)
  {
    ResourceIsDemand(Sorted(req.vnfs));
    SortedDemand(req.vnfs);
    hide FlowCost, ResourceCost, Sorted, DemandSum;
  }

  lemma {:induction false} ResourceIsDemand(vnfs: seq<Vnf>)
    ensures ResourceCost(vnfs) == DemandSum(vnfs)
  {
    if vnfs != [] {
      ResourceIsDemand(vnfs[..|vnfs| - 1]);
    }
  }

  function Weighted(w: CostWeights, resource: real, intra: real, inter: real): real {
    w.alpha * resource + w.gammaIntra * intra + w.gammaInter * inter
  }

  /** Route every flow of the chain in turn. */
  method RouteEach(sub: SubstrateNetwork, state: PlacementState, flows: seq<Flow>, countInter: bool)
    returns (ok: bool, ghost rs: seq<Reservation>, ghost total: real)
    requires sub.Valid() && LinksNonNegative(sub.bw) && DistinctKeys(flows) && EndsPlaced(flows, state.placements)
    requires state.routes == map[] && state.bandwidth == [] && state.runningBw == map[]
    requires state.intraBw == state.interBw == 0.0
    modifies state`routes, state`bandwidth, state`runningBw, state`intraBw, state`interBw
    ensures ok ==> |rs| == |flows| && total == state.intraBw + state.interBw
    ensures ok ==> RoutedFirst(sub.topo, sub.bw, flows, state.placements, state.routes, state.bandwidth,
                               state.runningBw, rs, total)
    ensures !countInter ==> state.interBw == 0.0
    ensures ok ==> Split(sub.topo, rs, countInter, state.intraBw, state.interBw)
    ensures ok ==> RoutedFirstPaths(sub.topo, sub.bw, flows, state.placements, state.routes)
    ensures !ok ==> RoutingStuck(sub.topo, sub.bw, flows, state.placements)
  {
    NothingRoutedYet(sub.topo, sub.bw, flows, state.placements);
    NothingSplit(sub.topo, countInter, 0.0);
    hide Topology.Valid, RoutedFirst, Find, DistinctKeys, LinksNonNegative, RoutingStuck, FirstPaths, RoutedFirstPaths,
         Split;
    ok, rs, total := true, [], 0.0;
    var k := 0;
    while k < |flows|
      invariant 0 <= k == |rs| <= |flows| && ok
      invariant total == state.intraBw + state.interBw && (!countInter ==> state.interBw == 0.0)
      invariant RoutedFirst(sub.topo, sub.bw, flows, state.placements, state.routes, state.bandwidth,
                            state.runningBw, rs, total)
      invariant FirstPaths(sub.topo, sub.bw, flows, state.placements, rs)
      invariant Split(sub.topo, rs, countInter, state.intraBw, state.interBw)
    {
      ok, rs, total := RouteFlow(sub, state, flows[k], countInter, flows, rs, total);
      if !ok {
        return;
      }
      k := k + 1;
    }
    AllOnRecord(sub.topo, sub.bw, flows, state.placements, state.routes, state.bandwidth, state.runningBw, rs, total);
  }

  lemma AllOnRecord(topo: Topology, bw0: seq<real>, flows: seq<Flow>, placements: Dict<VnfId, NodeId>,
                    routes: map<FlowKey, seq<LinkId>>, bandwidth: Dict<FlowKey, Dict<LinkId, real>>,
                    running: map<LinkId, real>, rs: seq<Reservation>, total: real)
    requires |bw0| == |topo.links| && |rs| == |flows| && FirstPaths(topo, bw0, flows, placements, rs)
    requires RoutedFirst(topo, bw0, flows, placements, routes, bandwidth, running, rs, total)
    ensures RoutedFirstPaths(topo, bw0, flows, placements, routes)
  {
    hide FirstPaths, Connects, Find, LinkLedger, Entries;
    assert forall j :: 0 <= j < |rs| ==> RoutedAs(topo, flows[j], placements, routes, bandwidth[j], rs[j]);
    assert OnRecord(flows, routes, rs);
  }

  lemma NothingRoutedYet(topo: Topology, bw: seq<real>, flows: seq<Flow>, placements: Dict<VnfId, NodeId>)
    requires |bw| == |topo.links| && LinksNonNegative(bw)
    ensures RoutedFirst(topo, bw, flows, placements, map[], [], map[], [], 0.0)
    ensures FirstPaths(topo, bw, flows, placements, [])
  {
    assert EffectiveBw(topo, bw, map[]) == bw;
    NothingReserved(topo, bw);
  }

  ghost predicate EndsPlaced(flows: seq<Flow>, placements: Dict<VnfId, NodeId>) {
    forall k :: 0 <= k < |flows| ==> Find(placements, flows[k].src).Some? && Find(placements, flows[k].dst).Some?
  }

  lemma EveryEndPlaced(topo: Topology, node0: map<NodeId, Amount>, nodes: seq<NodeId>, req: Request,
                       placements: Dict<VnfId, NodeId>, alloc: map<VnfId, Amount>, running: map<NodeId, Amount>,
                       resource: real)
    requires req.IsChain()
    requires Placing(topo, node0, nodes, Sorted(req.vnfs), |Sorted(req.vnfs)|, placements, alloc, running, resource)
    ensures EndsPlaced(req.flows, placements)
  {
    hide Placing, Find, Sorted;
    forall k | 0 <= k < |req.flows|
      ensures Find(placements, req.flows[k].src).Some? && Find(placements, req.flows[k].dst).Some?
    {
      EndPlaced(topo, node0, nodes, req, placements, alloc, running, resource, k);
    }
  }

  lemma EndPlaced(topo: Topology, node0: map<NodeId, Amount>, nodes: seq<NodeId>, req: Request,
                   placements: Dict<VnfId, NodeId>, alloc: map<VnfId, Amount>, running: map<NodeId, Amount>,
                   resource: real, k: nat)
    requires req.IsChain() && k < |req.flows|
    requires Placing(topo, node0, nodes, Sorted(req.vnfs), |Sorted(req.vnfs)|, placements, alloc, running, resource)
    ensures Find(placements, req.flows[k].src).Some? && Find(placements, req.flows[k].dst).Some?
  {
    hide Find, NodesLeft, Effective;
    SortedIds(req.vnfs);
    var vnfs := Sorted(req.vnfs);
    assert req.vnfs[k] in vnfs && req.vnfs[k + 1] in vnfs;
    var i :| 0 <= i < |vnfs| && vnfs[i] == req.vnfs[k];
    var j :| 0 <= j < |vnfs| && vnfs[j] == req.vnfs[k + 1];
    HostFound(topo, nodes, vnfs, placements, alloc, i);
    HostFound(topo, nodes, vnfs, placements, alloc, j);
  }

  /** First-fit-decreasing over the whole substrate. */
  method RunGreedyFfd(sub: SubstrateNetwork, req: Request, w: CostWeights) returns (r: GreedyResult)
    requires sub.Valid() && sub.NonNegative() && req.IsChain()
    ensures r.Placed? ==> SafePlan(sub.topo, sub.node, sub.bw, req, sub.topo.order, r.plan) && CostsAddUp(req, w, r)
    ensures r.Placed? ==> CostsSplit(sub.topo, req, true, r)
    ensures r.Placed? ==> ByRule(sub.topo, sub.node, sub.bw, req, MostFree, sub.topo.order, r.plan)
    ensures r.Placed? <==> !RunStuck(sub.topo, sub.node, sub.bw, req, MostFree, sub.topo.order)
  {
    hide SafePlan, CostsAddUp, ByRule, RunStuck, CostsSplit;
    r := Run(sub, req, w, MostFree, sub.topo.order, true);
  }

  /** Run the baseline on the real substrate and apply what it planned. The run's own safety is
      what keeps the allocation from overcommitting. */
  method GreedyPlaceOnSubstrate(sub: SubstrateNetwork, req: Request, w: CostWeights)
    returns (r: GreedyResult, applied: bool)
    requires sub.Valid() && sub.NonNegative() && req.IsChain()
    modifies sub
    ensures sub.Valid() && sub.NonNegative()
    ensures applied == (r.Placed? && Find(old(sub.active), req.id) == None)
    ensures !applied ==> sub.node == old(sub.node) && sub.bw == old(sub.bw) && sub.active == old(sub.active)
    ensures applied ==> Taken(sub.topo, r.plan, old(sub.node), old(sub.bw), sub.node, sub.bw)
    ensures applied ==> sub.active == old(sub.active) + [(req.id, (r.plan, req))]
  {
    r := RunGreedyFfd(sub, req, w);
    applied := false;
    if r.Placed? {
      SafeTaking(sub.topo, sub.node, sub.bw, req, sub.topo.order, r.plan);
      hide SafePlan, CostsAddUp, Plan.WellFormed, Topology.Valid;
      applied := sub.Allocate(r.plan, req);
    }
  }

  /** Allocating a safe plan leaves nothing below zero. */
  lemma SafeTaking(topo: Topology, node0: map<NodeId, Amount>, bw0: seq<real>, req: Request, nodes: seq<NodeId>,
                   plan: Plan)
    requires |bw0| == |topo.links| && SafePlan(topo, node0, bw0, req, nodes, plan)
    ensures plan.WellFormed(topo) && plan.NonNegative()
    ensures forall node1, bw1 :: Taken(topo, plan, node0, bw0, node1, bw1) ==>
          NodesNonNegative(node1) && LinksNonNegative(bw1)
  {
    hide FlowDemand, PlacedDemand;
  }
}
