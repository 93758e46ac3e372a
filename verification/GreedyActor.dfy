/** The deterministic domain actor: place every VNF of the fragment on its lowest-delay
    feasible node, then route every flow, debiting residuals in place. */
module GreedyActor {
  import opened Types
  import opened OrderedDict
  import opened Ledger
  import opened Substrate
  import opened Routing
  import opened RouteRule
  import opened Actors
  import opened DemandOrder

  /** The ranking tuple of a candidate node; a tier mismatch only ranks, it does not exclude. */
  datatype Rank = Rank(mismatch: nat, delay: real, node: NodeId) {
    predicate Precedes(r: Rank) {
      || mismatch < r.mismatch
      || (mismatch == r.mismatch && (delay < r.delay || (delay == r.delay && node < r.node)))
    }
  }

  function RankOf(topo: Topology, v: Vnf, tier: Tier, n: NodeId): Rank
    requires n in topo.attr
  {
    Rank(if topo.attr[n].tier == tier then 0 else 1, HostDelay(topo, v, n), n)
  }

  predicate Fits(node: map<NodeId, Amount>, v: Vnf, n: NodeId) {
    n in node && (v.permitted == [] || n in v.permitted) && node[n].Covers(v.demand)
  }

  /** The head of the sorted candidate list: the first candidate that none precedes. */
  function Least(cands: seq<Rank>): (r: Rank)
    requires cands != []
    ensures r in cands && forall c :: c in cands ==> !c.Precedes(r)
  {
    if |cands| == 1 then cands[0]
    else
      var rest := Least(cands[1..]);
      assert forall c :: c in cands ==> c == cands[0] || c in cands[1..];
      assert forall c :: c in cands && cands[0].Precedes(rest) && c.Precedes(cands[0]) ==> c.Precedes(rest);
      if cands[0].Precedes(rest) then cands[0] else rest
  }

  /** The node the actor picks: it fits, and no fitting node of the domain ranks before it. */
  ghost predicate Chosen(topo: Topology, node: map<NodeId, Amount>, v: Vnf, tier: Tier, nodes: seq<NodeId>, n: NodeId) {
    && n in nodes && n in topo.attr && Fits(node, v, n)
    && forall m :: m in nodes && m in topo.attr && Fits(node, v, m) ==>
          !RankOf(topo, v, tier, m).Precedes(RankOf(topo, v, tier, n))
  }

  // What the choice means.

  /** A node of the domain the VNF may use, with enough CPU and RAM left. */
  ghost predicate Usable(topo: Topology, node: map<NodeId, Amount>, v: Vnf, nodes: seq<NodeId>, n: NodeId) {
    && n in nodes && n in topo.attr && n in node && (v.permitted == [] || n in v.permitted)
    && node[n].cpu >= v.demand.cpu && node[n].ram >= v.demand.ram
  }

  /** m does not beat n: the required tier wins over any other; within the same case the smaller
      processing delay wins, and on equal delay the smaller id. */
  ghost predicate NotBeaten(topo: Topology, v: Vnf, tier: Tier, n: NodeId, m: NodeId)
    requires n in topo.attr && m in topo.attr
  {
    var here, there := topo.attr[n].delay * v.intensity, topo.attr[m].delay * v.intensity;
    if topo.attr[n].tier == tier && topo.attr[m].tier != tier then true
    else if topo.attr[n].tier != tier && topo.attr[m].tier == tier then false
    else here < there || (here == there && n <= m)
  }

  ghost predicate BestNode(topo: Topology, node: map<NodeId, Amount>, v: Vnf, tier: Tier, nodes: seq<NodeId>,
                           n: NodeId)
  {
    Usable(topo, node, v, nodes, n) && forall m :: Usable(topo, node, v, nodes, m) ==> NotBeaten(topo, v, tier, n, m)
  }

  lemma RankMeans(topo: Topology, v: Vnf, tier: Tier, n: NodeId, m: NodeId)
    requires n in topo.attr && m in topo.attr
    ensures !RankOf(topo, v, tier, m).Precedes(RankOf(topo, v, tier, n)) <==> NotBeaten(topo, v, tier, n, m)
  {
    assert HostDelay(topo, v, n) == topo.attr[n].delay * v.intensity;
    assert HostDelay(topo, v, m) == topo.attr[m].delay * v.intensity;
  }

  /** The node chosen is the best one, and there is one exactly when some node is usable. */
  lemma ChosenMeans(topo: Topology, node: map<NodeId, Amount>, v: Vnf, tier: Tier, nodes: seq<NodeId>)
    ensures forall n :: Chosen(topo, node, v, tier, nodes, n) <==> BestNode(topo, node, v, tier, nodes, n)
    ensures forall n :: n in nodes && n in topo.attr ==> (Fits(node, v, n) <==> Usable(topo, node, v, nodes, n))
  {
    forall n, m | n in topo.attr && m in topo.attr
      ensures !RankOf(topo, v, tier, m).Precedes(RankOf(topo, v, tier, n)) <==> NotBeaten(topo, v, tier, n, m)
    {
      RankMeans(topo, v, tier, n, m);
    }
    assert forall n :: n in nodes && n in topo.attr ==> (Fits(node, v, n) <==> Usable(topo, node, v, nodes, n));
    hide RankOf, Rank.Precedes, NotBeaten, Fits;
  }

  method SelectNode(sub: SubstrateNetwork, v: Vnf, tier: Tier, domainNodes: seq<NodeId>) returns (r: Option<NodeId>)
    requires sub.Valid() && forall n :: n in domainNodes ==> n in sub.node
    ensures r.None? <==> forall n :: n in domainNodes ==> !Fits(sub.node, v, n)
    ensures r.Some? ==> Chosen(sub.topo, sub.node, v, tier, domainNodes, r.value)
    ensures r.None? <==> forall n :: !Usable(sub.topo, sub.node, v, domainNodes, n)
    ensures r.Some? ==> BestNode(sub.topo, sub.node, v, tier, domainNodes, r.value)
  {
    ChosenMeans(sub.topo, sub.node, v, tier, domainNodes);
    hide BestNode, Usable;
    var cands: seq<Rank> := [];
    var i := 0;
    while i < |domainNodes|
      invariant 0 <= i <= |domainNodes|
      invariant forall n :: n in domainNodes[..i] && Fits(sub.node, v, n) ==> RankOf(sub.topo, v, tier, n) in cands
      invariant forall c :: c in cands ==>
                  c.node in domainNodes && Fits(sub.node, v, c.node) && c == RankOf(sub.topo, v, tier, c.node)
    {
      var n := domainNodes[i];
      assert domainNodes[..i + 1] == domainNodes[..i] + [n];
      if (v.permitted == [] || n in v.permitted) && sub.node[n].Covers(v.demand) {
        cands := cands + [RankOf(sub.topo, v, tier, n)];
      }
      i := i + 1;
    }
    assert domainNodes[..i] == domainNodes;
    r := if cands == [] then None else Some(Least(cands).node);
  }

  /** The first i placements each follow the rule, given the ones before. */
  ghost predicate GreedyPlaced(topo: Topology, node0: map<NodeId, Amount>, frag: Fragment, nodes: seq<NodeId>,
                               vnfs: seq<Vnf>, i: nat, at: map<VnfId, NodeId>)
  {
    i <= |vnfs| && forall j :: 0 <= j < i ==> FollowsRule(topo, node0, frag, nodes, vnfs, j, at)
  }

  ghost predicate FollowsRule(topo: Topology, node0: map<NodeId, Amount>, frag: Fragment, nodes: seq<NodeId>,
                              vnfs: seq<Vnf>, j: nat, at: map<VnfId, NodeId>)
    requires j < |vnfs|
  {
    && vnfs[j].id in at && vnfs[j].id in frag.tier
    && Chosen(topo, After(node0, vnfs[..j], at), vnfs[j], frag.tier[vnfs[j].id], nodes, at[vnfs[j].id])
  }

  /** After i rule-following placements no node of the domain fits the next VNF. */
  ghost predicate PlacementStuck(topo: Topology, node0: map<NodeId, Amount>, frag: Fragment, nodes: seq<NodeId>,
                                 vnfs: seq<Vnf>, i: nat, at: map<VnfId, NodeId>)
  {
    && i < |vnfs| && GreedyPlaced(topo, node0, frag, nodes, vnfs, i, at)
    && forall n :: n in nodes ==> !Fits(After(node0, vnfs[..i], at), vnfs[i], n)
  }

  lemma GreedyPlacedNext(topo: Topology, node0: map<NodeId, Amount>, node: map<NodeId, Amount>, frag: Fragment,
                         nodes: seq<NodeId>, vnfs: seq<Vnf>, i: nat, at: map<VnfId, NodeId>, n: NodeId)
    requires DistinctIds(vnfs) && i < |vnfs| && vnfs[i].id in frag.tier
    requires GreedyPlaced(topo, node0, frag, nodes, vnfs, i, at) && NodesDebited(node0, node, vnfs[..i], at)
    requires Chosen(topo, node, vnfs[i], frag.tier[vnfs[i].id], nodes, n)
    ensures GreedyPlaced(topo, node0, frag, nodes, vnfs, i + 1, at[vnfs[i].id := n])
  {
    hide Chosen, LoadOn;
    var at' := at[vnfs[i].id := n];
    forall j | 0 <= j < i + 1 ensures FollowsRule(topo, node0, frag, nodes, vnfs, j, at') {
      assert After(node0, vnfs[..j], at') == After(node0, vnfs[..j], at) by {
        forall m | m in node0 ensures LoadOn(vnfs[..j], at', m) == LoadOn(vnfs[..j], at, m) {
          LoadAgrees(vnfs[..j], at, at', m);
        }
      }
      if j < i {
        assert FollowsRule(topo, node0, frag, nodes, vnfs, j, at);
      } else {
        assert After(node0, vnfs[..i], at) == node;
      }
    }
  }

  lemma StuckHere(topo: Topology, node0: map<NodeId, Amount>, node: map<NodeId, Amount>, frag: Fragment,
                  nodes: seq<NodeId>, vnfs: seq<Vnf>, i: nat, at: map<VnfId, NodeId>)
    requires i < |vnfs| && GreedyPlaced(topo, node0, frag, nodes, vnfs, i, at)
    requires NodesDebited(node0, node, vnfs[..i], at) && forall n :: n in nodes ==> !Fits(node, vnfs[i], n)
    ensures PlacementStuck(topo, node0, frag, nodes, vnfs, i, at)
  {
    hide LoadOn;
    assert After(node0, vnfs[..i], at) == node;
  }

  /** First phase: place every VNF, largest demand first. */
  method PlaceAll(sub: SubstrateNetwork, frag: Fragment, vnfs: seq<Vnf>, domainNodes: seq<NodeId>)
    returns (ok: bool, at: map<VnfId, NodeId>, snapshots: map<NodeId, Amount>, delay: real, cost: real)
    requires sub.Valid() && NodesNonNegative(sub.node)
    requires DistinctIds(vnfs) && Ids(vnfs) <= frag.tier.Keys
    requires forall n :: n in domainNodes ==> n in sub.node && sub.topo.DomainOf(n) == frag.domain
    modifies sub`node, sub`bw
    ensures sub.Valid() && sub.bw == old(sub.bw)
    ensures !ok ==> sub.node == old(sub.node)
    ensures !ok ==> exists i, at :: PlacementStuck(sub.topo, old(sub.node), frag, domainNodes, vnfs, i, at)
    ensures ok ==> PlacedSoFar(sub.topo, frag.domain, vnfs, |vnfs|, old(sub.node), sub.node, at, snapshots)
    ensures ok ==> GreedyPlaced(sub.topo, old(sub.node), frag, domainNodes, vnfs, |vnfs|, at)
    ensures ok ==> delay == ProcessingDelay(sub.topo, vnfs, at) && cost == DemandSum(vnfs)
  {
    hide AllPlaced, NodesDebited, Chosen, GreedyPlaced, Fits, ProcessingDelay, HostDelay, Topology.Valid, BestNode,
         Usable;
    ok, at, snapshots, delay, cost := true, map[], map[], 0.0, 0.0;
    NothingPlacedYet(sub.topo, frag.domain, vnfs, sub.node);
    GreedyStart(sub.topo, sub.node, frag, domainNodes, vnfs);
    var i := 0;
    while i < |vnfs|
      invariant 0 <= i <= |vnfs| && ok && sub.Valid() && sub.bw == old(sub.bw)
      invariant PlacedSoFar(sub.topo, frag.domain, vnfs, i, old(sub.node), sub.node, at, snapshots)
      invariant GreedyPlaced(sub.topo, old(sub.node), frag, domainNodes, vnfs, i, at)
      invariant delay == ProcessingDelay(sub.topo, vnfs[..i], at) && cost == DemandSum(vnfs[..i])
    {
      DemandSumNext(vnfs, i);
      var v := vnfs[i];
      var choice := SelectNode(sub, v, frag.tier[v.id], domainNodes);
      if choice.None? {
        StuckHere(sub.topo, old(sub.node), sub.node, frag, domainNodes, vnfs, i, at);
        Rollback(sub, [], snapshots, old(sub.node), old(sub.bw));
        ok := false;
        return;
      }
      var n := choice.value;
      ChosenIsLegal(sub.topo, sub.node, v, frag.tier[v.id], domainNodes, n);
      GreedyPlacedNext(sub.topo, old(sub.node), sub.node, frag, domainNodes, vnfs, i, at, n);
      ProcessingNext(sub.topo, vnfs, i, at, n);
      at, snapshots := PlaceOn(sub, frag.domain, vnfs, i, n, at, snapshots, old(sub.node));
      delay := delay + HostDelay(sub.topo, v, n);
      cost := cost + v.demand.cpu + v.demand.ram;
      i := i + 1;
    }
    assert vnfs[..i] == vnfs;
  }

  lemma GreedyStart(topo: Topology, node: map<NodeId, Amount>, frag: Fragment, nodes: seq<NodeId>, vnfs: seq<Vnf>)
    ensures GreedyPlaced(topo, node, frag, nodes, vnfs, 0, map[])
    ensures ProcessingDelay(topo, vnfs[..0], map[]) == 0.0
  {}

  lemma ChosenIsLegal(topo: Topology, node: map<NodeId, Amount>, v: Vnf, tier: Tier, nodes: seq<NodeId>, n: NodeId)
    requires Chosen(topo, node, v, tier, nodes, n)
    ensures n in nodes && n in node && n in topo.attr && (v.permitted == [] || n in v.permitted)
    ensures node[n].Covers(v.demand)
  {}

  /** Why the greedy actor refuses, and the only reasons for which it does. */
  ghost predicate RefusalJustified(topo: Topology, frag: Fragment, node0: map<NodeId, Amount>, bw0: seq<real>, k: nat,
                                   sel: Selector)
  {
    var nodes, vnfs := topo.NodesInDomain(frag.domain), Sorted(frag.vnfs);
    || (nodes == [] && vnfs != [])
    || (exists i, at :: PlacementStuck(topo, node0, frag, nodes, vnfs, i, at))
    || (exists at :: PlacedThenStuck(topo, frag, node0, bw0, k, sel, at))
  }

  /** Every VNF of the fragment sits on the node the rule chose for it, largest demand first. */
  ghost predicate FollowsGreedyRule(topo: Topology, frag: Fragment, node0: map<NodeId, Amount>, at: map<VnfId, NodeId>)
  {
    GreedyPlaced(topo, node0, frag, topo.NodesInDomain(frag.domain), Sorted(frag.vnfs), |Sorted(frag.vnfs)|, at)
  }

  /** All VNFs are placed by the rule, and some flow then finds no route. */
  ghost predicate PlacedThenStuck(topo: Topology, frag: Fragment, node0: map<NodeId, Amount>, bw0: seq<real>, k: nat,
                                  sel: Selector, at: map<VnfId, NodeId>)
  {
    && FollowsGreedyRule(topo, frag, node0, at) && at.Keys == Ids(frag.vnfs)
    && RouteStuck(topo, topo.DomainLinks(frag.domain), FlowAsks(topo, frag, at), at, bw0, k, sel)
  }

  /** The flows of the fragment, each within the delay that processing leaves. */
  function FlowAsks(topo: Topology, frag: Fragment, at: map<VnfId, NodeId>): seq<Ask> {
    Asks(frag.flows, frag.delayBudget - ProcessingDelay(topo, Sorted(frag.vnfs), at))
  }

  /** Each flow is asked for with what the hosts of the whole fragment leave of the budget. */
  lemma FlowAsksMean(topo: Topology, frag: Fragment, at: map<VnfId, NodeId>, j: nat)
    requires j < |frag.flows|
    ensures |FlowAsks(topo, frag, at)| == |frag.flows|
    ensures FlowAsks(topo, frag, at)[j] == Ask(frag.flows[j], frag.delayBudget - HostTime(topo, frag.vnfs, at))
  {
    hide ProcessingDelay, HostTime, Sorted;
    SortedProcessing(topo, frag.vnfs, at);
    ProcessingIsSum(topo, frag.vnfs, at);
  }

  /** What the greedy actor answers when it accepts: nodes by the placing rule, routes by the
      routing rule. */
  ghost predicate FollowsBothRules(topo: Topology, frag: Fragment, node0: map<NodeId, Amount>, bw0: seq<real>, k: nat,
                                   sel: Selector, at: map<VnfId, NodeId>, routes: map<FlowKey, seq<LinkId>>)
  {
    && FollowsGreedyRule(topo, frag, node0, at) && at.Keys == Ids(frag.vnfs)
    && RoutedByRule(topo, topo.DomainLinks(frag.domain), FlowAsks(topo, frag, at), at, bw0, k, sel, routes)
  }

  lemma NothingRouted(topo: Topology, frag: Fragment, at: map<VnfId, NodeId>, bw: seq<real>)
    requires |bw| == |topo.links|
    ensures AllServed(topo, topo.DomainLinks(frag.domain), frag.flows[..0], at, map[], [])
    ensures LinksDebited(topo, bw, bw, []) && ReservedDelay(topo, []) == 0.0 && ReservationsOf([], map[]) == []
  {}

  /** A same-node flow is served by the empty route and reserves nothing. */
  lemma ServedHere(topo: Topology, allowed: set<nat>, done: seq<Flow>, f: Flow, at: map<VnfId, NodeId>,
                   routes: map<FlowKey, seq<LinkId>>, bw: Dict<FlowKey, real>)
    requires f.Key() !in FlowKeys(done) && AllServed(topo, allowed, done, at, routes, bw)
    requires f.src in at && f.dst in at && at[f.src] == at[f.dst]
    ensures AllServed(topo, allowed, done + [f], at, routes[f.Key() := []], bw)
    ensures ReservationsOf(bw, routes[f.Key() := []]) == ReservationsOf(bw, routes)
  {
    ServedNext(topo, allowed, done, f, at, routes, bw, [], false);
  }

  /** Second phase: route every flow of the fragment inside the domain. */
  method RouteAll(sub: SubstrateNetwork, frag: Fragment, at: map<VnfId, NodeId>, budget: real, k: nat, sel: Selector)
    returns (ok: bool, routes: map<FlowKey, seq<LinkId>>, bwAllocated: Dict<FlowKey, real>,
             reserved: seq<Reservation>, delay: real)
    requires sub.Valid() && LinksNonNegative(sub.bw)
    requires frag.WellFormed() && at.Keys == Ids(frag.vnfs)
    modifies sub`bw
    ensures sub.Valid()
    ensures LinksDebited(sub.topo, old(sub.bw), sub.bw, reserved)
    ensures !ok ==> RouteStuck(sub.topo, sub.topo.DomainLinks(frag.domain), Asks(frag.flows, budget), at, old(sub.bw),
                               k, sel)
    ensures ok ==> RoutedByRule(sub.topo, sub.topo.DomainLinks(frag.domain), Asks(frag.flows, budget), at, old(sub.bw),
                                k, sel, routes)
    ensures ok ==> delay == ReservedDelay(sub.topo, reserved)
    ensures ok ==> reserved == ReservationsOf(bwAllocated, routes) && LinksNonNegative(sub.bw)
    ensures ok ==> AllServed(sub.topo, sub.topo.DomainLinks(frag.domain), frag.flows, at, routes, bwAllocated)
  {
    hide Topology.Valid, AllServed, LinksDebited, Connects, NoRoute, ReservedDelay, RuleState, RouteChosen, RouteStuck,
         RoutedByRule;
    ok, routes, bwAllocated, reserved, delay := true, map[], [], [], 0.0;
    var left := budget;
    NothingRouted(sub.topo, frag, at, sub.bw);
    ghost var inside, asks := sub.topo.DomainLinks(frag.domain), Asks(frag.flows, budget);
    ghost var chosen: seq<seq<LinkId>> := [];
    NothingChosen(sub.topo, inside, asks, at, sub.bw, k, sel, routes);
    var i := 0;
    while i < |frag.flows|
      invariant 0 <= i <= |frag.flows| && ok && sub.Valid()
      invariant LinkLedger(sub.topo, old(sub.bw), sub.bw, reserved)
      invariant reserved == ReservationsOf(bwAllocated, routes)
      invariant delay == ReservedDelay(sub.topo, reserved) && left == budget - delay
      invariant AllServed(sub.topo, inside, frag.flows[..i], at, routes, bwAllocated)
      invariant |chosen| == i
      invariant RuleState(sub.topo, inside, asks, at, old(sub.bw), k, sel, chosen, routes, sub.bw, delay)
    {
      var f := frag.flows[i];
      assert frag.Joins(f);
      assert frag.flows[..i + 1] == frag.flows[..i] + [f];
      if at[f.src] == at[f.dst] {
        ServedHere(sub.topo, inside, frag.flows[..i], f, at, routes, bwAllocated);
        StaysByRule(sub.topo, inside, asks, at, old(sub.bw), k, sel, chosen, routes, sub.bw, delay);
        chosen := chosen + [[]];
        routes := routes[f.Key() := []];
        i := i + 1;
        continue;
      }
      ghost var before := sub.bw;
      var res, routes', bw' := ServeFlow(sub, sub.topo.DomainLinks(frag.domain), f, at, left, k, sel, routes,
                                         bwAllocated, reserved, frag.flows[..i], old(sub.bw));
      if !res.feasible {
        RoutingStuckHere(sub.topo, inside, asks, at, old(sub.bw), k, sel, chosen, routes, sub.bw, delay);
        ok := false;
        return;
      }
      RuleStateNext(sub.topo, inside, asks, at, old(sub.bw), k, sel, chosen, routes, before, delay, res.links, sub.bw);
      chosen := chosen + [res.links];
      ReservedDelayAppend(sub.topo, reserved, [Reservation(res.links, f.bandwidth)]);
      OneRouteDelay(sub.topo, res.links, f.bandwidth);
      routes, bwAllocated := routes', bw';
      reserved := reserved + [Reservation(res.links, f.bandwidth)];
      delay := delay + res.delay;
      left := left - res.delay;
      i := i + 1;
    }
    assert frag.flows[..i] == frag.flows;
    AllChosen(sub.topo, inside, asks, at, old(sub.bw), k, sel, chosen, routes, sub.bw, delay);
  }

  /** The rule gives a same-node flow the empty route, which takes nothing. */
  lemma StaysByRule(topo: Topology, allowed: set<nat>, asks: seq<Ask>, at: map<VnfId, NodeId>, bw0: seq<real>, k: nat,
                    sel: Selector, chosen: seq<seq<LinkId>>, routes: map<FlowKey, seq<LinkId>>, bw: seq<real>,
                    spent: real)
    requires |bw0| == |topo.links| && |chosen| < |asks|
    requires RuleState(topo, allowed, asks, at, bw0, k, sel, chosen, routes, bw, spent)
    requires var f := asks[|chosen|].flow; f.src in at && f.dst in at && at[f.src] == at[f.dst]
    requires forall j :: 0 <= j < |chosen| ==> asks[j].flow.Key() != asks[|chosen|].flow.Key()
    ensures RuleState(topo, allowed, asks, at, bw0, k, sel, chosen + [[]], routes[asks[|chosen|].flow.Key() := []], bw,
                      spent)
  {
    var demand := asks[|chosen|].flow.bandwidth;
    assert LinksDebited(topo, bw, bw, [Reservation([], demand)]) by {
      assert forall l :: ReservedOn([Reservation([], demand)], l) == 0.0 + ReservedOn([], l);
    }
    RuleStateNext(topo, allowed, asks, at, bw0, k, sel, chosen, routes, bw, spent, [], bw);
  }

  method Act(sub: SubstrateNetwork, frag: Fragment, k: nat, sel: Selector) returns (r: Response)
    requires sub.Valid() && sub.NonNegative() && frag.WellFormed()
    modifies sub`node, sub`bw
    ensures sub.Valid()
    ensures ActContract(sub.topo, frag, old(sub.node), old(sub.bw), sub.node, sub.bw, r)
    ensures r.feasible ==> FollowsBothRules(sub.topo, frag, old(sub.node), old(sub.bw), k, sel, r.placements, r.routes)
    ensures r.feasible <==> !RefusalJustified(sub.topo, frag, old(sub.node), old(sub.bw), k, sel)
    ensures r.feasible ==> r.resourceCost == DemandSum(frag.vnfs)
  {
    hide FollowsBothRules;
    if frag.vnfs == [] {
      EmptyFragment(sub.topo, frag, sub.node, sub.bw);
      NothingByRules(sub.topo, frag, sub.node, sub.bw, k, sel);
      ByRulesOrRefused(sub.topo, frag, sub.node, sub.bw, k, sel, map[], map[]);
      return Response(frag.domain, true, map[], map[], [], 0.0, 0.0);
    }
    var domainNodes := sub.topo.NodesInDomain(frag.domain);
    if domainNodes == [] {
      SortedIds(frag.vnfs);
      return Refusal(frag.domain);
    }
    ghost var node0, bw0 := sub.node, sub.bw;
    r := PlaceThenRoute(sub, frag, domainNodes, k, sel);
    if r.feasible {
      ByRulesOrRefused(sub.topo, frag, node0, bw0, k, sel, r.placements, r.routes);
    }
  }

  /** Both phases, with the rollback between them and a refusal. */
  method PlaceThenRoute(sub: SubstrateNetwork, frag: Fragment, domainNodes: seq<NodeId>, k: nat, sel: Selector)
    returns (r: Response)
    requires sub.Valid() && sub.NonNegative() && frag.WellFormed()
    requires domainNodes == sub.topo.NodesInDomain(frag.domain)
    modifies sub`node, sub`bw
    ensures sub.Valid()
    ensures ActContract(sub.topo, frag, old(sub.node), old(sub.bw), sub.node, sub.bw, r)
    ensures r.feasible ==> FollowsBothRules(sub.topo, frag, old(sub.node), old(sub.bw), k, sel, r.placements, r.routes)
    ensures !r.feasible ==> RefusalJustified(sub.topo, frag, old(sub.node), old(sub.bw), k, sel)
    ensures r.feasible ==> r.resourceCost == DemandSum(frag.vnfs)
  {
    SortedIds(frag.vnfs);
    SortedDemand(frag.vnfs);
    var vnfs := Sorted(frag.vnfs);
    DomainNodesKnown(sub.topo, frag.domain);
    hide Topology.Valid, Fragment.WellFormed, NodesDebited, AllPlaced, GreedyPlaced, ProcessingDelay, PlacementStuck,
         Sorted, SnapshotsTaken, RefusalJustified, ActContract, FollowsBothRules, NodesNonNegative, LinksNonNegative,
         PlacedSoFar, DemandSum;
    ghost var node0 := sub.node;
    var ok, at, snapshots, procDelay, cost := PlaceAll(sub, frag, vnfs, domainNodes);
    if !ok {
      RefusedForPlace(sub.topo, frag, node0, sub.bw, k, sel);
      return Refusal(frag.domain);
    }
    PlacementComplete(sub.topo, frag, node0, sub.node, at, snapshots);
    r := RoutePlaced(sub, frag, k, sel, at, snapshots, procDelay, cost, node0);
  }

  lemma RefusedForPlace(topo: Topology, frag: Fragment, node0: map<NodeId, Amount>, bw0: seq<real>, k: nat,
                        sel: Selector)
    requires exists i, at ::
               PlacementStuck(topo, node0, frag, topo.NodesInDomain(frag.domain), Sorted(frag.vnfs), i, at)
    requires NodesNonNegative(node0) && LinksNonNegative(bw0) && |bw0| == |topo.links|
    ensures RefusalJustified(topo, frag, node0, bw0, k, sel)
    ensures ActContract(topo, frag, node0, bw0, node0, bw0, Refusal(frag.domain))
  {
    hide PlacementStuck;
  }

  /** The placed fragment's flows, and the rollback when one of them finds no route. */
  method RoutePlaced(sub: SubstrateNetwork, frag: Fragment, k: nat, sel: Selector, at: map<VnfId, NodeId>,
                     snapshots: map<NodeId, Amount>, procDelay: real, cost: real, ghost node0: map<NodeId, Amount>)
    returns (r: Response)
    requires sub.Valid() && LinksNonNegative(sub.bw) && frag.WellFormed()
    requires AllPlaced(sub.topo, frag.domain, frag.vnfs, at) && at.Keys == Ids(frag.vnfs)
    requires NodesDebited(node0, sub.node, frag.vnfs, at) && NodesNonNegative(sub.node)
    requires SnapshotsTaken(node0, sub.node, snapshots)
    requires GreedyPlaced(sub.topo, node0, frag, sub.topo.NodesInDomain(frag.domain), Sorted(frag.vnfs),
                          |Sorted(frag.vnfs)|, at)
    requires procDelay == ProcessingDelay(sub.topo, Sorted(frag.vnfs), at) == ProcessingDelay(sub.topo, frag.vnfs, at)
    modifies sub`node, sub`bw
    ensures sub.Valid()
    ensures ActContract(sub.topo, frag, node0, old(sub.bw), sub.node, sub.bw, r)
    ensures r.feasible ==> FollowsBothRules(sub.topo, frag, node0, old(sub.bw), k, sel, r.placements, r.routes)
    ensures !r.feasible ==> RefusalJustified(sub.topo, frag, node0, old(sub.bw), k, sel)
    ensures r.feasible ==> r.resourceCost == cost
  {
    hide Topology.Valid, NodesDebited, AllServed, LinksDebited, GreedyPlaced, ProcessingDelay, ReservedDelay,
         RouteStuck, AllPlaced, Sorted, SnapshotsTaken, RefusalJustified, ActContract, FollowsBothRules,
         RoutedByRule, Fragment.WellFormed, NodesNonNegative, LinksNonNegative, Ids, Asks, ReservationsOf;
    ghost var bw0 := sub.bw;
    var budget := frag.delayBudget - procDelay;
    var routed, routes, bwAllocated, reserved, routeDelay := RouteAll(sub, frag, at, budget, k, sel);
    if !routed {
      RefusedForRoute(sub.topo, frag, node0, bw0, k, sel, at, budget);
      Rollback(sub, reserved, snapshots, node0, bw0);
      return Refusal(frag.domain);
    }
    r := Response(frag.domain, true, at, routes, bwAllocated, procDelay + routeDelay, cost);
    Accepted(sub.topo, frag, node0, bw0, sub.node, sub.bw, k, sel, budget, r);
  }

  lemma Accepted(topo: Topology, frag: Fragment, node0: map<NodeId, Amount>, bw0: seq<real>,
                 node1: map<NodeId, Amount>, bw1: seq<real>, k: nat, sel: Selector, budget: real, r: Response)
    requires r.domain == frag.domain && r.feasible
    requires AllPlaced(topo, frag.domain, frag.vnfs, r.placements)
    requires NodesDebited(node0, node1, frag.vnfs, r.placements) && NodesNonNegative(node1)
    requires LinksDebited(topo, bw0, bw1, r.Reservations()) && LinksNonNegative(bw1)
    requires AllServed(topo, topo.DomainLinks(frag.domain), frag.flows, r.placements, r.routes, r.bwAllocated)
    requires r.intraDelay == ProcessingDelay(topo, frag.vnfs, r.placements) + ReservedDelay(topo, r.Reservations())
    requires GreedyPlaced(topo, node0, frag, topo.NodesInDomain(frag.domain), Sorted(frag.vnfs), |Sorted(frag.vnfs)|,
                          r.placements)
    requires budget == frag.delayBudget - ProcessingDelay(topo, Sorted(frag.vnfs), r.placements)
    requires RoutedByRule(topo, topo.DomainLinks(frag.domain), Asks(frag.flows, budget), r.placements, bw0, k, sel,
                          r.routes)
    ensures ActContract(topo, frag, node0, bw0, node1, bw1, r)
    ensures FollowsBothRules(topo, frag, node0, bw0, k, sel, r.placements, r.routes)
  {
    hide AllServed, RoutedByRule, GreedyPlaced, LinksDebited, NodesDebited, ProcessingDelay, ReservedDelay, Sorted;
  }

  lemma RefusedForRoute(topo: Topology, frag: Fragment, node0: map<NodeId, Amount>, bw0: seq<real>, k: nat,
                        sel: Selector, at: map<VnfId, NodeId>, budget: real)
    requires at.Keys == Ids(frag.vnfs)
    requires GreedyPlaced(topo, node0, frag, topo.NodesInDomain(frag.domain), Sorted(frag.vnfs), |Sorted(frag.vnfs)|,
                          at)
    requires budget == frag.delayBudget - ProcessingDelay(topo, Sorted(frag.vnfs), at)
    requires RouteStuck(topo, topo.DomainLinks(frag.domain), Asks(frag.flows, budget), at, bw0, k, sel)
    ensures RefusalJustified(topo, frag, node0, bw0, k, sel)
    ensures ActContract(topo, frag, node0, bw0, node0, bw0, Refusal(frag.domain))
  {
    hide RouteStuck, GreedyPlaced, ProcessingDelay, Sorted;
    assert PlacedThenStuck(topo, frag, node0, bw0, k, sel, at);
  }

  lemma NothingByRules(topo: Topology, frag: Fragment, node: map<NodeId, Amount>, bw: seq<real>, k: nat, sel: Selector)
    requires frag.WellFormed() && frag.vnfs == []
    ensures FollowsBothRules(topo, frag, node, bw, k, sel, map[], map[])
  {
    if frag.flows != [] {
      var f := SomeFlow(frag.flows);
      assert false;
    }
    NothingChosen(topo, topo.DomainLinks(frag.domain), FlowAsks(topo, frag, map[]), map[], bw, k, sel, map[]);
    AllChosen(topo, topo.DomainLinks(frag.domain), FlowAsks(topo, frag, map[]), map[], bw, k, sel, [], map[], bw, 0.0);
  }

  // Both rules leave no choice, so acceptance excludes every cause of refusal.

  lemma OneChoice(topo: Topology, node: map<NodeId, Amount>, v: Vnf, tier: Tier, nodes: seq<NodeId>, m: NodeId,
                  n: NodeId)
    requires Chosen(topo, node, v, tier, nodes, m) && Chosen(topo, node, v, tier, nodes, n)
    ensures m == n
  {
    hide HostDelay, Fits;
  }

  lemma {:induction false} OnePlacement(topo: Topology, node0: map<NodeId, Amount>, frag: Fragment, nodes: seq<NodeId>,
                                        vnfs: seq<Vnf>, i: nat, a: map<VnfId, NodeId>, b: map<VnfId, NodeId>)
    requires GreedyPlaced(topo, node0, frag, nodes, vnfs, i, a) && GreedyPlaced(topo, node0, frag, nodes, vnfs, i, b)
    ensures forall j :: 0 <= j < i ==> vnfs[j].id in a && vnfs[j].id in b && a[vnfs[j].id] == b[vnfs[j].id]
    ensures After(node0, vnfs[..i], a) == After(node0, vnfs[..i], b)
  {
    hide Chosen, LoadOn;
    if i > 0 {
      OnePlacement(topo, node0, frag, nodes, vnfs, i - 1, a, b);
      var v := vnfs[i - 1];
      assert FollowsRule(topo, node0, frag, nodes, vnfs, i - 1, a)
            && FollowsRule(topo, node0, frag, nodes, vnfs, i - 1, b);
      OneChoice(topo, After(node0, vnfs[..i - 1], a), v, frag.tier[v.id], nodes, a[v.id], b[v.id]);
    }
    forall n | n in node0 ensures LoadOn(vnfs[..i], a, n) == LoadOn(vnfs[..i], b, n) {
      LoadAgrees(vnfs[..i], a, b, n);
    }
  }

  /** A fragment is accepted by the rules or refused for a cause, never both. */
  lemma ByRulesOrRefused(topo: Topology, frag: Fragment, node0: map<NodeId, Amount>, bw0: seq<real>, k: nat,
                         sel: Selector, at: map<VnfId, NodeId>, routes: map<FlowKey, seq<LinkId>>)
    requires FollowsBothRules(topo, frag, node0, bw0, k, sel, at, routes)
    ensures !RefusalJustified(topo, frag, node0, bw0, k, sel)
  {
    SortedIds(frag.vnfs);
    var nodes, vnfs := topo.NodesInDomain(frag.domain), Sorted(frag.vnfs);
    hide Chosen, Sorted, ProcessingDelay, RoutedByRule, RouteStuck, Topology.NodesInDomain;
    if nodes == [] && vnfs != [] {
      assert FollowsRule(topo, node0, frag, nodes, vnfs, 0, at);
      ChosenIsLegal(topo, After(node0, vnfs[..0], at), vnfs[0], frag.tier[vnfs[0].id], nodes, at[vnfs[0].id]);
      assert false;
    }
    forall i: nat, b ensures !PlacementStuck(topo, node0, frag, nodes, vnfs, i, b) {
      if PlacementStuck(topo, node0, frag, nodes, vnfs, i, b) {
        PlacedNotStuck(topo, node0, frag, nodes, vnfs, i, at, b);
        assert false;
      }
    }
    forall b ensures !PlacedThenStuck(topo, frag, node0, bw0, k, sel, b) {
      if PlacedThenStuck(topo, frag, node0, bw0, k, sel, b) {
        SamePlacement(topo, node0, frag, nodes, at, b);
        RoutedOrStuck(topo, topo.DomainLinks(frag.domain), FlowAsks(topo, frag, at), at, bw0, k, sel, routes);
        assert false;
      }
    }
  }

  lemma SamePlacement(topo: Topology, node0: map<NodeId, Amount>, frag: Fragment, nodes: seq<NodeId>,
                      a: map<VnfId, NodeId>, b: map<VnfId, NodeId>)
    requires a.Keys == b.Keys == Ids(frag.vnfs) && nodes == topo.NodesInDomain(frag.domain)
    requires FollowsGreedyRule(topo, frag, node0, a) && FollowsGreedyRule(topo, frag, node0, b)
    ensures a == b
  {
    var vnfs := Sorted(frag.vnfs);
    SortedIds(frag.vnfs);
    hide Sorted;
    OnePlacement(topo, node0, frag, nodes, vnfs, |vnfs|, a, b);
    hide GreedyPlaced;
    forall id | id in a ensures a[id] == b[id] {
      assert id in Ids(vnfs);
    }
  }

  lemma PlacedNotStuck(topo: Topology, node0: map<NodeId, Amount>, frag: Fragment, nodes: seq<NodeId>, vnfs: seq<Vnf>,
                       i: nat, a: map<VnfId, NodeId>, b: map<VnfId, NodeId>)
    requires GreedyPlaced(topo, node0, frag, nodes, vnfs, |vnfs|, a)
    ensures !PlacementStuck(topo, node0, frag, nodes, vnfs, i, b)
  {
    hide Chosen, After;
    if PlacementStuck(topo, node0, frag, nodes, vnfs, i, b) {
      OnePlacement(topo, node0, frag, nodes, vnfs, i, a, b);
      assert FollowsRule(topo, node0, frag, nodes, vnfs, i, a);
      var v := vnfs[i];
      ChosenFits(topo, After(node0, vnfs[..i], a), v, frag.tier[v.id], nodes, a[v.id]);
    }
  }

  lemma ChosenFits(topo: Topology, node: map<NodeId, Amount>, v: Vnf, tier: Tier, nodes: seq<NodeId>, n: NodeId)
    requires Chosen(topo, node, v, tier, nodes, n)
    ensures n in nodes && Fits(node, v, n)
  {}

  lemma DomainNodesKnown(topo: Topology, d: DomainId)
    requires topo.Valid()
    ensures forall n :: n in topo.NodesInDomain(d) ==> n in topo.attr && topo.DomainOf(n) == d
  {}

  /** A placement of the sorted VNFs is a placement of the fragment. */
  lemma PlacementComplete(topo: Topology, frag: Fragment, node0: map<NodeId, Amount>, node: map<NodeId, Amount>,
                          at: map<VnfId, NodeId>, snapshots: map<NodeId, Amount>)
    requires PlacedSoFar(topo, frag.domain, Sorted(frag.vnfs), |Sorted(frag.vnfs)|, node0, node, at, snapshots)
    ensures AllPlaced(topo, frag.domain, frag.vnfs, at) && at.Keys == Ids(frag.vnfs)
    ensures NodesDebited(node0, node, frag.vnfs, at) && NodesNonNegative(node) && SnapshotsTaken(node0, node, snapshots)
    ensures ProcessingDelay(topo, Sorted(frag.vnfs), at) == ProcessingDelay(topo, frag.vnfs, at)
  {
    hide NodesDebited, AllPlaced, ProcessingDelay, Sorted;
    var vnfs := Sorted(frag.vnfs);
    assert vnfs[..|vnfs|] == vnfs;
    SortedIds(frag.vnfs);
    SortedPlacement(topo, frag, at, node0, node);
    SortedProcessing(topo, frag.vnfs, at);
  }

  lemma SortedPlacement(topo: Topology, frag: Fragment, at: map<VnfId, NodeId>,
                        node0: map<NodeId, Amount>, node1: map<NodeId, Amount>)
    requires AllPlaced(topo, frag.domain, Sorted(frag.vnfs), at)
    requires NodesDebited(node0, node1, Sorted(frag.vnfs), at)
    ensures AllPlaced(topo, frag.domain, frag.vnfs, at) && NodesDebited(node0, node1, frag.vnfs, at)
  {
    SortedIds(frag.vnfs);
    forall i | 0 <= i < |frag.vnfs|
      ensures frag.vnfs[i].id in at && LegalHost(topo, frag.domain, frag.vnfs[i], at[frag.vnfs[i].id])
    {
      assert frag.vnfs[i] in Sorted(frag.vnfs);
    }
    forall n | n in node1 ensures node1[n] == node0[n].Minus(LoadOn(frag.vnfs, at, n)) {
      SortedLoad(frag.vnfs, at, n);
    }
  }
}
