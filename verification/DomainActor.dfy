/** The learned domain actor: for each VNF in chain order the policy picks a node the action
    mask allows, or refuses; then the flow into that VNF is routed before the next VNF. */
module DomainActor {
  import opened Types
  import opened OrderedDict
  import opened Ledger
  import opened Substrate
  import opened Routing
  import opened RouteRule
  import opened Actors

  const NULL_ACTION := -1

  /** The policy network: any choice per step and mask. */
  type Policy = (nat, seq<bool>) -> int

  /** The policy's own guarantee: the refuse action or an index whose mask entry is true. */
  ghost predicate RespectsMask(policy: Policy) {
    forall step: nat, mask: seq<bool> ::
      policy(step, mask) == NULL_ACTION || (0 <= policy(step, mask) < |mask| && mask[policy(step, mask)])
  }

  predicate MaskTrue(topo: Topology, node: map<NodeId, Amount>, overrides: map<NodeId, Amount>, v: Vnf, tier: Tier,
                     n: NodeId)
  {
    && n in topo.attr && n in node
    && n in v.permitted && topo.attr[n].tier == tier
    && (if n in overrides then overrides[n] else node[n]).Covers(v.demand)
  }

  /** A permitted node of the tier with CPU and RAM enough, an override counting before the
      residual. */
  ghost predicate Selectable(topo: Topology, node: map<NodeId, Amount>, overrides: map<NodeId, Amount>, v: Vnf,
                             tier: Tier, n: NodeId)
  {
    && n in v.permitted && n in topo.attr && topo.attr[n].tier == tier
    && (n in overrides ==> overrides[n].cpu >= v.demand.cpu && overrides[n].ram >= v.demand.ram)
    && (n !in overrides ==> n in node && node[n].cpu >= v.demand.cpu && node[n].ram >= v.demand.ram)
  }

  /** Resource, tier and permission mask over the nodes of the domain. */
  method ComputeActionMask(sub: SubstrateNetwork, nodeIds: seq<NodeId>, v: Vnf, tier: Tier,
                           overrides: map<NodeId, Amount>) returns (mask: seq<bool>)
    requires sub.Valid() && forall n :: n in nodeIds ==> n in sub.node
    ensures |mask| == |nodeIds|
    ensures forall i :: 0 <= i < |mask| ==> (mask[i] <==> MaskTrue(sub.topo, sub.node, overrides, v, tier, nodeIds[i]))
    ensures forall i :: 0 <= i < |mask| ==>
              (mask[i] <==> Selectable(sub.topo, sub.node, overrides, v, tier, nodeIds[i]))
  {
    mask := [];
    var i := 0;
    while i < |nodeIds|
      invariant 0 <= i <= |nodeIds| && |mask| == i
      invariant forall j :: 0 <= j < i ==> (mask[j] <==> MaskTrue(sub.topo, sub.node, overrides, v, tier, nodeIds[j]))
    {
      var n := nodeIds[i];
      var valid := false;
      if n in v.permitted {
        if sub.topo.attr[n].tier == tier {
          var residual := if n in overrides then overrides[n] else sub.node[n];
          valid := residual.Covers(v.demand);
        }
      }
      mask := mask + [valid];
      i := i + 1;
    }
  }

  /** The mask for a VNF over a list of nodes. */
  function MaskOf(topo: Topology, nodes: seq<NodeId>, node: map<NodeId, Amount>, v: Vnf, tier: Tier): seq<bool> {
    seq(|nodes|, i requires 0 <= i < |nodes| => MaskTrue(topo, node, map[], v, tier, nodes[i]))
  }

  /** VNF j sits on the node the policy picked from its mask, given the placements before it. */
  ghost predicate PolicyStep(topo: Topology, frag: Fragment, policy: Policy, node0: map<NodeId, Amount>,
                             at: map<VnfId, NodeId>, j: nat)
  {
    && j < |frag.vnfs| && frag.vnfs[j].id in at && frag.vnfs[j].id in frag.tier
    && var nodes := topo.NodesInDomain(frag.domain);
       var action := ActionAt(topo, frag, policy, node0, at, j);
       0 <= action < |nodes| && at[frag.vnfs[j].id] == nodes[action]
  }

  /** What the policy answers for VNF j after the placements before it. */
  function ActionAt(topo: Topology, frag: Fragment, policy: Policy, node0: map<NodeId, Amount>, at: map<VnfId, NodeId>,
                    j: nat): int
    requires j < |frag.vnfs| && frag.vnfs[j].id in frag.tier
  {
    var v := frag.vnfs[j];
    policy(j, MaskOf(topo, topo.NodesInDomain(frag.domain), After(node0, frag.vnfs[..j], at), v, frag.tier[v.id]))
  }

  /** The first i VNFs sit where the policy put them. */
  ghost predicate FollowsPolicy(topo: Topology, frag: Fragment, policy: Policy, node0: map<NodeId, Amount>, i: nat,
                                at: map<VnfId, NodeId>)
  {
    i <= |frag.vnfs| && forall j: nat :: j < i ==> PolicyStep(topo, frag, policy, node0, at, j)
  }

  /** The flow of a list that ends at a VNF. */
  function FlowInto(flows: seq<Flow>, t: VnfId): Option<Flow> {
    if flows == [] then None
    else if flows[|flows| - 1].dst == t then Some(flows[|flows| - 1])
    else FlowInto(flows[..|flows| - 1], t)
  }

  function IntoAsk(flows: seq<Flow>, t: VnfId, budget: real): seq<Ask> {
    match FlowInto(flows, t)
    case None => []
    case Some(f) => [Ask(f, budget)]
  }

  /** The flows into the first i VNFs, in order, each within the delay the processing so far
      leaves. */
  function AsksInto(topo: Topology, frag: Fragment, at: map<VnfId, NodeId>, i: nat): seq<Ask>
    requires i <= |frag.vnfs|
  {
    if i == 0 then []
    else
      AsksInto(topo, frag, at, i - 1)
        + IntoAsk(frag.flows, frag.vnfs[i - 1].id, frag.delayBudget - ProcessingDelay(topo, frag.vnfs[..i], at))
  }

  /** Each flow is asked for when its target is placed, with what the hosts so far leave of the
      budget. */
  lemma {:induction false} AsksIntoMean(topo: Topology, frag: Fragment, at: map<VnfId, NodeId>, i: nat, a: Ask)
    requires i <= |frag.vnfs| && a in AsksInto(topo, frag, at, i)
    ensures exists j: nat :: j < i && AskedAt(topo, frag, at, j, a)
  {
    var j, before := i - 1, AsksInto(topo, frag, at, i - 1);
    if a in before {
      AsksIntoMean(topo, frag, at, j, a);
    } else {
      ProcessingIsSum(topo, frag.vnfs[..i], at);
      FlowIntoEnds(frag.flows, frag.vnfs[j].id);
      assert AskedAt(topo, frag, at, j, a);
    }
  }

  ghost predicate AskedAt(topo: Topology, frag: Fragment, at: map<VnfId, NodeId>, j: nat, a: Ask) {
    && j < |frag.vnfs| && a.flow in frag.flows && a.flow.dst == frag.vnfs[j].id
    && a.budget == frag.delayBudget - HostTime(topo, frag.vnfs[..j + 1], at)
  }

  lemma {:induction false} FlowIntoEnds(flows: seq<Flow>, t: VnfId)
    ensures FlowInto(flows, t).Some? ==> FlowInto(flows, t).value in flows && FlowInto(flows, t).value.dst == t
    ensures FlowInto(flows, t).None? ==> forall f :: f in flows ==> f.dst != t
  {
    if flows != [] {
      FlowIntoEnds(flows[..|flows| - 1], t);
      assert flows == flows[..|flows| - 1] + [flows[|flows| - 1]];
    }
  }

  /** After its own placements of the first i VNFs the policy refuses the next one. */
  ghost predicate PolicyRefused(topo: Topology, frag: Fragment, policy: Policy, node0: map<NodeId, Amount>, i: nat,
                                at: map<VnfId, NodeId>)
  {
    && i < |frag.vnfs| && frag.vnfs[i].id in frag.tier && FollowsPolicy(topo, frag, policy, node0, i, at)
    && ActionAt(topo, frag, policy, node0, at, i) == NULL_ACTION
  }

  /** Routing the flows into the VNFs the policy has placed gets stuck. */
  ghost predicate FlowRefused(topo: Topology, frag: Fragment, policy: Policy, node0: map<NodeId, Amount>,
                              bw0: seq<real>, k: nat, sel: Selector, i: nat, at: map<VnfId, NodeId>)
  {
    && i <= |frag.vnfs| && FollowsPolicy(topo, frag, policy, node0, i, at) && at.Keys == Ids(frag.vnfs[..i])
    && RouteStuck(topo, topo.DomainLinks(frag.domain), AsksInto(topo, frag, at, i), at, bw0, k, sel)
  }

  /** Why the learned actor refuses, and the only reasons for which it does. */
  ghost predicate RefusalCaused(topo: Topology, frag: Fragment, policy: Policy, node0: map<NodeId, Amount>,
                                bw0: seq<real>, k: nat, sel: Selector)
  {
    || (topo.NodesInDomain(frag.domain) == [] && frag.vnfs != [])
    || (exists i, at :: PolicyRefused(topo, frag, policy, node0, i, at))
    || exists i, at :: FlowRefused(topo, frag, policy, node0, bw0, k, sel, i, at)
  }

  /** What the learned actor answers when it accepts: nodes by its policy, routes by the rule. */
  ghost predicate PlacedByPolicy(topo: Topology, frag: Fragment, policy: Policy, node0: map<NodeId, Amount>,
                                 bw0: seq<real>, k: nat, sel: Selector, at: map<VnfId, NodeId>,
                                 routes: map<FlowKey, seq<LinkId>>)
  {
    && FollowsPolicy(topo, frag, policy, node0, |frag.vnfs|, at) && at.Keys == Ids(frag.vnfs)
    && RoutedByRule(topo, topo.DomainLinks(frag.domain), AsksInto(topo, frag, at, |frag.vnfs|), at, bw0, k, sel, routes)
  }

  /** The mask the loop computes is the one the specification reads off the residuals. */
  lemma SameAction(topo: Topology, frag: Fragment, policy: Policy, node0: map<NodeId, Amount>,
                   node: map<NodeId, Amount>, i: nat, at: map<VnfId, NodeId>, overrides: map<NodeId, Amount>,
                   mask: seq<bool>)
    requires i < |frag.vnfs| && frag.vnfs[i].id in frag.tier && NodesDebited(node0, node, frag.vnfs[..i], at)
    requires forall n :: n in overrides ==> n in node && overrides[n] == node[n]
    requires |mask| == |topo.NodesInDomain(frag.domain)|
    requires forall j :: 0 <= j < |mask| ==>
               (mask[j] <==> MaskTrue(topo, node, overrides, frag.vnfs[i], frag.tier[frag.vnfs[i].id],
                                      topo.NodesInDomain(frag.domain)[j]))
    ensures policy(i, mask) == ActionAt(topo, frag, policy, node0, at, i)
  {
    hide LoadOn;
    assert After(node0, frag.vnfs[..i], at) == node;
    assert mask == MaskOf(topo, topo.NodesInDomain(frag.domain), node, frag.vnfs[i], frag.tier[frag.vnfs[i].id]);
  }

  lemma PolicyNext(topo: Topology, frag: Fragment, policy: Policy, node0: map<NodeId, Amount>, i: nat,
                   at: map<VnfId, NodeId>, n: NodeId)
    requires DistinctIds(frag.vnfs) && i < |frag.vnfs| && frag.vnfs[i].id in frag.tier
    requires FollowsPolicy(topo, frag, policy, node0, i, at)
    requires var action := ActionAt(topo, frag, policy, node0, at, i);
             0 <= action < |topo.NodesInDomain(frag.domain)| && n == topo.NodesInDomain(frag.domain)[action]
    ensures FollowsPolicy(topo, frag, policy, node0, i + 1, at[frag.vnfs[i].id := n])
  {
    hide LoadOn, MaskOf, Topology.NodesInDomain;
    var at' := at[frag.vnfs[i].id := n];
    forall j: nat | j < i + 1 ensures PolicyStep(topo, frag, policy, node0, at', j) {
      assert After(node0, frag.vnfs[..j], at') == After(node0, frag.vnfs[..j], at) by {
        forall m | m in node0 ensures LoadOn(frag.vnfs[..j], at', m) == LoadOn(frag.vnfs[..j], at, m) {
          LoadAgrees(frag.vnfs[..j], at, at', m);
        }
      }
      if j < i {
        assert PolicyStep(topo, frag, policy, node0, at, j);
      }
    }
  }

  /** Asks already collected do not depend on later placements. */
  lemma {:induction false} AsksStay(topo: Topology, frag: Fragment, a: map<VnfId, NodeId>, b: map<VnfId, NodeId>,
                                    i: nat)
    requires i <= |frag.vnfs|
    requires forall j :: 0 <= j < i ==>
              frag.vnfs[j].id in a && frag.vnfs[j].id in b && a[frag.vnfs[j].id] == b[frag.vnfs[j].id]
    ensures AsksInto(topo, frag, a, i) == AsksInto(topo, frag, b, i)
  {
    if i > 0 {
      hide ProcessingDelay, IntoAsk, HostDelay;
      AsksStay(topo, frag, a, b, i - 1);
      assert forall j :: 0 <= j < i ==> frag.vnfs[..i][j] == frag.vnfs[j];
      ProcessingAgrees(topo, frag.vnfs[..i], a, b);
    }
  }

  lemma LookupFinds(flows: seq<Flow>, into: map<VnfId, Flow>, t: VnfId, budget: real)
    requires IndexesTargets(flows, into)
    ensures IntoAsk(flows, t, budget) == if t in into then [Ask(into[t], budget)] else []
  {
    IntoMembers(flows, t);
  }

  lemma {:induction false} IntoMembers(flows: seq<Flow>, t: VnfId)
    ensures FlowInto(flows, t).Some? ==> FlowInto(flows, t).value in flows && FlowInto(flows, t).value.dst == t
    ensures FlowInto(flows, t).None? ==> forall f :: f in flows ==> f.dst != t
  {
    if flows != [] {
      IntoMembers(flows[..|flows| - 1], t);
      assert flows == flows[..|flows| - 1] + [flows[|flows| - 1]];
    }
  }

  /** Flow lookup by target VNF. */
  method FlowsByTarget(flows: seq<Flow>) returns (into: map<VnfId, Flow>)
    requires forall i, j :: 0 <= i < j < |flows| ==> flows[i].dst != flows[j].dst
    ensures IndexesTargets(flows, into)
  {
    into := map[];
    var i := 0;
    while i < |flows|
      invariant 0 <= i <= |flows|
      invariant forall j :: 0 <= j < i ==> flows[j].dst in into && into[flows[j].dst] == flows[j]
      invariant forall t :: t in into ==> into[t] in flows && into[t].dst == t
    {
      into := into[flows[i].dst := flows[i]];
      i := i + 1;
    }
  }

  /** Exactly the flows of the fragment into these VNFs. */
  ghost predicate Covers(frag: Fragment, done: seq<Flow>, targets: set<VnfId>) {
    forall f :: f in done <==> f in frag.flows && f.dst in targets
  }

  /** The flow into the next VNF, when there is one, is the one the lookup finds. */
  lemma CoversNext(frag: Fragment, done: seq<Flow>, i: nat, into: map<VnfId, Flow>)
    requires frag.WellFormed() && i < |frag.vnfs| && Covers(frag, done, Ids(frag.vnfs[..i]))
    requires IndexesTargets(frag.flows, into)
    ensures var t := frag.vnfs[i].id;
            if t in into then into[t] in frag.flows && into[t].dst == t && into[t] !in done
                              && Covers(frag, done + [into[t]], Ids(frag.vnfs[..i + 1]))
            else Covers(frag, done, Ids(frag.vnfs[..i + 1]))
  {
    LastIdIsNew(frag.vnfs, i);
  }

  /** The lookup finds, per target, the one flow into it. */
  ghost predicate IndexesTargets(flows: seq<Flow>, into: map<VnfId, Flow>) {
    && (forall f :: f in flows ==> f.dst in into && into[f.dst] == f)
    && (forall t :: t in into ==> into[t] in flows && into[t].dst == t)
  }

  /** Where routing stands: the flows asked for so far are served and recorded, by the rule. */
  ghost predicate Routed(topo: Topology, allowed: set<nat>, at: map<VnfId, NodeId>, bw0: seq<real>, k: nat,
                         sel: Selector, asks: seq<Ask>, chosen: seq<seq<LinkId>>, routes: map<FlowKey, seq<LinkId>>,
                         bw: Dict<FlowKey, real>, reserved: seq<Reservation>, linkBw: seq<real>)
  {
    && LinkLedger(topo, bw0, linkBw, reserved) && reserved == ReservationsOf(bw, routes)
    && AllServed(topo, allowed, Flows(asks), at, routes, bw) && |chosen| == |asks|
    && RuleState(topo, allowed, asks, at, bw0, k, sel, chosen, routes, linkBw, ReservedDelay(topo, reserved))
  }

  lemma RoutedNext(topo: Topology, allowed: set<nat>, at: map<VnfId, NodeId>, bw0: seq<real>, k: nat, sel: Selector,
                   asks: seq<Ask>, chosen: seq<seq<LinkId>>, routes: map<FlowKey, seq<LinkId>>, bw: Dict<FlowKey, real>,
                   reserved: seq<Reservation>, linkBw: seq<real>, f: Flow, budget: real, links: seq<LinkId>,
                   bw': Dict<FlowKey, real>, linkBw': seq<real>)
    requires Routed(topo, allowed, at, bw0, k, sel, asks, chosen, routes, bw, reserved, linkBw)
    requires f.Key() !in FlowKeys(Flows(asks))
    requires RouteChosen(topo, linkBw, allowed, f, at, budget - ReservedDelay(topo, reserved), k, sel, links)
    requires LinksDebited(topo, linkBw, linkBw', [Reservation(links, f.bandwidth)])
    requires LinkLedger(topo, bw0, linkBw', reserved + [Reservation(links, f.bandwidth)])
    requires reserved + [Reservation(links, f.bandwidth)] == ReservationsOf(bw', routes[f.Key() := links])
    requires AllServed(topo, allowed, Flows(asks) + [f], at, routes[f.Key() := links], bw')
    ensures Routed(topo, allowed, at, bw0, k, sel, asks + [Ask(f, budget)], chosen + [links], routes[f.Key() := links],
                   bw', reserved + [Reservation(links, f.bandwidth)], linkBw')
    ensures ReservedDelay(topo, reserved + [Reservation(links, f.bandwidth)])
         == ReservedDelay(topo, reserved) + RouteDelay(topo, links)
  {
    hide *;
    RoutedParts(topo, allowed, at, bw0, k, sel, asks, chosen, routes, bw, reserved, linkBw);
    var asks', spent := asks + [Ask(f, budget)], ReservedDelay(topo, reserved);
    var reserved' := reserved + [Reservation(links, f.bandwidth)];
    LedgerLength(topo, bw0, linkBw, reserved);
    KeysApart(asks, f);
    FlowsNext(asks, Ask(f, budget));
    assert asks'[|chosen|] == Ask(f, budget) && forall j :: 0 <= j < |asks| ==> asks'[j] == asks[j];
    ReservedDelayAppend(topo, reserved, [Reservation(links, f.bandwidth)]);
    OneRouteDelay(topo, links, f.bandwidth);
    RuleStateGrows(topo, allowed, asks, [Ask(f, budget)], at, bw0, k, sel, chosen, routes, linkBw, spent);
    RuleStateNext(topo, allowed, asks', at, bw0, k, sel, chosen, routes, linkBw, spent, links, linkBw');
    RoutedWhole(topo, allowed, at, bw0, k, sel, asks', chosen + [links], routes[f.Key() := links], bw', reserved',
                linkBw');
  }

  lemma LedgerLength(topo: Topology, bw0: seq<real>, bw: seq<real>, reserved: seq<Reservation>)
    requires LinkLedger(topo, bw0, bw, reserved)
    ensures |bw0| == |topo.links|
  {}

  lemma RoutedWhole(topo: Topology, allowed: set<nat>, at: map<VnfId, NodeId>, bw0: seq<real>, k: nat, sel: Selector,
                    asks: seq<Ask>, chosen: seq<seq<LinkId>>, routes: map<FlowKey, seq<LinkId>>,
                    bw: Dict<FlowKey, real>, reserved: seq<Reservation>, linkBw: seq<real>)
    requires LinkLedger(topo, bw0, linkBw, reserved) && reserved == ReservationsOf(bw, routes)
    requires AllServed(topo, allowed, Flows(asks), at, routes, bw) && |chosen| == |asks|
    requires RuleState(topo, allowed, asks, at, bw0, k, sel, chosen, routes, linkBw, ReservedDelay(topo, reserved))
    ensures Routed(topo, allowed, at, bw0, k, sel, asks, chosen, routes, bw, reserved, linkBw)
  {
    hide AllServed, RuleState, LinkLedger;
  }

  lemma KeysApart(asks: seq<Ask>, f: Flow)
    requires f.Key() !in FlowKeys(Flows(asks))
    ensures forall j :: 0 <= j < |asks| ==> asks[j].flow.Key() != f.Key()
  {
    forall j | 0 <= j < |asks| ensures asks[j].flow.Key() != f.Key() {
      assert Flows(asks)[j].Key() in FlowKeys(Flows(asks));
    }
  }

  /** A flow without an eligible path ends the run. */
  lemma RoutedStuck(topo: Topology, allowed: set<nat>, at: map<VnfId, NodeId>, bw0: seq<real>, k: nat, sel: Selector,
                    asks: seq<Ask>, chosen: seq<seq<LinkId>>, routes: map<FlowKey, seq<LinkId>>,
                    bw: Dict<FlowKey, real>, reserved: seq<Reservation>, linkBw: seq<real>, f: Flow, budget: real)
    requires Routed(topo, allowed, at, bw0, k, sel, asks, chosen, routes, bw, reserved, linkBw)
    requires NoRoute(topo, linkBw, allowed, f, at, budget - ReservedDelay(topo, reserved), k)
    ensures RouteStuck(topo, allowed, asks + [Ask(f, budget)], at, bw0, k, sel)
  {
    hide AllServed, LinksDebited, RuleState, ReservedDelay, NoRoute, RouteStuck;
    var asks', spent := asks + [Ask(f, budget)], ReservedDelay(topo, reserved);
    RuleStateGrows(topo, allowed, asks, [Ask(f, budget)], at, bw0, k, sel, chosen, routes, linkBw, spent);
    RoutingStuckHere(topo, allowed, asks', at, bw0, k, sel, chosen, routes, linkBw, spent);
  }

  /** Placing one more VNF leaves the routing as it stands. */
  lemma RoutedStays(topo: Topology, allowed: set<nat>, at: map<VnfId, NodeId>, bw0: seq<real>, k: nat, sel: Selector,
                    asks: seq<Ask>, chosen: seq<seq<LinkId>>, routes: map<FlowKey, seq<LinkId>>,
                    bw: Dict<FlowKey, real>, reserved: seq<Reservation>, linkBw: seq<real>, v: VnfId, n: NodeId)
    requires Routed(topo, allowed, at, bw0, k, sel, asks, chosen, routes, bw, reserved, linkBw) && v !in at
    ensures Routed(topo, allowed, at[v := n], bw0, k, sel, asks, chosen, routes, bw, reserved, linkBw)
  {
    RuleStateStays(topo, allowed, asks, at, bw0, k, sel, chosen, routes, linkBw, ReservedDelay(topo, reserved), v, n);
    hide LinksDebited, RuleState, ReservedDelay, Connects;
    var at' := at[v := n];
    forall f | f in Flows(asks) ensures Served(topo, allowed, f, at', routes, bw) {
      assert Served(topo, allowed, f, at, routes, bw);
    }
  }

  /** What the placements cost: the weight times CPU and RAM of every VNF. */
  ghost function PlacingCost(alpha: real, vnfs: seq<Vnf>): real {
    if vnfs == [] then 0.0
    else
      var v := vnfs[|vnfs| - 1];
      PlacingCost(alpha, vnfs[..|vnfs| - 1]) + alpha * (v.demand.cpu + v.demand.ram)
  }

  /** What the routes cost: the weight times bandwidth times route length of every reservation. */
  ghost function RoutingCost(gamma: real, rs: seq<Reservation>): real {
    if rs == [] then 0.0
    else
      var r := rs[|rs| - 1];
      RoutingCost(gamma, rs[..|rs| - 1]) + gamma * r.bandwidth * (|r.links| as real)
  }

  lemma PlacingCostNext(alpha: real, vnfs: seq<Vnf>, i: nat)
    requires i < |vnfs|
    ensures PlacingCost(alpha, vnfs[..i + 1]) == PlacingCost(alpha, vnfs[..i]) + PlaceCost(alpha, vnfs[i].demand)
  {
    assert vnfs[..i + 1][..i] == vnfs[..i];
  }

  lemma RoutingCostNext(gamma: real, rs: seq<Reservation>, links: seq<LinkId>, bandwidth: real)
    ensures RoutingCost(gamma, rs + [Reservation(links, bandwidth)])
         == RoutingCost(gamma, rs) + RouteCost(gamma, bandwidth, |links|)
  {
    assert (rs + [Reservation(links, bandwidth)])[..|rs|] == rs;
  }

  /** What a placement and a route cost, in the actor's own accounting. */
  function PlaceCost(alpha: real, demand: Amount): real {
    alpha * (demand.cpu + demand.ram)
  }

  function RouteCost(gamma: real, bandwidth: real, hops: nat): real {
    gamma * bandwidth * (hops as real)
  }

  /** Route one flow and record it; the flow that finds no path ends the run. */
  method RouteOne(sub: SubstrateNetwork, allowed: set<nat>, f: Flow, at: map<VnfId, NodeId>, left: real, k: nat,
                  sel: Selector, routes: map<FlowKey, seq<LinkId>>, bw: Dict<FlowKey, real>,
                  reserved: seq<Reservation>, ghost bw0: seq<real>, ghost budget: real, ghost asks: seq<Ask>,
                  ghost chosen: seq<seq<LinkId>>)
    returns (res: RouteResult, routes': map<FlowKey, seq<LinkId>>, bw': Dict<FlowKey, real>,
             reserved': seq<Reservation>, ghost chosen': seq<seq<LinkId>>)
    requires sub.Valid() && f.Key() !in FlowKeys(Flows(asks)) && f.src in at && f.dst in at
    requires left == budget - ReservedDelay(sub.topo, reserved)
    requires Routed(sub.topo, allowed, at, bw0, k, sel, asks, chosen, routes, bw, reserved, sub.bw)
    modifies sub`bw
    ensures sub.Valid() && LinkLedger(sub.topo, bw0, sub.bw, reserved')
    ensures res.feasible ==> reserved' == reserved + [Reservation(res.links, f.bandwidth)]
    ensures if res.feasible then
              ReservedDelay(sub.topo, reserved') == ReservedDelay(sub.topo, reserved) + res.delay
              && Routed(sub.topo, allowed, at, bw0, k, sel, asks + [Ask(f, budget)], chosen', routes', bw', reserved',
                        sub.bw)
            else RouteStuck(sub.topo, allowed, asks + [Ask(f, budget)], at, bw0, k, sel)
  {
    hide *;
    RoutedParts(sub.topo, allowed, at, bw0, k, sel, asks, chosen, routes, bw, reserved, sub.bw);
    ghost var before := sub.bw;
    reserved', chosen' := reserved, chosen;
    res, routes', bw' := ServeFlow(sub, allowed, f, at, left, k, sel, routes, bw, reserved, Flows(asks), bw0);
    if res.feasible {
      RoutedNext(sub.topo, allowed, at, bw0, k, sel, asks, chosen, routes, bw, reserved, before, f, budget, res.links,
                 bw', sub.bw);
      chosen' := chosen + [res.links];
      reserved' := reserved + [Reservation(res.links, f.bandwidth)];
    } else {
      RoutedStuck(sub.topo, allowed, at, bw0, k, sel, asks, chosen, routes, bw, reserved, before, f, budget);
    }
  }

  /** The flow into the VNF just placed: new to the routing, both ends placed. */
  lemma NextFlow(frag: Fragment, asks: seq<Ask>, i: nat, into: map<VnfId, Flow>, at: map<VnfId, NodeId>, budget: real)
    requires frag.WellFormed() && i < |frag.vnfs| && at.Keys == Ids(frag.vnfs[..i + 1])
    requires Covers(frag, Flows(asks), Ids(frag.vnfs[..i])) && IndexesTargets(frag.flows, into)
    ensures var t, asks' := frag.vnfs[i].id, asks + IntoAsk(frag.flows, frag.vnfs[i].id, budget);
            && Covers(frag, Flows(asks'), Ids(frag.vnfs[..i + 1]))
            && if t in into then
                 asks' == asks + [Ask(into[t], budget)] && into[t].Key() !in FlowKeys(Flows(asks))
                 && into[t].src in at && into[t].dst in at
               else asks' == asks
  {
    CoversNext(frag, Flows(asks), i, into);
    LookupFinds(frag.flows, into, frag.vnfs[i].id, budget);
    hide *;
    var t := frag.vnfs[i].id;
    if t in into {
      FlowsNext(asks, Ask(into[t], budget));
      SourcePlaced(frag, i, into[t], at);
      NewKey(frag, Flows(asks), into[t]);
    } else {
      assert asks + [] == asks;
    }
  }

  /** Route the flow into the VNF just placed, when the fragment has one. */
  method RouteInto(sub: SubstrateNetwork, frag: Fragment, i: nat, into: map<VnfId, Flow>, at: map<VnfId, NodeId>,
                   left: real, k: nat, sel: Selector, costGamma: real,
                   routes: map<FlowKey, seq<LinkId>>, bw: Dict<FlowKey, real>, reserved: seq<Reservation>,
                   ghost bw0: seq<real>, ghost budget: real, ghost asks: seq<Ask>, ghost chosen: seq<seq<LinkId>>)
    returns (ok: bool, spent: real, paid: real, routes': map<FlowKey, seq<LinkId>>, bw': Dict<FlowKey, real>,
             reserved': seq<Reservation>, ghost chosen': seq<seq<LinkId>>)
    requires sub.Valid() && frag.WellFormed() && i < |frag.vnfs| && at.Keys == Ids(frag.vnfs[..i + 1])
    requires left == budget - ReservedDelay(sub.topo, reserved)
    requires Routed(sub.topo, sub.topo.DomainLinks(frag.domain), at, bw0, k, sel, asks, chosen, routes, bw, reserved,
                    sub.bw)
    requires Covers(frag, Flows(asks), Ids(frag.vnfs[..i])) && IndexesTargets(frag.flows, into)
    modifies sub`bw
    ensures sub.Valid() && LinkLedger(sub.topo, bw0, sub.bw, reserved')
    ensures ok ==> ReservedDelay(sub.topo, reserved') == ReservedDelay(sub.topo, reserved) + spent
    ensures ok ==> RoutingCost(costGamma, reserved') == RoutingCost(costGamma, reserved) + paid
    ensures var asks' := asks + IntoAsk(frag.flows, frag.vnfs[i].id, budget);
            if ok then
              Covers(frag, Flows(asks'), Ids(frag.vnfs[..i + 1]))
              && Routed(sub.topo, sub.topo.DomainLinks(frag.domain), at, bw0, k, sel, asks', chosen', routes', bw',
                        reserved', sub.bw)
            else RouteStuck(sub.topo, sub.topo.DomainLinks(frag.domain), asks', at, bw0, k, sel)
  {
    hide *;
    NextFlow(frag, asks, i, into, at, budget);
    RoutedParts(sub.topo, sub.topo.DomainLinks(frag.domain), at, bw0, k, sel, asks, chosen, routes, bw, reserved,
                sub.bw);
    ok, spent, paid, routes', bw', reserved', chosen' := true, 0.0, 0.0, routes, bw, reserved, chosen;
    var t := frag.vnfs[i].id;
    if t in into {
      var f := into[t];
      var res;
      res, routes', bw', reserved', chosen' :=
        RouteOne(sub, sub.topo.DomainLinks(frag.domain), f, at, left, k, sel, routes, bw, reserved, bw0, budget, asks,
                 chosen);
      ok, spent, paid := res.feasible, res.delay, RouteCost(costGamma, f.bandwidth, |res.links|);
      RoutingCostNext(costGamma, reserved, res.links, f.bandwidth);
    }
  }

  lemma FlowsNext(asks: seq<Ask>, a: Ask)
    ensures Flows(asks + [a]) == Flows(asks) + [a.flow]
  {}

  lemma RoutedParts(topo: Topology, allowed: set<nat>, at: map<VnfId, NodeId>, bw0: seq<real>, k: nat, sel: Selector,
                    asks: seq<Ask>, chosen: seq<seq<LinkId>>, routes: map<FlowKey, seq<LinkId>>,
                    bw: Dict<FlowKey, real>, reserved: seq<Reservation>, linkBw: seq<real>)
    requires Routed(topo, allowed, at, bw0, k, sel, asks, chosen, routes, bw, reserved, linkBw)
    ensures LinkLedger(topo, bw0, linkBw, reserved) && reserved == ReservationsOf(bw, routes)
    ensures AllServed(topo, allowed, Flows(asks), at, routes, bw) && |chosen| == |asks|
    ensures RuleState(topo, allowed, asks, at, bw0, k, sel, chosen, routes, linkBw, ReservedDelay(topo, reserved))
  {}

  lemma LastIdIsNew(vnfs: seq<Vnf>, i: nat)
    requires DistinctIds(vnfs) && i < |vnfs|
    ensures Ids(vnfs[..i + 1]) == Ids(vnfs[..i]) + {vnfs[i].id} && vnfs[i].id !in Ids(vnfs[..i])
  {
    assert vnfs[..i + 1][i] == vnfs[i];
    assert forall j :: 0 <= j < i ==> vnfs[..i + 1][j] == vnfs[..i][j];
  }

  /** The placement step: mask, choice of the policy, debit. A refused VNF changes nothing. */
  method PlaceByPolicy(sub: SubstrateNetwork, frag: Fragment, i: nat, nodeIds: seq<NodeId>, policy: Policy,
                       at: map<VnfId, NodeId>, snapshots: map<NodeId, Amount>, overrides: map<NodeId, Amount>,
                       ghost node0: map<NodeId, Amount>)
    returns (ok: bool, at': map<VnfId, NodeId>, snapshots': map<NodeId, Amount>, overrides': map<NodeId, Amount>)
    requires sub.Valid() && frag.WellFormed() && RespectsMask(policy) && i < |frag.vnfs|
    requires nodeIds == sub.topo.NodesInDomain(frag.domain)
    requires forall n :: n in nodeIds ==> n in sub.node && sub.topo.DomainOf(n) == frag.domain
    requires PlacedSoFar(sub.topo, frag.domain, frag.vnfs, i, node0, sub.node, at, snapshots)
    requires forall n :: n in overrides ==> n in sub.node && overrides[n] == sub.node[n]
    requires FollowsPolicy(sub.topo, frag, policy, node0, i, at) && TiersMatch(sub.topo, frag, i, at)
    modifies sub`node
    ensures sub.Valid() && frag.vnfs[i].id in frag.tier
    ensures !ok ==> ActionAt(sub.topo, frag, policy, node0, at, i) == NULL_ACTION
    ensures !ok ==> sub.node == old(sub.node) && snapshots' == snapshots
    ensures ok ==> PlacedSoFar(sub.topo, frag.domain, frag.vnfs, i + 1, node0, sub.node, at', snapshots')
    ensures ok ==> forall n :: n in overrides' ==> n in sub.node && overrides'[n] == sub.node[n]
    ensures ok ==> Extended(sub.topo, frag, policy, node0, i, at, at')
  {
    hide Topology.Valid, NodesDebited, HostDelay, TiersMatch, FollowsPolicy, ActionAt, RespectsMask, Extended;
    ok, at', snapshots', overrides' := true, at, snapshots, overrides;
    var v := frag.vnfs[i];
    var mask := ComputeActionMask(sub, nodeIds, v, frag.tier[v.id], overrides);
    var action := policy(i, mask);
    SameAction(sub.topo, frag, policy, node0, sub.node, i, at, overrides, mask);
    if action == NULL_ACTION {
      ok := false;
      return;
    }
    ActionAllowed(policy, i, mask);
    var n := nodeIds[action];
    NextPlaced(sub.topo, frag, policy, node0, i, at, n);
    overrides' := overrides[n := (if n in overrides then overrides[n] else sub.node[n]).Minus(v.demand)];
    at', snapshots' := PlaceOn(sub, frag.domain, frag.vnfs, i, n, at, snapshots, node0);
  }

  /** The place-then-route loop. When a VNF is refused or a flow finds no route, the debits
      made so far are left for the caller to roll back. */
  method PlaceAndRoute(sub: SubstrateNetwork, frag: Fragment, nodeIds: seq<NodeId>, policy: Policy, k: nat,
                       sel: Selector, costAlpha: real, costGamma: real)
    returns (ok: bool, r: Response, snapshots: map<NodeId, Amount>, reserved: seq<Reservation>)
    requires sub.Valid() && sub.NonNegative() && frag.WellFormed() && RespectsMask(policy)
    requires nodeIds == sub.topo.NodesInDomain(frag.domain)
    requires forall n :: n in nodeIds ==> n in sub.node && sub.topo.DomainOf(n) == frag.domain
    modifies sub`node, sub`bw
    ensures sub.Valid()
    ensures !ok ==> RefusalCaused(sub.topo, frag, policy, old(sub.node), old(sub.bw), k, sel)
    ensures LinkLedger(sub.topo, old(sub.bw), sub.bw, reserved) && SnapshotsTaken(old(sub.node), sub.node, snapshots)
    ensures ok ==> ActContract(sub.topo, frag, old(sub.node), old(sub.bw), sub.node, sub.bw, r) && r.feasible
    ensures ok ==> r.resourceCost == PlacingCost(costAlpha, frag.vnfs) + RoutingCost(costGamma, r.Reservations())
    ensures ok ==> TiersMatch(sub.topo, frag, |frag.vnfs|, r.placements)
    ensures ok ==> PlacedByPolicy(sub.topo, frag, policy, old(sub.node), old(sub.bw), k, sel, r.placements, r.routes)
  {
    hide Topology.Valid, NodesDebited, LinkLedger, ProcessingDelay, ReservedDelay, HostDelay, Covers, IndexesTargets,
         RefusalCaused, TiersMatch, RouteStuck, FollowsPolicy, AsksInto, IntoAsk, ActionAt, Routed, ActContract,
         PlacedByPolicy, Flows, RespectsMask, PlaceCost, PlacingCost, RoutingCost, PlacedSoFar, SnapshotsTaken, Ids;
    NothingPaid(costAlpha, costGamma, frag.vnfs);
    NothingPlacedYet(sub.topo, frag.domain, frag.vnfs, sub.node);
    NothingFollowed(sub.topo, frag, policy, sub.node, sub.bw, k, sel);
    var into := FlowsByTarget(frag.flows);
    var at: map<VnfId, NodeId>, routes: map<FlowKey, seq<LinkId>>, bw: Dict<FlowKey, real> := map[], map[], [];
    var overrides: map<NodeId, Amount> := map[];
    snapshots, reserved, r := map[], [], Refusal(frag.domain);
    var delay, cost, left := 0.0, 0.0, frag.delayBudget;
    ghost var chosen: seq<seq<LinkId>>, asks: seq<Ask> := [], [];
    ghost var inside, node0, bw0 := sub.topo.DomainLinks(frag.domain), sub.node, sub.bw;
    var i := 0;
    while i < |frag.vnfs|
      invariant 0 <= i <= |frag.vnfs| && sub.Valid() && asks == AsksInto(sub.topo, frag, at, i)
      invariant PlacedSoFar(sub.topo, frag.domain, frag.vnfs, i, node0, sub.node, at, snapshots)
      invariant forall n :: n in overrides ==> n in sub.node && overrides[n] == sub.node[n]
      invariant FollowsPolicy(sub.topo, frag, policy, node0, i, at) && TiersMatch(sub.topo, frag, i, at)
      invariant Covers(frag, Flows(asks), Ids(frag.vnfs[..i]))
      invariant Routed(sub.topo, inside, at, bw0, k, sel, asks, chosen, routes, bw, reserved, sub.bw)
      invariant LinkLedger(sub.topo, bw0, sub.bw, reserved)
      invariant delay == ProcessingDelay(sub.topo, frag.vnfs[..i], at) + ReservedDelay(sub.topo, reserved)
      invariant left == frag.delayBudget - delay
      invariant cost == PlacingCost(costAlpha, frag.vnfs[..i]) + RoutingCost(costGamma, reserved)
    {
      PlacingCostNext(costAlpha, frag.vnfs, i);
      PlacedParts(sub.topo, frag, i, node0, sub.node, at, snapshots);
      var v := frag.vnfs[i];
      ghost var before := at;
      ok, at, snapshots, overrides := PlaceByPolicy(sub, frag, i, nodeIds, policy, at, snapshots, overrides, node0);
      if !ok {
        RefusedByPolicy(sub.topo, frag, policy, node0, bw0, k, sel, i, before);
        return;
      }
      PlacedParts(sub.topo, frag, i + 1, node0, sub.node, at, snapshots);
      RoutedStays(sub.topo, inside, before, bw0, k, sel, asks, chosen, routes, bw, reserved, sub.bw, v.id, at[v.id]);
      var procDelay := HostDelay(sub.topo, v, at[v.id]);
      left := left - procDelay;
      var routeDelay, paid;
      ghost var budget := frag.delayBudget - ProcessingDelay(sub.topo, frag.vnfs[..i + 1], at);
      ok, routeDelay, paid, routes, bw, reserved, chosen :=
        RouteInto(sub, frag, i, into, at, left, k, sel, costGamma, routes, bw, reserved, bw0, budget, asks, chosen);
      asks := AsksInto(sub.topo, frag, at, i + 1);
      if !ok {
        RefusedByRouting(sub.topo, frag, policy, node0, bw0, k, sel, i + 1, at);
        return;
      }
      delay, left := delay + procDelay + routeDelay, left - routeDelay;
      cost := cost + PlaceCost(costAlpha, v.demand) + paid;
      i := i + 1;
    }
    PlacedParts(sub.topo, frag, i, node0, sub.node, at, snapshots);
    ok, r := true, Response(frag.domain, true, at, routes, bw, delay, cost);
    AllRouted(sub.topo, frag, policy, node0, bw0, sub.node, sub.bw, k, sel, chosen, reserved, snapshots, r);
    RoutedReserved(sub.topo, inside, at, bw0, k, sel, asks, chosen, routes, bw, reserved, sub.bw);
    assert frag.vnfs[..i] == frag.vnfs;
  }

  lemma PlacedParts(topo: Topology, frag: Fragment, i: nat, node0: map<NodeId, Amount>, node: map<NodeId, Amount>,
                    at: map<VnfId, NodeId>, snapshots: map<NodeId, Amount>)
    requires frag.WellFormed() && PlacedSoFar(topo, frag.domain, frag.vnfs, i, node0, node, at, snapshots)
    ensures SnapshotsTaken(node0, node, snapshots) && at.Keys == Ids(frag.vnfs[..i])
    ensures i < |frag.vnfs| ==> frag.vnfs[i].id !in at
  {
    if i < |frag.vnfs| {
      LastIdIsNew(frag.vnfs, i);
    }
  }

  lemma NothingPaid(alpha: real, gamma: real, vnfs: seq<Vnf>)
    ensures PlacingCost(alpha, vnfs[..0]) == 0.0 && RoutingCost(gamma, []) == 0.0
  {}

  lemma RoutedReserved(topo: Topology, allowed: set<nat>, at: map<VnfId, NodeId>, bw0: seq<real>, k: nat, sel: Selector,
                       asks: seq<Ask>, chosen: seq<seq<LinkId>>, routes: map<FlowKey, seq<LinkId>>,
                       bw: Dict<FlowKey, real>, reserved: seq<Reservation>, linkBw: seq<real>)
    requires Routed(topo, allowed, at, bw0, k, sel, asks, chosen, routes, bw, reserved, linkBw)
    ensures reserved == ReservationsOf(bw, routes)
  {}

  lemma ActionAllowed(policy: Policy, step: nat, mask: seq<bool>)
    requires RespectsMask(policy) && policy(step, mask) != NULL_ACTION
    ensures 0 <= policy(step, mask) < |mask| && mask[policy(step, mask)]
  {}

  /** One more VNF sits where the policy put it. */
  ghost predicate Extended(topo: Topology, frag: Fragment, policy: Policy, node0: map<NodeId, Amount>, i: nat,
                           at: map<VnfId, NodeId>, at': map<VnfId, NodeId>)
  {
    && i < |frag.vnfs| && frag.vnfs[i].id !in at && frag.vnfs[i].id in at'
    && at' == at[frag.vnfs[i].id := at'[frag.vnfs[i].id]] && at'.Keys == Ids(frag.vnfs[..i + 1])
    && FollowsPolicy(topo, frag, policy, node0, i + 1, at') && TiersMatch(topo, frag, i + 1, at')
    && ProcessingDelay(topo, frag.vnfs[..i + 1], at')
       == ProcessingDelay(topo, frag.vnfs[..i], at) + HostDelay(topo, frag.vnfs[i], at'[frag.vnfs[i].id])
    && AsksInto(topo, frag, at', i + 1)
       == AsksInto(topo, frag, at, i)
          + IntoAsk(frag.flows, frag.vnfs[i].id, frag.delayBudget - ProcessingDelay(topo, frag.vnfs[..i + 1], at'))
  }

  /** What the next choice of the policy means for the specification. */
  lemma NextPlaced(topo: Topology, frag: Fragment, policy: Policy, node0: map<NodeId, Amount>, i: nat,
                   at: map<VnfId, NodeId>, n: NodeId)
    requires frag.WellFormed() && i < |frag.vnfs| && frag.vnfs[i].id in frag.tier && at.Keys == Ids(frag.vnfs[..i])
    requires FollowsPolicy(topo, frag, policy, node0, i, at) && TiersMatch(topo, frag, i, at)
    requires n in topo.attr && n in frag.vnfs[i].permitted && topo.attr[n].tier == frag.tier[frag.vnfs[i].id]
    requires var action := ActionAt(topo, frag, policy, node0, at, i);
             0 <= action < |topo.NodesInDomain(frag.domain)| && n == topo.NodesInDomain(frag.domain)[action]
    ensures Extended(topo, frag, policy, node0, i, at, at[frag.vnfs[i].id := n])
  {
    hide ProcessingDelay, HostDelay, AsksInto, IntoAsk, FollowsPolicy, TiersMatch, ActionAt, Topology.NodesInDomain;
    LastIdIsNew(frag.vnfs, i);
    TierNext(topo, frag, i, at, n);
    PolicyNext(topo, frag, policy, node0, i, at, n);
    ProcessingNext(topo, frag.vnfs, i, at, n);
    AsksNext(topo, frag, at, i, n);
  }

  /** The loop's end state is an accepted fragment. */
  lemma AllRouted(topo: Topology, frag: Fragment, policy: Policy, node0: map<NodeId, Amount>, bw0: seq<real>,
                  node: map<NodeId, Amount>, linkBw: seq<real>, k: nat, sel: Selector, chosen: seq<seq<LinkId>>,
                  reserved: seq<Reservation>, snapshots: map<NodeId, Amount>, r: Response)
    requires frag.WellFormed() && r.domain == frag.domain && r.feasible
    requires PlacedSoFar(topo, frag.domain, frag.vnfs, |frag.vnfs|, node0, node, r.placements, snapshots)
    requires FollowsPolicy(topo, frag, policy, node0, |frag.vnfs|, r.placements)
    requires Routed(topo, topo.DomainLinks(frag.domain), r.placements, bw0, k, sel,
                    AsksInto(topo, frag, r.placements, |frag.vnfs|), chosen, r.routes, r.bwAllocated, reserved, linkBw)
    requires Covers(frag, Flows(AsksInto(topo, frag, r.placements, |frag.vnfs|)), Ids(frag.vnfs[..|frag.vnfs|]))
    requires r.intraDelay
        == ProcessingDelay(topo, frag.vnfs[..|frag.vnfs|], r.placements) + ReservedDelay(topo, reserved)
    ensures ActContract(topo, frag, node0, bw0, node, linkBw, r)
    ensures PlacedByPolicy(topo, frag, policy, node0, bw0, k, sel, r.placements, r.routes)
  {
    var asks, inside := AsksInto(topo, frag, r.placements, |frag.vnfs|), topo.DomainLinks(frag.domain);
    assert frag.vnfs[..|frag.vnfs|] == frag.vnfs;
    assert r.placements.Keys == Ids(frag.vnfs);
    hide *;
    RoutedParts(topo, inside, r.placements, bw0, k, sel, asks, chosen, r.routes, r.bwAllocated, reserved, linkBw);
    EverythingRouted(topo, frag, Flows(asks), r.placements, r.routes, r.bwAllocated);
    AllChosen(topo, inside, asks, r.placements, bw0, k, sel, chosen, r.routes, linkBw, ReservedDelay(topo, reserved));
    ContractHolds(topo, frag, node0, bw0, node, linkBw, reserved, snapshots, r);
    PolicyHolds(topo, frag, policy, node0, bw0, k, sel, r.placements, r.routes);
  }

  lemma ContractHolds(topo: Topology, frag: Fragment, node0: map<NodeId, Amount>, bw0: seq<real>,
                      node: map<NodeId, Amount>, linkBw: seq<real>, reserved: seq<Reservation>,
                      snapshots: map<NodeId, Amount>, r: Response)
    requires r.domain == frag.domain && r.feasible
    requires PlacedSoFar(topo, frag.domain, frag.vnfs, |frag.vnfs|, node0, node, r.placements, snapshots)
    requires LinkLedger(topo, bw0, linkBw, reserved) && reserved == ReservationsOf(r.bwAllocated, r.routes)
    requires AllServed(topo, topo.DomainLinks(frag.domain), frag.flows, r.placements, r.routes, r.bwAllocated)
    requires r.intraDelay == ProcessingDelay(topo, frag.vnfs, r.placements) + ReservedDelay(topo, reserved)
    ensures ActContract(topo, frag, node0, bw0, node, linkBw, r)
  {
    assert frag.vnfs[..|frag.vnfs|] == frag.vnfs;
    hide AllServed, NodesDebited, LinksDebited, ProcessingDelay, ReservedDelay, AllPlaced, SnapshotsTaken,
         ReservationsOf;
  }

  lemma PolicyHolds(topo: Topology, frag: Fragment, policy: Policy, node0: map<NodeId, Amount>, bw0: seq<real>, k: nat,
                    sel: Selector, at: map<VnfId, NodeId>, routes: map<FlowKey, seq<LinkId>>)
    requires FollowsPolicy(topo, frag, policy, node0, |frag.vnfs|, at) && at.Keys == Ids(frag.vnfs)
    requires RoutedByRule(topo, topo.DomainLinks(frag.domain), AsksInto(topo, frag, at, |frag.vnfs|), at, bw0, k, sel,
                          routes)
    ensures PlacedByPolicy(topo, frag, policy, node0, bw0, k, sel, at, routes)
  {
    hide FollowsPolicy, RoutedByRule, AsksInto;
  }

  lemma RefusedByPolicy(topo: Topology, frag: Fragment, policy: Policy, node0: map<NodeId, Amount>, bw0: seq<real>,
                        k: nat, sel: Selector, i: nat, at: map<VnfId, NodeId>)
    requires i < |frag.vnfs| && frag.vnfs[i].id in frag.tier && FollowsPolicy(topo, frag, policy, node0, i, at)
    requires ActionAt(topo, frag, policy, node0, at, i) == NULL_ACTION
    ensures RefusalCaused(topo, frag, policy, node0, bw0, k, sel)
  {
    hide FollowsPolicy, ActionAt, FlowRefused;
    assert PolicyRefused(topo, frag, policy, node0, i, at);
  }

  lemma RefusedByRouting(topo: Topology, frag: Fragment, policy: Policy, node0: map<NodeId, Amount>, bw0: seq<real>,
                         k: nat, sel: Selector, i: nat, at: map<VnfId, NodeId>)
    requires i <= |frag.vnfs| && FollowsPolicy(topo, frag, policy, node0, i, at) && at.Keys == Ids(frag.vnfs[..i])
    requires RouteStuck(topo, topo.DomainLinks(frag.domain), AsksInto(topo, frag, at, i), at, bw0, k, sel)
    ensures RefusalCaused(topo, frag, policy, node0, bw0, k, sel)
  {
    hide FollowsPolicy, RouteStuck, AsksInto, PolicyRefused;
    assert FlowRefused(topo, frag, policy, node0, bw0, k, sel, i, at);
  }

  lemma NothingFollowed(topo: Topology, frag: Fragment, policy: Policy, node: map<NodeId, Amount>, bw: seq<real>,
                        k: nat, sel: Selector)
    ensures FollowsPolicy(topo, frag, policy, node, 0, map[]) && AsksInto(topo, frag, map[], 0) == []
    ensures ReservedDelay(topo, []) == 0.0
    ensures Covers(frag, Flows([]), Ids(frag.vnfs[..0])) && TiersMatch(topo, frag, 0, map[])
    ensures ProcessingDelay(topo, frag.vnfs[..0], map[]) == 0.0
    ensures RuleState(topo, topo.DomainLinks(frag.domain), [], map[], bw, k, sel, [], map[], bw, 0.0)
    ensures |bw| == |topo.links| && LinksNonNegative(bw) ==>
              Routed(topo, topo.DomainLinks(frag.domain), map[], bw, k, sel, [], [], map[], [], [], bw)
  {
    if |bw| == |topo.links| {
      NothingReserved(topo, bw);
    }
    NothingChosen(topo, topo.DomainLinks(frag.domain), [], map[], bw, k, sel, map[]);
  }

  lemma AsksNext(topo: Topology, frag: Fragment, at: map<VnfId, NodeId>, i: nat, n: NodeId)
    requires i < |frag.vnfs| && at.Keys == Ids(frag.vnfs[..i]) && DistinctIds(frag.vnfs)
    ensures var at' := at[frag.vnfs[i].id := n];
            AsksInto(topo, frag, at', i + 1) == AsksInto(topo, frag, at, i) + IntoAsk(
              frag.flows, frag.vnfs[i].id, frag.delayBudget - ProcessingDelay(topo, frag.vnfs[..i + 1], at'))
  {
    hide ProcessingDelay, IntoAsk;
    assert forall j :: 0 <= j < i ==> frag.vnfs[..i][j].id in Ids(frag.vnfs[..i]);
    AsksStay(topo, frag, at, at[frag.vnfs[i].id := n], i);
  }

  method Act(sub: SubstrateNetwork, frag: Fragment, policy: Policy, k: nat, sel: Selector,
             costAlpha: real, costGamma: real) returns (r: Response)
    requires sub.Valid() && sub.NonNegative() && frag.WellFormed() && RespectsMask(policy)
    modifies sub`node, sub`bw
    ensures sub.Valid()
    ensures ActContract(sub.topo, frag, old(sub.node), old(sub.bw), sub.node, sub.bw, r)
    ensures r.feasible ==>
              r.resourceCost == PlacingCost(costAlpha, frag.vnfs) + RoutingCost(costGamma, r.Reservations())
    ensures r.feasible ==> TiersMatch(sub.topo, frag, |frag.vnfs|, r.placements)
    ensures r.feasible ==>
              PlacedByPolicy(sub.topo, frag, policy, old(sub.node), old(sub.bw), k, sel, r.placements, r.routes)
    ensures r.feasible <==> !RefusalCaused(sub.topo, frag, policy, old(sub.node), old(sub.bw), k, sel)
  {
    NothingPaid(costAlpha, costGamma, frag.vnfs);
    hide PlacedByPolicy, RefusalCaused, PlacingCost, RoutingCost;
    ghost var node0, bw0 := sub.node, sub.bw;
    if frag.vnfs == [] {
      EmptyFragment(sub.topo, frag, sub.node, sub.bw);
      NothingToPlace(sub.topo, frag, policy, node0, bw0, k, sel);
      PlacedOrRefused(sub.topo, frag, policy, node0, bw0, k, sel, map[], map[]);
      assert frag.vnfs[..0] == frag.vnfs;
      return Response(frag.domain, true, map[], map[], [], 0.0, 0.0);
    }
    var nodeIds := sub.topo.NodesInDomain(frag.domain);
    if nodeIds == [] {
      NowhereToPlace(sub.topo, frag, policy, node0, bw0, k, sel);
      return Refusal(frag.domain);
    }
    var ok, res, snapshots, reserved := PlaceAndRoute(sub, frag, nodeIds, policy, k, sel, costAlpha, costGamma);
    if !ok {
      Rollback(sub, reserved, snapshots, old(sub.node), old(sub.bw));
      return Refusal(frag.domain);
    }
    PlacedOrRefused(sub.topo, frag, policy, node0, bw0, k, sel, res.placements, res.routes);
    r := res;
  }

  lemma NothingToPlace(topo: Topology, frag: Fragment, policy: Policy, node: map<NodeId, Amount>, bw: seq<real>, k: nat,
                       sel: Selector)
    requires frag.vnfs == []
    ensures PlacedByPolicy(topo, frag, policy, node, bw, k, sel, map[], map[])
    ensures TiersMatch(topo, frag, 0, map[])
  {
    NothingFollowed(topo, frag, policy, node, bw, k, sel);
    AllChosen(topo, topo.DomainLinks(frag.domain), [], map[], bw, k, sel, [], map[], bw, 0.0);
  }

  lemma NowhereToPlace(topo: Topology, frag: Fragment, policy: Policy, node: map<NodeId, Amount>, bw: seq<real>, k: nat,
                       sel: Selector)
    requires frag.vnfs != [] && topo.NodesInDomain(frag.domain) == []
    ensures RefusalCaused(topo, frag, policy, node, bw, k, sel)
  {}

  // The policy and the routing rule leave no choice, so acceptance excludes every cause of refusal.

  lemma {:induction false} OneRun(topo: Topology, frag: Fragment, policy: Policy, node0: map<NodeId, Amount>, i: nat,
                                  a: map<VnfId, NodeId>, b: map<VnfId, NodeId>)
    requires FollowsPolicy(topo, frag, policy, node0, i, a) && FollowsPolicy(topo, frag, policy, node0, i, b)
    ensures forall j :: 0 <= j < i ==>
              frag.vnfs[j].id in a && frag.vnfs[j].id in b && a[frag.vnfs[j].id] == b[frag.vnfs[j].id]
    ensures After(node0, frag.vnfs[..i], a) == After(node0, frag.vnfs[..i], b)
  {
    hide LoadOn, MaskOf, Topology.NodesInDomain;
    if i > 0 {
      OneRun(topo, frag, policy, node0, i - 1, a, b);
      assert PolicyStep(topo, frag, policy, node0, a, i - 1) && PolicyStep(topo, frag, policy, node0, b, i - 1);
    }
    forall n | n in node0 ensures LoadOn(frag.vnfs[..i], a, n) == LoadOn(frag.vnfs[..i], b, n) {
      LoadAgrees(frag.vnfs[..i], a, b, n);
    }
  }

  lemma {:induction false} AsksGrow(topo: Topology, frag: Fragment, at: map<VnfId, NodeId>, i: nat, n: nat)
    returns (more: seq<Ask>)
    requires i <= n <= |frag.vnfs|
    ensures AsksInto(topo, frag, at, n) == AsksInto(topo, frag, at, i) + more
    decreases n
  {
    hide ProcessingDelay, IntoAsk;
    if n == i {
      more := [];
    } else {
      var front := AsksGrow(topo, frag, at, i, n - 1);
      more := front + IntoAsk(frag.flows, frag.vnfs[n - 1].id,
                              frag.delayBudget - ProcessingDelay(topo, frag.vnfs[..n], at));
    }
  }

  /** A fragment is placed by the policy or refused for a cause, never both. */
  lemma PlacedOrRefused(topo: Topology, frag: Fragment, policy: Policy, node0: map<NodeId, Amount>, bw0: seq<real>,
                        k: nat, sel: Selector, at: map<VnfId, NodeId>, routes: map<FlowKey, seq<LinkId>>)
    requires PlacedByPolicy(topo, frag, policy, node0, bw0, k, sel, at, routes)
    ensures !RefusalCaused(topo, frag, policy, node0, bw0, k, sel)
  {
    hide RoutedByRule, RouteStuck, Topology.NodesInDomain, AsksInto, ActionAt;
    assert frag.vnfs != [] ==> PolicyStep(topo, frag, policy, node0, at, 0);
    forall i: nat, b ensures !PolicyRefused(topo, frag, policy, node0, i, b) {
      if PolicyRefused(topo, frag, policy, node0, i, b) {
        assert PolicyStep(topo, frag, policy, node0, at, i);
        assert FollowsPolicy(topo, frag, policy, node0, i, at);
        OneRun(topo, frag, policy, node0, i, at, b);
        SameAnswer(topo, frag, policy, node0, i, at, b);
        assert false;
      }
    }
    forall i: nat, b ensures !FlowRefused(topo, frag, policy, node0, bw0, k, sel, i, b) {
      if FlowRefused(topo, frag, policy, node0, bw0, k, sel, i, b) {
        FlowsNotStuck(topo, frag, policy, node0, bw0, k, sel, i, at, routes, b);
        assert false;
      }
    }
  }

  lemma SameAnswer(topo: Topology, frag: Fragment, policy: Policy, node0: map<NodeId, Amount>, i: nat,
                   a: map<VnfId, NodeId>, b: map<VnfId, NodeId>)
    requires i < |frag.vnfs| && frag.vnfs[i].id in frag.tier
    requires After(node0, frag.vnfs[..i], a) == After(node0, frag.vnfs[..i], b)
    ensures ActionAt(topo, frag, policy, node0, a, i) == ActionAt(topo, frag, policy, node0, b, i)
  {}

  lemma FlowsNotStuck(topo: Topology, frag: Fragment, policy: Policy, node0: map<NodeId, Amount>, bw0: seq<real>,
                      k: nat, sel: Selector, i: nat, at: map<VnfId, NodeId>, routes: map<FlowKey, seq<LinkId>>,
                      b: map<VnfId, NodeId>)
    requires PlacedByPolicy(topo, frag, policy, node0, bw0, k, sel, at, routes)
    ensures !FlowRefused(topo, frag, policy, node0, bw0, k, sel, i, b)
  {
    hide RoutedByRule, RouteStuck, AsksInto, PolicyStep;
    if FlowRefused(topo, frag, policy, node0, bw0, k, sel, i, b) {
      assert FollowsPolicy(topo, frag, policy, node0, i, at);
      OneRun(topo, frag, policy, node0, i, at, b);
      AsksStay(topo, frag, b, at, i);
      var more := AsksGrow(topo, frag, at, i, |frag.vnfs|);
      forall v | v in b ensures v in at && at[v] == b[v] {
        var j :| 0 <= j < i && frag.vnfs[..i][j].id == v;
      }
      StuckAnyway(topo, topo.DomainLinks(frag.domain), AsksInto(topo, frag, b, i), more, b, at, bw0, k, sel);
      RoutedOrStuck(topo, topo.DomainLinks(frag.domain), AsksInto(topo, frag, at, |frag.vnfs|), at, bw0, k, sel,
                    routes);
    }
  }

  ghost predicate TierMatches(topo: Topology, frag: Fragment, v: Vnf, at: map<VnfId, NodeId>) {
    && v.id in at && at[v.id] in topo.attr && v.id in frag.tier
    && topo.attr[at[v.id]].tier == frag.tier[v.id] && at[v.id] in v.permitted
  }

  /** Unlike the greedy actor, the mask makes the required tier and the permitted set hard. */
  ghost predicate TiersMatch(topo: Topology, frag: Fragment, i: nat, at: map<VnfId, NodeId>) {
    i <= |frag.vnfs| && forall j :: 0 <= j < i ==> TierMatches(topo, frag, frag.vnfs[j], at)
  }

  lemma TierNext(topo: Topology, frag: Fragment, i: nat, at: map<VnfId, NodeId>, n: NodeId)
    requires DistinctIds(frag.vnfs) && i < |frag.vnfs| && TiersMatch(topo, frag, i, at)
    requires n in topo.attr && frag.vnfs[i].id in frag.tier && n in frag.vnfs[i].permitted
    requires topo.attr[n].tier == frag.tier[frag.vnfs[i].id]
    ensures TiersMatch(topo, frag, i + 1, at[frag.vnfs[i].id := n])
  {}

  /** Chain order puts the source of a flow before its target, so it is already placed. */
  lemma SourcePlaced(frag: Fragment, i: nat, f: Flow, at: map<VnfId, NodeId>)
    requires frag.WellFormed() && i < |frag.vnfs|
    requires f in frag.flows && f.dst == frag.vnfs[i].id && at.Keys == Ids(frag.vnfs[..i + 1])
    ensures f.src in at
  {
    assert frag.Joins(f);
    var a, b :| 0 <= a < b < |frag.vnfs| && frag.vnfs[a].id == f.src && frag.vnfs[b].id == f.dst;
    assert b == i;
    assert frag.vnfs[..i + 1][a].id == f.src;
  }

  lemma NewKey(frag: Fragment, done: seq<Flow>, f: Flow)
    requires frag.WellFormed() && f in frag.flows && f !in done
    requires exists targets :: Covers(frag, done, targets)
    ensures f.Key() !in FlowKeys(done)
  {
    forall j | 0 <= j < |done| ensures done[j].Key() != f.Key() {
      assert done[j] in frag.flows && done[j] != f;
    }
  }

  lemma EverythingRouted(topo: Topology, frag: Fragment, done: seq<Flow>, at: map<VnfId, NodeId>,
                         routes: map<FlowKey, seq<LinkId>>, bw: Dict<FlowKey, real>)
    requires frag.WellFormed() && at.Keys == Ids(frag.vnfs) && Covers(frag, done, at.Keys)
    requires AllServed(topo, topo.DomainLinks(frag.domain), done, at, routes, bw)
    ensures AllServed(topo, topo.DomainLinks(frag.domain), frag.flows, at, routes, bw)
  {
    forall f | f in frag.flows ensures f in done {
      assert frag.Joins(f);
    }
    assert FlowKeys(frag.flows) == FlowKeys(done) by {
      assert forall j :: 0 <= j < |done| ==> done[j] in frag.flows;
      assert forall j :: 0 <= j < |frag.flows| ==> frag.flows[j] in done;
    }
  }
}
