/** The co-location-first baseline: try every domain on its own, most free CPU first, then fall
    back to first-fit-decreasing over the whole substrate. */
module ColocationFfd {
  import opened Types
  import opened PlanLedger
  import opened Substrate
  import opened Sorting
  import opened FfdPlacing
  import opened GreedyFfd

  /** Free CPU of one domain. */
  function DomainCpu(topo: Topology, node: map<NodeId, Amount>, nodes: seq<NodeId>, d: DomainId): real {
    if nodes == [] then 0.0
    else
      var n := nodes[|nodes| - 1];
      DomainCpu(topo, node, nodes[..|nodes| - 1], d)
        + if n in node && topo.DomainOf(n) == d then node[n].cpu else 0.0
  }

  /** The CPU some nodes have left, summed. */
  ghost function CpuLeft(node: map<NodeId, Amount>, nodes: seq<NodeId>): real {
    if nodes == [] then 0.0 else (if nodes[0] in node then node[nodes[0]].cpu else 0.0) + CpuLeft(node, nodes[1..])
  }

  /** Free CPU of a domain: what its nodes have left. */
  ghost function FreeCpu(topo: Topology, node: map<NodeId, Amount>, d: DomainId): real {
    CpuLeft(node, topo.NodesInDomain(d))
  }

  lemma {:induction false} DomainCpuFront(topo: Topology, node: map<NodeId, Amount>, nodes: seq<NodeId>, d: DomainId)
    requires nodes != []
    ensures DomainCpu(topo, node, nodes, d)
         == (if nodes[0] in node && topo.DomainOf(nodes[0]) == d then node[nodes[0]].cpu else 0.0)
            + DomainCpu(topo, node, nodes[1..], d)
  {
    var front := nodes[..|nodes| - 1];
    if front == [] {
      assert nodes[1..] == [];
      assert DomainCpu(topo, node, front, d) == 0.0;
    } else {
      DomainCpuFront(topo, node, front, d);
      assert front[1..] == nodes[1..][..|nodes| - 2];
    }
  }

  lemma {:induction false} DomainCpuMeans(topo: Topology, node: map<NodeId, Amount>, nodes: seq<NodeId>, d: DomainId)
    ensures DomainCpu(topo, node, nodes, d) == CpuLeft(node, topo.FilterDomain(nodes, d))
  {
    if nodes != [] {
      DomainCpuFront(topo, node, nodes, d);
      DomainCpuMeans(topo, node, nodes[1..], d);
      var rest := topo.FilterDomain(nodes[1..], d);
      if topo.DomainOf(nodes[0]) == d {
        assert topo.FilterDomain(nodes, d) == [nodes[0]] + rest && ([nodes[0]] + rest)[1..] == rest;
      } else {
        assert topo.FilterDomain(nodes, d) == rest;
      }
    }
  }

  datatype RankedDomain = RankedDomain(domain: DomainId, cpu: real)

  predicate MoreFree(a: RankedDomain, b: RankedDomain) {
    a.cpu >= b.cpu
  }

  /** A node of domain e comes before every node of domain d. */
  ghost predicate MetFirst(topo: Topology, nodes: seq<NodeId>, e: DomainId, d: DomainId) {
    exists k :: 0 <= k < |nodes| && topo.DomainOf(nodes[k]) == e && NotAmong(topo, nodes, k, d)
  }

  ghost predicate NotAmong(topo: Topology, nodes: seq<NodeId>, k: int, d: DomainId) {
    forall j :: 0 <= j <= k && j < |nodes| ==> topo.DomainOf(nodes[j]) != d
  }

  /** The domains that own nodes, each with its free CPU, in the order they are met. */
  ghost predicate AllDomains(topo: Topology, node: map<NodeId, Amount>, nodes: seq<NodeId>, ds: seq<RankedDomain>) {
    && (forall i :: 0 <= i < |ds| ==>
          ds[i].cpu == FreeCpu(topo, node, ds[i].domain)
          && exists n :: n in nodes && topo.DomainOf(n) == ds[i].domain && ds[i].domain >= 0)
    && (forall i, j :: 0 <= i < j < |ds| ==>
          ds[i].domain != ds[j].domain && MetFirst(topo, nodes, ds[i].domain, ds[j].domain))
    && forall n :: n in nodes && topo.DomainOf(n) >= 0 ==> exists i :: 0 <= i < |ds| && ds[i].domain == topo.DomainOf(n)
  }

  predicate Holds(ds: seq<RankedDomain>, d: DomainId) {
    exists i :: 0 <= i < |ds| && ds[i].domain == d
  }

  method CollectDomains(sub: SubstrateNetwork) returns (ds: seq<RankedDomain>)
    requires sub.Valid()
    ensures AllDomains(sub.topo, sub.node, sub.topo.order, ds)
  {
    hide DomainCpu, CpuLeft, Topology.Valid, Topology.DomainOf;
    ds := [];
    var order := sub.topo.order;
    var i := 0;
    while i < |order|
      invariant 0 <= i <= |order| && AllDomains(sub.topo, sub.node, order[..i], ds)
    {
      var d := sub.topo.DomainOf(order[i]);
      assert order[..i + 1] == order[..i] + [order[i]];
      DomainsNext(sub.topo, sub.node, order[..i], ds, order[i]);
      if d >= 0 && !Holds(ds, d) {
        DomainCpuMeans(sub.topo, sub.node, order, d);
        ds := ds + [RankedDomain(d, DomainCpu(sub.topo, sub.node, order, d))];
      }
      i := i + 1;
    }
    assert order[..i] == order;
  }

  lemma DomainsNext(topo: Topology, node: map<NodeId, Amount>, nodes: seq<NodeId>, ds: seq<RankedDomain>, n: NodeId)
    requires AllDomains(topo, node, nodes, ds)
    ensures var d := topo.DomainOf(n);
            if d >= 0 && !Holds(ds, d)
            then AllDomains(topo, node, nodes + [n], ds + [RankedDomain(d, FreeCpu(topo, node, d))])
            else AllDomains(topo, node, nodes + [n], ds)
  {
    hide FreeCpu, Topology.DomainOf, MetFirst;
    var d := topo.DomainOf(n);
    assert n in nodes + [n] && forall m :: m in nodes ==> m in nodes + [n];
    forall e, f | MetFirst(topo, nodes, e, f) ensures MetFirst(topo, nodes + [n], e, f) {
      StillMetFirst(topo, nodes, n, e, f);
    }
    if d >= 0 && !Holds(ds, d) {
      var next := ds + [RankedDomain(d, FreeCpu(topo, node, d))];
      assert next[|ds|].domain == d && forall i :: 0 <= i < |ds| ==> next[i] == ds[i];
      forall i | 0 <= i < |ds| ensures MetFirst(topo, nodes + [n], ds[i].domain, d) {
        var m :| m in nodes && topo.DomainOf(m) == ds[i].domain;
        NewDomainLast(topo, nodes, n, m, d);
      }
    }
  }

  lemma StillMetFirst(topo: Topology, nodes: seq<NodeId>, n: NodeId, e: DomainId, d: DomainId)
    requires MetFirst(topo, nodes, e, d)
    ensures MetFirst(topo, nodes + [n], e, d)
  {
    hide Topology.DomainOf;
    var k :| 0 <= k < |nodes| && topo.DomainOf(nodes[k]) == e && NotAmong(topo, nodes, k, d);
    assert forall j :: 0 <= j < |nodes| ==> (nodes + [n])[j] == nodes[j];
    assert NotAmong(topo, nodes + [n], k, d);
  }

  lemma NewDomainLast(topo: Topology, nodes: seq<NodeId>, n: NodeId, m: NodeId, d: DomainId)
    requires m in nodes && forall x :: x in nodes ==> topo.DomainOf(x) != d
    ensures MetFirst(topo, nodes + [n], topo.DomainOf(m), d)
  {
    hide Topology.DomainOf;
    var k :| 0 <= k < |nodes| && nodes[k] == m;
    assert forall j :: 0 <= j < |nodes| ==> (nodes + [n])[j] == nodes[j] && nodes[j] in nodes;
    assert NotAmong(topo, nodes + [n], k, d);
  }

  lemma MetOnce(topo: Topology, nodes: seq<NodeId>, e: DomainId, d: DomainId)
    requires MetFirst(topo, nodes, e, d)
    ensures !MetFirst(topo, nodes, d, e)
  {
    hide Topology.DomainOf;
  }

  /** Tightest-fit placement runs aground inside the domain. */
  ghost predicate DomainStuck(topo: Topology, node: map<NodeId, Amount>, bw: seq<real>, req: Request, d: DomainId)
    requires |bw| == |topo.links|
  {
    RunStuck(topo, node, bw, req, TightestFit, topo.NodesInDomain(d))
  }

  ghost predicate Populated(topo: Topology, d: DomainId) {
    exists n :: n in topo.order && topo.DomainOf(n) == d && d >= 0
  }

  ghost predicate AllStuck(topo: Topology, node: map<NodeId, Amount>, bw: seq<real>, req: Request)
    requires |bw| == |topo.links|
  {
    forall d :: Populated(topo, d) ==> DomainStuck(topo, node, bw, req, d)
  }

  /** Every domain with more free CPU than d, or with as much and met first, was tried before it
      and failed. */
  ghost predicate FreerStuck(topo: Topology, node: map<NodeId, Amount>, bw: seq<real>, req: Request, d: DomainId)
    requires |bw| == |topo.links|
  {
    forall e :: Populated(topo, e) && Freer(topo, node, e, d) ==> DomainStuck(topo, node, bw, req, e)
  }

  ghost predicate Freer(topo: Topology, node: map<NodeId, Amount>, e: DomainId, d: DomainId) {
    || FreeCpu(topo, node, e) > FreeCpu(topo, node, d)
    || (FreeCpu(topo, node, e) == FreeCpu(topo, node, d) && MetFirst(topo, topo.order, e, d))
  }

  /** The chain fits into this domain, and into none with more free CPU, or with as much and met
      first. */
  ghost predicate FirstServed(topo: Topology, node: map<NodeId, Amount>, bw: seq<real>, req: Request, d: DomainId)
    requires |bw| == |topo.links|
  {
    Populated(topo, d) && !DomainStuck(topo, node, bw, req, d) && FreerStuck(topo, node, bw, req, d)
  }

  /** A domain that is listed and not stuck ends the claim that all are. */
  lemma RankedIsPopulated(topo: Topology, node: map<NodeId, Amount>, bw: seq<real>, req: Request,
                          ranked: seq<RankedDomain>, i: nat)
    requires |bw| == |topo.links| && Ranking(topo, node, ranked) && i < |ranked|
    requires !DomainStuck(topo, node, bw, req, ranked[i].domain)
    ensures Populated(topo, ranked[i].domain) && !AllStuck(topo, node, bw, req)
  {
    hide DomainStuck, FreeCpu, Populated;
    assert ranked[i] in ranked;
  }

  ghost predicate Ranking(topo: Topology, node: map<NodeId, Amount>, ranked: seq<RankedDomain>) {
    && InOrder(ranked, MoreFree) && (forall r :: r in ranked ==> Populated(topo, r.domain))
    && (forall r :: r in ranked ==> r.cpu == FreeCpu(topo, node, r.domain))
    && (forall p, q :: 0 <= p < q < |ranked| && ranked[p].cpu == ranked[q].cpu ==>
          MetFirst(topo, topo.order, ranked[p].domain, ranked[q].domain))
    && forall d :: Populated(topo, d) ==> exists r :: r in ranked && r.domain == d
  }

  /** When the first i domains of the ranking failed, so did every freer one than the next. */
  lemma TriedInOrder(topo: Topology, node: map<NodeId, Amount>, bw: seq<real>, req: Request, ranked: seq<RankedDomain>,
                     i: nat)
    requires |bw| == |topo.links| && Ranking(topo, node, ranked) && i <= |ranked|
    requires forall j :: 0 <= j < i ==> DomainStuck(topo, node, bw, req, ranked[j].domain)
    ensures if i == |ranked| then AllStuck(topo, node, bw, req)
            else FreerStuck(topo, node, bw, req, ranked[i].domain)
  {
    hide DomainStuck, FreeCpu, Populated, MetFirst;
    assert i < |ranked| ==> ranked[i] in ranked;
    assert forall j :: 0 <= i < j < |ranked| ==> MoreFree(ranked[i], ranked[j]);
    forall e | Populated(topo, e) && (i < |ranked| ==> Freer(topo, node, e, ranked[i].domain))
      ensures DomainStuck(topo, node, bw, req, e)
    {
      var r :| r in ranked && r.domain == e;
      var j :| 0 <= j < |ranked| && ranked[j] == r;
      if i < |ranked| && MetFirst(topo, topo.order, e, ranked[i].domain) {
        MetOnce(topo, topo.order, e, ranked[i].domain);
      }
    }
  }

  /** Domains by free CPU, most first. */
  method DomainCpuRanking(sub: SubstrateNetwork) returns (ranked: seq<RankedDomain>)
    requires sub.Valid()
    ensures Ranking(sub.topo, sub.node, ranked)
  {
    hide FreeCpu, Topology.Valid, Topology.DomainOf, MetFirst;
    var ds := CollectDomains(sub);
    ranked := Sort(ds, MoreFree);
    SortInOrder(ds, MoreFree);
    SortIsStable(ds, MoreFree);
    forall p, q | 0 <= p < q < |ranked| && ranked[p].cpu == ranked[q].cpu
      ensures MetFirst(sub.topo, sub.topo.order, ranked[p].domain, ranked[q].domain)
    {
      assert CameBefore(ds, ranked[p], ranked[q]);
    }
    forall d | Populated(sub.topo, d) ensures exists r :: r in ranked && r.domain == d {
      var n :| n in sub.topo.order && sub.topo.DomainOf(n) == d && d >= 0;
      var i :| 0 <= i < |ds| && ds[i].domain == d;
      assert ds[i] in ranked;
    }
  }

  /** Place and route the whole chain with all VNFs in one domain. Routes may leave it: the path
      search runs over the whole graph, and every link is costed as inside. */
  method TrySingleDomain(sub: SubstrateNetwork, req: Request, w: CostWeights, d: DomainId) returns (r: GreedyResult)
    requires sub.Valid() && sub.NonNegative() && req.IsChain()
    ensures r.Placed? ==> SafePlan(sub.topo, sub.node, sub.bw, req, sub.topo.NodesInDomain(d), r.plan)
    ensures r.Placed? ==> CostsAddUp(req, w, r) && r.interBw == 0.0 && CostsSplit(sub.topo, req, false, r)
    ensures r.Placed? ==> ByRule(sub.topo, sub.node, sub.bw, req, TightestFit, sub.topo.NodesInDomain(d), r.plan)
    ensures r.Placed? <==> !DomainStuck(sub.topo, sub.node, sub.bw, req, d)
  {
    hide SafePlan, CostsAddUp, RunStuck, ByRule, CostsSplit;
    r := Run(sub, req, w, TightestFit, sub.topo.NodesInDomain(d), false);
  }

  /** The plan keeps the chain in one domain, or is the fallback's over the whole substrate;
      either way it can be allocated. */
  method ColocationFirst(sub: SubstrateNetwork, req: Request, w: CostWeights)
    returns (r: GreedyResult, single: Option<DomainId>)
    requires sub.Valid() && sub.NonNegative() && req.IsChain()
    ensures r.Placed? ==> SafePlan(sub.topo, sub.node, sub.bw, req, sub.topo.order, r.plan) && CostsAddUp(req, w, r)
    ensures r.Placed? && single.Some? ==>
              SafePlan(sub.topo, sub.node, sub.bw, req, sub.topo.NodesInDomain(single.value), r.plan)
    ensures single.Some? ==> r.Placed? && r.interBw == 0.0
    ensures r.Placed? ==> CostsSplit(sub.topo, req, single.None?, r)
    ensures single.Some? ==> FirstServed(sub.topo, sub.node, sub.bw, req, single.value)
    ensures single.None? <==> AllStuck(sub.topo, sub.node, sub.bw, req)
    ensures r.Placed? ==>
              if single.Some? then ByRule(sub.topo, sub.node, sub.bw, req, TightestFit,
                                          sub.topo.NodesInDomain(single.value), r.plan)
              else ByRule(sub.topo, sub.node, sub.bw, req, MostFree, sub.topo.order, r.plan)
    ensures r.NoPlan? <==> AllStuck(sub.topo, sub.node, sub.bw, req)
                           && RunStuck(sub.topo, sub.node, sub.bw, req, MostFree, sub.topo.order)
  {
    hide SafePlan, CostsAddUp, Topology.Valid, FreeCpu, Request.IsChain, RunStuck, DomainStuck, AllStuck, FreerStuck,
         Ranking, ByRule, Populated, CostsSplit, Topology.NodesInDomain;
    var ranked := DomainCpuRanking(sub);
    var i := 0;
    while i < |ranked|
      invariant 0 <= i <= |ranked|
      invariant forall j :: 0 <= j < i ==> DomainStuck(sub.topo, sub.node, sub.bw, req, ranked[j].domain)
    {
      var d := ranked[i].domain;
      TriedInOrder(sub.topo, sub.node, sub.bw, req, ranked, i);
      r := TrySingleDomain(sub, req, w, d);
      if r.Placed? {
        WiderCandidates(sub.topo, sub.node, sub.bw, req, sub.topo.NodesInDomain(d), sub.topo.order, r.plan);
        RankedIsPopulated(sub.topo, sub.node, sub.bw, req, ranked, i);
        single := Some(d);
        return;
      }
      i := i + 1;
    }
    TriedInOrder(sub.topo, sub.node, sub.bw, req, ranked, i);
    r := RunGreedyFfd(sub, req, w);
    single := None;
  }

  lemma WiderCandidates(topo: Topology, node: map<NodeId, Amount>, bw: seq<real>, req: Request, a: seq<NodeId>,
                        b: seq<NodeId>, plan: Plan)
    requires |bw| == |topo.links| && SafePlan(topo, node, bw, req, a, plan) && forall n :: n in a ==> n in b
    ensures SafePlan(topo, node, bw, req, b, plan)
  {
    hide FlowServed, Plan.WellFormed, Plan.NonNegative, FlowDemand, PlacedDemand;
    forall v | v in req.vnfs ensures VnfServed(topo, b, plan, v) {
      assert VnfServed(topo, a, plan, v);
    }
  }
}
