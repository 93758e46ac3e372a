/** The per-domain summary the partition layer sees: aggregate residuals, per-tier residuals,
    and per tier the residual of the one node that fits best (h^m). */
module Observation {
  import opened Types
  import opened Substrate
  import opened Sorting

  const CPU_REF := 16.0
  const RAM_REF := 32.0

  datatype DomainSummary = DomainSummary(domain: DomainId, dominant: Tier, residual: Amount, capacity: Amount,
                                         supported: set<Tier>, tierResidual: PerTier<Amount>,
                                         tierMaxNode: PerTier<Amount>)

  function TierIndex(t: Tier): nat {
    match t case Edge => 0 case RegionalCloud => 1 case CentralCloud => 2
  }

  /** One value per tier; every tier is always present. */
  datatype PerTier<T> = PerTier(edge: T, regional: T, central: T) {
    function Get(t: Tier): T {
      match t case Edge => edge case RegionalCloud => regional case CentralCloud => central
    }

    function Set(t: Tier, x: T): PerTier<T> {
      match t
      case Edge => this.(edge := x)
      case RegionalCloud => this.(regional := x)
      case CentralCloud => this.(central := x)
    }
  }

  function Everywhere<T>(x: T): PerTier<T> {
    PerTier(x, x, x)
  }

  /** The score that picks a tier's best-fitting node. */
  function Fit(a: Amount): real {
    if a.cpu / CPU_REF <= a.ram / RAM_REF then a.cpu / CPU_REF else a.ram / RAM_REF
  }

  function Total(nodes: seq<NodeId>, amount: map<NodeId, Amount>): Amount {
    if nodes == [] then ZERO
    else Total(nodes[..|nodes| - 1], amount).Plus(AmountAt(amount, nodes[|nodes| - 1]))
  }

  function AmountAt(amount: map<NodeId, Amount>, n: NodeId): Amount {
    if n in amount then amount[n] else ZERO
  }

  function OfTier(topo: Topology, nodes: seq<NodeId>, t: Tier): seq<NodeId> {
    if nodes == [] then []
    else
      var n := nodes[|nodes| - 1];
      OfTier(topo, nodes[..|nodes| - 1], t) + if n in topo.attr && topo.attr[n].tier == t then [n] else []
  }

  function Capacities(topo: Topology): map<NodeId, Amount> {
    map n | n in topo.attr :: topo.attr[n].capacity
  }

  /** `best` is the residual of one real node of the tier, and no node of the tier fits
      better; with no node in the tier it is zero. */
  ghost predicate BestFit(topo: Topology, nodes: seq<NodeId>, node: map<NodeId, Amount>, t: Tier, best: Amount) {
    var mine := OfTier(topo, nodes, t);
    if mine == [] then best == ZERO
    else
      && (exists n :: n in mine && n in node && node[n] == best)
      && forall n :: n in mine && n in node ==> Fit(node[n]) <= Fit(best)
  }

  function TiersOf(topo: Topology, nodes: seq<NodeId>): set<Tier> {
    set n | n in nodes && n in topo.attr :: topo.attr[n].tier
  }

  /** What a summary says about the nodes of its domain. */
  ghost predicate Summarises(topo: Topology, node: map<NodeId, Amount>, s: DomainSummary) {
    var nodes := topo.NodesInDomain(s.domain);
    && nodes != []
    && s.residual == Total(nodes, node)
    && s.capacity == Total(nodes, Capacities(topo))
    && s.supported == TiersOf(topo, nodes)
    && Dominant(topo, nodes, s.dominant)
    && TierTotals(topo, nodes, node, s.tierResidual)
    && TierBest(topo, nodes, node, s.tierMaxNode)
  }

  ghost predicate TierTotals(topo: Topology, nodes: seq<NodeId>, node: map<NodeId, Amount>, m: PerTier<Amount>) {
    forall t :: m.Get(t) == Total(OfTier(topo, nodes, t), node)
  }

  ghost predicate TierBest(topo: Topology, nodes: seq<NodeId>, node: map<NodeId, Amount>, m: PerTier<Amount>) {
    forall t :: BestFit(topo, nodes, node, t, m.Get(t))
  }

  /** The most common tier, ties broken access-inwards. */
  ghost predicate Dominant(topo: Topology, nodes: seq<NodeId>, t: Tier) {
    forall u: Tier :: u != t ==>
      var a, b := |OfTier(topo, nodes, t)|, |OfTier(topo, nodes, u)|;
      a > b || (a == b && TierIndex(t) < TierIndex(u))
  }

  function DominantTier(topo: Topology, nodes: seq<NodeId>): (t: Tier)
    ensures Dominant(topo, nodes, t)
  {
    var e, r, c := |OfTier(topo, nodes, Edge)|, |OfTier(topo, nodes, RegionalCloud)|, |OfTier(topo, nodes,
                                                                                              CentralCloud)|;
    if e >= r && e >= c then Edge else if r >= c then RegionalCloud else CentralCloud
  }

  /** The running argmax: the score kept for a tier belongs to the residual kept for it. */
  ghost predicate Scanned(topo: Topology, nodes: seq<NodeId>, node: map<NodeId, Amount>,
                          score: PerTier<real>, best: PerTier<Amount>)
  {
    && TierBest(topo, nodes, node, best)
    && forall t :: score.Get(t) == if OfTier(topo, nodes, t) == [] then -1.0 else Fit(best.Get(t))
  }

  lemma OfTierNext(topo: Topology, nodes: seq<NodeId>, i: nat, t: Tier)
    requires i < |nodes| && nodes[i] in topo.attr
    ensures OfTier(topo, nodes[..i + 1], t)
         == if topo.attr[nodes[i]].tier == t then OfTier(topo, nodes[..i], t) + [nodes[i]]
             else OfTier(topo, nodes[..i], t)
  {
    assert nodes[..i + 1][..i] == nodes[..i];
  }

  lemma {:induction false} TotalLast(nodes: seq<NodeId>, n: NodeId, amount: map<NodeId, Amount>)
    requires n in amount
    ensures Total(nodes + [n], amount) == Total(nodes, amount).Plus(amount[n])
  {
    assert (nodes + [n])[..|nodes|] == nodes;
  }

  lemma ScanNext(topo: Topology, nodes: seq<NodeId>, i: nat, node: map<NodeId, Amount>,
                 score: PerTier<real>, best: PerTier<Amount>)
    requires i < |nodes| && nodes[i] in topo.attr && nodes[i] in node && node[nodes[i]].Covers(ZERO)
    requires Scanned(topo, nodes[..i], node, score, best)
    ensures var t, a := topo.attr[nodes[i]].tier, node[nodes[i]];
            if Fit(a) > score.Get(t) then Scanned(topo, nodes[..i + 1], node, score.Set(t, Fit(a)), best.Set(t, a))
            else Scanned(topo, nodes[..i + 1], node, score, best)
  {
    hide OfTier;
    var n := nodes[i];
    var mine, a := topo.attr[n].tier, node[n];
    var better := Fit(a) > score.Get(mine);
    var best' := if better then best.Set(mine, a) else best;
    forall t: Tier ensures BestFit(topo, nodes[..i + 1], node, t, best'.Get(t)) {
      OfTierNext(topo, nodes, i, t);
      assert BestFit(topo, nodes[..i], node, t, best.Get(t));
    }
    var score' := if better then score.Set(mine, Fit(a)) else score;
    forall t: Tier ensures score'.Get(t) == if OfTier(topo, nodes[..i + 1], t) == [] then -1.0 else Fit(best'.Get(t)) {
      OfTierNext(topo, nodes, i, t);
    }
  }

  lemma TotalsNext(topo: Topology, nodes: seq<NodeId>, i: nat, node: map<NodeId, Amount>, m: PerTier<Amount>)
    requires i < |nodes| && nodes[i] in topo.attr && nodes[i] in node
    requires TierTotals(topo, nodes[..i], node, m)
    ensures var t := topo.attr[nodes[i]].tier;
            TierTotals(topo, nodes[..i + 1], node, m.Set(t, m.Get(t).Plus(node[nodes[i]])))
  {
    hide OfTier, Total;
    var n := nodes[i];
    var t := topo.attr[n].tier;
    forall u: Tier
      ensures m.Set(t, m.Get(t).Plus(node[n])).Get(u) == Total(OfTier(topo, nodes[..i + 1], u), node)
    {
      OfTierNext(topo, nodes, i, u);
      TotalLast(OfTier(topo, nodes[..i], u), n, node);
    }
  }

  lemma DomainNodesKnown(topo: Topology, d: DomainId)
    requires topo.Valid()
    ensures forall n :: n in topo.NodesInDomain(d) ==> n in topo.attr && topo.attr[n].domain == d
  {}

  datatype Scan = Scan(residual: Amount, capacity: Amount, tierResidual: PerTier<Amount>, score: PerTier<real>,
                       best: PerTier<Amount>)

  /** Where the accumulation stands after the first i nodes. */
  ghost predicate ScanOf(topo: Topology, nodes: seq<NodeId>, i: nat, node: map<NodeId, Amount>, acc: Scan) {
    && i <= |nodes|
    && acc.residual == Total(nodes[..i], node) && acc.capacity == Total(nodes[..i], Capacities(topo))
    && TierTotals(topo, nodes[..i], node, acc.tierResidual)
    && Scanned(topo, nodes[..i], node, acc.score, acc.best)
  }

  function AddNode(acc: Scan, t: Tier, a: Amount, capacity: Amount): Scan {
    var better := Fit(a) > acc.score.Get(t);
    Scan(acc.residual.Plus(a), acc.capacity.Plus(capacity), acc.tierResidual.Set(t, acc.tierResidual.Get(t).Plus(a)),
         if better then acc.score.Set(t, Fit(a)) else acc.score, if better then acc.best.Set(t, a) else acc.best)
  }

  lemma {:induction false} AddNodeScans(topo: Topology, nodes: seq<NodeId>, i: nat, node: map<NodeId, Amount>,
                                        acc: Scan)
    requires i < |nodes| && nodes[i] in topo.attr && nodes[i] in node && node[nodes[i]].Covers(ZERO)
    requires ScanOf(topo, nodes, i, node, acc)
    ensures ScanOf(topo, nodes, i + 1, node,
                   AddNode(acc, topo.attr[nodes[i]].tier, node[nodes[i]], topo.attr[nodes[i]].capacity))
  {
    hide TierTotals, Scanned, Total;
    var n := nodes[i];
    TotalsNext(topo, nodes, i, node, acc.tierResidual);
    ScanNext(topo, nodes, i, node, acc.score, acc.best);
    assert nodes[..i + 1] == nodes[..i] + [n];
    TotalLast(nodes[..i], n, node);
    TotalLast(nodes[..i], n, Capacities(topo));
  }

  // What a summary means.

  ghost predicate IsTier(topo: Topology, n: NodeId, t: Tier) {
    n in topo.attr && topo.attr[n].tier == t
  }

  /** CPU of the listed nodes of one tier, summed; likewise RAM. */
  ghost function TierCpu(topo: Topology, nodes: seq<NodeId>, node: map<NodeId, Amount>, t: Tier): real {
    if nodes == [] then 0.0
    else
      var n := nodes[|nodes| - 1];
      TierCpu(topo, nodes[..|nodes| - 1], node, t) + if IsTier(topo, n, t) && n in node then node[n].cpu else 0.0
  }

  ghost function TierRam(topo: Topology, nodes: seq<NodeId>, node: map<NodeId, Amount>, t: Tier): real {
    if nodes == [] then 0.0
    else
      var n := nodes[|nodes| - 1];
      TierRam(topo, nodes[..|nodes| - 1], node, t) + if IsTier(topo, n, t) && n in node then node[n].ram else 0.0
  }

  /** The scarcer of the two resources, with two units of RAM counted as one of CPU, is no more
      than that of b. */
  ghost predicate NoRoomier(a: Amount, b: Amount) {
    (2.0 * a.cpu <= 2.0 * b.cpu || a.ram <= 2.0 * b.cpu) && (2.0 * a.cpu <= b.ram || a.ram <= b.ram)
  }

  /** One tier of a summary: the totals of its nodes, and what its roomiest node has left. */
  ghost predicate TierPart(topo: Topology, nodes: seq<NodeId>, node: map<NodeId, Amount>, t: Tier, left: Amount,
                           best: Amount)
  {
    && left.cpu == TierCpu(topo, nodes, node, t) && left.ram == TierRam(topo, nodes, node, t)
    && (forall n :: n in nodes && IsTier(topo, n, t) && n in node ==> NoRoomier(node[n], best))
    && if exists n :: n in nodes && IsTier(topo, n, t) then
         exists n :: n in nodes && IsTier(topo, n, t) && n in node && node[n] == best
       else best.cpu == 0.0 && best.ram == 0.0
  }

  ghost predicate PlainSummary(topo: Topology, node: map<NodeId, Amount>, s: DomainSummary) {
    var nodes := topo.NodesInDomain(s.domain);
    && TierPart(topo, nodes, node, Edge, s.tierResidual.edge, s.tierMaxNode.edge)
    && TierPart(topo, nodes, node, RegionalCloud, s.tierResidual.regional, s.tierMaxNode.regional)
    && TierPart(topo, nodes, node, CentralCloud, s.tierResidual.central, s.tierMaxNode.central)
    && s.residual.cpu == s.tierResidual.edge.cpu + s.tierResidual.regional.cpu + s.tierResidual.central.cpu
    && s.residual.ram == s.tierResidual.edge.ram + s.tierResidual.regional.ram + s.tierResidual.central.ram
    && (forall t :: t in s.supported <==> exists n :: n in nodes && IsTier(topo, n, t))
  }

  lemma FitMeans(a: Amount, b: Amount)
    ensures Fit(a) <= Fit(b) <==> NoRoomier(a, b)
  {}

  lemma {:induction false} TierTotalMeans(topo: Topology, nodes: seq<NodeId>, node: map<NodeId, Amount>, t: Tier)
    requires forall n :: n in nodes ==> n in node
    ensures Total(OfTier(topo, nodes, t), node) == Amount(TierCpu(topo, nodes, node, t), TierRam(topo, nodes, node, t))
  {
    if nodes != [] {
      var front, n := nodes[..|nodes| - 1], nodes[|nodes| - 1];
      TierTotalMeans(topo, front, node, t);
      TotalLast(OfTier(topo, front, t), n, node);
      hide Total;
      assert OfTier(topo, nodes, t) == OfTier(topo, front, t) + if IsTier(topo, n, t) then [n] else [];
      if !IsTier(topo, n, t) {
        assert OfTier(topo, nodes, t) == OfTier(topo, front, t);
      }
    }
  }

  lemma BestFitMeans(topo: Topology, nodes: seq<NodeId>, node: map<NodeId, Amount>, t: Tier, best: Amount)
    requires BestFit(topo, nodes, node, t, best) && forall n :: n in nodes ==> n in node
    ensures forall n :: n in nodes && IsTier(topo, n, t) && n in node ==> NoRoomier(node[n], best)
    ensures if exists n :: n in nodes && IsTier(topo, n, t) then
              exists n :: n in nodes && IsTier(topo, n, t) && n in node && node[n] == best
            else best == ZERO
  {
    OfTierMembers(topo, nodes, t);
    hide Fit, NoRoomier, OfTier;
    var mine := OfTier(topo, nodes, t);
    assert mine != [] ==> mine[0] in mine;
    forall n | n in mine ensures NoRoomier(node[n], best) {
      FitMeans(node[n], best);
    }
  }

  lemma TierPartMeans(topo: Topology, nodes: seq<NodeId>, node: map<NodeId, Amount>, t: Tier, left: Amount,
                      best: Amount)
    requires left == Total(OfTier(topo, nodes, t), node) && BestFit(topo, nodes, node, t, best)
    requires forall n :: n in nodes ==> n in node
    ensures TierPart(topo, nodes, node, t, left, best)
  {
    hide BestFit, NoRoomier, TierCpu, TierRam, OfTier, Total;
    TierTotalMeans(topo, nodes, node, t);
    BestFitMeans(topo, nodes, node, t, best);
  }

  lemma EveryTierBest(topo: Topology, node: map<NodeId, Amount>, s: DomainSummary)
    requires Summarises(topo, node, s)
    ensures var nodes := topo.NodesInDomain(s.domain);
            && BestFit(topo, nodes, node, Edge, s.tierMaxNode.edge)
            && BestFit(topo, nodes, node, RegionalCloud, s.tierMaxNode.regional)
            && BestFit(topo, nodes, node, CentralCloud, s.tierMaxNode.central)
    ensures forall t :: t in s.supported <==> exists n :: n in topo.NodesInDomain(s.domain) && IsTier(topo, n, t)
  {
    hide BestFit, OfTier, Total, Dominant, TierTotals;
    var best, nodes := s.tierMaxNode, topo.NodesInDomain(s.domain);
    assert best.Get(Edge) == best.edge && best.Get(RegionalCloud) == best.regional
        && best.Get(CentralCloud) == best.central;
  }

  /** The summary gives, per tier and in all, what the nodes of the domain have left. */
  lemma SummaryMeans(topo: Topology, node: map<NodeId, Amount>, s: DomainSummary)
    requires topo.Valid() && node.Keys == topo.attr.Keys && Summarises(topo, node, s)
    ensures PlainSummary(topo, node, s)
  {
    hide Topology.Valid, Topology.NodesInDomain, TierPart, BestFit, OfTier, Total, Summarises;
    var nodes := topo.NodesInDomain(s.domain);
    DomainNodesKnown(topo, s.domain);
    SummaryAddsUp(topo, node, s);
    SummaryTotals(topo, node, s);
    EveryTierBest(topo, node, s);
    TierPartMeans(topo, nodes, node, Edge, s.tierResidual.edge, s.tierMaxNode.edge);
    TierPartMeans(topo, nodes, node, RegionalCloud, s.tierResidual.regional, s.tierMaxNode.regional);
    TierPartMeans(topo, nodes, node, CentralCloud, s.tierResidual.central, s.tierMaxNode.central);
  }

  method Summarise(sub: SubstrateNetwork, d: DomainId) returns (s: DomainSummary)
    requires sub.Valid() && sub.NonNegative() && sub.topo.NodesInDomain(d) != []
    ensures s.domain == d && Summarises(sub.topo, sub.node, s) && PlainSummary(sub.topo, sub.node, s)
  {
    DomainNodesKnown(sub.topo, d);
    hide Topology.Valid, ScanOf, AddNode, PlainSummary;
    var nodes := sub.topo.NodesInDomain(d);
    var acc := Scan(ZERO, ZERO, Everywhere(ZERO), Everywhere(-1.0), Everywhere(ZERO));
    var i := 0;
    while i < |nodes|
      invariant 0 <= i <= |nodes| && ScanOf(sub.topo, nodes, i, sub.node, acc)
    {
      var n := nodes[i];
      assert n in nodes;
      AddNodeScans(sub.topo, nodes, i, sub.node, acc);
      acc := AddNode(acc, sub.topo.attr[n].tier, sub.node[n], sub.topo.attr[n].capacity);
      i := i + 1;
    }
    s := DomainSummary(d, DominantTier(sub.topo, nodes), acc.residual, acc.capacity, TiersOf(sub.topo, nodes),
                       acc.tierResidual, acc.best);
    ScanComplete(sub.topo, nodes, sub.node, acc);
    SummaryMeans(sub.topo, sub.node, s);
  }

  lemma {:induction false} ScanComplete(topo: Topology, nodes: seq<NodeId>, node: map<NodeId, Amount>, acc: Scan)
    requires ScanOf(topo, nodes, |nodes|, node, acc)
    ensures acc.residual == Total(nodes, node) && acc.capacity == Total(nodes, Capacities(topo))
    ensures TierTotals(topo, nodes, node, acc.tierResidual) && TierBest(topo, nodes, node, acc.best)
  {
    assert nodes[..|nodes|] == nodes;
  }

  /** The canonical order: dominant tier, then domain id. */
  predicate Canonical(a: DomainSummary, b: DomainSummary) {
    var x, y := TierIndex(a.dominant), TierIndex(b.dominant);
    x < y || (x == y && a.domain <= b.domain)
  }

  /** Access first: edge before regional cloud before central cloud. */
  ghost predicate Earlier(a: Tier, b: Tier) {
    a != b && (a == Edge || b == CentralCloud)
  }

  /** One summary per non-empty domain of the range, by dominant tier and then by domain id. */
  ghost predicate ValidSummaries(topo: Topology, node: map<NodeId, Amount>, numDomains: nat, ss: seq<DomainSummary>) {
    && FoundBelow(topo, node, numDomains, ss)
    && forall i, j :: 0 <= i < j < |ss| ==>
         || Earlier(ss[i].dominant, ss[j].dominant)
         || (ss[i].dominant == ss[j].dominant && ss[i].domain <= ss[j].domain)
  }

  /** The summaries found for the domains below d, in domain order. */
  ghost predicate FoundBelow(topo: Topology, node: map<NodeId, Amount>, d: int, found: seq<DomainSummary>) {
    && (forall i :: 0 <= i < |found| ==> 0 <= found[i].domain < d && Summarises(topo, node, found[i]))
    && (forall i, j :: 0 <= i < j < |found| ==> found[i].domain != found[j].domain)
    && (forall c :: 0 <= c < d && topo.NodesInDomain(c) != [] ==> exists i :: 0 <= i < |found| && found[i].domain == c)
  }

  lemma FoundNext(topo: Topology, node: map<NodeId, Amount>, d: int, found: seq<DomainSummary>, s: DomainSummary)
    requires FoundBelow(topo, node, d, found) && d >= 0 && s.domain == d && Summarises(topo, node, s)
    ensures FoundBelow(topo, node, d + 1, found + [s])
  {
    hide Summarises;
    var all := found + [s];
    assert all[|found|] == s && forall i :: 0 <= i < |found| ==> all[i] == found[i];
    forall c | 0 <= c < d + 1 && topo.NodesInDomain(c) != [] ensures exists i :: 0 <= i < |all| && all[i].domain == c {
      if c < d {
        var i :| 0 <= i < |found| && found[i].domain == c;
        assert all[i].domain == c;
      }
    }
  }

  method BuildDomainSummaries(sub: SubstrateNetwork, numDomains: nat) returns (ss: seq<DomainSummary>)
    requires sub.Valid() && sub.NonNegative()
    ensures ValidSummaries(sub.topo, sub.node, numDomains, ss)
  {
    hide Topology.Valid, Summarises, Earlier, Sort;
    var found: seq<DomainSummary> := [];
    var d := 0;
    while d < numDomains
      invariant 0 <= d <= numDomains && FoundBelow(sub.topo, sub.node, d, found)
    {
      if sub.topo.NodesInDomain(d) != [] {
        var s := Summarise(sub, d);
        FoundNext(sub.topo, sub.node, d, found, s);
        found := found + [s];
      }
      d := d + 1;
    }
    ss := Sort(found, Canonical);
    SortInOrder(found, Canonical);
    SortedSummaries(sub.topo, sub.node, numDomains, found);
    CanonicalMeans(ss);
  }

  lemma CanonicalMeans(ss: seq<DomainSummary>)
    requires InOrder(ss, Canonical)
    ensures forall i, j :: 0 <= i < j < |ss| ==>
              || Earlier(ss[i].dominant, ss[j].dominant)
              || (ss[i].dominant == ss[j].dominant && ss[i].domain <= ss[j].domain)
  {
    assert forall i, j :: 0 <= i < j < |ss| ==> Canonical(ss[i], ss[j]);
  }

  lemma SortedSummaries(topo: Topology, node: map<NodeId, Amount>, d: int, found: seq<DomainSummary>)
    requires FoundBelow(topo, node, d, found)
    ensures FoundBelow(topo, node, d, Sort(found, Canonical))
  {
    hide Summarises, Sort;
    var ss := Sort(found, Canonical);
    SortedDomainsDistinct(found);
    forall i | 0 <= i < |ss| ensures 0 <= ss[i].domain < d && Summarises(topo, node, ss[i]) {
      assert ss[i] in found;
    }
    forall c | 0 <= c < d && topo.NodesInDomain(c) != [] ensures exists i :: 0 <= i < |ss| && ss[i].domain == c {
      var i :| 0 <= i < |found| && found[i].domain == c;
      assert found[i] in ss;
    }
  }

  ghost predicate DistinctDomains(ss: seq<DomainSummary>) {
    forall i, j :: 0 <= i < j < |ss| ==> ss[i].domain != ss[j].domain
  }

  lemma {:induction false} SortedDomainsDistinct(found: seq<DomainSummary>)
    requires DistinctDomains(found)
    ensures DistinctDomains(Sort(found, Canonical))
  {
    if found != [] {
      var front, x := found[..|found| - 1], found[|found| - 1];
      SortedDomainsDistinct(front);
      var s := Sort(front, Canonical);
      forall j | 0 <= j < |s| ensures s[j].domain != x.domain {
        assert s[j] in front;
      }
    }
  }

  /** The reported pair is one real node of the tier: covering it means a node covers it. */
  lemma ReportedNodeExists(topo: Topology, node: map<NodeId, Amount>, s: DomainSummary, t: Tier, demand: Amount)
    returns (n: NodeId)
    requires topo.Valid() && node.Keys == topo.attr.Keys && Summarises(topo, node, s)
    requires t in s.supported && s.tierMaxNode.Get(t).Covers(demand)
    ensures n in topo.attr && topo.attr[n].domain == s.domain && topo.attr[n].tier == t && node[n].Covers(demand)
  {
    var nodes := topo.NodesInDomain(s.domain);
    DomainNodesKnown(topo, s.domain);
    OfTierMembers(topo, nodes, t);
    var m :| m in nodes && m in topo.attr && topo.attr[m].tier == t;
    assert m in OfTier(topo, nodes, t);
    assert BestFit(topo, nodes, node, t, s.tierMaxNode.Get(t));
    n :| n in OfTier(topo, nodes, t) && n in node && node[n] == s.tierMaxNode.Get(t);
  }

  lemma {:induction false} OfTierMembers(topo: Topology, nodes: seq<NodeId>, t: Tier)
    ensures forall n :: n in OfTier(topo, nodes, t) <==> n in nodes && n in topo.attr && topo.attr[n].tier == t
  {
    if nodes != [] {
      OfTierMembers(topo, nodes[..|nodes| - 1], t);
      assert nodes == nodes[..|nodes| - 1] + [nodes[|nodes| - 1]];
    }
  }

  ghost predicate AddsUp(topo: Topology, nodes: seq<NodeId>, node: map<NodeId, Amount>) {
    Total(nodes, node) == Total(OfTier(topo, nodes, Edge), node)
                          .Plus(Total(OfTier(topo, nodes, RegionalCloud), node))
                          .Plus(Total(OfTier(topo, nodes, CentralCloud), node))
  }

  /** The tier residuals of a domain add up to its aggregate residual. */
  lemma {:induction false} TiersAddUp(topo: Topology, nodes: seq<NodeId>, i: nat, node: map<NodeId, Amount>)
    requires i <= |nodes| && forall n :: n in nodes ==> n in topo.attr && n in node
    ensures AddsUp(topo, nodes[..i], node)
  {
    hide Total, OfTier;
    if i == 0 {
      NothingAddsUp(topo, nodes, node);
    } else {
      var n := nodes[i - 1];
      TiersAddUp(topo, nodes, i - 1, node);
      assert n in nodes && nodes[..i] == nodes[..i - 1] + [n];
      TierShare(topo, nodes, i - 1, node, Edge);
      TierShare(topo, nodes, i - 1, node, RegionalCloud);
      TierShare(topo, nodes, i - 1, node, CentralCloud);
      TotalLast(nodes[..i - 1], n, node);
    }
  }

  lemma NothingAddsUp(topo: Topology, nodes: seq<NodeId>, node: map<NodeId, Amount>)
    ensures AddsUp(topo, nodes[..0], node)
  {}

  /** In every summary the three tier residuals sum to the domain residual. */
  lemma SummaryAddsUp(topo: Topology, node: map<NodeId, Amount>, s: DomainSummary)
    requires topo.Valid() && node.Keys == topo.attr.Keys && Summarises(topo, node, s)
    ensures s.residual == s.tierResidual.edge.Plus(s.tierResidual.regional).Plus(s.tierResidual.central)
  {
    DomainNodesKnown(topo, s.domain);
    SummaryTotals(topo, node, s);
    hide Topology.Valid, Summarises, Total, OfTier, Topology.NodesInDomain;
    var nodes := topo.NodesInDomain(s.domain);
    assert nodes[..|nodes|] == nodes;
    TiersAddUp(topo, nodes, |nodes|, node);
  }

  lemma SummaryTotals(topo: Topology, node: map<NodeId, Amount>, s: DomainSummary)
    requires Summarises(topo, node, s)
    ensures var nodes := topo.NodesInDomain(s.domain);
            && s.residual == Total(nodes, node)
            && s.tierResidual.edge == Total(OfTier(topo, nodes, Edge), node)
            && s.tierResidual.regional == Total(OfTier(topo, nodes, RegionalCloud), node)
            && s.tierResidual.central == Total(OfTier(topo, nodes, CentralCloud), node)
  {
    hide Total, OfTier, BestFit, Dominant;
    assert s.tierResidual.Get(Edge) == s.tierResidual.edge && s.tierResidual.Get(RegionalCloud)
        == s.tierResidual.regional
        && s.tierResidual.Get(CentralCloud) == s.tierResidual.central;
  }

  lemma TierShare(topo: Topology, nodes: seq<NodeId>, i: nat, node: map<NodeId, Amount>, t: Tier)
    requires i < |nodes| && nodes[i] in topo.attr && nodes[i] in node
    ensures Total(OfTier(topo, nodes[..i + 1], t), node)
         == Total(OfTier(topo, nodes[..i], t), node).Plus(if topo.attr[nodes[i]].tier == t then node[nodes[i]]
                                                          else ZERO)
  {
    OfTierNext(topo, nodes, i, t);
    TotalLast(OfTier(topo, nodes[..i], t), nodes[i], node);
  }
}
