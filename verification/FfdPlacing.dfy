/** The working state of a first-fit-decreasing run, and its placement phase: running residuals
    are kept beside the substrate, which is never touched. */
module FfdPlacing {
  import opened Types
  import opened OrderedDict
  import opened Ledger
  import opened PlanLedger
  import opened Substrate
  import opened Sorting
  import opened Actors

  /** How candidates of one tier rank: most CPU left now, or least CPU left afterwards. */
  datatype Rule = MostFree | TightestFit

  datatype Rank = Rank(mismatch: nat, left: real, domain: DomainId, node: NodeId)

  predicate RankLe(a: Rank, b: Rank) {
    || a.mismatch < b.mismatch
    || (a.mismatch == b.mismatch
        && (a.left < b.left
            || (a.left == b.left && (a.domain < b.domain || (a.domain == b.domain && a.node <= b.node)))))
  }

  lemma RankIsTotal()
    ensures TotalOrder(RankLe)
  {}

  /** The one tier all permitted nodes share, if any. */
  function RequiredTier(topo: Topology, v: Vnf): Option<Tier> {
    var tiers := set n | n in v.permitted && n in topo.attr :: topo.attr[n].tier;
    if tiers == {Edge} then Some(Edge)
    else if tiers == {RegionalCloud} then Some(RegionalCloud)
    else if tiers == {CentralCloud} then Some(CentralCloud)
    else None
  }

  function RankOf(topo: Topology, v: Vnf, rule: Rule, n: NodeId, free: Amount): Rank
    requires n in topo.attr
  {
    Rank(if RequiredTier(topo, v) == Some(topo.attr[n].tier) then 0 else 1,
         if rule.MostFree? then -free.cpu else free.cpu - v.demand.cpu,
         if rule.MostFree? then topo.attr[n].domain else 0, n)
  }

  /** Residuals as this run sees them. */
  function Effective(node: map<NodeId, Amount>, running: map<NodeId, Amount>): map<NodeId, Amount> {
    map n | n in node :: if n in running then running[n] else node[n]
  }

  function EffectiveBw(topo: Topology, bw: seq<real>, running: map<LinkId, real>): (r: seq<real>)
    ensures |r| == |bw|
  {
    seq(|bw|, e requires 0 <= e < |bw| =>
      if e < |topo.links| && topo.links[e].id in running then running[topo.links[e].id] else bw[e])
  }

  predicate Fits(node: map<NodeId, Amount>, v: Vnf, n: NodeId) {
    n in node && (v.permitted == [] || n in v.permitted) && node[n].Covers(v.demand)
  }

  /** The chosen node fits, and no fitting candidate ranks before it. */
  ghost predicate Chosen(topo: Topology, node: map<NodeId, Amount>, v: Vnf, rule: Rule, nodes: seq<NodeId>, n: NodeId) {
    && n in nodes && n in topo.attr && Fits(node, v, n)
    && forall m :: m in nodes && m in topo.attr && Fits(node, v, m) ==>
         RankLe(RankOf(topo, v, rule, n, node[n]), RankOf(topo, v, rule, m, node[m]))
  }

  // What the choice means.

  /** A candidate the VNF may use, with enough CPU and RAM left. */
  ghost predicate Usable(topo: Topology, node: map<NodeId, Amount>, v: Vnf, nodes: seq<NodeId>, n: NodeId) {
    && n in nodes && n in topo.attr && n in node && (v.permitted == [] || n in v.permitted)
    && node[n].cpu >= v.demand.cpu && node[n].ram >= v.demand.ram
  }

  /** The permitted nodes of the topology all have this tier, and there are some. */
  ghost predicate WantsTier(topo: Topology, v: Vnf, t: Tier) {
    && (exists n :: n in v.permitted && n in topo.attr)
    && forall n :: n in v.permitted && n in topo.attr ==> topo.attr[n].tier == t
  }

  /** m does not beat n: a node of the wanted tier wins over any other; otherwise the node with
      most CPU left wins, then the smaller domain, then the smaller id; for the tightest fit the
      node with least CPU left, then the smaller id. */
  ghost predicate NotBeaten(topo: Topology, node: map<NodeId, Amount>, v: Vnf, rule: Rule, n: NodeId, m: NodeId)
    requires n in topo.attr && m in topo.attr && n in node && m in node
  {
    var here, there := WantsTier(topo, v, topo.attr[n].tier), WantsTier(topo, v, topo.attr[m].tier);
    if here != there then here
    else
      match rule
      case MostFree =>
        || node[n].cpu > node[m].cpu
        || (node[n].cpu == node[m].cpu
            && (topo.attr[n].domain < topo.attr[m].domain || (topo.attr[n].domain == topo.attr[m].domain && n <= m)))
      case TightestFit => node[n].cpu < node[m].cpu || (node[n].cpu == node[m].cpu && n <= m)
  }

  ghost predicate BestNode(topo: Topology, node: map<NodeId, Amount>, v: Vnf, rule: Rule, nodes: seq<NodeId>,
                           n: NodeId)
  {
    && Usable(topo, node, v, nodes, n)
    && forall m :: Usable(topo, node, v, nodes, m) ==> NotBeaten(topo, node, v, rule, n, m)
  }

  lemma RequiredTierMeans(topo: Topology, v: Vnf, t: Tier)
    ensures RequiredTier(topo, v) == Some(t) <==> WantsTier(topo, v, t)
  {
    var tiers := set n | n in v.permitted && n in topo.attr :: topo.attr[n].tier;
    if WantsTier(topo, v, t) {
      var n :| n in v.permitted && n in topo.attr;
      assert topo.attr[n].tier in tiers;
      assert tiers == {t};
    }
    if tiers == {t} {
      assert t in tiers;
      forall n | n in v.permitted && n in topo.attr ensures topo.attr[n].tier == t {
        assert topo.attr[n].tier in tiers;
      }
    }
  }

  lemma RankMeans(topo: Topology, node: map<NodeId, Amount>, v: Vnf, rule: Rule, n: NodeId, m: NodeId)
    requires n in topo.attr && m in topo.attr && n in node && m in node
    ensures RankLe(RankOf(topo, v, rule, n, node[n]), RankOf(topo, v, rule, m, node[m]))
       <==> NotBeaten(topo, node, v, rule, n, m)
  {
    RequiredTierMeans(topo, v, topo.attr[n].tier);
    RequiredTierMeans(topo, v, topo.attr[m].tier);
    hide RequiredTier, WantsTier;
  }

  /** The node chosen is the best one, and there is one exactly when some candidate is usable. */
  lemma ChosenMeans(topo: Topology, node: map<NodeId, Amount>, v: Vnf, rule: Rule, nodes: seq<NodeId>)
    ensures forall n :: Chosen(topo, node, v, rule, nodes, n) <==> BestNode(topo, node, v, rule, nodes, n)
    ensures forall n :: n in nodes && n in topo.attr ==> (Fits(node, v, n) <==> Usable(topo, node, v, nodes, n))
  {
    forall n, m | n in topo.attr && m in topo.attr && n in node && m in node
      ensures RankLe(RankOf(topo, v, rule, n, node[n]), RankOf(topo, v, rule, m, node[m]))
         <==> NotBeaten(topo, node, v, rule, n, m)
    {
      RankMeans(topo, node, v, rule, n, m);
    }
    assert forall n :: n in nodes && n in topo.attr ==> (Fits(node, v, n) <==> Usable(topo, node, v, nodes, n));
    assert forall n :: Fits(node, v, n) ==> n in node;
    hide RankOf, RankLe, NotBeaten, Fits;
  }

  /** Mutable working state of one run. */
  class PlacementState {
    var placements: Dict<VnfId, NodeId>
    var alloc: map<VnfId, Amount>
    var routes: map<FlowKey, seq<LinkId>>
    var bandwidth: Dict<FlowKey, Dict<LinkId, real>>
    var intraBw: real
    var interBw: real
    var resource: real
    var runningNode: map<NodeId, Amount>
    var runningBw: map<LinkId, real>

    constructor ()
      ensures placements == [] && alloc == map[] && routes == map[] && bandwidth == []
      ensures intraBw == interBw == resource == 0.0 && runningNode == map[] && runningBw == map[]
    {
      placements, alloc, routes, bandwidth := [], map[], map[], [];
      intraBw, interBw, resource := 0.0, 0.0, 0.0;
      runningNode, runningBw := map[], map[];
    }

    function AmountAfter(sub: SubstrateNetwork, n: NodeId): Amount
      requires n in sub.node
      reads this, sub
    {
      if n in runningNode then runningNode[n] else sub.node[n]
    }

    function BwAfter(sub: SubstrateNetwork, e: nat): real
      requires e < |sub.bw| && e < |sub.topo.links|
      reads this, sub
    {
      if sub.topo.links[e].id in runningBw then runningBw[sub.topo.links[e].id] else sub.bw[e]
    }

    /** Place a VNF on a node that has `free` left. */
    method Record(v: Vnf, n: NodeId, free: Amount, paid: real)
      modifies this`runningNode, this`placements, this`alloc, this`resource
      ensures runningNode == old(runningNode)[n := free.Minus(v.demand)]
      ensures placements == Put(old(placements), v.id, n) && alloc == old(alloc)[v.id := v.demand] && resource == paid
    {
      runningNode := runningNode[n := free.Minus(v.demand)];
      placements := Put(placements, v.id, n);
      alloc := alloc[v.id := v.demand];
      resource := paid;
    }
  }

  method SelectNode(sub: SubstrateNetwork, v: Vnf, state: PlacementState, rule: Rule, nodes: seq<NodeId>)
    returns (r: Option<NodeId>)
    requires sub.Valid() && forall n :: n in nodes ==> n in sub.node
    ensures var node := Effective(sub.node, state.runningNode);
            && (r.None? <==> forall n :: n in nodes ==> !Fits(node, v, n))
            && (r.Some? ==> Chosen(sub.topo, node, v, rule, nodes, r.value))
            && (r.None? <==> forall n :: !Usable(sub.topo, node, v, nodes, n))
            && (r.Some? ==> BestNode(sub.topo, node, v, rule, nodes, r.value))
  {
    assert forall n :: n in nodes ==> n in sub.topo.attr;
    hide RankLe, RankOf, Topology.Valid, BestNode, Usable;
    ghost var node := Effective(sub.node, state.runningNode);
    ChosenMeans(sub.topo, node, v, rule, nodes);
    UsableIsCandidate(sub.topo, node, v, nodes);
    var cands: seq<Rank> := [];
    var i := 0;
    while i < |nodes|
      invariant 0 <= i <= |nodes| && Listed(sub.topo, node, v, rule, nodes[..i], cands)
    {
      var n := nodes[i];
      ListedNext(sub.topo, node, v, rule, nodes[..i], cands, n);
      assert nodes[..i + 1] == nodes[..i] + [n];
      if (v.permitted == [] || n in v.permitted) && state.AmountAfter(sub, n).Covers(v.demand) {
        cands := cands + [RankOf(sub.topo, v, rule, n, state.AmountAfter(sub, n))];
      }
      i := i + 1;
    }
    assert nodes[..i] == nodes;
    BestCandidate(sub.topo, node, v, rule, nodes, cands);
    r := if cands == [] then None else Some(Sort(cands, RankLe)[0].node);
  }

  lemma UsableIsCandidate(topo: Topology, node: map<NodeId, Amount>, v: Vnf, nodes: seq<NodeId>)
    ensures forall n :: Usable(topo, node, v, nodes, n) ==> n in nodes && n in topo.attr
  {}

  /** The candidate list so far: the ranks of exactly the fitting nodes. */
  ghost predicate Listed(topo: Topology, node: map<NodeId, Amount>, v: Vnf, rule: Rule, nodes: seq<NodeId>,
                             cands: seq<Rank>)
  {
    && (forall n :: n in nodes && n in topo.attr && Fits(node, v, n) ==> RankOf(topo, v, rule, n, node[n]) in cands)
    && forall c :: c in cands ==>
         c.node in nodes && c.node in topo.attr && Fits(node, v, c.node)
               && c == RankOf(topo, v, rule, c.node, node[c.node])
  }

  lemma ListedNext(topo: Topology, node: map<NodeId, Amount>, v: Vnf, rule: Rule, nodes: seq<NodeId>,
                       cands: seq<Rank>, n: NodeId)
    requires Listed(topo, node, v, rule, nodes, cands) && n in topo.attr && n in node
    ensures if Fits(node, v, n)
        then Listed(topo, node, v, rule, nodes + [n], cands + [RankOf(topo, v, rule, n, node[n])])
            else Listed(topo, node, v, rule, nodes + [n], cands)
  {
    hide Fits;
    RankNode(topo, v, rule, n, node[n]);
    hide RankOf;
    assert forall m :: m in nodes + [n] <==> m in nodes || m == n;
  }

  lemma RankNode(topo: Topology, v: Vnf, rule: Rule, n: NodeId, free: Amount)
    requires n in topo.attr
    ensures RankOf(topo, v, rule, n, free).node == n
  {}

  lemma BestCandidate(topo: Topology, node: map<NodeId, Amount>, v: Vnf, rule: Rule, nodes: seq<NodeId>,
                      cands: seq<Rank>)
    requires Listed(topo, node, v, rule, nodes, cands) && forall n :: n in nodes ==> n in topo.attr
    ensures cands == [] <==> forall n :: n in nodes ==> !Fits(node, v, n)
    ensures cands != [] ==> Chosen(topo, node, v, rule, nodes, Sort(cands, RankLe)[0].node)
  {
    RankIsTotal();
    SortInOrder(cands, RankLe);
    hide RankLe, RankOf, Fits, Sort;
    if cands != [] {
      var sorted := Sort(cands, RankLe);
      var best := sorted[0];
      assert best in sorted;
      forall m | m in nodes && m in topo.attr && Fits(node, v, m)
        ensures RankLe(RankOf(topo, v, rule, best.node, node[best.node]), RankOf(topo, v, rule, m, node[m]))
      {
        var j :| 0 <= j < |sorted| && sorted[j] == RankOf(topo, v, rule, m, node[m]);
      }
      assert cands[0] in cands;
    }
  }

  /** One VNF sits where the run recorded it: on a permitted node of the candidate list, with
      exactly its demand allocated. */
  ghost predicate PlacedAs(topo: Topology, nodes: seq<NodeId>, v: Vnf, p: (VnfId, NodeId), alloc: map<VnfId, Amount>) {
    && p.0 == v.id && p.1 in nodes && p.1 in topo.attr && (v.permitted == [] || p.1 in v.permitted)
    && v.id in alloc && alloc[v.id] == v.demand
  }

  /** What is left of every node is its residual minus the demand placed on it, and not below
      zero. */
  ghost predicate NodesLeft(node0: map<NodeId, Amount>, left: map<NodeId, Amount>, placements: Dict<VnfId, NodeId>,
                            alloc: map<VnfId, Amount>)
  {
    && left.Keys == node0.Keys && NodesNonNegative(left)
    && forall n :: n in node0 ==> left[n] == node0[n].Minus(PlacedDemand(placements, alloc, n))
  }

  ghost predicate PlacedFirst(topo: Topology, nodes: seq<NodeId>, vnfs: seq<Vnf>, placements: Dict<VnfId, NodeId>,
                              alloc: map<VnfId, Amount>)
  {
    && |placements| <= |vnfs| && alloc.Keys == Ids(vnfs[..|placements|])
    && forall j :: 0 <= j < |placements| ==> PlacedAs(topo, nodes, vnfs[j], placements[j], alloc)
  }

  lemma {:induction false} PlacedAgrees(placements: Dict<VnfId, NodeId>, a: map<VnfId, Amount>, b: map<VnfId, Amount>,
                                        n: NodeId)
    requires forall j :: 0 <= j < |placements| ==> Share(placements[j], a, n) == Share(placements[j], b, n)
    ensures PlacedDemand(placements, a, n) == PlacedDemand(placements, b, n)
  {
    hide Share;
    if placements != [] {
      PlacedAgrees(placements[..|placements| - 1], a, b, n);
    }
  }

  /** Allocating a VNF that is not placed yet changes no placed demand. */
  lemma FreshAllocation(placements: Dict<VnfId, NodeId>, alloc: map<VnfId, Amount>, v: VnfId, m: NodeId, d: Amount,
                        n: NodeId)
    requires forall j :: 0 <= j < |placements| ==> placements[j].0 != v
    ensures PlacedDemand(placements + [(v, m)], alloc[v := d], n)
         == PlacedDemand(placements, alloc, n).Plus(if m == n then d else ZERO)
  {
    PlacedAgrees(placements, alloc, alloc[v := d], n);
    assert (placements + [(v, m)])[..|placements|] == placements;
  }

  lemma EffectiveNext(node0: map<NodeId, Amount>, running: map<NodeId, Amount>, n: NodeId, x: Amount)
    requires n in node0
    ensures Effective(node0, running[n := x]) == Effective(node0, running)[n := x]
  {}

  lemma PlacedFirstNext(topo: Topology, nodes: seq<NodeId>, vnfs: seq<Vnf>, placements: Dict<VnfId, NodeId>,
                        alloc: map<VnfId, Amount>, n: NodeId)
    requires DistinctIds(vnfs) && |placements| < |vnfs| && PlacedFirst(topo, nodes, vnfs, placements, alloc)
    requires n in nodes && n in topo.attr && (vnfs[|placements|].permitted == [] || n in vnfs[|placements|].permitted)
    ensures var v := vnfs[|placements|];
            PlacedFirst(topo, nodes, vnfs, placements + [(v.id, n)], alloc[v.id := v.demand])
    ensures forall j :: 0 <= j < |placements| ==> placements[j].0 != vnfs[|placements|].id
  {
    var i := |placements|;
    var v := vnfs[i];
    var next := placements + [(v.id, n)];
    assert next[i] == (v.id, n) && forall j :: 0 <= j < i ==> next[j] == placements[j];
    assert forall j :: 0 <= j < i ==> PlacedAs(topo, nodes, vnfs[j], placements[j], alloc) && vnfs[j].id != v.id;
    assert Ids(vnfs[..i + 1]) == Ids(vnfs[..i]) + {v.id} by {
      assert vnfs[..i + 1][i] == v && forall j :: 0 <= j < i ==> vnfs[..i + 1][j] == vnfs[..i][j];
    }
  }

  lemma NodesLeftNext(node0: map<NodeId, Amount>, left: map<NodeId, Amount>, placements: Dict<VnfId, NodeId>,
                      alloc: map<VnfId, Amount>, v: Vnf, n: NodeId)
    requires NodesLeft(node0, left, placements, alloc) && n in left && left[n].Covers(v.demand)
    requires forall j :: 0 <= j < |placements| ==> placements[j].0 != v.id
    ensures NodesLeft(node0, left[n := left[n].Minus(v.demand)], placements + [(v.id, n)], alloc[v.id := v.demand])
  {
    hide PlacedDemand;
    forall m | m in node0
      ensures left[n := left[n].Minus(v.demand)][m]
           == node0[m].Minus(PlacedDemand(placements + [(v.id, n)], alloc[v.id := v.demand], m))
    {
      FreshAllocation(placements, alloc, v.id, n, v.demand, m);
    }
  }

  lemma PutFresh<K, V>(d: Dict<K, V>, k: K, v: V)
    requires forall j :: 0 <= j < |d| ==> d[j].0 != k
    ensures Put(d, k, v) == d + [(k, v)]
  {}

  /** Where the placement phase stands after i VNFs. */
  ghost predicate Placing(topo: Topology, node0: map<NodeId, Amount>, nodes: seq<NodeId>, vnfs: seq<Vnf>, i: nat,
                          placements: Dict<VnfId, NodeId>, alloc: map<VnfId, Amount>, running: map<NodeId, Amount>,
                          resource: real)
  {
    && i <= |vnfs| && |placements| == i && PlacedFirst(topo, nodes, vnfs, placements, alloc)
    && NodesLeft(node0, Effective(node0, running), placements, alloc)
    && resource == ResourceCost(vnfs[..i])
  }

  lemma PlacingNext(topo: Topology, node0: map<NodeId, Amount>, nodes: seq<NodeId>, vnfs: seq<Vnf>, i: nat,
                    placements: Dict<VnfId, NodeId>, alloc: map<VnfId, Amount>, running: map<NodeId, Amount>,
                    resource: real, paid: real, rule: Rule, n: NodeId, free: Amount)
    requires DistinctIds(vnfs) && i < |vnfs| && paid == resource + vnfs[i].demand.cpu + vnfs[i].demand.ram
    requires Placing(topo, node0, nodes, vnfs, i, placements, alloc, running, resource)
    requires Chosen(topo, Effective(node0, running), vnfs[i], rule, nodes, n)
    requires n in node0 && free == if n in running then running[n] else node0[n]
    ensures var v := vnfs[i];
            Placing(topo, node0, nodes, vnfs, i + 1, Put(placements, v.id, n), alloc[v.id := v.demand],
                    running[n := free.Minus(v.demand)], paid)
  {
    hide PlacedFirst, NodesLeft, Chosen, Fits, Effective, ResourceCost, Put;
    var v := vnfs[i];
    ChosenFits(topo, node0, running, v, rule, nodes, n);
    PlacedFirstNext(topo, nodes, vnfs, placements, alloc, n);
    NodesLeftNext(node0, Effective(node0, running), placements, alloc, v, n);
    EffectiveNext(node0, running, n, free.Minus(v.demand));
    PutFresh(placements, v.id, n);
    ResourceNext(vnfs, i);
  }

  // The rule every placement follows, and the only way placing fails.

  /** What is left after some placements. */
  function LeftAfter(node0: map<NodeId, Amount>, placements: Dict<VnfId, NodeId>,
                     alloc: map<VnfId, Amount>): map<NodeId, Amount>
  {
    map n | n in node0 :: node0[n].Minus(PlacedDemand(placements, alloc, n))
  }

  ghost predicate RuleChose(topo: Topology, node0: map<NodeId, Amount>, nodes: seq<NodeId>, rule: Rule, vnfs: seq<Vnf>,
                            placements: Dict<VnfId, NodeId>, alloc: map<VnfId, Amount>, j: int)
  {
    && 0 <= j < |placements| && j < |vnfs|
    && Chosen(topo, LeftAfter(node0, placements[..j], alloc), vnfs[j], rule, nodes, placements[j].1)
  }

  /** Each VNF sits on the node the rule chose, given the placements before it. */
  ghost predicate RulePlaced(topo: Topology, node0: map<NodeId, Amount>, nodes: seq<NodeId>, rule: Rule, vnfs: seq<Vnf>,
                             placements: Dict<VnfId, NodeId>, alloc: map<VnfId, Amount>)
  {
    forall j :: 0 <= j < |placements| ==> RuleChose(topo, node0, nodes, rule, vnfs, placements, alloc, j)
  }

  /** The next VNF fits on no candidate after the placements the rule made. */
  ghost predicate PlacedStuck(topo: Topology, node0: map<NodeId, Amount>, nodes: seq<NodeId>, rule: Rule,
                              vnfs: seq<Vnf>, placements: Dict<VnfId, NodeId>, alloc: map<VnfId, Amount>)
  {
    && |placements| < |vnfs| && PlacedFirst(topo, nodes, vnfs, placements, alloc)
    && RulePlaced(topo, node0, nodes, rule, vnfs, placements, alloc)
    && forall n :: n in nodes ==> !Fits(LeftAfter(node0, placements, alloc), vnfs[|placements|], n)
  }

  lemma LeftIsEffective(node0: map<NodeId, Amount>, left: map<NodeId, Amount>, placements: Dict<VnfId, NodeId>,
                        alloc: map<VnfId, Amount>)
    requires NodesLeft(node0, left, placements, alloc)
    ensures LeftAfter(node0, placements, alloc) == left
  {
    hide PlacedDemand;
  }

  /** Allocating a VNF that is not placed yet changes nothing the earlier choices saw. */
  lemma LeftUnchanged(node0: map<NodeId, Amount>, placements: Dict<VnfId, NodeId>, alloc: map<VnfId, Amount>, v: VnfId,
                      d: Amount)
    requires forall j :: 0 <= j < |placements| ==> placements[j].0 != v
    ensures LeftAfter(node0, placements, alloc[v := d]) == LeftAfter(node0, placements, alloc)
  {
    forall n | n in node0 ensures PlacedDemand(placements, alloc[v := d], n) == PlacedDemand(placements, alloc, n) {
      PlacedAgrees(placements, alloc, alloc[v := d], n);
    }
    hide PlacedDemand;
  }

  lemma RulePlacedNext(topo: Topology, node0: map<NodeId, Amount>, nodes: seq<NodeId>, rule: Rule, vnfs: seq<Vnf>,
                       placements: Dict<VnfId, NodeId>, alloc: map<VnfId, Amount>, left: map<NodeId, Amount>, n: NodeId)
    requires RulePlaced(topo, node0, nodes, rule, vnfs, placements, alloc) && |placements| < |vnfs|
    requires forall j :: 0 <= j < |placements| ==> placements[j].0 != vnfs[|placements|].id
    requires NodesLeft(node0, left, placements, alloc) && Chosen(topo, left, vnfs[|placements|], rule, nodes, n)
    ensures var v := vnfs[|placements|];
            RulePlaced(topo, node0, nodes, rule, vnfs, placements + [(v.id, n)], alloc[v.id := v.demand])
  {
    hide Chosen, PlacedDemand, LeftAfter;
    var i := |placements|;
    var v := vnfs[i];
    var next, after := placements + [(v.id, n)], alloc[v.id := v.demand];
    forall j | 0 <= j < |next| ensures RuleChose(topo, node0, nodes, rule, vnfs, next, after, j) {
      assert next[..j] == placements[..j];
      LeftUnchanged(node0, placements[..j], alloc, v.id, v.demand);
      if j < i {
        assert RuleChose(topo, node0, nodes, rule, vnfs, placements, alloc, j);
      } else {
        assert placements[..i] == placements;
        LeftIsEffective(node0, left, placements, alloc);
      }
    }
  }

  /** Both invariants advance together. */
  lemma PlacingByRule(topo: Topology, node0: map<NodeId, Amount>, nodes: seq<NodeId>, rule: Rule, vnfs: seq<Vnf>,
                      i: nat, placements: Dict<VnfId, NodeId>, alloc: map<VnfId, Amount>, running: map<NodeId, Amount>,
                      resource: real, n: NodeId)
    requires DistinctIds(vnfs) && i < |vnfs|
    requires Placing(topo, node0, nodes, vnfs, i, placements, alloc, running, resource)
    requires RulePlaced(topo, node0, nodes, rule, vnfs, placements, alloc)
    requires Chosen(topo, Effective(node0, running), vnfs[i], rule, nodes, n)
    ensures RulePlaced(topo, node0, nodes, rule, vnfs, Put(placements, vnfs[i].id, n),
                       alloc[vnfs[i].id := vnfs[i].demand])
  {
    hide Chosen, Fits, Effective, ResourceCost, Put, RulePlaced, NodesLeft, PlacedFirst;
    ChosenFits(topo, node0, running, vnfs[i], rule, nodes, n);
    PlacedFirstNext(topo, nodes, vnfs, placements, alloc, n);
    PutFresh(placements, vnfs[i].id, n);
    RulePlacedNext(topo, node0, nodes, rule, vnfs, placements, alloc, Effective(node0, running), n);
  }

  lemma StuckHere(topo: Topology, node0: map<NodeId, Amount>, nodes: seq<NodeId>, rule: Rule, vnfs: seq<Vnf>, i: nat,
                  placements: Dict<VnfId, NodeId>, alloc: map<VnfId, Amount>, running: map<NodeId, Amount>,
                  resource: real)
    requires i < |vnfs| && Placing(topo, node0, nodes, vnfs, i, placements, alloc, running, resource)
    requires RulePlaced(topo, node0, nodes, rule, vnfs, placements, alloc)
    requires forall n :: n in nodes ==> !Fits(Effective(node0, running), vnfs[i], n)
    ensures PlacedStuck(topo, node0, nodes, rule, vnfs, placements, alloc)
  {
    hide Fits, Effective, PlacedDemand;
    LeftIsEffective(node0, Effective(node0, running), placements, alloc);
  }

  // The rule leaves no choice, so a finished placement excludes getting stuck.

  lemma OneChoice(topo: Topology, node: map<NodeId, Amount>, v: Vnf, rule: Rule, nodes: seq<NodeId>, m: NodeId,
                  n: NodeId)
    requires Chosen(topo, node, v, rule, nodes, m) && Chosen(topo, node, v, rule, nodes, n)
    ensures m == n
  {
    hide Fits, RequiredTier;
  }

  lemma {:induction false} OnePlacing(topo: Topology, node0: map<NodeId, Amount>, nodes: seq<NodeId>, rule: Rule,
                                      vnfs: seq<Vnf>, p: Dict<VnfId, NodeId>, a: map<VnfId, Amount>,
                                      q: Dict<VnfId, NodeId>, b: map<VnfId, Amount>, i: nat)
    requires i <= |p| && i <= |q|
    requires PlacedFirst(topo, nodes, vnfs, p, a) && RulePlaced(topo, node0, nodes, rule, vnfs, p, a)
    requires PlacedFirst(topo, nodes, vnfs, q, b) && RulePlaced(topo, node0, nodes, rule, vnfs, q, b)
    ensures p[..i] == q[..i] && LeftAfter(node0, p[..i], a) == LeftAfter(node0, q[..i], b)
  {
    hide Chosen, PlacedDemand, PlacedFirst, RulePlaced;
    if i > 0 {
      var j := i - 1;
      OnePlacing(topo, node0, nodes, rule, vnfs, p, a, q, b, j);
      SameChoice(topo, node0, nodes, rule, vnfs, p, a, q, b, j);
      assert p[..i] == p[..j] + [p[j]] && q[..i] == q[..j] + [q[j]];
    }
    forall n | n in node0 ensures PlacedDemand(p[..i], a, n) == PlacedDemand(p[..i], b, n) {
      SameShares(topo, nodes, vnfs, p, a, q, b, i, n);
    }
  }

  lemma SameChoice(topo: Topology, node0: map<NodeId, Amount>, nodes: seq<NodeId>, rule: Rule, vnfs: seq<Vnf>,
                   p: Dict<VnfId, NodeId>, a: map<VnfId, Amount>, q: Dict<VnfId, NodeId>, b: map<VnfId, Amount>, j: nat)
    requires j < |p| && j < |q| && LeftAfter(node0, p[..j], a) == LeftAfter(node0, q[..j], b)
    requires PlacedFirst(topo, nodes, vnfs, p, a) && RulePlaced(topo, node0, nodes, rule, vnfs, p, a)
    requires PlacedFirst(topo, nodes, vnfs, q, b) && RulePlaced(topo, node0, nodes, rule, vnfs, q, b)
    ensures p[j] == q[j]
  {
    hide Chosen, LeftAfter;
    assert RuleChose(topo, node0, nodes, rule, vnfs, p, a, j) && RuleChose(topo, node0, nodes, rule, vnfs, q, b, j);
    assert PlacedAs(topo, nodes, vnfs[j], p[j], a) && PlacedAs(topo, nodes, vnfs[j], q[j], b);
    OneChoice(topo, LeftAfter(node0, p[..j], a), vnfs[j], rule, nodes, p[j].1, q[j].1);
  }

  lemma SameShares(topo: Topology, nodes: seq<NodeId>, vnfs: seq<Vnf>, p: Dict<VnfId, NodeId>, a: map<VnfId, Amount>,
                   q: Dict<VnfId, NodeId>, b: map<VnfId, Amount>, i: nat, n: NodeId)
    requires i <= |p| && i <= |q| && PlacedFirst(topo, nodes, vnfs, p, a) && PlacedFirst(topo, nodes, vnfs, q, b)
    ensures PlacedDemand(p[..i], a, n) == PlacedDemand(p[..i], b, n)
  {
    hide PlacedDemand;
    forall j | 0 <= j < i ensures Share(p[..i][j], a, n) == Share(p[..i][j], b, n) {
      assert PlacedAs(topo, nodes, vnfs[j], p[j], a) && PlacedAs(topo, nodes, vnfs[j], q[j], b);
    }
    PlacedAgrees(p[..i], a, b, n);
  }

  lemma PlacedNotStuck(topo: Topology, node0: map<NodeId, Amount>, nodes: seq<NodeId>, rule: Rule, vnfs: seq<Vnf>,
                       p: Dict<VnfId, NodeId>, a: map<VnfId, Amount>, q: Dict<VnfId, NodeId>, b: map<VnfId, Amount>)
    requires |p| == |vnfs| && PlacedFirst(topo, nodes, vnfs, p, a) && RulePlaced(topo, node0, nodes, rule, vnfs, p, a)
    ensures !PlacedStuck(topo, node0, nodes, rule, vnfs, q, b)
  {
    hide PlacedFirst, LeftAfter;
    if PlacedStuck(topo, node0, nodes, rule, vnfs, q, b) {
      var i := |q|;
      assert RuleChose(topo, node0, nodes, rule, vnfs, p, a, i);
      assert q[..i] == q;
      OnePlacing(topo, node0, nodes, rule, vnfs, p, a, q, b, i);
    }
  }

  /** Place every VNF in turn on the best candidate, or give up because none fits. */
  method PlaceEach(sub: SubstrateNetwork, vnfs: seq<Vnf>, rule: Rule, nodes: seq<NodeId>, state: PlacementState)
    returns (ok: bool)
    requires sub.Valid() && sub.NonNegative() && DistinctIds(vnfs) && forall n :: n in nodes ==> n in sub.node
    requires state.placements == [] && state.alloc == map[] && state.runningNode == map[] && state.resource == 0.0
    modifies state`placements, state`alloc, state`runningNode, state`resource
    ensures ok ==> Placing(sub.topo, sub.node, nodes, vnfs, |vnfs|, state.placements, state.alloc, state.runningNode,
                           state.resource)
    ensures ok ==> RulePlaced(sub.topo, sub.node, nodes, rule, vnfs, state.placements, state.alloc)
    ensures !ok ==> PlacedStuck(sub.topo, sub.node, nodes, rule, vnfs, state.placements, state.alloc)
  {
    NothingPlacedYet(sub.topo, sub.node, nodes, vnfs);
    hide Topology.Valid, Placing, Chosen, Put, Effective, RulePlaced, PlacedStuck, Fits;
    var i := 0;
    while i < |vnfs|
      invariant 0 <= i <= |vnfs|
      invariant Placing(sub.topo, sub.node, nodes, vnfs, i, state.placements, state.alloc, state.runningNode,
                        state.resource)
      invariant RulePlaced(sub.topo, sub.node, nodes, rule, vnfs, state.placements, state.alloc)
    {
      var v := vnfs[i];
      var choice := SelectNode(sub, v, state, rule, nodes);
      if choice.None? {
        StuckHere(sub.topo, sub.node, nodes, rule, vnfs, i, state.placements, state.alloc, state.runningNode,
                  state.resource);
        return false;
      }
      var n := choice.value;
      PlacingByRule(sub.topo, sub.node, nodes, rule, vnfs, i, state.placements, state.alloc, state.runningNode,
                    state.resource, n);
      var free := state.AmountAfter(sub, n);
      var paid := state.resource + v.demand.cpu + v.demand.ram;
      PlacingNext(sub.topo, sub.node, nodes, vnfs, i, state.placements, state.alloc, state.runningNode, state.resource,
                  paid, rule, n, free);
      state.Record(v, n, free, paid);
      i := i + 1;
    }
    ok := true;
  }

  lemma NothingPlacedYet(topo: Topology, node: map<NodeId, Amount>, nodes: seq<NodeId>, vnfs: seq<Vnf>)
    requires NodesNonNegative(node)
    ensures Placing(topo, node, nodes, vnfs, 0, [], map[], map[], 0.0)
    ensures forall rule :: RulePlaced(topo, node, nodes, rule, vnfs, [], map[])
  {
    assert Effective(node, map[]) == node;
  }

  lemma ChosenFits(topo: Topology, node0: map<NodeId, Amount>, running: map<NodeId, Amount>, v: Vnf, rule: Rule,
                   nodes: seq<NodeId>, n: NodeId)
    requires Chosen(topo, Effective(node0, running), v, rule, nodes, n)
    ensures n in node0 && n in nodes && n in topo.attr && (v.permitted == [] || n in v.permitted)
    ensures n in Effective(node0, running) && Effective(node0, running)[n].Covers(v.demand)
    ensures Effective(node0, running)[n] == if n in running then running[n] else node0[n]
  {}

  /** CPU plus RAM of all VNFs. */
  function ResourceCost(vnfs: seq<Vnf>): real {
    if vnfs == [] then 0.0
    else ResourceCost(vnfs[..|vnfs| - 1]) + vnfs[|vnfs| - 1].demand.cpu + vnfs[|vnfs| - 1].demand.ram
  }

  lemma ResourceNext(vnfs: seq<Vnf>, i: nat)
    requires i < |vnfs|
    ensures ResourceCost(vnfs[..i + 1]) == ResourceCost(vnfs[..i]) + vnfs[i].demand.cpu + vnfs[i].demand.ram
  {
    assert vnfs[..i + 1][..i] == vnfs[..i];
  }
}
