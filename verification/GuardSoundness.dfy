/** What the h^m guard is worth to the actors: when permitted sets are whole tiers, a partition
    the guard admits and that gives each domain one VNF is never refused by greedy actors. */
module GuardSoundness {
  import opened Types
  import opened Ledger
  import opened Routing
  import opened Actors
  import opened Fragments
  import opened ChainOrder
  import opened Dispatch
  import opened DemandOrder
  import opened Observation
  import opened Admissibility
  import GreedyActor

  /** Within the domain, a permitted set that contains with a node every node of its tier. */
  ghost predicate WholeTiersIn(topo: Topology, v: Vnf, d: DomainId) {
    forall m, n :: m in v.permitted && m in topo.attr && n in topo.attr && topo.DomainOf(m) == topo.DomainOf(n) == d
                   && topo.attr[n].tier == topo.attr[m].tier ==>
      n in v.permitted
  }

  /** The guard's yes to one VNF in the summarised domain. */
  ghost predicate AdmittedTo(topo: Topology, s: DomainSummary, v: Vnf) {
    View(topo, [s], [v]).Admissible(0, 0)
  }

  /** What the actor asks: some node of the domain fits. */
  ghost predicate HasAFit(topo: Topology, node: map<NodeId, Amount>, v: Vnf, d: DomainId) {
    exists n :: n in topo.NodesInDomain(d) && GreedyActor.Fits(node, v, n)
  }

  lemma AdmissibleIsAdmitted(v: View, k: nat, m: nat)
    requires k < |v.vnfs| && m < |v.summaries| && v.Admissible(k, m)
    ensures AdmittedTo(v.topo, v.summaries[m], v.vnfs[k])
  {
    var one := View(v.topo, [v.summaries[m]], [v.vnfs[k]]);
    assert one.TiersFor(0, 0) == v.TiersFor(k, m);
  }

  /** A tier the guard counted has a permitted node in the domain. */
  lemma PermittedOfTier(topo: Topology, s: DomainSummary, v: Vnf, t: Tier) returns (p: NodeId)
    requires topo.Valid() && t in View(topo, [s], [v]).TiersFor(0, 0)
    ensures p in v.permitted && p in topo.attr && topo.DomainOf(p) == s.domain && topo.attr[p].tier == t
    ensures p in topo.NodesInDomain(s.domain)
  {
    p :| p in v.permitted && p in topo.order && p in topo.attr && topo.DomainOf(p) == s.domain
          && topo.attr[p].tier == t;
  }

  /** The guard's yes comes with a node: it is in the domain, permitted, and big enough. */
  lemma AdmissibleHasANode(topo: Topology, node: map<NodeId, Amount>, s: DomainSummary, v: Vnf) returns (n: NodeId)
    requires topo.Valid() && node.Keys == topo.attr.Keys && Summarises(topo, node, s)
    requires AdmittedTo(topo, s, v) && WholeTiersIn(topo, v, s.domain)
    ensures n in topo.NodesInDomain(s.domain) && GreedyActor.Fits(node, v, n)
  {
    var one := View(topo, [s], [v]);
    var t :| t in one.TiersFor(0, 0) && s.tierMaxNode.Get(t).Covers(v.demand);
    var p := PermittedOfTier(topo, s, v, t);
    n := ReportedNodeExists(topo, node, s, t, v.demand);
  }

  /** A VNF that asks for nothing fits wherever it may sit. */
  lemma NothingFitsAnywhere(topo: Topology, node: map<NodeId, Amount>, s: DomainSummary, v: Vnf) returns (n: NodeId)
    requires topo.Valid() && node.Keys == topo.attr.Keys && NodesNonNegative(node)
    requires AdmittedTo(topo, s, v) && v.demand == ZERO
    ensures n in topo.NodesInDomain(s.domain) && GreedyActor.Fits(node, v, n)
  {
    var one := View(topo, [s], [v]);
    var t :| t in one.TiersFor(0, 0);
    n := PermittedOfTier(topo, s, v, t);
  }

  /** Residuals at which only node n has room. */
  function OnlyRoom(topo: Topology, n: NodeId, room: Amount): map<NodeId, Amount> {
    map m | m in topo.attr :: if m == n then room else ZERO
  }

  function OnlyRoomSummary(topo: Topology, d: DomainId, n: NodeId, room: Amount): DomainSummary
    requires n in topo.attr
  {
    var nodes, node := topo.NodesInDomain(d), OnlyRoom(topo, n, room);
    DomainSummary(d, DominantTier(topo, nodes), Total(nodes, node), Total(nodes, Capacities(topo)),
                  TiersOf(topo, nodes),
                  PerTier(Total(OfTier(topo, nodes, Edge), node), Total(OfTier(topo, nodes, RegionalCloud), node),
                          Total(OfTier(topo, nodes, CentralCloud), node)),
                  Everywhere(ZERO).Set(topo.attr[n].tier, room))
  }

  lemma OnlyRoomBest(topo: Topology, nodes: seq<NodeId>, n: NodeId, room: Amount, t: Tier)
    requires (forall m :: m in nodes ==> m in topo.attr) && n in nodes && Fit(room) >= Fit(ZERO)
    ensures BestFit(topo, nodes, OnlyRoom(topo, n, room), t, if t == topo.attr[n].tier then room else ZERO)
  {
    hide Fit, OfTier;
    OfTierMembers(topo, nodes, t);
    var mine, node := OfTier(topo, nodes, t), OnlyRoom(topo, n, room);
    if t == topo.attr[n].tier {
      assert n in mine && node[n] == room;
    } else if mine != [] {
      assert mine[0] in mine && node[mine[0]] == ZERO;
    }
  }

  lemma OnlyRoomSummarised(topo: Topology, d: DomainId, n: NodeId, room: Amount)
    requires topo.Valid() && n in topo.attr && topo.DomainOf(n) == d && room.cpu > 0.0 && room.ram > 0.0
    ensures Summarises(topo, OnlyRoom(topo, n, room), OnlyRoomSummary(topo, d, n, room))
  {
    var nodes, node, s := topo.NodesInDomain(d), OnlyRoom(topo, n, room), OnlyRoomSummary(topo, d, n, room);
    assert n in nodes && Fit(room) >= Fit(ZERO);
    DomainNodesKnown(topo, d);
    hide OfTier, Total, Topology.NodesInDomain, Topology.Valid, Topology.DomainOf, DominantTier, Dominant, BestFit,
         OnlyRoom, Fit, Capacities, TiersOf;
    forall t: Tier ensures BestFit(topo, nodes, node, t, s.tierMaxNode.Get(t)) {
      OnlyRoomBest(topo, nodes, n, room, t);
    }
  }

  /** With a tier of the domain permitted only in part, room on a node that is not permitted makes
      the yes hollow. */
  lemma PartialTierIsHollow(topo: Topology, v: Vnf, m: NodeId,
                            n: NodeId) returns (node: map<NodeId, Amount>, s: DomainSummary)
    requires topo.Valid() && m in v.permitted && m in topo.attr && n in topo.attr && n !in v.permitted
    requires topo.DomainOf(m) == topo.DomainOf(n) && topo.attr[m].tier == topo.attr[n].tier
    requires v.demand.Covers(ZERO) && v.demand != ZERO
    ensures node.Keys == topo.attr.Keys && NodesNonNegative(node) && Summarises(topo, node, s)
    ensures s.domain == topo.DomainOf(m) && AdmittedTo(topo, s, v) && !HasAFit(topo, node, v, s.domain)
  {
    var d, room := topo.DomainOf(m), v.demand.Plus(Amount(1.0, 1.0));
    node, s := OnlyRoom(topo, n, room), OnlyRoomSummary(topo, d, n, room);
    assert NodesNonNegative(node) && s.domain == d;
    hide Summarises, Topology.NodesInDomain, Topology.Valid, OnlyRoom, OnlyRoomSummary, HasAFit, AdmittedTo;
    OnlyRoomSummarised(topo, d, n, room);
    HollowYes(topo, v, m, n, room);
    HollowHost(topo, v, m, n);
  }

  lemma HollowYes(topo: Topology, v: Vnf, m: NodeId, n: NodeId, room: Amount)
    requires topo.Valid() && m in v.permitted && m in topo.attr && n in topo.attr && room.Covers(v.demand)
    requires topo.DomainOf(m) == topo.DomainOf(n) && topo.attr[m].tier == topo.attr[n].tier
    ensures AdmittedTo(topo, OnlyRoomSummary(topo, topo.DomainOf(m), n, room), v)
  {
    hide Total, OfTier, Topology.NodesInDomain, DominantTier, TiersOf;
    var one := View(topo, [OnlyRoomSummary(topo, topo.DomainOf(m), n, room)], [v]);
    assert topo.attr[m].tier in one.TiersFor(0, 0);
  }

  lemma HollowHost(topo: Topology, v: Vnf, m: NodeId, n: NodeId)
    requires m in v.permitted && n in topo.attr && n !in v.permitted && v.demand.Covers(ZERO) && v.demand != ZERO
    ensures !HasAFit(topo, OnlyRoom(topo, n, v.demand.Plus(Amount(1.0, 1.0))), v, topo.DomainOf(m))
  {}

  /** Exactly when the guard's yes can be trusted: the domain's permitted tiers are whole, or the
      VNF asks for nothing. */
  lemma YesIsSoundIff(topo: Topology, v: Vnf, d: DomainId)
    requires topo.Valid() && v.demand.Covers(ZERO)
    ensures WholeTiersIn(topo, v, d) || v.demand == ZERO <==> YesIsSound(topo, v, d)
  {
    hide Topology.Valid, Topology.NodesInDomain;
    if WholeTiersIn(topo, v, d) || v.demand == ZERO {
      forall node, s | SummaryOf(topo, node, s, d) && AdmittedTo(topo, s, v) ensures HasAFit(topo, node, v, d) {
        if v.demand == ZERO {
          var n := NothingFitsAnywhere(topo, node, s, v);
        } else {
          var n := AdmissibleHasANode(topo, node, s, v);
        }
      }
    } else {
      var m, n :| m in v.permitted && m in topo.attr && n in topo.attr && topo.DomainOf(m) == topo.DomainOf(n) == d
                  && topo.attr[n].tier == topo.attr[m].tier && n !in v.permitted;
      var node, s := PartialTierIsHollow(topo, v, m, n);
      assert SummaryOf(topo, node, s, d);
    }
  }

  ghost predicate SummaryOf(topo: Topology, node: map<NodeId, Amount>, s: DomainSummary, d: DomainId) {
    node.Keys == topo.attr.Keys && NodesNonNegative(node) && s.domain == d && Summarises(topo, node, s)
  }

  /** In every state a yes comes with a fitting node. */
  ghost predicate YesIsSound(topo: Topology, v: Vnf, d: DomainId) {
    forall node, s :: SummaryOf(topo, node, s, d) && AdmittedTo(topo, s, v) ==> HasAFit(topo, node, v, d)
  }

  /** In this state a no is final: no VNF the guard refuses, and that lists its nodes, fits. */
  ghost predicate NoIsFinal(topo: Topology, node: map<NodeId, Amount>, s: DomainSummary) {
    forall v: Vnf :: v.demand.Covers(ZERO) && v.permitted != [] && HasAFit(topo, node, v, s.domain) ==>
          AdmittedTo(topo, s, v)
  }

  /** Each tier's reported pair is at least what any node of the tier has left. */
  ghost predicate Dominates(topo: Topology, node: map<NodeId, Amount>, s: DomainSummary) {
    forall n :: n in topo.NodesInDomain(s.domain) && n in topo.attr && n in node ==>
      s.tierMaxNode.Get(topo.attr[n].tier).Covers(node[n])
  }

  /** Exactly when the guard's no can be trusted. */
  lemma NoIsFinalIff(topo: Topology, node: map<NodeId, Amount>, s: DomainSummary)
    requires topo.Valid() && node.Keys == topo.attr.Keys && NodesNonNegative(node)
    ensures NoIsFinal(topo, node, s) <==> Dominates(topo, node, s)
  {
    DomainNodesKnown(topo, s.domain);
    hide Topology.Valid, Topology.NodesInDomain, AdmittedTo, HasAFit;
    if NoIsFinal(topo, node, s) {
      forall n | n in topo.NodesInDomain(s.domain) ensures s.tierMaxNode.Get(topo.attr[n].tier).Covers(node[n]) {
        AskForAll(topo, node, s, n);
      }
    } else {
      var v: Vnf :| v.demand.Covers(ZERO) && v.permitted != [] && HasAFit(topo, node, v, s.domain)
                    && !AdmittedTo(topo, s, v);
      var n := UnseenFit(topo, node, s, v);
      assert !s.tierMaxNode.Get(topo.attr[n].tier).Covers(node[n]);
    }
  }

  /** A VNF that asks for all that one node has left is admitted only when its tier's pair covers
      that. */
  lemma AskForAll(topo: Topology, node: map<NodeId, Amount>, s: DomainSummary, n: NodeId)
    requires topo.Valid() && NodesNonNegative(node) && NoIsFinal(topo, node, s)
    requires n in topo.NodesInDomain(s.domain) && n in topo.attr && n in node
    ensures s.tierMaxNode.Get(topo.attr[n].tier).Covers(node[n])
  {
    hide Topology.Valid, Topology.NodesInDomain;
    var v := Vnf(0, 0, node[n], [n], 0.0, 0.0);
    assert GreedyActor.Fits(node, v, n);
    assert AdmittedTo(topo, s, v);
  }

  /** A refused VNF that fits on some node is bigger than what that node's tier reports. */
  lemma UnseenFit(topo: Topology, node: map<NodeId, Amount>, s: DomainSummary, v: Vnf) returns (n: NodeId)
    requires topo.Valid() && node.Keys == topo.attr.Keys
    requires v.permitted != [] && HasAFit(topo, node, v, s.domain) && !AdmittedTo(topo, s, v)
    ensures n in topo.NodesInDomain(s.domain) && n in node && node[n].Covers(v.demand)
    ensures !s.tierMaxNode.Get(topo.attr[n].tier).Covers(v.demand)
  {
    hide Topology.NodesInDomain;
    n :| n in topo.NodesInDomain(s.domain) && GreedyActor.Fits(node, v, n);
    assert topo.attr[n].tier in View(topo, [s], [v]).TiersFor(0, 0);
  }

  /** Two edge nodes in one domain. */
  function TwoNodes(): Topology {
    var attr := NodeAttr(0, Edge, Amount(40.0, 40.0), 0.0);
    Topology(map[0 := attr, 1 := attr], [0, 1], [], map[], (allowed, s, t) => [])
  }

  function TwoNodeSummary(a: Amount, b: Amount): DomainSummary {
    DomainSummary(0, Edge, a.Plus(b), Amount(80.0, 80.0), {Edge}, PerTier(a.Plus(b), ZERO, ZERO),
                  PerTier(a, ZERO, ZERO))
  }

  lemma TwoNodesListed()
    ensures TwoNodes().NodesInDomain(0) == [0, 1]
    ensures forall t: Tier :: OfTier(TwoNodes(), [0, 1], t) == if t == Edge then [0, 1] else []
  {
    var topo := TwoNodes();
    assert topo.FilterDomain([], 0) == [] && topo.FilterDomain([1], 0) == [1];
    assert [0, 1][1..] == [1] && [1][1..] == [];
    assert [0, 1][..1] == [0] && [0][..0] == [];
    forall t: Tier ensures OfTier(topo, [0, 1], t) == if t == Edge then [0, 1] else [] {
      assert OfTier(topo, [0], t) == if t == Edge then [0] else [];
    }
  }

  lemma TwoNodesValid()
    ensures TwoNodes().Valid()
  {}

  lemma TotalOfTwo(amount: map<NodeId, Amount>)
    requires 0 in amount && 1 in amount
    ensures Total([0, 1], amount) == amount[0].Plus(amount[1])
  {
    assert [0, 1][..1] == [0] && [0][..0] == [];
    assert Total([0], amount) == amount[0];
  }

  lemma TwoNodesSummarised(a: Amount, b: Amount)
    requires Fit(a) >= Fit(b)
    ensures Summarises(TwoNodes(), map[0 := a, 1 := b], TwoNodeSummary(a, b))
  {
    hide Fit;
    var topo, node, s := TwoNodes(), map[0 := a, 1 := b], TwoNodeSummary(a, b);
    TwoNodesListed();
    TotalOfTwo(node);
    TotalOfTwo(Capacities(topo));
    var nodes: seq<NodeId> := [0, 1];
    assert TiersOf(topo, nodes) == {Edge} by {
      assert 0 in nodes && topo.attr[0].tier == Edge;
    }
    assert Total([], node) == ZERO;
    hide OfTier, Total, TwoNodes, Capacities;
    forall t: Tier ensures BestFit(topo, nodes, node, t, s.tierMaxNode.Get(t)) {
      assert 0 in nodes && node[0] == a;
    }
  }

  /** Without whole tiers the yes can be hollow: the reported node need not be permitted. */
  lemma AdmissibleCanBeHollow() returns (v: View, node: map<NodeId, Amount>)
    ensures v.topo.Valid() && node.Keys == v.topo.attr.Keys && |v.vnfs| == |v.summaries| == 1
    ensures Summarises(v.topo, node, v.summaries[0]) && v.Admissible(0, 0)
    ensures forall n :: !GreedyActor.Fits(node, v.vnfs[0], n)
  {
    var big, small := Amount(8.0, 8.0), Amount(1.0, 1.0);
    node := map[0 := big, 1 := small];
    v := View(TwoNodes(), [TwoNodeSummary(big, small)], [Vnf(0, 0, Amount(2.0, 2.0), [1], 1.0, 1.0)]);
    TwoNodesSummarised(big, small);
    TwoNodesListed();
    TwoNodesValid();
    hide Summarises, Fit, Topology.NodesInDomain, Topology.Valid;
    assert 1 in v.topo.order && v.topo.attr[1].tier in v.TiersFor(0, 0);
  }

  /** And the no is not final: the guard asks one node per tier, and another may fit. */
  lemma GuardIsNotNecessary() returns (v: View, node: map<NodeId, Amount>)
    ensures v.topo.Valid() && node.Keys == v.topo.attr.Keys && |v.vnfs| == |v.summaries| == 1
    ensures Summarises(v.topo, node, v.summaries[0]) && WholeTiersIn(v.topo, v.vnfs[0], 0) && !v.Admissible(0, 0)
    ensures 1 in v.topo.NodesInDomain(0) && GreedyActor.Fits(node, v.vnfs[0], 1)
  {
    var balanced, tall := Amount(8.0, 16.0), Amount(4.0, 32.0);
    node := map[0 := balanced, 1 := tall];
    v := View(TwoNodes(), [TwoNodeSummary(balanced, tall)], [Vnf(0, 0, Amount(1.0, 20.0), [0, 1], 1.0, 1.0)]);
    TwoNodesSummarised(balanced, tall);
    TwoNodesListed();
    TwoNodesValid();
    hide Summarises, Topology.NodesInDomain, Fit, Topology.Valid;
    forall t | t in v.TiersFor(0, 0) ensures !v.summaries[0].tierMaxNode.Get(t).Covers(v.vnfs[0].demand) {
      assert t == Edge;
    }
  }

  lemma SingletonSorted(v: Vnf)
    ensures Sorted([v]) == [v]
  {
    assert [v][..0] == [];
  }

  /** A fragment of one VNF without flows is refused only when no node of the domain fits. */
  lemma SingleVnfNeverRefused(topo: Topology, frag: Fragment, node: map<NodeId, Amount>, bw: seq<real>, k: nat,
                              sel: Selector, n: NodeId)
    requires frag.vnfs != [] && frag.vnfs == [frag.vnfs[0]] && frag.flows == []
    requires n in topo.NodesInDomain(frag.domain) && GreedyActor.Fits(node, frag.vnfs[0], n)
    ensures !GreedyActor.RefusalJustified(topo, frag, node, bw, k, sel)
  {
    SingletonSorted(frag.vnfs[0]);
    var nodes, vnfs := topo.NodesInDomain(frag.domain), Sorted(frag.vnfs);
    forall i: nat, at ensures !GreedyActor.PlacementStuck(topo, node, frag, nodes, vnfs, i, at) {
      assert vnfs[..0] == [] && After(node, vnfs[..0], at) == node;
    }
  }

  /** A domain used at one position only gets that VNF and no flow. */
  lemma LoneFragment(req: Request, tiers: seq<Tier>, partition: seq<DomainId>, k: nat)
    requires req.IsChain() && |req.vnfs| == |partition| == |tiers| && k < |partition|
    requires forall j :: 0 <= j < |partition| && partition[j] == partition[k] ==> j == k
    ensures FragmentOf(req, tiers, partition, partition[k]).vnfs == [req.vnfs[k]]
    ensures FragmentOf(req, tiers, partition, partition[k]).flows == []
  {
    var d := partition[k];
    var mine, flows := VnfsOf(req.vnfs, partition, d), FlowsOf(req.flows, partition, d);
    VnfsOfMembers(req.vnfs, partition, d);
    VnfsOfDistinct(req.vnfs, partition, d);
    OnlyOne(mine, req.vnfs[k]);
    if flows != [] {
      var f := SomeFlow(flows);
      FlowInside(req.flows, partition, d, f);
      assert false;
    }
  }

  lemma OnlyOne(mine: seq<Vnf>, x: Vnf)
    requires DistinctIds(mine) && x in mine && forall v :: v in mine ==> v == x
    ensures mine == [x]
  {
    assert forall j :: 0 <= j < |mine| ==> mine[j] in mine;
    assert |mine| < 2 || mine[0].id != mine[1].id;
  }

  ghost predicate OneEach(idx: seq<nat>) {
    forall i, j :: 0 <= i < j < |idx| ==> idx[i] != idx[j]
  }

  /** Across the layers: admitted by the guard, one VNF per domain, whole-tier permissions and
      greedy actors everywhere means that every actor accepts. */
  lemma AdmissibleNeverRefused(v: View, idx: seq<nat>, req: Request, tiers: seq<Tier>, node: map<NodeId, Amount>,
                               bw: seq<real>, actors: map<DomainId, Actor>, rs: seq<Response>)
    requires v.topo.Valid() && v.Valid() && node.Keys == v.topo.attr.Keys
    requires forall m :: 0 <= m < |v.summaries| ==> Summarises(v.topo, node, v.summaries[m])
    requires req.IsChain() && req.vnfs == v.vnfs && |tiers| == |v.vnfs|
    requires Assignment(v, idx) && OneEach(idx) && forall k :: 0 <= k < |idx| ==> v.Admissible(k, idx[k])
    requires forall k :: 0 <= k < |idx| ==> WholeTiersIn(v.topo, v.vnfs[k], v.summaries[idx[k]].domain)
    requires forall d :: d in Domains(DomainIds(v.summaries, idx)) ==> d in actors && actors[d].Greedy?
    requires AllExplained(v.topo, actors, FragmentsOf(req, tiers, DomainIds(v.summaries, idx)), node, bw, rs)
    ensures forall i :: 0 <= i < |rs| ==> rs[i].feasible
  {
    hide Topology.Valid, Summarises, View.Admissible, WholeTiersIn, Explained, FragmentOf, OneEach;
    var partition := DomainIds(v.summaries, idx);
    forall i | 0 <= i < |rs| ensures rs[i].feasible {
      var k :| 0 <= k < |partition| && partition[k] == rs[i].domain;
      LonePositionAccepted(v, idx, k, req, tiers, FragmentOf(req, tiers, partition, partition[k]), actors, node, bw,
                           rs[i]);
    }
  }

  lemma LonePositionAccepted(v: View, idx: seq<nat>, k: nat, req: Request, tiers: seq<Tier>, frag: Fragment,
                             actors: map<DomainId, Actor>, node: map<NodeId, Amount>, bw: seq<real>, r: Response)
    requires v.topo.Valid() && v.Valid() && node.Keys == v.topo.attr.Keys && Assignment(v, idx) && OneEach(idx)
    requires k < |idx| && Summarises(v.topo, node, v.summaries[idx[k]]) && v.Admissible(k, idx[k])
    requires WholeTiersIn(v.topo, v.vnfs[k], v.summaries[idx[k]].domain)
    requires req.IsChain() && req.vnfs == v.vnfs && |tiers| == |v.vnfs|
    requires frag == FragmentOf(req, tiers, DomainIds(v.summaries, idx), v.summaries[idx[k]].domain)
    requires r.domain == v.summaries[idx[k]].domain && r.domain in actors && actors[r.domain].Greedy?
    requires Explained(v.topo, actors, frag, node, bw, r)
    ensures r.feasible
  {
    hide Topology.Valid, Summarises, View.Admissible, WholeTiersIn, Explained, AdmittedTo;
    LoneFragment(req, tiers, DomainIds(v.summaries, idx), k);
    AdmissibleIsAdmitted(v, k, idx[k]);
    LoneVnfAccepted(v.topo, v.summaries[idx[k]], v.vnfs[k], frag, actors, node, bw, r);
  }

  lemma LoneVnfAccepted(topo: Topology, s: DomainSummary, v: Vnf, frag: Fragment, actors: map<DomainId, Actor>,
                        node: map<NodeId, Amount>, bw: seq<real>, r: Response)
    requires topo.Valid() && node.Keys == topo.attr.Keys && Summarises(topo, node, s)
    requires AdmittedTo(topo, s, v) && WholeTiersIn(topo, v, s.domain)
    requires frag.vnfs == [v] && frag.flows == [] && frag.domain == s.domain
    requires r.domain == s.domain && s.domain in actors && actors[s.domain].Greedy?
    requires Explained(topo, actors, frag, node, bw, r)
    ensures r.feasible
  {
    hide Topology.Valid, Summarises, WholeTiersIn, GreedyActor.RefusalJustified, GreedyActor.Fits, AdmittedTo;
    if !r.feasible {
      var n := AdmissibleHasANode(topo, node, s, v);
      SingleVnfNeverRefused(topo, frag, node, bw, actors[s.domain].kPaths, actors[s.domain].selector, n);
      assert false;
    }
  }
}
