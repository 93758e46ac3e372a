/** A run of the admission transaction that ends in the failed tier-based frame check, with the
    chain's demand still debited. */
module FrameLeak {
  import opened Types
  import opened OrderedDict
  import opened Ledger
  import opened Substrate
  import opened Routing
  import opened RouteRule
  import opened Actors
  import opened ChainOrder
  import opened Fragments
  import opened Dispatch
  import opened DelayAccounting
  import opened Coordinator
  import opened GuardSoundness
  import GreedyActor

  /** One edge node, alone in domain 0. */
  function OneNode(): Topology {
    Topology(map[0 := NodeAttr(0, Edge, Amount(1.0, 1.0), 0.0)], [0], [], map[], (allowed, s, t) => [])
  }

  /** One VNF that may use that node and asks for all of it. */
  function OneVnf(): Request {
    Request(0, 0, [Vnf(0, 0, Amount(1.0, 1.0), [0], 1.0, 1.0)], [], 10.0, 0.0)
  }

  const ANY_SELECTOR := Selector(MinHops, (capacity, residual) => 0.0)

  lemma OneNodeDomain()
    ensures OneNode().Valid() && OneNode().NodesInDomain(0) == [0] && OneNode().AllLinks() == {}
  {
    assert OneNode().FilterDomain([], 0) == [] && [0][1..] == [];
  }

  /** The chain's only fragment. */
  lemma OnlyFragment()
    requires OneVnf().IsChain()
    ensures FragmentsOf(OneVnf(), [CentralCloud], [0]).Keys == {0}
    ensures var frag := FragmentsOf(OneVnf(), [CentralCloud], [0])[0];
            frag.domain == 0 && frag.vnfs == OneVnf().vnfs && frag.flows == []
  {
    LoneFragment(OneVnf(), [CentralCloud], [0], 0);
    assert Domains([0]) == {0};
  }

  /** With no flow there is no route on record. */
  lemma NoFlowsNoRoutes(topo: Topology, allowed: set<nat>, at: map<VnfId, NodeId>, routes: map<FlowKey, seq<LinkId>>,
                        bw: Dict<FlowKey, real>)
    requires AllServed(topo, allowed, [], at, routes, bw)
    ensures bw == [] && ReservationsOf(bw, routes) == []
  {
    FirstKey(bw);
  }

  lemma FirstKey(bw: Dict<FlowKey, real>)
    ensures bw != [] ==> bw[0].0 in Keys(bw)
  {}

  lemma FromOneDomain(rs: seq<Response>, d: DomainId)
    requires AnsweredBy(rs) == {d}
    ensures rs != [] && rs[0].domain == d && (|rs| > 1 ==> rs[1].domain == d)
  {
    assert d in AnsweredBy(rs);
    assert forall i :: 0 <= i < |rs| ==> rs[i].domain in AnsweredBy(rs);
  }

  lemma OnlyResponse(rs: seq<Response>, d: DomainId)
    requires AnsweredBy(rs) == {d} && forall i, j :: 0 <= i < j < |rs| ==> rs[i].domain != rs[j].domain
    ensures |rs| == 1 && rs[0].domain == d
  {
    hide AnsweredBy;
    FromOneDomain(rs, d);
  }

  /** The one actor accepts, at no delay. */
  lemma ActorAccepts(actors: map<DomainId, Actor>, node: map<NodeId, Amount>, a: Attempt)
    requires node == map[0 := Amount(1.0, 1.0)] && actors == map[0 := Greedy(1, ANY_SELECTOR)]
    requires OneVnf().IsChain()
    requires Attempted(OneNode(), OneVnf(), [CentralCloud], [0], actors, ANY_SELECTOR, node, [], a)
    ensures |a.responses| == 1 && a.responses[0].feasible && a.responses[0].intraDelay == 0.0
  {
    OnlyFragment();
    OneNodeDomain();
    var topo, fragments, rs := OneNode(), FragmentsOf(OneVnf(), [CentralCloud], [0]), a.responses;
    var frag := fragments[0];
    OnlyResponse(rs, 0);
    assert Explained(topo, actors, frag, node, [], rs[0]);
    assert GreedyActor.Fits(node, frag.vnfs[0], 0) && 0 in topo.NodesInDomain(0);
    SingleVnfNeverRefused(topo, frag, node, [], 1, ANY_SELECTOR, 0);
    assert rs[0].feasible && ResponseOk(topo, frag, rs[0]);
    AcceptedAtOnce(frag, rs[0]);
  }

  lemma AcceptedAtOnce(frag: Fragment, r: Response)
    requires frag.vnfs == OneVnf().vnfs && frag.flows == [] && r.feasible && ResponseOk(OneNode(), frag, r)
    ensures r.intraDelay == 0.0
  {
    NoFlowsNoRoutes(OneNode(), OneNode().DomainLinks(frag.domain), r.placements, r.routes, r.bwAllocated);
    assert frag.vnfs[..0] == [];
    assert ProcessingDelay(OneNode(), frag.vnfs[..0], r.placements) == 0.0;
  }

  /** And there is nothing to route between domains. */
  lemma AttemptSucceeds(actors: map<DomainId, Actor>, node: map<NodeId, Amount>, a: Attempt)
    requires node == map[0 := Amount(1.0, 1.0)] && actors == map[0 := Greedy(1, ANY_SELECTOR)]
    requires OneVnf().IsChain()
    requires Attempted(OneNode(), OneVnf(), [CentralCloud], [0], actors, ANY_SELECTOR, node, [], a)
    ensures |a.responses| == 1 && a.AllFeasible() && a.crossOk && a.hops == 0 && a.bw == []
    ensures DelaySum(a.responses) + a.crossDelay == 0.0
  {
    ActorAccepts(actors, node, a);
    hide ChainDispatched, AllExplained, CrossByRule, Topology.AllLinks, RuleRouted;
    assert CrossOf(OneVnf().flows, [0]) == [];
    assert DelaySum(a.responses) == a.responses[0].intraDelay + DelaySum(a.responses[1..]);
    NoFlowsNoRoutes(OneNode(), OneNode().AllLinks(), Merged(a.responses), a.routes, a.bw);
  }

  lemma ChainOfOne()
    ensures OneVnf().IsChain() && NoReentry([0])
  {}

  lemma AllTestsPass(cfg: Config, a: Attempt)
    requires |a.responses| == 1 && a.AllFeasible() && a.crossOk && a.hops == 0
    requires DelaySum(a.responses) + a.crossDelay == 0.0
    ensures Accepted(OneVnf(), [0], cfg, a)
  {}

  /** The domain holds no node of the required tier. */
  lemma FrameFails()
    ensures !Framed(OneNode(), OneVnf(), [CentralCloud], [0], false)
  {
    assert !HasNodeFor(OneNode(), OneVnf().vnfs[0], CentralCloud, 0, false);
  }

  lemma OnTheOnlyNode(cfg: Config, a: Attempt, e2e: real)
    requires OneVnf().IsChain()
    requires Committed(OneNode(), OneVnf(), [CentralCloud], [0], cfg, map[0 := Amount(1.0, 1.0)], [], a, e2e)
    ensures 0 in Merged(a.responses) && Merged(a.responses)[0] == 0
  {
    hide FlowsAccounted, ReservedDelay, ProcessingDelay, Merged, RunCount, IsContiguous, Request.IsChain;
    assert OneVnf().vnfs[0].id in Merged(a.responses);
  }

  lemma LoadOfAll(at: map<VnfId, NodeId>)
    requires 0 in at && at[0] == 0
    ensures LoadOn(OneVnf().vnfs, at, 0) == Amount(1.0, 1.0)
  {
    assert OneVnf().vnfs[..0] == [] && LoadOn(OneVnf().vnfs[..0], at, 0) == ZERO;
  }

  lemma AllTaken(cfg: Config, a: Attempt, e2e: real, node: map<NodeId, Amount>, bw: seq<real>)
    requires OneVnf().IsChain()
    requires Committed(OneNode(), OneVnf(), [CentralCloud], [0], cfg, map[0 := Amount(1.0, 1.0)], [], a, e2e)
    requires StillDebited(OneNode(), OneVnf(), a, map[0 := Amount(1.0, 1.0)], [], node, bw)
    ensures node == map[0 := ZERO]
  {
    hide Committed, Merged, LoadOn, LinksDebited, Request.IsChain;
    OnTheOnlyNode(cfg, a, e2e);
    LoadOfAll(Merged(a.responses));
    assert node.Keys == {0};
  }

  /** The greedy actor only ranks by tier, so it takes the edge node; the domain holds no node of
      the required tier, so the assertion fires; the node's capacity is never given back. */
  method TierFrameLeaks() returns (sub: SubstrateNetwork, res: Result)
    ensures fresh(sub) && sub.Valid() && sub.topo == OneNode()
    ensures res.outcome.FrameCheckFailed? && sub.node == map[0 := ZERO]
  {
    OneNodeDomain();
    ChainOfOne();
    FrameFails();
    var node := map[0 := Amount(1.0, 1.0)];
    sub := new SubstrateNetwork(OneNode(), node, []);
    hide Topology.Valid, Request.IsChain, Attempted, Framed, NoReentry, Committed, StillDebited, DelaySum, Accepted;
    var actors := map[0 := Greedy(1, ANY_SELECTOR)];
    var cfg := Config(1, true, false, ANY_SELECTOR);
    res := ResolveArrival(sub, OneVnf(), [CentralCloud], [0], actors, cfg);
    AttemptSucceeds(actors, node, res.attempt);
    AllTestsPass(cfg, res.attempt);
    AllTaken(cfg, res.attempt, res.e2e, sub.node, sub.bw);
  }
}
