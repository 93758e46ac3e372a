/** The admission transaction: one arrival is dispatched, its crossing flows routed, judged,
    and every provisional debit undone. */
module Coordinator {
  import opened Types
  import opened OrderedDict
  import opened Ledger
  import opened Substrate
  import opened Routing
  import opened RouteRule
  import opened Actors
  import opened BorderHops
  import opened Fragments
  import opened ChainOrder
  import opened Dispatch
  import opened DelayAccounting
  import opened AnyOrder

  /** `nodeBasedMask` selects which frame check the commit path asserts. */
  datatype Config = Config(maxHops: nat, chainOrder: bool, nodeBasedMask: bool, crossSelector: Selector)

  /** What one attempt left behind: actor responses and the routed crossing flows. */
  datatype Attempt = Attempt(responses: seq<Response>, crossOk: bool, routes: map<FlowKey, seq<LinkId>>,
                             bw: Dict<FlowKey, real>, crossDelay: real, hops: nat)
  {
    predicate AllFeasible() {
      forall i :: 0 <= i < |responses| ==> responses[i].feasible
    }

    function Reserved(): seq<Reservation> {
      AllReservations(responses) + ReservationsOf(bw, routes)
    }
  }

  /** How many shortest paths a crossing flow tries. */
  const CROSS_PATHS := 3

  datatype Outcome = Commit | Reject | FrameCheckFailed

  datatype Result = Result(outcome: Outcome, attempt: Attempt, e2e: real)

  /** The assertion of the commit path: every VNF's domain holds a permitted node, or, without
      node-based masking, a node of its required tier. */
  predicate FrameOk(topo: Topology, req: Request, tiers: seq<Tier>, partition: seq<DomainId>, nodeBased: bool)
    requires |req.vnfs| == |partition| == |tiers|
  {
    forall k :: 0 <= k < |partition| ==> HostsVnf(topo, req.vnfs[k], tiers[k], partition[k], nodeBased)
  }

  predicate HostsVnf(topo: Topology, v: Vnf, tier: Tier, d: DomainId, nodeBased: bool) {
    exists n :: n in topo.attr && topo.attr[n].domain == d
             && if nodeBased then n in v.permitted else topo.attr[n].tier == tier
  }

  method CountCrossings(sub: SubstrateNetwork, links: seq<LinkId>) returns (hops: nat)
    requires sub.Valid()
    ensures hops == DomainCrossings(sub.topo, links)
  {
    hops := 0;
    var i := 0;
    while i < |links|
      invariant 0 <= i <= |links|
      invariant hops + DomainCrossings(sub.topo, links[i..]) == DomainCrossings(sub.topo, links)
    {
      var crosses := LinkCrosses(sub, links[i]);
      if crosses {
        hops := hops + 1;
      }
      assert links[i..][1..] == links[i + 1..];
      i := i + 1;
    }
  }

  method LinkCrosses(sub: SubstrateNetwork, l: LinkId) returns (crosses: bool)
    requires sub.Valid()
    ensures crosses == CrossesDomains(sub.topo, l)
  {
    var e := 0;
    while e < |sub.topo.links|
      invariant 0 <= e <= |sub.topo.links|
      invariant forall i :: 0 <= i < e ==> sub.topo.links[i].id != l
    {
      if sub.topo.links[e].id == l {
        return sub.topo.DomainOf(sub.topo.links[e].src) != sub.topo.DomainOf(sub.topo.links[e].dst);
      }
      e := e + 1;
    }
    return false;
  }

  /** Give back every recorded route's bandwidth. */
  method ReleaseRoutes(sub: SubstrateNetwork, bw: Dict<FlowKey, real>, routes: map<FlowKey, seq<LinkId>>)
    requires sub.Valid()
    modifies sub`bw
    ensures sub.Valid() && LinksDebited(sub.topo, sub.bw, old(sub.bw), ReservationsOf(bw, routes))
  {
    hide Topology.Valid;
    ghost var rs := ReservationsOf(bw, routes);
    NothingReserved(sub.topo, sub.bw);
    assert rs[..0] == [];
    var i := 0;
    while i < |bw|
      invariant 0 <= i <= |bw| && sub.Valid()
      invariant LinksDebited(sub.topo, sub.bw, old(sub.bw), rs[..i])
    {
      var links := RouteFor(routes, bw[i].0);
      ghost var before := sub.bw;
      if links != [] {
        DeallocateRouteBw(sub, links, bw[i].1);
      } else {
      }
      assert rs[i] == Reservation(links, bw[i].1);
      DebitsCompose(sub.topo, sub.bw, before, old(sub.bw), [rs[i]], rs[..i]);
      assert rs[..i + 1] == rs[..i] + [rs[i]];
      i := i + 1;
    }
    assert rs[..i] == rs;
  }

  ghost predicate EndsPlaced(cross: seq<Flow>, at: map<VnfId, NodeId>) {
    forall i :: 0 <= i < |cross| ==> cross[i].src in at && cross[i].dst in at
  }

  /** Every crossing flow joins placed hosts in two different domains. */
  ghost predicate CrossEndpoints(topo: Topology, cross: seq<Flow>, at: map<VnfId, NodeId>) {
    EndsPlaced(cross, at)
    && forall i :: 0 <= i < |cross| ==> topo.DomainOf(at[cross[i].src]) != topo.DomainOf(at[cross[i].dst])
  }

  /** A routed crossing flow crosses a domain border. */
  lemma OneMoreCrossing(topo: Topology, rs: seq<Reservation>, f: Flow, at: map<VnfId, NodeId>, links: seq<LinkId>)
    requires f.src in at && f.dst in at && Connects(topo, topo.AllLinks(), links, at[f.src], at[f.dst])
    ensures ReservedCrossings(topo, rs + [Reservation(links, f.bandwidth)])
         == ReservedCrossings(topo, rs) + DomainCrossings(topo, links)
    ensures ReservedDelay(topo, rs + [Reservation(links, f.bandwidth)])
         == ReservedDelay(topo, rs) + RouteDelay(topo, links)
    ensures topo.DomainOf(at[f.src]) != topo.DomainOf(at[f.dst]) ==> DomainCrossings(topo, links) >= 1
  {
    assert (rs + [Reservation(links, f.bandwidth)])[..|rs|] == rs;
    if topo.DomainOf(at[f.src]) != topo.DomainOf(at[f.dst]) {
      WalkCrosses(topo, topo.AllLinks(), links, at[f.src], at[f.dst]);
    }
  }

  lemma NoneServed(topo: Topology, allowed: set<nat>, cross: seq<Flow>, at: map<VnfId, NodeId>, bw: seq<real>)
    requires |bw| == |topo.links| && LinksNonNegative(bw)
    ensures AllServed(topo, allowed, cross[..0], at, map[], [])
    ensures LinkLedger(topo, bw, bw, ReservationsOf([], map[]))
    ensures ReservedDelay(topo, ReservationsOf([], map[])) == 0.0
    ensures ReservedCrossings(topo, ReservationsOf([], map[])) == 0
  {}

  /** Route the crossing flows one after the other on the debited graph; all or nothing. The
      exit for an unplaced endpoint keeps the earlier debits, so restoration on failure is
      promised when every endpoint is placed, which the transaction establishes. */
  method RouteCrossDomainFlows(sub: SubstrateNetwork, cross: seq<Flow>, at: map<VnfId, NodeId>, budget: real,
                               sel: Selector)
    returns (ok: bool, routes: map<FlowKey, seq<LinkId>>, bw: Dict<FlowKey, real>, delay: real, hops: nat)
    requires sub.Valid() && LinksNonNegative(sub.bw) && DistinctTargets(cross)
    modifies sub`bw
    ensures sub.Valid()
    ensures ok ==> LinkLedger(sub.topo, old(sub.bw), sub.bw, ReservationsOf(bw, routes))
    ensures ok ==> AllServed(sub.topo, sub.topo.AllLinks(), cross, at, routes, bw)
    ensures ok ==> delay == ReservedDelay(sub.topo, ReservationsOf(bw, routes))
    ensures ok ==> hops == ReservedCrossings(sub.topo, ReservationsOf(bw, routes))
    ensures ok ==> HopsAre(sub.topo, cross, at, routes, hops)
    ensures ok && CrossEndpoints(sub.topo, cross, at) ==> hops >= |cross|
    ensures ok ==> CrossHistory(sub.topo, Asks(cross, budget), at, old(sub.bw), sel, routes, delay)
    ensures !ok ==> routes == map[] && bw == [] && delay == 0.0 && hops == 0
    ensures !ok && EndsPlaced(cross, at) ==> sub.bw == old(sub.bw)
    ensures EndsPlaced(cross, at) ==>
              (ok <==> !RouteStuck(sub.topo, sub.topo.AllLinks(), Asks(cross, budget), at, old(sub.bw), 3, sel))
  {
    hide Topology.Valid, AllServed, Connects, LinksDebited, NoRoute, RuleState, RouteChosen, RouteStuck, CrossHistory,
         Topology.AllLinks, ReservedDelay, ReservedCrossings, ReservationsOf, HopsAre;
    ok, routes, bw, delay, hops := true, map[], [], 0.0, 0;
    ghost var all, asks := sub.topo.AllLinks(), Asks(cross, budget);
    ghost var chosen: seq<seq<LinkId>> := [];
    var left := budget;
    NoneServed(sub.topo, all, cross, at, sub.bw);
    NothingChosen(sub.topo, all, asks, at, sub.bw, CROSS_PATHS, sel, routes);
    NoHops(sub.topo, cross[..0], at, routes);
    var i := 0;
    while i < |cross|
      invariant 0 <= i <= |cross| && ok && sub.Valid()
      invariant LinkLedger(sub.topo, old(sub.bw), sub.bw, ReservationsOf(bw, routes))
      invariant AllServed(sub.topo, all, cross[..i], at, routes, bw)
      invariant delay == ReservedDelay(sub.topo, ReservationsOf(bw, routes))
      invariant hops == ReservedCrossings(sub.topo, ReservationsOf(bw, routes)) && left == budget - delay
      invariant CrossEndpoints(sub.topo, cross, at) ==> hops >= i
      invariant HopsAre(sub.topo, cross[..i], at, routes, hops)
      invariant |chosen| == i
      invariant RuleState(sub.topo, all, asks, at, old(sub.bw), CROSS_PATHS, sel, chosen, routes, sub.bw, delay)
    {
      var f := cross[i];
      if f.src !in at || f.dst !in at {
        return false, map[], [], 0.0, 0;
      }
      ghost var before := sub.bw;
      var res, routes', bw' := ServeFlow(sub, sub.topo.AllLinks(), f, at, left, CROSS_PATHS, sel, routes, bw,
                                         ReservationsOf(bw, routes), cross[..i], old(sub.bw));
      if !res.feasible {
        ghost var debited := sub.bw;
        RoutingStuckHere(sub.topo, all, asks, at, old(sub.bw), CROSS_PATHS, sel, chosen, routes, debited, delay);
        ReleaseRoutes(sub, bw, routes);
        SameDebitsSameOrigin(sub.topo, sub.bw, old(sub.bw), debited, ReservationsOf(bw, routes));
        return false, map[], [], 0.0, 0;
      }
      var crossed := CountCrossings(sub, res.links);
      OneMoreCrossing(sub.topo, ReservationsOf(bw, routes), f, at, res.links);
      RuleStateNext(sub.topo, all, asks, at, old(sub.bw), CROSS_PATHS, sel, chosen, routes, before, delay, res.links,
                    sub.bw);
      HopsNext(sub.topo, all, cross[..i], at, routes, hops, f, res.links);
      chosen := chosen + [res.links];
      assert cross[..i + 1] == cross[..i] + [f];
      routes, bw := routes', bw';
      hops, delay, left := hops + crossed, delay + res.delay, left - res.delay;
      i := i + 1;
    }
    assert cross[..i] == cross;
    AllCrossed(sub.topo, asks, at, old(sub.bw), sel, chosen, routes, sub.bw, delay);
  }

  /** The crossing flows are routed by the rule over the whole graph, in this much delay. */
  ghost predicate CrossHistory(topo: Topology, asks: seq<Ask>, at: map<VnfId, NodeId>, bw0: seq<real>, sel: Selector,
                               routes: map<FlowKey, seq<LinkId>>, delay: real)
  {
    exists chosen :: CrossChosen(topo, asks, at, bw0, sel, chosen, routes, delay)
  }

  ghost predicate CrossChosen(topo: Topology, asks: seq<Ask>, at: map<VnfId, NodeId>, bw0: seq<real>, sel: Selector,
                              chosen: seq<seq<LinkId>>, routes: map<FlowKey, seq<LinkId>>, delay: real)
  {
    && |chosen| == |asks| && RecordedAs(topo, topo.AllLinks(), asks, at, bw0, 3, sel, chosen, routes)
    && delay == ReservedDelay(topo, Claims(asks, chosen))
  }

  lemma AllCrossed(topo: Topology, asks: seq<Ask>, at: map<VnfId, NodeId>, bw0: seq<real>, sel: Selector,
                   chosen: seq<seq<LinkId>>, routes: map<FlowKey, seq<LinkId>>, bw: seq<real>, delay: real)
    requires |chosen| == |asks|
    requires RuleState(topo, topo.AllLinks(), asks, at, bw0, CROSS_PATHS, sel, chosen, routes, bw, delay)
    ensures CrossHistory(topo, asks, at, bw0, sel, routes, delay)
    ensures !RouteStuck(topo, topo.AllLinks(), asks, at, bw0, CROSS_PATHS, sel)
  {
    hide RecordedAs, ReservedDelay, BwLeft, RouteStuck, Topology.AllLinks;
    assert CrossChosen(topo, asks, at, bw0, sel, chosen, routes, delay);
    AllChosen(topo, topo.AllLinks(), asks, at, bw0, CROSS_PATHS, sel, chosen, routes, bw, delay);
    RoutedOrStuck(topo, topo.AllLinks(), asks, at, bw0, CROSS_PATHS, sel, routes);
  }

  /** The residuals are the originals minus exactly what the attempt recorded. */
  ghost predicate AttemptLedger(topo: Topology, fragments: map<DomainId, Fragment>, a: Attempt,
                                node0: map<NodeId, Amount>, bw0: seq<real>, node: map<NodeId, Amount>, bw: seq<real>)
  {
    && OnePerDomain(topo, fragments, a.responses)
    && NodesAfter(fragments, a.responses, node0, node) && NodesNonNegative(node)
    && LinkLedger(topo, bw0, bw, a.Reserved())
  }

  /** Refused before dispatch: nothing attempted. */
  function NoAttempt(): Attempt {
    Attempt([], true, map[], [], 0.0, 0)
  }

  /** The crossing flows of a fully placed chain join hosts in different domains. */
  lemma CrossFlowsHaveEndpoints(topo: Topology, req: Request, tiers: seq<Tier>, partition: seq<DomainId>,
                                fragments: map<DomainId, Fragment>, rs: seq<Response>)
    requires ChainDispatched(topo, req, tiers, partition, fragments, rs)
    requires forall j :: 0 <= j < |rs| ==> rs[j].feasible
    ensures CrossEndpoints(topo, CrossOf(req.flows, partition), Merged(rs))
    ensures DistinctTargets(CrossOf(req.flows, partition))
  {
    var cross := CrossOf(req.flows, partition);
    ChainTargets(req);
    FlowsOfDistinct(req.flows, partition, 0);
    forall j | 0 <= j < |cross|
      ensures cross[j].src in Merged(rs) && cross[j].dst in Merged(rs)
      ensures topo.DomainOf(Merged(rs)[cross[j].src]) != topo.DomainOf(Merged(rs)[cross[j].dst])
    {
      FlowAcross(req.flows, partition, cross[j]);
      var i :| CrossesAt(req.flows, partition, cross[j], i);
      ChainPlaced(topo, req, tiers, partition, fragments, rs, i);
      ChainPlaced(topo, req, tiers, partition, fragments, rs, i + 1);
    }
  }

  /** The crossing flows, within the delay the actors left. */
  function CrossAsks(req: Request, partition: seq<DomainId>, rs: seq<Response>): seq<Ask>
    requires |req.flows| < |partition| || req.flows == []
  {
    Asks(CrossOf(req.flows, partition), req.maxDelay - IntraDelay(rs))
  }

  /** The crossing flows, routed by the rule on the graph the actors left, get stuck. */
  ghost predicate CrossStuck(topo: Topology, req: Request, partition: seq<DomainId>, bw0: seq<real>, sel: Selector,
                             rs: seq<Response>)
    requires req.IsChain() && |req.vnfs| == |partition|
  {
    RouteStuck(topo, topo.AllLinks(), CrossAsks(req, partition, rs), Merged(rs), BwLeft(topo, bw0, AllReservations(rs)),
               3, sel)
  }

  /** They get through, and these are their routes. */
  ghost predicate CrossByRule(topo: Topology, req: Request, partition: seq<DomainId>, bw0: seq<real>, sel: Selector,
                              a: Attempt)
    requires req.IsChain() && |req.vnfs| == |partition|
  {
    CrossHistory(topo, CrossAsks(req, partition, a.responses), Merged(a.responses),
                 BwLeft(topo, bw0, AllReservations(a.responses)), sel, a.routes, a.crossDelay)
  }

  /** What one attempt at the residuals node0 and bw0 is: every domain of the partition answered,
      each with its own actor's answer, and the crossing flows were routed by the rule, or were
      not, exactly as the rule says. */
  ghost predicate Attempted(topo: Topology, req: Request, tiers: seq<Tier>, partition: seq<DomainId>,
                            actors: map<DomainId, Actor>, sel: Selector, node0: map<NodeId, Amount>, bw0: seq<real>,
                            a: Attempt)
    requires req.IsChain() && |req.vnfs| == |partition| == |tiers|
  {
    var fragments := FragmentsOf(req, tiers, partition);
    && ChainDispatched(topo, req, tiers, partition, fragments, a.responses)
    && AllExplained(topo, actors, fragments, node0, bw0, a.responses)
    && (a.crossOk <==> !a.AllFeasible() || !CrossStuck(topo, req, partition, bw0, sel, a.responses))
    && if a.AllFeasible() && a.crossOk then
         CrossRouted(topo, req, partition, a) && CrossByRule(topo, req, partition, bw0, sel, a)
       else a.bw == [] && a.routes == map[] && a.crossDelay == 0.0 && a.hops == 0
  }

  /** Dispatch and route, leaving every provisional debit in place. */
  method Attempts(sub: SubstrateNetwork, req: Request, tiers: seq<Tier>, partition: seq<DomainId>,
                  actors: map<DomainId, Actor>, sel: Selector)
    returns (a: Attempt)
    requires sub.Valid() && sub.NonNegative()
    requires req.IsChain() && |req.vnfs| == |partition| == |tiers|
    requires forall d :: d in actors ==> actors[d].Valid()
    modifies sub`node, sub`bw
    ensures sub.Valid()
    ensures AttemptLedger(sub.topo, FragmentsOf(req, tiers, partition), a, old(sub.node), old(sub.bw), sub.node, sub.bw)
    ensures Attempted(sub.topo, req, tiers, partition, actors, sel, old(sub.node), old(sub.bw), a)
  {
    var frags, cross := BuildFragments(req, tiers, partition);
    forall d | d in frags ensures frags[d].domain == d && frags[d].WellFormed() {
      FragmentWellFormed(req, tiers, partition, d);
    }
    ghost var node0, bw0 := sub.node, sub.bw;
    hide Topology.Valid, Dispatched, ChainDispatched, AllExplained, CrossByRule, CrossRouted, CrossStuck, AttemptLedger,
         Attempted, LinkLedger, Fragment.WellFormed, FragmentsOf, CrossOf, ReservationsOf, AllReservations,
         Request.IsChain, AnsweredBy;
    var rs := DispatchToActors(sub, actors, frags);
    ChainAnswered(sub.topo, req, tiers, partition, rs, node0, bw0, sub.node, sub.bw);
    ghost var node1 := sub.node;
    a := Attempt(rs, true, map[], [], 0.0, 0);
    NoCrossReserved(a);
    if a.AllFeasible() {
      a := CrossPhase(sub, req, tiers, partition, sel, rs, cross, bw0);
    }
    AttemptWhole(sub.topo, req, tiers, partition, actors, sel, node0, bw0, node1, sub.bw, a);
  }

  lemma ChainAnswered(topo: Topology, req: Request, tiers: seq<Tier>, partition: seq<DomainId>, rs: seq<Response>,
                      node0: map<NodeId, Amount>, bw0: seq<real>, node: map<NodeId, Amount>, bw: seq<real>)
    requires req.IsChain() && |req.vnfs| == |partition| == |tiers|
    requires Dispatched(topo, FragmentsOf(req, tiers, partition), rs, node0, bw0, node, bw)
    requires AnsweredBy(rs) == FragmentsOf(req, tiers, partition).Keys
    ensures ChainDispatched(topo, req, tiers, partition, FragmentsOf(req, tiers, partition), rs)
    ensures OnePerDomain(topo, FragmentsOf(req, tiers, partition), rs)
    ensures NodesAfter(FragmentsOf(req, tiers, partition), rs, node0, node) && NodesNonNegative(node)
    ensures LinkLedger(topo, bw0, bw, AllReservations(rs))
  {
    hide OnePerDomain, NodesAfter, LinkLedger, FragmentOf, Request.IsChain;
  }

  lemma AttemptWhole(topo: Topology, req: Request, tiers: seq<Tier>, partition: seq<DomainId>,
                     actors: map<DomainId, Actor>, sel: Selector, node0: map<NodeId, Amount>, bw0: seq<real>,
                     node: map<NodeId, Amount>, bw: seq<real>, a: Attempt)
    requires req.IsChain() && |req.vnfs| == |partition| == |tiers|
    requires ChainDispatched(topo, req, tiers, partition, FragmentsOf(req, tiers, partition), a.responses)
    requires AllExplained(topo, actors, FragmentsOf(req, tiers, partition), node0, bw0, a.responses)
    requires a.crossOk <==> !a.AllFeasible() || !CrossStuck(topo, req, partition, bw0, sel, a.responses)
    requires if a.AllFeasible() && a.crossOk then
               CrossRouted(topo, req, partition, a) && CrossByRule(topo, req, partition, bw0, sel, a)
             else a.bw == [] && a.routes == map[] && a.crossDelay == 0.0 && a.hops == 0
    requires NodesAfter(FragmentsOf(req, tiers, partition), a.responses, node0, node) && NodesNonNegative(node)
    requires LinkLedger(topo, bw0, bw, a.Reserved())
    ensures Attempted(topo, req, tiers, partition, actors, sel, node0, bw0, a)
    ensures AttemptLedger(topo, FragmentsOf(req, tiers, partition), a, node0, bw0, node, bw)
  {
    hide OnePerDomain, NodesAfter, LinkLedger, FragmentOf, AllExplained, CrossRouted, CrossByRule, CrossStuck,
         Request.IsChain;
  }

  /** Route the crossing flows of a fully placed chain, when there are any. */
  method CrossPhase(sub: SubstrateNetwork, req: Request, tiers: seq<Tier>, partition: seq<DomainId>, sel: Selector,
                    rs: seq<Response>, cross: seq<Flow>, ghost bw0: seq<real>)
    returns (a: Attempt)
    requires sub.Valid() && req.IsChain() && |req.vnfs| == |partition| == |tiers|
    requires cross == CrossOf(req.flows, partition)
    requires ChainDispatched(sub.topo, req, tiers, partition, FragmentsOf(req, tiers, partition), rs)
    requires LinkLedger(sub.topo, bw0, sub.bw, AllReservations(rs)) && forall j :: 0 <= j < |rs| ==> rs[j].feasible
    modifies sub`bw
    ensures sub.Valid() && a.responses == rs && LinkLedger(sub.topo, bw0, sub.bw, a.Reserved())
    ensures a.crossOk <==> !CrossStuck(sub.topo, req, partition, bw0, sel, rs)
    ensures if a.crossOk then CrossRouted(sub.topo, req, partition, a)
          && CrossByRule(sub.topo, req, partition, bw0, sel, a)
            else a.bw == [] && a.routes == map[] && a.crossDelay == 0.0 && a.hops == 0
  {
    a := Attempt(rs, true, map[], [], 0.0, 0);
    NoCrossReserved(a);
    if cross == [] {
      NoCrossFlows(sub.topo, req, tiers, partition, bw0, sel, a);
      return;
    }
    CrossFlowsHaveEndpoints(sub.topo, req, tiers, partition, FragmentsOf(req, tiers, partition), rs);
    ghost var dispatched := sub.bw;
    DebitedIsLeft(sub.topo, bw0, dispatched, AllReservations(rs));
    hide Topology.Valid, LinksDebited, RouteStuck, BwLeft, CrossByRule, CrossRouted, CrossStuck, ChainDispatched,
         CrossHistory, AllServed, ReservationsOf, ReservedDelay, ReservedCrossings, Asks, IntraDelay, Merged, HopsAre,
         AllReservations, FragmentsOf;
    var budget := req.maxDelay - IntraDelay(rs);
    var ok, routes, bw, delay, hops := RouteCrossDomainFlows(sub, cross, Merged(rs), budget, sel);
    a := Attempt(rs, ok, routes, bw, delay, hops);
    if ok {
      DebitsCompose(sub.topo, bw0, dispatched, sub.bw, AllReservations(rs), ReservationsOf(bw, routes));
      CrossingDone(sub.topo, req, partition, bw0, dispatched, sel, budget, a);
    } else {
      NoCrossReserved(a);
      CrossingFailed(sub.topo, req, partition, bw0, dispatched, sel, budget, rs);
    }
  }

  lemma NoCrossFlows(topo: Topology, req: Request, tiers: seq<Tier>, partition: seq<DomainId>, bw0: seq<real>,
                     sel: Selector, a: Attempt)
    requires req.IsChain() && |req.vnfs| == |partition| == |tiers|
    requires CrossOf(req.flows, partition) == [] && a == Attempt(a.responses, true, map[], [], 0.0, 0)
    ensures CrossRouted(topo, req, partition, a) && CrossByRule(topo, req, partition, bw0, sel, a)
    ensures !CrossStuck(topo, req, partition, bw0, sel, a.responses)
  {
    var at, bw := Merged(a.responses), BwLeft(topo, bw0, AllReservations(a.responses));
    var asks := CrossAsks(req, partition, a.responses);
    NothingChosen(topo, topo.AllLinks(), asks, at, bw, CROSS_PATHS, sel, map[]);
    assert CrossChosen(topo, asks, at, bw, sel, [], map[], 0.0);
    NoHops(topo, CrossOf(req.flows, partition), at, map[]);
  }

  lemma CrossingDone(topo: Topology, req: Request, partition: seq<DomainId>, bw0: seq<real>, bw1: seq<real>,
                     sel: Selector, budget: real, a: Attempt)
    requires req.IsChain() && |req.vnfs| == |partition|
    requires bw1 == BwLeft(topo, bw0, AllReservations(a.responses)) && budget == req.maxDelay - IntraDelay(a.responses)
    requires var cross := CrossOf(req.flows, partition);
             && AllServed(topo, topo.AllLinks(), cross, Merged(a.responses), a.routes, a.bw)
             && a.crossDelay == ReservedDelay(topo, ReservationsOf(a.bw, a.routes))
             && a.hops >= |cross| && HopsAre(topo, cross, Merged(a.responses), a.routes, a.hops)
             && CrossHistory(topo, Asks(cross, budget), Merged(a.responses), bw1, sel, a.routes, a.crossDelay)
             && !RouteStuck(topo, topo.AllLinks(), Asks(cross, budget), Merged(a.responses), bw1, CROSS_PATHS, sel)
    ensures CrossRouted(topo, req, partition, a) && CrossByRule(topo, req, partition, bw0, sel, a)
    ensures !CrossStuck(topo, req, partition, bw0, sel, a.responses)
  {
    hide CrossHistory, RouteStuck, BwLeft, AllServed, ReservedDelay, CrossOf, HopsAre;
  }

  lemma CrossingFailed(topo: Topology, req: Request, partition: seq<DomainId>, bw0: seq<real>, bw1: seq<real>,
                       sel: Selector, budget: real, rs: seq<Response>)
    requires req.IsChain() && |req.vnfs| == |partition|
    requires bw1 == BwLeft(topo, bw0, AllReservations(rs)) && budget == req.maxDelay - IntraDelay(rs)
    requires RouteStuck(topo, topo.AllLinks(), Asks(CrossOf(req.flows, partition), budget), Merged(rs), bw1,
                        CROSS_PATHS, sel)
    ensures CrossStuck(topo, req, partition, bw0, sel, rs)
  {
    hide RouteStuck, BwLeft, CrossOf;
  }

  lemma NoCrossReserved(a: Attempt)
    requires a.bw == []
    ensures a.Reserved() == AllReservations(a.responses)
  {}

  /** What a successful crossing phase established. */
  ghost predicate CrossRouted(topo: Topology, req: Request, partition: seq<DomainId>, a: Attempt)
    requires req.IsChain() && |req.vnfs| == |partition|
  {
    var cross := CrossOf(req.flows, partition);
    && AllServed(topo, topo.AllLinks(), cross, Merged(a.responses), a.routes, a.bw)
    && a.crossDelay == ReservedDelay(topo, ReservationsOf(a.bw, a.routes))
    && a.hops >= |cross| && HopsAre(topo, cross, Merged(a.responses), a.routes, a.hops)
  }

  ghost predicate IsSnapshot(topo: Topology, partition: seq<DomainId>, node0: map<NodeId, Amount>,
                             snapshot: map<NodeId, Amount>)
  {
    && snapshot.Keys <= node0.Keys
    && (forall n :: n in node0 && topo.DomainOf(n) in Domains(partition) ==> n in snapshot)
    && (forall n :: n in snapshot ==> snapshot[n] == node0[n])
  }

  /** Residuals of every node in the partition's domains. */
  method SnapshotNodeResiduals(sub: SubstrateNetwork, partition: seq<DomainId>) returns (snapshot: map<NodeId, Amount>)
    requires sub.Valid()
    ensures IsSnapshot(sub.topo, partition, sub.node, snapshot)
  {
    snapshot := map[];
    var todo := Domains(partition);
    while todo != {}
      invariant todo <= Domains(partition) && snapshot.Keys <= sub.node.Keys
      invariant forall n :: n in sub.node && sub.topo.DomainOf(n) in Domains(partition) - todo ==> n in snapshot
      invariant forall n :: n in snapshot ==> snapshot[n] == sub.node[n]
      decreases |todo|
    {
      var d := PickAny(todo);
      var nodes := sub.topo.NodesInDomain(d);
      snapshot := snapshot + map n | n in nodes :: sub.node[n];
      todo := todo - {d};
    }
  }

  lemma NodesComeBack(topo: Topology, fragments: map<DomainId, Fragment>, rs: seq<Response>,
                      partition: seq<DomainId>, node0: map<NodeId, Amount>, node: map<NodeId, Amount>,
                      snapshot: map<NodeId, Amount>)
    requires forall d :: d in fragments ==> fragments[d].domain == d
    requires OnePerDomain(topo, fragments, rs) && AnsweredBy(rs) <= Domains(partition)
    requires NodesAfter(fragments, rs, node0, node) && IsSnapshot(topo, partition, node0, snapshot)
    ensures snapshot.Keys <= node.Keys && node + snapshot == node0
  {
    forall n | n in node0 && n !in snapshot ensures node[n] == node0[n] {
      NobodyPlaced(topo, fragments, rs, n);
    }
  }

  /** Undo an attempt: node residuals from the snapshot, link bandwidth response by response
      and then the crossing routes. */
  method Undo(sub: SubstrateNetwork, a: Attempt, snapshot: map<NodeId, Amount>, ghost req: Request,
              ghost tiers: seq<Tier>, ghost partition: seq<DomainId>, ghost fragments: map<DomainId, Fragment>,
              ghost node0: map<NodeId, Amount>, ghost bw0: seq<real>)
    requires sub.Valid() && AttemptLedger(sub.topo, fragments, a, node0, bw0, sub.node, sub.bw)
    requires ChainDispatched(sub.topo, req, tiers, partition, fragments, a.responses)
    requires IsSnapshot(sub.topo, partition, node0, snapshot)
    modifies sub`node, sub`bw
    ensures sub.Valid() && sub.node == node0 && sub.bw == bw0
  {
    hide Topology.Valid, LinksDebited, AttemptLedger, ChainDispatched, IsSnapshot, ReservationsOf;
    BeforeUndo(sub.topo, a, snapshot, req, tiers, partition, fragments, node0, bw0, sub.node, sub.bw);
    RestoreSnapshots(sub, snapshot);
    var rs := a.responses;
    assert rs[..0] == [];
    NothingReserved(sub.topo, sub.bw);
    ghost var debited := sub.bw;
    var i := 0;
    while i < |rs|
      invariant 0 <= i <= |rs| && sub.Valid() && sub.node == node0
      invariant LinksDebited(sub.topo, sub.bw, debited, AllReservations(rs[..i]))
    {
      ghost var before := sub.bw;
      if rs[i].feasible {
        ReleaseRoutes(sub, rs[i].bwAllocated, rs[i].routes);
      } else {
        NothingReserved(sub.topo, sub.bw);
      }
      OneMoreReleased(sub.topo, sub.bw, before, debited, rs, i);
      i := i + 1;
    }
    assert rs[..i] == rs;
    ghost var before := sub.bw;
    ReleaseRoutes(sub, a.bw, a.routes);
    DebitsCompose(sub.topo, sub.bw, before, debited, ReservationsOf(a.bw, a.routes), AllReservations(rs));
    SameDebitsSameOrigin(sub.topo, sub.bw, bw0, debited, a.Reserved());
  }

  lemma BeforeUndo(topo: Topology, a: Attempt, snapshot: map<NodeId, Amount>, req: Request, tiers: seq<Tier>,
                   partition: seq<DomainId>, fragments: map<DomainId, Fragment>, node0: map<NodeId, Amount>,
                   bw0: seq<real>, node: map<NodeId, Amount>, bw: seq<real>)
    requires AttemptLedger(topo, fragments, a, node0, bw0, node, bw)
    requires ChainDispatched(topo, req, tiers, partition, fragments, a.responses)
    requires IsSnapshot(topo, partition, node0, snapshot)
    ensures snapshot.Keys <= node.Keys && node + snapshot == node0
    ensures LinksDebited(topo, bw0, bw, a.Reserved())
    ensures forall i :: 0 <= i < |a.responses| && !a.responses[i].feasible ==> a.responses[i].Reservations() == []
  {
    hide LinksDebited, NodesAfter, IsSnapshot;
    NodesComeBack(topo, fragments, a.responses, partition, node0, node, snapshot);
  }

  lemma OneMoreReleased(topo: Topology, bw: seq<real>, before: seq<real>, debited: seq<real>, rs: seq<Response>, i: nat)
    requires i < |rs| && |bw| == |before| == |debited| == |topo.links|
    requires LinksDebited(topo, bw, before, rs[i].Reservations())
    requires LinksDebited(topo, before, debited, AllReservations(rs[..i]))
    ensures LinksDebited(topo, bw, debited, AllReservations(rs[..i + 1]))
  {
    hide LinksDebited, Response.Reservations;
    assert rs[..i + 1][..i] == rs[..i];
    DebitsCompose(topo, bw, before, debited, rs[i].Reservations(), AllReservations(rs[..i]));
  }

  /** Everything a committed arrival guarantees, stated against the residuals before the call. */
  ghost predicate Committed(topo: Topology, req: Request, tiers: seq<Tier>, partition: seq<DomainId>, cfg: Config,
                            node0: map<NodeId, Amount>, bw0: seq<real>, a: Attempt, e2e: real)
    requires req.IsChain() && |req.vnfs| == |partition| == |tiers| && |bw0| == |topo.links|
  {
    var at := Merged(a.responses);
    && (forall k :: 0 <= k < |partition| ==>
          req.vnfs[k].id in at && LegalHost(topo, partition[k], req.vnfs[k], at[req.vnfs[k].id]))
    && (forall n :: n in node0 ==>
          node0[n].cpu >= CpuOn(req.vnfs, at, n) && node0[n].ram >= RamOn(req.vnfs, at, n))
    && (forall e :: 0 <= e < |bw0| ==> bw0[e] >= ReservedOn(a.Reserved(), topo.links[e].id))
    && FlowsAccounted(topo, req, partition, a)
    && e2e == HostTime(topo, req.vnfs, at) + ReservedDelay(topo, a.Reserved()) && e2e <= req.maxDelay
    && (cfg.chainOrder ==> IsContiguous(partition))
    && RunCount(partition) <= a.hops + 1 && a.hops <= cfg.maxHops
    && HopsAre(topo, CrossOf(req.flows, partition), at, a.routes, a.hops)
  }

  /** Each domain's own flows are served inside it, the crossing flows over the whole graph;
      both record exactly those flows. */
  ghost predicate FlowsAccounted(topo: Topology, req: Request, partition: seq<DomainId>, a: Attempt)
    requires req.IsChain() && |req.vnfs| == |partition|
  {
    && AnsweredBy(a.responses) == Domains(partition)
    && (forall i, j :: 0 <= i < j < |a.responses| ==> a.responses[i].domain != a.responses[j].domain)
    && (forall i :: 0 <= i < |a.responses| ==>
          var r := a.responses[i];
          AllServed(topo, topo.DomainLinks(r.domain), FlowsOf(req.flows, partition, r.domain),
                    r.placements, r.routes, r.bwAllocated))
    && AllServed(topo, topo.AllLinks(), CrossOf(req.flows, partition), Merged(a.responses), a.routes, a.bw)
  }

  /** What was debited without going below zero was available before. */
  lemma {:induction false} CommitFits(topo: Topology, req: Request, tiers: seq<Tier>, partition: seq<DomainId>,
                                      fragments: map<DomainId, Fragment>, a: Attempt,
                                      node0: map<NodeId, Amount>, bw0: seq<real>,
                                      node: map<NodeId, Amount>, bw: seq<real>)
    requires ChainDispatched(topo, req, tiers, partition, fragments, a.responses) && a.AllFeasible()
    requires AttemptLedger(topo, fragments, a, node0, bw0, node, bw)
    ensures forall n :: n in node0 ==>
              && node0[n].cpu >= CpuOn(req.vnfs, Merged(a.responses), n)
              && node0[n].ram >= RamOn(req.vnfs, Merged(a.responses), n)
    ensures forall e :: 0 <= e < |bw0| ==> bw0[e] >= ReservedOn(a.Reserved(), topo.links[e].id)
  {
    forall n | n in node0
      ensures node0[n].cpu >= CpuOn(req.vnfs, Merged(a.responses), n)
      ensures node0[n].ram >= RamOn(req.vnfs, Merged(a.responses), n)
    {
      ChainLoad(topo, req, tiers, partition, fragments, a.responses, n);
      LoadIsSum(req.vnfs, Merged(a.responses), n);
      assert node[n].Covers(ZERO);
    }
    forall e | 0 <= e < |bw0| ensures bw0[e] >= ReservedOn(a.Reserved(), topo.links[e].id) {
      assert bw[e] >= 0.0;
    }
  }

  lemma {:induction false} CommitAccounts(topo: Topology, req: Request, tiers: seq<Tier>, partition: seq<DomainId>,
                                          fragments: map<DomainId, Fragment>, a: Attempt)
    requires ChainDispatched(topo, req, tiers, partition, fragments, a.responses) && a.AllFeasible()
    requires CrossRouted(topo, req, partition, a)
    ensures FlowsAccounted(topo, req, partition, a)
    ensures HopsAre(topo, CrossOf(req.flows, partition), Merged(a.responses), a.routes, a.hops)
    ensures RunCount(partition) <= a.hops + 1
    ensures forall k :: 0 <= k < |partition| ==>
              req.vnfs[k].id in Merged(a.responses)
              && LegalHost(topo, partition[k], req.vnfs[k], Merged(a.responses)[req.vnfs[k].id])
  {
    if partition != [] {
      CrossingFlows(req.flows, partition);
    }
    forall k | 0 <= k < |partition|
      ensures req.vnfs[k].id in Merged(a.responses)
      ensures LegalHost(topo, partition[k], req.vnfs[k], Merged(a.responses)[req.vnfs[k].id])
    {
      ChainPlaced(topo, req, tiers, partition, fragments, a.responses, k);
    }
  }

  /** Once a crossing flow was routed, the end-to-end delay test cannot fail. */
  lemma CrossRoutedMeetsDelay(topo: Topology, req: Request, tiers: seq<Tier>, partition: seq<DomainId>,
                              actors: map<DomainId, Actor>, sel: Selector, node0: map<NodeId, Amount>, bw0: seq<real>,
                              a: Attempt)
    requires topo.Valid() && req.IsChain() && |req.vnfs| == |partition| == |tiers|
    requires Attempted(topo, req, tiers, partition, actors, sel, node0, bw0, a)
    requires a.AllFeasible() && a.crossOk && RunCount(partition) > 1
    ensures IntraDelay(a.responses) + a.crossDelay <= req.maxDelay
  {
    var cross, at, asks := CrossOf(req.flows, partition), Merged(a.responses), CrossAsks(req, partition, a.responses);
    var bw := BwLeft(topo, bw0, AllReservations(a.responses));
    hide Topology.Valid, ChainDispatched, AllExplained, CrossRouted, CrossStuck, BwLeft, RuleRouted, ReservedDelay,
         CrossOf, FragmentOf, Merged, AllReservations, Topology.AllLinks;
    CrossingFlows(req.flows, partition);
    CrossFlowsHaveEndpoints(topo, req, tiers, partition, FragmentsOf(req, tiers, partition), a.responses);
    var chosen :| CrossChosen(topo, asks, at, bw, sel, chosen, a.routes, a.crossDelay);
    WithinBudget(topo, topo.AllLinks(), asks, at, bw, CROSS_PATHS, sel, chosen);
  }

  /** A committed chain has at most one run, and with contiguity at most one domain, more than
      the hop limit. */
  lemma CommitBoundsDomains(topo: Topology, req: Request, tiers: seq<Tier>, partition: seq<DomainId>, cfg: Config,
                            node0: map<NodeId, Amount>, bw0: seq<real>, a: Attempt, e2e: real)
    requires req.IsChain() && |req.vnfs| == |partition| == |tiers| && |bw0| == |topo.links|
    requires Committed(topo, req, tiers, partition, cfg, node0, bw0, a, e2e)
    ensures |Domains(partition)| <= RunCount(partition) <= cfg.maxHops + 1
    ensures cfg.chainOrder ==> |Domains(partition)| == RunCount(partition)
  {
    RunsCoverDomains(partition);
  }

  /** The whole demand of the chain is missing from the residuals. */
  ghost predicate StillDebited(topo: Topology, req: Request, a: Attempt, node0: map<NodeId, Amount>, bw0: seq<real>,
                               node: map<NodeId, Amount>, bw: seq<real>)
  {
    && node.Keys == node0.Keys
    && (forall n :: n in node ==> node[n] == node0[n].Minus(LoadOn(req.vnfs, Merged(a.responses), n)))
    && LinksDebited(topo, bw0, bw, a.Reserved())
  }

  /** Every VNF names the nodes it may use. */
  predicate PermitsListed(req: Request) {
    forall k :: 0 <= k < |req.vnfs| ==> req.vnfs[k].permitted != []
  }

  /** The node-based frame check cannot fail for VNFs that list their nodes: the placement that
      is about to be committed is itself the witness. */
  lemma NodeFrameHolds(topo: Topology, req: Request, tiers: seq<Tier>, partition: seq<DomainId>, cfg: Config,
                       node0: map<NodeId, Amount>, bw0: seq<real>, a: Attempt, e2e: real)
    requires req.IsChain() && |req.vnfs| == |partition| == |tiers| && |bw0| == |topo.links|
    requires Committed(topo, req, tiers, partition, cfg, node0, bw0, a, e2e)
    ensures PermitsListed(req) ==> FrameOk(topo, req, tiers, partition, true)
  {
    if PermitsListed(req) {
      forall k | 0 <= k < |partition| ensures HostsVnf(topo, req.vnfs[k], tiers[k], partition[k], true) {
        var n := Merged(a.responses)[req.vnfs[k].id];
        assert n in topo.attr && topo.attr[n].domain == partition[k] && n in req.vnfs[k].permitted;
      }
    }
  }

  /** The four reasons a partition is refused. */
  predicate Passes(req: Request, partition: seq<DomainId>, cfg: Config, a: Attempt) {
    && !Violates(partition, cfg.chainOrder)
    && a.AllFeasible() && a.crossOk
    && IntraDelay(a.responses) + a.crossDelay <= req.maxDelay
    && a.hops <= cfg.maxHops
  }

  /** Nothing is left and entered again where that is asked for, every domain said yes, the crossing
      flows got through, and delay and border hops are within the limits. */
  ghost predicate Accepted(req: Request, partition: seq<DomainId>, cfg: Config, a: Attempt) {
    && (cfg.chainOrder ==> NoReentry(partition))
    && (forall i :: 0 <= i < |a.responses| ==> a.responses[i].feasible) && a.crossOk
    && DelaySum(a.responses) + a.crossDelay <= req.maxDelay && a.hops <= cfg.maxHops
  }

  ghost function DelaySum(rs: seq<Response>): real {
    if rs == [] then 0.0 else rs[0].intraDelay + DelaySum(rs[1..])
  }

  /** Every VNF's domain holds a node it may use: one of those it names, or one of its tier. */
  ghost predicate Framed(topo: Topology, req: Request, tiers: seq<Tier>, partition: seq<DomainId>, nodeBased: bool)
    requires |req.vnfs| == |partition| == |tiers|
  {
    forall k :: 0 <= k < |partition| ==> HasNodeFor(topo, req.vnfs[k], tiers[k], partition[k], nodeBased)
  }

  ghost predicate HasNodeFor(topo: Topology, v: Vnf, tier: Tier, d: DomainId, nodeBased: bool) {
    if nodeBased then exists n :: NodeIn(topo, d, n) && n in v.permitted
    else exists n :: NodeIn(topo, d, n) && topo.attr[n].tier == tier
  }

  ghost predicate NodeIn(topo: Topology, d: DomainId, n: NodeId) {
    n in topo.attr && topo.attr[n].domain == d
  }

  lemma {:induction false} DelaySumNext(rs: seq<Response>)
    requires rs != []
    ensures DelaySum(rs) == DelaySum(rs[..|rs| - 1]) + rs[|rs| - 1].intraDelay
  {
    if |rs| > 1 {
      DelaySumNext(rs[1..]);
      assert rs[..|rs| - 1][1..] == rs[1..][..|rs| - 2];
    }
  }

  lemma {:induction false} IntraIsSum(rs: seq<Response>)
    ensures IntraDelay(rs) == DelaySum(rs)
  {
    if rs != [] {
      IntraIsSum(rs[..|rs| - 1]);
      DelaySumNext(rs);
    }
  }

  lemma PassesMeans(req: Request, partition: seq<DomainId>, cfg: Config, a: Attempt)
    ensures Passes(req, partition, cfg, a) <==> Accepted(req, partition, cfg, a)
    ensures Violates(partition, cfg.chainOrder) <==> cfg.chainOrder && !NoReentry(partition)
  {
    hide IsContiguous, NoReentry, IntraDelay, DelaySum;
    ContiguousIffNoReentry(partition);
    IntraIsSum(a.responses);
  }

  lemma FrameMeans(topo: Topology, req: Request, tiers: seq<Tier>, partition: seq<DomainId>, nodeBased: bool)
    requires |req.vnfs| == |partition| == |tiers|
    ensures FrameOk(topo, req, tiers, partition, nodeBased) <==> Framed(topo, req, tiers, partition, nodeBased)
  {
    forall k | 0 <= k < |partition|
      ensures HostsVnf(topo, req.vnfs[k], tiers[k], partition[k], nodeBased)
         <==> HasNodeFor(topo, req.vnfs[k], tiers[k], partition[k], nodeBased)
    {
      assert forall n :: NodeIn(topo, partition[k], n) <==> n in topo.attr && topo.attr[n].domain == partition[k];
    }
    hide HostsVnf, HasNodeFor;
  }

  lemma AttemptParts(topo: Topology, req: Request, tiers: seq<Tier>, partition: seq<DomainId>,
                     actors: map<DomainId, Actor>, sel: Selector, node0: map<NodeId, Amount>, bw0: seq<real>,
                     a: Attempt)
    requires req.IsChain() && |req.vnfs| == |partition| == |tiers|
    requires Attempted(topo, req, tiers, partition, actors, sel, node0, bw0, a)
    ensures ChainDispatched(topo, req, tiers, partition, FragmentsOf(req, tiers, partition), a.responses)
    ensures a.AllFeasible() && a.crossOk ==> CrossRouted(topo, req, partition, a)
  {}

  /** Resolve one arrival. Commit and reject both leave every residual as it was. The frame
      check is asserted while the debits are still in place: when it fails, and only then, the
      call ends with the debits of the attempt left on the substrate. */
  method ResolveArrival(sub: SubstrateNetwork, req: Request, tiers: seq<Tier>, partition: seq<DomainId>,
                        actors: map<DomainId, Actor>, cfg: Config)
    returns (res: Result)
    requires sub.Valid() && sub.NonNegative()
    requires req.IsChain() && |req.vnfs| == |partition| == |tiers|
    requires forall d :: d in actors ==> actors[d].Valid()
    modifies sub`node, sub`bw
    ensures sub.Valid()
    ensures res.outcome != FrameCheckFailed ==> sub.node == old(sub.node) && sub.bw == old(sub.bw)
    ensures res.outcome.Commit? <==> Accepted(req, partition, cfg, res.attempt)
                                     && Framed(sub.topo, req, tiers, partition, cfg.nodeBasedMask)
    ensures res.outcome.FrameCheckFailed? <==> Accepted(req, partition, cfg, res.attempt)
                                               && !Framed(sub.topo, req, tiers, partition, cfg.nodeBasedMask)
    ensures !res.outcome.Reject? ==>
              Committed(sub.topo, req, tiers, partition, cfg, old(sub.node), old(sub.bw), res.attempt, res.e2e)
    ensures res.outcome.FrameCheckFailed? ==> !cfg.nodeBasedMask || !PermitsListed(req)
    ensures res.outcome.FrameCheckFailed? ==>
              StillDebited(sub.topo, req, res.attempt, old(sub.node), old(sub.bw), sub.node, sub.bw)
    ensures if cfg.chainOrder && !NoReentry(partition) then res == Result(Reject, NoAttempt(), 0.0)
            else Attempted(sub.topo, req, tiers, partition, actors, cfg.crossSelector, old(sub.node), old(sub.bw),
                           res.attempt)
                 && res.e2e == DelaySum(res.attempt.responses) + res.attempt.crossDelay
  {
    hide Topology.Valid, Committed, ChainDispatched, AttemptLedger, CrossRouted, FrameOk, IsSnapshot, Attempted,
         FragmentsOf, NoReentry, IsContiguous, Framed, DelaySum, IntraDelay, Accepted;
    PassesMeans(req, partition, cfg, NoAttempt());
    FrameMeans(sub.topo, req, tiers, partition, cfg.nodeBasedMask);
    if Violates(partition, cfg.chainOrder) {
      RefusedAtOnce(req, partition, cfg);
      return Result(Reject, NoAttempt(), 0.0);
    }
    var snapshot := SnapshotNodeResiduals(sub, partition);
    ghost var fragments := FragmentsOf(req, tiers, partition);
    var a := Attempts(sub, req, tiers, partition, actors, cfg.crossSelector);
    AttemptParts(sub.topo, req, tiers, partition, actors, cfg.crossSelector, old(sub.node), old(sub.bw), a);
    var e2e := IntraDelay(a.responses) + a.crossDelay;
    IntraIsSum(a.responses);
    PassesMeans(req, partition, cfg, a);
    var passes := Passes(req, partition, cfg, a);
    if passes {
      CommitIsSound(sub.topo, req, tiers, partition, fragments, cfg, a, old(sub.node), old(sub.bw), sub.node, sub.bw);
      if !FrameOk(sub.topo, req, tiers, partition, cfg.nodeBasedMask) {
        NodeFrameHolds(sub.topo, req, tiers, partition, cfg, old(sub.node), old(sub.bw), a, e2e);
        LeakIsTheDemand(sub.topo, req, tiers, partition, fragments, a, old(sub.node), old(sub.bw), sub.node, sub.bw);
        return Result(FrameCheckFailed, a, e2e);
      }
    }
    Undo(sub, a, snapshot, req, tiers, partition, fragments, old(sub.node), old(sub.bw));
    res := Result(if passes then Commit else Reject, a, e2e);
  }

  lemma RefusedAtOnce(req: Request, partition: seq<DomainId>, cfg: Config)
    requires cfg.chainOrder && !NoReentry(partition)
    ensures !Accepted(req, partition, cfg, NoAttempt())
  {}

  lemma {:induction false} CommitIsSound(topo: Topology, req: Request, tiers: seq<Tier>, partition: seq<DomainId>,
                                         fragments: map<DomainId, Fragment>, cfg: Config, a: Attempt,
                                         node0: map<NodeId, Amount>, bw0: seq<real>,
                                         node: map<NodeId, Amount>, bw: seq<real>)
    requires ChainDispatched(topo, req, tiers, partition, fragments, a.responses)
    requires AttemptLedger(topo, fragments, a, node0, bw0, node, bw)
    requires Passes(req, partition, cfg, a) && CrossRouted(topo, req, partition, a)
    ensures Committed(topo, req, tiers, partition, cfg, node0, bw0, a, IntraDelay(a.responses) + a.crossDelay)
  {
    hide OnePerDomain, CrossRouted, FlowsAccounted, ReservedDelay, ProcessingDelay, HopsAre;
    CommitFits(topo, req, tiers, partition, fragments, a, node0, bw0, node, bw);
    CommitAccounts(topo, req, tiers, partition, fragments, a);
    DelayAccounted(topo, req, tiers, partition, fragments, a.responses);
    ReservedDelayAppend(topo, AllReservations(a.responses), ReservationsOf(a.bw, a.routes));
    CrossDelayReserved(topo, req, partition, a);
    ProcessingIsSum(topo, req.vnfs, Merged(a.responses));
  }

  lemma CrossDelayReserved(topo: Topology, req: Request, partition: seq<DomainId>, a: Attempt)
    requires req.IsChain() && |req.vnfs| == |partition| && CrossRouted(topo, req, partition, a)
    ensures a.crossDelay == ReservedDelay(topo, ReservationsOf(a.bw, a.routes))
  {}

  lemma {:induction false} LeakIsTheDemand(topo: Topology, req: Request, tiers: seq<Tier>, partition: seq<DomainId>,
                                           fragments: map<DomainId, Fragment>, a: Attempt,
                                           node0: map<NodeId, Amount>, bw0: seq<real>,
                                           node: map<NodeId, Amount>, bw: seq<real>)
    requires ChainDispatched(topo, req, tiers, partition, fragments, a.responses) && a.AllFeasible()
    requires AttemptLedger(topo, fragments, a, node0, bw0, node, bw)
    ensures StillDebited(topo, req, a, node0, bw0, node, bw)
  {
    forall n | n in node ensures node[n] == node0[n].Minus(LoadOn(req.vnfs, Merged(a.responses), n)) {
      ChainLoad(topo, req, tiers, partition, fragments, a.responses, n);
    }
  }
}
