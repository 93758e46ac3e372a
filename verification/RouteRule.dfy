/** Routing a list of flows one after the other: which routes the selection rule picks, given the
    routes before, and when the rule gets stuck. Both are determined by the starting residuals. */
module RouteRule {
  import opened Types
  import opened Ledger
  import opened Routing

  /** A flow to route, and the delay that all routes up to its own may use. */
  datatype Ask = Ask(flow: Flow, budget: real)

  /** Flows that share one delay budget. */
  function Asks(flows: seq<Flow>, budget: real): (r: seq<Ask>)
    ensures |r| == |flows|
  {
    seq(|flows|, j requires 0 <= j < |flows| => Ask(flows[j], budget))
  }

  function Flows(asks: seq<Ask>): (r: seq<Flow>)
    ensures |r| == |asks|
  {
    seq(|asks|, j requires 0 <= j < |asks| => asks[j].flow)
  }

  /** What the routes chosen so far reserve. */
  function Claims(asks: seq<Ask>, chosen: seq<seq<LinkId>>): (r: seq<Reservation>)
    requires |chosen| <= |asks|
    ensures |r| == |chosen|
  {
    seq(|chosen|, j requires 0 <= j < |chosen| => Reservation(chosen[j], asks[j].flow.bandwidth))
  }

  /** Link residuals after some reservations. */
  function BwLeft(topo: Topology, bw0: seq<real>, rs: seq<Reservation>): (r: seq<real>)
    ensures |r| == |bw0|
  {
    seq(|bw0|, e requires 0 <= e < |bw0| =>
      if e < |topo.links| then bw0[e] - ReservedOn(rs, topo.links[e].id) else bw0[e])
  }

  /** The flow joins two different hosts and no candidate path between them is eligible. */
  ghost predicate NoRoute(topo: Topology, bw: seq<real>, allowed: set<nat>, f: Flow, at: map<VnfId, NodeId>,
                          left: real, k: nat)
  {
    && f.src in at && f.dst in at && at[f.src] != at[f.dst]
    && var paths := Candidates(topo, allowed, at[f.src], at[f.dst], k);
       forall i :: 0 <= i < |paths| ==> !Eligible(topo, bw, paths[i], f.bandwidth, left)
  }

  /** These are the links of the route the rule selects; a same-node flow gets none. */
  ghost predicate RouteChosen(topo: Topology, bw: seq<real>, allowed: set<nat>, f: Flow, at: map<VnfId, NodeId>,
                              left: real, k: nat, sel: Selector, links: seq<LinkId>)
  {
    && f.src in at && f.dst in at
    && if at[f.src] == at[f.dst] then links == []
       else exists r :: SelectedLinks(topo, bw, Candidates(topo, allowed, at[f.src], at[f.dst], k), f.bandwidth, left,
                                      sel, r, links)
  }

  ghost predicate SelectedLinks(topo: Topology, bw: seq<real>, paths: seq<seq<NodeId>>, demand: real, left: real,
                                sel: Selector, r: RouteResult, links: seq<LinkId>)
  {
    r.feasible && r.links == links && Selected(topo, bw, paths, demand, left, sel, r)
  }

  /** Route j is what the rule selects on the residuals and within the delay the routes before
      it left. */
  ghost predicate StepRouted(topo: Topology, allowed: set<nat>, asks: seq<Ask>, at: map<VnfId, NodeId>, bw0: seq<real>,
                             k: nat, sel: Selector, chosen: seq<seq<LinkId>>, j: int)
  {
    && 0 <= j < |chosen| <= |asks|
    && var claims := Claims(asks, chosen[..j]);
       RouteChosen(topo, BwLeft(topo, bw0, claims), allowed, asks[j].flow, at,
                   asks[j].budget - ReservedDelay(topo, claims), k, sel, chosen[j])
  }

  /** The first flows are routed by the rule. */
  ghost predicate RuleRouted(topo: Topology, allowed: set<nat>, asks: seq<Ask>, at: map<VnfId, NodeId>, bw0: seq<real>,
                             k: nat, sel: Selector, chosen: seq<seq<LinkId>>)
  {
    |chosen| <= |asks| && forall j :: 0 <= j < |chosen| ==> StepRouted(topo, allowed, asks, at, bw0, k, sel, chosen, j)
  }

  /** The flows before it are routed by the rule, and the next one then has no eligible path. */
  ghost predicate StuckAfter(topo: Topology, allowed: set<nat>, asks: seq<Ask>, at: map<VnfId, NodeId>, bw0: seq<real>,
                             k: nat, sel: Selector, chosen: seq<seq<LinkId>>)
  {
    && |chosen| < |asks| && RuleRouted(topo, allowed, asks, at, bw0, k, sel, chosen)
    && var claims := Claims(asks, chosen);
       NoRoute(topo, BwLeft(topo, bw0, claims), allowed, asks[|chosen|].flow, at,
               asks[|chosen|].budget - ReservedDelay(topo, claims), k)
  }

  /** Routing the flows in this order by the rule gets stuck. */
  ghost predicate RouteStuck(topo: Topology, allowed: set<nat>, asks: seq<Ask>, at: map<VnfId, NodeId>, bw0: seq<real>,
                             k: nat, sel: Selector)
  {
    exists chosen :: StuckAfter(topo, allowed, asks, at, bw0, k, sel, chosen)
  }

  /** All flows are routed by the rule, and these are the routes on record. */
  ghost predicate RoutedByRule(topo: Topology, allowed: set<nat>, asks: seq<Ask>, at: map<VnfId, NodeId>,
                               bw0: seq<real>, k: nat, sel: Selector, routes: map<FlowKey, seq<LinkId>>)
  {
    exists chosen :: RecordedAs(topo, allowed, asks, at, bw0, k, sel, chosen, routes) && |chosen| == |asks|
  }

  ghost predicate RecordedAs(topo: Topology, allowed: set<nat>, asks: seq<Ask>, at: map<VnfId, NodeId>, bw0: seq<real>,
                             k: nat, sel: Selector, chosen: seq<seq<LinkId>>, routes: map<FlowKey, seq<LinkId>>)
  {
    && RuleRouted(topo, allowed, asks, at, bw0, k, sel, chosen)
    && forall j :: 0 <= j < |chosen| ==> asks[j].flow.Key() in routes && routes[asks[j].flow.Key()] == chosen[j]
  }

  /** Where a routing loop stands: what is chosen, and what it left of bandwidth and delay. */
  ghost predicate RuleState(topo: Topology, allowed: set<nat>, asks: seq<Ask>, at: map<VnfId, NodeId>, bw0: seq<real>,
                            k: nat, sel: Selector, chosen: seq<seq<LinkId>>, routes: map<FlowKey, seq<LinkId>>,
                            bw: seq<real>, spent: real)
  {
    && RecordedAs(topo, allowed, asks, at, bw0, k, sel, chosen, routes)
    && bw == BwLeft(topo, bw0, Claims(asks, chosen)) && spent == ReservedDelay(topo, Claims(asks, chosen))
  }

  lemma DebitedIsLeft(topo: Topology, bw0: seq<real>, bw1: seq<real>, rs: seq<Reservation>)
    requires LinksDebited(topo, bw0, bw1, rs)
    ensures bw1 == BwLeft(topo, bw0, rs)
  {
    hide ReservedOn;
  }

  lemma LeftIsDebited(topo: Topology, bw0: seq<real>, rs: seq<Reservation>)
    requires |bw0| == |topo.links|
    ensures LinksDebited(topo, bw0, BwLeft(topo, bw0, rs), rs)
  {
    hide ReservedOn;
  }

  lemma NothingChosen(topo: Topology, allowed: set<nat>, asks: seq<Ask>, at: map<VnfId, NodeId>, bw0: seq<real>, k: nat,
                      sel: Selector, routes: map<FlowKey, seq<LinkId>>)
    ensures RuleState(topo, allowed, asks, at, bw0, k, sel, [], routes, bw0, 0.0)
  {
    assert BwLeft(topo, bw0, []) == bw0;
  }

  lemma ClaimsNext(asks: seq<Ask>, chosen: seq<seq<LinkId>>, links: seq<LinkId>)
    requires |chosen| < |asks|
    ensures Claims(asks, chosen + [links]) == Claims(asks, chosen) + [Reservation(links, asks[|chosen|].flow.bandwidth)]
  {}

  /** One more route by the rule. */
  lemma RuleStateNext(topo: Topology, allowed: set<nat>, asks: seq<Ask>, at: map<VnfId, NodeId>, bw0: seq<real>, k: nat,
                      sel: Selector, chosen: seq<seq<LinkId>>, routes: map<FlowKey, seq<LinkId>>, bw: seq<real>,
                      spent: real, links: seq<LinkId>, bw': seq<real>)
    requires |bw0| == |topo.links| && |chosen| < |asks|
    requires RuleState(topo, allowed, asks, at, bw0, k, sel, chosen, routes, bw, spent)
    requires RouteChosen(topo, bw, allowed, asks[|chosen|].flow, at, asks[|chosen|].budget - spent, k, sel, links)
    requires LinksDebited(topo, bw, bw', [Reservation(links, asks[|chosen|].flow.bandwidth)])
    requires forall j :: 0 <= j < |chosen| ==> asks[j].flow.Key() != asks[|chosen|].flow.Key()
    ensures var spent' := spent + RouteDelay(topo, links);
            RuleState(topo, allowed, asks, at, bw0, k, sel, chosen + [links],
                      routes[asks[|chosen|].flow.Key() := links], bw', spent')
  {
    hide RouteChosen, RouteDelay, ReservedOn;
    var next, claims, r := chosen + [links], Claims(asks, chosen), Reservation(links, asks[|chosen|].flow.bandwidth);
    ClaimsNext(asks, chosen, links);
    LeftIsDebited(topo, bw0, claims);
    DebitsCompose(topo, bw0, bw, bw', claims, [r]);
    DebitedIsLeft(topo, bw0, bw', claims + [r]);
    ReservedDelayAppend(topo, claims, [r]);
    OneRouteDelay(topo, links, r.bandwidth);
    hide ReservedDelay, BwLeft, LinksDebited;
    forall j | 0 <= j < |next| ensures StepRouted(topo, allowed, asks, at, bw0, k, sel, next, j) {
      if j < |chosen| {
        assert next[..j] == chosen[..j];
        assert StepRouted(topo, allowed, asks, at, bw0, k, sel, chosen, j);
      } else {
        assert next[..j] == chosen;
      }
    }
  }

  /** The rule leaves no choice. */
  lemma OneSelection(topo: Topology, bw: seq<real>, paths: seq<seq<NodeId>>, demand: real, left: real, sel: Selector,
                     a: RouteResult, b: RouteResult)
    requires a.feasible && b.feasible
    requires Selected(topo, bw, paths, demand, left, sel, a) && Selected(topo, bw, paths, demand, left, sel, b)
    ensures a.links == b.links
  {
    hide Eligible, Score, PathDelay, LinksOf;
    var i :| PickedAt(topo, bw, paths, demand, left, sel, a, i);
    var j :| PickedAt(topo, bw, paths, demand, left, sel, b, j);
    assert Eligible(topo, bw, paths[i], demand, left) && Eligible(topo, bw, paths[j], demand, left);
  }

  lemma OneRoute(topo: Topology, bw: seq<real>, allowed: set<nat>, f: Flow, at: map<VnfId, NodeId>, left: real, k: nat,
                 sel: Selector, a: seq<LinkId>, b: seq<LinkId>)
    requires RouteChosen(topo, bw, allowed, f, at, left, k, sel, a)
    requires RouteChosen(topo, bw, allowed, f, at, left, k, sel, b)
    ensures a == b
  {
    hide Selected;
    if at[f.src] != at[f.dst] {
      var paths := Candidates(topo, allowed, at[f.src], at[f.dst], k);
      var r :| SelectedLinks(topo, bw, paths, f.bandwidth, left, sel, r, a);
      var s :| SelectedLinks(topo, bw, paths, f.bandwidth, left, sel, s, b);
      OneSelection(topo, bw, paths, f.bandwidth, left, sel, r, s);
    }
  }

  lemma {:induction false} OneHistory(topo: Topology, allowed: set<nat>, asks: seq<Ask>, at: map<VnfId, NodeId>,
                                      bw0: seq<real>, k: nat, sel: Selector, a: seq<seq<LinkId>>, b: seq<seq<LinkId>>,
                                      i: nat)
    requires RuleRouted(topo, allowed, asks, at, bw0, k, sel, a) && RuleRouted(topo, allowed, asks, at, bw0, k, sel, b)
    requires i <= |a| && i <= |b|
    ensures a[..i] == b[..i]
  {
    hide RouteChosen;
    if i > 0 {
      var j := i - 1;
      OneHistory(topo, allowed, asks, at, bw0, k, sel, a, b, j);
      assert StepRouted(topo, allowed, asks, at, bw0, k, sel, a, j);
      assert StepRouted(topo, allowed, asks, at, bw0, k, sel, b, j);
      var claims := Claims(asks, a[..j]);
      var left := asks[j].budget - ReservedDelay(topo, claims);
      OneRoute(topo, BwLeft(topo, bw0, claims), allowed, asks[j].flow, at, left, k, sel, a[j], b[j]);
    }
  }

  /** Routing by the rule either gets through or gets stuck, never both. */
  lemma RoutedOrStuck(topo: Topology, allowed: set<nat>, asks: seq<Ask>, at: map<VnfId, NodeId>, bw0: seq<real>, k: nat,
                      sel: Selector, routes: map<FlowKey, seq<LinkId>>)
    requires RoutedByRule(topo, allowed, asks, at, bw0, k, sel, routes)
    ensures !RouteStuck(topo, allowed, asks, at, bw0, k, sel)
  {
    hide NoRoute, RouteChosen;
    var all :| RecordedAs(topo, allowed, asks, at, bw0, k, sel, all, routes) && |all| == |asks|;
    forall chosen ensures !StuckAfter(topo, allowed, asks, at, bw0, k, sel, chosen) {
      if StuckAfter(topo, allowed, asks, at, bw0, k, sel, chosen) {
        var i := |chosen|;
        OneHistory(topo, allowed, asks, at, bw0, k, sel, all, chosen, i);
        assert chosen[..i] == chosen;
        assert StepRouted(topo, allowed, asks, at, bw0, k, sel, all, i);
        var left := asks[i].budget - ReservedDelay(topo, Claims(asks, chosen));
        ChosenHasRoute(topo, BwLeft(topo, bw0, Claims(asks, chosen)), allowed, asks[i].flow, at, left, k, sel, all[i]);
        assert false;
      }
    }
  }

  lemma ChosenHasRoute(topo: Topology, bw: seq<real>, allowed: set<nat>, f: Flow, at: map<VnfId, NodeId>, left: real,
                       k: nat, sel: Selector, links: seq<LinkId>)
    requires RouteChosen(topo, bw, allowed, f, at, left, k, sel, links)
    ensures !NoRoute(topo, bw, allowed, f, at, left, k)
  {
    hide Eligible, Score, PathDelay, LinksOf;
    if at[f.src] != at[f.dst] {
      var paths := Candidates(topo, allowed, at[f.src], at[f.dst], k);
      var r :| SelectedLinks(topo, bw, paths, f.bandwidth, left, sel, r, links);
      var i :| PickedAt(topo, bw, paths, f.bandwidth, left, sel, r, i);
      assert Eligible(topo, bw, paths[i], f.bandwidth, left);
    }
  }

  /** Placing further VNFs changes no route already chosen. */
  lemma RuleStateStays(topo: Topology, allowed: set<nat>, asks: seq<Ask>, at: map<VnfId, NodeId>, bw0: seq<real>,
                       k: nat, sel: Selector, chosen: seq<seq<LinkId>>, routes: map<FlowKey, seq<LinkId>>,
                       bw: seq<real>, spent: real, v: VnfId, n: NodeId)
    requires RuleState(topo, allowed, asks, at, bw0, k, sel, chosen, routes, bw, spent) && v !in at
    ensures RuleState(topo, allowed, asks, at[v := n], bw0, k, sel, chosen, routes, bw, spent)
  {
    hide SelectedLinks, BwLeft, ReservedDelay;
    var at' := at[v := n];
    forall j | 0 <= j < |chosen| ensures StepRouted(topo, allowed, asks, at', bw0, k, sel, chosen, j) {
      assert StepRouted(topo, allowed, asks, at, bw0, k, sel, chosen, j);
    }
  }

  /** More flows to come change nothing either. */
  lemma RuleStateGrows(topo: Topology, allowed: set<nat>, asks: seq<Ask>, more: seq<Ask>, at: map<VnfId, NodeId>,
                       bw0: seq<real>, k: nat, sel: Selector, chosen: seq<seq<LinkId>>,
                       routes: map<FlowKey, seq<LinkId>>, bw: seq<real>, spent: real)
    requires RuleState(topo, allowed, asks, at, bw0, k, sel, chosen, routes, bw, spent)
    ensures RuleState(topo, allowed, asks + more, at, bw0, k, sel, chosen, routes, bw, spent)
  {
    hide RouteChosen, BwLeft, ReservedDelay;
    var grown := asks + more;
    assert Claims(grown, chosen) == Claims(asks, chosen);
    forall j | 0 <= j < |chosen| ensures StepRouted(topo, allowed, grown, at, bw0, k, sel, chosen, j) {
      assert StepRouted(topo, allowed, asks, at, bw0, k, sel, chosen, j);
      assert Claims(grown, chosen[..j]) == Claims(asks, chosen[..j]);
    }
  }

  lemma RoutingStuckHere(topo: Topology, allowed: set<nat>, asks: seq<Ask>, at: map<VnfId, NodeId>, bw0: seq<real>,
                         k: nat, sel: Selector, chosen: seq<seq<LinkId>>, routes: map<FlowKey, seq<LinkId>>,
                         bw: seq<real>, spent: real)
    requires |chosen| < |asks| && RuleState(topo, allowed, asks, at, bw0, k, sel, chosen, routes, bw, spent)
    requires NoRoute(topo, bw, allowed, asks[|chosen|].flow, at, asks[|chosen|].budget - spent, k)
    ensures RouteStuck(topo, allowed, asks, at, bw0, k, sel)
  {
    hide NoRoute, RuleRouted, BwLeft, ReservedDelay;
    assert StuckAfter(topo, allowed, asks, at, bw0, k, sel, chosen);
  }

  lemma AllChosen(topo: Topology, allowed: set<nat>, asks: seq<Ask>, at: map<VnfId, NodeId>, bw0: seq<real>, k: nat,
                  sel: Selector, chosen: seq<seq<LinkId>>, routes: map<FlowKey, seq<LinkId>>, bw: seq<real>,
                  spent: real)
    requires |chosen| == |asks| && RuleState(topo, allowed, asks, at, bw0, k, sel, chosen, routes, bw, spent)
    ensures RoutedByRule(topo, allowed, asks, at, bw0, k, sel, routes)
  {
    hide RecordedAs;
  }

  /** Getting stuck early is getting stuck: more flows and more placements do not help. */
  lemma StuckAnyway(topo: Topology, allowed: set<nat>, asks: seq<Ask>, more: seq<Ask>, at: map<VnfId, NodeId>,
                    wider: map<VnfId, NodeId>, bw0: seq<real>, k: nat, sel: Selector)
    requires RouteStuck(topo, allowed, asks, at, bw0, k, sel)
    requires forall v :: v in at ==> v in wider && wider[v] == at[v]
    ensures RouteStuck(topo, allowed, asks + more, wider, bw0, k, sel)
  {
    hide SelectedLinks, BwLeft, ReservedDelay, Eligible, Candidates;
    var grown := asks + more;
    var chosen :| StuckAfter(topo, allowed, asks, at, bw0, k, sel, chosen);
    assert Claims(grown, chosen) == Claims(asks, chosen);
    forall j | 0 <= j < |chosen| ensures StepRouted(topo, allowed, grown, wider, bw0, k, sel, chosen, j) {
      assert StepRouted(topo, allowed, asks, at, bw0, k, sel, chosen, j);
      assert Claims(grown, chosen[..j]) == Claims(asks, chosen[..j]);
    }
    assert StuckAfter(topo, allowed, grown, wider, bw0, k, sel, chosen);
  }

  /** The last route chosen between two hosts keeps the sum of all route delays within its budget. */
  lemma WithinBudget(topo: Topology, allowed: set<nat>, asks: seq<Ask>, at: map<VnfId, NodeId>, bw0: seq<real>, k: nat,
                     sel: Selector, chosen: seq<seq<LinkId>>)
    requires topo.Valid() && chosen != [] && RuleRouted(topo, allowed, asks, at, bw0, k, sel, chosen)
    requires var f := asks[|chosen| - 1].flow; f.src in at && f.dst in at && at[f.src] != at[f.dst]
    ensures ReservedDelay(topo, Claims(asks, chosen)) <= asks[|chosen| - 1].budget
  {
    var n := |chosen| - 1;
    var claims, links, f := Claims(asks, chosen[..n]), chosen[n], asks[n].flow;
    assert StepRouted(topo, allowed, asks, at, bw0, k, sel, chosen, n);
    ClaimsNext(asks, chosen[..n], links);
    assert chosen[..n] + [links] == chosen;
    ReservedDelayAppend(topo, claims, [Reservation(links, f.bandwidth)]);
    OneRouteDelay(topo, links, f.bandwidth);
    var left := asks[n].budget - ReservedDelay(topo, claims);
    RouteWithin(topo, BwLeft(topo, bw0, claims), allowed, f, at, left, k, sel, links);
  }

  lemma RouteWithin(topo: Topology, bw: seq<real>, allowed: set<nat>, f: Flow, at: map<VnfId, NodeId>, left: real,
                    k: nat, sel: Selector, links: seq<LinkId>)
    requires topo.Valid() && RouteChosen(topo, bw, allowed, f, at, left, k, sel, links) && at[f.src] != at[f.dst]
    ensures RouteDelay(topo, links) <= left
  {
    var s, t := at[f.src], at[f.dst];
    var paths := Candidates(topo, allowed, s, t, k);
    var r :| SelectedLinks(topo, bw, paths, f.bandwidth, left, sel, r, links);
    var i :| PickedAt(topo, bw, paths, f.bandwidth, left, sel, r, i);
    assert r.nodes in topo.simplePaths(allowed, s, t) && topo.SimplePath(allowed, r.nodes, s, t);
    hide Topology.Valid, Topology.SimplePath, Wide, Score, PickedAt;
    PathDelayIsRouteDelay(topo, allowed, r.nodes, 0, s, t);
    assert r.nodes[0..] == r.nodes;
  }
}
