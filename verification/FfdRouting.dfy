/** The routing phase of a first-fit-decreasing run: shortest paths over the links that still
    have the bandwidth, charged to the running residuals link by link. */
module FfdRouting {
  import opened Types
  import opened OrderedDict
  import opened Ledger
  import opened PlanLedger
  import opened Substrate
  import opened Routing
  import opened RouteRule
  import opened Actors
  import opened FfdPlacing

  /** The links that still have the bandwidth. */
  function WideLinks(topo: Topology, bw: seq<real>, demand: real): set<nat>
    requires |bw| == |topo.links|
  {
    set e | 0 <= e < |topo.links| && bw[e] >= demand
  }

  /** `links` are the links of a simple path over links with the bandwidth. */
  ghost predicate WidePath(topo: Topology, bw: seq<real>, demand: real, s: NodeId, t: NodeId, links: seq<LinkId>)
    requires |bw| == |topo.links|
  {
    exists p :: topo.SimplePath(WideLinks(topo, bw, demand), p, s, t) && links == LinksOf(topo, p)
  }

  /** Exactly the links on which this run has at least the demand left. */
  ghost predicate AllWide(topo: Topology, bw: seq<real>, running: map<LinkId, real>, demand: real, allowed: set<nat>)
    requires |bw| == |topo.links|
  {
    forall e: nat :: e in allowed <==>
      e < |topo.links| && demand <= if topo.links[e].id in running then running[topo.links[e].id] else bw[e]
  }

  /** The answer is the first path listed over those links, or none when none is listed. */
  ghost predicate FirstOverWide(topo: Topology, bw: seq<real>, running: map<LinkId, real>, demand: real, s: NodeId,
                                t: NodeId, r: Option<seq<LinkId>>)
    requires |bw| == |topo.links|
  {
    exists allowed :: AllWide(topo, bw, running, demand, allowed)
      && var paths := topo.simplePaths(allowed, s, t);
         if paths == [] then r == None else r == Some(LinksOf(topo, paths[0]))
  }

  /** The library's shortest path over the links that still have the bandwidth. */
  method ShortestPath(sub: SubstrateNetwork, state: PlacementState, s: NodeId, t: NodeId, demand: real)
    returns (r: Option<seq<LinkId>>)
    requires sub.Valid()
    ensures var bw := EffectiveBw(sub.topo, sub.bw, state.runningBw);
            && (r.None? <==> sub.topo.simplePaths(WideLinks(sub.topo, bw, demand), s, t) == [])
            && (r.Some? ==> r.value == LinksOf(sub.topo, sub.topo.simplePaths(WideLinks(sub.topo, bw, demand), s,
                                                                              t)[0]))
            && (r.Some? ==> WidePath(sub.topo, bw, demand, s, t, r.value))
    ensures FirstOverWide(sub.topo, sub.bw, state.runningBw, demand, s, t, r)
  {
    assert AllWide(sub.topo, sub.bw, state.runningBw, demand,
                   WideLinks(sub.topo, EffectiveBw(sub.topo, sub.bw, state.runningBw), demand));
    var bw := EffectiveBw(sub.topo, sub.bw, state.runningBw);
    var paths := sub.topo.simplePaths(WideLinks(sub.topo, bw, demand), s, t);
    if paths == [] {
      return None;
    }
    assert paths[0] in paths;
    r := Some(LinksOf(sub.topo, paths[0]));
  }

  /** Taking a wide path's bandwidth leaves no link below zero, and the path connects. */
  lemma WidePathIsSafe(topo: Topology, before: seq<real>, after: seq<real>, demand: real, s: NodeId, t: NodeId,
                       links: seq<LinkId>)
    requires topo.Valid() && |before| == |topo.links| && WidePath(topo, before, demand, s, t, links)
    requires LinksNonNegative(before) && LinksDebited(topo, before, after, [Reservation(links, demand)])
    ensures LinksNonNegative(after)
  {
    var p :| topo.SimplePath(WideLinks(topo, before, demand), p, s, t) && links == LinksOf(topo, p);
    assert Wide(topo, before, p, demand);
    var r := RouteResult(true, links, p, PathDelay(topo, p));
    EligibleRouteKeepsNonNegative(topo, WideLinks(topo, before, demand), before, after, r, s, t, demand, r.delay);
  }

  lemma WidePathConnects(topo: Topology, bw: seq<real>, demand: real, s: NodeId, t: NodeId, links: seq<LinkId>)
    requires topo.Valid() && |bw| == |topo.links| && WidePath(topo, bw, demand, s, t, links)
    ensures Connects(topo, topo.AllLinks(), links, s, t)
    ensures Chargeable(topo, links)
  {
    hide Topology.Valid, Topology.SimplePath, WideLinks, Connects, KnownLink, Topology.AllLinks, LinksOf;
    var p :| topo.SimplePath(WideLinks(topo, bw, demand), p, s, t) && links == LinksOf(topo, p);
    hide WidePath;
    WiderGraph(topo, WideLinks(topo, bw, demand), p, s, t);
    PathConnects(topo, topo.AllLinks(), p, s, t);
    SimplePathLinksDistinct(topo, topo.AllLinks(), p, s, t);
    PathLinksKnown(topo, topo.AllLinks(), p, s, t);
  }

  lemma WiderGraph(topo: Topology, allowed: set<nat>, p: seq<NodeId>, s: NodeId, t: NodeId)
    requires topo.SimplePath(allowed, p, s, t)
    ensures topo.SimplePath(topo.AllLinks(), p, s, t)
  {}

  lemma PathLinksKnown(topo: Topology, allowed: set<nat>, p: seq<NodeId>, s: NodeId, t: NodeId)
    requires topo.Valid() && topo.SimplePath(allowed, p, s, t)
    ensures forall i :: 0 <= i < |LinksOf(topo, p)| ==> KnownLink(topo, LinksOf(topo, p)[i])
  {
    HopsAreLinks(topo, p, allowed, s, t);
    hide Topology.Valid, Topology.SimplePath;
    forall i | 0 <= i < |LinksOf(topo, p)| ensures KnownLink(topo, LinksOf(topo, p)[i]) {
      LinksOfAt(topo, p, i);
      var e := topo.LinkIndex(p[i], p[i + 1]);
      assert e < |topo.links| && topo.links[e].id == LinksOf(topo, p)[i];
    }
  }

  /** Known links, none twice. */
  ghost predicate Chargeable(topo: Topology, links: seq<LinkId>) {
    && (forall i, j :: 0 <= i < j < |links| ==> links[i] != links[j])
    && forall i :: 0 <= i < |links| ==> KnownLink(topo, links[i])
  }

  ghost predicate KnownLink(topo: Topology, l: LinkId) {
    exists e :: 0 <= e < |topo.links| && topo.links[e].id == l
  }

  method FindLink(topo: Topology, l: LinkId) returns (e: nat)
    requires topo.Valid() && KnownLink(topo, l)
    ensures e < |topo.links| && topo.links[e].id == l
  {
    hide Topology.Valid;
    ghost var k :| 0 <= k < |topo.links| && topo.links[k].id == l;
    e := 0;
    while topo.links[e].id != l
      invariant e <= k
      decreases k - e
    {
      e := e + 1;
    }
  }

  /** One entry per link of a route, each with the flow's bandwidth. */
  function Entries(links: seq<LinkId>, demand: real): Dict<LinkId, real> {
    seq(|links|, i requires 0 <= i < |links| => (links[i], demand))
  }

  lemma {:induction false} EntriesDemand(links: seq<LinkId>, demand: real, l: LinkId)
    ensures EntryDemand(Entries(links, demand), l) == RouteLoad(links, demand, l)
  {
    if links != [] {
      var front, last := links[..|links| - 1], links[|links| - 1];
      assert Entries(links, demand)[..|links| - 1] == Entries(front, demand);
      EntriesDemand(front, demand, l);
      RouteLoadLast(front, last, demand, l);
      assert links == front + [last];
    }
  }

  lemma {:induction false} RouteLoadLast(links: seq<LinkId>, last: LinkId, demand: real, l: LinkId)
    ensures RouteLoad(links + [last], demand, l) == RouteLoad(links, demand, l) + if last == l then demand else 0.0
  {
    if links != [] {
      assert (links + [last])[1..] == links[1..] + [last];
      RouteLoadLast(links[1..], last, demand, l);
    } else {
      assert (links + [last])[1..] == [];
    }
  }

  lemma EffectiveBwNext(topo: Topology, bw: seq<real>, running: map<LinkId, real>, e: nat, x: real)
    requires topo.Valid() && e < |bw| == |topo.links|
    ensures EffectiveBw(topo, bw, running[topo.links[e].id := x]) == EffectiveBw(topo, bw, running)[e := x]
  {}

  /** Some of a route is charged: the links so far carry the demand once more. */
  ghost predicate Charged(topo: Topology, bw0: seq<real>, bw: seq<real>, links: seq<LinkId>, demand: real) {
    |bw0| == |bw| == |topo.links|
    && forall e :: 0 <= e < |bw| ==> bw[e] == bw0[e] - RouteLoad(links, demand, topo.links[e].id)
  }

  lemma ChargedNext(topo: Topology, bw0: seq<real>, bw: seq<real>, links: seq<LinkId>, i: nat, demand: real, e: nat,
                    x: real)
    requires topo.Valid() && i < |links| && Charged(topo, bw0, bw, links[..i], demand)
    requires e < |topo.links| && topo.links[e].id == links[i] && x == bw[e] - demand
    ensures Charged(topo, bw0, bw[e := x], links[..i + 1], demand)
  {
    assert links[..i + 1] == links[..i] + [links[i]];
    forall k | 0 <= k < |bw| ensures bw[e := x][k] == bw0[k] - RouteLoad(links[..i + 1], demand, topo.links[k].id) {
      RouteLoadLast(links[..i], links[i], demand, topo.links[k].id);
    }
  }

  ghost function Times(x: real, n: nat): real {
    if n == 0 then 0.0 else Times(x, n - 1) + x
  }

  ghost function PerLink(bandwidth: real, links: nat): real {
    bandwidth * (links as real)
  }

  lemma {:induction false} TimesIsProduct(x: real, n: nat)
    ensures Times(x, n) == PerLink(x, n)
  {
    if n > 0 {
      TimesIsProduct(x, n - 1);
      assert x * ((n - 1) as real) + x == x * (((n - 1) as real) + 1.0);
    }
  }

  // What the two bandwidth counters count.

  /** The topology records the link as leading between domains, or as staying inside one. */
  ghost predicate HasType(topo: Topology, l: LinkId, inter: bool) {
    exists e :: 0 <= e < |topo.links| && topo.links[e].id == l && topo.links[e].inter == inter
  }

  ghost function TypedSteps(topo: Topology, links: seq<LinkId>, inter: bool): set<nat> {
    set i: nat | i < |links| && HasType(topo, links[i], inter)
  }

  /** How many links of a route one counter counts. Without the distinction all count as inside. */
  ghost function StepsCounted(topo: Topology, links: seq<LinkId>, countInter: bool, inter: bool): nat {
    if countInter then |TypedSteps(topo, links, inter)| else if inter then 0 else |links|
  }

  ghost predicate CountsLink(topo: Topology, l: LinkId, countInter: bool, inter: bool) {
    if countInter then HasType(topo, l, inter) else !inter
  }

  lemma StepsNext(topo: Topology, links: seq<LinkId>, i: nat, countInter: bool, inter: bool)
    requires i < |links|
    ensures StepsCounted(topo, links[..i + 1], countInter, inter)
         == StepsCounted(topo, links[..i], countInter, inter)
            + if CountsLink(topo, links[i], countInter, inter) then 1 else 0
  {
    hide HasType;
    assert TypedSteps(topo, links[..i + 1], inter)
        == TypedSteps(topo, links[..i], inter) + if HasType(topo, links[i], inter) then {i} else {};
  }

  lemma OneType(topo: Topology, e: nat, inter: bool)
    requires topo.Valid() && e < |topo.links|
    ensures HasType(topo, topo.links[e].id, inter) <==> topo.links[e].inter == inter
  {}

  /** Bandwidth times the number of links one counter counts, summed. */
  ghost function TypeCost(topo: Topology, rs: seq<Reservation>, countInter: bool, inter: bool): real {
    if rs == [] then 0.0
    else
      var r := rs[|rs| - 1];
      TypeCost(topo, rs[..|rs| - 1], countInter, inter)
        + PerLink(r.bandwidth, StepsCounted(topo, r.links, countInter, inter))
  }

  lemma TypeCostNext(topo: Topology, rs: seq<Reservation>, r: Reservation, countInter: bool, inter: bool)
    ensures TypeCost(topo, rs + [r], countInter, inter)
         == TypeCost(topo, rs, countInter, inter)
            + PerLink(r.bandwidth, StepsCounted(topo, r.links, countInter, inter))
  {
    assert (rs + [r])[..|rs|] == rs;
  }

  ghost predicate Split(topo: Topology, rs: seq<Reservation>, countInter: bool, intra: real, inter: real) {
    intra == TypeCost(topo, rs, countInter, false) && inter == TypeCost(topo, rs, countInter, true)
  }

  lemma SplitNext(topo: Topology, rs: seq<Reservation>, r: Reservation, countInter: bool, intra: real, inter: real,
                  intra': real, inter': real)
    requires Split(topo, rs, countInter, intra, inter)
    requires Counted(topo, r.links, |r.links|, r.bandwidth, countInter, intra, inter, intra', inter')
    ensures Split(topo, rs + [r], countInter, intra', inter')
    ensures intra' + inter' == intra + inter + LengthCost(r.bandwidth, r.links)
    ensures !countInter ==> inter' == inter
  {
    hide StepsCounted, Times, PerLink;
    assert r.links[..|r.links|] == r.links;
    TimesIsProduct(r.bandwidth, |r.links|);
    TimesIsProduct(r.bandwidth, StepsCounted(topo, r.links, countInter, false));
    TimesIsProduct(r.bandwidth, StepsCounted(topo, r.links, countInter, true));
    TypeCostNext(topo, rs, r, countInter, false);
    TypeCostNext(topo, rs, r, countInter, true);
  }

  lemma NothingSplit(topo: Topology, countInter: bool, demand: real)
    ensures Split(topo, [], countInter, 0.0, 0.0)
    ensures StepsCounted(topo, [], countInter, true) == 0 && StepsCounted(topo, [], countInter, false) == 0
    ensures Times(demand, 0) == 0.0
  {
    assert forall inter :: TypedSteps(topo, [], inter) == {};
  }

  /** The counters after the first n links of a route. */
  ghost predicate Counted(topo: Topology, links: seq<LinkId>, n: nat, demand: real, countInter: bool, intra0: real,
                          inter0: real, intra: real, inter: real)
  {
    && n <= |links|
    && intra == intra0 + Times(demand, StepsCounted(topo, links[..n], countInter, false))
    && inter == inter0 + Times(demand, StepsCounted(topo, links[..n], countInter, true))
    && intra + inter == intra0 + inter0 + Times(demand, n) && (!countInter ==> inter == inter0)
  }

  lemma CountedNext(topo: Topology, links: seq<LinkId>, n: nat, demand: real, countInter: bool, intra0: real,
                    inter0: real, intra: real, inter: real, intra': real, inter': real)
    requires Counted(topo, links, n, demand, countInter, intra0, inter0, intra, inter) && n < |links|
    requires intra' == intra + if CountsLink(topo, links[n], countInter, false) then demand else 0.0
    requires inter' == inter + if CountsLink(topo, links[n], countInter, true) then demand else 0.0
    requires intra' + inter' == intra + inter + demand && (!countInter ==> inter' == inter)
    ensures Counted(topo, links, n + 1, demand, countInter, intra0, inter0, intra', inter')
  {
    hide StepsCounted, CountsLink;
    StepsNext(topo, links, n, countInter, false);
    StepsNext(topo, links, n, countInter, true);
  }

  lemma NothingCounted(topo: Topology, links: seq<LinkId>, demand: real, countInter: bool, intra: real, inter: real)
    ensures Counted(topo, links, 0, demand, countInter, intra, inter, intra, inter)
  {
    NothingSplit(topo, countInter, demand);
    assert links[..0] == [];
  }

  /** Charge one link. */
  method ChargeLink(sub: SubstrateNetwork, state: PlacementState, l: LinkId, demand: real, countInter: bool)
    returns (ghost e: nat, ghost left: real)
    requires sub.Valid() && KnownLink(sub.topo, l)
    modifies state`runningBw, state`intraBw, state`interBw
    ensures e < |sub.bw| == |sub.topo.links| && sub.topo.links[e].id == l
    ensures left == EffectiveBw(sub.topo, sub.bw, old(state.runningBw))[e] - demand
    ensures EffectiveBw(sub.topo, sub.bw, state.runningBw)
        == EffectiveBw(sub.topo, sub.bw, old(state.runningBw))[e := left]
    ensures state.intraBw + state.interBw == old(state.intraBw) + old(state.interBw) + demand
    ensures !countInter ==> state.interBw == old(state.interBw)
    ensures state.intraBw
         == old(state.intraBw) + if CountsLink(sub.topo, l, countInter, false) then demand else 0.0
    ensures state.interBw
         == old(state.interBw) + if CountsLink(sub.topo, l, countInter, true) then demand else 0.0
  {
    hide EffectiveBw, KnownLink, HasType;
    var k := FindLink(sub.topo, l);
    OneType(sub.topo, k, true);
    OneType(sub.topo, k, false);
    EffectiveAt(sub.topo, sub.bw, state.runningBw, k);
    var x := state.BwAfter(sub, k) - demand;
    EffectiveBwNext(sub.topo, sub.bw, state.runningBw, k, x);
    e, left := k, x;
    state.runningBw := state.runningBw[l := x];
    if countInter && sub.topo.links[k].inter {
      state.interBw := state.interBw + demand;
    } else {
      state.intraBw := state.intraBw + demand;
    }
  }

  /** Charge one route link by link; the two cost counters split it by link type. */
  method ChargeRoute(sub: SubstrateNetwork, state: PlacementState, links: seq<LinkId>, demand: real, countInter: bool)
    returns (entries: Dict<LinkId, real>)
    requires sub.Valid() && Chargeable(sub.topo, links)
    modifies state`runningBw, state`intraBw, state`interBw
    ensures entries == Entries(links, demand)
    ensures Charged(sub.topo, EffectiveBw(sub.topo, sub.bw, old(state.runningBw)),
                    EffectiveBw(sub.topo, sub.bw, state.runningBw), links, demand)
    ensures Counted(sub.topo, links, |links|, demand, countInter, old(state.intraBw), old(state.interBw),
                    state.intraBw, state.interBw)
  {
    ghost var bw0 := EffectiveBw(sub.topo, sub.bw, state.runningBw);
    NothingCharged(sub.topo, bw0, links, demand);
    NothingCounted(sub.topo, links, demand, countInter, state.intraBw, state.interBw);
    hide Topology.Valid, Charged, KnownLink, EffectiveBw, Put, Chargeable, CountsLink, Counted;
    entries := [];
    var i := 0;
    while i < |links|
      invariant 0 <= i <= |links| && entries == Entries(links[..i], demand)
      invariant Charged(sub.topo, bw0, EffectiveBw(sub.topo, sub.bw, state.runningBw), links[..i], demand)
      invariant Counted(sub.topo, links, i, demand, countInter, old(state.intraBw), old(state.interBw), state.intraBw,
                        state.interBw)
    {
      ghost var was := EffectiveBw(sub.topo, sub.bw, state.runningBw);
      ghost var intra, inter := state.intraBw, state.interBw;
      NextEntry(sub.topo, links, i, demand);
      ghost var e, left := ChargeLink(sub, state, links[i], demand, countInter);
      ChargedNext(sub.topo, bw0, was, links, i, demand, e, left);
      CountedNext(sub.topo, links, i, demand, countInter, old(state.intraBw), old(state.interBw), intra, inter,
                  state.intraBw, state.interBw);
      entries := Put(entries, links[i], demand);
      i := i + 1;
    }
    assert links[..i] == links;
  }

  lemma NothingCharged(topo: Topology, bw: seq<real>, links: seq<LinkId>, demand: real)
    requires |bw| == |topo.links|
    ensures Charged(topo, bw, bw, links[..0], demand) && Times(demand, 0) == 0.0
  {}

  lemma EffectiveAt(topo: Topology, bw: seq<real>, running: map<LinkId, real>, e: nat)
    requires e < |bw| == |topo.links|
    ensures EffectiveBw(topo, bw, running)[e] == if topo.links[e].id in running then running[topo.links[e].id]
        else bw[e]
  {}

  lemma NextEntry(topo: Topology, links: seq<LinkId>, i: nat, demand: real)
    requires i < |links| && Chargeable(topo, links)
    ensures KnownLink(topo, links[i])
    ensures Put(Entries(links[..i], demand), links[i], demand) == Entries(links[..i + 1], demand)
  {
    PutFresh(Entries(links[..i], demand), links[i], demand);
  }

  /** One flow as the run recorded it: its route joins the two hosts (empty on one host), and
      its bandwidth is entered once per link. */
  ghost predicate RoutedAs(topo: Topology, f: Flow, placements: Dict<VnfId, NodeId>, routes: map<FlowKey, seq<LinkId>>,
                           entry: (FlowKey, Dict<LinkId, real>), r: Reservation)
  {
    && Find(placements, f.src).Some? && Find(placements, f.dst).Some? && f.Key() in routes
    && r == Reservation(routes[f.Key()], f.bandwidth) && entry == (f.Key(), Entries(routes[f.Key()], f.bandwidth))
    && Connects(topo, topo.AllLinks(), routes[f.Key()], Find(placements, f.src).value, Find(placements, f.dst).value)
    && (Find(placements, f.src) == Find(placements, f.dst) ==> routes[f.Key()] == [])
  }

  /** Where the routing phase stands after the first flows: all routed, the links carry exactly
      their reservations, none below zero, and the counters add up to the routes' cost. */
  ghost predicate RoutedFirst(topo: Topology, bw0: seq<real>, flows: seq<Flow>, placements: Dict<VnfId, NodeId>,
                              routes: map<FlowKey, seq<LinkId>>, bandwidth: Dict<FlowKey, Dict<LinkId, real>>,
                              running: map<LinkId, real>, rs: seq<Reservation>, total: real)
  {
    && AllRouted(topo, flows, placements, routes, bandwidth, rs)
    && LinkLedger(topo, bw0, EffectiveBw(topo, bw0, running), rs) && total == RouteCost(rs)
  }

  ghost predicate AllRouted(topo: Topology, flows: seq<Flow>, placements: Dict<VnfId, NodeId>,
                            routes: map<FlowKey, seq<LinkId>>, bandwidth: Dict<FlowKey, Dict<LinkId, real>>,
                            rs: seq<Reservation>)
  {
    && |rs| == |bandwidth| <= |flows|
    && forall j :: 0 <= j < |rs| ==> RoutedAs(topo, flows[j], placements, routes, bandwidth[j], rs[j])
  }

  /** Bandwidth times route length, summed. */
  ghost function RouteCost(rs: seq<Reservation>): real {
    if rs == [] then 0.0 else RouteCost(rs[..|rs| - 1]) + LengthCost(rs[|rs| - 1].bandwidth, rs[|rs| - 1].links)
  }

  ghost function LengthCost(bandwidth: real, links: seq<LinkId>): real {
    PerLink(bandwidth, |links|)
  }

  ghost predicate DistinctKeys(flows: seq<Flow>) {
    forall i, j :: 0 <= i < j < |flows| ==> flows[i].Key() != flows[j].Key()
  }

  lemma ChargedIsDebited(topo: Topology, bw0: seq<real>, bw1: seq<real>, bw2: seq<real>, rs: seq<Reservation>,
                         links: seq<LinkId>, demand: real)
    requires LinksDebited(topo, bw0, bw1, rs) && Charged(topo, bw1, bw2, links, demand)
    ensures LinksDebited(topo, bw1, bw2, [Reservation(links, demand)])
    ensures LinksDebited(topo, bw0, bw2, rs + [Reservation(links, demand)])
  {
    var one := [Reservation(links, demand)];
    assert one[1..] == [];
    forall e | 0 <= e < |bw2| ensures bw2[e] == bw1[e] - ReservedOn(one, topo.links[e].id) {
      assert ReservedOn(one, topo.links[e].id)
          == RouteLoad(links, demand, topo.links[e].id) + ReservedOn([], topo.links[e].id);
    }
    DebitsCompose(topo, bw0, bw1, bw2, rs, one);
  }

  lemma RoutedNext(topo: Topology, bw0: seq<real>, flows: seq<Flow>, placements: Dict<VnfId, NodeId>,
                   routes: map<FlowKey, seq<LinkId>>, bandwidth: Dict<FlowKey, Dict<LinkId, real>>,
                   running: map<LinkId, real>, rs: seq<Reservation>, total: real,
                   links: seq<LinkId>, running': map<LinkId, real>, total': real)
    requires RoutedFirst(topo, bw0, flows, placements, routes, bandwidth, running, rs, total)
    requires |rs| < |flows| && DistinctKeys(flows)
    requires var f := flows[|rs|];
             && Find(placements, f.src).Some? && Find(placements, f.dst).Some?
             && Connects(topo, topo.AllLinks(), links, Find(placements, f.src).value, Find(placements, f.dst).value)
             && (Find(placements, f.src) == Find(placements, f.dst) ==> links == [])
             && Charged(topo, EffectiveBw(topo, bw0, running), EffectiveBw(topo, bw0, running'), links, f.bandwidth)
             && total' == total + LengthCost(f.bandwidth, links)
    requires LinksNonNegative(EffectiveBw(topo, bw0, running'))
    ensures var f := flows[|rs|];
            RoutedFirst(topo, bw0, flows, placements, routes[f.Key() := links],
                        Put(bandwidth, f.Key(), Entries(links, f.bandwidth)), running',
                        rs + [Reservation(links, f.bandwidth)], total')
  {
    hide LinksDebited, EffectiveBw, Connects, Find, Put, RouteCost, Charged, Entries, LinksNonNegative, LengthCost;
    var k := |rs|;
    var f := flows[k];
    var r := Reservation(links, f.bandwidth);
    var entries := Entries(links, f.bandwidth);
    ChargedIsDebited(topo, bw0, EffectiveBw(topo, bw0, running), EffectiveBw(topo, bw0, running'), rs, links,
                     f.bandwidth);
    RouteCostNext(rs, r);
    assert forall j :: 0 <= j < k ==> bandwidth[j].0 == flows[j].Key();
    PutFresh(bandwidth, f.Key(), entries);
    hide RoutedAs;
  }

  lemma RouteCostNext(rs: seq<Reservation>, r: Reservation)
    ensures RouteCost(rs + [r]) == RouteCost(rs) + LengthCost(r.bandwidth, r.links)
  {
    hide LengthCost;
    assert (rs + [r])[..|rs|] == rs;
  }

  // The rule every route follows, and the only way routing fails.

  /** The first path the library lists over the links that still have the bandwidth. */
  ghost predicate FirstPath(topo: Topology, bw: seq<real>, f: Flow, placements: Dict<VnfId, NodeId>, r: Reservation)
    requires |bw| == |topo.links|
  {
    && Find(placements, f.src).Some? && Find(placements, f.dst).Some? && r.bandwidth == f.bandwidth
    && var s, t := Find(placements, f.src).value, Find(placements, f.dst).value;
       if s == t then r.links == []
       else
         var paths := topo.simplePaths(WideLinks(topo, bw, f.bandwidth), s, t);
         paths != [] && r.links == LinksOf(topo, paths[0])
  }

  ghost predicate NoPath(topo: Topology, bw: seq<real>, f: Flow, placements: Dict<VnfId, NodeId>)
    requires |bw| == |topo.links|
  {
    && Find(placements, f.src).Some? && Find(placements, f.dst).Some?
    && Find(placements, f.src) != Find(placements, f.dst)
    && topo.simplePaths(WideLinks(topo, bw, f.bandwidth), Find(placements, f.src).value, Find(placements, f.dst).value)
        == []
  }

  ghost predicate FirstPathAt(topo: Topology, bw0: seq<real>, flows: seq<Flow>, placements: Dict<VnfId, NodeId>,
                              rs: seq<Reservation>, j: int)
    requires |bw0| == |topo.links|
  {
    0 <= j < |rs| <= |flows| && FirstPath(topo, BwLeft(topo, bw0, rs[..j]), flows[j], placements, rs[j])
  }

  /** Each flow takes the first path on what the flows before it left. */
  ghost predicate FirstPaths(topo: Topology, bw0: seq<real>, flows: seq<Flow>, placements: Dict<VnfId, NodeId>,
                             rs: seq<Reservation>)
    requires |bw0| == |topo.links|
  {
    |rs| <= |flows| && forall j :: 0 <= j < |rs| ==> FirstPathAt(topo, bw0, flows, placements, rs, j)
  }

  /** After the flows before it took theirs, no path with the bandwidth joins this flow's hosts. */
  ghost predicate CutOff(topo: Topology, bw0: seq<real>, flows: seq<Flow>, placements: Dict<VnfId, NodeId>,
                         rs: seq<Reservation>)
    requires |bw0| == |topo.links|
  {
    && |rs| < |flows| && FirstPaths(topo, bw0, flows, placements, rs)
    && NoPath(topo, BwLeft(topo, bw0, rs), flows[|rs|], placements)
  }

  ghost predicate RoutingStuck(topo: Topology, bw0: seq<real>, flows: seq<Flow>, placements: Dict<VnfId, NodeId>)
    requires |bw0| == |topo.links|
  {
    exists rs :: CutOff(topo, bw0, flows, placements, rs)
  }

  /** Every flow took its first path, and these are the routes on record. */
  ghost predicate RoutedFirstPaths(topo: Topology, bw0: seq<real>, flows: seq<Flow>, placements: Dict<VnfId, NodeId>,
                                   routes: map<FlowKey, seq<LinkId>>)
    requires |bw0| == |topo.links|
  {
    exists rs :: OnRecord(flows, routes, rs) && FirstPaths(topo, bw0, flows, placements, rs)
  }

  ghost predicate OnRecord(flows: seq<Flow>, routes: map<FlowKey, seq<LinkId>>, rs: seq<Reservation>) {
    |rs| == |flows| && forall j :: 0 <= j < |rs| ==> flows[j].Key() in routes && routes[flows[j].Key()] == rs[j].links
  }

  lemma FirstPathsNext(topo: Topology, bw0: seq<real>, flows: seq<Flow>, placements: Dict<VnfId, NodeId>,
                       rs: seq<Reservation>, r: Reservation)
    requires |bw0| == |topo.links| && |rs| < |flows| && FirstPaths(topo, bw0, flows, placements, rs)
    requires FirstPath(topo, BwLeft(topo, bw0, rs), flows[|rs|], placements, r)
    ensures FirstPaths(topo, bw0, flows, placements, rs + [r])
  {
    hide FirstPath, BwLeft;
    var next := rs + [r];
    forall j | 0 <= j < |next| ensures FirstPathAt(topo, bw0, flows, placements, next, j) {
      assert next[..j] == rs[..j];
      if j < |rs| {
        assert FirstPathAt(topo, bw0, flows, placements, rs, j);
      } else {
        assert rs[..j] == rs;
      }
    }
  }

  /** The rule leaves no choice. */
  lemma {:induction false} OneRouting(topo: Topology, bw0: seq<real>, flows: seq<Flow>, placements: Dict<VnfId, NodeId>,
                                      a: seq<Reservation>, b: seq<Reservation>, i: nat)
    requires |bw0| == |topo.links| && i <= |a| && i <= |b|
    requires FirstPaths(topo, bw0, flows, placements, a) && FirstPaths(topo, bw0, flows, placements, b)
    ensures a[..i] == b[..i]
  {
    hide BwLeft, Find, WideLinks, LinksOf;
    if i > 0 {
      OneRouting(topo, bw0, flows, placements, a, b, i - 1);
      assert FirstPathAt(topo, bw0, flows, placements, a, i - 1) && FirstPathAt(topo, bw0, flows, placements, b, i - 1);
    }
  }

  /** Either every flow finds its path or some flow is cut off, never both. */
  lemma RoutedOrCut(topo: Topology, bw0: seq<real>, flows: seq<Flow>, placements: Dict<VnfId, NodeId>,
                    routes: map<FlowKey, seq<LinkId>>)
    requires |bw0| == |topo.links| && RoutedFirstPaths(topo, bw0, flows, placements, routes)
    ensures !RoutingStuck(topo, bw0, flows, placements)
  {
    hide BwLeft, Find, WideLinks, LinksOf;
    var all :| OnRecord(flows, routes, all) && FirstPaths(topo, bw0, flows, placements, all);
    forall rs ensures !CutOff(topo, bw0, flows, placements, rs) {
      if CutOff(topo, bw0, flows, placements, rs) {
        assert rs[..|rs|] == rs;
        assert FirstPathAt(topo, bw0, flows, placements, all, |rs|);
        OneRouting(topo, bw0, flows, placements, all, rs, |rs|);
      }
    }
  }

  /** Route one flow, or report that no wide path joins its hosts. */
  method RouteFlow(sub: SubstrateNetwork, state: PlacementState, f: Flow, countInter: bool, ghost flows: seq<Flow>,
                   ghost rs: seq<Reservation>, ghost total: real)
    returns (ok: bool, ghost rs': seq<Reservation>, ghost total': real)
    requires sub.Valid() && DistinctKeys(flows) && |rs| < |flows| && f == flows[|rs|]
    requires Find(state.placements, f.src).Some? && Find(state.placements, f.dst).Some?
    requires total == state.intraBw + state.interBw
    requires RoutedFirst(sub.topo, sub.bw, flows, state.placements, state.routes, state.bandwidth, state.runningBw, rs,
                         total)
    requires FirstPaths(sub.topo, sub.bw, flows, state.placements, rs)
    requires Split(sub.topo, rs, countInter, state.intraBw, state.interBw)
    modifies state`routes, state`bandwidth, state`runningBw, state`intraBw, state`interBw
    ensures ok ==> FirstPaths(sub.topo, sub.bw, flows, state.placements, rs')
    ensures ok ==> |rs'| == |rs| + 1 && total' == state.intraBw + state.interBw
    ensures ok ==> RoutedFirst(sub.topo, sub.bw, flows, state.placements, state.routes, state.bandwidth,
                               state.runningBw, rs', total')
    ensures !countInter ==> state.interBw == old(state.interBw)
    ensures ok ==> Split(sub.topo, rs', countInter, state.intraBw, state.interBw)
    ensures !ok ==> RoutingStuck(sub.topo, sub.bw, flows, state.placements)
  {
    hide Topology.Valid, RoutedFirst, Connects, Find, Put, Charged, EffectiveBw, WidePath, LinksNonNegative,
         LinksDebited, LengthCost, WideLinks, FirstPaths, BwLeft, Split, Counted;
    ghost var running := state.runningBw;
    ghost var intra, inter := state.intraBw, state.interBw;
    RoutedLedger(sub.topo, sub.bw, flows, state.placements, state.routes, state.bandwidth, running, rs, total);
    var s, t := Find(state.placements, f.src).value, Find(state.placements, f.dst).value;
    var links: seq<LinkId>, entries: Dict<LinkId, real> := [], [];
    if s == t {
      StaysHere(sub.topo, EffectiveBw(sub.topo, sub.bw, running), f.bandwidth, s);
      NothingCounted(sub.topo, links, f.bandwidth, countInter, intra, inter);
    } else {
      var path := ShortestPath(sub, state, s, t, f.bandwidth);
      if path.None? {
        assert CutOff(sub.topo, sub.bw, flows, state.placements, rs);
        ok, rs', total' := false, rs, total;
        return;
      }
      links := path.value;
      WidePathConnects(sub.topo, EffectiveBw(sub.topo, sub.bw, running), f.bandwidth, s, t, links);
      entries := ChargeRoute(sub, state, links, f.bandwidth, countInter);
      ghost var after := EffectiveBw(sub.topo, sub.bw, state.runningBw);
      ChargedIsDebited(sub.topo, sub.bw, EffectiveBw(sub.topo, sub.bw, running), after, rs, links, f.bandwidth);
      WidePathIsSafe(sub.topo, EffectiveBw(sub.topo, sub.bw, running), after, f.bandwidth, s, t, links);
    }
    total' := state.intraBw + state.interBw;
    SplitNext(sub.topo, rs, Reservation(links, f.bandwidth), countInter, intra, inter, state.intraBw, state.interBw);
    FirstPathsNext(sub.topo, sub.bw, flows, state.placements, rs, Reservation(links, f.bandwidth));
    RoutedNext(sub.topo, sub.bw, flows, state.placements, state.routes, state.bandwidth, running, rs, total, links,
               state.runningBw, total');
    state.routes := state.routes[f.Key() := links];
    state.bandwidth := Put(state.bandwidth, f.Key(), entries);
    ok, rs' := true, rs + [Reservation(links, f.bandwidth)];
  }

  lemma RoutedLedger(topo: Topology, bw0: seq<real>, flows: seq<Flow>, placements: Dict<VnfId, NodeId>,
                     routes: map<FlowKey, seq<LinkId>>, bandwidth: Dict<FlowKey, Dict<LinkId, real>>,
                     running: map<LinkId, real>, rs: seq<Reservation>, total: real)
    requires RoutedFirst(topo, bw0, flows, placements, routes, bandwidth, running, rs, total)
    ensures LinksDebited(topo, bw0, EffectiveBw(topo, bw0, running), rs)
    ensures LinksNonNegative(EffectiveBw(topo, bw0, running)) && |EffectiveBw(topo, bw0, running)| == |topo.links|
    ensures EffectiveBw(topo, bw0, running) == BwLeft(topo, bw0, rs)
  {
    DebitedIsLeft(topo, bw0, EffectiveBw(topo, bw0, running), rs);
  }

  /** Routing to the same host takes nothing. */
  lemma StaysHere(topo: Topology, bw: seq<real>, demand: real, s: NodeId)
    requires |bw| == |topo.links|
    ensures Charged(topo, bw, bw, [], demand) && Connects(topo, topo.AllLinks(), [], s, s) && Entries([], demand) == []
    ensures LengthCost(demand, []) == 0.0
  {}
}
