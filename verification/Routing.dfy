/** Flow routing: keep the best of the k shortest simple paths that has the bandwidth and
    the delay budget, and the in-place bandwidth reservations. */
module Routing {
  import opened Types
  import opened Ledger
  import opened Substrate

  datatype RoutingMode = MinCost | MinDelay | MinHops

  /** A route scorer. `linkCost(capacity, residual)` stands for the logarithmic congestion
      cost of one link, which only ranks candidates. */
  datatype Selector = Selector(mode: RoutingMode, linkCost: (real, real) -> real)

  datatype RouteResult = RouteResult(feasible: bool, links: seq<LinkId>, nodes: seq<NodeId>, delay: real)

  const NO_ROUTE := RouteResult(false, [], [], 0.0)

  /** Link ids along a path, in order. */
  function LinksOf(topo: Topology, p: seq<NodeId>): (r: seq<LinkId>)
    ensures |r| == if |p| == 0 then 0 else |p| - 1
  {
    if |p| < 2 then [] else [LinkIdAt(topo, p[0], p[1])] + LinksOf(topo, p[1..])
  }

  function LinkIdAt(topo: Topology, u: NodeId, v: NodeId): LinkId {
    var e := topo.LinkIndex(u, v);
    if e < |topo.links| then topo.links[e].id else 0
  }

  function LinkDelay(topo: Topology, u: NodeId, v: NodeId): real {
    var e := topo.LinkIndex(u, v);
    if e < |topo.links| then topo.links[e].delay else 0.0
  }

  /** Propagation delay of the first i hops. */
  function DelayTo(topo: Topology, p: seq<NodeId>, i: nat): real
    requires i == 0 || i < |p|
  {
    if i == 0 then 0.0 else DelayTo(topo, p, i - 1) + LinkDelay(topo, p[i - 1], p[i])
  }

  function PathDelay(topo: Topology, p: seq<NodeId>): real {
    if |p| == 0 then 0.0 else DelayTo(topo, p, |p| - 1)
  }

  /** Congestion cost of the first i hops. */
  function CostTo(sel: Selector, topo: Topology, bw: seq<real>, p: seq<NodeId>, i: nat): real
    requires i == 0 || i < |p|
  {
    if i == 0 then 0.0
    else
      var e := topo.LinkIndex(p[i - 1], p[i]);
      CostTo(sel, topo, bw, p, i - 1)
        + (if e < |bw| && e < |topo.links| then sel.linkCost(topo.links[e].capacity, bw[e]) else 0.0)
  }

  function Score(sel: Selector, topo: Topology, bw: seq<real>, p: seq<NodeId>): real
  {
    if p == [] then 0.0
    else
      match sel.mode
      case MinHops => (|p| - 1) as real
      case MinDelay => DelayTo(topo, p, |p| - 1)
      case MinCost => CostTo(sel, topo, bw, p, |p| - 1)
  }

  /** Every link of the path has the bandwidth and the whole path fits the delay budget. */
  predicate Eligible(topo: Topology, bw: seq<real>, p: seq<NodeId>, demand: real, budget: real) {
    Wide(topo, bw, p, demand) && PathDelay(topo, p) <= budget
  }

  predicate Wide(topo: Topology, bw: seq<real>, p: seq<NodeId>, demand: real) {
    WideTo(topo, bw, p, demand, |p| - 1)
  }

  predicate WideTo(topo: Topology, bw: seq<real>, p: seq<NodeId>, demand: real, hops: int) {
    forall i :: 0 <= i < hops && i < |p| - 1 ==> HopFits(topo, bw, p[i], p[i + 1], demand)
  }

  predicate HopFits(topo: Topology, bw: seq<real>, u: NodeId, v: NodeId, demand: real) {
    topo.LinkIndex(u, v) < |bw| && bw[topo.LinkIndex(u, v)] >= demand
  }

  /** `links` is a walk from s to t over allowed links. */
  ghost predicate Connects(topo: Topology, allowed: set<nat>, links: seq<LinkId>, s: NodeId, t: NodeId) {
    if links == [] then s == t
    else exists e :: 0 <= e < |topo.links| && e in allowed && topo.links[e].id == links[0]
                  && topo.links[e].src == s && Connects(topo, allowed, links[1..], topo.links[e].dst, t)
  }

  /** What a feasible route promises: a simple path of the allowed subgraph between the two
      endpoints, wide enough everywhere and within the delay budget. */
  ghost predicate GoodRoute(topo: Topology, bw: seq<real>, allowed: set<nat>, r: RouteResult,
                            s: NodeId, t: NodeId, demand: real, budget: real)
  {
    && topo.SimplePath(allowed, r.nodes, s, t)
    && r.links == LinksOf(topo, r.nodes)
    && r.delay == PathDelay(topo, r.nodes)
    && Eligible(topo, bw, r.nodes, demand, budget)
  }

  method ScanPath(sub: SubstrateNetwork, p: seq<NodeId>, demand: real, ghost allowed: set<nat>, ghost s: NodeId,
                  ghost t: NodeId)
    returns (wide: bool, delay: real, links: seq<LinkId>)
    requires sub.Valid() && sub.topo.SimplePath(allowed, p, s, t)
    ensures wide <==> Wide(sub.topo, sub.bw, p, demand)
    ensures wide ==> delay == PathDelay(sub.topo, p) && links == LinksOf(sub.topo, p)
  {
    hide Topology.Valid, Topology.SimplePath, Topology.LinkIndex, LinksOf;
    HopsAreLinks(sub.topo, p, allowed, s, t);
    wide, delay, links := true, 0.0, [];
    var i := 0;
    while i < |p| - 1
      invariant 0 <= i <= |p| - 1
      invariant delay == DelayTo(sub.topo, p, i)
      invariant links + LinksOf(sub.topo, p[i..]) == LinksOf(sub.topo, p)
      invariant WideTo(sub.topo, sub.bw, p, demand, i)
    {
      var e := sub.topo.LinkIndex(p[i], p[i + 1]);
      if sub.bw[e] < demand {
        assert !HopFits(sub.topo, sub.bw, p[i], p[i + 1], demand);
        wide := false;
        return;
      }
      delay := delay + sub.topo.links[e].delay;
      links := links + [sub.topo.links[e].id];
      LinksOfStep(sub.topo, p, i);
      i := i + 1;
    }
    assert |LinksOf(sub.topo, p[i..])| == 0;
  }

  lemma HopsAreLinks(topo: Topology, p: seq<NodeId>, allowed: set<nat>, s: NodeId, t: NodeId)
    requires topo.Valid() && topo.SimplePath(allowed, p, s, t)
    ensures |p| > 0 && forall i :: 0 <= i < |p| - 1 ==> topo.LinkIndex(p[i], p[i + 1]) < |topo.links|
  {}

  lemma LinksOfStep(topo: Topology, p: seq<NodeId>, i: nat)
    requires i < |p| - 1
    ensures LinksOf(topo, p[i..]) == [LinkIdAt(topo, p[i], p[i + 1])] + LinksOf(topo, p[i + 1..])
  {
    assert p[i..][1..] == p[i + 1..];
  }

  /** Candidate i is the route, no eligible candidate scores better, and none before it as well. */
  ghost predicate PickedAt(topo: Topology, bw: seq<real>, paths: seq<seq<NodeId>>, demand: real, budget: real,
                           sel: Selector, best: RouteResult, i: int)
  {
    && 0 <= i < |paths| && paths[i] == best.nodes
    && forall j :: 0 <= j < |paths| && Eligible(topo, bw, paths[j], demand, budget) ==>
         && Score(sel, topo, bw, best.nodes) <= Score(sel, topo, bw, paths[j])
         && (j < i ==> Score(sel, topo, bw, best.nodes) < Score(sel, topo, bw, paths[j]))
  }

  /** The selection rule: the first best-scoring eligible candidate, or no route exactly when no
      candidate is eligible. */
  ghost predicate Selected(topo: Topology, bw: seq<real>, paths: seq<seq<NodeId>>, demand: real, budget: real,
                           sel: Selector, best: RouteResult)
  {
    if best.feasible then
      && (exists i :: PickedAt(topo, bw, paths, demand, budget, sel, best, i))
      && best.links == LinksOf(topo, best.nodes)
      && best.delay == PathDelay(topo, best.nodes)
      && Eligible(topo, bw, best.nodes, demand, budget)
    else
      best == NO_ROUTE && forall i :: 0 <= i < |paths| ==> !Eligible(topo, bw, paths[i], demand, budget)
  }

  /** The filter-and-select loop over the candidate paths. */
  method SelectPath(sub: SubstrateNetwork, paths: seq<seq<NodeId>>, demand: real, budget: real, sel: Selector,
                    ghost allowed: set<nat>, ghost s: NodeId, ghost t: NodeId)
    returns (best: RouteResult)
    requires sub.Valid()
    requires forall p :: p in paths ==> sub.topo.SimplePath(allowed, p, s, t)
    ensures Selected(sub.topo, sub.bw, paths, demand, budget, sel, best)
  {
    hide Topology.Valid, Topology.SimplePath, Wide, Score;
    best := NO_ROUTE;
    var bestScore := 0.0;
    var i := 0;
    while i < |paths|
      invariant 0 <= i <= |paths|
      invariant Selected(sub.topo, sub.bw, paths[..i], demand, budget, sel, best)
      invariant best.feasible ==> bestScore == Score(sel, sub.topo, sub.bw, best.nodes)
    {
      var p := paths[i];
      ghost var at: int := -1;
      if best.feasible {
        at :| PickedAt(sub.topo, sub.bw, paths[..i], demand, budget, sel, best, at);
      }
      var wide, delay, links := ScanPath(sub, p, demand, allowed, s, t);
      if wide && delay <= budget {
        var score := Score(sel, sub.topo, sub.bw, p);
        if !best.feasible || score < bestScore {
          bestScore := score;
          best := RouteResult(true, links, p, delay);
          at := i;
        }
      }
      assert paths[..i + 1] == paths[..i] + [p];
      assert best.feasible ==> PickedAt(sub.topo, sub.bw, paths[..i + 1], demand, budget, sel, best, at);
      i := i + 1;
    }
    assert paths[..i] == paths;
  }

  function FirstK(paths: seq<seq<NodeId>>, k: nat): seq<seq<NodeId>> {
    if |paths| <= k then paths else paths[..k]
  }

  /** The candidate paths a routing call looks at. */
  function Candidates(topo: Topology, allowed: set<nat>, s: NodeId, t: NodeId, k: nat): seq<seq<NodeId>> {
    FirstK(topo.simplePaths(allowed, s, t), k)
  }

  /** Route over the links in `allowed`: the whole graph, or the subgraph of one domain. */
  method RouteOver(sub: SubstrateNetwork, allowed: set<nat>, s: NodeId, t: NodeId, demand: real, budget: real,
                   k: nat, sel: Selector) returns (r: RouteResult)
    requires sub.Valid()
    ensures s == t ==> r == RouteResult(true, [], [s], 0.0)
    ensures s != t ==> Selected(sub.topo, sub.bw, Candidates(sub.topo, allowed, s, t, k), demand, budget, sel, r)
    ensures s != t && r.feasible ==> GoodRoute(sub.topo, sub.bw, allowed, r, s, t, demand, budget)
    ensures !r.feasible ==> r == NO_ROUTE
  {
    if s == t {
      return RouteResult(true, [], [s], 0.0);
    }
    var paths := Candidates(sub.topo, allowed, s, t, k);
    forall p | p in paths ensures sub.topo.SimplePath(allowed, p, s, t) {
      assert p in sub.topo.simplePaths(allowed, s, t);
    }
    r := SelectPath(sub, paths, demand, budget, sel, allowed, s, t);
  }

  /** Reserve bandwidth on every link of a route, in place. */
  method AllocateRouteBw(sub: SubstrateNetwork, links: seq<LinkId>, demand: real)
    requires sub.Valid()
    modifies sub`bw
    ensures sub.Valid()
    ensures LinksDebited(sub.topo, old(sub.bw), sub.bw, [Reservation(links, demand)])
  {
    var i := 0;
    while i < |links|
      invariant 0 <= i <= |links| && sub.Valid()
      invariant forall e :: 0 <= e < |sub.bw| ==>
                  sub.bw[e] - RouteLoad(links[i..], demand, sub.topo.links[e].id)
                  == old(sub.bw[e]) - RouteLoad(links, demand, sub.topo.links[e].id)
    {
      assert links[i..][1..] == links[i + 1..];
      sub.AddBandwidth(links[i], -demand);
      i := i + 1;
    }
    assert [Reservation(links, demand)][1..] == [];
  }

  /** Give a route's bandwidth back, in place. */
  method DeallocateRouteBw(sub: SubstrateNetwork, links: seq<LinkId>, demand: real)
    requires sub.Valid()
    modifies sub`bw
    ensures sub.Valid()
    ensures LinksDebited(sub.topo, sub.bw, old(sub.bw), [Reservation(links, demand)])
  {
    var i := 0;
    while i < |links|
      invariant 0 <= i <= |links| && sub.Valid()
      invariant forall e :: 0 <= e < |sub.bw| ==>
                  sub.bw[e] + RouteLoad(links[i..], demand, sub.topo.links[e].id)
                  == old(sub.bw[e]) + RouteLoad(links, demand, sub.topo.links[e].id)
    {
      assert links[i..][1..] == links[i + 1..];
      sub.AddBandwidth(links[i], demand);
      i := i + 1;
    }
    assert [Reservation(links, demand)][1..] == [];
  }

  lemma {:induction false} LinksOfAt(topo: Topology, p: seq<NodeId>, i: nat)
    requires i < |p| - 1
    ensures LinksOf(topo, p)[i] == LinkIdAt(topo, p[i], p[i + 1])
  {
    if i > 0 {
      LinksOfAt(topo, p[1..], i - 1);
    }
  }

  /** A simple path uses no link twice. */
  lemma SimplePathLinksDistinct(topo: Topology, allowed: set<nat>, p: seq<NodeId>, s: NodeId, t: NodeId)
    requires topo.Valid() && topo.SimplePath(allowed, p, s, t)
    ensures forall i, j :: 0 <= i < j < |LinksOf(topo, p)| ==> LinksOf(topo, p)[i] != LinksOf(topo, p)[j]
  {
    forall i, j | 0 <= i < j < |LinksOf(topo, p)| ensures LinksOf(topo, p)[i] != LinksOf(topo, p)[j] {
      LinksOfAt(topo, p, i);
      LinksOfAt(topo, p, j);
      var a, b := topo.LinkIndex(p[i], p[i + 1]), topo.LinkIndex(p[j], p[j + 1]);
      assert topo.links[a].src == p[i] && topo.links[b].src == p[j];
      assert a != b;
    }
  }

  /** Reserving an eligible simple path keeps every link residual non-negative. */
  lemma EligibleRouteKeepsNonNegative(topo: Topology, allowed: set<nat>, before: seq<real>, after: seq<real>,
                                      r: RouteResult, s: NodeId, t: NodeId, demand: real, budget: real)
    requires topo.Valid() && LinksNonNegative(before)
    requires GoodRoute(topo, before, allowed, r, s, t, demand, budget)
    requires LinksDebited(topo, before, after, [Reservation(r.links, demand)])
    ensures LinksNonNegative(after)
  {
    SimplePathLinksDistinct(topo, allowed, r.nodes, s, t);
    forall e | 0 <= e < |after| ensures after[e] >= 0.0 {
      var l := topo.links[e].id;
      RouteLoadOnce(r.links, demand, l);
      assert ReservedOn([Reservation(r.links, demand)], l) == RouteLoad(r.links, demand, l);
      if l in r.links {
        var i :| 0 <= i < |r.links| && r.links[i] == l;
        LinksOfAt(topo, r.nodes, i);
        assert topo.LinkIndex(r.nodes[i], r.nodes[i + 1]) == e;
      }
    }
  }

  /** The links of a simple path are a walk between its endpoints. */
  lemma {:induction false} PathConnects(topo: Topology, allowed: set<nat>, p: seq<NodeId>, s: NodeId, t: NodeId)
    requires topo.Valid() && topo.SimplePath(allowed, p, s, t)
    ensures Connects(topo, allowed, LinksOf(topo, p), s, t)
  {
    if |p| > 1 {
      var e := topo.LinkIndex(p[0], p[1]);
      assert forall i :: 0 <= i < |p| - 1 ==> p[1..][i] == p[i + 1];
      PathConnects(topo, allowed, p[1..], p[1], t);
      assert LinksOf(topo, p)[1..] == LinksOf(topo, p[1..]);
      assert 0 <= e < |topo.links| && e in allowed && topo.links[e].id == LinksOf(topo, p)[0];
    }
  }

  /** Propagation delay of the link with this id. */
  function DelayOf(links: seq<Link>, l: LinkId): real {
    if links == [] then 0.0
    else if links[|links| - 1].id == l then links[|links| - 1].delay
    else DelayOf(links[..|links| - 1], l)
  }

  /** Propagation delay of a route given by link ids. */
  function RouteDelay(topo: Topology, links: seq<LinkId>): real {
    if links == [] then 0.0 else DelayOf(topo.links, links[0]) + RouteDelay(topo, links[1..])
  }

  /** Propagation delay of all reserved routes together. */
  function ReservedDelay(topo: Topology, rs: seq<Reservation>): real {
    if rs == [] then 0.0
    else ReservedDelay(topo, rs[..|rs| - 1]) + RouteDelay(topo, rs[|rs| - 1].links)
  }

  lemma {:induction false} ReservedDelayAppend(topo: Topology, a: seq<Reservation>, b: seq<Reservation>)
    ensures ReservedDelay(topo, a + b) == ReservedDelay(topo, a) + ReservedDelay(topo, b)
  {
    if b == [] {
      assert a + b == a;
    } else {
      var front := b[..|b| - 1];
      assert (a + b)[..|a + b| - 1] == a + front;
      ReservedDelayAppend(topo, a, front);
    }
  }

  lemma OneRouteDelay(topo: Topology, links: seq<LinkId>, demand: real)
    ensures ReservedDelay(topo, [Reservation(links, demand)]) == RouteDelay(topo, links)
  {
    assert [Reservation(links, demand)][..0] == [];
  }

  lemma {:induction false} DelayOfUnique(links: seq<Link>, e: nat)
    requires e < |links| && forall i, j :: 0 <= i < j < |links| ==> links[i].id != links[j].id
    ensures DelayOf(links, links[e].id) == links[e].delay
  {
    if e < |links| - 1 {
      DelayOfUnique(links[..|links| - 1], e);
    }
  }

  /** Delay counted hop by hop along a path is the delay of its links. */
  lemma {:induction false} PathDelayIsRouteDelay(topo: Topology, allowed: set<nat>, p: seq<NodeId>, i: nat, s: NodeId,
                                                 t: NodeId)
    requires topo.Valid() && topo.SimplePath(allowed, p, s, t) && i < |p|
    ensures DelayTo(topo, p, i) + RouteDelay(topo, LinksOf(topo, p[i..])) == PathDelay(topo, p)
    decreases |p| - i
  {
    if i < |p| - 1 {
      HopsAreLinks(topo, p, allowed, s, t);
      PathDelayIsRouteDelay(topo, allowed, p, i + 1, s, t);
      LinksOfStep(topo, p, i);
      DelayOfUnique(topo.links, topo.LinkIndex(p[i], p[i + 1]));
    }
  }

  /** Domain borders crossed by all reserved routes together. */
  function ReservedCrossings(topo: Topology, rs: seq<Reservation>): nat {
    if rs == [] then 0
    else ReservedCrossings(topo, rs[..|rs| - 1]) + DomainCrossings(topo, rs[|rs| - 1].links)
  }

  /** How many links of a route join two different domains. */
  function DomainCrossings(topo: Topology, links: seq<LinkId>): nat {
    if links == [] then 0
    else (if CrossesDomains(topo, links[0]) then 1 else 0) + DomainCrossings(topo, links[1..])
  }

  predicate CrossesDomains(topo: Topology, l: LinkId) {
    exists e :: 0 <= e < |topo.links| && topo.links[e].id == l
             && topo.DomainOf(topo.links[e].src) != topo.DomainOf(topo.links[e].dst)
  }

  /** A walk between two domains crosses a domain border at least once. */
  lemma {:induction false} WalkCrosses(topo: Topology, allowed: set<nat>, links: seq<LinkId>, s: NodeId, t: NodeId)
    requires Connects(topo, allowed, links, s, t)
    requires topo.DomainOf(s) != topo.DomainOf(t)
    ensures DomainCrossings(topo, links) >= 1
  {
    var e :| 0 <= e < |topo.links| && e in allowed && topo.links[e].id == links[0]
             && topo.links[e].src == s && Connects(topo, allowed, links[1..], topo.links[e].dst, t);
    if topo.DomainOf(topo.links[e].dst) == topo.DomainOf(s) {
      WalkCrosses(topo, allowed, links[1..], topo.links[e].dst, t);
    }
  }

  // What a routing call decides.

  /** Every link between consecutive nodes of the path has the bandwidth left. */
  ghost predicate PathCarries(topo: Topology, bw: seq<real>, p: seq<NodeId>, demand: real) {
    forall i, e :: 0 <= i < |p| - 1 && 0 <= e < |topo.links| && topo.links[e].src == p[i]
                   && topo.links[e].dst == p[i + 1] ==>
      e < |bw| && bw[e] >= demand
  }

  /** Path j is among the first k listed, carries the demand and fits the delay budget. */
  ghost predicate Offers(topo: Topology, bw: seq<real>, allowed: set<nat>, s: NodeId, t: NodeId, k: nat, demand: real,
                         budget: real, j: int)
  {
    && 0 <= j < k && j < |topo.simplePaths(allowed, s, t)|
    && var p := topo.simplePaths(allowed, s, t)[j];
       PathCarries(topo, bw, p, demand) && RouteDelay(topo, LinksOf(topo, p)) <= budget
  }

  /** Congestion cost of the link with this id. */
  ghost function CostOf(sel: Selector, links: seq<Link>, bw: seq<real>, l: LinkId): real
    requires |bw| == |links|
  {
    if links == [] then 0.0
    else
      var n := |links| - 1;
      if links[n].id == l then sel.linkCost(links[n].capacity, bw[n]) else CostOf(sel, links[..n], bw[..n], l)
  }

  ghost function Congestion(sel: Selector, topo: Topology, bw: seq<real>, links: seq<LinkId>): real
    requires |bw| == |topo.links|
  {
    if links == [] then 0.0 else CostOf(sel, topo.links, bw, links[0]) + Congestion(sel, topo, bw, links[1..])
  }

  /** By the selection mode, the route p is at least as good as q: no longer in hops, no longer in
      delay, or no more congested. */
  ghost predicate AsGood(sel: Selector, topo: Topology, bw: seq<real>, p: seq<LinkId>, q: seq<LinkId>)
    requires |bw| == |topo.links|
  {
    match sel.mode
    case MinHops => |p| <= |q|
    case MinDelay => RouteDelay(topo, p) <= RouteDelay(topo, q)
    case MinCost => Congestion(sel, topo, bw, p) <= Congestion(sel, topo, bw, q)
  }

  /** Path j is on offer, no path on offer is better, and none listed before it is as good. */
  ghost predicate FirstBest(topo: Topology, bw: seq<real>, allowed: set<nat>, s: NodeId, t: NodeId, k: nat,
                            demand: real, budget: real, sel: Selector, j: int)
    requires |bw| == |topo.links|
  {
    && Offers(topo, bw, allowed, s, t, k, demand, budget, j)
    && forall m :: Offers(topo, bw, allowed, s, t, k, demand, budget, m) ==>
         var here, other := topo.simplePaths(allowed, s, t)[j], topo.simplePaths(allowed, s, t)[m];
         && AsGood(sel, topo, bw, LinksOf(topo, here), LinksOf(topo, other))
         && (m < j ==> !AsGood(sel, topo, bw, LinksOf(topo, other), LinksOf(topo, here)))
  }

  lemma {:induction false} CostOfUnique(sel: Selector, links: seq<Link>, bw: seq<real>, e: nat)
    requires e < |links| == |bw| && forall i, j :: 0 <= i < j < |links| ==> links[i].id != links[j].id
    ensures CostOf(sel, links, bw, links[e].id) == sel.linkCost(links[e].capacity, bw[e])
  {
    if e < |links| - 1 {
      CostOfUnique(sel, links[..|links| - 1], bw[..|links| - 1], e);
    }
  }

  /** Cost counted hop by hop along a path is the cost of its links. */
  lemma {:induction false} PathCostIsCongestion(sel: Selector, topo: Topology, bw: seq<real>, allowed: set<nat>,
                                                p: seq<NodeId>, i: nat, s: NodeId, t: NodeId)
    requires topo.Valid() && topo.SimplePath(allowed, p, s, t) && i < |p| && |bw| == |topo.links|
    ensures CostTo(sel, topo, bw, p, i) + Congestion(sel, topo, bw, LinksOf(topo, p[i..]))
         == CostTo(sel, topo, bw, p, |p| - 1)
    decreases |p| - i
  {
    if i < |p| - 1 {
      HopsAreLinks(topo, p, allowed, s, t);
      PathCostIsCongestion(sel, topo, bw, allowed, p, i + 1, s, t);
      LinksOfStep(topo, p, i);
      CostOfUnique(sel, topo.links, bw, topo.LinkIndex(p[i], p[i + 1]));
    } else {
      assert |LinksOf(topo, p[i..])| == 0;
    }
  }

  lemma ScoreMeans(sel: Selector, topo: Topology, bw: seq<real>, allowed: set<nat>, p: seq<NodeId>, q: seq<NodeId>,
                   s: NodeId, t: NodeId)
    requires topo.Valid() && |bw| == |topo.links|
    requires topo.SimplePath(allowed, p, s, t) && topo.SimplePath(allowed, q, s, t)
    ensures Score(sel, topo, bw, p) <= Score(sel, topo, bw, q)
       <==> AsGood(sel, topo, bw, LinksOf(topo, p), LinksOf(topo, q))
  {
    hide Topology.Valid, Topology.SimplePath, LinksOf, Congestion, RouteDelay, DelayTo, CostTo;
    WholePathScores(sel, topo, bw, allowed, p, s, t);
    WholePathScores(sel, topo, bw, allowed, q, s, t);
  }

  lemma WholePathScores(sel: Selector, topo: Topology, bw: seq<real>, allowed: set<nat>, p: seq<NodeId>, s: NodeId,
                        t: NodeId)
    requires topo.Valid() && |bw| == |topo.links| && topo.SimplePath(allowed, p, s, t)
    ensures p != [] && |LinksOf(topo, p)| == |p| - 1
    ensures DelayTo(topo, p, |p| - 1) == RouteDelay(topo, LinksOf(topo, p))
    ensures CostTo(sel, topo, bw, p, |p| - 1) == Congestion(sel, topo, bw, LinksOf(topo, p))
  {
    assert p != [] && p[0..] == p;
    hide Topology.Valid, Topology.SimplePath, LinksOf, Congestion, RouteDelay;
    PathDelayIsRouteDelay(topo, allowed, p, 0, s, t);
    PathCostIsCongestion(sel, topo, bw, allowed, p, 0, s, t);
  }

  lemma EligibleMeans(topo: Topology, bw: seq<real>, allowed: set<nat>, p: seq<NodeId>, s: NodeId, t: NodeId,
                      demand: real, budget: real)
    requires topo.Valid() && |bw| == |topo.links| && topo.SimplePath(allowed, p, s, t)
    ensures Eligible(topo, bw, p, demand, budget)
       <==> PathCarries(topo, bw, p, demand) && RouteDelay(topo, LinksOf(topo, p)) <= budget
  {
    WideMeans(topo, bw, allowed, p, s, t, demand);
    assert p[0..] == p;
    hide Wide, PathCarries;
    PathDelayIsRouteDelay(topo, allowed, p, 0, s, t);
  }

  lemma WideMeans(topo: Topology, bw: seq<real>, allowed: set<nat>, p: seq<NodeId>, s: NodeId, t: NodeId, demand: real)
    requires topo.Valid() && |bw| == |topo.links| && topo.SimplePath(allowed, p, s, t)
    ensures Wide(topo, bw, p, demand) <==> PathCarries(topo, bw, p, demand)
  {
    HopsAreLinks(topo, p, allowed, s, t);
    if Wide(topo, bw, p, demand) {
      forall i, e | 0 <= i < |p| - 1 && 0 <= e < |topo.links| && topo.links[e].src == p[i]
                    && topo.links[e].dst == p[i + 1]
        ensures bw[e] >= demand
      {
        assert HopFits(topo, bw, p[i], p[i + 1], demand) && topo.LinkIndex(p[i], p[i + 1]) == e;
      }
    }
    if PathCarries(topo, bw, p, demand) {
      forall i | 0 <= i < |p| - 1 ensures HopFits(topo, bw, p[i], p[i + 1], demand) {
        var e := topo.LinkIndex(p[i], p[i + 1]);
        assert topo.links[e].src == p[i] && topo.links[e].dst == p[i + 1];
      }
    }
  }

  lemma Listed(topo: Topology, allowed: set<nat>, s: NodeId, t: NodeId, k: nat, j: nat)
    requires topo.Valid()
    ensures j < |Candidates(topo, allowed, s, t, k)| <==> j < k && j < |topo.simplePaths(allowed, s, t)|
    ensures j < |Candidates(topo, allowed, s, t, k)| ==>
              && Candidates(topo, allowed, s, t, k)[j] == topo.simplePaths(allowed, s, t)[j]
              && topo.SimplePath(allowed, topo.simplePaths(allowed, s, t)[j], s, t)
  {
    var paths := topo.simplePaths(allowed, s, t);
    if j < |paths| {
      assert paths[j] in paths;
    }
  }

  /** What the selection among the candidates means: there is a route exactly when one of the
      first k listed paths carries the demand within the budget, and then it is the best of these
      by the selection mode, the first listed on a tie. */
  lemma SelectedMeans(topo: Topology, bw: seq<real>, allowed: set<nat>, s: NodeId, t: NodeId, k: nat, demand: real,
                      budget: real, sel: Selector, r: RouteResult)
    requires topo.Valid() && |bw| == |topo.links|
    requires Selected(topo, bw, Candidates(topo, allowed, s, t, k), demand, budget, sel, r)
    ensures r.feasible <==> exists j :: Offers(topo, bw, allowed, s, t, k, demand, budget, j)
    ensures r.feasible ==>
              exists j :: FirstBest(topo, bw, allowed, s, t, k, demand, budget, sel, j)
                && r.nodes == topo.simplePaths(allowed, s, t)[j] && r.links == LinksOf(topo, r.nodes)
  {
    var cands := Candidates(topo, allowed, s, t, k);
    forall j: nat
      ensures Offers(topo, bw, allowed, s, t, k, demand, budget, j)
         <==> j < |cands| && Eligible(topo, bw, cands[j], demand, budget)
    {
      Listed(topo, allowed, s, t, k, j);
      if j < |cands| {
        EligibleMeans(topo, bw, allowed, cands[j], s, t, demand, budget);
      }
    }
    hide Topology.Valid, Topology.SimplePath, Eligible, Offers, AsGood, Score, Candidates, LinksOf;
    assert forall j :: Offers(topo, bw, allowed, s, t, k, demand, budget, j) ==> j >= 0 by {
      OffersFrom(topo, bw, allowed, s, t, k, demand, budget);
    }
    if r.feasible {
      var i :| PickedAt(topo, bw, cands, demand, budget, sel, r, i);
      assert Offers(topo, bw, allowed, s, t, k, demand, budget, i);
      Listed(topo, allowed, s, t, k, i);
      forall j | Offers(topo, bw, allowed, s, t, k, demand, budget, j)
        ensures AsGood(sel, topo, bw, r.links, LinksOf(topo, topo.simplePaths(allowed, s, t)[j]))
        ensures j < i ==> !AsGood(sel, topo, bw, LinksOf(topo, topo.simplePaths(allowed, s, t)[j]), r.links)
      {
        Listed(topo, allowed, s, t, k, j);
        ScoreMeans(sel, topo, bw, allowed, cands[i], cands[j], s, t);
        ScoreMeans(sel, topo, bw, allowed, cands[j], cands[i], s, t);
      }
      assert FirstBest(topo, bw, allowed, s, t, k, demand, budget, sel, i);
    }
  }

  lemma OffersFrom(topo: Topology, bw: seq<real>, allowed: set<nat>, s: NodeId, t: NodeId, k: nat, demand: real,
                   budget: real)
    ensures forall j :: Offers(topo, bw, allowed, s, t, k, demand, budget, j) ==>
              0 <= j < |topo.simplePaths(allowed, s, t)|
  {}

  lemma FirstBestListed(topo: Topology, bw: seq<real>, allowed: set<nat>, s: NodeId, t: NodeId, k: nat, demand: real,
                        budget: real, sel: Selector)
    requires |bw| == |topo.links|
    ensures forall j :: FirstBest(topo, bw, allowed, s, t, k, demand, budget, sel, j) ==>
              0 <= j < |topo.simplePaths(allowed, s, t)|
  {}

  lemma EmptyRouteTakesNothing(topo: Topology, before: seq<real>, after: seq<real>, demand: real)
    requires LinksDebited(topo, before, after, [Reservation([], demand)])
    ensures after == before
  {
    forall e | 0 <= e < |after| ensures after[e] == before[e] {
      assert ReservedOn([Reservation([], demand)], topo.links[e].id) == 0.0 + ReservedOn([], topo.links[e].id);
    }
  }

  /** Route one flow and reserve its bandwidth: the step both actors and the coordinator take. */
  method RouteAndReserve(sub: SubstrateNetwork, allowed: set<nat>, s: NodeId, t: NodeId, demand: real, budget: real,
                         k: nat, sel: Selector) returns (r: RouteResult)
    requires sub.Valid() && LinksNonNegative(sub.bw)
    modifies sub`bw
    ensures sub.Valid() && LinksNonNegative(sub.bw)
    ensures s == t ==> r == RouteResult(true, [], [s], 0.0) && sub.bw == old(sub.bw)
    ensures s != t ==>
              Selected(sub.topo, old(sub.bw), Candidates(sub.topo, allowed, s, t, k), demand, budget, sel, r)
    ensures !r.feasible ==> sub.bw == old(sub.bw)
    ensures r.feasible ==> LinksDebited(sub.topo, old(sub.bw), sub.bw, [Reservation(r.links, demand)])
    ensures r.feasible ==> Connects(sub.topo, allowed, r.links, s, t)
    ensures r.feasible && s != t ==> r.delay <= budget
    ensures r.feasible ==> r.delay == RouteDelay(sub.topo, r.links)
    ensures s != t ==> (r.feasible <==> exists j :: Offers(sub.topo, old(sub.bw), allowed, s, t, k, demand, budget, j))
    ensures s != t && r.feasible ==>
              exists j :: FirstBest(sub.topo, old(sub.bw), allowed, s, t, k, demand, budget, sel, j)
                && r.nodes == sub.topo.simplePaths(allowed, s, t)[j] && r.links == LinksOf(sub.topo, r.nodes)
  {
    FirstBestListed(sub.topo, sub.bw, allowed, s, t, k, demand, budget, sel);
    hide Offers, FirstBest, Selected;
    r := RouteOver(sub, allowed, s, t, demand, budget, k, sel);
    if s != t {
      SelectedMeans(sub.topo, sub.bw, allowed, s, t, k, demand, budget, sel, r);
    }
    if r.feasible {
      AllocateRouteBw(sub, r.links, demand);
      if s == t {
        EmptyRouteTakesNothing(sub.topo, old(sub.bw), sub.bw, demand);
      } else {
        PathConnects(sub.topo, allowed, r.nodes, s, t);
        PathDelayIsRouteDelay(sub.topo, allowed, r.nodes, 0, s, t);
        assert r.nodes[0..] == r.nodes;
        EligibleRouteKeepsNonNegative(sub.topo, allowed, old(sub.bw), sub.bw, r, s, t, demand, budget);
      }
    }
  }
}
