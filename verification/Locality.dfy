/** An actor sees its own domain only: its nodes, and the links inside it. Two states that agree
    there get the same answer. */
module Locality {
  import opened Types
  import opened OrderedDict
  import opened Ledger
  import opened Routing
  import opened RouteRule
  import opened Actors
  import opened DemandOrder
  import GreedyActor
  import DomainActor

  ghost predicate SameInDomain(topo: Topology, d: DomainId, a: map<NodeId, Amount>, b: map<NodeId, Amount>) {
    a.Keys == b.Keys && forall n :: n in a && topo.DomainOf(n) == d ==> b[n] == a[n]
  }

  ghost predicate SameOn(allowed: set<nat>, a: seq<real>, b: seq<real>) {
    |a| == |b| && forall e: nat :: e in allowed && e < |a| ==> a[e] == b[e]
  }

  /** Both ends of the link are nodes of the domain. */
  ghost predicate InsideLink(topo: Topology, d: DomainId, e: nat) {
    && e < |topo.links| && topo.links[e].src in topo.attr && topo.links[e].dst in topo.attr
    && topo.attr[topo.links[e].src].domain == d && topo.attr[topo.links[e].dst].domain == d
  }

  ghost predicate SameInside(topo: Topology, d: DomainId, a: seq<real>, b: seq<real>) {
    |a| == |b| && forall e: nat :: InsideLink(topo, d, e) && e < |a| ==> a[e] == b[e]
  }

  /** The links an actor may use are the links inside its domain. */
  lemma InsideIsAllowed(topo: Topology, d: DomainId, a: seq<real>, b: seq<real>)
    requires topo.Valid()
    ensures forall e: nat :: e in topo.DomainLinks(d) <==> InsideLink(topo, d, e)
    ensures SameInside(topo, d, a, b) <==> SameOn(topo.DomainLinks(d), a, b)
  {}

  // Routes.

  lemma HopAllowed(topo: Topology, allowed: set<nat>, p: seq<NodeId>, s: NodeId, t: NodeId, i: nat)
    requires topo.SimplePath(allowed, p, s, t) && i < |p| - 1
    ensures topo.LinkIndex(p[i], p[i + 1]) in allowed
  {}

  lemma EligibleSame(topo: Topology, allowed: set<nat>, p: seq<NodeId>, s: NodeId, t: NodeId, a: seq<real>,
                     b: seq<real>, demand: real, left: real)
    requires topo.SimplePath(allowed, p, s, t) && SameOn(allowed, a, b)
    ensures Eligible(topo, a, p, demand, left) <==> Eligible(topo, b, p, demand, left)
  {
    forall i | 0 <= i < |p| - 1
      ensures HopFits(topo, a, p[i], p[i + 1], demand) <==> HopFits(topo, b, p[i], p[i + 1], demand)
    {
      HopAllowed(topo, allowed, p, s, t, i);
    }
  }

  lemma {:induction false} CostSame(sel: Selector, topo: Topology, allowed: set<nat>, p: seq<NodeId>, s: NodeId,
                                    t: NodeId, a: seq<real>, b: seq<real>, i: nat)
    requires topo.SimplePath(allowed, p, s, t) && SameOn(allowed, a, b) && i < |p|
    ensures CostTo(sel, topo, a, p, i) == CostTo(sel, topo, b, p, i)
  {
    if i > 0 {
      CostSame(sel, topo, allowed, p, s, t, a, b, i - 1);
      HopAllowed(topo, allowed, p, s, t, i - 1);
    }
  }

  lemma ScoreSame(sel: Selector, topo: Topology, allowed: set<nat>, p: seq<NodeId>, s: NodeId, t: NodeId, a: seq<real>,
                  b: seq<real>)
    requires topo.SimplePath(allowed, p, s, t) && SameOn(allowed, a, b)
    ensures Score(sel, topo, a, p) == Score(sel, topo, b, p)
  {
    CostSame(sel, topo, allowed, p, s, t, a, b, |p| - 1);
  }

  lemma CandidatesAllowed(topo: Topology, allowed: set<nat>, s: NodeId, t: NodeId, k: nat)
    requires topo.Valid()
    ensures var paths := Candidates(topo, allowed, s, t, k);
            forall i :: 0 <= i < |paths| ==> topo.SimplePath(allowed, paths[i], s, t)
  {
    var paths := Candidates(topo, allowed, s, t, k);
    forall i | 0 <= i < |paths| ensures topo.SimplePath(allowed, paths[i], s, t) {
      assert paths[i] in topo.simplePaths(allowed, s, t);
    }
  }

  lemma SelectedSame(topo: Topology, allowed: set<nat>, s: NodeId, t: NodeId, a: seq<real>, b: seq<real>, demand: real,
                     left: real, k: nat, sel: Selector, r: RouteResult)
    requires topo.Valid() && SameOn(allowed, a, b) && r.feasible
    requires Selected(topo, a, Candidates(topo, allowed, s, t, k), demand, left, sel, r)
    ensures Selected(topo, b, Candidates(topo, allowed, s, t, k), demand, left, sel, r)
  {
    var paths := Candidates(topo, allowed, s, t, k);
    CandidatesAllowed(topo, allowed, s, t, k);
    hide Topology.Valid, Topology.SimplePath, Candidates, Eligible, Score, SameOn, LinksOf, PathDelay;
    forall j | 0 <= j < |paths|
      ensures Eligible(topo, a, paths[j], demand, left) <==> Eligible(topo, b, paths[j], demand, left)
      ensures Score(sel, topo, a, paths[j]) == Score(sel, topo, b, paths[j])
    {
      EligibleSame(topo, allowed, paths[j], s, t, a, b, demand, left);
      ScoreSame(sel, topo, allowed, paths[j], s, t, a, b);
    }
    var i :| PickedAt(topo, a, paths, demand, left, sel, r, i);
    assert PickedAt(topo, b, paths, demand, left, sel, r, i);
  }

  lemma RouteChosenSame(topo: Topology, allowed: set<nat>, a: seq<real>, b: seq<real>, f: Flow, at: map<VnfId, NodeId>,
                        left: real, k: nat, sel: Selector, links: seq<LinkId>)
    requires topo.Valid() && SameOn(allowed, a, b) && RouteChosen(topo, a, allowed, f, at, left, k, sel, links)
    ensures RouteChosen(topo, b, allowed, f, at, left, k, sel, links)
  {
    hide Topology.Valid, SameOn, Selected, Candidates;
    if at[f.src] != at[f.dst] {
      var s, t := at[f.src], at[f.dst];
      var r :| SelectedLinks(topo, a, Candidates(topo, allowed, s, t, k), f.bandwidth, left, sel, r, links);
      SelectedSame(topo, allowed, s, t, a, b, f.bandwidth, left, k, sel, r);
      assert SelectedLinks(topo, b, Candidates(topo, allowed, s, t, k), f.bandwidth, left, sel, r, links);
    }
  }

  lemma NoRouteSame(topo: Topology, allowed: set<nat>, a: seq<real>, b: seq<real>, f: Flow, at: map<VnfId, NodeId>,
                    left: real, k: nat)
    requires topo.Valid() && SameOn(allowed, a, b) && NoRoute(topo, a, allowed, f, at, left, k)
    ensures NoRoute(topo, b, allowed, f, at, left, k)
  {
    var s, t := at[f.src], at[f.dst];
    var paths := Candidates(topo, allowed, s, t, k);
    CandidatesAllowed(topo, allowed, s, t, k);
    hide Topology.Valid, Topology.SimplePath, Candidates, Eligible, SameOn;
    forall i | 0 <= i < |paths| ensures !Eligible(topo, b, paths[i], f.bandwidth, left) {
      EligibleSame(topo, allowed, paths[i], s, t, a, b, f.bandwidth, left);
    }
  }

  lemma LeftSame(topo: Topology, allowed: set<nat>, a: seq<real>, b: seq<real>, rs: seq<Reservation>)
    requires SameOn(allowed, a, b)
    ensures SameOn(allowed, BwLeft(topo, a, rs), BwLeft(topo, b, rs))
  {
    hide ReservedOn;
  }

  lemma RuleRoutedSame(topo: Topology, allowed: set<nat>, asks: seq<Ask>, at: map<VnfId, NodeId>, a: seq<real>,
                       b: seq<real>, k: nat, sel: Selector, chosen: seq<seq<LinkId>>)
    requires topo.Valid() && SameOn(allowed, a, b) && RuleRouted(topo, allowed, asks, at, a, k, sel, chosen)
    ensures RuleRouted(topo, allowed, asks, at, b, k, sel, chosen)
  {
    hide Topology.Valid, SameOn, RouteChosen, ReservedDelay, BwLeft;
    forall j | 0 <= j < |chosen| ensures StepRouted(topo, allowed, asks, at, b, k, sel, chosen, j) {
      assert StepRouted(topo, allowed, asks, at, a, k, sel, chosen, j);
      var claims := Claims(asks, chosen[..j]);
      var left := asks[j].budget - ReservedDelay(topo, claims);
      LeftSame(topo, allowed, a, b, claims);
      RouteChosenSame(topo, allowed, BwLeft(topo, a, claims), BwLeft(topo, b, claims), asks[j].flow, at, left, k, sel,
                      chosen[j]);
    }
  }

  lemma RoutedSame(topo: Topology, allowed: set<nat>, asks: seq<Ask>, at: map<VnfId, NodeId>, a: seq<real>,
                   b: seq<real>, k: nat, sel: Selector, routes: map<FlowKey, seq<LinkId>>)
    requires topo.Valid() && SameOn(allowed, a, b) && RoutedByRule(topo, allowed, asks, at, a, k, sel, routes)
    ensures RoutedByRule(topo, allowed, asks, at, b, k, sel, routes)
  {
    hide Topology.Valid, SameOn, RuleRouted;
    var chosen :| RecordedAs(topo, allowed, asks, at, a, k, sel, chosen, routes) && |chosen| == |asks|;
    RuleRoutedSame(topo, allowed, asks, at, a, b, k, sel, chosen);
    assert RecordedAs(topo, allowed, asks, at, b, k, sel, chosen, routes);
  }

  lemma StuckSame(topo: Topology, allowed: set<nat>, asks: seq<Ask>, at: map<VnfId, NodeId>, a: seq<real>, b: seq<real>,
                  k: nat, sel: Selector)
    requires topo.Valid() && SameOn(allowed, a, b) && RouteStuck(topo, allowed, asks, at, a, k, sel)
    ensures RouteStuck(topo, allowed, asks, at, b, k, sel)
  {
    hide Topology.Valid, SameOn, RuleRouted, NoRoute, BwLeft, ReservedDelay;
    var chosen :| StuckAfter(topo, allowed, asks, at, a, k, sel, chosen);
    var claims := Claims(asks, chosen);
    var left := asks[|chosen|].budget - ReservedDelay(topo, claims);
    RuleRoutedSame(topo, allowed, asks, at, a, b, k, sel, chosen);
    LeftSame(topo, allowed, a, b, claims);
    NoRouteSame(topo, allowed, BwLeft(topo, a, claims), BwLeft(topo, b, claims), asks[|chosen|].flow, at, left, k);
    assert StuckAfter(topo, allowed, asks, at, b, k, sel, chosen);
  }

  // Nodes.

  lemma AfterSame(topo: Topology, d: DomainId, a: map<NodeId, Amount>, b: map<NodeId, Amount>, vnfs: seq<Vnf>,
                  at: map<VnfId, NodeId>)
    requires SameInDomain(topo, d, a, b)
    ensures SameInDomain(topo, d, After(a, vnfs, at), After(b, vnfs, at))
  {
    hide LoadOn;
  }

  /** The greedy actor's answer, whichever it is. */
  ghost predicate GreedyAnswer(topo: Topology, frag: Fragment, node: map<NodeId, Amount>, bw: seq<real>, k: nat,
                               sel: Selector, r: Response)
  {
    if r.feasible then GreedyActor.FollowsBothRules(topo, frag, node, bw, k, sel, r.placements, r.routes)
    else GreedyActor.RefusalJustified(topo, frag, node, bw, k, sel)
  }

  lemma ChosenSame(topo: Topology, d: DomainId, a: map<NodeId, Amount>, b: map<NodeId, Amount>, v: Vnf, tier: Tier,
                   n: NodeId)
    requires SameInDomain(topo, d, a, b) && GreedyActor.Chosen(topo, a, v, tier, topo.NodesInDomain(d), n)
    ensures GreedyActor.Chosen(topo, b, v, tier, topo.NodesInDomain(d), n)
  {
    hide GreedyActor.RankOf;
    assert forall m :: m in topo.NodesInDomain(d) ==> (GreedyActor.Fits(a, v, m) <==> GreedyActor.Fits(b, v, m));
  }

  lemma GreedyPlacedSame(topo: Topology, a: map<NodeId, Amount>, b: map<NodeId, Amount>, frag: Fragment, vnfs: seq<Vnf>,
                         i: nat, at: map<VnfId, NodeId>)
    requires SameInDomain(topo, frag.domain, a, b)
    requires GreedyActor.GreedyPlaced(topo, a, frag, topo.NodesInDomain(frag.domain), vnfs, i, at)
    ensures GreedyActor.GreedyPlaced(topo, b, frag, topo.NodesInDomain(frag.domain), vnfs, i, at)
  {
    hide SameInDomain, GreedyActor.Chosen, After, Topology.NodesInDomain;
    var nodes := topo.NodesInDomain(frag.domain);
    forall j | 0 <= j < i ensures GreedyActor.FollowsRule(topo, b, frag, nodes, vnfs, j, at) {
      assert GreedyActor.FollowsRule(topo, a, frag, nodes, vnfs, j, at);
      AfterSame(topo, frag.domain, a, b, vnfs[..j], at);
      ChosenSame(topo, frag.domain, After(a, vnfs[..j], at), After(b, vnfs[..j], at), vnfs[j], frag.tier[vnfs[j].id],
                 at[vnfs[j].id]);
    }
  }

  lemma PlacementStuckSame(topo: Topology, a: map<NodeId, Amount>, b: map<NodeId, Amount>, frag: Fragment,
                           vnfs: seq<Vnf>, i: nat, at: map<VnfId, NodeId>)
    requires SameInDomain(topo, frag.domain, a, b)
    requires GreedyActor.PlacementStuck(topo, a, frag, topo.NodesInDomain(frag.domain), vnfs, i, at)
    ensures GreedyActor.PlacementStuck(topo, b, frag, topo.NodesInDomain(frag.domain), vnfs, i, at)
  {
    hide GreedyActor.GreedyPlaced, LoadOn;
    GreedyPlacedSame(topo, a, b, frag, vnfs, i, at);
    AfterSame(topo, frag.domain, a, b, vnfs[..i], at);
    var x, y := After(a, vnfs[..i], at), After(b, vnfs[..i], at);
    hide After;
    forall n | n in topo.NodesInDomain(frag.domain) ensures !GreedyActor.Fits(y, vnfs[i], n) {
      assert !GreedyActor.Fits(x, vnfs[i], n);
    }
  }

  lemma GreedyAnswerSame(topo: Topology, frag: Fragment, a: map<NodeId, Amount>, b: map<NodeId, Amount>, bwA: seq<real>,
                         bwB: seq<real>, k: nat, sel: Selector, r: Response)
    requires topo.Valid() && SameInDomain(topo, frag.domain, a, b) && SameInside(topo, frag.domain, bwA, bwB)
    requires GreedyAnswer(topo, frag, a, bwA, k, sel, r)
    ensures GreedyAnswer(topo, frag, b, bwB, k, sel, r)
  {
    InsideIsAllowed(topo, frag.domain, bwA, bwB);
    hide Topology.Valid, SameInDomain, SameInside, SameOn, GreedyActor.GreedyPlaced, GreedyActor.PlacementStuck,
         RoutedByRule, RouteStuck, Sorted, GreedyActor.FlowAsks, Topology.NodesInDomain, Topology.DomainLinks;
    var nodes, vnfs, inside := topo.NodesInDomain(frag.domain), Sorted(frag.vnfs), topo.DomainLinks(frag.domain);
    if r.feasible {
      GreedyPlacedSame(topo, a, b, frag, vnfs, |vnfs|, r.placements);
      RoutedSame(topo, inside, GreedyActor.FlowAsks(topo, frag, r.placements), r.placements, bwA, bwB, k, sel,
                 r.routes);
    } else if exists i, at :: GreedyActor.PlacementStuck(topo, a, frag, nodes, vnfs, i, at) {
      var i: nat, at :| GreedyActor.PlacementStuck(topo, a, frag, nodes, vnfs, i, at);
      PlacementStuckSame(topo, a, b, frag, vnfs, i, at);
    } else if nodes != [] || vnfs == [] {
      var at :| GreedyActor.PlacedThenStuck(topo, frag, a, bwA, k, sel, at);
      GreedyPlacedSame(topo, a, b, frag, vnfs, |vnfs|, at);
      StuckSame(topo, inside, GreedyActor.FlowAsks(topo, frag, at), at, bwA, bwB, k, sel);
      assert GreedyActor.PlacedThenStuck(topo, frag, b, bwB, k, sel, at);
    }
  }

  /** The learned actor's answer, whichever it is. */
  ghost predicate LearnedAnswer(topo: Topology, frag: Fragment, policy: DomainActor.Policy, node: map<NodeId, Amount>,
                                bw: seq<real>, k: nat, sel: Selector, r: Response)
  {
    if r.feasible then DomainActor.PlacedByPolicy(topo, frag, policy, node, bw, k, sel, r.placements, r.routes)
    else DomainActor.RefusalCaused(topo, frag, policy, node, bw, k, sel)
  }

  lemma ActionSame(topo: Topology, frag: Fragment, policy: DomainActor.Policy, a: map<NodeId, Amount>,
                   b: map<NodeId, Amount>, at: map<VnfId, NodeId>, j: nat)
    requires SameInDomain(topo, frag.domain, a, b) && j < |frag.vnfs| && frag.vnfs[j].id in frag.tier
    ensures DomainActor.ActionAt(topo, frag, policy, a, at, j) == DomainActor.ActionAt(topo, frag, policy, b, at, j)
  {
    hide LoadOn;
    var v, nodes := frag.vnfs[j], topo.NodesInDomain(frag.domain);
    var x, y := After(a, frag.vnfs[..j], at), After(b, frag.vnfs[..j], at);
    AfterSame(topo, frag.domain, a, b, frag.vnfs[..j], at);
    hide After;
    assert DomainActor.MaskOf(topo, nodes, x, v, frag.tier[v.id])
        == DomainActor.MaskOf(topo, nodes, y, v, frag.tier[v.id]) by {
      forall n | n in nodes
        ensures DomainActor.MaskTrue(topo, x, map[], v, frag.tier[v.id], n)
           <==> DomainActor.MaskTrue(topo, y, map[], v, frag.tier[v.id], n)
      {
        assert topo.DomainOf(n) == frag.domain;
      }
    }
  }

  lemma FollowsPolicySame(topo: Topology, frag: Fragment, policy: DomainActor.Policy, a: map<NodeId, Amount>,
                          b: map<NodeId, Amount>, i: nat, at: map<VnfId, NodeId>)
    requires SameInDomain(topo, frag.domain, a, b) && DomainActor.FollowsPolicy(topo, frag, policy, a, i, at)
    ensures DomainActor.FollowsPolicy(topo, frag, policy, b, i, at)
  {
    hide SameInDomain, DomainActor.ActionAt, Topology.NodesInDomain;
    forall j: nat | j < i ensures DomainActor.PolicyStep(topo, frag, policy, b, at, j) {
      assert DomainActor.PolicyStep(topo, frag, policy, a, at, j);
      ActionSame(topo, frag, policy, a, b, at, j);
    }
  }

  lemma LearnedAnswerSame(topo: Topology, frag: Fragment, policy: DomainActor.Policy, a: map<NodeId, Amount>,
                          b: map<NodeId, Amount>, bwA: seq<real>, bwB: seq<real>, k: nat, sel: Selector, r: Response)
    requires topo.Valid() && SameInDomain(topo, frag.domain, a, b) && SameInside(topo, frag.domain, bwA, bwB)
    requires LearnedAnswer(topo, frag, policy, a, bwA, k, sel, r)
    ensures LearnedAnswer(topo, frag, policy, b, bwB, k, sel, r)
  {
    InsideIsAllowed(topo, frag.domain, bwA, bwB);
    hide Topology.Valid, SameInDomain, SameInside, SameOn, DomainActor.FollowsPolicy, DomainActor.ActionAt,
         RoutedByRule, RouteStuck, DomainActor.AsksInto, Topology.NodesInDomain, Topology.DomainLinks;
    var inside, n := topo.DomainLinks(frag.domain), |frag.vnfs|;
    if r.feasible {
      FollowsPolicySame(topo, frag, policy, a, b, n, r.placements);
      RoutedSame(topo, inside, DomainActor.AsksInto(topo, frag, r.placements, n), r.placements, bwA, bwB, k, sel,
                 r.routes);
    } else if exists i, at :: DomainActor.PolicyRefused(topo, frag, policy, a, i, at) {
      var i: nat, at :| DomainActor.PolicyRefused(topo, frag, policy, a, i, at);
      FollowsPolicySame(topo, frag, policy, a, b, i, at);
      ActionSame(topo, frag, policy, a, b, at, i);
      assert DomainActor.PolicyRefused(topo, frag, policy, b, i, at);
    } else if topo.NodesInDomain(frag.domain) != [] || frag.vnfs == [] {
      var i: nat, at :| DomainActor.FlowRefused(topo, frag, policy, a, bwA, k, sel, i, at);
      FollowsPolicySame(topo, frag, policy, a, b, i, at);
      StuckSame(topo, inside, DomainActor.AsksInto(topo, frag, at, i), at, bwA, bwB, k, sel);
      assert DomainActor.FlowRefused(topo, frag, policy, b, bwB, k, sel, i, at);
    }
  }
}
