/** The structural checker: one pass per constraint family, each finding recorded as a
    violation; the plan is valid when none is recorded. */
module StructuralChecker {
  import opened Types
  import opened Graphs
  import opened AnyOrder
  import opened AbstractPlans
  import opened PlanRules

  datatype Tag = SCHEMA | C4 | C5 | C8

  datatype Violation = Violation(tag: Tag, vnf: Option<VnfName>)

  ghost predicate Only(vs: seq<Violation>, tag: Tag) {
    forall i :: 0 <= i < |vs| ==> vs[i].tag == tag
  }

  ghost predicate Mentions(vs: seq<Violation>, tag: Tag) {
    exists i :: 0 <= i < |vs| && vs[i].tag == tag
  }

  /** One violation per name, in any order. */
  method Report(names: set<VnfName>, tag: Tag) returns (vs: seq<Violation>)
    ensures |vs| == |names| && Only(vs, tag)
    ensures forall n :: n in names <==> Violation(tag, Some(n)) in vs
  {
    vs := [];
    var todo := names;
    while todo != {}
      invariant todo <= names && |vs| + |todo| == |names| && Only(vs, tag)
      invariant forall n :: n in names - todo <==> Violation(tag, Some(n)) in vs
      decreases |todo|
    {
      var n := PickAny(todo);
      todo := todo - {n};
      vs := vs + [Violation(tag, Some(n))];
    }
  }

  /** VNFs missing from the plan, VNFs the request does not have, unknown domains. */
  method CheckNames(plan: seq<Assignment>, req: SliceSpec, topo: AbstractTopology) returns (vs: seq<Violation>)
    ensures Only(vs, SCHEMA)
    ensures vs == [] <==> PlanIds(plan) == RequestIds(req) && forall a :: a in plan ==> KnownDomain(topo, a)
    ensures forall n :: n in RequestIds(req) - PlanIds(plan) || n in PlanIds(plan) - RequestIds(req) ==>
              Violation(SCHEMA, Some(n)) in vs
  {
    hide DomainNamed, PlanIds, RequestIds;
    var missing := Report(RequestIds(req) - PlanIds(plan), SCHEMA);
    var extra := Report(PlanIds(plan) - RequestIds(req), SCHEMA);
    var unknown := CheckDomains(plan, topo);
    vs := missing + extra + unknown;
    assert vs == [] <==> missing == [] && extra == [] && unknown == [];
    assert PlanIds(plan) == RequestIds(req)
      <==> RequestIds(req) - PlanIds(plan) == {} && PlanIds(plan) - RequestIds(req) == {};
  }

  method CheckDomains(plan: seq<Assignment>, topo: AbstractTopology) returns (vs: seq<Violation>)
    ensures Only(vs, SCHEMA) && (vs == [] <==> forall a :: a in plan ==> KnownDomain(topo, a))
  {
    hide DomainNamed;
    vs := [];
    var i := 0;
    while i < |plan|
      invariant 0 <= i <= |plan| && Only(vs, SCHEMA)
      invariant vs == [] <==> forall j :: 0 <= j < i ==> KnownDomain(topo, plan[j])
    {
      if !KnownDomain(topo, plan[i]) {
        vs := vs + [Violation(SCHEMA, Some(plan[i].vnf))];
      }
      i := i + 1;
    }
  }

  /** Tier rules; up to two findings per assignment. */
  method CheckTiers(plan: seq<Assignment>, req: SliceSpec, topo: AbstractTopology) returns (vs: seq<Violation>)
    ensures Only(vs, C8) && (vs == [] <==> TiersHold(plan, req, topo))
  {
    vs := [];
    var i := 0;
    while i < |plan|
      invariant 0 <= i <= |plan| && Only(vs, C8)
      invariant vs == [] <==> forall j :: 0 <= j < i ==> TierFits(plan[j], req, topo)
    {
      var found := CheckTier(plan[i], req, topo);
      vs := vs + found;
      i := i + 1;
    }
  }

  method CheckTier(a: Assignment, req: SliceSpec, topo: AbstractTopology) returns (vs: seq<Violation>)
    ensures Only(vs, C8) && (vs == [] <==> TierFits(a, req, topo))
  {
    hide DomainNamed, SpecNamed;
    vs := [];
    var spec := SpecNamed(req.vnfs, a.vnf);
    if spec.None? || !KnownDomain(topo, a) {
      return;
    }
    var tiers := DomainNamed(topo.domains, a.domain.value).value.tiers;
    if a.StatesTier() && a.tier.value !in spec.value.permitted {
      vs := vs + [Violation(C8, Some(a.vnf))];
    }
    if a.StatesTier() && a.tier.value !in tiers {
      vs := vs + [Violation(C8, Some(a.vnf))];
    }
    if !a.StatesTier() && !Overlap(spec.value.permitted, tiers) {
      vs := vs + [Violation(C8, Some(a.vnf))];
    }
  }

  function DomainsUsed(plan: seq<Assignment>): set<DomainName> {
    set j | 0 <= j < |plan| && plan[j].domain.Some? :: plan[j].domain.value
  }

  lemma DomainsUsedNext(plan: seq<Assignment>, a: Assignment)
    ensures DomainsUsed(plan + [a]) == DomainsUsed(plan) + if a.domain.Some? then {a.domain.value} else {}
  {
    var next := plan + [a];
    assert next[|plan|] == a && forall j :: 0 <= j < |plan| ==> next[j] == plan[j];
  }

  lemma DemandNext(plan: seq<Assignment>, a: Assignment, d: DomainName)
    ensures DemandOn(plan + [a], d) == DemandOn(plan, d).Plus(if a.domain == Some(d) then a.Demand() else ZERO)
    ensures d !in DomainsUsed(plan) ==> DemandOn(plan, d) == ZERO
  {
    assert (plan + [a])[..|plan|] == plan;
    NoDemandYet(plan, d);
  }

  /** The running sums of the known domains seen so far, keys in order of first use. */
  ghost predicate Summed(topo: AbstractTopology, plan: seq<Assignment>, order: seq<DomainName>,
                         used: map<DomainName, Amount>)
  {
    && (forall i :: 0 <= i < |order| ==>
          order[i] in used && order[i] in DomainsUsed(plan) && NamesDomain(topo, order[i]))
    && (forall d :: d in DomainsUsed(plan) && NamesDomain(topo, d) ==> d in order)
    && forall d :: d in used ==> d in order && used[d] == DemandOn(plan, d)
  }

  predicate NamesDomain(topo: AbstractTopology, d: DomainName) {
    DomainNamed(topo.domains, d).Some?
  }

  lemma DemandsNext(plan: seq<Assignment>, a: Assignment)
    ensures forall d :: DemandOn(plan + [a], d) == DemandOn(plan, d).Plus(if a.domain == Some(d) then a.Demand()
                                                                          else ZERO)
    ensures forall d :: d !in DomainsUsed(plan) ==> DemandOn(plan, d) == ZERO
  {
    forall d ensures DemandOn(plan + [a], d) == DemandOn(plan, d).Plus(if a.domain == Some(d) then a.Demand()
                                                                       else ZERO) {
      DemandNext(plan, a, d);
    }
    forall d | d !in DomainsUsed(plan) ensures DemandOn(plan, d) == ZERO {
      DemandNext(plan, a, d);
    }
  }

  /** Another assignment to a known domain: its running sum grows. */
  lemma SummedNext(topo: AbstractTopology, plan: seq<Assignment>, order: seq<DomainName>, used: map<DomainName, Amount>,
                   a: Assignment, d: DomainName)
    requires Summed(topo, plan, order, used) && a.domain == Some(d) && NamesDomain(topo, d) && d in used
    ensures Summed(topo, plan + [a], order, used[d := used[d].Plus(a.Demand())])
  {
    hide NamesDomain, DemandOn, DomainsUsed, Assignment.Demand;
    DomainsUsedNext(plan, a);
    DemandsNext(plan, a);
    SameSums(plan, a, d);
  }

  /** The first assignment to a known domain starts its sum. */
  lemma SummedFirst(topo: AbstractTopology, plan: seq<Assignment>, order: seq<DomainName>,
                    used: map<DomainName, Amount>, a: Assignment, d: DomainName)
    requires Summed(topo, plan, order, used) && a.domain == Some(d) && NamesDomain(topo, d) && d !in used
    ensures Summed(topo, plan + [a], order + [d], used[d := a.Demand()])
  {
    hide NamesDomain, DemandOn, DomainsUsed, Assignment.Demand;
    DomainsUsedNext(plan, a);
    DemandsNext(plan, a);
    SameSums(plan, a, d);
    assert d !in order;
    assert forall i :: 0 <= i < |order| ==> (order + [d])[i] == order[i];
  }

  lemma SameSums(plan: seq<Assignment>, a: Assignment, d: DomainName)
    requires a.domain == Some(d)
    ensures forall e :: e != d ==> DemandOn(plan + [a], e) == DemandOn(plan, e)
    ensures DemandOn(plan + [a], d) == DemandOn(plan, d).Plus(a.Demand())
    ensures a.Demand() == ZERO.Plus(a.Demand())
  {
    hide DemandOn;
    DemandsNext(plan, a);
  }

  lemma SummedSkip(topo: AbstractTopology, plan: seq<Assignment>, order: seq<DomainName>, used: map<DomainName, Amount>,
                   a: Assignment)
    requires Summed(topo, plan, order, used) && !KnownDomain(topo, a)
    ensures Summed(topo, plan + [a], order, used)
  {
    hide DomainNamed, DemandOn, DomainsUsed;
    assert a.domain.Some? ==> !NamesDomain(topo, a.domain.value);
    hide NamesDomain, KnownDomain;
    DomainsUsedNext(plan, a);
    OtherSums(plan, a);
    assert forall d :: d in used ==> NamesDomain(topo, d);
  }

  lemma OtherSums(plan: seq<Assignment>, a: Assignment)
    ensures forall d :: a.domain != Some(d) ==> DemandOn(plan + [a], d) == DemandOn(plan, d)
  {
    hide DemandOn;
    DemandsNext(plan, a);
  }

  lemma NothingSummed(topo: AbstractTopology)
    ensures Summed(topo, [], [], map[])
  {}

  /** Aggregate demand per known domain. */
  method SumDemands(plan: seq<Assignment>, topo: AbstractTopology)
    returns (order: seq<DomainName>, used: map<DomainName, Amount>)
    ensures Summed(topo, plan, order, used)
  {
    hide Summed;
    order, used := [], map[];
    NothingSummed(topo);
    assert plan[..0] == [];
    var i := 0;
    while i < |plan|
      invariant 0 <= i <= |plan| && Summed(topo, plan[..i], order, used)
    {
      var a := plan[i];
      assert plan[..i + 1] == plan[..i] + [a];
      if KnownDomain(topo, a) {
        var d := a.domain.value;
        if d in used {
          SummedNext(topo, plan[..i], order, used, a, d);
          used := used[d := used[d].Plus(a.Demand())];
        } else {
          SummedFirst(topo, plan[..i], order, used, a, d);
          order := order + [d];
          used := used[d := a.Demand()];
        }
      } else {
        SummedSkip(topo, plan[..i], order, used, a);
      }
      i := i + 1;
    }
    assert plan[..i] == plan;
  }

  lemma {:induction false} NoDemandYet(plan: seq<Assignment>, d: DomainName)
    ensures (forall a :: a in plan ==> a.domain != Some(d)) ==> DemandOn(plan, d) == ZERO
  {
    if plan != [] {
      NoDemandYet(plan[..|plan| - 1], d);
      assert plan == plan[..|plan| - 1] + [plan[|plan| - 1]];
    }
  }

  /** CPU first, then RAM, per domain. */
  method CheckResources(plan: seq<Assignment>, topo: AbstractTopology) returns (vs: seq<Violation>)
    ensures Only(vs, C4) && (vs == [] <==> ResourcesHold(plan, topo))
  {
    var order, used := SumDemands(plan, topo);
    ResourcesByDomain(plan, topo, order, used);
    vs := [];
    NoRoomLost(topo, order, used, vs);
    hide Summed, ResourcesHold, HasRoom, NamesDomain, DomainNamed, RoomBelow, Only;
    var i := 0;
    while i < |order|
      invariant 0 <= i <= |order| && Only(vs, C4)
      invariant vs == [] <==> RoomBelow(topo, order, used, i)
    {
      var found := CheckRoom(topo, order[i], used[order[i]]);
      RoomNext(topo, order, used, i);
      OnlyJoined(vs, found, C4);
      vs := vs + found;
      i := i + 1;
    }
  }

  lemma NoRoomLost(topo: AbstractTopology, order: seq<DomainName>, used: map<DomainName, Amount>, vs: seq<Violation>)
    ensures RoomBelow(topo, order, used, 0) && (vs == [] ==> Only(vs, C4))
  {}

  lemma OnlyJoined(a: seq<Violation>, b: seq<Violation>, tag: Tag)
    requires Only(a, tag) && Only(b, tag)
    ensures Only(a + b, tag) && (a + b == [] <==> a == [] && b == [])
  {
    if a != [] {
      assert (a + b)[0] == a[0];
    }
  }

  lemma RoomNext(topo: AbstractTopology, order: seq<DomainName>, used: map<DomainName, Amount>, i: nat)
    requires i < |order| && order[i] in used
    ensures RoomBelow(topo, order, used, i + 1) <==>
              RoomBelow(topo, order, used, i) && HasRoom(topo, order[i], used[order[i]])
  {
    hide HasRoom;
  }

  ghost predicate RoomBelow(topo: AbstractTopology, order: seq<DomainName>, used: map<DomainName, Amount>, n: int) {
    forall j :: 0 <= j < n && j < |order| ==> order[j] in used && HasRoom(topo, order[j], used[order[j]])
  }

  predicate HasRoom(topo: AbstractTopology, d: DomainName, demand: Amount) {
    DomainNamed(topo.domains, d).Some? && DomainNamed(topo.domains, d).value.residual.Covers(demand)
  }

  method CheckRoom(topo: AbstractTopology, d: DomainName, demand: Amount) returns (vs: seq<Violation>)
    requires NamesDomain(topo, d)
    ensures Only(vs, C4) && (vs == [] <==> HasRoom(topo, d, demand))
  {
    vs := [];
    var left := DomainNamed(topo.domains, d).value.residual;
    if demand.cpu > left.cpu {
      vs := vs + [Violation(C4, None)];
    }
    if demand.ram > left.ram {
      vs := vs + [Violation(C4, None)];
    }
  }

  lemma ResourcesByDomain(plan: seq<Assignment>, topo: AbstractTopology, order: seq<DomainName>,
                          used: map<DomainName, Amount>)
    requires Summed(topo, plan, order, used)
    ensures forall i :: 0 <= i < |order| ==> order[i] in used && NamesDomain(topo, order[i])
    ensures ResourcesHold(plan, topo) <==> RoomBelow(topo, order, used, |order|)
  {
    hide DomainNamed, DemandOn;
    forall i | 0 <= i < |order| ensures exists a :: a in plan && a.domain == Some(order[i]) && KnownDomain(topo, a) {
      var j :| 0 <= j < |plan| && plan[j].domain == Some(order[i]);
      assert KnownDomain(topo, plan[j]);
    }
    forall a | a in plan && KnownDomain(topo, a) ensures a.domain.value in order {}
  }

  // The domain graph and its search.

  lemma DomainGraphUndirected(domains: seq<DomainInfo>, links: seq<InterLink>, g: Graph<DomainName>)
    requires IsDomainGraph(domains, links, g)
    ensures Undirected(g) && Closed(g)
  {
    forall a, b | a in g && b in g[a] ensures b in g && a in g[b] {
      var l :| l in links && Joins(l, a, b);
      assert Joins(l, b, a);
    }
  }

  /** The domain graph is determined by the topology. */
  lemma DomainGraphUnique(domains: seq<DomainInfo>, links: seq<InterLink>, g: Graph<DomainName>, h: Graph<DomainName>)
    requires IsDomainGraph(domains, links, g) && IsDomainGraph(domains, links, h)
    ensures g == h
  {
    forall a ensures a in g <==> a in h {}
    forall a | a in g ensures g[a] == h[a] {
      forall b ensures b in g[a] <==> b in h[a] {}
    }
  }

  method BuildAdjacency(topo: AbstractTopology) returns (g: Graph<DomainName>)
    ensures IsDomainGraph(topo.domains, topo.links, g)
  {
    g := map[];
    var i := 0;
    while i < |topo.domains|
      invariant 0 <= i <= |topo.domains| && IsDomainGraph(topo.domains[..i], [], g)
    {
      assert topo.domains[..i + 1] == topo.domains[..i] + [topo.domains[i]];
      g := g[topo.domains[i].id := {}];
      i := i + 1;
    }
    assert topo.domains[..i] == topo.domains;
    var j := 0;
    while j < |topo.links|
      invariant 0 <= j <= |topo.links| && IsDomainGraph(topo.domains, topo.links[..j], g)
    {
      var l := topo.links[j];
      assert topo.links[..j + 1] == topo.links[..j] + [l];
      if Proper(l) {
        JoinNext(topo.domains, topo.links[..j], g, l);
        g := WithEdge(WithEdge(g, l.src.value, l.dst.value), l.dst.value, l.src.value);
      } else {
        SkipNext(topo.domains, topo.links[..j], g, l);
      }
      j := j + 1;
    }
    assert topo.links[..j] == topo.links;
  }

  function WithEdge(g: Graph<DomainName>, a: DomainName, b: DomainName): Graph<DomainName> {
    g[a := (if a in g then g[a] else {}) + {b}]
  }

  lemma JoinNext(domains: seq<DomainInfo>, links: seq<InterLink>, g: Graph<DomainName>, l: InterLink)
    requires IsDomainGraph(domains, links, g) && Proper(l)
    ensures IsDomainGraph(domains, links + [l], WithEdge(WithEdge(g, l.src.value, l.dst.value), l.dst.value,
                                                         l.src.value))
  {
    var s, d, all := l.src.value, l.dst.value, links + [l];
    var h := WithEdge(WithEdge(g, s, d), d, s);
    assert forall m :: m in all <==> m in links || m == l;
    assert forall a, b :: Joins(l, a, b) <==> (a == s && b == d) || (a == d && b == s);
    assert forall a :: a in h <==> a in g || a == s || a == d;
    assert forall a, b :: a in h && b in h[a] <==> (a in g && b in g[a]) || Joins(l, a, b);
    hide WithEdge, Joins, Proper;
  }

  lemma SkipNext(domains: seq<DomainInfo>, links: seq<InterLink>, g: Graph<DomainName>, l: InterLink)
    requires IsDomainGraph(domains, links, g) && !Proper(l)
    ensures IsDomainGraph(domains, links + [l], g)
  {
    assert forall m :: m in links ==> m in links + [l];
    assert forall m, a, b :: m in links + [l] && Joins(m, a, b) ==> m in links;
  }

  /** Discovered so far: everything reached by a walk, and closed except at what is queued. */
  ghost predicate Explored(g: Graph<DomainName>, src: DomainName, dst: DomainName, visited: set<DomainName>,
                           queue: seq<DomainName>, expanding: set<DomainName>)
  {
    && src in visited && dst !in visited
    && (forall a :: a in visited && a in g ==> Reachable(g, {src}, a))
    && (forall a :: a in queue ==> a in visited)
    && forall a, b :: a in visited && a in g && b in g[a] ==> a in queue || a in expanding || b in visited
  }

  /** Queue-based search from one domain for another. */
  method DomainsReachable(g: Graph<DomainName>, src: DomainName, dst: DomainName) returns (found: bool)
    requires Closed(g)
    ensures found <==> src == dst || Reachable(g, {src}, dst)
  {
    hide Reachable, Hops;
    if src == dst {
      return true;
    }
    SourceReached(g, src);
    var visited := {src};
    var queue := [src];
    while queue != []
      invariant Explored(g, src, dst, visited, queue, {})
      decreases g.Keys - visited, |queue|
    {
      var current := queue[0];
      queue := queue[1..];
      if current in g {
        ghost var before := visited;
        assert Reachable(g, {src}, current);
        var hit;
        hit, visited, queue := ExpandDomain(g, src, dst, current, visited, queue);
        if hit {
          return true;
        }
        assert before <= visited;
      }
    }
    NothingElseReachable(g, src, dst, visited);
    found := false;
  }

  lemma SourceReached(g: Graph<DomainName>, src: DomainName)
    ensures src in g ==> Reachable(g, {src}, src)
  {
    assert src in g ==> Hops(g, {src}, src, 0);
  }

  lemma NeighbourReached(g: Graph<DomainName>, src: DomainName, a: DomainName, b: DomainName)
    requires a in g && b in g[a] && Reachable(g, {src}, a)
    ensures Reachable(g, {src}, b)
  {
    var d: nat :| Hops(g, {src}, a, d);
    assert Hops(g, {src}, b, d + 1);
  }

  lemma NothingElseReachable(g: Graph<DomainName>, src: DomainName, dst: DomainName, visited: set<DomainName>)
    requires Explored(g, src, dst, visited, [], {})
    ensures !Reachable(g, {src}, dst)
  {
    forall d: nat ensures !Hops(g, {src}, dst, d) {
      if Hops(g, {src}, dst, d) {
        ClosedUnderHops(g, {src}, visited, dst, d);
      }
    }
  }

  /** Look at all neighbours of one domain; stop when the target is among them. */
  method ExpandDomain(g: Graph<DomainName>, src: DomainName, dst: DomainName, current: DomainName,
                      visited: set<DomainName>, queue: seq<DomainName>)
    returns (hit: bool, visited': set<DomainName>, queue': seq<DomainName>)
    requires Closed(g) && current in g && current in visited
    requires Explored(g, src, dst, visited, queue, {current}) && Reachable(g, {src}, current)
    ensures hit ==> Reachable(g, {src}, dst)
    ensures !hit ==> Explored(g, src, dst, visited', queue', {}) && visited <= visited' <= visited + g.Keys
    ensures !hit ==> visited' == visited ==> queue' == queue
  {
    hide Reachable, Hops, Closed, Explored;
    visited', queue' := visited, queue;
    var todo := g[current];
    while todo != {}
      invariant todo <= g[current] && visited <= visited' && g[current] <= visited' + todo
      invariant Explored(g, src, dst, visited', queue', {current})
      invariant visited' == visited ==> queue' == queue
      invariant visited' <= visited + g.Keys
      decreases |todo|
    {
      var b := PickAny(todo);
      todo := todo - {b};
      NeighbourReached(g, src, current, b);
      NeighbourIsNode(g, current, b);
      if b == dst {
        return true, visited, queue;
      }
      if b !in visited' {
        ExploreOne(g, src, dst, visited', queue', current, b);
        visited' := visited' + {b};
        queue' := queue' + [b];
      }
    }
    ExploreDone(g, src, dst, visited', queue', current);
    hit := false;
  }

  lemma ExploreOne(g: Graph<DomainName>, src: DomainName, dst: DomainName, visited: set<DomainName>,
                   queue: seq<DomainName>, current: DomainName, b: DomainName)
    requires Explored(g, src, dst, visited, queue, {current}) && Reachable(g, {src}, b) && b != dst
    ensures Explored(g, src, dst, visited + {b}, queue + [b], {current})
  {
    hide Reachable;
  }

  lemma ExploreDone(g: Graph<DomainName>, src: DomainName, dst: DomainName, visited: set<DomainName>,
                    queue: seq<DomainName>, current: DomainName)
    requires Explored(g, src, dst, visited, queue, {current}) && current in g && g[current] <= visited
    ensures Explored(g, src, dst, visited, queue, {})
  {
    hide Reachable;
  }

  lemma NeighbourIsNode(g: Graph<DomainName>, a: DomainName, b: DomainName)
    requires Closed(g) && a in g && b in g[a]
    ensures b in g
  {}

  lemma LinkedIffReachable(topo: AbstractTopology, g: Graph<DomainName>, a: DomainName, b: DomainName)
    requires IsDomainGraph(topo.domains, topo.links, g)
    ensures Linked(topo, a, b) <==> a == b || Reachable(g, {a}, b)
  {
    hide IsDomainGraph, Reachable;
    forall h | IsDomainGraph(topo.domains, topo.links, h) ensures h == g {
      DomainGraphUnique(topo.domains, topo.links, g, h);
    }
  }

  /** A direct link connects its ends. */
  lemma DirectLinkConnects(topo: AbstractTopology, g: Graph<DomainName>, pair: (DomainName, DomainName))
    requires IsDomainGraph(topo.domains, topo.links, g) && LinkBetween(topo.links, pair).Some?
    ensures Reachable(g, {pair.0}, pair.1)
  {
    var l := LinkBetween(topo.links, pair).value;
    assert Joins(l, pair.0, pair.1) && Joins(l, pair.1, pair.0);
    assert Hops(g, {pair.0}, pair.0, 0);
    assert Hops(g, {pair.0}, pair.1, 1);
  }

  // Flows.

  method CheckFlag(plan: seq<Assignment>, f: FlowRequirement) returns (vs: seq<Violation>)
    ensures Only(vs, SCHEMA) && (vs == [] <==> FlagRight(plan, f))
  {
    vs := [];
    var ends := Ends(plan, f);
    if ends.Some? {
      var crosses := ends.value.0 != ends.value.1;
      if crosses && !f.SaysCrosses() {
        vs := [Violation(SCHEMA, f.src)];
      } else if !crosses && f.SaysCrosses() {
        vs := [Violation(SCHEMA, f.src)];
      }
    }
  }

  type Pair = (DomainName, DomainName)

  /** The running bandwidth sums of the direct links used so far. */
  ghost predicate Tracked(plan: seq<Assignment>, flows: seq<FlowRequirement>, topo: AbstractTopology, order: seq<Pair>,
                          demand: map<Pair, real>)
  {
    && (forall i :: 0 <= i < |order| ==>
          order[i] in demand && CrossingPair(plan, flows, order[i]) && HasLink(topo, order[i]))
    && (forall p :: CrossingPair(plan, flows, p) && HasLink(topo, p) ==> p in order)
    && forall p :: p in demand ==> p in order && demand[p] == BandwidthOn(plan, flows, p)
  }

  predicate HasLink(topo: AbstractTopology, p: Pair) {
    LinkBetween(topo.links, p).Some?
  }

  lemma CrossingPairNext(plan: seq<Assignment>, flows: seq<FlowRequirement>, f: FlowRequirement, p: Pair)
    ensures CrossingPair(plan, flows + [f], p) <==>
              CrossingPair(plan, flows, p) || (Ends(plan, f) == Some(p) && p.0 != p.1)
  {
    hide Ends;
    var next := flows + [f];
    assert next[|flows|] == f && forall k :: 0 <= k < |flows| ==> next[k] == flows[k];
  }

  lemma {:induction false} NoBandwidthYet(plan: seq<Assignment>, flows: seq<FlowRequirement>, p: Pair)
    ensures !CrossingPair(plan, flows, p) ==> BandwidthOn(plan, flows, p) == 0.0
  {
    hide Ends;
    if flows != [] {
      var front := flows[..|flows| - 1];
      NoBandwidthYet(plan, front, p);
      assert flows == front + [flows[|flows| - 1]];
      CrossingPairNext(plan, front, flows[|flows| - 1], p);
    }
  }

  lemma BandwidthNext(plan: seq<Assignment>, flows: seq<FlowRequirement>, f: FlowRequirement)
    ensures forall p :: BandwidthOn(plan, flows + [f], p)
                     == BandwidthOn(plan, flows, p) + (if Ends(plan, f) == Some(p) && p.0 != p.1 then f.Bandwidth()
                                                       else 0.0)
    ensures forall p :: !CrossingPair(plan, flows, p) ==> BandwidthOn(plan, flows, p) == 0.0
    ensures forall p :: CrossingPair(plan, flows + [f], p)
                   <==> CrossingPair(plan, flows, p) || (Ends(plan, f) == Some(p) && p.0 != p.1)
  {
    hide Ends;
    assert (flows + [f])[..|flows|] == flows;
    forall p ensures !CrossingPair(plan, flows, p) ==> BandwidthOn(plan, flows, p) == 0.0 {
      NoBandwidthYet(plan, flows, p);
    }
    forall p ensures CrossingPair(plan, flows + [f], p)
                <==> CrossingPair(plan, flows, p) || (Ends(plan, f) == Some(p) && p.0 != p.1)
    {
      CrossingPairNext(plan, flows, f, p);
    }
  }

  lemma TrackedNext(plan: seq<Assignment>, flows: seq<FlowRequirement>, topo: AbstractTopology, order: seq<Pair>,
                    demand: map<Pair, real>, f: FlowRequirement, p: Pair)
    requires Tracked(plan, flows, topo, order, demand)
    requires Ends(plan, f) == Some(p) && p.0 != p.1 && HasLink(topo, p)
    ensures p in demand ==> Tracked(plan, flows + [f], topo, order, demand[p := demand[p] + f.Bandwidth()])
    ensures p !in demand ==> Tracked(plan, flows + [f], topo, order + [p], demand[p := f.Bandwidth()])
  {
    BandwidthNext(plan, flows, f);
    hide Ends, BandwidthOn, CrossingPair, HasLink;
  }

  lemma TrackedSkip(plan: seq<Assignment>, flows: seq<FlowRequirement>, topo: AbstractTopology, order: seq<Pair>,
                    demand: map<Pair, real>, f: FlowRequirement)
    requires Tracked(plan, flows, topo, order, demand)
    requires forall p :: Ends(plan, f) == Some(p) && p.0 != p.1 ==> !HasLink(topo, p)
    ensures Tracked(plan, flows + [f], topo, order, demand)
  {
    BandwidthNext(plan, flows, f);
    hide Ends, BandwidthOn, CrossingPair, HasLink;
  }

  lemma NothingTracked(plan: seq<Assignment>, topo: AbstractTopology)
    ensures Tracked(plan, [], topo, [], map[])
  {}

  ghost predicate FlagsRight(plan: seq<Assignment>, flows: seq<FlowRequirement>) {
    forall k :: 0 <= k < |flows| ==> FlagRight(plan, flows[k])
  }

  ghost predicate AllLinked(plan: seq<Assignment>, flows: seq<FlowRequirement>, topo: AbstractTopology) {
    forall k :: 0 <= k < |flows| ==> EndsLinked(plan, flows[k], topo)
  }

  lemma FlowsNext(plan: seq<Assignment>, flows: seq<FlowRequirement>, topo: AbstractTopology, f: FlowRequirement)
    ensures FlagsRight(plan, flows + [f]) <==> FlagsRight(plan, flows) && FlagRight(plan, f)
    ensures AllLinked(plan, flows + [f], topo) <==> AllLinked(plan, flows, topo) && EndsLinked(plan, f, topo)
  {
    hide FlagRight, EndsLinked;
    var next := flows + [f];
    assert next[|flows|] == f && forall k :: 0 <= k < |flows| ==> next[k] == flows[k];
  }

  /** One flow's link part: is it routable at all, and which direct link does it load? */
  method CheckEnds(plan: seq<Assignment>, f: FlowRequirement, topo: AbstractTopology, g: Graph<DomainName>)
    returns (vs: seq<Violation>, loads: Option<Pair>)
    requires IsDomainGraph(topo.domains, topo.links, g)
    ensures Only(vs, C5) && (vs == [] <==> EndsLinked(plan, f, topo))
    ensures loads.Some? ==> Ends(plan, f) == loads && loads.value.0 != loads.value.1 && HasLink(topo, loads.value)
    ensures loads.None? ==> forall p :: Ends(plan, f) == Some(p) && p.0 != p.1 ==> !HasLink(topo, p)
  {
    DomainGraphUndirected(topo.domains, topo.links, g);
    hide IsDomainGraph, Reachable, Ends, LinkBetween, Linked, Closed, Undirected;
    vs, loads := [], None;
    var ends := Ends(plan, f);
    if ends.Some? {
      var s, d := ends.value.0, ends.value.1;
      LinkedIffReachable(topo, g, s, d);
      if s != d {
        var reachable := DomainsReachable(g, s, d);
        if !reachable {
          vs := [Violation(C5, None)];
          if HasLink(topo, (s, d)) {
            DirectLinkConnects(topo, g, (s, d));
          }
        } else if HasLink(topo, (s, d)) {
          loads := ends;
        }
      }
    }
  }

  method CheckFlows(plan: seq<Assignment>, flows: seq<FlowRequirement>, topo: AbstractTopology)
    returns (flags: seq<Violation>, links: seq<Violation>)
    ensures Only(flags, SCHEMA) && (flags == [] <==> FlagsRight(plan, flows))
    ensures Only(links, C5) && (links == [] <==> BandwidthHolds(plan, flows, topo))
  {
    var g := BuildAdjacency(topo);
    hide IsDomainGraph, FlagRight, EndsLinked, Tracked, AllLinked, FlagsRight, BandwidthHolds, HasLink, Ends;
    flags, links := [], [];
    var order: seq<Pair>, demand: map<Pair, real> := [], map[];
    NothingTracked(plan, topo);
    NoFlows(plan, topo);
    assert flows[..0] == [];
    var i := 0;
    while i < |flows|
      invariant 0 <= i <= |flows| && Only(flags, SCHEMA) && Only(links, C5)
      invariant flags == [] <==> FlagsRight(plan, flows[..i])
      invariant links == [] <==> AllLinked(plan, flows[..i], topo)
      invariant Tracked(plan, flows[..i], topo, order, demand)
    {
      var f := flows[i];
      assert flows[..i + 1] == flows[..i] + [f];
      FlowsNext(plan, flows[..i], topo, f);
      var wrong := CheckFlag(plan, f);
      var cut, loads := CheckEnds(plan, f, topo, g);
      flags, links := flags + wrong, links + cut;
      order, demand := AddLoad(plan, flows[..i], topo, order, demand, f, loads);
      i := i + 1;
    }
    assert flows[..i] == flows;
    var over := CheckLoads(plan, flows, topo, order, demand);
    links := links + over;
  }

  lemma NoFlows(plan: seq<Assignment>, topo: AbstractTopology)
    ensures FlagsRight(plan, []) && AllLinked(plan, [], topo)
  {}

  method AddLoad(plan: seq<Assignment>, ghost flows: seq<FlowRequirement>, topo: AbstractTopology, order: seq<Pair>,
                 demand: map<Pair, real>, f: FlowRequirement, loads: Option<Pair>)
    returns (order': seq<Pair>, demand': map<Pair, real>)
    requires Tracked(plan, flows, topo, order, demand)
    requires loads.Some? ==> Ends(plan, f) == loads && loads.value.0 != loads.value.1 && HasLink(topo, loads.value)
    requires loads.None? ==> forall p :: Ends(plan, f) == Some(p) && p.0 != p.1 ==> !HasLink(topo, p)
    ensures Tracked(plan, flows + [f], topo, order', demand')
  {
    hide Tracked, HasLink, Ends;
    order', demand' := order, demand;
    if loads.Some? {
      var p := loads.value;
      TrackedNext(plan, flows, topo, order, demand, f, p);
      if p in demand {
        demand' := demand[p := demand[p] + f.Bandwidth()];
      } else {
        order', demand' := order + [p], demand[p := f.Bandwidth()];
      }
    } else {
      TrackedSkip(plan, flows, topo, order, demand, f);
    }
  }

  /** Aggregate bandwidth against each direct link used. */
  method CheckLoads(plan: seq<Assignment>, flows: seq<FlowRequirement>, topo: AbstractTopology, order: seq<Pair>,
                    demand: map<Pair, real>) returns (vs: seq<Violation>)
    requires Tracked(plan, flows, topo, order, demand)
    ensures Only(vs, C5) && (BandwidthHolds(plan, flows, topo) <==> AllLinked(plan, flows, topo) && vs == [])
  {
    hide Tracked, BandwidthHolds, Carries, AllLinked;
    LoadsByLink(plan, flows, topo, order, demand);
    vs := [];
    var i := 0;
    while i < |order|
      invariant 0 <= i <= |order| && Only(vs, C5)
      invariant vs == [] <==> forall j :: 0 <= j < i ==> Carries(topo, order[j], demand[order[j]])
    {
      var found := CheckLoad(topo, order[i], demand[order[i]]);
      vs := vs + found;
      i := i + 1;
    }
  }

  method CheckLoad(topo: AbstractTopology, p: Pair, demand: real) returns (vs: seq<Violation>)
    ensures Only(vs, C5) && (vs == [] <==> Carries(topo, p, demand))
  {
    vs := [];
    var link := LinkBetween(topo.links, p);
    if link.Some? {
      if demand > link.value.residual {
        vs := [Violation(C5, None)];
      }
    }
  }

  lemma LoadsByLink(plan: seq<Assignment>, flows: seq<FlowRequirement>, topo: AbstractTopology, order: seq<Pair>,
                    demand: map<Pair, real>)
    requires Tracked(plan, flows, topo, order, demand)
    ensures forall i :: 0 <= i < |order| ==> order[i] in demand
    ensures BandwidthHolds(plan, flows, topo) <==>
              AllLinked(plan, flows, topo) && forall i :: 0 <= i < |order| ==>
                    Carries(topo, order[i], demand[order[i]])
  {
    hide Ends, BandwidthOn, EndsLinked, CrossingPair, LinkBetween;
  }

  /** Validate a plan. Each violation tag appears exactly when its constraint family fails, so
      the plan is valid exactly when all four hold. */
  method CheckPlan(plan: seq<Assignment>, flows: seq<FlowRequirement>, req: SliceSpec, topo: AbstractTopology)
    returns (vs: seq<Violation>)
    ensures Mentions(vs, SCHEMA) <==> !SchemaRule(plan, flows, req, topo)
    ensures Mentions(vs, C8) <==> !TierRule(plan, req, topo)
    ensures Mentions(vs, C4) <==> !ResourceRule(plan, topo)
    ensures Mentions(vs, C5) <==> !BandwidthRule(plan, flows, topo)
    ensures vs == [] <==> SchemaRule(plan, flows, req, topo) && TierRule(plan, req, topo) && ResourceRule(plan, topo)
                          && BandwidthRule(plan, flows, topo)
  {
    SchemaMeans(plan, flows, req, topo);
    TiersMean(plan, req, topo);
    ResourcesMean(plan, topo);
    BandwidthMeans(plan, flows, topo);
    hide SchemaRule, TierRule, ResourceRule, BandwidthRule;
    hide KnownDomain, TierFits, FlagRight, TiersHold, ResourcesHold, BandwidthHolds, PlanIds, RequestIds;
    var names := CheckNames(plan, req, topo);
    var tiers := CheckTiers(plan, req, topo);
    var resources := CheckResources(plan, topo);
    var flags, links := CheckFlows(plan, flows, topo);
    vs := names + tiers + resources + flags + links;
    TagsApart(names, tiers, resources, flags, links);
  }

  lemma TagsApart(names: seq<Violation>, tiers: seq<Violation>, resources: seq<Violation>, flags: seq<Violation>,
                  links: seq<Violation>)
    requires Only(names, SCHEMA) && Only(tiers, C8) && Only(resources, C4) && Only(flags, SCHEMA) && Only(links, C5)
    ensures var vs := names + tiers + resources + flags + links;
            && (vs == [] <==> names == tiers == resources == flags == links == [])
            && (Mentions(vs, SCHEMA) <==> names != [] || flags != [])
            && (Mentions(vs, C8) <==> tiers != []) && (Mentions(vs, C4) <==> resources != [])
            && (Mentions(vs, C5) <==> links != [])
  {
    MentionsAppend(names, tiers);
    MentionsAppend(names + tiers, resources);
    MentionsAppend(names + tiers + resources, flags);
    MentionsAppend(names + tiers + resources + flags, links);
    MentionsOnly(names, SCHEMA);
    MentionsOnly(tiers, C8);
    MentionsOnly(resources, C4);
    MentionsOnly(flags, SCHEMA);
    MentionsOnly(links, C5);
  }

  lemma MentionsAppend(a: seq<Violation>, b: seq<Violation>)
    ensures forall tag :: Mentions(a + b, tag) <==> Mentions(a, tag) || Mentions(b, tag)
  {
    forall tag ensures Mentions(a + b, tag) <==> Mentions(a, tag) || Mentions(b, tag) {
      assert forall i :: 0 <= i < |b| ==> (a + b)[|a| + i] == b[i];
      assert forall i :: 0 <= i < |a| ==> (a + b)[i] == a[i];
    }
  }

  lemma MentionsOnly(vs: seq<Violation>, tag: Tag)
    requires Only(vs, tag)
    ensures forall t :: Mentions(vs, t) <==> t == tag && vs != []
  {
    if vs != [] {
      assert vs[0].tag == tag;
    }
  }
}
