/** The four constraint families read off the fields of plan, request and topology: no lookup of
    the checker appears here. Where several entries carry one key, the last one counts. */
module PlanRules {
  import opened Types
  import opened Graphs
  import opened AbstractPlans

  ghost predicate LastDomain(domains: seq<DomainInfo>, name: DomainName, i: int) {
    0 <= i < |domains| && domains[i].id == name && forall j :: i < j < |domains| ==> domains[j].id != name
  }

  ghost predicate LastSpec(vnfs: seq<VnfSpec>, name: VnfName, i: int) {
    0 <= i < |vnfs| && vnfs[i].id == name && forall j :: i < j < |vnfs| ==> vnfs[j].id != name
  }

  ghost predicate LastRow(plan: seq<Assignment>, vnf: VnfName, i: int) {
    0 <= i < |plan| && plan[i].vnf == vnf && forall j :: i < j < |plan| ==> plan[j].vnf != vnf
  }

  /** The VNF is assigned to the domain. */
  ghost predicate AtDomain(plan: seq<Assignment>, vnf: VnfName, d: DomainName) {
    exists i :: LastRow(plan, vnf, i) && plan[i].domain == Some(d)
  }

  /** The flow leads from the first domain to the second. */
  ghost predicate FlowJoins(plan: seq<Assignment>, f: FlowRequirement, a: DomainName, b: DomainName) {
    f.src.Some? && f.dst.Some? && AtDomain(plan, f.src.value, a) && AtDomain(plan, f.dst.value, b)
  }

  // The rules.

  ghost predicate Asked(req: SliceSpec, n: VnfName) {
    exists i :: 0 <= i < |req.vnfs| && req.vnfs[i].id == n
  }

  ghost predicate Planned(plan: seq<Assignment>, n: VnfName) {
    exists j :: 0 <= j < |plan| && plan[j].vnf == n
  }

  ghost predicate SomeDomain(topo: AbstractTopology, d: Option<DomainName>) {
    exists i :: 0 <= i < |topo.domains| && d == Some(topo.domains[i].id)
  }

  /** The same VNFs, only known domains, and a flow says that it crosses exactly when it does. */
  ghost predicate SchemaRule(plan: seq<Assignment>, flows: seq<FlowRequirement>, req: SliceSpec,
                             topo: AbstractTopology)
  {
    && (forall n :: Asked(req, n) <==> Planned(plan, n))
    && (forall j :: 0 <= j < |plan| ==> SomeDomain(topo, plan[j].domain))
    && forall k, a, b :: 0 <= k < |flows| && FlowJoins(plan, flows[k], a, b) ==>
         (flows[k].crosses == Some(true) <==> a != b)
  }

  /** A stated tier is permitted and present; without one some permitted tier is present. */
  ghost predicate TierSits(tier: Option<TierName>, permitted: seq<TierName>, tiers: seq<TierName>) {
    if tier.Some? && tier.value.text != "" then tier.value in permitted && tier.value in tiers
    else exists t :: t in permitted && t in tiers
  }

  ghost predicate TierRule(plan: seq<Assignment>, req: SliceSpec, topo: AbstractTopology) {
    forall j, s, d :: 0 <= j < |plan| && LastSpec(req.vnfs, plan[j].vnf, s) && plan[j].domain.Some?
                      && LastDomain(topo.domains, plan[j].domain.value, d) ==>
      TierSits(plan[j].tier, req.vnfs[s].permitted, topo.domains[d].tiers)
  }

  ghost function CpuOn(plan: seq<Assignment>, d: DomainName): real {
    if plan == [] then 0.0
    else
      var a := plan[|plan| - 1];
      CpuOn(plan[..|plan| - 1], d) + if a.domain == Some(d) && a.cpu.Some? then a.cpu.value else 0.0
  }

  ghost function RamOn(plan: seq<Assignment>, d: DomainName): real {
    if plan == [] then 0.0
    else
      var a := plan[|plan| - 1];
      RamOn(plan[..|plan| - 1], d) + if a.domain == Some(d) && a.ram.Some? then a.ram.value else 0.0
  }

  /** No known domain is asked for more CPU or RAM than it has left. */
  ghost predicate ResourceRule(plan: seq<Assignment>, topo: AbstractTopology) {
    forall j, d :: 0 <= j < |plan| && plan[j].domain.Some? && LastDomain(topo.domains, plan[j].domain.value, d) ==>
      && CpuOn(plan, plan[j].domain.value) <= topo.domains[d].residual.cpu
      && RamOn(plan, plan[j].domain.value) <= topo.domains[d].residual.ram
  }

  ghost predicate LastLink(links: seq<InterLink>, a: DomainName, b: DomainName, i: int) {
    0 <= i < |links| && LeadsTo(links[i], (a, b)) && forall j :: i < j < |links| ==> !LeadsTo(links[j], (a, b))
  }

  ghost predicate Adjacent(links: seq<InterLink>, a: DomainName, b: DomainName) {
    exists i :: 0 <= i < |links| && (LeadsTo(links[i], (a, b)) || LeadsTo(links[i], (b, a)))
  }

  ghost predicate IsChain(links: seq<InterLink>, path: seq<DomainName>) {
    |path| > 1 && forall i :: 0 <= i < |path| - 1 ==> Adjacent(links, path[i], path[i + 1])
  }

  /** A chain of links, taken in either direction, leads from one domain to the other. */
  ghost predicate Chained(links: seq<InterLink>, a: DomainName, b: DomainName) {
    exists path :: IsChain(links, path) && path[0] == a && path[|path| - 1] == b
  }

  ghost function AskedOn(plan: seq<Assignment>, flows: seq<FlowRequirement>, a: DomainName, b: DomainName): real {
    if flows == [] then 0.0
    else
      var f := flows[|flows| - 1];
      AskedOn(plan, flows[..|flows| - 1], a, b)
        + if FlowJoins(plan, f, a, b) && f.bandwidth.Some? then f.bandwidth.value else 0.0
  }

  /** The flows from a to b together fit on the last link listed from a to b. */
  ghost predicate FitsLink(plan: seq<Assignment>, flows: seq<FlowRequirement>, topo: AbstractTopology, a: DomainName,
                           b: DomainName)
  {
    forall e :: LastLink(topo.links, a, b, e) ==> AskedOn(plan, flows, a, b) <= topo.links[e].residual
  }

  /** Every crossing flow has a chain of links, and the flows of each ordered pair together fit on
      the pair's direct link, when there is one. */
  ghost predicate BandwidthRule(plan: seq<Assignment>, flows: seq<FlowRequirement>, topo: AbstractTopology) {
    && (forall k, a, b :: 0 <= k < |flows| && FlowJoins(plan, flows[k], a, b) ==> a == b || Chained(topo.links, a, b))
    && forall k, a, b :: 0 <= k < |flows| && FlowJoins(plan, flows[k], a, b) && a != b ==>
         FitsLink(plan, flows, topo, a, b)
  }

  // The lookups.

  lemma {:induction false} DomainNamedAt(domains: seq<DomainInfo>, name: DomainName, i: int)
    requires LastDomain(domains, name, i)
    ensures DomainNamed(domains, name) == Some(domains[i])
  {
    var n := |domains| - 1;
    if i < n {
      assert domains[n].id != name;
      DomainNamedAt(domains[..n], name, i);
    }
  }

  lemma {:induction false} DomainNamedSomewhere(domains: seq<DomainInfo>, name: DomainName) returns (i: int)
    requires DomainNamed(domains, name).Some?
    ensures LastDomain(domains, name, i)
  {
    i := |domains| - 1;
    if domains[i].id != name {
      i := DomainNamedSomewhere(domains[..i], name);
    }
  }

  lemma DomainNamedIsLast(domains: seq<DomainInfo>, name: DomainName)
    ensures forall i :: LastDomain(domains, name, i) ==> DomainNamed(domains, name) == Some(domains[i])
    ensures DomainNamed(domains, name).Some? ==> exists i :: LastDomain(domains, name, i)
  {
    forall i | LastDomain(domains, name, i) ensures DomainNamed(domains, name) == Some(domains[i]) {
      DomainNamedAt(domains, name, i);
    }
    if DomainNamed(domains, name).Some? {
      var i := DomainNamedSomewhere(domains, name);
    }
  }

  lemma {:induction false} SpecNamedAt(vnfs: seq<VnfSpec>, name: VnfName, i: int)
    requires LastSpec(vnfs, name, i)
    ensures SpecNamed(vnfs, name) == Some(vnfs[i])
  {
    var n := |vnfs| - 1;
    if i < n {
      assert vnfs[n].id != name;
      SpecNamedAt(vnfs[..n], name, i);
    }
  }

  lemma {:induction false} SpecNamedSomewhere(vnfs: seq<VnfSpec>, name: VnfName) returns (i: int)
    requires SpecNamed(vnfs, name).Some?
    ensures LastSpec(vnfs, name, i)
  {
    i := |vnfs| - 1;
    if vnfs[i].id != name {
      i := SpecNamedSomewhere(vnfs[..i], name);
    }
  }

  lemma SpecNamedIsLast(vnfs: seq<VnfSpec>, name: VnfName)
    ensures forall i :: LastSpec(vnfs, name, i) ==> SpecNamed(vnfs, name) == Some(vnfs[i])
    ensures SpecNamed(vnfs, name).Some? ==> exists i :: LastSpec(vnfs, name, i)
  {
    forall i | LastSpec(vnfs, name, i) ensures SpecNamed(vnfs, name) == Some(vnfs[i]) {
      SpecNamedAt(vnfs, name, i);
    }
    if SpecNamed(vnfs, name).Some? {
      var i := SpecNamedSomewhere(vnfs, name);
    }
  }

  lemma {:induction false} AssignedMeans(plan: seq<Assignment>, vnf: VnfName, d: DomainName)
    ensures AssignedDomain(plan, vnf) == Some(d) <==> AtDomain(plan, vnf, d)
  {
    if plan != [] {
      var n := |plan| - 1;
      AssignedMeans(plan[..n], vnf, d);
      if plan[n].vnf == vnf {
        assert LastRow(plan, vnf, n);
      } else {
        assert forall i :: LastRow(plan, vnf, i) <==> LastRow(plan[..n], vnf, i);
      }
    }
  }

  lemma EndsMean(plan: seq<Assignment>, f: FlowRequirement, a: DomainName, b: DomainName)
    ensures Ends(plan, f) == Some((a, b)) <==> FlowJoins(plan, f, a, b)
  {
    hide AssignedDomain, AtDomain;
    if f.src.Some? && f.dst.Some? {
      AssignedMeans(plan, f.src.value, a);
      AssignedMeans(plan, f.dst.value, b);
    }
  }

  // The families.

  lemma SchemaMeans(plan: seq<Assignment>, flows: seq<FlowRequirement>, req: SliceSpec, topo: AbstractTopology)
    ensures SchemaHolds(plan, flows, req, topo) <==> SchemaRule(plan, flows, req, topo)
  {
    NamesMean(plan, req);
    forall a | a in plan ensures KnownDomain(topo, a) <==> SomeDomain(topo, a.domain) {
      KnownMeans(topo, a);
    }
    forall k | 0 <= k < |flows|
      ensures FlagRight(plan, flows[k])
         <==> forall a, b :: FlowJoins(plan, flows[k], a, b) ==> (flows[k].crosses == Some(true) <==> a != b)
    {
      FlagMeans(plan, flows[k]);
    }
    hide FlagRight, FlowJoins, KnownDomain, SomeDomain, PlanIds, RequestIds, Asked, Planned;
    assert forall j :: 0 <= j < |plan| ==> plan[j] in plan;
  }

  lemma NamesMean(plan: seq<Assignment>, req: SliceSpec)
    ensures PlanIds(plan) == RequestIds(req) <==> forall n :: Asked(req, n) <==> Planned(plan, n)
  {
    assert forall n :: n in PlanIds(plan) <==> Planned(plan, n);
    assert forall n :: n in RequestIds(req) <==> Asked(req, n);
  }

  lemma KnownMeans(topo: AbstractTopology, a: Assignment)
    ensures KnownDomain(topo, a) <==> SomeDomain(topo, a.domain)
  {
    hide DomainNamed;
    if a.domain.Some? {
      var r := DomainNamed(topo.domains, a.domain.value);
    }
  }

  lemma FlagMeans(plan: seq<Assignment>, f: FlowRequirement)
    ensures FlagRight(plan, f)
       <==> forall a, b :: FlowJoins(plan, f, a, b) ==> (f.crosses == Some(true) <==> a != b)
  {
    hide Ends, FlowJoins;
    forall a, b ensures Ends(plan, f) == Some((a, b)) <==> FlowJoins(plan, f, a, b) {
      EndsMean(plan, f, a, b);
    }
    if Ends(plan, f).Some? {
      assert FlowJoins(plan, f, Ends(plan, f).value.0, Ends(plan, f).value.1);
    }
  }

  lemma TiersMean(plan: seq<Assignment>, req: SliceSpec, topo: AbstractTopology)
    ensures TiersHold(plan, req, topo) <==> TierRule(plan, req, topo)
  {
    forall a | a in plan ensures TierFits(a, req, topo) <==> RowSits(a, req, topo) {
      TierMeans(a, req, topo);
    }
    hide TierFits;
    if TierRule(plan, req, topo) {
      forall a | a in plan ensures RowSits(a, req, topo) {
        var j :| 0 <= j < |plan| && plan[j] == a;
      }
    }
    if forall a :: a in plan ==> RowSits(a, req, topo) {
      forall j | 0 <= j < |plan| ensures RowSits(plan[j], req, topo) {
        assert plan[j] in plan;
      }
    }
  }

  ghost predicate RowSits(a: Assignment, req: SliceSpec, topo: AbstractTopology) {
    forall s, d :: LastSpec(req.vnfs, a.vnf, s) && a.domain.Some? && LastDomain(topo.domains, a.domain.value, d) ==>
      TierSits(a.tier, req.vnfs[s].permitted, topo.domains[d].tiers)
  }

  lemma TierMeans(a: Assignment, req: SliceSpec, topo: AbstractTopology)
    ensures TierFits(a, req, topo) <==> RowSits(a, req, topo)
  {
    SpecNamedIsLast(req.vnfs, a.vnf);
    hide DomainNamed, SpecNamed, LastSpec, LastDomain;
    if a.domain.Some? {
      DomainNamedIsLast(topo.domains, a.domain.value);
    }
    if TierFits(a, req, topo) {
      assert RowSits(a, req, topo);
    }
    if RowSits(a, req, topo) && SpecNamed(req.vnfs, a.vnf).Some? && KnownDomain(topo, a) {
      var s :| LastSpec(req.vnfs, a.vnf, s);
      var d :| LastDomain(topo.domains, a.domain.value, d);
    }
  }

  lemma {:induction false} DemandMeans(plan: seq<Assignment>, d: DomainName)
    ensures DemandOn(plan, d) == Amount(CpuOn(plan, d), RamOn(plan, d))
  {
    if plan != [] {
      DemandMeans(plan[..|plan| - 1], d);
    }
  }

  lemma ResourcesMean(plan: seq<Assignment>, topo: AbstractTopology)
    ensures ResourcesHold(plan, topo) <==> ResourceRule(plan, topo)
  {
    forall d: DomainName
      ensures DemandOn(plan, d) == Amount(CpuOn(plan, d), RamOn(plan, d))
      ensures forall i :: LastDomain(topo.domains, d, i) ==> DomainNamed(topo.domains, d) == Some(topo.domains[i])
      ensures DomainNamed(topo.domains, d).Some? ==> exists i :: LastDomain(topo.domains, d, i)
    {
      DemandMeans(plan, d);
      DomainNamedIsLast(topo.domains, d);
    }
    hide DemandOn, CpuOn, RamOn, DomainNamed, LastDomain;
    if ResourcesHold(plan, topo) {
      forall j, d | 0 <= j < |plan| && plan[j].domain.Some? && LastDomain(topo.domains, plan[j].domain.value, d)
        ensures CpuOn(plan, plan[j].domain.value) <= topo.domains[d].residual.cpu
        ensures RamOn(plan, plan[j].domain.value) <= topo.domains[d].residual.ram
      {
        assert plan[j] in plan && KnownDomain(topo, plan[j]);
      }
    }
    if ResourceRule(plan, topo) {
      forall a | a in plan && KnownDomain(topo, a)
        ensures DomainNamed(topo.domains, a.domain.value).value.residual.Covers(DemandOn(plan, a.domain.value))
      {
        var j :| 0 <= j < |plan| && plan[j] == a;
        var i :| LastDomain(topo.domains, a.domain.value, i);
      }
    }
  }

  // The domain graph.

  lemma JoinsMeans(l: InterLink, a: DomainName, b: DomainName)
    ensures Joins(l, a, b) <==> LeadsTo(l, (a, b)) || LeadsTo(l, (b, a))
  {}

  ghost function NamesIn(topo: AbstractTopology): set<DomainName> {
    (set i | 0 <= i < |topo.domains| :: topo.domains[i].id)
    + (set e | 0 <= e < |topo.links| && topo.links[e].src.Some? :: topo.links[e].src.value)
    + (set e | 0 <= e < |topo.links| && topo.links[e].dst.Some? :: topo.links[e].dst.value)
  }

  ghost predicate HasPlace(topo: AbstractTopology, a: DomainName) {
    SomeDomain(topo, Some(a)) || exists b :: Adjacent(topo.links, a, b)
  }

  ghost function GraphOf(topo: AbstractTopology): Graph<DomainName> {
    map a | a in NamesIn(topo) && HasPlace(topo, a) :: set b | b in NamesIn(topo) && Adjacent(topo.links, a, b)
  }

  lemma AdjacentNamed(topo: AbstractTopology, a: DomainName, b: DomainName)
    requires Adjacent(topo.links, a, b)
    ensures a in NamesIn(topo) && b in NamesIn(topo) && Adjacent(topo.links, b, a)
  {}

  lemma AdjacentMeans(links: seq<InterLink>, a: DomainName, b: DomainName)
    ensures Adjacent(links, a, b) <==> exists l :: l in links && Joins(l, a, b)
  {
    hide LeadsTo, Joins;
    forall l ensures Joins(l, a, b) <==> LeadsTo(l, (a, b)) || LeadsTo(l, (b, a)) {
      JoinsMeans(l, a, b);
    }
    if Adjacent(links, a, b) {
      var i :| 0 <= i < |links| && (LeadsTo(links[i], (a, b)) || LeadsTo(links[i], (b, a)));
      assert links[i] in links && Joins(links[i], a, b);
    }
  }

  lemma GraphOfIsDomainGraph(topo: AbstractTopology)
    ensures IsDomainGraph(topo.domains, topo.links, GraphOf(topo))
  {
    var g := GraphOf(topo);
    forall a, b ensures Adjacent(topo.links, a, b) <==> exists l :: l in topo.links && Joins(l, a, b) {
      AdjacentMeans(topo.links, a, b);
    }
    forall a, b | Adjacent(topo.links, a, b)
      ensures a in NamesIn(topo) && b in NamesIn(topo) && Adjacent(topo.links, b, a)
    {
      AdjacentNamed(topo, a, b);
    }
    forall d | d in topo.domains ensures d.id in NamesIn(topo) && SomeDomain(topo, Some(d.id)) {
      var i :| 0 <= i < |topo.domains| && topo.domains[i] == d;
    }
    hide Adjacent, Joins, NamesIn;
    forall l, a, b | l in topo.links && Joins(l, a, b) ensures a in g && b in g[a] {
      assert Adjacent(topo.links, a, b);
    }
    forall a | a in g
      ensures (exists d :: d in topo.domains && d.id == a) || exists l, b :: l in topo.links && Joins(l, a, b)
    {
      if SomeDomain(topo, Some(a)) {
        var i :| 0 <= i < |topo.domains| && Some(a) == Some(topo.domains[i].id);
        assert topo.domains[i] in topo.domains;
      }
    }
  }

  lemma {:induction false} ChainReaches(topo: AbstractTopology, path: seq<DomainName>, i: nat)
    requires IsChain(topo.links, path) && i < |path|
    ensures Hops(GraphOf(topo), {path[0]}, path[i], i)
  {
    var g := GraphOf(topo);
    assert Adjacent(topo.links, path[0], path[1]);
    AdjacentNamed(topo, path[0], path[1]);
    hide Adjacent, NamesIn;
    if i > 0 {
      ChainReaches(topo, path, i - 1);
      assert Adjacent(topo.links, path[i - 1], path[i]);
      AdjacentNamed(topo, path[i - 1], path[i]);
      assert path[i - 1] in g && path[i] in g[path[i - 1]];
    }
  }

  lemma {:induction false} WalkIsChain(topo: AbstractTopology, a: DomainName, b: DomainName,
                                       d: nat) returns (path: seq<DomainName>)
    requires d > 0 && Hops(GraphOf(topo), {a}, b, d)
    ensures IsChain(topo.links, path) && path[0] == a && path[|path| - 1] == b
    decreases d
  {
    hide Adjacent, NamesIn;
    var u := LastHop(GraphOf(topo), {a}, b, d);
    assert Adjacent(topo.links, u, b);
    if d == 1 {
      path := [a, b];
    } else {
      hide GraphOf, Hops;
      var front := WalkIsChain(topo, a, u, d - 1);
      path := front + [b];
    }
  }

  lemma LinkedMeans(topo: AbstractTopology, a: DomainName, b: DomainName)
    ensures Linked(topo, a, b) <==> a == b || Chained(topo.links, a, b)
  {
    var g := GraphOf(topo);
    GraphOfIsDomainGraph(topo);
    if a != b {
      if Linked(topo, a, b) {
        var h :| IsDomainGraph(topo.domains, topo.links, h) && Reachable(h, {a}, b);
        GraphUnique(topo, g, h);
        var d: nat :| Hops(g, {a}, b, d);
        hide GraphOf, IsDomainGraph;
        var path := WalkIsChain(topo, a, b, d);
      }
      if Chained(topo.links, a, b) {
        var path :| IsChain(topo.links, path) && path[0] == a && path[|path| - 1] == b;
        hide GraphOf, IsDomainGraph;
        ChainReaches(topo, path, |path| - 1);
        assert Reachable(g, {a}, b);
      }
    }
  }

  lemma GraphUnique(topo: AbstractTopology, g: Graph<DomainName>, h: Graph<DomainName>)
    requires IsDomainGraph(topo.domains, topo.links, g) && IsDomainGraph(topo.domains, topo.links, h)
    ensures g == h
  {
    forall a ensures a in g <==> a in h {}
    forall a | a in g ensures g[a] == h[a] {
      forall b ensures b in g[a] <==> b in h[a] {}
    }
  }

  // Bandwidth.

  lemma {:induction false} AskedMeans(plan: seq<Assignment>, flows: seq<FlowRequirement>, a: DomainName, b: DomainName)
    requires a != b
    ensures BandwidthOn(plan, flows, (a, b)) == AskedOn(plan, flows, a, b)
  {
    hide Ends, FlowJoins;
    if flows != [] {
      AskedMeans(plan, flows[..|flows| - 1], a, b);
      EndsMean(plan, flows[|flows| - 1], a, b);
    }
  }

  lemma CarriesMeans(plan: seq<Assignment>, flows: seq<FlowRequirement>, topo: AbstractTopology, a: DomainName,
                     b: DomainName)
    requires a != b
    ensures DirectLinkCarries(plan, flows, (a, b), topo) <==> FitsLink(plan, flows, topo, a, b)
  {
    AskedMeans(plan, flows, a, b);
    hide LinkBetween, BandwidthOn, AskedOn, LeadsTo;
    var r := LinkBetween(topo.links, (a, b));
    if r.Some? {
      var i :| LastLeading(topo.links, (a, b), i) && topo.links[i] == r.value;
      assert forall e :: LastLink(topo.links, a, b, e) <==> e == i;
    }
  }

  lemma BandwidthMeans(plan: seq<Assignment>, flows: seq<FlowRequirement>, topo: AbstractTopology)
    ensures BandwidthHolds(plan, flows, topo) <==> BandwidthRule(plan, flows, topo)
  {
    forall k, a, b ensures 0 <= k < |flows| ==> (Ends(plan, flows[k]) == Some((a, b))
                                            <==> FlowJoins(plan, flows[k], a, b)) {
      if 0 <= k < |flows| {
        EndsMean(plan, flows[k], a, b);
      }
    }
    forall a, b ensures Linked(topo, a, b) <==> a == b || Chained(topo.links, a, b) {
      LinkedMeans(topo, a, b);
    }
    forall a, b | a != b ensures DirectLinkCarries(plan, flows, (a, b), topo) <==> FitsLink(plan, flows, topo, a, b) {
      CarriesMeans(plan, flows, topo, a, b);
    }
    hide Ends, FlowJoins, Linked, Chained, DirectLinkCarries, FitsLink;
    if BandwidthRule(plan, flows, topo) {
      forall pair | CrossingPair(plan, flows, pair) ensures DirectLinkCarries(plan, flows, pair, topo) {
        var k :| 0 <= k < |flows| && Ends(plan, flows[k]) == Some(pair);
        assert FlowJoins(plan, flows[k], pair.0, pair.1);
      }
      forall k | 0 <= k < |flows| ensures EndsLinked(plan, flows[k], topo) {
        if Ends(plan, flows[k]).Some? {
          assert FlowJoins(plan, flows[k], Ends(plan, flows[k]).value.0, Ends(plan, flows[k]).value.1);
        }
      }
    }
    if BandwidthHolds(plan, flows, topo) {
      forall k, a, b | 0 <= k < |flows| && FlowJoins(plan, flows[k], a, b)
        ensures a == b || (Chained(topo.links, a, b) && FitsLink(plan, flows, topo, a, b))
      {
        assert Ends(plan, flows[k]) == Some((a, b)) && EndsLinked(plan, flows[k], topo);
        if a != b {
          assert CrossingPair(plan, flows, (a, b));
        }
      }
    }
  }
}
