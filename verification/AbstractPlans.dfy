/** The abstract plan a language model authors, the abstract topology it is checked against,
    and the four constraint families as declarative predicates. */
module AbstractPlans {
  import opened Types
  import opened Graphs

  /** A textual identifier; the empty one counts as absent. */
  datatype Name = Name(text: string) {
    predicate Given() {
      text != ""
    }
  }

  type DomainName = Name
  type VnfName = Name
  type TierName = Name

  datatype DomainInfo = DomainInfo(id: DomainName, tiers: seq<TierName>, residual: Amount,
                                   largestFree: map<TierName, Amount>)

  datatype InterLink = InterLink(src: Option<DomainName>, dst: Option<DomainName>, residual: real)

  datatype AbstractTopology = AbstractTopology(domains: seq<DomainInfo>, links: seq<InterLink>)

  datatype VnfSpec = VnfSpec(id: VnfName, permitted: seq<TierName>, demand: Amount)

  datatype FlowEdge = FlowEdge(src: VnfName, dst: VnfName, bandwidth: real)

  datatype SliceSpec = SliceSpec(vnfs: seq<VnfSpec>, flows: seq<FlowEdge>)

  /** One entry of the plan; a missing field is none. */
  datatype Assignment = Assignment(vnf: VnfName, domain: Option<DomainName>, tier: Option<TierName>,
                                   cpu: Option<real>, ram: Option<real>)
  {
    function Demand(): Amount {
      Amount(if cpu.Some? then cpu.value else 0.0, if ram.Some? then ram.value else 0.0)
    }

    /** A required tier is stated: present and not empty. */
    predicate StatesTier() {
      tier.Some? && tier.value.Given()
    }
  }

  datatype FlowRequirement = FlowRequirement(src: Option<VnfName>, dst: Option<VnfName>, bandwidth: Option<real>,
                                             crosses: Option<bool>)
  {
    function Bandwidth(): real {
      if bandwidth.Some? then bandwidth.value else 0.0
    }

    predicate SaysCrosses() {
      crosses.Some? && crosses.value
    }
  }

  // Dictionary lookups: a later entry with the same key replaces an earlier one.

  function DomainNamed(domains: seq<DomainInfo>, name: DomainName): (r: Option<DomainInfo>)
    ensures r.Some? ==> r.value in domains && r.value.id == name
    ensures r.None? <==> forall i :: 0 <= i < |domains| ==> domains[i].id != name
  {
    if domains == [] then None
    else if domains[|domains| - 1].id == name then Some(domains[|domains| - 1])
    else DomainNamed(domains[..|domains| - 1], name)
  }

  function SpecNamed(vnfs: seq<VnfSpec>, name: VnfName): (r: Option<VnfSpec>)
    ensures r.Some? ==> r.value in vnfs && r.value.id == name
    ensures r.None? <==> forall i :: 0 <= i < |vnfs| ==> vnfs[i].id != name
  {
    if vnfs == [] then None
    else if vnfs[|vnfs| - 1].id == name then Some(vnfs[|vnfs| - 1])
    else SpecNamed(vnfs[..|vnfs| - 1], name)
  }

  /** The domain a VNF was assigned to. */
  function AssignedDomain(plan: seq<Assignment>, vnf: VnfName): Option<DomainName> {
    if plan == [] then None
    else if plan[|plan| - 1].vnf == vnf then plan[|plan| - 1].domain
    else AssignedDomain(plan[..|plan| - 1], vnf)
  }

  function EndDomain(plan: seq<Assignment>, end: Option<VnfName>): Option<DomainName> {
    if end.None? then None else AssignedDomain(plan, end.value)
  }

  /** The domains at the two ends of a flow, when both are assigned. */
  function Ends(plan: seq<Assignment>, f: FlowRequirement): Option<(DomainName, DomainName)> {
    var s, d := EndDomain(plan, f.src), EndDomain(plan, f.dst);
    if s.Some? && d.Some? then Some((s.value, d.value)) else None
  }

  // Links between domains.

  predicate Proper(l: InterLink) {
    l.src.Some? && l.dst.Some? && l.src.value.Given() && l.dst.value.Given()
  }

  /** The link leads from the first domain of the pair to the second, both named. */
  ghost predicate LeadsTo(l: InterLink, pair: (DomainName, DomainName)) {
    l.src == Some(pair.0) && l.dst == Some(pair.1) && pair.0.text != "" && pair.1.text != ""
  }

  ghost predicate LastLeading(links: seq<InterLink>, pair: (DomainName, DomainName), i: int) {
    0 <= i < |links| && LeadsTo(links[i], pair) && forall j :: i < j < |links| ==> !LeadsTo(links[j], pair)
  }

  /** The link of an ordered pair: the last one listed, none exactly when none leads that way. */
  function LinkBetween(links: seq<InterLink>, pair: (DomainName, DomainName)): (r: Option<InterLink>)
    ensures r.Some? ==> exists i :: LastLeading(links, pair, i) && links[i] == r.value
    ensures r.None? <==> forall i :: 0 <= i < |links| ==> !LeadsTo(links[i], pair)
  {
    if links == [] then None
    else
      var front, l := links[..|links| - 1], links[|links| - 1];
      if Proper(l) && (l.src.value, l.dst.value) == pair then
        assert LastLeading(links, pair, |links| - 1);
        Some(l)
      else
        assert forall i :: LastLeading(links, pair, i) <==> LastLeading(front, pair, i);
        LinkBetween(front, pair)
  }

  predicate Joins(l: InterLink, a: DomainName, b: DomainName) {
    Proper(l) && ((l.src.value == a && l.dst.value == b) || (l.src.value == b && l.dst.value == a))
  }

  /** The undirected graph of domains: known domains and everything a link names. */
  ghost predicate IsDomainGraph(domains: seq<DomainInfo>, links: seq<InterLink>, g: Graph<DomainName>) {
    && (forall d :: d in domains ==> d.id in g)
    && (forall a :: a in g ==> (exists d :: d in domains && d.id == a) || exists l, b :: l in links && Joins(l, a, b))
    && (forall l, a, b :: l in links && Joins(l, a, b) ==> a in g && b in g[a])
    && forall a, b :: a in g && b in g[a] ==> exists l :: l in links && Joins(l, a, b)
  }

  /** Some chain of inter-domain links leads from one domain to the other. */
  ghost predicate Linked(topo: AbstractTopology, a: DomainName, b: DomainName) {
    a == b || exists g :: IsDomainGraph(topo.domains, topo.links, g) && Reachable(g, {a}, b)
  }

  // The constraints.

  function RequestIds(req: SliceSpec): set<VnfName> {
    set i | 0 <= i < |req.vnfs| :: req.vnfs[i].id
  }

  function PlanIds(plan: seq<Assignment>): set<VnfName> {
    set j | 0 <= j < |plan| :: plan[j].vnf
  }

  predicate KnownDomain(topo: AbstractTopology, a: Assignment) {
    a.domain.Some? && DomainNamed(topo.domains, a.domain.value).Some?
  }

  predicate FlagRight(plan: seq<Assignment>, f: FlowRequirement) {
    Ends(plan, f).None? || (f.SaysCrosses() <==> Ends(plan, f).value.0 != Ends(plan, f).value.1)
  }

  /** The same VNFs, only known domains, and boundary flags that match the assignments. */
  ghost predicate SchemaHolds(plan: seq<Assignment>, flows: seq<FlowRequirement>, req: SliceSpec,
                              topo: AbstractTopology)
  {
    && PlanIds(plan) == RequestIds(req)
    && (forall a :: a in plan ==> KnownDomain(topo, a))
    && forall k :: 0 <= k < |flows| ==> FlagRight(plan, flows[k])
  }

  predicate Overlap(permitted: seq<TierName>, tiers: seq<TierName>) {
    exists t :: t in permitted && t in tiers
  }

  /** A stated tier is permitted and supported; with none stated some permitted one is. */
  predicate TierFits(a: Assignment, req: SliceSpec, topo: AbstractTopology) {
    var spec := SpecNamed(req.vnfs, a.vnf);
    (spec.Some? && KnownDomain(topo, a)) ==>
      var tiers := DomainNamed(topo.domains, a.domain.value).value.tiers;
      if a.StatesTier() then a.tier.value in spec.value.permitted && a.tier.value in tiers
      else Overlap(spec.value.permitted, tiers)
  }

  ghost predicate TiersHold(plan: seq<Assignment>, req: SliceSpec, topo: AbstractTopology) {
    forall a :: a in plan ==> TierFits(a, req, topo)
  }

  /** Demand the plan sends to a domain. */
  function DemandOn(plan: seq<Assignment>, d: DomainName): Amount {
    if plan == [] then ZERO
    else
      var a := plan[|plan| - 1];
      DemandOn(plan[..|plan| - 1], d).Plus(if a.domain == Some(d) then a.Demand() else ZERO)
  }

  ghost predicate ResourcesHold(plan: seq<Assignment>, topo: AbstractTopology) {
    forall a :: a in plan && KnownDomain(topo, a) ==>
      DomainNamed(topo.domains, a.domain.value).value.residual.Covers(DemandOn(plan, a.domain.value))
  }

  /** Bandwidth all crossing flows between this ordered pair of domains ask for. */
  function BandwidthOn(plan: seq<Assignment>, flows: seq<FlowRequirement>, pair: (DomainName, DomainName)): real {
    if flows == [] then 0.0
    else
      var f := flows[|flows| - 1];
      BandwidthOn(plan, flows[..|flows| - 1], pair)
        + if Ends(plan, f) == Some(pair) && pair.0 != pair.1 then f.Bandwidth() else 0.0
  }

  ghost predicate EndsLinked(plan: seq<Assignment>, f: FlowRequirement, topo: AbstractTopology) {
    Ends(plan, f).Some? ==> Linked(topo, Ends(plan, f).value.0, Ends(plan, f).value.1)
  }

  /** The direct link of a crossing flow, when there is one, carries all flows that use it. */
  predicate DirectLinkCarries(plan: seq<Assignment>, flows: seq<FlowRequirement>, pair: (DomainName, DomainName),
                              topo: AbstractTopology)
  {
    Carries(topo, pair, BandwidthOn(plan, flows, pair))
  }

  predicate Carries(topo: AbstractTopology, pair: (DomainName, DomainName), demand: real) {
    LinkBetween(topo.links, pair).Some? ==> demand <= LinkBetween(topo.links, pair).value.residual
  }

  ghost predicate BandwidthHolds(plan: seq<Assignment>, flows: seq<FlowRequirement>, topo: AbstractTopology) {
    && (forall k :: 0 <= k < |flows| ==> EndsLinked(plan, flows[k], topo))
    && forall pair :: CrossingPair(plan, flows, pair) ==> DirectLinkCarries(plan, flows, pair, topo)
  }

  /** Some flow crosses from the first domain to the second. */
  ghost predicate CrossingPair(plan: seq<Assignment>, flows: seq<FlowRequirement>, pair: (DomainName, DomainName)) {
    pair.0 != pair.1 && exists k :: 0 <= k < |flows| && Ends(plan, flows[k]) == Some(pair)
  }
}
