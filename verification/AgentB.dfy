/** The decode contract of the plan author: which plans the pinned grammar can express, the
    in-place fix-ups every parsed plan goes through, and what the checker can still find. */
module AgentB {
  import opened Types
  import opened Sorting
  import opened AbstractPlans
  import opened PlanRules
  import opened StructuralChecker

  datatype Settings = Settings(capacityMask: bool, colocationContract: bool, hostSlackBand: real)

  /** Domains whose tiers overlap the VNF's permitted tiers, in topology order. */
  function TierFeasibleDomains(v: VnfSpec, domains: seq<DomainInfo>): (r: seq<DomainName>)
    ensures forall n :: n in r <==> exists d :: d in domains && d.id == n && Overlap(v.permitted, d.tiers)
  {
    if domains == [] then []
    else
      var front, d := domains[..|domains| - 1], domains[|domains| - 1];
      assert domains == front + [d];
      TierFeasibleDomains(v, front) + if Overlap(v.permitted, d.tiers) then [d.id] else []
  }

  // Whole-chain hosts.

  function TotalDemand(vnfs: seq<VnfSpec>): Amount {
    if vnfs == [] then ZERO else TotalDemand(vnfs[..|vnfs| - 1]).Plus(vnfs[|vnfs| - 1].demand)
  }

  function SlackOf(d: DomainInfo, total: Amount): real {
    var left := d.residual.Minus(total);
    if left.cpu <= left.ram then left.cpu else left.ram
  }

  /** One node of some permitted tier of the domain seats the VNF. */
  predicate Seats(d: DomainInfo, v: VnfSpec) {
    exists t :: t in v.permitted && t in d.tiers && FreeNode(d, t).Covers(v.demand)
  }

  function FreeNode(d: DomainInfo, t: TierName): Amount {
    if t in d.largestFree then d.largestFree[t] else ZERO
  }

  /** The three tests of a host of the whole chain. */
  predicate CanHost(d: DomainInfo, vnfs: seq<VnfSpec>) {
    && (forall k :: 0 <= k < |vnfs| ==> Overlap(vnfs[k].permitted, d.tiers) && Seats(d, vnfs[k]))
    && SlackOf(d, TotalDemand(vnfs)) > 0.0
  }

  datatype Scored = Scored(slack: real, domain: DomainName)

  /** The alphabetical order of names. */
  type NameOrder = (Name, Name) -> bool

  /** Larger slack first, then the smaller name. */
  predicate Better(a: Scored, b: Scored, le: NameOrder) {
    a.slack > b.slack || (a.slack == b.slack && le(a.domain, b.domain))
  }

  /** The hosts found, with their slack. */
  ghost predicate Hosts(req: SliceSpec, domains: seq<DomainInfo>, scored: seq<Scored>) {
    forall s :: s in scored <==>
      exists d :: d in domains && CanHost(d, req.vnfs) && s == Scored(SlackOf(d, TotalDemand(req.vnfs)), d.id)
  }

  method SeatsChain(d: DomainInfo, vnfs: seq<VnfSpec>) returns (ok: bool)
    ensures ok <==> forall k :: 0 <= k < |vnfs| ==> Overlap(vnfs[k].permitted, d.tiers) && Seats(d, vnfs[k])
  {
    hide Overlap, Seats;
    var k := 0;
    while k < |vnfs|
      invariant 0 <= k <= |vnfs|
      invariant forall j :: 0 <= j < k ==> Overlap(vnfs[j].permitted, d.tiers) && Seats(d, vnfs[j])
    {
      if !Overlap(vnfs[k].permitted, d.tiers) {
        return false;
      }
      if !Seats(d, vnfs[k]) {
        return false;
      }
      k := k + 1;
    }
    ok := true;
  }

  method ScoreHosts(req: SliceSpec, domains: seq<DomainInfo>) returns (scored: seq<Scored>)
    ensures Hosts(req, domains, scored)
  {
    hide CanHost, TotalDemand;
    var total := TotalDemand(req.vnfs);
    scored := [];
    var i := 0;
    while i < |domains|
      invariant 0 <= i <= |domains| && Hosts(req, domains[..i], scored)
    {
      var d := domains[i];
      assert domains[..i + 1] == domains[..i] + [d];
      var seats := SeatsChain(d, req.vnfs);
      assert CanHost(d, req.vnfs) <==> seats && SlackOf(d, total) > 0.0 by { CanHostMeans(d, req.vnfs); }
      if seats && SlackOf(d, total) > 0.0 {
        scored := scored + [Scored(SlackOf(d, total), d.id)];
      }
      i := i + 1;
    }
    assert domains[..i] == domains;
  }

  lemma CanHostMeans(d: DomainInfo, vnfs: seq<VnfSpec>)
    ensures CanHost(d, vnfs) <==>
              (forall k :: 0 <= k < |vnfs| ==> Overlap(vnfs[k].permitted, d.tiers) && Seats(d, vnfs[k]))
              && SlackOf(d, TotalDemand(vnfs)) > 0.0
  {}

  /** The slack a host must have: with a band, that share of the best host's. */
  function Cut(best: real, band: real): Option<real> {
    if band > 0.0 then Some(PartOf(best, band)) else None
  }

  function PartOf(best: real, band: real): real {
    best * band
  }

  predicate MeetsCut(s: Scored, cut: Option<real>) {
    cut.Some? ==> s.slack >= cut.value
  }

  /** Only hosts that meet the cut are kept. */
  function InBand(sorted: seq<Scored>, cut: Option<real>): (r: seq<DomainName>)
    ensures forall n :: n in r <==> exists s :: s in sorted && s.domain == n && MeetsCut(s, cut)
  {
    if sorted == [] then []
    else
      var front, s := sorted[..|sorted| - 1], sorted[|sorted| - 1];
      assert sorted == front + [s];
      InBand(front, cut) + if MeetsCut(s, cut) then [s.domain] else []
  }

  /** The hosts of the whole chain, best first, cut off by the band. */
  ghost predicate HostList(req: SliceSpec, topo: AbstractTopology, band: real, le: NameOrder, hosts: seq<DomainName>) {
    if req.vnfs == [] then hosts == []
    else exists sorted: seq<Scored> :: HostsFrom(req, topo, band, le, sorted, hosts)
  }

  ghost predicate HostsFrom(req: SliceSpec, topo: AbstractTopology, band: real, le: NameOrder, sorted: seq<Scored>,
                            hosts: seq<DomainName>)
  {
    && Hosts(req, topo.domains, sorted) && InOrder(sorted, BetterBy(le))
    && hosts == if sorted == [] then [] else InBand(sorted, Cut(sorted[0].slack, band))
  }

  function BetterBy(le: NameOrder): (Scored, Scored) -> bool {
    (a, b) => Better(a, b, le)
  }

  lemma BetterIsTotal(le: NameOrder)
    requires TotalOrder(le)
    ensures TotalOrder(BetterBy(le))
  {}

  // What the host list means.

  ghost function CpuAsked(vnfs: seq<VnfSpec>): real {
    if vnfs == [] then 0.0 else CpuAsked(vnfs[..|vnfs| - 1]) + vnfs[|vnfs| - 1].demand.cpu
  }

  ghost function RamAsked(vnfs: seq<VnfSpec>): real {
    if vnfs == [] then 0.0 else RamAsked(vnfs[..|vnfs| - 1]) + vnfs[|vnfs| - 1].demand.ram
  }

  /** The largest free node of a permitted tier the domain has is big enough; a tier without a
      reported node has none free. */
  ghost predicate SeatsOn(d: DomainInfo, v: VnfSpec, t: TierName) {
    && t in v.permitted && t in d.tiers
    && if t in d.largestFree then d.largestFree[t].cpu >= v.demand.cpu && d.largestFree[t].ram >= v.demand.ram
       else 0.0 >= v.demand.cpu && 0.0 >= v.demand.ram
  }

  /** The domain seats every VNF on some node, and has CPU and RAM to spare after the whole chain. */
  ghost predicate TakesChain(d: DomainInfo, vnfs: seq<VnfSpec>) {
    && (forall k :: 0 <= k < |vnfs| ==> HasSeat(d, vnfs[k]))
    && d.residual.cpu > CpuAsked(vnfs) && d.residual.ram > RamAsked(vnfs)
  }

  ghost predicate HasSeat(d: DomainInfo, v: VnfSpec) {
    exists t :: SeatsOn(d, v, t)
  }

  /** What is left after the whole chain, of the scarcer resource. */
  ghost predicate IsSlack(d: DomainInfo, vnfs: seq<VnfSpec>, x: real) {
    var cpu, ram := d.residual.cpu - CpuAsked(vnfs), d.residual.ram - RamAsked(vnfs);
    x <= cpu && x <= ram && (x == cpu || x == ram)
  }

  ghost predicate Qualifies(d: DomainInfo, vnfs: seq<VnfSpec>, s: Scored) {
    d.id == s.domain && TakesChain(d, vnfs) && IsSlack(d, vnfs, s.slack)
  }

  /** All qualifying domains by falling slack and then by name; with a band, those below that
      share of the best slack are cut off the end. */
  ghost predicate BestHosts(req: SliceSpec, topo: AbstractTopology, band: real, le: NameOrder, hosts: seq<DomainName>) {
    exists ranked: seq<Scored> :: RankedHosts(req, topo, le, ranked) && CutOff(ranked, band, hosts)
  }

  ghost predicate RankedHosts(req: SliceSpec, topo: AbstractTopology, le: NameOrder, ranked: seq<Scored>) {
    && (forall s :: s in ranked <==> req.vnfs != [] && exists d :: d in topo.domains && Qualifies(d, req.vnfs, s))
    && forall i, j :: 0 <= i < j < |ranked| ==>
         || ranked[i].slack > ranked[j].slack
         || (ranked[i].slack == ranked[j].slack && le(ranked[i].domain, ranked[j].domain))
  }

  ghost predicate CutOff(ranked: seq<Scored>, band: real, hosts: seq<DomainName>) {
    && |hosts| <= |ranked|
    && (forall i :: 0 <= i < |hosts| ==>
          hosts[i] == ranked[i].domain && (band > 0.0 ==> ranked[i].slack >= PartOf(ranked[0].slack, band)))
    && forall i :: |hosts| <= i < |ranked| ==> band > 0.0 && ranked[i].slack < PartOf(ranked[0].slack, band)
  }

  lemma {:induction false} TotalMeans(vnfs: seq<VnfSpec>)
    ensures TotalDemand(vnfs) == Amount(CpuAsked(vnfs), RamAsked(vnfs))
  {
    if vnfs != [] {
      TotalMeans(vnfs[..|vnfs| - 1]);
    }
  }

  lemma CanHostIsTakesChain(d: DomainInfo, vnfs: seq<VnfSpec>)
    ensures CanHost(d, vnfs) <==> TakesChain(d, vnfs)
  {
    TotalMeans(vnfs);
    CanHostMeans(d, vnfs);
    assert SlackOf(d, TotalDemand(vnfs)) > 0.0 <==> d.residual.cpu > CpuAsked(vnfs) && d.residual.ram > RamAsked(vnfs);
    forall v: VnfSpec ensures Overlap(v.permitted, d.tiers) && Seats(d, v) <==> HasSeat(d, v) {
      SeatsMeans(d, v);
    }
    hide CanHost, TotalDemand, CpuAsked, RamAsked, Seats, Overlap, HasSeat;
  }

  lemma SeatsMeans(d: DomainInfo, v: VnfSpec)
    ensures Overlap(v.permitted, d.tiers) && Seats(d, v) <==> HasSeat(d, v)
  {
    assert forall t :: SeatsOn(d, v, t)
                  <==> t in v.permitted && t in d.tiers && FreeNode(d, t).Covers(v.demand);
  }

  lemma SlackMeans(d: DomainInfo, vnfs: seq<VnfSpec>, x: real)
    ensures x == SlackOf(d, TotalDemand(vnfs)) <==> IsSlack(d, vnfs, x)
  {
    TotalMeans(vnfs);
  }

  /** Because the hosts are sorted by slack, the cut keeps a front part. */
  lemma {:induction false} InBandIsFront(sorted: seq<Scored>, cut: Option<real>) returns (n: nat)
    requires forall i, j :: 0 <= i < j < |sorted| ==> sorted[i].slack >= sorted[j].slack
    ensures n == |InBand(sorted, cut)| <= |sorted|
    ensures forall i :: 0 <= i < n ==> InBand(sorted, cut)[i] == sorted[i].domain && MeetsCut(sorted[i], cut)
    ensures forall i :: n <= i < |sorted| ==> !MeetsCut(sorted[i], cut)
  {
    n := 0;
    if sorted != [] {
      var front, s := sorted[..|sorted| - 1], sorted[|sorted| - 1];
      n := InBandIsFront(front, cut);
      assert InBand(sorted, cut) == InBand(front, cut) + if MeetsCut(s, cut) then [s.domain] else [];
      hide InBand;
      if MeetsCut(s, cut) {
        forall i | 0 <= i < |front| ensures MeetsCut(front[i], cut) {
          assert sorted[i].slack >= s.slack;
        }
        n := n + 1;
      }
    }
  }

  lemma CutMeans(ranked: seq<Scored>, band: real, hosts: seq<DomainName>, n: nat)
    requires ranked != [] && |hosts| == n <= |ranked|
    requires forall i :: 0 <= i < n ==>
               hosts[i] == ranked[i].domain && MeetsCut(ranked[i], Cut(ranked[0].slack, band))
    requires forall i :: n <= i < |ranked| ==> !MeetsCut(ranked[i], Cut(ranked[0].slack, band))
    ensures CutOff(ranked, band, hosts)
  {
    var cut := Cut(ranked[0].slack, band);
    CutIsPart(ranked[0].slack, band);
    forall i | 0 <= i < |hosts|
      ensures hosts[i] == ranked[i].domain && (band > 0.0 ==> ranked[i].slack >= PartOf(ranked[0].slack, band))
    {
      assert MeetsCut(ranked[i], cut);
    }
    forall i | |hosts| <= i < |ranked| ensures band > 0.0 && ranked[i].slack < PartOf(ranked[0].slack, band) {
      assert !MeetsCut(ranked[i], cut);
    }
  }

  lemma CutIsPart(best: real, band: real)
    ensures Cut(best, band) == if band > 0.0 then Some(PartOf(best, band)) else None
  {}

  lemma PartMeans(best: real, band: real)
    ensures PartOf(best, band) == best * band
    ensures Cut(best, band).Some? <==> band > 0.0
  {}

  lemma HostListIsBest(req: SliceSpec, topo: AbstractTopology, band: real, le: NameOrder, hosts: seq<DomainName>)
    requires HostList(req, topo, band, le, hosts)
    ensures BestHosts(req, topo, band, le, hosts)
  {
    hide CanHost, TakesChain, TotalDemand, InBand, IsSlack, SlackOf;
    if req.vnfs == [] {
      assert RankedHosts(req, topo, le, []) && CutOff([], band, hosts);
    } else {
      var sorted: seq<Scored> :| HostsFrom(req, topo, band, le, sorted, hosts);
      forall d, s: Scored
        ensures CanHost(d, req.vnfs) && s == Scored(SlackOf(d, TotalDemand(req.vnfs)), d.id)
           <==> Qualifies(d, req.vnfs, s)
      {
        CanHostIsTakesChain(d, req.vnfs);
        SlackMeans(d, req.vnfs, s.slack);
      }
      assert forall i, j :: 0 <= i < j < |sorted| ==> BetterBy(le)(sorted[i], sorted[j]);
      if sorted != [] {
        var n := InBandIsFront(sorted, Cut(sorted[0].slack, band));
        CutMeans(sorted, band, hosts, n);
      }
      assert RankedHosts(req, topo, le, sorted) && CutOff(sorted, band, hosts);
    }
  }

  method WholeChainHosts(req: SliceSpec, topo: AbstractTopology, band: real, le: NameOrder)
    returns (hosts: seq<DomainName>)
    requires TotalOrder(le)
    ensures HostList(req, topo, band, le, hosts) && BestHosts(req, topo, band, le, hosts)
  {
    hide CanHost, BetterBy, InBand, BestHosts;
    if req.vnfs == [] {
      HostListIsBest(req, topo, band, le, []);
      return [];
    }
    var scored := ScoreHosts(req, topo.domains);
    BetterIsTotal(le);
    SortInOrder(scored, BetterBy(le));
    var sorted := Sort(scored, BetterBy(le));
    hosts := if sorted == [] then [] else InBand(sorted, Cut(sorted[0].slack, band));
    assert HostsFrom(req, topo, band, le, sorted, hosts);
    HostListIsBest(req, topo, band, le, hosts);
  }

  /** Every listed name is a domain that can host the chain. */
  lemma ListedCanHost(req: SliceSpec, topo: AbstractTopology, band: real, le: NameOrder, hosts: seq<DomainName>,
                      h: DomainName)
    requires HostList(req, topo, band, le, hosts) && h in hosts
    ensures req.vnfs != [] && exists d :: d in topo.domains && d.id == h && CanHost(d, req.vnfs)
  {
    hide CanHost, BetterBy, InBand, TotalDemand;
    var sorted: seq<Scored> :| HostsFrom(req, topo, band, le, sorted, hosts);
    var s :| s in sorted && s.domain == h;
    var d :| d in topo.domains && CanHost(d, req.vnfs) && s == Scored(SlackOf(d, TotalDemand(req.vnfs)), d.id);
  }

  /** The list is empty exactly when the chain is, when the band is above one (not even the best
      host is that much better than itself), or when no single domain can take the chain. */
  lemma EmptyIffNoHost(req: SliceSpec, topo: AbstractTopology, band: real, le: NameOrder, hosts: seq<DomainName>)
    requires HostList(req, topo, band, le, hosts)
    ensures hosts == []
       <==> req.vnfs == [] || band > 1.0 || forall d :: d in topo.domains ==> !TakesChain(d, req.vnfs)
  {
    forall d ensures CanHost(d, req.vnfs) <==> TakesChain(d, req.vnfs) {
      CanHostIsTakesChain(d, req.vnfs);
    }
    hide CanHost, TakesChain, BetterBy, InBand;
    if req.vnfs != [] {
      var sorted: seq<Scored> :| HostsFrom(req, topo, band, le, sorted, hosts);
      if sorted != [] {
        assert sorted[0] in sorted;
        var d :| d in topo.domains && CanHost(d, req.vnfs) && sorted[0]
            == Scored(SlackOf(d, TotalDemand(req.vnfs)), d.id);
        CanHostMeans(d, req.vnfs);
        BestFirst(le, sorted);
        BandOfBest(sorted, band);
      } else {
        forall d | d in topo.domains ensures !CanHost(d, req.vnfs) {
          assert Scored(SlackOf(d, TotalDemand(req.vnfs)), d.id) !in sorted;
        }
      }
    }
  }

  lemma BestFirst(le: NameOrder, sorted: seq<Scored>)
    requires InOrder(sorted, BetterBy(le)) && sorted != []
    ensures forall s :: s in sorted ==> s.slack <= sorted[0].slack
  {
    forall s | s in sorted ensures s.slack <= sorted[0].slack {
      var j :| 0 <= j < |sorted| && sorted[j] == s;
      assert j > 0 ==> BetterBy(le)(sorted[0], sorted[j]);
    }
  }

  /** The band keeps the best host when it is at most one, and keeps nobody when it is larger. */
  lemma BandOfBest(sorted: seq<Scored>, band: real)
    requires sorted != [] && sorted[0].slack > 0.0 && forall s :: s in sorted ==> s.slack <= sorted[0].slack
    ensures InBand(sorted, Cut(sorted[0].slack, band)) == [] <==> band > 1.0
  {
    var cut := Cut(sorted[0].slack, band);
    CutOfBest(sorted[0].slack, band);
    hide Cut;
    assert sorted[0] in sorted;
    if band <= 1.0 {
      assert sorted[0].domain in InBand(sorted, cut);
    } else {
      forall n ensures n !in InBand(sorted, cut) {
        assert forall s :: s in sorted ==> !MeetsCut(s, cut);
      }
    }
  }

  lemma CutOfBest(best: real, band: real)
    requires best > 0.0
    ensures band <= 1.0 ==> Cut(best, band).None? || Cut(best, band).value <= best
    ensures band > 1.0 ==> Cut(best, band).Some? && Cut(best, band).value > best
  {
    PartMeans(best, band);
    BandScales(best, band);
  }

  lemma BandScales(best: real, band: real)
    requires best > 0.0
    ensures best * band <= best <==> band <= 1.0
  {
    if band > 1.0 {
      assert best * (band - 1.0) > 0.0;
    } else {
      assert best * (1.0 - band) >= 0.0;
    }
  }

  // The pinned grammar.

  /** What decoding may emit: one host for everything, or one row per VNF, in request order. */
  datatype Schema = HostOnly(hosts: seq<DomainName>) | PerVnf(rows: seq<Row>)

  datatype Row = Row(vnf: VnfName, domains: seq<DomainName>)

  ghost predicate AllFeasible(req: SliceSpec, topo: AbstractTopology) {
    forall k :: 0 <= k < |req.vnfs| ==> TierFeasibleDomains(req.vnfs[k], topo.domains) != []
  }

  function RowFor(v: VnfSpec, topo: AbstractTopology, hosts: seq<DomainName>): Row {
    Row(v.id, if hosts != [] then hosts else TierFeasibleDomains(v, topo.domains))
  }

  /** What the grammar builder returns. */
  ghost predicate Pinned(req: SliceSpec, topo: AbstractTopology, cfg: Settings, le: NameOrder, r: Option<Schema>) {
    exists hosts :: PinnedBy(req, topo, cfg, le, hosts, r)
  }

  ghost predicate PinnedBy(req: SliceSpec, topo: AbstractTopology, cfg: Settings, le: NameOrder,
                           hosts: seq<DomainName>, r: Option<Schema>)
  {
    && (if cfg.capacityMask || cfg.colocationContract then HostList(req, topo, cfg.hostSlackBand, le, hosts)
        else hosts == [])
    && if cfg.colocationContract && hosts != [] then r == Some(HostOnly(hosts))
       else if !AllFeasible(req, topo) then r == None
       else r.Some? && r.value.PerVnf? && |r.value.rows| == |req.vnfs|
            && forall k :: 0 <= k < |req.vnfs| ==> r.value.rows[k] == RowFor(req.vnfs[k], topo, hosts)
  }

  // What the grammar means.

  ghost predicate SharesTier(v: VnfSpec, d: DomainInfo) {
    exists t :: t in v.permitted && t in d.tiers
  }

  /** No listed domain has a tier the VNF may use. */
  ghost predicate Homeless(v: VnfSpec, topo: AbstractTopology) {
    forall i :: 0 <= i < |topo.domains| ==> !SharesTier(v, topo.domains[i])
  }

  /** The row names the VNF, and the hosts or else exactly the domains that share a tier with it. */
  ghost predicate RowOffers(v: VnfSpec, topo: AbstractTopology, hosts: seq<DomainName>, row: Row) {
    && row.vnf == v.id
    && if hosts != [] then row.domains == hosts
       else forall n :: n in row.domains <==>
              exists i :: 0 <= i < |topo.domains| && topo.domains[i].id == n && SharesTier(v, topo.domains[i])
  }

  /** Under the contract the hosts alone, when there are any; otherwise nothing when some VNF is
      homeless, and one row per VNF when none is. */
  ghost predicate Grammar(req: SliceSpec, topo: AbstractTopology, cfg: Settings, le: NameOrder,
                          hosts: seq<DomainName>, r: Option<Schema>)
  {
    && (if cfg.capacityMask || cfg.colocationContract then BestHosts(req, topo, cfg.hostSlackBand, le, hosts)
        else hosts == [])
    && if cfg.colocationContract && hosts != [] then r == Some(HostOnly(hosts))
       else if exists k :: 0 <= k < |req.vnfs| && Homeless(req.vnfs[k], topo) then r == None
       else r.Some? && r.value.PerVnf? && |r.value.rows| == |req.vnfs|
            && forall k :: 0 <= k < |req.vnfs| ==> RowOffers(req.vnfs[k], topo, hosts, r.value.rows[k])
  }

  lemma RowMeans(v: VnfSpec, topo: AbstractTopology, hosts: seq<DomainName>)
    ensures RowOffers(v, topo, hosts, RowFor(v, topo, hosts))
    ensures TierFeasibleDomains(v, topo.domains) == [] <==> Homeless(v, topo)
  {
    var names := TierFeasibleDomains(v, topo.domains);
    forall n
      ensures n in names
         <==> exists i :: 0 <= i < |topo.domains| && topo.domains[i].id == n && SharesTier(v, topo.domains[i])
    {
      if n in names {
        var d :| d in topo.domains && d.id == n && Overlap(v.permitted, d.tiers);
        assert SharesTier(v, d);
      }
      forall i | 0 <= i < |topo.domains| && topo.domains[i].id == n && SharesTier(v, topo.domains[i])
        ensures n in names
      {
        assert topo.domains[i] in topo.domains && Overlap(v.permitted, topo.domains[i].tiers);
      }
    }
    if names != [] {
      assert names[0] in names;
    }
    forall i | 0 <= i < |topo.domains| && SharesTier(v, topo.domains[i]) ensures names != [] {
      assert topo.domains[i].id in names;
    }
  }

  lemma GrammarMeans(req: SliceSpec, topo: AbstractTopology, cfg: Settings, le: NameOrder, hosts: seq<DomainName>,
                     r: Option<Schema>)
    requires PinnedBy(req, topo, cfg, le, hosts, r)
    ensures Grammar(req, topo, cfg, le, hosts, r)
  {
    hide HostList, BestHosts, RowFor, RowOffers, Homeless, TierFeasibleDomains;
    if cfg.capacityMask || cfg.colocationContract {
      HostListIsBest(req, topo, cfg.hostSlackBand, le, hosts);
    }
    forall k | 0 <= k < |req.vnfs|
      ensures RowOffers(req.vnfs[k], topo, hosts, RowFor(req.vnfs[k], topo, hosts))
      ensures TierFeasibleDomains(req.vnfs[k], topo.domains) == [] <==> Homeless(req.vnfs[k], topo)
    {
      RowMeans(req.vnfs[k], topo, hosts);
    }
  }

  lemma NotAllFeasible(req: SliceSpec, topo: AbstractTopology, k: nat)
    requires k < |req.vnfs| && TierFeasibleDomains(req.vnfs[k], topo.domains) == []
    ensures !AllFeasible(req, topo)
  {}

  lemma EveryRowFeasible(req: SliceSpec, topo: AbstractTopology)
    requires forall j :: 0 <= j < |req.vnfs| ==> TierFeasibleDomains(req.vnfs[j], topo.domains) != []
    ensures AllFeasible(req, topo)
  {}

  method BuildPinnedPlanSchema(req: SliceSpec, topo: AbstractTopology, cfg: Settings, le: NameOrder)
    returns (r: Option<Schema>)
    requires TotalOrder(le)
    ensures Pinned(req, topo, cfg, le, r)
    ensures exists hosts :: Grammar(req, topo, cfg, le, hosts, r)
  {
    hide HostList, TierFeasibleDomains, Grammar, BestHosts, RowFor, AllFeasible;
    var hosts: seq<DomainName> := [];
    if cfg.capacityMask || cfg.colocationContract {
      hosts := WholeChainHosts(req, topo, cfg.hostSlackBand, le);
    }
    if cfg.colocationContract && hosts != [] {
      r := Some(HostOnly(hosts));
      assert PinnedBy(req, topo, cfg, le, hosts, r);
      GrammarMeans(req, topo, cfg, le, hosts, r);
      return;
    }
    var rows: seq<Row> := [];
    var k := 0;
    while k < |req.vnfs|
      invariant 0 <= k <= |req.vnfs| && |rows| == k
      invariant forall j :: 0 <= j < k ==> TierFeasibleDomains(req.vnfs[j], topo.domains) != []
      invariant forall j :: 0 <= j < k ==> rows[j] == RowFor(req.vnfs[j], topo, hosts)
    {
      if TierFeasibleDomains(req.vnfs[k], topo.domains) == [] {
        NotAllFeasible(req, topo, k);
        assert PinnedBy(req, topo, cfg, le, hosts, None);
        GrammarMeans(req, topo, cfg, le, hosts, None);
        return None;
      }
      rows := rows + [RowFor(req.vnfs[k], topo, hosts)];
      k := k + 1;
    }
    r := Some(PerVnf(rows));
    EveryRowFeasible(req, topo);
    assert PinnedBy(req, topo, cfg, le, hosts, r);
    GrammarMeans(req, topo, cfg, le, hosts, r);
  }

  // The plan as parsed, and its fix-ups in place.

  /** An assignment of which only the name and the domain are given. */
  function Bare(vnf: VnfName, d: DomainName): Assignment {
    Assignment(vnf, Some(d), None, None, None)
  }

  /** The parsed output conforms to the grammar. */
  ghost predicate InLanguage(schema: Schema, host: Option<DomainName>, assignments: seq<Assignment>,
                             flows: Option<seq<FlowRequirement>>)
  {
    && flows == None
    && match schema
       case HostOnly(hosts) => host.Some? && host.value in hosts && assignments == []
       case PerVnf(rows) =>
         && host == None && |assignments| == |rows|
         && forall i :: 0 <= i < |rows| ==> FollowsRow(rows[i], assignments[i])
  }

  ghost predicate FollowsRow(row: Row, a: Assignment) {
    exists d :: d in row.domains && a == Bare(row.vnf, d)
  }

  function DemandOf(req: SliceSpec, vnf: VnfName): Amount {
    var v := SpecNamed(req.vnfs, vnf);
    if v.Some? then v.value.demand else ZERO
  }

  /** Fill what the model does not emit; never overwrite. */
  function FilledIn(a: Assignment, req: SliceSpec): Assignment {
    a.(cpu := if a.cpu.Some? then a.cpu else Some(DemandOf(req, a.vnf).cpu),
       ram := if a.ram.Some? then a.ram else Some(DemandOf(req, a.vnf).ram),
       tier := if a.tier.Some? then a.tier else Some(Name("")))
  }

  function CommonTiers(permitted: seq<TierName>, tiers: seq<TierName>): (r: seq<TierName>)
    ensures forall t :: t in r <==> t in permitted && t in tiers
  {
    if permitted == [] then []
    else
      var front, t := permitted[..|permitted| - 1], permitted[|permitted| - 1];
      assert permitted == front + [t];
      CommonTiers(front, tiers) + if t in tiers then [t] else []
  }

  /** The required tier is the first common tier of the VNF and its domain, if any. */
  function Tiered(a: Assignment, req: SliceSpec, topo: AbstractTopology, le: NameOrder): Assignment {
    var v := SpecNamed(req.vnfs, a.vnf);
    if v.None? || !KnownDomain(topo, a) then a
    else
      var common := CommonTiers(v.value.permitted, DomainNamed(topo.domains, a.domain.value).value.tiers);
      if common == [] then a else a.(tier := Some(Sort(common, le)[0]))
  }

  /** The boundary flag follows from the assignments. */
  function Flagged(f: FlowRequirement, assignments: seq<Assignment>): FlowRequirement {
    var ends := Ends(assignments, f);
    if ends.Some? then f.(crosses := Some(ends.value.0 != ends.value.1)) else f
  }

  function FlowFrom(e: FlowEdge): FlowRequirement {
    FlowRequirement(Some(e.src), Some(e.dst), Some(e.bandwidth), Some(false))
  }

  // What the fix-ups mean.

  /** Given numbers and tiers stay; missing ones come from the request's entry of the VNF, zero
      without one, and a missing tier becomes the empty name. */
  ghost predicate Filled(req: SliceSpec, was: Assignment, now: Assignment) {
    && now.vnf == was.vnf && now.domain == was.domain
    && (was.tier.Some? ==> now.tier == was.tier) && (was.tier.None? ==> now.tier == Some(Name("")))
    && (was.cpu.Some? ==> now.cpu == was.cpu) && (was.ram.Some? ==> now.ram == was.ram)
    && (forall i :: LastSpec(req.vnfs, was.vnf, i) ==>
          && (was.cpu.None? ==> now.cpu == Some(req.vnfs[i].demand.cpu))
          && (was.ram.None? ==> now.ram == Some(req.vnfs[i].demand.ram)))
    && (!Asked(req, was.vnf) ==>
          && (was.cpu.None? ==> now.cpu == Some(0.0)) && (was.ram.None? ==> now.ram == Some(0.0)))
  }

  lemma FilledMeans(req: SliceSpec, a: Assignment)
    ensures Filled(req, a, FilledIn(a, req))
  {
    SpecNamedIsLast(req.vnfs, a.vnf);
    hide SpecNamed;
  }

  /** The flag says whether the two domains differ; without two domains it stays. */
  ghost predicate FlagSet(plan: seq<Assignment>, was: FlowRequirement, now: FlowRequirement) {
    && (forall a, b :: FlowJoins(plan, was, a, b) ==> now == was.(crosses := Some(a != b)))
    && ((forall a, b :: !FlowJoins(plan, was, a, b)) ==> now == was)
  }

  lemma FlaggedMeans(plan: seq<Assignment>, f: FlowRequirement)
    ensures FlagSet(plan, f, Flagged(f, plan))
  {
    hide Ends, FlowJoins;
    forall a, b ensures Ends(plan, f) == Some((a, b)) <==> FlowJoins(plan, f, a, b) {
      EndsMean(plan, f, a, b);
    }
    if Ends(plan, f).Some? {
      assert FlowJoins(plan, f, Ends(plan, f).value.0, Ends(plan, f).value.1);
    }
  }

  ghost predicate Common(v: VnfSpec, d: DomainInfo, t: TierName) {
    t in v.permitted && t in d.tiers
  }

  /** The tier becomes the first, by name, that the VNF may use and its domain has; with none, or
      for an unknown VNF or domain, it stays. */
  ghost predicate Retiered(req: SliceSpec, topo: AbstractTopology, le: NameOrder, was: Assignment, now: Assignment) {
    && now == was.(tier := now.tier)
    && (forall i, j :: LastSpec(req.vnfs, was.vnf, i) && was.domain.Some?
                       && LastDomain(topo.domains, was.domain.value, j) ==>
          TierChosen(req.vnfs[i], topo.domains[j], le, was.tier, now.tier))
    && (!Asked(req, was.vnf) || !SomeDomain(topo, was.domain) ==> now.tier == was.tier)
  }

  ghost predicate TierChosen(v: VnfSpec, d: DomainInfo, le: NameOrder, was: Option<TierName>, now: Option<TierName>) {
    if exists t :: Common(v, d, t) then
      now.Some? && Common(v, d, now.value) && forall t :: Common(v, d, t) && t != now.value ==> le(now.value, t)
    else now == was
  }

  lemma TieredMeans(req: SliceSpec, topo: AbstractTopology, le: NameOrder, a: Assignment)
    requires TotalOrder(le)
    ensures Retiered(req, topo, le, a, Tiered(a, req, topo, le))
  {
    SpecNamedIsLast(req.vnfs, a.vnf);
    if a.domain.Some? {
      DomainNamedIsLast(topo.domains, a.domain.value);
    }
    KnownMeans(topo, a);
    hide SpecNamed, DomainNamed, LastSpec, LastDomain, TierChosen;
    var v := SpecNamed(req.vnfs, a.vnf);
    if v.Some? && KnownDomain(topo, a) {
      FirstCommon(v.value, DomainNamed(topo.domains, a.domain.value).value, le, a.tier);
    }
  }

  lemma FirstCommon(v: VnfSpec, d: DomainInfo, le: NameOrder, was: Option<TierName>)
    requires TotalOrder(le)
    ensures var common := CommonTiers(v.permitted, d.tiers);
            TierChosen(v, d, le, was, if common == [] then was else Some(Sort(common, le)[0]))
  {
    var common := CommonTiers(v.permitted, d.tiers);
    assert forall t :: Common(v, d, t) <==> t in common;
    SortInOrder(common, le);
    var sorted := Sort(common, le);
    hide CommonTiers;
    if common != [] {
      assert common[0] in common && sorted[0] in sorted;
      forall t | t in common && t != sorted[0] ensures le(sorted[0], t) {
        assert t in sorted;
        var i :| 0 <= i < |sorted| && sorted[i] == t;
      }
    }
  }

  class PlanDict {
    var host: Option<DomainName>
    var assignments: seq<Assignment>
    var flows: Option<seq<FlowRequirement>>

    constructor (host: Option<DomainName>, assignments: seq<Assignment>, flows: Option<seq<FlowRequirement>>)
      ensures this.host == host && this.assignments == assignments && this.flows == flows
    {
      this.host, this.assignments, this.flows := host, assignments, flows;
    }

    method ExpandHostDomain(req: SliceSpec) returns (expanded: bool)
      modifies this
      ensures host == None && flows == old(flows) && expanded == old(host).Some?
      ensures !expanded ==> assignments == old(assignments)
      ensures expanded ==> |assignments| == |req.vnfs|
      ensures expanded ==> forall i :: 0 <= i < |req.vnfs| ==>
                  assignments[i] == Assignment(req.vnfs[i].id, old(host), None, None, None)
    {
      if host.None? {
        return false;
      }
      var d := host.value;
      host := None;
      assignments := seq(|req.vnfs|, i requires 0 <= i < |req.vnfs| => Bare(req.vnfs[i].id, d));
      expanded := true;
    }

    method FillDerivedFields(req: SliceSpec)
      modifies this
      ensures host == old(host) && |assignments| == |old(assignments)|
      ensures forall i :: 0 <= i < |assignments| ==> assignments[i] == FilledIn(old(assignments)[i], req)
      ensures forall i :: 0 <= i < |assignments| ==> Filled(req, old(assignments)[i], assignments[i])
      ensures flows.Some? && if old(flows).Some? && old(flows).value != [] then flows == old(flows)
                             else |flows.value| == |req.flows|
                                  && forall k :: 0 <= k < |req.flows| ==>
                                       flows.value[k] == FlowRequirement(Some(req.flows[k].src), Some(req.flows[k].dst),
                                                                         Some(req.flows[k].bandwidth), Some(false))
    {
      hide FilledIn, Filled;
      var i := 0;
      while i < |assignments|
        invariant 0 <= i <= |assignments| == |old(assignments)| && host == old(host) && flows == old(flows)
        invariant forall j :: 0 <= j < i ==> assignments[j] == FilledIn(old(assignments)[j], req)
        invariant forall j :: 0 <= j < i ==> Filled(req, old(assignments)[j], assignments[j])
        invariant forall j :: i <= j < |assignments| ==> assignments[j] == old(assignments)[j]
      {
        FilledMeans(req, assignments[i]);
        assignments := assignments[i := FilledIn(assignments[i], req)];
        i := i + 1;
      }
      if flows.Some? && flows.value != [] {
        return;
      }
      flows := Some(seq(|req.flows|, k requires 0 <= k < |req.flows| => FlowFrom(req.flows[k])));
    }

    method RecomputeFlowBoundaries()
      requires flows.Some?
      modifies this
      ensures host == old(host) && assignments == old(assignments) && flows.Some?
      ensures |flows.value| == |old(flows).value|
      ensures forall k :: 0 <= k < |flows.value| ==> flows.value[k] == Flagged(old(flows).value[k], assignments)
      ensures forall k :: 0 <= k < |flows.value| ==> FlagSet(assignments, old(flows).value[k], flows.value[k])
    {
      hide Ends, Flagged, FlagSet;
      var fs := flows.value;
      var k := 0;
      while k < |fs|
        invariant 0 <= k <= |fs| == |old(flows).value|
        invariant host == old(host) && assignments == old(assignments) && flows == old(flows)
        invariant forall j :: 0 <= j < k ==> fs[j] == Flagged(old(flows).value[j], assignments)
        invariant forall j :: 0 <= j < k ==> FlagSet(assignments, old(flows).value[j], fs[j])
        invariant forall j :: k <= j < |fs| ==> fs[j] == old(flows).value[j]
      {
        FlaggedMeans(assignments, fs[k]);
        fs := fs[k := Flagged(fs[k], assignments)];
        k := k + 1;
      }
      flows := Some(fs);
    }

    method RecomputeRequiredTiers(req: SliceSpec, topo: AbstractTopology, le: NameOrder)
      requires TotalOrder(le)
      modifies this
      ensures host == old(host) && flows == old(flows) && |assignments| == |old(assignments)|
      ensures forall i :: 0 <= i < |assignments| ==> assignments[i] == Tiered(old(assignments)[i], req, topo, le)
      ensures forall i :: 0 <= i < |assignments| ==> Retiered(req, topo, le, old(assignments)[i], assignments[i])
    {
      hide SpecNamed, KnownDomain, DomainNamed, Tiered, Retiered;
      var i := 0;
      while i < |assignments|
        invariant 0 <= i <= |assignments| == |old(assignments)| && host == old(host) && flows == old(flows)
        invariant forall j :: 0 <= j < i ==> assignments[j] == Tiered(old(assignments)[j], req, topo, le)
        invariant forall j :: 0 <= j < i ==> Retiered(req, topo, le, old(assignments)[j], assignments[j])
        invariant forall j :: i <= j < |assignments| ==> assignments[j] == old(assignments)[j]
      {
        TieredMeans(req, topo, le, assignments[i]);
        assignments := assignments[i := Tiered(assignments[i], req, topo, le)];
        i := i + 1;
      }
    }
  }

  // What the checker can still find.

  /** Distinct VNFs and distinct domains. */
  ghost predicate DistinctNames(req: SliceSpec, topo: AbstractTopology) {
    && (forall i, j :: 0 <= i < j < |req.vnfs| ==> req.vnfs[i].id != req.vnfs[j].id)
    && forall i, j :: 0 <= i < j < |topo.domains| ==> topo.domains[i].id != topo.domains[j].id
  }

  lemma {:induction false} SpecOfItself(vnfs: seq<VnfSpec>, i: nat)
    requires i < |vnfs| && forall a, b :: 0 <= a < b < |vnfs| ==> vnfs[a].id != vnfs[b].id
    ensures SpecNamed(vnfs, vnfs[i].id) == Some(vnfs[i])
  {
    if i < |vnfs| - 1 {
      SpecOfItself(vnfs[..|vnfs| - 1], i);
    }
  }

  lemma {:induction false} DomainOfItself(domains: seq<DomainInfo>, d: DomainInfo)
    requires d in domains && forall a, b :: 0 <= a < b < |domains| ==> domains[a].id != domains[b].id
    ensures DomainNamed(domains, d.id) == Some(d)
  {
    var n := |domains| - 1;
    if domains[n] != d {
      assert d in domains[..n];
      DomainOfItself(domains[..n], d);
    }
  }

  /** A domain name the grammar offers for a VNF belongs to a domain with a common tier. */
  ghost predicate Offers(topo: AbstractTopology, v: VnfSpec, n: DomainName) {
    exists d :: d in topo.domains && d.id == n && Overlap(v.permitted, d.tiers)
  }

  lemma RowsOffer(req: SliceSpec, topo: AbstractTopology, cfg: Settings, le: NameOrder, schema: Schema, k: nat,
                  n: DomainName)
    requires Pinned(req, topo, cfg, le, Some(schema)) && k < |req.vnfs|
    requires match schema case HostOnly(hosts) => n in hosts case PerVnf(rows) => k < |rows| && n in rows[k].domains
    ensures Offers(topo, req.vnfs[k], n)
  {
    hide TierFeasibleDomains, HostList, Overlap, CanHost;
    var hosts :| PinnedBy(req, topo, cfg, le, hosts, Some(schema));
    if hosts != [] {
      HostOffers(req, topo, cfg.hostSlackBand, le, hosts, k, n);
    }
  }

  lemma HostOffers(req: SliceSpec, topo: AbstractTopology, band: real, le: NameOrder, hosts: seq<DomainName>, k: nat,
                   n: DomainName)
    requires HostList(req, topo, band, le, hosts) && n in hosts && k < |req.vnfs|
    ensures Offers(topo, req.vnfs[k], n)
  {
    hide HostList, Overlap, Seats;
    ListedCanHost(req, topo, band, le, hosts, n);
    var d :| d in topo.domains && d.id == n && CanHost(d, req.vnfs);
  }

  /** Where a conforming plan stands after all fix-ups: one assignment per VNF, in order, to an
      offered domain, with the request's demands, the recomputed tier and honest flags. */
  ghost predicate FixedUp(req: SliceSpec, topo: AbstractTopology, le: NameOrder, plan: seq<Assignment>,
                          flows: seq<FlowRequirement>)
  {
    && |plan| == |req.vnfs|
    && (forall i :: 0 <= i < |plan| ==> FixedAssignment(req, topo, le, req.vnfs[i], plan[i]))
    && forall k :: 0 <= k < |flows| ==> FlagRight(plan, flows[k])
  }

  ghost predicate FixedAssignment(req: SliceSpec, topo: AbstractTopology, le: NameOrder, v: VnfSpec, a: Assignment) {
    exists n :: Offers(topo, v, n) && a == Tiered(FilledIn(Bare(v.id, n), req), req, topo, le)
  }

  /** Such an assignment names its VNF, a known domain, its demand, and a tier that fits. */
  lemma FixedAssignmentFits(req: SliceSpec, topo: AbstractTopology, le: NameOrder, i: nat, a: Assignment)
    requires DistinctNames(req, topo) && i < |req.vnfs| && FixedAssignment(req, topo, le, req.vnfs[i], a)
    ensures a.vnf == req.vnfs[i].id && KnownDomain(topo, a) && a.Demand() == req.vnfs[i].demand
    ensures TierFits(a, req, topo)
  {
    var v := req.vnfs[i];
    var n :| Offers(topo, v, n) && a == Tiered(FilledIn(Bare(v.id, n), req), req, topo, le);
    var d :| d in topo.domains && d.id == n && Overlap(v.permitted, d.tiers);
    SpecOfItself(req.vnfs, i);
    DomainOfItself(topo.domains, d);
    hide SpecNamed, DomainNamed;
    var common := CommonTiers(v.permitted, d.tiers);
    var t :| t in v.permitted && t in d.tiers;
    assert t in common;
    assert Sort(common, le)[0] in Sort(common, le);
  }

  /** No SCHEMA and no C8 finding is possible. */
  lemma FixedUpPasses(req: SliceSpec, topo: AbstractTopology, le: NameOrder, plan: seq<Assignment>,
                      flows: seq<FlowRequirement>)
    requires DistinctNames(req, topo) && FixedUp(req, topo, le, plan, flows)
    ensures SchemaHolds(plan, flows, req, topo) && TiersHold(plan, req, topo)
  {
    hide FlagRight, FixedAssignment, TierFits, KnownDomain;
    forall i | 0 <= i < |plan|
      ensures plan[i].vnf == req.vnfs[i].id && KnownDomain(topo, plan[i]) && TierFits(plan[i], req, topo)
    {
      FixedAssignmentFits(req, topo, le, i, plan[i]);
    }
    assert PlanIds(plan) == RequestIds(req);
  }

  /** Whether given as a host or row by row, a conforming plan assigns each VNF, in order, to an
      offered domain. */
  ghost predicate Authored(req: SliceSpec, topo: AbstractTopology, assignments: seq<Assignment>) {
    && |assignments| == |req.vnfs|
    && forall i :: 0 <= i < |assignments| ==> AuthoredAt(topo, req.vnfs[i], assignments[i])
  }

  ghost predicate AuthoredAt(topo: AbstractTopology, v: VnfSpec, a: Assignment) {
    exists n :: Offers(topo, v, n) && a == Bare(v.id, n)
  }

  /** Every assignment goes to this domain. */
  ghost predicate AllIn(assignments: seq<Assignment>, h: DomainName) {
    forall i :: 0 <= i < |assignments| ==> assignments[i].domain == Some(h)
  }

  ghost predicate Expanded(req: SliceSpec, host: Option<DomainName>, was: seq<Assignment>, now: seq<Assignment>) {
    if host.None? then now == was
    else |now| == |req.vnfs| && forall i :: 0 <= i < |now| ==> now[i] == Bare(req.vnfs[i].id, host.value)
  }

  lemma LanguageIsAuthored(req: SliceSpec, topo: AbstractTopology, cfg: Settings, le: NameOrder, schema: Schema,
                           host: Option<DomainName>, was: seq<Assignment>, now: seq<Assignment>)
    requires Pinned(req, topo, cfg, le, Some(schema)) && InLanguage(schema, host, was, None)
    requires Expanded(req, host, was, now)
    ensures Authored(req, topo, now)
    ensures schema.HostOnly? ==> host.Some? && AllIn(now, host.value) && host.value in schema.hosts
  {
    hide Offers, TierFeasibleDomains, HostList;
    var hosts :| PinnedBy(req, topo, cfg, le, hosts, Some(schema));
    forall i | 0 <= i < |req.vnfs| ensures i < |now| && AuthoredAt(topo, req.vnfs[i], now[i]) {
      match schema
      case HostOnly(hosts) =>
        RowsOffer(req, topo, cfg, le, schema, i, host.value);
      case PerVnf(rows) =>
        assert FollowsRow(rows[i], was[i]);
        var d :| d in rows[i].domains && was[i] == Bare(rows[i].vnf, d);
        RowsOffer(req, topo, cfg, le, schema, i, d);
    }
  }

  /** Two plans that agree on names and domains have the same flow ends. */
  lemma {:induction false} SameAssignedDomain(a: seq<Assignment>, b: seq<Assignment>, vnf: VnfName)
    requires |a| == |b| && forall i :: 0 <= i < |a| ==> a[i].vnf == b[i].vnf && a[i].domain == b[i].domain
    ensures AssignedDomain(a, vnf) == AssignedDomain(b, vnf)
  {
    if a != [] {
      SameAssignedDomain(a[..|a| - 1], b[..|b| - 1], vnf);
    }
  }

  ghost predicate SameShape(a: seq<Assignment>, b: seq<Assignment>) {
    |a| == |b| && forall i :: 0 <= i < |a| ==> a[i].vnf == b[i].vnf && a[i].domain == b[i].domain
  }

  lemma FlagStaysRight(a: seq<Assignment>, b: seq<Assignment>, f: FlowRequirement)
    requires SameShape(a, b)
    ensures FlagRight(b, Flagged(f, a))
  {
    hide AssignedDomain;
    if f.src.Some? {
      SameAssignedDomain(a, b, f.src.value);
    }
    if f.dst.Some? {
      SameAssignedDomain(a, b, f.dst.value);
    }
  }

  ghost predicate FilledAll(req: SliceSpec, was: seq<Assignment>, now: seq<Assignment>) {
    |now| == |was| && forall i :: 0 <= i < |now| ==> now[i] == FilledIn(was[i], req)
  }

  ghost predicate TieredAll(req: SliceSpec, topo: AbstractTopology, le: NameOrder, was: seq<Assignment>,
                            now: seq<Assignment>)
  {
    |now| == |was| && forall i :: 0 <= i < |now| ==> now[i] == Tiered(was[i], req, topo, le)
  }

  ghost predicate FlaggedAll(plan: seq<Assignment>, was: seq<FlowRequirement>, now: seq<FlowRequirement>) {
    |now| == |was| && forall k :: 0 <= k < |now| ==> now[k] == Flagged(was[k], plan)
  }

  lemma FixUpsReach(req: SliceSpec, topo: AbstractTopology, le: NameOrder, authored: seq<Assignment>,
                    filled: seq<Assignment>, plan: seq<Assignment>, was: seq<FlowRequirement>,
                    flows: seq<FlowRequirement>)
    requires Authored(req, topo, authored) && FilledAll(req, authored, filled)
    requires TieredAll(req, topo, le, filled, plan) && FlaggedAll(filled, was, flows)
    ensures FixedUp(req, topo, le, plan, flows) && SameShape(authored, plan)
  {
    hide Offers;
    forall i | 0 <= i < |plan| ensures FixedAssignment(req, topo, le, req.vnfs[i], plan[i]) {
      var v := req.vnfs[i];
      assert AuthoredAt(topo, v, authored[i]);
      var n :| Offers(topo, v, n) && authored[i] == Bare(v.id, n);
      assert plan[i] == Tiered(FilledIn(Bare(v.id, n), req), req, topo, le);
    }
    assert SameShape(filled, plan) && SameShape(authored, plan);
    forall k | 0 <= k < |flows| ensures FlagRight(plan, flows[k]) {
      FlagStaysRight(filled, plan, was[k]);
    }
  }

  // One host for the whole chain.

  lemma {:induction false} HostDemand(plan: seq<Assignment>, vnfs: seq<VnfSpec>, h: DomainName)
    requires |plan| == |vnfs| && AllIn(plan, h) && forall i :: 0 <= i < |plan| ==> plan[i].Demand() == vnfs[i].demand
    ensures DemandOn(plan, h) == TotalDemand(vnfs)
  {
    if plan != [] {
      HostDemand(plan[..|plan| - 1], vnfs[..|vnfs| - 1], h);
    }
  }

  lemma {:induction false} HostEnds(plan: seq<Assignment>, h: DomainName, vnf: VnfName)
    requires AllIn(plan, h)
    ensures AssignedDomain(plan, vnf).Some? ==> AssignedDomain(plan, vnf) == Some(h)
  {
    if plan != [] {
      HostEnds(plan[..|plan| - 1], h, vnf);
    }
  }

  lemma HostFlowStays(plan: seq<Assignment>, h: DomainName, f: FlowRequirement)
    requires AllIn(plan, h)
    ensures Ends(plan, f).Some? ==> Ends(plan, f) == Some((h, h))
  {
    hide AssignedDomain;
    if f.src.Some? {
      HostEnds(plan, h, f.src.value);
    }
    if f.dst.Some? {
      HostEnds(plan, h, f.dst.value);
    }
  }

  /** Nothing crosses, so nothing can be cut or overloaded. */
  lemma HostBandwidth(plan: seq<Assignment>, flows: seq<FlowRequirement>, topo: AbstractTopology, h: DomainName)
    requires AllIn(plan, h)
    ensures BandwidthHolds(plan, flows, topo)
  {
    hide Ends;
    forall k | 0 <= k < |flows| ensures Ends(plan, flows[k]).Some? ==> Ends(plan, flows[k]) == Some((h, h)) {
      HostFlowStays(plan, h, flows[k]);
    }
  }

  lemma HostResources(req: SliceSpec, topo: AbstractTopology, le: NameOrder, plan: seq<Assignment>,
                      flows: seq<FlowRequirement>, h: DomainName)
    requires DistinctNames(req, topo) && FixedUp(req, topo, le, plan, flows) && AllIn(plan, h)
    requires exists d :: d in topo.domains && d.id == h && CanHost(d, req.vnfs)
    ensures ResourcesHold(plan, topo)
  {
    hide FixedAssignment, DemandOn, TotalDemand;
    forall i | 0 <= i < |plan| ensures plan[i].Demand() == req.vnfs[i].demand {
      FixedAssignmentFits(req, topo, le, i, plan[i]);
    }
    HostDemand(plan, req.vnfs, h);
    var d :| d in topo.domains && d.id == h && CanHost(d, req.vnfs);
    CanHostMeans(d, req.vnfs);
    DomainOfItself(topo.domains, d);
  }

  /** Everything a conforming plan is guaranteed, end to end. */
  lemma ConformingPlanPasses(req: SliceSpec, topo: AbstractTopology, cfg: Settings, le: NameOrder, schema: Schema,
                             host: Option<DomainName>, raw: seq<Assignment>, expanded: seq<Assignment>,
                             filled: seq<Assignment>, plan: seq<Assignment>, was: seq<FlowRequirement>,
                             flows: seq<FlowRequirement>)
    requires DistinctNames(req, topo) && Pinned(req, topo, cfg, le, Some(schema)) && InLanguage(schema, host, raw, None)
    requires Expanded(req, host, raw, expanded) && FilledAll(req, expanded, filled)
    requires TieredAll(req, topo, le, filled, plan) && FlaggedAll(filled, was, flows)
    ensures SchemaRule(plan, flows, req, topo) && TierRule(plan, req, topo)
    ensures schema.HostOnly? ==> ResourceRule(plan, topo) && BandwidthRule(plan, flows, topo)
  {
    SchemaMeans(plan, flows, req, topo);
    TiersMean(plan, req, topo);
    ResourcesMean(plan, topo);
    BandwidthMeans(plan, flows, topo);
    hide SchemaRule, TierRule, ResourceRule, BandwidthRule;
    hide Authored, FilledAll, TieredAll, FlaggedAll, FixedUp, HostList, CanHost, SchemaHolds, TiersHold, ResourcesHold,
         BandwidthHolds, DistinctNames, InLanguage, Expanded, Pinned;
    LanguageIsAuthored(req, topo, cfg, le, schema, host, raw, expanded);
    FixUpsReach(req, topo, le, expanded, filled, plan, was, flows);
    FixedUpPasses(req, topo, le, plan, flows);
    if schema.HostOnly? {
      var h := host.value;
      HostOfSchema(req, topo, cfg, le, schema, h);
      HostResources(req, topo, le, plan, flows, h);
      HostBandwidth(plan, flows, topo, h);
    }
  }

  lemma HostOfSchema(req: SliceSpec, topo: AbstractTopology, cfg: Settings, le: NameOrder, schema: Schema,
                     h: DomainName)
    requires Pinned(req, topo, cfg, le, Some(schema)) && schema.HostOnly? && h in schema.hosts
    ensures exists d :: d in topo.domains && d.id == h && CanHost(d, req.vnfs)
  {
    hide HostList, CanHost, TierFeasibleDomains;
    var hosts :| PinnedBy(req, topo, cfg, le, hosts, Some(schema));
    ListedCanHost(req, topo, cfg.hostSlackBand, le, hosts, h);
  }

  /** Parse result in, verdict out: expand, fill, recompute flags and tiers in place, check. What
      the pinned grammar can express never fails SCHEMA or C8; a host plan never fails at all. */
  method DecodeAndCheck(plan: PlanDict, req: SliceSpec, topo: AbstractTopology, le: NameOrder,
                        ghost cfg: Settings, ghost schema: Schema) returns (vs: seq<Violation>)
    requires TotalOrder(le)
    modifies plan
    ensures plan.flows.Some? && plan.host == None
    ensures vs == [] <==>
              && SchemaRule(plan.assignments, plan.flows.value, req, topo)
              && TierRule(plan.assignments, req, topo)
              && ResourceRule(plan.assignments, topo)
              && BandwidthRule(plan.assignments, plan.flows.value, topo)
    ensures DistinctNames(req, topo) && Pinned(req, topo, cfg, le, Some(schema))
            && InLanguage(schema, old(plan.host), old(plan.assignments), old(plan.flows)) ==>
              !Mentions(vs, SCHEMA) && !Mentions(vs, C8) && (schema.HostOnly? ==> vs == [])
  {
    hide SchemaRule, TierRule, ResourceRule, BandwidthRule, Mentions, Pinned, DistinctNames, Flagged, Tiered,
         FilledIn, Filled, FlagSet, Retiered;
    ghost var host, raw, rawFlows := plan.host, plan.assignments, plan.flows;
    var isHost := plan.ExpandHostDomain(req);
    ghost var expanded := plan.assignments;
    plan.FillDerivedFields(req);
    ghost var filled, was := plan.assignments, plan.flows.value;
    plan.RecomputeFlowBoundaries();
    plan.RecomputeRequiredTiers(req, topo, le);
    vs := CheckPlan(plan.assignments, plan.flows.value, req, topo);
    assert Expanded(req, host, raw, expanded) && FilledAll(req, expanded, filled);
    assert TieredAll(req, topo, le, filled, plan.assignments) && FlaggedAll(filled, was, plan.flows.value);
    if DistinctNames(req, topo) && Pinned(req, topo, cfg, le, Some(schema)) && InLanguage(schema, host, raw, rawFlows) {
      ConformingPlanPasses(req, topo, cfg, le, schema, host, raw, expanded, filled, plan.assignments, was,
                           plan.flows.value);
    }
  }
}
