/** The delay the coordinator adds up from the responses is the delay of the chain: processing
    at every host plus propagation on every reserved route. */
module DelayAccounting {
  import opened Types
  import opened Routing
  import opened Actors
  import opened Fragments
  import opened Dispatch

  /** Sum of the delays the actors reported. */
  function IntraDelay(rs: seq<Response>): real {
    if rs == [] then 0.0 else IntraDelay(rs[..|rs| - 1]) + rs[|rs| - 1].intraDelay
  }

  /** Processing delay of the chain positions assigned to some of the domains. */
  function Share(topo: Topology, vnfs: seq<Vnf>, partition: seq<DomainId>, at: map<VnfId, NodeId>,
                 ds: set<DomainId>): real
    requires |vnfs| <= |partition|
  {
    if vnfs == [] then 0.0
    else
      var n := |vnfs| - 1;
      Share(topo, vnfs[..n], partition, at, ds) + if partition[n] in ds then ProcessingAt(topo, vnfs[n], at) else 0.0
  }

  lemma {:induction false} ShareAdds(topo: Topology, vnfs: seq<Vnf>, partition: seq<DomainId>, at: map<VnfId, NodeId>,
                                     ds: set<DomainId>, d: DomainId)
    requires |vnfs| <= |partition| && d !in ds
    ensures Share(topo, vnfs, partition, at, ds + {d})
         == Share(topo, vnfs, partition, at, ds) + ProcessingDelay(topo, VnfsOf(vnfs, partition, d), at)
  {
    hide ProcessingAt;
    if vnfs != [] {
      var n := |vnfs| - 1;
      ShareAdds(topo, vnfs[..n], partition, at, ds, d);
      var front := VnfsOf(vnfs[..n], partition, d);
      if partition[n] == d {
        assert VnfsOf(vnfs, partition, d)[..|front|] == front;
      } else {
        assert VnfsOf(vnfs, partition, d) == front;
      }
    }
  }

  lemma {:induction false} ShareOfNone(topo: Topology, vnfs: seq<Vnf>, partition: seq<DomainId>, at: map<VnfId, NodeId>)
    requires |vnfs| <= |partition|
    ensures Share(topo, vnfs, partition, at, {}) == 0.0
  {
    if vnfs != [] {
      ShareOfNone(topo, vnfs[..|vnfs| - 1], partition, at);
    }
  }

  lemma {:induction false} ShareOfAll(topo: Topology, vnfs: seq<Vnf>, partition: seq<DomainId>, at: map<VnfId, NodeId>,
                                      ds: set<DomainId>)
    requires |vnfs| <= |partition| && forall k :: 0 <= k < |vnfs| ==> partition[k] in ds
    ensures Share(topo, vnfs, partition, at, ds) == ProcessingDelay(topo, vnfs, at)
  {
    hide ProcessingAt;
    if vnfs != [] {
      ShareOfAll(topo, vnfs[..|vnfs| - 1], partition, at, ds);
    }
  }

  /** The merged dictionary processes one domain's VNFs as that domain's own response does. */
  lemma {:induction false} OwnProcessing(topo: Topology, req: Request, tiers: seq<Tier>, partition: seq<DomainId>,
                                         fragments: map<DomainId, Fragment>, rs: seq<Response>, i: nat)
    requires ChainDispatched(topo, req, tiers, partition, fragments, rs)
    requires (forall j :: 0 <= j < |rs| ==> rs[j].feasible) && i < |rs|
    ensures var mine := VnfsOf(req.vnfs, partition, rs[i].domain);
            ProcessingDelay(topo, mine, Merged(rs)) == ProcessingDelay(topo, mine, rs[i].placements)
  {
    var mine := VnfsOf(req.vnfs, partition, rs[i].domain);
    forall j | 0 <= j < |mine|
      ensures ProcessingAt(topo, mine[j], Merged(rs)) == ProcessingAt(topo, mine[j], rs[i].placements)
    {
      VnfsOfMembers(req.vnfs, partition, rs[i].domain);
      assert mine[j] in mine;
      var k :| 0 <= k < |req.vnfs| && partition[k] == rs[i].domain && req.vnfs[k] == mine[j];
      MergedAt(topo, req, tiers, partition, fragments, rs, i, k);
    }
    ProcessingAgrees(topo, mine, Merged(rs), rs[i].placements);
  }

  lemma ResponseDelay(topo: Topology, req: Request, tiers: seq<Tier>, partition: seq<DomainId>,
                      fragments: map<DomainId, Fragment>, rs: seq<Response>, i: nat)
    requires ChainDispatched(topo, req, tiers, partition, fragments, rs) && i < |rs| && rs[i].feasible
    ensures rs[i].intraDelay == ProcessingDelay(topo, VnfsOf(req.vnfs, partition, rs[i].domain), rs[i].placements)
                                + ReservedDelay(topo, rs[i].Reservations())
  {
    assert rs[i].domain in fragments && ResponseOk(topo, fragments[rs[i].domain], rs[i]);
  }

  /** The first n reported delays. */
  lemma {:induction false} PartialDelay(topo: Topology, req: Request, tiers: seq<Tier>, partition: seq<DomainId>,
                                        fragments: map<DomainId, Fragment>, rs: seq<Response>, n: nat)
    requires ChainDispatched(topo, req, tiers, partition, fragments, rs)
    requires (forall j :: 0 <= j < |rs| ==> rs[j].feasible) && n <= |rs|
    ensures IntraDelay(rs[..n]) == Share(topo, req.vnfs, partition, Merged(rs), AnsweredBy(rs[..n]))
                                   + ReservedDelay(topo, AllReservations(rs[..n]))
  {
    hide ProcessingDelay, ReservedDelay, Merged, ResponseOk;
    if n == 0 {
      assert rs[..0] == [] && AnsweredBy(rs[..0]) == {};
      ShareOfNone(topo, req.vnfs, partition, Merged(rs));
      NoReservedDelay(topo);
    } else {
      var front, r := rs[..n - 1], rs[n - 1];
      PartialDelay(topo, req, tiers, partition, fragments, rs, n - 1);
      assert rs[..n][..n - 1] == front && rs[..n] == front + [r];
      AnsweredNext(front, r);
      ShareAdds(topo, req.vnfs, partition, Merged(rs), AnsweredBy(front), r.domain);
      OwnProcessing(topo, req, tiers, partition, fragments, rs, n - 1);
      ResponseDelay(topo, req, tiers, partition, fragments, rs, n - 1);
      ReservedDelayAppend(topo, AllReservations(front), r.Reservations());
    }
  }

  lemma NoReservedDelay(topo: Topology)
    ensures ReservedDelay(topo, []) == 0.0
  {}

  lemma {:induction false} DelayAccounted(topo: Topology, req: Request, tiers: seq<Tier>, partition: seq<DomainId>,
                                          fragments: map<DomainId, Fragment>, rs: seq<Response>)
    requires ChainDispatched(topo, req, tiers, partition, fragments, rs)
    requires forall j :: 0 <= j < |rs| ==> rs[j].feasible
    ensures IntraDelay(rs) == ProcessingDelay(topo, req.vnfs, Merged(rs)) + ReservedDelay(topo, AllReservations(rs))
  {
    hide ProcessingDelay, ReservedDelay, Merged, OnePerDomain;
    PartialDelay(topo, req, tiers, partition, fragments, rs, |rs|);
    assert rs[..|rs|] == rs;
    ShareOfAll(topo, req.vnfs, partition, Merged(rs), AnsweredBy(rs));
  }
}
