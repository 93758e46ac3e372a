/** Definitive placement plans and what each takes from every node and link. */
module PlanLedger {
  import opened Types
  import opened OrderedDict

  /** A definitive placement: node per VNF, allocation per VNF, route and per-link bandwidth
      per flow. */
  datatype Plan = Plan(placements: Dict<VnfId, NodeId>, alloc: map<VnfId, Amount>,
                       routes: map<FlowKey, seq<LinkId>>, bandwidth: Dict<FlowKey, Dict<LinkId, real>>)
  {
    /** Every placed VNF has an allocation and sits on a node of the substrate. */
    ghost predicate WellFormed(topo: Topology) {
      forall i :: 0 <= i < |placements| ==> placements[i].0 in alloc && placements[i].1 in topo.attr
    }

    ghost predicate NonNegative() {
      && (forall v :: v in alloc ==> alloc[v].Covers(ZERO))
      && forall i, j :: 0 <= i < |bandwidth| && 0 <= j < |bandwidth[i].1| ==> bandwidth[i].1[j].1 >= 0.0
    }

    function NodeDemand(n: NodeId): Amount {
      PlacedDemand(placements, alloc, n)
    }

    function LinkDemand(l: LinkId): real {
      FlowDemand(bandwidth, l)
    }
  }

  function PlacedDemand(placements: Dict<VnfId, NodeId>, alloc: map<VnfId, Amount>, n: NodeId): Amount {
    if placements == [] then ZERO
    else PlacedDemand(placements[..|placements| - 1], alloc, n).Plus(Share(placements[|placements| - 1], alloc, n))
  }

  /** What one placement takes from node n. */
  function Share(p: (VnfId, NodeId), alloc: map<VnfId, Amount>, n: NodeId): Amount {
    if p.1 == n && p.0 in alloc then alloc[p.0] else ZERO
  }

  /** CPU, and RAM, allocated to the VNFs placed on node n, added up from the front. */
  ghost function CpuTaken(placements: Dict<VnfId, NodeId>, alloc: map<VnfId, Amount>, n: NodeId): real {
    if placements == [] then 0.0
    else
      var (v, m) := placements[0];
      (if m == n && v in alloc then alloc[v].cpu else 0.0) + CpuTaken(placements[1..], alloc, n)
  }

  ghost function RamTaken(placements: Dict<VnfId, NodeId>, alloc: map<VnfId, Amount>, n: NodeId): real {
    if placements == [] then 0.0
    else
      var (v, m) := placements[0];
      (if m == n && v in alloc then alloc[v].ram else 0.0) + RamTaken(placements[1..], alloc, n)
  }

  lemma {:induction false} TakenNext(placements: Dict<VnfId, NodeId>, v: VnfId, m: NodeId, alloc: map<VnfId, Amount>,
                                     n: NodeId)
    ensures CpuTaken(placements + [(v, m)], alloc, n)
         == CpuTaken(placements, alloc, n) + if m == n && v in alloc then alloc[v].cpu else 0.0
    ensures RamTaken(placements + [(v, m)], alloc, n)
         == RamTaken(placements, alloc, n) + if m == n && v in alloc then alloc[v].ram else 0.0
  {
    if placements == [] {
      assert [(v, m)][1..] == [] && placements + [(v, m)] == [(v, m)];
    } else {
      assert (placements + [(v, m)])[1..] == placements[1..] + [(v, m)];
      TakenNext(placements[1..], v, m, alloc, n);
    }
  }

  /** What a plan takes from a node is the CPU and the RAM allocated to exactly the VNFs there. */
  lemma {:induction false} DemandIsSum(placements: Dict<VnfId, NodeId>, alloc: map<VnfId, Amount>, n: NodeId)
    ensures PlacedDemand(placements, alloc, n)
         == Amount(CpuTaken(placements, alloc, n), RamTaken(placements, alloc, n))
  {
    if placements != [] {
      var front, last := placements[..|placements| - 1], placements[|placements| - 1];
      DemandIsSum(front, alloc, n);
      TakenNext(front, last.0, last.1, alloc, n);
      assert placements == front + [last];
    }
  }

  function EntryDemand(entries: Dict<LinkId, real>, l: LinkId): real {
    if entries == [] then 0.0
    else
      var (link, bw) := entries[|entries| - 1];
      EntryDemand(entries[..|entries| - 1], l) + if link == l then bw else 0.0
  }

  function FlowDemand(flows: Dict<FlowKey, Dict<LinkId, real>>, l: LinkId): real {
    if flows == [] then 0.0
    else FlowDemand(flows[..|flows| - 1], l) + EntryDemand(flows[|flows| - 1].1, l)
  }

  lemma {:induction false} PlacedNonNegative(placements: Dict<VnfId, NodeId>, alloc: map<VnfId, Amount>, n: NodeId)
    requires forall v :: v in alloc ==> alloc[v].Covers(ZERO)
    ensures PlacedDemand(placements, alloc, n).Covers(ZERO)
  {
    if placements != [] {
      PlacedNonNegative(placements[..|placements| - 1], alloc, n);
    }
  }

  lemma {:induction false} EntriesNonNegative(entries: Dict<LinkId, real>, l: LinkId)
    requires forall j :: 0 <= j < |entries| ==> entries[j].1 >= 0.0
    ensures EntryDemand(entries, l) >= 0.0
  {
    if entries != [] {
      EntriesNonNegative(entries[..|entries| - 1], l);
    }
  }

  lemma {:induction false} FlowsNonNegative(flows: Dict<FlowKey, Dict<LinkId, real>>, l: LinkId)
    requires forall i, j :: 0 <= i < |flows| && 0 <= j < |flows[i].1| ==> flows[i].1[j].1 >= 0.0
    ensures FlowDemand(flows, l) >= 0.0
  {
    if flows != [] {
      FlowsNonNegative(flows[..|flows| - 1], l);
      EntriesNonNegative(flows[|flows| - 1].1, l);
    }
  }

  /** A plan with non-negative allocations takes nothing negative from anything. */
  lemma DemandNonNegative(plan: Plan)
    requires plan.NonNegative()
    ensures forall n :: plan.NodeDemand(n).Covers(ZERO)
    ensures forall l :: plan.LinkDemand(l) >= 0.0
  {
    forall n ensures plan.NodeDemand(n).Covers(ZERO) {
      PlacedNonNegative(plan.placements, plan.alloc, n);
    }
    forall l ensures plan.LinkDemand(l) >= 0.0 {
      FlowsNonNegative(plan.bandwidth, l);
    }
  }

  // The steps of the allocation loops.

  lemma EntryNext(entries: Dict<LinkId, real>, j: nat, l: LinkId)
    requires j < |entries|
    ensures EntryDemand(entries[..j + 1], l)
         == EntryDemand(entries[..j], l) + if entries[j].0 == l then entries[j].1 else 0.0
  {
    assert entries[..j + 1][..j] == entries[..j];
  }

  lemma FlowNext(flows: Dict<FlowKey, Dict<LinkId, real>>, i: nat, l: LinkId)
    requires i < |flows|
    ensures FlowDemand(flows[..i + 1], l) == FlowDemand(flows[..i], l) + EntryDemand(flows[i].1, l)
  {
    assert flows[..i + 1][..i] == flows[..i];
  }
}
