/** The substrate digital twin: an immutable topology and the residual capacities that every
    provisional and definitive allocation updates in place. */
module Substrate {
  import opened Types
  import opened Ledger
  import opened OrderedDict
  import opened PlanLedger

  class SubstrateNetwork {
    const topo: Topology
    /** cpu_residual and ram_residual of every node. */
    var node: map<NodeId, Amount>
    /** bw_residual of every link, in link iteration order. */
    var bw: seq<real>
    /** The registry of allocated slices. */
    var active: Dict<RequestId, (Plan, Request)>

    ghost predicate Valid()
      reads this
    {
      topo.Valid() && node.Keys == topo.attr.Keys && |bw| == |topo.links|
    }

    ghost predicate NonNegative()
      reads this
    {
      NodesNonNegative(node) && LinksNonNegative(bw)
    }

    constructor (topo: Topology, node: map<NodeId, Amount>, bw: seq<real>)
      requires topo.Valid() && node.Keys == topo.attr.Keys && |bw| == |topo.links|
      ensures Valid() && this.topo == topo && this.node == node && this.bw == bw && active == []
    {
      this.topo, this.node, this.bw, this.active := topo, node, bw, [];
    }

    /** Linear scan for a link id; the first hit changes, an unknown id changes nothing. */
    method AddBandwidth(link: LinkId, delta: real)
      requires Valid()
      modifies this`bw
      ensures Valid()
      ensures forall e :: 0 <= e < |bw| ==>
                bw[e] == old(bw[e]) + if topo.links[e].id == link then delta else 0.0
    {
      var e := 0;
      while e < |topo.links|
        invariant 0 <= e <= |topo.links| && bw == old(bw)
        invariant forall i :: 0 <= i < e ==> topo.links[i].id != link
      {
        if topo.links[e].id == link {
          bw := bw[e := bw[e] + delta];
          return;
        }
        e := e + 1;
      }
    }

    /** Add (or with a negative delta take) bandwidth on every link of one flow's entries. */
    method AddEntries(entries: Dict<LinkId, real>, taking: bool)
      requires Valid()
      modifies this`bw
      ensures Valid()
      ensures forall e :: 0 <= e < |bw| ==>
                bw[e] == old(bw)[e] + Signed(EntryDemand(entries, topo.links[e].id), taking)
    {
      var j := 0;
      while j < |entries|
        invariant 0 <= j <= |entries| && Valid()
        invariant forall e :: 0 <= e < |bw| ==>
                    bw[e] == old(bw)[e] + Signed(EntryDemand(entries[..j], topo.links[e].id), taking)
      {
        ghost var was := bw;
        AddBandwidth(entries[j].0, Signed(entries[j].1, taking));
        forall e | 0 <= e < |bw|
          ensures bw[e] == old(bw)[e] + Signed(EntryDemand(entries[..j + 1], topo.links[e].id), taking)
        {
          EntryNext(entries, j, topo.links[e].id);
          assert was[e] == old(bw)[e] + Signed(EntryDemand(entries[..j], topo.links[e].id), taking);
        }
        j := j + 1;
      }
      assert entries[..j] == entries;
    }

    /** Every flow of a plan, taking or giving back. */
    method AddFlows(flows: Dict<FlowKey, Dict<LinkId, real>>, taking: bool)
      requires Valid()
      modifies this`bw
      ensures Valid()
      ensures forall e :: 0 <= e < |bw| ==> bw[e] == old(bw)[e] + Signed(FlowDemand(flows, topo.links[e].id), taking)
    {
      var i := 0;
      while i < |flows|
        invariant 0 <= i <= |flows| && Valid()
        invariant forall e :: 0 <= e < |bw| ==>
                    bw[e] == old(bw)[e] + Signed(FlowDemand(flows[..i], topo.links[e].id), taking)
      {
        ghost var was := bw;
        AddEntries(flows[i].1, taking);
        forall e | 0 <= e < |bw|
          ensures bw[e] == old(bw)[e] + Signed(FlowDemand(flows[..i + 1], topo.links[e].id), taking)
        {
          FlowNext(flows, i, topo.links[e].id);
          assert was[e] == old(bw)[e] + Signed(FlowDemand(flows[..i], topo.links[e].id), taking);
        }
        i := i + 1;
      }
      assert flows[..i] == flows;
    }

    /** Every placement of a plan, taking or giving back. */
    method AddPlacements(plan: Plan, taking: bool)
      requires Valid() && plan.WellFormed(topo)
      modifies this`node
      ensures Valid()
      ensures Shifted(old(node), node, plan.placements, plan.alloc, taking)
    {
      var ps := plan.placements;
      assert Shifted(node, node, ps[..0], plan.alloc, taking);
      var i := 0;
      while i < |ps|
        invariant 0 <= i <= |ps| && Valid() && Shifted(old(node), node, ps[..i], plan.alloc, taking)
      {
        var v, m := ps[i].0, ps[i].1;
        ShiftedNext(old(node), node, ps, i, plan.alloc, taking);
        hide Shifted, Topology.Valid;
        node := node[m := Shift(node[m], plan.alloc[v], taking)];
        i := i + 1;
      }
      assert ps[..i] == ps;
    }

    /** Take a plan's resources and register the slice; an active request id is refused and
        nothing changes. */
    method Allocate(plan: Plan, req: Request) returns (ok: bool)
      requires Valid() && plan.WellFormed(topo)
      modifies this
      ensures Valid() && ok == (Find(old(active), req.id) == None)
      ensures !ok ==> node == old(node) && bw == old(bw) && active == old(active)
      ensures ok ==> Taken(topo, plan, old(node), old(bw), node, bw) && active == old(active) + [(req.id, (plan, req))]
    {
      hide Topology.Valid, PlacedDemand, FlowDemand;
      if Find(active, req.id).Some? {
        return false;
      }
      AddPlacements(plan, true);
      AddFlows(plan.bandwidth, true);
      active := Put(active, req.id, (plan, req));
      ok := true;
    }

    /** Give a plan's resources back and drop the slice; an unknown request id is refused. */
    method Deallocate(plan: Plan, req: Request) returns (ok: bool)
      requires Valid() && plan.WellFormed(topo)
      modifies this
      ensures Valid() && ok == Find(old(active), req.id).Some?
      ensures !ok ==> node == old(node) && bw == old(bw) && active == old(active)
      ensures ok ==> Taken(topo, plan, node, bw, old(node), old(bw)) && active == Remove(old(active), req.id)
    {
      hide Topology.Valid, PlacedDemand, FlowDemand;
      if Find(active, req.id).None? {
        return false;
      }
      AddPlacements(plan, false);
      AddFlows(plan.bandwidth, false);
      active := Remove(active, req.id);
      ok := true;
    }
  }

  function Shift(a: Amount, d: Amount, taking: bool): Amount {
    if taking then a.Minus(d) else a.Plus(d)
  }

  /** Every node moved by what these placements ask of it. */
  ghost predicate Shifted(before: map<NodeId, Amount>, after: map<NodeId, Amount>, placements: Dict<VnfId, NodeId>,
                          alloc: map<VnfId, Amount>, taking: bool)
  {
    && after.Keys == before.Keys
    && forall n :: n in after ==> after[n] == Shift(before[n], PlacedDemand(placements, alloc, n), taking)
  }

  lemma ShiftedNext(before: map<NodeId, Amount>, node: map<NodeId, Amount>, placements: Dict<VnfId, NodeId>, i: nat,
                    alloc: map<VnfId, Amount>, taking: bool)
    requires i < |placements| && Shifted(before, node, placements[..i], alloc, taking)
    requires placements[i].0 in alloc && placements[i].1 in node
    ensures var m := placements[i].1;
            Shifted(before, node[m := Shift(node[m], alloc[placements[i].0], taking)], placements[..i + 1], alloc,
                    taking)
  {
    var m := placements[i].1;
    var next := node[m := Shift(node[m], alloc[placements[i].0], taking)];
    forall n | n in next ensures next[n] == Shift(before[n], PlacedDemand(placements[..i + 1], alloc, n), taking) {
      assert placements[..i + 1][..i] == placements[..i];
    }
  }

  function Signed(x: real, taking: bool): real {
    if taking then -x else x
  }

  /** The second state is the first minus exactly the plan's demands. */
  ghost predicate Taken(topo: Topology, plan: Plan, node0: map<NodeId, Amount>, bw0: seq<real>,
                        node1: map<NodeId, Amount>, bw1: seq<real>)
  {
    && node1.Keys == node0.Keys && |bw1| == |bw0| == |topo.links|
    && (forall n :: n in node0 ==> node1[n] == node0[n].Minus(plan.NodeDemand(n)))
    && forall e :: 0 <= e < |bw0| ==> bw1[e] == bw0[e] - plan.LinkDemand(topo.links[e].id)
  }

  /** Allocating and deallocating the same plan cancel. */
  lemma TakenOnce(topo: Topology, plan: Plan, node0: map<NodeId, Amount>, bw0: seq<real>, node1: map<NodeId, Amount>,
                  bw1: seq<real>, node2: map<NodeId, Amount>, bw2: seq<real>)
    requires Taken(topo, plan, node0, bw0, node1, bw1) && Taken(topo, plan, node2, bw2, node1, bw1)
    ensures node2 == node0 && bw2 == bw0
  {
    hide PlacedDemand, FlowDemand;
    forall n | n in node0 ensures n in node2 && node2[n] == node0[n] {
      assert node1[n] == node0[n].Minus(plan.NodeDemand(n));
    }
    forall e | 0 <= e < |bw0| ensures bw2[e] == bw0[e] {
      assert bw1[e] == bw0[e] - plan.LinkDemand(topo.links[e].id);
    }
  }
}
