/** What a domain actor is asked to do and what every actor promises, learned or greedy. */
module Actors {
  import opened Types
  import opened OrderedDict
  import opened Ledger
  import opened Substrate
  import opened Routing
  import opened RouteRule

  /** The part of a plan assigned to one domain; `tier` holds each VNF's required tier. */
  datatype Fragment = Fragment(domain: DomainId, vnfs: seq<Vnf>, tier: map<VnfId, Tier>, flows: seq<Flow>,
                               delayBudget: real)
  {
    /** Distinct VNFs; every flow joins an earlier VNF of the fragment to a later one, and no
        two flows share a target. */
    ghost predicate WellFormed() {
      && DistinctIds(vnfs)
      && Ids(vnfs) <= tier.Keys
      && (forall k :: 0 <= k < |vnfs| ==> vnfs[k].demand.Covers(ZERO))
      && (forall f :: f in flows ==> f.bandwidth >= 0.0 && Joins(f))
      && (forall i, j :: 0 <= i < j < |flows| ==> flows[i].dst != flows[j].dst)
    }

    ghost predicate Joins(f: Flow) {
      exists i, j :: 0 <= i < j < |vnfs| && vnfs[i].id == f.src && vnfs[j].id == f.dst
    }
  }

  datatype Response = Response(domain: DomainId, feasible: bool, placements: map<VnfId, NodeId>,
                               routes: map<FlowKey, seq<LinkId>>, bwAllocated: Dict<FlowKey, real>,
                               intraDelay: real, resourceCost: real)
  {
    function Reservations(): seq<Reservation> {
      ReservationsOf(bwAllocated, routes)
    }
  }

  function Refusal(d: DomainId): Response {
    Response(d, false, map[], map[], [], 0.0, 0.0)
  }

  function RouteFor(routes: map<FlowKey, seq<LinkId>>, key: FlowKey): seq<LinkId> {
    if key in routes then routes[key] else []
  }

  /** The reservations recorded by a bandwidth dictionary and its route dictionary. */
  function ReservationsOf(bw: Dict<FlowKey, real>, routes: map<FlowKey, seq<LinkId>>): (rs: seq<Reservation>)
    ensures |rs| == |bw|
    ensures forall i :: 0 <= i < |bw| ==> rs[i] == Reservation(RouteFor(routes, bw[i].0), bw[i].1)
  {
    seq(|bw|, i requires 0 <= i < |bw| => Reservation(RouteFor(routes, bw[i].0), bw[i].1))
  }

  /** Recording one more flow under a fresh key appends one reservation. */
  lemma RecordRoute(bw: Dict<FlowKey, real>, routes: map<FlowKey, seq<LinkId>>, key: FlowKey,
                    links: seq<LinkId>, demand: real)
    requires Distinct(bw) && key !in Keys(bw)
    ensures Put(bw, key, demand) == bw + [(key, demand)] && Distinct(Put(bw, key, demand))
    ensures ReservationsOf(Put(bw, key, demand), routes[key := links])
         == ReservationsOf(bw, routes) + [Reservation(links, demand)]
  {
    assert forall i :: 0 <= i < |bw| ==> bw[i].0 in Keys(bw);
  }

  /** A node of the domain that the VNF may use; an empty permitted list means any node. */
  predicate LegalHost(topo: Topology, d: DomainId, v: Vnf, n: NodeId) {
    n in topo.attr && topo.DomainOf(n) == d && (v.permitted == [] || n in v.permitted)
  }

  /** A flow is accounted for: same node and an empty route, or a walk between the two hosts
      over allowed links with its bandwidth recorded. */
  ghost predicate Served(topo: Topology, allowed: set<nat>, f: Flow, at: map<VnfId, NodeId>,
                         routes: map<FlowKey, seq<LinkId>>, bw: Dict<FlowKey, real>)
  {
    && f.src in at && f.dst in at && (f.src, f.dst) in routes
    && Connects(topo, allowed, routes[(f.src, f.dst)], at[f.src], at[f.dst])
    && if at[f.src] == at[f.dst] then routes[(f.src, f.dst)] == [] else ((f.src, f.dst), f.bandwidth) in bw
  }

  function FlowKeys(flows: seq<Flow>): set<FlowKey> {
    set i | 0 <= i < |flows| :: flows[i].Key()
  }

  /** All flows served, and nothing else recorded. */
  ghost predicate AllServed(topo: Topology, allowed: set<nat>, flows: seq<Flow>, at: map<VnfId, NodeId>,
                            routes: map<FlowKey, seq<LinkId>>, bw: Dict<FlowKey, real>)
  {
    && Distinct(bw) && routes.Keys == FlowKeys(flows) && Keys(bw) <= routes.Keys
    && forall f :: f in flows ==> Served(topo, allowed, f, at, routes, bw)
  }

  ghost predicate AllPlaced(topo: Topology, d: DomainId, vnfs: seq<Vnf>, at: map<VnfId, NodeId>) {
    && at.Keys == Ids(vnfs)
    && forall i :: 0 <= i < |vnfs| ==> vnfs[i].id in at && LegalHost(topo, d, vnfs[i], at[vnfs[i].id])
  }

  /** Processing delay of every VNF at the node it is placed on. */
  function ProcessingDelay(topo: Topology, vnfs: seq<Vnf>, at: map<VnfId, NodeId>): real {
    if vnfs == [] then 0.0
    else ProcessingDelay(topo, vnfs[..|vnfs| - 1], at) + ProcessingAt(topo, vnfs[|vnfs| - 1], at)
  }

  function ProcessingAt(topo: Topology, v: Vnf, at: map<VnfId, NodeId>): real {
    if v.id in at then HostDelay(topo, v, at[v.id]) else 0.0
  }

  function HostDelay(topo: Topology, v: Vnf, n: NodeId): real {
    if n in topo.attr then topo.attr[n].delay * v.intensity else 0.0
  }

  /** Node delay times intensity of every VNF on its host, added up from the front. */
  ghost function HostTime(topo: Topology, vnfs: seq<Vnf>, at: map<VnfId, NodeId>): real {
    if vnfs == [] then 0.0
    else
      (if vnfs[0].id in at && at[vnfs[0].id] in topo.attr
       then topo.attr[at[vnfs[0].id]].delay * vnfs[0].intensity else 0.0)
        + HostTime(topo, vnfs[1..], at)
  }

  lemma {:induction false} HostTimeNext(topo: Topology, vnfs: seq<Vnf>, v: Vnf, at: map<VnfId, NodeId>)
    ensures HostTime(topo, vnfs + [v], at) == HostTime(topo, vnfs, at) + ProcessingAt(topo, v, at)
  {
    if vnfs == [] {
      assert [v][1..] == [] && vnfs + [v] == [v];
    } else {
      assert (vnfs + [v])[1..] == vnfs[1..] + [v];
      HostTimeNext(topo, vnfs[1..], v, at);
    }
  }

  lemma {:induction false} ProcessingIsSum(topo: Topology, vnfs: seq<Vnf>, at: map<VnfId, NodeId>)
    ensures ProcessingDelay(topo, vnfs, at) == HostTime(topo, vnfs, at)
  {
    if vnfs != [] {
      var front, v := vnfs[..|vnfs| - 1], vnfs[|vnfs| - 1];
      ProcessingIsSum(topo, front, at);
      hide ProcessingAt, HostTime;
      HostTimeNext(topo, front, v, at);
      assert vnfs == front + [v];
    }
  }

  lemma {:induction false} ProcessingAgrees(topo: Topology, vnfs: seq<Vnf>, a: map<VnfId, NodeId>,
                                            b: map<VnfId, NodeId>)
    requires forall i :: 0 <= i < |vnfs| ==> ProcessingAt(topo, vnfs[i], a) == ProcessingAt(topo, vnfs[i], b)
    ensures ProcessingDelay(topo, vnfs, a) == ProcessingDelay(topo, vnfs, b)
  {
    if vnfs != [] {
      ProcessingAgrees(topo, vnfs[..|vnfs| - 1], a, b);
    }
  }

  lemma ProcessingNext(topo: Topology, vnfs: seq<Vnf>, i: nat, at: map<VnfId, NodeId>, n: NodeId)
    requires DistinctIds(vnfs) && i < |vnfs|
    ensures ProcessingDelay(topo, vnfs[..i + 1], at[vnfs[i].id := n])
         == ProcessingDelay(topo, vnfs[..i], at) + HostDelay(topo, vnfs[i], n)
  {
    hide HostDelay;
    assert vnfs[..i + 1][..i] == vnfs[..i];
    ProcessingAgrees(topo, vnfs[..i], at, at[vnfs[i].id := n]);
  }

  /** The promise of `act`: on success the residuals dropped by exactly what the response
      records, none below zero, every VNF placed, every flow served inside the domain and the
      delay accounted for; on refusal nothing changed. */
  ghost predicate ActContract(topo: Topology, frag: Fragment,
                              node0: map<NodeId, Amount>, bw0: seq<real>,
                              node1: map<NodeId, Amount>, bw1: seq<real>, r: Response)
  {
    && r.domain == frag.domain
    && if r.feasible then
         && AllPlaced(topo, frag.domain, frag.vnfs, r.placements)
         && NodesDebited(node0, node1, frag.vnfs, r.placements) && NodesNonNegative(node1)
         && LinksDebited(topo, bw0, bw1, r.Reservations()) && LinksNonNegative(bw1)
         && AllServed(topo, topo.DomainLinks(frag.domain), frag.flows, r.placements, r.routes, r.bwAllocated)
         && r.intraDelay == ProcessingDelay(topo, frag.vnfs, r.placements) + ReservedDelay(topo, r.Reservations())
       else
         node1 == node0 && bw1 == bw0 && r.placements == map[] && r.routes == map[] && r.bwAllocated == []
  }

  /** Undo: bandwidth back in reverse order, node residuals back from the snapshots. */
  method Rollback(sub: SubstrateNetwork, reserved: seq<Reservation>, snapshots: map<NodeId, Amount>,
                  ghost node0: map<NodeId, Amount>, ghost bw0: seq<real>)
    requires sub.Valid()
    requires LinksDebited(sub.topo, bw0, sub.bw, reserved)
    requires SnapshotsTaken(node0, sub.node, snapshots)
    modifies sub`node, sub`bw
    ensures sub.Valid() && sub.node == node0 && sub.bw == bw0
  {
    var j := |reserved|;
    assert reserved[..j] == reserved;
    while j > 0
      invariant 0 <= j <= |reserved| && sub.Valid() && sub.node == old(sub.node)
      invariant LinksDebited(sub.topo, bw0, sub.bw, reserved[..j])
    {
      j := j - 1;
      ghost var before := sub.bw;
      DeallocateRouteBw(sub, reserved[j].links, reserved[j].bandwidth);
      assert reserved[..j + 1] == reserved[..j] + [reserved[j]];
      CreditRestores(sub.topo, bw0, before, sub.bw, reserved[..j], [reserved[j]]);
    }
    assert reserved[..j] == [];
    NoDebits(sub.topo, bw0, sub.bw);
    RestoreSnapshots(sub, snapshots);
    assert sub.node == node0;
  }

  /** Write every snapshotted residual back. */
  method RestoreSnapshots(sub: SubstrateNetwork, snapshots: map<NodeId, Amount>)
    requires sub.Valid() && snapshots.Keys <= sub.node.Keys
    modifies sub`node
    ensures sub.Valid() && sub.node == old(sub.node) + snapshots
  {
    hide Topology.Valid;
    var todo := snapshots.Keys;
    assert Restored(sub.node, snapshots, todo, sub.node);
    while todo != {}
      invariant todo <= snapshots.Keys && sub.Valid()
      invariant Restored(old(sub.node), snapshots, todo, sub.node)
      decreases |todo|
    {
      var n :| n in todo;
      sub.node := sub.node[n := snapshots[n]];
      todo := todo - {n};
    }
  }

  /** All snapshots but those still to do are written back over the state `before`. */
  ghost predicate Restored(before: map<NodeId, Amount>, snapshots: map<NodeId, Amount>, todo: set<NodeId>,
                           node: map<NodeId, Amount>)
  {
    && node.Keys == before.Keys
    && forall n :: n in node ==> node[n] == if n in snapshots && n !in todo then snapshots[n] else before[n]
  }

  /** Where a placement loop stands after its first i VNFs. */
  ghost predicate PlacedSoFar(topo: Topology, d: DomainId, vnfs: seq<Vnf>, i: nat, node0: map<NodeId, Amount>,
                              node: map<NodeId, Amount>, at: map<VnfId, NodeId>, snapshots: map<NodeId, Amount>)
  {
    && i <= |vnfs|
    && AllPlaced(topo, d, vnfs[..i], at)
    && NodesDebited(node0, node, vnfs[..i], at) && NodesNonNegative(node)
    && SnapshotsTaken(node0, node, snapshots)
  }

  /** A node is either untouched or has its original residual in a snapshot. */
  ghost predicate SnapshotsTaken(node0: map<NodeId, Amount>, node: map<NodeId, Amount>, snapshots: map<NodeId, Amount>)
  {
    && node.Keys == node0.Keys && snapshots.Keys <= node.Keys
    && forall n :: n in node ==> if n in snapshots then snapshots[n] == node0[n] else node[n] == node0[n]
  }

  lemma PlacedNext(topo: Topology, d: DomainId, vnfs: seq<Vnf>, i: nat, node0: map<NodeId, Amount>,
                   node: map<NodeId, Amount>, at: map<VnfId, NodeId>, snapshots: map<NodeId, Amount>, n: NodeId)
    requires DistinctIds(vnfs) && i < |vnfs|
    requires PlacedSoFar(topo, d, vnfs, i, node0, node, at, snapshots)
    requires LegalHost(topo, d, vnfs[i], n) && n in node && node[n].Covers(vnfs[i].demand)
    ensures PlacedSoFar(topo, d, vnfs, i + 1, node0, node[n := node[n].Minus(vnfs[i].demand)],
                        at[vnfs[i].id := n], if n in snapshots then snapshots else snapshots[n := node[n]])
  {
    hide LoadOn;
    NodesDebitedNext(node0, node, vnfs, i, at, n);
    AllPlacedNext(topo, d, vnfs, i, at, n);
  }

  lemma AllPlacedNext(topo: Topology, d: DomainId, vnfs: seq<Vnf>, i: nat, at: map<VnfId, NodeId>, n: NodeId)
    requires DistinctIds(vnfs) && i < |vnfs|
    requires AllPlaced(topo, d, vnfs[..i], at) && LegalHost(topo, d, vnfs[i], n)
    ensures AllPlaced(topo, d, vnfs[..i + 1], at[vnfs[i].id := n])
  {
    hide LegalHost;
    var s := vnfs[..i + 1];
    assert forall j :: 0 <= j < i ==> s[j] == vnfs[..i][j];
    assert s[i] == vnfs[i];
  }

  /** Serving one more flow, with a recorded reservation or as a same-node flow. */
  lemma ServedNext(topo: Topology, allowed: set<nat>, done: seq<Flow>, f: Flow, at: map<VnfId, NodeId>,
                   routes: map<FlowKey, seq<LinkId>>, bw: Dict<FlowKey, real>, links: seq<LinkId>, recorded: bool)
    requires f.Key() !in FlowKeys(done) && AllServed(topo, allowed, done, at, routes, bw)
    requires f.src in at && f.dst in at && Connects(topo, allowed, links, at[f.src], at[f.dst])
    requires at[f.src] == at[f.dst] ==> links == []
    requires !recorded ==> at[f.src] == at[f.dst]
    ensures AllServed(topo, allowed, done + [f], at, routes[f.Key() := links],
                      if recorded then Put(bw, f.Key(), f.bandwidth) else bw)
    ensures f.Key() !in Keys(bw)
  {
    var key := f.Key();
    var bw' := if recorded then Put(bw, key, f.bandwidth) else bw;
    var next := done + [f];
    assert key !in Keys(bw);
    assert recorded ==> bw' == bw + [(key, f.bandwidth)] && bw'[|bw|] == (key, f.bandwidth);
    assert Keys(bw') <= Keys(bw) + {key};
    assert FlowKeys(next) == FlowKeys(done) + {key} by {
      assert next[|done|].Key() == key;
      assert forall j :: 0 <= j < |done| ==> next[j] == done[j];
    }
    forall g | g in next ensures Served(topo, allowed, g, at, routes[key := links], bw') {
      if g in done {
        assert Served(topo, allowed, g, at, routes, bw);
        assert g.Key() in FlowKeys(done);
      }
    }
  }

  lemma NothingPlacedYet(topo: Topology, d: DomainId, vnfs: seq<Vnf>, node: map<NodeId, Amount>)
    requires NodesNonNegative(node)
    ensures PlacedSoFar(topo, d, vnfs, 0, node, node, map[], map[])
  {
    assert vnfs[..0] == [];
  }

  /** Debit the chosen node for the next VNF and record the placement. */
  method PlaceOn(sub: SubstrateNetwork, d: DomainId, vnfs: seq<Vnf>, i: nat, n: NodeId, at: map<VnfId, NodeId>,
                 snapshots: map<NodeId, Amount>, ghost node0: map<NodeId, Amount>)
    returns (at': map<VnfId, NodeId>, snapshots': map<NodeId, Amount>)
    requires sub.Valid() && DistinctIds(vnfs) && i < |vnfs|
    requires PlacedSoFar(sub.topo, d, vnfs, i, node0, sub.node, at, snapshots)
    requires LegalHost(sub.topo, d, vnfs[i], n) && sub.node[n].Covers(vnfs[i].demand)
    modifies sub`node
    ensures sub.Valid() && sub.node == old(sub.node)[n := old(sub.node)[n].Minus(vnfs[i].demand)]
    ensures at' == at[vnfs[i].id := n]
    ensures PlacedSoFar(sub.topo, d, vnfs, i + 1, node0, sub.node, at', snapshots')
  {
    PlacedNext(sub.topo, d, vnfs, i, node0, sub.node, at, snapshots, n);
    snapshots' := if n in snapshots then snapshots else snapshots[n := sub.node[n]];
    sub.node := sub.node[n := sub.node[n].Minus(vnfs[i].demand)];
    at' := at[vnfs[i].id := n];
  }

  /** The link side of a transaction: what was reserved is what was debited, and no link went
      below zero. */
  ghost predicate LinkLedger(topo: Topology, bw0: seq<real>, bw: seq<real>, reserved: seq<Reservation>) {
    LinksDebited(topo, bw0, bw, reserved) && LinksNonNegative(bw)
  }

  /** Route one flow between the hosts of its endpoints, reserve its bandwidth and record it. */
  method ServeFlow(sub: SubstrateNetwork, allowed: set<nat>, f: Flow, at: map<VnfId, NodeId>, left: real, k: nat,
                   sel: Selector, routes: map<FlowKey, seq<LinkId>>, bw: Dict<FlowKey, real>,
                   ghost reserved: seq<Reservation>, ghost done: seq<Flow>, ghost bw0: seq<real>)
    returns (res: RouteResult, routes': map<FlowKey, seq<LinkId>>, bw': Dict<FlowKey, real>)
    requires sub.Valid() && LinkLedger(sub.topo, bw0, sub.bw, reserved) && reserved == ReservationsOf(bw, routes)
    requires AllServed(sub.topo, allowed, done, at, routes, bw)
    requires f.Key() !in FlowKeys(done) && f.src in at && f.dst in at
    modifies sub`bw
    ensures sub.Valid() && LinksNonNegative(sub.bw)
    ensures !res.feasible ==> sub.bw == old(sub.bw) && NoRoute(sub.topo, sub.bw, allowed, f, at, left, k)
    ensures res.feasible ==> LinkLedger(sub.topo, bw0, sub.bw, reserved + [Reservation(res.links, f.bandwidth)])
    ensures res.feasible ==> reserved + [Reservation(res.links, f.bandwidth)] == ReservationsOf(bw', routes')
    ensures res.feasible ==> AllServed(sub.topo, allowed, done + [f], at, routes', bw')
    ensures res.feasible ==> Connects(sub.topo, allowed, res.links, at[f.src], at[f.dst])
    ensures res.feasible ==> res.delay == RouteDelay(sub.topo, res.links)
    ensures res.feasible ==> at[f.src] != at[f.dst] ==> res.delay <= left
    ensures res.feasible ==> routes' == routes[f.Key() := res.links] && bw' == bw + [(f.Key(), f.bandwidth)]
    ensures res.feasible ==> RouteChosen(sub.topo, old(sub.bw), allowed, f, at, left, k, sel, res.links)
    ensures res.feasible ==> LinksDebited(sub.topo, old(sub.bw), sub.bw, [Reservation(res.links, f.bandwidth)])
  {
    routes', bw' := routes, bw;
    res := RouteAndReserve(sub, allowed, at[f.src], at[f.dst], f.bandwidth, left, k, sel);
    if res.feasible {
      assert at[f.src] != at[f.dst] ==>
          SelectedLinks(sub.topo, old(sub.bw), Candidates(sub.topo, allowed, at[f.src], at[f.dst], k), f.bandwidth,
                        left, sel, res, res.links);
      ServedNext(sub.topo, allowed, done, f, at, routes, bw, res.links, true);
      RecordRoute(bw, routes, f.Key(), res.links, f.bandwidth);
      DebitsCompose(sub.topo, bw0, old(sub.bw), sub.bw, reserved, [Reservation(res.links, f.bandwidth)]);
      routes' := routes[f.Key() := res.links];
      bw' := Put(bw, f.Key(), f.bandwidth);
    }
  }

  /** Node residuals after placing some VNFs. */
  function After(node0: map<NodeId, Amount>, vnfs: seq<Vnf>, at: map<VnfId, NodeId>): map<NodeId, Amount> {
    map n | n in node0 :: node0[n].Minus(LoadOn(vnfs, at, n))
  }

  lemma EmptyFragment(topo: Topology, frag: Fragment, node: map<NodeId, Amount>, bw: seq<real>)
    requires frag.WellFormed() && frag.vnfs == [] && |bw| == |topo.links|
    requires NodesNonNegative(node) && LinksNonNegative(bw)
    ensures ActContract(topo, frag, node, bw, node, bw, Response(frag.domain, true, map[], map[], [], 0.0, 0.0))
  {
    if frag.flows != [] {
      var f := SomeFlow(frag.flows);
      assert false;
    }
  }

  lemma SomeFlow(flows: seq<Flow>) returns (f: Flow)
    requires flows != []
    ensures f in flows
  {
    f := flows[0];
  }
}
