/** What a set of placements and reserved routes costs each node and each link, and the
    two relations "this state is that state minus those debits" that every transaction
    below is specified with. */
module Ledger {
  import opened Types

  datatype Reservation = Reservation(links: seq<LinkId>, bandwidth: real)

  /** Total demand of the VNFs that `at` places on node n. */
  function LoadOn(vnfs: seq<Vnf>, at: map<VnfId, NodeId>, n: NodeId): Amount {
    if vnfs == [] then ZERO
    else LoadOn(vnfs[..|vnfs| - 1], at, n).Plus(Cost(vnfs[|vnfs| - 1], at, n))
  }

  /** What one VNF costs node n. */
  function Cost(v: Vnf, at: map<VnfId, NodeId>, n: NodeId): Amount {
    if v.id in at && at[v.id] == n then v.demand else ZERO
  }

  /** CPU, and RAM, of the VNFs placed on node n, added up from the front. */
  ghost function CpuOn(vnfs: seq<Vnf>, at: map<VnfId, NodeId>, n: NodeId): real {
    if vnfs == [] then 0.0
    else (if vnfs[0].id in at && at[vnfs[0].id] == n then vnfs[0].demand.cpu else 0.0) + CpuOn(vnfs[1..], at, n)
  }

  ghost function RamOn(vnfs: seq<Vnf>, at: map<VnfId, NodeId>, n: NodeId): real {
    if vnfs == [] then 0.0
    else (if vnfs[0].id in at && at[vnfs[0].id] == n then vnfs[0].demand.ram else 0.0) + RamOn(vnfs[1..], at, n)
  }

  lemma {:induction false} SumsNext(vnfs: seq<Vnf>, v: Vnf, at: map<VnfId, NodeId>, n: NodeId)
    ensures CpuOn(vnfs + [v], at, n) == CpuOn(vnfs, at, n) + if v.id in at && at[v.id] == n then v.demand.cpu else 0.0
    ensures RamOn(vnfs + [v], at, n) == RamOn(vnfs, at, n) + if v.id in at && at[v.id] == n then v.demand.ram else 0.0
  {
    if vnfs == [] {
      assert [v][1..] == [] && vnfs + [v] == [v];
    } else {
      assert (vnfs + [v])[1..] == vnfs[1..] + [v];
      SumsNext(vnfs[1..], v, at, n);
    }
  }

  /** A load is the CPU and the RAM of exactly the VNFs on the node. */
  lemma {:induction false} LoadIsSum(vnfs: seq<Vnf>, at: map<VnfId, NodeId>, n: NodeId)
    ensures LoadOn(vnfs, at, n) == Amount(CpuOn(vnfs, at, n), RamOn(vnfs, at, n))
  {
    if vnfs != [] {
      var front, v := vnfs[..|vnfs| - 1], vnfs[|vnfs| - 1];
      LoadIsSum(front, at, n);
      SumsNext(front, v, at, n);
      assert vnfs == front + [v];
    }
  }

  /** Bandwidth one route takes from link l: once per occurrence of l on the route. */
  function RouteLoad(links: seq<LinkId>, bandwidth: real, l: LinkId): real {
    if links == [] then 0.0
    else (if links[0] == l then bandwidth else 0.0) + RouteLoad(links[1..], bandwidth, l)
  }

  /** Bandwidth all reservations together take from link l. */
  function ReservedOn(rs: seq<Reservation>, l: LinkId): real {
    if rs == [] then 0.0
    else RouteLoad(rs[0].links, rs[0].bandwidth, l) + ReservedOn(rs[1..], l)
  }

  /** Link residuals `after` are `before` minus the reservations. */
  ghost predicate LinksDebited(topo: Topology, before: seq<real>, after: seq<real>, rs: seq<Reservation>) {
    && |before| == |after| == |topo.links|
    && forall e :: 0 <= e < |after| ==> after[e] == before[e] - ReservedOn(rs, topo.links[e].id)
  }

  /** Node residuals `after` are `before` minus the demand placed on each node. */
  ghost predicate NodesDebited(before: map<NodeId, Amount>, after: map<NodeId, Amount>,
                               vnfs: seq<Vnf>, at: map<VnfId, NodeId>)
  {
    && before.Keys == after.Keys
    && forall n :: n in after ==> after[n] == before[n].Minus(LoadOn(vnfs, at, n))
  }

  ghost predicate NodesNonNegative(node: map<NodeId, Amount>) {
    forall n :: n in node ==> node[n].Covers(ZERO)
  }

  ghost predicate LinksNonNegative(bw: seq<real>) {
    forall e :: 0 <= e < |bw| ==> bw[e] >= 0.0
  }

  lemma {:induction false} ReservedAppend(a: seq<Reservation>, b: seq<Reservation>, l: LinkId)
    ensures ReservedOn(a + b, l) == ReservedOn(a, l) + ReservedOn(b, l)
  {
    if a == [] {
      assert a + b == b;
    } else {
      assert (a + b)[1..] == a[1..] + b;
      ReservedAppend(a[1..], b, l);
    }
  }

  /** Debits add up, in whichever order they are listed. */
  lemma DebitsCompose(topo: Topology, x: seq<real>, y: seq<real>, z: seq<real>,
                      a: seq<Reservation>, b: seq<Reservation>)
    requires LinksDebited(topo, x, y, a) && LinksDebited(topo, y, z, b)
    ensures LinksDebited(topo, x, z, a + b) && LinksDebited(topo, x, z, b + a)
  {
    forall e | 0 <= e < |z|
      ensures z[e] == x[e] - ReservedOn(a + b, topo.links[e].id) && z[e] == x[e] - ReservedOn(b + a, topo.links[e].id)
    {
      ReservedAppend(a, b, topo.links[e].id);
      ReservedAppend(b, a, topo.links[e].id);
    }
  }

  /** Two states that lead to the same state by the same debits are the same state. */
  lemma SameDebitsSameOrigin(topo: Topology, x: seq<real>, y: seq<real>, z: seq<real>, a: seq<Reservation>)
    requires LinksDebited(topo, x, z, a) && LinksDebited(topo, y, z, a)
    ensures x == y
  {
    forall e | 0 <= e < |z| ensures x[e] == y[e] {
      assert z[e] == x[e] - ReservedOn(a, topo.links[e].id) && z[e] == y[e] - ReservedOn(a, topo.links[e].id);
    }
  }

  /** Giving back exactly what was debited restores the residuals. */
  lemma CreditRestores(topo: Topology, x: seq<real>, y: seq<real>, z: seq<real>,
                       a: seq<Reservation>, b: seq<Reservation>)
    requires LinksDebited(topo, x, y, a + b)
    requires LinksDebited(topo, z, y, b)
    ensures LinksDebited(topo, x, z, a)
  {
    forall e | 0 <= e < |z| ensures z[e] == x[e] - ReservedOn(a, topo.links[e].id) {
      ReservedAppend(a, b, topo.links[e].id);
      assert y[e] == z[e] - ReservedOn(b, topo.links[e].id);
    }
  }

  lemma NothingReserved(topo: Topology, bw: seq<real>)
    requires |bw| == |topo.links|
    ensures LinksDebited(topo, bw, bw, [])
  {}

  lemma NoDebits(topo: Topology, x: seq<real>, y: seq<real>)
    requires LinksDebited(topo, x, y, [])
    ensures x == y
  {
    forall e | 0 <= e < |x| ensures x[e] == y[e] {
      assert y[e] == x[e] - ReservedOn([], topo.links[e].id);
    }
  }

  lemma {:induction false} LoadAgrees(vnfs: seq<Vnf>, a: map<VnfId, NodeId>, b: map<VnfId, NodeId>, n: NodeId)
    requires forall i :: 0 <= i < |vnfs| ==>
               (vnfs[i].id in a && a[vnfs[i].id] == n <==> vnfs[i].id in b && b[vnfs[i].id] == n)
    ensures LoadOn(vnfs, a, n) == LoadOn(vnfs, b, n)
  {
    if vnfs != [] {
      LoadAgrees(vnfs[..|vnfs| - 1], a, b, n);
    }
  }

  lemma {:induction false} LoadElsewhere(vnfs: seq<Vnf>, at: map<VnfId, NodeId>, n: NodeId)
    requires n !in at.Values
    ensures LoadOn(vnfs, at, n) == ZERO
  {
    if vnfs != [] {
      LoadElsewhere(vnfs[..|vnfs| - 1], at, n);
    }
  }

  lemma LoadLast(s: seq<Vnf>, v: Vnf, at: map<VnfId, NodeId>, n: NodeId)
    ensures LoadOn(s + [v], at, n) == LoadOn(s, at, n).Plus(Cost(v, at, n))
  {
    assert (s + [v])[..|s|] == s;
  }

  /** Placing one more VNF adds its demand to its node and nothing anywhere else. */
  lemma PlaceNext(vnfs: seq<Vnf>, i: nat, at: map<VnfId, NodeId>, m: NodeId, n: NodeId)
    requires DistinctIds(vnfs) && i < |vnfs|
    ensures LoadOn(vnfs[..i + 1], at[vnfs[i].id := m], n)
         == LoadOn(vnfs[..i], at, n).Plus(if m == n then vnfs[i].demand else ZERO)
  {
    assert vnfs[..i + 1][..i] == vnfs[..i];
    LoadAgrees(vnfs[..i], at, at[vnfs[i].id := m], n);
  }

  /** The step of every placement loop: debit one node, record one placement. */
  lemma NodesDebitedNext(before: map<NodeId, Amount>, mid: map<NodeId, Amount>, vnfs: seq<Vnf>, i: nat,
                         at: map<VnfId, NodeId>, m: NodeId)
    requires DistinctIds(vnfs) && i < |vnfs| && m in mid
    requires NodesDebited(before, mid, vnfs[..i], at)
    ensures NodesDebited(before, mid[m := mid[m].Minus(vnfs[i].demand)], vnfs[..i + 1], at[vnfs[i].id := m])
  {
    var after := mid[m := mid[m].Minus(vnfs[i].demand)];
    forall n | n in after
      ensures after[n] == before[n].Minus(LoadOn(vnfs[..i + 1], at[vnfs[i].id := m], n))
    {
      PlaceNext(vnfs, i, at, m, n);
    }
  }

  /** One reservation never takes more than its bandwidth from a link if the route visits
      every link at most once. */
  lemma {:induction false} RouteLoadOnce(links: seq<LinkId>, bandwidth: real, l: LinkId)
    requires forall i, j :: 0 <= i < j < |links| ==> links[i] != links[j]
    ensures RouteLoad(links, bandwidth, l) == if l in links then bandwidth else 0.0
  {
    if links != [] {
      RouteLoadOnce(links[1..], bandwidth, l);
      assert links == [links[0]] + links[1..];
    }
  }
}
