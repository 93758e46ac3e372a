/** Entities of the slice-embedding problem. Identifiers are natural numbers; their
    order is the order the program uses to break ties between identifiers. */
module Types {
  type NodeId = nat
  type LinkId = nat
  type VnfId = nat
  type DomainId = int
  type RequestId = nat
  type FlowKey = (VnfId, VnfId)

  datatype Option<+T> = None | Some(value: T)

  datatype Tier = Edge | RegionalCloud | CentralCloud

  /** A pair of node resources: CPU and RAM, exact numbers instead of floats. */
  datatype Amount = Amount(cpu: real, ram: real) {
    function Plus(other: Amount): Amount {
      Amount(cpu + other.cpu, ram + other.ram)
    }

    function Minus(other: Amount): Amount {
      Amount(cpu - other.cpu, ram - other.ram)
    }

    predicate Covers(demand: Amount) {
      cpu >= demand.cpu && ram >= demand.ram
    }
  }

  const ZERO := Amount(0.0, 0.0)

  datatype Vnf = Vnf(id: VnfId, kind: nat, demand: Amount, permitted: seq<NodeId>, intensity: real, vcr: real)

  datatype Flow = Flow(src: VnfId, dst: VnfId, bandwidth: real) {
    function Key(): FlowKey { (src, dst) }
  }

  datatype Request = Request(id: RequestId, sliceType: nat, vnfs: seq<Vnf>, flows: seq<Flow>,
                             maxDelay: real, minThroughput: real)
  {
    /** The shape every generated chain has: distinct VNF ids, non-negative demands, and
        exactly the flows between consecutive VNFs, in chain order. */
    ghost predicate IsChain() {
      && DistinctIds(vnfs)
      && (forall k :: 0 <= k < |vnfs| ==> vnfs[k].demand.Covers(ZERO))
      && |flows| == (if |vnfs| == 0 then 0 else |vnfs| - 1)
      && (forall i :: 0 <= i < |flows| ==>
            flows[i].src == vnfs[i].id && flows[i].dst == vnfs[i + 1].id && flows[i].bandwidth >= 0.0)
    }
  }

  ghost predicate DistinctIds(vnfs: seq<Vnf>) {
    forall i, j :: 0 <= i < j < |vnfs| ==> vnfs[i].id != vnfs[j].id
  }

  function Ids(vnfs: seq<Vnf>): set<VnfId> {
    set i | 0 <= i < |vnfs| :: vnfs[i].id
  }

  datatype NodeAttr = NodeAttr(domain: DomainId, tier: Tier, capacity: Amount, delay: real)

  /** `inter` is the stored link type: between two domains, or inside one. */
  datatype Link = Link(id: LinkId, src: NodeId, dst: NodeId, capacity: real, delay: real, inter: bool)

  /** The immutable part of the substrate: node and link attributes, the iteration order of
      nodes and links, and the shortest-simple-path search of the graph library as an oracle
      over a set of allowed links. */
  datatype Topology = Topology(
    attr: map<NodeId, NodeAttr>, order: seq<NodeId>,
    links: seq<Link>, linkAt: map<(NodeId, NodeId), nat>,
    simplePaths: (set<nat>, NodeId, NodeId) -> seq<seq<NodeId>>)
  {
    ghost predicate Valid() {
      && (forall i, j :: 0 <= i < j < |order| ==> order[i] != order[j])
      && (forall n :: n in order <==> n in attr)
      && (forall e :: 0 <= e < |links| ==>
            && links[e].src in attr && links[e].dst in attr
            && (links[e].src, links[e].dst) in linkAt
            && linkAt[(links[e].src, links[e].dst)] == e)
      && (forall p :: p in linkAt ==>
            linkAt[p] < |links| && links[linkAt[p]].src == p.0 && links[linkAt[p]].dst == p.1)
      && (forall i, j :: 0 <= i < j < |links| ==> links[i].id != links[j].id)
      && (forall allowed, s, t, p :: p in simplePaths(allowed, s, t) ==> SimplePath(allowed, p, s, t))
    }

    function LinkIndex(u: NodeId, v: NodeId): nat {
      if (u, v) in linkAt then linkAt[(u, v)] else 0
    }

    ghost predicate SimplePath(allowed: set<nat>, p: seq<NodeId>, s: NodeId, t: NodeId) {
      && |p| > 0 && p[0] == s && p[|p| - 1] == t
      && (forall i, j :: 0 <= i < j < |p| ==> p[i] != p[j])
      && (forall i :: 0 <= i < |p| - 1 ==>
            (p[i], p[i + 1]) in linkAt && LinkIndex(p[i], p[i + 1]) in allowed)
    }

    function DomainOf(n: NodeId): DomainId {
      if n in attr then attr[n].domain else -1
    }

    function NodesInDomain(d: DomainId): (r: seq<NodeId>)
      ensures forall n :: n in r <==> n in order && DomainOf(n) == d
    {
      FilterDomain(order, d)
    }

    function FilterDomain(ns: seq<NodeId>, d: DomainId): (r: seq<NodeId>)
      ensures forall n :: n in r <==> n in ns && DomainOf(n) == d
    {
      if ns == [] then []
      else (if DomainOf(ns[0]) == d then [ns[0]] else []) + FilterDomain(ns[1..], d)
    }

    /** The links of the subgraph induced by one domain. */
    function DomainLinks(d: DomainId): set<nat> {
      set e | 0 <= e < |links| && DomainOf(links[e].src) == d && DomainOf(links[e].dst) == d
    }

    function AllLinks(): set<nat> {
      linkAt.Values
    }
  }
}
