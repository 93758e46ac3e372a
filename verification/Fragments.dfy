/** Splitting a chain by its partition: one fragment per domain, plus the flows that cross. */
module Fragments {
  import opened Types
  import opened Actors
  import opened ChainOrder

  /** The chain positions assigned to domain d, in chain order. */
  function VnfsOf(vnfs: seq<Vnf>, partition: seq<DomainId>, d: DomainId): seq<Vnf>
    requires |vnfs| <= |partition|
  {
    if vnfs == [] then []
    else
      var n := |vnfs| - 1;
      VnfsOf(vnfs[..n], partition, d) + if partition[n] == d then [vnfs[n]] else []
  }

  /** The flows with both ends in domain d; flow i joins positions i and i + 1. */
  function FlowsOf(flows: seq<Flow>, partition: seq<DomainId>, d: DomainId): seq<Flow>
    requires |flows| < |partition| || flows == []
  {
    if flows == [] then []
    else
      var n := |flows| - 1;
      FlowsOf(flows[..n], partition, d) + if partition[n] == d && partition[n + 1] == d then [flows[n]] else []
  }

  /** The flows whose ends lie in different domains. */
  function CrossOf(flows: seq<Flow>, partition: seq<DomainId>): seq<Flow>
    requires |flows| < |partition| || flows == []
  {
    if flows == [] then []
    else
      var n := |flows| - 1;
      CrossOf(flows[..n], partition) + if partition[n] != partition[n + 1] then [flows[n]] else []
  }

  function TierMap(vnfs: seq<Vnf>, tiers: seq<Tier>): (m: map<VnfId, Tier>)
    requires |vnfs| <= |tiers|
    ensures m.Keys == Ids(vnfs)
    ensures DistinctIds(vnfs) ==> forall k :: 0 <= k < |vnfs| ==> m[vnfs[k].id] == tiers[k]
  {
    if vnfs == [] then map[]
    else
      var n := |vnfs| - 1;
      assert vnfs == vnfs[..n] + [vnfs[n]];
      assert Ids(vnfs) == Ids(vnfs[..n]) + {vnfs[n].id} by {
        assert forall j :: 0 <= j < n ==> vnfs[j] == vnfs[..n][j];
      }
      TierMap(vnfs[..n], tiers)[vnfs[n].id := tiers[n]]
  }

  function FragmentOf(req: Request, tiers: seq<Tier>, partition: seq<DomainId>, d: DomainId): Fragment
    requires |req.vnfs| == |partition| == |tiers|
    requires |req.flows| < |partition| || req.flows == []
  {
    Fragment(d, VnfsOf(req.vnfs, partition, d), TierMap(req.vnfs, tiers), FlowsOf(req.flows, partition, d),
             req.maxDelay)
  }

  /** One fragment per domain of the partition. */
  function FragmentsOf(req: Request, tiers: seq<Tier>, partition: seq<DomainId>): map<DomainId, Fragment>
    requires |req.vnfs| == |partition| == |tiers|
    requires |req.flows| < |partition| || req.flows == []
  {
    map d | d in Domains(partition) :: FragmentOf(req, tiers, partition, d)
  }

  lemma {:induction false} VnfsOfMembers(vnfs: seq<Vnf>, partition: seq<DomainId>, d: DomainId)
    requires |vnfs| <= |partition|
    ensures forall k :: 0 <= k < |vnfs| && partition[k] == d ==> vnfs[k] in VnfsOf(vnfs, partition, d)
    ensures forall v :: v in VnfsOf(vnfs, partition, d) ==>
              exists k :: 0 <= k < |vnfs| && partition[k] == d && vnfs[k] == v
  {
    if vnfs != [] {
      var n := |vnfs| - 1;
      var front := VnfsOf(vnfs[..n], partition, d);
      VnfsOfMembers(vnfs[..n], partition, d);
      forall v | v in VnfsOf(vnfs, partition, d)
        ensures exists k :: 0 <= k < |vnfs| && partition[k] == d && vnfs[k] == v
      {
        if v in front {
          var k :| 0 <= k < n && partition[k] == d && vnfs[..n][k] == v;
          assert vnfs[k] == v;
        }
      }
      forall k | 0 <= k < |vnfs| && partition[k] == d ensures vnfs[k] in VnfsOf(vnfs, partition, d) {
        if k < n {
          assert vnfs[..n][k] in front;
        }
      }
    }
  }

  /** Flow f is the i-th flow and both its positions lie in domain d. */
  ghost predicate InsideAt(flows: seq<Flow>, partition: seq<DomainId>, f: Flow, i: int, d: DomainId) {
    0 <= i < |flows| && |flows| < |partition| && flows[i] == f && partition[i] == d && partition[i + 1] == d
  }

  /** A flow belongs to the fragment of d exactly when both its positions are in d. */
  lemma {:induction false} FlowInside(flows: seq<Flow>, partition: seq<DomainId>, d: DomainId, f: Flow)
    requires |flows| < |partition| || flows == []
    ensures f in FlowsOf(flows, partition, d) <==> exists i :: InsideAt(flows, partition, f, i, d)
  {
    if flows != [] {
      var n, front := |flows| - 1, flows[..|flows| - 1];
      FlowInside(front, partition, d, f);
      assert forall i :: InsideAt(front, partition, f, i, d) <==> InsideAt(flows, partition, f, i, d) && i < n;
      assert InsideAt(flows, partition, f, n, d) <==> flows[n] == f && partition[n] == d && partition[n + 1] == d;
    }
  }

  /** Flow f is the i-th flow and its two positions lie in different domains. */
  ghost predicate CrossesAt(flows: seq<Flow>, partition: seq<DomainId>, f: Flow, i: int) {
    0 <= i < |flows| && |flows| < |partition| && flows[i] == f && partition[i] != partition[i + 1]
  }

  /** A flow is handed to the coordinator exactly when its positions lie in two domains. */
  lemma {:induction false} FlowAcross(flows: seq<Flow>, partition: seq<DomainId>, f: Flow)
    requires |flows| < |partition| || flows == []
    ensures f in CrossOf(flows, partition) <==> exists i :: CrossesAt(flows, partition, f, i)
  {
    if flows != [] {
      var n, front := |flows| - 1, flows[..|flows| - 1];
      FlowAcross(front, partition, f);
      assert CrossOf(flows, partition) == CrossOf(front, partition) + if partition[n] != partition[n + 1]
          then [flows[n]] else [];
      hide CrossOf;
      assert forall i :: CrossesAt(front, partition, f, i) <==> CrossesAt(flows, partition, f, i) && i < n;
      assert CrossesAt(flows, partition, f, n) <==> flows[n] == f && partition[n] != partition[n + 1];
    }
  }

  /** As many flows cross domains as the partition has runs, minus one. */
  lemma {:induction false} CrossingFlows(flows: seq<Flow>, partition: seq<DomainId>)
    requires |flows| + 1 == |partition|
    ensures |CrossOf(flows, partition)| == RunCount(partition) - 1
  {
    if flows != [] {
      var n := |flows| - 1;
      CrossOfPrefix(flows[..n], partition, partition[..|partition| - 1]);
      CrossingFlows(flows[..n], partition[..|partition| - 1]);
    }
  }

  lemma {:induction false} CrossOfPrefix(flows: seq<Flow>, p: seq<DomainId>, q: seq<DomainId>)
    requires |flows| < |q| <= |p| && q == p[..|q|]
    ensures CrossOf(flows, p) == CrossOf(flows, q)
  {
    if flows != [] {
      CrossOfPrefix(flows[..|flows| - 1], p, q);
    }
  }

  /** Position of a VNF id in the chain. */
  method FindVnf(vnfs: seq<Vnf>, id: VnfId, ghost k: nat) returns (i: nat)
    requires DistinctIds(vnfs) && k < |vnfs| && vnfs[k].id == id
    ensures i == k
  {
    i := 0;
    while vnfs[i].id != id
      invariant i <= k
      decreases k - i
    {
      i := i + 1;
    }
  }

  /** The value a grouping dictionary holds for a domain. */
  function At<T>(m: map<DomainId, seq<T>>, d: DomainId): seq<T> {
    if d in m then m[d] else []
  }

  lemma GroupVnfStep(vnfs: seq<Vnf>, partition: seq<DomainId>, i: nat)
    requires i < |vnfs| == |partition|
    ensures forall d :: VnfsOf(vnfs[..i + 1], partition, d)
                     == if partition[i] == d then VnfsOf(vnfs[..i], partition, d) + [vnfs[i]]
                        else VnfsOf(vnfs[..i], partition, d)
  {
    assert vnfs[..i + 1][..i] == vnfs[..i];
  }

  method GroupVnfs(vnfs: seq<Vnf>, partition: seq<DomainId>) returns (groups: map<DomainId, seq<Vnf>>)
    requires |vnfs| == |partition|
    ensures forall d :: At(groups, d) == VnfsOf(vnfs, partition, d)
  {
    groups := map[];
    assert forall d :: VnfsOf(vnfs[..0], partition, d) == [];
    hide VnfsOf;
    var i := 0;
    while i < |vnfs|
      invariant 0 <= i <= |vnfs|
      invariant forall d :: At(groups, d) == VnfsOf(vnfs[..i], partition, d)
    {
      var d := partition[i];
      GroupVnfStep(vnfs, partition, i);
      ghost var was := groups;
      groups := groups[d := At(groups, d) + [vnfs[i]]];
      forall e ensures At(groups, e) == VnfsOf(vnfs[..i + 1], partition, e) {
        assert At(was, e) == VnfsOf(vnfs[..i], partition, e);
      }
      i := i + 1;
    }
    assert vnfs[..i] == vnfs;
  }

  lemma GroupStart(flows: seq<Flow>, partition: seq<DomainId>)
    ensures forall d :: FlowsOf(flows[..0], partition, d) == []
    ensures CrossOf(flows[..0], partition) == []
  {}

  lemma GroupStep(flows: seq<Flow>, partition: seq<DomainId>, i: nat)
    requires i < |flows| < |partition|
    ensures forall d :: FlowsOf(flows[..i + 1], partition, d)
                     == if partition[i] == d && partition[i + 1] == d
                         then FlowsOf(flows[..i], partition, d) + [flows[i]]
                        else FlowsOf(flows[..i], partition, d)
    ensures CrossOf(flows[..i + 1], partition)
         == if partition[i] != partition[i + 1] then CrossOf(flows[..i], partition) + [flows[i]]
            else CrossOf(flows[..i], partition)
  {
    assert flows[..i + 1][..i] == flows[..i];
  }

  method GroupFlows(req: Request, partition: seq<DomainId>)
    returns (groups: map<DomainId, seq<Flow>>, cross: seq<Flow>)
    requires req.IsChain() && |req.vnfs| == |partition|
    ensures forall d :: At(groups, d) == FlowsOf(req.flows, partition, d)
    ensures cross == CrossOf(req.flows, partition)
  {
    hide FlowsOf, CrossOf;
    var flows := req.flows;
    GroupStart(flows, partition);
    groups, cross := map[], [];
    var i := 0;
    while i < |flows|
      invariant 0 <= i <= |flows|
      invariant forall d :: At(groups, d) == FlowsOf(flows[..i], partition, d)
      invariant cross == CrossOf(flows[..i], partition)
    {
      var src := FindVnf(req.vnfs, flows[i].src, i);
      var dst := FindVnf(req.vnfs, flows[i].dst, i + 1);
      GroupStep(flows, partition, i);
      if partition[src] == partition[dst] {
        ghost var was := groups;
        groups := groups[partition[src] := At(groups, partition[src]) + [flows[i]]];
        forall d ensures At(groups, d) == FlowsOf(flows[..i + 1], partition, d) {
          assert At(was, d) == FlowsOf(flows[..i], partition, d);
        }
      } else {
        cross := cross + [flows[i]];
      }
      i := i + 1;
    }
    assert flows[..i] == flows;
  }

  /** Position k holds this VNF and lies in domain d. */
  ghost predicate HeldAt(vnfs: seq<Vnf>, partition: seq<DomainId>, v: Vnf, k: int, d: DomainId) {
    0 <= k < |vnfs| && |vnfs| <= |partition| && vnfs[k] == v && partition[k] == d
  }

  /** What belongs to a domain: its VNFs in chain order, each with the tier planned for its
      position, the flows inside it, and the whole delay budget. */
  ghost predicate CutFrom(req: Request, tiers: seq<Tier>, partition: seq<DomainId>, d: DomainId, frag: Fragment)
    requires |req.vnfs| == |partition| == |tiers|
  {
    && frag.domain == d && frag.delayBudget == req.maxDelay
    && (forall v :: v in frag.vnfs <==> exists k :: HeldAt(req.vnfs, partition, v, k, d))
    && KeepsOrder(req.vnfs, frag.vnfs)
    && (forall k :: 0 <= k < |req.vnfs| ==> req.vnfs[k].id in frag.tier && frag.tier[req.vnfs[k].id] == tiers[k])
    && (forall f :: f in frag.flows <==> exists i :: InsideAt(req.flows, partition, f, i, d))
  }

  /** Of two VNFs the one earlier in the chain comes first. */
  ghost predicate KeepsOrder(vnfs: seq<Vnf>, part: seq<Vnf>) {
    forall i, j :: 0 <= i < j < |part| ==> PlannedBefore(vnfs, part[i], part[j])
  }

  ghost predicate PlannedBefore(vnfs: seq<Vnf>, a: Vnf, b: Vnf) {
    exists i, j :: 0 <= i < j < |vnfs| && vnfs[i] == a && vnfs[j] == b
  }

  lemma {:induction false} VnfsOfInOrder(vnfs: seq<Vnf>, partition: seq<DomainId>, d: DomainId)
    requires |vnfs| <= |partition|
    ensures KeepsOrder(vnfs, VnfsOf(vnfs, partition, d))
  {
    if vnfs != [] {
      var n, front := |vnfs| - 1, vnfs[..|vnfs| - 1];
      var r, fr := VnfsOf(vnfs, partition, d), VnfsOf(front, partition, d);
      VnfsOfInOrder(front, partition, d);
      VnfsOfMembers(front, partition, d);
      assert forall i :: 0 <= i < |fr| ==> r[i] == fr[i];
      forall i, j | 0 <= i < j < |r| ensures PlannedBefore(vnfs, r[i], r[j]) {
        if j < |fr| {
          assert PlannedBefore(front, fr[i], fr[j]);
          var a, b :| 0 <= a < b < |front| && front[a] == r[i] && front[b] == r[j];
          assert vnfs[a] == r[i] && vnfs[b] == r[j];
        } else {
          assert fr[i] in fr;
          var a :| 0 <= a < n && partition[a] == d && front[a] == r[i];
          assert vnfs[a] == r[i] && vnfs[n] == r[j];
        }
      }
    }
  }

  lemma FragmentMeans(req: Request, tiers: seq<Tier>, partition: seq<DomainId>, d: DomainId)
    requires req.IsChain() && |req.vnfs| == |partition| == |tiers|
    ensures CutFrom(req, tiers, partition, d, FragmentOf(req, tiers, partition, d))
  {
    var frag := FragmentOf(req, tiers, partition, d);
    VnfsOfMembers(req.vnfs, partition, d);
    VnfsOfInOrder(req.vnfs, partition, d);
    forall f ensures f in frag.flows <==> exists i :: InsideAt(req.flows, partition, f, i, d) {
      FlowInside(req.flows, partition, d, f);
    }
    hide VnfsOf, FlowsOf, InsideAt, KeepsOrder;
    forall v ensures v in frag.vnfs <==> exists k :: HeldAt(req.vnfs, partition, v, k, d) {
      if v in frag.vnfs {
        var k :| 0 <= k < |req.vnfs| && partition[k] == d && req.vnfs[k] == v;
        assert HeldAt(req.vnfs, partition, v, k, d);
      }
      if exists k :: HeldAt(req.vnfs, partition, v, k, d) {
        var k :| HeldAt(req.vnfs, partition, v, k, d);
        assert req.vnfs[k] in frag.vnfs;
      }
    }
  }

  method BuildFragments(req: Request, tiers: seq<Tier>, partition: seq<DomainId>)
    returns (fragments: map<DomainId, Fragment>, cross: seq<Flow>)
    requires req.IsChain() && |req.vnfs| == |partition| == |tiers|
    ensures fragments == FragmentsOf(req, tiers, partition)
    ensures cross == CrossOf(req.flows, partition)
    ensures forall d :: d in fragments ==> CutFrom(req, tiers, partition, d, fragments[d])
    ensures forall f :: f in cross <==> exists i :: CrossesAt(req.flows, partition, f, i)
  {
    forall d ensures CutFrom(req, tiers, partition, d, FragmentOf(req, tiers, partition, d)) {
      FragmentMeans(req, tiers, partition, d);
    }
    forall f ensures f in CrossOf(req.flows, partition) <==> exists i :: CrossesAt(req.flows, partition, f, i) {
      FlowAcross(req.flows, partition, f);
    }
    hide CutFrom, CrossesAt;
    var vnfGroups := GroupVnfs(req.vnfs, partition);
    var flowGroups;
    flowGroups, cross := GroupFlows(req, partition);
    fragments := map d | d in Domains(partition) ::
      Fragment(d, At(vnfGroups, d), TierMap(req.vnfs, tiers), At(flowGroups, d), req.maxDelay);
  }

  lemma {:induction false} VnfsOfOrder(vnfs: seq<Vnf>, partition: seq<DomainId>, d: DomainId, k: nat)
    requires |vnfs| <= |partition| && k < |vnfs| && partition[k] == d
    ensures |VnfsOf(vnfs[..k], partition, d)| < |VnfsOf(vnfs, partition, d)|
    ensures VnfsOf(vnfs, partition, d)[|VnfsOf(vnfs[..k], partition, d)|] == vnfs[k]
  {
    var n := |vnfs| - 1;
    if k < n {
      VnfsOfOrder(vnfs[..n], partition, d, k);
      assert vnfs[..n][..k] == vnfs[..k];
    }
  }

  lemma {:induction false} VnfsOfDistinct(vnfs: seq<Vnf>, partition: seq<DomainId>, d: DomainId)
    requires |vnfs| <= |partition| && DistinctIds(vnfs)
    ensures DistinctIds(VnfsOf(vnfs, partition, d))
  {
    if vnfs != [] {
      var n := |vnfs| - 1;
      VnfsOfDistinct(vnfs[..n], partition, d);
      VnfsOfMembers(vnfs[..n], partition, d);
      var front := VnfsOf(vnfs[..n], partition, d);
      forall j | 0 <= j < |front| ensures front[j].id != vnfs[n].id {
        assert front[j] in front;
      }
    }
  }

  ghost predicate DistinctTargets(flows: seq<Flow>) {
    forall i, j :: 0 <= i < j < |flows| ==> flows[i].dst != flows[j].dst
  }

  lemma {:induction false} FlowsOfDistinct(flows: seq<Flow>, partition: seq<DomainId>, d: DomainId)
    requires |flows| < |partition| || flows == []
    requires DistinctTargets(flows)
    ensures DistinctTargets(FlowsOf(flows, partition, d)) && DistinctTargets(CrossOf(flows, partition))
  {
    if flows != [] {
      var n := |flows| - 1;
      FlowsOfDistinct(flows[..n], partition, d);
      assert flows == flows[..n] + [flows[n]];
      forall g: Flow ensures g in FlowsOf(flows[..n], partition, d) || g in CrossOf(flows[..n], partition) ==>
            g in flows[..n] {
        FlowInside(flows[..n], partition, d, g);
        FlowAcross(flows[..n], partition, g);
      }
      OneMoreTarget(FlowsOf(flows[..n], partition, d), flows[n], flows[..n]);
      OneMoreTarget(CrossOf(flows[..n], partition), flows[n], flows[..n]);
      hide DistinctTargets;
    }
  }

  lemma OneMoreTarget(some: seq<Flow>, f: Flow, earlier: seq<Flow>)
    requires DistinctTargets(some) && DistinctTargets(earlier + [f])
    requires forall g :: g in some ==> g in earlier
    ensures DistinctTargets(some + [f])
  {
    forall i | 0 <= i < |some| ensures some[i].dst != f.dst {
      assert some[i] in earlier;
      var j :| 0 <= j < |earlier| && earlier[j] == some[i];
      assert (earlier + [f])[j] == some[i] && (earlier + [f])[|earlier|] == f;
    }
  }

  lemma ChainTargets(req: Request)
    requires req.IsChain()
    ensures DistinctTargets(req.flows)
  {
    forall i, j | 0 <= i < j < |req.flows| ensures req.flows[i].dst != req.flows[j].dst {
      assert req.flows[i].dst == req.vnfs[i + 1].id && req.flows[j].dst == req.vnfs[j + 1].id;
    }
  }

  /** Every fragment of a chain is what the actors require. */
  lemma FragmentWellFormed(req: Request, tiers: seq<Tier>, partition: seq<DomainId>, d: DomainId)
    requires req.IsChain() && |req.vnfs| == |partition| == |tiers|
    ensures FragmentOf(req, tiers, partition, d).WellFormed()
  {
    var frag := FragmentOf(req, tiers, partition, d);
    VnfsOfDistinct(req.vnfs, partition, d);
    VnfsOfMembers(req.vnfs, partition, d);
    forall k | 0 <= k < |frag.vnfs| ensures frag.vnfs[k].demand.Covers(ZERO) && frag.vnfs[k].id in frag.tier {
      assert frag.vnfs[k] in frag.vnfs;
    }
    ChainTargets(req);
    FlowsOfDistinct(req.flows, partition, d);
    forall f | f in frag.flows ensures f.bandwidth >= 0.0 && frag.Joins(f) {
      FlowInside(req.flows, partition, d, f);
      var i :| InsideAt(req.flows, partition, f, i, d);
      FlowJoins(req, tiers, partition, d, i);
    }
  }

  lemma FlowJoins(req: Request, tiers: seq<Tier>, partition: seq<DomainId>, d: DomainId, i: nat)
    requires req.IsChain() && |req.vnfs| == |partition| == |tiers|
    requires i < |req.flows| && partition[i] == d && partition[i + 1] == d
    ensures FragmentOf(req, tiers, partition, d).Joins(req.flows[i])
  {
    var vnfs := req.vnfs;
    var a, b := |VnfsOf(vnfs[..i], partition, d)|, |VnfsOf(vnfs[..i + 1], partition, d)|;
    VnfsOfOrder(vnfs, partition, d, i);
    VnfsOfOrder(vnfs, partition, d, i + 1);
    assert vnfs[..i + 1][..i] == vnfs[..i];
    assert a < b;
  }
}
