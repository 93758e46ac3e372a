/** One whole arrival: observe, let the post-decode guard repair the authored partition, then
    run the admission transaction on what the guard returned. */
module GuardedArrival {
  import opened Types
  import opened Substrate
  import opened Routing
  import opened Actors
  import opened ChainOrder
  import opened DelayAccounting
  import opened Dispatch
  import opened Observation
  import opened Admissibility
  import opened Builders
  import opened Coordinator
  import opened Fragments
  import opened GuardSoundness

  /** The guard ran and had something committable to choose. */
  ghost predicate Repairable(v: View, authored: seq<DomainId>, budget: nat) {
    Searchable(v, authored, budget) && exists c :: Committable(v, c)
  }

  /** One VNF per domain, whole-tier permissions, and a greedy actor in every domain used. */
  ghost predicate EasyDispatch(v: View, partition: seq<DomainId>, actors: map<DomainId, Actor>) {
    && (forall i, j :: 0 <= i < j < |partition| ==> partition[i] != partition[j])
    && (forall k :: 0 <= k < |v.vnfs| && k < |partition| ==> WholeTiersIn(v.topo, v.vnfs[k], partition[k]))
    && forall d :: d in Domains(partition) ==> d in actors && actors[d].Greedy?
  }

  method Arrive(sub: SubstrateNetwork, req: Request, tiers: seq<Tier>, authored: seq<DomainId>,
                actors: map<DomainId, Actor>, cfg: Config, guard: bool, budget: nat, numDomains: nat, stats: GuardStats)
    returns (v: View, partition: seq<DomainId>, res: Result)
    requires sub.Valid() && sub.NonNegative()
    requires req.IsChain() && |req.vnfs| == |authored| == |tiers|
    requires forall d :: d in actors ==> actors[d].Valid()
    modifies sub`node, sub`bw, stats
    ensures sub.Valid() && |partition| == |authored|
    ensures v == View(sub.topo, v.summaries, req.vnfs)
    ensures ValidSummaries(sub.topo, old(sub.node), numDomains, v.summaries)
    ensures if guard then Repaired(v, authored, budget, partition) else partition == authored
    ensures res.outcome != FrameCheckFailed ==> sub.node == old(sub.node) && sub.bw == old(sub.bw)
    ensures res.outcome.Commit? <==> Accepted(req, partition, cfg, res.attempt)
                                     && Framed(sub.topo, req, tiers, partition, cfg.nodeBasedMask)
    ensures res.outcome.Reject? <==> !Accepted(req, partition, cfg, res.attempt)
    ensures res.outcome.Commit? ==>
              Committed(sub.topo, req, tiers, partition, cfg, old(sub.node), old(sub.bw), res.attempt, res.e2e)
    ensures if cfg.chainOrder && !NoReentry(partition) then res == Result(Reject, NoAttempt(), 0.0)
            else Attempted(sub.topo, req, tiers, partition, actors, cfg.crossSelector, old(sub.node), old(sub.bw),
                           res.attempt)
                 && res.e2e == DelaySum(res.attempt.responses) + res.attempt.crossDelay
    ensures guard && Repairable(v, authored, budget) ==> IsContiguous(partition)
    ensures guard && Repairable(v, authored, budget) && EasyDispatch(v, partition, actors) ==>
              AnsweredBy(res.attempt.responses) == Domains(partition) && res.attempt.AllFeasible()
  {
    hide Topology.Valid, Repaired, Committed, Framed, Committable, EasyDispatch, Attempted, Searchable, StillDebited,
         IsContiguous, Accepted, DelaySum, NoReentry;
    var summaries := BuildDomainSummaries(sub, numDomains);
    v := View(sub.topo, summaries, req.vnfs);
    partition := authored;
    if guard {
      partition := MinimalCommittablePartition(v, authored, budget, stats);
    }
    res := ResolveArrival(sub, req, tiers, partition, actors, cfg);
    if guard && Repairable(v, authored, budget) {
      var idx := RepairedIsCommittable(v, authored, budget, partition);
      ContiguousIffNoReentry(partition);
      SinglesAttempted(v, idx, req, tiers, partition, old(sub.node), old(sub.bw), actors, cfg.crossSelector,
                       res.attempt);
    }
  }

  lemma RepairedIsCommittable(v: View, authored: seq<DomainId>, budget: nat, r: seq<DomainId>) returns (idx: seq<nat>)
    requires v.Valid() && Repaired(v, authored, budget, r) && Repairable(v, authored, budget)
    ensures Committable(v, idx) && r == DomainIds(v.summaries, idx) && IsContiguous(r)
  {
    idx :| Nearest(v, Indices(v.summaries, authored), idx) && r == DomainIds(v.summaries, idx);
    SameContiguity(v, idx);
  }

  lemma CommittableIsContiguous(v: View, idx: seq<nat>)
    requires Committable(v, idx)
    ensures Assignment(v, idx) && IsContiguous(idx) && forall k :: 0 <= k < |idx| ==> v.Admissible(k, idx[k])
  {}

  lemma SinglesAttempted(v: View, idx: seq<nat>, req: Request, tiers: seq<Tier>, partition: seq<DomainId>,
                         node: map<NodeId, Amount>, bw: seq<real>, actors: map<DomainId, Actor>, sel: Selector,
                         a: Attempt)
    requires v.topo.Valid() && v.Valid() && node.Keys == v.topo.attr.Keys
    requires forall m :: 0 <= m < |v.summaries| ==> Summarises(v.topo, node, v.summaries[m])
    requires req.IsChain() && req.vnfs == v.vnfs && |tiers| == |v.vnfs| == |partition|
    requires Committable(v, idx) && partition == DomainIds(v.summaries, idx)
    requires Attempted(v.topo, req, tiers, partition, actors, sel, node, bw, a)
    ensures EasyDispatch(v, partition, actors) ==> AnsweredBy(a.responses) == Domains(partition) && a.AllFeasible()
  {
    hide Topology.Valid, Summarises, Committable, AllExplained, EasyDispatch, CrossStuck, CrossRouted, CrossByRule,
         FragmentOf, OnePerDomain;
    SinglesAccepted(v, idx, req, tiers, partition, node, bw, actors, a.responses);
  }

  lemma SinglesAccepted(v: View, idx: seq<nat>, req: Request, tiers: seq<Tier>, partition: seq<DomainId>,
                        node: map<NodeId, Amount>, bw: seq<real>, actors: map<DomainId, Actor>, rs: seq<Response>)
    requires v.topo.Valid() && v.Valid() && node.Keys == v.topo.attr.Keys
    requires forall m :: 0 <= m < |v.summaries| ==> Summarises(v.topo, node, v.summaries[m])
    requires req.IsChain() && req.vnfs == v.vnfs && |tiers| == |v.vnfs|
    requires Committable(v, idx) && partition == DomainIds(v.summaries, idx)
    requires AllExplained(v.topo, actors, FragmentsOf(req, tiers, partition), node, bw, rs)
    ensures EasyDispatch(v, partition, actors) ==> forall i :: 0 <= i < |rs| ==> rs[i].feasible
  {
    hide Topology.Valid, Summarises, Committable, AllExplained, WholeTiersIn, View.Admissible;
    CommittableIsContiguous(v, idx);
    if EasyDispatch(v, partition, actors) {
      forall i, j | 0 <= i < j < |idx| ensures idx[i] != idx[j] {
        assert partition[i] != partition[j];
      }
      AdmissibleNeverRefused(v, idx, req, tiers, node, bw, actors, rs);
    }
  }
}
