/** Dispatching the fragments to the domain actors, and what the collected responses mean for
    the residuals. */
module Dispatch {
  import opened Types
  import opened OrderedDict
  import opened Ledger
  import opened Substrate
  import opened Routing
  import opened Actors
  import opened Fragments
  import opened ChainOrder
  import opened AnyOrder
  import opened Locality
  import GreedyActor
  import DomainActor

  /** The actor registered for a domain: the deterministic one or a learned one. */
  datatype Actor =
    | Greedy(kPaths: nat, selector: Selector)
    | Learned(policy: DomainActor.Policy, kPaths: nat, selector: Selector, costAlpha: real, costGamma: real)
  {
    ghost predicate Valid() {
      Learned? ==> DomainActor.RespectsMask(policy)
    }
  }

  method Act(actor: Actor, sub: SubstrateNetwork, frag: Fragment) returns (r: Response)
    requires actor.Valid() && sub.Valid() && sub.NonNegative() && frag.WellFormed()
    modifies sub`node, sub`bw
    ensures sub.Valid()
    ensures ActContract(sub.topo, frag, old(sub.node), old(sub.bw), sub.node, sub.bw, r)
    ensures r.domain == frag.domain && Answers(sub.topo, actor, frag, old(sub.node), old(sub.bw), r)
  {
    hide GreedyActor.RefusalJustified, DomainActor.RefusalCaused, GreedyActor.FollowsBothRules,
         DomainActor.PlacedByPolicy;
    match actor
    case Greedy(k, sel) => r := GreedyActor.Act(sub, frag, k, sel);
    case Learned(policy, k, sel, alpha, gamma) => r := DomainActor.Act(sub, frag, policy, k, sel, alpha, gamma);
  }

  /** The response is the actor's answer at these residuals: nodes and routes by its rules when it
      accepts, a cause when it refuses. */
  ghost predicate Answers(topo: Topology, actor: Actor, frag: Fragment, node: map<NodeId, Amount>, bw: seq<real>,
                          r: Response)
  {
    match actor
    case Greedy(k, sel) => GreedyAnswer(topo, frag, node, bw, k, sel, r)
    case Learned(policy, k, sel, _, _) => LearnedAnswer(topo, frag, policy, node, bw, k, sel, r)
  }

  lemma AnswerOrReason(topo: Topology, actor: Actor, frag: Fragment, node: map<NodeId, Amount>, bw: seq<real>,
                       r: Response)
    requires Answers(topo, actor, frag, node, bw, r)
    ensures r.feasible <==> !HasReason(topo, actor, frag, node, bw)
  {
    hide GreedyActor.RefusalJustified, DomainActor.RefusalCaused, GreedyActor.FollowsBothRules,
         DomainActor.PlacedByPolicy;
    if r.feasible {
      match actor
      case Greedy(k, sel) => GreedyActor.ByRulesOrRefused(topo, frag, node, bw, k, sel, r.placements, r.routes);
      case Learned(policy, k, sel, _, _) =>
        DomainActor.PlacedOrRefused(topo, frag, policy, node, bw, k, sel, r.placements, r.routes);
    }
  }

  lemma AnswersSame(topo: Topology, actor: Actor, frag: Fragment, a: map<NodeId, Amount>, b: map<NodeId, Amount>,
                    bwA: seq<real>, bwB: seq<real>, r: Response)
    requires topo.Valid() && SameInDomain(topo, frag.domain, a, b) && SameInside(topo, frag.domain, bwA, bwB)
    requires Answers(topo, actor, frag, a, bwA, r)
    ensures Answers(topo, actor, frag, b, bwB, r)
  {
    hide Topology.Valid, SameInDomain, SameInside, GreedyAnswer, LearnedAnswer;
    match actor
    case Greedy(k, sel) => GreedyAnswerSame(topo, frag, a, b, bwA, bwB, k, sel, r);
    case Learned(policy, k, sel, _, _) => LearnedAnswerSame(topo, frag, policy, a, b, bwA, bwB, k, sel, r);
  }

  /** The actor has a reason to refuse the fragment at these residuals. */
  ghost predicate HasReason(topo: Topology, actor: Actor, frag: Fragment, node: map<NodeId, Amount>, bw: seq<real>) {
    match actor
    case Greedy(k, sel) => GreedyActor.RefusalJustified(topo, frag, node, bw, k, sel)
    case Learned(policy, k, sel, _, _) => DomainActor.RefusalCaused(topo, frag, policy, node, bw, k, sel)
  }

  /** Demand that all responses together placed on node n. */
  function PlacedOn(fragments: map<DomainId, Fragment>, rs: seq<Response>, n: NodeId): Amount {
    if rs == [] then ZERO
    else
      var r := rs[|rs| - 1];
      PlacedOn(fragments, rs[..|rs| - 1], n).Plus(
        if r.domain in fragments then LoadOn(fragments[r.domain].vnfs, r.placements, n) else ZERO)
  }

  /** All intra-domain reservations, response by response. */
  function AllReservations(rs: seq<Response>): seq<Reservation> {
    if rs == [] then [] else AllReservations(rs[..|rs| - 1]) + rs[|rs| - 1].Reservations()
  }

  /** The placements of all responses merged into one dictionary. */
  function Merged(rs: seq<Response>): map<VnfId, NodeId> {
    if rs == [] then map[] else Merged(rs[..|rs| - 1]) + rs[|rs| - 1].placements
  }

  /** A response that is consistent with its fragment, whatever the residuals. */
  ghost predicate ResponseOk(topo: Topology, frag: Fragment, r: Response) {
    && r.domain == frag.domain
    && if r.feasible then
         && AllPlaced(topo, frag.domain, frag.vnfs, r.placements)
         && AllServed(topo, topo.DomainLinks(frag.domain), frag.flows, r.placements, r.routes, r.bwAllocated)
         && r.intraDelay == ProcessingDelay(topo, frag.vnfs, r.placements) + ReservedDelay(topo, r.Reservations())
       else r.placements == map[] && r.routes == map[] && r.bwAllocated == []
  }

  ghost predicate OnePerDomain(topo: Topology, fragments: map<DomainId, Fragment>, rs: seq<Response>) {
    && (forall i, j :: 0 <= i < j < |rs| ==> rs[i].domain != rs[j].domain)
    && (forall i :: 0 <= i < |rs| ==> rs[i].domain in fragments && ResponseOk(topo, fragments[rs[i].domain], rs[i]))
  }

  ghost predicate NodesAfter(fragments: map<DomainId, Fragment>, rs: seq<Response>,
                             node0: map<NodeId, Amount>, node: map<NodeId, Amount>)
  {
    && node.Keys == node0.Keys
    && forall n :: n in node ==> node[n] == node0[n].Minus(PlacedOn(fragments, rs, n))
  }

  /** The state after some actors have answered: residuals are the originals minus exactly
      what the responses record. */
  ghost predicate Dispatched(topo: Topology, fragments: map<DomainId, Fragment>, rs: seq<Response>,
                             node0: map<NodeId, Amount>, bw0: seq<real>, node: map<NodeId, Amount>, bw: seq<real>)
  {
    && OnePerDomain(topo, fragments, rs)
    && NodesAfter(fragments, rs, node0, node) && NodesNonNegative(node)
    && LinkLedger(topo, bw0, bw, AllReservations(rs))
  }

  lemma DispatchedNext(topo: Topology, fragments: map<DomainId, Fragment>, rs: seq<Response>,
                       node0: map<NodeId, Amount>, bw0: seq<real>, node1: map<NodeId, Amount>, bw1: seq<real>,
                       node2: map<NodeId, Amount>, bw2: seq<real>, r: Response)
    requires forall d :: d in fragments ==> fragments[d].domain == d
    requires Dispatched(topo, fragments, rs, node0, bw0, node1, bw1)
    requires r.domain in fragments && forall i :: 0 <= i < |rs| ==> rs[i].domain != r.domain
    requires ActContract(topo, fragments[r.domain], node1, bw1, node2, bw2, r)
    ensures Dispatched(topo, fragments, rs + [r], node0, bw0, node2, bw2)
  {
    hide LinksDebited, AllPlaced, AllServed, LoadOn;
    assert (rs + [r])[..|rs|] == rs;
    NodesAfterNext(fragments, rs, node0, node1, node2, r);
    if r.feasible {
      DebitsCompose(topo, bw0, bw1, bw2, AllReservations(rs), r.Reservations());
    } else {
      assert r.Reservations() == [];
      assert AllReservations(rs + [r]) == AllReservations(rs);
    }
  }

  lemma NodesAfterNext(fragments: map<DomainId, Fragment>, rs: seq<Response>, node0: map<NodeId, Amount>,
                       node1: map<NodeId, Amount>, node2: map<NodeId, Amount>, r: Response)
    requires NodesAfter(fragments, rs, node0, node1) && r.domain in fragments
    requires if r.feasible then NodesDebited(node1, node2, fragments[r.domain].vnfs, r.placements)
             else node2 == node1 && r.placements == map[]
    ensures NodesAfter(fragments, rs + [r], node0, node2)
  {
    hide LoadOn;
    assert (rs + [r])[..|rs|] == rs;
    forall n | n in node2 ensures node2[n] == node0[n].Minus(PlacedOn(fragments, rs + [r], n)) {
      if !r.feasible {
        LoadElsewhere(fragments[r.domain].vnfs, r.placements, n);
      }
    }
  }

  lemma DispatchedNone(topo: Topology, fragments: map<DomainId, Fragment>, node: map<NodeId, Amount>, bw: seq<real>)
    requires NodesNonNegative(node) && LinksNonNegative(bw) && |bw| == |topo.links|
    ensures Dispatched(topo, fragments, [], node, bw, node, bw)
  {}

  function AnsweredBy(rs: seq<Response>): set<DomainId> {
    set i | 0 <= i < |rs| :: rs[i].domain
  }

  lemma AnsweredNext(rs: seq<Response>, r: Response)
    ensures AnsweredBy(rs + [r]) == AnsweredBy(rs) + {r.domain}
    ensures r.domain !in AnsweredBy(rs) ==> forall i :: 0 <= i < |rs| ==> rs[i].domain != r.domain
  {
    assert (rs + [r])[|rs|] == r;
    assert forall i :: 0 <= i < |rs| ==> (rs + [r])[i] == rs[i];
  }

  /** A domain without an actor refuses. Any other domain's response is its actor's answer at the
      residuals before the dispatch: accepted exactly when there is no reason to refuse, whatever
      the other actors did in between. */
  ghost predicate Explained(topo: Topology, actors: map<DomainId, Actor>, frag: Fragment, node0: map<NodeId, Amount>,
                            bw0: seq<real>, r: Response)
  {
    if r.domain !in actors then !r.feasible
    else
      && Answers(topo, actors[r.domain], frag, node0, bw0, r)
      && (r.feasible <==> !HasReason(topo, actors[r.domain], frag, node0, bw0))
  }

  ghost predicate AllExplained(topo: Topology, actors: map<DomainId, Actor>, fragments: map<DomainId, Fragment>,
                               node0: map<NodeId, Amount>, bw0: seq<real>, rs: seq<Response>)
  {
    forall i :: 0 <= i < |rs| ==>
      rs[i].domain in fragments && Explained(topo, actors, fragments[rs[i].domain], node0, bw0, rs[i])
  }

  lemma ExplainedNext(topo: Topology, actors: map<DomainId, Actor>, fragments: map<DomainId, Fragment>,
                      node0: map<NodeId, Amount>, bw0: seq<real>, node1: map<NodeId, Amount>, bw1: seq<real>,
                      rs: seq<Response>, r: Response)
    requires topo.Valid() && forall d :: d in fragments ==> fragments[d].domain == d
    requires AllExplained(topo, actors, fragments, node0, bw0, rs)
    requires Dispatched(topo, fragments, rs, node0, bw0, node1, bw1)
    requires r.domain in fragments && r.domain !in AnsweredBy(rs)
    requires if r.domain !in actors then !r.feasible
             else Answers(topo, actors[r.domain], fragments[r.domain], node1, bw1, r)
    ensures AllExplained(topo, actors, fragments, node0, bw0, rs + [r])
  {
    OwnNodesUntouched(topo, fragments, rs, node0, node1, r.domain);
    OwnLinksUntouched(topo, fragments, rs, bw0, bw1, r.domain);
    hide Topology.Valid, HasReason, Answers, Dispatched, SameInDomain, SameInside;
    if r.domain in actors {
      var d, frag := r.domain, fragments[r.domain];
      AnswersSame(topo, actors[d], frag, node1, node0, bw1, bw0, r);
      AnswerOrReason(topo, actors[d], frag, node0, bw0, r);
    }
  }

  lemma OwnNodesUntouched(topo: Topology, fragments: map<DomainId, Fragment>, rs: seq<Response>,
                          node0: map<NodeId, Amount>, node1: map<NodeId, Amount>, d: DomainId)
    requires forall d :: d in fragments ==> fragments[d].domain == d
    requires OnePerDomain(topo, fragments, rs) && NodesAfter(fragments, rs, node0, node1) && d !in AnsweredBy(rs)
    ensures SameInDomain(topo, d, node1, node0)
  {
    hide OnePerDomain;
    forall n | n in node0 && topo.DomainOf(n) == d ensures node1[n] == node0[n] {
      NobodyPlaced(topo, fragments, rs, n);
    }
  }

  /** Routes inside one domain take nothing from the links inside another. */
  lemma OwnLinksUntouched(topo: Topology, fragments: map<DomainId, Fragment>, rs: seq<Response>, bw0: seq<real>,
                          bw1: seq<real>, d: DomainId)
    requires topo.Valid() && forall d :: d in fragments ==> fragments[d].domain == d
    requires OnePerDomain(topo, fragments, rs) && LinksDebited(topo, bw0, bw1, AllReservations(rs))
    requires d !in AnsweredBy(rs)
    ensures SameInside(topo, d, bw1, bw0)
  {
    InsideIsAllowed(topo, d, bw1, bw0);
    hide OnePerDomain, Topology.Valid, ReservedOn, InsideLink;
    forall e: nat | InsideLink(topo, d, e) && e < |bw1| ensures bw1[e] == bw0[e] {
      NobodyRouted(topo, fragments, rs, d, e);
    }
  }

  lemma {:induction false} NobodyRouted(topo: Topology, fragments: map<DomainId, Fragment>, rs: seq<Response>,
                                        d: DomainId, e: nat)
    requires topo.Valid() && forall d :: d in fragments ==> fragments[d].domain == d
    requires OnePerDomain(topo, fragments, rs) && d !in AnsweredBy(rs) && e in topo.DomainLinks(d)
    ensures ReservedOn(AllReservations(rs), topo.links[e].id) == 0.0
  {
    if rs != [] {
      var front, r := rs[..|rs| - 1], rs[|rs| - 1];
      assert r.domain in AnsweredBy(rs) && ResponseOk(topo, fragments[r.domain], r);
      OnePerDomainFront(topo, fragments, rs);
      hide OnePerDomain, Topology.Valid, ResponseOk, ReservedOn, Topology.DomainLinks;
      NobodyRouted(topo, fragments, front, d, e);
      OtherRoutes(topo, fragments[r.domain], r, d, e);
      ReservedAppend(AllReservations(front), r.Reservations(), topo.links[e].id);
    }
  }

  lemma OtherRoutes(topo: Topology, frag: Fragment, r: Response, d: DomainId, e: nat)
    requires topo.Valid() && ResponseOk(topo, frag, r) && r.domain != d && e in topo.DomainLinks(d)
    ensures ReservedOn(r.Reservations(), topo.links[e].id) == 0.0
  {
    hide Topology.Valid, Connects, ReservedOn, Topology.DomainLinks;
    var rs := r.Reservations();
    forall j | 0 <= j < |rs| ensures IdOf(topo, e) !in rs[j].links {
      var key := r.bwAllocated[j].0;
      assert key in Keys(r.bwAllocated);
      var i :| 0 <= i < |frag.flows| && frag.flows[i].Key() == key;
      var f := frag.flows[i];
      assert Served(topo, topo.DomainLinks(frag.domain), f, r.placements, r.routes, r.bwAllocated);
      WalkElsewhere(topo, frag.domain, r.routes[key], r.placements[f.src], r.placements[f.dst], d, e);
    }
    NotOnRoutes(rs, IdOf(topo, e));
    InsideIsLink(topo, d, e);
  }

  function IdOf(topo: Topology, e: nat): LinkId {
    if e < |topo.links| then topo.links[e].id else 0
  }

  lemma InsideIsLink(topo: Topology, d: DomainId, e: nat)
    requires e in topo.DomainLinks(d)
    ensures e < |topo.links| && IdOf(topo, e) == topo.links[e].id
  {}

  /** A walk inside one domain uses no link inside another. */
  lemma WalkElsewhere(topo: Topology, here: DomainId, links: seq<LinkId>, s: NodeId, t: NodeId, d: DomainId, e: nat)
    requires topo.Valid() && Connects(topo, topo.DomainLinks(here), links, s, t) && here != d
    requires e in topo.DomainLinks(d)
    ensures IdOf(topo, e) !in links
  {
    WalkLinks(topo, topo.DomainLinks(here), links, s, t);
    hide Connects;
    assert forall x: nat :: x < |topo.links| && topo.links[x].id == topo.links[e].id ==> x == e;
  }

  /** A walk uses allowed links only. */
  lemma {:induction false} WalkLinks(topo: Topology, allowed: set<nat>, links: seq<LinkId>, s: NodeId, t: NodeId)
    requires Connects(topo, allowed, links, s, t)
    ensures forall l :: l in links ==> exists x: nat :: x in allowed && x < |topo.links| && topo.links[x].id == l
  {
    if links != [] {
      var e :| 0 <= e < |topo.links| && e in allowed && topo.links[e].id == links[0]
               && topo.links[e].src == s && Connects(topo, allowed, links[1..], topo.links[e].dst, t);
      WalkLinks(topo, allowed, links[1..], topo.links[e].dst, t);
      forall l | l in links ensures exists x: nat :: x in allowed && x < |topo.links| && topo.links[x].id == l {
        if l == links[0] {
          var x: nat := e;
          assert x in allowed && topo.links[x].id == l;
        } else {
          assert l in links[1..];
        }
      }
    }
  }

  lemma {:induction false} NotOnRoutes(rs: seq<Reservation>, l: LinkId)
    requires forall j :: 0 <= j < |rs| ==> l !in rs[j].links
    ensures ReservedOn(rs, l) == 0.0
  {
    if rs != [] {
      NotOnRoute(rs[0].links, rs[0].bandwidth, l);
      NotOnRoutes(rs[1..], l);
    }
  }

  lemma {:induction false} NotOnRoute(links: seq<LinkId>, bandwidth: real, l: LinkId)
    requires l !in links
    ensures RouteLoad(links, bandwidth, l) == 0.0
  {
    if links != [] {
      NotOnRoute(links[1..], bandwidth, l);
    }
  }

  lemma NothingToExplain(topo: Topology, actors: map<DomainId, Actor>, fragments: map<DomainId, Fragment>,
                         node: map<NodeId, Amount>, bw: seq<real>)
    ensures AllExplained(topo, actors, fragments, node, bw, [])
  {}

  /** One fragment's answer; a domain without an actor answers no. */
  method AnswerFor(sub: SubstrateNetwork, actors: map<DomainId, Actor>, frag: Fragment) returns (r: Response)
    requires sub.Valid() && sub.NonNegative() && frag.WellFormed()
    requires frag.domain in actors ==> actors[frag.domain].Valid()
    modifies sub`node, sub`bw
    ensures sub.Valid() && r.domain == frag.domain
    ensures ActContract(sub.topo, frag, old(sub.node), old(sub.bw), sub.node, sub.bw, r)
    ensures if frag.domain !in actors then !r.feasible
            else Answers(sub.topo, actors[frag.domain], frag, old(sub.node), old(sub.bw), r)
  {
    hide Answers, ActContract;
    NothingDone(sub.topo, frag, sub.node, sub.bw);
    r := Refusal(frag.domain);
    if frag.domain in actors {
      r := Act(actors[frag.domain], sub, frag);
    }
  }

  lemma NothingDone(topo: Topology, frag: Fragment, node: map<NodeId, Amount>, bw: seq<real>)
    ensures ActContract(topo, frag, node, bw, node, bw, Refusal(frag.domain))
  {}

  /** Ask every fragment's actor, in some order; a domain without an actor answers no. */
  method DispatchToActors(sub: SubstrateNetwork, actors: map<DomainId, Actor>, fragments: map<DomainId, Fragment>)
    returns (rs: seq<Response>)
    requires sub.Valid() && sub.NonNegative()
    requires forall d :: d in actors ==> actors[d].Valid()
    requires forall d :: d in fragments ==> fragments[d].domain == d && fragments[d].WellFormed()
    modifies sub`node, sub`bw
    ensures sub.Valid() && Dispatched(sub.topo, fragments, rs, old(sub.node), old(sub.bw), sub.node, sub.bw)
    ensures AnsweredBy(rs) == fragments.Keys
    ensures AllExplained(sub.topo, actors, fragments, old(sub.node), old(sub.bw), rs)
  {
    hide Topology.Valid, OnePerDomain, NodesAfter, LinksDebited, AllExplained, Answers, ActContract;
    NothingToExplain(sub.topo, actors, fragments, sub.node, sub.bw);
    rs := [];
    DispatchedNone(sub.topo, fragments, sub.node, sub.bw);
    var todo: set<DomainId> := fragments.Keys;
    while todo != {}
      invariant sub.Valid() && todo <= fragments.Keys
      invariant Dispatched(sub.topo, fragments, rs, old(sub.node), old(sub.bw), sub.node, sub.bw)
      invariant AnsweredBy(rs) == fragments.Keys - todo
      invariant AllExplained(sub.topo, actors, fragments, old(sub.node), old(sub.bw), rs)
      decreases |todo|
    {
      var d := PickAny(todo);
      ghost var node1, bw1 := sub.node, sub.bw;
      var r := AnswerFor(sub, actors, fragments[d]);
      ExplainedNext(sub.topo, actors, fragments, old(sub.node), old(sub.bw), node1, bw1, rs, r);
      DispatchedNext(sub.topo, fragments, rs, old(sub.node), old(sub.bw), node1, bw1, sub.node, sub.bw, r);
      AnsweredNext(rs, r);
      rs := rs + [r];
      todo := todo - {d};
    }
  }

  // What the responses of a whole dispatch say about the chain.

  /** Actors only place in their own domain: a node no answering actor owns is untouched. */
  lemma {:induction false} NobodyPlaced(topo: Topology, fragments: map<DomainId, Fragment>, rs: seq<Response>,
                                        n: NodeId)
    requires forall d :: d in fragments ==> fragments[d].domain == d
    requires OnePerDomain(topo, fragments, rs) && topo.DomainOf(n) !in AnsweredBy(rs)
    ensures PlacedOn(fragments, rs, n) == ZERO
  {
    if rs != [] {
      var front, r := rs[..|rs| - 1], rs[|rs| - 1];
      OnePerDomainFront(topo, fragments, rs);
      NobodyPlaced(topo, fragments, front, n);
      assert r.domain in AnsweredBy(rs);
      NotAHost(topo, fragments[r.domain], r, n);
    }
  }

  lemma OnePerDomainFront(topo: Topology, fragments: map<DomainId, Fragment>, rs: seq<Response>)
    requires rs != [] && OnePerDomain(topo, fragments, rs)
    ensures OnePerDomain(topo, fragments, rs[..|rs| - 1])
    ensures AnsweredBy(rs[..|rs| - 1]) == AnsweredBy(rs) - {rs[|rs| - 1].domain}
  {
    var front := rs[..|rs| - 1];
    assert forall i :: 0 <= i < |front| ==> front[i] == rs[i];
    assert rs == front + [rs[|rs| - 1]];
    AnsweredNext(front, rs[|rs| - 1]);
  }

  lemma NotAHost(topo: Topology, frag: Fragment, r: Response, n: NodeId)
    requires ResponseOk(topo, frag, r) && topo.DomainOf(n) != r.domain
    ensures LoadOn(frag.vnfs, r.placements, n) == ZERO
  {
    forall id | id in r.placements ensures r.placements[id] != n {
      assert r.placements.Keys <= Ids(frag.vnfs);
    }
    LoadElsewhere(frag.vnfs, r.placements, n);
  }

  /** What all responses placed on a node is what that node's own domain placed there. */
  lemma {:induction false} OwnDomainPlaced(topo: Topology, fragments: map<DomainId, Fragment>, rs: seq<Response>,
                                           i: nat, n: NodeId)
    requires forall d :: d in fragments ==> fragments[d].domain == d
    requires OnePerDomain(topo, fragments, rs) && i < |rs| && rs[i].domain == topo.DomainOf(n)
    ensures PlacedOn(fragments, rs, n) == LoadOn(fragments[rs[i].domain].vnfs, rs[i].placements, n)
  {
    OnePerDomainFront(topo, fragments, rs);
    var last := |rs| - 1;
    if i == last {
      NobodyPlaced(topo, fragments, rs[..last], n);
    } else {
      OwnDomainPlaced(topo, fragments, rs[..last], i, n);
      NotAHost(topo, fragments[rs[last].domain], rs[last], n);
    }
  }

  /** Everything the lemmas below know about one dispatched chain. */
  ghost predicate ChainDispatched(topo: Topology, req: Request, tiers: seq<Tier>, partition: seq<DomainId>,
                                  fragments: map<DomainId, Fragment>, rs: seq<Response>)
  {
    && req.IsChain() && |req.vnfs| == |partition| == |tiers|
    && fragments.Keys == Domains(partition) == AnsweredBy(rs)
    && (forall d :: d in fragments ==> fragments[d] == FragmentOf(req, tiers, partition, d))
    && OnePerDomain(topo, fragments, rs)
  }

  lemma OwnFragment(req: Request, tiers: seq<Tier>, partition: seq<DomainId>, d: DomainId, k: nat)
    requires req.IsChain() && |req.vnfs| == |partition| == |tiers| && k < |partition|
    ensures req.vnfs[k].id in Ids(VnfsOf(req.vnfs, partition, d)) <==> partition[k] == d
  {
    var mine := VnfsOf(req.vnfs, partition, d);
    VnfsOfMembers(req.vnfs, partition, d);
    if req.vnfs[k].id in Ids(mine) {
      var j :| 0 <= j < |mine| && mine[j].id == req.vnfs[k].id;
      assert mine[j] in mine;
    }
  }

  /** A feasible response places exactly the chain positions of its own domain. */
  lemma {:induction false} PlacesOwnFragment(topo: Topology, req: Request, tiers: seq<Tier>, partition: seq<DomainId>,
                                             fragments: map<DomainId, Fragment>, rs: seq<Response>, i: nat, k: nat)
    requires req.IsChain() && |req.vnfs| == |partition| == |tiers|
    requires forall d :: d in fragments ==> fragments[d] == FragmentOf(req, tiers, partition, d)
    requires OnePerDomain(topo, fragments, rs) && i < |rs| && rs[i].feasible && k < |partition|
    ensures req.vnfs[k].id in rs[i].placements <==> partition[k] == rs[i].domain
  {
    assert ResponseOk(topo, fragments[rs[i].domain], rs[i]);
    assert rs[i].placements.Keys == Ids(VnfsOf(req.vnfs, partition, rs[i].domain));
    hide ResponseOk;
    OwnFragment(req, tiers, partition, rs[i].domain, k);
  }

  /** The merged dictionary holds, for each chain position, the answer of its own domain. */
  lemma {:induction false} MergedAt(topo: Topology, req: Request, tiers: seq<Tier>, partition: seq<DomainId>,
                                    fragments: map<DomainId, Fragment>, rs: seq<Response>, i: nat, k: nat)
    requires req.IsChain() && |req.vnfs| == |partition| == |tiers|
    requires forall d :: d in fragments ==> fragments[d] == FragmentOf(req, tiers, partition, d)
    requires OnePerDomain(topo, fragments, rs) && (forall j :: 0 <= j < |rs| ==> rs[j].feasible)
    requires i < |rs| && k < |partition| && rs[i].domain == partition[k]
    ensures req.vnfs[k].id in rs[i].placements && req.vnfs[k].id in Merged(rs)
    ensures Merged(rs)[req.vnfs[k].id] == rs[i].placements[req.vnfs[k].id]
  {
    var last := |rs| - 1;
    PlacesOwnFragment(topo, req, tiers, partition, fragments, rs, last, k);
    PlacesOwnFragment(topo, req, tiers, partition, fragments, rs, i, k);
    if i < last {
      OnePerDomainFront(topo, fragments, rs);
      hide OnePerDomain;
      MergedAt(topo, req, tiers, partition, fragments, rs[..last], i, k);
    }
  }

  /** Every VNF of the chain is placed on a legal node of the domain it was assigned to. */
  lemma {:induction false} ChainPlaced(topo: Topology, req: Request, tiers: seq<Tier>, partition: seq<DomainId>,
                    fragments: map<DomainId, Fragment>, rs: seq<Response>, k: nat)
    requires ChainDispatched(topo, req, tiers, partition, fragments, rs)
    requires (forall j :: 0 <= j < |rs| ==> rs[j].feasible) && k < |partition|
    ensures req.vnfs[k].id in Merged(rs)
    ensures LegalHost(topo, partition[k], req.vnfs[k], Merged(rs)[req.vnfs[k].id])
  {
    assert partition[k] in AnsweredBy(rs);
    var i :| 0 <= i < |rs| && rs[i].domain == partition[k];
    MergedAt(topo, req, tiers, partition, fragments, rs, i, k);
    VnfsOfMembers(req.vnfs, partition, partition[k]);
    assert req.vnfs[k] in fragments[partition[k]].vnfs;
  }

  /** The two placements agree about node n, position by position. */
  ghost predicate SameHostAt(vnfs: seq<Vnf>, partition: seq<DomainId>, d: DomainId,
                             a: map<VnfId, NodeId>, b: map<VnfId, NodeId>, n: NodeId)
    requires |vnfs| <= |partition|
  {
    forall k :: 0 <= k < |vnfs| ==>
      Cost(vnfs[k], a, n) == if partition[k] == d then Cost(vnfs[k], b, n) else ZERO
  }

  /** A placement restricted to one domain's positions costs a node of that domain the same. */
  lemma {:induction false} RestrictedLoad(vnfs: seq<Vnf>, partition: seq<DomainId>, d: DomainId,
                                          a: map<VnfId, NodeId>, b: map<VnfId, NodeId>, n: NodeId)
    requires |vnfs| <= |partition| && SameHostAt(vnfs, partition, d, a, b, n)
    ensures LoadOn(vnfs, a, n) == LoadOn(VnfsOf(vnfs, partition, d), b, n)
  {
    hide Cost;
    if vnfs != [] {
      var last := |vnfs| - 1;
      var front := vnfs[..last];
      assert forall k :: 0 <= k < last ==> front[k] == vnfs[k];
      RestrictedLoad(front, partition, d, a, b, n);
      if partition[last] == d {
        LoadLast(VnfsOf(front, partition, d), vnfs[last], b, n);
      } else {
        assert VnfsOf(vnfs, partition, d) == VnfsOf(front, partition, d);
      }
    }
  }

  /** The demand of the whole chain on a node is exactly what the responses debited there. */
  lemma {:induction false} ChainLoad(topo: Topology, req: Request, tiers: seq<Tier>, partition: seq<DomainId>,
                                     fragments: map<DomainId, Fragment>, rs: seq<Response>, n: NodeId)
    requires ChainDispatched(topo, req, tiers, partition, fragments, rs)
    requires forall j :: 0 <= j < |rs| ==> rs[j].feasible
    ensures LoadOn(req.vnfs, Merged(rs), n) == PlacedOn(fragments, rs, n)
  {
    if topo.DomainOf(n) in AnsweredBy(rs) {
      var i :| 0 <= i < |rs| && rs[i].domain == topo.DomainOf(n);
      OwnPositions(topo, req, tiers, partition, fragments, rs, i, n);
      RestrictedLoad(req.vnfs, partition, topo.DomainOf(n), Merged(rs), rs[i].placements, n);
      OwnDomainPlaced(topo, fragments, rs, i, n);
    } else {
      NobodyHere(topo, req, tiers, partition, fragments, rs, n);
      NoCostNoLoad(req.vnfs, Merged(rs), n);
      NobodyPlaced(topo, fragments, rs, n);
    }
  }

  lemma {:induction false} OwnPositions(topo: Topology, req: Request, tiers: seq<Tier>, partition: seq<DomainId>,
                                        fragments: map<DomainId, Fragment>, rs: seq<Response>, i: nat, n: NodeId)
    requires ChainDispatched(topo, req, tiers, partition, fragments, rs)
    requires (forall j :: 0 <= j < |rs| ==> rs[j].feasible) && i < |rs| && rs[i].domain == topo.DomainOf(n)
    ensures SameHostAt(req.vnfs, partition, topo.DomainOf(n), Merged(rs), rs[i].placements, n)
  {
    forall k | 0 <= k < |req.vnfs|
      ensures Cost(req.vnfs[k], Merged(rs), n)
           == if partition[k] == topo.DomainOf(n) then Cost(req.vnfs[k], rs[i].placements, n) else ZERO
    {
      ChainPlaced(topo, req, tiers, partition, fragments, rs, k);
      if partition[k] == topo.DomainOf(n) {
        MergedAt(topo, req, tiers, partition, fragments, rs, i, k);
      }
    }
  }

  lemma {:induction false} NobodyHere(topo: Topology, req: Request, tiers: seq<Tier>, partition: seq<DomainId>,
                                      fragments: map<DomainId, Fragment>, rs: seq<Response>, n: NodeId)
    requires ChainDispatched(topo, req, tiers, partition, fragments, rs)
    requires (forall j :: 0 <= j < |rs| ==> rs[j].feasible) && topo.DomainOf(n) !in AnsweredBy(rs)
    ensures forall k :: 0 <= k < |req.vnfs| ==> Cost(req.vnfs[k], Merged(rs), n) == ZERO
  {
    forall k | 0 <= k < |req.vnfs| ensures Cost(req.vnfs[k], Merged(rs), n) == ZERO {
      ChainPlaced(topo, req, tiers, partition, fragments, rs, k);
      assert partition[k] in Domains(partition);
    }
  }

  lemma {:induction false} NoCostNoLoad(vnfs: seq<Vnf>, at: map<VnfId, NodeId>, n: NodeId)
    requires forall k :: 0 <= k < |vnfs| ==> Cost(vnfs[k], at, n) == ZERO
    ensures LoadOn(vnfs, at, n) == ZERO
  {
    if vnfs != [] {
      NoCostNoLoad(vnfs[..|vnfs| - 1], at, n);
    }
  }
}
