/** The cached plan builder: an inner builder behind the plan cache, keyed by the request's
    intent and the quantised network condition. */
module CachedBuilder {
  import opened Types
  import opened OrderedDict
  import opened PlanCache

  /** The substrate as one arrival finds it. */
  datatype Network = Network(topo: Topology, node: map<NodeId, Amount>, bw: seq<real>)

  /** A plan for one request: per chain position the tier, the domain and the request's own
      numbers. */
  datatype PlanSummary = PlanSummary(ids: seq<VnfId>, tiers: seq<Tier>, domains: seq<DomainId>,
                                     demands: seq<Amount>, vcrs: seq<real>, bandwidths: seq<real>)

  /** The part of a plan that is cached: nothing that belongs to one request. */
  datatype AbstractPlan = AbstractPlan(chain: seq<nat>, tiers: seq<Tier>, domains: seq<DomainId>)

  /** The cache key: slice type, delay and throughput class, chain template, condition. */
  datatype Profile = Profile(sliceType: nat, delayClass: nat, throughputClass: nat, chain: seq<nat>,
                             condition: seq<int>)

  /** The quantised congestion terms of a network. */
  type Condition = Network -> seq<int>

  /** The wrapped builder; none when it has no plan. */
  type Inner = (Request, Network) -> Option<PlanSummary>

  function Class(x: real, bounds: seq<real>): nat {
    if bounds == [] || x < bounds[0] then 0 else 1 + Class(x, bounds[1..])
  }

  function Template(req: Request): seq<nat> {
    seq(|req.vnfs|, k requires 0 <= k < |req.vnfs| => req.vnfs[k].kind)
  }

  function ProfileOf(req: Request, condition: seq<int>): Profile {
    Profile(req.sliceType, Class(req.maxDelay, [5.0, 10.0, 20.0, 50.0, 100.0]),
            Class(req.minThroughput, [10.0, 50.0, 100.0, 250.0, 500.0]), Template(req), condition)
  }

  // What the key distinguishes.

  ghost predicate SameSide(x: real, y: real, bound: real) {
    x < bound <==> y < bound
  }

  /** Nothing the key distinguishes tells the two situations apart: the slice type, on which side
      of each class bound delay and throughput lie, the VNF kinds and the network condition. */
  ghost predicate Alike(a: Request, c: seq<int>, b: Request, d: seq<int>) {
    && a.sliceType == b.sliceType && c == d
    && SameSide(a.maxDelay, b.maxDelay, 5.0) && SameSide(a.maxDelay, b.maxDelay, 10.0)
    && SameSide(a.maxDelay, b.maxDelay, 20.0) && SameSide(a.maxDelay, b.maxDelay, 50.0)
    && SameSide(a.maxDelay, b.maxDelay, 100.0)
    && SameSide(a.minThroughput, b.minThroughput, 10.0) && SameSide(a.minThroughput, b.minThroughput, 50.0)
    && SameSide(a.minThroughput, b.minThroughput, 100.0) && SameSide(a.minThroughput, b.minThroughput, 250.0)
    && SameSide(a.minThroughput, b.minThroughput, 500.0)
    && |a.vnfs| == |b.vnfs| && forall k :: 0 <= k < |a.vnfs| ==> a.vnfs[k].kind == b.vnfs[k].kind
  }

  lemma SameClass(x: real, y: real, p: real, q: real, r: real, s: real, t: real)
    requires p < q < r < s < t
    ensures Class(x, [p, q, r, s, t]) == Class(y, [p, q, r, s, t])
       <==> SameSide(x, y, p) && SameSide(x, y, q) && SameSide(x, y, r) && SameSide(x, y, s) && SameSide(x, y, t)
  {
    ClassOfFive(x, p, q, r, s, t);
    ClassOfFive(y, p, q, r, s, t);
  }

  lemma ClassOfFive(x: real, p: real, q: real, r: real, s: real, t: real)
    requires p < q < r < s < t
    ensures Class(x, [p, q, r, s, t])
         == if x < p then 0 else if x < q then 1 else if x < r then 2 else if x < s then 3 else if x < t then 4 else 5
  {
    assert [p, q, r, s, t][1..] == [q, r, s, t] && [q, r, s, t][1..] == [r, s, t];
    assert [r, s, t][1..] == [s, t] && [s, t][1..] == [t] && [t][1..] == [];
    assert Class(x, [r, s, t]) == if x < r then 0 else if x < s then 1 else if x < t then 2 else 3 by {
      assert Class(x, [s, t]) == if x < s then 0 else if x < t then 1 else 2 by {
        assert Class(x, [t]) == if x < t then 0 else 1;
      }
    }
  }

  lemma SameTemplate(a: Request, b: Request)
    ensures Template(a) == Template(b)
       <==> |a.vnfs| == |b.vnfs| && forall k :: 0 <= k < |a.vnfs| ==> a.vnfs[k].kind == b.vnfs[k].kind
  {
    if Template(a) == Template(b) {
      forall k | 0 <= k < |a.vnfs| ensures a.vnfs[k].kind == b.vnfs[k].kind {
        assert Template(a)[k] == Template(b)[k];
      }
    }
  }

  /** Two situations share a key exactly when they are alike. */
  lemma SameProfileIffAlike(a: Request, c: seq<int>, b: Request, d: seq<int>)
    ensures ProfileOf(a, c) == ProfileOf(b, d) <==> Alike(a, c, b, d)
  {
    hide Class, Template, SameSide;
    SameClass(a.maxDelay, b.maxDelay, 5.0, 10.0, 20.0, 50.0, 100.0);
    SameClass(a.minThroughput, b.minThroughput, 10.0, 50.0, 100.0, 250.0, 500.0);
    SameTemplate(a, b);
  }

  function Abstracted(req: Request, plan: PlanSummary): AbstractPlan {
    AbstractPlan(Template(req), plan.tiers, plan.domains)
  }

  /** A plan with the request's own numbers, and the given tiers and domains. */
  function Grafted(req: Request, tiers: seq<Tier>, domains: seq<DomainId>): PlanSummary {
    PlanSummary(seq(|req.vnfs|, k requires 0 <= k < |req.vnfs| => req.vnfs[k].id), tiers, domains,
                seq(|req.vnfs|, k requires 0 <= k < |req.vnfs| => req.vnfs[k].demand),
                seq(|req.vnfs|, k requires 0 <= k < |req.vnfs| => req.vnfs[k].vcr),
                seq(|req.flows|, k requires 0 <= k < |req.flows| => req.flows[k].bandwidth))
  }

  /** Graft a cached plan onto a request; none stands for the template-drift error. */
  function Instantiate(plan: AbstractPlan, req: Request): Option<PlanSummary> {
    if Template(req) != plan.chain then None else Some(Grafted(req, plan.tiers, plan.domains))
  }

  predicate TierPresent(net: Network, d: DomainId, t: Tier) {
    exists n :: n in net.topo.attr && net.topo.attr[n].domain == d && net.topo.attr[n].tier == t
  }

  /** Does every suggested domain still have a node of the required tier? */
  predicate Revalidates(plan: AbstractPlan, net: Network) {
    forall k :: 0 <= k < |plan.tiers| && k < |plan.domains| ==> TierPresent(net, plan.domains[k], plan.tiers[k])
  }

  datatype Answer = Answer(plan: Option<PlanSummary>) | CacheOverflow

  type Held = Entries<Profile, AbstractPlan>

  /** A hit: a visible entry whose plan still matches the network. */
  predicate Served(es: Held, key: Profile, net: Network) {
    Visible(es, key).Some? && Revalidates(Visible(es, key).value, net)
  }

  /** The cache after the lookup of a key. */
  function Looked(capacity: Option<nat>, es: Held, key: Profile): Held {
    Apply(capacity, es, Op<Profile, AbstractPlan>.Get(key))
  }

  /** The cache after one arrival. */
  function AfterArrival(inner: Inner, condition: Condition, capacity: Option<nat>, es: Held, req: Request,
                        net: Network): Held
  {
    var key := ProfileOf(req, condition(net));
    var looked := Looked(capacity, es, key);
    if Served(es, key, net) || inner(req, net).None? then looked
    else
      var plan := Abstracted(req, inner(req, net).value);
      Apply(capacity, looked, if Find(looked, key).Some? then Op.Refresh(key, plan) else Op.Store(key, plan))
  }

  /** What one arrival is answered. */
  function AnswerOf(inner: Inner, condition: Condition, es: Held, req: Request, net: Network): Option<PlanSummary> {
    var key := ProfileOf(req, condition(net));
    if Served(es, key, net) then Some(Grafted(req, Visible(es, key).value.tiers, Visible(es, key).value.domains))
    else inner(req, net)
  }

  /** The arrival stores a new key in an unbounded cache that is already as full as expected. */
  predicate Overflows(inner: Inner, condition: Condition, capacity: Option<nat>, es: Held, req: Request, net: Network) {
    && capacity.None? && !Served(es, ProfileOf(req, condition(net)), net) && inner(req, net).Some?
    && Find(Looked(capacity, es, ProfileOf(req, condition(net))), ProfileOf(req, condition(net))).None?
    && |AfterArrival(inner, condition, capacity, es, req, net)| > MAX_EXPECTED_SIZE
  }

  /** What one call returns: the answer, or the error of an unbounded cache that outgrew itself. */
  function Reply(inner: Inner, condition: Condition, capacity: Option<nat>, es: Held, req: Request,
                 net: Network): Answer
  {
    if Overflows(inner, condition, capacity, es, req, net) then CacheOverflow
    else Answer(AnswerOf(inner, condition, es, req, net))
  }

  /** Every cached plan has the template of its key. */
  ghost predicate TemplatesMatch(es: Held) {
    forall key :: Find(es, key).Some? ==> Find(es, key).value.plan.chain == key.chain
  }

  class Builder {
    const inner: Inner
    const condition: Condition
    const cache: Cache<Profile, AbstractPlan>
    var lookups: nat
    var hits: nat
    var misses: nat

    ghost predicate Valid()
      reads this, cache
    {
      && Distinct(cache.entries) && TemplatesMatch(cache.entries)
      && lookups == hits + misses
    }

    constructor (inner: Inner, condition: Condition, capacity: Option<nat>)
      ensures Valid() && fresh(cache) && this.inner == inner && this.condition == condition
      ensures cache.capacity == capacity && cache.entries == [] && lookups == hits == misses == 0
    {
      this.inner, this.condition := inner, condition;
      cache := new Cache(capacity);
      lookups, hits, misses := 0, 0, 0;
    }

    /** Refresh a held key, insert a new one. */
    method Remember(key: Profile, plan: AbstractPlan) returns (ok: bool)
      modifies cache
      ensures cache.entries
           == Apply(cache.capacity, old(cache.entries),
                    if Find(old(cache.entries), key).Some? then Op.Refresh(key, plan) else Op.Store(key, plan))
      ensures ok <==>
                Find(old(cache.entries), key).Some? || cache.capacity.Some? || |cache.entries| <= 16
    {
      hide Apply;
      if Find(cache.entries, key).Some? {
        ok := cache.Refresh(key, plan);
      } else {
        ok := cache.Store(key, plan);
      }
    }

    /** The drift branch is in the code, but no arrival takes it: the key contains the template. */
    method Build(req: Request, net: Network) returns (r: Answer)
      requires Valid()
      modifies this, cache
      ensures Valid()
      ensures cache.entries == AfterArrival(inner, condition, cache.capacity, old(cache.entries), req, net)
      ensures r == Reply(inner, condition, cache.capacity, old(cache.entries), req, net)
      ensures var served := Served(old(cache.entries), ProfileOf(req, condition(net)), net);
              lookups == old(lookups) + 1 && hits == old(hits) + (if served then 1 else 0)
    {
      var key := ProfileOf(req, condition(net));
      assert key.chain == Template(req);
      ghost var es := cache.entries;
      ReplyServed(inner, condition, cache.capacity, es, req, net);
      ReplyBuilt(inner, condition, cache.capacity, es, req, net);
      LookupKeepsTemplates(cache.capacity, es, key);
      ServedMeans(es, key, net);
      hide Apply, Visible, Revalidates, ProfileOf, Find, Distinct, AfterArrival, Reply, TemplatesMatch, Abstracted,
           Grafted, Template, Instantiate, Served;
      lookups := lookups + 1;
      var found := cache.Get(key);
      if found.Some? && Revalidates(found.value, net) {
        VisibleTemplate(es, req, condition(net));
        InstantiateMeans(found.value, req);
        var plan := Instantiate(found.value, req);
        if plan.Some? {
          hits := hits + 1;
          return Answer(plan);
        }
        assert false;
      }
      misses := misses + 1;
      var built := inner(req, net);
      if built.Some? {
        var plan := Abstracted(req, built.value);
        AbstractedTemplate(req, built.value);
        WriteKeepsTemplates(cache.capacity, cache.entries, key, plan);
        var ok := Remember(key, plan);
        if !ok {
          return CacheOverflow;
        }
      }
      r := Answer(built);
    }
  }

  lemma ServedMeans(es: Held, key: Profile, net: Network)
    ensures Served(es, key, net) <==> Visible(es, key).Some? && Revalidates(Visible(es, key).value, net)
  {}

  lemma InstantiateMeans(plan: AbstractPlan, req: Request)
    ensures Instantiate(plan, req)
         == if Template(req) != plan.chain then None else Some(Grafted(req, plan.tiers, plan.domains))
  {}

  lemma AbstractedTemplate(req: Request, plan: PlanSummary)
    ensures Abstracted(req, plan).chain == Template(req)
  {}

  /** A hit: the cached tiers and domains on the request's own numbers, and only a lookup. */
  lemma ReplyServed(inner: Inner, condition: Condition, capacity: Option<nat>, es: Held, req: Request, net: Network)
    ensures var key := ProfileOf(req, condition(net));
            Served(es, key, net) ==>
              && AfterArrival(inner, condition, capacity, es, req, net) == Looked(capacity, es, key)
              && Reply(inner, condition, capacity, es, req, net)
                 == Answer(Some(Grafted(req, Visible(es, key).value.tiers, Visible(es, key).value.domains)))
  {
    hide Apply, Visible, Revalidates, ProfileOf;
  }

  /** A miss: the inner answer, remembered when there is one. */
  lemma ReplyBuilt(inner: Inner, condition: Condition, capacity: Option<nat>, es: Held, req: Request, net: Network)
    ensures var key := ProfileOf(req, condition(net));
            var looked := Looked(capacity, es, key);
            !Served(es, key, net) ==>
              if inner(req, net).None? then
                && AfterArrival(inner, condition, capacity, es, req, net) == looked
                && Reply(inner, condition, capacity, es, req, net) == Answer(None)
              else
                var plan := Abstracted(req, inner(req, net).value);
                var after := Apply(capacity, looked, if Find(looked, key).Some? then Op.Refresh(key, plan)
                                   else Op.Store(key, plan));
                && AfterArrival(inner, condition, capacity, es, req, net) == after
                && Reply(inner, condition, capacity, es, req, net)
                   == if Find(looked, key).Some? || capacity.Some?
                         || |after| <= 16 then Answer(inner(req, net))
                      else CacheOverflow
  {
    hide Apply, Visible, Revalidates, ProfileOf, Find;
  }

  lemma VisibleTemplate(es: Held, req: Request, condition: seq<int>)
    requires TemplatesMatch(es) && Visible(es, ProfileOf(req, condition)).Some?
    ensures Visible(es, ProfileOf(req, condition)).value.chain == Template(req)
  {}

  lemma LookupKeepsTemplates(capacity: Option<nat>, es: Held, key: Profile)
    requires Distinct(es) && TemplatesMatch(es)
    ensures var after := Apply(capacity, es, Op<Profile, AbstractPlan>.Get(key));
            Distinct(after) && TemplatesMatch(after)
  {
    var op := Op<Profile, AbstractPlan>.Get(key);
    ApplyKeeps(capacity, es, op, key);
    forall x | Find(Apply(capacity, es, op), x).Some? ensures Find(Apply(capacity, es, op), x).value.plan.chain
        == x.chain {
      hide Find, Apply, Distinct;
      ApplyKeeps(capacity, es, op, x);
    }
  }

  lemma WriteKeepsTemplates(capacity: Option<nat>, es: Held, key: Profile, plan: AbstractPlan)
    requires Distinct(es) && TemplatesMatch(es) && plan.chain == key.chain
    ensures Distinct(Apply(capacity, es, Op.Refresh(key, plan))) && Distinct(Apply(capacity, es, Op.Store(key, plan)))
    ensures TemplatesMatch(Apply(capacity, es, Op.Refresh(key, plan)))
    ensures TemplatesMatch(Apply(capacity, es, Op.Store(key, plan)))
  {
    hide Find, Apply, Distinct;
    ApplyKeeps(capacity, es, Op.Refresh(key, plan), key);
    ApplyKeeps(capacity, es, Op.Store(key, plan), key);
    forall x ensures Find(Apply(capacity, es, Op.Refresh(key, plan)), x).Some? ==>
                       Find(Apply(capacity, es, Op.Refresh(key, plan)), x).value.plan.chain == x.chain
    {
      ApplyKeeps(capacity, es, Op.Refresh(key, plan), x);
    }
    forall x ensures Find(Apply(capacity, es, Op.Store(key, plan)), x).Some? ==>
                       Find(Apply(capacity, es, Op.Store(key, plan)), x).value.plan.chain == x.chain
    {
      ApplyKeeps(capacity, es, Op.Store(key, plan), x);
    }
  }

  // Whole arrival sequences.

  datatype Event = Arrive(req: Request, net: Network) | Invalidate(key: Profile)

  /** The cache after a history of arrivals and stale marks. */
  function After(inner: Inner, condition: Condition, capacity: Option<nat>, events: seq<Event>): Held {
    if events == [] then []
    else
      var es := After(inner, condition, capacity, events[..|events| - 1]);
      match events[|events| - 1]
      case Arrive(req, net) => AfterArrival(inner, condition, capacity, es, req, net)
      case Invalidate(key) => Apply(capacity, es, Op<Profile, AbstractPlan>.MarkStale(key))
  }

  /** Every call, after every history, returns what the inner builder would answer, unless it
      overflows. */
  ghost predicate Transparent(inner: Inner, condition: Condition, capacity: Option<nat>) {
    forall events, req, net ::
      AnsweredAlike(inner, condition, capacity, After(inner, condition, capacity, events), req, net)
  }

  ghost predicate AnsweredAlike(inner: Inner, condition: Condition, capacity: Option<nat>, es: Held, req: Request,
                                net: Network)
  {
    Reply(inner, condition, capacity, es, req, net)
      == if Overflows(inner, condition, capacity, es, req, net) then CacheOverflow else Answer(inner(req, net))
  }

  /** These tiers and domains with the request's own ids, demands, chaining ratios and
      bandwidths. */
  ghost predicate OwnNumbers(req: Request, tiers: seq<Tier>, domains: seq<DomainId>, plan: PlanSummary) {
    && plan.tiers == tiers && plan.domains == domains
    && |plan.ids| == |plan.demands| == |plan.vcrs| == |req.vnfs| && |plan.bandwidths| == |req.flows|
    && (forall k :: 0 <= k < |req.vnfs| ==>
          plan.ids[k] == req.vnfs[k].id && plan.demands[k] == req.vnfs[k].demand && plan.vcrs[k] == req.vnfs[k].vcr)
    && forall k :: 0 <= k < |req.flows| ==> plan.bandwidths[k] == req.flows[k].bandwidth
  }

  lemma GraftedMeans(req: Request, tiers: seq<Tier>, domains: seq<DomainId>, plan: PlanSummary)
    ensures plan == Grafted(req, tiers, domains) <==> OwnNumbers(req, tiers, domains, plan)
  {
    if OwnNumbers(req, tiers, domains, plan) {
      var g := Grafted(req, tiers, domains);
      assert plan.ids == g.ids && plan.demands == g.demands && plan.vcrs == g.vcrs && plan.bandwidths == g.bandwidths;
    }
  }

  /** Each suggested domain has a node of the tier suggested for it. */
  ghost predicate StillHosted(tiers: seq<Tier>, domains: seq<DomainId>, net: Network) {
    forall k :: 0 <= k < |tiers| && k < |domains| ==> OwnsTier(net, domains[k], tiers[k])
  }

  ghost predicate OwnsTier(net: Network, d: DomainId, t: Tier) {
    exists n :: n in net.topo.attr && net.topo.attr[n].domain == d && net.topo.attr[n].tier == t
  }

  lemma RevalidatesMeans(a: Request, plan: PlanSummary, net: Network)
    ensures Revalidates(Abstracted(a, plan), net) <==> StillHosted(plan.tiers, plan.domains, net)
  {
    assert forall d, t :: TierPresent(net, d, t) <==> OwnsTier(net, d, t);
  }

  /** A plan made for one situation fits every later situation that is alike and in which its
      domains still have its tiers: the inner builder would choose the same tiers and domains. */
  ghost predicate KeyDecides(inner: Inner, condition: Condition) {
    forall a, at, b, bt :: inner(a, at).Some? && SameKey(condition, a, at, b, bt)
                           && StillHosted(inner(a, at).value.tiers, inner(a, at).value.domains, bt) ==>
      ChosenAgain(inner(a, at).value, inner, b, bt)
  }

  ghost predicate SameKey(condition: Condition, a: Request, at: Network, b: Request, bt: Network) {
    Alike(a, condition(at), b, condition(bt))
  }

  ghost predicate ChosenAgain(plan: PlanSummary, inner: Inner, req: Request, net: Network) {
    inner(req, net).Some? && OwnNumbers(req, plan.tiers, plan.domains, inner(req, net).value)
  }

  lemma ChosenAgainMeans(plan: PlanSummary, inner: Inner, req: Request, net: Network)
    ensures ChosenAgain(plan, inner, req, net) <==> inner(req, net) == Some(Grafted(req, plan.tiers, plan.domains))
  {
    hide Grafted;
    GraftedMeans(req, plan.tiers, plan.domains, Grafted(req, plan.tiers, plan.domains));
    if inner(req, net).Some? {
      GraftedMeans(req, plan.tiers, plan.domains, inner(req, net).value);
    }
  }

  // Where an answer comes from.

  /** An earlier arrival that was alike and got this plan from the inner builder. */
  ghost predicate ArrivedAlike(inner: Inner, condition: Condition, events: seq<Event>, i: int, req: Request,
                               net: Network)
  {
    && 0 <= i < |events| && events[i].Arrive? && inner(events[i].req, events[i].net).Some?
    && SameKey(condition, events[i].req, events[i].net, req, net)
  }

  /** The tiers and domains of a plan made earlier, on the request's own numbers, while each of
      its domains still has a node of its tier. */
  ghost predicate MadeFrom(made: PlanSummary, req: Request, net: Network, r: Option<PlanSummary>) {
    && r.Some? && OwnNumbers(req, made.tiers, made.domains, r.value)
    && StillHosted(made.tiers, made.domains, net)
  }

  /** The plan under a key comes from an arrival of the history with this key. */
  ghost predicate FromHistory(inner: Inner, condition: Condition, events: seq<Event>, key: Profile, plan: AbstractPlan)
  {
    exists i :: FromArrival(inner, condition, events, i, key, plan)
  }

  ghost predicate FromArrival(inner: Inner, condition: Condition, events: seq<Event>, i: int, key: Profile,
                              plan: AbstractPlan)
  {
    && 0 <= i < |events| && events[i].Arrive? && inner(events[i].req, events[i].net).Some?
    && ProfileOf(events[i].req, condition(events[i].net)) == key
    && plan == Abstracted(events[i].req, inner(events[i].req, events[i].net).value)
  }

  ghost predicate AllFromHistory(inner: Inner, condition: Condition, events: seq<Event>, es: Held) {
    forall key :: Find(es, key).Some? ==> FromHistory(inner, condition, events, key, Find(es, key).value.plan)
  }

  lemma ApplyFromHistory(inner: Inner, condition: Condition, events: seq<Event>, capacity: Option<nat>, es: Held,
                         op: Op<Profile, AbstractPlan>)
    requires Distinct(es) && AllFromHistory(inner, condition, events, es)
    requires op.Store? || op.Refresh? ==> FromHistory(inner, condition, events, op.key, op.plan)
    ensures Distinct(Apply(capacity, es, op)) && AllFromHistory(inner, condition, events, Apply(capacity, es, op))
  {
    hide Find, Apply, Distinct, FromHistory;
    ApplyKeeps(capacity, es, op, op.key);
    forall x | Find(Apply(capacity, es, op), x).Some?
      ensures FromHistory(inner, condition, events, x, Find(Apply(capacity, es, op), x).value.plan)
    {
      ApplyKeeps(capacity, es, op, x);
    }
  }

  lemma LongerHistory(inner: Inner, condition: Condition, events: seq<Event>, ev: Event, es: Held)
    requires AllFromHistory(inner, condition, events, es)
    ensures AllFromHistory(inner, condition, events + [ev], es)
  {
    hide Find, FromArrival;
    forall key | Find(es, key).Some?
      ensures FromHistory(inner, condition, events + [ev], key, Find(es, key).value.plan)
    {
      var plan := Find(es, key).value.plan;
      assert FromHistory(inner, condition, events, key, plan);
      var i :| FromArrival(inner, condition, events, i, key, plan);
      OneLonger(inner, condition, events, ev, i, key, plan);
    }
  }

  lemma OneLonger(inner: Inner, condition: Condition, events: seq<Event>, ev: Event, i: int, key: Profile,
                  plan: AbstractPlan)
    requires FromArrival(inner, condition, events, i, key, plan)
    ensures FromArrival(inner, condition, events + [ev], i, key, plan)
  {}

  lemma {:induction false} HeldFromHistory(inner: Inner, condition: Condition, capacity: Option<nat>,
                                           events: seq<Event>)
    ensures var es := After(inner, condition, capacity, events);
            Distinct(es) && AllFromHistory(inner, condition, events, es)
  {
    if events != [] {
      AfterLast(inner, condition, capacity, events);
      hide *;
      var front, ev := events[..|events| - 1], events[|events| - 1];
      var es := After(inner, condition, capacity, front);
      HeldFromHistory(inner, condition, capacity, front);
      LongerHistory(inner, condition, front, ev, es);
      assert events == front + [ev];
      match ev
      case Arrive(req, net) => ArrivalFromHistory(inner, condition, capacity, events, es, req, net);
      case Invalidate(key) =>
        ApplyFromHistory(inner, condition, events, capacity, es, Op<Profile, AbstractPlan>.MarkStale(key));
    }
  }

  lemma AfterLast(inner: Inner, condition: Condition, capacity: Option<nat>, events: seq<Event>)
    requires events != []
    ensures var es := After(inner, condition, capacity, events[..|events| - 1]);
            match events[|events| - 1]
            case Arrive(req, net) =>
              After(inner, condition, capacity, events) == AfterArrival(inner, condition, capacity, es, req, net)
            case Invalidate(key) =>
              After(inner, condition, capacity, events)
              == Apply(capacity, es, Op<Profile, AbstractPlan>.MarkStale(key))
  {}

  lemma ArrivalFromHistory(inner: Inner, condition: Condition, capacity: Option<nat>, events: seq<Event>, es: Held,
                           req: Request, net: Network)
    requires Distinct(es) && AllFromHistory(inner, condition, events, es)
    requires events != [] && events[|events| - 1] == Arrive(req, net)
    ensures var after := AfterArrival(inner, condition, capacity, es, req, net);
            Distinct(after) && AllFromHistory(inner, condition, events, after)
  {
    hide Find, Apply, Distinct, AllFromHistory, ProfileOf, Served;
    var key := ProfileOf(req, condition(net));
    var op := Op<Profile, AbstractPlan>.Get(key);
    ApplyFromHistory(inner, condition, events, capacity, es, op);
    if inner(req, net).Some? {
      var plan := Abstracted(req, inner(req, net).value);
      assert FromArrival(inner, condition, events, |events| - 1, key, plan);
      ApplyFromHistory(inner, condition, events, capacity, Apply(capacity, es, op), Op.Refresh(key, plan));
      ApplyFromHistory(inner, condition, events, capacity, Apply(capacity, es, op), Op.Store(key, plan));
    }
  }

  /** What an arrival is answered after any history: the inner builder's own answer, or the tiers
      and domains an earlier arrival that was alike got from it, on the request's own numbers and
      with a node of each tier still in its domain. In particular an arrival under a network
      condition no earlier arrival met is answered by the inner builder. */
  lemma AnswerHasOrigin(inner: Inner, condition: Condition, capacity: Option<nat>, events: seq<Event>, req: Request,
                        net: Network)
    ensures var r := AnswerOf(inner, condition, After(inner, condition, capacity, events), req, net);
            r == inner(req, net)
            || exists i :: ArrivedAlike(inner, condition, events, i, req, net)
                           && MadeFrom(inner(events[i].req, events[i].net).value, req, net, r)
    ensures (forall i :: 0 <= i < |events| && events[i].Arrive? ==> condition(events[i].net) != condition(net)) ==>
              AnswerOf(inner, condition, After(inner, condition, capacity, events), req, net) == inner(req, net)
  {
    var es, key := After(inner, condition, capacity, events), ProfileOf(req, condition(net));
    HeldFromHistory(inner, condition, capacity, events);
    hide After, ProfileOf, Grafted, OwnNumbers, Revalidates, StillHosted, Alike, Abstracted;
    if Served(es, key, net) {
      var plan := Find(es, key).value.plan;
      assert FromHistory(inner, condition, events, key, plan);
      var i :| FromArrival(inner, condition, events, i, key, plan);
      var made := inner(events[i].req, events[i].net).value;
      SameProfileIffAlike(events[i].req, condition(events[i].net), req, condition(net));
      AlikeCondition(events[i].req, condition(events[i].net), req, condition(net));
      RevalidatesMeans(events[i].req, made, net);
      AbstractedKeeps(events[i].req, made);
      GraftedMeans(req, made.tiers, made.domains, Grafted(req, made.tiers, made.domains));
      assert ArrivedAlike(inner, condition, events, i, req, net);
    }
  }

  lemma AlikeCondition(a: Request, c: seq<int>, b: Request, d: seq<int>)
    ensures Alike(a, c, b, d) ==> c == d
  {}

  lemma AbstractedKeeps(req: Request, plan: PlanSummary)
    ensures Abstracted(req, plan).tiers == plan.tiers && Abstracted(req, plan).domains == plan.domains
  {}

  lemma KeyDecidesSuffices(inner: Inner, condition: Condition, capacity: Option<nat>)
    requires KeyDecides(inner, condition)
    ensures Transparent(inner, condition, capacity)
  {
    hide AnsweredAlike, After;
    forall events, req, net
      ensures AnsweredAlike(inner, condition, capacity, After(inner, condition, capacity, events), req, net)
    {
      AnswersAlike(inner, condition, capacity, events, req, net);
      AlikeWhenEqual(inner, condition, capacity, After(inner, condition, capacity, events), req, net);
    }
  }

  lemma AlikeWhenEqual(inner: Inner, condition: Condition, capacity: Option<nat>, es: Held, req: Request, net: Network)
    ensures AnswerOf(inner, condition, es, req, net) == inner(req, net) ==>
              AnsweredAlike(inner, condition, capacity, es, req, net)
    ensures AnsweredAlike(inner, condition, Some(1), es, req, net) ==>
              AnswerOf(inner, condition, es, req, net) == inner(req, net)
  {
    hide AnswerOf;
  }

  lemma AnswersAlike(inner: Inner, condition: Condition, capacity: Option<nat>, events: seq<Event>, req: Request,
                     net: Network)
    requires KeyDecides(inner, condition)
    ensures AnswerOf(inner, condition, After(inner, condition, capacity, events), req, net) == inner(req, net)
  {
    var r := AnswerOf(inner, condition, After(inner, condition, capacity, events), req, net);
    AnswerHasOrigin(inner, condition, capacity, events, req, net);
    hide After, AnswerOf, Alike, OwnNumbers, StillHosted;
    if r != inner(req, net) {
      var i :| ArrivedAlike(inner, condition, events, i, req, net)
               && MadeFrom(inner(events[i].req, events[i].net).value, req, net, r);
      var made := inner(events[i].req, events[i].net).value;
      assert ChosenAgain(made, inner, req, net);
      GraftedMeans(req, made.tiers, made.domains, r.value);
      GraftedMeans(req, made.tiers, made.domains, inner(req, net).value);
    }
  }

  /** Caching is invisible, for every capacity and every history of arrivals, evictions and stale
      marks, exactly when the key decides what the inner builder chooses. A bounded cache never
      overflows, an unbounded one exactly when a new key takes it past its expected size. */
  lemma TransparentIffKeyDecides(inner: Inner, condition: Condition)
    ensures KeyDecides(inner, condition) <==> forall capacity :: Transparent(inner, condition, capacity)
  {
    if KeyDecides(inner, condition) {
      forall capacity ensures Transparent(inner, condition, capacity) {
        KeyDecidesSuffices(inner, condition, capacity);
      }
    } else {
      var a, at, b, bt :| inner(a, at).Some? && SameKey(condition, a, at, b, bt)
                          && StillHosted(inner(a, at).value.tiers, inner(a, at).value.domains, bt)
                          && !ChosenAgain(inner(a, at).value, inner, b, bt);
      ChosenAgainMeans(inner(a, at).value, inner, b, bt);
      SecondArrivalServed(inner, condition, a, at, b, bt);
      AlikeWhenEqual(inner, condition, Some(1), After(inner, condition, Some(1), [Arrive(a, at)]), b, bt);
      hide AnsweredAlike, AnswerOf, After;
      assert !Transparent(inner, condition, Some(1));
    }
  }

  /** After one arrival the next one that is alike is served the first one's plan. */
  lemma SecondArrivalServed(inner: Inner, condition: Condition, a: Request, at: Network, b: Request, bt: Network)
    requires inner(a, at).Some? && SameKey(condition, a, at, b, bt)
    requires StillHosted(inner(a, at).value.tiers, inner(a, at).value.domains, bt)
    ensures AnswerOf(inner, condition, After(inner, condition, Some(1), [Arrive(a, at)]), b, bt)
         == Some(Grafted(b, inner(a, at).value.tiers, inner(a, at).value.domains))
  {
    SameProfileIffAlike(a, condition(at), b, condition(bt));
    RevalidatesMeans(a, inner(a, at).value, bt);
    hide ProfileOf, Alike, Revalidates, StillHosted, Grafted;
    assert [Arrive(a, at)][..0] == [];
    assert After(inner, condition, Some(1), []) == [];
  }
}
