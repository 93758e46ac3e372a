/** The arrival and departure loop over the co-location baseline, and the ledger it keeps on the
    live substrate from the first event to the last. */
module EventLoop {
  import opened Types
  import opened OrderedDict
  import opened Ledger
  import opened PlanLedger
  import opened Substrate
  import opened ChainOrder
  import opened FfdPlacing
  import opened GreedyFfd
  import opened ColocationFfd

  type Registry = Dict<RequestId, (Plan, Request)>

  datatype Event = Arrival(req: Request) | Departure(id: RequestId) | Other

  /** Why arrivals were turned away. */
  datatype Causes = Causes(noPlacement: nat, chainOrder: nat, qosGate: nat, allocateFailed: nat) {
    function Total(): nat {
      noPlacement + chainOrder + qosGate + allocateFailed
    }
  }

  datatype Verdict = Admitted | NoPlacement | OutOfOrder | QosRefused | AllocateFailed

  function Counted(c: Causes, v: Verdict): Causes {
    match v
    case Admitted => c
    case NoPlacement => c.(noPlacement := c.noPlacement + 1)
    case OutOfOrder => c.(chainOrder := c.chainOrder + 1)
    case QosRefused => c.(qosGate := c.qosGate + 1)
    case AllocateFailed => c.(allocateFailed := c.allocateFailed + 1)
  }

  // The ledger.

  /** What all active slices together take from a node, and from a link. */
  function ActiveOn(active: Registry, n: NodeId): Amount {
    if active == [] then ZERO else ActiveOn(active[..|active| - 1], n).Plus(active[|active| - 1].1.0.NodeDemand(n))
  }

  function ActiveLink(active: Registry, l: LinkId): real {
    if active == [] then 0.0 else ActiveLink(active[..|active| - 1], l) + active[|active| - 1].1.0.LinkDemand(l)
  }

  datatype State = State(node: map<NodeId, Amount>, bw: seq<real>, active: Registry)

  /** Residual is capacity minus the demand of the active slices, and never negative. */
  ghost predicate LedgerHolds(topo: Topology, s: State) {
    && s.node.Keys == topo.attr.Keys && |s.bw| == |topo.links|
    && (forall n :: n in s.node ==> s.node[n] == topo.attr[n].capacity.Minus(ActiveOn(s.active, n)))
    && (forall e :: 0 <= e < |s.bw| ==> s.bw[e] == topo.links[e].capacity - ActiveLink(s.active, topo.links[e].id))
    && NodesNonNegative(s.node) && LinksNonNegative(s.bw)
    && RegistryOk(topo, s.active)
  }

  ghost predicate RegistryOk(topo: Topology, active: Registry) {
    && Distinct(active)
    && forall i :: 0 <= i < |active| ==>
         active[i].1.0.WellFormed(topo) && active[i].1.0.NonNegative() && active[i].1.1.id == active[i].0
  }

  /** Dropping one slice takes exactly its demand out of the sums. */
  lemma {:induction false} ActiveWithout(active: Registry, i: nat, n: NodeId, l: LinkId)
    requires i < |active|
    ensures ActiveOn(active, n) == ActiveOn(active[..i] + active[i + 1..], n).Plus(active[i].1.0.NodeDemand(n))
    ensures ActiveLink(active, l) == ActiveLink(active[..i] + active[i + 1..], l) + active[i].1.0.LinkDemand(l)
  {
    hide PlacedDemand, FlowDemand;
    var last := |active| - 1;
    if i == last {
      assert active[..i] + active[i + 1..] == active[..last];
    } else {
      ActiveWithout(active[..last], i, n, l);
      var rest := active[..i] + active[i + 1..];
      assert rest[..|rest| - 1] == active[..last][..i] + active[..last][i + 1..] && rest[|rest| - 1] == active[last];
    }
  }

  /** An arrival that is admitted: a plan the residuals cover is taken and registered. */
  ghost predicate AdmitStep(topo: Topology, s: State, t: State, req: Request, plan: Plan) {
    && Find(s.active, req.id).None? && plan.WellFormed(topo) && plan.NonNegative()
    && Taken(topo, plan, s.node, s.bw, t.node, t.bw) && NodesNonNegative(t.node) && LinksNonNegative(t.bw)
    && t.active == s.active + [(req.id, (plan, req))]
  }

  lemma AdmitKeepsLedger(topo: Topology, s: State, t: State, req: Request, plan: Plan)
    requires LedgerHolds(topo, s) && AdmitStep(topo, s, t, req, plan)
    ensures LedgerHolds(topo, t)
  {
    hide PlacedDemand, FlowDemand, Plan.WellFormed, Plan.NonNegative;
    FindIsMember(s.active, req.id);
    assert forall i :: 0 <= i < |s.active| ==> s.active[i] in s.active && t.active[i] == s.active[i];
    hide ActiveOn, ActiveLink, Find;
  }

  /** A departure of a held slice: its plan is given back and the entry dropped. */
  ghost predicate DepartStep(topo: Topology, s: State, t: State, i: nat) {
    && i < |s.active| && Taken(topo, s.active[i].1.0, t.node, t.bw, s.node, s.bw)
    && t.active == s.active[..i] + s.active[i + 1..]
  }

  lemma DepartKeepsLedger(topo: Topology, s: State, t: State, i: nat)
    requires LedgerHolds(topo, s) && DepartStep(topo, s, t, i)
    ensures LedgerHolds(topo, t)
  {
    hide PlacedDemand, FlowDemand, Plan.WellFormed, ActiveOn, ActiveLink;
    var plan := s.active[i].1.0;
    DemandNonNegative(plan);
    forall n | n in t.node
      ensures t.node[n] == topo.attr[n].capacity.Minus(ActiveOn(t.active, n)) && t.node[n].Covers(ZERO)
    {
      ActiveWithout(s.active, i, n, 0);
      assert s.node[n] == t.node[n].Minus(plan.NodeDemand(n)) && s.node[n].Covers(ZERO);
      assert plan.NodeDemand(n).Covers(ZERO);
    }
    forall e | 0 <= e < |t.bw|
      ensures t.bw[e] == topo.links[e].capacity - ActiveLink(t.active, topo.links[e].id) && t.bw[e] >= 0.0
    {
      ActiveWithout(s.active, i, 0, topo.links[e].id);
      assert s.bw[e] == t.bw[e] - plan.LinkDemand(topo.links[e].id) && s.bw[e] >= 0.0;
      assert plan.LinkDemand(topo.links[e].id) >= 0.0;
    }
  }

  ghost predicate AtFullCapacity(topo: Topology, s: State) {
    && s.node.Keys == topo.attr.Keys && |s.bw| == |topo.links|
    && (forall n :: n in s.node ==> s.node[n] == topo.attr[n].capacity)
    && forall e :: 0 <= e < |s.bw| ==> s.bw[e] == topo.links[e].capacity
  }

  /** With nothing active every residual is the full capacity again. */
  lemma EmptyMeansFull(topo: Topology, s: State)
    requires LedgerHolds(topo, s) && s.active == []
    ensures AtFullCapacity(topo, s)
  {
    forall n | n in s.node ensures s.node[n] == topo.attr[n].capacity {
      assert ActiveOn(s.active, n) == ZERO;
    }
  }

  // The loop.

  /** One event, before and after. */
  ghost predicate Step(topo: Topology, ev: Event, admitted: bool, s: State, t: State) {
    match ev
    case Arrival(req) => if admitted then exists plan :: AdmitStep(topo, s, t, req, plan) else t == s
    case Departure(id) =>
      if Find(s.active, id).None? then t == s
      else exists i: nat :: i < |s.active| && s.active[i].0 == id && DepartStep(topo, s, t, i)
    case Other => t == s
  }

  lemma StepKeepsLedger(topo: Topology, ev: Event, admitted: bool, s: State, t: State)
    requires LedgerHolds(topo, s) && Step(topo, ev, admitted, s, t)
    ensures LedgerHolds(topo, t)
  {
    hide LedgerHolds, AdmitStep, DepartStep;
    match ev
    case Arrival(req) =>
      if admitted {
        var plan :| AdmitStep(topo, s, t, req, plan);
        AdmitKeepsLedger(topo, s, t, req, plan);
      }
    case Departure(id) =>
      if Find(s.active, id).Some? {
        var i: nat :| i < |s.active| && s.active[i].0 == id && DepartStep(topo, s, t, i);
        DepartKeepsLedger(topo, s, t, i);
      }
    case Other =>
  }

  /** A history of the run: the state before the first event and after each one. */
  ghost predicate History(topo: Topology, events: seq<Event>, admitted: seq<bool>, states: seq<State>) {
    && |states| == |events| + 1 && |admitted| == |events|
    && forall k :: 0 <= k < |events| ==> Step(topo, events[k], admitted[k], states[k], states[k + 1])
  }

  /** The ledger holds at every point of every run. */
  lemma {:induction false} LedgerAlwaysHolds(topo: Topology, events: seq<Event>, admitted: seq<bool>,
                                             states: seq<State>, k: nat)
    requires History(topo, events, admitted, states) && LedgerHolds(topo, states[0]) && k < |states|
    ensures LedgerHolds(topo, states[k])
  {
    hide LedgerHolds, Step;
    if k > 0 {
      LedgerAlwaysHolds(topo, events, admitted, states, k - 1);
      StepKeepsLedger(topo, events[k - 1], admitted[k - 1], states[k - 1], states[k]);
    }
  }

  /** Slice id arrived at event i and did not depart before event k. */
  ghost predicate StillIn(events: seq<Event>, id: RequestId, i: nat, k: nat) {
    && i < k <= |events| && events[i].Arrival? && events[i].req.id == id
    && forall j :: i < j < k ==> events[j] != Departure(id)
  }

  /** Whatever is active arrived and has not departed since. */
  lemma {:induction false} ActiveArrived(topo: Topology, events: seq<Event>, admitted: seq<bool>, states: seq<State>,
                                         k: nat, m: nat) returns (i: nat)
    requires History(topo, events, admitted, states) && LedgerHolds(topo, states[0]) && states[0].active == []
    requires k < |states| && m < |states[k].active|
    ensures StillIn(events, states[k].active[m].0, i, k)
  {
    var s, t := states[k - 1], states[k];
    LedgerAlwaysHolds(topo, events, admitted, states, k - 1);
    assert Step(topo, events[k - 1], admitted[k - 1], s, t);
    HeldBefore(topo, events[k - 1], admitted[k - 1], s, t, m);
    hide LedgerHolds, Step;
    if m == |s.active| {
      i := k - 1;
    } else if m < |s.active| && s.active[m].0 == t.active[m].0 {
      i := ActiveArrived(topo, events, admitted, states, k - 1, m);
    } else {
      i := ActiveArrived(topo, events, admitted, states, k - 1, m + 1);
    }
  }

  /** An entry after an event is the one just admitted, or was held before and did not depart. */
  lemma HeldBefore(topo: Topology, ev: Event, admitted: bool, s: State, t: State, m: nat)
    requires LedgerHolds(topo, s) && Step(topo, ev, admitted, s, t) && m < |t.active|
    ensures if m == |s.active| then ev.Arrival? && ev.req.id == t.active[m].0
            else m < |s.active| && (s.active[m].0 == t.active[m].0
                                    || (m + 1 < |s.active| && s.active[m + 1].0 == t.active[m].0))
                 && ev != Departure(t.active[m].0)
  {
    hide Taken, Plan.WellFormed, Plan.NonNegative;
    match ev
    case Arrival(req) =>
    case Departure(id) =>
      FindIsMember(s.active, id);
      if Find(s.active, id).Some? {
        var i: nat :| i < |s.active| && s.active[i].0 == id && DepartStep(topo, s, t, i);
        assert t.active[m] == if m < i then s.active[m] else s.active[m + 1];
      } else {
        assert s.active[m] in s.active;
      }
    case Other =>
  }

  /** If every arrival is followed by its departure, the run ends with full capacities. */
  lemma {:induction false} AllDeparted(topo: Topology, events: seq<Event>, admitted: seq<bool>, states: seq<State>)
    requires History(topo, events, admitted, states) && LedgerHolds(topo, states[0]) && states[0].active == []
    requires forall i :: 0 <= i < |events| && events[i].Arrival? ==>
               exists j :: i < j < |events| && events[j] == Departure(events[i].req.id)
    ensures states[|events|].active == [] && AtFullCapacity(topo, states[|events|])
  {
    var last := states[|events|];
    hide LedgerHolds, Step;
    LedgerAlwaysHolds(topo, events, admitted, states, |events|);
    if last.active != [] {
      var i := ActiveArrived(topo, events, admitted, states, |events|, 0);
      assert false;
    }
    EmptyMeansFull(topo, last);
  }

  // The program.

  /** Domains of the placed chain, in chain order. */
  function HostDomains(topo: Topology, vnfs: seq<Vnf>, plan: Plan): seq<DomainId> {
    seq(|vnfs|, k requires 0 <= k < |vnfs| =>
      var n := Find(plan.placements, vnfs[k].id);
      if n.Some? then topo.DomainOf(n.value) else -1)
  }

  /** The plan puts the VNF on a node of the domain. */
  ghost predicate HostedIn(topo: Topology, plan: Plan, vnf: VnfId, d: DomainId) {
    var n := Find(plan.placements, vnf);
    n.Some? && n.value in topo.attr && topo.attr[n.value].domain == d
  }

  /** The chain leaves domain d between positions i and k. */
  ghost predicate LeavesBetween(topo: Topology, vnfs: seq<Vnf>, plan: Plan, i: int, j: int, k: int, d: DomainId) {
    && 0 <= i < j < k < |vnfs| && HostedIn(topo, plan, vnfs[i].id, d) && HostedIn(topo, plan, vnfs[k].id, d)
    && !HostedIn(topo, plan, vnfs[j].id, d)
  }

  /** Along the chain no domain is left and entered again. */
  ghost predicate KeptTogether(topo: Topology, vnfs: seq<Vnf>, plan: Plan) {
    forall i, j, k, d :: !LeavesBetween(topo, vnfs, plan, i, j, k, d)
  }

  /** The order test on a complete plan. */
  lemma OrderMeans(topo: Topology, node0: map<NodeId, Amount>, bw0: seq<real>, req: Request, nodes: seq<NodeId>,
                   plan: Plan, enforceOrder: bool)
    requires |bw0| == |topo.links| && SafePlan(topo, node0, bw0, req, nodes, plan)
    ensures Violates(HostDomains(topo, req.vnfs, plan), enforceOrder)
       <==> enforceOrder && !KeptTogether(topo, req.vnfs, plan)
  {
    var ds := HostDomains(topo, req.vnfs, plan);
    forall k, d | 0 <= k < |req.vnfs| ensures HostedIn(topo, plan, req.vnfs[k].id, d) <==> ds[k] == d {
      assert req.vnfs[k] in req.vnfs && VnfServed(topo, nodes, plan, req.vnfs[k]);
    }
    hide SafePlan, HostedIn, Find, IsContiguous;
    ContiguousIffNoReentry(ds);
    if KeptTogether(topo, req.vnfs, plan) {
      forall i, j, k ensures !Reenters(ds, i, j, k) {
        if 0 <= i < j < k < |ds| {
          assert !LeavesBetween(topo, req.vnfs, plan, i, j, k, ds[i]);
        }
      }
    }
    if NoReentry(ds) {
      forall i, j, k, d ensures !LeavesBetween(topo, req.vnfs, plan, i, j, k, d) {
        assert !Reenters(ds, i, j, k);
      }
    }
  }

  /** The quality-of-service gate on a planned slice. */
  type QosGate = (Request, Plan, map<NodeId, Amount>, seq<real>) -> bool

  ghost function StateOf(sub: SubstrateNetwork): State
    reads sub
  {
    State(sub.node, sub.bw, sub.active)
  }

  /** What each verdict means for the plan at hand. A placement is refused exactly when the chain
      is stuck in every domain alone and over the whole substrate; the other verdicts say which
      test the plan failed first. */
  ghost predicate Judged(topo: Topology, s: State, req: Request, plan: Plan, enforceOrder: bool, qos: QosGate,
                         v: Verdict)
    requires |s.bw| == |topo.links|
  {
    var ordered := enforceOrder ==> KeptTogether(topo, req.vnfs, plan);
    var gated := qos(req, plan, s.node, s.bw);
    && (v.NoPlacement? <==> NothingPlaces(topo, s, req))
    && (!v.NoPlacement? ==> SafePlan(topo, s.node, s.bw, req, topo.order, plan) && PlannedBy(topo, s, req, plan))
    && match v
       case NoPlacement => true
       case OutOfOrder => !ordered
       case QosRefused => ordered && !gated
       case AllocateFailed => ordered && gated && Find(s.active, req.id).Some?
       case Admitted => ordered && gated && Find(s.active, req.id).None?
  }

  ghost predicate NothingPlaces(topo: Topology, s: State, req: Request)
    requires |s.bw| == |topo.links|
  {
    AllStuck(topo, s.node, s.bw, req) && RunStuck(topo, s.node, s.bw, req, MostFree, topo.order)
  }

  /** The plan is the co-location baseline's: inside a domain that takes the chain when none with
      more free CPU does, or over the whole substrate when no domain takes it. */
  ghost predicate PlannedBy(topo: Topology, s: State, req: Request, plan: Plan)
    requires |s.bw| == |topo.links|
  {
    if AllStuck(topo, s.node, s.bw, req) then ByRule(topo, s.node, s.bw, req, MostFree, topo.order, plan)
    else exists d :: FirstServed(topo, s.node, s.bw, req, d)
                  && ByRule(topo, s.node, s.bw, req, TightestFit, topo.NodesInDomain(d), plan)
  }

  /** One arrival: plan, judge, allocate. Whatever the reason, a rejected arrival changes
      nothing. */
  method OnArrival(sub: SubstrateNetwork, req: Request, w: CostWeights, enforceOrder: bool, qos: QosGate)
    returns (v: Verdict, plan: Plan)
    requires sub.Valid() && LedgerHolds(sub.topo, StateOf(sub)) && req.IsChain()
    modifies sub
    ensures sub.Valid() && LedgerHolds(sub.topo, StateOf(sub))
    ensures Step(sub.topo, Arrival(req), v.Admitted?, old(StateOf(sub)), StateOf(sub))
    ensures v.Admitted? ==> sub.active == old(sub.active) + [(req.id, (plan, req))]
    ensures Judged(sub.topo, old(StateOf(sub)), req, plan, enforceOrder, qos, v)
  {
    hide Topology.Valid, SafePlan, CostsAddUp, Taken, RegistryOk, Find, RunStuck, AllStuck, FirstServed, ByRule;
    ghost var before := StateOf(sub);
    plan := Plan([], map[], map[], []);
    var r, single := ColocationFirst(sub, req, w);
    if r.NoPlan? {
      return NoPlacement, plan;
    }
    plan := r.plan;
    PlanIsColocation(sub.topo, before, req, plan, single);
    OrderMeans(sub.topo, sub.node, sub.bw, req, sub.topo.order, plan, enforceOrder);
    hide PlannedBy, KeptTogether, Violates;
    if Violates(HostDomains(sub.topo, req.vnfs, plan), enforceOrder) {
      return OutOfOrder, plan;
    }
    if !qos(req, plan, sub.node, sub.bw) {
      return QosRefused, plan;
    }
    SafeTaking(sub.topo, sub.node, sub.bw, req, sub.topo.order, plan);
    var ok := sub.Allocate(plan, req);
    if !ok {
      return AllocateFailed, plan;
    }
    assert AdmitStep(sub.topo, before, StateOf(sub), req, plan);
    AdmitKeepsLedger(sub.topo, before, StateOf(sub), req, plan);
    v := Admitted;
  }

  lemma PlanIsColocation(topo: Topology, s: State, req: Request, plan: Plan, single: Option<DomainId>)
    requires |s.bw| == |topo.links| && (single.None? <==> AllStuck(topo, s.node, s.bw, req))
    requires single.Some? ==> FirstServed(topo, s.node, s.bw, req, single.value)
                              && ByRule(topo, s.node, s.bw, req, TightestFit, topo.NodesInDomain(single.value), plan)
    requires single.None? ==> ByRule(topo, s.node, s.bw, req, MostFree, topo.order, plan)
    ensures PlannedBy(topo, s, req, plan)
  {
    hide ByRule, AllStuck, FirstServed;
  }

  /** One departure: a slice that is held is given back, any other id is ignored. */
  method OnDeparture(sub: SubstrateNetwork, held: Registry, id: RequestId) returns (held': Registry)
    requires sub.Valid() && LedgerHolds(sub.topo, StateOf(sub)) && held == sub.active
    modifies sub
    ensures sub.Valid() && LedgerHolds(sub.topo, StateOf(sub)) && held' == sub.active
    ensures Step(sub.topo, Departure(id), false, old(StateOf(sub)), StateOf(sub))
  {
    hide Topology.Valid, Taken;
    ghost var before := StateOf(sub);
    held' := held;
    var entry := Find(held, id);
    if entry.Some? {
      var i := Position(held, id);
      var ok := sub.Deallocate(entry.value.0, entry.value.1);
      held' := Remove(held, id);
      assert DepartStep(sub.topo, before, StateOf(sub), i);
      DepartKeepsLedger(sub.topo, before, StateOf(sub), i);
    }
  }

  // Whole runs.

  /** One event handled: an arrival is judged and admitted or turned away, a departure gives its
      slice back. */
  ghost predicate Handled(topo: Topology, ev: Event, enforceOrder: bool, qos: QosGate, told: Told, s: State, t: State)
    requires |s.bw| == |topo.links|
  {
    && Step(topo, ev, told.verdict == Some(Admitted), s, t)
    && match ev
       case Arrival(req) =>
         && told.verdict.Some? && Judged(topo, s, req, told.plan, enforceOrder, qos, told.verdict.value)
         && (told.verdict.value.Admitted? ==> t.active == s.active + [(req.id, (told.plan, req))])
       case _ => told.verdict.None?
  }

  /** What was decided about one event. */
  datatype Told = Told(verdict: Option<Verdict>, plan: Plan)

  /** A record of the run: what was decided about each event, and the state around it. */
  ghost predicate Record(topo: Topology, events: seq<Event>, enforceOrder: bool, qos: QosGate, told: seq<Told>,
                         states: seq<State>)
  {
    && |states| == |events| + 1 && |told| == |events|
    && (forall k :: 0 <= k < |states| ==> |states[k].bw| == |topo.links|)
    && forall k :: 0 <= k < |events| ==> Handled(topo, events[k], enforceOrder, qos, told[k], states[k], states[k + 1])
  }

  function Flags(told: seq<Told>): (r: seq<bool>)
    ensures |r| == |told|
  {
    seq(|told|, k requires 0 <= k < |told| => told[k].verdict == Some(Admitted))
  }

  /** The admission flags of the arrivals, in order. */
  function AdmitFlags(told: seq<Told>): seq<bool> {
    if told == [] then []
    else
      var last := told[|told| - 1].verdict;
      AdmitFlags(told[..|told| - 1]) + if last.Some? then [last.value.Admitted?] else []
  }

  /** How many events got this verdict. */
  function Times(told: seq<Told>, v: Verdict): nat {
    if told == [] then 0 else Times(told[..|told| - 1], v) + if told[|told| - 1].verdict == Some(v) then 1 else 0
  }

  /** The cause counters of a run. */
  function Tally(told: seq<Told>): Causes {
    Causes(Times(told, NoPlacement), Times(told, OutOfOrder), Times(told, QosRefused), Times(told, AllocateFailed))
  }

  /** A record is a history the ledger lemmas speak about. */
  lemma RecordIsHistory(topo: Topology, events: seq<Event>, enforceOrder: bool, qos: QosGate, told: seq<Told>,
                        states: seq<State>)
    requires Record(topo, events, enforceOrder, qos, told, states)
    ensures History(topo, events, Flags(told), states)
  {
    hide Step, Judged;
    forall k | 0 <= k < |events| ensures Step(topo, events[k], Flags(told)[k], states[k], states[k + 1]) {
      assert Handled(topo, events[k], enforceOrder, qos, told[k], states[k], states[k + 1]);
    }
  }

  lemma RecordNext(topo: Topology, events: seq<Event>, k: nat, enforceOrder: bool, qos: QosGate, told: seq<Told>,
                   states: seq<State>, next: Told, t: State)
    requires k < |events| && Record(topo, events[..k], enforceOrder, qos, told, states) && |t.bw| == |topo.links|
    requires |states[k].bw| == |topo.links| && Handled(topo, events[k], enforceOrder, qos, next, states[k], t)
    ensures Record(topo, events[..k + 1], enforceOrder, qos, told + [next], states + [t])
  {
    hide Handled;
    var evs, tolds, ss := events[..k + 1], told + [next], states + [t];
    forall j | 0 <= j < |evs| ensures Handled(topo, evs[j], enforceOrder, qos, tolds[j], ss[j], ss[j + 1]) {
      if j < k {
        assert Handled(topo, events[..k][j], enforceOrder, qos, told[j], states[j], states[j + 1]);
      }
    }
  }

  lemma CountersNext(told: seq<Told>, next: Told)
    ensures AdmitFlags(told + [next])
         == AdmitFlags(told) + if next.verdict.Some? then [next.verdict.value.Admitted?] else []
    ensures Tally(told + [next]) == if next.verdict.Some? then Counted(Tally(told), next.verdict.value) else Tally(told)
    ensures Times(told + [next], Admitted) == Times(told, Admitted) + if next.verdict == Some(Admitted) then 1 else 0
  {
    assert (told + [next])[..|told|] == told;
  }

  lemma CountNext(bs: seq<bool>, b: bool)
    ensures Count(bs + [b]) == Count(bs) + if b then 1 else 0
  {
    assert (bs + [b])[..|bs|] == bs;
  }

  lemma NothingCounted()
    ensures AdmitFlags([]) == [] && Count([]) == 0 && Times([], Admitted) == 0 && Tally([]).Total() == 0
    ensures Arrivals([]) == 0
  {}

  lemma OneMoreCause(c: Causes, v: Verdict)
    ensures Counted(c, v).Total() == c.Total() + if v.Admitted? then 0 else 1
  {}

  /** Every arrival is admitted or counted under exactly one cause. */
  lemma {:induction false} EveryArrivalCounted(topo: Topology, events: seq<Event>, enforceOrder: bool, qos: QosGate,
                                               told: seq<Told>, states: seq<State>)
    requires Record(topo, events, enforceOrder, qos, told, states)
    ensures |AdmitFlags(told)| == Arrivals(events) && Count(AdmitFlags(told)) == Times(told, Admitted)
    ensures Times(told, Admitted) + Tally(told).Total() == Arrivals(events)
  {
    hide Record, AdmitFlags, Count, Times, Tally, Counted, Causes.Total;
    RecordLength(topo, events, enforceOrder, qos, told, states);
    if events == [] {
      NothingCounted();
    } else {
      var n := |events| - 1;
      var last := told[n];
      RecordFront(topo, events, enforceOrder, qos, told, states);
      EveryArrivalCounted(topo, events[..n], enforceOrder, qos, told[..n], states[..n + 1]);
      assert told == told[..n] + [last];
      CountersNext(told[..n], last);
      if last.verdict.Some? {
        CountNext(AdmitFlags(told[..n]), last.verdict.value.Admitted?);
        OneMoreCause(Tally(told[..n]), last.verdict.value);
      } else {
        assert AdmitFlags(told[..n]) + [] == AdmitFlags(told[..n]);
      }
    }
  }

  lemma RecordLength(topo: Topology, events: seq<Event>, enforceOrder: bool, qos: QosGate, told: seq<Told>,
                     states: seq<State>)
    requires Record(topo, events, enforceOrder, qos, told, states)
    ensures |states| == |events| + 1 && |told| == |events|
    ensures events != [] ==> (told[|events| - 1].verdict.Some? <==> events[|events| - 1].Arrival?)
  {
    hide Step, Judged;
    if events != [] {
      var n := |events| - 1;
      assert Handled(topo, events[n], enforceOrder, qos, told[n], states[n], states[n + 1]);
    }
  }

  lemma RecordFront(topo: Topology, events: seq<Event>, enforceOrder: bool, qos: QosGate, told: seq<Told>,
                    states: seq<State>)
    requires Record(topo, events, enforceOrder, qos, told, states) && events != []
    ensures var n := |events| - 1; Record(topo, events[..n], enforceOrder, qos, told[..n], states[..n + 1])
  {
    hide Handled;
    var n := |events| - 1;
    forall k | 0 <= k < n
      ensures Handled(topo, events[..n][k], enforceOrder, qos, told[..n][k], states[..n + 1][k], states[..n + 1][k + 1])
    {
      assert Handled(topo, events[k], enforceOrder, qos, told[k], states[k], states[k + 1]);
    }
  }

  ghost predicate DistinctArrivals(events: seq<Event>) {
    forall i, j :: 0 <= i < j < |events| && events[i].Arrival? && events[j].Arrival? ==>
          events[i].req.id != events[j].req.id
  }

  /** With distinct request ids the allocation never fails. */
  lemma {:induction false} AllocationNeverFails(topo: Topology, events: seq<Event>, enforceOrder: bool, qos: QosGate,
                                                told: seq<Told>, states: seq<State>, k: nat)
    requires Record(topo, events, enforceOrder, qos, told, states) && DistinctArrivals(events)
    requires LedgerHolds(topo, states[0]) && states[0].active == [] && k < |events|
    ensures told[k].verdict != Some(AllocateFailed)
  {
    RecordIsHistory(topo, events, enforceOrder, qos, told, states);
    assert Handled(topo, events[k], enforceOrder, qos, told[k], states[k], states[k + 1]);
    hide LedgerHolds, Step, History, SafePlan, PlannedBy, NothingPlaces;
    if told[k].verdict == Some(AllocateFailed) {
      var id := events[k].req.id;
      FindIsMember(states[k].active, id);
      var m :| 0 <= m < |states[k].active| && states[k].active[m].0 == id;
      var i := ActiveArrived(topo, events, Flags(told), states, k, m);
      assert false;
    }
  }

  lemma {:induction false} NeverTold(told: seq<Told>, v: Verdict)
    requires forall k :: 0 <= k < |told| ==> told[k].verdict != Some(v)
    ensures Times(told, v) == 0
  {
    if told != [] {
      NeverTold(told[..|told| - 1], v);
    }
  }

  /** One episode. The record says what was decided about every event and why; the flags and the
      counters reported are the record's own. */
  method RunPlain(sub: SubstrateNetwork, events: seq<Event>, w: CostWeights, enforceOrder: bool, qos: QosGate)
    returns (admits: seq<bool>, causes: Causes, ghost told: seq<Told>, ghost states: seq<State>)
    requires sub.Valid() && LedgerHolds(sub.topo, StateOf(sub)) && sub.active == []
    requires forall k :: 0 <= k < |events| && events[k].Arrival? ==> events[k].req.IsChain()
    modifies sub
    ensures sub.Valid() && LedgerHolds(sub.topo, StateOf(sub))
    ensures Record(sub.topo, events, enforceOrder, qos, told, states)
    ensures states[0] == old(StateOf(sub)) && states[|events|] == StateOf(sub)
    ensures admits == AdmitFlags(told) && causes == Tally(told)
    ensures |admits| == Arrivals(events) && Count(admits) + causes.Total() == |admits|
    ensures DistinctArrivals(events) ==> causes.allocateFailed == 0
  {
    admits, causes := [], Causes(0, 0, 0, 0);
    var held: Registry := [];
    told, states := [], [StateOf(sub)];
    assert events[..0] == [];
    assert Record(sub.topo, events[..0], enforceOrder, qos, told, states);
    hide Topology.Valid, LedgerHolds, Handled, Record, Request.IsChain, AdmitFlags, Tally, Counted;
    var k := 0;
    while k < |events|
      invariant 0 <= k <= |events| && sub.Valid() && LedgerHolds(sub.topo, StateOf(sub)) && held == sub.active
      invariant |states| == k + 1 && states[k] == StateOf(sub) && states[0] == old(StateOf(sub))
      invariant Record(sub.topo, events[..k], enforceOrder, qos, told, states)
      invariant admits == AdmitFlags(told) && causes == Tally(told)
    {
      var verdict;
      ghost var plan;
      verdict, held, plan := OnEvent(sub, events[k], held, w, enforceOrder, qos);
      ghost var next := Told(verdict, plan);
      RecordNext(sub.topo, events, k, enforceOrder, qos, told, states, next, StateOf(sub));
      CountersNext(told, next);
      told, states := told + [next], states + [StateOf(sub)];
      if verdict.Some? {
        causes := Counted(causes, verdict.value);
        admits := admits + [verdict.value.Admitted?];
      }
      k := k + 1;
    }
    assert events[..k] == events;
    EveryArrivalCounted(sub.topo, events, enforceOrder, qos, told, states);
    NoAllocationFails(sub.topo, events, enforceOrder, qos, told, states);
  }

  lemma NoAllocationFails(topo: Topology, events: seq<Event>, enforceOrder: bool, qos: QosGate, told: seq<Told>,
                          states: seq<State>)
    requires Record(topo, events, enforceOrder, qos, told, states)
    requires LedgerHolds(topo, states[0]) && states[0].active == []
    ensures DistinctArrivals(events) ==> Tally(told).allocateFailed == 0
  {
    if DistinctArrivals(events) {
      forall k | 0 <= k < |told| ensures told[k].verdict != Some(AllocateFailed) {
        AllocationNeverFails(topo, events, enforceOrder, qos, told, states, k);
      }
      NeverTold(told, AllocateFailed);
    }
  }

  /** Handle one event; arrivals get a verdict. */
  method OnEvent(sub: SubstrateNetwork, ev: Event, held: Registry, w: CostWeights, enforceOrder: bool, qos: QosGate)
    returns (verdict: Option<Verdict>, held': Registry, ghost plan: Plan)
    requires sub.Valid() && LedgerHolds(sub.topo, StateOf(sub)) && held == sub.active
    requires ev.Arrival? ==> ev.req.IsChain()
    modifies sub
    ensures sub.Valid() && LedgerHolds(sub.topo, StateOf(sub)) && held' == sub.active
    ensures Handled(sub.topo, ev, enforceOrder, qos, Told(verdict, plan), old(StateOf(sub)), StateOf(sub))
  {
    hide Topology.Valid, LedgerHolds, AdmitStep, DepartStep, Find, Request.IsChain, Judged;
    verdict, held', plan := None, held, Plan([], map[], map[], []);
    match ev
    case Arrival(req) =>
      var v, p := OnArrival(sub, req, w, enforceOrder, qos);
      verdict, plan := Some(v), p;
      if v.Admitted? {
        held' := held + [(req.id, (p, req))];
      }
    case Departure(id) =>
      held' := OnDeparture(sub, held, id);
    case Other =>
  }

  function Arrivals(events: seq<Event>): nat {
    if events == [] then 0 else Arrivals(events[..|events| - 1]) + if events[|events| - 1].Arrival? then 1 else 0
  }

  function Count(bs: seq<bool>): nat {
    if bs == [] then 0 else Count(bs[..|bs| - 1]) + if bs[|bs| - 1] then 1 else 0
  }
}
