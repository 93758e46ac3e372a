/** The LLM-free plan builders: the greedy best-slack builder over the summaries and the
    enumerating full-observability builder. Both only author committable partitions. */
module Builders {
  import opened Types
  import opened ChainOrder
  import opened Admissibility
  import opened Sorting

  // Greedy best slack.

  /** What is left of domain m after the prefix and the next VNF: the smaller of CPU and RAM. */
  function Slack(v: View, prefix: seq<nat>, m: nat): real
    requires |prefix| < |v.vnfs| && m < |v.summaries|
  {
    SlackOf(v.summaries[m].residual.Minus(DemandAt(v.vnfs, prefix, m)), v.vnfs[|prefix|].demand)
  }

  function SlackOf(left: Amount, demand: Amount): real {
    var a := left.Minus(demand);
    if a.cpu <= a.ram then a.cpu else a.ram
  }

  /** A domain the chain has already left. */
  predicate Closed(prefix: seq<nat>, m: nat) {
    m in prefix && prefix[|prefix| - 1] != m
  }

  predicate Candidate(v: View, prefix: seq<nat>, m: nat)
    requires |prefix| < |v.vnfs|
  {
    m < |v.summaries| && v.Admissible(|prefix|, m) && !Closed(prefix, m)
  }

  /** The next VNF has a seat in domain m, and the chain is in m or has not been there. */
  ghost predicate Open(v: View, prefix: seq<nat>, m: nat) {
    Seated(v, |prefix|, m) && forall i :: 0 <= i < |prefix| && prefix[i] == m ==> prefix[|prefix| - 1] == m
  }

  /** What m has left after the prefix and the next VNF, in the resource it has less of. */
  ghost function Spare(v: View, prefix: seq<nat>, m: nat): real
    requires |prefix| < |v.vnfs| && m < |v.summaries|
  {
    var left, demand := v.summaries[m].residual, v.vnfs[|prefix|].demand;
    Smaller(left.cpu - CpuSent(v.vnfs, prefix, m) - demand.cpu, left.ram - RamSent(v.vnfs, prefix, m) - demand.ram)
  }

  ghost function Smaller(a: real, b: real): real {
    if a < b then a else b
  }

  /** The greedy rule: the open domain with the most to spare, the larger index on a tie, and
      something must be left. */
  ghost predicate BestNext(v: View, prefix: seq<nat>, m: nat)
    requires |prefix| < |v.vnfs|
  {
    && Open(v, prefix, m) && Spare(v, prefix, m) > 0.0
    && forall c: nat :: Open(v, prefix, c) ==>
         Spare(v, prefix, c) < Spare(v, prefix, m) || (Spare(v, prefix, c) == Spare(v, prefix, m) && c <= m)
  }

  ghost predicate FollowsRule(v: View, c: seq<nat>) {
    |c| <= |v.vnfs| && forall k :: 0 <= k < |c| ==> BestNext(v, c[..k], c[k])
  }

  /** No open domain would have anything left after the next VNF. */
  ghost predicate Stuck(v: View, prefix: seq<nat>) {
    |prefix| < |v.vnfs| && forall c: nat :: Open(v, prefix, c) ==> Spare(v, prefix, c) <= 0.0
  }

  /** The candidates are the open domains, and their slack is what they have to spare. */
  lemma CandidateMeans(v: View, prefix: seq<nat>, m: nat)
    requires |prefix| < |v.vnfs|
    ensures Candidate(v, prefix, m) <==> Open(v, prefix, m)
    ensures m < |v.summaries| ==> Slack(v, prefix, m) == Spare(v, prefix, m)
  {
    hide View.Admissible, Seated, DemandAt, CpuSent, RamSent;
    if m < |v.summaries| {
      AdmissibleMeans(v, |prefix|, m);
      DemandIsSent(v.vnfs, prefix, m);
    } else {
      SeatIsDomain(v, |prefix|, m);
    }
  }

  lemma SeatIsDomain(v: View, k: nat, m: nat)
    ensures Seated(v, k, m) ==> m < |v.summaries|
  {}

  lemma CandidatesMean(v: View, prefix: seq<nat>)
    requires |prefix| < |v.vnfs|
    ensures forall m: nat :: Candidate(v, prefix, m) <==> Open(v, prefix, m)
    ensures forall m: nat :: m < |v.summaries| ==> Slack(v, prefix, m) == Spare(v, prefix, m)
  {
    forall m: nat ensures Candidate(v, prefix, m) <==> Open(v, prefix, m)
      ensures m < |v.summaries| ==> Slack(v, prefix, m) == Spare(v, prefix, m)
    {
      CandidateMeans(v, prefix, m);
    }
  }

  /** The best candidate by (slack, index), if any. */
  ghost predicate Picked(v: View, prefix: seq<nat>, best: Option<nat>)
    requires |prefix| < |v.vnfs|
  {
    match best
    case None => forall c: nat :: !Candidate(v, prefix, c)
    case Some(m) =>
      && Candidate(v, prefix, m)
      && forall c: nat :: Candidate(v, prefix, c) ==>
           Slack(v, prefix, c) < Slack(v, prefix, m) || (Slack(v, prefix, c) == Slack(v, prefix, m) && c <= m)
  }

  method PickBest(v: View, prefix: seq<nat>, est: seq<Amount>, closed: set<nat>) returns (best: Option<nat>)
    requires |prefix| < |v.vnfs| && |est| == |v.summaries|
    requires forall m :: 0 <= m < |est| ==> est[m] == v.summaries[m].residual.Minus(DemandAt(v.vnfs, prefix, m))
    requires forall m: nat :: m in closed <==> Closed(prefix, m)
    ensures Picked(v, prefix, best)
  {
    hide DemandAt, View.Admissible;
    best := None;
    var k, m := |prefix|, 0;
    while m < |est|
      invariant 0 <= m <= |est|
      invariant best.None? ==> forall c: nat :: c < m ==> !Candidate(v, prefix, c)
      invariant best.Some? ==> best.value < m && Candidate(v, prefix, best.value)
      invariant best.Some? ==> forall c: nat :: c < m && Candidate(v, prefix, c) ==>
                  Slack(v, prefix, c) < Slack(v, prefix, best.value)
                  || (Slack(v, prefix, c) == Slack(v, prefix, best.value) && c <= best.value)
    {
      assert Candidate(v, prefix, m) <==> v.Admissible(k, m) && m !in closed;
      if v.Admissible(k, m) && m !in closed {
        assert Slack(v, prefix, m) == SlackOf(est[m], v.vnfs[k].demand);
        if best.None? || SlackOf(est[m], v.vnfs[k].demand) >= SlackOf(est[best.value], v.vnfs[k].demand) {
          best := Some(m);
        }
      }
      m := m + 1;
    }
  }

  /** Running estimates and closed domains agree with the prefix chosen so far. */
  ghost predicate Tracks(v: View, chosen: seq<nat>, est: seq<Amount>, closed: set<nat>) {
    && |chosen| <= |v.vnfs| && (forall k :: 0 <= k < |chosen| ==> chosen[k] < |v.summaries|)
    && |est| == |v.summaries|
    && (forall m :: 0 <= m < |est| ==> est[m] == v.summaries[m].residual.Minus(DemandAt(v.vnfs, chosen, m)))
    && (forall m :: m in chosen ==> est[m].Covers(ZERO))
    && (forall m: nat :: m in closed <==> Closed(chosen, m))
  }

  lemma TracksNext(v: View, chosen: seq<nat>, est: seq<Amount>, closed: set<nat>, m: nat)
    requires Tracks(v, chosen, est, closed) && |chosen| < |v.vnfs| && m < |v.summaries| && m !in closed
    requires SlackOf(est[m], v.vnfs[|chosen|].demand) > 0.0
    ensures Tracks(v, chosen + [m], est[m := est[m].Minus(v.vnfs[|chosen|].demand)],
                   if chosen != [] && m != chosen[|chosen| - 1] then closed + {chosen[|chosen| - 1]} else closed)
  {
    hide DemandAt, Closed;
    var next := chosen + [m];
    forall x | 0 <= x < |est| ensures
        DemandAt(v.vnfs, next, x) == DemandAt(v.vnfs, chosen, x).Plus(if x == m then v.vnfs[|chosen|].demand else ZERO)
    {
      DemandNext(v, chosen, m, x);
    }
    ClosedNext(chosen, m);
  }

  lemma DemandNext(v: View, chosen: seq<nat>, m: nat, x: nat)
    requires |chosen| < |v.vnfs|
    ensures DemandAt(v.vnfs, chosen + [m], x)
         == DemandAt(v.vnfs, chosen, x).Plus(if x == m then v.vnfs[|chosen|].demand else ZERO)
  {
    assert (chosen + [m])[..|chosen|] == chosen;
  }

  lemma ClosedNext(chosen: seq<nat>, m: nat)
    requires !Closed(chosen, m)
    ensures forall x: nat :: Closed(chosen + [m], x) <==>
              Closed(chosen, x) || (chosen != [] && m != chosen[|chosen| - 1] && x == chosen[|chosen| - 1])
  {
    assert (chosen + [m])[|chosen|] == m;
  }

  method PartialObsBuilder(v: View) returns (r: Option<seq<nat>>)
    ensures r.Some? ==> |r.value| == |v.vnfs| && FollowsRule(v, r.value) && Committable(v, r.value)
    ensures r.None? ==> exists prefix :: FollowsRule(v, prefix) && Stuck(v, prefix)
  {
    hide DemandAt, View.Admissible, Slack, BestNext, Stuck, Picked, Open, Spare;
    var est := seq(|v.summaries|, m requires 0 <= m < |v.summaries| => v.summaries[m].residual);
    var chosen: seq<nat>, closed: set<nat> := [], {};
    NothingChosen(v, est);
    while |chosen| < |v.vnfs|
      invariant Tracks(v, chosen, est, closed) && NoReentry(chosen) && FollowsRule(v, chosen)
      decreases |v.vnfs| - |chosen|
    {
      var k := |chosen|;
      var best := PickBest(v, chosen, est, closed);
      PickedMeans(v, chosen, best);
      if best.None? {
        return None;
      }
      var m := best.value;
      SlackIsEstimate(v, chosen, est, closed, m);
      if SlackOf(est[m], v.vnfs[k].demand) <= 0.0 {
        return None;
      }
      TracksNext(v, chosen, est, closed, m);
      StaysContiguous(chosen, m);
      RuleNext(v, chosen, m);
      if chosen != [] && m != chosen[k - 1] {
        closed := closed + {chosen[k - 1]};
      }
      est := est[m := est[m].Minus(v.vnfs[k].demand)];
      chosen := chosen + [m];
    }
    RuleCommits(v, chosen, est, closed);
    r := Some(chosen);
  }

  /** The pick follows the rule, and leaves the chain stuck when it has nothing to spare. */
  lemma PickedMeans(v: View, prefix: seq<nat>, best: Option<nat>)
    requires |prefix| < |v.vnfs| && Picked(v, prefix, best)
    ensures best.None? ==> Stuck(v, prefix)
    ensures best.Some? ==> Candidate(v, prefix, best.value)
    ensures best.Some? && Slack(v, prefix, best.value) <= 0.0 ==> Stuck(v, prefix)
    ensures best.Some? && Slack(v, prefix, best.value) > 0.0 ==> BestNext(v, prefix, best.value)
  {
    hide Open, Spare, Slack;
    CandidatesMean(v, prefix);
  }

  lemma NextIsAdmissible(v: View, prefix: seq<nat>, m: nat)
    requires |prefix| < |v.vnfs| && BestNext(v, prefix, m)
    ensures m < |v.summaries| && v.Admissible(|prefix|, m)
  {
    hide Open, Spare, Slack, View.Admissible;
    CandidateMeans(v, prefix, m);
  }

  lemma NothingChosen(v: View, est: seq<Amount>)
    requires |est| == |v.summaries| && forall m :: 0 <= m < |est| ==> est[m] == v.summaries[m].residual
    ensures Tracks(v, [], est, {})
  {}

  lemma SlackIsEstimate(v: View, chosen: seq<nat>, est: seq<Amount>, closed: set<nat>, m: nat)
    requires Tracks(v, chosen, est, closed) && |chosen| < |v.vnfs| && m < |v.summaries|
    ensures Slack(v, chosen, m) == SlackOf(est[m], v.vnfs[|chosen|].demand)
  {}

  lemma StaysContiguous(chosen: seq<nat>, m: nat)
    requires NoReentry(chosen) && !Closed(chosen, m)
    ensures NoReentry(chosen + [m])
  {
    var c, n := chosen + [m], |chosen|;
    forall i, j, k ensures !Reenters(c, i, j, k) {
      if k < n {
        assert !Reenters(chosen, i, j, k);
      } else if 0 <= i < j < k == n {
        assert c[i] == m ==> m in chosen;
        assert !Reenters(chosen, i, j, n - 1);
      }
    }
  }

  lemma RuleNext(v: View, chosen: seq<nat>, m: nat)
    requires FollowsRule(v, chosen) && |chosen| < |v.vnfs| && BestNext(v, chosen, m)
    ensures FollowsRule(v, chosen + [m])
  {
    hide BestNext;
    var c := chosen + [m];
    forall k | 0 <= k < |c| ensures BestNext(v, c[..k], c[k]) {
      assert c[..k] == chosen[..k];
      if k == |chosen| {
        assert chosen[..k] == chosen;
      }
    }
  }

  lemma RuleCommits(v: View, chosen: seq<nat>, est: seq<Amount>, closed: set<nat>)
    requires Tracks(v, chosen, est, closed) && NoReentry(chosen) && FollowsRule(v, chosen) && |chosen| == |v.vnfs|
    ensures Committable(v, chosen)
  {
    hide DemandAt, View.Admissible, Slack, BestNext;
    ContiguousIffNoReentry(chosen);
    forall k | 0 <= k < |chosen| ensures v.Admissible(k, chosen[k]) {
      NextIsAdmissible(v, chosen[..k], chosen[k]);
    }
    forall k | 0 <= k < |chosen| ensures v.summaries[chosen[k]].residual.Covers(DemandAt(v.vnfs, chosen, chosen[k])) {
      assert chosen[k] in chosen;
    }
  }

  /** What either builder authors passes the guard untouched. */
  lemma BuilderIsFixedPoint(v: View, c: seq<nat>, budget: nat, r: seq<DomainId>)
    requires v.Valid() && Committable(v, c)
    requires Repaired(v, DomainIds(v.summaries, c), budget, r)
    ensures r == DomainIds(v.summaries, c)
  {
    if Searchable(v, DomainIds(v.summaries, c), budget) {
      RoundTripIndices(v, c);
      CommittableIsFixed(v, DomainIds(v.summaries, c), budget, r);
    }
  }

  /** Contiguity of indices is contiguity of the domain ids the coordinator checks. */
  lemma SameContiguity(v: View, c: seq<nat>)
    requires v.Valid() && forall k :: 0 <= k < |c| ==> c[k] < |v.summaries|
    ensures IsContiguous(DomainIds(v.summaries, c)) <==> IsContiguous(c)
  {
    var d := DomainIds(v.summaries, c);
    ContiguousIffNoReentry(c);
    ContiguousIffNoReentry(d);
    assert forall i, j :: 0 <= i < |c| && 0 <= j < |c| ==> (d[i] == d[j] <==> c[i] == c[j]);
    forall i, j, k ensures Reenters(d, i, j, k) <==> Reenters(c, i, j, k) {}
  }

  // Enumeration with a delay model.

  /** The tightest CPU headroom among the domains the first i positions use. */
  function Tight(v: View, c: seq<nat>, i: nat): real
    requires i <= |c| <= |v.vnfs| && forall k :: 0 <= k < |c| ==> c[k] < |v.summaries|
  {
    if i == 0 then 0.0
    else
      var here := v.summaries[c[i - 1]].residual.cpu - DemandAt(v.vnfs, c, c[i - 1]).cpu;
      if i == 1 || here < Tight(v, c, i - 1) then here else Tight(v, c, i - 1)
  }

  /** The sort key of a candidate: fewest domains, then most headroom, then the candidate. */
  datatype Ranked = Ranked(domains: nat, tight: real, cand: seq<nat>)

  predicate RankLe(a: Ranked, b: Ranked) {
    || a.domains < b.domains
    || (a.domains == b.domains
        && (a.tight > b.tight || (a.tight == b.tight && (a.cand == b.cand || LexLess(a.cand, b.cand)))))
  }

  lemma RankIsTotal()
    ensures TotalOrder(RankLe)
  {
    forall a, b ensures RankLe(a, b) || RankLe(b, a) {
      if a.cand != b.cand {
        LexTotal(a.cand, b.cand);
      }
    }
    forall a, b, c | RankLe(a, b) && RankLe(b, c) ensures RankLe(a, c) {
      if LexLess(a.cand, b.cand) && LexLess(b.cand, c.cand) {
        LexTransitive(a.cand, b.cand, c.cand);
      }
    }
  }

  function RankOf(v: View, c: seq<nat>): Ranked
    requires |c| <= |v.vnfs| && forall k :: 0 <= k < |c| ==> c[k] < |v.summaries|
  {
    Ranked(|Domains(c)|, Tight(v, c, |c|), c)
  }

  datatype FullObsResult = NoPlan | TooLarge | Plan(chosen: seq<nat>)

  function SpaceSize(choices: seq<seq<nat>>): nat {
    if choices == [] then 1 else SpaceSize(choices[..|choices| - 1]) * |choices[|choices| - 1]|
  }

  /** The full-substrate delay prediction of a candidate; none when it is infinite. */
  type DelayModel = seq<nat> -> Option<real>

  predicate MeetsBudget(predicted: DelayModel, budget: Option<real>, c: seq<nat>) {
    predicted(c).Some? && (budget.None? || predicted(c).value <= budget.value)
  }

  /** CPU that the domain of position k has left under c. */
  ghost function Headroom(v: View, c: seq<nat>, k: nat): real
    requires k < |c| && c[k] < |v.summaries|
  {
    v.summaries[c[k]].residual.cpu - CpuSent(v.vnfs, c, c[k])
  }

  /** Every domain a uses has more CPU left than some domain b uses. */
  ghost predicate Roomier(v: View, a: seq<nat>, b: seq<nat>)
    requires Assignment(v, a) && Assignment(v, b)
  {
    exists j: nat :: j < |b| && forall i: nat :: i < |a| ==> Headroom(v, a, i) > Headroom(v, b, j)
  }

  /** Fewer domains; on equal domains a fullest domain with more CPU left; on equal CPU the smaller
      entry where they first differ. */
  ghost predicate NotAfter(v: View, a: seq<nat>, b: seq<nat>)
    requires Assignment(v, a) && Assignment(v, b)
  {
    || |Used(a)| < |Used(b)|
    || (|Used(a)| == |Used(b)|
        && (Roomier(v, a, b) || (!Roomier(v, b, a) && (a == b || SmallerFirst(a, b)))))
  }

  lemma {:induction false} TightIsLeast(v: View, c: seq<nat>, n: nat)
    requires Assignment(v, c) && 0 < n <= |c|
    ensures forall k: nat :: k < n ==> Tight(v, c, n) <= Headroom(v, c, k)
    ensures exists k: nat :: k < n && Tight(v, c, n) == Headroom(v, c, k)
  {
    DemandIsSent(v.vnfs, c, c[n - 1]);
    if n > 1 {
      TightIsLeast(v, c, n - 1);
    }
    assert Tight(v, c, n) == Headroom(v, c, n - 1) || n > 1;
  }

  lemma TighterMeans(v: View, a: seq<nat>, b: seq<nat>)
    requires Assignment(v, a) && Assignment(v, b)
    ensures Roomier(v, a, b) <==> Tight(v, a, |a|) > Tight(v, b, |b|)
  {
    hide Headroom;
    if a != [] {
      TightIsLeast(v, a, |a|);
      TightIsLeast(v, b, |b|);
    }
  }

  /** The sort key orders the candidates in that way. */
  lemma RankMeans(v: View, a: seq<nat>, b: seq<nat>)
    requires Assignment(v, a) && Assignment(v, b)
    ensures RankLe(RankOf(v, a), RankOf(v, b)) <==> NotAfter(v, a, b)
  {
    hide Roomier, Tight, SmallerFirst, LexLess;
    TighterMeans(v, a, b);
    TighterMeans(v, b, a);
    LexIsSmallerFirst(a, b);
    assert Used(a) == Domains(a) && Used(b) == Domains(b);
  }

  /** All acceptable candidates, best first. */
  ghost predicate RankedCandidates(v: View, sorted: seq<seq<nat>>) {
    && (forall i :: 0 <= i < |sorted| ==> Acceptable(v, sorted[i]) && Assignment(v, sorted[i]))
    && (forall c :: Acceptable(v, c) ==> c in sorted)
    && forall i, j :: 0 <= i < j < |sorted| ==> NotAfter(v, sorted[i], sorted[j])
  }

  /** The delay predicted for c is finite and, where there is a budget, within it. */
  ghost predicate Promising(predicted: DelayModel, budget: Option<real>, c: seq<nat>) {
    match (predicted(c), budget)
    case (None, _) => false
    case (Some(d), None) => true
    case (Some(d), Some(most)) => d <= most
  }

  /** The first of the `top` best candidates predicted to meet the budget, else the best. */
  ghost predicate ChosenBy(predicted: DelayModel, budget: Option<real>, top: nat, sorted: seq<seq<nat>>, c: seq<nat>) {
    exists i :: 0 <= i < |sorted| && sorted[i] == c
      && if i < top && Promising(predicted, budget, c)
         then forall j :: 0 <= j < i ==> !Promising(predicted, budget, sorted[j])
         else i == 0 && forall j :: 0 <= j < top && j < |sorted| ==> !Promising(predicted, budget, sorted[j])
  }

  ghost function Candidates(sorted: seq<Ranked>): (r: seq<seq<nat>>)
    ensures |r| == |sorted| && forall i :: 0 <= i < |r| ==> r[i] == sorted[i].cand
  {
    seq(|sorted|, i requires 0 <= i < |sorted| => sorted[i].cand)
  }

  lemma SortedIsRanked(v: View, choices: seq<seq<nat>>, sorted: seq<Ranked>)
    requires ChoicesOf(v, choices) && Collected(v, Product(choices), sorted) && InOrder(sorted, RankLe)
    ensures RankedCandidates(v, Candidates(sorted))
  {
    hide RankLe, NotAfter, Acceptable, Committable, Product, ChoicesOf;
    var list := Candidates(sorted);
    forall i | 0 <= i < |list| ensures Acceptable(v, list[i]) && Assignment(v, list[i]) {
      assert sorted[i] in sorted;
      CommittableMeans(v, list[i]);
      CommittableAssigns(v, list[i]);
    }
    forall c | Acceptable(v, c) ensures c in list {
      CommittableMeans(v, c);
      CommittableIsChosen(v, choices, c);
      CommittableAssigns(v, c);
      var i :| 0 <= i < |sorted| && sorted[i] == RankOf(v, c);
      assert list[i] == c;
    }
    forall i, j | 0 <= i < j < |list| ensures NotAfter(v, list[i], list[j]) {
      assert sorted[i] in sorted && sorted[j] in sorted;
      CommittableAssigns(v, list[i]);
      CommittableAssigns(v, list[j]);
      RankMeans(v, list[i], list[j]);
    }
  }

  lemma CommittableAssigns(v: View, c: seq<nat>)
    requires Committable(v, c)
    ensures Assignment(v, c)
  {}

  /** Found so far: exactly the ranked committable candidates among those enumerated. */
  ghost predicate Collected(v: View, seen: seq<seq<nat>>, found: seq<Ranked>) {
    && (forall x :: x in found ==> Committable(v, x.cand) && x == RankOf(v, x.cand))
    && (forall c :: c in seen && Committable(v, c) ==> RankOf(v, c) in found)
  }

  /** Enumerate, keep the committable. */
  method CollectCandidates(v: View, choices: seq<seq<nat>>) returns (found: seq<Ranked>)
    requires ChoicesOf(v, choices)
    ensures Collected(v, Product(choices), found)
  {
    hide Product, View.Admissible, Tight, IsContiguous, AggregateFits;
    var space := Product(choices);
    found := [];
    var i := 0;
    while i < |space|
      invariant 0 <= i <= |space| && Collected(v, space[..i], found)
    {
      ChosenIsAssignment(v, choices, space[i]);
      var ok := IsCommittable(v, space[i]);
      assert space[..i + 1] == space[..i] + [space[i]];
      if ok {
        found := found + [RankOf(v, space[i])];
      }
      i := i + 1;
    }
    assert space[..i] == space;
  }

  /** Every VNF has a choice, but there are more combinations than may be enumerated. */
  ghost predicate TooMany(v: View, choices: seq<seq<nat>>, maxPartitions: nat) {
    && ChoicesOf(v, choices) && (forall k :: 0 <= k < |choices| ==> choices[k] != [])
    && |Product(choices)| > maxPartitions
  }

  lemma {:induction false} SpaceFront(choices: seq<seq<nat>>)
    requires choices != []
    ensures SpaceSize(choices) == |choices[0]| * SpaceSize(choices[1..])
  {
    var n := |choices| - 1;
    if n > 0 {
      SpaceFront(choices[..n]);
      assert choices[..n][1..] == choices[1..][..n - 1];
      Regroup(|choices[0]|, SpaceSize(choices[1..n]), |choices[n]|);
    }
  }

  lemma Regroup(a: nat, b: nat, c: nat)
    ensures a * b * c == a * (b * c)
  {}

  /** The size compared with the limit is the number of combinations. */
  lemma {:induction false} SpaceIsProduct(choices: seq<seq<nat>>)
    ensures SpaceSize(choices) == |Product(choices)|
  {
    if choices != [] {
      SpaceIsProduct(choices[1..]);
      SpaceFront(choices);
      ProductWithSize(choices[0], Product(choices[1..]));
    }
  }

  /** The admissible choices are determined by the view. */
  lemma ChoicesUnique(v: View, a: seq<seq<nat>>, b: seq<seq<nat>>)
    requires ChoicesOf(v, a) && ChoicesOf(v, b)
    ensures a == b
  {
    hide View.Admissible;
    forall k | 0 <= k < |a| ensures a[k] == b[k] {
      SameMembersSameRow(a[k], b[k]);
    }
  }

  lemma {:induction false} SameMembersSameRow(a: seq<nat>, b: seq<nat>)
    requires Increasing(a) && Increasing(b) && forall x: nat :: x in a <==> x in b
    ensures a == b
  {
    assert a != [] ==> a[0] in b;
    assert b != [] ==> b[0] in a;
    if a != [] && b != [] {
      var x, y, p, q := a[|a| - 1], b[|b| - 1], a[..|a| - 1], b[..|b| - 1];
      assert x in a && y in b;
      assert x in b && y in a;
      assert x == y;
      forall z: nat ensures z in p <==> z in q {
        assert z in p <==> z in a && z != x;
        assert z in q <==> z in b && z != y;
      }
      SameMembersSameRow(p, q);
      assert a == p + [x] && b == q + [y];
    }
  }

  /** The delay model is asked about the `top` best only. */
  method PickPredicted(predicted: DelayModel, budget: Option<real>, top: nat, sorted: seq<Ranked>)
    returns (c: seq<nat>)
    requires sorted != []
    ensures ChosenBy(predicted, budget, top, Candidates(sorted), c)
  {
    var i := 0;
    while i < |sorted| && i < top
      invariant 0 <= i <= |sorted|
      invariant forall j :: 0 <= j < i ==> !MeetsBudget(predicted, budget, sorted[j].cand)
    {
      if MeetsBudget(predicted, budget, sorted[i].cand) {
        assert Candidates(sorted)[i] == sorted[i].cand;
        return sorted[i].cand;
      }
      i := i + 1;
    }
    c := sorted[0].cand;
    assert Candidates(sorted)[0] == c;
  }

  method FullObsBuilder(v: View, predicted: DelayModel, budget: Option<real>, maxPartitions: nat, top: nat)
    returns (r: FullObsResult)
    ensures r.NoPlan? ==> !exists c :: Committable(v, c)
    ensures r.TooLarge? <==> exists choices :: TooMany(v, choices, maxPartitions)
    ensures r.Plan? ==> Committable(v, r.chosen)
    ensures r.Plan? ==> exists sorted ::
              RankedCandidates(v, sorted) && ChosenBy(predicted, budget, top, sorted, r.chosen)
  {
    hide Committable, Product, View.Admissible, RankLe, ChosenBy, ChoicesOf, RankedCandidates, Acceptable;
    var choices := AdmissibleChoices(v);
    SpaceIsProduct(choices);
    forall other | TooMany(v, other, maxPartitions) ensures other == choices {
      ChoicesUnique(v, other, choices);
    }
    if exists k :: 0 <= k < |choices| && choices[k] == [] {
      NoChoiceNoPartition(v, choices);
      return NoPlan;
    }
    if SpaceSize(choices) > maxPartitions {
      assert TooMany(v, choices, maxPartitions);
      return TooLarge;
    }
    var found := CollectCandidates(v, choices);
    if found == [] {
      NothingFound(v, choices);
      return NoPlan;
    }
    var sorted := Sort(found, RankLe);
    RankIsTotal();
    SortInOrder(found, RankLe);
    SortedIsRanked(v, choices, sorted);
    var c := PickPredicted(predicted, budget, top, sorted);
    ChosenIsCommittable(v, predicted, budget, top, Candidates(sorted), c);
    r := Plan(c);
  }

  lemma NothingFound(v: View, choices: seq<seq<nat>>)
    requires ChoicesOf(v, choices) && Collected(v, Product(choices), [])
    ensures !exists c :: Committable(v, c)
  {
    hide Committable, Product, ChoicesOf;
    forall c ensures !Committable(v, c) {
      if Committable(v, c) {
        CommittableIsChosen(v, choices, c);
        CommittableAssigns(v, c);
        assert false;
      }
    }
  }

  lemma ChosenIsCommittable(v: View, predicted: DelayModel, budget: Option<real>, top: nat, sorted: seq<seq<nat>>,
                            c: seq<nat>)
    requires RankedCandidates(v, sorted) && ChosenBy(predicted, budget, top, sorted, c)
    ensures Committable(v, c)
  {
    hide Acceptable, Committable;
    CommittableMeans(v, c);
  }
}
