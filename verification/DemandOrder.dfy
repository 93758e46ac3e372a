/** The largest-demand-first order in which the greedy placers visit VNFs. */
module DemandOrder {
  import opened Types
  import opened Ledger
  import opened Sorting
  import opened Actors

  /** Decreasing CPU, then decreasing RAM, then increasing id. */
  predicate Before(a: Vnf, b: Vnf) {
    || a.demand.cpu > b.demand.cpu
    || (a.demand.cpu == b.demand.cpu
        && (a.demand.ram > b.demand.ram || (a.demand.ram == b.demand.ram && a.id <= b.id)))
  }

  function Sorted(vnfs: seq<Vnf>): seq<Vnf> {
    Sort(vnfs, Before)
  }

  /** Sorting reorders the VNFs: most CPU first, on equal CPU most RAM, on equal RAM the smaller id. */
  lemma SortedInOrder(vnfs: seq<Vnf>)
    ensures multiset(Sorted(vnfs)) == multiset(vnfs)
    ensures var s := Sorted(vnfs);
            forall i, j :: 0 <= i < j < |s| ==>
              || s[i].demand.cpu > s[j].demand.cpu
              || (s[i].demand.cpu == s[j].demand.cpu && s[i].demand.ram > s[j].demand.ram)
              || (s[i].demand == s[j].demand && s[i].id <= s[j].id)
  {
    SortInOrder(vnfs, Before);
    SortPermutes(vnfs, Before);
    hide Sorted;
    var s := Sorted(vnfs);
    assert forall i, j :: 0 <= i < j < |s| ==> Before(s[i], s[j]);
  }

  lemma SameMembersSameIds(a: seq<Vnf>, b: seq<Vnf>)
    requires forall v :: v in a ==> v in b
    ensures Ids(a) <= Ids(b)
  {
    forall i | 0 <= i < |a| ensures a[i].id in Ids(b) {
      assert a[i] in b;
    }
  }

  lemma {:induction false} SortedIds(vnfs: seq<Vnf>)
    ensures Ids(Sorted(vnfs)) == Ids(vnfs)
    ensures DistinctIds(vnfs) ==> DistinctIds(Sorted(vnfs))
  {
    SameMembersSameIds(vnfs, Sorted(vnfs));
    SameMembersSameIds(Sorted(vnfs), vnfs);
    if vnfs != [] && DistinctIds(vnfs) {
      var front, v := vnfs[..|vnfs| - 1], vnfs[|vnfs| - 1];
      SortedIds(front);
      InsertDistinct(Sorted(front), v, Slot(Sorted(front), v, Before));
    }
  }

  lemma InsertDistinct(s: seq<Vnf>, v: Vnf, k: nat)
    requires k <= |s| && DistinctIds(s) && v.id !in Ids(s)
    ensures DistinctIds(s[..k] + [v] + s[k..])
  {
    hide Slot;
    var r := s[..k] + [v] + s[k..];
    assert forall j :: 0 <= j < |r| ==> r[j] == if j < k then s[j] else if j == k then v else s[j - 1];
  }

  lemma {:induction false} InsertLoad(a: seq<Vnf>, v: Vnf, b: seq<Vnf>, at: map<VnfId, NodeId>, n: NodeId)
    ensures LoadOn(a + [v] + b, at, n) == LoadOn(a + b, at, n).Plus(Cost(v, at, n))
  {
    if b == [] {
      assert a + [v] + b == a + [v] && (a + [v])[..|a|] == a && a + b == a;
    } else {
      var front, last := b[..|b| - 1], b[|b| - 1];
      InsertLoad(a, v, front, at, n);
      LoadLast(a + [v] + front, last, at, n);
      LoadLast(a + front, last, at, n);
      assert a + [v] + b == a + [v] + front + [last] && a + b == a + front + [last];
    }
  }

  /** Visiting order does not change what a placement costs a node. */
  lemma {:induction false} SortedLoad(vnfs: seq<Vnf>, at: map<VnfId, NodeId>, n: NodeId)
    ensures LoadOn(Sorted(vnfs), at, n) == LoadOn(vnfs, at, n)
  {
    if vnfs != [] {
      var front, v := vnfs[..|vnfs| - 1], vnfs[|vnfs| - 1];
      SortedLoad(front, at, n);
      var s, k := Sorted(front), Slot(Sorted(front), v, Before);
      InsertLoad(s[..k], v, s[k..], at, n);
      assert s[..k] + s[k..] == s;
    }
  }

  /** Nor what it costs in processing delay. */
  lemma {:induction false} SortedProcessing(topo: Topology, vnfs: seq<Vnf>, at: map<VnfId, NodeId>)
    ensures ProcessingDelay(topo, Sorted(vnfs), at) == ProcessingDelay(topo, vnfs, at)
  {
    if vnfs != [] {
      hide *;
      var front, v := vnfs[..|vnfs| - 1], vnfs[|vnfs| - 1];
      var k := LastInserted(vnfs);
      SortedProcessing(topo, front, at);
      InsertProcessing(topo, Sorted(front)[..k], v, Sorted(front)[k..], at);
      InsertProcessing(topo, front, v, [], at);
    }
  }

  /** Sorting puts the last VNF somewhere into the sorted rest. */
  lemma LastInserted(vnfs: seq<Vnf>) returns (k: nat)
    requires vnfs != []
    ensures var front, v := vnfs[..|vnfs| - 1], vnfs[|vnfs| - 1];
            && k <= |Sorted(front)| && Sorted(vnfs) == Sorted(front)[..k] + [v] + Sorted(front)[k..]
            && Sorted(front)[..k] + Sorted(front)[k..] == Sorted(front)
            && vnfs == front + [v] + [] && front == front + []
  {
    k := Slot(Sorted(vnfs[..|vnfs| - 1]), vnfs[|vnfs| - 1], Before);
  }

  lemma {:induction false} InsertProcessing(topo: Topology, a: seq<Vnf>, v: Vnf, b: seq<Vnf>, at: map<VnfId, NodeId>)
    ensures ProcessingDelay(topo, a + [v] + b, at) == ProcessingDelay(topo, a + b, at) + ProcessingAt(topo, v, at)
  {
    hide ProcessingAt;
    if b == [] {
      assert a + [v] + b == a + [v] && a + b == a;
    } else {
      var front, last := b[..|b| - 1], b[|b| - 1];
      InsertProcessing(topo, a, v, front, at);
      assert a + [v] + b == a + [v] + front + [last] && a + b == a + front + [last];
    }
  }

  /** CPU and RAM demand of some VNFs, summed. */
  ghost function DemandSum(vnfs: seq<Vnf>): real {
    if vnfs == [] then 0.0
    else DemandSum(vnfs[..|vnfs| - 1]) + vnfs[|vnfs| - 1].demand.cpu + vnfs[|vnfs| - 1].demand.ram
  }

  lemma DemandSumNext(vnfs: seq<Vnf>, i: nat)
    requires i < |vnfs|
    ensures DemandSum(vnfs[..i + 1]) == DemandSum(vnfs[..i]) + vnfs[i].demand.cpu + vnfs[i].demand.ram
  {
    assert vnfs[..i + 1][..i] == vnfs[..i];
  }

  /** Visiting order does not change the sum. */
  lemma {:induction false} SortedDemand(vnfs: seq<Vnf>)
    ensures DemandSum(Sorted(vnfs)) == DemandSum(vnfs)
  {
    if vnfs != [] {
      hide *;
      var front, v := vnfs[..|vnfs| - 1], vnfs[|vnfs| - 1];
      var k := LastInserted(vnfs);
      SortedDemand(front);
      InsertDemand(Sorted(front)[..k], v, Sorted(front)[k..]);
      InsertDemand(front, v, []);
    }
  }

  lemma {:induction false} InsertDemand(a: seq<Vnf>, v: Vnf, b: seq<Vnf>)
    ensures DemandSum(a + [v] + b) == DemandSum(a + b) + v.demand.cpu + v.demand.ram
  {
    if b == [] {
      assert a + [v] + b == a + [v] && a + b == a;
    } else {
      var front, last := b[..|b| - 1], b[|b| - 1];
      InsertDemand(a, v, front);
      assert a + [v] + b == a + [v] + front + [last] && a + b == a + front + [last];
    }
  }
}
