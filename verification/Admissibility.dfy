/** The committability test of a partition and the exact minimal repair: exhaustive search for
    the nearest partition that contiguity, the h^m guard and the aggregates all accept. */
module Admissibility {
  import opened Types
  import opened ChainOrder
  import opened Observation

  /** One arrival as the partition layer sees it: summaries, chain, and which nodes exist. */
  datatype View = View(topo: Topology, summaries: seq<DomainSummary>, vnfs: seq<Vnf>) {
    ghost predicate Valid() {
      DistinctDomains(summaries)
    }

    /** The tiers of domain m that VNF k may use. */
    function TiersFor(k: nat, m: nat): set<Tier>
      requires k < |vnfs| && m < |summaries|
    {
      set n | n in vnfs[k].permitted && n in topo.order && n in topo.attr && topo.DomainOf(n) == summaries[m].domain ::
        topo.attr[n].tier
    }

    /** h^m: some tier the VNF may use reports a node big enough. */
    predicate FitsANode(k: nat, m: nat)
      requires k < |vnfs| && m < |summaries|
    {
      exists t :: t in TiersFor(k, m) && summaries[m].tierMaxNode.Get(t).Covers(vnfs[k].demand)
    }

    /** May VNF k legally sit in domain m, and does the guard see a node for it there? */
    predicate Admissible(k: nat, m: nat)
      requires k < |vnfs| && m < |summaries|
    {
      TiersFor(k, m) != {} && FitsANode(k, m)
    }
  }

  /** Total demand the assignment sends to domain m. */
  function DemandAt(vnfs: seq<Vnf>, idx: seq<nat>, m: nat): Amount
    requires |idx| <= |vnfs|
  {
    if idx == [] then ZERO
    else
      var n := |idx| - 1;
      DemandAt(vnfs, idx[..n], m).Plus(if idx[n] == m then vnfs[n].demand else ZERO)
  }

  /** A complete assignment of chain positions to summary indices. */
  ghost predicate Assignment(v: View, idx: seq<nat>) {
    |idx| == |v.vnfs| && forall k :: 0 <= k < |idx| ==> idx[k] < |v.summaries|
  }

  ghost predicate AggregateFits(v: View, idx: seq<nat>)
    requires Assignment(v, idx)
  {
    forall k :: 0 <= k < |idx| ==> v.summaries[idx[k]].residual.Covers(DemandAt(v.vnfs, idx, idx[k]))
  }

  /** What C10, the guard and the aggregates accept. */
  ghost predicate Committable(v: View, idx: seq<nat>) {
    && Assignment(v, idx)
    && IsContiguous(idx)
    && (forall k :: 0 <= k < |idx| ==> v.Admissible(k, idx[k]))
    && AggregateFits(v, idx)
  }

  // What the test asks, resource by resource.

  /** A permitted node of the domain belongs to a tier whose reported pair covers the demand. */
  ghost predicate Seated(v: View, k: nat, m: nat) {
    k < |v.vnfs| && m < |v.summaries| && exists n :: SeatedOn(v, v.vnfs[k], v.summaries[m], n)
  }

  ghost predicate SeatedOn(v: View, f: Vnf, s: DomainSummary, n: NodeId) {
    && n in f.permitted && n in v.topo.order && n in v.topo.attr && v.topo.attr[n].domain == s.domain
    && Reported(s, v.topo.attr[n].tier).cpu >= f.demand.cpu && Reported(s, v.topo.attr[n].tier).ram >= f.demand.ram
  }

  ghost function Reported(s: DomainSummary, t: Tier): Amount {
    match t
    case Edge => s.tierMaxNode.edge
    case RegionalCloud => s.tierMaxNode.regional
    case CentralCloud => s.tierMaxNode.central
  }

  /** CPU the positions of idx assigned to m ask for together. */
  ghost function CpuSent(vnfs: seq<Vnf>, idx: seq<nat>, m: nat): real {
    if idx == [] || vnfs == [] then 0.0
    else (if idx[0] == m then vnfs[0].demand.cpu else 0.0) + CpuSent(vnfs[1..], idx[1..], m)
  }

  ghost function RamSent(vnfs: seq<Vnf>, idx: seq<nat>, m: nat): real {
    if idx == [] || vnfs == [] then 0.0
    else (if idx[0] == m then vnfs[0].demand.ram else 0.0) + RamSent(vnfs[1..], idx[1..], m)
  }

  /** Every VNF has a seat, no domain is left and entered again, and no domain is sent more CPU or
      more RAM than it has left. */
  ghost predicate Acceptable(v: View, idx: seq<nat>) {
    && |idx| == |v.vnfs| && NoReentry(idx) && (forall k :: 0 <= k < |idx| ==> Seated(v, k, idx[k]))
    && forall m: nat :: m < |v.summaries| && m in idx ==>
         && CpuSent(v.vnfs, idx, m) <= v.summaries[m].residual.cpu
         && RamSent(v.vnfs, idx, m) <= v.summaries[m].residual.ram
  }

  lemma {:induction false} SentNext(vnfs: seq<Vnf>, idx: seq<nat>, m: nat)
    requires 0 < |idx| <= |vnfs|
    ensures var n := |idx| - 1;
            && CpuSent(vnfs, idx, m)
               == CpuSent(vnfs, idx[..n], m) + (if idx[n] == m then vnfs[n].demand.cpu else 0.0)
            && RamSent(vnfs, idx, m)
               == RamSent(vnfs, idx[..n], m) + if idx[n] == m then vnfs[n].demand.ram else 0.0
  {
    if |idx| > 1 {
      SentNext(vnfs[1..], idx[1..], m);
      assert idx[..|idx| - 1][1..] == idx[1..][..|idx| - 2];
    }
  }

  lemma {:induction false} DemandIsSent(vnfs: seq<Vnf>, idx: seq<nat>, m: nat)
    requires |idx| <= |vnfs|
    ensures DemandAt(vnfs, idx, m) == Amount(CpuSent(vnfs, idx, m), RamSent(vnfs, idx, m))
  {
    if idx != [] {
      DemandIsSent(vnfs, idx[..|idx| - 1], m);
      SentNext(vnfs, idx, m);
    }
  }

  lemma AdmissibleMeans(v: View, k: nat, m: nat)
    requires k < |v.vnfs| && m < |v.summaries|
    ensures v.Admissible(k, m) <==> Seated(v, k, m)
  {
    var s := v.summaries[m];
    assert forall t :: s.tierMaxNode.Get(t) == Reported(s, t);
    if Seated(v, k, m) {
      var n :| SeatedOn(v, v.vnfs[k], s, n);
      assert v.topo.attr[n].tier in v.TiersFor(k, m);
    }
    if v.Admissible(k, m) {
      var t :| t in v.TiersFor(k, m) && s.tierMaxNode.Get(t).Covers(v.vnfs[k].demand);
      var n :| n in v.vnfs[k].permitted && n in v.topo.order && n in v.topo.attr
                && v.topo.DomainOf(n) == s.domain && v.topo.attr[n].tier == t;
      assert SeatedOn(v, v.vnfs[k], s, n);
    }
  }

  /** The committability test is exactly that. */
  lemma CommittableMeans(v: View, idx: seq<nat>)
    ensures Committable(v, idx) <==> Acceptable(v, idx)
  {
    hide View.Admissible, Seated, DemandAt, CpuSent, RamSent, NoReentry, IsContiguous;
    ContiguousIffNoReentry(idx);
    if |idx| == |v.vnfs| {
      forall m: nat ensures DemandAt(v.vnfs, idx, m) == Amount(CpuSent(v.vnfs, idx, m), RamSent(v.vnfs, idx, m)) {
        DemandIsSent(v.vnfs, idx, m);
      }
      forall k | 0 <= k < |idx| && idx[k] < |v.summaries| ensures v.Admissible(k, idx[k]) <==> Seated(v, k, idx[k]) {
        AdmissibleMeans(v, k, idx[k]);
      }
      if Acceptable(v, idx) {
        SeatedInside(v, idx);
        assert forall k :: 0 <= k < |idx| ==> idx[k] in idx;
      }
    }
  }

  lemma SeatedInside(v: View, idx: seq<nat>)
    requires forall k :: 0 <= k < |idx| ==> Seated(v, k, idx[k])
    ensures forall k :: 0 <= k < |idx| ==> idx[k] < |v.summaries|
  {}

  // The search order.

  /** Number of positions at which two equally long sequences differ. */
  function Distance<T(==)>(a: seq<T>, b: seq<T>): nat
    requires |a| == |b|
  {
    if a == [] then 0
    else Distance(a[..|a| - 1], b[..|b| - 1]) + if a[|a| - 1] != b[|b| - 1] then 1 else 0
  }

  predicate LexLess(a: seq<nat>, b: seq<nat>) {
    if a == [] then b != []
    else b != [] && (a[0] < b[0] || (a[0] == b[0] && LexLess(a[1..], b[1..])))
  }

  /** The key (edits, domains used, the assignment itself), compared lexicographically. */
  predicate Closer(authored: seq<nat>, a: seq<nat>, b: seq<nat>)
    requires |a| == |b| == |authored|
  {
    var da, db, na, nb := Distance(a, authored), Distance(b, authored), |Domains(a)|, |Domains(b)|;
    da < db || (da == db && (na < nb || (na == nb && LexLess(a, b))))
  }

  lemma {:induction false} LexTotal(a: seq<nat>, b: seq<nat>)
    requires a != b
    ensures LexLess(a, b) || LexLess(b, a)
  {
    if a != [] && b != [] && a[0] == b[0] {
      assert a == [a[0]] + a[1..] && b == [b[0]] + b[1..];
      LexTotal(a[1..], b[1..]);
    }
  }

  lemma {:induction false} LexTransitive(a: seq<nat>, b: seq<nat>, c: seq<nat>)
    requires LexLess(a, b) && LexLess(b, c)
    ensures LexLess(a, c)
  {
    if a != [] && a[0] == b[0] == c[0] {
      LexTransitive(a[1..], b[1..], c[1..]);
    }
  }

  // What the search order means.

  /** The positions at which two sequences differ. */
  ghost function Edits<T>(a: seq<T>, b: seq<T>): set<nat> {
    set k: nat | k < |a| && k < |b| && a[k] != b[k]
  }

  ghost function Used(a: seq<nat>): set<nat> {
    set x | x in a
  }

  /** At the first position where they differ, a has the smaller entry. */
  ghost predicate SmallerFirst(a: seq<nat>, b: seq<nat>) {
    exists k :: SmallerAt(a, b, k)
  }

  ghost predicate SmallerAt(a: seq<nat>, b: seq<nat>, k: int) {
    0 <= k < |a| && k < |b| && a[k] < b[k] && forall j :: 0 <= j < k ==> a[j] == b[j]
  }

  /** No more edits than the other; on equal edits no more domains; on equal domains it comes
      first. */
  ghost predicate NoWorse(authored: seq<nat>, a: seq<nat>, b: seq<nat>) {
    && |Edits(a, authored)| <= |Edits(b, authored)|
    && (|Edits(a, authored)| == |Edits(b, authored)| ==>
          && |Used(a)| <= |Used(b)|
          && (|Used(a)| == |Used(b)| && a != b ==> SmallerFirst(a, b)))
  }

  lemma {:induction false} DistanceIsEdits<T>(a: seq<T>, b: seq<T>)
    requires |a| == |b|
    ensures Distance(a, b) == |Edits(a, b)|
  {
    if a == [] {
      assert Edits(a, b) == {};
    } else {
      var n := |a| - 1;
      DistanceIsEdits(a[..n], b[..n]);
      assert Edits(a, b) == Edits(a[..n], b[..n]) + if a[n] != b[n] then {n} else {};
    }
  }

  lemma SmallerTail(a: seq<nat>, b: seq<nat>, k: int)
    requires |a| == |b| > 0 && a[0] == b[0]
    ensures SmallerAt(a, b, k) <==> SmallerAt(a[1..], b[1..], k - 1)
  {
    assert forall j :: 0 < j < |a| ==> a[j] == a[1..][j - 1] && b[j] == b[1..][j - 1];
  }

  lemma {:induction false} LexIsSmallerFirst(a: seq<nat>, b: seq<nat>)
    requires |a| == |b|
    ensures LexLess(a, b) <==> SmallerFirst(a, b)
  {
    if a != [] {
      assert SmallerAt(a, b, 0) <==> a[0] < b[0];
      if a[0] == b[0] {
        LexIsSmallerFirst(a[1..], b[1..]);
        if SmallerFirst(a, b) {
          var k :| SmallerAt(a, b, k);
          SmallerTail(a, b, k);
        }
        if SmallerFirst(a[1..], b[1..]) {
          var k :| SmallerAt(a[1..], b[1..], k);
          SmallerTail(a, b, k + 1);
        }
      }
    }
  }

  /** The comparison the search uses is the three-part order. */
  lemma CloserMeans(authored: seq<nat>, a: seq<nat>, b: seq<nat>)
    requires |a| == |b| == |authored| && a != b
    ensures Closer(authored, a, b) <==> NoWorse(authored, a, b)
  {
    hide Distance, LexLess, SmallerFirst, Edits;
    DistanceIsEdits(a, authored);
    DistanceIsEdits(b, authored);
    LexIsSmallerFirst(a, b);
    assert Used(a) == Domains(a) && Used(b) == Domains(b);
  }

  lemma NoEdits<T>(a: seq<T>)
    ensures Edits(a, a) == {}
  {}

  lemma SomeEdit<T>(a: seq<T>, b: seq<T>)
    requires |a| == |b| && a != b
    ensures |Edits(a, b)| > 0
  {
    var k :| 0 <= k < |a| && a[k] != b[k];
    assert k in Edits(a, b);
  }

  lemma SmallerFirstOneWay(a: seq<nat>, b: seq<nat>)
    requires SmallerFirst(a, b)
    ensures !SmallerFirst(b, a)
  {
    var k :| SmallerAt(a, b, k);
    forall m ensures !SmallerAt(b, a, m) {
      if m < k {
        assert 0 <= m ==> a[m] == b[m];
      }
    }
  }

  // The candidate space: the product of the per-position choices, in lexicographic order.

  function Prefixed(x: nat, tails: seq<seq<nat>>): (r: seq<seq<nat>>)
    ensures |r| == |tails| && forall i :: 0 <= i < |r| ==> r[i] == [x] + tails[i]
  {
    seq(|tails|, i requires 0 <= i < |tails| => [x] + tails[i])
  }

  function ProductWith(heads: seq<nat>, tails: seq<seq<nat>>): seq<seq<nat>> {
    if heads == [] then [] else Prefixed(heads[0], tails) + ProductWith(heads[1..], tails)
  }

  function Product(choices: seq<seq<nat>>): seq<seq<nat>> {
    if choices == [] then [[]] else ProductWith(choices[0], Product(choices[1..]))
  }

  ghost predicate Chosen(choices: seq<seq<nat>>, c: seq<nat>) {
    |c| == |choices| && forall k :: 0 <= k < |c| ==> c[k] in choices[k]
  }

  lemma {:induction false} ProductWithMembers(heads: seq<nat>, tails: seq<seq<nat>>, c: seq<nat>)
    ensures c in ProductWith(heads, tails) <==> c != [] && c[0] in heads && c[1..] in tails
  {
    if heads != [] {
      ProductWithMembers(heads[1..], tails, c);
      var p := Prefixed(heads[0], tails);
      if c in p {
        var i :| 0 <= i < |p| && p[i] == c;
        assert c[1..] == tails[i];
      }
      if c != [] && c[0] == heads[0] && c[1..] in tails {
        var i :| 0 <= i < |tails| && tails[i] == c[1..];
        assert p[i] == c;
      }
    }
  }

  /** The product enumerates exactly the choices, none left out. */
  lemma {:induction false} ProductMembers(choices: seq<seq<nat>>, c: seq<nat>)
    ensures c in Product(choices) <==> Chosen(choices, c)
  {
    if choices != [] {
      ProductWithMembers(choices[0], Product(choices[1..]), c);
      if c != [] {
        ProductMembers(choices[1..], c[1..]);
        if Chosen(choices[1..], c[1..]) && c[0] in choices[0] {
          forall k | 0 <= k < |c| ensures c[k] in choices[k] {
            assert k > 0 ==> c[1..][k - 1] in choices[1..][k - 1];
          }
        }
        if Chosen(choices, c) {
          assert forall k :: 0 <= k < |c| - 1 ==> c[1..][k] == c[k + 1];
        }
      }
    }
  }

  ghost predicate NoRepeats<T>(s: seq<T>) {
    forall i, j :: 0 <= i < j < |s| ==> s[i] != s[j]
  }

  lemma {:induction false} ProductWithSize(heads: seq<nat>, tails: seq<seq<nat>>)
    ensures |ProductWith(heads, tails)| == |heads| * |tails|
  {
    if heads != [] {
      ProductWithSize(heads[1..], tails);
      OneMoreRow(|heads|, |tails|);
    }
  }

  lemma OneMoreRow(rows: nat, columns: nat)
    requires rows > 0
    ensures columns + (rows - 1) * columns == rows * columns
  {}

  lemma {:induction false} ProductWithDistinct(heads: seq<nat>, tails: seq<seq<nat>>)
    requires NoRepeats(heads) && NoRepeats(tails)
    ensures NoRepeats(ProductWith(heads, tails))
  {
    if heads != [] {
      var p, q := Prefixed(heads[0], tails), ProductWith(heads[1..], tails);
      ProductWithDistinct(heads[1..], tails);
      forall i, j | 0 <= i < |p| && 0 <= j < |q| ensures p[i] != q[j] {
        ProductWithMembers(heads[1..], tails, q[j]);
        assert q[j] in q && p[i][0] == heads[0];
        assert heads[0] !in heads[1..];
      }
      assert forall i, j :: 0 <= i < j < |p| ==> p[i][1..] == tails[i] && p[j][1..] == tails[j];
    }
  }

  /** Rows without repetition give a product without repetition. */
  lemma {:induction false} ProductDistinct(choices: seq<seq<nat>>)
    requires forall k :: 0 <= k < |choices| ==> NoRepeats(choices[k])
    ensures NoRepeats(Product(choices))
  {
    if choices != [] {
      ProductDistinct(choices[1..]);
      ProductWithDistinct(choices[0], Product(choices[1..]));
    }
  }

  // The repair.

  class GuardStats {
    var seen: nat
    var vnfsMoved: nat
    var unrepairable: nat
    var partitionsChanged: nat
  }

  function IndexOfDomain(ss: seq<DomainSummary>, d: DomainId): (r: Option<nat>)
    ensures r.Some? ==> r.value < |ss| && ss[r.value].domain == d
    ensures r.None? <==> forall i :: 0 <= i < |ss| ==> ss[i].domain != d
  {
    if ss == [] then None
    else if ss[|ss| - 1].domain == d then Some(|ss| - 1)
    else IndexOfDomain(ss[..|ss| - 1], d)
  }

  /** Summary indices of a partition given by domain ids. */
  function Indices(ss: seq<DomainSummary>, partition: seq<DomainId>): seq<nat>
    requires forall k :: 0 <= k < |partition| ==> IndexOfDomain(ss, partition[k]).Some?
  {
    seq(|partition|, k requires 0 <= k < |partition| => IndexOfDomain(ss, partition[k]).value)
  }

  function DomainIds(ss: seq<DomainSummary>, idx: seq<nat>): seq<DomainId>
    requires forall k :: 0 <= k < |idx| ==> idx[k] < |ss|
  {
    seq(|idx|, k requires 0 <= k < |idx| => ss[idx[k]].domain)
  }

  function Power(base: nat, exponent: nat): nat {
    if exponent == 0 then 1 else base * Power(base, exponent - 1)
  }

  /** Every position may take every index. */
  ghost function AllRows(base: nat, count: nat): seq<seq<nat>> {
    seq(count, k => seq(base, m requires 0 <= m => m))
  }

  lemma {:induction false} AllRowsSize(base: nat, count: nat)
    ensures |Product(AllRows(base, count))| == Power(base, count)
  {
    if count > 0 {
      AllRowsSize(base, count - 1);
      assert AllRows(base, count)[1..] == AllRows(base, count - 1);
      ProductWithSize(AllRows(base, count)[0], Product(AllRows(base, count - 1)));
    }
  }

  /** What is held against the budget: how many assignments there are, every one counted once. */
  lemma PowerCountsAssignments(v: View)
    ensures var all := Product(AllRows(|v.summaries|, |v.vnfs|));
            && NoRepeats(all) && |all| == Power(|v.summaries|, |v.vnfs|)
            && forall c :: c in all <==> Assignment(v, c)
  {
    var rows := AllRows(|v.summaries|, |v.vnfs|);
    AllRowsSize(|v.summaries|, |v.vnfs|);
    ProductDistinct(rows);
    forall c ensures c in Product(rows) <==> Assignment(v, c) {
      ProductMembers(rows, c);
      forall k, m: nat | 0 <= k < |rows| ensures m in rows[k] <==> m < |v.summaries| {
        assert m < |v.summaries| ==> rows[k][m] == m;
      }
    }
  }

  /** The inputs the search runs on; every other input is returned unchanged. */
  ghost predicate Searchable(v: View, partition: seq<DomainId>, budget: nat) {
    && |v.vnfs| > 0 && |v.summaries| > 0 && |partition| == |v.vnfs|
    && Power(|v.summaries|, |v.vnfs|) <= budget
    && forall k :: 0 <= k < |partition| ==> IndexOfDomain(v.summaries, partition[k]).Some?
  }

  /** `best` is committable, and no committable assignment has fewer edits, or as many edits and
      fewer domains, or as many of both and a smaller entry where the two first differ. */
  ghost predicate Nearest(v: View, authored: seq<nat>, best: seq<nat>)
    requires |authored| == |v.vnfs|
  {
    Committable(v, best) && forall c :: Committable(v, c) ==> NoWorse(authored, best, c)
  }

  /** What the repair returns. */
  ghost predicate Repaired(v: View, partition: seq<DomainId>, budget: nat, r: seq<DomainId>) {
    if Searchable(v, partition, budget) && exists c :: Committable(v, c) then
      exists best :: Nearest(v, Indices(v.summaries, partition), best) && r == DomainIds(v.summaries, best)
    else r == partition
  }

  method AggregateFeasible(v: View, idx: seq<nat>) returns (ok: bool)
    requires Assignment(v, idx)
    ensures ok <==> AggregateFits(v, idx)
  {
    var acc: map<nat, Amount> := map[];
    var k := 0;
    while k < |idx|
      invariant 0 <= k <= |idx|
      invariant forall m :: m in acc <==> m in idx[..k]
      invariant forall m :: m in acc ==> acc[m] == DemandAt(v.vnfs, idx[..k], m)
      invariant forall m :: m !in acc ==> DemandAt(v.vnfs, idx[..k], m) == ZERO
    {
      var m := idx[k];
      assert idx[..k + 1][..k] == idx[..k] && idx[..k + 1] == idx[..k] + [m];
      acc := acc[m := (if m in acc then acc[m] else ZERO).Plus(v.vnfs[k].demand)];
      k := k + 1;
    }
    assert idx[..k] == idx;
    assert forall j :: 0 <= j < |idx| ==> idx[j] in acc;
    ok := forall m :: m in acc ==> v.summaries[m].residual.Covers(acc[m]);
  }

  method IsCommittable(v: View, idx: seq<nat>) returns (ok: bool)
    requires Assignment(v, idx)
    ensures ok <==> Committable(v, idx)
    ensures ok <==> Acceptable(v, idx)
  {
    CommittableMeans(v, idx);
    hide Acceptable;
    if !IsContiguous(idx) {
      return false;
    }
    if exists k :: 0 <= k < |idx| && !v.Admissible(k, idx[k]) {
      return false;
    }
    ok := AggregateFeasible(v, idx);
  }

  ghost predicate ChoicesOf(v: View, choices: seq<seq<nat>>) {
    && |choices| == |v.vnfs|
    && (forall k, m: nat :: 0 <= k < |choices| ==> (m in choices[k] <==> m < |v.summaries| && v.Admissible(k, m)))
    && forall k :: 0 <= k < |choices| ==> Increasing(choices[k])
  }

  ghost predicate Increasing(row: seq<nat>) {
    forall i, j :: 0 <= i < j < |row| ==> row[i] < row[j]
  }

  /** Per position, the domains the VNF may use, in index order. */
  method AdmissibleChoices(v: View) returns (choices: seq<seq<nat>>)
    ensures ChoicesOf(v, choices)
  {
    choices := [];
    var k := 0;
    while k < |v.vnfs|
      invariant 0 <= k <= |v.vnfs| && |choices| == k
      invariant forall j, m: nat :: 0 <= j < k ==> (m in choices[j] <==> m < |v.summaries| && v.Admissible(j, m))
      invariant forall j :: 0 <= j < k ==> Increasing(choices[j])
    {
      var row: seq<nat> := [];
      var m := 0;
      while m < |v.summaries|
        invariant 0 <= m <= |v.summaries| && Increasing(row) && (forall i :: 0 <= i < |row| ==> row[i] < m)
        invariant forall x: nat :: x in row <==> x < m && v.Admissible(k, x)
      {
        if v.Admissible(k, m) {
          row := row + [m];
        }
        m := m + 1;
      }
      choices := choices + [row];
      k := k + 1;
    }
  }

  /** The best candidate among those already examined. */
  ghost predicate BestSoFar(v: View, authored: seq<nat>, seen: seq<seq<nat>>, best: Option<seq<nat>>)
    requires |authored| == |v.vnfs|
  {
    match best
    case None => forall c :: c in seen ==> !Committable(v, c)
    case Some(b) => Committable(v, b) && forall c :: c in seen && Committable(v, c) && c != b ==> Closer(authored, b, c)
  }

  lemma {:induction false} CloserTransitive(authored: seq<nat>, a: seq<nat>, b: seq<nat>, c: seq<nat>)
    requires |a| == |b| == |c| == |authored|
    requires Closer(authored, a, b) && Closer(authored, b, c)
    ensures Closer(authored, a, c)
  {
    if LexLess(a, b) && LexLess(b, c) {
      LexTransitive(a, b, c);
    }
  }

  lemma BestSoFarNext(v: View, authored: seq<nat>, seen: seq<seq<nat>>, best: Option<seq<nat>>, cand: seq<nat>)
    requires |authored| == |v.vnfs| && BestSoFar(v, authored, seen, best)
    ensures BestSoFar(v, authored, seen + [cand],
                      if Committable(v, cand) && (best.None? || Closer(authored, cand, best.value))
                      then Some(cand) else best)
  {
    if Committable(v, cand) {
      if best.Some? && cand != best.value {
        assert Closer(authored, best.value, cand) || Closer(authored, cand, best.value) by {
          LexTotal(best.value, cand);
        }
        if Closer(authored, cand, best.value) {
          forall c | c in seen && Committable(v, c) && c != cand ensures Closer(authored, cand, c) {
            if c != best.value {
              CloserTransitive(authored, cand, best.value, c);
            }
          }
        }
      }
    }
  }

  /** The authored partition, when committable, is the nearest one: it has no edits. */
  lemma AuthoredIsNearest(v: View, authored: seq<nat>)
    requires |authored| == |v.vnfs| && Committable(v, authored)
    ensures Nearest(v, authored, authored)
  {
    hide View.Admissible, IsContiguous, AggregateFits;
    NoEdits(authored);
    forall c | Committable(v, c) ensures NoWorse(authored, authored, c) {
      if c != authored {
        SomeEdit(c, authored);
      }
    }
  }

  /** The best of all candidates is the nearest. */
  lemma BestIsNearest(v: View, authored: seq<nat>, best: seq<nat>)
    requires |authored| == |v.vnfs| && Committable(v, best)
    requires forall c :: Committable(v, c) && c != best ==> Closer(authored, best, c)
    ensures Nearest(v, authored, best)
  {
    hide Closer, View.Admissible, IsContiguous, AggregateFits, NoWorse;
    forall c | Committable(v, c) ensures NoWorse(authored, best, c) {
      if c != best {
        CloserMeans(authored, best, c);
      } else {
        NoWorseThanItself(authored, c);
      }
    }
  }

  lemma NoWorseThanItself(authored: seq<nat>, a: seq<nat>)
    ensures NoWorse(authored, a, a)
  {}

  lemma CommittableIsChosen(v: View, choices: seq<seq<nat>>, c: seq<nat>)
    requires ChoicesOf(v, choices)
    requires Committable(v, c)
    ensures c in Product(choices)
  {
    ProductMembers(choices, c);
  }

  lemma ChosenIsAssignment(v: View, choices: seq<seq<nat>>, c: seq<nat>)
    requires ChoicesOf(v, choices)
    requires c in Product(choices)
    ensures Assignment(v, c)
  {
    ProductMembers(choices, c);
  }

  /** The search loop over the whole product. */
  method SearchNearest(v: View, authored: seq<nat>, choices: seq<seq<nat>>) returns (best: Option<seq<nat>>)
    requires Assignment(v, authored) && ChoicesOf(v, choices)
    ensures best.None? <==> !exists c :: Committable(v, c)
    ensures best.Some? ==> Nearest(v, authored, best.value)
  {
    hide Committable, Closer, Product, View.Admissible;
    best := None;
    var space := Product(choices);
    var i := 0;
    while i < |space|
      invariant 0 <= i <= |space| && BestSoFar(v, authored, space[..i], best)
      invariant best.Some? ==> |best.value| == |authored|
    {
      var cand := space[i];
      ChosenIsAssignment(v, choices, cand);
      var ok := IsCommittable(v, cand);
      BestSoFarNext(v, authored, space[..i], best, cand);
      assert space[..i + 1] == space[..i] + [cand];
      if ok && (best.None? || Closer(authored, cand, best.value)) {
        best := Some(cand);
      }
      i := i + 1;
    }
    assert space[..i] == space;
    forall c | Committable(v, c) ensures c in space {
      CommittableIsChosen(v, choices, c);
    }
    if best.Some? {
      BestIsNearest(v, authored, best.value);
    }
  }

  method MinimalCommittablePartition(v: View, partition: seq<DomainId>, budget: nat, stats: GuardStats)
    returns (r: seq<DomainId>)
    requires v.Valid()
    modifies stats
    ensures Repaired(v, partition, budget, r)
    ensures stats.seen == old(stats.seen) + (if Searchable(v, partition, budget) then 1 else 0)
    ensures stats.partitionsChanged == old(stats.partitionsChanged) + (if r != partition then 1 else 0)
    ensures |r| == |partition| && stats.vnfsMoved == old(stats.vnfsMoved) + |Edits(r, partition)|
    ensures stats.unrepairable == old(stats.unrepairable)
              + (if Searchable(v, partition, budget) && !exists c :: Committable(v, c) then 1 else 0)
  {
    hide Committable, Nearest, ChoicesOf, View.Valid, Indices, Power, Edits, Acceptable, View.Admissible;
    NoEdits(partition);
    var count, domains := |v.vnfs|, |v.summaries|;
    if count == 0 || domains == 0 || |partition| != count || Power(domains, count) > budget {
      return partition;
    }
    if exists k :: 0 <= k < |partition| && IndexOfDomain(v.summaries, partition[k]).None? {
      return partition;
    }
    var authored := Indices(v.summaries, partition);
    stats.seen := stats.seen + 1;
    AuthoredAssignment(v, partition);
    var ok := IsCommittable(v, authored);
    if ok {
      AuthoredIsNearest(v, authored);
      return partition;
    }
    var choices := AdmissibleChoices(v);
    if exists k :: 0 <= k < |choices| && choices[k] == [] {
      stats.unrepairable := stats.unrepairable + 1;
      NoChoiceNoPartition(v, choices);
      return partition;
    }
    var best := SearchNearest(v, authored, choices);
    if best.None? {
      stats.unrepairable := stats.unrepairable + 1;
      return partition;
    }
    NearestAssignment(v, authored, best.value);
    stats.vnfsMoved := stats.vnfsMoved + Distance(best.value, authored);
    stats.partitionsChanged := stats.partitionsChanged + 1;
    r := DomainIds(v.summaries, best.value);
    RoundTripIndices(v, best.value);
    SameDistance(v, best.value, authored);
    DistanceIsEdits(r, partition);
  }

  /** Edits counted on indices are edits counted on domain ids. */
  lemma {:induction false} SameDistance(v: View, a: seq<nat>, b: seq<nat>)
    requires v.Valid() && |a| == |b|
    requires forall k :: 0 <= k < |a| ==> a[k] < |v.summaries| && b[k] < |v.summaries|
    ensures Distance(a, b) == Distance(DomainIds(v.summaries, a), DomainIds(v.summaries, b))
  {
    DistanceIsEdits(a, b);
    DistanceIsEdits(DomainIds(v.summaries, a), DomainIds(v.summaries, b));
    assert Edits(a, b) == Edits(DomainIds(v.summaries, a), DomainIds(v.summaries, b));
  }

  lemma AuthoredAssignment(v: View, partition: seq<DomainId>)
    requires |partition| == |v.vnfs|
    requires forall k :: 0 <= k < |partition| ==> IndexOfDomain(v.summaries, partition[k]).Some?
    ensures Assignment(v, Indices(v.summaries, partition))
    ensures DomainIds(v.summaries, Indices(v.summaries, partition)) == partition
  {}

  lemma NearestAssignment(v: View, authored: seq<nat>, best: seq<nat>)
    requires |authored| == |v.vnfs| && Nearest(v, authored, best)
    ensures Assignment(v, best) && Committable(v, best)
  {}

  lemma UsesChoice(v: View, choices: seq<seq<nat>>, c: seq<nat>, k: nat)
    requires ChoicesOf(v, choices) && Committable(v, c) && k < |choices|
    ensures choices[k] != []
  {
    assert c[k] in choices[k];
  }

  lemma NoChoiceNoPartition(v: View, choices: seq<seq<nat>>)
    requires ChoicesOf(v, choices)
    requires exists k :: 0 <= k < |choices| && choices[k] == []
    ensures !exists c :: Committable(v, c)
  {
    var k :| 0 <= k < |choices| && choices[k] == [];
    forall c ensures !Committable(v, c) {
      if Committable(v, c) {
        UsesChoice(v, choices, c, k);
        assert false;
      }
    }
  }

  lemma RoundTripIds(ss: seq<DomainSummary>, partition: seq<DomainId>)
    requires forall k :: 0 <= k < |partition| ==> IndexOfDomain(ss, partition[k]).Some?
    ensures DomainIds(ss, Indices(ss, partition)) == partition
  {}

  lemma RoundTripIndices(v: View, idx: seq<nat>)
    requires v.Valid() && forall k :: 0 <= k < |idx| ==> idx[k] < |v.summaries|
    ensures forall k :: 0 <= k < |idx| ==> IndexOfDomain(v.summaries, DomainIds(v.summaries, idx)[k]).Some?
    ensures Indices(v.summaries, DomainIds(v.summaries, idx)) == idx
  {
    var p := DomainIds(v.summaries, idx);
    forall k | 0 <= k < |idx| ensures IndexOfDomain(v.summaries, p[k]) == Some(idx[k]) {
      assert v.summaries[idx[k]].domain == p[k];
    }
  }

  // What the repair promises.

  /** The nearest committable partition is unique. */
  lemma NearestUnique(v: View, authored: seq<nat>, a: seq<nat>, b: seq<nat>)
    requires |authored| == |v.vnfs| && Nearest(v, authored, a) && Nearest(v, authored, b)
    ensures a == b
  {
    hide Committable, Edits, Used, SmallerFirst;
    assert NoWorse(authored, a, b) && NoWorse(authored, b, a);
    if a != b {
      SmallerFirstOneWay(a, b);
    }
  }

  /** Within the budget and for known domains the result is committable exactly when some
      committable partition exists. */
  lemma RepairSucceedsWheneverPossible(v: View, partition: seq<DomainId>, budget: nat, r: seq<DomainId>)
    requires v.Valid() && Searchable(v, partition, budget) && Repaired(v, partition, budget, r)
    ensures Searchable(v, r, budget)
    ensures Committable(v, Indices(v.summaries, r)) <==> exists c :: Committable(v, c)
  {
    if exists c :: Committable(v, c) {
      var best :| Nearest(v, Indices(v.summaries, partition), best) && r == DomainIds(v.summaries, best);
      RoundTripIndices(v, best);
    }
  }

  /** A committable partition is returned unchanged. */
  lemma CommittableIsFixed(v: View, partition: seq<DomainId>, budget: nat, r: seq<DomainId>)
    requires v.Valid() && Searchable(v, partition, budget) && Committable(v, Indices(v.summaries, partition))
    requires Repaired(v, partition, budget, r)
    ensures r == partition
  {
    var authored := Indices(v.summaries, partition);
    var best :| Nearest(v, authored, best) && r == DomainIds(v.summaries, best);
    AuthoredIsNearest(v, authored);
    NearestUnique(v, authored, best, authored);
    RoundTripIds(v.summaries, partition);
  }

  /** Repairing twice is repairing once. */
  lemma RepairIdempotent(v: View, partition: seq<DomainId>, budget: nat, r: seq<DomainId>, rr: seq<DomainId>)
    requires v.Valid() && Repaired(v, partition, budget, r) && Repaired(v, r, budget, rr)
    ensures rr == r
  {
    if Searchable(v, partition, budget) && exists c :: Committable(v, c) {
      RepairSucceedsWheneverPossible(v, partition, budget, r);
      CommittableIsFixed(v, r, budget, rr);
    }
  }
}
