/** The shape of the committed partitions: load per domain, its fairness, and run counts. */
module StructureMetrics {
  import opened Types
  import opened OrderedDict
  import opened ChainOrder

  // Jain's fairness index.

  function Sum(v: seq<real>): real {
    if v == [] then 0.0 else Sum(v[..|v| - 1]) + v[|v| - 1]
  }

  function Squares(v: seq<real>): real {
    if v == [] then 0.0 else Squares(v[..|v| - 1]) + Times(v[|v| - 1], v[|v| - 1])
  }

  function Times(a: real, b: real): real {
    a * b
  }

  /** The index; none without any load. */
  function Jain(v: seq<real>): Option<real> {
    if v == [] || Sum(v) <= 0.0 then None
    else
      DenominatorPositive(v);
      Some(Sum(v) * Sum(v) / ((|v| as real) * Squares(v)))
  }

  lemma DenominatorPositive(v: seq<real>)
    requires Sum(v) > 0.0
    ensures Squares(v) > 0.0 && (|v| as real) * Squares(v) > 0.0
  {
    SquaresPositive(v);
  }

  // Products, one law at a time.

  lemma SquareSign(x: real)
    ensures Times(x, x) >= 0.0 && (Times(x, x) == 0.0 <==> x == 0.0)
  {
    if x < 0.0 {
      ProductSign(-x, -x);
      assert Times(-x, -x) == Times(x, x);
    } else {
      ProductSign(x, x);
    }
  }

  lemma ProductSign(a: real, b: real)
    requires a >= 0.0 && b >= 0.0
    ensures Times(a, b) >= 0.0 && (Times(a, b) == 0.0 <==> a == 0.0 || b == 0.0)
  {}

  lemma Distributes(a: real, b: real, c: real)
    ensures Times(a + b, c) == Times(a, c) + Times(b, c) && Times(c, a + b) == Times(c, a) + Times(c, b)
    ensures Times(a, b) == Times(b, a)
  {}

  lemma OneMore(n: nat, c: real)
    ensures Times((n + 1) as real, c) == Times(n as real, c) + c
  {
    assert Times((n as real) + 1.0, c) == Times(n as real, c) + 1.0 * c;
  }

  lemma SquareOfSum(a: real, b: real)
    ensures Times(a + b, a + b) == Times(a, a) + 2.0 * Times(a, b) + Times(b, b)
  {
    hide Times;
    Distributes(a, b, a + b);
    Distributes(a, b, a);
    Distributes(a, b, b);
  }

  lemma SquareOfDifference(a: real, b: real)
    ensures Times(a - b, a - b) == Times(a, a) - 2.0 * Times(a, b) + Times(b, b)
  {
    SquareOfSum(a - b, b);
    SquareOfSum(a, -b);
  }

  lemma {:induction false} SquaresPositive(v: seq<real>)
    ensures Squares(v) >= 0.0
    ensures Squares(v) == 0.0 ==> Sum(v) == 0.0
  {
    hide Times;
    if v != [] {
      SquaresPositive(v[..|v| - 1]);
      SquareSign(v[|v| - 1]);
    }
  }

  // The two inequalities.

  ghost predicate NonNegative(v: seq<real>) {
    forall i :: 0 <= i < |v| ==> v[i] >= 0.0
  }

  ghost predicate AllEqual(v: seq<real>) {
    forall i, j :: 0 <= i < |v| && 0 <= j < |v| ==> v[i] == v[j]
  }

  ghost predicate AllAre(v: seq<real>, x: real) {
    forall i :: 0 <= i < |v| ==> v[i] == x
  }

  /** At most one domain carries anything. */
  ghost predicate OneCarriesAll(v: seq<real>) {
    forall i, j :: 0 <= i < j < |v| ==> v[i] == 0.0 || v[j] == 0.0
  }

  /** Squared distances of all elements from x. */
  function Spread(v: seq<real>, x: real): real {
    if v == [] then 0.0 else Spread(v[..|v| - 1], x) + Times(v[|v| - 1] - x, v[|v| - 1] - x)
  }

  lemma {:induction false} SpreadExpands(v: seq<real>, x: real)
    ensures Spread(v, x) == Squares(v) - 2.0 * Times(Sum(v), x) + Times(|v| as real, Times(x, x))
  {
    if v == [] {
    } else {
      hide Times;
      var front, y := v[..|v| - 1], v[|v| - 1];
      SpreadExpands(front, x);
      SquareOfDifference(y, x);
      Distributes(Sum(front), y, x);
      OneMore(|front|, Times(x, x));
    }
  }

  lemma {:induction false} SpreadZero(v: seq<real>, x: real)
    ensures Spread(v, x) >= 0.0
    ensures Spread(v, x) == 0.0 <==> AllAre(v, x)
  {
    hide Times;
    if v != [] {
      var front, y := v[..|v| - 1], v[|v| - 1];
      SpreadZero(front, x);
      SquareSign(y - x);
      assert v == front + [y];
      AllAreNext(front, y, x);
    }
  }

  lemma AllAreNext(front: seq<real>, y: real, x: real)
    ensures AllAre(front + [y], x) <==> AllAre(front, x) && y == x
  {
    var v := front + [y];
    assert v[|front|] == y && forall i :: 0 <= i < |front| ==> v[i] == front[i];
  }

  lemma AllEqualNext(front: seq<real>, x: real)
    ensures AllEqual(front + [x]) <==> AllEqual(front) && AllAre(front, x)
  {
    var v := front + [x];
    assert v[|front|] == x && forall i :: 0 <= i < |front| ==> v[i] == front[i];
  }

  /** How far the square of the sum stays below the bound. */
  function Gap(v: seq<real>): real {
    Times(|v| as real, Squares(v)) - Times(Sum(v), Sum(v))
  }

  /** Adding an element widens the gap by its spread. */
  lemma GapGrows(front: seq<real>, x: real)
    ensures Gap(front + [x]) == Gap(front) + Spread(front, x)
  {
    var v := front + [x];
    assert v[..|front|] == front;
    hide Times;
    SpreadExpands(front, x);
    SquareOfSum(Sum(front), x);
    OneMore(|front|, Squares(v));
    Distributes(Squares(front), Times(x, x), |front| as real);
  }

  /** Cauchy's inequality with its equality case. */
  lemma {:induction false} GapZero(v: seq<real>)
    ensures Gap(v) >= 0.0 && (Gap(v) == 0.0 <==> AllEqual(v))
  {
    if v != [] {
      hide Gap, Spread, AllEqual, AllAre;
      var front, x := v[..|v| - 1], v[|v| - 1];
      GapZero(front);
      GapGrows(front, x);
      SpreadZero(front, x);
      AllEqualNext(front, x);
      assert v == front + [x];
    }
  }

  /** The square of a sum of non-negatives is at least the sum of squares, and equal to it
      exactly when at most one is not zero. */
  lemma {:induction false} SumSquaredAtLeast(v: seq<real>)
    requires NonNegative(v)
    ensures Sum(v) >= 0.0 && (Sum(v) == 0.0 <==> AllAre(v, 0.0))
    ensures Times(Sum(v), Sum(v)) >= Squares(v)
    ensures Times(Sum(v), Sum(v)) == Squares(v) <==> OneCarriesAll(v)
  {
    if v != [] {
      hide Times, OneCarriesAll, AllAre;
      var front, x := v[..|v| - 1], v[|v| - 1];
      SumSquaredAtLeast(front);
      SquareOfSum(Sum(front), x);
      ProductSign(Sum(front), x);
      assert v == front + [x];
      OneCarriesNext(front, x);
      AllAreNext(front, x, 0.0);
    }
  }

  lemma OneCarriesNext(front: seq<real>, x: real)
    ensures OneCarriesAll(front + [x]) <==> OneCarriesAll(front) && (x == 0.0 || AllAre(front, 0.0))
  {
    var v := front + [x];
    assert v[|front|] == x && forall i :: 0 <= i < |front| ==> v[i] == front[i];
  }

  /** The index lies between 1/M and 1; it is 1 exactly for equal loads and 1/M exactly when one
      domain carries everything. */
  lemma JainBounds(v: seq<real>)
    requires NonNegative(v) && Jain(v).Some?
    ensures 1.0 / (|v| as real) <= Jain(v).value <= 1.0
    ensures Jain(v).value == 1.0 <==> AllEqual(v)
    ensures Jain(v).value == 1.0 / (|v| as real) <==> OneCarriesAll(v)
  {
    var n, a, q := |v| as real, Sum(v) * Sum(v), Squares(v);
    DenominatorPositive(v);
    assert Jain(v).value == a / (n * q);
    hide Sum, Squares, AllEqual, OneCarriesAll, NonNegative, Jain;
    BothBounds(v);
    Quotient(n, a, q);
  }

  lemma BothBounds(v: seq<real>)
    requires NonNegative(v)
    ensures Squares(v) <= Sum(v) * Sum(v) <= (|v| as real) * Squares(v)
    ensures Sum(v) * Sum(v) == (|v| as real) * Squares(v) <==> AllEqual(v)
    ensures Sum(v) * Sum(v) == Squares(v) <==> OneCarriesAll(v)
  {
    hide Sum, Squares, AllEqual, OneCarriesAll, NonNegative;
    GapZero(v);
    SumSquaredAtLeast(v);
  }

  lemma Quotient(n: real, a: real, q: real)
    requires n >= 1.0 && q > 0.0 && q <= a <= n * q
    ensures n * q > 0.0
    ensures 1.0 / n <= a / (n * q) <= 1.0
    ensures a / (n * q) == 1.0 <==> a == n * q
    ensures a / (n * q) == 1.0 / n <==> a == q
  {
    var r, p := a / (n * q), n * q;
    assert r * p == a;
    assert r * p - p == Times(r - 1.0, p);
    assert (r * n - 1.0) * q == a - q;
    FactorSign(1.0 - r, p);
    FactorSign(r * n - 1.0, q);
    assert r - 1.0 / n == (r * n - 1.0) / n;
  }

  /** A product with a positive factor has the sign of the other. */
  lemma FactorSign(x: real, p: real)
    requires p > 0.0
    ensures x * p >= 0.0 <==> x >= 0.0
    ensures x * p == 0.0 <==> x == 0.0
  {}

  // Load per domain.

  function TotalLoad(load: Dict<DomainId, nat>): nat {
    if load == [] then 0 else TotalLoad(load[..|load| - 1]) + load[|load| - 1].1
  }

  /** VNFs of all partitions together. */
  function TotalVnfs(partitions: seq<seq<DomainId>>): nat {
    if partitions == [] then 0 else TotalVnfs(partitions[..|partitions| - 1]) + |partitions[|partitions| - 1]|
  }

  function Occurrences(p: seq<DomainId>, d: DomainId): nat {
    if p == [] then 0 else Occurrences(p[..|p| - 1], d) + if p[|p| - 1] == d then 1 else 0
  }

  /** Positions assigned to a domain, over all partitions. */
  function LoadOf(partitions: seq<seq<DomainId>>, d: DomainId): nat {
    if partitions == [] then 0
    else LoadOf(partitions[..|partitions| - 1], d) + Occurrences(partitions[|partitions| - 1], d)
  }

  function Held(load: Dict<DomainId, nat>, d: DomainId): nat {
    match Find(load, d) case None => 0 case Some(x) => x
  }

  function Bumped(load: Dict<DomainId, nat>, d: DomainId): Dict<DomainId, nat> {
    Put<DomainId, nat>(load, d, Held(load, d) + 1)
  }

  /** Counting one more VNF raises one domain's load, and the total, by one. */
  lemma CountOne(load: Dict<DomainId, nat>, d: DomainId)
    requires Distinct(load)
    ensures Distinct(Bumped(load, d)) && TotalLoad(Bumped(load, d)) == TotalLoad(load) + 1
    ensures forall x :: Held(Bumped(load, d), x) == Held(load, x) + if x == d then 1 else 0
    ensures forall x :: Find(load, x).Some? ==> Find(Bumped(load, d), x).Some?
  {
    forall x
      ensures Held(Bumped(load, d), x) == Held(load, x) + if x == d then 1 else 0
      ensures Find(load, x).Some? ==> Find(Bumped(load, d), x).Some?
    {
      FindAfterPut<DomainId, nat>(load, d, Held(load, d) + 1, x);
    }
    FindAfterPut<DomainId, nat>(load, d, Held(load, d) + 1, d);
    BumpedTotal(load, d);
  }

  lemma BumpedTotal(load: Dict<DomainId, nat>, d: DomainId)
    ensures TotalLoad(Bumped(load, d)) == TotalLoad(load) + 1
  {
    var i, next := Position(load, d), Bumped(load, d);
    if i < |load| {
      assert load == load[..i] + [load[i]] + load[i + 1..] && next == load[..i] + [(d, load[i].1 + 1)] + load[i + 1..];
      TotalSplit(load[..i], load[i], load[i + 1..]);
      TotalSplit(load[..i], (d, load[i].1 + 1), load[i + 1..]);
    } else {
      assert next[..|load|] == load;
    }
  }

  lemma {:induction false} TotalSplit(a: Dict<DomainId, nat>, p: (DomainId, nat), b: Dict<DomainId, nat>)
    ensures TotalLoad(a + [p] + b) == TotalLoad(a) + p.1 + TotalLoad(b)
  {
    if b == [] {
      assert a + [p] + b == a + [p] && (a + [p])[..|a|] == a;
    } else {
      var all, front := a + [p] + b, b[..|b| - 1];
      assert all[..|all| - 1] == a + [p] + front;
      TotalSplit(a, p, front);
    }
  }

  lemma OccurrencesNext(p: seq<DomainId>, k: nat)
    requires k < |p|
    ensures forall d :: Occurrences(p[..k + 1], d) == Occurrences(p[..k], d) + if p[k] == d then 1 else 0
  {
    assert p[..k + 1][..k] == p[..k];
  }

  /** The load dictionary: one entry per listed domain even when it received nothing. */
  method LoadPerDomain(partitions: seq<seq<DomainId>>, domainIds: seq<DomainId>) returns (load: Dict<DomainId, nat>)
    ensures Distinct(load) && forall d :: Held(load, d) == LoadOf(partitions, d)
    ensures forall d :: d in domainIds ==> Find(load, d).Some?
    ensures TotalLoad(load) == TotalVnfs(partitions)
  {
    load := EmptyLoads(domainIds);
    hide Find, Put, Position, Distinct, TotalLoad;
    var i := 0;
    while i < |partitions|
      invariant 0 <= i <= |partitions| && Distinct(load)
      invariant forall d :: Held(load, d) == LoadOf(partitions[..i], d)
      invariant forall d :: d in domainIds ==> Find(load, d).Some?
      invariant TotalLoad(load) == TotalVnfs(partitions[..i])
    {
      assert partitions[..i + 1][..i] == partitions[..i];
      load := AddPartition(load, partitions[i]);
      i := i + 1;
    }
    assert partitions[..i] == partitions;
  }

  method AddPartition(load: Dict<DomainId, nat>, p: seq<DomainId>) returns (next: Dict<DomainId, nat>)
    requires Distinct(load)
    ensures Distinct(next) && TotalLoad(next) == TotalLoad(load) + |p|
    ensures forall d :: Held(next, d) == Held(load, d) + Occurrences(p, d)
    ensures forall d :: Find(load, d).Some? ==> Find(next, d).Some?
  {
    hide Find, Bumped, Distinct, TotalLoad, Held;
    next := load;
    var k := 0;
    while k < |p|
      invariant 0 <= k <= |p| && Distinct(next) && TotalLoad(next) == TotalLoad(load) + k
      invariant forall d :: Held(next, d) == Held(load, d) + Occurrences(p[..k], d)
      invariant forall d :: Find(load, d).Some? ==> Find(next, d).Some?
    {
      OccurrencesNext(p, k);
      CountOne(next, p[k]);
      next := Bumped(next, p[k]);
      k := k + 1;
    }
    assert p[..k] == p;
  }

  method EmptyLoads(domainIds: seq<DomainId>) returns (load: Dict<DomainId, nat>)
    ensures Distinct(load) && TotalLoad(load) == 0 && forall d :: Held(load, d) == 0
    ensures forall d :: d in domainIds ==> Find(load, d).Some?
  {
    load := [];
    var i := 0;
    while i < |domainIds|
      invariant 0 <= i <= |domainIds| && Distinct(load) && ZeroLoads(load)
      invariant forall j :: 0 <= j < i ==> Find(load, domainIds[j]).Some?
    {
      var d := domainIds[i];
      forall x ensures Find(load, x).Some? || x == d ==> Find(Put(load, d, 0), x).Some? {
        FindAfterPut(load, d, 0, x);
      }
      StillZero(load, d);
      hide Find, Put, Distinct, ZeroLoads;
      load := Put(load, d, 0);
      i := i + 1;
    }
    ZeroTotal(load);
    forall d ensures Held(load, d) == 0 {
      FindIsMember(load, d);
    }
  }

  ghost predicate ZeroLoads(load: Dict<DomainId, nat>) {
    forall p :: p in load ==> p.1 == 0
  }

  lemma StillZero(load: Dict<DomainId, nat>, d: DomainId)
    requires Distinct(load) && ZeroLoads(load)
    ensures Distinct(Put(load, d, 0)) && ZeroLoads(Put(load, d, 0))
  {
    FindAfterPut(load, d, 0, d);
  }

  lemma {:induction false} ZeroTotal(load: Dict<DomainId, nat>)
    requires ZeroLoads(load)
    ensures TotalLoad(load) == 0
  {
    if load != [] {
      assert load[|load| - 1] in load;
      ZeroTotal(load[..|load| - 1]);
    }
  }

  /** The non-contiguous partitions among the committed ones, counted by runs against domains. */
  method CountNoncontiguous(partitions: seq<seq<DomainId>>) returns (n: nat)
    ensures n == |set k | 0 <= k < |partitions| && !NoReentry(partitions[k])|
  {
    n := 0;
    var found: set<nat> := {};
    var k := 0;
    while k < |partitions|
      invariant 0 <= k <= |partitions| && n == |found|
      invariant found == set j: nat | j < k && !NoReentry(partitions[j])
    {
      var runs := Runs(partitions[k]);
      RunCountIsRunStarts(partitions[k]);
      ContiguousIffNoReentry(partitions[k]);
      if runs != |Domains(partitions[k])| {
        n := n + 1;
        found := found + {k};
      }
      k := k + 1;
    }
    assert found == set j | 0 <= j < |partitions| && !NoReentry(partitions[j]);
  }

  method Runs(p: seq<DomainId>) returns (n: nat)
    ensures n == |RunStarts(p)|
  {
    n := 0;
    ghost var starts: set<nat> := {};
    var i := 0;
    while i < |p|
      invariant 0 <= i <= |p| && n == |starts|
      invariant starts == set j: nat | j < i && StartsRun(p, j)
    {
      if StartsRun(p, i) {
        n := n + 1;
        starts := starts + {i};
      }
      i := i + 1;
    }
    assert starts == RunStarts(p);
  }
}
