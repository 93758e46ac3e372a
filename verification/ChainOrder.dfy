/** Chain-order contiguity (C10): each domain occupies exactly one maximal run of the chain. */
module ChainOrder {
  import opened Types

  /** Number of maximal runs of equal domain along the chain. */
  function RunCount(d: seq<DomainId>): nat {
    if |d| <= 1 then |d|
    else RunCount(d[..|d| - 1]) + if d[|d| - 2] != d[|d| - 1] then 1 else 0
  }

  /** Positions where a run starts: the form in which all three copies of the count are written. */
  function RunStarts(d: seq<DomainId>): set<nat> {
    set i: nat | i < |d| && StartsRun(d, i)
  }

  predicate StartsRun(d: seq<DomainId>, i: nat) {
    i < |d| && (i == 0 || d[i - 1] != d[i])
  }

  lemma {:induction false} RunCountIsRunStarts(d: seq<DomainId>)
    ensures RunCount(d) == |RunStarts(d)|
  {
    if d != [] {
      var front, n := d[..|d| - 1], |d| - 1;
      RunCountIsRunStarts(front);
      assert forall i: nat :: StartsRun(d, i) <==> StartsRun(front, i) || (i == n && StartsRun(d, n));
      assert RunStarts(d) == RunStarts(front) + if StartsRun(d, n) then {n} else {};
      if n == 0 {
        assert front == [];
      }
    }
  }

  function Domains(d: seq<DomainId>): set<DomainId> {
    set x | x in d
  }

  predicate IsContiguous(d: seq<DomainId>) {
    RunCount(d) == |Domains(d)|
  }

  /** The mode switch: with the rule off nothing is refused. */
  predicate Violates(d: seq<DomainId>, enabled: bool) {
    enabled && !IsContiguous(d)
  }

  /** No domain is left and entered again. */
  ghost predicate NoReentry(d: seq<DomainId>) {
    forall i, j, k :: !Reenters(d, i, j, k)
  }

  /** Position k is back in the domain of i although j, in between, is not in it. */
  ghost predicate Reenters(d: seq<DomainId>, i: int, j: int, k: int) {
    0 <= i < j < k < |d| && d[i] == d[k] && d[j] != d[i]
  }

  lemma DomainsLast(d: seq<DomainId>)
    requires d != []
    ensures Domains(d) == Domains(d[..|d| - 1]) + {d[|d| - 1]}
    ensures |Domains(d)| == |Domains(d[..|d| - 1])| + if d[|d| - 1] in d[..|d| - 1] then 0 else 1
  {
    var front, x := d[..|d| - 1], d[|d| - 1];
    assert d == front + [x];
    if x in front {
      assert Domains(d) == Domains(front);
    }
  }

  lemma {:induction false} RunsCoverDomains(d: seq<DomainId>)
    ensures |Domains(d)| <= RunCount(d)
  {
    if d != [] {
      DomainsLast(d);
      RunsCoverDomains(d[..|d| - 1]);
      if |d| == 1 {
        assert d[..0] == [];
      }
    }
  }

  /** The run-count test is exactly "no domain is left and re-entered". */
  lemma {:induction false} ContiguousIffNoReentry(d: seq<DomainId>)
    ensures IsContiguous(d) <==> NoReentry(d)
  {
    if |d| > 1 {
      var front, x, n, last := d[..|d| - 1], d[|d| - 1], |d|, |d| - 1;
      DomainsLast(d);
      ContiguousIffNoReentry(front);
      RunsCoverDomains(front);
      assert forall i, j, k :: Reenters(front, i, j, k) <==> Reenters(d, i, j, k) && k < n - 1;
      if d[n - 2] != x && x in front {
        var i :| 0 <= i < n - 1 && front[i] == x;
        assert Reenters(d, i, n - 2, n - 1);
      } else if d[n - 2] != x {
        assert forall i :: 0 <= i < n - 1 ==> front[i] != x;
        assert forall i, j :: !Reenters(d, i, j, last);
      } else {
        assert forall i, j :: Reenters(d, i, j, last) ==> Reenters(front, i, j, last - 1);
      }
    } else if |d| == 1 {
      DomainsLast(d);
      assert d[..0] == [];
    }
  }

  /** Some rearrangement of any chain is contiguous. */
  lemma {:induction false} Regroup(d: seq<DomainId>) returns (g: seq<DomainId>)
    ensures multiset(g) == multiset(d) && NoReentry(g)
  {
    if d == [] {
      g := [];
    } else {
      var front, x := d[..|d| - 1], d[|d| - 1];
      var h := Regroup(front);
      assert d == front + [x];
      if x in h {
        var i :| 0 <= i < |h| && h[i] == x;
        g := h[..i] + [x] + h[i..];
        assert h == h[..i] + h[i..];
        DuplicateKeepsOrder(h, i);
      } else {
        g := h + [x];
        assert forall i, j, k :: Reenters(g, i, j, k) ==> Reenters(h, i, j, k);
      }
    }
  }

  /** Repeating an element next to itself re-enters nothing. */
  lemma DuplicateKeepsOrder(h: seq<DomainId>, i: nat)
    requires i < |h| && NoReentry(h)
    ensures NoReentry(h[..i] + [h[i]] + h[i..])
  {
    var g := h[..i] + [h[i]] + h[i..];
    forall a, b, c ensures !Reenters(g, a, b, c) {
      var a', b', c' := if a <= i then a else a - 1, if b <= i then b else b - 1, if c <= i then c else c - 1;
      assert !Reenters(h, a', b', c');
    }
  }

  lemma SameMultisetSameDomains(p: seq<DomainId>, q: seq<DomainId>)
    requires multiset(p) == multiset(q)
    ensures Domains(p) == Domains(q)
  {
    forall x ensures x in p <==> x in q {
      assert x in p <==> x in multiset(p);
    }
  }

  /** A rearrangement with one run per domain. */
  lemma ContiguousArrangement(p: seq<DomainId>) returns (g: seq<DomainId>)
    ensures multiset(g) == multiset(p) && RunCount(g) == |Domains(p)|
  {
    g := Regroup(p);
    hide RunCount, NoReentry;
    ContiguousIffNoReentry(g);
    SameMultisetSameDomains(p, g);
  }

  /** No rearrangement has fewer runs. */
  ghost predicate FewestRuns(p: seq<DomainId>) {
    forall q :: multiset(q) == multiset(p) ==> RunCount(p) <= RunCount(q)
  }

  /** A chain pays the fewest domain crossings among all its rearrangements exactly when it
      is contiguous. */
  lemma ContiguousIffFewestCrossings(p: seq<DomainId>)
    ensures IsContiguous(p) <==> FewestRuns(p)
  {
    hide RunCount, Domains;
    RunsCoverDomains(p);
    var g := ContiguousArrangement(p);
    if IsContiguous(p) {
      forall q | multiset(q) == multiset(p) ensures RunCount(p) <= RunCount(q) {
        SameMultisetSameDomains(p, q);
        RunsCoverDomains(q);
      }
    } else {
      assert multiset(g) == multiset(p) && RunCount(p) > RunCount(g);
    }
  }
}
