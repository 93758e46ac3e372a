/** Stable insertion sort by a caller-supplied order, standing for the library sort. */
module Sorting {
  ghost predicate TotalOrder<T(!new)>(le: (T, T) -> bool) {
    && (forall a, b :: le(a, b) || le(b, a))
    && (forall a, b, c :: le(a, b) && le(b, c) ==> le(a, c))
  }

  ghost predicate InOrder<T>(s: seq<T>, le: (T, T) -> bool) {
    forall i, j :: 0 <= i < j < |s| ==> le(s[i], s[j])
  }

  /** How many elements of s stay in front of x. */
  function Slot<T>(s: seq<T>, x: T, le: (T, T) -> bool): (k: nat)
    ensures k <= |s|
    ensures k > 0 ==> le(s[k - 1], x)
    ensures forall j :: k <= j < |s| ==> !le(s[j], x)
  {
    if s == [] || le(s[|s| - 1], x) then |s| else Slot(s[..|s| - 1], x, le)
  }

  function Insert<T>(s: seq<T>, x: T, le: (T, T) -> bool): seq<T> {
    s[..Slot(s, x, le)] + [x] + s[Slot(s, x, le)..]
  }

  function Sort<T(!new)>(xs: seq<T>, le: (T, T) -> bool): (r: seq<T>)
    ensures |r| == |xs|
    ensures forall x :: x in r <==> x in xs
  {
    if xs == [] then []
    else
      assert xs == xs[..|xs| - 1] + [xs[|xs| - 1]];
      Insert(Sort(xs[..|xs| - 1], le), xs[|xs| - 1], le)
  }

  lemma {:induction false} SortInOrder<T(!new)>(xs: seq<T>, le: (T, T) -> bool)
    requires TotalOrder(le)
    ensures InOrder(Sort(xs, le), le)
  {
    if xs != [] {
      SortInOrder(xs[..|xs| - 1], le);
    }
  }

  lemma {:induction false} SortPermutes<T(!new)>(xs: seq<T>, le: (T, T) -> bool)
    ensures multiset(Sort(xs, le)) == multiset(xs)
  {
    if xs != [] {
      var front, x := xs[..|xs| - 1], xs[|xs| - 1];
      SortPermutes(front, le);
      InsertPermutes(Sort(front, le), x, Slot(Sort(front, le), x, le));
      assert xs == front + [x];
    }
  }

  /** Elements that sort alike keep the order they came in. */
  lemma {:induction false} SortIsStable<T(!new)>(xs: seq<T>, le: (T, T) -> bool)
    ensures forall p, q :: 0 <= p < q < |Sort(xs, le)| && le(Sort(xs, le)[q], Sort(xs, le)[p]) ==>
              CameBefore(xs, Sort(xs, le)[p], Sort(xs, le)[q])
  {
    if xs != [] {
      var n := |xs| - 1;
      var front, x := xs[..n], xs[n];
      SortIsStable(front, le);
      assert xs == front + [x];
      InsertIsStable(front, Sort(front, le), x, Slot(Sort(front, le), x, le), le);
    }
  }

  lemma InsertIsStable<T(!new)>(front: seq<T>, s: seq<T>, x: T, k: nat, le: (T, T) -> bool)
    requires k <= |s| && forall j :: k <= j < |s| ==> !le(s[j], x)
    requires forall y :: y in s ==> y in front
    requires forall p, q :: 0 <= p < q < |s| && le(s[q], s[p]) ==> CameBefore(front, s[p], s[q])
    ensures var r := s[..k] + [x] + s[k..];
            forall p, q :: 0 <= p < q < |r| && le(r[q], r[p]) ==> CameBefore(front + [x], r[p], r[q])
  {
    hide CameBefore;
    var r := s[..k] + [x] + s[k..];
    forall p, q | 0 <= p < q < |r| && le(r[q], r[p]) ensures CameBefore(front + [x], r[p], r[q]) {
      if q == k {
        CameBeforeLast(front, x, s[p]);
      } else if p != k {
        var i, j := if p < k then p else p - 1, if q < k then q else q - 1;
        assert r[p] == s[i] && r[q] == s[j];
        CameBeforeIn(front, x, s[i], s[j]);
      }
    }
  }

  ghost predicate CameBefore<T>(xs: seq<T>, a: T, b: T) {
    exists i, j :: 0 <= i < j < |xs| && xs[i] == a && xs[j] == b
  }

  lemma CameBeforeLast<T>(front: seq<T>, x: T, a: T)
    requires a in front
    ensures CameBefore(front + [x], a, x)
  {
    var i :| 0 <= i < |front| && front[i] == a;
    assert (front + [x])[i] == a && (front + [x])[|front|] == x;
  }

  lemma CameBeforeIn<T>(front: seq<T>, x: T, a: T, b: T)
    requires CameBefore(front, a, b)
    ensures CameBefore(front + [x], a, b)
  {
    var i, j :| 0 <= i < j < |front| && front[i] == a && front[j] == b;
    assert (front + [x])[i] == a && (front + [x])[j] == b;
  }

  lemma InsertPermutes<T>(s: seq<T>, x: T, k: nat)
    requires k <= |s|
    ensures multiset(s[..k] + [x] + s[k..]) == multiset(s) + multiset{x}
  {
    assert s == s[..k] + s[k..];
  }
}
