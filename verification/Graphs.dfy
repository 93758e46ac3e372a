/** Walks, distances and reachability in a finite graph, the meaning both breadth-first
    searches are proved against. */
module Graphs {
  /** Neighbours of every node; every neighbour is a node. */
  type Graph<V> = map<V, set<V>>

  ghost predicate Closed<V(!new)>(g: Graph<V>) {
    forall u, v :: u in g && v in g[u] ==> v in g
  }

  ghost predicate Undirected<V(!new)>(g: Graph<V>) {
    forall u, v :: u in g && v in g[u] ==> v in g && u in g[v]
  }

  /** Some walk of exactly d hops leads from a source to v. */
  ghost predicate Hops<V(!new)>(g: Graph<V>, sources: set<V>, v: V, d: nat) {
    if d == 0 then v in g && v in sources
    else exists u :: u in g && v in g[u] && Hops(g, sources, u, d - 1)
  }

  ghost predicate Reachable<V(!new)>(g: Graph<V>, sources: set<V>, v: V) {
    exists d: nat :: Hops(g, sources, v, d)
  }

  /** d is the length of a shortest walk from a source to v. */
  ghost predicate IsDistance<V(!new)>(g: Graph<V>, sources: set<V>, v: V, d: nat) {
    Hops(g, sources, v, d) && forall e: nat :: e < d ==> !Hops(g, sources, v, e)
  }

  /** The last hop of a walk. */
  lemma LastHop<V(!new)>(g: Graph<V>, sources: set<V>, v: V, d: nat) returns (u: V)
    requires d > 0 && Hops(g, sources, v, d)
    ensures u in g && v in g[u] && Hops(g, sources, u, d - 1)
  {
    u :| u in g && v in g[u] && Hops(g, sources, u, d - 1);
  }

  lemma {:induction false} HopsInside<V(!new)>(g: Graph<V>, sources: set<V>, v: V, d: nat)
    requires Closed(g) && Hops(g, sources, v, d)
    ensures v in g
  {
    if d > 0 {
      var u := LastHop(g, sources, v, d);
    }
  }

  /** A set of nodes that contains the sources and all neighbours of its members contains
      everything reachable. */
  lemma {:induction false} ClosedUnderHops<V(!new)>(g: Graph<V>, sources: set<V>, s: set<V>, v: V, d: nat)
    requires forall u :: u in g && u in sources ==> u in s
    requires forall u, w :: u in g && u in s && w in g[u] ==> w in s
    requires Hops(g, sources, v, d)
    ensures v in s
  {
    if d > 0 {
      var u := LastHop(g, sources, v, d);
      ClosedUnderHops(g, sources, s, u, d - 1);
    }
  }

  /** One more hop at the front of a walk. */
  lemma {:induction false} HopsFromNeighbour<V(!new)>(g: Graph<V>, u: V, w: V, v: V, d: nat)
    requires u in g && w in g[u] && Hops(g, {w}, v, d)
    ensures Hops(g, {u}, v, d + 1)
  {
    if d == 0 {
      assert Hops(g, {u}, u, 0);
    } else {
      var x :| x in g && v in g[x] && Hops(g, {w}, x, d - 1);
      HopsFromNeighbour(g, u, w, x, d - 1);
    }
  }

  /** In an undirected graph walks can be read backwards: a distance from is a distance to. */
  lemma {:induction false} HopsReverse<V(!new)>(g: Graph<V>, a: V, b: V, d: nat)
    requires Undirected(g) && Hops(g, {a}, b, d)
    ensures Hops(g, {b}, a, d)
  {
    if d > 0 {
      var u :| u in g && b in g[u] && Hops(g, {a}, u, d - 1);
      HopsReverse(g, a, u, d - 1);
      HopsFromNeighbour(g, b, u, a, d - 1);
    }
  }

  lemma {:induction false} SomeSource<V(!new)>(g: Graph<V>, sources: set<V>, v: V, d: nat) returns (s: V)
    requires Hops(g, sources, v, d)
    ensures s in sources && Hops(g, {s}, v, d)
  {
    if d == 0 {
      s := v;
    } else {
      var u := LastHop(g, sources, v, d);
      s := SomeSource(g, sources, u, d - 1);
    }
  }

  /** A node at distance d has a predecessor at distance d - 1. */
  lemma Predecessor<V(!new)>(g: Graph<V>, sources: set<V>, v: V, d: nat) returns (u: V)
    requires d > 0 && IsDistance(g, sources, v, d)
    ensures u in g && IsDistance(g, sources, u, d - 1)
  {
    u :| u in g && v in g[u] && Hops(g, sources, u, d - 1);
    forall e: nat | e < d - 1 ensures !Hops(g, sources, u, e) {
      if Hops(g, sources, u, e) {
        assert Hops(g, sources, v, e + 1);
      }
    }
  }

  /** Nodes at every smaller distance exist, so there are more nodes than any distance. */
  lemma {:induction false} Layers<V(!new)>(g: Graph<V>, sources: set<V>, v: V, d: nat) returns (s: set<V>)
    requires Closed(g) && IsDistance(g, sources, v, d)
    ensures |s| == d + 1 && s <= g.Keys
    ensures forall x :: x in s ==> exists e: nat :: e <= d && IsDistance(g, sources, x, e)
  {
    HopsInside(g, sources, v, d);
    if d == 0 {
      s := {v};
    } else {
      var u := Predecessor(g, sources, v, d);
      var t := Layers(g, sources, u, d - 1);
      assert v !in t;
      s := t + {v};
    }
  }

  lemma {:induction false} SubsetSize<V>(a: set<V>, b: set<V>)
    requires a <= b
    ensures |a| <= |b|
  {
    if a != {} {
      var x :| x in a;
      SubsetSize(a - {x}, b - {x});
    }
  }

  /** Every distance is smaller than the number of nodes. */
  lemma DistanceBelowSize<V(!new)>(g: Graph<V>, sources: set<V>, v: V, d: nat)
    requires Closed(g) && IsDistance(g, sources, v, d)
    ensures d < |g|
  {
    var s := Layers(g, sources, v, d);
    SubsetSize(s, g.Keys);
    assert |g| == |g.Keys|;
  }

  /** A list of distinct members of a set is no longer than the set is large. */
  lemma {:induction false} DistinctBounded<V>(s: seq<V>, b: set<V>)
    requires forall i, j :: 0 <= i < j < |s| ==> s[i] != s[j]
    requires forall i :: 0 <= i < |s| ==> s[i] in b
    ensures |s| <= |b|
  {
    if s != [] {
      DistinctBounded(s[1..], b - {s[0]});
    }
  }
}
