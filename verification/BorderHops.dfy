/** The inter-domain hops of routed flows, read off the node paths behind their routes. */
module BorderHops {
  import opened Types
  import opened Routing
  import opened Actors

  /** The steps of a node path that lead out of a domain, among the first n. */
  ghost function BordersTo(topo: Topology, p: seq<NodeId>, n: nat): set<nat> {
    set i: nat | i < n && StepLeaves(topo, p, i)
  }

  ghost predicate StepLeaves(topo: Topology, p: seq<NodeId>, i: nat) {
    i < |p| - 1 && LeavesDomain(topo, p[i], p[i + 1])
  }

  ghost predicate LeavesDomain(topo: Topology, u: NodeId, v: NodeId) {
    u in topo.attr && v in topo.attr && topo.attr[u].domain != topo.attr[v].domain
  }

  ghost function Borders(topo: Topology, p: seq<NodeId>): set<nat> {
    BordersTo(topo, p, |p|)
  }

  /** Step i of the node path takes link i of the route. */
  ghost predicate Along(topo: Topology, links: seq<LinkId>, p: seq<NodeId>) {
    |p| == |links| + 1 && forall i :: 0 <= i < |links| ==> IsLink(topo, links[i], p[i], p[i + 1])
  }

  ghost predicate IsLink(topo: Topology, l: LinkId, u: NodeId, v: NodeId) {
    exists e :: 0 <= e < |topo.links| && topo.links[e].id == l && topo.links[e].src == u && topo.links[e].dst == v
  }

  /** The node path behind the route recorded for a flow. */
  ghost predicate PathBehind(topo: Topology, f: Flow, at: map<VnfId, NodeId>, routes: map<FlowKey, seq<LinkId>>,
                             p: seq<NodeId>)
  {
    && f.src in at && f.dst in at && (f.src, f.dst) in routes && Along(topo, routes[(f.src, f.dst)], p)
    && p[0] == at[f.src] && p[|p| - 1] == at[f.dst]
  }

  ghost predicate PathsBehind(topo: Topology, flows: seq<Flow>, at: map<VnfId, NodeId>,
                              routes: map<FlowKey, seq<LinkId>>, paths: seq<seq<NodeId>>)
  {
    |paths| == |flows| && forall j :: 0 <= j < |flows| ==> PathBehind(topo, flows[j], at, routes, paths[j])
  }

  ghost function BordersOn(topo: Topology, paths: seq<seq<NodeId>>): nat {
    if paths == [] then 0 else BordersOn(topo, paths[..|paths| - 1]) + |Borders(topo, paths[|paths| - 1])|
  }

  /** The hops are the steps between two domains on the paths the flows take, no more, no fewer. */
  ghost predicate HopsAre(topo: Topology, flows: seq<Flow>, at: map<VnfId, NodeId>, routes: map<FlowKey, seq<LinkId>>,
                          hops: nat)
  {
    exists paths :: PathsBehind(topo, flows, at, routes, paths) && hops == BordersOn(topo, paths)
  }

  lemma {:induction false} CrossingsAppend(topo: Topology, links: seq<LinkId>, l: LinkId)
    ensures DomainCrossings(topo, links + [l])
         == DomainCrossings(topo, links) + if CrossesDomains(topo, l) then 1 else 0
  {
    if links == [] {
      assert [l][1..] == [] && links + [l] == [l];
    } else {
      assert (links + [l])[1..] == links[1..] + [l];
      CrossingsAppend(topo, links[1..], l);
    }
  }

  lemma CrossingStep(topo: Topology, l: LinkId, u: NodeId, v: NodeId)
    requires topo.Valid() && IsLink(topo, l, u, v)
    ensures CrossesDomains(topo, l) <==> LeavesDomain(topo, u, v)
  {
    var e :| 0 <= e < |topo.links| && topo.links[e].id == l && topo.links[e].src == u && topo.links[e].dst == v;
    assert forall x :: 0 <= x < |topo.links| && topo.links[x].id == l ==> x == e;
  }

  lemma BordersNext(topo: Topology, p: seq<NodeId>, n: nat)
    requires n + 1 < |p|
    ensures |BordersTo(topo, p, n + 1)| == |BordersTo(topo, p, n)| + if LeavesDomain(topo, p[n], p[n + 1]) then 1 else 0
  {
    hide LeavesDomain;
    assert BordersTo(topo, p, n + 1) == BordersTo(topo, p, n) + if StepLeaves(topo, p, n) then {n} else {};
  }

  /** Crossings counted link by link are the steps of the path between two domains. */
  lemma {:induction false} CrossingsAlong(topo: Topology, links: seq<LinkId>, p: seq<NodeId>, n: nat)
    requires topo.Valid() && Along(topo, links, p) && n <= |links|
    ensures DomainCrossings(topo, links[..n]) == |BordersTo(topo, p, n)|
  {
    if n == 0 {
      assert BordersTo(topo, p, 0) == {};
    } else {
      StepAlong(topo, links, p, n - 1);
      hide *;
      CrossingsAlong(topo, links, p, n - 1);
      CrossingStep(topo, links[n - 1], p[n - 1], p[n]);
      CrossingsAppend(topo, links[..n - 1], links[n - 1]);
      assert links[..n] == links[..n - 1] + [links[n - 1]];
      BordersNext(topo, p, n - 1);
    }
  }

  lemma StepAlong(topo: Topology, links: seq<LinkId>, p: seq<NodeId>, i: nat)
    requires Along(topo, links, p) && i < |links|
    ensures i + 1 < |p| && IsLink(topo, links[i], p[i], p[i + 1])
  {}

  /** The hops a route adds are the steps of its node path between two domains; so a route whose
      nodes all lie in one domain adds none. */
  lemma RouteCrossings(topo: Topology, links: seq<LinkId>, p: seq<NodeId>)
    requires topo.Valid() && Along(topo, links, p)
    ensures DomainCrossings(topo, links) == |Borders(topo, p)|
    ensures (forall u, v :: u in p && v in p && u in topo.attr && v in topo.attr ==>
                  topo.attr[u].domain == topo.attr[v].domain) ==>
              DomainCrossings(topo, links) == 0
  {
    CrossingsAlong(topo, links, p, |links|);
    assert links[..|links|] == links;
    assert BordersTo(topo, p, |links|) == Borders(topo, p);
    if forall u, v :: u in p && v in p && u in topo.attr && v in topo.attr ==>
        topo.attr[u].domain == topo.attr[v].domain
    {
      assert Borders(topo, p) == {};
    }
  }

  /** Every walk has its node path. */
  lemma {:induction false} WalkHasPath(topo: Topology, allowed: set<nat>, links: seq<LinkId>, s: NodeId,
                                       t: NodeId) returns (p: seq<NodeId>)
    requires Connects(topo, allowed, links, s, t)
    ensures Along(topo, links, p) && p[0] == s && p[|p| - 1] == t
  {
    p := [s];
    if links != [] {
      var e :| 0 <= e < |topo.links| && e in allowed && topo.links[e].id == links[0]
               && topo.links[e].src == s && Connects(topo, allowed, links[1..], topo.links[e].dst, t);
      var rest := WalkHasPath(topo, allowed, links[1..], topo.links[e].dst, t);
      hide Connects;
      p := [s] + rest;
      forall i | 0 <= i < |links| ensures IsLink(topo, links[i], p[i], p[i + 1]) {
        if i > 0 {
          assert links[1..][i - 1] == links[i];
        }
      }
    }
  }

  /** For a selected route it is the path that was selected. */
  lemma PathIsAlong(topo: Topology, allowed: set<nat>, p: seq<NodeId>, s: NodeId, t: NodeId)
    requires topo.Valid() && topo.SimplePath(allowed, p, s, t)
    ensures Along(topo, LinksOf(topo, p), p)
    ensures DomainCrossings(topo, LinksOf(topo, p)) == |Borders(topo, p)|
  {
    forall i | 0 <= i < |LinksOf(topo, p)| ensures IsLink(topo, LinksOf(topo, p)[i], p[i], p[i + 1]) {
      LinksOfAt(topo, p, i);
      var e := topo.LinkIndex(p[i], p[i + 1]);
      assert 0 <= e < |topo.links| && topo.links[e].id == LinksOf(topo, p)[i];
    }
    RouteCrossings(topo, LinksOf(topo, p), p);
  }

  /** A route has one node path, so the hops are determined by the routes. */
  lemma {:induction false} OnePath(topo: Topology, links: seq<LinkId>, p: seq<NodeId>, q: seq<NodeId>, n: nat)
    requires topo.Valid() && Along(topo, links, p) && Along(topo, links, q) && p[0] == q[0] && n < |p|
    ensures p[n] == q[n]
  {
    if n > 0 {
      var l := links[n - 1];
      assert IsLink(topo, l, p[n - 1], p[n]) && IsLink(topo, l, q[n - 1], q[n]);
      assert forall x, y :: 0 <= x < |topo.links| && 0 <= y < |topo.links| && topo.links[x].id == topo.links[y].id ==>
          x == y;
    }
  }

  lemma OneHopCount(topo: Topology, flows: seq<Flow>, at: map<VnfId, NodeId>, routes: map<FlowKey, seq<LinkId>>,
                    a: nat, b: nat)
    requires topo.Valid() && HopsAre(topo, flows, at, routes, a) && HopsAre(topo, flows, at, routes, b)
    ensures a == b
  {
    hide Along, Topology.Valid, BordersOn;
    var ps := SomePaths(topo, flows, at, routes, a);
    var qs := SomePaths(topo, flows, at, routes, b);
    forall j | 0 <= j < |flows| ensures ps[j] == qs[j] {
      assert PathBehind(topo, flows[j], at, routes, ps[j]) && PathBehind(topo, flows[j], at, routes, qs[j]);
      SamePath(topo, routes[flows[j].Key()], ps[j], qs[j]);
    }
    assert ps == qs;
  }

  lemma SamePath(topo: Topology, links: seq<LinkId>, p: seq<NodeId>, q: seq<NodeId>)
    requires topo.Valid() && Along(topo, links, p) && Along(topo, links, q) && p[0] == q[0]
    ensures p == q
  {
    forall n | 0 <= n < |p| ensures p[n] == q[n] {
      OnePath(topo, links, p, q, n);
    }
  }

  lemma NoHops(topo: Topology, flows: seq<Flow>, at: map<VnfId, NodeId>, routes: map<FlowKey, seq<LinkId>>)
    requires flows == []
    ensures HopsAre(topo, flows, at, routes, 0)
  {
    assert PathsBehind(topo, flows, at, routes, []) && BordersOn(topo, []) == 0;
  }

  /** One more flow is routed. */
  lemma HopsNext(topo: Topology, allowed: set<nat>, flows: seq<Flow>, at: map<VnfId, NodeId>,
                 routes: map<FlowKey, seq<LinkId>>, hops: nat, f: Flow, links: seq<LinkId>)
    requires topo.Valid() && HopsAre(topo, flows, at, routes, hops) && f.Key() !in FlowKeys(flows)
    requires f.src in at && f.dst in at && Connects(topo, allowed, links, at[f.src], at[f.dst])
    ensures HopsAre(topo, flows + [f], at, routes[f.Key() := links], hops + DomainCrossings(topo, links))
  {
    hide *;
    var p := WalkHasPath(topo, allowed, links, at[f.src], at[f.dst]);
    RouteCrossings(topo, links, p);
    var paths := SomePaths(topo, flows, at, routes, hops);
    PathsNext(topo, flows, at, routes, paths, f, links, p);
    HopsWhole(topo, flows + [f], at, routes[f.Key() := links], paths + [p]);
  }

  lemma SomePaths(topo: Topology, flows: seq<Flow>, at: map<VnfId, NodeId>, routes: map<FlowKey, seq<LinkId>>,
                  hops: nat) returns (paths: seq<seq<NodeId>>)
    requires HopsAre(topo, flows, at, routes, hops)
    ensures PathsBehind(topo, flows, at, routes, paths) && hops == BordersOn(topo, paths)
  {
    paths :| PathsBehind(topo, flows, at, routes, paths) && hops == BordersOn(topo, paths);
  }

  lemma HopsWhole(topo: Topology, flows: seq<Flow>, at: map<VnfId, NodeId>, routes: map<FlowKey, seq<LinkId>>,
                  paths: seq<seq<NodeId>>)
    requires PathsBehind(topo, flows, at, routes, paths)
    ensures HopsAre(topo, flows, at, routes, BordersOn(topo, paths))
  {}

  lemma PathsNext(topo: Topology, flows: seq<Flow>, at: map<VnfId, NodeId>, routes: map<FlowKey, seq<LinkId>>,
                  paths: seq<seq<NodeId>>, f: Flow, links: seq<LinkId>, p: seq<NodeId>)
    requires PathsBehind(topo, flows, at, routes, paths) && f.Key() !in FlowKeys(flows)
    requires f.src in at && f.dst in at && Along(topo, links, p) && p[0] == at[f.src] && p[|p| - 1] == at[f.dst]
    ensures PathsBehind(topo, flows + [f], at, routes[f.Key() := links], paths + [p])
    ensures BordersOn(topo, paths + [p]) == BordersOn(topo, paths) + |Borders(topo, p)|
  {
    hide Along, Borders;
    var all, flows', routes' := paths + [p], flows + [f], routes[f.Key() := links];
    assert all[..|paths|] == paths;
    forall j | 0 <= j < |flows'| ensures PathBehind(topo, flows'[j], at, routes', all[j]) {
      if j < |flows| {
        assert flows[j].Key() in FlowKeys(flows);
        assert PathBehind(topo, flows[j], at, routes, paths[j]);
      }
    }
  }
}
