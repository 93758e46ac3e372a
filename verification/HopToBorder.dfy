/** The multi-source breadth-first search that labels every node of a domain with its hop
    distance to the domain border. */
module HopToBorder {
  import opened Types
  import opened Graphs
  import opened AnyOrder

  /** A hop label during the search: not reached yet, or reached after so many hops. */
  datatype Label = Infinite | Finite(hops: nat)

  /** A queued node and its distance. */
  datatype Item = Item(node: NodeId, hops: nat)

  /** The queue holds distinct nodes with their true distances, nearest first. */
  ghost predicate QueueOk(g: Graph<NodeId>, border: set<NodeId>, queue: seq<Item>) {
    && (forall i, j :: 0 <= i < j < |queue| ==> queue[i].node != queue[j].node && queue[i].hops <= queue[j].hops)
    && forall i :: 0 <= i < |queue| ==> queue[i].node in g && IsDistance(g, border, queue[i].node, queue[i].hops)
  }

  function Nodes(queue: seq<Item>): set<NodeId> {
    set i | 0 <= i < |queue| :: queue[i].node
  }

  /** All neighbours of the first `done` nodes have been discovered. */
  ghost predicate Expanded(g: Graph<NodeId>, queue: seq<Item>, done: int, visited: set<NodeId>) {
    forall i, w :: 0 <= i < done && i < |queue| && queue[i].node in g && w in g[queue[i].node] ==> w in visited
  }

  /** The labels are the queue's distances; everything else is still infinite. */
  ghost predicate Labelled(nodeIds: seq<NodeId>, queue: seq<Item>, hop: map<NodeId, Label>) {
    && (forall n :: n in nodeIds ==> n in hop)
    && (forall i :: 0 <= i < |queue| ==> queue[i].node in hop && hop[queue[i].node] == Finite(queue[i].hops))
    && forall n :: n in hop && n !in Nodes(queue) ==> hop[n] == Infinite
  }

  ghost predicate Search(g: Graph<NodeId>, border: set<NodeId>, nodeIds: seq<NodeId>, queue: seq<Item>, done: int,
                         visited: set<NodeId>, hop: map<NodeId, Label>)
  {
    && QueueOk(g, border, queue) && 0 <= done <= |queue|
    && Discovered(g, border, queue, visited) && Expanded(g, queue, done, visited)
    && TwoLevels(queue, done) && Labelled(nodeIds, queue, hop)
  }

  /** Discovered are the border and the queue; the border's own nodes are all queued. */
  ghost predicate Discovered(g: Graph<NodeId>, border: set<NodeId>, queue: seq<Item>, visited: set<NodeId>) {
    visited == border + Nodes(queue) && forall b :: b in border && b in g ==> b in Nodes(queue)
  }

  /** What waits is at the distance of the next node, or one further. */
  ghost predicate TwoLevels(queue: seq<Item>, done: int) {
    forall i :: 0 <= done <= i < |queue| ==> queue[i].hops <= queue[done].hops + 1
  }

  /** While a node at distance d is being expanded, everything at distance d or less has been
      discovered: whatever lies nearer was expanded before. */
  lemma {:induction false} NearerIsVisited(g: Graph<NodeId>, border: set<NodeId>, queue: seq<Item>, head: nat,
                                           visited: set<NodeId>, v: NodeId, e: nat)
    requires Closed(g) && QueueOk(g, border, queue) && head < |queue|
    requires Discovered(g, border, queue, visited) && Expanded(g, queue, head, visited)
    requires Hops(g, border, v, e) && e <= queue[head].hops
    ensures v in visited
    decreases e
  {
    hide QueueOk, Nodes, IsDistance, Closed, Discovered, Expanded;
    if e == 0 {
      BorderIsVisited(g, border, queue, visited, v);
    } else {
      var u := LastHop(g, border, v, e);
      NearerIsVisited(g, border, queue, head, visited, u, e - 1);
      BorderIsVisited(g, border, queue, visited, u);
      var i := NearerIsExpanded(g, border, queue, head, u, e - 1);
      ExpandedNeighbour(g, queue, head, visited, i, v);
    }
  }

  lemma BorderIsVisited(g: Graph<NodeId>, border: set<NodeId>, queue: seq<Item>, visited: set<NodeId>, v: NodeId)
    requires Discovered(g, border, queue, visited) && v in g
    ensures v in border ==> v in visited
    ensures v in visited ==> v in Nodes(queue)
  {}

  lemma ExpandedNeighbour(g: Graph<NodeId>, queue: seq<Item>, head: nat, visited: set<NodeId>, i: nat, v: NodeId)
    requires Expanded(g, queue, head, visited) && i < head && i < |queue|
    requires queue[i].node in g && v in g[queue[i].node]
    ensures v in visited
  {}

  /** A queued node nearer than the next one was expanded before it. */
  lemma NearerIsExpanded(g: Graph<NodeId>, border: set<NodeId>, queue: seq<Item>, head: nat, u: NodeId, e: nat)
    returns (i: nat)
    requires QueueOk(g, border, queue) && head < |queue| && u in Nodes(queue)
    requires Hops(g, border, u, e) && e < queue[head].hops
    ensures i < head && queue[i].node == u
  {
    i :| 0 <= i < |queue| && queue[i].node == u;
    assert IsDistance(g, border, u, queue[i].hops);
  }

  /** An undiscovered neighbour of a node at distance d is at distance d + 1. */
  lemma NewNeighbour(g: Graph<NodeId>, border: set<NodeId>, queue: seq<Item>, head: nat, visited: set<NodeId>,
                     w: NodeId)
    requires Closed(g) && QueueOk(g, border, queue) && head < |queue|
    requires Discovered(g, border, queue, visited) && Expanded(g, queue, head, visited)
    requires w in g[queue[head].node] && w !in visited
    ensures w in g && IsDistance(g, border, w, queue[head].hops + 1)
  {
    assert Hops(g, border, w, queue[head].hops + 1);
    forall e: nat | e < queue[head].hops + 1 ensures !Hops(g, border, w, e) {
      if Hops(g, border, w, e) {
        NearerIsVisited(g, border, queue, head, visited, w, e);
      }
    }
  }

  lemma NodesAppend(queue: seq<Item>, item: Item)
    ensures Nodes(queue + [item]) == Nodes(queue) + {item.node}
  {
    assert (queue + [item])[|queue|] == item;
    assert forall i :: 0 <= i < |queue| ==> (queue + [item])[i] == queue[i];
  }

  /** Discovering one neighbour of the node being expanded keeps the search invariant. */
  lemma Discover(g: Graph<NodeId>, border: set<NodeId>, nodeIds: seq<NodeId>, queue: seq<Item>, head: nat,
                 visited: set<NodeId>, hop: map<NodeId, Label>, w: NodeId)
    requires Closed(g) && Search(g, border, nodeIds, queue, head, visited, hop) && head < |queue|
    requires w in g[queue[head].node] && w !in visited
    ensures var d := queue[head].hops + 1;
            Search(g, border, nodeIds, queue + [Item(w, d)], head, visited + {w}, hop[w := Finite(d)])
  {
    hide IsDistance, Hops, Nodes, QueueOk, Labelled, Expanded, TwoLevels, Closed;
    var d := queue[head].hops + 1;
    NewNeighbour(g, border, queue, head, visited, w);
    NodesAppend(queue, Item(w, d));
    LastIsFarthest(g, border, queue, head);
    QueueGrows(g, border, queue, Item(w, d));
    LabelsGrow(nodeIds, queue, hop, w, d);
    FrontierGrows(g, queue, head, visited, w, d);
  }

  lemma LastIsFarthest(g: Graph<NodeId>, border: set<NodeId>, queue: seq<Item>, head: nat)
    requires QueueOk(g, border, queue) && TwoLevels(queue, head) && head < |queue|
    ensures forall i :: 0 <= i < |queue| ==> queue[i].hops <= queue[head].hops + 1
  {
    hide IsDistance;
  }

  lemma FrontierGrows(g: Graph<NodeId>, queue: seq<Item>, head: nat, visited: set<NodeId>, w: NodeId, d: nat)
    requires head < |queue| && d == queue[head].hops + 1
    requires Expanded(g, queue, head, visited) && TwoLevels(queue, head)
    ensures Expanded(g, queue + [Item(w, d)], head, visited + {w}) && TwoLevels(queue + [Item(w, d)], head)
  {
    assert forall i :: 0 <= i < |queue| ==> (queue + [Item(w, d)])[i] == queue[i];
  }

  lemma QueueGrows(g: Graph<NodeId>, border: set<NodeId>, queue: seq<Item>, item: Item)
    requires QueueOk(g, border, queue) && item.node in g && IsDistance(g, border, item.node, item.hops)
    requires item.node !in Nodes(queue) && forall i :: 0 <= i < |queue| ==> queue[i].hops <= item.hops
    ensures QueueOk(g, border, queue + [item])
  {
    hide IsDistance;
    assert forall i :: 0 <= i < |queue| ==> queue[i].node in Nodes(queue);
  }

  lemma LabelsGrow(nodeIds: seq<NodeId>, queue: seq<Item>, hop: map<NodeId, Label>, w: NodeId, d: nat)
    requires Labelled(nodeIds, queue, hop) && w !in Nodes(queue)
    ensures Labelled(nodeIds, queue + [Item(w, d)], hop[w := Finite(d)])
  {
    NodesAppend(queue, Item(w, d));
    assert forall i :: 0 <= i < |queue| ==> queue[i].node in Nodes(queue);
    hide Nodes;
  }

  /** Expand one node: discover all its undiscovered neighbours. */
  method Expand(g: Graph<NodeId>, node: NodeId, dist: nat, queue: seq<Item>, visited: set<NodeId>,
                hop: map<NodeId, Label>, ghost border: set<NodeId>, ghost nodeIds: seq<NodeId>, ghost head: nat)
    returns (queue': seq<Item>, visited': set<NodeId>, hop': map<NodeId, Label>)
    requires Closed(g) && Search(g, border, nodeIds, queue, head, visited, hop)
    requires node in g && head < |queue| && queue[head] == Item(node, dist)
    ensures Search(g, border, nodeIds, queue', head + 1, visited', hop')
  {
    hide Search, Closed;
    queue', visited', hop' := queue, visited, hop;
    var todo := g[node];
    while todo != {}
      invariant todo <= g[node] && head < |queue'| && queue'[head] == Item(node, dist)
      invariant Search(g, border, nodeIds, queue', head, visited', hop')
      invariant g[node] <= visited' + todo
      decreases |todo|
    {
      var w := PickAny(todo);
      todo := todo - {w};
      if w !in visited' {
        Discover(g, border, nodeIds, queue', head, visited', hop', w);
        visited' := visited' + {w};
        hop' := hop'[w := Finite(dist + 1)];
        queue' := queue' + [Item(w, dist + 1)];
      }
    }
    Advance(g, border, nodeIds, queue', head, visited', hop');
  }

  lemma Advance(g: Graph<NodeId>, border: set<NodeId>, nodeIds: seq<NodeId>, queue: seq<Item>, head: nat,
                visited: set<NodeId>, hop: map<NodeId, Label>)
    requires Search(g, border, nodeIds, queue, head, visited, hop) && head < |queue|
    requires queue[head].node in g && g[queue[head].node] <= visited
    ensures Search(g, border, nodeIds, queue, head + 1, visited, hop)
  {
    hide IsDistance, Hops, Labelled;
  }

  /** Every border node of the subgraph starts the search at distance zero. */
  method Seed(g: Graph<NodeId>, border: set<NodeId>, nodeIds: seq<NodeId>)
    returns (queue: seq<Item>, hop: map<NodeId, Label>)
    ensures Search(g, border, nodeIds, queue, 0, border, hop)
    ensures forall i :: 0 <= i < |queue| ==> queue[i].hops == 0
  {
    hop := map n | n in nodeIds :: Infinite;
    queue := [];
    var todo := border;
    assert Seeded(g, border, nodeIds, todo, queue, hop);
    while todo != {}
      invariant todo <= border && Seeded(g, border, nodeIds, todo, queue, hop)
      decreases |todo|
    {
      var b := PickAny(todo);
      SeedNext(g, border, nodeIds, todo, queue, hop, b);
      todo := todo - {b};
      if b in g {
        hop := hop[b := Finite(0)];
        queue := queue + [Item(b, 0)];
      }
    }
  }

  /** Where the seeding stands: the border nodes handled so far are queued at distance zero. */
  ghost predicate Seeded(g: Graph<NodeId>, border: set<NodeId>, nodeIds: seq<NodeId>, todo: set<NodeId>,
                         queue: seq<Item>, hop: map<NodeId, Label>)
  {
    && Nodes(queue) <= border - todo
    && (forall b :: b in border && b in g && b !in todo ==> b in Nodes(queue))
    && QueueOk(g, border, queue) && Labelled(nodeIds, queue, hop)
    && forall i :: 0 <= i < |queue| ==> queue[i].hops == 0
  }

  lemma SeedNext(g: Graph<NodeId>, border: set<NodeId>, nodeIds: seq<NodeId>, todo: set<NodeId>, queue: seq<Item>,
                 hop: map<NodeId, Label>, b: NodeId)
    requires todo <= border && Seeded(g, border, nodeIds, todo, queue, hop) && b in todo
    ensures if b in g then Seeded(g, border, nodeIds, todo - {b}, queue + [Item(b, 0)], hop[b := Finite(0)])
            else Seeded(g, border, nodeIds, todo - {b}, queue, hop)
  {
    if b in g {
      assert IsDistance(g, border, b, 0);
      NodesAppend(queue, Item(b, 0));
      QueueGrows(g, border, queue, Item(b, 0));
      LabelsGrow(nodeIds, queue, hop, b, 0);
    }
    hide Nodes, QueueOk, Labelled, IsDistance;
  }

  lemma DiscoveredIsClosed(g: Graph<NodeId>, border: set<NodeId>, nodeIds: seq<NodeId>, queue: seq<Item>,
                           visited: set<NodeId>, hop: map<NodeId, Label>)
    requires Closed(g) && Search(g, border, nodeIds, queue, |queue|, visited, hop)
    ensures forall u, w :: u in g && u in Nodes(queue) && w in g[u] ==> w in Nodes(queue)
  {
    forall u, w | u in g && u in Nodes(queue) && w in g[u] ensures w in Nodes(queue) {
      var i :| 0 <= i < |queue| && queue[i].node == u;
      assert w in visited && w in g;
    }
  }

  /** What the finished search says: a finite label is the true distance, an infinite one means
      that no border node is reachable. */
  lemma SearchComplete(g: Graph<NodeId>, border: set<NodeId>, nodeIds: seq<NodeId>, queue: seq<Item>,
                       visited: set<NodeId>, hop: map<NodeId, Label>, n: NodeId)
    requires Closed(g) && Search(g, border, nodeIds, queue, |queue|, visited, hop) && n in hop
    ensures hop[n].Finite? ==> IsDistance(g, border, n, hop[n].hops)
    ensures hop[n].Infinite? <==> !Reachable(g, border, n)
  {
    if n in Nodes(queue) {
      var i :| 0 <= i < |queue| && queue[i].node == n;
      assert IsDistance(g, border, n, queue[i].hops);
    } else {
      forall d: nat ensures !Hops(g, border, n, d) {
        if Hops(g, border, n, d) {
          DiscoveredIsClosed(g, border, nodeIds, queue, visited, hop);
          ClosedUnderHops(g, border, Nodes(queue), n, d);
        }
      }
    }
  }

  /** The label of every node: with no border at all zero, else the distance to the nearest
      border node, or the number of nodes when none is reachable. */
  ghost predicate HopMap(g: Graph<NodeId>, border: set<NodeId>, nodeIds: seq<NodeId>, hop: map<NodeId, nat>) {
    forall n :: n in nodeIds ==>
      && n in hop
      && if border == {} then hop[n] == 0
         else if Reachable(g, border, n) then IsDistance(g, border, n, hop[n])
         else hop[n] == |nodeIds|
  }

  method ComputeHopToBorder(g: Graph<NodeId>, nodeIds: seq<NodeId>, border: set<NodeId>) returns (hop: map<NodeId, nat>)
    requires Closed(g)
    ensures HopMap(g, border, nodeIds, hop)
  {
    hide Search, Closed;
    if border == {} {
      return map n | n in nodeIds :: 0;
    }
    var queue, labels := Seed(g, border, nodeIds);
    var visited := border;
    var head := 0;
    SearchBounded(g, border, nodeIds, queue, head, visited, labels);
    while head < |queue|
      invariant 0 <= head <= |queue| <= |g|
      invariant Search(g, border, nodeIds, queue, head, visited, labels)
      decreases |g| - head
    {
      assert queue[head].node in g by { SearchBounded(g, border, nodeIds, queue, head, visited, labels); }
      queue, visited, labels :=
        Expand(g, queue[head].node, queue[head].hops, queue, visited, labels, border, nodeIds, head);
      head := head + 1;
      SearchBounded(g, border, nodeIds, queue, head, visited, labels);
    }
    forall n | n in labels
      ensures labels[n].Finite? ==> IsDistance(g, border, n, labels[n].hops)
      ensures labels[n].Infinite? <==> !Reachable(g, border, n)
    {
      SearchComplete(g, border, nodeIds, queue, visited, labels, n);
    }
    hop := map n | n in labels :: if labels[n].Infinite? then |nodeIds| else labels[n].hops;
    assert forall n :: n in nodeIds ==>
          n in labels by { AllLabelled(g, border, nodeIds, queue, head, visited, labels); }
  }

  lemma AllLabelled(g: Graph<NodeId>, border: set<NodeId>, nodeIds: seq<NodeId>, queue: seq<Item>, head: nat,
                    visited: set<NodeId>, hop: map<NodeId, Label>)
    requires Search(g, border, nodeIds, queue, head, visited, hop)
    ensures forall n :: n in nodeIds ==> n in hop
  {}

  lemma SearchBounded(g: Graph<NodeId>, border: set<NodeId>, nodeIds: seq<NodeId>, queue: seq<Item>, head: nat,
                      visited: set<NodeId>, hop: map<NodeId, Label>)
    requires Search(g, border, nodeIds, queue, head, visited, hop)
    ensures head <= |queue| <= |g| && forall i :: 0 <= i < |queue| ==> queue[i].node in g
  {
    var nodes := seq(|queue|, i requires 0 <= i < |queue| => queue[i].node);
    DistinctBounded(nodes, g.Keys);
    assert |g| == |g.Keys|;
  }

  /** The sentinel is unambiguous: on a domain's own nodes, no reachable node is as far away as
      the number of nodes. */
  lemma SentinelIsUnambiguous(g: Graph<NodeId>, nodeIds: seq<NodeId>, border: set<NodeId>, hop: map<NodeId, nat>,
                              n: NodeId)
    requires Closed(g) && HopMap(g, border, nodeIds, hop) && border != {} && n in nodeIds
    requires |g| == |nodeIds|
    ensures n in hop && (hop[n] < |nodeIds| <==> Reachable(g, border, n))
  {
    if Reachable(g, border, n) {
      DistanceBelowSize(g, border, n, hop[n]);
    }
  }
}
