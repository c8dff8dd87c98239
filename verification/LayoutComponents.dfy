/** Splitting a graph into its connected parts, breadth first. */
module LayoutComponents {
  import opened Basics

  type Id = string

  datatype Edge = Edge(source: Id, target: Id)

  datatype Component = Component(nodes: seq<Id>, edges: seq<Edge>)

  /** Both ends are nodes of the graph. */
  predicate Known(nodes: seq<Id>, e: Edge) { e.source in nodes && e.target in nodes }

  /** A known edge joins x and y, whichever way it points. */
  predicate Joined(nodes: seq<Id>, edges: seq<Edge>, x: Id, y: Id) {
    exists k :: 0 <= k < |edges| && Known(nodes, edges[k])
                && ((edges[k].source == x && edges[k].target == y) || (edges[k].source == y && edges[k].target == x))
  }

  predicate IsPath(nodes: seq<Id>, edges: seq<Edge>, path: seq<Id>) {
    path != [] && path[0] in nodes && forall k :: 0 <= k < |path| - 1 ==> Joined(nodes, edges, path[k], path[k + 1])
  }

  /** An undirected path leads from x to y. */
  ghost predicate Connected(nodes: seq<Id>, edges: seq<Edge>, x: Id, y: Id) {
    exists path: seq<Id> :: IsPath(nodes, edges, path) && path[0] == x && path[|path| - 1] == y
  }

  // ---- paths ---------------------------------------------------------------------------------------

  lemma {:induction false} JoinedSymmetric(nodes: seq<Id>, edges: seq<Edge>, x: Id, y: Id)
    requires Joined(nodes, edges, x, y)
    ensures Joined(nodes, edges, y, x) && x in nodes && y in nodes
  {
    var k :| 0 <= k < |edges| && Known(nodes, edges[k])
             && ((edges[k].source == x && edges[k].target == y) || (edges[k].source == y && edges[k].target == x));
    assert Known(nodes, edges[k]);
  }

  lemma {:induction false} ConnectedSelf(nodes: seq<Id>, edges: seq<Edge>, x: Id)
    requires x in nodes
    ensures Connected(nodes, edges, x, x)
  {
    assert IsPath(nodes, edges, [x]);
  }

  lemma {:induction false} ConnectedMore(nodes: seq<Id>, edges: seq<Edge>, x: Id, y: Id, z: Id)
    requires Connected(nodes, edges, x, y) && Joined(nodes, edges, y, z)
    ensures Connected(nodes, edges, x, z)
  {
    hide Joined;
    var path: seq<Id> :| IsPath(nodes, edges, path) && path[0] == x && path[|path| - 1] == y;
    assert IsPath(nodes, edges, path + [z]);
  }

  /** Contains every neighbour of its members. */
  ghost predicate Closed(nodes: seq<Id>, edges: seq<Edge>, s: set<Id>) {
    forall x, y :: x in s && Joined(nodes, edges, x, y) ==> y in s
  }

  lemma {:induction false} PathStaysInside(nodes: seq<Id>, edges: seq<Edge>, s: set<Id>, path: seq<Id>)
    requires Closed(nodes, edges, s) && IsPath(nodes, edges, path) && path[0] in s
    ensures forall k :: 0 <= k < |path| ==> path[k] in s
    decreases |path|
  {
    hide Joined;
    if |path| > 1 {
      assert Joined(nodes, edges, path[0], path[1]);
      JoinedSymmetric(nodes, edges, path[0], path[1]);
      PathStaysInside(nodes, edges, s, path[1..]);
      forall k | 0 <= k < |path| ensures path[k] in s { if k > 0 { assert path[1..][k - 1] == path[k]; } }
    }
  }

  /** What is closed has all that is connected to its members. */
  lemma {:induction false} ClosedHasAll(nodes: seq<Id>, edges: seq<Edge>, s: set<Id>, x: Id, y: Id)
    requires Closed(nodes, edges, s) && x in s && Connected(nodes, edges, x, y)
    ensures y in s
  {
    hide Joined;
    var path: seq<Id> :| IsPath(nodes, edges, path) && path[0] == x && path[|path| - 1] == y;
    PathStaysInside(nodes, edges, s, path);
  }

  /** A part: all that is connected to one node, each once. */
  ghost predicate IsPart(nodes: seq<Id>, edges: seq<Edge>, part: seq<Id>) {
    && part != []
    && (forall i, j :: 0 <= i < j < |part| ==> part[i] != part[j])
    && forall y :: y in part <==> Connected(nodes, edges, part[0], y)
  }

  // ---- adjacency -----------------------------------------------------------------------------------

  method Adjacency(nodes: seq<Id>, edges: seq<Edge>) returns (adj: map<Id, seq<Id>>)
    ensures adj.Keys == set n | n in nodes
    ensures forall x, y :: x in adj ==> (y in adj[x] <==> Joined(nodes, edges, x, y))
  {
    adj := map n | n in nodes :: [];
    for m := 0 to |edges|
      invariant adj.Keys == set n | n in nodes
      invariant forall x, y :: x in adj ==> (y in adj[x] <==> Joined(nodes, edges[..m], x, y))
    {
      var e := edges[m];
      ghost var was := adj;
      if e.source in adj && e.target in adj {
        adj := adj[e.source := adj[e.source] + [e.target]];
        adj := adj[e.target := adj[e.target] + [e.source]];
      }
      forall x, y | x in adj ensures y in adj[x] <==> Joined(nodes, edges[..m + 1], x, y) {
        JoinedMore(nodes, edges, m, x, y);
      }
    }
    assert edges[..|edges|] == edges;
  }

  lemma {:induction false} JoinedMore(nodes: seq<Id>, edges: seq<Edge>, m: nat, x: Id, y: Id)
    requires m < |edges|
    ensures Joined(nodes, edges[..m + 1], x, y)
            <==> Joined(nodes, edges[..m], x, y)
                 || (Known(nodes, edges[m]) && (edges[m] == Edge(x, y) || edges[m] == Edge(y, x)))
  {
    var more := edges[..m + 1];
    assert forall k :: 0 <= k < m ==> more[k] == edges[..m][k];
    assert more[m] == edges[m];
  }

  // ---- the search -----------------------------------------------------------------------------------

  ghost predicate AdjacencyOf(adj: map<Id, seq<Id>>, nodes: seq<Id>, edges: seq<Edge>) {
    && adj.Keys == (set n | n in nodes)
    && forall x, y :: x in adj ==> (y in adj[x] <==> Joined(nodes, edges, x, y))
  }

  /** Found from start so far: each once, none seen before, all connected to start. */
  ghost predicate Growing(nodes: seq<Id>, edges: seq<Edge>, start: Id, found: seq<Id>, seen: set<Id>, visited: set<Id>) {
    && found != [] && found[0] == start
    && visited == seen + (set y | y in found) && visited <= (set n | n in nodes)
    && (forall i, j :: 0 <= i < j < |found| ==> found[i] != found[j])
    && forall y :: y in found ==> y !in seen && Connected(nodes, edges, start, y)
  }

  /** The neighbours of the first ones found are found as well. */
  ghost predicate Covered(nodes: seq<Id>, edges: seq<Edge>, part: seq<Id>, visited: set<Id>) {
    forall x, y :: x in part && Joined(nodes, edges, x, y) ==> y in visited
  }

  lemma {:induction false} GrowingMore(nodes: seq<Id>, edges: seq<Edge>, start: Id, found: seq<Id>, seen: set<Id>, visited: set<Id>,
                                       cur: Id, next: Id)
    requires Growing(nodes, edges, start, found, seen, visited) && cur in found && Joined(nodes, edges, cur, next)
    requires next !in visited
    ensures Growing(nodes, edges, start, found + [next], seen, visited + {next})
  {
    hide Joined, Connected;
    ConnectedMore(nodes, edges, start, cur, next);
    JoinedSymmetric(nodes, edges, cur, next);
  }

  lemma {:induction false} GrowingStarts(nodes: seq<Id>, edges: seq<Edge>, start: Id, seen: set<Id>)
    requires start in nodes && start !in seen && seen <= (set n | n in nodes)
    ensures Growing(nodes, edges, start, [start], seen, seen + {start})
  {
    hide Connected;
    ConnectedSelf(nodes, edges, start);
  }

  /** When everything found is covered, it is the part of start. */
  lemma {:induction false} GrowingDone(nodes: seq<Id>, edges: seq<Edge>, start: Id, found: seq<Id>, seen: set<Id>, visited: set<Id>)
    requires Growing(nodes, edges, start, found, seen, visited) && Covered(nodes, edges, found, visited)
    requires Closed(nodes, edges, seen)
    ensures IsPart(nodes, edges, found) && Closed(nodes, edges, visited) && seen !! (set y | y in found)
  {
    hide Joined, Connected;
    var own := set y | y in found;
    forall x, y | x in own && Joined(nodes, edges, x, y) ensures y in own {
      JoinedSymmetric(nodes, edges, x, y);
      assert x in found && y in visited;
    }
    forall y | Connected(nodes, edges, start, y) ensures y in found { ClosedHasAll(nodes, edges, own, start, y); }
  }

  /** Queue the neighbours of cur that were not visited. */
  method Expand(ghost nodes: seq<Id>, ghost edges: seq<Edge>, adj: map<Id, seq<Id>>, ghost start: Id, cur: Id,
                ghost found: seq<Id>, ghost seen: set<Id>, visited: set<Id>)
    returns (news: seq<Id>, visited': set<Id>)
    requires AdjacencyOf(adj, nodes, edges) && cur in adj && cur in found && Growing(nodes, edges, start, found, seen, visited)
    ensures Growing(nodes, edges, start, found + news, seen, visited') && Covered(nodes, edges, [cur], visited')
    ensures visited <= visited' && (if news == [] then visited' == visited else visited < visited')
  {
    hide Joined, Growing;
    news, visited' := [], visited;
    assert found + [] == found;
    for k := 0 to |adj[cur]|
      invariant Growing(nodes, edges, start, found + news, seen, visited')
      invariant visited <= visited' && (if news == [] then visited' == visited else visited < visited')
      invariant forall i :: 0 <= i < k ==> adj[cur][i] in visited'
    {
      var neighbour := adj[cur][k];
      assert neighbour in adj[cur];
      if neighbour !in visited' {
        GrowingMore(nodes, edges, start, found + news, seen, visited', cur, neighbour);
        assert (found + news) + [neighbour] == found + (news + [neighbour]);
        visited' := visited' + {neighbour};
        news := news + [neighbour];
      }
    }
  }

  lemma {:induction false} FewerLeft(all: set<Id>, a: set<Id>, b: set<Id>)
    requires a < b <= all
    ensures |all - b| < |all - a|
  {
    var x :| x in b && x !in a;
    assert all - b <= (all - a) - {x};
    SubsetSize(all - b, (all - a) - {x});
  }

  /** Breadth first from a node that was not visited. */
  method Search(ghost nodes: seq<Id>, ghost edges: seq<Edge>, adj: map<Id, seq<Id>>, start: Id, seen: set<Id>)
    returns (part: seq<Id>, visited: set<Id>)
    requires AdjacencyOf(adj, nodes, edges) && start in nodes && start !in seen
    requires Closed(nodes, edges, seen) && seen <= (set n | n in nodes)
    ensures IsPart(nodes, edges, part) && part[0] == start
    ensures visited == seen + (set y | y in part) && seen !! (set y | y in part)
    ensures Closed(nodes, edges, visited) && visited <= (set n | n in nodes)
  {
    hide Joined, AdjacencyOf, Growing, Covered, IsPart, Closed;
    part := [];
    var queue := [start];
    visited := seen + {start};
    GrowingStarts(nodes, edges, start, seen);
    NothingCovered(nodes, edges, visited);
    assert part + queue == [start];
    while queue != []
      invariant Growing(nodes, edges, start, part + queue, seen, visited) && Covered(nodes, edges, part, visited)
      decreases |(set n | n in nodes) - visited|, |queue|
    {
      var cur := queue[0];
      assert queue == [cur] + queue[1..];
      queue := queue[1..];
      ghost var found, before := part + ([cur] + queue), visited;
      InGraph(nodes, edges, adj, start, found, seen, visited, cur);
      var news, visited' := Expand(nodes, edges, adj, start, cur, found, seen, visited);
      CoveredMore(nodes, edges, part, cur, visited, visited');
      if news != [] {
        GrowingInside(nodes, edges, start, found + news, seen, visited');
        FewerLeft((set n | n in nodes), visited, visited');
      }
      assert found + news == (part + [cur]) + (queue + news);
      part, queue, visited := part + [cur], queue + news, visited';
    }
    assert part + queue == part;
    GrowingDone(nodes, edges, start, part, seen, visited);
    GrowingInside(nodes, edges, start, part, seen, visited);
  }

  lemma {:induction false} NothingCovered(nodes: seq<Id>, edges: seq<Edge>, visited: set<Id>)
    ensures Covered(nodes, edges, [], visited)
  {}

  lemma {:induction false} CoveredMore(nodes: seq<Id>, edges: seq<Edge>, part: seq<Id>, cur: Id, visited: set<Id>, visited': set<Id>)
    requires Covered(nodes, edges, part, visited) && visited <= visited' && Covered(nodes, edges, [cur], visited')
    ensures Covered(nodes, edges, part + [cur], visited')
  {
    hide Joined;
  }

  lemma {:induction false} InGraph(nodes: seq<Id>, edges: seq<Edge>, adj: map<Id, seq<Id>>, start: Id, found: seq<Id>,
                                   seen: set<Id>, visited: set<Id>, cur: Id)
    requires AdjacencyOf(adj, nodes, edges) && Growing(nodes, edges, start, found, seen, visited) && cur in found
    ensures cur in adj
  {
    hide Joined;
  }

  lemma {:induction false} GrowingInside(nodes: seq<Id>, edges: seq<Edge>, start: Id, found: seq<Id>, seen: set<Id>, visited: set<Id>)
    requires Growing(nodes, edges, start, found, seen, visited)
    ensures visited == seen + (set y | y in found) && visited <= (set n | n in nodes) && found != [] && found[0] == start
  {}

  // ---- the partition ----------------------------------------------------------------------------------

  function Within(edges: seq<Edge>, part: seq<Id>): seq<Edge> {
    if edges == [] then []
    else (if edges[0].source in part && edges[0].target in part then [edges[0]] else []) + Within(edges[1..], part)
  }

  method FilterEdges(edges: seq<Edge>, part: seq<Id>) returns (kept: seq<Edge>)
    ensures kept == Within(edges, part)
  {
    kept := [];
    var ids := set y | y in part;
    for k := 0 to |edges|
      invariant kept + Within(edges[k..], part) == Within(edges, part)
    {
      assert edges[k..][1..] == edges[k + 1..];
      if edges[k].source in ids && edges[k].target in ids { kept := kept + [edges[k]]; }
    }
  }

  predicate InSome(comps: seq<Component>, y: Id) { exists c :: 0 <= c < |comps| && y in comps[c].nodes }

  /** The parts found so far, and the nodes in them. */
  ghost predicate Partition(nodes: seq<Id>, edges: seq<Edge>, comps: seq<Component>, visited: set<Id>) {
    && (forall c :: 0 <= c < |comps| ==> IsPart(nodes, edges, comps[c].nodes) && comps[c].edges == Within(edges, comps[c].nodes))
    && (forall c, d, y :: 0 <= c < d < |comps| && y in comps[c].nodes ==> y !in comps[d].nodes)
    && (forall y :: y in visited <==> InSome(comps, y))
  }

  lemma {:induction false} PartitionMore(nodes: seq<Id>, edges: seq<Edge>, comps: seq<Component>, visited: set<Id>, comp: Component,
                                         visited': set<Id>)
    requires Partition(nodes, edges, comps, visited)
    requires IsPart(nodes, edges, comp.nodes) && comp.edges == Within(edges, comp.nodes)
    requires visited' == visited + (set y | y in comp.nodes) && visited !! (set y | y in comp.nodes)
    ensures Partition(nodes, edges, comps + [comp], visited')
  {
    hide IsPart, Within;
    var more := comps + [comp];
    forall c, d, y | 0 <= c < d < |more| && y in more[c].nodes ensures y !in more[d].nodes {
      if d == |comps| { assert y in visited; }
    }
    forall y ensures y in visited' <==> InSome(more, y) {
      if InSome(comps, y) {
        var c :| 0 <= c < |comps| && y in comps[c].nodes;
        assert y in more[c].nodes;
      }
      if y in comp.nodes { assert y in more[|comps|].nodes; }
      if InSome(more, y) {
        var c :| 0 <= c < |more| && y in more[c].nodes;
        if c < |comps| { assert y in comps[c].nodes; }
      }
    }
  }

  method PartitionComponents(nodes: seq<Id>, edges: seq<Edge>) returns (comps: seq<Component>)
    ensures Partition(nodes, edges, comps, (set n | n in nodes))
  {
    hide Joined, AdjacencyOf, IsPart, Closed, Partition, Within;
    var adj := Adjacency(nodes, edges);
    AdjacencyIs(adj, nodes, edges);
    comps := [];
    var visited: set<Id> := {};
    EmptyPartition(nodes, edges);
    for k := 0 to |nodes|
      invariant Partition(nodes, edges, comps, visited)
      invariant Closed(nodes, edges, visited) && visited <= (set n | n in nodes)
      invariant forall i :: 0 <= i < k ==> nodes[i] in visited
    {
      if nodes[k] in visited { continue; }
      var part, visited' := Search(nodes, edges, adj, nodes[k], visited);
      StartIn(nodes, edges, part);
      var kept := FilterEdges(edges, part);
      PartitionMore(nodes, edges, comps, visited, Component(part, kept), visited');
      comps := comps + [Component(part, kept)];
      visited := visited';
    }
    assert visited == (set n | n in nodes);
  }

  lemma {:induction false} StartIn(nodes: seq<Id>, edges: seq<Edge>, part: seq<Id>)
    requires IsPart(nodes, edges, part)
    ensures part[0] in part
  {}

  lemma {:induction false} EmptyPartition(nodes: seq<Id>, edges: seq<Edge>)
    ensures Partition(nodes, edges, [], {}) && Closed(nodes, edges, {})
  {}

  lemma {:induction false} AdjacencyIs(adj: map<Id, seq<Id>>, nodes: seq<Id>, edges: seq<Edge>)
    requires adj.Keys == (set n | n in nodes) && forall x, y :: x in adj ==> (y in adj[x] <==> Joined(nodes, edges, x, y))
    ensures AdjacencyOf(adj, nodes, edges)
  {}

  // ---- what the partition means ------------------------------------------------------------------------

  /** Two nodes share a component exactly when an undirected path joins them. */
  lemma {:induction false} SharedExactlyIfConnected(nodes: seq<Id>, edges: seq<Edge>, comps: seq<Component>, x: Id, y: Id)
    requires Partition(nodes, edges, comps, (set n | n in nodes)) && x in nodes
    ensures (exists c :: 0 <= c < |comps| && x in comps[c].nodes && y in comps[c].nodes) <==> Connected(nodes, edges, x, y)
  {
    hide Joined, Connected, Within;
    assert InSome(comps, x);
    var c :| 0 <= c < |comps| && x in comps[c].nodes;
    var root := comps[c].nodes[0];
    assert IsPart(nodes, edges, comps[c].nodes) && Connected(nodes, edges, root, x);
    ConnectedBack(nodes, edges, root, x);
    if Connected(nodes, edges, x, y) {
      ConnectedThrough(nodes, edges, root, x, y);
      assert y in comps[c].nodes;
    }
    if d :| 0 <= d < |comps| && x in comps[d].nodes && y in comps[d].nodes {
      assert c == d;
      ConnectedThrough(nodes, edges, x, root, y);
    }
  }

  lemma {:induction false} ConnectedThrough(nodes: seq<Id>, edges: seq<Edge>, x: Id, y: Id, z: Id)
    requires Connected(nodes, edges, x, y) && Connected(nodes, edges, y, z)
    ensures Connected(nodes, edges, x, z)
  {
    hide Joined;
    var p: seq<Id> :| IsPath(nodes, edges, p) && p[0] == x && p[|p| - 1] == y;
    var q: seq<Id> :| IsPath(nodes, edges, q) && q[0] == y && q[|q| - 1] == z;
    var r := p + q[1..];
    forall k | 0 <= k < |r| - 1 ensures Joined(nodes, edges, r[k], r[k + 1]) {
      if k < |p| - 1 { assert r[k] == p[k] && r[k + 1] == p[k + 1]; }
      else { assert r[k] == q[k - |p| + 1] && r[k + 1] == q[k - |p| + 2]; }
    }
    assert IsPath(nodes, edges, r);
  }

  lemma {:induction false} ConnectedBack(nodes: seq<Id>, edges: seq<Edge>, x: Id, y: Id)
    requires Connected(nodes, edges, x, y)
    ensures Connected(nodes, edges, y, x)
  {
    hide Joined;
    var p: seq<Id> :| IsPath(nodes, edges, p) && p[0] == x && p[|p| - 1] == y;
    var r := seq(|p|, k requires 0 <= k < |p| => p[|p| - 1 - k]);
    PathInside(nodes, edges, p);
    forall k | 0 <= k < |r| - 1 ensures Joined(nodes, edges, r[k], r[k + 1]) {
      assert Joined(nodes, edges, p[|p| - 2 - k], p[|p| - 2 - k + 1]);
      JoinedSymmetric(nodes, edges, p[|p| - 2 - k], p[|p| - 1 - k]);
    }
    assert IsPath(nodes, edges, r);
  }

  lemma {:induction false} PathInside(nodes: seq<Id>, edges: seq<Edge>, p: seq<Id>)
    requires IsPath(nodes, edges, p)
    ensures p[|p| - 1] in nodes
  {
    hide Joined;
    if |p| > 1 {
      assert Joined(nodes, edges, p[|p| - 2], p[|p| - 2 + 1]);
      JoinedSymmetric(nodes, edges, p[|p| - 2], p[|p| - 1]);
    }
  }

  function Times(e: Edge, edges: seq<Edge>): nat {
    if edges == [] then 0 else (if edges[0] == e then 1 else 0) + Times(e, edges[1..])
  }

  lemma {:induction false} TimesWithin(e: Edge, edges: seq<Edge>, part: seq<Id>)
    ensures Times(e, Within(edges, part)) == if e.source in part && e.target in part then Times(e, edges) else 0
  {
    if edges != [] {
      TimesWithin(e, edges[1..], part);
      var rest := Within(edges[1..], part);
      if edges[0].source in part && edges[0].target in part {
        assert Within(edges, part) == [edges[0]] + rest && ([edges[0]] + rest)[1..] == rest;
      } else {
        assert Within(edges, part) == [] + rest == rest;
      }
    }
  }

  predicate OnlyIn(comps: seq<Component>, e: Edge, c: nat) {
    forall d :: 0 <= d < |comps| && d != c ==> Times(e, comps[d].edges) == 0
  }

  /** Every known edge is in exactly one component, as often as in the graph; others are in none. */
  lemma {:induction false} EdgesLandOnce(nodes: seq<Id>, edges: seq<Edge>, comps: seq<Component>, e: Edge)
    requires Partition(nodes, edges, comps, (set n | n in nodes)) && e in edges
    ensures Known(nodes, e) ==> exists c :: 0 <= c < |comps| && OnlyIn(comps, e, c) && Times(e, comps[c].edges) == Times(e, edges)
    ensures !Known(nodes, e) ==> forall c :: 0 <= c < |comps| ==> Times(e, comps[c].edges) == 0
  {
    hide Joined, Connected, Within, Times;
    forall c | 0 <= c < |comps| ensures Times(e, comps[c].edges)
                                        == if e.source in comps[c].nodes && e.target in comps[c].nodes then Times(e, edges) else 0 {
      assert comps[c].edges == Within(edges, comps[c].nodes);
      TimesWithin(e, edges, comps[c].nodes);
    }
    if Known(nodes, e) {
      JoinedByEdge(nodes, edges, e);
      ConnectedSelf(nodes, edges, e.source);
      ConnectedMore(nodes, edges, e.source, e.source, e.target);
      SharedExactlyIfConnected(nodes, edges, comps, e.source, e.target);
      var c :| 0 <= c < |comps| && e.source in comps[c].nodes && e.target in comps[c].nodes;
      forall d | 0 <= d < |comps| && d != c ensures Times(e, comps[d].edges) == 0 {
        assert e.source !in comps[d].nodes;
      }
    } else {
      forall c | 0 <= c < |comps| ensures Times(e, comps[c].edges) == 0 {
        if e.source in comps[c].nodes { NodesAreKnown(nodes, edges, comps, c, e.source); }
        if e.target in comps[c].nodes { NodesAreKnown(nodes, edges, comps, c, e.target); }
      }
    }
  }

  lemma {:induction false} JoinedByEdge(nodes: seq<Id>, edges: seq<Edge>, e: Edge)
    requires e in edges && Known(nodes, e)
    ensures Joined(nodes, edges, e.source, e.target)
  {
    var k :| 0 <= k < |edges| && edges[k] == e;
    assert Known(nodes, edges[k]);
  }

  lemma {:induction false} NodesAreKnown(nodes: seq<Id>, edges: seq<Edge>, comps: seq<Component>, c: nat, y: Id)
    requires Partition(nodes, edges, comps, (set n | n in nodes)) && c < |comps| && y in comps[c].nodes
    ensures y in nodes
  {
    hide IsPart, Within;
    assert InSome(comps, y);
  }
}
