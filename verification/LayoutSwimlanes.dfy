/** One lane per component, side by side. The layout engine's answer per component is arbitrary. */
module LayoutSwimlanes {
  import opened Basics
  import opened LayoutComponents

  datatype Point = Point(x: real, y: real)

  /** Centres of the nodes the engine placed, and the points of the edges it routed. */
  datatype Layout = Layout(centres: map<Id, Point>, points: seq<Point>)

  const NODE_WIDTH: real := 260.0
  const NODE_HEIGHT: real := 68.0
  const BRANCH_WIDTH: real := 270.0
  const FUNCTION_GAP: real := 160.0

  function WidthOf(branches: set<Id>, id: Id): real { if id in branches then BRANCH_WIDTH else NODE_WIDTH }

  /** Left, right and top of something drawn. */
  datatype Extent = Extent(left: real, right: real, top: real)

  function NodeExtent(branches: set<Id>, id: Id, c: Point): Extent {
    Extent(c.x - WidthOf(branches, id) / 2.0, c.x + WidthOf(branches, id) / 2.0, c.y - NODE_HEIGHT / 2.0)
  }

  function Min(a: real, b: real): real { if a < b then a else b }
  function Max(a: real, b: real): real { if a > b then a else b }

  function Join(a: Option<Extent>, b: Extent): Option<Extent> {
    if a.None? then Some(b) else Some(Extent(Min(a.value.left, b.left), Max(a.value.right, b.right), Min(a.value.top, b.top)))
  }

  /** What a component draws: its placed nodes, then its edges' points. */
  function Drawn(nodes: seq<Id>, branches: set<Id>, l: Layout): seq<Extent> {
    DrawnNodes(nodes, branches, l) + DrawnPoints(l.points)
  }

  function DrawnNodes(nodes: seq<Id>, branches: set<Id>, l: Layout): seq<Extent> {
    if nodes == [] then []
    else DrawnNodes(nodes[..|nodes| - 1], branches, l) +
         (var id := nodes[|nodes| - 1]; if id in l.centres then [NodeExtent(branches, id, l.centres[id])] else [])
  }

  function DrawnPoints(points: seq<Point>): seq<Extent> {
    if points == [] then []
    else DrawnPoints(points[..|points| - 1]) + [Extent(points[|points| - 1].x, points[|points| - 1].x, points[|points| - 1].y)]
  }

  /** The least box around all of them. */
  function Bound(es: seq<Extent>): Option<Extent> {
    if es == [] then None else Join(Bound(es[..|es| - 1]), es[|es| - 1])
  }

  /** An empty component gets an empty node's width. */
  function Box(nodes: seq<Id>, branches: set<Id>, l: Layout): Extent {
    var b := Bound(Drawn(nodes, branches, l));
    if b.None? then Extent(0.0, NODE_WIDTH, 0.0) else b.value
  }

  function LaneWidth(box: Extent): real { Max(box.right - box.left, NODE_WIDTH) }

  /** Where lane c begins. */
  function Offset(comps: seq<seq<Id>>, branches: set<Id>, layouts: seq<Layout>, c: nat): real
    requires c <= |comps| == |layouts|
  {
    if c == 0 then 0.0
    else Offset(comps, branches, layouts, c - 1) + LaneWidth(Box(comps[c - 1], branches, layouts[c - 1])) + FUNCTION_GAP
  }

  function Placed(offset: real, box: Extent, p: Point): Point { Point(offset + (p.x - box.left), p.y - box.top) }

  // ---- boxes -----------------------------------------------------------------------------------------

  predicate Around(box: Extent, e: Extent) { box.left <= e.left && e.right <= box.right && box.top <= e.top }

  /** The bound is around everything drawn, and each of its sides touches something. */
  lemma {:induction false} BoundIsTight(es: seq<Extent>)
    requires es != []
    ensures var b := Bound(es);
            && b.Some? && (forall k :: 0 <= k < |es| ==> Around(b.value, es[k]))
            && (exists k :: 0 <= k < |es| && es[k].left == b.value.left)
            && (exists k :: 0 <= k < |es| && es[k].right == b.value.right)
            && (exists k :: 0 <= k < |es| && es[k].top == b.value.top)
  {
    var front, last := es[..|es| - 1], es[|es| - 1];
    if front != [] {
      BoundIsTight(front);
      var f, b := Bound(front).value, Bound(es).value;
      forall k | 0 <= k < |es| ensures Around(b, es[k]) { if k < |front| { assert Around(f, front[k]); } }
      var x :| 0 <= x < |front| && front[x].left == f.left;
      var y :| 0 <= y < |front| && front[y].right == f.right;
      var z :| 0 <= z < |front| && front[z].top == f.top;
      assert es[x].left == f.left && es[y].right == f.right && es[z].top == f.top;
      assert es[|front|] == last;
    } else {
      assert es[0] == last;
    }
  }

  lemma {:induction false} NodeIsDrawn(nodes: seq<Id>, branches: set<Id>, l: Layout, id: Id)
    requires id in nodes && id in l.centres
    ensures NodeExtent(branches, id, l.centres[id]) in DrawnNodes(nodes, branches, l)
  {
    if nodes[|nodes| - 1] != id { NodeIsDrawn(nodes[..|nodes| - 1], branches, l, id); }
  }

  lemma {:induction false} PointIsDrawn(points: seq<Point>, p: Point)
    requires p in points
    ensures Extent(p.x, p.x, p.y) in DrawnPoints(points)
  {
    if points[|points| - 1] != p { PointIsDrawn(points[..|points| - 1], p); }
  }

  lemma {:induction false} BoxAround(nodes: seq<Id>, branches: set<Id>, l: Layout, e: Extent)
    requires e in Drawn(nodes, branches, l)
    ensures Around(Box(nodes, branches, l), e)
  {
    BoundIsTight(Drawn(nodes, branches, l));
  }

  // ---- lanes ------------------------------------------------------------------------------------------

  lemma {:induction false} OffsetsGrow(comps: seq<seq<Id>>, branches: set<Id>, layouts: seq<Layout>, c: nat, d: nat)
    requires c < d <= |comps| == |layouts|
    ensures Offset(comps, branches, layouts, c) + LaneWidth(Box(comps[c], branches, layouts[c])) + FUNCTION_GAP
            <= Offset(comps, branches, layouts, d)
    decreases d
  {
    if c < d - 1 { OffsetsGrow(comps, branches, layouts, c, d - 1); }
  }

  /** A drawn thing, moved into its lane, stays between the lane's sides and below the top. */
  lemma {:induction false} StaysInLane(comps: seq<seq<Id>>, branches: set<Id>, layouts: seq<Layout>, c: nat, e: Extent)
    requires c < |comps| == |layouts| && e in Drawn(comps[c], branches, layouts[c])
    ensures var off, box := Offset(comps, branches, layouts, c), Box(comps[c], branches, layouts[c]);
            off <= off + (e.left - box.left) && off + (e.right - box.left) <= off + LaneWidth(box) && 0.0 <= e.top - box.top
  {
    BoxAround(comps[c], branches, layouts[c], e);
  }

  /** Whatever the engine answers, nodes of different components are at least the gap apart. */
  lemma {:induction false} LanesApart(comps: seq<seq<Id>>, branches: set<Id>, layouts: seq<Layout>, c: nat, d: nat, a: Id, b: Id)
    requires c < d < |comps| == |layouts|
    requires a in comps[c] && a in layouts[c].centres && b in comps[d] && b in layouts[d].centres
    ensures var boxA, boxB := Box(comps[c], branches, layouts[c]), Box(comps[d], branches, layouts[d]);
            var posA := Placed(Offset(comps, branches, layouts, c), boxA, layouts[c].centres[a]);
            var posB := Placed(Offset(comps, branches, layouts, d), boxB, layouts[d].centres[b]);
            posA.x + WidthOf(branches, a) / 2.0 + FUNCTION_GAP <= posB.x - WidthOf(branches, b) / 2.0
  {
    hide Box, Offset;
    NodeIsDrawn(comps[c], branches, layouts[c], a);
    NodeIsDrawn(comps[d], branches, layouts[d], b);
    StaysInLane(comps, branches, layouts, c, NodeExtent(branches, a, layouts[c].centres[a]));
    StaysInLane(comps, branches, layouts, d, NodeExtent(branches, b, layouts[d].centres[b]));
    OffsetsGrow(comps, branches, layouts, c, d);
  }

  // ---- as the program does it -----------------------------------------------------------------------------

  /** Running bounds over the nodes and then the points. */
  method BoundingBox(nodes: seq<Id>, branches: set<Id>, l: Layout) returns (box: Extent)
    ensures box == Box(nodes, branches, l)
  {
    var b: Option<Extent> := None;
    for k := 0 to |nodes|
      invariant b == Bound(DrawnNodes(nodes[..k], branches, l))
    {
      assert nodes[..k + 1][..k] == nodes[..k];
      if nodes[k] in l.centres {
        var e := NodeExtent(branches, nodes[k], l.centres[nodes[k]]);
        BoundMore(DrawnNodes(nodes[..k], branches, l), e);
        b := Join(b, e);
      } else {
        assert DrawnNodes(nodes[..k], branches, l) + [] == DrawnNodes(nodes[..k], branches, l);
      }
    }
    assert nodes[..|nodes|] == nodes;
    ghost var drawn := DrawnNodes(nodes, branches, l);
    assert drawn + DrawnPoints(l.points[..0]) == drawn;
    for k := 0 to |l.points|
      invariant b == Bound(drawn + DrawnPoints(l.points[..k]))
    {
      assert l.points[..k + 1][..k] == l.points[..k];
      var e := Extent(l.points[k].x, l.points[k].x, l.points[k].y);
      BoundMore(drawn + DrawnPoints(l.points[..k]), e);
      assert drawn + (DrawnPoints(l.points[..k]) + [e]) == (drawn + DrawnPoints(l.points[..k])) + [e];
      b := Join(b, e);
    }
    assert l.points[..|l.points|] == l.points;
    box := if b.None? then Extent(0.0, NODE_WIDTH, 0.0) else b.value;
  }

  lemma {:induction false} BoundMore(es: seq<Extent>, e: Extent)
    ensures Bound(es + [e]) == Join(Bound(es), e)
  {
    assert (es + [e])[..|es|] == es;
  }

  /** Every placed node of every component, once, moved into its component's lane. */
  ghost predicate InLanes(comps: seq<seq<Id>>, branches: set<Id>, layouts: seq<Layout>, positions: map<Id, Point>, n: nat)
    requires n <= |comps| == |layouts|
  {
    forall c, id :: 0 <= c < n && id in comps[c] && id in layouts[c].centres ==>
      id in positions
      && positions[id] == Placed(Offset(comps, branches, layouts, c), Box(comps[c], branches, layouts[c]), layouts[c].centres[id])
  }

  method PlaceLane(nodes: seq<Id>, l: Layout, offset: real, box: Extent, before: map<Id, Point>) returns (positions: map<Id, Point>)
    ensures forall id :: id in nodes && id in l.centres ==> id in positions && positions[id] == Placed(offset, box, l.centres[id])
    ensures forall id :: id in before && id !in nodes ==> id in positions && positions[id] == before[id]
    ensures forall id :: id in positions ==> id in before || (id in nodes && id in l.centres)
  {
    positions := before;
    for k := 0 to |nodes|
      invariant forall i :: 0 <= i < k && nodes[i] in l.centres ==>
                  nodes[i] in positions && positions[nodes[i]] == Placed(offset, box, l.centres[nodes[i]])
      invariant forall id :: id in before && id !in nodes ==> id in positions && positions[id] == before[id]
      invariant forall id :: id in positions ==> id in before || (id in nodes && id in l.centres)
    {
      if nodes[k] in l.centres {
        positions := positions[nodes[k] := Placed(offset, box, l.centres[nodes[k]])];
      }
    }
  }

  /** A component's way-points, moved like its nodes. */
  method MovePoints(points: seq<Point>, offset: real, box: Extent) returns (moved: seq<Point>)
    ensures |moved| == |points| && forall k :: 0 <= k < |points| ==> moved[k] == Placed(offset, box, points[k])
  {
    moved := [];
    for k := 0 to |points|
      invariant |moved| == k && forall i :: 0 <= i < k ==> moved[i] == Placed(offset, box, points[i])
    {
      moved := moved + [Placed(offset, box, points[k])];
    }
  }

  /** The way-points of every component's edges, moved into its lane. */
  ghost predicate RoutedInLanes(comps: seq<seq<Id>>, branches: set<Id>, layouts: seq<Layout>, routes: seq<seq<Point>>)
    requires |routes| <= |comps| == |layouts|
  {
    forall c :: 0 <= c < |routes| ==> |routes[c]| == |layouts[c].points| && forall k :: 0 <= k < |routes[c]| ==>
      routes[c][k] == Placed(Offset(comps, branches, layouts, c), Box(comps[c], branches, layouts[c]), layouts[c].points[k])
  }

  method RunLayout(comps: seq<seq<Id>>, branches: set<Id>, layouts: seq<Layout>)
    returns (positions: map<Id, Point>, routes: seq<seq<Point>>)
    requires |comps| == |layouts| && forall c, d, y :: 0 <= c < d < |comps| && y in comps[c] ==> y !in comps[d]
    ensures InLanes(comps, branches, layouts, positions, |comps|)
    ensures forall id :: id in positions ==> exists c :: 0 <= c < |comps| && id in comps[c] && id in layouts[c].centres
    ensures |routes| == |comps| && RoutedInLanes(comps, branches, layouts, routes)
  {
    hide Box, Placed, LaneWidth;
    positions, routes := map[], [];
    var currentXOffset := 0.0;
    for c := 0 to |comps|
      invariant currentXOffset == Offset(comps, branches, layouts, c)
      invariant InLanes(comps, branches, layouts, positions, c)
      invariant forall id :: id in positions ==> exists b :: 0 <= b < c && id in comps[b] && id in layouts[b].centres
      invariant |routes| == c && RoutedInLanes(comps, branches, layouts, routes)
    {
      var box := BoundingBox(comps[c], branches, layouts[c]);
      positions := PlaceLane(comps[c], layouts[c], currentXOffset, box, positions);
      var moved := MovePoints(layouts[c].points, currentXOffset, box);
      routes := routes + [moved];
      currentXOffset := currentXOffset + LaneWidth(box) + FUNCTION_GAP;
    }
  }
}
