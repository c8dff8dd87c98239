/** The builder as it runs: the open line node is kept apart until something ends it. */
module DynamicCfgBuilder {
  import opened Basics
  import opened DynamicCfg

  class Builder {
    var nodes: seq<Node>
    var edges: seq<Edge>
    var counter: nat
    var currentLineNode: Option<Node>
    var currentFunc: string
    var prevNodeId: Option<nat>
    var loopNodes: map<LoopKey, nat>
    var currentLoopId: Option<nat>
    var activeFuncs: map<string, nat>

    /** The graph so far: finished nodes, and the open one with the edge it will get. */
    ghost function Nodes(): seq<Node>
      reads this
    {
      if currentLineNode.Some? then nodes + [currentLineNode.value] else nodes
    }

    ghost function Edges(): seq<Edge>
      reads this
    {
      if currentLineNode.Some? && nodes != [] then edges + [Edge(|nodes|, |nodes| + 1, "")] else edges
    }

    ghost predicate Is(g: Graph)
      reads this
    {
      && Nodes() == g.nodes && Edges() == g.edges && currentLineNode.Some? == g.isOpen && counter == |g.nodes|
      && (forall k :: 0 <= k < |g.nodes| ==> g.nodes[k].id == k + 1)
      && prevNodeId == (if nodes == [] then None else Some(|nodes|))
      && currentFunc == g.func && activeFuncs == g.active
      && loopNodes.Keys == g.loops.Keys && (forall key :: key in loopNodes ==> loopNodes[key] == g.loops[key] + 1 <= |nodes|)
      && (if g.loop.Some? then currentLoopId == Some(g.loop.value + 1) && g.loop.value < |nodes| else currentLoopId.None?)
      && (currentLineNode.Some? ==> currentLineNode.value.kind.Line? && currentLineNode.value.lines != [])
    }

    constructor ()
      ensures Is(EMPTY)
    {
      nodes, edges, counter, currentLineNode := [], [], 0, None;
      currentFunc, prevNodeId, loopNodes, currentLoopId, activeFuncs := "", None, map[], None, map[];
    }

    method NewId() returns (id: nat)
      modifies `counter
      ensures id == counter == old(counter) + 1
    {
      counter := counter + 1;
      id := counter;
    }

    /** End the open run of states. */
    method FlushLineNode(ghost g: Graph)
      requires Is(g)
      modifies `nodes, `edges, `prevNodeId, `currentLineNode
      ensures Is(g.(isOpen := false)) && currentLineNode.None?
    {
      if currentLineNode.Some? {
        var node := currentLineNode.value;
        assert node == g.nodes[|nodes|];
        if prevNodeId.Some? { edges := edges + [Edge(prevNodeId.value, node.id, "")]; }
        nodes := nodes + [node];
        prevNodeId := Some(node.id);
        currentLineNode := None;
      }
    }

    /** The place of the node with this id. */
    method FindNode(id: nat) returns (k: nat)
      requires 0 < id <= |nodes| && forall j :: 0 <= j < |nodes| ==> nodes[j].id == j + 1
      ensures k == id - 1
    {
      k := 0;
      while nodes[k].id != id
        invariant k < id
      {
        k := k + 1;
      }
    }

    method AddToCurrentLoop(id: nat)
      requires currentLoopId.Some? ==> 0 < currentLoopId.value <= |nodes|
      requires forall j :: 0 <= j < |nodes| ==> nodes[j].id == j + 1
      modifies `nodes
      ensures nodes == WithChild(old(nodes), if currentLoopId.Some? then Some(currentLoopId.value - 1) else None, id)
    {
      if currentLoopId.Some? {
        var k := FindNode(currentLoopId.value);
        nodes := nodes[k := nodes[k].(children := nodes[k].children + [id])];
      }
    }

    /** Add a finished node and the edge that leads to it. */
    method AddNode(node: Node, tag: string)
      requires prevNodeId == if nodes == [] then None else Some(|nodes|)
      modifies `nodes, `edges, `prevNodeId
      ensures nodes == old(nodes) + [node] && prevNodeId == Some(node.id)
      ensures edges == if old(nodes) == [] then old(edges) else old(edges) + [Edge(|old(nodes)|, node.id, tag)]
    {
      if prevNodeId.Some? { edges := edges + [Edge(prevNodeId.value, node.id, tag)]; }
      nodes := nodes + [node];
      prevNodeId := Some(node.id);
    }

    /** Ready for an event that starts a node: no line node is open. */
    ghost predicate Closed(g: Graph)
      reads this
    {
      Is(g) && currentLineNode.None?
    }

    method AddEnter(e: Event, i: nat, ghost g: Graph)
      requires Closed(g) && e.Enter?
      modifies this
      ensures Is(Step(g, e, i))
    {
      hide Step;
      EnterStep(g, e, i);
      var n := if e.func in activeFuncs then activeFuncs[e.func] else 0;
      activeFuncs := activeFuncs[e.func := n + 1];
      var id := NewId();
      AddNode(Node(if n > 0 then FuncCall else FuncStart, id, [e.line], [i], []), "");
      currentFunc := e.func;
    }

    method AddExit(e: Event, i: nat, ghost g: Graph)
      requires Closed(g) && e.Exit?
      modifies this
      ensures Is(Step(g, e, i))
    {
      hide Step;
      ExitStep(g, e, i);
      currentLoopId := None;
      if e.func in activeFuncs && activeFuncs[e.func] > 0 { activeFuncs := activeFuncs[e.func := activeFuncs[e.func] - 1]; }
      var id := NewId();
      AddNode(Node(FuncEnd, id, [e.line], [i], []), "");
    }

    /** A line node of its own for a state. */
    method StartLine(e: Event, i: nat, ghost g: Graph)
      requires Closed(g) && e.State?
      modifies this
      ensures Is(Step(g, e, i))
    {
      hide Step;
      StateStep(g, e, i);
      var id := NewId();
      currentLineNode := Some(Node(Line, id, [e.line], [i], []));
      AddToCurrentLoop(id);
      currentFunc := e.func;
    }

    method AddBranch(e: Event, i: nat, ghost g: Graph)
      requires Closed(g) && e.Branch?
      modifies this
      ensures Is(Step(g, e, i))
    {
      hide Step;
      BranchStep(g, e, i);
      var id := NewId();
      AddToCurrentLoop(id);
      AddNode(Node(BranchNode, id, [e.line], [i], []), if e.taken then "true" else "false");
    }

    method AddLoop(e: Event, i: nat, ghost g: Graph)
      requires Closed(g) && e.Iter? && (e.func, e.line) !in loopNodes
      modifies this
      ensures Is(Step(g, e, i))
    {
      hide Step;
      NewIterStep(g, e, i);
      var id := NewId();
      AddNode(Node(Loop, id, [e.line], [i], []), "");
      loopNodes := loopNodes[(e.func, e.line) := id];
      currentLoopId := Some(id);
    }

    method CountIteration(e: Event, i: nat, ghost g: Graph)
      requires Closed(g) && e.Iter? && (e.func, e.line) in loopNodes
      modifies this
      ensures Is(Step(g, e, i))
    {
      hide Step;
      OldIterStep(g, e, i);
      var k := FindNode(loopNodes[(e.func, e.line)]);
      nodes := nodes[k := Again(nodes[k], i)];
    }

    /** A state next to the open node's last line joins it. */
    method JoinLine(e: Event, i: nat, ghost g: Graph)
      requires Is(g) && Joins(g, e) && currentLineNode.Some?
      modifies `currentLineNode, `currentFunc
      ensures Is(Step(g, e, i))
    {
      hide Started, Near;
      currentLineNode := Some(Extended(currentLineNode.value, e, i));
      currentFunc := e.func;
    }

    method HandleState(e: Event, i: nat, ghost g: Graph)
      requires Is(g) && e.State?
      modifies this
      ensures Is(Step(g, e, i))
    {
      hide Started, Near, Step;
      if currentLineNode.None? {
        StartLine(e, i, g);
      } else {
        var node := currentLineNode.value;
        assert node == g.nodes[|nodes|];
        if e.func == currentFunc && Near(e.line, node.lines[|node.lines| - 1]) {
          JoinLine(e, i, g);
        } else {
          FlushLineNode(g);
          ClosedStep(g, e, i);
          StartLine(e, i, g.(isOpen := false));
        }
      }
    }

    method HandleIter(e: Event, i: nat, ghost g: Graph)
      requires Closed(g) && e.Iter?
      modifies this
      ensures Is(Step(g, e, i))
    {
      hide Step, Is;
      if (e.func, e.line) !in loopNodes { AddLoop(e, i, g); } else { CountIteration(e, i, g); }
    }

    method Handle(e: Event, i: nat, ghost g: Graph)
      requires Is(g)
      modifies this
      ensures Is(Step(g, e, i))
    {
      hide Step, Started, Joins, Is;
      if e.State? {
        HandleState(e, i, g);
        return;
      }
      FlushLineNode(g);
      NotJoined(g, e);
      ClosedStep(g, e, i);
      ghost var closed := g.(isOpen := false);
      match e
      case Enter(_, _) => AddEnter(e, i, closed);
      case Exit(_, _) => AddExit(e, i, closed);
      case Branch(_, _, _) => AddBranch(e, i, closed);
      case Iter(_, _) => HandleIter(e, i, closed);
    }
  }

  // ---- a step from a closed graph ------------------------------------------------------------------------

  lemma {:induction false} NotJoined(g: Graph, e: Event)
    requires !e.State?
    ensures !Joins(g, e)
  {}

  lemma {:induction false} ClosedStep(g: Graph, e: Event, i: nat)
    requires !Joins(g, e)
    ensures Step(g.(isOpen := false), e, i) == Step(g, e, i)
  {
    hide ActiveAfter, WithChild;
  }

  function Linked(g: Graph, tag: string): seq<Edge> {
    if g.nodes == [] then g.edges else g.edges + [Edge(|g.nodes|, |g.nodes| + 1, tag)]
  }

  lemma {:induction false} EnterStep(g: Graph, e: Event, i: nat)
    requires e.Enter?
    ensures var n := if e.func in g.active then g.active[e.func] else 0;
            Step(g, e, i) == g.(nodes := g.nodes + [Node(if n > 0 then FuncCall else FuncStart, |g.nodes| + 1, [e.line], [i], [])],
                                edges := Linked(g, ""), isOpen := false, func := e.func, active := g.active[e.func := n + 1])
  {}

  lemma {:induction false} ExitStep(g: Graph, e: Event, i: nat)
    requires e.Exit?
    ensures Step(g, e, i) == g.(nodes := g.nodes + [Node(FuncEnd, |g.nodes| + 1, [e.line], [i], [])], edges := Linked(g, ""),
                                isOpen := false, loop := None,
                                active := if e.func in g.active && g.active[e.func] > 0 then g.active[e.func := g.active[e.func] - 1]
                                          else g.active)
  {}

  lemma {:induction false} StateStep(g: Graph, e: Event, i: nat)
    requires e.State? && !g.isOpen
    ensures Step(g, e, i) == g.(nodes := WithChild(g.nodes, g.loop, |g.nodes| + 1) + [Node(Line, |g.nodes| + 1, [e.line], [i], [])],
                                edges := Linked(g, ""), isOpen := true, func := e.func)
  {}

  lemma {:induction false} BranchStep(g: Graph, e: Event, i: nat)
    requires e.Branch?
    ensures Step(g, e, i) == g.(nodes := WithChild(g.nodes, g.loop, |g.nodes| + 1) + [Node(BranchNode, |g.nodes| + 1, [e.line], [i], [])],
                                edges := Linked(g, if e.taken then "true" else "false"), isOpen := false)
  {}

  lemma {:induction false} NewIterStep(g: Graph, e: Event, i: nat)
    requires e.Iter? && (e.func, e.line) !in g.loops
    ensures Step(g, e, i) == g.(nodes := g.nodes + [Node(Loop, |g.nodes| + 1, [e.line], [i], [])], edges := Linked(g, ""),
                                isOpen := false, loops := g.loops[(e.func, e.line) := |g.nodes|], loop := Some(|g.nodes|))
  {}

  lemma {:induction false} OldIterStep(g: Graph, e: Event, i: nat)
    requires e.Iter? && (e.func, e.line) in g.loops && g.loops[(e.func, e.line)] < |g.nodes|
    ensures var k := g.loops[(e.func, e.line)];
            Step(g, e, i) == g.(nodes := g.nodes[k := Again(g.nodes[k], i)], isOpen := false)
  {}

  method Build(events: seq<Event>) returns (nodes: seq<Node>, edges: seq<Edge>)
    ensures nodes == Built(events, |events|).nodes && edges == Built(events, |events|).edges
  {
    hide Step;
    var b := new Builder();
    for i := 0 to |events|
      invariant b.Is(Built(events, i))
    {
      b.Handle(events[i], i, Built(events, i));
    }
    b.FlushLineNode(Built(events, |events|));
    nodes, edges := b.nodes, b.edges;
  }
}
