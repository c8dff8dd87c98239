/** The graph built from a trace alone: which event goes to which node, and what that conserves. */
module DynamicCfg {
  import opened Basics

  datatype Event =
    | Enter(func: string, line: nat)
    | Exit(func: string, line: nat)
    | State(func: string, line: nat)
    | Branch(func: string, line: nat, taken: bool)
    | Iter(func: string, line: nat)

  datatype Kind = FuncStart | FuncCall | FuncEnd | Line | BranchNode | Loop

  /** Nodes are numbered from 1; indices point into the trace. */
  datatype Node = Node(kind: Kind, id: nat, lines: seq<nat>, indices: seq<nat>, children: seq<nat>)

  datatype Edge = Edge(source: nat, target: nat, tag: string)

  type LoopKey = (string, nat)

  /** The graph so far. The last node is open while a run of states may still join it. */
  datatype Graph = Graph(nodes: seq<Node>, edges: seq<Edge>, isOpen: bool, func: string, loops: map<LoopKey, nat>,
                         loop: Option<nat>, active: map<string, nat>)

  const EMPTY := Graph([], [], false, "", map[], None, map[])

  function Near(a: nat, b: nat): bool { if a < b then b - a <= 3 else a - b <= 3 }

  /** Adjacent lines of one function share a node. */
  predicate Joins(g: Graph, e: Event) {
    && e.State? && g.isOpen && g.nodes != [] && g.nodes[|g.nodes| - 1].lines != [] && e.func == g.func
    && var lines := g.nodes[|g.nodes| - 1].lines; Near(e.line, lines[|lines| - 1])
  }

  /** A loop header seen before. */
  predicate Repeats(g: Graph, e: Event) { e.Iter? && (e.func, e.line) in g.loops && g.loops[(e.func, e.line)] < |g.nodes| }

  function KindFor(g: Graph, e: Event): Kind {
    match e
    case Enter(f, _) => if f in g.active && g.active[f] > 0 then FuncCall else FuncStart
    case Exit(_, _) => FuncEnd
    case State(_, _) => Line
    case Branch(_, _, _) => BranchNode
    case Iter(_, _) => Loop
  }

  function Extended(n: Node, e: Event, i: nat): Node { n.(lines := n.lines + [e.line], indices := n.indices + [i]) }

  function Again(n: Node, i: nat): Node { n.(indices := n.indices + [i]) }

  /** States and branches are listed with the loop they are in. */
  function WithChild(nodes: seq<Node>, loop: Option<nat>, id: nat): seq<Node> {
    if loop.Some? && loop.value < |nodes| then nodes[loop.value := nodes[loop.value].(children := nodes[loop.value].children + [id])]
    else nodes
  }

  function TagFor(e: Event): string { if e.Branch? then if e.taken then "true" else "false" else "" }

  /** A new node at the end, with an edge from the one before it. */
  function Started(g: Graph, e: Event, i: nat): Graph {
    var id := |g.nodes| + 1;
    var nodes := if e.State? || e.Branch? then WithChild(g.nodes, g.loop, id) else g.nodes;
    g.(nodes := nodes + [Node(KindFor(g, e), id, [e.line], [i], [])],
       edges := if |g.nodes| > 0 then g.edges + [Edge(|g.nodes|, id, TagFor(e))] else g.edges)
  }

  function ActiveAfter(active: map<string, nat>, e: Event): map<string, nat> {
    var n := if e.func in active then active[e.func] else 0;
    if e.Enter? then active[e.func := n + 1] else if e.Exit? && n > 0 then active[e.func := n - 1] else active
  }

  function Step(g: Graph, e: Event, i: nat): Graph {
    if Joins(g, e) then
      var last := |g.nodes| - 1;
      g.(nodes := g.nodes[last := Extended(g.nodes[last], e, i)])
    else if Repeats(g, e) then
      var k := g.loops[(e.func, e.line)];
      g.(nodes := g.nodes[k := Again(g.nodes[k], i)], isOpen := false)
    else
      var s := Started(g, e, i);
      s.(isOpen := e.State?,
         func := if e.State? || e.Enter? then e.func else g.func,
         loops := if e.Iter? then g.loops[(e.func, e.line) := |g.nodes|] else g.loops,
         loop := if e.Iter? then Some(|g.nodes|) else if e.Exit? then None else g.loop,
         active := ActiveAfter(g.active, e))
  }

  function Built(events: seq<Event>, n: nat): Graph
    requires n <= |events|
  {
    if n == 0 then EMPTY else Step(Built(events, n - 1), events[n - 1], n - 1)
  }

  // ---- what holds after every event ----------------------------------------------------------------------

  predicate Ascending(s: seq<nat>) { forall a, b :: 0 <= a < b < |s| ==> s[a] < s[b] }

  predicate Contiguous(s: seq<nat>) { forall a :: 0 <= a < |s| ==> s[a] == s[0] + a }

  /** A node's own shape: numbered by place, its events of its kind, its lines theirs. */
  predicate NodeGood(events: seq<Event>, node: Node, k: nat, n: nat)
    requires n <= |events|
  {
    && node.id == k + 1 && node.indices != [] && Ascending(node.indices)
    && (forall a :: 0 <= a < |node.indices| ==> node.indices[a] < n)
    && match node.kind
       case Line =>
         Contiguous(node.indices) && |node.lines| == |node.indices|
         && forall a :: 0 <= a < |node.indices| ==> events[node.indices[a]].State? && node.lines[a] == events[node.indices[a]].line
       case Loop =>
         forall a :: 0 <= a < |node.indices| ==> var e := events[node.indices[a]]; e.Iter? && node.lines == [e.line] && e.func == events[node.indices[0]].func
       case _ =>
         |node.indices| == 1 && node.lines == [events[node.indices[0]].line]
         && !events[node.indices[0]].State? && !events[node.indices[0]].Iter?
  }

  ghost predicate NodesGood(events: seq<Event>, g: Graph, n: nat)
    requires n <= |events|
  {
    forall k :: 0 <= k < |g.nodes| ==> NodeGood(events, g.nodes[k], k, n)
  }

  predicate Has(g: Graph, k: nat, i: nat) { k < |g.nodes| && i in g.nodes[k].indices }

  predicate Placed(g: Graph, i: nat) { exists k :: 0 <= k < |g.nodes| && Has(g, k, i) }

  /** Every event so far is in exactly one node. */
  ghost predicate OnePlace(g: Graph, n: nat) {
    && (forall i :: 0 <= i < n ==> Placed(g, i))
    && forall i, k, l :: Has(g, k, i) && Has(g, l, i) ==> k == l
  }

  /** Edges join each node to the next, and no others. */
  ghost predicate Chain(g: Graph) {
    && |g.edges| == (if g.nodes == [] then 0 else |g.nodes| - 1)
    && forall k :: 0 <= k < |g.edges| ==> g.edges[k].source == k + 1 && g.edges[k].target == k + 2
  }

  ghost predicate ChildrenKnown(g: Graph) {
    forall k, c :: 0 <= k < |g.nodes| && c in g.nodes[k].children ==> k + 1 < c <= |g.nodes|
  }

  /** The open node ends with the event just seen, which is of the current function. */
  predicate OpenGood(events: seq<Event>, g: Graph, n: nat)
    requires n <= |events|
  {
    g.isOpen ==>
      && g.nodes != [] && g.nodes[|g.nodes| - 1].kind.Line? && g.nodes[|g.nodes| - 1].indices != []
      && n > 0 && g.nodes[|g.nodes| - 1].indices[|g.nodes[|g.nodes| - 1].indices| - 1] == n - 1
      && events[n - 1].State? && events[n - 1].func == g.func
  }

  ghost predicate LoopsGood(events: seq<Event>, g: Graph, n: nat)
    requires n <= |events|
  {
    && (forall key :: key in g.loops ==> g.loops[key] < |g.nodes| && g.nodes[g.loops[key]].kind.Loop?
                                         && LoopKeyOf(events, g.nodes[g.loops[key]], key))
    && (forall i :: 0 <= i < n && events[i].Iter? ==> (events[i].func, events[i].line) in g.loops
                                                      && Has(g, g.loops[(events[i].func, events[i].line)], i))
    && (g.loop.Some? ==> g.loop.value < |g.nodes|)
  }

  predicate LoopKeyOf(events: seq<Event>, node: Node, key: LoopKey) {
    node.indices != [] && node.indices[0] < |events| && events[node.indices[0]].func == key.0 && node.lines == [key.1]
  }

  ghost predicate Good(events: seq<Event>, g: Graph, n: nat)
    requires n <= |events|
  {
    NodesGood(events, g, n) && OnePlace(g, n) && Chain(g) && ChildrenKnown(g) && OpenGood(events, g, n) && LoopsGood(events, g, n)
  }

  // ---- each step keeps it -----------------------------------------------------------------------------------

  lemma {:induction false} NodeLater(events: seq<Event>, node: Node, k: nat, n: nat)
    requires n < |events| && NodeGood(events, node, k, n)
    ensures NodeGood(events, node, k, n + 1)
  {}

  lemma {:induction false} ExtendedGood(events: seq<Event>, node: Node, k: nat, n: nat)
    requires n < |events| && NodeGood(events, node, k, n) && node.kind.Line? && events[n].State?
    requires node.indices[|node.indices| - 1] == n - 1
    ensures NodeGood(events, Extended(node, events[n], n), k, n + 1)
  {}

  lemma {:induction false} AgainGood(events: seq<Event>, node: Node, k: nat, n: nat)
    requires n < |events| && NodeGood(events, node, k, n) && node.kind.Loop? && events[n].Iter?
    requires LoopKeyOf(events, node, (events[n].func, events[n].line))
    ensures NodeGood(events, Again(node, n), k, n + 1)
  {}

  lemma {:induction false} StartedGood(events: seq<Event>, g: Graph, n: nat, children: seq<nat>)
    requires n < |events|
    ensures NodeGood(events, Node(KindFor(g, events[n]), |g.nodes| + 1, [events[n].line], [n], children), |g.nodes|, n + 1)
  {}

  lemma {:induction false} NewChildGood(events: seq<Event>, node: Node, k: nat, n: nat, children: seq<nat>)
    requires n <= |events| && NodeGood(events, node, k, n)
    ensures NodeGood(events, node.(children := children), k, n)
  {}

  /** Node k gets event n as well, and may change otherwise; or it is new. All others hold what they held. */
  ghost predicate Gains(g: Graph, g': Graph, k: nat, n: nat) {
    && |g.nodes| <= |g'.nodes| && k < |g'.nodes| && (|g'.nodes| == |g.nodes| || (|g'.nodes| == |g.nodes| + 1 && k == |g.nodes|))
    && g'.nodes[k].indices == (if k < |g.nodes| then g.nodes[k].indices else []) + [n]
    && forall l :: 0 <= l < |g.nodes| && l != k ==> g'.nodes[l].indices == g.nodes[l].indices
  }

  lemma {:induction false} GainsPlaces(events: seq<Event>, g: Graph, g': Graph, k: nat, n: nat)
    requires n < |events| && OnePlace(g, n) && NodesGood(events, g, n) && Gains(g, g', k, n)
    ensures OnePlace(g', n + 1)
    ensures Has(g', k, n) && forall l, i :: Has(g, l, i) ==> Has(g', l, i)
  {
    forall l: nat, i: nat ensures Has(g', l, i) <==> Has(g, l, i) || (l == k && i == n) {
      if l < |g.nodes| && l != k { assert g'.nodes[l].indices == g.nodes[l].indices; }
    }
    forall l: nat ensures !Has(g, l, n) {
      if l < |g.nodes| { assert NodeGood(events, g.nodes[l], l, n); }
    }
    forall i | 0 <= i < n + 1 ensures Placed(g', i) {
      if i == n {
        assert Has(g', k, n);
      } else {
        assert Placed(g, i);
        var l :| 0 <= l < |g.nodes| && Has(g, l, i);
        assert Has(g', l, i);
      }
    }
  }

  lemma {:induction false} LoopsLater(events: seq<Event>, g: Graph, g': Graph, n: nat)
    requires n < |events| && LoopsGood(events, g, n) && !events[n].Iter?
    requires g'.loops == g.loops && |g.nodes| <= |g'.nodes| && (g'.loop == g.loop || g'.loop.None?)
    requires forall l :: 0 <= l < |g.nodes| && g.nodes[l].kind.Loop? ==>
               g'.nodes[l].kind.Loop? && g'.nodes[l].indices == g.nodes[l].indices && g'.nodes[l].lines == g.nodes[l].lines
    requires forall l, i :: Has(g, l, i) ==> Has(g', l, i)
    ensures LoopsGood(events, g', n + 1)
  {}

  /** A state joins the open node. */
  lemma {:induction false} JoinKeeps(events: seq<Event>, g: Graph, n: nat)
    requires n < |events| && Good(events, g, n) && Joins(g, events[n])
    ensures Good(events, Step(g, events[n], n), n + 1)
  {
    hide OnePlace, NodeGood, LoopsGood, LoopKeyOf;
    var g', last := Step(g, events[n], n), |g.nodes| - 1;
    assert NodeGood(events, g.nodes[last], last, n);
    ExtendedGood(events, g.nodes[last], last, n);
    GainsPlaces(events, g, g', last, n);
    LoopsLater(events, g, g', n);
    forall k | 0 <= k < |g'.nodes| ensures NodeGood(events, g'.nodes[k], k, n + 1) {
      if k != last {
        assert NodeGood(events, g.nodes[k], k, n);
        NodeLater(events, g.nodes[k], k, n);
      }
    }
  }

  /** A loop step goes to its loop's node. */
  lemma {:induction false} RepeatKeeps(events: seq<Event>, g: Graph, n: nat)
    requires n < |events| && Good(events, g, n) && Repeats(g, events[n])
    ensures Good(events, Step(g, events[n], n), n + 1)
  {
    hide OnePlace, NodeGood;
    var g', key := Step(g, events[n], n), (events[n].func, events[n].line);
    var at := g.loops[key];
    assert NodeGood(events, g.nodes[at], at, n);
    AgainGood(events, g.nodes[at], at, n);
    GainsPlaces(events, g, g', at, n);
    forall k | 0 <= k < |g'.nodes| ensures NodeGood(events, g'.nodes[k], k, n + 1) {
      if k != at {
        assert NodeGood(events, g.nodes[k], k, n);
        NodeLater(events, g.nodes[k], k, n);
      }
    }
  }

  lemma {:induction false} StartedNodes(g: Graph, e: Event, n: nat)
    ensures var s := Started(g, e, n);
            && |s.nodes| == |g.nodes| + 1 && s.nodes[|g.nodes|] == Node(KindFor(g, e), |g.nodes| + 1, [e.line], [n], [])
            && forall k :: 0 <= k < |g.nodes| ==>
                 s.nodes[k] == g.nodes[k]
                 || (g.loop == Some(k) && s.nodes[k] == g.nodes[k].(children := g.nodes[k].children + [|g.nodes| + 1]))
  {}

  /** Everything else starts a node. */
  lemma {:induction false} StartKeeps(events: seq<Event>, g: Graph, n: nat)
    requires n < |events| && Good(events, g, n) && !Joins(g, events[n]) && !Repeats(g, events[n])
    ensures Good(events, Step(g, events[n], n), n + 1)
  {
    var e, g', at := events[n], Step(g, events[n], n), |g.nodes|;
    StartedNodes(g, e, n);
    assert g'.nodes == Started(g, e, n).nodes && g'.edges == Started(g, e, n).edges;
    StartedGood(events, g, n, []);
    StartChain(g, e, n);
    hide Started, NodeGood, KindFor, Joins, Repeats, Step, ActiveAfter;
    forall k | 0 <= k < |g'.nodes| ensures NodeGood(events, g'.nodes[k], k, n + 1) {
      if k < at {
        assert NodeGood(events, g.nodes[k], k, n);
        NodeLater(events, g.nodes[k], k, n);
        NewChildGood(events, g.nodes[k], k, n + 1, g'.nodes[k].children);
        assert g'.nodes[k] == g.nodes[k].(children := g'.nodes[k].children);
      }
    }
    GainsPlaces(events, g, g', at, n);
    StartLoops(events, g, n);
    StartOpen(events, g, n);
    StartChildren(events, g, n);
  }

  lemma {:induction false} StartChain(g: Graph, e: Event, n: nat)
    requires Chain(g)
    ensures Chain(Started(g, e, n))
  {
    StartedNodes(g, e, n);
  }

  lemma {:induction false} StartLoops(events: seq<Event>, g: Graph, n: nat)
    requires n < |events| && LoopsGood(events, g, n) && NodesGood(events, g, n)
    requires !Joins(g, events[n]) && !Repeats(g, events[n])
    ensures LoopsGood(events, Step(g, events[n], n), n + 1)
  {
    var e, g', at := events[n], Step(g, events[n], n), |g.nodes|;
    StartedNodes(g, e, n);
    assert forall l, i :: Has(g, l, i) ==> Has(g', l, i);
    if e.Iter? {
      assert KindFor(g, e) == Loop && Has(g', at, n);
      hide Started, KindFor, NodesGood, ActiveAfter;
    } else {
      hide Started, KindFor, NodesGood, ActiveAfter, Joins, Repeats;
      LoopsLater(events, g, g', n);
    }
  }

  lemma {:induction false} StartOpen(events: seq<Event>, g: Graph, n: nat)
    requires n < |events| && !Joins(g, events[n]) && !Repeats(g, events[n])
    ensures OpenGood(events, Step(g, events[n], n), n + 1)
  {
    StartedNodes(g, events[n], n);
  }

  lemma {:induction false} StartChildren(events: seq<Event>, g: Graph, n: nat)
    requires n < |events| && ChildrenKnown(g) && LoopsGood(events, g, n) && !Joins(g, events[n]) && !Repeats(g, events[n])
    ensures ChildrenKnown(Step(g, events[n], n))
  {
    hide LoopsGood;
    StartedNodes(g, events[n], n);
  }

  lemma {:induction false} BuiltGood(events: seq<Event>, n: nat)
    requires n <= |events|
    ensures Good(events, Built(events, n), n)
  {
    hide Good, Step;
    if n == 0 {
      EmptyGood(events);
    } else {
      var g := Built(events, n - 1);
      BuiltGood(events, n - 1);
      if Joins(g, events[n - 1]) { JoinKeeps(events, g, n - 1); }
      else if Repeats(g, events[n - 1]) { RepeatKeeps(events, g, n - 1); }
      else { StartKeeps(events, g, n - 1); }
    }
  }

  lemma {:induction false} EmptyGood(events: seq<Event>)
    ensures Good(events, EMPTY, 0)
  {}

  // ---- what the finished graph conserves ---------------------------------------------------------------------

  /** Every event of the trace is in exactly one node; every node lists its events in order, a line
      node without a gap; ids are the places; edges join each node to the next. */
  lemma {:induction false} TraceConserved(events: seq<Event>)
    ensures var g := Built(events, |events|);
            && OnePlace(g, |events|) && NodesGood(events, g, |events|) && Chain(g) && ChildrenKnown(g)
  {
    hide Built, OnePlace, NodesGood, Chain, ChildrenKnown;
    BuiltGood(events, |events|);
    assert Good(events, Built(events, |events|), |events|);
  }

  lemma {:induction false} StepHas(g: Graph, e: Event, n: nat, k: nat, i: nat)
    requires Has(g, k, i)
    ensures Has(Step(g, e, n), k, i)
  {
    StartedNodes(g, e, n);
    hide Started, ActiveAfter, KindFor;
    if !Joins(g, e) && !Repeats(g, e) { assert Step(g, e, n).nodes == Started(g, e, n).nodes; }
  }

  lemma {:induction false} HasStays(events: seq<Event>, m: nat, n: nat, k: nat, i: nat)
    requires m <= n <= |events| && Has(Built(events, m), k, i)
    ensures Has(Built(events, n), k, i)
    decreases n
  {
    hide Step, Has;
    if m < n {
      HasStays(events, m, n - 1, k, i);
      StepHas(Built(events, n - 1), events[n - 1], n - 1, k, i);
    }
  }

  /** After a state the last node is open and holds it, at its line. */
  lemma {:induction false} StateOpens(events: seq<Event>, i: nat)
    requires i < |events| && events[i].State?
    ensures var g := Built(events, i + 1);
            && g.isOpen && g.func == events[i].func && g.nodes != [] && Has(g, |g.nodes| - 1, i)
            && var lines := g.nodes[|g.nodes| - 1].lines; lines != [] && lines[|lines| - 1] == events[i].line
  {
    BuiltGood(events, i);
    BuiltGood(events, i + 1);
    var before, g := Built(events, i), Built(events, i + 1);
    StartedNodes(before, events[i], i);
    assert g.isOpen;
    var last := g.nodes[|g.nodes| - 1];
    assert NodeGood(events, last, |g.nodes| - 1, i + 1) && last.indices[|last.indices| - 1] == i;
  }

  predicate Share(g: Graph, i: nat, j: nat) { exists k :: 0 <= k < |g.nodes| && Has(g, k, i) && Has(g, k, j) }

  /** A state's node, in the finished graph, is the one that was last right after it. */
  lemma {:induction false} StatePlace(events: seq<Event>, i: nat)
    requires i < |events| && events[i].State?
    ensures |Built(events, i + 1).nodes| > 0 && Has(Built(events, |events|), |Built(events, i + 1).nodes| - 1, i)
  {
    hide Built, Has;
    StateOpens(events, i);
    HasStays(events, i + 1, |events|, |Built(events, i + 1).nodes| - 1, i);
  }

  lemma {:induction false} NextPlace(g: Graph, e: Event, n: nat)
    requires e.State?
    ensures |Step(g, e, n).nodes| == if Joins(g, e) then |g.nodes| else |g.nodes| + 1
  {
    StartedNodes(g, e, n);
    hide Started;
  }

  lemma {:induction false} ShareIsSame(g: Graph, n: nat, i: nat, j: nat, k: nat, l: nat)
    requires OnePlace(g, n) && Has(g, k, i) && Has(g, l, j)
    ensures Share(g, i, j) <==> k == l
  {}

  /** Two states in a row share a node exactly if they are of one function and at most three lines apart. */
  lemma {:induction false} StatesShare(events: seq<Event>, i: nat)
    requires i + 1 < |events| && events[i].State? && events[i + 1].State?
    ensures Share(Built(events, |events|), i, i + 1)
            <==> events[i].func == events[i + 1].func && Near(events[i + 1].line, events[i].line)
  {
    hide Has, Step, OnePlace, Share, NodesGood, Chain, ChildrenKnown;
    var g := Built(events, i + 1);
    assert Built(events, i + 2) == Step(g, events[i + 1], i + 1);
    hide Built;
    StateOpens(events, i);
    StatePlace(events, i);
    StatePlace(events, i + 1);
    NextPlace(g, events[i + 1], i + 1);
    TraceConserved(events);
    ShareIsSame(Built(events, |events|), |events|, i, i + 1, |g.nodes| - 1, |Built(events, i + 2).nodes| - 1);
  }

  /** Loop steps share a node exactly if they are of one loop header. */
  lemma {:induction false} IterationsShare(events: seq<Event>, i: nat, j: nat)
    requires i < |events| && j < |events| && events[i].Iter? && events[j].Iter?
    ensures Share(Built(events, |events|), i, j) <==> events[i].func == events[j].func && events[i].line == events[j].line
  {
    var g := Built(events, |events|);
    BuiltGood(events, |events|);
    hide Built, Chain, ChildrenKnown, OpenGood;
    var ki, kj := (events[i].func, events[i].line), (events[j].func, events[j].line);
    assert Has(g, g.loops[ki], i) && Has(g, g.loops[kj], j);
    if Share(g, i, j) {
      var k :| 0 <= k < |g.nodes| && Has(g, k, i) && Has(g, k, j);
      SameHeader(events, g.nodes[k], k, |events|, i, j);
    }
  }

  lemma {:induction false} SameHeader(events: seq<Event>, node: Node, k: nat, n: nat, i: nat, j: nat)
    requires n <= |events| && i < n && j < n && NodeGood(events, node, k, n) && i in node.indices && j in node.indices && events[i].Iter? && events[j].Iter?
    ensures events[i].func == events[j].func && events[i].line == events[j].line
  {
    var a :| 0 <= a < |node.indices| && node.indices[a] == i;
    var b :| 0 <= b < |node.indices| && node.indices[b] == j;
  }
}
