/** The graph a statement tree is turned into, as a function.
    `Link` records every attempt to connect a pending edge, self edges included;
    `Edges` says which of them the graph keeps. */
module CfgCompile {
  import opened Basics
  import opened CfgModel

  /** `from` is joined to `target`; `back` marks a loop-back target handle. */
  datatype Link = Link(from: Pending, target: Id, tag: string, back: bool)

  datatype Graph = Graph(nodes: seq<Node>, links: seq<Link>, counter: nat)

  /** What building a statement leaves: the graph, the edges that fall through,
      and the edges added to the enclosing break and continue lists. */
  datatype Out = Out(g: Graph, exits: seq<Pending>, breaks: seq<Pending>, conts: seq<Pending>)

  function EdgeOf(l: Link): Edge {
    Edge(l.from.source, l.target, l.tag, l.from.handle, if l.back then Some("loop-back") else None)
  }

  /** Self edges are dropped, and an edge already present is not repeated. */
  function Edges(links: seq<Link>): seq<Edge> {
    if links == [] then []
    else
      var before := Edges(links[..|links| - 1]);
      var l := links[|links| - 1];
      if l.from.source == l.target || EdgeOf(l) in before then before else before + [EdgeOf(l)]
  }

  function Fresh(g: Graph, prefix: string): Id { Id(prefix, g.counter + 1) }

  function Joins(ins: seq<Pending>, target: Id): (r: seq<Link>)
    ensures |r| == |ins| && forall i :: 0 <= i < |ins| ==> r[i] == Link(ins[i], target, ins[i].tag, false)
  {
    if ins == [] then [] else [Link(ins[0], target, ins[0].tag, false)] + Joins(ins[1..], target)
  }

  function NodeOf(nodes: seq<Node>, id: Id): Option<Node> {
    if nodes == [] then None else if nodes[0].id == id then Some(nodes[0]) else NodeOf(nodes[1..], id)
  }

  function KindOf(nodes: seq<Node>, id: Id): Option<Kind> {
    var n := NodeOf(nodes, id);
    if n.Some? then Some(n.value.kind) else None
  }

  /** Links back to a loop header; the label of an inner loop's exit is not repeated on its latch. */
  function Latches(ps: seq<Pending>, head: Id, nodes: seq<Node>, blankLoops: bool): (r: seq<Link>)
    ensures |r| == |ps|
    ensures forall i :: 0 <= i < |ps| ==> r[i] == Link(ps[i], head, LatchTag(ps[i], nodes, blankLoops), true)
  {
    if ps == [] then []
    else [Link(ps[0], head, LatchTag(ps[0], nodes, blankLoops), true)] + Latches(ps[1..], head, nodes, blankLoops)
  }

  function LatchTag(p: Pending, nodes: seq<Node>, blankLoops: bool): string {
    if blankLoops && KindOf(nodes, p.source) == Some(LoopHead) then "" else p.tag
  }

  /** A new node with every pending edge connected to it. */
  function Place(g: Graph, ins: seq<Pending>, prefix: string, kind: Kind, lines: seq<nat>, cursors: seq<Stmt>): Graph {
    var id := Fresh(g, prefix);
    Graph(g.nodes + [Node(id, kind, lines, cursors)], g.links + Joins(ins, id), g.counter + 1)
  }

  function Linked(g: Graph, links: seq<Link>): Graph { g.(links := g.links + links) }

  // ---- grouping simple statements -----------------------------------------------------

  function Distance(a: nat, b: nat): nat { if a < b then b - a else a - b }

  /** How many of the leading statements share one node, k of them already taken. */
  function GroupLength(b: seq<Stmt>, k: nat): (n: nat)
    requires 1 <= k <= |b| && forall i :: 0 <= i < k ==> b[i].Simple?
    ensures k <= n <= |b| && forall i :: 0 <= i < n ==> b[i].Simple?
    decreases |b| - k
  {
    if k < |b| && b[k].Simple? && !b[k].call && Distance(b[k].src.line, b[k - 1].src.line) <= 3 && k < 3
    then GroupLength(b, k + 1) else k
  }

  function Insert(l: nat, s: seq<nat>): seq<nat> {
    if s == [] || l < s[0] then [l] + s else if l == s[0] then s else [s[0]] + Insert(l, s[1..])
  }

  /** The distinct positive lines of a group, ascending. */
  function LinesOf(b: seq<Stmt>): seq<nat>
    requires forall i :: 0 <= i < |b| ==> b[i].Simple?
  {
    if b == [] then [] else if b[0].src.line > 0 then Insert(b[0].src.line, LinesOf(b[1..])) else LinesOf(b[1..])
  }

  // ---- statements -----------------------------------------------------------------------

  function BuildStmt(s: Stmt, ins: seq<Pending>, g: Graph, end: Id): Out
    decreases s, 1
  {
    if ins == [] then Out(g, [], [], [])
    else match s
      case Compound(body) => BuildBody(body, ins, g, end)
      case If(_, _, _) => BuildIf(s, ins, g, end)
      case Loop(_, _) => BuildLoop(s, ins, g, end)
      case Switch(_, _) => BuildSwitch(s, ins, g, end)
      case Return(_) => BuildReturn(s, ins, g, end)
      case Break => Out(g, [], ins, [])
      case Continue => Out(g, [], [], ins)
      case Simple(_, _) => BuildLine(s, ins, g)
      case Other(_) => BuildLine(s, ins, g)
  }

  function BuildIf(s: Stmt, ins: seq<Pending>, g: Graph, end: Id): Out
    requires s.If?
    decreases s, 0
  {
    var id := Fresh(g, "branch");
    var t := BuildOption(s.thn, [Port(id, "true")], Place(g, ins, "branch", Branch, [s.src.line], [s]), end);
    var e := BuildOption(s.els, [Port(id, "false")], t.g, end);
    Out(e.g, t.exits + e.exits, t.breaks + e.breaks, t.conts + e.conts)
  }

  function BuildLoop(s: Stmt, ins: seq<Pending>, g: Graph, end: Id): Out
    requires s.Loop?
    decreases s, 0
  {
    var id := Fresh(g, "loop");
    var o := BuildOption(s.lbody, [Port(id, "true")], Place(g, ins, "loop", LoopHead, [s.src.line], [s]), end);
    var g1 := Linked(o.g, Latches(o.conts, id, o.g.nodes, false));
    Out(Linked(g1, Latches(o.exits, id, g1.nodes, true)), [Port(id, "false")] + o.breaks, [], [])
  }

  function BuildSwitch(s: Stmt, ins: seq<Pending>, g: Graph, end: Id): Out
    requires s.Switch?
    decreases s, 0
  {
    var id := Fresh(g, "branch");
    var o := BuildItems(s.items, id, [], Place(g, ins, "branch", Branch, [s.src.line], [s]), end);
    Out(o.g, o.breaks + o.exits + Skip(s.items, id), [], o.conts)
  }

  /** Without a default label, control may skip the whole switch. */
  function Skip(items: seq<Item>, sw: Id): seq<Pending> {
    if HasDefault(items) then [] else [Port(sw, "default")]
  }

  function BuildReturn(s: Stmt, ins: seq<Pending>, g: Graph, end: Id): Out
    requires s.Return?
  {
    var h := Place(g, ins, "ret", Line, [s.src.line], [s]);
    Out(Linked(h, [Link(Port(Fresh(g, "ret"), ""), end, "", false)]), [], [], [])
  }

  function BuildLine(s: Stmt, ins: seq<Pending>, g: Graph): Out
    requires s.Simple? || s.Other?
  {
    Out(Place(g, ins, "line", Line, [s.src.line], [s]), [Port(Fresh(g, "line"), "")], [], [])
  }

  /** An absent sub-statement lets the edges through. */
  function BuildOption(o: Option<Stmt>, ins: seq<Pending>, g: Graph, end: Id): Out
    decreases o
  {
    if o.Some? then BuildStmt(o.value, ins, g, end) else Out(g, ins, [], [])
  }

  /** The leading simple statements that share a node: one call, or a group of plain statements. */
  function GroupSize(b: seq<Stmt>): (n: nat)
    requires b != [] && b[0].Simple?
    ensures 1 <= n <= |b| && forall i :: 0 <= i < n ==> b[i].Simple?
  {
    if b[0].call then 1 else GroupLength(b, 1)
  }

  /** A call always gets a node; a group without any line gets none. */
  function BuildGroup(b: seq<Stmt>, cur: seq<Pending>, g: Graph): Out
    requires b != [] && b[0].Simple?
  {
    var group := b[..GroupSize(b)];
    var lines := LinesOf(group);
    if b[0].call then Out(Place(g, cur, "call", FuncCall, lines, group), [Port(Fresh(g, "call"), "")], [], [])
    else if lines == [] then Out(g, cur, [], [])
    else Out(Place(g, cur, "line", Line, lines, group), [Port(Fresh(g, "line"), "")], [], [])
  }

  function BuildBody(b: seq<Stmt>, cur: seq<Pending>, g: Graph, end: Id): Out
    decreases b
  {
    if b == [] then Out(g, cur, [], [])
    else if b[0].Simple? then
      var o := BuildGroup(b, cur, g);
      BuildBody(b[GroupSize(b)..], o.exits, o.g, end)
    else
      var o := BuildStmt(b[0], cur, g, end);
      if o.exits == [] then o
      else
        var r := BuildBody(b[1..], o.exits, o.g, end);
        Out(r.g, r.exits, o.breaks + r.breaks, o.conts + r.conts)
  }

  /** One child of a switch body: its label adds an edge from the switch node. */
  function BuildItem(it: Item, sw: Id, cur: seq<Pending>, g: Graph, end: Id): Out
    decreases it
  {
    BuildOption(it.first, Entering(it, sw, cur), g, end)
  }

  function Entering(it: Item, sw: Id, cur: seq<Pending>): seq<Pending> {
    if it.lab.NoLabel? then cur else [Port(sw, LabelText(it.lab))] + cur
  }

  function BuildItems(items: seq<Item>, sw: Id, cur: seq<Pending>, g: Graph, end: Id): Out
    decreases items
  {
    if items == [] then Out(g, cur, [], [])
    else
      var o := BuildItem(items[0], sw, cur, g, end);
      var r := BuildItems(items[1..], sw, o.exits, o.g, end);
      Out(r.g, r.exits, o.breaks + r.breaks, o.conts + r.conts)
  }

  // ---- functions --------------------------------------------------------------------------

  function StartId(g: Graph): Id { Id("func_start", g.counter + 1) }
  function EndId(g: Graph): Id { Id("func_end", g.counter + 2) }

  /** The graph with the start node in, the end node only named. */
  function Opened(g: Graph, line: nat): Graph {
    Graph(g.nodes + [Node(StartId(g), FuncStart, [line], [])], g.links, g.counter + 2)
  }

  function BuiltBody(g: Graph, body: seq<Stmt>, line: nat): Out {
    BuildBody(body, [Port(StartId(g), "")], Opened(g, line), EndId(g))
  }

  function BuildFunction(g: Graph, body: seq<Stmt>, line: nat, endLine: nat): Graph {
    var o := BuiltBody(g, body, line);
    Graph(o.g.nodes + [Node(EndId(g), FuncEnd, [endLine], [])], o.g.links + Joins(o.exits, EndId(g)), o.g.counter)
  }

  const EMPTY := Graph([], [], 0)

  datatype Function = Function(body: seq<Stmt>, line: nat, endLine: nat)

  /** One graph for all functions of a file, in order. */
  function BuildAll(g: Graph, fs: seq<Function>): Graph
    decreases |fs|
  {
    if fs == [] then g else BuildAll(BuildFunction(g, fs[0].body, fs[0].line, fs[0].endLine), fs[1..])
  }
}
