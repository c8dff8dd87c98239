/** Building only appends, gives every node an id of its own, and makes a self edge
    only for an empty trip round a loop. */
module CfgShape {
  import opened Basics
  import opened CfgModel
  import opened CfgCompile

  ghost predicate Extends(g: Graph, f: Graph) {
    g.nodes <= f.nodes && g.links <= f.links && g.counter <= f.counter
  }

  ghost predicate IdsFresh(g: Graph) {
    && (forall i :: 0 <= i < |g.nodes| ==> g.nodes[i].id.n <= g.counter)
    && (forall i, j :: 0 <= i < j < |g.nodes| ==> g.nodes[i].id.n != g.nodes[j].id.n)
  }

  /** A tag is blanked on loop edges only, which carry a handle; a self edge is a loop's "true". */
  ghost predicate GoodLink(nodes: seq<Node>, l: Link) {
    && (l.tag == l.from.tag || KindOf(nodes, l.from.source) == Some(LoopHead))
    && (l.target == l.from.source ==>
          KindOf(nodes, l.target) == Some(LoopHead) && l.from == Port(l.target, "true"))
  }

  ghost predicate Tidy(g: Graph) {
    IdsFresh(g) && forall l :: l in g.links ==> GoodLink(g.nodes, l)
  }

  ghost predicate Old(g: Graph, ps: seq<Pending>) { forall p :: p in ps ==> p.source.n <= g.counter }

  /** p came in with `ins`, or leaves a node made between g and h. */
  ghost predicate Born(g: Graph, ins: seq<Pending>, h: Graph, p: Pending) {
    p in ins || g.counter < p.source.n <= h.counter
  }

  ghost predicate AllBorn(g: Graph, ins: seq<Pending>, h: Graph, ps: seq<Pending>) {
    forall p :: p in ps ==> Born(g, ins, h, p)
  }

  /** What building from g with `ins` may do. */
  ghost predicate Grown(g: Graph, ins: seq<Pending>, o: Out) {
    && Extends(g, o.g)
    && (forall i :: |g.nodes| <= i < |o.g.nodes| ==> g.counter < o.g.nodes[i].id.n <= o.g.counter)
    && AllBorn(g, ins, o.g, o.exits) && AllBorn(g, ins, o.g, o.breaks) && AllBorn(g, ins, o.g, o.conts)
  }

  lemma {:induction false} NodeAppend(a: seq<Node>, b: seq<Node>, id: Id)
    ensures NodeOf(a + b, id) == if NodeOf(a, id).Some? then NodeOf(a, id) else NodeOf(b, id)
  {
    if a == [] {
      assert a + b == b;
    } else {
      assert (a + b)[1..] == a[1..] + b;
      NodeAppend(a[1..], b, id);
    }
  }

  lemma {:induction false} NodeAt(nodes: seq<Node>, i: nat)
    requires i < |nodes|
    requires forall j, k :: 0 <= j < k < |nodes| ==> nodes[j].id.n != nodes[k].id.n
    ensures NodeOf(nodes, nodes[i].id) == Some(nodes[i])
  {
    if i > 0 {
      assert nodes[0].id.n != nodes[i].id.n;
      NodeAt(nodes[1..], i - 1);
    }
  }

  lemma {:induction false} NodeExtends(g: Graph, f: Graph, id: Id)
    requires Extends(g, f) && NodeOf(g.nodes, id).Some?
    ensures NodeOf(f.nodes, id) == NodeOf(g.nodes, id)
  {
    assert f.nodes == g.nodes + f.nodes[|g.nodes|..];
    NodeAppend(g.nodes, f.nodes[|g.nodes|..], id);
  }

  lemma {:induction false} TidyNode(g: Graph, n: Node, links: seq<Link>)
    requires Tidy(g) && n.id.n == g.counter + 1
    requires forall l :: l in links ==> l.tag == l.from.tag && l.target != l.from.source
    ensures var h := Graph(g.nodes + [n], g.links + links, g.counter + 1);
            Extends(g, h) && Tidy(h) && NodeOf(h.nodes, n.id) == Some(n)
  {
    var h := Graph(g.nodes + [n], g.links + links, g.counter + 1);
    NodeAt(h.nodes, |g.nodes|);
    forall l | l in g.links ensures GoodLink(h.nodes, l) {
      NodeAppend(g.nodes, [n], l.from.source);
    }
  }

  lemma {:induction false} PlaceGrows(g: Graph, ins: seq<Pending>, prefix: string, kind: Kind, lines: seq<nat>, cursors: seq<Stmt>, d: string)
    requires Tidy(g) && Old(g, ins)
    ensures var h := Place(g, ins, prefix, kind, lines, cursors); var id := Fresh(g, prefix);
            && Tidy(h) && NodeOf(h.nodes, id) == Some(Node(id, kind, lines, cursors))
            && Grown(g, ins, Out(h, [Port(id, d)], [], [])) && Old(h, [Port(id, d)])
  {
    var id := Fresh(g, prefix);
    TidyNode(g, Node(id, kind, lines, cursors), Joins(ins, id));
  }

  // ---- composition ------------------------------------------------------------------------

  lemma {:induction false} GrownThen(g: Graph, ins: seq<Pending>, h: Graph, mid: seq<Pending>, o: Out)
    requires Grown(g, ins, Out(h, mid, [], [])) && Grown(h, mid, o)
    ensures Grown(g, ins, o)
  {
    forall p | Born(h, mid, o.g, p) ensures Born(g, ins, o.g, p) {
      if p in mid { assert Born(g, ins, h, p); }
    }
  }

  lemma {:induction false} GrownJoin(g: Graph, ins: seq<Pending>, o: Out, r: Out)
    requires Grown(g, ins, o) && Grown(o.g, o.exits, r)
    ensures Grown(g, ins, Out(r.g, r.exits, o.breaks + r.breaks, o.conts + r.conts))
  {
    forall p | Born(o.g, o.exits, r.g, p) ensures Born(g, ins, r.g, p) {
      if p in o.exits { assert Born(g, ins, o.g, p); }
    }
    assert AllBorn(g, ins, r.g, o.breaks + r.breaks);
    assert AllBorn(g, ins, r.g, o.conts + r.conts);
  }

  // ---- statements -----------------------------------------------------------------------

  lemma {:induction false} StmtGrows(s: Stmt, ins: seq<Pending>, g: Graph, end: Id)
    requires Tidy(g) && Old(g, ins) && end.n <= g.counter
    ensures var o := BuildStmt(s, ins, g, end); Grown(g, ins, o) && Tidy(o.g)
    decreases s, 1
  {
    if ins == [] { return; }
    match s
    case Compound(body) => BodyGrows(body, ins, g, end);
    case If(_, _, _) => IfGrows(s, ins, g, end);
    case Loop(_, _) => LoopGrows(s, ins, g, end);
    case Switch(_, _) => SwitchGrows(s, ins, g, end);
    case Return(_) => ReturnGrows(s, ins, g, end);
    case Simple(_, _) => PlaceGrows(g, ins, "line", Line, [s.src.line], [s], "");
    case Other(_) => PlaceGrows(g, ins, "line", Line, [s.src.line], [s], "");
    case _ =>
  }

  lemma {:induction false} OptionGrows(s: Option<Stmt>, ins: seq<Pending>, g: Graph, end: Id)
    requires Tidy(g) && Old(g, ins) && end.n <= g.counter
    ensures var o := BuildOption(s, ins, g, end); Grown(g, ins, o) && Tidy(o.g)
    decreases s
  {
    if s.Some? { StmtGrows(s.value, ins, g, end); }
  }

  lemma {:induction false} ReturnGrows(s: Stmt, ins: seq<Pending>, g: Graph, end: Id)
    requires s.Return?
    requires Tidy(g) && Old(g, ins) && end.n <= g.counter
    ensures var o := BuildReturn(s, ins, g, end); Grown(g, ins, o) && Tidy(o.g)
  {
    PlaceGrows(g, ins, "ret", Line, [s.src.line], [s], "");
  }

  lemma {:induction false} IfGrows(s: Stmt, ins: seq<Pending>, g: Graph, end: Id)
    requires s.If?
    requires Tidy(g) && Old(g, ins) && end.n <= g.counter
    ensures var o := BuildIf(s, ins, g, end); Grown(g, ins, o) && Tidy(o.g)
    decreases s, 0
  {
    var id := Fresh(g, "branch");
    PlaceGrows(g, ins, "branch", Branch, [s.src.line], [s], "true");
    var h := Place(g, ins, "branch", Branch, [s.src.line], [s]);
    var thn, els := [Port(id, "true")], [Port(id, "false")];
    OptionGrows(s.thn, thn, h, end);
    var t := BuildOption(s.thn, thn, h, end);
    GrownThen(g, ins, h, thn, t);
    OptionGrows(s.els, els, t.g, end);
    var e := BuildOption(s.els, els, t.g, end);
    assert Grown(g, ins, Out(t.g, els, t.breaks, t.conts));
    GrownJoin(g, ins, Out(t.g, els, t.breaks, t.conts), e);
    assert AllBorn(g, ins, e.g, t.exits);
    assert AllBorn(g, ins, e.g, t.exits + e.exits);
  }

  /** Latches may close a loop on its own head only along the head's "true" edge. */
  lemma {:induction false} LatchesTidy(ps: seq<Pending>, head: Id, g: Graph, blankLoops: bool)
    requires Tidy(g) && KindOf(g.nodes, head) == Some(LoopHead)
    requires forall p :: p in ps && p.source == head ==> p == Port(head, "true")
    ensures Tidy(Linked(g, Latches(ps, head, g.nodes, blankLoops)))
  {}

  lemma {:induction false} LoopGrows(s: Stmt, ins: seq<Pending>, g: Graph, end: Id)
    requires s.Loop?
    requires Tidy(g) && Old(g, ins) && end.n <= g.counter
    ensures var o := BuildLoop(s, ins, g, end); Grown(g, ins, o) && Tidy(o.g)
    decreases s, 0
  {
    var id := Fresh(g, "loop");
    PlaceGrows(g, ins, "loop", LoopHead, [s.src.line], [s], "true");
    var h := Place(g, ins, "loop", LoopHead, [s.src.line], [s]);
    OptionGrows(s.lbody, [Port(id, "true")], h, end);
    var b := BuildOption(s.lbody, [Port(id, "true")], h, end);
    GrownThen(g, ins, h, [Port(id, "true")], b);
    NodeExtends(h, b.g, id);
    assert forall p :: Born(h, [Port(id, "true")], b.g, p) && p.source == id ==> p == Port(id, "true");
    LatchesTidy(b.conts, id, b.g, false);
    LatchesTidy(b.exits, id, Linked(b.g, Latches(b.conts, id, b.g.nodes, false)), true);
  }

  lemma {:induction false} SwitchGrows(s: Stmt, ins: seq<Pending>, g: Graph, end: Id)
    requires s.Switch?
    requires Tidy(g) && Old(g, ins) && end.n <= g.counter
    ensures var o := BuildSwitch(s, ins, g, end); Grown(g, ins, o) && Tidy(o.g)
    decreases s, 0
  {
    var id := Fresh(g, "branch");
    PlaceGrows(g, ins, "branch", Branch, [s.src.line], [s], "");
    var h := Place(g, ins, "branch", Branch, [s.src.line], [s]);
    ItemsGrow(s.items, id, [], g, ins, h, end);
    var o := BuildItems(s.items, id, [], h, end);
    assert AllBorn(g, ins, o.g, o.breaks + o.exits);
    assert AllBorn(g, ins, o.g, o.breaks + o.exits + Skip(s.items, id));
  }

  lemma {:induction false} GroupGrows(b: seq<Stmt>, cur: seq<Pending>, g: Graph)
    requires b != [] && b[0].Simple?
    requires Tidy(g) && Old(g, cur)
    ensures var o := BuildGroup(b, cur, g); Grown(g, cur, o) && Tidy(o.g) && o.breaks == o.conts == []
  {
    var group := b[..GroupSize(b)];
    if b[0].call {
      PlaceGrows(g, cur, "call", FuncCall, LinesOf(group), group, "");
    } else {
      PlaceGrows(g, cur, "line", Line, LinesOf(group), group, "");
    }
  }

  lemma {:induction false} BodyGrows(b: seq<Stmt>, cur: seq<Pending>, g: Graph, end: Id)
    requires Tidy(g) && Old(g, cur) && end.n <= g.counter
    ensures var o := BuildBody(b, cur, g, end); Grown(g, cur, o) && Tidy(o.g)
    decreases b
  {
    if b == [] { return; }
    if b[0].Simple? {
      GroupGrows(b, cur, g);
      var o := BuildGroup(b, cur, g);
      BodyGrows(b[GroupSize(b)..], o.exits, o.g, end);
      GrownThen(g, cur, o.g, o.exits, BuildBody(b, cur, g, end));
    } else {
      StmtGrows(b[0], cur, g, end);
      var o := BuildStmt(b[0], cur, g, end);
      if o.exits != [] {
        BodyGrows(b[1..], o.exits, o.g, end);
        GrownJoin(g, cur, o, BuildBody(b[1..], o.exits, o.g, end));
      }
    }
  }

  lemma {:induction false} ItemGrows(it: Item, sw: Id, cur: seq<Pending>, g: Graph, end: Id)
    requires Tidy(g) && Old(g, cur) && sw.n <= g.counter && end.n <= g.counter
    ensures var o := BuildItem(it, sw, cur, g, end); Grown(g, Entering(it, sw, cur), o) && Tidy(o.g)
    decreases it
  {
    OptionGrows(it.first, Entering(it, sw, cur), g, end);
  }

  /** The switch node was placed after g0, so everything here is born after it. */
  lemma {:induction false} ItemsGrow(items: seq<Item>, sw: Id, cur: seq<Pending>, g0: Graph, ins: seq<Pending>, g: Graph, end: Id)
    requires Tidy(g) && end.n <= g.counter
    requires Grown(g0, ins, Out(g, cur, [], [])) && Old(g, cur) && g0.counter < sw.n <= g.counter
    ensures var o := BuildItems(items, sw, cur, g, end); Grown(g0, ins, o) && Tidy(o.g) && Extends(g, o.g)
    decreases items
  {
    if items == [] { return; }
    var here := Entering(items[0], sw, cur);
    ItemGrows(items[0], sw, cur, g, end);
    var o := BuildItem(items[0], sw, cur, g, end);
    assert Grown(g0, ins, Out(g, here, [], []));
    GrownThen(g0, ins, g, here, o);
    assert Grown(g0, ins, Out(o.g, o.exits, [], []));
    ItemsGrow(items[1..], sw, o.exits, g0, ins, o.g, end);
    var r := BuildItems(items[1..], sw, o.exits, o.g, end);
    assert AllBorn(g0, ins, r.g, o.breaks + r.breaks);
    assert AllBorn(g0, ins, r.g, o.conts + r.conts);
  }

  // ---- functions --------------------------------------------------------------------------

  lemma {:induction false} OpenedGrows(g: Graph, line: nat)
    requires Tidy(g)
    ensures var h := Opened(g, line);
            && Extends(g, h) && Tidy(h) && Old(h, [Port(StartId(g), "")])
            && NodeOf(h.nodes, StartId(g)) == Some(Node(StartId(g), FuncStart, [line], []))
  {
    TidyNode(g, Node(StartId(g), FuncStart, [line], []), []);
    assert Opened(g, line).links == g.links + [];
  }

  /** The end node's id is taken before the body is built and used after it. */
  lemma {:induction false} FunctionGrows(g: Graph, body: seq<Stmt>, line: nat, endLine: nat)
    requires Tidy(g)
    ensures var o := BuiltBody(g, body, line); var f := BuildFunction(g, body, line, endLine);
            && Grown(Opened(g, line), [Port(StartId(g), "")], o) && Tidy(o.g)
            && Extends(g, f) && Extends(o.g, f) && Tidy(f)
            && NodeOf(f.nodes, EndId(g)) == Some(Node(EndId(g), FuncEnd, [endLine], []))
  {
    OpenedGrows(g, line);
    var h, start := Opened(g, line), [Port(StartId(g), "")];
    BodyGrows(body, start, h, EndId(g));
    var o := BuiltBody(g, body, line);
    var f := BuildFunction(g, body, line, endLine);
    forall l | l in f.links ensures GoodLink(f.nodes, l) {
      if l in o.g.links {
        NodeAppend(o.g.nodes, [f.nodes[|o.g.nodes|]], l.from.source);
      } else {
        assert Born(h, start, o.g, l.from);
      }
    }
    NodeAt(f.nodes, |o.g.nodes|);
  }

  lemma {:induction false} AllGrows(g: Graph, fs: seq<Function>)
    requires Tidy(g)
    ensures Extends(g, BuildAll(g, fs)) && Tidy(BuildAll(g, fs))
    decreases |fs|
  {
    if fs != [] {
      FunctionGrows(g, fs[0].body, fs[0].line, fs[0].endLine);
      AllGrows(BuildFunction(g, fs[0].body, fs[0].line, fs[0].endLine), fs[1..]);
    }
  }
}
