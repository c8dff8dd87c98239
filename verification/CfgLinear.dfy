/** Every branch a node offers is connected exactly once.
    Counting any one branch x: the times links used it plus the times it is still pending
    is the number of times nodes offer it. */
module CfgLinear {
  import opened Basics
  import opened CfgModel
  import opened CfgCompile

  function Count(x: Pending, s: seq<Pending>): nat {
    if s == [] then 0 else (if s[0] == x then 1 else 0) + Count(x, s[1..])
  }

  function From(links: seq<Link>): (r: seq<Pending>)
    ensures |r| == |links| && forall i :: 0 <= i < |links| ==> r[i] == links[i].from
  {
    if links == [] then [] else [links[0].from] + From(links[1..])
  }

  function PortsAt(id: Id, choices: seq<string>): (r: seq<Pending>)
    ensures |r| == |choices| && forall i :: 0 <= i < |r| ==> r[i] == Port(id, choices[i])
  {
    if choices == [] then [] else [Port(id, choices[0])] + PortsAt(id, choices[1..])
  }

  function Ports(n: Node): seq<Pending> { PortsAt(n.id, Choices(n)) }

  function PortsOf(nodes: seq<Node>): seq<Pending> {
    if nodes == [] then [] else Ports(nodes[0]) + PortsOf(nodes[1..])
  }

  /** How often x was used by a link, less how often a node offers it. */
  function Owed(x: Pending, g: Graph): int { Count(x, From(g.links)) - Count(x, PortsOf(g.nodes)) }

  function Waiting(x: Pending, o: Out): nat { Count(x, o.exits) + Count(x, o.breaks) + Count(x, o.conts) }

  lemma {:induction false} CountAppend(x: Pending, a: seq<Pending>, b: seq<Pending>)
    ensures Count(x, a + b) == Count(x, a) + Count(x, b)
  {
    if a == [] {
      assert a + b == b;
    } else {
      assert (a + b)[1..] == a[1..] + b;
      CountAppend(x, a[1..], b);
    }
  }

  lemma {:induction false} PortsAppend(a: seq<Node>, b: seq<Node>)
    ensures PortsOf(a + b) == PortsOf(a) + PortsOf(b)
  {
    if a == [] {
      assert a + b == b;
    } else {
      assert (a + b)[1..] == a[1..] + b;
      PortsAppend(a[1..], b);
    }
  }

  lemma {:induction false} CountIn(x: Pending, s: seq<Pending>)
    ensures x in s <==> Count(x, s) > 0
  {
    if s != [] { CountIn(x, s[1..]); }
  }

  lemma {:induction false} FromAppend(a: seq<Link>, b: seq<Link>)
    ensures From(a + b) == From(a) + From(b)
  {
    var ab, fab := From(a + b), From(a) + From(b);
    assert forall i :: 0 <= i < |ab| ==> ab[i] == (a + b)[i].from;
    assert forall i :: 0 <= i < |ab| ==> fab[i] == (a + b)[i].from;
  }

  lemma {:induction false} OwedLinked(x: Pending, g: Graph, links: seq<Link>)
    ensures Owed(x, Linked(g, links)) == Owed(x, g) + Count(x, From(links))
  {
    FromAppend(g.links, links);
    CountAppend(x, From(g.links), From(links));
  }

  lemma {:induction false} OwedPlaced(x: Pending, g: Graph, ins: seq<Pending>, prefix: string, kind: Kind, lines: seq<nat>, cursors: seq<Stmt>)
    ensures Owed(x, Place(g, ins, prefix, kind, lines, cursors))
            == Owed(x, g) + Count(x, ins) - Count(x, Ports(Node(Fresh(g, prefix), kind, lines, cursors)))
  {
    var n := Node(Fresh(g, prefix), kind, lines, cursors);
    var joins := Joins(ins, n.id);
    assert From(joins) == ins;
    OwedLinked(x, g, joins);
    PortsAppend(g.nodes, [n]);
    assert PortsOf([n]) == Ports(n);
    CountAppend(x, PortsOf(g.nodes), Ports(n));
  }

  lemma {:induction false} OwedLatched(x: Pending, g: Graph, ps: seq<Pending>, head: Id, blankLoops: bool)
    ensures Owed(x, Linked(g, Latches(ps, head, g.nodes, blankLoops))) == Owed(x, g) + Count(x, ps)
  {
    OwedLinked(x, g, Latches(ps, head, g.nodes, blankLoops));
    assert From(Latches(ps, head, g.nodes, blankLoops)) == ps;
  }

  // ---- conservation: what goes in comes out -----------------------------------------------

  lemma {:induction false} StmtConserves(x: Pending, s: Stmt, ins: seq<Pending>, g: Graph, end: Id)
    ensures var o := BuildStmt(s, ins, g, end); Owed(x, o.g) + Waiting(x, o) == Owed(x, g) + Count(x, ins)
    decreases s, 1
  {
    if ins == [] { return; }
    match s
    case Compound(body) => BodyConserves(x, body, ins, g, end);
    case If(_, _, _) => IfConserves(x, s, ins, g, end);
    case Loop(_, _) => LoopConserves(x, s, ins, g, end);
    case Switch(_, _) => SwitchConserves(x, s, ins, g, end);
    case Return(_) => ReturnConserves(x, s, ins, g, end);
    case Simple(_, _) => LineConserves(x, s, ins, g);
    case Other(_) => LineConserves(x, s, ins, g);
    case _ =>
  }

  lemma {:induction false} OptionConserves(x: Pending, s: Option<Stmt>, ins: seq<Pending>, g: Graph, end: Id)
    ensures var o := BuildOption(s, ins, g, end); Owed(x, o.g) + Waiting(x, o) == Owed(x, g) + Count(x, ins)
    decreases s
  {
    if s.Some? { StmtConserves(x, s.value, ins, g, end); }
  }

  lemma {:induction false} LineConserves(x: Pending, s: Stmt, ins: seq<Pending>, g: Graph)
    requires s.Simple? || s.Other?
    ensures var o := BuildLine(s, ins, g); Owed(x, o.g) + Waiting(x, o) == Owed(x, g) + Count(x, ins)
  {
    PlainConserves(x, ins, g, "line", Line, [s.src.line], [s]);
  }

  lemma {:induction false} ReturnConserves(x: Pending, s: Stmt, ins: seq<Pending>, g: Graph, end: Id)
    requires s.Return?
    ensures var o := BuildReturn(s, ins, g, end); Owed(x, o.g) + Waiting(x, o) == Owed(x, g) + Count(x, ins)
  {
    OwedPlaced(x, g, ins, "ret", Line, [s.src.line], [s]);
    OwedLinked(x, Place(g, ins, "ret", Line, [s.src.line], [s]), [Link(Port(Fresh(g, "ret"), ""), end, "", false)]);
  }

  lemma {:induction false} IfConserves(x: Pending, s: Stmt, ins: seq<Pending>, g: Graph, end: Id)
    requires s.If?
    ensures var o := BuildIf(s, ins, g, end); Owed(x, o.g) + Waiting(x, o) == Owed(x, g) + Count(x, ins)
    decreases s, 0
  {
    var id := Fresh(g, "branch");
    OwedPlaced(x, g, ins, "branch", Branch, [s.src.line], [s]);
    var h := Place(g, ins, "branch", Branch, [s.src.line], [s]);
    assert Ports(Node(id, Branch, [s.src.line], [s])) == [Port(id, "true")] + [Port(id, "false")];
    CountAppend(x, [Port(id, "true")], [Port(id, "false")]);
    OptionConserves(x, s.thn, [Port(id, "true")], h, end);
    var t := BuildOption(s.thn, [Port(id, "true")], h, end);
    OptionConserves(x, s.els, [Port(id, "false")], t.g, end);
    var e := BuildOption(s.els, [Port(id, "false")], t.g, end);
    CountAppend(x, t.exits, e.exits);
    CountAppend(x, t.breaks, e.breaks);
    CountAppend(x, t.conts, e.conts);
  }

  lemma {:induction false} LoopConserves(x: Pending, s: Stmt, ins: seq<Pending>, g: Graph, end: Id)
    requires s.Loop?
    ensures var o := BuildLoop(s, ins, g, end); Owed(x, o.g) + Waiting(x, o) == Owed(x, g) + Count(x, ins)
    decreases s, 0
  {
    var id := Fresh(g, "loop");
    OwedPlaced(x, g, ins, "loop", LoopHead, [s.src.line], [s]);
    var h := Place(g, ins, "loop", LoopHead, [s.src.line], [s]);
    assert Ports(Node(id, LoopHead, [s.src.line], [s])) == [Port(id, "true")] + [Port(id, "false")];
    CountAppend(x, [Port(id, "true")], [Port(id, "false")]);
    OptionConserves(x, s.lbody, [Port(id, "true")], h, end);
    var o := BuildOption(s.lbody, [Port(id, "true")], h, end);
    OwedLatched(x, o.g, o.conts, id, false);
    OwedLatched(x, Linked(o.g, Latches(o.conts, id, o.g.nodes, false)), o.exits, id, true);
    CountAppend(x, [Port(id, "false")], o.breaks);
  }

  lemma {:induction false} SwitchPorts(x: Pending, s: Stmt, id: Id)
    requires s.Switch?
    ensures Count(x, Ports(Node(id, Branch, [s.src.line], [s])))
            == Count(x, PortsAt(id, Labels(s.items))) + Count(x, Skip(s.items, id))
  {
    assert Ports(Node(id, Branch, [s.src.line], [s])) == PortsAt(id, Labels(s.items)) + Skip(s.items, id);
    CountAppend(x, PortsAt(id, Labels(s.items)), Skip(s.items, id));
  }

  lemma {:induction false} SwitchConserves(x: Pending, s: Stmt, ins: seq<Pending>, g: Graph, end: Id)
    requires s.Switch?
    ensures var o := BuildSwitch(s, ins, g, end); Owed(x, o.g) + Waiting(x, o) == Owed(x, g) + Count(x, ins)
    decreases s, 0
  {
    var id := Fresh(g, "branch");
    OwedPlaced(x, g, ins, "branch", Branch, [s.src.line], [s]);
    var h := Place(g, ins, "branch", Branch, [s.src.line], [s]);
    SwitchPorts(x, s, id);
    ItemsConserve(x, s.items, id, [], h, end);
    var o := BuildItems(s.items, id, [], h, end);
    CountAppend(x, o.breaks + o.exits, Skip(s.items, id));
    CountAppend(x, o.breaks, o.exits);
  }

  lemma {:induction false} GroupConserves(x: Pending, b: seq<Stmt>, cur: seq<Pending>, g: Graph)
    requires b != [] && b[0].Simple?
    ensures var o := BuildGroup(b, cur, g);
            o.breaks == o.conts == [] && Owed(x, o.g) + Count(x, o.exits) == Owed(x, g) + Count(x, cur)
  {
    var group := b[..GroupSize(b)];
    if b[0].call {
      PlainConserves(x, cur, g, "call", FuncCall, LinesOf(group), group);
    } else {
      PlainConserves(x, cur, g, "line", Line, LinesOf(group), group);
    }
  }

  /** A node that decides nothing passes on one branch for all that came in. */
  lemma {:induction false} PlainConserves(x: Pending, ins: seq<Pending>, g: Graph, prefix: string, kind: Kind, lines: seq<nat>,
                                          cursors: seq<Stmt>)
    requires kind == FuncCall || kind == Line
    ensures Owed(x, Place(g, ins, prefix, kind, lines, cursors)) + Count(x, [Port(Fresh(g, prefix), "")])
            == Owed(x, g) + Count(x, ins)
  {
    OwedPlaced(x, g, ins, prefix, kind, lines, cursors);
    assert Ports(Node(Fresh(g, prefix), kind, lines, cursors)) == [Port(Fresh(g, prefix), "")];
  }

  lemma {:induction false} BodyConserves(x: Pending, b: seq<Stmt>, cur: seq<Pending>, g: Graph, end: Id)
    ensures var o := BuildBody(b, cur, g, end); Owed(x, o.g) + Waiting(x, o) == Owed(x, g) + Count(x, cur)
    decreases b
  {
    if b == [] { return; }
    if b[0].Simple? {
      GroupConserves(x, b, cur, g);
      var o := BuildGroup(b, cur, g);
      BodyConserves(x, b[GroupSize(b)..], o.exits, o.g, end);
    } else {
      StmtConserves(x, b[0], cur, g, end);
      var o := BuildStmt(b[0], cur, g, end);
      if o.exits != [] {
        BodyConserves(x, b[1..], o.exits, o.g, end);
        var r := BuildBody(b[1..], o.exits, o.g, end);
        CountAppend(x, o.breaks, r.breaks);
        CountAppend(x, o.conts, r.conts);
      }
    }
  }

  lemma {:induction false} ItemConserves(x: Pending, it: Item, sw: Id, cur: seq<Pending>, g: Graph, end: Id)
    ensures var o := BuildItem(it, sw, cur, g, end);
            Owed(x, o.g) + Waiting(x, o) == Owed(x, g) + Count(x, Entering(it, sw, cur))
    decreases it
  {
    OptionConserves(x, it.first, Entering(it, sw, cur), g, end);
  }

  lemma {:induction false} ItemsConserve(x: Pending, items: seq<Item>, sw: Id, cur: seq<Pending>, g: Graph, end: Id)
    ensures var o := BuildItems(items, sw, cur, g, end);
            Owed(x, o.g) + Waiting(x, o) == Owed(x, g) + Count(x, cur) + Count(x, PortsAt(sw, Labels(items)))
    decreases items
  {
    if items == [] { return; }
    ItemConserves(x, items[0], sw, cur, g, end);
    var o := BuildItem(items[0], sw, cur, g, end);
    ItemsConserve(x, items[1..], sw, o.exits, o.g, end);
    var r := BuildItems(items[1..], sw, o.exits, o.g, end);
    CountAppend(x, o.breaks, r.breaks);
    CountAppend(x, o.conts, r.conts);
    if items[0].lab.NoLabel? {
      assert Labels(items) == Labels(items[1..]);
    } else {
      var own := [Port(sw, LabelText(items[0].lab))];
      CountAppend(x, own, cur);
      CountAppend(x, own, PortsAt(sw, Labels(items[1..])));
      assert PortsAt(sw, Labels(items)) == own + PortsAt(sw, Labels(items[1..]));
    }
  }
}
