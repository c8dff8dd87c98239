/** In the graph of a well-formed program a node and a decision determine the next node. */
module CfgUnique {
  import opened Basics
  import opened CfgModel
  import opened CfgCompile
  import opened CfgLinear
  import opened CfgShape

  /** A node either decides nothing or offers distinct decisions. */
  predicate GoodNode(n: Node) {
    NoDuplicates(Choices(n)) && ("" in Choices(n) ==> Choices(n) == [""])
  }

  ghost predicate GoodNodes(g: Graph) { forall n :: n in g.nodes ==> GoodNode(n) }

  /** Nothing leaves the statement by a jump it may not make. */
  predicate JumpFree(o: Out, mayBreak: bool, mayContinue: bool) {
    (!mayBreak ==> o.breaks == []) && (!mayContinue ==> o.conts == [])
  }

  lemma {:induction false} LabelsShape(items: seq<Item>)
    ensures "" !in Labels(items)
    ensures "default" in Labels(items) ==> HasDefault(items)
  {
    if items != [] {
      LabelsShape(items[1..]);
      if items[0].lab.Case? { assert ("case " + items[0].lab.value)[0] == 'c'; }
    }
  }

  lemma {:induction false} BranchGood(id: Id, s: Stmt)
    requires s.If? || (s.Switch? && NoDuplicates(Labels(s.items)))
    ensures GoodNode(Node(id, Branch, [s.src.line], [s]))
  {
    if s.Switch? {
      LabelsShape(s.items);
      var c := SwitchChoices(s.items);
      forall i, j | 0 <= i < j < |c| ensures c[i] != c[j] {
        if j < |Labels(s.items)| { assert Labels(s.items)[i] != Labels(s.items)[j]; }
      }
    }
  }

  lemma {:induction false} StmtGood(s: Stmt, ins: seq<Pending>, g: Graph, end: Id, mayBreak: bool, mayContinue: bool)
    requires WellFormed(s, mayBreak, mayContinue) && GoodNodes(g)
    ensures var o := BuildStmt(s, ins, g, end); GoodNodes(o.g) && JumpFree(o, mayBreak, mayContinue)
    decreases s
  {
    if ins == [] { return; }
    match s
    case Compound(body) => BodyGood(body, ins, g, end, mayBreak, mayContinue);
    case If(src, thn, els) =>
      var id, h := Fresh(g, "branch"), Place(g, ins, "branch", Branch, [src.line], [s]);
      BranchGood(id, s);
      OptionGood(thn, [Port(id, "true")], h, end, mayBreak, mayContinue);
      OptionGood(els, [Port(id, "false")], BuildOption(thn, [Port(id, "true")], h, end).g, end, mayBreak, mayContinue);
    case Loop(src, b) =>
      var id, h := Fresh(g, "loop"), Place(g, ins, "loop", LoopHead, [src.line], [s]);
      OptionGood(b, [Port(id, "true")], h, end, true, true);
    case Switch(src, items) =>
      var id, h := Fresh(g, "branch"), Place(g, ins, "branch", Branch, [src.line], [s]);
      BranchGood(id, s);
      ItemsGood(items, id, [], h, end, mayContinue);
    case _ =>
  }

  lemma {:induction false} OptionGood(s: Option<Stmt>, ins: seq<Pending>, g: Graph, end: Id, mayBreak: bool, mayContinue: bool)
    requires WellFormedOption(s, mayBreak, mayContinue) && GoodNodes(g)
    ensures var o := BuildOption(s, ins, g, end); GoodNodes(o.g) && JumpFree(o, mayBreak, mayContinue)
    decreases s
  {
    if s.Some? { StmtGood(s.value, ins, g, end, mayBreak, mayContinue); }
  }

  lemma {:induction false} BodyGood(b: seq<Stmt>, cur: seq<Pending>, g: Graph, end: Id, mayBreak: bool, mayContinue: bool)
    requires WellFormedBody(b, mayBreak, mayContinue) && GoodNodes(g)
    ensures var o := BuildBody(b, cur, g, end); GoodNodes(o.g) && JumpFree(o, mayBreak, mayContinue)
    decreases b
  {
    if b == [] { return; }
    if b[0].Simple? {
      var o := BuildGroup(b, cur, g);
      TailWellFormed(b, GroupSize(b), mayBreak, mayContinue);
      BodyGood(b[GroupSize(b)..], o.exits, o.g, end, mayBreak, mayContinue);
    } else {
      StmtGood(b[0], cur, g, end, mayBreak, mayContinue);
      var o := BuildStmt(b[0], cur, g, end);
      if o.exits != [] { BodyGood(b[1..], o.exits, o.g, end, mayBreak, mayContinue); }
    }
  }

  lemma {:induction false} TailWellFormed(b: seq<Stmt>, n: nat, mayBreak: bool, mayContinue: bool)
    requires n <= |b| && WellFormedBody(b, mayBreak, mayContinue)
    ensures WellFormedBody(b[n..], mayBreak, mayContinue)
    decreases n
  {
    if n > 0 {
      TailWellFormed(b[1..], n - 1, mayBreak, mayContinue);
      assert b[1..][n - 1..] == b[n..];
    } else {
      assert b[0..] == b;
    }
  }

  lemma {:induction false} ItemGood(it: Item, sw: Id, cur: seq<Pending>, g: Graph, end: Id, mayContinue: bool)
    requires WellFormedItem(it, mayContinue) && GoodNodes(g)
    ensures var o := BuildItem(it, sw, cur, g, end); GoodNodes(o.g) && JumpFree(o, true, mayContinue)
    decreases it
  {
    OptionGood(it.first, Entering(it, sw, cur), g, end, true, mayContinue);
  }

  lemma {:induction false} ItemsGood(items: seq<Item>, sw: Id, cur: seq<Pending>, g: Graph, end: Id, mayContinue: bool)
    requires WellFormedItems(items, mayContinue) && GoodNodes(g)
    ensures var o := BuildItems(items, sw, cur, g, end); GoodNodes(o.g) && JumpFree(o, true, mayContinue)
    decreases items
  {
    if items == [] { return; }
    ItemGood(items[0], sw, cur, g, end, mayContinue);
    var o := BuildItem(items[0], sw, cur, g, end);
    ItemsGood(items[1..], sw, o.exits, o.g, end, mayContinue);
  }

  // ---- whole programs --------------------------------------------------------------------

  /** Everything the links use is offered once and used once. */
  ghost predicate Settled(g: Graph) {
    Tidy(g) && GoodNodes(g) && forall x :: Owed(x, g) == 0
  }

  predicate WellFormedAll(fs: seq<Function>) {
    forall i :: 0 <= i < |fs| ==> WellFormedBody(fs[i].body, false, false)
  }

  lemma {:induction false} FunctionOwed(x: Pending, g: Graph, body: seq<Stmt>, line: nat, endLine: nat)
    requires BuiltBody(g, body, line).breaks == [] && BuiltBody(g, body, line).conts == []
    ensures Owed(x, BuildFunction(g, body, line, endLine)) == Owed(x, g)
  {
    var h, start := Opened(g, line), Node(StartId(g), FuncStart, [line], []);
    PortsAppend(g.nodes, [start]);
    assert PortsOf([start]) == Ports(start) == [Port(StartId(g), "")];
    CountAppend(x, PortsOf(g.nodes), Ports(start));
    BodyConserves(x, body, [Port(StartId(g), "")], h, EndId(g));
    var o := BuiltBody(g, body, line);
    var joins, last := Joins(o.exits, EndId(g)), Node(EndId(g), FuncEnd, [endLine], []);
    FromAppend(o.g.links, joins);
    assert From(joins) == o.exits;
    CountAppend(x, From(o.g.links), o.exits);
    PortsAppend(o.g.nodes, [last]);
    assert PortsOf([last]) == [];
    assert PortsOf(o.g.nodes) + [] == PortsOf(o.g.nodes);
  }

  lemma {:induction false} FunctionSettled(g: Graph, body: seq<Stmt>, line: nat, endLine: nat)
    requires Settled(g) && WellFormedBody(body, false, false)
    ensures Settled(BuildFunction(g, body, line, endLine))
  {
    FunctionGrows(g, body, line, endLine);
    var h := Opened(g, line);
    assert GoodNode(Node(StartId(g), FuncStart, [line], []));
    BodyGood(body, [Port(StartId(g), "")], h, EndId(g), false, false);
    forall x ensures Owed(x, BuildFunction(g, body, line, endLine)) == 0 {
      FunctionOwed(x, g, body, line, endLine);
    }
  }

  lemma {:induction false} AllSettled(g: Graph, fs: seq<Function>)
    requires Settled(g) && WellFormedAll(fs)
    ensures Settled(BuildAll(g, fs))
    decreases |fs|
  {
    if fs != [] {
      FunctionSettled(g, fs[0].body, fs[0].line, fs[0].endLine);
      AllSettled(BuildFunction(g, fs[0].body, fs[0].line, fs[0].endLine), fs[1..]);
    }
  }

  // ---- what being settled gives ------------------------------------------------------------

  /** An offered branch names its node and is one of its choices. */
  lemma {:induction false} PortOwner(nodes: seq<Node>, p: Pending) returns (i: nat)
    requires p in PortsOf(nodes)
    ensures i < |nodes| && nodes[i].id == p.source && Dec(p) in Choices(nodes[i]) && p == Port(p.source, Dec(p))
  {
    if p in Ports(nodes[0]) {
      i := 0;
      var k :| 0 <= k < |Choices(nodes[0])| && Ports(nodes[0])[k] == p;
    } else {
      i := PortOwner(nodes[1..], p);
      i := i + 1;
    }
  }

  /** The branch a link consumes is offered by its source node. */
  lemma {:induction false} LinkOffered(g: Graph, l: Link)
    requires Settled(g) && l in g.links
    ensures l.from == Port(l.from.source, Dec(l.from))
    ensures var n := NodeOf(g.nodes, l.from.source); n.Some? && GoodNode(n.value) && Dec(l.from) in Choices(n.value)
  {
    var p := l.from;
    var k :| 0 <= k < |g.links| && g.links[k] == l;
    assert From(g.links)[k] == p;
    CountIn(p, From(g.links));
    assert Owed(p, g) == 0;
    CountIn(p, PortsOf(g.nodes));
    var i := PortOwner(g.nodes, p);
    NodeAt(g.nodes, i);
  }

  lemma {:induction false} CountTwice(x: Pending, s: seq<Pending>, i: nat, j: nat)
    requires i < j < |s| && s[i] == x == s[j]
    ensures Count(x, s) >= 2
  {
    if i == 0 {
      assert s[1..][j - 1] == x;
      CountIn(x, s[1..]);
    } else {
      CountTwice(x, s[1..], i - 1, j - 1);
    }
  }

  lemma {:induction false} PortsAtOnce(x: Pending, id: Id, choices: seq<string>)
    requires NoDuplicates(choices)
    ensures Count(x, PortsAt(id, choices)) <= (if x.source == id then 1 else 0)
  {
    if choices != [] {
      assert NoDuplicates(choices[1..]);
      PortsAtOnce(x, id, choices[1..]);
      if Port(id, choices[0]) == x {
        assert forall k :: 0 <= k < |choices[1..]| ==> choices[1..][k] != choices[0];
        CountIn(x, PortsAt(id, choices[1..]));
      }
    }
  }

  lemma {:induction false} OfferedOnce(x: Pending, nodes: seq<Node>)
    requires forall i :: 0 <= i < |nodes| ==> GoodNode(nodes[i])
    requires forall i, j :: 0 <= i < j < |nodes| ==> nodes[i].id.n != nodes[j].id.n
    ensures Count(x, PortsOf(nodes)) <= 1
  {
    if nodes != [] {
      OfferedOnce(x, nodes[1..]);
      CountAppend(x, Ports(nodes[0]), PortsOf(nodes[1..]));
      PortsAtOnce(x, nodes[0].id, Choices(nodes[0]));
      if x.source == nodes[0].id {
        CountIn(x, PortsOf(nodes[1..]));
        if x in PortsOf(nodes[1..]) {
          var i := PortOwner(nodes[1..], x);
        }
      }
    }
  }

  /** No branch is linked twice, so the builder's guard against repeated edges never fires. */
  lemma {:induction false} LinkedOnce(g: Graph, i: nat, j: nat)
    requires Settled(g) && i < j < |g.links|
    ensures g.links[i].from != g.links[j].from
  {
    if g.links[i].from == g.links[j].from {
      var x := g.links[i].from;
      CountTwice(x, From(g.links), i, j);
      assert Owed(x, g) == 0;
      OfferedOnce(x, g.nodes);
    }
  }

  lemma {:induction false} SameLink(g: Graph, l: Link, m: Link)
    requires Settled(g) && l in g.links && m in g.links && l.from == m.from
    ensures l == m
  {
    var i :| 0 <= i < |g.links| && g.links[i] == l;
    var j :| 0 <= j < |g.links| && g.links[j] == m;
    if i < j { LinkedOnce(g, i, j); } else if j < i { LinkedOnce(g, j, i); }
  }
}
