/** The builder as an object: node and edge lists and a counter that grow as the statement
    tree is walked, and break and continue lists shared with the enclosing loop or switch.
    Each method is proved against the functions of CfgCompile. */
module CfgBuilder {
  import opened Basics
  import opened CfgModel
  import opened CfgCompile

  /** A list of pending edges that several statements extend; null where there is no loop. */
  class EdgeList {
    var items: seq<Pending>

    constructor ()
      ensures items == []
    {
      items := [];
    }

    method Extend(more: seq<Pending>)
      modifies this
      ensures items == old(items) + more
    {
      items := items + more;
    }
  }

  class StaticCFGBuilder {
    var nodes: seq<Node>
    var edges: seq<Edge>
    var counter: nat
    var seenEdges: set<Edge>
    ghost var links: seq<Link>  // every connection asked for, in order

    ghost predicate Valid()
      reads this
    {
      edges == Edges(links) && forall e :: e in seenEdges <==> e in edges
    }

    ghost function G(): Graph
      reads this
    {
      Graph(nodes, links, counter)
    }

    constructor ()
      ensures Valid() && G() == EMPTY
    {
      nodes, edges, counter, seenEdges, links := [], [], 0, {}, [];
    }

    method NewId(prefix: string) returns (id: Id)
      requires Valid()
      modifies this
      ensures Valid() && id == Fresh(old(G()), prefix) && G() == old(G()).(counter := counter)
      ensures counter == old(counter) + 1
    {
      counter := counter + 1;
      id := Id(prefix, counter);
    }

    method AddNode(n: Node)
      requires Valid()
      modifies this
      ensures Valid() && G() == old(G()).(nodes := nodes) && nodes == old(nodes) + [n]
    {
      nodes := nodes + [n];
    }

    /** A self edge is dropped, and an edge seen before is not added again. */
    method AddEdge(p: Pending, target: Id, tag: string, back: bool)
      requires Valid()
      modifies this
      ensures Valid() && G() == Linked(old(G()), [Link(p, target, tag, back)])
    {
      ghost var l := Link(p, target, tag, back);
      links := links + [l];
      assert links[..|links| - 1] == old(links);
      if p.source != target {
        var key := Edge(p.source, target, tag, p.handle, if back then Some("loop-back") else None);
        if key !in seenEdges {
          seenEdges := seenEdges + {key};
          edges := edges + [key];
        }
      }
    }

    method ConnectPending(pending: seq<Pending>, target: Id)
      requires Valid()
      modifies this
      ensures Valid() && G() == Linked(old(G()), Joins(pending, target))
    {
      hide Edges, Joins;
      ghost var joins := Joins(pending, target);
      for i := 0 to |pending|
        invariant Valid() && G() == Linked(old(G()), joins[..i])
      {
        AddEdge(pending[i], target, pending[i].tag, false);
        assert joins[..i + 1] == joins[..i] + [joins[i]];
      }
      assert joins[..|pending|] == joins;
    }

    method Latch(ps: seq<Pending>, head: Id, blankLoops: bool)
      requires Valid()
      modifies this
      ensures Valid() && G() == Linked(old(G()), Latches(ps, head, old(nodes), blankLoops))
    {
      hide Edges, Latches;
      ghost var back := Latches(ps, head, nodes, blankLoops);
      for i := 0 to |ps|
        invariant Valid() && G() == Linked(old(G()), back[..i])
      {
        AddEdge(ps[i], head, LatchTag(ps[i], nodes, blankLoops), true);
        assert back[..i + 1] == back[..i] + [back[i]];
      }
      assert back[..|ps|] == back;
    }

    /** One new node, connected to everything pending. */
    method PlaceNode(ins: seq<Pending>, prefix: string, kind: Kind, lines: seq<nat>, cursors: seq<Stmt>) returns (id: Id)
      requires Valid()
      modifies this
      ensures Valid() && id == Fresh(old(G()), prefix) && G() == Place(old(G()), ins, prefix, kind, lines, cursors)
    {
      id := NewId(prefix);
      AddNode(Node(id, kind, lines, cursors));
      ConnectPending(ins, id);
    }

    method BuildStatement(s: Stmt, ins: seq<Pending>, breaks: EdgeList?, conts: EdgeList?, end: Id)
      returns (exits: seq<Pending>)
      requires Valid() && (breaks == conts ==> breaks == null)
      modifies this, breaks, conts
      ensures var o := BuildStmt(s, ins, old(G()), end);
              && Valid() && G() == o.g && exits == o.exits
              && (breaks != null ==> breaks.items == old(breaks.items) + o.breaks)
              && (conts != null ==> conts.items == old(conts.items) + o.conts)
      decreases s, 2
    {
      hide Edges;
      if ins == [] {
        return [];
      }
      match s
      case Compound(body) => exits := BuildCompoundStmt(body, ins, breaks, conts, end);
      case If(_, _, _) => exits := BuildIfStmt(s, ins, breaks, conts, end);
      case Loop(_, _) => exits := BuildLoopStmt(s, ins, end);
      case Switch(_, _) => exits := BuildSwitchStmt(s, ins, conts, end);
      case Return(src) =>
        var id := PlaceNode(ins, "ret", Line, [src.line], [s]);
        AddEdge(Port(id, ""), end, "", false);
        exits := [];
      case Break =>
        if breaks != null { breaks.Extend(ins); }
        exits := [];
      case Continue =>
        if conts != null { conts.Extend(ins); }
        exits := [];
      case Simple(src, _) =>
        var id := PlaceNode(ins, "line", Line, [src.line], [s]);
        exits := [Port(id, "")];
      case Other(src) =>
        var id := PlaceNode(ins, "line", Line, [src.line], [s]);
        exits := [Port(id, "")];
    }

    /** An absent sub-statement lets the edges through. */
    method BuildOptional(s: Option<Stmt>, ins: seq<Pending>, breaks: EdgeList?, conts: EdgeList?, end: Id)
      returns (exits: seq<Pending>)
      requires Valid() && (breaks == conts ==> breaks == null)
      modifies this, breaks, conts
      ensures var o := BuildOption(s, ins, old(G()), end);
              && Valid() && G() == o.g && exits == o.exits
              && (breaks != null ==> breaks.items == old(breaks.items) + o.breaks)
              && (conts != null ==> conts.items == old(conts.items) + o.conts)
      decreases s
    {
      exits := ins;
      if s.Some? { exits := BuildStatement(s.value, ins, breaks, conts, end); }
    }

    method BuildIfStmt(s: Stmt, ins: seq<Pending>, breaks: EdgeList?, conts: EdgeList?, end: Id)
      returns (exits: seq<Pending>)
      requires s.If?
      requires Valid() && (breaks == conts ==> breaks == null)
      modifies this, breaks, conts
      ensures var o := BuildIf(s, ins, old(G()), end);
              && Valid() && G() == o.g && exits == o.exits
              && (breaks != null ==> breaks.items == old(breaks.items) + o.breaks)
              && (conts != null ==> conts.items == old(conts.items) + o.conts)
      decreases s, 1
    {
      hide Edges, Joins;
      var id := PlaceNode(ins, "branch", Branch, [s.src.line], [s]);
      var thenOut := BuildOptional(s.thn, [Port(id, "true")], breaks, conts, end);
      var elseOut := BuildOptional(s.els, [Port(id, "false")], breaks, conts, end);
      exits := thenOut + elseOut;
    }

    method BuildLoopStmt(s: Stmt, ins: seq<Pending>, end: Id) returns (exits: seq<Pending>)
      requires Valid() && s.Loop?
      modifies this
      ensures var o := BuildLoop(s, ins, old(G()), end); Valid() && G() == o.g && exits == o.exits
      decreases s, 1
    {
      var id := PlaceNode(ins, "loop", LoopHead, [s.src.line], [s]);
      var breaks := new EdgeList();
      var conts := new EdgeList();
      ghost var b := BuildOption(s.lbody, [Port(id, "true")], G(), end);
      var bodyOut := BuildOptional(s.lbody, [Port(id, "true")], breaks, conts, end);
      assert breaks.items == b.breaks && conts.items == b.conts;
      LatchBoth(conts.items, bodyOut, id);
      exits := [Port(id, "false")] + breaks.items;
    }

    /** Continues go back to the header, then what falls out of the body. */
    method LatchBoth(conts: seq<Pending>, bodyOut: seq<Pending>, head: Id)
      requires Valid()
      modifies this
      ensures var g := Linked(old(G()), Latches(conts, head, old(nodes), false));
              Valid() && G() == Linked(g, Latches(bodyOut, head, g.nodes, true))
    {
      Latch(conts, head, false);
      Latch(bodyOut, head, true);
    }

    /** Breaks stop here; continues go to the enclosing loop's own list. */
    method BuildSwitchStmt(s: Stmt, ins: seq<Pending>, conts: EdgeList?, end: Id) returns (exits: seq<Pending>)
      requires Valid() && s.Switch?
      modifies this, conts
      ensures var o := BuildSwitch(s, ins, old(G()), end);
              && Valid() && G() == o.g && exits == o.exits
              && (conts != null ==> conts.items == old(conts.items) + o.conts)
      decreases s, 1
    {
      hide BuildItems;
      var id := PlaceNode(ins, "branch", Branch, [s.src.line], [s]);
      ghost var o := BuildItems(s.items, id, [], G(), end);
      var breaks := new EdgeList();
      var cur := BuildCases(s.items, id, breaks, conts, end);
      assert breaks.items == o.breaks;
      exits := breaks.items + cur + Skip(s.items, id);
    }

    method BuildCase(it: Item, sw: Id, cur: seq<Pending>, breaks: EdgeList, conts: EdgeList?, end: Id)
      returns (exits: seq<Pending>)
      requires Valid() && breaks != conts
      modifies this, breaks, conts
      ensures var o := BuildItem(it, sw, cur, old(G()), end);
              && Valid() && G() == o.g && exits == o.exits && breaks.items == old(breaks.items) + o.breaks
              && (conts != null ==> conts.items == old(conts.items) + o.conts)
      decreases it
    {
      exits := BuildOptional(it.first, Entering(it, sw, cur), breaks, conts, end);
    }

    method BuildCases(items: seq<Item>, sw: Id, breaks: EdgeList, conts: EdgeList?, end: Id) returns (cur: seq<Pending>)
      requires Valid() && breaks != conts
      modifies this, breaks, conts
      ensures var o := BuildItems(items, sw, [], old(G()), end);
              && Valid() && G() == o.g && cur == o.exits && breaks.items == old(breaks.items) + o.breaks
              && (conts != null ==> conts.items == old(conts.items) + o.conts)
      decreases items
    {
      hide BuildItems, BuildItem, Edges;
      cur := [];
      ghost var all := BuildItems(items, sw, [], G(), end);
      ghost var bs, cs: seq<Pending> := [], [];  // what the items so far added to the lists
      assert items[0..] == items && all == After([], [], all);
      for i := 0 to |items|
        invariant Valid()
        invariant breaks.items == old(breaks.items) + bs && (conts != null ==> conts.items == old(conts.items) + cs)
        invariant all == After(bs, cs, BuildItems(items[i..], sw, cur, G(), end))
      {
        ghost var o := BuildItem(items[i], sw, cur, G(), end);
        ItemsUnfold(items, i, sw, cur, G(), end, bs, cs);
        cur := BuildCase(items[i], sw, cur, breaks, conts, end);
        bs, cs := bs + o.breaks, cs + o.conts;
      }
      ItemsNil(sw, cur, G(), end);
      assert items[|items|..] == [];
    }

    method BuildCompoundStmt(body: seq<Stmt>, ins: seq<Pending>, breaks: EdgeList?, conts: EdgeList?, end: Id)
      returns (cur: seq<Pending>)
      requires Valid() && (breaks == conts ==> breaks == null)
      modifies this, breaks, conts
      ensures var o := BuildBody(body, ins, old(G()), end);
              && Valid() && G() == o.g && cur == o.exits
              && (breaks != null ==> breaks.items == old(breaks.items) + o.breaks)
              && (conts != null ==> conts.items == old(conts.items) + o.conts)
      decreases body, 1
    {
      hide BuildBody;
      cur := ins;
      var i := 0;
      ghost var all := BuildBody(body, ins, G(), end);
      ghost var bs, cs: seq<Pending> := [], [];  // what the children so far added to the lists
      assert body[0..] == body && all == After([], [], all);
      while i < |body|
        invariant i <= |body| && Valid()
        invariant breaks != null ==> breaks.items == old(breaks.items) + bs
        invariant conts != null ==> conts.items == old(conts.items) + cs
        invariant all == After(bs, cs, BuildBody(body[i..], cur, G(), end))
        decreases |body| - i
      {
        ghost var o := Turn(body[i..], cur, G(), end);
        TurnUnfold(body, i, cur, G(), end, bs, cs);
        var simple := body[i].Simple?;
        var n;
        cur, n := BuildNext(body, i, cur, breaks, conts, end);
        bs, cs := bs + o.breaks, cs + o.conts;
        i := i + n;
        if !simple && cur == [] {
          break;
        }
      }
      BodyNil(cur, G(), end);
      assert i == |body| ==> body[i..] == [];
    }

    /** One turn of the walk over a compound: the next child, or the next group of n simple ones. */
    method BuildNext(body: seq<Stmt>, i: nat, ins: seq<Pending>, breaks: EdgeList?, conts: EdgeList?, end: Id)
      returns (cur: seq<Pending>, n: nat)
      requires Valid() && (breaks == conts ==> breaks == null) && i < |body|
      modifies this, breaks, conts
      ensures var o := Turn(body[i..], ins, old(G()), end);
              && Valid() && G() == o.g && cur == o.exits && n == TurnSize(body[i..])
              && (breaks != null ==> breaks.items == old(breaks.items) + o.breaks)
              && (conts != null ==> conts.items == old(conts.items) + o.conts)
      decreases body, 0
    {
      if body[i].Simple? {
        cur, n := BuildGroupNode(body, i, ins);
      } else {
        cur := BuildStatement(body[i], ins, breaks, conts, end);
        n := 1;
      }
    }

    /** Coalesce the simple statements from position i on into one node; n of them were taken. */
    method BuildGroupNode(body: seq<Stmt>, i: nat, ins: seq<Pending>) returns (cur: seq<Pending>, n: nat)
      requires Valid() && i < |body| && body[i].Simple?
      modifies this
      ensures var o := BuildGroup(body[i..], ins, old(G()));
              Valid() && G() == o.g && cur == o.exits && n == GroupSize(body[i..])
    {
      ghost var b := body[i..];
      cur, n := ins, 1;
      if !body[i].call {
        while i + n < |body| && body[i + n].Simple? && !body[i + n].call
              && Distance(body[i + n].src.line, body[i + n - 1].src.line) <= 3 && n < 3
          invariant 1 <= n <= |b|
          invariant forall k :: 0 <= k < n ==> b[k].Simple?
          invariant GroupLength(b, n) == GroupLength(b, 1)
        {
          n := n + 1;
        }
      }
      var group := body[i..i + n];
      assert group == b[..n];
      var lines := LinesOf(group);
      if body[i].call {
        var id := PlaceNode(cur, "call", FuncCall, lines, group);
        cur := [Port(id, "")];
      } else if lines != [] {
        var id := PlaceNode(cur, "line", Line, lines, group);
        cur := [Port(id, "")];
      }
    }

    method BuildFunctionBody(body: seq<Stmt>, line: nat, endLine: nat)
      requires Valid()
      modifies this
      ensures Valid() && G() == BuildFunction(old(G()), body, line, endLine)
    {
      hide Edges, BuildBody;
      var startId := NewId("func_start");
      AddNode(Node(startId, FuncStart, [line], []));
      var endId := NewId("func_end");
      var exits := BuildCompoundStmt(body, [Port(startId, "")], null, null, endId);
      ConnectPending(exits, endId);
      AddNode(Node(endId, FuncEnd, [endLine], []));
    }

    /** All functions of a file, in order. */
    method Build(fs: seq<Function>)
      requires Valid()
      modifies this
      ensures Valid() && G() == BuildAll(old(G()), fs) && edges == Edges(G().links)
    {
      for i := 0 to |fs|
        invariant Valid() && BuildAll(old(G()), fs) == BuildAll(G(), fs[i..])
      {
        assert fs[i..][0] == fs[i] && fs[i..][1..] == fs[i + 1..];
        BuildFunctionBody(fs[i].body, fs[i].line, fs[i].endLine);
      }
    }
  }

  // ---- one turn of each loop ----------------------------------------------------------------

  /** The outcome r of the remaining children, after bs and cs went to the lists. */
  function After(bs: seq<Pending>, cs: seq<Pending>, r: Out): Out {
    Out(r.g, r.exits, bs + r.breaks, cs + r.conts)
  }

  lemma {:induction false} AfterAfter(bs: seq<Pending>, cs: seq<Pending>, o: Out, r: Out)
    ensures After(bs, cs, After(o.breaks, o.conts, r)) == After(bs + o.breaks, cs + o.conts, r)
  {
    assert bs + (o.breaks + r.breaks) == bs + o.breaks + r.breaks;
    assert cs + (o.conts + r.conts) == cs + o.conts + r.conts;
  }

  lemma {:induction false} ItemsUnfold(items: seq<Item>, i: nat, sw: Id, cur: seq<Pending>, g: Graph, end: Id,
                                       bs: seq<Pending>, cs: seq<Pending>)
    requires i < |items|
    ensures var o := BuildItem(items[i], sw, cur, g, end);
            After(bs, cs, BuildItems(items[i..], sw, cur, g, end))
            == After(bs + o.breaks, cs + o.conts, BuildItems(items[i + 1..], sw, o.exits, o.g, end))
  {
    assert items[i..][1..] == items[i + 1..];
    var o := BuildItem(items[i], sw, cur, g, end);
    AfterAfter(bs, cs, o, BuildItems(items[i + 1..], sw, o.exits, o.g, end));
  }

  /** What one turn of the walk over b builds, and how many children it takes. */
  function Turn(b: seq<Stmt>, cur: seq<Pending>, g: Graph, end: Id): Out
    requires b != []
  {
    if b[0].Simple? then BuildGroup(b, cur, g) else BuildStmt(b[0], cur, g, end)
  }

  function TurnSize(b: seq<Stmt>): (n: nat)
    requires b != []
    ensures 1 <= n <= |b|
  {
    if b[0].Simple? then GroupSize(b) else 1
  }

  lemma {:induction false} ItemsNil(sw: Id, cur: seq<Pending>, g: Graph, end: Id)
    ensures BuildItems([], sw, cur, g, end) == Out(g, cur, [], [])
  {}

  lemma {:induction false} BodyNil(cur: seq<Pending>, g: Graph, end: Id)
    ensures BuildBody([], cur, g, end) == Out(g, cur, [], [])
  {}

  lemma {:induction false} TurnUnfold(body: seq<Stmt>, i: nat, cur: seq<Pending>, g: Graph, end: Id,
                                      bs: seq<Pending>, cs: seq<Pending>)
    requires i < |body|
    ensures var b := body[i..]; var o := Turn(b, cur, g, end);
            After(bs, cs, BuildBody(b, cur, g, end))
            == if !b[0].Simple? && o.exits == [] then Out(o.g, [], bs + o.breaks, cs + o.conts)
               else After(bs + o.breaks, cs + o.conts, BuildBody(body[i + TurnSize(b)..], o.exits, o.g, end))
  {
    var b := body[i..];
    assert b[TurnSize(b)..] == body[i + TurnSize(b)..];
    var o := Turn(b, cur, g, end);
    if b[0].Simple? {
      assert bs + o.breaks == bs && cs + o.conts == cs;
    } else {
      AfterAfter(bs, cs, o, BuildBody(b[1..], o.exits, o.g, end));
    }
  }
}
