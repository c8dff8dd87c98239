/** No dead nodes: in a well-formed program every node lies on a walk from start to end. */
module CfgCoverage {
  import opened Basics
  import opened CfgModel
  import opened CfgCompile
  import opened CfgShape
  import opened CfgLinear
  import opened CfgUnique
  import opened CfgSimulation
  import opened CfgTheorems

  ghost predicate Reached(f: Graph, start: Pending, q: Pending) {
    exists w :: IsTrail(f.links, start, w) && Last(start, w) == q
  }

  ghost predicate AllReached(f: Graph, start: Pending, ps: seq<Pending>) { forall p :: p in ps ==> Reached(f, start, p) }

  /** Control can be at the node, whatever is decided there. */
  ghost predicate Entered(f: Graph, start: Pending, id: Id) { forall d :: Reached(f, start, Port(id, d)) }

  ghost predicate NewEntered(f: Graph, start: Pending, g: Graph, h: Graph) {
    forall i :: |g.nodes| <= i < |h.nodes| ==> Entered(f, start, h.nodes[i].id)
  }

  ghost predicate CanFinish(f: Graph, q: Pending, end: Id) {
    exists w :: IsTrail(f.links, q, w) && Joined(f.links, Last(q, w), end)
  }

  ghost predicate AllFinish(f: Graph, ps: seq<Pending>, end: Id) { forall p :: p in ps ==> CanFinish(f, p, end) }

  ghost predicate Escapes(f: Graph, id: Id, end: Id) { exists d :: CanFinish(f, Port(id, d), end) }

  ghost predicate NewEscape(f: Graph, g: Graph, h: Graph, end: Id) {
    forall i :: |g.nodes| <= i < |h.nodes| ==> Escapes(f, h.nodes[i].id, end)
  }

  lemma {:induction false} EnterNext(f: Graph, start: Pending, p: Pending, id: Id)
    requires Reached(f, start, p) && Joined(f.links, p, id)
    ensures Entered(f, start, id)
  {
    var w :| IsTrail(f.links, start, w) && Last(start, w) == p;
    forall d ensures Reached(f, start, Port(id, d)) {
      OneStep(f, p, Port(id, d));
      GlueTrail(f.links, start, w, [Port(id, d)]);
    }
  }

  lemma {:induction false} FinishNext(f: Graph, p: Pending, q: Pending, end: Id)
    requires Joined(f.links, p, q.source) && CanFinish(f, q, end)
    ensures CanFinish(f, p, end)
  {
    var w :| IsTrail(f.links, q, w) && Joined(f.links, Last(q, w), end);
    OneStep(f, p, q);
    GlueTrail(f.links, p, [q], w);
    assert Last(p, [q] + w) == Last(q, w);
  }

  // ---- reached from the start -----------------------------------------------------------

  lemma {:induction false} PlaceEntered(g: Graph, ins: seq<Pending>, prefix: string, kind: Kind, lines: seq<nat>, cursors: seq<Stmt>,
                     f: Graph, start: Pending)
    requires Tidy(g) && Old(g, ins) && ins != [] && AllReached(f, start, ins)
    requires Extends(Place(g, ins, prefix, kind, lines, cursors), f)
    ensures Entered(f, start, Fresh(g, prefix))
  {
    Placed(g, ins, prefix, kind, lines, cursors, f, ins[0]);
    EnterNext(f, start, ins[0], Fresh(g, prefix));
  }

  lemma {:induction false} StmtReached(s: Stmt, ins: seq<Pending>, g: Graph, end: Id, f: Graph, start: Pending)
    requires Tidy(g) && Old(g, ins) && end.n <= g.counter && AllReached(f, start, ins)
    requires Extends(BuildStmt(s, ins, g, end).g, f)
    ensures var o := BuildStmt(s, ins, g, end);
            NewEntered(f, start, g, o.g) && AllReached(f, start, o.exits) && AllReached(f, start, o.breaks)
            && AllReached(f, start, o.conts)
    decreases s, 1
  {
    if ins == [] { return; }
    match s
    case Compound(body) => BodyReached(body, ins, g, end, f, start);
    case If(_, _, _) => IfReached(s, ins, g, end, f, start);
    case Loop(_, b) =>
      LoopParts(s, ins, g, end, f);
      PlaceEntered(g, ins, "loop", LoopHead, [s.src.line], [s], f, start);
      var id, h := Fresh(g, "loop"), Place(g, ins, "loop", LoopHead, [s.src.line], [s]);
      OptionReached(b, [Port(id, "true")], h, end, f, start);
    case Switch(_, _) => SwitchReached(s, ins, g, end, f, start);
    case Return(_) => PlaceEntered(g, ins, "ret", Line, [s.src.line], [s], f, start);
    case Simple(_, _) => PlaceEntered(g, ins, "line", Line, [s.src.line], [s], f, start);
    case Other(_) => PlaceEntered(g, ins, "line", Line, [s.src.line], [s], f, start);
    case _ =>
  }

  lemma {:induction false} OptionReached(s: Option<Stmt>, ins: seq<Pending>, g: Graph, end: Id, f: Graph, start: Pending)
    requires Tidy(g) && Old(g, ins) && end.n <= g.counter && AllReached(f, start, ins)
    requires Extends(BuildOption(s, ins, g, end).g, f)
    ensures var o := BuildOption(s, ins, g, end);
            NewEntered(f, start, g, o.g) && AllReached(f, start, o.exits) && AllReached(f, start, o.breaks)
            && AllReached(f, start, o.conts)
    decreases s
  {
    if s.Some? { StmtReached(s.value, ins, g, end, f, start); }
  }

  lemma {:induction false} IfReached(s: Stmt, ins: seq<Pending>, g: Graph, end: Id, f: Graph, start: Pending)
    requires s.If? && ins != []
    requires Tidy(g) && Old(g, ins) && end.n <= g.counter && AllReached(f, start, ins)
    requires Extends(BuildIf(s, ins, g, end).g, f)
    ensures var o := BuildIf(s, ins, g, end);
            NewEntered(f, start, g, o.g) && AllReached(f, start, o.exits) && AllReached(f, start, o.breaks)
            && AllReached(f, start, o.conts)
    decreases s, 0
  {
    var id, h := Fresh(g, "branch"), Place(g, ins, "branch", Branch, [s.src.line], [s]);
    PlaceGrows(g, ins, "branch", Branch, [s.src.line], [s], "true");
    var thn, els := [Port(id, "true")], [Port(id, "false")];
    OptionGrows(s.thn, thn, h, end);
    var t := BuildOption(s.thn, thn, h, end);
    OptionGrows(s.els, els, t.g, end);
    PlaceEntered(g, ins, "branch", Branch, [s.src.line], [s], f, start);
    OptionReached(s.thn, thn, h, end, f, start);
    OptionReached(s.els, els, t.g, end, f, start);
  }

  lemma {:induction false} SwitchReached(s: Stmt, ins: seq<Pending>, g: Graph, end: Id, f: Graph, start: Pending)
    requires s.Switch? && ins != []
    requires Tidy(g) && Old(g, ins) && end.n <= g.counter && AllReached(f, start, ins)
    requires Extends(BuildSwitch(s, ins, g, end).g, f)
    ensures var o := BuildSwitch(s, ins, g, end);
            NewEntered(f, start, g, o.g) && AllReached(f, start, o.exits) && AllReached(f, start, o.breaks)
            && AllReached(f, start, o.conts)
    decreases s, 0
  {
    var id, h := Fresh(g, "branch"), Place(g, ins, "branch", Branch, [s.src.line], [s]);
    PlaceGrows(g, ins, "branch", Branch, [s.src.line], [s], "");
    ItemsGrow(s.items, id, [], g, ins, h, end);
    ExtendsTrans(h, BuildItems(s.items, id, [], h, end).g, f);
    PlaceEntered(g, ins, "branch", Branch, [s.src.line], [s], f, start);
    ItemsReached(s.items, id, [], g, ins, h, end, f, start);
  }

  lemma {:induction false} BodyReached(b: seq<Stmt>, cur: seq<Pending>, g: Graph, end: Id, f: Graph, start: Pending)
    requires Tidy(g) && Old(g, cur) && end.n <= g.counter && cur != [] && AllReached(f, start, cur)
    requires Extends(BuildBody(b, cur, g, end).g, f)
    ensures var o := BuildBody(b, cur, g, end);
            NewEntered(f, start, g, o.g) && AllReached(f, start, o.exits) && AllReached(f, start, o.breaks)
            && AllReached(f, start, o.conts)
    decreases b
  {
    if b == [] { return; }
    if b[0].Simple? {
      var n, o := GroupSize(b), BuildGroup(b, cur, g);
      GroupGrows(b, cur, g);
      OldExits(g, cur, o);
      BodyGrows(b[n..], o.exits, o.g, end);
      ExtendsTrans(o.g, BuildBody(b[n..], o.exits, o.g, end).g, f);
      GroupReached(b, cur, g, f, start);
      BodyReached(b[n..], o.exits, o.g, end, f, start);
    } else {
      var o := BuildStmt(b[0], cur, g, end);
      StmtGrows(b[0], cur, g, end);
      OldExits(g, cur, o);
      if o.exits != [] {
        BodyGrows(b[1..], o.exits, o.g, end);
        ExtendsTrans(o.g, BuildBody(b[1..], o.exits, o.g, end).g, f);
      }
      StmtReached(b[0], cur, g, end, f, start);
      if o.exits != [] { BodyReached(b[1..], o.exits, o.g, end, f, start); }
    }
  }

  lemma {:induction false} GroupReached(b: seq<Stmt>, cur: seq<Pending>, g: Graph, f: Graph, start: Pending)
    requires b != [] && b[0].Simple?
    requires Tidy(g) && Old(g, cur) && cur != [] && AllReached(f, start, cur)
    requires Extends(BuildGroup(b, cur, g).g, f)
    ensures var o := BuildGroup(b, cur, g);
            NewEntered(f, start, g, o.g) && o.exits != [] && AllReached(f, start, o.exits)
  {
    var group := b[..GroupSize(b)];
    if b[0].call {
      PlaceEntered(g, cur, "call", FuncCall, LinesOf(group), group, f, start);
    } else if LinesOf(group) != [] {
      PlaceEntered(g, cur, "line", Line, LinesOf(group), group, f, start);
    }
  }

  lemma {:induction false} ItemReached(it: Item, sw: Id, cur: seq<Pending>, g: Graph, end: Id, f: Graph, start: Pending)
    requires Tidy(g) && Old(g, cur) && sw.n <= g.counter && end.n <= g.counter
    requires AllReached(f, start, cur) && Entered(f, start, sw)
    requires Extends(BuildItem(it, sw, cur, g, end).g, f)
    ensures var o := BuildItem(it, sw, cur, g, end);
            NewEntered(f, start, g, o.g) && AllReached(f, start, o.exits) && AllReached(f, start, o.breaks)
            && AllReached(f, start, o.conts)
    decreases it
  {
    OptionReached(it.first, Entering(it, sw, cur), g, end, f, start);
  }

  lemma {:induction false} ItemsReached(items: seq<Item>, sw: Id, cur: seq<Pending>, g0: Graph, ins: seq<Pending>,
                                        g: Graph, end: Id, f: Graph, start: Pending)
    requires Tidy(g) && Old(g, cur) && end.n <= g.counter
    requires Grown(g0, ins, Out(g, cur, [], [])) && g0.counter < sw.n <= g.counter
    requires AllReached(f, start, cur) && Entered(f, start, sw)
    requires Extends(BuildItems(items, sw, cur, g, end).g, f)
    ensures var o := BuildItems(items, sw, cur, g, end);
            NewEntered(f, start, g, o.g) && AllReached(f, start, o.exits) && AllReached(f, start, o.breaks)
            && AllReached(f, start, o.conts)
    decreases items
  {
    if items == [] { return; }
    ItemsStep(items, sw, cur, g0, ins, g, end);
    var o := BuildItem(items[0], sw, cur, g, end);
    ExtendsTrans(o.g, BuildItems(items, sw, cur, g, end).g, f);
    ItemReached(items[0], sw, cur, g, end, f, start);
    ItemsReached(items[1..], sw, o.exits, g0, ins, o.g, end, f, start);
  }

  // ---- able to finish -------------------------------------------------------------------

  lemma {:induction false} PlaceFinishes(g: Graph, ins: seq<Pending>, prefix: string, kind: Kind, lines: seq<nat>, cursors: seq<Stmt>,
                      f: Graph, d: string, end: Id)
    requires Tidy(g) && Old(g, ins) && CanFinish(f, Port(Fresh(g, prefix), d), end)
    requires Extends(Place(g, ins, prefix, kind, lines, cursors), f)
    ensures AllFinish(f, ins, end) && Escapes(f, Fresh(g, prefix), end)
  {
    forall p | p in ins ensures CanFinish(f, p, end) {
      Placed(g, ins, prefix, kind, lines, cursors, f, p);
      FinishNext(f, p, Port(Fresh(g, prefix), d), end);
    }
  }

  ghost predicate OutsFinish(f: Graph, o: Out, end: Id) {
    AllFinish(f, o.exits, end) && AllFinish(f, o.breaks, end) && AllFinish(f, o.conts, end)
  }

  lemma {:induction false} StmtFinishes(s: Stmt, ins: seq<Pending>, g: Graph, end: Id, f: Graph)
    requires Tidy(g) && Old(g, ins) && end.n <= g.counter
    requires Extends(BuildStmt(s, ins, g, end).g, f) && OutsFinish(f, BuildStmt(s, ins, g, end), end)
    ensures AllFinish(f, ins, end) && NewEscape(f, g, BuildStmt(s, ins, g, end).g, end)
    decreases s, 1
  {
    if ins == [] { return; }
    match s
    case Compound(body) => BodyFinishes(body, ins, g, end, f);
    case If(_, _, _) => IfFinishes(s, ins, g, end, f);
    case Loop(_, _) => LoopFinishes(s, ins, g, end, f);
    case Switch(_, _) => SwitchFinishes(s, ins, g, end, f);
    case Return(_) => ReturnFinishes(s, ins, g, end, f);
    case Simple(_, _) => PlaceFinishes(g, ins, "line", Line, [s.src.line], [s], f, "", end);
    case Other(_) => PlaceFinishes(g, ins, "line", Line, [s.src.line], [s], f, "", end);
    case _ =>
  }

  lemma {:induction false} OptionFinishes(s: Option<Stmt>, ins: seq<Pending>, g: Graph, end: Id, f: Graph)
    requires Tidy(g) && Old(g, ins) && end.n <= g.counter
    requires Extends(BuildOption(s, ins, g, end).g, f) && OutsFinish(f, BuildOption(s, ins, g, end), end)
    ensures AllFinish(f, ins, end) && NewEscape(f, g, BuildOption(s, ins, g, end).g, end)
    decreases s
  {
    if s.Some? { StmtFinishes(s.value, ins, g, end, f); }
  }

  lemma {:induction false} ReturnFinishes(s: Stmt, ins: seq<Pending>, g: Graph, end: Id, f: Graph)
    requires s.Return?
    requires Tidy(g) && Old(g, ins) && end.n <= g.counter && Extends(BuildReturn(s, ins, g, end).g, f)
    ensures AllFinish(f, ins, end) && NewEscape(f, g, BuildReturn(s, ins, g, end).g, end)
  {
    var q := Port(Fresh(g, "ret"), "");
    LinkHolds(BuildReturn(s, ins, g, end).g, f, Link(q, end, "", false));
    assert IsTrail(f.links, q, []) && Last(q, []) == q;
    PlaceFinishes(g, ins, "ret", Line, [s.src.line], [s], f, "", end);
  }

  lemma {:induction false} IfFinishes(s: Stmt, ins: seq<Pending>, g: Graph, end: Id, f: Graph)
    requires s.If?
    requires Tidy(g) && Old(g, ins) && end.n <= g.counter
    requires Extends(BuildIf(s, ins, g, end).g, f) && OutsFinish(f, BuildIf(s, ins, g, end), end)
    ensures AllFinish(f, ins, end) && NewEscape(f, g, BuildIf(s, ins, g, end).g, end)
    decreases s, 0
  {
    var id, h := Fresh(g, "branch"), Place(g, ins, "branch", Branch, [s.src.line], [s]);
    PlaceGrows(g, ins, "branch", Branch, [s.src.line], [s], "true");
    var thn, els := [Port(id, "true")], [Port(id, "false")];
    OptionGrows(s.thn, thn, h, end);
    var t := BuildOption(s.thn, thn, h, end);
    OptionGrows(s.els, els, t.g, end);
    OptionFinishes(s.els, els, t.g, end, f);
    OptionFinishes(s.thn, thn, h, end, f);
    PlaceFinishes(g, ins, "branch", Branch, [s.src.line], [s], f, "true", end);
  }

  lemma {:induction false} LoopFinishes(s: Stmt, ins: seq<Pending>, g: Graph, end: Id, f: Graph)
    requires s.Loop?
    requires Tidy(g) && Old(g, ins) && end.n <= g.counter
    requires Extends(BuildLoop(s, ins, g, end).g, f) && OutsFinish(f, BuildLoop(s, ins, g, end), end)
    ensures AllFinish(f, ins, end) && NewEscape(f, g, BuildLoop(s, ins, g, end).g, end)
    decreases s, 0
  {
    LoopParts(s, ins, g, end, f);
    var id, h := Fresh(g, "loop"), Place(g, ins, "loop", LoopHead, [s.src.line], [s]);
    var into, past := [Port(id, "true")], Port(id, "false");
    var b := BuildOption(s.lbody, into, h, end);
    assert past in BuildLoop(s, ins, g, end).exits;
    forall p | p in b.exits || p in b.conts ensures CanFinish(f, p, end) { FinishNext(f, p, past, end); }
    OptionFinishes(s.lbody, into, h, end, f);
    PlaceFinishes(g, ins, "loop", LoopHead, [s.src.line], [s], f, "false", end);
  }

  lemma {:induction false} SwitchFinishes(s: Stmt, ins: seq<Pending>, g: Graph, end: Id, f: Graph)
    requires s.Switch?
    requires Tidy(g) && Old(g, ins) && end.n <= g.counter
    requires Extends(BuildSwitch(s, ins, g, end).g, f) && OutsFinish(f, BuildSwitch(s, ins, g, end), end)
    ensures AllFinish(f, ins, end) && NewEscape(f, g, BuildSwitch(s, ins, g, end).g, end)
    decreases s, 0
  {
    var id, h := Fresh(g, "branch"), Place(g, ins, "branch", Branch, [s.src.line], [s]);
    PlaceGrows(g, ins, "branch", Branch, [s.src.line], [s], "");
    ItemsGrow(s.items, id, [], g, ins, h, end);
    ExtendsTrans(h, BuildItems(s.items, id, [], h, end).g, f);
    ItemsFinish(s.items, id, [], g, ins, h, end, f);
    if HasDefault(s.items) {
      DefaultLabelled(s.items);
    } else {
      assert Port(id, "default") in BuildSwitch(s, ins, g, end).exits;
    }
    PlaceFinishes(g, ins, "branch", Branch, [s.src.line], [s], f, "default", end);
  }

  lemma {:induction false} DefaultLabelled(items: seq<Item>)
    requires HasDefault(items)
    ensures "default" in Labels(items)
  {
    if !items[0].lab.Default? { DefaultLabelled(items[1..]); }
  }

  lemma {:induction false} BodyFinishes(b: seq<Stmt>, cur: seq<Pending>, g: Graph, end: Id, f: Graph)
    requires Tidy(g) && Old(g, cur) && end.n <= g.counter
    requires Extends(BuildBody(b, cur, g, end).g, f) && OutsFinish(f, BuildBody(b, cur, g, end), end)
    ensures AllFinish(f, cur, end) && NewEscape(f, g, BuildBody(b, cur, g, end).g, end)
    decreases b
  {
    if b == [] { return; }
    if b[0].Simple? {
      var n, o := GroupSize(b), BuildGroup(b, cur, g);
      GroupGrows(b, cur, g);
      OldExits(g, cur, o);
      BodyGrows(b[n..], o.exits, o.g, end);
      ExtendsTrans(o.g, BuildBody(b[n..], o.exits, o.g, end).g, f);
      BodyFinishes(b[n..], o.exits, o.g, end, f);
      GroupFinishes(b, cur, g, f, end);
    } else {
      var o := BuildStmt(b[0], cur, g, end);
      StmtGrows(b[0], cur, g, end);
      OldExits(g, cur, o);
      if o.exits != [] {
        BodyGrows(b[1..], o.exits, o.g, end);
        ExtendsTrans(o.g, BuildBody(b[1..], o.exits, o.g, end).g, f);
        BodyFinishes(b[1..], o.exits, o.g, end, f);
      }
      StmtFinishes(b[0], cur, g, end, f);
    }
  }

  lemma {:induction false} GroupFinishes(b: seq<Stmt>, cur: seq<Pending>, g: Graph, f: Graph, end: Id)
    requires b != [] && b[0].Simple?
    requires Tidy(g) && Old(g, cur)
    requires Extends(BuildGroup(b, cur, g).g, f) && AllFinish(f, BuildGroup(b, cur, g).exits, end)
    ensures AllFinish(f, cur, end) && NewEscape(f, g, BuildGroup(b, cur, g).g, end)
  {
    var group := b[..GroupSize(b)];
    if b[0].call {
      PlaceFinishes(g, cur, "call", FuncCall, LinesOf(group), group, f, "", end);
    } else if LinesOf(group) != [] {
      PlaceFinishes(g, cur, "line", Line, LinesOf(group), group, f, "", end);
    }
  }

  lemma {:induction false} ItemFinishes(it: Item, sw: Id, cur: seq<Pending>, g: Graph, end: Id, f: Graph)
    requires Tidy(g) && Old(g, cur) && sw.n <= g.counter && end.n <= g.counter
    requires Extends(BuildItem(it, sw, cur, g, end).g, f) && OutsFinish(f, BuildItem(it, sw, cur, g, end), end)
    ensures AllFinish(f, Entering(it, sw, cur), end) && NewEscape(f, g, BuildItem(it, sw, cur, g, end).g, end)
    decreases it
  {
    OptionFinishes(it.first, Entering(it, sw, cur), g, end, f);
  }

  lemma {:induction false} ItemsFinish(items: seq<Item>, sw: Id, cur: seq<Pending>, g0: Graph, ins: seq<Pending>,
                                       g: Graph, end: Id, f: Graph)
    requires Tidy(g) && Old(g, cur) && end.n <= g.counter
    requires Grown(g0, ins, Out(g, cur, [], [])) && g0.counter < sw.n <= g.counter
    requires Extends(BuildItems(items, sw, cur, g, end).g, f) && OutsFinish(f, BuildItems(items, sw, cur, g, end), end)
    ensures AllFinish(f, cur, end) && NewEscape(f, g, BuildItems(items, sw, cur, g, end).g, end)
    ensures forall d :: d in Labels(items) ==> CanFinish(f, Port(sw, d), end)
    decreases items
  {
    if items == [] { return; }
    ItemsStep(items, sw, cur, g0, ins, g, end);
    var o := BuildItem(items[0], sw, cur, g, end);
    var r := BuildItems(items[1..], sw, o.exits, o.g, end);
    ExtendsTrans(o.g, r.g, f);
    ItemsFinish(items[1..], sw, o.exits, g0, ins, o.g, end, f);
    ItemFinishes(items[0], sw, cur, g, end, f);
    assert forall p :: p in cur ==> p in Entering(items[0], sw, cur);
    if !items[0].lab.NoLabel? {
      assert Port(sw, LabelText(items[0].lab)) in Entering(items[0], sw, cur);
      assert Labels(items) == [LabelText(items[0].lab)] + Labels(items[1..]);
    }
  }

  // ---- the theorem -----------------------------------------------------------------------

  ghost predicate OnAWalk(g: Graph, start: Id, end: Id, id: Id) {
    exists v: seq<Pos> :: IsWalk(g.nodes, Edges(g.links), Pos(start, ""), v, end)
                && (id == start || exists j :: 0 <= j < |v| && v[j].at == id)
  }

  lemma {:induction false} WalkVisits(w: seq<Pending>, end: Id, j: nat)
    requires j < |w|
    ensures j < |WalkOf(w, end)| && WalkOf(w, end)[j] == PosOf(w[j])
  {
    if j > 0 { WalkVisits(w[1..], end, j - 1); }
  }

  /** Both halves joined into one walk through q's node. */
  lemma {:induction false} HalvesJoin(g: Graph, start: Id, q: Pending, end: Id)
    requires Settled(g) && IsEnd(g, end)
    requires Reached(g, Port(start, ""), q) && CanFinish(g, q, end)
    ensures OnAWalk(g, start, end, q.source)
  {
    var p := Port(start, "");
    var a :| IsTrail(g.links, p, a) && Last(p, a) == q;
    var b :| IsTrail(g.links, q, b) && Joined(g.links, Last(q, b), end);
    GlueTrail(g.links, p, a, b);
    TrailWalks(g, p, a + b, end);
    var v := WalkOf(a + b, end);
    assert IsWalk(g.nodes, Edges(g.links), Pos(start, ""), v, end);
    if q.source != start {
      WalkVisits(a + b, end, |a| - 1);
      assert (a + b)[|a| - 1] == q;
      assert v[|a| - 1].at == q.source;
    }
  }

  lemma {:induction false} NodeOnAWalk(g: Graph, h: Graph, f: Function, i: nat)
    requires Contains(g, h, f)
    requires |h.nodes| <= i < |BuildFunction(h, f.body, f.line, f.endLine).nodes|
    ensures OnAWalk(g, StartId(h), EndId(h), BuildFunction(h, f.body, f.line, f.endLine).nodes[i].id)
  {
    var fin, o, h0 := BuildFunction(h, f.body, f.line, f.endLine), BuiltBody(h, f.body, f.line), Opened(h, f.line);
    var p, end, id := Port(StartId(h), ""), EndId(h), fin.nodes[i].id;
    OpenedGrows(h, f.line);
    FunctionGrows(h, f.body, f.line, f.endLine);
    ExtendsTrans(o.g, fin, g);
    NodeExtends(fin, g, end);
    assert IsTrail(g.links, p, []) && Last(p, []) == p;
    BodyReached(f.body, [p], h0, end, g, p);
    JumpsEmpty(g, h, f);
    forall q | q in o.exits ensures Joined(g.links, q, end) {
      var k :| 0 <= k < |o.exits| && o.exits[k] == q;
      assert Joins(o.exits, end)[k] == fin.links[|o.g.links| + k];
      LinkHolds(fin, g, Link(q, end, q.tag, false));
    }
    forall q | q in o.exits ensures CanFinish(g, q, end) {
      assert IsTrail(g.links, q, []) && Last(q, []) == q;
    }
    BodyFinishes(f.body, [p], h0, end, g);
    if i == |h.nodes| {
      assert p in [p];
      HalvesJoin(g, StartId(h), p, end);
    } else if i < |o.g.nodes| {
      assert Entered(g, p, id) && Escapes(g, id, end);
      var d :| CanFinish(g, Port(id, d), end);
      HalvesJoin(g, StartId(h), Port(id, d), end);
    } else {
      assert p in [p];
      HalvesJoin(g, StartId(h), p, end);
      var v: seq<Pos> :| IsWalk(g.nodes, Edges(g.links), Pos(StartId(h), ""), v, end);
      LastIsEnd(g, Pos(StartId(h), ""), v, end);
      assert v[|v| - 1].at == id;
    }
  }

  lemma {:induction false} JumpsEmpty(g: Graph, h: Graph, f: Function)
    requires Contains(g, h, f)
    ensures BuiltBody(h, f.body, f.line).breaks == [] && BuiltBody(h, f.body, f.line).conts == []
  {
    FunctionGrows(h, f.body, f.line, f.endLine);
    var h0 := Opened(h, f.line);
    forall n | n in h0.nodes ensures GoodNode(n) {
      if n in h.nodes { assert n in g.nodes; }
    }
    BodyGood(f.body, [Port(StartId(h), "")], h0, EndId(h), false, false);
  }

  lemma {:induction false} LastIsEnd(g: Graph, p: Pos, v: seq<Pos>, end: Id)
    requires IsWalk(g.nodes, Edges(g.links), p, v, end)
    ensures v[|v| - 1] == Pos(end, "")
    decreases |v|
  {
    if |v| > 1 { LastIsEnd(g, v[0], v[1..], end); }
  }

  /** For every function of a well-formed program, each of its nodes is on a walk from start to end. */
  lemma {:induction false} EveryNodeOnAWalk(fs: seq<Function>, k: nat, i: nat)
    requires k < |fs| && WellFormedAll(fs)
    requires |Before(fs, k).nodes| <= i < |Before(fs, k + 1).nodes|
    ensures var g, h := BuildAll(EMPTY, fs), Before(fs, k);
            OnAWalk(g, StartId(h), EndId(h), Before(fs, k + 1).nodes[i].id)
  {
    FunctionContained(fs, k);
    assert fs[..k + 1] == fs[..k] + [fs[k]];
    BuildAllSplit(EMPTY, fs[..k], [fs[k]]);
    var h := Before(fs, k);
    assert BuildAll(h, [fs[k]]) == BuildFunction(h, fs[k].body, fs[k].line, fs[k].endLine);
    NodeOnAWalk(BuildAll(EMPTY, fs), h, fs[k], i);
  }
}
