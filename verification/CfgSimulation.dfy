/** Structured execution is followed, step for step, along the links of the graph. */
module CfgSimulation {
  import opened Basics
  import opened CfgModel
  import opened CfgSemantics
  import opened CfgCompile
  import opened CfgShape

  predicate Joined(links: seq<Link>, p: Pending, t: Id) {
    exists l :: l in links && l.from == p && l.target == t
  }

  /** From branch p on: each element names the node arrived at and the branch taken out of it. */
  predicate IsTrail(links: seq<Link>, p: Pending, w: seq<Pending>)
    decreases |w|
  {
    w == [] || (Joined(links, p, w[0].source) && IsTrail(links, w[0], w[1..]))
  }

  function Last(p: Pending, w: seq<Pending>): Pending { if w == [] then p else w[|w| - 1] }

  function NodeAtoms(nodes: seq<Node>, id: Id): seq<Atom> {
    var n := NodeOf(nodes, id);
    if n.Some? then ObsAll(n.value.cursors) else []
  }

  function Seen(nodes: seq<Node>, w: seq<Pending>): seq<Atom> {
    if w == [] then [] else NodeAtoms(nodes, w[0].source) + Seen(nodes, w[1..])
  }

  function Decided(w: seq<Pending>): seq<string> {
    if w == [] then [] else (if Dec(w[0]) == "" then [] else [Dec(w[0])]) + Decided(w[1..])
  }

  /** Control waits at p's node, which must decide and cannot on what is left. */
  predicate Stuck(nodes: seq<Node>, p: Pending, rest: seq<string>) {
    var n := NodeOf(nodes, p.source);
    && p == Port(p.source, "")
    && n.Some? && n.value.kind != FuncEnd && "" !in Choices(n.value) && (rest == [] || rest[0] !in Choices(n.value))
  }

  /** Where a run of a statement built as o leaves control. */
  predicate Lands(f: Graph, o: Out, end: Id, r: Run, p: Pending) {
    match r.out
    case Normal => p in o.exits
    case Broke => p in o.breaks
    case Continued => p in o.conts
    case Returned => Joined(f.links, p, end)
    case Halted => Stuck(f.nodes, p, r.rest)
  }

  /** The trail w from p mirrors the run r on decisions ds. */
  predicate Mirrors(f: Graph, p: Pending, w: seq<Pending>, ds: seq<string>, r: Run) {
    IsTrail(f.links, p, w) && Seen(f.nodes, w) == r.atoms && Decided(w) + r.rest == ds
  }

  // ---- trails ------------------------------------------------------------------------------

  lemma {:induction false} GlueTrail(links: seq<Link>, p: Pending, a: seq<Pending>, b: seq<Pending>)
    requires IsTrail(links, p, a) && IsTrail(links, Last(p, a), b)
    ensures IsTrail(links, p, a + b) && Last(p, a + b) == Last(Last(p, a), b)
    decreases |a|
  {
    if a == [] {
      assert a + b == b;
    } else {
      assert (a + b)[1..] == a[1..] + b;
      GlueTrail(links, a[0], a[1..], b);
    }
  }

  lemma {:induction false} GlueSeen(nodes: seq<Node>, a: seq<Pending>, b: seq<Pending>)
    ensures Seen(nodes, a + b) == Seen(nodes, a) + Seen(nodes, b)
  {
    if a == [] {
      assert a + b == b;
    } else {
      assert (a + b)[1..] == a[1..] + b;
      GlueSeen(nodes, a[1..], b);
    }
  }

  lemma {:induction false} GlueDecided(a: seq<Pending>, b: seq<Pending>)
    ensures Decided(a + b) == Decided(a) + Decided(b)
  {
    if a == [] {
      assert a + b == b;
    } else {
      assert (a + b)[1..] == a[1..] + b;
      GlueDecided(a[1..], b);
    }
  }

  /** Two runs one after the other are mirrored by the two trails joined. */
  lemma {:induction false} Sequence(f: Graph, p: Pending, a: seq<Pending>, ds: seq<string>, r: Run, b: seq<Pending>, s: Run)
    requires Mirrors(f, p, a, ds, r) && Mirrors(f, Last(p, a), b, r.rest, s)
    ensures Mirrors(f, p, a + b, ds, Prefixed(r.atoms, s)) && Last(p, a + b) == Last(Last(p, a), b)
  {
    GlueTrail(f.links, p, a, b);
    GlueSeen(f.nodes, a, b);
    GlueDecided(a, b);
    assert Decided(a) + (Decided(b) + s.rest) == Decided(a) + Decided(b) + s.rest;
  }

  /** Stepping into a node that decides nothing, or at which control stays. */
  lemma {:induction false} Arrive(f: Graph, p: Pending, id: Id, ds: seq<string>, s: Stmt, out: Outcome)
    requires Joined(f.links, p, id)
    requires NodeOf(f.nodes, id).Some? && NodeOf(f.nodes, id).value.cursors == [s]
    ensures Mirrors(f, p, [Port(id, "")], ds, Run(Obs(s), ds, out))
  {
    OneStep(f, p, Port(id, ""));
    assert ObsAll([s]) == Obs(s);
  }

  /** Stepping into a node, deciding d there and going on along w. */
  lemma {:induction false} Choose(f: Graph, p: Pending, id: Id, ds: seq<string>, s: Stmt, w: seq<Pending>, r: Run)
    requires Joined(f.links, p, id) && ds != [] && ds[0] != ""
    requires NodeOf(f.nodes, id).Some? && NodeOf(f.nodes, id).value.cursors == [s]
    requires Mirrors(f, Port(id, ds[0]), w, ds[1..], r)
    ensures var q := Port(id, ds[0]);
            Mirrors(f, p, [q] + w, ds, Prefixed(Obs(s), r)) && Last(p, [q] + w) == Last(q, w)
  {
    var q := Port(id, ds[0]);
    OneStep(f, p, q);
    assert ObsAll([s]) == Obs(s);
    assert [ds[0]] + ds[1..] == ds;
    Sequence(f, p, [q], ds, Run(Obs(s), ds[1..], Normal), w, r);
  }

  lemma {:induction false} OneStep(f: Graph, p: Pending, q: Pending)
    requires Joined(f.links, p, q.source)
    ensures IsTrail(f.links, p, [q]) && Seen(f.nodes, [q]) == NodeAtoms(f.nodes, q.source)
    ensures Decided([q]) == if Dec(q) == "" then [] else [Dec(q)]
  {
    var w := [q];
    assert w[1..] == [];
    assert IsTrail(f.links, q, w[1..]);
    assert Seen(f.nodes, w) == NodeAtoms(f.nodes, q.source) + Seen(f.nodes, w[1..]);
  }

  lemma {:induction false} ExtendsTrans(g: Graph, h: Graph, f: Graph)
    requires Extends(g, h) && Extends(h, f)
    ensures Extends(g, f)
  {}

  lemma {:induction false} LinkHolds(g: Graph, f: Graph, l: Link)
    requires Extends(g, f) && l in g.links
    ensures Joined(f.links, l.from, l.target)
  {
    var i :| 0 <= i < |g.links| && g.links[i] == l;
    assert f.links[i] == l;
  }

  /** A node just placed is joined to every incoming branch, now and later. */
  lemma {:induction false} Placed(g: Graph, ins: seq<Pending>, prefix: string, kind: Kind, lines: seq<nat>, cursors: seq<Stmt>,
               f: Graph, p: Pending)
    requires Tidy(g) && Old(g, ins) && p in ins
    requires Extends(Place(g, ins, prefix, kind, lines, cursors), f)
    ensures var id := Fresh(g, prefix);
            Joined(f.links, p, id) && NodeOf(f.nodes, id) == Some(Node(id, kind, lines, cursors))
  {
    var h, id := Place(g, ins, prefix, kind, lines, cursors), Fresh(g, prefix);
    PlaceGrows(g, ins, prefix, kind, lines, cursors, "");
    NodeExtends(h, f, id);
    var i :| 0 <= i < |ins| && ins[i] == p;
    assert Joins(ins, id)[i] == h.links[|g.links| + i];
    LinkHolds(h, f, Link(p, id, p.tag, false));
  }

  // ---- statements -----------------------------------------------------------------------

  lemma {:induction false} SimStmt(s: Stmt, ins: seq<Pending>, g: Graph, end: Id, f: Graph, p: Pending, ds: seq<string>)
    returns (w: seq<Pending>)
    requires Tidy(g) && Old(g, ins) && end.n <= g.counter && p in ins
    requires Extends(BuildStmt(s, ins, g, end).g, f)
    ensures Mirrors(f, p, w, ds, Exec(s, ds)) && Lands(f, BuildStmt(s, ins, g, end), end, Exec(s, ds), Last(p, w))
    decreases |ds|, s, 2
  {
    match s
    case Compound(body) => w := SimBody(body, ins, g, end, f, p, ds);
    case If(_, _, _) => w := SimIf(s, ins, g, end, f, p, ds);
    case Loop(_, _) => w := SimLoop(s, ins, g, end, f, p, ds);
    case Switch(_, _) => w := SimSwitch(s, ins, g, end, f, p, ds);
    case Return(_) =>
      var id := Fresh(g, "ret");
      Placed(g, ins, "ret", Line, [s.src.line], [s], f, p);
      Arrive(f, p, id, ds, s, Returned);
      LinkHolds(BuildReturn(s, ins, g, end).g, f, Link(Port(id, ""), end, "", false));
      w := [Port(id, "")];
    case Simple(_, _) => w := SimLine(s, ins, g, f, p, ds);
    case Other(_) => w := SimLine(s, ins, g, f, p, ds);
    case _ => w := [];
  }

  lemma {:induction false} SimOption(s: Option<Stmt>, ins: seq<Pending>, g: Graph, end: Id, f: Graph, p: Pending, ds: seq<string>)
    returns (w: seq<Pending>)
    requires Tidy(g) && Old(g, ins) && end.n <= g.counter && p in ins
    requires Extends(BuildOption(s, ins, g, end).g, f)
    ensures Mirrors(f, p, w, ds, ExecOption(s, ds))
            && Lands(f, BuildOption(s, ins, g, end), end, ExecOption(s, ds), Last(p, w))
    decreases |ds|, s
  {
    if s.Some? { w := SimStmt(s.value, ins, g, end, f, p, ds); } else { w := []; }
  }

  lemma {:induction false} SimLine(s: Stmt, ins: seq<Pending>, g: Graph, f: Graph, p: Pending, ds: seq<string>) returns (w: seq<Pending>)
    requires s.Simple? || s.Other?
    requires Tidy(g) && Old(g, ins) && p in ins && Extends(BuildLine(s, ins, g).g, f)
    ensures Mirrors(f, p, w, ds, Run(Obs(s), ds, Normal)) && Last(p, w) in BuildLine(s, ins, g).exits
  {
    var id := Fresh(g, "line");
    Placed(g, ins, "line", Line, [s.src.line], [s], f, p);
    Arrive(f, p, id, ds, s, Normal);
    w := [Port(id, "")];
  }

  lemma {:induction false} SimIf(s: Stmt, ins: seq<Pending>, g: Graph, end: Id, f: Graph, p: Pending, ds: seq<string>)
    returns (w: seq<Pending>)
    requires s.If?
    requires Tidy(g) && Old(g, ins) && end.n <= g.counter && p in ins
    requires Extends(BuildIf(s, ins, g, end).g, f)
    ensures Mirrors(f, p, w, ds, ExecIf(s, ds)) && Lands(f, BuildIf(s, ins, g, end), end, ExecIf(s, ds), Last(p, w))
    decreases |ds|, s, 1
  {
    var id := Fresh(g, "branch");
    var h := Place(g, ins, "branch", Branch, [s.src.line], [s]);
    PlaceGrows(g, ins, "branch", Branch, [s.src.line], [s], "true");
    var thn, els := [Port(id, "true")], [Port(id, "false")];
    OptionGrows(s.thn, thn, h, end);
    var t := BuildOption(s.thn, thn, h, end);
    OptionGrows(s.els, els, t.g, end);
    var e := BuildOption(s.els, els, t.g, end);
    Placed(g, ins, "branch", Branch, [s.src.line], [s], f, p);
    if !IsTruth(ds) {
      Arrive(f, p, id, ds, s, Halted);
      w := [Port(id, "")];
    } else {
      var q := Port(id, ds[0]);
      if ds[0] == "true" {
        w := SimOption(s.thn, thn, h, end, f, q, ds[1..]);
        Choose(f, p, id, ds, s, w, ExecOption(s.thn, ds[1..]));
      } else {
        w := SimOption(s.els, els, t.g, end, f, q, ds[1..]);
        Choose(f, p, id, ds, s, w, ExecOption(s.els, ds[1..]));
      }
      w := [q] + w;
    }
  }

  /** What the later graph f still holds of a loop: its header, its body, its latches. */
  lemma {:induction false} LoopParts(s: Stmt, ins: seq<Pending>, g: Graph, end: Id, f: Graph)
    requires s.Loop?
    requires Tidy(g) && Old(g, ins) && end.n <= g.counter
    requires Extends(BuildLoop(s, ins, g, end).g, f)
    ensures var h := Place(g, ins, "loop", LoopHead, [s.src.line], [s]);
            var into := [Port(Fresh(g, "loop"), "true")];
            var b := BuildOption(s.lbody, into, h, end);
            && Tidy(h) && Old(h, into) && Extends(h, f) && Extends(b.g, f)
            && (forall p :: p in b.exits || p in b.conts ==> Joined(f.links, p, Fresh(g, "loop")))
            && NodeOf(f.nodes, Fresh(g, "loop")) == Some(Node(Fresh(g, "loop"), LoopHead, [s.src.line], [s]))
  {
    var id := Fresh(g, "loop");
    var h := Place(g, ins, "loop", LoopHead, [s.src.line], [s]);
    PlaceGrows(g, ins, "loop", LoopHead, [s.src.line], [s], "true");
    OptionGrows(s.lbody, [Port(id, "true")], h, end);
    var b := BuildOption(s.lbody, [Port(id, "true")], h, end);
    NodeExtends(h, f, id);
    var back := Latches(b.conts, id, b.g.nodes, false);
    var g1 := Linked(b.g, back);
    LatchesHold(b.conts, id, b.g, false, f);
    LatchesHold(b.exits, id, g1, true, f);
  }

  lemma {:induction false} SimLoop(s: Stmt, ins: seq<Pending>, g: Graph, end: Id, f: Graph, p: Pending, ds: seq<string>)
    returns (w: seq<Pending>)
    requires s.Loop?
    requires Tidy(g) && Old(g, ins) && end.n <= g.counter && p in ins
    requires Extends(BuildLoop(s, ins, g, end).g, f)
    ensures Mirrors(f, p, w, ds, ExecLoop(s, ds))
            && Lands(f, BuildLoop(s, ins, g, end), end, ExecLoop(s, ds), Last(p, w))
    decreases |ds|, s, 1
  {
    LoopParts(s, ins, g, end, f);
    Placed(g, ins, "loop", LoopHead, [s.src.line], [s], f, p);
    w := SimTrips(s, Fresh(g, "loop"), Place(g, ins, "loop", LoopHead, [s.src.line], [s]), end, f, p, ds);
  }

  lemma {:induction false} LatchesHold(ps: seq<Pending>, head: Id, g: Graph, blankLoops: bool, f: Graph)
    requires Extends(Linked(g, Latches(ps, head, g.nodes, blankLoops)), f)
    ensures forall p :: p in ps ==> Joined(f.links, p, head)
  {
    var back := Latches(ps, head, g.nodes, blankLoops);
    forall p | p in ps ensures Joined(f.links, p, head) {
      var i :| 0 <= i < |ps| && ps[i] == p;
      assert (g.links + back)[|g.links| + i] == back[i];
      LinkHolds(Linked(g, back), f, back[i]);
    }
  }

  /** Where a run of a loop leaves control, by its header and its body's breaks. */
  predicate LeavesLoop(f: Graph, head: Id, b: Out, end: Id, r: Run, p: Pending) {
    match r.out
    case Normal => p == Port(head, "false") || p in b.breaks
    case Returned => Joined(f.links, p, end)
    case Halted => Stuck(f.nodes, p, r.rest)
    case _ => false
  }

  /** Any arrival at the header is mirrored, trip after trip. */
  lemma {:induction false} SimTrips(s: Stmt, id: Id, h: Graph, end: Id, f: Graph, p: Pending, ds: seq<string>)
    returns (w: seq<Pending>)
    requires s.Loop? && Joined(f.links, p, id)
    requires NodeOf(f.nodes, id) == Some(Node(id, LoopHead, [s.src.line], [s]))
    requires Tidy(h) && id.n <= h.counter && end.n <= h.counter
    requires var b := BuildOption(s.lbody, [Port(id, "true")], h, end);
             Extends(b.g, f) && (forall q :: q in b.exits || q in b.conts ==> Joined(f.links, q, id))
    ensures Mirrors(f, p, w, ds, ExecLoop(s, ds))
            && LeavesLoop(f, id, BuildOption(s.lbody, [Port(id, "true")], h, end), end, ExecLoop(s, ds), Last(p, w))
    decreases |ds|, s, 0
  {
    if !IsTruth(ds) {
      Arrive(f, p, id, ds, s, Halted);
      w := [Port(id, "")];
    } else if ds[0] == "false" {
      Choose(f, p, id, ds, s, [], Run([], ds[1..], Normal));
      w := [Port(id, "false")];
    } else {
      var q := Port(id, "true");
      var r := ExecOption(s.lbody, ds[1..]);
      w := SimOption(s.lbody, [q], h, end, f, q, ds[1..]);
      if r.out == Normal || r.out == Continued {
        var w2 := SimTrips(s, id, h, end, f, Last(q, w), r.rest);
        Sequence(f, q, w, ds[1..], r, w2, ExecLoop(s, r.rest));
        w := w + w2;
        Choose(f, p, id, ds, s, w, Prefixed(r.atoms, ExecLoop(s, r.rest)));
      } else {
        Choose(f, p, id, ds, s, w, Caught(r));
      }
      w := [q] + w;
    }
  }

  /** A switch whose node is joined to p: control stays there, or enters a child or passes them all. */
  lemma {:induction false} SimChoice(s: Stmt, sw: Id, g: Graph, ins: seq<Pending>, h: Graph, end: Id, f: Graph,
                                     p: Pending, ds: seq<string>)
    returns (w: seq<Pending>)
    requires s.Switch? && Joined(f.links, p, sw)
    requires NodeOf(f.nodes, sw) == Some(Node(sw, Branch, [s.src.line], [s]))
    requires Tidy(h) && end.n <= h.counter
    requires Grown(g, ins, Out(h, [], [], [])) && g.counter < sw.n <= h.counter
    requires Extends(BuildItems(s.items, sw, [], h, end).g, f)
    ensures var r := ExecSwitch(s, ds);
            var o := BuildItems(s.items, sw, [], h, end);
            Mirrors(f, p, w, ds, r)
            && Lands(f, Out(o.g, o.breaks + o.exits + Skip(s.items, sw), [], o.conts), end, r, Last(p, w))
    decreases |ds|, s, 0, 1
  {
    NoBlankChoice(s.items);
    if ds == [] || ds[0] !in SwitchChoices(s.items) {
      Arrive(f, p, sw, ds, s, Halted);
      w := [Port(sw, "")];
    } else {
      w := SimEnter(s, sw, g, ins, h, end, f, ds);
      Choose(f, p, sw, ds, s, w, Caught(ExecFrom(s.items, ds[0], ds[1..])));
      w := [Port(sw, ds[0])] + w;
    }
  }

  /** Past the switch node: into the chosen child, or past them all. */
  lemma {:induction false} SimEnter(s: Stmt, sw: Id, g: Graph, ins: seq<Pending>, h: Graph, end: Id, f: Graph, ds: seq<string>)
    returns (w: seq<Pending>)
    requires s.Switch? && ds != [] && ds[0] in SwitchChoices(s.items)
    requires Tidy(h) && end.n <= h.counter
    requires Grown(g, ins, Out(h, [], [], [])) && g.counter < sw.n <= h.counter
    requires Extends(BuildItems(s.items, sw, [], h, end).g, f)
    ensures var r := ExecFrom(s.items, ds[0], ds[1..]);
            var o := BuildItems(s.items, sw, [], h, end);
            Mirrors(f, Port(sw, ds[0]), w, ds[1..], r)
            && Lands(f, o.(exits := o.exits + Skip(s.items, sw)), end, r, Last(Port(sw, ds[0]), w))
    decreases |ds|, s, 0, 0
  {
    var d := ds[0];
    if d in Labels(s.items) {
      w := SimFrom(s.items, sw, [], g, ins, h, end, f, d, ds[1..]);
    } else {
      NoneLabelled(s.items, d, ds[1..]);
      w := [];
    }
  }

  lemma {:induction false} SimSwitch(s: Stmt, ins: seq<Pending>, g: Graph, end: Id, f: Graph, p: Pending, ds: seq<string>)
    returns (w: seq<Pending>)
    requires s.Switch?
    requires Tidy(g) && Old(g, ins) && end.n <= g.counter && p in ins
    requires Extends(BuildSwitch(s, ins, g, end).g, f)
    ensures Mirrors(f, p, w, ds, ExecSwitch(s, ds))
            && Lands(f, BuildSwitch(s, ins, g, end), end, ExecSwitch(s, ds), Last(p, w))
    decreases |ds|, s, 1
  {
    var id, h := Fresh(g, "branch"), Place(g, ins, "branch", Branch, [s.src.line], [s]);
    PlaceGrows(g, ins, "branch", Branch, [s.src.line], [s], "");
    ItemsGrow(s.items, id, [], g, ins, h, end);
    ExtendsTrans(h, BuildItems(s.items, id, [], h, end).g, f);
    Placed(g, ins, "branch", Branch, [s.src.line], [s], f, p);
    w := SimChoice(s, id, g, ins, h, end, f, p, ds);
  }

  lemma {:induction false} NoBlankChoice(items: seq<Item>)
    ensures "" !in Labels(items)
  {
    if items != [] { NoBlankChoice(items[1..]); }
  }

  lemma {:induction false} NoneLabelled(items: seq<Item>, d: string, ds: seq<string>)
    requires d !in Labels(items)
    ensures ExecFrom(items, d, ds) == Run([], ds, Normal)
  {
    if items != [] { NoneLabelled(items[1..], d, ds); }
  }

  lemma {:induction false} SimItem(it: Item, sw: Id, cur: seq<Pending>, g: Graph, end: Id, f: Graph, p: Pending, ds: seq<string>)
    returns (w: seq<Pending>)
    requires Tidy(g) && Old(g, cur) && sw.n <= g.counter && end.n <= g.counter && p in Entering(it, sw, cur)
    requires Extends(BuildItem(it, sw, cur, g, end).g, f)
    ensures Mirrors(f, p, w, ds, ExecItem(it, ds))
            && Lands(f, BuildItem(it, sw, cur, g, end), end, ExecItem(it, ds), Last(p, w))
    decreases |ds|, it
  {
    w := SimOption(it.first, Entering(it, sw, cur), g, end, f, p, ds);
  }

  /** Falling through a switch body, entered at its first child. */
  lemma {:induction false} SimItems(items: seq<Item>, sw: Id, cur: seq<Pending>, g0: Graph, ins: seq<Pending>, g: Graph,
                                    end: Id, f: Graph, p: Pending, ds: seq<string>)
    returns (w: seq<Pending>)
    requires Tidy(g) && Old(g, cur) && end.n <= g.counter
    requires Grown(g0, ins, Out(g, cur, [], [])) && g0.counter < sw.n <= g.counter
    requires Extends(BuildItems(items, sw, cur, g, end).g, f)
    requires p in (if items == [] then cur else Entering(items[0], sw, cur))
    ensures Mirrors(f, p, w, ds, ExecItems(items, ds))
            && Lands(f, BuildItems(items, sw, cur, g, end), end, ExecItems(items, ds), Last(p, w))
    decreases |ds|, items, 0
  {
    if items == [] {
      w := [];
      return;
    }
    ItemsStep(items, sw, cur, g0, ins, g, end);
    var o := BuildItem(items[0], sw, cur, g, end);
    w := SimItem(items[0], sw, cur, g, end, f, p, ds);
    var r := ExecItem(items[0], ds);
    if r.out == Normal {
      var w2 := SimItems(items[1..], sw, o.exits, g0, ins, o.g, end, f, Last(p, w), r.rest);
      Sequence(f, p, w, ds, r, w2, ExecItems(items[1..], r.rest));
      w := w + w2;
    }
  }

  /** Jumping to the child labelled d along the switch node's edge of that name. */
  lemma {:induction false} SimFrom(items: seq<Item>, sw: Id, cur: seq<Pending>, g0: Graph, ins: seq<Pending>, g: Graph,
                                   end: Id, f: Graph, d: string, ds: seq<string>)
    returns (w: seq<Pending>)
    requires Tidy(g) && Old(g, cur) && end.n <= g.counter && d in Labels(items)
    requires Grown(g0, ins, Out(g, cur, [], [])) && g0.counter < sw.n <= g.counter
    requires Extends(BuildItems(items, sw, cur, g, end).g, f)
    ensures Mirrors(f, Port(sw, d), w, ds, ExecFrom(items, d, ds))
            && Lands(f, BuildItems(items, sw, cur, g, end), end, ExecFrom(items, d, ds), Last(Port(sw, d), w))
    decreases |ds|, items, 1
  {
    if Labelled(items[0], d) {
      w := SimItems(items, sw, cur, g0, ins, g, end, f, Port(sw, d), ds);
    } else {
      ItemsStep(items, sw, cur, g0, ins, g, end);
      var o := BuildItem(items[0], sw, cur, g, end);
      w := SimFrom(items[1..], sw, o.exits, g0, ins, o.g, end, f, d, ds);
    }
  }

  lemma {:induction false} ItemsStep(items: seq<Item>, sw: Id, cur: seq<Pending>, g0: Graph, ins: seq<Pending>, g: Graph, end: Id)
    requires items != []
    requires Tidy(g) && Old(g, cur) && end.n <= g.counter
    requires Grown(g0, ins, Out(g, cur, [], [])) && g0.counter < sw.n <= g.counter
    ensures var o := BuildItem(items[0], sw, cur, g, end);
            var r := BuildItems(items[1..], sw, o.exits, o.g, end);
            && Tidy(o.g) && Old(o.g, o.exits) && Grown(g0, ins, Out(o.g, o.exits, [], []))
            && Extends(g, o.g) && Extends(o.g, r.g)
  {
    var here := Entering(items[0], sw, cur);
    ItemGrows(items[0], sw, cur, g, end);
    var o := BuildItem(items[0], sw, cur, g, end);
    assert Grown(g0, ins, Out(g, here, [], []));
    GrownThen(g0, ins, g, here, o);
    assert Old(o.g, o.exits) by { forall p | p in o.exits ensures p.source.n <= o.g.counter { assert Born(g, here, o.g, p); } }
    ItemsGrow(items[1..], sw, o.exits, g0, ins, o.g, end);
  }

  // ---- bodies ------------------------------------------------------------------------------

  /** A group's node shows the statements the group runs. */
  lemma {:induction false} GroupRuns(b: seq<Stmt>, n: nat, ds: seq<string>)
    requires n <= |b| && forall i :: 0 <= i < n ==> b[i].Simple?
    ensures ExecBody(b, ds) == Prefixed(ObsAll(b[..n]), ExecBody(b[n..], ds))
    decreases n
  {
    if n == 0 {
      assert b[..0] == [] && b[0..] == b;
    } else {
      GroupRuns(b[1..], n - 1, ds);
      assert b[..n][1..] == b[1..][..n - 1] && b[1..][n - 1..] == b[n..];
      assert Obs(b[0]) + (ObsAll(b[..n][1..]) + ExecBody(b[n..], ds).atoms) == ObsAll(b[..n]) + ExecBody(b[n..], ds).atoms;
    }
  }

  lemma {:induction false} NoLinesNoAtoms(b: seq<Stmt>)
    requires forall i :: 0 <= i < |b| ==> b[i].Simple?
    requires LinesOf(b) == []
    ensures ObsAll(b) == []
  {
    if b != [] { NoLinesNoAtoms(b[1..]); }
  }

  lemma {:induction false} SimGroup(b: seq<Stmt>, cur: seq<Pending>, g: Graph, f: Graph, p: Pending, ds: seq<string>) returns (w: seq<Pending>)
    requires b != [] && b[0].Simple?
    requires Tidy(g) && Old(g, cur) && p in cur && Extends(BuildGroup(b, cur, g).g, f)
    ensures Mirrors(f, p, w, ds, Run(ObsAll(b[..GroupSize(b)]), ds, Normal)) && Last(p, w) in BuildGroup(b, cur, g).exits
  {
    var group := b[..GroupSize(b)];
    var lines := LinesOf(group);
    w := [];
    if b[0].call {
      Placed(g, cur, "call", FuncCall, lines, group, f, p);
      w := [Port(Fresh(g, "call"), "")];
    } else if lines == [] {
      NoLinesNoAtoms(group);
    } else {
      Placed(g, cur, "line", Line, lines, group, f, p);
      w := [Port(Fresh(g, "line"), "")];
    }
    if w != [] {
      assert IsTrail(f.links, w[0], w[1..]);
      assert Seen(f.nodes, w) == ObsAll(group) + Seen(f.nodes, w[1..]);
      assert Decided(w) == [];
    }
  }

  lemma {:induction false} SimBody(b: seq<Stmt>, cur: seq<Pending>, g: Graph, end: Id, f: Graph, p: Pending, ds: seq<string>)
    returns (w: seq<Pending>)
    requires Tidy(g) && Old(g, cur) && end.n <= g.counter && p in cur
    requires Extends(BuildBody(b, cur, g, end).g, f)
    ensures Mirrors(f, p, w, ds, ExecBody(b, ds)) && Lands(f, BuildBody(b, cur, g, end), end, ExecBody(b, ds), Last(p, w))
    decreases |ds|, b
  {
    if b == [] {
      w := [];
    } else if b[0].Simple? {
      var n := GroupSize(b);
      var o := BuildGroup(b, cur, g);
      GroupGrows(b, cur, g);
      OldExits(g, cur, o);
      BodyGrows(b[n..], o.exits, o.g, end);
      w := SimGroup(b, cur, g, f, p, ds);
      var w2 := SimBody(b[n..], o.exits, o.g, end, f, Last(p, w), ds);
      Sequence(f, p, w, ds, Run(ObsAll(b[..n]), ds, Normal), w2, ExecBody(b[n..], ds));
      GroupRuns(b, n, ds);
      w := w + w2;
    } else {
      var o := BuildStmt(b[0], cur, g, end);
      StmtGrows(b[0], cur, g, end);
      OldExits(g, cur, o);
      BodyGrows(b[1..], o.exits, o.g, end);
      w := SimStmt(b[0], cur, g, end, f, p, ds);
      var r := Exec(b[0], ds);
      if r.out == Normal {
        var w2 := SimBody(b[1..], o.exits, o.g, end, f, Last(p, w), r.rest);
        Sequence(f, p, w, ds, r, w2, ExecBody(b[1..], r.rest));
        w := w + w2;
      }
    }
  }

  lemma {:induction false} OldExits(g: Graph, ins: seq<Pending>, o: Out)
    requires Grown(g, ins, o) && Old(g, ins)
    ensures Old(o.g, o.exits)
  {
    forall p | p in o.exits ensures p.source.n <= o.g.counter { assert Born(g, ins, o.g, p); }
  }
}
