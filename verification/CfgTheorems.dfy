/** The graph keeps the program's control flow, exactly: its start-to-end walks are the
    program's complete executions, decision by decision. */
module CfgTheorems {
  import opened Basics
  import opened CfgModel
  import opened CfgSemantics
  import opened CfgCompile
  import opened CfgShape
  import opened CfgLinear
  import opened CfgUnique
  import opened CfgSimulation

  // ---- walks over the edges of the finished graph ----------------------------------------

  /** Standing at a node with the decision made there ("" where there is none to make). */
  datatype Pos = Pos(at: Id, choice: string)

  predicate Leads(edges: seq<Edge>, p: Pos, t: Id) {
    exists e :: e in edges && e.source == p.at && Choice(e.tag, e.sourceHandle) == p.choice && e.target == t
  }

  /** An edge is followed; a loop header whose "true" edge would be a self edge is visited again. */
  predicate Step(nodes: seq<Node>, edges: seq<Edge>, p: Pos, t: Id) {
    || Leads(edges, p, t)
    || (t == p.at && KindOf(nodes, t) == Some(LoopHead) && p.choice == "true"
        && forall e :: e in edges && e.source == t ==> Choice(e.tag, e.sourceHandle) != "true")
  }

  /** From p along w, ending on arrival at `end`. */
  predicate IsWalk(nodes: seq<Node>, edges: seq<Edge>, p: Pos, w: seq<Pos>, end: Id)
    decreases |w|
  {
    w != [] && Step(nodes, edges, p, w[0].at)
    && if |w| == 1 then w[0] == Pos(end, "") else IsWalk(nodes, edges, w[0], w[1..], end)
  }

  function WalkAtoms(nodes: seq<Node>, w: seq<Pos>): seq<Atom> {
    if w == [] then [] else NodeAtoms(nodes, w[0].at) + WalkAtoms(nodes, w[1..])
  }

  function WalkChoices(w: seq<Pos>): seq<string> {
    if w == [] then [] else (if w[0].choice == "" then [] else [w[0].choice]) + WalkChoices(w[1..])
  }

  // ---- edges and links ---------------------------------------------------------------------

  lemma {:induction false} EdgeFromLink(links: seq<Link>, e: Edge)
    ensures e in Edges(links) <==> exists l :: l in links && l.from.source != l.target && EdgeOf(l) == e
  {
    if links != [] {
      var m := |links| - 1;
      EdgeFromLink(links[..m], e);
      assert links == links[..m] + [links[m]];
    }
  }

  function PosOf(p: Pending): Pos { Pos(p.source, Dec(p)) }

  /** The decision an edge stands for is that of the branch it connects, blanked tag or not. */
  lemma {:induction false} EdgeChoice(g: Graph, l: Link)
    requires Settled(g) && l in g.links
    ensures Choice(EdgeOf(l).tag, EdgeOf(l).sourceHandle) == Dec(l.from)
  {
    LinkOffered(g, l);
    assert GoodLink(g.nodes, l);
  }

  lemma {:induction false} LinkSteps(g: Graph, p: Pending, t: Id)
    requires Settled(g) && Joined(g.links, p, t)
    ensures Step(g.nodes, Edges(g.links), PosOf(p), t)
  {
    var l :| l in g.links && l.from == p && l.target == t;
    LinkOffered(g, l);
    EdgeChoice(g, l);
    EdgeFromLink(g.links, EdgeOf(l));
    if p.source != t {
      assert EdgeOf(l) in Edges(g.links);
    } else {
      assert GoodLink(g.nodes, l);
      forall e | e in Edges(g.links) && e.source == t ensures Choice(e.tag, e.sourceHandle) != "true" {
        EdgeFromLink(g.links, e);
        var m :| m in g.links && m.from.source != m.target && EdgeOf(m) == e;
        LinkOffered(g, m);
        EdgeChoice(g, m);
        if Dec(m.from) == "true" { SameLink(g, l, m); }
      }
    }
  }

  /** A step from a linked branch goes where the link goes; any step takes a choice the node offers. */
  lemma {:induction false} StepForced(g: Graph, q: Pos, t: Id)
    requires Settled(g) && Step(g.nodes, Edges(g.links), q, t)
    ensures var n := NodeOf(g.nodes, q.at); n.Some? && GoodNode(n.value) && q.choice in Choices(n.value)
    ensures forall p, u :: p == Port(q.at, q.choice) && Joined(g.links, p, u) ==> u == t
  {
    if Leads(Edges(g.links), q, t) {
      var e :| e in Edges(g.links) && e.source == q.at && Choice(e.tag, e.sourceHandle) == q.choice && e.target == t;
      EdgeFromLink(g.links, e);
      var m :| m in g.links && m.from.source != m.target && EdgeOf(m) == e;
      LinkOffered(g, m);
      EdgeChoice(g, m);
      forall p, u | p == Port(q.at, q.choice) && Joined(g.links, p, u) ensures u == t {
        var l :| l in g.links && l.from == p && l.target == u;
        SameLink(g, l, m);
      }
    } else {
      StayOffered(g, q.at);
      forall p, u | p == Port(q.at, q.choice) && Joined(g.links, p, u) ensures u == t {
        if u != t {
          var l :| l in g.links && l.from == p && l.target == u;
          EdgeChoice(g, l);
          EdgeFromLink(g.links, EdgeOf(l));
          assert EdgeOf(l) in Edges(g.links);
        }
      }
    }
  }

  lemma {:induction false} NodeFound(nodes: seq<Node>, id: Id)
    requires NodeOf(nodes, id).Some?
    ensures NodeOf(nodes, id).value in nodes
  {
    if nodes[0].id != id { NodeFound(nodes[1..], id); }
  }

  lemma {:induction false} StayOffered(g: Graph, id: Id)
    requires Settled(g) && KindOf(g.nodes, id) == Some(LoopHead)
    ensures var n := NodeOf(g.nodes, id); n.Some? && GoodNode(n.value) && "true" in Choices(n.value)
  {
    NodeFound(g.nodes, id);
    assert "true" == Choices(NodeOf(g.nodes, id).value)[0];
  }

  // ---- both directions -----------------------------------------------------------------------

  function WalkOf(w: seq<Pending>, end: Id): seq<Pos> {
    if w == [] then [Pos(end, "")] else [PosOf(w[0])] + WalkOf(w[1..], end)
  }

  ghost predicate IsEnd(g: Graph, end: Id) {
    var n := NodeOf(g.nodes, end); n.Some? && n.value.kind == FuncEnd && n.value.cursors == []
  }

  /** A trail that reaches the end is a walk showing and deciding the same. */
  lemma {:induction false} TrailWalks(g: Graph, p: Pending, w: seq<Pending>, end: Id)
    requires Settled(g) && IsEnd(g, end)
    requires IsTrail(g.links, p, w) && Joined(g.links, Last(p, w), end)
    ensures IsWalk(g.nodes, Edges(g.links), PosOf(p), WalkOf(w, end), end)
    ensures WalkChoices(WalkOf(w, end)) == Decided(w)
    ensures WalkAtoms(g.nodes, WalkOf(w, end)) == Seen(g.nodes, w)
    decreases |w|
  {
    if w == [] {
      LinkSteps(g, p, end);
      assert WalkOf(w, end)[1..] == [];
      assert WalkAtoms(g.nodes, [Pos(end, "")]) == NodeAtoms(g.nodes, end) + [];
    } else {
      LinkSteps(g, p, w[0].source);
      TrailWalks(g, w[0], w[1..], end);
      assert WalkOf(w, end)[1..] == WalkOf(w[1..], end);
    }
  }

  /** Control has somewhere to go from q, or is stuck there. */
  ghost predicate Settles(g: Graph, q: Pending, u: Id, rest: seq<string>) {
    Joined(g.links, q, u) || Stuck(g.nodes, q, rest)
  }

  /** At the node of q, a walk that goes on made q's decision: it is linked, not stuck. */
  lemma {:induction false} SameChoice(g: Graph, q: Pending, u: Id, rest: seq<string>, v: Pos, t: Id)
    requires Settled(g) && Settles(g, q, u, rest)
    requires v.at == q.source && Step(g.nodes, Edges(g.links), v, t)
    requires Dec(q) != "" && v.choice != "" ==> Dec(q) == v.choice
    requires !Joined(g.links, q, u) && v.choice != "" ==> rest != [] && rest[0] == v.choice
    ensures Joined(g.links, q, u) && PosOf(q) == v && q == Port(q.source, Dec(q))
  {
    StepForced(g, v, t);
    if Joined(g.links, q, u) {
      var l :| l in g.links && l.from == q && l.target == u;
      LinkOffered(g, l);
    }
  }

  lemma {:induction false} FirstChoices(w: seq<Pending>, v: seq<Pos>, rest: seq<string>)
    requires w != [] && v != [] && WalkChoices(v) == Decided(w) + rest
    ensures Dec(w[0]) != "" && v[0].choice != "" ==> Dec(w[0]) == v[0].choice
    ensures |w| == 1 && Dec(w[0]) == "" && v[0].choice != "" ==> rest != [] && rest[0] == v[0].choice
  {
    var a, b := WalkChoices(v), Decided(w);
    if v[0].choice != "" { assert a[0] == v[0].choice; }
    if Dec(w[0]) != "" { assert b[0] == Dec(w[0]); } else if |w| == 1 { assert b == []; }
  }

  lemma {:induction false} LaterChoices(w: seq<Pending>, v: seq<Pos>, rest: seq<string>)
    requires w != [] && v != [] && WalkChoices(v) == Decided(w) + rest && Dec(w[0]) == v[0].choice
    ensures WalkChoices(v[1..]) == Decided(w[1..]) + rest
  {
    var k := if v[0].choice == "" then 0 else 1;
    assert WalkChoices(v)[k..] == WalkChoices(v[1..]);
    assert Decided(w)[k..] == Decided(w[1..]);
    assert (Decided(w) + rest)[k..] == Decided(w)[k..] + rest;
  }

  /** A walk making the decisions of a trail has no choice but to follow it, to the end. */
  lemma {:induction false} Forced(g: Graph, p: Pending, w: seq<Pending>, v: seq<Pos>, end: Id, rest: seq<string>)
    requires Settled(g) && IsEnd(g, end) && p == Port(p.source, Dec(p))
    requires IsTrail(g.links, p, w)
    requires Joined(g.links, Last(p, w), end) || (w != [] && Stuck(g.nodes, Last(p, w), rest))
    requires IsWalk(g.nodes, Edges(g.links), PosOf(p), v, end)
    requires WalkChoices(v) == Decided(w) + rest
    ensures Joined(g.links, Last(p, w), end) && rest == [] && v == WalkOf(w, end)
    decreases |w|
  {
    hide Settled, IsEnd, Step, Edges;
    StepForced(g, PosOf(p), v[0].at);
    if w == [] {
      EndsThere(g, v, end);
    } else {
      ForcedStep(g, p, w, v, end, rest);
      LaterChoices(w, v, rest);
      Forced(g, w[0], w[1..], v[1..], end, rest);
    }
  }

  lemma {:induction false} ForcedStep(g: Graph, p: Pending, w: seq<Pending>, v: seq<Pos>, end: Id, rest: seq<string>)
    requires Settled(g) && IsEnd(g, end) && w != [] && v != [] && v[0].at == w[0].source
    requires IsTrail(g.links, p, w) && Settles(g, Last(p, w), end, rest)
    requires if |v| == 1 then v[0] == Pos(end, "") else Step(g.nodes, Edges(g.links), v[0], v[1].at)
    requires WalkChoices(v) == Decided(w) + rest
    ensures |v| > 1 && v[0] == PosOf(w[0]) && w[0] == Port(w[0].source, Dec(w[0]))
    ensures |w| == 1 ==> Joined(g.links, w[0], end)
  {
    NotAtEnd(g, w, end, rest);
    FirstChoices(w, v, rest);
    SameChoice(g, w[0], if |w| > 1 then w[1].source else end, rest, v[0], v[1].at);
  }

  lemma {:induction false} EndsThere(g: Graph, v: seq<Pos>, end: Id)
    requires Settled(g) && IsEnd(g, end) && v != [] && v[0].at == end
    requires |v| > 1 ==> Step(g.nodes, Edges(g.links), v[0], v[1].at)
    ensures |v| == 1
  {
    if |v| > 1 { StepForced(g, v[0], v[1].at); }
  }

  lemma {:induction false} NotAtEnd(g: Graph, w: seq<Pending>, end: Id, rest: seq<string>)
    requires Settled(g) && IsEnd(g, end) && w != []
    requires |w| > 1 ==> Joined(g.links, w[0], w[1].source)
    requires |w| == 1 ==> Settles(g, w[0], end, rest)
    ensures w[0].source != end
  {
    var u := if |w| > 1 then w[1].source else end;
    if Joined(g.links, w[0], u) {
      var l :| l in g.links && l.from == w[0] && l.target == u;
      LinkOffered(g, l);
    }
  }

  // ---- the theorem ---------------------------------------------------------------------------

  ghost predicate Walked(g: Graph, start: Id, end: Id, ds: seq<string>, atoms: seq<Atom>) {
    exists v :: IsWalk(g.nodes, Edges(g.links), Pos(start, ""), v, end)
                && WalkChoices(v) == ds && WalkAtoms(g.nodes, v) == atoms
  }

  /** Function f's graph, as part of any finished graph that extends it. */
  ghost predicate Contains(g: Graph, h: Graph, f: Function) {
    Tidy(h) && WellFormedBody(f.body, false, false) && Settled(g)
    && Extends(BuildFunction(h, f.body, f.line, f.endLine), g)
  }

  lemma {:induction false} FunctionTrail(g: Graph, h: Graph, f: Function, ds: seq<string>) returns (w: seq<Pending>)
    requires Contains(g, h, f)
    ensures var p := Port(StartId(h), ""); var r := ExecBody(f.body, ds);
            && IsEnd(g, EndId(h)) && Mirrors(g, p, w, ds, r)
            && (r.out == Normal || r.out == Returned ==> Joined(g.links, Last(p, w), EndId(h)))
            && (r.out == Halted ==> Stuck(g.nodes, Last(p, w), r.rest))
            && (r.out == Normal || r.out == Returned || r.out == Halted)
  {
    var p := Port(StartId(h), "");
    var o, fin := BuiltBody(h, f.body, f.line), BuildFunction(h, f.body, f.line, f.endLine);
    OpenedGrows(h, f.line);
    FunctionGrows(h, f.body, f.line, f.endLine);
    ExtendsTrans(o.g, fin, g);
    NodeExtends(fin, g, EndId(h));
    w := SimBody(f.body, [p], Opened(h, f.line), EndId(h), g, p, ds);
    BodyJumps(f.body, ds, false, false);
    if ExecBody(f.body, ds).out == Normal {
      var q := Last(p, w);
      var k :| 0 <= k < |o.exits| && o.exits[k] == q;
      assert Joins(o.exits, EndId(h))[k] == fin.links[|o.g.links| + k];
      LinkHolds(fin, g, Link(q, EndId(h), q.tag, false));
    }
  }

  lemma {:induction false} RunsAreWalked(g: Graph, h: Graph, f: Function, ds: seq<string>, atoms: seq<Atom>)
    requires Contains(g, h, f) && Completes(f.body, ds, atoms)
    ensures Walked(g, StartId(h), EndId(h), ds, atoms)
  {
    var w := FunctionTrail(g, h, f, ds);
    TrailWalks(g, Port(StartId(h), ""), w, EndId(h));
    var v := WalkOf(w, EndId(h));
    assert Decided(w) + [] == Decided(w);
    assert IsWalk(g.nodes, Edges(g.links), Pos(StartId(h), ""), v, EndId(h));
  }

  lemma {:induction false} WalksAreRun(g: Graph, h: Graph, f: Function, ds: seq<string>, atoms: seq<Atom>)
    requires Contains(g, h, f) && Walked(g, StartId(h), EndId(h), ds, atoms)
    ensures Completes(f.body, ds, atoms)
  {
    var p := Port(StartId(h), "");
    var v :| IsWalk(g.nodes, Edges(g.links), Pos(StartId(h), ""), v, EndId(h))
             && WalkChoices(v) == ds && WalkAtoms(g.nodes, v) == atoms;
    var w := FunctionTrail(g, h, f, ds);
    var r := ExecBody(f.body, ds);
    if w == [] { assert r.out == Halted ==> Stuck(g.nodes, p, r.rest); StartNotStuck(g, p, v); }
    Forced(g, p, w, v, EndId(h), r.rest);
    TrailWalks(g, p, w, EndId(h));
    if r.out == Halted {
      var q := Last(p, w);
      var l :| l in g.links && l.from == q && l.target == EndId(h);
      LinkOffered(g, l);
      assert false;
    }
  }

  lemma {:induction false} StartNotStuck(g: Graph, p: Pending, v: seq<Pos>)
    requires Settled(g) && v != [] && Step(g.nodes, Edges(g.links), PosOf(p), v[0].at) && Dec(p) == ""
    ensures forall rest :: !Stuck(g.nodes, p, rest)
  {
    StepForced(g, PosOf(p), v[0].at);
  }

  function Before(fs: seq<Function>, k: nat): Graph
    requires k <= |fs|
  {
    BuildAll(EMPTY, fs[..k])
  }

  lemma {:induction false} BuildAllSplit(g: Graph, a: seq<Function>, b: seq<Function>)
    ensures BuildAll(g, a + b) == BuildAll(BuildAll(g, a), b)
    decreases |a|
  {
    if a == [] {
      assert a + b == b;
    } else {
      assert (a + b)[1..] == a[1..] + b;
      BuildAllSplit(BuildFunction(g, a[0].body, a[0].line, a[0].endLine), a[1..], b);
    }
  }

  lemma {:induction false} FunctionContained(fs: seq<Function>, k: nat)
    requires k < |fs| && WellFormedAll(fs)
    ensures Contains(BuildAll(EMPTY, fs), Before(fs, k), fs[k])
  {
    assert Settled(EMPTY);
    AllSettled(EMPTY, fs);
    AllGrows(EMPTY, fs[..k]);
    var h := Before(fs, k);
    assert fs == fs[..k] + fs[k..];
    BuildAllSplit(EMPTY, fs[..k], fs[k..]);
    FunctionGrows(h, fs[k].body, fs[k].line, fs[k].endLine);
    AllGrows(BuildFunction(h, fs[k].body, fs[k].line, fs[k].endLine), fs[k..][1..]);
  }

  /** For every well-formed program, function and list of decisions: the function runs to
      completion on exactly these decisions showing these statements if and only if its
      graph has a walk from start to end making these decisions and showing them. */
  lemma {:induction false} ControlFlowPreserved(fs: seq<Function>, k: nat, ds: seq<string>, atoms: seq<Atom>)
    requires k < |fs| && WellFormedAll(fs)
    ensures Completes(fs[k].body, ds, atoms)
            <==> Walked(BuildAll(EMPTY, fs), StartId(Before(fs, k)), EndId(Before(fs, k)), ds, atoms)
  {
    FunctionContained(fs, k);
    var g, h := BuildAll(EMPTY, fs), Before(fs, k);
    if Completes(fs[k].body, ds, atoms) { RunsAreWalked(g, h, fs[k], ds, atoms); }
    if Walked(g, StartId(h), EndId(h), ds, atoms) { WalksAreRun(g, h, fs[k], ds, atoms); }
  }
}
