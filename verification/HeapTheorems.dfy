/** The heap table of a program state is its reachable object graph. */
module HeapTheorems {
  import opened Basics
  import opened HeapModel
  import opened HeapPrinter
  import opened HeapDepth
  import opened HeapReader
  import opened HeapWalk
  import opened HeapRoundTrip

  ghost function ReachRoot(m: Memory, r: Root): set<Addr> {
    match r
    case Value(_) => {}
    case Struct(a) => if Live(m, a) then Reach(m, a) else {}
    case Pointer(a) => if Live(m, a) then Reach(m, a) else {}
  }

  /** Every live object some variable reaches. */
  ghost function ReachAll(m: Memory, roots: seq<Root>): set<Addr> {
    if roots == [] then {} else ReachRoot(m, roots[0]) + ReachAll(m, roots[1..])
  }

  /** Variables are readable, and those that are no objects are not taken for objects. */
  ghost predicate Printable(m: Memory, roots: seq<Root>) {
    && GoodMemory(m) && RootsReadable(m, roots) && 0 !in m.objs
    && forall i :: 0 <= i < |roots| && roots[i].Value? ==> Plain(roots[i].j)
  }

  /** The search from the variable does not go too deep, beside what earlier variables reach. */
  predicate ShallowRoot(m: Memory, r: Root, before: set<Addr>) {
    match r
    case Value(_) => true
    case Struct(a) => Live(m, a) ==> !TooDeep(m, a, {}, before)
    case Pointer(a) => Live(m, a) ==> !TooDeep(m, a, {}, before)
  }

  /** No variable's search goes too deep among the objects that it is the first to reach. */
  ghost predicate Shallow(m: Memory, roots: seq<Root>, before: set<Addr>)
    decreases |roots|
  {
    roots == [] || (ShallowRoot(m, roots[0], before) && Shallow(m, roots[1..], before + ReachRoot(m, roots[0])))
  }

  // ---- all variables of a state ---------------------------------------------------------

  lemma {:induction false} ClosedUnion(m: Memory, a: set<Addr>, b: set<Addr>)
    requires Closed(m, a) && Closed(m, b)
    ensures Closed(m, a + b)
  {}

  lemma {:induction false} LiveRootRead(m: Memory, a: Addr, ids: Ids, before: set<Addr>, t: Table)
    requires GoodMemory(m) && Live(m, a) && !TooDeep(m, a, {}, before)
    requires GoodIds(ids) && Closed(m, before) && Holds(m, ids, t, before, {})
    ensures var p := Serialize(m, a, ids, {}, {}, 0);
            GoodIds(p.ids) && Kept(ids, p.ids) && Holds(m, p.ids, Walk(p.json, t).1, before + Reach(m, a), {})
            && Closed(m, before + Reach(m, a))
  {
    hide Holds, Serialize, Walk, TooDeep, Search;
    var none: set<Addr> := {};
    assert before + none + none == before && none + before == before;
    ReadObject(m, a, ids, none, none, 0, before, t);
    LiveRootReach(m, a, ids, before);
    var e := Serialize(m, a, ids, {}, {}, 0).emitted;
    assert before + none + e == before + Reach(m, a);
  }

  /** With what earlier variables reach, what is printed is what is reachable. */
  lemma {:induction false} LiveRootReach(m: Memory, a: Addr, ids: Ids, before: set<Addr>)
    requires Live(m, a) && GoodIds(ids) && Closed(m, before) && !TooDeep(m, a, {}, before)
    ensures before + Serialize(m, a, ids, {}, {}, 0).emitted == before + Reach(m, a) && Closed(m, before + Reach(m, a))
  {
    hide Serialize, TooDeep, Search;
    var none: set<Addr> := {};
    assert none + before == before;
    ReachClosed(m, a);
    ReachSelf(m, a);
    PrintExplores(m, a, ids, none, none, before, 0);
    StaysInside(m, a, ids, none, none, 0, Reach(m, a));
    var e := Serialize(m, a, ids, {}, {}, 0).emitted;
    assert Closed(m, e + before);
    ReachLeast(m, a, e + before);
    ClosedUnion(m, before, Reach(m, a));
  }

  lemma {:induction false} RootRead(m: Memory, r: Root, ids: Ids, before: set<Addr>, t: Table)
    requires GoodMemory(m) && 0 !in m.objs && (r.Struct? ==> r.s in m.objs) && (r.Value? ==> Plain(r.j))
    requires ShallowRoot(m, r, before)
    requires GoodIds(ids) && Closed(m, before) && Holds(m, ids, t, before, {})
    ensures var p := SerializeRoot(m, r, ids);
            GoodIds(p.1) && Kept(ids, p.1) && Holds(m, p.1, Walk(p.0, t).1, before + ReachRoot(m, r), {})
            && Closed(m, before + ReachRoot(m, r))
  {
    hide Holds, Walk, Closed, TooDeep;
    var p := SerializeRoot(m, r, ids);
    assert before + {} == before;
    match r
    case Value(j) =>
      KeptSame(ids);
      PlainRead(j, t);
    case Struct(a) =>
      IdForKept(ids, a);
      if Live(m, a) {
        LiveRootRead(m, a, ids, before, t);
      } else {
        HoldsKept(m, ids, p.1, t, before, {});
        FreedRead(p.1.of[a], t);
      }
    case Pointer(a) =>
      IdForKept(ids, a);
      var ids1 := IdFor(ids, a);
      HoldsKept(m, ids, ids1, t, before, {});
      if Live(m, a) {
        LiveRootRead(m, a, ids1, before, t);
      } else if a != 0 && a in m.freed {
        FreedRead(ids1.of[a], t);
      } else {
        PlainRead(JNULL, t);
      }
  }

  lemma {:induction false} RootsRead(m: Memory, roots: seq<Root>, ids: Ids, before: set<Addr>, t: Table)
    requires Printable(m, roots) && Shallow(m, roots, before)
    requires GoodIds(ids) && Closed(m, before) && Holds(m, ids, t, before, {})
    ensures var p := SerializeRoots(m, roots, ids);
            GoodIds(p.1) && Kept(ids, p.1) && Holds(m, p.1, WalkAll(p.0, t), before + ReachAll(m, roots), {})
            && Closed(m, before + ReachAll(m, roots))
    decreases |roots|
  {
    hide Holds, Walk, Closed, SerializeRoot, GoodIds, GoodMemory, ShallowRoot;
    if roots == [] {
      assert before + {} == before;
      KeptSame(ids);
    } else {
      RootRead(m, roots[0], ids, before, t);
      var p := SerializeRoot(m, roots[0], ids);
      var k := before + ReachRoot(m, roots[0]);
      RootsRead(m, roots[1..], p.1, k, Walk(p.0, t).1);
      assert k + ReachAll(m, roots[1..]) == before + ReachAll(m, roots);
      var r := SerializeRoots(m, roots[1..], p.1);
      assert ([p.0] + r.0)[1..] == r.0;
    }
  }

  // ---- the theorem ---------------------------------------------------------------------------

  /** Entry e is object a: each plain value kept, each pointer the id of its target,
      "unknown" exactly when the target was freed and null when there is none to read. */
  ghost predicate Describes(m: Memory, ids: Ids, a: Addr, e: Entry)
    requires a in m.objs
  {
    var o := m.objs[a];
    && e.addr == Some(AddrText(a)) && e.shape == ShapeOf(o)
    && (forall name :: name in e.fields || name in e.refs ==> exists i :: 0 <= i < |o| && o[i].name == name)
    && forall i :: 0 <= i < |o| ==> FieldDescribed(m, ids, o[i], e)
  }

  ghost predicate FieldDescribed(m: Memory, ids: Ids, f: Field, e: Entry) {
    match f.content
    case Scalar(v) => f.name in e.fields && e.fields[f.name] == v && f.name !in e.refs
    case Ptr(t) =>
      if Live(m, t) then t in ids.of && f.name in e.refs && e.refs[f.name] == Known(ids.of[t]) && f.name !in e.fields
      else if t != 0 && t in m.freed then f.name in e.refs && e.refs[f.name] == Unknown && f.name !in e.fields
      else f.name in e.fields && e.fields[f.name] == JNULL && f.name !in e.refs
  }

  lemma {:induction false} Resolved(m: Memory, ids: Ids, t: Table, known: set<Addr>, a: Addr)
    requires GoodIds(ids) && Holds(m, ids, t, known, {}) && Closed(m, known) && a in known && 0 !in m.objs
    ensures ids.of[a] in t && Describes(m, ids, a, Resolve(t[ids.of[a]], t))
  {
    var o, e := m.objs[a], t[ids.of[a]];
    var e' := Resolve(e, t);
    forall i | 0 <= i < |o| ensures FieldDescribed(m, ids, o[i], e') {
      assert FieldRead(m, ids, o[i], e);
      var c := o[i].content;
      if c.Ptr? && c.target in ids.of {
        InTable(m, ids, t, known, {}, c.target);
        assert PointsTo(m, a, c.target);
      }
    }
  }

  lemma {:induction false} SameSize(ids: Ids, s: set<Addr>)
    requires GoodIds(ids) && forall a :: a in s ==> a in ids.of
    ensures |IdSet(ids, s)| == |s|
  {
    if s != {} {
      var a :| a in s;
      SameSize(ids, s - {a});
      assert IdSet(ids, s) == IdSet(ids, s - {a}) + {ids.of[a]};
    }
  }

  /** One entry per object, which describes it. */
  ghost predicate Pictures(m: Memory, ids: Ids, t: Table, objects: set<Addr>) {
    && t.Keys == IdSet(ids, objects) && |t| == |objects|
    && forall a :: a in objects ==> Live(m, a) && a in ids.of && ids.of[a] in t && Describes(m, ids, a, t[ids.of[a]])
  }

  /** Shallow variables: the table is the graph of the live objects they reach. */
  lemma {:induction false} ShallowIsRight(m: Memory, roots: seq<Root>, ids0: Ids)
    requires Printable(m, roots) && GoodIds(ids0) && Shallow(m, roots, {})
    ensures var (js, ids) := SerializeRoots(m, roots, ids0);
            GoodIds(ids) && Kept(ids0, ids) && Pictures(m, ids, Extract(js), ReachAll(m, roots))
  {
    hide SerializeRoots, WalkAll, ReachAll, Describes, Shallow;
    assert IdSet(ids0, {}) == {};
    RootsRead(m, roots, ids0, {}, map[]);
    var p := SerializeRoots(m, roots, ids0);
    var objects := ReachAll(m, roots);
    assert {} + objects == objects;
    var raw, t := WalkAll(p.0, map[]), Extract(p.0);
    SameSize(p.1, objects);
    assert t.Keys == raw.Keys;
    forall a | a in objects
      ensures Live(m, a) && a in p.1.of && p.1.of[a] in t && Describes(m, p.1, a, t[p.1.of[a]])
    {
      Resolved(m, p.1, raw, objects, a);
    }
  }

  /** When nothing reachable points to freed memory, every reference leads to an entry. */
  lemma {:induction false} NoUnknown(m: Memory, roots: seq<Root>, ids0: Ids)
    requires Printable(m, roots) && GoodIds(ids0) && Shallow(m, roots, {}) && m.freed == {}
    ensures var t := Extract(SerializeRoots(m, roots, ids0).0);
            forall n, f :: n in t && f in t[n].refs ==> t[n].refs[f].Known? && t[n].refs[f].id in t
  {
    ShallowIsRight(m, roots, ids0);
    var (js, ids) := SerializeRoots(m, roots, ids0);
    var t := Extract(js);
    var objects := ReachAll(m, roots);
    AllReachClosed(m, roots);
    forall n, f | n in t && f in t[n].refs ensures t[n].refs[f].Known? && t[n].refs[f].id in t {
      assert n in IdSet(ids, objects);
      var a :| a in objects && a in ids.of && ids.of[a] == n;
      var i :| 0 <= i < |m.objs[a]| && m.objs[a][i].name == f;
      var c := m.objs[a][i].content;
      assert FieldDescribed(m, ids, m.objs[a][i], t[n]);
      assert PointsTo(m, a, c.target);
      assert c.target in objects;
    }
  }

  lemma {:induction false} AllReachClosed(m: Memory, roots: seq<Root>)
    ensures Closed(m, ReachAll(m, roots))
    decreases |roots|
  {
    if roots != [] {
      AllReachClosed(m, roots[1..]);
      match roots[0]
      case Value(_) =>
      case Struct(a) => ReachClosed(m, a);
      case Pointer(a) => ReachClosed(m, a);
    }
  }
}
