/** What the depth limit does: exactly when a pointer is cut off, and that the table is the object
    graph exactly when none is cut off where it counts. */
module HeapLimit {
  import opened Basics
  import opened HeapModel
  import opened HeapPrinter
  import opened HeapDepth
  import opened HeapReader
  import opened HeapWalk
  import opened HeapRoundTrip
  import opened HeapTheorems

  // ---- the marker in the text -----------------------------------------------------------------

  predicate CutShort(j: Json)
    decreases j
  {
    j == LIMIT_JSON || (j.JDict? && CutShortIn(j.entries))
  }

  predicate CutShortIn(es: seq<KV>)
    decreases es
  {
    es != [] && (CutShortAt(es[0]) || CutShortIn(es[1..]))
  }

  predicate CutShortAt(kv: KV)
    decreases kv
  {
    CutShort(kv.val)
  }

  /** No plain value looks as if cut off. */
  ghost predicate Unmarked(m: Memory) {
    forall a, i :: a in m.objs && 0 <= i < |m.objs[a]| && m.objs[a][i].content.Scalar? ==> !CutShort(m.objs[a][i].content.value)
  }

  /** The text has a depth marker exactly if the unlimited search goes too deep. */
  lemma {:induction false} MarkerExact(m: Memory, a: Addr, ids: Ids)
    requires Live(m, a) && Unmarked(m) && GoodIds(ids)
    ensures CutShort(Serialize(m, a, ids, {}, {}, 0).json) <==> TooDeep(m, a, {}, {})
  {
    MarkedObject(m, a, ids, {}, {}, 0);
  }

  lemma {:induction false} MarkedObject(m: Memory, a: Addr, ids: Ids, visited: set<Addr>, emitted: set<Addr>, depth: nat)
    requires Live(m, a) && Unmarked(m) && GoodIds(ids) && depth == |visited| && depth <= DEPTH_LIMIT
    ensures CutShort(Serialize(m, a, ids, visited, emitted, depth).json) <==> TooDeep(m, a, visited, emitted)
    decreases DEPTH_LIMIT + 1 - depth, 1
  {
    hide CutShort, CutShortIn, SerializeFields, TooDeepIn, Unmarked;
    IdForKept(ids, a);
    var ids1 := IdFor(ids, a);
    if a in visited || a in emitted {
      ReferencesUnmarked(ids1.of[a], a in visited);
    } else {
      assert m.objs[a][0..] == m.objs[a];
      MarkedFields(m, a, 0, ids1, visited + {a}, emitted, depth);
      MarkedHeader(ids1.of[a], a, SerializeFields(m, m.objs[a], ids1, visited + {a}, emitted, depth).kvs);
    }
  }

  lemma {:induction false} AtomUnmarked(kv: KV)
    requires kv.val.JAtom?
    ensures !CutShortAt(kv)
  {}

  lemma {:induction false} NotTheMarker(es: seq<KV>)
    requires es != [] && |es[0].key| != |LIMIT_JSON.entries[0].key|
    ensures CutShort(JDict(es)) <==> CutShortIn(es)
  {}

  lemma {:induction false} ReferencesUnmarked(id: int, cycle: bool)
    ensures !CutShort(RefJson(id, cycle)) && !CutShort(FreedJson(id)) && !CutShort(JNULL)
  {
    AtomsUnmarked(RefJson(id, cycle).entries);
    AtomsUnmarked(FreedJson(id).entries);
    NotTheMarker(RefJson(id, cycle).entries);
    NotTheMarker(FreedJson(id).entries);
  }

  lemma {:induction false} AtomsUnmarked(es: seq<KV>)
    requires forall i :: 0 <= i < |es| ==> es[i].val.JAtom?
    ensures !CutShortIn(es)
  {
    if es != [] {
      AtomUnmarked(es[0]);
      AtomsUnmarked(es[1..]);
    }
  }

  lemma {:induction false} MarkedHeader(id: int, a: Addr, kvs: seq<KV>)
    ensures CutShort(JDict(Header(id, a) + kvs)) <==> CutShortIn(kvs)
  {
    hide CutShort, CutShortAt;
    var es := Header(id, a) + kvs;
    NotTheMarker(es);
    AtomUnmarked(es[0]);
    AtomUnmarked(es[1]);
    assert es[1..][0] == es[1] && es[1..][1..] == kvs;
  }

  lemma {:induction false} MarkedFields(m: Memory, a: Addr, k: nat, ids: Ids, visited: set<Addr>, emitted: set<Addr>, depth: nat)
    requires a in m.objs && k <= |m.objs[a]| && Unmarked(m) && GoodIds(ids) && depth + 1 == |visited| && depth <= DEPTH_LIMIT
    ensures CutShortIn(SerializeFields(m, m.objs[a][k..], ids, visited, emitted, depth).kvs)
            <==> TooDeepIn(m, m.objs[a][k..], visited, emitted)
    decreases DEPTH_LIMIT + 1 - depth, 0, |m.objs[a]| - k
  {
    hide CutShort, Serialize, TooDeep, Search, Covered;
    var fs := m.objs[a][k..];
    if fs != [] {
      var c := m.objs[a][k].content;
      assert fs[0] == m.objs[a][k] && fs[1..] == m.objs[a][k + 1..];
      MarkedContent(m, a, k, ids, visited, emitted, depth);
      var p := SerializeContent(m, c, ids, visited, emitted, depth);
      var r := SerializeFields(m, fs[1..], p.ids, visited, p.emitted, depth);
      assert ([KV(fs[0].name, p.json)] + r.kvs)[1..] == r.kvs;
      if !TooDeepAt(m, c, visited, emitted) {
        ContentGrows(m, c, ids, visited, emitted, depth);
        assert emitted + {} == emitted && p.emitted + {} == p.emitted;
        ContentExplores(m, c, ids, visited, emitted, {}, depth);
        MarkedFields(m, a, k + 1, p.ids, visited, p.emitted, depth);
      }
    }
  }

  lemma {:induction false} MarkedContent(m: Memory, a: Addr, k: nat, ids: Ids, visited: set<Addr>, emitted: set<Addr>, depth: nat)
    requires a in m.objs && k < |m.objs[a]| && Unmarked(m) && GoodIds(ids) && depth + 1 == |visited| && depth <= DEPTH_LIMIT
    ensures var c := m.objs[a][k].content;
            CutShort(SerializeContent(m, c, ids, visited, emitted, depth).json) <==> TooDeepAt(m, c, visited, emitted)
    decreases DEPTH_LIMIT + 1 - depth, 0, 0
  {
    var c := m.objs[a][k].content;
    var p := SerializeContent(m, c, ids, visited, emitted, depth);
    if c.Ptr? && Live(m, c.target) {
      if depth < DEPTH_LIMIT { MarkedObject(m, c.target, ids, visited, emitted, depth + 1); }
    } else if c.Ptr? {
      ReferencesUnmarked(if c.target in p.ids.of then p.ids.of[c.target] else 0, false);
    }
  }

  // ---- reading adds and never takes away --------------------------------------------------------

  ghost predicate Keeps(t: Table, t': Table) { forall n :: n in t ==> n in t' && t'[n] == t[n] }

  lemma {:induction false} WalkKeeps(j: Json, t: Table)
    ensures Keeps(t, Walk(j, t).1)
    decreases j, 1
  {
    if j.JDict? {
      var id := Get(j.entries, "$id");
      if id.Some? && id.value.JAtom? && id.value.atom.AInt? && id.value.atom.n !in t {
        FieldsKeep(j.entries, NewEntry(j.entries), t[id.value.atom.n := PLACEHOLDER]);
      }
    }
  }

  lemma {:induction false} FieldsKeep(es: seq<KV>, e: Entry, t: Table)
    ensures var b := BuildFields(es, e, t); Keeps(t, b.1) && e.fields.Keys <= b.0.fields.Keys
    decreases es, 1
  {
    if es != [] {
      if es[0].key == "$id" || es[0].key == "$addr" { FieldsKeep(es[1..], e, t); }
      else {
        MemberKeeps(es[0], t);
        var w := WalkMember(es[0], t);
        FieldsKeep(es[1..], Sorted(es[0], w.0, e), w.1);
      }
    }
  }

  lemma {:induction false} MemberKeeps(kv: KV, t: Table)
    ensures Keeps(t, WalkMember(kv, t).1)
    decreases kv, 1
  {
    WalkKeeps(kv.val, t);
  }

  lemma {:induction false} WalkAllKeeps(js: seq<Json>, t: Table)
    ensures Keeps(t, WalkAll(js, t))
    decreases |js|
  {
    if js != [] {
      WalkKeeps(js[0], t);
      WalkAllKeeps(js[1..], Walk(js[0], t).1);
    }
  }

  // ---- a pointer cut off is a wrong entry -----------------------------------------------------------

  predicate IsLivePtr(m: Memory, x: Addr, i: nat) {
    x in m.objs && i < |m.objs[x]| && m.objs[x][i].content.Ptr? && Live(m, m.objs[x][i].content.target)
  }

  /** The entry of x has field i, a pointer to a live object, among the plain values. */
  predicate Wrong(m: Memory, ids: Ids, t: Table, x: Addr, i: nat) {
    IsLivePtr(m, x, i) && x in ids.of && ids.of[x] in t && m.objs[x][i].name in t[ids.of[x]].fields
  }

  lemma {:induction false} WrongStays(m: Memory, ids: Ids, ids': Ids, t: Table, t': Table, x: Addr, i: nat)
    requires Wrong(m, ids, t, x, i) && Kept(ids, ids') && Keeps(t, t')
    ensures Wrong(m, ids', t', x, i)
  {}

  /** Reading an object whose search goes too deep leaves a wrong entry that was not there before. */
  lemma {:induction false} CutObject(m: Memory, a: Addr, ids: Ids, visited: set<Addr>, emitted: set<Addr>, depth: nat,
                                     before: set<Addr>, t: Table) returns (x: Addr, i: nat)
    requires GoodMemory(m) && Live(m, a) && GoodIds(ids) && depth == |visited| && depth <= DEPTH_LIMIT
    requires TooDeep(m, a, visited, emitted + before)
    requires Closed(m, before) && Holds(m, ids, t, before + visited + emitted, visited)
    ensures var p := Serialize(m, a, ids, visited, emitted, depth); var w := Walk(p.json, t);
            Wrong(m, p.ids, w.1, x, i) && p.ids.of[x] !in t
    decreases DEPTH_LIMIT + 1 - depth, 2
  {
    hide Holds, Walk, SerializeFields, BuildFields, Closed, AllLive, TooDeepIn, GoodMemory, GoodIds, Kept;
    IdForKept(ids, a);
    var ids1, v := IdFor(ids, a), visited + {a};
    var id, known := ids1.of[a], before + visited + emitted;
    HoldsKept(m, ids, ids1, t, known, visited);
    InTable(m, ids1, t, known, visited, a);
    var r := SerializeFields(m, m.objs[a], ids1, v, emitted, depth);
    PrintedKeys(m, m.objs[a], ids1, v, emitted, depth);
    HeaderRead(m.objs[a], id, a, r.kvs, t[id := PLACEHOLDER]);
    FullRead(Header(id, a) + r.kvs, id, t);
    Opened(m, ids1, t, known, visited, a);
    assert known + {a} == before + v + emitted;
    assert m.objs[a][0..] == m.objs[a];
    var e0 := Entry(ShapeOf(m.objs[a]), map[], map[], Some(AddrText(a)));
    x, i := CutFields(m, a, 0, ids1, v, emitted, depth, before, t[id := PLACEHOLDER], e0);
    FieldsGrow(m, m.objs[a], ids1, v, emitted, depth);
    KeptAt(ids1, r.ids, a);
    var b := BuildFields(r.kvs, e0, t[id := PLACEHOLDER]);
    assert Walk(Serialize(m, a, ids, visited, emitted, depth).json, t).1 == b.1[id := b.0];
  }

  lemma {:induction false} CutFields(m: Memory, a: Addr, k: nat, ids: Ids, visited: set<Addr>, emitted: set<Addr>, depth: nat,
                                     before: set<Addr>, t: Table, e: Entry) returns (x: Addr, i: nat)
    requires GoodMemory(m) && a in m.objs && k <= |m.objs[a]|
    requires GoodIds(ids) && depth + 1 == |visited| && depth <= DEPTH_LIMIT
    requires TooDeepIn(m, m.objs[a][k..], visited, emitted + before)
    requires Closed(m, before) && Holds(m, ids, t, before + visited + emitted, visited)
    requires ReadUpTo(m, ids, m.objs[a], k, e) && a in ids.of && ids.of[a] in t
    ensures var r := SerializeFields(m, m.objs[a][k..], ids, visited, emitted, depth);
            var b := BuildFields(r.kvs, e, t);
            if x == a then IsLivePtr(m, a, i) && m.objs[a][i].name in b.0.fields
            else Wrong(m, r.ids, b.1, x, i) && r.ids.of[x] !in t
    decreases DEPTH_LIMIT + 1 - depth, 0, |m.objs[a]| - k
  {
    hide Holds, Serialize, Walk, Closed, AllLive, ReadUpTo, FieldRead, GoodIds, Kept, Covered, TooDeep, Search, Keeps;
    var fs := m.objs[a][k..];
    var f := m.objs[a][k];
    assert fs[0] == f && fs[1..] == m.objs[a][k + 1..];
    var p := SerializeContent(m, f.content, ids, visited, emitted, depth);
    var kv := KV(f.name, p.json);
    var w := WalkMember(kv, t);
    var e' := Sorted(kv, w.0, e);
    var r := SerializeFields(m, fs[1..], p.ids, visited, p.emitted, depth);
    assert ([kv] + r.kvs)[1..] == r.kvs && ([kv] + r.kvs)[0] == kv;
    assert kv.key != "$id" && kv.key != "$addr";
    ContentGrows(m, f.content, ids, visited, emitted, depth);
    MemberKeeps(kv, t);
    if TooDeepAt(m, f.content, visited, emitted + before) {
      x, i := CutHere(m, a, k, ids, visited, emitted, depth, before, t, e);
      FieldsKeep(r.kvs, e', w.1);
      FieldsGrow(m, fs[1..], p.ids, visited, p.emitted, depth);
      if x != a { WrongStays(m, p.ids, r.ids, w.1, BuildFields(r.kvs, e', w.1).1, x, i); KeptAt(p.ids, r.ids, x); }
    } else {
      NotYetRead(m, ids, m.objs[a], k, e);
      ContentExplores(m, f.content, ids, visited, emitted, before, depth);
      ReadContent(m, f, ids, visited, emitted, depth, before, t, e);
      FieldAdded(m, ids, p.ids, m.objs[a], k, e, e');
      KeptAt(ids, p.ids, a);
      KeyKept(t, w.1, ids.of[a]);
      x, i := CutFields(m, a, k + 1, p.ids, visited, p.emitted, depth, before, w.1, e');
      if x != a { KeyKept(t, w.1, r.ids.of[x]); }
    }
  }

  lemma {:induction false} KeyKept(t: Table, t': Table, n: int)
    requires Keeps(t, t')
    ensures n in t ==> n in t'
  {}

  /** Field k is where it goes too deep: it is cut off itself, or what it points to has a wrong entry. */
  lemma {:induction false} CutHere(m: Memory, a: Addr, k: nat, ids: Ids, visited: set<Addr>, emitted: set<Addr>, depth: nat,
                                   before: set<Addr>, t: Table, e: Entry) returns (x: Addr, i: nat)
    requires GoodMemory(m) && a in m.objs && k < |m.objs[a]|
    requires GoodIds(ids) && depth + 1 == |visited| && depth <= DEPTH_LIMIT
    requires TooDeepAt(m, m.objs[a][k].content, visited, emitted + before)
    requires Closed(m, before) && Holds(m, ids, t, before + visited + emitted, visited)
    requires a in ids.of && ids.of[a] in t
    ensures var f := m.objs[a][k];
            var p := SerializeContent(m, f.content, ids, visited, emitted, depth);
            var kv := KV(f.name, p.json);
            var w := WalkMember(kv, t);
            if x == a then IsLivePtr(m, a, i) && m.objs[a][i].name in Sorted(kv, w.0, e).fields
            else Wrong(m, p.ids, w.1, x, i) && p.ids.of[x] !in t
    decreases DEPTH_LIMIT + 1 - depth, 0, 0
  {
    hide Holds, Closed, GoodMemory, TooDeep, Search, Keeps;
    var c := m.objs[a][k].content;
    if depth == DEPTH_LIMIT {
      assert LIMIT_JSON.entries[0].key == "$depth_limit";
      PlainRead(LIMIT_JSON, t);
      x, i := a, k;
    } else {
      x, i := CutObject(m, c.target, ids, visited, emitted, depth + 1, before, t);
      PrintGrows(m, c.target, ids, visited, emitted, depth + 1);
      KeptAt(ids, Serialize(m, c.target, ids, visited, emitted, depth + 1).ids, a);
    }
  }

  // ---- all variables of a state --------------------------------------------------------------------

  lemma {:induction false} RootGrows(m: Memory, r: Root, ids: Ids)
    requires GoodIds(ids) && 0 !in m.objs && (r.Struct? ==> r.s in m.objs)
    ensures var p := SerializeRoot(m, r, ids); GoodIds(p.1) && Kept(ids, p.1)
  {
    match r
    case Value(_) =>
    case Struct(a) =>
      IdForKept(ids, a);
      if Live(m, a) { PrintGrows(m, a, ids, {}, {}, 0); }
    case Pointer(a) =>
      IdForKept(ids, a);
      if Live(m, a) { PrintGrows(m, a, IdFor(ids, a), {}, {}, 0); }
  }

  lemma {:induction false} RootsGrow(m: Memory, roots: seq<Root>, ids: Ids)
    requires GoodIds(ids) && 0 !in m.objs && RootsReadable(m, roots)
    ensures var p := SerializeRoots(m, roots, ids); GoodIds(p.1) && Kept(ids, p.1)
    decreases |roots|
  {
    hide SerializeRoot;
    if roots != [] {
      RootGrows(m, roots[0], ids);
      RootsGrow(m, roots[1..], SerializeRoot(m, roots[0], ids).1);
    }
  }

  lemma {:induction false} CutRoot(m: Memory, r: Root, ids: Ids, before: set<Addr>, t: Table) returns (x: Addr, i: nat)
    requires GoodMemory(m) && 0 !in m.objs && (r.Struct? ==> r.s in m.objs) && !ShallowRoot(m, r, before)
    requires GoodIds(ids) && Closed(m, before) && Holds(m, ids, t, before, {})
    ensures var p := SerializeRoot(m, r, ids); Wrong(m, p.1, Walk(p.0, t).1, x, i)
  {
    hide Holds, Walk, Closed, TooDeep, Serialize, GoodMemory;
    var a := if r.Struct? then r.s else r.a;
    var ids1 := if r.Struct? then ids else IdFor(ids, a);
    var none: set<Addr> := {};
    assert before + none + none == before && none + before == before;
    IdForKept(ids, a);
    HoldsKept(m, ids, IdFor(ids, a), t, before, none);
    x, i := CutObject(m, a, ids1, none, none, 0, before, t);
  }

  lemma {:induction false} CutRoots(m: Memory, roots: seq<Root>, ids: Ids, before: set<Addr>, t: Table) returns (x: Addr, i: nat)
    requires Printable(m, roots) && !Shallow(m, roots, before)
    requires GoodIds(ids) && Closed(m, before) && Holds(m, ids, t, before, {})
    ensures var p := SerializeRoots(m, roots, ids); Wrong(m, p.1, WalkAll(p.0, t), x, i)
    decreases |roots|
  {
    hide Holds, Walk, Closed, SerializeRoot, GoodIds, GoodMemory, ShallowRoot, Keeps, Kept, Wrong;
    var p := SerializeRoot(m, roots[0], ids);
    var r := SerializeRoots(m, roots[1..], p.1);
    assert ([p.0] + r.0)[1..] == r.0;
    RootGrows(m, roots[0], ids);
    if ShallowRoot(m, roots[0], before) {
      RootRead(m, roots[0], ids, before, t);
      x, i := CutRoots(m, roots[1..], p.1, before + ReachRoot(m, roots[0]), Walk(p.0, t).1);
    } else {
      x, i := CutRoot(m, roots[0], ids, before, t);
      RootsGrow(m, roots[1..], p.1);
      WalkAllKeeps(r.0, Walk(p.0, t).1);
      WrongStays(m, p.1, r.1, Walk(p.0, t).1, WalkAll(r.0, Walk(p.0, t).1), x, i);
    }
  }

  lemma {:induction false} WrongIsSeen(m: Memory, ids: Ids, js: seq<Json>, objects: set<Addr>, x: Addr, i: nat)
    requires GoodIds(ids) && Wrong(m, ids, WalkAll(js, map[]), x, i)
    ensures !Pictures(m, ids, Extract(js), objects)
  {
    hide WalkAll;
    var raw, t := WalkAll(js, map[]), Extract(js);
    var n := ids.of[x];
    assert n in t && t[n].fields == raw[n].fields;
    NotDescribed(m, ids, x, i, t[n]);
    assert n in t.Keys;
    assert n in IdSet(ids, objects) ==> x in objects;
  }

  lemma {:induction false} NotDescribed(m: Memory, ids: Ids, x: Addr, i: nat, e: Entry)
    requires IsLivePtr(m, x, i) && m.objs[x][i].name in e.fields
    ensures !Describes(m, ids, x, e)
  {
    assert !FieldDescribed(m, ids, m.objs[x][i], e);
  }

  /** Whatever ids are in use, printing all variables of a state and extracting the heap table
      gives exactly one entry per live object some variable reaches, each describing its object, if
      and only if no variable's search goes too deep among the objects it is the first to reach. */
  lemma {:induction false} TableIsTheGraph(m: Memory, roots: seq<Root>, ids0: Ids)
    requires Printable(m, roots) && GoodIds(ids0)
    ensures var (js, ids) := SerializeRoots(m, roots, ids0);
            GoodIds(ids) && Kept(ids0, ids) && (Pictures(m, ids, Extract(js), ReachAll(m, roots)) <==> Shallow(m, roots, {}))
  {
    hide SerializeRoots, WalkAll, ReachAll, Shallow, Extract, Pictures, Wrong;
    RootsGrow(m, roots, ids0);
    if Shallow(m, roots, {}) {
      ShallowIsRight(m, roots, ids0);
    } else {
      assert IdSet(ids0, {}) == {};
      var x, i := CutRoots(m, roots, ids0, {}, map[]);
      WrongIsSeen(m, SerializeRoots(m, roots, ids0).1, SerializeRoots(m, roots, ids0).0, ReachAll(m, roots), x, i);
    }
  }

  // ---- graphs within the limit ---------------------------------------------------------------------

  /** Short paths from every variable are enough. */
  lemma {:induction false} ShortPathsAreShallow(m: Memory, roots: seq<Root>, before: set<Addr>)
    requires forall i :: 0 <= i < |roots| && !roots[i].Value? ==>
               var a := if roots[i].Struct? then roots[i].s else roots[i].a; ShortPaths(m, a)
    ensures Shallow(m, roots, before)
    decreases |roots|
  {
    hide TooDeep, ShortPaths;
    if roots != [] {
      match roots[0] {
        case Value(_) =>
        case Struct(a) => if Live(m, a) { ShortPathsFit(m, a, before); }
        case Pointer(a) => if Live(m, a) { ShortPathsFit(m, a, before); }
      }
      ShortPathsAreShallow(m, roots[1..], before + ReachRoot(m, roots[0]));
    }
  }

  function Below(n: nat): (s: set<Addr>)
    ensures |s| == (if n == 0 then 0 else n - 1) && forall i: Addr :: i in s <==> 1 <= i < n
  {
    if n <= 1 then {} else Below(n - 1) + {n - 1}
  }

  /** Objects 1 .. n, each pointing to the next; the last points to the first or to nothing. */
  function Chain(n: nat, ring: bool): Memory {
    var s := Below(n + 1);
    Memory(map i: Addr | i in s :: [Field("next", Ptr(if i < n then i + 1 else if ring then 1 else 0))], {})
  }

  /** The number of objects does not decide: a ring of 51 is cut off, a list of 51 is not. */
  lemma {:induction false} RingAndList()
    ensures TooDeep(Chain(DEPTH_LIMIT + 1, true), 1, {}, {}) && !TooDeep(Chain(DEPTH_LIMIT + 1, false), 1, {}, {})
  {
    assert Below(1) == {};
    ChainIs(DEPTH_LIMIT + 1, true, 1);
    ChainIs(DEPTH_LIMIT + 1, false, 1);
    ChainFrom(1, true);
    ChainFrom(1, false);
  }

  /** In the ring's text a pointer is printed as a depth marker, not as a reference. */
  lemma {:induction false} RingCutShort(ids: Ids)
    requires GoodIds(ids)
    ensures CutShort(Serialize(Chain(DEPTH_LIMIT + 1, true), 1, ids, {}, {}, 0).json)
  {
    hide Serialize, CutShort, TooDeep;
    RingAndList();
    ChainIs(DEPTH_LIMIT + 1, true, 1);
    MarkerExact(Chain(DEPTH_LIMIT + 1, true), 1, ids);
  }

  lemma {:induction false} ChainIs(n: nat, ring: bool, i: Addr)
    ensures var m := Chain(n, ring);
            && (Live(m, i) <==> 1 <= i <= n)
            && (1 <= i <= n ==> m.objs[i] == [Field("next", Ptr(if i < n then i + 1 else if ring then 1 else 0))])
  {}

  lemma {:induction false} ChainFrom(i: Addr, ring: bool)
    requires 1 <= i <= DEPTH_LIMIT + 1 && Live(Chain(DEPTH_LIMIT + 1, ring), i)
    ensures TooDeep(Chain(DEPTH_LIMIT + 1, ring), i, Below(i), {}) <==> ring
    decreases DEPTH_LIMIT + 1 - i
  {
    hide Chain, TooDeepIn, Live;
    var m := Chain(DEPTH_LIMIT + 1, ring);
    var next := if i < DEPTH_LIMIT + 1 then i + 1 else if ring then 1 else 0;
    ChainIs(DEPTH_LIMIT + 1, ring, i);
    ChainIs(DEPTH_LIMIT + 1, ring, next);
    assert Below(i) + {i} == Below(i + 1);
    if i < DEPTH_LIMIT + 1 { ChainFrom(i + 1, ring); }
    OneField(m, Field("next", Ptr(next)), Below(i + 1));
  }

  lemma {:induction false} OneField(m: Memory, f: Field, visited: set<Addr>)
    ensures TooDeepIn(m, [f], visited, {}) <==> TooDeepAt(m, f.content, visited, {})
  {
    assert [f][1..] == [];
  }
}
