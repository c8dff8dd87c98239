/** Printing every variable and reading the result back gives the object graph:
    one entry per reachable live object, every pointer a reference to its target's entry. */
module HeapRoundTrip {
  import opened Basics
  import opened HeapModel
  import opened HeapPrinter
  import opened HeapDepth
  import opened HeapReader
  import opened HeapWalk

  function IdSet(ids: Ids, s: set<Addr>): set<int> { set a | a in s && a in ids.of :: ids.of[a] }

  function ShapeOf(o: Obj): Shape {
    if exists i :: 0 <= i < |o| && o[i].name == "items" then Container else Record
  }

  // ---- what an entry says before references are resolved ------------------------------------

  ghost predicate FieldRead(m: Memory, ids: Ids, f: Field, e: Entry) {
    match f.content
    case Scalar(v) => f.name in e.fields && e.fields[f.name] == v && f.name !in e.refs
    case Ptr(t) =>
      if t == 0 || (t !in m.freed && t !in m.objs) then
        f.name in e.fields && e.fields[f.name] == JNULL && f.name !in e.refs
      else
        t in ids.of && f.name in e.refs && e.refs[f.name] == Known(ids.of[t]) && f.name !in e.fields
  }

  ghost predicate ReadUpTo(m: Memory, ids: Ids, o: Obj, k: nat, e: Entry)
    requires k <= |o|
  {
    && (forall i :: 0 <= i < k ==> FieldRead(m, ids, o[i], e))
    && (forall name :: name in e.fields || name in e.refs ==> exists i :: 0 <= i < k && o[i].name == name)
  }

  ghost predicate ReadEntry(m: Memory, ids: Ids, a: Addr, e: Entry)
    requires a in m.objs
  {
    ReadUpTo(m, ids, m.objs[a], |m.objs[a]|, e) && e.addr == Some(AddrText(a)) && e.shape == ShapeOf(m.objs[a])
  }

  /** The table has an entry for each known object, complete for all that are not open. */
  ghost predicate Holds(m: Memory, ids: Ids, t: Table, known: set<Addr>, open: set<Addr>) {
    && AllLive(m, known) && (forall a :: a in known ==> a in ids.of)
    && t.Keys == IdSet(ids, known)
    && (forall a :: a in known - open ==> ids.of[a] in t && ReadEntry(m, ids, a, t[ids.of[a]]))
  }

  lemma {:induction false} HoldsKept(m: Memory, ids: Ids, ids': Ids, t: Table, known: set<Addr>, open: set<Addr>)
    requires Holds(m, ids, t, known, open) && Kept(ids, ids')
    ensures Holds(m, ids', t, known, open)
  {
    assert IdSet(ids', known) == IdSet(ids, known);
  }

  lemma {:induction false} InTable(m: Memory, ids: Ids, t: Table, known: set<Addr>, open: set<Addr>, a: Addr)
    requires GoodIds(ids) && Holds(m, ids, t, known, open) && a in ids.of
    ensures ids.of[a] in t <==> a in known
  {
    if ids.of[a] in t {
      assert ids.of[a] in IdSet(ids, known);
    }
    if a in known { assert ids.of[a] in IdSet(ids, known); }
  }

  /** Opening a: a placeholder under its id. */
  lemma {:induction false} Opened(m: Memory, ids: Ids, t: Table, known: set<Addr>, open: set<Addr>, a: Addr)
    requires GoodIds(ids) && Holds(m, ids, t, known, open) && a in ids.of && a !in known && Live(m, a)
    ensures Holds(m, ids, t[ids.of[a] := PLACEHOLDER], known + {a}, open + {a})
  {
    assert IdSet(ids, known + {a}) == IdSet(ids, known) + {ids.of[a]};
    InTable(m, ids, t, known, open, a);
  }

  /** Closing a: its entry is complete. */
  lemma {:induction false} Finished(m: Memory, ids: Ids, t: Table, known: set<Addr>, open: set<Addr>, a: Addr, e: Entry)
    requires GoodIds(ids) && Holds(m, ids, t, known, open + {a}) && a in known && ReadEntry(m, ids, a, e)
    ensures Holds(m, ids, t[ids.of[a] := e], known, open)
  {
    InTable(m, ids, t, known, open + {a}, a);
    assert t[ids.of[a] := e].Keys == t.Keys;
  }

  // ---- keys of printed objects ---------------------------------------------------------------

  lemma {:induction false} PrintedKeys(m: Memory, fs: seq<Field>, ids: Ids, visited: set<Addr>, emitted: set<Addr>, depth: nat)
    requires depth <= DEPTH_LIMIT
    ensures var r := SerializeFields(m, fs, ids, visited, emitted, depth);
            |r.kvs| == |fs| && forall i :: 0 <= i < |fs| ==> r.kvs[i].key == fs[i].name
    decreases |fs|
  {
    if fs != [] {
      var p := SerializeContent(m, fs[0].content, ids, visited, emitted, depth);
      PrintedKeys(m, fs[1..], p.ids, visited, p.emitted, depth);
    }
  }

  lemma {:induction false} GetKey(es: seq<KV>, key: string)
    ensures Get(es, key).Some? <==> exists i :: 0 <= i < |es| && es[i].key == key
  {
    if es != [] {
      GetKey(es[1..], key);
      if Get(es[1..], key).Some? {
        var i :| 0 <= i < |es[1..]| && es[1..][i].key == key;
        assert es[i + 1].key == key;
      }
    }
  }

  lemma {:induction false} GetPastHeader(id: int, a: Addr, kvs: seq<KV>, key: string)
    ensures Get(Header(id, a) + kvs, key)
            == if key == "$id" then Some(JAtom(AInt(id)))
               else if key == "$addr" then Some(JAtom(AText(AddrText(a)))) else Get(kvs, key)
  {
    var es := Header(id, a) + kvs;
    assert es[0] == KV("$id", JAtom(AInt(id))) && es[1] == KV("$addr", JAtom(AText(AddrText(a))));
    assert es[1..][0] == es[1] && es[1..][1..] == kvs;
    assert Get(es[1..], key) == if es[1].key == key then Some(es[1].val) else Get(kvs, key);
  }

  lemma {:induction false} SameShape(o: Obj, kvs: seq<KV>)
    requires |kvs| == |o| && forall i :: 0 <= i < |o| ==> kvs[i].key == o[i].name
    ensures Get(kvs, "items").Some? <==> ShapeOf(o) == Container
  {
    GetKey(kvs, "items");
    if Get(kvs, "items").Some? {
      var i :| 0 <= i < |kvs| && kvs[i].key == "items";
      assert o[i].name == "items";
    }
  }

  /** Past the header, an entry starts empty, with the object's address and shape. */
  lemma {:induction false} HeaderRead(o: Obj, id: int, a: Addr, kvs: seq<KV>, t: Table)
    requires |kvs| == |o| && forall i :: 0 <= i < |o| ==> kvs[i].key == o[i].name
    ensures var es := Header(id, a) + kvs;
            && Get(es, "$id") == Some(JAtom(AInt(id)))
            && NewEntry(es) == Entry(ShapeOf(o), map[], map[], Some(AddrText(a)))
            && BuildFields(es, NewEntry(es), t) == BuildFields(kvs, NewEntry(es), t)
  {
    var es := Header(id, a) + kvs;
    GetPastHeader(id, a, kvs, "$id");
    GetPastHeader(id, a, kvs, "$addr");
    GetPastHeader(id, a, kvs, "items");
    SameShape(o, kvs);
    assert es[0].key == "$id" && es[1..][0].key == "$addr" && es[1..][1..] == kvs;
  }

  lemma {:induction false} PlainRead(j: Json, t: Table)
    requires Plain(j)
    ensures Walk(j, t) == (WScalar, t)
  {}

  lemma {:induction false} FullRead(es: seq<KV>, id: int, t: Table)
    requires Get(es, "$id") == Some(JAtom(AInt(id)))
    ensures Walk(JDict(es), t)
            == if id in t then (WId(id), t)
               else var b := BuildFields(es, NewEntry(es), t[id := PLACEHOLDER]); (WId(id), b.1[id := b.0])
  {}

  /** References carry no id of their own. */
  lemma {:induction false} NoId(id: int, cycle: bool)
    ensures Get(RefJson(id, cycle).entries, "$id") == None && Get(FreedJson(id).entries, "$id") == None
  {
    var r, f := RefJson(id, cycle).entries, FreedJson(id).entries;
    assert r[0].key == "$ref" && (cycle ==> r[1].key == "$cycle");
    assert f[0].key == "$ref" && f[1].key == "$freed";
    GetKey(r, "$id");
    GetKey(f, "$id");
  }

  lemma {:induction false} RefRead(id: int, cycle: bool, t: Table)
    ensures Walk(RefJson(id, cycle), t) == (WRef(Known(id)), t)
  {
    NoId(id, cycle);
    assert RefJson(id, cycle).entries[0] == KV("$ref", JAtom(AInt(id)));
  }

  lemma {:induction false} FreedRead(id: int, t: Table)
    ensures Walk(FreedJson(id), t) == (WRef(Known(id)), t)
  {
    NoId(id, false);
    assert FreedJson(id).entries[0] == KV("$ref", JAtom(AInt(id)));
  }

  // ---- reading what was printed -----------------------------------------------------------

  /** Reading a printed object: it, and all it printed, is in the table afterwards. `before` is what
      earlier variables left there: it is not printed anew, so how deep it goes does not matter. */
  lemma {:induction false} ReadObject(m: Memory, a: Addr, ids: Ids, visited: set<Addr>, emitted: set<Addr>, depth: nat,
                                      before: set<Addr>, t: Table)
    requires GoodMemory(m) && Live(m, a) && GoodIds(ids) && Fits(m, a, visited, emitted + before) && depth == |visited|
    requires Closed(m, before) && Holds(m, ids, t, before + visited + emitted, visited)
    ensures var p := Serialize(m, a, ids, visited, emitted, depth); var w := Walk(p.json, t);
            && GoodIds(p.ids) && Kept(ids, p.ids) && a in p.ids.of
            && (w.0 == WId(p.ids.of[a]) || w.0 == WRef(Known(p.ids.of[a])))
            && Holds(m, p.ids, w.1, before + visited + p.emitted, visited)
    decreases DEPTH_LIMIT + 1 - depth, 2
  {
    hide Holds, Walk, SerializeFields, BuildFields, Closed, AllLive, Search, TooDeepIn;
    IdForKept(ids, a);
    PrintGrows(m, a, ids, visited, emitted, depth);
    var ids1, known := IdFor(ids, a), before + visited + emitted;
    HoldsKept(m, ids, ids1, t, known, visited);
    if a in visited || a in emitted {
      RefRead(ids1.of[a], a in visited, t);
    } else {
      var v := visited + {a};
      var r := SerializeFields(m, m.objs[a], ids1, v, emitted, depth);
      PrintedKeys(m, m.objs[a], ids1, v, emitted, depth);
      HeaderRead(m.objs[a], ids1.of[a], a, r.kvs, t[ids1.of[a] := PLACEHOLDER]);
      FullRead(Header(ids1.of[a], a) + r.kvs, ids1.of[a], t);
      InTable(m, ids1, t, known, visited, a);
      if a in before {
        ReadAgain(m, a, ids, visited, emitted, depth, before, t);
      } else {
        ReadNew(m, a, ids1, visited, emitted, depth, before, t);
      }
    }
  }

  /** An object an earlier variable left in the table is not read again: nothing under it is new. */
  lemma {:induction false} ReadAgain(m: Memory, a: Addr, ids: Ids, visited: set<Addr>, emitted: set<Addr>, depth: nat,
                                     before: set<Addr>, t: Table)
    requires Live(m, a) && GoodIds(ids) && Closed(m, before) && a in before
    requires Holds(m, ids, t, before + visited + emitted, visited)
    ensures var p := Serialize(m, a, ids, visited, emitted, depth);
            Holds(m, p.ids, t, before + visited + p.emitted, visited)
  {
    PrintGrows(m, a, ids, visited, emitted, depth);
    StaysInside(m, a, ids, visited, emitted, depth, before);
    var p := Serialize(m, a, ids, visited, emitted, depth);
    HoldsKept(m, ids, p.ids, t, before + visited + emitted, visited);
    assert before + visited + p.emitted == before + visited + emitted;
  }

  /** First sight: a placeholder, then the members, then the finished entry. */
  lemma {:induction false} ReadNew(m: Memory, a: Addr, ids: Ids, visited: set<Addr>, emitted: set<Addr>, depth: nat,
                                   before: set<Addr>, t: Table)
    requires GoodMemory(m) && Live(m, a) && GoodIds(ids) && Fits(m, a, visited, emitted + before) && depth == |visited|
    requires a in ids.of && a !in before + visited + emitted
    requires Closed(m, before) && Holds(m, ids, t, before + visited + emitted, visited)
    ensures var id := ids.of[a];
            var r := SerializeFields(m, m.objs[a], ids, visited + {a}, emitted, depth);
            var e0 := Entry(ShapeOf(m.objs[a]), map[], map[], Some(AddrText(a)));
            var b := BuildFields(r.kvs, e0, t[id := PLACEHOLDER]);
            && GoodIds(r.ids) && Kept(ids, r.ids)
            && Holds(m, r.ids, b.1[id := b.0], before + visited + (r.emitted + {a}), visited)
    decreases DEPTH_LIMIT + 1 - depth, 1
  {
    hide Holds, SerializeFields, BuildFields, Closed, AllLive, GoodMemory, GoodIds, Kept, TooDeepIn;
    var id, v := ids.of[a], visited + {a};
    var known := before + visited + emitted;
    var e0 := Entry(ShapeOf(m.objs[a]), map[], map[], Some(AddrText(a)));
    Opened(m, ids, t, known, visited, a);
    assert known + {a} == before + v + emitted;
    assert m.objs[a][0..] == m.objs[a];
    FieldsGrow(m, m.objs[a], ids, v, emitted, depth);
    ReadFields(m, a, 0, ids, v, emitted, depth, before, t[id := PLACEHOLDER], e0);
    var r := SerializeFields(m, m.objs[a], ids, v, emitted, depth);
    var b := BuildFields(r.kvs, e0, t[id := PLACEHOLDER]);
    KeptAt(ids, r.ids, a);
    Finished(m, r.ids, b.1, before + v + r.emitted, visited, a, b.0);
    assert before + v + r.emitted == before + visited + (r.emitted + {a});
  }

  lemma {:induction false} ReadFields(m: Memory, a: Addr, k: nat, ids: Ids, visited: set<Addr>, emitted: set<Addr>, depth: nat,
                                      before: set<Addr>, t: Table, e: Entry)
    requires GoodMemory(m) && a in m.objs && k <= |m.objs[a]|
    requires GoodIds(ids) && depth + 1 == |visited| && depth <= DEPTH_LIMIT
    requires !TooDeepIn(m, m.objs[a][k..], visited, emitted + before)
    requires Closed(m, before) && Holds(m, ids, t, before + visited + emitted, visited)
    requires ReadUpTo(m, ids, m.objs[a], k, e)
    ensures var r := SerializeFields(m, m.objs[a][k..], ids, visited, emitted, depth);
            var b := BuildFields(r.kvs, e, t);
            && ReadUpTo(m, r.ids, m.objs[a], |m.objs[a]|, b.0) && b.0.addr == e.addr && b.0.shape == e.shape
            && Holds(m, r.ids, b.1, before + visited + r.emitted, visited)
    decreases DEPTH_LIMIT + 1 - depth, 0, |m.objs[a]| - k
  {
    hide Holds, Serialize, Walk, Closed, AllLive, ReadUpTo, FieldRead, GoodIds, Kept, Covered, TooDeep, Search;
    var fs := m.objs[a][k..];
    if fs != [] {
      var f := m.objs[a][k];
      assert fs[0] == f && fs[1..] == m.objs[a][k + 1..];
      NotYetRead(m, ids, m.objs[a], k, e);
      ContentGrows(m, f.content, ids, visited, emitted, depth);
      ContentExplores(m, f.content, ids, visited, emitted, before, depth);
      ReadContent(m, f, ids, visited, emitted, depth, before, t, e);
      var p := SerializeContent(m, f.content, ids, visited, emitted, depth);
      var kv := KV(f.name, p.json);
      var w := WalkMember(kv, t);
      var e' := Sorted(kv, w.0, e);
      FieldAdded(m, ids, p.ids, m.objs[a], k, e, e');
      ReadFields(m, a, k + 1, p.ids, visited, p.emitted, depth, before, w.1, e');
      var r := SerializeFields(m, fs[1..], p.ids, visited, p.emitted, depth);
      assert ([kv] + r.kvs)[1..] == r.kvs;
      assert kv.key != "$id" && kv.key != "$addr";
    }
  }

  lemma {:induction false} NotYetRead(m: Memory, ids: Ids, o: Obj, k: nat, e: Entry)
    requires GoodObj(o) && k < |o| && ReadUpTo(m, ids, o, k, e)
    ensures o[k].name !in e.fields && o[k].name !in e.refs
  {}

  lemma {:induction false} FieldAdded(m: Memory, ids: Ids, ids': Ids, o: Obj, k: nat, e: Entry, e': Entry)
    requires GoodObj(o) && k < |o| && Kept(ids, ids') && ReadUpTo(m, ids, o, k, e) && FieldRead(m, ids', o[k], e')
    requires e'.fields.Keys <= e.fields.Keys + {o[k].name} && e'.refs.Keys <= e.refs.Keys + {o[k].name}
    requires forall name :: name in e.fields && name != o[k].name ==> name in e'.fields && e'.fields[name] == e.fields[name]
    requires forall name :: name in e.refs && name != o[k].name ==> name in e'.refs && e'.refs[name] == e.refs[name]
    ensures ReadUpTo(m, ids', o, k + 1, e')
  {
    forall i | 0 <= i < k + 1 ensures FieldRead(m, ids', o[i], e') {
      if i < k {
        assert FieldRead(m, ids, o[i], e) && o[i].name != o[k].name;
      }
    }
    forall name | name in e'.fields || name in e'.refs ensures exists i :: 0 <= i < k + 1 && o[i].name == name {
      if name == o[k].name {
      } else {
        var i :| 0 <= i < k && o[i].name == name;
      }
    }
  }

  /** One member: sorted into a field or a reference, with what it printed read in. */
  lemma {:induction false} ReadContent(m: Memory, f: Field, ids: Ids, visited: set<Addr>, emitted: set<Addr>, depth: nat,
                                       before: set<Addr>, t: Table, e: Entry)
    requires GoodMemory(m) && GoodIds(ids) && depth + 1 == |visited| && depth <= DEPTH_LIMIT
    requires FitsAt(m, f.content, visited, emitted + before)
    requires f.content.Scalar? ==> Plain(f.content.value)
    requires f.name !in e.fields && f.name !in e.refs
    requires Closed(m, before) && Holds(m, ids, t, before + visited + emitted, visited)
    ensures var p := SerializeContent(m, f.content, ids, visited, emitted, depth);
            var kv := KV(f.name, p.json);
            var w := WalkMember(kv, t);
            && FieldRead(m, p.ids, f, Sorted(kv, w.0, e))
            && Holds(m, p.ids, w.1, before + visited + p.emitted, visited)
    decreases DEPTH_LIMIT + 1 - depth, 0, 0
  {
    hide Holds, Closed, AllLive, GoodMemory, Walk, Covered, GoodIds, Kept, Plain, TooDeep;
    var p := SerializeContent(m, f.content, ids, visited, emitted, depth);
    if f.content.Scalar? {
      KeptSame(ids);
      PlainRead(f.content.value, t);
    } else if Live(m, f.content.target) {
      ReadObject(m, f.content.target, ids, visited, emitted, depth + 1, before, t);
    } else {
      ReadDead(m, f, ids, visited, emitted, depth, before, t, e);
    }
  }

  lemma {:induction false} KeptAt(ids: Ids, ids': Ids, a: Addr)
    requires Kept(ids, ids') && a in ids.of
    ensures a in ids'.of && ids'.of[a] == ids.of[a]
  {}

  lemma {:induction false} KeptSame(ids: Ids)
    ensures Kept(ids, ids)
  {}

  /** A pointer to nothing readable: null, or the bare id of a freed object. */
  lemma {:induction false} ReadDead(m: Memory, f: Field, ids: Ids, visited: set<Addr>, emitted: set<Addr>, depth: nat,
                                    before: set<Addr>, t: Table, e: Entry)
    requires GoodIds(ids) && depth <= DEPTH_LIMIT && f.content.Ptr? && !Live(m, f.content.target)
    requires f.name !in e.fields && f.name !in e.refs
    requires Holds(m, ids, t, before + visited + emitted, visited)
    ensures var p := SerializeContent(m, f.content, ids, visited, emitted, depth);
            var kv := KV(f.name, p.json);
            var w := WalkMember(kv, t);
            && FieldRead(m, p.ids, f, Sorted(kv, w.0, e))
            && Holds(m, p.ids, w.1, before + visited + p.emitted, visited)
  {
    hide Holds, Walk;
    var p := SerializeContent(m, f.content, ids, visited, emitted, depth);
    IdForKept(ids, f.content.target);
    HoldsKept(m, ids, p.ids, t, before + visited + emitted, visited);
    if f.content.target != 0 && f.content.target in m.freed {
      FreedRead(p.ids.of[f.content.target], t);
    } else {
      PlainRead(JNULL, t);
    }
  }
}
