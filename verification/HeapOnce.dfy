/** Printing is free of repetition: in full at most once per call, by whatever way it is met. */
module HeapOnce {
  import opened Basics
  import opened HeapModel
  import opened HeapPrinter
  import opened HeapDepth
  import opened HeapReader
  import opened HeapWalk
  import opened HeapRoundTrip

  /** How often the object with id n is printed in full. */
  function Fulls(j: Json, n: int): nat
    decreases j
  {
    if j.JDict? && Get(j.entries, "$id").Some?
    then (if Get(j.entries, "$id") == Some(JAtom(AInt(n))) then 1 else 0) + FullsIn(j.entries, n)
    else 0
  }

  function FullsIn(es: seq<KV>, n: int): nat
    decreases es
  {
    if es == [] then 0 else FullsOf(es[0], n) + FullsIn(es[1..], n)
  }

  function FullsOf(kv: KV, n: int): nat
    decreases kv
  {
    Fulls(kv.val, n)
  }

  function One(b: bool): nat { if b then 1 else 0 }

  /** One call prints in full each object it newly emits, once, and nothing else, limit or not. */
  lemma {:induction false} PrintedOnce(m: Memory, a: Addr, ids: Ids, visited: set<Addr>, emitted: set<Addr>, depth: nat, n: int)
    requires GoodMemory(m) && Live(m, a) && GoodIds(ids)
    requires forall x :: x in visited + emitted ==> x in ids.of
    ensures var p := Serialize(m, a, ids, visited, emitted, depth);
            Fulls(p.json, n) == One(n in IdSet(p.ids, p.emitted - emitted)) && forall x :: x in p.emitted ==> x in p.ids.of
    decreases DEPTH_LIMIT + 1 - depth, 2
  {
    IdForKept(ids, a);
    var ids1 := IdFor(ids, a);
    assert emitted - emitted == {};
    if depth > DEPTH_LIMIT {
      assert LIMIT_JSON.entries[0].key == "$depth_limit";
      NotFull(LIMIT_JSON);
    } else if a in visited || a in emitted {
      NoId(ids1.of[a], a in visited);
      NotFull(RefJson(ids1.of[a], a in visited));
    } else {
      NewPrintedOnce(m, a, ids1, visited, emitted, depth, n);
    }
  }

  lemma {:induction false} NewPrintedOnce(m: Memory, a: Addr, ids: Ids, visited: set<Addr>, emitted: set<Addr>, depth: nat, n: int)
    requires GoodMemory(m) && Live(m, a) && GoodIds(ids) && depth <= DEPTH_LIMIT && a !in visited + emitted && a in ids.of
    requires forall x :: x in visited + emitted ==> x in ids.of
    ensures var r := SerializeFields(m, m.objs[a], ids, visited + {a}, emitted, depth);
            && Fulls(JDict(Header(ids.of[a], a) + r.kvs), n) == One(n in IdSet(r.ids, (r.emitted + {a}) - emitted))
            && forall x :: x in r.emitted + {a} ==> x in r.ids.of
    decreases DEPTH_LIMIT + 1 - depth, 1
  {
    hide Fulls, FullsIn, SerializeFields, GoodMemory;
    var v := visited + {a};
    FieldsGrow(m, m.objs[a], ids, v, emitted, depth);
    FieldsPrintedOnce(m, a, 0, ids, v, emitted, depth, n);
    assert m.objs[a][0..] == m.objs[a];
    var r := SerializeFields(m, m.objs[a], ids, v, emitted, depth);
    HeaderFulls(ids.of[a], a, r.kvs, n);
    assert (r.emitted + {a}) - emitted == (r.emitted - emitted) + {a};
    OneMore(r.ids, r.emitted - emitted, a, n);
  }

  lemma {:induction false} OneMore(ids: Ids, s: set<Addr>, a: Addr, n: int)
    requires GoodIds(ids) && a in ids.of && a !in s
    ensures One(n in IdSet(ids, s + {a})) == One(n in IdSet(ids, s)) + One(n == ids.of[a])
  {
    assert IdSet(ids, s + {a}) == IdSet(ids, s) + {ids.of[a]};
  }

  /** A variable's text prints in full each object it reaches, once, and no other. */
  lemma {:induction false} VariablePrintsOnce(m: Memory, a: Addr, ids: Ids, n: int)
    requires GoodMemory(m) && Live(m, a) && GoodIds(ids) && !TooDeep(m, a, {}, {})
    ensures var p := Serialize(m, a, ids, {}, {}, 0); Fulls(p.json, n) == One(n in IdSet(p.ids, Reach(m, a)))
  {
    hide Serialize, TooDeep, Fulls;
    PrintsReach(m, a, ids);
    PrintedOnce(m, a, ids, {}, {}, 0, n);
    assert Reach(m, a) - {} == Reach(m, a);
  }

  lemma {:induction false} NotFull(j: Json)
    requires j.JDict? ==> Get(j.entries, "$id") == None
    ensures forall n :: Fulls(j, n) == 0
  {}

  lemma {:induction false} HeaderFulls(id: int, a: Addr, kvs: seq<KV>, n: int)
    ensures Fulls(JDict(Header(id, a) + kvs), n) == One(n == id) + FullsIn(kvs, n)
  {
    var es := Header(id, a) + kvs;
    GetPastHeader(id, a, kvs, "$id");
    assert es[1..][1..] == kvs;
    assert FullsIn(es, n) == FullsOf(es[0], n) + FullsIn(es[1..], n);
    assert FullsIn(es[1..], n) == FullsOf(es[1..][0], n) + FullsIn(es[1..][1..], n);
  }

  lemma {:induction false} FieldsPrintedOnce(m: Memory, a: Addr, k: nat, ids: Ids, visited: set<Addr>, emitted: set<Addr>,
                                             depth: nat, n: int)
    requires GoodMemory(m) && a in m.objs && k <= |m.objs[a]| && GoodIds(ids) && depth <= DEPTH_LIMIT
    requires forall x :: x in visited + emitted ==> x in ids.of
    ensures var r := SerializeFields(m, m.objs[a][k..], ids, visited, emitted, depth);
            FullsIn(r.kvs, n) == One(n in IdSet(r.ids, r.emitted - emitted)) && forall x :: x in r.emitted ==> x in r.ids.of
    decreases DEPTH_LIMIT + 1 - depth, 0, |m.objs[a]| - k
  {
    var fs := m.objs[a][k..];
    if fs != [] {
      var c := m.objs[a][k].content;
      assert fs[0] == m.objs[a][k] && fs[1..] == m.objs[a][k + 1..];
      ContentGrows(m, c, ids, visited, emitted, depth);
      ContentPrintedOnce(m, c, ids, visited, emitted, depth, n);
      var p := SerializeContent(m, c, ids, visited, emitted, depth);
      FieldsGrow(m, fs[1..], p.ids, visited, p.emitted, depth);
      FieldsPrintedOnce(m, a, k + 1, p.ids, visited, p.emitted, depth, n);
      var r := SerializeFields(m, fs[1..], p.ids, visited, p.emitted, depth);
      var kv := KV(fs[0].name, p.json);
      assert FullsIn([kv] + r.kvs, n) == Fulls(p.json, n) + FullsIn(r.kvs, n) by { assert ([kv] + r.kvs)[1..] == r.kvs; }
      OnceEach(p.ids, r.ids, emitted, p.emitted, r.emitted, n);
    }
  }

  /** Two steps emit different objects, hence different ids. */
  lemma {:induction false} OnceEach(ids: Ids, ids': Ids, e0: set<Addr>, e1: set<Addr>, e2: set<Addr>, n: int)
    requires GoodIds(ids') && Kept(ids, ids') && e0 <= e1 <= e2
    requires (forall x :: x in e1 ==> x in ids.of) && (forall x :: x in e2 ==> x in ids'.of)
    ensures One(n in IdSet(ids, e1 - e0)) + One(n in IdSet(ids', e2 - e1)) == One(n in IdSet(ids', e2 - e0))
  {
    assert e2 - e0 == (e1 - e0) + (e2 - e1);
    assert IdSet(ids, e1 - e0) == IdSet(ids', e1 - e0);
    assert IdSet(ids', e2 - e0) == IdSet(ids', e1 - e0) + IdSet(ids', e2 - e1);
  }

  lemma {:induction false} ContentPrintedOnce(m: Memory, c: Content, ids: Ids, visited: set<Addr>, emitted: set<Addr>,
                                              depth: nat, n: int)
    requires GoodMemory(m) && GoodIds(ids) && depth <= DEPTH_LIMIT && (c.Scalar? ==> Plain(c.value))
    requires forall x :: x in visited + emitted ==> x in ids.of
    ensures var p := SerializeContent(m, c, ids, visited, emitted, depth);
            Fulls(p.json, n) == One(n in IdSet(p.ids, p.emitted - emitted)) && forall x :: x in p.emitted ==> x in p.ids.of
    decreases DEPTH_LIMIT + 1 - depth, 0, 0
  {
    var p := SerializeContent(m, c, ids, visited, emitted, depth);
    if c.Ptr? && Live(m, c.target) {
      PrintedOnce(m, c.target, ids, visited, emitted, depth + 1, n);
    } else {
      if c.Ptr? && c.target in p.ids.of { NoId(p.ids.of[c.target], false); }
      NotFull(p.json);
      assert p.emitted - emitted == {};
    }
  }
}
