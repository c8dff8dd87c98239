/** What the depth-first printing does to ids and to the set of objects printed. */
module HeapWalk {
  import opened HeapModel
  import opened HeapPrinter
  import opened HeapDepth

  ghost predicate GoodIds(ids: Ids) {
    && (forall a :: a in ids.of ==> ids.of[a] < ids.next)
    && (forall a, b :: a in ids.of && b in ids.of && a != b ==> ids.of[a] != ids.of[b])
  }

  ghost predicate Kept(ids: Ids, later: Ids) {
    forall a :: a in ids.of ==> a in later.of && later.of[a] == ids.of[a]
  }

  ghost predicate AllLive(m: Memory, s: set<Addr>) { forall a :: a in s ==> Live(m, a) }

  /** Every live object that one of `added` points to is among `found`. */
  ghost predicate Covered(m: Memory, added: set<Addr>, found: set<Addr>) {
    forall a, b :: a in added && Live(m, b) && PointsTo(m, a, b) ==> b in found
  }

  /** The depth limit stays out of the search from a; `found` is what needs no more search. */
  predicate Fits(m: Memory, a: Addr, visited: set<Addr>, found: set<Addr>)
    requires a in m.objs
  {
    |visited| <= DEPTH_LIMIT && !TooDeep(m, a, visited, found)
  }

  /** The same for a member's value. */
  predicate FitsAt(m: Memory, c: Content, visited: set<Addr>, found: set<Addr>) {
    c.Ptr? && Live(m, c.target) ==> Fits(m, c.target, visited, found)
  }

  lemma {:induction false} IdForKept(ids: Ids, a: Addr)
    requires GoodIds(ids)
    ensures GoodIds(IdFor(ids, a)) && Kept(ids, IdFor(ids, a)) && a in IdFor(ids, a).of
  {}

  // ---- within the limit or not -------------------------------------------------------------

  /** Ids are kept, what was emitted stays so, and nothing in progress is emitted. */
  ghost predicate Grown(ids: Ids, emitted: set<Addr>, visited: set<Addr>, ids': Ids, emitted': set<Addr>) {
    && GoodIds(ids') && Kept(ids, ids')
    && emitted <= emitted' && (emitted' - emitted) !! visited
    && forall x :: x in emitted' - emitted ==> x in ids'.of
  }

  lemma {:induction false} PrintGrows(m: Memory, a: Addr, ids: Ids, visited: set<Addr>, emitted: set<Addr>, depth: nat)
    requires Live(m, a) && GoodIds(ids)
    ensures var p := Serialize(m, a, ids, visited, emitted, depth);
            && Grown(ids, emitted, visited, p.ids, p.emitted)
            && (depth <= DEPTH_LIMIT ==> a in p.ids.of && p.ids.of[a] == IdFor(ids, a).of[a])
    decreases DEPTH_LIMIT + 1 - depth, 1
  {
    IdForKept(ids, a);
    if depth <= DEPTH_LIMIT && a !in visited && a !in emitted {
      FieldsGrow(m, m.objs[a], IdFor(ids, a), visited + {a}, emitted, depth);
    }
  }

  lemma {:induction false} FieldsGrow(m: Memory, fs: seq<Field>, ids: Ids, visited: set<Addr>, emitted: set<Addr>, depth: nat)
    requires GoodIds(ids) && depth <= DEPTH_LIMIT
    ensures var r := SerializeFields(m, fs, ids, visited, emitted, depth); Grown(ids, emitted, visited, r.ids, r.emitted)
    decreases DEPTH_LIMIT + 1 - depth, 0, |fs|
  {
    if fs != [] {
      ContentGrows(m, fs[0].content, ids, visited, emitted, depth);
      var p := SerializeContent(m, fs[0].content, ids, visited, emitted, depth);
      FieldsGrow(m, fs[1..], p.ids, visited, p.emitted, depth);
    }
  }

  lemma {:induction false} ContentGrows(m: Memory, c: Content, ids: Ids, visited: set<Addr>, emitted: set<Addr>, depth: nat)
    requires GoodIds(ids) && depth <= DEPTH_LIMIT
    ensures var p := SerializeContent(m, c, ids, visited, emitted, depth);
            && Grown(ids, emitted, visited, p.ids, p.emitted)
            && (c.Ptr? && c.target != 0 && c.target in m.freed ==> c.target in p.ids.of)
    decreases DEPTH_LIMIT + 1 - depth, 0, 0
  {
    if c.Ptr? {
      IdForKept(ids, c.target);
      if Live(m, c.target) { PrintGrows(m, c.target, ids, visited, emitted, depth + 1); }
    }
  }

  /** Printing never leaves a closed set it starts in. */
  lemma {:induction false} StaysInside(m: Memory, a: Addr, ids: Ids, visited: set<Addr>, emitted: set<Addr>, depth: nat, c: set<Addr>)
    requires Live(m, a) && Closed(m, c) && a in c
    ensures Serialize(m, a, ids, visited, emitted, depth).emitted <= emitted + c
    decreases DEPTH_LIMIT + 1 - depth, 1
  {
    if depth <= DEPTH_LIMIT && a !in visited && a !in emitted {
      assert m.objs[a][0..] == m.objs[a];
      FieldsStayInside(m, a, 0, IdFor(ids, a), visited + {a}, emitted, depth, c);
    }
  }

  lemma {:induction false} FieldsStayInside(m: Memory, a: Addr, k: nat, ids: Ids, visited: set<Addr>, emitted: set<Addr>,
                                            depth: nat, c: set<Addr>)
    requires a in m.objs && k <= |m.objs[a]| && a in c && Closed(m, c) && depth <= DEPTH_LIMIT
    ensures SerializeFields(m, m.objs[a][k..], ids, visited, emitted, depth).emitted <= emitted + c
    decreases DEPTH_LIMIT + 1 - depth, 0, |m.objs[a]| - k
  {
    var fs := m.objs[a][k..];
    if fs != [] {
      var f := m.objs[a][k].content;
      assert fs[0] == m.objs[a][k] && fs[1..] == m.objs[a][k + 1..];
      if f.Ptr? && Live(m, f.target) {
        assert PointsTo(m, a, f.target);
        StaysInside(m, f.target, ids, visited, emitted, depth + 1, c);
      }
      var p := SerializeContent(m, f, ids, visited, emitted, depth);
      FieldsStayInside(m, a, k + 1, p.ids, visited, p.emitted, depth, c);
    }
  }

  // ---- within the limit -----------------------------------------------------------------------

  /** Up to `before`, a closed set, printing finds what the unlimited search finds. */
  ghost predicate Explored(m: Memory, visited: set<Addr>, found: set<Addr>, found': set<Addr>) {
    found <= found' && Covered(m, found' - found, found' + visited)
  }

  lemma {:induction false} PrintExplores(m: Memory, a: Addr, ids: Ids, visited: set<Addr>, emitted: set<Addr>, before: set<Addr>,
                                         depth: nat)
    requires Live(m, a) && GoodIds(ids) && Closed(m, before) && Fits(m, a, visited, emitted + before) && depth == |visited|
    ensures var found, found' := emitted + before, Serialize(m, a, ids, visited, emitted, depth).emitted + before;
            && found' == Search(m, a, visited, found) && Explored(m, visited, found, found') && a in found' + visited
    decreases DEPTH_LIMIT + 1 - depth, 1
  {
    hide Covered, Closed, GoodIds, SerializeFields, SearchFields, TooDeepIn;
    var p := Serialize(m, a, ids, visited, emitted, depth);
    var found := emitted + before;
    if a in before {
      StaysInside(m, a, ids, visited, emitted, depth, before);
      PrintGrows(m, a, ids, visited, emitted, depth);
      assert p.emitted + before == found;
      CoverNothing(m, found, visited);
    } else if a in visited || a in emitted {
      CoverNothing(m, found, visited);
    } else {
      var ids1, v := IdFor(ids, a), visited + {a};
      IdForKept(ids, a);
      assert m.objs[a][0..] == m.objs[a];
      FieldsExplore(m, a, 0, ids1, v, emitted, before, depth);
      var r := SerializeFields(m, m.objs[a], ids1, v, emitted, depth);
      assert p.emitted + before == (r.emitted + before) + {a};
      CoverOne(m, a, visited, found, r.emitted + before);
    }
  }

  lemma {:induction false} CoverNothing(m: Memory, found: set<Addr>, visited: set<Addr>)
    ensures Explored(m, visited, found, found)
  {}

  /** Below a everything is covered, and what a points to is: a can be added. */
  lemma {:induction false} CoverOne(m: Memory, a: Addr, visited: set<Addr>, found: set<Addr>, found': set<Addr>)
    requires a in m.objs && Explored(m, visited + {a}, found, found')
    requires forall i, b :: 0 <= i < |m.objs[a]| && m.objs[a][i].content == Ptr(b) && Live(m, b) ==> b in found' + (visited + {a})
    ensures Explored(m, visited, found, found' + {a})
  {}

  lemma {:induction false} FieldsExplore(m: Memory, a: Addr, k: nat, ids: Ids, visited: set<Addr>, emitted: set<Addr>,
                                         before: set<Addr>, depth: nat)
    requires a in m.objs && k <= |m.objs[a]| && Closed(m, before) && depth + 1 == |visited| && depth <= DEPTH_LIMIT && GoodIds(ids)
    requires !TooDeepIn(m, m.objs[a][k..], visited, emitted + before)
    ensures var found := emitted + before;
            var found' := SerializeFields(m, m.objs[a][k..], ids, visited, emitted, depth).emitted + before;
            && found' == SearchFields(m, m.objs[a][k..], visited, found) && Explored(m, visited, found, found')
            && (forall i, b :: k <= i < |m.objs[a]| && m.objs[a][i].content == Ptr(b) && Live(m, b) ==> b in found' + visited)
    decreases DEPTH_LIMIT + 1 - depth, 0, |m.objs[a]| - k
  {
    var fs := m.objs[a][k..];
    if fs != [] {
      var c := m.objs[a][k].content;
      assert fs[0] == m.objs[a][k] && fs[1..] == m.objs[a][k + 1..];
      ContentGrows(m, c, ids, visited, emitted, depth);
      ContentExplores(m, c, ids, visited, emitted, before, depth);
      var p := SerializeContent(m, c, ids, visited, emitted, depth);
      FieldsExplore(m, a, k + 1, p.ids, visited, p.emitted, before, depth);
      var r := SerializeFields(m, fs[1..], p.ids, visited, p.emitted, depth);
      var f0, f1, f2 := emitted + before, p.emitted + before, r.emitted + before;
      assert f2 - f0 == (f2 - f1) + (f1 - f0);
    }
  }

  lemma {:induction false} ContentExplores(m: Memory, c: Content, ids: Ids, visited: set<Addr>, emitted: set<Addr>,
                                           before: set<Addr>, depth: nat)
    requires GoodIds(ids) && Closed(m, before) && depth + 1 == |visited| && depth <= DEPTH_LIMIT && FitsAt(m, c, visited, emitted + before)
    ensures var found, found' := emitted + before, SerializeContent(m, c, ids, visited, emitted, depth).emitted + before;
            && found' == SearchContent(m, c, visited, found) && Explored(m, visited, found, found')
            && (c.Ptr? && Live(m, c.target) ==> c.target in found' + visited)
    decreases DEPTH_LIMIT + 1 - depth, 0, 0
  {
    if c.Ptr? && Live(m, c.target) { PrintExplores(m, c.target, ids, visited, emitted, before, depth + 1); }
  }

  /** From a fresh start, exactly what is reachable gets printed. */
  lemma {:induction false} PrintsReach(m: Memory, a: Addr, ids: Ids)
    requires Live(m, a) && GoodIds(ids) && !TooDeep(m, a, {}, {})
    ensures Serialize(m, a, ids, {}, {}, 0).emitted == Reach(m, a)
  {
    hide Serialize, TooDeep, Search;
    ReachClosed(m, a);
    ReachSelf(m, a);
    var none: set<Addr> := {};
    assert none + none == none;
    PrintExplores(m, a, ids, none, none, none, 0);
    StaysInside(m, a, ids, {}, {}, 0, Reach(m, a));
    var e := Serialize(m, a, ids, {}, {}, 0).emitted;
    assert e + {} == e && e - {} == e;
    assert Closed(m, e);
    ReachLeast(m, a, e);
  }
}
