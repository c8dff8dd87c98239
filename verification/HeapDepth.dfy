/** How deep the depth-first search gets when no limit stops it: a question about the object
    graph and the order of its fields only. */
module HeapDepth {
  import opened Basics
  import opened HeapModel
  import opened HeapPrinter

  /** What an unlimited search from a has found, with `visited` on its stack and `found` before it. */
  function Search(m: Memory, a: Addr, visited: set<Addr>, found: set<Addr>): set<Addr>
    requires a in m.objs
    decreases |m.objs.Keys - visited|, 1, 0
  {
    if a in visited || a in found then found
    else
      assert m.objs.Keys - (visited + {a}) == (m.objs.Keys - visited) - {a};
      SearchFields(m, m.objs[a], visited + {a}, found) + {a}
  }

  function SearchFields(m: Memory, fs: seq<Field>, visited: set<Addr>, found: set<Addr>): set<Addr>
    decreases |m.objs.Keys - visited|, 2, |fs|
  {
    if fs == [] then found else SearchFields(m, fs[1..], visited, SearchContent(m, fs[0].content, visited, found))
  }

  function SearchContent(m: Memory, c: Content, visited: set<Addr>, found: set<Addr>): set<Addr>
    decreases |m.objs.Keys - visited|, 2, 0
  {
    if c.Ptr? && Live(m, c.target) then Search(m, c.target, visited, found) else found
  }

  /** The search from a gets a stack of more objects than the limit, the top of which points to a
      live object. */
  predicate TooDeep(m: Memory, a: Addr, visited: set<Addr>, found: set<Addr>)
    requires a in m.objs
    decreases |m.objs.Keys - visited|, 1, 0
  {
    a !in visited && a !in found &&
    (assert m.objs.Keys - (visited + {a}) == (m.objs.Keys - visited) - {a};
     TooDeepIn(m, m.objs[a], visited + {a}, found))
  }

  predicate TooDeepIn(m: Memory, fs: seq<Field>, visited: set<Addr>, found: set<Addr>)
    decreases |m.objs.Keys - visited|, 2, |fs|
  {
    fs != [] && (TooDeepAt(m, fs[0].content, visited, found)
                 || TooDeepIn(m, fs[1..], visited, SearchContent(m, fs[0].content, visited, found)))
  }

  predicate TooDeepAt(m: Memory, c: Content, visited: set<Addr>, found: set<Addr>)
    decreases |m.objs.Keys - visited|, 2, 0
  {
    c.Ptr? && Live(m, c.target) && (|visited| > DEPTH_LIMIT || TooDeep(m, c.target, visited, found))
  }

  // ---- what the stack looks like -----------------------------------------------------------

  function SetOf(p: seq<Addr>): set<Addr> { set x | x in p }

  /** A path of live objects, none of them twice. */
  ghost predicate IsSimplePath(m: Memory, p: seq<Addr>) {
    IsPath(m, p) && forall i, j :: 0 <= i < j < |p| ==> p[i] != p[j]
  }

  /** Every simple path of live objects from a has at most as many objects as the limit. */
  ghost predicate ShortPaths(m: Memory, a: Addr) {
    forall p :: IsSimplePath(m, p) && p != [] && p[0] == a ==> |p| <= DEPTH_LIMIT
  }

  lemma {:induction false} SimpleSize(p: seq<Addr>)
    requires forall i, j :: 0 <= i < j < |p| ==> p[i] != p[j]
    ensures |SetOf(p)| == |p|
  {
    if p != [] {
      var q, x := p[..|p| - 1], p[|p| - 1];
      SimpleSize(q);
      assert SetOf(p) == SetOf(q) + {x};
      assert x !in q;
    }
  }

  lemma {:induction false} InSet(p: seq<Addr>, a: Addr)
    ensures a in SetOf(p) <==> a in p
  {}

  lemma {:induction false} PathGrows(m: Memory, p: seq<Addr>, a: Addr)
    requires IsSimplePath(m, p) && Live(m, a) && a !in p && (p != [] ==> PointsTo(m, p[|p| - 1], a))
    ensures IsSimplePath(m, p + [a]) && SetOf(p + [a]) == SetOf(p) + {a}
  {}

  /** The stack of a search that goes too deep is a simple path of more objects than the limit. */
  lemma {:induction false} TooDeepPath(m: Memory, a: Addr, p: seq<Addr>, found: set<Addr>) returns (q: seq<Addr>)
    requires Live(m, a) && IsSimplePath(m, p) && (p != [] ==> PointsTo(m, p[|p| - 1], a))
    requires TooDeep(m, a, SetOf(p), found)
    ensures IsSimplePath(m, q) && |q| > DEPTH_LIMIT && |q| > |p| && q[..|p| + 1] == p + [a]
    decreases |m.objs.Keys - SetOf(p)|, 1, 0
  {
    hide TooDeepIn, IsSimplePath, IsPath, SetOf;
    InSet(p, a);
    PathGrows(m, p, a);
    var r := p + [a];
    assert m.objs.Keys - SetOf(r) == (m.objs.Keys - SetOf(p)) - {a};
    assert m.objs[a][0..] == m.objs[a];
    q := FieldsPath(m, r, 0, found);
  }

  lemma {:induction false} FieldsPath(m: Memory, p: seq<Addr>, k: nat, found: set<Addr>) returns (q: seq<Addr>)
    requires IsSimplePath(m, p) && p != [] && k <= |m.objs[p[|p| - 1]]|
    requires TooDeepIn(m, m.objs[p[|p| - 1]][k..], SetOf(p), found)
    ensures IsSimplePath(m, q) && |q| > DEPTH_LIMIT && |q| >= |p| && q[..|p|] == p
    decreases |m.objs.Keys - SetOf(p)|, 2, |m.objs[p[|p| - 1]]| - k
  {
    var a := p[|p| - 1];
    var fs := m.objs[a][k..];
    var c := fs[0].content;
    assert fs[0] == m.objs[a][k] && fs[1..] == m.objs[a][k + 1..];
    SimpleSize(p);
    if !TooDeepAt(m, c, SetOf(p), found) {
      q := FieldsPath(m, p, k + 1, SearchContent(m, c, SetOf(p), found));
    } else if |p| > DEPTH_LIMIT {
      q := p;
    } else {
      assert PointsTo(m, a, c.target);
      q := TooDeepPath(m, c.target, p, found);
      assert q[..|p|] == q[..|p| + 1][..|p|] == p;
    }
  }

  lemma {:induction false} StartOf(q: seq<Addr>, a: Addr)
    requires q != [] && q[..1] == [] + [a]
    ensures q[0] == a
  {
    assert q[0] == q[..1][0];
  }

  /** Short paths are enough for a search not to go too deep, whatever was found before. */
  lemma {:induction false} ShortPathsFit(m: Memory, a: Addr, found: set<Addr>)
    requires Live(m, a) && ShortPaths(m, a)
    ensures !TooDeep(m, a, {}, found)
  {
    if TooDeep(m, a, {}, found) {
      assert SetOf([]) == {};
      var q := TooDeepPath(m, a, [], found);
      StartOf(q, a);
      assert false;
    }
  }

  /** Few objects make short paths. */
  lemma {:induction false} FewObjectsFit(m: Memory, a: Addr)
    requires |Reach(m, a)| <= DEPTH_LIMIT
    ensures ShortPaths(m, a)
  {
    forall p | IsSimplePath(m, p) && p != [] && p[0] == a ensures |p| <= DEPTH_LIMIT {
      ReachSelf(m, a);
      ReachClosed(m, a);
      forall i | 0 <= i < |p| ensures p[i] in Reach(m, a) { PathInside(m, p, Reach(m, a), i); }
      SimpleSize(p);
      SubsetSize(SetOf(p), Reach(m, a));
    }
  }
}
