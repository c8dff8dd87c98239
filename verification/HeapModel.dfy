/** Memory as the tracer sees it, and the JSON it is printed to. */
module HeapModel {
  import opened Basics

  type Addr = nat  // 0 is the null pointer

  /** JSON values. Lists hold atoms only: lists of objects are the containers left out. */
  datatype Atom = ANull | ABool(b: bool) | AInt(n: int) | AText(s: string) | ANumber(digits: string)
  datatype Json = JAtom(atom: Atom) | JList(items: seq<Atom>) | JDict(entries: seq<KV>)
  datatype KV = KV(key: string, val: Json)

  const JNULL := JAtom(ANull)

  function Get(es: seq<KV>, key: string): Option<Json> {
    if es == [] then None else if es[0].key == key then Some(es[0].val) else Get(es[1..], key)
  }

  /** A struct's public fields, in order, by value or by pointer. */
  datatype Content = Scalar(value: Json) | Ptr(target: Addr)
  datatype Field = Field(name: string, content: Content)
  type Obj = seq<Field>

  /** Which addresses hold readable objects, and which the program has freed. */
  datatype Memory = Memory(objs: map<Addr, Obj>, freed: set<Addr>)

  predicate Live(m: Memory, a: Addr) { a != 0 && a !in m.freed && a in m.objs }

  /** A value no reader can take for an object or a reference to one. */
  predicate Plain(j: Json) {
    j.JDict? ==> Get(j.entries, "$id") == None && Get(j.entries, "$ref") == None
  }

  /** Field names are C++ identifiers, so they never start with a dollar sign, and are distinct. */
  predicate GoodName(name: string) { name != "" && name[0] != '$' }

  predicate GoodObj(o: Obj) {
    && (forall i :: 0 <= i < |o| ==> GoodName(o[i].name))
    && (forall i, j :: 0 <= i < j < |o| ==> o[i].name != o[j].name)
    && (forall i :: 0 <= i < |o| && o[i].content.Scalar? ==> Plain(o[i].content.value))
  }

  ghost predicate GoodMemory(m: Memory) { forall a :: a in m.objs ==> GoodObj(m.objs[a]) }

  // ---- the object graph ------------------------------------------------------------------

  predicate PointsTo(m: Memory, a: Addr, b: Addr) {
    a in m.objs && exists i :: 0 <= i < |m.objs[a]| && m.objs[a][i].content == Ptr(b)
  }

  /** The set is closed under following pointers to live objects. */
  ghost predicate Closed(m: Memory, s: set<Addr>) {
    forall a, b :: a in s && Live(m, b) && PointsTo(m, a, b) ==> b in s
  }

  /** p is a path of live objects, each pointing to the next. */
  ghost predicate IsPath(m: Memory, p: seq<Addr>) {
    && (forall i :: 0 <= i < |p| ==> Live(m, p[i]))
    && (forall i :: 0 <= i < |p| - 1 ==> PointsTo(m, p[i], p[i + 1]))
  }

  ghost predicate Reaches(m: Memory, a: Addr, b: Addr) {
    exists p :: IsPath(m, p) && p != [] && p[0] == a && p[|p| - 1] == b
  }

  /** The live objects reachable from a, a included when it is live. */
  ghost function Reach(m: Memory, a: Addr): set<Addr> {
    set b | b in m.objs && Reaches(m, a, b)
  }

  lemma {:induction false} ReachSelf(m: Memory, a: Addr)
    requires Live(m, a)
    ensures a in Reach(m, a)
  {
    assert IsPath(m, [a]);
    assert [a][0] == a && [a][|[a]| - 1] == a;
    assert Reaches(m, a, a);
  }

  lemma {:induction false} ReachClosed(m: Memory, a: Addr)
    ensures Closed(m, Reach(m, a)) && forall b :: b in Reach(m, a) ==> Live(m, b)
  {
    forall b: Addr, c: Addr | b in Reach(m, a) && Live(m, c) && PointsTo(m, b, c) ensures c in Reach(m, a) {
      var p :| IsPath(m, p) && p != [] && p[0] == a && p[|p| - 1] == b;
      var q := p + [c];
      assert IsPath(m, q) && q[0] == a && q[|q| - 1] == c;
      assert Reaches(m, a, c);
    }
  }

  /** Reach is the least closed set: every closed set that has a has all of it. */
  lemma {:induction false} ReachLeast(m: Memory, a: Addr, s: set<Addr>)
    requires Closed(m, s) && a in s
    ensures Reach(m, a) <= s
  {
    forall b: Addr | b in Reach(m, a) ensures b in s {
      var p :| IsPath(m, p) && p != [] && p[0] == a && p[|p| - 1] == b;
      PathInside(m, p, s, |p| - 1);
    }
  }

  lemma {:induction false} PathInside(m: Memory, p: seq<Addr>, s: set<Addr>, i: nat)
    requires IsPath(m, p) && i < |p| && p[0] in s && Closed(m, s)
    ensures p[i] in s
  {
    if i > 0 {
      PathInside(m, p, s, i - 1);
      assert PointsTo(m, p[i - 1], p[i - 1 + 1]);
    }
  }
}
