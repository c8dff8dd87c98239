/** Printer and reader in the form they run in: id map, visited and emitted sets and table are
    changed in place while objects are walked. Proved against HeapPrinter and HeapReader. */
module HeapObjects {
  import opened Basics
  import opened HeapModel
  import opened HeapPrinter
  import opened HeapReader

  class AddrSet {
    var s: set<Addr>

    constructor ()
      ensures s == {}
    {
      s := {};
    }
  }

  class SerializerRuntime {
    var heapIds: map<Addr, int>
    var nextId: int

    function State(): Ids
      reads this
    {
      Ids(heapIds, nextId)
    }

    constructor ()
      ensures State() == Ids(map[], 1)
    {
      heapIds, nextId := map[], 1;
    }

    method HeapIdFor(a: Addr) returns (id: int)
      modifies this
      ensures State() == IdFor(old(State()), a) && id == State().of[a]
    {
      if a in heapIds {
        return heapIds[a];
      }
      id := nextId;
      nextId := nextId + 1;
      heapIds := heapIds[a := id];
    }

    /** The object is in `visited` only while it is being printed. */
    method Object(m: Memory, a: Addr, visited: AddrSet, emitted: AddrSet, depth: nat) returns (j: Json)
      requires a in m.objs && visited != emitted
      modifies this, visited, emitted
      ensures Printed(j, State(), emitted.s)
              == Serialize(m, a, old(State()), old(visited.s), old(emitted.s), depth)
      ensures visited.s == old(visited.s)
      decreases if depth > DEPTH_LIMIT then 0 else DEPTH_LIMIT + 1 - depth, 1
    {
      if depth > DEPTH_LIMIT {
        return LIMIT_JSON;
      }
      var id := HeapIdFor(a);
      if a in m.freed {
        return FreedJson(id);
      }
      if a in visited.s {
        return RefJson(id, true);
      }
      if a in emitted.s {
        return RefJson(id, false);
      }
      visited.s := visited.s + {a};
      var kvs := Members(m, m.objs[a], visited, emitted, depth);
      visited.s := visited.s - {a};
      emitted.s := emitted.s + {a};
      j := JDict(Header(id, a) + kvs);
    }

    method Members(m: Memory, fs: seq<Field>, visited: AddrSet, emitted: AddrSet, depth: nat) returns (kvs: seq<KV>)
      requires depth <= DEPTH_LIMIT && visited != emitted
      modifies this, visited, emitted
      ensures PrintedFields(kvs, State(), emitted.s)
              == SerializeFields(m, fs, old(State()), old(visited.s), old(emitted.s), depth)
      ensures visited.s == old(visited.s)
      decreases DEPTH_LIMIT + 1 - depth, 0, |fs|, 1
    {
      kvs := [];
      ghost var v := visited.s;
      ghost var all := SerializeFields(m, fs, State(), v, emitted.s, depth);
      for i := 0 to |fs|
        invariant visited.s == v
        invariant var r := SerializeFields(m, fs[i..], State(), v, emitted.s, depth);
                  all == PrintedFields(kvs + r.kvs, r.ids, r.emitted)
      {
        assert fs[i..][0] == fs[i] && fs[i..][1..] == fs[i + 1..];
        var j := Member(m, fs[i].content, visited, emitted, depth);
        ghost var r := SerializeFields(m, fs[i + 1..], State(), v, emitted.s, depth);
        assert kvs + ([KV(fs[i].name, j)] + r.kvs) == kvs + [KV(fs[i].name, j)] + r.kvs;
        kvs := kvs + [KV(fs[i].name, j)];
      }
    }

    method Member(m: Memory, c: Content, visited: AddrSet, emitted: AddrSet, depth: nat) returns (j: Json)
      requires depth <= DEPTH_LIMIT && visited != emitted
      modifies this, visited, emitted
      ensures Printed(j, State(), emitted.s)
              == SerializeContent(m, c, old(State()), old(visited.s), old(emitted.s), depth)
      ensures visited.s == old(visited.s)
      decreases DEPTH_LIMIT + 1 - depth, 0, 0, 0
    {
      match c
      case Scalar(v) => j := v;
      case Ptr(t) =>
        if t == 0 {
          j := JNULL;
        } else if t in m.freed {
          var fid := HeapIdFor(t);
          j := FreedJson(fid);
        } else if t !in m.objs {
          j := JNULL;
        } else {
          j := Object(m, t, visited, emitted, depth + 1);
        }
    }

    method Variable(m: Memory, r: Root) returns (j: Json)
      requires r.Struct? ==> r.s in m.objs
      modifies this
      ensures (j, State()) == SerializeRoot(m, r, old(State()))
    {
      var visited := new AddrSet();
      var emitted := new AddrSet();
      match r
      case Value(v) => j := v;
      case Struct(s) => j := Object(m, s, visited, emitted, 0);
      case Pointer(a) =>
        if a == 0 {
          return JNULL;
        }
        var id := HeapIdFor(a);
        if a in m.freed {
          return FreedJson(id);
        }
        if a !in m.objs {
          return JNULL;
        }
        j := Object(m, a, visited, emitted, 0);
    }

    method Variables(m: Memory, roots: seq<Root>) returns (js: seq<Json>)
      requires RootsReadable(m, roots)
      modifies this
      ensures (js, State()) == SerializeRoots(m, roots, old(State()))
    {
      js := [];
      ghost var all := SerializeRoots(m, roots, State());
      assert roots[0..] == roots && js + all.0 == all.0;
      for i := 0 to |roots|
        invariant RootsReadable(m, roots[i..])
        invariant var r := SerializeRoots(m, roots[i..], State()); all == (js + r.0, r.1)
      {
        assert roots[i..][0] == roots[i] && roots[i..][1..] == roots[i + 1..];
        var j := Variable(m, roots[i]);
        ghost var r := SerializeRoots(m, roots[i + 1..], State());
        assert js + ([j] + r.0) == js + [j] + r.0;
        js := js + [j];
      }
      assert roots[|roots|..] == [] && js + [] == js;
    }
  }

  class HeapTable {
    var entries: Table

    constructor ()
      ensures entries == map[]
    {
      entries := map[];
    }

    /** A placeholder is registered first, so that references back to the object stop there. */
    method WalkValue(j: Json) returns (w: Walked)
      modifies this
      ensures (w, entries) == Walk(j, old(entries))
      decreases j
    {
      if !j.JDict? {
        return WScalar;
      }
      var id := Get(j.entries, "$id");
      if id.Some? && id.value.JAtom? && id.value.atom.AInt? {
        var n := id.value.atom.n;
        if n !in entries {
          entries := entries[n := PLACEHOLDER];
          var e := BuildEntry(j.entries);
          entries := entries[n := e];
        }
        return WId(n);
      }
      var ref := Get(j.entries, "$ref");
      if ref.None? {
        return WScalar;
      }
      if ref.value.JAtom? && ref.value.atom.AInt? {
        return WRef(Known(ref.value.atom.n));
      }
      return WRef(Unknown);
    }

    method BuildEntry(es: seq<KV>) returns (e: Entry)
      modifies this
      ensures (e, entries) == BuildFields(es, NewEntry(es), old(entries))
      decreases es, 1
    {
      e := NewEntry(es);
      ghost var all := BuildFields(es, e, entries);
      for i := 0 to |es|
        invariant all == BuildFields(es[i..], e, entries)
      {
        assert es[i..][0] == es[i] && es[i..][1..] == es[i + 1..];
        if es[i].key != "$id" && es[i].key != "$addr" {
          var w := WalkPair(es[i]);
          e := Sorted(es[i], w, e);
        }
      }
    }

    method WalkPair(kv: KV) returns (w: Walked)
      modifies this
      ensures (w, entries) == WalkMember(kv, old(entries))
      decreases kv
    {
      w := WalkValue(kv.val);
    }

    /** Walk every variable, then mark the references that lead nowhere. */
    method ExtractFrom(js: seq<Json>)
      requires entries == map[]
      modifies this
      ensures entries == Extract(js)
    {
      ghost var all := WalkAll(js, map[]);
      for i := 0 to |js|
        invariant all == WalkAll(js[i..], entries)
      {
        assert js[i..][0] == js[i] && js[i..][1..] == js[i + 1..];
        var w := WalkValue(js[i]);
      }
      entries := map n | n in entries :: Resolve(entries[n], entries);
    }
  }
}
