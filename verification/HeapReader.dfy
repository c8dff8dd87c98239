/** Reading printed variables back into a table of objects and references. */
module HeapReader {
  import opened Basics
  import opened HeapModel

  /** A reference: the id of an object in the table, or unknown. */
  datatype Target = Known(id: int) | Unknown

  datatype Shape = Container | Record

  datatype Entry = Entry(shape: Shape, fields: map<string, Json>, refs: map<string, Target>, addr: Option<string>)

  type Table = map<int, Entry>

  const PLACEHOLDER := Entry(Record, map[], map[], None)

  /** What a walked value turned out to be. */
  datatype Walked = WId(id: int) | WRef(target: Target) | WScalar

  /** Register the object a value carries, with everything first seen inside it. */
  function Walk(j: Json, t: Table): (Walked, Table)
    decreases j
  {
    if !j.JDict? then (WScalar, t)
    else
      var id := Get(j.entries, "$id");
      if id.Some? && id.value.JAtom? && id.value.atom.AInt? then
        var n := id.value.atom.n;
        if n in t then (WId(n), t)
        else
          var r := BuildFields(j.entries, NewEntry(j.entries), t[n := PLACEHOLDER]);
          (WId(n), r.1[n := r.0])
      else
        var ref := Get(j.entries, "$ref");
        if ref.None? then (WScalar, t)
        else if ref.value.JAtom? && ref.value.atom.AInt? then (WRef(Known(ref.value.atom.n)), t)
        else (WRef(Unknown), t)
  }

  function NewEntry(es: seq<KV>): Entry {
    var addr := Get(es, "$addr");
    Entry(if Get(es, "items").Some? then Container else Record, map[], map[],
          if addr.Some? && addr.value.JAtom? && addr.value.atom.AText? then Some(addr.value.atom.s) else None)
  }

  /** Sort an object's members into plain fields and references. */
  function BuildFields(es: seq<KV>, e: Entry, t: Table): (Entry, Table)
    decreases es
  {
    if es == [] then (e, t)
    else if es[0].key == "$id" || es[0].key == "$addr" then BuildFields(es[1..], e, t)
    else
      var w := WalkMember(es[0], t);
      BuildFields(es[1..], Sorted(es[0], w.0, e), w.1)
  }

  function WalkMember(kv: KV, t: Table): (Walked, Table)
    decreases kv
  {
    Walk(kv.val, t)
  }

  function Sorted(kv: KV, w: Walked, e: Entry): Entry {
    match w
    case WId(n) => e.(refs := e.refs[kv.key := Known(n)])
    case WRef(target) => e.(refs := e.refs[kv.key := target])
    case WScalar => e.(fields := e.fields[kv.key := kv.val])
  }

  function WalkAll(js: seq<Json>, t: Table): Table
    decreases |js|
  {
    if js == [] then t else WalkAll(js[1..], Walk(js[0], t).1)
  }

  /** References to objects that are not in the table become unknown. */
  function Resolve(e: Entry, t: Table): Entry {
    e.(refs := map f | f in e.refs :: if e.refs[f].Known? && e.refs[f].id !in t then Unknown else e.refs[f])
  }

  function Extract(js: seq<Json>): Table {
    var t := WalkAll(js, map[]);
    map n | n in t :: Resolve(t[n], t)
  }
}
