/** The emitted serializers, as functions: a depth-first walk that prints every object in full
    the first time and as a reference after that, ids being assigned on first sight. */
module HeapPrinter {
  import opened HeapModel

  const DEPTH_LIMIT := 50

  /** The id of every address met so far, kept for the whole program run. */
  datatype Ids = Ids(of: map<Addr, int>, next: int)

  function IdFor(ids: Ids, a: Addr): Ids {
    if a in ids.of then ids else Ids(ids.of[a := ids.next], ids.next + 1)
  }

  function HexDigit(d: nat): char
    requires d < 16
  {
    "0123456789abcdef"[d]
  }

  function Hex(n: nat): string {
    if n < 16 then [HexDigit(n)] else Hex(n / 16) + [HexDigit(n % 16)]
  }

  function AddrText(a: Addr): string { "0x" + Hex(a) }

  function RefJson(id: int, cycle: bool): Json {
    JDict([KV("$ref", JAtom(AInt(id)))] + (if cycle then [KV("$cycle", JAtom(ABool(true)))] else []))
  }

  function FreedJson(id: int): Json { JDict([KV("$ref", JAtom(AInt(id))), KV("$freed", JAtom(ABool(true)))]) }

  const LIMIT_JSON := JDict([KV("$depth_limit", JAtom(ABool(true)))])

  function Header(id: int, a: Addr): seq<KV> {
    [KV("$id", JAtom(AInt(id))), KV("$addr", JAtom(AText(AddrText(a))))]
  }

  datatype Printed = Printed(json: Json, ids: Ids, emitted: set<Addr>)
  datatype PrintedFields = PrintedFields(kvs: seq<KV>, ids: Ids, emitted: set<Addr>)

  /** Print the object at a, below the objects being printed (visited). */
  function Serialize(m: Memory, a: Addr, ids: Ids, visited: set<Addr>, emitted: set<Addr>, depth: nat): Printed
    requires a in m.objs
    decreases if depth > DEPTH_LIMIT then 0 else DEPTH_LIMIT + 1 - depth, 1
  {
    if depth > DEPTH_LIMIT then Printed(LIMIT_JSON, ids, emitted)
    else
      var ids1 := IdFor(ids, a);
      var id := ids1.of[a];
      if a in m.freed then Printed(FreedJson(id), ids1, emitted)
      else if a in visited then Printed(RefJson(id, true), ids1, emitted)
      else if a in emitted then Printed(RefJson(id, false), ids1, emitted)
      else
        var r := SerializeFields(m, m.objs[a], ids1, visited + {a}, emitted, depth);
        Printed(JDict(Header(id, a) + r.kvs), r.ids, r.emitted + {a})
  }

  function SerializeFields(m: Memory, fs: seq<Field>, ids: Ids, visited: set<Addr>, emitted: set<Addr>, depth: nat)
    : PrintedFields
    requires depth <= DEPTH_LIMIT
    decreases DEPTH_LIMIT + 1 - depth, 0, |fs|
  {
    if fs == [] then PrintedFields([], ids, emitted)
    else
      var p := SerializeContent(m, fs[0].content, ids, visited, emitted, depth);
      var r := SerializeFields(m, fs[1..], p.ids, visited, p.emitted, depth);
      PrintedFields([KV(fs[0].name, p.json)] + r.kvs, r.ids, r.emitted)
  }

  /** A pointer field: null, freed, unreadable (printed as null), or the object it points to. */
  function SerializeContent(m: Memory, c: Content, ids: Ids, visited: set<Addr>, emitted: set<Addr>, depth: nat): Printed
    requires depth <= DEPTH_LIMIT
    decreases DEPTH_LIMIT + 1 - depth, 0, 0
  {
    match c
    case Scalar(v) => Printed(v, ids, emitted)
    case Ptr(t) =>
      if t == 0 then Printed(JNULL, ids, emitted)
      else if t in m.freed then
        var ids1 := IdFor(ids, t);
        Printed(FreedJson(ids1.of[t]), ids1, emitted)
      else if t !in m.objs then Printed(JNULL, ids, emitted)
      else Serialize(m, t, ids, visited, emitted, depth + 1)
  }

  /** A variable of a program state: a struct pointer, a struct, or anything else. */
  datatype Root = Pointer(a: Addr) | Struct(s: Addr) | Value(j: Json)

  function SerializeRoot(m: Memory, r: Root, ids: Ids): (Json, Ids)
    requires r.Struct? ==> r.s in m.objs
  {
    match r
    case Value(j) => (j, ids)
    case Struct(s) => var p := Serialize(m, s, ids, {}, {}, 0); (p.json, p.ids)
    case Pointer(a) =>
      if a == 0 then (JNULL, ids)
      else
        var ids1 := IdFor(ids, a);
        if a in m.freed then (FreedJson(ids1.of[a]), ids1)
        else if a !in m.objs then (JNULL, ids1)
        else var p := Serialize(m, a, ids1, {}, {}, 0); (p.json, p.ids)
  }

  predicate RootsReadable(m: Memory, roots: seq<Root>) {
    forall i :: 0 <= i < |roots| && roots[i].Struct? ==> roots[i].s in m.objs
  }

  /** All variables of one state, in order, sharing the ids. */
  function SerializeRoots(m: Memory, roots: seq<Root>, ids: Ids): (seq<Json>, Ids)
    requires RootsReadable(m, roots)
  {
    if roots == [] then ([], ids)
    else
      var p := SerializeRoot(m, roots[0], ids);
      var r := SerializeRoots(m, roots[1..], p.1);
      ([p.0] + r.0, r.1)
  }
}
