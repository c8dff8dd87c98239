/** Programs, control-flow graphs and what a reader sees of a visit.
    Libclang cursors become the datatype Stmt, in the fragment the graph is exact on. */
module CfgModel {
  import opened Basics

  /** A cursor's place: its primary line (0 when it has none) and its text. */
  datatype Src = Src(line: nat, text: string)

  datatype Stmt =
    | Simple(src: Src, call: bool)                        // call: mentions a user function
    | Compound(body: seq<Stmt>)
    | If(src: Src, thn: Option<Stmt>, els: Option<Stmt>)
    | Loop(src: Src, lbody: Option<Stmt>)                 // while, for, range-for
    | Switch(src: Src, items: seq<Item>)
    | Return(src: Src)
    | Break
    | Continue
    | Other(src: Src)                                     // any other that completes normally: a line node

  /** One child of a switch body: labelled (at most once) or not. */
  datatype Item = Item(lab: Label, first: Option<Stmt>)
  datatype Label = Case(value: string) | Default | NoLabel

  function LabelText(lab: Label): string
    requires !lab.NoLabel?
  {
    if lab.Case? then "case " + lab.value else "default"
  }

  predicate Labelled(it: Item, d: string) { !it.lab.NoLabel? && LabelText(it.lab) == d }

  function Labels(items: seq<Item>): seq<string> {
    if items == [] then []
    else (if items[0].lab.NoLabel? then [] else [LabelText(items[0].lab)]) + Labels(items[1..])
  }

  predicate HasDefault(items: seq<Item>) {
    items != [] && (items[0].lab.Default? || HasDefault(items[1..]))
  }

  /** The decisions a switch can take; without a default label control may skip it. */
  function SwitchChoices(items: seq<Item>): seq<string> {
    Labels(items) + (if HasDefault(items) then [] else ["default"])
  }

  // ---- what C++ asks of a program -------------------------------------------------

  predicate NoDuplicates<T(==)>(s: seq<T>) { forall i, j :: 0 <= i < j < |s| ==> s[i] != s[j] }

  /** break only inside a loop or switch, continue only inside a loop, case labels distinct. */
  predicate WellFormed(s: Stmt, mayBreak: bool, mayContinue: bool)
    decreases s
  {
    match s
    case Compound(body) => WellFormedBody(body, mayBreak, mayContinue)
    case If(_, thn, els) =>
      WellFormedOption(thn, mayBreak, mayContinue) && WellFormedOption(els, mayBreak, mayContinue)
    case Loop(_, b) => WellFormedOption(b, true, true)
    case Switch(_, items) => NoDuplicates(Labels(items)) && WellFormedItems(items, mayContinue)
    case Break => mayBreak
    case Continue => mayContinue
    case _ => true
  }

  predicate WellFormedOption(o: Option<Stmt>, mayBreak: bool, mayContinue: bool)
    decreases o
  {
    o.Some? ==> WellFormed(o.value, mayBreak, mayContinue)
  }

  predicate WellFormedBody(b: seq<Stmt>, mayBreak: bool, mayContinue: bool)
    decreases b
  {
    b != [] ==> WellFormed(b[0], mayBreak, mayContinue) && WellFormedBody(b[1..], mayBreak, mayContinue)
  }

  predicate WellFormedItem(it: Item, mayContinue: bool)
    decreases it
  {
    WellFormedOption(it.first, true, mayContinue)
  }

  predicate WellFormedItems(items: seq<Item>, mayContinue: bool)
    decreases items
  {
    items != [] ==> WellFormedItem(items[0], mayContinue) && WellFormedItems(items[1..], mayContinue)
  }

  // ---- graphs -------------------------------------------------------------------------

  /** Written prefix_n in the graph; n alone is unique. */
  datatype Id = Id(prefix: string, n: nat)
  datatype Kind = FuncStart | FuncEnd | Line | FuncCall | Branch | LoopHead

  /** A node with the lines shown for it and the cursors it was made for. */
  datatype Node = Node(id: Id, kind: Kind, lines: seq<nat>, cursors: seq<Stmt>)

  /** `tag` is the label drawn on the edge. */
  datatype Edge = Edge(source: Id, target: Id, tag: string,
                       sourceHandle: Option<string>, targetHandle: Option<string>)

  /** An out-going branch still waiting for its target. */
  datatype Pending = Pending(source: Id, tag: string, handle: Option<string>)

  /** The decision an edge or pending edge stands for: its handle when it has one. */
  function Choice(tag: string, handle: Option<string>): string {
    if handle.Some? then handle.value else tag
  }
  function Dec(p: Pending): string { Choice(p.tag, p.handle) }

  /** The pending edge leaving a node under decision d. */
  function Port(id: Id, d: string): (p: Pending)
    ensures p.source == id && Dec(p) == d
  {
    Pending(id, d, if d == "true" || d == "false" then Some(d) else None)
  }

  function Choices(n: Node): seq<string> {
    match n.kind
    case FuncEnd => []
    case LoopHead => ["true", "false"]
    case Branch =>
      if |n.cursors| == 1 && n.cursors[0].Switch? then SwitchChoices(n.cursors[0].items)
      else ["true", "false"]
    case _ => [""]
  }

  // ---- what is observed of an execution ----------------------------------------------

  /** A statement was carried out, or its condition evaluated. */
  datatype Atom = Did(src: Src) | Chose(src: Src)

  /** Statements without a line of their own are not observed. */
  function Obs(s: Stmt): seq<Atom> {
    match s
    case Simple(src, _) => if src.line == 0 then [] else [Did(src)]
    case Other(src) => if src.line == 0 then [] else [Did(src)]
    case Return(src) => if src.line == 0 then [] else [Did(src)]
    case If(src, _, _) => if src.line == 0 then [] else [Chose(src)]
    case Loop(src, _) => if src.line == 0 then [] else [Chose(src)]
    case Switch(src, _) => if src.line == 0 then [] else [Chose(src)]
    case _ => []
  }

  function ObsAll(b: seq<Stmt>): seq<Atom> {
    if b == [] then [] else Obs(b[0]) + ObsAll(b[1..])
  }
}
