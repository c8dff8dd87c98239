/** Function bodies as the scope tracker sees them, and what it writes down per line. */
module ScopeModel {

  type Name = string

  /** A statement at a line. For a range-for or a for, names are the loop variables. */
  datatype Stmt =
    | Decl(line: nat, names: seq<Name>)
    | Expr(line: nat)
    | Block(line: nat, stmts: seq<Stmt>)
    | For(line: nat, names: seq<Name>, body: Body)
    | If(line: nat, yes: Body, no: Body)
    | Loop(line: nat, body: Body)

  /** A braced body, a single statement without braces, or no else branch. */
  datatype Body = Braces(stmts: seq<Stmt>) | Single(stmt: Stmt) | Nothing

  /** A variable: its name, an id that sets shadowing ones apart, its line and nesting depth. */
  datatype ScopeVar = ScopeVar(name: Name, uid: string, declLine: nat, depth: nat)

  function Digits(n: nat): string { if n < 10 then ["0123456789"[n]] else Digits(n / 10) + ["0123456789"[n % 10]] }

  predicate Named(vars: seq<ScopeVar>, name: Name) { exists i :: 0 <= i < |vars| && vars[i].name == name }

  /** The variables a declaration makes, one after the other. */
  function Declared(visible: seq<ScopeVar>, names: seq<Name>, line: nat, depth: nat): seq<ScopeVar>
    decreases |names|
  {
    if names == [] then []
    else
      var uid := if Named(visible, names[0]) then names[0] + "_" + Digits(depth) else names[0];
      var v := ScopeVar(names[0], uid, line, depth);
      [v] + Declared(visible + [v], names[1..], line, depth)
  }

  // ---- what is written down ---------------------------------------------------------------------

  type Table = map<nat, seq<ScopeVar>>

  /** Per line: what is visible on it, before it, and after its own declarations. */
  datatype Tables = Tables(main: Table, pre: Table, post: Table)

  /** Variables whose name is there already are left out. */
  function MergeNames(entry: seq<ScopeVar>, vars: seq<ScopeVar>): seq<ScopeVar>
    decreases |vars|
  {
    if vars == [] then entry
    else MergeNames(if Named(entry, vars[0].name) then entry else entry + [vars[0]], vars[1..])
  }

  /** The last index of a name; -1 if nowhere. */
  function IndexOf(entry: seq<ScopeVar>, name: Name): (i: int)
    ensures -1 <= i < |entry| && (i >= 0 ==> entry[i].name == name)
  {
    if entry == [] then -1
    else if entry[|entry| - 1].name == name then |entry| - 1
    else IndexOf(entry[..|entry| - 1], name)
  }

  /** Variables take the place of those of their name; positions are those of the entry at first. */
  function MergeReplace(entry: seq<ScopeVar>, vars: seq<ScopeVar>, first: seq<ScopeVar>): seq<ScopeVar>
    requires |first| <= |entry|
    decreases |vars|
  {
    if vars == [] then entry
    else
      var i := IndexOf(first, vars[0].name);
      MergeReplace(if i >= 0 then entry[i := vars[0]] else entry + [vars[0]], vars[1..], first)
  }

  function EntryAt(t: Table, line: nat): seq<ScopeVar> { if line in t then t[line] else [] }

  function Merged(t: Table, line: nat, vars: seq<ScopeVar>): Table {
    if line == 0 then t else t[line := MergeNames(EntryAt(t, line), vars)]
  }

  function Replaced(t: Table, line: nat, vars: seq<ScopeVar>): Table {
    if line == 0 then t else t[line := MergeReplace(EntryAt(t, line), vars, EntryAt(t, line))]
  }

  /** The first statement on a line decides what is visible before it. */
  function RecordPre(t: Tables, line: nat, visible: seq<ScopeVar>): Tables {
    if line in t.pre then t else t.(pre := Merged(t.pre, line, visible))
  }

  function RecordLine(t: Tables, line: nat, visible: seq<ScopeVar>): Tables {
    t.(main := Merged(t.main, line, visible), post := Merged(t.post, line, visible))
  }

  function AddPostDecls(t: Tables, line: nat, vars: seq<ScopeVar>): Tables {
    t.(main := Replaced(t.main, line, vars), post := Replaced(t.post, line, vars))
  }

  /** One statement's part: visible before it, visible with it, and its own variables. */
  datatype Rec = Rec(line: nat, before: seq<ScopeVar>, after: seq<ScopeVar>, own: seq<ScopeVar>)

  function Record(t: Tables, r: Rec): Tables {
    AddPostDecls(RecordLine(RecordPre(t, r.line, r.before), r.line, r.after), r.line, r.own)
  }

  function RecordAll(t: Tables, rs: seq<Rec>): Tables
    decreases |rs|
  {
    if rs == [] then t else RecordAll(Record(t, rs[0]), rs[1..])
  }

  // ---- the walk ---------------------------------------------------------------------------------

  /** What is visible after a statement of a block. */
  function After(s: Stmt, visible: seq<ScopeVar>, depth: nat): seq<ScopeVar> {
    if s.Decl? then visible + Declared(visible, s.names, s.line, depth) else visible
  }

  /** A statement's own part of the walk. */
  function Head(s: Stmt, visible: seq<ScopeVar>, depth: nat): Rec {
    match s
    case Decl(line, names) => Rec(line, visible, After(s, visible, depth), Declared(visible, names, line, depth))
    case For(line, names, _) => Rec(line, visible, visible, Declared(visible, names, line, depth))
    case _ => Rec(s.line, visible, visible, [])
  }

  function WalkStmt(s: Stmt, visible: seq<ScopeVar>, depth: nat): seq<Rec>
    decreases s
  {
    [Head(s, visible, depth)] +
    match s
    case Decl(_, _) => []
    case Expr(_) => []
    case Block(_, stmts) => WalkStmts(stmts, visible, depth + 1)
    case For(line, names, body) => WalkBody(body, visible + Declared(visible, names, line, depth), depth + 1)
    case If(_, yes, no) => WalkBody(yes, visible, depth + 1) + WalkBody(no, visible, depth + 1)
    case Loop(_, body) => WalkBody(body, visible, depth + 1)
  }

  function WalkStmts(stmts: seq<Stmt>, visible: seq<ScopeVar>, depth: nat): seq<Rec>
    decreases stmts
  {
    if stmts == [] then []
    else WalkStmt(stmts[0], visible, depth) + WalkStmts(stmts[1..], After(stmts[0], visible, depth), depth)
  }

  /** A bare declaration as a body is written down without its variables. */
  function WalkBody(body: Body, visible: seq<ScopeVar>, depth: nat): seq<Rec>
    decreases body
  {
    match body
    case Braces(stmts) => WalkStmts(stmts, visible, depth)
    case Single(s) => if s.Decl? then [Rec(s.line, visible, visible, [])] else WalkStmt(s, visible, depth)
    case Nothing => []
  }

  function Params(names: seq<Name>, line: nat): seq<ScopeVar> {
    if names == [] then [] else [ScopeVar(names[0], names[0], line, 0)] + Params(names[1..], line)
  }

  /** The tables of a function with these parameters and this body. */
  function ScopeMap(params: seq<Name>, line: nat, stmts: seq<Stmt>): Tables {
    RecordAll(Tables(map[], map[], map[]), WalkStmts(stmts, Params(params, line), 1))
  }
}
