/** Which variable a row shows for a name that is declared again in an inner block. */
module ScopeShadow {
  import opened ScopeModel
  import opened ScopeLexical
  import opened ScopeTables

  /** The variable of a name that was declared first. */
  function First(vars: seq<ScopeVar>, name: Name): (v: ScopeVar)
    requires Named(vars, name)
    ensures v.name == name
  {
    NamedCons(vars, name);
    if vars[0].name == name then vars[0] else First(vars[1..], name)
  }

  lemma {:induction false} FirstAppend(a: seq<ScopeVar>, b: seq<ScopeVar>, name: Name)
    requires Named(a, name)
    ensures Named(a + b, name) && First(a + b, name) == First(a, name)
  {
    NamedAppend(a, b, name);
    NamedCons(a, name);
    if a[0].name != name {
      assert (a + b)[1..] == a[1..] + b;
      FirstAppend(a[1..], b, name);
    }
  }

  lemma {:induction false} MergeKeepsFirst(entry: seq<ScopeVar>, vars: seq<ScopeVar>, name: Name)
    requires Named(entry, name)
    ensures Named(MergeNames(entry, vars), name) && First(MergeNames(entry, vars), name) == First(entry, name)
    decreases |vars|
  {
    hide Named, First;
    if vars != [] {
      FirstAppend(entry, [vars[0]], name);
      MergeKeepsFirst(if Named(entry, vars[0].name) then entry else entry + [vars[0]], vars[1..], name);
    }
  }

  lemma {:induction false} MergeTakesFirst(entry: seq<ScopeVar>, vars: seq<ScopeVar>, name: Name)
    requires !Named(entry, name) && Named(vars, name)
    ensures Named(MergeNames(entry, vars), name) && First(MergeNames(entry, vars), name) == First(vars, name)
    decreases |vars|
  {
    NamedCons(vars, name);
    NamedAppend(entry, [vars[0]], name);
    OneNamed(vars[0], name);
    if vars[0].name == name {
      FirstOfLast(entry, vars[0]);
      MergeKeepsFirst(entry + [vars[0]], vars[1..], name);
    } else {
      MergeTakesFirst(if Named(entry, vars[0].name) then entry else entry + [vars[0]], vars[1..], name);
    }
  }

  lemma {:induction false} FirstOfLast(entry: seq<ScopeVar>, v: ScopeVar)
    requires !Named(entry, v.name)
    ensures Named(entry + [v], v.name) && First(entry + [v], v.name) == v
  {
    NamedAppend(entry, [v], v.name);
    OneNamed(v, v.name);
    if entry != [] {
      NamedCons(entry, v.name);
      assert (entry + [v])[1..] == entry[1..] + [v];
      FirstOfLast(entry[1..], v);
    }
  }

  /** The variable of a name that was declared last. */
  function Last(vars: seq<ScopeVar>, name: Name): (v: ScopeVar)
    requires Named(vars, name)
    ensures v.name == name
  {
    if vars[|vars| - 1].name == name then vars[|vars| - 1] else Last(vars[..|vars| - 1], name)
  }

  lemma {:induction false} LastAppend(a: seq<ScopeVar>, b: seq<ScopeVar>, name: Name)
    requires Named(b, name)
    ensures Named(a + b, name) && Last(a + b, name) == Last(b, name)
  {
    NamedAppend(a, b, name);
    if b[|b| - 1].name != name {
      assert (a + b)[..|a + b| - 1] == a + b[..|b| - 1];
      LastAppend(a, b[..|b| - 1], name);
    }
  }

  lemma {:induction false} LastKept(a: seq<ScopeVar>, b: seq<ScopeVar>, name: Name)
    requires Named(a, name) && !Named(b, name)
    ensures Named(a + b, name) && Last(a + b, name) == Last(a, name)
    decreases |b|
  {
    NamedAppend(a, b, name);
    if b == [] { assert a + b == a; }
    else {
      assert b[|b| - 1].name != name;
      assert (a + b)[..|a + b| - 1] == a + b[..|b| - 1];
      LastKept(a, b[..|b| - 1], name);
    }
  }

  // ---- the lists a walk carries -----------------------------------------------------------------

  /** The name occurs once. */
  predicate Once(vars: seq<ScopeVar>, name: Name) {
    Named(vars, name) && forall j, k :: 0 <= j < k < |vars| && vars[j].name == name ==> vars[k].name != name
  }

  /** Inner variables stand behind outer ones, and an id is the plain name exactly if no variable of
      that name stands before. */
  predicate Nested(vars: seq<ScopeVar>, depth: nat) {
    && (forall k :: 0 <= k < |vars| ==> vars[k].depth <= depth)
    && (forall j, k :: 0 <= j < k < |vars| ==> vars[j].depth <= vars[k].depth)
    && forall k :: 0 <= k < |vars| ==> (vars[k].uid == vars[k].name <==> forall j :: 0 <= j < k ==> vars[j].name != vars[k].name)
  }

  lemma {:induction false} NestedMore(vars: seq<ScopeVar>, v: ScopeVar, depth: nat)
    requires Nested(vars, depth) && v.depth == depth && (v.uid == v.name <==> !Named(vars, v.name))
    ensures Nested(vars + [v], depth)
  {
    var w := vars + [v];
    forall k | 0 <= k < |w| ensures w[k].uid == w[k].name <==> forall j :: 0 <= j < k ==> w[j].name != w[k].name {
      assert forall j :: 0 <= j < k ==> w[j] == vars[j];
      if k < |vars| { assert w[k] == vars[k]; } else { assert w[k] == v; }
    }
  }

  lemma {:induction false} NestedDeeper(vars: seq<ScopeVar>, depth: nat)
    requires Nested(vars, depth)
    ensures Nested(vars, depth + 1)
  {}

  lemma {:induction false} NestedDeclared(visible: seq<ScopeVar>, names: seq<Name>, line: nat, depth: nat)
    requires Nested(visible, depth)
    ensures Nested(visible + Declared(visible, names, line, depth), depth)
    decreases |names|
  {
    hide Nested, Named;
    if names == [] { assert visible + [] == visible; }
    else {
      var uid := if Named(visible, names[0]) then names[0] + "_" + Digits(depth) else names[0];
      var v := ScopeVar(names[0], uid, line, depth);
      assert |uid| == |names[0]| ==> !Named(visible, names[0]);
      NestedMore(visible, v, depth);
      NestedDeclared(visible + [v], names[1..], line, depth);
      var rest := Declared(visible + [v], names[1..], line, depth);
      assert visible + ([v] + rest) == (visible + [v]) + rest;
    }
  }

  lemma {:induction false} NestedParams(names: seq<Name>, line: nat)
    requires Distinct(names)
    ensures |Params(names, line)| == |names|
    ensures forall i :: 0 <= i < |names| ==> Params(names, line)[i] == ScopeVar(names[i], names[i], line, 0)
    ensures Nested(Params(names, line), 1)
  {
    ParamsAre(names, line);
  }

  lemma {:induction false} ParamsAre(names: seq<Name>, line: nat)
    ensures |Params(names, line)| == |names|
    ensures forall i :: 0 <= i < |names| ==> Params(names, line)[i] == ScopeVar(names[i], names[i], line, 0)
  {
    if names != [] { ParamsAre(names[1..], line); }
  }

  ghost predicate Orderly(vars: seq<ScopeVar>) { exists depth: nat :: Nested(vars, depth) }

  ghost predicate AllNested(rs: seq<Rec>) { forall k :: 0 <= k < |rs| ==> Orderly(rs[k].before) }

  lemma {:induction false} AllNestedAppend(a: seq<Rec>, b: seq<Rec>)
    requires AllNested(a) && AllNested(b)
    ensures AllNested(a + b)
  {
    hide Orderly;
  }

  lemma {:induction false} OneNested(r: Rec, depth: nat)
    requires Nested(r.before, depth)
    ensures AllNested([r])
  {
    assert Orderly(r.before);
  }

  lemma {:induction false} StmtNested(s: Stmt, visible: seq<ScopeVar>, depth: nat)
    requires Nested(visible, depth)
    ensures AllNested(WalkStmt(s, visible, depth))
    decreases s
  {
    hide AllNested, Nested;
    var head := [Head(s, visible, depth)];
    OneNested(Head(s, visible, depth), depth);
    NestedDeeper(visible, depth);
    match s
    case Decl(_, _) => assert head + [] == head;
    case Expr(_) => assert head + [] == head;
    case Block(_, stmts) =>
      StmtsNested(stmts, visible, depth + 1);
      AllNestedAppend(head, WalkStmts(stmts, visible, depth + 1));
    case For(line, names, body) =>
      var inner := visible + Declared(visible, names, line, depth);
      NestedDeclared(visible, names, line, depth);
      NestedDeeper(inner, depth);
      BodyNested(body, inner, depth + 1);
      AllNestedAppend(head, WalkBody(body, inner, depth + 1));
    case If(_, yes, no) =>
      BodyNested(yes, visible, depth + 1);
      BodyNested(no, visible, depth + 1);
      AllNestedAppend(WalkBody(yes, visible, depth + 1), WalkBody(no, visible, depth + 1));
      AllNestedAppend(head, WalkBody(yes, visible, depth + 1) + WalkBody(no, visible, depth + 1));
    case Loop(_, body) =>
      BodyNested(body, visible, depth + 1);
      AllNestedAppend(head, WalkBody(body, visible, depth + 1));
  }

  lemma {:induction false} StmtsNested(stmts: seq<Stmt>, visible: seq<ScopeVar>, depth: nat)
    requires Nested(visible, depth)
    ensures AllNested(WalkStmts(stmts, visible, depth))
    decreases stmts
  {
    hide Nested;
    if stmts != [] {
      if stmts[0].Decl? { NestedDeclared(visible, stmts[0].names, stmts[0].line, depth); }
      StmtNested(stmts[0], visible, depth);
      StmtsNested(stmts[1..], After(stmts[0], visible, depth), depth);
      hide AllNested;
      AllNestedAppend(WalkStmt(stmts[0], visible, depth), WalkStmts(stmts[1..], After(stmts[0], visible, depth), depth));
    }
  }

  lemma {:induction false} BodyNested(body: Body, visible: seq<ScopeVar>, depth: nat)
    requires Nested(visible, depth)
    ensures AllNested(WalkBody(body, visible, depth))
    decreases body
  {
    hide AllNested, Nested;
    match body
    case Braces(stmts) => StmtsNested(stmts, visible, depth);
    case Single(s) => if s.Decl? { OneNested(Rec(s.line, visible, visible, []), depth); } else { StmtNested(s, visible, depth); }
    case Nothing => NothingNested();
  }

  lemma {:induction false} NothingNested()
    ensures AllNested([])
  {}

  // ---- what is shown -----------------------------------------------------------------------------

  /** Of the visible variables of a name the one declared last is the most deeply nested. */
  lemma {:induction false} LastIsDeepest(vars: seq<ScopeVar>, depth: nat, name: Name, k: nat)
    requires Nested(vars, depth) && k < |vars| && vars[k].name == name
    ensures Named(vars, name) && vars[k].depth <= Last(vars, name).depth
  {
    hide Last;
    var n := LastAt(vars, name);
  }

  lemma {:induction false} FirstAt(vars: seq<ScopeVar>, name: Name) returns (k: nat)
    requires Named(vars, name)
    ensures k < |vars| && vars[k] == First(vars, name) && vars[k].name == name && forall j :: 0 <= j < k ==> vars[j].name != name
  {
    NamedCons(vars, name);
    if vars[0].name == name { k := 0; }
    else {
      var n := FirstAt(vars[1..], name);
      k := n + 1;
    }
  }

  lemma {:induction false} LastAt(vars: seq<ScopeVar>, name: Name) returns (k: nat)
    requires Named(vars, name)
    ensures k < |vars| && vars[k] == Last(vars, name) && vars[k].name == name && forall j :: k < j < |vars| ==> vars[j].name != name
  {
    if vars[|vars| - 1].name == name { k := |vars| - 1; } else { k := LastAt(vars[..|vars| - 1], name); }
  }

  /** The first and the last of a name are the same variable exactly if the name occurs once. */
  lemma {:induction false} FirstIsLast(vars: seq<ScopeVar>, depth: nat, name: Name)
    requires Nested(vars, depth) && Named(vars, name)
    ensures First(vars, name) == Last(vars, name) <==> Once(vars, name)
  {
    hide First, Last;
    var i := FirstAt(vars, name);
    var k := LastAt(vars, name);
  }

  /** Parameters have distinct names. */
  predicate Distinct(names: seq<Name>) { forall i, j :: 0 <= i < j < |names| ==> names[i] != names[j] }

  lemma {:induction false} BeforeNested(params: seq<Name>, line: nat, stmts: seq<Stmt>, i: nat) returns (depth: nat)
    requires i < SizeOfAll(stmts) && Distinct(params)
    ensures Nested(Rows(params, line, stmts)[i].before, depth)
  {
    hide Nested;
    NestedParams(params, line);
    StmtsNested(stmts, Params(params, line), 1);
    assert Orderly(Rows(params, line, stmts)[i].before);
    depth :| Nested(Rows(params, line, stmts)[i].before, depth);
  }

  /** Before the first statement of a line: for each visible name the row shows the variable declared
      first. That is the innermost one, declared last and nested most deeply, if and only if the
      name is visible but once. */
  lemma {:induction false} OuterVariableShown(params: seq<Name>, line: nat, stmts: seq<Stmt>, i: nat, name: Name)
    requires i < SizeOfAll(stmts) && Distinct(params) && Named(Rows(params, line, stmts)[i].before, name)
    requires var rs := Rows(params, line, stmts); rs[i].line > 0 && forall j :: 0 <= j < i ==> rs[j].line != rs[i].line
    ensures var t, r := ScopeMap(params, line, stmts), Rows(params, line, stmts)[i];
            && r.line in t.pre && Named(t.pre[r.line], name) && First(t.pre[r.line], name) == First(r.before, name)
            && (First(t.pre[r.line], name) == Last(r.before, name) <==> Once(r.before, name))
            && forall k :: 0 <= k < |r.before| && r.before[k].name == name ==> r.before[k].depth <= Last(r.before, name).depth
  {
    hide Named, First, WalkStmts, MergeNames, RecordAll, Last, Once, Nested;
    var rs := Rows(params, line, stmts);
    PreRow(Tables(map[], map[], map[]), rs, i);
    NoneNamed(name);
    MergeTakesFirst([], rs[i].before, name);
    var depth := BeforeNested(params, line, stmts, i);
    FirstIsLast(rs[i].before, depth, name);
    forall k: nat | k < |rs[i].before| && rs[i].before[k].name == name ensures rs[i].before[k].depth <= Last(rs[i].before, name).depth {
      LastIsDeepest(rs[i].before, depth, name, k);
    }
  }

  // ---- after a statement's own declarations ----------------------------------------------------------

  /** The innermost variable of a name with the statement: its own, or else the last visible before. */
  function Innermost(r: Rec, name: Name): ScopeVar
    requires Named(r.before, name) || Named(r.own, name)
  {
    if Named(r.own, name) then Last(r.own, name) else Last(r.before, name)
  }

  /** In a row without repeated names, a variable that is there is the one shown. */
  lemma {:induction false} ShownIs(row: seq<ScopeVar>, v: ScopeVar)
    requires Unique(row) && v in row
    ensures Named(row, v.name) && First(row, v.name) == v
  {
    hide First;
    var k := FirstAt(row, v.name);
  }

  /** Nothing appended so far has a name still to come. */
  predicate Unmet(entry: seq<ScopeVar>, vars: seq<ScopeVar>, n: nat) {
    forall k, j :: n <= k < |entry| && 0 <= j < |vars| ==> entry[k].name != vars[j].name
  }

  /** Replacing puts every new variable in, and takes out only what has a new one's name. */
  lemma {:induction false} ReplaceShows(entry: seq<ScopeVar>, vars: seq<ScopeVar>, first: seq<ScopeVar>, v: ScopeVar)
    requires Begins(first, entry) && Unique(entry) && Unique(vars) && Unmet(entry, vars, |first|)
    requires v in vars || (v in entry && !Named(vars, v.name))
    ensures Unique(MergeReplace(entry, vars, first)) && v in MergeReplace(entry, vars, first)
    decreases |vars|
  {
    if vars != [] {
      var i := IndexOf(first, vars[0].name);
      var e := if i >= 0 then entry[i := vars[0]] else entry + [vars[0]];
      NamedCons(vars, v.name);
      ReplaceOne(entry, vars, first, i, v);
      ReplaceShows(e, vars[1..], first, v);
    }
  }

  lemma {:induction false} ReplaceOne(entry: seq<ScopeVar>, vars: seq<ScopeVar>, first: seq<ScopeVar>, i: int, v: ScopeVar)
    requires Begins(first, entry) && Unique(entry) && vars != [] && Unique(vars) && Unmet(entry, vars, |first|)
    requires i == IndexOf(first, vars[0].name) && (v in vars || (v in entry && !Named(vars, v.name)))
    ensures var e := if i >= 0 then entry[i := vars[0]] else entry + [vars[0]];
            && Begins(first, e) && Unique(e) && Unique(vars[1..]) && Unmet(e, vars[1..], |first|)
            && (v in vars[1..] || (v in e && !Named(vars[1..], v.name)))
  {
    hide IndexOf;
    IndexFinds(first, vars[0].name);
    NamedCons(vars, v.name);
    if v == vars[0] {
      forall j | 0 <= j < |vars[1..]| ensures vars[1..][j].name != v.name { assert vars[1..][j] == vars[j + 1]; }
    }
    if i >= 0 {
      var e := entry[i := vars[0]];
      assert e[i] == vars[0];
      if v in entry {
        var k :| 0 <= k < |entry| && entry[k] == v;
        assert k != i ==> e[k] == v;
      }
    } else {
      assert !Named(entry, vars[0].name) by {
        forall k | 0 <= k < |entry| ensures entry[k].name != vars[0].name { if k < |first| { assert first[k].name == entry[k].name; } }
      }
    }
  }

  /** The row after a statement alone on its line: a name of its own declarations stands for its own
      variable, any other for the variable declared first. So it stands for the innermost variable
      if and only if the statement declares it or it is visible but once before. */
  lemma {:induction false} InnermostAfter(params: seq<Name>, line: nat, stmts: seq<Stmt>, i: nat, name: Name)
    requires i < SizeOfAll(stmts) && Distinct(params)
    requires var rs := Rows(params, line, stmts);
             Alone(rs, i) && Unique(rs[i].own) && (Named(rs[i].before, name) || Named(rs[i].own, name))
    ensures var t, r := ScopeMap(params, line, stmts), Rows(params, line, stmts)[i];
            && r.line in t.post && r.line in t.main && t.main[r.line] == t.post[r.line] && Named(t.post[r.line], name)
            && First(t.post[r.line], name) == (if Named(r.own, name) then Last(r.own, name) else First(r.before, name))
            && (First(t.post[r.line], name) == Innermost(r, name) <==> Named(r.own, name) || Once(r.before, name))
  {
    hide Named, First, Last, WalkStmts, RecordAll, Once, Nested, PostEntry, OwnFits;
    var rs := Rows(params, line, stmts);
    RowsAre(Tables(map[], map[], map[]), rs, i);
    StmtsOwnFit(stmts, Params(params, line), 1);
    PostShows(rs[i], name);
    if !Named(rs[i].own, name) {
      var depth := BeforeNested(params, line, stmts, i);
      FirstIsLast(rs[i].before, depth, name);
    }
  }

  lemma {:induction false} PostShows(r: Rec, name: Name)
    requires OwnFits(r) && Unique(r.own) && (Named(r.before, name) || Named(r.own, name))
    ensures Named(PostEntry(r), name)
    ensures First(PostEntry(r), name) == if Named(r.own, name) then Last(r.own, name) else First(r.before, name)
  {
    hide Named, First, Last, MergeNames, MergeReplace;
    var e := MergeNames([], r.after);
    MergeNamesUnique([], r.after);
    if Named(r.own, name) {
      var k := LastAt(r.own, name);
      ReplaceShows(e, r.own, e, r.own[k]);
      ShownIs(PostEntry(r), r.own[k]);
    } else {
      AfterFirst(r, name);
      NoneNamed(name);
      MergeTakesFirst([], r.after, name);
      var k := FirstAt(e, name);
      ReplaceShows(e, r.own, e, e[k]);
      ShownIs(PostEntry(r), e[k]);
    }
  }

  lemma {:induction false} AfterFirst(r: Rec, name: Name)
    requires OwnFits(r) && Named(r.before, name)
    ensures Named(r.after, name) && First(r.after, name) == First(r.before, name)
  {
    FirstAppend(r.before, r.own, name);
  }

  // ---- a shadowed name ------------------------------------------------------------------------------

  lemma {:induction false} DeclaredOne(visible: seq<ScopeVar>, name: Name, line: nat, depth: nat)
    ensures Declared(visible, [name], line, depth)
            == [ScopeVar(name, if Named(visible, name) then name + "_" + Digits(depth) else name, line, depth)]
  {
    assert [name][1..] == [];
  }

  const OUTER := ScopeVar("x", "x", 1, 1)
  const INNER := ScopeVar("x", "x_2", 3, 2)
  const BLOCK := [Decl(3, ["x"]), Expr(4)]
  const SHADOWING := [Decl(1, ["x"]), Block(2, BLOCK)]

  lemma {:induction false} OuterDeclared()
    ensures Declared([], ["x"], 1, 1) == [OUTER]
  {
    DeclaredOne([], "x", 1, 1);
    NoneNamed("x");
  }

  lemma {:induction false} InnerDeclared()
    ensures Declared([OUTER], ["x"], 3, 2) == [INNER]
  {
    DeclaredOne([OUTER], "x", 3, 2);
    OneNamed(OUTER, "x");
    assert "0123456789"[2] == '2';
    assert Digits(2) == "2";
    assert "x" + "_" == "x_";
    assert "x_" + "2" == "x_2";
  }

  lemma {:induction false} BlockRows()
    ensures WalkStmts(BLOCK, [OUTER], 2) == [Rec(3, [OUTER], [OUTER, INNER], [INNER]), Rec(4, [OUTER, INNER], [OUTER, INNER], [])]
  {
    hide Declared;
    InnerDeclared();
    var d, e := BLOCK[0], Expr(4);
    assert BLOCK[1..] == [e] && [e][1..] == [];
    assert [OUTER] + [INNER] == [OUTER, INNER];
    assert WalkStmt(e, [OUTER, INNER], 2) == [Rec(4, [OUTER, INNER], [OUTER, INNER], [])];
    assert WalkStmts([e], [OUTER, INNER], 2) == WalkStmt(e, [OUTER, INNER], 2) + WalkStmts([], [OUTER, INNER], 2);
    assert WalkStmt(d, [OUTER], 2) == [Rec(3, [OUTER], [OUTER, INNER], [INNER])];
    assert After(d, [OUTER], 2) == [OUTER, INNER];
  }

  lemma {:induction false} ShadowingRows()
    ensures Rows([], 0, SHADOWING)
            == [Rec(1, [], [OUTER], [OUTER]), Rec(2, [OUTER], [OUTER], []), Rec(3, [OUTER], [OUTER, INNER], [INNER]),
                Rec(4, [OUTER, INNER], [OUTER, INNER], [])]
  {
    hide Declared;
    OuterDeclared();
    BlockRows();
    var d, b := SHADOWING[0], Block(2, BLOCK);
    assert SHADOWING[1..] == [b] && [b][1..] == [];
    assert [] + [OUTER] == [OUTER];
    assert After(d, [], 1) == [OUTER];
    assert WalkStmt(d, [], 1) == [Rec(1, [], [OUTER], [OUTER])];
    assert WalkStmt(b, [OUTER], 1) == [Rec(2, [OUTER], [OUTER], [])] + WalkStmts(BLOCK, [OUTER], 2);
    assert WalkStmts([b], [OUTER], 1) == WalkStmt(b, [OUTER], 1) + WalkStmts([], [OUTER], 1);
  }

  /** int x; { int x; ..; } -- before the last statement the inner x is the innermost, and the row
      shows the outer. */
  lemma {:induction false} ShadowedShowsOuter()
    ensures var t, rs := ScopeMap([], 0, SHADOWING), Rows([], 0, SHADOWING);
            && |rs| == 4 && rs[3].line == 4 && rs[3].before == [OUTER, INNER]
            && Named(rs[3].before, "x") && Last(rs[3].before, "x") == INNER
            && 4 in t.pre && t.pre[4] == [OUTER]
  {
    hide WalkStmts, RecordAll;
    ShadowingRows();
    PreRow(Tables(map[], map[], map[]), Rows([], 0, SHADOWING), 3);
    var both := [OUTER, INNER];
    assert both[0].name == "x" && both[1].name == "x";
    assert both[1..] == [INNER] && [INNER][1..] == [];
    NoneNamed("x");
    OneNamed(OUTER, "x");
    assert [] + [OUTER] == [OUTER];
    assert MergeNames([OUTER], [INNER]) == [OUTER];
    assert MergeNames([], both) == MergeNames([OUTER], [INNER]);
  }
}
