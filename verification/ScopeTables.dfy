/** From lists to tables: what a line's entry holds, and the scope map's meaning. */
module ScopeTables {
  import opened ScopeModel
  import opened ScopeLexical

  // ---- entries ------------------------------------------------------------------------------------

  /** No name twice. */
  predicate Unique(vars: seq<ScopeVar>) { forall i, j :: 0 <= i < j < |vars| ==> vars[i].name != vars[j].name }

  lemma {:induction false} OneNamed(v: ScopeVar, name: Name)
    ensures Named([v], name) <==> v.name == name
  {
    if v.name == name { assert [v][0] == v; }
  }

  lemma {:induction false} NamedCons(vars: seq<ScopeVar>, name: Name)
    requires vars != []
    ensures Named(vars, name) <==> vars[0].name == name || Named(vars[1..], name)
  {
    assert vars == [vars[0]] + vars[1..];
    NamedAppend([vars[0]], vars[1..], name);
    OneNamed(vars[0], name);
  }

  /** Merging adds exactly the names merged in, and none twice. */
  lemma {:induction false} MergeNamesNamed(entry: seq<ScopeVar>, vars: seq<ScopeVar>, name: Name)
    ensures Named(MergeNames(entry, vars), name) <==> Named(entry, name) || Named(vars, name)
    decreases |vars|
  {
    hide Named;
    if vars != [] {
      var more := if Named(entry, vars[0].name) then entry else entry + [vars[0]];
      MergeNamesNamed(more, vars[1..], name);
      NamedCons(vars, name);
      NamedAppend(entry, [vars[0]], name);
      OneNamed(vars[0], name);
    } else {
      NoneNamed(name);
    }
  }

  lemma {:induction false} NoneNamed(name: Name)
    ensures !Named([], name)
  {}

  lemma {:induction false} MergeNamesUnique(entry: seq<ScopeVar>, vars: seq<ScopeVar>)
    requires Unique(entry)
    ensures Unique(MergeNames(entry, vars))
    decreases |vars|
  {
    if vars != [] {
      MergeNamesUnique(if Named(entry, vars[0].name) then entry else entry + [vars[0]], vars[1..]);
    }
  }

  lemma {:induction false} IndexFinds(entry: seq<ScopeVar>, name: Name)
    ensures Named(entry, name) <==> IndexOf(entry, name) >= 0
  {
    if entry != [] {
      var front, last := entry[..|entry| - 1], entry[|entry| - 1];
      IndexFinds(front, name);
      assert entry == front + [last];
      NamedAppend(front, [last], name);
      OneNamed(last, name);
    }
  }

  lemma {:induction false} SameNames(a: seq<ScopeVar>, b: seq<ScopeVar>, name: Name)
    requires |a| == |b| && forall i :: 0 <= i < |a| ==> a[i].name == b[i].name
    ensures Named(a, name) <==> Named(b, name)
  {
    if Named(a, name) {
      var i :| 0 <= i < |a| && a[i].name == name;
      assert b[i].name == name;
    }
  }

  /** entry begins with the names of first. */
  predicate Begins(first: seq<ScopeVar>, entry: seq<ScopeVar>) {
    |first| <= |entry| && forall i :: 0 <= i < |first| ==> first[i].name == entry[i].name
  }

  /** Replacing adds exactly the new names. */
  lemma {:induction false} MergeReplaceNamed(entry: seq<ScopeVar>, vars: seq<ScopeVar>, first: seq<ScopeVar>, name: Name)
    requires Begins(first, entry)
    ensures Named(MergeReplace(entry, vars, first), name) <==> Named(entry, name) || Named(vars, name)
    decreases |vars|
  {
    hide Named;
    if vars != [] {
      var i := IndexOf(first, vars[0].name);
      NamedCons(vars, name);
      if i >= 0 {
        SameNames(entry, entry[i := vars[0]], name);
        SameNames(entry, entry[i := vars[0]], vars[0].name);
        MergeReplaceNamed(entry[i := vars[0]], vars[1..], first, name);
        At(entry, i);
      } else {
        NamedAppend(entry, [vars[0]], name);
        OneNamed(vars[0], name);
        MergeReplaceNamed(entry + [vars[0]], vars[1..], first, name);
      }
    } else {
      NoneNamed(name);
    }
  }

  lemma {:induction false} At(entry: seq<ScopeVar>, i: nat)
    requires i < |entry|
    ensures Named(entry, entry[i].name)
  {}

  // ---- rows -----------------------------------------------------------------------------------------

  predicate Untouched(t: Tables, t': Tables, line: nat) {
    && (line in t.main <==> line in t'.main) && (line in t.pre <==> line in t'.pre) && (line in t.post <==> line in t'.post)
    && (line in t.main ==> t'.main[line] == t.main[line])
    && (line in t.pre ==> t'.pre[line] == t.pre[line])
    && (line in t.post ==> t'.post[line] == t.post[line])
  }

  lemma {:induction false} RecordElsewhere(t: Tables, r: Rec, line: nat)
    requires line != r.line
    ensures Untouched(t, Record(t, r), line)
  {
    hide MergeNames, MergeReplace;
  }

  lemma {:induction false} RecordAllElsewhere(t: Tables, rs: seq<Rec>, line: nat)
    requires forall k :: 0 <= k < |rs| ==> rs[k].line != line
    ensures Untouched(t, RecordAll(t, rs), line)
    decreases |rs|
  {
    hide Record;
    if rs != [] {
      RecordElsewhere(t, rs[0], line);
      RecordAllElsewhere(Record(t, rs[0]), rs[1..], line);
    }
  }

  function PreEntry(r: Rec): seq<ScopeVar> { MergeNames([], r.before) }

  function PostEntry(r: Rec): seq<ScopeVar> {
    var e := MergeNames([], r.after);
    MergeReplace(e, r.own, e)
  }

  predicate RowIs(t: Tables, r: Rec) {
    && r.line in t.pre && r.line in t.main && r.line in t.post
    && t.pre[r.line] == PreEntry(r) && t.post[r.line] == PostEntry(r) && t.main[r.line] == PostEntry(r)
  }

  lemma {:induction false} RecordRow(t: Tables, r: Rec)
    requires r.line > 0 && r.line !in t.main && r.line !in t.pre && r.line !in t.post
    ensures RowIs(Record(t, r), r)
  {
    hide MergeNames, MergeReplace;
  }

  /** No other statement is on the line of statement k. */
  predicate Alone(rs: seq<Rec>, k: nat)
    requires k < |rs|
  {
    rs[k].line > 0 && forall j :: 0 <= j < |rs| && j != k ==> rs[j].line != rs[k].line
  }

  /** A statement alone on its line has the line's rows for itself. */
  lemma {:induction false} RowsAre(t: Tables, rs: seq<Rec>, k: nat)
    requires k < |rs| && Alone(rs, k) && rs[k].line !in t.main && rs[k].line !in t.pre && rs[k].line !in t.post
    ensures RowIs(RecordAll(t, rs), rs[k])
    decreases |rs|
  {
    hide Record, PreEntry, PostEntry;
    var t1 := Record(t, rs[0]);
    if k == 0 {
      RecordRow(t, rs[0]);
      RecordAllElsewhere(t1, rs[1..], rs[0].line);
    } else {
      assert rs[1..][k - 1] == rs[k];
      RecordElsewhere(t, rs[0], rs[k].line);
      RowsAre(t1, rs[1..], k - 1);
    }
  }

  // ---- lines with several statements --------------------------------------------------------------------

  lemma {:induction false} PreKept(t: Tables, rs: seq<Rec>, line: nat)
    requires line in t.pre
    ensures line in RecordAll(t, rs).pre && RecordAll(t, rs).pre[line] == t.pre[line]
    decreases |rs|
  {
    hide MergeNames, MergeReplace;
    if rs != [] { PreKept(Record(t, rs[0]), rs[1..], line); }
  }

  /** The first statement on a line decides the row before it. */
  lemma {:induction false} PreRow(t: Tables, rs: seq<Rec>, k: nat)
    requires k < |rs| && rs[k].line > 0 && rs[k].line !in t.pre && forall j :: 0 <= j < k ==> rs[j].line != rs[k].line
    ensures rs[k].line in RecordAll(t, rs).pre && RecordAll(t, rs).pre[rs[k].line] == PreEntry(rs[k])
    decreases |rs|
  {
    hide MergeNames, MergeReplace;
    var t1 := Record(t, rs[0]);
    if k == 0 {
      PreKept(t1, rs[1..], rs[0].line);
    } else {
      assert rs[1..][k - 1] == rs[k];
      PreRow(t1, rs[1..], k - 1);
    }
  }

  /** The main and the post table never differ. */
  lemma {:induction false} MainIsPost(t: Tables, rs: seq<Rec>)
    requires t.main == t.post
    ensures RecordAll(t, rs).main == RecordAll(t, rs).post
    decreases |rs|
  {
    if rs != [] { MainIsPost(Record(t, rs[0]), rs[1..]); }
  }

  /** A statement of the line makes the name visible. */
  predicate Makes(rs: seq<Rec>, line: nat, name: Name) {
    exists k :: 0 <= k < |rs| && rs[k].line == line && (Named(rs[k].after, name) || Named(rs[k].own, name))
  }

  lemma {:induction false} MakesCons(rs: seq<Rec>, line: nat, name: Name)
    requires rs != []
    ensures Makes(rs, line, name)
            <==> (rs[0].line == line && (Named(rs[0].after, name) || Named(rs[0].own, name))) || Makes(rs[1..], line, name)
  {
    hide Named;
    if Makes(rs[1..], line, name) {
      var k :| 0 <= k < |rs[1..]| && rs[1..][k].line == line && (Named(rs[1..][k].after, name) || Named(rs[1..][k].own, name));
      assert rs[k + 1] == rs[1..][k];
    }
    if Makes(rs, line, name) {
      var k :| 0 <= k < |rs| && rs[k].line == line && (Named(rs[k].after, name) || Named(rs[k].own, name));
      if k > 0 { assert rs[1..][k - 1] == rs[k]; }
    }
  }

  /** One statement adds exactly its names to its line's row. */
  lemma {:induction false} RecordPost(t: Tables, r: Rec, name: Name)
    requires r.line > 0
    ensures r.line in Record(t, r).post
    ensures Named(Record(t, r).post[r.line], name) <==> Named(EntryAt(t.post, r.line), name) || Named(r.after, name) || Named(r.own, name)
  {
    hide Named, MergeNames, MergeReplace;
    var e := MergeNames(EntryAt(t.post, r.line), r.after);
    MergeNamesNamed(EntryAt(t.post, r.line), r.after, name);
    MergeReplaceNamed(e, r.own, e, name);
  }

  /** The row after a line has exactly the names that its statements make visible. */
  lemma {:induction false} PostRow(t: Tables, rs: seq<Rec>, line: nat, name: Name)
    requires line > 0
    ensures Named(EntryAt(RecordAll(t, rs).post, line), name) <==> Named(EntryAt(t.post, line), name) || Makes(rs, line, name)
    decreases |rs|
  {
    hide Named, Makes, Record;
    if rs == [] {
      NoneMade(line, name);
    } else {
      MakesCons(rs, line, name);
      PostRow(Record(t, rs[0]), rs[1..], line, name);
      if rs[0].line == line { RecordPost(t, rs[0], name); } else { RecordElsewhere(t, rs[0], line); }
    }
  }

  lemma {:induction false} NoneMade(line: nat, name: Name)
    ensures !Makes([], line, name)
  {}

  // ---- the scope map ----------------------------------------------------------------------------------

  /** What was found at each statement of a function body, in reading order. */
  function Rows(params: seq<Name>, line: nat, stmts: seq<Stmt>): (rs: seq<Rec>)
    ensures |rs| == SizeOfAll(stmts)
  {
    WalkAllSize(stmts, Params(params, line), 1);
    WalkStmts(stmts, Params(params, line), 1)
  }

  /** No line but the statements' has a row. */
  lemma {:induction false} NoOtherRows(params: seq<Name>, line: nat, stmts: seq<Stmt>, other: nat)
    requires var rs := Rows(params, line, stmts); forall k :: 0 <= k < |rs| ==> rs[k].line != other
    ensures var t := ScopeMap(params, line, stmts); other !in t.pre && other !in t.post && other !in t.main
  {
    hide Untouched;
    var none := Tables(map[], map[], map[]);
    RecordAllElsewhere(none, Rows(params, line, stmts), other);
    UntouchedNone(none, ScopeMap(params, line, stmts), other);
  }

  lemma {:induction false} UntouchedNone(none: Tables, t: Tables, line: nat)
    requires Untouched(none, t, line) && line !in none.main && line !in none.pre && line !in none.post
    ensures line !in t.main && line !in t.pre && line !in t.post
  {}

  /** Just before statement number i the name is a parameter or a declaration in scope. */
  predicate Lexical(params: seq<Name>, stmts: seq<Stmt>, i: nat, name: Name) {
    name in params || InScope(ScopesAll(stmts, 0, SizeOfAll(stmts)), i, name)
  }

  lemma {:induction false} ParamsNamed(names: seq<Name>, line: nat, name: Name)
    ensures Named(Params(names, line), name) <==> name in names
  {
    hide Named;
    if names != [] {
      ParamsNamed(names[1..], line, name);
      NamedCons(Params(names, line), name);
      assert Params(names, line)[1..] == Params(names[1..], line);
    } else {
      NoneNamed(name);
    }
  }

  /** The row before a line has exactly the names whose block scope covers the first statement on
      the line, and none twice. */
  lemma {:induction false} NamesBefore(params: seq<Name>, line: nat, stmts: seq<Stmt>, i: nat, name: Name)
    requires i < SizeOfAll(stmts)
    requires var rs := Rows(params, line, stmts); rs[i].line > 0 && forall j :: 0 <= j < i ==> rs[j].line != rs[i].line
    ensures var t, r := ScopeMap(params, line, stmts), Rows(params, line, stmts)[i];
            && r.line in t.pre && Unique(t.pre[r.line])
            && (Named(t.pre[r.line], name) <==> Lexical(params, stmts, i, name))
  {
    hide Named, InScope, WalkStmts, MergeNames, ScopesAll, RecordAll;
    var rs := Rows(params, line, stmts);
    PreRow(Tables(map[], map[], map[]), rs, i);
    BeforeIsLexical(params, line, stmts, i, name);
    MergeNamesNamed([], rs[i].before, name);
    NoneNamed(name);
    MergeNamesUnique([], rs[i].before);
  }

  lemma {:induction false} BeforeIsLexical(params: seq<Name>, line: nat, stmts: seq<Stmt>, i: nat, name: Name)
    requires i < SizeOfAll(stmts)
    ensures Named(Rows(params, line, stmts)[i].before, name) <==> Lexical(params, stmts, i, name)
  {
    hide Named, InScope, WalkStmts, ScopesAll;
    WalkAllSize(stmts, Params(params, line), 1);
    StmtsLexical(stmts, Params(params, line), 1, 0, SizeOfAll(stmts), i, name);
    ParamsNamed(params, line, name);
  }

  // ---- after a statement's own declarations -------------------------------------------------------------

  /** What a row's own part makes visible is already in what comes after, or stands beside it. */
  predicate OwnFits(r: Rec) { r.after == r.before || r.after == r.before + r.own }

  predicate OwnFit(rs: seq<Rec>) { forall k :: 0 <= k < |rs| ==> OwnFits(rs[k]) }

  lemma {:induction false} OwnFitAppend(a: seq<Rec>, b: seq<Rec>)
    requires OwnFit(a) && OwnFit(b)
    ensures OwnFit(a + b)
  {}

  lemma {:induction false} StmtOwnFits(s: Stmt, visible: seq<ScopeVar>, depth: nat)
    ensures OwnFit(WalkStmt(s, visible, depth))
    decreases s
  {
    var head := [Head(s, visible, depth)];
    assert OwnFit(head) && OwnFit([]);
    hide OwnFit, Head;
    match s
    case Decl(_, _) => OwnFitAppend(head, []);
    case Expr(_) => OwnFitAppend(head, []);
    case Block(_, stmts) =>
      StmtsOwnFit(stmts, visible, depth + 1);
      OwnFitAppend(head, WalkStmts(stmts, visible, depth + 1));
    case For(line, names, body) =>
      var inner := visible + Declared(visible, names, line, depth);
      BodyOwnFits(body, inner, depth + 1);
      OwnFitAppend(head, WalkBody(body, inner, depth + 1));
    case If(_, yes, no) =>
      BodyOwnFits(yes, visible, depth + 1);
      BodyOwnFits(no, visible, depth + 1);
      OwnFitAppend(WalkBody(yes, visible, depth + 1), WalkBody(no, visible, depth + 1));
      OwnFitAppend(head, WalkBody(yes, visible, depth + 1) + WalkBody(no, visible, depth + 1));
    case Loop(_, body) =>
      BodyOwnFits(body, visible, depth + 1);
      OwnFitAppend(head, WalkBody(body, visible, depth + 1));
  }

  lemma {:induction false} StmtsOwnFit(stmts: seq<Stmt>, visible: seq<ScopeVar>, depth: nat)
    ensures OwnFit(WalkStmts(stmts, visible, depth))
    decreases stmts
  {
    if stmts != [] {
      StmtOwnFits(stmts[0], visible, depth);
      StmtsOwnFit(stmts[1..], After(stmts[0], visible, depth), depth);
      hide OwnFit;
      OwnFitAppend(WalkStmt(stmts[0], visible, depth), WalkStmts(stmts[1..], After(stmts[0], visible, depth), depth));
    }
  }

  lemma {:induction false} BodyOwnFits(body: Body, visible: seq<ScopeVar>, depth: nat)
    ensures OwnFit(WalkBody(body, visible, depth))
    decreases body
  {
    match body
    case Braces(stmts) => StmtsOwnFit(stmts, visible, depth);
    case Single(s) => if !s.Decl? { StmtOwnFits(s, visible, depth); }
    case Nothing =>
  }

  /** The name is visible with statement number i, by block scope: before it or by its declaration. */
  predicate Visible(params: seq<Name>, stmts: seq<Stmt>, i: nat, name: Name) {
    Lexical(params, stmts, i, name) || Declares(ScopesAll(stmts, 0, SizeOfAll(stmts)), i, name)
  }

  /** Statement number i declares the name as a body without braces, and it is not visible anyway. */
  predicate Missed(params: seq<Name>, stmts: seq<Stmt>, i: nat, name: Name) {
    && BareAll(stmts, 0, i) && Declares(ScopesAll(stmts, 0, SizeOfAll(stmts)), i, name)
    && !Lexical(params, stmts, i, name)
  }

  /** What a statement makes visible is what block scope makes visible, unless it is missed. */
  lemma {:induction false} WithIsVisible(params: seq<Name>, line: nat, stmts: seq<Stmt>, i: nat, name: Name)
    requires i < SizeOfAll(stmts)
    ensures var r := Rows(params, line, stmts)[i];
            Named(r.after, name) || Named(r.own, name) <==> Visible(params, stmts, i, name) && !Missed(params, stmts, i, name)
  {
    hide Named, InScope, WalkStmts, ScopesAll, Declares, OwnFits, BareAll, Lexical;
    var r := Rows(params, line, stmts)[i];
    BeforeIsLexical(params, line, stmts, i, name);
    StmtsOwnFit(stmts, Params(params, line), 1);
    StmtsOwn(stmts, Params(params, line), 1, 0, SizeOfAll(stmts), i, name);
    AfterNamed(r, name);
  }

  lemma {:induction false} AfterNamed(r: Rec, name: Name)
    requires OwnFits(r)
    ensures Named(r.after, name) || Named(r.own, name) <==> Named(r.before, name) || Named(r.own, name)
  {
    NamedAppend(r.before, r.own, name);
  }

  /** A statement on the line makes the name visible by block scope, and is not missed. */
  predicate CaughtOn(params: seq<Name>, line: nat, stmts: seq<Stmt>, on: nat, name: Name) {
    var rs := Rows(params, line, stmts);
    exists k :: 0 <= k < |rs| && rs[k].line == on && Visible(params, stmts, k, name) && !Missed(params, stmts, k, name)
  }

  /** The row after a line has exactly the names that a statement of the line, not missed, makes
      visible, and the main row is the same. */
  lemma {:induction false} NamesAfter(params: seq<Name>, line: nat, stmts: seq<Stmt>, on: nat, name: Name)
    requires on > 0
    ensures var t := ScopeMap(params, line, stmts);
            && t.main == t.post
            && (Named(EntryAt(t.post, on), name) <==> CaughtOn(params, line, stmts, on, name))
  {
    hide Named, WalkStmts, Visible, Missed, RecordAll;
    var rs, none := Rows(params, line, stmts), Tables(map[], map[], map[]);
    NoneNamed(name);
    PostRow(none, rs, on, name);
    MainIsPost(none, rs);
    forall k | 0 <= k < |rs|
      ensures Named(rs[k].after, name) || Named(rs[k].own, name) <==> Visible(params, stmts, k, name) && !Missed(params, stmts, k, name)
    {
      WithIsVisible(params, line, stmts, k, name);
    }
  }

  /** For a statement alone on its line: the row after it is what block scope says for the name if
      and only if the statement is not a bare declaration of a name not visible before. */
  lemma {:induction false} BareDeclarationMissed(params: seq<Name>, line: nat, stmts: seq<Stmt>, i: nat, name: Name)
    requires i < SizeOfAll(stmts) && Alone(Rows(params, line, stmts), i)
    ensures var t, r := ScopeMap(params, line, stmts), Rows(params, line, stmts)[i];
            && r.line in t.post && r.line in t.main && t.main[r.line] == t.post[r.line]
            && ((Named(t.post[r.line], name) <==> Visible(params, stmts, i, name)) <==> !Missed(params, stmts, i, name))
  {
    hide Named, WalkStmts, Visible, Missed, RecordAll, PreEntry, PostEntry;
    var rs := Rows(params, line, stmts);
    RowsAre(Tables(map[], map[], map[]), rs, i);
    NamesAfter(params, line, stmts, rs[i].line, name);
    MissedIsVisible(params, stmts, i, name);
  }

  lemma {:induction false} MissedIsVisible(params: seq<Name>, stmts: seq<Stmt>, i: nat, name: Name)
    ensures Missed(params, stmts, i, name) ==> Visible(params, stmts, i, name)
  {}

  /** if (..) int x; -- the row of the declaration's line lacks x, though x is in scope from there. */
  lemma {:induction false} BareDeclarationExample()
    ensures var stmts := [If(1, Single(Decl(2, ["x"])), Nothing)];
            var t := ScopeMap([], 0, stmts);
            2 in t.post && !Named(t.post[2], "x") && Visible([], stmts, 1, "x")
  {
    var d := Decl(2, ["x"]);
    var s := If(1, Single(d), Nothing);
    var stmts := [s];
    assert stmts[1..] == [];
    assert SizeOf(s) == 2 && SizeOfAll(stmts) == 2;
    assert WalkStmts(stmts, [], 1) == [Rec(1, [], [], []), Rec(2, [], [], [])];
    assert ScopesAll(stmts, 0, 2) == ScopesFor(["x"], 1, 2);
    ScopesForDeclare(["x"], 1, 2, 1, "x");
    ScopesForCover(["x"], 1, 2, 1, "x");
    BareDeclarationMissed([], 0, stmts, 1, "x");
  }
}
