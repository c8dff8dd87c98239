/** Block scope, stated by intervals: statements are numbered in reading order, and a declaration
    at one number holds from there to the number its block ends with. The tracker's lists are it. */
module ScopeLexical {
  import opened ScopeModel

  // ---- numbering ----------------------------------------------------------------------------------

  function SizeOf(s: Stmt): (n: nat)
    ensures n > 0
    decreases s
  {
    match s
    case Decl(_, _) => 1
    case Expr(_) => 1
    case Block(_, stmts) => 1 + SizeOfAll(stmts)
    case For(_, _, body) => 1 + SizeOfBody(body)
    case If(_, yes, no) => 1 + SizeOfBody(yes) + SizeOfBody(no)
    case Loop(_, body) => 1 + SizeOfBody(body)
  }

  function SizeOfAll(stmts: seq<Stmt>): nat
    decreases stmts
  {
    if stmts == [] then 0 else SizeOf(stmts[0]) + SizeOfAll(stmts[1..])
  }

  function SizeOfBody(body: Body): nat
    decreases body
  {
    match body
    case Braces(stmts) => SizeOfAll(stmts)
    case Single(s) => SizeOf(s)
    case Nothing => 0
  }

  /** A declaration at number from, in a block that ends with number until. */
  datatype Scope = Scope(name: Name, from: nat, until: nat)

  function ScopesFor(names: seq<Name>, from: nat, until: nat): seq<Scope> {
    if names == [] then [] else [Scope(names[0], from, until)] + ScopesFor(names[1..], from, until)
  }

  /** The scopes of the declarations in statement number p of a block that ends with number end. */
  function Scopes(s: Stmt, p: nat, end: nat): seq<Scope>
    decreases s
  {
    var last := p + SizeOf(s);
    match s
    case Decl(_, names) => ScopesFor(names, p, end)
    case Expr(_) => []
    case Block(_, stmts) => ScopesAll(stmts, p + 1, last)
    case For(_, names, body) => ScopesFor(names, p, last) + ScopesBody(body, p + 1)
    case If(_, yes, no) => ScopesBody(yes, p + 1) + ScopesBody(no, p + 1 + SizeOfBody(yes))
    case Loop(_, body) => ScopesBody(body, p + 1)
  }

  function ScopesAll(stmts: seq<Stmt>, p: nat, end: nat): seq<Scope>
    decreases stmts
  {
    if stmts == [] then [] else Scopes(stmts[0], p, end) + ScopesAll(stmts[1..], p + SizeOf(stmts[0]), end)
  }

  /** A body is a block of its own. */
  function ScopesBody(body: Body, p: nat): seq<Scope>
    decreases body
  {
    match body
    case Braces(stmts) => ScopesAll(stmts, p, p + SizeOfAll(stmts))
    case Single(s) => Scopes(s, p, p + SizeOf(s))
    case Nothing => []
  }

  /** The declaration holds just before statement number i. */
  predicate Covers(c: Scope, i: nat) { c.from < i < c.until }

  predicate InScope(scopes: seq<Scope>, i: nat, name: Name) {
    exists k :: 0 <= k < |scopes| && scopes[k].name == name && Covers(scopes[k], i)
  }

  // ---- small facts --------------------------------------------------------------------------------

  lemma {:induction false} InScopeAppend(a: seq<Scope>, b: seq<Scope>, i: nat, name: Name)
    ensures InScope(a + b, i, name) <==> InScope(a, i, name) || InScope(b, i, name)
  {
    if InScope(a, i, name) {
      var k :| 0 <= k < |a| && a[k].name == name && Covers(a[k], i);
      assert (a + b)[k] == a[k];
    }
    if InScope(b, i, name) {
      var k :| 0 <= k < |b| && b[k].name == name && Covers(b[k], i);
      assert (a + b)[|a| + k] == b[k];
    }
  }

  lemma {:induction false} NamedAppend(a: seq<ScopeVar>, b: seq<ScopeVar>, name: Name)
    ensures Named(a + b, name) <==> Named(a, name) || Named(b, name)
  {
    if Named(a, name) {
      var k :| 0 <= k < |a| && a[k].name == name;
      assert (a + b)[k] == a[k];
    }
    if Named(b, name) {
      var k :| 0 <= k < |b| && b[k].name == name;
      assert (a + b)[|a| + k] == b[k];
    }
  }

  lemma {:induction false} ScopesForCover(names: seq<Name>, from: nat, until: nat, i: nat, name: Name)
    ensures InScope(ScopesFor(names, from, until), i, name) <==> name in names && from < i < until
  {
    if names != [] {
      ScopesForCover(names[1..], from, until, i, name);
      InScopeAppend([Scope(names[0], from, until)], ScopesFor(names[1..], from, until), i, name);
      OneScope(Scope(names[0], from, until), i, name);
    }
  }

  lemma {:induction false} OneScope(c: Scope, i: nat, name: Name)
    ensures InScope([c], i, name) <==> c.name == name && Covers(c, i)
  {
    if c.name == name && Covers(c, i) { assert [c][0] == c; }
  }

  lemma {:induction false} DeclaredNames(visible: seq<ScopeVar>, names: seq<Name>, line: nat, depth: nat, name: Name)
    ensures Named(Declared(visible, names, line, depth), name) <==> name in names
    ensures |Declared(visible, names, line, depth)| == |names|
    decreases |names|
  {
    if names != [] {
      var uid := if Named(visible, names[0]) then names[0] + "_" + Digits(depth) else names[0];
      var v := ScopeVar(names[0], uid, line, depth);
      DeclaredNames(visible + [v], names[1..], line, depth, name);
      NamedAppend([v], Declared(visible + [v], names[1..], line, depth), name);
      assert [v][0] == v;
    }
  }

  // ---- extents ------------------------------------------------------------------------------------

  lemma {:induction false} WalkSize(s: Stmt, visible: seq<ScopeVar>, depth: nat)
    ensures |WalkStmt(s, visible, depth)| == SizeOf(s)
    decreases s
  {
    match s
    case Decl(_, _) =>
    case Expr(_) =>
    case Block(_, stmts) => WalkAllSize(stmts, visible, depth + 1);
    case For(line, names, body) => WalkBodySize(body, visible + Declared(visible, names, line, depth), depth + 1);
    case If(_, yes, no) =>
      WalkBodySize(yes, visible, depth + 1);
      WalkBodySize(no, visible, depth + 1);
    case Loop(_, body) => WalkBodySize(body, visible, depth + 1);
  }

  lemma {:induction false} WalkAllSize(stmts: seq<Stmt>, visible: seq<ScopeVar>, depth: nat)
    ensures |WalkStmts(stmts, visible, depth)| == SizeOfAll(stmts)
    decreases stmts
  {
    if stmts != [] {
      WalkSize(stmts[0], visible, depth);
      WalkAllSize(stmts[1..], After(stmts[0], visible, depth), depth);
    }
  }

  lemma {:induction false} WalkBodySize(body: Body, visible: seq<ScopeVar>, depth: nat)
    ensures |WalkBody(body, visible, depth)| == SizeOfBody(body)
    decreases body
  {
    match body
    case Braces(stmts) => WalkAllSize(stmts, visible, depth);
    case Single(s) => if !s.Decl? { WalkSize(s, visible, depth); }
    case Nothing =>
  }

  /** Scopes begin with their statement or inside it, and end with the block. */
  predicate Between(scopes: seq<Scope>, from: nat, until: nat) {
    forall k :: 0 <= k < |scopes| ==> from <= scopes[k].from && scopes[k].until <= until
  }

  lemma {:induction false} BetweenAppend(a: seq<Scope>, b: seq<Scope>, from: nat, until: nat)
    requires Between(a, from, until) && Between(b, from, until)
    ensures Between(a + b, from, until)
  {}

  lemma {:induction false} BetweenWider(a: seq<Scope>, from: nat, until: nat, from': nat, until': nat)
    requires Between(a, from, until) && from' <= from && until <= until'
    ensures Between(a, from', until')
  {}

  lemma {:induction false} ScopesForBetween(names: seq<Name>, from: nat, until: nat)
    ensures Between(ScopesFor(names, from, until), from, until)
  {
    if names != [] { ScopesForBetween(names[1..], from, until); }
  }

  lemma {:induction false} NoneBetween(from: nat, until: nat)
    ensures Between([], from, until)
  {}

  lemma {:induction false} ScopesBetween(s: Stmt, p: nat, end: nat)
    ensures Between(Scopes(s, p, end), p, if s.Decl? then end else p + SizeOf(s))
    decreases s
  {
    hide Between;
    var last := p + SizeOf(s);
    NoneBetween(p, last);
    match s
    case Decl(_, names) => ScopesForBetween(names, p, end);
    case Expr(_) =>
    case Block(_, stmts) =>
      ScopesAllBetween(stmts, p + 1, last);
      BetweenWider(ScopesAll(stmts, p + 1, last), p + 1, last, p, last);
    case For(_, names, body) =>
      ScopesForBetween(names, p, last);
      ScopesBodyBetween(body, p + 1);
      BetweenWider(ScopesBody(body, p + 1), p + 1, p + 1 + SizeOfBody(body), p, last);
      BetweenAppend(ScopesFor(names, p, last), ScopesBody(body, p + 1), p, last);
    case If(_, yes, no) =>
      var q := p + 1 + SizeOfBody(yes);
      ScopesBodyBetween(yes, p + 1);
      ScopesBodyBetween(no, q);
      BetweenWider(ScopesBody(yes, p + 1), p + 1, q, p, last);
      BetweenWider(ScopesBody(no, q), q, last, p, last);
      BetweenAppend(ScopesBody(yes, p + 1), ScopesBody(no, q), p, last);
    case Loop(_, body) =>
      ScopesBodyBetween(body, p + 1);
      BetweenWider(ScopesBody(body, p + 1), p + 1, last, p, last);
  }

  lemma {:induction false} ScopesAllBetween(stmts: seq<Stmt>, p: nat, end: nat)
    requires p + SizeOfAll(stmts) <= end
    ensures Between(ScopesAll(stmts, p, end), p, end)
    decreases stmts
  {
    if stmts != [] {
      var q := p + SizeOf(stmts[0]);
      ScopesBetween(stmts[0], p, end);
      BetweenWider(Scopes(stmts[0], p, end), p, if stmts[0].Decl? then end else q, p, end);
      ScopesAllBetween(stmts[1..], q, end);
      BetweenWider(ScopesAll(stmts[1..], q, end), q, end, p, end);
      BetweenAppend(Scopes(stmts[0], p, end), ScopesAll(stmts[1..], q, end), p, end);
    }
  }

  lemma {:induction false} ScopesBodyBetween(body: Body, p: nat)
    ensures Between(ScopesBody(body, p), p, p + SizeOfBody(body))
    decreases body
  {
    match body
    case Braces(stmts) => ScopesAllBetween(stmts, p, p + SizeOfAll(stmts));
    case Single(s) => ScopesBetween(s, p, p + SizeOf(s));
    case Nothing =>
  }

  lemma {:induction false} OutOfReach(scopes: seq<Scope>, from: nat, until: nat, i: nat, name: Name)
    requires Between(scopes, from, until) && (i <= from || until <= i)
    ensures !InScope(scopes, i, name)
  {}

  // ---- the tracker's lists are the scopes ------------------------------------------------------------

  /** Before statement number i, the walk that starts at number p has the names it started with and
      those whose scope covers i. */
  lemma {:induction false} StmtLexical(s: Stmt, visible: seq<ScopeVar>, depth: nat, p: nat, end: nat, i: nat, name: Name)
    requires p <= i < p + SizeOf(s) <= end && |WalkStmt(s, visible, depth)| == SizeOf(s)
    ensures Named(WalkStmt(s, visible, depth)[i - p].before, name) <==> Named(visible, name) || InScope(Scopes(s, p, end), i, name)
    decreases s
  {
    hide Named, InScope, Between, ScopesFor, Declared;
    var last := p + SizeOf(s);
    if i == p {
      ScopesBetween(s, p, end);
      OutOfReach(Scopes(s, p, end), p, if s.Decl? then end else last, i, name);
      return;
    }
    match s
    case Block(_, stmts) =>
      WalkAllSize(stmts, visible, depth + 1);
      StmtsLexical(stmts, visible, depth + 1, p + 1, last, i, name);
    case For(_, _, _) => ForLexical(s, visible, depth, p, i, name);
    case If(_, _, _) => IfLexical(s, visible, depth, p, i, name);
    case Loop(_, body) =>
      WalkBodySize(body, visible, depth + 1);
      BodyLexical(body, visible, depth + 1, p + 1, i, name);
  }

  lemma {:induction false} ForLexical(s: Stmt, visible: seq<ScopeVar>, depth: nat, p: nat, i: nat, name: Name)
    requires s.For? && p < i < p + SizeOf(s) && |WalkStmt(s, visible, depth)| == SizeOf(s)
    ensures Named(WalkStmt(s, visible, depth)[i - p].before, name)
            <==> Named(visible, name) || InScope(ScopesFor(s.names, p, p + SizeOf(s)) + ScopesBody(s.body, p + 1), i, name)
    decreases s, 0
  {
    hide Named, InScope, Between, ScopesFor, Declared;
    var own, last := Declared(visible, s.names, s.line, depth), p + SizeOf(s);
    WalkBodySize(s.body, visible + own, depth + 1);
    BodyLexical(s.body, visible + own, depth + 1, p + 1, i, name);
    NamedAppend(visible, own, name);
    DeclaredNames(visible, s.names, s.line, depth, name);
    ScopesForCover(s.names, p, last, i, name);
    InScopeAppend(ScopesFor(s.names, p, last), ScopesBody(s.body, p + 1), i, name);
  }

  lemma {:induction false} IfLexical(s: Stmt, visible: seq<ScopeVar>, depth: nat, p: nat, i: nat, name: Name)
    requires s.If? && p < i < p + SizeOf(s) && |WalkStmt(s, visible, depth)| == SizeOf(s)
    ensures Named(WalkStmt(s, visible, depth)[i - p].before, name)
            <==> Named(visible, name) || InScope(ScopesBody(s.yes, p + 1) + ScopesBody(s.no, p + 1 + SizeOfBody(s.yes)), i, name)
    decreases s, 0
  {
    hide Named, InScope, Between;
    var q, last := p + 1 + SizeOfBody(s.yes), p + SizeOf(s);
    WalkBodySize(s.yes, visible, depth + 1);
    WalkBodySize(s.no, visible, depth + 1);
    InScopeAppend(ScopesBody(s.yes, p + 1), ScopesBody(s.no, q), i, name);
    ScopesBodyBetween(s.yes, p + 1);
    ScopesBodyBetween(s.no, q);
    if i < q {
      BodyLexical(s.yes, visible, depth + 1, p + 1, i, name);
      OutOfReach(ScopesBody(s.no, q), q, last, i, name);
    } else {
      BodyLexical(s.no, visible, depth + 1, q, i, name);
      OutOfReach(ScopesBody(s.yes, p + 1), p + 1, q, i, name);
    }
  }

  lemma {:induction false} StmtsLexical(stmts: seq<Stmt>, visible: seq<ScopeVar>, depth: nat, p: nat, end: nat, i: nat, name: Name)
    requires p <= i < p + SizeOfAll(stmts) <= end && |WalkStmts(stmts, visible, depth)| == SizeOfAll(stmts)
    ensures Named(WalkStmts(stmts, visible, depth)[i - p].before, name)
            <==> Named(visible, name) || InScope(ScopesAll(stmts, p, end), i, name)
    decreases stmts
  {
    hide Named, InScope, Between, After, Scopes, WalkStmt;
    var s, rest, q := stmts[0], stmts[1..], p + SizeOf(stmts[0]);
    var after := After(s, visible, depth);
    WalkSize(s, visible, depth);
    WalkAllSize(rest, after, depth);
    ScopesBetween(s, p, end);
    ScopesAllBetween(rest, q, end);
    InScopeAppend(Scopes(s, p, end), ScopesAll(rest, q, end), i, name);
    if i < q {
      StmtLexical(s, visible, depth, p, end, i, name);
      OutOfReach(ScopesAll(rest, q, end), q, end, i, name);
    } else {
      StmtsLexical(rest, after, depth, q, end, i, name);
      AfterLexical(s, visible, depth, p, end, i, name);
    }
  }

  /** What a statement leaves visible for those behind it. */
  lemma {:induction false} AfterLexical(s: Stmt, visible: seq<ScopeVar>, depth: nat, p: nat, end: nat, i: nat, name: Name)
    requires p + SizeOf(s) <= i < end
    ensures Named(After(s, visible, depth), name) <==> Named(visible, name) || InScope(Scopes(s, p, end), i, name)
  {
    if s.Decl? {
      NamedAppend(visible, Declared(visible, s.names, s.line, depth), name);
      DeclaredNames(visible, s.names, s.line, depth, name);
      ScopesForCover(s.names, p, end, i, name);
    } else {
      ScopesBetween(s, p, end);
      OutOfReach(Scopes(s, p, end), p, p + SizeOf(s), i, name);
    }
  }

  lemma {:induction false} BodyLexical(body: Body, visible: seq<ScopeVar>, depth: nat, p: nat, i: nat, name: Name)
    requires p <= i < p + SizeOfBody(body) && |WalkBody(body, visible, depth)| == SizeOfBody(body)
    ensures Named(WalkBody(body, visible, depth)[i - p].before, name) <==> Named(visible, name) || InScope(ScopesBody(body, p), i, name)
    decreases body
  {
    match body
    case Braces(stmts) => StmtsLexical(stmts, visible, depth, p, p + SizeOfAll(stmts), i, name);
    case Single(s) =>
      if s.Decl? {
        ScopesForBetween(s.names, p, p + 1);
        OutOfReach(Scopes(s, p, p + 1), p, p + 1, i, name);
      } else {
        WalkSize(s, visible, depth);
        StmtLexical(s, visible, depth, p, p + SizeOf(s), i, name);
      }
  }

  // ---- a statement's own names ------------------------------------------------------------------------

  /** The declaration stands in statement number i itself. */
  predicate Declares(scopes: seq<Scope>, i: nat, name: Name) {
    exists k :: 0 <= k < |scopes| && scopes[k].name == name && scopes[k].from == i
  }

  lemma {:induction false} DeclaresAppend(a: seq<Scope>, b: seq<Scope>, i: nat, name: Name)
    ensures Declares(a + b, i, name) <==> Declares(a, i, name) || Declares(b, i, name)
  {
    if Declares(a, i, name) {
      var k :| 0 <= k < |a| && a[k].name == name && a[k].from == i;
      assert (a + b)[k] == a[k];
    }
    if Declares(b, i, name) {
      var k :| 0 <= k < |b| && b[k].name == name && b[k].from == i;
      assert (a + b)[|a| + k] == b[k];
    }
  }

  lemma {:induction false} ScopesForDeclare(names: seq<Name>, from: nat, until: nat, i: nat, name: Name)
    ensures Declares(ScopesFor(names, from, until), i, name) <==> name in names && i == from
  {
    if names != [] {
      var one := [Scope(names[0], from, until)];
      ScopesForDeclare(names[1..], from, until, i, name);
      DeclaresAppend(one, ScopesFor(names[1..], from, until), i, name);
      assert one[0] == Scope(names[0], from, until);
    }
  }

  /** Every scope begins with a statement of its part of the text. */
  predicate BeginsIn(scopes: seq<Scope>, from: nat, to: nat) {
    forall k :: 0 <= k < |scopes| ==> from <= scopes[k].from < to
  }

  lemma {:induction false} BeginsAppend(a: seq<Scope>, b: seq<Scope>, from: nat, mid: nat, mid': nat, to: nat)
    requires BeginsIn(a, from, mid) && BeginsIn(b, mid', to) && from <= mid' && mid <= to
    ensures BeginsIn(a + b, from, to)
  {}

  lemma {:induction false} ScopesForBegin(names: seq<Name>, from: nat, until: nat)
    ensures BeginsIn(ScopesFor(names, from, until), from, from + 1)
  {
    if names != [] { ScopesForBegin(names[1..], from, until); }
  }

  lemma {:induction false} StmtBegins(s: Stmt, p: nat, end: nat)
    ensures BeginsIn(Scopes(s, p, end), p, p + SizeOf(s))
    decreases s
  {
    hide BeginsIn;
    assert BeginsIn([], p, p + SizeOf(s)) by { NoneBegin(p, p + SizeOf(s)); }
    var last := p + SizeOf(s);
    match s
    case Decl(_, names) => ScopesForBegin(names, p, end);
    case Expr(_) =>
    case Block(_, stmts) => StmtsBegin(stmts, p + 1, last); BeginsWider(ScopesAll(stmts, p + 1, last), p + 1, last, p, last);
    case For(_, names, body) =>
      ScopesForBegin(names, p, last);
      BodyBegins(body, p + 1);
      BeginsAppend(ScopesFor(names, p, last), ScopesBody(body, p + 1), p, p + 1, p + 1, last);
    case If(_, yes, no) =>
      var q := p + 1 + SizeOfBody(yes);
      BodyBegins(yes, p + 1);
      BodyBegins(no, q);
      BeginsAppend(ScopesBody(yes, p + 1), ScopesBody(no, q), p + 1, q, q, last);
      BeginsWider(Scopes(s, p, end), p + 1, last, p, last);
    case Loop(_, body) => BodyBegins(body, p + 1); BeginsWider(ScopesBody(body, p + 1), p + 1, last, p, last);
  }

  lemma {:induction false} NoneBegin(from: nat, to: nat)
    ensures BeginsIn([], from, to)
  {}

  lemma {:induction false} BeginsWider(a: seq<Scope>, from: nat, to: nat, from': nat, to': nat)
    requires BeginsIn(a, from, to) && from' <= from && to <= to'
    ensures BeginsIn(a, from', to')
  {}

  lemma {:induction false} StmtsBegin(stmts: seq<Stmt>, p: nat, end: nat)
    ensures BeginsIn(ScopesAll(stmts, p, end), p, p + SizeOfAll(stmts))
    decreases stmts
  {
    hide BeginsIn;
    NoneBegin(p, p);
    if stmts != [] {
      var q := p + SizeOf(stmts[0]);
      StmtBegins(stmts[0], p, end);
      StmtsBegin(stmts[1..], q, end);
      BeginsAppend(Scopes(stmts[0], p, end), ScopesAll(stmts[1..], q, end), p, q, q, p + SizeOfAll(stmts));
    }
  }

  lemma {:induction false} BodyBegins(body: Body, p: nat)
    ensures BeginsIn(ScopesBody(body, p), p, p + SizeOfBody(body))
    decreases body
  {
    hide BeginsIn;
    NoneBegin(p, p);
    match body
    case Braces(stmts) => StmtsBegin(stmts, p, p + SizeOfAll(stmts));
    case Single(s) => StmtBegins(s, p, p + SizeOf(s));
    case Nothing =>
  }

  lemma {:induction false} BeginsElsewhere(scopes: seq<Scope>, from: nat, to: nat, i: nat, name: Name)
    requires BeginsIn(scopes, from, to) && (i < from || to <= i)
    ensures !Declares(scopes, i, name)
  {}

  // ---- bare declarations as bodies ---------------------------------------------------------------------

  /** Statement number i, in statement number p, is a declaration that is a body without braces. */
  predicate Bare(s: Stmt, p: nat, i: nat)
    decreases s
  {
    p < i < p + SizeOf(s) &&
    match s
    case Decl(_, _) => false
    case Expr(_) => false
    case Block(_, stmts) => BareAll(stmts, p + 1, i)
    case For(_, _, body) => BareBody(body, p + 1, i)
    case If(_, yes, no) => BareBody(yes, p + 1, i) || BareBody(no, p + 1 + SizeOfBody(yes), i)
    case Loop(_, body) => BareBody(body, p + 1, i)
  }

  predicate BareAll(stmts: seq<Stmt>, p: nat, i: nat)
    decreases stmts
  {
    stmts != [] && p <= i < p + SizeOfAll(stmts) && (Bare(stmts[0], p, i) || BareAll(stmts[1..], p + SizeOf(stmts[0]), i))
  }

  predicate BareBody(body: Body, p: nat, i: nat)
    decreases body
  {
    p <= i < p + SizeOfBody(body) &&
    match body
    case Braces(stmts) => BareAll(stmts, p, i)
    case Single(s) => s.Decl? || Bare(s, p, i)
    case Nothing => false
  }

  lemma {:induction false} NoneDeclared(i: nat, name: Name)
    ensures !Declares([], i, name) && !Named([], name)
  {}

  /** A statement's own variables are those its own declaration makes, unless it is a bare body. */
  lemma {:induction false} StmtOwn(s: Stmt, visible: seq<ScopeVar>, depth: nat, p: nat, end: nat, i: nat, name: Name)
    requires p <= i < p + SizeOf(s) && |WalkStmt(s, visible, depth)| == SizeOf(s)
    ensures Named(WalkStmt(s, visible, depth)[i - p].own, name) <==> Declares(Scopes(s, p, end), i, name) && !Bare(s, p, i)
    decreases s
  {
    hide Named, Declares, BeginsIn, ScopesFor, Declared;
    var last := p + SizeOf(s);
    NoneDeclared(i, name);
    match s
    case Decl(line, names) =>
      DeclaredNames(visible, names, line, depth, name);
      ScopesForDeclare(names, p, end, i, name);
    case Expr(_) =>
    case Block(_, stmts) =>
      WalkAllSize(stmts, visible, depth + 1);
      StmtsBegin(stmts, p + 1, last);
      if i > p { StmtsOwn(stmts, visible, depth + 1, p + 1, last, i, name); }
      else { BeginsElsewhere(ScopesAll(stmts, p + 1, last), p + 1, last, i, name); }
    case For(_, _, _) => ForOwn(s, visible, depth, p, i, name);
    case If(_, yes, no) => IfOwn(s, visible, depth, p, i, name);
    case Loop(_, body) =>
      WalkBodySize(body, visible, depth + 1);
      BodyBegins(body, p + 1);
      if i > p { BodyOwn(body, visible, depth + 1, p + 1, i, name); }
      else { BeginsElsewhere(ScopesBody(body, p + 1), p + 1, last, i, name); }
  }

  lemma {:induction false} ForOwn(s: Stmt, visible: seq<ScopeVar>, depth: nat, p: nat, i: nat, name: Name)
    requires s.For? && p <= i < p + SizeOf(s) && |WalkStmt(s, visible, depth)| == SizeOf(s)
    ensures Named(WalkStmt(s, visible, depth)[i - p].own, name)
            <==> Declares(ScopesFor(s.names, p, p + SizeOf(s)) + ScopesBody(s.body, p + 1), i, name) && !Bare(s, p, i)
    decreases s, 0
  {
    hide Named, Declares, BeginsIn, ScopesFor, Declared;
    var own, last := Declared(visible, s.names, s.line, depth), p + SizeOf(s);
    WalkBodySize(s.body, visible + own, depth + 1);
    DeclaredNames(visible, s.names, s.line, depth, name);
    ScopesForDeclare(s.names, p, last, i, name);
    DeclaresAppend(ScopesFor(s.names, p, last), ScopesBody(s.body, p + 1), i, name);
    BodyBegins(s.body, p + 1);
    if i > p { BodyOwn(s.body, visible + own, depth + 1, p + 1, i, name); }
    else { BeginsElsewhere(ScopesBody(s.body, p + 1), p + 1, last, i, name); }
  }

  lemma {:induction false} IfOwn(s: Stmt, visible: seq<ScopeVar>, depth: nat, p: nat, i: nat, name: Name)
    requires s.If? && p <= i < p + SizeOf(s) && |WalkStmt(s, visible, depth)| == SizeOf(s)
    ensures Named(WalkStmt(s, visible, depth)[i - p].own, name)
            <==> Declares(ScopesBody(s.yes, p + 1) + ScopesBody(s.no, p + 1 + SizeOfBody(s.yes)), i, name) && !Bare(s, p, i)
    decreases s, 0
  {
    hide Named, Declares, BeginsIn;
    var q, last := p + 1 + SizeOfBody(s.yes), p + SizeOf(s);
    NoneDeclared(i, name);
    WalkBodySize(s.yes, visible, depth + 1);
    WalkBodySize(s.no, visible, depth + 1);
    DeclaresAppend(ScopesBody(s.yes, p + 1), ScopesBody(s.no, q), i, name);
    BodyBegins(s.yes, p + 1);
    BodyBegins(s.no, q);
    if i == p || i >= q { BeginsElsewhere(ScopesBody(s.yes, p + 1), p + 1, q, i, name); }
    if i < q { BeginsElsewhere(ScopesBody(s.no, q), q, last, i, name); }
    if p < i < q { BodyOwn(s.yes, visible, depth + 1, p + 1, i, name); }
    if i >= q { BodyOwn(s.no, visible, depth + 1, q, i, name); }
  }

  lemma {:induction false} StmtsOwn(stmts: seq<Stmt>, visible: seq<ScopeVar>, depth: nat, p: nat, end: nat, i: nat, name: Name)
    requires p <= i < p + SizeOfAll(stmts) && |WalkStmts(stmts, visible, depth)| == SizeOfAll(stmts)
    ensures Named(WalkStmts(stmts, visible, depth)[i - p].own, name) <==> Declares(ScopesAll(stmts, p, end), i, name) && !BareAll(stmts, p, i)
    decreases stmts
  {
    hide Named, Declares, BeginsIn, After, Scopes, WalkStmt;
    var s, rest, q := stmts[0], stmts[1..], p + SizeOf(stmts[0]);
    var after := After(s, visible, depth);
    WalkSize(s, visible, depth);
    WalkAllSize(rest, after, depth);
    StmtBegins(s, p, end);
    StmtsBegin(rest, q, end);
    DeclaresAppend(Scopes(s, p, end), ScopesAll(rest, q, end), i, name);
    if i < q {
      StmtOwn(s, visible, depth, p, end, i, name);
      BeginsElsewhere(ScopesAll(rest, q, end), q, p + SizeOfAll(stmts), i, name);
    } else {
      StmtsOwn(rest, after, depth, q, end, i, name);
      BeginsElsewhere(Scopes(s, p, end), p, q, i, name);
    }
  }

  lemma {:induction false} BodyOwn(body: Body, visible: seq<ScopeVar>, depth: nat, p: nat, i: nat, name: Name)
    requires p <= i < p + SizeOfBody(body) && |WalkBody(body, visible, depth)| == SizeOfBody(body)
    ensures Named(WalkBody(body, visible, depth)[i - p].own, name) <==> Declares(ScopesBody(body, p), i, name) && !BareBody(body, p, i)
    decreases body
  {
    match body
    case Braces(stmts) => StmtsOwn(stmts, visible, depth, p, p + SizeOfAll(stmts), i, name);
    case Single(s) =>
      if s.Decl? {
        NoneDeclared(i, name);
      } else {
        WalkSize(s, visible, depth);
        StmtOwn(s, visible, depth, p, p + SizeOf(s), i, name);
      }
  }
}
