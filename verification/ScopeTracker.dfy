/** The tracker as it runs, writing its tables while it walks. */
module ScopeTracker {
  import opened ScopeModel
  import opened ScopeLexical
  import opened ScopeTables

  /** Append what is missing by name. */
  method MergeNamesInto(entry: seq<ScopeVar>, visible: seq<ScopeVar>) returns (r: seq<ScopeVar>)
    ensures r == MergeNames(entry, visible)
  {
    r := entry;
    for i := 0 to |visible|
      invariant MergeNames(r, visible[i..]) == MergeNames(entry, visible)
    {
      assert visible[i..][1..] == visible[i + 1..];
      if !Named(r, visible[i].name) { r := r + [visible[i]]; }
    }
  }

  /** Put each new variable in the place its name had, or at the end. */
  method MergeReplaceInto(entry: seq<ScopeVar>, vars: seq<ScopeVar>) returns (r: seq<ScopeVar>)
    ensures r == MergeReplace(entry, vars, entry)
  {
    r := entry;
    for i := 0 to |vars|
      invariant |entry| <= |r| && MergeReplace(r, vars[i..], entry) == MergeReplace(entry, vars, entry)
    {
      assert vars[i..][1..] == vars[i + 1..];
      var k := IndexOf(entry, vars[i].name);
      if k >= 0 { r := r[k := vars[i]]; } else { r := r + [vars[i]]; }
    }
  }

  method CollectDeclVars(visible: seq<ScopeVar>, names: seq<Name>, line: nat, depth: nat)
    returns (more: seq<ScopeVar>, own: seq<ScopeVar>)
    ensures own == Declared(visible, names, line, depth) && more == visible + own
  {
    more, own := visible, [];
    for i := 0 to |names|
      invariant more == visible + own
      invariant own + Declared(more, names[i..], line, depth) == Declared(visible, names, line, depth)
    {
      assert names[i..][1..] == names[i + 1..];
      var uid := names[i];
      if Named(more, names[i]) { uid := names[i] + "_" + Digits(depth); }
      var v := ScopeVar(names[i], uid, line, depth);
      ghost var rest := Declared(more + [v], names[i + 1..], line, depth);
      assert own + ([v] + rest) == (own + [v]) + rest;
      more, own := more + [v], own + [v];
    }
  }

  class FunctionScope {
    var varsAtLine: Table
    var varsAtLinePre: Table
    var varsAtLinePost: Table

    ghost function State(): Tables
      reads this
    {
      Tables(varsAtLine, varsAtLinePre, varsAtLinePost)
    }

    constructor ()
      ensures State() == Tables(map[], map[], map[])
    {
      varsAtLine, varsAtLinePre, varsAtLinePost := map[], map[], map[];
    }

    method Merge(table: Table, line: nat, vars: seq<ScopeVar>) returns (r: Table)
      ensures r == Merged(table, line, vars)
    {
      if line == 0 { return table; }
      var entry := MergeNamesInto(EntryAt(table, line), vars);
      r := table[line := entry];
    }

    method Replace(table: Table, line: nat, vars: seq<ScopeVar>) returns (r: Table)
      ensures r == Replaced(table, line, vars)
    {
      if line == 0 { return table; }
      var entry := MergeReplaceInto(EntryAt(table, line), vars);
      r := table[line := entry];
    }

    /** One statement's row: before, with it, and with its own declarations. */
    method Note(r: Rec)
      modifies this
      ensures State() == Record(old(State()), r)
    {
      if r.line !in varsAtLinePre { varsAtLinePre := Merge(varsAtLinePre, r.line, r.before); }
      varsAtLine := Merge(varsAtLine, r.line, r.after);
      varsAtLinePost := Merge(varsAtLinePost, r.line, r.after);
      varsAtLinePost := Replace(varsAtLinePost, r.line, r.own);
      varsAtLine := Replace(varsAtLine, r.line, r.own);
    }

    /** The statements of a block; its declarations stay in this call's own list. */
    method WalkBlock(stmts: seq<Stmt>, outer: seq<ScopeVar>, depth: nat)
      modifies this
      ensures State() == RecordAll(old(State()), WalkStmts(stmts, outer, depth))
      decreases stmts
    {
      hide Record, Declared, WalkStmt;
      var visible := outer;
      var i := 0;
      while i < |stmts|
        invariant i <= |stmts|
        invariant RecordAll(State(), WalkStmts(stmts[i..], visible, depth)) == RecordAll(old(State()), WalkStmts(stmts, outer, depth))
      {
        var s := stmts[i];
        ghost var before, after := State(), After(s, visible, depth);
        assert stmts[i..][1..] == stmts[i + 1..] && stmts[i..][0] == s;
        AllAppend(before, WalkStmt(s, visible, depth), WalkStmts(stmts[i + 1..], after, depth));
        WalkOne(s, visible, depth);
        if s.Decl? {
          var more, own := CollectDeclVars(visible, s.names, s.line, depth);
          visible := more;
        }
        i := i + 1;
      }
      assert stmts[i..] == [];
    }

    /** One statement and what is inside it. */
    method WalkOne(s: Stmt, visible: seq<ScopeVar>, depth: nat)
      modifies this
      ensures State() == RecordAll(old(State()), WalkStmt(s, visible, depth))
      decreases s
    {
      hide Record, Declared, WalkBody, WalkStmts;
      ghost var start, head := State(), Head(s, visible, depth);
      ghost var noted := Record(start, head);
      match s {
        case Decl(line, names) =>
          var more, own := CollectDeclVars(visible, names, line, depth);
          Note(Rec(line, visible, more, own));
          OneMore(start, head, []);
        case Expr(line) =>
          Note(Rec(line, visible, visible, []));
          OneMore(start, head, []);
        case Block(line, stmts) =>
          Note(Rec(line, visible, visible, []));
          WalkBlock(stmts, visible, depth + 1);
          OneMore(start, head, WalkStmts(stmts, visible, depth + 1));
        case For(line, names, body) =>
          var more, own := CollectDeclVars(visible, names, line, depth);
          Note(Rec(line, visible, visible, own));
          WalkSub(body, more, depth + 1);
          OneMore(start, head, WalkBody(body, more, depth + 1));
        case If(line, yes, no) =>
          Note(Rec(line, visible, visible, []));
          WalkSub(yes, visible, depth + 1);
          WalkSub(no, visible, depth + 1);
          AllAppend(noted, WalkBody(yes, visible, depth + 1), WalkBody(no, visible, depth + 1));
          OneMore(start, head, WalkBody(yes, visible, depth + 1) + WalkBody(no, visible, depth + 1));
        case Loop(line, body) =>
          Note(Rec(line, visible, visible, []));
          WalkSub(body, visible, depth + 1);
          OneMore(start, head, WalkBody(body, visible, depth + 1));
      }
    }

    /** A body, with braces or without. */
    method WalkSub(body: Body, visible: seq<ScopeVar>, depth: nat)
      modifies this
      ensures State() == RecordAll(old(State()), WalkBody(body, visible, depth))
      decreases body
    {
      hide Record;
      match body
      case Braces(stmts) => WalkBlock(stmts, visible, depth);
      case Single(s) =>
        if s.Decl? {
          OneMore(State(), Rec(s.line, visible, visible, []), []);
          Note(Rec(s.line, visible, visible, []));
        } else {
          WalkOne(s, visible, depth);
        }
      case Nothing =>
    }
  }

  lemma {:induction false} AllAppend(t: Tables, a: seq<Rec>, b: seq<Rec>)
    ensures RecordAll(t, a + b) == RecordAll(RecordAll(t, a), b)
    decreases |a|
  {
    hide Record;
    if a == [] { assert a + b == b; }
    else {
      assert (a + b)[1..] == a[1..] + b;
      AllAppend(Record(t, a[0]), a[1..], b);
    }
  }

  lemma {:induction false} OneMore(t: Tables, r: Rec, rest: seq<Rec>)
    ensures RecordAll(t, [r] + rest) == RecordAll(Record(t, r), rest)
  {
    hide Record;
    assert ([r] + rest)[1..] == rest;
  }

  method BuildScope(params: seq<Name>, line: nat, stmts: seq<Stmt>) returns (scope: FunctionScope)
    ensures fresh(scope) && scope.State() == ScopeMap(params, line, stmts)
  {
    scope := new FunctionScope();
    scope.WalkBlock(stmts, Params(params, line), 1);
  }
}
