/** Structured execution of a statement, driven by a list of branch decisions.
    It knows nothing of nodes, edges or statement grouping. */
module CfgSemantics {
  import opened Basics
  import opened CfgModel

  datatype Outcome = Normal | Broke | Continued | Returned | Halted
  /** What was observed, the decisions left over, and how control left.
      Halted: no decision left, or one the statement does not offer. */
  datatype Run = Run(atoms: seq<Atom>, rest: seq<string>, out: Outcome)

  function Prefixed(a: seq<Atom>, r: Run): Run { r.(atoms := a + r.atoms) }

  function Exec(s: Stmt, ds: seq<string>): (r: Run)
    ensures |r.rest| <= |ds|
    decreases |ds|, s, 1
  {
    match s
    case Simple(_, _) => Run(Obs(s), ds, Normal)
    case Other(_) => Run(Obs(s), ds, Normal)
    case Return(_) => Run(Obs(s), ds, Returned)
    case Break => Run([], ds, Broke)
    case Continue => Run([], ds, Continued)
    case Compound(body) => ExecBody(body, ds)
    case If(_, _, _) => ExecIf(s, ds)
    case Loop(_, _) => ExecLoop(s, ds)
    case Switch(_, _) => ExecSwitch(s, ds)
  }

  predicate IsTruth(ds: seq<string>) { ds != [] && (ds[0] == "true" || ds[0] == "false") }

  function ExecIf(s: Stmt, ds: seq<string>): (r: Run)
    requires s.If?
    ensures |r.rest| <= |ds|
    decreases |ds|, s, 0
  {
    if !IsTruth(ds) then Run(Obs(s), ds, Halted)
    else Prefixed(Obs(s), ExecOption(if ds[0] == "true" then s.thn else s.els, ds[1..]))
  }

  function ExecLoop(s: Stmt, ds: seq<string>): (r: Run)
    requires s.Loop?
    ensures |r.rest| <= |ds|
    decreases |ds|, s, 0
  {
    if !IsTruth(ds) then Run(Obs(s), ds, Halted)
    else if ds[0] == "false" then Run(Obs(s), ds[1..], Normal)
    else
      var r := ExecOption(s.lbody, ds[1..]);
      if r.out == Normal || r.out == Continued then Prefixed(Obs(s), Prefixed(r.atoms, ExecLoop(s, r.rest)))
      else Prefixed(Obs(s), Caught(r))
  }

  /** A break ends the loop or switch it is in. */
  function Caught(r: Run): Run { if r.out == Broke then r.(out := Normal) else r }

  function ExecSwitch(s: Stmt, ds: seq<string>): (r: Run)
    requires s.Switch?
    ensures |r.rest| <= |ds|
    decreases |ds|, s, 0
  {
    if ds == [] || ds[0] !in SwitchChoices(s.items) then Run(Obs(s), ds, Halted)
    else Prefixed(Obs(s), Caught(ExecFrom(s.items, ds[0], ds[1..])))
  }

  function ExecOption(o: Option<Stmt>, ds: seq<string>): (r: Run)
    ensures |r.rest| <= |ds|
    decreases |ds|, o
  {
    if o.Some? then Exec(o.value, ds) else Run([], ds, Normal)
  }

  function ExecBody(b: seq<Stmt>, ds: seq<string>): (r: Run)
    ensures |r.rest| <= |ds|
    decreases |ds|, b
  {
    if b == [] then Run([], ds, Normal)
    else
      var r := Exec(b[0], ds);
      if r.out == Normal then Prefixed(r.atoms, ExecBody(b[1..], r.rest)) else r
  }

  function ExecItem(it: Item, ds: seq<string>): (r: Run)
    ensures |r.rest| <= |ds|
    decreases |ds|, it
  {
    ExecOption(it.first, ds)
  }

  /** Run a switch body from its first child on, labels being no obstacle. */
  function ExecItems(items: seq<Item>, ds: seq<string>): (r: Run)
    ensures |r.rest| <= |ds|
    decreases |ds|, items, 0
  {
    if items == [] then Run([], ds, Normal)
    else
      var r := ExecItem(items[0], ds);
      if r.out == Normal then Prefixed(r.atoms, ExecItems(items[1..], r.rest)) else r
  }

  /** Jump to the first child labelled d; past the end when there is none. */
  function ExecFrom(items: seq<Item>, d: string, ds: seq<string>): (r: Run)
    ensures |r.rest| <= |ds|
    decreases |ds|, items, 1
  {
    if items == [] then Run([], ds, Normal)
    else if Labelled(items[0], d) then ExecItems(items, ds)
    else ExecFrom(items[1..], d, ds)
  }

  /** The function body runs to its end on exactly these decisions, showing these atoms. */
  predicate Completes(body: seq<Stmt>, ds: seq<string>, atoms: seq<Atom>) {
    var r := ExecBody(body, ds);
    (r.out == Normal || r.out == Returned) && r.rest == [] && r.atoms == atoms
  }

  /** A well-formed statement breaks or continues only where it may. */
  lemma {:induction false} JumpsStayInside(s: Stmt, ds: seq<string>, mayBreak: bool, mayContinue: bool)
    requires WellFormed(s, mayBreak, mayContinue)
    ensures Exec(s, ds).out == Broke ==> mayBreak
    ensures Exec(s, ds).out == Continued ==> mayContinue
    decreases |ds|, s
  {
    match s
    case Compound(body) => BodyJumps(body, ds, mayBreak, mayContinue);
    case If(_, thn, els) =>
      assert Exec(s, ds) == ExecIf(s, ds);
      if ds != [] {
        OptionJumps(thn, ds[1..], mayBreak, mayContinue);
        OptionJumps(els, ds[1..], mayBreak, mayContinue);
      }
    case Loop(_, b) =>
      assert Exec(s, ds) == ExecLoop(s, ds);
      if IsTruth(ds) {
        var r := ExecOption(b, ds[1..]);
        assert Exec(s, r.rest) == ExecLoop(s, r.rest);
        OptionJumps(b, ds[1..], true, true);
        if r.out == Normal || r.out == Continued { JumpsStayInside(s, r.rest, mayBreak, mayContinue); }
      }
    case Switch(_, items) =>
      assert Exec(s, ds) == ExecSwitch(s, ds);
      if ds != [] { FromJumps(items, ds[0], ds[1..], mayContinue); }
    case _ =>
  }

  lemma {:induction false} OptionJumps(o: Option<Stmt>, ds: seq<string>, mayBreak: bool, mayContinue: bool)
    requires WellFormedOption(o, mayBreak, mayContinue)
    ensures ExecOption(o, ds).out == Broke ==> mayBreak
    ensures ExecOption(o, ds).out == Continued ==> mayContinue
    decreases |ds|, o
  {
    if o.Some? { JumpsStayInside(o.value, ds, mayBreak, mayContinue); }
  }

  lemma {:induction false} BodyJumps(b: seq<Stmt>, ds: seq<string>, mayBreak: bool, mayContinue: bool)
    requires WellFormedBody(b, mayBreak, mayContinue)
    ensures ExecBody(b, ds).out == Broke ==> mayBreak
    ensures ExecBody(b, ds).out == Continued ==> mayContinue
    decreases |ds|, b
  {
    if b != [] {
      JumpsStayInside(b[0], ds, mayBreak, mayContinue);
      BodyJumps(b[1..], Exec(b[0], ds).rest, mayBreak, mayContinue);
    }
  }

  lemma {:induction false} ItemJumps(it: Item, ds: seq<string>, mayContinue: bool)
    requires WellFormedItem(it, mayContinue)
    ensures ExecItem(it, ds).out == Continued ==> mayContinue
    decreases |ds|, it
  {
    OptionJumps(it.first, ds, true, mayContinue);
  }

  lemma {:induction false} ItemsJump(items: seq<Item>, ds: seq<string>, mayContinue: bool)
    requires WellFormedItems(items, mayContinue)
    ensures ExecItems(items, ds).out == Continued ==> mayContinue
    decreases |ds|, items, 0
  {
    if items != [] {
      ItemJumps(items[0], ds, mayContinue);
      ItemsJump(items[1..], ExecItem(items[0], ds).rest, mayContinue);
    }
  }

  lemma {:induction false} FromJumps(items: seq<Item>, d: string, ds: seq<string>, mayContinue: bool)
    requires WellFormedItems(items, mayContinue)
    ensures ExecFrom(items, d, ds).out == Continued ==> mayContinue
    decreases |ds|, items, 1
  {
    if items != [] {
      if Labelled(items[0], d) {
        ItemsJump(items, ds, mayContinue);
      } else {
        FromJumps(items[1..], d, ds, mayContinue);
      }
    }
  }
}
