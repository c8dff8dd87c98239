/** The incrementally kept call stack is the one rebuilt from scratch, exactly on traces
    whose exits leave the frame on top at the depth it was entered. */
module TraceStack {
  import opened TraceModel
  import opened TraceGroups
  import opened TraceNav

  /** Same functions at the same depths; the line a frame was pushed with may differ. */
  predicate Alike(a: seq<StackFrame>, b: seq<StackFrame>) {
    |a| == |b| && forall i :: 0 <= i < |a| ==> a[i].func == b[i].func && a[i].depth == b[i].depth
  }

  /** Event i, if an exit, names the frame on top of the stack before it. */
  predicate ExitMatches(trace: seq<Event>, i: nat)
    requires i < |trace|
  {
    trace[i].kind.Exit? ==>
      var s := Rebuild(trace, i);
      s != [] && s[|s| - 1].func == trace[i].func && s[|s| - 1].depth == trace[i].depth
  }

  /** The first event is never undone. */
  ghost predicate Balanced(trace: seq<Event>) {
    forall i :: 1 <= i < |trace| ==> ExitMatches(trace, i)
  }

  lemma {:induction false} TopAlike(a: seq<StackFrame>, b: seq<StackFrame>, func: string)
    requires Alike(a, b)
    ensures TopOf(a, func) == TopOf(b, func)
  {
    if a != [] { TopAlike(a[..|a| - 1], b[..|b| - 1], func); }
  }

  lemma {:induction false} ForwardAlike(a: seq<StackFrame>, b: seq<StackFrame>, e: Event)
    requires Alike(a, b)
    ensures Alike(Forward(a, e), Forward(b, e))
  {
    TopAlike(a, b, e.func);
  }

  lemma {:induction false} ForwardAllAlike(a: seq<StackFrame>, b: seq<StackFrame>, trace: seq<Event>, i: nat, j: nat)
    requires Alike(a, b) && i <= j <= |trace|
    ensures Alike(ForwardAll(a, trace, i, j), ForwardAll(b, trace, i, j))
    decreases j
  {
    if i < j {
      ForwardAllAlike(a, b, trace, i, j - 1);
      ForwardAlike(ForwardAll(a, trace, i, j - 1), ForwardAll(b, trace, i, j - 1), trace[j - 1]);
    }
  }

  lemma {:induction false} RebuildOn(trace: seq<Event>, i: nat, j: nat)
    requires i <= j <= |trace|
    ensures ForwardAll(Rebuild(trace, i), trace, i, j) == Rebuild(trace, j)
    decreases j
  {
    if i < j { RebuildOn(trace, i, j - 1); }
  }

  lemma {:induction false} TopIsLast(s: seq<StackFrame>, func: string)
    requires s != [] && s[|s| - 1].func == func
    ensures TopOf(s, func) == |s|
  {}

  /** Undoing a matched event gives the stack before it. */
  lemma {:induction false} UndoAlike(s: seq<StackFrame>, trace: seq<Event>, i: nat)
    requires i < |trace| && ExitMatches(trace, i) && Alike(s, Rebuild(trace, i + 1))
    ensures Alike(Backward(s, trace[i]), Rebuild(trace, i))
  {
    var before := Rebuild(trace, i);
    if trace[i].kind.Exit? { TopIsLast(before, trace[i].func); }
  }

  lemma {:induction false} UndoAllAlike(s: seq<StackFrame>, trace: seq<Event>, i: nat, j: nat)
    requires Balanced(trace) && 1 <= i <= j <= |trace| && Alike(s, Rebuild(trace, j))
    ensures Alike(BackwardAll(s, trace, i, j), Rebuild(trace, i))
    decreases j - i
  {
    if i < j {
      UndoAllAlike(s, trace, i + 1, j);
      UndoAlike(BackwardAll(s, trace, i + 1, j), trace, i);
    }
  }

  ghost predicate StackRight(s: Store) { Alike(s.stack, Rebuild(s.trace, Upto(s.trace, s.step))) }

  lemma {:induction false} MovedForward(s: Store, n: nat)
    requires WellPlaced(s) && StackRight(s) && s.step < n < |s.trace|
    ensures Alike(ForwardAll(s.stack, s.trace, s.step + 1, n + 1), Rebuild(s.trace, n + 1))
  {
    ForwardAllAlike(s.stack, Rebuild(s.trace, s.step + 1), s.trace, s.step + 1, n + 1);
    RebuildOn(s.trace, s.step + 1, n + 1);
  }

  lemma {:induction false} StackStaysRight(s: Store, op: Op)
    requires WellPlaced(s) && StackRight(s) && Balanced(s.trace)
    ensures StackRight(Apply(s, op))
  {
    hide Groups, Balanced, Alike, ForwardAll, BackwardAll, GroupContaining, BuildCache;
    TargetsMove(s);
    match op
    case GoTo(n) =>
      var c := Clamp(n, |s.trace|);
      if c > s.step { MovedForward(s, c); }
      if c < s.step { UndoAllAlike(s.stack, s.trace, c + 1, s.step + 1); }
    case Forth =>
      if s.step + 1 < |s.trace| && NextTarget(s) < |s.trace| { MovedForward(s, NextTarget(s)); }
    case Back =>
      if s.step > 0 && PrevTarget(s) >= 0 { UndoAllAlike(s.stack, s.trace, PrevTarget(s) + 1, s.step + 1); }
    case Fold(_) =>
  }

  /** On a balanced trace, after any actions with any groups folded, the stack is right. */
  lemma {:induction false} BalancedStackRight(s: Store, ops: seq<Op>)
    requires WellPlaced(s) && StackRight(s) && Balanced(s.trace)
    ensures StackRight(Run(s, ops))
    decreases |ops|
  {
    if ops != [] {
      StackStaysRight(s, ops[0]);
      StaysPlaced(s, ops[0]);
      BalancedStackRight(Apply(s, ops[0]), ops[1..]);
    }
  }

  /** Doing and undoing an unmatched exit does not give the stack back. */
  lemma {:induction false} UndoWrong(trace: seq<Event>, i: nat)
    requires i < |trace| && !ExitMatches(trace, i)
    ensures !Alike(Backward(Rebuild(trace, i + 1), trace[i]), Rebuild(trace, i))
  {
    var before, e := Rebuild(trace, i), trace[i];
    var after := Rebuild(trace, i + 1);
    assert after == Forward(before, e);
    var back := Backward(after, e);
    if before != [] {
      assert back[|back| - 1] == FrameFor(e);
    }
  }

  /** Two clicks on an unbalanced trace show a wrong stack: past the unmatched exit and back. */
  lemma {:induction false} UnbalancedStackWrong(trace: seq<Event>, expanded: seq<int>, i: nat)
    requires 1 <= i < |trace| && !ExitMatches(trace, i)
    ensures !StackRight(Run(Loaded(trace, expanded), [GoTo(i), GoTo(i - 1)]))
  {
    var s0 := Loaded(trace, expanded);
    var s1 := SetStep(s0, i);
    RebuildOn(trace, 1, i + 1);
    assert s1.stack == Rebuild(trace, i + 1) && s1.step == i;
    var s2 := SetStep(s1, i - 1);
    assert BackwardAll(s1.stack, trace, i + 1, i + 1) == s1.stack;
    assert s2.stack == Backward(s1.stack, trace[i]);
    UndoWrong(trace, i);
    RunTwo(s0, GoTo(i), GoTo(i - 1));
  }

  lemma {:induction false} RunTwo(s: Store, a: Op, b: Op)
    requires s.step < |s.trace| || s.step == 0
    ensures Run(s, [a]) == Apply(s, a) && Run(s, [a, b]) == Apply(Run(s, [a]), b)
  {
    TargetsMove(s);
    assert [a][1..] == [] && [a, b][1..] == [b] && [b][1..] == [];
    assert Run(s, [a]) == Run(Apply(s, a), []);
    assert Run(s, [a, b]) == Run(Apply(s, a), [b]);
    assert Run(Apply(s, a), [b]) == Run(Apply(Apply(s, a), b), []);
  }

  /** For every trace: the kept stack is the rebuilt one after all runs of actions, whatever
      groups are open, if and only if the trace is balanced. */
  lemma {:induction false} StackExact(trace: seq<Event>, expanded: seq<int>)
    ensures Balanced(trace) <==> forall ops :: StackRight(Run(Loaded(trace, expanded), ops))
  {
    var s := Loaded(trace, expanded);
    if Balanced(trace) {
      forall ops ensures StackRight(Run(s, ops)) { BalancedStackRight(s, ops); }
    } else {
      var i :| 1 <= i < |trace| && !ExitMatches(trace, i);
      UnbalancedStackWrong(trace, expanded, i);
    }
  }

  // ---- a trace that is not balanced ------------------------------------------------------------

  /** An exception leaves f; main's exit is the next sign of it, and carries f's depth. */
  const UNWOUND := [Event(Enter(""), "main", 0, 1), Event(Enter(""), "f", 1, 5), Event(Exit(""), "main", 1, 9)]

  /** To the end and one back: main is on top of f, where f is on top of main. */
  lemma {:induction false} UnwoundStackWrong()
    ensures !Balanced(UNWOUND) && !StackRight(Run(Loaded(UNWOUND, []), [GoTo(2), GoTo(1)]))
  {
    var stack := Rebuild(UNWOUND, 2);
    assert ForwardAll([], UNWOUND, 0, 1) == [FrameFor(UNWOUND[0])];
    assert stack == [FrameFor(UNWOUND[0]), FrameFor(UNWOUND[1])];
    assert !ExitMatches(UNWOUND, 2);
    UnbalancedStackWrong(UNWOUND, [], 2);
  }
}
