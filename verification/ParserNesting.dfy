/** Traces of calls that return: what well-nested means without any stack, and that on such traces
    the three stacks agree and every exit is written at its enter's depth. And one that is not. */
module ParserNesting {
  import opened ParserStacks

  /** A call and what happens in it: its own states, its own loop steps and branches, its callees. */
  datatype Call = Call(func: string, params: Vars, body: seq<Step>)
  datatype Step = Ran(vars: Vars) | Passed | Called(call: Call)

  function CallEvents(c: Call): seq<Event>
    decreases c
  {
    [Enter(c.func, c.params)] + BodyEvents(c.func, c.body) + [Exit(c.func)]
  }

  function BodyEvents(func: string, body: seq<Step>): seq<Event>
    decreases body
  {
    if body == [] then [] else StepEvents(func, body[0]) + BodyEvents(func, body[1..])
  }

  function StepEvents(func: string, s: Step): seq<Event>
    decreases s
  {
    match s
    case Ran(vars) => [State(func, vars)]
    case Passed => [Other(func)]
    case Called(c) => CallEvents(c)
  }

  /** Calls one after the other, from no caller. */
  function TraceOf(calls: seq<Call>): seq<Event> {
    if calls == [] then [] else CallEvents(calls[0]) + TraceOf(calls[1..])
  }

  /** Events i .. j - 1 are these. */
  predicate Holds(events: seq<Event>, i: nat, j: nat, part: seq<Event>) { i <= j <= |events| && events[i..j] == part }

  lemma {:induction false} HoldsSplit(events: seq<Event>, i: nat, j: nat, a: seq<Event>, b: seq<Event>)
    requires Holds(events, i, j, a + b)
    ensures Holds(events, i, i + |a|, a) && Holds(events, i + |a|, j, b)
  {
    assert events[i..i + |a|] == events[i..j][..|a|] == a;
    assert events[i + |a|..j] == events[i..j][|a|..] == b;
  }

  /** No event of the part runs in a buried frame, and the stack is the same after it. */
  predicate Quiet(events: seq<Event>, i: nat, j: nat) {
    && i <= j <= |events| && DepthStack(events, j) == DepthStack(events, i)
    && forall n :: i <= n < j ==> FramesSee(events, n) && GutterSees(events, n)
  }

  lemma {:induction false} QuietThen(events: seq<Event>, i: nat, k: nat, j: nat)
    requires Quiet(events, i, k) && Quiet(events, k, j)
    ensures Quiet(events, i, j)
  {}

  lemma {:induction false} OnTop(stack: seq<string>, func: string)
    requires stack != [] && stack[|stack| - 1] == func
    ensures Last(stack, func) == |stack| && !Buried(stack, func) && Unwind(stack, func) == stack && Cut(stack, func) == stack[..|stack| - 1]
  {}

  /** Wherever a well-nested call stands in a trace: the stack is the same before and after, and its
      exit is written at the depth of its enter. */
  lemma {:induction false} ExitHasEnterDepth(events: seq<Event>, i: nat, j: nat, c: Call)
    requires Holds(events, i, j, CallEvents(c))
    ensures i + 2 <= j && events[i] == Enter(c.func, c.params) && events[j - 1] == Exit(c.func)
    ensures DepthOf(events, j - 1) == DepthOf(events, i) == |DepthStack(events, i)|
    ensures Quiet(events, i, j)
    decreases c
  {
    hide Last, FramesSee, GutterSees, BodyEvents, DepthStack, DepthOf;
    var body := BodyEvents(c.func, c.body);
    HoldsSplit(events, i, j, [Enter(c.func, c.params)] + body, [Exit(c.func)]);
    HoldsSplit(events, i, j - 1, [Enter(c.func, c.params)], body);
    assert events[i..i + 1][0] == events[i] && events[j - 1..j][0] == events[j - 1];
    var stack := DepthStack(events, i);
    EnterPushes(events, i);
    BodyIsQuiet(events, i + 1, j - 1, c.func, c.body);
    ExitPops(events, j - 1, stack);
  }

  lemma {:induction false} EnterPushes(events: seq<Event>, n: nat)
    requires n < |events| && events[n].Enter?
    ensures DepthStack(events, n + 1) == DepthStack(events, n) + [events[n].func] && DepthOf(events, n) == |DepthStack(events, n)|
    ensures FramesSee(events, n) && GutterSees(events, n)
  {}

  lemma {:induction false} ExitPops(events: seq<Event>, n: nat, stack: seq<string>)
    requires n < |events| && events[n].Exit? && DepthStack(events, n) == stack + [events[n].func]
    ensures DepthStack(events, n + 1) == stack && DepthOf(events, n) == |stack|
    ensures FramesSee(events, n) && GutterSees(events, n)
  {
    OnTop(DepthStack(events, n), events[n].func);
    hide Last;
  }

  lemma {:induction false} BodyIsQuiet(events: seq<Event>, i: nat, j: nat, func: string, body: seq<Step>)
    requires Holds(events, i, j, BodyEvents(func, body))
    requires DepthStack(events, i) != [] && DepthStack(events, i)[|DepthStack(events, i)| - 1] == func
    ensures Quiet(events, i, j)
    decreases body
  {
    hide Last, FramesSee, GutterSees, StepEvents, DepthStack;
    if body != [] {
      var first := StepEvents(func, body[0]);
      HoldsSplit(events, i, j, first, BodyEvents(func, body[1..]));
      StepIsQuiet(events, i, i + |first|, func, body[0]);
      BodyIsQuiet(events, i + |first|, j, func, body[1..]);
      QuietThen(events, i, i + |first|, j);
    }
  }

  lemma {:induction false} StepIsQuiet(events: seq<Event>, i: nat, j: nat, func: string, s: Step)
    requires Holds(events, i, j, StepEvents(func, s))
    requires DepthStack(events, i) != [] && DepthStack(events, i)[|DepthStack(events, i)| - 1] == func
    ensures Quiet(events, i, j)
    decreases s
  {
    hide Last;
    match s
    case Called(c) => ExitHasEnterDepth(events, i, j, c);
    case _ =>
      assert events[i..j][0] == events[i];
      OnTop(DepthStack(events, i), func);
  }

  lemma {:induction false} CallsAreQuiet(events: seq<Event>, i: nat, j: nat, calls: seq<Call>)
    requires Holds(events, i, j, TraceOf(calls))
    ensures Quiet(events, i, j)
    decreases |calls|
  {
    hide Quiet, CallEvents;
    if calls == [] { NothingIsQuiet(events, i); }
    else {
      var first := CallEvents(calls[0]);
      HoldsSplit(events, i, j, first, TraceOf(calls[1..]));
      ExitHasEnterDepth(events, i, i + |first|, calls[0]);
      CallsAreQuiet(events, i + |first|, j, calls[1..]);
      QuietThen(events, i, i + |first|, j);
    }
  }

  lemma {:induction false} NothingIsQuiet(events: seq<Event>, i: nat)
    requires i <= |events|
    ensures Quiet(events, i, i)
  {}

  /** On every well-nested trace the three stacks hold the same functions at every step. */
  lemma {:induction false} NestedTracesAgree(calls: seq<Call>, n: nat)
    requires n <= |TraceOf(calls)|
    ensures var events := TraceOf(calls); FramesRight(events, n) && GutterRight(events, n)
  {
    hide TraceOf, FramesRight, GutterRight, FramesSee, GutterSees;
    var events := TraceOf(calls);
    assert events[0..|events|] == events;
    CallsAreQuiet(events, 0, |events|, calls);
    DepthsAndFramesAgree(events);
    DepthsAndGutterAgree(events);
  }

  // ---- a trace that is not nested ------------------------------------------------------------------

  /** An exception leaves f, and the next sign of it is a branch in main. */
  const UNWOUND := [Enter("main", map[]), Enter("f", map[]), Other("main")]

  /** The depths have noticed; the frames and the gutter have not. */
  lemma {:induction false} UnwoundDisagrees()
    ensures DepthStack(UNWOUND, 3) == ["main"] && GutterStack(UNWOUND, 3) == ["main", "f"] == Names(Frames(UNWOUND, 3))
    ensures !FramesRight(UNWOUND, 3) && !GutterRight(UNWOUND, 3)
  {
    var two := ["main", "f"];
    assert [] + ["main"] == ["main"] && ["main"] + ["f"] == two;
    assert DepthStack(UNWOUND, 0) == GutterStack(UNWOUND, 0) == [];
    assert DepthStack(UNWOUND, 1) == GutterStack(UNWOUND, 1) == ["main"];
    assert DepthStack(UNWOUND, 2) == GutterStack(UNWOUND, 2) == two;
    assert Last(two, "main") == 1 by { assert two[..1] == ["main"]; }
    var main, f := StackFrame("main", 0, 0, map[]), StackFrame("f", 1, 1, map[]);
    assert Frames(UNWOUND, 1) == [main] && Frames(UNWOUND, 2) == [main, f] && Frames(UNWOUND, 3) == [main, f];
  }
}
