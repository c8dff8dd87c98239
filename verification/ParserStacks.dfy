/** The parser follows the call stack three times: for depths, for the gutter lines, and for the
    frames shown at a step. An exception unwinds frames without exit events; only what runs next
    in an outer frame tells. */
module ParserStacks {

  type Vars = map<string, string>

  /** Other stands for loop steps and branches. */
  datatype Event = Enter(func: string, params: Vars) | Exit(func: string) | State(func: string, vars: Vars) | Other(func: string)

  datatype StackFrame = StackFrame(func: string, id: nat, depth: nat, vars: Vars)

  /** One past the topmost occurrence; 0 if there is none. */
  function Last(stack: seq<string>, func: string): (k: nat)
    ensures k <= |stack| && (k > 0 ==> stack[k - 1] == func)
  {
    if stack == [] then 0 else if stack[|stack| - 1] == func then |stack| else Last(stack[..|stack| - 1], func)
  }

  lemma {:induction false} LastIsTopmost(stack: seq<string>, func: string)
    ensures forall j :: Last(stack, func) <= j < |stack| ==> stack[j] != func
  {
    if stack != [] && stack[|stack| - 1] != func { LastIsTopmost(stack[..|stack| - 1], func); }
  }

  function Names(frames: seq<StackFrame>): (s: seq<string>)
    ensures |s| == |frames|
  {
    seq(|frames|, i requires 0 <= i < |frames| => frames[i].func)
  }

  /** An exit drops its frame and all above; if it names no frame, none. */
  function Cut(stack: seq<string>, func: string): seq<string> {
    var k := Last(stack, func);
    if k == 0 then stack else stack[..k - 1]
  }

  /** Running in an outer frame drops all above it. */
  function Unwind(stack: seq<string>, func: string): seq<string> {
    var k := Last(stack, func);
    if k == 0 then stack else stack[..k]
  }

  // ---- the three stacks after the first n events ------------------------------------------------

  function DepthStep(stack: seq<string>, e: Event): seq<string> {
    match e
    case Enter(f, _) => stack + [f]
    case Exit(f) => Cut(stack, f)
    case _ => Unwind(stack, e.func)
  }

  function DepthStack(events: seq<Event>, n: nat): seq<string>
    requires n <= |events|
  {
    if n == 0 then [] else DepthStep(DepthStack(events, n - 1), events[n - 1])
  }

  function GutterStep(stack: seq<string>, e: Event): seq<string> {
    match e
    case Enter(f, _) => stack + [f]
    case Exit(f) => Cut(stack, f)
    case _ => stack
  }

  function GutterStack(events: seq<Event>, n: nat): seq<string>
    requires n <= |events|
  {
    if n == 0 then [] else GutterStep(GutterStack(events, n - 1), events[n - 1])
  }

  /** A state event replaces its frame's variables by its own, unless it has none. */
  function FrameStep(stack: seq<StackFrame>, e: Event, id: nat): seq<StackFrame> {
    var k := Last(Names(stack), e.func);
    match e
    case Enter(f, params) => stack + [StackFrame(f, id, |stack|, params)]
    case Exit(f) => if k == 0 then stack else stack[..k - 1]
    case State(f, vars) =>
      if k == 0 then stack else if vars == map[] then stack[..k] else stack[..k - 1] + [stack[k - 1].(vars := vars)]
    case Other(_) => stack
  }

  function Enters(events: seq<Event>, n: nat): nat
    requires n <= |events|
  {
    if n == 0 then 0 else Enters(events, n - 1) + if events[n - 1].Enter? then 1 else 0
  }

  function Frames(events: seq<Event>, n: nat): seq<StackFrame>
    requires n <= |events|
  {
    if n == 0 then [] else FrameStep(Frames(events, n - 1), events[n - 1], Enters(events, n - 1))
  }

  /** The depth the parser writes on event n. */
  function DepthOf(events: seq<Event>, n: nat): nat
    requires n < |events|
  {
    var before, after := DepthStack(events, n), DepthStack(events, n + 1);
    match events[n]
    case Enter(_, _) => |before|
    case Exit(_) => if before == [] then 0 else |before| - 1
    case _ => if after == [] then 0 else |after| - 1
  }

  // ---- agreement --------------------------------------------------------------------------------

  /** The function is on the stack, under another. */
  predicate Buried(stack: seq<string>, func: string) { 0 < Last(stack, func) < |stack| }

  lemma {:induction false} GutterStepExact(stack: seq<string>, e: Event)
    ensures GutterStep(stack, e) == DepthStep(stack, e) <==> ((e.Other? || e.State?) ==> !Buried(stack, e.func))
  {}

  lemma {:induction false} FrameStepExact(stack: seq<StackFrame>, e: Event, id: nat)
    ensures Names(FrameStep(stack, e, id)) == DepthStep(Names(stack), e) <==> (e.Other? ==> !Buried(Names(stack), e.func))
  {
    var names, k := Names(stack), Last(Names(stack), e.func);
    hide Last;
    assert Names(stack[..k]) == names[..k];
    if e.Exit? && k > 0 { assert Names(stack[..k - 1]) == names[..k - 1]; }
    if e.State? && k > 0 { assert Names(stack[..k - 1] + [stack[k - 1].(vars := e.vars)]) == names[..k]; }
  }

  /** Step n is not the first sign, for the frames, of an exception. */
  predicate FramesSee(events: seq<Event>, n: nat)
    requires n < |events|
  {
    events[n].Other? ==> !Buried(DepthStack(events, n), events[n].func)
  }

  /** Step n is no sign at all of an exception. */
  predicate GutterSees(events: seq<Event>, n: nat)
    requires n < |events|
  {
    events[n].Other? || events[n].State? ==> !Buried(DepthStack(events, n), events[n].func)
  }

  lemma {:induction false} FramesFollow(events: seq<Event>, n: nat)
    requires n <= |events| && forall m :: 0 <= m < n ==> FramesSee(events, m)
    ensures Names(Frames(events, n)) == DepthStack(events, n)
  {
    if n > 0 {
      FramesFollow(events, n - 1);
      assert FramesSee(events, n - 1);
      FrameStepExact(Frames(events, n - 1), events[n - 1], Enters(events, n - 1));
      hide FrameStep, DepthStep, Buried, Names;
    }
  }

  predicate FramesRight(events: seq<Event>, n: nat)
    requires n <= |events|
  {
    Names(Frames(events, n)) == DepthStack(events, n)
  }

  predicate GutterRight(events: seq<Event>, n: nat)
    requires n <= |events|
  {
    GutterStack(events, n) == DepthStack(events, n)
  }

  lemma {:induction false} FramesMissed(events: seq<Event>, n: nat)
    requires n < |events| && !FramesSee(events, n)
    ensures !FramesRight(events, n) || !FramesRight(events, n + 1)
  {
    FrameStepExact(Frames(events, n), events[n], Enters(events, n));
    hide FrameStep, DepthStep, Buried, Names;
  }

  /** The depths and the frames tell the same story at every step, exactly if no loop step or
      branch is the first sign of an exception. */
  lemma {:induction false} DepthsAndFramesAgree(events: seq<Event>)
    ensures (forall n :: 0 <= n <= |events| ==> FramesRight(events, n))
            <==> forall n :: 0 <= n < |events| ==> FramesSee(events, n)
  {
    if forall n :: 0 <= n < |events| ==> FramesSee(events, n) {
      forall n | 0 <= n <= |events| ensures FramesRight(events, n) { FramesFollow(events, n); }
    } else {
      var n :| 0 <= n < |events| && !FramesSee(events, n);
      FramesMissed(events, n);
    }
  }

  lemma {:induction false} GutterFollows(events: seq<Event>, n: nat)
    requires n <= |events| && forall m :: 0 <= m < n ==> GutterSees(events, m)
    ensures GutterStack(events, n) == DepthStack(events, n)
  {
    if n > 0 {
      GutterFollows(events, n - 1);
      assert GutterSees(events, n - 1);
      GutterStepExact(DepthStack(events, n - 1), events[n - 1]);
      hide GutterStep, DepthStep, Buried;
    }
  }

  lemma {:induction false} GutterMissed(events: seq<Event>, n: nat)
    requires n < |events| && !GutterSees(events, n)
    ensures !GutterRight(events, n) || !GutterRight(events, n + 1)
  {
    GutterStepExact(DepthStack(events, n), events[n]);
    hide GutterStep, DepthStep, Buried;
  }

  /** The depths and the gutter agree at every step, exactly if no step runs in a buried frame. */
  lemma {:induction false} DepthsAndGutterAgree(events: seq<Event>)
    ensures (forall n :: 0 <= n <= |events| ==> GutterRight(events, n))
            <==> forall n :: 0 <= n < |events| ==> GutterSees(events, n)
  {
    if forall n :: 0 <= n < |events| ==> GutterSees(events, n) {
      forall n | 0 <= n <= |events| ensures GutterRight(events, n) { GutterFollows(events, n); }
    } else {
      var n :| 0 <= n < |events| && !GutterSees(events, n);
      GutterMissed(events, n);
    }
  }

  // ---- frames -------------------------------------------------------------------------------------

  /** Frames know their height, and ids grow from bottom to top. */
  predicate Ordered(stack: seq<StackFrame>, next: nat) {
    && (forall i :: 0 <= i < |stack| ==> stack[i].depth == i && stack[i].id < next)
    && (forall i, j :: 0 <= i < j < |stack| ==> stack[i].id < stack[j].id)
  }

  lemma {:induction false} StepOrdered(stack: seq<StackFrame>, e: Event, id: nat)
    requires Ordered(stack, id)
    ensures Ordered(FrameStep(stack, e, id), if e.Enter? then id + 1 else id)
  {
    hide Last, Names;
  }

  lemma {:induction false} FramesAreOrdered(events: seq<Event>, n: nat)
    requires n <= |events|
    ensures Ordered(Frames(events, n), Enters(events, n))
  {
    if n > 0 {
      FramesAreOrdered(events, n - 1);
      StepOrdered(Frames(events, n - 1), events[n - 1], Enters(events, n - 1));
      hide Ordered, FrameStep;
    }
  }

  lemma {:induction false} StepEnters(stack: seq<StackFrame>, e: Event, id: nat)
    requires e.Enter?
    ensures FrameStep(stack, e, id)[..|stack|] == stack
  {}

  /** While the stack stays higher than h, the lowest h frames keep everything, variables included;
      and they do so when an exit brings it back to h. */
  lemma {:induction false} CallerUntouched(events: seq<Event>, i: nat, j: nat)
    requires i < j <= |events| && events[i].Enter?
    requires forall k :: i < k < j ==> |Frames(events, k)| > |Frames(events, i)|
    requires |Frames(events, j)| > |Frames(events, i)| || (|Frames(events, j)| == |Frames(events, i)| && events[j - 1].Exit?)
    ensures Frames(events, j)[..|Frames(events, i)|] == Frames(events, i)
    decreases j
  {
    hide FrameStep, Names, Last;
    var h := |Frames(events, i)|;
    if j == i + 1 {
      StepEnters(Frames(events, i), events[i], Enters(events, i));
    } else {
      CallerUntouched(events, i, j - 1);
      StepUntouched(Frames(events, j - 1), events[j - 1], Enters(events, j - 1), h);
    }
  }

  lemma {:induction false} StepUntouched(stack: seq<StackFrame>, e: Event, id: nat, h: nat)
    requires |stack| > h
    requires |FrameStep(stack, e, id)| > h || (|FrameStep(stack, e, id)| == h && e.Exit?)
    ensures FrameStep(stack, e, id)[..h] == stack[..h]
  {
    hide Last, Names;
  }

  /** After a callee's exit the caller has the very stack it had before the call. */
  lemma {:induction false} CallerRestored(events: seq<Event>, i: nat, j: nat)
    requires i < j <= |events| && events[i].Enter? && events[j - 1].Exit?
    requires (forall k :: i < k < j ==> |Frames(events, k)| > |Frames(events, i)|) && |Frames(events, j)| == |Frames(events, i)|
    ensures Frames(events, j) == Frames(events, i)
  {
    CallerUntouched(events, i, j);
    assert Frames(events, j)[..|Frames(events, j)|] == Frames(events, j);
  }

  // ---- depths -------------------------------------------------------------------------------------

  /** An enter is written at the height its frame gets. */
  lemma {:induction false} EnterDepth(events: seq<Event>, n: nat)
    requires n < |events| && events[n].Enter?
    ensures DepthStack(events, n + 1)[DepthOf(events, n)] == events[n].func
  {}

  /** An exit of a live function carries its frame's depth exactly if the frame is on top; an exit
      that unwinds others carries theirs. */
  lemma {:induction false} ExitDepthExact(events: seq<Event>, n: nat)
    requires n < |events| && events[n].Exit? && events[n].func in DepthStack(events, n)
    ensures var k := Last(DepthStack(events, n), events[n].func);
            && k > 0 && |DepthStack(events, n + 1)| == k - 1
            && (DepthOf(events, n) == k - 1 <==> !Buried(DepthStack(events, n), events[n].func))
  {
    LastIsTopmost(DepthStack(events, n), events[n].func);
    hide Last;
  }

  /** With the stacks in agreement, an exit on top carries the depth of the frame its enter pushed. */
  lemma {:induction false} ExitMatchesItsEnter(events: seq<Event>, n: nat)
    requires n < |events| && events[n].Exit? && events[n].func in DepthStack(events, n)
    requires !Buried(DepthStack(events, n), events[n].func) && FramesRight(events, n)
    ensures var stack := Frames(events, n);
            stack != [] && stack[|stack| - 1].func == events[n].func && DepthOf(events, n) == stack[|stack| - 1].depth
  {
    FramesAreOrdered(events, n);
    ExitDepthExact(events, n);
    var stack := Frames(events, n);
    assert Names(stack)[|stack| - 1] == stack[|stack| - 1].func;
    hide Frames, Names, DepthStack, Last, DepthOf;
  }

  // ---- as the program does it ---------------------------------------------------------------------

  /** Where a name last is, from the top down; -1 if nowhere. */
  method LastIndex(stack: seq<string>, func: string) returns (i: int)
    ensures i == Last(stack, func) - 1
  {
    i := |stack| - 1;
    assert stack[..|stack|] == stack;
    while i >= 0
      invariant -1 <= i < |stack| && Last(stack, func) == Last(stack[..i + 1], func)
    {
      if stack[i] == func { return; }
      assert stack[..i + 1][..i] == stack[..i];
      i := i - 1;
    }
  }

  /** One event on the stack of names, and the depth it is given. */
  method StepDepth(before: seq<string>, e: Event) returns (stack: seq<string>, depth: nat)
    ensures stack == DepthStep(before, e)
    ensures depth == match e
                     case Enter(_, _) => |before|
                     case Exit(_) => if before == [] then 0 else |before| - 1
                     case _ => if stack == [] then 0 else |stack| - 1
  {
    stack := before;
    var idx := LastIndex(stack, e.func);
    LastIsTopmost(stack, e.func);
    hide Last;
    match e
    case Enter(f, _) =>
      depth := |stack|;
      stack := stack + [f];
    case Exit(f) =>
      depth := if stack != [] then |stack| - 1 else 0;
      if stack != [] && stack[|stack| - 1] == f { stack := stack[..|stack| - 1]; }
      else if idx >= 0 { stack := stack[..idx]; }
    case _ =>
      if idx >= 0 && stack[|stack| - 1] != e.func { stack := stack[..idx + 1]; }
      depth := if stack != [] then |stack| - 1 else 0;
  }

  method RecomputeDepths(events: seq<Event>) returns (depths: seq<nat>)
    ensures |depths| == |events| && forall n :: 0 <= n < |events| ==> depths[n] == DepthOf(events, n)
  {
    hide DepthStep;
    depths := [];
    var stack: seq<string> := [];
    for n := 0 to |events|
      invariant |depths| == n && stack == DepthStack(events, n)
      invariant forall m :: 0 <= m < n ==> depths[m] == DepthOf(events, m)
    {
      var depth;
      stack, depth := StepDepth(stack, events[n]);
      assert depth == DepthOf(events, n);
      depths := depths + [depth];
    }
  }

  /** One event on the stack of frames. */
  method ApplyEvent(before: seq<StackFrame>, e: Event, nextId: nat) returns (stack: seq<StackFrame>)
    ensures stack == FrameStep(before, e, nextId)
  {
    stack := before;
    var idx := LastIndex(Names(stack), e.func);
    assert stack != [] ==> Names(stack)[|stack| - 1] == stack[|stack| - 1].func;
    LastIsTopmost(Names(stack), e.func);
    hide Names, Last;
    match e
    case Enter(f, params) => stack := stack + [StackFrame(f, nextId, |stack|, params)];
    case Exit(f) =>
      if stack != [] && stack[|stack| - 1].func == f { stack := stack[..|stack| - 1]; }
      else if idx >= 0 { stack := stack[..idx]; }
    case State(f, vars) =>
      if stack != [] {
        if stack[|stack| - 1].func == f {
          if vars != map[] { stack := stack[|stack| - 1 := stack[|stack| - 1].(vars := vars)]; }
        } else if idx >= 0 {
          stack := stack[..idx + 1];
          if vars != map[] { stack := stack[idx := stack[idx].(vars := vars)]; }
        }
      }
    case Other(_) =>
  }

  method FramesAtStep(events: seq<Event>) returns (frames: seq<seq<StackFrame>>)
    ensures |frames| == |events| && forall n :: 0 <= n < |events| ==> frames[n] == Frames(events, n + 1)
  {
    hide FrameStep;
    frames := [];
    var stack: seq<StackFrame> := [];
    var nextId := 0;
    for n := 0 to |events|
      invariant |frames| == n && stack == Frames(events, n) && nextId == Enters(events, n)
      invariant forall m :: 0 <= m < n ==> frames[m] == Frames(events, m + 1)
    {
      stack := ApplyEvent(stack, events[n], nextId);
      if events[n].Enter? { nextId := nextId + 1; }
      frames := frames + [stack];
    }
  }
}
