/** The store object: its actions update the fields step by step, in loops. Each is tied to the
    functions of TraceNav, about which the properties are proved. */
module TraceStore {
  import opened Basics
  import opened TraceModel
  import opened TraceGroups
  import opened TraceNav

  /** Apply one event to a stack, or undo it. */
  method ApplyEvent(stack: seq<StackFrame>, e: Event, forward: bool) returns (r: seq<StackFrame>)
    ensures r == if forward then Forward(stack, e) else Backward(stack, e)
  {
    r := stack;
    if forward {
      match e.kind
      case Enter(_) => r := r + [FrameFor(e)];
      case Exit(_) =>
        var j := |r| - 1;
        while j >= 0
          invariant -1 <= j < |r| && r == stack
          invariant TopOf(stack, e.func) == TopOf(stack[..j + 1], e.func)
        {
          if r[j].func == e.func {
            r := r[..j] + r[j + 1..];
            break;
          }
          assert stack[..j + 1][..j] == stack[..j];
          j := j - 1;
        }
        assert j == -1 ==> TopOf(stack, e.func) == 0;
        assert stack[..|stack|] == stack;
      case _ =>
    } else {
      match e.kind
      case Enter(_) => if r != [] { r := r[..|r| - 1]; }
      case Exit(_) => r := r + [FrameFor(e)];
      case _ =>
    }
  }

  method RebuildCallStack(trace: seq<Event>, upToStep: nat) returns (stack: seq<StackFrame>)
    ensures stack == Rebuild(trace, Upto(trace, upToStep))
  {
    stack := [];
    var i := 0;
    while i <= upToStep && i < |trace|
      invariant i <= Upto(trace, upToStep) && stack == Rebuild(trace, i)
    {
      stack := ApplyEvent(stack, trace[i], true);
      i := i + 1;
    }
  }

  method BuildLiveCache(trace: seq<Event>, upToStep: nat) returns (cache: Cache)
    ensures cache == BuildCache(trace, Upto(trace, upToStep))
  {
    cache := map[];
    var end := if upToStep < |trace| then upToStep else |trace| - 1;
    for i := 0 to end + 1
      invariant cache == BuildCache(trace, i)
    {
      var live := LiveVars(trace[i]);
      if live.Some? { cache := cache[FrameKey(FrameOf(trace[i])) := Snapshot(live.value, i)]; }
    }
  }

  method FindLastLiveSnapshot(trace: seq<Event>, fromStep: nat, f: Frame) returns (r: Option<Snapshot>)
    ensures r == LastLive(trace, Upto(trace, fromStep), f)
  {
    var i := if fromStep < |trace| then fromStep else |trace| - 1;
    while i >= 0
      invariant -1 <= i < |trace|
      invariant LastLive(trace, Upto(trace, fromStep), f) == LastLive(trace, i + 1, f)
    {
      if FrameOf(trace[i]) == f {
        var live := LiveVars(trace[i]);
        if live.Some? { return Some(Snapshot(live.value, i)); }
      }
      i := i - 1;
    }
    return None;
  }

  /** The running map holds, per frame key, what a scan back would find. */
  ghost predicate RunningIs(lastLive: map<string, Vars>, trace: seq<Event>, n: nat)
    requires n <= |trace|
  {
    forall f :: (if FrameKey(f) in lastLive then Some(lastLive[FrameKey(f)]) else None) == VarsOf(LastLive(trace, n, f))
  }

  lemma {:induction false} RunningStep(lastLive: map<string, Vars>, trace: seq<Event>, n: nat)
    requires n < |trace| && RunningIs(lastLive, trace, n)
    ensures var live := LiveVars(trace[n]);
            RunningIs(if live.Some? then lastLive[FrameKey(FrameOf(trace[n])) := live.value] else lastLive, trace, n + 1)
  {
    var e := trace[n];
    if LiveVars(e).Some? {
      var next := lastLive[FrameKey(FrameOf(e)) := LiveVars(e).value];
      forall f ensures (if FrameKey(f) in next then Some(next[FrameKey(f)]) else None) == VarsOf(LastLive(trace, n + 1, f)) {
        if FrameKey(f) == FrameKey(FrameOf(e)) { FrameKeyInjective(f, FrameOf(e)); }
      }
    }
  }

  /** First pass: display keys from one running map, without scanning back. */
  method DisplayKeys(trace: seq<Event>) returns (keys: seq<Option<Key>>)
    ensures keys == Keys(trace)
  {
    keys := [];
    var lastLive: map<string, Vars> := map[];
    for i := 0 to |trace|
      invariant |keys| == i && forall k :: 0 <= k < i ==> keys[k] == KeyAt(trace, k)
      invariant RunningIs(lastLive, trace, i)
    {
      var frame := FrameKey(FrameOf(trace[i]));
      keys := keys + [DisplayKey(trace[i], if frame in lastLive then Some(lastLive[frame]) else None)];
      RunningStep(lastLive, trace, i);
      var live := LiveVars(trace[i]);
      if live.Some? { lastLive := lastLive[frame := live.value]; }
    }
  }

  /** Second pass: runs of equal keys. */
  method GroupRuns(keys: seq<Option<Key>>) returns (groups: seq<Group>)
    ensures groups == GroupsFrom(keys, 0)
  {
    groups := [];
    var i := 0;
    while i < |keys|
      invariant i <= |keys| && groups + GroupsFrom(keys, i) == GroupsFrom(keys, 0)
    {
      if keys[i].None? {
        i := i + 1;
        continue;
      }
      var j := i + 1;
      while j < |keys| && keys[j] == keys[i]
        invariant i < j <= |keys| && RunEnd(keys, i, i + 1) == RunEnd(keys, i, j)
      {
        j := j + 1;
      }
      ghost var rest := GroupsFrom(keys, j);
      if j - i > 1 {
        assert GroupsFrom(keys, i) == [Group(i, j - 1, j - i)] + rest;
        assert groups + ([Group(i, j - 1, j - i)] + rest) == (groups + [Group(i, j - 1, j - i)]) + rest;
        groups := groups + [Group(i, j - 1, j - i)];
      } else {
        assert GroupsFrom(keys, i) == [] + rest == rest;
      }
      i := j;
    }
  }

  method RebuildCompression(trace: seq<Event>) returns (groups: seq<Group>)
    ensures groups == Groups(trace)
  {
    var keys := DisplayKeys(trace);
    groups := GroupRuns(keys);
  }

  method FindGroup(groups: seq<Group>, step: int, expanded: seq<int>) returns (r: Option<Group>)
    ensures r == GroupContaining(groups, step, expanded)
  {
    for i := 0 to |groups|
      invariant GroupContaining(groups, step, expanded) == GroupContaining(groups[i..], step, expanded)
    {
      if groups[i].start <= step <= groups[i].end && groups[i].start !in expanded { return Some(groups[i]); }
      assert groups[i..][1..] == groups[i + 1..];
    }
    return None;
  }

  /** What prev does to the cache when it lands on step n. */
  method PatchBack(cache: Cache, trace: seq<Event>, n: nat) returns (r: Cache)
    requires n < |trace|
    ensures r == Rescanned(cache, trace, n)
  {
    var live := LiveVars(trace[n]);
    var key := FrameKey(FrameOf(trace[n]));
    if live.Some? {
      r := cache[key := Snapshot(live.value, n)];
    } else {
      var scanned := FindLastLiveSnapshot(trace, n, FrameOf(trace[n]));
      r := if scanned.Some? then cache[key := scanned.value] else cache - {key};
    }
  }

  class TraceStore {
    var trace: seq<Event>
    var totalSteps: nat
    var currentStep: nat
    var currentEvent: Option<Event>
    var callStack: seq<StackFrame>
    var compressedSteps: seq<Group>
    var expandedGroups: seq<int>
    var lastLiveByFrame: Cache

    ghost function State(): Store
      reads this
    {
      Store(trace, currentStep, callStack, compressedSteps, expandedGroups, lastLiveByFrame)
    }

    /** Placed on a step of the trace, showing that step's event. */
    ghost predicate Valid()
      reads this
    {
      WellPlaced(State()) && currentEvent == if trace == [] then None else Some(trace[currentStep])
    }

    constructor ()
      ensures Valid() && State() == Loaded([], [])
    {
      trace, totalSteps, currentStep, currentEvent := [], 0, 0, None;
      callStack, compressedSteps, expandedGroups, lastLiveByFrame := [], [], [], map[];
    }

    method LoadTrace(t: seq<Event>)
      modifies this
      ensures Valid() && State() == Loaded(t, []) && totalSteps == |t|
    {
      var groups := RebuildCompression(t);
      var stack := RebuildCallStack(t, 0);
      var cache := BuildLiveCache(t, 0);
      trace, totalSteps, currentStep := t, |t|, 0;
      currentEvent := if t == [] then None else Some(t[0]);
      callStack, compressedSteps, expandedGroups, lastLiveByFrame := stack, groups, [], cache;
    }

    /** While streaming, the stack and the cache run ahead to the newest event. */
    method AppendEvent(e: Event)
      modifies this
      ensures trace == old(trace) + [e] && totalSteps == |trace|
      ensures callStack == Forward(old(callStack), e)
      ensures lastLiveByFrame == Noted(old(lastLiveByFrame), e, |old(trace)|)
      ensures currentEvent == if old(trace) == [] then Some(e) else old(currentEvent)
      ensures unchanged(`currentStep) && unchanged(`compressedSteps) && unchanged(`expandedGroups)
    {
      var stack := ApplyEvent(callStack, e, true);
      if trace == [] { currentEvent := Some(e); }
      trace := trace + [e];
      totalSteps := |trace|;
      callStack := stack;
      var live := LiveVars(e);
      if live.Some? { lastLiveByFrame := lastLiveByFrame[FrameKey(FrameOf(e)) := Snapshot(live.value, |trace| - 1)]; }
    }

    /** Whatever happened mid-stream, the finished stream is as if loaded in one piece. */
    method StreamComplete(total: nat)
      modifies this
      ensures Valid() && State() == Loaded(old(trace), old(expandedGroups)) && totalSteps == total
    {
      var groups := RebuildCompression(trace);
      var stack := RebuildCallStack(trace, 0);
      var cache := BuildLiveCache(trace, 0);
      totalSteps, currentStep := total, 0;
      currentEvent := if trace == [] then None else Some(trace[0]);
      callStack, compressedSteps, lastLiveByFrame := stack, groups, cache;
    }

    method SetStep(n: int)
      requires Valid()
      modifies this
      ensures Valid() && State() == Apply(old(State()), GoTo(n)) && totalSteps == old(totalSteps)
    {
      hide Groups, BuildCache, BackwardAll, ForwardAll;
      var clamped: int := if n < |trace| - 1 then n else |trace| - 1;
      if clamped < 0 { clamped := 0; }
      if clamped == currentStep { return; }
      var stack := callStack;
      if clamped > currentStep {
        stack := RedoUpTo(stack, clamped);
      } else {
        stack := UndoDownTo(stack, clamped);
      }
      var cache := BuildLiveCache(trace, clamped);
      currentStep, currentEvent, callStack, lastLiveByFrame := clamped, Some(trace[clamped]), stack, cache;
    }

    method RedoUpTo(stack: seq<StackFrame>, to: nat) returns (r: seq<StackFrame>)
      requires currentStep < to < |trace|
      ensures r == ForwardAll(stack, trace, currentStep + 1, to + 1)
    {
      r := stack;
      for i := currentStep + 1 to to + 1
        invariant r == ForwardAll(stack, trace, currentStep + 1, i)
      {
        r := ApplyEvent(r, trace[i], true);
      }
    }

    method UndoDownTo(stack: seq<StackFrame>, to: nat) returns (r: seq<StackFrame>)
      requires to < currentStep < |trace|
      ensures r == BackwardAll(stack, trace, to + 1, currentStep + 1)
    {
      r := stack;
      var i := currentStep;
      while i > to
        invariant to <= i <= currentStep && r == BackwardAll(stack, trace, i + 1, currentStep + 1)
      {
        r := ApplyEvent(r, trace[i], false);
        i := i - 1;
      }
    }

    method Next()
      requires Valid()
      modifies this
      ensures Valid() && State() == Apply(old(State()), Forth) && totalSteps == old(totalSteps)
    {
      hide Groups, BackwardAll, ForwardAll, GroupContaining;
      TargetsMove(State());
      if currentStep >= |trace| - 1 { return; }
      var nextStep := currentStep + 1;
      var group := FindGroup(compressedSteps, nextStep, expandedGroups);
      if group.Some? {
        nextStep := if currentStep < group.value.start then group.value.start else group.value.end + 1;
      }
      if nextStep >= |trace| { return; }
      var stack := RedoUpTo(callStack, nextStep);
      var landed := trace[nextStep];
      var live := LiveVars(landed);
      if live.Some? { lastLiveByFrame := lastLiveByFrame[FrameKey(FrameOf(landed)) := Snapshot(live.value, nextStep)]; }
      currentStep, currentEvent, callStack := nextStep, Some(landed), stack;
    }

    method Prev()
      requires Valid()
      modifies this
      ensures Valid() && State() == Apply(old(State()), Back) && totalSteps == old(totalSteps)
    {
      hide Groups, BackwardAll, ForwardAll, GroupContaining, LastLive;
      TargetsMove(State());
      if currentStep <= 0 { return; }
      var prevStep := currentStep - 1;
      var group := FindGroup(compressedSteps, prevStep, expandedGroups);
      if group.Some? {
        prevStep := if currentStep > group.value.end then group.value.end else group.value.start - 1;
      }
      if prevStep < 0 { return; }
      var stack := UndoDownTo(callStack, prevStep);
      var cache := PatchBack(lastLiveByFrame, trace, prevStep);
      currentStep, currentEvent, callStack, lastLiveByFrame := prevStep, Some(trace[prevStep]), stack, cache;
    }

    method ToggleExpand(start: int)
      requires Valid()
      modifies this
      ensures Valid() && State() == Apply(old(State()), Fold(start)) && totalSteps == old(totalSteps)
    {
      if start in expandedGroups {
        var kept: seq<int> := [];
        for i := 0 to |expandedGroups|
          invariant expandedGroups == old(expandedGroups) && kept + Without(expandedGroups[i..], start) == Without(expandedGroups, start)
        {
          assert expandedGroups[i..][1..] == expandedGroups[i + 1..];
          if expandedGroups[i] != start { kept := kept + [expandedGroups[i]]; }
        }
        expandedGroups := kept;
      } else {
        expandedGroups := expandedGroups + [start];
      }
    }
  }
}
