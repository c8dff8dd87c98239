/** Navigation as functions on a snapshot of the store. */
module TraceNav {
  import opened Basics
  import opened TraceModel
  import opened TraceGroups

  /** A stack frame also remembers the line of the event that pushed it. */
  datatype StackFrame = StackFrame(func: string, depth: nat, line: nat)

  function FrameFor(e: Event): StackFrame { StackFrame(e.func, e.depth, e.line) }

  /** One past the topmost frame of the function; 0 when it is not on the stack. */
  function TopOf(stack: seq<StackFrame>, func: string): (k: nat)
    ensures k <= |stack|
    ensures k > 0 ==> stack[k - 1].func == func
    ensures forall j :: k <= j < |stack| ==> stack[j].func != func
  {
    if stack == [] then 0
    else if stack[|stack| - 1].func == func then |stack|
    else TopOf(stack[..|stack| - 1], func)
  }

  function Forward(stack: seq<StackFrame>, e: Event): seq<StackFrame> {
    match e.kind
    case Enter(_) => stack + [FrameFor(e)]
    case Exit(_) =>
      var k := TopOf(stack, e.func);
      if k == 0 then stack else stack[..k - 1] + stack[k..]
    case _ => stack
  }

  function Backward(stack: seq<StackFrame>, e: Event): seq<StackFrame> {
    match e.kind
    case Enter(_) => if stack == [] then stack else stack[..|stack| - 1]
    case Exit(_) => stack + [FrameFor(e)]
    case _ => stack
  }

  /** Apply events a .. b - 1 in order. */
  function ForwardAll(stack: seq<StackFrame>, trace: seq<Event>, a: nat, b: nat): seq<StackFrame>
    requires a <= b <= |trace|
    decreases b
  {
    if a == b then stack else Forward(ForwardAll(stack, trace, a, b - 1), trace[b - 1])
  }

  /** Undo events b - 1 down to a. */
  function BackwardAll(stack: seq<StackFrame>, trace: seq<Event>, a: nat, b: nat): seq<StackFrame>
    requires a <= b <= |trace|
    decreases b - a
  {
    if a == b then stack else Backward(BackwardAll(stack, trace, a + 1, b), trace[a])
  }

  /** The stack after the first n events, from scratch. */
  function Rebuild(trace: seq<Event>, n: nat): seq<StackFrame>
    requires n <= |trace|
  {
    ForwardAll([], trace, 0, n)
  }

  // ---- the store ------------------------------------------------------------------------------

  datatype Store = Store(trace: seq<Event>, step: nat, stack: seq<StackFrame>, groups: seq<Group>, expanded: seq<int>,
                         cache: Cache)

  /** How many events lie at or before a step: none in an empty trace. */
  function Upto(trace: seq<Event>, step: nat): nat { if step < |trace| then step + 1 else |trace| }

  function Loaded(trace: seq<Event>, expanded: seq<int>): Store {
    Store(trace, 0, Rebuild(trace, Upto(trace, 0)), Groups(trace), expanded, BuildCache(trace, Upto(trace, 0)))
  }

  predicate AllExpanded(s: Store) { forall g :: g in s.groups ==> g.start in s.expanded }

  predicate InGroup(g: Group, i: int) { g.start <= i <= g.end }

  /** The first collapsed group that has step i. */
  function GroupContaining(groups: seq<Group>, i: int, expanded: seq<int>): Option<Group> {
    if groups == [] then None
    else if InGroup(groups[0], i) && groups[0].start !in expanded then Some(groups[0])
    else GroupContaining(groups[1..], i, expanded)
  }

  function Clamp(n: int, len: nat): nat { if n < 0 || len == 0 then 0 else if n > len - 1 then len - 1 else n }

  function SetStep(s: Store, n: int): Store
    requires s.step < |s.trace| || s.step == 0
  {
    var c := Clamp(n, |s.trace|);
    if c == s.step then s
    else if c > s.step then
      s.(step := c, stack := ForwardAll(s.stack, s.trace, s.step + 1, c + 1), cache := BuildCache(s.trace, c + 1))
    else
      s.(step := c, stack := BackwardAll(s.stack, s.trace, c + 1, s.step + 1), cache := BuildCache(s.trace, c + 1))
  }

  /** Where next wants to go; possibly past the end. */
  function NextTarget(s: Store): nat {
    var g := GroupContaining(s.groups, s.step + 1, s.expanded);
    if g.None? then s.step + 1 else if s.step < g.value.start then g.value.start else g.value.end + 1
  }

  function Next(s: Store): Store
    requires s.step < NextTarget(s)
  {
    var n := NextTarget(s);
    if s.step + 1 >= |s.trace| || n >= |s.trace| then s
    else s.(step := n, stack := ForwardAll(s.stack, s.trace, s.step + 1, n + 1), cache := Noted(s.cache, s.trace[n], n))
  }

  /** Where prev wants to go; possibly before the start. */
  function PrevTarget(s: Store): int {
    var g := GroupContaining(s.groups, s.step - 1, s.expanded);
    if g.None? then s.step - 1 else if s.step > g.value.end then g.value.end else g.value.start - 1
  }

  /** The landed frame's entry is taken from a scan back when the step itself is not live. */
  function Rescanned(c: Cache, trace: seq<Event>, i: nat): Cache
    requires i < |trace|
  {
    var e := trace[i];
    if LiveVars(e).Some? then Noted(c, e, i)
    else
      var found := LastLive(trace, i + 1, FrameOf(e));
      if found.Some? then c[FrameKey(FrameOf(e)) := found.value] else c - {FrameKey(FrameOf(e))}
  }

  function Prev(s: Store): Store
    requires s.step < |s.trace| || s.step == 0
    requires PrevTarget(s) < s.step
  {
    var n := PrevTarget(s);
    if s.step == 0 || n < 0 then s
    else s.(step := n, stack := BackwardAll(s.stack, s.trace, n + 1, s.step + 1), cache := Rescanned(s.cache, s.trace, n))
  }

  function Toggle(s: Store, start: int): Store {
    s.(expanded := if start in s.expanded then Without(s.expanded, start) else s.expanded + [start])
  }

  function Without(xs: seq<int>, x: int): seq<int> {
    if xs == [] then [] else (if xs[0] == x then [] else [xs[0]]) + Without(xs[1..], x)
  }

  lemma {:induction false} ContainingIs(groups: seq<Group>, i: int, expanded: seq<int>)
    ensures var g := GroupContaining(groups, i, expanded);
            if g.Some? then g.value in groups && InGroup(g.value, i) && g.value.start !in expanded
            else forall h :: h in groups && InGroup(h, i) ==> h.start in expanded
  {
    if groups != [] { ContainingIs(groups[1..], i, expanded); }
  }

  // ---- runs of the user's actions -------------------------------------------------------------

  datatype Op = GoTo(n: int) | Forth | Back | Fold(start: int)

  ghost predicate WellPlaced(s: Store) {
    s.groups == Groups(s.trace) && (s.step < |s.trace| || (s.trace == [] && s.step == 0))
  }

  lemma {:induction false} TargetsMove(s: Store)
    ensures s.step < NextTarget(s) && PrevTarget(s) < s.step
  {
    ContainingIs(s.groups, s.step + 1, s.expanded);
    ContainingIs(s.groups, s.step - 1, s.expanded);
  }

  function Apply(s: Store, op: Op): Store
    requires s.step < |s.trace| || s.step == 0
  {
    TargetsMove(s);
    match op
    case GoTo(n) => SetStep(s, n)
    case Forth => Next(s)
    case Back => Prev(s)
    case Fold(start) => Toggle(s, start)
  }

  lemma {:induction false} StaysPlaced(s: Store, op: Op)
    requires WellPlaced(s)
    ensures WellPlaced(Apply(s, op)) && Apply(s, op).trace == s.trace
  {
    TargetsMove(s);
  }

  function Run(s: Store, ops: seq<Op>): Store
    requires s.step < |s.trace| || s.step == 0
    ensures Run(s, ops).step < |s.trace| || Run(s, ops).step == 0
    ensures Run(s, ops).trace == s.trace
    decreases |ops|
  {
    TargetsMove(s);
    if ops == [] then s else Run(Apply(s, ops[0]), ops[1..])
  }
}
