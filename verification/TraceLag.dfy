/** When the cache names the very step a scan back finds, whatever is folded: exactly on the
    traces where every group that could mislead it is followed, and begun, by something live. */
module TraceLag {
  import opened Basics
  import opened TraceModel
  import opened TraceGroups
  import opened TraceNav
  import opened TraceOrder
  import opened TraceCache

  /** The entry read is the snapshot a scan back from the current step finds. */
  predicate CacheExactAt(s: Store)
    requires s.step < |s.trace|
  {
    Lookup(s.cache, CurrentFrame(s)) == LastLive(s.trace, s.step + 1, CurrentFrame(s))
  }

  lemma {:induction false} RunThen(s: Store, a: seq<Op>, b: seq<Op>)
    requires s.step < |s.trace| || s.step == 0
    ensures Run(s, a + b) == Run(Run(s, a), b)
    decreases |a|
  {
    TargetsMove(s);
    if a == [] { assert a + b == b; }
    else {
      assert (a + b)[1..] == a[1..] + b;
      RunThen(Apply(s, a[0]), a[1..], b);
    }
  }

  lemma {:induction false} RunOne(s: Store, op: Op)
    requires s.step < |s.trace| || s.step == 0
    ensures Run(s, [op]) == Apply(s, op)
  {
    TargetsMove(s);
    assert [op][1..] == [];
    assert Run(Apply(s, op), []) == Apply(s, op);
  }

  lemma {:induction false} LastLiveBounds(trace: seq<Event>, n: nat, f: Frame)
    requires n <= |trace|
    ensures LastLive(trace, n, f).Some? ==> LastLive(trace, n, f).value.step < n
  {
    if n > 0 { LastLiveBounds(trace, n - 1, f); }
  }

  lemma {:induction false} LastLiveAfter(trace: seq<Event>, n: nat, f: Frame, i: nat)
    requires i < n <= |trace| && FrameOf(trace[i]) == f && LiveVars(trace[i]).Some?
    ensures LastLive(trace, n, f).Some? && LastLive(trace, n, f).value.step >= i
  {
    if i < n - 1 && !(FrameOf(trace[n - 1]) == f && LiveVars(trace[n - 1]).Some?) { LastLiveAfter(trace, n - 1, f, i); }
  }

  lemma {:induction false} WithoutLacks(xs: seq<int>, x: int)
    ensures x !in Without(xs, x)
  {
    if xs != [] { WithoutLacks(xs[1..], x); }
  }

  /** Fold the group and jump to a step. */
  lemma {:induction false} Jump(trace: seq<Event>, expanded: seq<int>, g: Group, i: nat) returns (ops: seq<Op>)
    requires i < |trace|
    ensures var s := Run(Loaded(trace, expanded), ops);
            s.step == i && s.trace == trace && s.groups == Groups(trace) && g.start !in s.expanded && s.cache == BuildCache(trace, i + 1)
  {
    hide Groups, BuildCache, Rebuild, ForwardAll, BackwardAll;
    var s0 := Loaded(trace, expanded);
    var folding := if g.start in expanded then [Fold(g.start)] else [];
    if g.start in expanded {
      RunOne(s0, Fold(g.start));
      WithoutLacks(expanded, g.start);
    }
    var s1 := Run(s0, folding);
    assert s1.cache == s0.cache && s1.step == 0 && s1.trace == trace && s1.groups == Groups(trace) && g.start !in s1.expanded;
    RunOne(s1, GoTo(i));
    ops := folding + [GoTo(i)];
    RunThen(s0, folding, [GoTo(i)]);
  }

  /** Press next until step m, which is of frame f and not live; on the way only other frames are landed on. */
  lemma {:induction false} PressOn(s: Store, m: nat, f: Frame) returns (ops: seq<Op>)
    requires WellPlaced(s) && s.step < m < |s.trace| && FrameOf(s.trace[m]) == f && LiveVars(s.trace[m]).None?
    requires !HiddenAhead(s, m) && forall i :: s.step < i < m && FrameOf(s.trace[i]) == f ==> HiddenAhead(s, i)
    ensures var r := Run(s, ops); r.step == m && Lookup(r.cache, f) == Lookup(s.cache, f)
    decreases m - s.step
  {
    hide Groups, HiddenAhead, Lookup;
    NextIsLeast(s);
    NextSame(s);
    StaysPlaced(s, Forth);
    RunOne(s, Forth);
    var n := Apply(s, Forth);
    assert s.step < n.step <= m;
    ForthNotes(s, f);
    if n.step == m {
      ops := [Forth];
    } else {
      forall i | n.step < i < m && FrameOf(n.trace[i]) == f ensures HiddenAhead(n, i) { SameHidden(s, n, i); }
      SameHidden(s, n, m);
      var rest := PressOn(n, m, f);
      ops := [Forth] + rest;
      RunThen(s, [Forth], rest);
    }
  }

  /** Landing on another frame, or on a step that is not live, leaves the entry of f. */
  lemma {:induction false} ForthNotes(s: Store, f: Frame)
    requires WellPlaced(s) && s.step < Apply(s, Forth).step < |s.trace|
    ensures var n := Apply(s, Forth);
            FrameOf(s.trace[n.step]) != f || LiveVars(s.trace[n.step]).None? ==> Lookup(n.cache, f) == Lookup(s.cache, f)
  {
    TargetsMove(s);
    var n := Apply(s, Forth);
    var e := s.trace[n.step];
    if LiveVars(e).Some? { LookupUpdated(s.cache, FrameOf(e), Snapshot(LiveVars(e).value, n.step), f); }
  }

  /** A group's frame has no other group that hides the frame's next event. */
  lemma {:induction false} NextIsShown(s: Store, g: Group, m: nat, f: Frame)
    requires WellPlaced(s) && g in s.groups && g.start < |s.trace| && f == FrameOf(s.trace[g.start]) && IsNext(s.trace, g.end, m, f)
    ensures !HiddenAhead(s, m)
  {
    GroupInside(s, g);
    forall h | Folded(s, h) && InGroup(h, m) ensures h.start == m {
      GroupInside(s, h);
      GroupShowsOne(s.trace, h, m);
      if h.start <= g.end { OneGroup(s, g, h, g.end); }
    }
  }

  /** A group with a live step inside whose frame's next event is not live: past it, the entry lags. */
  lemma {:induction false} LagsAhead(trace: seq<Event>, expanded: seq<int>, g: Group, i: nat, m: nat) returns (ops: seq<Op>)
    requires g in Groups(trace) && g.start < i <= g.end < |trace| && LiveVars(trace[i]).Some?
    requires IsNext(trace, g.end, m, FrameOf(trace[g.start])) && LiveVars(trace[m]).None?
    ensures !CacheExactAt(Run(Loaded(trace, expanded), ops))
  {
    hide Groups, HiddenAhead, Lookup, LastLive, Run, BuildCache, Folded;
    var f := FrameOf(trace[g.start]);
    var first := Jump(trace, expanded, g, g.start);
    var s := Run(Loaded(trace, expanded), first);
    forall j | s.step < j < m && FrameOf(trace[j]) == f ensures HiddenAhead(s, j) { HiddenIn(s, g, j); }
    NextIsShown(s, g, m, f);
    var more := PressOn(s, m, f);
    ops := first + more;
    RunThen(Loaded(trace, expanded), first, more);
    Later(trace, g, g.start + 1, m + 1, i);
  }

  /** A live step of a group sets what was last live before it apart from what is last live after. */
  lemma {:induction false} Later(trace: seq<Event>, g: Group, a: nat, b: nat, i: nat)
    requires g in Groups(trace) && g.start < i <= g.end < |trace| && LiveVars(trace[i]).Some? && a <= i < b <= |trace|
    ensures var f := FrameOf(trace[g.start]);
            && LastLive(trace, a, f) == Lookup(BuildCache(trace, a), f) && LastLive(trace, b, f) == Lookup(BuildCache(trace, b), f)
            && LastLive(trace, a, f) != LastLive(trace, b, f)
  {
    hide Groups, Lookup, LastLive, BuildCache;
    var f := FrameOf(trace[g.start]);
    CacheIsLastLive(trace, a, f);
    CacheIsLastLive(trace, b, f);
    GroupShowsOne(trace, g, i);
    LastLiveBounds(trace, a, f);
    LastLiveAfter(trace, b, f, i);
  }

  lemma {:induction false} HiddenIn(s: Store, g: Group, j: nat)
    requires g in s.groups && g.start !in s.expanded
    ensures g.start < j <= g.end ==> HiddenAhead(s, j)
    ensures g.start <= j < g.end ==> HiddenBehind(s, j)
  {
    assert Folded(s, g);
  }

  /** A group with a live step inside that begins not live, after another frame: stepping back over
      it and on again, the entry is that of a later step. */
  lemma {:induction false} LagsBehind(trace: seq<Event>, expanded: seq<int>, g: Group, i: nat) returns (ops: seq<Op>)
    requires g in Groups(trace) && g.start < i <= g.end < |trace| && LiveVars(trace[i]).Some?
    requires LiveVars(trace[g.start]).None? && g.start > 0 && FrameOf(trace[g.start - 1]) != FrameOf(trace[g.start])
    ensures !CacheExactAt(Run(Loaded(trace, expanded), ops))
  {
    hide Groups, HiddenAhead, HiddenBehind, Lookup, LastLive, Run, BuildCache, Apply;
    var f := FrameOf(trace[g.start]);
    var s0 := Loaded(trace, expanded);
    var first := Jump(trace, expanded, g, i);
    var s := Run(s0, first);
    var b := Apply(s, Back);
    StepsOver(s, g);
    RunOne(s, Back);
    RunThen(s0, first, [Back]);
    PrevSame(s);
    StaysPlaced(s, Back);
    StartIsShown(b, g);
    var more := PressOn(b, g.start, f);
    ops := first + [Back] + more;
    RunThen(s0, first + [Back], more);
    Later(trace, g, g.start + 1, i + 1, i);
  }

  lemma {:induction false} StartIsShown(s: Store, g: Group)
    requires WellPlaced(s) && g in s.groups
    ensures !HiddenAhead(s, g.start) && (g.start > 0 ==> !HiddenBehind(s, g.start - 1))
  {
    GroupInside(s, g);
    forall h | Folded(s, h) && InGroup(h, g.start) ensures h == g { OneGroup(s, g, h, g.start); }
  }

  /** From inside a folded group prev goes to just before it, and only that step's frame is looked up. */
  lemma {:induction false} StepsOver(s: Store, g: Group)
    requires WellPlaced(s) && g in s.groups && g.start !in s.expanded && 0 < g.start < s.step <= g.end
    ensures var b := Apply(s, Back);
            b.step == g.start - 1 && forall f :: f != FrameOf(s.trace[g.start - 1]) ==> Lookup(b.cache, f) == Lookup(s.cache, f)
  {
    PrevIsGreatest(s);
    TargetsMove(s);
    StartIsShown(s, g);
    var b := Apply(s, Back);
    forall j: nat | g.start <= j < s.step ensures HiddenBehind(s, j) { HiddenIn(s, g, j); }
    assert b.step == g.start - 1;
    forall f | f != FrameOf(s.trace[g.start - 1]) ensures Lookup(b.cache, f) == Lookup(s.cache, f) {
      RescannedLookup(s.cache, s.trace, b.step, f);
    }
  }

  /** After loading, the entry read is the very snapshot a scan back finds, whatever the user does,
      if and only if the trace is steady. */
  lemma {:induction false} CacheExact(trace: seq<Event>, expanded: seq<int>)
    requires trace != []
    ensures Steady(trace) <==> forall ops :: CacheExactAt(Run(Loaded(trace, expanded), ops))
  {
    hide Groups, Lookup, LastLive, Renewed;
    if Steady(trace) {
      forall ops ensures CacheExactAt(Run(Loaded(trace, expanded), ops)) { CacheRightWhereRead(trace, expanded, ops); }
    } else {
      var g :| g in Groups(trace) && g.start < |trace| && LiveInside(trace, g) && !Renewed(trace, g);
      var ops := Lags(trace, expanded, g);
      assert !CacheExactAt(Run(Loaded(trace, expanded), ops));
    }
  }

  lemma {:induction false} Lags(trace: seq<Event>, expanded: seq<int>, g: Group) returns (ops: seq<Op>)
    requires g in Groups(trace) && g.start < |trace| && LiveInside(trace, g) && !Renewed(trace, g)
    ensures !CacheExactAt(Run(Loaded(trace, expanded), ops))
  {
    hide Groups;
    GroupShowsOne(trace, g, g.start);
    var i: nat :| g.start < i <= g.end && i < |trace| && LiveVars(trace[i]).Some?;
    var f := FrameOf(trace[g.start]);
    if NextIsLive(trace, g.end, f) {
      ops := LagsBehind(trace, expanded, g, i);
    } else {
      var m: nat :| IsNext(trace, g.end, m, f) && LiveVars(trace[m]).None?;
      ops := LagsAhead(trace, expanded, g, i, m);
    }
  }
}
