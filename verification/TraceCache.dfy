/** The last-live cache is patched only for the frame landed on. Other entries may be stale,
    even point ahead, but the entry that is read is right. */
module TraceCache {
  import opened Basics
  import opened TraceModel
  import opened TraceGroups
  import opened TraceNav

  predicate Same(exact: bool, a: Option<Snapshot>, b: Option<Snapshot>) {
    if exact then a == b else VarsOf(a) == VarsOf(b)
  }

  predicate NoneIn(trace: seq<Event>, a: nat, b: nat, f: Frame) {
    forall i :: a <= i < b && i < |trace| ==> FrameOf(trace[i]) != f
  }

  /** c is what scanning back from just after step i gives. */
  predicate Fits(exact: bool, c: Option<Snapshot>, trace: seq<Event>, i: nat, f: Frame)
    requires i < |trace|
  {
    Same(exact, c, LastLive(trace, i + 1, f))
  }

  /** m is the frame's next event after i. */
  predicate IsNext(trace: seq<Event>, i: nat, m: nat, f: Frame) {
    i < m < |trace| && FrameOf(trace[m]) == f && NoneIn(trace, i + 1, m, f)
  }

  /** c fits now, or will fit at the frame's next event, or that event will replace it. */
  ghost predicate Usable(exact: bool, c: Option<Snapshot>, trace: seq<Event>, i: nat, f: Frame)
    requires i < |trace|
  {
    Fits(exact, c, trace, i, f) || forall m: nat :: IsNext(trace, i, m, f) ==> LiveVars(trace[m]).Some? || Fits(exact, c, trace, m, f)
  }

  // ---- traces on which folding does no harm -------------------------------------------------

  /** A step of the group, after its first, is live. */
  predicate LiveInside(trace: seq<Event>, g: Group) {
    exists i :: g.start < i <= g.end && i < |trace| && LiveVars(trace[i]).Some?
  }

  /** If the frame has an event after i, the next one is live. */
  ghost predicate NextIsLive(trace: seq<Event>, i: nat, f: Frame) {
    forall m: nat :: IsNext(trace, i, m, f) ==> LiveVars(trace[m]).Some?
  }

  /** Past the group in either direction, the frame's entry is renewed before it is read. */
  ghost predicate Renewed(trace: seq<Event>, g: Group)
    requires g.start < |trace|
  {
    var f := FrameOf(trace[g.start]);
    && NextIsLive(trace, g.end, f)
    && (LiveVars(trace[g.start]).Some? || g.start == 0 || FrameOf(trace[g.start - 1]) == f)
  }

  ghost predicate Steady(trace: seq<Event>) {
    forall g :: g in Groups(trace) && g.start < |trace| && LiveInside(trace, g) ==> Renewed(trace, g)
  }

  ghost predicate CacheOk(exact: bool, c: Cache, trace: seq<Event>, i: nat)
    requires i < |trace|
  {
    && (forall f :: Usable(exact, Lookup(c, f), trace, i, f))
    && Fits(exact, Lookup(c, FrameOf(trace[i])), trace, i, FrameOf(trace[i]))
  }

  lemma {:induction false} LastLiveSame(trace: seq<Event>, a: nat, b: nat, f: Frame)
    requires a <= b <= |trace| && NoneIn(trace, a, b, f)
    ensures LastLive(trace, b, f) == LastLive(trace, a, f)
  {
    if a < b { LastLiveSame(trace, a, b - 1, f); }
  }

  lemma {:induction false} FreshOk(trace: seq<Event>, i: nat)
    requires i < |trace|
    ensures CacheOk(true, BuildCache(trace, i + 1), trace, i)
  {
    var c := BuildCache(trace, i + 1);
    forall f ensures Usable(true, Lookup(c, f), trace, i, f) && Fits(true, Lookup(c, f), trace, i, f) {
      CacheIsLastLive(trace, i + 1, f);
    }
  }

  // ---- moving forward ----------------------------------------------------------------------

  /** The steps strictly between c and n are of c's frame and show what c shows; exactly so, or
      the frame's next event is live. */
  ghost predicate SkipsAhead(exact: bool, trace: seq<Event>, c: nat, n: nat) {
    && c < n < |trace|
    && (forall i :: c < i < n ==> FrameOf(trace[i]) == FrameOf(trace[c]))
    && var f := FrameOf(trace[c]);
       Same(exact, LastLive(trace, c + 1, f), LastLive(trace, n, f)) || NextIsLive(trace, n - 1, f)
  }

  /** An entry left alone stays usable, and fits if the step landed on is of its frame and not live. */
  lemma {:induction false} AheadKeeps(exact: bool, e: Option<Snapshot>, trace: seq<Event>, c: nat, n: nat, f: Frame)
    requires SkipsAhead(exact, trace, c, n)
    requires Usable(exact, e, trace, c, f) && (f == FrameOf(trace[c]) ==> Fits(exact, e, trace, c, f))
    requires FrameOf(trace[n]) == f ==> LiveVars(trace[n]).None?
    ensures Usable(exact, e, trace, n, f) && (FrameOf(trace[n]) == f ==> Fits(exact, e, trace, n, f))
  {
    assert LastLive(trace, n + 1, f) == LastLive(trace, n, f);
    if f == FrameOf(trace[c]) {
      if !Same(exact, LastLive(trace, c + 1, f), LastLive(trace, n, f)) {
        assert FrameOf(trace[n]) == f ==> IsNext(trace, n - 1, n, f);
        forall m: nat | IsNext(trace, n, m, f) ensures LiveVars(trace[m]).Some? { assert IsNext(trace, n - 1, m, f); }
      }
    } else if Fits(exact, e, trace, c, f) {
      LastLiveSame(trace, c + 1, n, f);
    } else {
      assert FrameOf(trace[n]) == f ==> IsNext(trace, c, n, f);
      forall m: nat | IsNext(trace, n, m, f) && FrameOf(trace[n]) != f ensures LiveVars(trace[m]).Some? || Fits(exact, e, trace, m, f) {
        assert IsNext(trace, c, m, f);
      }
    }
  }

  lemma {:induction false} LandedAhead(exact: bool, c: Cache, trace: seq<Event>, i: nat, n: nat)
    requires SkipsAhead(exact, trace, i, n) && CacheOk(exact, c, trace, i)
    ensures CacheOk(exact, Noted(c, trace[n], n), trace, n)
  {
    var c' := Noted(c, trace[n], n);
    var landed := FrameOf(trace[n]);
    forall f ensures Usable(exact, Lookup(c', f), trace, n, f) && (f == landed ==> Fits(exact, Lookup(c', f), trace, n, f)) {
      if LiveVars(trace[n]).Some? {
        LookupUpdated(c, landed, Snapshot(LiveVars(trace[n]).value, n), f);
      }
      if f != landed || LiveVars(trace[n]).None? {
        AheadKeeps(exact, Lookup(c, f), trace, i, n, f);
      }
    }
  }

  // ---- moving back ------------------------------------------------------------------------

  /** The steps after n up to c are of c's frame; the first of them shows what c shows, or it or n
      renews the entry. */
  ghost predicate SkipsBack(exact: bool, trace: seq<Event>, n: nat, c: nat) {
    && n < c < |trace|
    && (forall i :: n < i <= c ==> FrameOf(trace[i]) == FrameOf(trace[c]))
    && var f := FrameOf(trace[c]);
       Same(exact, LastLive(trace, c + 1, f), LastLive(trace, n + 2, f)) || LiveVars(trace[n + 1]).Some? || FrameOf(trace[n]) == f
  }

  /** An entry left alone stays usable. */
  lemma {:induction false} BackKeeps(exact: bool, e: Option<Snapshot>, trace: seq<Event>, n: nat, c: nat, f: Frame)
    requires SkipsBack(exact, trace, n, c) && FrameOf(trace[n]) != f
    requires Usable(exact, e, trace, c, f) && (f == FrameOf(trace[c]) ==> Fits(exact, e, trace, c, f))
    ensures Usable(exact, e, trace, n, f)
  {
    if f == FrameOf(trace[c]) {
      forall m: nat | IsNext(trace, n, m, f) ensures LiveVars(trace[m]).Some? || Fits(exact, e, trace, m, f) {
        assert m == n + 1;
      }
    } else if Fits(exact, e, trace, c, f) {
      LastLiveSame(trace, n + 1, c + 1, f);
    } else {
      forall m: nat | IsNext(trace, n, m, f) ensures LiveVars(trace[m]).Some? || Fits(exact, e, trace, m, f) {
        assert IsNext(trace, c, m, f);
      }
    }
  }

  lemma {:induction false} LookupRemoved(c: Cache, f: Frame, g: Frame)
    ensures Lookup(c - {FrameKey(f)}, g) == if g == f then None else Lookup(c, g)
  {
    if FrameKey(f) == FrameKey(g) { FrameKeyInjective(f, g); }
  }

  lemma {:induction false} RescannedLookup(c: Cache, trace: seq<Event>, n: nat, f: Frame)
    requires n < |trace|
    ensures Lookup(Rescanned(c, trace, n), f)
            == if f == FrameOf(trace[n]) then LastLive(trace, n + 1, f) else Lookup(c, f)
  {
    var landed := FrameOf(trace[n]);
    var found := LastLive(trace, n + 1, landed);
    if found.Some? { LookupUpdated(c, landed, found.value, f); } else { LookupRemoved(c, landed, f); }
  }

  lemma {:induction false} LandedBack(exact: bool, c: Cache, trace: seq<Event>, n: nat, i: nat)
    requires SkipsBack(exact, trace, n, i) && CacheOk(exact, c, trace, i)
    ensures CacheOk(exact, Rescanned(c, trace, n), trace, n)
  {
    forall f
      ensures Usable(exact, Lookup(Rescanned(c, trace, n), f), trace, n, f)
      ensures f == FrameOf(trace[n]) ==> Fits(exact, Lookup(Rescanned(c, trace, n), f), trace, n, f)
    {
      RescannedLookup(c, trace, n, f);
      if f != FrameOf(trace[n]) { BackKeeps(exact, Lookup(c, f), trace, n, i, f); }
    }
  }

  // ---- the user's actions --------------------------------------------------------------------

  ghost predicate Kept(exact: bool, s: Store) {
    WellPlaced(s) && (s.trace != [] ==> CacheOk(exact, s.cache, s.trace, s.step))
  }

  /** Steps of one group show the same. */
  lemma {:induction false} InsideGroup(trace: seq<Event>, g: Group, i: nat, j: nat)
    requires g in Groups(trace) && InGroup(g, i) && InGroup(g, j)
    ensures i < |trace| && j < |trace| && FrameOf(trace[i]) == FrameOf(trace[j])
    ensures VarsOf(LastLive(trace, i + 1, FrameOf(trace[j]))) == VarsOf(LastLive(trace, j + 1, FrameOf(trace[j])))
  {
    GroupShowsOne(trace, g, i);
    GroupShowsOne(trace, g, j);
  }

  /** No live step between: the same snapshot. */
  lemma {:induction false} NoLiveBetween(trace: seq<Event>, a: nat, b: nat, f: Frame)
    requires a <= b <= |trace| && forall i :: a <= i < b ==> LiveVars(trace[i]).None?
    ensures LastLive(trace, b, f) == LastLive(trace, a, f)
  {
    if a < b { NoLiveBetween(trace, a, b - 1, f); }
  }

  /** What is asked of a trace or of the groups' state for the step numbers to be right too. */
  ghost predicate Harmless(exact: bool, s: Store) { exact ==> Steady(s.trace) || AllExpanded(s) }

  lemma {:induction false} NextSkips(exact: bool, s: Store)
    requires WellPlaced(s) && NextTarget(s) < |s.trace| && Harmless(exact, s)
    ensures SkipsAhead(exact, s.trace, s.step, NextTarget(s))
  {
    hide Groups, LastLive, IsNext, LiveVars;
    ContainingIs(s.groups, s.step + 1, s.expanded);
    var found := GroupContaining(s.groups, s.step + 1, s.expanded);
    if found.Some? && s.step >= found.value.start {
      var g, t, c, n := found.value, s.trace, s.step, NextTarget(s);
      forall i | c < i < n ensures FrameOf(t[i]) == FrameOf(t[c]) { InsideGroup(t, g, i, c); }
      InsideGroup(t, g, g.end, c);
      InsideGroup(t, g, g.start, c);
      if exact && LastLive(t, c + 1, FrameOf(t[c])) != LastLive(t, n, FrameOf(t[c])) {
        if !LiveInside(t, g) { NoLiveBetween(t, c + 1, n, FrameOf(t[c])); }
        assert Renewed(t, g);
      }
    }
  }

  lemma {:induction false} PrevSkips(exact: bool, s: Store)
    requires WellPlaced(s) && s.step > 0 && PrevTarget(s) >= 0 && Harmless(exact, s)
    ensures SkipsBack(exact, s.trace, PrevTarget(s), s.step)
  {
    hide Groups, LastLive, IsNext, LiveVars;
    ContainingIs(s.groups, s.step - 1, s.expanded);
    var found := GroupContaining(s.groups, s.step - 1, s.expanded);
    if found.Some? && s.step <= found.value.end {
      var g, t, c, n := found.value, s.trace, s.step, PrevTarget(s);
      forall i | n < i <= c ensures FrameOf(t[i]) == FrameOf(t[c]) { InsideGroup(t, g, i, c); }
      InsideGroup(t, g, g.start, c);
      if exact && LastLive(t, c + 1, FrameOf(t[c])) != LastLive(t, n + 2, FrameOf(t[c])) {
        if !LiveInside(t, g) { NoLiveBetween(t, n + 2, c + 1, FrameOf(t[c])); }
        assert Renewed(t, g);
      }
    }
  }

  lemma {:induction false} ActionKeeps(exact: bool, s: Store, op: Op)
    requires Kept(exact, s)
    requires op.Forth? || op.Back? ==> Harmless(exact, s)
    ensures Kept(exact, Apply(s, op))
  {
    TargetsMove(s);
    StaysPlaced(s, op);
    ContainingIs(s.groups, s.step + 1, s.expanded);
    ContainingIs(s.groups, s.step - 1, s.expanded);
    if s.trace == [] { return; }
    match op
    case GoTo(n) =>
      var c := Clamp(n, |s.trace|);
      if c != s.step { FreshOk(s.trace, c); OkWeaker(BuildCache(s.trace, c + 1), s.trace, c, exact); }
    case Forth =>
      if s.step + 1 < |s.trace| && NextTarget(s) < |s.trace| {
        NextSkips(exact, s);
        LandedAhead(exact, s.cache, s.trace, s.step, NextTarget(s));
      }
    case Back =>
      if s.step > 0 && PrevTarget(s) >= 0 {
        PrevSkips(exact, s);
        LandedBack(exact, s.cache, s.trace, PrevTarget(s), s.step);
      }
    case Fold(_) =>
  }

  lemma {:induction false} OkWeaker(c: Cache, trace: seq<Event>, i: nat, exact: bool)
    requires i < |trace| && CacheOk(true, c, trace, i)
    ensures CacheOk(exact, c, trace, i)
  {
    forall f ensures Usable(exact, Lookup(c, f), trace, i, f) {
      assert Usable(true, Lookup(c, f), trace, i, f);
      if !Fits(true, Lookup(c, f), trace, i, f) {
        forall m: nat | IsNext(trace, i, m, f) ensures LiveVars(trace[m]).Some? || Fits(exact, Lookup(c, f), trace, m, f) {
          assert LiveVars(trace[m]).Some? || Fits(true, Lookup(c, f), trace, m, f);
        }
      }
    }
  }

  /** Next and prev are pressed only while every group is expanded. */
  ghost predicate Unfolded(s: Store, ops: seq<Op>)
    requires s.step < |s.trace| || s.step == 0
    decreases |ops|
  {
    TargetsMove(s);
    ops != [] ==> (ops[0].Forth? || ops[0].Back? ==> AllExpanded(s)) && Unfolded(Apply(s, ops[0]), ops[1..])
  }

  lemma {:induction false} RunKeeps(exact: bool, s: Store, ops: seq<Op>)
    requires Kept(exact, s) && (exact ==> Steady(s.trace) || Unfolded(s, ops))
    ensures Kept(exact, Run(s, ops))
    decreases |ops|
  {
    if ops != [] {
      StaysPlaced(s, ops[0]);
      ActionKeeps(exact, s, ops[0]);
      RunKeeps(exact, Apply(s, ops[0]), ops[1..]);
    }
  }

  function CurrentFrame(s: Store): Frame
    requires s.step < |s.trace|
  {
    FrameOf(s.trace[s.step])
  }

  /** For every trace and every run of actions: the cache entry of the current event's frame shows
      the variables a scan back from the current step finds; and it is that very snapshot if the
      trace is steady, or next and prev were pressed with all groups expanded. */
  lemma {:induction false} CacheRightWhereRead(trace: seq<Event>, expanded: seq<int>, ops: seq<Op>)
    requires trace != []
    ensures var s0 := Loaded(trace, expanded); var s := Run(s0, ops);
            && s.step < |s.trace|
            && VarsOf(Lookup(s.cache, CurrentFrame(s))) == VarsOf(LastLive(trace, s.step + 1, CurrentFrame(s)))
            && (Steady(trace) || Unfolded(s0, ops) ==> Lookup(s.cache, CurrentFrame(s)) == LastLive(trace, s.step + 1, CurrentFrame(s)))
  {
    var s0 := Loaded(trace, expanded);
    FreshOk(trace, 0);
    OkWeaker(s0.cache, trace, 0, false);
    RunKeeps(false, s0, ops);
    if Steady(trace) || Unfolded(s0, ops) { RunKeeps(true, s0, ops); }
  }

  // ---- with a group folded, the step number may lag -------------------------------------------

  const REPEATED := [Event(State("{}", None, None), "main", 0, 1), Event(State("{}", None, None), "main", 0, 1),
                     Event(Branch("x", true), "main", 0, 2)]

  /** Pressing next over a folded pair of equal states: same variables, but the step of the first. */
  lemma {:induction false} FoldedStepLags()
    ensures var s := Run(Loaded(REPEATED, []), [Forth]);
            s.step == 2 && Lookup(s.cache, CurrentFrame(s)) == Some(Snapshot("{}", 0))
            && LastLive(REPEATED, 3, CurrentFrame(s)) == Some(Snapshot("{}", 1))
  {
    var t, f := REPEATED, Frame("main", 0);
    var keys := Keys(t);
    assert LastLive(t, 1, f) == Some(Snapshot("{}", 0)) && LastLive(t, 2, f) == Some(Snapshot("{}", 1));
    assert keys[0] == keys[1] == Some(Key(f, "{}", Shown(None, None))) && keys[2] != keys[0];
    assert RunEnd(keys, 0, 1) == 2;
    assert RunEnd(keys, 2, 3) == 3;
    assert GroupsFrom(keys, 2) == [];
    assert Groups(t) == [Group(0, 1, 2)];
    var s0 := Loaded(t, []);
    TargetsMove(s0);
    assert GroupContaining(s0.groups, 1, []) == Some(Group(0, 1, 2));
    assert s0.cache == Noted(map[], t[0], 0) by { assert BuildCache(t, 1) == Noted(BuildCache(t, 0), t[0], 0); }
    LookupUpdated(map[], f, Snapshot("{}", 0), f);
    assert [Forth][1..] == [];
    assert Run(s0, [Forth]) == Run(Apply(s0, Forth), []);
  }
}
