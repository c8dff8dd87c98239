/** Which steps next and prev visit: all but the insides of folded groups, in order. */
module TraceOrder {
  import opened TraceModel
  import opened TraceGroups
  import opened TraceNav

  predicate Folded(s: Store, g: Group) { g in s.groups && g.start !in s.expanded }

  /** Inside a folded group, past its first step. */
  ghost predicate HiddenAhead(s: Store, i: int) { exists g :: Folded(s, g) && g.start < i <= g.end }

  /** Inside a folded group, before its last step. */
  ghost predicate HiddenBehind(s: Store, i: int) { exists g :: Folded(s, g) && g.start <= i < g.end }

  lemma {:induction false} OneGroup(s: Store, g: Group, h: Group, i: int)
    requires WellPlaced(s) && g in s.groups && h in s.groups && InGroup(g, i) && InGroup(h, i)
    ensures g == h
  {
    GroupsAreMaximalRuns(s.trace);
    var x :| 0 <= x < |s.groups| && s.groups[x] == g;
    var y :| 0 <= y < |s.groups| && s.groups[y] == h;
  }

  lemma {:induction false} GroupInside(s: Store, g: Group)
    requires WellPlaced(s) && g in s.groups
    ensures g.start < g.end < |s.trace|
  {
    GroupsAreMaximalRuns(s.trace);
    assert IsMaximalRun(Keys(s.trace), g);
  }

  /** From any step, next goes to the least later step not hidden ahead, or stays if there is none. */
  lemma {:induction false} NextIsLeast(s: Store)
    requires WellPlaced(s)
    ensures var n := Apply(s, Forth).step;
            if n > s.step then !HiddenAhead(s, n) && n < |s.trace| && forall i :: s.step < i < n ==> HiddenAhead(s, i)
            else n == s.step && forall i :: s.step < i < |s.trace| ==> HiddenAhead(s, i)
  {
    TargetsMove(s);
    ContainingIs(s.groups, s.step + 1, s.expanded);
    var t := NextTarget(s);
    var found := GroupContaining(s.groups, s.step + 1, s.expanded);
    if found.Some? {
      var g := found.value;
      GroupInside(s, g);
      forall i | s.step < i < t ensures HiddenAhead(s, i) { assert Folded(s, g) && g.start < i <= g.end; }
      if HiddenAhead(s, t) {
        var h :| Folded(s, h) && h.start < t <= h.end;
        OneGroup(s, g, h, if s.step < g.start then t else t - 1);
      }
    }
  }

  /** From any step, prev goes to the greatest earlier step not hidden behind, or stays if there is none. */
  lemma {:induction false} PrevIsGreatest(s: Store)
    requires WellPlaced(s)
    ensures var n := Apply(s, Back).step;
            if n < s.step then !HiddenBehind(s, n) && forall i :: n < i < s.step ==> HiddenBehind(s, i)
            else n == s.step && forall i :: 0 <= i < s.step ==> HiddenBehind(s, i)
  {
    TargetsMove(s);
    ContainingIs(s.groups, s.step - 1, s.expanded);
    var t := PrevTarget(s);
    var found := GroupContaining(s.groups, s.step - 1, s.expanded);
    if found.Some? {
      var g := found.value;
      GroupInside(s, g);
      forall i | t < i < s.step ensures HiddenBehind(s, i) { assert Folded(s, g) && g.start <= i < g.end; }
      if HiddenBehind(s, t) {
        var h :| Folded(s, h) && h.start <= t < h.end;
        OneGroup(s, g, h, if s.step > g.end then t else t + 1);
      }
    }
  }

  // ---- pressing next to the end --------------------------------------------------------------

  ghost function Shown(s: Store, i: nat): seq<nat>
    decreases |s.trace| - i
  {
    if i >= |s.trace| then [] else (if HiddenAhead(s, i) then [] else [i]) + Shown(s, i + 1)
  }

  /** The steps shown while next is pressed until nothing changes. */
  ghost function Presses(s: Store): seq<nat>
    requires WellPlaced(s)
    decreases |s.trace| - s.step
  {
    StaysPlaced(s, Forth);
    NextIsLeast(s);
    var n := Apply(s, Forth);
    [s.step] + (if n.step == s.step then [] else Presses(n))
  }

  lemma {:induction false} ShownSkips(s: Store, i: nat, j: nat)
    requires i <= j <= |s.trace| && forall k :: i <= k < j ==> HiddenAhead(s, k)
    ensures Shown(s, i) == Shown(s, j)
    decreases j - i
  {
    if i < j { ShownSkips(s, i + 1, j); }
  }

  lemma {:induction false} SameHidden(s: Store, n: Store, i: int)
    requires s.groups == n.groups && s.expanded == n.expanded
    ensures HiddenAhead(n, i) <==> HiddenAhead(s, i)
  {
    if HiddenAhead(s, i) { var g :| Folded(s, g) && g.start < i <= g.end; assert Folded(n, g); }
    if HiddenAhead(n, i) { var g :| Folded(n, g) && g.start < i <= g.end; assert Folded(s, g); }
  }

  lemma {:induction false} SameShown(s: Store, n: Store, i: nat)
    requires s.groups == n.groups && s.expanded == n.expanded && s.trace == n.trace
    ensures Shown(n, i) == Shown(s, i)
    decreases |s.trace| - i
  {
    if i < |s.trace| {
      SameShown(s, n, i + 1);
      SameHidden(s, n, i);
    }
  }

  lemma {:induction false} NextSame(s: Store)
    requires WellPlaced(s)
    ensures var n := Apply(s, Forth); n.groups == s.groups && n.expanded == s.expanded && n.trace == s.trace
  {
    TargetsMove(s);
  }

  lemma {:induction false} PressesAreShown(s: Store)
    requires WellPlaced(s) && s.trace != [] && !HiddenAhead(s, s.step)
    ensures Presses(s) == Shown(s, s.step)
    decreases |s.trace| - s.step
  {
    hide Apply, HiddenAhead, Groups;
    StaysPlaced(s, Forth);
    NextIsLeast(s);
    NextSame(s);
    var n := Apply(s, Forth);
    if n.step == s.step {
      ShownSkips(s, s.step + 1, |s.trace|);
    } else {
      ShownSkips(s, s.step + 1, n.step);
      SameShown(s, n, n.step);
      SameHidden(s, n, n.step);
      PressesAreShown(n);
    }
  }

  /** From the first step, pressing next visits exactly the steps outside every folded group's
      inside, in ascending order. */
  lemma {:induction false} NextVisitsAllShown(s: Store)
    requires WellPlaced(s) && s.trace != [] && s.step == 0
    ensures Presses(s) == Shown(s, 0)
  {
    PressesAreShown(s);
  }

  // ---- pressing prev to the start ------------------------------------------------------------

  ghost function ShownBack(s: Store, i: int): seq<int>
    decreases i
  {
    if i < 0 then [] else (if HiddenBehind(s, i) then [] else [i]) + ShownBack(s, i - 1)
  }

  ghost function BackPresses(s: Store): seq<int>
    requires WellPlaced(s)
    decreases s.step
  {
    StaysPlaced(s, Back);
    PrevIsGreatest(s);
    var n := Apply(s, Back);
    [s.step as int] + (if n.step == s.step then [] else BackPresses(n))
  }

  lemma {:induction false} ShownBackSkips(s: Store, i: int, j: int)
    requires -1 <= j <= i && forall k :: j < k <= i ==> HiddenBehind(s, k)
    ensures ShownBack(s, i) == ShownBack(s, j)
    decreases i - j
  {
    if j < i { ShownBackSkips(s, i - 1, j); }
  }

  lemma {:induction false} SameHiddenBehind(s: Store, n: Store, i: int)
    requires s.groups == n.groups && s.expanded == n.expanded
    ensures HiddenBehind(n, i) <==> HiddenBehind(s, i)
  {
    if HiddenBehind(s, i) { var g :| Folded(s, g) && g.start <= i < g.end; assert Folded(n, g); }
    if HiddenBehind(n, i) { var g :| Folded(n, g) && g.start <= i < g.end; assert Folded(s, g); }
  }

  lemma {:induction false} SameShownBack(s: Store, n: Store, i: int)
    requires s.groups == n.groups && s.expanded == n.expanded
    ensures ShownBack(n, i) == ShownBack(s, i)
    decreases i
  {
    if i >= 0 {
      SameShownBack(s, n, i - 1);
      SameHiddenBehind(s, n, i);
    }
  }

  lemma {:induction false} PrevSame(s: Store)
    requires WellPlaced(s)
    ensures var n := Apply(s, Back); n.groups == s.groups && n.expanded == s.expanded && n.trace == s.trace
  {
    TargetsMove(s);
  }

  lemma {:induction false} BackPressesAreShown(s: Store)
    requires WellPlaced(s) && !HiddenBehind(s, s.step)
    ensures BackPresses(s) == ShownBack(s, s.step)
    decreases s.step
  {
    hide Apply, HiddenBehind, Groups;
    StaysPlaced(s, Back);
    PrevIsGreatest(s);
    PrevSame(s);
    var n := Apply(s, Back);
    if n.step == s.step {
      ShownBackSkips(s, s.step - 1, -1);
    } else {
      ShownBackSkips(s, s.step - 1, n.step);
      SameShownBack(s, n, n.step);
      SameHiddenBehind(s, n, n.step);
      BackPressesAreShown(n);
    }
  }

  /** From the last step, pressing prev visits exactly the steps that are not before the end of a
      folded group, in descending order. */
  lemma {:induction false} PrevVisitsAllShown(s: Store)
    requires WellPlaced(s) && s.step + 1 == |s.trace|
    ensures BackPresses(s) == ShownBack(s, |s.trace| - 1)
  {
    if HiddenBehind(s, s.step) {
      var g :| Folded(s, g) && g.start <= s.step < g.end;
      GroupInside(s, g);
    }
    BackPressesAreShown(s);
  }

  // ---- every group expanded ------------------------------------------------------------------

  /** With every group expanded nothing is hidden. */
  lemma {:induction false} NothingHidden(s: Store, i: int)
    requires AllExpanded(s)
    ensures !HiddenAhead(s, i) && !HiddenBehind(s, i)
  {}

  function UpFrom(i: nat, n: nat): seq<nat>
    requires i <= n
  {
    seq(n - i, k requires 0 <= k < n - i => i + k)
  }

  function DownFrom(i: int): seq<int>
    requires i >= -1
  {
    seq(i + 1, k requires 0 <= k < i + 1 => i - k)
  }

  lemma {:induction false} AllShown(s: Store, i: nat)
    requires AllExpanded(s) && i <= |s.trace|
    ensures Shown(s, i) == UpFrom(i, |s.trace|)
    decreases |s.trace| - i
  {
    if i < |s.trace| {
      NothingHidden(s, i);
      AllShown(s, i + 1);
      assert UpFrom(i, |s.trace|) == [i] + UpFrom(i + 1, |s.trace|);
    }
  }

  lemma {:induction false} AllShownBack(s: Store, i: int)
    requires AllExpanded(s) && i >= -1
    ensures ShownBack(s, i) == DownFrom(i)
    decreases i
  {
    if i >= 0 {
      NothingHidden(s, i);
      AllShownBack(s, i - 1);
      assert DownFrom(i) == [i] + DownFrom(i - 1);
    }
  }

  /** With every group expanded, next from the first step and prev from the last visit every step. */
  lemma {:induction false} EveryStepVisited(s: Store)
    requires WellPlaced(s) && s.trace != [] && AllExpanded(s)
    ensures s.step == 0 ==> Presses(s) == UpFrom(0, |s.trace|)
    ensures s.step + 1 == |s.trace| ==> BackPresses(s) == DownFrom(|s.trace| - 1)
  {
    if s.step == 0 {
      NextVisitsAllShown(s);
      AllShown(s, 0);
    }
    if s.step + 1 == |s.trace| {
      PrevVisitsAllShown(s);
      AllShownBack(s, |s.trace| - 1);
    }
  }
}
