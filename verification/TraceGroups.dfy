/** Runs of steps that show the same: display keys, and the groups made of them. */
module TraceGroups {
  import opened Basics
  import opened TraceModel

  /** What sets steps with equal variables apart. */
  datatype Detail = Shown(stdout: Option<string>, heap: Option<string>) | Branched(condition: string, taken: bool)
                  | Returned(value: string)

  datatype Key = Key(frame: Frame, vars: Vars, detail: Detail)

  /** Display identity of a step, given the variables last live in its frame before it.
      A step that shows nothing has none. */
  function DisplayKey(e: Event, filled: Option<Vars>): Option<Key> {
    match e.kind
    case State(vars, stdout, heap) => Some(Key(FrameOf(e), vars, Shown(stdout, heap)))
    case Enter(params) => Some(Key(FrameOf(e), params, Shown(None, None)))
    case Iter => if filled.None? then None else Some(Key(FrameOf(e), filled.value, Shown(None, None)))
    case Branch(c, t) => if filled.None? then None else Some(Key(FrameOf(e), filled.value, Branched(c, t)))
    case Exit(r) => if filled.None? then None else Some(Key(FrameOf(e), filled.value, Returned(r)))
  }

  /** The key of step i, by scanning back from strictly before it. */
  function KeyAt(trace: seq<Event>, i: nat): Option<Key>
    requires i < |trace|
  {
    DisplayKey(trace[i], VarsOf(LastLive(trace, i, FrameOf(trace[i]))))
  }

  function Keys(trace: seq<Event>): seq<Option<Key>> {
    seq(|trace|, i requires 0 <= i < |trace| => KeyAt(trace, i))
  }

  /** Steps start .. end, both included. */
  datatype Group = Group(start: nat, end: nat, count: nat)

  /** The end of the run of keys equal to keys[i] that goes on at j. */
  function RunEnd(keys: seq<Option<Key>>, i: nat, j: nat): (r: nat)
    requires i < j <= |keys|
    ensures j <= r <= |keys|
    ensures forall k :: j <= k < r ==> keys[k] == keys[i]
    ensures r < |keys| ==> keys[r] != keys[i]
    decreases |keys| - j
  {
    if j < |keys| && keys[j] == keys[i] then RunEnd(keys, i, j + 1) else j
  }

  function GroupsFrom(keys: seq<Option<Key>>, i: nat): seq<Group>
    requires i <= |keys|
    decreases |keys| - i
  {
    if i == |keys| then []
    else if keys[i].None? then GroupsFrom(keys, i + 1)
    else
      var j := RunEnd(keys, i, i + 1);
      (if j - i > 1 then [Group(i, j - 1, j - i)] else []) + GroupsFrom(keys, j)
  }

  function Groups(trace: seq<Event>): seq<Group> { GroupsFrom(Keys(trace), 0) }

  // ---- what groups are ---------------------------------------------------------------------

  /** A run of at least two steps with one and the same display key that cannot be made longer. */
  predicate IsMaximalRun(keys: seq<Option<Key>>, g: Group) {
    && g.start < g.end < |keys| && g.count == g.end - g.start + 1
    && keys[g.start].Some?
    && (forall k :: g.start <= k <= g.end ==> keys[k] == keys[g.start])
    && (g.start > 0 ==> keys[g.start - 1] != keys[g.start])
    && (g.end + 1 < |keys| ==> keys[g.end + 1] != keys[g.start])
  }

  /** In order and apart. */
  predicate Ascending(gs: seq<Group>) {
    forall x, y :: 0 <= x < y < |gs| ==> gs[x].end < gs[y].start
  }

  predicate RunStarts(keys: seq<Option<Key>>, i: nat) {
    i <= |keys| && (0 < i < |keys| && keys[i].Some? ==> keys[i - 1] != keys[i])
  }

  /** Maximal runs from i on, in order and apart. */
  predicate RunsFrom(keys: seq<Option<Key>>, i: nat, gs: seq<Group>) {
    Ascending(gs) && forall g :: g in gs ==> i <= g.start && IsMaximalRun(keys, g)
  }

  lemma {:induction false} RunsFromCons(keys: seq<Option<Key>>, i: nat, g: Group, gs: seq<Group>)
    requires i <= g.start && IsMaximalRun(keys, g) && RunsFrom(keys, g.end + 1, gs)
    ensures RunsFrom(keys, i, [g] + gs)
  {
    assert g.start < g.end;
    hide IsMaximalRun;
  }

  lemma {:induction false} RunsFromEarlier(keys: seq<Option<Key>>, i: nat, j: nat, gs: seq<Group>)
    requires i <= j && RunsFrom(keys, j, gs)
    ensures RunsFrom(keys, i, gs)
  {
    hide IsMaximalRun;
  }

  lemma {:induction false} RunIsMaximal(keys: seq<Option<Key>>, i: nat)
    requires i < |keys| && RunStarts(keys, i) && keys[i].Some? && RunEnd(keys, i, i + 1) > i + 1
    ensures var j := RunEnd(keys, i, i + 1); IsMaximalRun(keys, Group(i, j - 1, j - i))
  {}

  function NextStart(keys: seq<Option<Key>>, i: nat): (j: nat)
    requires i < |keys|
    ensures i < j <= |keys|
  {
    if keys[i].None? then i + 1 else RunEnd(keys, i, i + 1)
  }

  lemma {:induction false} NextStarts(keys: seq<Option<Key>>, i: nat)
    requires i < |keys|
    ensures RunStarts(keys, NextStart(keys, i))
  {
    var j := NextStart(keys, i);
    assert keys[j - 1] == keys[i];
  }

  lemma {:induction false} GroupsAreRuns(keys: seq<Option<Key>>, i: nat)
    requires RunStarts(keys, i)
    ensures RunsFrom(keys, i, GroupsFrom(keys, i))
    decreases |keys| - i
  {
    assert RunsFrom(keys, i, []);
    hide IsMaximalRun, RunsFrom, RunStarts, RunEnd;
    if i < |keys| {
      var j := NextStart(keys, i);
      NextStarts(keys, i);
      GroupsAreRuns(keys, j);
      if j - i > 1 {
        RunIsMaximal(keys, i);
        RunsFromCons(keys, i, Group(i, j - 1, j - i), GroupsFrom(keys, j));
      } else {
        RunsFromEarlier(keys, i, j, GroupsFrom(keys, j));
        assert [] + GroupsFrom(keys, j) == GroupsFrom(keys, j);
      }
    }
  }

  lemma {:induction false} RunsAreGroups(keys: seq<Option<Key>>, i: nat, g: Group)
    requires RunStarts(keys, i) && i <= g.start && IsMaximalRun(keys, g)
    ensures g in GroupsFrom(keys, i)
    decreases |keys| - i
  {
    if keys[i].None? {
      assert g.start != i;
      RunsAreGroups(keys, i + 1, g);
    } else {
      var j := RunEnd(keys, i, i + 1);
      if g.start < j {
        assert g == Group(i, j - 1, j - i);
      } else {
        RunsAreGroups(keys, j, g);
      }
    }
  }

  /** The groups are exactly the maximal runs, in order and apart from each other. */
  lemma {:induction false} GroupsAreMaximalRuns(trace: seq<Event>)
    ensures Ascending(Groups(trace))
    ensures forall g :: g in Groups(trace) <==> IsMaximalRun(Keys(trace), g)
  {
    GroupsAreRuns(Keys(trace), 0);
    forall g | IsMaximalRun(Keys(trace), g) ensures g in Groups(trace) { RunsAreGroups(Keys(trace), 0, g); }
  }

  /** A step with a key shows, afterwards, the variables of its key. */
  lemma {:induction false} KeyShows(trace: seq<Event>, i: nat)
    requires i < |trace| && KeyAt(trace, i).Some?
    ensures KeyAt(trace, i).value.frame == FrameOf(trace[i])
    ensures VarsOf(LastLive(trace, i + 1, FrameOf(trace[i]))) == Some(KeyAt(trace, i).value.vars)
  {}

  /** Inside a group all steps are of one frame and show the same variables. */
  lemma {:induction false} GroupShowsOne(trace: seq<Event>, g: Group, i: nat)
    requires g in Groups(trace) && g.start <= i <= g.end
    ensures g.start < g.end < |trace| && FrameOf(trace[i]) == FrameOf(trace[g.start])
    ensures VarsOf(LastLive(trace, i + 1, FrameOf(trace[i]))) == VarsOf(LastLive(trace, g.start + 1, FrameOf(trace[i])))
  {
    var keys := Keys(trace);
    GroupsAreMaximalRuns(trace);
    assert keys[i] == keys[g.start] && keys[i] == KeyAt(trace, i) && keys[g.start] == KeyAt(trace, g.start);
    KeyShows(trace, i);
    KeyShows(trace, g.start);
  }
}
