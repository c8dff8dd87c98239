/** Runs from a fresh start that show where the guarantees end: a pool that is exceeded, and a cached
    answer that is not the run's own. */
module CoordRuns {
  import opened Basics
  import opened CoordResult
  import opened CoordModel
  import opened CoordPool
  import opened CoordTheorems
  import opened CoordSafety

  // ---- one process, one request --------------------------------------------------------------------

  /** A process 0 with its caches, idle. */
  function Idle(size: nat, l1: map<Key, Payload>): World {
    World(0, map[], {}, l1, map[], map[0 := Pool(size, 0, 0)], map[], map[], map[], {})
  }

  /** Request 0 of process 0, for key k, stands at ph; the process has this pool, and no lock was taken. */
  predicate Stands(w: World, k: Key, ph: Phase, pool: Pool) {
    && 0 in w.tasks && w.tasks[0] == Task(0, k, ph) && 0 in w.pools && w.pools[0] == pool && w.used == {}
  }

  /** One step first. */
  lemma {:induction false} Then(run: Key -> RunResult, w: World, s: Step, rest: seq<Step>)
    requires Enabled(w, s) && Allowed(run, Next(run, w, s), rest)
    ensures Allowed(run, w, [s] + rest) && Play(run, w, [s] + rest) == Play(run, Next(run, w, s), rest)
  {
    hide Next, Enabled;
    PlayCons(run, w, s, rest);
  }

  lemma {:induction false} Stay(run: Key -> RunResult, w: World)
    ensures Allowed(run, w, []) && Play(run, w, []) == w
  {}

  /** The request arrives, is admitted and leads a flight. */
  function Opening(k: Key): seq<Step> { [Around(Arrive(0, 0, k)), Flies(0, SkipProbe), Flies(0, Join)] }

  lemma {:induction false} Arrives(run: Key -> RunResult, size: nat, l1: map<Key, Payload>, k: Key)
    ensures var w, s := Idle(size, l1), Around(Arrive(0, 0, k));
            && Enabled(w, s) && Stands(Next(run, w, s), k, Arrived, Pool(size, 0, 0))
            && Next(run, w, s).l1 == l1 && Next(run, w, s).inflight == map[]
  {}

  lemma {:induction false} Enters(run: Key -> RunResult, w: World, k: Key, pool: Pool)
    requires Stands(w, k, Arrived, pool) && w.inflight == map[]
    ensures var s := Flies(0, SkipProbe);
            Enabled(w, s) && Stands(Next(run, w, s), k, Admitted, pool) && Next(run, w, s).l1 == w.l1 && Next(run, w, s).inflight == map[]
  {}

  lemma {:induction false} Leads(run: Key -> RunResult, w: World, k: Key, pool: Pool)
    requires Stands(w, k, Admitted, pool) && w.inflight == map[]
    ensures var s := Flies(0, Join); Enabled(w, s) && Stands(Next(run, w, s), k, LookL1, pool) && Next(run, w, s).l1 == w.l1
    ensures var w1 := Next(run, w, Flies(0, Join)); 0 in w1.flights && w1.flights[0] == None
  {}

  lemma {:induction false} Opens(run: Key -> RunResult, size: nat, l1: map<Key, Payload>, k: Key)
    ensures Allowed(run, Idle(size, l1), Opening(k))
    ensures var w1 := Play(run, Idle(size, l1), Opening(k));
            Stands(w1, k, LookL1, Pool(size, 0, 0)) && w1.l1 == l1 && 0 in w1.flights && w1.flights[0] == None
  {
    hide Next, Enabled, Stands;
    var w, pool, s := Idle(size, l1), Pool(size, 0, 0), Opening(k);
    Arrives(run, size, l1, k);
    var w1 := Next(run, w, s[0]);
    Enters(run, w1, k, pool);
    var w2 := Next(run, w1, s[1]);
    Leads(run, w2, k, pool);
    var none: seq<Step> := [];
    Stay(run, Next(run, w2, s[2]));
    Then(run, w2, s[2], none);
    Then(run, w1, s[1], [s[2]] + none);
    Then(run, w, s[0], [s[1]] + ([s[2]] + none));
    assert [s[0]] + ([s[1]] + ([s[2]] + none)) == s;
  }

  lemma {:induction false} PlayThen(run: Key -> RunResult, w: World, a: seq<Step>, b: seq<Step>)
    requires Allowed(run, w, a) && Allowed(run, Play(run, w, a), b)
    ensures Allowed(run, w, a + b) && Play(run, w, a + b) == Play(run, Play(run, w, a), b)
    decreases |a|
  {
    hide Next, Enabled;
    if a == [] { assert a + b == b; }
    else {
      PlayThen(run, Next(run, w, a[0]), a[1..], b);
      assert a + b == [a[0]] + (a[1..] + b);
      PlayCons(run, w, a[0], a[1..] + b);
    }
  }

  // ---- a pool exceeded -------------------------------------------------------------------------------

  /** The leader finds nothing, goes without a lock, takes a slot and gives its run up. */
  function GivingUp(): seq<Step> {
    [Looks(0, ReadL1(false)), Looks(0, ReadL2(false)), Works(0, TryLock(0, false)), Works(0, TakeSlot), Works(0, Abandon(TimedOut))]
  }

  lemma {:induction false} Misses(run: Key -> RunResult, w: World, k: Key, pool: Pool)
    ensures var s := Looks(0, ReadL1(false));
            Stands(w, k, LookL1, pool) ==> Enabled(w, s) && Stands(Next(run, w, s), k, LookL2, pool)
    ensures var s := Looks(0, ReadL2(false));
            Stands(w, k, LookL2, pool) ==> Enabled(w, s) && Stands(Next(run, w, s), k, Missed, pool)
  {}

  lemma {:induction false} GoesUnlocked(run: Key -> RunResult, w: World, k: Key, pool: Pool)
    requires Stands(w, k, Missed, pool)
    ensures var s := Works(0, TryLock(0, false)); Enabled(w, s) && Stands(Next(run, w, s), k, Cleared(NoLease), pool)
  {}

  lemma {:induction false} RunsAndStops(run: Key -> RunResult, w: World, k: Key, free: nat)
    ensures var s := Works(0, TakeSlot);
            Stands(w, k, Cleared(NoLease), Pool(free + 1, 0, 0))
            ==> Enabled(w, s) && Stands(Next(run, w, s), k, Running(NoLease), Pool(free, 0, 0))
    ensures var s := Works(0, Abandon(TimedOut));
            Stands(w, k, Running(NoLease), Pool(free, 0, 0))
            ==> Enabled(w, s) && Stands(Next(run, w, s), k, Closing(NoLease, Failed(TimedOut)), Pool(free + 1, 0, 1))
  {}

  lemma {:induction false} GivesItUp(run: Key -> RunResult, w: World, k: Key, free: nat)
    requires Stands(w, k, LookL1, Pool(free + 1, 0, 0))
    ensures Allowed(run, w, GivingUp())
    ensures Stands(Play(run, w, GivingUp()), k, Closing(NoLease, Failed(TimedOut)), Pool(free + 1, 0, 1))
  {
    hide Next, Enabled, Stands;
    var s, pool := GivingUp(), Pool(free + 1, 0, 0);
    Misses(run, w, k, pool);
    var w1 := Next(run, w, s[0]);
    Misses(run, w1, k, pool);
    var w2 := Next(run, w1, s[1]);
    GoesUnlocked(run, w2, k, pool);
    var w3 := Next(run, w2, s[2]);
    RunsAndStops(run, w3, k, free);
    var w4 := Next(run, w3, s[3]);
    RunsAndStops(run, w4, k, free);
    var none: seq<Step> := [];
    Stay(run, Next(run, w4, s[4]));
    Then(run, w4, s[4], none);
    Then(run, w3, s[3], [s[4]] + none);
    Then(run, w2, s[2], [s[3]] + ([s[4]] + none));
    Then(run, w1, s[1], [s[2]] + ([s[3]] + ([s[4]] + none)));
    Then(run, w, s[0], [s[1]] + ([s[2]] + ([s[3]] + ([s[4]] + none))));
    assert [s[0]] + ([s[1]] + ([s[2]] + ([s[3]] + ([s[4]] + none)))) == s;
  }

  /** Batch work takes slots one after the other. */
  function Takes(n: nat): seq<Step> { seq(n, _ => Around(OtherTakes(0))) }

  lemma {:induction false} TakesOne(run: Key -> RunResult, w: World)
    requires 0 in w.pools && w.pools[0].free > 0
    ensures var s, pool := Around(OtherTakes(0)), w.pools[0];
            Enabled(w, s) && Next(run, w, s) == SetPool(w, 0, Pool(pool.free - 1, pool.others + 1, pool.strays))
  {}

  lemma {:induction false} TakesAll(run: Key -> RunResult, w: World, n: nat)
    requires 0 in w.pools && n <= w.pools[0].free
    ensures Allowed(run, w, Takes(n))
    ensures var last, pool := Play(run, w, Takes(n)), w.pools[0];
            0 in last.pools && last.pools[0] == Pool(pool.free - n, pool.others + n, pool.strays)
    decreases n
  {
    hide Next, Enabled;
    if n == 0 {
      Stay(run, w);
    } else {
      var s := Around(OtherTakes(0));
      TakesOne(run, w);
      TakesAll(run, Next(run, w, s), n - 1);
      assert Takes(n) == [s] + Takes(n - 1);
      Then(run, w, s, Takes(n - 1));
    }
  }

  function GiveUps(steps: seq<Step>): nat { if steps == [] then 0 else (if GivesUp(steps[0]) then 1 else 0) + GiveUps(steps[1..]) }

  lemma {:induction false} GiveUpsAppend(a: seq<Step>, b: seq<Step>)
    ensures GiveUps(a + b) == GiveUps(a) + GiveUps(b)
  {
    if a == [] { assert a + b == b; }
    else {
      assert (a + b)[1..] == a[1..] + b;
      GiveUpsAppend(a[1..], b);
    }
  }

  lemma {:induction false} NoGiveUps(steps: seq<Step>)
    requires forall s :: s in steps ==> !GivesUp(s)
    ensures GiveUps(steps) == 0
  {
    if steps != [] { NoGiveUps(steps[1..]); }
  }

  /** For every pool size there is a run from an idle process, with a single request given up, after
      which more sandboxes run than the pool has slots. */
  lemma {:induction false} OneGivenUpRunOverflows(run: Key -> RunResult, size: nat, k: Key) returns (steps: seq<Step>)
    requires size >= 1
    ensures var w := Idle(size, map[]);
            && Initial(run, size, w) && Allowed(run, w, steps) && GiveUps(steps) == 1
            && 0 in Play(run, w, steps).pools && Live(Play(run, w, steps), 0) > size
  {
    var w := Idle(size, map[]);
    assert Initial(run, size, w);
    hide Initial, Next, Enabled, GivingUp, Opening, Takes;
    Opens(run, size, map[], k);
    var w1 := Play(run, w, Opening(k));
    GivesItUp(run, w1, k, size - 1);
    TakesAll(run, Play(run, w1, GivingUp()), size);
    PlayThen(run, w1, GivingUp(), Takes(size));
    PlayThen(run, w, Opening(k), GivingUp() + Takes(size));
    steps := Opening(k) + (GivingUp() + Takes(size));
    OnceGivenUp(k, size);
  }

  lemma {:induction false} OnceGivenUp(k: Key, n: nat)
    ensures GiveUps(Opening(k) + (GivingUp() + Takes(n))) == 1
  {
    GiveUpsAppend(Opening(k), GivingUp() + Takes(n));
    GiveUpsAppend(GivingUp(), Takes(n));
    NoGiveUps(Opening(k));
    NoGiveUps(Takes(n));
    OneOfThem();
  }

  lemma {:induction false} OneOfThem()
    ensures GiveUps(GivingUp()) == 1
  {
    var s := GivingUp();
    assert s == s[..4] + [s[4]];
    GiveUpsAppend(s[..4], [s[4]]);
    NoGiveUps(s[..4]);
    assert [s[4]][1..] == [];
  }

  // ---- how far it can be exceeded ------------------------------------------------------------------

  /** No stray more in any process, but one where a run is given up. */
  predicate FewStrays(w: World, w': World, more: nat) {
    forall p :: p in w'.pools ==> p in w.pools && w'.pools[p].strays <= w.pools[p].strays + more
  }

  lemma {:induction false} WorkStrays(run: Key -> RunResult, w: World, t: TaskId, a: Work)
    requires At(w, t) && CanWork(w, PhaseOf(w, t), a)
    ensures FewStrays(w, AfterWork(run, w, t, a), if a.Abandon? then 1 else 0)
  {
    hide Locked, FinishPhase;
  }

  lemma {:induction false} EventStrays(w: World, e: Outside)
    requires CanHappen(w, e)
    ensures FewStrays(w, AfterEvent(w, e), 0)
  {
    hide AfterChore;
    if e.DoChore? { ChoreApart(w, e.chore, e.ok); }
  }

  lemma {:induction false} StepStrays(run: Key -> RunResult, w: World, s: Step)
    requires Enabled(w, s)
    ensures FewStrays(w, Next(run, w, s), if GivesUp(s) then 1 else 0)
  {
    hide AfterLook, AfterFly, AfterClose, AfterWork, AfterEvent, SameRunning;
    match s
    case Looks(t, a) => LookSame(w, t, a);
    case Flies(t, a) => FlySame(w, t, a);
    case Closes(t, a) => CloseSame(w, t, a);
    case Works(t, a) => WorkStrays(run, w, t, a);
    case Around(e) => EventStrays(w, e);
  }

  lemma {:induction false} RunStrays(run: Key -> RunResult, w: World, steps: seq<Step>)
    requires Allowed(run, w, steps)
    ensures FewStrays(w, Play(run, w, steps), GiveUps(steps))
    decreases |steps|
  {
    if steps != [] {
      StepStrays(run, w, steps[0]);
      hide Next, Enabled;
      RunStrays(run, Next(run, w, steps[0]), steps[1..]);
    }
  }

  /** On every run from a start, the sandboxes running exceed the pool by at most the number of
      requests given up. */
  lemma {:induction false} OverflowBounded(run: Key -> RunResult, size: nat, start: World, steps: seq<Step>, p: ProcId)
    requires Initial(run, size, start) && Allowed(run, start, steps) && p in Play(run, start, steps).pools
    ensures Live(Play(run, start, steps), p) <= size + GiveUps(steps)
  {
    RunStrays(run, start, steps);
    assert start.pools[p].strays == 0;
    hide Initial, Play;
    PoolExact(run, size, Play(run, start, steps), p);
  }

  // ---- a cached answer ---------------------------------------------------------------------------------

  function Hitting(): seq<Step> { [Looks(0, ReadL1(true)), Flies(0, Publish), Flies(0, Leave)] }

  /** A stored result of a key is answered from the cache as reloading gives it. */
  lemma {:induction false} HitAnswers(run: Key -> RunResult, size: nat, k: Key)
    requires run(k).compileError.None?
    ensures var w, steps := Idle(size, map[k := ToPayload(run(k))]), Opening(k) + Hitting();
            && Initial(run, size, w) && Allowed(run, w, steps)
            && Stands(Play(run, w, steps), k, Done(Answer(FromPayload(ToPayload(run(k))), true)), Pool(size, 0, 0))
  {
    var l1 := map[k := ToPayload(run(k))];
    var w := Idle(size, l1);
    assert Initial(run, size, w);
    hide Initial, Next, Enabled, FromPayload, ToPayload, Stands, Hitting, Opening;
    Opens(run, size, l1, k);
    var w1 := Play(run, w, Opening(k));
    Hits(run, w1, k, Pool(size, 0, 0));
    PlayThen(run, w, Opening(k), Hitting());
  }

  lemma {:induction false} Finds(run: Key -> RunResult, w: World, k: Key, pool: Pool)
    requires Stands(w, k, LookL1, pool) && k in w.l1
    ensures var s := Looks(0, ReadL1(true));
            && Enabled(w, s) && Stands(Next(run, w, s), k, Settling(Answer(FromPayload(w.l1[k]), true)), pool)
            && Next(run, w, s).flights == w.flights
  {
    hide FromPayload;
  }

  lemma {:induction false} Publishes(run: Key -> RunResult, w: World, k: Key, o: Outcome, pool: Pool)
    ensures var s := Flies(0, Publish);
            Stands(w, k, Settling(o), pool) ==> Enabled(w, s) && Stands(Next(run, w, s), k, Leaving(o), pool)
    ensures var s := Flies(0, Leave);
            Stands(w, k, Leaving(o), pool) ==> Enabled(w, s) && Stands(Next(run, w, s), k, Done(o), pool)
  {}

  lemma {:induction false} Hits(run: Key -> RunResult, w: World, k: Key, pool: Pool)
    requires Stands(w, k, LookL1, pool) && k in w.l1
    ensures Allowed(run, w, Hitting()) && Stands(Play(run, w, Hitting()), k, Done(Answer(FromPayload(w.l1[k]), true)), pool)
  {
    hide Next, Enabled, Stands, FromPayload;
    var s, o := Hitting(), Answer(FromPayload(w.l1[k]), true);
    Finds(run, w, k, pool);
    var w1 := Next(run, w, s[0]);
    Publishes(run, w1, k, o, pool);
    var w2 := Next(run, w1, s[1]);
    Publishes(run, w2, k, o, pool);
    var none: seq<Step> := [];
    Stay(run, Next(run, w2, s[2]));
    Then(run, w2, s[2], none);
    Then(run, w1, s[1], [s[2]] + none);
    Then(run, w, s[0], [s[1]] + ([s[2]] + none));
    assert [s[0]] + ([s[1]] + ([s[2]] + none)) == s;
  }

  /** Every answer in every reachable world is the sandbox's own result for its key, if and only if no
      key's result can be stored and carries a code of the output guard. */
  lemma {:induction false} TransparentExactly(run: Key -> RunResult, size: nat)
    ensures (forall w, t :: Reachable(run, size, w) && AnswerOf(w, t).Some? ==> AnswerOf(w, t).value == run(w.tasks[t].key))
            <==> forall k :: run(k).compileError.None? ==> run(k).exitCode !in GUARD_CODES
  {
    hide Reachable;
    if k :| run(k).compileError.None? && run(k).exitCode in GUARD_CODES {
      HitAnswers(run, size, k);
      ReloadExact(run(k));
      var w, steps := Idle(size, map[k := ToPayload(run(k))]), Opening(k) + Hitting();
      PlayReaches(run, size, w, steps);
      assert AnswerOf(Play(run, w, steps), 0).Some?;
    } else {
      forall w, t | Reachable(run, size, w) && AnswerOf(w, t).Some? ensures AnswerOf(w, t).value == run(w.tasks[t].key) {
        AnswersExact(run, size, w, t);
      }
    }
  }

  /** The result a finished request was answered with. */
  function AnswerOf(w: World, t: TaskId): Option<RunResult> {
    if t in w.tasks && w.tasks[t].phase.Done? && w.tasks[t].phase.outcome.Answer? then Some(w.tasks[t].phase.outcome.result) else None
  }

  lemma {:induction false} PlayReaches(run: Key -> RunResult, size: nat, start: World, steps: seq<Step>)
    requires Initial(run, size, start) && Allowed(run, start, steps)
    ensures Reachable(run, size, Play(run, start, steps))
  {}
}
