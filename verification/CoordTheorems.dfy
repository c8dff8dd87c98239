/** What holds in every interleaving of any number of processes and requests, with failed reads
    and writes, evictions, expiries, timeouts and cancellations at any point. */
module CoordTheorems {
  import opened Basics
  import opened CoordResult
  import opened CoordModel
  import opened CoordAnswers
  import opened CoordFlights
  import opened CoordPool
  import opened CoordLocks

  ghost predicate Good(run: Key -> RunResult, size: nat, w: World) {
    AnswersRight(run, w) && Flying(w) && PoolsFit(size, w) && LeasesGood(w)
  }

  lemma {:induction false} StartsGood(run: Key -> RunResult, size: nat, w: World)
    requires Initial(run, size, w)
    ensures Good(run, size, w)
  {
    forall p | p in w.pools ensures w.pools[p].free + w.pools[p].others + |Holders(w.tasks, p)| == size {
      assert Holders(w.tasks, p) == {};
    }
  }

  lemma {:induction false} NotYetFlying(w: World, t: TaskId)
    requires Flying(w) && At(w, t) && PhaseOf(w, t).Admitted?
    ensures t !in w.flights
  {
    FitsOf(w, t);
  }

  lemma {:induction false} StepKeeps(run: Key -> RunResult, size: nat, w: World, s: Step)
    requires Good(run, size, w) && Enabled(w, s)
    ensures Good(run, size, Next(run, w, s))
  {
    hide AnswersRight, Flying, PoolsFit, LeasesGood, Next;
    if s.Flies? && s.fly.Join? { NotYetFlying(w, s.task); }
    StepRight(run, w, s);
    StepFlying(run, w, s);
    StepFits(size, run, w, s);
    StepGood(run, w, s);
  }

  lemma {:induction false} RunKeeps(run: Key -> RunResult, size: nat, w: World, steps: seq<Step>)
    requires Good(run, size, w) && Allowed(run, w, steps)
    ensures Good(run, size, Play(run, w, steps))
    decreases |steps|
  {
    if steps != [] {
      hide Good, Next;
      StepKeeps(run, size, w, steps[0]);
      RunKeeps(run, size, Next(run, w, steps[0]), steps[1..]);
    }
  }

  /** A world some run from some start leads to. */
  ghost predicate Reachable(run: Key -> RunResult, size: nat, w: World) {
    exists start, steps: seq<Step> :: Initial(run, size, start) && Allowed(run, start, steps) && Play(run, start, steps) == w
  }

  lemma {:induction false} ReachableGood(run: Key -> RunResult, size: nat, w: World)
    requires Reachable(run, size, w)
    ensures Good(run, size, w)
  {
    hide Good, Initial, Play;
    var start, steps: seq<Step> :| Initial(run, size, start) && Allowed(run, start, steps) && Play(run, start, steps) == w;
    StartsGood(run, size, start);
    RunKeeps(run, size, start, steps);
  }

  // ---- answers --------------------------------------------------------------------------------

  /** Every successful answer is the sandbox's own result for the key, except exactly the cached
      answers to runs that died by the file-size limit. */
  lemma {:induction false} AnswersExact(run: Key -> RunResult, size: nat, w: World, t: TaskId)
    requires Reachable(run, size, w) && t in w.tasks && w.tasks[t].phase.Done? && w.tasks[t].phase.outcome.Answer?
    ensures var r, o := run(w.tasks[t].key), w.tasks[t].phase.outcome;
            && (o.result == r <==> !o.hit || r.exitCode !in GUARD_CODES)
            && (o.hit ==> r.compileError.None?)
  {
    hide Reachable;
    ReachableGood(run, size, w);
    Parts(run, w, t);
    ReloadExact(run(w.tasks[t].key));
  }

  // ---- flights --------------------------------------------------------------------------------

  /** At most one request of a process leads for a key. */
  lemma {:induction false} OneFlight(run: Key -> RunResult, size: nat, w: World, t: TaskId, u: TaskId)
    requires Reachable(run, size, w) && t in w.tasks && u in w.tasks && Leading(w.tasks[t].phase) && Leading(w.tasks[u].phase)
    requires w.tasks[t].proc == w.tasks[u].proc && w.tasks[t].key == w.tasks[u].key
    ensures t == u
  {
    hide Reachable;
    ReachableGood(run, size, w);
    FitsOf(w, t);
    FitsOf(w, u);
  }

  /** Nobody waits on a flight that nobody flies: it is settled, or its leader is still at work. */
  lemma {:induction false} WaitersHaveALeader(run: Key -> RunResult, size: nat, w: World, t: TaskId)
    requires Reachable(run, size, w) && t in w.tasks && w.tasks[t].phase.Waiting?
    ensures var f := w.tasks[t].phase.flight;
            && f in w.flights && f in w.tasks && w.tasks[f].proc == w.tasks[t].proc && w.tasks[f].key == w.tasks[t].key
            && (w.flights[f].Some? || Open(w.tasks[f].phase))
  {
    hide Reachable;
    ReachableGood(run, size, w);
    Parts(run, w, t);
    FitsOf(w, w.tasks[t].phase.flight);
  }

  /** Flights as before, and requests that do no leader's work as before. */
  predicate Apart(w: World, w': World) {
    w'.flights == w.flights
    && forall u :: u in w.tasks && !Open(w.tasks[u].phase) ==> u in w'.tasks && w'.tasks[u] == w.tasks[u]
  }

  lemma {:induction false} OwnApart(w: World, w': World, t: TaskId)
    requires OwnWork(w, w', t)
    ensures Apart(w, w')
  {
    hide Open;
  }

  lemma {:induction false} EventApart(w: World, e: Outside)
    requires CanHappen(w, e)
    ensures Apart(w, AfterEvent(w, e))
  {
    hide AfterChore, Open;
    if e.DoChore? { ChoreApart(w, e.chore, e.ok); }
  }

  lemma {:induction false} StepApart(run: Key -> RunResult, w: World, s: Step)
    requires Enabled(w, s) && !s.Flies?
    ensures Apart(w, Next(run, w, s))
  {
    hide AfterLook, AfterWork, AfterClose, AfterEvent, OwnWork, Apart;
    match s
    case Looks(t, a) =>
      LookIsOwn(w, t, a);
      OwnApart(w, AfterLook(w, t, a), t);
    case Works(t, a) =>
      WorkIsOwn(run, w, t, a);
      OwnApart(w, AfterWork(run, w, t, a), t);
    case Closes(t, a) =>
      CloseIsOwn(w, t, a);
      OwnApart(w, AfterClose(w, t, a), t);
    case Around(e) => EventApart(w, e);
  }

  /** A flight's outcome is written once. */
  lemma {:induction false} OutcomeStays(run: Key -> RunResult, w: World, s: Step, f: TaskId)
    requires Flying(w) && Enabled(w, s) && f in w.flights && w.flights[f].Some?
    ensures f in Next(run, w, s).flights && Next(run, w, s).flights[f] == w.flights[f]
  {
    hide AfterCancel, Next;
    if s.Flies? {
      FlyKeepsOutcome(w, s.task, s.fly, f);
      NextFlies(run, w, s.task, s.fly);
    } else {
      StepApart(run, w, s);
    }
  }

  lemma {:induction false} NextFlies(run: Key -> RunResult, w: World, t: TaskId, a: Fly)
    requires Enabled(w, Flies(t, a))
    ensures Next(run, w, Flies(t, a)) == AfterFly(w, t, a)
  {
    hide AfterFly;
  }

  lemma {:induction false} FlyKeepsOutcome(w: World, t: TaskId, a: Fly, f: TaskId)
    requires Flying(w) && At(w, t) && CanFly(w, PhaseOf(w, t), a) && f in w.flights && w.flights[f].Some?
    ensures f in AfterFly(w, t, a).flights && AfterFly(w, t, a).flights[f] == w.flights[f]
  {
    FitsOf(w, t);
    CancelApart(w, t);
    hide AfterCancel, Flying;
  }

  lemma {:induction false} CancelApart(w: World, t: TaskId)
    requires At(w, t)
    ensures AfterCancel(w, t).flights == w.flights
  {}

  /** A request that waits, or has got the flight's outcome, or was cancelled. */
  predicate Served(w: World, t: TaskId, f: TaskId) {
    t in w.tasks && f in w.flights
    && match w.tasks[t].phase
       case Waiting(g) => g == f
       case Done(o) => o == Failed(Cancelled) || w.flights[f] == Some(o)
       case _ => false
  }

  lemma {:induction false} FlyMovesOne(w: World, u: TaskId, a: Fly)
    requires At(w, u) && CanFly(w, PhaseOf(w, u), a)
    ensures var w' := AfterFly(w, u, a);
            w'.flights.Keys >= w.flights.Keys && forall t :: t in w.tasks ==> t in w'.tasks && (t != u ==> w'.tasks[t] == w.tasks[t])
  {
    hide LeftToThreads, CancelledPhase;
  }

  lemma {:induction false} OwnFlyServes(w: World, a: Fly, t: TaskId, f: TaskId)
    requires At(w, t) && CanFly(w, PhaseOf(w, t), a) && Served(w, t, f)
    ensures AfterFly(w, t, a).flights == w.flights && Served(AfterFly(w, t, a), t, f)
  {
    assert a.TakeOutcome? || a.Cancel?;
    if a.Cancel? {
      CancelApart(w, t);
      assert AfterFly(w, t, a).tasks[t].phase == Done(Failed(Cancelled));
    } else {
      assert AfterFly(w, t, a) == Move(w, t, Done(w.flights[f].value));
    }
  }

  lemma {:induction false} FlyServes(w: World, u: TaskId, a: Fly, t: TaskId, f: TaskId)
    requires Flying(w) && At(w, u) && CanFly(w, PhaseOf(w, u), a) && Served(w, t, f)
    ensures Served(AfterFly(w, u, a), t, f)
  {
    hide AfterFly, Flying;
    if u == t {
      OwnFlyServes(w, a, t, f);
    } else {
      FlyMovesOne(w, u, a);
      if w.flights[f].Some? { FlyKeepsOutcome(w, u, a, f); }
    }
  }

  lemma {:induction false} StepServes(run: Key -> RunResult, w: World, s: Step, t: TaskId, f: TaskId)
    requires Flying(w) && Enabled(w, s) && Served(w, t, f)
    ensures Served(Next(run, w, s), t, f)
  {
    hide AfterFly, Next;
    if s.Flies? {
      FlyServes(w, s.task, s.fly, t, f);
      NextFlies(run, w, s.task, s.fly);
    } else {
      StepApart(run, w, s);
    }
  }

  /** Whatever happens while a request waits, when it is over it has the flight's outcome, value
      or error, unless it was cancelled itself. */
  lemma {:induction false} WaitersShareTheOutcome(run: Key -> RunResult, size: nat, w: World, steps: seq<Step>, t: TaskId, f: TaskId)
    requires Good(run, size, w) && Allowed(run, w, steps) && Served(w, t, f)
    ensures Served(Play(run, w, steps), t, f)
    decreases |steps|
  {
    if steps != [] {
      StepServes(run, w, steps[0], t, f);
      StepKeeps(run, size, w, steps[0]);
      hide Good, Served, Next;
      WaitersShareTheOutcome(run, size, Next(run, w, steps[0]), steps[1..], t, f);
    }
  }
}
