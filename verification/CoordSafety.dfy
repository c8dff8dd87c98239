/** Pool, lock and progress over whole runs. */
module CoordSafety {
  import opened Basics
  import opened CoordResult
  import opened CoordModel
  import opened CoordAnswers
  import opened CoordFlights
  import opened CoordPool
  import opened CoordLocks
  import opened CoordTheorems

  // ---- pool ------------------------------------------------------------------------------------

  /** Sandboxes running in a process, in a slot or left behind by a request that gave up. */
  function Live(w: World, p: ProcId): nat
    requires p in w.pools
  {
    |Holders(w.tasks, p)| + w.pools[p].others + w.pools[p].strays
  }

  /** Slots are conserved; so the sandboxes running stay within the pool's size exactly while no
      more are left behind than slots are free. */
  lemma {:induction false} PoolExact(run: Key -> RunResult, size: nat, w: World, p: ProcId)
    requires Reachable(run, size, w) && p in w.pools
    ensures w.pools[p].free + w.pools[p].others + |Holders(w.tasks, p)| == size
    ensures Live(w, p) <= size <==> w.pools[p].strays <= w.pools[p].free
  {
    hide Reachable, Holders;
    ReachableGood(run, size, w);
  }

  predicate GivesUp(s: Step) { s.Works? && s.work.Abandon? }

  predicate NoStrays(w: World) { forall p :: p in w.pools ==> w.pools[p].strays == 0 }

  lemma {:induction false} WorkNoStrays(run: Key -> RunResult, w: World, t: TaskId, a: Work)
    requires At(w, t) && CanWork(w, PhaseOf(w, t), a) && !a.Abandon? && NoStrays(w)
    ensures NoStrays(AfterWork(run, w, t, a))
  {
    hide Locked, FinishPhase;
  }

  lemma {:induction false} EventNoStrays(w: World, e: Outside)
    requires CanHappen(w, e) && NoStrays(w)
    ensures NoStrays(AfterEvent(w, e))
  {
    hide AfterChore;
    if e.DoChore? { ChoreApart(w, e.chore, e.ok); }
  }

  lemma {:induction false} StepNoStrays(run: Key -> RunResult, w: World, s: Step)
    requires Enabled(w, s) && !GivesUp(s) && NoStrays(w)
    ensures NoStrays(Next(run, w, s))
  {
    hide AfterLook, AfterFly, AfterClose, AfterWork, AfterEvent, SameRunning;
    match s
    case Looks(t, a) => LookSame(w, t, a);
    case Flies(t, a) => FlySame(w, t, a);
    case Closes(t, a) => CloseSame(w, t, a);
    case Works(t, a) => WorkNoStrays(run, w, t, a);
    case Around(e) => EventNoStrays(w, e);
  }

  lemma {:induction false} RunNoStrays(run: Key -> RunResult, w: World, steps: seq<Step>)
    requires Allowed(run, w, steps) && NoStrays(w) && forall s :: s in steps ==> !GivesUp(s)
    ensures NoStrays(Play(run, w, steps))
    decreases |steps|
  {
    if steps != [] {
      StepNoStrays(run, w, steps[0]);
      hide Next, NoStrays;
      RunNoStrays(run, Next(run, w, steps[0]), steps[1..]);
    }
  }

  /** If no run was given up, the pool bounds the sandboxes running, at all times. */
  lemma {:induction false} PoolBoundsRuns(run: Key -> RunResult, size: nat, start: World, steps: seq<Step>, p: ProcId)
    requires Initial(run, size, start) && Allowed(run, start, steps) && forall s :: s in steps ==> !GivesUp(s)
    requires p in Play(run, start, steps).pools
    ensures Live(Play(run, start, steps), p) <= size
  {
    RunNoStrays(run, start, steps);
    hide Initial, Play;
    PoolExact(run, size, Play(run, start, steps), p);
  }

  lemma {:induction false} PlayTwo(run: Key -> RunResult, w: World, a: Step, b: Step)
    requires Enabled(w, a) && Enabled(Next(run, w, a), b)
    ensures Allowed(run, w, [a, b]) && Play(run, w, [a, b]) == Next(run, Next(run, w, a), b)
  {
    hide Next;
    var w1 := Next(run, w, a);
    assert [a, b][1..] == [b] && [b][1..] == [];
    assert Allowed(run, Next(run, w1, b), []);
    assert Allowed(run, w1, [b]) && Play(run, w1, [b]) == Play(run, Next(run, w1, b), []);
  }

  /** One time-out in a full pool is enough to exceed it: the slot is free again while the
      sandbox still runs, and the next taker makes one more. */
  lemma {:induction false} GivenUpRunOverflows(run: Key -> RunResult, size: nat, w: World, t: TaskId, e: Error)
    requires Reachable(run, size, w) && At(w, t) && PhaseOf(w, t).Running? && PoolOf(w, t).free == 0
    ensures var steps := [Works(t, Abandon(e)), Around(OtherTakes(w.tasks[t].proc))];
            && Allowed(run, w, steps)
            && w.tasks[t].proc in Play(run, w, steps).pools && Live(Play(run, w, steps), w.tasks[t].proc) > size
  {
    hide Reachable;
    var p, a, b := w.tasks[t].proc, Works(t, Abandon(e)), Around(OtherTakes(w.tasks[t].proc));
    PoolExact(run, size, w, p);
    HoldersMoved(w.tasks, t, Closing(PhaseOf(w, t).lease, Failed(e)), p);
    hide Holders;
    PlayTwo(run, w, a, b);
    assert |Holders(w.tasks, p) - {t}| == |Holders(w.tasks, p)| - 1;
  }

  // ---- lock ------------------------------------------------------------------------------------

  predicate Fresh(w: World, t: TaskId) { Holds(w, t) && w.now < ExpiryOf(w, t) }

  /** Over all processes, at most one request holds an unexpired lock for a key. */
  lemma {:induction false} OneHolder(run: Key -> RunResult, size: nat, w: World, t: TaskId, u: TaskId)
    requires Reachable(run, size, w) && Fresh(w, t) && Fresh(w, u) && w.tasks[t].key == w.tasks[u].key
    ensures t == u
  {
    hide Reachable;
    ReachableGood(run, size, w);
    assert LeaseGood(w, t) && LeaseGood(w, u);
  }

  /** Two sandboxes run one key at a time only in two processes, and only if one of them runs
      without the lock or outlived it. */
  lemma {:induction false} DoubleRunsExplained(run: Key -> RunResult, size: nat, w: World, t: TaskId, u: TaskId)
    requires Reachable(run, size, w) && t != u && t in w.tasks && u in w.tasks && w.tasks[t].key == w.tasks[u].key
    requires w.tasks[t].phase.Running? && w.tasks[u].phase.Running?
    ensures w.tasks[t].proc != w.tasks[u].proc && (!Fresh(w, t) || !Fresh(w, u))
  {
    hide Reachable;
    if w.tasks[t].proc == w.tasks[u].proc { OneFlight(run, size, w, t, u); }
    if Fresh(w, t) && Fresh(w, u) { OneHolder(run, size, w, t, u); }
  }

  lemma {:induction false} TryLockKeeps(w: World, t: TaskId, token: Token, ok: bool, k: Key)
    requires At(w, t) && Locked(w, k)
    ensures k in AfterTryLock(w, t, token, ok).locks && AfterTryLock(w, t, token, ok).locks[k] == w.locks[k]
  {}

  lemma {:induction false} WorkKeepsLock(run: Key -> RunResult, w: World, t: TaskId, a: Work, k: Key)
    requires At(w, t) && CanWork(w, PhaseOf(w, t), a) && Locked(w, k)
    ensures k in AfterWork(run, w, t, a).locks && AfterWork(run, w, t, a).locks[k] == w.locks[k]
  {
    if a.TryLock? { TryLockKeeps(w, t, a.token, a.ok, k); }
    hide AfterTryLock, FinishPhase, Locked;
  }

  lemma {:induction false} LookKeepsLocks(w: World, t: TaskId, a: Look)
    requires At(w, t) && CanLook(PhaseOf(w, t), w.now, a)
    ensures AfterLook(w, t, a).locks == w.locks
  {}

  lemma {:induction false} FlyKeepsLocks(w: World, t: TaskId, a: Fly)
    requires At(w, t) && CanFly(w, PhaseOf(w, t), a)
    ensures AfterFly(w, t, a).locks == w.locks
  {
    hide LeftToThreads, CancelledPhase;
  }

  /** The release of a lock under this token, by its holder or by a thread on its behalf. */
  predicate Releases(w: World, s: Step, k: Key, token: Token) {
    || (s.Closes? && s.close == Unlock(true) && Holds(w, s.task) && TokenOf(w, s.task) == token && w.tasks[s.task].key == k)
    || s == Around(DoChore(LateUnlock(k, token), true))
  }

  lemma {:induction false} CloseKeepsLock(w: World, t: TaskId, a: Close, k: Key)
    requires Enabled(w, Closes(t, a)) && Locked(w, k) && !Releases(w, Closes(t, a), k, w.locks[k].token)
    ensures k in AfterClose(w, t, a).locks && AfterClose(w, t, a).locks[k] == w.locks[k]
  {
    hide ToPayload;
    if a.Unlock? && PhaseOf(w, t).lease.Lease? { CompareDeleteIs(w, w.tasks[t].key, PhaseOf(w, t).lease.token); }
  }

  lemma {:induction false} EventKeepsLock(w: World, e: Outside, k: Key)
    requires CanHappen(w, e) && Locked(w, k) && !Releases(w, Around(e), k, w.locks[k].token)
    ensures k in AfterEvent(w, e).locks && AfterEvent(w, e).locks[k] == w.locks[k]
  {
    if e.DoChore? {
      var w1 := w.(chores := w.chores - {e.chore});
      if e.chore.LateUnlock? { CompareDeleteIs(w1, e.chore.key, e.chore.token); }
    }
  }

  /** An unexpired lock is never taken away or overwritten but by the release under its token. */
  lemma {:induction false} OnlyOwnLockGoes(run: Key -> RunResult, w: World, s: Step, k: Key)
    requires Enabled(w, s) && Locked(w, k) && !Releases(w, s, k, w.locks[k].token)
    ensures k in Next(run, w, s).locks && Next(run, w, s).locks[k] == w.locks[k]
  {
    assert k in w.locks;
    hide AfterLook, AfterFly, AfterClose, AfterWork, AfterEvent, Releases, Locked;
    match s
    case Looks(t, a) => LookKeepsLocks(w, t, a);
    case Flies(t, a) => FlyKeepsLocks(w, t, a);
    case Closes(t, a) => CloseKeepsLock(w, t, a, k);
    case Works(t, a) => WorkKeepsLock(run, w, t, a, k);
    case Around(e) => EventKeepsLock(w, e, k);
  }

  // ---- progress ---------------------------------------------------------------------------------

  /** How far a leader is from settling. */
  function Rank(ph: Phase): nat {
    match ph
    case LookL1 => 11
    case LookL2 => 10
    case Missed => 9
    case Polling(_, second) => if second then 8 else 7
    case Cleared(_) => 6
    case Running(_) => 5
    case StoringL2(_, _) => 4
    case StoringL1(_, _) => 3
    case Closing(_, _) => 2
    case Settling(_) => 1
    case _ => 0
  }

  lemma {:induction false} Bounded(s: set<nat>) returns (n: nat)
    ensures forall x :: x in s ==> x < n
    decreases |s|
  {
    n := 0;
    if s != {} {
      var a :| a in s;
      var m := Bounded(s - {a});
      n := if a < m then m else a + 1;
      assert forall x :: x in s ==> x == a || x in s - {a};
    }
  }

  /** The flight has its outcome. */
  predicate Settled(w: World, f: TaskId) { f in w.flights && w.flights[f].Some? }

  /** Other requests are as before. */
  predicate OthersKept(w: World, w': World, f: TaskId) {
    w'.pools.Keys == w.pools.Keys && forall u :: u in w.tasks && u != f ==> u in w'.tasks && w'.tasks[u] == w.tasks[u]
  }

  /** Settled, or nearer to it, by the leader's own work. */
  predicate Nearer(w: World, w': World, f: TaskId)
    requires At(w, f)
  {
    && OthersKept(w, w', f)
    && (Settled(w', f) || (At(w', f) && Open(PhaseOf(w', f)) && Rank(PhaseOf(w', f)) < Rank(PhaseOf(w, f))))
  }

  lemma {:induction false} LookNearer(w: World, f: TaskId, a: Look)
    requires At(w, f) && CanLook(PhaseOf(w, f), w.now, a) && !a.PollL2?
    ensures a.PollL1? || Nearer(w, AfterLook(w, f, a), f)
  {
    hide FromPayload;
  }

  lemma {:induction false} PollNearer(w: World, f: TaskId, ok: bool)
    requires At(w, f) && CanLook(PhaseOf(w, f), w.now, PollL2(ok))
    ensures Nearer(w, AfterLook(w, f, PollL2(ok)), f)
  {
    hide FromPayload;
  }

  lemma {:induction false} TryLockNearer(w: World, f: TaskId, token: Token, ok: bool)
    requires At(w, f) && PhaseOf(w, f).Missed?
    ensures Nearer(w, AfterTryLock(w, f, token, ok), f)
  {
    hide Locked, Settled;
  }

  lemma {:induction false} TakeSlotNearer(w: World, f: TaskId)
    requires At(w, f) && PhaseOf(w, f).Cleared?
    ensures Nearer(w, AfterTakeSlot(w, f), f)
  {
    hide Settled;
  }

  lemma {:induction false} FinishNearer(run: Key -> RunResult, w: World, f: TaskId)
    requires At(w, f) && PhaseOf(w, f).Running?
    ensures Nearer(w, AfterFinish(run, w, f, None), f)
  {
    hide Settled;
  }

  lemma {:induction false} CloseNearer(w: World, f: TaskId, a: Close)
    requires At(w, f) && CanClose(PhaseOf(w, f), a)
    ensures Nearer(w, AfterClose(w, f, a), f)
  {
    hide Locked, Settled, ToPayload;
  }

  lemma {:induction false} PublishSettles(w: World, f: TaskId)
    requires At(w, f) && PhaseOf(w, f).Settling?
    ensures Nearer(w, AfterFly(w, f, Publish), f)
  {
    hide Rank;
  }

  /** One step of the leader, nothing failing and nobody cancelling; time may have to pass first. */
  lemma {:induction false} LeaderSteps(run: Key -> RunResult, w: World, f: TaskId) returns (s: Step)
    requires At(w, f) && Open(PhaseOf(w, f))
    requires PhaseOf(w, f).Polling? && !PhaseOf(w, f).second ==> PhaseOf(w, f).until <= w.now
    ensures Enabled(w, s) && Nearer(w, Next(run, w, s), f)
  {
    hide AfterLook, AfterTryLock, AfterTakeSlot, AfterFinish, AfterClose, AfterFly, Nearer;
    match PhaseOf(w, f)
    case LookL1 =>
      LookNearer(w, f, ReadL1(true));
      s := Looks(f, ReadL1(true));
    case LookL2 =>
      LookNearer(w, f, ReadL2(true));
      s := Looks(f, ReadL2(true));
    case Missed =>
      var token := Bounded(w.used);
      TryLockNearer(w, f, token, true);
      s := Works(f, TryLock(token, true));
    case Polling(_, second) =>
      if second {
        PollNearer(w, f, true);
        s := Looks(f, PollL2(true));
      } else {
        LookNearer(w, f, Lapse);
        s := Looks(f, Lapse);
      }
    case Cleared(_) =>
      TakeSlotNearer(w, f);
      s := Works(f, TakeSlot);
    case Running(_) =>
      FinishNearer(run, w, f);
      s := Works(f, Finish(None));
    case StoringL2(_, _) =>
      CloseNearer(w, f, PutL2(true));
      s := Closes(f, PutL2(true));
    case StoringL1(_, _) =>
      CloseNearer(w, f, PutL1(true));
      s := Closes(f, PutL1(true));
    case Closing(_, _) =>
      CloseNearer(w, f, Unlock(true));
      s := Closes(f, Unlock(true));
    case Settling(_) =>
      PublishSettles(w, f);
      s := Flies(f, Publish);
  }

  lemma {:induction false} PlayCons(run: Key -> RunResult, w: World, s: Step, rest: seq<Step>)
    requires Enabled(w, s) && Allowed(run, Next(run, w, s), rest)
    ensures Allowed(run, w, [s] + rest) && Play(run, w, [s] + rest) == Play(run, Next(run, w, s), rest)
  {
    hide Next;
    assert ([s] + rest)[1..] == rest;
  }

  lemma {:induction false} TickKeeps(run: Key -> RunResult, w: World, n: nat)
    ensures Next(run, w, Around(Tick(n))) == w.(now := w.now + n)
  {}

  /** A flight's leader can always settle it by its own steps and waiting. */
  lemma {:induction false} LeaderCanSettle(run: Key -> RunResult, w: World, f: TaskId) returns (steps: seq<Step>)
    requires At(w, f) && Open(PhaseOf(w, f))
    ensures Allowed(run, w, steps) && Settled(Play(run, w, steps), f) && OthersKept(w, Play(run, w, steps), f)
    decreases Rank(PhaseOf(w, f))
  {
    hide Next, Settled, Rank;
    var tick := Around(Tick(if PhaseOf(w, f).Polling? then PhaseOf(w, f).until else 0));
    TickKeeps(run, w, tick.event.ticks);
    var w1 := Next(run, w, tick);
    var s := LeaderSteps(run, w1, f);
    var w2 := Next(run, w1, s);
    var rest: seq<Step> := [];
    if !Settled(w2, f) { rest := LeaderCanSettle(run, w2, f); }
    PlayCons(run, w1, s, rest);
    PlayCons(run, w, tick, [s] + rest);
    steps := [tick] + ([s] + rest);
  }

  lemma {:induction false} TakeLast(run: Key -> RunResult, w: World, steps: seq<Step>, s: Step)
    requires Allowed(run, w, steps) && Enabled(Play(run, w, steps), s)
    ensures Allowed(run, w, steps + [s]) && Play(run, w, steps + [s]) == Next(run, Play(run, w, steps), s)
    decreases |steps|
  {
    hide Next;
    if steps == [] {
      assert steps + [s] == [s] && [s][1..] == [];
      assert Allowed(run, Next(run, w, s), []);
      assert Play(run, w, [s]) == Play(run, Next(run, w, s), []);
    } else {
      TakeLast(run, Next(run, w, steps[0]), steps[1..], s);
      assert (steps + [s])[1..] == steps[1..] + [s];
    }
  }

  /** No deadlock: whatever has happened, a waiting request can still get its flight's outcome. */
  lemma {:induction false} WaitersCanFinish(run: Key -> RunResult, size: nat, w: World, t: TaskId)
    requires Reachable(run, size, w) && At(w, t) && PhaseOf(w, t).Waiting?
    ensures exists steps: seq<Step> :: Allowed(run, w, steps) && GotOutcome(Play(run, w, steps), t, PhaseOf(w, t).flight)
  {
    hide Reachable, Next;
    var f := PhaseOf(w, t).flight;
    WaitersHaveALeader(run, size, w, t);
    var steps: seq<Step> := [];
    if !Settled(w, f) { steps := LeaderCanSettle(run, w, f); }
    var w1 := Play(run, w, steps);
    assert w1.tasks[t] == w.tasks[t];
    var s := Flies(t, TakeOutcome);
    TakeLast(run, w, steps, s);
    NextFlies(run, w1, t, TakeOutcome);
    assert GotOutcome(Play(run, w, steps + [s]), t, f);
  }

  predicate GotOutcome(w: World, t: TaskId, f: TaskId) {
    t in w.tasks && f in w.flights && w.flights[f].Some? && w.tasks[t].phase == Done(w.flights[f].value)
  }
}
