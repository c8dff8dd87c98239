/** Every answer, from whatever source, is what the sandbox gives for the key. */
module CoordAnswers {
  import opened Basics
  import opened CoordResult
  import opened CoordModel

  /** A fresh answer is the run's result; one that came through a cache is it stored and reloaded. */
  predicate Right(run: Key -> RunResult, k: Key, o: Outcome) {
    o.Answer? ==>
      if o.hit then run(k).compileError.None? && o.result == FromPayload(ToPayload(run(k))) else o.result == run(k)
  }

  predicate PhaseRight(run: Key -> RunResult, k: Key, ph: Phase) {
    match ph
    case StoringL2(_, r) => r == run(k) && r.compileError.None?
    case StoringL1(_, r) => r == run(k) && r.compileError.None?
    case Closing(_, o) => Right(run, k, o)
    case Settling(o) => Right(run, k, o)
    case Leaving(o) => Right(run, k, o)
    case Done(o) => Right(run, k, o)
    case _ => true
  }

  /** A flight is led by a request of its process and key, and only such requests wait on it. */
  predicate Owned(w: World, p: ProcId, k: Key, f: TaskId) {
    f in w.tasks && w.tasks[f].proc == p && w.tasks[f].key == k && f in w.flights
  }

  predicate TaskRight(run: Key -> RunResult, w: World, t: TaskId)
    requires t in w.tasks
  {
    var task := w.tasks[t];
    && PhaseRight(run, task.key, task.phase)
    && (task.phase.Waiting? ==> Owned(w, task.proc, task.key, task.phase.flight))
  }

  predicate ChoreRight(run: Key -> RunResult, c: Chore) {
    c.LatePut? ==> c.result == run(c.key) && c.result.compileError.None?
  }

  ghost predicate AnswersRight(run: Key -> RunResult, w: World) {
    && CachesRight(run, w)
    && (forall t :: t in w.tasks ==> TaskRight(run, w, t))
    && (forall f :: f in w.flights ==> f in w.tasks && (w.flights[f].Some? ==> Right(run, w.tasks[f].key, w.flights[f].value)))
    && (forall p, k :: (p, k) in w.inflight ==> Owned(w, p, k, w.inflight[(p, k)]))
    && (forall c :: c in w.chores ==> ChoreRight(run, c))
  }

  lemma {:induction false} MovedRight(run: Key -> RunResult, w: World, t: TaskId, ph: Phase)
    requires AnswersRight(run, w) && At(w, t)
    requires PhaseRight(run, w.tasks[t].key, ph)
    requires ph.Waiting? ==> Owned(w, w.tasks[t].proc, w.tasks[t].key, ph.flight)
    ensures AnswersRight(run, Move(w, t, ph))
  {
    hide PhaseRight, Right, ChoreRight, Stored;
    var w' := Move(w, t, ph);
    forall u | u in w'.tasks ensures TaskRight(run, w', u) {
      assert u != t ==> TaskRight(run, w, u);
    }
  }

  lemma {:induction false} ReadRight(run: Key -> RunResult, w: World, t: TaskId, found: Option<Payload>, otherwise: Phase)
    requires AnswersRight(run, w) && At(w, t)
    requires found.Some? ==> Stored(run, w.tasks[t].key, found.value)
    requires otherwise.LookL2? || otherwise.Missed? || otherwise.Polling?
    ensures AnswersRight(run, AfterRead(w, t, found, otherwise))
  {
    hide AnswersRight;
    MovedRight(run, w, t, if found.Some? then Settling(Answer(FromPayload(found.value), true)) else otherwise);
  }

  /** Locks, clock, tokens and pools do not matter; caches and chores may change to right ones. */
  lemma {:induction false} SideRight(run: Key -> RunResult, w: World, w': World)
    requires AnswersRight(run, w) && CachesRight(run, w')
    requires w'.tasks == w.tasks && w'.flights == w.flights && w'.inflight == w.inflight
    requires forall c :: c in w'.chores && c !in w.chores ==> ChoreRight(run, c)
    ensures AnswersRight(run, w')
  {
    hide PhaseRight, Right, ChoreRight, CachesRight;
    forall u | u in w'.tasks ensures TaskRight(run, w', u) { assert TaskRight(run, w, u); }
  }

  lemma {:induction false} WriteRight(run: Key -> RunResult, w: World, p: ProcId, k: Key, r: RunResult)
    requires CachesRight(run, w) && r == run(k) && r.compileError.None?
    ensures CachesRight(run, WriteL1(w, k, r)) && CachesRight(run, WriteL2(w, p, k, r))
  {}

  lemma {:induction false} JoinRight(run: Key -> RunResult, w: World, t: TaskId)
    requires AnswersRight(run, w) && At(w, t) && t !in w.flights
    ensures AnswersRight(run, AfterJoin(w, t))
  {
    hide Right, ChoreRight, CachesRight;
    var task := w.tasks[t];
    var slot := (task.proc, task.key);
    if slot in w.inflight {
      MovedRight(run, w, t, Waiting(w.inflight[slot]));
    } else {
      var w1 := w.(inflight := w.inflight[slot := t], flights := w.flights[t := None]);
      assert CachesRight(run, w1) by { SameCaches(run, w, w1); }
      forall u | u in w1.tasks ensures TaskRight(run, w1, u) { assert TaskRight(run, w, u); }
      forall p, k | (p, k) in w1.inflight ensures Owned(w1, p, k, w1.inflight[(p, k)]) {
        if (p, k) != slot { assert Owned(w, p, k, w.inflight[(p, k)]); }
      }
      MovedRight(run, w1, t, LookL1);
    }
  }

  lemma {:induction false} SameCaches(run: Key -> RunResult, w: World, w': World)
    requires CachesRight(run, w) && w'.l1 == w.l1 && w'.l2 == w.l2
    ensures CachesRight(run, w')
  {}

  lemma {:induction false} PublishRight(run: Key -> RunResult, w: World, t: TaskId, o: Outcome)
    requires AnswersRight(run, w) && At(w, t) && Right(run, w.tasks[t].key, o)
    ensures AnswersRight(run, w.(flights := w.flights[t := Some(o)]))
  {
    hide PhaseRight, Right, ChoreRight, CachesRight;
    var w' := w.(flights := w.flights[t := Some(o)]);
    SameCaches(run, w, w');
    forall u | u in w'.tasks ensures TaskRight(run, w', u) { assert TaskRight(run, w, u); }
    forall p, k | (p, k) in w'.inflight ensures Owned(w', p, k, w'.inflight[(p, k)]) {
      assert Owned(w, p, k, w.inflight[(p, k)]);
    }
  }

  lemma {:induction false} LeaveRight(run: Key -> RunResult, w: World, slot: (ProcId, Key))
    requires AnswersRight(run, w)
    ensures AnswersRight(run, w.(inflight := w.inflight - {slot}))
  {
    hide PhaseRight, Right, ChoreRight, CachesRight;
    var w' := w.(inflight := w.inflight - {slot});
    SameCaches(run, w, w');
    forall u | u in w'.tasks ensures TaskRight(run, w', u) { assert TaskRight(run, w, u); }
    forall p, k | (p, k) in w'.inflight ensures Owned(w', p, k, w'.inflight[(p, k)]) {
      assert Owned(w, p, k, w.inflight[(p, k)]);
    }
  }

  lemma {:induction false} ArriveRight(run: Key -> RunResult, w: World, t: TaskId, p: ProcId, k: Key)
    requires AnswersRight(run, w) && t !in w.tasks
    ensures AnswersRight(run, w.(tasks := w.tasks[t := Task(p, k, Arrived)]))
  {
    hide Right, ChoreRight, CachesRight;
    var w' := w.(tasks := w.tasks[t := Task(p, k, Arrived)]);
    SameCaches(run, w, w');
    forall u | u in w'.tasks ensures TaskRight(run, w', u) { if u != t { assert TaskRight(run, w, u); } }
    forall q, l | (q, l) in w'.inflight ensures Owned(w', q, l, w'.inflight[(q, l)]) {
      assert Owned(w, q, l, w.inflight[(q, l)]);
    }
  }

  lemma {:induction false} CancelRight(run: Key -> RunResult, w: World, t: TaskId)
    requires AnswersRight(run, w) && At(w, t)
    ensures AnswersRight(run, AfterCancel(w, t))
  {
    hide AnswersRight, Owned;
    var task := w.tasks[t];
    Parts(run, w, t);
    var w1 := w.(chores := w.chores + LeftToThreads(task));
    SameCaches(run, w, w1);
    SideRight(run, w, w1);
    MovedRight(run, w1, t, CancelledPhase(task.phase));
  }

  lemma {:induction false} Parts(run: Key -> RunResult, w: World, t: TaskId)
    requires AnswersRight(run, w) && t in w.tasks
    ensures TaskRight(run, w, t) && CachesRight(run, w)
  {}

  lemma {:induction false} DropRight(run: Key -> RunResult, w: World, p: ProcId, k: Key)
    requires CachesRight(run, w)
    ensures CachesRight(run, w.(l1 := w.l1 - {k})) && CachesRight(run, w.(l2 := w.l2 - {(p, k)}))
  {}

  lemma {:induction false} ChoreDoneRight(run: Key -> RunResult, w: World, c: Chore, ok: bool)
    requires AnswersRight(run, w) && c in w.chores
    ensures AnswersRight(run, AfterChore(w, c, ok))
  {
    assert ChoreRight(run, c);
    hide AnswersRight, TaskRight;
    assert CachesRight(run, w) by { CachesAre(run, w); }
    var w1 := w.(chores := w.chores - {c});
    SameCaches(run, w, w1);
    if ok && c.LatePut? {
      WriteRight(run, w1, c.proc, c.key, c.result);
      WriteRight(run, WriteL2(w1, c.proc, c.key, c.result), c.proc, c.key, c.result);
    }
    SideRight(run, w, AfterChore(w, c, ok));
  }

  lemma {:induction false} CachesAre(run: Key -> RunResult, w: World)
    requires AnswersRight(run, w)
    ensures CachesRight(run, w)
  {}

  /** Steps that change locks, clock, tokens or pools, and then move one request. */
  lemma {:induction false} QuietMoveRight(run: Key -> RunResult, w: World, w1: World, t: TaskId, ph: Phase)
    requires w1 == w.(locks := w1.locks, now := w1.now, used := w1.used, pools := w1.pools)
    requires AnswersRight(run, w) && At(w1, t) && PhaseRight(run, w.tasks[t].key, ph) && !ph.Waiting?
    ensures AnswersRight(run, Move(w1, t, ph))
  {
    hide AnswersRight, PhaseRight;
    CachesAre(run, w);
    SameCaches(run, w, w1);
    SideRight(run, w, w1);
    MovedRight(run, w1, t, ph);
  }

  lemma {:induction false} WriteMoveRight(run: Key -> RunResult, w: World, t: TaskId, w1: World, ph: Phase)
    requires AnswersRight(run, w) && At(w, t) && PhaseRight(run, w.tasks[t].key, ph) && !ph.Waiting?
    requires CachesRight(run, w1) && w1 == w.(l1 := w1.l1, l2 := w1.l2)
    ensures AnswersRight(run, Move(w1, t, ph))
  {
    hide AnswersRight, PhaseRight, CachesRight;
    SideRight(run, w, w1);
    MovedRight(run, w1, t, ph);
  }

  lemma {:induction false} FailedRight(run: Key -> RunResult, k: Key, e: Error)
    ensures Right(run, k, Failed(e))
  {}

  lemma {:induction false} FreshRight(run: Key -> RunResult, k: Key)
    ensures Right(run, k, Answer(run(k), false))
  {}

  lemma {:induction false} LookRight(run: Key -> RunResult, w: World, t: TaskId, a: Look)
    requires AnswersRight(run, w) && At(w, t) && CanLook(PhaseOf(w, t), w.now, a)
    ensures AnswersRight(run, AfterLook(w, t, a))
  {
    CachesAre(run, w);
    hide AnswersRight, Right, FromPayload, ToPayload;
    var p, k, ph := w.tasks[t].proc, w.tasks[t].key, w.tasks[t].phase;
    match a
    case ReadL1(ok) => ReadRight(run, w, t, FoundL1(w, k, ok), LookL2);
    case ReadL2(ok) => ReadRight(run, w, t, FoundL2(w, p, k, ok), Missed);
    case PollL1(ok) => ReadRight(run, w, t, FoundL1(w, k, ok), Polling(ph.until, true));
    case PollL2(ok) => ReadRight(run, w, t, FoundL2(w, p, k, ok), Polling(ph.until, false));
    case Lapse => MovedRight(run, w, t, Cleared(NoLease));
  }

  lemma {:induction false} FlightOutcomeRight(run: Key -> RunResult, w: World, t: TaskId)
    requires AnswersRight(run, w) && At(w, t) && CanFly(w, PhaseOf(w, t), TakeOutcome)
    ensures Right(run, w.tasks[t].key, w.flights[PhaseOf(w, t).flight].value)
  {
    hide Right;
    Parts(run, w, t);
  }

  lemma {:induction false} FlyRight(run: Key -> RunResult, w: World, t: TaskId, a: Fly)
    requires AnswersRight(run, w) && At(w, t) && CanFly(w, PhaseOf(w, t), a) && (a.Join? ==> t !in w.flights)
    ensures AnswersRight(run, AfterFly(w, t, a))
  {
    Parts(run, w, t);
    var p, k, ph := w.tasks[t].proc, w.tasks[t].key, w.tasks[t].phase;
    hide AnswersRight, Right;
    match a
    case Probe =>
      FailedRight(run, k, Saturated);
      MovedRight(run, w, t, if PoolOf(w, t).free > 0 then Admitted else Done(Failed(Saturated)));
    case SkipProbe => MovedRight(run, w, t, Admitted);
    case Join => JoinRight(run, w, t);
    case TakeOutcome =>
      FlightOutcomeRight(run, w, t);
      MovedRight(run, w, t, Done(w.flights[ph.flight].value));
    case Publish =>
      PublishRight(run, w, t, ph.outcome);
      MovedRight(run, Settle(w, t, ph.outcome), t, Leaving(ph.outcome));
    case Leave =>
      LeaveRight(run, w, (p, k));
      MovedRight(run, if (p, k) in w.inflight && w.inflight[(p, k)] == t then w.(inflight := w.inflight - {(p, k)}) else w,
                 t, Done(ph.outcome));
    case Cancel => CancelRight(run, w, t);
  }

  lemma {:induction false} FinishPhaseRight(run: Key -> RunResult, k: Key, lease: Lease, failure: Option<Error>)
    ensures PhaseRight(run, k, FinishPhase(run(k), lease, failure))
  {}

  lemma {:induction false} TryLockRight(run: Key -> RunResult, w: World, t: TaskId, token: Token, ok: bool)
    requires AnswersRight(run, w) && At(w, t)
    ensures AnswersRight(run, AfterTryLock(w, t, token, ok))
  {
    hide AnswersRight, Locked;
    var k := w.tasks[t].key;
    if !ok { MovedRight(run, w, t, Cleared(NoLease)); }
    else if Locked(w, k) { MovedRight(run, w, t, Polling(w.now + POLL_TIMEOUT, false)); }
    else { QuietMoveRight(run, w, SetNx(w, k, token), t, Cleared(Lease(token, w.now + LOCK_TTL))); }
  }

  lemma {:induction false} TakeSlotRight(run: Key -> RunResult, w: World, t: TaskId)
    requires AnswersRight(run, w) && At(w, t) && PhaseOf(w, t).Cleared?
    ensures AnswersRight(run, AfterTakeSlot(w, t))
  {
    hide AnswersRight;
    var lease, pool := PhaseOf(w, t).lease, PoolOf(w, t);
    FailedRight(run, w.tasks[t].key, Saturated);
    if pool.free == 0 { MovedRight(run, w, t, Closing(lease, Failed(Saturated))); }
    else { QuietMoveRight(run, w, SetPool(w, w.tasks[t].proc, pool.(free := pool.free - 1)), t, Running(lease)); }
  }

  lemma {:induction false} GivenBackRight(run: Key -> RunResult, w: World, t: TaskId, strays: nat, ph: Phase)
    requires AnswersRight(run, w) && At(w, t) && PhaseRight(run, w.tasks[t].key, ph) && !ph.Waiting?
    ensures AnswersRight(run, Move(GiveSlot(w, t, strays), t, ph))
  {
    hide AnswersRight, PhaseRight;
    QuietMoveRight(run, w, GiveSlot(w, t, strays), t, ph);
  }

  lemma {:induction false} WorkRight(run: Key -> RunResult, w: World, t: TaskId, a: Work)
    requires AnswersRight(run, w) && At(w, t) && CanWork(w, PhaseOf(w, t), a)
    ensures AnswersRight(run, AfterWork(run, w, t, a))
  {
    var k, ph := w.tasks[t].key, w.tasks[t].phase;
    hide AnswersRight, Right, Locked, AfterTryLock, AfterTakeSlot, GiveSlot;
    match a
    case TryLock(token, ok) => TryLockRight(run, w, t, token, ok);
    case TakeSlot => TakeSlotRight(run, w, t);
    case Finish(failure) =>
      FinishPhaseRight(run, k, ph.lease, failure);
      GivenBackRight(run, w, t, 0, FinishPhase(run(k), ph.lease, failure));
    case Abandon(error) =>
      FailedRight(run, k, error);
      GivenBackRight(run, w, t, 1, Closing(ph.lease, Failed(error)));
  }

  lemma {:induction false} CloseRight(run: Key -> RunResult, w: World, t: TaskId, a: Close)
    requires AnswersRight(run, w) && At(w, t) && CanClose(PhaseOf(w, t), a)
    ensures AnswersRight(run, AfterClose(w, t, a))
  {
    Parts(run, w, t);
    var p, k, ph := w.tasks[t].proc, w.tasks[t].key, w.tasks[t].phase;
    FreshRight(run, k);
    if !a.Unlock? { WriteRight(run, w, p, k, ph.result); }
    hide AnswersRight, Right, CachesRight, ToPayload;
    match a
    case PutL2(ok) => WriteMoveRight(run, w, t, if ok then WriteL2(w, p, k, ph.result) else w, StoringL1(ph.lease, ph.result));
    case PutL1(ok) =>
      WriteMoveRight(run, w, t, if ok then WriteL1(w, k, ph.result) else w, Closing(ph.lease, Answer(ph.result, false)));
    case Unlock(ok) => QuietMoveRight(run, w, if ok then Release(w, k, ph.lease) else w, t, Settling(ph.outcome));
  }

  lemma {:induction false} EventRight(run: Key -> RunResult, w: World, e: Outside)
    requires AnswersRight(run, w) && CanHappen(w, e)
    ensures AnswersRight(run, AfterEvent(w, e))
  {
    CachesAre(run, w);
    hide AnswersRight;
    match e
    case Arrive(t, p, k) => ArriveRight(run, w, t, p, k);
    case DoChore(c, ok) => ChoreDoneRight(run, w, c, ok);
    case DropL1(k) =>
      DropRight(run, w, 0, k);
      SideRight(run, w, w.(l1 := w.l1 - {k}));
    case DropL2(p, k) =>
      DropRight(run, w, p, k);
      SideRight(run, w, w.(l2 := w.l2 - {(p, k)}));
    case _ =>
      SameCaches(run, w, AfterEvent(w, e));
      SideRight(run, w, AfterEvent(w, e));
  }

  lemma {:induction false} StepRight(run: Key -> RunResult, w: World, s: Step)
    requires AnswersRight(run, w) && Enabled(w, s) && (s.Flies? && s.fly.Join? ==> s.task !in w.flights)
    ensures AnswersRight(run, Next(run, w, s))
  {
    hide AnswersRight, AfterLook, AfterFly, AfterWork, AfterClose, AfterEvent;
    match s
    case Looks(t, a) => LookRight(run, w, t, a);
    case Flies(t, a) => FlyRight(run, w, t, a);
    case Works(t, a) => WorkRight(run, w, t, a);
    case Closes(t, a) => CloseRight(run, w, t, a);
    case Around(e) => EventRight(run, w, e);
  }
}
