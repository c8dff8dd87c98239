/** One flight per process and key, whose outcome is written once and reaches every waiter. */
module CoordFlights {
  import opened Basics
  import opened CoordResult
  import opened CoordModel

  predicate Open(ph: Phase) { Leading(ph) && !ph.Leaving? }

  predicate Registered(w: World, t: TaskId)
    requires t in w.tasks
  {
    var slot := (w.tasks[t].proc, w.tasks[t].key);
    slot in w.inflight && w.inflight[slot] == t
  }

  /** A request's phase agrees with the flight it leads. */
  predicate FlightFits(w: World, t: TaskId)
    requires t in w.tasks
  {
    var ph := w.tasks[t].phase;
    if Open(ph) then t in w.flights && w.flights[t].None? && Registered(w, t)
    else if ph.Leaving? then t in w.flights && w.flights[t] == Some(ph.outcome) && Registered(w, t)
    else if ph.Done? then t in w.flights ==> w.flights[t] == Some(ph.outcome)
    else t !in w.flights
  }

  predicate SlotFits(w: World, p: ProcId, k: Key, f: TaskId) {
    f in w.tasks && w.tasks[f].proc == p && w.tasks[f].key == k && Leading(w.tasks[f].phase)
  }

  ghost predicate Flying(w: World) {
    && (forall t :: t in w.tasks ==> FlightFits(w, t))
    && (forall f :: f in w.flights ==> f in w.tasks)
    && (forall p, k :: (p, k) in w.inflight ==> SlotFits(w, p, k, w.inflight[(p, k)]))
  }

  lemma {:induction false} FitsOf(w: World, t: TaskId)
    requires Flying(w) && t in w.tasks
    ensures FlightFits(w, t)
  {}

  /** Leading as before, or no leader before and after. */
  lemma {:induction false} MovedFlying(w: World, t: TaskId, ph: Phase)
    requires Flying(w) && At(w, t)
    requires var was := PhaseOf(w, t);
             if Open(was) then Open(ph) else !Leading(was) && !was.Done? && !Leading(ph)
    ensures Flying(Move(w, t, ph))
  {
    var w' := Move(w, t, ph);
    FitsOf(w, t);
    forall u | u in w'.tasks ensures FlightFits(w', u) { if u != t { assert FlightFits(w, u); } }
    forall p, k | (p, k) in w'.inflight ensures SlotFits(w', p, k, w'.inflight[(p, k)]) {
      assert SlotFits(w, p, k, w.inflight[(p, k)]);
    }
  }

  lemma {:induction false} SideFlying(w: World, w': World)
    requires Flying(w) && w'.tasks == w.tasks && w'.flights == w.flights && w'.inflight == w.inflight
    ensures Flying(w')
  {
    forall u | u in w'.tasks ensures FlightFits(w', u) { assert FlightFits(w, u); }
    forall p, k | (p, k) in w'.inflight ensures SlotFits(w', p, k, w'.inflight[(p, k)]) {
      assert SlotFits(w, p, k, w.inflight[(p, k)]);
    }
  }

  lemma {:induction false} JoinFlying(w: World, t: TaskId)
    requires Flying(w) && At(w, t) && PhaseOf(w, t).Admitted?
    ensures Flying(AfterJoin(w, t))
  {
    var slot := (w.tasks[t].proc, w.tasks[t].key);
    if slot in w.inflight {
      MovedFlying(w, t, Waiting(w.inflight[slot]));
    } else {
      var w' := AfterJoin(w, t);
      forall u | u in w'.tasks ensures FlightFits(w', u) { if u != t { assert FlightFits(w, u); } }
      forall p, k | (p, k) in w'.inflight ensures SlotFits(w', p, k, w'.inflight[(p, k)]) {
        if (p, k) != slot { assert SlotFits(w, p, k, w.inflight[(p, k)]); }
      }
    }
  }

  lemma {:induction false} PublishFlying(w: World, t: TaskId)
    requires Flying(w) && At(w, t) && PhaseOf(w, t).Settling?
    ensures Flying(AfterFly(w, t, Publish))
  {
    var w' := AfterFly(w, t, Publish);
    FitsOf(w, t);
    forall u | u in w'.tasks ensures FlightFits(w', u) { if u != t { assert FlightFits(w, u); } }
    forall p, k | (p, k) in w'.inflight ensures SlotFits(w', p, k, w'.inflight[(p, k)]) {
      assert SlotFits(w, p, k, w.inflight[(p, k)]);
    }
  }

  lemma {:induction false} LeaveFlying(w: World, t: TaskId)
    requires Flying(w) && At(w, t) && PhaseOf(w, t).Leaving?
    ensures Flying(AfterLeave(w, t))
  {
    var w' := AfterLeave(w, t);
    FitsOf(w, t);
    forall u | u in w'.tasks ensures FlightFits(w', u) { if u != t { assert FlightFits(w, u); } }
    forall p, k | (p, k) in w'.inflight ensures SlotFits(w', p, k, w'.inflight[(p, k)]) {
      assert SlotFits(w, p, k, w.inflight[(p, k)]);
    }
  }

  lemma {:induction false} ArriveFlying(w: World, t: TaskId, p: ProcId, k: Key)
    requires Flying(w) && CanHappen(w, Arrive(t, p, k))
    ensures Flying(AfterEvent(w, Arrive(t, p, k)))
  {
    var w' := AfterEvent(w, Arrive(t, p, k));
    forall u | u in w'.tasks ensures FlightFits(w', u) { if u != t { assert FlightFits(w, u); } }
    forall q, l | (q, l) in w'.inflight ensures SlotFits(w', q, l, w'.inflight[(q, l)]) {
      assert SlotFits(w, q, l, w.inflight[(q, l)]);
    }
  }

  lemma {:induction false} FlyFlying(w: World, t: TaskId, a: Fly)
    requires Flying(w) && At(w, t) && CanFly(w, PhaseOf(w, t), a)
    ensures Flying(AfterFly(w, t, a))
  {
    hide Flying;
    match a
    case Join => JoinFlying(w, t);
    case Publish => PublishFlying(w, t);
    case Leave => LeaveFlying(w, t);
    case Probe => MovedFlying(w, t, if PoolOf(w, t).free > 0 then Admitted else Done(Failed(Saturated)));
    case SkipProbe => MovedFlying(w, t, Admitted);
    case TakeOutcome => MovedFlying(w, t, Done(w.flights[PhaseOf(w, t).flight].value));
    case Cancel =>
      var w1 := w.(chores := w.chores + LeftToThreads(w.tasks[t]));
      SideFlying(w, w1);
      MovedFlying(w1, t, CancelledPhase(w.tasks[t].phase));
  }

  /** A leader's own work: flights, register and other requests are as before. */
  predicate OwnWork(w: World, w': World, t: TaskId) {
    && t in w.tasks && t in w'.tasks && Open(w.tasks[t].phase) && Open(w'.tasks[t].phase)
    && w'.tasks == w.tasks[t := w.tasks[t].(phase := w'.tasks[t].phase)]
    && w'.flights == w.flights && w'.inflight == w.inflight && w'.pools.Keys == w.pools.Keys
  }

  lemma {:induction false} LookIsOwn(w: World, t: TaskId, a: Look)
    requires At(w, t) && CanLook(PhaseOf(w, t), w.now, a)
    ensures OwnWork(w, AfterLook(w, t, a), t)
  {}

  lemma {:induction false} TryLockIsOwn(w: World, t: TaskId, token: Token, ok: bool)
    requires At(w, t) && PhaseOf(w, t).Missed?
    ensures OwnWork(w, AfterTryLock(w, t, token, ok), t)
  {
    hide Locked;
  }

  lemma {:induction false} TakeSlotIsOwn(w: World, t: TaskId)
    requires At(w, t) && PhaseOf(w, t).Cleared?
    ensures OwnWork(w, AfterTakeSlot(w, t), t)
  {
    var pool, lease := PoolOf(w, t), PhaseOf(w, t).lease;
    if pool.free == 0 {
      assert AfterTakeSlot(w, t) == Move(w, t, Closing(lease, Failed(Saturated)));
    } else {
      assert AfterTakeSlot(w, t) == Move(SetPool(w, w.tasks[t].proc, pool.(free := pool.free - 1)), t, Running(lease));
    }
  }

  lemma {:induction false} GivenBackIsOwn(w: World, t: TaskId, strays: nat, ph: Phase)
    requires At(w, t) && Open(PhaseOf(w, t)) && Open(ph)
    ensures OwnWork(w, Move(GiveSlot(w, t, strays), t, ph), t)
  {
    hide Open;
  }

  lemma {:induction false} WorkIsOwn(run: Key -> RunResult, w: World, t: TaskId, a: Work)
    requires At(w, t) && CanWork(w, PhaseOf(w, t), a)
    ensures OwnWork(w, AfterWork(run, w, t, a), t)
  {
    hide OwnWork, AfterTryLock, AfterTakeSlot, GiveSlot;
    match a
    case TryLock(token, ok) => TryLockIsOwn(w, t, token, ok);
    case TakeSlot => TakeSlotIsOwn(w, t);
    case Finish(failure) =>
      GivenBackIsOwn(w, t, 0, FinishPhase(run(w.tasks[t].key), PhaseOf(w, t).lease, failure));
    case Abandon(error) => GivenBackIsOwn(w, t, 1, Closing(PhaseOf(w, t).lease, Failed(error)));
  }

  lemma {:induction false} CloseIsOwn(w: World, t: TaskId, a: Close)
    requires At(w, t) && CanClose(PhaseOf(w, t), a)
    ensures OwnWork(w, AfterClose(w, t, a), t)
  {
    hide Locked, ToPayload;
  }

  lemma {:induction false} OwnFlying(w: World, w': World, t: TaskId)
    requires Flying(w) && OwnWork(w, w', t) && At(w, t)
    ensures Flying(w')
  {
    MovedFlying(w, t, w'.tasks[t].phase);
    hide Flying;
    SideFlying(Move(w, t, w'.tasks[t].phase), w');
  }

  lemma {:induction false} EventFlying(w: World, e: Outside)
    requires Flying(w) && CanHappen(w, e)
    ensures Flying(AfterEvent(w, e))
  {
    hide Flying, AfterChore;
    match e
    case Arrive(t, p, k) => ArriveFlying(w, t, p, k);
    case DoChore(c, ok) =>
      ChoreApart(w, c, ok);
      SideFlying(w, AfterChore(w, c, ok));
    case _ => SideFlying(w, AfterEvent(w, e));
  }

  lemma {:induction false} StepFlying(run: Key -> RunResult, w: World, s: Step)
    requires Flying(w) && Enabled(w, s)
    ensures Flying(Next(run, w, s))
  {
    hide Flying, AfterLook, AfterWork, AfterClose, AfterFly, AfterEvent, OwnWork;
    match s
    case Looks(t, a) =>
      LookIsOwn(w, t, a);
      OwnFlying(w, AfterLook(w, t, a), t);
    case Works(t, a) =>
      WorkIsOwn(run, w, t, a);
      OwnFlying(w, AfterWork(run, w, t, a), t);
    case Closes(t, a) =>
      CloseIsOwn(w, t, a);
      OwnFlying(w, AfterClose(w, t, a), t);
    case Flies(t, a) => FlyFlying(w, t, a);
    case Around(e) => EventFlying(w, e);
  }
}
