/** The cross-process lock: an unexpired lease is the lock on the server, so it has one holder. */
module CoordLocks {
  import opened CoordResult
  import opened CoordModel

  function LeaseOf(ph: Phase): Lease {
    match ph
    case Cleared(lease) => lease
    case Running(lease) => lease
    case StoringL2(lease, _) => lease
    case StoringL1(lease, _) => lease
    case Closing(lease, _) => lease
    case _ => NoLease
  }

  predicate Holds(w: World, t: TaskId) { t in w.tasks && LeaseOf(w.tasks[t].phase).Lease? }

  function TokenOf(w: World, t: TaskId): Token
    requires Holds(w, t)
  {
    LeaseOf(w.tasks[t].phase).token
  }

  function ExpiryOf(w: World, t: TaskId): nat
    requires Holds(w, t)
  {
    LeaseOf(w.tasks[t].phase).expiry
  }

  /** The lease's token is used up, and while it has not run out the server has it. */
  predicate LeaseGood(w: World, t: TaskId)
    requires Holds(w, t)
  {
    && TokenOf(w, t) in w.used
    && (w.now < ExpiryOf(w, t) ==>
          w.tasks[t].key in w.locks && w.locks[w.tasks[t].key] == Lock(TokenOf(w, t), ExpiryOf(w, t)))
  }

  ghost predicate LeasesGood(w: World) {
    && (forall t :: Holds(w, t) ==> LeaseGood(w, t))
    && (forall t, u :: Holds(w, t) && Holds(w, u) && t != u ==> TokenOf(w, t) != TokenOf(w, u))
    && (forall k :: k in w.locks ==> w.locks[k].token in w.used)
    && (forall c :: c in w.chores && c.LateUnlock? ==> c.token in w.used && forall t :: Holds(w, t) ==> TokenOf(w, t) != c.token)
  }

  /** Every lease after was there before, for the same request. */
  ghost predicate NoNewLease(w: World, w': World) {
    forall t :: Holds(w', t) ==> t in w.tasks && LeaseOf(w.tasks[t].phase) == LeaseOf(w'.tasks[t].phase)
                                 && w.tasks[t].key == w'.tasks[t].key
  }

  /** Locks only go when their token is nobody's any more, or time passes. */
  lemma {:induction false} FewerLeases(w: World, w': World)
    requires LeasesGood(w) && NoNewLease(w, w') && w'.used == w.used && w'.now >= w.now
    requires forall k :: k in w'.locks ==> k in w.locks && w'.locks[k] == w.locks[k]
    requires forall k, t :: k in w.locks && k !in w'.locks && Holds(w', t) ==> w.locks[k].token != TokenOf(w', t) || w.now >= w.locks[k].expiry
    requires forall c :: c in w'.chores && c !in w.chores && c.LateUnlock? ==>
               c.token in w.used && forall t :: Holds(w', t) ==> TokenOf(w', t) != c.token
    ensures LeasesGood(w')
  {
    forall t | Holds(w', t) ensures LeaseGood(w', t) && Holds(w, t) { assert LeaseGood(w, t); }
  }

  lemma {:induction false} MoveNoNew(w: World, t: TaskId, ph: Phase)
    requires At(w, t) && (LeaseOf(ph) == NoLease || LeaseOf(ph) == LeaseOf(PhaseOf(w, t)))
    ensures NoNewLease(w, Move(w, t, ph))
  {}

  /** A request gives up or keeps its lease; locks and clock stay. */
  lemma {:induction false} MovedGood(w: World, t: TaskId, ph: Phase)
    requires LeasesGood(w) && At(w, t) && (LeaseOf(ph) == NoLease || LeaseOf(ph) == LeaseOf(PhaseOf(w, t)))
    ensures LeasesGood(Move(w, t, ph))
  {
    MoveNoNew(w, t, ph);
    hide LeasesGood, LeaseOf;
    FewerLeases(w, Move(w, t, ph));
  }

  lemma {:induction false} SideGood(w: World, w': World)
    requires LeasesGood(w) && w'.tasks == w.tasks && w'.locks == w.locks && w'.used == w.used && w'.now >= w.now
    requires forall c :: c in w'.chores && c.LateUnlock? ==> c in w.chores
    ensures LeasesGood(w')
  {
    assert NoNewLease(w, w');
    hide LeasesGood, LeaseOf;
    FewerLeases(w, w');
  }

  /** Taking the lock: no unexpired lease on the key is anyone's. */
  lemma {:induction false} LockedGood(w: World, t: TaskId, token: Token)
    requires LeasesGood(w) && At(w, t) && PhaseOf(w, t).Missed? && token !in w.used && !Locked(w, w.tasks[t].key)
    ensures LeasesGood(Move(SetNx(w, w.tasks[t].key, token), t, Cleared(Lease(token, w.now + LOCK_TTL))))
  {
    var w' := Move(SetNx(w, w.tasks[t].key, token), t, Cleared(Lease(token, w.now + LOCK_TTL)));
    forall u | Holds(w', u) ensures LeaseGood(w', u) && (u != t ==> Holds(w, u) && TokenOf(w', u) == TokenOf(w, u) && TokenOf(w, u) in w.used) {
      if u != t { assert LeaseGood(w, u); }
    }
  }

  lemma {:induction false} OrphanGood(w: World, k: Key, token: Token)
    requires LeasesGood(w) && token !in w.used && !Locked(w, k)
    ensures LeasesGood(SetNx(w, k, token))
  {
    var w' := SetNx(w, k, token);
    forall u | Holds(w', u) ensures LeaseGood(w', u) && Holds(w, u) { assert LeaseGood(w, u); }
  }

  /** A compare-delete takes away at most the one lock, and only with the token. */
  lemma {:induction false} CompareDeleteIs(w: World, k: Key, token: Token)
    ensures var w' := CompareDelete(w, k, token);
            && w' == w.(locks := w'.locks)
            && (forall l :: l in w'.locks ==> l in w.locks && w'.locks[l] == w.locks[l])
            && (forall l :: l in w.locks && l !in w'.locks ==> l == k && w.locks[l].token == token)
  {}

  /** Giving the lease up and compare-deleting its token. */
  lemma {:induction false} UnlockGood(w: World, t: TaskId, ph: Phase)
    requires LeasesGood(w) && At(w, t) && LeaseOf(ph).NoLease? && Holds(w, t)
    ensures LeasesGood(Move(CompareDelete(w, w.tasks[t].key, TokenOf(w, t)), t, ph))
  {
    var k, token := w.tasks[t].key, TokenOf(w, t);
    CompareDeleteIs(w, k, token);
    hide CompareDelete;
    var w' := Move(CompareDelete(w, k, token), t, ph);
    assert NoNewLease(w, w');
    forall u | Holds(w', u) ensures TokenOf(w', u) != token { assert Holds(w, u) && u != t; }
    hide LeasesGood, LeaseOf;
    FewerLeases(w, w');
  }

  lemma {:induction false} LateUnlockGood(w: World, k: Key, token: Token)
    requires LeasesGood(w) && LateUnlock(k, token) in w.chores
    ensures LeasesGood(CompareDelete(w, k, token))
  {
    CompareDeleteIs(w, k, token);
    hide CompareDelete;
    var w' := CompareDelete(w, k, token);
    assert NoNewLease(w, w');
    forall u | Holds(w', u) ensures TokenOf(w', u) != token { assert Holds(w, u); }
    hide LeasesGood, LeaseOf;
    FewerLeases(w, w');
  }

  /** A cancelled release may still come: its token is nobody's then. */
  lemma {:induction false} CancelGood(w: World, t: TaskId)
    requires LeasesGood(w) && At(w, t)
    ensures LeasesGood(AfterCancel(w, t))
  {
    var task, ph := w.tasks[t], CancelledPhase(w.tasks[t].phase);
    var w1 := Move(w, t, ph);
    MovedGood(w, t, ph);
    var w' := w1.(chores := w1.chores + LeftToThreads(task));
    assert NoNewLease(w1, w');
    forall c | c in LeftToThreads(task) && c.LateUnlock?
      ensures c.token in w.used && forall u :: Holds(w', u) ==> TokenOf(w', u) != c.token
    {
      assert Holds(w, t) && TokenOf(w, t) == c.token && LeaseGood(w, t);
      forall u | Holds(w', u) ensures TokenOf(w', u) != c.token { assert Holds(w, u) && u != t; }
    }
    hide LeasesGood, LeaseOf, LeftToThreads, CancelledPhase;
    FewerLeases(w1, w');
  }

  lemma {:induction false} LookGood(w: World, t: TaskId, a: Look)
    requires LeasesGood(w) && At(w, t) && CanLook(PhaseOf(w, t), w.now, a)
    ensures LeasesGood(AfterLook(w, t, a))
  {
    hide LeasesGood;
    MovedGood(w, t, AfterLook(w, t, a).tasks[t].phase);
  }

  lemma {:induction false} JoinGood(w: World, t: TaskId)
    requires LeasesGood(w) && At(w, t) && LeaseOf(PhaseOf(w, t)).NoLease?
    ensures LeasesGood(AfterJoin(w, t))
  {
    hide LeasesGood;
    var w' := AfterJoin(w, t);
    MovedGood(w, t, w'.tasks[t].phase);
    SideGood(Move(w, t, w'.tasks[t].phase), w');
  }

  lemma {:induction false} FlyGood(w: World, t: TaskId, a: Fly)
    requires LeasesGood(w) && At(w, t) && CanFly(w, PhaseOf(w, t), a)
    ensures LeasesGood(AfterFly(w, t, a))
  {
    hide LeasesGood, AfterJoin, AfterCancel;
    var ph := PhaseOf(w, t);
    match a
    case Join => JoinGood(w, t);
    case Cancel => CancelGood(w, t);
    case Publish =>
      MovedGood(w, t, Leaving(ph.outcome));
      SideGood(Move(w, t, Leaving(ph.outcome)), AfterFly(w, t, Publish));
    case Leave =>
      MovedGood(w, t, Done(ph.outcome));
      SideGood(Move(w, t, Done(ph.outcome)), AfterLeave(w, t));
    case _ => MovedGood(w, t, AfterFly(w, t, a).tasks[t].phase);
  }

  lemma {:induction false} GivenBackGood(w: World, t: TaskId, strays: nat, ph: Phase)
    requires LeasesGood(w) && At(w, t) && LeaseOf(ph) == LeaseOf(PhaseOf(w, t))
    ensures LeasesGood(Move(GiveSlot(w, t, strays), t, ph))
  {
    MovedGood(w, t, ph);
    hide LeasesGood, LeaseOf;
    SideGood(Move(w, t, ph), Move(GiveSlot(w, t, strays), t, ph));
  }

  lemma {:induction false} TakeSlotGood(w: World, t: TaskId)
    requires LeasesGood(w) && At(w, t) && PhaseOf(w, t).Cleared?
    ensures LeasesGood(AfterTakeSlot(w, t))
  {
    hide LeasesGood;
    var w' := AfterTakeSlot(w, t);
    MovedGood(w, t, w'.tasks[t].phase);
    SideGood(Move(w, t, w'.tasks[t].phase), w');
  }

  lemma {:induction false} TryLockGood(w: World, t: TaskId, token: Token, ok: bool)
    requires LeasesGood(w) && At(w, t) && PhaseOf(w, t).Missed? && token !in w.used
    ensures LeasesGood(AfterTryLock(w, t, token, ok))
  {
    hide LeasesGood, Locked;
    if !ok { MovedGood(w, t, Cleared(NoLease)); }
    else if Locked(w, w.tasks[t].key) { MovedGood(w, t, Polling(w.now + POLL_TIMEOUT, false)); }
    else { LockedGood(w, t, token); }
  }

  lemma {:induction false} WorkGood(run: Key -> RunResult, w: World, t: TaskId, a: Work)
    requires LeasesGood(w) && At(w, t) && CanWork(w, PhaseOf(w, t), a)
    ensures LeasesGood(AfterWork(run, w, t, a))
  {
    hide LeasesGood, AfterTryLock, AfterTakeSlot, GiveSlot;
    match a
    case TryLock(token, ok) => TryLockGood(w, t, token, ok);
    case TakeSlot => TakeSlotGood(w, t);
    case Finish(failure) => GivenBackGood(w, t, 0, FinishPhase(run(w.tasks[t].key), PhaseOf(w, t).lease, failure));
    case Abandon(error) => GivenBackGood(w, t, 1, Closing(PhaseOf(w, t).lease, Failed(error)));
  }

  lemma {:induction false} CloseGood(w: World, t: TaskId, a: Close)
    requires LeasesGood(w) && At(w, t) && CanClose(PhaseOf(w, t), a)
    ensures LeasesGood(AfterClose(w, t, a))
  {
    var ph := PhaseOf(w, t);
    hide LeasesGood, CompareDelete, ToPayload;
    match a
    case PutL2(_) =>
      MovedGood(w, t, StoringL1(ph.lease, ph.result));
      SideGood(Move(w, t, StoringL1(ph.lease, ph.result)), AfterClose(w, t, a));
    case PutL1(_) =>
      var after := Closing(ph.lease, Answer(ph.result, false));
      MovedGood(w, t, after);
      SideGood(Move(w, t, after), AfterClose(w, t, a));
    case Unlock(ok) =>
      if ok && ph.lease.Lease? { UnlockGood(w, t, Settling(ph.outcome)); } else { MovedGood(w, t, Settling(ph.outcome)); }
  }

  lemma {:induction false} ArriveGood(w: World, t: TaskId, p: ProcId, k: Key)
    requires LeasesGood(w) && t !in w.tasks
    ensures LeasesGood(w.(tasks := w.tasks[t := Task(p, k, Arrived)]))
  {
    var w' := w.(tasks := w.tasks[t := Task(p, k, Arrived)]);
    assert NoNewLease(w, w');
    hide LeasesGood, LeaseOf;
    FewerLeases(w, w');
  }

  lemma {:induction false} ChoreGood(w: World, c: Chore, ok: bool)
    requires LeasesGood(w) && c in w.chores
    ensures LeasesGood(AfterChore(w, c, ok))
  {
    var gone := w.chores - {c};
    if ok && c.LateUnlock? {
      LateUnlockGood(w, c.key, c.token);
      CompareDeleteIs(w, c.key, c.token);
      assert AfterChore(w, c, ok) == CompareDelete(w, c.key, c.token).(chores := gone);
      hide LeasesGood, CompareDelete;
      SideGood(CompareDelete(w, c.key, c.token), CompareDelete(w, c.key, c.token).(chores := gone));
    } else {
      hide LeasesGood, ToPayload;
      SideGood(w, AfterChore(w, c, ok));
    }
  }

  lemma {:induction false} EventGood(w: World, e: Outside)
    requires LeasesGood(w) && CanHappen(w, e)
    ensures LeasesGood(AfterEvent(w, e))
  {
    hide LeasesGood, AfterChore, SetNx, Locked;
    match e
    case Arrive(t, p, k) => ArriveGood(w, t, p, k);
    case DoChore(c, ok) => ChoreGood(w, c, ok);
    case OrphanLock(k, token) => OrphanGood(w, k, token);
    case _ => SideGood(w, AfterEvent(w, e));
  }

  lemma {:induction false} StepGood(run: Key -> RunResult, w: World, s: Step)
    requires LeasesGood(w) && Enabled(w, s)
    ensures LeasesGood(Next(run, w, s))
  {
    hide LeasesGood, AfterLook, AfterFly, AfterWork, AfterClose, AfterEvent;
    match s
    case Looks(t, a) => LookGood(w, t, a);
    case Flies(t, a) => FlyGood(w, t, a);
    case Works(t, a) => WorkGood(run, w, t, a);
    case Closes(t, a) => CloseGood(w, t, a);
    case Around(e) => EventGood(w, e);
  }
}
