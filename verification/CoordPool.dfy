/** Slots are never lost or made: free, held by batch work and held by running requests always
    add up to the pool's size. */
module CoordPool {
  import opened CoordResult
  import opened CoordModel

  /** The requests of a process that run a sandbox in a slot. */
  function Holders(tasks: map<TaskId, Task>, p: ProcId): set<TaskId> {
    set t | t in tasks && tasks[t].proc == p && tasks[t].phase.Running?
  }

  ghost predicate PoolsFit(size: nat, w: World) {
    forall p :: p in w.pools ==> w.pools[p].free + w.pools[p].others + |Holders(w.tasks, p)| == size
  }

  /** The same requests run. */
  predicate SameRunning(w: World, w': World) {
    && (forall t :: t in w.tasks ==> t in w'.tasks && w'.tasks[t].proc == w.tasks[t].proc
                                     && (w'.tasks[t].phase.Running? <==> w.tasks[t].phase.Running?))
    && forall t :: t in w'.tasks && t !in w.tasks ==> !w'.tasks[t].phase.Running?
  }

  lemma {:induction false} SameFit(size: nat, w: World, w': World)
    requires PoolsFit(size, w) && SameRunning(w, w') && w'.pools == w.pools
    ensures PoolsFit(size, w')
  {
    forall p | p in w'.pools ensures w'.pools[p].free + w'.pools[p].others + |Holders(w'.tasks, p)| == size {
      assert Holders(w'.tasks, p) == Holders(w.tasks, p);
    }
  }

  lemma {:induction false} HoldersMoved(tasks: map<TaskId, Task>, t: TaskId, ph: Phase, p: ProcId)
    requires t in tasks
    ensures var was, now := Holders(tasks, p), Holders(tasks[t := tasks[t].(phase := ph)], p);
            now == if tasks[t].proc != p then was else if ph.Running? then was + {t} else was - {t}
    ensures t in Holders(tasks, p) <==> tasks[t].proc == p && tasks[t].phase.Running?
  {}

  lemma {:induction false} TakeFits(size: nat, w: World, t: TaskId)
    requires PoolsFit(size, w) && At(w, t) && PhaseOf(w, t).Cleared?
    ensures PoolsFit(size, AfterTakeSlot(w, t))
  {
    var w', lease := AfterTakeSlot(w, t), PhaseOf(w, t).lease;
    if PoolOf(w, t).free == 0 {
      SameFit(size, w, w');
    } else {
      hide Holders;
      forall p | p in w'.pools ensures w'.pools[p].free + w'.pools[p].others + |Holders(w'.tasks, p)| == size {
        HoldersMoved(w.tasks, t, Running(lease), p);
        assert w'.tasks == w.tasks[t := w.tasks[t].(phase := Running(lease))];
      }
    }
  }

  lemma {:induction false} GiveFits(size: nat, w: World, t: TaskId, strays: nat, ph: Phase)
    requires PoolsFit(size, w) && At(w, t) && PhaseOf(w, t).Running? && !ph.Running?
    ensures PoolsFit(size, Move(GiveSlot(w, t, strays), t, ph))
  {
    hide Holders;
    var w' := Move(GiveSlot(w, t, strays), t, ph);
    forall p | p in w'.pools ensures w'.pools[p].free + w'.pools[p].others + |Holders(w'.tasks, p)| == size {
      HoldersMoved(w.tasks, t, ph, p);
    }
  }

  lemma {:induction false} TryLockFits(size: nat, w: World, t: TaskId, token: Token, ok: bool)
    requires PoolsFit(size, w) && At(w, t) && PhaseOf(w, t).Missed?
    ensures PoolsFit(size, AfterTryLock(w, t, token, ok))
  {
    hide PoolsFit, Locked;
    var k := w.tasks[t].key;
    if !ok { SameFit(size, w, Move(w, t, Cleared(NoLease))); }
    else if Locked(w, k) { SameFit(size, w, Move(w, t, Polling(w.now + POLL_TIMEOUT, false))); }
    else { SameFit(size, w, Move(SetNx(w, k, token), t, Cleared(Lease(token, w.now + LOCK_TTL)))); }
  }

  lemma {:induction false} WorkFits(size: nat, run: Key -> RunResult, w: World, t: TaskId, a: Work)
    requires PoolsFit(size, w) && At(w, t) && CanWork(w, PhaseOf(w, t), a)
    ensures PoolsFit(size, AfterWork(run, w, t, a))
  {
    hide PoolsFit, AfterTakeSlot, AfterTryLock, GiveSlot;
    match a
    case TryLock(token, ok) => TryLockFits(size, w, t, token, ok);
    case TakeSlot => TakeFits(size, w, t);
    case Finish(failure) => GiveFits(size, w, t, 0, FinishPhase(run(w.tasks[t].key), PhaseOf(w, t).lease, failure));
    case Abandon(error) => GiveFits(size, w, t, 1, Closing(PhaseOf(w, t).lease, Failed(error)));
  }

  lemma {:induction false} LookSame(w: World, t: TaskId, a: Look)
    requires At(w, t) && CanLook(PhaseOf(w, t), w.now, a)
    ensures SameRunning(w, AfterLook(w, t, a)) && AfterLook(w, t, a).pools == w.pools
  {}

  lemma {:induction false} FlySame(w: World, t: TaskId, a: Fly)
    requires At(w, t) && CanFly(w, PhaseOf(w, t), a)
    ensures SameRunning(w, AfterFly(w, t, a)) && AfterFly(w, t, a).pools == w.pools
  {
    hide LeftToThreads;
  }

  lemma {:induction false} CloseSame(w: World, t: TaskId, a: Close)
    requires At(w, t) && CanClose(PhaseOf(w, t), a)
    ensures SameRunning(w, AfterClose(w, t, a)) && AfterClose(w, t, a).pools == w.pools
  {
    hide Locked, ToPayload;
  }

  /** Batch work takes and gives slots; a stray's end changes none. */
  lemma {:induction false} OthersFit(size: nat, w: World, p: ProcId, pool: Pool)
    requires PoolsFit(size, w) && p in w.pools && pool.free + pool.others == w.pools[p].free + w.pools[p].others
    ensures PoolsFit(size, SetPool(w, p, pool))
  {
    var w' := SetPool(w, p, pool);
    forall q | q in w'.pools ensures w'.pools[q].free + w'.pools[q].others + |Holders(w'.tasks, q)| == size {
      assert w'.tasks == w.tasks;
    }
  }

  lemma {:induction false} EventFits(size: nat, w: World, e: Outside)
    requires PoolsFit(size, w) && CanHappen(w, e)
    ensures PoolsFit(size, AfterEvent(w, e))
  {
    hide PoolsFit, AfterChore;
    match e
    case DoChore(c, ok) =>
      ChoreApart(w, c, ok);
      SameFit(size, w, AfterChore(w, c, ok));
    case OtherTakes(p) => OthersFit(size, w, p, Pool(w.pools[p].free - 1, w.pools[p].others + 1, w.pools[p].strays));
    case OtherGives(p) => OthersFit(size, w, p, Pool(w.pools[p].free + 1, w.pools[p].others - 1, w.pools[p].strays));
    case StrayEnds(p) => OthersFit(size, w, p, w.pools[p].(strays := w.pools[p].strays - 1));
    case _ => SameFit(size, w, AfterEvent(w, e));
  }

  lemma {:induction false} StepFits(size: nat, run: Key -> RunResult, w: World, s: Step)
    requires PoolsFit(size, w) && Enabled(w, s)
    ensures PoolsFit(size, Next(run, w, s))
  {
    hide PoolsFit, SameRunning, AfterLook, AfterFly, AfterWork, AfterClose, AfterEvent;
    match s
    case Looks(t, a) =>
      LookSame(w, t, a);
      SameFit(size, w, AfterLook(w, t, a));
    case Flies(t, a) =>
      FlySame(w, t, a);
      SameFit(size, w, AfterFly(w, t, a));
    case Works(t, a) => WorkFits(size, run, w, t, a);
    case Closes(t, a) =>
      CloseSame(w, t, a);
      SameFit(size, w, AfterClose(w, t, a));
    case Around(e) => EventFits(size, w, e);
  }
}
