/** Request coordination as steps of one world: any number of processes, each with requests in
    flight, a sandbox pool and a local cache, sharing a lock server and a cache. Every step is
    what the code does between two points where it can be interleaved. */
module CoordModel {
  import opened Basics
  import opened CoordResult

  type Key = string
  type ProcId = nat
  type TaskId = nat
  type Token = nat

  datatype Error = Saturated | Sandbox(what: string) | TimedOut | Cancelled

  datatype Outcome = Answer(result: RunResult, hit: bool) | Failed(error: Error)

  /** A lock request's own record of the lock it got, if any. */
  datatype Lease = NoLease | Lease(token: Token, expiry: nat)

  datatype Lock = Lock(token: Token, expiry: nat)

  /** Where a request stands. LookL1 up to Leaving are phases of a flight's leader. */
  datatype Phase =
    | Arrived
    | Admitted
    | Waiting(flight: TaskId)
    | LookL1
    | LookL2
    | Missed
    | Polling(until: nat, second: bool)
    | Cleared(lease: Lease)
    | Running(lease: Lease)
    | StoringL2(lease: Lease, result: RunResult)
    | StoringL1(lease: Lease, result: RunResult)
    | Closing(lease: Lease, outcome: Outcome)
    | Settling(outcome: Outcome)
    | Leaving(outcome: Outcome)
    | Done(outcome: Outcome)

  datatype Task = Task(proc: ProcId, key: Key, phase: Phase)

  /** A process's slots: free, held by batch work other than these requests, and the sandboxes
      still running in a thread whose request gave up on them. */
  datatype Pool = Pool(free: nat, others: nat, strays: nat)

  /** Work left to a thread after its request was cancelled. */
  datatype Chore = LatePut(proc: ProcId, key: Key, result: RunResult) | LateUnlock(key: Key, token: Token)

  datatype World = World(
    now: nat,
    locks: map<Key, Lock>,
    used: set<Token>,
    l1: map<Key, Payload>,
    l2: map<(ProcId, Key), Payload>,
    pools: map<ProcId, Pool>,
    inflight: map<(ProcId, Key), TaskId>,
    flights: map<TaskId, Option<Outcome>>,
    tasks: map<TaskId, Task>,
    chores: set<Chore>)

  const LOCK_TTL: nat := 15000
  const POLL_TIMEOUT: nat := 15000

  /** A request looks for a stored result; ok = false is a failed, expired or corrupt read. */
  datatype Look = ReadL1(ok: bool) | ReadL2(ok: bool) | PollL1(ok: bool) | PollL2(ok: bool) | Lapse

  /** A request is admitted, leads or joins a flight, and leaves with the flight's outcome. */
  datatype Fly = Probe | SkipProbe | Join | TakeOutcome | Publish | Leave | Cancel

  /** A leader takes the lock and a slot and runs the sandbox. */
  datatype Work = TryLock(token: Token, ok: bool) | TakeSlot | Finish(failure: Option<Error>) | Abandon(error: Error)

  /** A leader stores the result and gives the lock back; ok = false is a failed write. */
  datatype Close = PutL2(ok: bool) | PutL1(ok: bool) | Unlock(ok: bool)

  /** What happens around the requests. */
  datatype Outside =
    | Arrive(task: TaskId, proc: ProcId, key: Key)
    | DoChore(chore: Chore, ok: bool)
    | OrphanLock(key: Key, token: Token)
    | Tick(ticks: nat)
    | DropL1(key: Key)
    | DropL2(proc: ProcId, key: Key)
    | OtherTakes(proc: ProcId)
    | OtherGives(proc: ProcId)
    | StrayEnds(proc: ProcId)

  datatype Step =
    | Looks(task: TaskId, look: Look)
    | Flies(task: TaskId, fly: Fly)
    | Works(task: TaskId, work: Work)
    | Closes(task: TaskId, close: Close)
    | Around(event: Outside)

  // ---- pieces of steps -------------------------------------------------------------------------

  predicate Leading(ph: Phase) {
    ph.LookL1? || ph.LookL2? || ph.Missed? || ph.Polling? || ph.Cleared? || ph.Running? || ph.StoringL2? || ph.StoringL1?
    || ph.Closing? || ph.Settling? || ph.Leaving?
  }

  predicate At(w: World, t: TaskId) {
    t in w.tasks && w.tasks[t].proc in w.pools
  }

  function PhaseOf(w: World, t: TaskId): Phase
    requires At(w, t)
  {
    w.tasks[t].phase
  }

  function Move(w: World, t: TaskId, ph: Phase): World
    requires At(w, t)
  {
    w.(tasks := w.tasks[t := w.tasks[t].(phase := ph)])
  }

  function PoolOf(w: World, t: TaskId): Pool
    requires At(w, t)
  {
    w.pools[w.tasks[t].proc]
  }

  function SetPool(w: World, p: ProcId, pool: Pool): World {
    w.(pools := w.pools[p := pool])
  }

  /** The lock is there and has not run out. */
  predicate Locked(w: World, k: Key) { k in w.locks && w.now < w.locks[k].expiry }

  /** Delete the lock only if it still carries the token: one atomic step on the server. */
  function CompareDelete(w: World, k: Key, token: Token): World {
    if Locked(w, k) && w.locks[k].token == token then w.(locks := w.locks - {k}) else w
  }

  function Release(w: World, k: Key, lease: Lease): World {
    if lease.NoLease? then w else CompareDelete(w, k, lease.token)
  }

  // ---- steps ------------------------------------------------------------------------------------

  /** Set key to token if it is not locked. */
  function SetNx(w: World, k: Key, token: Token): World {
    w.(locks := w.locks[k := Lock(token, w.now + LOCK_TTL)], used := w.used + {token})
  }

  function AfterTryLock(w: World, t: TaskId, token: Token, ok: bool): World
    requires At(w, t)
  {
    var k := w.tasks[t].key;
    if !ok then Move(w, t, Cleared(NoLease))
    else if Locked(w, k) then Move(w, t, Polling(w.now + POLL_TIMEOUT, false))
    else Move(SetNx(w, k, token), t, Cleared(Lease(token, w.now + LOCK_TTL)))
  }

  function AfterTakeSlot(w: World, t: TaskId): World
    requires At(w, t) && PhaseOf(w, t).Cleared?
  {
    var lease, pool := PhaseOf(w, t).lease, PoolOf(w, t);
    if pool.free == 0 then Move(w, t, Closing(lease, Failed(Saturated)))
    else Move(SetPool(w, w.tasks[t].proc, pool.(free := pool.free - 1)), t, Running(lease))
  }

  function GiveSlot(w: World, t: TaskId, strays: nat): World
    requires At(w, t)
  {
    var pool := PoolOf(w, t);
    SetPool(w, w.tasks[t].proc, pool.(free := pool.free + 1, strays := pool.strays + strays))
  }

  /** A compile error is never stored. */
  function FinishPhase(r: RunResult, lease: Lease, failure: Option<Error>): Phase {
    if failure.Some? then Closing(lease, Failed(failure.value))
    else if r.compileError.None? then StoringL2(lease, r)
    else Closing(lease, Answer(r, false))
  }

  /** The slot is given back before anything is stored. */
  function AfterFinish(run: Key -> RunResult, w: World, t: TaskId, failure: Option<Error>): World
    requires At(w, t) && PhaseOf(w, t).Running?
  {
    Move(GiveSlot(w, t, 0), t, FinishPhase(run(w.tasks[t].key), PhaseOf(w, t).lease, failure))
  }

  function AfterRead(w: World, t: TaskId, found: Option<Payload>, otherwise: Phase): World
    requires At(w, t)
  {
    Move(w, t, if found.Some? then Settling(Answer(FromPayload(found.value), true)) else otherwise)
  }

  function FoundL1(w: World, k: Key, ok: bool): Option<Payload> { if ok && k in w.l1 then Some(w.l1[k]) else None }

  function FoundL2(w: World, p: ProcId, k: Key, ok: bool): Option<Payload> {
    if ok && (p, k) in w.l2 then Some(w.l2[(p, k)]) else None
  }

  function WriteL2(w: World, p: ProcId, k: Key, r: RunResult): World { w.(l2 := w.l2[(p, k) := ToPayload(r)]) }

  function WriteL1(w: World, k: Key, r: RunResult): World { w.(l1 := w.l1[k := ToPayload(r)]) }

  /** A cancelled leader still settles its flight, after closing what it opened. */
  function CancelledPhase(ph: Phase): Phase {
    match ph
    case StoringL2(lease, _) => Closing(lease, Failed(Cancelled))
    case StoringL1(lease, _) => Closing(lease, Failed(Cancelled))
    case _ => if Leading(ph) then Settling(Failed(Cancelled)) else Done(Failed(Cancelled))
  }

  /** A write or a release already handed to a thread may still happen later. */
  function LeftToThreads(task: Task): set<Chore> {
    match task.phase
    case StoringL2(_, r) => {LatePut(task.proc, task.key, r)}
    case StoringL1(_, r) => {LatePut(task.proc, task.key, r)}
    case Closing(Lease(token, _), _) => {LateUnlock(task.key, token)}
    case _ => {}
  }

  function AfterCancel(w: World, t: TaskId): World
    requires At(w, t)
  {
    Move(w.(chores := w.chores + LeftToThreads(w.tasks[t])), t, CancelledPhase(w.tasks[t].phase))
  }

  function AfterChore(w: World, c: Chore, ok: bool): World {
    var w' := w.(chores := w.chores - {c});
    if !ok then w'
    else match c
      case LatePut(p, k, r) => WriteL1(WriteL2(w', p, k, r), k, r)
      case LateUnlock(k, token) => CompareDelete(w', k, token)
  }

  function AfterLeave(w: World, t: TaskId): World
    requires At(w, t) && PhaseOf(w, t).Leaving?
  {
    var slot := (w.tasks[t].proc, w.tasks[t].key);
    Move(if slot in w.inflight && w.inflight[slot] == t then w.(inflight := w.inflight - {slot}) else w,
         t, Done(PhaseOf(w, t).outcome))
  }

  /** Chores touch only caches and locks. */
  lemma {:induction false} ChoreApart(w: World, c: Chore, ok: bool)
    ensures var w' := AfterChore(w, c, ok);
            && w'.tasks == w.tasks && w'.flights == w.flights && w'.inflight == w.inflight && w'.pools == w.pools
            && w'.now == w.now && w'.used == w.used && w'.chores == w.chores - {c}
  {
    hide ToPayload;
  }

  /** Lead a new flight, or wait on the one there is. */
  function AfterJoin(w: World, t: TaskId): World
    requires At(w, t)
  {
    var slot := (w.tasks[t].proc, w.tasks[t].key);
    if slot in w.inflight then Move(w, t, Waiting(w.inflight[slot]))
    else Move(w.(inflight := w.inflight[slot := t], flights := w.flights[t := None]), t, LookL1)
  }

  predicate CanLook(ph: Phase, now: nat, a: Look) {
    match a
    case ReadL1(_) => ph.LookL1?
    case ReadL2(_) => ph.LookL2?
    case PollL1(_) => ph.Polling? && !ph.second
    case PollL2(_) => ph.Polling? && ph.second
    case Lapse => ph.Polling? && !ph.second && ph.until <= now
  }

  function AfterLook(w: World, t: TaskId, a: Look): World
    requires At(w, t) && CanLook(PhaseOf(w, t), w.now, a)
  {
    var p, k, ph := w.tasks[t].proc, w.tasks[t].key, w.tasks[t].phase;
    match a
    case ReadL1(ok) => AfterRead(w, t, FoundL1(w, k, ok), LookL2)
    case ReadL2(ok) => AfterRead(w, t, FoundL2(w, p, k, ok), Missed)
    case PollL1(ok) => AfterRead(w, t, FoundL1(w, k, ok), Polling(ph.until, true))
    case PollL2(ok) => AfterRead(w, t, FoundL2(w, p, k, ok), Polling(ph.until, false))
    case Lapse => Move(w, t, Cleared(NoLease))
  }

  /** No cancellation lands while a slot is taken, a flight settled or a request is over. */
  predicate CanFly(w: World, ph: Phase, a: Fly) {
    match a
    case Probe => ph.Arrived?
    case SkipProbe => ph.Arrived?
    case Join => ph.Admitted?
    case TakeOutcome => ph.Waiting? && ph.flight in w.flights && w.flights[ph.flight].Some?
    case Publish => ph.Settling?
    case Leave => ph.Leaving?
    case Cancel => !ph.Running? && !ph.Cleared? && !ph.Settling? && !ph.Leaving? && !ph.Done?
  }

  /** Set the flight's outcome unless it is set. */
  function Settle(w: World, t: TaskId, o: Outcome): World {
    if t in w.flights && w.flights[t].Some? then w else w.(flights := w.flights[t := Some(o)])
  }

  function AfterFly(w: World, t: TaskId, a: Fly): World
    requires At(w, t) && CanFly(w, PhaseOf(w, t), a)
  {
    var ph := w.tasks[t].phase;
    match a
    case Probe => Move(w, t, if PoolOf(w, t).free > 0 then Admitted else Done(Failed(Saturated)))
    case SkipProbe => Move(w, t, Admitted)
    case Join => AfterJoin(w, t)
    case TakeOutcome => Move(w, t, Done(w.flights[ph.flight].value))
    case Publish => Move(Settle(w, t, ph.outcome), t, Leaving(ph.outcome))
    case Leave => AfterLeave(w, t)
    case Cancel => AfterCancel(w, t)
  }

  predicate CanWork(w: World, ph: Phase, a: Work) {
    match a
    case TryLock(token, _) => ph.Missed? && token !in w.used
    case TakeSlot => ph.Cleared?
    case Finish(_) => ph.Running?
    case Abandon(_) => ph.Running?
  }

  function AfterWork(run: Key -> RunResult, w: World, t: TaskId, a: Work): World
    requires At(w, t) && CanWork(w, PhaseOf(w, t), a)
  {
    match a
    case TryLock(token, ok) => AfterTryLock(w, t, token, ok)
    case TakeSlot => AfterTakeSlot(w, t)
    case Finish(failure) => AfterFinish(run, w, t, failure)
    case Abandon(error) => Move(GiveSlot(w, t, 1), t, Closing(PhaseOf(w, t).lease, Failed(error)))
  }

  predicate CanClose(ph: Phase, a: Close) {
    match a
    case PutL2(_) => ph.StoringL2?
    case PutL1(_) => ph.StoringL1?
    case Unlock(_) => ph.Closing?
  }

  function AfterClose(w: World, t: TaskId, a: Close): World
    requires At(w, t) && CanClose(PhaseOf(w, t), a)
  {
    var p, k, ph := w.tasks[t].proc, w.tasks[t].key, w.tasks[t].phase;
    match a
    case PutL2(ok) => Move(if ok then WriteL2(w, p, k, ph.result) else w, t, StoringL1(ph.lease, ph.result))
    case PutL1(ok) => Move(if ok then WriteL1(w, k, ph.result) else w, t, Closing(ph.lease, Answer(ph.result, false)))
    case Unlock(ok) => Move(if ok then Release(w, k, ph.lease) else w, t, Settling(ph.outcome))
  }

  predicate CanHappen(w: World, e: Outside) {
    match e
    case Arrive(t, p, _) => t !in w.tasks && t !in w.flights && p in w.pools
    case DoChore(c, _) => c in w.chores
    case OrphanLock(k, token) => token !in w.used && !Locked(w, k)
    case OtherTakes(p) => p in w.pools && w.pools[p].free > 0
    case OtherGives(p) => p in w.pools && w.pools[p].others > 0
    case StrayEnds(p) => p in w.pools && w.pools[p].strays > 0
    case _ => true
  }

  function AfterEvent(w: World, e: Outside): World
    requires CanHappen(w, e)
  {
    match e
    case Arrive(t, p, k) => w.(tasks := w.tasks[t := Task(p, k, Arrived)])
    case DoChore(c, ok) => AfterChore(w, c, ok)
    case OrphanLock(k, token) => SetNx(w, k, token)
    case Tick(ticks) => w.(now := w.now + ticks)
    case DropL1(k) => w.(l1 := w.l1 - {k})
    case DropL2(p, k) => w.(l2 := w.l2 - {(p, k)})
    case OtherTakes(p) => SetPool(w, p, Pool(w.pools[p].free - 1, w.pools[p].others + 1, w.pools[p].strays))
    case OtherGives(p) => SetPool(w, p, Pool(w.pools[p].free + 1, w.pools[p].others - 1, w.pools[p].strays))
    case StrayEnds(p) => SetPool(w, p, w.pools[p].(strays := w.pools[p].strays - 1))
  }

  predicate Enabled(w: World, s: Step) {
    match s
    case Looks(t, a) => At(w, t) && CanLook(PhaseOf(w, t), w.now, a)
    case Flies(t, a) => At(w, t) && CanFly(w, PhaseOf(w, t), a)
    case Works(t, a) => At(w, t) && CanWork(w, PhaseOf(w, t), a)
    case Closes(t, a) => At(w, t) && CanClose(PhaseOf(w, t), a)
    case Around(e) => CanHappen(w, e)
  }

  function Next(run: Key -> RunResult, w: World, s: Step): World
    requires Enabled(w, s)
  {
    match s
    case Looks(t, a) => AfterLook(w, t, a)
    case Flies(t, a) => AfterFly(w, t, a)
    case Works(t, a) => AfterWork(run, w, t, a)
    case Closes(t, a) => AfterClose(w, t, a)
    case Around(e) => AfterEvent(w, e)
  }

  // ---- runs ---------------------------------------------------------------------------------------

  /** The payload is what storing the key's own run gives, and that run may be stored. */
  predicate Stored(run: Key -> RunResult, k: Key, p: Payload) {
    p == ToPayload(run(k)) && run(k).compileError.None?
  }

  ghost predicate CachesRight(run: Key -> RunResult, w: World) {
    && (forall k :: k in w.l1 ==> Stored(run, k, w.l1[k]))
    && (forall p, k :: (p, k) in w.l2 ==> Stored(run, k, w.l2[(p, k)]))
  }

  /** Processes with all slots free and nothing going on; caches may be warm. */
  ghost predicate Initial(run: Key -> RunResult, size: nat, w: World) {
    && w.locks == map[] && w.inflight == map[] && w.flights == map[] && w.tasks == map[] && w.chores == {}
    && CachesRight(run, w)
    && forall p :: p in w.pools ==> w.pools[p] == Pool(size, 0, 0)
  }

  predicate Allowed(run: Key -> RunResult, w: World, steps: seq<Step>)
    decreases |steps|
  {
    steps == [] || (Enabled(w, steps[0]) && Allowed(run, Next(run, w, steps[0]), steps[1..]))
  }

  function Play(run: Key -> RunResult, w: World, steps: seq<Step>): World
    requires Allowed(run, w, steps)
    decreases |steps|
  {
    if steps == [] then w else Play(run, Next(run, w, steps[0]), steps[1..])
  }
}
