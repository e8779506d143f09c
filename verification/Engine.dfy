/**
 The engine (oban.go) as interleaved atomic steps: one dispatching loop per queue,
 attempts running in goroutines, slots of a semaphore channel, and Stop.
 Every engine run is an owner run of the store.
 */
module Engine {
  import opened Options
  import opened Calendar
  import opened Jobs
  import opened StoreSpec
  import opened OwnerRuns

  /** Where a queue's loop is inside dispatch: before it, after reading the free capacity, or launching what it fetched. */
  datatype Dispatch = Idle | Reserved(free: int) | Launching(pending: seq<Job>)

  /** slots is len(sem), capacity is cap(sem). */
  datatype Queue = Queue(capacity: int, slots: int, dispatch: Dispatch, looping: bool)

  /** An attempt's goroutine: running the worker, result stored, slot freed. */
  datatype Phase = Running | Stored | Freed

  datatype Attempt = Attempt(job: Job, phase: Phase)

  /** orphans are the jobs found executing when the engine was created: whoever holds them, this engine does not. */
  datatype Oban = Oban(
    orphans: set<int>, store: StoreState, queues: map<string, Queue>, attempts: map<int, Attempt>, tickets: int, jobWG: int,
    started: bool, stopped: bool, pollCancelled: bool, stopReturned: bool)

  datatype Action =
    | Client(job: Job, wall: Instant)
    | Start
    | Tick(queue: string)
    | FetchJobs(queue: string, ok: bool, now: Instant)
    | Launch(queue: string)
    | EndDispatch(queue: string)
    | Record(ticket: int, outcome: Outcome, retryAt: Instant, now: Instant)
    | Free(ticket: int)
    | Exit(ticket: int)
    | CancelContext
    | Stop
    | LoopExit(queue: string)
    | StopReturn

  predicate EngineOutcome(o: Outcome) { o.Succeeded? || o.Failed? || o.Unregistered? }

  /** When an action can happen. A send on a full channel blocks, so Launch needs a free slot. */
  predicate Can(e: Oban, a: Action) {
    match a
    case Client(job, _) => Unstarted(job)
    case Start => !e.started && !e.stopped
    case Tick(q) => q in e.queues && e.queues[q].looping && e.queues[q].dispatch.Idle?
    case FetchJobs(q, _, _) => q in e.queues && e.queues[q].dispatch.Reserved?
    case Launch(q) =>
      && q in e.queues && e.queues[q].dispatch.Launching? && e.queues[q].dispatch.pending != []
      && e.queues[q].slots < e.queues[q].capacity
    case EndDispatch(q) => q in e.queues && e.queues[q].dispatch == Launching([])
    case Record(n, outcome, _, _) => n in e.attempts && e.attempts[n].phase.Running? && EngineOutcome(outcome)
    case Free(n) => n in e.attempts && e.attempts[n].phase.Stored? && e.attempts[n].job.queue in e.queues
    case Exit(n) => n in e.attempts && e.attempts[n].phase.Freed?
    case CancelContext => e.started
    case Stop => e.started && !e.stopped
    case LoopExit(q) => q in e.queues && e.pollCancelled && e.queues[q].looping && e.queues[q].dispatch.Idle?
    case StopReturn => e.stopped && e.jobWG == 0 && forall q :: q in e.queues ==> !e.queues[q].looping
  }

  function SetQueue(e: Oban, q: string, s: Queue): Oban {
    e.(queues := e.queues[q := s])
  }

  ghost function Act(e: Oban, a: Action): Oban
    requires Valid(e.store) && Can(e, a)
  {
    match a
    case Client(job, wall) => e.(store := EnqueueStep(e.store, job, wall))
    case Start => e.(started := true, queues := map q | q in e.queues :: e.queues[q].(looping := true))
    case Tick(q) =>
      var s := e.queues[q];
      var free := s.capacity - s.slots;
      if free <= 0 then e else SetQueue(e, q, s.(dispatch := Reserved(free)))
    case FetchJobs(q, ok, now) =>
      var s := e.queues[q];
      if !ok then SetQueue(e, q, s.(dispatch := Idle))
      else
        SetQueue(e.(store := FetchStep(e.store, q, s.dispatch.free, now)), q,
                 s.(dispatch := Launching(Fetched(e.store, q, s.dispatch.free, now))))
    case Launch(q) =>
      var s := e.queues[q];
      var pending := s.dispatch.pending;
      SetQueue(e.(attempts := e.attempts[e.tickets := Attempt(pending[0], Running)], tickets := e.tickets + 1,
                  jobWG := e.jobWG + 1),
               q, s.(slots := s.slots + 1, dispatch := Launching(pending[1..])))
    case EndDispatch(q) => SetQueue(e, q, e.queues[q].(dispatch := Idle))
    case Record(n, outcome, retryAt, now) =>
      var clone := e.attempts[n].job;
      var store :=
        if clone.id in e.store.jobs
        then Put(e.store, clone.id, FinishJob(e.store.jobs[clone.id], clone, outcome, retryAt, now))
        else e.store;
      e.(store := store, attempts := e.attempts[n := e.attempts[n].(phase := Stored)])
    case Free(n) =>
      var q := e.attempts[n].job.queue;
      SetQueue(e.(attempts := e.attempts[n := e.attempts[n].(phase := Freed)]), q,
               e.queues[q].(slots := e.queues[q].slots - 1))
    case Exit(n) => e.(attempts := e.attempts - {n}, jobWG := e.jobWG - 1)
    case CancelContext => e.(pollCancelled := true)
    case Stop => e.(stopped := true, pollCancelled := true)
    case LoopExit(q) => SetQueue(e, q, e.queues[q].(looping := false))
    case StopReturn => e.(stopReturned := true)
  }

  /** New: any store, positive capacities, nothing started. */
  ghost predicate Fresh(e: Oban) {
    && Valid(e.store) && e.orphans == Held(e.store).Keys && e.attempts == map[] && e.tickets == 0 && e.jobWG == 0
    && !e.started && !e.stopped && !e.pollCancelled && !e.stopReturned
    && forall q :: q in e.queues ==> e.queues[q].capacity > 0 && e.queues[q] == Queue(e.queues[q].capacity, 0, Idle, false)
  }

  // ---- Invariants ----

  ghost function Busy(e: Oban, q: string): set<int> {
    set n | n in e.attempts && e.attempts[n].job.queue == q && !e.attempts[n].phase.Freed?
  }

  /** Slots count the attempts that hold one, and there is room for everything reserved or fetched. */
  ghost predicate Capacity(e: Oban) {
    forall q :: q in e.queues ==> Room(e.queues[q], |Busy(e, q)|)
  }

  predicate Room(s: Queue, busy: int) {
    && s.slots == busy && s.slots <= s.capacity
    && (s.dispatch.Reserved? ==> 0 < s.dispatch.free && s.slots + s.dispatch.free <= s.capacity)
    && (s.dispatch.Launching? ==> s.slots + |s.dispatch.pending| <= s.capacity)
  }

  predicate Pending(e: Oban, q: string) { q in e.queues && e.queues[q].dispatch.Launching? }

  predicate RunningAt(e: Oban, n: int) { n in e.attempts && e.attempts[n].phase.Running? }

  /** A runner's clone is the stored job, which is executing. */
  ghost predicate Current(e: Oban, j: Job) {
    j.id in e.store.jobs && e.store.jobs[j.id] == j && j.state.Executing?
  }

  /** Every clone about to run or running is current, and no two are of one job. */
  ghost predicate Owners(e: Oban) {
    && (forall q, i :: Pending(e, q) && 0 <= i < |e.queues[q].dispatch.pending| ==>
          Current(e, e.queues[q].dispatch.pending[i]) && e.queues[q].dispatch.pending[i].queue == q)
    && (forall n :: n in e.attempts ==> n < e.tickets && e.attempts[n].job.queue in e.queues)
    && (forall n :: RunningAt(e, n) ==> Current(e, e.attempts[n].job))
    && (forall q, i, k :: Pending(e, q) && 0 <= i < k < |e.queues[q].dispatch.pending| ==>
          e.queues[q].dispatch.pending[i].id != e.queues[q].dispatch.pending[k].id)
    && (forall n, m :: RunningAt(e, n) && RunningAt(e, m) && n != m ==> e.attempts[n].job.id != e.attempts[m].job.id)
    && (forall q, i, n :: Pending(e, q) && 0 <= i < |e.queues[q].dispatch.pending| && RunningAt(e, n) ==>
          e.queues[q].dispatch.pending[i].id != e.attempts[n].job.id)
  }

  /** Someone owns job id: it waits to be launched, or an attempt runs it. */
  ghost predicate Owned(e: Oban, id: int) {
    || (exists n :: RunningAt(e, n) && e.attempts[n].job.id == id)
    || (exists q, i :: Pending(e, q) && 0 <= i < |e.queues[q].dispatch.pending| && e.queues[q].dispatch.pending[i].id == id)
  }

  ghost predicate AllOwned(e: Oban) {
    forall id :: id in e.store.jobs && e.store.jobs[id].state.Executing? && id !in e.orphans ==> Owned(e, id)
  }

  ghost predicate Lifecycle(e: Oban) {
    && e.jobWG == |e.attempts|
    && (e.stopped ==> e.started && e.pollCancelled)
    && (forall q :: q in e.queues && !e.queues[q].looping ==> e.queues[q].dispatch.Idle?)
    && (!e.started ==> e.attempts == map[] && forall q :: q in e.queues ==> !e.queues[q].looping)
    && (e.stopReturned ==> e.stopped && e.attempts == map[] && forall q :: q in e.queues ==> !e.queues[q].looping)
  }

  /** The owner run the engine is making: its runners hold exactly the executing jobs. */
  ghost function Abstract(e: Oban): Run {
    Run(e.store, Held(e.store))
  }

  ghost predicate EngineInv(e: Oban) {
    Valid(e.store) && Capacity(e) && Owners(e) && AllOwned(e) && Lifecycle(e)
  }

  lemma FreshInv(e: Oban)
    requires Fresh(e)
    ensures EngineInv(e)
  {
    forall q ensures Busy(e, q) == {} {}
  }

  // ---- Refinement: an engine step is a step of the owner run, or none ----

  function StoreStep(e: Oban, a: Action): Option<Step>
    requires Can(e, a)
  {
    match a
    case Client(job, wall) => Some(EnqueueJob(job, wall))
    case FetchJobs(q, ok, now) => if ok then Some(Fetch(q, e.queues[q].dispatch.free, now)) else None
    case Record(n, outcome, retryAt, now) => Some(Finish(e.attempts[n].job.id, outcome, retryAt, now))
    case _ => None
  }

  lemma RefinesFetch(e: Oban, q: string, now: Instant)
    requires Valid(e.store) && Can(e, FetchJobs(q, true, now))
    ensures Abstract(Act(e, FetchJobs(q, true, now))) == Do(Abstract(e), Fetch(q, e.queues[q].dispatch.free, now))
  {
    hide Valid, FetchStep, Fetched, Held, Do;
    var r, free := Abstract(e), e.queues[q].dispatch.free;
    FetchHeld(e.store, q, free, now);
    assert Act(e, FetchJobs(q, true, now)).store == FetchStep(e.store, q, free, now);
  }

  lemma RefinesRecord(e: Oban, n: int, outcome: Outcome, retryAt: Instant, now: Instant)
    requires Valid(e.store) && Can(e, Record(n, outcome, retryAt, now)) && Current(e, e.attempts[n].job)
    ensures var step := Finish(e.attempts[n].job.id, outcome, retryAt, now);
      && Enabled(Abstract(e), step)
      && Abstract(Act(e, Record(n, outcome, retryAt, now))) == Do(Abstract(e), step)
  {
    hide Spaced, FinishJob, Booked;
    var r, id := Abstract(e), e.attempts[n].job.id;
    FinishedStops(e.store.jobs[id], outcome, retryAt, now);
    assert Abstract(Act(e, Record(n, outcome, retryAt, now))).held == Do(r, Finish(id, outcome, retryAt, now)).held;
  }

  lemma RefinesClient(e: Oban, job: Job, wall: Instant)
    requires Valid(e.store) && Unstarted(job)
    ensures Abstract(Act(e, Client(job, wall))) == Do(Abstract(e), EnqueueJob(job, wall))
  {
    hide Spaced, Booked;
    assert Abstract(Act(e, Client(job, wall))).held == Do(Abstract(e), EnqueueJob(job, wall)).held;
  }

  /** The engine's store calls are exactly steps of an owner run. */
  lemma Refines(e: Oban, a: Action)
    requires EngineInv(e) && Can(e, a)
    ensures match StoreStep(e, a)
      case None => Abstract(Act(e, a)) == Abstract(e)
      case Some(step) => Enabled(Abstract(e), step) && Abstract(Act(e, a)) == Do(Abstract(e), step)
  {
    hide Valid, Capacity, AllOwned, Lifecycle, Do;
    match a {
      case FetchJobs(q, ok, now) => if ok { RefinesFetch(e, q, now); }
      case Record(n, outcome, retryAt, now) =>
        assert RunningAt(e, n);
        RefinesRecord(e, n, outcome, retryAt, now);
      case Client(job, wall) => RefinesClient(e, job, wall);
      case _ =>
    }
  }

  // ---- Capacity: the send never blocks ----

  lemma BusySame(e: Oban, a: Action)
    requires Valid(e.store) && Can(e, a) && !a.Launch? && !a.Free?
    ensures forall q :: Busy(Act(e, a), q) == Busy(e, q)
  {
    hide EnqueueStep, FetchStep, Fetched, FinishJob;
    var e' := Act(e, a);
    forall q ensures Busy(e', q) == Busy(e, q) {
      match a
      case Record(n, _, _, _) => assert e'.attempts[n].job == e.attempts[n].job;
      case _ =>
    }
  }

  lemma CapacityKeeps(e: Oban, a: Action)
    requires EngineInv(e) && Can(e, a)
    ensures Capacity(Act(e, a))
  {
    hide Valid, AllOwned, Current, Lifecycle, Act, Capacity;
    match a {
      case Launch(q) =>
        assert Pending(e, q);
        LaunchCapacity(e, q);
      case Free(n) => FreeCapacity(e, n);
      case FetchJobs(q, ok, now) => FetchCapacity(e, q, ok, now);
      case _ => OtherCapacity(e, a);
    }
  }

  lemma FetchCapacity(e: Oban, q: string, ok: bool, now: Instant)
    requires Valid(e.store) && Capacity(e) && Can(e, FetchJobs(q, ok, now))
    ensures Capacity(Act(e, FetchJobs(q, ok, now)))
  {
    hide Valid, FetchStep, Fetched, Busy;
    BusySame(e, FetchJobs(q, ok, now));
    FetchedLength(e.store, q, e.queues[q].dispatch.free, now);
  }

  lemma OtherCapacity(e: Oban, a: Action)
    requires Valid(e.store) && Capacity(e) && Can(e, a) && !a.Launch? && !a.Free? && !a.FetchJobs?
    ensures Capacity(Act(e, a))
  {
    var e' := Act(e, a);
    SameShape(e, a);
    hide Valid, Busy, Act;
    BusySame(e, a);
    forall q | q in e'.queues ensures Room(e'.queues[q], |Busy(e', q)|) {
      OtherRoom(e, a, q, |Busy(e, q)|);
    }
  }

  lemma OtherRoom(e: Oban, a: Action, q: string, busy: int)
    requires Valid(e.store) && Can(e, a) && !a.Launch? && !a.Free? && !a.FetchJobs?
    requires q in e.queues && Room(e.queues[q], busy)
    ensures q in Act(e, a).queues && Room(Act(e, a).queues[q], busy)
  {
    hide Valid, EnqueueStep, FinishJob;
  }

  lemma FetchedLength(s: StoreState, q: string, limit: int, now: Instant)
    requires Valid(s) && limit > 0
    ensures |Fetched(s, q, limit, now)| <= limit
  {
    PickedFacts(s, q, limit, now);
  }

  lemma BusyLaunch(e: Oban, q: string)
    requires Valid(e.store) && Can(e, Launch(q))
    requires e.queues[q].dispatch.pending[0].queue == q && e.tickets !in e.attempts
    ensures Busy(Act(e, Launch(q)), q) == Busy(e, q) + {e.tickets} && e.tickets !in Busy(e, q)
    ensures forall p :: p != q ==> Busy(Act(e, Launch(q)), p) == Busy(e, p)
  {
    hide Valid;
    forall p | p != q ensures Busy(Act(e, Launch(q)), p) == Busy(e, p) {}
  }

  lemma LaunchCapacity(e: Oban, q: string)
    requires Valid(e.store) && Capacity(e) && Can(e, Launch(q))
    requires e.queues[q].dispatch.pending[0].queue == q && e.tickets !in e.attempts
    ensures Capacity(Act(e, Launch(q)))
  {
    hide Valid, Busy;
    BusyLaunch(e, q);
  }

  lemma FreeCapacity(e: Oban, n: int)
    requires Valid(e.store) && Capacity(e) && Can(e, Free(n))
    ensures Capacity(Act(e, Free(n)))
  {
    var e' := Act(e, Free(n));
    var q := e.attempts[n].job.queue;
    assert Busy(e', q) == Busy(e, q) - {n};
    forall p | p != q ensures Busy(e', p) == Busy(e, p) {}
  }

  // ---- Ownership ----

  /** Jobs that are executing and unchanged stay current. */
  lemma CurrentKept(e: Oban, e': Oban, j: Job)
    requires Current(e, j)
    requires j.id in e.store.jobs ==> j.id in e'.store.jobs && e'.store.jobs[j.id] == e.store.jobs[j.id]
    ensures Current(e', j)
  {
  }

  lemma StoreKeepsExecuting(e: Oban, a: Action, id: int)
    requires Valid(e.store) && Can(e, a) && id in e.store.jobs && e.store.jobs[id].state.Executing?
    requires a.Record? ==> e.attempts[a.ticket].job.id != id
    ensures id in Act(e, a).store.jobs && Act(e, a).store.jobs[id] == e.store.jobs[id]
  {
    hide FinishJob, FetchStep, Fetched;
    match a {
      case FetchJobs(q, ok, now) =>
        if ok { FetchSkipsExecuting(e.store, q, e.queues[q].dispatch.free, now, id); }
      case Client(job, wall) => assert e.store.nextID + 1 !in e.store.jobs;
      case _ =>
    }
  }

  /** What a successful fetch hands out: current clones of the queue, one per job, none executing before. */
  lemma FetchedFacts(e: Oban, q: string, now: Instant)
    requires Valid(e.store) && Can(e, FetchJobs(q, true, now))
    ensures var e', js := Act(e, FetchJobs(q, true, now)), Fetched(e.store, q, e.queues[q].dispatch.free, now);
      && (forall i :: 0 <= i < |js| ==>
            Current(e', js[i]) && js[i].queue == q && js[i].id in e.store.jobs && !e.store.jobs[js[i].id].state.Executing?)
      && (forall i, k :: 0 <= i < k < |js| ==> js[i].id != js[k].id)
  {
    hide Ranks, Candidates, Before;
    var free := e.queues[q].dispatch.free;
    var picked, js := Picked(e.store, q, free, now), Fetched(e.store, q, free, now);
    PickedFacts(e.store, q, free, now);
    ElementsAt(picked);
    forall i, k | 0 <= i < k < |js| ensures js[i].id != js[k].id {
      OrderedApart(picked, i, k);
    }
  }

  lemma OrderedApart(js: seq<Job>, i: int, k: int)
    requires Ordered(js) && 0 <= i < k < |js|
    ensures js[i] != js[k]
  {
    assert Before(js[i], js[k]);
  }

  ghost predicate Hands(js: seq<Job>, id: int) {
    exists i :: 0 <= i < |js| && js[i].id == id
  }

  lemma FetchedExecuting(e: Oban, q: string, now: Instant, id: int)
    requires Valid(e.store) && Can(e, FetchJobs(q, true, now))
    requires var e' := Act(e, FetchJobs(q, true, now)); id in e'.store.jobs && e'.store.jobs[id].state.Executing?
    ensures (id in e.store.jobs && e.store.jobs[id].state.Executing?)
      || Hands(Fetched(e.store, q, e.queues[q].dispatch.free, now), id)
  {
    hide Booked, Spaced, Picked;
    var free := e.queues[q].dispatch.free;
    var picked := Picked(e.store, q, free, now);
    FetchEffect(Abstract(e), q, free, now);
    if id in IdsOf(picked) {
      var i :| 0 <= i < |picked| && picked[i].id == id;
      assert Fetched(e.store, q, free, now)[i].id == id;
    }
  }

  /** e' has the owners of e or fewer, in the same places. */
  ghost predicate SameOwners(e: Oban, e': Oban) {
    && e'.queues.Keys == e.queues.Keys && e'.tickets == e.tickets
    && (forall n :: n in e'.attempts ==> n in e.attempts && e'.attempts[n].job == e.attempts[n].job)
    && (forall n :: RunningAt(e', n) ==> RunningAt(e, n))
    && (forall q :: Pending(e', q) ==> Pending(e, q) && e'.queues[q].dispatch == e.queues[q].dispatch)
  }

  lemma OwnersTransfer(e: Oban, e': Oban)
    requires Owners(e) && SameOwners(e, e') && forall j :: Current(e, j) ==> Current(e', j)
    ensures Owners(e')
  {
    hide Current;
  }

  lemma AttemptsSame(e: Oban, a: Action, n: int)
    requires Valid(e.store) && Can(e, a) && !a.Launch? && n in Act(e, a).attempts
    ensures n in e.attempts && Act(e, a).attempts[n].job == e.attempts[n].job
    ensures RunningAt(Act(e, a), n) ==> RunningAt(e, n)
  {
    hide Valid, EnqueueStep, FetchStep, FinishJob, Fetched;
  }

  lemma PendingSame(e: Oban, a: Action, q: string)
    requires Valid(e.store) && Can(e, a) && !a.Launch? && !(a.FetchJobs? && a.ok) && Pending(Act(e, a), q)
    ensures Pending(e, q) && Act(e, a).queues[q].dispatch == e.queues[q].dispatch
  {
    hide Valid, EnqueueStep, FetchStep, FinishJob, Fetched;
  }

  lemma OwnersSame(e: Oban, a: Action)
    requires Valid(e.store) && Can(e, a) && !a.Launch? && !(a.FetchJobs? && a.ok)
    ensures SameOwners(e, Act(e, a))
  {
    var e' := Act(e, a);
    hide Valid, Can, Act, RunningAt, Pending;
    SameShape(e, a);
    forall n | n in e'.attempts ensures n in e.attempts && e'.attempts[n].job == e.attempts[n].job {
      AttemptsSame(e, a, n);
    }
    forall n | RunningAt(e', n) ensures RunningAt(e, n) {
      RunningInAttempts(e', n);
      AttemptsSame(e, a, n);
    }
    forall q | Pending(e', q)
      ensures q in e'.queues && q in e.queues && Pending(e, q) && e'.queues[q].dispatch == e.queues[q].dispatch
    {
      PendingInQueues(e', q);
      PendingSame(e, a, q);
    }
  }

  lemma PendingInQueues(e: Oban, q: string)
    requires Pending(e, q)
    ensures q in e.queues
  {
  }

  lemma SameShape(e: Oban, a: Action)
    requires Valid(e.store) && Can(e, a)
    ensures Act(e, a).queues.Keys == e.queues.Keys && (!a.Launch? ==> Act(e, a).tickets == e.tickets)
  {
    hide Valid, EnqueueStep, FetchStep, FinishJob, Fetched, Act, Can;
    TicketsSame(e, a);
    forall q ensures q in Act(e, a).queues <==> q in e.queues {
      QueueKept(e, a, q);
    }
  }

  lemma TicketsSame(e: Oban, a: Action)
    requires Valid(e.store) && Can(e, a)
    ensures !a.Launch? ==> Act(e, a).tickets == e.tickets
  {
    hide Valid, EnqueueStep, FetchStep, FinishJob, Fetched;
  }

  lemma QueueKept(e: Oban, a: Action, q: string)
    requires Valid(e.store) && Can(e, a)
    ensures q in Act(e, a).queues <==> q in e.queues
  {
    hide Valid, EnqueueStep, FetchStep, FinishJob, Fetched;
  }

  lemma RunningInAttempts(e: Oban, n: int)
    requires RunningAt(e, n)
    ensures n in e.attempts
  {
  }

  lemma OwnersKept(e: Oban, a: Action)
    requires EngineInv(e) && Can(e, a) && !a.Launch? && !a.Record? && !(a.FetchJobs? && a.ok)
    ensures Owners(Act(e, a))
  {
    hide Capacity, AllOwned, Lifecycle, Current, Can, Act, Valid, Owners, SameOwners;
    var e' := Act(e, a);
    forall j | Current(e, j) ensures Current(e', j) {
      StillCurrent(e, a, j);
    }
    OwnersSame(e, a);
    OwnersTransfer(e, e');
  }

  lemma StillCurrent(e: Oban, a: Action, j: Job)
    requires EngineInv(e) && Can(e, a) && Current(e, j)
    requires a.Record? ==> e.attempts[a.ticket].job.id != j.id
    ensures Valid(e.store) && Current(Act(e, a), j)
  {
    assert Valid(e.store);
    hide EngineInv, Can, Act, Valid;
    StoreKeepsExecuting(e, a, j.id);
  }

  lemma OwnersFetch(e: Oban, q: string, now: Instant)
    requires EngineInv(e) && Can(e, FetchJobs(q, true, now))
    ensures Owners(Act(e, FetchJobs(q, true, now)))
  {
    hide Valid, Capacity, AllOwned, Lifecycle, FetchStep, Fetched, Current;
    var a := FetchJobs(q, true, now);
    var e' := Act(e, a);
    assert e'.attempts == e.attempts && e'.tickets == e.tickets && e'.queues.Keys == e.queues.Keys;
    FetchedFacts(e, q, now);
    FetchedNew(e, q, now);
    assert e'.queues[q].dispatch.pending == Fetched(e.store, q, e.queues[q].dispatch.free, now);
    forall n | RunningAt(e', n) ensures Current(e', e'.attempts[n].job) {
      assert RunningAt(e, n);
      StillCurrent(e, a, e.attempts[n].job);
    }
    forall p, i | Pending(e', p) && p != q && 0 <= i < |e'.queues[p].dispatch.pending|
      ensures Pending(e, p) && e'.queues[p] == e.queues[p] && Current(e', e'.queues[p].dispatch.pending[i])
    {
      assert Pending(e, p) && e'.queues[p] == e.queues[p];
      StillCurrent(e, a, e.queues[p].dispatch.pending[i]);
    }
    forall n | RunningAt(e', n) ensures RunningAt(e, n) {}
  }

  lemma FetchedNew(e: Oban, q: string, now: Instant)
    requires Valid(e.store) && Owners(e) && Can(e, FetchJobs(q, true, now))
    ensures var js := Fetched(e.store, q, e.queues[q].dispatch.free, now);
      forall i, n :: 0 <= i < |js| && RunningAt(e, n) ==> js[i].id != e.attempts[n].job.id
  {
    hide Fetched, FetchStep;
    FetchedFacts(e, q, now);
  }

  lemma OwnersLaunch(e: Oban, q: string)
    requires Valid(e.store) && Owners(e) && Can(e, Launch(q))
    ensures Owners(Act(e, Launch(q)))
  {
    hide Current;
    var e' := Act(e, Launch(q));
    var s := e.queues[q].dispatch.pending;
    assert Pending(e, q);
    forall j | Current(e, j) ensures Current(e', j) { CurrentKept(e, e', j); }
    forall p | Pending(e', p) ensures Pending(e, p) && (p != q ==> e'.queues[p] == e.queues[p]) {}
    forall n | RunningAt(e', n) && n != e.tickets ensures RunningAt(e, n) && e'.attempts[n] == e.attempts[n] {}
    forall i | 0 <= i < |s[1..]| ensures s[1..][i] == s[i + 1] {}
    forall p, i | Pending(e', p) && 0 <= i < |e'.queues[p].dispatch.pending|
      ensures e'.queues[p].dispatch.pending[i].id != s[0].id
      ensures Current(e', e'.queues[p].dispatch.pending[i]) && e'.queues[p].dispatch.pending[i].queue == p
    {
      if p == q {
        assert s[i + 1].id != s[0].id;
      } else {
        DifferentQueues(e, p, i, q, 0);
      }
    }
  }

  lemma DifferentQueues(e: Oban, p: string, i: int, q: string, k: int)
    requires Owners(e) && p != q && Pending(e, p) && Pending(e, q)
    requires 0 <= i < |e.queues[p].dispatch.pending| && 0 <= k < |e.queues[q].dispatch.pending|
    ensures e.queues[p].dispatch.pending[i].id != e.queues[q].dispatch.pending[k].id
  {
  }

  lemma OwnersRecord(e: Oban, a: Action)
    requires EngineInv(e) && Can(e, a) && a.Record?
    ensures Owners(Act(e, a))
  {
    hide Valid, Capacity, AllOwned, Lifecycle, FinishJob, Current;
    var e' := Act(e, a);
    assert RunningAt(e, a.ticket);
    forall q | Pending(e', q) ensures Pending(e, q) && e'.queues[q] == e.queues[q] {}
    forall q, i | Pending(e, q) && 0 <= i < |e.queues[q].dispatch.pending|
      ensures Current(e', e.queues[q].dispatch.pending[i])
    {
      StillCurrent(e, a, e.queues[q].dispatch.pending[i]);
    }
    forall n | RunningAt(e', n) ensures RunningAt(e, n) && Current(e', e.attempts[n].job) && e'.attempts[n] == e.attempts[n] {
      StillCurrent(e, a, e.attempts[n].job);
    }
  }

  lemma RunnerKept(e: Oban, a: Action, n: int)
    requires Valid(e.store) && Can(e, a) && RunningAt(e, n) && n < e.tickets && !(a.Record? && a.ticket == n)
    ensures RunningAt(Act(e, a), n) && Act(e, a).attempts[n] == e.attempts[n]
  {
    hide EnqueueStep, FetchStep, FinishJob, Fetched;
  }

  lemma WaitingLaunched(e: Oban, q: string, i: int)
    requires Valid(e.store) && Can(e, Launch(q)) && 0 <= i < |e.queues[q].dispatch.pending|
    ensures Owned(Act(e, Launch(q)), e.queues[q].dispatch.pending[i].id)
  {
    hide Valid;
    var e' := Act(e, Launch(q));
    if i == 0 {
      assert RunningAt(e', e.tickets);
    } else {
      assert Pending(e', q) && e'.queues[q].dispatch.pending[i - 1] == e.queues[q].dispatch.pending[i];
    }
  }

  lemma WaitingKept(e: Oban, a: Action, q: string, i: int)
    requires Valid(e.store) && Can(e, a) && Pending(e, q) && 0 <= i < |e.queues[q].dispatch.pending|
    ensures Owned(Act(e, a), e.queues[q].dispatch.pending[i].id)
  {
    if a == Launch(q) {
      WaitingLaunched(e, q, i);
    } else {
      hide Can, Act;
      WaitingElsewhere(e, a, q, i);
    }
  }

  lemma WaitingElsewhere(e: Oban, a: Action, q: string, i: int)
    requires Valid(e.store) && Can(e, a) && Pending(e, q) && 0 <= i < |e.queues[q].dispatch.pending| && a != Launch(q)
    ensures Pending(Act(e, a), q) && Act(e, a).queues[q].dispatch == e.queues[q].dispatch
  {
    hide Valid, EnqueueStep, FetchStep, FinishJob, Fetched;
  }

  /** A step takes an owner from a job only by recording its result. */
  lemma OwnedKept(e: Oban, a: Action, id: int)
    requires Valid(e.store) && Owners(e) && Can(e, a) && Owned(e, id)
    requires a.Record? ==> e.attempts[a.ticket].job.id != id
    ensures Owned(Act(e, a), id)
  {
    hide Current, Act, Can;
    if n :| RunningAt(e, n) && e.attempts[n].job.id == id {
      RunnerKept(e, a, n);
    } else {
      var q, i :| Pending(e, q) && 0 <= i < |e.queues[q].dispatch.pending| && e.queues[q].dispatch.pending[i].id == id;
      WaitingKept(e, a, q, i);
    }
  }

  /** Recording a result leaves its own job no longer executing, and others as they were. */
  lemma ExecutingBeforeRecord(e: Oban, a: Action, id: int)
    requires Valid(e.store) && Owners(e) && Can(e, a) && a.Record?
    requires id in Act(e, a).store.jobs && Act(e, a).store.jobs[id].state.Executing?
    ensures id in e.store.jobs && e.store.jobs[id].state.Executing? && e.attempts[a.ticket].job.id != id
  {
    hide Booked, Spaced, FinishJob;
    assert RunningAt(e, a.ticket);
    FinishedStops(e.attempts[a.ticket].job, a.outcome, a.retryAt, a.now);
  }

  lemma ExecutingBeforeOther(e: Oban, a: Action, id: int)
    requires Valid(e.store) && Can(e, a) && !a.Record? && !(a.FetchJobs? && a.ok)
    requires id in Act(e, a).store.jobs && Act(e, a).store.jobs[id].state.Executing?
    ensures id in e.store.jobs && e.store.jobs[id].state.Executing?
  {
    hide Valid, FetchStep, Fetched, FinishJob;
  }

  /** A job executing after a step was executing before, or has just been fetched. */
  lemma ExecutingBefore(e: Oban, a: Action, id: int)
    requires EngineInv(e) && Can(e, a) && Valid(e.store)
    requires id in Act(e, a).store.jobs && Act(e, a).store.jobs[id].state.Executing?
    ensures (id in e.store.jobs && e.store.jobs[id].state.Executing? && (a.Record? ==> e.attempts[a.ticket].job.id != id))
      || (a.FetchJobs? && a.ok && Hands(Fetched(e.store, a.queue, e.queues[a.queue].dispatch.free, a.now), id))
  {
    hide Owners, Capacity, Lifecycle, AllOwned, Act, Hands, Fetched, Valid;
    if a.Record? {
      ExecutingBeforeRecord(e, a, id);
    } else if a.FetchJobs? && a.ok {
      FetchedExecuting(e, a.queue, a.now, id);
    } else {
      ExecutingBeforeOther(e, a, id);
    }
  }

  lemma OrphansStay(e: Oban, a: Action)
    requires Valid(e.store) && Can(e, a)
    ensures Act(e, a).orphans == e.orphans
  {
    hide Valid, EnqueueStep, FetchStep, FinishJob, Fetched;
  }

  lemma AllOwnedKeeps(e: Oban, a: Action)
    requires EngineInv(e) && Can(e, a)
    ensures AllOwned(Act(e, a))
  {
    hide Capacity, Owners, Lifecycle, Owned, Act, Hands, Valid;
    var e' := Act(e, a);
    OrphansStay(e, a);
    forall id | id in e'.store.jobs && e'.store.jobs[id].state.Executing? && id !in e'.orphans ensures Owned(e', id) {
      ExecutingBefore(e, a, id);
      if id in e.store.jobs && e.store.jobs[id].state.Executing? && (a.Record? ==> e.attempts[a.ticket].job.id != id) {
        OwnedKept(e, a, id);
      } else {
        FreshOwned(e, a, id);
      }
    }
  }

  lemma FreshOwned(e: Oban, a: Action, id: int)
    requires Valid(e.store) && Can(e, a) && a.FetchJobs? && a.ok
    requires Hands(Fetched(e.store, a.queue, e.queues[a.queue].dispatch.free, a.now), id)
    ensures Owned(Act(e, a), id)
  {
    assert Pending(Act(e, a), a.queue);
  }

  /** The wait group counts the attempts. */
  lemma WaitGroupKeeps(e: Oban, a: Action)
    requires Valid(e.store) && Can(e, a) && e.jobWG == |e.attempts| && e.tickets !in e.attempts
    ensures Act(e, a).jobWG == |Act(e, a).attempts|
  {
    hide EnqueueStep, FetchStep, FinishJob, Fetched, Valid;
    if a.Exit? {
      SizeRemove(e.attempts, a.ticket);
    } else if a.Record? {
      SizeUpdate(e.attempts, a.ticket, e.attempts[a.ticket].(phase := Stored));
    } else if a.Free? {
      SizeUpdate(e.attempts, a.ticket, e.attempts[a.ticket].(phase := Freed));
    } else if a.Launch? {
      SizeUpdate(e.attempts, e.tickets, Attempt(e.queues[a.queue].dispatch.pending[0], Running));
    } else {
      WaitGroupSame(e, a);
    }
  }

  lemma WaitGroupSame(e: Oban, a: Action)
    requires Valid(e.store) && Can(e, a) && !a.Exit? && !a.Record? && !a.Free? && !a.Launch?
    ensures Act(e, a).jobWG == e.jobWG && Act(e, a).attempts == e.attempts
  {
    hide EnqueueStep, FetchStep, FinishJob, Fetched, Valid;
  }

  lemma SizeRemove(m: map<int, Attempt>, n: int)
    requires n in m
    ensures |m - {n}| == |m| - 1
  {
    assert m.Keys == (m - {n}).Keys + {n};
  }

  lemma SizeUpdate(m: map<int, Attempt>, n: int, v: Attempt)
    ensures |m[n := v]| == |m| + (if n in m then 0 else 1)
  {
    assert m[n := v].Keys == m.Keys + {n};
  }

  lemma LoopsKeep(e: Oban, a: Action)
    requires Valid(e.store) && Can(e, a) && Lifecycle(e)
    ensures var e' := Act(e, a);
      && (e'.stopped ==> e'.started && e'.pollCancelled)
      && (forall q :: q in e'.queues && !e'.queues[q].looping ==> e'.queues[q].dispatch.Idle?)
      && (!e'.started ==> e'.attempts == map[] && forall q :: q in e'.queues ==> !e'.queues[q].looping)
      && (e'.stopReturned ==> e'.stopped && e'.attempts == map[] && forall q :: q in e'.queues ==> !e'.queues[q].looping)
  {
    hide Valid, EnqueueStep, FetchStep, FinishJob, Fetched;
    if |e.attempts| == 0 {
      EmptyAttempts(e);
    }
    match a {
      case Record(n, _, _, _) => assert e.attempts != map[];
      case Free(n) => assert e.attempts != map[];
      case _ =>
    }
  }

  lemma LifecycleKeeps(e: Oban, a: Action)
    requires EngineInv(e) && Can(e, a)
    ensures Lifecycle(Act(e, a))
  {
    hide Capacity, Current, AllOwned, Can, Act, Valid;
    WaitGroupKeeps(e, a);
    LoopsKeep(e, a);
  }

  lemma EmptyAttempts(e: Oban)
    requires |e.attempts| == 0
    ensures e.attempts == map[]
  {
  }

  lemma ValidKeeps(e: Oban, a: Action)
    requires EngineInv(e) && Can(e, a)
    ensures Valid(Act(e, a).store)
  {
    hide Valid, Capacity, Owners, AllOwned, Lifecycle, Act, Do, Can, Held;
    Refines(e, a);
    if StoreStep(e, a).Some? {
      StepValid(Abstract(e), StoreStep(e, a).value);
    }
  }

  lemma EngineKeeps(e: Oban, a: Action)
    requires EngineInv(e) && Can(e, a)
    ensures EngineInv(Act(e, a))
  {
    hide Valid, Capacity, Owners, AllOwned, Lifecycle, Act;
    ValidKeeps(e, a);
    CapacityKeeps(e, a);
    if a.Launch? {
      OwnersLaunch(e, a.queue);
    } else if a.Record? {
      OwnersRecord(e, a);
    } else if a.FetchJobs? && a.ok {
      OwnersFetch(e, a.queue, a.now);
    } else {
      OwnersKept(e, a);
    }
    AllOwnedKeeps(e, a);
    LifecycleKeeps(e, a);
  }

  // ---- Whole engine runs ----

  ghost predicate Follows(d: Oban, a: Action, e: Oban) {
    Valid(d.store) && Can(d, a) && e == Act(d, a)
  }

  /** states are what a new engine goes through in some interleaving of its steps. */
  ghost predicate EngineRun(states: seq<Oban>, actions: seq<Action>) {
    && |states| == |actions| + 1 && Fresh(states[0])
    && forall i :: 0 <= i < |actions| ==> Follows(states[i], actions[i], states[i + 1])
  }

  lemma {:induction false} EngineRunInv(states: seq<Oban>, actions: seq<Action>, k: nat)
    requires EngineRun(states, actions) && k < |states|
    ensures EngineInv(states[k])
  {
    hide EngineInv, Can, Act, Fresh;
    if k == 0 {
      FreshInv(states[0]);
    } else {
      EngineRunInv(states, actions, k - 1);
      assert Follows(states[k - 1], actions[k - 1], states[k]);
      EngineKeeps(states[k - 1], actions[k - 1]);
    }
  }

  lemma EveryMoment(states: seq<Oban>, actions: seq<Action>, e: Oban)
    requires EngineRun(states, actions) && e in states
    ensures EngineInv(e)
  {
    hide EngineInv;
    var k :| 0 <= k < |states| && states[k] == e;
    EngineRunInv(states, actions, k);
  }

  /** Every interleaving drives the store through an owner run from where the engine found it. */
  lemma {:induction false} EngineRefinesOwnerRuns(states: seq<Oban>, actions: seq<Action>, k: nat) returns (steps: seq<Step>)
    requires EngineRun(states, actions) && k < |states|
    ensures Leads(Abstract(states[0]), steps, Abstract(states[k]))
  {
    hide EngineInv, Can, Act, Abstract, Do, Fresh;
    if k == 0 {
      steps := [];
    } else {
      var d, a := states[k - 1], actions[k - 1];
      steps := EngineRefinesOwnerRuns(states, actions, k - 1);
      EngineRunInv(states, actions, k - 1);
      assert Follows(d, a, states[k]);
      Refines(d, a);
      match StoreStep(d, a) {
        case None =>
        case Some(step) =>
          AbstractValid(d);
          LeadsMore(Abstract(states[0]), steps, Abstract(d), step);
          steps := steps + [step];
      }
    }
  }

  /** ... so the laws of owner runs hold at every moment if they held of the store the engine was given. */
  lemma EngineKeepsLaws(states: seq<Oban>, actions: seq<Action>, e: Oban)
    requires EngineRun(states, actions) && e in states && Inv(Abstract(states[0]))
    ensures Inv(Abstract(e))
  {
    hide Inv, Leads, EngineRun, Abstract;
    var k :| 0 <= k < |states| && states[k] == e;
    var steps := EngineRefinesOwnerRuns(states, actions, k);
    LeadsKeep(Abstract(states[0]), steps, Abstract(e));
  }

  lemma AbstractValid(e: Oban)
    requires Valid(e.store)
    ensures Valid(Abstract(e).store)
  {
  }

  /** The slot send of dispatch never blocks. */
  lemma SendNeverBlocks(states: seq<Oban>, actions: seq<Action>, e: Oban, q: string)
    requires EngineRun(states, actions) && e in states
    requires q in e.queues && e.queues[q].dispatch.Launching? && e.queues[q].dispatch.pending != []
    ensures Can(e, Launch(q))
    ensures e.queues[q].slots + |e.queues[q].dispatch.pending| <= e.queues[q].capacity
  {
    EveryMoment(states, actions, e);
  }

  /** No queue ever runs more attempts than its concurrency. */
  lemma ConcurrencyBound(states: seq<Oban>, actions: seq<Action>, e: Oban, q: string)
    requires EngineRun(states, actions) && e in states && q in e.queues
    ensures |Busy(e, q)| <= e.queues[q].capacity
  {
    EveryMoment(states, actions, e);
  }

  /** An owner of a job: a running attempt, or a place in a queue's list of fetched jobs. */
  datatype Owner = Runner(ticket: int) | Waiting(queue: string, index: int)

  predicate Owns(e: Oban, o: Owner, id: int) {
    match o
    case Runner(n) => RunningAt(e, n) && e.attempts[n].job.id == id
    case Waiting(q, i) =>
      Pending(e, q) && 0 <= i < |e.queues[q].dispatch.pending| && e.queues[q].dispatch.pending[i].id == id
  }

  /** In every interleaving each job the engine has put to work has exactly one owner. */
  lemma ExactlyOneOwner(states: seq<Oban>, actions: seq<Action>, e: Oban, id: int)
    requires EngineRun(states, actions) && e in states
    requires id in e.store.jobs && e.store.jobs[id].state.Executing? && id !in e.orphans
    ensures exists o :: Owns(e, o, id)
    ensures forall o, p :: Owns(e, o, id) && Owns(e, p, id) ==> o == p
  {
    EveryMoment(states, actions, e);
    assert Owned(e, id);
    hide Valid, Capacity, Lifecycle, Current, AllOwned, EngineRun;
    SomeOwner(e, id);
    hide Owned;
    forall o, p | Owns(e, o, id) && Owns(e, p, id) ensures o == p {
      OneOwner(e, o, p, id);
    }
  }

  lemma SomeOwner(e: Oban, id: int)
    requires Owned(e, id)
    ensures exists o :: Owns(e, o, id)
  {
    if n :| RunningAt(e, n) && e.attempts[n].job.id == id {
      assert Owns(e, Runner(n), id);
    } else {
      var q, i :| Pending(e, q) && 0 <= i < |e.queues[q].dispatch.pending| && e.queues[q].dispatch.pending[i].id == id;
      assert Owns(e, Waiting(q, i), id);
    }
  }

  lemma OneOwner(e: Oban, o: Owner, p: Owner, id: int)
    requires Owners(e) && Owns(e, o, id) && Owns(e, p, id)
    ensures o == p
  {
  }

  lemma {:induction false} SameOrphans(states: seq<Oban>, actions: seq<Action>, k: nat)
    requires EngineRun(states, actions) && k < |states|
    ensures states[k].orphans == states[0].orphans
  {
    hide Act, Can, Fresh;
    if k == 0 {
    } else {
      SameOrphans(states, actions, k - 1);
      assert Follows(states[k - 1], actions[k - 1], states[k]);
      OrphansStay(states[k - 1], actions[k - 1]);
    }
  }

  lemma StopReturnedLasts(d: Oban, a: Action)
    requires Valid(d.store) && Can(d, a) && d.stopReturned
    ensures Act(d, a).stopReturned
  {
    hide Valid, EnqueueStep, FetchStep, FinishJob, Fetched;
  }

  lemma {:induction false} StaysReturned(states: seq<Oban>, actions: seq<Action>, i: nat, j: nat)
    requires EngineRun(states, actions) && i <= j < |states| && states[i].stopReturned
    ensures states[j].stopReturned
    decreases j
  {
    hide Act, Can, Fresh;
    if i == j {
    } else {
      StaysReturned(states, actions, i, j - 1);
      assert Follows(states[j - 1], actions[j - 1], states[j]);
      StopReturnedLasts(states[j - 1], actions[j - 1]);
    }
  }

  /** From the moment Stop has returned, nothing is in flight and no job the engine fetched is left executing. */
  lemma StopQuiesces(states: seq<Oban>, actions: seq<Action>, i: nat, j: nat)
    requires EngineRun(states, actions) && i <= j < |states| && states[i].stopReturned
    ensures states[j].attempts == map[]
    ensures forall id :: id in states[j].store.jobs && states[j].store.jobs[id].state.Executing? ==> id in states[0].orphans
  {
    var e := states[j];
    StaysReturned(states, actions, i, j);
    EngineRunInv(states, actions, j);
    hide Valid, Capacity, Owners, EngineRun;
    SameOrphans(states, actions, j);
    forall id | id in e.store.jobs && e.store.jobs[id].state.Executing? ensures id in e.orphans {
      assert !Owned(e, id);
    }
  }

  /** ... and from then on only clients can still change anything. */
  lemma StopIsFinal(states: seq<Oban>, actions: seq<Action>, e: Oban, a: Action)
    requires EngineRun(states, actions) && e in states && e.stopReturned && Can(e, a)
    ensures a.Client? || a.CancelContext? || a.StopReturn?
  {
    EveryMoment(states, actions, e);
    hide Valid, Capacity, Owners, AllOwned, Abstract;
  }
}
