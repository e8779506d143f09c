/**
 Whole runs of the in-memory store under the ownership discipline of the engine
 and of Drain: jobs are enqueued, fetched, and each fetched job is finished by
 the runner that holds it. Attempt bookkeeping, uniqueness and the error
 history are invariants of every such run.
 */
module OwnerRuns {
  import opened Options
  import opened Calendar
  import opened Jobs
  import opened StoreSpec

  /** How a runner ends an attempt. */
  datatype Outcome =
    | Succeeded
    | Failed(message: string)
    | Unregistered(message: string)
    | OwnerCancels
    | OwnerSnoozes(until: Instant)

  datatype Step =
    | EnqueueJob(job: Job, wall: Instant)
    | Fetch(queue: string, limit: int, now: Instant)
    | Finish(id: int, outcome: Outcome, retryAt: Instant, now: Instant)

  /** The store, and the clones runners hold of the jobs they were handed. */
  datatype Run = Run(store: StoreState, held: map<int, Job>)

  const START := Run(StoreState(map[], 0), map[])

  /** The store call a runner makes, decided on its clone. */
  function FinishJob(j: Job, clone: Job, outcome: Outcome, retryAt: Instant, now: Instant): Job {
    match outcome
    case Succeeded => CompletedJob(j, now)
    case Failed(m) =>
      if clone.attempt >= clone.maxAttempts then DiscardedJob(j, Some(m), now)
      else RetriedJob(j, retryAt, Some(m), now)
    case Unregistered(m) => DiscardedJob(j, Some(m), now)
    case OwnerCancels => CancelledJob(j, now)
    case OwnerSnoozes(until) => SnoozedJob(j, until)
  }

  /** Enqueued jobs come from NewJob; only a holder finishes a job. */
  predicate Enabled(r: Run, step: Step) {
    match step
    case EnqueueJob(job, _) => Unstarted(job)
    case Fetch(_, _, _) => true
    case Finish(id, _, _, _) => id in r.held && id in r.store.jobs
  }

  function CloneMap(js: seq<Job>): map<int, Job> {
    if js == [] then map[] else CloneMap(js[..|js| - 1])[js[|js| - 1].id := js[|js| - 1]]
  }

  ghost function Do(r: Run, step: Step): Run
    requires Valid(r.store) && Enabled(r, step)
  {
    match step
    case EnqueueJob(job, wall) => r.(store := EnqueueStep(r.store, job, wall))
    case Fetch(queue, limit, now) =>
      Run(FetchStep(r.store, queue, limit, now), r.held + CloneMap(Fetched(r.store, queue, limit, now)))
    case Finish(id, outcome, retryAt, now) =>
      Run(Put(r.store, id, FinishJob(r.store.jobs[id], r.held[id], outcome, retryAt, now)), r.held - {id})
  }

  // ---- The invariant ----

  /** Attempts of j that ended without an error, or have not ended. */
  function Clear(j: Job): int {
    if j.state.Executing? || j.state.Completed? || j.state.Cancelled? then 1 else 0
  }

  ghost predicate Booked(j: Job) {
    && |j.errors| + Clear(j) == j.attempt
    && (forall i :: 0 <= i < |j.errors| ==> j.errors[i].attempt == i + 1)
    && j.attempt <= j.maxAttempts
    && (Fetchable(j.state) ==> j.attempt < j.maxAttempts)
  }

  ghost predicate Spaced(s: StoreState) {
    forall a, b :: a in s.jobs && b in s.jobs && a < b && Rivals(s.jobs[a], s.jobs[b]) ==>
      s.jobs[a].insertedAt < s.jobs[b].insertedAt - s.jobs[b].uniquePeriod
  }

  /** Two unfinished jobs with one queue, worker and key, the later one unique. */
  predicate Rivals(a: Job, b: Job) {
    && Unfinished(a.state) && Unfinished(b.state) && Unique(b)
    && a.queue == b.queue && a.worker == b.worker && a.uniqueKey == b.uniqueKey
  }

  /** The held clones are exactly the executing jobs, as stored. */
  ghost predicate OwnersMatch(r: Run) {
    && (forall id :: id in r.held ==> id in r.store.jobs && r.held[id] == r.store.jobs[id])
    && (forall id :: id in r.store.jobs ==> (id in r.held <==> r.store.jobs[id].state.Executing?))
  }

  ghost predicate Inv(r: Run) {
    && Valid(r.store)
    && OwnersMatch(r)
    && (forall id :: id in r.store.jobs ==> Booked(r.store.jobs[id]))
    && Spaced(r.store)
  }

  // ---- Steps keep it ----

  /** What a fetch does to a run, job by job. */
  lemma FetchEffect(r: Run, queue: string, limit: int, now: Instant)
    requires Valid(r.store)
    ensures var r', ids := Do(r, Fetch(queue, limit, now)), IdsOf(Picked(r.store, queue, limit, now));
      && Valid(r'.store) && ids <= r.store.jobs.Keys && r'.store.nextID == r.store.nextID
      && (forall id :: id in ids ==> Eligible(r.store.jobs[id], queue, now))
      && r'.store.jobs == MarkJobs(r.store.jobs, ids, now)
      && r'.held.Keys == r.held.Keys + ids
      && (forall id :: id in ids ==> r'.held[id] == r'.store.jobs[id])
      && (forall id :: id in r.held && id !in ids ==> r'.held[id] == r.held[id])
  {
    var js := Picked(r.store, queue, limit, now);
    PickedFacts(r.store, queue, limit, now);
    CloneFacts(js, r.store.jobs, now);
  }

  lemma {:induction false} CloneFacts(js: seq<Job>, jobs: map<int, Job>, now: Instant)
    requires forall i :: 0 <= i < |js| ==> js[i].id in jobs && jobs[js[i].id] == js[i]
    ensures CloneMap(MarkedAll(js, now)).Keys == IdsOf(js)
    ensures forall id :: id in IdsOf(js) ==> id in jobs && CloneMap(MarkedAll(js, now))[id] == Marked(jobs[id], now)
  {
    if js == [] {
    } else {
      var n := |js| - 1;
      CloneFacts(js[..n], jobs, now);
      CloneLast(js, now);
    }
  }

  lemma CloneLast(js: seq<Job>, now: Instant)
    requires js != []
    ensures var n := |js| - 1;
      && CloneMap(MarkedAll(js, now)) == CloneMap(MarkedAll(js[..n], now))[js[n].id := Marked(js[n], now)]
      && IdsOf(js) == IdsOf(js[..n]) + {js[n].id}
  {
    var n := |js| - 1;
    assert MarkedAll(js, now)[..n] == MarkedAll(js[..n], now);
    assert js == js[..n] + [js[n]];
    AppendPicked(js[..n], [js[n]], now);
    assert IdsOf([js[n]]) == {js[n].id};
  }

  lemma EnqueueKeeps(r: Run, job: Job, wall: Instant)
    requires Inv(r) && Unstarted(job)
    ensures Inv(Do(r, EnqueueJob(job, wall)))
  {
    var now := InsertTime(job, wall);
    var s, s' := r.store, EnqueueStep(r.store, job, wall);
    if !Blocked(s, job, now) {
      var id := s.nextID + 1;
      forall a | a in s.jobs && Rivals(s.jobs[a], s'.jobs[id])
        ensures s.jobs[a].insertedAt < now - job.uniquePeriod
      {
        assert !ConflictsWith(s.jobs[a], job, now);
      }
    }
  }

  lemma MarkedBooked(j: Job, now: Instant)
    requires Booked(j) && Fetchable(j.state)
    ensures var j' := Marked(j, now);
      && Booked(j') && j'.state.Executing? && j'.id == j.id
      && (forall b: Job :: Rivals(j', b) ==> Rivals(j, b))
      && (forall a: Job :: Rivals(a, j') ==> Rivals(a, j))
      && j'.insertedAt == j.insertedAt && j'.uniquePeriod == j.uniquePeriod
  {
  }

  lemma FetchKeeps(r: Run, queue: string, limit: int, now: Instant)
    requires Inv(r)
    ensures Inv(Do(r, Fetch(queue, limit, now)))
  {
    hide Do, Picked, Fetched, Booked, Rivals, Marked;
    FetchEffect(r, queue, limit, now);
    var s, r' := r.store, Do(r, Fetch(queue, limit, now));
    var s' := r'.store;
    forall id | id in IdsOf(Picked(s, queue, limit, now))
      ensures Booked(s'.jobs[id]) && s'.jobs[id].state.Executing?
      ensures forall b: Job :: Rivals(s'.jobs[id], b) ==> Rivals(s.jobs[id], b)
      ensures forall a: Job :: Rivals(a, s'.jobs[id]) ==> Rivals(a, s.jobs[id])
      ensures s'.jobs[id].insertedAt == s.jobs[id].insertedAt && s'.jobs[id].uniquePeriod == s.jobs[id].uniquePeriod
    {
      MarkedBooked(s.jobs[id], now);
    }
    forall a, b | a in s'.jobs && b in s'.jobs && a < b && Rivals(s'.jobs[a], s'.jobs[b])
      ensures s'.jobs[a].insertedAt < s'.jobs[b].insertedAt - s'.jobs[b].uniquePeriod
    {
      assert Rivals(s.jobs[a], s'.jobs[b]);
      assert Rivals(s.jobs[a], s.jobs[b]);
    }
    assert OwnersMatch(r');
  }

  lemma FinishedBooked(j: Job, outcome: Outcome, retryAt: Instant, now: Instant)
    requires Booked(j) && j.state.Executing?
    ensures var j' := FinishJob(j, j, outcome, retryAt, now);
      && Booked(j') && !j'.state.Executing? && j'.id == j.id
      && (forall b: Job :: Rivals(j', b) ==> Rivals(j, b))
      && (forall a: Job :: Rivals(a, j') ==> Rivals(a, j))
      && j'.insertedAt == j.insertedAt && j'.uniquePeriod == j.uniquePeriod
      && j.errors <= j'.errors
  {
  }

  lemma FinishKeeps(r: Run, step: Step)
    requires Inv(r) && step.Finish? && Enabled(r, step)
    ensures Inv(Do(r, step))
  {
    var s, s' := r.store, Do(r, step).store;
    var id := step.id;
    FinishedBooked(s.jobs[id], step.outcome, step.retryAt, step.now);
    hide FinishJob, Booked;
    forall a, b | a in s'.jobs && b in s'.jobs && a < b && Rivals(s'.jobs[a], s'.jobs[b])
      ensures s'.jobs[a].insertedAt < s'.jobs[b].insertedAt - s'.jobs[b].uniquePeriod
    {
      assert Rivals(s.jobs[a], s.jobs[b]);
    }
  }

  lemma StepKeeps(r: Run, step: Step)
    requires Inv(r) && Enabled(r, step)
    ensures Inv(Do(r, step))
  {
    hide Inv, Do;
    match step {
      case EnqueueJob(job, wall) => EnqueueKeeps(r, job, wall);
      case Fetch(queue, limit, now) => FetchKeeps(r, queue, limit, now);
      case Finish(_, _, _, _) => FinishKeeps(r, step);
    }
  }

  /** However an attempt ends, its job is no longer executing. */
  lemma FinishedStops(j: Job, outcome: Outcome, retryAt: Instant, now: Instant)
    requires j.state.Executing?
    ensures var j' := FinishJob(j, j, outcome, retryAt, now); !j'.state.Executing? && j'.id == j.id
  {
  }

  lemma StepValid(r: Run, step: Step)
    requires Valid(r.store) && Enabled(r, step)
    ensures Valid(Do(r, step).store)
  {
    hide Picked, Fetched;
    match step {
      case Fetch(queue, limit, now) => LeftOver(r.store, queue, if limit < 0 then 0 else limit, now);
      case _ =>
    }
  }

  // ---- Whole runs ----

  /** steps lead from one run to another. */
  ghost predicate Leads(a: Run, steps: seq<Step>, b: Run) {
    if steps == [] then a == b
    else
      var n := |steps| - 1;
      exists q :: Leads(a, steps[..n], q) && Valid(q.store) && Enabled(q, steps[n]) && b == Do(q, steps[n])
  }

  /** steps is a run of the store from empty, ending in r. */
  ghost predicate Reaches(steps: seq<Step>, r: Run) {
    Leads(START, steps, r)
  }

  lemma {:induction false} LeadsKeep(a: Run, steps: seq<Step>, b: Run)
    requires Inv(a) && Leads(a, steps, b)
    ensures Inv(b)
    decreases |steps|
  {
    hide Inv, Do;
    if steps == [] {
    } else {
      var n := |steps| - 1;
      var q :| Leads(a, steps[..n], q) && Valid(q.store) && Enabled(q, steps[n]) && b == Do(q, steps[n]);
      LeadsKeep(a, steps[..n], q);
      StepKeeps(q, steps[n]);
    }
  }

  lemma RunsKeep(steps: seq<Step>, r: Run)
    requires Reaches(steps, r)
    ensures Inv(r)
  {
    LeadsKeep(START, steps, r);
  }

  lemma LeadsMore(a: Run, steps: seq<Step>, b: Run, step: Step)
    requires Leads(a, steps, b) && Valid(b.store) && Enabled(b, step)
    ensures Leads(a, steps + [step], Do(b, step))
  {
    assert (steps + [step])[..|steps|] == steps;
  }

  lemma {:induction false} LeadsJoin(a: Run, first: seq<Step>, b: Run, second: seq<Step>, c: Run)
    requires Leads(a, first, b) && Leads(b, second, c)
    ensures Leads(a, first + second, c)
    decreases |second|
  {
    hide Do, Enabled, Valid;
    if second == [] {
      assert first + second == first;
    } else {
      var n := |second| - 1;
      var q := LeadsLast(b, second, c);
      LeadsJoin(a, first, b, second[..n], q);
      assert first + second == first + second[..n] + [second[n]];
      LeadsMore(a, first + second[..n], q, second[n]);
    }
  }

  lemma LeadsLast(a: Run, steps: seq<Step>, b: Run) returns (q: Run)
    requires Leads(a, steps, b) && steps != []
    ensures var n := |steps| - 1;
      Leads(a, steps[..n], q) && Valid(q.store) && Enabled(q, steps[n]) && b == Do(q, steps[n])
  {
    hide Do, Enabled, Valid;
    var n := |steps| - 1;
    q :| Leads(a, steps[..n], q) && Valid(q.store) && Enabled(q, steps[n]) && b == Do(q, steps[n]);
  }

  /** The executing jobs: what runners hold. */
  function Held(s: StoreState): map<int, Job> {
    map id | id in s.jobs && s.jobs[id].state.Executing? :: s.jobs[id]
  }

  lemma HeldIs(r: Run)
    requires OwnersMatch(r)
    ensures r.held == Held(r.store) && r == Run(r.store, Held(r.store))
  {
    var held := Held(r.store);
    forall id ensures id in r.held <==> id in held {
      if id in r.held {
        assert id in r.store.jobs;
      }
    }
    forall id | id in r.held ensures r.held[id] == held[id] {}
    assert r.held == held;
  }

  /** When runners hold just the executing jobs, a fetch hands them the rest that is executing afterwards. */
  lemma FetchHeld(s: StoreState, queue: string, limit: int, now: Instant)
    requires Valid(s)
    ensures var s' := FetchStep(s, queue, limit, now);
      Do(Run(s, Held(s)), Fetch(queue, limit, now)) == Run(s', Held(s'))
  {
    hide Picked, Fetched, Do;
    var r := Run(s, Held(s));
    var r' := Do(r, Fetch(queue, limit, now));
    FetchEffect(r, queue, limit, now);
    var ids := IdsOf(Picked(s, queue, limit, now));
    forall id | id in r'.store.jobs
      ensures r'.store.jobs[id].state.Executing? <==> id in r'.held
      ensures id in r'.held ==> r'.held[id] == r'.store.jobs[id]
    {
      assert id in ids ==> r'.store.jobs[id] == Marked(s.jobs[id], now);
      assert id !in ids ==> r'.store.jobs[id] == s.jobs[id];
    }
    forall id | id in r'.held ensures id in r'.store.jobs {}
    HeldIs(r');
    StoreAfterFetch(r, queue, limit, now);
  }

  lemma StoreAfterFetch(r: Run, queue: string, limit: int, now: Instant)
    requires Valid(r.store)
    ensures Do(r, Fetch(queue, limit, now)).store == FetchStep(r.store, queue, limit, now)
  {
    hide Valid, Fetched, FetchStep;
  }

  /**
   In every run, every job's recorded failures are numbered 1, 2, 3, ... without a
   gap, their count plus the attempt still open or ended well is Attempt, and
   Attempt never passes MaxAttempts.
   */
  lemma AttemptsAddUp(steps: seq<Step>, r: Run, id: int)
    requires Reaches(steps, r) && id in r.store.jobs
    ensures var j := r.store.jobs[id];
      && |j.errors| + (if j.state.Executing? || j.state.Completed? || j.state.Cancelled? then 1 else 0) == j.attempt
      && (forall i :: 0 <= i < |j.errors| ==> j.errors[i].attempt == i + 1)
      && j.attempt <= j.maxAttempts
  {
    RunsKeep(steps, r);
  }

  /** In every run, unfinished duplicates are further apart than the later one's unique period. */
  lemma DuplicatesApart(steps: seq<Step>, r: Run, a: int, b: int)
    requires Reaches(steps, r) && a in r.store.jobs && b in r.store.jobs && a < b
    requires Rivals(r.store.jobs[a], r.store.jobs[b])
    ensures r.store.jobs[a].insertedAt < r.store.jobs[b].insertedAt - r.store.jobs[b].uniquePeriod
  {
    RunsKeep(steps, r);
  }

  /** A step leaves finished jobs alone and only ever extends error histories. */
  lemma HistoryGrows(r: Run, step: Step, id: int)
    requires Inv(r) && Enabled(r, step) && id in r.store.jobs
    ensures var r' := Do(r, step);
      && id in r'.store.jobs
      && r.store.jobs[id].errors <= r'.store.jobs[id].errors
      && (Finished(r.store.jobs[id].state) ==> r'.store.jobs[id] == r.store.jobs[id])
  {
    match step {
      case EnqueueJob(job, wall) =>
      case Fetch(queue, limit, now) =>
        FetchEffect(r, queue, limit, now);
      case Finish(_, _, _, _) =>
        FinishedBooked(r.store.jobs[step.id], step.outcome, step.retryAt, step.now);
    }
  }
}
