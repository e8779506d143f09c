/**
 Drain (drain.go): run a queue's jobs synchronously on the in-memory store, and why
 it stops, what it leaves behind and how its tally adds up.

 What workers, the clocks, the backoff policy and the context do is read from a
 World: run numbers index worker attempts, round numbers index fetches.
 */
module Drain {
  import opened Options
  import opened Calendar
  import opened Jobs
  import opened StoreSpec
  import opened StoreLaws
  import opened Store
  import opened Sums
  import opened OwnerRuns

  datatype WorkerOutcome =
    | Missing(message: string)
    | Done
    | CancelSignal
    | SnoozeSignal(d: int)
    | Error(message: string)

  datatype World = World(
    outcome: (nat, Job) -> WorkerOutcome, runClock: nat -> Instant, backoff: int -> int,
    fetchClock: nat -> Instant, cancelled: nat -> bool)

  datatype DrainOptions = DrainOptions(queue: string, withRecursion: bool, withScheduled: bool)

  datatype Bucket = Completes | Retries | Discards | Cancels | Snoozes | Fails

  datatype DrainResult = DrainResult(
    completed: int, retried: int, discarded: int, cancelled: int, snoozed: int, failed: int)
  {
    function Total(): int { completed + retried + discarded + cancelled + snoozed + failed }

    /** Runs that ended a job for good. */
    function Ended(): int { completed + discarded + cancelled + failed }

    /** Runs that recorded an error. */
    function Errors(): int { retried + discarded + failed }

    function Add(b: Bucket): DrainResult {
      match b
      case Completes => this.(completed := completed + 1)
      case Retries => this.(retried := retried + 1)
      case Discards => this.(discarded := discarded + 1)
      case Cancels => this.(cancelled := cancelled + 1)
      case Snoozes => this.(snoozed := snoozed + 1)
      case Fails => this.(failed := failed + 1)
    }
  }

  const EMPTY_RESULT := DrainResult(0, 0, 0, 0, 0, 0)

  datatype DrainEnd = Finished | QueueRequired | ContextDone

  const FETCH_LIMIT := 0x4000_0000

  /** time.Unix(1<<62, 0): 2^62 seconds after 1970-01-01. */
  const FAR_FUTURE: Instant := (0x4000_0000_0000_0000 + 62_135_596_800) * 1_000_000_000

  /** drainRun's effect on the stored job j of which the runner holds clone. */
  function Settled(j: Job, clone: Job, w: World, run: nat): Job {
    var now := w.runClock(run);
    match w.outcome(run, clone)
    case Missing(m) => DiscardedJob(j, Some(m), now)
    case Done => CompletedJob(j, now)
    case CancelSignal => CancelledJob(j, now)
    case SnoozeSignal(d) => SnoozedJob(j, if d <= 0 then now + w.backoff(clone.attempt) else now + d)
    case Error(m) =>
      if clone.attempt >= clone.maxAttempts then DiscardedJob(j, Some(m), now)
      else RetriedJob(j, now + w.backoff(clone.attempt), Some(m), now)
  }

  function BucketOf(clone: Job, w: World, run: nat): Bucket {
    match w.outcome(run, clone)
    case Missing(_) => Fails
    case Done => Completes
    case CancelSignal => Cancels
    case SnoozeSignal(_) => Snoozes
    case Error(_) => if clone.attempt >= clone.maxAttempts then Discards else Retries
  }

  /** The owner-run outcome a worker's outcome amounts to, and the retry time it uses. */
  function OutcomeOf(clone: Job, w: World, run: nat): Outcome {
    match w.outcome(run, clone)
    case Missing(m) => Unregistered(m)
    case Done => Succeeded
    case CancelSignal => OwnerCancels
    case SnoozeSignal(d) => OwnerSnoozes(if d <= 0 then w.runClock(run) + w.backoff(clone.attempt) else w.runClock(run) + d)
    case Error(m) => Failed(m)
  }

  /** A run of Drain finishes its job as an owner run does, so attempt bookkeeping and uniqueness carry over. */
  lemma DrainRunIsOwnerStep(r: Run, id: int, w: World, run: nat)
    requires Inv(r) && id in r.held
    ensures var step := Finish(id, OutcomeOf(r.held[id], w, run), w.runClock(run) + w.backoff(r.held[id].attempt), w.runClock(run));
      && Enabled(r, step)
      && Do(r, step).store == Put(r.store, id, Settled(r.store.jobs[id], r.held[id], w, run))
      && Inv(Do(r, step))
  {
    hide Booked, Spaced;
    var step := Finish(id, OutcomeOf(r.held[id], w, run), w.runClock(run) + w.backoff(r.held[id].attempt), w.runClock(run));
    StepKeeps(r, step);
  }

  method DrainRun(store: InMemoryStore, w: World, run: nat, job: Job, result: DrainResult) returns (r: DrainResult)
    requires store.Valid() && job.id in store.jobs
    modifies store
    ensures store.Valid()
    ensures store.View() == Put(old(store.View()), job.id, Settled(old(store.jobs)[job.id], job, w, run))
    ensures r == result.Add(BucketOf(job, w, run))
  {
    var now := w.runClock(run);
    match w.outcome(run, job) {
      case Missing(message) =>
        var _ := store.Discard(job.id, Some(message), now);
        return result.(failed := result.failed + 1);
      case Done =>
        var _ := store.Complete(job.id, now);
        return result.(completed := result.completed + 1);
      case CancelSignal =>
        var _ := store.Cancel(job.id, now);
        return result.(cancelled := result.cancelled + 1);
      case SnoozeSignal(d) =>
        var until := now + d;
        if d <= 0 {
          until := now + w.backoff(job.attempt);
        }
        var _ := store.Snooze(job.id, until);
        return result.(snoozed := result.snoozed + 1);
      case Error(message) =>
        r := DrainFail(store, w, job, message, now, result);
    }
  }

  method DrainFail(store: InMemoryStore, w: World, job: Job, message: string, now: Instant, result: DrainResult)
    returns (r: DrainResult)
    requires store.Valid() && job.id in store.jobs
    modifies store
    ensures store.Valid()
    ensures job.attempt >= job.maxAttempts ==>
      && store.View() == Put(old(store.View()), job.id, DiscardedJob(old(store.jobs)[job.id], Some(message), now))
      && r == result.Add(Discards)
    ensures job.attempt < job.maxAttempts ==>
      && store.View() == Put(old(store.View()), job.id,
           RetriedJob(old(store.jobs)[job.id], now + w.backoff(job.attempt), Some(message), now))
      && r == result.Add(Retries)
  {
    if job.attempt >= job.maxAttempts {
      var _ := store.Discard(job.id, Some(message), now);
      return result.(discarded := result.discarded + 1);
    }
    var _ := store.Retry(job.id, now + w.backoff(job.attempt), Some(message), now);
    return result.(retried := result.retried + 1);
  }

  // ---- Measures ----

  function Max(a: int, b: int): int { if a > b then a else b }

  /** Runs a job may still take: for a job in the batch, counted as before it was fetched. */
  function JobWeight(j: Job, queue: string, inBatch: bool): int {
    if inBatch then Max(1, j.maxAttempts - j.attempt + 1)
    else if j.queue == queue && Fetchable(j.state) then Max(1, j.maxAttempts - j.attempt)
    else 0
  }

  function Weights(s: StoreState, queue: string, batch: set<int>): map<int, int> {
    map id | id in s.jobs :: JobWeight(s.jobs[id], queue, id in batch)
  }

  /** The sum over the queue's fetchable jobs of max(1, MaxAttempts - Attempt). */
  ghost function Potential(s: StoreState, queue: string, batch: set<int>): int {
    Sum(Weights(s, queue, batch))
  }

  function Attempts(s: StoreState): map<int, int> {
    map id | id in s.jobs :: s.jobs[id].attempt
  }

  function ErrorCounts(s: StoreState): map<int, int> {
    map id | id in s.jobs :: |s.jobs[id].errors|
  }

  /** The queue's jobs that are fetchable, or in the batch. */
  function Open(s: StoreState, queue: string, batch: set<int>): set<int> {
    set id | id in s.jobs && (id in batch || (s.jobs[id].queue == queue && Fetchable(s.jobs[id].state)))
  }

  ghost predicate AttemptsCount(s: StoreState) {
    forall id :: id in s.jobs ==> s.jobs[id].attempt >= 0
  }

  /** The tallies r0 to r of the runs that took the store from s0 to s, with batch still to run. */
  ghost predicate Tally(s0: StoreState, b0: set<int>, r0: DrainResult, s: StoreState, b: set<int>, r: DrainResult, queue: string) {
    && Potential(s, queue, b) + r.Total() - r.snoozed <= Potential(s0, queue, b0) + r0.Total() - r0.snoozed
    && |Open(s, queue, b)| + r.Ended() == |Open(s0, queue, b0)| + r0.Ended()
    && Sum(Attempts(s)) + r.snoozed - |b| - r.Total() == Sum(Attempts(s0)) + r0.snoozed - |b0| - r0.Total()
    && Sum(ErrorCounts(s)) - r.Errors() == Sum(ErrorCounts(s0)) - r0.Errors()
  }

  ghost predicate InBatch(s: StoreState, b: set<int>, queue: string) {
    forall id :: id in b ==> id in s.jobs && s.jobs[id].state.Executing? && s.jobs[id].queue == queue && s.jobs[id].attempt >= 1
  }

  /** What one run does to its job, by bucket. */
  lemma SettledFacts(j: Job, w: World, run: nat, queue: string)
    requires j.state.Executing? && j.queue == queue && j.attempt >= 1
    ensures var j', b := Settled(j, j, w, run), BucketOf(j, w, run);
      && j'.id == j.id && j'.queue == queue && !j'.state.Executing?
      && (Fetchable(j'.state) <==> b.Retries? || b.Snoozes?)
      && j'.attempt == (if b.Snoozes? then j.attempt - 1 else j.attempt)
      && |j'.errors| == |j.errors| + (if b.Retries? || b.Discards? || b.Fails? then 1 else 0)
      && JobWeight(j', queue, false) <= JobWeight(j, queue, true) - (if b.Snoozes? then 0 else 1)
  {
  }

  /** A bucket tells the state a run leaves its job in; only an unregistered worker fails. */
  lemma BucketStates(j: Job, w: World, run: nat)
    requires j.state == Executing
    ensures var j', b := Settled(j, j, w, run), BucketOf(j, w, run);
      && (b == Completes <==> j'.state == Completed)
      && (b == Cancels <==> j'.state == Cancelled)
      && (b == Retries <==> j'.state == Retryable)
      && (b == Snoozes <==> j'.state == Scheduled)
      && (b == Discards || b == Fails <==> j'.state == Discarded)
      && (b == Fails <==> w.outcome(run, j).Missing?)
      && (b == Retries ==> j.attempt < j.maxAttempts) && (b == Discards ==> j.attempt >= j.maxAttempts)
  {
  }

  /** When a job can run again after a run: a failure waits for its backoff, a snooze for its delay; the rest are final. */
  lemma RunsAgainFrom(j: Job, w: World, run: nat, queue: string, t: Instant)
    requires j.state == Executing && w.runClock(run) != 0
    ensures var j', now, wait := Settled(j, j, w, run), w.runClock(run), w.backoff(j.attempt);
      match w.outcome(run, j)
      case Error(_) => Runnable(j', queue, t) <==> queue == j.queue && j.attempt < j.maxAttempts && now + wait <= t
      case SnoozeSignal(d) => Runnable(j', queue, t) <==> queue == j.queue && now + (if d <= 0 then wait else d) <= t
      case _ => !Runnable(j', queue, t) && FinishTime(j') == now
  {
  }

  lemma MeasuresPut(s: StoreState, b: set<int>, id: int, j': Job, queue: string)
    requires id in s.jobs && id in b
    ensures var s' := Put(s, id, j');
      && Potential(s', queue, b - {id}) ==
           Potential(s, queue, b) - JobWeight(s.jobs[id], queue, true) + JobWeight(j', queue, false)
      && Sum(Attempts(s')) == Sum(Attempts(s)) - s.jobs[id].attempt + j'.attempt
      && Sum(ErrorCounts(s')) == Sum(ErrorCounts(s)) - |s.jobs[id].errors| + |j'.errors|
  {
    hide JobWeight;
    var s', w := Put(s, id, j'), Weights(s, queue, b);
    assert Weights(s', queue, b - {id}) == w[id := JobWeight(j', queue, false)];
    SumPut(w, id, JobWeight(j', queue, false));
    assert Attempts(s') == Attempts(s)[id := j'.attempt];
    SumPut(Attempts(s), id, j'.attempt);
    assert ErrorCounts(s') == ErrorCounts(s)[id := |j'.errors|];
    SumPut(ErrorCounts(s), id, |j'.errors|);
  }

  lemma OpenPut(s: StoreState, b: set<int>, id: int, j': Job, queue: string)
    requires id in s.jobs && id in b && j'.queue == queue
    ensures |Open(Put(s, id, j'), queue, b - {id})| == |Open(s, queue, b)| - (if Fetchable(j'.state) then 0 else 1)
  {
    var before, after := Open(s, queue, b), Open(Put(s, id, j'), queue, b - {id});
    if Fetchable(j'.state) {
      assert after == before;
    } else {
      assert after == before - {id};
    }
  }

  /** One run settles one job of the batch. */
  lemma RunTally(s: StoreState, b: set<int>, r: DrainResult, id: int, w: World, run: nat, queue: string)
    requires InBatch(s, b, queue) && id in b
    ensures var s' := Put(s, id, Settled(s.jobs[id], s.jobs[id], w, run));
      && Tally(s, b, r, s', b - {id}, r.Add(BucketOf(s.jobs[id], w, run)), queue)
      && InBatch(s', b - {id}, queue)
  {
    hide Settled, BucketOf, JobWeight, Attempts, ErrorCounts, Open, Potential;
    var j := s.jobs[id];
    var j' := Settled(j, j, w, run);
    SettledFacts(j, w, run, queue);
    MeasuresPut(s, b, id, j', queue);
    OpenPut(s, b, id, j', queue);
  }

  lemma TallyJoins(s0: StoreState, b0: set<int>, r0: DrainResult, s1: StoreState, b1: set<int>, r1: DrainResult,
                   s2: StoreState, b2: set<int>, r2: DrainResult, queue: string)
    requires Tally(s0, b0, r0, s1, b1, r1, queue) && Tally(s1, b1, r1, s2, b2, r2, queue)
    ensures Tally(s0, b0, r0, s2, b2, r2, queue)
  {
  }

  /** Fetching moves jobs into the batch and changes no measure but the attempts, by one per job. */
  lemma FetchTally(s: StoreState, queue: string, now: Instant, r: DrainResult)
    requires Valid(s) && AttemptsCount(s)
    ensures var s', b := FetchStep(s, queue, FETCH_LIMIT, now), IdsOf(Picked(s, queue, FETCH_LIMIT, now));
      && Tally(s, {}, r, s', b, r, queue) && InBatch(s', b, queue) && AttemptsCount(s')
  {
    var js := Picked(s, queue, FETCH_LIMIT, now);
    var s', b := FetchStep(s, queue, FETCH_LIMIT, now), IdsOf(js);
    PickedFacts(s, queue, FETCH_LIMIT, now);
    assert s'.jobs == MarkJobs(s.jobs, b, now);
    assert forall id :: id in b ==> id in s.jobs && Eligible(s.jobs[id], queue, now);
    MarkedBatch(s, s', b, queue, now);
    hide Picked, FetchStep, Eligible, Marked;
    FetchMeasures(s, s', b, queue, now);
    hide Weights, Attempts, ErrorCounts, Open, Sum, InBatch, AttemptsCount;
  }

  lemma MarkedBatch(s: StoreState, s': StoreState, b: set<int>, queue: string, now: Instant)
    requires AttemptsCount(s) && s'.jobs == MarkJobs(s.jobs, b, now)
    requires forall id :: id in b ==> id in s.jobs && Eligible(s.jobs[id], queue, now)
    ensures InBatch(s', b, queue) && AttemptsCount(s')
  {
  }

  /** Marking eligible jobs: what the measures of one job make of it. */
  lemma MarkedMeasures(s: StoreState, s': StoreState, b: set<int>, queue: string, now: Instant, id: int)
    requires s'.jobs == MarkJobs(s.jobs, b, now) && id in s.jobs && (id in b ==> Eligible(s.jobs[id], queue, now))
    ensures id in s'.jobs && JobWeight(s'.jobs[id], queue, id in b) == JobWeight(s.jobs[id], queue, false)
    ensures id in b || (s'.jobs[id].queue == queue && Fetchable(s'.jobs[id].state)) <==>
      s.jobs[id].queue == queue && Fetchable(s.jobs[id].state)
    ensures s'.jobs[id].attempt == s.jobs[id].attempt + (if id in b then 1 else 0) && s'.jobs[id].errors == s.jobs[id].errors
  {
  }

  lemma FetchMeasures(s: StoreState, s': StoreState, b: set<int>, queue: string, now: Instant)
    requires s'.jobs == MarkJobs(s.jobs, b, now) && forall id :: id in b ==> id in s.jobs && Eligible(s.jobs[id], queue, now)
    ensures Weights(s', queue, b) == Weights(s, queue, {}) && Open(s', queue, b) == Open(s, queue, {})
    ensures ErrorCounts(s') == ErrorCounts(s) && Sum(Attempts(s')) == Sum(Attempts(s)) + |b|
  {
    hide JobWeight, Marked, Eligible, Fetchable, Sum;
    forall id | id in b ensures id in s.jobs {}
    assert s'.jobs.Keys == s.jobs.Keys && b <= s.jobs.Keys;
    forall id | id in s.jobs
      ensures JobWeight(s'.jobs[id], queue, id in b) == JobWeight(s.jobs[id], queue, false)
      ensures id in b || (s'.jobs[id].queue == queue && Fetchable(s'.jobs[id].state)) <==>
        s.jobs[id].queue == queue && Fetchable(s.jobs[id].state)
      ensures s'.jobs[id].attempt == s.jobs[id].attempt + (if id in b then 1 else 0)
      ensures s'.jobs[id].errors == s.jobs[id].errors
    {
      MarkedMeasures(s, s', b, queue, now, id);
    }
    hide MarkJobs;
    SumRaised(Attempts(s), Attempts(s'), b);
  }

  // ---- Schedules within reach ----

  /** Every fetchable job of the queue is scheduled by then. */
  ghost predicate InReach(s: StoreState, queue: string, at: Instant) {
    forall id :: id in s.jobs && s.jobs[id].queue == queue && Fetchable(s.jobs[id].state) ==> s.jobs[id].scheduledAt <= at
  }

  /** No retry or snooze is put off beyond that time. */
  ghost predicate Calm(w: World, at: Instant) {
    && (forall k: nat, a: int :: w.runClock(k) + w.backoff(a) <= at)
    && (forall k: nat, j: Job, d: int :: w.outcome(k, j) == SnoozeSignal(d) ==> w.runClock(k) + d <= at)
  }

  ghost predicate ReachKept(s: StoreState, s': StoreState, queue: string, w: World) {
    forall at :: InReach(s, queue, at) && Calm(w, at) ==> InReach(s', queue, at)
  }

  lemma ReachJoins(s: StoreState, p: StoreState, s': StoreState, queue: string, w: World)
    requires ReachKept(s, p, queue, w) && ReachKept(p, s', queue, w)
    ensures ReachKept(s, s', queue, w)
  {
    hide InReach, Calm;
  }

  lemma ReachRefl(s: StoreState, queue: string, w: World)
    ensures ReachKept(s, s, queue, w)
  {
    hide InReach, Calm;
  }

  /** In a calm world no run schedules its job later. */
  lemma SettledReach(j: Job, w: World, run: nat, at: Instant)
    requires Calm(w, at) && (Fetchable(j.state) ==> j.scheduledAt <= at)
    ensures var j' := Settled(j, j, w, run); j'.queue == j.queue && (Fetchable(j'.state) ==> j'.scheduledAt <= at)
  {
    assert w.runClock(run) + w.backoff(j.attempt) <= at;
  }

  /** What else one run keeps. */
  lemma RunKeeps(s: StoreState, id: int, w: World, run: nat, r: DrainResult, queue: string)
    requires id in s.jobs && s.jobs[id].attempt >= 1
    ensures var j := s.jobs[id];
      var s' := Put(s, id, Settled(j, j, w, run));
      && ReachKept(s, s', queue, w)
      && (AttemptsCount(s) ==> AttemptsCount(s'))
      && r.Add(BucketOf(j, w, run)).Total() == r.Total() + 1
  {
    hide Calm;
    var j := s.jobs[id];
    forall at | InReach(s, queue, at) && Calm(w, at) ensures InReach(Put(s, id, Settled(j, j, w, run)), queue, at) {
      SettledQueue(j, w, run);
      if j.queue == queue {
        SettledReach(j, w, run, at);
      }
    }
  }

  lemma SettledQueue(j: Job, w: World, run: nat)
    ensures Settled(j, j, w, run).queue == j.queue
  {
  }

  lemma FetchReach(s: StoreState, queue: string, now: Instant, w: World)
    requires Valid(s)
    ensures ReachKept(s, FetchStep(s, queue, FETCH_LIMIT, now), queue, w)
  {
    hide Picked, Calm;
  }

  lemma CandidatesAll(s: StoreState, queue: string, at: Instant)
    ensures forall id :: id in s.jobs && Eligible(s.jobs[id], queue, at) ==> s.jobs[id] in Candidates(s, queue, at)
  {
  }

  lemma OpenAll(s: StoreState, queue: string)
    ensures forall id :: id in s.jobs && s.jobs[id].queue == queue && Fetchable(s.jobs[id].state) <==> id in Open(s, queue, {})
  {
  }

  /** Nothing eligible at a time means nothing fetchable at all, exactly when all that is fetchable is scheduled by then. */
  lemma NothingFetchable(s: StoreState, queue: string, at: Instant)
    ensures Candidates(s, queue, at) == {} ==> (Open(s, queue, {}) == {} <==> InReach(s, queue, at))
  {
    CandidatesAll(s, queue, at);
    OpenAll(s, queue);
    hide Open, Candidates;
    Inhabited(Open(s, queue, {}));
  }

  // ---- The loops ----

  /** The clones from i on are the stored jobs, executing, one each: what is left of the batch. */
  ghost predicate BatchLeft(s: StoreState, jobs: seq<Job>, i: int, queue: string)
    requires 0 <= i <= |jobs|
  {
    && (forall k :: i <= k < |jobs| ==> jobs[k].id in s.jobs && s.jobs[jobs[k].id] == jobs[k])
    && (forall k, m :: 0 <= k < m < |jobs| ==> jobs[k].id != jobs[m].id)
    && InBatch(s, IdsOf(jobs[i..]), queue)
  }

  lemma BatchNext(jobs: seq<Job>, i: int)
    requires 0 <= i < |jobs| && forall k, m :: 0 <= k < m < |jobs| ==> jobs[k].id != jobs[m].id
    ensures jobs[i].id in IdsOf(jobs[i..]) && IdsOf(jobs[i..]) - {jobs[i].id} == IdsOf(jobs[i + 1..])
  {
    var rest := jobs[i + 1..];
    assert jobs[i..] == [jobs[i]] + rest;
    ElementsAt(jobs[i..]);
    AppendPicked([jobs[i]], rest, 0);
    assert IdsOf([jobs[i]]) == {jobs[i].id};
    forall k | 0 <= k < |rest| ensures rest[k].id != jobs[i].id {
      assert rest[k] == jobs[i + 1 + k];
    }
  }

  /** What the batch loop makes of the store, and of the tally. */
  ghost function BatchStore(s: StoreState, jobs: seq<Job>, w: World, run: nat): (r: StoreState)
    ensures r.jobs.Keys == s.jobs.Keys && (Valid(s) ==> Valid(r))
  {
    if jobs == [] then s
    else
      var n := |jobs| - 1;
      var p := BatchStore(s, jobs[..n], w, run);
      if jobs[n].id in p.jobs then Put(p, jobs[n].id, Settled(p.jobs[jobs[n].id], jobs[n], w, run + n)) else p
  }

  function BatchResult(r: DrainResult, jobs: seq<Job>, w: World, run: nat): DrainResult {
    if jobs == [] then r
    else BatchResult(r, jobs[..|jobs| - 1], w, run).Add(BucketOf(jobs[|jobs| - 1], w, run + |jobs| - 1))
  }

  /** The batch loop of Drain. */
  method RunBatch(store: InMemoryStore, w: World, jobs: seq<Job>, runs: nat, result: DrainResult) returns (r: DrainResult)
    requires store.Valid() && forall j :: j in jobs ==> j.id in store.jobs
    modifies store
    ensures store.Valid() && store.View() == BatchStore(old(store.View()), jobs, w, runs)
    ensures r == BatchResult(result, jobs, w, runs)
  {
    hide Settled, BucketOf, StoreSpec.Valid;
    ghost var s := store.View();
    r := result;
    for i := 0 to |jobs|
      invariant store.Valid() && store.View() == BatchStore(s, jobs[..i], w, runs)
      invariant r == BatchResult(result, jobs[..i], w, runs)
    {
      assert jobs[..i + 1][..i] == jobs[..i];
      r := DrainRun(store, w, runs + i, jobs[i], r);
    }
    assert jobs[..|jobs|] == jobs;
  }

  /** One turn of the batch loop. */
  lemma BatchStep(s: StoreState, jobs: seq<Job>, i: int, r: DrainResult, w: World, run: nat, queue: string)
    requires 0 <= i < |jobs| && BatchLeft(s, jobs, i, queue)
    ensures jobs[i].id in s.jobs && s.jobs[jobs[i].id] == jobs[i]
    ensures var s', r' := Put(s, jobs[i].id, Settled(jobs[i], jobs[i], w, run)), r.Add(BucketOf(jobs[i], w, run));
      && BatchLeft(s', jobs, i + 1, queue)
      && Tally(s, IdsOf(jobs[i..]), r, s', IdsOf(jobs[i + 1..]), r', queue)
      && ReachKept(s, s', queue, w)
      && (AttemptsCount(s) ==> AttemptsCount(s'))
      && r'.Total() == r.Total() + 1
  {
    hide Tally, Settled, ReachKept, BucketOf, AttemptsCount;
    BatchNext(jobs, i);
    RunTally(s, IdsOf(jobs[i..]), r, jobs[i].id, w, run, queue);
    RunKeeps(s, jobs[i].id, w, run, r, queue);
  }

  lemma TallyRefl(s: StoreState, b: set<int>, r: DrainResult, queue: string)
    ensures Tally(s, b, r, s, b, r, queue)
  {
  }

  /** What the first i turns of the batch loop amount to. */
  lemma {:induction false} BatchFacts(s: StoreState, jobs: seq<Job>, i: nat, w: World, run: nat, result: DrainResult, queue: string)
    requires i <= |jobs| && BatchLeft(s, jobs, 0, queue)
    ensures var s', r := BatchStore(s, jobs[..i], w, run), BatchResult(result, jobs[..i], w, run);
      && BatchLeft(s', jobs, i, queue)
      && Tally(s, IdsOf(jobs), result, s', IdsOf(jobs[i..]), r, queue)
      && ReachKept(s, s', queue, w)
      && (AttemptsCount(s) ==> AttemptsCount(s'))
      && r.Total() == result.Total() + i
  {
    hide Tally, Settled, ReachKept, BucketOf, AttemptsCount, BatchLeft;
    if i == 0 {
      assert jobs[0..] == jobs;
      TallyRefl(s, IdsOf(jobs), result, queue);
      ReachRefl(s, queue, w);
    } else {
      var k := i - 1;
      assert jobs[..i][..k] == jobs[..k];
      var p, r := BatchStore(s, jobs[..k], w, run), BatchResult(result, jobs[..k], w, run);
      BatchFacts(s, jobs, k, w, run, result, queue);
      BatchStep(p, jobs, k, r, w, run + k, queue);
      ReachJoins(s, p, BatchStore(s, jobs[..i], w, run), queue, w);
      TallyJoins(s, IdsOf(jobs), result, p, IdsOf(jobs[k..]), r,
                 BatchStore(s, jobs[..i], w, run), IdsOf(jobs[i..]), BatchResult(result, jobs[..i], w, run), queue);
    }
  }

  lemma MarkedIds(js: seq<Job>, now: Instant)
    ensures IdsOf(MarkedAll(js, now)) == IdsOf(js)
  {
    var ms := MarkedAll(js, now);
    ElementsAt(js);
    ElementsAt(ms);
    forall id | id in IdsOf(ms) ensures id in IdsOf(js) {
      var k :| 0 <= k < |ms| && ms[k].id == id;
      assert js[k].id == id;
    }
    forall id | id in IdsOf(js) ensures id in IdsOf(ms) {
      var k :| 0 <= k < |js| && js[k].id == id;
      assert ms[k].id == id;
    }
  }

  lemma MarkedClones(s: StoreState, queue: string, now: Instant, k: int)
    requires Valid(s) && 0 <= k < |Fetched(s, queue, FETCH_LIMIT, now)|
    ensures var j, s' := Fetched(s, queue, FETCH_LIMIT, now)[k], FetchStep(s, queue, FETCH_LIMIT, now);
      j.id in s'.jobs && s'.jobs[j.id] == j && j.id == Picked(s, queue, FETCH_LIMIT, now)[k].id
  {
    PickedFacts(s, queue, FETCH_LIMIT, now);
    ElementsAt(Picked(s, queue, FETCH_LIMIT, now));
  }

  lemma PickedDistinct(s: StoreState, queue: string, now: Instant, k: int, m: int)
    requires Valid(s) && 0 <= k < m < |Picked(s, queue, FETCH_LIMIT, now)|
    ensures Picked(s, queue, FETCH_LIMIT, now)[k].id != Picked(s, queue, FETCH_LIMIT, now)[m].id
  {
    PickedFacts(s, queue, FETCH_LIMIT, now);
    assert Before(Picked(s, queue, FETCH_LIMIT, now)[k], Picked(s, queue, FETCH_LIMIT, now)[m]);
  }

  lemma BatchStart(s: StoreState, queue: string, now: Instant)
    requires Valid(s) && AttemptsCount(s)
    ensures var jobs, s' := Fetched(s, queue, FETCH_LIMIT, now), FetchStep(s, queue, FETCH_LIMIT, now);
      BatchLeft(s', jobs, 0, queue) && IdsOf(jobs) == IdsOf(Picked(s, queue, FETCH_LIMIT, now))
  {
    hide Picked, Tally, FetchStep, InBatch;
    var js, jobs := Picked(s, queue, FETCH_LIMIT, now), Fetched(s, queue, FETCH_LIMIT, now);
    FetchTally(s, queue, now, EMPTY_RESULT);
    MarkedIds(js, now);
    assert jobs[0..] == jobs;
    var s' := FetchStep(s, queue, FETCH_LIMIT, now);
    forall k | 0 <= k < |jobs| ensures jobs[k].id in s'.jobs && s'.jobs[jobs[k].id] == jobs[k] && jobs[k].id == js[k].id {
      MarkedClones(s, queue, now, k);
    }
    forall k, m | 0 <= k < m < |jobs| ensures jobs[k].id != jobs[m].id {
      PickedDistinct(s, queue, now, k, m);
    }
  }

  function FetchNow(opts: DrainOptions, w: World, round: nat): Instant {
    if opts.withScheduled then FAR_FUTURE else w.fetchClock(round)
  }

  // ---- The whole loop, round by round ----

  /** Where Drain stands after some rounds; over is set once it has returned. */
  datatype Progress = Progress(store: StoreState, result: DrainResult, over: bool)

  ghost predicate Sound(p: Progress) { Valid(p.store) && p.result.Total() >= 0 }

  /** One fetch and its batch. */
  ghost function Round(p: Progress, queue: string, now: Instant, w: World): Progress
    requires Sound(p)
  {
    var jobs, run := Fetched(p.store, queue, FETCH_LIMIT, now), p.result.Total();
    Progress(BatchStore(FetchStep(p.store, queue, FETCH_LIMIT, now), jobs, w, run), BatchResult(p.result, jobs, w, run), false)
  }

  /** Drain returns instead of making round n. */
  ghost predicate Returns(p: Progress, opts: DrainOptions, w: World, n: nat)
    requires Sound(p)
  {
    || w.cancelled(n)
    || (n > 0 && !opts.withRecursion)
    || Fetched(p.store, opts.queue, FETCH_LIMIT, FetchNow(opts, w, n)) == []
  }

  ghost function AfterRounds(s: StoreState, opts: DrainOptions, w: World, n: nat): (p: Progress)
    requires Valid(s)
    ensures Sound(p)
  {
    hide Valid, Settled, BucketOf;
    if n == 0 then Progress(s, EMPTY_RESULT, false)
    else
      var p := AfterRounds(s, opts, w, n - 1);
      if p.over then p
      else if Returns(p, opts, w, n - 1) then p.(over := true)
      else
        RoundSound(p, opts.queue, FetchNow(opts, w, n - 1), w);
        Round(p, opts.queue, FetchNow(opts, w, n - 1), w)
  }

  lemma RoundSound(p: Progress, queue: string, now: Instant, w: World)
    requires Sound(p)
    ensures Sound(Round(p, queue, now, w))
    ensures Round(p, queue, now, w).result.Total() == p.result.Total() + |Fetched(p.store, queue, FETCH_LIMIT, now)|
  {
    hide Settled, BucketOf, Picked;
    PickedFacts(p.store, queue, FETCH_LIMIT, now);
    BatchTotal(p.result, Fetched(p.store, queue, FETCH_LIMIT, now), w, p.result.Total());
  }

  lemma {:induction false} BatchTotal(r: DrainResult, jobs: seq<Job>, w: World, run: nat)
    ensures BatchResult(r, jobs, w, run).Total() == r.Total() + |jobs|
  {
    hide BucketOf;
    if jobs == [] {
    } else {
      BatchTotal(r, jobs[..|jobs| - 1], w, run);
    }
  }

  lemma PotentialNonNegative(s: StoreState, queue: string)
    ensures Potential(s, queue, {}) >= 0
  {
    var weights := Weights(s, queue, {});
    forall id | id in weights ensures weights[id] >= 0 {
      assert weights[id] == JobWeight(s.jobs[id], queue, false);
    }
    SumAtLeastZero(weights);
  }

  /** One round keeps the tally in balance. */
  lemma RoundTally(p: Progress, queue: string, now: Instant, w: World)
    requires Sound(p) && AttemptsCount(p.store)
    ensures var q := Round(p, queue, now, w);
      && Tally(p.store, {}, p.result, q.store, {}, q.result, queue)
      && AttemptsCount(q.store) && ReachKept(p.store, q.store, queue, w)
  {
    hide Tally, ReachKept, AttemptsCount, Fetched, FetchStep, Picked, BatchLeft, BatchStore, BatchResult, IdsOf;
    var s, jobs := FetchStep(p.store, queue, FETCH_LIMIT, now), Fetched(p.store, queue, FETCH_LIMIT, now);
    FetchTally(p.store, queue, now, p.result);
    FetchReach(p.store, queue, now, w);
    BatchStart(p.store, queue, now);
    BatchFacts(s, jobs, |jobs|, w, p.result.Total(), p.result, queue);
    assert jobs[..|jobs|] == jobs;
    NoIds(jobs);
    var q := Round(p, queue, now, w);
    TallyJoins(p.store, {}, p.result, s, IdsOf(jobs), p.result, q.store, {}, q.result, queue);
    ReachJoins(p.store, s, q.store, queue, w);
  }

  lemma NoIds(jobs: seq<Job>)
    ensures IdsOf(jobs[|jobs|..]) == {}
  {
  }

  lemma {:induction false} AfterTally(s: StoreState, opts: DrainOptions, w: World, n: nat)
    requires Valid(s) && AttemptsCount(s)
    ensures var p := AfterRounds(s, opts, w, n);
      && Tally(s, {}, EMPTY_RESULT, p.store, {}, p.result, opts.queue)
      && AttemptsCount(p.store) && ReachKept(s, p.store, opts.queue, w)
  {
    hide Tally, ReachKept, AttemptsCount, Round, Returns, FetchNow, Valid;
    if n == 0 {
      TallyRefl(s, {}, EMPTY_RESULT, opts.queue);
      ReachRefl(s, opts.queue, w);
    } else {
      AfterTally(s, opts, w, n - 1);
      var p, now := AfterRounds(s, opts, w, n - 1), FetchNow(opts, w, n - 1);
      if !p.over && !Returns(p, opts, w, n - 1) {
        RoundTally(p, opts.queue, now, w);
        var q := Round(p, opts.queue, now, w);
        TallyJoins(s, {}, EMPTY_RESULT, p.store, {}, p.result, q.store, {}, q.result, opts.queue);
        ReachJoins(s, p.store, q.store, opts.queue, w);
      }
    }
  }

  /** Once Drain has returned nothing changes any more. */
  lemma {:induction false} OverStays(s: StoreState, opts: DrainOptions, w: World, m: nat, n: nat)
    requires Valid(s) && m <= n && AfterRounds(s, opts, w, m).over
    ensures AfterRounds(s, opts, w, n) == AfterRounds(s, opts, w, m)
    decreases n
  {
    hide Round, Returns, Valid;
    if m == n {
    } else {
      OverStays(s, opts, w, m, n - 1);
    }
  }

  /** A fetch that hands out nothing changes nothing, and nothing was eligible. */
  lemma NothingLeft(s: StoreState, queue: string, now: Instant)
    requires Valid(s)
    ensures Fetched(s, queue, FETCH_LIMIT, now) == [] ==>
      FetchStep(s, queue, FETCH_LIMIT, now) == s && Candidates(s, queue, now) == {}
  {
    if Fetched(s, queue, FETCH_LIMIT, now) == [] {
      NothingPicked(s, queue, now);
    }
  }

  lemma NothingPicked(s: StoreState, queue: string, now: Instant)
    requires Valid(s) && Fetched(s, queue, FETCH_LIMIT, now) == []
    ensures FetchStep(s, queue, FETCH_LIMIT, now) == s && Candidates(s, queue, now) == {}
  {
    var r := Ranking(Candidates(s, queue, now));
    assert Picked(s, queue, FETCH_LIMIT, now) == [];
    assert r == [];
    assert Elements(r) == {};
  }

  /**
   What a Tally means for a whole drain: runs not snoozed stay within the potential,
   and every run that ended a job took one fetchable job out of the queue for good.
   */
  lemma TallyJobs(s0: StoreState, s: StoreState, r: DrainResult, queue: string)
    requires Tally(s0, {}, EMPTY_RESULT, s, {}, r, queue)
    ensures 0 <= Potential(s, queue, {}) <= Potential(s0, queue, {}) - (r.Total() - r.snoozed)
    ensures r.completed + r.discarded + r.cancelled + r.failed == |Open(s0, queue, {})| - |Open(s, queue, {})|
  {
    hide Potential, Attempts, ErrorCounts, Open, Sum;
    PotentialNonNegative(s, queue);
  }

  /** ... attempts grew by one per run that was not snoozed, and every failure was recorded once. */
  lemma TallyAttempts(s0: StoreState, s: StoreState, r: DrainResult, queue: string)
    requires Tally(s0, {}, EMPTY_RESULT, s, {}, r, queue)
    ensures Sum(Attempts(s)) - Sum(Attempts(s0)) == r.Total() - r.snoozed
    ensures Sum(ErrorCounts(s)) - Sum(ErrorCounts(s0)) == r.retried + r.discarded + r.failed
  {
    hide Potential, Attempts, ErrorCounts, Open, Sum;
  }

  /**
   Why Drain needs its workers to stop snoozing: a round that ends no job and leaves all
   in reach is followed by a fetch with work, so long as there was any.
   */
  lemma SnoozingGoesOn(s: StoreState, r: DrainResult, s': StoreState, r': DrainResult, queue: string, now: Instant)
    requires Tally(s, {}, r, s', {}, r', queue) && r'.Ended() == r.Ended()
    requires Valid(s') && InReach(s', queue, now) && Open(s, queue, {}) != {}
    ensures |Fetched(s', queue, FETCH_LIMIT, now)| > 0
  {
    hide Sum, Weights, Attempts, ErrorCounts, Fetched, InReach, Candidates;
    NothingLeft(s', queue, now);
    NothingFetchable(s', queue, now);
    assert |Open(s', queue, {})| == |Open(s, queue, {})|;
  }

  // ---- What a pass runs ----

  /** The batch loop settles each of its jobs at its own run, and touches no other job. */
  lemma {:induction false} BatchSettles(s: StoreState, jobs: seq<Job>, i: nat, w: World, run: nat, queue: string)
    requires i <= |jobs| && BatchLeft(s, jobs, 0, queue)
    ensures var s' := BatchStore(s, jobs[..i], w, run);
      && (forall k :: 0 <= k < i ==> jobs[k].id in s'.jobs && s'.jobs[jobs[k].id] == Settled(jobs[k], jobs[k], w, run + k))
      && (forall id :: id in s.jobs && id !in IdsOf(jobs) ==> id in s'.jobs && s'.jobs[id] == s.jobs[id])
  {
    hide Settled, BatchLeft, Valid, BatchStore;
    BatchTurn(s, jobs, i, w, run);
    if i == 0 {
    } else {
      var n := i - 1;
      BatchSettles(s, jobs, n, w, run, queue);
      BatchWaiting(s, jobs, n, w, run, queue);
      BatchApart(s, jobs, queue);
      ElementsAt(jobs);
      var p, s' := BatchStore(s, jobs[..n], w, run), BatchStore(s, jobs[..i], w, run);
      assert s' == Put(p, jobs[n].id, Settled(jobs[n], jobs[n], w, run + n));
      forall k | 0 <= k < n ensures jobs[k].id in s'.jobs && s'.jobs[jobs[k].id] == p.jobs[jobs[k].id] {
        assert jobs[k].id != jobs[n].id;
      }
    }
  }

  lemma BatchTurn(s: StoreState, jobs: seq<Job>, i: nat, w: World, run: nat)
    requires i <= |jobs|
    ensures i == 0 ==> BatchStore(s, jobs[..i], w, run) == s
    ensures i > 0 ==>
      var j, p := jobs[i - 1], BatchStore(s, jobs[..i - 1], w, run);
      j.id in p.jobs ==> BatchStore(s, jobs[..i], w, run) == Put(p, j.id, Settled(p.jobs[j.id], j, w, run + i - 1))
  {
    hide Settled, Valid;
    if i > 0 {
      assert jobs[..i][..i - 1] == jobs[..i - 1];
    }
  }

  /** A job as its worker sees it. */
  function Seen(j: Job, now: Instant): Job {
    j.(state := Executing, attempt := j.attempt + 1, attemptedAt := now)
  }

  /** The job after is what one run, of the n from the first on, made of the job before. */
  ghost predicate RanOnce(before: Job, after: Job, w: World, now: Instant, first: nat, n: nat) {
    exists k: nat :: first <= k < first + n && after == Settled(Seen(before, now), Seen(before, now), w, k)
  }

  /** The store after one round. */
  lemma RoundStore(p: Progress, queue: string, now: Instant, w: World)
    requires Sound(p) && AttemptsCount(p.store)
    ensures var s, jobs := FetchStep(p.store, queue, FETCH_LIMIT, now), Fetched(p.store, queue, FETCH_LIMIT, now);
      && BatchLeft(s, jobs, 0, queue)
      && Round(p, queue, now, w).store == BatchStore(s, jobs[..|jobs|], w, p.result.Total())
  {
    hide Fetched, FetchStep, BatchLeft, AttemptsCount, BatchStore, BatchResult;
    BatchStart(p.store, queue, now);
    var jobs := Fetched(p.store, queue, FETCH_LIMIT, now);
    assert jobs[..|jobs|] == jobs;
  }

  lemma RoundRuns(p: Progress, queue: string, now: Instant, w: World, k: nat)
    requires Sound(p) && AttemptsCount(p.store) && k < |Fetched(p.store, queue, FETCH_LIMIT, now)|
    ensures var q, j := Round(p, queue, now, w), Fetched(p.store, queue, FETCH_LIMIT, now)[k];
      && j.id in p.store.jobs && j == Seen(p.store.jobs[j.id], now)
      && j.id in q.store.jobs && q.store.jobs[j.id] == Settled(j, j, w, p.result.Total() + k)
  {
    hide Settled, Fetched, FetchStep, BatchLeft, AttemptsCount, BatchStore, BatchResult, Round, Runnable, GoesFirst;
    var s, jobs := FetchStep(p.store, queue, FETCH_LIMIT, now), Fetched(p.store, queue, FETCH_LIMIT, now);
    RoundStore(p, queue, now, w);
    BatchSettles(s, jobs, |jobs|, w, p.result.Total(), queue);
    FetchHandsOut(p.store, queue, FETCH_LIMIT, now);
  }

  lemma RoundLeaves(p: Progress, queue: string, now: Instant, w: World, id: int)
    requires Sound(p) && AttemptsCount(p.store) && id in p.store.jobs
    requires id !in IdsOf(Fetched(p.store, queue, FETCH_LIMIT, now))
    ensures var q := Round(p, queue, now, w); id in q.store.jobs && q.store.jobs[id] == p.store.jobs[id]
  {
    hide Settled, Fetched, FetchStep, BatchLeft, AttemptsCount, BatchStore, BatchResult, Round, IdsOf;
    var s, jobs := FetchStep(p.store, queue, FETCH_LIMIT, now), Fetched(p.store, queue, FETCH_LIMIT, now);
    RoundStore(p, queue, now, w);
    BatchSettles(s, jobs, |jobs|, w, p.result.Total(), queue);
    UnfetchedSame(p.store, queue, now, id);
  }

  /** One round runs just the jobs it fetched, each once, and touches no other. */
  lemma RoundSettles(p: Progress, queue: string, now: Instant, w: World, id: int)
    requires Sound(p) && AttemptsCount(p.store) && id in p.store.jobs
    ensures var q, jobs := Round(p, queue, now, w), Fetched(p.store, queue, FETCH_LIMIT, now);
      && id in q.store.jobs
      && (id !in IdsOf(jobs) ==> q.store.jobs[id] == p.store.jobs[id])
      && (id in IdsOf(jobs) ==> RanOnce(p.store.jobs[id], q.store.jobs[id], w, now, p.result.Total(), |jobs|))
  {
    hide Settled, Fetched, AttemptsCount, Round, Seen;
    var jobs := Fetched(p.store, queue, FETCH_LIMIT, now);
    if id in IdsOf(jobs) {
      var k :| 0 <= k < |jobs| && jobs[k].id == id;
      RoundRuns(p, queue, now, w, k);
    } else {
      RoundLeaves(p, queue, now, w, id);
    }
  }

  lemma UnfetchedSame(s: StoreState, queue: string, now: Instant, id: int)
    requires Valid(s) && AttemptsCount(s) && id in s.jobs && id !in IdsOf(Fetched(s, queue, FETCH_LIMIT, now))
    ensures var s' := FetchStep(s, queue, FETCH_LIMIT, now); id in s'.jobs && s'.jobs[id] == s.jobs[id]
  {
    hide Picked, Fetched, AttemptsCount, BatchLeft;
    BatchStart(s, queue, now);
  }

  /** A fetch with at most 2^30 runnable jobs hands out all of them. */
  lemma FetchesAll(s: StoreState, queue: string, now: Instant, id: int)
    requires Valid(s) && AttemptsCount(s) && |RunnableIds(s, queue, now)| <= 1_073_741_824
    ensures |Fetched(s, queue, FETCH_LIMIT, now)| == |RunnableIds(s, queue, now)|
    ensures id in IdsOf(Fetched(s, queue, FETCH_LIMIT, now)) <==> id in RunnableIds(s, queue, now)
  {
    hide Fetched, FetchStep, AttemptsCount, BatchLeft, GoesFirst, Runnable;
    var js, all := Fetched(s, queue, FETCH_LIMIT, now), RunnableIds(s, queue, now);
    FetchCount(s, queue, FETCH_LIMIT, now);
    FetchHandsOut(s, queue, FETCH_LIMIT, now);
    BatchStart(s, queue, now);
    BatchApart(FetchStep(s, queue, FETCH_LIMIT, now), js, queue);
    IdCount(js);
    assert IdsOf(js) <= all;
    SameSet(IdsOf(js), all);
  }

  lemma {:induction false} IdCount(js: seq<Job>)
    requires forall i, k :: 0 <= i < k < |js| ==> js[i].id != js[k].id
    ensures |IdsOf(js)| == |js|
    decreases |js|
  {
    if js == [] {
    } else {
      var n := |js| - 1;
      IdCount(js[..n]);
      assert js == js[..n] + [js[n]];
      AppendPicked(js[..n], [js[n]], 0);
      assert IdsOf([js[n]]) == {js[n].id};
      assert js[n].id !in IdsOf(js[..n]);
      assert IdsOf(js) == IdsOf(js[..n]) + {js[n].id};
    }
  }

  lemma SameSet(a: set<int>, b: set<int>)
    requires a <= b && |a| == |b|
    ensures a == b
  {
    assert b == a + (b - a);
  }

  lemma SoundStart(s: StoreState)
    requires Valid(s)
    ensures Sound(Progress(s, EMPTY_RESULT, false))
  {
  }

  /** A drain whose context is not cancelled at the start begins with a round, or with a fetch of nothing. */
  lemma FirstRound(s: StoreState, opts: DrainOptions, w: World)
    requires Valid(s) && !w.cancelled(0)
    ensures Sound(Progress(s, EMPTY_RESULT, false))
    ensures var p, now := AfterRounds(s, opts, w, 1), FetchNow(opts, w, 0);
      p == if Fetched(s, opts.queue, FETCH_LIMIT, now) == [] then Progress(s, EMPTY_RESULT, true)
           else Round(Progress(s, EMPTY_RESULT, false), opts.queue, now, w)
  {
    hide Valid, Fetched, Round, FetchNow;
    SoundStart(s);
    AtStart(s, opts, w);
  }

  /**
   The first pass. With at most 2^30 runnable jobs it runs every one of them once, as its
   worker's outcome demands, and touches no other job.
   */
  lemma FirstPass(s: StoreState, opts: DrainOptions, w: World, id: int)
    requires Valid(s) && AttemptsCount(s) && !w.cancelled(0) && id in s.jobs
    requires |RunnableIds(s, opts.queue, FetchNow(opts, w, 0))| <= 1_073_741_824
    ensures var p, all := AfterRounds(s, opts, w, 1), RunnableIds(s, opts.queue, FetchNow(opts, w, 0));
      && id in p.store.jobs
      && (id !in all ==> p.store.jobs[id] == s.jobs[id])
      && (id in all ==> RanOnce(s.jobs[id], p.store.jobs[id], w, FetchNow(opts, w, 0), 0, |all|))
  {
    hide Fetched, RunnableIds, FetchNow, Round, AttemptsCount, Valid, AfterRounds, RanOnce, Sound, IdsOf;
    var now := FetchNow(opts, w, 0);
    FirstRound(s, opts, w);
    FetchesAll(s, opts.queue, now, id);
    NoIdsAtAll();
    RoundSettles(Progress(s, EMPTY_RESULT, false), opts.queue, now, w, id);
  }

  lemma NoIdsAtAll()
    ensures IdsOf([]) == {}
  {
  }

  lemma FirstPassTotal(s: StoreState, opts: DrainOptions, w: World)
    requires Valid(s) && AttemptsCount(s) && !w.cancelled(0)
    requires |RunnableIds(s, opts.queue, FetchNow(opts, w, 0))| <= 1_073_741_824
    ensures AfterRounds(s, opts, w, 1).result.Total() == |RunnableIds(s, opts.queue, FetchNow(opts, w, 0))|
  {
    hide Fetched, RunnableIds, FetchNow, Round, AttemptsCount, Valid, AfterRounds, Sound, IdsOf;
    var now := FetchNow(opts, w, 0);
    FirstRound(s, opts, w);
    FetchesAll(s, opts.queue, now, 0);
    RoundSound(Progress(s, EMPTY_RESULT, false), opts.queue, now, w);
  }

  lemma {:induction false} TotalGrows(s: StoreState, opts: DrainOptions, w: World, m: nat, n: nat)
    requires Valid(s) && m <= n
    ensures AfterRounds(s, opts, w, m).result.Total() <= AfterRounds(s, opts, w, n).result.Total()
    decreases n
  {
    hide Valid, Returns, Fetched, FetchNow, Round;
    if m == n {
    } else {
      TotalGrows(s, opts, w, m, n - 1);
      RoundSound(AfterRounds(s, opts, w, n - 1), opts.queue, FetchNow(opts, w, n - 1), w);
    }
  }

  /** The far future of WithScheduled, in seconds since the zero time. */
  lemma FarFuture()
    ensures FAR_FUTURE == 4_611_686_080_562_984_704 * 1_000_000_000
  {
  }

  // ---- When Drain comes to an end ----

  lemma {:induction false} WorkEveryRound(s: StoreState, opts: DrainOptions, w: World, n: nat)
    requires Valid(s) && !AfterRounds(s, opts, w, n).over
    ensures AfterRounds(s, opts, w, n).result.Total() >= n
  {
    hide Valid, Round, Returns, FetchNow;
    if n == 0 {
    } else {
      WorkEveryRound(s, opts, w, n - 1);
      OneMoreRun(AfterRounds(s, opts, w, n - 1), opts, w, n - 1);
    }
  }

  /** A round that Drain makes has work. */
  lemma OneMoreRun(p: Progress, opts: DrainOptions, w: World, n: nat)
    requires Sound(p) && !Returns(p, opts, w, n)
    ensures Round(p, opts.queue, FetchNow(opts, w, n), w).result.Total() > p.result.Total()
  {
    hide Round, Fetched, FetchNow, Sound;
    RoundSound(p, opts.queue, FetchNow(opts, w, n), w);
  }

  ghost predicate SnoozesAtMost(s: StoreState, opts: DrainOptions, w: World, b: int)
    requires Valid(s)
  {
    forall n: nat :: AfterRounds(s, opts, w, n).result.snoozed <= b
  }

  /** With at most b snoozes Drain has returned after potential + b + 1 rounds. */
  lemma EndsInTime(s: StoreState, opts: DrainOptions, w: World, b: int)
    requires Valid(s) && AttemptsCount(s) && SnoozesAtMost(s, opts, w, b)
    ensures Potential(s, opts.queue, {}) >= 0 && b >= 0
    ensures AfterRounds(s, opts, w, Potential(s, opts.queue, {}) + b + 1).over
  {
    hide Valid, AfterRounds, Potential, AttemptsCount, Tally, Open, Sum;
    AtStart(s, opts, w);
    assert AfterRounds(s, opts, w, 0).result.snoozed <= b;
    PotentialNonNegative(s, opts.queue);
    var n := Potential(s, opts.queue, {}) + b + 1;
    assert AfterRounds(s, opts, w, n).result.snoozed <= b;
    hide SnoozesAtMost;
    var p := AfterRounds(s, opts, w, n);
    if !p.over {
      WorkEveryRound(s, opts, w, n);
      AfterTally(s, opts, w, n);
      TallyJobs(s, p.store, p.result, opts.queue);
    }
  }

  lemma {:induction false} BatchSnoozes(r: DrainResult, jobs: seq<Job>, w: World, run: nat)
    ensures BatchResult(r, jobs, w, run).snoozed >= r.snoozed
  {
    hide BucketOf;
    if jobs == [] {
    } else {
      BatchSnoozes(r, jobs[..|jobs| - 1], w, run);
    }
  }

  lemma {:induction false} SnoozesGrow(s: StoreState, opts: DrainOptions, w: World, m: nat, n: nat)
    requires Valid(s) && m <= n
    ensures AfterRounds(s, opts, w, m).result.snoozed <= AfterRounds(s, opts, w, n).result.snoozed
    decreases n
  {
    hide Valid, Returns, Fetched, FetchStep, FetchNow, BatchResult, BatchStore;
    if m == n {
    } else {
      SnoozesGrow(s, opts, w, m, n - 1);
      var p := AfterRounds(s, opts, w, n - 1);
      BatchSnoozes(p.result, Fetched(p.store, opts.queue, FETCH_LIMIT, FetchNow(opts, w, n - 1)), w, p.result.Total());
    }
  }

  /** Drain returns if and only if its workers snooze only so many times in the run it makes. */
  lemma DrainEnds(s: StoreState, opts: DrainOptions, w: World)
    requires Valid(s) && AttemptsCount(s)
    ensures (exists n: nat :: AfterRounds(s, opts, w, n).over) <==> (exists b :: SnoozesAtMost(s, opts, w, b))
  {
    hide AfterRounds, Valid, AttemptsCount, Potential;
    if b :| SnoozesAtMost(s, opts, w, b) {
      EndsInTime(s, opts, w, b);
    }
    if n: nat :| AfterRounds(s, opts, w, n).over {
      forall m: nat ensures AfterRounds(s, opts, w, m).result.snoozed <= AfterRounds(s, opts, w, n).result.snoozed {
        if m <= n {
          SnoozesGrow(s, opts, w, m, n);
        } else {
          OverStays(s, opts, w, n, m);
        }
      }
      assert SnoozesAtMost(s, opts, w, AfterRounds(s, opts, w, n).result.snoozed);
    }
  }

  /** From the m-th run on no worker snoozes. */
  ghost predicate QuietFrom(w: World, m: nat) {
    forall k: nat, j: Job :: k >= m ==> !w.outcome(k, j).SnoozeSignal?
  }

  predicate FewSnoozes(r: DrainResult, m: nat) { r.snoozed <= r.Total() && r.snoozed <= m }

  lemma {:induction false} BatchQuiet(r: DrainResult, jobs: seq<Job>, w: World, m: nat)
    requires r.Total() >= 0 && FewSnoozes(r, m) && QuietFrom(w, m)
    ensures FewSnoozes(BatchResult(r, jobs, w, r.Total()), m)
  {
    if jobs == [] {
    } else {
      BatchQuiet(r, jobs[..|jobs| - 1], w, m);
      BatchTotal(r, jobs[..|jobs| - 1], w, r.Total());
    }
  }

  lemma {:induction false} AfterQuiet(s: StoreState, opts: DrainOptions, w: World, m: nat, n: nat)
    requires Valid(s) && QuietFrom(w, m)
    ensures FewSnoozes(AfterRounds(s, opts, w, n).result, m)
    decreases n
  {
    hide Valid, Returns, Fetched, FetchStep, FetchNow, BatchResult, BatchStore, QuietFrom;
    if n == 0 {
    } else {
      AfterQuiet(s, opts, w, m, n - 1);
      var p := AfterRounds(s, opts, w, n - 1);
      BatchQuiet(p.result, Fetched(p.store, opts.queue, FETCH_LIMIT, FetchNow(opts, w, n - 1)), w, m);
    }
  }

  /** If workers stop snoozing at the m-th run, Drain returns within potential + m + 1 rounds. */
  lemma QuietEnds(s: StoreState, opts: DrainOptions, w: World, m: nat)
    requires Valid(s) && AttemptsCount(s) && QuietFrom(w, m)
    ensures Potential(s, opts.queue, {}) >= 0 && AfterRounds(s, opts, w, Potential(s, opts.queue, {}) + m + 1).over
  {
    hide AfterRounds, Valid, AttemptsCount, Potential, QuietFrom;
    forall n: nat ensures AfterRounds(s, opts, w, n).result.snoozed <= m {
      AfterQuiet(s, opts, w, m, n);
    }
    EndsInTime(s, opts, w, m);
  }

  /** A context cancelled by round n stops Drain there at the latest. */
  lemma CancelEnds(s: StoreState, opts: DrainOptions, w: World, n: nat)
    requires Valid(s) && w.cancelled(n)
    ensures AfterRounds(s, opts, w, n + 1).over
  {
    hide Valid, Fetched, FetchNow, Round;
    assert Sound(AfterRounds(s, opts, w, n));
  }

  ghost predicate OnlySnoozes(w: World) {
    forall k: nat, j: Job :: w.outcome(k, j).SnoozeSignal?
  }

  lemma {:induction false} BatchOnlySnoozes(r: DrainResult, jobs: seq<Job>, w: World, run: nat)
    requires OnlySnoozes(w)
    ensures BatchResult(r, jobs, w, run).Ended() == r.Ended()
  {
    if jobs == [] {
    } else {
      BatchOnlySnoozes(r, jobs[..|jobs| - 1], w, run);
    }
  }

  /** Job id of the queue is fetchable by then. */
  ghost predicate Waits(s: StoreState, queue: string, id: int, at: Instant) {
    id in s.jobs && Eligible(s.jobs[id], queue, at)
  }

  lemma WaitsFetched(s: StoreState, queue: string, id: int, at: Instant, now: Instant)
    requires Valid(s) && Waits(s, queue, id, at) && at <= now
    ensures Fetched(s, queue, FETCH_LIMIT, now) != []
  {
    hide Fetched;
    NothingLeft(s, queue, now);
    assert s.jobs[id] in Candidates(s, queue, now);
  }

  /** A snoozed job waits again. */
  lemma SnoozedWaits(j: Job, w: World, run: nat, at: Instant)
    requires j.state.Executing? && OnlySnoozes(w) && Calm(w, at)
    ensures var j' := Settled(j, j, w, run); Eligible(j', j.queue, at)
  {
    assert w.outcome(run, j).SnoozeSignal?;
    assert w.runClock(run) + w.backoff(j.attempt) <= at;
  }

  /** After each turn of the batch loop a job still waits, unless its own turn is yet to come. */
  lemma {:induction false} BatchWaits(s: StoreState, jobs: seq<Job>, i: nat, w: World, run: nat, queue: string, id: int, at: Instant)
    requires i <= |jobs| && BatchLeft(s, jobs, 0, queue) && OnlySnoozes(w) && Calm(w, at)
    requires id in IdsOf(jobs) || Waits(s, queue, id, at)
    ensures id in IdsOf(jobs[i..]) || Waits(BatchStore(s, jobs[..i], w, run), queue, id, at)
  {
    hide Settled, Eligible, OnlySnoozes, Calm, BatchLeft;
    if i == 0 {
      assert jobs[0..] == jobs;
    } else {
      var k := i - 1;
      assert jobs[..i][..k] == jobs[..k];
      BatchWaits(s, jobs, k, w, run, queue, id, at);
      BatchWaiting(s, jobs, k, w, run, queue);
      BatchApart(s, jobs, queue);
      BatchNext(jobs, k);
      if id == jobs[k].id {
        SnoozedWaits(jobs[k], w, run + k, at);
      }
    }
  }

  lemma BatchApart(s: StoreState, jobs: seq<Job>, queue: string)
    requires BatchLeft(s, jobs, 0, queue)
    ensures forall k, m :: 0 <= k < m < |jobs| ==> jobs[k].id != jobs[m].id
  {
  }

  lemma WaitsAfterFetch(s: StoreState, queue: string, now: Instant, id: int, at: Instant)
    requires Valid(s) && AttemptsCount(s) && Waits(s, queue, id, at)
    ensures id in IdsOf(Fetched(s, queue, FETCH_LIMIT, now)) || Waits(FetchStep(s, queue, FETCH_LIMIT, now), queue, id, at)
  {
    hide Picked, Fetched, AttemptsCount, BatchLeft;
    BatchStart(s, queue, now);
    var ids := IdsOf(Picked(s, queue, FETCH_LIMIT, now));
    assert FetchStep(s, queue, FETCH_LIMIT, now).jobs == MarkJobs(s.jobs, ids, now);
  }

  lemma WaitsRound(p: Progress, queue: string, now: Instant, w: World, id: int, at: Instant)
    requires Sound(p) && AttemptsCount(p.store) && Waits(p.store, queue, id, at) && OnlySnoozes(w) && Calm(w, at)
    ensures Waits(Round(p, queue, now, w).store, queue, id, at)
  {
    hide Waits, Fetched, FetchStep, BatchStore, BatchLeft, OnlySnoozes, Calm, AttemptsCount, IdsOf;
    var s, jobs := FetchStep(p.store, queue, FETCH_LIMIT, now), Fetched(p.store, queue, FETCH_LIMIT, now);
    BatchStart(p.store, queue, now);
    WaitsAfterFetch(p.store, queue, now, id, at);
    BatchWaits(s, jobs, |jobs|, w, p.result.Total(), queue, id, at);
    NoIds(jobs);
    assert jobs[..|jobs|] == jobs;
  }

  lemma SnoozersEnd(p: Progress, queue: string, now: Instant, w: World)
    requires Sound(p) && OnlySnoozes(w)
    ensures !Round(p, queue, now, w).over && Round(p, queue, now, w).result.Ended() == p.result.Ended()
  {
    hide Valid, Fetched, FetchStep, BatchResult, BatchStore, OnlySnoozes;
    BatchOnlySnoozes(p.result, Fetched(p.store, queue, FETCH_LIMIT, now), w, p.result.Total());
  }

  /**
   Workers that always snooze, by no more than the fetches look ahead, keep a drain with
   recursion going: it has not returned after any number of rounds.
   */
  lemma {:induction false} SnoozesForever(s: StoreState, opts: DrainOptions, w: World, id: int, at: Instant, n: nat)
    requires Valid(s) && AttemptsCount(s) && Waits(s, opts.queue, id, at) && Calm(w, at) && OnlySnoozes(w)
    requires opts.withRecursion && forall k: nat :: !w.cancelled(k) && at <= FetchNow(opts, w, k)
    ensures var p := AfterRounds(s, opts, w, n);
      !p.over && p.result.Ended() == 0 && AttemptsCount(p.store) && Waits(p.store, opts.queue, id, at)
  {
    hide Valid, Round, FetchNow, OnlySnoozes, Calm, AttemptsCount, Tally, Waits, Fetched;
    if n == 0 {
    } else {
      SnoozesForever(s, opts, w, id, at, n - 1);
      var p, now := AfterRounds(s, opts, w, n - 1), FetchNow(opts, w, n - 1);
      WaitsFetched(p.store, opts.queue, id, at, now);
      WaitsRound(p, opts.queue, now, w, id, at);
      SnoozersEnd(p, opts.queue, now, w);
      RoundTally(p, opts.queue, now, w);
    }
  }

  /** A world in which every worker snoozes until that time, and the clock stands there at each fetch. */
  function Snoozers(at: Instant): World {
    World((k: nat, j: Job) => SnoozeSignal(1), (k: nat) => at - 1, a => 0, (k: nat) => at, (k: nat) => false)
  }

  ghost predicate Ends(s: StoreState, opts: DrainOptions, w: World)
    requires Valid(s)
  {
    exists n: nat :: AfterRounds(s, opts, w, n).over
  }

  /** A job that some clock lets this drain fetch. */
  ghost predicate CanFetch(s: StoreState, opts: DrainOptions, id: int) {
    && id in s.jobs && s.jobs[id].queue == opts.queue && Fetchable(s.jobs[id].state)
    && (opts.withScheduled ==> s.jobs[id].scheduledAt <= FAR_FUTURE)
  }

  lemma NoRecursionEnds(s: StoreState, opts: DrainOptions, w: World)
    requires Valid(s) && !opts.withRecursion
    ensures AfterRounds(s, opts, w, 2).over
  {
    hide Valid, Round, Fetched, FetchNow;
    var p := AfterRounds(s, opts, w, 1);
    assert p.over || Returns(p, opts, w, 1);
  }

  lemma PickedCanFetch(s: StoreState, opts: DrainOptions, w: World)
    requires Valid(s)
    ensures var js := Picked(s, opts.queue, FETCH_LIMIT, FetchNow(opts, w, 0)); js == [] || CanFetch(s, opts, js[0].id)
  {
    hide Picked;
    PickedFacts(s, opts.queue, FETCH_LIMIT, FetchNow(opts, w, 0));
  }

  lemma NothingToFetchEnds(s: StoreState, opts: DrainOptions, w: World)
    requires Valid(s) && forall id :: !CanFetch(s, opts, id)
    ensures AfterRounds(s, opts, w, 1).over
  {
    hide Valid, Round, Picked, CanFetch;
    PickedCanFetch(s, opts, w);
    AtStart(s, opts, w);
  }

  lemma SnoozersGoOn(s: StoreState, opts: DrainOptions, id: int) returns (w: World)
    requires Valid(s) && AttemptsCount(s) && opts.withRecursion && CanFetch(s, opts, id)
    ensures !Ends(s, opts, w)
  {
    var at := if opts.withScheduled then FAR_FUTURE else s.jobs[id].scheduledAt;
    w := Snoozers(at);
    assert Waits(s, opts.queue, id, at) && Calm(w, at) && OnlySnoozes(w);
    assert forall k: nat :: !w.cancelled(k) && at <= FetchNow(opts, w, k);
    hide Snoozers, Waits, Calm, OnlySnoozes, Valid, AttemptsCount, AfterRounds, FetchNow, CanFetch;
    forall n: nat ensures !AfterRounds(s, opts, w, n).over {
      SnoozesForever(s, opts, w, id, at, n);
    }
  }

  /**
   What a caller can rely on: Drain returns from this store whatever its workers, clocks
   and context do if and only if it is not recursive or there is no job it could fetch.
   */
  lemma AlwaysEnds(s: StoreState, opts: DrainOptions)
    requires Valid(s) && AttemptsCount(s)
    ensures (forall w :: Ends(s, opts, w)) <==> !opts.withRecursion || forall id :: !CanFetch(s, opts, id)
  {
    hide Valid, AttemptsCount, AfterRounds, CanFetch;
    if !opts.withRecursion || forall id :: !CanFetch(s, opts, id) {
      forall w ensures Ends(s, opts, w) {
        if !opts.withRecursion {
          NoRecursionEnds(s, opts, w);
        } else {
          NothingToFetchEnds(s, opts, w);
        }
      }
    } else {
      var id :| CanFetch(s, opts, id);
      var w := SnoozersGoOn(s, opts, id);
    }
  }

  /** ... and from every store if and only if it is not recursive. */
  lemma EndsEverywhere(opts: DrainOptions)
    ensures (forall s, w :: Valid(s) && AttemptsCount(s) ==> Ends(s, opts, w)) <==> !opts.withRecursion
  {
    hide AfterRounds, Ends;
    if opts.withRecursion {
      var s := OneJob(opts);
      AlwaysEnds(s, opts);
    } else {
      forall s, w | Valid(s) && AttemptsCount(s) ensures Ends(s, opts, w) {
        AlwaysEnds(s, opts);
      }
    }
  }

  lemma OneJob(opts: DrainOptions) returns (s: StoreState)
    ensures Valid(s) && AttemptsCount(s) && CanFetch(s, opts, 1)
  {
    var job := Job(1, opts.queue, "worker", "{}", 1, 0, 0, Available, 1, 1, ZERO_TIME, ZERO_TIME, ZERO_TIME, "", 0, "", [], None);
    s := StoreState(map[1 := job], 1);
  }

  // ---- A drain is an owner run ----

  lemma FetchOwned(s: StoreState, queue: string, now: Instant)
    requires Inv(Run(s, Held(s)))
    ensures var r, s' := Run(s, Held(s)), FetchStep(s, queue, FETCH_LIMIT, now);
      Do(r, Fetch(queue, FETCH_LIMIT, now)) == Run(s', Held(s')) && Inv(Run(s', Held(s')))
  {
    hide Booked, Spaced, Picked, Fetched, Held;
    var r := Run(s, Held(s));
    StepKeeps(r, Fetch(queue, FETCH_LIMIT, now));
    HeldIs(Do(r, Fetch(queue, FETCH_LIMIT, now)));
  }

  lemma SettleOwned(s: StoreState, id: int, w: World, run: nat) returns (step: Step)
    requires Inv(Run(s, Held(s))) && id in s.jobs && s.jobs[id].state.Executing?
    ensures var r, s' := Run(s, Held(s)), Put(s, id, Settled(s.jobs[id], s.jobs[id], w, run));
      Enabled(r, step) && Do(r, step) == Run(s', Held(s')) && Inv(Run(s', Held(s')))
  {
    var r := Run(s, Held(s));
    assert id in r.held && r.held[id] == s.jobs[id];
    hide Booked, Spaced, Held, Settled, OutcomeOf;
    step := Finish(id, OutcomeOf(r.held[id], w, run), w.runClock(run) + w.backoff(r.held[id].attempt), w.runClock(run));
    DrainRunIsOwnerStep(r, id, w, run);
    HeldIs(Do(r, step));
  }

  lemma {:induction false} BatchOwned(s: StoreState, jobs: seq<Job>, i: nat, w: World, run: nat, queue: string)
    returns (steps: seq<Step>)
    requires i <= |jobs| && Inv(Run(s, Held(s))) && BatchLeft(s, jobs, 0, queue)
    ensures var s' := BatchStore(s, jobs[..i], w, run);
      Leads(Run(s, Held(s)), steps, Run(s', Held(s'))) && Inv(Run(s', Held(s')))
  {
    hide Inv, Do, Held, Settled, Leads, BatchLeft;
    if i == 0 {
      steps := [];
      LeadsNowhere(Run(s, Held(s)));
    } else {
      var k := i - 1;
      assert jobs[..i][..k] == jobs[..k];
      steps := BatchOwned(s, jobs, k, w, run, queue);
      BatchWaiting(s, jobs, k, w, run, queue);
      var p := BatchStore(s, jobs[..k], w, run);
      var step := SettleOwned(p, jobs[k].id, w, run + k);
      InvValid(p);
      LeadsMore(Run(s, Held(s)), steps, Run(p, Held(p)), step);
      steps := steps + [step];
    }
  }

  /** When its turn comes, a job of the batch is still the stored one, executing. */
  lemma BatchWaiting(s: StoreState, jobs: seq<Job>, k: nat, w: World, run: nat, queue: string)
    requires k < |jobs| && BatchLeft(s, jobs, 0, queue)
    ensures var p := BatchStore(s, jobs[..k], w, run);
      jobs[k].id in p.jobs && p.jobs[jobs[k].id] == jobs[k] && jobs[k].state.Executing? && jobs[k].queue == queue
  {
    hide Tally, ReachKept, AttemptsCount, BatchStore;
    BatchFacts(s, jobs, k, w, run, EMPTY_RESULT, queue);
    BatchNext(jobs, k);
  }

  lemma LeadsNowhere(r: Run)
    ensures Leads(r, [], r)
  {
  }

  lemma InvValid(s: StoreState)
    requires Inv(Run(s, Held(s)))
    ensures Valid(s) && AttemptsCount(s)
  {
  }

  lemma RoundOwned(p: Progress, queue: string, now: Instant, w: World) returns (steps: seq<Step>)
    requires Sound(p) && Inv(Run(p.store, Held(p.store)))
    ensures var q := Round(p, queue, now, w);
      Leads(Run(p.store, Held(p.store)), steps, Run(q.store, Held(q.store))) && Inv(Run(q.store, Held(q.store)))
  {
    hide Inv, Do, Held, Fetched, FetchStep, BatchStore, BatchLeft, Leads, AttemptsCount;
    var a, jobs := Run(p.store, Held(p.store)), Fetched(p.store, queue, FETCH_LIMIT, now);
    var s := FetchStep(p.store, queue, FETCH_LIMIT, now);
    InvValid(p.store);
    FetchOwned(p.store, queue, now);
    LeadsNowhere(a);
    LeadsMore(a, [], a, Fetch(queue, FETCH_LIMIT, now));
    BatchStart(p.store, queue, now);
    var rest := BatchOwned(s, jobs, |jobs|, w, p.result.Total(), queue);
    assert jobs[..|jobs|] == jobs;
    steps := [] + [Fetch(queue, FETCH_LIMIT, now)] + rest;
    LeadsJoin(a, [] + [Fetch(queue, FETCH_LIMIT, now)], Run(s, Held(s)), rest,
              Run(Round(p, queue, now, w).store, Held(Round(p, queue, now, w).store)));
  }

  /** Every drain is an owner run: fetches, and finishing steps by the jobs' owners. */
  lemma {:induction false} DrainIsOwnerRun(s: StoreState, opts: DrainOptions, w: World, n: nat) returns (steps: seq<Step>)
    requires Valid(s) && Inv(Run(s, Held(s)))
    ensures var p := AfterRounds(s, opts, w, n);
      Leads(Run(s, Held(s)), steps, Run(p.store, Held(p.store))) && Inv(Run(p.store, Held(p.store)))
  {
    hide Inv, Do, Held, Leads, Round, Returns, FetchNow, Valid;
    if n == 0 {
      steps := [];
      LeadsNowhere(Run(s, Held(s)));
    } else {
      steps := DrainIsOwnerRun(s, opts, w, n - 1);
      var p := AfterRounds(s, opts, w, n - 1);
      if !p.over && !Returns(p, opts, w, n - 1) {
        var q := Round(p, opts.queue, FetchNow(opts, w, n - 1), w);
        var more := RoundOwned(p, opts.queue, FetchNow(opts, w, n - 1), w);
        LeadsJoin(Run(s, Held(s)), steps, Run(p.store, Held(p.store)), more, Run(q.store, Held(q.store)));
        steps := steps + more;
      }
    }
  }

  /** What the tally of a whole drain says, in terms of the store before and after. */
  ghost predicate Balanced(s: StoreState, s': StoreState, r: DrainResult, queue: string) {
    && 0 <= Potential(s', queue, {}) <= Potential(s, queue, {}) - (r.Total() - r.snoozed)
    && r.completed + r.discarded + r.cancelled + r.failed == |Open(s, queue, {})| - |Open(s', queue, {})|
    && Sum(Attempts(s')) - Sum(Attempts(s)) == r.Total() - r.snoozed
    && Sum(ErrorCounts(s')) - Sum(ErrorCounts(s)) == r.retried + r.discarded + r.failed
  }

  lemma TallyBalanced(s: StoreState, s': StoreState, r: DrainResult, queue: string)
    requires Tally(s, {}, EMPTY_RESULT, s', {}, r, queue)
    ensures Balanced(s, s', r, queue)
  {
    hide Potential, Attempts, ErrorCounts, Open, Sum, Tally;
    TallyJobs(s, s', r, queue);
    TallyAttempts(s, s', r, queue);
  }

  lemma AtStart(s: StoreState, opts: DrainOptions, w: World)
    requires Valid(s)
    ensures AfterRounds(s, opts, w, 0) == Progress(s, EMPTY_RESULT, false)
  {
    hide Valid;
  }

  /** One turn of the loop: Drain returns, or makes a round with work. */
  lemma Turn(s: StoreState, opts: DrainOptions, w: World, n: nat, s': StoreState, r: DrainResult)
    requires Valid(s) && AfterRounds(s, opts, w, n) == Progress(s', r, false)
    ensures Valid(s') && r.Total() >= 0
    ensures var jobs := Fetched(s', opts.queue, FETCH_LIMIT, FetchNow(opts, w, n));
      AfterRounds(s, opts, w, n + 1) ==
        if w.cancelled(n) || (n > 0 && !opts.withRecursion) || jobs == [] then Progress(s', r, true)
        else Progress(BatchStore(FetchStep(s', opts.queue, FETCH_LIMIT, FetchNow(opts, w, n)), jobs, w, r.Total()),
                      BatchResult(r, jobs, w, r.Total()), false)
  {
    hide Valid, Fetched, FetchStep, BatchStore, BatchResult, FetchNow;
    assert Sound(AfterRounds(s, opts, w, n));
  }

  /** Drain has returned after that many rounds, with their store and tally, and for the reason it gives. */
  ghost predicate Drained(
    s: StoreState, opts: DrainOptions, w: World, rounds: nat, s': StoreState, r: DrainResult, end: DrainEnd)
    requires Valid(s)
  {
    && AfterRounds(s, opts, w, rounds) == Progress(s', r, false)
    && AfterRounds(s, opts, w, rounds + 1) == Progress(s', r, true)
    && !end.QueueRequired?
    && (end.ContextDone? ==> w.cancelled(rounds))
    && (end.Finished? && opts.withRecursion ==> Candidates(s', opts.queue, FetchNow(opts, w, rounds)) == {})
  }

  lemma ReturnsHere(s: StoreState, opts: DrainOptions, w: World, n: nat, s': StoreState, r: DrainResult)
    requires Valid(s) && AfterRounds(s, opts, w, n) == Progress(s', r, false)
    ensures w.cancelled(n) ==> Drained(s, opts, w, n, s', r, ContextDone)
    ensures n > 0 && !opts.withRecursion ==> Drained(s, opts, w, n, s', r, Finished)
  {
    hide AfterRounds, Valid, Fetched, FetchStep, BatchStore, BatchResult, Candidates;
    Turn(s, opts, w, n, s', r);
  }

  lemma StillBefore(s: StoreState, opts: DrainOptions, w: World, n: nat, horizon: nat)
    requires Valid(s) && !AfterRounds(s, opts, w, n).over && AfterRounds(s, opts, w, horizon).over
    ensures n < horizon
  {
    hide AfterRounds, Valid;
    if horizon <= n {
      OverStays(s, opts, w, horizon, n);
    }
  }

  /** What holds when Drain returns with this store and tally. */
  lemma ReturnedWith(s: StoreState, opts: DrainOptions, w: World, n: nat, s': StoreState, r: DrainResult)
    requires Valid(s) && AttemptsCount(s) && AfterRounds(s, opts, w, n) == Progress(s', r, false)
    ensures AttemptsCount(s') && Balanced(s, s', r, opts.queue)
    ensures ReachKept(s, s', opts.queue, w)
  {
    hide AfterRounds, Tally, ReachKept, AttemptsCount, Potential, Sum, Attempts, ErrorCounts, Valid;
    AfterTally(s, opts, w, n);
    TallyBalanced(s, s', r, opts.queue);
  }

  /** A drain whose context is not cancelled at the start has made its first pass; without recursion, just that. */
  lemma PassMade(s: StoreState, opts: DrainOptions, w: World, rounds: nat, s': StoreState, r: DrainResult, end: DrainEnd)
    requires Valid(s) && AttemptsCount(s) && Drained(s, opts, w, rounds, s', r, end)
    ensures !w.cancelled(0) && |RunnableIds(s, opts.queue, FetchNow(opts, w, 0))| <= 1_073_741_824 ==>
      && r.Total() >= |RunnableIds(s, opts.queue, FetchNow(opts, w, 0))|
      && (!opts.withRecursion ==> r.Total() == |RunnableIds(s, opts.queue, FetchNow(opts, w, 0))|)
  {
    hide AfterRounds, Valid, AttemptsCount, RunnableIds, FetchNow, Candidates;
    if !w.cancelled(0) && |RunnableIds(s, opts.queue, FetchNow(opts, w, 0))| <= 1_073_741_824 {
      FirstPassTotal(s, opts, w);
      TotalGrows(s, opts, w, 1, rounds + 1);
      if !opts.withRecursion {
        NoRecursionEnds(s, opts, w);
        StillBefore(s, opts, w, rounds, 2);
      }
    }
  }

  lemma FetchedIds(s: StoreState, queue: string, now: Instant)
    requires Valid(s)
    ensures forall j :: j in Fetched(s, queue, FETCH_LIMIT, now) ==> j.id in FetchStep(s, queue, FETCH_LIMIT, now).jobs
  {
    hide Fetched, FetchStep, Valid;
    var jobs := Fetched(s, queue, FETCH_LIMIT, now);
    forall j | j in jobs ensures j.id in FetchStep(s, queue, FETCH_LIMIT, now).jobs {
      var k :| 0 <= k < |jobs| && jobs[k] == j;
      MarkedClones(s, queue, now, k);
    }
  }

  /** One fetch and its batch: the body of Drain's loop. */
  method DrainRound(store: InMemoryStore, opts: DrainOptions, w: World, rounds: nat, result: DrainResult, ghost s: StoreState)
    returns (r: DrainResult, fetched: nat)
    requires store.Valid() && Valid(s) && AfterRounds(s, opts, w, rounds) == Progress(store.View(), result, false)
    requires !w.cancelled(rounds) && (opts.withRecursion || rounds == 0)
    modifies store
    ensures store.Valid()
    ensures fetched == 0 ==> Drained(s, opts, w, rounds, store.View(), r, Finished)
    ensures fetched > 0 ==> AfterRounds(s, opts, w, rounds + 1) == Progress(store.View(), r, false)
  {
    hide Candidates, Fetched, FetchStep, BatchStore, BatchResult, AfterRounds, StoreSpec.Valid;
    var now := if opts.withScheduled then FAR_FUTURE else w.fetchClock(rounds);
    Turn(s, opts, w, rounds, store.View(), result);
    FetchedIds(store.View(), opts.queue, now);
    NothingLeft(store.View(), opts.queue, now);
    var jobs := store.FetchAvailable(opts.queue, FETCH_LIMIT, now);
    fetched := |jobs|;
    if |jobs| == 0 {
      return result, fetched;
    }
    r := RunBatch(store, w, jobs, result.Total(), result);
  }

  /** The loop of Drain. */
  method DrainLoop(store: InMemoryStore, opts: DrainOptions, w: World, ghost horizon: nat)
    returns (result: DrainResult, end: DrainEnd, rounds: nat)
    requires store.Valid() && AfterRounds(store.View(), opts, w, horizon).over
    modifies store
    ensures store.Valid() && Drained(old(store.View()), opts, w, rounds, store.View(), result, end)
  {
    hide Drained, StoreSpec.Valid, AfterRounds;
    ghost var s := store.View();
    result, rounds := EMPTY_RESULT, 0;
    AtStart(s, opts, w);
    while true
      invariant store.Valid() && AfterRounds(s, opts, w, rounds) == Progress(store.View(), result, false)
      invariant opts.withRecursion || rounds == 0
      decreases horizon - rounds
    {
      StillBefore(s, opts, w, rounds, horizon);
      if w.cancelled(rounds) {
        ReturnsHere(s, opts, w, rounds, store.View(), result);
        return result, ContextDone, rounds;
      }
      var fetched;
      result, fetched := DrainRound(store, opts, w, rounds, result, s);
      if fetched == 0 {
        return result, Finished, rounds;
      }
      rounds := rounds + 1;
      if !opts.withRecursion {
        ReturnsHere(s, opts, w, rounds, store.View(), result);
        return result, Finished, rounds;
      }
    }
  }

  /**
   Drain. horizon is a round by which it returns; AlwaysEnds and DrainEnds say when there is one.
   The store and the tally are those of the rounds it made, whose number is also returned.
   */
  method Drain(store: InMemoryStore, opts: DrainOptions, w: World, ghost horizon: nat)
    returns (result: DrainResult, end: DrainEnd, rounds: nat)
    requires store.Valid() && AttemptsCount(store.View())
    requires opts.queue != "" ==> AfterRounds(store.View(), opts, w, horizon).over
    modifies store
    ensures store.Valid() && AttemptsCount(store.View())
    ensures end.QueueRequired? <==> opts.queue == ""
    ensures end.QueueRequired? ==> store.View() == old(store.View()) && result == EMPTY_RESULT
    ensures !end.QueueRequired? ==> Drained(old(store.View()), opts, w, rounds, store.View(), result, end)
    ensures result.Total() - result.snoozed <=
      Potential(old(store.View()), opts.queue, {}) - Potential(store.View(), opts.queue, {})
    ensures result.completed + result.discarded + result.cancelled + result.failed ==
      |Open(old(store.View()), opts.queue, {})| - |Open(store.View(), opts.queue, {})|
    ensures result.Total() - result.snoozed == Sum(Attempts(store.View())) - Sum(Attempts(old(store.View())))
    ensures result.retried + result.discarded + result.failed ==
      Sum(ErrorCounts(store.View())) - Sum(ErrorCounts(old(store.View())))
    ensures Inv(Run(old(store.View()), Held(old(store.View())))) ==> Inv(Run(store.View(), Held(store.View())))
    ensures end.Finished? && opts.withRecursion ==>
      (Open(store.View(), opts.queue, {}) == {} <==> InReach(store.View(), opts.queue, FetchNow(opts, w, rounds)))
    ensures ReachKept(old(store.View()), store.View(), opts.queue, w)
    ensures opts.queue != "" && !w.cancelled(0) && |RunnableIds(old(store.View()), opts.queue, FetchNow(opts, w, 0))| <= 1_073_741_824 ==>
      && result.Total() >= |RunnableIds(old(store.View()), opts.queue, FetchNow(opts, w, 0))|
      && (!opts.withRecursion ==> result.Total() == |RunnableIds(old(store.View()), opts.queue, FetchNow(opts, w, 0))|)
  {
    hide Tally, Candidates, InReach, ReachKept, Open, AttemptsCount, StoreSpec.Valid, AfterRounds, FetchNow, RunnableIds;
    hide Potential, Sum, Attempts, ErrorCounts, Inv, Held;
    ghost var s := store.View();
    if opts.queue == "" {
      result, rounds := EMPTY_RESULT, 0;
      TallyRefl(s, {}, result, opts.queue);
      TallyBalanced(s, s, result, opts.queue);
      ReachRefl(s, opts.queue, w);
      return result, QueueRequired, rounds;
    }
    result, end, rounds := DrainLoop(store, opts, w, horizon);
    ReturnedWith(s, opts, w, rounds, store.View(), result);
    PassMade(s, opts, w, rounds, store.View(), result, end);
    NothingFetchable(store.View(), opts.queue, FetchNow(opts, w, rounds));
    if Inv(Run(s, Held(s))) {
      ghost var _ := DrainIsOwnerRun(s, opts, w, rounds);
    }
  }
}
