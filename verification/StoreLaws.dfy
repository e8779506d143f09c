/**
 What the store's transitions mean to a caller, in the fields of jobs: which jobs a fetch
 hands out and in what order, when a job is refused as a duplicate, from when on a job can
 run, and at what time it counts as finished.
 */
module StoreLaws {
  import opened Options
  import opened Calendar
  import opened Jobs
  import opened StoreSpec
  import opened OwnerRuns

  /** A fetch of the queue at time t may hand the job out. */
  predicate Runnable(j: Job, queue: string, t: Instant) {
    j.queue == queue && (j.state == Available || j.state == Scheduled || j.state == Retryable) && j.scheduledAt <= t
  }

  function RunnableIds(s: StoreState, queue: string, t: Instant): set<int> {
    set id | id in s.jobs && Runnable(s.jobs[id], queue, t)
  }

  // ---- Fetching ----

  /** Lower priority numbers go first, then earlier schedules, then lower IDs. */
  predicate GoesFirst(a: Job, b: Job) {
    && a.priority <= b.priority
    && (a.priority == b.priority ==> a.scheduledAt <= b.scheduledAt)
    && (a.priority == b.priority && a.scheduledAt == b.scheduledAt ==> a.id < b.id)
  }

  lemma RunnableIsEligible(j: Job, queue: string, t: Instant)
    ensures Runnable(j, queue, t) <==> Eligible(j, queue, t)
  {
  }

  /** What a fetch hands out: runnable jobs, marked, in order of priority number, schedule and ID. */
  lemma FetchHandsOut(s: StoreState, queue: string, limit: int, now: Instant)
    requires Valid(s)
    ensures var js := Fetched(s, queue, limit, now);
      && (forall i, k :: 0 <= i < k < |js| ==> GoesFirst(js[i], js[k]))
      && (forall i :: 0 <= i < |js| ==>
            && js[i].id in s.jobs && Runnable(s.jobs[js[i].id], queue, now)
            && js[i] == s.jobs[js[i].id].(state := Executing, attempt := s.jobs[js[i].id].attempt + 1, attemptedAt := now))
  {
    hide Picked;
    PickedFacts(s, queue, limit, now);
    var ps := Picked(s, queue, limit, now);
    forall i, k | 0 <= i < k < |ps| ensures GoesFirst(Marked(ps[i], now), Marked(ps[k], now)) {
      assert Before(ps[i], ps[k]);
    }
  }

  /** What it leaves behind: only jobs that every job handed out goes before, and only when the limit is used up. */
  lemma FetchLeavesBehind(s: StoreState, queue: string, limit: int, now: Instant, id: int)
    requires Valid(s) && limit > 0 && id in s.jobs && Runnable(s.jobs[id], queue, now)
    ensures var js := Fetched(s, queue, limit, now);
      || (exists i :: 0 <= i < |js| && js[i].id == id)
      || (|js| == limit && forall i :: 0 <= i < |js| ==> GoesFirst(js[i], s.jobs[id]))
  {
    hide Picked;
    var ps, js := Picked(s, queue, limit, now), Fetched(s, queue, limit, now);
    if id in IdsOf(ps) {
      var i :| 0 <= i < |ps| && ps[i].id == id;
      assert js[i].id == id;
    } else {
      FetchTakesFirst(s, queue, limit, now, id);
      forall i | 0 <= i < |js| ensures GoesFirst(js[i], s.jobs[id]) {
        assert Before(ps[i], s.jobs[id]);
      }
    }
  }

  lemma {:induction false} RankedSize(js: seq<Job>, c: set<Job>)
    requires Ranks(js, c)
    ensures |js| == |c|
    decreases |js|
  {
    if js == [] {
      assert c == {};
    } else {
      ElementsAt(js);
      RanksTail(js, c);
      RankedSize(js[1..], c - {js[0]});
    }
  }

  lemma CandidateIds(s: StoreState, queue: string, now: Instant)
    requires Valid(s)
    ensures |Candidates(s, queue, now)| == |RunnableIds(s, queue, now)|
  {
    var ids, c := RunnableIds(s, queue, now), Candidates(s, queue, now);
    assert forall id :: id in ids ==> s.jobs[id].id == id;
    SameCount(s.jobs, ids, c);
  }

  lemma {:induction false} SameCount(jobs: map<int, Job>, ids: set<int>, c: set<Job>)
    requires forall id :: id in ids ==> id in jobs && jobs[id].id == id
    requires c == set id | id in ids :: jobs[id]
    ensures |c| == |ids|
    decreases ids
  {
    Inhabited(ids);
    if ids == {} {
      assert c == {};
    } else {
      var id :| id in ids;
      var less := set k | k in ids - {id} :: jobs[k];
      SameCount(jobs, ids - {id}, less);
      assert c == less + {jobs[id]} && jobs[id] !in less;
    }
  }

  /** How many it hands out: all runnable jobs, or as many as the limit allows. */
  lemma FetchCount(s: StoreState, queue: string, limit: int, now: Instant)
    requires Valid(s)
    ensures var n := |RunnableIds(s, queue, now)|;
      |Fetched(s, queue, limit, now)| == if limit <= 0 then 0 else if limit < n then limit else n
  {
    hide Ranks, Candidates, RunnableIds;
    CandidatesDistinct(s, queue, now);
    RankedSize(Ranking(Candidates(s, queue, now)), Candidates(s, queue, now));
    CandidateIds(s, queue, now);
  }

  // ---- Enqueueing ----

  /** The job holds a claim on the key of the other that was made no earlier than since. */
  predicate Claims(existing: Job, job: Job, since: Instant) {
    && existing.queue == job.queue && existing.worker == job.worker && existing.uniqueKey == job.uniqueKey
    && (existing.state == Available || existing.state == Scheduled || existing.state == Executing || existing.state == Retryable)
    && existing.insertedAt >= since
  }

  /** A job is refused if and only if it is unique and a stored job claims its key within its period. */
  lemma RefusedWhen(s: StoreState, job: Job, wall: Instant)
    ensures var now := if job.insertedAt == 0 then wall else job.insertedAt;
      && InsertTime(job, wall) == now
      && (Blocked(s, job, now) <==>
            job.uniqueKey != "" && job.uniquePeriod > 0
            && exists id :: id in s.jobs && Claims(s.jobs[id], job, now - job.uniquePeriod))
  {
    var now := InsertTime(job, wall);
    forall id | id in s.jobs
      ensures ConflictsWith(s.jobs[id], job, now) <==> Claims(s.jobs[id], job, now - job.uniquePeriod)
    {
    }
  }

  /** A job of another queue, worker or key makes no difference to whether a job is refused. */
  lemma OthersDoNotBlock(s: StoreState, a: Job, wall: Instant, b: Job, now: Instant)
    requires Valid(s) && (a.queue != b.queue || a.worker != b.worker || a.uniqueKey != b.uniqueKey)
    ensures Blocked(EnqueueStep(s, a, wall), b, now) <==> Blocked(s, b, now)
  {
    var s' := EnqueueStep(s, a, wall);
    if Blocked(s, b, now) {
      var id :| id in s.jobs && ConflictsWith(s.jobs[id], b, now);
      assert id in s'.jobs && ConflictsWith(s'.jobs[id], b, now);
    }
  }

  /** So two such jobs are both inserted into an empty store. */
  lemma BothStored(a: Job, b: Job, first: Instant, second: Instant)
    requires a.queue != b.queue || a.worker != b.worker || a.uniqueKey != b.uniqueKey
    ensures var s := EnqueueStep(EnqueueStep(StoreState(map[], 0), a, first), b, second);
      s.jobs.Keys == {1, 2} && s.jobs[1].args == a.args && s.jobs[2].args == b.args
  {
    var none := StoreState(map[], 0);
    OthersDoNotBlock(none, a, first, b, InsertTime(b, second));
    var s := EnqueueStep(none, a, first);
    assert s.jobs.Keys == {1} && !Blocked(s, b, InsertTime(b, second));
    assert EnqueueStep(s, b, second).jobs.Keys == s.jobs.Keys + {2};
  }

  /** The time an accepted job asks to run at: its delay, its schedule, or at once. */
  function AskedFor(job: Job, now: Instant): Instant {
    if job.scheduleIn.Some? && now + job.scheduleIn.value != 0 then now + job.scheduleIn.value
    else if job.scheduleIn.None? && job.scheduledAt != 0 then job.scheduledAt
    else now
  }

  /** An accepted job is stored under the next ID, can run from the time it asks for, and is otherwise as given. */
  lemma StoredAs(s: StoreState, job: Job, wall: Instant, queue: string, t: Instant)
    requires Valid(s) && !Blocked(s, job, InsertTime(job, wall))
    ensures var s', id, now := EnqueueStep(s, job, wall), s.nextID + 1, InsertTime(job, wall);
      && id !in s.jobs && s'.jobs.Keys == s.jobs.Keys + {id} && (forall k :: k in s.jobs ==> s'.jobs[k] == s.jobs[k])
      && (Runnable(s'.jobs[id], queue, t) <==> queue == job.queue && AskedFor(job, now) <= t)
      && (s'.jobs[id].state == Scheduled <==> AskedFor(job, now) > now)
      && now == (if job.insertedAt == 0 then wall else job.insertedAt)
      && s'.jobs[id] == job.(id := id, insertedAt := now, scheduledAt := s'.jobs[id].scheduledAt, state := s'.jobs[id].state)
  {
  }

  // ---- Ending an attempt ----

  /** From when on a job can run again: the retry time, the end of its snooze, at once. */
  lemma RunsAgain(j: Job, at: Instant, error: Option<string>, now: Instant, queue: string, t: Instant)
    ensures Runnable(RetriedJob(j, at, error, now), queue, t) <==> queue == j.queue && at <= t
    ensures Runnable(RestartedJob(j, now), queue, t) <==> queue == j.queue && now <= t
    ensures j.state.Executing? ==> (Runnable(SnoozedJob(j, at), queue, t) <==> queue == j.queue && at <= t)
    ensures j.state.Executing? && j.attempt > 0 ==> SnoozedJob(j, at).attempt == j.attempt - 1
  {
  }

  /** A rescued job can run at once if it has attempts left, and counts as finished at once if not. */
  lemma RescueMeans(j: Job, olderThan: Instant, now: Instant, queue: string, t: Instant)
    requires j.state.Executing? && j.attemptedAt < olderThan && now != 0
    ensures var r := RescuedJob(j, olderThan, now);
      && (j.attempt < j.maxAttempts ==> (Runnable(r, queue, t) <==> queue == j.queue && now <= t))
      && (j.attempt >= j.maxAttempts ==> r.state == Discarded && FinishTime(r) == now)
  {
  }

  /** Whatever ends a job, its age for pruning counts from that moment. */
  lemma FinishedAt(j: Job, error: Option<string>, now: Instant)
    requires now != 0
    ensures FinishTime(CompletedJob(j, now)) == now && CompletedJob(j, now).state == Completed
    ensures FinishTime(DiscardedJob(j, error, now)) == now && DiscardedJob(j, error, now).state == Discarded
    ensures j.state == Completed || j.state == Discarded || j.state == Cancelled <==> CancelledJob(j, now) == j
    ensures CancelledJob(j, now) != j ==> FinishTime(CancelledJob(j, now)) == now && CancelledJob(j, now).state == Cancelled
  {
  }

  /** A finished job is pruned by the time it finished at, provided its state is asked for; any other by its insert time. */
  lemma PrunedWhen(s: StoreState, id: int, j: Job, error: Option<string>, done: Instant, states: set<State>, cutoff: Instant)
    requires id in s.jobs && done != 0
    ensures var gone := id in Prunable(s, states, cutoff);
      && (s.jobs[id] == CompletedJob(j, done) ==> (gone <==> Completed in states && done < cutoff))
      && (s.jobs[id] == DiscardedJob(j, error, done) ==> (gone <==> Discarded in states && done < cutoff))
      && (s.jobs[id] == CancelledJob(j, done) != j ==> (gone <==> Cancelled in states && done < cutoff))
      && (s.jobs[id] == RestartedJob(j, done) ==> (gone <==> Available in states && j.insertedAt < cutoff))
  {
  }

  /** The jobs are the same but for their state, its times and the record of failures. */
  predicate SameTask(a: Job, b: Job) {
    && a.id == b.id && a.queue == b.queue && a.worker == b.worker && a.args == b.args && a.priority == b.priority
    && a.maxAttempts == b.maxAttempts && a.attempt == b.attempt && a.attemptedAt == b.attemptedAt
    && a.insertedAt == b.insertedAt && a.uniqueKey == b.uniqueKey && a.uniquePeriod == b.uniquePeriod
  }

  /** Ending an attempt leaves the task and its attempts alone; only a snooze takes the attempt back, if there is one. */
  lemma TaskKept(j: Job, at: Instant, error: Option<string>, now: Instant)
    ensures SameTask(CompletedJob(j, now), j) && SameTask(RetriedJob(j, at, error, now), j)
    ensures SameTask(DiscardedJob(j, error, now), j) && SameTask(CancelledJob(j, now), j)
    ensures SameTask(RestartedJob(j, now), j) && SameTask(RescuedJob(j, at, now), j)
    ensures SameTask(SnoozedJob(j, at), j) <==> !(j.state.Executing? && j.attempt > 0)
    ensures SameTask(SnoozedJob(j, at).(attempt := j.attempt), j)
    ensures var r := RestartedJob(j, now); r.completedAt == r.discardedAt == 0 && r.errors == j.errors && r.lastError == j.lastError
  {
  }

  /** A failure is recorded once, under its attempt, at its time and with its message; no failure changes the record. */
  lemma FailureRecorded(j: Job, at: Instant, m: string, now: Instant)
    ensures RetriedJob(j, at, Some(m), now).errors == DiscardedJob(j, Some(m), now).errors
      == j.errors + [AttemptError(j.attempt, now, m)]
    ensures RetriedJob(j, at, Some(m), now).lastError == DiscardedJob(j, Some(m), now).lastError == m
    ensures RetriedJob(j, at, None, now).errors == DiscardedJob(j, None, now).errors == j.errors
    ensures RetriedJob(j, at, None, now).lastError == DiscardedJob(j, None, now).lastError == j.lastError
  {
  }

  /** A failed attempt is retried at the retry time while attempts are left, and only then. */
  lemma FailureEnds(j: Job, m: string, retryAt: Instant, now: Instant)
    ensures var r := FinishJob(j, j, Failed(m), retryAt, now);
      if j.attempt < j.maxAttempts then r.state == Retryable && r.scheduledAt == retryAt else r.state == Discarded
  {
  }
}
