/**
 SQLStore (sqlstore.go): each statement or transaction as one atomic, guarded step
 over a table of rows, and its relation to the in-memory store.
 */
module SqlStore {
  import opened Options
  import opened Calendar
  import opened Jobs
  import opened StoreSpec
  import opened OwnerRuns

  /** A table row: nullable columns are options, the error history is JSON both ways. */
  datatype Row = Row(
    id: int, queue: string, worker: string, args: string,
    maxAttempts: int, attempt: int, priority: int, state: State,
    scheduledAt: Instant, insertedAt: Instant, attemptedAt: Option<Instant>,
    completedAt: Option<Instant>, discardedAt: Option<Instant>,
    uniqueKey: Option<string>, uniquePeriod: int,
    lastError: Option<string>, errors: seq<AttemptError>)

  datatype Table = Table(rows: map<int, Row>, lastID: int)

  function NullTime(t: Instant): Option<Instant> { if t == ZERO_TIME then None else Some(t) }
  function FromNullTime(o: Option<Instant>): Instant { match o case Some(t) => t case None => ZERO_TIME }
  function NullStr(s: string): Option<string> { if s == "" then None else Some(s) }
  function FromNullStr(o: Option<string>): string { match o case Some(s) => s case None => "" }

  /** sqlstoreInsert. */
  function ToRow(j: Job): Row {
    Row(j.id, j.queue, j.worker, if j.args == "" then "{}" else j.args, j.maxAttempts, j.attempt, j.priority, j.state,
        j.scheduledAt, j.insertedAt, NullTime(j.attemptedAt), NullTime(j.completedAt), NullTime(j.discardedAt),
        NullStr(j.uniqueKey), j.uniquePeriod, NullStr(j.lastError), j.errors)
  }

  /** sqlstoreScanJob. */
  function FromRow(r: Row): Job {
    Job(r.id, r.queue, r.worker, r.args, r.maxAttempts, r.attempt, r.priority, r.state,
        r.scheduledAt, r.insertedAt, FromNullTime(r.attemptedAt), FromNullTime(r.completedAt), FromNullTime(r.discardedAt),
        FromNullStr(r.uniqueKey), r.uniquePeriod, FromNullStr(r.lastError), r.errors, None)
  }

  /** The part of a job the table keeps. */
  function Visible(j: Job): Job {
    j.(scheduleIn := None, args := if j.args == "" then "{}" else j.args)
  }

  /** Writing a job and scanning it back loses nothing visible. */
  lemma RowRoundTrip(j: Job)
    ensures FromRow(ToRow(j)) == Visible(j)
    ensures Visible(j).args == (if j.args == "" then "{}" else j.args) && Visible(j) == j.(args := Visible(j).args, scheduleIn := None)
    ensures var r := ToRow(j);
      && (r.attemptedAt == None <==> j.attemptedAt == 0) && (r.completedAt == None <==> j.completedAt == 0)
      && (r.discardedAt == None <==> j.discardedAt == 0)
      && (r.uniqueKey == None <==> j.uniqueKey == "") && (r.lastError == None <==> j.lastError == "")
  {
  }

  // ---- Transitions ----

  ghost predicate SqlConflict(t: Table, job: Job, now: Instant) {
    Unique(job) && exists id :: id in t.rows && ConflictsWith(FromRow(t.rows[id]), job, now)
  }

  ghost function SqlEnqueue(t: Table, job: Job, wall: Instant): Table {
    var now := InsertTime(job, wall);
    var stored := Resolved(job, t.lastID + 1, now);
    if SqlConflict(t, stored, now) then t
    else Table(t.rows[t.lastID + 1 := ToRow(stored)], t.lastID + 1)
  }

  function SqlCandidates(t: Table, queue: string, now: Instant): set<Job> {
    set id | id in t.rows && Eligible(FromRow(t.rows[id]), queue, now) :: FromRow(t.rows[id])
  }

  ghost predicate ValidTable(t: Table) {
    forall id :: id in t.rows ==> t.rows[id].id == id
  }

  /** SELECT ... ORDER BY priority, scheduled_at, id LIMIT limit. */
  ghost function SqlPicked(t: Table, queue: string, limit: int, now: Instant): seq<Job>
    requires ValidTable(t)
  {
    var r := Ranking(SqlCandidates(t, queue, now));
    if limit <= 0 then [] else r[..Min(limit, |r|)]
  }

  ghost function SqlFetched(t: Table, queue: string, limit: int, now: Instant): seq<Job>
    requires ValidTable(t)
  {
    MarkedAll(SqlPicked(t, queue, limit, now), now)
  }

  /** UPDATE ... SET state = executing, attempt = attempt + 1, attempted_at = now. */
  function ExecutingRow(r: Row, now: Instant): Row {
    r.(state := Executing, attempt := r.attempt + 1, attemptedAt := Some(now))
  }

  ghost function SqlFetch(t: Table, queue: string, limit: int, now: Instant): Table
    requires ValidTable(t)
  {
    var ids := IdsOf(SqlPicked(t, queue, limit, now));
    t.(rows := map id | id in t.rows :: if id in ids then ExecutingRow(t.rows[id], now) else t.rows[id])
  }

  /** Complete: guarded by state = executing. */
  function SqlComplete(r: Row, now: Instant): Row {
    if r.state.Executing? then r.(state := Completed, completedAt := Some(now)) else r
  }

  /** sqlstoreFail: guarded; last_error is overwritten even when there is no error. */
  function SqlNoted(r: Row, error: Option<string>, now: Instant): Row {
    match error
    case Some(m) => r.(lastError := NullStr(m), errors := r.errors + [AttemptError(r.attempt, now, m)])
    case None => r.(lastError := None)
  }

  function SqlRetry(r: Row, at: Instant, error: Option<string>, now: Instant): Row {
    if r.state.Executing? then SqlNoted(r, error, now).(state := Retryable, scheduledAt := at) else r
  }

  function SqlDiscard(r: Row, error: Option<string>, now: Instant): Row {
    if r.state.Executing? then SqlNoted(r, error, now).(state := Discarded, discardedAt := Some(now)) else r
  }

  function SqlCancel(r: Row, now: Instant): Row {
    if Finished(r.state) then r else r.(state := Cancelled, discardedAt := Some(now))
  }

  function SqlRetryNow(r: Row, now: Instant): Row {
    r.(state := Available, scheduledAt := now, completedAt := None, discardedAt := None)
  }

  function SqlRescue(r: Row, olderThan: Instant, now: Instant): Row {
    if r.state.Executing? && r.attemptedAt.Some? && r.attemptedAt.value < olderThan then
      if r.attempt < r.maxAttempts then r.(state := Available, scheduledAt := now)
      else r.(state := Discarded, discardedAt := Some(now))
    else r
  }

  function SqlRescueAll(t: Table, olderThan: Instant, now: Instant): Table {
    t.(rows := map id | id in t.rows :: SqlRescue(t.rows[id], olderThan, now))
  }

  /** COALESCE(completed_at, discarded_at, inserted_at). */
  function Coalesced(r: Row): Instant {
    if r.completedAt.Some? then r.completedAt.value
    else if r.discardedAt.Some? then r.discardedAt.value
    else r.insertedAt
  }

  function SqlPrunable(t: Table, cutoff: Instant): set<int> {
    set id | id in t.rows && Finished(t.rows[id].state) && Coalesced(t.rows[id]) < cutoff
  }

  // ---- The guard is what tells the two stores apart ----

  /** Complete does the same in both stores exactly when the job is executing, or was completed at that very time. */
  lemma CompleteAgrees(j: Job, now: Instant)
    requires now != ZERO_TIME
    ensures SqlComplete(ToRow(j), now) == ToRow(CompletedJob(j, now))
      <==> j.state.Executing? || (j.state.Completed? && j.completedAt == now)
  {
  }

  /** Retry and Discard with an error do the same in both stores exactly when the job is executing. */
  lemma FailureAgrees(j: Job, at: Instant, m: string, now: Instant)
    requires now != ZERO_TIME
    ensures SqlRetry(ToRow(j), at, Some(m), now) == ToRow(RetriedJob(j, at, Some(m), now)) <==> j.state.Executing?
    ensures SqlDiscard(ToRow(j), Some(m), now) == ToRow(DiscardedJob(j, Some(m), now)) <==> j.state.Executing?
  {
    assert |RetriedJob(j, at, Some(m), now).errors| == |DiscardedJob(j, Some(m), now).errors| == |j.errors| + 1;
  }

  /**
   Without an error the SQL store clears the last one and the in-memory store keeps it, so an
   executing job comes out the same exactly when it has none; any other job when the call changes nothing.
   */
  lemma SilentFailureAgrees(j: Job, at: Instant, now: Instant)
    requires now != ZERO_TIME
    ensures SqlRetry(ToRow(j), at, None, now) == ToRow(RetriedJob(j, at, None, now)) <==>
      if j.state == Executing then j.lastError == "" else j.state == Retryable && j.scheduledAt == at
    ensures SqlDiscard(ToRow(j), None, now) == ToRow(DiscardedJob(j, None, now)) <==>
      if j.state == Executing then j.lastError == "" else j.state == Discarded && j.discardedAt == now
  {
  }

  /** The operator calls need no guard to agree: Cancel and RetryNow do the same in both stores whatever the state. */
  lemma OperatorsAgree(j: Job, now: Instant)
    requires now != ZERO_TIME
    ensures SqlCancel(ToRow(j), now) == ToRow(CancelledJob(j, now))
    ensures SqlRetryNow(ToRow(j), now) == ToRow(RestartedJob(j, now))
  {
  }

  /**
   A rescue does the same in both stores exactly when it need not judge an executing job
   without an attempt time: NULL < t is never true, but the zero time is before every later one.
   */
  lemma RescueAgrees(j: Job, olderThan: Instant, now: Instant)
    requires now != ZERO_TIME
    ensures SqlRescue(ToRow(j), olderThan, now) == ToRow(RescuedJob(j, olderThan, now))
      <==> !(j.state.Executing? && j.attemptedAt == ZERO_TIME && ZERO_TIME < olderThan)
  {
  }

  // ---- The stores stay in step along owner runs ----

  /** The SQL store has no Snooze; every other outcome it can record. */
  predicate SqlOutcome(o: Outcome) { !o.OwnerSnoozes? }

  predicate SqlEnabled(r: Run, step: Step) {
    && Enabled(r, step)
    && match step
       case EnqueueJob(_, _) => true
       case Fetch(_, _, now) => now != ZERO_TIME
       case Finish(_, outcome, _, now) => SqlOutcome(outcome) && now != ZERO_TIME
  }

  function SqlFinish(r: Row, clone: Job, outcome: Outcome, retryAt: Instant, now: Instant): Row
    requires SqlOutcome(outcome)
  {
    match outcome
    case Succeeded => SqlComplete(r, now)
    case Failed(m) =>
      if clone.attempt >= clone.maxAttempts then SqlDiscard(r, Some(m), now) else SqlRetry(r, retryAt, Some(m), now)
    case Unregistered(m) => SqlDiscard(r, Some(m), now)
    case OwnerCancels => SqlCancel(r, now)
  }

  /** The same step on the table. Whose clone decides does not matter: both stores handed out the same. */
  ghost function SqlDo(t: Table, r: Run, step: Step): Table
    requires ValidTable(t) && SqlEnabled(r, step)
  {
    match step
    case EnqueueJob(job, wall) => SqlEnqueue(t, job, wall)
    case Fetch(queue, limit, now) => SqlFetch(t, queue, limit, now)
    case Finish(id, outcome, retryAt, now) =>
      if id in t.rows then t.(rows := t.rows[id := SqlFinish(t.rows[id], r.held[id], outcome, retryAt, now)]) else t
  }

  ghost predicate InStep(s: StoreState, t: Table) {
    && t.lastID == s.nextID
    && t.rows == map id | id in s.jobs :: ToRow(s.jobs[id])
  }

  lemma ConflictSame(e: Job, job: Job, id: int, now: Instant)
    ensures Unique(job) ==>
      (ConflictsWith(FromRow(ToRow(e)), Resolved(job, id, now), now) <==> ConflictsWith(e, job, now))
  {
  }

  lemma EnqueueInStep(s: StoreState, t: Table, job: Job, wall: Instant)
    requires InStep(s, t)
    ensures InStep(EnqueueStep(s, job, wall), SqlEnqueue(t, job, wall))
    ensures var now := InsertTime(job, wall);
      SqlConflict(t, Resolved(job, t.lastID + 1, now), now) <==> Blocked(s, job, now)
  {
    var now := InsertTime(job, wall);
    var stored := Resolved(job, t.lastID + 1, now);
    hide ConflictsWith, ToRow, FromRow;
    forall id | id in s.jobs && Unique(job)
      ensures ConflictsWith(FromRow(t.rows[id]), stored, now) <==> ConflictsWith(s.jobs[id], job, now)
    {
      ConflictSame(s.jobs[id], job, t.lastID + 1, now);
    }
    if SqlConflict(t, stored, now) {
      var id :| id in t.rows && ConflictsWith(FromRow(t.rows[id]), stored, now);
      assert ConflictsWith(s.jobs[id], job, now);
    }
    if Blocked(s, job, now) {
      var id :| id in s.jobs && ConflictsWith(s.jobs[id], job, now);
      assert ConflictsWith(FromRow(t.rows[id]), stored, now);
    }
  }

  function VisibleAll(js: seq<Job>): seq<Job> {
    seq(|js|, i requires 0 <= i < |js| => Visible(js[i]))
  }

  /** Both stores pick the same jobs in the same order. */
  lemma PickedInStep(s: StoreState, t: Table, queue: string, limit: int, now: Instant)
    requires Valid(s) && InStep(s, t) && ValidTable(t)
    ensures SqlPicked(t, queue, limit, now) == VisibleAll(Picked(s, queue, limit, now))
  {
    var c, d := Candidates(s, queue, now), SqlCandidates(t, queue, now);
    var r := Ranking(c);
    ElementsAt(r);
    assert Ordered(VisibleAll(r)) by {
      forall i, k | 0 <= i < k < |r| ensures Before(VisibleAll(r)[i], VisibleAll(r)[k]) {
        assert Before(r[i], r[k]);
      }
    }
    VisibleElements(s, t, r, queue, now);
    RanksUnique(Ranking(d), VisibleAll(r), d);
  }

  lemma VisibleElements(s: StoreState, t: Table, r: seq<Job>, queue: string, now: Instant)
    requires Valid(s) && InStep(s, t) && Elements(r) == Candidates(s, queue, now)
    ensures Elements(VisibleAll(r)) == SqlCandidates(t, queue, now)
  {
    hide ToRow, FromRow;
    var v, d := VisibleAll(r), SqlCandidates(t, queue, now);
    ElementsAt(r);
    ElementsAt(v);
    forall j | j in Elements(v) ensures j in d {
      var i :| 0 <= i < |v| && v[i] == j;
      assert r[i] in Candidates(s, queue, now);
      var id := r[i].id;
      RowRoundTrip(r[i]);
      assert id in t.rows && FromRow(t.rows[id]) == j;
    }
    forall j | j in d ensures j in Elements(v) {
      var id :| id in t.rows && FromRow(t.rows[id]) == j && Eligible(j, queue, now);
      RowRoundTrip(s.jobs[id]);
      assert s.jobs[id] in Candidates(s, queue, now);
      assert s.jobs[id] in Elements(r);
      var i :| 0 <= i < |r| && r[i] == s.jobs[id];
      assert v[i] == j;
    }
  }

  lemma FetchInStep(s: StoreState, t: Table, queue: string, limit: int, now: Instant)
    requires Valid(s) && InStep(s, t) && ValidTable(t) && now != ZERO_TIME
    ensures InStep(FetchStep(s, queue, limit, now), SqlFetch(t, queue, limit, now))
    ensures SqlFetched(t, queue, limit, now) == VisibleAll(Fetched(s, queue, limit, now))
  {
    hide ToRow, ExecutingRow, Marked, Picked, SqlPicked, Valid, ValidTable;
    PickedInStep(s, t, queue, limit, now);
    var js := Picked(s, queue, limit, now);
    SameIds(js);
    forall id | id in s.jobs ensures ExecutingRow(t.rows[id], now) == ToRow(Marked(s.jobs[id], now)) {
      RowMarked(s.jobs[id], now);
    }
    VisibleMarked(js, now);
  }

  lemma RowMarked(j: Job, now: Instant)
    requires now != ZERO_TIME
    ensures ExecutingRow(ToRow(j), now) == ToRow(Marked(j, now))
  {
  }

  lemma VisibleMarked(js: seq<Job>, now: Instant)
    ensures MarkedAll(VisibleAll(js), now) == VisibleAll(MarkedAll(js, now))
  {
  }

  lemma SameIds(js: seq<Job>)
    ensures IdsOf(VisibleAll(js)) == IdsOf(js)
  {
    ElementsAt(js);
    ElementsAt(VisibleAll(js));
    forall id | id in IdsOf(VisibleAll(js)) ensures id in IdsOf(js) {
      var i :| 0 <= i < |js| && VisibleAll(js)[i].id == id;
      assert js[i].id == id;
    }
    forall id | id in IdsOf(js) ensures id in IdsOf(VisibleAll(js)) {
      var i :| 0 <= i < |js| && js[i].id == id;
      assert VisibleAll(js)[i].id == id;
    }
  }

  lemma FailureInStep(j: Job, at: Instant, m: string, now: Instant)
    requires j.state.Executing? && now != ZERO_TIME
    ensures SqlDiscard(ToRow(j), Some(m), now) == ToRow(DiscardedJob(j, Some(m), now))
    ensures SqlRetry(ToRow(j), at, Some(m), now) == ToRow(RetriedJob(j, at, Some(m), now))
  {
  }

  lemma SuccessInStep(j: Job, now: Instant)
    requires j.state.Executing? && now != ZERO_TIME
    ensures SqlComplete(ToRow(j), now) == ToRow(CompletedJob(j, now))
    ensures SqlCancel(ToRow(j), now) == ToRow(CancelledJob(j, now))
  {
  }

  lemma FinishInStep(j: Job, clone: Job, outcome: Outcome, retryAt: Instant, now: Instant)
    requires j.state.Executing? && SqlOutcome(outcome) && now != ZERO_TIME
    ensures SqlFinish(ToRow(j), clone, outcome, retryAt, now) == ToRow(FinishJob(j, clone, outcome, retryAt, now))
  {
    hide ToRow, SqlDiscard, SqlRetry, SqlComplete, SqlCancel, DiscardedJob, RetriedJob, CompletedJob, CancelledJob;
    SuccessInStep(j, now);
    match outcome {
      case Failed(m) => FailureInStep(j, retryAt, m, now);
      case Unregistered(m) => FailureInStep(j, retryAt, m, now);
      case _ =>
    }
  }

  /** One step of an owner run keeps the two stores in step: the ownership invariant stands in for the missing guard. */
  lemma StepInStep(r: Run, t: Table, step: Step)
    requires Inv(r) && InStep(r.store, t) && SqlEnabled(r, step)
    ensures ValidTable(t) && InStep(Do(r, step).store, SqlDo(t, r, step))
  {
    hide Booked, Spaced, ToRow;
    assert ValidTable(t) by { KeepsIds(r.store, t); }
    match step {
      case EnqueueJob(job, wall) => EnqueueInStep(r.store, t, job, wall);
      case Fetch(queue, limit, now) => FetchInStep(r.store, t, queue, limit, now);
      case Finish(id, outcome, retryAt, now) =>
        FinishInStep(r.store.jobs[id], r.held[id], outcome, retryAt, now);
    }
  }

  lemma KeepsIds(s: StoreState, t: Table)
    requires Valid(s) && InStep(s, t)
    ensures ValidTable(t)
  {
  }

  /** The same steps on the in-memory store and on a table. */
  ghost predicate SqlLeads(a: Run, v: Table, steps: seq<Step>, r: Run, t: Table) {
    if steps == [] then r == a && t == v
    else
      var n := |steps| - 1;
      exists q, u :: SqlLeads(a, v, steps[..n], q, u) && Valid(q.store) && ValidTable(u) && SqlEnabled(q, steps[n])
                     && r == Do(q, steps[n]) && t == SqlDo(u, q, steps[n])
  }

  lemma SqlLast(a: Run, v: Table, steps: seq<Step>, r: Run, t: Table) returns (q: Run, u: Table)
    requires SqlLeads(a, v, steps, r, t) && steps != []
    ensures var n := |steps| - 1;
      && SqlLeads(a, v, steps[..n], q, u) && Valid(q.store) && ValidTable(u) && SqlEnabled(q, steps[n])
      && r == Do(q, steps[n]) && t == SqlDo(u, q, steps[n])
  {
    hide Do, SqlDo, Valid, ValidTable;
    var n := |steps| - 1;
    q, u :| SqlLeads(a, v, steps[..n], q, u) && Valid(q.store) && ValidTable(u) && SqlEnabled(q, steps[n])
            && r == Do(q, steps[n]) && t == SqlDo(u, q, steps[n]);
  }

  /** From the same jobs, the guarded SQL store and the unguarded in-memory store hold the same jobs along every owner run. */
  lemma {:induction false} StoresInStep(a: Run, v: Table, steps: seq<Step>, r: Run, t: Table)
    requires Inv(a) && InStep(a.store, v) && SqlLeads(a, v, steps, r, t)
    ensures Leads(a, steps, r) && Inv(r) && InStep(r.store, t)
    decreases |steps|
  {
    hide Inv, Do, SqlDo, InStep, Valid, ValidTable, SqlLeads;
    if steps == [] {
      SqlNowhere(a, v, r, t);
    } else {
      var n := |steps| - 1;
      var q, u := SqlLast(a, v, steps, r, t);
      StoresInStep(a, v, steps[..n], q, u);
      StepKeeps(q, steps[n]);
      StepInStep(q, u, steps[n]);
    }
  }

  lemma SqlNowhere(a: Run, v: Table, r: Run, t: Table)
    requires SqlLeads(a, v, [], r, t)
    ensures r == a && t == v
  {
  }

  /** ... and they answer alike: the same fetched jobs, and the same verdict on duplicates. */
  lemma AnswersInStep(a: Run, v: Table, steps: seq<Step>, r: Run, t: Table, queue: string, limit: int, job: Job, now: Instant)
    requires Inv(a) && InStep(a.store, v) && SqlLeads(a, v, steps, r, t) && now != ZERO_TIME
    ensures Valid(r.store) && ValidTable(t)
    ensures SqlFetched(t, queue, limit, now) == VisibleAll(Fetched(r.store, queue, limit, now))
    ensures var at := InsertTime(job, now);
      SqlConflict(t, Resolved(job, t.lastID + 1, at), at) <==> Blocked(r.store, job, at)
  {
    StoresInStep(a, v, steps, r, t);
    KeepsIds(r.store, t);
    FetchInStep(r.store, t, queue, limit, now);
    EnqueueInStep(r.store, t, job, now);
  }

  /** Every executing job has an attempt time. */
  ghost predicate Attempted(s: StoreState) {
    forall id :: id in s.jobs && s.jobs[id].state.Executing? ==> s.jobs[id].attemptedAt != ZERO_TIME
  }

  lemma AttemptedStep(r: Run, step: Step)
    requires Inv(r) && SqlEnabled(r, step) && Attempted(r.store)
    ensures Attempted(Do(r, step).store)
  {
    hide Booked, Spaced, Picked, Fetched;
    match step {
      case Finish(id, outcome, retryAt, now) => FinishedStops(r.store.jobs[id], outcome, retryAt, now);
      case _ =>
    }
  }

  lemma {:induction false} AttemptedInRun(a: Run, v: Table, steps: seq<Step>, r: Run, t: Table)
    requires Inv(a) && InStep(a.store, v) && Attempted(a.store) && SqlLeads(a, v, steps, r, t)
    ensures Attempted(r.store)
    decreases |steps|
  {
    hide Inv, Do, SqlDo, InStep, Valid, ValidTable, SqlLeads, Attempted;
    if steps == [] {
      SqlNowhere(a, v, r, t);
    } else {
      var n := |steps| - 1;
      var q, u := SqlLast(a, v, steps, r, t);
      AttemptedInRun(a, v, steps[..n], q, u);
      StoresInStep(a, v, steps[..n], q, u);
      AttemptedStep(q, steps[n]);
    }
  }

  /** A rescue after any such run keeps the stores in step: no job that a nonzero clock fetched is without an attempt time. */
  lemma RescueInStep(a: Run, v: Table, steps: seq<Step>, r: Run, t: Table, olderThan: Instant, now: Instant)
    requires Inv(a) && InStep(a.store, v) && Attempted(a.store) && SqlLeads(a, v, steps, r, t) && now != ZERO_TIME
    ensures InStep(RescueStep(r.store, olderThan, now), SqlRescueAll(t, olderThan, now))
  {
    StoresInStep(a, v, steps, r, t);
    AttemptedInRun(a, v, steps, r, t);
    hide Inv, SqlLeads, ToRow, SqlRescue, RescuedJob;
    forall id | id in r.store.jobs
      ensures SqlRescue(ToRow(r.store.jobs[id]), olderThan, now) == ToRow(RescuedJob(r.store.jobs[id], olderThan, now))
    {
      RescueAgrees(r.store.jobs[id], olderThan, now);
    }
  }

  // ---- Timestamps under operator calls in any order ----

  /** Remove stands for Delete and for DeleteFinishedBefore. */
  datatype SqlStep =
    | Insert(job: Job, wall: Instant)
    | Take(queue: string, limit: int, at: Instant)
    | Complete(id: int, at: Instant)
    | Retry(id: int, until: Instant, error: Option<string>, at: Instant)
    | Discard(id: int, error: Option<string>, at: Instant)
    | Cancel(id: int, at: Instant)
    | RetryNow(id: int, at: Instant)
    | Rescue(olderThan: Instant, at: Instant)
    | Remove(ids: set<int>)

  /** Clocks never read the zero time, and jobs are enqueued with zero timestamps. */
  predicate Sane(step: SqlStep) {
    match step
    case Insert(job, wall) => wall != ZERO_TIME && job.completedAt == ZERO_TIME && job.discardedAt == ZERO_TIME
    case Remove(_) => true
    case _ => step.at != ZERO_TIME
  }

  function Update(t: Table, id: int, f: Row -> Row): Table {
    if id in t.rows then t.(rows := t.rows[id := f(t.rows[id])]) else t
  }

  ghost function SqlApply(t: Table, step: SqlStep): Table
    requires ValidTable(t)
  {
    match step
    case Insert(job, wall) => SqlEnqueue(t, job, wall)
    case Take(queue, limit, at) => SqlFetch(t, queue, limit, at)
    case Complete(id, at) => Update(t, id, r => SqlComplete(r, at))
    case Retry(id, until, error, at) => Update(t, id, r => SqlRetry(r, until, error, at))
    case Discard(id, error, at) => Update(t, id, r => SqlDiscard(r, error, at))
    case Cancel(id, at) => Update(t, id, r => SqlCancel(r, at))
    case RetryNow(id, at) => Update(t, id, r => SqlRetryNow(r, at))
    case Rescue(olderThan, at) => SqlRescueAll(t, olderThan, at)
    case Remove(ids) => t.(rows := t.rows - ids)
  }

  /** A finish time is set only in the state it belongs to, and is never the zero time. */
  ghost predicate Stamped(r: Row) {
    && (r.completedAt.Some? ==> r.state.Completed? && r.completedAt.value != ZERO_TIME)
    && (r.discardedAt.Some? ==> (r.state.Discarded? || r.state.Cancelled?) && r.discardedAt.value != ZERO_TIME)
  }

  ghost predicate AllStamped(t: Table) {
    ValidTable(t) && forall id :: id in t.rows ==> Stamped(t.rows[id])
  }

  lemma SqlStepStamped(t: Table, step: SqlStep)
    requires AllStamped(t) && Sane(step)
    ensures AllStamped(SqlApply(t, step))
  {
    match step {
      case Take(queue, limit, at) => TakeStamped(t, queue, limit, at);
      case _ =>
    }
  }

  lemma TakeStamped(t: Table, queue: string, limit: int, at: Instant)
    requires AllStamped(t)
    ensures AllStamped(SqlFetch(t, queue, limit, at))
  {
    var c := SqlCandidates(t, queue, at);
    var r := Ranking(c);
    ElementsAt(r);
    var js := SqlPicked(t, queue, limit, at);
    forall id | id in IdsOf(js) && id in t.rows ensures Fetchable(t.rows[id].state) {
      var i :| 0 <= i < |js| && js[i].id == id;
      assert r[i] in c;
    }
  }

  ghost predicate SqlRun(steps: seq<SqlStep>, t: Table) {
    if steps == [] then t == Table(map[], 0)
    else
      var n := |steps| - 1;
      exists u :: SqlRun(steps[..n], u) && ValidTable(u) && Sane(steps[n]) && t == SqlApply(u, steps[n])
  }

  lemma {:induction false} SqlRunStamped(steps: seq<SqlStep>, t: Table)
    requires SqlRun(steps, t)
    ensures AllStamped(t)
    decreases |steps|
  {
    if steps == [] {
    } else {
      var n := |steps| - 1;
      var u :| SqlRun(steps[..n], u) && ValidTable(u) && Sane(steps[n]) && t == SqlApply(u, steps[n]);
      SqlRunStamped(steps[..n], u);
      SqlStepStamped(u, steps[n]);
    }
  }

  /**
   In every reachable table, pruning by COALESCE deletes what an unlimited in-memory
   prune over the three finished states would delete.
   */
  lemma PruneSame(steps: seq<SqlStep>, t: Table, cutoff: Instant)
    requires SqlRun(steps, t)
    ensures var s := StoreState(map id | id in t.rows :: FromRow(t.rows[id]), t.lastID);
      SqlPrunable(t, cutoff) == Prunable(s, {Completed, Discarded, Cancelled}, cutoff)
  {
    SqlRunStamped(steps, t);
    forall id | id in t.rows && Finished(t.rows[id].state)
      ensures Coalesced(t.rows[id]) == FinishTime(FromRow(t.rows[id]))
    {
      assert Stamped(t.rows[id]);
    }
  }
}
