/** Jobs, their states and how they are built (job.go). */
module Jobs {
  import opened Options
  import opened Calendar

  datatype State = Scheduled | Available | Executing | Retryable | Completed | Discarded | Cancelled

  predicate Fetchable(s: State) { s.Available? || s.Scheduled? || s.Retryable? }
  predicate Unfinished(s: State) { Fetchable(s) || s.Executing? }
  predicate Finished(s: State) { s.Completed? || s.Discarded? || s.Cancelled? }

  /** One failed attempt. */
  datatype AttemptError = AttemptError(attempt: int, at: Instant, message: string)

  /** A job. A zero time field is "unset"; scheduleIn is the unresolved relative delay. */
  datatype Job = Job(
    id: int, queue: string, worker: string, args: string,
    maxAttempts: int, attempt: int, priority: int, state: State,
    scheduledAt: Instant, insertedAt: Instant, attemptedAt: Instant,
    completedAt: Instant, discardedAt: Instant,
    uniqueKey: string, uniquePeriod: int,
    lastError: string, errors: seq<AttemptError>,
    scheduleIn: Option<int>)
  {
    function RecordError(message: string, at: Instant): Job {
      this.(lastError := message, errors := errors + [AttemptError(attempt, at, message)])
    }
  }

  const DEFAULT_QUEUE := "default"
  const DEFAULT_MAX_ATTEMPTS := 20

  datatype JobOption =
    | WithQueue(queue: string)
    | WithMaxAttempts(n: int)
    | WithPriority(p: int)
    | WithScheduledAt(t: Instant)
    | WithScheduleIn(d: int)
    | WithUnique(key: string, period: int)
  {
    function Apply(j: Job): Job {
      match this
      case WithQueue(queue) => j.(queue := queue)
      case WithMaxAttempts(n) => j.(maxAttempts := n)
      case WithPriority(p) => j.(priority := p)
      case WithScheduledAt(t) => j.(scheduledAt := t, state := Scheduled)
      case WithScheduleIn(d) => j.(scheduleIn := Some(d), state := Scheduled)
      case WithUnique(key, period) => j.(uniqueKey := key, uniquePeriod := period)
    }
  }

  function ApplyAll(j: Job, opts: seq<JobOption>): Job {
    if opts == [] then j else opts[|opts| - 1].Apply(ApplyAll(j, opts[..|opts| - 1]))
  }

  /** NewJob; args is already JSON text ("{}" for nil). None is the empty-worker error. */
  function NewJob(worker: string, args: string, opts: seq<JobOption>): Option<Job> {
    if worker == "" then None
    else
      var blank := Job(0, DEFAULT_QUEUE, worker, args, DEFAULT_MAX_ATTEMPTS, 0, 0, Available,
                       ZERO_TIME, ZERO_TIME, ZERO_TIME, ZERO_TIME, ZERO_TIME, "", 0, "", [], None);
      var j := ApplyAll(blank, opts);
      var j := if j.queue == "" then j.(queue := DEFAULT_QUEUE) else j;
      Some(if j.maxAttempts <= 0 then j.(maxAttempts := DEFAULT_MAX_ATTEMPTS) else j)
  }

  /** A job that has never run and may run at least once. */
  predicate Unstarted(j: Job) {
    && j.maxAttempts >= 1 && j.attempt == 0 && j.errors == []
    && j.attemptedAt == ZERO_TIME && j.completedAt == ZERO_TIME && j.discardedAt == ZERO_TIME
  }

  lemma {:induction false} ApplyAllKeeps(j: Job, opts: seq<JobOption>)
    ensures var k := ApplyAll(j, opts);
      && k.attempt == j.attempt && k.errors == j.errors && k.worker == j.worker && k.insertedAt == j.insertedAt
      && k.attemptedAt == j.attemptedAt && k.completedAt == j.completedAt && k.discardedAt == j.discardedAt
  {
    if opts == [] {
    } else {
      ApplyAllKeeps(j, opts[..|opts| - 1]);
    }
  }

  /** Whatever options it is given, NewJob builds an unstarted job with a queue and a worker. */
  lemma NewJobUnstarted(worker: string, args: string, opts: seq<JobOption>)
    requires worker != ""
    ensures NewJob(worker, args, opts).Some?
    ensures var j := NewJob(worker, args, opts).value;
      Unstarted(j) && j.queue != "" && j.worker == worker && j.insertedAt == ZERO_TIME
  {
    var blank := Job(0, DEFAULT_QUEUE, worker, args, DEFAULT_MAX_ATTEMPTS, 0, 0, Available,
                     ZERO_TIME, ZERO_TIME, ZERO_TIME, ZERO_TIME, ZERO_TIME, "", 0, "", [], None);
    ApplyAllKeeps(blank, opts);
  }

  /** Of two options for one thing the later wins. */
  lemma LastOptionWins(worker: string, args: string, opts: seq<JobOption>, queue: string, n: int, p: int)
    requires worker != ""
    ensures NewJob(worker, args, opts + [WithPriority(p)]).value.priority == p
    ensures queue != "" ==> NewJob(worker, args, opts + [WithQueue(queue)]).value.queue == queue
    ensures n > 0 ==> NewJob(worker, args, opts + [WithMaxAttempts(n)]).value.maxAttempts == n
  {
    forall o: JobOption ensures (opts + [o])[..|opts|] == opts {}
  }

  /** What NewJob chooses by itself, and where an option's value goes. */
  lemma NewJobFields(worker: string, args: string, queue: string, n: int, p: int, at: Instant, d: int, key: string, period: int)
    requires worker != ""
    ensures var j := NewJob(worker, args, []).value;
      && j.queue == "default" && j.maxAttempts == 20 && j.priority == 0 && j.state == Available
      && j.args == args && j.scheduledAt == 0 && j.scheduleIn == None && j.uniqueKey == "" && j.uniquePeriod == 0
    ensures NewJob(worker, args, [WithQueue(queue)]).value.queue == if queue == "" then "default" else queue
    ensures NewJob(worker, args, [WithMaxAttempts(n)]).value.maxAttempts == if n <= 0 then 20 else n
    ensures NewJob(worker, args, [WithPriority(p)]).value.priority == p
    ensures var j := NewJob(worker, args, [WithScheduledAt(at)]).value; j.scheduledAt == at && j.state == Scheduled
    ensures var j := NewJob(worker, args, [WithScheduleIn(d)]).value; j.scheduleIn == Some(d) && j.state == Scheduled
    ensures NewJob(worker, args, [WithUnique(key, period)]).value.uniqueKey == key
    ensures NewJob(worker, args, [WithUnique(key, period)]).value.uniquePeriod == period
    ensures NewJob("", args, []) == None
  {
    forall o: JobOption, j: Job ensures ApplyAll(j, [o]) == o.Apply(j) {
      assert [o][..0] == [];
    }
  }
}
